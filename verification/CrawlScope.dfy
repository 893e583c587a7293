/** The scope part of filter_links, and that a whole crawl stays inside its seed's tree. */
module CrawlScope {
  import opened Common
  import opened TextOps
  import opened Messages
  import opened CrawlProtocol
  import opened CrawlScopeRuns
  import opened CrawlerTrap
  import opened RecursiveCrawl
  import opened UrlNormalization

  // ---------------------------------------------------------------------
  // Domain
  // ---------------------------------------------------------------------

  /** The last two labels, which _registrable_domain falls back to without tldextract. */
  function LastTwoLabels(host: Text): Text {
    var labels := Split(host, DOT);
    if |labels| >= 2 then Join(labels[|labels| - 2..], DOT) else host
  }

  function HostOf(url: Text): Option<Text> {
    match UrlParse(url)
    case None => None
    case Some(p) => if Hostname(p.netloc) == [] then None else Some(Hostname(p.netloc))
  }

  /** Whether two hosts, if there are two, have one registrable domain. */
  predicate OneDomain(g: Option<Text>, h: Option<Text>) {
    g.Some? && h.Some? && LastTwoLabels(g.value) == LastTwoLabels(h.value)
  }

  predicate IsSameDomain(a: Text, b: Text) {
    OneDomain(HostOf(a), HostOf(b))
  }

  lemma JoinTwo(a: Text, b: Text)
    ensures Join([a, b], DOT) == a + [DOT] + b
  {
    assert [a, b][1..] == [b];
  }

  lemma LastTwoOf(host: Text, labels: seq<Text>)
    requires Split(host, DOT) == labels && |labels| >= 2
    ensures LastTwoLabels(host) == labels[|labels| - 2] + [DOT] + labels[|labels| - 1]
  {
    var n := |labels| - 2;
    assert labels[n..] == [labels[n], labels[n + 1]];
    JoinTwo(labels[n], labels[n + 1]);
  }

  /** The dot-separated labels of a host. */
  function Labels(host: Text): seq<Text> {
    Split(host, DOT)
  }

  /** The same hosts, or hosts whose last two labels agree. */
  predicate SameDomainLabels(x: seq<Text>, y: seq<Text>) {
    x == y || (|x| >= 2 && |y| >= 2 && x[|x| - 2..] == y[|y| - 2..])
  }

  predicate OnOneDomain(a: Text, b: Text) {
    && UrlParse(a).Some? && UrlParse(b).Some?
    && var g, h := Hostname(UrlParse(a).value.netloc), Hostname(UrlParse(b).value.netloc);
       g != [] && h != [] && SameDomainLabels(Labels(g), Labels(h))
  }

  /** The fallback of _registrable_domain keeps the last two labels, or all of them. */
  lemma LabelsOfLastTwo(host: Text)
    ensures var x := Labels(host);
            Labels(LastTwoLabels(host)) == if |x| >= 2 then x[|x| - 2..] else x
  {
    var x := Labels(host);
    SplitParts(host, DOT);
    if |x| >= 2 {
      assert forall p :: p in x[|x| - 2..] ==> p in x;
      SplitJoin(x[|x| - 2..], DOT);
    }
  }

  lemma LastTwoOfEqual(g: Text, h: Text)
    requires LastTwoLabels(g) == LastTwoLabels(h)
    ensures SameDomainLabels(Labels(g), Labels(h))
  {
    LabelsOfLastTwo(g);
    LabelsOfLastTwo(h);
  }

  lemma EqualLastTwo(g: Text, h: Text)
    requires SameDomainLabels(Labels(g), Labels(h))
    ensures LastTwoLabels(g) == LastTwoLabels(h)
  {
    if Labels(g) == Labels(h) {
      JoinSplit(g, DOT);
      JoinSplit(h, DOT);
    }
  }

  lemma OneDomainExactly(g: Option<Text>, h: Option<Text>)
    ensures OneDomain(g, h) <==> g.Some? && h.Some? && SameDomainLabels(Labels(g.value), Labels(h.value))
  {
    if g.Some? && h.Some? {
      if LastTwoLabels(g.value) == LastTwoLabels(h.value) {
        LastTwoOfEqual(g.value, h.value);
      } else if SameDomainLabels(Labels(g.value), Labels(h.value)) {
        EqualLastTwo(g.value, h.value);
      }
    }
  }

  /** Two URLs are on one domain exactly when both have a host and the hosts are the same or
      have two labels at least and agree in the last two. */
  lemma SameDomainExactly(a: Text, b: Text)
    ensures IsSameDomain(a, b) <==> OnOneDomain(a, b)
  {
    OneDomainExactly(HostOf(a), HostOf(b));
  }

  /** A subdomain of a host is on the same domain exactly when the host has a dot itself. */
  lemma SubdomainsShareTheDomain(sub: Text, host: Text)
    ensures LastTwoLabels(sub + [DOT] + host) == LastTwoLabels(host) <==> |Split(host, DOT)| >= 2
  {
    SplitAppend(sub, host, DOT);
    LastTwoOf(sub + [DOT] + host, Split(sub, DOT) + Split(host, DOT));
    if |Split(host, DOT)| >= 2 {
      LastTwoOf(host, Split(host, DOT));
    } else {
      JoinSplit(host, DOT);
      assert Split(host, DOT) == [host];
    }
  }

  // ---------------------------------------------------------------------
  // Path prefix
  // ---------------------------------------------------------------------

  /** (urlparse(url).path or "/").rstrip("/"); empty when the URL does not parse. */
  function StrippedPath(url: Text): Text {
    match UrlParse(url)
    case None => []
    case Some(p) => RStrip(if p.path == [] then [SLASH] else p.path, SLASH)
  }

  /** Without a path the URL counts as the root, whose stripped path is empty. */
  lemma StrippedPathOf(url: Text, p: Parts)
    requires UrlParse(url) == Some(p)
    ensures StrippedPath(url) == RStrip(p.path, SLASH)
  {
    assert RStrip([SLASH], SLASH) == RStrip([SLASH][..0], SLASH) == [];
  }

  predicate UnderPrefix(linkPath: Text, prefix: Text) {
    var pp := RStrip(prefix, SLASH);
    linkPath == pp || pp + [SLASH] <= linkPath
  }

  function Segments(path: Text): seq<Text> {
    Split(path, SLASH)
  }

  /** The string test with the "/" boundary is list prefix on path segments: /amharic lets
      /amharic and /amharic/x through and not /amharic-news. */
  lemma PrefixIsSegmentPrefix(linkPath: Text, prefix: Text)
    ensures UnderPrefix(linkPath, prefix) <==> Segments(RStrip(prefix, SLASH)) <= Segments(linkPath)
  {
    var pp := RStrip(prefix, SLASH);
    if pp + [SLASH] <= linkPath {
      var rest := linkPath[|pp| + 1..];
      assert linkPath == pp + [SLASH] + rest;
      SplitAppend(pp, rest, SLASH);
    }
    if Segments(pp) <= Segments(linkPath) {
      var tail := Segments(linkPath)[|Segments(pp)|..];
      assert Segments(linkPath) == Segments(pp) + tail;
      JoinSplit(pp, SLASH);
      JoinSplit(linkPath, SLASH);
      if tail == [] {
        assert Segments(linkPath) == Segments(pp);
      } else {
        JoinAppend(Segments(pp), tail, SLASH);
        assert pp + [SLASH] <= linkPath;
      }
    }
  }

  // ---------------------------------------------------------------------
  // The filter
  // ---------------------------------------------------------------------

  /** Whether filter_links keeps a link, called as extract_and_queue_children calls it. other
      stands for the pattern lists: assets, junk and short-link domains, video, redirect and
      non-content pages, skip_domains and allowed patterns. */
  ghost predicate Accepts(other: (CrawlConfig, Text) -> bool, config: CrawlConfig, link: Text) {
    && UrlParse(link).Some?
    && UrlParse(link).value.scheme in {HTTP, HTTPS}
    && !IsTrap(link)
    && other(config, link)
    && config.seedUrl.Some?
    && var seed := config.seedUrl.value;
       && (config.sameDomainOnly != Some(false) && seed != [] ==> IsSameDomain(link, seed))
       && (StrippedPath(seed) != [] ==> UnderPrefix(StrippedPath(link), StrippedPath(seed)))
  }

  /** On the seed's domain, unless switched off, and with the seed's path segments in front. */
  predicate InScope(config: CrawlConfig, seed: Text, url: Text) {
    && (config.sameDomainOnly == Some(false) || seed == [] || OnOneDomain(url, seed))
    && (StrippedPath(seed) == [] || Segments(StrippedPath(seed)) <= Segments(StrippedPath(url)))
  }

  /** The page the crawl of a request is confined to. */
  function SeedOf(request: Message): Text
    requires request.Page?
  {
    if request.config.seedUrl.Some? then request.config.seedUrl.value else request.url
  }

  lemma StrippedTwice(url: Text)
    ensures RStrip(StrippedPath(url), SLASH) == StrippedPath(url)
  {
    RStripFixed(StrippedPath(url), SLASH);
  }

  lemma ScopeTestExactly(seed: Text, link: Text)
    ensures StrippedPath(seed) == [] || Segments(StrippedPath(seed)) <= Segments(StrippedPath(link))
            <==> (StrippedPath(seed) != [] ==> UnderPrefix(StrippedPath(link), StrippedPath(seed)))
  {
    StrippedTwice(seed);
    PrefixIsSegmentPrefix(StrippedPath(link), StrippedPath(seed));
  }

  /** The filter a page applies to a link, in terms of hosts and path segments, both ways and
      whether or not its recursive_config names a seed. */
  lemma AcceptsExactly(other: (CrawlConfig, Text) -> bool, request: Message, link: Text)
    requires request.Page?
    ensures Accepts(other, FilterConfig(request), link) <==>
              && UrlParse(link).Some? && UrlParse(link).value.scheme in {HTTP, HTTPS}
              && !IsTrap(link) && other(FilterConfig(request), link)
              && InScope(request.config, SeedOf(request), link)
  {
    ScopeTestExactly(SeedOf(request), link);
    SameDomainExactly(link, SeedOf(request));
  }

  /** A page without a configured seed that passes the other checks accepts a link to itself. */
  lemma PageAcceptsItself(other: (CrawlConfig, Text) -> bool, request: Message)
    requires request.Page? && request.config.seedUrl.None? && HostOf(request.url).Some?
    requires UrlParse(request.url).value.scheme in {HTTP, HTTPS}
    requires !IsTrap(request.url) && other(FilterConfig(request), request.url)
    ensures Accepts(other, FilterConfig(request), request.url)
  {
    AcceptsExactly(other, request, request.url);
  }

  ghost function ScopedEnv(base: Env, other: (CrawlConfig, Text) -> bool): Env {
    base.(accepts := (c: CrawlConfig, u: Text) => Accepts(other, c, u))
  }

  /** What filter_links returns to a page: exactly the links in scope that pass the checks. */
  lemma FilteredExactly(base: Env, other: (CrawlConfig, Text) -> bool, request: Message, links: seq<Text>, link: Text)
    requires request.Page?
    ensures link in Filter(links, Keeps(ScopedEnv(base, other), FilterConfig(request))) <==>
              && link in links
              && UrlParse(link).Some? && UrlParse(link).value.scheme in {HTTP, HTTPS}
              && !IsTrap(link) && other(FilterConfig(request), link)
              && InScope(request.config, SeedOf(request), link)
  {
    AcceptsExactly(other, request, link);
    FilterMember(links, Keeps(ScopedEnv(base, other), FilterConfig(request)), link);
  }

  // ---------------------------------------------------------------------
  // Whole runs
  // ---------------------------------------------------------------------

  /** Of every run of a job, however its pages, retries and failures interleave: a page at any
      depth has the recursive_config of the depth-0 page it descends from, that config names a
      seed, and below depth 0 the page is in the seed's scope. */
  lemma CrawlStaysInScope(base: Env, other: (CrawlConfig, Text) -> bool, s: State, steps: seq<Step>, i: nat)
    requires Fresh(s) && CanRun(ScopedEnv(base, other), s, steps)
    requires var tasks := Run(ScopedEnv(base, other), s, steps).tasks;
             i < |tasks| && tasks[i].msg.Page?
    ensures var tasks := Run(ScopedEnv(base, other), s, steps).tasks;
            var t := tasks[i];
            && t.root < |tasks| && tasks[t.root].msg.Page? && tasks[t.root].msg.depth == 0
            && t.msg.config == tasks[t.root].msg.config && t.msg.config.seedUrl.Some?
            && (t.msg.depth > 0 ==> InScope(t.msg.config, t.msg.config.seedUrl.value, t.msg.url))
  {
    var env := ScopedEnv(base, other);
    ReachedScope(env, s, steps);
    var tasks := Run(env, s, steps).tasks;
    var t := tasks[i];
    assert PageInScope(env, tasks, t);
    if t.msg.depth > 0 {
      assert Accepts(other, t.msg.config, t.msg.url);
      ScopeTestExactly(t.msg.config.seedUrl.value, t.msg.url);
      SameDomainExactly(t.msg.url, t.msg.config.seedUrl.value);
    }
  }

  /** When no submission of the job names a seed, the seed of a page is the URL of the depth-0
      page it descends from: the submitted URL, or the discovered one. */
  lemma CrawlStaysUnderItsRoot(base: Env, other: (CrawlConfig, Text) -> bool, s: State, steps: seq<Step>, i: nat)
    requires Fresh(s) && CanRun(ScopedEnv(base, other), s, steps)
    requires forall k :: 0 <= k < |steps| && steps[k].ApiPublish? ==> NamesNoSeed(steps[k].msg)
    requires var tasks := Run(ScopedEnv(base, other), s, steps).tasks;
             i < |tasks| && tasks[i].msg.Page?
    ensures var tasks := Run(ScopedEnv(base, other), s, steps).tasks;
            var t := tasks[i];
            && t.root < |tasks| && tasks[t.root].msg.Page? && tasks[t.root].msg.depth == 0
            && (t.msg.depth > 0 ==> InScope(t.msg.config, tasks[t.root].msg.url, t.msg.url))
  {
    var env := ScopedEnv(base, other);
    CrawlStaysInScope(base, other, s, steps, i);
    RunOwnSeeds(env, s, steps);
    var tasks := Run(env, s, steps).tasks;
    assert OwnSeed(tasks, tasks[i]);
  }
}
