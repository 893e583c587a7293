/** Dot segments: when a page in scope also lies under the seed after "." and ".." have been
    resolved (section 5.2.4 of RFC 3986), which neither filter_links nor normalize_url does. */
module DotSegments {
  import opened Common
  import opened TextOps
  import opened Messages
  import opened CrawlProtocol
  import opened CrawlScope
  import opened UrlNormalization
  import opened UrlIdempotence
  import opened CrawlerTrap
  import opened JobSubmission

  const HERE: Text := [DOT]
  const UP: Text := [DOT, DOT]

  /** Where the segments lead from the directory base; the root has no parent. */
  function Resolve(base: seq<Text>, segments: seq<Text>): seq<Text> {
    if segments == [] then base
    else
      var n := |segments| - 1;
      var at := Resolve(base, segments[..n]);
      if segments[n] == HERE then at
      else if segments[n] == UP then (if at == [] then [] else at[..|at| - 1])
      else at + [segments[n]]
  }

  /** What a list of segments comes to: so many levels up, then down the entered ones. */
  datatype Walk = Walk(climbed: nat, entered: seq<Text>)

  function WalkOf(segments: seq<Text>): Walk {
    if segments == [] then Walk(0, [])
    else
      var n := |segments| - 1;
      var w := WalkOf(segments[..n]);
      if segments[n] == HERE then w
      else if segments[n] != UP then w.(entered := w.entered + [segments[n]])
      else if w.entered == [] then w.(climbed := w.climbed + 1)
      else w.(entered := w.entered[..|w.entered| - 1])
  }

  function Above(base: seq<Text>, levels: nat): seq<Text> {
    base[..Max(|base| - levels, 0)]
  }

  lemma {:induction false} ResolveIsWalk(base: seq<Text>, segments: seq<Text>)
    ensures Resolve(base, segments) == Above(base, WalkOf(segments).climbed) + WalkOf(segments).entered
  {
    if segments != [] {
      var n := |segments| - 1;
      ResolveIsWalk(base, segments[..n]);
      OneSegment(base, WalkOf(segments[..n]), segments[n]);
    }
  }

  lemma OneSegment(base: seq<Text>, w: Walk, x: Text)
    ensures var at := Above(base, w.climbed) + w.entered;
            && at + [x] == Above(base, w.climbed) + (w.entered + [x])
            && (w.entered != [] ==> at[..|at| - 1] == Above(base, w.climbed) + w.entered[..|w.entered| - 1])
            && (w.entered == [] && at != [] ==> at[..|at| - 1] == Above(base, w.climbed + 1))
            && (w.entered == [] && at == [] ==> Above(base, w.climbed + 1) == [])
  {
  }

  lemma {:induction false} ResolveAppend(base: seq<Text>, a: seq<Text>, b: seq<Text>)
    ensures Resolve(base, a + b) == Resolve(Resolve(base, a), b)
  {
    if b == [] {
      assert a + b == a;
    } else {
      var n := |b| - 1;
      assert (a + b)[..|a + b| - 1] == a + b[..n];
      ResolveAppend(base, a, b[..n]);
    }
  }

  /** Going on from a directory stays under it exactly when the levels climbed out of are
      entered again at once. */
  lemma StaysUnderExactly(base: seq<Text>, more: seq<Text>)
    ensures var w := WalkOf(more);
            base <= Resolve(base, more) <==> base[|Above(base, w.climbed)|..] <= w.entered
  {
    var w := WalkOf(more);
    ResolveIsWalk(base, more);
    var k := |Above(base, w.climbed)|;
    assert base == base[..k] + base[k..];
    if base <= Resolve(base, more) {
      assert base[k..] == (base[..k] + w.entered)[..|base|][k..];
      assert base[k..] <= w.entered;
    }
  }

  // ---------------------------------------------------------------------
  // URLs
  // ---------------------------------------------------------------------

  /** The directory or file a URL's path names. */
  function ResolvedPath(url: Text): seq<Text> {
    Resolve([], Segments(StrippedPath(url))[1..])
  }

  /** The segments a URL in the seed's scope has beyond the seed's. */
  function Beyond(seed: Text, url: Text): seq<Text>
    requires Segments(StrippedPath(seed)) <= Segments(StrippedPath(url))
  {
    Segments(StrippedPath(url))[|Segments(StrippedPath(seed))|..]
  }

  lemma PathUnderSeed(s: seq<Text>, more: seq<Text>)
    requires s != []
    ensures var base, w := Resolve([], s[1..]), WalkOf(more);
            base <= Resolve([], (s + more)[1..]) <==> base[|Above(base, w.climbed)|..] <= w.entered
  {
    assert (s + more)[1..] == s[1..] + more;
    ResolveAppend([], s[1..], more);
    StaysUnderExactly(Resolve([], s[1..]), more);
  }

  /** A URL whose path passes the prefix test really lies under the seed exactly when what it
      has beyond the seed climbs no level it does not enter again. */
  lemma UnderSeedExactly(seed: Text, url: Text)
    requires Segments(StrippedPath(seed)) <= Segments(StrippedPath(url))
    ensures var base, w := ResolvedPath(seed), WalkOf(Beyond(seed, url));
            base <= ResolvedPath(url) <==> base[|Above(base, w.climbed)|..] <= w.entered
  {
    PrefixRest(Segments(StrippedPath(seed)), Segments(StrippedPath(url)));
    PathUnderSeed(Segments(StrippedPath(seed)), Beyond(seed, url));
  }

  lemma NoClimbStaysUnder(seed: Text, url: Text)
    requires Segments(StrippedPath(seed)) <= Segments(StrippedPath(url)) && UP !in Beyond(seed, url)
    ensures ResolvedPath(seed) <= ResolvedPath(url)
  {
    UnderSeedExactly(seed, url);
    NoUpNoClimb(Beyond(seed, url));
  }

  lemma {:induction false} NoUpNoClimb(segments: seq<Text>)
    requires UP !in segments
    ensures WalkOf(segments).climbed == 0
  {
    if segments != [] {
      NoUpNoClimb(segments[..|segments| - 1]);
    }
  }

  /** The prefix test does let a link out: below any seed that is not the root, "..". */
  lemma ParentPassesTheTest(prefix: Text)
    requires RStrip(prefix, SLASH) == prefix && Resolve([], Segments(prefix)[1..]) != []
    ensures var link := prefix + [SLASH] + UP;
            UnderPrefix(link, prefix)
            && !(Resolve([], Segments(prefix)[1..]) <= Resolve([], Segments(link)[1..]))
  {
    var link, base := prefix + [SLASH] + UP, Resolve([], Segments(prefix)[1..]);
    SplitAppend(prefix, UP, SLASH);
    SplitOne(UP, SLASH);
    assert Segments(link)[1..] == Segments(prefix)[1..] + [UP];
    ResolveAppend([], Segments(prefix)[1..], [UP]);
    assert Resolve(base, [UP]) == base[..|base| - 1] by {
      assert [UP][..0] == [];
    }
  }

  /** Over whole runs: a page below depth 0 of a job really lies under its seed iff its path
      enters again every level it climbs out of; always when it has no ".." beyond the seed's. */
  lemma CrawlStaysUnderSeedExactly(base: Env, other: (CrawlConfig, Text) -> bool, s: State, steps: seq<Step>, i: nat)
    requires Fresh(s) && CanRun(ScopedEnv(base, other), s, steps)
    requires var tasks := Run(ScopedEnv(base, other), s, steps).tasks;
             i < |tasks| && tasks[i].msg.Page? && tasks[i].msg.depth > 0
    ensures var m := Run(ScopedEnv(base, other), s, steps).tasks[i].msg;
            m.config.seedUrl.Some?
            && var seed := m.config.seedUrl.value;
               StrippedPath(seed) != [] ==>
                 && Segments(StrippedPath(seed)) <= Segments(StrippedPath(m.url))
                 && var base, w := ResolvedPath(seed), WalkOf(Beyond(seed, m.url));
                    && (base <= ResolvedPath(m.url) <==> base[|Above(base, w.climbed)|..] <= w.entered)
                    && (UP !in Beyond(seed, m.url) ==> base <= ResolvedPath(m.url))
  {
    CrawlStaysInScope(base, other, s, steps, i);
    var m := Run(ScopedEnv(base, other), s, steps).tasks[i].msg;
    var seed := m.config.seedUrl.value;
    if StrippedPath(seed) != [] {
      UnderSeedExactly(seed, m.url);
      if UP !in Beyond(seed, m.url) {
        NoClimbStaysUnder(seed, m.url);
      }
    }
  }

  // ---------------------------------------------------------------------
  // A run that publishes a page outside the seed's tree
  // ---------------------------------------------------------------------

  lemma ParsedBack(h: Text, path: Text)
    requires IsHost(h) && IsPathText(path) && !HasParams(path)
    ensures UrlParse(Print(HTTP, h, path, [])) == Some(Parts(HTTP, h, path, [])) && HTTP in {HTTP, HTTPS}
  {
    HttpScheme();
    CanonicalSplit(HTTP, h, path, []);
  }

  lemma HostnameOfHost(h: Text)
    requires IsHost(h)
    ensures Hostname(h) == h
  {
    NoAt(h);
    LowerHost(h);
    FindUnique(h, {COLON}, |h|);
    assert h[..|h|] == h;
  }

  /** The directory of a path that ends in no slash, and its parent written with "..". */
  function ParentOf(path: Text): Text {
    path + [SLASH] + UP
  }

  lemma ParentIsPathText(path: Text)
    requires IsPathText(path)
    ensures IsPathText(ParentOf(path)) && !HasParams(ParentOf(path))
    ensures RStrip(ParentOf(path), SLASH) == ParentOf(path)
  {
    var parent := ParentOf(path);
    forall b | b in parent
      ensures b > SPACE && b != QUESTION && b != HASH
    {
      assert b in path || b in [SLASH] || b in UP;
    }
    LastSlashAt(path + [SLASH], UP);
    assert parent[LastSegmentStart(parent)..] == UP;
    RStripFixed(parent, SLASH);
  }

  /** A page /a links to /a/.., both on host h. */
  ghost predicate LinksToParent(h: Text, path: Text, root: Message) {
    && IsHost(h) && IsPathText(path) && !HasParams(path) && path[|path| - 1] != SLASH
    && Resolve([], Segments(path)[1..]) != []
    && IsRoot(root) && FansOut(root)
    && root.url == Print(HTTP, h, path, []) && root.config.seedUrl == Some(root.url)
  }

  lemma PathAndHost(h: Text, path: Text)
    requires IsHost(h) && IsPathText(path) && !HasParams(path) && RStrip(path, SLASH) == path
    ensures var url := Print(HTTP, h, path, []);
            && UrlParse(url).Some? && UrlParse(url).value.scheme in {HTTP, HTTPS}
            && HostOf(url) == Some(h) && StrippedPath(url) == path
  {
    ParsedBack(h, path);
    HostnameOfHost(h);
  }

  lemma ParentIsAccepted(other: (CrawlConfig, Text) -> bool, h: Text, path: Text, root: Message)
    requires LinksToParent(h, path, root)
    requires var link := Print(HTTP, h, ParentOf(path), []); !IsTrap(link) && other(FilterConfig(root), link)
    ensures var link := Print(HTTP, h, ParentOf(path), []);
            && Accepts(other, FilterConfig(root), link)
            && !(ResolvedPath(root.url) <= ResolvedPath(link))
  {
    var link := Print(HTTP, h, ParentOf(path), []);
    RStripFixed(path, SLASH);
    PathAndHost(h, path);
    ParentIsPathText(path);
    PathAndHost(h, ParentOf(path));
    ParentPassesTheTest(path);
    assert IsSameDomain(link, root.url);
    assert UnderPrefix(StrippedPath(link), StrippedPath(root.url));
  }

  /** With such a link a fresh job publishes a page that lies outside the tree of the page that
      was submitted. */
  lemma ParentIsPublished(base: Env, other: (CrawlConfig, Text) -> bool, h: Text, path: Text, root: Message, s0: State)
    returns (steps: seq<Step>)
    requires Fresh(s0) && LinksToParent(h, path, root) && base.kindOf(root.url).HtmlUrl?
    requires var link := Print(HTTP, h, ParentOf(path), []); !IsTrap(link) && other(FilterConfig(root), link)
    ensures CanRun(ScopedEnv(base, other), s0, steps)
    ensures var tasks := Run(ScopedEnv(base, other), s0, steps).tasks;
            && |tasks| == 2 && tasks[1].msg.Page? && tasks[1].root == 0 && tasks[0].msg == root
            && !(ResolvedPath(root.url) <= ResolvedPath(tasks[1].msg.url))
  {
    var env, link := ScopedEnv(base, other), Print(HTTP, h, ParentOf(path), []);
    ParentIsAccepted(other, h, path, root);
    var first := SubmissionIsRun(env, s0, root, true);
    var rest := OneLinkPublished(env, Run(env, s0, first), root, link);
    steps := Joined(env, s0, first, Run(env, s0, first), rest);
  }

  /** One submitted page, and what has become of it. */
  predicate OneTask(s: State, m: Message, phase: Phase) {
    |s.tasks| == 1 && s.visited == {} && s.tasks[0].msg == m && s.tasks[0].phase == phase && s.tasks[0].root == 0
  }

  lemma FanOutReserved(env: Env, s: State, m: Message) returns (steps: seq<Step>, end: State)
    requires OneTask(s, m, Published) && s.tasks[0].seenBy == {} && Owner(m) in Groups(m)
    requires CanReserve(env, m, FanOut, 1)
    ensures CanRun(env, s, steps) && Run(env, s, steps) == end && OneTask(end, m, Reserving(FanOut, 1, Idle))
  {
    var mid := Apply(env, s, Deliver(0, Owner(m)));
    end := Apply(env, mid, Reserve(0, FanOut, 1));
    steps := [Deliver(0, Owner(m)), Reserve(0, FanOut, 1)];
    RunTwo(env, s, steps, mid, end);
  }

  lemma LinkMarked(env: Env, s: State, m: Message, link: Text) returns (steps: seq<Step>, end: State)
    requires OneTask(s, m, Reserving(FanOut, 1, Idle)) && m.Page? && env.accepts(FilterConfig(m), link)
    ensures CanRun(env, s, steps) && Run(env, s, steps) == end
    ensures |end.tasks| == 1 && end.tasks[0] == s.tasks[0].(phase := Reserving(FanOut, 1, Marked(link)))
  {
    var mid := Apply(env, s, CheckLink(0, link));
    end := Apply(env, mid, MarkLink(0));
    steps := [CheckLink(0, link), MarkLink(0)];
    RunTwo(env, s, steps, mid, end);
  }

  lemma OneLinkPublished(env: Env, s: State, m: Message, link: Text) returns (steps: seq<Step>)
    requires OneTask(s, m, Published) && s.tasks[0].seenBy == {} && m.Page? && Owner(m) in Groups(m)
    requires CanReserve(env, m, FanOut, 1) && env.accepts(FilterConfig(m), link)
    ensures CanRun(env, s, steps)
    ensures var tasks := Run(env, s, steps).tasks;
            && |tasks| == 2 && tasks[0].msg == m && tasks[1].root == 0
            && tasks[1].msg == ChildPage(m, link, env.assign(link))
  {
    var first, a := FanOutReserved(env, s, m);
    var second, b := LinkMarked(env, a, m, link);
    var front := Joined(env, s, first, a, second);
    RunOne(env, b, [PublishLink(0)], Apply(env, b, PublishLink(0)));
    steps := Joined(env, s, front, b, [PublishLink(0)]);
  }
}
