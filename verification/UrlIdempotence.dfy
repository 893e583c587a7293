/** Reading a canonical URL back, and exactly when normalize_url is idempotent. */
module UrlIdempotence {
  import opened Common
  import opened TextOps
  import opened PercentCodec
  import opened QueryCodec
  import opened UrlNormalization

  /** Bytes a host part cannot hold once it has been cut out of a cleaned URL. */
  predicate HostByte(b: byte) {
    && b != SLASH && b != QUESTION && b != HASH && b != AT
    && b != OPEN_BRACKET && b != CLOSE_BRACKET && b !in CONTROLS
  }

  predicate IsHost(h: Text) {
    h != [] && forall b :: b in h ==> HostByte(b) && b != COLON && !IsUpper(b)
  }

  ghost predicate IsAuthority(scheme: Text, a: Text) {
    exists h :: IsHost(h) && (a == h || exists n :: 0 <= n <= 65535 && !IsDefaultPort(scheme, n)
                                                    && a == h + [COLON] + PrintNat(n))
  }

  lemma {:induction false} RemoveNothing(s: Text)
    requires forall b :: b in s ==> b !in CONTROLS
    ensures RemoveControls(s) == s
  {
    if s != [] {
      assert s[0] in s;
      RemoveNothing(s[1..]);
    }
  }

  // ---------------------------------------------------------------------
  // What comes out of urlparse
  // ---------------------------------------------------------------------

  lemma {:induction false} LStripSubset(s: Text)
    ensures forall b :: b in LStrip(s) ==> b in s
  {
    if s != [] {
      LStripSubset(s[1..]);
    }
  }

  lemma SplitSchemeText(u: Text)
    ensures var (scheme, rest) := SplitScheme(u);
            (scheme == [] || (IsScheme(scheme) && Lower(scheme) == scheme))
            && forall b :: b in rest ==> b in u
  {
    var i := Find(u, {COLON});
    if 0 < i < |u| && IsScheme(u[..i]) {
      LowerTwice(u[..i]);
      var low := Lower(u[..i]);
      assert forall j :: 0 <= j < i ==> SchemeChar(u[..i][j]) && SchemeChar(low[j]);
    }
  }

  lemma PathAndQueryText(rest: Text)
    ensures var (path, _) := PathAndQuery(rest);
            path <= rest && QUESTION !in path && HASH !in path
  {
    var body := rest[..Find(rest, {HASH})];
    var q := Find(body, {QUESTION});
    assert body[..q] == rest[..q];
  }

  lemma UrlSplitText(url: Text)
    requires UrlSplit(url).Some?
    ensures var p := UrlSplit(url).value;
            && (p.scheme == [] || (IsScheme(p.scheme) && Lower(p.scheme) == p.scheme))
            && (forall b :: b in p.netloc ==> b != SLASH && b != QUESTION && b != HASH && b != OPEN_BRACKET
                                              && b != CLOSE_BRACKET && b !in CONTROLS)
            && (p.netloc != [] ==> p.path == [] || p.path[0] == SLASH)
  {
    var u := Clean(url);
    SplitSchemeText(u);
    var (_, rest) := SplitScheme(u);
    if StartsWithSlashes(rest) {
      var f := Find(rest[2..], {SLASH, QUESTION, HASH});
      var d := 2 + f;
      var netloc := rest[2..d];
      assert netloc == rest[2..][..f];
      forall b | b in netloc
        ensures b != SLASH && b != QUESTION && b != HASH && b !in CONTROLS
      {
        var k :| 0 <= k < |netloc| && netloc[k] == b;
        assert rest[2..][k] == b && b in rest && b in u;
      }
      PathAndQueryText(rest[d..]);
      if d < |rest| {
        assert rest[d] == rest[2..][f];
      }
    }
  }

  lemma HostnameText(netloc: Text)
    requires forall b :: b in netloc ==> b != SLASH && b != QUESTION && b != HASH && b != OPEN_BRACKET
                                         && b != CLOSE_BRACKET && b !in CONTROLS
    requires Hostname(netloc) != []
    ensures IsHost(Hostname(netloc))
  {
    var info := HostInfo(netloc);
    var i := Find(info, {COLON});
    var host := info[..i];
    forall b | b in Lower(host)
      ensures HostByte(b) && b != COLON && !IsUpper(b)
    {
      var k :| 0 <= k < |host| && Lower(host)[k] == b;
      var c := host[k];
      assert c == info[k] == netloc[FindLast(netloc, AT) + 1 + k] && c in netloc;
      assert b == LowerByte(c);
    }
  }

  lemma AuthorityText(scheme: Text, netloc: Text)
    requires forall b :: b in netloc ==> b != SLASH && b != QUESTION && b != HASH && b != OPEN_BRACKET
                                         && b != CLOSE_BRACKET && b !in CONTROLS
    requires Authority(scheme, netloc).Some?
    ensures IsAuthority(scheme, Authority(scheme, netloc).value)
  {
    HostnameText(netloc);
  }

  // ---------------------------------------------------------------------
  // Reading a canonical host part back
  // ---------------------------------------------------------------------

  lemma NoAt(a: Text)
    requires AT !in a
    ensures HostInfo(a) == a
  {
    assert FindLast(a, AT) == -1;
  }

  lemma LowerHost(h: Text)
    requires IsHost(h)
    ensures Lower(h) == h
  {
    assert forall i :: 0 <= i < |h| ==> h[i] in h;
  }

  lemma HostAlone(scheme: Text, h: Text)
    requires IsHost(h)
    ensures Authority(scheme, h) == Some(h)
  {
    NoAt(h);
    LowerHost(h);
    assert COLON !in h;
    FindUnique(h, {COLON}, |h|);
    assert h[..|h|] == h;
  }

  lemma HostPortText(h: Text, port: Text)
    requires IsHost(h) && forall i :: 0 <= i < |port| ==> IsDigit(port[i])
    ensures forall b :: b in h + [COLON] + port ==> HostByte(b)
  {
    forall b | b in port
      ensures HostByte(b)
    {
      var k :| 0 <= k < |port| && port[k] == b;
      assert IsDigit(b);
    }
  }

  lemma HostWithPort(scheme: Text, h: Text, n: nat)
    requires IsHost(h) && n <= 65535 && !IsDefaultPort(scheme, n)
    ensures var a := h + [COLON] + PrintNat(n);
            Authority(scheme, a) == Some(a) && forall b :: b in a ==> HostByte(b)
  {
    var port := PrintNat(n);
    HostPortText(h, port);
    NoAt(h + [COLON] + port);
    LowerHost(h);
    FindSeparator(h, COLON, port);
    DecimalRoundTrip(n);
    assert PortOf(h + [COLON] + port) == ParsePort(port) == Number(n);
  }

  lemma AuthorityFixed(scheme: Text, a: Text)
    requires IsAuthority(scheme, a)
    ensures Authority(scheme, a) == Some(a) && a != [] && forall b :: b in a ==> HostByte(b)
  {
    var h :| IsHost(h) && (a == h || exists n :: 0 <= n <= 65535 && !IsDefaultPort(scheme, n)
                                                 && a == h + [COLON] + PrintNat(n));
    if a == h {
      HostAlone(scheme, h);
    } else {
      var n :| 0 <= n <= 65535 && !IsDefaultPort(scheme, n) && a == h + [COLON] + PrintNat(n);
      HostWithPort(scheme, h, n);
    }
  }

  // ---------------------------------------------------------------------
  // Reading a canonical URL back
  // ---------------------------------------------------------------------

  lemma CanonicalClean(scheme: Text, a: Text, path: Text, query: Text)
    requires IsScheme(scheme) && (forall b :: b in a ==> HostByte(b)) && IsPathText(path) && IsQueryText(query)
    ensures Clean(Print(scheme, a, path, query)) == Print(scheme, a, path, query)
  {
    var u := Print(scheme, a, path, query);
    assert u[0] == scheme[0];
    assert forall b :: b in scheme ==> exists i :: 0 <= i < |scheme| && scheme[i] == b && SchemeChar(b);
    forall b | b in u
      ensures b !in CONTROLS
    {
      assert b in scheme || b in [COLON, SLASH, SLASH] || b in a || b in path || b == QUESTION || b in query;
    }
    RemoveNothing(u);
  }

  lemma CanonicalScheme(scheme: Text, rest: Text)
    requires IsScheme(scheme) && Lower(scheme) == scheme
    ensures SplitScheme(scheme + [COLON] + rest) == (scheme, rest)
  {
    var u := scheme + [COLON] + rest;
    forall j | 0 <= j < |scheme|
      ensures u[j] != COLON
    {
      assert u[j] == scheme[j] && SchemeChar(scheme[j]);
    }
    FindUnique(u, {COLON}, |scheme|);
    assert u[..|scheme|] == scheme && u[|scheme| + 1..] == rest;
  }

  lemma CanonicalPathAndQuery(path: Text, query: Text)
    requires IsPathText(path) && IsQueryText(query)
    ensures PathAndQuery(path + (if query == [] then [] else [QUESTION] + query)) == (path, query)
  {
    var rest := path + (if query == [] then [] else [QUESTION] + query);
    forall j | 0 <= j < |rest|
      ensures rest[j] != HASH
      ensures j < |path| ==> rest[j] != QUESTION
    {
      if j < |path| {
        assert rest[j] == path[j] && path[j] in path;
      } else if j > |path| {
        assert rest[j] == query[j - |path| - 1] && rest[j] in query;
      }
    }
    FindUnique(rest, {HASH}, |rest|);
    assert rest[..|rest|] == rest;
    FindUnique(rest, {QUESTION}, |path|);
    assert rest[..|path|] == path;
    if query != [] {
      assert rest[|path| + 1..] == query;
    }
  }

  lemma CanonicalNetloc(a: Text, tail: Text)
    requires (forall b :: b in a ==> HostByte(b)) && tail != [] && tail[0] == SLASH
    ensures var rest := [SLASH, SLASH] + a + tail;
            var d := 2 + Find(rest[2..], {SLASH, QUESTION, HASH});
            StartsWithSlashes(rest) && rest[2..d] == a && rest[d..] == tail
  {
    var rest := [SLASH, SLASH] + a + tail;
    var after := a + tail;
    assert rest[2..] == after;
    forall j | 0 <= j < |a|
      ensures after[j] !in {SLASH, QUESTION, HASH}
    {
      assert after[j] == a[j] && a[j] in a;
    }
    assert after[|a|] == SLASH;
    FindUnique(after, {SLASH, QUESTION, HASH}, |a|);
  }

  lemma PrintShape(scheme: Text, a: Text, path: Text, query: Text)
    ensures var tail := path + (if query == [] then [] else [QUESTION] + query);
            Print(scheme, a, path, query) == scheme + [COLON] + ([SLASH, SLASH] + a + tail)
  {
    var tail := path + (if query == [] then [] else [QUESTION] + query);
    assert Print(scheme, a, path, query) == scheme + [COLON, SLASH, SLASH] + a + tail;
    assert [COLON, SLASH, SLASH] == [COLON] + [SLASH, SLASH];
  }

  lemma SplitOfPieces(u: Text, scheme: Text, a: Text, tail: Text)
    requires SplitScheme(Clean(u)) == (scheme, [SLASH, SLASH] + a + tail)
    requires (forall b :: b in a ==> HostByte(b)) && tail != [] && tail[0] == SLASH
    ensures UrlSplit(u) == Some(Parts(scheme, a, PathAndQuery(tail).0, PathAndQuery(tail).1))
  {
    CanonicalNetloc(a, tail);
  }

  /** urlsplit reads the four printed components back. */
  lemma CanonicalSplit(scheme: Text, a: Text, path: Text, query: Text)
    requires IsScheme(scheme) && Lower(scheme) == scheme
    requires (forall b :: b in a ==> HostByte(b)) && IsPathText(path) && IsQueryText(query)
    ensures UrlSplit(Print(scheme, a, path, query)) == Some(Parts(scheme, a, path, query))
  {
    var tail := path + (if query == [] then [] else [QUESTION] + query);
    CanonicalClean(scheme, a, path, query);
    PrintShape(scheme, a, path, query);
    CanonicalScheme(scheme, [SLASH, SLASH] + a + tail);
    CanonicalPathAndQuery(path, query);
    SplitOfPieces(Print(scheme, a, path, query), scheme, a, tail);
  }

  lemma HttpScheme()
    ensures IsScheme(HTTP) && Lower(HTTP) == HTTP && HTTP in USES_PARAMS && [] in USES_PARAMS
  {
    assert HTTP[0] == 104 && forall i :: 0 <= i < |HTTP| ==> SchemeChar(HTTP[i]) && !IsUpper(HTTP[i]);
  }

  lemma EmptyNetloc()
    ensures Hostname([]) == []
  {
    assert HostInfo([]) == [];
  }

  /** urlparse only shortens the path urlsplit gives. */
  lemma ParsedParts(url: Text)
    requires UrlParse(url).Some?
    ensures UrlSplit(url).Some?
    ensures var p, p0 := UrlParse(url).value, UrlSplit(url).value;
            p.scheme == p0.scheme && p.netloc == p0.netloc && p.query == p0.query && p.path <= p0.path
  {
  }

  lemma HostNeedsNetloc(scheme: Text, netloc: Text)
    requires Authority(scheme, netloc).Some?
    ensures netloc != []
  {
    EmptyNetloc();
  }

  lemma RootedPath(url: Text, p: Parts)
    requires UrlParse(url) == Some(p) && p.netloc != []
    ensures p.path == [] || p.path[0] == SLASH
  {
    ParsedParts(url);
    UrlSplitText(url);
  }

  lemma NetlocNonEmpty(url: Text)
    requires Normalizable(url)
    ensures UrlParse(url).value.netloc != []
    ensures UrlParse(url).value.path == [] || UrlParse(url).value.path[0] == SLASH
  {
    var p := UrlParse(url).value;
    HostNeedsNetloc(SchemeOf(p), p.netloc);
    RootedPath(url, p);
  }

  lemma NormalizedScheme(url: Text)
    requires Normalizable(url)
    ensures var p := UrlParse(url).value;
            var s := SchemeOf(p);
            IsScheme(s) && Lower(s) == s && (p.scheme in USES_PARAMS <==> s in USES_PARAMS)
            && IsAuthority(s, Authority(s, p.netloc).value)
  {
    var p := UrlParse(url).value;
    ParsedParts(url);
    UrlSplitText(url);
    HttpScheme();
    AuthorityText(SchemeOf(p), p.netloc);
  }

  /** The components normalize_url prints. */
  lemma NormalizedParts(url: Text, junk: set<Text>)
    requires Normalizable(url)
    ensures var p := UrlParse(url).value;
            var s := SchemeOf(p);
            && IsScheme(s) && Lower(s) == s && (p.scheme in USES_PARAMS <==> s in USES_PARAMS)
            && IsAuthority(s, Authority(s, p.netloc).value)
            && IsPathText(PathStep(p.path)) && IsQueryText(QueryStep(p.query, junk))
  {
    var p := UrlParse(url).value;
    NormalizedScheme(url);
    NetlocNonEmpty(url);
    PathStepText(p.path);
    QueryStepAlphabet(p.query, junk);
  }

  // ---------------------------------------------------------------------
  // Idempotence
  // ---------------------------------------------------------------------

  /** The one family normalize_url is not idempotent on: the decoded path, trailing slashes
      aside, has a ";" in its last segment, which the next urlparse cuts off. */
  predicate KeepsSemicolon(url: Text)
    requires Normalizable(url)
  {
    var p := UrlParse(url).value;
    p.scheme in USES_PARAMS && HasParams(RStrip(Unquote(p.path), SLASH))
  }

  lemma QuoteSlash()
    ensures Quote([SLASH], PATH_SAFE) == [SLASH]
  {
    PathSafeBytes();
    assert Quote([SLASH], PATH_SAFE) == [SLASH] + Quote([SLASH][1..], PATH_SAFE);
  }

  lemma LastSlashAt(front: Text, last: Text)
    requires SLASH !in last && (front != [] ==> front[|front| - 1] == SLASH)
    ensures LastSegmentStart(front + last) == |front|
  {
    var q := front + last;
    assert forall j :: |front| <= j < |q| ==> q[j] in last;
    if front != [] {
      assert q[|front| - 1] == SLASH;
    }
  }

  lemma QuoteEndsInSlash(d: Text)
    ensures Quote(d + [SLASH], PATH_SAFE) == Quote(d, PATH_SAFE) + [SLASH]
  {
    QuoteAppend(d, [SLASH], PATH_SAFE);
    QuoteSlash();
  }

  /** What is quoted up to and including a slash ends in a slash. */
  lemma QuotedFront(d: Text, k: nat)
    requires k <= |d| && (k > 0 ==> d[k - 1] == SLASH)
    ensures var f := Quote(d[..k], PATH_SAFE); f != [] ==> f[|f| - 1] == SLASH
  {
    if k > 0 {
      assert d[..k] == d[..k - 1] + [SLASH];
      QuoteEndsInSlash(d[..k - 1]);
    }
  }

  lemma QuotedLast(last: Text)
    requires SLASH !in last
    ensures SLASH !in Quote(last, PATH_SAFE)
  {
    PathSafeBytes();
    QuoteKeeps(last, PATH_SAFE, SLASH);
  }

  lemma SegmentOfQuoted(d: Text)
    ensures var q := Quote(d, PATH_SAFE);
            var k := LastSegmentStart(d);
            && LastSegmentStart(q) == |Quote(d[..k], PATH_SAFE)|
            && q == Quote(d[..k], PATH_SAFE) + Quote(d[k..], PATH_SAFE)
  {
    var k := LastSegmentStart(d);
    var front, last := d[..k], d[k..];
    assert d == front + last;
    QuoteAppend(front, last, PATH_SAFE);
    QuotedFront(d, k);
    QuotedLast(last);
    LastSlashAt(Quote(front, PATH_SAFE), Quote(last, PATH_SAFE));
  }

  /** The canonical path keeps its ";" exactly where the decoded path has one. */
  lemma ParamsOfQuoted(d: Text)
    ensures HasParams(Quote(d, PATH_SAFE)) <==> HasParams(d)
  {
    PathSafeBytes();
    SegmentOfQuoted(d);
    var k := LastSegmentStart(d);
    var q := Quote(d, PATH_SAFE);
    assert q[LastSegmentStart(q)..] == Quote(d[k..], PATH_SAFE);
    QuoteKeeps(d[k..], PATH_SAFE, SEMICOLON);
  }

  lemma SemicolonOfQuoted(seg: Text)
    ensures var i := Find(seg, {SEMICOLON});
            var qseg := Quote(seg, PATH_SAFE);
            Quote(seg[..i], PATH_SAFE) <= qseg && Find(qseg, {SEMICOLON}) == |Quote(seg[..i], PATH_SAFE)|
  {
    PathSafeBytes();
    var i := Find(seg, {SEMICOLON});
    var qseg, head := Quote(seg, PATH_SAFE), Quote(seg[..i], PATH_SAFE);
    assert seg == seg[..i] + seg[i..];
    QuoteAppend(seg[..i], seg[i..], PATH_SAFE);
    assert SEMICOLON !in seg[..i];
    QuoteKeeps(seg[..i], PATH_SAFE, SEMICOLON);
    forall j | 0 <= j < |head|
      ensures qseg[j] != SEMICOLON
    {
      assert qseg[j] == head[j] && head[j] in head;
    }
    if i < |seg| {
      assert seg[i..][0] == SEMICOLON;
      assert Quote(seg[i..], PATH_SAFE)[0] == SEMICOLON;
      assert qseg[|head|] == SEMICOLON;
    } else {
      assert seg[..i] == seg;
    }
    FindUnique(qseg, {SEMICOLON}, |head|);
  }

  lemma DropParamsAt(path: Text, front: Text, seg: Text, head: Text)
    requires path == front + seg && LastSegmentStart(path) == |front|
    requires head <= seg && Find(seg, {SEMICOLON}) == |head|
    ensures DropParams(path) == front + head
  {
    assert path[|front|..] == seg;
  }

  lemma QuotedPieces(d: Text, front: Text, seg: Text, head: Text, q: Text)
    requires DropParams(d) == front + head
    requires DropParams(q) == Quote(front, PATH_SAFE) + Quote(head, PATH_SAFE)
    ensures DropParams(q) == Quote(DropParams(d), PATH_SAFE)
  {
    QuoteAppend(front, head, PATH_SAFE);
  }

  /** Cutting the params off a canonical path cuts them off the decoded one. */
  lemma DropParamsOfQuoted(d: Text)
    ensures DropParams(Quote(d, PATH_SAFE)) == Quote(DropParams(d), PATH_SAFE)
  {
    var k := LastSegmentStart(d);
    var front, seg := d[..k], d[k..];
    var head := seg[..Find(seg, {SEMICOLON})];
    assert DropParams(d) == front + head by {
      assert d == front + seg;
      DropParamsAt(d, front, seg, head);
    }
    var q := Quote(d, PATH_SAFE);
    assert DropParams(q) == Quote(front, PATH_SAFE) + Quote(head, PATH_SAFE) by {
      SegmentOfQuoted(d);
      SemicolonOfQuoted(seg);
      DropParamsAt(q, Quote(front, PATH_SAFE), Quote(seg, PATH_SAFE), Quote(head, PATH_SAFE));
    }
    QuotedPieces(d, front, seg, head, q);
  }

  lemma {:induction false} QuoteShrinks(a: Text, b: Text)
    requires a <= b && a != b
    ensures |Quote(a, PATH_SAFE)| < |Quote(b, PATH_SAFE)|
  {
    assert b == a + b[|a|..];
    QuoteAppend(a, b[|a|..], PATH_SAFE);
  }

  lemma ShorterThan(r: Text, d: Text)
    requires d != [] && d[0] == SLASH && d[|d| - 1] != SLASH && r <= d && r != d
    ensures |if r == [] then [SLASH] else Quote(r, PATH_SAFE)| < |Quote(d, PATH_SAFE)|
  {
    if r == [] {
      QuoteSlash();
      assert [SLASH] <= d && [SLASH] != d;
      QuoteShrinks([SLASH], d);
    } else {
      QuoteShrinks(r, d);
    }
  }

  lemma SecondPathShorter(d: Text)
    requires d != [] && d[0] == SLASH && d[|d| - 1] != SLASH && HasParams(d)
    ensures |PathStep(DropParams(Quote(d, PATH_SAFE)))| < |Quote(d, PATH_SAFE)|
  {
    var e := DropParams(d);
    DropParamsOfQuoted(d);
    PathStepOfQuoted(e);
    ShorterThan(RStrip(e, SLASH), d);
  }

  /** The second pass over the path: nothing when no params are cut, a shorter path otherwise. */
  lemma SecondPath(path: Text, cut: bool)
    requires path == [] || path[0] == SLASH
    ensures var once := PathStep(path);
            var d := RStrip(Unquote(path), SLASH);
            var twice := PathStep(if cut then DropParams(once) else once);
            if cut && HasParams(d) then |twice| < |once| else twice == once
  {
    PathStepMeans(path);
    PathStepIdempotent(path);
    var d := RStrip(Unquote(path), SLASH);
    if d == [] {
      NoParamsInRoot();
    } else {
      ParamsOfQuoted(d);
      DecodedRoot(path);
      if HasParams(d) {
        SecondPathShorter(d);
      }
    }
  }

  lemma NoParamsInRoot()
    ensures !HasParams([SLASH]) && !HasParams([]) && DropParams([SLASH]) == [SLASH]
  {
    assert LastSegmentStart([SLASH]) == 1;
  }

  /** What normalizing twice gives: the same scheme, host and query, and the path step applied
      to the canonical path as the second urlparse sees it. */
  lemma NormalizeTwice(url: Text, junk: set<Text>)
    requires Normalizable(url)
    ensures var p := UrlParse(url).value;
            var s := SchemeOf(p);
            var a := Authority(s, p.netloc).value;
            var once := PathStep(p.path);
            var seen := if p.scheme in USES_PARAMS then DropParams(once) else once;
            NormalizeUrl(NormalizeUrl(url, junk), junk) == Print(s, a, PathStep(seen), QueryStep(p.query, junk))
  {
    var p := UrlParse(url).value;
    var s := SchemeOf(p);
    var a := Authority(s, p.netloc).value;
    var once, q := PathStep(p.path), QueryStep(p.query, junk);
    NormalizedParts(url, junk);
    AuthorityFixed(s, a);
    CanonicalSplit(s, a, once, q);
    QueryStepIdempotent(p.query, junk);
    var u := Print(s, a, once, q);
    assert NormalizeUrl(url, junk) == u;
    NormalizeParsed(u, Parts(s, a, once, q), junk);
  }

  lemma NormalizeParsed(u: Text, p: Parts, junk: set<Text>)
    requires UrlSplit(u) == Some(p) && p.scheme != [] && Lower(p.scheme) == p.scheme
    requires Authority(p.scheme, p.netloc) == Some(p.netloc)
    ensures var seen := if p.scheme in USES_PARAMS then DropParams(p.path) else p.path;
            NormalizeUrl(u, junk) == Print(p.scheme, p.netloc, PathStep(seen), QueryStep(p.query, junk))
  {
  }

  /** normalize_url is idempotent on a URL exactly when the URL does not keep a semicolon. */
  lemma IdempotentExactly(url: Text, junk: set<Text>)
    ensures NormalizeUrl(NormalizeUrl(url, junk), junk) == NormalizeUrl(url, junk)
            <==> !(Normalizable(url) && KeepsSemicolon(url))
  {
    if Normalizable(url) {
      NormalizeTwice(url, junk);
      var p := UrlParse(url).value;
      UrlSplitText(url);
      NetlocNonEmpty(url);
      SecondPath(p.path, p.scheme in USES_PARAMS);
    }
  }

  lemma ExampleParsed()
    ensures var path: Text := [SLASH, SEMICOLON, SLASH];
            UrlParse(Print(HTTP, [104], path, [])) == Some(Parts(HTTP, [104], path, []))
  {
    var path: Text := [SLASH, SEMICOLON, SLASH];
    HttpScheme();
    CanonicalSplit(HTTP, [104], path, []);
    assert LastSegmentStart(path) == 3;
    assert DropParams(path) == path;
  }

  /** The family is not empty: http://h/;/ becomes http://h/; and then http://h/ */
  lemma SemicolonIsLost(junk: set<Text>)
    ensures var u := Print(HTTP, [104], [SLASH, SEMICOLON, SLASH], []);
            NormalizeUrl(NormalizeUrl(u, junk), junk) != NormalizeUrl(u, junk)
  {
    ExampleParsed();
    HttpScheme();
    HostAlone(HTTP, [104]);
    ExamplePath();
    IdempotentExactly(Print(HTTP, [104], [SLASH, SEMICOLON, SLASH], []), junk);
  }

  lemma ExamplePath()
    ensures HasParams(RStrip(Unquote([SLASH, SEMICOLON, SLASH]), SLASH))
  {
    var path: Text := [SLASH, SEMICOLON, SLASH];
    assert path[1..] == [SEMICOLON, SLASH] && path[1..][1..] == [SLASH] && path[1..][1..][1..] == [];
    assert Unquote([SLASH]) == [SLASH] + Unquote([SLASH][1..]) == [SLASH];
    assert Unquote([SEMICOLON, SLASH]) == [SEMICOLON] + Unquote([SEMICOLON, SLASH][1..]);
    assert Unquote(path) == path;
    assert path[..2] == [SLASH, SEMICOLON];
    assert RStrip(path, SLASH) == RStrip(path[..2], SLASH) == [SLASH, SEMICOLON];
    assert LastSegmentStart([SLASH, SEMICOLON]) == 1;
  }
}
