/** When two URLs get the same dedup key. */
module UrlEquality {
  import opened Common
  import opened TextOps
  import opened PercentCodec
  import opened QueryCodec
  import opened UrlNormalization
  import opened UrlIdempotence

  function DefaultPort(scheme: Text): Option<nat> {
    if scheme == HTTP then Some(80) else if scheme == HTTPS then Some(443) else None
  }

  /** The port a client would connect to, when it can be told. */
  function EffectivePort(scheme: Text, netloc: Text): Option<nat> {
    match PortOf(netloc)
    case Number(n) => Some(n)
    case _ => DefaultPort(scheme)
  }

  /** The decoded path without trailing slashes. */
  function DecodedPath(path: Text): Text {
    RStrip(Unquote(path), SLASH)
  }

  /** Same scheme, host, port, decoded path and parameters, junk parameters and the order of
      differently named ones aside. */
  ghost predicate SameResource(p: Parts, q: Parts, junk: set<Text>) {
    && SchemeOf(p) == SchemeOf(q)
    && Hostname(p.netloc) == Hostname(q.netloc)
    && EffectivePort(SchemeOf(p), p.netloc) == EffectivePort(SchemeOf(q), q.netloc)
    && DecodedPath(p.path) == DecodedPath(q.path)
    && SameParameters(p.query, q.query, junk)
  }

  /** Two URLs with a host that name the same resource; without a host, the same text. */
  ghost predicate SameTarget(a: Text, b: Text, junk: set<Text>) {
    if Normalizable(a) && Normalizable(b) then SameResource(UrlParse(a).value, UrlParse(b).value, junk)
    else a == b
  }

  // ---------------------------------------------------------------------
  // Host and port
  // ---------------------------------------------------------------------

  /** The canonical host part: the port is printed unless it is the default one. */
  lemma AuthorityShape(scheme: Text, netloc: Text)
    requires Authority(scheme, netloc).Some?
    ensures EffectivePort(scheme, netloc) == DefaultPort(scheme) ==>
              Authority(scheme, netloc).value == Hostname(netloc)
    ensures EffectivePort(scheme, netloc) != DefaultPort(scheme) ==>
              Authority(scheme, netloc).value
              == Hostname(netloc) + [COLON] + PrintNat(EffectivePort(scheme, netloc).value)
  {
    assert HTTP != HTTPS by {
      assert |HTTP| == 4 && |HTTPS| == 5;
    }
  }

  lemma PrintNatInjective(m: nat, n: nat)
    ensures PrintNat(m) == PrintNat(n) ==> m == n
  {
    DecimalRoundTrip(m);
    DecimalRoundTrip(n);
  }

  lemma HostPortInjective(g: Text, h: Text, m: nat, n: nat)
    requires IsHost(g) && IsHost(h)
    ensures g + [COLON] + PrintNat(m) == h + [COLON] + PrintNat(n) ==> g == h && m == n
    ensures g + [COLON] + PrintNat(m) != h
  {
    FindSeparator(g, COLON, PrintNat(m));
    FindSeparator(h, COLON, PrintNat(n));
    PrintNatInjective(m, n);
    assert COLON !in h;
    assert (g + [COLON] + PrintNat(m))[|g|] == COLON;
  }

  lemma AuthorityEqual(scheme: Text, a: Text, b: Text)
    requires Authority(scheme, a).Some? && Authority(scheme, b).Some?
    requires IsHost(Hostname(a)) && IsHost(Hostname(b))
    ensures Authority(scheme, a) == Authority(scheme, b)
            <==> Hostname(a) == Hostname(b) && EffectivePort(scheme, a) == EffectivePort(scheme, b)
  {
    AuthorityShape(scheme, a);
    AuthorityShape(scheme, b);
    var p, q, none := EffectivePort(scheme, a), EffectivePort(scheme, b), DefaultPort(scheme);
    if p != none && q != none {
      HostPortInjective(Hostname(a), Hostname(b), p.value, q.value);
    } else if p != none {
      HostPortInjective(Hostname(a), Hostname(b), p.value, 0);
    } else if q != none {
      HostPortInjective(Hostname(b), Hostname(a), q.value, 0);
    }
  }

  // ---------------------------------------------------------------------
  // Path
  // ---------------------------------------------------------------------

  lemma OnlyRootIsSlash(d: Text)
    requires d != [] && d[|d| - 1] != SLASH
    ensures Quote(d, PATH_SAFE) != [SLASH]
  {
    PathSafeBytes();
    QuoteSlash();
    if Quote(d, PATH_SAFE) == [SLASH] {
      QuoteInjective(d, [SLASH], PATH_SAFE);
    }
  }

  predicate NoTrailingSlash(d: Text) {
    d == [] || d[|d| - 1] != SLASH
  }

  function Encoded(d: Text): Text {
    if d == [] then [SLASH] else Quote(d, PATH_SAFE)
  }

  lemma EncodedInjective(d: Text, e: Text)
    requires NoTrailingSlash(d) && NoTrailingSlash(e) && Encoded(d) == Encoded(e)
    ensures d == e
  {
    if d != [] && e != [] {
      PathSafeBytes();
      QuoteInjective(d, e, PATH_SAFE);
    } else if d != [] {
      OnlyRootIsSlash(d);
    } else if e != [] {
      OnlyRootIsSlash(e);
    }
  }

  lemma NoSlashLeft(s: Text)
    ensures NoTrailingSlash(RStrip(s, SLASH))
  {
  }

  lemma PathStepEncodes(path: Text)
    ensures PathStep(path) == Encoded(DecodedPath(path)) && NoTrailingSlash(DecodedPath(path))
  {
    PathStepMeans(path);
    NoSlashLeft(Unquote(path));
  }

  lemma PathEqual(p: Text, q: Text)
    ensures PathStep(p) == PathStep(q) <==> DecodedPath(p) == DecodedPath(q)
  {
    PathStepEncodes(p);
    PathStepEncodes(q);
    if PathStep(p) == PathStep(q) {
      EncodedInjective(DecodedPath(p), DecodedPath(q));
    }
  }

  // ---------------------------------------------------------------------
  // The whole URL
  // ---------------------------------------------------------------------

  lemma HostIsHost(url: Text)
    requires Normalizable(url)
    ensures IsHost(Hostname(UrlParse(url).value.netloc))
  {
    ParsedParts(url);
    UrlSplitText(url);
    HostnameText(UrlParse(url).value.netloc);
  }

  /** A canonical URL determines its four components. */
  lemma CanonicalParts(url: Text, junk: set<Text>)
    requires Normalizable(url)
    ensures var p := UrlParse(url).value;
            var s := SchemeOf(p);
            var parts := Parts(s, Authority(s, p.netloc).value, PathStep(p.path), QueryStep(p.query, junk));
            UrlSplit(NormalizeUrl(url, junk)) == Some(parts)
  {
    var p := UrlParse(url).value;
    var s := SchemeOf(p);
    NormalizedParts(url, junk);
    AuthorityFixed(s, Authority(s, p.netloc).value);
    CanonicalSplit(s, Authority(s, p.netloc).value, PathStep(p.path), QueryStep(p.query, junk));
  }

  lemma SameKeyWithHosts(a: Text, b: Text, junk: set<Text>)
    requires Normalizable(a) && Normalizable(b)
    ensures NormalizeUrl(a, junk) == NormalizeUrl(b, junk)
            <==> SameResource(UrlParse(a).value, UrlParse(b).value, junk)
  {
    var p, q := UrlParse(a).value, UrlParse(b).value;
    CanonicalParts(a, junk);
    CanonicalParts(b, junk);
    PathEqual(p.path, q.path);
    QueryStepEqual(p.query, q.query, junk);
    if SchemeOf(p) == SchemeOf(q) {
      HostIsHost(a);
      HostIsHost(b);
      AuthorityEqual(SchemeOf(p), p.netloc, q.netloc);
    }
  }

  lemma PartsAreNormalizable(u: Text, p: Parts)
    requires UrlSplit(u) == Some(p) && SchemeOf(p) == p.scheme && Authority(p.scheme, p.netloc).Some?
    ensures Normalizable(u)
  {
  }

  lemma CanonicalIsNormalizable(url: Text, junk: set<Text>)
    requires Normalizable(url)
    ensures Normalizable(NormalizeUrl(url, junk))
  {
    var p := UrlParse(url).value;
    var s := SchemeOf(p);
    CanonicalParts(url, junk);
    NormalizedScheme(url);
    AuthorityFixed(s, Authority(s, p.netloc).value);
    PartsAreNormalizable(NormalizeUrl(url, junk), UrlSplit(NormalizeUrl(url, junk)).value);
  }

  /** Path parameters are merged. */
  lemma ParametersDoNotCount(h: Text, p: Text, q: Text, junk: set<Text>)
    requires IsHost(h) && IsPathText(p) && IsPathText(q) && DropParams(p) == DropParams(q)
    ensures NormalizeUrl(Print(HTTP, h, p, []), junk) == NormalizeUrl(Print(HTTP, h, q, []), junk)
  {
    HttpScheme();
    CanonicalSplit(HTTP, h, p, []);
    CanonicalSplit(HTTP, h, q, []);
    HostAlone(HTTP, h);
  }

  /** Two URLs get the same dedup key exactly when these components of what urlparse makes of
      them agree. So fragments, userinfo and the ";" parameters of the last segment never count;
      the latter are not read anywhere, so /a;b and /a;c are one page to a crawl. URLs that
      cannot be normalized are only ever equal to themselves. */
  lemma SameKeyExactly(a: Text, b: Text, junk: set<Text>)
    ensures NormalizeUrl(a, junk) == NormalizeUrl(b, junk) <==> SameTarget(a, b, junk)
  {
    if Normalizable(a) && Normalizable(b) {
      SameKeyWithHosts(a, b, junk);
    } else if Normalizable(a) {
      CanonicalIsNormalizable(a, junk);
    } else if Normalizable(b) {
      CanonicalIsNormalizable(b, junk);
    }
  }
}
