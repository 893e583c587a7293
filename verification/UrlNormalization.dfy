/** LinkExtractionService.normalize_url on top of urllib.parse, and when normalizing twice is
    the same as normalizing once. */
module UrlNormalization {
  import opened Common
  import opened TextOps
  import opened PercentCodec
  import opened QueryCodec

  // ---------------------------------------------------------------------
  // urlparse
  // ---------------------------------------------------------------------

  const CONTROLS: set<byte> := {TAB, NEWLINE, RETURN}
  const HTTP := Ascii("http")
  const HTTPS := Ascii("https")

  /** uses_params of urllib.parse: the schemes whose last segment is cut at ";". */
  const USES_PARAMS: set<Text> := {
    [], Ascii("ftp"), Ascii("hdl"), Ascii("prospero"), Ascii("http"), Ascii("imap"), Ascii("https"),
    Ascii("shttp"), Ascii("rtsp"), Ascii("rtsps"), Ascii("rtspu"), Ascii("sip"), Ascii("sips"),
    Ascii("mms"), Ascii("sftp"), Ascii("tel")}

  function LStrip(s: Text): Text {
    if s != [] && s[0] <= SPACE then LStrip(s[1..]) else s
  }

  function RemoveControls(s: Text): (r: Text)
    ensures forall b :: b in r ==> b in s && b !in CONTROLS
  {
    if s == [] then []
    else if s[0] in CONTROLS then RemoveControls(s[1..])
    else [s[0]] + RemoveControls(s[1..])
  }

  function Clean(url: Text): Text {
    RemoveControls(LStrip(url))
  }

  /** What is cleaned away: the blanks and control bytes in front, and any tab or line break. */
  lemma CleanExactly(s: Text, t: Text)
    requires (forall b :: b in s ==> b <= SPACE) && t != [] && t[0] > SPACE
    ensures Clean(s + t) == Filter(t, (b: byte) => b !in {9, 10, 13})
  {
    StripsFront(s, t);
    RemovesControls(t);
  }

  lemma {:induction false} StripsFront(s: Text, t: Text)
    requires (forall b :: b in s ==> b <= SPACE) && t != [] && t[0] > SPACE
    ensures LStrip(s + t) == t
  {
    if s == [] {
      assert s + t == t;
    } else {
      assert s[0] in s && forall b :: b in s[1..] ==> b in s;
      assert (s + t)[0] == s[0] && (s + t)[1..] == s[1..] + t;
      StripsFront(s[1..], t);
    }
  }

  lemma {:induction false} RemovesControls(t: Text)
    ensures RemoveControls(t) == Filter(t, (b: byte) => b !in {9, 10, 13})
  {
    if t != [] {
      RemovesControls(t[1..]);
    }
  }

  predicate SchemeChar(b: byte) {
    IsAlpha(b) || IsDigit(b) || b == PLUS || b == DASH || b == DOT
  }

  predicate IsScheme(s: Text) {
    s != [] && IsAlpha(s[0]) && forall i :: 0 <= i < |s| ==> SchemeChar(s[i])
  }

  datatype Parts = Parts(scheme: Text, netloc: Text, path: Text, query: Text)

  function SplitScheme(url: Text): (Text, Text) {
    var i := Find(url, {COLON});
    if 0 < i < |url| && IsScheme(url[..i]) then (Lower(url[..i]), url[i + 1..]) else ([], url)
  }

  /** A scheme is a letter followed by letters, digits, "+", "-" and "." (section 3.1 of RFC 3986). */
  lemma SchemeExactly(s: Text)
    ensures IsScheme(s) <==>
              && s != [] && (s[0] in CAPITALS || s[0] in SMALLS)
              && forall i :: 0 <= i < |s| ==>
                   s[i] in CAPITALS || s[i] in SMALLS || s[i] in DIGITS || s[i] in {PLUS, DASH, DOT}
  {
    forall i | 0 <= i < |s|
      ensures IsAlpha(s[i]) <==> s[i] in CAPITALS || s[i] in SMALLS
      ensures SchemeChar(s[i]) <==> s[i] in CAPITALS || s[i] in SMALLS || s[i] in DIGITS || s[i] in {PLUS, DASH, DOT}
    {
      LettersExactly(s[i]);
      DigitsExactly(s[i]);
    }
  }

  /** What precedes the first ":" is cut off when it is a scheme. */
  lemma SplitSchemeExactly(a: Text, b: Text)
    requires COLON !in a
    ensures SplitScheme(a) == ([], a)
    ensures SplitScheme(a + [COLON] + b) == if IsScheme(a) then (Lower(a), b) else ([], a + [COLON] + b)
  {
    FindUnique(a, {COLON}, |a|);
    FindSeparator(a, COLON, b);
  }

  predicate StartsWithSlashes(s: Text) {
    |s| >= 2 && s[0] == SLASH && s[1] == SLASH
  }

  /** The part before the first "#", cut at the first "?". */
  function PathAndQuery(rest: Text): (Text, Text) {
    var body := rest[..Find(rest, {HASH})];
    var q := Find(body, {QUESTION});
    (body[..q], if q < |body| then body[q + 1..] else [])
  }

  /** None stands for a bracketed host: urlsplit rejects it or takes it as an IPv6 literal. */
  function UrlSplit(url: Text): Option<Parts> {
    var (scheme, rest) := SplitScheme(Clean(url));
    if StartsWithSlashes(rest) then
      var d := 2 + Find(rest[2..], {SLASH, QUESTION, HASH});
      var netloc := rest[2..d];
      if OPEN_BRACKET in netloc || CLOSE_BRACKET in netloc then None
      else
        var (path, query) := PathAndQuery(rest[d..]);
        Some(Parts(scheme, netloc, path, query))
    else
      var (path, query) := PathAndQuery(rest);
      Some(Parts(scheme, [], path, query))
  }

  /** Where the last path segment begins. */
  function LastSegmentStart(path: Text): nat {
    FindLast(path, SLASH) + 1
  }

  predicate HasParams(path: Text) {
    SEMICOLON in path[LastSegmentStart(path)..]
  }

  /** _splitparams: the last segment is cut at its first ";". */
  function DropParams(path: Text): (r: Text)
    ensures r <= path
    ensures r == path <==> !HasParams(path)
  {
    var start := LastSegmentStart(path);
    var i := Find(path[start..], {SEMICOLON});
    path[..start + i]
  }

  function UrlParse(url: Text): Option<Parts> {
    match UrlSplit(url)
    case None => None
    case Some(p) => Some(if p.scheme in USES_PARAMS then p.(path := DropParams(p.path)) else p)
  }

  // ---------------------------------------------------------------------
  // Host and port
  // ---------------------------------------------------------------------

  function PrintNat(n: nat): (t: Text)
    ensures t != [] && forall i :: 0 <= i < |t| ==> IsDigit(t[i])
  {
    if n < 10 then [48 + n] else PrintNat(n / 10) + [48 + n % 10]
  }

  function ParseNat(t: Text): nat
    requires forall i :: 0 <= i < |t| ==> IsDigit(t[i])
  {
    if t == [] then 0
    else
      assert IsDigit(t[|t| - 1]);
      ParseNat(t[..|t| - 1]) * 10 + (t[|t| - 1] - 48)
  }

  lemma {:induction false} DecimalRoundTrip(n: nat)
    ensures ParseNat(PrintNat(n)) == n
  {
    if n >= 10 {
      var t := PrintNat(n);
      assert t[..|t| - 1] == PrintNat(n / 10);
      DecimalRoundTrip(n / 10);
    } else {
      assert PrintNat(n)[..0] == [];
    }
  }

  datatype Port = NoPort | Number(n: nat) | BadPort

  function ParsePort(t: Text): Port {
    if t == [] then NoPort
    else if (forall i :: 0 <= i < |t| ==> IsDigit(t[i])) && ParseNat(t) <= 65535 then Number(ParseNat(t))
    else BadPort
  }

  function HostInfo(netloc: Text): Text {
    netloc[FindLast(netloc, AT) + 1..]
  }

  function Hostname(netloc: Text): Text {
    var info := HostInfo(netloc);
    Lower(info[..Find(info, {COLON})])
  }

  function PortOf(netloc: Text): Port {
    var info := HostInfo(netloc);
    var i := Find(info, {COLON});
    ParsePort(if i < |info| then info[i + 1..] else [])
  }

  predicate IsDefaultPort(scheme: Text, n: nat) {
    (scheme == HTTP && n == 80) || (scheme == HTTPS && n == 443)
  }

  /** The canonical host part; None when there is no host or the port is not a port. */
  function Authority(scheme: Text, netloc: Text): Option<Text> {
    if Hostname(netloc) == [] then None
    else
      match PortOf(netloc)
      case BadPort => None
      case NoPort => Some(Hostname(netloc))
      case Number(n) =>
        if IsDefaultPort(scheme, n) then Some(Hostname(netloc))
        else Some(Hostname(netloc) + [COLON] + PrintNat(n))
  }

  // ---------------------------------------------------------------------
  // The path step
  // ---------------------------------------------------------------------

  const PATH_SAFE: set<byte> := set i | 0 <= i < |Ascii("/-._~!$&'()*+,;=:@")| :: Ascii("/-._~!$&'()*+,;=:@")[i]

  function NormalizePath(path: Text): Text {
    Quote(Unquote(path), PATH_SAFE)
  }

  function PathStep(path: Text): Text {
    var p := NormalizePath(path);
    var stripped := if p != [SLASH] && p != [] && p[|p| - 1] == SLASH then RStrip(p, SLASH) else p;
    if stripped == [] then [SLASH] else stripped
  }

  lemma PathSafeBytes()
    ensures SLASH in PATH_SAFE && SEMICOLON in PATH_SAFE
    ensures PERCENT !in PATH_SAFE && QUESTION !in PATH_SAFE && HASH !in PATH_SAFE
    ensures forall b :: b in PATH_SAFE ==> b > SPACE
  {
    var t := Ascii("/-._~!$&'()*+,;=:@");
    assert t[0] == SLASH && t[14] == SEMICOLON;
    assert forall i :: 0 <= i < |t| ==>
      t[i] != PERCENT && t[i] != QUESTION && t[i] != HASH && t[i] > SPACE;
  }

  /** _normalize_path is idempotent for every byte string, well-formed escapes or not. */
  lemma NormalizePathIdempotent(path: Text)
    ensures NormalizePath(NormalizePath(path)) == NormalizePath(path)
  {
    PathSafeBytes();
    UnquoteQuote(Unquote(path), PATH_SAFE);
  }

  /** Stripping trailing slashes commutes with encoding. */
  lemma {:induction false} QuoteRStrip(d: Text)
    ensures Quote(RStrip(d, SLASH), PATH_SAFE) == RStrip(Quote(d, PATH_SAFE), SLASH)
  {
    PathSafeBytes();
    if d != [] {
      var n := |d| - 1;
      var q := Quote(d, PATH_SAFE);
      var last := QuoteByte(d[n], PATH_SAFE);
      assert d == d[..n] + [d[n]];
      QuoteAppend(d[..n], [d[n]], PATH_SAFE);
      assert Quote([d[n]], PATH_SAFE) == last + Quote([d[n]][1..], PATH_SAFE) == last;
      assert q == Quote(d[..n], PATH_SAFE) + last;
      if d[n] == SLASH {
        assert last == [SLASH];
        assert q[..|q| - 1] == Quote(d[..n], PATH_SAFE);
        QuoteRStrip(d[..n]);
      } else {
        assert q[|q| - 1] == last[|last| - 1] != SLASH;
      }
    }
  }

  /** What the path step comes to: the decoded path without its trailing slashes, re-encoded. */
  lemma PathStepMeans(path: Text)
    ensures var d := RStrip(Unquote(path), SLASH);
            PathStep(path) == if d == [] then [SLASH] else Quote(d, PATH_SAFE)
  {
    var p := NormalizePath(path);
    QuoteRStrip(Unquote(path));
    if p == [SLASH] {
      assert RStrip(p, SLASH) == RStrip(p[..0], SLASH) == [];
    } else if p != [] && p[|p| - 1] != SLASH {
      RStripFixed(p, SLASH);
    }
  }

  /** The path step on a path that is already canonical. */
  lemma PathStepOfQuoted(d: Text)
    ensures PathStep(Quote(d, PATH_SAFE)) == var r := RStrip(d, SLASH); if r == [] then [SLASH] else Quote(r, PATH_SAFE)
  {
    PathSafeBytes();
    UnquoteQuote(d, PATH_SAFE);
    PathStepMeans(Quote(d, PATH_SAFE));
  }

  /** The whole path step is idempotent as a function on paths. */
  lemma PathStepIdempotent(path: Text)
    ensures PathStep(PathStep(path)) == PathStep(path)
  {
    PathSafeBytes();
    PathStepMeans(path);
    var d := RStrip(Unquote(path), SLASH);
    if d == [] {
      assert Quote([SLASH], PATH_SAFE) == [SLASH] + Quote([SLASH][1..], PATH_SAFE) == [SLASH];
      PathStepOfQuoted([SLASH]);
      assert RStrip([SLASH], SLASH) == RStrip([SLASH][..0], SLASH) == [];
    } else {
      PathStepOfQuoted(d);
      RStripFixed(d, SLASH);
    }
  }

  predicate IsPathText(p: Text) {
    p != [] && p[0] == SLASH && forall b :: b in p ==> b > SPACE && b != QUESTION && b != HASH
  }

  lemma QuotedText(d: Text, safe: set<byte>)
    requires d != [] && d[0] == SLASH && SLASH in safe
    requires forall b :: b in safe ==> b > SPACE && b != QUESTION && b != HASH
    ensures IsPathText(Quote(d, safe))
  {
    QuoteAlphabet(d, safe);
    assert Quote(d, safe) == [SLASH] + Quote(d[1..], safe);
  }

  lemma QuotedPathText(d: Text)
    requires d != [] && d[0] == SLASH
    ensures IsPathText(Quote(d, PATH_SAFE))
  {
    PathSafeBytes();
    QuotedText(d, PATH_SAFE);
  }

  lemma DecodedRoot(path: Text)
    requires path == [] || path[0] == SLASH
    ensures Unquote(path) == [] || Unquote(path)[0] == SLASH
  {
  }

  lemma PathStepText(path: Text)
    requires path == [] || path[0] == SLASH
    ensures IsPathText(PathStep(path))
  {
    PathStepMeans(path);
    DecodedRoot(path);
    var d := RStrip(Unquote(path), SLASH);
    if d != [] {
      QuotedPathText(d);
    }
  }

  // ---------------------------------------------------------------------
  // normalize_url
  // ---------------------------------------------------------------------

  function SchemeOf(p: Parts): Text {
    if p.scheme == [] then HTTP else Lower(p.scheme)
  }

  ghost function Print(scheme: Text, authority: Text, path: Text, query: Text): Text {
    scheme + [COLON, SLASH, SLASH] + authority + path + (if query == [] then [] else [QUESTION] + query)
  }

  /** A URL that does not parse, has no host or a bad port comes back unchanged. */
  predicate Normalizable(url: Text) {
    UrlParse(url).Some? && Authority(SchemeOf(UrlParse(url).value), UrlParse(url).value.netloc).Some?
  }

  ghost function NormalizeUrl(url: Text, junk: set<Text>): Text {
    if !Normalizable(url) then url
    else
      var p := UrlParse(url).value;
      var scheme := SchemeOf(p);
      Print(scheme, Authority(scheme, p.netloc).value, PathStep(p.path), QueryStep(p.query, junk))
  }
}
