/** What one more query parameter does to the dedup key of a URL. */
module UrlQuery {
  import opened Common
  import opened TextOps
  import opened QueryCodec
  import opened UrlNormalization
  import opened UrlIdempotence
  import opened UrlEquality

  /** A URL before its query: no "?" and no "#". */
  predicate IsFront(h: Text) {
    QUESTION !in h && HASH !in h
  }

  function WithQuery(h: Text, q: Text): Text {
    h + [QUESTION] + q
  }

  // ---------------------------------------------------------------------
  // urlsplit of a URL with a query
  // ---------------------------------------------------------------------

  lemma {:induction false} LStripFront(h: Text, t: Text)
    requires t != [] && t[0] > SPACE
    ensures LStrip(h + t) == LStrip(h) + t
  {
    if h == [] {
      assert h + t == t;
    } else {
      assert (h + t)[0] == h[0] && (h + t)[1..] == h[1..] + t;
      LStripFront(h[1..], t);
    }
  }

  lemma {:induction false} RemoveControlsAppend(s: Text, t: Text)
    ensures RemoveControls(s + t) == RemoveControls(s) + RemoveControls(t)
  {
    if s == [] {
      assert s + t == t;
    } else {
      assert (s + t)[0] == s[0] && (s + t)[1..] == s[1..] + t;
      RemoveControlsAppend(s[1..], t);
    }
  }

  lemma NoControls(q: Text)
    requires IsQueryText(q)
    ensures RemoveControls([QUESTION] + q) == [QUESTION] + q
  {
    forall b | b in [QUESTION] + q
      ensures b !in CONTROLS
    {
      assert b == QUESTION || b in q;
    }
    RemoveNothing([QUESTION] + q);
  }

  lemma CleanAppend(h: Text, t: Text)
    requires t != [] && t[0] > SPACE && RemoveControls(t) == t
    ensures Clean(h + t) == Clean(h) + t
  {
    LStripFront(h, t);
    RemoveControlsAppend(LStrip(h), t);
  }

  lemma QueryAsTail(h: Text, q: Text)
    ensures WithQuery(h, q) == h + ([QUESTION] + q)
  {
  }

  lemma CleanWithQuery(h: Text, q: Text)
    requires IsQueryText(q)
    ensures Clean(WithQuery(h, q)) == WithQuery(Clean(h), q)
  {
    NoControls(q);
    QueryAsTail(h, q);
    CleanAppend(h, [QUESTION] + q);
    QueryAsTail(Clean(h), q);
  }

  lemma CleanFront(h: Text)
    requires IsFront(h)
    ensures IsFront(Clean(h))
  {
    LStripSubset(h);
  }

  /** Stopping at one of the bytes in stop, "?" among them. */
  lemma FindWithQuery(h: Text, q: Text, stop: set<byte>)
    requires QUESTION in stop
    ensures Find(WithQuery(h, q), stop) == Find(h, stop)
  {
    var i := Find(h, stop);
    assert forall j :: 0 <= j < i ==> WithQuery(h, q)[j] == h[j];
    FindUnique(WithQuery(h, q), stop, i);
  }

  lemma SchemeWithQuery(u: Text, q: Text)
    requires IsFront(u)
    ensures SplitScheme(WithQuery(u, q)) == (SplitScheme(u).0, WithQuery(SplitScheme(u).1, q))
    ensures IsFront(SplitScheme(u).1)
  {
    var t := WithQuery(u, q);
    var i, j := Find(u, {COLON}), Find(t, {COLON});
    if i < |u| {
      assert forall k :: 0 <= k < i ==> t[k] == u[k];
      FindUnique(t, {COLON}, i);
      assert t[..i] == u[..i] && t[i + 1..] == WithQuery(u[i + 1..], q);
    } else if j < |t| {
      assert j > |u| by {
        assert forall k :: 0 <= k < |u| ==> t[k] == u[k] && u[k] !in {COLON};
      }
      assert t[..j][|u|] == QUESTION && !SchemeChar(QUESTION);
      assert !IsScheme(t[..j]);
    }
  }

  lemma BodyWithQuery(rest: Text, q: Text)
    requires IsFront(rest) && IsQueryText(q)
    ensures PathAndQuery(WithQuery(rest, q)) == (PathAndQuery(rest).0, q) && PathAndQuery(rest) == (rest, [])
  {
    var t := WithQuery(rest, q);
    forall k | 0 <= k < |t|
      ensures t[k] != HASH
    {
      assert t[k] in rest || t[k] == QUESTION || t[k] in q;
    }
    FindUnique(t, {HASH}, |t|);
    assert t[..|t|] == t;
    FindUnique(t, {QUESTION}, |rest|);
    FindUnique(rest, {HASH}, |rest|);
    FindUnique(rest, {QUESTION}, |rest|);
    assert rest[..|rest|] == rest == t[..|rest|] && t[|rest| + 1..] == q;
  }

  lemma NetlocWithQuery(rest: Text, q: Text)
    requires IsFront(rest) && IsQueryText(q) && StartsWithSlashes(rest)
    ensures var t, d := WithQuery(rest, q), 2 + Find(rest[2..], {SLASH, QUESTION, HASH});
            && StartsWithSlashes(t) && d == 2 + Find(t[2..], {SLASH, QUESTION, HASH}) && d <= |rest|
            && t[2..d] == rest[2..d] && PathAndQuery(t[d..]) == (PathAndQuery(rest[d..]).0, q)
            && PathAndQuery(rest[d..]).1 == []
  {
    var t, d := WithQuery(rest, q), 2 + Find(rest[2..], {SLASH, QUESTION, HASH});
    assert t[2..] == WithQuery(rest[2..], q);
    FindWithQuery(rest[2..], q, {SLASH, QUESTION, HASH});
    assert t[d..] == WithQuery(rest[d..], q);
    BodyWithQuery(rest[d..], q);
  }

  lemma NoNetlocWithQuery(rest: Text, q: Text)
    requires !StartsWithSlashes(rest)
    ensures !StartsWithSlashes(WithQuery(rest, q))
  {
  }

  /** What urlsplit makes of a cleaned URL once its scheme is cut off. */
  function SplitRest(scheme: Text, rest: Text): Option<Parts> {
    if StartsWithSlashes(rest) then
      var d := 2 + Find(rest[2..], {SLASH, QUESTION, HASH});
      if OPEN_BRACKET in rest[2..d] || CLOSE_BRACKET in rest[2..d] then None
      else Some(Parts(scheme, rest[2..d], PathAndQuery(rest[d..]).0, PathAndQuery(rest[d..]).1))
    else Some(Parts(scheme, [], PathAndQuery(rest).0, PathAndQuery(rest).1))
  }

  lemma SplitIsRest(url: Text)
    ensures UrlSplit(url) == SplitRest(SplitScheme(Clean(url)).0, SplitScheme(Clean(url)).1)
  {
  }

  lemma RestWithQuery(scheme: Text, rest: Text, q: Text)
    requires IsFront(rest) && IsQueryText(q)
    ensures SplitRest(scheme, WithQuery(rest, q)).Some? == SplitRest(scheme, rest).Some?
    ensures SplitRest(scheme, rest).Some? ==>
              SplitRest(scheme, WithQuery(rest, q)).value == SplitRest(scheme, rest).value.(query := q)
  {
    if StartsWithSlashes(rest) {
      NetlocWithQuery(rest, q);
    } else {
      NoNetlocWithQuery(rest, q);
      BodyWithQuery(rest, q);
    }
  }

  /** A query changes the query component and nothing else. */
  lemma SplitWithQuery(h: Text, q: Text)
    requires IsFront(h) && IsQueryText(q)
    ensures UrlSplit(WithQuery(h, q)).Some? == UrlSplit(h).Some?
    ensures UrlSplit(h).Some? ==> UrlSplit(WithQuery(h, q)).value == UrlSplit(h).value.(query := q)
  {
    CleanWithQuery(h, q);
    CleanFront(h);
    SchemeWithQuery(Clean(h), q);
    SplitIsRest(h);
    SplitIsRest(WithQuery(h, q));
    RestWithQuery(SplitScheme(Clean(h)).0, SplitScheme(Clean(h)).1, q);
  }

  lemma ParseWithQuery(h: Text, q: Text)
    requires IsFront(h) && IsQueryText(q)
    ensures UrlParse(WithQuery(h, q)).Some? == UrlParse(h).Some?
    ensures UrlParse(h).Some? ==> UrlParse(WithQuery(h, q)).value == UrlParse(h).value.(query := q)
    ensures Normalizable(WithQuery(h, q)) == Normalizable(h)
  {
    SplitWithQuery(h, q);
  }

  // ---------------------------------------------------------------------
  // One more parameter
  // ---------------------------------------------------------------------

  /** The parameters of the canonical URL. */
  function ParamsOf(url: Text): Params {
    match UrlSplit(url)
    case None => map[]
    case Some(p) => ParseQuery(p.query)
  }

  lemma FieldIsQueryText(q: Text, p: Pair)
    requires IsQueryText(q)
    ensures IsQueryText(q + [AMPERSAND] + PrintField(p))
  {
    QuotePlusAlphabet(p.key);
    QuotePlusAlphabet(p.value);
    forall b | b in q + [AMPERSAND] + PrintField(p)
      ensures QueryByte(b)
    {
      assert b in q || b == AMPERSAND || b in QuotePlus(p.key) || b == EQUALS || b in QuotePlus(p.value);
    }
  }

  /** A tracking parameter, or one without a value, at the end of a URL leaves its key as it is. */
  lemma JunkLeavesTheKey(h: Text, q: Text, p: Pair, junk: set<Text>)
    requires IsFront(h) && IsQueryText(q) && Normalizable(h)
    requires Lower(p.key) in junk || p.value == []
    ensures NormalizeUrl(WithQuery(h, q + [AMPERSAND] + PrintField(p)), junk) == NormalizeUrl(WithQuery(h, q), junk)
  {
    FieldIsQueryText(q, p);
    ParseWithQuery(h, q);
    ParseWithQuery(h, q + [AMPERSAND] + PrintField(p));
    JunkMakesNoDifference(q, p, junk);
  }

  /** Any other parameter gives a new key, in which it has its value as the last one and every
      other parameter is as before. */
  lemma ParameterIsKept(h: Text, q: Text, p: Pair, junk: set<Text>)
    requires IsFront(h) && IsQueryText(q) && Normalizable(h)
    requires Lower(p.key) !in junk && p.value != []
    ensures var short := NormalizeUrl(WithQuery(h, q), junk);
            var long := NormalizeUrl(WithQuery(h, q + [AMPERSAND] + PrintField(p)), junk);
            && ParamsOf(long) == ParamsOf(short)[p.key := ValuesOf(ParamsOf(short), p.key) + [p.value]]
            && long != short
  {
    FieldIsQueryText(q, p);
    ParseWithQuery(h, q);
    ParseWithQuery(h, q + [AMPERSAND] + PrintField(p));
    CanonicalParts(WithQuery(h, q), junk);
    CanonicalParts(WithQuery(h, q + [AMPERSAND] + PrintField(p)), junk);
    OthersAreKept(q, p, junk);
  }
}
