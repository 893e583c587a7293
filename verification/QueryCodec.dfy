/** The query step of normalize_url: parse_qs, the junk filter, sorting and urlencode. */
module QueryCodec {
  import opened Common
  import opened TextOps
  import opened PercentCodec

  // ---------------------------------------------------------------------
  // quote_plus and its inverse
  // ---------------------------------------------------------------------

  function QuotePlus(s: Text): Text {
    Replace(Quote(s, {SPACE}), SPACE, PLUS)
  }

  function UnquotePlus(s: Text): Text {
    Unquote(Replace(s, PLUS, SPACE))
  }

  lemma NoEscapeAcross(s: Text, t: Text)
    requires s != []
    ensures IsEscape(s + [SPACE] + t) <==> IsEscape(s)
    ensures (s + [SPACE] + t)[1..] == s[1..] + [SPACE] + t
    ensures IsEscape(s) ==> (s + [SPACE] + t)[3..] == s[3..] + [SPACE] + t
  {
    assert HexValue(SPACE) == None;
  }

  lemma {:induction false} UnquoteBlank(s: Text, t: Text)
    ensures Unquote(s + [SPACE] + t) == Unquote(s) + [SPACE] + Unquote(t)
    decreases |s|
  {
    if s == [] {
      assert (s + [SPACE] + t)[1..] == t;
    } else {
      NoEscapeAcross(s, t);
      UnquoteBlank(if IsEscape(s) then s[3..] else s[1..], t);
    }
  }

  /** A plus sign is read as a blank. */
  lemma PlusIsBlank(s: Text, t: Text)
    ensures UnquotePlus(s + [PLUS] + t) == UnquotePlus(s) + [SPACE] + UnquotePlus(t)
  {
    UnquoteBlank(Replace(s, PLUS, SPACE), Replace(t, PLUS, SPACE));
    assert Replace(s + [PLUS] + t, PLUS, SPACE) == Replace(s, PLUS, SPACE) + [SPACE] + Replace(t, PLUS, SPACE);
  }

  lemma ReplaceAppend(s: Text, t: Text)
    ensures Replace(s + t, SPACE, PLUS) == Replace(s, SPACE, PLUS) + Replace(t, SPACE, PLUS)
  {
  }

  /** One byte after the other: a blank becomes a plus sign, an unreserved byte stays, any other
      becomes "%" and its two hex digits. */
  lemma QuotePlusExactly(s: Text, b: byte, t: Text)
    ensures QuotePlus(s + ([b] + t))
         == QuotePlus(s)
            + ((if b == SPACE then [PLUS] else if b in UNRESERVED then [b]
                else [PERCENT, HEX_UPPER[b / 16], HEX_UPPER[b % 16]])
               + QuotePlus(t))
  {
    QuoteExactly(s, b, t, {SPACE});
    ByteExactly(b, {SPACE});
    BlankInByte(b);
    ReplaceAppend(Quote(s, {SPACE}), QuoteByte(b, {SPACE}) + Quote(t, {SPACE}));
    ReplaceAppend(QuoteByte(b, {SPACE}), Quote(t, {SPACE}));
  }

  lemma BlankInByte(b: byte)
    ensures Replace(QuoteByte(b, {SPACE}), SPACE, PLUS) == if b == SPACE then [PLUS] else QuoteByte(b, {SPACE})
  {
  }

  lemma UnquoteQuotePlus(s: Text)
    ensures UnquotePlus(QuotePlus(s)) == s
  {
    var q := Quote(s, {SPACE});
    QuoteAlphabet(s, {SPACE});
    assert forall i :: 0 <= i < |q| ==> q[i] in q;
    assert Replace(Replace(q, SPACE, PLUS), PLUS, SPACE) == q;
    UnquoteQuote(s, {SPACE});
  }

  lemma QuotePlusAlphabet(s: Text)
    ensures forall b :: b in QuotePlus(s) ==> AlwaysSafe(b) || b == PLUS || b == PERCENT
    ensures QuotePlus(s) == [] <==> s == []
  {
    var q := Quote(s, {SPACE});
    QuoteAlphabet(s, {SPACE});
    assert forall i :: 0 <= i < |q| ==> q[i] in q;
  }

  // ---------------------------------------------------------------------
  // Pairs
  // ---------------------------------------------------------------------

  datatype Pair = Pair(key: Text, value: Text)

  /** One field: dropped without "=" or with a blank value. */
  function ParseField(field: Text): seq<Pair> {
    var i := Find(field, {EQUALS});
    if i >= |field| - 1 then []
    else [Pair(UnquotePlus(field[..i]), UnquotePlus(field[i + 1..]))]
  }

  /** A field is cut at its first "=". */
  lemma FieldExactly(a: Text, b: Text)
    requires EQUALS !in a
    ensures ParseField(a) == []
    ensures ParseField(a + [EQUALS] + b) == if b == [] then [] else [Pair(UnquotePlus(a), UnquotePlus(b))]
  {
    FindUnique(a, {EQUALS}, |a|);
    FindSeparator(a, EQUALS, b);
  }

  function ParseFields(fields: seq<Text>): seq<Pair> {
    if fields == [] then [] else ParseField(fields[0]) + ParseFields(fields[1..])
  }

  /** parse_qsl with keep_blank_values=False. */
  function ParsePairs(query: Text): seq<Pair> {
    ParseFields(Split(query, AMPERSAND))
  }

  function PrintField(p: Pair): Text {
    QuotePlus(p.key) + [EQUALS] + QuotePlus(p.value)
  }

  function PrintFields(pairs: seq<Pair>): seq<Text> {
    if pairs == [] then [] else [PrintField(pairs[0])] + PrintFields(pairs[1..])
  }

  function PrintPairs(pairs: seq<Pair>): Text {
    Join(PrintFields(pairs), AMPERSAND)
  }

  lemma FieldText(p: Pair)
    ensures AMPERSAND !in PrintField(p) && EQUALS !in QuotePlus(p.key)
    ensures QuotePlus(p.value) == [] <==> p.value == []
  {
    QuotePlusAlphabet(p.key);
    QuotePlusAlphabet(p.value);
  }

  lemma FieldRoundTrip(p: Pair)
    requires p.value != []
    ensures ParseField(PrintField(p)) == [p]
    ensures AMPERSAND !in PrintField(p)
  {
    FieldText(p);
    FindSeparator(QuotePlus(p.key), EQUALS, QuotePlus(p.value));
    UnquoteQuotePlus(p.key);
    UnquoteQuotePlus(p.value);
  }

  lemma {:induction false} FieldsRoundTrip(pairs: seq<Pair>)
    requires forall p :: p in pairs ==> p.value != []
    ensures ParseFields(PrintFields(pairs)) == pairs
    ensures forall f :: f in PrintFields(pairs) ==> AMPERSAND !in f
  {
    if pairs != [] {
      FieldRoundTrip(pairs[0]);
      FieldsRoundTrip(pairs[1..]);
      assert PrintFields(pairs)[1..] == PrintFields(pairs[1..]);
    }
  }

  lemma PairsRoundTrip(pairs: seq<Pair>)
    requires forall p :: p in pairs ==> p.value != []
    ensures ParsePairs(PrintPairs(pairs)) == pairs
  {
    FieldsRoundTrip(pairs);
    if pairs == [] {
      assert Split([], AMPERSAND) == [[]];
      assert ParseFields([[]]) == ParseField([]) + ParseFields([[]][1..]);
    } else {
      SplitJoin(PrintFields(pairs), AMPERSAND);
    }
  }

  // ---------------------------------------------------------------------
  // The parameter dictionary
  // ---------------------------------------------------------------------

  type Params = map<Text, seq<Text>>

  function ValuesOf(m: Params, key: Text): seq<Text> {
    if key in m then m[key] else []
  }

  /** parse_qs: the values of each key in the order they occur. */
  function Group(pairs: seq<Pair>): Params {
    if pairs == [] then map[]
    else
      var n := |pairs| - 1;
      var m := Group(pairs[..n]);
      m[pairs[n].key := ValuesOf(m, pairs[n].key) + [pairs[n].value]]
  }

  /** What parse_qs returns: no key without a value, no blank value. */
  predicate IsParams(m: Params) {
    forall k :: k in m ==> m[k] != [] && forall v :: v in m[k] ==> v != []
  }

  function WithoutJunk(m: Params, junk: set<Text>): Params {
    map k | k in m && Lower(k) !in junk :: m[k]
  }

  // ---------------------------------------------------------------------
  // Sorting
  // ---------------------------------------------------------------------

  predicate LexLeq(a: Text, b: Text) {
    a == [] || (b != [] && (a[0] < b[0] || (a[0] == b[0] && LexLeq(a[1..], b[1..]))))
  }

  lemma {:induction false} LexTotal(a: Text, b: Text)
    ensures LexLeq(a, b) || LexLeq(b, a)
    ensures LexLeq(a, b) && LexLeq(b, a) ==> a == b
  {
    if a != [] && b != [] && a[0] == b[0] {
      LexTotal(a[1..], b[1..]);
      assert a == [a[0]] + a[1..] && b == [b[0]] + b[1..];
    }
  }

  lemma {:induction false} LexTransitive(a: Text, b: Text, c: Text)
    requires LexLeq(a, b) && LexLeq(b, c)
    ensures LexLeq(a, c)
  {
    if a != [] && a[0] == b[0] && b[0] == c[0] {
      LexTransitive(a[1..], b[1..], c[1..]);
    }
  }

  /** The order of Python's str: the first byte that differs decides, and a prefix comes first. */
  ghost predicate ByteOrder(a: Text, b: Text) {
    a <= b || exists i :: 0 <= i < |a| && i < |b| && a[..i] == b[..i] && a[i] < b[i]
  }

  lemma {:induction false} LexIsByteOrder(a: Text, b: Text)
    ensures LexLeq(a, b) <==> ByteOrder(a, b)
  {
    if a != [] && b != [] {
      if a[0] == b[0] {
        LexIsByteOrder(a[1..], b[1..]);
        assert a == [a[0]] + a[1..] && b == [b[0]] + b[1..];
        if i :| 0 <= i < |a| - 1 && i < |b| - 1 && a[1..][..i] == b[1..][..i] && a[1..][i] < b[1..][i] {
          assert a[..i + 1] == [a[0]] + a[1..][..i] == b[..i + 1] && a[i + 1] < b[i + 1];
        }
        if i :| 0 <= i < |a| && i < |b| && a[..i] == b[..i] && a[i] < b[i] {
          assert i > 0;
          assert a[1..][..i - 1] == a[..i][1..] == b[1..][..i - 1] && a[1..][i - 1] < b[1..][i - 1];
        }
      } else {
        assert a[..0] == b[..0];
        if i :| 0 <= i < |a| && i < |b| && a[..i] == b[..i] && a[i] < b[i] {
          assert i > 0 ==> a[..i][0] == b[..i][0];
        }
      }
    }
  }

  predicate IsLeast(keys: set<Text>, k: Text) {
    k in keys && forall j :: j in keys ==> LexLeq(k, j)
  }

  lemma {:induction false} LeastExists(keys: set<Text>)
    requires keys != {}
    ensures exists k :: IsLeast(keys, k)
    decreases keys
  {
    var a :| a in keys;
    var rest := keys - {a};
    LexTotal(a, a);
    if rest == {} {
      assert keys == {a};
      assert IsLeast(keys, a);
    } else {
      LeastExists(rest);
      var b :| IsLeast(rest, b);
      LexTotal(a, b);
      var k := if LexLeq(a, b) then a else b;
      forall j | j in keys
        ensures LexLeq(k, j)
      {
        if j != a && k == a {
          LexTransitive(a, b, j);
        }
      }
      assert IsLeast(keys, k);
    }
  }

  /** sorted(params): keys are distinct, so values are never compared. */
  ghost function SortedKeys(keys: set<Text>): (ks: seq<Text>)
    ensures forall k :: k in ks <==> k in keys
    ensures forall i, j :: 0 <= i < j < |ks| ==> ks[i] != ks[j] && LexLeq(ks[i], ks[j])
  {
    if keys == {} then []
    else
      LeastExists(keys);
      var k :| IsLeast(keys, k);
      [k] + SortedKeys(keys - {k})
  }

  // ---------------------------------------------------------------------
  // urlencode(sorted(params.items()), doseq=True)
  // ---------------------------------------------------------------------

  function PairsOf(key: Text, values: seq<Text>): seq<Pair> {
    seq(|values|, i requires 0 <= i < |values| => Pair(key, values[i]))
  }

  function Expand(keys: seq<Text>, m: Params): seq<Pair>
    requires forall k :: k in keys ==> k in m
  {
    if keys == [] then []
    else
      var n := |keys| - 1;
      Expand(keys[..n], m) + PairsOf(keys[n], m[keys[n]])
  }

  ghost function PrintParams(m: Params): Text {
    PrintPairs(Expand(SortedKeys(m.Keys), m))
  }

  lemma GroupSnoc(pairs: seq<Pair>, p: Pair)
    ensures Group(pairs + [p]) == Group(pairs)[p.key := ValuesOf(Group(pairs), p.key) + [p.value]]
  {
    assert (pairs + [p])[..|pairs|] == pairs;
  }

  lemma PairsOfSnoc(before: seq<Pair>, key: Text, values: seq<Text>, n: nat)
    requires n + 1 == |values|
    ensures before + PairsOf(key, values) == (before + PairsOf(key, values[..n])) + [Pair(key, values[n])]
  {
    assert PairsOf(key, values) == PairsOf(key, values[..n]) + [Pair(key, values[n])];
  }

  function WithValues(m: Params, key: Text, values: seq<Text>): Params {
    if values == [] then m else m[key := values]
  }

  lemma OneMoreValue(m: Params, key: Text, values: seq<Text>, v: Text)
    requires key !in m
    ensures var w := WithValues(m, key, values);
            w[key := ValuesOf(w, key) + [v]] == WithValues(m, key, values + [v])
  {
    if values == [] {
      assert values + [v] == [v];
    }
  }

  lemma {:induction false} GroupPairsOf(before: seq<Pair>, key: Text, values: seq<Text>)
    requires key !in Group(before)
    ensures Group(before + PairsOf(key, values)) == WithValues(Group(before), key, values)
  {
    if values == [] {
      assert before + PairsOf(key, values) == before;
    } else {
      var n := |values| - 1;
      var init := values[..n];
      assert values == init + [values[n]];
      GroupPairsOf(before, key, init);
      PairsOfSnoc(before, key, values, n);
      GroupSnoc(before + PairsOf(key, init), Pair(key, values[n]));
      OneMoreValue(Group(before), key, init, values[n]);
    }
  }

  function Select(m: Params, keys: seq<Text>): Params {
    map k | k in keys && k in m :: m[k]
  }

  lemma SelectSnoc(m: Params, keys: seq<Text>, n: nat)
    requires n + 1 == |keys| && keys[n] in m
    ensures Select(m, keys) == Select(m, keys[..n])[keys[n] := m[keys[n]]]
  {
    assert keys == keys[..n] + [keys[n]];
  }

  lemma {:induction false} GroupExpand(keys: seq<Text>, m: Params)
    requires IsParams(m) && forall k :: k in keys ==> k in m
    requires forall i, j :: 0 <= i < j < |keys| ==> keys[i] != keys[j]
    ensures Group(Expand(keys, m)) == Select(m, keys)
  {
    if keys != [] {
      var n := |keys| - 1;
      GroupExpand(keys[..n], m);
      assert keys[n] !in keys[..n];
      GroupPairsOf(Expand(keys[..n], m), keys[n], m[keys[n]]);
      SelectSnoc(m, keys, n);
    }
  }

  lemma {:induction false} ExpandValues(keys: seq<Text>, m: Params)
    requires IsParams(m) && forall k :: k in keys ==> k in m
    ensures forall p :: p in Expand(keys, m) ==> p.value != []
  {
    if keys != [] {
      var n := |keys| - 1;
      ExpandValues(keys[..n], m);
      assert keys[n] in m;
      forall p | p in PairsOf(keys[n], m[keys[n]])
        ensures p.value != []
      {
        assert p.value in m[keys[n]];
      }
    }
  }

  /** Parsing the printed dictionary gives the dictionary back. */
  lemma ParamsRoundTrip(m: Params)
    requires IsParams(m)
    ensures Group(ParsePairs(PrintParams(m))) == m
  {
    var keys := SortedKeys(m.Keys);
    ExpandValues(keys, m);
    PairsRoundTrip(Expand(keys, m));
    GroupExpand(keys, m);
    assert Select(m, keys) == m;
  }

  lemma {:induction false} UnquoteNonEmpty(s: Text)
    requires s != []
    ensures Unquote(s) != []
  {
  }

  lemma {:induction false} ParsedValues(fields: seq<Text>)
    ensures forall p :: p in ParseFields(fields) ==> p.value != []
  {
    if fields != [] {
      ParsedValues(fields[1..]);
      var field := fields[0];
      var i := Find(field, {EQUALS});
      if i < |field| - 1 {
        UnquoteNonEmpty(Replace(field[i + 1..], PLUS, SPACE));
      }
    }
  }

  lemma {:induction false} GroupedValues(pairs: seq<Pair>)
    requires forall p :: p in pairs ==> p.value != []
    ensures IsParams(Group(pairs))
  {
    if pairs != [] {
      var n := |pairs| - 1;
      GroupedValues(pairs[..n]);
      assert pairs[n] in pairs;
    }
  }

  function ParseQuery(query: Text): (m: Params)
    ensures IsParams(m)
  {
    ParsedValues(Split(query, AMPERSAND));
    GroupedValues(ParsePairs(query));
    Group(ParsePairs(query))
  }

  // ---------------------------------------------------------------------
  // The query step
  // ---------------------------------------------------------------------

  ghost function QueryStep(query: Text, junk: set<Text>): Text {
    PrintParams(WithoutJunk(ParseQuery(query), junk))
  }

  lemma StepParses(query: Text, junk: set<Text>)
    ensures ParseQuery(QueryStep(query, junk)) == WithoutJunk(ParseQuery(query), junk)
  {
    ParamsRoundTrip(WithoutJunk(ParseQuery(query), junk));
  }

  /** Parsing the canonical query gives the parameters whose lower-cased name is not junk, each
      with all its values in order, and no others. */
  lemma QueryStepParses(query: Text, junk: set<Text>)
    ensures var before, after := ParseQuery(query), ParseQuery(QueryStep(query, junk));
            && (forall k :: k in after <==> k in before && Lower(k) !in junk)
            && (forall k :: k in after ==> after[k] == before[k])
  {
    StepParses(query, junk);
  }

  lemma QueryStepIdempotent(query: Text, junk: set<Text>)
    ensures QueryStep(QueryStep(query, junk), junk) == QueryStep(query, junk)
  {
    StepParses(query, junk);
    var m := WithoutJunk(ParseQuery(query), junk);
    assert WithoutJunk(m, junk) == m;
  }

  /** The two queries give every parameter that is not junk the same values. */
  ghost predicate SameParameters(q: Text, r: Text, junk: set<Text>) {
    forall k :: Lower(k) !in junk ==> ValuesOf(ParseQuery(q), k) == ValuesOf(ParseQuery(r), k)
  }

  lemma EqualMeansSame(q: Text, r: Text, junk: set<Text>)
    requires WithoutJunk(ParseQuery(q), junk) == WithoutJunk(ParseQuery(r), junk)
    ensures SameParameters(q, r, junk)
  {
    var m, n := WithoutJunk(ParseQuery(q), junk), WithoutJunk(ParseQuery(r), junk);
    forall k | Lower(k) !in junk
      ensures ValuesOf(ParseQuery(q), k) == ValuesOf(ParseQuery(r), k)
    {
      assert k in m <==> k in n;
    }
  }

  lemma SameMeansEqual(q: Text, r: Text, junk: set<Text>)
    requires SameParameters(q, r, junk)
    ensures WithoutJunk(ParseQuery(q), junk) == WithoutJunk(ParseQuery(r), junk)
  {
    forall k | Lower(k) !in junk
      ensures k in ParseQuery(q) <==> k in ParseQuery(r)
      ensures k in ParseQuery(q) ==> ParseQuery(q)[k] == ParseQuery(r)[k]
    {
      assert ValuesOf(ParseQuery(q), k) == ValuesOf(ParseQuery(r), k);
    }
  }

  /** Two queries get the same key exactly when they carry the same parameters, junk aside. */
  lemma QueryStepEqual(q: Text, r: Text, junk: set<Text>)
    ensures QueryStep(q, junk) == QueryStep(r, junk) <==> SameParameters(q, r, junk)
  {
    if QueryStep(q, junk) == QueryStep(r, junk) {
      StepParses(q, junk);
      StepParses(r, junk);
      EqualMeansSame(q, r, junk);
    } else if SameParameters(q, r, junk) {
      SameMeansEqual(q, r, junk);
    }
  }

  // ---------------------------------------------------------------------
  // One more parameter
  // ---------------------------------------------------------------------

  lemma {:induction false} ParseFieldsAppend(a: seq<Text>, b: seq<Text>)
    ensures ParseFields(a + b) == ParseFields(a) + ParseFields(b)
  {
    if a == [] {
      assert a + b == b;
    } else {
      assert (a + b)[0] == a[0] && (a + b)[1..] == a[1..] + b;
      ParseFieldsAppend(a[1..], b);
    }
  }

  lemma BlankIsDropped(key: Text)
    ensures ParseField(PrintField(Pair(key, []))) == []
  {
    FieldText(Pair(key, []));
    FindSeparator(QuotePlus(key), EQUALS, []);
  }

  /** One more field: its value is added to those of its key, unless it is blank. */
  lemma ParseOneMore(q: Text, p: Pair)
    ensures ParseQuery(q + [AMPERSAND] + PrintField(p)) ==
              if p.value == [] then ParseQuery(q)
              else ParseQuery(q)[p.key := ValuesOf(ParseQuery(q), p.key) + [p.value]]
  {
    var field := PrintField(p);
    FieldText(p);
    SplitAppend(q, field, AMPERSAND);
    SplitOne(field, AMPERSAND);
    ParseFieldsAppend(Split(q, AMPERSAND), [field]);
    assert ParseFields([field]) == ParseField(field) + ParseFields([field][1..]) == ParseField(field);
    assert ParsePairs(q + [AMPERSAND] + field) == ParsePairs(q) + ParseField(field);
    if p.value == [] {
      assert p == Pair(p.key, []);
      BlankIsDropped(p.key);
      assert ParsePairs(q) + [] == ParsePairs(q);
    } else {
      FieldRoundTrip(p);
      assert ParsePairs(q + [AMPERSAND] + field) == ParsePairs(q) + [p];
      GroupSnoc(ParsePairs(q), p);
    }
  }

  /** A junk parameter, or a blank one, makes no difference to the canonical query. */
  lemma JunkMakesNoDifference(q: Text, p: Pair, junk: set<Text>)
    requires Lower(p.key) in junk || p.value == []
    ensures QueryStep(q + [AMPERSAND] + PrintField(p), junk) == QueryStep(q, junk)
  {
    ParseOneMore(q, p);
    QueryStepEqual(q + [AMPERSAND] + PrintField(p), q, junk);
  }

  lemma UpdateWithoutJunk(m: Params, p: Pair, junk: set<Text>)
    requires Lower(p.key) !in junk
    ensures var n := WithoutJunk(m, junk);
            WithoutJunk(m[p.key := ValuesOf(m, p.key) + [p.value]], junk)
            == n[p.key := ValuesOf(n, p.key) + [p.value]]
  {
  }

  /** Any other parameter does: the canonical query has its value as the last one of its key,
      and every other key as before. */
  lemma OthersAreKept(q: Text, p: Pair, junk: set<Text>)
    requires Lower(p.key) !in junk && p.value != []
    ensures var before, after := ParseQuery(QueryStep(q, junk)),
                                 ParseQuery(QueryStep(q + [AMPERSAND] + PrintField(p), junk));
            after == before[p.key := ValuesOf(before, p.key) + [p.value]]
    ensures QueryStep(q + [AMPERSAND] + PrintField(p), junk) != QueryStep(q, junk)
  {
    var r := q + [AMPERSAND] + PrintField(p);
    ParseOneMore(q, p);
    StepParses(q, junk);
    StepParses(r, junk);
    UpdateWithoutJunk(ParseQuery(q), p, junk);
    assert ParseQuery(QueryStep(r, junk))[p.key] != ValuesOf(ParseQuery(QueryStep(q, junk)), p.key);
  }

  lemma {:induction false} ExpandSorted(keys: seq<Text>, m: Params)
    requires forall k :: k in keys ==> k in m
    requires forall i, j :: 0 <= i < j < |keys| ==> LexLeq(keys[i], keys[j])
    ensures forall p :: p in Expand(keys, m) ==> p.key in keys
    ensures forall i, j :: 0 <= i < j < |Expand(keys, m)| ==> LexLeq(Expand(keys, m)[i].key, Expand(keys, m)[j].key)
  {
    if keys != [] {
      var n := |keys| - 1;
      var front, last := Expand(keys[..n], m), PairsOf(keys[n], m[keys[n]]);
      ExpandSorted(keys[..n], m);
      LexTotal(keys[n], keys[n]);
      assert forall i :: 0 <= i < |front| ==> front[i] in front;
      assert forall p :: p in front ==> LexLeq(p.key, keys[n]);
    }
  }

  /** The canonical query lists its parameters by name, in byte order. */
  lemma QueryStepSorted(query: Text, junk: set<Text>)
    ensures var pairs := ParsePairs(QueryStep(query, junk));
            forall i, j :: 0 <= i < j < |pairs| ==> ByteOrder(pairs[i].key, pairs[j].key)
  {
    var m := WithoutJunk(ParseQuery(query), junk);
    var keys := SortedKeys(m.Keys);
    ExpandValues(keys, m);
    PairsRoundTrip(Expand(keys, m));
    ExpandSorted(keys, m);
    var pairs := Expand(keys, m);
    forall i, j | 0 <= i < j < |pairs|
      ensures ByteOrder(pairs[i].key, pairs[j].key)
    {
      LexIsByteOrder(pairs[i].key, pairs[j].key);
    }
  }

  /** Printable and not "#". */
  predicate QueryByte(b: byte) {
    b > SPACE && b != HASH
  }

  predicate IsQueryText(t: Text) {
    forall b :: b in t ==> QueryByte(b)
  }

  lemma {:induction false} JoinAlphabet(fields: seq<Text>)
    requires forall f :: f in fields ==> IsQueryText(f)
    ensures IsQueryText(Join(fields, AMPERSAND))
  {
    if |fields| > 1 {
      assert fields[0] in fields;
      JoinAlphabet(fields[1..]);
    } else if |fields| == 1 {
      assert fields[0] in fields;
    }
  }

  lemma {:induction false} FieldsAlphabet(pairs: seq<Pair>)
    ensures forall f :: f in PrintFields(pairs) ==> IsQueryText(f)
  {
    if pairs != [] {
      QuotePlusAlphabet(pairs[0].key);
      QuotePlusAlphabet(pairs[0].value);
      FieldsAlphabet(pairs[1..]);
    }
  }

  /** The canonical query is printable and never opens a fragment. */
  lemma QueryStepAlphabet(query: Text, junk: set<Text>)
    ensures IsQueryText(QueryStep(query, junk))
  {
    var m := WithoutJunk(ParseQuery(query), junk);
    FieldsAlphabet(Expand(SortedKeys(m.Keys), m));
    JoinAlphabet(PrintFields(Expand(SortedKeys(m.Keys), m)));
  }
}
