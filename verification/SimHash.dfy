/** simhash (app/services/content_fingerprint_service.py): the vote loops over 3-word
    shingles, and what the fingerprint means. */
module SimHash {
  import opened Common
  import opened Bits
  import opened Hamming

  /** The first eight bytes of an MD5 digest; the hash itself stays uninterpreted. */
  type Hash64 = h: nat | h < TWO64 witness 0

  const NUM_BITS := 64
  const K := 3

  function Join(words: seq<string>): string {
    if words == [] then ""
    else if |words| == 1 then words[0]
    else words[0] + " " + Join(words[1..])
  }

  function Shingles(tokens: seq<string>): seq<string> {
    if |tokens| < K then (if tokens == [] then [] else [Join(tokens)])
    else seq(|tokens| - K + 1, i requires 0 <= i < |tokens| - K + 1 => Join(tokens[i..i + K]))
  }

  lemma JoinThree(a: string, b: string, c: string)
    ensures Join([a, b]) == a + " " + b
    ensures Join([a, b, c]) == a + " " + b + " " + c
  {
    assert [a, b][1..] == [b] && [b, c][1..] == [c] && [a, b, c][1..] == [b, c];
    assert Join([b, c]) == b + " " + c;
    assert a + " " + (b + " " + c) == a + " " + b + " " + c;
  }

  /** The shingles of a text are its words three at a time, of a shorter text the text itself. */
  lemma ShingleText(tokens: seq<string>)
    ensures |tokens| >= 3 ==>
              && |Shingles(tokens)| == |tokens| - 2
              && forall k :: 0 <= k < |tokens| - 2 ==>
                   Shingles(tokens)[k] == tokens[k] + " " + tokens[k + 1] + " " + tokens[k + 2]
    ensures |tokens| == 2 ==> Shingles(tokens) == [tokens[0] + " " + tokens[1]]
    ensures |tokens| == 1 ==> Shingles(tokens) == [tokens[0]]
    ensures |tokens| == 0 ==> Shingles(tokens) == []
  {
    if |tokens| >= 3 {
      forall k | 0 <= k < |tokens| - 2
        ensures Shingles(tokens)[k] == tokens[k] + " " + tokens[k + 1] + " " + tokens[k + 2]
      {
        assert tokens[k..k + 3] == [tokens[k], tokens[k + 1], tokens[k + 2]];
        JoinThree(tokens[k], tokens[k + 1], tokens[k + 2]);
      }
    } else if |tokens| == 2 {
      assert tokens == [tokens[0], tokens[1]];
      JoinThree(tokens[0], tokens[1], "");
    }
  }

  /** How many of the shingles hash to a word with the bit set. */
  function Ones(shingles: seq<string>, hash: string -> Hash64, bit: nat): nat {
    if shingles == [] then 0
    else
      var n := |shingles| - 1;
      Ones(shingles[..n], hash, bit) + (if Bit(hash(shingles[n]), bit) then 1 else 0)
  }

  /** The positions of those shingles. */
  function Setters(shingles: seq<string>, hash: string -> Hash64, bit: nat): set<int> {
    set k | 0 <= k < |shingles| && Bit(hash(shingles[k]), bit)
  }

  lemma {:induction false} OnesAreMembers(shingles: seq<string>, hash: string -> Hash64, bit: nat)
    ensures Ones(shingles, hash, bit) == |Setters(shingles, hash, bit)|
  {
    if shingles != [] {
      var n := |shingles| - 1;
      OnesAreMembers(shingles[..n], hash, bit);
      assert Setters(shingles, hash, bit)
          == Setters(shingles[..n], hash, bit) + if Bit(hash(shingles[n]), bit) then {n} else {};
    }
  }

  /** +1 for every shingle with the bit set, -1 for every other. */
  function Vote(shingles: seq<string>, hash: string -> Hash64, bit: nat): int {
    2 * Ones(shingles, hash, bit) - |shingles|
  }

  /** fp is the signed 64-bit word whose bits are the strict majorities. */
  predicate IsFingerprint(fp: int, shingles: seq<string>, hash: string -> Hash64) {
    && -TWO63 <= fp < TWO63
    && forall i :: 0 <= i < NUM_BITS ==> (Bit(Unsigned(fp), i) <==> 2 * Ones(shingles, hash, i) > |shingles|)
  }

  method CountVotes(shingles: seq<string>, hash: string -> Hash64) returns (votes: array<int>)
    ensures votes.Length == NUM_BITS
    ensures forall b :: 0 <= b < NUM_BITS ==> votes[b] == Vote(shingles, hash, b)
  {
    votes := new int[NUM_BITS](_ => 0);
    for k := 0 to |shingles|
      invariant forall b :: 0 <= b < NUM_BITS ==> votes[b] == Vote(shingles[..k], hash, b)
    {
      assert shingles[..k + 1][..k] == shingles[..k];
      var h := hash(shingles[k]);
      for bit := 0 to NUM_BITS
        invariant forall b :: 0 <= b < bit ==> votes[b] == Vote(shingles[..k + 1], hash, b)
        invariant forall b :: bit <= b < NUM_BITS ==> votes[b] == Vote(shingles[..k], hash, b)
      {
        AndPow(h, bit);
        if BitAnd(h, Pow2(bit)) != 0 {
          votes[bit] := votes[bit] + 1;
        } else {
          votes[bit] := votes[bit] - 1;
        }
      }
    }
    assert shingles[..|shingles|] == shingles;
  }

  method Simhash(tokens: seq<string>, hash: string -> Hash64) returns (fingerprint: int)
    ensures IsFingerprint(fingerprint, Shingles(tokens), hash)
    ensures forall i :: 0 <= i < 64 ==>
              (Bit(Unsigned(fingerprint), i) <==> 2 * |Setters(Shingles(tokens), hash, i)| > |Shingles(tokens)|)
  {
    forall i: nat {
      OnesAreMembers(Shingles(tokens), hash, i);
    }
    forall i: nat
      ensures !Bit(0, i)
    {
      ZeroHasNoBits(i);
    }
    if tokens == [] {
      assert Unsigned(0) == 0;
      return 0;
    }
    var shingles := Shingles(tokens);
    var votes := CountVotes(shingles, hash);
    var fp: nat := 0;
    for bit := 0 to NUM_BITS
      invariant forall b :: 0 <= b < NUM_BITS ==> votes[b] == Vote(shingles, hash, b)
      invariant fp < Pow2(bit)
      invariant forall i :: 0 <= i < bit ==> (Bit(fp, i) <==> votes[i] > 0)
      invariant forall i: nat :: bit <= i ==> !Bit(fp, i)
    {
      if votes[bit] > 0 {
        forall i: nat
          ensures Bit(BitOr(fp, Pow2(bit)), i) <==> Bit(fp, i) || i == bit
        {
          OrBit(fp, Pow2(bit), i);
          PowBit(bit, i);
        }
        OrBound(fp, Pow2(bit), bit + 1);
        fp := BitOr(fp, Pow2(bit));
      }
    }
    Pow2Of64();
    fingerprint := if fp >= TWO63 then fp - TWO64 else fp;
    assert Unsigned(fingerprint) == fp;
  }

  /** The majorities determine the fingerprint. */
  lemma FingerprintUnique(fp: int, gp: int, shingles: seq<string>, hash: string -> Hash64)
    requires IsFingerprint(fp, shingles, hash) && IsFingerprint(gp, shingles, hash)
    ensures fp == gp
  {
    Pow2Of64();
    BitsDetermine(Unsigned(fp), Unsigned(gp), NUM_BITS);
    assert fp == if Unsigned(fp) >= TWO63 then Unsigned(fp) - TWO64 else Unsigned(fp);
    assert gp == if Unsigned(gp) >= TWO63 then Unsigned(gp) - TWO64 else Unsigned(gp);
  }

  // ---------------------------------------------------------------------
  // Order of the shingles
  // ---------------------------------------------------------------------

  lemma {:induction false} OnesAppend(s: seq<string>, t: seq<string>, hash: string -> Hash64, bit: nat)
    ensures Ones(s + t, hash, bit) == Ones(s, hash, bit) + Ones(t, hash, bit)
  {
    if t == [] {
      assert s + t == s;
    } else {
      var n := |t| - 1;
      assert (s + t)[..|s + t| - 1] == s + t[..n];
      OnesAppend(s, t[..n], hash, bit);
    }
  }

  lemma OnesRemove(t: seq<string>, k: nat, hash: string -> Hash64, bit: nat)
    requires k < |t|
    ensures var rest := t[..k] + t[k + 1..];
            && Ones(t, hash, bit) == Ones(rest, hash, bit) + (if Bit(hash(t[k]), bit) then 1 else 0)
            && multiset(rest) == multiset(t) - multiset{t[k]}
  {
    var one := [t[k]];
    assert t == t[..k] + (one + t[k + 1..]);
    OnesAppend(t[..k], one + t[k + 1..], hash, bit);
    OnesAppend(one, t[k + 1..], hash, bit);
    OnesAppend(t[..k], t[k + 1..], hash, bit);
    assert one[..0] == [];
  }

  lemma {:induction false} OnesPermute(s: seq<string>, t: seq<string>, hash: string -> Hash64, bit: nat)
    requires multiset(s) == multiset(t)
    ensures |s| == |t| && Ones(s, hash, bit) == Ones(t, hash, bit)
    decreases |s|
  {
    assert |multiset(s)| == |s| && |multiset(t)| == |t|;
    if s != [] {
      var x := s[0];
      assert x in multiset(t);
      var k :| 0 <= k < |t| && t[k] == x;
      OnesRemove(s, 0, hash, bit);
      OnesRemove(t, k, hash, bit);
      OnesPermute(s[..0] + s[1..], t[..k] + t[k + 1..], hash, bit);
    }
  }

  /** The fingerprint depends only on the multiset of shingles. */
  lemma FingerprintIgnoresOrder(fp: int, s: seq<string>, t: seq<string>, hash: string -> Hash64)
    requires multiset(s) == multiset(t)
    ensures IsFingerprint(fp, s, hash) <==> IsFingerprint(fp, t, hash)
  {
    forall i | 0 <= i < NUM_BITS
      ensures |s| == |t| && Ones(s, hash, i) == Ones(t, hash, i)
    {
      OnesPermute(s, t, hash, i);
    }
    OnesPermute(s, t, hash, 0);
  }

  // ---------------------------------------------------------------------
  // Locality
  // ---------------------------------------------------------------------

  /** In how many of the first n positions two sequences differ. */
  function Changed<T(==)>(a: seq<T>, b: seq<T>, n: nat): nat
    requires n <= |a| == |b|
  {
    if n == 0 then 0 else Changed(a, b, n - 1) + (if a[n - 1] != b[n - 1] then 1 else 0)
  }

  lemma {:induction false} ChangedMono<T>(a: seq<T>, b: seq<T>, m: nat, n: nat)
    requires m <= n <= |a| == |b|
    ensures Changed(a, b, m) <= Changed(a, b, n)
    decreases n
  {
    if m < n {
      ChangedMono(a, b, m, n - 1);
    }
  }

  /** A word lies in at most three shingles. */
  lemma {:induction false} ShinglesChanged(a: seq<string>, b: seq<string>, n: nat)
    requires |a| == |b| && K <= |a| && n <= |a| - K + 1
    ensures Changed(Shingles(a), Shingles(b), n) + Changed(a, b, 1) + Changed(a, b, 2)
         <= Changed(a, b, n) + Changed(a, b, n + 1) + Changed(a, b, n + 2)
  {
    if n > 0 {
      ShinglesChanged(a, b, n - 1);
      var i := n - 1;
      if a[i] == b[i] && a[i + 1] == b[i + 1] && a[i + 2] == b[i + 2] {
        assert a[i..i + K] == b[i..i + K];
      }
    }
  }

  lemma ShingleCount(a: seq<string>)
    ensures |Shingles(a)| == if K <= |a| then |a| - K + 1 else if a == [] then 0 else 1
  {
  }

  lemma LongTextChanged(a: seq<string>, b: seq<string>)
    requires |a| == |b| && K <= |a|
    ensures Changed(Shingles(a), Shingles(b), |a| - K + 1) <= 3 * Changed(a, b, |a|)
  {
    var n := |a| - K + 1;
    ShinglesChanged(a, b, n);
    ChangedMono(a, b, n, |a|);
    ChangedMono(a, b, n + 1, |a|);
    ChangedMono(a, b, n + 2, |a|);
  }

  lemma ShortTextChanged(a: seq<string>, b: seq<string>)
    requires 0 < |a| == |b| < K
    ensures Changed(Shingles(a), Shingles(b), 1) <= Changed(a, b, |a|)
  {
    assert Changed(Shingles(a), Shingles(b), 0) == 0;
    if Changed(a, b, |a|) == 0 {
      ChangedNone(a, b, |a|);
      assert a == b;
    }
  }

  /** Replacing m words in place changes at most 3m shingles. */
  lemma ShinglesChangedTotal(a: seq<string>, b: seq<string>)
    requires |a| == |b|
    ensures |Shingles(a)| == |Shingles(b)|
    ensures Changed(Shingles(a), Shingles(b), |Shingles(a)|) <= 3 * Changed(a, b, |a|)
  {
    ShingleCount(a);
    ShingleCount(b);
    if K <= |a| {
      LongTextChanged(a, b);
    } else if a != [] {
      ShortTextChanged(a, b);
    }
  }

  lemma {:induction false} ChangedNone<T>(a: seq<T>, b: seq<T>, n: nat)
    requires n <= |a| == |b| && Changed(a, b, n) == 0
    ensures forall i :: 0 <= i < n ==> a[i] == b[i]
  {
    if n > 0 {
      ChangedNone(a, b, n - 1);
    }
  }

  lemma {:induction false} OnesMove(s: seq<string>, t: seq<string>, hash: string -> Hash64, bit: nat, n: nat)
    requires n <= |s| == |t|
    ensures Ones(s[..n], hash, bit) - Ones(t[..n], hash, bit) <= Changed(s, t, n)
    ensures Ones(t[..n], hash, bit) - Ones(s[..n], hash, bit) <= Changed(s, t, n)
  {
    if n > 0 {
      OnesMove(s, t, hash, bit, n - 1);
      assert s[..n][..n - 1] == s[..n - 1] && t[..n][..n - 1] == t[..n - 1];
    }
  }

  /** Replacing m words in place moves every vote by at most 6m. */
  lemma VotesMove(a: seq<string>, b: seq<string>, hash: string -> Hash64, bit: nat)
    requires |a| == |b|
    ensures var m := Changed(a, b, |a|);
            -6 * m <= Vote(Shingles(a), hash, bit) - Vote(Shingles(b), hash, bit) <= 6 * m
  {
    ShinglesChangedTotal(a, b);
    var s, t := Shingles(a), Shingles(b);
    OnesMove(s, t, hash, bit, |s|);
    assert s[..|s|] == s && t[..|s|] == t;
  }

  /** How many of the lowest n bits have a vote v with -6m < v <= 6m. */
  function Undecided(shingles: seq<string>, hash: string -> Hash64, m: nat, n: nat): nat {
    if n == 0 then 0
    else
      var v := Vote(shingles, hash, n - 1);
      Undecided(shingles, hash, m, n - 1) + (if -6 * m < v <= 6 * m then 1 else 0)
  }

  lemma {:induction false} FlipsAreUndecided(a: seq<string>, b: seq<string>, hash: string -> Hash64,
                                             fa: int, fb: int, n: nat)
    requires |a| == |b| && n <= NUM_BITS
    requires IsFingerprint(fa, Shingles(a), hash) && IsFingerprint(fb, Shingles(b), hash)
    ensures Differences(fa, fb, n) <= Undecided(Shingles(a), hash, Changed(a, b, |a|), n)
  {
    if n > 0 {
      FlipsAreUndecided(a, b, hash, fa, fb, n - 1);
      VotesMove(a, b, hash, n - 1);
      ShinglesChangedTotal(a, b);
    }
  }

  /** The positions of the words that were replaced. */
  function Replaced(a: seq<string>, b: seq<string>): set<int>
    requires |a| == |b|
  {
    set i | 0 <= i < |a| && a[i] != b[i]
  }

  /** The bits whose vote is within 6m of the threshold. */
  function Close(shingles: seq<string>, hash: string -> Hash64, m: nat): set<int> {
    set i | 0 <= i < 64 && -6 * m < Vote(shingles, hash, i) <= 6 * m
  }

  lemma {:induction false} ChangedIsCount(a: seq<string>, b: seq<string>)
    requires |a| == |b|
    ensures Changed(a, b, |a|) == |Replaced(a, b)|
  {
    if a != [] {
      var n := |a| - 1;
      ChangedIsCount(a[..n], b[..n]);
      ChangedFront(a, b, n);
      assert Replaced(a, b) == Replaced(a[..n], b[..n]) + if a[n] != b[n] then {n} else {};
    }
  }

  lemma {:induction false} ChangedFront(a: seq<string>, b: seq<string>, n: nat)
    requires n < |a| == |b|
    ensures Changed(a[..|a| - 1], b[..|a| - 1], n) == Changed(a, b, n)
  {
    if n > 0 {
      ChangedFront(a, b, n - 1);
    }
  }

  lemma {:induction false} UndecidedIsCount(shingles: seq<string>, hash: string -> Hash64, m: nat, n: nat)
    requires n <= 64
    ensures Undecided(shingles, hash, m, n) == |set i | i in Close(shingles, hash, m) && i < n|
  {
    if n > 0 {
      UndecidedIsCount(shingles, hash, m, n - 1);
      var before := set i | i in Close(shingles, hash, m) && i < n - 1;
      var after := set i | i in Close(shingles, hash, m) && i < n;
      OneMoreMember(before, after, n - 1, n - 1 in Close(shingles, hash, m));
    }
  }

  /** Locality: after replacing m words of a text in place, the fingerprints differ in at most
      the bits whose vote was within 6m of the threshold. */
  lemma SimhashIsLocal(a: seq<string>, b: seq<string>, hash: string -> Hash64, fa: int, fb: int)
    requires |a| == |b|
    requires IsFingerprint(fa, Shingles(a), hash) && IsFingerprint(fb, Shingles(b), hash)
    ensures Distance(fa, fb) <= |Close(Shingles(a), hash, |Replaced(a, b)|)|
  {
    FlipsAreUndecided(a, b, hash, fa, fb, NUM_BITS);
    ChangedIsCount(a, b);
    var close := Close(Shingles(a), hash, |Replaced(a, b)|);
    UndecidedIsCount(Shingles(a), hash, |Replaced(a, b)|, NUM_BITS);
    assert close == set i | i in close && i < NUM_BITS;
  }
}
