/** Searching, splitting and joining byte strings, as Python's str methods do. */
module TextOps {
  import opened Common

  const TAB: byte := 9
  const NEWLINE: byte := 10
  const RETURN: byte := 13
  const SPACE: byte := 32
  const HASH: byte := 35
  const PERCENT: byte := 37
  const AMPERSAND: byte := 38
  const PLUS: byte := 43
  const DASH: byte := 45
  const DOT: byte := 46
  const SLASH: byte := 47
  const COLON: byte := 58
  const SEMICOLON: byte := 59
  const EQUALS: byte := 61
  const QUESTION: byte := 63
  const AT: byte := 64
  const OPEN_BRACKET: byte := 91
  const CLOSE_BRACKET: byte := 93

  /** The first position whose byte is in stop, or |s|. */
  function Find(s: Text, stop: set<byte>): (i: nat)
    ensures i <= |s| && (forall j :: 0 <= j < i ==> s[j] !in stop) && (i < |s| ==> s[i] in stop)
  {
    if s == [] || s[0] in stop then 0 else 1 + Find(s[1..], stop)
  }

  /** The last position of b, or -1. */
  function FindLast(s: Text, b: byte): (i: int)
    ensures -1 <= i < |s| && (forall j :: i < j < |s| ==> s[j] != b) && (i >= 0 ==> s[i] == b)
  {
    if s == [] then -1
    else if s[|s| - 1] == b then |s| - 1
    else FindLast(s[..|s| - 1], b)
  }

  lemma FindUnique(s: Text, stop: set<byte>, i: nat)
    requires i <= |s| && (forall j :: 0 <= j < i ==> s[j] !in stop) && (i < |s| ==> s[i] in stop)
    ensures Find(s, stop) == i
  {
    var f := Find(s, stop);
    assert !(f < i) && !(i < f);
  }

  /** s.rstrip(b) */
  function RStrip(s: Text, b: byte): (r: Text)
    ensures r <= s && (r != [] ==> r[|r| - 1] != b)
    ensures forall j :: |r| <= j < |s| ==> s[j] == b
  {
    if s != [] && s[|s| - 1] == b then RStrip(s[..|s| - 1], b) else s
  }

  lemma RStripFixed(s: Text, b: byte)
    requires s == [] || s[|s| - 1] != b
    ensures RStrip(s, b) == s
  {
  }

  predicate IsUpper(b: byte) { 65 <= b <= 90 }

  function LowerByte(b: byte): byte { if IsUpper(b) then b + 32 else b }

  function Lower(s: Text): (r: Text)
    ensures |r| == |s| && forall i :: 0 <= i < |s| ==> r[i] == LowerByte(s[i])
  {
    seq(|s|, i requires 0 <= i < |s| => LowerByte(s[i]))
  }

  const CAPITALS := Ascii("ABCDEFGHIJKLMNOPQRSTUVWXYZ")
  const SMALLS := Ascii("abcdefghijklmnopqrstuvwxyz")

  lemma CapitalsExactly(b: byte)
    ensures |CAPITALS| == 26 && forall i :: 0 <= i < 26 ==> CAPITALS[i] == 65 + i
    ensures b in CAPITALS <==> 65 <= b <= 90
  {
    assert forall i :: 0 <= i < 26 ==> CAPITALS[i] == 65 + i;
    if 65 <= b <= 90 {
      assert CAPITALS[b - 65] == b;
    }
  }

  lemma SmallsExactly(b: byte)
    ensures |SMALLS| == 26 && forall i :: 0 <= i < 26 ==> SMALLS[i] == 97 + i
    ensures b in SMALLS <==> 97 <= b <= 122
  {
    assert forall i :: 0 <= i < 26 ==> SMALLS[i] == 97 + i;
    if 97 <= b <= 122 {
      assert SMALLS[b - 97] == b;
    }
  }

  /** Lower-casing maps the capital letters to the small ones and nothing else. */
  lemma LowerByteExactly(b: byte)
    ensures |CAPITALS| == |SMALLS| && forall i :: 0 <= i < |CAPITALS| ==> LowerByte(CAPITALS[i]) == SMALLS[i]
    ensures b !in CAPITALS ==> LowerByte(b) == b
  {
    CapitalsExactly(b);
    SmallsExactly(b);
  }

  lemma LowerTwice(s: Text)
    ensures Lower(Lower(s)) == Lower(s)
  {
  }

  function Replace(s: Text, from: byte, to: byte): (r: Text)
    ensures |r| == |s| && forall i :: 0 <= i < |s| ==> r[i] == if s[i] == from then to else s[i]
  {
    seq(|s|, i requires 0 <= i < |s| => if s[i] == from then to else s[i])
  }

  /** s.split(sep) */
  function Split(s: Text, sep: byte): (parts: seq<Text>)
    ensures |parts| >= 1
    decreases |s|
  {
    var i := Find(s, {sep});
    if i == |s| then [s] else [s[..i]] + Split(s[i + 1..], sep)
  }

  /** sep.join(parts) */
  function Join(parts: seq<Text>, sep: byte): Text {
    if parts == [] then []
    else if |parts| == 1 then parts[0]
    else parts[0] + [sep] + Join(parts[1..], sep)
  }

  lemma JoinCons(head: Text, rest: seq<Text>, sep: byte)
    requires rest != []
    ensures Join([head] + rest, sep) == head + [sep] + Join(rest, sep)
  {
    assert ([head] + rest)[1..] == rest;
  }

  lemma FindSeparator(a: Text, sep: byte, b: Text)
    requires sep !in a
    ensures var s := a + [sep] + b;
            Find(s, {sep}) == |a| && s[..|a|] == a && s[|a| + 1..] == b
  {
    var s := a + [sep] + b;
    forall j | 0 <= j < |a|
      ensures s[j] !in {sep}
    {
      assert s[j] == a[j] && a[j] in a;
    }
    FindUnique(s, {sep}, |a|);
  }

  lemma SplitOne(s: Text, sep: byte)
    requires sep !in s
    ensures Split(s, sep) == [s]
  {
    assert forall j :: 0 <= j < |s| ==> s[j] in s;
    FindUnique(s, {sep}, |s|);
  }

  lemma SplitFirst(s: Text, a: Text, sep: byte, b: Text)
    requires sep !in a && s == a + [sep] + b
    ensures Split(s, sep) == [a] + Split(b, sep)
  {
    FindSeparator(a, sep, b);
  }

  lemma {:induction false} JoinSplit(s: Text, sep: byte)
    ensures Join(Split(s, sep), sep) == s
    decreases |s|
  {
    var i := Find(s, {sep});
    if i == |s| {
      assert sep !in s;
      SplitOne(s, sep);
    } else {
      var head, tail := s[..i], s[i + 1..];
      assert sep !in head && s == head + [sep] + tail;
      SplitFirst(s, head, sep, tail);
      JoinSplit(tail, sep);
      JoinCons(head, Split(tail, sep), sep);
    }
  }

  lemma {:induction false} SplitParts(s: Text, sep: byte)
    ensures forall p :: p in Split(s, sep) ==> sep !in p
    decreases |s|
  {
    var i := Find(s, {sep});
    assert sep !in s[..i];
    if i < |s| {
      SplitParts(s[i + 1..], sep);
    }
  }

  lemma {:induction false} SplitJoin(parts: seq<Text>, sep: byte)
    requires parts != [] && forall p :: p in parts ==> sep !in p
    ensures Split(Join(parts, sep), sep) == parts
  {
    assert parts[0] in parts;
    if |parts| == 1 {
      SplitOne(parts[0], sep);
    } else {
      SplitJoin(parts[1..], sep);
      SplitFirst(Join(parts, sep), parts[0], sep, Join(parts[1..], sep));
    }
  }

  lemma Regroup(head: Text, tail: Text, sep: byte, b: Text)
    ensures (head + [sep] + tail) + [sep] + b == head + [sep] + (tail + [sep] + b)
  {
  }

  lemma SplitAppendStep(s: Text, a: Text, head: Text, tail: Text, rest: Text, b: Text, sep: byte)
    requires sep !in head && a == head + [sep] + tail && s == head + [sep] + rest
    requires Split(rest, sep) == Split(tail, sep) + Split(b, sep)
    ensures Split(s, sep) == Split(a, sep) + Split(b, sep)
  {
    SplitFirst(s, head, sep, rest);
    SplitFirst(a, head, sep, tail);
    ConcatAssociative([head], Split(tail, sep), Split(b, sep));
  }

  /** Splitting at a separator splits the list of parts. */
  lemma {:induction false} SplitAppend(a: Text, b: Text, sep: byte)
    ensures Split(a + [sep] + b, sep) == Split(a, sep) + Split(b, sep)
    decreases |a|
  {
    var i := Find(a, {sep});
    if i == |a| {
      assert sep !in a;
      SplitOne(a, sep);
      SplitFirst(a + [sep] + b, a, sep, b);
    } else {
      var head, tail := a[..i], a[i + 1..];
      assert sep !in head;
      assert a == head + [sep] + tail;
      SplitAppend(tail, b, sep);
      Regroup(head, tail, sep, b);
      SplitAppendStep(a + [sep] + b, a, head, tail, tail + [sep] + b, b, sep);
    }
  }

  lemma {:induction false} JoinAppend(a: seq<Text>, b: seq<Text>, sep: byte)
    requires a != [] && b != []
    ensures Join(a + b, sep) == Join(a, sep) + [sep] + Join(b, sep)
  {
    if |a| > 1 {
      assert (a + b)[1..] == a[1..] + b;
      JoinAppend(a[1..], b, sep);
    } else {
      assert (a + b)[1..] == b;
    }
  }
}
