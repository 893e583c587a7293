/** Percent-encoding as urllib.parse.quote and unquote do it (section 2.1 of RFC 3986). */
module PercentCodec {
  import opened Common
  import opened TextOps

  predicate IsDigit(b: byte) { 48 <= b <= 57 }

  predicate IsAlpha(b: byte) { 65 <= b <= 90 || 97 <= b <= 122 }

  /** The bytes quote never encodes: letters, digits and "_.-~". */
  predicate AlwaysSafe(b: byte) {
    IsAlpha(b) || IsDigit(b) || b == 95 || b == DOT || b == DASH || b == 126
  }

  function HexDigit(n: nat): (b: byte)
    requires n < 16
    ensures HexValue(b) == Some(n) && AlwaysSafe(b)
  {
    if n < 10 then 48 + n else 55 + n
  }

  function HexValue(b: byte): (v: Option<nat>)
    ensures v.Some? ==> v.value < 16
  {
    if IsDigit(b) then Some(b - 48)
    else if 65 <= b <= 70 then Some(b - 55)
    else if 97 <= b <= 102 then Some(b - 87)
    else None
  }

  const HEX_UPPER := Ascii("0123456789ABCDEF")
  const HEX_LOWER := Ascii("0123456789abcdef")
  const DIGITS := Ascii("0123456789")
  const MARKS := Ascii("_.-~")
  const UNRESERVED := CAPITALS + SMALLS + DIGITS + MARKS

  /** The hex digits written are upper-case; those read are of either case, and no other byte is one. */
  lemma HexExactly(n: nat, b: byte)
    requires n < 16
    ensures HexDigit(n) == HEX_UPPER[n]
    ensures HexValue(b) == Some(n) <==> b == HEX_UPPER[n] || b == HEX_LOWER[n]
  {
  }

  lemma LettersExactly(b: byte)
    ensures IsAlpha(b) <==> b in CAPITALS || b in SMALLS
  {
    CapitalsExactly(b);
    SmallsExactly(b);
  }

  lemma DigitsExactly(b: byte)
    ensures IsDigit(b) <==> b in DIGITS
  {
    if IsDigit(b) {
      assert DIGITS[b - 48] == b;
    }
  }

  lemma MarksExactly(b: byte)
    ensures b in MARKS <==> b == 95 || b == DOT || b == DASH || b == 126
  {
    assert MARKS == [95, DOT, DASH, 126];
  }

  /** The unreserved characters of section 2.3 of RFC 3986. */
  lemma UnreservedExactly(b: byte)
    ensures AlwaysSafe(b) <==> b in UNRESERVED
  {
    LettersExactly(b);
    DigitsExactly(b);
    MarksExactly(b);
    AmongParts(b, CAPITALS, SMALLS, DIGITS, MARKS);
  }

  lemma AmongParts(b: byte, p: Text, q: Text, r: Text, s: Text)
    ensures b in p + q + r + s <==> b in p || b in q || b in r || b in s
  {
  }

  function QuoteByte(b: byte, safe: set<byte>): (t: Text)
    ensures t != []
  {
    if AlwaysSafe(b) || b in safe then [b] else [PERCENT, HexDigit(b / 16), HexDigit(b % 16)]
  }

  function Quote(s: Text, safe: set<byte>): Text {
    if s == [] then [] else QuoteByte(s[0], safe) + Quote(s[1..], safe)
  }

  predicate IsEscape(s: Text) {
    |s| >= 3 && s[0] == PERCENT && HexValue(s[1]).Some? && HexValue(s[2]).Some?
  }

  /** A "%" not followed by two hex digits stays as it is. */
  function Unquote(s: Text): Text {
    if s == [] then []
    else if IsEscape(s) then [HexValue(s[1]).value * 16 + HexValue(s[2]).value] + Unquote(s[3..])
    else [s[0]] + Unquote(s[1..])
  }

  /** Decoding undoes encoding, for every byte string. */
  lemma {:induction false} UnquoteQuote(s: Text, safe: set<byte>)
    requires PERCENT !in safe
    ensures Unquote(Quote(s, safe)) == s
  {
    if s != [] {
      var head, rest := QuoteByte(s[0], safe), Quote(s[1..], safe);
      var q := Quote(s, safe);
      UnquoteQuote(s[1..], safe);
      if |head| == 1 {
        assert q[1..] == rest;
      } else {
        assert q[3..] == rest;
        assert IsEscape(q);
        assert (s[0] / 16) * 16 + s[0] % 16 == s[0];
      }
    }
  }

  lemma ByteExactly(b: byte, safe: set<byte>)
    ensures QuoteByte(b, safe) == if b in UNRESERVED || b in safe then [b]
                                  else [PERCENT, HEX_UPPER[b / 16], HEX_UPPER[b % 16]]
  {
    UnreservedExactly(b);
    HexExactly(b / 16, 0);
    HexExactly(b % 16, 0);
  }

  lemma QuoteFirst(b: byte, t: Text, safe: set<byte>)
    ensures Quote([b] + t, safe) == QuoteByte(b, safe) + Quote(t, safe)
  {
    assert ([b] + t)[1..] == t;
  }

  /** One byte after the other: an unreserved or safe byte stays, any other becomes "%" and its
      two hex digits. */
  lemma QuoteExactly(s: Text, b: byte, t: Text, safe: set<byte>)
    ensures Quote(s + ([b] + t), safe)
         == Quote(s, safe)
            + ((if b in UNRESERVED || b in safe then [b] else [PERCENT, HEX_UPPER[b / 16], HEX_UPPER[b % 16]])
               + Quote(t, safe))
  {
    ByteExactly(b, safe);
    QuoteFirst(b, t, safe);
    QuoteAppend(s, [b] + t, safe);
  }

  /** What is no escape is left alone. */
  lemma {:induction false} UnquotePlain(s: Text, t: Text)
    requires PERCENT !in s
    ensures Unquote(s + t) == s + Unquote(t)
  {
    if s == [] {
      assert s + t == t;
    } else {
      assert (s + t)[0] == s[0] && (s + t)[1..] == s[1..] + t;
      UnquotePlain(s[1..], t);
    }
  }

  lemma UnquoteEscape(n: nat, hi: byte, lo: byte, t: Text)
    requires n < 256 && hi in {HEX_UPPER[n / 16], HEX_LOWER[n / 16]} && lo in {HEX_UPPER[n % 16], HEX_LOWER[n % 16]}
    ensures Unquote([PERCENT, hi, lo] + t) == [n] + Unquote(t)
  {
    HexExactly(n / 16, hi);
    HexExactly(n % 16, lo);
    assert ([PERCENT, hi, lo] + t)[3..] == t;
  }

  lemma UnquoteStray(t: Text)
    requires |t| < 2 || (t[0] !in HEX_UPPER && t[0] !in HEX_LOWER) || (t[1] !in HEX_UPPER && t[1] !in HEX_LOWER)
    ensures Unquote([PERCENT] + t) == [PERCENT] + Unquote(t)
  {
    var s := [PERCENT] + t;
    if IsEscape(s) {
      HexExactly(HexValue(s[1]).value, s[1]);
      HexExactly(HexValue(s[2]).value, s[2]);
      assert false;
    }
    assert s[1..] == t;
  }

  /** Encoding is injective. */
  lemma QuoteInjective(s: Text, t: Text, safe: set<byte>)
    requires PERCENT !in safe && Quote(s, safe) == Quote(t, safe)
    ensures s == t
  {
    UnquoteQuote(s, safe);
    UnquoteQuote(t, safe);
  }

  lemma {:induction false} QuoteAppend(s: Text, t: Text, safe: set<byte>)
    ensures Quote(s + t, safe) == Quote(s, safe) + Quote(t, safe)
  {
    if s == [] {
      assert s + t == t;
    } else {
      assert (s + t)[0] == s[0] && (s + t)[1..] == s[1..] + t;
      QuoteAppend(s[1..], t, safe);
    }
  }

  /** Only safe bytes, "%" and hex digits come out. */
  lemma {:induction false} QuoteAlphabet(s: Text, safe: set<byte>)
    ensures forall b :: b in Quote(s, safe) ==> AlwaysSafe(b) || b in safe || b == PERCENT
  {
    if s != [] {
      QuoteAlphabet(s[1..], safe);
    }
  }

  /** A safe byte that is not a letter or digit occurs in the encoding only where it occurs in
      the text. */
  lemma {:induction false} QuoteKeeps(s: Text, safe: set<byte>, b: byte)
    requires b in safe && !AlwaysSafe(b) && b != PERCENT
    ensures b in Quote(s, safe) <==> b in s
  {
    if s != [] {
      QuoteKeeps(s[1..], safe, b);
      assert s == [s[0]] + s[1..];
    }
  }
}
