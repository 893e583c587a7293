/** hamming_distance and is_near_duplicate (app/services/content_fingerprint_service.py). */
module Hamming {
  import opened Bits

  /** The 64 bits a signed or unsigned value stands for. */
  function Unsigned(hash: int): (u: nat)
    ensures u < TWO64
  {
    hash % TWO64
  }

  /** In how many of the lowest n bit positions the two values differ. */
  function Differences(a: int, b: int, n: nat): nat {
    if n == 0 then 0
    else Differences(a, b, n - 1) + (if Bit(Unsigned(a), n - 1) != Bit(Unsigned(b), n - 1) then 1 else 0)
  }

  function Distance(a: int, b: int): nat {
    Differences(a, b, 64)
  }

  lemma {:induction false} XorCounts(a: int, b: int, n: nat)
    ensures CountBits(BitXor(Unsigned(a), Unsigned(b)), n) == Differences(a, b, n)
  {
    if n > 0 {
      XorCounts(a, b, n - 1);
      XorBit(Unsigned(a), Unsigned(b), n - 1);
    }
  }

  /** The positions below n at which the two values differ. */
  function Differing(a: int, b: int, n: nat): set<int> {
    set i | 0 <= i < n && Bit(Unsigned(a), i) != Bit(Unsigned(b), i)
  }

  lemma {:induction false} DifferencesAreMembers(a: int, b: int, n: nat)
    ensures Differences(a, b, n) == |Differing(a, b, n)|
  {
    if n > 0 {
      DifferencesAreMembers(a, b, n - 1);
      assert Differing(a, b, n)
          == Differing(a, b, n - 1) + if Bit(Unsigned(a), n - 1) != Bit(Unsigned(b), n - 1) then {n - 1} else {};
    }
  }

  /** The clear-lowest-bit loop counts the differing positions, for signed and unsigned
      arguments alike. */
  method HammingDistance(hash1: int, hash2: int) returns (distance: nat)
    ensures distance == Distance(hash1, hash2)
    ensures distance == |Differing(hash1, hash2, 64)|
  {
    DifferencesAreMembers(hash1, hash2, 64);
    var u1 := hash1 % TWO64;
    var u2 := hash2 % TWO64;
    var xor := BitXor(u1, u2);
    Pow2Of64();
    XorBound(u1, u2, 64);
    PopCountIsCount(xor, 64);
    XorCounts(hash1, hash2, 64);
    ghost var all := PopCount(xor);
    distance := 0;
    while xor != 0
      invariant distance + PopCount(xor) == all
      decreases xor
    {
      ClearLowestBit(xor);
      distance := distance + 1;
      xor := BitAnd(xor, xor - 1);
    }
  }

  method IsNearDuplicate(hash1: int, hash2: int, threshold: int) returns (near: bool)
    ensures near <==> Distance(hash1, hash2) <= threshold
  {
    var d := HammingDistance(hash1, hash2);
    near := d <= threshold;
  }

  lemma {:induction false} DifferencesMetric(a: int, b: int, c: int, n: nat)
    ensures Differences(a, b, n) == Differences(b, a, n)
    ensures Differences(a, b, n) <= n
    ensures Differences(a, c, n) <= Differences(a, b, n) + Differences(b, c, n)
  {
    if n > 0 {
      DifferencesMetric(a, b, c, n - 1);
    }
  }

  lemma {:induction false} NoDifferences(a: int, b: int, n: nat)
    requires Differences(a, b, n) == 0
    ensures forall i :: 0 <= i < n ==> (Bit(Unsigned(a), i) <==> Bit(Unsigned(b), i))
  {
    if n > 0 {
      NoDifferences(a, b, n - 1);
    }
  }

  lemma {:induction false} SameWord(a: int, b: int, n: nat)
    requires Unsigned(a) == Unsigned(b)
    ensures Differences(a, b, n) == 0
  {
    if n > 0 {
      SameWord(a, b, n - 1);
    }
  }

  /** The distance is a metric on 64-bit words: symmetric, at most 64, zero exactly for values
      congruent modulo 2^64 (so storing a fingerprint signed changes nothing), and subject to
      the triangle inequality. */
  lemma DistanceIsMetric(a: int, b: int, c: int)
    ensures Distance(a, b) == Distance(b, a) <= 64
    ensures Distance(a, c) <= Distance(a, b) + Distance(b, c)
    ensures Distance(a, b) == 0 <==> (a - b) % TWO64 == 0
  {
    DifferencesMetric(a, b, c, 64);
    Pow2Of64();
    if Distance(a, b) == 0 {
      NoDifferences(a, b, 64);
      BitsDetermine(Unsigned(a), Unsigned(b), 64);
    }
    SameResidue(a, b);
    if Unsigned(a) == Unsigned(b) {
      SameWord(a, b, 64);
    }
  }

  lemma SameResidue(a: int, b: int)
    ensures Unsigned(a) == Unsigned(b) <==> (a - b) % TWO64 == 0
  {
    var d := a / TWO64 - b / TWO64;
    assert a - b == TWO64 * d + (Unsigned(a) - Unsigned(b));
  }

  /** Near-duplicate thresholds add. */
  lemma NearDuplicatesChain(a: int, b: int, c: int, s: int, t: int)
    requires Distance(a, b) <= s && Distance(b, c) <= t
    ensures Distance(a, c) <= s + t
  {
    DistanceIsMetric(a, b, c);
  }
}
