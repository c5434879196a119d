/**
 * The proof-of-work target: the byte-wise early-exit test and the target filling loop,
 * both proved against one 256-bit big-endian comparison.
 */
module Difficulty {
  import opened Types

  type Digit = n: nat | n < 256

  /** The unsigned integer spelled by base-256 digits, most significant digit first. */
  function DigitsValue(s: seq<Digit>): nat {
    if s == [] then 0 else s[0] * Pow2(8 * (|s| - 1)) + DigitsValue(s[1..])
  }

  function Digits(s: seq<bv8>): (d: seq<Digit>)
    ensures |d| == |s|
    ensures forall i | 0 <= i < |s| :: d[i] == s[i] as nat
  {
    seq(|s|, i requires 0 <= i < |s| => s[i] as nat)
  }

  function BigEndian(s: seq<bv8>): nat {
    DigitsValue(Digits(s))
  }

  /** One more than the largest hash accepted at a difficulty. Above 256 all act like 256. */
  function Bound(difficulty: nat): nat {
    Pow2(256 - Min(difficulty, 256))
  }

  /** The specification of the difficulty test: a single 256-bit comparison. */
  predicate Meets(hash: Hash, difficulty: nat) {
    BigEndian(hash) < Bound(difficulty)
  }

  lemma ScaledOrder(a: nat, rest: nat, p: nat, q: nat)
    requires rest < p
    ensures a * p + rest < q * p <==> a < q
  {
    if a < q {
      assert (a + 1) * p <= q * p;
    } else {
      assert a * p >= q * p;
    }
  }

  lemma {:induction false} DigitsRange(s: seq<Digit>)
    ensures DigitsValue(s) < Pow2(8 * |s|)
  {
    if s == [] {
    } else {
      DigitsRange(s[1..]);
      Pow2Add(8, 8 * (|s| - 1));
      assert Pow2(8) == 256;
      ScaledOrder(s[0], DigitsValue(s[1..]), Pow2(8 * (|s| - 1)), 256);
    }
  }

  /** The leading digits decide the comparison: k zero digits, then one digit with z zero bits. */
  lemma {:induction false} LeadingBits(s: seq<Digit>, k: nat, z: nat)
    requires z < 8 && 8 * k + z <= 8 * |s|
    ensures DigitsValue(s) < Pow2(8 * |s| - 8 * k - z) <==>
              (forall i | 0 <= i < k :: s[i] == 0) && (z > 0 ==> s[k] < Pow2(8 - z))
    decreases |s|
  {
    if s == [] {
    } else if k == 0 {
      LeadingDigit(s, z);
      assert Pow2(8) == 256;
    } else {
      LeadingBits(s[1..], k - 1, z);
      ZeroDigit(s, 8 * (k - 1) + z);
      assert forall i | 0 < i < k :: s[i] == s[1..][i - 1];
    }
  }

  lemma ZeroDigit(s: seq<Digit>, d: nat)
    requires s != [] && d <= 8 * (|s| - 1)
    ensures DigitsValue(s) < Pow2(8 * (|s| - 1) - d) <==>
              s[0] == 0 && DigitsValue(s[1..]) < Pow2(8 * (|s| - 1) - d)
  {
    Pow2Monotone(8 * (|s| - 1) - d, 8 * (|s| - 1));
    ScaledOrder(s[0], 0, Pow2(8 * (|s| - 1)), 1);
  }

  lemma LeadingDigit(s: seq<Digit>, d: nat)
    requires s != [] && d < 8
    ensures DigitsValue(s) < Pow2(8 * |s| - d) <==> s[0] < Pow2(8 - d)
  {
    DigitsRange(s[1..]);
    Pow2Add(8 - d, 8 * (|s| - 1));
    ScaledOrder(s[0], DigitsValue(s[1..]), Pow2(8 * (|s| - 1)), Pow2(8 - d));
  }

  /** The byte mask `0xFF >> z` as a number. */
  lemma MaskValue(z: nat)
    requires z < 8
    ensures (0xFF as bv8 >> z) as nat == Pow2(8 - z) - 1
  {
    assert Pow2(8) == 256 && Pow2(7) == 128 && Pow2(6) == 64 && Pow2(5) == 32;
    assert z == 0 || z == 1 || z == 2 || z == 3 || z == 4 || z == 5 || z == 6 || z == 7;
  }

  lemma ByteOrder(a: bv8, b: bv8)
    ensures a > b <==> a as nat > b as nat
    ensures a == 0 <==> a as nat == 0
  {
  }

  /** The early-exit test accepts exactly the hashes below the 256-bit bound. */
  method MeetsDifficulty(hash: Hash, difficulty: U64) returns (ok: bool)
    ensures ok <==> Meets(hash, difficulty)
  {
    var zeroBytes := difficulty / 8;
    LeadingBits(Digits(hash), Min(zeroBytes, 32), if zeroBytes < 32 then difficulty % 8 else 0);
    for i := 0 to Min(zeroBytes, 32)
      invariant forall j | 0 <= j < i :: Digits(hash)[j] == 0
    {
      ByteOrder(hash[i], 0);
      if hash[i] != 0 {
        return false;
      }
    }
    if zeroBytes < 32 {
      var zeroBits := difficulty % 8;
      if zeroBits > 0 {
        var mask: bv8 := 0xFF >> zeroBits;
        MaskValue(zeroBits);
        ByteOrder(hash[zeroBytes], mask);
        if hash[zeroBytes] > mask {
          return false;
        }
      }
    }
    return true;
  }

  lemma {:induction false} AllOnes(s: seq<Digit>)
    requires forall i | 0 <= i < |s| :: s[i] == 255
    ensures DigitsValue(s) == Pow2(8 * |s|) - 1
  {
    if s == [] {
    } else {
      AllOnes(s[1..]);
      Pow2Add(8, 8 * (|s| - 1));
      assert Pow2(8) == 256;
    }
  }

  /** k zero digits, one digit with z zero bits, then all ones: one less than a power of two. */
  lemma {:induction false} TargetValue(s: seq<Digit>, k: nat, z: nat)
    requires z < 8 && 8 * k + z <= 8 * |s|
    requires forall i | 0 <= i < k :: s[i] == 0
    requires z > 0 ==> s[k] == Pow2(8 - z) - 1
    requires forall i | (if z > 0 then k + 1 else k) <= i < |s| :: s[i] == 255
    ensures DigitsValue(s) == Pow2(8 * |s| - 8 * k - z) - 1
    decreases |s|
  {
    if k > 0 {
      TargetValue(s[1..], k - 1, z);
    } else if z == 0 {
      AllOnes(s);
    } else {
      AllOnes(s[1..]);
      Pow2Add(8 - z, 8 * (|s| - 1));
      Borrow(Pow2(8 * (|s| - 1)), Pow2(8 - z));
    }
  }

  lemma Borrow(p: nat, q: nat)
    ensures (q - 1) * p + (p - 1) == q * p - 1
  {
  }

  /** The filled target is the largest accepted hash, for every difficulty. */
  method DifficultyToTarget(difficulty: U64) returns (target: array<bv8>)
    ensures fresh(target) && target.Length == 32
    ensures BigEndian(target[..]) == Bound(difficulty) - 1
  {
    target := new bv8[32](_ => 0xFF);
    var zeroBytes := difficulty / 8;
    var zeroBits := difficulty % 8;
    for i := 0 to Min(zeroBytes, 32)
      invariant forall j | 0 <= j < i :: target[j] == 0
      invariant forall j | i <= j < 32 :: target[j] == 0xFF
    {
      target[i] := 0;
    }
    if zeroBytes < 32 && zeroBits > 0 {
      target[zeroBytes] := 0xFF >> zeroBits;
      MaskValue(zeroBits);
    }
    TargetValue(Digits(target[..]), Min(zeroBytes, 32), if zeroBytes < 32 then zeroBits else 0);
  }

  /** Comparing against the target is the same test, and a harder target accepts fewer hashes. */
  lemma HarderAcceptsFewer(hash: Hash, easy: nat, hard: nat)
    requires easy <= hard
    ensures Meets(hash, hard) ==> Meets(hash, easy)
    ensures Meets(hash, easy) <==> BigEndian(hash) <= Bound(easy) - 1
  {
    Pow2Monotone(256 - Min(hard, 256), 256 - Min(easy, 256));
  }
}
