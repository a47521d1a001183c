// Shifts and masks on natural numbers, and what they mean arithmetically.
module Bits {
  function Pow2(n: nat): (p: nat)
    ensures p > 0
  {
    if n == 0 then 1 else 2 * Pow2(n - 1)
  }

  function Shl(v: nat, k: nat): nat { if k == 0 then v else 2 * Shl(v, k - 1) }
  function Shr(v: nat, k: nat): nat { if k == 0 then v else Shr(v / 2, k - 1) }

  function And(a: nat, b: nat): nat {
    if a == 0 || b == 0 then 0 else 2 * And(a / 2, b / 2) + (if a % 2 == 1 && b % 2 == 1 then 1 else 0)
  }

  function Or(a: nat, b: nat): nat {
    if a == 0 then b else if b == 0 then a
    else 2 * Or(a / 2, b / 2) + (if a % 2 == 1 || b % 2 == 1 then 1 else 0)
  }

  /** The number the k lowest bits write. */
  function Low(v: nat, k: nat): (r: nat)
    ensures r < Pow2(k)
  {
    if k == 0 then 0 else 2 * Low(v / 2, k - 1) + v % 2
  }

  /** Masking with 2^k - 1 keeps the k lowest bits. */
  lemma {:induction false} MaskIsLow(v: nat, k: nat)
    ensures And(v, Pow2(k) - 1) == Low(v, k)
    decreases k
  {
    if v == 0 {
      LowOfSmall(0, k);
    } else if k > 0 {
      var p := Pow2(k - 1);
      MaskIsLow(v / 2, k - 1);
      assert (2 * p - 1) / 2 == p - 1 && (2 * p - 1) % 2 == 1;
    }
  }

  lemma {:induction false} LowOfSmall(v: nat, k: nat)
    requires v < Pow2(k)
    ensures Low(v, k) == v
    decreases k
  {
    if k > 0 {
      LowOfSmall(v / 2, k - 1);
    }
  }

  /** Or-ing into cleared low bits is addition. */
  lemma {:induction false} OrIsAdd(v: nat, k: nat, b: nat)
    requires b < Pow2(k)
    ensures Or(Shl(v, k), b) == Shl(v, k) + b
    decreases k
  {
    if k > 0 && Shl(v, k) > 0 && b > 0 {
      OrIsAdd(v, k - 1, b / 2);
    }
  }

  lemma {:induction false} ShlSum(a: nat, b: nat, k: nat)
    ensures Shl(a + b, k) == Shl(a, k) + Shl(b, k)
  {
    if k > 0 {
      ShlSum(a, b, k - 1);
    }
  }

  lemma {:induction false} ShlShl(v: nat, j: nat, k: nat)
    ensures Shl(Shl(v, j), k) == Shl(v, j + k)
    decreases k
  {
    if k > 0 {
      ShlShl(v, j, k - 1);
    }
  }

  lemma {:induction false} ShlBound(v: nat, j: nat, k: nat)
    requires v < Pow2(j)
    ensures Shl(v, k) < Pow2(j + k)
    decreases k
  {
    if k > 0 {
      ShlBound(v, j, k - 1);
    }
  }

  lemma {:induction false} ShrUndoesShl(v: nat, k: nat)
    ensures Shr(Shl(v, k), k) == v
    decreases k
  {
    if k > 0 {
      ShrUndoesShl(v, k - 1);
    }
  }

  lemma {:induction false} FiveUp(v: nat, k: nat)
    ensures Shl(v, 5) == 32 * v && Pow2(k + 5) == 32 * Pow2(k)
  {
    assert Shl(v, 1) == 2 * v && Shl(v, 2) == 4 * v && Shl(v, 3) == 8 * v && Shl(v, 4) == 16 * v;
    assert Pow2(k + 1) == 2 * Pow2(k) && Pow2(k + 2) == 4 * Pow2(k) && Pow2(k + 3) == 8 * Pow2(k);
    assert Pow2(k + 4) == 16 * Pow2(k);
  }

  lemma {:induction false} EightUp(v: nat, k: nat)
    ensures Shl(v, k + 8) == 256 * Shl(v, k) && Pow2(k + 8) == 256 * Pow2(k)
  {
    assert Shl(v, k + 1) == 2 * Shl(v, k) && Shl(v, k + 2) == 4 * Shl(v, k) && Shl(v, k + 3) == 8 * Shl(v, k);
    assert Shl(v, k + 4) == 16 * Shl(v, k) && Shl(v, k + 5) == 32 * Shl(v, k) && Shl(v, k + 6) == 64 * Shl(v, k);
    assert Shl(v, k + 7) == 128 * Shl(v, k);
    assert Pow2(k + 1) == 2 * Pow2(k) && Pow2(k + 2) == 4 * Pow2(k) && Pow2(k + 3) == 8 * Pow2(k);
    assert Pow2(k + 4) == 16 * Pow2(k) && Pow2(k + 5) == 32 * Pow2(k) && Pow2(k + 6) == 64 * Pow2(k);
    assert Pow2(k + 7) == 128 * Pow2(k);
  }

  lemma {:induction false} ByteUp(v: nat)
    ensures Shl(v, 8) == 256 * v && Pow2(8) == 256
  {
    EightUp(v, 0);
    assert Shl(v, 0) == v && Pow2(0) == 1;
  }

  /** The five bits above position k, put back in front of the k lower bits. */
  lemma {:induction false} FiveBits(v: nat, k: nat)
    ensures Low(v, k + 5) == Shl(Low(Shr(v, k), 5), k) + Low(v, k)
    decreases k
  {
    if k > 0 {
      FiveBits(v / 2, k - 1);
    }
  }
}
