// src/lib/money.ts: exact decimals, rounded half-up (away from zero) to two
// places.  A DECIMAL(12,2) column always holds a whole number of paise, so
// stored amounts are `int` paise and only amounts still to be rounded are `real`.
module Money {
  /** round2, as a number of paise. */
  function Paise(x: real): int {
    if x >= 0.0 then (100.0 * x + 0.5).Floor else -((-100.0 * x + 0.5).Floor)
  }

  function Rupees(paise: int): (r: real)
    ensures 100.0 * r == paise as real
  {
    paise as real / 100.0
  }

  function Round2(x: real): real { Rupees(Paise(x)) }

  predicate EqualsMoney(a: real, b: real) { Round2(a) == Round2(b) }

  /** An amount that sits exactly half a paisa above a whole number of paise. */
  predicate HalfPaisa(x: real) {
    100.0 * x - (100.0 * x).Floor as real == 0.5
  }

  predicate WholePaise(x: real) { (100.0 * x).Floor as real == 100.0 * x }

  /** Amounts in whole paise are those of some number of paise; half paise lie 0.005 above one. */
  lemma {:induction false} PaiseKinds(x: real)
    ensures WholePaise(x) <==> exists n :: x == Rupees(n)
    ensures HalfPaisa(x) <==> exists n :: x == Rupees(n) + 0.005
  {
    if n :| x == Rupees(n) {
      assert 100.0 * x == n as real;
    }
    if n :| x == Rupees(n) + 0.005 {
      assert 100.0 * x == n as real + 0.5 && (n as real + 0.5).Floor == n;
    }
    if WholePaise(x) {
      assert x == Rupees((100.0 * x).Floor);
    }
    if HalfPaisa(x) {
      assert x == Rupees((100.0 * x).Floor) + 0.005;
    }
  }

  lemma {:induction false} PaiseOfRupees(n: int)
    ensures Paise(Rupees(n)) == n
  {
    assert 100.0 * Rupees(n) == n as real;
    if n < 0 {
      assert -100.0 * Rupees(n) == (-n) as real;
      assert ((-n) as real + 0.5).Floor == -n;
    } else {
      assert (n as real + 0.5).Floor == n;
    }
  }

  lemma {:induction false} Round2Idempotent(x: real)
    ensures Round2(Round2(x)) == Round2(x)
  {
    PaiseOfRupees(Paise(x));
  }

  /** Rounding moves an amount by at most half a paisa, and picks the upper neighbour of a tie. */
  lemma {:induction false} RoundingError(x: real)
    ensures -0.5 <= Paise(x) as real - 100.0 * x <= 0.5
    ensures x >= 0.0 ==> -0.5 < Paise(x) as real - 100.0 * x
    ensures WholePaise(x) ==> Paise(x) as real == 100.0 * x
  {
    if x < 0.0 {
      var y := -100.0 * x;
      assert y - 0.5 < (y + 0.5).Floor as real <= y + 0.5;
      if WholePaise(x) {
        assert (100.0 * x).Floor as real == -y;
        assert ((-(100.0 * x).Floor) as real + 0.5).Floor == -(100.0 * x).Floor;
      }
    } else {
      var y := 100.0 * x;
      assert y - 0.5 < (y + 0.5).Floor as real <= y + 0.5;
      if WholePaise(x) {
        assert (y.Floor as real + 0.5).Floor == y.Floor;
      }
    }
  }

  /** Charging: adding an unrounded amount to a stored balance adds its rounding. */
  lemma {:induction false} RoundedSum(balance: int, amount: real)
    requires balance >= 0 && amount >= 0.0
    ensures Paise(Rupees(balance) + amount) == balance + Paise(amount)
  {
    var y := 100.0 * amount + 0.5;
    assert 100.0 * (Rupees(balance) + amount) + 0.5 == balance as real + y;
    assert (balance as real + y).Floor == balance + y.Floor;
  }

  /** Collecting: the stored balance drops by the rounded amount, or by one paisa less on an exact tie. */
  lemma {:induction false} RoundedDifference(balance: int, amount: real)
    requires balance >= 0 && amount >= 0.0 && Paise(amount) <= balance
    ensures Paise(Rupees(balance) - amount) == balance - Paise(amount) + (if HalfPaisa(amount) then 1 else 0)
    ensures Paise(Rupees(balance) - amount) >= 0
  {
    var y := 100.0 * amount;
    var k := y.Floor;
    var f := y - k as real;
    assert 0.0 <= f < 1.0;
    assert (y + 0.5).Floor == if f >= 0.5 then k + 1 else k by {
      assert y + 0.5 == k as real + (f + 0.5);
    }
    var z := Rupees(balance) - amount;
    assert 100.0 * z == balance as real - y;
    if z >= 0.0 {
      assert 100.0 * z + 0.5 == (balance - k) as real + (0.5 - f);
      if f <= 0.5 {
        assert ((balance - k) as real + (0.5 - f)).Floor == balance - k;
      } else {
        assert ((balance - k - 1) as real + (1.5 - f)).Floor == balance - k - 1;
      }
    } else {
      assert f < 0.5 && k == balance;
      assert -100.0 * z + 0.5 == f + 0.5;
      assert (f + 0.5).Floor == 0;
    }
  }
}
