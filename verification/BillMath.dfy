// The arithmetic of one bill: prices come rounded from the database, payments
// arrive as arbitrary decimals and are rounded one by one when stored.
module BillMath {
  import opened Money
  import opened Tables
  import opened Handlers

  /** The subtotal as checkoutBill accumulates it, before its one rounding. */
  function RawSubtotal(ls: seq<CartLine>): real {
    if ls == [] then 0.0
    else RawSubtotal(ls[..|ls| - 1]) + Rupees(ls[|ls| - 1].unitPrice) * ls[|ls| - 1].quantity as real
  }

  function SumAmounts(ts: seq<Tender>): real {
    if ts == [] then 0.0 else SumAmounts(ts[..|ts| - 1]) + ts[|ts| - 1].amount
  }

  lemma {:induction false} RawSubtotalExact(ls: seq<CartLine>)
    ensures RawSubtotal(ls) == Rupees(Subtotal(BillLines(ls)))
    decreases |ls|
  {
    if ls != [] {
      var front := ls[..|ls| - 1];
      RawSubtotalExact(front);
      assert BillLines(ls)[..|ls| - 1] == BillLines(front);
      var l := ls[|ls| - 1];
      RupeesTimes(l.unitPrice, l.quantity);
    }
  }

  lemma {:induction false} RupeesTimes(paise: int, n: int)
    ensures Rupees(paise) * n as real == Rupees(paise * n)
  {
    assert (paise * n) as real == paise as real * n as real;
  }

  /** A line's total needs no rounding. */
  lemma {:induction false} LineTotalExact(l: CartLine)
    ensures Paise(Rupees(l.unitPrice) * l.quantity as real) == BillLine(l).lineTotal
  {
    RupeesTimes(l.unitPrice, l.quantity);
    PaiseOfRupees(l.unitPrice * l.quantity);
  }

  function RoundedLineTotals(ls: seq<CartLine>): int {
    if ls == [] then 0
    else RoundedLineTotals(ls[..|ls| - 1]) + Paise(Rupees(ls[|ls| - 1].unitPrice) * ls[|ls| - 1].quantity as real)
  }

  /** Line totals, each rounded alone, add up exactly to the subtotal, rounded once; both are the bill's stored total. */
  lemma {:induction false} LineTotalsAddUp(ls: seq<CartLine>)
    ensures RoundedLineTotals(ls) == Subtotal(BillLines(ls)) == Paise(RawSubtotal(ls))
    decreases |ls|
  {
    RawSubtotalExact(ls);
    PaiseOfRupees(Subtotal(BillLines(ls)));
    if ls != [] {
      LineTotalsAddUp(ls[..|ls| - 1]);
      LineTotalExact(ls[|ls| - 1]);
      assert BillLines(ls)[..|ls| - 1] == BillLines(ls[..|ls| - 1]);
    }
  }

  /** Rounding each payment moves the total by at most half a paisa each, never down by that much. */
  lemma {:induction false} StoredSum(ts: seq<Tender>)
    requires forall i | 0 <= i < |ts| :: ts[i].amount > 0.0
    ensures SumAmounts(ts) >= 0.0
    ensures 2.0 * (Sum(PaiseOf(ts)) as real - 100.0 * SumAmounts(ts)) <= |ts| as real
    ensures 2.0 * (Sum(PaiseOf(ts)) as real - 100.0 * SumAmounts(ts)) >= -(|ts| as real)
    ensures ts != [] ==> 2.0 * (Sum(PaiseOf(ts)) as real - 100.0 * SumAmounts(ts)) > -(|ts| as real)
    ensures (forall i | 0 <= i < |ts| :: WholePaise(ts[i].amount)) ==> Sum(PaiseOf(ts)) as real == 100.0 * SumAmounts(ts)
    decreases |ts|
  {
    if ts != [] {
      var front := ts[..|ts| - 1];
      StoredSum(front);
      assert PaiseOf(ts)[..|ts| - 1] == PaiseOf(front);
      RoundingError(ts[|ts| - 1].amount);
    }
  }

  /** What storing the payments one by one adds to their exact sum, in paise. */
  function RoundingDrift(ts: seq<Tender>): real { Sum(PaiseOf(ts)) as real - 100.0 * SumAmounts(ts) }

  lemma {:induction false} AcceptedTotal(ts: seq<Tender>, grandTotal: int)
    requires EqualsMoney(SumAmounts(ts), Rupees(grandTotal))
    ensures Paise(SumAmounts(ts)) == grandTotal
  {
    var total := SumAmounts(ts);
    PaiseOfRupees(grandTotal);
    assert 100.0 * Round2(total) == Paise(total) as real;
    assert 100.0 * Round2(Rupees(grandTotal)) == grandTotal as real;
  }

  /**
   * The payments of an accepted bill, as stored, add up to its grand total
   * exactly when their roundings together add at most half a paisa and take
   * away less than half a paisa.
   */
  lemma {:induction false} StoredPaymentsExact(ts: seq<Tender>, grandTotal: int)
    requires forall i | 0 <= i < |ts| :: ts[i].amount > 0.0
    requires EqualsMoney(SumAmounts(ts), Rupees(grandTotal))
    ensures Sum(PaiseOf(ts)) == grandTotal <==> -0.5 < RoundingDrift(ts) <= 0.5
  {
    StoredSum(ts);
    AcceptedTotal(ts, grandTotal);
    var stored, total := Sum(PaiseOf(ts)), 100.0 * SumAmounts(ts);
    RoundingError(SumAmounts(ts));
    assert grandTotal as real - 0.5 <= total < grandTotal as real + 0.5;
    if -0.5 < RoundingDrift(ts) <= 0.5 {
      assert -1.0 < (stored - grandTotal) as real < 1.0;
    }
  }

  /**
   * In any case they differ from it by at most half a paisa per payment, and
   * not at all when there is one payment or every amount is in whole paise.
   */
  lemma {:induction false} StoredPaymentsClose(ts: seq<Tender>, grandTotal: int)
    requires ts != [] && forall i | 0 <= i < |ts| :: ts[i].amount > 0.0
    requires EqualsMoney(SumAmounts(ts), Rupees(grandTotal))
    ensures -|ts| <= 2 * (Sum(PaiseOf(ts)) - grandTotal) <= |ts|
    ensures |ts| == 1 || (forall i | 0 <= i < |ts| :: WholePaise(ts[i].amount)) ==> Sum(PaiseOf(ts)) == grandTotal
  {
    StoredSum(ts);
    AcceptedTotal(ts, grandTotal);
    RoundingError(SumAmounts(ts));
    StoredPaymentsExact(ts, grandTotal);
  }

  function HalfPaisas(n: nat): (ts: seq<Tender>)
    ensures |ts| == n && forall i :: 0 <= i < n ==> ts[i] == Tender("cash", 0.005)
  {
    seq(n, _ => Tender("cash", 0.005))
  }

  lemma {:induction false} HalfPaisasSums(n: nat)
    ensures SumAmounts(HalfPaisas(n)) == 0.005 * n as real && Sum(PaiseOf(HalfPaisas(n))) == n
  {
    if n > 0 {
      HalfPaisasSums(n - 1);
      assert HalfPaisas(n)[..n - 1] == HalfPaisas(n - 1);
      assert PaiseOf(HalfPaisas(n))[..n - 1] == PaiseOf(HalfPaisas(n - 1));
      assert Paise(0.005) == 1;
    }
  }

  /** The bound is attained by every even number of half-paisa payments. */
  lemma {:induction false} StoredPaymentsBoundAttained(n: nat)
    requires n > 0
    ensures EqualsMoney(SumAmounts(HalfPaisas(2 * n)), Rupees(n))
    ensures 2 * (Sum(PaiseOf(HalfPaisas(2 * n))) - n) == |HalfPaisas(2 * n)|
  {
    HalfPaisasSums(2 * n);
    assert 0.005 * (2 * n) as real == Rupees(n);
  }
}
