// Sums over all rows of a database, and how a statement list changes them.
module Totals {
  import opened Wrappers
  import opened Ids
  import opened Tables
  import opened Handlers

  datatype Measure =
    | BranchQty(shop: Id, product: Id)                // stock rows of a product at a branch
    | AllQty(product: Id)                             // stock rows of a product everywhere
    | StockOf(product: Id)                            // Product.stock
    | Adjusted(shop: Id, product: Id)                 // manual adjustments
    | ReceivedQty(shop: Id, product: Id)              // unreversed purchases with status RECEIVED
    | SoldQty(shop: Id, product: Id)                  // lines of PAID bills
    | RestoredQty(bill: Id, shop: Id, product: Id)    // movements restoring a bill's stock
    | CancelledQty(bill: Id, shop: Id, product: Id)   // the bill's lines, once CANCELLED
    | Refunded(bill: Id)                              // REVERSAL rows of a bill, in paise
    | CancelledCharges(bill: Id)                      // the bill's charges, once CANCELLED
    | Charged(bill: Id)                               // CHARGE rows of a bill
    | BillCharges(bill: Id)                           // the charges recorded with the bill

  function KindSum(es: seq<Movement>, k: MoveType): int {
    if es == [] then 0 else KindSum(es[..|es| - 1], k) + if es[|es| - 1].kind == k then es[|es| - 1].quantity else 0
  }

  function CauseSum(es: seq<Movement>, c: Cause): int {
    if es == [] then 0 else CauseSum(es[..|es| - 1], c) + if es[|es| - 1].cause == c then es[|es| - 1].quantity else 0
  }

  function TxnSum(ts: seq<CreditTxn>, k: TxnKind, bill: Id): int {
    if ts == [] then 0
    else TxnSum(ts[..|ts| - 1], k, bill) +
         if ts[|ts| - 1].kind == k && ts[|ts| - 1].bill == Some(bill) then ts[|ts| - 1].amount else 0
  }

  predicate At(k: Key, shop: Id, product: Id) { k.shop == shop && k.product == product }

  /** What one row contributes. */
  function Eval(m: Measure, r: Row, v: Value): int {
    match m
    case BranchQty(s, p) => if r.Inventory? && At(r.key, s, p) && v.Num? then v.n else 0
    case AllQty(p) => if r.Inventory? && r.key.product == p && v.Num? then v.n else 0
    case StockOf(p) => if r == Product(p) && v.ProductV? then v.stock else 0
    case Adjusted(s, p) => if r.Log? && At(r.key, s, p) then KindSum(Entries(v), ADJUSTMENT) else 0
    case ReceivedQty(s, p) => if r.Purchase? && v.PurchaseV? && v.shop == s && v.received && !v.reversed then ItemQty(v.items, p) else 0
    case SoldQty(s, p) =>
      if r.BillRow? && v.BillV? && v.core.shop == s && v.status == PAID then LineQty(v.core.lines, p) else 0
    case RestoredQty(b, s, p) => if r.Log? && At(r.key, s, p) then CauseSum(Entries(v), Cancelled(b)) else 0
    case CancelledQty(b, s, p) =>
      if r == BillRow(b) && v.BillV? && v.core.shop == s && v.status == CANCELLED then LineQty(v.core.lines, p) else 0
    case Refunded(b) => if r.Ledger? then TxnSum(Txns(v), REVERSAL, b) else 0
    case CancelledCharges(b) => if r == BillRow(b) && v.BillV? && v.status == CANCELLED then Sum(v.core.charges) else 0
    case Charged(b) => if r.Ledger? then TxnSum(Txns(v), CHARGE, b) else 0
    case BillCharges(b) => if r == BillRow(b) && v.BillV? then Sum(v.core.charges) else 0
  }

  ghost function Total(m: Measure, db: Db): int {
    if db == map[] then 0
    else
      var r :| r in db;
      Eval(m, r, db[r]) + Total(m, db - {r})
  }

  lemma {:induction false} EvalAbsent(m: Measure, r: Row)
    ensures Eval(m, r, Absent) == 0
  {
  }

  /** The choice of the first row does not matter. */
  lemma {:induction false} TotalSplit(m: Measure, db: Db, r: Row)
    requires r in db
    ensures Total(m, db) == Eval(m, r, db[r]) + Total(m, db - {r})
    decreases |db|
  {
    hide Eval;
    var x :| x in db && Total(m, db) == Eval(m, x, db[x]) + Total(m, db - {x});
    if x != r {
      TotalSplit(m, db - {x}, r);
      TotalSplit(m, db - {r}, x);
      assert (db - {x}) - {r} == (db - {r}) - {x};
    }
  }

  lemma {:induction false} TotalPut(m: Measure, db: Db, r: Row, v: Value)
    ensures Total(m, Put(db, r, v)) == Total(m, db) - Eval(m, r, Get(db, r)) + Eval(m, r, v)
  {
    hide Eval;
    EvalAbsent(m, r);
    var d := Put(db, r, v);
    if r in db {
      TotalSplit(m, db, r);
    }
    if v != Absent {
      TotalSplit(m, d, r);
      assert d - {r} == db - {r};
    }
    if r !in db {
      assert db - {r} == db;
    }
  }

  // ------------------------------------------------------- changes by statements

  /** Statements whose effect on every measure does not depend on the row they find. */
  predicate Static(s: Stmt) {
    s.Write? ==>
      && !s.op.Claim? && !s.op.MarkReversed?
      && (s.op.NextSeq? ==> s.row.Counter?)
      && (s.op.Take? || s.op.Give? ==> s.row.Inventory?)
  }

  /** The change a static statement makes. */
  function Gain(m: Measure, s: Stmt): int {
    if !s.Write? then 0
    else
      match m
      case BranchQty(sh, p) => if s.row.Inventory? && At(s.row.key, sh, p) then QtyGain(s.op) else 0
      case AllQty(p) => if s.row.Inventory? && s.row.key.product == p then QtyGain(s.op) else 0
      case StockOf(p) => if s.row == Product(p) && s.op.AddStock? then s.op.delta else 0
      case Adjusted(sh, p) =>
        if s.row.Log? && At(s.row.key, sh, p) && s.op.Record? && s.op.kind == ADJUSTMENT then s.op.delta else 0
      case ReceivedQty(sh, p) =>
        if s.row.Purchase? && s.op.InsertPurchase? && s.op.shop == sh then ItemQty(s.op.items, p) else 0
      case SoldQty(sh, p) =>
        if s.row.BillRow? && s.op.InsertBill? && s.op.core.shop == sh then LineQty(s.op.core.lines, p) else 0
      case RestoredQty(b, sh, p) =>
        if s.row.Log? && At(s.row.key, sh, p) && s.op.Record? && s.op.cause == Cancelled(b) then s.op.delta else 0
      case CancelledQty(_, _, _) => 0
      case Refunded(b) => TxnGain(s, REVERSAL, b)
      case CancelledCharges(_) => 0
      case Charged(b) => TxnGain(s, CHARGE, b)
      case BillCharges(b) => if s.row == BillRow(b) && s.op.InsertBill? then Sum(s.op.core.charges) else 0
  }

  function QtyGain(op: Op): int { if op.Take? then -op.n else if op.Give? then op.n else 0 }

  function TxnGain(s: Stmt, k: TxnKind, b: Id): int {
    if s.Write? && s.row.Ledger? && s.op.Post? && s.op.txn.kind == k && s.op.txn.bill == Some(b) then s.op.txn.amount else 0
  }

  function Gains(m: Measure, p: seq<Stmt>): int {
    if p == [] then 0 else Gains(m, p[..|p| - 1]) + Gain(m, p[|p| - 1])
  }

  lemma {:induction false} RecordSums(es: seq<Movement>, e: Movement)
    ensures forall k :: KindSum(es + [e], k) == KindSum(es, k) + if e.kind == k then e.quantity else 0
    ensures forall c :: CauseSum(es + [e], c) == CauseSum(es, c) + if e.cause == c then e.quantity else 0
  {
    assert (es + [e])[..|es|] == es;
  }

  lemma {:induction false} PostSums(ts: seq<CreditTxn>, t: CreditTxn)
    ensures forall k, b :: TxnSum(ts + [t], k, b) ==
              TxnSum(ts, k, b) + if t.kind == k && t.bill == Some(b) then t.amount else 0
  {
    assert (ts + [t])[..|ts|] == ts;
  }

  lemma {:induction false} ApplyGain(m: Measure, s: Stmt, v: Value, l: Locals)
    requires s.Write? && Static(s) && Apply(s.op, v, l).Ok?
    ensures Eval(m, s.row, Apply(s.op, v, l).value.0) == Eval(m, s.row, v) + Gain(m, s)
  {
    if s.op.Record? {
      RecordGain(m, s, v, l);
    } else if s.op.Post? {
      PostGain(m, s, v, l);
    } else {
      hide LineQty, ItemQty, Sum, KindSum, CauseSum, TxnSum;
    }
  }

  lemma {:induction false} RecordGain(m: Measure, s: Stmt, v: Value, l: Locals)
    requires s.Write? && Static(s) && s.op.Record? && Apply(s.op, v, l).Ok?
    ensures Eval(m, s.row, Apply(s.op, v, l).value.0) == Eval(m, s.row, v) + Gain(m, s)
  {
    hide LineQty, ItemQty, Sum, KindSum, CauseSum, TxnSum;
    RecordSums(Entries(v), Movement(s.op.kind, s.op.delta, l.quantity - s.op.delta, l.quantity,
                                    s.op.cause, s.op.cashier, s.op.actor));
    EmptySums();
  }

  lemma {:induction false} PostGain(m: Measure, s: Stmt, v: Value, l: Locals)
    requires s.Write? && Static(s) && s.op.Post? && Apply(s.op, v, l).Ok?
    ensures Eval(m, s.row, Apply(s.op, v, l).value.0) == Eval(m, s.row, v) + Gain(m, s)
  {
    hide LineQty, ItemQty, Sum, KindSum, CauseSum, TxnSum;
    PostSums(Txns(v), s.op.txn);
    EmptySums();
  }

  lemma {:induction false} EmptySums()
    ensures forall k :: KindSum([], k) == 0
    ensures forall c :: CauseSum([], c) == 0
    ensures forall k, b :: TxnSum([], k, b) == 0
  {
  }

  lemma {:induction false} StaticTotals(m: Measure, p: seq<Stmt>, db: Db, l: Locals)
    requires forall i | 0 <= i < |p| :: Static(p[i])
    requires Exec(false, p, db, l).Ok?
    ensures Total(m, Exec(false, p, db, l).value.0) == Total(m, db) + Gains(m, p)
    decreases |p|
  {
    if p != [] {
      var front := p[..|p| - 1];
      StaticTotals(m, front, db, l);
      var (d, l') := Exec(false, front, db, l).value;
      var s := p[|p| - 1];
      if s.Write? {
        ApplyGain(m, s, Get(d, s.row), l');
        TotalPut(m, d, s.row, Apply(s.op, Get(d, s.row), l').value.0);
      } else {
        NoGain(m, s);
      }
    }
  }

  lemma {:induction false} NoGain(m: Measure, s: Stmt)
    requires !s.Write?
    ensures Gain(m, s) == 0
  {
  }

  lemma {:induction false} GainsConcat(m: Measure, a: seq<Stmt>, b: seq<Stmt>)
    ensures Gains(m, a + b) == Gains(m, a) + Gains(m, b)
    decreases |b|
  {
    if b == [] {
      assert a + b == a;
    } else {
      GainsConcat(m, a, b[..|b| - 1]);
      assert (a + b)[..|a + b| - 1] == a + b[..|b| - 1];
    }
  }
}
