// When a cancellation that runs alone succeeds, and what its two steps need.
module Cancellations {
  import opened Wrappers
  import opened Ids
  import opened Tables
  import opened Handlers
  import opened Runs
  import opened Conservation
  import opened Journals
  import opened Sales

  /** The product has its catalogue row and a listing row at the branch, shown or hidden. */
  predicate Known(db: Db, shop: Id, p: Id) {
    Get(db, Branch(shop, p)).BranchV? && Get(db, Product(p)).ProductV?
  }

  ghost predicate SameKnown(a: Db, b: Db) { forall s, p :: Known(a, s, p) == Known(b, s, p) }

  lemma {:induction false} RestoreSucceeds(mode: Mode, m: Move, db: Db, l: Locals)
    requires Keyed(mode, m) && m.delta > 0 && m.allowUnassigned
    requires StockTyped(db) && Known(db, m.shop, m.product)
    ensures Exec(true, Block(mode, m), db, l).Ok?
  {
    var b := Block(mode, m);
    assert b == [b[0]] + [b[1]] + [b[2]] + [b[3]] + [b[4]];
    ExecStep(true, [], b[0], db, l);
    assert [] + [b[0]] == [b[0]];
    ExecStep(true, [b[0]], b[1], db, l);
    ExecStep(true, [b[0]] + [b[1]], b[2], db, l);
    ExecStep(true, [b[0]] + [b[1]] + [b[2]], b[3], db, l);
    ExecStep(true, [b[0]] + [b[1]] + [b[2]] + [b[3]], b[4], db, l);
  }

  lemma {:induction false} RestoreKeepsKnown(mode: Mode, m: Move, db: Db, l: Locals)
    requires Exec(true, Block(mode, m), db, l).Ok? && m.delta != 0
    ensures SameKnown(db, Exec(true, Block(mode, m), db, l).value.0)
  {
    BlockEffect(true, mode, m, db, l);
  }

  lemma {:induction false} RestoresSucceed(mode: Mode, ms: seq<Move>, db: Db, l: Locals)
    requires forall i | 0 <= i < |ms| :: Keyed(mode, ms[i]) && ms[i].delta > 0 && ms[i].allowUnassigned
    requires StockTyped(db) && forall i | 0 <= i < |ms| :: Known(db, ms[i].shop, ms[i].product)
    ensures Exec(true, Blocks(mode, ms), db, l).Ok?
    ensures StockTyped(Exec(true, Blocks(mode, ms), db, l).value.0)
    ensures SameKnown(db, Exec(true, Blocks(mode, ms), db, l).value.0)
    decreases |ms|
  {
    if ms == [] {
      NoMoves(mode, db, l);
    } else {
      hide Exec, Block, StockTyped;
      var front, last := ms[..|ms| - 1], ms[|ms| - 1];
      RestoresSucceed(mode, front, db, l);
      ExecConcat(true, Blocks(mode, front), Block(mode, last), db, l);
      var (d, l') := Exec(true, Blocks(mode, front), db, l).value;
      assert Known(d, last.shop, last.product);
      RestoreSucceeds(mode, last, d, l');
      BlocksStockTyped(mode, last, d, l');
      RestoreKeepsKnown(mode, last, d, l');
    }
  }

  lemma {:induction false} NoStatements(db: Db, l: Locals)
    ensures Exec(true, [], db, l) == Ok((db, l))
  {
  }

  lemma {:induction false} NoMoves(mode: Mode, db: Db, l: Locals)
    ensures Exec(true, Blocks(mode, []), db, l) == Ok((db, l))
  {
  }

  /** The customer's balance still covers the bill's charges. */
  predicate Refundable(db: Db, core: BillCore) {
    Sum(core.charges) > 0 && core.customer.Some? ==>
      Get(db, Customer(core.customer.value)).CustomerV?
      && Get(db, Customer(core.customer.value)).balance >= Sum(core.charges)
  }

  lemma {:induction false} RefundOutcome(bill: Id, core: BillCore, db: Db, l: Locals)
    requires ChargesOk(core)
    requires core.customer.Some? ==> Get(db, Ledger(core.customer.value)).Absent? || Get(db, Ledger(core.customer.value)).LedgerV?
    ensures var o := Exec(true, CreditBlocks(RefundMoves(bill, core)), db, l);
            (o.Ok? <==> Refundable(db, core)) && (o.Err? ==> o == Err(ReversalExceedsBalance))
  {
    var cs := RefundMoves(bill, core);
    assert CreditBlocks([]) == [];
    NoStatements(db, l);
    hide Exec, CreditBlock;
    if core.charges == [] {
      assert Sum(core.charges) == 0;
    }
    if cs != [] {
      assert cs[..0] == [];
      assert CreditBlocks(cs) == CreditBlocks(cs[..0]) + CreditBlock(cs[0]) == CreditBlock(cs[0]);
      RefundBlockOutcome(core.customer.value, bill, Sum(core.charges), db, l);
    }
  }

  lemma {:induction false} RefundBlockOutcome(customer: Id, bill: Id, paise: int, db: Db, l: Locals)
    requires Get(db, Ledger(customer)).Absent? || Get(db, Ledger(customer)).LedgerV?
    ensures var v, o := Get(db, Customer(customer)), Exec(true, CreditBlock(RefundMove(customer, bill, paise)), db, l);
            (o.Ok? <==> v.CustomerV? && v.balance >= paise) && (o.Err? ==> o == Err(ReversalExceedsBalance))
  {
    hide Exec;
    var b := CreditBlock(RefundMove(customer, bill, paise));
    assert b == [b[0]] + [b[1]];
    ExecOne(true, b[0], db, l);
    ExecStep(true, [b[0]], b[1], db, l);
  }

  lemma {:induction false} RestoreMovesFit(mode: Mode, bill: Id, core: BillCore, actor: Id, db: Db)
    requires forall i | 0 <= i < |core.lines| :: core.lines[i].quantity > 0 && Known(db, core.shop, core.lines[i].product)
    ensures var ms := RestoreMoves(bill, core, actor, ProductsOf(core.lines));
            && (forall i | 0 <= i < |ms| :: Keyed(mode, ms[i]) && ms[i].delta > 0 && ms[i].allowUnassigned)
            && (forall i | 0 <= i < |ms| :: Known(db, ms[i].shop, ms[i].product))
  {
    var ids := ProductsOf(core.lines);
    ProductsOfFacts(core.lines);
    forall i | 0 <= i < |ids| ensures LineQty(core.lines, ids[i]) > 0 && Known(db, core.shop, ids[i]) {
      LineQtyPositive(core.lines, ids[i]);
      assert ids[i] in ids;
    }
  }

  lemma {:induction false} ClaimSucceeds(bill: Id, core: BillCore, db: Db)
    requires Get(db, BillRow(bill)) == BillV(core, PAID)
    ensures Exec(true, [Write(BillRow(bill), Claim)], db, NO_LOCALS) == Ok((Put(db, BillRow(bill), BillV(core, CANCELLED)), NO_LOCALS))
  {
    ExecOne(true, Write(BillRow(bill), Claim), db, NO_LOCALS);
  }

  /**
   * Cancelling a PAID bill, run alone, succeeds exactly when the customer's
   * balance still covers its charges; otherwise that is the error.
   */
  lemma {:induction false} CancelExact(mode: Mode, bill: Id, core: BillCore, actor: Id, db: Db)
    requires Get(db, BillRow(bill)) == BillV(core, PAID) && StockTyped(db) && ChargesOk(core)
    requires core.customer.Some? ==> Get(db, Ledger(core.customer.value)).Absent? || Get(db, Ledger(core.customer.value)).LedgerV?
    requires forall i | 0 <= i < |core.lines| :: core.lines[i].quantity > 0 && Known(db, core.shop, core.lines[i].product)
    ensures var o := Run(true, Program(mode, CancelPlan(bill, core, actor)), db);
            (o.Ok? <==> Refundable(db, core)) && (o.Err? ==> o == Err(ReversalExceedsBalance))
  {
    hide Exec, Blocks, CreditBlocks, Sum, ProductsOf, LineQty;
    var p := CancelPlan(bill, core, actor);
    ClaimSucceeds(bill, core, db);
    var a := Put(db, BillRow(bill), BillV(core, CANCELLED));
    assert StockTyped(a) && SameKnown(db, a);
    forall i | 0 <= i < |core.lines| ensures Known(a, core.shop, core.lines[i].product) {
      assert Known(db, core.shop, core.lines[i].product);
    }
    RestoreMovesFit(mode, bill, core, actor, a);
    assert p.moves == RestoreMoves(bill, core, actor, ProductsOf(core.lines));
    RestoresSucceed(mode, p.moves, a, NO_LOCALS);
    var (d, l) := Exec(true, Blocks(mode, p.moves), a, NO_LOCALS).value;
    BlocksRows(mode, p.moves);
    if core.customer.Some? {
      Untouched(true, Blocks(mode, p.moves), a, NO_LOCALS, Customer(core.customer.value));
      Untouched(true, Blocks(mode, p.moves), a, NO_LOCALS, Ledger(core.customer.value));
    }
    RefundOutcome(bill, core, d, l);
    ExecConcat(true, p.pre, Blocks(mode, p.moves), db, NO_LOCALS);
    assert p.pre + Blocks(mode, p.moves) + p.post == p.pre + Blocks(mode, p.moves);
    ExecConcat(true, p.pre + Blocks(mode, p.moves), CreditBlocks(p.credits), db, NO_LOCALS);
  }

  // ------------------------------------------------- undoing a checkout just made

  /** A movement that went through found its product known at the branch. */
  lemma {:induction false} MovedIsKnown(mode: Mode, m: Move, db: Db, l: Locals)
    requires Exec(true, Block(mode, m), db, l).Ok? && m.delta != 0
    ensures Known(db, m.shop, m.product)
  {
    BlockEffect(true, mode, m, db, l);
    var b := Block(mode, m);
    ExecConcat(true, [b[0]], b[1..], db, l);
    assert b == [b[0]] + b[1..];
    ExecOne(true, b[0], db, l);
  }

  lemma {:induction false} MovesKeepKnown(mode: Mode, ms: seq<Move>, db: Db, l: Locals)
    requires Exec(true, Blocks(mode, ms), db, l).Ok? && forall i | 0 <= i < |ms| :: ms[i].delta != 0
    ensures SameKnown(db, Exec(true, Blocks(mode, ms), db, l).value.0)
    decreases |ms|
  {
    if ms == [] {
      NoMoves(mode, db, l);
    } else {
      hide Exec, Block;
      var front, last := ms[..|ms| - 1], ms[|ms| - 1];
      ExecConcat(true, Blocks(mode, front), Block(mode, last), db, l);
      MovesKeepKnown(mode, front, db, l);
      var (d, l') := Exec(true, Blocks(mode, front), db, l).value;
      RestoreKeepsKnown(mode, last, d, l');
    }
  }

  lemma {:induction false} MovedAreKnown(mode: Mode, ms: seq<Move>, db: Db, l: Locals, i: nat)
    requires Exec(true, Blocks(mode, ms), db, l).Ok? && (forall i | 0 <= i < |ms| :: ms[i].delta != 0) && i < |ms|
    ensures Known(db, ms[i].shop, ms[i].product)
    decreases |ms|
  {
    hide Exec, Block, Known;
    var front, last := ms[..|ms| - 1], ms[|ms| - 1];
    ExecConcat(true, Blocks(mode, front), Block(mode, last), db, l);
    if i < |front| {
      MovedAreKnown(mode, front, db, l, i);
      assert front[i] == ms[i];
    } else {
      MovesKeepKnown(mode, front, db, l);
      var (d, l') := Exec(true, Blocks(mode, front), db, l).value;
      MovedIsKnown(mode, last, d, l');
      assert Known(d, last.shop, last.product);
    }
  }

  /** The products of a cart whose deductions went through are all known. */
  lemma {:induction false} SoldAreKnown(mode: Mode, c: Cart, db: Db, l: Locals)
    requires ValidCart(c) && Exec(true, Blocks(mode, SaleMoves(c, SortLines(BillLines(c.lines)))), db, l).Ok?
    ensures forall i | 0 <= i < |c.lines| :: Known(db, c.shop, c.lines[i].product)
    ensures SameKnown(db, Exec(true, Blocks(mode, SaleMoves(c, SortLines(BillLines(c.lines)))), db, l).value.0)
  {
    hide Exec, Blocks, SortLines;
    var lines := BillLines(c.lines);
    var sorted := SortLines(lines);
    SortLinesFacts(lines);
    forall i | 0 <= i < |sorted| ensures sorted[i].quantity > 0 {
      assert sorted[i] in multiset(sorted);
      assert sorted[i] in lines;
    }
    MovesKeepKnown(mode, SaleMoves(c, sorted), db, l);
    forall i | 0 <= i < |c.lines| ensures Known(db, c.shop, c.lines[i].product) {
      assert lines[i] in multiset(lines);
      assert lines[i] in sorted;
      var j :| 0 <= j < |sorted| && sorted[j] == lines[i];
      MovedAreKnown(mode, SaleMoves(c, sorted), db, l, j);
    }
  }

  ghost predicate LedgerTyped(db: Db, customer: Option<Id>) {
    customer.Some? ==> Get(db, Ledger(customer.value)).Absent? || Get(db, Ledger(customer.value)).LedgerV?
  }

  lemma {:induction false} CreditKeepsLedger(cs: seq<CreditMove>, db: Db, l: Locals, x: Option<Id>)
    requires Exec(true, CreditBlocks(cs), db, l).Ok? && LedgerTyped(db, x)
    ensures LedgerTyped(Exec(true, CreditBlocks(cs), db, l).value.0, x)
    decreases |cs|
  {
    if cs != [] {
      hide Exec;
      var front, last := cs[..|cs| - 1], cs[|cs| - 1];
      ExecConcat(true, CreditBlocks(front), CreditBlock(last), db, l);
      CreditKeepsLedger(front, db, l, x);
      var (d, l') := Exec(true, CreditBlocks(front), db, l).value;
      CreditEffect(true, last, d, l');
    } else {
      NoStatements(db, l);
    }
  }

  /** What a checkout leaves behind is fit to be cancelled. */
  lemma {:induction false} SoldState(mode: Mode, bill: Id, c: Cart, db: Db)
    requires ValidCart(c) && StockTyped(db) && LedgerTyped(db, c.customer)
    requires Run(true, Program(mode, CheckoutPlan(bill, c)), db).Ok?
    ensures var sold := Run(true, Program(mode, CheckoutPlan(bill, c)), db).value.0;
            && StockTyped(sold) && LedgerTyped(sold, c.customer)
            && forall i | 0 <= i < |c.lines| :: Known(sold, c.shop, c.lines[i].product)
  {
    hide Exec, Program, Blocks, CreditBlocks, SortLines, Insertions, PriceChecks;
    var p := CheckoutPlan(bill, c);
    var x, y, z, w := RunPhases(true, mode, p, db);
    PriceChecksWriteNothing(c.shop, c.lines);
    BlocksRows(mode, p.moves);
    InsertionsRows(bill, c);
    CreditRows(p.credits);
    SameWhereUntouched(p.pre, db, NO_LOCALS);
    SoldAreKnown(mode, c, x.0, x.1);
    SaleKeepsTypes(mode, p.moves, x.0, x.1);
    SameWhereUntouched(p.post, y.0, y.1);
    SameWhereUntouched(CreditBlocks(p.credits), z.0, z.1);
    if c.customer.Some? {
      Untouched(true, p.pre, db, NO_LOCALS, Ledger(c.customer.value));
      Untouched(true, Blocks(mode, p.moves), x.0, x.1, Ledger(c.customer.value));
      Untouched(true, p.post, y.0, y.1, Ledger(c.customer.value));
    }
    CreditKeepsLedger(p.credits, z.0, z.1, c.customer);
    forall i | 0 <= i < |c.lines| ensures Known(w.0, c.shop, c.lines[i].product) {
      assert Known(x.0, c.shop, c.lines[i].product);
      assert Known(y.0, c.shop, c.lines[i].product);
      assert Known(z.0, c.shop, c.lines[i].product);
    }
  }

  lemma {:induction false} PriceChecksWriteNothing(shop: Id, ls: seq<CartLine>)
    ensures Written(PriceChecks(shop, ls)) == {}
  {
  }

  lemma {:induction false} SameWhereUntouched(p: seq<Stmt>, db: Db, l: Locals)
    requires Exec(true, p, db, l).Ok? && forall r | r in Written(p) :: !StockRow(r) && !r.Branch?
    ensures var d := Exec(true, p, db, l).value.0; SameKnown(db, d) && (StockTyped(db) ==> StockTyped(d))
  {
    hide Exec;
    var d := Exec(true, p, db, l).value.0;
    forall r: Row | StockRow(r) || r.Branch? ensures Get(d, r) == Get(db, r) {
      Untouched(true, p, db, l, r);
    }
  }

  /**
   * Right after a checkout the balance covers its charges, so its cancellation
   * succeeds, and every stock row, aggregate and balance is as before the checkout.
   */
  lemma {:induction false} CheckoutUndone(mode: Mode, bill: Id, c: Cart, actor: Id, db: Db)
    requires ValidCart(c) && StockTyped(db) && LedgerTyped(db, c.customer)
    requires c.customer.Some? ==> Balance(db, c.customer.value) >= 0
    requires Run(true, Program(mode, CheckoutPlan(bill, c)), db).Ok?
    ensures var sold := Run(true, Program(mode, CheckoutPlan(bill, c)), db).value.0;
            && Get(sold, BillRow(bill)).BillV?
            && var undo := Run(true, Program(mode, CancelPlan(bill, Get(sold, BillRow(bill)).core, actor)), sold);
               undo.Ok? && SameBooks(undo.value.0, db)
  {
    hide Exec, Program, CheckoutPlan, CancelPlan, SameBooks, StockTyped;
    var q := Program(mode, CheckoutPlan(bill, c));
    var sold := Run(true, q, db).value.0;
    ChecksOnlyReject(q, db, NO_LOCALS);
    CheckoutBill(mode, bill, c, db);
    SoldState(mode, bill, c, db);
    CartChargesOk(c);
    var core := Get(sold, BillRow(bill)).core;
    assert core == CoreOf(c).(seq_ := core.seq_);
    if c.customer.Some? {
      CheckoutBalance(mode, bill, c, db, c.customer.value);
    }
    assert Refundable(sold, core);
    forall i | 0 <= i < |core.lines| ensures core.lines[i].quantity > 0 && Known(sold, core.shop, core.lines[i].product) {
      assert core.lines[i] == BillLine(c.lines[i]);
    }
    CancelExact(mode, bill, core, actor, sold);
    ChecksOnlyReject(Program(mode, CancelPlan(bill, core, actor)), sold, NO_LOCALS);
    CheckoutThenCancel(mode, bill, c, actor, db);
  }
}
