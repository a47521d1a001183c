// What each committed request leaves in the rows, field by field: the
// movements, credit rows and bill it adds, and that nothing else changes.
module Effects {
  import opened Wrappers
  import opened Ids
  import opened Money
  import opened Tables
  import opened Handlers
  import opened Runs
  import opened Conservation
  import opened Journals
  import opened Sales

  // ------------------------------------------------------------------ movement logs

  predicate Shows(e: Movement, quantity: int, kind: MoveType, cause: Cause, cashier: Option<Id>, actor: Option<Id>) {
    e.kind == kind && e.quantity == quantity && e.cause == cause && e.cashier == cashier && e.actor == actor
  }

  /** A log grew by movements of these quantities, all of one kind, cause, cashier and actor. */
  ghost predicate LogGrew(before: Value, after: Value, quantities: seq<int>, kind: MoveType, cause: Cause,
                          cashier: Option<Id>, actor: Option<Id>) {
    var a, b := Entries(before), Entries(after);
    && a <= b && |b| == |a| + |quantities|
    && forall j | 0 <= j < |quantities| :: Shows(b[|a| + j], quantities[j], kind, cause, cashier, actor)
  }

  /** The deltas of the moves on one stock row, in order; a zero delta moves nothing. */
  function DeltasAt(mode: Mode, ms: seq<Move>, k: Key): seq<int> {
    if ms == [] then []
    else
      DeltasAt(mode, ms[..|ms| - 1], k) +
      if ms[|ms| - 1].delta != 0 && KeyOf(mode, ms[|ms| - 1]) == k then [ms[|ms| - 1].delta] else []
  }

  predicate Alike(ms: seq<Move>, kind: MoveType, cause: Cause, cashier: Option<Id>, actor: Option<Id>) {
    forall i | 0 <= i < |ms| :: ms[i].kind == kind && ms[i].cause == cause && ms[i].cashier == cashier && ms[i].actor == actor
  }

  lemma {:induction false} BlockLogged(checks: bool, mode: Mode, m: Move, db: Db, l: Locals, k: Key)
    requires Exec(checks, Block(mode, m), db, l).Ok?
    ensures var d := Exec(checks, Block(mode, m), db, l).value.0;
            LogGrew(Get(db, Log(k)), Get(d, Log(k)), if m.delta != 0 && KeyOf(mode, m) == k then [m.delta] else [],
                    m.kind, m.cause, m.cashier, m.actor)
  {
    hide Exec, Block;
    if m.delta == 0 {
      BlockZero(checks, mode, m, db, l);
    } else {
      BlockEffect(checks, mode, m, db, l);
    }
  }

  lemma {:induction false} GrewTwice(a: Value, b: Value, c: Value, x: seq<int>, y: seq<int>, kind: MoveType, cause: Cause,
                                     cashier: Option<Id>, actor: Option<Id>)
    requires LogGrew(a, b, x, kind, cause, cashier, actor) && LogGrew(b, c, y, kind, cause, cashier, actor)
    ensures LogGrew(a, c, x + y, kind, cause, cashier, actor)
  {
    hide Shows, Entries;
    forall j | 0 <= j < |x + y| ensures Shows(Entries(c)[|Entries(a)| + j], (x + y)[j], kind, cause, cashier, actor) {
      GrewTwiceAt(a, b, c, x, y, kind, cause, cashier, actor, j);
    }
  }

  lemma {:induction false} GrewTwiceAt(a: Value, b: Value, c: Value, x: seq<int>, y: seq<int>, kind: MoveType, cause: Cause,
                                       cashier: Option<Id>, actor: Option<Id>, j: nat)
    requires LogGrew(a, b, x, kind, cause, cashier, actor) && LogGrew(b, c, y, kind, cause, cashier, actor) && j < |x + y|
    ensures Shows(Entries(c)[|Entries(a)| + j], (x + y)[j], kind, cause, cashier, actor)
  {
    hide Shows, Entries;
    var ea, eb, ec := Entries(a), Entries(b), Entries(c);
    if j < |x| {
      assert Shows(eb[|ea| + j], x[j], kind, cause, cashier, actor);
      assert ec[|ea| + j] == eb[|ea| + j];
    } else {
      var i := j - |x|;
      assert Shows(ec[|eb| + i], y[i], kind, cause, cashier, actor);
      assert ec[|ea| + j] == ec[|eb| + i];
    }
  }

  lemma {:induction false} NothingGrew(v: Value, kind: MoveType, cause: Cause, cashier: Option<Id>, actor: Option<Id>)
    ensures LogGrew(v, v, [], kind, cause, cashier, actor)
  {
  }

  lemma {:induction false} BlocksLogged(checks: bool, mode: Mode, ms: seq<Move>, db: Db, l: Locals, k: Key, kind: MoveType, cause: Cause,
                                        cashier: Option<Id>, actor: Option<Id>)
    requires Exec(checks, Blocks(mode, ms), db, l).Ok? && Alike(ms, kind, cause, cashier, actor)
    ensures LogGrew(Get(db, Log(k)), Get(Exec(checks, Blocks(mode, ms), db, l).value.0, Log(k)), DeltasAt(mode, ms, k),
                    kind, cause, cashier, actor)
    decreases |ms|
  {
    hide Exec, Block, LogGrew;
    if ms == [] {
      EmptyBlocks(checks, mode, db, l);
      NothingGrew(Get(db, Log(k)), kind, cause, cashier, actor);
    } else {
      var front, last := ms[..|ms| - 1], ms[|ms| - 1];
      ExecConcat(checks, Blocks(mode, front), Block(mode, last), db, l);
      BlocksLogged(checks, mode, front, db, l, k, kind, cause, cashier, actor);
      var (d, l') := Exec(checks, Blocks(mode, front), db, l).value;
      BlockLogged(checks, mode, last, d, l', k);
      GrewTwice(Get(db, Log(k)), Get(d, Log(k)), Get(Exec(checks, Blocks(mode, ms), db, l).value.0, Log(k)),
                DeltasAt(mode, front, k), if last.delta != 0 && KeyOf(mode, last) == k then [last.delta] else [],
                kind, cause, cashier, actor);
    }
  }

  lemma {:induction false} EmptyBlocks(checks: bool, mode: Mode, db: Db, l: Locals)
    ensures Exec(checks, Blocks(mode, []), db, l) == Ok((db, l))
  {
  }

  lemma {:induction false} DeltasSnoc(mode: Mode, ms: seq<Move>, m: Move, k: Key)
    ensures DeltasAt(mode, ms + [m], k) ==
            DeltasAt(mode, ms, k) + if m.delta != 0 && KeyOf(mode, m) == k then [m.delta] else []
  {
    assert (ms + [m])[..|ms|] == ms;
  }

  /** The stock row of a product that a branch and cashier sell from. */
  predicate IsStockOf(mode: Mode, k: Key, shop: Id, cashier: Option<Id>) {
    k.shop == shop && k.owner == if mode == BRANCH then None else cashier
  }

  lemma {:induction false} KeyOfStock(mode: Mode, m: Move, k: Key)
    ensures KeyOf(mode, m) == k <==> IsStockOf(mode, k, m.shop, m.cashier) && k.product == m.product
  {
  }

  // ----------------------------------------------------------------------- checkout

  /** What the lines of one product take off its stock, line by line in cart order. */
  function Takings(ls: seq<Line>, p: Id): seq<int> {
    if ls == [] then []
    else Takings(ls[..|ls| - 1], p) + if ls[|ls| - 1].product == p then [-ls[|ls| - 1].quantity] else []
  }

  lemma {:induction false} TakingsSnoc(ls: seq<Line>, l: Line, p: Id)
    ensures Takings(ls + [l], p) == Takings(ls, p) + if l.product == p then [-l.quantity] else []
  {
    assert (ls + [l])[..|ls|] == ls;
  }

  /** Inserting a line keeps the order of the lines of each product. */
  lemma {:induction false} InsertKeepsOrder(ls: seq<Line>, l: Line, p: Id)
    ensures Takings(InsertLine(ls, l), p) == Takings(ls, p) + if l.product == p then [-l.quantity] else []
    decreases |ls|
  {
    hide Takings, Less;
    if ls == [] || LineLeq(ls[|ls| - 1], l) {
      TakingsSnoc(ls, l, p);
    } else {
      var front, last := ls[..|ls| - 1], ls[|ls| - 1];
      assert ls == front + [last];
      InsertKeepsOrder(front, l, p);
      TakingsSnoc(front, last, p);
      TakingsSnoc(InsertLine(front, l), last, p);
      OtherProduct(last, l);
    }
  }

  lemma {:induction false} OtherProduct(a: Line, b: Line)
    requires !LineLeq(a, b)
    ensures a.product != b.product
  {
    LessIrreflexive(a.product);
  }

  /** The deduction order keeps the lines of one product in cart order. */
  lemma {:induction false} SortKeepsOrder(ls: seq<Line>, p: Id)
    ensures Takings(SortLines(ls), p) == Takings(ls, p)
    decreases |ls|
  {
    hide Takings, InsertLine;
    if ls != [] {
      var front, last := ls[..|ls| - 1], ls[|ls| - 1];
      assert ls == front + [last];
      SortKeepsOrder(front, p);
      InsertKeepsOrder(SortLines(front), last, p);
      TakingsSnoc(front, last, p);
    }
  }

  lemma {:induction false} SaleDeltas(mode: Mode, c: Cart, ls: seq<Line>, k: Key)
    requires forall i | 0 <= i < |ls| :: ls[i].quantity > 0
    ensures DeltasAt(mode, SaleMoves(c, ls), k) == if IsStockOf(mode, k, c.shop, Some(c.cashier)) then Takings(ls, k.product) else []
    decreases |ls|
  {
    if ls != [] {
      var front := ls[..|ls| - 1];
      SaleDeltas(mode, c, front, k);
      assert SaleMoves(c, ls)[..|ls| - 1] == SaleMoves(c, front);
      KeyOfStock(mode, SaleMove(c, ls[|ls| - 1]), k);
    }
  }

  /** A committed checkout logs one sale per line of each product, in cart order, on its own stock rows and no others. */
  lemma {:induction false} CheckoutLogs(mode: Mode, bill: Id, c: Cart, db: Db, k: Key)
    requires ValidCart(c) && Run(false, Program(mode, CheckoutPlan(bill, c)), db).Ok?
    ensures var d := Run(false, Program(mode, CheckoutPlan(bill, c)), db).value.0;
            LogGrew(Get(db, Log(k)), Get(d, Log(k)),
                    if IsStockOf(mode, k, c.shop, Some(c.cashier)) then Takings(BillLines(c.lines), k.product) else [],
                    OUT, Sale, Some(c.cashier), Some(c.cashier))
  {
    hide Exec, Program, Blocks, CreditBlocks, Insertions, PriceChecks, SortLines, Takings, LogGrew, DeltasAt;
    var p, lines := CheckoutPlan(bill, c), BillLines(c.lines);
    var a, b, e, d := RunPhases(false, mode, p, db);
    SortLinesFacts(lines);
    forall i | 0 <= i < |lines| ensures SortLines(lines)[i].quantity > 0 {
      assert SortLines(lines)[i] in multiset(SortLines(lines));
      assert SortLines(lines)[i] in lines;
    }
    BlocksLogged(false, mode, p.moves, a.0, a.1, k, OUT, Sale, Some(c.cashier), Some(c.cashier));
    SaleDeltas(mode, c, SortLines(lines), k);
    SortKeepsOrder(lines, k.product);
    NoPriceWrites(c.shop, c.lines);
    InsertionsRows(bill, c);
    CreditRows(p.credits);
    Untouched(false, p.pre, db, NO_LOCALS, Log(k));
    Untouched(false, p.post, b.0, b.1, Log(k));
    Untouched(false, CreditBlocks(p.credits), e.0, e.1, Log(k));
  }

  lemma {:induction false} NoPriceWrites(shop: Id, ls: seq<CartLine>)
    ensures Written(PriceChecks(shop, ls)) == {}
  {
  }

  // ------------------------------------------------------------------------- credit

  /** A ledger grew by rows of these amounts, all of one kind for one bill. */
  ghost predicate LedgerGrew(before: Value, after: Value, amounts: seq<int>, kind: TxnKind, bill: Option<Id>) {
    var a, b := Txns(before), Txns(after);
    && a <= b && |b| == |a| + |amounts|
    && forall j | 0 <= j < |amounts| :: b[|a| + j] == CreditTxn(kind, amounts[j], bill)
  }

  lemma {:induction false} LedgerGrewTwice(a: Value, b: Value, c: Value, x: seq<int>, y: seq<int>, kind: TxnKind, bill: Option<Id>)
    requires LedgerGrew(a, b, x, kind, bill) && LedgerGrew(b, c, y, kind, bill)
    ensures LedgerGrew(a, c, x + y, kind, bill)
  {
    var ea, eb, ec := Txns(a), Txns(b), Txns(c);
    assert forall j | 0 <= j < |eb| :: ec[j] == eb[j];
    forall j | 0 <= j < |x + y| ensures ec[|ea| + j] == CreditTxn(kind, (x + y)[j], bill) {
      if j < |x| {
        assert ec[|ea| + j] == eb[|ea| + j];
      } else {
        assert ec[|ea| + j] == ec[|eb| + (j - |x|)];
      }
    }
  }

  lemma {:induction false} ChargesLogged(cs: seq<CreditMove>, ts: seq<Tender>, customer: Id, shop: Id, bill: Id, db: Db, l: Locals, x: Id)
    requires |cs| == |ts| && forall i :: 0 <= i < |cs| ==> cs[i] == ChargeMove(customer, shop, bill, ts[i].amount)
    requires Exec(false, CreditBlocks(cs), db, l).Ok?
    ensures LedgerGrew(Get(db, Ledger(x)), Get(Exec(false, CreditBlocks(cs), db, l).value.0, Ledger(x)),
                       if x == customer then PaiseOf(ts) else [], CHARGE, Some(bill))
    decreases |cs|
  {
    hide Exec, LedgerGrew;
    if cs == [] {
      NoCredits(false, db, l);
      NoneGrew(Get(db, Ledger(x)), bill);
      assert PaiseOf(ts) == [];
    } else {
      var front, last := cs[..|cs| - 1], cs[|cs| - 1];
      var t := ts[|ts| - 1];
      ExecConcat(false, CreditBlocks(front), CreditBlock(last), db, l);
      ChargesLogged(front, ts[..|ts| - 1], customer, shop, bill, db, l, x);
      var (d, l') := Exec(false, CreditBlocks(front), db, l).value;
      ChargeLogged(customer, shop, bill, t.amount, d, l', x);
      LedgerGrewTwice(Get(db, Ledger(x)), Get(d, Ledger(x)), Get(Exec(false, CreditBlocks(cs), db, l).value.0, Ledger(x)),
                      if x == customer then PaiseOf(ts[..|ts| - 1]) else [], if x == customer then [Paise(t.amount)] else [],
                      CHARGE, Some(bill));
      assert PaiseOf(ts) == PaiseOf(ts[..|ts| - 1]) + [Paise(t.amount)];
    }
  }

  lemma {:induction false} NoneGrew(v: Value, bill: Id)
    ensures LedgerGrew(v, v, [], CHARGE, Some(bill))
  {
  }

  lemma {:induction false} ChargeLogged(customer: Id, shop: Id, bill: Id, amount: real, db: Db, l: Locals, x: Id)
    requires Exec(false, CreditBlock(ChargeMove(customer, shop, bill, amount)), db, l).Ok?
    ensures LedgerGrew(Get(db, Ledger(x)), Get(Exec(false, CreditBlock(ChargeMove(customer, shop, bill, amount)), db, l).value.0, Ledger(x)),
                       if x == customer then [Paise(amount)] else [], CHARGE, Some(bill))
  {
    hide Exec;
    CreditEffect(false, ChargeMove(customer, shop, bill, amount), db, l);
  }

  /** A committed checkout posts one CHARGE row for its bill per credit payment, to its own customer and no other. */
  lemma {:induction false} CheckoutCharges(mode: Mode, bill: Id, c: Cart, db: Db, x: Id)
    requires ValidCart(c) && Run(false, Program(mode, CheckoutPlan(bill, c)), db).Ok?
    ensures var d := Run(false, Program(mode, CheckoutPlan(bill, c)), db).value.0;
            LedgerGrew(Get(db, Ledger(x)), Get(d, Ledger(x)),
                       if c.customer == Some(x) then PaiseOf(CreditTenders(c.tenders)) else [], CHARGE, Some(bill))
  {
    hide Exec, Program, Blocks, CreditBlocks, Insertions, PriceChecks, SortLines, LedgerGrew, CreditTenders, PaiseOf;
    var p := CheckoutPlan(bill, c);
    var a, b, e, d := RunPhases(false, mode, p, db);
    NoPriceWrites(c.shop, c.lines);
    InsertionsRows(bill, c);
    BlocksRows(mode, p.moves);
    Untouched(false, p.pre, db, NO_LOCALS, Ledger(x));
    Untouched(false, Blocks(mode, p.moves), a.0, a.1, Ledger(x));
    Untouched(false, p.post, b.0, b.1, Ledger(x));
    if c.customer.Some? {
      ChargesLogged(p.credits, CreditTenders(c.tenders), c.customer.value, c.shop, bill, e.0, e.1, x);
    } else {
      NoCredits(false, e.0, e.1);
      NoneGrew(Get(db, Ledger(x)), bill);
    }
  }

  /** A committed checkout changes nothing but stock, its customer's credit, the counter, its key and its new bill. */
  lemma {:induction false} CheckoutFrame(mode: Mode, bill: Id, c: Cart, db: Db, r: Row)
    requires Run(false, Program(mode, CheckoutPlan(bill, c)), db).Ok?
    requires !r.Inventory? && !r.Product? && !r.Log? && r != Counter(c.shop, c.year) && r != BillRow(bill)
    requires !(c.token.Some? && r == IdemKey(c.shop, c.token.value))
    requires !(c.customer.Some? && (r == Customer(c.customer.value) || r == Ledger(c.customer.value)))
    ensures Get(Run(false, Program(mode, CheckoutPlan(bill, c)), db).value.0, r) == Get(db, r)
  {
    hide Exec, Blocks, CreditBlocks, Insertions, PriceChecks, SortLines, CreditTenders;
    var p := CheckoutPlan(bill, c);
    NoPriceWrites(c.shop, c.lines);
    InsertionsRows(bill, c);
    BlocksRows(mode, p.moves);
    ProgramRows(mode, p);
    if c.customer.Some? {
      ChargeRows(p.credits, c.customer.value);
    } else {
      NoChargeRows();
    }
    Untouched(false, Program(mode, p), db, NO_LOCALS, r);
  }

  lemma {:induction false} NoChargeRows()
    ensures Written(CreditBlocks([])) == {}
  {
  }

  lemma {:induction false} ChargeRows(cs: seq<CreditMove>, customer: Id)
    requires forall i | 0 <= i < |cs| :: cs[i].customer == customer
    ensures Written(CreditBlocks(cs)) <= {Customer(customer), Ledger(customer)}
    decreases |cs|
  {
    if cs != [] {
      ChargeRows(cs[..|cs| - 1], customer);
      WrittenConcat(CreditBlocks(cs[..|cs| - 1]), CreditBlock(cs[|cs| - 1]));
      hide CreditBlocks;
    }
  }

  // -------------------------------------------------------------------- cancellation

  lemma {:induction false} RestoreDeltas(mode: Mode, bill: Id, core: BillCore, actor: Id, ids: seq<Id>, k: Key)
    requires Ascending(ids) && forall i | 0 <= i < |ids| :: LineQty(core.lines, ids[i]) > 0
    ensures DeltasAt(mode, RestoreMoves(bill, core, actor, ids), k) ==
            if IsStockOf(mode, k, core.shop, Some(core.cashier)) && k.product in ids then [LineQty(core.lines, k.product)] else []
    decreases |ids|
  {
    hide LineQty, DeltasAt, KeyOf;
    if ids == [] {
      NoDeltas(mode, k);
      assert RestoreMoves(bill, core, actor, ids) == [];
    } else {
      var front, last := ids[..|ids| - 1], ids[|ids| - 1];
      assert ids == front + [last];
      LastIsFresh(front, last);
      RestoreDeltas(mode, bill, core, actor, front, k);
      assert RestoreMoves(bill, core, actor, ids) ==
             RestoreMoves(bill, core, actor, front) + [RestoreMove(bill, core, actor, last)];
      DeltasSnoc(mode, RestoreMoves(bill, core, actor, front), RestoreMove(bill, core, actor, last), k);
      KeyOfStock(mode, RestoreMove(bill, core, actor, last), k);
    }
  }

  lemma {:induction false} NoDeltas(mode: Mode, k: Key)
    ensures DeltasAt(mode, [], k) == []
  {
  }

  lemma {:induction false} LastIsFresh(ids: seq<Id>, last: Id)
    requires Ascending(ids + [last])
    ensures Ascending(ids) && last !in ids
  {
    var all := ids + [last];
    forall i | 0 <= i < |ids| ensures ids[i] != last {
      assert Less(all[i], all[|ids|]);
      LessIrreflexive(last);
    }
    forall i, j | 0 <= i < j < |ids| ensures Less(ids[i], ids[j]) {
      assert Less(all[i], all[j]);
    }
  }

  predicate Sold(core: BillCore, p: Id) { exists i :: 0 <= i < |core.lines| && core.lines[i].product == p }

  /**
   * A committed cancellation logs, for each product on the bill, one inward
   * movement of its merged quantity on the stock it was sold from, names the
   * bill, its cashier and the canceller, and logs nothing anywhere else.
   */
  lemma {:induction false} CancelLogs(mode: Mode, bill: Id, core: BillCore, actor: Id, db: Db, k: Key)
    requires forall i | 0 <= i < |core.lines| :: core.lines[i].quantity > 0
    requires Run(false, Program(mode, CancelPlan(bill, core, actor)), db).Ok?
    ensures var d := Run(false, Program(mode, CancelPlan(bill, core, actor)), db).value.0;
            LogGrew(Get(db, Log(k)), Get(d, Log(k)),
                    if IsStockOf(mode, k, core.shop, Some(core.cashier)) && Sold(core, k.product) then [LineQty(core.lines, k.product)] else [],
                    IN, Cancelled(bill), Some(core.cashier), Some(actor))
  {
    hide Exec, Program, Blocks, CreditBlocks, LineQty, ProductsOf, LogGrew, DeltasAt;
    var p, ids := CancelPlan(bill, core, actor), ProductsOf(core.lines);
    var a, b, e, d := RunPhases(false, mode, p, db);
    ProductsOfFacts(core.lines);
    forall i | 0 <= i < |ids| ensures LineQty(core.lines, ids[i]) > 0 {
      assert ids[i] in ids;
      LineQtyPositive(core.lines, ids[i]);
    }
    BlocksLogged(false, mode, p.moves, a.0, a.1, k, IN, Cancelled(bill), Some(core.cashier), Some(actor));
    RestoreDeltas(mode, bill, core, actor, ids, k);
    CreditRows(p.credits);
    Untouched(false, p.pre, db, NO_LOCALS, Log(k));
    Untouched(false, p.post, b.0, b.1, Log(k));
    Untouched(false, CreditBlocks(p.credits), e.0, e.1, Log(k));
  }

  lemma {:induction false} RefundLogged(customer: Id, bill: Id, paise: int, db: Db, l: Locals, x: Id)
    requires Exec(false, CreditBlock(RefundMove(customer, bill, paise)), db, l).Ok?
    ensures LedgerGrew(Get(db, Ledger(x)), Get(Exec(false, CreditBlock(RefundMove(customer, bill, paise)), db, l).value.0, Ledger(x)),
                       if x == customer then [paise] else [], REVERSAL, Some(bill))
  {
    hide Exec;
    CreditEffect(false, RefundMove(customer, bill, paise), db, l);
  }

  lemma {:induction false} NoReversal(v: Value, bill: Id)
    ensures LedgerGrew(v, v, [], REVERSAL, Some(bill))
  {
  }

  /** A committed cancellation posts one REVERSAL row of the bill's charges, if they are above zero, to the bill's customer. */
  lemma {:induction false} CancelRefunds(mode: Mode, bill: Id, core: BillCore, actor: Id, db: Db, x: Id)
    requires Run(false, Program(mode, CancelPlan(bill, core, actor)), db).Ok?
    ensures var d := Run(false, Program(mode, CancelPlan(bill, core, actor)), db).value.0;
            LedgerGrew(Get(db, Ledger(x)), Get(d, Ledger(x)),
                       if core.customer == Some(x) && Sum(core.charges) > 0 then [Sum(core.charges)] else [], REVERSAL, Some(bill))
  {
    hide Exec, Program, Blocks, CreditBlock, CreditBlocks, Sum, LedgerGrew;
    var p := CancelPlan(bill, core, actor);
    var a, b, e, d := RunPhases(false, mode, p, db);
    BlocksRows(mode, p.moves);
    Untouched(false, p.pre, db, NO_LOCALS, Ledger(x));
    Untouched(false, Blocks(mode, p.moves), a.0, a.1, Ledger(x));
    Untouched(false, p.post, b.0, b.1, Ledger(x));
    NoCharges();
    NoReversal(Get(db, Ledger(x)), bill);
    if p.credits == [] {
      NoCredits(false, e.0, e.1);
    } else {
      OneCredit(p.credits[0]);
      assert p.credits == [p.credits[0]];
      RefundLogged(core.customer.value, bill, Sum(core.charges), e.0, e.1, x);
    }
  }

  /** A committed cancellation marks its bill CANCELLED and changes nothing else but stock and the bill's customer's credit. */
  lemma {:induction false} CancelFrame(mode: Mode, bill: Id, core: BillCore, actor: Id, db: Db, r: Row)
    requires Run(false, Program(mode, CancelPlan(bill, core, actor)), db).Ok?
    ensures var d := Run(false, Program(mode, CancelPlan(bill, core, actor)), db).value.0;
            && Get(db, BillRow(bill)).BillV? && Get(db, BillRow(bill)).status == PAID
            && Get(d, BillRow(bill)) == BillV(Get(db, BillRow(bill)).core, CANCELLED)
            && (!r.Inventory? && !r.Product? && !r.Log? && r != BillRow(bill)
                && !(core.customer.Some? && (r == Customer(core.customer.value) || r == Ledger(core.customer.value))) ==>
                  Get(d, r) == Get(db, r))
  {
    hide Exec, Blocks, CreditBlocks, ProductsOf, Sum, Program;
    var p := CancelPlan(bill, core, actor);
    var a, b, e, d := RunPhases(false, mode, p, db);
    ClaimWrites(bill, db);
    BlocksRows(mode, p.moves);
    if core.customer.Some? {
      ChargeRows(p.credits, core.customer.value);
    } else {
      NoChargeRows();
    }
    BillPersists(mode, p, a, b, e, d, bill);
    if !r.Inventory? && !r.Product? && !r.Log? && r != BillRow(bill)
       && !(core.customer.Some? && (r == Customer(core.customer.value) || r == Ledger(core.customer.value))) {
      Untouched(false, p.pre, db, NO_LOCALS, r);
      Untouched(false, Blocks(mode, p.moves), a.0, a.1, r);
      Untouched(false, p.post, b.0, b.1, r);
      Untouched(false, CreditBlocks(p.credits), e.0, e.1, r);
    }
  }

  lemma {:induction false} ClaimWrites(bill: Id, db: Db)
    requires Exec(false, [Write(BillRow(bill), Claim)], db, NO_LOCALS).Ok?
    ensures Get(db, BillRow(bill)).BillV? && Get(db, BillRow(bill)).status == PAID
    ensures Get(Exec(false, [Write(BillRow(bill), Claim)], db, NO_LOCALS).value.0, BillRow(bill)) ==
            BillV(Get(db, BillRow(bill)).core, CANCELLED)
  {
    ExecOne(false, Write(BillRow(bill), Claim), db, NO_LOCALS);
  }

  lemma {:induction false} BillPersists(mode: Mode, p: Plan, a: (Db, Locals), b: (Db, Locals), e: (Db, Locals), d: (Db, Locals), bill: Id)
    requires Exec(false, Blocks(mode, p.moves), a.0, a.1) == Ok(b) && Exec(false, p.post, b.0, b.1) == Ok(e)
    requires Exec(false, CreditBlocks(p.credits), e.0, e.1) == Ok(d) && p.post == []
    ensures Get(d.0, BillRow(bill)) == Get(a.0, BillRow(bill))
  {
    hide Exec;
    BlocksRows(mode, p.moves);
    CreditRows(p.credits);
    Untouched(false, Blocks(mode, p.moves), a.0, a.1, BillRow(bill));
    Untouched(false, p.post, b.0, b.1, BillRow(bill));
    Untouched(false, CreditBlocks(p.credits), e.0, e.1, BillRow(bill));
  }

  // ------------------------------------------------------- purchases and adjustments

  /** What the items of one product bring, item by item. */
  function Bringings(items: seq<Item>, p: Id, inward: bool): seq<int> {
    if items == [] then []
    else
      var it := items[|items| - 1];
      Bringings(items[..|items| - 1], p, inward) +
      if it.product == Some(p) then [if inward then it.quantity else -it.quantity] else []
  }

  lemma {:induction false} ItemsAlike(shop: Id, cashier: Option<Id>, items: seq<Item>, inward: bool, cause: Cause, actor: Id)
    ensures Alike(ItemMoves(shop, cashier, items, inward, cause, actor), if inward then IN else OUT, cause, cashier, Some(actor))
    decreases |items|
  {
    if items != [] {
      ItemsAlike(shop, cashier, items[..|items| - 1], inward, cause, actor);
    }
  }

  lemma {:induction false} ItemDeltas(mode: Mode, shop: Id, cashier: Option<Id>, items: seq<Item>, inward: bool, cause: Cause, actor: Id, k: Key)
    requires forall i | 0 <= i < |items| :: items[i].quantity > 0
    ensures DeltasAt(mode, ItemMoves(shop, cashier, items, inward, cause, actor), k) ==
            if IsStockOf(mode, k, shop, cashier) then Bringings(items, k.product, inward) else []
    decreases |items|
  {
    hide DeltasAt, KeyOf;
    if items == [] {
      NoDeltas(mode, k);
    } else {
      var front, it := items[..|items| - 1], items[|items| - 1];
      ItemDeltas(mode, shop, cashier, front, inward, cause, actor, k);
      if it.product.Some? {
        var ms, m := ItemMoves(shop, cashier, front, inward, cause, actor), ItemMove(shop, cashier, it, inward, cause, actor);
        assert ItemMoves(shop, cashier, items, inward, cause, actor) == ms + [m];
        DeltasSnoc(mode, ms, m, k);
        KeyOfStock(mode, m, k);
      } else {
        assert ItemMoves(shop, cashier, items, inward, cause, actor) == ItemMoves(shop, cashier, front, inward, cause, actor);
        assert it.product != Some(k.product);
      }
    }
  }

  /** The log of every row, after a purchase row's statement and the movements of its items. */
  lemma {:induction false} ItemsLogged(mode: Mode, w: Stmt, shop: Id, cashier: Option<Id>, items: seq<Item>, inward: bool, cause: Cause, actor: Id,
                                       db: Db, k: Key)
    requires w.Write? && w.row.Purchase? && forall i | 0 <= i < |items| :: items[i].quantity > 0
    requires Run(false, Program(mode, Plan([w], ItemMoves(shop, cashier, items, inward, cause, actor), [], [])), db).Ok?
    ensures var d := Run(false, Program(mode, Plan([w], ItemMoves(shop, cashier, items, inward, cause, actor), [], [])), db).value.0;
            LogGrew(Get(db, Log(k)), Get(d, Log(k)), if IsStockOf(mode, k, shop, cashier) then Bringings(items, k.product, inward) else [],
                    if inward then IN else OUT, cause, cashier, Some(actor))
  {
    hide Exec, Program, Blocks, CreditBlocks, ItemMoves, LogGrew, DeltasAt, Bringings;
    var p := Plan([w], ItemMoves(shop, cashier, items, inward, cause, actor), [], []);
    var a, b, e, d := RunPhases(false, mode, p, db);
    ItemDeltas(mode, shop, cashier, items, inward, cause, actor, k);
    ItemsAlike(shop, cashier, items, inward, cause, actor);
    BlocksLogged(false, mode, p.moves, a.0, a.1, k, if inward then IN else OUT, cause, cashier, Some(actor));
    NoChargeRows();
    Untouched(false, p.pre, db, NO_LOCALS, Log(k));
    Untouched(false, p.post, b.0, b.1, Log(k));
    Untouched(false, CreditBlocks(p.credits), e.0, e.1, Log(k));
  }

  /** A committed purchase logs one inward movement per catalogue item at its branch, naming purchase, cashier and admin. */
  lemma {:induction false} ReceiveLogs(mode: Mode, id: Id, shop: Id, cashier: Option<Id>, items: seq<Item>, actor: Id, db: Db, k: Key)
    requires forall i | 0 <= i < |items| :: items[i].quantity > 0
    requires Run(false, Program(mode, ReceivePlan(id, shop, cashier, items, actor)), db).Ok?
    ensures var d := Run(false, Program(mode, ReceivePlan(id, shop, cashier, items, actor)), db).value.0;
            LogGrew(Get(db, Log(k)), Get(d, Log(k)), if IsStockOf(mode, k, shop, cashier) then Bringings(items, k.product, true) else [],
                    IN, Received(id), cashier, Some(actor))
  {
    hide Program, Run, ItemMoves, LogGrew, Bringings;
    ItemsLogged(mode, Write(Purchase(id), InsertPurchase(shop, items)), shop, cashier, items, true, Received(id), actor, db, k);
  }

  /** A committed reversal logs one outward movement per catalogue item at the purchase's branch, naming the reversal. */
  lemma {:induction false} ReverseLogs(mode: Mode, id: Id, shop: Id, cashier: Option<Id>, items: seq<Item>, actor: Id, db: Db, k: Key)
    requires forall i | 0 <= i < |items| :: items[i].quantity > 0
    requires Run(false, Program(mode, ReversePlan(id, shop, cashier, items, actor)), db).Ok?
    ensures var d := Run(false, Program(mode, ReversePlan(id, shop, cashier, items, actor)), db).value.0;
            LogGrew(Get(db, Log(k)), Get(d, Log(k)), if IsStockOf(mode, k, shop, cashier) then Bringings(items, k.product, false) else [],
                    OUT, Reversed(id), cashier, Some(actor))
  {
    hide Program, Run, ItemMoves, LogGrew, Bringings;
    ItemsLogged(mode, Write(Purchase(id), MarkReversed), shop, cashier, items, false, Reversed(id), actor, db, k);
  }

  /** A committed purchase plan changes nothing but stock and its own purchase row. */
  lemma {:induction false} PurchaseFrame(mode: Mode, w: Stmt, ms: seq<Move>, db: Db, r: Row)
    requires w.Write? && w.row.Purchase? && Run(false, Program(mode, Plan([w], ms, [], [])), db).Ok?
    ensures var d := Run(false, Program(mode, Plan([w], ms, [], [])), db).value.0;
            && Apply(w.op, Get(db, w.row), NO_LOCALS).Ok? && Get(d, w.row) == Apply(w.op, Get(db, w.row), NO_LOCALS).value.0
            && (!r.Inventory? && !r.Product? && !r.Log? && r != w.row ==> Get(d, r) == Get(db, r))
  {
    hide Exec, Program, Blocks, CreditBlocks;
    var p := Plan([w], ms, [], []);
    var a, b, e, d := RunPhases(false, mode, p, db);
    ExecOne(false, w, db, NO_LOCALS);
    BlocksRows(mode, ms);
    NoChargeRows();
    Untouched(false, Blocks(mode, ms), a.0, a.1, w.row);
    Untouched(false, p.post, b.0, b.1, w.row);
    Untouched(false, CreditBlocks(p.credits), e.0, e.1, w.row);
    if !r.Inventory? && !r.Product? && !r.Log? && r != w.row {
      Untouched(false, p.pre, db, NO_LOCALS, r);
      Untouched(false, Blocks(mode, ms), a.0, a.1, r);
      Untouched(false, p.post, b.0, b.1, r);
      Untouched(false, CreditBlocks(p.credits), e.0, e.1, r);
    }
  }

  /** A committed purchase records the branch and the items with status RECEIVED, under a new id. */
  lemma {:induction false} ReceiveRecords(mode: Mode, id: Id, shop: Id, cashier: Option<Id>, items: seq<Item>, actor: Id, db: Db, r: Row)
    requires Run(false, Program(mode, ReceivePlan(id, shop, cashier, items, actor)), db).Ok?
    ensures var d := Run(false, Program(mode, ReceivePlan(id, shop, cashier, items, actor)), db).value.0;
            && Get(db, Purchase(id)) == Absent && Get(d, Purchase(id)) == PurchaseV(shop, items, true, false)
            && (!r.Inventory? && !r.Product? && !r.Log? && r != Purchase(id) ==> Get(d, r) == Get(db, r))
  {
    hide Program, Run, ItemMoves;
    PurchaseFrame(mode, Write(Purchase(id), InsertPurchase(shop, items)), ItemMoves(shop, cashier, items, true, Received(id), actor), db, r);
  }

  /** A committed reversal finds an unreversed purchase and changes its row only by marking it reversed. */
  lemma {:induction false} ReverseRecords(mode: Mode, id: Id, shop: Id, cashier: Option<Id>, items: seq<Item>, actor: Id, db: Db, r: Row)
    requires Run(false, Program(mode, ReversePlan(id, shop, cashier, items, actor)), db).Ok?
    ensures var d := Run(false, Program(mode, ReversePlan(id, shop, cashier, items, actor)), db).value.0;
            var v := Get(db, Purchase(id));
            && v.PurchaseV? && !v.reversed && Get(d, Purchase(id)) == PurchaseV(v.shop, v.items, v.received, true)
            && (!r.Inventory? && !r.Product? && !r.Log? && r != Purchase(id) ==> Get(d, r) == Get(db, r))
  {
    hide Program, Run, ItemMoves;
    PurchaseFrame(mode, Write(Purchase(id), MarkReversed), ItemMoves(shop, cashier, items, false, Reversed(id), actor), db, r);
  }

  // --------------------------------------------------------- one move, listing, credit

  lemma {:induction false} OneBlock(mode: Mode, m: Move)
    ensures Blocks(mode, [m]) == Block(mode, m)
  {
    assert [m][..0] == [];
    assert Blocks(mode, []) == [];
  }

  /** An adjustment is one call of adjustStock, whose listing check it does not skip. */
  lemma {:induction false} AdjustIsOneCall(mode: Mode, shop: Id, cashier: Option<Id>, product: Id, delta: int, actor: Id, db: Db)
    ensures PlanIn(db, Adjust(shop, cashier, product, delta, actor)).Some?
    ensures Program(mode, PlanIn(db, Adjust(shop, cashier, product, delta, actor)).value) ==
            Block(mode, Move(shop, cashier, product, delta, ADJUSTMENT, Manual, Some(actor), false))
  {
    hide Block, Blocks, CreditBlocks;
    OneBlock(mode, Move(shop, cashier, product, delta, ADJUSTMENT, Manual, Some(actor), false));
    NoCreditStatements();
  }

  /**
   * A committed adjustment adds `delta` to the one stock row and to the
   * aggregate, never below zero, logs it with its admin, and changes nothing else.
   */
  lemma {:induction false} AdjustWrites(mode: Mode, shop: Id, cashier: Option<Id>, product: Id, delta: int, actor: Id, db: Db, r: Row)
    requires delta != 0
    requires PlanIn(db, Adjust(shop, cashier, product, delta, actor)).Some?
    requires Run(false, Program(mode, PlanIn(db, Adjust(shop, cashier, product, delta, actor)).value), db).Ok?
    ensures var d := Run(false, Program(mode, PlanIn(db, Adjust(shop, cashier, product, delta, actor)).value), db).value.0;
            var k := Key(shop, if mode == BRANCH then None else cashier, product);
            var q := Quantity(db, k);
            && (mode == BRANCH || cashier.Some?) && q + delta >= (if delta < 0 then 0 else q) && Get(d, Inventory(k)) == Num(q + delta)
            && Get(db, Product(product)).ProductV?
            && Get(d, Product(product)) == Get(db, Product(product)).(stock := Get(db, Product(product)).stock + delta)
            && Get(d, Log(k)) == LogV(Entries(Get(db, Log(k))) + [Movement(ADJUSTMENT, delta, q, q + delta, Manual, cashier, Some(actor))])
            && (r != Inventory(k) && r != Product(product) && r != Log(k) ==> Get(d, r) == Get(db, r))
  {
    hide Exec, Block, Blocks, Program;
    var m := Move(shop, cashier, product, delta, ADJUSTMENT, Manual, Some(actor), false);
    AdjustIsOneCall(mode, shop, cashier, product, delta, actor, db);
    BlockEffect(false, mode, m, db, NO_LOCALS);
  }

  lemma {:induction false} NoCreditStatements()
    ensures CreditBlocks([]) == []
  {
  }

  lemma {:induction false} NoMoveStatements(mode: Mode)
    ensures Blocks(mode, []) == []
  {
  }

  lemma {:induction false} StatementAlone(mode: Mode, x: Stmt, db: Db)
    requires x.Write? && Run(false, Program(mode, Plan([x], [], [], [])), db).Ok?
    ensures Apply(x.op, Get(db, x.row), NO_LOCALS).Ok?
    ensures Run(false, Program(mode, Plan([x], [], [], [])), db).value.0 ==
            Put(db, x.row, Apply(x.op, Get(db, x.row), NO_LOCALS).value.0)
  {
    hide Exec, Program;
    OneStatement(mode, x);
    ExecOne(false, x, db, NO_LOCALS);
  }

  /** An assignment is one statement, which the listing of any branch and product lets through. */
  lemma {:induction false} AssignmentAlone(mode: Mode, shop: Id, product: Id, listed: bool, db: Db)
    requires Get(db, Branch(shop, product)).Absent? || Get(db, Branch(shop, product)).BranchV?
    ensures PlanIn(db, SetAssignment(shop, product, listed)).Some?
    ensures var v := Get(db, Branch(shop, product));
            Run(true, Program(mode, PlanIn(db, SetAssignment(shop, product, listed)).value), db) ==
            Ok((Put(db, Branch(shop, product), BranchV(listed, if v.BranchV? then v.priceOverride else None)), NO_LOCALS))
  {
    hide Exec, Blocks, CreditBlocks;
    var x := Write(Branch(shop, product), Assign(listed));
    OneStatement(mode, x);
    ExecOne(true, x, db, NO_LOCALS);
  }

  /** A price change is one statement, which every listing lets through and nothing else does. */
  lemma {:induction false} PriceAlone(mode: Mode, shop: Id, product: Id, priceOverride: Option<int>, db: Db)
    ensures PlanIn(db, SetPrice(shop, product, priceOverride)).Some?
    ensures Run(true, Program(mode, PlanIn(db, SetPrice(shop, product, priceOverride)).value), db).Ok? <==>
            Get(db, Branch(shop, product)).BranchV?
  {
    hide Exec, Blocks, CreditBlocks;
    var x := Write(Branch(shop, product), SetOverride(priceOverride));
    OneStatement(mode, x);
    ExecOne(true, x, db, NO_LOCALS);
  }

  lemma {:induction false} OneStatement(mode: Mode, x: Stmt)
    ensures Program(mode, Plan([x], [], [], [])) == [x]
  {
    hide Blocks, CreditBlocks;
    NoMoveStatements(mode);
    NoCreditStatements();
  }

  /** A committed assignment changes the listing flag of one branch and product, keeps its price, and nothing else. */
  lemma {:induction false} AssignWrites(mode: Mode, shop: Id, product: Id, listed: bool, db: Db, r: Row)
    requires PlanIn(db, SetAssignment(shop, product, listed)).Some?
    requires Run(false, Program(mode, PlanIn(db, SetAssignment(shop, product, listed)).value), db).Ok?
    ensures var d := Run(false, Program(mode, PlanIn(db, SetAssignment(shop, product, listed)).value), db).value.0;
            var v := Get(db, Branch(shop, product));
            && Get(d, Branch(shop, product)) == BranchV(listed, if v.BranchV? then v.priceOverride else None)
            && (r != Branch(shop, product) ==> Get(d, r) == Get(db, r))
  {
    hide Program, Run;
    StatementAlone(mode, Write(Branch(shop, product), Assign(listed)), db);
  }

  /** A committed price change replaces the override of one listing, keeps its flag, and nothing else. */
  lemma {:induction false} PriceWrites(mode: Mode, shop: Id, product: Id, priceOverride: Option<int>, db: Db, r: Row)
    requires PlanIn(db, SetPrice(shop, product, priceOverride)).Some?
    requires Run(false, Program(mode, PlanIn(db, SetPrice(shop, product, priceOverride)).value), db).Ok?
    ensures var d := Run(false, Program(mode, PlanIn(db, SetPrice(shop, product, priceOverride)).value), db).value.0;
            var v := Get(db, Branch(shop, product));
            && v.BranchV? && Get(d, Branch(shop, product)) == BranchV(v.isAssigned, priceOverride)
            && (r != Branch(shop, product) ==> Get(d, r) == Get(db, r))
  {
    hide Program, Run;
    StatementAlone(mode, Write(Branch(shop, product), SetOverride(priceOverride)), db);
  }

  lemma {:induction false} CreditAlone(mode: Mode, c: CreditMove)
    ensures Program(mode, Plan([], [], [], [c])) == CreditBlock(c)
  {
    NoMoveStatements(mode);
    OneCredit(c);
  }

  /**
   * A committed collection found the customer in the branch, with a balance
   * that covers a positive amount; it lowers that balance by the rounded amount,
   * or a paisa less on an exact half, posts it, and changes nothing else.
   */
  lemma {:induction false} CollectWrites(mode: Mode, customer: Id, shop: Id, amount: real, db: Db, r: Row)
    requires Balance(db, customer) >= 0
    requires PlanIn(db, CollectCredit(customer, shop, amount)).Some?
    requires Run(false, Program(mode, PlanIn(db, CollectCredit(customer, shop, amount)).value), db).Ok?
    ensures var d := Run(false, Program(mode, PlanIn(db, CollectCredit(customer, shop, amount)).value), db).value.0;
            var v := Get(db, Customer(customer));
            && v.CustomerV? && v.shop == shop && amount > 0.0 && Paise(amount) <= v.balance
            && Get(d, Customer(customer)) == v.(balance := v.balance - Paise(amount) + if HalfPaisa(amount) then 1 else 0)
            && Get(d, Ledger(customer)) == LedgerV(Txns(Get(db, Ledger(customer))) + [CreditTxn(COLLECTION, Paise(amount), None)])
            && (r != Customer(customer) && r != Ledger(customer) ==> Get(d, r) == Get(db, r))
  {
    hide Exec, Program, Blocks, CreditBlocks, Paise, HalfPaisa, Rupees;
    var c := CollectMove(customer, shop, amount);
    CreditAlone(mode, c);
    CreditEffect(false, c, db, NO_LOCALS);
    RoundedDifference(Get(db, Customer(customer)).balance, amount);
  }

  // ----------------------------------------------------- what a checkout checks again

  /** The price a branch asks now for a product whose catalogue price was read before: its own, zero included, or that one. */
  predicate PriceNow(db: Db, shop: Id, l: CartLine) {
    var v := Get(db, Branch(shop, l.product));
    l.unitPrice == if v.BranchV? && v.priceOverride.Some? then v.priceOverride.value else l.sellingPrice
  }

  lemma {:induction false} PassedChecks(p: seq<Stmt>, db: Db, l: Locals, i: nat)
    requires Exec(true, p, db, l).Ok? && (forall j | 0 <= j < |p| :: p[j].Check?) && i < |p|
    ensures Holds(p[i].cond, Get(db, p[i].row)).Ok? && Exec(true, p, db, l) == Ok((db, l))
    decreases |p|
  {
    hide Holds;
    if |p| > 1 {
      PassedChecks(p[..|p| - 1], db, l, if i < |p| - 1 then i else 0);
    } else {
      ChecksOnly(p[..0], db, l);
    }
  }

  lemma {:induction false} ChecksOnly(p: seq<Stmt>, db: Db, l: Locals)
    requires p == []
    ensures Exec(true, p, db, l) == Ok((db, l))
  {
  }

  /** Run alone, a checkout commits only at the prices and of the listings in the rows: otherwise it stops with an error. */
  lemma {:induction false} CommitsAtCurrentPrices(mode: Mode, bill: Id, c: Cart, db: Db, i: nat)
    requires i < |c.lines| && ValidCart(c) && Run(true, Program(mode, CheckoutPlan(bill, c)), db).Ok?
    ensures PriceNow(db, c.shop, c.lines[i])
    ensures Get(db, Branch(c.shop, c.lines[i].product)).BranchV? && Get(db, Branch(c.shop, c.lines[i].product)).isAssigned
  {
    hide Exec, Program, Blocks, CreditBlocks, SortLines, Insertions;
    var p, lines := CheckoutPlan(bill, c), BillLines(c.lines);
    var a, b, e, d := RunPhases(true, mode, p, db);
    PassedChecks(p.pre, db, NO_LOCALS, i);
    PriceCheckError(db, c.shop, c.lines[i]);
    SortLinesFacts(lines);
    assert lines[i] in multiset(lines);
    assert lines[i] in SortLines(lines);
    var j :| 0 <= j < |SortLines(lines)| && SortLines(lines)[j] == lines[i];
    MovesAreListed(mode, p.moves, a.0, a.1, j);
  }

  /** One of the price checks fails, so the transaction stops with the error of a changed price. */
  lemma {:induction false} StalePriceStops(shop: Id, ls: seq<CartLine>, db: Db, l: Locals, i: nat)
    requires i < |ls| && !PriceNow(db, shop, ls[i])
    ensures Exec(true, PriceChecks(shop, ls), db, l) == Err(PriceChanged)
    decreases |ls|
  {
    hide PriceNow, Holds;
    var front, last := ls[..|ls| - 1], ls[|ls| - 1];
    assert PriceChecks(shop, ls) == PriceChecks(shop, front) + [Check(Branch(shop, last.product), PriceIs(last.sellingPrice, last.unitPrice))];
    ExecStep(true, PriceChecks(shop, front), Check(Branch(shop, last.product), PriceIs(last.sellingPrice, last.unitPrice)), db, l);
    PriceCheckError(db, shop, last);
    if i < |front| {
      StalePriceStops(shop, front, db, l, i);
    } else {
      PriceChecksOutcome(shop, front, db, l);
    }
  }

  lemma {:induction false} PriceCheckError(db: Db, shop: Id, l: CartLine)
    ensures var r := Holds(PriceIs(l.sellingPrice, l.unitPrice), Get(db, Branch(shop, l.product)));
            if PriceNow(db, shop, l) then r.Ok? else r == Err(PriceChanged)
  {
    var v := Get(db, Branch(shop, l.product));
    PaiseOfRupees(if v.BranchV? && v.priceOverride.Some? then v.priceOverride.value else l.sellingPrice);
  }

  lemma {:induction false} PriceChecksOutcome(shop: Id, ls: seq<CartLine>, db: Db, l: Locals)
    ensures Exec(true, PriceChecks(shop, ls), db, l) in {Ok((db, l)), Err(PriceChanged)}
    decreases |ls|
  {
    hide PriceNow, Holds;
    if ls != [] {
      var front, last := ls[..|ls| - 1], ls[|ls| - 1];
      PriceChecksOutcome(shop, front, db, l);
      PriceCheckError(db, shop, last);
      assert PriceChecks(shop, ls)[..|ls| - 1] == PriceChecks(shop, front);
    }
  }

  /** A checkout whose price of some line is no longer the branch's stops with that error. */
  lemma {:induction false} StaleCheckoutStops(mode: Mode, bill: Id, c: Cart, db: Db, i: nat)
    requires i < |c.lines| && !PriceNow(db, c.shop, c.lines[i])
    ensures Run(true, Program(mode, CheckoutPlan(bill, c)), db) == Err(PriceChanged)
  {
    hide Exec, Blocks, CreditBlocks, SortLines, Insertions, PriceNow, PriceChecks;
    var p := CheckoutPlan(bill, c);
    StalePriceStops(c.shop, c.lines, db, NO_LOCALS, i);
    ExecConcat(true, p.pre, Blocks(mode, p.moves), db, NO_LOCALS);
    ExecConcat(true, p.pre + Blocks(mode, p.moves), p.post, db, NO_LOCALS);
    ExecConcat(true, p.pre + Blocks(mode, p.moves) + p.post, CreditBlocks(p.credits), db, NO_LOCALS);
  }

  lemma {:induction false} MovesAreListed(mode: Mode, ms: seq<Move>, db: Db, l: Locals, i: nat)
    requires Exec(true, Blocks(mode, ms), db, l).Ok? && i < |ms| && !ms[i].allowUnassigned
    ensures Get(db, Branch(ms[i].shop, ms[i].product)).BranchV? && Get(db, Branch(ms[i].shop, ms[i].product)).isAssigned
    decreases |ms|
  {
    hide Exec, Block;
    var front, last := ms[..|ms| - 1], ms[|ms| - 1];
    ExecConcat(true, Blocks(mode, front), Block(mode, last), db, l);
    if i < |front| {
      MovesAreListed(mode, front, db, l, i);
    } else {
      var (d, l') := Exec(true, Blocks(mode, front), db, l).value;
      BlocksRows(mode, front);
      Untouched(true, Blocks(mode, front), db, l, Branch(last.shop, last.product));
      BlockIsListed(mode, last, d, l');
    }
  }

  lemma {:induction false} BlockIsListed(mode: Mode, m: Move, db: Db, l: Locals)
    requires Exec(true, Block(mode, m), db, l).Ok? && !m.allowUnassigned
    ensures Get(db, Branch(m.shop, m.product)).BranchV? && Get(db, Branch(m.shop, m.product)).isAssigned
  {
    var b := Block(mode, m);
    ExecConcat(true, [b[0]], b[1..], db, l);
    assert b == [b[0]] + b[1..];
    ExecOne(true, b[0], db, l);
  }

  // ------------------------------------------------------------- lost races

  lemma {:induction false} FirstRefuses(checks: bool, mode: Mode, p: Plan, db: Db)
    requires |p.pre| == 1 && p.pre[0].Write? && Apply(p.pre[0].op, Get(db, p.pre[0].row), NO_LOCALS).Err?
    ensures Run(checks, Program(mode, p), db) == Err(Apply(p.pre[0].op, Get(db, p.pre[0].row), NO_LOCALS).error)
  {
    hide Exec, Apply, Blocks, CreditBlocks;
    assert p.pre == [p.pre[0]];
    ExecOne(checks, p.pre[0], db, NO_LOCALS);
    ExecConcat(checks, p.pre, Blocks(mode, p.moves), db, NO_LOCALS);
    ExecConcat(checks, p.pre + Blocks(mode, p.moves), p.post, db, NO_LOCALS);
    ExecConcat(checks, p.pre + Blocks(mode, p.moves) + p.post, CreditBlocks(p.credits), db, NO_LOCALS);
  }

  /** The second of two cancellations, or of two reversals, or of two purchases with one id, stops at once, with the error of its kind. */
  lemma {:induction false} SecondStops(checks: bool, mode: Mode, bill: Id, core: BillCore, purchase: Id, shop: Id, cashier: Option<Id>,
                                       items: seq<Item>, actor: Id, db: Db)
    ensures Get(db, BillRow(bill)).BillV? && Get(db, BillRow(bill)).status == CANCELLED ==>
              Run(checks, Program(mode, CancelPlan(bill, core, actor)), db) == Err(AlreadyCancelled)
    ensures Get(db, Purchase(purchase)).PurchaseV? && Get(db, Purchase(purchase)).reversed ==>
              Run(checks, Program(mode, ReversePlan(purchase, shop, cashier, items, actor)), db) == Err(AlreadyReversed)
    ensures Get(db, Purchase(purchase)).PurchaseV? ==>
              Run(checks, Program(mode, ReceivePlan(purchase, shop, cashier, items, actor)), db) == Err(UniqueViolation)
  {
    hide Run, Program, RestoreMoves, RefundMoves, ItemMoves, ProductsOf;
    if Get(db, BillRow(bill)).BillV? && Get(db, BillRow(bill)).status == CANCELLED {
      FirstRefuses(checks, mode, CancelPlan(bill, core, actor), db);
    }
    if Get(db, Purchase(purchase)).PurchaseV? {
      FirstRefuses(checks, mode, ReceivePlan(purchase, shop, cashier, items, actor), db);
      if Get(db, Purchase(purchase)).reversed {
        FirstRefuses(checks, mode, ReversePlan(purchase, shop, cashier, items, actor), db);
      }
    }
  }
}
