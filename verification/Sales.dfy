// One checkout, run alone: when its deductions succeed, and what cancelling it undoes.
module Sales {
  import opened Wrappers
  import opened Ids
  import opened Money
  import opened Tables
  import opened Handlers
  import opened Runs
  import opened Conservation
  import opened Journals

  // ------------------------------------------------------------- net effect of moves

  function MovedAt(mode: Mode, ms: seq<Move>, k: Key): int {
    if ms == [] then 0
    else MovedAt(mode, ms[..|ms| - 1], k) + if KeyOf(mode, ms[|ms| - 1]) == k then ms[|ms| - 1].delta else 0
  }

  function MovedOf(ms: seq<Move>, p: Id): int {
    if ms == [] then 0 else MovedOf(ms[..|ms| - 1], p) + if ms[|ms| - 1].product == p then ms[|ms| - 1].delta else 0
  }

  lemma {:induction false} MovedSnoc(mode: Mode, ms: seq<Move>, m: Move, k: Key, p: Id)
    ensures MovedAt(mode, ms + [m], k) == MovedAt(mode, ms, k) + if KeyOf(mode, m) == k then m.delta else 0
    ensures MovedOf(ms + [m], p) == MovedOf(ms, p) + if m.product == p then m.delta else 0
  {
    assert (ms + [m])[..|ms|] == ms;
  }

  function Stock(db: Db, p: Id): int { if Get(db, Product(p)).ProductV? then Get(db, Product(p)).stock else 0 }

  lemma {:induction false} BlockNet(checks: bool, mode: Mode, m: Move, db: Db, l: Locals, k: Key, p: Id)
    requires Exec(checks, Block(mode, m), db, l).Ok?
    ensures var d := Exec(checks, Block(mode, m), db, l).value.0;
            && Quantity(d, k) == Quantity(db, k) + (if KeyOf(mode, m) == k then m.delta else 0)
            && Stock(d, p) == Stock(db, p) + (if m.product == p then m.delta else 0)
  {
    if m.delta == 0 {
      BlockZero(checks, mode, m, db, l);
    } else {
      BlockEffect(checks, mode, m, db, l);
    }
  }

  lemma {:induction false} BlocksNet(checks: bool, mode: Mode, ms: seq<Move>, db: Db, l: Locals, k: Key, p: Id)
    requires Exec(checks, Blocks(mode, ms), db, l).Ok?
    ensures var d := Exec(checks, Blocks(mode, ms), db, l).value.0;
            && Quantity(d, k) == Quantity(db, k) + MovedAt(mode, ms, k)
            && Stock(d, p) == Stock(db, p) + MovedOf(ms, p)
    decreases |ms|
  {
    if ms != [] {
      var front := ms[..|ms| - 1];
      ExecConcat(checks, Blocks(mode, front), Block(mode, ms[|ms| - 1]), db, l);
      BlocksNet(checks, mode, front, db, l, k, p);
      var (d, l') := Exec(checks, Blocks(mode, front), db, l).value;
      BlockNet(checks, mode, ms[|ms| - 1], d, l', k, p);
    }
  }

  function SaleKey(mode: Mode, shop: Id, cashier: Id, p: Id): Key {
    Key(shop, if mode == BRANCH then None else Some(cashier), p)
  }

  lemma {:induction false} SaleMoved(mode: Mode, c: Cart, ls: seq<Line>, k: Key, p: Id)
    ensures MovedAt(mode, SaleMoves(c, ls), k) ==
            if k == SaleKey(mode, c.shop, c.cashier, k.product) then -LineQty(ls, k.product) else 0
    ensures MovedOf(SaleMoves(c, ls), p) == -LineQty(ls, p)
    decreases |ls|
  {
    if ls != [] {
      SaleMoved(mode, c, ls[..|ls| - 1], k, p);
      assert SaleMoves(c, ls)[..|ls| - 1] == SaleMoves(c, ls[..|ls| - 1]);
    }
  }

  function QtyIn(ls: seq<Line>, ids: seq<Id>, p: Id): int { if p in ids then LineQty(ls, p) else 0 }

  lemma {:induction false} NothingMoved(mode: Mode, k: Key, p: Id)
    ensures MovedAt(mode, [], k) == 0 && MovedOf([], p) == 0
  {
  }

  lemma {:induction false} RestoreMoved(mode: Mode, bill: Id, core: BillCore, actor: Id, ids: seq<Id>, k: Key, p: Id)
    requires Ascending(ids)
    ensures MovedAt(mode, RestoreMoves(bill, core, actor, ids), k) ==
            if k == SaleKey(mode, core.shop, core.cashier, k.product) then QtyIn(core.lines, ids, k.product) else 0
    ensures MovedOf(RestoreMoves(bill, core, actor, ids), p) == QtyIn(core.lines, ids, p)
    decreases |ids|
  {
    hide LineQty, Less, MovedAt, MovedOf;
    if ids == [] {
      NothingMoved(mode, k, p);
      assert RestoreMoves(bill, core, actor, ids) == [];
    } else {
      var front := ids[..|ids| - 1];
      var last := ids[|ids| - 1];
      RestoreMoved(mode, bill, core, actor, front, k, p);
      assert RestoreMoves(bill, core, actor, ids) ==
             RestoreMoves(bill, core, actor, front) + [RestoreMove(bill, core, actor, last)];
      MovedSnoc(mode, RestoreMoves(bill, core, actor, front), RestoreMove(bill, core, actor, last), k, p);
      assert ids == front + [last];
      if last in front {
        var i :| 0 <= i < |front| && front[i] == last;
        LessIrreflexive(ids[i]);
      }
    }
  }

  lemma {:induction false} RestoreMovedAll(mode: Mode, bill: Id, core: BillCore, actor: Id, k: Key, p: Id)
    ensures var ms := RestoreMoves(bill, core, actor, ProductsOf(core.lines));
            && MovedAt(mode, ms, k) ==
               (if k == SaleKey(mode, core.shop, core.cashier, k.product) then LineQty(core.lines, k.product) else 0)
            && MovedOf(ms, p) == LineQty(core.lines, p)
  {
    ProductsOfFacts(core.lines);
    RestoreMoved(mode, bill, core, actor, ProductsOf(core.lines), k, p);
    if k.product !in ProductsOf(core.lines) {
      NoLineNoQty(core.lines, k.product);
    }
    if p !in ProductsOf(core.lines) {
      NoLineNoQty(core.lines, p);
    }
  }

  // --------------------------------------------------------------- credit, run alone

  function Balance(db: Db, c: Id): int { if Get(db, Customer(c)).CustomerV? then Get(db, Customer(c)).balance else 0 }

  lemma {:induction false} ChargeNet(checks: bool, c: CreditMove, db: Db, l: Locals, x: Id)
    requires c.ChargeMove? && c.amount > 0.0
    requires Exec(checks, CreditBlock(c), db, l).Ok? && Balance(db, c.customer) >= 0
    ensures var d := Exec(checks, CreditBlock(c), db, l).value.0;
            && Balance(d, x) == Balance(db, x) + (if x == c.customer then Paise(c.amount) else 0)
            && Paise(c.amount) >= 0
  {
    CreditEffect(checks, c, db, l);
    CreditStepOk(c, Get(db, Customer(c.customer)), l);
    RoundingError(c.amount);
  }

  lemma {:induction false} ChargesNet(checks: bool, cs: seq<CreditMove>, ts: seq<Tender>, customer: Id, shop: Id, bill: Id, db: Db, l: Locals, x: Id)
    requires |cs| == |ts| && forall i :: 0 <= i < |cs| ==> cs[i] == ChargeMove(customer, shop, bill, ts[i].amount)
    requires forall i :: 0 <= i < |ts| ==> ts[i].amount > 0.0
    requires Exec(checks, CreditBlocks(cs), db, l).Ok? && Balance(db, customer) >= 0
    ensures var d := Exec(checks, CreditBlocks(cs), db, l).value.0;
            && Balance(d, x) == Balance(db, x) + (if x == customer then Sum(PaiseOf(ts)) else 0)
            && Balance(d, customer) >= 0
    decreases |cs|
  {
    hide Exec, CreditBlock;
    NoCredits(checks, db, l);
    if cs != [] {
      var front := cs[..|cs| - 1];
      var last := cs[|cs| - 1];
      ExecConcat(checks, CreditBlocks(front), CreditBlock(last), db, l);
      ChargesNet(checks, front, ts[..|ts| - 1], customer, shop, bill, db, l, x);
      assert PaiseOf(ts)[..|ts| - 1] == PaiseOf(ts[..|ts| - 1]);
      var (d, l') := Exec(checks, CreditBlocks(front), db, l).value;
      ChargeNet(checks, last, d, l', x);
      ChargeNet(checks, last, d, l', customer);
    }
  }

  lemma {:induction false} NoCredits(checks: bool, db: Db, l: Locals)
    ensures Exec(checks, CreditBlocks([]), db, l) == Ok((db, l))
  {
  }

  lemma {:induction false} OneCredit(c: CreditMove)
    ensures CreditBlocks([c]) == CreditBlock(c)
  {
    assert [c][..0] == [];
    assert CreditBlocks([]) == [];
  }

  lemma {:induction false} NoCharges()
    ensures Sum([]) == 0
  {
  }

  /** A refund takes its amount off the customer's balance. */
  lemma {:induction false} RefundEffect(checks: bool, customer: Id, bill: Id, paise: int, db: Db, l: Locals, x: Id)
    requires Exec(checks, CreditBlock(RefundMove(customer, bill, paise)), db, l).Ok?
    ensures Balance(Exec(checks, CreditBlock(RefundMove(customer, bill, paise)), db, l).value.0, x) ==
            Balance(db, x) - (if x == customer then paise else 0)
  {
    hide Exec;
    CreditEffect(checks, RefundMove(customer, bill, paise), db, l);
  }

  lemma {:induction false} RefundNet(checks: bool, bill: Id, core: BillCore, db: Db, l: Locals, x: Id)
    requires Exec(checks, CreditBlocks(RefundMoves(bill, core)), db, l).Ok? && ChargesOk(core)
    ensures Balance(Exec(checks, CreditBlocks(RefundMoves(bill, core)), db, l).value.0, x) ==
            Balance(db, x) - (if Some(x) == core.customer then Sum(core.charges) else 0)
  {
    hide Exec, CreditBlock, CreditBlocks, Sum;
    SumNonNeg(core.charges);
    NoCharges();
    var cs := RefundMoves(bill, core);
    NoCredits(checks, db, l);
    if cs != [] {
      OneCredit(cs[0]);
      assert cs == [cs[0]];
      RefundEffect(checks, core.customer.value, bill, Sum(core.charges), db, l, x);
    }
  }

  // ------------------------------------------------------- checkout, then cancellation

  /** The quantity, aggregate and balance a row shows. */
  ghost predicate SameBooks(a: Db, b: Db) {
    && (forall k :: Quantity(a, k) == Quantity(b, k))
    && (forall p :: Stock(a, p) == Stock(b, p))
    && (forall x :: Balance(a, x) == Balance(b, x))
  }

  lemma {:induction false} CheckoutBill(mode: Mode, bill: Id, c: Cart, db: Db)
    requires Run(false, Program(mode, CheckoutPlan(bill, c)), db).Ok?
    ensures var d := Run(false, Program(mode, CheckoutPlan(bill, c)), db).value.0;
            && Get(d, BillRow(bill)).BillV? && Get(d, BillRow(bill)).status == PAID
            && Get(d, BillRow(bill)).core.(seq_ := 0) == CoreOf(c)
  {
    var plan := CheckoutPlan(bill, c);
    var a, b, e, d := RunPhases(false, mode, plan, db);
    CreditRows(plan.credits);
    InsertionsEffect(false, bill, c, b.0, b.1);
    Untouched(false, CreditBlocks(plan.credits), e.0, e.1, BillRow(bill));
  }

  lemma {:induction false} CheckoutStockNet(mode: Mode, bill: Id, c: Cart, db: Db, k: Key, p: Id)
    requires Run(false, Program(mode, CheckoutPlan(bill, c)), db).Ok?
    ensures var d := Run(false, Program(mode, CheckoutPlan(bill, c)), db).value.0;
            && Quantity(d, k) == Quantity(db, k) -
                 (if k == SaleKey(mode, c.shop, c.cashier, k.product) then LineQty(BillLines(c.lines), k.product) else 0)
            && Stock(d, p) == Stock(db, p) - LineQty(BillLines(c.lines), p)
  {
    hide Exec, Program, Run, Blocks, CreditBlocks, LineQty;
    var plan := CheckoutPlan(bill, c);
    var a, b, e, d := RunPhases(false, mode, plan, db);
    var ls := SortLines(BillLines(c.lines));
    assert Written(plan.pre) == {};
    InsertionsRows(bill, c);
    CreditRows(plan.credits);
    BlocksNet(false, mode, plan.moves, a.0, a.1, k, p);
    SaleMoved(mode, c, ls, k, p);
    SortLinesQty(BillLines(c.lines), k.product);
    SortLinesQty(BillLines(c.lines), p);
    StockFramed(plan.pre, db, NO_LOCALS, k, p);
    StockFramed(plan.post, b.0, b.1, k, p);
    StockFramed(CreditBlocks(plan.credits), e.0, e.1, k, p);
  }

  lemma {:induction false} CheckoutBalance(mode: Mode, bill: Id, c: Cart, db: Db, x: Id)
    requires Run(false, Program(mode, CheckoutPlan(bill, c)), db).Ok? && ValidCart(c)
    requires c.customer.Some? ==> Balance(db, c.customer.value) >= 0
    ensures Balance(Run(false, Program(mode, CheckoutPlan(bill, c)), db).value.0, x) ==
            Balance(db, x) + (if Some(x) == c.customer then Sum(CoreOf(c).charges) else 0)
  {
    var a, b, e, d := RunPhases(false, mode, CheckoutPlan(bill, c), db);
    BeforeCredit(mode, bill, c, db, a, b, e, d, x);
    CheckoutCredit(bill, c, db, a, b, e, d, mode, x);
  }

  /** Nothing before the charges touches a balance. */
  lemma {:induction false} BeforeCredit(mode: Mode, bill: Id, c: Cart, db: Db, a: (Db, Locals), b: (Db, Locals), e: (Db, Locals), d: (Db, Locals), x: Id)
    requires Phases(false, mode, CheckoutPlan(bill, c), db, a, b, e, d)
    ensures Balance(e.0, x) == Balance(db, x)
  {
    hide Exec, Blocks, Insertions, SortLines;
    var plan := CheckoutPlan(bill, c);
    assert Written(plan.pre) == {};
    InsertionsRows(bill, c);
    BlocksRows(mode, plan.moves);
    CreditFramed(plan.pre, db, NO_LOCALS, x);
    CreditFramed(Blocks(mode, plan.moves), a.0, a.1, x);
    CreditFramed(plan.post, b.0, b.1, x);
  }

  lemma {:induction false} CheckoutCredit(bill: Id, c: Cart, db: Db, a: (Db, Locals), b: (Db, Locals), e: (Db, Locals), d: (Db, Locals), mode: Mode, x: Id)
    requires Phases(false, mode, CheckoutPlan(bill, c), db, a, b, e, d) && ValidCart(c)
    requires c.customer.Some? ==> Balance(db, c.customer.value) >= 0
    ensures Balance(d.0, x) == Balance(e.0, x) + (if Some(x) == c.customer then Sum(CoreOf(c).charges) else 0)
  {
    CreditTendersPositive(c.tenders);
    if c.customer.Some? {
      BeforeCredit(mode, bill, c, db, a, b, e, d, c.customer.value);
      ChargesNet(false, CheckoutPlan(bill, c).credits, CreditTenders(c.tenders), c.customer.value, c.shop, bill, e.0, e.1, x);
    }
  }

  lemma {:induction false} StockFramed(p: seq<Stmt>, db: Db, l: Locals, k: Key, q: Id)
    requires Exec(false, p, db, l).Ok? && forall r | r in Written(p) :: !StockRow(r)
    ensures Quantity(Exec(false, p, db, l).value.0, k) == Quantity(db, k)
    ensures Stock(Exec(false, p, db, l).value.0, q) == Stock(db, q)
  {
    Untouched(false, p, db, l, Inventory(k));
    Untouched(false, p, db, l, Product(q));
  }

  lemma {:induction false} CreditFramed(p: seq<Stmt>, db: Db, l: Locals, x: Id)
    requires Exec(false, p, db, l).Ok? && forall r | r in Written(p) :: !CreditRow(r)
    ensures Balance(Exec(false, p, db, l).value.0, x) == Balance(db, x)
  {
    Untouched(false, p, db, l, Customer(x));
  }

  lemma {:induction false} Framed(p: seq<Stmt>, db: Db, l: Locals, k: Key, q: Id, x: Id)
    requires Exec(false, p, db, l).Ok? && forall r | r in Written(p) :: !StockRow(r) && !CreditRow(r)
    ensures var d := Exec(false, p, db, l).value.0;
            Quantity(d, k) == Quantity(db, k) && Stock(d, q) == Stock(db, q) && Balance(d, x) == Balance(db, x)
  {
    StockFramed(p, db, l, k, q);
    CreditFramed(p, db, l, x);
  }

  lemma {:induction false} CancelNet(mode: Mode, bill: Id, core: BillCore, actor: Id, db: Db, k: Key, p: Id, x: Id)
    requires Run(false, Program(mode, CancelPlan(bill, core, actor)), db).Ok? && ChargesOk(core)
    ensures var d := Run(false, Program(mode, CancelPlan(bill, core, actor)), db).value.0;
            && Quantity(d, k) == Quantity(db, k) +
                 (if k == SaleKey(mode, core.shop, core.cashier, k.product) then LineQty(core.lines, k.product) else 0)
            && Stock(d, p) == Stock(db, p) + LineQty(core.lines, p)
            && Balance(d, x) == Balance(db, x) - (if Some(x) == core.customer then Sum(core.charges) else 0)
  {
    var plan := CancelPlan(bill, core, actor);
    var a, b, e, d := RunPhases(false, mode, plan, db);
    BlocksRows(mode, plan.moves);
    CreditRows(plan.credits);
    BlocksNet(false, mode, plan.moves, a.0, a.1, k, p);
    RestoreMovedAll(mode, bill, core, actor, k, p);
    assert Written(plan.pre) == {BillRow(bill)} by {
      assert plan.pre[0].row in Written(plan.pre);
    }
    Framed(plan.pre, db, NO_LOCALS, k, p, x);
    StockFramed(CreditBlocks(plan.credits), e.0, e.1, k, p);
    CreditFramed(Blocks(mode, plan.moves), a.0, a.1, x);
    RefundNet(false, bill, core, e.0, e.1, x);
  }

  /**
   * Cancelling a bill right after its checkout restores every stock quantity,
   * every aggregate and every customer balance, although checkout deducts line
   * by line in sorted order and cancellation restores merged quantities.
   */
  lemma {:induction false} CheckoutThenCancel(mode: Mode, bill: Id, c: Cart, actor: Id, db: Db)
    requires ValidCart(c) && (c.customer.Some? ==> Balance(db, c.customer.value) >= 0)
    requires Run(false, Program(mode, CheckoutPlan(bill, c)), db).Ok?
    ensures var sold := Run(false, Program(mode, CheckoutPlan(bill, c)), db).value.0;
            && Get(sold, BillRow(bill)).BillV?
            && var undo := Run(false, Program(mode, CancelPlan(bill, Get(sold, BillRow(bill)).core, actor)), sold);
               undo.Ok? ==> SameBooks(undo.value.0, db)
  {
    var sold := Run(false, Program(mode, CheckoutPlan(bill, c)), db).value.0;
    CheckoutBill(mode, bill, c, db);
    var core := Get(sold, BillRow(bill)).core;
    CartChargesOk(c);
    assert core == CoreOf(c).(seq_ := core.seq_);
    var undo := Run(false, Program(mode, CancelPlan(bill, core, actor)), sold);
    if undo.Ok? {
      forall k ensures Quantity(undo.value.0, k) == Quantity(db, k) {
        CheckoutStockNet(mode, bill, c, db, k, "");
        CancelNet(mode, bill, core, actor, sold, k, "", "");
      }
      forall p ensures Stock(undo.value.0, p) == Stock(db, p) {
        CheckoutStockNet(mode, bill, c, db, Key("", None, ""), p);
        CancelNet(mode, bill, core, actor, sold, Key("", None, ""), p, "");
      }
      forall x ensures Balance(undo.value.0, x) == Balance(db, x) {
        CheckoutBalance(mode, bill, c, db, x);
        CancelNet(mode, bill, core, actor, sold, Key("", None, ""), "", x);
      }
    }
  }

  // ------------------------------------------------------------ pre-check = authority

  /** Stock and log rows hold what their tables hold. */
  ghost predicate StockTyped(db: Db) {
    forall k :: (Get(db, Inventory(k)).Absent? || Get(db, Inventory(k)).Num?) && (Get(db, Log(k)).Absent? || Get(db, Log(k)).LogV?)
  }

  /** The product is listed at the branch and has its catalogue row. */
  predicate Sellable(db: Db, shop: Id, p: Id) {
    Get(db, Branch(shop, p)).BranchV? && Get(db, Branch(shop, p)).isAssigned && Get(db, Product(p)).ProductV?
  }

  /** When one deduction succeeds: exactly when the row holds enough. */
  lemma {:induction false} BlockSucceeds(mode: Mode, m: Move, db: Db, l: Locals)
    requires Keyed(mode, m) && m.delta < 0 && !m.allowUnassigned
    requires StockTyped(db) && Sellable(db, m.shop, m.product)
    requires Quantity(db, KeyOf(mode, m)) >= 0
    ensures Exec(true, Block(mode, m), db, l).Ok? <==> Quantity(db, KeyOf(mode, m)) >= -m.delta
    ensures Exec(true, Block(mode, m), db, l).Err? ==> Exec(true, Block(mode, m), db, l) == Err(InsufficientStock)
  {
    var b := Block(mode, m);
    assert b == [b[0]] + [b[1]] + [b[2]] + [b[3]] + [b[4]];
    ExecStep(true, [], b[0], db, l);
    assert [] + [b[0]] == [b[0]];
    ExecStep(true, [b[0]], b[1], db, l);
    ExecStep(true, [b[0]] + [b[1]], b[2], db, l);
    ExecStep(true, [b[0]] + [b[1]] + [b[2]], b[3], db, l);
    ExecStep(true, [b[0]] + [b[1]] + [b[2]] + [b[3]], b[4], db, l);
  }

  /** When stock comes in: whenever the product is sold at the branch. */
  lemma {:induction false} DeliveryAccepted(mode: Mode, m: Move, db: Db, l: Locals)
    requires Keyed(mode, m) && m.delta > 0 && StockTyped(db) && Sellable(db, m.shop, m.product)
    ensures Exec(true, Block(mode, m), db, l).Ok?
  {
    var b := Block(mode, m);
    assert b == [b[0]] + [b[1]] + [b[2]] + [b[3]] + [b[4]];
    ExecOne(true, b[0], db, l);
    ExecStep(true, [b[0]], b[1], db, l);
    ExecStep(true, [b[0]] + [b[1]], b[2], db, l);
    ExecStep(true, [b[0]] + [b[1]] + [b[2]], b[3], db, l);
    ExecStep(true, [b[0]] + [b[1]] + [b[2]] + [b[3]], b[4], db, l);
  }

  /** The lines' merged quantity of one product is in stock. */
  predicate EnoughOf(mode: Mode, c: Cart, ls: seq<Line>, db: Db, p: Id) {
    LineQty(ls, p) <= Quantity(db, SaleKey(mode, c.shop, c.cashier, p))
  }

  predicate Enough(mode: Mode, c: Cart, ls: seq<Line>, db: Db) {
    forall i | 0 <= i < |ls| :: EnoughOf(mode, c, ls, db, ls[i].product)
  }

  lemma {:induction false} BlocksStockTyped(mode: Mode, m: Move, db: Db, l: Locals)
    requires Exec(true, Block(mode, m), db, l).Ok? && StockTyped(db)
    ensures StockTyped(Exec(true, Block(mode, m), db, l).value.0)
    ensures forall s, p :: Sellable(Exec(true, Block(mode, m), db, l).value.0, s, p) == Sellable(db, s, p)
  {
    if m.delta == 0 {
      BlockZero(true, mode, m, db, l);
    } else {
      BlockEffect(true, mode, m, db, l);
    }
  }

  lemma {:induction false} SaleKeepsTypes(mode: Mode, ms: seq<Move>, db: Db, l: Locals)
    requires Exec(true, Blocks(mode, ms), db, l).Ok? && StockTyped(db)
    ensures StockTyped(Exec(true, Blocks(mode, ms), db, l).value.0)
    ensures forall s, p :: Sellable(Exec(true, Blocks(mode, ms), db, l).value.0, s, p) == Sellable(db, s, p)
    decreases |ms|
  {
    if ms != [] {
      var front := ms[..|ms| - 1];
      ExecConcat(true, Blocks(mode, front), Block(mode, ms[|ms| - 1]), db, l);
      SaleKeepsTypes(mode, front, db, l);
      var (d, l') := Exec(true, Blocks(mode, front), db, l).value;
      BlocksStockTyped(mode, ms[|ms| - 1], d, l');
    }
  }

  lemma {:induction false} FrontQty(ls: seq<Line>, p: Id)
    requires ls != [] && ls[|ls| - 1].quantity > 0
    ensures LineQty(ls[..|ls| - 1], p) <= LineQty(ls, p)
  {
  }

  /**
   * For positive lines of products sold here, deducting line by line succeeds
   * exactly when each product's merged quantity is in stock, in either
   * inventory mode and with repeated products; the only error is a shortage.
   */
  lemma {:induction false} DeductionsSucceed(mode: Mode, c: Cart, ls: seq<Line>, db: Db, l: Locals)
    requires forall i | 0 <= i < |ls| :: ls[i].quantity > 0 && Sellable(db, c.shop, ls[i].product)
    requires StockTyped(db) && forall k :: Quantity(db, k) >= 0
    ensures Exec(true, Blocks(mode, SaleMoves(c, ls)), db, l).Ok? <==> Enough(mode, c, ls, db)
    ensures Exec(true, Blocks(mode, SaleMoves(c, ls)), db, l).Err? ==>
              Exec(true, Blocks(mode, SaleMoves(c, ls)), db, l) == Err(InsufficientStock)
    decreases |ls|
  {
    if ls != [] {
      var front := ls[..|ls| - 1];
      var last := ls[|ls| - 1];
      var m := SaleMove(c, last);
      var key := SaleKey(mode, c.shop, c.cashier, last.product);
      assert SaleMoves(c, ls)[..|ls| - 1] == SaleMoves(c, front);
      ExecConcat(true, Blocks(mode, SaleMoves(c, front)), Block(mode, m), db, l);
      DeductionsSucceed(mode, c, front, db, l);
      EnoughSplit(mode, c, ls, db);
      if Exec(true, Blocks(mode, SaleMoves(c, front)), db, l).Ok? {
        var (d, l') := Exec(true, Blocks(mode, SaleMoves(c, front)), db, l).value;
        SaleKeepsTypes(mode, SaleMoves(c, front), db, l);
        BlocksNet(true, mode, SaleMoves(c, front), db, l, key, "");
        SaleMoved(mode, c, front, key, "");
        assert Quantity(d, key) == Quantity(db, key) - LineQty(front, last.product);
        FrontEnough(mode, c, front, db, last.product);
        BlockSucceeds(mode, m, d, l');
      }
    }
  }

  lemma {:induction false} FrontEnough(mode: Mode, c: Cart, front: seq<Line>, db: Db, p: Id)
    requires Enough(mode, c, front, db) && forall k :: Quantity(db, k) >= 0
    ensures LineQty(front, p) <= Quantity(db, SaleKey(mode, c.shop, c.cashier, p))
  {
    if i :| 0 <= i < |front| && front[i].product == p {
      assert EnoughOf(mode, c, front, db, front[i].product);
    } else {
      NoLineNoQty(front, p);
    }
  }

  lemma {:induction false} EnoughSplit(mode: Mode, c: Cart, ls: seq<Line>, db: Db)
    requires ls != [] && forall i | 0 <= i < |ls| :: ls[i].quantity > 0
    ensures Enough(mode, c, ls, db) <==>
            Enough(mode, c, ls[..|ls| - 1], db) && EnoughOf(mode, c, ls, db, ls[|ls| - 1].product)
  {
    var front := ls[..|ls| - 1];
    var last := ls[|ls| - 1];
    if Enough(mode, c, ls, db) {
      forall i | 0 <= i < |front| ensures EnoughOf(mode, c, front, db, front[i].product) {
        assert EnoughOf(mode, c, ls, db, ls[i].product);
        FrontQty(ls, front[i].product);
      }
      assert EnoughOf(mode, c, ls, db, ls[|ls| - 1].product);
    }
    if Enough(mode, c, front, db) && EnoughOf(mode, c, ls, db, last.product) {
      forall i | 0 <= i < |ls| ensures EnoughOf(mode, c, ls, db, ls[i].product) {
        if ls[i].product != last.product {
          assert EnoughOf(mode, c, front, db, front[i].product);
        }
      }
    }
  }

  lemma {:induction false} EnoughSame(mode: Mode, c: Cart, a: seq<Line>, b: seq<Line>, db: Db)
    requires Enough(mode, c, a, db) && multiset(a) == multiset(b)
    requires forall p :: LineQty(a, p) == LineQty(b, p)
    ensures Enough(mode, c, b, db)
  {
    forall i | 0 <= i < |b| ensures EnoughOf(mode, c, b, db, b[i].product) {
      assert b[i] in multiset(b);
      assert b[i] in a;
      var j :| 0 <= j < |a| && a[j] == b[i];
      assert EnoughOf(mode, c, a, db, a[j].product);
    }
  }

  /** Sorting the cart does not change whether it is in stock. */
  lemma {:induction false} EnoughSorted(mode: Mode, c: Cart, ls: seq<Line>, db: Db)
    ensures Enough(mode, c, SortLines(ls), db) <==> Enough(mode, c, ls, db)
  {
    SortLinesFacts(ls);
    forall p ensures LineQty(SortLines(ls), p) == LineQty(ls, p) {
      SortLinesQty(ls, p);
    }
    if Enough(mode, c, ls, db) {
      EnoughSame(mode, c, ls, SortLines(ls), db);
    }
    if Enough(mode, c, SortLines(ls), db) {
      EnoughSame(mode, c, SortLines(ls), ls, db);
    }
  }

  /** The pre-check passes exactly when the sorted per-line deductions would. */
  lemma {:induction false} PreCheckExact(mode: Mode, c: Cart, db: Db)
    requires forall i | 0 <= i < |c.lines| :: c.lines[i].quantity > 0 && Sellable(db, c.shop, c.lines[i].product)
    requires StockTyped(db) && forall k :: Quantity(db, k) >= 0
    ensures Run(true, Blocks(mode, SaleMoves(c, SortLines(BillLines(c.lines)))), db).Ok? <==>
            Enough(mode, c, BillLines(c.lines), db)
  {
    var ls := BillLines(c.lines);
    SortLinesFacts(ls);
    var st := SortLines(ls);
    forall i | 0 <= i < |st| ensures st[i].quantity > 0 && Sellable(db, c.shop, st[i].product) {
      assert st[i] in multiset(st);
      assert st[i] in ls;
    }
    EnoughSorted(mode, c, ls, db);
    DeductionsSucceed(mode, c, st, db, NO_LOCALS);
  }
}
