// What every reachable database is fit for: rows hold values of their kind and
// every bill's products are known at its branch, so the exact outcomes proved
// for a cancellation or checkout hold at the end of every run.
module Reachable {
  import opened Wrappers
  import opened Ids
  import opened Tables
  import opened Handlers
  import opened Engine
  import opened Runs
  import opened Conservation
  import opened Journals
  import opened Sales
  import opened Cancellations
  import opened Guarantees
  import opened LockOrder
  import opened Purchases
  import opened Checkouts

  // ------------------------------------------------------------ rows of their kind

  predicate Fits(r: Row, v: Value) {
    v.Absent? ||
    match r
    case BillRow(_) => v.BillV?
    case Inventory(_) => v.Num?
    case Product(_) => v.ProductV?
    case Log(_) => v.LogV?
    case Counter(_, _) => v.Num?
    case IdemKey(_, _) => v.KeyV?
    case Customer(_) => v.CustomerV?
    case Ledger(_) => v.LedgerV?
    case Purchase(_) => v.PurchaseV?
    case Branch(_, _) => v.BranchV?
    case Session(_, _) => v.SessionV?
  }

  ghost predicate WellTyped(db: Db) { forall r :: Fits(r, Get(db, r)) }

  /** Each statement is addressed to a row of the kind it changes. */
  predicate StmtFits(x: Stmt) {
    x.Write? ==>
      match x.op
      case Ensure => x.row.Inventory?
      case Take(_) => x.row.Inventory?
      case Give(_) => x.row.Inventory?
      case AddStock(_) => x.row.Product?
      case Record(_, _, _, _, _) => x.row.Log?
      case NextSeq => x.row.Counter?
      case InsertKey(_) => x.row.IdemKey?
      case InsertBill(_) => x.row.BillRow?
      case Claim => x.row.BillRow?
      case Charge(_, _) => x.row.Customer?
      case Refund(_) => x.row.Customer?
      case Collect(_, _) => x.row.Customer?
      case Post(_) => x.row.Ledger?
      case InsertPurchase(_, _) => x.row.Purchase?
      case MarkReversed => x.row.Purchase?
      case Assign(_) => x.row.Branch?
      case SetOverride(_) => x.row.Branch?
  }

  ghost predicate AllFit(p: seq<Stmt>) { forall x | x in p :: StmtFits(x) }

  lemma {:induction false} StmtKeepsTypes(x: Stmt, db: Db, l: Locals)
    requires StmtFits(x) && WellTyped(db) && ExecStmt(false, x, db, l).Ok?
    ensures WellTyped(ExecStmt(false, x, db, l).value.0)
  {
    if x.Write? {
      assert Fits(x.row, Get(db, x.row));
      assert Fits(x.row, Apply(x.op, Get(db, x.row), l).value.0);
    }
  }

  lemma {:induction false} ExecKeepsTypes(p: seq<Stmt>, db: Db, l: Locals)
    requires AllFit(p) && WellTyped(db) && Exec(false, p, db, l).Ok?
    ensures WellTyped(Exec(false, p, db, l).value.0)
    decreases |p|
  {
    hide ExecStmt, WellTyped, StmtFits;
    if p != [] {
      var front := p[..|p| - 1];
      ExecKeepsTypes(front, db, l);
      var (d, l') := Exec(false, front, db, l).value;
      StmtKeepsTypes(p[|p| - 1], d, l');
    }
  }

  lemma {:induction false} BlocksFit(mode: Mode, ms: seq<Move>)
    ensures AllFit(Blocks(mode, ms))
    decreases |ms|
  {
    if ms != [] {
      BlocksFit(mode, ms[..|ms| - 1]);
    }
  }

  lemma {:induction false} CreditsFit(cs: seq<CreditMove>)
    ensures AllFit(CreditBlocks(cs))
    decreases |cs|
  {
    if cs != [] {
      CreditsFit(cs[..|cs| - 1]);
    }
  }

  lemma {:induction false} PlanFits(subject: Value, q: Request)
    requires PlanOf(subject, q).Some?
    ensures var p := PlanOf(subject, q).value; AllFit(p.pre) && AllFit(p.post)
  {
    hide ItemMoves, SortLines, CoreOf;
  }

  /** Every request's transaction leaves each row with a value of its kind. */
  lemma {:induction false} TypesKept(mode: Mode, db: Db, q: Request)
    requires PlanIn(db, q).Some? && Run(false, Program(mode, PlanIn(db, q).value), db).Ok?
    requires WellTyped(db)
    ensures WellTyped(Run(false, Program(mode, PlanIn(db, q).value), db).value.0)
  {
    hide Exec, PlanOf, Blocks, CreditBlocks, WellTyped, StmtFits;
    var p := PlanIn(db, q).value;
    PlanFits(if Subject(q).Some? then Get(db, Subject(q).value) else Absent, q);
    BlocksFit(mode, p.moves);
    CreditsFit(p.credits);
    ExecKeepsTypes(Program(mode, p), db, NO_LOCALS);
  }

  /** What the handlers expect of the rows they read. */
  lemma {:induction false} WellTypedIsTyped(db: Db)
    requires WellTyped(db)
    ensures Typed(db)
  {
    forall k: Key ensures Fits(Inventory(k), Get(db, Inventory(k))) && Fits(Log(k), Get(db, Log(k))) {
    }
    forall s, y ensures Fits(Counter(s, y), Get(db, Counter(s, y))) {
    }
    forall c ensures Fits(Ledger(c), Get(db, Ledger(c))) {
    }
    forall s, k ensures Fits(IdemKey(s, k), Get(db, IdemKey(s, k))) {
    }
  }

  // ------------------------------------------------- the listings a checkout has seen

  ghost predicate ListingThere(x: Stmt, base: Db) {
    x.Check? && x.cond.Listed? && x.row.Branch? ==> Get(base, x.row).BranchV?
  }

  /** Every listing check that a running checkout has passed found a committed listing row. */
  ghost predicate ListingsSeen(s: State, base: Db) {
    forall t, x | t in s.txs && s.txs[t].request.Checkout? && s.txs[t].pc <= |s.txs[t].program| && x in Done(s.txs[t]) ::
      ListingThere(x, base)
  }

  lemma {:induction false} ListingStays(x: Stmt, base: Db, base': Db)
    requires ListingThere(x, base) && Extends(base, base')
    ensures ListingThere(x, base')
  {
    if x.Check? {
      assert Keeps(Get(base, x.row), Get(base', x.row));
    }
  }

  /** A checkout that passes a listing check saw the committed row: it never writes one itself. */
  lemma {:induction false} CheckSeesListing(mode: Mode, s: State, t: TxId, base: Db)
    requires RunOk(mode, s, base) && t in s.txs && s.txs[t].request.Checkout?
    requires s.txs[t].pc < |s.txs[t].program| && Next(mode, s, Advance(t)).Some?
    ensures ListingThere(s.txs[t].program[s.txs[t].pc], base)
  {
    hide Exec, Program, CheckoutPlan;
    var tx := s.txs[t];
    var x := tx.program[tx.pc];
    if x.Check? && x.cond.Listed? && x.row.Branch? {
      assert TxOk(s, t, base);
      assert Planned(mode, base, tx.request, tx.program);
      RequestRows(mode, Absent, tx.request);
      if Owns(s, t, x.row) {
        DoneRows(tx, x.row);
      }
      assert CommittedAt(s, x.row) == Get(base, x.row);
    }
  }

  lemma {:induction false} DoneRows(tx: Tx, r: Row)
    requires tx.pc <= |tx.program| && r in Written(Done(tx))
    ensures r in Written(tx.program)
  {
    var p := Done(tx);
    var i :| 0 <= i < |p| && p[i].Write? && p[i].row == r;
    assert tx.program[i] == p[i];
  }

  lemma {:induction false} NextListings(mode: Mode, s: State, e: Event, base: Db, base': Db)
    requires RunOk(mode, s, base) && ListingsSeen(s, base) && Next(mode, s, e).Some? && Extends(base, base')
    ensures ListingsSeen(Next(mode, s, e).value, base')
  {
    hide RunOk, Extends, ListingThere;
    var n := Next(mode, s, e).value;
    forall t, x | t in n.txs && n.txs[t].request.Checkout? && n.txs[t].pc <= |n.txs[t].program| && x in Done(n.txs[t])
      ensures ListingThere(x, base')
    {
      StepDone(mode, s, e, t);
      if x in Done(s.txs[t]) {
        assert ListingThere(x, base);
      } else {
        CheckSeesListing(mode, s, t, base);
      }
      ListingStays(x, base, base');
    }
  }

  /** One step adds at most the statement a transaction was at to what it has done. */
  lemma {:induction false} StepDone(mode: Mode, s: State, e: Event, t: TxId)
    requires Next(mode, s, e).Some? && t in Next(mode, s, e).value.txs
    requires Next(mode, s, e).value.txs[t].pc <= |Next(mode, s, e).value.txs[t].program| && Done(Next(mode, s, e).value.txs[t]) != []
    ensures t in s.txs && s.txs[t].request == Next(mode, s, e).value.txs[t].request && s.txs[t].pc <= |s.txs[t].program|
    ensures var a, b := Done(s.txs[t]), Done(Next(mode, s, e).value.txs[t]);
            b == a || (e == Advance(t) && s.txs[t].pc < |s.txs[t].program| && b == a + [s.txs[t].program[s.txs[t].pc]])
  {
    hide PlanOf, Program, FreshId, SubjectNow, Restore, Holds, Apply, SeenAt, Blocked, Saved;
  }

  // ---------------------------------------------------------- products of stored bills

  ghost predicate BillKnown(db: Db, core: BillCore) {
    forall i | 0 <= i < |core.lines| :: core.lines[i].quantity > 0 && Known(db, core.shop, core.lines[i].product)
  }

  /** Every line of every bill has a quantity above zero and a product known at the bill's branch. */
  ghost predicate BillsKnown(db: Db) {
    forall r | Get(db, r).BillV? :: BillKnown(db, Get(db, r).core)
  }

  lemma {:induction false} KnownStays(a: Db, b: Db, core: BillCore)
    requires BillKnown(a, core) && Extends(a, b)
    ensures BillKnown(b, core)
  {
    forall i | 0 <= i < |core.lines| ensures Known(b, core.shop, core.lines[i].product) {
      assert Keeps(Get(a, Branch(core.shop, core.lines[i].product)), Get(b, Branch(core.shop, core.lines[i].product)));
      assert Keeps(Get(a, Product(core.lines[i].product)), Get(b, Product(core.lines[i].product)));
    }
  }

  lemma {:induction false} ListingFirst(mode: Mode, m: Move)
    ensures Check(Branch(m.shop, m.product), Listed(m.allowUnassigned)) in Block(mode, m)
  {
    assert Block(mode, m)[0] in Block(mode, m);
  }

  /** Every movement that went through checked its product's listing, and its product row is there. */
  lemma {:induction false} MovedProducts(mode: Mode, ms: seq<Move>, db: Db, l: Locals, i: nat)
    requires Exec(false, Blocks(mode, ms), db, l).Ok? && i < |ms| && ms[i].delta != 0
    ensures Check(Branch(ms[i].shop, ms[i].product), Listed(ms[i].allowUnassigned)) in Blocks(mode, ms)
    ensures Get(Exec(false, Blocks(mode, ms), db, l).value.0, Product(ms[i].product)).ProductV?
    decreases |ms|
  {
    hide Exec, Block;
    var front, last := ms[..|ms| - 1], ms[|ms| - 1];
    ExecConcat(false, Blocks(mode, front), Block(mode, last), db, l);
    var (d, l') := Exec(false, Blocks(mode, front), db, l).value;
    if i < |front| {
      MovedProducts(mode, front, db, l, i);
      ExecKeeps(false, Block(mode, last), d, l', Product(ms[i].product));
    } else {
      BlockEffect(false, mode, last, d, l');
      ListingFirst(mode, last);
    }
  }

  /** A committed checkout's bill sells known products. */
  lemma {:induction false} CheckoutKnown(mode: Mode, bill: Id, c: Cart, db: Db)
    requires ValidCart(c) && Run(false, Program(mode, CheckoutPlan(bill, c)), db).Ok?
    requires forall x | x in Program(mode, CheckoutPlan(bill, c)) :: ListingThere(x, db)
    ensures BillKnown(Run(false, Program(mode, CheckoutPlan(bill, c)), db).value.0, CoreOf(c))
  {
    hide Exec, Blocks, CreditBlocks, SortLines, Insertions, PriceChecks;
    var p, lines := CheckoutPlan(bill, c), BillLines(c.lines);
    var a, b, e, d := RunPhases(false, mode, p, db);
    RunExtends(false, Program(mode, p), db);
    SortLinesFacts(lines);
    var sorted := SortLines(lines);
    forall i | 0 <= i < |lines| ensures lines[i].quantity > 0 && Known(d.0, c.shop, lines[i].product) {
      assert lines[i] in multiset(lines);
      assert lines[i] in sorted;
      var j :| 0 <= j < |sorted| && sorted[j] == lines[i];
      MovedProducts(mode, p.moves, a.0, a.1, j);
      var product := Product(lines[i].product);
      ExecKeeps(false, p.post, b.0, b.1, product);
      ExecKeeps(false, CreditBlocks(p.credits), e.0, e.1, product);
      var x := Check(Branch(c.shop, lines[i].product), Listed(false));
      assert x in Program(mode, p);
      assert ListingThere(x, db);
      ListingStays(x, db, d.0);
    }
  }

  /** The bills of a committed transaction's result are the old ones and, for a checkout, its own. */
  lemma {:induction false} BillsKnownKept(mode: Mode, db: Db, q: Request)
    requires PlanIn(db, q).Some? && Run(false, Program(mode, PlanIn(db, q).value), db).Ok?
    requires WellTyped(db) && BillsKnown(db)
    requires q.Checkout? ==> forall x | x in Program(mode, PlanIn(db, q).value) :: ListingThere(x, db)
    ensures BillsKnown(Run(false, Program(mode, PlanIn(db, q).value), db).value.0)
  {
    hide Exec, Program, CheckoutPlan, CancelPlan, ReceivePlan, ReversePlan, BillKnown, ListingThere, WellTyped, Extends;
    var program := Program(mode, PlanIn(db, q).value);
    var d := Run(false, program, db).value.0;
    RunExtends(false, program, db);
    TypesKept(mode, db, q);
    RequestRows(mode, if Subject(q).Some? then Get(db, Subject(q).value) else Absent, q);
    if q.Checkout? {
      CheckoutKnown(mode, q.bill, q.cart, db);
      CheckoutBill(mode, q.bill, q.cart, db);
    }
    forall r | Get(d, r).BillV? ensures BillKnown(d, Get(d, r).core) {
      if Get(db, r).BillV? {
        SameCore(db, d, r);
        KnownStays(db, d, Get(db, r).core);
      } else {
        OnlyBillRows(d, r);
        if r !in Written(program) {
          Untouched(false, program, db, NO_LOCALS, r);
        }
        assert q.Checkout? && r == BillRow(q.bill);
        SameKnownness(d, CoreOf(q.cart), Get(d, r).core);
      }
    }
  }

  lemma {:induction false} SameCore(a: Db, b: Db, r: Row)
    requires Extends(a, b) && Get(a, r).BillV?
    ensures Get(b, r).BillV? && Get(b, r).core == Get(a, r).core
  {
    assert Keeps(Get(a, r), Get(b, r));
  }

  lemma {:induction false} OnlyBillRows(db: Db, r: Row)
    requires WellTyped(db) && Get(db, r).BillV?
    ensures r.BillRow?
  {
    assert Fits(r, Get(db, r));
  }

  lemma {:induction false} SameKnownness(db: Db, a: BillCore, b: BillCore)
    requires BillKnown(db, a) && b.(seq_ := 0) == a
    ensures BillKnown(db, b)
  {
    assert b.lines == b.(seq_ := 0).lines && b.shop == b.(seq_ := 0).shop;
  }

  // -------------------------------------------------------------- stored purchases

  ghost predicate PurchasesPositive(db: Db) {
    forall r | Get(db, r).PurchaseV? :: Positive(Get(db, r).items)
  }

  lemma {:induction false} ExecPositive(p: seq<Stmt>, db: Db, l: Locals)
    requires Exec(false, p, db, l).Ok? && PurchasesPositive(db)
    requires forall x | x in p && x.Write? && x.op.InsertPurchase? :: Positive(x.op.items)
    ensures PurchasesPositive(Exec(false, p, db, l).value.0)
    decreases |p|
  {
    hide Positive, ExecStmt, PurchasesPositive;
    if p != [] {
      var front := p[..|p| - 1];
      ExecPositive(front, db, l);
      var (d, l') := Exec(false, front, db, l).value;
      StmtPositive(p[|p| - 1], d, l');
    }
  }

  lemma {:induction false} StmtPositive(x: Stmt, db: Db, l: Locals)
    requires ExecStmt(false, x, db, l).Ok? && PurchasesPositive(db)
    requires x.Write? && x.op.InsertPurchase? ==> Positive(x.op.items)
    ensures PurchasesPositive(ExecStmt(false, x, db, l).value.0)
  {
    hide Positive;
  }

  lemma {:induction false} PositiveKept(mode: Mode, db: Db, q: Request)
    requires PlanIn(db, q).Some? && Run(false, Program(mode, PlanIn(db, q).value), db).Ok?
    requires PurchasesPositive(db)
    ensures PurchasesPositive(Run(false, Program(mode, PlanIn(db, q).value), db).value.0)
  {
    hide Exec, Program, PurchasesPositive, CheckoutPlan, CancelPlan, ReceivePlan, ReversePlan;
    var p := Program(mode, PlanIn(db, q).value);
    OwnWriter(mode, if Subject(q).Some? then Get(db, Subject(q).value) else Absent, q);
    forall x | x in p && x.Write? && x.op.InsertPurchase? ensures Positive(x.op.items) {
      var i :| 0 <= i < |p| && p[i] == x;
      assert OwnWrite(q, p[i]);
    }
    ExecPositive(p, db, NO_LOCALS);
  }

  // -------------------------------------------------------------------- every run

  /** Rows of their kind, bills of known products, purchases of quantities above zero. */
  ghost predicate Fit(db: Db) { WellTyped(db) && BillsKnown(db) && PurchasesPositive(db) }

  lemma {:induction false} OpeningFit(db: Db)
    requires Opening(db)
    ensures Fit(db)
  {
  }

  lemma {:induction false} FitKept(mode: Mode, m: State, e: Event, base: Db)
    requires RunOk(mode, m, base) && ListingsSeen(m, base) && Fit(base)
    requires e.Commit? && Finished(m, e.t) && Run(false, m.txs[e.t].program, base).Ok?
    ensures Fit(Run(false, m.txs[e.t].program, base).value.0)
  {
    hide Exec, Program, PlanOf, WellTyped, BillsKnown, PurchasesPositive, Consistent, ListingThere;
    var tx := m.txs[e.t];
    assert Planned(mode, base, tx.request, tx.program);
    assert Done(tx) == tx.program;
    TypesKept(mode, base, tx.request);
    BillsKnownKept(mode, base, tx.request);
    PositiveKept(mode, base, tx.request);
  }

  /** However transactions interleave, the committed rows stay of their kind and every bill's products stay known. */
  lemma {:induction false} EveryRunFit(mode: Mode, db: Db, es: seq<Event>)
    requires Canonical(db) && Fit(db) && Steps(mode, Start(db), es).Some?
    ensures var s := Steps(mode, Start(db), es).value;
            Replay(db, s.history).Ok? && Fit(BaseOf(db, s)) && ListingsSeen(s, BaseOf(db, s))
    decreases |es|
  {
    hide Exec, Run, Fit, RunOk, Next, Extends, Finished;
    StepsRunOk(mode, db, es);
    if es != [] {
      var front, e := es[..|es| - 1], es[|es| - 1];
      EveryRunFit(mode, db, front);
      StepsRunOk(mode, db, front);
      var m := Steps(mode, Start(db), front).value;
      NextRunOk(mode, m, e, BaseOf(db, m));
      NextHistory(mode, db, m, e);
      NextListings(mode, m, e, BaseOf(db, m), BaseAfter(m, e, BaseOf(db, m)));
      NextTxs(mode, m, e);
      if e.Commit? {
        FitKept(mode, m, e, BaseOf(db, m));
      }
    }
  }

  /**
   * After any run, the cancellation of any PAID bill, run alone, succeeds
   * exactly when the customer's balance still covers its charges.
   */
  lemma {:induction false} CancelExactAlways(mode: Mode, db: Db, es: seq<Event>, bill: Id, actor: Id)
    requires Canonical(db) && Good(db) && Fit(db) && Steps(mode, Start(db), es).Some?
    ensures Replay(db, Steps(mode, Start(db), es).value.history).Ok?
    ensures var now := BaseOf(db, Steps(mode, Start(db), es).value);
            var v := Get(now, BillRow(bill));
            v.BillV? && v.status == PAID ==>
              var o := Run(true, Program(mode, CancelPlan(bill, v.core, actor)), now);
              (o.Ok? <==> Refundable(now, v.core)) && (o.Err? ==> o == Err(ReversalExceedsBalance))
  {
    hide Exec, Run, Program, CancelPlan, Steps, Equations, LogsOk, BalancesOk, BillBookOk, Consistent, ListingsSeen;
    EveryRunGood(mode, db, es);
    EveryRunFit(mode, db, es);
    var now := BaseOf(db, Steps(mode, Start(db), es).value);
    var v := Get(now, BillRow(bill));
    if v.BillV? && v.status == PAID {
      WellTypedIsTyped(now);
      CancelExact(mode, bill, v.core, actor, now);
    }
  }

  /**
   * After any run, the reversal of any received, unreversed purchase, run
   * alone, goes through exactly when its items are on sale at the branch and
   * each product's merged quantity is still in stock.
   */
  lemma {:induction false} ReversalExactAlways(mode: Mode, db: Db, es: seq<Event>, id: Id, cashier: Option<Id>, actor: Id)
    requires Canonical(db) && Good(db) && Fit(db) && Steps(mode, Start(db), es).Some?
    requires mode == BRANCH || cashier.Some?
    ensures Replay(db, Steps(mode, Start(db), es).value.history).Ok?
    ensures var now := BaseOf(db, Steps(mode, Start(db), es).value);
            var v := Get(now, Purchase(id));
            v.PurchaseV? && v.received && !v.reversed ==>
              (Run(true, Program(mode, ReversePlan(id, v.shop, cashier, v.items, actor)), now).Ok? <==>
               Movable(mode, v.shop, cashier, v.items, false, now))
  {
    hide Exec, Run, Program, ReversePlan, Steps, Equations, BalancesOk, BillBookOk, Consistent, ListingsSeen, Movable;
    EveryRunGood(mode, db, es);
    EveryRunFit(mode, db, es);
    var now := BaseOf(db, Steps(mode, Start(db), es).value);
    var v := Get(now, Purchase(id));
    if v.PurchaseV? && v.received && !v.reversed {
      WellTypedIsTyped(now);
      forall k ensures Quantity(now, k) >= 0 {
        assert LogOk(now, k);
      }
      ReversalExact(mode, id, v, cashier, actor, now);
    }
  }

  /** After any run, a checkout that its handler accepts, with a new bill id and a free key, commits when it runs alone. */
  lemma {:induction false} AcceptedAlwaysCommits(mode: Mode, db: Db, es: seq<Event>, q: CheckoutInput, year: int, bill: Id)
    requires Canonical(db) && Good(db) && Fit(db) && Steps(mode, Start(db), es).Some?
    ensures Replay(db, Steps(mode, Start(db), es).value.history).Ok?
    ensures var now := BaseOf(db, Steps(mode, Start(db), es).value);
            Accepted(mode, now, q, year) && Get(now, BillRow(bill)) == Absent
            && (q.token.Some? ==> Get(now, IdemKey(q.shop, q.token.value)) == Absent) ==>
              Run(true, Program(mode, CheckoutPlan(bill, CartOf(now, q, year))), now).Ok?
  {
    hide Exec, Run, Program, CheckoutPlan, Steps, Equations, BalancesOk, BillBookOk, Consistent, ListingsSeen, Accepted;
    EveryRunGood(mode, db, es);
    EveryRunFit(mode, db, es);
    var now := BaseOf(db, Steps(mode, Start(db), es).value);
    WellTypedIsTyped(now);
    forall k ensures Quantity(now, k) >= 0 {
      assert LogOk(now, k);
    }
    if Accepted(mode, now, q, year) && Get(now, BillRow(bill)) == Absent
       && (q.token.Some? ==> Get(now, IdemKey(q.shop, q.token.value)) == Absent)
    {
      AcceptedCommits(mode, now, q, year, bill);
    }
  }
}
