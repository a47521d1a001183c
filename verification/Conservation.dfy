// Stock and credit conservation: what every committed transaction keeps.
module Conservation {
  import opened Wrappers
  import opened Ids
  import opened Money
  import opened Tables
  import opened Handlers
  import opened Totals
  import opened HandlerGains

  /** A branch holds what was adjusted in and received, less what PAID bills took. */
  ghost predicate StockConserved(db: Db) {
    forall s, p :: Total(BranchQty(s, p), db) ==
                   Total(Adjusted(s, p), db) + Total(ReceivedQty(s, p), db) - Total(SoldQty(s, p), db)
  }

  /** Product.stock is the sum over all branches (and cashiers). */
  ghost predicate AggregateMatches(db: Db) {
    forall p :: Total(AllQty(p), db) == Total(StockOf(p), db)
  }

  /** A bill's lines went back to its own branch exactly once if it is CANCELLED, and never otherwise. */
  ghost predicate RestoredOnce(db: Db) {
    forall b, s, p :: Total(RestoredQty(b, s, p), db) == Total(CancelledQty(b, s, p), db)
  }

  /** A bill's charges were reversed exactly once if it is CANCELLED, and never otherwise. */
  ghost predicate RefundedOnce(db: Db) {
    forall b :: Total(Refunded(b), db) == Total(CancelledCharges(b), db)
  }

  /** The ledger holds exactly the charges recorded with each bill. */
  ghost predicate ChargesPosted(db: Db) {
    forall b :: Total(Charged(b), db) == Total(BillCharges(b), db)
  }

  /** Charges are of a known customer and never negative. */
  ghost predicate ChargesOk(core: BillCore) {
    && (forall i | 0 <= i < |core.charges| :: core.charges[i] >= 0)
    && (core.charges != [] ==> core.customer.Some?)
  }

  ghost predicate BillsOk(db: Db) {
    forall b | Get(db, BillRow(b)).BillV? :: ChargesOk(Get(db, BillRow(b)).core)
  }

  ghost predicate Conserved(db: Db) {
    StockConserved(db) && AggregateMatches(db) && RestoredOnce(db) && RefundedOnce(db) && ChargesPosted(db) && BillsOk(db)
  }

  // -------------------------------------------------------- gains of a whole plan

  function PlanGain(m: Measure, p: Plan): int {
    Gains(m, p.pre) + MovesGain(m, p.moves) + Gains(m, p.post) + CreditsGain(m, p.credits)
  }

  lemma {:induction false} FailStops(checks: bool, p: seq<Stmt>, db: Db, l: Locals, i: nat)
    requires i < |p| && p[i].Fail?
    ensures Exec(checks, p, db, l).Err?
    decreases |p|
  {
    if i < |p| - 1 {
      FailStops(checks, p[..|p| - 1], db, l, i);
    }
  }

  lemma {:induction false} BlockKeyed(checks: bool, mode: Mode, m: Move, db: Db, l: Locals)
    requires Exec(checks, Block(mode, m), db, l).Ok?
    ensures Keyed(mode, m)
  {
    if !Keyed(mode, m) {
      FailStops(checks, Block(mode, m), db, l, 1);
    }
  }

  lemma {:induction false} MovesKeyed(checks: bool, mode: Mode, ms: seq<Move>, db: Db, l: Locals)
    requires Exec(checks, Blocks(mode, ms), db, l).Ok?
    ensures forall i | 0 <= i < |ms| :: Keyed(mode, ms[i])
    decreases |ms|
  {
    hide Exec, Block, Keyed;
    if ms != [] {
      var front := ms[..|ms| - 1];
      var last := ms[|ms| - 1];
      ExecConcat(checks, Blocks(mode, front), Block(mode, last), db, l);
      MovesKeyed(checks, mode, front, db, l);
      var (d, l') := Exec(checks, Blocks(mode, front), db, l).value;
      BlockKeyed(checks, mode, last, d, l');
    }
  }

  /** The states a program passes through: after its first statements, its moves, its insertions and its credit. */
  ghost predicate Phases(checks: bool, mode: Mode, p: Plan, db: Db, a: (Db, Locals), b: (Db, Locals), c: (Db, Locals), d: (Db, Locals)) {
    && Exec(checks, p.pre, db, NO_LOCALS) == Ok(a)
    && Exec(checks, Blocks(mode, p.moves), a.0, a.1) == Ok(b)
    && Exec(checks, p.post, b.0, b.1) == Ok(c)
    && Exec(checks, CreditBlocks(p.credits), c.0, c.1) == Ok(d)
  }

  lemma {:induction false} RunPhases(checks: bool, mode: Mode, p: Plan, db: Db) returns (a: (Db, Locals), b: (Db, Locals), c: (Db, Locals), d: (Db, Locals))
    requires Run(checks, Program(mode, p), db).Ok?
    ensures Phases(checks, mode, p, db, a, b, c, d)
    ensures Run(checks, Program(mode, p), db) == Ok(d)
  {
    ExecConcat(checks, p.pre + Blocks(mode, p.moves) + p.post, CreditBlocks(p.credits), db, NO_LOCALS);
    ExecConcat(checks, p.pre + Blocks(mode, p.moves), p.post, db, NO_LOCALS);
    ExecConcat(checks, p.pre, Blocks(mode, p.moves), db, NO_LOCALS);
    a := Exec(checks, p.pre, db, NO_LOCALS).value;
    b := Exec(checks, Blocks(mode, p.moves), a.0, a.1).value;
    c := Exec(checks, p.post, b.0, b.1).value;
    d := Exec(checks, CreditBlocks(p.credits), c.0, c.1).value;
  }

  ghost predicate AllStatic(p: seq<Stmt>) { forall i | 0 <= i < |p| :: Static(p[i]) }

  lemma {:induction false} BlocksStatic(mode: Mode, ms: seq<Move>)
    ensures AllStatic(Blocks(mode, ms))
    decreases |ms|
  {
    if ms != [] {
      BlocksStatic(mode, ms[..|ms| - 1]);
    }
  }

  lemma {:induction false} CreditsStatic(cs: seq<CreditMove>)
    ensures AllStatic(CreditBlocks(cs))
    decreases |cs|
  {
    if cs != [] {
      CreditsStatic(cs[..|cs| - 1]);
    }
  }

  /** After the first phase, every total moves by the gains of the remaining phases. */
  lemma {:induction false} PhaseTotals(mode: Mode, p: Plan, db: Db, a: (Db, Locals), b: (Db, Locals), c: (Db, Locals), d: (Db, Locals), m: Measure)
    requires Phases(false, mode, p, db, a, b, c, d) && AllStatic(p.post)
    ensures Total(m, d.0) == Total(m, a.0) + MovesGain(m, p.moves) + Gains(m, p.post) + CreditsGain(m, p.credits)
  {
    BlocksStatic(mode, p.moves);
    CreditsStatic(p.credits);
    MovesKeyed(false, mode, p.moves, a.0, a.1);
    StaticTotals(m, Blocks(mode, p.moves), a.0, a.1);
    BlocksGain(mode, m, p.moves);
    StaticTotals(m, p.post, b.0, b.1);
    StaticTotals(m, CreditBlocks(p.credits), c.0, c.1);
    CreditBlocksGain(m, p.credits);
  }

  lemma {:induction false} PlanTotals(mode: Mode, p: Plan, db: Db, m: Measure)
    requires Run(false, Program(mode, p), db).Ok?
    requires AllStatic(p.pre) && AllStatic(p.post)
    ensures Total(m, Run(false, Program(mode, p), db).value.0) == Total(m, db) + PlanGain(m, p)
  {
    var a, b, c, d := RunPhases(false, mode, p, db);
    StaticTotals(m, p.pre, db, NO_LOCALS);
    PhaseTotals(mode, p, db, a, b, c, d, m);
  }

  /** What the plan adds on one side of each equation it adds on the other. */
  ghost predicate Balanced(p: Plan) {
    forall s: Id, q: Id, b: Id :: BalancedAt(p, s, q, b)
  }

  ghost predicate BalancedAt(p: Plan, s: Id, q: Id, b: Id) {
    && PlanGain(BranchQty(s, q), p) ==
       PlanGain(Adjusted(s, q), p) + PlanGain(ReceivedQty(s, q), p) - PlanGain(SoldQty(s, q), p)
    && PlanGain(AllQty(q), p) == PlanGain(StockOf(q), p)
    && PlanGain(RestoredQty(b, s, q), p) == PlanGain(CancelledQty(b, s, q), p)
    && PlanGain(Refunded(b), p) == PlanGain(CancelledCharges(b), p)
    && PlanGain(Charged(b), p) == PlanGain(BillCharges(b), p)
  }

  ghost predicate Equations(db: Db) {
    StockConserved(db) && AggregateMatches(db) && RestoredOnce(db) && RefundedOnce(db) && ChargesPosted(db)
  }

  lemma {:induction false} BalancedKeeps(mode: Mode, p: Plan, db: Db)
    requires Run(false, Program(mode, p), db).Ok?
    requires AllStatic(p.pre) && AllStatic(p.post) && Balanced(p)
    requires Equations(db)
    ensures Equations(Run(false, Program(mode, p), db).value.0)
  {
    var d := Run(false, Program(mode, p), db).value.0;
    forall m: Measure ensures Total(m, d) == Total(m, db) + PlanGain(m, p) {
      PlanTotals(mode, p, db, m);
    }
    forall s, q, b ensures BalancedAt(p, s, q, b) {
    }
    forall s, q
      ensures Total(BranchQty(s, q), d) == Total(Adjusted(s, q), d) + Total(ReceivedQty(s, q), d) - Total(SoldQty(s, q), d)
    {
      assert BalancedAt(p, s, q, "");
    }
    forall q ensures Total(AllQty(q), d) == Total(StockOf(q), d) {
      assert BalancedAt(p, "", q, "");
    }
    forall b, s, q ensures Total(RestoredQty(b, s, q), d) == Total(CancelledQty(b, s, q), d) {
      assert BalancedAt(p, s, q, b);
    }
    forall b ensures Total(Refunded(b), d) == Total(CancelledCharges(b), d) {
      assert BalancedAt(p, "", "", b);
    }
    forall b ensures Total(Charged(b), d) == Total(BillCharges(b), d) {
      assert BalancedAt(p, "", "", b);
    }
  }

  // --------------------------------------------------------------- each handler

  /** Gains that are zero whatever the plan's moves and credits. */
  lemma {:induction false} NoOtherGains(p: Plan, s: Id, q: Id, b: Id)
    ensures MovesGain(AllQty(q), p.moves) == MovesGain(StockOf(q), p.moves)
    ensures MovesGain(ReceivedQty(s, q), p.moves) == MovesGain(SoldQty(s, q), p.moves) == 0
    ensures MovesGain(CancelledQty(b, s, q), p.moves) == MovesGain(CancelledCharges(b), p.moves) == 0
    ensures MovesGain(Refunded(b), p.moves) == MovesGain(Charged(b), p.moves) == MovesGain(BillCharges(b), p.moves) == 0
    ensures CreditsGain(BranchQty(s, q), p.credits) == CreditsGain(AllQty(q), p.credits) == CreditsGain(StockOf(q), p.credits) == 0
    ensures CreditsGain(Adjusted(s, q), p.credits) == CreditsGain(ReceivedQty(s, q), p.credits) == CreditsGain(SoldQty(s, q), p.credits) == 0
    ensures CreditsGain(RestoredQty(b, s, q), p.credits) == CreditsGain(CancelledQty(b, s, q), p.credits) == 0
    ensures CreditsGain(CancelledCharges(b), p.credits) == CreditsGain(BillCharges(b), p.credits) == 0
  {
    MovesAggregate(p.moves, q);
    MovesNoCredit(ReceivedQty(s, q), p.moves);
    MovesNoCredit(SoldQty(s, q), p.moves);
    MovesNoCredit(CancelledQty(b, s, q), p.moves);
    MovesNoCredit(CancelledCharges(b), p.moves);
    MovesNoCredit(Refunded(b), p.moves);
    MovesNoCredit(Charged(b), p.moves);
    MovesNoCredit(BillCharges(b), p.moves);
    CreditsNoStock(BranchQty(s, q), p.credits);
    CreditsNoStock(AllQty(q), p.credits);
    CreditsNoStock(StockOf(q), p.credits);
    CreditsNoStock(Adjusted(s, q), p.credits);
    CreditsNoStock(ReceivedQty(s, q), p.credits);
    CreditsNoStock(SoldQty(s, q), p.credits);
    CreditsNoStock(RestoredQty(b, s, q), p.credits);
    CreditsNoStock(CancelledQty(b, s, q), p.credits);
    CreditsNoStock(CancelledCharges(b), p.credits);
    CreditsNoStock(BillCharges(b), p.credits);
  }

  lemma {:induction false} ChecksGains(p: seq<Stmt>, s: Id, q: Id, b: Id)
    requires forall i | 0 <= i < |p| :: p[i].Check?
    ensures Gains(BranchQty(s, q), p) == Gains(AllQty(q), p) == Gains(StockOf(q), p) == Gains(Adjusted(s, q), p) == 0
    ensures Gains(ReceivedQty(s, q), p) == Gains(SoldQty(s, q), p) == Gains(RestoredQty(b, s, q), p) == 0
    ensures Gains(CancelledQty(b, s, q), p) == Gains(Refunded(b), p) == Gains(CancelledCharges(b), p) == 0
    ensures Gains(Charged(b), p) == Gains(BillCharges(b), p) == 0
  {
    ChecksGain(BranchQty(s, q), p);
    ChecksGain(AllQty(q), p);
    ChecksGain(StockOf(q), p);
    ChecksGain(Adjusted(s, q), p);
    ChecksGain(ReceivedQty(s, q), p);
    ChecksGain(SoldQty(s, q), p);
    ChecksGain(RestoredQty(b, s, q), p);
    ChecksGain(CancelledQty(b, s, q), p);
    ChecksGain(Refunded(b), p);
    ChecksGain(CancelledCharges(b), p);
    ChecksGain(Charged(b), p);
    ChecksGain(BillCharges(b), p);
  }

  lemma {:induction false} InsertionsGains(bill: Id, c: Cart, s: Id, q: Id, b: Id)
    ensures var p := Insertions(bill, c);
            && Gains(BranchQty(s, q), p) == Gains(AllQty(q), p) == Gains(StockOf(q), p) == Gains(Adjusted(s, q), p) == 0
            && Gains(ReceivedQty(s, q), p) == Gains(RestoredQty(b, s, q), p) == 0
            && Gains(SoldQty(s, q), p) == (if c.shop == s then LineQty(BillLines(c.lines), q) else 0)
            && Gains(CancelledQty(b, s, q), p) == Gains(Refunded(b), p) == Gains(CancelledCharges(b), p) == 0
            && Gains(Charged(b), p) == 0
            && Gains(BillCharges(b), p) == (if b == bill then Sum(CoreOf(c).charges) else 0)
  {
    InsertionsGain(BranchQty(s, q), bill, c);
    InsertionsGain(AllQty(q), bill, c);
    InsertionsGain(StockOf(q), bill, c);
    InsertionsGain(Adjusted(s, q), bill, c);
    InsertionsGain(ReceivedQty(s, q), bill, c);
    InsertionsGain(SoldQty(s, q), bill, c);
    InsertionsGain(RestoredQty(b, s, q), bill, c);
    InsertionsGain(CancelledQty(b, s, q), bill, c);
    InsertionsGain(Refunded(b), bill, c);
    InsertionsGain(CancelledCharges(b), bill, c);
    InsertionsGain(Charged(b), bill, c);
    InsertionsGain(BillCharges(b), bill, c);
  }

  lemma {:induction false} CheckoutCharges(bill: Id, c: Cart, b: Id)
    requires ValidCart(c)
    ensures CreditsGain(Charged(b), CheckoutPlan(bill, c).credits) == if b == bill then Sum(CoreOf(c).charges) else 0
    ensures CreditsGain(Refunded(b), CheckoutPlan(bill, c).credits) == 0
  {
    var cs := CheckoutPlan(bill, c).credits;
    if c.customer.Some? {
      ChargeMovesGain(cs, CreditTenders(c.tenders), c.customer.value, c.shop, bill, b);
    }
  }

  /** The lines a cart takes from a branch. */
  function CartQty(c: Cart, s: Id, q: Id): int { if c.shop == s then LineQty(BillLines(c.lines), q) else 0 }

  lemma {:induction false} CheckoutStock(bill: Id, c: Cart, s: Id, q: Id, b: Id)
    ensures PlanGain(BranchQty(s, q), CheckoutPlan(bill, c)) == -CartQty(c, s, q)
    ensures PlanGain(SoldQty(s, q), CheckoutPlan(bill, c)) == CartQty(c, s, q)
    ensures PlanGain(Adjusted(s, q), CheckoutPlan(bill, c)) == PlanGain(ReceivedQty(s, q), CheckoutPlan(bill, c)) == 0
    ensures PlanGain(RestoredQty(b, s, q), CheckoutPlan(bill, c)) == PlanGain(CancelledQty(b, s, q), CheckoutPlan(bill, c)) == 0
  {
    var p := CheckoutPlan(bill, c);
    ChecksGains(p.pre, s, q, b);
    InsertionsGains(bill, c, s, q, b);
    NoOtherGains(p, s, q, b);
    SaleMovesGain(c, SortLines(BillLines(c.lines)), s, q, b);
    SortLinesQty(BillLines(c.lines), q);
  }

  lemma {:induction false} CheckoutOther(bill: Id, c: Cart, s: Id, q: Id, b: Id)
    requires ValidCart(c)
    ensures PlanGain(AllQty(q), CheckoutPlan(bill, c)) == PlanGain(StockOf(q), CheckoutPlan(bill, c))
    ensures PlanGain(Refunded(b), CheckoutPlan(bill, c)) == PlanGain(CancelledCharges(b), CheckoutPlan(bill, c)) == 0
    ensures PlanGain(Charged(b), CheckoutPlan(bill, c)) == PlanGain(BillCharges(b), CheckoutPlan(bill, c))
  {
    var p := CheckoutPlan(bill, c);
    ChecksGains(p.pre, s, q, b);
    InsertionsGains(bill, c, s, q, b);
    NoOtherGains(p, s, q, b);
    CheckoutCharges(bill, c, b);
  }

  lemma {:induction false} CheckoutBalanced(bill: Id, c: Cart)
    requires ValidCart(c)
    ensures Balanced(CheckoutPlan(bill, c))
  {
    var p := CheckoutPlan(bill, c);
    forall s, q, b ensures BalancedAt(p, s, q, b) {
      CheckoutStock(bill, c, s, q, b);
      CheckoutOther(bill, c, s, q, b);
    }
  }

  lemma {:induction false} OneGains(x: Stmt, s: Id, q: Id, b: Id)
    ensures var p := [x];
            && Gains(BranchQty(s, q), p) == Gain(BranchQty(s, q), x) && Gains(AllQty(q), p) == Gain(AllQty(q), x)
            && Gains(StockOf(q), p) == Gain(StockOf(q), x) && Gains(Adjusted(s, q), p) == Gain(Adjusted(s, q), x)
            && Gains(ReceivedQty(s, q), p) == Gain(ReceivedQty(s, q), x) && Gains(SoldQty(s, q), p) == Gain(SoldQty(s, q), x)
            && Gains(RestoredQty(b, s, q), p) == Gain(RestoredQty(b, s, q), x)
            && Gains(CancelledQty(b, s, q), p) == Gain(CancelledQty(b, s, q), x)
            && Gains(Refunded(b), p) == Gain(Refunded(b), x) && Gains(CancelledCharges(b), p) == Gain(CancelledCharges(b), x)
            && Gains(Charged(b), p) == Gain(Charged(b), x) && Gains(BillCharges(b), p) == Gain(BillCharges(b), x)
  {
    assert [x][..0] == [];
  }

  lemma {:induction false} NoneGains()
    ensures forall m :: Gains(m, []) == 0 && MovesGain(m, []) == 0 && CreditsGain(m, []) == 0
  {
  }

  lemma {:induction false} ReceiveBalanced(id: Id, shop: Id, cashier: Option<Id>, items: seq<Item>, actor: Id)
    ensures Balanced(ReceivePlan(id, shop, cashier, items, actor))
  {
    hide Gains, MovesGain, CreditsGain, ItemMoves, ItemQty;
    var p := ReceivePlan(id, shop, cashier, items, actor);
    NoneGains();
    forall s, q, b ensures BalancedAt(p, s, q, b) {
      OneGains(p.pre[0], s, q, b);
      NoOtherGains(p, s, q, b);
      ItemMovesGain(shop, cashier, items, true, Received(id), actor, s, q, b);
    }
  }

  lemma {:induction false} AdjustBalanced(m: Move)
    requires m.kind == ADJUSTMENT && m.cause == Manual
    ensures Balanced(Plan([], [m], [], []))
  {
    var p := Plan([], [m], [], []);
    forall s, q, b ensures BalancedAt(p, s, q, b) {
      NoOtherGains(p, s, q, b);
      assert p.moves == [] + [m];
      MovesGainSnoc(BranchQty(s, q), [], m);
      MovesGainSnoc(Adjusted(s, q), [], m);
      MovesGainSnoc(RestoredQty(b, s, q), [], m);
    }
  }

  lemma {:induction false} BranchBalanced(x: Stmt)
    requires x.Write? && x.row.Branch?
    ensures Balanced(Plan([x], [], [], []))
  {
    var p := Plan([x], [], [], []);
    forall s, q, b ensures BalancedAt(p, s, q, b) {
      OneGains(x, s, q, b);
    }
  }

  lemma {:induction false} CollectBalanced(c: CreditMove)
    requires c.CollectMove?
    ensures Balanced(Plan([], [], [], [c]))
  {
    var p := Plan([], [], [], [c]);
    forall s, q, b ensures BalancedAt(p, s, q, b) {
      NoOtherGains(p, s, q, b);
      assert p.credits == [] + [c];
      CreditsGainSnoc(Refunded(b), [], c);
      CreditsGainSnoc(Charged(b), [], c);
    }
  }

  // --------------------------------------------------- cancelling and reversing

  lemma {:induction false} SumNonNeg(xs: seq<int>)
    requires forall i | 0 <= i < |xs| :: xs[i] >= 0
    ensures Sum(xs) >= 0
    decreases |xs|
  {
    if xs != [] {
      SumNonNeg(xs[..|xs| - 1]);
    }
  }

  lemma {:induction false} RefundGain(bill: Id, core: BillCore, b: Id)
    requires ChargesOk(core)
    ensures CreditsGain(Refunded(b), RefundMoves(bill, core)) == if b == bill then Sum(core.charges) else 0
    ensures CreditsGain(Charged(b), RefundMoves(bill, core)) == 0
  {
    SumNonNeg(core.charges);
    var cs := RefundMoves(bill, core);
    if cs != [] {
      assert cs[..0] == [];
    }
  }

  ghost predicate EquationsAt(db: Db, s: Id, q: Id, b: Id) {
    && Total(BranchQty(s, q), db) == Total(Adjusted(s, q), db) + Total(ReceivedQty(s, q), db) - Total(SoldQty(s, q), db)
    && Total(AllQty(q), db) == Total(StockOf(q), db)
    && Total(RestoredQty(b, s, q), db) == Total(CancelledQty(b, s, q), db)
    && Total(Refunded(b), db) == Total(CancelledCharges(b), db)
    && Total(Charged(b), db) == Total(BillCharges(b), db)
  }

  lemma {:induction false} FromPoints(db: Db)
    requires forall s, q, b :: EquationsAt(db, s, q, b)
    ensures Equations(db)
  {
    forall s, q
      ensures Total(BranchQty(s, q), db) == Total(Adjusted(s, q), db) + Total(ReceivedQty(s, q), db) - Total(SoldQty(s, q), db)
    {
      assert EquationsAt(db, s, q, "");
    }
    forall q ensures Total(AllQty(q), db) == Total(StockOf(q), db) {
      assert EquationsAt(db, "", q, "");
    }
    forall b, s, q ensures Total(RestoredQty(b, s, q), db) == Total(CancelledQty(b, s, q), db) {
      assert EquationsAt(db, s, q, b);
    }
    forall b ensures Total(Refunded(b), db) == Total(CancelledCharges(b), db)
                  && Total(Charged(b), db) == Total(BillCharges(b), db) {
      assert EquationsAt(db, "", "", b);
    }
  }

  /** A plan whose first statement replaces one row, then only static statements. */
  lemma {:induction false} ReplaceTotal(mode: Mode, p: Plan, db: Db, r: Row, v: Value, a: (Db, Locals), b: (Db, Locals), c: (Db, Locals), d: (Db, Locals), m: Measure)
    requires Phases(false, mode, p, db, a, b, c, d) && p.post == []
    requires a.0 == Put(db, r, v)
    ensures Total(m, d.0) == Total(m, db) - Eval(m, r, Get(db, r)) + Eval(m, r, v)
                             + MovesGain(m, p.moves) + CreditsGain(m, p.credits)
  {
    PhaseTotals(mode, p, db, a, b, c, d, m);
    TotalPut(m, db, r, v);
  }

  lemma {:induction false} ReplaceTotals(mode: Mode, p: Plan, db: Db, r: Row, v: Value, a: (Db, Locals), b: (Db, Locals), c: (Db, Locals), d: (Db, Locals),
                      s: Id, q: Id, x: Id)
    requires Phases(false, mode, p, db, a, b, c, d) && p.post == []
    requires a.0 == Put(db, r, v) && EquationsAt(db, s, q, x)
    requires Shift(p, r, Get(db, r), v, BranchQty(s, q)) == Shift(p, r, Get(db, r), v, Adjusted(s, q)) +
             Shift(p, r, Get(db, r), v, ReceivedQty(s, q)) - Shift(p, r, Get(db, r), v, SoldQty(s, q))
    requires Shift(p, r, Get(db, r), v, AllQty(q)) == Shift(p, r, Get(db, r), v, StockOf(q))
    requires Shift(p, r, Get(db, r), v, RestoredQty(x, s, q)) == Shift(p, r, Get(db, r), v, CancelledQty(x, s, q))
    requires Shift(p, r, Get(db, r), v, Refunded(x)) == Shift(p, r, Get(db, r), v, CancelledCharges(x))
    requires Shift(p, r, Get(db, r), v, Charged(x)) == Shift(p, r, Get(db, r), v, BillCharges(x))
    ensures EquationsAt(d.0, s, q, x)
  {
    hide Total, Eval, Exec, Put;
    ReplaceTotal(mode, p, db, r, v, a, b, c, d, BranchQty(s, q));
    ReplaceTotal(mode, p, db, r, v, a, b, c, d, Adjusted(s, q));
    ReplaceTotal(mode, p, db, r, v, a, b, c, d, ReceivedQty(s, q));
    ReplaceTotal(mode, p, db, r, v, a, b, c, d, SoldQty(s, q));
    ReplaceTotal(mode, p, db, r, v, a, b, c, d, AllQty(q));
    ReplaceTotal(mode, p, db, r, v, a, b, c, d, StockOf(q));
    ReplaceTotal(mode, p, db, r, v, a, b, c, d, RestoredQty(x, s, q));
    ReplaceTotal(mode, p, db, r, v, a, b, c, d, CancelledQty(x, s, q));
    ReplaceTotal(mode, p, db, r, v, a, b, c, d, Refunded(x));
    ReplaceTotal(mode, p, db, r, v, a, b, c, d, CancelledCharges(x));
    ReplaceTotal(mode, p, db, r, v, a, b, c, d, Charged(x));
    ReplaceTotal(mode, p, db, r, v, a, b, c, d, BillCharges(x));
  }

  function Shift(p: Plan, r: Row, v: Value, w: Value, m: Measure): int {
    Eval(m, r, w) - Eval(m, r, v) + MovesGain(m, p.moves) + CreditsGain(m, p.credits)
  }

  lemma {:induction false} ClaimShift(p: Plan, bill: Id, core: BillCore, s: Id, q: Id, x: Id)
    requires MovesGain(BranchQty(s, q), p.moves) == if core.shop == s then LineQty(core.lines, q) else 0
    requires MovesGain(Adjusted(s, q), p.moves) == 0
    requires MovesGain(RestoredQty(x, s, q), p.moves) == if core.shop == s && x == bill then LineQty(core.lines, q) else 0
    ensures var r, v, w := BillRow(bill), BillV(core, PAID), BillV(core, CANCELLED);
            && Shift(p, r, v, w, BranchQty(s, q)) == Shift(p, r, v, w, Adjusted(s, q)) +
               Shift(p, r, v, w, ReceivedQty(s, q)) - Shift(p, r, v, w, SoldQty(s, q))
            && Shift(p, r, v, w, AllQty(q)) == Shift(p, r, v, w, StockOf(q))
            && Shift(p, r, v, w, RestoredQty(x, s, q)) == Shift(p, r, v, w, CancelledQty(x, s, q))
  {
    hide MovesGain, CreditsGain, LineQty;
    NoOtherGains(p, s, q, x);
  }

  lemma {:induction false} CancelStockShift(bill: Id, core: BillCore, actor: Id, s: Id, q: Id, x: Id)
    ensures var p := CancelPlan(bill, core, actor);
            var r, v, w := BillRow(bill), BillV(core, PAID), BillV(core, CANCELLED);
            && Shift(p, r, v, w, BranchQty(s, q)) == Shift(p, r, v, w, Adjusted(s, q)) +
               Shift(p, r, v, w, ReceivedQty(s, q)) - Shift(p, r, v, w, SoldQty(s, q))
            && Shift(p, r, v, w, AllQty(q)) == Shift(p, r, v, w, StockOf(q))
            && Shift(p, r, v, w, RestoredQty(x, s, q)) == Shift(p, r, v, w, CancelledQty(x, s, q))
  {
    RestoreAll(bill, core, actor, s, q, x);
    ClaimShift(CancelPlan(bill, core, actor), bill, core, s, q, x);
  }

  lemma {:induction false} CancelCreditShift(bill: Id, core: BillCore, actor: Id, x: Id)
    requires ChargesOk(core)
    ensures var p := CancelPlan(bill, core, actor);
            var r, v, w := BillRow(bill), BillV(core, PAID), BillV(core, CANCELLED);
            && Shift(p, r, v, w, Refunded(x)) == Shift(p, r, v, w, CancelledCharges(x))
            && Shift(p, r, v, w, Charged(x)) == Shift(p, r, v, w, BillCharges(x))
  {
    hide LineQty, Gains, MovesGain, CreditsGain;
    NoOtherGains(CancelPlan(bill, core, actor), "", "", x);
    RefundGain(bill, core, x);
  }

  lemma {:induction false} CancelKeeps(mode: Mode, bill: Id, core: BillCore, actor: Id, db: Db)
    requires Get(db, BillRow(bill)).BillV? && Get(db, BillRow(bill)).core == core && ChargesOk(core)
    requires Run(false, Program(mode, CancelPlan(bill, core, actor)), db).Ok?
    requires Equations(db)
    ensures Equations(Run(false, Program(mode, CancelPlan(bill, core, actor)), db).value.0)
  {
    var p := CancelPlan(bill, core, actor);
    var a, b, c, d := RunPhases(false, mode, p, db);
    assert p.pre == [] + [Write(BillRow(bill), Claim)];
    ExecStep(false, [], Write(BillRow(bill), Claim), db, NO_LOCALS);
    assert Get(db, BillRow(bill)) == BillV(core, PAID);
    forall s, q, x ensures EquationsAt(d.0, s, q, x) {
      CancelStockShift(bill, core, actor, s, q, x);
      CancelCreditShift(bill, core, actor, x);
      ReplaceTotals(mode, p, db, BillRow(bill), BillV(core, CANCELLED), a, b, c, d, s, q, x);
    }
    FromPoints(d.0);
  }

  lemma {:induction false} ReverseShift(id: Id, v: Value, cashier: Option<Id>, actor: Id, s: Id, q: Id, x: Id)
    requires v.PurchaseV? && v.received && !v.reversed
    ensures var p := ReversePlan(id, v.shop, cashier, v.items, actor);
            var r, w := Purchase(id), v.(reversed := true);
            && Shift(p, r, v, w, BranchQty(s, q)) == Shift(p, r, v, w, Adjusted(s, q)) +
               Shift(p, r, v, w, ReceivedQty(s, q)) - Shift(p, r, v, w, SoldQty(s, q))
            && Shift(p, r, v, w, AllQty(q)) == Shift(p, r, v, w, StockOf(q))
            && Shift(p, r, v, w, RestoredQty(x, s, q)) == Shift(p, r, v, w, CancelledQty(x, s, q))
            && Shift(p, r, v, w, Refunded(x)) == Shift(p, r, v, w, CancelledCharges(x))
            && Shift(p, r, v, w, Charged(x)) == Shift(p, r, v, w, BillCharges(x))
  {
    hide Gains, MovesGain, CreditsGain, ItemMoves, ItemQty;
    NoneGains();
    NoOtherGains(ReversePlan(id, v.shop, cashier, v.items, actor), s, q, x);
    ItemMovesGain(v.shop, cashier, v.items, false, Reversed(id), actor, s, q, x);
  }

  lemma {:induction false} ReverseKeeps(mode: Mode, id: Id, v: Value, cashier: Option<Id>, actor: Id, db: Db)
    requires v.PurchaseV? && v.received && Get(db, Purchase(id)) == v
    requires Run(false, Program(mode, ReversePlan(id, v.shop, cashier, v.items, actor)), db).Ok?
    requires Equations(db)
    ensures Equations(Run(false, Program(mode, ReversePlan(id, v.shop, cashier, v.items, actor)), db).value.0)
  {
    hide Total, Shift;
    var p := ReversePlan(id, v.shop, cashier, v.items, actor);
    var a, b, c, d := RunPhases(false, mode, p, db);
    assert p.pre == [] + [Write(Purchase(id), MarkReversed)];
    ExecStep(false, [], Write(Purchase(id), MarkReversed), db, NO_LOCALS);
    forall s, q, x ensures EquationsAt(d.0, s, q, x) {
      ReverseShift(id, v, cashier, actor, s, q, x);
      ReplaceTotals(mode, p, db, Purchase(id), v.(reversed := true), a, b, c, d, s, q, x);
    }
    FromPoints(d.0);
  }

  // -------------------------------------------------------------------- BillsOk

  lemma {:induction false} BillStaysOk(checks: bool, s: Stmt, db: Db, l: Locals)
    requires BillsOk(db) && ExecStmt(checks, s, db, l).Ok? && (s.Write? && s.op.InsertBill? ==> ChargesOk(s.op.core))
    ensures BillsOk(ExecStmt(checks, s, db, l).value.0)
  {
    if s.Write? {
      var v := Get(db, s.row);
      var w := Apply(s.op, v, l).value.0;
      assert w.BillV? ==> if v.BillV? then w.core == v.core else s.op.InsertBill? && w.core.charges == s.op.core.charges;
    }
  }

  lemma {:induction false} BillsStayOk(checks: bool, p: seq<Stmt>, db: Db, l: Locals)
    requires BillsOk(db) && Exec(checks, p, db, l).Ok?
    requires forall i | 0 <= i < |p| && p[i].Write? && p[i].op.InsertBill? :: ChargesOk(p[i].op.core)
    ensures BillsOk(Exec(checks, p, db, l).value.0)
    decreases |p|
  {
    hide ExecStmt, BillsOk, ChargesOk;
    if p != [] {
      BillsStayOk(checks, p[..|p| - 1], db, l);
      var (d, l') := Exec(checks, p[..|p| - 1], db, l).value;
      BillStaysOk(checks, p[|p| - 1], d, l');
    }
  }

  lemma {:induction false} CartChargesOk(c: Cart)
    requires ValidCart(c)
    ensures ChargesOk(CoreOf(c))
  {
    var ts := CreditTenders(c.tenders);
    CreditTendersPositive(c.tenders);
    forall i | 0 <= i < |PaiseOf(ts)| ensures PaiseOf(ts)[i] >= 0 {
      RoundingError(ts[i].amount);
    }
  }

  lemma {:induction false} CreditTendersPositive(ts: seq<Tender>)
    requires forall i | 0 <= i < |ts| :: ts[i].amount > 0.0
    ensures forall i | 0 <= i < |CreditTenders(ts)| :: CreditTenders(ts)[i].amount > 0.0
    decreases |ts|
  {
    if ts != [] {
      CreditTendersPositive(ts[..|ts| - 1]);
    }
  }

  lemma {:induction false} NoBillInserts(mode: Mode, ms: seq<Move>, cs: seq<CreditMove>)
    ensures forall i | 0 <= i < |Blocks(mode, ms)| && Blocks(mode, ms)[i].Write? :: !Blocks(mode, ms)[i].op.InsertBill?
    ensures forall i | 0 <= i < |CreditBlocks(cs)| && CreditBlocks(cs)[i].Write? :: !CreditBlocks(cs)[i].op.InsertBill?
    decreases |ms| + |cs|
  {
    if ms != [] {
      NoBillInserts(mode, ms[..|ms| - 1], cs);
    } else if cs != [] {
      NoBillInserts(mode, ms, cs[..|cs| - 1]);
    }
  }

  lemma {:induction false} PlanBillsOk(mode: Mode, p: Plan, db: Db)
    requires BillsOk(db) && Run(false, Program(mode, p), db).Ok?
    requires forall i | 0 <= i < |p.pre| && p.pre[i].Write? && p.pre[i].op.InsertBill? :: ChargesOk(p.pre[i].op.core)
    requires forall i | 0 <= i < |p.post| && p.post[i].Write? && p.post[i].op.InsertBill? :: ChargesOk(p.post[i].op.core)
    ensures BillsOk(Run(false, Program(mode, p), db).value.0)
  {
    var a, b, c, d := RunPhases(false, mode, p, db);
    NoBillInserts(mode, p.moves, p.credits);
    BillsStayOk(false, p.pre, db, NO_LOCALS);
    BillsStayOk(false, Blocks(mode, p.moves), a.0, a.1);
    BillsStayOk(false, p.post, b.0, b.1);
    BillsStayOk(false, CreditBlocks(p.credits), c.0, c.1);
  }

  lemma {:induction false} InsertedBillsOk(subject: Value, q: Request)
    requires PlanOf(subject, q).Some?
    ensures var p := PlanOf(subject, q).value;
            && (forall i | 0 <= i < |p.pre| && p.pre[i].Write? && p.pre[i].op.InsertBill? :: ChargesOk(p.pre[i].op.core))
            && (forall i | 0 <= i < |p.post| && p.post[i].Write? && p.post[i].op.InsertBill? :: ChargesOk(p.post[i].op.core))
  {
    hide ChargesOk, CoreOf, ItemMoves;
    if q.Checkout? {
      CartChargesOk(q.cart);
    }
  }

  // ------------------------------------------------------------------ main step

  /** Apart from cancellations and reversals, a request's statements add the same on both sides of every equation. */
  lemma {:induction false} RequestBalanced(subject: Value, q: Request)
    requires PlanOf(subject, q).Some? && !q.Cancel? && !q.ReversePurchase?
    ensures var p := PlanOf(subject, q).value; Balanced(p) && AllStatic(p.pre) && AllStatic(p.post)
  {
    hide Balanced, SortLines, ItemMoves, Gains, BillLines;
    var p := PlanOf(subject, q).value;
    match q
    case Checkout(bill, c) => CheckoutBalanced(bill, c);
    case Receive(id, shop, cashier, items, actor) => ReceiveBalanced(id, shop, cashier, items, actor);
    case Adjust(_, _, _, _, _) => AdjustBalanced(p.moves[0]);
    case SetAssignment(_, _, _) => BranchBalanced(p.pre[0]);
    case SetPrice(_, _, _) => BranchBalanced(p.pre[0]);
    case CollectCredit(_, _, _) => CollectBalanced(p.credits[0]);
  }

  lemma {:induction false} EquationsKept(mode: Mode, db: Db, q: Request)
    requires PlanIn(db, q).Some?
    requires Run(false, Program(mode, PlanIn(db, q).value), db).Ok?
    requires Conserved(db)
    ensures Equations(Run(false, Program(mode, PlanIn(db, q).value), db).value.0)
  {
    hide Exec, Balanced, Program, Run, Total;
    match q
    case Cancel(bill, actor) => CancelKeeps(mode, bill, Get(db, BillRow(bill)).core, actor, db);
    case ReversePurchase(id, cashier, actor) =>
      var v := Get(db, Purchase(id));
      assert PlanIn(db, q).value == ReversePlan(id, v.shop, cashier, v.items, actor);
      ReverseKeeps(mode, id, v, cashier, actor, db);
    case _ =>
      hide AllStatic, CheckoutPlan, ReceivePlan;
      RequestBalanced(Absent, q);
      BalancedKeeps(mode, PlanIn(db, q).value, db);
  }

  /** Every request's transaction conserves stock and credit. */
  lemma {:induction false} ConservedKept(mode: Mode, db: Db, q: Request)
    requires PlanIn(db, q).Some?
    requires Run(false, Program(mode, PlanIn(db, q).value), db).Ok?
    requires Conserved(db)
    ensures Conserved(Run(false, Program(mode, PlanIn(db, q).value), db).value.0)
  {
    hide Exec, Program, PlanOf, BillsOk;
    EquationsKept(mode, db, q);
    InsertedBillsOk(if Subject(q).Some? then Get(db, Subject(q).value) else Absent, q);
    PlanBillsOk(mode, PlanIn(db, q).value, db);
  }

  /** Product.stock is the row's own number. */
  lemma {:induction false} StockOfRow(db: Db, p: Id)
    requires Get(db, Product(p)).ProductV?
    ensures Total(StockOf(p), db) == Get(db, Product(p)).stock
  {
    TotalSplit(StockOf(p), db, Product(p));
    NothingElse(StockOf(p), Product(p), db - {Product(p)});
  }

  lemma {:induction false} NothingElse(m: Measure, r: Row, db: Db)
    requires r !in db && forall x, v :: x != r ==> Eval(m, x, v) == 0
    ensures Total(m, db) == 0
    decreases |db|
  {
    if db != map[] {
      var x :| x in db;
      TotalSplit(m, db, x);
      NothingElse(m, r, db - {x});
    }
  }

  /** A bill's own row is all that counts as cancelled for it. */
  lemma {:induction false} CancelledRow(db: Db, b: Id, s: Id, p: Id)
    ensures Total(CancelledQty(b, s, p), db) == Eval(CancelledQty(b, s, p), BillRow(b), Get(db, BillRow(b)))
    ensures Total(CancelledCharges(b), db) == Eval(CancelledCharges(b), BillRow(b), Get(db, BillRow(b)))
  {
    if BillRow(b) in db {
      TotalSplit(CancelledQty(b, s, p), db, BillRow(b));
      TotalSplit(CancelledCharges(b), db, BillRow(b));
    } else {
      assert db - {BillRow(b)} == db;
    }
    NothingElse(CancelledQty(b, s, p), BillRow(b), db - {BillRow(b)});
    NothingElse(CancelledCharges(b), BillRow(b), db - {BillRow(b)});
  }
}
