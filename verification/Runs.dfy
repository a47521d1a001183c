// What holds in every reachable state of the running system: every transaction
// still does what its request asks for, and new bills collide with nothing.
module Runs {
  import opened Wrappers
  import opened Ids
  import opened Tables
  import opened Handlers
  import opened Engine

  // ------------------------------------------------------------ what persists

  /** Bills, purchases and idempotency keys are never deleted or rewritten; a status only moves forward. */
  ghost predicate Keeps(a: Value, b: Value) {
    && (a.BillV? ==> b.BillV? && b.core == a.core && (a.status != b.status ==> a.status == PAID && b.status == CANCELLED))
    && (a.PurchaseV? ==> b.PurchaseV? && b.shop == a.shop && b.items == a.items && b.received == a.received && (a.reversed ==> b.reversed))
    && (a.KeyV? ==> b == a)
    && (a.LogV? ==> b.LogV? && a.entries <= b.entries)
    && (a.LedgerV? ==> b.LedgerV? && a.txns <= b.txns)
    && (a.CustomerV? ==> b.CustomerV? && b.shop == a.shop && b.cashier == a.cashier)
    && (a.ProductV? ==> b.ProductV? && b.sellingPrice == a.sellingPrice && b.active == a.active)
    && (a.BranchV? ==> b.BranchV?)
  }

  ghost predicate Extends(a: Db, b: Db) { forall r :: Keeps(Get(a, r), Get(b, r)) }

  lemma {:induction false} KeepsTransitive(a: Value, b: Value, c: Value)
    requires Keeps(a, b) && Keeps(b, c)
    ensures Keeps(a, c)
  {
  }

  lemma {:induction false} StmtKeeps(checks: bool, x: Stmt, db: Db, l: Locals, r: Row)
    requires ExecStmt(checks, x, db, l).Ok?
    ensures Keeps(Get(db, r), Get(ExecStmt(checks, x, db, l).value.0, r))
  {
  }

  lemma {:induction false} NothingKeeps(checks: bool, db: Db, l: Locals, r: Row)
    ensures Exec(checks, [], db, l) == Ok((db, l)) && Keeps(Get(db, r), Get(db, r))
  {
  }

  lemma {:induction false} ExecKeeps(checks: bool, p: seq<Stmt>, db: Db, l: Locals, r: Row)
    requires Exec(checks, p, db, l).Ok?
    ensures Keeps(Get(db, r), Get(Exec(checks, p, db, l).value.0, r))
    decreases |p|
  {
    hide Keeps, ExecStmt;
    if p == [] {
      NothingKeeps(checks, db, l, r);
    } else {
      var front := p[..|p| - 1];
      ExecKeeps(checks, front, db, l, r);
      var (d, l') := Exec(checks, front, db, l).value;
      StmtKeeps(checks, p[|p| - 1], d, l', r);
      KeepsTransitive(Get(db, r), Get(d, r), Get(Exec(checks, p, db, l).value.0, r));
    }
  }

  lemma {:induction false} SameExtends(db: Db)
    ensures Extends(db, db)
  {
  }

  /** No transaction ever rewrites history: what is committed is only extended. */
  lemma {:induction false} RunExtends(checks: bool, p: seq<Stmt>, db: Db)
    requires Run(checks, p, db).Ok?
    ensures Extends(db, Run(checks, p, db).value.0)
  {
    forall r ensures Keeps(Get(db, r), Get(Run(checks, p, db).value.0, r)) {
      ExecKeeps(checks, p, db, NO_LOCALS, r);
    }
  }

  // ------------------------------------------------------- which rows are written

  lemma {:induction false} WrittenConcat(a: seq<Stmt>, b: seq<Stmt>)
    ensures Written(a + b) == Written(a) + Written(b)
  {
    var p := a + b;
    forall r | r in Written(a) ensures r in Written(p) {
      var i :| 0 <= i < |a| && a[i].Write? && a[i].row == r;
      assert p[i] == a[i];
    }
    forall r | r in Written(b) ensures r in Written(p) {
      var i :| 0 <= i < |b| && b[i].Write? && b[i].row == r;
      assert p[|a| + i] == b[i];
    }
    forall r | r in Written(p) ensures r in Written(a) + Written(b) {
      var i :| 0 <= i < |p| && p[i].Write? && p[i].row == r;
      if i < |a| {
        assert a[i] == p[i];
      } else {
        assert b[i - |a|] == p[i];
      }
    }
  }

  predicate StockRow(r: Row) { r.Inventory? || r.Product? || r.Log? }
  predicate CreditRow(r: Row) { r.Customer? || r.Ledger? }

  lemma {:induction false} BlockRows(mode: Mode, m: Move)
    ensures Written(Block(mode, m)) ==
            if Keyed(mode, m) && m.delta != 0
            then {Inventory(KeyOf(mode, m)), Product(m.product), Log(KeyOf(mode, m))} else {}
  {
    var b := Block(mode, m);
    if Keyed(mode, m) && m.delta != 0 {
      assert b[1].row in Written(b) && b[3].row in Written(b) && b[4].row in Written(b);
    }
  }

  lemma {:induction false} BlocksRows(mode: Mode, ms: seq<Move>)
    ensures forall r | r in Written(Blocks(mode, ms)) :: StockRow(r)
    decreases |ms|
  {
    if ms != [] {
      BlocksRows(mode, ms[..|ms| - 1]);
      BlockRows(mode, ms[|ms| - 1]);
      WrittenConcat(Blocks(mode, ms[..|ms| - 1]), Block(mode, ms[|ms| - 1]));
    }
  }

  lemma {:induction false} CreditRows(cs: seq<CreditMove>)
    ensures forall r | r in Written(CreditBlocks(cs)) :: CreditRow(r)
    decreases |cs|
  {
    if cs != [] {
      CreditRows(cs[..|cs| - 1]);
      WrittenConcat(CreditBlocks(cs[..|cs| - 1]), CreditBlock(cs[|cs| - 1]));
    }
  }

  lemma {:induction false} ProgramRows(mode: Mode, p: Plan)
    ensures Written(Program(mode, p)) ==
            Written(p.pre) + Written(Blocks(mode, p.moves)) + Written(p.post) + Written(CreditBlocks(p.credits))
    ensures forall r | r in Written(Program(mode, p)) && !StockRow(r) && !CreditRow(r) ::
              r in Written(p.pre) + Written(p.post)
  {
    WrittenConcat(p.pre, Blocks(mode, p.moves));
    WrittenConcat(p.pre + Blocks(mode, p.moves), p.post);
    WrittenConcat(p.pre + Blocks(mode, p.moves) + p.post, CreditBlocks(p.credits));
    BlocksRows(mode, p.moves);
    CreditRows(p.credits);
  }

  lemma {:induction false} InsertionsRows(bill: Id, c: Cart)
    ensures Written(Insertions(bill, c)) ==
            {Counter(c.shop, c.year), BillRow(bill)} + (if c.token.Some? then {IdemKey(c.shop, c.token.value)} else {})
  {
    var p := Insertions(bill, c);
    assert p[0].row in Written(p) && p[|p| - 1].row in Written(p);
    if c.token.Some? {
      assert p[1].row in Written(p);
    }
  }

  /** The rows, other than stock and credit, that a request's transaction may write. */
  function OwnRows(q: Request): set<Row> {
    match q
    case Checkout(bill, c) =>
      {Counter(c.shop, c.year), BillRow(bill)} + (if c.token.Some? then {IdemKey(c.shop, c.token.value)} else {})
    case Cancel(bill, _) => {BillRow(bill)}
    case Receive(id, _, _, _, _) => {Purchase(id)}
    case ReversePurchase(id, _, _) => {Purchase(id)}
    case SetAssignment(shop, p, _) => {Branch(shop, p)}
    case SetPrice(shop, p, _) => {Branch(shop, p)}
    case _ => {}
  }

  lemma {:induction false} RequestRows(mode: Mode, subject: Value, q: Request)
    requires PlanOf(subject, q).Some?
    ensures forall r | r in Written(Program(mode, PlanOf(subject, q).value)) ::
              StockRow(r) || CreditRow(r) || r in OwnRows(q)
  {
    hide Program, Blocks, CreditBlocks, ItemMoves, SortLines;
    var plan := PlanOf(subject, q).value;
    ProgramRows(mode, plan);
    if q.Checkout? {
      InsertionsRows(q.bill, q.cart);
    }
  }

  // ---------------------------------------------------------------- invariant

  /** The transaction runs the program its request has in the committed rows. */
  ghost predicate Planned(mode: Mode, base: Db, q: Request, program: seq<Stmt>) {
    PlanIn(base, q).Some? && program == Program(mode, PlanIn(base, q).value)
  }

  ghost predicate RunOk(mode: Mode, s: State, base: Db) {
    && Consistent(s, base)
    && (forall t | t in s.txs :: Planned(mode, base, s.txs[t].request, s.txs[t].program))
    && (forall t | t in s.txs && s.txs[t].request.Checkout? ::
          Get(base, BillRow(s.txs[t].request.bill)) == Absent)
    && (forall t, u | t in s.txs && u in s.txs && t != u && s.txs[t].request.Checkout? && s.txs[u].request.Checkout? ::
          s.txs[t].request.bill != s.txs[u].request.bill)
  }

  /** Whatever commits, a running transaction's plan is the one it started with. */
  lemma {:induction false} PlanStable(mode: Mode, base: Db, base': Db, q: Request, program: seq<Stmt>)
    requires Planned(mode, base, q, program) && Extends(base, base')
    ensures Planned(mode, base', q, program)
  {
    if Subject(q).Some? {
      assert Keeps(Get(base, Subject(q).value), Get(base', Subject(q).value));
    }
  }

  lemma {:induction false} CommitKeepsFresh(mode: Mode, s: State, t: TxId, u: TxId, base: Db)
    requires RunOk(mode, s, base) && Finished(s, t)
    requires u in s.txs && u != t && s.txs[u].request.Checkout?
    requires Run(false, s.txs[t].program, base).Ok?
    ensures Get(Run(false, s.txs[t].program, base).value.0, BillRow(s.txs[u].request.bill)) == Absent
  {
    hide Exec, Consistent, Program, CheckoutPlan, CancelPlan, ReceivePlan, ReversePlan;
    var q := s.txs[t].request;
    var r := BillRow(s.txs[u].request.bill);
    RequestRows(mode, if Subject(q).Some? then Get(base, Subject(q).value) else Absent, q);
    Untouched(false, s.txs[t].program, base, NO_LOCALS, r);
  }

  /** A step changes no running transaction's request or program, and starts at most one. */
  lemma {:induction false} NextTxs(mode: Mode, s: State, e: Event)
    requires Next(mode, s, e).Some?
    ensures forall t | t in Next(mode, s, e).value.txs ::
              if t in s.txs
              then Next(mode, s, e).value.txs[t].request == s.txs[t].request &&
                   Next(mode, s, e).value.txs[t].program == s.txs[t].program
              else e == Begin(t, Next(mode, s, e).value.txs[t].request)
    ensures e.Begin? ==>
              && e.t !in s.txs && FreshId(s, e.request) && PlanOf(SubjectNow(s, e.request), e.request).Some?
              && Next(mode, s, e) == Some(Began(mode, s, e.t, e.request, PlanOf(SubjectNow(s, e.request), e.request).value))
    ensures e.Commit? || e.Abort? ==> e.t in s.txs && e.t !in Next(mode, s, e).value.txs
    ensures e.Commit? ==> Finished(s, e.t)
  {
  }

  lemma {:induction false} NextPlanned(mode: Mode, s: State, e: Event, base: Db, base': Db)
    requires RunOk(mode, s, base) && Next(mode, s, e).Some? && Extends(base, base') && (e.Begin? ==> base == base')
    ensures forall t | t in Next(mode, s, e).value.txs ::
              Planned(mode, base', Next(mode, s, e).value.txs[t].request, Next(mode, s, e).value.txs[t].program)
  {
    var n := Next(mode, s, e).value;
    NextTxs(mode, s, e);
    forall t | t in n.txs ensures Planned(mode, base', n.txs[t].request, n.txs[t].program) {
      if t in s.txs {
        PlanStable(mode, base, base', s.txs[t].request, s.txs[t].program);
      } else {
        assert SubjectNow(s, e.request) == if Subject(e.request).Some? then Get(base, Subject(e.request).value) else Absent;
      }
    }
  }

  lemma {:induction false} NextFresh(mode: Mode, s: State, e: Event, base: Db)
    requires RunOk(mode, s, base) && Next(mode, s, e).Some?
    requires e.Commit? ==> Run(false, s.txs[e.t].program, base).Ok?
    ensures var n := Next(mode, s, e).value;
            && (forall t | t in n.txs && n.txs[t].request.Checkout? ::
                  Get(BaseAfter(s, e, base), BillRow(n.txs[t].request.bill)) == Absent)
            && (forall t, u | t in n.txs && u in n.txs && t != u && n.txs[t].request.Checkout? && n.txs[u].request.Checkout? ::
                  n.txs[t].request.bill != n.txs[u].request.bill)
  {
    hide Exec, Run, Planned, PlanOf;
    var n := Next(mode, s, e).value;
    NextTxs(mode, s, e);
    forall t | t in n.txs && n.txs[t].request.Checkout?
      ensures Get(BaseAfter(s, e, base), BillRow(n.txs[t].request.bill)) == Absent
    {
      if e.Commit? {
        CommitKeepsFresh(mode, s, e.t, t, base);
      }
    }
  }

  lemma {:induction false} NextRunOk(mode: Mode, s: State, e: Event, base: Db)
    requires RunOk(mode, s, base) && Next(mode, s, e).Some?
    ensures RunOk(mode, Next(mode, s, e).value, BaseAfter(s, e, base))
    ensures e.Commit? ==> Run(false, s.txs[e.t].program, base).Ok?
    ensures Extends(base, BaseAfter(s, e, base))
  {
    hide Exec, Run, Extends, Consistent, Next, Planned;
    NextOk(mode, s, e, base);
    NextTxs(mode, s, e);
    SameExtends(base);
    if e.Commit? {
      RunExtends(false, s.txs[e.t].program, base);
    }
    NextPlanned(mode, s, e, base, BaseAfter(s, e, base));
    NextFresh(mode, s, e, base);
  }

  /** The committed rows of a run. */
  function BaseOf(db: Db, s: State): Db
    requires Replay(db, s.history).Ok?
  {
    Replay(db, s.history).value
  }

  lemma {:induction false} StepsRunOk(mode: Mode, db: Db, es: seq<Event>)
    requires Canonical(db) && Steps(mode, Start(db), es).Some?
    ensures Replay(db, Steps(mode, Start(db), es).value.history).Ok?
    ensures RunOk(mode, Steps(mode, Start(db), es).value, BaseOf(db, Steps(mode, Start(db), es).value))
    decreases |es|
  {
    if es == [] {
      StartOk(db);
    } else {
      StepsRunOk(mode, db, es[..|es| - 1]);
      var m := Steps(mode, Start(db), es[..|es| - 1]).value;
      NextRunOk(mode, m, es[|es| - 1], BaseOf(db, m));
      NextHistory(mode, db, m, es[|es| - 1]);
    }
  }

  /** History grows by commits only, and replaying it gives the committed rows. */
  lemma {:induction false} NextHistory(mode: Mode, db: Db, m: State, e: Event)
    requires Replay(db, m.history).Ok? && RunOk(mode, m, BaseOf(db, m)) && Next(mode, m, e).Some?
    ensures Replay(db, Next(mode, m, e).value.history) == Ok(BaseAfter(m, e, BaseOf(db, m)))
    ensures Next(mode, m, e).value.history ==
            m.history + if e.Commit? then [Entry(m.txs[e.t].request, m.txs[e.t].program)] else []
  {
    hide Exec, Run, Program, PlanIn;
    var n := Next(mode, m, e).value;
    NextRunOk(mode, m, e, BaseOf(db, m));
    if e.Commit? {
      assert n.history[..|n.history| - 1] == m.history;
    }
  }

  /** A commit of a running transaction: the row changes are those of its planned program on the committed rows. */
  ghost predicate Commits(mode: Mode, db: Db, m: State, e: Event, s: State) {
    && e.Commit? && e.t in m.txs && Replay(db, m.history).Ok?
    && var q, program := m.txs[e.t].request, m.txs[e.t].program;
       && PlanIn(BaseOf(db, m), q).Some? && program == Program(mode, PlanIn(BaseOf(db, m), q).value)
       && Run(false, program, BaseOf(db, m)).Ok?
       && Replay(db, s.history) == Ok(Run(false, program, BaseOf(db, m)).value.0)
       && s.history == m.history + [Entry(q, program)] && s.history[..|s.history| - 1] == m.history
  }

  /** The last event of a run either commits a transaction or leaves the committed rows and their history alone. */
  lemma {:induction false} LastStep(mode: Mode, db: Db, es: seq<Event>) returns (m: State)
    requires Canonical(db) && es != [] && Steps(mode, Start(db), es).Some?
    ensures Steps(mode, Start(db), es[..|es| - 1]) == Some(m) && Replay(db, m.history).Ok?
    ensures var e, s := es[|es| - 1], Steps(mode, Start(db), es).value;
            if e.Commit? then Commits(mode, db, m, e, s)
            else s.history == m.history && Replay(db, s.history) == Ok(BaseOf(db, m))
  {
    hide Exec, Run, Program, PlanIn, Consistent, Replay;
    var front, e := es[..|es| - 1], es[|es| - 1];
    StepsRunOk(mode, db, front);
    m := Steps(mode, Start(db), front).value;
    NextTxs(mode, m, e);
    NextRunOk(mode, m, e, BaseOf(db, m));
    NextHistory(mode, db, m, e);
    if e.Commit? {
      var s := Steps(mode, Start(db), es).value;
      assert s.history[..|s.history| - 1] == m.history;
      assert Planned(mode, BaseOf(db, m), m.txs[e.t].request, m.txs[e.t].program);
    }
  }
}
