// src/services/creditService.ts over whole runs: how far a stored balance can
// drift from the ledger of rounded charges, collections and reversals.
module Credit {
  import opened Wrappers
  import opened Ids
  import opened Money
  import opened Tables
  import opened Handlers
  import opened Engine
  import opened Runs
  import opened Conservation
  import opened Journals
  import opened Sales
  import opened Guarantees

  /** The stored balance less what the ledger rows add up to. */
  function Drift(db: Db, c: Id): int { Balance(db, c) - Net(Txns(Get(db, Ledger(c)))) }

  function HalfMove(m: CreditMove, c: Id): nat {
    if m.CollectMove? && m.customer == c && HalfPaisa(m.amount) then 1 else 0
  }

  function HalfMoves(cs: seq<CreditMove>, c: Id): nat {
    if cs == [] then 0 else HalfMoves(cs[..|cs| - 1], c) + HalfMove(cs[|cs| - 1], c)
  }

  lemma {:induction false} CreditBlockDrift(m: CreditMove, db: Db, l: Locals, c: Id)
    requires Exec(false, CreditBlock(m), db, l).Ok? && BalancesOk(db) && CreditMoveOk(m)
    ensures Drift(Exec(false, CreditBlock(m), db, l).value.0, c) == Drift(db, c) + HalfMove(m, c)
  {
    hide Exec, HalfPaisa, Collections, Net, CreditMoveOk;
    var d := Exec(false, CreditBlock(m), db, l).value.0;
    CreditEffect(false, m, db, l);
    assert BalanceOk(db, c);
    if c == m.customer {
      CreditStepOk(m, Get(db, Customer(c)), l);
      LedgerSnoc(Txns(Get(db, Ledger(c))), CreditBlock(m)[1].op.txn);
    } else {
      assert Get(d, Customer(c)) == Get(db, Customer(c)) && Get(d, Ledger(c)) == Get(db, Ledger(c));
    }
  }

  lemma {:induction false} CreditBlocksDrift(cs: seq<CreditMove>, db: Db, l: Locals, c: Id)
    requires Exec(false, CreditBlocks(cs), db, l).Ok? && BalancesOk(db)
    requires forall i | 0 <= i < |cs| :: CreditMoveOk(cs[i])
    ensures Drift(Exec(false, CreditBlocks(cs), db, l).value.0, c) == Drift(db, c) + HalfMoves(cs, c)
    decreases |cs|
  {
    if cs != [] {
      var front := cs[..|cs| - 1];
      ExecConcat(false, CreditBlocks(front), CreditBlock(cs[|cs| - 1]), db, l);
      CreditBlocksDrift(front, db, l, c);
      CreditBlocksBalances(false, front, db, l);
      var (d, l') := Exec(false, CreditBlocks(front), db, l).value;
      CreditBlockDrift(cs[|cs| - 1], d, l', c);
    }
  }

  lemma {:induction false} NoCollections(cs: seq<CreditMove>, c: Id)
    requires forall i | 0 <= i < |cs| :: !cs[i].CollectMove?
    ensures HalfMoves(cs, c) == 0
    decreases |cs|
  {
    if cs != [] {
      NoCollections(cs[..|cs| - 1], c);
    }
  }

  lemma {:induction false} DriftFramed(p: seq<Stmt>, db: Db, l: Locals, c: Id)
    requires Exec(false, p, db, l).Ok? && BalancesOk(db)
    requires forall r | r in Written(p) :: !CreditRow(r)
    ensures BalancesOk(Exec(false, p, db, l).value.0)
    ensures Drift(Exec(false, p, db, l).value.0, c) == Drift(db, c)
  {
    BalancesFramed(false, p, db, l);
    Untouched(false, p, db, l, Customer(c));
    Untouched(false, p, db, l, Ledger(c));
  }

  predicate HalfCollection(q: Request, c: Id) { q.CollectCredit? && q.customer == c && HalfPaisa(q.amount) }

  lemma {:induction false} PlanDrift(mode: Mode, p: Plan, db: Db, c: Id)
    requires Run(false, Program(mode, p), db).Ok? && BalancesOk(db)
    requires forall r | r in Written(p.pre) + Written(p.post) :: !CreditRow(r)
    requires forall i | 0 <= i < |p.credits| :: CreditMoveOk(p.credits[i])
    ensures Drift(Run(false, Program(mode, p), db).value.0, c) == Drift(db, c) + HalfMoves(p.credits, c)
  {
    var x, y, z, w := RunPhases(false, mode, p, db);
    BlocksRows(mode, p.moves);
    DriftFramed(p.pre, db, NO_LOCALS, c);
    DriftFramed(Blocks(mode, p.moves), x.0, x.1, c);
    DriftFramed(p.post, y.0, y.1, c);
    CreditBlocksDrift(p.credits, z.0, z.1, c);
  }

  lemma {:induction false} PlannedCollections(subject: Value, q: Request, c: Id)
    requires PlanOf(subject, q).Some?
    ensures HalfMoves(PlanOf(subject, q).value.credits, c) == if HalfCollection(q, c) then 1 else 0
  {
    var cs := PlanOf(subject, q).value.credits;
    if q.CollectCredit? {
      assert cs[..0] == [];
    } else {
      NoCollections(cs, c);
    }
  }

  lemma {:induction false} RequestDrift(mode: Mode, db: Db, q: Request, c: Id)
    requires PlanIn(db, q).Some? && Run(false, Program(mode, PlanIn(db, q).value), db).Ok?
    requires BalancesOk(db) && BillsOk(db)
    ensures Drift(Run(false, Program(mode, PlanIn(db, q).value), db).value.0, c) ==
            Drift(db, c) + if HalfCollection(q, c) then 1 else 0
  {
    var subject := if Subject(q).Some? then Get(db, Subject(q).value) else Absent;
    var p := PlanIn(db, q).value;
    PrePostRows(subject, q);
    OwnRowsPlain(q);
    CreditsOk(subject, q);
    PlanDrift(mode, p, db, c);
    PlannedCollections(subject, q, c);
  }

  /** Committed collections of a customer whose amount sits exactly on half a paisa. */
  function HalfCollections(h: seq<Entry>, c: Id): nat {
    if h == [] then 0
    else HalfCollections(h[..|h| - 1], c) + if HalfCollection(h[|h| - 1].request, c) then 1 else 0
  }

  /**
   * Over every run, whatever decimal amounts are charged and collected, a
   * balance is never negative and exceeds its ledger by exactly one paisa for
   * each committed collection of an exact half paisa.
   */
  lemma {:induction false} CreditAccounts(mode: Mode, db: Db, es: seq<Event>, c: Id)
    requires Canonical(db) && Good(db) && Steps(mode, Start(db), es).Some?
    ensures var s := Steps(mode, Start(db), es).value;
            && Replay(db, s.history).Ok?
            && Balance(BaseOf(db, s), c) >= 0
            && Drift(BaseOf(db, s), c) == Drift(db, c) + HalfCollections(s.history, c)
    decreases |es|
  {
    hide Exec, Run, Program, PlanIn, Next, Drift, BillBookOk, LogsOk, Equations, Consistent;
    EveryRunGood(mode, db, es);
    assert BalanceOk(BaseOf(db, Steps(mode, Start(db), es).value), c);
    if es != [] {
      var m := LastStep(mode, db, es);
      var e := es[|es| - 1];
      CreditAccounts(mode, db, es[..|es| - 1], c);
      EveryRunGood(mode, db, es[..|es| - 1]);
      if e.Commit? {
        RequestDrift(mode, BaseOf(db, m), m.txs[e.t].request, c);
      }
    }
  }

  lemma {:induction false} WholePaiseNoHalves(h: seq<Entry>, c: Id)
    requires forall i | 0 <= i < |h| && h[i].request.CollectCredit? && h[i].request.customer == c :: WholePaise(h[i].request.amount)
    ensures HalfCollections(h, c) == 0
    decreases |h|
  {
    if h != [] {
      WholePaiseNoHalves(h[..|h| - 1], c);
    }
  }

  /**
   * In every run from books that agree, a customer's balance is what the
   * ledger says exactly as long as no committed collection was of an exact
   * half paisa, and so always when collections are in whole paise.
   */
  lemma {:induction false} WholePaiseNeverDrift(mode: Mode, db: Db, es: seq<Event>, c: Id)
    requires Canonical(db) && Good(db) && Steps(mode, Start(db), es).Some?
    requires Balance(db, c) == Net(Txns(Get(db, Ledger(c))))
    ensures var s := Steps(mode, Start(db), es).value;
            && Replay(db, s.history).Ok?
            && var now := BaseOf(db, s);
               && (Balance(now, c) == Net(Txns(Get(now, Ledger(c)))) <==>
                     forall i | 0 <= i < |s.history| :: !HalfCollection(s.history[i].request, c))
               && ((forall i | 0 <= i < |s.history| && s.history[i].request.CollectCredit? && s.history[i].request.customer == c ::
                      WholePaise(s.history[i].request.amount)) ==> Balance(now, c) == Net(Txns(Get(now, Ledger(c)))))
  {
    hide Good, Steps, Balance, Net, HalfCollection, WholePaise;
    CreditAccounts(mode, db, es, c);
    var h := Steps(mode, Start(db), es).value.history;
    NoHalves(h, c);
    if forall i | 0 <= i < |h| && h[i].request.CollectCredit? && h[i].request.customer == c :: WholePaise(h[i].request.amount) {
      WholePaiseNoHalves(h, c);
    }
  }

  lemma {:induction false} NoHalves(h: seq<Entry>, c: Id)
    ensures HalfCollections(h, c) == 0 <==> forall i | 0 <= i < |h| :: !HalfCollection(h[i].request, c)
    decreases |h|
  {
    if h != [] {
      NoHalves(h[..|h| - 1], c);
      assert forall i | 0 <= i < |h| - 1 :: h[..|h| - 1][i] == h[i];
    }
  }
}
