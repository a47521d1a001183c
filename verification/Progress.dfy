// What moves in every interleaving: when a step can happen, that a request
// nobody hinders runs to its commit, and that every check a transaction got
// past held in the committed rows at that moment.
module Progress {
  import opened Wrappers
  import opened Ids
  import opened Tables
  import opened Handlers
  import opened Engine
  import opened Runs
  import opened Journals
  import opened Sales
  import opened Effects
  import opened Deadlock

  // ------------------------------------------------------------ when a step can happen

  /** A running transaction goes on exactly when its next statement neither waits nor fails on the rows it sees. */
  lemma {:induction false} AdvanceExactly(mode: Mode, s: State, t: TxId, base: Db)
    requires Consistent(s, base) && t in s.txs
    ensures Next(mode, s, Advance(t)).Some? <==>
            && s.txs[t].pc < |s.txs[t].program|
            && match s.txs[t].program[s.txs[t].pc]
               case Fail(_) => false
               case Check(r, c) => Holds(c, if r in s.txs[t].undo then Get(s.live, r) else Get(base, r)).Ok?
               case Write(r, op) =>
                 && (r in s.locks ==> s.locks[r] == t)
                 && Apply(op, if r in s.txs[t].undo then Get(s.live, r) else Get(base, r), s.txs[t].locals).Ok?
  {
    hide Holds, Apply, TxOk;
    if s.txs[t].pc < |s.txs[t].program| {
      var x := s.txs[t].program[s.txs[t].pc];
      if x.Write? && !Blocked(s, t) {
        FreeRow(s, t, x.row, base);
      }
    }
  }

  /** A row that nobody else has locked holds its committed value, or the transaction's own. */
  lemma {:induction false} FreeRow(s: State, t: TxId, r: Row, base: Db)
    requires Consistent(s, base) && t in s.txs && (r in s.locks ==> s.locks[r] == t)
    ensures Get(s.live, r) == if r in s.txs[t].undo then Get(s.live, r) else Get(base, r)
  {
    hide TxOk;
    assert CommittedAt(s, r) == Get(base, r);
    if r in s.locks {
      assert Owns(s, s.locks[r], r);
    }
  }

  /** Any running transaction can be given up, at any time, and any finished one can commit. */
  lemma {:induction false} EndsAnyTime(mode: Mode, s: State, t: TxId)
    requires t in s.txs
    ensures Next(mode, s, Abort(t)) == Some(Aborted(s, t))
    ensures s.txs[t].pc == |s.txs[t].program| ==> Next(mode, s, Commit(t)) == Some(Committed(s, t))
  {
  }

  /** A new bill's id is on no committed bill and in no running checkout. */
  ghost predicate Unused(s: State, base: Db, q: Request) {
    q.Checkout? ==>
      && Get(base, BillRow(q.bill)) == Absent
      && forall u | u in s.txs && s.txs[u].request.Checkout? :: s.txs[u].request.bill != q.bill
  }

  /** What a request must be like, and find in the committed rows, to have a transaction. */
  predicate Startable(db: Db, q: Request) {
    match q
    case Checkout(_, c) =>
      && c.lines != [] && (forall i | 0 <= i < |c.lines| :: c.lines[i].quantity > 0)
      && (forall i | 0 <= i < |c.tenders| :: c.tenders[i].amount > 0.0)
      && (c.customer.Some? || forall i | 0 <= i < |c.tenders| :: c.tenders[i].tender != "credit")
    case Cancel(bill, _) => Get(db, BillRow(bill)).BillV?
    case Receive(_, _, _, items, _) => forall i | 0 <= i < |items| :: items[i].quantity > 0
    case ReversePurchase(id, _, _) => Get(db, Purchase(id)).PurchaseV? && Get(db, Purchase(id)).received
    case _ => true
  }

  lemma {:induction false} CreditExactly(ts: seq<Tender>)
    ensures CreditTenders(ts) == [] <==> forall i | 0 <= i < |ts| :: ts[i].tender != "credit"
    decreases |ts|
  {
    if ts != [] {
      CreditExactly(ts[..|ts| - 1]);
    }
  }

  lemma {:induction false} PlannedExactly(db: Db, q: Request)
    ensures PlanIn(db, q).Some? <==> Startable(db, q)
  {
    hide CreditTenders;
    if q.Checkout? {
      CreditExactly(q.cart.tenders);
    }
  }

  /** A request starts whenever it finds in the committed rows what it needs, under a transaction id and a bill id of its own. */
  lemma {:induction false} BeginExactly(mode: Mode, s: State, t: TxId, q: Request, base: Db)
    requires Consistent(s, base)
    ensures Next(mode, s, Begin(t, q)).Some? <==> t !in s.txs && Startable(base, q) && Unused(s, base, q)
    ensures Next(mode, s, Begin(t, q)).Some? ==>
              PlanIn(base, q).Some? && Next(mode, s, Begin(t, q)).value ==
              s.(txs := s.txs[t := Tx(q, Program(mode, PlanIn(base, q).value), 0, NO_LOCALS, map[])])
  {
    hide TxOk, PlanOf, Program, Startable;
    PlannedExactly(base, q);
    if q.Checkout? {
      assert CommittedAt(s, BillRow(q.bill)) == Get(base, BillRow(q.bill));
    }
    if Subject(q).Some? {
      assert CommittedAt(s, Subject(q).value) == Get(base, Subject(q).value);
    }
  }

  function Through(t: TxId, q: Request, n: nat): seq<Event> { [Begin(t, q)] + Repeat(t, n) + [Commit(t)] }

  /**
   * In any reachable state, a request whose transaction would pass if it ran
   * alone, and whose rows nobody has locked, begins, runs and commits next to
   * all the others, and the committed rows are then what its own run makes them.
   */
  lemma {:induction false} UnhinderedCommits(mode: Mode, s: State, t: TxId, q: Request, base: Db) returns (m: State)
    requires RunOk(mode, s, base) && t !in s.txs && PlanIn(base, q).Some? && Unused(s, base, q)
    requires Run(true, Program(mode, PlanIn(base, q).value), base).Ok?
    requires forall r | r in Written(Program(mode, PlanIn(base, q).value)) :: r !in s.locks
    ensures var p := Program(mode, PlanIn(base, q).value);
            && Steps(mode, s, Through(t, q, |p|)) == Some(m)
            && m.txs == s.txs && m.history == s.history + [Entry(q, p)]
            && RunOk(mode, m, Run(true, p, base).value.0)
  {
    hide Exec, Consistent, Planned, Program, PlanIn, Next;
    var p := Program(mode, PlanIn(base, q).value);
    PlannedExactly(base, q);
    BeginExactly(mode, s, t, q, base);
    var a := Next(mode, s, Begin(t, q)).value;
    NextRunOk(mode, s, Begin(t, q), base);
    assert p[..|p|] == p;
    var b := Solo(mode, a, t, base, |p|);
    SoloHistory(mode, a, t, |p|);
    SoloRunOk(mode, a, t, |p|, base);
    m := CommitsItsRun(mode, b, t, base);
    OneStep(mode, s, Begin(t, q));
    StepsConcat(mode, s, [Begin(t, q)], Repeat(t, |p|));
    StepsConcat(mode, s, [Begin(t, q)] + Repeat(t, |p|), [Commit(t)]);
    OneStep(mode, b, Commit(t));
    assert m.txs == s.txs;
    assert Through(t, q, |p|) == [Begin(t, q)] + Repeat(t, |p|) + [Commit(t)];
  }

  /** A finished transaction whose run passes on the committed rows commits what that run makes of them. */
  lemma {:induction false} CommitsItsRun(mode: Mode, s: State, t: TxId, base: Db) returns (m: State)
    requires RunOk(mode, s, base) && t in s.txs && s.txs[t].pc == |s.txs[t].program| && Run(true, s.txs[t].program, base).Ok?
    ensures Next(mode, s, Commit(t)) == Some(m)
    ensures m.txs == s.txs - {t} && m.history == s.history + [Entry(s.txs[t].request, s.txs[t].program)]
    ensures RunOk(mode, m, Run(true, s.txs[t].program, base).value.0)
  {
    hide RunOk, Exec;
    m := Next(mode, s, Commit(t)).value;
    ChecksOnlyReject(s.txs[t].program, base, NO_LOCALS);
    NextRunOk(mode, s, Commit(t), base);
  }

  lemma {:induction false} OneStep(mode: Mode, s: State, e: Event)
    ensures Steps(mode, s, [e]) == Next(mode, s, e)
  {
    hide Next;
    assert [e][..0] == [];
    assert Steps(mode, s, []) == Some(s);
  }

  lemma {:induction false} SoloHistory(mode: Mode, s: State, t: TxId, n: nat)
    requires t in s.txs && Steps(mode, s, Repeat(t, n)).Some?
    ensures var m := Steps(mode, s, Repeat(t, n)).value;
            m.history == s.history && t in m.txs && m.txs[t].request == s.txs[t].request
    decreases n
  {
    if n > 0 {
      assert Repeat(t, n)[..n - 1] == Repeat(t, n - 1);
      SoloHistory(mode, s, t, n - 1);
    }
  }

  lemma {:induction false} SoloRunOk(mode: Mode, s: State, t: TxId, n: nat, base: Db)
    requires RunOk(mode, s, base) && Steps(mode, s, Repeat(t, n)).Some?
    ensures RunOk(mode, Steps(mode, s, Repeat(t, n)).value, base)
    decreases n
  {
    hide RunOk, Next;
    if n > 0 {
      assert Repeat(t, n)[..n - 1] == Repeat(t, n - 1);
      SoloRunOk(mode, s, t, n - 1, base);
      NextRunOk(mode, Steps(mode, s, Repeat(t, n - 1)).value, Advance(t), base);
    }
  }

  // ------------------------------------------------- what a transaction has checked

  /** The transaction that runs as `t` at the end was running after `j` events. */
  ghost predicate SinceThen(es: seq<Event>, t: TxId, j: nat) {
    forall k | j <= k < |es| :: !(es[k].Begin? && es[k].t == t)
  }

  /** After `j` events the transaction was at its `i`-th statement, and the check there held on the committed rows, or its own. */
  ghost predicate PassedAt(mode: Mode, db: Db, es: seq<Event>, t: TxId, program: seq<Stmt>, i: nat, j: nat) {
    && j < |es| && i < |program| && program[i].Check? && Steps(mode, Start(db), es[..j]).Some?
    && var m := Steps(mode, Start(db), es[..j]).value;
       && t in m.txs && m.txs[t].program == program && m.txs[t].pc == i && SinceThen(es, t, j)
       && Holds(program[i].cond, SeenAt(m, t, program[i].row)).Ok?
  }

  /** A statement a transaction is past was behind it before, or is the check it has just passed. */
  lemma {:induction false} PastOrJustPassed(mode: Mode, m: State, e: Event, t: TxId, i: nat)
    requires Next(mode, m, e).Some? && t in Next(mode, m, e).value.txs
    requires var tx := Next(mode, m, e).value.txs[t]; i < tx.pc && i < |tx.program| && tx.program[i].Check?
    ensures !(e.Begin? && e.t == t) && t in m.txs && m.txs[t].program == Next(mode, m, e).value.txs[t].program
    ensures i < m.txs[t].pc || (m.txs[t].pc == i && Holds(m.txs[t].program[i].cond, SeenAt(m, t, m.txs[t].program[i].row)).Ok?)
  {
    hide Apply, Holds, PlanOf, FreshId, SeenAt;
  }

  lemma {:induction false} PassedEarlier(mode: Mode, db: Db, es: seq<Event>, t: TxId, program: seq<Stmt>, i: nat, j: nat)
    requires es != [] && PassedAt(mode, db, es[..|es| - 1], t, program, i, j)
    requires !(es[|es| - 1].Begin? && es[|es| - 1].t == t)
    ensures PassedAt(mode, db, es, t, program, i, j)
  {
    hide Next, Holds, SeenAt, Steps;
    var front := es[..|es| - 1];
    assert front[..j] == es[..j];
    forall k | j <= k < |es| ensures !(es[k].Begin? && es[k].t == t) {
      assert k < |front| ==> es[k] == front[k];
    }
  }

  /** Every check a transaction has got past held when it got past it. */
  lemma {:induction false} ChecksPassed(mode: Mode, db: Db, es: seq<Event>, t: TxId, i: nat)
    requires Steps(mode, Start(db), es).Some? && t in Steps(mode, Start(db), es).value.txs
    requires var tx := Steps(mode, Start(db), es).value.txs[t]; i < tx.pc && i < |tx.program| && tx.program[i].Check?
    ensures exists j: nat :: PassedAt(mode, db, es, t, Steps(mode, Start(db), es).value.txs[t].program, i, j)
    decreases |es|
  {
    hide Next, Holds, SeenAt;
    if es != [] {
      var front, e := es[..|es| - 1], es[|es| - 1];
      var m, program := Steps(mode, Start(db), front).value, Steps(mode, Start(db), es).value.txs[t].program;
      PastOrJustPassed(mode, m, e, t, i);
      if i < m.txs[t].pc {
        ChecksPassed(mode, db, front, t, i);
        var j: nat :| PassedAt(mode, db, front, t, program, i, j);
        PassedEarlier(mode, db, es, t, program, i, j);
      } else {
        assert PassedAt(mode, db, es, t, program, i, |front|);
      }
    }
  }

  /** The price checks come first in a checkout. */
  lemma {:induction false} PriceCheckAt(mode: Mode, bill: Id, c: Cart, i: nat)
    requires i < |c.lines|
    ensures var p := Program(mode, CheckoutPlan(bill, c));
            && i < |p| && p[i] == Check(Branch(c.shop, c.lines[i].product), PriceIs(c.lines[i].sellingPrice, c.lines[i].unitPrice))
  {
    hide Blocks, CreditBlocks, Insertions, SortLines;
    var p := CheckoutPlan(bill, c);
    assert p.pre[i] == Check(Branch(c.shop, c.lines[i].product), PriceIs(c.lines[i].sellingPrice, c.lines[i].unitPrice));
  }

  /** After `j` events of a run, `t` already running, the committed rows asked this line's price. */
  ghost predicate AskedAt(mode: Mode, db: Db, es: seq<Event>, t: TxId, shop: Id, l: CartLine, j: nat) {
    && j < |es| && SinceThen(es, t, j) && Steps(mode, Start(db), es[..j]).Some? 
    && t in Steps(mode, Start(db), es[..j]).value.txs && Replay(db, Steps(mode, Start(db), es[..j]).value.history).Ok?
    && PriceNow(Replay(db, Steps(mode, Start(db), es[..j]).value.history).value, shop, l)
  }

  /**
   * However transactions interleave, a checkout that gets to its commit bills
   * every line at a price that was the branch's committed price at some moment
   * after it began.
   */
  lemma {:induction false} BilledPricesWereAsked(mode: Mode, db: Db, es: seq<Event>, t: TxId, bill: Id, c: Cart, i: nat)
    requires Canonical(db) && Steps(mode, Start(db), es).Some? && i < |c.lines|
    requires var s := Steps(mode, Start(db), es).value;
             t in s.txs && s.txs[t].request == Checkout(bill, c) && s.txs[t].pc == |s.txs[t].program|
    ensures exists j: nat :: AskedAt(mode, db, es, t, c.shop, c.lines[i], j)
  {
    hide Exec, Program, CheckoutPlan, Next, Holds, Consistent, Replay, PriceNow;
    var s := Steps(mode, Start(db), es).value;
    StepsRunOk(mode, db, es);
    assert Planned(mode, BaseOf(db, s), s.txs[t].request, s.txs[t].program);
    var program := s.txs[t].program;
    assert program == Program(mode, CheckoutPlan(bill, c));
    PriceCheckAt(mode, bill, c, i);
    ChecksPassed(mode, db, es, t, i);
    var j: nat :| PassedAt(mode, db, es, t, program, i, j);
    var m := Steps(mode, Start(db), es[..j]).value;
    StepsRunOk(mode, db, es[..j]);
    NoListingWrites(mode, bill, c, m, t, BaseOf(db, m), Branch(c.shop, c.lines[i].product));
    PriceCheckError(BaseOf(db, m), c.shop, c.lines[i]);
    assert AskedAt(mode, db, es, t, c.shop, c.lines[i], j);
  }

  /** A checkout sees listings as they are committed: it writes none. */
  lemma {:induction false} NoListingWrites(mode: Mode, bill: Id, c: Cart, m: State, t: TxId, base: Db, r: Row)
    requires Consistent(m, base) && t in m.txs && m.txs[t].program == Program(mode, CheckoutPlan(bill, c)) && r.Branch?
    ensures SeenAt(m, t, r) == Get(base, r)
  {
    hide Exec, Program, CheckoutPlan, Blocks, CreditBlocks, Insertions, PriceChecks;
    assert TxOk(m, t, base);
    assert CommittedAt(m, r) == Get(base, r);
    if Owns(m, t, r) {
      var p := CheckoutPlan(bill, c);
      assert r in Written(Done(m.txs[t]));
      DoneWritten(m.txs[t], r);
      ProgramRows(mode, p);
      CheckoutParts(bill, c);
      NoPriceWrites(c.shop, c.lines);
      InsertionsRows(bill, c);
    }
  }

  lemma {:induction false} CheckoutParts(bill: Id, c: Cart)
    ensures CheckoutPlan(bill, c).pre == PriceChecks(c.shop, c.lines) && CheckoutPlan(bill, c).post == Insertions(bill, c)
  {
  }

  lemma {:induction false} DoneWritten(tx: Tx, r: Row)
    requires tx.pc <= |tx.program| && r in Written(Done(tx))
    ensures r in Written(tx.program)
  {
    var i :| 0 <= i < |Done(tx)| && Done(tx)[i].Write? && Done(tx)[i].row == r;
    assert tx.program[i] == Done(tx)[i];
  }
}
