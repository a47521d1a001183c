// Concurrent transactions over the shared rows, as PostgreSQL runs them at
// READ COMMITTED: an UPDATE or INSERT takes its row's lock and holds it to
// commit or abort, changes the row in place and keeps the before-image; a
// plain SELECT sees the transaction's own changes and otherwise committed data.
module Engine {
  import opened Wrappers
  import opened Ids
  import opened Tables
  import opened Handlers

  type TxId = nat

  /** `undo` holds the before-image of every row the transaction has written. */
  datatype Tx = Tx(request: Request, program: seq<Stmt>, pc: nat, locals: Locals, undo: map<Row, Value>)

  datatype Entry = Entry(request: Request, program: seq<Stmt>)

  /** `live` includes uncommitted changes; `history` is the commit order. */
  datatype State = State(live: Db, locks: map<Row, TxId>, txs: map<TxId, Tx>, history: seq<Entry>)

  datatype Event = Begin(t: TxId, request: Request) | Advance(t: TxId) | Commit(t: TxId) | Abort(t: TxId)

  function Start(db: Db): State { State(db, map[], map[], []) }

  predicate Owns(s: State, t: TxId, r: Row) { t in s.txs && r in s.txs[t].undo }

  /** A row as other transactions see it. */
  function CommittedAt(s: State, r: Row): Value {
    if r in s.locks && Owns(s, s.locks[r], r) then s.txs[s.locks[r]].undo[r] else Get(s.live, r)
  }

  /** A row as transaction `t` sees it. */
  function SeenAt(s: State, t: TxId, r: Row): Value {
    if Owns(s, t, r) then Get(s.live, r) else CommittedAt(s, r)
  }

  function Restore(live: Db, undo: map<Row, Value>): (d: Db)
    ensures forall r :: Get(d, r) == if r in undo then undo[r] else Get(live, r)
  {
    map r | r in live.Keys + undo.Keys && (if r in undo then undo[r] else live[r]) != Absent
      :: if r in undo then undo[r] else live[r]
  }

  /** The subject row of a request, as committed now. */
  function SubjectNow(s: State, q: Request): Value {
    if Subject(q).Some? then CommittedAt(s, Subject(q).value) else Absent
  }

  /** Ids of new bills are random, so never one that exists or is being created. */
  predicate FreshId(s: State, q: Request) {
    q.Checkout? ==>
      && CommittedAt(s, BillRow(q.bill)) == Absent
      && forall u | u in s.txs :: s.txs[u].request.Checkout? ==> s.txs[u].request.bill != q.bill
  }

  /** The statement a running transaction issues next. */
  predicate AtWrite(s: State, t: TxId) {
    t in s.txs && s.txs[t].pc < |s.txs[t].program| && s.txs[t].program[s.txs[t].pc].Write?
  }

  function Target(s: State, t: TxId): Row
    requires AtWrite(s, t)
  {
    s.txs[t].program[s.txs[t].pc].row
  }

  /** Waiting for a row another transaction has locked. */
  predicate Blocked(s: State, t: TxId) {
    AtWrite(s, t) && Target(s, t) in s.locks && s.locks[Target(s, t)] != t
  }

  function Began(mode: Mode, s: State, t: TxId, q: Request, plan: Plan): State {
    s.(txs := s.txs[t := Tx(q, Program(mode, plan), 0, NO_LOCALS, map[])])
  }

  function Read(s: State, t: TxId): State
    requires t in s.txs
  {
    s.(txs := s.txs[t := s.txs[t].(pc := s.txs[t].pc + 1)])
  }

  function Saved(s: State, t: TxId, r: Row): map<Row, Value>
    requires t in s.txs
  {
    if r in s.txs[t].undo then s.txs[t].undo else s.txs[t].undo[r := Get(s.live, r)]
  }

  function Wrote(s: State, t: TxId, r: Row, v: Value, l: Locals): State
    requires t in s.txs
  {
    s.(live := Put(s.live, r, v), locks := s.locks[r := t],
       txs := s.txs[t := s.txs[t].(pc := s.txs[t].pc + 1, locals := l, undo := Saved(s, t, r))])
  }

  function Committed(s: State, t: TxId): State
    requires t in s.txs
  {
    s.(locks := s.locks - s.txs[t].undo.Keys, txs := s.txs - {t},
       history := s.history + [Entry(s.txs[t].request, s.txs[t].program)])
  }

  function Aborted(s: State, t: TxId): State
    requires t in s.txs
  {
    s.(live := Restore(s.live, s.txs[t].undo), locks := s.locks - s.txs[t].undo.Keys, txs := s.txs - {t})
  }

  function Advanced(s: State, t: TxId): Option<State>
    requires t in s.txs && s.txs[t].pc < |s.txs[t].program| && !Blocked(s, t)
  {
    match s.txs[t].program[s.txs[t].pc]
    case Fail(_) => None
    case Check(r, c) => if Holds(c, SeenAt(s, t, r)).Ok? then Some(Read(s, t)) else None
    case Write(r, op) =>
      match Apply(op, Get(s.live, r), s.txs[t].locals)
      case Err(_) => None
      case Ok((v, l)) => Some(Wrote(s, t, r, v, l))
  }

  /** One step of the system; None when it cannot happen now. */
  function Next(mode: Mode, s: State, e: Event): Option<State> {
    match e
    case Begin(t, q) =>
      var plan := PlanOf(SubjectNow(s, q), q);
      if t in s.txs || plan.None? || !FreshId(s, q) then None else Some(Began(mode, s, t, q, plan.value))
    case Advance(t) =>
      if t !in s.txs || s.txs[t].pc >= |s.txs[t].program| || Blocked(s, t) then None else Advanced(s, t)
    case Commit(t) =>
      if t !in s.txs || s.txs[t].pc != |s.txs[t].program| then None else Some(Committed(s, t))
    case Abort(t) =>
      if t !in s.txs then None else Some(Aborted(s, t))
  }

  function Steps(mode: Mode, s: State, es: seq<Event>): Option<State> {
    if es == [] then Some(s)
    else
      match Steps(mode, s, es[..|es| - 1])
      case None => None
      case Some(m) => Next(mode, m, es[|es| - 1])
  }

  /** The committed transactions' writes, one transaction after another. */
  function Replay(db: Db, h: seq<Entry>): Result<Db, Error> {
    if h == [] then Ok(db)
    else
      match Replay(db, h[..|h| - 1])
      case Err(e) => Err(e)
      case Ok(d) =>
        match Run(false, h[|h| - 1].program, d)
        case Err(e) => Err(e)
        case Ok((d', _)) => Ok(d')
  }

  // -------------------------------------------------------------- invariant

  function Done(tx: Tx): seq<Stmt>
    requires tx.pc <= |tx.program|
  {
    tx.program[..tx.pc]
  }

  ghost predicate LocksMatch(s: State) {
    && (forall r | r in s.locks :: Owns(s, s.locks[r], r))
    && (forall t, r | Owns(s, t, r) :: r in s.locks && s.locks[r] == t)
  }

  /** `base` is what the unlocked reader sees. */
  ghost predicate Shows(s: State, base: Db) {
    forall r :: CommittedAt(s, r) == Get(base, r)
  }

  /** What a running transaction has done so far is what its statements do from the committed rows. */
  ghost predicate TxOk(s: State, t: TxId, base: Db) {
    t in s.txs ==>
      var tx := s.txs[t];
      && tx.pc <= |tx.program|
      && tx.undo.Keys == Written(Done(tx))
      && var o := Run(false, Done(tx), base);
         o.Ok? && o.value.1 == tx.locals && forall r :: Get(o.value.0, r) == SeenAt(s, t, r)
  }

  ghost predicate Consistent(s: State, base: Db) {
    && Canonical(base)
    && LocksMatch(s)
    && Shows(s, base)
    && forall t :: TxOk(s, t, base)
  }

  /** An unchanged transaction stays in order while its rows and the committed ones stay put. */
  lemma {:induction false} Bystander(a: State, b: State, u: TxId, base: Db, base': Db)
    requires u in a.txs && u in b.txs && a.txs[u] == b.txs[u]
    requires TxOk(a, u, base) && Shows(b, base')
    requires forall r | r in a.txs[u].undo :: Get(base, r) == Get(base', r) && Get(a.live, r) == Get(b.live, r)
    ensures TxOk(b, u, base')
  {
    var p := Done(a.txs[u]);
    ExecFrame(p, base, base', NO_LOCALS);
    var o := Run(false, p, base');
    forall r ensures Get(o.value.0, r) == SeenAt(b, u, r) {
      if r in Written(p) {
        assert Get(o.value.0, r) == Get(Run(false, p, base).value.0, r) == SeenAt(a, u, r);
      } else {
        Untouched(false, p, base', NO_LOCALS, r);
      }
    }
  }

  lemma {:induction false} BeganOk(mode: Mode, s: State, t: TxId, q: Request, plan: Plan, base: Db)
    requires Consistent(s, base) && t !in s.txs
    ensures Consistent(Began(mode, s, t, q, plan), base)
  {
    var n := Began(mode, s, t, q, plan);
    assert forall r, u :: Owns(n, u, r) <==> Owns(s, u, r);
    forall r ensures CommittedAt(n, r) == Get(base, r) {
      assert CommittedAt(s, r) == CommittedAt(n, r);
    }
    forall u ensures TxOk(n, u, base) {
      if u != t && u in n.txs {
        Bystander(s, n, u, base, base);
      }
    }
  }

  lemma {:induction false} WrittenSnoc(p: seq<Stmt>, x: Stmt)
    ensures Written(p + [x]) == Written(p) + (if x.Write? then {x.row} else {})
  {
    assert (p + [x])[..|p|] == p;
    WrittenPrefix(p + [x]);
  }

  lemma {:induction false} ReadOk(s: State, t: TxId, base: Db)
    requires Consistent(s, base) && t in s.txs
    requires s.txs[t].pc < |s.txs[t].program| && s.txs[t].program[s.txs[t].pc].Check?
    ensures Consistent(Read(s, t), base)
  {
    var n := Read(s, t);
    var tx := s.txs[t];
    assert forall r, u :: Owns(n, u, r) <==> Owns(s, u, r);
    forall r ensures CommittedAt(n, r) == Get(base, r) {
      assert CommittedAt(s, r) == CommittedAt(n, r);
    }
    assert Done(n.txs[t]) == Done(tx) + [tx.program[tx.pc]];
    ExecStep(false, Done(tx), tx.program[tx.pc], base, NO_LOCALS);
    WrittenSnoc(Done(tx), tx.program[tx.pc]);
    assert TxOk(s, t, base);
    forall u ensures TxOk(n, u, base) {
      if u != t && u in n.txs {
        Bystander(s, n, u, base, base);
      }
    }
  }

  ghost predicate Writing(s: State, t: TxId, r: Row, v: Value, l: Locals) {
    && AtWrite(s, t) && !Blocked(s, t) && Target(s, t) == r
    && Apply(s.txs[t].program[s.txs[t].pc].op, Get(s.live, r), s.txs[t].locals) == Ok((v, l))
  }

  lemma {:induction false} WroteShows(s: State, t: TxId, r: Row, v: Value, l: Locals, base: Db)
    requires Consistent(s, base) && Writing(s, t, r, v, l)
    ensures Shows(Wrote(s, t, r, v, l), base)
    ensures LocksMatch(Wrote(s, t, r, v, l))
  {
    var n := Wrote(s, t, r, v, l);
    assert forall x, u :: Owns(n, u, x) <==> (Owns(s, u, x) || (u == t && x == r));
    forall x ensures CommittedAt(n, x) == Get(base, x) {
      if x == r {
        assert r in s.locks ==> s.locks[r] == t && Owns(s, t, r);
        assert Owns(s, t, r) ==> r in s.locks && s.locks[r] == t;
        assert CommittedAt(n, r) == Saved(s, t, r)[r];
      } else {
        assert n.locks - {r} == s.locks - {r};
        assert x in s.locks ==> n.locks[x] == s.locks[x] && Owns(s, s.locks[x], x);
      }
      assert CommittedAt(s, x) == CommittedAt(n, x);
    }
  }

  lemma {:induction false} WroteTxOk(s: State, t: TxId, r: Row, v: Value, l: Locals, base: Db)
    requires Consistent(s, base) && Writing(s, t, r, v, l)
    ensures TxOk(Wrote(s, t, r, v, l), t, base)
  {
    var n := Wrote(s, t, r, v, l);
    var tx := s.txs[t];
    var x := tx.program[tx.pc];
    WroteShows(s, t, r, v, l, base);
    assert TxOk(s, t, base);
    assert Done(n.txs[t]) == Done(tx) + [x];
    ExecStep(false, Done(tx), x, base, NO_LOCALS);
    WrittenSnoc(Done(tx), x);
    assert SeenAt(s, t, r) == Get(s.live, r);
    var before := Run(false, Done(tx), base).value.0;
    forall y ensures Get(Put(before, r, v), y) == SeenAt(n, t, y) {
      if y != r {
        assert Get(before, y) == SeenAt(s, t, y);
        assert CommittedAt(n, y) == Get(base, y) == CommittedAt(s, y);
        assert Owns(n, t, y) <==> Owns(s, t, y);
      }
    }
  }

  lemma {:induction false} WroteOk(s: State, t: TxId, r: Row, v: Value, l: Locals, base: Db)
    requires Consistent(s, base) && Writing(s, t, r, v, l)
    ensures Consistent(Wrote(s, t, r, v, l), base)
  {
    var n := Wrote(s, t, r, v, l);
    WroteShows(s, t, r, v, l, base);
    WroteTxOk(s, t, r, v, l, base);
    forall u ensures TxOk(n, u, base) {
      if u != t && u in n.txs {
        assert !Owns(s, u, r);
        Bystander(s, n, u, base, base);
      }
    }
  }

  /** Ending a transaction frees exactly its own rows. */
  lemma {:induction false} Released(s: State, t: TxId, n: State)
    requires LocksMatch(s) && t in s.txs
    requires n.txs == s.txs - {t} && n.locks == s.locks - s.txs[t].undo.Keys
    ensures LocksMatch(n)
    ensures forall r :: r in n.locks <==> r in s.locks && s.locks[r] != t
  {
    forall r | r in s.locks ensures r in n.locks <==> s.locks[r] != t {
      assert Owns(s, s.locks[r], r);
      if r in s.txs[t].undo {
        assert Owns(s, t, r);
      }
    }
    forall u, r | Owns(n, u, r) ensures r in n.locks && n.locks[r] == u {
      assert Owns(s, u, r);
    }
    forall r | r in n.locks ensures Owns(n, n.locks[r], r) {
      assert Owns(s, s.locks[r], r);
    }
  }

  lemma {:induction false} AbortedShows(s: State, t: TxId, base: Db)
    requires Consistent(s, base) && t in s.txs
    ensures Shows(Aborted(s, t), base)
    ensures LocksMatch(Aborted(s, t))
  {
    var n := Aborted(s, t);
    assert forall x, u :: Owns(n, u, x) <==> (Owns(s, u, x) && u != t);
    Released(s, t, n);
    forall x ensures CommittedAt(n, x) == Get(base, x) {
      assert CommittedAt(s, x) == CommittedAt(n, x) by {
        if Owns(s, t, x) {
          assert s.locks[x] == t;
        }
      }
    }
  }

  /** An abort leaves no trace: committed rows, free rows and what every other transaction sees are as before. */
  lemma {:induction false} AbortLeavesNoTrace(s: State, t: TxId, base: Db)
    requires Consistent(s, base) && t in s.txs
    ensures var n := Aborted(s, t);
            && Consistent(n, base) && n.history == s.history
            && (forall r :: r in n.locks <==> r in s.locks && s.locks[r] != t)
            && (forall r :: r !in n.locks ==> Get(n.live, r) == Get(base, r))
            && n.txs.Keys == s.txs.Keys - {t}
            && (forall u | u in n.txs :: n.txs[u] == s.txs[u] && forall r :: SeenAt(n, u, r) == SeenAt(s, u, r))
  {
    var n := Aborted(s, t);
    AbortedShows(s, t, base);
    Released(s, t, n);
    forall u | u in n.txs ensures TxOk(n, u, base) && forall r :: SeenAt(n, u, r) == SeenAt(s, u, r) {
      forall r | r in s.txs[u].undo ensures Get(s.live, r) == Get(n.live, r) {
        assert Owns(s, u, r);
        assert s.locks[r] == u;
        assert !Owns(s, t, r);
      }
      Bystander(s, n, u, base, base);
      forall r ensures SeenAt(n, u, r) == SeenAt(s, u, r) {
        assert CommittedAt(n, r) == Get(base, r) == CommittedAt(s, r);
      }
    }
    forall r | r !in n.locks ensures Get(n.live, r) == Get(base, r) {
      assert CommittedAt(n, r) == Get(base, r);
    }
  }

  ghost predicate Finished(s: State, t: TxId) {
    t in s.txs && s.txs[t].pc == |s.txs[t].program|
  }

  lemma {:induction false} CommittedShows(s: State, t: TxId, base: Db)
    requires Consistent(s, base) && Finished(s, t)
    ensures LocksMatch(Committed(s, t))
    ensures Run(false, s.txs[t].program, base).Ok?
    ensures Shows(Committed(s, t), Run(false, s.txs[t].program, base).value.0)
  {
    var n := Committed(s, t);
    assert TxOk(s, t, base);
    assert Done(s.txs[t]) == s.txs[t].program;
    assert forall x, u :: Owns(n, u, x) <==> (Owns(s, u, x) && u != t);
    Released(s, t, n);
    forall x ensures CommittedAt(n, x) == SeenAt(s, t, x) {
      if Owns(s, t, x) {
        assert s.locks[x] == t;
      }
    }
  }

  /** A commit publishes exactly what the program does to the rows committed so far. */
  lemma {:induction false} CommitPublishes(s: State, t: TxId, base: Db)
    requires Consistent(s, base) && Finished(s, t)
    ensures Run(false, s.txs[t].program, base).Ok?
    ensures Consistent(Committed(s, t), Run(false, s.txs[t].program, base).value.0)
  {
    var n := Committed(s, t);
    CommittedShows(s, t, base);
    var base' := Run(false, s.txs[t].program, base).value.0;
    ExecCanonical(false, s.txs[t].program, base, NO_LOCALS);
    forall u ensures TxOk(n, u, base') {
      if u in n.txs {
        forall r | r in s.txs[u].undo ensures Get(base, r) == Get(base', r) {
          assert Owns(s, u, r) && Owns(n, u, r);
          assert CommittedAt(s, r) == s.txs[u].undo[r] == CommittedAt(n, r);
        }
        Bystander(s, n, u, base, base');
      }
    }
  }

  /** The committed rows after a step. */
  function BaseAfter(s: State, e: Event, base: Db): Db {
    if e.Commit? && e.t in s.txs && Run(false, s.txs[e.t].program, base).Ok?
    then Run(false, s.txs[e.t].program, base).value.0 else base
  }

  lemma {:induction false} NextOk(mode: Mode, s: State, e: Event, base: Db)
    requires Consistent(s, base) && Next(mode, s, e).Some?
    ensures Consistent(Next(mode, s, e).value, BaseAfter(s, e, base))
    ensures e.Commit? ==> Run(false, s.txs[e.t].program, base).Ok?
  {
    match e
    case Begin(t, q) => BeganOk(mode, s, t, q, PlanOf(SubjectNow(s, q), q).value, base);
    case Advance(t) =>
      var x := s.txs[t].program[s.txs[t].pc];
      if x.Write? {
        var (v, l) := Apply(x.op, Get(s.live, x.row), s.txs[t].locals).value;
        WroteOk(s, t, x.row, v, l, base);
      } else {
        ReadOk(s, t, base);
      }
    case Commit(t) => CommitPublishes(s, t, base);
    case Abort(t) => AbortLeavesNoTrace(s, t, base);
  }

  lemma {:induction false} StartOk(db: Db)
    requires Canonical(db)
    ensures Consistent(Start(db), db)
  {
  }

  /**
   * Every interleaving of every set of transactions, aborts included, commits
   * exactly the rows obtained by running the committed transactions one after
   * another in commit order; every conditional update succeeds there too.
   */
  lemma {:induction false} Serialisable(mode: Mode, db: Db, es: seq<Event>)
    requires Canonical(db)
    requires Steps(mode, Start(db), es).Some?
    ensures var s := Steps(mode, Start(db), es).value;
            Replay(db, s.history).Ok? && Consistent(s, Replay(db, s.history).value)
    decreases |es|
  {
    if es == [] {
      StartOk(db);
    } else {
      Serialisable(mode, db, es[..|es| - 1]);
      var m := Steps(mode, Start(db), es[..|es| - 1]).value;
      var e := es[|es| - 1];
      NextOk(mode, m, e, Replay(db, m.history).value);
      if e.Commit? {
        var s := Steps(mode, Start(db), es).value;
        assert s.history[..|s.history| - 1] == m.history;
      }
    }
  }
}
