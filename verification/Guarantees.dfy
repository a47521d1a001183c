// The promises of the ledger, over every interleaved run of every request.
module Guarantees {
  import opened Wrappers
  import opened Ids
  import opened Tables
  import opened Handlers
  import opened Engine
  import opened Runs
  import opened Totals
  import opened Conservation
  import opened Journals

  /** Everything the committed rows promise. */
  ghost predicate Good(db: Db) { Conserved(db) && LogsOk(db) && BalancesOk(db) && BillBookOk(db) }

  lemma {:induction false} GoodKept(mode: Mode, db: Db, q: Request)
    requires PlanIn(db, q).Some? && Run(false, Program(mode, PlanIn(db, q).value), db).Ok?
    requires Good(db)
    ensures Good(Run(false, Program(mode, PlanIn(db, q).value), db).value.0)
  {
    ConservedKept(mode, db, q);
    JournalsKept(mode, db, q);
    BillBookKept(mode, db, q);
  }

  /** The committed rows are good after any interleaving of any transactions, aborted ones included. */
  lemma {:induction false} EveryRunGood(mode: Mode, db: Db, es: seq<Event>)
    requires Canonical(db) && Good(db)
    requires Steps(mode, Start(db), es).Some?
    ensures var s := Steps(mode, Start(db), es).value;
            Replay(db, s.history).Ok? && Consistent(s, BaseOf(db, s)) && Good(BaseOf(db, s))
    decreases |es|
  {
    hide Exec, Run, Program, PlanIn, Good, Next;
    StepsRunOk(mode, db, es);
    if es != [] {
      var m := LastStep(mode, db, es);
      var e := es[|es| - 1];
      EveryRunGood(mode, db, es[..|es| - 1]);
      if e.Commit? {
        GoodKept(mode, BaseOf(db, m), m.txs[e.t].request);
      }
    }
  }

  /**
   * Conservation, in the shop's terms: after any run, no stock row is
   * negative; a branch's stock of a product is its adjustments plus unreversed
   * purchases minus the lines of PAID bills; and Product.stock is the sum of
   * that product's stock rows over all branches.
   */
  lemma {:induction false} StockAccounts(mode: Mode, db: Db, es: seq<Event>, shop: Id, product: Id, owner: Option<Id>)
    requires Canonical(db) && Good(db) && Steps(mode, Start(db), es).Some?
    ensures Replay(db, Steps(mode, Start(db), es).value.history).Ok?
    ensures var now := BaseOf(db, Steps(mode, Start(db), es).value);
            && Quantity(now, Key(shop, owner, product)) >= 0
            && Total(BranchQty(shop, product), now) ==
               Total(Adjusted(shop, product), now) + Total(ReceivedQty(shop, product), now) - Total(SoldQty(shop, product), now)
            && (Get(now, Product(product)).ProductV? ==>
                  Get(now, Product(product)).stock == Total(AllQty(product), now))
  {
    EveryRunGood(mode, db, es);
    var now := BaseOf(db, Steps(mode, Start(db), es).value);
    assert LogOk(now, Key(shop, owner, product));
    if Get(now, Product(product)).ProductV? {
      StockOfRow(now, product);
    }
  }

  /** Each movement starts where its predecessor ended, the first at zero. */
  ghost predicate Linked(log: seq<Movement>) {
    forall i | 0 <= i < |log| ::
      && log[i].previousStock == (if i == 0 then 0 else log[i - 1].newStock)
      && log[i].newStock == log[i].previousStock + log[i].quantity
  }

  lemma {:induction false} ChainLinks(log: seq<Movement>)
    requires Chained(log)
    ensures Linked(log)
    decreases |log|
  {
    if log != [] {
      var front := log[..|log| - 1];
      ChainLinks(front);
      forall i | 0 <= i < |log|
        ensures log[i].previousStock == (if i == 0 then 0 else log[i - 1].newStock)
        ensures log[i].newStock == log[i].previousStock + log[i].quantity
      {
        if i < |front| {
          assert front[i] == log[i] && (i > 0 ==> front[i - 1] == log[i - 1]);
        } else if i > 0 {
          assert front[i - 1] == log[i - 1];
        }
      }
    }
  }

  /** After any run, replaying a stock row's movements in commit order from zero gives its quantity. */
  lemma {:induction false} MovementsReplay(mode: Mode, db: Db, es: seq<Event>, k: Key)
    requires Canonical(db) && Good(db) && Steps(mode, Start(db), es).Some?
    ensures Replay(db, Steps(mode, Start(db), es).value.history).Ok?
    ensures var now := BaseOf(db, Steps(mode, Start(db), es).value);
            var log := Entries(Get(now, Log(k)));
            Linked(log) && ReplayStock(log) == Quantity(now, k)
  {
    EveryRunGood(mode, db, es);
    LogFacts(BaseOf(db, Steps(mode, Start(db), es).value), k);
  }

  lemma {:induction false} LogFacts(now: Db, k: Key)
    requires LogsOk(now)
    ensures Linked(Entries(Get(now, Log(k))))
    ensures ReplayStock(Entries(Get(now, Log(k)))) == Quantity(now, k)
  {
    assert LogOk(now, k);
    ChainedReplay(Entries(Get(now, Log(k))));
    ChainLinks(Entries(Get(now, Log(k))));
  }

  // ---------------------------------------------------- exactly-once cancellation

  function CancelCount(h: seq<Entry>, b: Id): nat {
    if h == [] then 0
    else CancelCount(h[..|h| - 1], b) + if h[|h| - 1].request.Cancel? && h[|h| - 1].request.bill == b then 1 else 0
  }

  predicate IsCancelled(db: Db, b: Id) { Get(db, BillRow(b)).BillV? && Get(db, BillRow(b)).status == CANCELLED }

  /** A committed cancellation finds its bill PAID and leaves it CANCELLED. */
  lemma {:induction false} CancelFlips(mode: Mode, db: Db, b: Id, core: BillCore, actor: Id)
    requires Run(false, Program(mode, CancelPlan(b, core, actor)), db).Ok?
    ensures Get(db, BillRow(b)).BillV? && Get(db, BillRow(b)).status == PAID
    ensures IsCancelled(Run(false, Program(mode, CancelPlan(b, core, actor)), db).value.0, b)
  {
    var p := CancelPlan(b, core, actor);
    var x, y, z, w := RunPhases(false, mode, p, db);
    ExecOne(false, Write(BillRow(b), Claim), db, NO_LOCALS);
    BlocksRows(mode, p.moves);
    CreditRows(p.credits);
    Untouched(false, Blocks(mode, p.moves), x.0, x.1, BillRow(b));
    Untouched(false, CreditBlocks(p.credits), z.0, z.1, BillRow(b));
  }

  lemma {:induction false} OthersDoNotCancel(mode: Mode, db: Db, q: Request, b: Id)
    requires PlanIn(db, q).Some? && Run(false, Program(mode, PlanIn(db, q).value), db).Ok?
    requires !(q.Cancel? && q.bill == b)
    ensures IsCancelled(Run(false, Program(mode, PlanIn(db, q).value), db).value.0, b) == IsCancelled(db, b)
  {
    hide Exec, Program, Blocks, CreditBlocks;
    var p := PlanIn(db, q).value;
    if q.Checkout? && q.bill == b {
      var x, y, z, w := RunPhases(false, mode, p, db);
      InsertionsEffect(false, b, q.cart, y.0, y.1);
      BlocksRows(mode, p.moves);
      CreditRows(p.credits);
      Untouched(false, p.pre, db, NO_LOCALS, BillRow(b));
      Untouched(false, Blocks(mode, p.moves), x.0, x.1, BillRow(b));
      Untouched(false, CreditBlocks(p.credits), z.0, z.1, BillRow(b));
    } else {
      RequestRows(mode, if Subject(q).Some? then Get(db, Subject(q).value) else Absent, q);
      Untouched(false, Program(mode, p), db, NO_LOCALS, BillRow(b));
    }
  }

  /** A committed transaction cancels a bill exactly if it is a cancellation of that bill, which it then finds PAID. */
  lemma {:induction false} CancelStep(mode: Mode, db: Db, q: Request, b: Id)
    requires PlanIn(db, q).Some? && Run(false, Program(mode, PlanIn(db, q).value), db).Ok?
    ensures var d := Run(false, Program(mode, PlanIn(db, q).value), db).value.0;
            if q.Cancel? && q.bill == b then !IsCancelled(db, b) && IsCancelled(d, b)
            else IsCancelled(d, b) == IsCancelled(db, b)
  {
    hide Exec, Run, Program;
    if q.Cancel? && q.bill == b {
      CancelFlips(mode, db, b, Get(db, BillRow(b)).core, q.actor);
    } else {
      OthersDoNotCancel(mode, db, q, b);
    }
  }

  /**
   * However cancel calls and everything else interleave, at most one
   * cancellation of a bill ever commits, and exactly one has iff it is CANCELLED.
   */
  lemma {:induction false} CancelledOnce(mode: Mode, db: Db, es: seq<Event>, b: Id)
    requires Canonical(db) && !IsCancelled(db, b) && Steps(mode, Start(db), es).Some?
    ensures var s := Steps(mode, Start(db), es).value;
            && Replay(db, s.history).Ok?
            && CancelCount(s.history, b) == if IsCancelled(BaseOf(db, s), b) then 1 else 0
    decreases |es|
  {
    hide Exec, Run, Program, Next, IsCancelled;
    if es != [] {
      var m := LastStep(mode, db, es);
      var e := es[|es| - 1];
      CancelledOnce(mode, db, es[..|es| - 1], b);
      if e.Commit? {
        CancelStep(mode, BaseOf(db, m), m.txs[e.t].request, b);
      }
    }
  }

  /**
   * After any run, a bill that is CANCELLED has had each product's merged
   * quantity put back at its own branch once and its charges reversed once;
   * for any other bill nothing was ever put back or reversed.
   */
  lemma {:induction false} CancellationEffects(mode: Mode, db: Db, es: seq<Event>, b: Id, shop: Id, product: Id)
    requires Canonical(db) && Good(db) && Steps(mode, Start(db), es).Some?
    ensures Replay(db, Steps(mode, Start(db), es).value.history).Ok?
    ensures var now := BaseOf(db, Steps(mode, Start(db), es).value);
            UndoneExactly(now, b, shop, product)
  {
    EveryRunGood(mode, db, es);
    UndoneFacts(BaseOf(db, Steps(mode, Start(db), es).value), b, shop, product);
  }

  /** Stock put back and credit reversed for a bill: all of it once if CANCELLED, none of it otherwise. */
  ghost predicate UndoneExactly(now: Db, b: Id, shop: Id, product: Id) {
    if IsCancelled(now, b) then
      var core := Get(now, BillRow(b)).core;
      && Total(RestoredQty(b, shop, product), now) == (if core.shop == shop then LineQty(core.lines, product) else 0)
      && Total(Refunded(b), now) == Sum(core.charges) == Total(Charged(b), now)
    else
      Total(RestoredQty(b, shop, product), now) == 0 && Total(Refunded(b), now) == 0
  }

  lemma {:induction false} UndoneFacts(now: Db, b: Id, shop: Id, product: Id)
    requires Conserved(now)
    ensures UndoneExactly(now, b, shop, product)
  {
    CancelledRow(now, b, shop, product);
    BillChargesRow(now, b);
  }

  lemma {:induction false} BillChargesRow(db: Db, b: Id)
    ensures Total(BillCharges(b), db) == Eval(BillCharges(b), BillRow(b), Get(db, BillRow(b)))
  {
    if BillRow(b) in db {
      TotalSplit(BillCharges(b), db, BillRow(b));
    } else {
      assert db - {BillRow(b)} == db;
    }
    NothingElse(BillCharges(b), BillRow(b), db - {BillRow(b)});
  }

  // ------------------------------------------------------------ idempotency keys

  lemma {:induction false} PrefixExtends(mode: Mode, db: Db, es: seq<Event>, i: nat)
    requires Canonical(db) && i <= |es| && Steps(mode, Start(db), es).Some?
    ensures Steps(mode, Start(db), es[..i]).Some?
    ensures Replay(db, Steps(mode, Start(db), es[..i]).value.history).Ok?
    ensures Replay(db, Steps(mode, Start(db), es).value.history).Ok?
    ensures Extends(BaseOf(db, Steps(mode, Start(db), es[..i]).value), BaseOf(db, Steps(mode, Start(db), es).value))
    decreases |es|
  {
    StepsRunOk(mode, db, es);
    if i == |es| {
      assert es[..i] == es;
    } else {
      var front := es[..|es| - 1];
      PrefixExtends(mode, db, front, i);
      assert front[..i] == es[..i];
      StepsRunOk(mode, db, front);
      var m := Steps(mode, Start(db), front).value;
      NextRunOk(mode, m, es[|es| - 1], BaseOf(db, m));
      NextHistory(mode, db, m, es[|es| - 1]);
      ExtendsTransitive(BaseOf(db, Steps(mode, Start(db), es[..i]).value), BaseOf(db, m),
                        BaseOf(db, Steps(mode, Start(db), es).value));
    }
  }

  lemma {:induction false} ExtendsTransitive(a: Db, b: Db, c: Db)
    requires Extends(a, b) && Extends(b, c)
    ensures Extends(a, c)
  {
    forall r ensures Keeps(Get(a, r), Get(c, r)) {
      assert Keeps(Get(a, r), Get(b, r)) && Keeps(Get(b, r), Get(c, r));
    }
  }

  /**
   * A checkout call with this key returns `bill` after `i` events: it reads
   * the committed key row (the replay fast path, or the fallback after a
   * unique violation), or its own transaction commits as event `i - 1`.
   */
  ghost predicate Returns(mode: Mode, db: Db, es: seq<Event>, i: nat, shop: Id, token: string, bill: Id) {
    && i <= |es| && Steps(mode, Start(db), es[..i]).Some?
    && var s := Steps(mode, Start(db), es[..i]).value;
       || CommittedAt(s, IdemKey(shop, token)) == KeyV(bill)
       || (i > 0 && es[i - 1].Commit? && Steps(mode, Start(db), es[..i - 1]).Some?
           && es[i - 1].t in Steps(mode, Start(db), es[..i - 1]).value.txs
           && var q := Steps(mode, Start(db), es[..i - 1]).value.txs[es[i - 1].t].request;
              q.Checkout? && q.bill == bill && q.cart.shop == shop && q.cart.token == Some(token))
  }

  /** A committed checkout leaves its key pointing at its bill. */
  lemma {:induction false} CheckoutSetsKey(mode: Mode, db: Db, bill: Id, c: Cart)
    requires Run(false, Program(mode, CheckoutPlan(bill, c)), db).Ok? && c.token.Some?
    ensures Get(db, IdemKey(c.shop, c.token.value)) == Absent
    ensures Get(Run(false, Program(mode, CheckoutPlan(bill, c)), db).value.0, IdemKey(c.shop, c.token.value)) == KeyV(bill)
  {
    hide Exec, Program, Run, Blocks, CreditBlocks;
    var p := CheckoutPlan(bill, c);
    var x, y, z, w := RunPhases(false, mode, p, db);
    InsertionsEffect(false, bill, c, y.0, y.1);
    BlocksRows(mode, p.moves);
    CreditRows(p.credits);
    Untouched(false, p.pre, db, NO_LOCALS, IdemKey(c.shop, c.token.value));
    Untouched(false, Blocks(mode, p.moves), x.0, x.1, IdemKey(c.shop, c.token.value));
    Untouched(false, CreditBlocks(p.credits), z.0, z.1, IdemKey(c.shop, c.token.value));
  }

  lemma {:induction false} ReturnIsCommitted(mode: Mode, db: Db, es: seq<Event>, i: nat, shop: Id, token: string, bill: Id)
    requires Canonical(db) && Returns(mode, db, es, i, shop, token, bill)
    ensures Replay(db, Steps(mode, Start(db), es[..i]).value.history).Ok?
    ensures Get(BaseOf(db, Steps(mode, Start(db), es[..i]).value), IdemKey(shop, token)) == KeyV(bill)
  {
    hide Exec, Program, CheckoutPlan, Next;
    StepsRunOk(mode, db, es[..i]);
    var s := Steps(mode, Start(db), es[..i]).value;
    if CommittedAt(s, IdemKey(shop, token)) != KeyV(bill) {
      var front := es[..i - 1];
      assert es[..i][..i - 1] == front;
      StepsRunOk(mode, db, front);
      var m := Steps(mode, Start(db), front).value;
      var e := es[i - 1];
      NextTxs(mode, m, e);
      NextRunOk(mode, m, e, BaseOf(db, m));
      NextHistory(mode, db, m, e);
      assert Planned(mode, BaseOf(db, m), m.txs[e.t].request, m.txs[e.t].program);
      CheckoutSetsKey(mode, BaseOf(db, m), bill, m.txs[e.t].request.cart);
    }
  }

  /** All calls that share a shop and key and return normally, in any interleaving, return the same bill. */
  lemma {:induction false} OneBillPerKey(mode: Mode, db: Db, es: seq<Event>, i: nat, j: nat, shop: Id, token: string, bill: Id, bill': Id)
    requires Canonical(db) && Steps(mode, Start(db), es).Some?
    requires Returns(mode, db, es, i, shop, token, bill) && Returns(mode, db, es, j, shop, token, bill')
    ensures bill == bill'
  {
    ReturnIsCommitted(mode, db, es, i, shop, token, bill);
    ReturnIsCommitted(mode, db, es, j, shop, token, bill');
    PrefixExtends(mode, db, es, i);
    PrefixExtends(mode, db, es, j);
    var now := BaseOf(db, Steps(mode, Start(db), es).value);
    assert Keeps(KeyV(bill), Get(now, IdemKey(shop, token)));
    assert Keeps(KeyV(bill'), Get(now, IdemKey(shop, token)));
  }

  function KeyCount(h: seq<Entry>, shop: Id, token: string): nat {
    if h == [] then 0
    else
      KeyCount(h[..|h| - 1], shop, token) + if UsesKey(h[|h| - 1].request, shop, token) then 1 else 0
  }

  predicate UsesKey(q: Request, shop: Id, token: string) {
    q.Checkout? && q.cart.shop == shop && q.cart.token == Some(token)
  }

  /** A transaction takes a free key if it is that key's checkout, and otherwise leaves the key alone. */
  lemma {:induction false} KeyStep(mode: Mode, db: Db, q: Request, shop: Id, token: string)
    requires PlanIn(db, q).Some? && Run(false, Program(mode, PlanIn(db, q).value), db).Ok?
    ensures var d := Run(false, Program(mode, PlanIn(db, q).value), db).value.0;
            if UsesKey(q, shop, token)
            then Get(db, IdemKey(shop, token)) == Absent && Get(d, IdemKey(shop, token)) == KeyV(q.bill)
            else Get(d, IdemKey(shop, token)) == Get(db, IdemKey(shop, token))
  {
    hide Exec, Program, CheckoutPlan, CancelPlan, ReceivePlan, ReversePlan;
    if UsesKey(q, shop, token) {
      CheckoutSetsKey(mode, db, q.bill, q.cart);
    } else {
      RequestRows(mode, if Subject(q).Some? then Get(db, Subject(q).value) else Absent, q);
      Untouched(false, Program(mode, PlanIn(db, q).value), db, NO_LOCALS, IdemKey(shop, token));
    }
  }

  /** At most one checkout of a shop and key ever commits, so its stock and credit move at most once. */
  lemma {:induction false} CheckedOutOnce(mode: Mode, db: Db, es: seq<Event>, shop: Id, token: string)
    requires Canonical(db) && Get(db, IdemKey(shop, token)) == Absent && Steps(mode, Start(db), es).Some?
    ensures var s := Steps(mode, Start(db), es).value;
            && Replay(db, s.history).Ok?
            && KeyCount(s.history, shop, token) == if Get(BaseOf(db, s), IdemKey(shop, token)) == Absent then 0 else 1
    decreases |es|
  {
    hide Exec, Run, Program, PlanIn, Next, UsesKey;
    if es != [] {
      var m := LastStep(mode, db, es);
      var e := es[|es| - 1];
      CheckedOutOnce(mode, db, es[..|es| - 1], shop, token);
      if e.Commit? {
        KeyStep(mode, BaseOf(db, m), m.txs[e.t].request, shop, token);
      }
    }
  }

  /**
   * The fallback read after a unique violation on the key, made any number of
   * steps after the refused insert (which was after `i` events) and so after
   * the abort, always finds the same committed bill of that shop and key.
   */
  lemma {:induction false} ViolationFindsBill(mode: Mode, db: Db, es: seq<Event>, i: nat, t: TxId, shop: Id, token: string, bill: Id)
    requires Canonical(db) && Good(db) && i <= |es| && Steps(mode, Start(db), es).Some? && Steps(mode, Start(db), es[..i]).Some?
    requires var s := Steps(mode, Start(db), es[..i]).value;
             && AtWrite(s, t) && !Blocked(s, t) && !Owns(s, t, IdemKey(shop, token))
             && s.txs[t].program[s.txs[t].pc] == Write(IdemKey(shop, token), InsertKey(bill))
             && Apply(InsertKey(bill), Get(s.live, IdemKey(shop, token)), s.txs[t].locals) == Err(UniqueViolation)
    ensures var then_, now := Steps(mode, Start(db), es[..i]).value, Steps(mode, Start(db), es).value;
            var key := CommittedAt(now, IdemKey(shop, token));
            && key.KeyV? && key == CommittedAt(then_, IdemKey(shop, token))
            && CommittedAt(now, BillRow(key.bill)).BillV?
            && CommittedAt(now, BillRow(key.bill)).core.shop == shop && CommittedAt(now, BillRow(key.bill)).core.token == Some(token)
  {
    EveryRunGood(mode, db, es[..i]);
    EveryRunGood(mode, db, es);
    PrefixExtends(mode, db, es, i);
    hide Steps, Extends, Conserved, LogsOk, BalancesOk, AllNumbersOk;
    var then_, now := Steps(mode, Start(db), es[..i]).value, Steps(mode, Start(db), es).value;
    var r := IdemKey(shop, token);
    assert r !in then_.locks;
    assert CommittedAt(then_, r) == Get(BaseOf(db, then_), r);
    KeyPersists(BaseOf(db, then_), BaseOf(db, now), r);
    assert CommittedAt(now, r) == Get(BaseOf(db, now), r);
    assert CommittedAt(now, BillRow(Get(BaseOf(db, now), r).bill)) == Get(BaseOf(db, now), BillRow(Get(BaseOf(db, now), r).bill));
  }

  lemma {:induction false} KeyPersists(a: Db, b: Db, r: Row)
    requires Extends(a, b) && Get(a, r).KeyV?
    ensures Get(b, r) == Get(a, r)
  {
    assert Keeps(Get(a, r), Get(b, r));
  }

  // ---------------------------------------------------------------- bill numbers

  /** After any run, with any aborts, a shop's bills of a year carry exactly the numbers 1 to the counter, once each. */
  lemma {:induction false} BillNumbersGapless(mode: Mode, db: Db, es: seq<Event>, shop: Id, year: int)
    requires Canonical(db) && Good(db) && Steps(mode, Start(db), es).Some?
    ensures Replay(db, Steps(mode, Start(db), es).value.history).Ok?
    ensures var now := BaseOf(db, Steps(mode, Start(db), es).value);
            && (forall b | Numbered(now, b, shop, year) :: 1 <= SeqOf(now, b) <= CounterAt(now, shop, year))
            && (forall b, b' | Numbered(now, b, shop, year) && Numbered(now, b', shop, year) && b != b' ::
                  SeqOf(now, b) != SeqOf(now, b'))
            && (forall n | 1 <= n <= CounterAt(now, shop, year) :: Issued(now, shop, year, n))
  {
    EveryRunGood(mode, db, es);
    assert NumbersOk(BaseOf(db, Steps(mode, Start(db), es).value), shop, year);
  }

  // ---------------------------------------------------------------- initial rows

  /** A shop before its first transaction: products without stock, listings, customers who owe nothing. */
  ghost predicate Opening(db: Db) {
    && Canonical(db)
    && forall r | r in db ::
         || (r.Product? && db[r].ProductV? && db[r].stock == 0)
         || (r.Branch? && db[r].BranchV?)
         || (r.Customer? && db[r].CustomerV? && db[r].balance == 0)
         || (r.Session? && db[r].SessionV?)
  }

  lemma {:induction false} OpeningTotal(m: Measure, db: Db)
    requires Opening(db)
    ensures Total(m, db) == 0
    decreases |db|
  {
    if db != map[] {
      var r :| r in db;
      TotalSplit(m, db, r);
      assert Eval(m, r, db[r]) == 0;
      OpeningTotal(m, db - {r});
    }
  }

  lemma {:induction false} OpeningEquations(db: Db)
    requires Opening(db)
    ensures Equations(db)
  {
    forall s, q, b ensures EquationsAt(db, s, q, b) {
      OpeningTotal(BranchQty(s, q), db);
      OpeningTotal(AllQty(q), db);
      OpeningTotal(StockOf(q), db);
      OpeningTotal(Adjusted(s, q), db);
      OpeningTotal(ReceivedQty(s, q), db);
      OpeningTotal(SoldQty(s, q), db);
      OpeningTotal(RestoredQty(b, s, q), db);
      OpeningTotal(CancelledQty(b, s, q), db);
      OpeningTotal(Refunded(b), db);
      OpeningTotal(CancelledCharges(b), db);
      OpeningTotal(Charged(b), db);
      OpeningTotal(BillCharges(b), db);
    }
    FromPoints(db);
  }

  lemma {:induction false} OpeningBook(db: Db)
    requires Opening(db)
    ensures BillBookOk(db) && BillsOk(db)
  {
    assert forall b :: Get(db, BillRow(b)) == Absent;
    assert forall shop, k :: Get(db, IdemKey(shop, k)) == Absent;
    assert forall shop, year :: Get(db, Counter(shop, year)) == Absent;
    forall shop, year ensures NumbersOk(db, shop, year) {
      assert CounterAt(db, shop, year) == 0;
    }
  }

  /** An opening database is good, so every run from one is covered. */
  lemma {:induction false} OpeningGood(db: Db)
    requires Opening(db)
    ensures Good(db)
  {
    OpeningEquations(db);
    OpeningBook(db);
    forall k ensures LogOk(db, k) {
      assert Get(db, Inventory(k)) == Absent && Get(db, Log(k)) == Absent;
    }
    forall c ensures BalanceOk(db, c) {
      assert Get(db, Ledger(c)) == Absent;
    }
  }
}
