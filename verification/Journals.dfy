// The movement log, the credit ledger and the bill numbers: invariants of
// single rows that every committed transaction keeps.
module Journals {
  import opened Wrappers
  import opened Ids
  import opened Money
  import opened Tables
  import opened Handlers
  import opened Runs
  import opened Conservation

  // ---------------------------------------------------------------- movements

  function LastStock(es: seq<Movement>): int { if es == [] then 0 else es[|es| - 1].newStock }

  /** Each movement starts where the previous one ended, and moves by its own quantity. */
  ghost predicate Chained(es: seq<Movement>) {
    es != [] ==>
      && Chained(es[..|es| - 1])
      && es[|es| - 1].previousStock == LastStock(es[..|es| - 1])
      && es[|es| - 1].newStock == es[|es| - 1].previousStock + es[|es| - 1].quantity
  }

  /** Replaying movements from zero. */
  function ReplayStock(es: seq<Movement>): int {
    if es == [] then 0 else ReplayStock(es[..|es| - 1]) + es[|es| - 1].quantity
  }

  lemma {:induction false} ChainedReplay(es: seq<Movement>)
    requires Chained(es)
    ensures ReplayStock(es) == LastStock(es)
    decreases |es|
  {
    if es != [] {
      ChainedReplay(es[..|es| - 1]);
    }
  }

  /** A stock row is never negative and is what its movements add up to. */
  ghost predicate LogOk(db: Db, k: Key) {
    && Quantity(db, k) >= 0
    && Chained(Entries(Get(db, Log(k))))
    && LastStock(Entries(Get(db, Log(k)))) == Quantity(db, k)
  }

  ghost predicate LogsOk(db: Db) { forall k :: LogOk(db, k) }

  function StockPart(k: Key, delta: int): seq<Stmt> {
    [Write(Inventory(k), Ensure), Write(Inventory(k), StockUpdate(delta))]
  }

  function RecordPart(k: Key, m: Move): seq<Stmt> {
    [Write(Product(m.product), AddStock(m.delta)), Write(Log(k), Record(m.kind, m.delta, m.cause, m.cashier, m.actor))]
  }

  lemma {:induction false} BlockParts(mode: Mode, m: Move)
    requires Keyed(mode, m) && m.delta != 0
    ensures Block(mode, m) == [Check(Branch(m.shop, m.product), Listed(m.allowUnassigned))] +
                              StockPart(KeyOf(mode, m), m.delta) + RecordPart(KeyOf(mode, m), m)
  {
  }

  lemma {:induction false} ExecTwo(checks: bool, x: Stmt, y: Stmt, db: Db, l: Locals)
    requires Exec(checks, [x, y], db, l).Ok?
    ensures ExecStmt(checks, x, db, l).Ok?
    ensures Exec(checks, [x, y], db, l) == ExecStmt(checks, y, ExecStmt(checks, x, db, l).value.0, ExecStmt(checks, x, db, l).value.1)
  {
    ExecOne(checks, x, db, l);
    ExecStep(checks, [x], y, db, l);
    assert [x] + [y] == [x, y];
  }

  lemma {:induction false} CheckChangesNothing(checks: bool, x: Stmt, db: Db, l: Locals)
    requires x.Check? && Exec(checks, [x], db, l).Ok?
    ensures Exec(checks, [x], db, l).value == (db, l)
  {
    ExecOne(checks, x, db, l);
  }

  /** The stock row is created empty if need be and then moves, never below zero. */
  lemma {:induction false} StockPartEffect(checks: bool, k: Key, delta: int, db: Db, l: Locals)
    requires Exec(checks, StockPart(k, delta), db, l).Ok?
    ensures var (d, l') := Exec(checks, StockPart(k, delta), db, l).value; var q := Quantity(db, k);
            && (delta < 0 ==> q >= -delta) && l'.quantity == q + delta
            && Get(d, Inventory(k)) == Num(q + delta)
            && forall r | r != Inventory(k) :: Get(d, r) == Get(db, r)
  {
    ExecTwo(checks, Write(Inventory(k), Ensure), Write(Inventory(k), StockUpdate(delta)), db, l);
    hide Exec;
  }

  lemma {:induction false} RecordPartEffect(checks: bool, k: Key, m: Move, db: Db, l: Locals)
    requires Exec(checks, RecordPart(k, m), db, l).Ok?
    ensures var d := Exec(checks, RecordPart(k, m), db, l).value.0; var v := Get(db, Product(m.product));
            && v.ProductV? && Get(d, Product(m.product)) == v.(stock := v.stock + m.delta)
            && Get(d, Log(k)) == LogV(Entries(Get(db, Log(k))) +
                 [Movement(m.kind, m.delta, l.quantity - m.delta, l.quantity, m.cause, m.cashier, m.actor)])
            && forall r | r != Product(m.product) && r != Log(k) :: Get(d, r) == Get(db, r)
  {
    ExecTwo(checks, Write(Product(m.product), AddStock(m.delta)),
            Write(Log(k), Record(m.kind, m.delta, m.cause, m.cashier, m.actor)), db, l);
    hide Exec;
  }

  /** adjustStock as one change: quantity, aggregate and log move together. */
  lemma {:induction false} BlockEffect(checks: bool, mode: Mode, m: Move, db: Db, l: Locals)
    requires Exec(checks, Block(mode, m), db, l).Ok? && m.delta != 0
    ensures Keyed(mode, m)
    ensures var k := KeyOf(mode, m);
            var d := Exec(checks, Block(mode, m), db, l).value.0;
            var q := Quantity(db, k);
            && (m.delta < 0 ==> q >= -m.delta)
            && Get(d, Inventory(k)) == Num(q + m.delta)
            && Get(db, Product(m.product)).ProductV?
            && Get(d, Product(m.product)) ==
               Get(db, Product(m.product)).(stock := Get(db, Product(m.product)).stock + m.delta)
            && Get(d, Log(k)) == LogV(Entries(Get(db, Log(k))) +
                 [Movement(m.kind, m.delta, q, q + m.delta, m.cause, m.cashier, m.actor)])
            && forall r | r != Inventory(k) && r != Product(m.product) && r != Log(k) :: Get(d, r) == Get(db, r)
  {
    hide Exec, ExecStmt, StockPart, RecordPart, Block;
    BlockKeyed(checks, mode, m, db, l);
    BlockParts(mode, m);
    var k := KeyOf(mode, m);
    var check, stock, record := [Check(Branch(m.shop, m.product), Listed(m.allowUnassigned))], StockPart(k, m.delta), RecordPart(k, m);
    ExecConcat(checks, check + stock, record, db, l);
    ExecConcat(checks, check, stock, db, l);
    CheckChangesNothing(checks, check[0], db, l);
    StockPartEffect(checks, k, m.delta, db, l);
    var (d, l') := Exec(checks, stock, db, l).value;
    RecordPartEffect(checks, k, m, d, l');
  }

  lemma {:induction false} ChainedSnoc(es: seq<Movement>, e: Movement)
    requires Chained(es) && e.previousStock == LastStock(es) && e.newStock == e.previousStock + e.quantity
    ensures Chained(es + [e]) && LastStock(es + [e]) == e.newStock
  {
    assert (es + [e])[..|es|] == es;
  }

  lemma {:induction false} BlockZero(checks: bool, mode: Mode, m: Move, db: Db, l: Locals)
    requires Exec(checks, Block(mode, m), db, l).Ok? && m.delta == 0
    ensures Exec(checks, Block(mode, m), db, l).value == (db, l)
  {
    BlockKeyed(checks, mode, m, db, l);
    var b := Block(mode, m);
    assert b == [] + [b[0]];
    ExecStep(checks, [], b[0], db, l);
  }

  lemma {:induction false} BlockLogs(checks: bool, mode: Mode, m: Move, db: Db, l: Locals)
    requires Exec(checks, Block(mode, m), db, l).Ok? && LogsOk(db)
    ensures LogsOk(Exec(checks, Block(mode, m), db, l).value.0)
  {
    var d := Exec(checks, Block(mode, m), db, l).value.0;
    hide Exec, Block;
    if m.delta == 0 {
      BlockZero(checks, mode, m, db, l);
    } else {
      BlockEffect(checks, mode, m, db, l);
      var k := KeyOf(mode, m);
      var q := Quantity(db, k);
      assert LogOk(db, k);
      ChainedSnoc(Entries(Get(db, Log(k))), Movement(m.kind, m.delta, q, q + m.delta, m.cause, m.cashier, m.actor));
      forall x ensures LogOk(d, x) {
        assert LogOk(db, x);
      }
    }
  }

  lemma {:induction false} BlocksLogs(checks: bool, mode: Mode, ms: seq<Move>, db: Db, l: Locals)
    requires Exec(checks, Blocks(mode, ms), db, l).Ok? && LogsOk(db)
    ensures LogsOk(Exec(checks, Blocks(mode, ms), db, l).value.0)
    decreases |ms|
  {
    if ms != [] {
      var front := ms[..|ms| - 1];
      ExecConcat(checks, Blocks(mode, front), Block(mode, ms[|ms| - 1]), db, l);
      BlocksLogs(checks, mode, front, db, l);
      var (d, l') := Exec(checks, Blocks(mode, front), db, l).value;
      BlockLogs(checks, mode, ms[|ms| - 1], d, l');
    }
  }

  lemma {:induction false} LogsFramed(checks: bool, p: seq<Stmt>, db: Db, l: Locals)
    requires Exec(checks, p, db, l).Ok? && LogsOk(db)
    requires forall r | r in Written(p) :: !StockRow(r)
    ensures LogsOk(Exec(checks, p, db, l).value.0)
  {
    var d := Exec(checks, p, db, l).value.0;
    forall k ensures LogOk(d, k) {
      assert LogOk(db, k);
      Untouched(checks, p, db, l, Inventory(k));
      Untouched(checks, p, db, l, Log(k));
    }
  }

  // ------------------------------------------------------------------- credit

  function Net(ts: seq<CreditTxn>): int {
    if ts == [] then 0
    else Net(ts[..|ts| - 1]) + if ts[|ts| - 1].kind == CHARGE then ts[|ts| - 1].amount else -ts[|ts| - 1].amount
  }

  function Collections(ts: seq<CreditTxn>): nat {
    if ts == [] then 0 else Collections(ts[..|ts| - 1]) + if ts[|ts| - 1].kind == COLLECTION then 1 else 0
  }

  /** A balance is never negative and is within one paisa per collection of its ledger. */
  ghost predicate BalanceOk(db: Db, c: Id) {
    var v, ts := Get(db, Customer(c)), Txns(Get(db, Ledger(c)));
    if v.CustomerV? then v.balance >= 0 && 0 <= v.balance - Net(ts) <= Collections(ts) else ts == []
  }

  ghost predicate BalancesOk(db: Db) { forall c :: BalanceOk(db, c) }

  /** Amounts the handlers use: payments and collections above zero, refunds not negative. */
  predicate CreditMoveOk(c: CreditMove) {
    match c
    case ChargeMove(_, _, _, a) => a > 0.0
    case RefundMove(_, _, p) => p >= 0
    case CollectMove(_, _, a) => true
  }

  lemma {:induction false} CreditEffect(checks: bool, c: CreditMove, db: Db, l: Locals)
    requires Exec(checks, CreditBlock(c), db, l).Ok?
    ensures var d := Exec(checks, CreditBlock(c), db, l).value.0;
            var x, y := CreditBlock(c)[0], CreditBlock(c)[1];
            && Apply(x.op, Get(db, x.row), l).Ok?
            && Get(d, x.row) == Apply(x.op, Get(db, x.row), l).value.0
            && Get(d, y.row) == LedgerV(Txns(Get(db, y.row)) + [y.op.txn])
            && forall r | r != x.row && r != y.row :: Get(d, r) == Get(db, r)
  {
    var b := CreditBlock(c);
    assert b == [b[0]] + [b[1]];
    ExecStep(checks, [], b[0], db, l);
    assert [] + [b[0]] == [b[0]];
    ExecStep(checks, [b[0]], b[1], db, l);
  }

  lemma {:induction false} LedgerSnoc(ts: seq<CreditTxn>, t: CreditTxn)
    ensures Net(ts + [t]) == Net(ts) + if t.kind == CHARGE then t.amount else -t.amount
    ensures Collections(ts + [t]) == Collections(ts) + if t.kind == COLLECTION then 1 else 0
  {
    assert (ts + [t])[..|ts|] == ts;
  }

  /** A balance drifts from its ledger by at most one paisa per collection, on an exact half paisa. */
  lemma {:induction false} CreditStepOk(c: CreditMove, v: Value, l: Locals)
    requires Apply(CreditBlock(c)[0].op, v, l).Ok? && CreditMoveOk(c) && v.CustomerV? && v.balance >= 0
    ensures var w := Apply(CreditBlock(c)[0].op, v, l).value.0;
            var t := CreditBlock(c)[1].op.txn;
            && w.CustomerV? && w.balance >= 0
            && w.balance - v.balance == (if t.kind == CHARGE then t.amount else -t.amount) +
                                        (if c.CollectMove? && HalfPaisa(c.amount) then 1 else 0)
  {
    match c
    case ChargeMove(_, _, _, a) => RoundedSum(v.balance, a); RoundingError(a);
    case RefundMove(_, _, p) =>
    case CollectMove(_, _, a) => RoundedDifference(v.balance, a);
  }

  lemma {:induction false} BalanceMoves(db: Db, d: Db, c: CreditMove, l: Locals)
    requires BalanceOk(db, c.customer) && CreditMoveOk(c)
    requires Apply(CreditBlock(c)[0].op, Get(db, Customer(c.customer)), l).Ok?
    requires Get(d, Customer(c.customer)) == Apply(CreditBlock(c)[0].op, Get(db, Customer(c.customer)), l).value.0
    requires Get(d, Ledger(c.customer)) == LedgerV(Txns(Get(db, Ledger(c.customer))) + [CreditBlock(c)[1].op.txn])
    ensures BalanceOk(d, c.customer)
  {
    CreditStepOk(c, Get(db, Customer(c.customer)), l);
    LedgerSnoc(Txns(Get(db, Ledger(c.customer))), CreditBlock(c)[1].op.txn);
  }

  lemma {:induction false} CreditBlockBalances(checks: bool, c: CreditMove, db: Db, l: Locals)
    requires Exec(checks, CreditBlock(c), db, l).Ok? && BalancesOk(db) && CreditMoveOk(c)
    ensures BalancesOk(Exec(checks, CreditBlock(c), db, l).value.0)
  {
    var d := Exec(checks, CreditBlock(c), db, l).value.0;
    CreditEffect(checks, c, db, l);
    forall k ensures BalanceOk(d, k) {
      assert BalanceOk(db, k);
      if k == c.customer {
        BalanceMoves(db, d, c, l);
      } else {
        assert Get(d, Customer(k)) == Get(db, Customer(k)) && Get(d, Ledger(k)) == Get(db, Ledger(k));
      }
    }
  }

  lemma {:induction false} CreditBlocksBalances(checks: bool, cs: seq<CreditMove>, db: Db, l: Locals)
    requires Exec(checks, CreditBlocks(cs), db, l).Ok? && BalancesOk(db)
    requires forall i | 0 <= i < |cs| :: CreditMoveOk(cs[i])
    ensures BalancesOk(Exec(checks, CreditBlocks(cs), db, l).value.0)
    decreases |cs|
  {
    if cs != [] {
      var front := cs[..|cs| - 1];
      ExecConcat(checks, CreditBlocks(front), CreditBlock(cs[|cs| - 1]), db, l);
      CreditBlocksBalances(checks, front, db, l);
      var (d, l') := Exec(checks, CreditBlocks(front), db, l).value;
      CreditBlockBalances(checks, cs[|cs| - 1], d, l');
    }
  }

  lemma {:induction false} BalancesFramed(checks: bool, p: seq<Stmt>, db: Db, l: Locals)
    requires Exec(checks, p, db, l).Ok? && BalancesOk(db)
    requires forall r | r in Written(p) :: !CreditRow(r)
    ensures BalancesOk(Exec(checks, p, db, l).value.0)
  {
    var d := Exec(checks, p, db, l).value.0;
    forall c ensures BalanceOk(d, c) {
      assert BalanceOk(db, c);
      Untouched(checks, p, db, l, Customer(c));
      Untouched(checks, p, db, l, Ledger(c));
    }
  }

  // -------------------------------------------------------------- both journals

  lemma {:induction false} OwnRowsPlain(q: Request)
    ensures forall r | r in OwnRows(q) :: !StockRow(r) && !CreditRow(r)
  {
  }

  lemma {:induction false} PrePostRows(subject: Value, q: Request)
    requires PlanOf(subject, q).Some?
    ensures var p := PlanOf(subject, q).value;
            forall r | r in Written(p.pre) + Written(p.post) :: r in OwnRows(q)
  {
    if q.Checkout? {
      InsertionsRows(q.bill, q.cart);
    }
  }

  lemma {:induction false} CreditsOk(subject: Value, q: Request)
    requires PlanOf(subject, q).Some?
    requires subject.BillV? ==> ChargesOk(subject.core)
    ensures var p := PlanOf(subject, q).value; forall i | 0 <= i < |p.credits| :: CreditMoveOk(p.credits[i])
  {
    if q.Checkout? {
      CreditTendersPositive(q.cart.tenders);
    }
  }

  /** Every request's transaction keeps the movement logs and the balances. */
  lemma {:induction false} JournalsKept(mode: Mode, db: Db, q: Request)
    requires PlanIn(db, q).Some? && Run(false, Program(mode, PlanIn(db, q).value), db).Ok?
    requires LogsOk(db) && BalancesOk(db) && BillsOk(db)
    ensures LogsOk(Run(false, Program(mode, PlanIn(db, q).value), db).value.0)
    ensures BalancesOk(Run(false, Program(mode, PlanIn(db, q).value), db).value.0)
  {
    hide Exec, Blocks, CreditBlocks, LogsOk, BalancesOk;
    var subject := if Subject(q).Some? then Get(db, Subject(q).value) else Absent;
    var p := PlanIn(db, q).value;
    var a, b, c, d := RunPhases(false, mode, p, db);
    PrePostRows(subject, q);
    OwnRowsPlain(q);
    BlocksRows(mode, p.moves);
    CreditRows(p.credits);
    CreditsOk(subject, q);
    LogsFramed(false, p.pre, db, NO_LOCALS);
    BlocksLogs(false, mode, p.moves, a.0, a.1);
    LogsFramed(false, p.post, b.0, b.1);
    LogsFramed(false, CreditBlocks(p.credits), c.0, c.1);
    BalancesFramed(false, p.pre, db, NO_LOCALS);
    BalancesFramed(false, Blocks(mode, p.moves), a.0, a.1);
    BalancesFramed(false, p.post, b.0, b.1);
    CreditBlocksBalances(false, p.credits, c.0, c.1);
  }

  // --------------------------------------------------------------- bill numbers

  function CounterAt(db: Db, shop: Id, year: int): int {
    var v := Get(db, Counter(shop, year)); if v.Num? then v.n else 0
  }

  /** A numbered bill of a shop and year: HELD bills have no number. */
  predicate Numbered(db: Db, b: Id, shop: Id, year: int) {
    var v := Get(db, BillRow(b));
    v.BillV? && v.status != HELD && v.core.shop == shop && v.core.year == year
  }

  function SeqOf(db: Db, b: Id): int { if Get(db, BillRow(b)).BillV? then Get(db, BillRow(b)).core.seq_ else 0 }

  ghost predicate Issued(db: Db, shop: Id, year: int, n: int) {
    exists b :: Numbered(db, b, shop, year) && SeqOf(db, b) == n
  }

  /** The bills of a shop and year carry exactly the numbers 1, 2, …, counter. */
  ghost predicate NumbersOk(db: Db, shop: Id, year: int) {
    && CounterAt(db, shop, year) >= 0
    && (forall b | Numbered(db, b, shop, year) :: 1 <= SeqOf(db, b) <= CounterAt(db, shop, year))
    && (forall b, b' | Numbered(db, b, shop, year) && Numbered(db, b', shop, year) && SeqOf(db, b) == SeqOf(db, b') :: b == b')
    && (forall n | 1 <= n <= CounterAt(db, shop, year) :: Issued(db, shop, year, n))
  }

  ghost predicate AllNumbersOk(db: Db) { forall shop, year :: NumbersOk(db, shop, year) }

  /** Idempotency keys point at their bills and back. */
  ghost predicate KeysOk(db: Db) {
    && (forall shop, k :: Get(db, IdemKey(shop, k)).Absent? || Get(db, IdemKey(shop, k)).KeyV?)
    && (forall shop, k | Get(db, IdemKey(shop, k)).KeyV? ::
          Get(db, BillRow(Get(db, IdemKey(shop, k)).bill)).BillV?
          && Get(db, BillRow(Get(db, IdemKey(shop, k)).bill)).core.shop == shop
          && Get(db, BillRow(Get(db, IdemKey(shop, k)).bill)).core.token == Some(k))
    && (forall b | Get(db, BillRow(b)).BillV? && Get(db, BillRow(b)).core.token.Some? ::
          Get(db, IdemKey(Get(db, BillRow(b)).core.shop, Get(db, BillRow(b)).core.token.value)) == KeyV(b))
  }

  function KeyPart(bill: Id, c: Cart): seq<Stmt> {
    if c.token.Some? then [Write(IdemKey(c.shop, c.token.value), InsertKey(bill))] else []
  }

  lemma {:induction false} InsertionsParts(bill: Id, c: Cart)
    ensures Insertions(bill, c) ==
            [Write(Counter(c.shop, c.year), NextSeq)] + KeyPart(bill, c) + [Write(BillRow(bill), InsertBill(CoreOf(c)))]
  {
  }

  lemma {:induction false} CountEffect(checks: bool, shop: Id, year: int, db: Db, l: Locals)
    requires Exec(checks, [Write(Counter(shop, year), NextSeq)], db, l).Ok?
    ensures var (d, l') := Exec(checks, [Write(Counter(shop, year), NextSeq)], db, l).value;
            && l'.seq_ == CounterAt(db, shop, year) + 1 && Get(d, Counter(shop, year)) == Num(l'.seq_)
            && forall r | r != Counter(shop, year) :: Get(d, r) == Get(db, r)
  {
    ExecOne(checks, Write(Counter(shop, year), NextSeq), db, l);
    hide Exec;
  }

  lemma {:induction false} KeyPartEffect(checks: bool, bill: Id, c: Cart, db: Db, l: Locals)
    requires Exec(checks, KeyPart(bill, c), db, l).Ok?
    ensures var (d, l') := Exec(checks, KeyPart(bill, c), db, l).value;
            && l' == l
            && (c.token.Some? ==> Get(db, IdemKey(c.shop, c.token.value)) == Absent
                                  && Get(d, IdemKey(c.shop, c.token.value)) == KeyV(bill))
            && forall r | !(c.token.Some? && r == IdemKey(c.shop, c.token.value)) :: Get(d, r) == Get(db, r)
  {
    if c.token.Some? {
      ExecOne(checks, KeyPart(bill, c)[0], db, l);
    }
  }

  lemma {:induction false} InsertBillEffect(checks: bool, bill: Id, core: BillCore, db: Db, l: Locals)
    requires Exec(checks, [Write(BillRow(bill), InsertBill(core))], db, l).Ok?
    ensures var d := Exec(checks, [Write(BillRow(bill), InsertBill(core))], db, l).value.0;
            && Get(db, BillRow(bill)) == Absent && Get(d, BillRow(bill)) == BillV(core.(seq_ := l.seq_), PAID)
            && forall r | r != BillRow(bill) :: Get(d, r) == Get(db, r)
  {
    ExecOne(checks, Write(BillRow(bill), InsertBill(core)), db, l);
    hide Exec;
  }

  /** What the three insertions of a checkout do. */
  lemma {:induction false} InsertionsEffect(checks: bool, bill: Id, c: Cart, db: Db, l: Locals)
    requires Exec(checks, Insertions(bill, c), db, l).Ok?
    ensures var d := Exec(checks, Insertions(bill, c), db, l).value.0;
            var n := CounterAt(db, c.shop, c.year) + 1;
            && Get(d, Counter(c.shop, c.year)) == Num(n)
            && Get(db, BillRow(bill)) == Absent
            && Get(d, BillRow(bill)) == BillV(CoreOf(c).(seq_ := n), PAID)
            && (c.token.Some? ==> Get(db, IdemKey(c.shop, c.token.value)) == Absent
                                  && Get(d, IdemKey(c.shop, c.token.value)) == KeyV(bill))
            && forall r | r != Counter(c.shop, c.year) && r != BillRow(bill)
                          && !(c.token.Some? && r == IdemKey(c.shop, c.token.value)) :: Get(d, r) == Get(db, r)
  {
    hide Exec, ExecStmt, KeyPart, Insertions, CoreOf;
    var count, key, row := Write(Counter(c.shop, c.year), NextSeq), KeyPart(bill, c), Write(BillRow(bill), InsertBill(CoreOf(c)));
    InsertionsParts(bill, c);
    ExecConcat(checks, [count] + key, [row], db, l);
    ExecConcat(checks, [count], key, db, l);
    CountEffect(checks, c.shop, c.year, db, l);
    var (d, l') := Exec(checks, [count], db, l).value;
    KeyPartEffect(checks, bill, c, d, l');
    var (e, l'') := Exec(checks, key, d, l').value;
    InsertBillEffect(checks, bill, CoreOf(c), e, l'');
  }

  /** One new bill with the next number keeps the numbers gapless. */
  lemma {:induction false} NextNumber(db: Db, d: Db, bill: Id, shop: Id, year: int)
    requires NumbersOk(db, shop, year) && !Numbered(db, bill, shop, year)
    requires forall b | b != bill :: Get(d, BillRow(b)) == Get(db, BillRow(b))
    requires Numbered(d, bill, shop, year) && SeqOf(d, bill) == CounterAt(d, shop, year) == CounterAt(db, shop, year) + 1
    ensures NumbersOk(d, shop, year)
  {
    assert forall b | b != bill :: Numbered(d, b, shop, year) == Numbered(db, b, shop, year) && SeqOf(d, b) == SeqOf(db, b);
    forall n | 1 <= n <= CounterAt(d, shop, year) ensures Issued(d, shop, year, n) {
      if n <= CounterAt(db, shop, year) {
        assert Issued(db, shop, year, n);
        var b :| Numbered(db, b, shop, year) && SeqOf(db, b) == n;
        assert Numbered(d, b, shop, year) && SeqOf(d, b) == n;
      }
    }
  }

  lemma {:induction false} InsertionsNumbers(checks: bool, bill: Id, c: Cart, db: Db, l: Locals, shop: Id, year: int)
    requires Exec(checks, Insertions(bill, c), db, l).Ok?
    requires NumbersOk(db, shop, year)
    ensures NumbersOk(Exec(checks, Insertions(bill, c), db, l).value.0, shop, year)
  {
    hide Exec, Insertions, NumbersOk;
    var d := Exec(checks, Insertions(bill, c), db, l).value.0;
    InsertionsEffect(checks, bill, c, db, l);
    if shop == c.shop && year == c.year {
      NextNumber(db, d, bill, shop, year);
    } else {
      SameNumbers(db, d, shop, year);
    }
  }

  lemma {:induction false} InsertionsKeys(checks: bool, bill: Id, c: Cart, db: Db, l: Locals)
    requires Exec(checks, Insertions(bill, c), db, l).Ok? && KeysOk(db)
    ensures KeysOk(Exec(checks, Insertions(bill, c), db, l).value.0)
  {
    hide Exec, Insertions;
    InsertionsEffect(checks, bill, c, db, l);
  }

  /** Apart from a checkout's own insertions, bills only change status from PAID to CANCELLED. */
  ghost predicate SameBills(db: Db, d: Db) {
    && (forall b :: Get(db, BillRow(b)).BillV? == Get(d, BillRow(b)).BillV?)
    && (forall b | Get(db, BillRow(b)).BillV? ::
          Get(d, BillRow(b)).core == Get(db, BillRow(b)).core && (Get(d, BillRow(b)).status == HELD <==> Get(db, BillRow(b)).status == HELD))
    && (forall shop, year :: Get(d, Counter(shop, year)) == Get(db, Counter(shop, year)))
    && (forall shop, k :: Get(d, IdemKey(shop, k)) == Get(db, IdemKey(shop, k)))
  }

  lemma {:induction false} SameNumbers(db: Db, d: Db, shop: Id, year: int)
    requires NumbersOk(db, shop, year) && CounterAt(d, shop, year) == CounterAt(db, shop, year)
    requires forall b :: Numbered(d, b, shop, year) == Numbered(db, b, shop, year)
    requires forall b | Numbered(db, b, shop, year) :: SeqOf(d, b) == SeqOf(db, b)
    ensures NumbersOk(d, shop, year)
  {
    forall n | 1 <= n <= CounterAt(d, shop, year) ensures Issued(d, shop, year, n) {
      assert Issued(db, shop, year, n);
      var b :| Numbered(db, b, shop, year) && SeqOf(db, b) == n;
      assert Numbered(d, b, shop, year) && SeqOf(d, b) == n;
    }
  }

  lemma {:induction false} SameBillsNumbers(db: Db, d: Db, shop: Id, year: int)
    requires SameBills(db, d) && NumbersOk(db, shop, year)
    ensures NumbersOk(d, shop, year)
  {
    SameNumbers(db, d, shop, year);
  }

  lemma {:induction false} SameBillsFramed(checks: bool, p: seq<Stmt>, db: Db, l: Locals)
    requires Exec(checks, p, db, l).Ok?
    requires forall r | r in Written(p) :: !r.BillRow? && !r.Counter? && !r.IdemKey?
    ensures SameBills(db, Exec(checks, p, db, l).value.0)
  {
    forall r: Row | r.BillRow? || r.Counter? || r.IdemKey?
      ensures Get(Exec(checks, p, db, l).value.0, r) == Get(db, r)
    {
      Untouched(checks, p, db, l, r);
    }
  }

  lemma {:induction false} ExecOne(checks: bool, x: Stmt, db: Db, l: Locals)
    ensures Exec(checks, [x], db, l) == ExecStmt(checks, x, db, l)
  {
    assert [x] == [] + [x];
    ExecStep(checks, [], x, db, l);
  }

  lemma {:induction false} ClaimSameBills(checks: bool, bill: Id, db: Db, l: Locals)
    requires Exec(checks, [Write(BillRow(bill), Claim)], db, l).Ok?
    ensures SameBills(db, Exec(checks, [Write(BillRow(bill), Claim)], db, l).value.0)
  {
    ExecOne(checks, Write(BillRow(bill), Claim), db, l);
    var d := Exec(checks, [Write(BillRow(bill), Claim)], db, l).value.0;
    assert d == Put(db, BillRow(bill), Get(db, BillRow(bill)).(status := CANCELLED));
  }

  ghost predicate BillBookOk(db: Db) { AllNumbersOk(db) && KeysOk(db) }

  lemma {:induction false} SameBillsBook(db: Db, d: Db)
    requires SameBills(db, d) && BillBookOk(db)
    ensures BillBookOk(d)
  {
    forall shop, year ensures NumbersOk(d, shop, year) {
      assert NumbersOk(db, shop, year);
      SameBillsNumbers(db, d, shop, year);
    }
  }

  lemma {:induction false} BookFramed(p: seq<Stmt>, db: Db, l: Locals)
    requires Exec(false, p, db, l).Ok? && BillBookOk(db)
    requires forall r | r in Written(p) :: !r.BillRow? && !r.Counter? && !r.IdemKey?
    ensures BillBookOk(Exec(false, p, db, l).value.0)
  {
    hide Exec, BillBookOk, SameBills;
    SameBillsFramed(false, p, db, l);
    SameBillsBook(db, Exec(false, p, db, l).value.0);
  }

  lemma {:induction false} PreBook(subject: Value, q: Request, db: Db, l: Locals)
    requires PlanOf(subject, q).Some? && BillBookOk(db) && Exec(false, PlanOf(subject, q).value.pre, db, l).Ok?
    ensures BillBookOk(Exec(false, PlanOf(subject, q).value.pre, db, l).value.0)
  {
    hide Exec, BillBookOk, SameBills;
    var pre := PlanOf(subject, q).value.pre;
    if q.Cancel? {
      ClaimSameBills(false, q.bill, db, l);
      SameBillsBook(db, Exec(false, pre, db, l).value.0);
    } else {
      PrePostRows(subject, q);
      assert q.Checkout? ==> Written(pre) == {};
      BookFramed(pre, db, l);
    }
  }

  lemma {:induction false} InsertionsBook(bill: Id, c: Cart, db: Db, l: Locals)
    requires Exec(false, Insertions(bill, c), db, l).Ok? && BillBookOk(db)
    ensures BillBookOk(Exec(false, Insertions(bill, c), db, l).value.0)
  {
    hide Exec, Insertions, NumbersOk, KeysOk;
    var d := Exec(false, Insertions(bill, c), db, l).value.0;
    forall shop, year ensures NumbersOk(d, shop, year) {
      assert NumbersOk(db, shop, year);
      InsertionsNumbers(false, bill, c, db, l, shop, year);
    }
    InsertionsKeys(false, bill, c, db, l);
  }

  lemma {:induction false} PostBook(subject: Value, q: Request, db: Db, l: Locals)
    requires PlanOf(subject, q).Some? && BillBookOk(db) && Exec(false, PlanOf(subject, q).value.post, db, l).Ok?
    ensures BillBookOk(Exec(false, PlanOf(subject, q).value.post, db, l).value.0)
  {
    hide Exec, BillBookOk, Insertions;
    if q.Checkout? {
      InsertionsBook(q.bill, q.cart, db, l);
    } else {
      BookFramed(PlanOf(subject, q).value.post, db, l);
    }
  }

  /** Every request's transaction keeps bill numbers gapless and idempotency keys exact. */
  lemma {:induction false} BillBookKept(mode: Mode, db: Db, q: Request)
    requires PlanIn(db, q).Some? && Run(false, Program(mode, PlanIn(db, q).value), db).Ok?
    requires BillBookOk(db)
    ensures BillBookOk(Run(false, Program(mode, PlanIn(db, q).value), db).value.0)
  {
    hide Exec, Blocks, CreditBlocks, Program, PlanOf, BillBookOk;
    var subject := if Subject(q).Some? then Get(db, Subject(q).value) else Absent;
    var p := PlanIn(db, q).value;
    var a, b, c, d := RunPhases(false, mode, p, db);
    BlocksRows(mode, p.moves);
    CreditRows(p.credits);
    PreBook(subject, q, db, NO_LOCALS);
    BookFramed(Blocks(mode, p.moves), a.0, a.1);
    PostBook(subject, q, b.0, b.1);
    BookFramed(CreditBlocks(p.credits), c.0, c.1);
  }
}
