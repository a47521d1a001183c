// Deadlock freedom: checkouts, cancellations, single adjustments, collections,
// and purchases whose items ascend by product take their row locks in one
// global order, so waiting never closes a cycle.
module LockOrder {
  import opened Wrappers
  import opened Ids
  import opened Tables
  import opened Handlers
  import opened Engine
  import opened Runs

  function Rank(r: Row): nat {
    match r
    case BillRow(_) => 0
    case Purchase(_) => 0
    case Inventory(_) => 1
    case Product(_) => 1
    case Log(_) => 1
    case Counter(_, _) => 2
    case IdemKey(_, _) => 3
    case Customer(_) => 4
    case Ledger(_) => 5
    case _ => 6
  }

  function ProductOf(r: Row): Id {
    match r
    case Inventory(k) => k.product
    case Product(p) => p
    case Log(k) => k.product
    case _ => ""
  }

  function Level(r: Row): nat { if r.Inventory? then 0 else if r.Product? then 1 else 2 }

  /** An existing bill or purchase, then per product the stock row before the product row, then counter, key and customer. */
  predicate Before(a: Row, b: Row) {
    Rank(a) < Rank(b) ||
    (Rank(a) == 1 == Rank(b) &&
     (Less(ProductOf(a), ProductOf(b)) || (ProductOf(a) == ProductOf(b) && Level(a) < Level(b))))
  }

  lemma {:induction false} BeforeTransitive(a: Row, b: Row, c: Row)
    requires Before(a, b) && Before(b, c)
    ensures Before(a, c)
  {
    if Rank(a) == 1 == Rank(c) && Less(ProductOf(a), ProductOf(b)) && Less(ProductOf(b), ProductOf(c)) {
      LessTransitive(ProductOf(a), ProductOf(b), ProductOf(c));
    }
  }

  lemma {:induction false} BeforeIrreflexive(a: Row)
    ensures !Before(a, a)
  {
    LessIrreflexive(ProductOf(a));
  }

  // ------------------------------------------------------------ lock discipline

  /** A statement whose row lock another transaction may hold: anything but inserting a new bill. */
  predicate Contended(s: Stmt) { s.Write? && !s.op.InsertBill? }

  ghost predicate InOrder(p: seq<Stmt>) {
    forall i, j | 0 <= i < j < |p| && Contended(p[i]) && Contended(p[j]) ::
      p[j].row in Written(p[..j]) || Before(p[i].row, p[j].row)
  }

  lemma {:induction false} WrittenMember(p: seq<Stmt>, i: nat)
    requires i < |p| && p[i].Write?
    ensures p[i].row in Written(p)
  {
  }

  lemma {:induction false} JoinInOrder(a: seq<Stmt>, b: seq<Stmt>)
    requires InOrder(a) && InOrder(b)
    requires forall i, j | 0 <= i < |a| && 0 <= j < |b| && Contended(a[i]) && Contended(b[j]) ::
               b[j].row in Written(a) || Before(a[i].row, b[j].row)
    ensures InOrder(a + b)
  {
    var p := a + b;
    forall i, j | 0 <= i < j < |p| && Contended(p[i]) && Contended(p[j])
      ensures p[j].row in Written(p[..j]) || Before(p[i].row, p[j].row)
    {
      if j < |a| {
        assert p[..j] == a[..j];
      } else {
        assert p[..j] == a + b[..j - |a|];
        WrittenConcat(a, b[..j - |a|]);
      }
    }
  }

  lemma {:induction false} BlockInOrder(mode: Mode, m: Move)
    ensures InOrder(Block(mode, m))
  {
    var b := Block(mode, m);
    if Keyed(mode, m) && m.delta != 0 {
      WrittenMember(b[..2], 1);
    }
  }

  /** Moves in product order, all on the stock of one branch and cashier. */
  ghost predicate SortedMoves(ms: seq<Move>) {
    forall i, j | 0 <= i < j < |ms| ::
      !Less(ms[j].product, ms[i].product) && ms[i].shop == ms[j].shop && ms[i].cashier == ms[j].cashier
  }

  /** Every stock row written belongs to a listed move, with all three of that move's rows. */
  lemma {:induction false} BlocksWritten(mode: Mode, ms: seq<Move>, r: Row)
    requires r in Written(Blocks(mode, ms))
    ensures exists i :: 0 <= i < |ms| && r in Written(Block(mode, ms[i]))
                     && Written(Block(mode, ms[i])) <= Written(Blocks(mode, ms))
    decreases |ms|
  {
    var front := ms[..|ms| - 1];
    WrittenConcat(Blocks(mode, front), Block(mode, ms[|ms| - 1]));
    if r in Written(Blocks(mode, front)) {
      BlocksWritten(mode, front, r);
      var i :| 0 <= i < |front| && r in Written(Block(mode, front[i]))
            && Written(Block(mode, front[i])) <= Written(Blocks(mode, front));
      assert ms[i] == front[i];
    } else {
      assert r in Written(Block(mode, ms[|ms| - 1]));
    }
  }

  /** A later move's rows come after an earlier move's, or are the same rows. */
  lemma {:induction false} MovesInOrder(mode: Mode, m: Move, n: Move, r: Row, x: Row)
    requires !Less(n.product, m.product) && m.shop == n.shop && m.cashier == n.cashier
    requires r in Written(Block(mode, m)) && x in Written(Block(mode, n))
    ensures Before(r, x) || x in Written(Block(mode, m))
  {
    BlockRows(mode, m);
    BlockRows(mode, n);
    LessTotal(m.product, n.product);
  }

  /** Sorted moves lock in order, even when a product repeats: its rows are then already held. */
  lemma {:induction false} BlocksInOrder(mode: Mode, ms: seq<Move>)
    requires SortedMoves(ms)
    ensures InOrder(Blocks(mode, ms))
    decreases |ms|
  {
    if ms != [] {
      var front := ms[..|ms| - 1];
      var m := ms[|ms| - 1];
      var a := Blocks(mode, front);
      var b := Block(mode, m);
      BlocksInOrder(mode, front);
      BlockInOrder(mode, m);
      forall i, j | 0 <= i < |a| && 0 <= j < |b| && Contended(a[i]) && Contended(b[j])
        ensures b[j].row in Written(a) || Before(a[i].row, b[j].row)
      {
        BlocksWritten(mode, front, a[i].row);
        var k :| 0 <= k < |front| && a[i].row in Written(Block(mode, front[k]))
              && Written(Block(mode, front[k])) <= Written(a);
        MovesInOrder(mode, ms[k], m, a[i].row, b[j].row);
      }
      JoinInOrder(a, b);
    }
  }

  predicate OneCustomer(cs: seq<CreditMove>, c: Id) {
    forall i | 0 <= i < |cs| :: cs[i].customer == c
  }

  lemma {:induction false} CreditBlockInOrder(m: CreditMove)
    ensures InOrder(CreditBlock(m)) && Written(CreditBlock(m)) == {Customer(m.customer), Ledger(m.customer)}
  {
    var b := CreditBlock(m);
    assert b[0].row in Written(b) && b[1].row in Written(b);
  }

  lemma {:induction false} CreditInOrder(cs: seq<CreditMove>, c: Id)
    requires OneCustomer(cs, c)
    ensures InOrder(CreditBlocks(cs))
    ensures cs != [] ==> Written(CreditBlocks(cs)) == {Customer(c), Ledger(c)}
    decreases |cs|
  {
    if cs != [] {
      var front := cs[..|cs| - 1];
      var a, b := CreditBlocks(front), CreditBlock(cs[|cs| - 1]);
      CreditInOrder(front, c);
      CreditBlockInOrder(cs[|cs| - 1]);
      hide CreditBlock, InOrder;
      WrittenConcat(a, b);
      forall i, j | 0 <= i < |a| && 0 <= j < |b| && Contended(a[i]) && Contended(b[j])
        ensures b[j].row in Written(a)
      {
        WrittenMember(b, j);
      }
      JoinInOrder(a, b);
    }
  }

  lemma {:induction false} RankSplit(a: seq<Stmt>, b: seq<Stmt>, n: nat)
    requires InOrder(a) && InOrder(b)
    requires forall i | 0 <= i < |a| && Contended(a[i]) :: Rank(a[i].row) < n
    requires forall i | 0 <= i < |b| && Contended(b[i]) :: Rank(b[i].row) >= n
    ensures InOrder(a + b)
  {
    JoinInOrder(a, b);
  }

  lemma {:induction false} StockRank(mode: Mode, ms: seq<Move>)
    ensures forall i | 0 <= i < |Blocks(mode, ms)| && Contended(Blocks(mode, ms)[i]) :: Rank(Blocks(mode, ms)[i].row) == 1
  {
    BlocksRows(mode, ms);
    forall i | 0 <= i < |Blocks(mode, ms)| && Contended(Blocks(mode, ms)[i])
      ensures Rank(Blocks(mode, ms)[i].row) == 1
    {
      WrittenMember(Blocks(mode, ms), i);
    }
  }

  lemma {:induction false} CreditRank(cs: seq<CreditMove>)
    ensures forall i | 0 <= i < |CreditBlocks(cs)| && Contended(CreditBlocks(cs)[i]) :: Rank(CreditBlocks(cs)[i].row) >= 4
  {
    CreditRows(cs);
    forall i | 0 <= i < |CreditBlocks(cs)| && Contended(CreditBlocks(cs)[i])
      ensures Rank(CreditBlocks(cs)[i].row) >= 4
    {
      WrittenMember(CreditBlocks(cs), i);
    }
  }

  lemma {:induction false} PlanInOrder(mode: Mode, p: Plan, c: Id)
    requires InOrder(p.pre) && SortedMoves(p.moves) && InOrder(p.post) && OneCustomer(p.credits, c)
    requires forall i | 0 <= i < |p.pre| && Contended(p.pre[i]) :: Rank(p.pre[i].row) == 0
    requires forall i | 0 <= i < |p.post| && Contended(p.post[i]) :: 2 <= Rank(p.post[i].row) < 4
    ensures InOrder(Program(mode, p))
  {
    BlocksInOrder(mode, p.moves);
    StockRank(mode, p.moves);
    CreditInOrder(p.credits, c);
    CreditRank(p.credits);
    RankSplit(p.pre, Blocks(mode, p.moves), 1);
    RankSplit(p.pre + Blocks(mode, p.moves), p.post, 2);
    RankSplit(p.pre + Blocks(mode, p.moves) + p.post, CreditBlocks(p.credits), 4);
  }

  lemma {:induction false} PriceChecksFree(shop: Id, ls: seq<CartLine>)
    ensures InOrder(PriceChecks(shop, ls))
    ensures forall i | 0 <= i < |PriceChecks(shop, ls)| :: !Contended(PriceChecks(shop, ls)[i])
  {
  }

  lemma {:induction false} SaleMovesSorted(c: Cart, ls: seq<Line>)
    requires SortedLines(ls)
    ensures SortedMoves(SaleMoves(c, ls))
  {
  }

  lemma {:induction false} InsertionsInOrder(bill: Id, c: Cart)
    ensures InOrder(Insertions(bill, c))
    ensures forall i | 0 <= i < |Insertions(bill, c)| && Contended(Insertions(bill, c)[i]) ::
              2 <= Rank(Insertions(bill, c)[i].row) < 4
  {
  }

  lemma {:induction false} CheckoutInOrder(mode: Mode, bill: Id, c: Cart)
    ensures InOrder(Program(mode, CheckoutPlan(bill, c)))
  {
    var plan := CheckoutPlan(bill, c);
    SortLinesFacts(BillLines(c.lines));
    PriceChecksFree(c.shop, c.lines);
    SaleMovesSorted(c, SortLines(BillLines(c.lines)));
    InsertionsInOrder(bill, c);
    hide PriceChecks, SaleMoves, Insertions, SortLines, Program, InOrder, SortedMoves;
    PlanInOrder(mode, plan, if c.customer.Some? then c.customer.value else "");
  }

  lemma {:induction false} CancelInOrder(mode: Mode, bill: Id, core: BillCore, actor: Id)
    ensures InOrder(Program(mode, CancelPlan(bill, core, actor)))
  {
    var plan := CancelPlan(bill, core, actor);
    ProductsOfFacts(core.lines);
    forall i, j | 0 <= i < j < |plan.moves| ensures !Less(plan.moves[j].product, plan.moves[i].product) {
      LessAsymmetric(ProductsOf(core.lines)[i], ProductsOf(core.lines)[j]);
    }
    PlanInOrder(mode, plan, if core.customer.Some? then core.customer.value else "");
  }

  /** The items with a product come in ascending product order; repeats are allowed. */
  predicate ByProduct(items: seq<Item>) {
    forall i, j | 0 <= i < j < |items| && items[i].product.Some? && items[j].product.Some? ::
      !Less(items[j].product.value, items[i].product.value)
  }

  /** Every movement of a purchase is on the stock of its branch and cashier, for the product of one of its items. */
  lemma {:induction false} ItemMoveFrom(shop: Id, cashier: Option<Id>, items: seq<Item>, inward: bool, cause: Cause, actor: Id, k: nat)
    requires k < |ItemMoves(shop, cashier, items, inward, cause, actor)|
    ensures var m := ItemMoves(shop, cashier, items, inward, cause, actor)[k];
            m.shop == shop && m.cashier == cashier && exists i :: 0 <= i < |items| && items[i].product == Some(m.product)
    decreases |items|
  {
    var front := items[..|items| - 1];
    var ms := ItemMoves(shop, cashier, front, inward, cause, actor);
    if k < |ms| {
      ItemMoveFrom(shop, cashier, front, inward, cause, actor, k);
      var i :| 0 <= i < |front| && front[i].product == Some(ms[k].product);
      assert items[i] == front[i];
    }
  }

  lemma {:induction false} ItemMovesSorted(shop: Id, cashier: Option<Id>, items: seq<Item>, inward: bool, cause: Cause, actor: Id)
    requires ByProduct(items)
    ensures SortedMoves(ItemMoves(shop, cashier, items, inward, cause, actor))
    decreases |items|
  {
    if items != [] {
      var front, last := items[..|items| - 1], items[|items| - 1];
      var before, ms := ItemMoves(shop, cashier, front, inward, cause, actor), ItemMoves(shop, cashier, items, inward, cause, actor);
      ItemMovesSorted(shop, cashier, front, inward, cause, actor);
      forall i, j | 0 <= i < j < |ms|
        ensures !Less(ms[j].product, ms[i].product) && ms[i].shop == ms[j].shop && ms[i].cashier == ms[j].cashier
      {
        if j == |before| {
          ItemMoveFrom(shop, cashier, front, inward, cause, actor, i);
        }
      }
    }
  }

  lemma {:induction false} PurchaseInOrder(mode: Mode, op: Op, id: Id, shop: Id, cashier: Option<Id>, items: seq<Item>,
                                           inward: bool, cause: Cause, actor: Id)
    requires ByProduct(items)
    ensures InOrder(Program(mode, Plan([Write(Purchase(id), op)], ItemMoves(shop, cashier, items, inward, cause, actor), [], [])))
  {
    ItemMovesSorted(shop, cashier, items, inward, cause, actor);
    hide ItemMoves, Program, SortedMoves;
    PlanInOrder(mode, Plan([Write(Purchase(id), op)], ItemMoves(shop, cashier, items, inward, cause, actor), [], []), "");
  }

  /** A new purchase's items must ascend by product; every other request already loops in product order. */
  predicate OrderedRequest(q: Request) { q.Receive? ==> ByProduct(q.items) }

  /** The items of every recorded purchase ascend by product. */
  ghost predicate OrderedPurchases(db: Db) {
    forall r | Get(db, r).PurchaseV? :: ByProduct(Get(db, r).items)
  }

  lemma {:induction false} RequestInOrder(mode: Mode, subject: Value, q: Request)
    requires OrderedRequest(q) && PlanOf(subject, q).Some?
    requires subject.PurchaseV? ==> ByProduct(subject.items)
    ensures InOrder(Program(mode, PlanOf(subject, q).value))
  {
    hide InOrder, ByProduct, Program;
    match q
    case Checkout(bill, c) => CheckoutInOrder(mode, bill, c);
    case Cancel(bill, actor) => CancelInOrder(mode, bill, subject.core, actor);
    case Receive(id, shop, cashier, items, actor) =>
      PurchaseInOrder(mode, InsertPurchase(shop, items), id, shop, cashier, items, true, Received(id), actor);
    case ReversePurchase(id, cashier, actor) =>
      PurchaseInOrder(mode, MarkReversed, id, subject.shop, cashier, subject.items, false, Reversed(id), actor);
    case Adjust(_, _, _, _, _) => SmallPlansInOrder(mode, PlanOf(subject, q).value, "");
    case SetAssignment(shop, p, _) => SmallPlansInOrder(mode, PlanOf(subject, q).value, "");
    case SetPrice(shop, p, _) => SmallPlansInOrder(mode, PlanOf(subject, q).value, "");
    case CollectCredit(customer, _, _) => SmallPlansInOrder(mode, PlanOf(subject, q).value, customer);
  }

  /** A plan of one statement, one movement or one credit movement. */
  lemma {:induction false} SmallPlansInOrder(mode: Mode, p: Plan, c: Id)
    requires |p.pre| + |p.moves| + |p.credits| == 1 && p.post == [] && OneCustomer(p.credits, c)
    ensures InOrder(Program(mode, p))
  {
    if p.pre == [] {
      PlanInOrder(mode, p, c);
    } else {
      assert Program(mode, p) == p.pre;
    }
  }

  // ----------------------------------------------------------------- waiting

  /** `t` waits for a lock that `u` holds. */
  ghost predicate Waits(s: State, t: TxId, u: TxId) {
    Blocked(s, t) && s.locks[Target(s, t)] == u
  }

  /** Only cancellations of a bill and its own checkout ever write the bill's row; only a purchase records its items. */
  ghost predicate OwnWrite(q: Request, x: Stmt) {
    && (x.Write? && (x.row.BillRow? || x.op.InsertBill?) ==>
          x.row.BillRow? && (if x.op.InsertBill? then q.Checkout? && q.bill == x.row.bill
                             else q.Cancel? && q.bill == x.row.bill))
    && (x.Write? && x.op.InsertPurchase? ==> q.Receive? && x.op.items == q.items)
  }

  lemma {:induction false} PlanOwnWrites(subject: Value, q: Request)
    requires PlanOf(subject, q).Some?
    ensures var plan := PlanOf(subject, q).value;
            && (forall i | 0 <= i < |plan.pre| :: OwnWrite(q, plan.pre[i]))
            && (forall i | 0 <= i < |plan.post| :: OwnWrite(q, plan.post[i]))
  {
  }

  lemma {:induction false} OwnWriter(mode: Mode, subject: Value, q: Request)
    requires PlanOf(subject, q).Some?
    ensures var p := Program(mode, PlanOf(subject, q).value); forall i | 0 <= i < |p| :: OwnWrite(q, p[i])
  {
    PlanOwnWrites(subject, q);
    ProgramOwnWrites(mode, PlanOf(subject, q).value, q);
  }

  lemma {:induction false} ProgramOwnWrites(mode: Mode, plan: Plan, q: Request)
    requires forall i | 0 <= i < |plan.pre| :: OwnWrite(q, plan.pre[i])
    requires forall i | 0 <= i < |plan.post| :: OwnWrite(q, plan.post[i])
    ensures forall i | 0 <= i < |Program(mode, plan)| :: OwnWrite(q, Program(mode, plan)[i])
  {
    var a, b, c, d := plan.pre, Blocks(mode, plan.moves), plan.post, CreditBlocks(plan.credits);
    BlocksOps(mode, plan.moves);
    CreditOps(plan.credits);
    var p := Program(mode, plan);
    assert p == a + b + c + d;
    forall i | 0 <= i < |p| ensures OwnWrite(q, p[i]) {
      if i < |a| {
        assert p[i] == a[i];
      } else if i < |a| + |b| {
        assert p[i] == b[i - |a|];
      } else if i < |a| + |b| + |c| {
        assert p[i] == c[i - |a| - |b|];
      } else {
        assert p[i] == d[i - |a| - |b| - |c|];
      }
    }
  }

  lemma {:induction false} BlocksOps(mode: Mode, ms: seq<Move>)
    ensures forall i | 0 <= i < |Blocks(mode, ms)| && Blocks(mode, ms)[i].Write? ::
              StockRow(Blocks(mode, ms)[i].row) && !Blocks(mode, ms)[i].op.InsertBill? && !Blocks(mode, ms)[i].op.InsertPurchase?
    decreases |ms|
  {
    if ms != [] {
      BlocksOps(mode, ms[..|ms| - 1]);
    }
  }

  lemma {:induction false} CreditOps(cs: seq<CreditMove>)
    ensures forall i | 0 <= i < |CreditBlocks(cs)| && CreditBlocks(cs)[i].Write? ::
              CreditRow(CreditBlocks(cs)[i].row) && !CreditBlocks(cs)[i].op.InsertBill? && !CreditBlocks(cs)[i].op.InsertPurchase?
    decreases |cs|
  {
    if cs != [] {
      CreditOps(cs[..|cs| - 1]);
    }
  }

  ghost predicate AllOrdered(s: State, base: Db) {
    OrderedPurchases(base) && forall t | t in s.txs :: OrderedRequest(s.txs[t].request)
  }

  lemma {:induction false} ProgramFacts(mode: Mode, s: State, base: Db, t: TxId)
    requires RunOk(mode, s, base) && t in s.txs
    ensures AllOrdered(s, base) ==> InOrder(s.txs[t].program)
    ensures forall i | 0 <= i < |s.txs[t].program| :: OwnWrite(s.txs[t].request, s.txs[t].program[i])
  {
    var q := s.txs[t].request;
    var subject := if Subject(q).Some? then Get(base, Subject(q).value) else Absent;
    assert Planned(mode, base, q, s.txs[t].program);
    if AllOrdered(s, base) {
      RequestInOrder(mode, subject, q);
    }
    OwnWriter(mode, subject, q);
  }

  /** A held row was written by an earlier statement of its holder. */
  lemma {:induction false} HeldStmt(s: State, base: Db, u: TxId, r: Row) returns (i: nat)
    requires Consistent(s, base) && Owns(s, u, r)
    ensures i < s.txs[u].pc <= |s.txs[u].program|
    ensures s.txs[u].program[i].Write? && s.txs[u].program[i].row == r
  {
    assert TxOk(s, u, base);
    var p := Done(s.txs[u]);
    assert r in Written(p);
    i :| 0 <= i < |p| && p[i].Write? && p[i].row == r;
  }

  /** Nobody waits while inserting a bill, or for one being inserted. */
  lemma {:induction false} WaitIsContended(mode: Mode, s: State, base: Db, t: TxId, u: TxId, i: nat)
    requires RunOk(mode, s, base) && Waits(s, t, u)
    requires Owns(s, u, Target(s, t)) && i < s.txs[u].pc <= |s.txs[u].program|
    requires s.txs[u].program[i].Write? && s.txs[u].program[i].row == Target(s, t)
    ensures Contended(s.txs[t].program[s.txs[t].pc])
    ensures Contended(s.txs[u].program[i])
  {
    ProgramFacts(mode, s, base, t);
    ProgramFacts(mode, s, base, u);
    var x, y := s.txs[t].program[s.txs[t].pc], s.txs[u].program[i];
    assert OwnWrite(s.txs[t].request, x) && OwnWrite(s.txs[u].request, y);
    assert Planned(mode, base, s.txs[t].request, s.txs[t].program);
    assert Planned(mode, base, s.txs[u].request, s.txs[u].program);
  }

  /** A transaction that is waited for only waits for rows further on. */
  lemma {:induction false} WaitsUpward(mode: Mode, s: State, base: Db, t: TxId, u: TxId)
    requires RunOk(mode, s, base) && AllOrdered(s, base)
    requires Waits(s, t, u) && Blocked(s, u)
    ensures Before(Target(s, t), Target(s, u))
  {
    assert Owns(s, u, Target(s, t));
    var i := HeldStmt(s, base, u, Target(s, t));
    WaitIsContended(mode, s, base, t, u, i);
    ProgramFacts(mode, s, base, u);
    var v := s.locks[Target(s, u)];
    assert Owns(s, v, Target(s, u));
    var k := HeldStmt(s, base, v, Target(s, u));
    WaitIsContended(mode, s, base, u, v, k);
    var p, j := s.txs[u].program, s.txs[u].pc;
    assert TxOk(s, u, base);
    assert p[..j] == Done(s.txs[u]);
    if Target(s, u) in Written(p[..j]) {
      assert Owns(s, u, Target(s, u));
      assert false;
    }
  }

  ghost predicate Link(s: State, ts: seq<TxId>, i: nat) {
    i + 1 < |ts| && Waits(s, ts[i], ts[i + 1])
  }

  ghost predicate WaitPath(s: State, ts: seq<TxId>) {
    |ts| >= 2 && forall i | 0 <= i < |ts| - 1 :: Link(s, ts, i)
  }

  lemma {:induction false} PathAscends(mode: Mode, s: State, base: Db, ts: seq<TxId>)
    requires RunOk(mode, s, base) && AllOrdered(s, base)
    requires WaitPath(s, ts) && Blocked(s, ts[|ts| - 1])
    ensures Blocked(s, ts[0]) && Before(Target(s, ts[0]), Target(s, ts[|ts| - 1]))
    decreases |ts|
  {
    hide RunOk, AllOrdered, Before, Target;
    var n := |ts|;
    assert Link(s, ts, n - 2);
    WaitsUpward(mode, s, base, ts[n - 2], ts[n - 1]);
    if n > 2 {
      var front := ts[..n - 1];
      forall i | 0 <= i < |front| - 1 ensures Link(s, front, i) {
        assert Link(s, ts, i);
      }
      PathAscends(mode, s, base, front);
      BeforeTransitive(Target(s, ts[0]), Target(s, ts[n - 2]), Target(s, ts[n - 1]));
    }
  }

  lemma {:induction false} NoWaitCycle(mode: Mode, s: State, base: Db, ts: seq<TxId>)
    requires RunOk(mode, s, base) && AllOrdered(s, base) && WaitPath(s, ts)
    ensures ts[0] != ts[|ts| - 1]
  {
    if ts[0] == ts[|ts| - 1] {
      assert Link(s, ts, 0);
      PathAscends(mode, s, base, ts);
      BeforeIrreflexive(Target(s, ts[0]));
    }
  }

  // ---------------------------------------------------------------- progress

  ghost predicate Beyond(s: State, t: TxId, w: TxId) {
    AtWrite(s, t) && AtWrite(s, w) && !Before(Target(s, t), Target(s, w))
  }

  /** Among waiting transactions, one targets a row no other waits beyond. */
  lemma {:induction false} Furthest(s: State, ws: set<TxId>) returns (t: TxId)
    requires ws != {} && forall w | w in ws :: Blocked(s, w)
    ensures t in ws && forall w | w in ws :: Beyond(s, t, w)
    decreases |ws|
  {
    t :| t in ws;
    var rest := ws - {t};
    if rest == {} {
      assert ws == {t};
      BeforeIrreflexive(Target(s, t));
    } else {
      var u := Furthest(s, rest);
      if Before(Target(s, u), Target(s, t)) {
        forall w | w in ws ensures Beyond(s, t, w) {
          if w == t {
            BeforeIrreflexive(Target(s, t));
          } else {
            assert Beyond(s, u, w);
            if Before(Target(s, t), Target(s, w)) {
              BeforeTransitive(Target(s, u), Target(s, t), Target(s, w));
            }
          }
        }
      } else {
        t := u;
      }
    }
  }

  lemma {:induction false} Holder(mode: Mode, s: State, base: Db, t: TxId) returns (u: TxId)
    requires RunOk(mode, s, base) && Blocked(s, t)
    ensures u in s.txs && Waits(s, t, u)
  {
    u := s.locks[Target(s, t)];
    assert Owns(s, u, Target(s, t));
  }

  /** Never is every running transaction waiting for another. */
  lemma {:induction false} SomeoneRuns(mode: Mode, s: State, base: Db)
    requires RunOk(mode, s, base) && AllOrdered(s, base) && s.txs.Keys != {}
    ensures exists t :: t in s.txs && !Blocked(s, t)
  {
    hide AllOrdered, Before, RunOk, Blocked, Target;
    if forall t | t in s.txs :: Blocked(s, t) {
      var t := Furthest(s, s.txs.Keys);
      var u := Holder(mode, s, base, t);
      assert Beyond(s, t, u);
      WaitsUpward(mode, s, base, t, u);
    }
  }

  predicate OrderedRun(es: seq<Event>) {
    forall i | 0 <= i < |es| && es[i].Begin? :: OrderedRequest(es[i].request)
  }

  lemma {:induction false} ExecPurchases(p: seq<Stmt>, db: Db, l: Locals)
    requires Exec(false, p, db, l).Ok? && OrderedPurchases(db)
    requires forall i | 0 <= i < |p| :: p[i].Write? && p[i].op.InsertPurchase? ==> ByProduct(p[i].op.items)
    ensures OrderedPurchases(Exec(false, p, db, l).value.0)
    decreases |p|
  {
    hide ByProduct;
    if p != [] {
      ExecPurchases(p[..|p| - 1], db, l);
    }
  }

  lemma {:induction false} CommitKeepsOrdered(mode: Mode, base: Db, q: Request, program: seq<Stmt>)
    requires Planned(mode, base, q, program) && Run(false, program, base).Ok?
    requires OrderedRequest(q) && OrderedPurchases(base)
    ensures OrderedPurchases(Run(false, program, base).value.0)
  {
    hide Exec, OrderedPurchases, ByProduct, Program, PlanOf;
    OwnWriter(mode, if Subject(q).Some? then Get(base, Subject(q).value) else Absent, q);
    forall i | 0 <= i < |program| && program[i].Write? && program[i].op.InsertPurchase?
      ensures ByProduct(program[i].op.items)
    {
      assert OwnWrite(q, program[i]);
    }
    ExecPurchases(program, base, NO_LOCALS);
  }

  lemma {:induction false} OrderedRunOrdered(mode: Mode, db: Db, es: seq<Event>)
    requires Canonical(db) && OrderedPurchases(db) && OrderedRun(es) && Steps(mode, Start(db), es).Some?
    ensures var s := Steps(mode, Start(db), es).value;
            Replay(db, s.history).Ok? && AllOrdered(s, BaseOf(db, s))
    decreases |es|
  {
    hide Exec, Run, RunOk, OrderedPurchases, OrderedRequest;
    StepsRunOk(mode, db, es);
    if es != [] {
      var front, e := es[..|es| - 1], es[|es| - 1];
      OrderedRunOrdered(mode, db, front);
      StepsRunOk(mode, db, front);
      var m := Steps(mode, Start(db), front).value;
      NextTxs(mode, m, e);
      NextHistory(mode, db, m, e);
      CommittedOrdered(mode, m, e, BaseOf(db, m));
    }
  }

  lemma {:induction false} CommittedOrdered(mode: Mode, m: State, e: Event, base: Db)
    requires RunOk(mode, m, base) && AllOrdered(m, base) && Next(mode, m, e).Some?
    ensures OrderedPurchases(BaseAfter(m, e, base))
  {
    hide Exec, Run, OrderedPurchases, OrderedRequest, Consistent;
    if e.Commit? && e.t in m.txs && Run(false, m.txs[e.t].program, base).Ok? {
      CommitKeepsOrdered(mode, base, m.txs[e.t].request, m.txs[e.t].program);
    }
  }

  /**
   * Any number of concurrent requests of every kind, new and recorded purchases
   * listing their items in product order: waiting never forms a cycle, and
   * while any transaction is running one of them is not waiting.
   */
  lemma {:induction false} DeadlockFree(mode: Mode, db: Db, es: seq<Event>)
    requires Canonical(db) && OrderedPurchases(db) && OrderedRun(es) && Steps(mode, Start(db), es).Some?
    ensures var s := Steps(mode, Start(db), es).value;
            && (forall ts | WaitPath(s, ts) :: ts[0] != ts[|ts| - 1])
            && (s.txs.Keys != {} ==> exists t :: t in s.txs && !Blocked(s, t))
  {
    var s := Steps(mode, Start(db), es).value;
    StepsRunOk(mode, db, es);
    OrderedRunOrdered(mode, db, es);
    hide OrderedPurchases, RunOk, AllOrdered, OrderedRun;
    forall ts | WaitPath(s, ts) ensures ts[0] != ts[|ts| - 1] {
      NoWaitCycle(mode, s, BaseOf(db, s), ts);
    }
    if s.txs.Keys != {} {
      SomeoneRuns(mode, s, BaseOf(db, s));
    }
  }
}
