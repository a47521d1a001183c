// Why purchases need their items in product order: two that list the same two
// products in opposite orders can each end up waiting for the other.
module Deadlock {
  import opened Wrappers
  import opened Ids
  import opened Tables
  import opened Handlers
  import opened Engine
  import opened Runs
  import opened Journals
  import opened Sales
  import opened LockOrder

  // ------------------------------------------------------------ running alone

  function Repeat(t: TxId, n: nat): (es: seq<Event>)
    ensures |es| == n && forall i :: 0 <= i < n ==> es[i] == Advance(t)
  {
    seq(n, _ => Advance(t))
  }

  lemma {:induction false} StepsConcat(mode: Mode, s: State, a: seq<Event>, b: seq<Event>)
    requires Steps(mode, s, a).Some?
    ensures Steps(mode, s, a + b) == Steps(mode, Steps(mode, s, a).value, b)
    decreases |b|
  {
    hide Next;
    if b == [] {
      assert a + b == a;
    } else {
      StepsConcat(mode, s, a, b[..|b| - 1]);
      assert (a + b)[..|a + b| - 1] == a + b[..|b| - 1];
    }
  }

  /** The rows of these statements that are locked are the transaction's own. */
  ghost predicate Unhindered(s: State, t: TxId, p: seq<Stmt>) {
    forall r | r in Written(p) && r in s.locks :: s.locks[r] == t
  }

  /** What the next statement sees is what its transaction, run alone, would see. */
  lemma {:induction false} SeesItsRun(s: State, t: TxId, base: Db)
    requires Consistent(s, base) && t in s.txs && s.txs[t].pc < |s.txs[t].program|
    requires Run(true, Done(s.txs[t]), base).Ok? && !Blocked(s, t)
    ensures var (d, l) := Run(true, Done(s.txs[t]), base).value; var x := s.txs[t].program[s.txs[t].pc];
            && l == s.txs[t].locals && (forall r :: Get(d, r) == SeenAt(s, t, r))
            && (x.Write? ==> Get(d, x.row) == Get(s.live, x.row))
  {
    hide Exec;
    var x := s.txs[t].program[s.txs[t].pc];
    assert TxOk(s, t, base);
    ChecksOnlyReject(Done(s.txs[t]), base, NO_LOCALS);
    if x.Write? && x.row in s.locks {
      assert Owns(s, t, x.row);
    }
  }

  /** A transaction at a statement that its own run passes, and not waiting, goes one statement on. */
  lemma {:induction false} Onward(mode: Mode, s: State, t: TxId, base: Db)
    requires Consistent(s, base) && t in s.txs && s.txs[t].pc < |s.txs[t].program|
    requires Run(true, s.txs[t].program[..s.txs[t].pc + 1], base).Ok? && !Blocked(s, t)
    ensures Next(mode, s, Advance(t)).Some?
    ensures var n := Next(mode, s, Advance(t)).value;
            && n.txs.Keys == s.txs.Keys && (forall u | u in s.txs && u != t :: n.txs[u] == s.txs[u])
            && n.txs[t].program == s.txs[t].program && n.txs[t].pc == s.txs[t].pc + 1
  {
    hide Consistent, SeenAt;
    var tx := s.txs[t];
    assert tx.program[..tx.pc + 1] == Done(tx) + [tx.program[tx.pc]];
    ExecStep(true, Done(tx), tx.program[tx.pc], base, NO_LOCALS);
    SeesItsRun(s, t, base);
    hide Exec;
  }

  lemma {:induction false} StillUnhindered(s: State, n: State, base: Db, t: TxId, p: seq<Stmt>)
    requires Consistent(s, base) && Consistent(n, base) && Unhindered(s, t, p)
    requires n.txs.Keys == s.txs.Keys && forall u | u in s.txs && u != t :: n.txs[u] == s.txs[u]
    ensures Unhindered(n, t, p)
  {
    forall r | r in Written(p) && r in n.locks ensures n.locks[r] == t {
      assert Owns(n, n.locks[r], r);
      if n.locks[r] != t {
        assert Owns(s, n.locks[r], r);
      }
    }
  }

  /** A transaction whose next statements pass when it runs alone, and meet no one else's lock, gets through them. */
  lemma {:induction false} Solo(mode: Mode, s: State, t: TxId, base: Db, n: nat) returns (m: State)
    requires Consistent(s, base) && t in s.txs && s.txs[t].pc + n <= |s.txs[t].program|
    requires Run(true, s.txs[t].program[..s.txs[t].pc + n], base).Ok? && Unhindered(s, t, s.txs[t].program[..s.txs[t].pc + n])
    ensures Steps(mode, s, Repeat(t, n)) == Some(m) && Consistent(m, base)
    ensures m.txs.Keys == s.txs.Keys && (forall u | u in s.txs && u != t :: m.txs[u] == s.txs[u])
    ensures m.txs[t].program == s.txs[t].program && m.txs[t].pc == s.txs[t].pc + n
    decreases n
  {
    if n == 0 {
      m := s;
    } else {
      hide Exec, Consistent, Next;
      var p, k := s.txs[t].program, s.txs[t].pc + n;
      assert p[..k][..k - 1] == p[..k - 1];
      PrefixRuns(p[..k], base);
      WrittenPrefix(p[..k]);
      var f := Solo(mode, s, t, base, n - 1);
      assert Repeat(t, n)[..n - 1] == Repeat(t, n - 1);
      NotBlocked(s, f, base, t, k);
      Onward(mode, f, t, base);
      NextOk(mode, f, Advance(t), base);
      m := Next(mode, f, Advance(t)).value;
    }
  }

  lemma {:induction false} PrefixRuns(p: seq<Stmt>, db: Db)
    requires p != [] && Run(true, p, db).Ok?
    ensures Run(true, p[..|p| - 1], db).Ok?
  {
  }

  lemma {:induction false} NotBlocked(s: State, f: State, base: Db, t: TxId, k: nat)
    requires Consistent(s, base) && Consistent(f, base) && t in s.txs && t in f.txs && f.txs[t].pc == k - 1
    requires f.txs[t].program == s.txs[t].program && 0 < k <= |s.txs[t].program|
    requires f.txs.Keys == s.txs.Keys && forall u | u in s.txs && u != t :: f.txs[u] == s.txs[u]
    requires Unhindered(s, t, s.txs[t].program[..k])
    ensures !Blocked(f, t)
  {
    hide Consistent;
    var p := s.txs[t].program[..k];
    StillUnhindered(s, f, base, t, p);
    if p[k - 1].Write? {
      WrittenMember(p, k - 1);
    }
  }

  // ------------------------------------------------- two purchases, opposite orders

  datatype Order = Order(purchase: Id, shop: Id, cashier: Option<Id>, first: Item, second: Item, actor: Id)

  function RequestOf(o: Order): Request { Receive(o.purchase, o.shop, o.cashier, [o.first, o.second], o.actor) }

  /** A new purchase of two products that are on sale at the branch. */
  ghost predicate Orderable(mode: Mode, db: Db, o: Order) {
    && Get(db, Purchase(o.purchase)) == Absent && (mode == BRANCH || o.cashier.Some?)
    && o.first.quantity > 0 && o.second.quantity > 0 && o.first.product.Some? && o.second.product.Some?
    && Sellable(db, o.shop, o.first.product.value) && Sellable(db, o.shop, o.second.product.value)
  }

  function FirstMove(o: Order): Move
    requires o.first.product.Some?
  {
    ItemMove(o.shop, o.cashier, o.first, true, Received(o.purchase), o.actor)
  }

  function SecondMove(o: Order): Move
    requires o.second.product.Some?
  {
    ItemMove(o.shop, o.cashier, o.second, true, Received(o.purchase), o.actor)
  }

  /** The statements before the second product's stock row. */
  function Lead(mode: Mode, o: Order): seq<Stmt>
    requires o.first.product.Some? && o.second.product.Some?
  {
    [Write(Purchase(o.purchase), InsertPurchase(o.shop, [o.first, o.second]))] + Block(mode, FirstMove(o)) +
    [Check(Branch(o.shop, o.second.product.value), Listed(false))]
  }

  const LEAD := 7

  function ProgramOf(mode: Mode, o: Order): seq<Stmt> {
    Program(mode, ReceivePlan(o.purchase, o.shop, o.cashier, [o.first, o.second], o.actor))
  }

  lemma {:induction false} TwoMoves(shop: Id, cashier: Option<Id>, a: Item, b: Item, cause: Cause, actor: Id)
    requires a.product.Some? && b.product.Some?
    ensures ItemMoves(shop, cashier, [a, b], true, cause, actor) ==
            [ItemMove(shop, cashier, a, true, cause, actor), ItemMove(shop, cashier, b, true, cause, actor)]
  {
    assert [a, b][..1] == [a] && [a][..0] == [];
    assert ItemMoves(shop, cashier, [], true, cause, actor) == [];
    assert ItemMoves(shop, cashier, [a], true, cause, actor) == [ItemMove(shop, cashier, a, true, cause, actor)];
  }

  lemma {:induction false} TwoBlocks(mode: Mode, m: Move, n: Move)
    ensures Blocks(mode, [m, n]) == Block(mode, m) + Block(mode, n)
  {
    assert [m, n][..1] == [m] && [m][..0] == [];
    assert Blocks(mode, []) == [];
    assert Blocks(mode, [m]) == Block(mode, m);
  }

  lemma {:induction false} OrderProgram(mode: Mode, db: Db, o: Order)
    requires Orderable(mode, db, o)
    ensures var p := ProgramOf(mode, o);
            && |p| == 11 && p[..LEAD] == Lead(mode, o)
            && p[LEAD] == Write(Inventory(KeyOf(mode, SecondMove(o))), Ensure)
  {
    var items, m, n := [o.first, o.second], FirstMove(o), SecondMove(o);
    var ms := ItemMoves(o.shop, o.cashier, items, true, Received(o.purchase), o.actor);
    TwoMoves(o.shop, o.cashier, o.first, o.second, Received(o.purchase), o.actor);
    TwoBlocks(mode, m, n);
    var w := [Write(Purchase(o.purchase), InsertPurchase(o.shop, items))];
    assert ProgramOf(mode, o) == w + Block(mode, m) + Block(mode, n);
  }

  lemma {:induction false} LeadRows(mode: Mode, db: Db, o: Order)
    requires Orderable(mode, db, o)
    ensures Written(Lead(mode, o)) ==
            {Purchase(o.purchase), Inventory(KeyOf(mode, FirstMove(o))), Product(o.first.product.value), Log(KeyOf(mode, FirstMove(o)))}
  {
    var w := [Write(Purchase(o.purchase), InsertPurchase(o.shop, [o.first, o.second]))];
    BlockRows(mode, FirstMove(o));
    WrittenMember(w, 0);
    WrittenConcat(w, Block(mode, FirstMove(o)));
    WrittenConcat(w + Block(mode, FirstMove(o)), [Check(Branch(o.shop, o.second.product.value), Listed(false))]);
  }

  /** Recording the purchase touches neither stock nor listings. */
  lemma {:induction false} Recorded(mode: Mode, db: Db, o: Order)
    requires Orderable(mode, db, o) && StockTyped(db)
    ensures var w := Write(Purchase(o.purchase), InsertPurchase(o.shop, [o.first, o.second]));
            var r := Exec(true, [w], db, NO_LOCALS);
            && r.Ok? && StockTyped(r.value.0) && r.value.1 == NO_LOCALS
            && (forall p | Sellable(db, o.shop, p) :: Sellable(r.value.0, o.shop, p))
  {
    ExecOne(true, Write(Purchase(o.purchase), InsertPurchase(o.shop, [o.first, o.second])), db, NO_LOCALS);
  }

  lemma {:induction false} StillListed(mode: Mode, m: Move, shop: Id, product: Id, db: Db, l: Locals)
    requires Exec(true, Block(mode, m), db, l).Ok? && Sellable(db, shop, product)
    ensures ExecStmt(true, Check(Branch(shop, product), Listed(false)), Exec(true, Block(mode, m), db, l).value.0, l).Ok?
  {
    hide Exec;
    BlockRows(mode, m);
    Untouched(true, Block(mode, m), db, l, Branch(shop, product));
  }

  lemma {:induction false} LeadRuns(mode: Mode, db: Db, o: Order)
    requires Orderable(mode, db, o) && StockTyped(db)
    ensures Run(true, Lead(mode, o), db).Ok?
  {
    hide Exec, Block, StockTyped;
    var w, m := Write(Purchase(o.purchase), InsertPurchase(o.shop, [o.first, o.second])), FirstMove(o);
    Recorded(mode, db, o);
    var d := Exec(true, [w], db, NO_LOCALS).value.0;
    DeliveryAccepted(mode, m, d, NO_LOCALS);
    StillListed(mode, m, o.shop, o.second.product.value, d, NO_LOCALS);
    ExecConcat(true, [w], Block(mode, m), db, NO_LOCALS);
    ExecStep(true, [w] + Block(mode, m), Check(Branch(o.shop, o.second.product.value), Listed(false)), db, NO_LOCALS);
  }

  /** The two transactions have begun and done nothing yet. */
  lemma {:induction false} BothBegun(mode: Mode, db: Db, o: Order, q: Order) returns (s: State)
    requires Canonical(db) && Orderable(mode, db, o) && Orderable(mode, db, q)
    ensures Steps(mode, Start(db), [Begin(0, RequestOf(o)), Begin(1, RequestOf(q))]) == Some(s) && Consistent(s, db)
    ensures s.locks == map[] && s.txs.Keys == {0, 1} && s.txs[0].pc == 0 == s.txs[1].pc
    ensures s.txs[0].program == ProgramOf(mode, o) && s.txs[1].program == ProgramOf(mode, q)
  {
    hide Program, Consistent;
    var a, b := Begin(0, RequestOf(o)), Begin(1, RequestOf(q));
    StartOk(db);
    var m := Next(mode, Start(db), a).value;
    NextOk(mode, Start(db), a, db);
    s := Next(mode, m, b).value;
    NextOk(mode, m, b, db);
    assert [a, b][..1] == [a] && [a][..0] == [];
    assert Steps(mode, Start(db), []) == Some(Start(db));
    assert Steps(mode, Start(db), [a]) == Some(m);
  }

  /**
   * In any database where two products are on sale, two purchases that list
   * them in opposite orders have a run after which each waits for the other.
   */
  lemma {:induction false} OppositeOrdersDeadlock(mode: Mode, db: Db, o: Order, q: Order) returns (es: seq<Event>)
    requires Canonical(db) && StockTyped(db) && Orderable(mode, db, o) && Orderable(mode, db, q)
    requires o.purchase != q.purchase && o.shop == q.shop && o.cashier == q.cashier
    requires o.first.product != q.first.product && o.first.product == q.second.product && q.first.product == o.second.product
    ensures forall i | 0 <= i < |es| && es[i].Begin? :: es[i].request in {RequestOf(o), RequestOf(q)}
    ensures Steps(mode, Start(db), es).Some?
    ensures var s := Steps(mode, Start(db), es).value;
            s.txs.Keys == {0, 1} && Waits(s, 0, 1) && Waits(s, 1, 0)
  {
    hide Exec, Consistent, Program, Lead, Next;
    var begun := BothBegun(mode, db, o, q);
    OrderProgram(mode, db, o);
    OrderProgram(mode, db, q);
    LeadRuns(mode, db, o);
    LeadRuns(mode, db, q);
    LeadRows(mode, db, o);
    LeadRows(mode, db, q);
    var half := Solo(mode, begun, 0, db, LEAD);
    FreeOf(mode, half, db, o, q);
    var s := Solo(mode, half, 1, db, LEAD);
    var start := [Begin(0, RequestOf(o)), Begin(1, RequestOf(q))];
    StepsConcat(mode, Start(db), start, Repeat(0, LEAD));
    StepsConcat(mode, Start(db), start + Repeat(0, LEAD), Repeat(1, LEAD));
    es := start + Repeat(0, LEAD) + Repeat(1, LEAD);
    Held(s, db, 0, LEAD, Inventory(KeyOf(mode, FirstMove(o))));
    Held(s, db, 1, LEAD, Inventory(KeyOf(mode, FirstMove(q))));
  }

  /** The first purchase has locked none of the rows the second one starts with. */
  lemma {:induction false} FreeOf(mode: Mode, s: State, db: Db, o: Order, q: Order)
    requires Consistent(s, db) && s.txs.Keys == {0, 1} && s.txs[0].pc == LEAD <= |s.txs[0].program| && s.txs[1].pc == 0
    requires Orderable(mode, db, o) && Orderable(mode, db, q)
    requires s.txs[0].program[..LEAD] == Lead(mode, o) && Written(Lead(mode, o)) !! Written(Lead(mode, q))
    ensures Unhindered(s, 1, Lead(mode, q))
  {
    hide Lead;
    assert TxOk(s, 0, db) && TxOk(s, 1, db);
    forall r | r in Written(Lead(mode, q)) && r in s.locks ensures s.locks[r] == 1 {
      assert Owns(s, s.locks[r], r);
    }
  }

  /** Every row a transaction has written is locked for it. */
  lemma {:induction false} Held(s: State, db: Db, t: TxId, n: nat, r: Row)
    requires Consistent(s, db) && t in s.txs && s.txs[t].pc == n <= |s.txs[t].program| && r in Written(s.txs[t].program[..n])
    ensures r in s.locks && s.locks[r] == t
  {
    assert TxOk(s, t, db);
    assert Owns(s, t, r);
  }
}
