// A purchase and its reversal, each run alone: when they go through, and that
// the reversal takes back exactly what the purchase brought.
module Purchases {
  import opened Wrappers
  import opened Ids
  import opened Tables
  import opened Handlers
  import opened Runs
  import opened Conservation
  import opened Journals
  import opened Sales

  function StockKey(mode: Mode, shop: Id, cashier: Option<Id>, p: Id): Key {
    Key(shop, if mode == BRANCH then None else cashier, p)
  }

  /** The product is on sale here, and if it leaves, the purchase's merged quantity of it is in stock. */
  predicate MovableOf(mode: Mode, shop: Id, cashier: Option<Id>, items: seq<Item>, inward: bool, db: Db, p: Id) {
    Sellable(db, shop, p) && (inward || ItemQty(items, p) <= Quantity(db, StockKey(mode, shop, cashier, p)))
  }

  predicate Movable(mode: Mode, shop: Id, cashier: Option<Id>, items: seq<Item>, inward: bool, db: Db) {
    forall i | 0 <= i < |items| && items[i].product.Some? ::
      MovableOf(mode, shop, cashier, items, inward, db, items[i].product.value)
  }

  predicate Positive(items: seq<Item>) { forall i | 0 <= i < |items| :: items[i].quantity > 0 }

  /** One movement goes through exactly when the product is on sale and the row does not go below zero. */
  lemma {:induction false} BlockExact(mode: Mode, m: Move, db: Db, l: Locals)
    requires Keyed(mode, m) && m.delta != 0 && !m.allowUnassigned
    requires StockTyped(db) && Quantity(db, KeyOf(mode, m)) >= 0
    ensures Exec(true, Block(mode, m), db, l).Ok? <==>
            Sellable(db, m.shop, m.product) && Quantity(db, KeyOf(mode, m)) + m.delta >= 0
  {
    hide Exec, Block, StockTyped;
    if Exec(true, Block(mode, m), db, l).Ok? {
      BlockEffect(true, mode, m, db, l);
      MovedIsListed(mode, m, db, l);
    } else if Sellable(db, m.shop, m.product) {
      if m.delta < 0 {
        BlockSucceeds(mode, m, db, l);
      } else {
        DeliveryAccepted(mode, m, db, l);
      }
    }
  }

  lemma {:induction false} MovedIsListed(mode: Mode, m: Move, db: Db, l: Locals)
    requires Exec(true, Block(mode, m), db, l).Ok? && !m.allowUnassigned
    ensures Get(db, Branch(m.shop, m.product)).BranchV? && Get(db, Branch(m.shop, m.product)).isAssigned
  {
    var b := Block(mode, m);
    ExecConcat(true, [b[0]], b[1..], db, l);
    assert b == [b[0]] + b[1..];
    ExecOne(true, b[0], db, l);
  }

  // ------------------------------------------------------------- merged quantities

  lemma {:induction false} ItemQtySnoc(items: seq<Item>, it: Item, p: Id)
    ensures ItemQty(items + [it], p) == ItemQty(items, p) + if it.product == Some(p) then it.quantity else 0
  {
    assert (items + [it])[..|items|] == items;
  }

  /** The movements of a purchase change each stock row and aggregate by the merged quantity of its product. */
  lemma {:induction false} ItemsMoved(mode: Mode, shop: Id, cashier: Option<Id>, items: seq<Item>,
                                      inward: bool, cause: Cause, actor: Id, k: Key, p: Id)
    ensures var ms := ItemMoves(shop, cashier, items, inward, cause, actor);
            && MovedAt(mode, ms, k) == (if k != StockKey(mode, shop, cashier, k.product) then 0
                                        else if inward then ItemQty(items, k.product) else -ItemQty(items, k.product))
            && MovedOf(ms, p) == (if inward then ItemQty(items, p) else -ItemQty(items, p))
    decreases |items|
  {
    hide MovedAt, MovedOf;
    if items == [] {
      NothingMoved(mode, k, p);
    } else {
      var front, it := items[..|items| - 1], items[|items| - 1];
      ItemsMoved(mode, shop, cashier, front, inward, cause, actor, k, p);
      if it.product.Some? {
        MovedSnoc(mode, ItemMoves(shop, cashier, front, inward, cause, actor),
                  ItemMove(shop, cashier, it, inward, cause, actor), k, p);
      } else {
        assert ItemMoves(shop, cashier, items, inward, cause, actor) == ItemMoves(shop, cashier, front, inward, cause, actor);
      }
    }
  }

  lemma {:induction false} NothingMoved(mode: Mode, k: Key, p: Id)
    ensures MovedAt(mode, [], k) == 0 == MovedOf([], p)
  {
  }

  lemma {:induction false} NoItemNoQty(items: seq<Item>, p: Id)
    requires forall i | 0 <= i < |items| :: items[i].product != Some(p)
    ensures ItemQty(items, p) == 0
    decreases |items|
  {
    if items != [] {
      NoItemNoQty(items[..|items| - 1], p);
    }
  }

  /** One more item asks for its own product's merged quantity, and no less of any other. */
  lemma {:induction false} MovableSnoc(mode: Mode, shop: Id, cashier: Option<Id>, front: seq<Item>, it: Item,
                                       inward: bool, db: Db)
    requires it.quantity > 0
    ensures Movable(mode, shop, cashier, front + [it], inward, db) <==>
            Movable(mode, shop, cashier, front, inward, db)
            && (it.product.Some? ==> MovableOf(mode, shop, cashier, front + [it], inward, db, it.product.value))
  {
    hide ItemQty, Sellable;
    var items := front + [it];
    forall p
      ensures ItemQty(front, p) <= ItemQty(items, p) && (it.product != Some(p) ==> ItemQty(items, p) == ItemQty(front, p))
    {
      ItemQtySnoc(front, it, p);
    }
    assert items[|front|] == it;
    if Movable(mode, shop, cashier, items, inward, db) {
      forall i | 0 <= i < |front| && front[i].product.Some?
        ensures MovableOf(mode, shop, cashier, front, inward, db, front[i].product.value)
      {
        assert items[i] == front[i];
        assert MovableOf(mode, shop, cashier, items, inward, db, items[i].product.value);
      }
    } else {
      var i :| 0 <= i < |items| && items[i].product.Some?
            && !MovableOf(mode, shop, cashier, items, inward, db, items[i].product.value);
      if items[i].product != it.product {
        assert front[i] == items[i];
        assert !MovableOf(mode, shop, cashier, front, inward, db, front[i].product.value);
      }
    }
  }

  lemma {:induction false} FrontMovable(mode: Mode, shop: Id, cashier: Option<Id>, front: seq<Item>,
                                        inward: bool, db: Db, p: Id)
    requires Movable(mode, shop, cashier, front, inward, db) && Positive(front) && forall k :: Quantity(db, k) >= 0
    ensures 0 <= ItemQty(front, p) && (inward || ItemQty(front, p) <= Quantity(db, StockKey(mode, shop, cashier, p)))
  {
    ItemQtyPositive(front, p);
    if i :| 0 <= i < |front| && front[i].product == Some(p) {
      assert MovableOf(mode, shop, cashier, front, inward, db, front[i].product.value);
    } else {
      NoItemNoQty(front, p);
    }
  }

  lemma {:induction false} ItemQtyPositive(items: seq<Item>, p: Id)
    requires Positive(items)
    ensures ItemQty(items, p) >= 0
    decreases |items|
  {
    if items != [] {
      ItemQtyPositive(items[..|items| - 1], p);
    }
  }

  /** Item by item, the movements go through exactly when the merged quantities fit. */
  lemma {:induction false} ItemsSucceed(mode: Mode, shop: Id, cashier: Option<Id>, items: seq<Item>,
                                        inward: bool, cause: Cause, actor: Id,
                                        db: Db, l: Locals)
    requires Positive(items) && (mode == BRANCH || cashier.Some?)
    requires StockTyped(db) && forall k :: Quantity(db, k) >= 0
    ensures Exec(true, Blocks(mode, ItemMoves(shop, cashier, items, inward, cause, actor)), db, l).Ok? <==>
            Movable(mode, shop, cashier, items, inward, db)
    decreases |items|
  {
    hide Exec, Block, Movable, Sellable, ItemQty, StockTyped;
    if items == [] {
      NothingToMove(mode, shop, cashier, inward, db, l);
    } else {
      var front, it := items[..|items| - 1], items[|items| - 1];
      assert items == front + [it];
      ItemsSucceed(mode, shop, cashier, front, inward, cause, actor, db, l);
      MovableSnoc(mode, shop, cashier, front, it, inward, db);
      var before := ItemMoves(shop, cashier, front, inward, cause, actor);
      if it.product.Some? {
        NextItem(mode, shop, cashier, front, it, inward, cause, actor, db, l);
      } else {
        assert ItemMoves(shop, cashier, items, inward, cause, actor) == before;
      }
    }
  }

  lemma {:induction false} NothingToMove(mode: Mode, shop: Id, cashier: Option<Id>, inward: bool, db: Db, l: Locals)
    ensures Exec(true, Blocks(mode, []), db, l) == Ok((db, l)) && Movable(mode, shop, cashier, [], inward, db)
  {
  }

  lemma {:induction false} NextItem(mode: Mode, shop: Id, cashier: Option<Id>, front: seq<Item>, it: Item,
                                    inward: bool, cause: Cause, actor: Id,
                                    db: Db, l: Locals)
    requires Positive(front) && it.quantity > 0 && it.product.Some? && (mode == BRANCH || cashier.Some?)
    requires StockTyped(db) && forall k :: Quantity(db, k) >= 0
    requires Exec(true, Blocks(mode, ItemMoves(shop, cashier, front, inward, cause, actor)), db, l).Ok? <==>
             Movable(mode, shop, cashier, front, inward, db)
    ensures var ms, m := ItemMoves(shop, cashier, front, inward, cause, actor), ItemMove(shop, cashier, it, inward, cause, actor);
            Exec(true, Blocks(mode, ms + [m]), db, l).Ok? <==>
            Movable(mode, shop, cashier, front, inward, db)
            && MovableOf(mode, shop, cashier, front + [it], inward, db, it.product.value)
  {
    hide Exec, Block, Movable, Sellable, ItemQty, StockTyped, MovedAt, MovedOf;
    var ms, m := ItemMoves(shop, cashier, front, inward, cause, actor), ItemMove(shop, cashier, it, inward, cause, actor);
    var p, k := it.product.value, KeyOf(mode, m);
    assert (ms + [m])[..|ms|] == ms;
    ExecConcat(true, Blocks(mode, ms), Block(mode, m), db, l);
    if Movable(mode, shop, cashier, front, inward, db) {
      var (d, l') := Exec(true, Blocks(mode, ms), db, l).value;
      SaleKeepsTypes(mode, ms, db, l);
      BlocksNet(true, mode, ms, db, l, k, p);
      ItemsMoved(mode, shop, cashier, front, inward, cause, actor, k, p);
      FrontMovable(mode, shop, cashier, front, inward, db, p);
      ItemQtySnoc(front, it, p);
      assert Sellable(d, m.shop, m.product) == Sellable(db, m.shop, m.product);
      BlockExact(mode, m, d, l');
    }
  }

  // ------------------------------------------------------------------- the outcomes

  /** The purchase row's own statement touches no stock, listing or product row. */
  lemma {:induction false} SameStock(db: Db, id: Id, v: Value)
    ensures var a := Put(db, Purchase(id), v);
            && (forall k :: Quantity(a, k) == Quantity(db, k)) && (StockTyped(db) ==> StockTyped(a))
            && (forall s, p :: Sellable(a, s, p) == Sellable(db, s, p)) && (forall p :: Stock(a, p) == Stock(db, p))
  {
  }

  /** A purchase plan is its row's statement, then its movements. */
  lemma {:induction false} PlanOutcome(mode: Mode, w: Stmt, ms: seq<Move>, db: Db)
    ensures Run(true, Program(mode, Plan([w], ms, [], [])), db) ==
            match ExecStmt(true, w, db, NO_LOCALS)
            case Err(e) => Err(e)
            case Ok((a, l)) => Exec(true, Blocks(mode, ms), a, l)
  {
    hide Exec, ExecStmt, Blocks;
    NoCreditBlocks();
    assert Program(mode, Plan([w], ms, [], [])) == [w] + Blocks(mode, ms);
    ExecConcat(true, [w], Blocks(mode, ms), db, NO_LOCALS);
    ExecOne(true, w, db, NO_LOCALS);
  }

  lemma {:induction false} NoCreditBlocks()
    ensures CreditBlocks([]) == []
  {
  }

  lemma {:induction false} SameMovable(mode: Mode, shop: Id, cashier: Option<Id>, items: seq<Item>,
                                       inward: bool, a: Db, b: Db)
    requires forall k :: Quantity(a, k) == Quantity(b, k)
    requires forall s, p :: Sellable(a, s, p) == Sellable(b, s, p)
    ensures Movable(mode, shop, cashier, items, inward, a) == Movable(mode, shop, cashier, items, inward, b)
  {
    hide Sellable, ItemQty;
    assert forall p :: MovableOf(mode, shop, cashier, items, inward, a, p) == MovableOf(mode, shop, cashier, items, inward, b, p);
  }

  /** A purchase that runs alone goes through exactly when its id is new and its catalogue items are on sale at the branch. */
  lemma {:induction false} ReceiveExact(mode: Mode, id: Id, shop: Id, cashier: Option<Id>, items: seq<Item>,
                                        actor: Id, db: Db)
    requires Positive(items) && (mode == BRANCH || cashier.Some?)
    requires StockTyped(db) && forall k :: Quantity(db, k) >= 0
    ensures Run(true, Program(mode, ReceivePlan(id, shop, cashier, items, actor)), db).Ok? <==>
            Get(db, Purchase(id)) == Absent
            && forall i | 0 <= i < |items| && items[i].product.Some? :: Sellable(db, shop, items[i].product.value)
  {
    hide Exec, Program, Blocks, ItemMoves, StockTyped, Sellable;
    var w := Write(Purchase(id), InsertPurchase(shop, items));
    PlanOutcome(mode, w, ItemMoves(shop, cashier, items, true, Received(id), actor), db);
    if Get(db, Purchase(id)) == Absent {
      var a := Put(db, Purchase(id), PurchaseV(shop, items, true, false));
      SameStock(db, id, PurchaseV(shop, items, true, false));
      ItemsSucceed(mode, shop, cashier, items, true, Received(id), actor, a, NO_LOCALS);
      SameMovable(mode, shop, cashier, items, true, a, db);
      InwardMovable(mode, shop, cashier, items, db);
    }
  }

  lemma {:induction false} InwardMovable(mode: Mode, shop: Id, cashier: Option<Id>, items: seq<Item>, db: Db)
    ensures Movable(mode, shop, cashier, items, true, db) <==>
            forall i | 0 <= i < |items| && items[i].product.Some? :: Sellable(db, shop, items[i].product.value)
  {
    hide Sellable, ItemQty;
    forall i | 0 <= i < |items| && items[i].product.Some?
      ensures MovableOf(mode, shop, cashier, items, true, db, items[i].product.value) <==> Sellable(db, shop, items[i].product.value)
    {
    }
  }

  /**
   * The reversal of a received purchase, run alone, goes through exactly when
   * every catalogue item is on sale at the branch and each product's merged
   * quantity is still in stock, in either mode and with repeated products.
   */
  lemma {:induction false} ReversalExact(mode: Mode, id: Id, v: Value, cashier: Option<Id>, actor: Id, db: Db)
    requires Get(db, Purchase(id)) == v && v.PurchaseV? && !v.reversed
    requires Positive(v.items) && (mode == BRANCH || cashier.Some?)
    requires StockTyped(db) && forall k :: Quantity(db, k) >= 0
    ensures Run(true, Program(mode, ReversePlan(id, v.shop, cashier, v.items, actor)), db).Ok? <==>
            Movable(mode, v.shop, cashier, v.items, false, db)
  {
    hide Exec, Program, Blocks, ItemMoves, StockTyped, Sellable, Movable;
    var a := Put(db, Purchase(id), v.(reversed := true));
    var w := Write(Purchase(id), MarkReversed);
    PlanOutcome(mode, w, ItemMoves(v.shop, cashier, v.items, false, Reversed(id), actor), db);
    SameStock(db, id, v.(reversed := true));
    ItemsSucceed(mode, v.shop, cashier, v.items, false, Reversed(id), actor, a, NO_LOCALS);
    SameMovable(mode, v.shop, cashier, v.items, false, a, db);
  }

  /** What a committed purchase or reversal does to every stock row and aggregate. */
  lemma {:induction false} PlanNet(mode: Mode, w: Stmt, shop: Id, cashier: Option<Id>, items: seq<Item>,
                                   inward: bool, cause: Cause, actor: Id,
                                   db: Db, k: Key, p: Id)
    requires w.Write? && w.row.Purchase? && StockTyped(db)
    requires Run(true, Program(mode, Plan([w], ItemMoves(shop, cashier, items, inward, cause, actor), [], [])), db).Ok?
    ensures var d := Run(true, Program(mode, Plan([w], ItemMoves(shop, cashier, items, inward, cause, actor), [], [])), db).value.0;
            var sign := if inward then 1 else -1;
            && Quantity(d, k) ==
               Quantity(db, k) + (if k == StockKey(mode, shop, cashier, k.product) then sign * ItemQty(items, k.product) else 0)
            && Stock(d, p) == Stock(db, p) + sign * ItemQty(items, p)
            && Get(d, w.row) == ExecStmtValue(w, db)
            && StockTyped(d) && (forall s, q :: Sellable(d, s, q) == Sellable(db, s, q))
  {
    hide Exec, Program, Blocks, ItemMoves, ItemQty, MovedAt, MovedOf, StockTyped, Sellable;
    var ms := ItemMoves(shop, cashier, items, inward, cause, actor);
    PlanOutcome(mode, w, ms, db);
    var (a, l) := ExecStmt(true, w, db, NO_LOCALS).value;
    SameStock(db, w.row.purchase, ExecStmtValue(w, db));
    BlocksNet(true, mode, ms, a, l, k, p);
    ItemsMoved(mode, shop, cashier, items, inward, cause, actor, k, p);
    BlocksRows(mode, ms);
    Untouched(true, Blocks(mode, ms), a, l, w.row);
    SaleKeepsTypes(mode, ms, a, l);
  }

  /** The value a statement writes, when it goes through on its own. */
  function ExecStmtValue(w: Stmt, db: Db): Value
    requires w.Write?
  {
    var o := Apply(w.op, Get(db, w.row), NO_LOCALS);
    if o.Ok? then o.value.0 else Absent
  }

  /** Right after a purchase its reversal goes through, and every stock row and aggregate is as before the purchase. */
  lemma {:induction false} PurchaseUndone(mode: Mode, id: Id, shop: Id, cashier: Option<Id>, items: seq<Item>,
                                          actor: Id, db: Db)
    requires Positive(items) && (mode == BRANCH || cashier.Some?)
    requires StockTyped(db) && forall k :: Quantity(db, k) >= 0
    requires Run(true, Program(mode, ReceivePlan(id, shop, cashier, items, actor)), db).Ok?
    ensures var got := Run(true, Program(mode, ReceivePlan(id, shop, cashier, items, actor)), db).value.0;
            && Get(got, Purchase(id)) == PurchaseV(shop, items, true, false)
            && var undo := Run(true, Program(mode, ReversePlan(id, shop, cashier, items, actor)), got);
               && undo.Ok? && (forall k :: Quantity(undo.value.0, k) == Quantity(db, k))
               && (forall p :: Stock(undo.value.0, p) == Stock(db, p))
  {
    hide Exec, Program, Blocks, ItemMoves, ItemQty, StockTyped, Sellable;
    var w, x := Write(Purchase(id), InsertPurchase(shop, items)), Write(Purchase(id), MarkReversed);
    var got := Run(true, Program(mode, ReceivePlan(id, shop, cashier, items, actor)), db).value.0;
    ReceiveExact(mode, id, shop, cashier, items, actor, db);
    forall k: Key
      ensures Quantity(got, k) ==
              Quantity(db, k) + (if k == StockKey(mode, shop, cashier, k.product) then ItemQty(items, k.product) else 0)
      ensures Quantity(got, k) >= 0
    {
      PlanNet(mode, w, shop, cashier, items, true, Received(id), actor, db, k, "");
      ItemQtyPositive(items, k.product);
    }
    PlanNet(mode, w, shop, cashier, items, true, Received(id), actor, db, Key("", None, ""), "");
    forall i | 0 <= i < |items| && items[i].product.Some?
      ensures MovableOf(mode, shop, cashier, items, false, got, items[i].product.value)
    {
      var p := items[i].product.value;
      assert Quantity(got, StockKey(mode, shop, cashier, p)) == Quantity(db, StockKey(mode, shop, cashier, p)) + ItemQty(items, p);
    }
    ReversalExact(mode, id, PurchaseV(shop, items, true, false), cashier, actor, got);
    var undo := Run(true, Program(mode, ReversePlan(id, shop, cashier, items, actor)), got).value.0;
    forall k: Key ensures Quantity(undo, k) == Quantity(db, k) {
      PlanNet(mode, x, shop, cashier, items, false, Reversed(id), actor, got, k, "");
    }
    forall p ensures Stock(undo, p) == Stock(db, p) {
      PlanNet(mode, w, shop, cashier, items, true, Received(id), actor, db, Key("", None, ""), p);
      PlanNet(mode, x, shop, cashier, items, false, Reversed(id), actor, got, Key("", None, ""), p);
    }
  }
}
