// The handlers themselves, as they change the rows of one transaction client.
module Store {
  import opened Wrappers
  import opened Ids
  import opened Money
  import opened Text
  import opened Tables
  import opened Handlers
  import opened Runs
  import opened Conservation
  import opened Journals
  import opened Sales
  import opened BillMath
  import opened BillNumbers
  import opened Effects
  import opened Checkouts
  import opened Receipts

  // ---------------------------------------------------------------- staff and purchases

  /** What a user row says of a cashier. */
  datatype Staff = Staff(shop: Option<Id>, cashier: bool, active: bool)

  predicate BelongsTo(users: map<Id, Staff>, shop: Id, cashier: Id) {
    cashier in users && users[cashier].cashier && users[cashier].shop == Some(shop) && users[cashier].active
  }

  /** The cashier a stock change names, or need not name once stock belongs to branches. */
  predicate CashierFits(mode: Mode, users: map<Id, Staff>, shop: Id, cashier: Option<Id>) {
    if Given(cashier) then BelongsTo(users, shop, cashier.value) else mode == BRANCH
  }

  predicate PurchaseBody(items: seq<Item>) { items != [] && forall i | 0 <= i < |items| :: items[i].quantity > 0 }

  predicate CatalogueListed(db: Db, shop: Id, items: seq<Item>) {
    forall i | 0 <= i < |items| && items[i].product.Some? :: Holds(Listed(false), Get(db, Branch(shop, items[i].product.value))).Ok?
  }

  lemma {:induction false} AscendingSame(a: seq<Id>, b: seq<Id>)
    requires Ascending(a) && Ascending(b) && forall x :: x in a <==> x in b
    ensures a == b
    decreases |a|
  {
    assert a != [] ==> a[0] in a;
    assert b != [] ==> b[0] in b;
    hide Less;
    if a != [] && b != [] {
      var x, y := a[|a| - 1], b[|b| - 1];
      var a', b' := a[..|a| - 1], b[..|b| - 1];
      LastIsGreatest(a, y);
      LastIsGreatest(b, x);
      if x != y {
        LessAsymmetric(x, y);
      }
      forall z ensures z in a' <==> z in b' {
        LessIrreflexive(x);
        InFront(a, z);
        InFront(b, z);
      }
      AscendingSame(a', b');
      assert a == a' + [x] && b == b' + [y];
    }
  }

  lemma {:induction false} LastIsGreatest(a: seq<Id>, y: Id)
    requires Ascending(a) && y in a
    ensures y == a[|a| - 1] || Less(y, a[|a| - 1])
  {
  }

  lemma {:induction false} InFront(a: seq<Id>, z: Id)
    requires Ascending(a) && a != []
    ensures z in a[..|a| - 1] <==> z in a && z != a[|a| - 1]
  {
    var f := a[..|a| - 1];
    assert a == f + [a[|a| - 1]];
    if z in f && z == a[|a| - 1] {
      var i :| 0 <= i < |f| && f[i] == z;
      LessIrreflexive(a[i]);
    }
  }

  // ---------------------------------------------------------------- the transaction

  /** A transaction client: the rows it works on and what it has read back. */
  class Transaction {
    var rows: Db
    var locals: Locals
    const mode: Mode

    constructor (mode: Mode, rows: Db)
      ensures this.mode == mode && this.rows == rows && this.locals == NO_LOCALS
    {
      this.mode := mode;
      this.rows := rows;
      this.locals := NO_LOCALS;
    }

    // ------------------------------------------------------------- inventoryService

    /** adjustStock in BRANCH mode: the row of the branch. */
    method AdjustBranchStock(m: Move) returns (r: Result<(int, int), Error>)
      requires mode == BRANCH && Holds(Listed(m.allowUnassigned), Get(rows, Branch(m.shop, m.product))).Ok?
      modifies this
      ensures match r
              case Ok((previous, new_)) =>
                && Exec(true, Block(mode, m), old(rows), old(locals)) == Ok((rows, locals))
                && new_ == previous + m.delta && (m.delta != 0 ==> new_ == Quantity(rows, KeyOf(mode, m)))
              case Err(e) => Exec(true, Block(mode, m), old(rows), old(locals)) == Err(e)
    {
      r := AdjustRow(m, Key(m.shop, None, m.product));
    }

    /** adjustStock in CASHIER mode: the row of the cashier, who has to be given. */
    method AdjustCashierStock(m: Move) returns (r: Result<(int, int), Error>)
      requires mode == CASHIER && Holds(Listed(m.allowUnassigned), Get(rows, Branch(m.shop, m.product))).Ok?
      modifies this
      ensures match r
              case Ok((previous, new_)) =>
                && Exec(true, Block(mode, m), old(rows), old(locals)) == Ok((rows, locals))
                && new_ == previous + m.delta && (m.delta != 0 ==> new_ == Quantity(rows, KeyOf(mode, m)))
              case Err(e) => Exec(true, Block(mode, m), old(rows), old(locals)) == Err(e)
    {
      if m.cashier.None? {
        BlockRefused(m, rows, locals);
        return Err(SelectCashier);
      }
      r := AdjustRow(m, Key(m.shop, m.cashier, m.product));
    }

    lemma {:induction false} BlockRefused(m: Move, db: Db, l: Locals)
      requires !Keyed(mode, m) && Holds(Listed(m.allowUnassigned), Get(db, Branch(m.shop, m.product))).Ok?
      ensures Exec(true, Block(mode, m), db, l) == Err(SelectCashier)
    {
      var b := Block(mode, m);
      assert b == [b[0]] + [b[1]];
      ExecStep(true, [], b[0], db, l);
      assert [] + [b[0]] == [b[0]];
      ExecStep(true, [b[0]], b[1], db, l);
    }

    function Updates(m: Move, key: Key): seq<Stmt> {
      [Write(Inventory(key), StockUpdate(m.delta)), Write(Product(m.product), AddStock(m.delta)),
       Write(Log(key), Record(m.kind, m.delta, m.cause, m.cashier, m.actor))]
    }

    lemma {:induction false} UpdatesSteps(m: Move, key: Key, db: Db, l: Locals)
      ensures var p := Updates(m, key);
              Exec(true, p, db, l) ==
              match ExecStmt(true, p[0], db, l)
              case Err(e) => Err(e)
              case Ok((d, l')) =>
                match ExecStmt(true, p[1], d, l')
                case Err(e) => Err(e)
                case Ok((d', l'')) => ExecStmt(true, p[2], d', l'')
    {
      var p := Updates(m, key);
      ExecStep(true, [], p[0], db, l);
      assert [] + [p[0]] == [p[0]];
      assert p == [p[0]] + [p[1]] + [p[2]];
      ExecStep(true, [p[0]], p[1], db, l);
      ExecStep(true, [p[0]] + [p[1]], p[2], db, l);
    }

    lemma {:induction false} BlockOutcome(m: Move, key: Key, db: Db, l: Locals)
      requires Keyed(mode, m) && key == KeyOf(mode, m)
      requires Holds(Listed(m.allowUnassigned), Get(db, Branch(m.shop, m.product))).Ok?
      ensures m.delta == 0 ==> Exec(true, Block(mode, m), db, l) == Ok((db, l))
      ensures m.delta != 0 ==>
                Exec(true, Block(mode, m), db, l) ==
                Exec(true, Updates(m, key),
                     if Get(db, Inventory(key)).Absent? then Put(db, Inventory(key), Num(0)) else db, l)
    {
      var p := Block(mode, m);
      ExecStep(true, [], p[0], db, l);
      assert [] + [p[0]] == [p[0]];
      if m.delta == 0 {
        assert p == [p[0]];
      } else {
        ExecStep(true, [p[0]], p[1], db, l);
        assert p == ([p[0]] + [p[1]]) + Updates(m, key);
        ExecConcat(true, [p[0]] + [p[1]], Updates(m, key), db, l);
        PutSame(db, Inventory(key));
      }
    }

    lemma {:induction false} PutSame(db: Db, r: Row)
      ensures Get(db, r) != Absent ==> Put(db, r, Get(db, r)) == db
    {
      if Get(db, r) != Absent {
        assert db[r := db[r]] == db;
      }
    }

    /** The conditional update of a stock row: it never goes below zero. */
    method UpdateQuantity(key: Key, delta: int) returns (r: Result<int, Error>)
      modifies this
      ensures match r
              case Ok(n) =>
                && ExecStmt(true, Write(Inventory(key), StockUpdate(delta)), old(rows), old(locals)) == Ok((rows, locals))
                && n == locals.quantity == Quantity(rows, key)
              case Err(e) => ExecStmt(true, Write(Inventory(key), StockUpdate(delta)), old(rows), old(locals)) == Err(e)
    {
      var held := Get(rows, Inventory(key));
      if delta < 0 {
        if !held.Num? || held.n < -delta {
          return Err(InsufficientStock);
        }
      } else if !held.Num? {
        return Err(RecordNotFound);
      }
      rows := Put(rows, Inventory(key), Num(held.n + delta));
      locals := locals.(quantity := held.n + delta);
      r := Ok(locals.quantity);
    }

    /** The all-branch aggregate. */
    method UpdateAggregate(product: Id, delta: int) returns (r: Result<(), Error>)
      modifies this`rows
      ensures match r
              case Ok(_) =>
                && ExecStmt(true, Write(Product(product), AddStock(delta)), old(rows), locals) == Ok((rows, locals))
                && forall k :: Quantity(rows, k) == Quantity(old(rows), k)
              case Err(e) => ExecStmt(true, Write(Product(product), AddStock(delta)), old(rows), locals) == Err(e)
    {
      var p := Get(rows, Product(product));
      if !p.ProductV? {
        return Err(RecordNotFound);
      }
      rows := Put(rows, Product(product), p.(stock := p.stock + delta));
      r := Ok(());
    }

    /** One InventoryMovement row. */
    method RecordMovement(key: Key, m: Move, previousStock: int, newStock: int) returns (r: Result<(), Error>)
      requires newStock == locals.quantity && previousStock == newStock - m.delta
      modifies this`rows
      ensures var s := Write(Log(key), Record(m.kind, m.delta, m.cause, m.cashier, m.actor));
              match r
              case Ok(_) =>
                && ExecStmt(true, s, old(rows), locals) == Ok((rows, locals))
                && forall k :: Quantity(rows, k) == Quantity(old(rows), k)
              case Err(e) => ExecStmt(true, s, old(rows), locals) == Err(e)
    {
      var log := Get(rows, Log(key));
      if !log.Absent? && !log.LogV? {
        return Err(RecordNotFound);
      }
      rows := Put(rows, Log(key), LogV(Entries(log) +
        [Movement(m.kind, m.delta, previousStock, newStock, m.cause, m.cashier, m.actor)]));
      r := Ok(());
    }

    /** The statements both modes issue on their own stock row. */
    method AdjustRow(m: Move, key: Key) returns (r: Result<(int, int), Error>)
      requires Keyed(mode, m) && key == KeyOf(mode, m)
      requires Holds(Listed(m.allowUnassigned), Get(rows, Branch(m.shop, m.product))).Ok?
      modifies this
      ensures match r
              case Ok((previous, new_)) =>
                && Exec(true, Block(mode, m), old(rows), old(locals)) == Ok((rows, locals))
                && new_ == previous + m.delta && (m.delta != 0 ==> new_ == Quantity(rows, key))
              case Err(e) => Exec(true, Block(mode, m), old(rows), old(locals)) == Err(e)
    {
      hide Exec, ExecStmt, Block, Holds;
      BlockOutcome(m, key, rows, locals);
      if m.delta == 0 {
        var quantity := Quantity(rows, key);
        return Ok((quantity, quantity));
      }
      if Get(rows, Inventory(key)).Absent? {
        rows := Put(rows, Inventory(key), Num(0));
      }
      UpdatesSteps(m, key, rows, locals);
      var updated := UpdateQuantity(key, m.delta);
      if updated.Err? {
        return Err(updated.error);
      }
      var added := UpdateAggregate(m.product, m.delta);
      if added.Err? {
        return Err(added.error);
      }
      var previousStock := updated.value - m.delta;
      var recorded := RecordMovement(key, m, previousStock, updated.value);
      if recorded.Err? {
        return Err(recorded.error);
      }
      r := Ok((previousStock, updated.value));
    }

    /** adjustStock: quantity, aggregate and movement together, or an error. */
    method AdjustStock(m: Move) returns (r: Result<(int, int), Error>)
      modifies this
      ensures match r
              case Ok((previous, new_)) =>
                && Exec(true, Block(mode, m), old(rows), old(locals)) == Ok((rows, locals))
                && new_ == previous + m.delta && (m.delta != 0 ==> new_ == Quantity(rows, KeyOf(mode, m)))
              case Err(e) => Exec(true, Block(mode, m), old(rows), old(locals)) == Err(e)
    {
      var product := Get(rows, Branch(m.shop, m.product));
      if !product.BranchV? || (!m.allowUnassigned && !product.isAssigned) {
        NotListed(m, rows, locals);
        return Err(ProductNotFound);
      }
      if mode == BRANCH {
        r := AdjustBranchStock(m);
      } else {
        r := AdjustCashierStock(m);
      }
    }

    lemma {:induction false} NotListed(m: Move, db: Db, l: Locals)
      requires Holds(Listed(m.allowUnassigned), Get(db, Branch(m.shop, m.product))).Err?
      ensures Exec(true, Block(mode, m), db, l) == Err(ProductNotFound)
    {
      var b := Block(mode, m);
      ExecConcat(true, [b[0]], b[1..], db, l);
      assert b == [b[0]] + b[1..];
      ExecOne(true, b[0], db, l);
    }

    /** The moves of a loop over adjustStock. */
    method AdjustAll(ms: seq<Move>) returns (r: Result<(), Error>)
      modifies this
      ensures match r
              case Ok(_) => Exec(true, Blocks(mode, ms), old(rows), old(locals)) == Ok((rows, locals))
              case Err(e) => Exec(true, Blocks(mode, ms), old(rows), old(locals)) == Err(e)
    {
      hide Exec, Block;
      ghost var db, l := rows, locals;
      NoBlocks();
      NoStatements(db, l);
      var i := 0;
      while i < |ms|
        invariant 0 <= i <= |ms|
        invariant Exec(true, Blocks(mode, ms[..i]), db, l) == Ok((rows, locals))
      {
        ghost var before := ms[..i];
        assert ms[..i + 1][..i] == before;
        ExecConcat(true, Blocks(mode, before), Block(mode, ms[i]), db, l);
        var one := AdjustStock(ms[i]);
        if one.Err? {
          StopsHere(ms, i, db, l, one.error);
          return Err(one.error);
        }
        i := i + 1;
      }
      assert ms[..|ms|] == ms;
      r := Ok(());
    }

    lemma {:induction false} NoStatements(db: Db, l: Locals)
      ensures Exec(true, [], db, l) == Ok((db, l))
    {
    }

    lemma {:induction false} StopsHere(ms: seq<Move>, i: nat, db: Db, l: Locals, e: Error)
      requires i < |ms| && Exec(true, Blocks(mode, ms[..i + 1]), db, l) == Err(e)
      ensures Exec(true, Blocks(mode, ms), db, l) == Err(e)
      decreases |ms| - i
    {
      if i + 1 < |ms| {
        ExecConcat(true, Blocks(mode, ms[..i + 1]), Block(mode, ms[i + 1]), db, l);
        assert ms[..i + 2][..i + 1] == ms[..i + 1];
        StopsHere(ms, i + 1, db, l, e);
      } else {
        assert ms[..i + 1] == ms;
      }
    }

    // -------------------------------------------------------------- billingService

    /** What the pre-check says of one product: its stock is gone, or less than all its lines ask for. */
    function Short(shop: Id, cashier: Id, lines: seq<Line>, zeroOnly: bool, p: Id): Option<Error>
      reads this
    {
      ShortBy(Quantity(rows, SaleKey(mode, shop, cashier, p)), LineQty(lines, p), zeroOnly)
    }

    /** `order` holds the products of the first `i` lines in the order they first appear, `firsts` says where. */
    ghost predicate InOrder(lines: seq<Line>, order: seq<Id>, firsts: seq<nat>, i: nat) {
      && i <= |lines| && |firsts| == |order|
      && (forall m | 0 <= m < |order| :: firsts[m] < i && lines[firsts[m]].product == order[m])
      && (forall m, j | 0 <= m < |order| && 0 <= j < firsts[m] :: lines[j].product in order[..m])
      && (forall j | 0 <= j < i :: lines[j].product in order)
    }

    lemma {:induction false} NextInOrder(lines: seq<Line>, order: seq<Id>, firsts: seq<nat>, i: nat)
      requires InOrder(lines, order, firsts, i) && i < |lines|
      ensures var p := lines[i].product;
              if p in order then InOrder(lines, order, firsts, i + 1) else InOrder(lines, order + [p], firsts + [i], i + 1)
    {
      var p := lines[i].product;
      if p !in order {
        var next := order + [p];
        forall m | 0 <= m <= |order| ensures next[..m] == order[..m] {
        }
        assert order[..|order|] == order;
      }
    }

    lemma {:induction false} ShortFirst(shop: Id, cashier: Id, lines: seq<Line>, zeroOnly: bool, order: seq<Id>, firsts: seq<nat>, k: nat)
      requires InOrder(lines, order, firsts, |lines|) && k < |order| == |firsts|
      requires forall m | 0 <= m < k :: Short(shop, cashier, lines, zeroOnly, order[m]) == None
      ensures firsts[k] < |lines| && lines[firsts[k]].product == order[k]
      ensures forall j | 0 <= j < firsts[k] :: Short(shop, cashier, lines, zeroOnly, lines[j].product) == None
    {
      hide Short;
      forall j | 0 <= j < firsts[k] ensures Short(shop, cashier, lines, zeroOnly, lines[j].product) == None {
        assert lines[j].product in order[..k];
        var m :| 0 <= m < k && order[..k][m] == lines[j].product;
      }
    }

    /** assertStockAvailable: the merged pre-check of a cart against the cashier's stock; the first line that fails it names the error. */
    method AssertStockAvailable(shop: Id, cashier: Id, lines: seq<Line>, zeroOnly: bool) returns (r: Result<(), Error>)
      ensures r.Ok? <==> forall i | 0 <= i < |lines| :: Short(shop, cashier, lines, zeroOnly, lines[i].product) == None
      ensures r.Err? ==>
                exists i ::
                  && 0 <= i < |lines| && Short(shop, cashier, lines, zeroOnly, lines[i].product) == Some(r.error)
                  && forall j | 0 <= j < i :: Short(shop, cashier, lines, zeroOnly, lines[j].product) == None
    {
      hide LineQty, Quantity, SaleKey, InOrder;
      var wanted: map<Id, int> := map[];
      var order: seq<Id> := [];
      ghost var firsts: seq<nat> := [];
      var i := 0;
      NoneInOrder(lines);
      while i < |lines|
        invariant 0 <= i <= |lines| && |firsts| == |order| && InOrder(lines, order, firsts, i)
        invariant forall p :: p in wanted <==> p in order
        invariant forall p | p in wanted :: wanted[p] == LineQty(lines[..i], p)
      {
        var l := lines[i];
        var sofar := if l.product in wanted then wanted[l.product] else 0;
        NextInOrder(lines, order, firsts, i);
        if l.product !in wanted {
          NotYet(lines, order, firsts, i);
          order, firsts := order + [l.product], firsts + [i];
        }
        forall p ensures LineQty(lines[..i + 1], p) == LineQty(lines[..i], p) + if l.product == p then l.quantity else 0 {
          QtyUpTo(lines, i, p);
        }
        wanted := wanted[l.product := sofar + l.quantity];
        i := i + 1;
      }
      assert lines[..|lines|] == lines;
      var k := 0;
      while k < |order|
        invariant 0 <= k <= |order|
        invariant forall m | 0 <= m < k :: Short(shop, cashier, lines, zeroOnly, order[m]) == None
      {
        var available := Quantity(rows, SaleKey(mode, shop, cashier, order[k]));
        if available <= 0 || (!zeroOnly && wanted[order[k]] > available) {
          ShortFirst(shop, cashier, lines, zeroOnly, order, firsts, k);
          r := Err(if available <= 0 then OutOfStock else InsufficientStock);
          assert Short(shop, cashier, lines, zeroOnly, lines[firsts[k]].product) == Some(r.error);
          return;
        }
        k := k + 1;
      }
      AllInOrder(lines, order, firsts);
      r := Ok(());
    }

    lemma {:induction false} NoneInOrder(lines: seq<Line>)
      ensures InOrder(lines, [], [], 0)
    {
    }

    lemma {:induction false} AllInOrder(lines: seq<Line>, order: seq<Id>, firsts: seq<nat>)
      requires InOrder(lines, order, firsts, |lines|)
      ensures forall j | 0 <= j < |lines| :: lines[j].product in order
    {
    }

    lemma {:induction false} NotYet(lines: seq<Line>, order: seq<Id>, firsts: seq<nat>, i: nat)
      requires InOrder(lines, order, firsts, i) && i < |lines| && lines[i].product !in order
      ensures LineQty(lines[..i], lines[i].product) == 0
    {
      hide LineQty;
      NoLineNoQty(lines[..i], lines[i].product);
    }

    lemma {:induction false} QtyUpTo(lines: seq<Line>, i: nat, p: Id)
      requires i < |lines|
      ensures LineQty(lines[..i + 1], p) == LineQty(lines[..i], p) + if lines[i].product == p then lines[i].quantity else 0
    {
      assert lines[..i + 1][..i] == lines[..i];
    }

    /** Refusals that come before any price is read. */
    method CheckCart(q: CheckoutInput) returns (r: Result<(), Error>)
      ensures if r.Ok? then CartFine(rows, q) else CartRefused(rows, q, r.error)
    {
      if q.items == [] {
        return Err(EmptyBill);
      }
      if q.payments == [] {
        return Err(NoPayments);
      }
      if Get(rows, Session(q.shop, q.cashier)) != SessionV(true) {
        return Err(NoActiveSession);
      }
      if q.customer.Some? {
        var customer := Get(rows, Customer(q.customer.value));
        if !customer.CustomerV? || customer.shop != q.shop || customer.cashier != Some(q.cashier) {
          return Err(CustomerNotFound);
        }
      }
      var i := 0;
      while i < |q.items|
        invariant 0 <= i <= |q.items|
        invariant forall j | 0 <= j < i :: ItemError(rows, q.shop, q.items[j]) == None
      {
        var item := q.items[i];
        if item.quantity <= 0 {
          return Err(InvalidQuantity);
        }
        var product := Get(rows, Product(item.product));
        var listing := Get(rows, Branch(q.shop, item.product));
        if !listing.BranchV? || !listing.isAssigned || !product.ProductV? {
          return Err(ProductNotFound);
        }
        if !product.active {
          return Err(ProductInactive);
        }
        i := i + 1;
      }
      r := Ok(());
    }

    /** The grand total the backend computes: no discount, no tax. */
    method GrandTotal(lines: seq<CartLine>) returns (paise: int)
      ensures paise == Subtotal(BillLines(lines))
    {
      var subtotal := 0.0;
      var i := 0;
      while i < |lines|
        invariant 0 <= i <= |lines| && subtotal == RawSubtotal(lines[..i])
      {
        assert lines[..i + 1][..i] == lines[..i];
        subtotal := subtotal + Rupees(lines[i].unitPrice) * lines[i].quantity as real;
        i := i + 1;
      }
      assert lines[..|lines|] == lines;
      LineTotalsAddUp(lines);
      Round2Idempotent(subtotal);
      PaiseOfRupees(Paise(subtotal));
      subtotal := Round2(subtotal);
      paise := Paise(subtotal);
    }

    /** The payments against the backend's total. */
    method CheckPayments(payments: seq<Tender>, customer: Option<Id>, grandTotal: int) returns (r: Result<seq<Tender>, Error>)
      ensures r.Ok? <==> Settles(payments, customer, grandTotal)
      ensures if r.Ok? then r.value == LowerTenders(payments) else PaymentsRefused(payments, customer, grandTotal, r.error)
    {
      hide Lower, SumAmounts, EqualsMoney, OnCredit, CreditTenders;
      var paymentSum := 0.0;
      var tenders: seq<Tender> := [];
      var i := 0;
      ghost var ts := LowerTenders(payments);
      SettlesExactly(payments, customer, grandTotal);
      NoAmounts();
      while i < |payments|
        invariant 0 <= i <= |payments| && tenders == ts[..i] && paymentSum == SumAmounts(tenders)
        invariant forall j | 0 <= j < i :: TenderOk(ts[j]) && TenderError(payments[j]) == None
      {
        var p := Tender(Lower(payments[i].tender), payments[i].amount);
        assert p == ts[i];
        if p.tender !in METHODS {
          assert TenderError(payments[i]) == Some(UnsupportedMethod);
          assert !TenderOk(ts[i]);
          return Err(UnsupportedMethod);
        }
        if !(p.amount > 0.0) {
          assert TenderError(payments[i]) == Some(InvalidAmount);
          assert !TenderOk(ts[i]);
          return Err(InvalidAmount);
        }
        AmountsSnoc(tenders, p);
        paymentSum := paymentSum + p.amount;
        tenders := tenders + [p];
        i := i + 1;
      }
      assert tenders == ts;
      LoweredSum(payments);
      LoweredCredit(payments);
      SumPositive(payments);
      EqualsMoneyExactly(paymentSum, grandTotal);
      if !EqualsMoney(paymentSum, Rupees(grandTotal)) {
        return Err(PaymentMismatch);
      }
      if CreditTenders(tenders) != [] && customer.None? {
        assert OnCredit(payments) != [] by {
          assert |PaiseOf(CreditTenders(tenders))| == |CreditTenders(tenders)|;
        }
        return Err(CustomerRequired);
      }
      r := Ok(tenders);
    }

    lemma {:induction false} NoAmounts()
      ensures SumAmounts([]) == 0.0
    {
    }

    lemma {:induction false} AmountsSnoc(ts: seq<Tender>, t: Tender)
      ensures SumAmounts(ts + [t]) == SumAmounts(ts) + t.amount
    {
      assert (ts + [t])[..|ts|] == ts;
    }

    /** The counter row and the formatted number, taken together. */
    method NextBillNumber(shop: Id, code: string, year: nat) returns (number: string)
      requires Get(rows, Counter(shop, year)).Absent? || (Get(rows, Counter(shop, year)).Num? && Get(rows, Counter(shop, year)).n >= 0)
      modifies this
      ensures ExecStmt(true, Write(Counter(shop, year), NextSeq), old(rows), old(locals)) == Ok((rows, locals))
      ensures locals.seq_ == CounterAt(rows, shop, year) == CounterAt(old(rows), shop, year) + 1
      ensures number == BillNumber(code, year, locals.seq_)
    {
      var counter := Get(rows, Counter(shop, year));
      var next := if counter.Absent? then 1 else counter.n + 1;
      rows := Put(rows, Counter(shop, year), Num(next));
      locals := locals.(seq_ := next);
      number := "EM-" + code + "-" + Decimal(year) + "-" + PadStart(Decimal(next), 6);
    }

    /** The statements of a plan that are not loops over adjustStock. */
    method Issue(p: seq<Stmt>) returns (r: Result<(), Error>)
      modifies this
      ensures match r
              case Ok(_) => Exec(true, p, old(rows), old(locals)) == Ok((rows, locals))
              case Err(e) => Exec(true, p, old(rows), old(locals)) == Err(e)
    {
      ghost var db, l := rows, locals;
      var i := 0;
      while i < |p|
        invariant 0 <= i <= |p|
        invariant Exec(true, p[..i], db, l) == Ok((rows, locals))
      {
        assert p[..i + 1][..i] == p[..i];
        match ExecStmt(true, p[i], rows, locals)
        case Err(e) =>
          IssueStops(p, i, db, l, e);
          return Err(e);
        case Ok((d, m)) =>
          rows, locals := d, m;
        i := i + 1;
      }
      assert p[..|p|] == p;
      r := Ok(());
    }

    lemma {:induction false} IssueStops(p: seq<Stmt>, i: nat, db: Db, l: Locals, e: Error)
      requires i < |p| && Exec(true, p[..i + 1], db, l) == Err(e)
      ensures Exec(true, p, db, l) == Err(e)
      decreases |p| - i
    {
      if i + 1 < |p| {
        assert p[..i + 2][..i + 1] == p[..i + 1];
        IssueStops(p, i + 1, db, l, e);
      } else {
        assert p[..i + 1] == p;
      }
    }

    /** $transaction around a plan: all of it, or the rows as they were. */
    method Transact(plan: Plan) returns (r: Result<(), Error>)
      modifies this
      ensures match r
              case Ok(_) => Run(true, Program(mode, plan), old(rows)) == Ok((rows, locals))
              case Err(e) => Run(true, Program(mode, plan), old(rows)) == Err(e) && rows == old(rows)
    {
      var saved := rows;
      ExecConcat(true, plan.pre + Blocks(mode, plan.moves) + plan.post, CreditBlocks(plan.credits), rows, NO_LOCALS);
      ExecConcat(true, plan.pre + Blocks(mode, plan.moves), plan.post, rows, NO_LOCALS);
      ExecConcat(true, plan.pre, Blocks(mode, plan.moves), rows, NO_LOCALS);
      locals := NO_LOCALS;
      r := Issue(plan.pre);
      if r.Ok? {
        r := AdjustAll(plan.moves);
      }
      if r.Ok? {
        r := Issue(plan.post);
      }
      if r.Ok? {
        r := Issue(CreditBlocks(plan.credits));
      }
      if r.Err? {
        rows := saved;
      }
    }

    /**
     * checkoutBill: replays an idempotency key that is not empty, refuses what
     * the rules refuse, and otherwise commits exactly the checkout transaction.
     * When nothing else runs, the only thing that can still refuse it is an
     * empty key that is already taken; a refusal leaves every row as it was.
     */
    method CheckoutBill(q: CheckoutInput, bill: Id, year: int) returns (r: Result<Id, Error>)
      requires Typed(rows) && (forall k :: Quantity(rows, k) >= 0) && Get(rows, BillRow(bill)) == Absent
      modifies this
      ensures var replayed := q.token.Some? && q.token.value != "" && Get(old(rows), IdemKey(q.shop, q.token.value)).KeyV?;
              && (replayed ==> r == Ok(Get(old(rows), IdemKey(q.shop, q.token.value)).bill) && rows == old(rows))
              && (!replayed ==> (r.Ok? <==> Acceptable(mode, old(rows), q) && !TokenTaken(old(rows), q)))
              && (!replayed && r.Err? ==> Refused(mode, old(rows), q, r.error))
              && (!replayed && r.Ok? ==>
                    && r.value == bill
                    && PlanIn(old(rows), Checkout(bill, CartOf(old(rows), q, year))) == Some(CheckoutPlan(bill, CartOf(old(rows), q, year)))
                    && Run(true, Program(mode, CheckoutPlan(bill, CartOf(old(rows), q, year))), old(rows)) == Ok((rows, locals))
                    && Recorded(old(rows), rows, q, bill, year) && Taken(mode, old(rows), rows, q)
                    && forall x | !CheckoutRow(x, q, bill, year) :: Get(rows, x) == Get(old(rows), x))
      ensures r.Err? ==> rows == old(rows)
    {
      hide Exec, Program, Accepted, Acceptable, CartFine, CartRefused, StockError, Settles, PaymentsRefused, Refused, Recorded, Taken, CheckoutRow, Lower, SumAmounts;
      if q.token.Some? && q.token.value != "" && Get(rows, IdemKey(q.shop, q.token.value)).KeyV? {
        return Ok(Get(rows, IdemKey(q.shop, q.token.value)).bill);
      }
      var checked := CheckCart(q);
      if checked.Err? {
        RefusedByCart(mode, rows, q, checked.error);
        return Err(checked.error);
      }
      var cart := CartOf(rows, q, year);
      var lines := BillLines(cart.lines);
      var stocked := AssertStockAvailable(q.shop, q.cashier, lines, false);
      if stocked.Err? {
        StockRefused(q, lines, stocked.error);
        return Err(stocked.error);
      }
      StockFine(q, lines);
      var grandTotal := GrandTotal(cart.lines);
      ItemsAdd(rows, q.shop, q.items, "");
      var paid := CheckPayments(q.payments, q.customer, grandTotal);
      if paid.Err? {
        RefusedByPayments(mode, rows, q, paid.error);
        return Err(paid.error);
      }
      AcceptableNow(mode, rows, q);
      AcceptedExactly(mode, rows, q, year);
      ghost var db := rows;
      var done := Transact(CheckoutPlan(bill, cart));
      if TokenTaken(db, q) {
        TakenTokenError(mode, db, q, year, bill);
        RefusedByKey(mode, db, q);
      } else {
        AcceptedCommits(mode, db, q, year, bill);
        CheckoutDone(mode, bill, db, q, year);
      }
      r := if done.Ok? then Ok(bill) else Err(done.error);
    }

    lemma {:induction false} ShortIsStockError(q: CheckoutInput, lines: seq<Line>, i: nat)
      requires lines == BillLines(PriceLines(rows, q.shop, q.items)) && i < |lines|
      ensures Short(q.shop, q.cashier, lines, false, lines[i].product) == StockError(mode, rows, q, q.items[i])
    {
      ItemsAdd(rows, q.shop, q.items, q.items[i].product);
    }

    lemma {:induction false} StockRefused(q: CheckoutInput, lines: seq<Line>, e: Error)
      requires CartFine(rows, q) && lines == BillLines(PriceLines(rows, q.shop, q.items))
      requires exists i ::
                 && 0 <= i < |lines| && Short(q.shop, q.cashier, lines, false, lines[i].product) == Some(e)
                 && forall j | 0 <= j < i :: Short(q.shop, q.cashier, lines, false, lines[j].product) == None
      ensures Refused(mode, rows, q, e) && !Acceptable(mode, rows, q)
    {
      hide Short, StockError, CartFine, Refused;
      var i :| && 0 <= i < |lines| && Short(q.shop, q.cashier, lines, false, lines[i].product) == Some(e)
               && forall j | 0 <= j < i :: Short(q.shop, q.cashier, lines, false, lines[j].product) == None;
      ShortIsStockError(q, lines, i);
      forall j | 0 <= j < i ensures StockError(mode, rows, q, q.items[j]) == None {
        ShortIsStockError(q, lines, j);
      }
      RefusedByStock(mode, rows, q, e, i);
    }

    lemma {:induction false} StockFine(q: CheckoutInput, lines: seq<Line>)
      requires lines == BillLines(PriceLines(rows, q.shop, q.items))
      requires forall i | 0 <= i < |lines| :: Short(q.shop, q.cashier, lines, false, lines[i].product) == None
      ensures forall i | 0 <= i < |q.items| :: StockError(mode, rows, q, q.items[i]) == None
    {
      hide Short, StockError;
      forall i | 0 <= i < |q.items| ensures StockError(mode, rows, q, q.items[i]) == None {
        ShortIsStockError(q, lines, i);
      }
    }

    // ------------------------------------------------------- billCancellationService

    /** Distinct products of some lines in ascending order, gathered as cancelBill does. */
    method MergeLines(lines: seq<Line>) returns (ids: seq<Id>, perProduct: map<Id, int>)
      ensures ids == ProductsOf(lines)
      ensures perProduct.Keys == (set p | p in ids) && forall p | p in ids :: perProduct[p] == LineQty(lines, p)
    {
      perProduct := map[];
      var i := 0;
      while i < |lines|
        invariant 0 <= i <= |lines|
        invariant forall p :: p in perProduct <==> exists j :: 0 <= j < i && lines[j].product == p
        invariant forall p | p in perProduct :: perProduct[p] == LineQty(lines[..i], p)
      {
        var l := lines[i];
        if l.product !in perProduct {
          NoLineNoQty(lines[..i], l.product);
        }
        assert lines[..i + 1][..i] == lines[..i];
        perProduct := perProduct[l.product := (if l.product in perProduct then perProduct[l.product] else 0) + l.quantity];
        i := i + 1;
      }
      assert lines[..|lines|] == lines;
      ids := SortIds(perProduct.Keys);
      ProductsOfFacts(lines);
      AscendingSame(ids, ProductsOf(lines));
    }

    /** The keys of a Map, sorted. */
    method SortIds(keys: set<Id>) returns (ids: seq<Id>)
      ensures Ascending(ids) && forall p :: p in ids <==> p in keys
    {
      ids := [];
      var rest := keys;
      while rest != {}
        invariant rest <= keys && Ascending(ids)
        invariant forall p :: p in ids <==> p in keys - rest
        decreases rest
      {
        var p :| p in rest;
        InsertIdFacts(ids, p);
        ids := InsertId(ids, p);
        rest := rest - {p};
      }
    }

    /** The credit a cancellation reverses. */
    method CreditToReverse(charges: seq<int>) returns (paise: int)
      ensures paise == Sum(charges)
    {
      paise := 0;
      var i := 0;
      while i < |charges|
        invariant 0 <= i <= |charges| && paise == Sum(charges[..i])
      {
        assert charges[..i + 1][..i] == charges[..i];
        paise := paise + charges[i];
        i := i + 1;
      }
      assert charges[..|charges|] == charges;
    }

    /**
     * cancelBill: claims a PAID bill, restores its merged lines and reverses
     * its charges in one transaction; every refusal leaves the rows as they were.
     */
    method CancelBill(bill: Id, actor: Id, reason: string) returns (r: Result<(), Error>)
      modifies this
      ensures var v := Get(old(rows), BillRow(bill));
              match r
              case Ok(_) =>
                && !Blank(reason) && v.BillV? && v.status == PAID
                && PlanIn(old(rows), Cancel(bill, actor)) == Some(CancelPlan(bill, v.core, actor))
                && Run(true, Program(mode, CancelPlan(bill, v.core, actor)), old(rows)) == Ok((rows, locals))
              case Err(e) =>
                && rows == old(rows)
                && (if Blank(reason) then e == CancelReasonRequired
                    else if !v.BillV? then e == BillNotFound
                    else if v.status == CANCELLED then e == AlreadyCancelled
                    else if v.status != PAID then e == NotCancellable
                    else Run(true, Program(mode, CancelPlan(bill, v.core, actor)), old(rows)) == Err(e))
    {
      if Blank(reason) {
        return Err(CancelReasonRequired);
      }
      var v := Get(rows, BillRow(bill));
      if !v.BillV? {
        return Err(BillNotFound);
      }
      if v.status == CANCELLED {
        return Err(AlreadyCancelled);
      }
      if v.status != PAID {
        return Err(NotCancellable);
      }
      var ids, perProduct := MergeLines(v.core.lines);
      var moves := seq(|ids|, i requires 0 <= i < |ids| =>
        Move(v.core.shop, Some(v.core.cashier), ids[i], perProduct[ids[i]], IN, Cancelled(bill), Some(actor), true));
      assert moves == RestoreMoves(bill, v.core, actor, ids);
      var creditReversed := CreditToReverse(v.core.charges);
      var credits := if v.core.charges != [] && creditReversed > 0 && v.core.customer.Some?
                     then [RefundMove(v.core.customer.value, bill, creditReversed)] else [];
      r := Transact(Plan([Write(BillRow(bill), Claim)], moves, [], credits));
    }

    // ------------------------------------------------------------- admin/purchases

    /** resolveStockCashier: required in CASHIER mode, optional afterwards, verified whenever it is given. */
    method ResolveStockCashier(users: map<Id, Staff>, shop: Id, cashier: Option<Id>) returns (r: Result<Option<Id>, Error>)
      ensures r == if CashierFits(mode, users, shop, cashier) then Ok(if Given(cashier) then cashier else None)
                   else Err(if Given(cashier) then CashierNotInShop else SelectCashier)
    {
      if cashier.None? || cashier.value == "" {
        if mode == CASHIER {
          return Err(SelectCashier);
        }
        return Ok(None);
      }
      var ok := AssertCashierBelongsToShop(users, shop, cashier.value);
      r := if ok then Ok(cashier) else Err(CashierNotInShop);
    }

    method AssertCashierBelongsToShop(users: map<Id, Staff>, shop: Id, cashier: Id) returns (ok: bool)
      ensures ok <==> BelongsTo(users, shop, cashier)
    {
      if cashier !in users {
        return false;
      }
      var user := users[cashier];
      ok := user.cashier && user.shop == Some(shop) && user.active;
    }

    /** Every catalogue item is on sale at the receiving branch. */
    method CheckListings(shop: Id, items: seq<Item>) returns (ok: bool)
      ensures ok <==> CatalogueListed(rows, shop, items)
    {
      var i := 0;
      while i < |items|
        invariant 0 <= i <= |items| && CatalogueListed(rows, shop, items[..i])
      {
        var listing := if items[i].product.Some? then Get(rows, Branch(shop, items[i].product.value)) else Absent;
        if items[i].product.Some? && (!listing.BranchV? || !listing.isAssigned) {
          assert items[i].product.Some? && Holds(Listed(false), listing).Err?;
          return false;
        }
        i := i + 1;
      }
      assert items[..|items|] == items;
      ok := true;
    }

    /**
     * POST /purchases: stock comes in only at the receiving branch, only for
     * catalogue items; each refusal has its error and leaves every row.
     */
    method CreatePurchase(shops: set<Id>, users: map<Id, Staff>, id: Id, shop: Id, cashier: Option<Id>, items: seq<Item>, actor: Id)
      returns (r: Result<(), Error>)
      modifies this
      ensures r.Err? ==> rows == old(rows)
      ensures if !PurchaseBody(items) then r == Err(InvalidBody)
              else if shop !in shops then r == Err(ShopNotFound)
              else if !CashierFits(mode, users, shop, cashier) then r == Err(if Given(cashier) then CashierNotInShop else SelectCashier)
              else if !CatalogueListed(old(rows), shop, items) then r == Err(ProductNotFound)
              else
                var plan := ReceivePlan(id, shop, if Given(cashier) then cashier else None, items, actor);
                PlanIn(old(rows), Receive(id, shop, if Given(cashier) then cashier else None, items, actor)) == Some(plan) &&
                match r
                case Ok(_) => Run(true, Program(mode, plan), old(rows)) == Ok((rows, locals))
                case Err(e) => Run(true, Program(mode, plan), old(rows)) == Err(e)
    {
      if items == [] || exists i :: 0 <= i < |items| && items[i].quantity <= 0 {
        return Err(InvalidBody);
      }
      if shop !in shops {
        return Err(ShopNotFound);
      }
      var stockCashier := ResolveStockCashier(users, shop, cashier);
      if stockCashier.Err? {
        return Err(stockCashier.error);
      }
      var listed := CheckListings(shop, items);
      if !listed {
        return Err(ProductNotFound);
      }
      var moves := MovesFor(shop, stockCashier.value, items, true, Received(id), actor);
      r := Transact(Plan([Write(Purchase(id), InsertPurchase(shop, items))], moves, [], []));
    }

    method MovesFor(shop: Id, cashier: Option<Id>, items: seq<Item>, inward: bool, cause: Cause, actor: Id)
      returns (ms: seq<Move>)
      ensures ms == ItemMoves(shop, cashier, items, inward, cause, actor)
    {
      ms := [];
      var i := 0;
      while i < |items|
        invariant 0 <= i <= |items| && ms == ItemMoves(shop, cashier, items[..i], inward, cause, actor)
      {
        assert items[..i + 1][..i] == items[..i];
        if items[i].product.Some? {
          ms := ms + [ItemMove(shop, cashier, items[i], inward, cause, actor)];
        }
        i := i + 1;
      }
      assert items[..|items|] == items;
    }

    /** POST /purchases/:id/reverse: the received quantities leave again, once, or nothing changes and the error says why. */
    method ReverseReceived(users: map<Id, Staff>, id: Id, cashier: Option<Id>, actor: Id) returns (r: Result<(), Error>)
      modifies this
      ensures r.Err? ==> rows == old(rows)
      ensures var v := Get(old(rows), Purchase(id));
              if !v.PurchaseV? then r == Err(PurchaseNotFound)
              else if v.reversed then r == Err(AlreadyReversed)
              else if !v.received then r == Err(NotReversible)
              else if !CashierFits(mode, users, v.shop, cashier) then r == Err(if Given(cashier) then CashierNotInShop else SelectCashier)
              else
                var plan := ReversePlan(id, v.shop, if Given(cashier) then cashier else None, v.items, actor);
                PlanIn(old(rows), ReversePurchase(id, if Given(cashier) then cashier else None, actor)) == Some(plan) &&
                match r
                case Ok(_) => Run(true, Program(mode, plan), old(rows)) == Ok((rows, locals))
                case Err(e) => Reworded(Run(true, Program(mode, plan), old(rows)), e)
    {
      var v := Get(rows, Purchase(id));
      if !v.PurchaseV? {
        return Err(PurchaseNotFound);
      }
      if v.reversed {
        return Err(AlreadyReversed);
      }
      if !v.received {
        return Err(NotReversible);
      }
      var stockCashier := ResolveStockCashier(users, v.shop, cashier);
      if stockCashier.Err? {
        return Err(stockCashier.error);
      }
      var moves := MovesFor(v.shop, stockCashier.value, v.items, false, Reversed(id), actor);
      r := Transact(Plan([Write(Purchase(id), MarkReversed)], moves, [], []));
      if r.Err? && r.error in {InsufficientStock, ProductNotFound} {
        r := Err(ReversalBlocked);
      }
    }

    /** A reversal that stock or the listing refuses is reported as blocked. */
    predicate Reworded(o: Outcome, e: Error) {
      o.Err? && e == if o.error in {InsufficientStock, ProductNotFound} then ReversalBlocked else o.error
    }

    // ------------------------------------------------------- branchCatalog and credit

    /** setBranchAssignment: touches the listing only, and says whether it changed. */
    method SetBranchAssignment(shop: Id, product: Id, listed: bool) returns (changed: bool)
      requires Get(rows, Branch(shop, product)).Absent? || Get(rows, Branch(shop, product)).BranchV?
      modifies this`rows
      ensures var was := Get(old(rows), Branch(shop, product));
              && changed == (was.Absent? || was.isAssigned != listed)
              && Get(rows, Branch(shop, product)) == BranchV(listed, if was.BranchV? then was.priceOverride else None)
              && forall r | r != Branch(shop, product) :: Get(rows, r) == Get(old(rows), r)
      ensures PlanIn(old(rows), SetAssignment(shop, product, listed)).Some?
      ensures Run(true, Program(mode, PlanIn(old(rows), SetAssignment(shop, product, listed)).value), old(rows)) == Ok((rows, NO_LOCALS))
    {
      hide Program, Run;
      AssignmentAlone(mode, shop, product, listed, rows);
      PutSame(rows, Branch(shop, product));
      var existing := Get(rows, Branch(shop, product));
      if existing.Absent? {
        rows := Put(rows, Branch(shop, product), BranchV(listed, None));
        return true;
      }
      if existing.isAssigned == listed {
        return false;
      }
      rows := Put(rows, Branch(shop, product), existing.(isAssigned := listed));
      changed := true;
    }

    lemma {:induction false} NoBlocks()
      ensures Blocks(mode, []) == []
    {
    }

    lemma {:induction false} CreditOnly(c: CreditMove)
      ensures Program(mode, Plan([], [], [], [c])) == CreditBlock(c)
    {
      NoBlocks();
      OneCredit(c);
    }

    lemma {:induction false} CollectOutcome(customer: Id, shop: Id, amount: real, db: Db)
      requires Get(db, Ledger(customer)).Absent? || Get(db, Ledger(customer)).LedgerV?
      ensures var c := CollectMove(customer, shop, amount);
              var first := Apply(Collect(shop, amount), Get(db, Customer(customer)), NO_LOCALS);
              var o := Run(true, Program(mode, Plan([], [], [], [c])), db);
              && o.Ok? == first.Ok? && (first.Err? ==> o == Err(first.error))
    {
      hide Exec, Blocks, Paise, Rupees;
      var c := CollectMove(customer, shop, amount);
      var b := CreditBlock(c);
      CreditOnly(c);
      assert b == [b[0]] + [b[1]];
      ExecOne(true, b[0], db, NO_LOCALS);
      ExecStep(true, [b[0]], b[1], db, NO_LOCALS);
    }

    /** collectPayment: each refusal with its error, otherwise a ledger row and a lower balance, never below zero. */
    method CollectPayment(customer: Id, shop: Id, amount: real) returns (r: Result<int, Error>)
      requires Get(rows, Customer(customer)).CustomerV? ==> Get(rows, Customer(customer)).balance >= 0
      requires Get(rows, Ledger(customer)).Absent? || Get(rows, Ledger(customer)).LedgerV?
      modifies this
      ensures var v := Get(old(rows), Customer(customer));
              && (r.Ok? <==> v.CustomerV? && v.shop == shop && amount > 0.0 && Paise(amount) <= v.balance)
              && (r.Err? ==> r.error == if !v.CustomerV? || v.shop != shop then CustomerNotFound
                                        else if amount <= 0.0 then InvalidAmount else AmountExceedsBalance)
      ensures match r
              case Ok(balance) =>
                && PlanIn(old(rows), CollectCredit(customer, shop, amount)) == Some(Plan([], [], [], [CollectMove(customer, shop, amount)]))
                && Run(true, Program(mode, Plan([], [], [], [CollectMove(customer, shop, amount)])), old(rows)) == Ok((rows, locals))
                && balance == Balance(rows, customer) >= 0
                && balance == Balance(old(rows), customer) - Paise(amount) + (if HalfPaisa(amount) then 1 else 0)
              case Err(e) => rows == old(rows)
    {
      hide Exec, Program, CreditBlocks, Blocks;
      var plan := Plan([], [], [], [CollectMove(customer, shop, amount)]);
      CollectOutcome(customer, shop, amount, rows);
      var done := Transact(plan);
      if done.Err? {
        return Err(done.error);
      }
      CreditOnly(plan.credits[0]);
      CreditEffect(true, plan.credits[0], old(rows), NO_LOCALS);
      CreditStepOk(plan.credits[0], Get(old(rows), Customer(customer)), NO_LOCALS);
      r := Ok(Balance(rows, customer));
    }
  }
}
