// What a checkout asks of the rows and what it leaves in them, item by item
// and payment by payment, in terms of the request itself.
module Receipts {
  import opened Wrappers
  import opened Ids
  import opened Money
  import opened Text
  import opened Tables
  import opened Handlers
  import opened Runs
  import opened Conservation
  import opened Journals
  import opened Sales
  import opened BillMath
  import opened Effects
  import opened Checkouts

  // ------------------------------------------------------------- items and payments

  /** The branch's own price of a product, zero included, and the catalogue's when it has none. */
  function PriceAt(db: Db, shop: Id, product: Id): int {
    var b, p := Get(db, Branch(shop, product)), Get(db, Product(product));
    if b.BranchV? && b.priceOverride.Some? then b.priceOverride.value
    else if p.ProductV? then p.sellingPrice else 0
  }

  function ItemsPrice(db: Db, shop: Id, items: seq<CartItem>): int {
    if items == [] then 0
    else ItemsPrice(db, shop, items[..|items| - 1]) +
         PriceAt(db, shop, items[|items| - 1].product) * items[|items| - 1].quantity
  }

  /** How many units of one product the items ask for. */
  function Wanted(items: seq<CartItem>, p: Id): int {
    if items == [] then 0
    else Wanted(items[..|items| - 1], p) + if items[|items| - 1].product == p then items[|items| - 1].quantity else 0
  }

  /** The rounded amounts of the payments on credit, in order. */
  function OnCredit(payments: seq<Tender>): seq<int> {
    if payments == [] then []
    else OnCredit(payments[..|payments| - 1]) +
         if Lower(payments[|payments| - 1].tender) == "credit" then [Paise(payments[|payments| - 1].amount)] else []
  }

  predicate Supported(tender: string) {
    var m := Lower(tender);
    m == "cash" || m == "card" || m == "upi" || m == "credit"
  }

  /** Payments that settle a total: known methods, positive amounts, a sum within half a paisa, and a customer for credit. */
  predicate Settles(payments: seq<Tender>, customer: Option<Id>, total: int) {
    && (forall i | 0 <= i < |payments| :: Supported(payments[i].tender) && payments[i].amount > 0.0)
    && total as real - 0.5 <= 100.0 * SumAmounts(payments) < total as real + 0.5
    && (OnCredit(payments) != [] ==> customer.Some?)
  }

  /** What an item must find in the rows: its listing, an active product and, with the other items of the product, enough stock. */
  predicate Available(mode: Mode, db: Db, q: CheckoutInput, it: CartItem) {
    var b, p := Get(db, Branch(q.shop, it.product)), Get(db, Product(it.product));
    && it.quantity > 0 && b.BranchV? && b.isAssigned && p.ProductV? && p.active
    && Wanted(q.items, it.product) <= Quantity(db, Key(q.shop, if mode == BRANCH then None else Some(q.cashier), it.product))
  }

  /** What the rows and the request must be like for a checkout to be taken. */
  predicate Acceptable(mode: Mode, db: Db, q: CheckoutInput) {
    && q.items != [] && q.payments != []
    && Get(db, Session(q.shop, q.cashier)) == SessionV(true)
    && (q.customer.Some? ==>
          var v := Get(db, Customer(q.customer.value));
          v.CustomerV? && v.shop == q.shop && v.cashier == Some(q.cashier))
    && (forall i | 0 <= i < |q.items| :: Available(mode, db, q, q.items[i]))
    && Settles(q.payments, q.customer, ItemsPrice(db, q.shop, q.items))
  }

  lemma {:induction false} PriceIsPriceAt(db: Db, shop: Id, it: CartItem)
    ensures PriceLine(db, shop, it).unitPrice == PriceAt(db, shop, it.product)
  {
    PaiseOfRupees(PriceAt(db, shop, it.product));
  }

  lemma {:induction false} ItemsAdd(db: Db, shop: Id, items: seq<CartItem>, p: Id)
    ensures Subtotal(BillLines(PriceLines(db, shop, items))) == ItemsPrice(db, shop, items)
    ensures LineQty(BillLines(PriceLines(db, shop, items)), p) == Wanted(items, p)
    decreases |items|
  {
    hide PriceLine, PriceAt;
    if items != [] {
      var front, it := items[..|items| - 1], items[|items| - 1];
      ItemsAdd(db, shop, front, p);
      PriceIsPriceAt(db, shop, it);
      PriceLineIs(db, shop, it);
      var ls := BillLines(PriceLines(db, shop, items));
      assert ls[..|ls| - 1] == BillLines(PriceLines(db, shop, front));
      assert ls[|ls| - 1] == BillLine(PriceLine(db, shop, it));
    }
  }

  lemma {:induction false} PriceLineIs(db: Db, shop: Id, it: CartItem)
    ensures PriceLine(db, shop, it).product == it.product && PriceLine(db, shop, it).quantity == it.quantity
  {
  }

  lemma {:induction false} LoweredSum(payments: seq<Tender>)
    ensures SumAmounts(LowerTenders(payments)) == SumAmounts(payments)
    decreases |payments|
  {
    hide Lower;
    if payments != [] {
      LoweredSum(payments[..|payments| - 1]);
      assert LowerTenders(payments)[..|payments| - 1] == LowerTenders(payments[..|payments| - 1]);
    }
  }

  lemma {:induction false} CreditSnoc(ts: seq<Tender>, t: Tender)
    ensures PaiseOf(CreditTenders(ts + [t])) == PaiseOf(CreditTenders(ts)) + if t.tender == "credit" then [Paise(t.amount)] else []
    ensures CreditTenders(ts + [t]) == [] <==> CreditTenders(ts) == [] && t.tender != "credit"
  {
    hide Paise;
    assert (ts + [t])[..|ts|] == ts;
  }

  lemma {:induction false} LoweredCredit(payments: seq<Tender>)
    ensures PaiseOf(CreditTenders(LowerTenders(payments))) == OnCredit(payments)
    decreases |payments|
  {
    hide Lower, Paise, CreditTenders, PaiseOf;
    if payments == [] {
      NoneOnCredit();
      assert LowerTenders(payments) == [];
    } else {
      var front, t := payments[..|payments| - 1], payments[|payments| - 1];
      LoweredCredit(front);
      CreditSnoc(LowerTenders(front), Tender(Lower(t.tender), t.amount));
      assert LowerTenders(payments) == LowerTenders(front) + [Tender(Lower(t.tender), t.amount)];
    }
  }

  lemma {:induction false} NoneOnCredit()
    ensures PaiseOf(CreditTenders([])) == []
  {
  }

  /** Positive amounts equal a total, as money, when their exact sum is within half a paisa of it, the lower half included. */
  lemma {:induction false} EqualsMoneyExactly(x: real, total: int)
    requires x >= 0.0
    ensures EqualsMoney(x, Rupees(total)) <==> total as real - 0.5 <= 100.0 * x < total as real + 0.5
  {
    PaiseOfRupees(total);
    SameRupees(Paise(x), total);
  }

  lemma {:induction false} SameRupees(a: int, b: int)
    ensures Rupees(a) == Rupees(b) <==> a == b
  {
    PaiseOfRupees(a);
    PaiseOfRupees(b);
  }

  lemma {:induction false} SumPositive(payments: seq<Tender>)
    requires forall i | 0 <= i < |payments| :: payments[i].amount > 0.0
    ensures SumAmounts(payments) >= 0.0
    decreases |payments|
  {
    if payments != [] {
      SumPositive(payments[..|payments| - 1]);
    }
  }

  /** The payment rules the handler applies are those of `Settles`. */
  lemma {:induction false} SettlesExactly(payments: seq<Tender>, customer: Option<Id>, total: int)
    ensures var ts := LowerTenders(payments);
            Settles(payments, customer, total) <==>
              && (forall i | 0 <= i < |ts| :: TenderOk(ts[i]))
              && EqualsMoney(SumAmounts(ts), Rupees(total))
              && (CreditTenders(ts) != [] ==> customer.Some?)
  {
    hide Lower, EqualsMoney, SumAmounts, OnCredit, CreditTenders;
    var ts := LowerTenders(payments);
    LoweredSum(payments);
    LoweredCredit(payments);
    assert CreditTenders(ts) == [] <==> OnCredit(payments) == [] by {
      assert |PaiseOf(CreditTenders(ts))| == |CreditTenders(ts)|;
    }
    forall i | 0 <= i < |payments| ensures TenderOk(ts[i]) <==> Supported(payments[i].tender) && payments[i].amount > 0.0 {
    }
    if forall i | 0 <= i < |ts| :: TenderOk(ts[i]) {
      forall i | 0 <= i < |payments| ensures Supported(payments[i].tender) && payments[i].amount > 0.0 {
        assert TenderOk(ts[i]);
      }
      SumPositive(payments);
      EqualsMoneyExactly(SumAmounts(payments), total);
    } else {
      var i :| 0 <= i < |ts| && !TenderOk(ts[i]);
      assert !(Supported(payments[i].tender) && payments[i].amount > 0.0);
    }
  }

  /** The handler takes a checkout exactly when it is acceptable. */
  lemma {:induction false} AcceptedExactly(mode: Mode, db: Db, q: CheckoutInput, year: int)
    ensures Accepted(mode, db, q, year) <==> Acceptable(mode, db, q)
  {
    hide Settles, Lower, EqualsMoney, TenderOk, SumAmounts, CreditTenders, Subtotal, LineQty, Wanted, ItemsPrice;
    var c := CartOf(db, q, year);
    var lines := BillLines(c.lines);
    SettlesExactly(q.payments, q.customer, Subtotal(lines));
    ItemsAdd(db, q.shop, q.items, "");
    forall i | 0 <= i < |q.items|
      ensures Available(mode, db, q, q.items[i]) <==>
              ItemOk(db, q.shop, q.items[i]) && EnoughOf(mode, c, lines, db, lines[i].product)
    {
      ItemsAdd(db, q.shop, q.items, q.items[i].product);
    }
    if Acceptable(mode, db, q) {
      forall i | 0 <= i < |q.items| ensures ItemOk(db, q.shop, q.items[i]) && EnoughOf(mode, c, lines, db, lines[i].product) {
        assert Available(mode, db, q, q.items[i]);
      }
    }
    if Accepted(mode, db, q, year) {
      forall i | 0 <= i < |q.items| ensures Available(mode, db, q, q.items[i]) {
        assert ItemOk(db, q.shop, q.items[i]) && EnoughOf(mode, c, lines, db, lines[i].product);
      }
    }
  }

  // ---------------------------------------------------------------------- refusals

  function ItemError(db: Db, shop: Id, it: CartItem): Option<Error> {
    var b, p := Get(db, Branch(shop, it.product)), Get(db, Product(it.product));
    if it.quantity <= 0 then Some(InvalidQuantity)
    else if !b.BranchV? || !b.isAssigned || !p.ProductV? then Some(ProductNotFound)
    else if !p.active then Some(ProductInactive)
    else None
  }

  /** An error of the first item that has one. */
  ghost predicate FirstItemError(db: Db, shop: Id, items: seq<CartItem>, e: Error) {
    exists i ::
      && 0 <= i < |items| && ItemError(db, shop, items[i]) == Some(e)
      && forall j | 0 <= j < i :: ItemError(db, shop, items[j]) == None
  }

  function ShortBy(have: int, wanted: int, zeroOnly: bool): Option<Error> {
    if have <= 0 then Some(OutOfStock) else if !zeroOnly && wanted > have then Some(InsufficientStock) else None
  }

  function StockError(mode: Mode, db: Db, q: CheckoutInput, it: CartItem): Option<Error> {
    ShortBy(Quantity(db, Key(q.shop, if mode == BRANCH then None else Some(q.cashier), it.product)), Wanted(q.items, it.product), false)
  }

  ghost predicate FirstStockError(mode: Mode, db: Db, q: CheckoutInput, e: Error) {
    exists i ::
      && 0 <= i < |q.items| && StockError(mode, db, q, q.items[i]) == Some(e)
      && forall j | 0 <= j < i :: StockError(mode, db, q, q.items[j]) == None
  }

  function TenderError(t: Tender): Option<Error> {
    if !Supported(t.tender) then Some(UnsupportedMethod) else if t.amount <= 0.0 then Some(InvalidAmount) else None
  }

  /** The refusal of payments that do not settle a total: a bad payment before the sum, the sum before the missing customer. */
  ghost predicate PaymentsRefused(payments: seq<Tender>, customer: Option<Id>, total: int, e: Error) {
    if exists i :: 0 <= i < |payments| && TenderError(payments[i]).Some? then
      exists i ::
        && 0 <= i < |payments| && TenderError(payments[i]) == Some(e)
        && forall j | 0 <= j < i :: TenderError(payments[j]) == None
    else if !(total as real - 0.5 <= 100.0 * SumAmounts(payments) < total as real + 0.5) then e == PaymentMismatch
    else OnCredit(payments) != [] && customer.None? && e == CustomerRequired
  }

  /** The error of a refused cart: the first of the handler's checks that fails. */
  ghost predicate CartRefused(db: Db, q: CheckoutInput, e: Error) {
    if q.items == [] then e == EmptyBill
    else if q.payments == [] then e == NoPayments
    else if Get(db, Session(q.shop, q.cashier)) != SessionV(true) then e == NoActiveSession
    else if !CustomerOk(db, q) then e == CustomerNotFound
    else FirstItemError(db, q.shop, q.items, e)
  }

  ghost predicate CartFine(db: Db, q: CheckoutInput) {
    && q.items != [] && q.payments != [] && Get(db, Session(q.shop, q.cashier)) == SessionV(true) && CustomerOk(db, q)
    && forall i | 0 <= i < |q.items| :: ItemError(db, q.shop, q.items[i]) == None
  }

  /** The error of a checkout that is not acceptable, or whose empty key is taken. */
  ghost predicate Refused(mode: Mode, db: Db, q: CheckoutInput, e: Error) {
    if !CartFine(db, q) then CartRefused(db, q, e)
    else if exists i :: 0 <= i < |q.items| && StockError(mode, db, q, q.items[i]).Some? then FirstStockError(mode, db, q, e)
    else if !Settles(q.payments, q.customer, ItemsPrice(db, q.shop, q.items))
    then PaymentsRefused(q.payments, q.customer, ItemsPrice(db, q.shop, q.items), e)
    else e == UniqueViolation
  }

  lemma {:induction false} RefusedByCart(mode: Mode, db: Db, q: CheckoutInput, e: Error)
    requires CartRefused(db, q, e)
    ensures Refused(mode, db, q, e) && !Acceptable(mode, db, q)
  {
    hide Settles, StockError, PaymentsRefused, ItemsPrice, Wanted;
  }

  lemma {:induction false} WantedPositive(items: seq<CartItem>, i: nat)
    requires i < |items| && forall j | 0 <= j < |items| :: items[j].quantity > 0
    ensures Wanted(items, items[i].product) > 0
    decreases |items|
  {
    var front := items[..|items| - 1];
    if i < |front| {
      assert front[i] == items[i];
      WantedPositive(front, i);
    } else {
      WantedNonNegative(front, items[i].product);
    }
  }

  lemma {:induction false} WantedNonNegative(items: seq<CartItem>, p: Id)
    requires forall j | 0 <= j < |items| :: items[j].quantity > 0
    ensures Wanted(items, p) >= 0
    decreases |items|
  {
    if items != [] {
      WantedNonNegative(items[..|items| - 1], p);
    }
  }

  lemma {:induction false} PositiveItems(db: Db, q: CheckoutInput)
    requires CartFine(db, q)
    ensures forall i | 0 <= i < |q.items| :: q.items[i].quantity > 0
  {
    forall i | 0 <= i < |q.items| ensures q.items[i].quantity > 0 {
      assert ItemError(db, q.shop, q.items[i]) == None;
    }
  }

  /** An item of a fine cart is available exactly when the stock check passes it. */
  lemma {:induction false} AvailableExactly(mode: Mode, db: Db, q: CheckoutInput, i: nat)
    requires CartFine(db, q) && i < |q.items|
    ensures Available(mode, db, q, q.items[i]) <==> StockError(mode, db, q, q.items[i]) == None
  {
    hide Wanted;
    assert ItemError(db, q.shop, q.items[i]) == None;
    PositiveItems(db, q);
    WantedPositive(q.items, i);
  }

  lemma {:induction false} RefusedByStock(mode: Mode, db: Db, q: CheckoutInput, e: Error, i: nat)
    requires CartFine(db, q) && i < |q.items| && StockError(mode, db, q, q.items[i]) == Some(e)
    requires forall j | 0 <= j < i :: StockError(mode, db, q, q.items[j]) == None
    ensures Refused(mode, db, q, e) && !Acceptable(mode, db, q)
  {
    hide CartFine, StockError, Settles, PaymentsRefused, ItemsPrice, Available;
    AvailableExactly(mode, db, q, i);
  }

  lemma {:induction false} RefusedByPayments(mode: Mode, db: Db, q: CheckoutInput, e: Error)
    requires CartFine(db, q) && forall i | 0 <= i < |q.items| :: StockError(mode, db, q, q.items[i]) == None
    requires !Settles(q.payments, q.customer, ItemsPrice(db, q.shop, q.items))
    requires PaymentsRefused(q.payments, q.customer, ItemsPrice(db, q.shop, q.items), e)
    ensures Refused(mode, db, q, e) && !Acceptable(mode, db, q)
  {
    hide CartFine, StockError, Settles, PaymentsRefused, ItemsPrice, Available;
  }

  lemma {:induction false} AcceptableNow(mode: Mode, db: Db, q: CheckoutInput)
    requires CartFine(db, q) && forall i | 0 <= i < |q.items| :: StockError(mode, db, q, q.items[i]) == None
    requires Settles(q.payments, q.customer, ItemsPrice(db, q.shop, q.items))
    ensures Acceptable(mode, db, q)
  {
    hide StockError, Settles, ItemsPrice, Available, ItemError;
    forall i | 0 <= i < |q.items| ensures Available(mode, db, q, q.items[i]) {
      AvailableExactly(mode, db, q, i);
    }
  }

  lemma {:induction false} RefusedByKey(mode: Mode, db: Db, q: CheckoutInput)
    requires Acceptable(mode, db, q)
    ensures Refused(mode, db, q, UniqueViolation)
  {
    hide Settles, StockError, PaymentsRefused, ItemsPrice;
    forall i | 0 <= i < |q.items| ensures ItemError(db, q.shop, q.items[i]) == None {
      assert Available(mode, db, q, q.items[i]);
    }
    assert CartFine(db, q);
    forall i | 0 <= i < |q.items| ensures StockError(mode, db, q, q.items[i]) == None {
      AvailableExactly(mode, db, q, i);
    }
  }

  // ------------------------------------------------------------------- the stored bill

  /** A line of a bill is its item at the price the rows ask. */
  predicate Billed(db: Db, shop: Id, it: CartItem, l: Line) {
    var b, p := Get(db, Branch(shop, it.product)), Get(db, Product(it.product));
    && l.product == it.product && l.quantity == it.quantity && l.lineTotal == l.unitPrice * l.quantity
    && (b.BranchV? && b.priceOverride.Some? ==> l.unitPrice == b.priceOverride.value)
    && (!(b.BranchV? && b.priceOverride.Some?) && p.ProductV? ==> l.unitPrice == p.sellingPrice)
  }

  /** What the bill row, the counter and the key show after a checkout. */
  ghost predicate Recorded(db: Db, d: Db, q: CheckoutInput, bill: Id, year: int) {
    var v, n := Get(d, BillRow(bill)), Get(db, Counter(q.shop, year));
    && v.BillV? && v.status == PAID
    && v.core.shop == q.shop && v.core.cashier == q.cashier && v.core.customer == q.customer
    && v.core.year == year && v.core.token == q.token
    && v.core.seq_ == (if n.Num? then n.n else 0) + 1 && Get(d, Counter(q.shop, year)) == Num(v.core.seq_)
    && |v.core.lines| == |q.items|
    && (forall i | 0 <= i < |q.items| :: Billed(db, q.shop, q.items[i], v.core.lines[i]))
    && v.core.grandTotal == ItemsPrice(db, q.shop, q.items)
    && |v.core.payments| == |q.payments|
    && (forall i | 0 <= i < |q.payments| ::
          v.core.payments[i] == StoredPayment(Lower(q.payments[i].tender), Paise(q.payments[i].amount)))
    && v.core.charges == OnCredit(q.payments)
    && (q.token.Some? ==> Get(d, IdemKey(q.shop, q.token.value)) == KeyV(bill))
  }

  /** Every stock row, aggregate and balance after a checkout. */
  ghost predicate Taken(mode: Mode, db: Db, d: Db, q: CheckoutInput) {
    && (forall k :: Quantity(d, k) == Quantity(db, k) -
          if k.shop == q.shop && k.owner == (if mode == BRANCH then None else Some(q.cashier)) then Wanted(q.items, k.product) else 0)
    && (forall p :: Stock(d, p) == Stock(db, p) - Wanted(q.items, p))
    && ((q.customer.Some? ==> Balance(db, q.customer.value) >= 0) ==>
          forall x :: Balance(d, x) == Balance(db, x) + if q.customer == Some(x) then Sum(OnCredit(q.payments)) else 0)
  }

  lemma {:induction false} BillInserted(mode: Mode, bill: Id, c: Cart, db: Db)
    requires Run(false, Program(mode, CheckoutPlan(bill, c)), db).Ok?
    ensures var d := Run(false, Program(mode, CheckoutPlan(bill, c)), db).value.0;
            var n := CounterAt(db, c.shop, c.year) + 1;
            && Get(d, Counter(c.shop, c.year)) == Num(n) && Get(d, BillRow(bill)) == BillV(CoreOf(c).(seq_ := n), PAID)
            && (c.token.Some? ==> Get(d, IdemKey(c.shop, c.token.value)) == KeyV(bill))
  {
    hide Exec, Program, Blocks, CreditBlocks, Insertions, PriceChecks, SortLines, CoreOf, CreditTenders;
    var p := CheckoutPlan(bill, c);
    var a, b, e, d := RunPhases(false, mode, p, db);
    NoPriceWrites(c.shop, c.lines);
    BlocksRows(mode, p.moves);
    CreditRows(p.credits);
    InsertionsEffect(false, bill, c, b.0, b.1);
    Untouched(false, p.pre, db, NO_LOCALS, Counter(c.shop, c.year));
    Untouched(false, Blocks(mode, p.moves), a.0, a.1, Counter(c.shop, c.year));
    Untouched(false, CreditBlocks(p.credits), e.0, e.1, Counter(c.shop, c.year));
    Untouched(false, CreditBlocks(p.credits), e.0, e.1, BillRow(bill));
    if c.token.Some? {
      Untouched(false, CreditBlocks(p.credits), e.0, e.1, IdemKey(c.shop, c.token.value));
    }
  }

  lemma {:induction false} CoreIs(db: Db, q: CheckoutInput, year: int)
    ensures var core := CoreOf(CartOf(db, q, year));
            && core.shop == q.shop && core.cashier == q.cashier && core.customer == q.customer
            && core.year == year && core.token == q.token
            && |core.lines| == |q.items| && (forall i | 0 <= i < |q.items| :: Billed(db, q.shop, q.items[i], core.lines[i]))
            && core.grandTotal == ItemsPrice(db, q.shop, q.items)
            && |core.payments| == |q.payments|
            && (forall i | 0 <= i < |q.payments| ::
                  core.payments[i] == StoredPayment(Lower(q.payments[i].tender), Paise(q.payments[i].amount)))
            && core.charges == OnCredit(q.payments)
  {
    hide Lower, Paise, Subtotal, ItemsPrice, OnCredit, CreditTenders, PaiseOf, EffectivePrice;
    ItemsAdd(db, q.shop, q.items, "");
    LoweredCredit(q.payments);
    var core := CoreOf(CartOf(db, q, year));
    forall i | 0 <= i < |q.items| ensures Billed(db, q.shop, q.items[i], core.lines[i]) {
      PriceIsPriceAt(db, q.shop, q.items[i]);
    }
  }

  /** A committed checkout records its request: one line per item at the price in the rows, one payment per payment. */
  lemma {:induction false} CheckoutRecorded(mode: Mode, bill: Id, db: Db, q: CheckoutInput, year: int)
    requires Run(false, Program(mode, CheckoutPlan(bill, CartOf(db, q, year))), db).Ok?
    ensures Recorded(db, Run(false, Program(mode, CheckoutPlan(bill, CartOf(db, q, year))), db).value.0, q, bill, year)
  {
    hide Program, CheckoutPlan, CoreOf, Billed, Lower, Paise, ItemsPrice, OnCredit, PriceLines, Run;
    BillInserted(mode, bill, CartOf(db, q, year), db);
    CoreIs(db, q, year);
  }

  /** A committed checkout takes exactly its items' units, from its own stock rows and the aggregates, and charges its credit payments. */
  lemma {:induction false} CheckoutTaken(mode: Mode, bill: Id, db: Db, q: CheckoutInput, year: int)
    requires ValidCart(CartOf(db, q, year)) && Run(false, Program(mode, CheckoutPlan(bill, CartOf(db, q, year))), db).Ok?
    ensures Taken(mode, db, Run(false, Program(mode, CheckoutPlan(bill, CartOf(db, q, year))), db).value.0, q)
  {
    hide Program, CheckoutPlan, CoreOf, Run, LineQty, Wanted, OnCredit, PriceLines, ValidCart;
    var c := CartOf(db, q, year);
    CoreIs(db, q, year);
    var d := Run(false, Program(mode, CheckoutPlan(bill, c)), db).value.0;
    forall k ensures Quantity(d, k) == Quantity(db, k) -
          if k.shop == q.shop && k.owner == (if mode == BRANCH then None else Some(q.cashier)) then Wanted(q.items, k.product) else 0
    {
      CheckoutStockNet(mode, bill, c, db, k, k.product);
      ItemsAdd(db, q.shop, q.items, k.product);
    }
    forall p ensures Stock(d, p) == Stock(db, p) - Wanted(q.items, p) {
      CheckoutStockNet(mode, bill, c, db, Key("", None, p), p);
      ItemsAdd(db, q.shop, q.items, p);
    }
    if q.customer.Some? ==> Balance(db, q.customer.value) >= 0 {
      forall x ensures Balance(d, x) == Balance(db, x) + if q.customer == Some(x) then Sum(OnCredit(q.payments)) else 0 {
        CheckoutBalance(mode, bill, c, db, x);
      }
    }
  }

  /** The rows a checkout may change. */
  predicate CheckoutRow(r: Row, q: CheckoutInput, bill: Id, year: int) {
    || r.Inventory? || r.Product? || r.Log? || r == Counter(q.shop, year) || r == BillRow(bill)
    || (q.token.Some? && r == IdemKey(q.shop, q.token.value))
    || (q.customer.Some? && (r == Customer(q.customer.value) || r == Ledger(q.customer.value)))
  }

  /** Everything a committed checkout leaves in the rows. */
  lemma {:induction false} CheckoutDone(mode: Mode, bill: Id, db: Db, q: CheckoutInput, year: int)
    requires Accepted(mode, db, q, year) && Run(true, Program(mode, CheckoutPlan(bill, CartOf(db, q, year))), db).Ok?
    ensures PlanIn(db, Checkout(bill, CartOf(db, q, year))) == Some(CheckoutPlan(bill, CartOf(db, q, year)))
    ensures var d := Run(true, Program(mode, CheckoutPlan(bill, CartOf(db, q, year))), db).value.0;
            && Recorded(db, d, q, bill, year) && Taken(mode, db, d, q)
            && forall r | !CheckoutRow(r, q, bill, year) :: Get(d, r) == Get(db, r)
  {
    hide Program, CheckoutPlan, Exec, PriceLines, Accepted, Recorded, Taken, ValidCart;
    var c := CartOf(db, q, year);
    AcceptedIsValid(mode, db, q, year);
    ChecksOnlyReject(Program(mode, CheckoutPlan(bill, c)), db, NO_LOCALS);
    CheckoutRecorded(mode, bill, db, q, year);
    CheckoutTaken(mode, bill, db, q, year);
    var d := Run(true, Program(mode, CheckoutPlan(bill, c)), db).value.0;
    forall r | !CheckoutRow(r, q, bill, year) ensures Get(d, r) == Get(db, r) {
      CheckoutFrame(mode, bill, c, db, r);
    }
  }
}
