// src/services/billingService.ts, before its transaction: the cart with its
// prices, what a checkout must satisfy, and that it then commits.
module Checkouts {
  import opened Wrappers
  import opened Ids
  import opened Money
  import opened Text
  import opened Tables
  import opened Handlers
  import opened Runs
  import opened Conservation
  import opened Journals
  import opened Sales
  import opened BillMath

  // ------------------------------------------------------------ checkout's inputs

  datatype CartItem = CartItem(product: Id, quantity: int)

  datatype CheckoutInput = CheckoutInput(shop: Id, cashier: Id, customer: Option<Id>, items: seq<CartItem>,
                                         payments: seq<Tender>, token: Option<string>)

  const METHODS: set<string> := {"cash", "card", "upi", "credit"}

  /** Payment methods are compared in lower case, and stored that way. */
  function LowerTenders(ts: seq<Tender>): (r: seq<Tender>)
    ensures |r| == |ts| && forall i :: 0 <= i < |ts| ==> r[i] == Tender(Lower(ts[i].tender), ts[i].amount)
  {
    seq(|ts|, i requires 0 <= i < |ts| => Tender(Lower(ts[i].tender), ts[i].amount))
  }

  function PriceLine(db: Db, shop: Id, it: CartItem): CartLine {
    var p, b := Get(db, Product(it.product)), Get(db, Branch(shop, it.product));
    var selling := if p.ProductV? then p.sellingPrice else 0;
    CartLine(it.product, it.quantity, selling, EffectivePrice(selling, if b.BranchV? then b.priceOverride else None))
  }

  function PriceLines(db: Db, shop: Id, items: seq<CartItem>): (ls: seq<CartLine>)
    ensures |ls| == |items| && forall i :: 0 <= i < |items| ==> ls[i] == PriceLine(db, shop, items[i])
  {
    seq(|items|, i requires 0 <= i < |items| => PriceLine(db, shop, items[i]))
  }

  /** The cart with every price taken from the database. */
  function CartOf(db: Db, q: CheckoutInput, year: int): Cart {
    Cart(q.shop, q.cashier, q.customer, PriceLines(db, q.shop, q.items), LowerTenders(q.payments), q.token, year)
  }

  predicate ItemOk(db: Db, shop: Id, it: CartItem) {
    it.quantity > 0 && Sellable(db, shop, it.product) && Get(db, Product(it.product)).active
  }

  predicate CustomerOk(db: Db, q: CheckoutInput) {
    q.customer.Some? ==>
      var v := Get(db, Customer(q.customer.value));
      v.CustomerV? && v.shop == q.shop && v.cashier == Some(q.cashier)
  }

  predicate TenderOk(t: Tender) { t.tender in METHODS && t.amount > 0.0 }

  /** What a checkout must satisfy: each clause is one refusal of the handler. */
  predicate Accepted(mode: Mode, db: Db, q: CheckoutInput, year: int) {
    && q.items != [] && q.payments != []
    && Get(db, Session(q.shop, q.cashier)) == SessionV(true)
    && CustomerOk(db, q)
    && (forall i | 0 <= i < |q.items| :: ItemOk(db, q.shop, q.items[i]))
    && var c := CartOf(db, q, year);
    && Enough(mode, c, BillLines(c.lines), db)
    && (forall i | 0 <= i < |c.tenders| :: TenderOk(c.tenders[i]))
    && EqualsMoney(SumAmounts(c.tenders), Rupees(Subtotal(BillLines(c.lines))))
    && (CreditTenders(c.tenders) != [] ==> q.customer.Some?)
  }

  /** Rows hold what their tables hold. */
  ghost predicate Typed(db: Db) {
    && StockTyped(db)
    && (forall s, y :: Get(db, Counter(s, y)).Absent? || Get(db, Counter(s, y)).Num?)
    && (forall c :: Get(db, Ledger(c)).Absent? || Get(db, Ledger(c)).LedgerV?)
    && (forall s, k :: Get(db, IdemKey(s, k)).Absent? || Get(db, IdemKey(s, k)).KeyV?)
  }

  // ---------------------------------------------------- an accepted checkout commits

  lemma {:induction false} ChecksPass(p: seq<Stmt>, db: Db, l: Locals)
    requires forall i | 0 <= i < |p| :: p[i].Check? && Holds(p[i].cond, Get(db, p[i].row)).Ok?
    ensures Exec(true, p, db, l) == Ok((db, l))
    decreases |p|
  {
    if p != [] {
      ChecksPass(p[..|p| - 1], db, l);
    }
  }

  lemma {:induction false} InsertionsSucceed(bill: Id, c: Cart, db: Db, l: Locals)
    requires Get(db, Counter(c.shop, c.year)).Absent? || Get(db, Counter(c.shop, c.year)).Num?
    requires Get(db, BillRow(bill)) == Absent && (c.token.Some? ==> Get(db, IdemKey(c.shop, c.token.value)) == Absent)
    ensures Exec(true, Insertions(bill, c), db, l).Ok?
  {
    hide Exec, Insertions, CoreOf;
    var count, row := Write(Counter(c.shop, c.year), NextSeq), Write(BillRow(bill), InsertBill(CoreOf(c)));
    InsertionsParts(bill, c);
    ExecOne(true, count, db, l);
    var (d, l') := Exec(true, [count], db, l).value;
    KeyPartSucceeds(bill, c, d, l');
    ExecConcat(true, [count], KeyPart(bill, c), db, l);
    KeyPartEffect(true, bill, c, d, l');
    ExecStep(true, [count] + KeyPart(bill, c), row, db, l);
  }

  lemma {:induction false} KeyPartSucceeds(bill: Id, c: Cart, db: Db, l: Locals)
    requires c.token.Some? ==> Get(db, IdemKey(c.shop, c.token.value)) == Absent
    ensures Exec(true, KeyPart(bill, c), db, l).Ok?
  {
    if c.token.Some? {
      ExecOne(true, KeyPart(bill, c)[0], db, l);
    }
  }

  ghost predicate CreditReady(db: Db, customer: Id, shop: Id) {
    && Get(db, Customer(customer)).CustomerV? && Get(db, Customer(customer)).shop == shop
    && (Get(db, Ledger(customer)).Absent? || Get(db, Ledger(customer)).LedgerV?)
  }

  lemma {:induction false} ChargeSucceeds(c: CreditMove, db: Db, l: Locals)
    requires c.ChargeMove? && CreditReady(db, c.customer, c.shop)
    ensures Exec(true, CreditBlock(c), db, l).Ok?
    ensures CreditReady(Exec(true, CreditBlock(c), db, l).value.0, c.customer, c.shop)
  {
    var b := CreditBlock(c);
    assert b == [b[0]] + [b[1]];
    ExecStep(true, [], b[0], db, l);
    assert [] + [b[0]] == [b[0]];
    ExecStep(true, [b[0]], b[1], db, l);
  }

  lemma {:induction false} ChargesSucceed(cs: seq<CreditMove>, customer: Id, shop: Id, db: Db, l: Locals)
    requires forall i | 0 <= i < |cs| :: cs[i].ChargeMove? && cs[i].customer == customer && cs[i].shop == shop
    requires CreditReady(db, customer, shop)
    ensures Exec(true, CreditBlocks(cs), db, l).Ok?
    ensures CreditReady(Exec(true, CreditBlocks(cs), db, l).value.0, customer, shop)
    decreases |cs|
  {
    if cs != [] {
      var front := cs[..|cs| - 1];
      ChargesSucceed(front, customer, shop, db, l);
      ExecConcat(true, CreditBlocks(front), CreditBlock(cs[|cs| - 1]), db, l);
      var (d, l') := Exec(true, CreditBlocks(front), db, l).value;
      ChargeSucceeds(cs[|cs| - 1], d, l');
    }
  }

  /** An accepted checkout starts the transaction of its cart. */
  lemma {:induction false} AcceptedIsValid(mode: Mode, db: Db, q: CheckoutInput, year: int)
    requires Accepted(mode, db, q, year)
    ensures ValidCart(CartOf(db, q, year))
    ensures forall bill :: PlanIn(db, Checkout(bill, CartOf(db, q, year))) == Some(CheckoutPlan(bill, CartOf(db, q, year)))
  {
    hide CheckoutPlan;
    var c := CartOf(db, q, year);
    forall i | 0 <= i < |c.lines| ensures c.lines[i].quantity > 0 {
      assert ItemOk(db, q.shop, q.items[i]);
    }
    forall i | 0 <= i < |c.tenders| ensures c.tenders[i].amount > 0.0 {
      assert TenderOk(c.tenders[i]);
    }
  }

  lemma {:induction false} AcceptedMovesSucceed(mode: Mode, db: Db, q: CheckoutInput, year: int)
    requires Accepted(mode, db, q, year) && StockTyped(db) && forall k :: Quantity(db, k) >= 0
    ensures var c := CartOf(db, q, year);
            Exec(true, Blocks(mode, SaleMoves(c, SortLines(BillLines(c.lines)))), db, NO_LOCALS).Ok?
  {
    var c := CartOf(db, q, year);
    forall i | 0 <= i < |c.lines| ensures c.lines[i].quantity > 0 && Sellable(db, c.shop, c.lines[i].product) {
      assert ItemOk(db, q.shop, q.items[i]);
    }
    PreCheckExact(mode, c, db);
  }

  /** An accepted checkout that runs alone always commits: after the pre-checks nothing can refuse it. */
  lemma {:induction false} AcceptedCommits(mode: Mode, db: Db, q: CheckoutInput, year: int, bill: Id)
    requires Accepted(mode, db, q, year) && Typed(db) && forall k :: Quantity(db, k) >= 0
    requires Get(db, BillRow(bill)) == Absent && (q.token.Some? ==> Get(db, IdemKey(q.shop, q.token.value)) == Absent)
    ensures Run(true, Program(mode, CheckoutPlan(bill, CartOf(db, q, year))), db).Ok?
  {
    hide Exec, Blocks, CreditBlocks, LineQty, SortLines, StockTyped, Enough;
    var c := CartOf(db, q, year);
    var plan := CheckoutPlan(bill, c);
    ChecksPass(plan.pre, db, NO_LOCALS);
    AcceptedMovesSucceed(mode, db, q, year);
    var m := Blocks(mode, plan.moves);
    var (d, l) := Exec(true, m, db, NO_LOCALS).value;
    BlocksRows(mode, plan.moves);
    Untouched(true, m, db, NO_LOCALS, Counter(c.shop, c.year));
    Untouched(true, m, db, NO_LOCALS, BillRow(bill));
    if c.token.Some? {
      Untouched(true, m, db, NO_LOCALS, IdemKey(c.shop, c.token.value));
    }
    InsertionsSucceed(bill, c, d, l);
    ExecConcat(true, plan.pre, m, db, NO_LOCALS);
    ExecConcat(true, plan.pre + m, plan.post, db, NO_LOCALS);
    ExecConcat(true, plan.pre + m + plan.post, CreditBlocks(plan.credits), db, NO_LOCALS);
    var (d', l') := Exec(true, plan.post, d, l).value;
    if c.customer.Some? {
      var x := c.customer.value;
      InsertionsRows(bill, c);
      Untouched(true, m, db, NO_LOCALS, Customer(x));
      Untouched(true, m, db, NO_LOCALS, Ledger(x));
      Untouched(true, plan.post, d, l, Customer(x));
      Untouched(true, plan.post, d, l, Ledger(x));
      ChargesSucceed(plan.credits, x, c.shop, d', l');
    } else {
      NoCredits(d', l');
    }
  }

  lemma {:induction false} NoCredits(db: Db, l: Locals)
    ensures Exec(true, CreditBlocks([]), db, l) == Ok((db, l))
  {
  }

  predicate TokenTaken(db: Db, q: CheckoutInput) {
    q.token.Some? && Get(db, IdemKey(q.shop, q.token.value)).KeyV?
  }

  /** The unique key on a shop's idempotency keys refuses a second bill. */
  lemma {:induction false} TakenTokenRefused(mode: Mode, bill: Id, c: Cart, db: Db)
    requires c.token.Some? && Get(db, IdemKey(c.shop, c.token.value)) != Absent
    ensures Run(true, Program(mode, CheckoutPlan(bill, c)), db).Err?
  {
    hide Exec, Program, Blocks, CreditBlocks, Insertions, SortLines;
    var p := CheckoutPlan(bill, c);
    if Run(true, Program(mode, p), db).Ok? {
      var x, y, z, w := RunPhases(true, mode, p, db);
      InsertionsEffect(true, bill, c, y.0, y.1);
      BlocksRows(mode, p.moves);
      Untouched(true, p.pre, db, NO_LOCALS, IdemKey(c.shop, c.token.value));
      Untouched(true, Blocks(mode, p.moves), x.0, x.1, IdemKey(c.shop, c.token.value));
    }
  }

  lemma {:induction false} KeyRefuses(bill: Id, c: Cart, db: Db, l: Locals)
    requires Get(db, Counter(c.shop, c.year)).Absent? || Get(db, Counter(c.shop, c.year)).Num?
    requires c.token.Some? && Get(db, IdemKey(c.shop, c.token.value)) != Absent
    ensures Exec(true, Insertions(bill, c), db, l) == Err(UniqueViolation)
  {
    hide Exec, Insertions, CoreOf;
    var count, row := Write(Counter(c.shop, c.year), NextSeq), Write(BillRow(bill), InsertBill(CoreOf(c)));
    InsertionsParts(bill, c);
    ExecOne(true, count, db, l);
    var (d, l') := Exec(true, [count], db, l).value;
    ExecOne(true, KeyPart(bill, c)[0], d, l');
    ExecConcat(true, [count], KeyPart(bill, c), db, l);
    ExecStep(true, [count] + KeyPart(bill, c), row, db, l);
  }

  /** When the key of an accepted checkout is taken, that is what stops it. */
  lemma {:induction false} TakenTokenError(mode: Mode, db: Db, q: CheckoutInput, year: int, bill: Id)
    requires Accepted(mode, db, q, year) && Typed(db) && forall k :: Quantity(db, k) >= 0
    requires TokenTaken(db, q)
    ensures Run(true, Program(mode, CheckoutPlan(bill, CartOf(db, q, year))), db) == Err(UniqueViolation)
  {
    hide Exec, Blocks, CreditBlocks, LineQty, SortLines, StockTyped, Enough, Insertions;
    var c := CartOf(db, q, year);
    var plan := CheckoutPlan(bill, c);
    ChecksPass(plan.pre, db, NO_LOCALS);
    AcceptedMovesSucceed(mode, db, q, year);
    var m := Blocks(mode, plan.moves);
    var (d, l) := Exec(true, m, db, NO_LOCALS).value;
    BlocksRows(mode, plan.moves);
    Untouched(true, m, db, NO_LOCALS, Counter(c.shop, c.year));
    Untouched(true, m, db, NO_LOCALS, IdemKey(c.shop, c.token.value));
    KeyRefuses(bill, c, d, l);
    ExecConcat(true, plan.pre, m, db, NO_LOCALS);
    ExecConcat(true, plan.pre + m, plan.post, db, NO_LOCALS);
    ExecConcat(true, plan.pre + m + plan.post, CreditBlocks(plan.credits), db, NO_LOCALS);
  }

  /** What an accepted checkout stores adds up: the payments to within half a paisa each of the grand total. */
  lemma {:induction false} AcceptedPaymentsClose(mode: Mode, db: Db, q: CheckoutInput, year: int)
    requires Accepted(mode, db, q, year)
    ensures var c := CartOf(db, q, year);
            var off := Sum(PaiseOf(c.tenders)) - CoreOf(c).grandTotal;
            && -|q.payments| <= 2 * off <= |q.payments|
            && (|q.payments| == 1 || (forall i | 0 <= i < |q.payments| :: WholePaise(q.payments[i].amount)) ==> off == 0)
            && CoreOf(c).grandTotal == Paise(RawSubtotal(c.lines))
  {
    var c := CartOf(db, q, year);
    AcceptedIsValid(mode, db, q, year);
    StoredPaymentsClose(c.tenders, CoreOf(c).grandTotal);
    LineTotalsAddUp(c.lines);
  }
}
