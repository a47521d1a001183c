// The transactions: for every request, the statements its handler issues.
// Each one is a list of preliminary statements, then stock movements (all
// through adjustStock), then row insertions, then credit movements.
module Handlers {
  import opened Wrappers
  import opened Ids
  import opened Money
  import opened Tables

  datatype Mode = CASHIER | BRANCH

  // ------------------------------------------------------------ adjustStock

  /** The arguments of one adjustStock call. */
  datatype Move = Move(shop: Id, cashier: Option<Id>, product: Id, delta: int,
                       kind: MoveType, cause: Cause, actor: Option<Id>, allowUnassigned: bool)

  /** The stock row a move changes; CASHIER mode needs to be told whose it is. */
  predicate Keyed(mode: Mode, m: Move) { mode == BRANCH || m.cashier.Some? }

  function KeyOf(mode: Mode, m: Move): Key {
    Key(m.shop, if mode == BRANCH then None else m.cashier, m.product)
  }

  function StockUpdate(delta: int): Op { if delta < 0 then Take(-delta) else Give(delta) }

  /** adjustStock: listing check, stock row, all-branch aggregate, movement. */
  function Block(mode: Mode, m: Move): seq<Stmt> {
    var k := KeyOf(mode, m);
    [Check(Branch(m.shop, m.product), Listed(m.allowUnassigned))] +
    if !Keyed(mode, m) then [Fail(SelectCashier)]
    else if m.delta == 0 then []
    else [Write(Inventory(k), Ensure), Write(Inventory(k), StockUpdate(m.delta)),
          Write(Product(m.product), AddStock(m.delta)),
          Write(Log(k), Record(m.kind, m.delta, m.cause, m.cashier, m.actor))]
  }

  function Blocks(mode: Mode, ms: seq<Move>): seq<Stmt> {
    if ms == [] then [] else Blocks(mode, ms[..|ms| - 1]) + Block(mode, ms[|ms| - 1])
  }

  // ---------------------------------------------------------------- credit

  datatype CreditMove =
    | ChargeMove(customer: Id, shop: Id, bill: Id, amount: real)
    | RefundMove(customer: Id, bill: Id, paise: int)
    | CollectMove(customer: Id, shop: Id, amount: real)

  /** One customer update with its CreditTransaction row. */
  function CreditBlock(c: CreditMove): seq<Stmt> {
    match c
    case ChargeMove(customer, shop, bill, amount) =>
      [Write(Customer(customer), Charge(shop, amount)),
       Write(Ledger(customer), Post(CreditTxn(CHARGE, Paise(amount), Some(bill))))]
    case RefundMove(customer, bill, paise) =>
      [Write(Customer(customer), Refund(paise)),
       Write(Ledger(customer), Post(CreditTxn(REVERSAL, paise, Some(bill))))]
    case CollectMove(customer, shop, amount) =>
      [Write(Customer(customer), Collect(shop, amount)),
       Write(Ledger(customer), Post(CreditTxn(COLLECTION, Paise(amount), None)))]
  }

  function CreditBlocks(cs: seq<CreditMove>): seq<Stmt> {
    if cs == [] then [] else CreditBlocks(cs[..|cs| - 1]) + CreditBlock(cs[|cs| - 1])
  }

  datatype Plan = Plan(pre: seq<Stmt>, moves: seq<Move>, post: seq<Stmt>, credits: seq<CreditMove>)

  function Program(mode: Mode, p: Plan): seq<Stmt> {
    p.pre + Blocks(mode, p.moves) + p.post + CreditBlocks(p.credits)
  }

  // -------------------------------------------------------------- quantities

  function LineQty(ls: seq<Line>, p: Id): int {
    if ls == [] then 0 else LineQty(ls[..|ls| - 1], p) + if ls[|ls| - 1].product == p then ls[|ls| - 1].quantity else 0
  }

  function ItemQty(items: seq<Item>, p: Id): int {
    if items == [] then 0
    else ItemQty(items[..|items| - 1], p) +
         if items[|items| - 1].product == Some(p) then items[|items| - 1].quantity else 0
  }

  function Sum(xs: seq<int>): int { if xs == [] then 0 else Sum(xs[..|xs| - 1]) + xs[|xs| - 1] }

  // ----------------------------------------------------------------- sorting

  predicate LineLeq(a: Line, b: Line) { !Less(b.product, a.product) }

  /** Keeps equal products in cart order, as JavaScript's stable sort does. */
  function InsertLine(ls: seq<Line>, l: Line): seq<Line> {
    if ls == [] || LineLeq(ls[|ls| - 1], l) then ls + [l]
    else InsertLine(ls[..|ls| - 1], l) + [ls[|ls| - 1]]
  }

  /** The deduction order: by productId. */
  function SortLines(ls: seq<Line>): seq<Line> {
    if ls == [] then [] else InsertLine(SortLines(ls[..|ls| - 1]), ls[|ls| - 1])
  }

  ghost predicate SortedLines(ls: seq<Line>) {
    forall i, j :: 0 <= i < j < |ls| ==> LineLeq(ls[i], ls[j])
  }

  function InsertId(ids: seq<Id>, p: Id): seq<Id> {
    if ids == [] || Less(ids[|ids| - 1], p) then ids + [p]
    else if ids[|ids| - 1] == p then ids
    else InsertId(ids[..|ids| - 1], p) + [ids[|ids| - 1]]
  }

  /** The distinct products of some lines, in ascending order. */
  function ProductsOf(ls: seq<Line>): seq<Id> {
    if ls == [] then [] else InsertId(ProductsOf(ls[..|ls| - 1]), ls[|ls| - 1].product)
  }

  ghost predicate Ascending(ids: seq<Id>) {
    forall i, j :: 0 <= i < j < |ids| ==> Less(ids[i], ids[j])
  }

  // ----------------------------------------------------------------- requests

  datatype CartLine = CartLine(product: Id, quantity: int, sellingPrice: int, unitPrice: int)
  datatype Tender = Tender(tender: string, amount: real)

  /** A checkout whose cart and payments have passed validation; `bill` is the new row's id. */
  datatype Cart = Cart(shop: Id, cashier: Id, customer: Option<Id>, lines: seq<CartLine>,
                       tenders: seq<Tender>, token: Option<string>, year: int)

  datatype Request =
    | Checkout(bill: Id, cart: Cart)
    | Cancel(bill: Id, actor: Id)
    | Receive(purchase: Id, shop: Id, cashier: Option<Id>, items: seq<Item>, actor: Id)
    | ReversePurchase(purchase: Id, cashier: Option<Id>, actor: Id)
    | Adjust(shop: Id, cashier: Option<Id>, product: Id, delta: int, actor: Id)
    | SetAssignment(shop: Id, product: Id, listed: bool)
    | SetPrice(shop: Id, product: Id, priceOverride: Option<int>)
    | CollectCredit(customer: Id, shop: Id, amount: real)

  function BillLine(l: CartLine): Line { Line(l.product, l.quantity, l.unitPrice, l.unitPrice * l.quantity) }

  function BillLines(ls: seq<CartLine>): (r: seq<Line>)
    ensures |r| == |ls| && forall i :: 0 <= i < |ls| ==> r[i] == BillLine(ls[i])
  {
    seq(|ls|, i requires 0 <= i < |ls| => BillLine(ls[i]))
  }

  function Subtotal(ls: seq<Line>): int {
    if ls == [] then 0 else Subtotal(ls[..|ls| - 1]) + ls[|ls| - 1].lineTotal
  }

  function CreditTenders(ts: seq<Tender>): seq<Tender> {
    if ts == [] then []
    else CreditTenders(ts[..|ts| - 1]) + if ts[|ts| - 1].tender == "credit" then [ts[|ts| - 1]] else []
  }

  function StoredPayments(ts: seq<Tender>): seq<StoredPayment> {
    seq(|ts|, i requires 0 <= i < |ts| => StoredPayment(ts[i].tender, Paise(ts[i].amount)))
  }

  function PaiseOf(ts: seq<Tender>): seq<int> {
    seq(|ts|, i requires 0 <= i < |ts| => Paise(ts[i].amount))
  }

  function CoreOf(c: Cart): BillCore {
    BillCore(c.shop, c.cashier, c.customer, c.year, 0, BillLines(c.lines), Subtotal(BillLines(c.lines)),
             StoredPayments(c.tenders), PaiseOf(CreditTenders(c.tenders)), c.token)
  }

  function PriceChecks(shop: Id, ls: seq<CartLine>): seq<Stmt> {
    seq(|ls|, i requires 0 <= i < |ls| =>
      Check(Branch(shop, ls[i].product), PriceIs(ls[i].sellingPrice, ls[i].unitPrice)))
  }

  function SaleMove(c: Cart, l: Line): Move {
    Move(c.shop, Some(c.cashier), l.product, -l.quantity, OUT, Sale, Some(c.cashier), false)
  }

  function SaleMoves(c: Cart, ls: seq<Line>): (ms: seq<Move>)
    ensures |ms| == |ls| && forall i :: 0 <= i < |ls| ==> ms[i] == SaleMove(c, ls[i])
  {
    seq(|ls|, i requires 0 <= i < |ls| => SaleMove(c, ls[i]))
  }

  function Insertions(bill: Id, c: Cart): seq<Stmt> {
    [Write(Counter(c.shop, c.year), NextSeq)] +
    (if c.token.Some? then [Write(IdemKey(c.shop, c.token.value), InsertKey(bill))] else []) +
    [Write(BillRow(bill), InsertBill(CoreOf(c)))]
  }

  function ChargeMoves(bill: Id, c: Cart, customer: Id): (cs: seq<CreditMove>)
    ensures |cs| == |CreditTenders(c.tenders)|
    ensures forall i :: 0 <= i < |cs| ==> cs[i] == ChargeMove(customer, c.shop, bill, CreditTenders(c.tenders)[i].amount)
  {
    var ts := CreditTenders(c.tenders);
    seq(|ts|, i requires 0 <= i < |ts| => ChargeMove(customer, c.shop, bill, ts[i].amount))
  }

  function CheckoutPlan(bill: Id, c: Cart): Plan {
    Plan(PriceChecks(c.shop, c.lines),
         SaleMoves(c, SortLines(BillLines(c.lines))),
         Insertions(bill, c),
         if c.customer.Some? then ChargeMoves(bill, c, c.customer.value) else [])
  }

  function RestoreMove(bill: Id, core: BillCore, actor: Id, p: Id): Move {
    Move(core.shop, Some(core.cashier), p, LineQty(core.lines, p), IN, Cancelled(bill), Some(actor), true)
  }

  function RestoreMoves(bill: Id, core: BillCore, actor: Id, ids: seq<Id>): (ms: seq<Move>)
    ensures |ms| == |ids| && forall i :: 0 <= i < |ids| ==> ms[i] == RestoreMove(bill, core, actor, ids[i])
  {
    seq(|ids|, i requires 0 <= i < |ids| => RestoreMove(bill, core, actor, ids[i]))
  }

  function RefundMoves(bill: Id, core: BillCore): seq<CreditMove> {
    if core.charges != [] && Sum(core.charges) > 0 && core.customer.Some?
    then [RefundMove(core.customer.value, bill, Sum(core.charges))] else []
  }

  function CancelPlan(bill: Id, core: BillCore, actor: Id): Plan {
    Plan([Write(BillRow(bill), Claim)], RestoreMoves(bill, core, actor, ProductsOf(core.lines)), [],
         RefundMoves(bill, core))
  }

  function ItemMove(shop: Id, cashier: Option<Id>, it: Item, inward: bool, cause: Cause, actor: Id): Move
    requires it.product.Some?
  {
    Move(shop, cashier, it.product.value, if inward then it.quantity else -it.quantity,
         if inward then IN else OUT, cause, Some(actor), false)
  }

  /** Purchase-only items (no product) move no stock. */
  function ItemMoves(shop: Id, cashier: Option<Id>, items: seq<Item>, inward: bool, cause: Cause, actor: Id): (ms: seq<Move>) {
    if items == [] then []
    else ItemMoves(shop, cashier, items[..|items| - 1], inward, cause, actor) +
         if items[|items| - 1].product.Some? then [ItemMove(shop, cashier, items[|items| - 1], inward, cause, actor)] else []
  }

  function ReceivePlan(purchase: Id, shop: Id, cashier: Option<Id>, items: seq<Item>, actor: Id): Plan {
    Plan([Write(Purchase(purchase), InsertPurchase(shop, items))],
         ItemMoves(shop, cashier, items, true, Received(purchase), actor), [], [])
  }

  function ReversePlan(purchase: Id, shop: Id, cashier: Option<Id>, items: seq<Item>, actor: Id): Plan {
    Plan([Write(Purchase(purchase), MarkReversed)],
         ItemMoves(shop, cashier, items, false, Reversed(purchase), actor), [], [])
  }

  predicate ValidCart(c: Cart) {
    && c.lines != []
    && (forall i :: 0 <= i < |c.lines| ==> c.lines[i].quantity > 0)
    && (forall i :: 0 <= i < |c.tenders| ==> c.tenders[i].amount > 0.0)
    && (CreditTenders(c.tenders) != [] ==> c.customer.Some?)
  }

  /** The row a handler reads before it starts writing, when its statements depend on one. */
  function Subject(q: Request): Option<Row> {
    match q
    case Cancel(bill, _) => Some(BillRow(bill))
    case ReversePurchase(id, _, _) => Some(Purchase(id))
    case _ => None
  }

  /** The transaction a request starts, given its subject row; None when it is refused outright. */
  function PlanOf(subject: Value, q: Request): Option<Plan> {
    match q
    case Checkout(bill, c) => if ValidCart(c) then Some(CheckoutPlan(bill, c)) else None
    case Cancel(bill, actor) =>
      if subject.BillV? then Some(CancelPlan(bill, subject.core, actor)) else None
    case Receive(id, shop, cashier, items, actor) =>
      if forall i :: 0 <= i < |items| ==> items[i].quantity > 0
      then Some(ReceivePlan(id, shop, cashier, items, actor)) else None
    case ReversePurchase(id, cashier, actor) =>
      if subject.PurchaseV? && subject.received then Some(ReversePlan(id, subject.shop, cashier, subject.items, actor)) else None
    case Adjust(shop, cashier, p, delta, actor) =>
      Some(Plan([], [Move(shop, cashier, p, delta, ADJUSTMENT, Manual, Some(actor), false)], [], []))
    case SetAssignment(shop, p, listed) => Some(Plan([Write(Branch(shop, p), Assign(listed))], [], [], []))
    case SetPrice(shop, p, o) => Some(Plan([Write(Branch(shop, p), SetOverride(o))], [], [], []))
    case CollectCredit(customer, shop, amount) => Some(Plan([], [], [], [CollectMove(customer, shop, amount)]))
  }

  /** The plan a request gets in a given database. */
  function PlanIn(db: Db, q: Request): Option<Plan> {
    PlanOf(if Subject(q).Some? then Get(db, Subject(q).value) else Absent, q)
  }

  // ------------------------------------------------------ facts about sorting

  lemma {:induction false} InsertLineFacts(ls: seq<Line>, l: Line)
    requires SortedLines(ls)
    ensures SortedLines(InsertLine(ls, l))
    ensures multiset(InsertLine(ls, l)) == multiset(ls) + multiset{l}
    decreases |ls|
  {
    if ls == [] {
    } else if LineLeq(ls[|ls| - 1], l) {
      var r := ls + [l];
      forall i, j | 0 <= i < j < |r| ensures LineLeq(r[i], r[j]) {
        if j == |ls| && i < |ls| - 1 {
          LineLeqTransitive(ls[i], ls[|ls| - 1], l);
        }
      }
    } else {
      var last := ls[|ls| - 1];
      var front := ls[..|ls| - 1];
      InsertLineFacts(front, l);
      assert ls == front + [last];
      var f := InsertLine(front, l);
      forall x | x in f ensures LineLeq(x, last) {
        assert x in multiset(f);
        if x == l {
          LessAsymmetric(l.product, last.product);
        } else {
          assert x in multiset(front);
          assert x in front;
        }
      }
      var r := f + [last];
      forall i, j | 0 <= i < j < |r| ensures LineLeq(r[i], r[j]) {
        if j == |f| {
          assert f[i] in f;
        }
      }
    }
  }

  lemma {:induction false} LessAsymmetric(a: string, b: string)
    requires Less(a, b)
    ensures !Less(b, a)
  {
    if Less(b, a) {
      LessTransitive(a, b, a);
      LessIrreflexive(a);
    }
  }

  lemma {:induction false} LineLeqTransitive(a: Line, b: Line, c: Line)
    requires LineLeq(a, b) && LineLeq(b, c)
    ensures LineLeq(a, c)
  {
    if Less(c.product, a.product) {
      LessTotal(b.product, c.product);
      if Less(b.product, c.product) {
        LessTransitive(b.product, c.product, a.product);
      }
    }
  }

  lemma {:induction false} SortLinesFacts(ls: seq<Line>)
    ensures SortedLines(SortLines(ls))
    ensures multiset(SortLines(ls)) == multiset(ls)
    decreases |ls|
  {
    if ls != [] {
      SortLinesFacts(ls[..|ls| - 1]);
      InsertLineFacts(SortLines(ls[..|ls| - 1]), ls[|ls| - 1]);
      assert ls == ls[..|ls| - 1] + [ls[|ls| - 1]];
    }
  }

  lemma {:induction false} InsertLineQty(ls: seq<Line>, l: Line, p: Id)
    ensures LineQty(InsertLine(ls, l), p) == LineQty(ls, p) + if l.product == p then l.quantity else 0
    decreases |ls|
  {
    if ls == [] || LineLeq(ls[|ls| - 1], l) {
      assert (ls + [l])[..|ls|] == ls;
    } else {
      var f := InsertLine(ls[..|ls| - 1], l);
      InsertLineQty(ls[..|ls| - 1], l, p);
      assert (f + [ls[|ls| - 1]])[..|f|] == f;
    }
  }

  /** Deducting in sorted order deducts, per product, what the cart asks for. */
  lemma {:induction false} SortLinesQty(ls: seq<Line>, p: Id)
    ensures LineQty(SortLines(ls), p) == LineQty(ls, p)
    decreases |ls|
  {
    if ls != [] {
      SortLinesQty(ls[..|ls| - 1], p);
      InsertLineQty(SortLines(ls[..|ls| - 1]), ls[|ls| - 1], p);
    }
  }

  lemma {:induction false} InsertIdFacts(ids: seq<Id>, p: Id)
    requires Ascending(ids)
    ensures Ascending(InsertId(ids, p))
    ensures forall x :: x in InsertId(ids, p) <==> x in ids || x == p
    decreases |ids|
  {
    if ids == [] {
    } else if Less(ids[|ids| - 1], p) {
      var r := ids + [p];
      forall i, j | 0 <= i < j < |r| ensures Less(r[i], r[j]) {
        if j == |ids| && i < |ids| - 1 {
          LessTransitive(ids[i], ids[|ids| - 1], p);
        }
      }
    } else if ids[|ids| - 1] != p {
      var last := ids[|ids| - 1];
      var front := ids[..|ids| - 1];
      InsertIdFacts(front, p);
      assert ids == front + [last];
      LessTotal(p, last);
      var f := InsertId(front, p);
      var r := f + [last];
      forall i, j | 0 <= i < j < |r| ensures Less(r[i], r[j]) {
        if j == |f| {
          assert f[i] in f;
          if f[i] != p {
            var m :| 0 <= m < |front| && front[m] == f[i];
            assert Less(ids[m], ids[|ids| - 1]);
          }
        }
      }
    }
  }

  lemma {:induction false} ProductsOfFacts(ls: seq<Line>)
    ensures Ascending(ProductsOf(ls))
    ensures forall p :: p in ProductsOf(ls) <==> exists i :: 0 <= i < |ls| && ls[i].product == p
    decreases |ls|
  {
    if ls != [] {
      var front := ls[..|ls| - 1];
      ProductsOfFacts(front);
      InsertIdFacts(ProductsOf(front), ls[|ls| - 1].product);
      forall p ensures p in ProductsOf(ls) <==> exists i :: 0 <= i < |ls| && ls[i].product == p {
        if p in ProductsOf(front) {
          var i :| 0 <= i < |front| && front[i].product == p;
          assert ls[i].product == p;
        }
        if i :| 0 <= i < |ls| && ls[i].product == p {
          assert i == |front| || front[i].product == p;
        }
      }
    }
  }

  lemma {:induction false} NoLineNoQty(ls: seq<Line>, p: Id)
    requires forall i :: 0 <= i < |ls| ==> ls[i].product != p
    ensures LineQty(ls, p) == 0
    decreases |ls|
  {
    if ls != [] {
      NoLineNoQty(ls[..|ls| - 1], p);
    }
  }

  lemma {:induction false} LineQtyPositive(ls: seq<Line>, p: Id)
    requires forall i :: 0 <= i < |ls| ==> ls[i].quantity > 0
    ensures LineQty(ls, p) >= 0
    ensures (exists i :: 0 <= i < |ls| && ls[i].product == p) ==> LineQty(ls, p) > 0
    decreases |ls|
  {
    if ls != [] {
      var front := ls[..|ls| - 1];
      LineQtyPositive(front, p);
      if i :| 0 <= i < |ls| && ls[i].product == p {
        assert i == |front| || front[i].product == p;
      }
    }
  }
}
