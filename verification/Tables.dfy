// The database: rows, the statements the handlers issue, and what one
// transaction does to the rows when it runs alone.
module Tables {
  import opened Wrappers
  import opened Ids
  import opened Money

  // ---------------------------------------------------------------- rows

  /** A stock row: BranchInventory when `owner` is None, CashierInventory otherwise. */
  datatype Key = Key(shop: Id, owner: Option<Id>, product: Id)

  datatype Row =
    | BillRow(bill: Id)
    | Inventory(key: Key)
    | Product(product: Id)
    | Log(key: Key)                        // the InventoryMovement rows of one stock row, in insertion order
    | Counter(shop: Id, year: int)
    | IdemKey(shop: Id, token: string)     // Bill's unique (shopId, idempotencyKey)
    | Customer(customer: Id)
    | Ledger(customer: Id)                 // the CreditTransaction rows of one customer, in insertion order
    | Purchase(purchase: Id)
    | Branch(shop: Id, product: Id)        // BranchProduct
    | Session(shop: Id, cashier: Id)

  datatype MoveType = IN | OUT | ADJUSTMENT
  datatype Cause = Sale | Cancelled(bill: Id) | Received(purchase: Id) | Reversed(purchase: Id) | Manual
  datatype Movement = Movement(kind: MoveType, quantity: int, previousStock: int, newStock: int,
                               cause: Cause, cashier: Option<Id>, actor: Option<Id>)

  datatype Line = Line(product: Id, quantity: int, unitPrice: int, lineTotal: int)
  datatype StoredPayment = StoredPayment(tender: string, amount: int)
  datatype BillStatus = HELD | PAID | CANCELLED

  /** Everything about a bill that no handler edits; `charges` are its CHARGE CreditTransaction rows. */
  datatype BillCore = BillCore(shop: Id, cashier: Id, customer: Option<Id>, year: int, seq_: int,
                               lines: seq<Line>, grandTotal: int, payments: seq<StoredPayment>,
                               charges: seq<int>, token: Option<string>)

  datatype TxnKind = CHARGE | COLLECTION | REVERSAL
  datatype CreditTxn = CreditTxn(kind: TxnKind, amount: int, bill: Option<Id>)
  datatype Item = Item(product: Option<Id>, quantity: int)

  datatype Value =
    | Absent
    | Num(n: int)
    | BillV(core: BillCore, status: BillStatus)
    | ProductV(stock: int, sellingPrice: int, active: bool)
    | LogV(entries: seq<Movement>)
    | KeyV(bill: Id)
    | CustomerV(shop: Id, cashier: Option<Id>, balance: int)
    | LedgerV(txns: seq<CreditTxn>)
    | PurchaseV(shop: Id, items: seq<Item>, received: bool, reversed: bool)   // received: its status is RECEIVED
    | BranchV(isAssigned: bool, priceOverride: Option<int>)
    | SessionV(open: bool)

  /** Rows that are absent are not in the map, so equal databases are equal maps. */
  type Db = map<Row, Value>

  ghost predicate Canonical(db: Db) { forall r | r in db :: db[r] != Absent }

  function Get(db: Db, r: Row): Value { if r in db then db[r] else Absent }

  function Put(db: Db, r: Row, v: Value): (d: Db)
    ensures forall x :: Get(d, x) == if x == r then v else Get(db, x)
    ensures Canonical(db) ==> Canonical(d)
  {
    if v == Absent then db - {r} else db[r := v]
  }

  function Entries(v: Value): seq<Movement> { if v.LogV? then v.entries else [] }
  function Txns(v: Value): seq<CreditTxn> { if v.LedgerV? then v.txns else [] }
  function Quantity(db: Db, k: Key): int {
    var v := Get(db, Inventory(k)); if v.Num? then v.n else 0
  }

  // ---------------------------------------------------------- statements

  datatype Error =
    | ProductNotFound | InsufficientStock | OutOfStock | SelectCashier | RecordNotFound
    | BillNotFound | AlreadyCancelled | NotCancellable | CancelReasonRequired | ReversalExceedsBalance
    | CustomerNotFound | AmountExceedsBalance | InvalidAmount | UniqueViolation
    | PurchaseNotFound | AlreadyReversed | NotReversible | ReversalBlocked | PriceChanged
    | InvalidBody | ShopNotFound | CashierNotInShop
    | EmptyBill | NoPayments | NoActiveSession | InvalidQuantity | ProductInactive
    | UnsupportedMethod | PaymentMismatch | CustomerRequired

  /** One UPDATE or INSERT, run under the row lock it takes. */
  datatype Op =
    | Ensure                                      // INSERT quantity 0 ON CONFLICT DO NOTHING
    | Take(n: int)                                // UPDATE quantity - n WHERE quantity >= n
    | Give(n: int)                                // UPDATE quantity + n
    | AddStock(delta: int)                        // UPDATE products SET stock = stock + delta
    | Record(kind: MoveType, delta: int, cause: Cause, cashier: Option<Id>, actor: Option<Id>)
    | NextSeq                                     // INSERT 1 ON CONFLICT DO UPDATE seq + 1 RETURNING seq
    | InsertKey(bill: Id)
    | InsertBill(core: BillCore)
    | Claim                                       // UPDATE status = CANCELLED WHERE status = PAID
    | Charge(shop: Id, amount: real)
    | Refund(paise: int)                          // UPDATE creditBalance - n WHERE creditBalance >= n
    | Collect(shop: Id, amount: real)
    | Post(txn: CreditTxn)
    | InsertPurchase(shop: Id, items: seq<Item>)
    | MarkReversed                                // INSERT into purchase_reversals, unique on the purchase
    | Assign(listed: bool)
    | SetOverride(priceOverride: Option<int>)

  datatype Stmt =
    | Check(row: Row, cond: Cond)                 // a plain SELECT: takes no lock
    | Write(row: Row, op: Op)
    | Fail(error: Error)

  datatype Cond = Listed(allowUnassigned: bool) | PriceIs(selling: int, unit: int)

  /** What a transaction has read back from its own updates. */
  datatype Locals = Locals(quantity: int, seq_: int)
  const NO_LOCALS := Locals(0, 0)

  function EffectivePrice(sellingPrice: int, priceOverride: Option<int>): int {
    Paise(Rupees(if priceOverride.Some? then priceOverride.value else sellingPrice))
  }

  function Holds(c: Cond, v: Value): Result<(), Error> {
    match c
    case Listed(allow) =>
      if v.BranchV? && (allow || v.isAssigned) then Ok(()) else Err(ProductNotFound)
    case PriceIs(selling, unit) =>
      if EffectivePrice(selling, if v.BranchV? then v.priceOverride else None) == unit then Ok(()) else Err(PriceChanged)
  }

  function Apply(op: Op, v: Value, l: Locals): Result<(Value, Locals), Error> {
    match op
    case Ensure => Ok((if v.Absent? then Num(0) else v, l))
    case Take(n) =>
      if v.Num? && v.n >= n then Ok((Num(v.n - n), l.(quantity := v.n - n))) else Err(InsufficientStock)
    case Give(n) =>
      if v.Num? then Ok((Num(v.n + n), l.(quantity := v.n + n))) else Err(RecordNotFound)
    case AddStock(d) =>
      if v.ProductV? then Ok((v.(stock := v.stock + d), l)) else Err(RecordNotFound)
    case Record(kind, d, cause, cashier, actor) =>
      if v.Absent? || v.LogV?
      then Ok((LogV(Entries(v) + [Movement(kind, d, l.quantity - d, l.quantity, cause, cashier, actor)]), l))
      else Err(RecordNotFound)
    case NextSeq =>
      var s := if v.Num? then v.n + 1 else 1;
      if v.Absent? || v.Num? then Ok((Num(s), l.(seq_ := s))) else Err(RecordNotFound)
    case InsertKey(bill) => if v.Absent? then Ok((KeyV(bill), l)) else Err(UniqueViolation)
    case InsertBill(core) =>
      if v.Absent? then Ok((BillV(core.(seq_ := l.seq_), PAID), l)) else Err(UniqueViolation)
    case Claim =>
      if v.BillV? && v.status == PAID then Ok((v.(status := CANCELLED), l)) else Err(AlreadyCancelled)
    case Charge(shop, a) =>
      if v.CustomerV? && v.shop == shop
      then Ok((v.(balance := Paise(Rupees(v.balance) + a)), l)) else Err(CustomerNotFound)
    case Refund(p) =>
      if v.CustomerV? && v.balance >= p
      then Ok((v.(balance := v.balance - p), l)) else Err(ReversalExceedsBalance)
    case Collect(shop, a) =>
      if !v.CustomerV? || v.shop != shop then Err(CustomerNotFound)
      else if a <= 0.0 then Err(InvalidAmount)
      else if Paise(a) > v.balance then Err(AmountExceedsBalance)
      else Ok((v.(balance := Paise(Rupees(v.balance) - a)), l))
    case Post(t) =>
      if v.Absent? || v.LedgerV? then Ok((LedgerV(Txns(v) + [t]), l)) else Err(RecordNotFound)
    case InsertPurchase(shop, items) =>
      if v.Absent? then Ok((PurchaseV(shop, items, true, false), l)) else Err(UniqueViolation)
    case MarkReversed =>
      if v.PurchaseV? && !v.reversed then Ok((v.(reversed := true), l)) else Err(AlreadyReversed)
    case Assign(b) =>
      if v.Absent? then Ok((BranchV(b, None), l))
      else if v.BranchV? then Ok((v.(isAssigned := b), l)) else Err(RecordNotFound)
    case SetOverride(p) =>
      if v.BranchV? then Ok((v.(priceOverride := p), l)) else Err(RecordNotFound)
  }

  // ---------------------------------------------------- running statements

  type Outcome = Result<(Db, Locals), Error>

  /** Plain reads are replayed only when `checks` is set. */
  function ExecStmt(checks: bool, s: Stmt, db: Db, l: Locals): Outcome {
    match s
    case Fail(e) => Err(e)
    case Check(r, c) =>
      if checks && Holds(c, Get(db, r)).Err? then Err(Holds(c, Get(db, r)).error) else Ok((db, l))
    case Write(r, op) =>
      match Apply(op, Get(db, r), l)
      case Err(e) => Err(e)
      case Ok((v, l')) => Ok((Put(db, r, v), l'))
  }

  function Exec(checks: bool, p: seq<Stmt>, db: Db, l: Locals): Outcome {
    if p == [] then Ok((db, l))
    else
      match Exec(checks, p[..|p| - 1], db, l)
      case Err(e) => Err(e)
      case Ok((d, l')) => ExecStmt(checks, p[|p| - 1], d, l')
  }

  /** The program as a whole: its statements in order from `db`. */
  function Run(checks: bool, p: seq<Stmt>, db: Db): Outcome { Exec(checks, p, db, NO_LOCALS) }

  ghost function Written(p: seq<Stmt>): set<Row> {
    set i | 0 <= i < |p| && p[i].Write? :: p[i].row
  }

  lemma {:induction false} ExecStep(checks: bool, p: seq<Stmt>, s: Stmt, db: Db, l: Locals)
    ensures Exec(checks, p + [s], db, l) ==
            match Exec(checks, p, db, l)
            case Err(e) => Err(e)
            case Ok((d, l')) => ExecStmt(checks, s, d, l')
  {
    assert (p + [s])[..|p|] == p;
  }

  lemma {:induction false} ExecConcat(checks: bool, a: seq<Stmt>, b: seq<Stmt>, db: Db, l: Locals)
    ensures Exec(checks, a + b, db, l) ==
            match Exec(checks, a, db, l)
            case Err(e) => Err(e)
            case Ok((d, l')) => Exec(checks, b, d, l')
    decreases |b|
  {
    if b == [] {
      assert a + b == a;
    } else {
      var b' := b[..|b| - 1];
      ExecConcat(checks, a, b', db, l);
      assert (a + b)[..|a + b| - 1] == a + b';
      assert (a + b)[|a + b| - 1] == b[|b| - 1];
    }
  }

  lemma {:induction false} ExecCanonical(checks: bool, p: seq<Stmt>, db: Db, l: Locals)
    requires Canonical(db)
    ensures Exec(checks, p, db, l).Ok? ==> Canonical(Exec(checks, p, db, l).value.0)
    decreases |p|
  {
    if p != [] {
      ExecCanonical(checks, p[..|p| - 1], db, l);
    }
  }

  /** A transaction that passes its reads changes exactly what its writes change. */
  lemma {:induction false} ChecksOnlyReject(p: seq<Stmt>, db: Db, l: Locals)
    requires Exec(true, p, db, l).Ok?
    ensures Exec(false, p, db, l) == Exec(true, p, db, l)
    decreases |p|
  {
    if p != [] {
      ChecksOnlyReject(p[..|p| - 1], db, l);
    }
  }

  lemma {:induction false} Untouched(checks: bool, p: seq<Stmt>, db: Db, l: Locals, r: Row)
    requires Exec(checks, p, db, l).Ok?
    requires r !in Written(p)
    ensures Get(Exec(checks, p, db, l).value.0, r) == Get(db, r)
    decreases |p|
  {
    if p != [] {
      var q := p[..|p| - 1];
      forall x | x in Written(q) ensures x in Written(p) {
        var i :| 0 <= i < |q| && q[i].Write? && q[i].row == x;
        assert p[i] == q[i];
      }
      Untouched(checks, q, db, l, r);
    }
  }

  ghost predicate AgreeOn(a: Db, b: Db, rows: set<Row>) {
    forall r | r in rows :: Get(a, r) == Get(b, r)
  }

  lemma {:induction false} WrittenPrefix(p: seq<Stmt>)
    requires p != []
    ensures Written(p[..|p| - 1]) <= Written(p)
    ensures Written(p) == Written(p[..|p| - 1]) + (if p[|p| - 1].Write? then {p[|p| - 1].row} else {})
  {
    var q := p[..|p| - 1];
    forall x | x in Written(q) ensures x in Written(p) {
      var i :| 0 <= i < |q| && q[i].Write? && q[i].row == x;
      assert p[i] == q[i];
    }
    forall x | x in Written(p)
      ensures x in Written(q) + (if p[|p| - 1].Write? then {p[|p| - 1].row} else {})
    {
      var i :| 0 <= i < |p| && p[i].Write? && p[i].row == x;
      if i < |q| {
        assert q[i] == p[i];
      }
    }
  }

  /** Writes depend only on the rows written: two databases that agree there are changed alike. */
  lemma {:induction false} ExecFrame(p: seq<Stmt>, a: Db, b: Db, l: Locals)
    requires AgreeOn(a, b, Written(p))
    requires Exec(false, p, a, l).Ok?
    ensures Exec(false, p, b, l).Ok?
    ensures Exec(false, p, b, l).value.1 == Exec(false, p, a, l).value.1
    ensures AgreeOn(Exec(false, p, a, l).value.0, Exec(false, p, b, l).value.0, Written(p))
    decreases |p|
  {
    if p != [] {
      var q := p[..|p| - 1];
      WrittenPrefix(p);
      ExecFrame(q, a, b, l);
      var s := p[|p| - 1];
      if s.Write? && s.row !in Written(q) {
        Untouched(false, q, a, l, s.row);
        Untouched(false, q, b, l, s.row);
      }
      forall r | r in Written(p)
        ensures Get(Exec(false, p, a, l).value.0, r) == Get(Exec(false, p, b, l).value.0, r)
      {
      }
    }
  }
}
