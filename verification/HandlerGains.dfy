// What each handler's statements add to the totals.
module HandlerGains {
  import opened Wrappers
  import opened Ids
  import opened Money
  import opened Tables
  import opened Handlers
  import opened Totals

  // ------------------------------------------------------------------- moves

  function MoveGain(m: Measure, mv: Move): int {
    match m
    case BranchQty(s, p) => if mv.shop == s && mv.product == p then mv.delta else 0
    case AllQty(p) => if mv.product == p then mv.delta else 0
    case StockOf(p) => if mv.product == p then mv.delta else 0
    case Adjusted(s, p) => if mv.shop == s && mv.product == p && mv.kind == ADJUSTMENT then mv.delta else 0
    case RestoredQty(b, s, p) => if mv.shop == s && mv.product == p && mv.cause == Cancelled(b) then mv.delta else 0
    case _ => 0
  }

  function MovesGain(m: Measure, ms: seq<Move>): int {
    if ms == [] then 0 else MovesGain(m, ms[..|ms| - 1]) + MoveGain(m, ms[|ms| - 1])
  }

  lemma {:induction false} GainsOne(m: Measure, s: Stmt)
    ensures Gains(m, [s]) == Gain(m, s)
  {
    assert [s][..0] == [];
  }

  lemma {:induction false} CheckGain(m: Measure, s: Stmt)
    requires !s.Write?
    ensures Gain(m, s) == 0
  {
  }

  lemma {:induction false} BlockGain(mode: Mode, m: Measure, mv: Move)
    requires Keyed(mode, mv)
    ensures Gains(m, Block(mode, mv)) == MoveGain(m, mv)
  {
    hide Gains, LineQty, ItemQty, Sum;
    var b := Block(mode, mv);
    GainsOne(m, b[0]);
    if mv.delta == 0 {
      assert b == [b[0]];
    } else {
      GainsFive(m, b);
    }
  }

  lemma {:induction false} GainsSnoc(m: Measure, p: seq<Stmt>, s: Stmt)
    ensures Gains(m, p + [s]) == Gains(m, p) + Gain(m, s)
  {
    assert (p + [s])[..|p|] == p;
  }

  lemma {:induction false} MovesGainSnoc(m: Measure, ms: seq<Move>, mv: Move)
    ensures MovesGain(m, ms + [mv]) == MovesGain(m, ms) + MoveGain(m, mv)
  {
    assert (ms + [mv])[..|ms|] == ms;
  }

  lemma {:induction false} CreditsGainSnoc(m: Measure, cs: seq<CreditMove>, c: CreditMove)
    ensures CreditsGain(m, cs + [c]) == CreditsGain(m, cs) + CreditGain(m, c)
  {
    assert (cs + [c])[..|cs|] == cs;
  }

  lemma {:induction false} GainsFive(m: Measure, p: seq<Stmt>)
    requires |p| == 5
    ensures Gains(m, p) == Gain(m, p[0]) + Gain(m, p[1]) + Gain(m, p[2]) + Gain(m, p[3]) + Gain(m, p[4])
  {
    GainsOne(m, p[0]);
    GainsSnoc(m, [p[0]], p[1]);
    GainsSnoc(m, [p[0]] + [p[1]], p[2]);
    GainsSnoc(m, [p[0]] + [p[1]] + [p[2]], p[3]);
    GainsSnoc(m, [p[0]] + [p[1]] + [p[2]] + [p[3]], p[4]);
    assert p == [p[0]] + [p[1]] + [p[2]] + [p[3]] + [p[4]];
  }

  lemma {:induction false} BlocksGain(mode: Mode, m: Measure, ms: seq<Move>)
    requires forall i | 0 <= i < |ms| :: Keyed(mode, ms[i])
    ensures Gains(m, Blocks(mode, ms)) == MovesGain(m, ms)
    decreases |ms|
  {
    if ms != [] {
      var front := ms[..|ms| - 1];
      BlocksGain(mode, m, front);
      BlockGain(mode, m, ms[|ms| - 1]);
      GainsConcat(m, Blocks(mode, front), Block(mode, ms[|ms| - 1]));
    }
  }

  /** Every movement raises the stock rows and the aggregate alike. */
  lemma {:induction false} MovesAggregate(ms: seq<Move>, p: Id)
    ensures MovesGain(AllQty(p), ms) == MovesGain(StockOf(p), ms)
    decreases |ms|
  {
    if ms != [] {
      MovesAggregate(ms[..|ms| - 1], p);
    }
  }

  /** A basic measure of stock or of a cause, on moves that all share branch, kind and cause. */
  lemma {:induction false} SaleMovesGain(c: Cart, ls: seq<Line>, s: Id, p: Id, b: Id)
    ensures MovesGain(BranchQty(s, p), SaleMoves(c, ls)) == if c.shop == s then -LineQty(ls, p) else 0
    ensures MovesGain(Adjusted(s, p), SaleMoves(c, ls)) == 0
    ensures MovesGain(RestoredQty(b, s, p), SaleMoves(c, ls)) == 0
    decreases |ls|
  {
    if ls != [] {
      SaleMovesGain(c, ls[..|ls| - 1], s, p, b);
      assert SaleMoves(c, ls)[..|ls| - 1] == SaleMoves(c, ls[..|ls| - 1]);
    }
  }

  lemma {:induction false} ItemMovesGain(shop: Id, cashier: Option<Id>, items: seq<Item>, inward: bool, cause: Cause,
                                         actor: Id, s: Id, p: Id, b: Id)
    requires !cause.Cancelled?
    ensures var ms := ItemMoves(shop, cashier, items, inward, cause, actor);
            && MovesGain(BranchQty(s, p), ms) == (if shop != s then 0 else if inward then ItemQty(items, p) else -ItemQty(items, p))
            && MovesGain(Adjusted(s, p), ms) == 0
            && MovesGain(RestoredQty(b, s, p), ms) == 0
    decreases |items|
  {
    hide MovesGain, MoveGain;
    if items == [] {
      NoMovesGain();
    } else {
      var front := items[..|items| - 1];
      var it := items[|items| - 1];
      ItemMovesGain(shop, cashier, front, inward, cause, actor, s, p, b);
      var ms := ItemMoves(shop, cashier, items, inward, cause, actor);
      var before := ItemMoves(shop, cashier, front, inward, cause, actor);
      if it.product.Some? {
        var mv := ItemMove(shop, cashier, it, inward, cause, actor);
        assert ms == before + [mv];
        MovesGainSnoc(BranchQty(s, p), before, mv);
        MovesGainSnoc(Adjusted(s, p), before, mv);
        MovesGainSnoc(RestoredQty(b, s, p), before, mv);
        ItemGain(shop, cashier, it, inward, cause, actor, s, p, b);
      } else {
        assert ms == before;
      }
    }
  }

  lemma {:induction false} NoMovesGain()
    ensures forall m :: MovesGain(m, []) == 0
  {
  }

  lemma {:induction false} ItemGain(shop: Id, cashier: Option<Id>, it: Item, inward: bool, cause: Cause,
                                    actor: Id, s: Id, p: Id, b: Id)
    requires it.product.Some? && !cause.Cancelled?
    ensures var mv := ItemMove(shop, cashier, it, inward, cause, actor);
            && MoveGain(BranchQty(s, p), mv) ==
               (if shop != s || it.product != Some(p) then 0 else if inward then it.quantity else -it.quantity)
            && MoveGain(Adjusted(s, p), mv) == 0 && MoveGain(RestoredQty(b, s, p), mv) == 0
  {
  }

  function Amount(core: BillCore, ids: seq<Id>, p: Id): int { if p in ids then LineQty(core.lines, p) else 0 }

  /** Merged and sorted restoration gives each product back exactly once. */
  lemma {:induction false} RestoreMovesGain(bill: Id, core: BillCore, actor: Id, ids: seq<Id>, s: Id, p: Id, b: Id)
    requires Ascending(ids)
    ensures var ms := RestoreMoves(bill, core, actor, ids);
            && MovesGain(BranchQty(s, p), ms) == (if core.shop == s then Amount(core, ids, p) else 0)
            && MovesGain(Adjusted(s, p), ms) == 0
            && MovesGain(RestoredQty(b, s, p), ms) == (if core.shop == s && b == bill then Amount(core, ids, p) else 0)
    decreases |ids|
  {
    hide LineQty, MovesGain;
    if ids == [] {
      NoMovesGain();
    } else {
      var front := ids[..|ids| - 1];
      var last := ids[|ids| - 1];
      assert ids == front + [last];
      LastIsNew(front, last);
      hide Ascending;
      RestoreMovesGain(bill, core, actor, front, s, p, b);
      var before, mv := RestoreMoves(bill, core, actor, front), RestoreMove(bill, core, actor, last);
      assert RestoreMoves(bill, core, actor, ids) == before + [mv];
      MovesGainSnoc(BranchQty(s, p), before, mv);
      MovesGainSnoc(Adjusted(s, p), before, mv);
      MovesGainSnoc(RestoredQty(b, s, p), before, mv);
    }
  }

  lemma {:induction false} LastIsNew(ids: seq<Id>, last: Id)
    requires Ascending(ids + [last])
    ensures Ascending(ids) && last !in ids
  {
    var all := ids + [last];
    forall i | 0 <= i < |ids| ensures ids[i] != last {
      assert Less(all[i], all[|ids|]);
      LessIrreflexive(last);
    }
    forall i, j | 0 <= i < j < |ids| ensures Less(ids[i], ids[j]) {
      assert Less(all[i], all[j]);
    }
  }

  lemma {:induction false} RestoreAll(bill: Id, core: BillCore, actor: Id, s: Id, p: Id, b: Id)
    ensures var ms := RestoreMoves(bill, core, actor, ProductsOf(core.lines));
            && MovesGain(BranchQty(s, p), ms) == (if core.shop == s then LineQty(core.lines, p) else 0)
            && MovesGain(Adjusted(s, p), ms) == 0
            && MovesGain(RestoredQty(b, s, p), ms) == (if core.shop == s && b == bill then LineQty(core.lines, p) else 0)
  {
    ProductsOfFacts(core.lines);
    RestoreMovesGain(bill, core, actor, ProductsOf(core.lines), s, p, b);
    if p !in ProductsOf(core.lines) {
      NoLineNoQty(core.lines, p);
    }
  }

  // ------------------------------------------------------------------- credit

  function CreditGain(m: Measure, c: CreditMove): int {
    match m
    case Refunded(b) => if c.RefundMove? && c.bill == b then c.paise else 0
    case Charged(b) => if c.ChargeMove? && c.bill == b then Paise(c.amount) else 0
    case _ => 0
  }

  function CreditsGain(m: Measure, cs: seq<CreditMove>): int {
    if cs == [] then 0 else CreditsGain(m, cs[..|cs| - 1]) + CreditGain(m, cs[|cs| - 1])
  }

  lemma {:induction false} CreditBlockGain(m: Measure, c: CreditMove)
    ensures Gains(m, CreditBlock(c)) == CreditGain(m, c)
  {
    hide Gains, LineQty, ItemQty, Sum;
    var p := CreditBlock(c);
    GainsOne(m, p[0]);
    GainsSnoc(m, [p[0]], p[1]);
    assert p == [p[0]] + [p[1]];
  }

  lemma {:induction false} CreditBlocksGain(m: Measure, cs: seq<CreditMove>)
    ensures Gains(m, CreditBlocks(cs)) == CreditsGain(m, cs)
    decreases |cs|
  {
    if cs != [] {
      CreditBlocksGain(m, cs[..|cs| - 1]);
      CreditBlockGain(m, cs[|cs| - 1]);
      GainsConcat(m, CreditBlocks(cs[..|cs| - 1]), CreditBlock(cs[|cs| - 1]));
    }
  }

  lemma {:induction false} ChargeMovesGain(cs: seq<CreditMove>, ts: seq<Tender>, customer: Id, shop: Id, bill: Id, b: Id)
    requires |cs| == |ts| && forall i :: 0 <= i < |cs| ==> cs[i] == ChargeMove(customer, shop, bill, ts[i].amount)
    ensures CreditsGain(Charged(b), cs) == if b == bill then Sum(PaiseOf(ts)) else 0
    ensures CreditsGain(Refunded(b), cs) == 0
    decreases |cs|
  {
    if cs != [] {
      ChargeMovesGain(cs[..|cs| - 1], ts[..|ts| - 1], customer, shop, bill, b);
      assert PaiseOf(ts)[..|ts| - 1] == PaiseOf(ts[..|ts| - 1]);
    }
  }

  // ----------------------------------------------------------------- programs

  predicate CreditMeasure(m: Measure) { m.Refunded? || m.Charged? }

  predicate StockMeasure(m: Measure) {
    m.BranchQty? || m.AllQty? || m.StockOf? || m.Adjusted? || m.RestoredQty?
  }

  lemma {:induction false} MovesNoCredit(m: Measure, ms: seq<Move>)
    requires !StockMeasure(m)
    ensures MovesGain(m, ms) == 0
    decreases |ms|
  {
    if ms != [] {
      MovesNoCredit(m, ms[..|ms| - 1]);
    }
  }

  lemma {:induction false} CreditsNoStock(m: Measure, cs: seq<CreditMove>)
    requires !CreditMeasure(m)
    ensures CreditsGain(m, cs) == 0
    decreases |cs|
  {
    if cs != [] {
      CreditsNoStock(m, cs[..|cs| - 1]);
    }
  }

  lemma {:induction false} ChecksGain(m: Measure, p: seq<Stmt>)
    requires forall i | 0 <= i < |p| :: p[i].Check?
    ensures Gains(m, p) == 0
    decreases |p|
  {
    if p != [] {
      ChecksGain(m, p[..|p| - 1]);
      CheckGain(m, p[|p| - 1]);
    }
  }

  lemma {:induction false} InsertionsGain(m: Measure, bill: Id, c: Cart)
    ensures Gains(m, Insertions(bill, c)) ==
            match m
            case SoldQty(s, p) => if c.shop == s then LineQty(BillLines(c.lines), p) else 0
            case BillCharges(b) => if b == bill then Sum(CoreOf(c).charges) else 0
            case _ => 0
  {
    var p := Insertions(bill, c);
    var x := [Write(BillRow(bill), InsertBill(CoreOf(c)))];
    var front := p[..|p| - 1];
    assert p == front + x;
    assert p[..1] == [p[0]];
    GainsOne(m, p[0]);
    GainsOne(m, x[0]);
    GainsConcat(m, front, x);
    if c.token.Some? {
      assert front[..1] == [p[0]];
    } else {
      assert front == [p[0]];
    }
  }
}
