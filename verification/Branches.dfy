// Consequences of the run invariants that need a fixed inventory mode or the
// formatted bill number: one stock row per branch and product, and bill
// numbers that are unique across every shop.
module Branches {
  import opened Wrappers
  import opened Ids
  import opened Tables
  import opened Handlers
  import opened Engine
  import opened Runs
  import opened Totals
  import opened Conservation
  import opened Journals
  import opened BillNumbers
  import opened Guarantees

  /** No cashier owns stock: the BRANCH mode's tables. */
  ghost predicate BranchOwned(db: Db) {
    forall k: Key :: k.owner.Some? ==> Get(db, Inventory(k)) == Absent
  }

  lemma {:induction false} BranchBlocksRows(ms: seq<Move>, k: Key)
    requires k.owner.Some?
    ensures Inventory(k) !in Written(Blocks(BRANCH, ms))
    decreases |ms|
  {
    if ms != [] {
      BranchBlocksRows(ms[..|ms| - 1], k);
      BlockRows(BRANCH, ms[|ms| - 1]);
      WrittenConcat(Blocks(BRANCH, ms[..|ms| - 1]), Block(BRANCH, ms[|ms| - 1]));
    }
  }

  lemma {:induction false} BranchOwnedKept(db: Db, q: Request)
    requires PlanIn(db, q).Some? && Run(false, Program(BRANCH, PlanIn(db, q).value), db).Ok?
    requires BranchOwned(db)
    ensures BranchOwned(Run(false, Program(BRANCH, PlanIn(db, q).value), db).value.0)
  {
    var subject := if Subject(q).Some? then Get(db, Subject(q).value) else Absent;
    var p := PlanIn(db, q).value;
    ProgramRows(BRANCH, p);
    PrePostRows(subject, q);
    OwnRowsPlain(q);
    CreditRows(p.credits);
    forall k: Key | k.owner.Some?
      ensures Get(Run(false, Program(BRANCH, p), db).value.0, Inventory(k)) == Absent
    {
      BranchBlocksRows(p.moves, k);
      Untouched(false, Program(BRANCH, p), db, NO_LOCALS, Inventory(k));
    }
  }

  lemma {:induction false} EveryRunBranchOwned(db: Db, es: seq<Event>)
    requires Canonical(db) && BranchOwned(db) && Steps(BRANCH, Start(db), es).Some?
    ensures Replay(db, Steps(BRANCH, Start(db), es).value.history).Ok?
    ensures BranchOwned(BaseOf(db, Steps(BRANCH, Start(db), es).value))
    decreases |es|
  {
    StepsRunOk(BRANCH, db, es);
    if es != [] {
      var front := es[..|es| - 1];
      EveryRunBranchOwned(db, front);
      StepsRunOk(BRANCH, db, front);
      var m := Steps(BRANCH, Start(db), front).value;
      var e := es[|es| - 1];
      NextHistory(BRANCH, db, m, e);
      if e.Commit? {
        NextTxs(BRANCH, m, e);
        NextRunOk(BRANCH, m, e, BaseOf(db, m));
        assert Planned(BRANCH, BaseOf(db, m), m.txs[e.t].request, m.txs[e.t].program);
        BranchOwnedKept(BaseOf(db, m), m.txs[e.t].request);
      }
    }
  }

  lemma {:induction false} OneRow(db: Db, shop: Id, product: Id)
    requires BranchOwned(db)
    ensures Total(BranchQty(shop, product), db) == Quantity(db, Key(shop, None, product))
  {
    var r := Inventory(Key(shop, None, product));
    if r in db {
      TotalSplit(BranchQty(shop, product), db, r);
      RestEmpty(db - {r}, shop, product);
    } else {
      RestEmpty(db, shop, product);
    }
  }

  lemma {:induction false} RestEmpty(db: Db, shop: Id, product: Id)
    requires Inventory(Key(shop, None, product)) !in db
    requires forall k: Key :: k.owner.Some? ==> Get(db, Inventory(k)) == Absent
    ensures Total(BranchQty(shop, product), db) == 0
    decreases |db|
  {
    if db != map[] {
      var x :| x in db;
      TotalSplit(BranchQty(shop, product), db, x);
      if x.Inventory? && x.key.owner.Some? {
        assert Get(db, x) == Absent;
      }
      var rest := db - {x};
      assert forall k: Key :: Inventory(k) in rest ==> Get(rest, Inventory(k)) == Get(db, Inventory(k));
      RestEmpty(rest, shop, product);
    }
  }

  /**
   * In BRANCH mode, after any run, the one stock row of a branch and product
   * is never negative and holds exactly its adjustments plus its unreversed
   * purchases minus the lines of its PAID bills.
   */
  lemma {:induction false} BranchRowAccounts(db: Db, es: seq<Event>, shop: Id, product: Id)
    requires Canonical(db) && Good(db) && BranchOwned(db) && Steps(BRANCH, Start(db), es).Some?
    ensures Replay(db, Steps(BRANCH, Start(db), es).value.history).Ok?
    ensures var now := BaseOf(db, Steps(BRANCH, Start(db), es).value);
            0 <= Quantity(now, Key(shop, None, product)) ==
            Total(Adjusted(shop, product), now) + Total(ReceivedQty(shop, product), now) - Total(SoldQty(shop, product), now)
  {
    StockAccounts(BRANCH, db, es, shop, product, None);
    EveryRunBranchOwned(db, es);
    OneRow(BaseOf(db, Steps(BRANCH, Start(db), es).value), shop, product);
  }

  /** No two numbered bills, of any shops and years, ever carry the same formatted number. */
  lemma {:induction false} BillNumbersUnique(mode: Mode, db: Db, es: seq<Event>, codes: map<Id, string>, b: Id, b': Id)
    requires Canonical(db) && Good(db) && Steps(mode, Start(db), es).Some?
    requires forall s, s' | s in codes && s' in codes && codes[s] == codes[s'] :: s == s'
    ensures Replay(db, Steps(mode, Start(db), es).value.history).Ok?
    ensures var now := BaseOf(db, Steps(mode, Start(db), es).value);
            var v, v' := Get(now, BillRow(b)), Get(now, BillRow(b'));
            v.BillV? && v'.BillV? && v.status != HELD && v'.status != HELD && b != b'
            && v.core.shop in codes && v'.core.shop in codes && v.core.year >= 0 && v'.core.year >= 0
            ==> SeqOf(now, b) > 0 && SeqOf(now, b') > 0
                && BillNumber(codes[v.core.shop], v.core.year, SeqOf(now, b)) !=
                   BillNumber(codes[v'.core.shop], v'.core.year, SeqOf(now, b'))
  {
    EveryRunGood(mode, db, es);
    DistinctNumbers(BaseOf(db, Steps(mode, Start(db), es).value), codes, b, b');
  }

  lemma {:induction false} DistinctNumbers(now: Db, codes: map<Id, string>, b: Id, b': Id)
    requires AllNumbersOk(now)
    requires forall s, s' | s in codes && s' in codes && codes[s] == codes[s'] :: s == s'
    ensures var v, v' := Get(now, BillRow(b)), Get(now, BillRow(b'));
            v.BillV? && v'.BillV? && v.status != HELD && v'.status != HELD && b != b'
            && v.core.shop in codes && v'.core.shop in codes && v.core.year >= 0 && v'.core.year >= 0
            ==> SeqOf(now, b) > 0 && SeqOf(now, b') > 0
                && BillNumber(codes[v.core.shop], v.core.year, SeqOf(now, b)) !=
                   BillNumber(codes[v'.core.shop], v'.core.year, SeqOf(now, b'))
  {
    var v, v' := Get(now, BillRow(b)), Get(now, BillRow(b'));
    if v.BillV? && v'.BillV? && v.status != HELD && v'.status != HELD && b != b'
       && v.core.shop in codes && v'.core.shop in codes && v.core.year >= 0 && v'.core.year >= 0 {
      var s, s', y, y' := v.core.shop, v'.core.shop, v.core.year, v'.core.year;
      assert NumbersOk(now, s, y) && NumbersOk(now, s', y');
      assert Numbered(now, b, s, y) && Numbered(now, b', s', y');
      var n, n' := SeqOf(now, b), SeqOf(now, b');
      if BillNumber(codes[s], y, n) == BillNumber(codes[s'], y', n') {
        BillNumberInjective(codes[s], y, n, codes[s'], y', n');
      }
    }
  }
}
