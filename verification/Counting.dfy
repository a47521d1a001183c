// Counting the rows of a table that satisfy a condition.
module Counting {
  function Count<T>(rows: seq<T>, p: T -> bool): nat {
    if rows == [] then 0 else Count(rows[..|rows| - 1], p) + if p(rows[|rows| - 1]) then 1 else 0
  }

  lemma {:induction false} CountUpdate<T>(rows: seq<T>, i: nat, r: T, p: T -> bool)
    requires i < |rows|
    ensures Count(rows[i := r], p) == Count(rows, p) - (if p(rows[i]) then 1 else 0) + (if p(r) then 1 else 0)
    decreases |rows|
  {
    var front, new_ := rows[..|rows| - 1], rows[i := r];
    if i == |rows| - 1 {
      assert new_[..|rows| - 1] == front;
    } else {
      assert new_[..|rows| - 1] == front[i := r];
      CountUpdate(front, i, r, p);
    }
  }

  lemma {:induction false} CountConcat<T>(a: seq<T>, b: seq<T>, p: T -> bool)
    ensures Count(a + b, p) == Count(a, p) + Count(b, p)
    decreases |b|
  {
    if b == [] {
      assert a + b == a;
    } else {
      CountConcat(a, b[..|b| - 1], p);
      assert (a + b)[..|a + b| - 1] == a + b[..|b| - 1];
    }
  }

  lemma {:induction false} CountSame<T>(a: seq<T>, b: seq<T>, p: T -> bool)
    requires |a| == |b| && forall i | 0 <= i < |a| :: p(a[i]) == p(b[i])
    ensures Count(a, p) == Count(b, p)
    decreases |a|
  {
    if a != [] {
      CountSame(a[..|a| - 1], b[..|b| - 1], p);
    }
  }

  lemma {:induction false} CountNone<T>(rows: seq<T>, p: T -> bool)
    requires forall i | 0 <= i < |rows| :: !p(rows[i])
    ensures Count(rows, p) == 0
    decreases |rows|
  {
    if rows != [] {
      CountNone(rows[..|rows| - 1], p);
    }
  }

  lemma {:induction false} CountOne<T>(r: T, p: T -> bool)
    ensures Count([r], p) == if p(r) then 1 else 0
  {
    assert [r][..0] == [];
  }

  lemma {:induction false} CountAtMost<T>(rows: seq<T>, p: T -> bool)
    ensures Count(rows, p) <= |rows|
    decreases |rows|
  {
    if rows != [] {
      CountAtMost(rows[..|rows| - 1], p);
    }
  }
}
