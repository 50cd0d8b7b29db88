// Stable sorting, seen through filters: elements that compare equal keep their order.
module Stability {
  import opened Ordering
  import opened Sorting
  import opened Bags

  lemma FilterOne<T>(x: T, keep: T -> bool)
    ensures Filter([x], keep) == (if keep(x) then [x] else [])
  {
    assert [x][..0] == [];
    assert Filter([x][..0], keep) == [];
  }

  lemma {:induction false} FilterAll<T>(s: seq<T>, keep: T -> bool)
    requires forall i :: 0 <= i < |s| ==> keep(s[i])
    ensures Filter(s, keep) == s
    decreases |s|
  {
    if s != [] { FilterAll(s[..|s| - 1], keep); }
  }

  lemma {:induction false} FilterNone<T>(s: seq<T>, keep: T -> bool)
    requires forall i :: 0 <= i < |s| ==> !keep(s[i])
    ensures Filter(s, keep) == []
    decreases |s|
  {
    if s != [] { FilterNone(s[..|s| - 1], keep); }
  }

  lemma FilterLast<T>(s: seq<T>, x: T, keep: T -> bool)
    ensures Filter(s + [x], keep) == Filter(s, keep) + (if keep(x) then [x] else [])
  {
    assert (s + [x])[..|s|] == s;
  }

  lemma {:induction false} FilterAppend<T>(a: seq<T>, b: seq<T>, keep: T -> bool)
    ensures Filter(a + b, keep) == Filter(a, keep) + Filter(b, keep)
    decreases |b|
  {
    if b == [] {
      assert a + b == a;
    } else {
      var n := |b| - 1;
      assert (a + b)[..|a + b| - 1] == a + b[..n];
      FilterAppend(a, b[..n], keep);
    }
  }

  lemma {:induction false} FilterFilter<T>(s: seq<T>, drop: T -> bool, keep: T -> bool)
    ensures (forall x :: x in s && keep(x) ==> drop(x)) ==> Filter(Filter(s, drop), keep) == Filter(s, keep)
    ensures (forall x :: x in s && keep(x) ==> !drop(x)) ==> Filter(Filter(s, drop), keep) == []
    decreases |s|
  {
    if s != [] {
      var n := |s| - 1;
      assert forall x :: x in s[..n] ==> x in s;
      FilterFilter(s[..n], drop, keep);
      FilterOne(s[n], keep);
      FilterAppend(Filter(s[..n], drop), [s[n]], keep);
      assert s[n] in s;
      assert Filter(s[..n], drop) + [] == Filter(s[..n], drop);
    }
  }

  lemma InsertedLast<T>(s: seq<T>, rest: seq<T>, x: T, keep: T -> bool)
    requires s != [] && !(keep(x) && keep(s[|s| - 1]))
    requires Filter(rest, keep) == Filter(s[..|s| - 1], keep) + (if keep(x) then [x] else [])
    ensures Filter(rest + [s[|s| - 1]], keep) == Filter(s, keep) + (if keep(x) then [x] else [])
  {
    FilterLast(rest, s[|s| - 1], keep);
  }

  lemma {:induction false} InsertKeepsClass<T(!new)>(s: seq<T>, x: T, le: (T, T) -> bool, keep: T -> bool)
    requires forall y :: keep(x) && keep(y) ==> le(y, x)
    ensures Filter(Insert(s, x, le), keep) == Filter(s, keep) + (if keep(x) then [x] else [])
    decreases |s|
  {
    if s == [] {
      FilterOne(x, keep);
    } else {
      var n := |s| - 1;
      FilterLast(s, x, keep);
      if !le(s[n], x) {
        InsertKeepsClass(s[..n], x, le, keep);
        InsertedLast(s, Insert(s[..n], x, le), x, keep);
      }
    }
  }

  /** Sorting does not reorder elements that compare equal. */
  lemma {:induction false} SortKeepsClass<T(!new)>(s: seq<T>, le: (T, T) -> bool, keep: T -> bool)
    requires forall x, y :: keep(x) && keep(y) ==> le(y, x)
    ensures Filter(Sort(s, le), keep) == Filter(s, keep)
    decreases |s|
  {
    if s != [] {
      var n := |s| - 1;
      SortKeepsClass(s[..n], le, keep);
      InsertKeepsClass(Sort(s[..n], le), s[n], le, keep);
    }
  }
}
