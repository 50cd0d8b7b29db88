// Rust's `sort_by` (stable), `dedup`, and the ordered iteration of a `BTreeSet`.
module Sorting {
  import opened Ordering

  ghost predicate Sorted<T>(s: seq<T>, le: (T, T) -> bool) {
    forall i, j :: 0 <= i < j < |s| ==> le(s[i], s[j])
  }

  /** Sorted without repetition: what `windows(2).all(|p| p[0] < p[1])` decides. */
  ghost predicate Strict<T>(s: seq<T>, le: (T, T) -> bool) {
    forall i, j :: 0 <= i < j < |s| ==> le(s[i], s[j]) && s[i] != s[j]
  }

  function Elements<T>(s: seq<T>): (r: set<T>) {
    set x | x in s
  }

  /** Insert behind every element that does not come strictly after `x`. */
  function Insert<T>(s: seq<T>, x: T, le: (T, T) -> bool): (r: seq<T>)
    ensures multiset(r) == multiset(s) + multiset{x}
    ensures |r| == |s| + 1
  {
    if s == [] then [x]
    else
      var n := |s| - 1;
      assert s == s[..n] + [s[n]];
      if le(s[n], x) then s + [x]
      else Insert(s[..n], x, le) + [s[n]]
  }

  function Sort<T>(s: seq<T>, le: (T, T) -> bool): (r: seq<T>)
    ensures multiset(r) == multiset(s)
    ensures |r| == |s|
  {
    if s == [] then []
    else
      var n := |s| - 1;
      assert s == s[..n] + [s[n]];
      Insert(Sort(s[..n], le), s[n], le)
  }

  /** Keep the first of every run of equal neighbours. */
  function Dedup<T(==,!new)>(s: seq<T>): (r: seq<T>)
    ensures forall x :: x in r <==> x in s
    ensures s != [] ==> r != [] && r[|r| - 1] == s[|s| - 1]
  {
    if |s| <= 1 then s
    else
      var n := |s| - 1;
      assert s == s[..n] + [s[n]];
      if s[n - 1] == s[n] then Dedup(s[..n]) else Dedup(s[..n]) + [s[n]]
  }

  function SortDedup<T(==,!new)>(s: seq<T>, le: (T, T) -> bool): (r: seq<T>) {
    Dedup(Sort(s, le))
  }

  // ----- sorting -----

  lemma SameMembers<T>(a: seq<T>, b: seq<T>)
    requires multiset(a) == multiset(b)
    ensures |a| == |b|
    ensures forall x :: x in a <==> x in b
    ensures Elements(a) == Elements(b)
  {
    assert |a| == |multiset(a)| && |b| == |multiset(b)|;
    assert forall x :: x in a <==> x in multiset(a);
    assert forall x :: x in b <==> x in multiset(b);
  }

  lemma {:induction false} InsertSorted<T(!new)>(s: seq<T>, x: T, le: (T, T) -> bool)
    requires TotalPreorder(le) && Sorted(s, le)
    ensures Sorted(Insert(s, x, le), le)
    decreases |s|
  {
    if s != [] {
      var n := |s| - 1;
      if !le(s[n], x) {
        var rest := Insert(s[..n], x, le);
        InsertSorted(s[..n], x, le);
        forall y | y in rest ensures le(y, s[n]) {
          assert y in multiset(rest);
          assert y in multiset(s[..n]) || y == x;
        }
      }
    }
  }

  lemma {:induction false} SortSorted<T(!new)>(s: seq<T>, le: (T, T) -> bool)
    requires TotalPreorder(le)
    ensures Sorted(Sort(s, le), le)
    decreases |s|
  {
    if s != [] {
      SortSorted(s[..|s| - 1], le);
      InsertSorted(Sort(s[..|s| - 1], le), s[|s| - 1], le);
    }
  }

  lemma {:induction false} SortOfSorted<T>(s: seq<T>, le: (T, T) -> bool)
    requires Sorted(s, le)
    ensures Sort(s, le) == s
    decreases |s|
  {
    if s != [] {
      SortOfSorted(s[..|s| - 1], le);
      assert s == s[..|s| - 1] + [s[|s| - 1]];
    }
  }

  lemma LastIsGreatest<T(!new)>(s: seq<T>, x: T, le: (T, T) -> bool)
    requires TotalPreorder(le) && Sorted(s, le) && x in s
    ensures le(x, s[|s| - 1])
  {
    var i :| 0 <= i < |s| && s[i] == x;
  }

  lemma DropLast<T>(s: seq<T>)
    requires s != []
    ensures s == s[..|s| - 1] + [s[|s| - 1]]
    ensures multiset(s[..|s| - 1]) == multiset(s) - multiset{s[|s| - 1]}
  {
    assert s == s[..|s| - 1] + [s[|s| - 1]];
  }

  /** No two different members of `s` are ranked equal. */
  ghost predicate NoTies<T>(s: seq<T>, le: (T, T) -> bool) {
    forall i, j :: 0 <= i < |s| && 0 <= j < |s| && le(s[i], s[j]) && le(s[j], s[i]) ==> s[i] == s[j]
  }

  /** Where nothing is ranked equal, the sorted arrangement is the only one. */
  lemma {:induction false} SortedUnique<T(!new)>(a: seq<T>, b: seq<T>, le: (T, T) -> bool)
    requires TotalPreorder(le) && NoTies(a, le) && Sorted(a, le) && Sorted(b, le)
    requires multiset(a) == multiset(b)
    ensures a == b
    decreases |a|
  {
    SameMembers(a, b);
    if a != [] {
      var n := |a| - 1;
      LastIsGreatest(a, b[n], le);
      LastIsGreatest(b, a[n], le);
      assert a[n] == b[n];
      DropLast(a);
      DropLast(b);
      assert NoTies(a[..n], le) && Sorted(a[..n], le) && Sorted(b[..n], le);
      SortedUnique(a[..n], b[..n], le);
    }
  }

  lemma SortCanonical<T(!new)>(a: seq<T>, b: seq<T>, le: (T, T) -> bool)
    requires TotalPreorder(le) && NoTies(a, le) && multiset(a) == multiset(b)
    ensures Sort(a, le) == Sort(b, le)
  {
    SortSorted(a, le);
    SortSorted(b, le);
    SameMembers(a, Sort(a, le));
    forall x, y | x in Sort(a, le) && y in Sort(a, le) && le(x, y) && le(y, x) ensures x == y {
      assert x in a && y in a;
    }
    SortedUnique(Sort(a, le), Sort(b, le), le);
  }

  // ----- sorting without repetition -----

  lemma {:induction false} DedupStrict<T(!new)>(s: seq<T>, le: (T, T) -> bool)
    requires TotalOrder(le) && Sorted(s, le)
    ensures Strict(Dedup(s), le)
    decreases |s|
  {
    if |s| > 1 {
      var n := |s| - 1;
      DedupStrict(s[..n], le);
      if s[n - 1] != s[n] {
        var d := Dedup(s[..n]);
        forall i | 0 <= i < |d| ensures le(d[i], s[n]) && d[i] != s[n] {
          assert d[i] in s[..n];
          assert le(d[i], s[n - 1]);
          assert le(s[n - 1], s[n]);
        }
      }
    }
  }

  lemma {:induction false} DedupOfStrict<T(!new)>(s: seq<T>, le: (T, T) -> bool)
    requires Strict(s, le)
    ensures Dedup(s) == s
    decreases |s|
  {
    if |s| > 1 {
      DedupOfStrict(s[..|s| - 1], le);
      assert s == s[..|s| - 1] + [s[|s| - 1]];
    }
  }

  lemma SortDedupStrict<T(!new)>(s: seq<T>, le: (T, T) -> bool)
    requires TotalOrder(le)
    ensures Strict(SortDedup(s, le), le)
    ensures forall x :: x in SortDedup(s, le) <==> x in s
    ensures Elements(SortDedup(s, le)) == Elements(s)
    ensures SortDedup(s, le) == [] <==> s == []
  {
    SortSorted(s, le);
    DedupStrict(Sort(s, le), le);
    SameMembers(s, Sort(s, le));
  }

  lemma SortDedupOfStrict<T(!new)>(s: seq<T>, le: (T, T) -> bool)
    requires Strict(s, le)
    ensures SortDedup(s, le) == s
  {
    SortOfSorted(s, le);
    DedupOfStrict(s, le);
  }

  lemma HasMember<T(!new)>(s: seq<T>)
    ensures s == [] || exists x :: x in s
  {
    if s != [] { assert s[0] in s; }
  }

  lemma StrictDropLast<T(!new)>(s: seq<T>, le: (T, T) -> bool)
    requires s != [] && Strict(s, le)
    ensures s == s[..|s| - 1] + [s[|s| - 1]]
    ensures forall x :: x in s[..|s| - 1] <==> x in s && x != s[|s| - 1]
    ensures Strict(s[..|s| - 1], le)
  {
    assert s == s[..|s| - 1] + [s[|s| - 1]];
  }

  /** A strictly sorted sequence is determined by its elements. */
  lemma {:induction false} StrictUnique<T(!new)>(a: seq<T>, b: seq<T>, le: (T, T) -> bool)
    requires TotalOrder(le) && Strict(a, le) && Strict(b, le)
    requires forall x :: x in a <==> x in b
    ensures a == b
    decreases |a|
  {
    if a == [] {
      HasMember(b);
    } else {
      var n, m := |a| - 1, |b| - 1;
      assert a[n] in b;
      LastIsGreatest(a, b[m], le);
      LastIsGreatest(b, a[n], le);
      assert a[n] == b[m];
      StrictDropLast(a, le);
      StrictDropLast(b, le);
      forall x ensures x in a[..n] <==> x in b[..m] { assert x in a <==> x in b; }
      StrictUnique(a[..n], b[..m], le);
    }
  }

  lemma SortDedupCanonical<T(!new)>(a: seq<T>, b: seq<T>, le: (T, T) -> bool)
    requires TotalOrder(le)
    requires forall x :: x in a <==> x in b
    ensures SortDedup(a, le) == SortDedup(b, le)
  {
    SortDedupStrict(a, le);
    SortDedupStrict(b, le);
    StrictUnique(SortDedup(a, le), SortDedup(b, le), le);
  }

  /** Extending by what is already there and normalizing again changes nothing. */
  lemma SortDedupAbsorbs<T(!new)>(a: seq<T>, b: seq<T>, le: (T, T) -> bool)
    requires TotalOrder(le) && Strict(a, le)
    requires forall x :: x in b ==> x in a
    ensures SortDedup(a + b, le) == a
  {
    SortDedupCanonical(a + b, a, le);
    SortDedupOfStrict(a, le);
  }

  // ----- ordered iteration of a set -----

  lemma LeastExists<T(!new)>(s: set<T>, le: (T, T) -> bool) returns (m: T)
    requires TotalOrder(le) && s != {}
    ensures m in s && forall x :: x in s ==> le(m, x)
    decreases s
  {
    var y :| y in s;
    m := y;
    if s - {y} != {} {
      var r := LeastExists(s - {y}, le);
      m := if le(r, y) then r else y;
      assert forall x :: x in s ==> x == y || x in s - {y};
    } else {
      assert s == {y};
    }
  }

  /** The elements of a `BTreeSet` in iteration order. */
  function Ascending<T(==,!new)>(s: set<T>, le: (T, T) -> bool): (r: seq<T>)
    requires TotalOrder(le)
    ensures Strict(r, le)
    ensures forall x :: x in r <==> x in s
    ensures |r| == |s|
  {
    if s == {} then []
    else
      assert exists m :: m in s && forall x :: x in s ==> le(m, x) by {
        var m := LeastExists(s, le);
      }
      var m :| m in s && forall x :: x in s ==> le(m, x);
      [m] + Ascending(s - {m}, le)
  }
}
