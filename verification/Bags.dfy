// What a sequence contributes to a collection when order does not matter.
module Bags {

  function Flat<T>(ss: seq<seq<T>>): (r: seq<T>) {
    if ss == [] then [] else Flat(ss[..|ss| - 1]) + ss[|ss| - 1]
  }

  function Map<A, B>(s: seq<A>, f: A -> B): (r: seq<B>)
    ensures |r| == |s|
    ensures forall i :: 0 <= i < |s| ==> r[i] == f(s[i])
  {
    seq(|s|, i requires 0 <= i < |s| => f(s[i]))
  }

  function Filter<T>(s: seq<T>, keep: T -> bool): (r: seq<T>) {
    if s == [] then []
    else
      var n := |s| - 1;
      Filter(s[..n], keep) + (if keep(s[n]) then [s[n]] else [])
  }

  /** The sum of what each element contributes. */
  ghost function Bag<A, B>(s: seq<A>, f: A -> multiset<B>): multiset<B> {
    if s == [] then multiset{} else Bag(s[..|s| - 1], f) + f(s[|s| - 1])
  }

  lemma {:induction false} BagAppend<A, B>(a: seq<A>, b: seq<A>, f: A -> multiset<B>)
    ensures Bag(a + b, f) == Bag(a, f) + Bag(b, f)
    decreases |b|
  {
    if b == [] {
      assert a + b == a;
    } else {
      var n := |b| - 1;
      assert (a + b)[..|a + b| - 1] == a + b[..n];
      BagAppend(a, b[..n], f);
    }
  }

  lemma BagTakeOut<A, B>(l: seq<A>, x: A, r: seq<A>, f: A -> multiset<B>)
    ensures Bag(l + [x] + r, f) == Bag(l + r, f) + f(x)
  {
    BagAppend(l, r, f);
    BagAppend(l, [x], f);
    BagAppend(l + [x], r, f);
    assert [x][..0] == [];
    assert Bag([x], f) == f(x);
  }

  lemma TakeOut<A>(b: seq<A>, x: A) returns (l: seq<A>, r: seq<A>)
    requires x in multiset(b)
    ensures b == l + [x] + r
    ensures multiset(l + r) == multiset(b) - multiset{x}
    ensures |l + r| == |b| - 1
  {
    var k :| 0 <= k < |b| && b[k] == x;
    l, r := b[..k], b[k + 1..];
    assert b == l + [x] + r;
  }

  lemma {:induction false} BagPermuted<A, B>(a: seq<A>, b: seq<A>, f: A -> multiset<B>)
    requires multiset(a) == multiset(b)
    ensures Bag(a, f) == Bag(b, f)
    decreases |a|
  {
    assert |a| == |multiset(a)| == |multiset(b)| == |b|;
    if a != [] {
      var n := |a| - 1;
      assert a == a[..n] + [a[n]];
      assert multiset(a[..n]) == multiset(a) - multiset{a[n]};
      var l, r := TakeOut(b, a[n]);
      BagPermuted(a[..n], l + r, f);
      BagTakeOut(l, a[n], r, f);
    }
  }

  lemma {:induction false} FlatBag<T>(ss: seq<seq<T>>)
    ensures multiset(Flat(ss)) == Bag(ss, (s: seq<T>) => multiset(s))
    decreases |ss|
  {
    if ss != [] { FlatBag(ss[..|ss| - 1]); }
  }

  lemma {:induction false} FilterBag<T>(s: seq<T>, keep: T -> bool)
    ensures multiset(Filter(s, keep)) == Bag(s, x => if keep(x) then multiset{x} else multiset{})
    decreases |s|
  {
    if s != [] { FilterBag(s[..|s| - 1], keep); }
  }

  lemma {:induction false} MapBag<A, B>(s: seq<A>, f: A -> B)
    ensures multiset(Map(s, f)) == Bag(s, x => multiset{f(x)})
    decreases |s|
  {
    if s != [] {
      var n := |s| - 1;
      MapBag(s[..n], f);
      assert Map(s, f) == Map(s[..n], f) + [f(s[n])];
    }
  }

  lemma FlatPermuted<T>(a: seq<seq<T>>, b: seq<seq<T>>)
    requires multiset(a) == multiset(b)
    ensures multiset(Flat(a)) == multiset(Flat(b))
  {
    FlatBag(a);
    FlatBag(b);
    BagPermuted(a, b, (s: seq<T>) => multiset(s));
  }

  lemma FilterPermuted<T>(a: seq<T>, b: seq<T>, keep: T -> bool)
    requires multiset(a) == multiset(b)
    ensures multiset(Filter(a, keep)) == multiset(Filter(b, keep))
    ensures |Filter(a, keep)| == |Filter(b, keep)|
  {
    FilterBag(a, keep);
    FilterBag(b, keep);
    BagPermuted(a, b, x => if keep(x) then multiset{x} else multiset{});
    assert |Filter(a, keep)| == |multiset(Filter(a, keep))|;
    assert |Filter(b, keep)| == |multiset(Filter(b, keep))|;
  }

  lemma MapPermuted<A, B>(a: seq<A>, b: seq<A>, f: A -> B)
    requires multiset(a) == multiset(b)
    ensures multiset(Map(a, f)) == multiset(Map(b, f))
  {
    MapBag(a, f);
    MapBag(b, f);
    BagPermuted(a, b, x => multiset{f(x)});
  }

  lemma {:induction false} FilterMembers<T>(s: seq<T>, keep: T -> bool)
    ensures forall i :: 0 <= i < |Filter(s, keep)| ==> Filter(s, keep)[i] in s && keep(Filter(s, keep)[i])
    ensures forall i :: 0 <= i < |s| && keep(s[i]) ==> s[i] in Filter(s, keep)
    decreases |s|
  {
    if s != [] {
      FilterMembers(s[..|s| - 1], keep);
      assert s == s[..|s| - 1] + [s[|s| - 1]];
    }
  }

  /** Two different places of `s` holding related elements. */
  ghost predicate RelatedPair<T>(s: seq<T>, rel: (T, T) -> bool) {
    exists i, j :: 0 <= i < j < |s| && rel(s[i], s[j])
  }

  lemma PairPermuted<T(!new)>(a: seq<T>, b: seq<T>, rel: (T, T) -> bool)
    requires multiset(a) == multiset(b)
    requires forall x, y :: rel(x, y) == rel(y, x)
    ensures RelatedPair(a, rel) ==> RelatedPair(b, rel)
  {
    if RelatedPair(a, rel) {
      var i, j :| 0 <= i < j < |a| && rel(a[i], a[j]);
      var x, y := a[i], a[j];
      assert a == a[..i] + [x] + a[i + 1..j] + [y] + a[j + 1..];
      assert multiset{x, y} <= multiset(a);
      var k, l := TwoPlaces(b, x, y);
      assert rel(b[k], b[l]) && rel(b[l], b[k]);
    }
  }

  lemma TwoPlaces<T>(s: seq<T>, x: T, y: T) returns (k: nat, l: nat)
    requires multiset{x, y} <= multiset(s)
    ensures k < |s| && l < |s| && k != l && s[k] == x && s[l] == y
  {
    assert x in multiset(s);
    k :| 0 <= k < |s| && s[k] == x;
    assert s == s[..k] + [x] + s[k + 1..];
    assert multiset(s) == multiset(s[..k] + s[k + 1..]) + multiset{x};
    assert y in multiset(s[..k] + s[k + 1..]);
    var m :| 0 <= m < |s[..k] + s[k + 1..]| && (s[..k] + s[k + 1..])[m] == y;
    l := if m < k then m else m + 1;
  }
}
