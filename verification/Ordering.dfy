// The orders the repository sorts by. Rust compares strings byte by byte, which
// on UTF-8 is the same as comparing scalar values one by one; derived orders on
// records compare their fields left to right.
module Ordering {

  ghost predicate TotalPreorder<T(!new)>(le: (T, T) -> bool) {
    && (forall x, y :: le(x, y) || le(y, x))
    && (forall x, y, z :: le(x, y) && le(y, z) ==> le(x, z))
  }

  ghost predicate TotalOrder<T(!new)>(le: (T, T) -> bool) {
    && TotalPreorder(le)
    && (forall x, y :: le(x, y) && le(y, x) ==> x == y)
  }

  /** Left-to-right comparison of sequences: a proper prefix comes first. */
  predicate LexLe<T(==)>(a: seq<T>, b: seq<T>, le: (T, T) -> bool) {
    if a == [] then true
    else if b == [] then false
    else if a[0] == b[0] then LexLe(a[1..], b[1..], le)
    else le(a[0], b[0])
  }

  lemma {:induction false} LexTotal<T(!new)>(a: seq<T>, b: seq<T>, le: (T, T) -> bool)
    requires TotalOrder(le)
    ensures LexLe(a, b, le) || LexLe(b, a, le)
    ensures LexLe(a, b, le) && LexLe(b, a, le) ==> a == b
    decreases |a|
  {
    if a != [] && b != [] && a[0] == b[0] {
      LexTotal(a[1..], b[1..], le);
      assert a == [a[0]] + a[1..] && b == [b[0]] + b[1..];
    }
  }

  lemma {:induction false} LexTransitive<T(!new)>(a: seq<T>, b: seq<T>, c: seq<T>, le: (T, T) -> bool)
    requires TotalOrder(le)
    requires LexLe(a, b, le) && LexLe(b, c, le)
    ensures LexLe(a, c, le)
    decreases |a|
  {
    if a != [] && b != [] && c != [] && a[0] == b[0] == c[0] {
      LexTransitive(a[1..], b[1..], c[1..], le);
    }
  }

  lemma {:induction false} LexPrefix<T>(a: seq<T>, b: seq<T>, le: (T, T) -> bool)
    requires a <= b
    ensures LexLe(a, b, le)
    decreases |a|
  {
    if a != [] {
      assert a[1..] <= b[1..];
      LexPrefix(a[1..], b[1..], le);
    }
  }

  predicate CharLe(a: char, b: char) { a <= b }

  /** Rust's order on strings. */
  predicate StrLe(a: string, b: string) { LexLe(a, b, CharLe) }

  /** Order on component lists: file-system paths, and records of strings. */
  predicate PathLe(a: seq<string>, b: seq<string>) { LexLe(a, b, StrLe) }

  lemma StrOrder()
    ensures TotalOrder(StrLe)
  {
    assert TotalOrder(CharLe);
    forall a: string, b: string
      ensures StrLe(a, b) || StrLe(b, a)
      ensures StrLe(a, b) && StrLe(b, a) ==> a == b
    { LexTotal(a, b, CharLe); }
    forall a: string, b: string, c: string | StrLe(a, b) && StrLe(b, c)
      ensures StrLe(a, c)
    { LexTransitive(a, b, c, CharLe); }
  }

  lemma PathOrder()
    ensures TotalOrder(PathLe)
  {
    StrOrder();
    forall a: seq<string>, b: seq<string>
      ensures PathLe(a, b) || PathLe(b, a)
      ensures PathLe(a, b) && PathLe(b, a) ==> a == b
    { LexTotal(a, b, StrLe); }
    forall a: seq<string>, b: seq<string>, c: seq<string> | PathLe(a, b) && PathLe(b, c)
      ensures PathLe(a, c)
    { LexTransitive(a, b, c, StrLe); }
  }

  /** Order by a key: `sort_by_key` and the derived orders on records of strings. */
  function By<T>(key: T -> seq<string>): (T, T) -> bool {
    (x, y) => PathLe(key(x), key(y))
  }

  ghost predicate Injective<T(!new), K(!new)>(key: T -> K) {
    forall x, y :: key(x) == key(y) ==> x == y
  }

  lemma ByOrder<T(!new)>(key: T -> seq<string>)
    ensures TotalPreorder(By(key))
    ensures Injective(key) ==> TotalOrder(By(key))
  {
    PathOrder();
    var le := By(key);
    assert forall x, y :: le(x, y) == PathLe(key(x), key(y));
  }
}
