// Object handles of a media card: numbered in path order, whatever order the
// directory listing came in.
module Handles {
  import opened Options
  import opened Ordering
  import opened Sorting
  import opened Bags

  /** The components below the root. The root itself is not an object. */
  type Path = seq<string>

  datatype Item = Item(path: Path, isDir: bool, size: nat)

  datatype Entry = Entry(handle: nat, path: Path, parent: nat, isDir: bool, size: nat, format: nat)

  const ASSOCIATION: nat := 0x3001

  predicate ItemLe(a: Item, b: Item) { PathLe(a.path, b.path) }

  /** A listing names no path twice, lists every directory it looks into, and never lists the root. */
  predicate Card(items: seq<Item>) {
    && (forall i, j :: 0 <= i < j < |items| ==> items[i].path != items[j].path)
    && (forall i :: 0 <= i < |items| ==> items[i].path != [])
    && (forall i {:trigger Closed(items, i)} :: 0 <= i < |items| ==> Closed(items, i))
  }

  predicate Closed(items: seq<Item>, i: int)
    requires 0 <= i < |items|
  {
    |items[i].path| > 1 ==> Listed(items, Above(items[i].path))
  }

  function Above(p: Path): Path
    requires p != []
  {
    p[..|p| - 1]
  }

  predicate Listed(items: seq<Item>, p: Path) { exists j :: 0 <= j < |items| && items[j].path == p }

  /** The handle of a path: its place in the sorted listing, counted from one; nothing for other paths. */
  function HandleOf(sorted: seq<Item>, p: Path): Option<nat> {
    if sorted == [] then None
    else
      var n := |sorted| - 1;
      if sorted[n].path == p then Some(n + 1) else HandleOf(sorted[..n], p)
  }

  function ParentOf(sorted: seq<Item>, p: Path): nat
    requires p != []
  {
    var h := HandleOf(sorted, Above(p));
    if h.Some? then h.value else 0
  }

  function EntryOf(formats: Path -> nat, sorted: seq<Item>, i: nat): Entry
    requires i < |sorted| && sorted[i].path != []
  {
    var item := sorted[i];
    Entry(i + 1, item.path, ParentOf(sorted, item.path), item.isDir, item.size,
          if item.isDir then ASSOCIATION else formats(item.path))
  }

  function EntriesOf(formats: Path -> nat, sorted: seq<Item>): (r: seq<Entry>)
    requires forall i :: 0 <= i < |sorted| ==> sorted[i].path != []
    ensures |r| == |sorted| && forall i :: 0 <= i < |sorted| ==> r[i] == EntryOf(formats, sorted, i)
  {
    seq(|sorted|, i requires 0 <= i < |sorted| => EntryOf(formats, sorted, i))
  }

  /** All entries, in handle order. */
  function Entries(formats: Path -> nat, items: seq<Item>): (r: seq<Entry>)
    requires forall i :: 0 <= i < |items| ==> items[i].path != []
    ensures |r| == |items|
  {
    var sorted := Sort(items, ItemLe);
    SameMembers(items, sorted);
    assert forall i :: 0 <= i < |sorted| ==> sorted[i] in sorted;
    EntriesOf(formats, sorted)
  }

  // ----- what a scan reports -----

  datatype ScanSummary = ScanSummary(objects: nat, bytes: nat)

  function FileBytes(items: seq<Item>): nat {
    if items == [] then 0
    else FileBytes(items[..|items| - 1]) + (if items[|items| - 1].isDir then 0 else items[|items| - 1].size)
  }

  /** How many objects a card holds, and how many bytes their files take. */
  function Summary(items: seq<Item>): ScanSummary { ScanSummary(|items|, FileBytes(Sort(items, ItemLe))) }

  /** The files of two listings together take what they take apart; directories take nothing. */
  lemma {:induction false} FileBytesAdd(a: seq<Item>, b: seq<Item>)
    ensures FileBytes(a + b) == FileBytes(a) + FileBytes(b) && FileBytes([]) == 0
    ensures |a| == 1 ==> FileBytes(a) == if a[0].isDir then 0 else a[0].size
    decreases |b|
  {
    if b == [] {
      assert a + b == a;
      if |a| == 1 { assert a[..0] == []; }
    } else {
      var n := |b| - 1;
      assert (a + b)[..|a + b| - 1] == a + b[..n];
      FileBytesAdd(a, b[..n]);
    }
  }

  lemma FileBytesMiddle(l: seq<Item>, x: Item, r: seq<Item>)
    ensures FileBytes(l + [x] + r) == FileBytes(l + r) + FileBytes([x])
  {
    FileBytesAdd(l, r);
    FileBytesAdd(l, [x]);
    FileBytesAdd(l + [x], r);
  }

  lemma {:induction false} FileBytesPermuted(a: seq<Item>, b: seq<Item>)
    requires multiset(a) == multiset(b)
    ensures FileBytes(a) == FileBytes(b)
    decreases |a|
  {
    assert |a| == |multiset(a)| == |multiset(b)| == |b|;
    if a != [] {
      var n := |a| - 1;
      assert a == a[..n] + [a[n]];
      assert multiset(a[..n]) == multiset(a) - multiset{a[n]};
      var l, r := TakeOut(b, a[n]);
      FileBytesPermuted(a[..n], l + r);
      FileBytesMiddle(l, a[n], r);
      FileBytesAdd(a[..n], [a[n]]);
    }
  }

  /** A scan counts every object of the listing and adds up its files. */
  lemma SummaryCounts(items: seq<Item>)
    ensures Summary(items) == ScanSummary(|items|, FileBytes(items))
  {
    FileBytesPermuted(Sort(items, ItemLe), items);
  }

  // ----- enumeration order does not matter -----

  lemma ItemOrder()
    ensures TotalPreorder(ItemLe)
  {
    PathOrder();
  }

  lemma CardPermuted(a: seq<Item>, b: seq<Item>)
    requires multiset(a) == multiset(b) && Card(a)
    ensures Card(b)
  {
    SameMembers(a, b);
    var same := (x: Item, y: Item) => x.path == y.path;
    PairPermuted(b, a, same);
    assert !RelatedPair(a, same);
    forall i, j | 0 <= i < j < |b| ensures b[i].path != b[j].path { assert !same(b[i], b[j]); }
    forall i | 0 <= i < |b| ensures b[i].path != [] && Closed(b, i) {
      assert b[i] in a;
      var k :| 0 <= k < |a| && a[k] == b[i];
      assert Closed(a, k);
      if |a[k].path| > 1 {
        var j :| 0 <= j < |a| && a[j].path == Above(a[k].path);
        assert a[j] in b;
      }
    }
  }

  lemma PathsApart(items: seq<Item>)
    requires Card(items)
    ensures NoTies(items, ItemLe)
  {
    PathOrder();
    forall i, j | 0 <= i < |items| && 0 <= j < |items| && ItemLe(items[i], items[j]) && ItemLe(items[j], items[i])
      ensures items[i] == items[j]
    {
      assert items[i].path == items[j].path;
      if i < j { assert false; } else if j < i { assert false; }
    }
  }

  /** Neither the handles of a card nor what a scan reports depend on the order the directory listing came in. */
  lemma EnumerationIrrelevant(formats: Path -> nat, a: seq<Item>, b: seq<Item>)
    requires multiset(a) == multiset(b) && Card(a)
    ensures Card(b) && Entries(formats, a) == Entries(formats, b) && Summary(a) == Summary(b)
  {
    CardPermuted(a, b);
    ItemOrder();
    PathsApart(a);
    SortCanonical(a, b, ItemLe);
  }

  // ----- parents come first -----

  lemma {:induction false} HandlePlace(sorted: seq<Item>, p: Path)
    ensures HandleOf(sorted, p).Some? <==> Listed(sorted, p)
    ensures HandleOf(sorted, p).Some? ==> 1 <= HandleOf(sorted, p).value <= |sorted|
                                          && sorted[HandleOf(sorted, p).value - 1].path == p
  {
    if sorted != [] {
      var n := |sorted| - 1;
      HandlePlace(sorted[..n], p);
      if Listed(sorted, p) {
        var j :| 0 <= j < |sorted| && sorted[j].path == p;
        if j < n { assert sorted[..n][j].path == p; } else { assert sorted[n].path == p; }
      }
      if Listed(sorted[..n], p) {
        var j :| 0 <= j < n && sorted[..n][j].path == p;
        assert sorted[j].path == p;
      }
    }
  }

  lemma AboveBefore(p: Path)
    requires p != []
    ensures Above(p) != p && !PathLe(p, Above(p))
  {
    StrOrder();
    PathOrder();
    LexPrefix(Above(p), p, StrLe);
    assert PathLe(Above(p), p);
  }

  lemma InPathOrder(sorted: seq<Item>, i: nat, j: nat)
    requires Sorted(sorted, ItemLe) && i <= j < |sorted|
    ensures PathLe(sorted[i].path, sorted[j].path)
  {
    PathOrder();
    if i < j { assert ItemLe(sorted[i], sorted[j]); }
  }

  /** In path order a directory comes before everything in it. */
  lemma DirectoryFirst(sorted: seq<Item>, i: nat, j: nat)
    requires Sorted(sorted, ItemLe) && i < |sorted| && j < |sorted| && sorted[i].path != []
             && sorted[j].path == Above(sorted[i].path)
    ensures j < i
  {
    AboveBefore(sorted[i].path);
    if i <= j { InPathOrder(sorted, i, j); }
  }

  lemma ParentBefore(sorted: seq<Item>, i: nat)
    requires Card(sorted) && Sorted(sorted, ItemLe) && i < |sorted|
    ensures var parent := ParentOf(sorted, sorted[i].path);
      && parent < i + 1 && (parent == 0 <==> |sorted[i].path| == 1)
      && (parent > 0 ==> sorted[parent - 1].path == Above(sorted[i].path))
  {
    var p := sorted[i].path;
    HandlePlace(sorted, Above(p));
    assert Closed(sorted, i);
    RootUnlisted(sorted, p);
    var h := HandleOf(sorted, Above(p));
    if h.Some? { DirectoryFirst(sorted, i, h.value - 1); }
  }

  lemma RootUnlisted(sorted: seq<Item>, p: Path)
    requires (forall i :: 0 <= i < |sorted| ==> sorted[i].path != []) && p != []
             && (|p| > 1 ==> Listed(sorted, Above(p)))
    ensures Listed(sorted, Above(p)) <==> |p| > 1
  {
    if Listed(sorted, Above(p)) {
      var j :| 0 <= j < |sorted| && sorted[j].path == Above(p);
      assert sorted[j].path != [];
    }
  }

  /** The entry at place `i` has handle `i + 1`, and its parent is 0 or the smaller handle of the directory above. */
  predicate Rooted(es: seq<Entry>, i: nat)
    requires i < |es|
  {
    && es[i].handle == i + 1 && es[i].path != [] && es[i].parent <= i && (es[i].parent == 0 <==> |es[i].path| == 1)
    && (es[i].parent > 0 ==> es[es[i].parent - 1].path == Above(es[i].path))
  }

  lemma RootedAt(formats: Path -> nat, sorted: seq<Item>, i: nat)
    requires Card(sorted) && Sorted(sorted, ItemLe) && i < |sorted|
    ensures Rooted(EntriesOf(formats, sorted), i)
  {
    ParentBefore(sorted, i);
  }

  lemma OrderedAt(formats: Path -> nat, sorted: seq<Item>, i: nat, j: nat)
    requires Card(sorted) && Sorted(sorted, ItemLe) && i < j < |sorted|
    ensures var es := EntriesOf(formats, sorted); PathLe(es[i].path, es[j].path) && es[i].path != es[j].path
  {
    InPathOrder(sorted, i, j);
  }

  /** Handles are 1 to n in path order, and parent links form a forest. */
  lemma ForestOfHandles(formats: Path -> nat, items: seq<Item>)
    requires Card(items)
    ensures var es := Entries(formats, items);
      && (forall i :: 0 <= i < |es| ==> Rooted(es, i))
      && (forall i, j :: 0 <= i < j < |es| ==> PathLe(es[i].path, es[j].path) && es[i].path != es[j].path)
  {
    var sorted, es := Sort(items, ItemLe), Entries(formats, items);
    ItemOrder();
    SortSorted(items, ItemLe);
    CardPermuted(items, sorted);
    forall i | 0 <= i < |es| ensures Rooted(es, i) { RootedAt(formats, sorted, i); }
    forall i, j | 0 <= i < j < |es| ensures PathLe(es[i].path, es[j].path) && es[i].path != es[j].path {
      OrderedAt(formats, sorted, i, j);
    }
  }

  /** What an entry says of an item; directories have a format of their own. */
  predicate Describes(formats: Path -> nat, e: Entry, item: Item) {
    && e.path == item.path && e.isDir == item.isDir && e.size == item.size
    && e.format == if item.isDir then 0x3001 else formats(item.path)
  }

  predicate Described(formats: Path -> nat, es: seq<Entry>, item: Item) {
    exists e :: e in es && Describes(formats, e, item)
  }

  predicate DescribesOneOf(formats: Path -> nat, e: Entry, items: seq<Item>) {
    exists item :: item in items && Describes(formats, e, item)
  }

  /** Every object of the listing has an entry that describes it, and every entry describes one. */
  lemma EntriesDescribe(formats: Path -> nat, items: seq<Item>)
    requires Card(items)
    ensures var es := Entries(formats, items);
      && |es| == |items|
      && (forall item :: item in items ==> Described(formats, es, item))
      && (forall e :: e in es ==> DescribesOneOf(formats, e, items))
  {
    var sorted, es := Sort(items, ItemLe), Entries(formats, items);
    SameMembers(items, sorted);
    forall item | item in items ensures Described(formats, es, item) {
      assert item in sorted;
      var i :| 0 <= i < |sorted| && sorted[i] == item;
      assert es[i] in es && Describes(formats, es[i], item);
    }
    forall e | e in es ensures DescribesOneOf(formats, e, items) {
      var i :| 0 <= i < |es| && es[i] == e;
      assert sorted[i] in sorted && Describes(formats, e, sorted[i]);
    }
  }

  // ----- queries -----

  datatype Query = Query(parent: Option<nat>, format: Option<nat>)

  predicate Matches(q: Query, e: Entry) {
    (q.parent.Some? ==> e.parent == q.parent.value) && (q.format.Some? ==> e.format == q.format.value)
  }

  function Matcher(q: Query): Entry -> bool { (e: Entry) => Matches(q, e) }

  function HandleIn(e: Entry): nat { e.handle }

  function Select(es: seq<Entry>, q: Query): seq<nat> { Map(Filter(es, Matcher(q)), HandleIn) }

  /** Every object is a child of exactly one parent: one query finds it and no other does. */
  lemma ChildrenPartition(formats: Path -> nat, items: seq<Item>, h: nat)
    requires Card(items) && 1 <= h <= |items|
    ensures var es := Entries(formats, items);
      forall p :: h in Select(es, Query(Some(p), None)) <==> p == es[h - 1].parent
  {
    var es := Entries(formats, items);
    ForestOfHandles(formats, items);
    forall i | 0 <= i < |es| ensures es[i].handle == i + 1 { assert Rooted(es, i); }
    forall p ensures h in Select(es, Query(Some(p), None)) <==> p == es[h - 1].parent {
      SelectedIff(es, Query(Some(p), None), h);
    }
  }

  lemma SelectedIff(es: seq<Entry>, q: Query, h: nat)
    requires (forall i :: 0 <= i < |es| ==> es[i].handle == i + 1) && 1 <= h <= |es|
    ensures h in Select(es, q) <==> Matches(q, es[h - 1])
  {
    var f := Filter(es, Matcher(q));
    FilterMembers(es, Matcher(q));
    if h in Select(es, q) {
      var k :| 0 <= k < |f| && Map(f, HandleIn)[k] == h;
      assert f[k] in es && Matcher(q)(f[k]);
      var i :| 0 <= i < |es| && es[i] == f[k];
    }
    if Matches(q, es[h - 1]) {
      assert Matcher(q)(es[h - 1]);
      var k :| 0 <= k < |f| && f[k] == es[h - 1];
      assert Map(f, HandleIn)[k] == h;
    }
  }

  // ----- the store -----

  /** The number a path has in the first `n` places. */
  lemma {:induction false} HandleInPrefix(sorted: seq<Item>, handles: map<Path, nat>, n: nat)
    requires n <= |sorted|
    requires forall p :: p in handles <==> Listed(sorted[..n], p)
    requires forall i :: 0 <= i < n ==> sorted[i].path in handles && handles[sorted[i].path] == i + 1
    requires forall i, j :: 0 <= i < j < |sorted| ==> sorted[i].path != sorted[j].path
    ensures forall p :: HandleOf(sorted[..n], p) == if p in handles then Some(handles[p]) else None
  {
    forall p ensures HandleOf(sorted[..n], p) == if p in handles then Some(handles[p]) else None {
      HandlePlace(sorted[..n], p);
    }
  }

  /** The table holds exactly these entries, each under its own handle. */
  ghost predicate Holds(table: map<nat, Entry>, es: seq<Entry>) {
    && (forall h :: h in table <==> 1 <= h <= |es|)
    && (forall i :: 0 <= i < |es| ==> i + 1 in table && table[i + 1] == es[i] && es[i].handle == i + 1)
  }

  lemma HoldsOneMore(table: map<nat, Entry>, es: seq<Entry>, e: Entry)
    requires Holds(table, es) && e.handle == |es| + 1
    ensures Holds(table[|es| + 1 := e], es + [e])
  {}

  lemma {:induction false} HoldsAll(table: map<nat, Entry>, es: seq<Entry>)
    requires Holds(table, es)
    ensures |table| == |es|
    decreases |es|
  {
    if es == [] {
      assert table == map[];
    } else {
      var n := |es| - 1;
      var smaller := table - {n + 1};
      assert smaller.Keys == table.Keys - {n + 1};
      HoldsAll(smaller, es[..n]);
      assert table == smaller[n + 1 := es[n]];
    }
  }

  class MediaStore {
    const formats: Path -> nat
    var byHandle: map<nat, Entry>

    constructor (formats: Path -> nat)
      ensures this.formats == formats && byHandle == map[]
    {
      this.formats, byHandle := formats, map[];
    }

    /** Rebuild the table from a directory listing. */
    method Scan(items: seq<Item>) returns (summary: ScanSummary)
      requires Card(items)
      modifies this
      ensures Holds(byHandle, Entries(formats, items))
      ensures summary == Summary(items)
    {
      var sorted := Sort(items, ItemLe);
      CardPermuted(items, sorted);
      var handles := NumberPaths(sorted);
      byHandle, summary := FillTable(formats, sorted, handles);
    }

    method Handles(query: Query, ghost es: seq<Entry>) returns (found: seq<nat>)
      requires Holds(byHandle, es)
      ensures found == Select(es, query)
    {
      found := [];
      HoldsAll(byHandle, es);
      for h := 1 to |byHandle| + 1
        invariant found == Select(es[..h - 1], query)
      {
        assert es[..h][..h - 1] == es[..h - 1];
        if Matches(query, byHandle[h]) { found := found + [byHandle[h].handle]; }
      }
      assert es[..|es|] == es;
    }
  }

  method FillTable(formats: Path -> nat, sorted: seq<Item>, handles: map<Path, nat>)
    returns (table: map<nat, Entry>, summary: ScanSummary)
    requires forall i :: 0 <= i < |sorted| ==> sorted[i].path != []
    requires forall p :: HandleOf(sorted, p) == if p in handles then Some(handles[p]) else None
    requires forall i :: 0 <= i < |sorted| ==> sorted[i].path in handles && handles[sorted[i].path] == i + 1
    ensures Holds(table, EntriesOf(formats, sorted)) && summary == ScanSummary(|sorted|, FileBytes(sorted))
  {
    table, summary := map[], ScanSummary(0, 0);
    ghost var es := EntriesOf(formats, sorted);
    for i := 0 to |sorted|
      invariant Holds(table, es[..i]) && summary == ScanSummary(i, FileBytes(sorted[..i]))
    {
      assert sorted[..i + 1][..i] == sorted[..i] && es[..i + 1] == es[..i] + [es[i]];
      var item := sorted[i];
      var above := Above(item.path);
      var parent := if above in handles then handles[above] else 0;
      var format := if item.isDir then ASSOCIATION else formats(item.path);
      var entry := Entry(handles[item.path], item.path, parent, item.isDir, item.size, format);
      assert entry == es[i];
      HoldsOneMore(table, es[..i], entry);
      table := table[entry.handle := entry];
      summary := ScanSummary(summary.objects + 1, summary.bytes + if item.isDir then 0 else item.size);
    }
    assert sorted[..|sorted|] == sorted && es[..|es|] == es;
  }

  method NumberPaths(sorted: seq<Item>) returns (handles: map<Path, nat>)
    requires forall i, j :: 0 <= i < j < |sorted| ==> sorted[i].path != sorted[j].path
    ensures forall p :: HandleOf(sorted, p) == if p in handles then Some(handles[p]) else None
    ensures forall i :: 0 <= i < |sorted| ==> sorted[i].path in handles && handles[sorted[i].path] == i + 1
  {
    handles := map[];
    for i := 0 to |sorted|
      invariant forall p :: p in handles <==> Listed(sorted[..i], p)
      invariant forall j :: 0 <= j < i ==> sorted[j].path in handles && handles[sorted[j].path] == j + 1
    {
      ListedNext(sorted, i);
      handles := handles[sorted[i].path := i + 1];
    }
    HandleInPrefix(sorted, handles, |sorted|);
    assert sorted[..|sorted|] == sorted;
  }

  lemma ListedNext(sorted: seq<Item>, i: nat)
    requires i < |sorted|
    ensures forall p :: Listed(sorted[..i + 1], p) <==> Listed(sorted[..i], p) || sorted[i].path == p
  {
    var a, b := sorted[..i], sorted[..i + 1];
    forall p ensures Listed(b, p) <==> Listed(a, p) || sorted[i].path == p {
      if Listed(a, p) {
        var j :| 0 <= j < |a| && a[j].path == p;
        assert b[j].path == p;
      }
      if Listed(b, p) {
        var j :| 0 <= j < |b| && b[j].path == p;
        assert j < i ==> a[j].path == p;
      }
      assert b[i] == sorted[i];
    }
  }
}
