// Firmware tiers: overlays deep-merged over a body manifest's YAML tree.
module Tiers {
  import opened Options

  /** A YAML value. Scalars and sequences are replaced whole, so both are leaves. */
  datatype Yaml<K, V> = Leaf(value: V) | Mapping(entries: map<K, Yaml<K, V>>)

  type Path<K> = seq<K>

  function Merge<K, V>(base: Yaml<K, V>, overlay: Yaml<K, V>): Yaml<K, V>
    decreases overlay
  {
    if base.Mapping? && overlay.Mapping? then
      Mapping(map k | k in base.entries.Keys + overlay.entries.Keys ::
                if k !in overlay.entries then base.entries[k]
                else if k in base.entries then Merge(base.entries[k], overlay.entries[k])
                else overlay.entries[k])
    else overlay
  }

  // ----- path by path -----

  function At<K, V>(t: Yaml<K, V>, p: Path<K>): Option<Yaml<K, V>>
    decreases |p|
  {
    if p == [] then Some(t)
    else if t.Mapping? && p[0] in t.entries then At(t.entries[p[0]], p[1..])
    else None
  }

  ghost predicate MapAt<K, V>(t: Yaml<K, V>, p: Path<K>) { At(t, p).Some? && At(t, p).value.Mapping? }

  /** At the first `n` keys of `p` the overlay holds something that is not merged into the base. */
  ghost predicate ReplacesAt<K, V>(base: Yaml<K, V>, overlay: Yaml<K, V>, p: Path<K>, n: nat)
    requires n <= |p|
  {
    At(overlay, p[..n]).Some? && !(MapAt(base, p[..n]) && MapAt(overlay, p[..n]))
  }

  /** The overlay replaces the base at or above `p`. */
  ghost predicate Replaces<K, V>(base: Yaml<K, V>, overlay: Yaml<K, V>, p: Path<K>) {
    exists n: nat :: n <= |p| && ReplacesAt(base, overlay, p, n)
  }

  lemma ReplacesBelow<K, V>(base: Yaml<K, V>, overlay: Yaml<K, V>, p: Path<K>)
    requires p != [] && base.Mapping? && overlay.Mapping?
    requires p[0] in base.entries && p[0] in overlay.entries
    ensures Replaces(base, overlay, p) <==> Replaces(base.entries[p[0]], overlay.entries[p[0]], p[1..])
  {
    var b, o, rest := base.entries[p[0]], overlay.entries[p[0]], p[1..];
    forall n: nat | n <= |rest| ensures ReplacesAt(b, o, rest, n) <==> ReplacesAt(base, overlay, p, n + 1) {
      assert p[..n + 1][1..] == rest[..n] && p[..n + 1][0] == p[0];
    }
    if Replaces(base, overlay, p) {
      var n: nat :| n <= |p| && ReplacesAt(base, overlay, p, n);
      assert n != 0;
      assert ReplacesAt(b, o, rest, n - 1);
    }
    if Replaces(b, o, rest) {
      var n: nat :| n <= |rest| && ReplacesAt(b, o, rest, n);
      assert ReplacesAt(base, overlay, p, n + 1);
    }
  }

  lemma NotReplacedByAbsence<K, V>(base: Yaml<K, V>, overlay: Yaml<K, V>, p: Path<K>)
    requires p != [] && base.Mapping? && overlay.Mapping? && p[0] !in overlay.entries
    ensures !Replaces(base, overlay, p) && At(overlay, p).None?
  {
    forall n: nat | n <= |p| ensures !ReplacesAt(base, overlay, p, n) {
      if n > 0 { assert p[..n][0] == p[0]; }
    }
  }

  /**
   * What a merge holds at every path: the overlay's value where it replaces, the base's where the
   * overlay is silent.
   */
  lemma {:induction false} MergeAt<K, V>(base: Yaml<K, V>, overlay: Yaml<K, V>, p: Path<K>)
    ensures Replaces(base, overlay, p) ==> At(Merge(base, overlay), p) == At(overlay, p)
    ensures !Replaces(base, overlay, p) && At(overlay, p).None? ==> At(Merge(base, overlay), p) == At(base, p)
    ensures !Replaces(base, overlay, p) && At(overlay, p).Some? ==>
              && MapAt(base, p) && MapAt(overlay, p)
              && At(Merge(base, overlay), p) == Some(Merge(At(base, p).value, At(overlay, p).value))
    decreases |p|
  {
    assert p[..0] == [];
    if !(base.Mapping? && overlay.Mapping?) {
      assert ReplacesAt(base, overlay, p, 0);
    } else if p == [] {
      assert !ReplacesAt(base, overlay, p, 0);
    } else if p[0] !in overlay.entries {
      NotReplacedByAbsence(base, overlay, p);
    } else if p[0] !in base.entries {
      assert p[..1] == [p[0]];
      assert ReplacesAt(base, overlay, p, 1);
    } else {
      MergeAt(base.entries[p[0]], overlay.entries[p[0]], p[1..]);
      ReplacesBelow(base, overlay, p);
    }
  }

  lemma OverlayLeafWins<K, V>(base: Yaml<K, V>, overlay: Yaml<K, V>, p: Path<K>)
    requires At(overlay, p).Some? && At(overlay, p).value.Leaf?
    ensures At(Merge(base, overlay), p) == At(overlay, p)
  {
    assert p[..|p|] == p;
    assert ReplacesAt(base, overlay, p, |p|);
    MergeAt(base, overlay, p);
  }

  /** The overlay names nothing at `p` and puts no leaf above it. */
  ghost predicate Silent<K, V>(overlay: Yaml<K, V>, p: Path<K>) {
    At(overlay, p).None? && forall n: nat :: n <= |p| && At(overlay, p[..n]).Some? ==> MapAt(overlay, p[..n])
  }

  lemma {:induction false} MapsAbove<K, V>(t: Yaml<K, V>, p: Path<K>, n: nat)
    requires n < |p| && At(t, p).Some?
    ensures MapAt(t, p[..n])
    decreases |p|
  {
    if n > 0 {
      MapsAbove(t.entries[p[0]], p[1..], n - 1);
      assert p[..n][1..] == p[1..][..n - 1];
    }
  }

  lemma UntouchedKeepsBase<K, V>(base: Yaml<K, V>, overlay: Yaml<K, V>, p: Path<K>)
    requires At(base, p).Some? && Silent(overlay, p)
    ensures At(Merge(base, overlay), p) == At(base, p)
  {
    forall n: nat | n <= |p| ensures !ReplacesAt(base, overlay, p, n) {
      if n < |p| { MapsAbove(base, p, n); } else { assert p[..n] == p; }
    }
    MergeAt(base, overlay, p);
  }

  // ----- merging again -----

  lemma {:induction false} MergeAgain<K, V>(base: Yaml<K, V>, overlay: Yaml<K, V>)
    ensures Merge(Merge(base, overlay), overlay) == Merge(base, overlay)
    decreases overlay
  {
    if overlay.Mapping? {
      forall k | k in overlay.entries ensures Merge(overlay.entries[k], overlay.entries[k]) == overlay.entries[k] {
        MergeSelf(overlay.entries[k]);
      }
      if base.Mapping? {
        forall k | k in overlay.entries && k in base.entries
          ensures Merge(Merge(base.entries[k], overlay.entries[k]), overlay.entries[k])
                  == Merge(base.entries[k], overlay.entries[k])
        {
          MergeAgain(base.entries[k], overlay.entries[k]);
        }
        assert Merge(Merge(base, overlay), overlay).entries == Merge(base, overlay).entries;
      } else {
        MergeSelf(overlay);
      }
    }
  }

  lemma {:induction false} MergeSelf<K, V>(t: Yaml<K, V>)
    ensures Merge(t, t) == t
    decreases t
  {
    if t.Mapping? {
      forall k | k in t.entries ensures Merge(t.entries[k], t.entries[k]) == t.entries[k] {
        MergeSelf(t.entries[k]);
      }
      assert Merge(t, t).entries == t.entries;
    }
  }

  // ----- regrouping -----

  /** Merging `over` onto `under` would show nothing of `under`. */
  ghost predicate Hidden<K, V>(under: Yaml<K, V>, over: Yaml<K, V>)
    decreases over
  {
    under.Mapping? && over.Mapping? ==>
      forall k :: k in under.entries ==> k in over.entries && Hidden(under.entries[k], over.entries[k])
  }

  lemma {:induction false} HiddenIff<K, V>(under: Yaml<K, V>, over: Yaml<K, V>)
    ensures Merge(under, over) == over <==> Hidden(under, over)
    decreases over
  {
    if under.Mapping? && over.Mapping? {
      forall k | k in under.entries && k in over.entries
        ensures Merge(under.entries[k], over.entries[k]) == over.entries[k]
                <==> Hidden(under.entries[k], over.entries[k])
      {
        HiddenIff(under.entries[k], over.entries[k]);
      }
      var merged := Merge(under, over).entries;
      if Hidden(under, over) {
        assert merged == over.entries;
      } else {
        var k :| k in under.entries && !(k in over.entries && Hidden(under.entries[k], over.entries[k]));
        assert k in merged && (k in over.entries ==> merged[k] != over.entries[k]);
      }
    }
  }

  /** `b` puts a leaf at `p` where the tiers on both sides hold maps, and `a`'s map there is not hidden by `c`'s. */
  ghost predicate ExposedAt<K, V>(a: Yaml<K, V>, b: Yaml<K, V>, c: Yaml<K, V>, p: Path<K>) {
    MapAt(a, p) && At(b, p).Some? && !MapAt(b, p) && MapAt(c, p) && !Hidden(At(a, p).value, At(c, p).value)
  }

  ghost predicate Exposed<K(!new), V>(a: Yaml<K, V>, b: Yaml<K, V>, c: Yaml<K, V>) {
    exists p: Path<K> :: ExposedAt(a, b, c, p)
  }

  ghost predicate AllMaps<K, V>(a: Yaml<K, V>, b: Yaml<K, V>, c: Yaml<K, V>) { a.Mapping? && b.Mapping? && c.Mapping? }

  lemma ExposedBelow<K(!new), V>(a: Yaml<K, V>, b: Yaml<K, V>, c: Yaml<K, V>)
    requires AllMaps(a, b, c)
    ensures Exposed(a, b, c) <==>
              exists k :: k in a.entries && k in b.entries && k in c.entries
                && Exposed(a.entries[k], b.entries[k], c.entries[k])
  {
    if Exposed(a, b, c) {
      var p: Path<K> :| ExposedAt(a, b, c, p);
      assert ExposedAt(a.entries[p[0]], b.entries[p[0]], c.entries[p[0]], p[1..]);
      assert Exposed(a.entries[p[0]], b.entries[p[0]], c.entries[p[0]]);
    }
    if k :| k in a.entries && k in b.entries && k in c.entries && Exposed(a.entries[k], b.entries[k], c.entries[k]) {
      var p: Path<K> :| ExposedAt(a.entries[k], b.entries[k], c.entries[k], p);
      assert ([k] + p)[1..] == p;
      assert ExposedAt(a, b, c, [k] + p);
    }
  }

  ghost predicate Regroups<K, V>(a: Yaml<K, V>, b: Yaml<K, V>, c: Yaml<K, V>) {
    Merge(Merge(a, b), c) == Merge(a, Merge(b, c))
  }

  lemma RegroupKeys<K, V>(a: Yaml<K, V>, b: Yaml<K, V>, c: Yaml<K, V>)
    requires AllMaps(a, b, c)
    ensures Regroups(a, b, c) <==>
              forall k :: k in a.entries && k in b.entries && k in c.entries ==>
                Regroups(a.entries[k], b.entries[k], c.entries[k])
  {
    var l, r := Merge(Merge(a, b), c).entries, Merge(a, Merge(b, c)).entries;
    assert l.Keys == r.Keys == a.entries.Keys + b.entries.Keys + c.entries.Keys;
    forall k | k in l ensures l[k] == r[k] <==>
        (k in a.entries && k in b.entries && k in c.entries ==> Regroups(a.entries[k], b.entries[k], c.entries[k]))
    {
    }
    assert l == r <==> forall k :: k in l ==> l[k] == r[k];
  }

  /** Two overlays may be combined first exactly when no map of the lowest tier is exposed by a leaf in the middle. */
  lemma {:induction false} RegroupIff<K(!new), V>(a: Yaml<K, V>, b: Yaml<K, V>, c: Yaml<K, V>)
    ensures Regroups(a, b, c) <==> !Exposed(a, b, c)
    decreases c
  {
    if AllMaps(a, b, c) {
      forall k | k in a.entries && k in b.entries && k in c.entries
        ensures Regroups(a.entries[k], b.entries[k], c.entries[k])
                <==> !Exposed(a.entries[k], b.entries[k], c.entries[k])
      {
        RegroupIff(a.entries[k], b.entries[k], c.entries[k]);
      }
      RegroupKeys(a, b, c);
      ExposedBelow(a, b, c);
    } else {
      TopRegroupIff(a, b, c);
    }
  }

  lemma TopRegroupIff<K(!new), V>(a: Yaml<K, V>, b: Yaml<K, V>, c: Yaml<K, V>)
    requires !AllMaps(a, b, c)
    ensures Regroups(a, b, c) <==> !Exposed(a, b, c)
  {
    HiddenIff(a, c);
    forall p: Path<K> ensures ExposedAt(a, b, c, p) ==> ExposedAt(a, b, c, []) {
    }
    assert Exposed(a, b, c) <==> ExposedAt(a, b, c, []);
  }

  /** A middle tier with a leaf between two maps does make a difference. */
  lemma LeafBetweenMaps()
    ensures var a: Yaml<nat, nat>, b, c := Mapping(map[0 := Leaf(1)]), Leaf(2), Mapping(map[]);
            !Regroups(a, b, c)
  {
    var a: Yaml<nat, nat>, b, c := Mapping(map[0 := Leaf(1)]), Leaf(2), Mapping(map[]);
    assert 0 in a.entries && 0 !in c.entries;
    assert !Hidden(a, c);
    assert ExposedAt(a, b, c, []);
    RegroupIff(a, b, c);
  }

  /** The plain condition: no middle leaf between maps. */
  lemma NoLeafBetweenMaps<K(!new), V>(a: Yaml<K, V>, b: Yaml<K, V>, c: Yaml<K, V>)
    requires forall p: Path<K> :: MapAt(a, p) && MapAt(c, p) && At(b, p).Some? ==> MapAt(b, p)
    ensures Merge(Merge(a, b), c) == Merge(a, Merge(b, c))
  {
    RegroupIff(a, b, c);
  }

  // ----- all tiers -----

  function Stack<K, V>(base: Yaml<K, V>, overlays: seq<Yaml<K, V>>): Yaml<K, V> {
    if overlays == [] then base else Merge(Stack(base, overlays[..|overlays| - 1]), overlays[|overlays| - 1])
  }

  /** The last tier to say something at a path decides it. */
  lemma {:induction false} LastWord<K, V>(base: Yaml<K, V>, overlays: seq<Yaml<K, V>>, i: nat, p: Path<K>)
    requires i < |overlays| && At(overlays[i], p).Some? && At(overlays[i], p).value.Leaf?
    requires forall j :: i < j < |overlays| ==> Silent(overlays[j], p)
    ensures At(Stack(base, overlays), p) == At(overlays[i], p)
    decreases |overlays|
  {
    var n := |overlays| - 1;
    if i == n {
      OverlayLeafWins(Stack(base, overlays[..n]), overlays[n], p);
    } else {
      LastWord(base, overlays[..n], i, p);
      UntouchedKeepsBase(Stack(base, overlays[..n]), overlays[n], p);
    }
  }

  /** The base with the overlay's keys merged in, all but the ones in `left`. */
  ghost function AllBut<K, V>(base: map<K, Yaml<K, V>>, overlay: map<K, Yaml<K, V>>, left: set<K>): map<K, Yaml<K, V>> {
    map k | k in base.Keys + (overlay.Keys - left) ::
      if k in left || k !in overlay then base[k] else if k in base then Merge(base[k], overlay[k]) else overlay[k]
  }

  lemma OneMore<K, V>(base: map<K, Yaml<K, V>>, overlay: map<K, Yaml<K, V>>, left: set<K>, k: K)
    requires k in left && left <= overlay.Keys
    ensures AllBut(base, overlay, left - {k})
         == AllBut(base, overlay, left)[k := if k in base then Merge(base[k], overlay[k]) else overlay[k]]
  {
  }

  lemma NoneYet<K, V>(base: map<K, Yaml<K, V>>, overlay: map<K, Yaml<K, V>>)
    ensures AllBut(base, overlay, overlay.Keys) == base
  {
  }

  lemma AllDone<K, V>(base: Yaml<K, V>, overlay: Yaml<K, V>)
    requires base.Mapping? && overlay.Mapping?
    ensures Mapping(AllBut(base.entries, overlay.entries, {})) == Merge(base, overlay)
  {
    assert AllBut(base.entries, overlay.entries, {}) == Merge(base, overlay).entries;
  }

  method MergeYaml<K(==), V>(base: Yaml<K, V>, overlay: Yaml<K, V>) returns (r: Yaml<K, V>)
    ensures r == Merge(base, overlay)
    decreases overlay, 0
  {
    if !(base.Mapping? && overlay.Mapping?) { return overlay; }
    NoneYet(base.entries, overlay.entries);
    var b, left, o := base.entries, overlay.entries.Keys, overlay.entries;
    while left != {}
      invariant left <= o.Keys
      invariant b == AllBut(base.entries, o, left)
      decreases |left|
    {
      var k :| k in left;
      OneMore(base.entries, o, left, k);
      b := MergeEntry(b, k, o[k]);
      left := left - {k};
    }
    AllDone(base, overlay);
    r := Mapping(b);
  }

  /** Remove a key, merge what it held, and insert the result. */
  method MergeEntry<K(==), V>(b: map<K, Yaml<K, V>>, k: K, value: Yaml<K, V>) returns (r: map<K, Yaml<K, V>>)
    ensures r == b[k := if k in b then Merge(b[k], value) else value]
    decreases value, 1
  {
    var merged := value;
    r := b;
    if k in b {
      var removed := b[k];
      r := r - {k};
      merged := MergeYaml(removed, value);
    }
    r := r[k := merged];
  }

  method MergeTiers<K(==), V>(base: Yaml<K, V>, overlays: seq<Yaml<K, V>>) returns (merged: Yaml<K, V>)
    ensures merged == Stack(base, overlays)
  {
    merged := base;
    for i := 0 to |overlays|
      invariant merged == Stack(base, overlays[..i])
    {
      assert overlays[..i + 1][..i] == overlays[..i];
      merged := MergeYaml(merged, overlays[i]);
    }
    assert overlays[..|overlays|] == overlays;
  }
}
