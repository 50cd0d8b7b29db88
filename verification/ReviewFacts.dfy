// The facts of a property that review overwrites: the last accepted candidate
// that gives a fact decides it, so applying the same candidates again decides
// it the same way.
module ReviewFacts {
  import opened Options
  import opened Observation
  import opened Ordering
  import opened Sorting
  import opened Bags
  import opened Folds
  import opened Stability
  import opened Proposal
  import opened Review

  // ----- stable sorting, seen slot by slot -----

  function InSlot(p: ValueProfile): ValueProfile -> bool { (q: ValueProfile) => SameSlot(q, p) }

  lemma SlotOrder()
    ensures TotalPreorder(SlotLe)
    ensures forall p: ValueProfile, q: ValueProfile :: SameSlot(p, q) <==> SlotLe(p, q) && SlotLe(q, p)
  {
    PathOrder();
    forall p: ValueProfile, q: ValueProfile ensures SameSlot(p, q) <==> SlotKey(p) == SlotKey(q) {
      if SlotKey(p) == SlotKey(q) {
        assert SlotKey(p)[0] == SlotKey(q)[0] && SlotKey(p)[1] == SlotKey(q)[1];
        SameText(p.connection, q.connection);
        SameText(p.mode, q.mode);
      }
    }
  }

  lemma SameText(a: Option<string>, b: Option<string>)
    requires OptionText(a) == OptionText(b)
    ensures a == b
  {
    if a.Some? && b.Some? {
      assert a.value == OptionText(a)[1..] && b.value == OptionText(b)[1..];
    } else {
      assert |OptionText(a)| == |OptionText(b)|;
    }
  }

  ghost predicate SlotsAgree(a: seq<ValueProfile>, b: seq<ValueProfile>) {
    forall p :: Filter(a, InSlot(p)) == Filter(b, InSlot(p))
  }

  lemma SlotMember(a: seq<ValueProfile>, b: seq<ValueProfile>, x: ValueProfile)
    requires SlotsAgree(a, b) && x in a
    ensures x in b
  {
    FilterMembers(a, InSlot(x));
    FilterMembers(b, InSlot(x));
  }

  lemma LastsAgree(a: seq<ValueProfile>, b: seq<ValueProfile>)
    requires Sorted(a, SlotLe) && Sorted(b, SlotLe) && SlotsAgree(a, b) && a != [] && b != []
    ensures a[|a| - 1] == b[|b| - 1]
  {
    SlotOrder();
    var x, y := a[|a| - 1], b[|b| - 1];
    SlotMember(a, b, x);
    SlotMember(b, a, y);
    assert SlotLe(x, y) && SlotLe(y, x);
    assert Filter(a, InSlot(x)) == Filter(b, InSlot(x));
    assert InSlot(x)(x) && InSlot(x)(y);
    LastKept(a, InSlot(x));
    LastKept(b, InSlot(x));
  }

  lemma LastKept<T>(s: seq<T>, keep: T -> bool)
    requires s != [] && keep(s[|s| - 1])
    ensures var f := Filter(s, keep); f != [] && f[|f| - 1] == s[|s| - 1]
  {
  }

  /** A sorted list of profiles is determined by what each slot holds, in order. */
  lemma {:induction false} SlotsDetermine(a: seq<ValueProfile>, b: seq<ValueProfile>)
    requires Sorted(a, SlotLe) && Sorted(b, SlotLe) && SlotsAgree(a, b)
    ensures a == b
    decreases |a|
  {
    if a == [] {
      NoSlotsEmpty(b, a);
    } else if b == [] {
      NoSlotsEmpty(a, b);
    } else {
      LastsAgree(a, b);
      var m, n := |a| - 1, |b| - 1;
      forall p ensures Filter(a[..m], InSlot(p)) == Filter(b[..n], InSlot(p)) {
        assert Filter(a, InSlot(p)) == Filter(b, InSlot(p));
        CancelTail(Filter(a[..m], InSlot(p)), Filter(b[..n], InSlot(p)), if InSlot(p)(a[m]) then [a[m]] else []);
      }
      SlotsDetermine(a[..m], b[..n]);
      assert a == a[..m] + [a[m]] && b == b[..n] + [b[n]];
    }
  }

  lemma CancelTail<T>(a: seq<T>, b: seq<T>, tail: seq<T>)
    requires a + tail == b + tail
    ensures a == b
  {
    assert |a + tail| == |b + tail|;
    assert a == (a + tail)[..|a|] && b == (b + tail)[..|b|];
  }

  lemma NoSlotsEmpty(a: seq<ValueProfile>, b: seq<ValueProfile>)
    requires SlotsAgree(a, b) && b == []
    ensures a == []
  {
    if a != [] { SlotMember(a, b, a[0]); }
  }

  lemma PutSlot(s: seq<ValueProfile>, p: ValueProfile, q: ValueProfile)
    ensures Filter(PutProfile(s, p), InSlot(q)) == if SameSlot(p, q) then [p] else Filter(s, InSlot(q))
  {
    FilterAppend(Filter(s, OtherSlot(p)), [p], InSlot(q));
    FilterOne(p, InSlot(q));
    FilterFilter(s, OtherSlot(p), InSlot(q));
    if SameSlot(p, q) {
      assert forall x :: x in s && InSlot(q)(x) ==> !OtherSlot(p)(x);
    } else {
      assert forall x :: x in s && InSlot(q)(x) ==> OtherSlot(p)(x);
    }
  }

  /** The last of `ps` for the slot of `q`. */
  function LastFor(ps: seq<ValueProfile>, q: ValueProfile): Option<ValueProfile> {
    if ps == [] then None
    else
      var n := |ps| - 1;
      if SameSlot(ps[n], q) then Some(ps[n]) else LastFor(ps[..n], q)
  }

  function Held(written: Option<ValueProfile>, before: seq<ValueProfile>): seq<ValueProfile> {
    if written.Some? then [written.value] else before
  }

  lemma {:induction false} PutAllSlot(s: seq<ValueProfile>, ps: seq<ValueProfile>, q: ValueProfile)
    ensures Filter(PutProfiles(s, ps), InSlot(q)) == Held(LastFor(ps, q), Filter(s, InSlot(q)))
    decreases |ps|
  {
    if ps != [] {
      var n := |ps| - 1;
      PutAllSlot(s, ps[..n], q);
      PutSlot(PutProfiles(s, ps[..n]), ps[n], q);
    }
  }

  lemma SortSlot(s: seq<ValueProfile>, q: ValueProfile)
    ensures Filter(SortProfiles(s), InSlot(q)) == Filter(s, InSlot(q))
  {
    SlotOrder();
    var keep := InSlot(q);
    forall x: ValueProfile, y: ValueProfile | keep(x) && keep(y) ensures SlotLe(y, x) {
      assert SameSlot(x, y);
    }
    SortKeepsClass(s, SlotLe, keep);
  }

  // ----- what one candidate, and a list of them, does to the facts of one property -----

  predicate Writes(c: Candidate, code: string) {
    c.assertion.PropertySupport? && c.assertion.supported && c.assertion.code == code
  }

  predicate Profiles(c: Candidate, code: string) { c.assertion.PropertyValueProfile? && c.assertion.code == code }

  function FactStep(f: Facts, c: Candidate, code: string): Facts {
    if Writes(c, code) then WriteFacts(f, c.assertion)
    else if Profiles(c, code) then
      f.(profiles := SortProfiles(PutProfile(f.profiles, SourcedProfile(c.assertion.profile, c.provenance))))
    else f
  }

  function FactFold(f: Facts, cs: seq<Candidate>, code: string): Facts {
    if cs == [] then f else FactStep(FactFold(f, cs[..|cs| - 1], code), cs[|cs| - 1], code)
  }

  function FactsAt(m: Manifest, code: string): Facts {
    if code in m.properties then m.properties[code].facts else NO_FACTS
  }

  lemma FactsOfStep(lex: Lexicon, m: Manifest, c: Candidate, code: string)
    requires ApplyCandidate(lex, m, c).Ok?
    ensures FactsAt(ApplyCandidate(lex, m, c).value, code) == FactStep(FactsAt(m, code), c, code)
  {
    match c.assertion {
      case CameraIdentity(camera) =>
      case OperationSupport(_, _, _, _) =>
      case OperationName(_, _) =>
      case PropertySupport(_, supported, _, _, _, _, _, _, _) => if supported { FactsOfProperty(lex, m, c, code); }
      case PropertyName(k, name) => FactsOfPropertyName(lex, m, k, name, c.provenance, code);
      case PropertySourceNativeName(k, name) => FactsOfNativeName(lex, m, k, name, c.provenance, code);
      case PropertyValueRow(k, value, caption) => FactsOfRow(lex, m, k, value, caption, c.provenance, code);
      case PropertyValueProfile(_, _) => FactsOfProfile(lex, m, c, code);
    }
  }

  lemma FactsOfProperty(lex: Lexicon, m: Manifest, c: Candidate, code: string)
    requires c.assertion.PropertySupport? && c.assertion.supported && ApplyProperty(lex, m, c.assertion).Ok?
    ensures FactsAt(ApplyProperty(lex, m, c.assertion).value, code) == FactStep(FactsAt(m, code), c, code)
  {
    assert PropertyAt(lex, m, c.assertion.code).facts == FactsAt(m, c.assertion.code);
  }

  lemma FactsOfPropertyName(lex: Lexicon, m: Manifest, k: string, name: string, provenance: seq<Provenance>,
                            code: string)
    requires ApplyPropertyName(lex, m, k, name, provenance).Ok?
    ensures FactsAt(ApplyPropertyName(lex, m, k, name, provenance).value, code) == FactsAt(m, code)
  {}

  lemma FactsOfNativeName(lex: Lexicon, m: Manifest, k: string, name: string, provenance: seq<Provenance>, code: string)
    requires ApplyNativeName(lex, m, k, name, provenance).Ok?
    ensures FactsAt(ApplyNativeName(lex, m, k, name, provenance).value, code) == FactsAt(m, code)
  {}

  lemma FactsOfRow(lex: Lexicon, m: Manifest, k: string, value: TypedValue, caption: string,
                   provenance: seq<Provenance>, code: string)
    requires ApplyRow(lex, m, k, value, caption, provenance).Ok?
    ensures FactsAt(ApplyRow(lex, m, k, value, caption, provenance).value, code) == FactsAt(m, code)
  {}

  lemma FactsOfProfile(lex: Lexicon, m: Manifest, c: Candidate, code: string)
    requires c.assertion.PropertyValueProfile?
             && ApplyProfile(lex, m, c.assertion.code, c.assertion.profile, c.provenance, c.observedScopes).Ok?
    ensures FactsAt(ApplyProfile(lex, m, c.assertion.code, c.assertion.profile, c.provenance, c.observedScopes).value,
                    code)
         == FactStep(FactsAt(m, code), c, code)
  {}

  lemma {:induction false} FactsOfAll(lex: Lexicon, m: Manifest, cs: seq<Candidate>, code: string)
    requires ApplyAll(lex, m, cs).Ok?
    ensures FactsAt(ApplyAll(lex, m, cs).value, code) == FactFold(FactsAt(m, code), cs, code)
    decreases |cs|
  {
    if cs != [] {
      var n := |cs| - 1;
      FactsOfAll(lex, m, cs[..n], code);
      FactsOfStep(lex, ApplyAll(lex, m, cs[..n]).value, cs[n], code);
    }
  }

  // ----- the last writer of each fact -----

  function LastType(cs: seq<Candidate>, code: string): Option<string> {
    if cs == [] then None
    else
      var n := |cs| - 1;
      Or(if Writes(cs[n], code) then cs[n].assertion.propertyType else None, LastType(cs[..n], code))
  }

  function LastAccess(cs: seq<Candidate>, code: string): Option<Access> {
    if cs == [] then None
    else
      var n := |cs| - 1;
      Or(if Writes(cs[n], code) then ParseAccess(cs[n].assertion.access) else None, LastAccess(cs[..n], code))
  }

  function LastDescriptor(cs: seq<Candidate>, code: string): Option<ModelDescriptor> {
    if cs == [] then None
    else
      var n := |cs| - 1;
      Or(if Writes(cs[n], code) then StoredDescriptor(cs[n].assertion.descriptor) else None,
         LastDescriptor(cs[..n], code))
  }

  function LastLabels(cs: seq<Candidate>, code: string): map<string, string> {
    if cs == [] then map[]
    else
      var n := |cs| - 1;
      LastLabels(cs[..n], code) + (if Writes(cs[n], code) then cs[n].assertion.labels else map[])
  }

  function LastProfile(cs: seq<Candidate>, code: string, q: ValueProfile): Option<ValueProfile> {
    if cs == [] then None
    else
      var n := |cs| - 1;
      Or(if Writes(cs[n], code) then LastFor(cs[n].assertion.valueProfiles, q)
         else if Profiles(cs[n], code) then LastFor([SourcedProfile(cs[n].assertion.profile, cs[n].provenance)], q)
         else None,
         LastProfile(cs[..n], code, q))
  }

  predicate Touched(cs: seq<Candidate>, code: string) {
    exists i :: 0 <= i < |cs| && (Writes(cs[i], code) || Profiles(cs[i], code))
  }

  lemma StepScalars(f: Facts, c: Candidate, code: string)
    ensures var g := FactStep(f, c, code);
      if Writes(c, code) then
        && g.ptype == Or(c.assertion.propertyType, f.ptype)
        && g.access == Or(ParseAccess(c.assertion.access), f.access)
        && g.descriptor == Or(StoredDescriptor(c.assertion.descriptor), f.descriptor)
        && g.labels == f.labels + c.assertion.labels
      else g.ptype == f.ptype && g.access == f.access && g.descriptor == f.descriptor && g.labels == f.labels
  {}

  lemma {:induction false} TypeClosed(f: Facts, cs: seq<Candidate>, code: string)
    ensures FactFold(f, cs, code).ptype == Or(LastType(cs, code), f.ptype)
    decreases |cs|
  {
    if cs != [] {
      TypeClosed(f, cs[..|cs| - 1], code);
      StepScalars(FactFold(f, cs[..|cs| - 1], code), cs[|cs| - 1], code);
    }
  }

  lemma {:induction false} AccessClosed(f: Facts, cs: seq<Candidate>, code: string)
    ensures FactFold(f, cs, code).access == Or(LastAccess(cs, code), f.access)
    decreases |cs|
  {
    if cs != [] {
      AccessClosed(f, cs[..|cs| - 1], code);
      StepScalars(FactFold(f, cs[..|cs| - 1], code), cs[|cs| - 1], code);
    }
  }

  lemma {:induction false} DescriptorClosed(f: Facts, cs: seq<Candidate>, code: string)
    ensures FactFold(f, cs, code).descriptor == Or(LastDescriptor(cs, code), f.descriptor)
    decreases |cs|
  {
    if cs != [] {
      DescriptorClosed(f, cs[..|cs| - 1], code);
      StepScalars(FactFold(f, cs[..|cs| - 1], code), cs[|cs| - 1], code);
    }
  }

  lemma MapsAssociate<K, V>(a: map<K, V>, b: map<K, V>, c: map<K, V>)
    ensures a + b + c == a + (b + c)
    ensures c == map[] ==> a + b + c == a + b
  {}

  lemma {:induction false} LabelsClosed(f: Facts, cs: seq<Candidate>, code: string)
    ensures FactFold(f, cs, code).labels == f.labels + LastLabels(cs, code)
    decreases |cs|
  {
    if cs != [] {
      var n := |cs| - 1;
      LabelsClosed(f, cs[..n], code);
      StepScalars(FactFold(f, cs[..n], code), cs[n], code);
      MapsAssociate(f.labels, LastLabels(cs[..n], code), if Writes(cs[n], code) then cs[n].assertion.labels else map[]);
    } else {
      assert f.labels + map[] == f.labels;
    }
  }

  lemma {:induction false} ProfilesClosed(f: Facts, cs: seq<Candidate>, code: string, q: ValueProfile)
    ensures Filter(FactFold(f, cs, code).profiles, InSlot(q))
            == Held(LastProfile(cs, code, q), Filter(f.profiles, InSlot(q)))
    decreases |cs|
  {
    if cs != [] {
      var n := |cs| - 1;
      ProfilesClosed(f, cs[..n], code, q);
      ProfileStep(FactFold(f, cs[..n], code), cs[n], code, q);
    }
  }

  lemma ProfileStep(f: Facts, c: Candidate, code: string, q: ValueProfile)
    ensures Filter(FactStep(f, c, code).profiles, InSlot(q))
            == Held(LastProfile([c], code, q), Filter(f.profiles, InSlot(q)))
    ensures forall cs :: LastProfile(cs + [c], code, q) == Or(LastProfile([c], code, q), LastProfile(cs, code, q))
  {
    assert [c][..0] == [];
    forall cs ensures LastProfile(cs + [c], code, q) == Or(LastProfile([c], code, q), LastProfile(cs, code, q)) {
      assert (cs + [c])[..|cs|] == cs;
    }
    if Writes(c, code) {
      PutAllSlot(f.profiles, c.assertion.valueProfiles, q);
      SortSlot(PutProfiles(f.profiles, c.assertion.valueProfiles), q);
    } else if Profiles(c, code) {
      var p := SourcedProfile(c.assertion.profile, c.provenance);
      assert [p][..0] == [];
      assert LastFor([p][..0], q) == None;
      PutSlot(f.profiles, p, q);
      SortSlot(PutProfile(f.profiles, p), q);
    }
  }

  lemma {:induction false} ProfilesSorted(f: Facts, cs: seq<Candidate>, code: string)
    ensures Touched(cs, code) ==> Sorted(FactFold(f, cs, code).profiles, SlotLe)
    ensures !Touched(cs, code) ==> FactFold(f, cs, code).profiles == f.profiles
    decreases |cs|
  {
    if cs != [] {
      var n := |cs| - 1;
      ProfilesSorted(f, cs[..n], code);
      var g := FactFold(f, cs[..n], code);
      SlotOrder();
      if Writes(cs[n], code) {
        SortSorted(PutProfiles(g.profiles, cs[n].assertion.valueProfiles), SlotLe);
      } else if Profiles(cs[n], code) {
        SortSorted(PutProfile(g.profiles, SourcedProfile(cs[n].assertion.profile, cs[n].provenance)), SlotLe);
      } else {
        assert FactFold(f, cs, code) == g;
        assert Touched(cs, code) == Touched(cs[..n], code);
      }
    }
  }

  lemma OverwriteTwice<K, V>(m: map<K, V>, w: map<K, V>)
    ensures m + w + w == m + w
  {}

  /** Writing the same facts twice is writing them once. */
  lemma FactsIdempotent(f: Facts, cs: seq<Candidate>, code: string)
    ensures FactFold(FactFold(f, cs, code), cs, code) == FactFold(f, cs, code)
  {
    var g := FactFold(f, cs, code);
    var h := FactFold(g, cs, code);
    TypeClosed(f, cs, code);
    TypeClosed(g, cs, code);
    AccessClosed(f, cs, code);
    AccessClosed(g, cs, code);
    DescriptorClosed(f, cs, code);
    DescriptorClosed(g, cs, code);
    LabelsClosed(f, cs, code);
    LabelsClosed(g, cs, code);
    OverwriteTwice(f.labels, LastLabels(cs, code));
    ProfilesIdempotent(f, cs, code);
  }

  lemma ProfilesIdempotent(f: Facts, cs: seq<Candidate>, code: string)
    ensures FactFold(FactFold(f, cs, code), cs, code).profiles == FactFold(f, cs, code).profiles
  {
    var g := FactFold(f, cs, code);
    var h := FactFold(g, cs, code);
    ProfilesSorted(f, cs, code);
    ProfilesSorted(g, cs, code);
    if Touched(cs, code) {
      forall q ensures Filter(h.profiles, InSlot(q)) == Filter(g.profiles, InSlot(q)) {
        ProfilesClosed(f, cs, code, q);
        ProfilesClosed(g, cs, code, q);
      }
      SlotsDetermine(h.profiles, g.profiles);
    }
  }
}
