// Which candidates a proposal holds, and on what evidence: told by the validated
// headers and records, not by how candidates are built.
module ProposalContents {
  import opened Options
  import opened Observation
  import opened Ordering
  import opened Sorting
  import opened Bags
  import opened Validation
  import opened ValidationOrder
  import opened Proposal
  import opened ProposalIntegrity
  import opened FirstWins

  // ----- what is to be asserted -----

  /** The record says it about a name, a row or a profile. */
  ghost predicate Tells(r: Observation, a: Assertion) {
    match a
    case OperationName(code, name) => IsOperation(r) && r.subject.code == code && Names(r.subject.canonicalName, name)
    case PropertyName(code, name) => IsProperty(r) && r.subject.code == code && Names(r.subject.canonicalName, name)
    case PropertySourceNativeName(code, name) =>
      IsProperty(r) && r.subject.code == code && Names(r.subject.sourceNativeName, name)
    case PropertyValueRow(code, value, caption) =>
      IsProperty(r) && r.subject.code == code
      && exists row :: row in r.subject.valueRows && row.value == value && row.caption == caption
    case PropertyValueProfile(code, profile) =>
      IsProperty(r) && r.subject.code == code
      && exists q :: q in r.subject.valueProfiles && q.(evidence := []) == profile
    case _ => false
  }

  predicate Names(given: Option<NameAssertion>, name: string) { given.Some? && given.value.name == name }

  /** And says from where. */
  ghost predicate TellsFrom(r: Observation, a: Assertion, p: Provenance) {
    match a
    case OperationName(code, name) =>
      IsOperation(r) && r.subject.code == code && r.subject.canonicalName == Some(NameAssertion(name, p))
    case PropertyName(code, name) =>
      IsProperty(r) && r.subject.code == code && r.subject.canonicalName == Some(NameAssertion(name, p))
    case PropertySourceNativeName(code, name) =>
      IsProperty(r) && r.subject.code == code && r.subject.sourceNativeName == Some(NameAssertion(name, p))
    case PropertyValueRow(code, value, caption) =>
      IsProperty(r) && r.subject.code == code && ValueRow(value, caption, p) in r.subject.valueRows
    case PropertyValueProfile(code, profile) =>
      IsProperty(r) && r.subject.code == code && p.epistemic == r.common.epistemic
      && exists q :: q in r.subject.valueProfiles && q.(evidence := []) == profile && p.reference in q.evidence
    case _ => false
  }

  /** The scopes, once each and in order. */
  ghost predicate Lists(scopes: seq<Context>, s: set<Context>) { Strict(scopes, ContextLe) && Elements(scopes) == s }

  ghost predicate TypeForm(records: seq<Observation>, k: Key, a: Assertion)
    requires a.PropertySupport?
  {
    && a.descriptor.None? && a.labels == map[] && Lists(a.scopes, DescribedScopes(records, k))
    && FirstGiven(records, k, TypeGiven, a.propertyType) && FirstGiven(records, k, AccessGiven, a.access)
  }

  ghost predicate DescriptorForm(records: seq<Observation>, k: Key, a: Assertion)
    requires a.PropertySupport?
  {
    && a.propertyType.None? && a.access.None? && a.labels == map[] && Lists(a.scopes, DescribedScopes(records, k))
    && a.descriptor.Some? && FirstGiven(records, k, DescriptorGiven, a.descriptor)
  }

  ghost predicate LabelForm(records: seq<Observation>, k: Key, a: Assertion)
    requires a.PropertySupport?
  {
    && a.propertyType.None? && a.access.None? && a.descriptor.None? && Lists(a.scopes, LabelledScopes(records, k))
    && a.labels != map[] && forall raw :: FirstGiven(records, k, CaptionGiven(raw), Lookup(a.labels, raw))
  }

  function KeyOf(a: Assertion): Key
    requires a.OperationSupport? || a.PropertySupport?
  {
    Key(a.code, a.supported, a.completeness)
  }

  ghost predicate SomeDescribes(records: seq<Observation>, k: Key) { exists i :: Describes(records, k, i) }

  ghost predicate SomeOperates(records: seq<Observation>, k: Key) { exists i :: Operates(records, k, i) }

  ghost predicate InSomeForm(records: seq<Observation>, a: Assertion)
    requires a.PropertySupport?
  {
    a.valueProfiles == [] && (TypeForm(records, KeyOf(a), a) || DescriptorForm(records, KeyOf(a), a)
                              || LabelForm(records, KeyOf(a), a))
  }

  /** One of the up to three assertions about a property that some record describes. */
  ghost predicate Described(records: seq<Observation>, a: Assertion)
    requires a.PropertySupport?
  {
    SomeDescribes(records, KeyOf(a)) && InSomeForm(records, a)
  }

  ghost predicate Operated(records: seq<Observation>, a: Assertion)
    requires a.OperationSupport?
  {
    SomeOperates(records, KeyOf(a)) && Lists(a.scopes, OperatedScopes(records, KeyOf(a)))
  }

  ghost predicate Told(records: seq<Observation>, a: Assertion) {
    exists i :: 0 <= i < |records| && Tells(records[i], a)
  }

  ghost predicate Asserted(headers: seq<Observation>, records: seq<Observation>, a: Assertion) {
    match a
    case CameraIdentity(c) => exists i :: 0 <= i < |headers| && CameraOf(headers[i]) == c
    case OperationSupport(_, _, _, _) => Operated(records, a)
    case PropertySupport(_, _, _, _, _, _, _, _, _) => Described(records, a)
    case _ => Told(records, a)
  }

  // ----- and on what evidence -----

  ghost predicate NamedAmong(observations: seq<Observation>, s: string) {
    exists i :: 0 <= i < |observations| && observations[i].Name() == s
  }

  /** The record `s` names supports the assertion. */
  ghost predicate Supports(headers: seq<Observation>, records: seq<Observation>, a: Assertion, s: string) {
    match a
    case CameraIdentity(_) => NamedAmong(headers, s)
    case OperationSupport(code, supported, completeness, _) =>
      s in OperatingNames(records, Key(code, supported, completeness))
    case PropertySupport(code, supported, completeness, _, _, _, labels, _, _) =>
      var k := Key(code, supported, completeness);
      s in if labels == map[] then DescribingNames(records, k) else LabellingNames(records, k)
    case _ => exists i :: 0 <= i < |records| && Tells(records[i], a) && records[i].Name() == s
  }

  /** What can be asked about a candidate. */
  datatype Item = Present | From(source: string) | By(provenance: Provenance) | In(scope: Context)

  predicate Has(c: Candidate, item: Item) {
    match item
    case Present => true
    case From(s) => s in c.sources
    case By(p) => p in c.provenance
    case In(x) => x in c.observedScopes
  }

  ghost predicate Evident(headers: seq<Observation>, records: seq<Observation>, a: Assertion, item: Item) {
    match item
    case Present => true
    case From(s) => Supports(headers, records, a, s)
    case By(p) => exists i :: 0 <= i < |records| && TellsFrom(records[i], a, p)
    case In(x) => a.PropertyValueProfile?
                  && exists i :: 0 <= i < |records| && Tells(records[i], a) && records[i].common.context == x
  }

  ghost predicate Expected(headers: seq<Observation>, records: seq<Observation>, a: Assertion, item: Item) {
    Asserted(headers, records, a) && Evident(headers, records, a, item)
  }

  // ----- lists of candidates -----

  /** Some candidate for the assertion has the item. */
  ghost predicate Listed(cs: seq<Candidate>, a: Assertion, item: Item) {
    exists i :: 0 <= i < |cs| && cs[i].assertion == a && Has(cs[i], item)
  }

  lemma ListedAppend(x: seq<Candidate>, y: seq<Candidate>, a: Assertion, item: Item)
    ensures Listed(x + y, a, item) <==> Listed(x, a, item) || Listed(y, a, item)
  {
    if Listed(x, a, item) {
      var i :| 0 <= i < |x| && x[i].assertion == a && Has(x[i], item);
      assert (x + y)[i] == x[i];
    }
    if Listed(y, a, item) {
      var i :| 0 <= i < |y| && y[i].assertion == a && Has(y[i], item);
      assert (x + y)[|x| + i] == y[i];
    }
  }

  ghost predicate ListedAmong(ss: seq<seq<Candidate>>, a: Assertion, item: Item) {
    exists p :: 0 <= p < |ss| && Listed(ss[p], a, item)
  }

  lemma AmongLast(ss: seq<seq<Candidate>>, a: Assertion, item: Item)
    requires ss != []
    ensures var n := |ss| - 1;
      ListedAmong(ss, a, item) <==> ListedAmong(ss[..n], a, item) || Listed(ss[n], a, item)
  {
    var n := |ss| - 1;
    if ListedAmong(ss[..n], a, item) {
      var p :| 0 <= p < n && Listed(ss[..n][p], a, item);
      assert Listed(ss[p], a, item);
    }
    if ListedAmong(ss, a, item) {
      var p :| 0 <= p < |ss| && Listed(ss[p], a, item);
      if p < n { assert Listed(ss[..n][p], a, item); }
    }
  }

  lemma {:induction false} ListedFlat(ss: seq<seq<Candidate>>, a: Assertion, item: Item)
    ensures Listed(Flat(ss), a, item) <==> ListedAmong(ss, a, item)
    decreases |ss|
  {
    if ss != [] {
      var n := |ss| - 1;
      ListedFlat(ss[..n], a, item);
      AmongLast(ss, a, item);
      ListedAppend(Flat(ss[..n]), ss[n], a, item);
    }
  }

  // ----- consolidation keeps everything -----

  ghost predicate Identified(codec: Codec, cs: seq<Candidate>) {
    forall i :: 0 <= i < |cs| ==> cs[i].id == codec.id(cs[i].assertion)
  }

  lemma PoolHas(codec: Codec, a: Candidate, b: Candidate, item: Item)
    requires codec.Faithful()
    ensures Has(Pool(codec, a, b), item) <==> Has(a, item) || Has(b, item)
  {
    StrOrder();
    ContextOrder();
    ProvenanceOrder(codec);
    SortDedupStrict(a.sources + b.sources, StrLe);
    SortDedupStrict(a.provenance + b.provenance, codec.ProvenanceLe());
    SortDedupStrict(a.observedScopes + b.observedScopes, ContextLe);
  }

  ghost predicate PooledHolds(codec: Codec, m: map<string, Candidate>, a: Assertion, item: Item) {
    codec.id(a) in m && m[codec.id(a)].assertion == a && Has(m[codec.id(a)], item)
  }

  ghost predicate PooledIdentified(codec: Codec, m: map<string, Candidate>) {
    forall id :: id in m ==> m[id].id == id == codec.id(m[id].assertion)
  }

  lemma SameAssertion(codec: Codec, a: Assertion, b: Assertion)
    requires codec.Faithful() && codec.id(a) == codec.id(b)
    ensures a == b
  {}

  lemma PoolIntoHolds(codec: Codec, m: map<string, Candidate>, c: Candidate, a: Assertion, item: Item)
    requires codec.Faithful() && PooledIdentified(codec, m) && c.id == codec.id(c.assertion)
    ensures PooledIdentified(codec, PoolInto(codec, m, c))
    ensures PooledHolds(codec, PoolInto(codec, m, c), a, item)
            <==> PooledHolds(codec, m, a, item) || (c.assertion == a && Has(c, item))
  {
    if c.id in m {
      SameAssertion(codec, m[c.id].assertion, c.assertion);
      PoolHas(codec, m[c.id], c, item);
    }
    if c.id == codec.id(a) { SameAssertion(codec, c.assertion, a); }
  }

  lemma {:induction false} PooledListed(codec: Codec, cs: seq<Candidate>, a: Assertion, item: Item)
    requires codec.Faithful() && Identified(codec, cs)
    ensures PooledIdentified(codec, Pooled(codec, cs))
    ensures PooledHolds(codec, Pooled(codec, cs), a, item) <==> Listed(cs, a, item)
    decreases |cs|
  {
    if cs != [] {
      var n := |cs| - 1;
      PooledListed(codec, cs[..n], a, item);
      PoolIntoHolds(codec, Pooled(codec, cs[..n]), cs[n], a, item);
      ListedLast(cs, a, item);
    }
  }

  lemma ListedLast(cs: seq<Candidate>, a: Assertion, item: Item)
    requires cs != []
    ensures var n := |cs| - 1;
      Listed(cs, a, item) <==> Listed(cs[..n], a, item) || (cs[n].assertion == a && Has(cs[n], item))
  {
    var n := |cs| - 1;
    ListedAppend(cs[..n], [cs[n]], a, item);
    assert cs == cs[..n] + [cs[n]];
    ListedOne(cs[n], a, item);
  }

  lemma ListedOne(c: Candidate, a: Assertion, item: Item)
    ensures Listed([c], a, item) <==> c.assertion == a && Has(c, item)
  {
    if c.assertion == a && Has(c, item) { assert [c][0].assertion == a; }
  }

  lemma ConsolidatedListed(codec: Codec, cs: seq<Candidate>, a: Assertion, item: Item)
    requires codec.Faithful() && Identified(codec, cs)
    ensures Listed(Consolidate(codec, cs), a, item) <==> Listed(cs, a, item)
    ensures Identified(codec, Consolidate(codec, cs)) && InStrictOrder(Consolidate(codec, cs))
  {
    var m := Pooled(codec, cs);
    PooledListed(codec, cs, a, item);
    InIdOrderIs(m);
    StrictIds(InIdOrder(m));
    OrderedHolds(codec, m, a, item);
  }

  lemma OrderedAt(m: map<string, Candidate>, i: nat)
    requires i < |InIdOrder(m)|
    ensures exists id :: id in m && InIdOrder(m)[i] == m[id]
  {
    StrOrder();
    var ids := Ascending(m.Keys, StrLe);
    assert ids[i] in ids;
    assert InIdOrder(m)[i] == m[ids[i]];
  }

  lemma OrderedPlace(m: map<string, Candidate>, id: string) returns (i: nat)
    requires id in m
    ensures i < |InIdOrder(m)| && InIdOrder(m)[i] == m[id]
  {
    StrOrder();
    var ids := Ascending(m.Keys, StrLe);
    assert id in ids;
    i :| 0 <= i < |ids| && ids[i] == id;
  }

  lemma OrderedHolds(codec: Codec, m: map<string, Candidate>, a: Assertion, item: Item)
    requires codec.Faithful() && PooledIdentified(codec, m)
    ensures Listed(InIdOrder(m), a, item) <==> PooledHolds(codec, m, a, item)
  {
    if PooledHolds(codec, m, a, item) {
      var i := OrderedPlace(m, codec.id(a));
      assert InIdOrder(m)[i].assertion == a && Has(InIdOrder(m)[i], item);
    }
    if Listed(InIdOrder(m), a, item) {
      var i :| 0 <= i < |InIdOrder(m)| && InIdOrder(m)[i].assertion == a && Has(InIdOrder(m)[i], item);
      OrderedAt(m, i);
      var id :| id in m && InIdOrder(m)[i] == m[id];
      assert m[id].id == id == codec.id(a);
    }
  }

  // ----- single candidates -----

  predicate Carries(sources: seq<string>, provenance: seq<Provenance>, scopes: seq<Context>, item: Item) {
    match item
    case Present => true
    case From(s) => s in sources
    case By(p) => p in provenance
    case In(x) => x in scopes
  }

  lemma MadeHas(codec: Codec, a: Assertion, sources: seq<string>, provenance: seq<Provenance>, item: Item)
    requires codec.Faithful()
    ensures var c := MakeCandidate(codec, a, sources, provenance);
      c.id == codec.id(a) && c.assertion == a && (Has(c, item) <==> Carries(sources, provenance, [], item))
  {
    StrOrder();
    ProvenanceOrder(codec);
    SortDedupStrict(sources, StrLe);
    SortDedupStrict(provenance, codec.ProvenanceLe());
  }

  // ----- identities -----

  lemma IdentitiesListed(codec: Codec, headers: seq<Observation>, a: Assertion, item: Item)
    requires codec.Faithful()
    ensures Identified(codec, IdentityCandidates(codec, headers))
    ensures Listed(IdentityCandidates(codec, headers), a, item)
            <==> a.CameraIdentity? && (exists i :: 0 <= i < |headers| && CameraOf(headers[i]) == a.camera)
                 && Carries(Map(headers, NameOf), [], [], item)
  {
    CameraOrder();
    var cameras := Ascending(Elements(Map(headers, CameraOf)), CameraLe);
    var cs := IdentityCandidates(codec, headers);
    forall i | 0 <= i < |cameras|
      ensures cs[i].assertion == CameraIdentity(cameras[i]) && cs[i].id == codec.id(cs[i].assertion)
      ensures Has(cs[i], item) <==> Carries(Map(headers, NameOf), [], [], item)
    {
      MadeHas(codec, CameraIdentity(cameras[i]), Map(headers, NameOf), [], item);
    }
    if a.CameraIdentity? { CameraListed(headers, a.camera, cameras); }
  }

  lemma CameraListed(headers: seq<Observation>, c: Camera, cameras: seq<Camera>)
    requires forall x :: x in cameras <==> x in Elements(Map(headers, CameraOf))
    ensures (exists i :: 0 <= i < |headers| && CameraOf(headers[i]) == c)
            <==> exists i :: 0 <= i < |cameras| && cameras[i] == c
  {
    var all := Map(headers, CameraOf);
    assert c in all <==> c in cameras;
    if c in cameras {
      var i :| 0 <= i < |all| && all[i] == c;
      assert CameraOf(headers[i]) == c;
    }
    if i :| 0 <= i < |headers| && CameraOf(headers[i]) == c { assert all[i] == c; }
  }

  // ----- what single records say -----

  lemma NamesListed(codec: Codec, r: Observation, name: Option<NameAssertion>, make: string -> Assertion, a: Assertion,
                    item: Item)
    requires codec.Faithful()
    ensures Identified(codec, NameCandidates(codec, r, name, make))
    ensures Listed(NameCandidates(codec, r, name, make), a, item)
            <==> name.Some? && make(name.value.name) == a && Carries([r.Name()], [name.value.provenance], [], item)
  {
    if name.Some? {
      MadeHas(codec, make(name.value.name), [r.Name()], [name.value.provenance], item);
      ListedOne(NameCandidates(codec, r, name, make)[0], a, item);
    }
  }

  ghost predicate RowTold(r: Observation, rows: seq<ValueRow>, code: string, a: Assertion, item: Item) {
    exists i :: 0 <= i < |rows| && a == PropertyValueRow(code, rows[i].value, rows[i].caption)
                && Carries([r.Name()], [rows[i].provenance], [], item)
  }

  lemma RowsListed(codec: Codec, r: Observation, code: string, rows: seq<ValueRow>, a: Assertion, item: Item)
    requires codec.Faithful()
    ensures Identified(codec, Map(rows, RowCandidate(codec, r, code)))
    ensures Listed(Map(rows, RowCandidate(codec, r, code)), a, item) <==> RowTold(r, rows, code, a, item)
  {
    var cs := Map(rows, RowCandidate(codec, r, code));
    forall i | 0 <= i < |rows|
      ensures cs[i].assertion == PropertyValueRow(code, rows[i].value, rows[i].caption)
      ensures cs[i].id == codec.id(cs[i].assertion)
      ensures Has(cs[i], item) <==> Carries([r.Name()], [rows[i].provenance], [], item)
    {
      MadeHas(codec, PropertyValueRow(code, rows[i].value, rows[i].caption), [r.Name()], [rows[i].provenance], item);
    }
  }

  ghost predicate ProfileTold(r: Observation, ps: seq<ValueProfile>, code: string, epistemic: string, a: Assertion,
                              item: Item) {
    exists i :: 0 <= i < |ps| && a == PropertyValueProfile(code, ps[i].(evidence := []))
                && Carries([r.Name()], Sourced(ps[i].evidence, epistemic),
                           if r.Capability? then [r.common.context] else [], item)
  }

  function Sourced(evidence: seq<string>, epistemic: string): seq<Provenance> {
    Map(evidence, (reference: string) => Provenance(reference, epistemic))
  }

  lemma ProfilesListed(codec: Codec, r: Observation, code: string, epistemic: string, ps: seq<ValueProfile>,
                       a: Assertion, item: Item)
    requires codec.Faithful()
    ensures Identified(codec, Map(ps, ProfileCandidate(codec, r, code, epistemic)))
    ensures Listed(Map(ps, ProfileCandidate(codec, r, code, epistemic)), a, item)
            <==> ProfileTold(r, ps, code, epistemic, a, item)
  {
    var cs := Map(ps, ProfileCandidate(codec, r, code, epistemic));
    forall i | 0 <= i < |ps|
      ensures cs[i].assertion == PropertyValueProfile(code, ps[i].(evidence := []))
      ensures cs[i].id == codec.id(cs[i].assertion)
      ensures Has(cs[i], item) <==> Carries([r.Name()], Sourced(ps[i].evidence, epistemic),
                                            if r.Capability? then [r.common.context] else [], item)
    {
      MadeHas(codec, PropertyValueProfile(code, ps[i].(evidence := [])), [r.Name()],
              Map(ps[i].evidence, (reference: string) => Provenance(reference, epistemic)), item);
    }
  }

  /** What one record contributes. */
  ghost predicate Contributes(r: Observation, a: Assertion, item: Item) {
    && Tells(r, a)
    && match item
       case Present => true
       case From(s) => s == r.Name()
       case By(p) => TellsFrom(r, a, p)
       case In(x) => a.PropertyValueProfile? && x == r.common.context
  }

  lemma RowMeans(r: Observation, a: Assertion, item: Item)
    requires IsProperty(r)
    ensures RowTold(r, r.subject.valueRows, r.subject.code, a, item)
            <==> a.PropertyValueRow? && Contributes(r, a, item)
  {
    var rows := r.subject.valueRows;
    if RowTold(r, rows, r.subject.code, a, item) {
      var i :| 0 <= i < |rows| && a == PropertyValueRow(r.subject.code, rows[i].value, rows[i].caption)
               && Carries([r.Name()], [rows[i].provenance], [], item);
      assert rows[i] in rows && rows[i] == ValueRow(a.value, a.caption, rows[i].provenance);
    }
    if a.PropertyValueRow? && Contributes(r, a, item) {
      if item.By? {
        var i :| 0 <= i < |rows| && rows[i] == ValueRow(a.value, a.caption, item.provenance);
        assert a == PropertyValueRow(r.subject.code, rows[i].value, rows[i].caption);
      } else {
        var row :| row in rows && row.value == a.value && row.caption == a.caption;
        var i :| 0 <= i < |rows| && rows[i] == row;
        assert a == PropertyValueRow(r.subject.code, rows[i].value, rows[i].caption);
      }
    }
  }

  lemma SourcedBy(evidence: seq<string>, epistemic: string, p: Provenance)
    ensures p in Sourced(evidence, epistemic) <==> p.reference in evidence && p.epistemic == epistemic
  {
    var ps := Sourced(evidence, epistemic);
    if p.reference in evidence && p.epistemic == epistemic {
      var i :| 0 <= i < |evidence| && evidence[i] == p.reference;
      assert ps[i] == p;
    }
  }

  lemma ProfileMeans(r: Observation, a: Assertion, item: Item)
    requires IsProperty(r)
    ensures ProfileTold(r, r.subject.valueProfiles, r.subject.code, r.common.epistemic, a, item)
            <==> a.PropertyValueProfile? && Contributes(r, a, item)
  {
    var ps, e := r.subject.valueProfiles, r.common.epistemic;
    if ProfileTold(r, ps, r.subject.code, e, a, item) {
      var i :| 0 <= i < |ps| && a == PropertyValueProfile(r.subject.code, ps[i].(evidence := []))
               && Carries([r.Name()], Sourced(ps[i].evidence, e), [r.common.context], item);
      assert ps[i] in ps;
      if item.By? { SourcedBy(ps[i].evidence, e, item.provenance); }
    }
    if a.PropertyValueProfile? && Contributes(r, a, item) {
      var q :| q in ps && q.(evidence := []) == a.profile
               && (item.By? ==> item.provenance.reference in q.evidence);
      var i :| 0 <= i < |ps| && ps[i] == q;
      if item.By? { SourcedBy(ps[i].evidence, e, item.provenance); }
      assert a == PropertyValueProfile(r.subject.code, ps[i].(evidence := []));
    }
  }

  lemma IdentifiedAppend(codec: Codec, x: seq<Candidate>, y: seq<Candidate>)
    requires Identified(codec, x) && Identified(codec, y)
    ensures Identified(codec, x + y)
  {}

  lemma {:induction false} IdentifiedFlat(codec: Codec, ss: seq<seq<Candidate>>)
    requires forall p :: 0 <= p < |ss| ==> Identified(codec, ss[p])
    ensures Identified(codec, Flat(ss))
    decreases |ss|
  {
    if ss != [] {
      IdentifiedFlat(codec, ss[..|ss| - 1]);
      IdentifiedAppend(codec, Flat(ss[..|ss| - 1]), ss[|ss| - 1]);
    }
  }

  lemma FourListed(codec: Codec, w: seq<Candidate>, x: seq<Candidate>, y: seq<Candidate>, z: seq<Candidate>,
                   a: Assertion, item: Item)
    requires Identified(codec, w) && Identified(codec, x) && Identified(codec, y) && Identified(codec, z)
    ensures Identified(codec, w + x + y + z)
    ensures Listed(w + x + y + z, a, item)
            <==> Listed(w, a, item) || Listed(x, a, item) || Listed(y, a, item) || Listed(z, a, item)
  {
    ListedAppend(w + x + y, z, a, item);
    ListedAppend(w + x, y, a, item);
    ListedAppend(w, x, a, item);
    IdentifiedAppend(codec, w, x);
    IdentifiedAppend(codec, w + x, y);
    IdentifiedAppend(codec, w + x + y, z);
  }

  lemma OperationMeans(codec: Codec, r: Observation, a: Assertion, item: Item)
    requires codec.Faithful() && IsOperation(r)
    ensures Identified(codec, RecordCandidates(codec, r))
    ensures Listed(RecordCandidates(codec, r), a, item) <==> Contributes(r, a, item)
  {
    NamesListed(codec, r, r.subject.canonicalName, OperationNamed(r.subject.code), a, item);
    OperationNameMeans(r, a, item);
  }

  lemma OperationNameMeans(r: Observation, a: Assertion, item: Item)
    requires IsOperation(r)
    ensures var name := r.subject.canonicalName;
      name.Some? && OperationName(r.subject.code, name.value.name) == a
        && Carries([r.Name()], [name.value.provenance], [], item)
      <==> Contributes(r, a, item)
  {}

  lemma NameMeans(r: Observation, a: Assertion, item: Item)
    requires IsProperty(r)
    ensures var name := r.subject.canonicalName;
      name.Some? && PropertyName(r.subject.code, name.value.name) == a
        && Carries([r.Name()], [name.value.provenance], [], item)
      <==> a.PropertyName? && Contributes(r, a, item)
    ensures var name := r.subject.sourceNativeName;
      name.Some? && PropertySourceNativeName(r.subject.code, name.value.name) == a
        && Carries([r.Name()], [name.value.provenance], [], item)
      <==> a.PropertySourceNativeName? && Contributes(r, a, item)
  {}

  lemma PropertyMeans(codec: Codec, r: Observation, a: Assertion, item: Item)
    requires codec.Faithful() && IsProperty(r)
    ensures Identified(codec, RecordCandidates(codec, r))
    ensures Listed(RecordCandidates(codec, r), a, item) <==> Contributes(r, a, item)
  {
    var s, code := r.subject, r.subject.code;
    NamesListed(codec, r, s.canonicalName, PropertyNamed(code), a, item);
    NamesListed(codec, r, s.sourceNativeName, PropertyNativelyNamed(code), a, item);
    RowsListed(codec, r, code, s.valueRows, a, item);
    ProfilesListed(codec, r, code, r.common.epistemic, s.valueProfiles, a, item);
    FourListed(codec, NameCandidates(codec, r, s.canonicalName, PropertyNamed(code)),
               NameCandidates(codec, r, s.sourceNativeName, PropertyNativelyNamed(code)),
               Map(s.valueRows, RowCandidate(codec, r, code)),
               Map(s.valueProfiles, ProfileCandidate(codec, r, code, r.common.epistemic)), a, item);
    NameMeans(r, a, item);
    RowMeans(r, a, item);
    ProfileMeans(r, a, item);
  }

  lemma RecordMeans(codec: Codec, r: Observation, a: Assertion, item: Item)
    requires codec.Faithful()
    ensures Identified(codec, RecordCandidates(codec, r))
    ensures Listed(RecordCandidates(codec, r), a, item) <==> Contributes(r, a, item)
  {
    if IsOperation(r) {
      OperationMeans(codec, r, a, item);
    } else if IsProperty(r) {
      PropertyMeans(codec, r, a, item);
    }
  }

  ghost predicate SomeContributes(records: seq<Observation>, a: Assertion, item: Item) {
    exists i :: 0 <= i < |records| && Contributes(records[i], a, item)
  }

  lemma RecordsListed(codec: Codec, records: seq<Observation>, a: Assertion, item: Item)
    requires codec.Faithful()
    ensures Identified(codec, Flat(Map(records, RecordMaker(codec))))
    ensures Listed(Flat(Map(records, RecordMaker(codec))), a, item) <==> SomeContributes(records, a, item)
  {
    var ss := Map(records, RecordMaker(codec));
    ListedFlat(ss, a, item);
    forall p | 0 <= p < |records|
      ensures Identified(codec, ss[p]) && (Listed(ss[p], a, item) <==> Contributes(records[p], a, item))
    {
      RecordMeans(codec, records[p], a, item);
    }
    IdentifiedFlat(codec, ss);
  }

  // ----- aggregates -----

  lemma ListsOnce(scopes: seq<Context>, s: set<Context>)
    ensures Lists(scopes, s) <==> scopes == Scopes(s)
  {
    ContextOrder();
    assert forall x :: x in Elements(Scopes(s)) <==> x in s;
    if Lists(scopes, s) { StrictUnique(scopes, Scopes(s), ContextLe); }
  }

  lemma KeyPlace<V>(m: map<Key, V>, k: Key) returns (i: nat)
    requires k in m
    ensures i < |Keys(m)| && Keys(m)[i] == k
  {
    KeyOrder();
    assert k in Keys(m);
    i :| 0 <= i < |Keys(m)| && Keys(m)[i] == k;
  }

  ghost predicate OperationClaimed(k: Key, g: OperationAggregate, a: Assertion, item: Item) {
    a.OperationSupport? && KeyOf(a) == k && Lists(a.scopes, g.scopes) && Carries(Sources(g.sources), [], [], item)
  }

  lemma OperationMade(codec: Codec, k: Key, g: OperationAggregate, a: Assertion, item: Item)
    requires codec.Faithful()
    ensures var c := OperationCandidate(codec, k, g);
      c.id == codec.id(c.assertion) && (c.assertion == a && Has(c, item) <==> OperationClaimed(k, g, a, item))
  {
    MadeHas(codec, OperationSupport(k.code, k.supported, k.completeness, Scopes(g.scopes)), Sources(g.sources), [],
            item);
    if a.OperationSupport? { ListsOnce(a.scopes, g.scopes); }
  }

  lemma OperationsListed(codec: Codec, m: map<Key, OperationAggregate>, a: Assertion, item: Item)
    requires codec.Faithful()
    ensures Identified(codec, Map(Keys(m), OperationMaker(codec, m)))
    ensures Listed(Map(Keys(m), OperationMaker(codec, m)), a, item)
            <==> a.OperationSupport? && KeyOf(a) in m && OperationClaimed(KeyOf(a), m[KeyOf(a)], a, item)
  {
    var cs := Map(Keys(m), OperationMaker(codec, m));
    forall i | 0 <= i < |cs| ensures cs[i].id == codec.id(cs[i].assertion) { OperationAt(codec, m, i, a, item); }
    if Listed(cs, a, item) {
      var i :| 0 <= i < |cs| && cs[i].assertion == a && Has(cs[i], item);
      OperationAt(codec, m, i, a, item);
    }
    if a.OperationSupport? && KeyOf(a) in m {
      var i := KeyPlace(m, KeyOf(a));
      OperationAt(codec, m, i, a, item);
    }
  }

  lemma OperationAt(codec: Codec, m: map<Key, OperationAggregate>, i: nat, a: Assertion, item: Item)
    requires codec.Faithful() && i < |Keys(m)|
    ensures var c, k := Map(Keys(m), OperationMaker(codec, m))[i], Keys(m)[i];
      && k in m && c.id == codec.id(c.assertion)
      && (c.assertion == a && Has(c, item) <==> OperationClaimed(k, m[k], a, item))
  {
    KeysListed(m, i);
    OperationMade(codec, Keys(m)[i], m[Keys(m)[i]], a, item);
  }

  lemma FirstGivenOnce<T(!new)>(records: seq<Observation>, k: Key, pick: Observation -> Option<T>, x: Option<T>,
                                y: Option<T>)
    requires FirstGiven(records, k, pick, x) && FirstGiven(records, k, pick, y)
    ensures x == y
  {
    if x.Some? && y.Some? {
      var i :| Describes(records, k, i) && pick(records[i]) == x
               && forall j :: j < i && Describes(records, k, j) ==> pick(records[j]).None?;
      var j :| Describes(records, k, j) && pick(records[j]) == y
               && forall l :: l < j && Describes(records, k, l) ==> pick(records[l]).None?;
      assert i == j;
    }
  }

  lemma LabelsOnce(records: seq<Observation>, k: Key, x: map<string, string>, y: map<string, string>)
    requires forall raw :: FirstGiven(records, k, CaptionGiven(raw), Lookup(x, raw))
    requires forall raw :: FirstGiven(records, k, CaptionGiven(raw), Lookup(y, raw))
    ensures x == y
  {
    forall raw ensures Lookup(x, raw) == Lookup(y, raw) {
      FirstGivenOnce(records, k, CaptionGiven(raw), Lookup(x, raw), Lookup(y, raw));
    }
    SameLookups(x, y);
  }

  lemma SameLookups(x: map<string, string>, y: map<string, string>)
    requires forall raw :: Lookup(x, raw) == Lookup(y, raw)
    ensures x == y
  {
    assert forall raw :: raw in x <==> Lookup(x, raw).Some?;
    assert forall raw :: raw in y <==> Lookup(y, raw).Some?;
  }

  /** The aggregate of the records under a key. */
  ghost predicate Closes(records: seq<Observation>, k: Key, g: PropertyAggregate) {
    FirstFacts(records, k, g) && ExactEvidence(records, k, g)
  }

  function TypeAssertion(k: Key, g: PropertyAggregate): Assertion {
    PropertySupport(k.code, k.supported, k.completeness, g.propertyType, g.access, None, map[], [], Scopes(g.scopes))
  }

  lemma TypeIs(records: seq<Observation>, k: Key, g: PropertyAggregate, a: Assertion)
    requires Closes(records, k, g)
    ensures a == TypeAssertion(k, g)
            <==> a.PropertySupport? && KeyOf(a) == k && a.valueProfiles == [] && TypeForm(records, k, a)
  {
    if a.PropertySupport? {
      ListsOnce(a.scopes, g.scopes);
      if KeyOf(a) == k && TypeForm(records, k, a) {
        FirstGivenOnce(records, k, TypeGiven, a.propertyType, g.propertyType);
        FirstGivenOnce(records, k, AccessGiven, a.access, g.access);
      }
    }
  }

  lemma TypeMade(codec: Codec, records: seq<Observation>, k: Key, g: PropertyAggregate, a: Assertion, item: Item)
    requires codec.Faithful() && Closes(records, k, g)
    ensures var c := TypeCandidate(codec, k, g);
      && c.id == codec.id(c.assertion)
      && (c.assertion == a && Has(c, item)
          <==> a.PropertySupport? && KeyOf(a) == k && a.valueProfiles == [] && TypeForm(records, k, a)
               && Carries(Sources(g.sources), [], [], item))
  {
    TypeIs(records, k, g, a);
    MadeHas(codec, TypeAssertion(k, g), Sources(g.sources), [], item);
  }

  function DescriptorAssertion(k: Key, g: PropertyAggregate): Assertion {
    PropertySupport(k.code, k.supported, k.completeness, None, None, g.descriptor, map[], [], Scopes(g.scopes))
  }

  lemma DescriptorIs(records: seq<Observation>, k: Key, g: PropertyAggregate, a: Assertion)
    requires Closes(records, k, g)
    ensures g.descriptor.Some? && a == DescriptorAssertion(k, g)
            <==> a.PropertySupport? && KeyOf(a) == k && a.valueProfiles == [] && DescriptorForm(records, k, a)
  {
    if a.PropertySupport? {
      ListsOnce(a.scopes, g.scopes);
      if KeyOf(a) == k && DescriptorForm(records, k, a) {
        FirstGivenOnce(records, k, DescriptorGiven, a.descriptor, g.descriptor);
      }
    }
  }

  lemma DescriptorMade(codec: Codec, records: seq<Observation>, k: Key, g: PropertyAggregate, a: Assertion, item: Item)
    requires codec.Faithful() && Closes(records, k, g)
    ensures var cs := DescriptorCandidates(codec, k, g);
      && Identified(codec, cs)
      && (Listed(cs, a, item)
          <==> a.PropertySupport? && KeyOf(a) == k && a.valueProfiles == [] && DescriptorForm(records, k, a)
               && Carries(Sources(g.sources), [], [], item))
  {
    DescriptorIs(records, k, g, a);
    if g.descriptor.Some? {
      var c := DescriptorCandidates(codec, k, g)[0];
      MadeHas(codec, DescriptorAssertion(k, g), Sources(g.sources), [], item);
      ListedOne(c, a, item);
    }
  }

  function LabelAssertion(k: Key, g: PropertyAggregate): Assertion {
    PropertySupport(k.code, k.supported, k.completeness, None, None, None, g.labels, [], Scopes(g.labelScopes))
  }

  lemma LabelsAre(records: seq<Observation>, k: Key, g: PropertyAggregate, a: Assertion)
    requires Closes(records, k, g)
    ensures g.labels != map[] && a == LabelAssertion(k, g)
            <==> a.PropertySupport? && KeyOf(a) == k && a.valueProfiles == [] && LabelForm(records, k, a)
  {
    if a.PropertySupport? {
      ListsOnce(a.scopes, g.labelScopes);
      if KeyOf(a) == k && LabelForm(records, k, a) { LabelsOnce(records, k, a.labels, g.labels); }
    }
  }

  lemma LabelsMade(codec: Codec, records: seq<Observation>, k: Key, g: PropertyAggregate, a: Assertion, item: Item)
    requires codec.Faithful() && Closes(records, k, g)
    ensures var cs := LabelCandidates(codec, k, g);
      && Identified(codec, cs)
      && (Listed(cs, a, item)
          <==> a.PropertySupport? && KeyOf(a) == k && a.valueProfiles == [] && LabelForm(records, k, a)
               && Carries(Sources(g.labelSources), [], [], item))
  {
    LabelsAre(records, k, g, a);
    if g.labels != map[] {
      var c := LabelCandidates(codec, k, g)[0];
      MadeHas(codec, LabelAssertion(k, g), Sources(g.labelSources), [], item);
      ListedOne(c, a, item);
    }
  }

  ghost predicate PropertyClaimed(records: seq<Observation>, k: Key, g: PropertyAggregate, a: Assertion, item: Item) {
    && a.PropertySupport? && KeyOf(a) == k && a.valueProfiles == []
    && (TypeForm(records, k, a) || DescriptorForm(records, k, a) || LabelForm(records, k, a))
    && Carries(Sources(if a.labels == map[] then g.sources else g.labelSources), [], [], item)
  }

  lemma TripleMade(codec: Codec, records: seq<Observation>, k: Key, g: PropertyAggregate, a: Assertion, item: Item)
    requires codec.Faithful() && Closes(records, k, g)
    ensures Identified(codec, PropertyTriple(codec, k, g))
    ensures Listed(PropertyTriple(codec, k, g), a, item) <==> PropertyClaimed(records, k, g, a, item)
  {
    var c := TypeCandidate(codec, k, g);
    TypeMade(codec, records, k, g, a, item);
    DescriptorMade(codec, records, k, g, a, item);
    LabelsMade(codec, records, k, g, a, item);
    ListedOne(c, a, item);
    ListedAppend([c], DescriptorCandidates(codec, k, g), a, item);
    ListedAppend([c] + DescriptorCandidates(codec, k, g), LabelCandidates(codec, k, g), a, item);
    IdentifiedAppend(codec, [c], DescriptorCandidates(codec, k, g));
    IdentifiedAppend(codec, [c] + DescriptorCandidates(codec, k, g), LabelCandidates(codec, k, g));
  }

  lemma PropertiesListed(codec: Codec, records: seq<Observation>, a: Assertion, item: Item)
    requires codec.Faithful()
    ensures var m := Properties(records);
      && Identified(codec, Flat(Map(Keys(m), PropertyMaker(codec, m))))
      && (Listed(Flat(Map(Keys(m), PropertyMaker(codec, m))), a, item)
          <==> a.PropertySupport? && KeyOf(a) in m && PropertyClaimed(records, KeyOf(a), m[KeyOf(a)], a, item))
  {
    var m := Properties(records);
    var keys, ss := Keys(m), Map(Keys(m), PropertyMaker(codec, m));
    forall p | 0 <= p < |keys|
      ensures keys[p] in m && Identified(codec, ss[p])
      ensures Listed(ss[p], a, item) <==> PropertyClaimed(records, keys[p], m[keys[p]], a, item)
    {
      KeysListed(m, p);
      PropertyAggregateClosed(records, keys[p]);
      TripleMade(codec, records, keys[p], m[keys[p]], a, item);
    }
    IdentifiedFlat(codec, ss);
    ListedFlat(ss, a, item);
    if a.PropertySupport? && KeyOf(a) in m {
      var p := KeyPlace(m, KeyOf(a));
      assert Listed(ss[p], a, item) <==> PropertyClaimed(records, KeyOf(a), m[KeyOf(a)], a, item);
    }
  }

  // ----- the whole proposal -----

  lemma RawListed(codec: Codec, headers: seq<Observation>, records: seq<Observation>, a: Assertion, item: Item)
    requires codec.Faithful()
    ensures Identified(codec, RawCandidates(codec, headers, records))
    ensures Listed(RawCandidates(codec, headers, records), a, item) <==> Expected(headers, records, a, item)
  {
    var m, g := Operations(records), Properties(records);
    IdentitiesListed(codec, headers, a, item);
    RecordsListed(codec, records, a, item);
    OperationsListed(codec, m, a, item);
    PropertiesListed(codec, records, a, item);
    FourListed(codec, IdentityCandidates(codec, headers), Flat(Map(records, RecordMaker(codec))),
               Map(Keys(m), OperationMaker(codec, m)), Flat(Map(Keys(g), PropertyMaker(codec, g))), a, item);
    match a {
      case CameraIdentity(_) => IdentityExpected(headers, records, a, item);
      case OperationSupport(_, _, _, _) =>
        NotTold(records, a, item);
        OperationExpected(headers, records, a, item);
      case PropertySupport(_, _, _, _, _, _, _, _, _) =>
        NotTold(records, a, item);
        PropertyExpected(headers, records, a, item);
      case _ => RecordExpected(headers, records, a, item);
    }
  }

  lemma NotTold(records: seq<Observation>, a: Assertion, item: Item)
    requires a.CameraIdentity? || a.OperationSupport? || a.PropertySupport?
    ensures !SomeContributes(records, a, item)
  {}

  lemma NamesOf(observations: seq<Observation>, s: string)
    ensures s in Map(observations, NameOf) <==> NamedAmong(observations, s)
  {
    var names := Map(observations, NameOf);
    if i :| 0 <= i < |observations| && observations[i].Name() == s { assert names[i] == s; }
    if s in names {
      var i :| 0 <= i < |names| && names[i] == s;
      assert observations[i].Name() == s;
    }
  }

  lemma IdentityExpected(headers: seq<Observation>, records: seq<Observation>, a: Assertion, item: Item)
    requires a.CameraIdentity?
    ensures !SomeContributes(records, a, item)
    ensures Expected(headers, records, a, item)
            <==> (exists i :: 0 <= i < |headers| && CameraOf(headers[i]) == a.camera)
                 && Carries(Map(headers, NameOf), [], [], item)
  {
    NotTold(records, a, item);
    if item.From? { NamesOf(headers, item.source); }
  }

  /** Support has sources, and neither provenance nor observed scopes. */
  lemma SupportEvident(headers: seq<Observation>, records: seq<Observation>, a: Assertion, names: set<string>,
                       item: Item)
    requires a.OperationSupport? || a.PropertySupport?
    requires item.From? ==> (Supports(headers, records, a, item.source) <==> item.source in names)
    ensures Evident(headers, records, a, item) <==> Carries(Sources(names), [], [], item)
  {
    if item.From? { SourcesListed(names); }
  }

  lemma OperationEvident(headers: seq<Observation>, records: seq<Observation>, a: Assertion, item: Item)
    requires a.OperationSupport?
    ensures Evident(headers, records, a, item)
            <==> Carries(Sources(OperatingNames(records, KeyOf(a))), [], [], item)
  {
    SupportEvident(headers, records, a, OperatingNames(records, KeyOf(a)), item);
  }

  lemma OperationExpected(headers: seq<Observation>, records: seq<Observation>, a: Assertion, item: Item)
    requires a.OperationSupport?
    ensures var m, k := Operations(records), KeyOf(a);
      Expected(headers, records, a, item) <==> k in m && OperationClaimed(k, m[k], a, item)
  {
    OperationAggregateClosed(records, KeyOf(a));
    OperationEvident(headers, records, a, item);
  }

  lemma PropertyEvident(headers: seq<Observation>, records: seq<Observation>, a: Assertion, item: Item)
    requires a.PropertySupport?
    ensures var k := KeyOf(a);
      var names := if a.labels == map[] then DescribingNames(records, k) else LabellingNames(records, k);
      Evident(headers, records, a, item) <==> Carries(Sources(names), [], [], item)
  {
    var k := KeyOf(a);
    SupportEvident(headers, records, a, if a.labels == map[] then DescribingNames(records, k)
                                        else LabellingNames(records, k), item);
  }

  lemma PropertyExpected(headers: seq<Observation>, records: seq<Observation>, a: Assertion, item: Item)
    requires a.PropertySupport?
    ensures var m, k := Properties(records), KeyOf(a);
      Expected(headers, records, a, item) <==> k in m && PropertyClaimed(records, k, m[k], a, item)
  {
    var k := KeyOf(a);
    PropertyEvident(headers, records, a, item);
    PropertyKnown(records, a);
    if k in Properties(records) {
      PropertyFormed(headers, records, a);
      assert Sources(if a.labels == map[] then DescribingNames(records, k) else LabellingNames(records, k))
          == Sources(if a.labels == map[] then Properties(records)[k].sources else Properties(records)[k].labelSources);
    }
  }

  lemma PropertyFormed(headers: seq<Observation>, records: seq<Observation>, a: Assertion)
    requires a.PropertySupport? && SomeDescribes(records, KeyOf(a))
    ensures var k := KeyOf(a);
      Asserted(headers, records, a)
      <==> a.valueProfiles == [] && (TypeForm(records, k, a) || DescriptorForm(records, k, a) || LabelForm(records, k, a))
  {}

  lemma PropertyKnown(records: seq<Observation>, a: Assertion)
    requires a.PropertySupport?
    ensures var m, k := Properties(records), KeyOf(a);
      && (SomeDescribes(records, k) <==> k in m)
      && (k in m ==> m[k].sources == DescribingNames(records, k) && m[k].labelSources == LabellingNames(records, k))
  {
    PropertyAggregateClosed(records, KeyOf(a));
  }

  lemma RecordExpected(headers: seq<Observation>, records: seq<Observation>, a: Assertion, item: Item)
    requires !a.CameraIdentity? && !a.OperationSupport? && !a.PropertySupport?
    ensures Expected(headers, records, a, item) <==> SomeContributes(records, a, item)
  {}

  lemma BuiltListed(codec: Codec, headers: seq<Observation>, records: seq<Observation>, a: Assertion, item: Item)
    requires codec.Faithful()
    ensures var cs := Consolidate(codec, RawCandidates(codec, headers, records));
      Listed(cs, a, item) <==> Expected(headers, records, a, item)
  {
    RawListed(codec, headers, records, a, item);
    ConsolidatedListed(codec, RawCandidates(codec, headers, records), a, item);
  }

  /** Nothing is listed twice, and everything in order. */
  ghost predicate ListsInOrder(codec: Codec, c: Candidate) {
    Strict(c.sources, StrLe) && Strict(c.provenance, codec.ProvenanceLe()) && Strict(c.observedScopes, ContextLe)
  }

  lemma BuiltOrdered(codec: Codec, headers: seq<Observation>, records: seq<Observation>)
    requires codec.Faithful()
    ensures var cs := Consolidate(codec, RawCandidates(codec, headers, records));
      InStrictOrder(cs) && Identified(codec, cs) && forall c :: c in cs ==> ListsInOrder(codec, c)
  {
    BuiltWell(codec, headers, records);
    StrictIds(Consolidate(codec, RawCandidates(codec, headers, records)));
  }

  lemma BuiltExactly(codec: Codec, headers: seq<Observation>, records: seq<Observation>, cs: seq<Candidate>)
    requires codec.Faithful() && cs == Consolidate(codec, RawCandidates(codec, headers, records))
    ensures forall a, item :: Listed(cs, a, item) <==> Expected(headers, records, a, item)
    ensures InStrictOrder(cs) && Identified(codec, cs) && forall c :: c in cs ==> ListsInOrder(codec, c)
  {
    BuiltOrdered(codec, headers, records);
    forall a, item ensures Listed(cs, a, item) <==> Expected(headers, records, a, item) {
      BuiltListed(codec, headers, records, a, item);
    }
  }

  /**
   * Every candidate of a proposal is for an assertion that the validated input makes,
   * there is exactly one for each, and its sources, provenance and observed scopes are
   * exactly those the input gives, in order.
   */
  lemma ProposedExactly(codec: Codec, rules: Rules, bundles: seq<seq<RawLine>>, v: Validated, p: Proposal)
    requires codec.Faithful() && Validate(rules, bundles) == Ok(v) && Propose(codec, rules, bundles) == Ok(p)
    ensures forall a, item :: Listed(p.candidates, a, item) <==> Expected(v.headers, v.records, a, item)
    ensures InStrictOrder(p.candidates) && Identified(codec, p.candidates)
    ensures forall c :: c in p.candidates ==> ListsInOrder(codec, c)
  {
    BuiltExactly(codec, v.headers, v.records, p.candidates);
  }
}
