// The integrity check that review runs before it trusts a proposal, and why
// every proposal built from well-named records passes it.
module ProposalIntegrity {
  import opened Options
  import opened Observation
  import opened Ordering
  import opened Sorting
  import opened Bags
  import opened Validation
  import opened Proposal

  function IdentityOfRecord(d: RecordDisposition): string { d.identity }

  ghost predicate LinksBack(ds: seq<RecordDisposition>, source: string, id: string) {
    exists d :: d in ds && d.identity == source && id in d.candidateIds
  }

  ghost predicate LinksForward(cs: seq<Candidate>, id: string, identity: string) {
    exists c :: c in cs && c.id == id && identity in c.sources
  }

  ghost predicate CandidateSound(codec: Codec, ds: seq<RecordDisposition>, c: Candidate) {
    && c.id == codec.id(c.assertion)
    && Strict(c.sources, StrLe) && c.sources != []
    && Strict(c.provenance, codec.ProvenanceLe()) && Strict(c.observedScopes, ContextLe)
    && forall s :: s in c.sources ==> LinksBack(ds, s, c.id)
  }

  ghost predicate RecordSound(cs: seq<Candidate>, d: RecordDisposition) {
    && Strict(d.candidateIds, StrLe)
    && (d.status == Proposed <==> d.candidateIds != [])
    && forall id :: id in d.candidateIds ==> LinksForward(cs, id, d.identity)
  }

  /** Everything `require_proposal_integrity` demands. */
  ghost predicate Integrity(codec: Codec, p: Proposal) {
    && p.schema == PROPOSAL_SCHEMA && p.observationSchema == OBSERVATION_SCHEMA
    && Strict(Map(p.candidates, IdOf), StrLe)
    && Strict(Map(p.dispositions, IdentityOfRecord), StrLe)
    && (forall c :: c in p.candidates ==> CandidateSound(codec, p.dispositions, c))
    && (forall d :: d in p.dispositions ==> RecordSound(p.candidates, d))
    && p.digest == codec.digest(p.candidates, p.dispositions)
  }

  // ----- what holds of every candidate on the way -----

  ghost predicate WellMade(codec: Codec, names: set<string>, c: Candidate) {
    && c.id == codec.id(c.assertion)
    && Strict(c.sources, StrLe) && c.sources != []
    && (forall s :: s in c.sources ==> s in names)
    && Strict(c.provenance, codec.ProvenanceLe())
    && Strict(c.observedScopes, ContextLe)
  }

  ghost predicate AllWellMade(codec: Codec, names: set<string>, cs: seq<Candidate>) {
    forall i :: 0 <= i < |cs| ==> WellMade(codec, names, cs[i])
  }

  lemma MadeWell(codec: Codec, names: set<string>, assertion: Assertion, sources: seq<string>,
                 provenance: seq<Provenance>)
    requires codec.Faithful() && sources != [] && forall s :: s in sources ==> s in names
    ensures WellMade(codec, names, MakeCandidate(codec, assertion, sources, provenance))
  {
    StrOrder();
    ProvenanceOrder(codec);
    SortDedupStrict(sources, StrLe);
    SortDedupStrict(provenance, codec.ProvenanceLe());
  }

  lemma PoolWell(codec: Codec, names: set<string>, a: Candidate, b: Candidate)
    requires codec.Faithful() && WellMade(codec, names, a) && WellMade(codec, names, b)
    ensures WellMade(codec, names, Pool(codec, a, b))
  {
    StrOrder();
    ContextOrder();
    ProvenanceOrder(codec);
    SortDedupStrict(a.sources + b.sources, StrLe);
    SortDedupStrict(a.provenance + b.provenance, codec.ProvenanceLe());
    SortDedupStrict(a.observedScopes + b.observedScopes, ContextLe);
  }

  lemma {:induction false} PooledWell(codec: Codec, names: set<string>, cs: seq<Candidate>)
    requires codec.Faithful() && AllWellMade(codec, names, cs)
    ensures forall id :: id in Pooled(codec, cs) ==>
              Pooled(codec, cs)[id].id == id && WellMade(codec, names, Pooled(codec, cs)[id])
    decreases |cs|
  {
    if cs != [] {
      var n := |cs| - 1;
      PooledWell(codec, names, cs[..n]);
      var m := Pooled(codec, cs[..n]);
      if cs[n].id in m { PoolWell(codec, names, m[cs[n].id], cs[n]); }
    }
  }

  lemma InIdOrderIs(m: map<string, Candidate>)
    requires forall id :: id in m ==> m[id].id == id
    ensures Strict(Map(InIdOrder(m), IdOf), StrLe)
    ensures forall i :: 0 <= i < |InIdOrder(m)| ==> InIdOrder(m)[i].id in m && InIdOrder(m)[i] == m[InIdOrder(m)[i].id]
  {
    StrOrder();
    var ids := Ascending(m.Keys, StrLe);
    forall i | 0 <= i < |ids| ensures InIdOrder(m)[i] == m[ids[i]] && InIdOrder(m)[i].id == ids[i] {
      assert ids[i] in ids;
    }
    assert Map(InIdOrder(m), IdOf) == ids;
  }

  lemma ConsolidatedWell(codec: Codec, names: set<string>, cs: seq<Candidate>)
    requires codec.Faithful() && AllWellMade(codec, names, cs)
    ensures AllWellMade(codec, names, Consolidate(codec, cs))
    ensures Strict(Map(Consolidate(codec, cs), IdOf), StrLe)
  {
    PooledWell(codec, names, cs);
    InIdOrderIs(Pooled(codec, cs));
  }

  // ----- raw candidates -----

  lemma IdentityWell(codec: Codec, names: set<string>, headers: seq<Observation>)
    requires codec.Faithful() && forall i :: 0 <= i < |headers| ==> headers[i].Name() in names
    ensures AllWellMade(codec, names, IdentityCandidates(codec, headers))
  {
    CameraOrder();
    var cameras := Ascending(Elements(Map(headers, CameraOf)), CameraLe);
    var sources := Map(headers, NameOf);
    forall i | 0 <= i < |cameras| ensures WellMade(codec, names, IdentityCandidates(codec, headers)[i]) {
      assert cameras[i] in cameras;
      assert cameras[i] in Map(headers, CameraOf);
      MadeWell(codec, names, CameraIdentity(cameras[i]), sources, []);
    }
  }

  lemma NamesWell(codec: Codec, names: set<string>, r: Observation, name: Option<NameAssertion>,
                  make: string -> Assertion)
    requires codec.Faithful() && r.Name() in names
    ensures AllWellMade(codec, names, NameCandidates(codec, r, name, make))
  {
    if name.Some? { MadeWell(codec, names, make(name.value.name), [r.Name()], [name.value.provenance]); }
  }

  lemma RowsWell(codec: Codec, names: set<string>, r: Observation, code: string, rows: seq<ValueRow>)
    requires codec.Faithful() && r.Name() in names
    ensures AllWellMade(codec, names, Map(rows, RowCandidate(codec, r, code)))
  {
    forall i | 0 <= i < |rows| ensures WellMade(codec, names, RowCandidate(codec, r, code)(rows[i])) {
      MadeWell(codec, names, PropertyValueRow(code, rows[i].value, rows[i].caption), [r.Name()], [rows[i].provenance]);
    }
  }

  lemma ProfilesWell(codec: Codec, names: set<string>, r: Observation, code: string, e: string, ps: seq<ValueProfile>)
    requires codec.Faithful() && r.Name() in names
    ensures AllWellMade(codec, names, Map(ps, ProfileCandidate(codec, r, code, e)))
  {
    forall i | 0 <= i < |ps| ensures WellMade(codec, names, ProfileCandidate(codec, r, code, e)(ps[i])) {
      MadeWell(codec, names, PropertyValueProfile(code, ps[i].(evidence := [])), [r.Name()],
               Map(ps[i].evidence, (reference: string) => Provenance(reference, e)));
    }
  }

  lemma RecordWell(codec: Codec, names: set<string>, r: Observation)
    requires codec.Faithful() && r.Name() in names
    ensures AllWellMade(codec, names, RecordCandidates(codec, r))
  {
    if IsOperation(r) {
      NamesWell(codec, names, r, r.subject.canonicalName, OperationNamed(r.subject.code));
    } else if IsProperty(r) {
      var s := r.subject;
      NamesWell(codec, names, r, s.canonicalName, PropertyNamed(s.code));
      NamesWell(codec, names, r, s.sourceNativeName, PropertyNativelyNamed(s.code));
      RowsWell(codec, names, r, s.code, s.valueRows);
      ProfilesWell(codec, names, r, s.code, r.common.epistemic, s.valueProfiles);
    }
  }

  lemma {:induction false} FlatWell(codec: Codec, names: set<string>, css: seq<seq<Candidate>>)
    requires forall i :: 0 <= i < |css| ==> AllWellMade(codec, names, css[i])
    ensures AllWellMade(codec, names, Flat(css))
    decreases |css|
  {
    if css != [] { FlatWell(codec, names, css[..|css| - 1]); }
  }

  lemma RecordsWell(codec: Codec, names: set<string>, records: seq<Observation>)
    requires codec.Faithful() && forall i :: 0 <= i < |records| ==> records[i].Name() in names
    ensures AllWellMade(codec, names, Flat(Map(records, RecordMaker(codec))))
  {
    forall i | 0 <= i < |records| ensures AllWellMade(codec, names, Map(records, RecordMaker(codec))[i]) {
      RecordWell(codec, names, records[i]);
    }
    FlatWell(codec, names, Map(records, RecordMaker(codec)));
  }

  lemma {:induction false} OperationSources(names: set<string>, records: seq<Observation>)
    requires forall i :: 0 <= i < |records| ==> records[i].Name() in names
    ensures forall k :: k in Operations(records) ==> {} != Operations(records)[k].sources <= names
    decreases |records|
  {
    if records != [] { OperationSources(names, records[..|records| - 1]); }
  }

  lemma {:induction false} PropertySources(names: set<string>, records: seq<Observation>)
    requires forall i :: 0 <= i < |records| ==> records[i].Name() in names
    ensures forall k :: k in Properties(records) ==>
      var a := Properties(records)[k];
      {} != a.sources <= names && a.labelSources <= names && (a.labels != map[] ==> a.labelSources != {})
    decreases |records|
  {
    if records != [] {
      PropertySources(names, records[..|records| - 1]);
      var r := records[|records| - 1];
      if IsProperty(r) && r.subject.labels == map[] {
        assert map[] + At(Properties(records[..|records| - 1]), RecordKey(r), NO_PROPERTY).labels
            == At(Properties(records[..|records| - 1]), RecordKey(r), NO_PROPERTY).labels;
      }
    }
  }

  lemma SourcesListed(s: set<string>)
    ensures forall x :: x in Sources(s) <==> x in s
    ensures Sources(s) == [] <==> s == {}
  {
    StrOrder();
    if s != {} { var x :| x in s; assert x in Sources(s); }
  }

  lemma OperationsWell(codec: Codec, names: set<string>, records: seq<Observation>)
    requires codec.Faithful() && forall i :: 0 <= i < |records| ==> records[i].Name() in names
    ensures AllWellMade(codec, names, Map(Keys(Operations(records)), OperationMaker(codec, Operations(records))))
  {
    var m := Operations(records);
    OperationSources(names, records);
    forall i | 0 <= i < |Keys(m)| ensures WellMade(codec, names, OperationMaker(codec, m)(Keys(m)[i])) {
      var k := Keys(m)[i];
      KeysListed(m, i);
      SourcesListed(m[k].sources);
      MadeWell(codec, names, OperationSupport(k.code, k.supported, k.completeness, Scopes(m[k].scopes)),
               Sources(m[k].sources), []);
    }
  }

  lemma DescriptorsWell(codec: Codec, names: set<string>, k: Key, a: PropertyAggregate)
    requires codec.Faithful() && {} != a.sources <= names
    ensures WellMade(codec, names, TypeCandidate(codec, k, a))
    ensures AllWellMade(codec, names, DescriptorCandidates(codec, k, a))
  {
    SourcesListed(a.sources);
    MadeWell(codec, names, TypeCandidate(codec, k, a).assertion, Sources(a.sources), []);
    if a.descriptor.Some? {
      MadeWell(codec, names, DescriptorCandidates(codec, k, a)[0].assertion, Sources(a.sources), []);
    }
  }

  lemma LabelsWell(codec: Codec, names: set<string>, k: Key, a: PropertyAggregate)
    requires codec.Faithful() && a.labelSources <= names && (a.labels != map[] ==> a.labelSources != {})
    ensures AllWellMade(codec, names, LabelCandidates(codec, k, a))
  {
    SourcesListed(a.labelSources);
    if a.labels != map[] {
      MadeWell(codec, names, LabelCandidates(codec, k, a)[0].assertion, Sources(a.labelSources), []);
    }
  }

  lemma TripleWell(codec: Codec, names: set<string>, k: Key, a: PropertyAggregate)
    requires codec.Faithful()
    requires {} != a.sources <= names && a.labelSources <= names && (a.labels != map[] ==> a.labelSources != {})
    ensures AllWellMade(codec, names, PropertyTriple(codec, k, a))
  {
    DescriptorsWell(codec, names, k, a);
    LabelsWell(codec, names, k, a);
  }

  lemma KeysListed<V>(m: map<Key, V>, i: nat)
    requires i < |Keys(m)|
    ensures Keys(m)[i] in m
  {
    KeyOrder();
    assert Keys(m)[i] in Keys(m);
  }

  lemma PropertiesWell(codec: Codec, names: set<string>, records: seq<Observation>)
    requires codec.Faithful() && forall i :: 0 <= i < |records| ==> records[i].Name() in names
    ensures AllWellMade(codec, names, Flat(Map(Keys(Properties(records)), PropertyMaker(codec, Properties(records)))))
  {
    var m := Properties(records);
    PropertySources(names, records);
    var css := Map(Keys(m), PropertyMaker(codec, m));
    forall i | 0 <= i < |css| ensures AllWellMade(codec, names, css[i]) {
      KeysListed(m, i);
      TripleWell(codec, names, Keys(m)[i], m[Keys(m)[i]]);
    }
    FlatWell(codec, names, css);
  }

  lemma RawWell(codec: Codec, names: set<string>, headers: seq<Observation>, records: seq<Observation>)
    requires codec.Faithful()
    requires forall i :: 0 <= i < |headers| ==> headers[i].Name() in names
    requires forall i :: 0 <= i < |records| ==> records[i].Name() in names
    ensures AllWellMade(codec, names, RawCandidates(codec, headers, records))
  {
    IdentityWell(codec, names, headers);
    RecordsWell(codec, names, records);
    OperationsWell(codec, names, records);
    PropertiesWell(codec, names, records);
  }

  // ----- links between candidates and records -----

  ghost predicate NoDuplicates<T>(s: seq<T>) {
    forall i, j :: 0 <= i < j < |s| ==> s[i] != s[j]
  }

  ghost predicate InStrictOrder(cs: seq<Candidate>) {
    forall i, j :: 0 <= i < j < |cs| ==> StrLe(cs[i].id, cs[j].id) && cs[i].id != cs[j].id
  }

  lemma StrictIds(cs: seq<Candidate>)
    ensures InStrictOrder(cs) <==> Strict(Map(cs, IdOf), StrLe)
  {
    var ids := Map(cs, IdOf);
    assert forall i :: 0 <= i < |cs| ==> ids[i] == cs[i].id;
  }

  lemma {:induction false} FilterInOrder(cs: seq<Candidate>, keep: Candidate -> bool)
    requires InStrictOrder(cs)
    ensures InStrictOrder(Filter(cs, keep))
    decreases |cs|
  {
    if cs != [] {
      var n := |cs| - 1;
      var rest := Filter(cs[..n], keep);
      FilterInOrder(cs[..n], keep);
      FilterMembers(cs[..n], keep);
      forall i | 0 <= i < |rest| ensures StrLe(rest[i].id, cs[n].id) && rest[i].id != cs[n].id {
        var k :| 0 <= k < n && cs[..n][k] == rest[i];
      }
    }
  }

  lemma FilterStrict(cs: seq<Candidate>, keep: Candidate -> bool)
    requires Strict(Map(cs, IdOf), StrLe)
    ensures Strict(Map(Filter(cs, keep), IdOf), StrLe)
  {
    StrictIds(cs);
    FilterInOrder(cs, keep);
    StrictIds(Filter(cs, keep));
  }

  lemma LinkedIdsAre(cs: seq<Candidate>, identity: string)
    ensures forall id :: id in LinkedIds(cs, identity) ==> LinksForward(cs, id, identity)
    ensures forall c :: c in cs && identity in c.sources ==> c.id in LinkedIds(cs, identity)
  {
    var keep := (c: Candidate) => identity in c.sources;
    var fs := Filter(cs, keep);
    FilterMembers(cs, keep);
    forall id | id in LinkedIds(cs, identity) ensures LinksForward(cs, id, identity) {
      var i :| 0 <= i < |fs| && fs[i].id == id;
      assert fs[i] in cs && keep(fs[i]);
    }
    forall c | c in cs && identity in c.sources ensures c.id in LinkedIds(cs, identity) {
      assert keep(c);
      assert c in fs;
      var i :| 0 <= i < |fs| && fs[i] == c;
      assert LinkedIds(cs, identity)[i] == c.id;
    }
  }

  lemma RecordsSound(cs: seq<Candidate>, ds: seq<Disposition>)
    requires Strict(Map(cs, IdOf), StrLe)
    ensures forall d :: d in Map(ds, Linker(cs)) ==> RecordSound(cs, d)
  {
    forall d | d in Map(ds, Linker(cs)) ensures RecordSound(cs, d) {
      FilterStrict(cs, (c: Candidate) => d.identity in c.sources);
      LinkedIdsAre(cs, d.identity);
    }
  }

  lemma CandidatesSound(codec: Codec, cs: seq<Candidate>, ds: seq<Disposition>, names: set<string>)
    requires codec.Faithful() && AllWellMade(codec, names, cs)
    requires forall s :: s in names ==> exists i :: 0 <= i < |ds| && ds[i].identity == s
    ensures forall c :: c in cs ==> CandidateSound(codec, Map(ds, Linker(cs)), c)
  {
    forall c | c in cs ensures CandidateSound(codec, Map(ds, Linker(cs)), c) {
      ContextOrder();
      ProvenanceOrder(codec);
      forall s | s in c.sources ensures LinksBack(Map(ds, Linker(cs)), s, c.id) {
        var i :| 0 <= i < |ds| && ds[i].identity == s;
        LinkedIdsAre(cs, s);
        var d := Map(ds, Linker(cs))[i];
        assert d in Map(ds, Linker(cs)) && d.identity == s && c.id in d.candidateIds;
      }
    }
  }

  /** Everything the candidates of a proposal cite is an observation's own name. */
  lemma BuiltWell(codec: Codec, headers: seq<Observation>, records: seq<Observation>)
    requires codec.Faithful()
    ensures var cs := Consolidate(codec, RawCandidates(codec, headers, records));
      && AllWellMade(codec, Elements(Map(headers + records, NameOf)), cs) && Strict(Map(cs, IdOf), StrLe)
  {
    var names := Map(headers + records, NameOf);
    forall i | 0 <= i < |headers| ensures headers[i].Name() in names { assert names[i] == headers[i].Name(); }
    forall i | 0 <= i < |records| ensures records[i].Name() in names {
      assert names[|headers| + i] == records[i].Name();
    }
    RawWell(codec, Elements(names), headers, records);
    ConsolidatedWell(codec, Elements(names), RawCandidates(codec, headers, records));
  }

  /** Integrity of what is built from validated observations comes down to unique identities. */
  lemma BuiltIntegrity(codec: Codec, v: Validated, names: set<string>)
    requires codec.Faithful()
    requires forall i :: 0 <= i < |v.headers| ==> v.headers[i].Name() in names
    requires forall i :: 0 <= i < |v.records| ==> v.records[i].Name() in names
    requires forall s :: s in names ==> exists i :: 0 <= i < |v.report.dispositions|
                                          && v.report.dispositions[i].identity == s
    requires Sorted(v.report.dispositions, DispositionLe)
    ensures Integrity(codec, ProposalOf(codec, v))
       <==> NoDuplicates(Map(v.report.dispositions, DispositionIdentity))
  {
    RawWell(codec, names, v.headers, v.records);
    ConsolidatedWell(codec, names, RawCandidates(codec, v.headers, v.records));
    var cs, ds := Consolidate(codec, RawCandidates(codec, v.headers, v.records)), v.report.dispositions;
    RecordsSound(cs, ds);
    CandidatesSound(codec, cs, ds, names);
    IdentitiesStrict(cs, ds);
  }

  function DispositionIdentity(d: Disposition): string { d.identity }

  lemma IdentitiesStrict(cs: seq<Candidate>, ds: seq<Disposition>)
    requires Sorted(ds, DispositionLe)
    ensures Strict(Map(Map(ds, Linker(cs)), IdentityOfRecord), StrLe) <==> NoDuplicates(Map(ds, DispositionIdentity))
  {
    var ids := Map(ds, DispositionIdentity);
    StrOrder();
    assert Map(Map(ds, Linker(cs)), IdentityOfRecord) == ids;
    forall i, j | 0 <= i < j < |ids| ensures StrLe(ids[i], ids[j]) {
      assert DispositionLe(ds[i], ds[j]);
    }
  }
}
