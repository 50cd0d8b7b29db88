// From validated observations to a proposal: aggregate capability records
// first-wins, turn them into candidates, consolidate by content id, and link
// candidates and records both ways.
module Proposal {
  import opened Options
  import opened Observation
  import opened Ordering
  import opened Sorting
  import opened Bags
  import opened Validation

  const PROPOSAL_SCHEMA := "camera-config-proposal/v1"
  const OBSERVATION_SCHEMA := "camera-observation/v1"

  datatype Assertion =
    | CameraIdentity(camera: Camera)
    | OperationSupport(code: string, supported: bool, completeness: Completeness, scopes: seq<Context>)
    | OperationName(code: string, name: string)
    | PropertySupport(code: string, supported: bool, completeness: Completeness,
                      propertyType: Option<string>, access: Option<string>, descriptor: Option<Descriptor>,
                      labels: map<string, string>, valueProfiles: seq<ValueProfile>, scopes: seq<Context>)
    | PropertyName(code: string, name: string)
    | PropertySourceNativeName(code: string, name: string)
    | PropertyValueRow(code: string, value: TypedValue, caption: string)
    | PropertyValueProfile(code: string, profile: ValueProfile)

  datatype Candidate = Candidate(id: string, assertion: Assertion, sources: seq<string>,
                                 provenance: seq<Provenance>, observedScopes: seq<Context>)

  datatype RecordStatus = Proposed | EvidenceOnly

  datatype RecordDisposition = RecordDisposition(identity: string, status: RecordStatus, candidateIds: seq<string>)

  datatype Proposal = Proposal(schema: string, observationSchema: string, candidates: seq<Candidate>,
                               dispositions: seq<RecordDisposition>, digest: string)

  /** Serialization and hashing: the digest of an assertion and of a whole proposal, and provenance as text. */
  datatype Codec = Codec(id: Assertion -> string,
                         provenanceText: Provenance -> string,
                         digest: (seq<Candidate>, seq<RecordDisposition>) -> string)
  {
    /** Different values serialize differently. */
    ghost predicate Faithful() { Injective(id) && Injective(provenanceText) }

    function ProvenanceLe(): (Provenance, Provenance) -> bool {
      (p: Provenance, q: Provenance) => StrLe(provenanceText(p), provenanceText(q))
    }
  }

  lemma ProvenanceOrder(codec: Codec)
    requires codec.Faithful()
    ensures TotalOrder(codec.ProvenanceLe())
  {
    StrOrder();
    var le, text := codec.ProvenanceLe(), codec.provenanceText;
    forall p: Provenance, q: Provenance | le(p, q) && le(q, p) ensures p == q {
      assert text(p) == text(q);
    }
  }

  function ContextKey(c: Context): seq<string> { [c.connection, c.mode, c.state] }

  const ContextLe: (Context, Context) -> bool := By(ContextKey)

  lemma ContextOrder()
    ensures TotalOrder(ContextLe)
  {
    ByOrder(ContextKey);
    forall c: Context, d: Context | ContextKey(c) == ContextKey(d) ensures c == d {
      assert ContextKey(c)[0] == ContextKey(d)[0] && ContextKey(c)[1] == ContextKey(d)[1]
             && ContextKey(c)[2] == ContextKey(d)[2];
    }
  }

  function CameraKey(c: Camera): seq<string> { [c.manufacturer, c.model, c.firmware] }

  const CameraLe: (Camera, Camera) -> bool := By(CameraKey)

  lemma CameraOrder()
    ensures TotalOrder(CameraLe)
  {
    ByOrder(CameraKey);
    forall c: Camera, d: Camera | CameraKey(c) == CameraKey(d) ensures c == d {
      assert CameraKey(c)[0] == CameraKey(d)[0] && CameraKey(c)[1] == CameraKey(d)[1]
             && CameraKey(c)[2] == CameraKey(d)[2];
    }
  }

  // ----- aggregation -----

  datatype Key = Key(code: string, supported: bool, completeness: Completeness)

  function KeyText(k: Key): seq<string> {
    [k.code, if k.supported then "1" else "0", if k.completeness.Complete? then "1" else "0"]
  }

  const KeyLe: (Key, Key) -> bool := By(KeyText)

  lemma KeyOrder()
    ensures TotalOrder(KeyLe)
  {
    ByOrder(KeyText);
    forall k: Key, l: Key | KeyText(k) == KeyText(l) ensures k == l {
      assert KeyText(k)[0] == KeyText(l)[0] && KeyText(k)[1] == KeyText(l)[1] && KeyText(k)[2] == KeyText(l)[2];
      assert "1"[0] != "0"[0];
    }
  }

  datatype OperationAggregate = OperationAggregate(scopes: set<Context>, sources: set<string>)

  datatype PropertyAggregate = PropertyAggregate(
    propertyType: Option<string>, access: Option<string>, descriptor: Option<Descriptor>, labels: map<string, string>,
    scopes: set<Context>, sources: set<string>, labelScopes: set<Context>, labelSources: set<string>)

  const NO_OPERATION := OperationAggregate({}, {})
  const NO_PROPERTY := PropertyAggregate(None, None, None, map[], {}, {}, {}, {})

  function At<V>(m: map<Key, V>, k: Key, default: V): V { if k in m then m[k] else default }

  predicate IsOperation(r: Observation) { r.Capability? && r.subject.Operation? }

  predicate IsProperty(r: Observation) { r.Capability? && r.subject.Property? }

  function RecordKey(r: Observation): Key
    requires IsOperation(r) || IsProperty(r)
  {
    Key(r.subject.code, r.subject.supported, r.completeness)
  }

  function AddOperation(m: map<Key, OperationAggregate>, r: Observation): map<Key, OperationAggregate> {
    if !IsOperation(r) then m
    else
      var k := RecordKey(r);
      var a := At(m, k, NO_OPERATION);
      m[k := OperationAggregate(a.scopes + {r.common.context}, a.sources + {r.Name()})]
  }

  function Or<T>(a: Option<T>, b: Option<T>): Option<T> { if a.Some? then a else b }

  function AddProperty(m: map<Key, PropertyAggregate>, r: Observation): map<Key, PropertyAggregate> {
    if !IsProperty(r) then m
    else
      var k, s := RecordKey(r), r.subject;
      var a := At(m, k, NO_PROPERTY);
      m[k := PropertyAggregate(
               Or(a.propertyType, s.propertyType), Or(a.access, s.access), Or(a.descriptor, s.descriptor),
               s.labels + a.labels,
               a.scopes + {r.common.context}, a.sources + {r.Name()},
               if s.labels == map[] then a.labelScopes else a.labelScopes + {r.common.context},
               if s.labels == map[] then a.labelSources else a.labelSources + {r.Name()})]
  }

  function Operations(records: seq<Observation>): map<Key, OperationAggregate> {
    if records == [] then map[] else AddOperation(Operations(records[..|records| - 1]), records[|records| - 1])
  }

  function Properties(records: seq<Observation>): map<Key, PropertyAggregate> {
    if records == [] then map[] else AddProperty(Properties(records[..|records| - 1]), records[|records| - 1])
  }

  // ----- candidates -----

  function MakeCandidate(codec: Codec, assertion: Assertion, sources: seq<string>,
                         provenance: seq<Provenance>): Candidate {
    Candidate(codec.id(assertion), assertion, SortDedup(sources, StrLe), SortDedup(provenance, codec.ProvenanceLe()),
              [])
  }

  function IdentityOf(codec: Codec, sources: seq<string>): Camera -> Candidate {
    (c: Camera) => MakeCandidate(codec, CameraIdentity(c), sources, [])
  }

  function NameOf(v: Observation): string { v.Name() }

  function CameraOf(v: Observation): Camera { if v.Header? then v.camera else Camera("", "", "") }

  /** One candidate per distinct camera; every header supports each of them. */
  function IdentityCandidates(codec: Codec, headers: seq<Observation>): seq<Candidate> {
    CameraOrder();
    Map(Ascending(Elements(Map(headers, CameraOf)), CameraLe), IdentityOf(codec, Map(headers, NameOf)))
  }

  function NameCandidates(codec: Codec, r: Observation, name: Option<NameAssertion>,
                          make: string -> Assertion): seq<Candidate> {
    if name.None? then [] else [MakeCandidate(codec, make(name.value.name), [r.Name()], [name.value.provenance])]
  }

  function RowCandidate(codec: Codec, r: Observation, code: string): ValueRow -> Candidate {
    (row: ValueRow) => MakeCandidate(codec, PropertyValueRow(code, row.value, row.caption), [r.Name()],
                                     [row.provenance])
  }

  function ProfileCandidate(codec: Codec, r: Observation, code: string, epistemic: string): ValueProfile -> Candidate {
    (p: ValueProfile) =>
      MakeCandidate(codec, PropertyValueProfile(code, p.(evidence := [])), [r.Name()],
                    Map(p.evidence, (reference: string) => Provenance(reference, epistemic)))
      .(observedScopes := if r.Capability? then [r.common.context] else [])
  }

  function OperationNamed(code: string): string -> Assertion { (n: string) => OperationName(code, n) }
  function PropertyNamed(code: string): string -> Assertion { (n: string) => PropertyName(code, n) }
  function PropertyNativelyNamed(code: string): string -> Assertion { (n: string) => PropertySourceNativeName(code, n) }

  /** The semantic candidates one capability record carries. */
  function RecordCandidates(codec: Codec, r: Observation): seq<Candidate> {
    if IsOperation(r) then
      NameCandidates(codec, r, r.subject.canonicalName, OperationNamed(r.subject.code))
    else if IsProperty(r) then
      NameCandidates(codec, r, r.subject.canonicalName, PropertyNamed(r.subject.code))
      + NameCandidates(codec, r, r.subject.sourceNativeName, PropertyNativelyNamed(r.subject.code))
      + Map(r.subject.valueRows, RowCandidate(codec, r, r.subject.code))
      + Map(r.subject.valueProfiles, ProfileCandidate(codec, r, r.subject.code, r.common.epistemic))
    else []
  }

  function RecordMaker(codec: Codec): Observation -> seq<Candidate> {
    (r: Observation) => RecordCandidates(codec, r)
  }

  function Scopes(s: set<Context>): seq<Context> {
    ContextOrder();
    Ascending(s, ContextLe)
  }

  function Sources(s: set<string>): seq<string> {
    StrOrder();
    Ascending(s, StrLe)
  }

  function OperationCandidate(codec: Codec, k: Key, a: OperationAggregate): Candidate {
    MakeCandidate(codec, OperationSupport(k.code, k.supported, k.completeness, Scopes(a.scopes)), Sources(a.sources),
                  [])
  }

  function OperationMaker(codec: Codec, m: map<Key, OperationAggregate>): Key -> Candidate {
    (k: Key) => OperationCandidate(codec, k, At(m, k, NO_OPERATION))
  }

  function TypeCandidate(codec: Codec, k: Key, a: PropertyAggregate): Candidate {
    MakeCandidate(codec, PropertySupport(k.code, k.supported, k.completeness, a.propertyType, a.access, None,
                                         map[], [], Scopes(a.scopes)), Sources(a.sources), [])
  }

  function DescriptorCandidates(codec: Codec, k: Key, a: PropertyAggregate): seq<Candidate> {
    if a.descriptor.None? then []
    else [MakeCandidate(codec, PropertySupport(k.code, k.supported, k.completeness, None, None, a.descriptor,
                                               map[], [], Scopes(a.scopes)), Sources(a.sources), [])]
  }

  function LabelCandidates(codec: Codec, k: Key, a: PropertyAggregate): seq<Candidate> {
    if a.labels == map[] then []
    else [MakeCandidate(codec, PropertySupport(k.code, k.supported, k.completeness, None, None, None,
                                               a.labels, [], Scopes(a.labelScopes)), Sources(a.labelSources), [])]
  }

  function PropertyTriple(codec: Codec, k: Key, a: PropertyAggregate): seq<Candidate> {
    [TypeCandidate(codec, k, a)] + DescriptorCandidates(codec, k, a) + LabelCandidates(codec, k, a)
  }

  function PropertyMaker(codec: Codec, m: map<Key, PropertyAggregate>): Key -> seq<Candidate> {
    (k: Key) => PropertyTriple(codec, k, At(m, k, NO_PROPERTY))
  }

  function Keys<V>(m: map<Key, V>): seq<Key> {
    KeyOrder();
    Ascending(m.Keys, KeyLe)
  }

  function RawCandidates(codec: Codec, headers: seq<Observation>, records: seq<Observation>): seq<Candidate> {
    IdentityCandidates(codec, headers)
    + Flat(Map(records, RecordMaker(codec)))
    + Map(Keys(Operations(records)), OperationMaker(codec, Operations(records)))
    + Flat(Map(Keys(Properties(records)), PropertyMaker(codec, Properties(records))))
  }

  // ----- consolidation -----

  /** Two candidates under one id keep the first assertion and pool what supports it. */
  function Pool(codec: Codec, a: Candidate, b: Candidate): Candidate {
    a.(sources := SortDedup(a.sources + b.sources, StrLe),
       provenance := SortDedup(a.provenance + b.provenance, codec.ProvenanceLe()),
       observedScopes := SortDedup(a.observedScopes + b.observedScopes, ContextLe))
  }

  function PoolInto(codec: Codec, m: map<string, Candidate>, c: Candidate): map<string, Candidate> {
    m[c.id := if c.id in m then Pool(codec, m[c.id], c) else c]
  }

  function Pooled(codec: Codec, cs: seq<Candidate>): map<string, Candidate> {
    if cs == [] then map[] else PoolInto(codec, Pooled(codec, cs[..|cs| - 1]), cs[|cs| - 1])
  }

  function InIdOrder(m: map<string, Candidate>): (r: seq<Candidate>)
    ensures |r| == |m|
  {
    StrOrder();
    var ids := Ascending(m.Keys, StrLe);
    assert forall i :: 0 <= i < |ids| ==> ids[i] in ids;
    seq(|ids|, i requires 0 <= i < |ids| => m[ids[i]])
  }

  function Consolidate(codec: Codec, cs: seq<Candidate>): seq<Candidate> {
    InIdOrder(Pooled(codec, cs))
  }

  // ----- the proposal -----

  function IdOf(c: Candidate): string { c.id }

  function LinkedIds(cs: seq<Candidate>, identity: string): seq<string> {
    Map(Filter(cs, (c: Candidate) => identity in c.sources), IdOf)
  }

  function Linker(cs: seq<Candidate>): Disposition -> RecordDisposition {
    (d: Disposition) =>
      var ids := LinkedIds(cs, d.identity);
      RecordDisposition(d.identity, if ids == [] then EvidenceOnly else Proposed, ids)
  }

  function ProposalOf(codec: Codec, v: Validated): Proposal {
    var cs := Consolidate(codec, RawCandidates(codec, v.headers, v.records));
    var ds := Map(v.report.dispositions, Linker(cs));
    Proposal(PROPOSAL_SCHEMA, OBSERVATION_SCHEMA, cs, ds, codec.digest(cs, ds))
  }

  function Propose(codec: Codec, rules: Rules, bundles: seq<seq<RawLine>>): Result<Proposal, Report> {
    match Validate(rules, bundles)
    case Ok(v) => Ok(ProposalOf(codec, v))
    case Err(report) => Err(report)
  }
}
