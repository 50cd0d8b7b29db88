// Applying the accepted candidates of a proposal to a curated manifest.
// Fields that review never looks at or changes are kept as opaque text.
module Review {
  import opened Options
  import opened Observation
  import opened Ordering
  import opened Sorting
  import opened Bags
  import opened Folds
  import opened Proposal
  import opened ProposalIntegrity

  const REVIEW_SCHEMA := "camera-config-review/v1"
  const CANONICAL := "canonicalObservation"

  // ----- the manifest -----

  datatype Access = ReadOnly | ReadWrite

  datatype DescriptorValue = IntValue(i: int) | StrValue(s: string)

  datatype ValueSource = CameraSource | ManifestSource

  datatype ModelDescriptor = ModelDescriptor(form: string, values: seq<DescriptorValue>, source: Option<ValueSource>)

  datatype OperationKind = Executable | AdvertisedOnly

  /** What is curated about an operation and no review changes. */
  datatype OperationDetail = OperationDetail(
    kind: OperationKind, owner: string, dataPhase: Option<string>, params: seq<string>, workflows: seq<string>,
    handler: Option<string>, property: Option<string>, objectSize: Option<string>,
    modes: seq<string>, connections: seq<string>, precondition: Option<string>, requiresGate: Option<string>,
    effects: seq<string>, emits: seq<string>, dispositions: seq<string>)

  datatype OperationEntry = OperationEntry(name: string, detail: OperationDetail, evidence: seq<string>,
                                           scopes: seq<Context>)

  /** The facts an accepted property candidate overwrites. */
  datatype Facts = Facts(ptype: Option<string>, access: Option<Access>, descriptor: Option<ModelDescriptor>,
                         labels: map<string, string>, profiles: seq<ValueProfile>)

  datatype PropertyDetail = PropertyDetail(kind: string, initialValue: Option<string>, rest: string)

  datatype Row = Row(raw: int, caption: string, evidence: seq<string>)

  datatype PropertyEntry = PropertyEntry(name: string, ptpName: Option<string>, facts: Facts, rows: seq<Row>,
                                         detail: PropertyDetail, evidence: seq<string>, scopes: seq<Context>)

  datatype ProvenancedName = ProvenancedName(name: string, provenance: seq<Provenance>)

  datatype LedgerRow = LedgerRow(value: TypedValue, caption: string, provenance: seq<Provenance>)

  datatype LedgerProfile = LedgerProfile(profile: ValueProfile, provenance: seq<Provenance>)

  datatype PropertyLedger = PropertyLedger(canonicalName: Option<ProvenancedName>,
                                           sourceNativeName: Option<ProvenancedName>,
                                           rows: seq<LedgerRow>, profiles: seq<LedgerProfile>)

  datatype EvidenceEntry = EvidenceEntry(kind: string, path: string, date: string)

  datatype Manifest = Manifest(
    camera: Camera, modes: map<string, string>,
    operations: map<string, OperationEntry>, properties: map<string, PropertyEntry>,
    operationLedger: map<string, Option<ProvenancedName>>, propertyLedger: map<string, PropertyLedger>,
    evidence: map<string, EvidenceEntry>, rest: string)

  const NO_FACTS := Facts(None, None, None, map[], [])
  const NO_LEDGER := PropertyLedger(None, None, [], [])

  /** Hashing and serialization, and the tables of standard names by code. */
  datatype Lexicon = Lexicon(codec: Codec, operationName: string -> Option<string>,
                             propertyName: string -> Option<string>,
                             rowText: LedgerRow -> string, profileText: LedgerProfile -> string)

  datatype ReviewError = BrokenProposal | UnknownSchema | WrongDigest | WrongCoverage | ApplyConflict

  datatype Decision = Accept | Reject | Defer

  datatype ProposalReview = ProposalReview(schema: string, proposalDigest: string, decisions: map<string, Decision>)

  // ----- merging helpers -----

  function ReferenceOf(p: Provenance): string { p.reference }

  function References(provenance: seq<Provenance>): seq<string> { Sources(Elements(Map(provenance, ReferenceOf))) }

  function MergeEvidence(target: seq<string>, provenance: seq<Provenance>): seq<string> {
    SortDedup(target + References(provenance), StrLe)
  }

  function MergeScopes(target: seq<Context>, incoming: seq<Context>): seq<Context> {
    SortDedup(target + incoming, ContextLe)
  }

  function MergeProvenance(codec: Codec, target: seq<Provenance>, incoming: seq<Provenance>): seq<Provenance> {
    SortDedup(target + incoming, codec.ProvenanceLe())
  }

  function RegisterMode(modes: map<string, string>, mode: string): map<string, string> {
    if mode in modes then modes else modes[mode := ""]
  }

  function RegisterModes(modes: map<string, string>, scopes: seq<Context>): map<string, string> {
    if scopes == [] then modes
    else RegisterMode(RegisterModes(modes, scopes[..|scopes| - 1]), scopes[|scopes| - 1].mode)
  }

  function RegisterReference(evidence: map<string, EvidenceEntry>, reference: string,
                             entry: EvidenceEntry): map<string, EvidenceEntry> {
    if reference in evidence then evidence else evidence[reference := entry]
  }

  function RegisterReferences(evidence: map<string, EvidenceEntry>,
                              references: seq<string>): map<string, EvidenceEntry> {
    if references == [] then evidence
    else RegisterReference(RegisterReferences(evidence, references[..|references| - 1]), references[|references| - 1],
                           EvidenceEntry("semantic-assertion", "", ""))
  }

  function RegisterCanonical(evidence: map<string, EvidenceEntry>): map<string, EvidenceEntry> {
    RegisterReference(evidence, CANONICAL, EvidenceEntry("camera-observation", "evidence/", ""))
  }

  function RegisterAll(evidence: map<string, EvidenceEntry>, provenance: seq<Provenance>): map<string, EvidenceEntry> {
    RegisterCanonical(RegisterReferences(evidence, References(provenance)))
  }

  function Placeholder(code: string): string { "raw_" + code }

  /** A name gives way to a proposed one if it is the same, a placeholder, or the generated standard name. */
  predicate GivesWay(code: string, current: string, proposed: string, standard: Option<string>) {
    current == proposed || current == Placeholder(code) || standard == Some(current)
  }

  function FirstName(code: string, standard: Option<string>): string {
    if standard.Some? then standard.value else Placeholder(code)
  }

  function MergeName(codec: Codec, target: Option<ProvenancedName>, name: string,
                     provenance: seq<Provenance>): Option<ProvenancedName>
  {
    match target
    case None => Some(ProvenancedName(name, provenance))
    case Some(current) =>
      if current.name != name then None
      else Some(ProvenancedName(name, MergeProvenance(codec, current.provenance, provenance)))
  }

  /** The first place that satisfies `p`, or the length. */
  function IndexOf<T>(s: seq<T>, p: T -> bool): (k: nat)
    ensures k <= |s|
    ensures k < |s| ==> p(s[k])
    ensures forall i :: 0 <= i < k ==> !p(s[i])
  {
    if s == [] then 0
    else
      var n := |s| - 1;
      var k := IndexOf(s[..n], p);
      if k < n then k else if p(s[n]) then n else |s|
  }

  predicate RowLe(a: Row, b: Row) { if a.raw != b.raw then a.raw < b.raw else StrLe(a.caption, b.caption) }

  function RowMatch(raw: int, caption: string): Row -> bool { (r: Row) => r.raw == raw && r.caption == caption }

  predicate RowConflict(rows: seq<Row>, raw: int, caption: string) {
    exists i :: 0 <= i < |rows| && rows[i].raw == raw && rows[i].caption != caption
  }

  /** Nothing if a row for the raw value has another caption. */
  function AddRow(rows: seq<Row>, raw: int, caption: string, provenance: seq<Provenance>): Option<seq<Row>> {
    if RowConflict(rows, raw, caption) then None
    else
      var k := IndexOf(rows, RowMatch(raw, caption));
      if k < |rows| then Some(rows[k := rows[k].(evidence := MergeEvidence(rows[k].evidence, provenance))])
      else Some(Sort(rows + [Row(raw, caption, References(provenance))], RowLe))
  }

  function LedgerRowLe(lex: Lexicon): (LedgerRow, LedgerRow) -> bool {
    (a: LedgerRow, b: LedgerRow) => StrLe(lex.rowText(a), lex.rowText(b))
  }

  function LedgerRowMatch(value: TypedValue, caption: string): LedgerRow -> bool {
    (r: LedgerRow) => r.value == value && r.caption == caption
  }

  predicate LedgerRowConflict(rows: seq<LedgerRow>, value: TypedValue, caption: string) {
    exists i :: 0 <= i < |rows| && rows[i].value == value && rows[i].caption != caption
  }

  function AddLedgerRow(lex: Lexicon, rows: seq<LedgerRow>, value: TypedValue, caption: string,
                        provenance: seq<Provenance>)
    : Option<seq<LedgerRow>>
  {
    if LedgerRowConflict(rows, value, caption) then None
    else
      var k := IndexOf(rows, LedgerRowMatch(value, caption));
      if k < |rows|
      then Some(rows[k := rows[k].(provenance := MergeProvenance(lex.codec, rows[k].provenance, provenance))])
      else Some(Sort(rows + [LedgerRow(value, caption, provenance)], LedgerRowLe(lex)))
  }

  function LedgerProfileLe(lex: Lexicon): (LedgerProfile, LedgerProfile) -> bool {
    (a: LedgerProfile, b: LedgerProfile) => StrLe(lex.profileText(a), lex.profileText(b))
  }

  function LedgerProfileMatch(profile: ValueProfile): LedgerProfile -> bool {
    (p: LedgerProfile) => p.profile == profile
  }

  function AddLedgerProfile(lex: Lexicon, profiles: seq<LedgerProfile>, profile: ValueProfile,
                            provenance: seq<Provenance>)
    : seq<LedgerProfile>
  {
    var k := IndexOf(profiles, LedgerProfileMatch(profile));
    if k < |profiles|
    then profiles[k := profiles[k].(provenance := MergeProvenance(lex.codec, profiles[k].provenance, provenance))]
    else Sort(profiles + [LedgerProfile(profile, provenance)], LedgerProfileLe(lex))
  }

  function OptionText(o: Option<string>): string { if o.None? then "" else "=" + o.value }

  /** The connection and mode a profile is for; absent sorts before present. */
  function SlotKey(p: ValueProfile): seq<string> { [OptionText(p.connection), OptionText(p.mode)] }

  const SlotLe: (ValueProfile, ValueProfile) -> bool := By(SlotKey)

  predicate SameSlot(p: ValueProfile, q: ValueProfile) { p.connection == q.connection && p.mode == q.mode }

  function OtherSlot(p: ValueProfile): ValueProfile -> bool { (q: ValueProfile) => !SameSlot(q, p) }

  /** Replace whatever holds the profile's slot. */
  function PutProfile(profiles: seq<ValueProfile>, p: ValueProfile): seq<ValueProfile> {
    Filter(profiles, OtherSlot(p)) + [p]
  }

  function PutProfiles(profiles: seq<ValueProfile>, ps: seq<ValueProfile>): seq<ValueProfile> {
    if ps == [] then profiles else PutProfile(PutProfiles(profiles, ps[..|ps| - 1]), ps[|ps| - 1])
  }

  function SortProfiles(profiles: seq<ValueProfile>): seq<ValueProfile> { Sort(profiles, SlotLe) }

  // ----- one candidate -----

  function ParseAccess(access: Option<string>): Option<Access> {
    if access == Some("readOnly") then Some(ReadOnly)
    else if access == Some("readWrite") then Some(ReadWrite)
    else None
  }

  predicate Storable(j: Json) { !j.JsonOther? }

  function StoredValue(j: Json): DescriptorValue {
    if j.JsonInt? then IntValue(j.i) else if j.JsonStr? then StrValue(j.s) else StrValue("")
  }

  predicate StorableDescriptor(d: Option<Descriptor>) {
    d.Some? ==> forall i :: 0 <= i < |d.value.values| ==> Storable(d.value.values[i])
  }

  function StoredDescriptor(d: Option<Descriptor>): Option<ModelDescriptor> {
    if d.None? then None else Some(ModelDescriptor(d.value.form, Map(d.value.values, StoredValue), Some(CameraSource)))
  }

  function ModeOf(c: Context): string { c.mode }
  function ConnectionOf(c: Context): string { c.connection }

  function NewOperation(lex: Lexicon, code: string, scopes: seq<Context>): OperationEntry {
    OperationEntry(FirstName(code, lex.operationName(code)),
                   OperationDetail(AdvertisedOnly, "", None, [], [], None, None, None,
                                   Sources(Elements(Map(scopes, ModeOf))), Sources(Elements(Map(scopes, ConnectionOf))),
                                   None, None, [], [], []),
                   [CANONICAL], [])
  }

  function NewProperty(lex: Lexicon, code: string): PropertyEntry {
    PropertyEntry(FirstName(code, lex.propertyName(code)), None, NO_FACTS, [], PropertyDetail("catalogOnly", None, ""),
                  [CANONICAL], [])
  }

  function OperationAt(lex: Lexicon, m: Manifest, code: string, scopes: seq<Context>): OperationEntry {
    if code in m.operations then m.operations[code] else NewOperation(lex, code, scopes)
  }

  function PropertyAt(lex: Lexicon, m: Manifest, code: string): PropertyEntry {
    if code in m.properties then m.properties[code] else NewProperty(lex, code)
  }

  function LedgerAt(m: Manifest, code: string): PropertyLedger {
    if code in m.propertyLedger then m.propertyLedger[code] else NO_LEDGER
  }

  function OperationNameAt(m: Manifest, code: string): Option<ProvenancedName> {
    if code in m.operationLedger then m.operationLedger[code] else None
  }

  predicate FieldAgrees(current: string, proposed: string) { current == "" || current == proposed }

  function Fill(current: string, proposed: string): string { if current == "" then proposed else current }

  function ApplyIdentity(m: Manifest, c: Camera): Result<Manifest, ReviewError> {
    if !FieldAgrees(m.camera.manufacturer, c.manufacturer) || !FieldAgrees(m.camera.model, c.model)
       || !FieldAgrees(m.camera.firmware, c.firmware)
    then Err(ApplyConflict)
    else Ok(m.(camera := Camera(Fill(m.camera.manufacturer, c.manufacturer), Fill(m.camera.model, c.model),
                                Fill(m.camera.firmware, c.firmware)),
               evidence := RegisterCanonical(m.evidence)))
  }

  function ApplyOperation(lex: Lexicon, m: Manifest, code: string, scopes: seq<Context>): Manifest {
    var entry := OperationAt(lex, m, code, scopes);
    m.(modes := RegisterModes(m.modes, scopes),
       operations := m.operations[code := entry.(scopes := MergeScopes(entry.scopes, scopes))],
       evidence := RegisterCanonical(m.evidence))
  }

  function ApplyOperationName(lex: Lexicon, m: Manifest, code: string, name: string, provenance: seq<Provenance>)
    : Result<Manifest, ReviewError>
  {
    if code !in m.operations then Err(ApplyConflict)
    else
      var entry := m.operations[code];
      var ledger := MergeName(lex.codec, OperationNameAt(m, code), name, provenance);
      if !GivesWay(code, entry.name, name, lex.operationName(code)) || ledger.None? then Err(ApplyConflict)
      else Ok(m.(operations := m.operations[code := entry.(name := name,
                                                           evidence := MergeEvidence(entry.evidence, provenance))],
                 operationLedger := m.operationLedger[code := ledger],
                 evidence := RegisterAll(m.evidence, provenance)))
  }

  /** What an accepted property candidate writes over the facts it finds. */
  function WriteFacts(f: Facts, a: Assertion): Facts
    requires a.PropertySupport?
  {
    Facts(Or(a.propertyType, f.ptype), Or(ParseAccess(a.access), f.access),
          Or(StoredDescriptor(a.descriptor), f.descriptor),
          f.labels + a.labels, SortProfiles(PutProfiles(f.profiles, a.valueProfiles)))
  }

  function ApplyProperty(lex: Lexicon, m: Manifest, a: Assertion): Result<Manifest, ReviewError>
    requires a.PropertySupport?
  {
    if !StorableDescriptor(a.descriptor) then Err(ApplyConflict)
    else
      var entry := PropertyAt(lex, m, a.code);
      Ok(m.(modes := RegisterModes(m.modes, a.scopes),
            properties := m.properties[a.code := entry.(facts := WriteFacts(entry.facts, a),
                                                        scopes := MergeScopes(entry.scopes, a.scopes))],
            evidence := RegisterCanonical(m.evidence)))
  }

  function ApplyPropertyName(lex: Lexicon, m: Manifest, code: string, name: string, provenance: seq<Provenance>)
    : Result<Manifest, ReviewError>
  {
    if code !in m.properties then Err(ApplyConflict)
    else
      var entry, ledger := m.properties[code], LedgerAt(m, code);
      var merged := MergeName(lex.codec, ledger.canonicalName, name, provenance);
      if !GivesWay(code, entry.name, name, lex.propertyName(code)) || merged.None? then Err(ApplyConflict)
      else Ok(m.(properties := m.properties[code := entry.(name := name,
                                                           evidence := MergeEvidence(entry.evidence, provenance))],
                 propertyLedger := m.propertyLedger[code := ledger.(canonicalName := merged)],
                 evidence := RegisterAll(m.evidence, provenance)))
  }

  function ApplyNativeName(lex: Lexicon, m: Manifest, code: string, name: string, provenance: seq<Provenance>)
    : Result<Manifest, ReviewError>
  {
    if code !in m.properties then Err(ApplyConflict)
    else
      var entry, ledger := m.properties[code], LedgerAt(m, code);
      var merged := MergeName(lex.codec, ledger.sourceNativeName, name, provenance);
      if (entry.ptpName.Some? && entry.ptpName != Some(name)) || merged.None? then Err(ApplyConflict)
      else Ok(m.(properties := m.properties[code := entry.(ptpName := Some(name),
                                                           evidence := MergeEvidence(entry.evidence, provenance))],
                 propertyLedger := m.propertyLedger[code := ledger.(sourceNativeName := merged)],
                 evidence := RegisterAll(m.evidence, provenance)))
  }

  /** Text values are recorded in the ledger only. */
  function AddTypedRow(rows: seq<Row>, value: TypedValue, caption: string,
                       provenance: seq<Provenance>): Option<seq<Row>> {
    if value.raw.None? then Some(rows) else AddRow(rows, value.raw.value, caption, provenance)
  }

  function ApplyRow(lex: Lexicon, m: Manifest, code: string, value: TypedValue, caption: string,
                    provenance: seq<Provenance>)
    : Result<Manifest, ReviewError>
  {
    if code !in m.properties || m.properties[code].facts.ptype != Some(value.ptype) then Err(ApplyConflict)
    else
      var entry, ledger := m.properties[code], LedgerAt(m, code);
      var rows := AddTypedRow(entry.rows, value, caption, provenance);
      var listed := AddLedgerRow(lex, ledger.rows, value, caption, provenance);
      if rows.None? || listed.None? then Err(ApplyConflict)
      else Ok(m.(properties := m.properties[code := entry.(rows := rows.value,
                                                           evidence := MergeEvidence(entry.evidence, provenance))],
                 propertyLedger := m.propertyLedger[code := ledger.(rows := listed.value)],
                 evidence := RegisterAll(m.evidence, provenance)))
  }

  /** A profile that was observed nowhere in particular registers the mode it is for. */
  function ProfileModes(modes: map<string, string>, profile: ValueProfile, scopes: seq<Context>): map<string, string> {
    if scopes != [] then RegisterModes(modes, scopes)
    else if profile.mode.Some? then RegisterMode(modes, profile.mode.value)
    else modes
  }

  function SourcedProfile(profile: ValueProfile, provenance: seq<Provenance>): ValueProfile {
    profile.(evidence := References(provenance))
  }

  function ApplyProfile(lex: Lexicon, m: Manifest, code: string, profile: ValueProfile, provenance: seq<Provenance>,
                        scopes: seq<Context>)
    : Result<Manifest, ReviewError>
  {
    if code !in m.properties then Err(ApplyConflict)
    else
      var entry, ledger := m.properties[code], LedgerAt(m, code);
      var sourced := SourcedProfile(profile, provenance);
      var profiles := SortProfiles(PutProfile(entry.facts.profiles, sourced));
      Ok(m.(modes := ProfileModes(m.modes, profile, scopes),
            properties := m.properties[code := entry.(facts := entry.facts.(profiles := profiles),
                                                      evidence := MergeEvidence(entry.evidence, provenance))],
            propertyLedger := m.propertyLedger[code := ledger.(
              profiles := AddLedgerProfile(lex, ledger.profiles, sourced, provenance))],
            evidence := RegisterAll(m.evidence, provenance)))
  }

  function ApplyCandidate(lex: Lexicon, m: Manifest, c: Candidate): Result<Manifest, ReviewError> {
    match c.assertion
    case CameraIdentity(camera) => ApplyIdentity(m, camera)
    case OperationSupport(code, supported, _, scopes) =>
      Ok(if supported then ApplyOperation(lex, m, code, scopes) else m)
    case OperationName(code, name) => ApplyOperationName(lex, m, code, name, c.provenance)
    case PropertySupport(_, supported, _, _, _, _, _, _, _) =>
      if supported then ApplyProperty(lex, m, c.assertion) else Ok(m)
    case PropertyName(code, name) => ApplyPropertyName(lex, m, code, name, c.provenance)
    case PropertySourceNativeName(code, name) => ApplyNativeName(lex, m, code, name, c.provenance)
    case PropertyValueRow(code, value, caption) => ApplyRow(lex, m, code, value, caption, c.provenance)
    case PropertyValueProfile(code, profile) => ApplyProfile(lex, m, code, profile, c.provenance, c.observedScopes)
  }

  function Applier(lex: Lexicon): (Manifest, Candidate) -> Result<Manifest, ReviewError> {
    (m: Manifest, c: Candidate) => ApplyCandidate(lex, m, c)
  }

  function ApplyAll(lex: Lexicon, m: Manifest, cs: seq<Candidate>): Result<Manifest, ReviewError> {
    Fold(Applier(lex), m, cs)
  }

  // ----- the review -----

  predicate Semantic(a: Assertion) {
    a.OperationName? || a.PropertyName? || a.PropertySourceNativeName? || a.PropertyValueRow? || a.PropertyValueProfile?
  }

  predicate Chosen(r: ProposalReview, c: Candidate, semantic: bool) {
    c.id in r.decisions && r.decisions[c.id].Accept? && Semantic(c.assertion) == semantic
  }

  function Chooser(r: ProposalReview, semantic: bool): Candidate -> bool { (c: Candidate) => Chosen(r, c, semantic) }

  /** The accepted candidates in the order they are applied: facts first, then what is said about them. */
  function Agenda(p: Proposal, r: ProposalReview): seq<Candidate> {
    Filter(p.candidates, Chooser(r, false)) + Filter(p.candidates, Chooser(r, true))
  }

  /** What keeps a review from being applied at all. */
  ghost function Objection(lex: Lexicon, p: Proposal, r: ProposalReview): Option<ReviewError> {
    if !Integrity(lex.codec, p) then Some(BrokenProposal)
    else if r.schema != REVIEW_SCHEMA then Some(UnknownSchema)
    else if r.proposalDigest != p.digest then Some(WrongDigest)
    else if Elements(Map(p.candidates, IdOf)) != r.decisions.Keys then Some(WrongCoverage)
    else None
  }

  /** `valid` stands for the schema and mode checks every loaded manifest passes. */
  ghost function ApplyReview(lex: Lexicon, valid: Manifest -> bool, base: Manifest, p: Proposal, r: ProposalReview)
    : Result<Manifest, ReviewError>
  {
    if Objection(lex, p, r).Some? then Err(Objection(lex, p, r).value)
    else
      match ApplyAll(lex, base, Agenda(p, r))
      case Err(_) => Err(ApplyConflict)
      case Ok(m) => if valid(m) then Ok(m) else Err(ApplyConflict)
  }
}
