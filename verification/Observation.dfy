// Observation records, as far as validation, proposal and review look at them.
// Fields that only feed the shallow per-record rules are kept as opaque text.
module Observation {
  import opened Options

  datatype Context = Context(connection: string, mode: string, state: string)

  datatype Provenance = Provenance(reference: string, epistemic: string)

  datatype NameAssertion = NameAssertion(name: string, provenance: Provenance)

  /** A tagged property value; `raw` is its `as_i64` reading, absent for text. */
  datatype TypedValue = TypedValue(ptype: string, text: string, raw: Option<int>)

  datatype ValueRow = ValueRow(value: TypedValue, caption: string, provenance: Provenance)

  datatype ProfileRow = ProfileRow(caption: string, raw: int, legal: bool, aliases: seq<int>,
                                   writeStoreRaw: Option<int>)

  datatype ValueProfile = ValueProfile(connection: Option<string>, mode: Option<string>,
                                       rows: seq<ProfileRow>, evidence: seq<string>)

  datatype Json = JsonInt(i: int) | JsonStr(s: string) | JsonOther(text: string)

  datatype Descriptor = Descriptor(form: string, values: seq<Json>)

  datatype Subject =
    | Identity(deviceVersion: string)
    | Operation(code: string, supported: bool, canonicalName: Option<NameAssertion>)
    | Property(code: string, supported: bool,
               canonicalName: Option<NameAssertion>, sourceNativeName: Option<NameAssertion>,
               propertyType: Option<string>, access: Option<string>, descriptor: Option<Descriptor>,
               labels: map<string, string>, valueRows: seq<ValueRow>, valueProfiles: seq<ValueProfile>)

  datatype Completeness = Partial | Complete

  datatype Camera = Camera(manufacturer: string, model: string, firmware: string)

  datatype Common = Common(runId: string, recordId: string, ordinal: nat, context: Context, epistemic: string)

  datatype Observation =
    | Header(runId: string, recordId: string, ordinal: nat, camera: Camera, detail: string)
    | Transaction(common: Common, connectionInstance: string, session: string, endpointSet: string,
                  transactionId: nat, detail: string)
    | Event(common: Common, connectionInstance: string, session: string,
            transactionRecordId: Option<string>, detail: string)
    | Capability(common: Common, subject: Subject, completeness: Completeness, detail: string)
    | OtherRecord(common: Common, detail: string)
  {
    function RunId(): string { if Header? then this.runId else common.runId }
    function RecordId(): string { if Header? then this.recordId else common.recordId }
    function Ordinal(): nat { if Header? then this.ordinal else common.ordinal }

    /** The identity a record is reported and linked under. */
    function Name(): string { Join(RunId(), RecordId()) }
  }

  function Join(run: string, record: string): string { run + ":" + record }

  // ----- which subjects contradict each other -----

  predicate OptionsConflict<T(==)>(a: Option<T>, b: Option<T>) {
    a.Some? && b.Some? && a.value != b.value
  }

  predicate LabelsConflict(a: map<string, string>, b: map<string, string>) {
    exists k :: k in a && k in b && a[k] != b[k]
  }

  predicate ProfilesConflict(a: seq<ValueProfile>, b: seq<ValueProfile>) {
    exists p, q :: p in a && q in b && p.connection == q.connection && p.mode == q.mode && p.rows != q.rows
  }

  /** Facts about one property that no manifest row could hold together. */
  predicate PropertyFactsConflict(a: Subject, b: Subject)
    requires a.Property? && b.Property?
  {
    || OptionsConflict(a.propertyType, b.propertyType)
    || OptionsConflict(a.access, b.access)
    || OptionsConflict(a.descriptor, b.descriptor)
    || LabelsConflict(a.labels, b.labels)
    || ProfilesConflict(a.valueProfiles, b.valueProfiles)
  }

  /** Contradiction between two facts claimed for one exact scope. */
  predicate SubjectsConflict(a: Subject, b: Subject) {
    match (a, b)
    case (Identity(v), Identity(w)) => v != w
    case (Operation(_, s, _), Operation(_, t, _)) => s != t
    case (Property(_, _, _, _, _, _, _, _, _, _), Property(_, _, _, _, _, _, _, _, _, _)) =>
      a.supported != b.supported || PropertyFactsConflict(a, b)
    case _ => true
  }

  /** Contradiction between two facts claimed for different scopes. */
  predicate SubjectsConflictAcrossScopes(a: Subject, b: Subject) {
    match (a, b)
    case (Operation(_, _, _), Operation(_, _, _)) => false
    case (Property(_, _, _, _, _, _, _, _, _, _), Property(_, _, _, _, _, _, _, _, _, _)) => PropertyFactsConflict(a, b)
    case _ => true
  }

  /** Which of two records is looked at first never decides whether they conflict. */
  lemma ConflictSymmetric(a: Subject, b: Subject)
    ensures SubjectsConflict(a, b) == SubjectsConflict(b, a)
    ensures SubjectsConflictAcrossScopes(a, b) == SubjectsConflictAcrossScopes(b, a)
  {
    if a.Property? && b.Property? {
      assert LabelsConflict(a.labels, b.labels) == LabelsConflict(b.labels, a.labels);
      assert ProfilesConflict(a.valueProfiles, b.valueProfiles) == ProfilesConflict(b.valueProfiles, a.valueProfiles);
    }
  }
}
