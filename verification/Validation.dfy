// Fail-closed validation of observation bundles.
//
// A bundle enters as its parsed lines. The shallow rules that look at one record
// together with its bundle header (identifiers, sanitized strings, clocks,
// artifact ranges, payload metadata, outcome coherence) are a parameter, `Rules`;
// everything that compares records with each other is spelled out.
module Validation {
  import opened Options
  import opened Observation
  import opened Ordering
  import opened Sorting
  import opened Bags

  /** A reason to reject a line. Codes are printed `O` and three digits. */
  datatype Fault = Fault(code: nat, message: string)

  /** The code an accepted line is reported with. No rule uses it. */
  const ACCEPTED_CODE: nat := 0

  type Rules = (Observation, Observation) -> set<Fault>

  datatype RawLine =
    | Unparsed(identity: string, fault: Fault)
    | Parsed(value: Observation)

  datatype Line = Line(identity: string, value: Option<Observation>, faults: set<Fault>, counts: bool)

  datatype Status = Accepted | Rejected

  datatype Disposition = Disposition(identity: string, status: Status, code: nat, message: string)

  datatype Report = Report(total: nat, accepted: nat, rejected: nat, dispositions: seq<Disposition>)

  datatype Validated = Validated(headers: seq<Observation>, records: seq<Observation>, report: Report)

  function Decimal(n: nat): string {
    if n < 10 then ["0123456789"[n]] else Decimal(n / 10) + ["0123456789"[n % 10]]
  }

  function HeaderCountFault(n: nat): Fault {
    Fault(10, "bundle requires exactly one " + "header; found " + Decimal(n))
  }
  const NOT_FIRST: Fault := Fault(11, "bundle header must be the " + "first nonblank record")
  const HEADER_ORDINAL: Fault := Fault(12, "bundle header ordinal must be zero")
  const DUPLICATE_RUN: Fault := Fault(13, "duplicate runId across bundles")
  const FOREIGN_RUN: Fault := Fault(14, "record runId does not match " + "its bundle header")
  const DUPLICATE_RECORD: Fault := Fault(20, "duplicate recordId within run")
  const DUPLICATE_ORDINAL: Fault := Fault(21, "duplicate ordinal within run")
  const DUPLICATE_CORRELATION: Fault := Fault(22, "duplicate PTP transaction " + "correlation identity")
  const ZERO_ORDINAL: Fault := Fault(23, "non-header ordinal must be " + "positive")
  const DANGLING_LINK: Fault := Fault(120, "PTP event has a dangling " + "transactionRecordId")
  const CROSSING_LINK: Fault := Fault(121, "PTP event transaction link " + "crosses connection or session")
  const SCOPE_CONFLICT: Fault := Fault(400, "conflicting capability fact " + "in one exact scope")
  const MANIFEST_CONFLICT: Fault :=
    Fault(401, "capability facts conflict " + "across scopes that the " + "manifest cannot represent")

  // ----- parsing -----

  function ParseLine(raw: RawLine): Line {
    match raw
    case Unparsed(identity, fault) => Line(identity, None, {fault}, true)
    case Parsed(value) => Line(value.Name(), Some(value), {}, true)
  }

  function ParseBundle(raws: seq<RawLine>): seq<Line> {
    if raws == [] then [Line("bundle:missing-header", None, {HeaderCountFault(0)}, false)]
    else Map(raws, ParseLine)
  }

  // ----- clashes: records that share a key and contradict each other -----

  /** `key` picks the records that are compared; `clash` says which pairs contradict. */
  datatype ClashRule<!K> = ClashRule(key: Observation -> Option<K>, clash: (Observation, Observation) -> bool,
                                     fault: Fault)

  predicate Holds<K(==)>(line: Line, key: Observation -> Option<K>, k: K) {
    line.value.Some? && key(line.value.value) == Some(k)
  }

  /** Lines `i` and `j` share the key `k` and contradict each other. */
  predicate ClashAt<K(==)>(lines: seq<Line>, rule: ClashRule<K>, k: K, i: nat, j: nat)
    requires i < |lines| && j < |lines|
  {
    && Holds(lines[i], rule.key, k) && Holds(lines[j], rule.key, k)
    && rule.clash(lines[i].value.value, lines[j].value.value)
  }

  predicate Clashing<K(==)>(lines: seq<Line>, rule: ClashRule<K>, k: K) {
    exists i, j :: 0 <= i < j < |lines| && ClashAt(lines, rule, k, i, j)
  }

  function ClashFaults<K(==)>(lines: seq<Line>, rule: ClashRule<K>, value: Observation): set<Fault> {
    if rule.key(value).Some? && Clashing(lines, rule, rule.key(value).value) then {rule.fault} else {}
  }

  const Always := (a: Observation, b: Observation) => true

  function RecordRule(run: string): ClashRule<string> {
    ClashRule((v: Observation) => if v.RunId() == run then Some(v.RecordId()) else None, Always, DUPLICATE_RECORD)
  }

  function OrdinalRule(run: string): ClashRule<nat> {
    ClashRule((v: Observation) => if v.RunId() == run then Some(v.Ordinal()) else None, Always, DUPLICATE_ORDINAL)
  }

  function CorrelationRule(run: string): ClashRule<(string, string, string, nat)> {
    ClashRule((v: Observation) =>
                if v.Transaction? && v.RunId() == run
                then Some((v.connectionInstance, v.session, v.endpointSet, v.transactionId)) else None,
              Always, DUPLICATE_CORRELATION)
  }

  function RunRule(): ClashRule<string> {
    ClashRule((v: Observation) => if v.Header? then Some(v.runId) else None, Always, DUPLICATE_RUN)
  }

  function SubjectName(s: Subject): string {
    match s
    case Identity(_) => "identity"
    case Operation(_, _, _) => "operation"
    case Property(_, _, _, _, _, _, _, _, _, _) => "property"
  }

  function SubjectCode(s: Subject): string {
    if s.Identity? then "camera" else s.code
  }

  function ManifestKey(s: Subject): string { SubjectName(s) + ":" + SubjectCode(s) }

  function ScopeKey(s: Subject, c: Context): string {
    ManifestKey(s) + ":" + c.connection + ":" + c.mode + ":" + c.state
  }

  predicate ScopeClash(a: Observation, b: Observation) {
    a.Capability? && b.Capability? && SubjectsConflict(a.subject, b.subject)
  }

  predicate ManifestClash(a: Observation, b: Observation) {
    && a.Capability? && b.Capability?
    && a.common.context != b.common.context
    && SubjectsConflictAcrossScopes(a.subject, b.subject)
  }

  function ScopeRule(): ClashRule<string> {
    ClashRule((v: Observation) => if v.Capability? then Some(ScopeKey(v.subject, v.common.context)) else None,
              ScopeClash, SCOPE_CONFLICT)
  }

  function ManifestRule(): ClashRule<string> {
    ClashRule((v: Observation) => if v.Capability? && !v.subject.Identity? then Some(ManifestKey(v.subject)) else None,
              ManifestClash, MANIFEST_CONFLICT)
  }

  // ----- one bundle -----

  predicate IsHeader(line: Line) { line.value.Some? && line.value.value.Header? }

  /** The places whose line satisfies `p`, in order. */
  function Places(lines: seq<Line>, p: Line -> bool): (r: seq<nat>)
    ensures forall i :: 0 <= i < |r| ==> r[i] < |lines| && p(lines[r[i]])
    ensures forall i :: 0 <= i < |lines| && p(lines[i]) ==> i in r
    ensures forall i, j :: 0 <= i < j < |r| ==> r[i] < r[j]
  {
    if lines == [] then []
    else
      var n := |lines| - 1;
      assert lines == lines[..n] + [lines[n]];
      Places(lines[..n], p) + (if p(lines[n]) then [n] else [])
  }

  /** The transaction an event may link to; of several with one id the last counts. */
  function LinkTarget(lines: seq<Line>, run: string, recordId: string): Option<(string, string)> {
    if lines == [] then None
    else
      var n := |lines| - 1;
      if IsTransaction(lines[n], run) && lines[n].value.value.RecordId() == recordId
      then Some((lines[n].value.value.connectionInstance, lines[n].value.value.session))
      else LinkTarget(lines[..n], run, recordId)
  }

  predicate IsTransaction(line: Line, run: string) {
    line.value.Some? && line.value.value.Transaction? && line.value.value.RunId() == run
  }

  function LinkFaults(v: Observation, target: string -> Option<(string, string)>): set<Fault> {
    if !v.Event? || v.transactionRecordId.None? then {}
    else
      match target(v.transactionRecordId.value)
      case None => {DANGLING_LINK}
      case Some((connection, session)) =>
        if connection != v.connectionInstance || session != v.session then {CROSSING_LINK} else {}
  }

  function RecordFaults(rules: Rules, lines: seq<Line>, head: Observation, v: Observation): set<Fault> {
    var run := head.RunId();
    ClashFaults(lines, RecordRule(run), v)
    + ClashFaults(lines, OrdinalRule(run), v)
    + ClashFaults(lines, CorrelationRule(run), v)
    + OwnFaults(rules, head, v, Targets(lines, run))
  }

  function Targets(lines: seq<Line>, run: string): string -> Option<(string, string)> {
    (id: string) => LinkTarget(lines, run, id)
  }

  /** What a record is rejected for without comparing it with its neighbours. */
  function OwnFaults(rules: Rules, head: Observation, v: Observation,
                     target: string -> Option<(string, string)>): set<Fault>
  {
    (if v.RunId() != head.RunId() then {FOREIGN_RUN} else {})
    + (if !v.Header? && v.Ordinal() == 0 then {ZERO_ORDINAL} else {})
    + rules(head, v)
    + LinkFaults(v, target)
  }

  function HeadFaults(place: nat, head: Observation): set<Fault> {
    (if place != 0 then {NOT_FIRST} else {}) + (if head.Ordinal() != 0 then {HEADER_ORDINAL} else {})
  }

  function BundleFaults(rules: Rules, lines: seq<Line>, i: nat): set<Fault>
    requires i < |lines|
  {
    var heads := Places(lines, IsHeader);
    if |heads| != 1 then {HeaderCountFault(|heads|)}
    else
      var head := lines[heads[0]].value.value;
      HeadFaultsAt(heads[0], i, head) + ValueFaults(rules, lines, head, lines[i].value)
  }

  function HeadFaultsAt(h: nat, i: nat, head: Observation): set<Fault> {
    if i == h then HeadFaults(i, head) else {}
  }

  function ValueFaults(rules: Rules, lines: seq<Line>, head: Observation, value: Option<Observation>): set<Fault> {
    if value.Some? then RecordFaults(rules, lines, head, value.value) else {}
  }

  function AddFaults(line: Line, faults: set<Fault>): Line { line.(faults := line.faults + faults) }

  function CheckedBundle(rules: Rules, lines: seq<Line>): (r: seq<Line>)
    ensures |r| == |lines|
  {
    seq(|lines|, i requires 0 <= i < |lines| => AddFaults(lines[i], BundleFaults(rules, lines, i)))
  }

  // ----- across bundles -----

  function CrossFaults(lines: seq<Line>, v: Observation): set<Fault> {
    ClashFaults(lines, RunRule(), v) + ClashFaults(lines, ScopeRule(), v) + ClashFaults(lines, ManifestRule(), v)
  }

  function CrossChecked(lines: seq<Line>): (r: seq<Line>)
    ensures |r| == |lines|
  {
    seq(|lines|, i requires 0 <= i < |lines| =>
      if lines[i].value.Some? then AddFaults(lines[i], CrossFaults(lines, lines[i].value.value)) else lines[i])
  }

  function Checker(rules: Rules): seq<RawLine> -> seq<Line> {
    (raws: seq<RawLine>) => CheckedBundle(rules, ParseBundle(raws))
  }

  function BundleLines(rules: Rules, bundles: seq<seq<RawLine>>): seq<Line> {
    Flat(Map(bundles, Checker(rules)))
  }

  /** Every line of every bundle with everything it is rejected for. */
  function CheckedLines(rules: Rules, bundles: seq<seq<RawLine>>): seq<Line> {
    CrossChecked(BundleLines(rules, bundles))
  }

  // ----- the report -----

  predicate FaultLe(a: Fault, b: Fault) {
    if a.code != b.code then a.code < b.code else StrLe(a.message, b.message)
  }

  lemma FaultOrder()
    ensures TotalOrder(FaultLe)
  {
    StrOrder();
  }

  function RejectionOf(identity: string): Fault -> Disposition {
    (f: Fault) => Disposition(identity, Rejected, f.code, f.message)
  }

  function LineDispositions(line: Line): seq<Disposition> {
    if line.faults == {} then [Disposition(line.identity, Accepted, ACCEPTED_CODE, "accepted")]
    else
      FaultOrder();
      Map(Ascending(line.faults, FaultLe), RejectionOf(line.identity))
  }

  /**
   * By identity, code and message. The code of accepted lines is below every
   * fault's, so comparing the status before the code gives the same order.
   */
  predicate DispositionLe(a: Disposition, b: Disposition) {
    if a.identity != b.identity then StrLe(a.identity, b.identity)
    else if a.status != b.status then a.status.Accepted?
    else if a.code != b.code then a.code < b.code
    else StrLe(a.message, b.message)
  }

  predicate Clean(line: Line) { line.faults == {} }

  predicate Counts(line: Line) { line.counts }

  predicate CountsClean(line: Line) { line.counts && Clean(line) }

  predicate Faulty(line: Line) { !Clean(line) }

  predicate IsCleanHeader(line: Line) { Clean(line) && IsHeader(line) }

  predicate IsCleanRecord(line: Line) { Clean(line) && line.value.Some? && !line.value.value.Header? }

  function ValueOf(line: Line): Observation {
    if line.value.Some? then line.value.value else OtherRecord(Common("", "", 0, Context("", "", ""), ""), "")
  }

  predicate RunLe(a: Observation, b: Observation) { StrLe(a.RunId(), b.RunId()) }

  /** Records are listed by run, then ordinal, then record id. */
  predicate RecordLe(a: Observation, b: Observation) {
    if a.RunId() != b.RunId() then StrLe(a.RunId(), b.RunId())
    else if a.Ordinal() != b.Ordinal() then a.Ordinal() < b.Ordinal()
    else StrLe(a.RecordId(), b.RecordId())
  }

  function ReportOf(lines: seq<Line>): Report {
    Report(|Filter(lines, Counts)|,
           |Filter(lines, CountsClean)|,
           |Filter(lines, Faulty)|,
           Sort(Flat(Map(lines, LineDispositions)), DispositionLe))
  }

  function HeadersOf(lines: seq<Line>): seq<Observation> {
    Sort(Map(Filter(lines, IsCleanHeader), ValueOf), RunLe)
  }

  function RecordsOf(lines: seq<Line>): seq<Observation> {
    Sort(Map(Filter(lines, IsCleanRecord), ValueOf), RecordLe)
  }

  function Assemble(lines: seq<Line>): Result<Validated, Report> {
    var report := ReportOf(lines);
    if report.rejected == 0 then Ok(Validated(HeadersOf(lines), RecordsOf(lines), report)) else Err(report)
  }

  function Validate(rules: Rules, bundles: seq<seq<RawLine>>): Result<Validated, Report> {
    Assemble(CheckedLines(rules, bundles))
  }
}
