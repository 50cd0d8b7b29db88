// First-wins aggregation loses nothing: on accepted input every record that
// gives a property fact gives the aggregated one.
module FirstWins {
  import opened Options
  import opened Observation
  import opened Ordering
  import opened Sorting
  import opened Bags
  import opened Validation
  import opened ValidationOrder
  import opened Proposal

  // ----- what an aggregate holds, without accumulating -----

  predicate Describes(records: seq<Observation>, k: Key, i: int) {
    0 <= i < |records| && IsProperty(records[i]) && RecordKey(records[i]) == k
  }

  predicate Operates(records: seq<Observation>, k: Key, i: int) {
    0 <= i < |records| && IsOperation(records[i]) && RecordKey(records[i]) == k
  }

  /** `got` is what the first describing record with a value gives; absent if none gives one. */
  ghost predicate FirstGiven<T(!new)>(records: seq<Observation>, k: Key, pick: Observation -> Option<T>,
                                      got: Option<T>) {
    && (got.None? ==> forall i :: Describes(records, k, i) ==> pick(records[i]).None?)
    && (got.Some? ==> exists i :: Describes(records, k, i) && pick(records[i]) == got
                                  && forall j :: j < i && Describes(records, k, j) ==> pick(records[j]).None?)
  }

  function TypeGiven(r: Observation): Option<string> { if IsProperty(r) then r.subject.propertyType else None }
  function AccessGiven(r: Observation): Option<string> { if IsProperty(r) then r.subject.access else None }
  function DescriptorGiven(r: Observation): Option<Descriptor> { if IsProperty(r) then r.subject.descriptor else None }
  function CaptionGiven(raw: string): Observation -> Option<string> {
    (r: Observation) => if IsProperty(r) && raw in r.subject.labels then Some(r.subject.labels[raw]) else None
  }
  function Lookup(m: map<string, string>, raw: string): Option<string> { if raw in m then Some(m[raw]) else None }

  ghost function DescribedScopes(records: seq<Observation>, k: Key): set<Context> {
    set i | 0 <= i < |records| && Describes(records, k, i) :: records[i].common.context
  }

  ghost function DescribingNames(records: seq<Observation>, k: Key): set<string> {
    set i | 0 <= i < |records| && Describes(records, k, i) :: records[i].Name()
  }

  ghost function LabelledScopes(records: seq<Observation>, k: Key): set<Context> {
    set i | 0 <= i < |records| && Describes(records, k, i)
      && records[i].subject.labels != map[] :: records[i].common.context
  }

  ghost function LabellingNames(records: seq<Observation>, k: Key): set<string> {
    set i | 0 <= i < |records| && Describes(records, k, i) && records[i].subject.labels != map[] :: records[i].Name()
  }

  ghost function OperatedScopes(records: seq<Observation>, k: Key): set<Context> {
    set i | 0 <= i < |records| && Operates(records, k, i) :: records[i].common.context
  }

  ghost function OperatingNames(records: seq<Observation>, k: Key): set<string> {
    set i | 0 <= i < |records| && Operates(records, k, i) :: records[i].Name()
  }

  ghost predicate FirstFacts(records: seq<Observation>, k: Key, a: PropertyAggregate) {
    && FirstGiven(records, k, TypeGiven, a.propertyType)
    && FirstGiven(records, k, AccessGiven, a.access)
    && FirstGiven(records, k, DescriptorGiven, a.descriptor)
    && forall raw :: FirstGiven(records, k, CaptionGiven(raw), Lookup(a.labels, raw))
  }

  ghost predicate ExactEvidence(records: seq<Observation>, k: Key, a: PropertyAggregate) {
    && a.scopes == DescribedScopes(records, k) && a.sources == DescribingNames(records, k)
    && a.labelScopes == LabelledScopes(records, k) && a.labelSources == LabellingNames(records, k)
  }

  // ----- one more record -----

  lemma DescribesLast(records: seq<Observation>, k: Key, i: int)
    requires records != []
    ensures var n := |records| - 1;
      Describes(records, k, i) <==> Describes(records[..n], k, i)
                                    || (i == n && IsProperty(records[n]) && RecordKey(records[n]) == k)
  {
  }

  lemma FirstGivenMore<T(!new)>(records: seq<Observation>, k: Key, pick: Observation -> Option<T>, got: Option<T>,
                                now: Option<T>)
    requires records != []
    requires var n := |records| - 1;
      && FirstGiven(records[..n], k, pick, got)
      && now == (if IsProperty(records[n]) && RecordKey(records[n]) == k then Or(got, pick(records[n])) else got)
    ensures FirstGiven(records, k, pick, now)
  {
    var n := |records| - 1;
    var front := records[..n];
    forall i ensures Describes(records, k, i) <==> Describes(front, k, i) || (i == n && Describes(records, k, n)) {
      DescribesLast(records, k, i);
    }
    assert forall i :: 0 <= i < n ==> front[i] == records[i];
    if got.Some? {
      var i :| && Describes(front, k, i) && pick(front[i]) == got
               && forall j :: j < i && Describes(front, k, j) ==> pick(front[j]).None?;
      assert Describes(records, k, i) && pick(records[i]) == got;
    } else if now.Some? {
      assert Describes(records, k, n) && pick(records[n]) == now;
    }
  }

  lemma FactsMore(records: seq<Observation>, k: Key, a: PropertyAggregate)
    requires records != [] && FirstFacts(records[..|records| - 1], k, a)
    ensures var n := |records| - 1;
      FirstFacts(records, k, if Describes(records, k, n) then AddProperty(map[k := a], records[n])[k] else a)
  {
    var n := |records| - 1;
    var r := records[n];
    var b := if Describes(records, k, n) then AddProperty(map[k := a], r)[k] else a;
    FirstGivenMore(records, k, TypeGiven, a.propertyType, b.propertyType);
    FirstGivenMore(records, k, AccessGiven, a.access, b.access);
    FirstGivenMore(records, k, DescriptorGiven, a.descriptor, b.descriptor);
    forall raw ensures FirstGiven(records, k, CaptionGiven(raw), Lookup(b.labels, raw)) {
      FirstGivenMore(records, k, CaptionGiven(raw), Lookup(a.labels, raw), Lookup(b.labels, raw));
    }
  }

  lemma ScopesMore(records: seq<Observation>, k: Key)
    requires records != []
    ensures var n := |records| - 1;
      && DescribedScopes(records, k) == DescribedScopes(records[..n], k)
                                        + (if Describes(records, k, n) then {records[n].common.context} else {})
      && DescribingNames(records, k) == DescribingNames(records[..n], k)
                                        + (if Describes(records, k, n) then {records[n].Name()} else {})
  {
    var n := |records| - 1;
    var front := records[..n];
    assert forall i :: 0 <= i < n ==> front[i] == records[i] && Describes(front, k, i) == Describes(records, k, i);
  }

  lemma LabelledMore(records: seq<Observation>, k: Key)
    requires records != []
    ensures var n := |records| - 1;
      && LabelledScopes(records, k) == LabelledScopes(records[..n], k)
           + (if Describes(records, k, n) && records[n].subject.labels != map[]
              then {records[n].common.context} else {})
      && LabellingNames(records, k) == LabellingNames(records[..n], k)
           + (if Describes(records, k, n) && records[n].subject.labels != map[] then {records[n].Name()} else {})
  {
    var n := |records| - 1;
    var front := records[..n];
    assert forall i :: 0 <= i < n ==> front[i] == records[i] && Describes(front, k, i) == Describes(records, k, i);
  }

  lemma EvidenceMore(records: seq<Observation>, k: Key, a: PropertyAggregate)
    requires records != [] && ExactEvidence(records[..|records| - 1], k, a)
    ensures var n := |records| - 1;
      ExactEvidence(records, k, if Describes(records, k, n) then AddProperty(map[k := a], records[n])[k] else a)
  {
    ScopesMore(records, k);
    LabelledMore(records, k);
  }

  /** The loop's aggregate for a key is the first value given for each fact and exactly the records that bear on it. */
  lemma {:induction false} PropertyAggregateClosed(records: seq<Observation>, k: Key)
    ensures k in Properties(records) <==> exists i :: Describes(records, k, i)
    ensures FirstFacts(records, k, At(Properties(records), k, NO_PROPERTY))
    ensures ExactEvidence(records, k, At(Properties(records), k, NO_PROPERTY))
  {
    if records != [] {
      var n := |records| - 1;
      PropertyAggregateClosed(records[..n], k);
      FactsMore(records, k, At(Properties(records[..n]), k, NO_PROPERTY));
      EvidenceMore(records, k, At(Properties(records[..n]), k, NO_PROPERTY));
      if i :| Describes(records[..n], k, i) { DescribesLast(records, k, i); }
      if i :| Describes(records, k, i) { DescribesLast(records, k, i); }
    }
  }

  lemma {:induction false} OperationAggregateClosed(records: seq<Observation>, k: Key)
    ensures k in Operations(records) <==> exists i :: Operates(records, k, i)
    ensures At(Operations(records), k, NO_OPERATION)
            == OperationAggregate(OperatedScopes(records, k), OperatingNames(records, k))
  {
    if records != [] {
      var n := |records| - 1;
      var front := records[..n];
      OperationAggregateClosed(front, k);
      assert forall i :: 0 <= i < n ==> front[i] == records[i] && Operates(front, k, i) == Operates(records, k, i);
      var a, b := At(Operations(front), k, NO_OPERATION), At(Operations(records), k, NO_OPERATION);
      assert b.scopes == OperatedScopes(records, k);
      assert b.sources == OperatingNames(records, k);
      if i :| Operates(front, k, i) { assert Operates(records, k, i); }
    }
  }

  // ----- accepted records agree -----

  /** Everything the two subjects both give, they give alike. */
  predicate FactsAgree(a: Subject, b: Subject)
    requires a.Property? && b.Property?
  {
    && !OptionsConflict(a.propertyType, b.propertyType) && !OptionsConflict(a.access, b.access)
    && !OptionsConflict(a.descriptor, b.descriptor) && !LabelsConflict(a.labels, b.labels)
  }

  lemma AcceptedRecord(rules: Rules, bundles: seq<seq<RawLine>>, v: Validated, r: Observation) returns (i: nat)
    requires Validate(rules, bundles) == Ok(v) && r in v.records
    ensures CrossClean(ParsedLines(bundles)) && i < |ParsedLines(bundles)| && ParsedLines(bundles)[i].value == Some(r)
  {
    AcceptedCoherent(rules, bundles);
    var lines := ParsedLines(bundles);
    SameMembers(Map(Filter(lines, IsCleanRecord), ValueOf), RecordsOf(lines));
    FilteredValues(lines, IsCleanRecord, r);
    i :| 0 <= i < |lines| && lines[i].value == Some(r);
  }

  lemma LinesAgree(lines: seq<Line>, i: nat, j: nat)
    requires CrossClean(lines) && i < |lines| && j < |lines| && lines[i].value.Some? && lines[j].value.Some?
    requires IsProperty(lines[i].value.value) && IsProperty(lines[j].value.value)
    requires lines[i].value.value.subject.code == lines[j].value.value.subject.code
    ensures FactsAgree(lines[i].value.value.subject, lines[j].value.value.subject)
  {
    RulesSymmetric();
    var v, w := lines[i].value.value, lines[j].value.value;
    CrossCleanLine(lines, i);
    if i != j {
      if ScopeClash(v, w) { NoClash(lines, ScopeRule(), i, j); }
      if ManifestClash(v, w) { NoClash(lines, ManifestRule(), i, j); }
    }
  }

  lemma LinesSupportAlike(lines: seq<Line>, i: nat, j: nat)
    requires CrossClean(lines) && i < |lines| && j < |lines| && lines[i].value.Some? && lines[j].value.Some?
    requires var v, w := lines[i].value.value, lines[j].value.value;
      (IsProperty(v) && IsProperty(w)) || (IsOperation(v) && IsOperation(w))
    requires lines[i].value.value.subject.code == lines[j].value.value.subject.code
    requires lines[i].value.value.common.context == lines[j].value.value.common.context
    ensures lines[i].value.value.subject.supported == lines[j].value.value.subject.supported
  {
    RulesSymmetric();
    var v, w := lines[i].value.value, lines[j].value.value;
    CrossCleanLine(lines, i);
    if i != j && ScopeClash(v, w) { NoClash(lines, ScopeRule(), i, j); }
  }

  /** Any two accepted property records for one code agree on every fact both give, in one scope or across scopes. */
  lemma AcceptedFactsAgree(rules: Rules, bundles: seq<seq<RawLine>>, v: Validated, r: Observation, s: Observation)
    requires Validate(rules, bundles) == Ok(v) && r in v.records && s in v.records
    requires IsProperty(r) && IsProperty(s) && r.subject.code == s.subject.code
    ensures FactsAgree(r.subject, s.subject)
  {
    var i := AcceptedRecord(rules, bundles, v, r);
    var j := AcceptedRecord(rules, bundles, v, s);
    LinesAgree(ParsedLines(bundles), i, j);
  }

  lemma AcceptedSupportAgrees(rules: Rules, bundles: seq<seq<RawLine>>, v: Validated, r: Observation, s: Observation)
    requires Validate(rules, bundles) == Ok(v) && r in v.records && s in v.records
    requires (IsProperty(r) && IsProperty(s)) || (IsOperation(r) && IsOperation(s))
    requires r.subject.code == s.subject.code && r.common.context == s.common.context
    ensures r.subject.supported == s.subject.supported
  {
    var i := AcceptedRecord(rules, bundles, v, r);
    var j := AcceptedRecord(rules, bundles, v, s);
    LinesSupportAlike(ParsedLines(bundles), i, j);
  }

  // ----- the main results -----

  /** Every fact `s` gives is the aggregated one. */
  predicate Keeps(a: PropertyAggregate, s: Subject)
    requires s.Property?
  {
    && (s.propertyType.Some? ==> a.propertyType == s.propertyType)
    && (s.access.Some? ==> a.access == s.access)
    && (s.descriptor.Some? ==> a.descriptor == s.descriptor)
    && (forall raw :: raw in s.labels ==> raw in a.labels && a.labels[raw] == s.labels[raw])
  }

  lemma FirstIsEvery<T(!new)>(records: seq<Observation>, k: Key, pick: Observation -> Option<T>, got: Option<T>, i: nat)
    requires FirstGiven(records, k, pick, got) && Describes(records, k, i)
    requires forall j :: Describes(records, k, j) ==> !OptionsConflict(pick(records[i]), pick(records[j]))
    ensures pick(records[i]).Some? ==> got == pick(records[i])
  {
    if got.Some? {
      var j :| Describes(records, k, j) && pick(records[j]) == got;
      assert !OptionsConflict(pick(records[i]), pick(records[j]));
    }
  }

  lemma KeepsAll(records: seq<Observation>, k: Key, a: PropertyAggregate, i: nat)
    requires FirstFacts(records, k, a) && Describes(records, k, i)
    requires forall j :: Describes(records, k, j) ==> FactsAgree(records[i].subject, records[j].subject)
    ensures Keeps(a, records[i].subject)
  {
    FirstIsEvery(records, k, TypeGiven, a.propertyType, i);
    FirstIsEvery(records, k, AccessGiven, a.access, i);
    FirstIsEvery(records, k, DescriptorGiven, a.descriptor, i);
    forall raw | raw in records[i].subject.labels
      ensures raw in a.labels && a.labels[raw] == records[i].subject.labels[raw]
    {
      assert FirstGiven(records, k, CaptionGiven(raw), Lookup(a.labels, raw));
      FirstIsEvery(records, k, CaptionGiven(raw), Lookup(a.labels, raw), i);
    }
  }

  /** On accepted input no given type, access, descriptor or caption is lost to an earlier record. */
  lemma AggregationLosesNothing(rules: Rules, bundles: seq<seq<RawLine>>, v: Validated, i: nat)
    requires Validate(rules, bundles) == Ok(v) && i < |v.records| && IsProperty(v.records[i])
    ensures RecordKey(v.records[i]) in Properties(v.records)
    ensures Keeps(Properties(v.records)[RecordKey(v.records[i])], v.records[i].subject)
  {
    var k := RecordKey(v.records[i]);
    PropertyAggregateClosed(v.records, k);
    assert Describes(v.records, k, i);
    forall j | Describes(v.records, k, j) ensures FactsAgree(v.records[i].subject, v.records[j].subject) {
      AcceptedFactsAgree(rules, bundles, v, v.records[i], v.records[j]);
    }
    KeepsAll(v.records, k, Properties(v.records)[k], i);
  }

  /** On accepted input no exact scope is claimed both supported and unsupported for one property code. */
  lemma PropertyScopesDisjoint(rules: Rules, bundles: seq<seq<RawLine>>, v: Validated, k: Key, l: Key)
    requires Validate(rules, bundles) == Ok(v) && k.code == l.code && k.supported != l.supported
    ensures At(Properties(v.records), k, NO_PROPERTY).scopes !! At(Properties(v.records), l, NO_PROPERTY).scopes
  {
    PropertyAggregateClosed(v.records, k);
    PropertyAggregateClosed(v.records, l);
    forall i, j | Describes(v.records, k, i) && Describes(v.records, l, j)
      ensures v.records[i].common.context != v.records[j].common.context
    {
      if v.records[i].common.context == v.records[j].common.context {
        AcceptedSupportAgrees(rules, bundles, v, v.records[i], v.records[j]);
      }
    }
  }

  /** The same for operation codes. */
  lemma OperationScopesDisjoint(rules: Rules, bundles: seq<seq<RawLine>>, v: Validated, k: Key, l: Key)
    requires Validate(rules, bundles) == Ok(v) && k.code == l.code && k.supported != l.supported
    ensures At(Operations(v.records), k, NO_OPERATION).scopes !! At(Operations(v.records), l, NO_OPERATION).scopes
  {
    OperationAggregateClosed(v.records, k);
    OperationAggregateClosed(v.records, l);
    forall i, j | Operates(v.records, k, i) && Operates(v.records, l, j)
      ensures v.records[i].common.context != v.records[j].common.context
    {
      if v.records[i].common.context == v.records[j].common.context {
        AcceptedSupportAgrees(rules, bundles, v, v.records[i], v.records[j]);
      }
    }
  }
}
