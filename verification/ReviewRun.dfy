// Review as it runs: a draft manifest that candidates change in place.
module ReviewRun {
  import opened Options
  import opened Observation
  import opened Ordering
  import opened Sorting
  import opened Bags
  import opened Folds
  import opened Proposal
  import opened ProposalIntegrity
  import opened ProposalRun
  import opened Review

  method InsertLabels(target: map<string, string>, labels: map<string, string>) returns (merged: map<string, string>)
    ensures merged == target + labels
  {
    merged := target;
    var todo := labels.Keys;
    while todo != {}
      invariant todo <= labels.Keys
      invariant merged == target + (labels - todo)
      decreases todo
    {
      var raw :| raw in todo;
      merged := merged[raw := labels[raw]];
      todo := todo - {raw};
    }
    assert labels - {} == labels;
  }

  method ReplaceProfiles(profiles: seq<ValueProfile>, incoming: seq<ValueProfile>) returns (merged: seq<ValueProfile>)
    ensures merged == SortProfiles(PutProfiles(profiles, incoming))
  {
    merged := profiles;
    for i := 0 to |incoming|
      invariant merged == PutProfiles(profiles, incoming[..i])
    {
      assert incoming[..i + 1][..i] == incoming[..i];
      merged := Filter(merged, OtherSlot(incoming[i])) + [incoming[i]];
    }
    assert incoming[..|incoming|] == incoming;
    merged := SortProfiles(merged);
  }

  /** Stops at the first value that is neither an integer nor a string. */
  method StoreValues(values: seq<Json>) returns (stored: Option<seq<DescriptorValue>>)
    ensures stored.Some? <==> forall i :: 0 <= i < |values| ==> Storable(values[i])
    ensures stored.Some? ==> stored.value == Map(values, StoredValue)
  {
    var done: seq<DescriptorValue> := [];
    for i := 0 to |values|
      invariant done == Map(values[..i], StoredValue)
      invariant forall j :: 0 <= j < i ==> Storable(values[j])
    {
      if values[i].JsonInt? {
        done := done + [IntValue(values[i].i)];
      } else if values[i].JsonStr? {
        done := done + [StrValue(values[i].s)];
      } else {
        return None;
      }
    }
    assert values[..|values|] == values;
    return Some(done);
  }

  method StoreDescriptor(d: Option<Descriptor>) returns (stored: Option<ModelDescriptor>)
    ensures StorableDescriptor(d) ==> stored == StoredDescriptor(d)
    ensures !StorableDescriptor(d) ==> stored.None?
  {
    if d.None? { return None; }
    var values := StoreValues(d.value.values);
    if values.None? { return None; }
    return Some(ModelDescriptor(d.value.form, values.value, Some(CameraSource)));
  }

  method OverwriteFacts(current: Facts, a: Assertion, descriptor: Option<ModelDescriptor>) returns (facts: Facts)
    requires a.PropertySupport? && descriptor == StoredDescriptor(a.descriptor)
    ensures facts == WriteFacts(current, a)
  {
    facts := current;
    if a.propertyType.Some? { facts := facts.(ptype := a.propertyType); }
    if ParseAccess(a.access).Some? { facts := facts.(access := ParseAccess(a.access)); }
    if descriptor.Some? { facts := facts.(descriptor := descriptor); }
    var labels := InsertLabels(facts.labels, a.labels);
    var profiles := ReplaceProfiles(facts.profiles, a.valueProfiles);
    facts := facts.(labels := labels, profiles := profiles);
  }

  method RegisterObserved(modes: map<string, string>, scopes: seq<Context>) returns (now: map<string, string>)
    ensures now == RegisterModes(modes, scopes)
  {
    now := modes;
    for i := 0 to |scopes|
      invariant now == RegisterModes(modes, scopes[..i])
    {
      assert scopes[..i + 1][..i] == scopes[..i];
      if scopes[i].mode !in now { now := now[scopes[i].mode := ""]; }
    }
    assert scopes[..|scopes|] == scopes;
  }

  method RegisterProfileModes(modes: map<string, string>, profile: ValueProfile, scopes: seq<Context>)
    returns (now: map<string, string>)
    ensures now == ProfileModes(modes, profile, scopes)
  {
    now := modes;
    if scopes != [] {
      now := RegisterObserved(modes, scopes);
    } else if profile.mode.Some? && profile.mode.value !in now {
      now := now[profile.mode.value := ""];
    }
  }

  method RegisterEvidence(evidence: map<string, EvidenceEntry>, references: seq<string>)
    returns (now: map<string, EvidenceEntry>)
    ensures now == RegisterReferences(evidence, references)
  {
    now := evidence;
    for i := 0 to |references|
      invariant now == RegisterReferences(evidence, references[..i])
    {
      assert references[..i + 1][..i] == references[..i];
      if references[i] !in now { now := now[references[i] := EvidenceEntry("semantic-assertion", "", "")]; }
    }
    assert references[..|references|] == references;
  }

  method RegisterSources(evidence: map<string, EvidenceEntry>, provenance: seq<Provenance>)
    returns (now: map<string, EvidenceEntry>)
    ensures now == RegisterAll(evidence, provenance)
  {
    now := RegisterEvidence(evidence, References(provenance));
    now := RegisterCanonical(now);
  }

  method FillSlot(entry: PropertyEntry, sourced: ValueProfile, provenance: seq<Provenance>)
    returns (amended: PropertyEntry)
    ensures amended == entry.(facts := entry.facts.(
                                profiles := SortProfiles(PutProfile(entry.facts.profiles, sourced))),
                              evidence := MergeEvidence(entry.evidence, provenance))
  {
    var kept := Filter(entry.facts.profiles, OtherSlot(sourced));
    amended := entry.(facts := entry.facts.(profiles := SortProfiles(kept + [sourced])),
                      evidence := MergeEvidence(entry.evidence, provenance));
  }

  /** A value profile leaves its mark in the modes, the property, its ledger and the evidence, and nowhere else. */
  method ProfileAdded(lex: Lexicon, m: Manifest, code: string, profile: ValueProfile, provenance: seq<Provenance>,
                      scopes: seq<Context>)
    returns (n: Manifest)
    requires code in m.properties
    ensures ApplyProfile(lex, m, code, profile, provenance, scopes) == Ok(n)
    ensures n.rest == m.rest
  {
    var entry, ledger := m.properties[code], if code in m.propertyLedger then m.propertyLedger[code] else NO_LEDGER;
    var amended := FillSlot(entry, SourcedProfile(profile, provenance), provenance);
    var listed := AddLedgerProfile(lex, ledger.profiles, SourcedProfile(profile, provenance), provenance);
    var observed := RegisterProfileModes(m.modes, profile, scopes);
    var registered := RegisterSources(m.evidence, provenance);
    n := m.(modes := observed, properties := m.properties[code := amended],
            propertyLedger := m.propertyLedger[code := ledger.(profiles := listed)], evidence := registered);
  }

  class Draft {
    const lex: Lexicon
    const rest: string
    var camera: Camera
    var modes: map<string, string>
    var operations: map<string, OperationEntry>
    var properties: map<string, PropertyEntry>
    var operationLedger: map<string, Option<ProvenancedName>>
    var propertyLedger: map<string, PropertyLedger>
    var evidence: map<string, EvidenceEntry>

    function Value(): Manifest
      reads this
    {
      Manifest(camera, modes, operations, properties, operationLedger, propertyLedger, evidence, rest)
    }

    constructor (lex: Lexicon, m: Manifest)
      ensures this.lex == lex && Value() == m
    {
      this.lex, rest := lex, m.rest;
      camera, modes, operations, properties := m.camera, m.modes, m.operations, m.properties;
      operationLedger, propertyLedger, evidence := m.operationLedger, m.propertyLedger, m.evidence;
    }

    method Become(m: Manifest)
      requires m.rest == rest
      modifies this
      ensures Value() == m
    {
      camera, modes, operations, properties := m.camera, m.modes, m.operations, m.properties;
      operationLedger, propertyLedger, evidence := m.operationLedger, m.propertyLedger, m.evidence;
    }

    method Identify(c: Camera) returns (ok: bool)
      modifies this
      ensures ok ==> ApplyIdentity(old(Value()), c) == Ok(Value())
      ensures !ok ==> ApplyIdentity(old(Value()), c).Err?
    {
      if (camera.manufacturer != "" && camera.manufacturer != c.manufacturer)
        || (camera.model != "" && camera.model != c.model)
         || (camera.firmware != "" && camera.firmware != c.firmware)
      {
        return false;
      }
      if camera.manufacturer == "" { camera := camera.(manufacturer := c.manufacturer); }
      if camera.model == "" { camera := camera.(model := c.model); }
      if camera.firmware == "" { camera := camera.(firmware := c.firmware); }
      evidence := RegisterCanonical(evidence);
      return true;
    }

    method SupportOperation(code: string, scopes: seq<Context>)
      modifies this
      ensures Value() == ApplyOperation(lex, old(Value()), code, scopes)
    {
      var observed := RegisterObserved(modes, scopes);
      var entry := if code in operations then operations[code] else NewOperation(lex, code, scopes);
      modes := observed;
      operations := operations[code := entry.(scopes := MergeScopes(entry.scopes, scopes))];
      evidence := RegisterCanonical(evidence);
    }

    method NameOperation(code: string, name: string, provenance: seq<Provenance>) returns (ok: bool)
      modifies this
      ensures ok ==> ApplyOperationName(lex, old(Value()), code, name, provenance) == Ok(Value())
      ensures !ok ==> ApplyOperationName(lex, old(Value()), code, name, provenance).Err?
    {
      if code !in operations || !GivesWay(code, operations[code].name, name, lex.operationName(code)) { return false; }
      var entry, ledger := operations[code], if code in operationLedger then operationLedger[code] else None;
      var merged := MergeName(lex.codec, ledger, name, provenance);
      if merged.None? { return false; }
      var registered := RegisterSources(evidence, provenance);
      operations := operations[code := entry.(name := name, evidence := MergeEvidence(entry.evidence, provenance))];
      operationLedger := operationLedger[code := merged];
      evidence := registered;
      return true;
    }

    method SupportProperty(a: Assertion) returns (ok: bool)
      requires a.PropertySupport?
      modifies this
      ensures ok ==> ApplyProperty(lex, old(Value()), a) == Ok(Value())
      ensures !ok ==> ApplyProperty(lex, old(Value()), a).Err?
    {
      var descriptor := StoreDescriptor(a.descriptor);
      if a.descriptor.Some? && descriptor.None? { return false; }
      var observed := RegisterObserved(modes, a.scopes);
      var entry := if a.code in properties then properties[a.code] else NewProperty(lex, a.code);
      var facts := OverwriteFacts(entry.facts, a, descriptor);
      modes := observed;
      properties := properties[a.code := entry.(facts := facts, scopes := MergeScopes(entry.scopes, a.scopes))];
      evidence := RegisterCanonical(evidence);
      return true;
    }

    method NameProperty(code: string, name: string, provenance: seq<Provenance>) returns (ok: bool)
      modifies this
      ensures ok ==> ApplyPropertyName(lex, old(Value()), code, name, provenance) == Ok(Value())
      ensures !ok ==> ApplyPropertyName(lex, old(Value()), code, name, provenance).Err?
    {
      if code !in properties || !GivesWay(code, properties[code].name, name, lex.propertyName(code)) { return false; }
      var entry, ledger := properties[code], if code in propertyLedger then propertyLedger[code] else NO_LEDGER;
      var merged := MergeName(lex.codec, ledger.canonicalName, name, provenance);
      if merged.None? { return false; }
      var registered := RegisterSources(evidence, provenance);
      properties := properties[code := entry.(name := name, evidence := MergeEvidence(entry.evidence, provenance))];
      propertyLedger := propertyLedger[code := ledger.(canonicalName := merged)];
      evidence := registered;
      return true;
    }

    method NamePropertyNatively(code: string, name: string, provenance: seq<Provenance>) returns (ok: bool)
      modifies this
      ensures ok ==> ApplyNativeName(lex, old(Value()), code, name, provenance) == Ok(Value())
      ensures !ok ==> ApplyNativeName(lex, old(Value()), code, name, provenance).Err?
    {
      if code !in properties { return false; }
      var entry, ledger := properties[code], if code in propertyLedger then propertyLedger[code] else NO_LEDGER;
      var merged := MergeName(lex.codec, ledger.sourceNativeName, name, provenance);
      if (entry.ptpName.Some? && entry.ptpName != Some(name)) || merged.None? { return false; }
      var registered := RegisterSources(evidence, provenance);
      properties := properties[code := entry.(ptpName := Some(name),
                                              evidence := MergeEvidence(entry.evidence, provenance))];
      propertyLedger := propertyLedger[code := ledger.(sourceNativeName := merged)];
      evidence := registered;
      return true;
    }

    method ListRow(code: string, value: TypedValue, caption: string, provenance: seq<Provenance>) returns (ok: bool)
      modifies this
      ensures ok ==> ApplyRow(lex, old(Value()), code, value, caption, provenance) == Ok(Value())
      ensures !ok ==> ApplyRow(lex, old(Value()), code, value, caption, provenance).Err?
    {
      if code !in properties || properties[code].facts.ptype != Some(value.ptype) { return false; }
      var entry, ledger := properties[code], if code in propertyLedger then propertyLedger[code] else NO_LEDGER;
      var rows := AddTypedRow(entry.rows, value, caption, provenance);
      if rows.None? { return false; }
      var listed := AddLedgerRow(lex, ledger.rows, value, caption, provenance);
      if listed.None? { return false; }
      var registered := RegisterSources(evidence, provenance);
      properties := properties[code := entry.(rows := rows.value,
                                              evidence := MergeEvidence(entry.evidence, provenance))];
      propertyLedger := propertyLedger[code := ledger.(rows := listed.value)];
      evidence := registered;
      return true;
    }

    method ListProfile(code: string, profile: ValueProfile, provenance: seq<Provenance>, scopes: seq<Context>)
      returns (ok: bool)
      modifies this
      ensures ok ==> ApplyProfile(lex, old(Value()), code, profile, provenance, scopes) == Ok(Value())
      ensures !ok ==> ApplyProfile(lex, old(Value()), code, profile, provenance, scopes).Err?
    {
      if code !in properties { return false; }
      var now := ProfileAdded(lex, Value(), code, profile, provenance, scopes);
      Become(now);
      return true;
    }

    method ApplyStructural(c: Candidate) returns (ok: bool)
      requires !Semantic(c.assertion)
      modifies this
      ensures ok ==> ApplyCandidate(lex, old(Value()), c) == Ok(Value())
      ensures !ok ==> ApplyCandidate(lex, old(Value()), c).Err?
    {
      ok := true;
      match c.assertion
      case CameraIdentity(camera) => ok := Identify(camera);
      case OperationSupport(code, supported, _, scopes) => if supported { SupportOperation(code, scopes); }
      case PropertySupport(_, supported, _, _, _, _, _, _, _) => if supported { ok := SupportProperty(c.assertion); }
    }

    method ApplyName(c: Candidate) returns (ok: bool)
      requires c.assertion.OperationName? || c.assertion.PropertyName? || c.assertion.PropertySourceNativeName?
      modifies this
      ensures ok ==> ApplyCandidate(lex, old(Value()), c) == Ok(Value())
      ensures !ok ==> ApplyCandidate(lex, old(Value()), c).Err?
    {
      match c.assertion
      case OperationName(code, name) => ok := NameOperation(code, name, c.provenance);
      case PropertyName(code, name) => ok := NameProperty(code, name, c.provenance);
      case PropertySourceNativeName(code, name) => ok := NamePropertyNatively(code, name, c.provenance);
    }

    method Apply(c: Candidate) returns (ok: bool)
      modifies this
      ensures ok ==> ApplyCandidate(lex, old(Value()), c) == Ok(Value())
      ensures !ok ==> ApplyCandidate(lex, old(Value()), c).Err?
    {
      if !Semantic(c.assertion) {
        ok := ApplyStructural(c);
      } else if c.assertion.PropertyValueRow? {
        ok := ListRow(c.assertion.code, c.assertion.value, c.assertion.caption, c.provenance);
      } else if c.assertion.PropertyValueProfile? {
        ok := ListProfile(c.assertion.code, c.assertion.profile, c.provenance, c.observedScopes);
      } else {
        ok := ApplyName(c);
      }
    }

    method ApplyNext(c: Candidate, ghost start: Manifest, ghost before: seq<Candidate>) returns (ok: bool)
      requires ApplyAll(lex, start, before) == Ok(Value())
      modifies this
      ensures ok ==> ApplyAll(lex, start, before + [c]) == Ok(Value())
      ensures !ok ==> ApplyAll(lex, start, before + [c]).Err?
    {
      OneMore(Applier(lex), start, before, c);
      ok := Apply(c);
    }

    /** One of the two passes: apply what was accepted and belongs to it. */
    method Pass(p: Proposal, r: ProposalReview, semantic: bool) returns (ok: bool)
      modifies this
      ensures ok ==> ApplyAll(lex, old(Value()), Filter(p.candidates, Chooser(r, semantic))) == Ok(Value())
      ensures !ok ==> ApplyAll(lex, old(Value()), Filter(p.candidates, Chooser(r, semantic))).Err?
    {
      ghost var start, keep := Value(), Chooser(r, semantic);
      for i := 0 to |p.candidates|
        invariant ApplyAll(lex, start, Filter(p.candidates[..i], keep)) == Ok(Value())
      {
        FilterGrows(p.candidates, i, keep);
        if Chosen(r, p.candidates[i], semantic) {
          ok := ApplyNext(p.candidates[i], start, Filter(p.candidates[..i], keep));
          if !ok {
            StaysFailed(Applier(lex), start, p.candidates, i + 1, keep);
            return false;
          }
        } else {
          assert Filter(p.candidates[..i + 1], keep) == Filter(p.candidates[..i], keep);
        }
      }
      assert p.candidates[..|p.candidates|] == p.candidates;
      return true;
    }
  }

  lemma FilterGrows<T>(s: seq<T>, i: nat, keep: T -> bool)
    requires i < |s|
    ensures Filter(s[..i + 1], keep) == Filter(s[..i], keep) + (if keep(s[i]) then [s[i]] else [])
  {
    assert s[..i + 1][..i] == s[..i];
  }

  lemma OneMore<S, C, E>(step: (S, C) -> Result<S, E>, s: S, cs: seq<C>, c: C)
    requires Fold(step, s, cs).Ok?
    ensures Fold(step, s, cs + [c]) == step(Fold(step, s, cs).value, c)
  {
    assert (cs + [c])[..|cs|] == cs;
  }

  lemma {:induction false} StaysFailed<S, C, E>(step: (S, C) -> Result<S, E>, s: S, cs: seq<C>, i: nat, keep: C -> bool)
    requires i <= |cs| && Fold(step, s, Filter(cs[..i], keep)).Err?
    ensures Fold(step, s, Filter(cs, keep)).Err?
    decreases |cs| - i
  {
    if i < |cs| {
      FilterGrows(cs, i, keep);
      var f := Filter(cs[..i], keep);
      if keep(cs[i]) { assert (f + [cs[i]])[..|f|] == f; } else { assert f + [] == f; }
      StaysFailed(step, s, cs, i + 1, keep);
    } else {
      assert cs[..i] == cs;
    }
  }

  method IdsOf(cs: seq<Candidate>) returns (ids: set<string>)
    ensures ids == Elements(Map(cs, IdOf))
  {
    ids := {};
    for i := 0 to |cs|
      invariant ids == Elements(Map(cs[..i], IdOf))
    {
      assert Map(cs[..i + 1], IdOf) == Map(cs[..i], IdOf) + [cs[i].id];
      ids := ids + {cs[i].id};
    }
    assert cs[..|cs|] == cs;
  }

  method ApplyAccepted(lex: Lexicon, base: Manifest, p: Proposal, r: ProposalReview) returns (applied: Option<Manifest>)
    ensures applied.Some? ==> ApplyAll(lex, base, Agenda(p, r)) == Ok(applied.value)
    ensures applied.None? ==> ApplyAll(lex, base, Agenda(p, r)).Err?
  {
    var draft := new Draft(lex, base);
    ghost var s, t := Filter(p.candidates, Chooser(r, false)), Filter(p.candidates, Chooser(r, true));
    var ok := draft.Pass(p, r, false);
    if !ok {
      FailsEarly(lex, base, s, t);
      return None;
    }
    FoldAppend(Applier(lex), base, s, t);
    ok := draft.Pass(p, r, true);
    if !ok { return None; }
    return Some(draft.Value());
  }

  /** Review coverage and digest are checked before the base is copied; the base itself never changes. */
  method RunReview(lex: Lexicon, valid: Manifest -> bool, base: Manifest, p: Proposal, r: ProposalReview)
    returns (result: Result<Manifest, ReviewError>)
    requires lex.codec.Faithful()
    ensures result == ApplyReview(lex, valid, base, p, r)
  {
    var sound := CheckIntegrity(lex.codec, p);
    if !sound { return Err(BrokenProposal); }
    if r.schema != REVIEW_SCHEMA { return Err(UnknownSchema); }
    if r.proposalDigest != p.digest { return Err(WrongDigest); }
    var ids := IdsOf(p.candidates);
    if ids != r.decisions.Keys { return Err(WrongCoverage); }
    var applied := ApplyAccepted(lex, base, p, r);
    if applied.None? || !valid(applied.value) { return Err(ApplyConflict); }
    return Ok(applied.value);
  }

  lemma FailsEarly(lex: Lexicon, base: Manifest, s: seq<Candidate>, t: seq<Candidate>)
    requires ApplyAll(lex, base, s).Err?
    ensures ApplyAll(lex, base, s + t).Err?
  {
    if ApplyAll(lex, base, s + t).Ok? { FoldPrefix(Applier(lex), base, s, t); }
  }
}
