// Reviews of the pipeline's own proposals can be applied again; a proposal made
// by hand, or a ledger with a repeated row, can make the second time differ.
module ReviewProposed {
  import opened Options
  import opened Observation
  import opened Ordering
  import opened Sorting
  import opened Bags
  import opened Folds
  import opened Stability
  import opened Validation
  import opened ValidationOrder
  import opened Acceptance
  import opened Proposal
  import opened ProposalIntegrity
  import opened Review
  import opened ReviewGrowth
  import opened ReviewSettled
  import opened ReviewIdempotent

  // ----- the identities of a proposal come from its headers -----

  lemma {:induction false} PooledFrom(codec: Codec, cs: seq<Candidate>, id: string) returns (i: nat)
    requires id in Pooled(codec, cs)
    ensures i < |cs| && Pooled(codec, cs)[id].assertion == cs[i].assertion
    decreases |cs|
  {
    var n := |cs| - 1;
    if id in Pooled(codec, cs[..n]) { i := PooledFrom(codec, cs[..n], id); } else { i := n; }
  }

  lemma ConsolidatedFrom(codec: Codec, cs: seq<Candidate>, c: Candidate) returns (i: nat)
    requires c in Consolidate(codec, cs)
    ensures i < |cs| && c.assertion == cs[i].assertion
  {
    StrOrder();
    var m := Pooled(codec, cs);
    var ids := Ascending(m.Keys, StrLe);
    var k :| 0 <= k < |InIdOrder(m)| && InIdOrder(m)[k] == c;
    assert ids[k] in ids;
    i := PooledFrom(codec, cs, ids[k]);
  }

  predicate NoIdentities(cs: seq<Candidate>) { forall i :: 0 <= i < |cs| ==> !cs[i].assertion.CameraIdentity? }

  lemma NoneJoined(a: seq<Candidate>, b: seq<Candidate>)
    requires NoIdentities(a) && NoIdentities(b)
    ensures NoIdentities(a + b)
  {}

  lemma {:induction false} NoneFlat(ss: seq<seq<Candidate>>)
    requires forall p :: 0 <= p < |ss| ==> NoIdentities(ss[p])
    ensures NoIdentities(Flat(ss))
    decreases |ss|
  {
    if ss != [] {
      NoneFlat(ss[..|ss| - 1]);
      NoneJoined(Flat(ss[..|ss| - 1]), ss[|ss| - 1]);
    }
  }

  lemma NamesNone(codec: Codec, r: Observation, name: Option<NameAssertion>, make: string -> Assertion)
    requires forall n :: !make(n).CameraIdentity?
    ensures NoIdentities(NameCandidates(codec, r, name, make))
  {}

  lemma RowsNone(codec: Codec, r: Observation, code: string, rows: seq<ValueRow>)
    ensures NoIdentities(Map(rows, RowCandidate(codec, r, code)))
  {}

  lemma ProfilesNone(codec: Codec, r: Observation, code: string, epistemic: string, profiles: seq<ValueProfile>)
    ensures NoIdentities(Map(profiles, ProfileCandidate(codec, r, code, epistemic)))
  {}

  lemma RecordNone(codec: Codec, r: Observation)
    ensures NoIdentities(RecordCandidates(codec, r))
  {
    if IsOperation(r) {
      NamesNone(codec, r, r.subject.canonicalName, OperationNamed(r.subject.code));
    } else if IsProperty(r) {
      var code := r.subject.code;
      NamesNone(codec, r, r.subject.canonicalName, PropertyNamed(code));
      NamesNone(codec, r, r.subject.sourceNativeName, PropertyNativelyNamed(code));
      RowsNone(codec, r, code, r.subject.valueRows);
      ProfilesNone(codec, r, code, r.common.epistemic, r.subject.valueProfiles);
      var names := NameCandidates(codec, r, r.subject.canonicalName, PropertyNamed(code));
      var natives := NameCandidates(codec, r, r.subject.sourceNativeName, PropertyNativelyNamed(code));
      var rows := Map(r.subject.valueRows, RowCandidate(codec, r, code));
      NoneJoined(names, natives);
      NoneJoined(names + natives, rows);
      NoneJoined(names + natives + rows, Map(r.subject.valueProfiles,
                                             ProfileCandidate(codec, r, code, r.common.epistemic)));
    }
  }

  lemma RecordsNone(codec: Codec, records: seq<Observation>)
    ensures NoIdentities(Flat(Map(records, RecordMaker(codec))))
  {
    forall p | 0 <= p < |records|
      ensures NoIdentities(Map(records, RecordMaker(codec))[p])
    {
      RecordNone(codec, records[p]);
    }
    NoneFlat(Map(records, RecordMaker(codec)));
  }

  lemma TripleNone(codec: Codec, k: Key, a: PropertyAggregate)
    ensures NoIdentities(PropertyTriple(codec, k, a))
  {
    assert NoIdentities([TypeCandidate(codec, k, a)]);
    assert NoIdentities(DescriptorCandidates(codec, k, a));
    NoneJoined([TypeCandidate(codec, k, a)], DescriptorCandidates(codec, k, a));
    assert NoIdentities(LabelCandidates(codec, k, a));
    NoneJoined([TypeCandidate(codec, k, a)] + DescriptorCandidates(codec, k, a), LabelCandidates(codec, k, a));
  }

  lemma PropertiesNone(codec: Codec, keys: seq<Key>, m: map<Key, PropertyAggregate>)
    ensures NoIdentities(Flat(Map(keys, PropertyMaker(codec, m))))
  {
    forall p | 0 <= p < |keys| ensures NoIdentities(Map(keys, PropertyMaker(codec, m))[p]) {
      TripleNone(codec, keys[p], At(m, keys[p], NO_PROPERTY));
    }
    NoneFlat(Map(keys, PropertyMaker(codec, m)));
  }

  lemma OperationsNone(codec: Codec, keys: seq<Key>, m: map<Key, OperationAggregate>)
    ensures NoIdentities(Map(keys, OperationMaker(codec, m)))
  {}

  lemma OnlyFirst(a: seq<Candidate>, b: seq<Candidate>, c: seq<Candidate>, d: seq<Candidate>, i: nat)
    requires NoIdentities(b) && NoIdentities(c) && NoIdentities(d)
    requires i < |a + b + c + d| && (a + b + c + d)[i].assertion.CameraIdentity?
    ensures i < |a| && (a + b + c + d)[i] == a[i]
  {}

  lemma IdentityFrom(codec: Codec, headers: seq<Observation>, i: nat) returns (k: nat)
    requires i < |IdentityCandidates(codec, headers)|
    ensures k < |headers| && IdentityCandidates(codec, headers)[i].assertion == CameraIdentity(CameraOf(headers[k]))
  {
    CameraOrder();
    var cameras := Ascending(Elements(Map(headers, CameraOf)), CameraLe);
    assert cameras[i] in cameras;
    k :| 0 <= k < |headers| && Map(headers, CameraOf)[k] == cameras[i];
  }

  /** A raw candidate for an identity carries the camera of some header. */
  lemma RawIdentity(codec: Codec, headers: seq<Observation>, records: seq<Observation>, i: nat) returns (k: nat)
    requires i < |RawCandidates(codec, headers, records)|
    requires RawCandidates(codec, headers, records)[i].assertion.CameraIdentity?
    ensures k < |headers| && RawCandidates(codec, headers, records)[i].assertion.camera == CameraOf(headers[k])
  {
    RecordsNone(codec, records);
    var keys, names := Keys(Operations(records)), Keys(Properties(records));
    OperationsNone(codec, keys, Operations(records));
    PropertiesNone(codec, names, Properties(records));
    OnlyFirst(IdentityCandidates(codec, headers), Flat(Map(records, RecordMaker(codec))),
              Map(keys, OperationMaker(codec, Operations(records))),
                Flat(Map(names, PropertyMaker(codec, Properties(records)))), i);
    k := IdentityFrom(codec, headers, i);
  }

  // ----- the headers of accepted input -----

  lemma HeaderLine(lines: seq<Line>, h: Observation) returns (i: nat)
    requires h in HeadersOf(lines)
    ensures i < |lines| && lines[i].value == Some(h) && h.Header?
  {
    var headers := Map(Filter(lines, IsCleanHeader), ValueOf);
    SameMembers(Sort(headers, RunLe), headers);
    FilteredValues(lines, IsCleanHeader, h);
    i :| 0 <= i < |lines| && lines[i].value == Some(h) && IsCleanHeader(lines[i]);
  }

  lemma SoundHeader(rules: Rules, raws: seq<RawLine>, x: nat)
    requires Sound(rules, raws) && x < |raws| && raws[x].Parsed? && raws[x].value.Header?
    ensures rules(raws[x].value, raws[x].value) == {}
  {}

  lemma AcceptedHeader(rules: Rules, bundles: seq<seq<RawLine>>, v: Validated, h: Observation)
    requires Validate(rules, bundles) == Ok(v) && h in v.headers
    ensures h.Header? && rules(h, h) == {}
  {
    AcceptedCoherent(rules, bundles);
    AcceptedIff(rules, bundles);
    var i := HeaderLine(CheckedLines(rules, bundles), h);
    ParsedHeader(rules, bundles, i, h);
  }

  lemma ParsedHeader(rules: Rules, bundles: seq<seq<RawLine>>, i: nat, h: Observation)
    requires AllSound(rules, bundles) && i < |ParsedLines(bundles)| && ParsedLines(bundles)[i].value == Some(h)
             && h.Header?
    ensures rules(h, h) == {}
  {
    forall p | 0 <= p < |bundles| ensures bundles[p] != [] { assert Sound(rules, bundles[p]); }
    var p, x := ParsedPlace(bundles, i);
    SoundHeader(rules, bundles[p], x);
  }

  // ----- idempotence for the pipeline's own proposals -----

  predicate Blank(c: Camera) { c.manufacturer == "" || c.model == "" || c.firmware == "" }

  /** The shallow rules reject a header that leaves a camera field empty. */
  ghost predicate RejectsBlanks(rules: Rules) {
    forall h: Observation :: h.Header? && Blank(h.camera) ==> rules(h, h) != {}
  }

  /** Every identity the pipeline proposes is complete. */
  lemma ProposedComplete(codec: Codec, rules: Rules, bundles: seq<seq<RawLine>>, p: Proposal, c: Candidate)
    requires RejectsBlanks(rules) && Propose(codec, rules, bundles) == Ok(p) && c in p.candidates
             && c.assertion.CameraIdentity?
    ensures !Blank(c.assertion.camera)
  {
    var v := Validate(rules, bundles).value;
    var i := ConsolidatedFrom(codec, RawCandidates(codec, v.headers, v.records), c);
    var k := RawIdentity(codec, v.headers, v.records, i);
    assert v.headers[k] in v.headers;
    AcceptedHeader(rules, bundles, v, v.headers[k]);
  }

  ghost predicate AllComplete(p: Proposal) {
    forall c :: c in p.candidates && c.assertion.CameraIdentity? ==> !Blank(c.assertion.camera)
  }

  lemma CompleteUniform(p: Proposal, r: ProposalReview)
    requires AllComplete(p)
    ensures Uniform(Agenda(p, r))
  {
    forall c | c in Agenda(p, r) ensures c in p.candidates { AgendaMember(p, r, c); }
  }

  lemma ProposedUniform(codec: Codec, rules: Rules, bundles: seq<seq<RawLine>>, p: Proposal, r: ProposalReview)
    requires RejectsBlanks(rules) && Propose(codec, rules, bundles) == Ok(p)
    ensures Uniform(Agenda(p, r))
  {
    forall c | c in p.candidates && c.assertion.CameraIdentity? ensures !Blank(c.assertion.camera) {
      ProposedComplete(codec, rules, bundles, p, c);
    }
    CompleteUniform(p, r);
  }

  lemma AgendaMember(p: Proposal, r: ProposalReview, c: Candidate)
    requires c in Agenda(p, r)
    ensures c in p.candidates
  {
    FilterMembers(p.candidates, Chooser(r, false));
    FilterMembers(p.candidates, Chooser(r, true));
  }

  /** A review of a proposal built from observations can always be applied again, and then changes nothing. */
  lemma ProposedIdempotent(lex: Lexicon, valid: Manifest -> bool, rules: Rules, bundles: seq<seq<RawLine>>,
                           base: Manifest, p: Proposal, r: ProposalReview, y: Manifest)
    requires lex.codec.Faithful() && RejectsBlanks(rules) && Propose(lex.codec, rules, bundles) == Ok(p)
    requires Unrepeated(base, Agenda(p, r)) && ApplyReview(lex, valid, base, p, r) == Ok(y)
    ensures ApplyReview(lex, valid, y, p, r) == Ok(y)
  {
    ProposedUniform(lex.codec, rules, bundles, p, r);
    ReviewIdempotentIff(lex, valid, base, p, r, y);
  }

  // ----- a proposal made by hand that cannot be applied again -----

  /** No further check on manifests. */
  const ANY := (m: Manifest) => true

  function IdentityCandidate(codec: Codec, c: Camera, source: string): Candidate {
    Candidate(codec.id(CameraIdentity(c)), CameraIdentity(c), [source], [], [])
  }

  /** Two identities from one record. */
  function TwoIdentities(codec: Codec, c: Camera, d: Camera, source: string): Proposal {
    var cs := [IdentityCandidate(codec, c, source), IdentityCandidate(codec, d, source)];
    var ds := [RecordDisposition(source, Proposed, [cs[0].id, cs[1].id])];
    Proposal(PROPOSAL_SCHEMA, OBSERVATION_SCHEMA, cs, ds, codec.digest(cs, ds))
  }

  function AcceptEverything(p: Proposal): ProposalReview {
    ProposalReview(REVIEW_SCHEMA, p.digest, map c | c in p.candidates :: c.id := Accept)
  }

  lemma TwoIdentitiesSound(codec: Codec, c: Camera, d: Camera, source: string)
    requires codec.Faithful() && c != d && StrLe(codec.id(CameraIdentity(c)), codec.id(CameraIdentity(d)))
    ensures Integrity(codec, TwoIdentities(codec, c, d, source))
  {
    var p := TwoIdentities(codec, c, d, source);
    var id := codec.id;
    assert id(CameraIdentity(c)) != id(CameraIdentity(d));
    var disposition := p.dispositions[0];
    assert disposition in p.dispositions && p.candidates[0] in p.candidates && p.candidates[1] in p.candidates;
    forall e | e in p.candidates ensures CandidateSound(codec, p.dispositions, e) {
      assert LinksBack(p.dispositions, source, e.id);
    }
    assert ProposalIntegrity.RecordSound(p.candidates, disposition) by {
      assert LinksForward(p.candidates, p.candidates[0].id, source)
             && LinksForward(p.candidates, p.candidates[1].id, source);
    }
  }

  /** Accepting everything about cameras applies all candidates in order. */
  lemma AllAccepted(p: Proposal)
    requires forall i :: 0 <= i < |p.candidates| ==> p.candidates[i].assertion.CameraIdentity?
    ensures Agenda(p, AcceptEverything(p)) == p.candidates
  {
    var r := AcceptEverything(p);
    forall i | 0 <= i < |p.candidates|
      ensures Chooser(r, false)(p.candidates[i]) && !Chooser(r, true)(p.candidates[i])
    {
      assert p.candidates[i] in p.candidates;
    }
    FilterAll(p.candidates, Chooser(r, false));
    FilterNone(p.candidates, Chooser(r, true));
  }

  lemma AllCovered(p: Proposal)
    ensures Elements(Map(p.candidates, IdOf)) == AcceptEverything(p).decisions.Keys
  {
    var ids := Map(p.candidates, IdOf);
    forall i | 0 <= i < |p.candidates|
      ensures ids[i] in AcceptEverything(p).decisions
    {
      assert p.candidates[i] in p.candidates;
    }
    forall id | id in AcceptEverything(p).decisions ensures id in ids {
      var c :| c in p.candidates && c.id == id;
      var i :| 0 <= i < |p.candidates| && p.candidates[i] == c;
      assert ids[i] == id;
    }
  }

  lemma NotUniform(c: Candidate, d: Candidate, x: string)
    requires c.assertion == CameraIdentity(Camera("", "", "")) && d.assertion == CameraIdentity(Camera(x, "", ""))
             && x != ""
    ensures !Uniform([c, d])
  {
    assert c in [c, d] && d in [c, d];
    assert Field(c.assertion.camera, 0) == "" && Field(d.assertion.camera, 0) != "";
  }

  lemma BlankThenNamed(lex: Lexicon, m: Manifest, c: Candidate, d: Candidate, x: string)
    requires m.camera == Camera("", "", "") && x != ""
    requires c.assertion == CameraIdentity(Camera("", "", "")) && d.assertion == CameraIdentity(Camera(x, "", ""))
    ensures ApplyAll(lex, m, [c, d]).Ok? && ApplyAll(lex, ApplyAll(lex, m, [c, d]).value, [c, d]).Err?
  {
    var step, cs := Applier(lex), [c, d];
    FoldTwo(step, m, c, d);
    var y := ApplyAll(lex, m, cs);
    NotUniform(c, d, x);
    if ApplyAll(lex, y.value, cs).Ok? { MixedFailsAgain(lex, m, cs); }
  }

  /**
   * An integral proposal with a blank identity before a named one is accepted on a
   * manifest without a camera, and then refused on its own result.
   */
  lemma MixedReviewFailsAgain(lex: Lexicon, base: Manifest, x: string, source: string)
    requires lex.codec.Faithful() && base.camera == Camera("", "", "") && x != ""
    requires StrLe(lex.codec.id(CameraIdentity(Camera("", "", ""))), lex.codec.id(CameraIdentity(Camera(x, "", ""))))
    ensures var p := TwoIdentities(lex.codec, Camera("", "", ""), Camera(x, "", ""), source);
      var once := ApplyReview(lex, ANY, base, p, AcceptEverything(p));
      once.Ok? && ApplyReview(lex, ANY, once.value, p, AcceptEverything(p)).Err?
  {
    var c, d := Camera("", "", ""), Camera(x, "", "");
    var p := TwoIdentities(lex.codec, c, d, source);
    TwoIdentitiesSound(lex.codec, c, d, source);
    AllAccepted(p);
    AllCovered(p);
    BlankThenNamed(lex, base, p.candidates[0], p.candidates[1], x);
    assert p.candidates == [p.candidates[0], p.candidates[1]];
    Applied(lex, base, p);
    Applied(lex, ApplyAll(lex, base, p.candidates).value, p);
  }

  lemma Applied(lex: Lexicon, m: Manifest, p: Proposal)
    requires Objection(lex, p, AcceptEverything(p)).None? && Agenda(p, AcceptEverything(p)) == p.candidates
    ensures var r := ApplyReview(lex, ANY, m, p, AcceptEverything(p));
      if ApplyAll(lex, m, p.candidates).Ok? then r == Ok(ApplyAll(lex, m, p.candidates).value) else r.Err?
  {}
}
