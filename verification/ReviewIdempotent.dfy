// Applying a review to its own result: it succeeds again and changes nothing
// exactly if the accepted camera identities leave the same fields blank.
module ReviewIdempotent {
  import opened Options
  import opened Observation
  import opened Ordering
  import opened Sorting
  import opened Bags
  import opened Folds
  import opened Proposal
  import opened ProposalIntegrity
  import opened Review
  import opened ReviewFacts
  import opened ReviewGrowth
  import opened ReviewSettled

  // ----- camera identity -----

  function Field(c: Camera, k: nat): string {
    if k == 0 then c.manufacturer else if k == 1 then c.model else c.firmware
  }

  predicate SameBlanks(a: Camera, b: Camera) {
    forall k :: 0 <= k < 3 ==> (Field(a, k) == "" <==> Field(b, k) == "")
  }

  /** The identities of the list leave the same fields blank. */
  ghost predicate Uniform(cs: seq<Candidate>) {
    forall c, d :: c in cs && d in cs && c.assertion.CameraIdentity? && d.assertion.CameraIdentity?
      ==> SameBlanks(c.assertion.camera, d.assertion.camera)
  }

  predicate Identified(m: Manifest, c: Candidate) { c.assertion.CameraIdentity? ==> m.camera == c.assertion.camera }

  lemma CameraOnlyByIdentity(lex: Lexicon, m: Manifest, c: Candidate)
    requires !c.assertion.CameraIdentity? && ApplyCandidate(lex, m, c).Ok?
    ensures ApplyCandidate(lex, m, c).value.camera == m.camera
  {
    match c.assertion {
      case OperationSupport(_, _, _, _) =>
      case OperationName(code, name) => assert ApplyOperationName(lex, m, code, name, c.provenance).Ok?;
      case PropertySupport(_, _, _, _, _, _, _, _, _) =>
      case PropertyName(code, name) => assert ApplyPropertyName(lex, m, code, name, c.provenance).Ok?;
      case PropertySourceNativeName(code, name) => assert ApplyNativeName(lex, m, code, name, c.provenance).Ok?;
      case PropertyValueRow(code, value, caption) => assert ApplyRow(lex, m, code, value, caption, c.provenance).Ok?;
      case PropertyValueProfile(code, profile) => assert ApplyProfile(lex, m, code, profile, c.provenance,
                                                                      c.observedScopes).Ok?;
    }
  }

  lemma IdentityFills(m: Manifest, camera: Camera)
    requires ApplyIdentity(m, camera).Ok?
    ensures ApplyIdentity(m, camera).value.camera == camera
    ensures SameBlanks(m.camera, camera) ==> m.camera == camera
    ensures forall k :: 0 <= k < 3 && Field(m.camera, k) != "" ==> Field(m.camera, k) == Field(camera, k)
  {
    assert SameBlanks(m.camera, camera) ==>
      (Field(m.camera, 0) == "" <==> Field(camera, 0) == "") && (Field(m.camera, 1) == "" <==> Field(camera, 1) == "")
      && (Field(m.camera, 2) == "" <==> Field(camera, 2) == "");
  }

  /** If the identities are uniform, the result carries each of them. */
  lemma AllIdentified(lex: Lexicon, m: Manifest, cs: seq<Candidate>, i: nat)
    requires ApplyAll(lex, m, cs).Ok? && Uniform(cs) && i < |cs|
    ensures Identified(ApplyAll(lex, m, cs).value, cs[i])
  {
    var step := Applier(lex);
    forall x: Manifest, c: Candidate | c in cs && step(x, c).Ok? ensures Identified(step(x, c).value, c) {
      if c.assertion.CameraIdentity? { IdentityFills(x, c.assertion.camera); }
    }
    forall x: Manifest, c: Candidate, d: Candidate | c in cs && d in cs && Identified(x, d) && step(x, c).Ok?
      ensures Identified(step(x, c).value, d)
    {
      if c.assertion.CameraIdentity? { IdentityFills(x, c.assertion.camera); } else { CameraOnlyByIdentity(lex, x, c); }
    }
    Persists(step, m, cs, Identified, i);
  }

  function Filled(k: nat): Manifest -> bool { (m: Manifest) => Field(m.camera, k) != "" }

  function FillsField(k: nat): (Manifest, Candidate) -> bool {
    (m: Manifest, c: Candidate) => c.assertion.CameraIdentity? && Field(c.assertion.camera, k) != "" ==> Filled(k)(m)
  }

  function NotBlank(k: nat): Candidate -> bool {
    (c: Candidate) => c.assertion.CameraIdentity? ==> Field(c.assertion.camera, k) != ""
  }

  lemma FilledStays(lex: Lexicon, x: Manifest, c: Candidate, k: nat)
    requires k < 3 && ApplyCandidate(lex, x, c).Ok? && Filled(k)(x)
    ensures Filled(k)(ApplyCandidate(lex, x, c).value) && NotBlank(k)(c)
  {
    if c.assertion.CameraIdentity? { IdentityFills(x, c.assertion.camera); } else { CameraOnlyByIdentity(lex, x, c); }
  }

  lemma FilledAfter(lex: Lexicon, m: Manifest, cs: seq<Candidate>, k: nat, j: nat)
    requires ApplyAll(lex, m, cs).Ok? && j < |cs| && k < 3
    requires cs[j].assertion.CameraIdentity? && Field(cs[j].assertion.camera, k) != ""
    ensures Filled(k)(ApplyAll(lex, m, cs).value)
  {
    var step := Applier(lex);
    forall x: Manifest, c: Candidate | c in cs && step(x, c).Ok? ensures FillsField(k)(step(x, c).value, c) {
      if c.assertion.CameraIdentity? {
        IdentityFills(x, c.assertion.camera);
        assert Filled(k)(step(x, c).value) == (Field(c.assertion.camera, k) != "");
      }
    }
    forall x: Manifest, c: Candidate, d: Candidate | c in cs && d in cs && FillsField(k)(x, d) && step(x, c).Ok?
      ensures FillsField(k)(step(x, c).value, d)
    {
      if Filled(k)(x) { FilledStays(lex, x, c, k); }
    }
    Persists(step, m, cs, FillsField(k), j);
  }

  /** Identities that differ in what they leave blank cannot be applied to their own result. */
  lemma MixedFailsAgain(lex: Lexicon, m: Manifest, cs: seq<Candidate>)
    requires ApplyAll(lex, m, cs).Ok? && ApplyAll(lex, ApplyAll(lex, m, cs).value, cs).Ok?
    ensures Uniform(cs)
  {
    forall c, d | c in cs && d in cs && c.assertion.CameraIdentity? && d.assertion.CameraIdentity?
      ensures SameBlanks(c.assertion.camera, d.assertion.camera)
    {
      var i :| 0 <= i < |cs| && cs[i] == c;
      var j :| 0 <= j < |cs| && cs[j] == d;
      forall k | 0 <= k < 3 ensures Field(c.assertion.camera, k) == "" <==> Field(d.assertion.camera, k) == "" {
        BlankTogether(lex, m, cs, k, i, j);
        BlankTogether(lex, m, cs, k, j, i);
      }
    }
  }

  lemma BlankTogether(lex: Lexicon, m: Manifest, cs: seq<Candidate>, k: nat, i: nat, j: nat)
    requires ApplyAll(lex, m, cs).Ok? && ApplyAll(lex, ApplyAll(lex, m, cs).value, cs).Ok? && k < 3 && i < |cs|
             && j < |cs|
    requires cs[i].assertion.CameraIdentity? && cs[j].assertion.CameraIdentity?
    ensures Field(cs[j].assertion.camera, k) != "" ==> Field(cs[i].assertion.camera, k) != ""
  {
    if Field(cs[j].assertion.camera, k) != "" {
      FilledAfter(lex, m, cs, k, j);
      var step, y := Applier(lex), ApplyAll(lex, m, cs).value;
      forall x: Manifest, c: Candidate | c in cs && Filled(k)(x) && step(x, c).Ok?
        ensures Filled(k)(step(x, c).value) && NotBlank(k)(c) {
        FilledStays(lex, x, c, k);
      }
      Demands(step, y, cs, Filled(k), NotBlank(k), i);
    }
  }

  // ----- the type a value row relies on -----

  predicate Fits(m: Manifest, c: Candidate) {
    c.assertion.PropertyValueRow? ==>
      c.assertion.code in m.properties && m.properties[c.assertion.code].facts.ptype == Some(c.assertion.value.ptype)
  }

  lemma SemanticKeepsTypes(lex: Lexicon, x: Manifest, c: Candidate, code: string)
    requires Semantic(c.assertion) && ApplyCandidate(lex, x, c).Ok?
    ensures FactsAt(ApplyCandidate(lex, x, c).value, code).ptype == FactsAt(x, code).ptype
  {
    FactsOfStep(lex, x, c, code);
    StepScalars(FactsAt(x, code), c, code);
  }

  lemma FitsFacts(m: Manifest, c: Candidate)
    ensures Fits(m, c) <==>
              (c.assertion.PropertyValueRow? ==> FactsAt(m, c.assertion.code).ptype == Some(c.assertion.value.ptype))
  {}

  lemma RowFits(lex: Lexicon, x: Manifest, c: Candidate)
    requires c.assertion.PropertyValueRow? && ApplyCandidate(lex, x, c).Ok?
    ensures FactsAt(x, c.assertion.code).ptype == Some(c.assertion.value.ptype)
  {
    assert ApplyRow(lex, x, c.assertion.code, c.assertion.value, c.assertion.caption, c.provenance).Ok?;
  }

  lemma AllFit(lex: Lexicon, m: Manifest, cs: seq<Candidate>, i: nat)
    requires ApplyAll(lex, m, cs).Ok? && (forall c :: c in cs ==> Semantic(c.assertion)) && i < |cs|
    ensures Fits(ApplyAll(lex, m, cs).value, cs[i])
  {
    var step := Applier(lex);
    forall x: Manifest, c: Candidate | c in cs && step(x, c).Ok? ensures Fits(step(x, c).value, c) {
      if c.assertion.PropertyValueRow? {
        RowFits(lex, x, c);
        SemanticKeepsTypes(lex, x, c, c.assertion.code);
        FitsFacts(step(x, c).value, c);
      }
    }
    forall x: Manifest, c: Candidate, d: Candidate | c in cs && d in cs && Fits(x, d) && step(x, c).Ok?
      ensures Fits(step(x, c).value, d) {
      if d.assertion.PropertyValueRow? {
        SemanticKeepsTypes(lex, x, c, d.assertion.code);
        FitsFacts(x, d);
        FitsFacts(step(x, c).value, d);
      }
    }
    Persists(step, m, cs, Fits, i);
  }

  // ----- the second time -----

  /** A settled structural candidate goes through again and changes at most facts. */
  lemma StructuralAgain(lex: Lexicon, x: Manifest, m: Manifest, c: Candidate)
    requires Same(x, m) && !Semantic(c.assertion) && Settled(lex, m, c) && Identified(m, c)
    ensures ApplyCandidate(lex, x, c).Ok? && Same(ApplyCandidate(lex, x, c).value, m)
  {
    var a := c.assertion;
    if a.OperationSupport? && a.supported {
      OperationSeenAgain(lex, x, a.code, a.scopes);
    } else if a.PropertySupport? && a.supported {
      PropertySeenAgain(lex, x, a);
      SameButOne(x, ApplyProperty(lex, x, a).value, m, a.code, WriteFacts(x.properties[a.code].facts, a));
    }
  }

  predicate SameTypes(x: Manifest, m: Manifest) {
    forall code :: code in m.properties ==>
      code in x.properties && x.properties[code].facts.ptype == m.properties[code].facts.ptype
  }

  lemma SettledToo(lex: Lexicon, x: Manifest, m: Manifest, c: Candidate)
    requires Same(x, m) && Settled(lex, m, c) && OnceListed(m, c)
    ensures Settled(lex, x, c) && OnceListed(x, c)
  {
    assert forall code :: LedgerAt(x, code) == LedgerAt(m, code);
    assert forall code :: OperationNameAt(x, code) == OperationNameAt(m, code);
  }

  lemma NameAgain(lex: Lexicon, x: Manifest, c: Candidate)
    requires lex.codec.Faithful() && Settled(lex, x, c)
    requires c.assertion.OperationName? || c.assertion.PropertyName? || c.assertion.PropertySourceNativeName?
    ensures ApplyCandidate(lex, x, c) == Ok(x)
  {
    match c.assertion {
      case OperationName(code, name) => OperationNamedAgain(lex, x, code, name, c.provenance);
      case PropertyName(code, name) => PropertyNamedAgain(lex, x, code, name, c.provenance);
      case PropertySourceNativeName(code, name) => NativelyNamedAgain(lex, x, code, name, c.provenance);
    }
  }

  lemma ValueAgain(lex: Lexicon, x: Manifest, m: Manifest, c: Candidate)
    requires lex.codec.Faithful() && Same(x, m) && SameTypes(x, m)
    requires Settled(lex, x, c) && OnceListed(x, c) && Fits(m, c)
    requires c.assertion.PropertyValueRow? || c.assertion.PropertyValueProfile?
    ensures ApplyCandidate(lex, x, c).Ok? && Same(ApplyCandidate(lex, x, c).value, m)
  {
    match c.assertion {
      case PropertyValueRow(code, value, caption) => RowListedAgain(lex, x, code, value, caption, c.provenance);
      case PropertyValueProfile(code, profile) =>
        ProfileAgain(lex, x, m, code, profile, c.provenance, c.observedScopes);
    }
  }

  /** So does a semantic one, once the types are back in place. */
  lemma SemanticAgain(lex: Lexicon, x: Manifest, m: Manifest, c: Candidate)
    requires lex.codec.Faithful() && Same(x, m) && SameTypes(x, m) && Semantic(c.assertion)
    requires Settled(lex, m, c) && OnceListed(m, c) && Fits(m, c)
    ensures ApplyCandidate(lex, x, c).Ok? && Same(ApplyCandidate(lex, x, c).value, m)
  {
    SettledToo(lex, x, m, c);
    if c.assertion.PropertyValueRow? || c.assertion.PropertyValueProfile? {
      ValueAgain(lex, x, m, c);
    } else {
      NameAgain(lex, x, c);
    }
  }

  lemma ProfileAgain(lex: Lexicon, x: Manifest, m: Manifest, code: string, profile: ValueProfile,
                     provenance: seq<Provenance>,
                     scopes: seq<Context>)
    requires lex.codec.Faithful() && Same(x, m)
             && Once(LedgerAt(x, code).profiles, ProfileKey, SourcedProfile(profile, provenance))
    requires ProfileListed(lex, x, code, profile, provenance, scopes)
    ensures var r := ApplyProfile(lex, x, code, profile, provenance, scopes); r.Ok? && Same(r.value, m)
  {
    ProfileListedAgain(lex, x, code, profile, provenance, scopes);
    var y := ApplyProfile(lex, x, code, profile, provenance, scopes).value;
    SameButOne(x, y, m, code, y.properties[code].facts);
  }

  lemma {:induction false} LastTypeStructural(s: seq<Candidate>, t: seq<Candidate>, code: string)
    requires forall c :: c in t ==> Semantic(c.assertion)
    ensures LastType(s + t, code) == LastType(s, code)
    decreases |t|
  {
    if t == [] {
      assert s + t == s;
    } else {
      var n := |t| - 1;
      assert (s + t)[..|s + t| - 1] == s + t[..n];
      assert t[n] in t && forall c :: c in t[..n] ==> c in t;
      LastTypeStructural(s, t[..n], code);
    }
  }

  /** Writing the structural facts again puts the types back where they were. */
  lemma TypesReturn(lex: Lexicon, base: Manifest, s: seq<Candidate>, t: seq<Candidate>, y: Manifest, x: Manifest,
                    code: string)
    requires ApplyAll(lex, base, s + t) == Ok(y) && ApplyAll(lex, y, s) == Ok(x)
    requires forall c :: c in t ==> Semantic(c.assertion)
    ensures FactsAt(x, code).ptype == FactsAt(y, code).ptype
  {
    FactsOfAll(lex, base, s + t, code);
    FactsOfAll(lex, y, s, code);
    TypeClosed(FactsAt(base, code), s + t, code);
    TypeClosed(FactsAt(y, code), s, code);
    LastTypeStructural(s, t, code);
  }

  lemma StructuralPass(lex: Lexicon, y: Manifest, s: seq<Candidate>)
    requires forall c :: c in s ==> !Semantic(c.assertion) && Settled(lex, y, c) && Identified(y, c)
    ensures ApplyAll(lex, y, s).Ok? && Same(ApplyAll(lex, y, s).value, y)
  {
    var step, same := Applier(lex), (x: Manifest) => Same(x, y);
    forall x: Manifest, c: Candidate | c in s && same(x) ensures step(x, c).Ok? && same(step(x, c).value) {
      StructuralAgain(lex, x, y, c);
    }
    Succeeds(step, y, s, same);
  }

  lemma SemanticPass(lex: Lexicon, x: Manifest, y: Manifest, t: seq<Candidate>)
    requires lex.codec.Faithful() && Same(x, y) && SameTypes(x, y)
    requires forall c :: c in t ==> Semantic(c.assertion) && Settled(lex, y, c) && OnceListed(y, c) && Fits(y, c)
    ensures ApplyAll(lex, x, t).Ok? && Same(ApplyAll(lex, x, t).value, y)
  {
    var step, same := Applier(lex), (z: Manifest) => Same(z, y) && SameTypes(z, y);
    forall z: Manifest, c: Candidate | c in t && same(z) ensures step(z, c).Ok? && same(step(z, c).value) {
      SemanticAgain(lex, z, y, c);
      SameTypesAfter(lex, z, y, c);
    }
    Succeeds(step, x, t, same);
  }

  lemma SameTypesAfter(lex: Lexicon, z: Manifest, y: Manifest, c: Candidate)
    requires Semantic(c.assertion) && ApplyCandidate(lex, z, c).Ok? && Same(ApplyCandidate(lex, z, c).value, y)
             && SameTypes(z, y)
    ensures SameTypes(ApplyCandidate(lex, z, c).value, y)
  {
    var w := ApplyCandidate(lex, z, c).value;
    forall code | code in y.properties
      ensures code in w.properties && w.properties[code].facts.ptype == y.properties[code].facts.ptype
    {
      SemanticKeepsTypes(lex, z, c, code);
    }
  }

  lemma SameFactsSame(x: Manifest, y: Manifest)
    requires Same(x, y) && forall code :: FactsAt(x, code) == FactsAt(y, code)
    ensures x == y
  {
    forall code | code in y.properties ensures x.properties[code] == y.properties[code] {
      assert FactsAt(x, code) == FactsAt(y, code);
    }
    assert x.properties == y.properties;
  }

  /** What the first pass established: everything is settled, identified and typed. */
  ghost predicate Finished(lex: Lexicon, y: Manifest, s: seq<Candidate>, t: seq<Candidate>) {
    && (forall c :: c in s ==> !Semantic(c.assertion) && Settled(lex, y, c) && Identified(y, c))
    && (forall c :: c in t ==> Semantic(c.assertion) && Settled(lex, y, c) && OnceListed(y, c) && Fits(y, c))
  }

  lemma FirstPass(lex: Lexicon, base: Manifest, s: seq<Candidate>, t: seq<Candidate>, y: Manifest)
    requires lex.codec.Faithful() && Normalized(lex, s + t) && Unrepeated(base, s + t) && Uniform(s + t)
    requires (forall c :: c in s ==> !Semantic(c.assertion)) && (forall c :: c in t ==> Semantic(c.assertion))
    requires ApplyAll(lex, base, s + t) == Ok(y)
    ensures Finished(lex, y, s, t)
  {
    forall c | c in s + t ensures Settled(lex, y, c) && Identified(y, c) && OnceListed(y, c) {
      var i :| 0 <= i < |s + t| && (s + t)[i] == c;
      AllSettled(lex, base, s + t, i);
      AllIdentified(lex, base, s + t, i);
      AllOnce(lex, base, s + t, c);
    }
    FoldPrefix(Applier(lex), base, s, t);
    FoldAppend(Applier(lex), base, s, t);
    forall c | c in t ensures Fits(y, c) {
      var i :| 0 <= i < |t| && t[i] == c;
      AllFit(lex, ApplyAll(lex, base, s).value, t, i);
    }
  }

  lemma SecondPass(lex: Lexicon, base: Manifest, s: seq<Candidate>, t: seq<Candidate>, y: Manifest)
    requires lex.codec.Faithful() && Finished(lex, y, s, t) && ApplyAll(lex, base, s + t) == Ok(y)
    ensures ApplyAll(lex, y, s + t) == Ok(y)
  {
    StructuralPass(lex, y, s);
    var x := ApplyAll(lex, y, s).value;
    forall code | code in y.properties ensures x.properties[code].facts.ptype == y.properties[code].facts.ptype {
      TypesReturn(lex, base, s, t, y, x, code);
    }
    SemanticPass(lex, x, y, t);
    FoldAppend(Applier(lex), y, s, t);
    var z := ApplyAll(lex, y, s + t).value;
    forall code ensures FactsAt(z, code) == FactsAt(y, code) {
      FactsOfAll(lex, base, s + t, code);
      FactsOfAll(lex, y, s + t, code);
      FactsIdempotent(FactsAt(base, code), s + t, code);
    }
    SameFactsSame(z, y);
  }

  /**
   * Applying a review to its own result succeeds and returns the same manifest
   * if and only if the accepted identities leave the same fields blank; the base
   * ledger must not list an accepted row or profile twice.
   */
  lemma ReviewIdempotentIff(lex: Lexicon, valid: Manifest -> bool, base: Manifest, p: Proposal, r: ProposalReview,
                            y: Manifest)
    requires lex.codec.Faithful() && Unrepeated(base, Agenda(p, r)) && ApplyReview(lex, valid, base, p, r) == Ok(y)
    ensures ApplyReview(lex, valid, y, p, r) == Ok(y) <==> Uniform(Agenda(p, r))
    ensures ApplyReview(lex, valid, y, p, r).Ok? <==> Uniform(Agenda(p, r))
  {
    var s, t := Filter(p.candidates, Chooser(r, false)), Filter(p.candidates, Chooser(r, true));
    AgendaParts(lex, p, r);
    if Uniform(s + t) {
      FirstPass(lex, base, s, t, y);
      SecondPass(lex, base, s, t, y);
    } else if ApplyAll(lex, y, s + t).Ok? {
      MixedFailsAgain(lex, base, s + t);
    }
  }

  lemma AgendaParts(lex: Lexicon, p: Proposal, r: ProposalReview)
    requires Integrity(lex.codec, p)
    ensures Normalized(lex, Agenda(p, r))
    ensures forall c :: c in Filter(p.candidates, Chooser(r, false)) ==> !Semantic(c.assertion)
    ensures forall c :: c in Filter(p.candidates, Chooser(r, true)) ==> Semantic(c.assertion)
  {
    FilterMembers(p.candidates, Chooser(r, false));
    FilterMembers(p.candidates, Chooser(r, true));
    forall c | c in Agenda(p, r) ensures Strict(c.provenance, lex.codec.ProvenanceLe()) {
      assert c in p.candidates;
      assert CandidateSound(lex.codec, p.dispositions, c);
    }
  }
}
