// When a review goes through: the exact condition on the base and on the accepted
// candidates, in the order they are applied.
module ReviewAccepts {
  import opened Options
  import opened Observation
  import opened Ordering
  import opened Sorting
  import opened Bags
  import opened Folds
  import opened Proposal
  import opened ProposalIntegrity
  import opened Review
  import opened ReviewFacts
  import opened ReviewIdempotent
  import opened ReviewOutcome
  import opened ReviewWritten

  // ----- the condition -----

  /** What is known once the candidates were applied. */
  ghost predicate Established(base: Manifest, cs: seq<Candidate>, f: Fact) {
    Holds(base, f) || SomeBrings(base, cs, f)
  }

  ghost predicate OperationThere(base: Manifest, cs: seq<Candidate>, code: string) {
    Established(base, cs, OfOperation(code, Known))
  }

  ghost predicate PropertyThere(base: Manifest, cs: seq<Candidate>, code: string) {
    Established(base, cs, OfProperty(code, Entry(Known)))
  }

  /** No field of the camera so far says otherwise. */
  ghost predicate CameraFits(base: Manifest, cs: seq<Candidate>, camera: Camera) {
    forall so: Camera, k :: LastDecides(cs, SaysCamera, CameraSaid, base.camera, so) && 0 <= k < 3 ==>
      Field(so, k) == "" || Field(so, k) == Field(camera, k)
  }

  ghost predicate OperationNameFits(lex: Lexicon, base: Manifest, cs: seq<Candidate>, code: string, name: string) {
    && OperationThere(base, cs, code)
    && (forall so :: LastDecides(cs, NamesOperation(code), NameSaid, OperationCalled(lex, base, code), so) ==>
          so == name || so == "raw_" + code || lex.operationName(code) == Some(so))
    && (forall other :: Established(base, cs, OfOperationLedger(code, Is(other))) ==> other == name)
  }

  ghost predicate PropertyNameFits(lex: Lexicon, base: Manifest, cs: seq<Candidate>, code: string, name: string) {
    && PropertyThere(base, cs, code)
    && (forall so :: LastDecides(cs, NamesProperty(code), NameSaid, PropertyCalled(lex, base, code), so) ==>
          so == name || so == "raw_" + code || lex.propertyName(code) == Some(so))
    && (forall other :: Established(base, cs, OfLedger(code, Canonical(Is(other)))) ==> other == name)
  }

  ghost predicate NativeNameFits(base: Manifest, cs: seq<Candidate>, code: string, name: string) {
    && PropertyThere(base, cs, code)
    && (forall other :: Established(base, cs, OfProperty(code, Native(other))) ==> other == name)
    && (forall other :: Established(base, cs, OfLedger(code, SourceNative(Is(other)))) ==> other == name)
  }

  /** The property has the type of the value, and no other caption is on record for it. */
  ghost predicate RowApplicable(base: Manifest, cs: seq<Candidate>, code: string, value: TypedValue, caption: string) {
    && PropertyThere(base, cs, code)
    && (forall so :: LastDecides(cs, SaysType(code), TypeSaid, FactsAt(base, code).ptype, so) ==>
          so == Some(value.ptype))
    && (value.raw.Some? ==> forall other :: Established(base, cs, OfProperty(code, Listed(value.raw.value, other))) ==>
                              other == caption)
    && (forall other :: Established(base, cs, OfLedger(code, RowOf(value, other))) ==> other == caption)
  }

  ghost predicate StorableText(d: Descriptor) { forall i :: 0 <= i < |d.values| ==> !d.values[i].JsonOther? }

  /** The candidate can be applied after `cs`. */
  ghost predicate Applicable(lex: Lexicon, base: Manifest, cs: seq<Candidate>, c: Candidate) {
    match c.assertion
    case CameraIdentity(camera) => CameraFits(base, cs, camera)
    case OperationSupport(_, _, _, _) => true
    case OperationName(code, name) => OperationNameFits(lex, base, cs, code, name)
    case PropertySupport(_, supported, _, _, _, descriptor, _, _, _) =>
      supported && descriptor.Some? ==> StorableText(descriptor.value)
    case PropertyName(code, name) => PropertyNameFits(lex, base, cs, code, name)
    case PropertySourceNativeName(code, name) => NativeNameFits(base, cs, code, name)
    case PropertyValueRow(code, value, caption) => RowApplicable(base, cs, code, value, caption)
    case PropertyValueProfile(code, _) => PropertyThere(base, cs, code)
  }

  // ----- what a value was decided to be -----

  lemma {:induction false} SomeLast(cs: seq<Candidate>, says: Candidate -> bool)
    ensures NoneOf(cs, says) || exists i :: LastOf(cs, says, i)
    decreases |cs|
  {
    if cs != [] {
      var n := |cs| - 1;
      if says(cs[n]) {
        assert LastOf(cs, says, n);
      } else {
        SomeLast(cs[..n], says);
        if i :| LastOf(cs[..n], says, i) {
          forall j | i < j < |cs| ensures !says(cs[j]) { if j < n { assert cs[..n][j] == cs[j]; } }
          assert LastOf(cs, says, i);
        } else {
          forall i | 0 <= i < |cs| ensures !says(cs[i]) { if i < n { assert cs[..n][i] == cs[i]; } }
        }
      }
    }
  }

  lemma DecidedOnce<T>(cs: seq<Candidate>, says: Candidate -> bool, value: Candidate -> T, before: T, x: T, y: T)
    requires LastDecides(cs, says, value, before, x) && LastDecides(cs, says, value, before, y)
    ensures x == y
  {
    SomeLast(cs, says);
    if i :| LastOf(cs, says, i) {
      assert x == value(cs[i]) && y == value(cs[i]);
    }
  }

  // ----- step by step -----

  lemma CameraStep(lex: Lexicon, base: Manifest, cs: seq<Candidate>, m: Manifest, camera: Camera)
    requires ApplyAll(lex, base, cs) == Ok(m)
    ensures CameraFits(base, cs, camera)
            <==> forall k :: 0 <= k < 3 ==> Field(m.camera, k) == "" || Field(m.camera, k) == Field(camera, k)
  {
    CameraDecided(lex, base, cs);
    forall so: Camera | LastDecides(cs, SaysCamera, CameraSaid, base.camera, so) ensures so == m.camera {
      DecidedOnce(cs, SaysCamera, CameraSaid, base.camera, so, m.camera);
    }
  }

  lemma IdentityOk(m: Manifest, camera: Camera)
    ensures ApplyIdentity(m, camera).Ok?
            <==> forall k :: 0 <= k < 3 ==> Field(m.camera, k) == "" || Field(m.camera, k) == Field(camera, k)
  {
    assert Field(m.camera, 0) == m.camera.manufacturer && Field(m.camera, 1) == m.camera.model
           && Field(m.camera, 2) == m.camera.firmware;
    assert Field(camera, 0) == camera.manufacturer && Field(camera, 1) == camera.model
           && Field(camera, 2) == camera.firmware;
  }

  lemma NameMerges(codec: Codec, target: Option<ProvenancedName>, name: string, provenance: seq<Provenance>)
    ensures MergeName(codec, target, name, provenance).Some?
       <==> forall other :: NameHolds(target, Is(other)) ==> other == name
  {
    if target.Some? { assert NameHolds(target, Is(target.value.name)); }
  }

  lemma OperationNameOk(lex: Lexicon, m: Manifest, code: string, name: string, provenance: seq<Provenance>)
    ensures ApplyOperationName(lex, m, code, name, provenance).Ok?
            <==> && code in m.operations && GivesWay(code, OperationCalled(lex, m, code), name, lex.operationName(code))
                 && forall other :: NameHolds(OperationNameAt(m, code), Is(other)) ==> other == name
  {
    NameMerges(lex.codec, OperationNameAt(m, code), name, provenance);
  }

  lemma PropertyNameOk(lex: Lexicon, m: Manifest, code: string, name: string, provenance: seq<Provenance>)
    ensures ApplyPropertyName(lex, m, code, name, provenance).Ok?
            <==> && code in m.properties && GivesWay(code, PropertyCalled(lex, m, code), name, lex.propertyName(code))
                 && forall other :: NameHolds(LedgerAt(m, code).canonicalName, Is(other)) ==> other == name
  {
    NameMerges(lex.codec, LedgerAt(m, code).canonicalName, name, provenance);
  }

  lemma NativeNameOk(lex: Lexicon, m: Manifest, code: string, name: string, provenance: seq<Provenance>)
    ensures ApplyNativeName(lex, m, code, name, provenance).Ok?
            <==> && code in m.properties
                 && (forall other :: m.properties[code].ptpName == Some(other) ==> other == name)
                 && forall other :: NameHolds(LedgerAt(m, code).sourceNativeName, Is(other)) ==> other == name
  {
    NameMerges(lex.codec, LedgerAt(m, code).sourceNativeName, name, provenance);
    if code in m.properties && m.properties[code].ptpName.Some? {
      assert m.properties[code].ptpName == Some(m.properties[code].ptpName.value);
    }
  }

  lemma RowClash(rows: seq<Row>, raw: int, caption: string)
    ensures !RowConflict(rows, raw, caption)
       <==> forall other :: Any(rows, RowTest(Listed(raw, other))) ==> other == caption
  {
    if RowConflict(rows, raw, caption) {
      var i :| 0 <= i < |rows| && rows[i].raw == raw && rows[i].caption != caption;
      assert RowTest(Listed(raw, rows[i].caption))(rows[i]);
      assert Any(rows, RowTest(Listed(raw, rows[i].caption)));
    }
  }

  lemma LedgerRowClash(rows: seq<LedgerRow>, value: TypedValue, caption: string)
    ensures !LedgerRowConflict(rows, value, caption)
            <==> forall other :: Any(rows, LedgerRowTest(RowOf(value, other))) ==> other == caption
  {
    if LedgerRowConflict(rows, value, caption) {
      var i :| 0 <= i < |rows| && rows[i].value == value && rows[i].caption != caption;
      assert LedgerRowTest(RowOf(value, rows[i].caption))(rows[i]);
      assert Any(rows, LedgerRowTest(RowOf(value, rows[i].caption)));
    }
  }

  lemma RowOk(lex: Lexicon, m: Manifest, code: string, value: TypedValue, caption: string, provenance: seq<Provenance>)
    ensures ApplyRow(lex, m, code, value, caption, provenance).Ok?
            <==> && code in m.properties && m.properties[code].facts.ptype == Some(value.ptype)
                 && (value.raw.Some? ==> !RowConflict(m.properties[code].rows, value.raw.value, caption))
                 && !LedgerRowConflict(LedgerAt(m, code).rows, value, caption)
  {}

  /** What the manifest holds is what was established. */
  ghost predicate Reached(base: Manifest, cs: seq<Candidate>, m: Manifest) {
    forall f: Fact :: Holds(m, f) <==> Established(base, cs, f)
  }

  lemma There(base: Manifest, cs: seq<Candidate>, m: Manifest, code: string)
    requires Reached(base, cs, m)
    ensures OperationThere(base, cs, code) <==> code in m.operations
    ensures PropertyThere(base, cs, code) <==> code in m.properties
  {
    assert Holds(m, OfOperation(code, Known)) <==> code in m.operations;
    assert Holds(m, OfProperty(code, Entry(Known))) <==> code in m.properties;
  }

  ghost predicate CalledSo(cs: seq<Candidate>, names: Candidate -> bool, before: string, code: string, name: string,
                           standard: Option<string>) {
    forall so :: LastDecides(cs, names, NameSaid, before, so) ==>
      so == name || so == "raw_" + code || standard == Some(so)
  }

  lemma CalledNow(cs: seq<Candidate>, names: Candidate -> bool, before: string, now: string, code: string,
                  name: string, standard: Option<string>)
    requires LastDecides(cs, names, NameSaid, before, now)
    ensures CalledSo(cs, names, before, code, name, standard) <==> GivesWay(code, now, name, standard)
  {
    forall so | LastDecides(cs, names, NameSaid, before, so) ensures so == now {
      DecidedOnce(cs, names, NameSaid, before, so, now);
    }
  }

  lemma OperationNameStep(lex: Lexicon, base: Manifest, cs: seq<Candidate>, m: Manifest, code: string, name: string,
                          provenance: seq<Provenance>)
    requires ApplyAll(lex, base, cs) == Ok(m) && Reached(base, cs, m)
    ensures ApplyOperationName(lex, m, code, name, provenance).Ok? <==> OperationNameFits(lex, base, cs, code, name)
  {
    There(base, cs, m, code);
    NamesDecided(lex, base, cs, code);
    OperationNameOk(lex, m, code, name, provenance);
    CalledNow(cs, NamesOperation(code), OperationCalled(lex, base, code), OperationCalled(lex, m, code), code, name,
              lex.operationName(code));
    forall other ensures NameHolds(OperationNameAt(m, code), Is(other))
                         <==> Established(base, cs, OfOperationLedger(code, Is(other))) {
      assert Holds(m, OfOperationLedger(code, Is(other))) <==> NameHolds(OperationNameAt(m, code), Is(other));
    }
  }

  lemma PropertyNameStep(lex: Lexicon, base: Manifest, cs: seq<Candidate>, m: Manifest, code: string, name: string,
                         provenance: seq<Provenance>)
    requires ApplyAll(lex, base, cs) == Ok(m) && Reached(base, cs, m)
    ensures ApplyPropertyName(lex, m, code, name, provenance).Ok? <==> PropertyNameFits(lex, base, cs, code, name)
  {
    There(base, cs, m, code);
    NamesDecided(lex, base, cs, code);
    PropertyNameOk(lex, m, code, name, provenance);
    CalledNow(cs, NamesProperty(code), PropertyCalled(lex, base, code), PropertyCalled(lex, m, code), code, name,
              lex.propertyName(code));
    forall other ensures NameHolds(LedgerAt(m, code).canonicalName, Is(other))
                         <==> Established(base, cs, OfLedger(code, Canonical(Is(other)))) {
      assert Holds(m, OfLedger(code, Canonical(Is(other))))
             <==> NameHolds(LedgerAt(m, code).canonicalName, Is(other));
    }
  }

  lemma NativeNameStep(lex: Lexicon, base: Manifest, cs: seq<Candidate>, m: Manifest, code: string, name: string,
                       provenance: seq<Provenance>)
    requires Reached(base, cs, m)
    ensures ApplyNativeName(lex, m, code, name, provenance).Ok? <==> NativeNameFits(base, cs, code, name)
  {
    There(base, cs, m, code);
    NativeNameOk(lex, m, code, name, provenance);
    forall other ensures NameHolds(LedgerAt(m, code).sourceNativeName, Is(other))
                         <==> Established(base, cs, OfLedger(code, SourceNative(Is(other)))) {
      assert Holds(m, OfLedger(code, SourceNative(Is(other))))
             <==> NameHolds(LedgerAt(m, code).sourceNativeName, Is(other));
    }
    if code in m.properties {
      forall other ensures m.properties[code].ptpName == Some(other)
                           <==> Established(base, cs, OfProperty(code, Native(other))) {
        assert Holds(m, OfProperty(code, Native(other))) <==> m.properties[code].ptpName == Some(other);
      }
    }
  }

  ghost predicate TypeSo(base: Manifest, cs: seq<Candidate>, code: string, t: string) {
    forall so :: LastDecides(cs, SaysType(code), TypeSaid, FactsAt(base, code).ptype, so) ==> so == Some(t)
  }

  lemma TypeNow(lex: Lexicon, base: Manifest, cs: seq<Candidate>, m: Manifest, code: string, t: string)
    requires ApplyAll(lex, base, cs) == Ok(m)
    ensures TypeSo(base, cs, code, t) <==> FactsAt(m, code).ptype == Some(t)
  {
    var was := FactsAt(base, code);
    FactsOfAll(lex, base, cs, code);
    ScalarsDecided(was, cs, code);
    forall so | LastDecides(cs, SaysType(code), TypeSaid, was.ptype, so) ensures so == FactsAt(m, code).ptype {
      DecidedOnce(cs, SaysType(code), TypeSaid, was.ptype, so, FactsAt(m, code).ptype);
    }
  }

  lemma CaptionsNow(base: Manifest, cs: seq<Candidate>, m: Manifest, code: string, raw: int, caption: string)
    requires Reached(base, cs, m) && code in m.properties
    ensures !RowConflict(m.properties[code].rows, raw, caption)
            <==> forall other :: Established(base, cs, OfProperty(code, Listed(raw, other))) ==> other == caption
  {
    var rows := m.properties[code].rows;
    RowClash(rows, raw, caption);
    forall other ensures Any(rows, RowTest(Listed(raw, other)))
                         <==> Established(base, cs, OfProperty(code, Listed(raw, other))) {
      assert Holds(m, OfProperty(code, Listed(raw, other))) <==> Any(rows, RowTest(Listed(raw, other)));
    }
  }

  lemma LedgerCaptionsNow(base: Manifest, cs: seq<Candidate>, m: Manifest, code: string, value: TypedValue,
                          caption: string)
    requires Reached(base, cs, m)
    ensures !LedgerRowConflict(LedgerAt(m, code).rows, value, caption)
            <==> forall other :: Established(base, cs, OfLedger(code, RowOf(value, other))) ==> other == caption
  {
    var l := LedgerAt(m, code);
    LedgerRowClash(l.rows, value, caption);
    forall other ensures Any(l.rows, LedgerRowTest(RowOf(value, other)))
                         <==> Established(base, cs, OfLedger(code, RowOf(value, other))) {
      NoProfiles(l.profiles, RowOf(value, other));
      assert Holds(m, OfLedger(code, RowOf(value, other))) <==> Any(l.rows, LedgerRowTest(RowOf(value, other)));
    }
  }

  lemma RowStep(lex: Lexicon, base: Manifest, cs: seq<Candidate>, m: Manifest, code: string, value: TypedValue,
                caption: string, provenance: seq<Provenance>)
    requires ApplyAll(lex, base, cs) == Ok(m) && Reached(base, cs, m)
    ensures ApplyRow(lex, m, code, value, caption, provenance).Ok? <==> RowApplicable(base, cs, code, value, caption)
  {
    There(base, cs, m, code);
    RowOk(lex, m, code, value, caption, provenance);
    TypeNow(lex, base, cs, m, code, value.ptype);
    LedgerCaptionsNow(base, cs, m, code, value, caption);
    if code in m.properties && value.raw.Some? { CaptionsNow(base, cs, m, code, value.raw.value, caption); }
  }

  lemma CandidateStep(lex: Lexicon, base: Manifest, cs: seq<Candidate>, m: Manifest, c: Candidate)
    requires ApplyAll(lex, base, cs) == Ok(m) && Reached(base, cs, m)
    ensures ApplyCandidate(lex, m, c).Ok? <==> Applicable(lex, base, cs, c)
  {
    match c.assertion {
      case CameraIdentity(camera) =>
        CameraStep(lex, base, cs, m, camera);
        IdentityOk(m, camera);
      case OperationSupport(_, _, _, _) =>
      case OperationName(code, name) => OperationNameStep(lex, base, cs, m, code, name, c.provenance);
      case PropertySupport(_, _, _, _, _, _, _, _, _) =>
      case PropertyName(code, name) => PropertyNameStep(lex, base, cs, m, code, name, c.provenance);
      case PropertySourceNativeName(code, name) => NativeNameStep(lex, base, cs, m, code, name, c.provenance);
      case PropertyValueRow(code, value, caption) => RowStep(lex, base, cs, m, code, value, caption, c.provenance);
      case PropertyValueProfile(code, profile) => There(base, cs, m, code);
    }
  }

  // ----- all of them -----

  ghost predicate AllApplicable(lex: Lexicon, base: Manifest, cs: seq<Candidate>) {
    forall i :: 0 <= i < |cs| ==> Applicable(lex, base, cs[..i], cs[i])
  }

  /** The candidates can all be applied if and only if each fits what is established before it. */
  lemma {:induction false} AppliedIff(lex: Lexicon, base: Manifest, cs: seq<Candidate>)
    requires lex.codec.Faithful()
    ensures ApplyAll(lex, base, cs).Ok? <==> AllApplicable(lex, base, cs)
    decreases |cs|
  {
    if cs != [] {
      var n := |cs| - 1;
      AppliedIff(lex, base, cs[..n]);
      AllApplicableLast(lex, base, cs);
      if ApplyAll(lex, base, cs[..n]).Ok? {
        var m := ApplyAll(lex, base, cs[..n]).value;
        AllAdd(lex, base, cs[..n], m);
        CandidateStep(lex, base, cs[..n], m, cs[n]);
      }
    }
  }

  lemma EachLast<T>(cs: seq<T>, fits: (seq<T>, T) -> bool)
    requires cs != []
    ensures var n := |cs| - 1;
      (forall i :: 0 <= i < |cs| ==> fits(cs[..i], cs[i]))
      <==> (forall i :: 0 <= i < n ==> fits(cs[..n][..i], cs[..n][i])) && fits(cs[..n], cs[n])
  {
    var n := |cs| - 1;
    forall i | 0 <= i < n ensures cs[..n][..i] == cs[..i] && cs[..n][i] == cs[i] {}
    if forall i :: 0 <= i < n ==> fits(cs[..n][..i], cs[..n][i]) {
      forall i | 0 <= i < n ensures fits(cs[..i], cs[i]) { assert fits(cs[..n][..i], cs[..n][i]); }
    }
  }

  lemma AllApplicableLast(lex: Lexicon, base: Manifest, cs: seq<Candidate>)
    requires cs != []
    ensures var n := |cs| - 1;
      AllApplicable(lex, base, cs) <==> AllApplicable(lex, base, cs[..n]) && Applicable(lex, base, cs[..n], cs[n])
  {
    EachLast(cs, (before: seq<Candidate>, c: Candidate) => Applicable(lex, base, before, c));
  }

  /**
   * The accepted candidates and no others, first what is observed and then what is
   * said about it, each in the order of the ids.
   */
  lemma AgendaIs(codec: Codec, p: Proposal, r: ProposalReview) returns (k: nat)
    requires Integrity(codec, p)
    ensures forall c :: c in Agenda(p, r) <==> c in p.candidates && c.id in r.decisions && r.decisions[c.id] == Accept
    ensures k <= |Agenda(p, r)| && InStrictOrder(Agenda(p, r)[..k]) && InStrictOrder(Agenda(p, r)[k..])
    ensures forall i :: 0 <= i < |Agenda(p, r)| ==> (Semantic(Agenda(p, r)[i].assertion) <==> k <= i)
  {
    var first, second := Filter(p.candidates, Chooser(r, false)), Filter(p.candidates, Chooser(r, true));
    FilterMembers(p.candidates, Chooser(r, false));
    FilterMembers(p.candidates, Chooser(r, true));
    StrictIds(p.candidates);
    FilterInOrder(p.candidates, Chooser(r, false));
    FilterInOrder(p.candidates, Chooser(r, true));
    k := |first|;
    assert Agenda(p, r)[..k] == first && Agenda(p, r)[k..] == second;
    forall i | 0 <= i < |Agenda(p, r)| ensures Semantic(Agenda(p, r)[i].assertion) <==> k <= i {
      if i < k { assert first[i] in first; } else { assert second[i - k] in second; }
    }
  }

  ghost predicate Covers(p: Proposal, r: ProposalReview) {
    forall id :: id in r.decisions <==> exists c :: c in p.candidates && c.id == id
  }

  lemma CoversIff(p: Proposal, r: ProposalReview)
    ensures Covers(p, r) <==> Elements(Map(p.candidates, IdOf)) == r.decisions.Keys
  {
    var ids := Map(p.candidates, IdOf);
    forall id ensures id in ids <==> exists c :: c in p.candidates && c.id == id {
      if id in ids {
        var i :| 0 <= i < |ids| && ids[i] == id;
        assert p.candidates[i] in p.candidates;
      }
      if c :| c in p.candidates && c.id == id {
        var i :| 0 <= i < |p.candidates| && p.candidates[i] == c;
        assert ids[i] == id;
      }
    }
  }

  /** The first thing wrong with a review, short of the checks on its result. */
  ghost function Wrong(lex: Lexicon, base: Manifest, p: Proposal, r: ProposalReview): Option<ReviewError> {
    if !Integrity(lex.codec, p) then Some(BrokenProposal)
    else if r.schema != REVIEW_SCHEMA then Some(UnknownSchema)
    else if r.proposalDigest != p.digest then Some(WrongDigest)
    else if !Covers(p, r) then Some(WrongCoverage)
    else if !AllApplicable(lex, base, Agenda(p, r)) then Some(ApplyConflict)
    else None
  }

  /**
   * A review goes through if and only if the proposal is sound, the review is for it and
   * decides every candidate, the accepted ones fit, and the result is valid. Otherwise the
   * first thing wrong, in this order, is reported.
   */
  lemma ReviewAcceptedIff(lex: Lexicon, valid: Manifest -> bool, base: Manifest, p: Proposal, r: ProposalReview)
    requires lex.codec.Faithful()
    ensures Wrong(lex, base, p, r).Some? ==> ApplyReview(lex, valid, base, p, r) == Err(Wrong(lex, base, p, r).value)
    ensures Wrong(lex, base, p, r).None? ==>
      && ApplyAll(lex, base, Agenda(p, r)).Ok?
      && var y := ApplyAll(lex, base, Agenda(p, r)).value;
         ApplyReview(lex, valid, base, p, r) == if valid(y) then Ok(y) else Err(ApplyConflict)
  {
    AppliedIff(lex, base, Agenda(p, r));
    CoversIff(p, r);
  }
}
