// What a review overwrites: the last accepted candidate that says something
// decides it, and what new entries start with.
module ReviewWritten {
  import opened Options
  import opened Observation
  import opened Ordering
  import opened Sorting
  import opened Bags
  import opened Folds
  import opened Proposal
  import opened ProposalIntegrity
  import opened Review
  import opened ReviewFacts
  import opened ReviewFrame
  import opened ReviewOutcome
  import opened ReviewIdempotent

  // ----- the last one to say something -----

  ghost predicate LastOf(cs: seq<Candidate>, says: Candidate -> bool, i: int) {
    0 <= i < |cs| && says(cs[i]) && forall j :: i < j < |cs| ==> !says(cs[j])
  }

  ghost predicate NoneOf(cs: seq<Candidate>, says: Candidate -> bool) { forall i :: 0 <= i < |cs| ==> !says(cs[i]) }

  /** `now` is what the last one to say something says, or what was there before. */
  ghost predicate LastDecides<T>(cs: seq<Candidate>, says: Candidate -> bool, value: Candidate -> T, before: T,
                                 now: T) {
    && (forall i :: LastOf(cs, says, i) ==> now == value(cs[i]))
    && (NoneOf(cs, says) ==> now == before)
  }

  lemma OneMoreDecides<T>(cs: seq<Candidate>, says: Candidate -> bool, value: Candidate -> T, before: T, prior: T,
                          now: T)
    requires cs != [] && LastDecides(cs[..|cs| - 1], says, value, before, prior)
    requires var c := cs[|cs| - 1]; now == if says(c) then value(c) else prior
    ensures LastDecides(cs, says, value, before, now)
  {
    var n := |cs| - 1;
    forall i | LastOf(cs, says, i) ensures now == value(cs[i]) {
      if i < n {
        assert !says(cs[n]);
        forall j | i < j < n ensures !says(cs[..n][j]) { assert cs[..n][j] == cs[j]; }
        assert LastOf(cs[..n], says, i);
      }
    }
    if NoneOf(cs, says) {
      forall i | 0 <= i < n ensures !says(cs[..n][i]) { assert cs[..n][i] == cs[i]; }
      assert !says(cs[n]);
    }
  }

  // ----- the facts of a property -----

  function SaysType(code: string): Candidate -> bool {
    (c: Candidate) => Writes(c, code) && c.assertion.propertyType.Some?
  }

  function TypeSaid(c: Candidate): Option<string> {
    if c.assertion.PropertySupport? then c.assertion.propertyType else None
  }

  function SaysAccess(code: string): Candidate -> bool {
    (c: Candidate) =>
      Writes(c, code) && (c.assertion.access == Some("readOnly") || c.assertion.access == Some("readWrite"))
  }

  /** Of the two texts that count. */
  function AccessSaid(c: Candidate): Option<Access> {
    Some(if c.assertion.PropertySupport? && c.assertion.access == Some("readOnly") then ReadOnly else ReadWrite)
  }

  function SaysDescriptor(code: string): Candidate -> bool {
    (c: Candidate) => Writes(c, code) && c.assertion.descriptor.Some?
  }

  /** The descriptor as the manifest keeps it. */
  predicate KeptDescriptor(d: Descriptor, kept: ModelDescriptor) {
    && kept.form == d.form && kept.source == Some(CameraSource) && |kept.values| == |d.values|
    && forall i :: 0 <= i < |d.values| ==>
         match d.values[i]
         case JsonInt(n) => kept.values[i] == IntValue(n)
         case JsonStr(s) => kept.values[i] == StrValue(s)
         case JsonOther(_) => false
  }

  function SaysCaption(code: string, raw: string): Candidate -> bool {
    (c: Candidate) => Writes(c, code) && raw in c.assertion.labels
  }

  function CaptionSaid(raw: string): Candidate -> Option<string> {
    (c: Candidate) => if c.assertion.PropertySupport? then CaptionAt(c.assertion.labels, raw) else None
  }

  function CaptionAt(labels: map<string, string>, raw: string): Option<string> {
    if raw in labels then Some(labels[raw]) else None
  }

  lemma {:induction false} ScalarsDecided(f: Facts, cs: seq<Candidate>, code: string)
    ensures LastDecides(cs, SaysType(code), TypeSaid, f.ptype, FactFold(f, cs, code).ptype)
    ensures LastDecides(cs, SaysAccess(code), AccessSaid, f.access, FactFold(f, cs, code).access)
    decreases |cs|
  {
    if cs != [] {
      var n := |cs| - 1;
      var prior, now := FactFold(f, cs[..n], code), FactFold(f, cs, code);
      ScalarsDecided(f, cs[..n], code);
      StepScalars(prior, cs[n], code);
      OneMoreDecides(cs, SaysType(code), TypeSaid, f.ptype, prior.ptype, now.ptype);
      OneMoreDecides(cs, SaysAccess(code), AccessSaid, f.access, prior.access, now.access);
    }
  }

  lemma {:induction false} CaptionDecided(f: Facts, cs: seq<Candidate>, code: string, raw: string)
    ensures LastDecides(cs, SaysCaption(code, raw), CaptionSaid(raw), CaptionAt(f.labels, raw),
                        CaptionAt(FactFold(f, cs, code).labels, raw))
    decreases |cs|
  {
    if cs != [] {
      var n := |cs| - 1;
      var prior, now := FactFold(f, cs[..n], code), FactFold(f, cs, code);
      CaptionDecided(f, cs[..n], code, raw);
      StepScalars(prior, cs[n], code);
      OneMoreDecides(cs, SaysCaption(code, raw), CaptionSaid(raw), CaptionAt(f.labels, raw),
                     CaptionAt(prior.labels, raw), CaptionAt(now.labels, raw));
    }
  }

  function DescriptorSaid(c: Candidate): Option<ModelDescriptor> {
    if c.assertion.PropertySupport? then StoredDescriptor(c.assertion.descriptor) else None
  }

  lemma {:induction false} DescriptorDecided(f: Facts, cs: seq<Candidate>, code: string)
    ensures LastDecides(cs, SaysDescriptor(code), DescriptorSaid, f.descriptor, FactFold(f, cs, code).descriptor)
    decreases |cs|
  {
    if cs != [] {
      var n := |cs| - 1;
      var prior, now := FactFold(f, cs[..n], code), FactFold(f, cs, code);
      DescriptorDecided(f, cs[..n], code);
      StepScalars(prior, cs[n], code);
      OneMoreDecides(cs, SaysDescriptor(code), DescriptorSaid, f.descriptor, prior.descriptor, now.descriptor);
    }
  }

  lemma StoredKept(d: Descriptor)
    requires StorableDescriptor(Some(d))
    ensures StoredDescriptor(Some(d)).Some? && KeptDescriptor(d, StoredDescriptor(Some(d)).value)
  {}

  /** A candidate that gives a profile for the connection and mode of `q`. */
  function SaysProfile(code: string, q: ValueProfile): Candidate -> bool {
    (c: Candidate) => (Writes(c, code) && exists i :: 0 <= i < |c.assertion.valueProfiles|
                                                     && SameSlot(c.assertion.valueProfiles[i], q))
                      || (Profiles(c, code) && SameSlot(c.assertion.profile, q))
  }

  /** What it gives: the last of its list for the slot, or its one profile on its own evidence. */
  ghost predicate GivesProfile(c: Candidate, q: ValueProfile, x: ValueProfile) {
    match c.assertion
    case PropertySupport(_, _, _, _, _, _, _, profiles, _) =>
      exists i :: 0 <= i < |profiles| && x == profiles[i] && SameSlot(x, q)
                  && forall j :: i < j < |profiles| ==> !SameSlot(profiles[j], q)
    case PropertyValueProfile(_, profile) => KeptProfile(profile, c.provenance, x)
    case _ => false
  }

  /** What the slot of `q` holds at the end. */
  ghost predicate SlotDecided(cs: seq<Candidate>, code: string, q: ValueProfile, before: seq<ValueProfile>,
                              now: seq<ValueProfile>) {
    && (forall i :: LastOf(cs, SaysProfile(code, q), i) ==> exists x :: now == [x] && GivesProfile(cs[i], q, x))
    && (NoneOf(cs, SaysProfile(code, q)) ==> now == before)
  }

  lemma {:induction false} LastForSlot(ps: seq<ValueProfile>, q: ValueProfile)
    ensures LastFor(ps, q).Some? <==> exists i :: 0 <= i < |ps| && SameSlot(ps[i], q)
    ensures LastFor(ps, q).Some? ==>
      exists i :: 0 <= i < |ps| && LastFor(ps, q).value == ps[i] && SameSlot(ps[i], q)
                  && forall j :: i < j < |ps| ==> !SameSlot(ps[j], q)
    decreases |ps|
  {
    if ps != [] {
      var n := |ps| - 1;
      LastForSlot(ps[..n], q);
      if SameSlot(ps[n], q) {
        assert LastFor(ps, q).value == ps[n];
      } else {
        if LastFor(ps[..n], q).Some? {
          var i :| 0 <= i < n && LastFor(ps[..n], q).value == ps[..n][i] && SameSlot(ps[..n][i], q)
                   && forall j :: i < j < n ==> !SameSlot(ps[..n][j], q);
          assert ps[i] == ps[..n][i];
          forall j | i < j < |ps| ensures !SameSlot(ps[j], q) { if j < n { assert ps[j] == ps[..n][j]; } }
        }
        if i :| 0 <= i < |ps| && SameSlot(ps[i], q) { assert ps[..n][i] == ps[i]; }
      }
    }
  }

  lemma WrittenSlot(f: Facts, c: Candidate, code: string, q: ValueProfile)
    requires Writes(c, code)
    ensures var now := Filter(FactStep(f, c, code).profiles, InSlot(q));
      if SaysProfile(code, q)(c) then exists x :: now == [x] && GivesProfile(c, q, x)
      else now == Filter(f.profiles, InSlot(q))
  {
    var ps := c.assertion.valueProfiles;
    PutAllSlot(f.profiles, ps, q);
    SortSlot(PutProfiles(f.profiles, ps), q);
    LastForSlot(ps, q);
    if LastFor(ps, q).Some? { assert GivesProfile(c, q, LastFor(ps, q).value); }
  }

  lemma KeptSlot(f: Facts, c: Candidate, code: string, q: ValueProfile)
    requires Profiles(c, code)
    ensures var now := Filter(FactStep(f, c, code).profiles, InSlot(q));
      if SaysProfile(code, q)(c) then exists x :: now == [x] && GivesProfile(c, q, x)
      else now == Filter(f.profiles, InSlot(q))
  {
    var kept := SourcedProfile(c.assertion.profile, c.provenance);
    PutSlot(f.profiles, kept, q);
    SortSlot(PutProfile(f.profiles, kept), q);
    SourcedIs(c.assertion.profile, c.provenance, kept);
    assert GivesProfile(c, q, kept);
  }

  lemma SlotStep(f: Facts, c: Candidate, code: string, q: ValueProfile)
    ensures var now := Filter(FactStep(f, c, code).profiles, InSlot(q));
      if SaysProfile(code, q)(c) then exists x :: now == [x] && GivesProfile(c, q, x)
      else now == Filter(f.profiles, InSlot(q))
  {
    if Writes(c, code) {
      WrittenSlot(f, c, code, q);
    } else if Profiles(c, code) {
      KeptSlot(f, c, code, q);
    }
  }

  lemma {:induction false} ProfilesDecided(f: Facts, cs: seq<Candidate>, code: string, q: ValueProfile)
    ensures SlotDecided(cs, code, q, Filter(f.profiles, InSlot(q)), Filter(FactFold(f, cs, code).profiles, InSlot(q)))
    decreases |cs|
  {
    if cs != [] {
      var n := |cs| - 1;
      ProfilesDecided(f, cs[..n], code, q);
      var prior := FactFold(f, cs[..n], code);
      SlotStep(prior, cs[n], code, q);
      OneMoreSlot(cs, code, q, Filter(f.profiles, InSlot(q)), Filter(prior.profiles, InSlot(q)),
                  Filter(FactFold(f, cs, code).profiles, InSlot(q)));
    }
  }

  lemma OneMoreSlot(cs: seq<Candidate>, code: string, q: ValueProfile, before: seq<ValueProfile>,
                    prior: seq<ValueProfile>, now: seq<ValueProfile>)
    requires cs != [] && SlotDecided(cs[..|cs| - 1], code, q, before, prior)
    requires var c := cs[|cs| - 1];
      if SaysProfile(code, q)(c) then exists x :: now == [x] && GivesProfile(c, q, x) else now == prior
    ensures SlotDecided(cs, code, q, before, now)
  {
    var n := |cs| - 1;
    var says := SaysProfile(code, q);
    forall i | LastOf(cs, says, i) ensures exists x :: now == [x] && GivesProfile(cs[i], q, x) {
      if i < n {
        assert !says(cs[n]);
        forall j | i < j < n ensures !says(cs[..n][j]) { assert cs[..n][j] == cs[j]; }
        assert LastOf(cs[..n], says, i);
        assert cs[..n][i] == cs[i];
      }
    }
    if NoneOf(cs, says) {
      forall i | 0 <= i < n ensures !says(cs[..n][i]) { assert cs[..n][i] == cs[i]; }
      assert !says(cs[n]);
    }
  }

  // ----- a whole review -----

  lemma StepTaken(lex: Lexicon, base: Manifest, cs: seq<Candidate>, i: nat)
    requires ApplyAll(lex, base, cs).Ok? && i < |cs|
    ensures ApplyAll(lex, base, cs[..i]).Ok? && ApplyCandidate(lex, ApplyAll(lex, base, cs[..i]).value, cs[i]).Ok?
  {
    assert cs == cs[..i + 1] + cs[i + 1..];
    FoldPrefix(Applier(lex), base, cs[..i + 1], cs[i + 1..]);
    assert cs[..i + 1][..i] == cs[..i];
  }

  lemma WrittenStorable(lex: Lexicon, m: Manifest, c: Candidate, code: string)
    requires Writes(c, code) && ApplyCandidate(lex, m, c).Ok?
    ensures StorableDescriptor(c.assertion.descriptor)
  {
    assert ApplyCandidate(lex, m, c) == ApplyProperty(lex, m, c.assertion);
  }

  lemma StorableGiven(lex: Lexicon, base: Manifest, cs: seq<Candidate>, i: nat, code: string)
    requires ApplyAll(lex, base, cs).Ok? && i < |cs| && Writes(cs[i], code)
    ensures StorableDescriptor(cs[i].assertion.descriptor)
  {
    StepTaken(lex, base, cs, i);
    WrittenStorable(lex, ApplyAll(lex, base, cs[..i]).value, cs[i], code);
  }

  /** The facts of a property after a review, each decided by the last accepted candidate that gives it. */
  lemma FactsReviewed(lex: Lexicon, valid: Manifest -> bool, base: Manifest, p: Proposal, r: ProposalReview,
                      y: Manifest, code: string)
    requires ApplyReview(lex, valid, base, p, r) == Ok(y)
    ensures var cs, was, now := Agenda(p, r), FactsAt(base, code), FactsAt(y, code);
      && LastDecides(cs, SaysType(code), TypeSaid, was.ptype, now.ptype)
      && LastDecides(cs, SaysAccess(code), AccessSaid, was.access, now.access)
      && (forall i :: LastOf(cs, SaysDescriptor(code), i) ==>
            now.descriptor.Some? && KeptDescriptor(cs[i].assertion.descriptor.value, now.descriptor.value))
      && (NoneOf(cs, SaysDescriptor(code)) ==> now.descriptor == was.descriptor)
      && (forall raw :: LastDecides(cs, SaysCaption(code, raw), CaptionSaid(raw), CaptionAt(was.labels, raw),
                                    CaptionAt(now.labels, raw)))
      && (forall q :: SlotDecided(cs, code, q, Filter(was.profiles, InSlot(q)), Filter(now.profiles, InSlot(q))))
      && (Touched(cs, code) ==> Sorted(now.profiles, SlotLe))
  {
    var cs, was := Agenda(p, r), FactsAt(base, code);
    FactsOfAll(lex, base, cs, code);
    ScalarsDecided(was, cs, code);
    DescriptorDecided(was, cs, code);
    forall i | LastOf(cs, SaysDescriptor(code), i)
      ensures StoredDescriptor(cs[i].assertion.descriptor).Some?
              && KeptDescriptor(cs[i].assertion.descriptor.value, StoredDescriptor(cs[i].assertion.descriptor).value)
    {
      StorableGiven(lex, base, cs, i, code);
      StoredKept(cs[i].assertion.descriptor.value);
    }
    forall raw ensures LastDecides(cs, SaysCaption(code, raw), CaptionSaid(raw), CaptionAt(was.labels, raw),
                                   CaptionAt(FactFold(was, cs, code).labels, raw)) {
      CaptionDecided(was, cs, code, raw);
    }
    forall q ensures SlotDecided(cs, code, q, Filter(was.profiles, InSlot(q)),
                                 Filter(FactFold(was, cs, code).profiles, InSlot(q))) {
      ProfilesDecided(was, cs, code, q);
    }
    ProfilesSorted(was, cs, code);
  }

  // ----- the camera -----

  predicate SaysCamera(c: Candidate) { c.assertion.CameraIdentity? }

  function CameraSaid(c: Candidate): Camera {
    if c.assertion.CameraIdentity? then c.assertion.camera else Camera("", "", "")
  }

  lemma {:induction false} CameraDecided(lex: Lexicon, base: Manifest, cs: seq<Candidate>)
    requires ApplyAll(lex, base, cs).Ok?
    ensures LastDecides(cs, SaysCamera, CameraSaid, base.camera, ApplyAll(lex, base, cs).value.camera)
    decreases |cs|
  {
    if cs != [] {
      var n := |cs| - 1;
      var prior := ApplyAll(lex, base, cs[..n]).value;
      CameraDecided(lex, base, cs[..n]);
      if SaysCamera(cs[n]) { IdentityFills(prior, cs[n].assertion.camera); }
      else { CameraOnlyByIdentity(lex, prior, cs[n]); }
      OneMoreDecides(cs, SaysCamera, CameraSaid, base.camera, prior.camera, ApplyAll(lex, base, cs).value.camera);
    }
  }

  // ----- names -----

  function NamesOperation(code: string): Candidate -> bool {
    (c: Candidate) => c.assertion.OperationName? && c.assertion.code == code
  }

  function NamesProperty(code: string): Candidate -> bool {
    (c: Candidate) => c.assertion.PropertyName? && c.assertion.code == code
  }

  function NameSaid(c: Candidate): string {
    if c.assertion.OperationName? || c.assertion.PropertyName? then c.assertion.name else ""
  }

  /** The name an entry has or would start with: the standard one, or a placeholder. */
  function StartName(code: string, standard: Option<string>): string {
    match standard case Some(name) => name case None => "raw_" + code
  }

  function OperationCalled(lex: Lexicon, m: Manifest, code: string): string {
    if code in m.operations then m.operations[code].name else StartName(code, lex.operationName(code))
  }

  function PropertyCalled(lex: Lexicon, m: Manifest, code: string): string {
    if code in m.properties then m.properties[code].name else StartName(code, lex.propertyName(code))
  }

  lemma OperationSupportCalled(lex: Lexicon, m: Manifest, k: string, scopes: seq<Context>, code: string)
    ensures OperationCalled(lex, ApplyOperation(lex, m, k, scopes), code) == OperationCalled(lex, m, code)
  {}

  lemma OperationNameCalled(lex: Lexicon, m: Manifest, k: string, name: string, provenance: seq<Provenance>,
                            code: string)
    requires ApplyOperationName(lex, m, k, name, provenance).Ok?
    ensures OperationCalled(lex, ApplyOperationName(lex, m, k, name, provenance).value, code)
            == if k == code then name else OperationCalled(lex, m, code)
  {}

  lemma OperationNameStepped(lex: Lexicon, m: Manifest, c: Candidate, code: string)
    requires ApplyCandidate(lex, m, c).Ok?
    ensures OperationCalled(lex, ApplyCandidate(lex, m, c).value, code)
            == if NamesOperation(code)(c) then NameSaid(c) else OperationCalled(lex, m, code)
  {
    var a := c.assertion;
    if !AboutOperations(c) { OperationsUntouched(lex, m, c); }
    else if a.OperationName? { OperationNameCalled(lex, m, a.code, a.name, c.provenance, code); }
    else if a.supported { OperationSupportCalled(lex, m, a.code, a.scopes, code); }
  }

  /** One entry changes, and keeps its name. */
  lemma EntryCalled(lex: Lexicon, m: Manifest, n: Manifest, k: string, g: PropertyEntry, code: string)
    requires n.properties == m.properties[k := g] && g.name == PropertyCalled(lex, m, k)
    ensures PropertyCalled(lex, n, code) == PropertyCalled(lex, m, code)
  {}

  lemma PropertySupportCalled(lex: Lexicon, m: Manifest, a: Assertion, code: string)
    requires a.PropertySupport? && ApplyProperty(lex, m, a).Ok?
    ensures PropertyCalled(lex, ApplyProperty(lex, m, a).value, code) == PropertyCalled(lex, m, code)
  {
    var n := ApplyProperty(lex, m, a).value;
    EntryCalled(lex, m, n, a.code, n.properties[a.code], code);
  }

  lemma PropertyNameCalled(lex: Lexicon, m: Manifest, k: string, name: string, provenance: seq<Provenance>,
                           code: string)
    requires ApplyPropertyName(lex, m, k, name, provenance).Ok?
    ensures PropertyCalled(lex, ApplyPropertyName(lex, m, k, name, provenance).value, code)
            == if k == code then name else PropertyCalled(lex, m, code)
  {}

  lemma NativeNameCalled(lex: Lexicon, m: Manifest, k: string, name: string, provenance: seq<Provenance>, code: string)
    requires ApplyNativeName(lex, m, k, name, provenance).Ok?
    ensures PropertyCalled(lex, ApplyNativeName(lex, m, k, name, provenance).value, code)
            == PropertyCalled(lex, m, code)
  {
    var n := ApplyNativeName(lex, m, k, name, provenance).value;
    EntryCalled(lex, m, n, k, n.properties[k], code);
  }

  lemma RowCalled(lex: Lexicon, m: Manifest, k: string, value: TypedValue, caption: string,
                  provenance: seq<Provenance>, code: string)
    requires ApplyRow(lex, m, k, value, caption, provenance).Ok?
    ensures PropertyCalled(lex, ApplyRow(lex, m, k, value, caption, provenance).value, code)
            == PropertyCalled(lex, m, code)
  {
    var n := ApplyRow(lex, m, k, value, caption, provenance).value;
    EntryCalled(lex, m, n, k, n.properties[k], code);
  }

  lemma ProfileCalled(lex: Lexicon, m: Manifest, k: string, profile: ValueProfile, provenance: seq<Provenance>,
                      scopes: seq<Context>, code: string)
    requires ApplyProfile(lex, m, k, profile, provenance, scopes).Ok?
    ensures PropertyCalled(lex, ApplyProfile(lex, m, k, profile, provenance, scopes).value, code)
            == PropertyCalled(lex, m, code)
  {
    var n := ApplyProfile(lex, m, k, profile, provenance, scopes).value;
    EntryCalled(lex, m, n, k, n.properties[k], code);
  }

  lemma PropertyNameStepped(lex: Lexicon, m: Manifest, c: Candidate, code: string)
    requires ApplyCandidate(lex, m, c).Ok?
    ensures PropertyCalled(lex, ApplyCandidate(lex, m, c).value, code)
            == if NamesProperty(code)(c) then NameSaid(c) else PropertyCalled(lex, m, code)
  {
    var a := c.assertion;
    if AboutOperations(c) || a.CameraIdentity? { PropertiesUntouched(lex, m, c); }
    else if a.PropertySupport? {
      if a.supported { PropertySupportCalled(lex, m, a, code); }
    }
    else if a.PropertyName? { PropertyNameCalled(lex, m, a.code, a.name, c.provenance, code); }
    else if a.PropertySourceNativeName? { NativeNameCalled(lex, m, a.code, a.name, c.provenance, code); }
    else if a.PropertyValueRow? { RowCalled(lex, m, a.code, a.value, a.caption, c.provenance, code); }
    else { ProfileCalled(lex, m, a.code, a.profile, c.provenance, c.observedScopes, code); }
  }

  lemma {:induction false} NamesDecided(lex: Lexicon, base: Manifest, cs: seq<Candidate>, code: string)
    requires ApplyAll(lex, base, cs).Ok?
    ensures var n := ApplyAll(lex, base, cs).value;
      && LastDecides(cs, NamesOperation(code), NameSaid, OperationCalled(lex, base, code),
                     OperationCalled(lex, n, code))
      && LastDecides(cs, NamesProperty(code), NameSaid, PropertyCalled(lex, base, code), PropertyCalled(lex, n, code))
    decreases |cs|
  {
    if cs != [] {
      var n := |cs| - 1;
      var prior, now := ApplyAll(lex, base, cs[..n]).value, ApplyAll(lex, base, cs).value;
      NamesDecided(lex, base, cs[..n], code);
      OperationNameStepped(lex, prior, cs[n], code);
      PropertyNameStepped(lex, prior, cs[n], code);
      OneMoreDecides(cs, NamesOperation(code), NameSaid, OperationCalled(lex, base, code),
                     OperationCalled(lex, prior, code), OperationCalled(lex, now, code));
      OneMoreDecides(cs, NamesProperty(code), NameSaid, PropertyCalled(lex, base, code),
                     PropertyCalled(lex, prior, code), PropertyCalled(lex, now, code));
    }
  }

  // ----- new entries -----

  /** The modes and connections of the scopes, once each and in order; everything else is empty. */
  ghost predicate Advertised(scopes: seq<Context>, d: OperationDetail) {
    && d == OperationDetail(AdvertisedOnly, "", None, [], [], None, None, None, d.modes, d.connections, None, None,
                            [], [], [])
    && Strict(d.modes, StrLe) && (forall x :: x in d.modes <==> InMode(scopes, x))
    && Strict(d.connections, StrLe)
    && (forall x :: x in d.connections <==> exists i :: 0 <= i < |scopes| && scopes[i].connection == x)
  }

  lemma NewAdvertised(lex: Lexicon, code: string, scopes: seq<Context>)
    ensures Advertised(scopes, NewOperation(lex, code, scopes).detail)
  {
    StrOrder();
    var modes, connections := Map(scopes, ModeOf), Map(scopes, ConnectionOf);
    forall x ensures x in modes <==> InMode(scopes, x) {
      if x in modes { var i :| 0 <= i < |modes| && modes[i] == x; assert scopes[i].mode == x; }
      if i :| 0 <= i < |scopes| && scopes[i].mode == x { assert modes[i] == x; }
    }
    forall x ensures x in connections <==> exists i :: 0 <= i < |scopes| && scopes[i].connection == x {
      if x in connections { var i :| 0 <= i < |connections| && connections[i] == x; assert scopes[i].connection == x; }
      if i :| 0 <= i < |scopes| && scopes[i].connection == x { assert connections[i] == x; }
    }
  }

  ghost predicate FirstClaim(cs: seq<Candidate>, code: string, i: int) {
    0 <= i < |cs| && ClaimsOperation(cs[i], code) && forall j :: 0 <= j < i ==> !ClaimsOperation(cs[j], code)
  }

  /** The first accepted candidate for an operation the base lacks decides its modes and connections. */
  lemma NewOperationDetail(lex: Lexicon, base: Manifest, cs: seq<Candidate>, i: nat, code: string)
    requires ApplyAll(lex, base, cs).Ok? && code !in base.operations && FirstClaim(cs, code, i)
    ensures var n := ApplyAll(lex, base, cs).value;
      code in n.operations && Advertised(cs[i].assertion.scopes, n.operations[code].detail)
  {
    var step := Applier(lex);
    assert cs == cs[..i] + cs[i..];
    FoldPrefix(step, base, cs[..i], cs[i..]);
    var m := ApplyAll(lex, base, cs[..i]).value;
    OperationScopesExact(lex, base, cs[..i], code);
    assert cs[..i + 1][..i] == cs[..i] && cs == cs[..i + 1] + cs[i + 1..];
    FoldPrefix(step, base, cs[..i + 1], cs[i + 1..]);
    FoldAppend(step, base, cs[..i + 1], cs[i + 1..]);
    var k := ApplyAll(lex, base, cs[..i + 1]).value;
    assert k == ApplyOperation(lex, m, code, cs[i].assertion.scopes);
    NewAdvertised(lex, code, cs[i].assertion.scopes);
    OperationCurationKept(lex, k, cs[i + 1..], code);
  }

  /** A property the base lacks is catalogued and nothing more. */
  lemma {:induction false} NewPropertyDetail(lex: Lexicon, base: Manifest, cs: seq<Candidate>, code: string)
    requires ApplyAll(lex, base, cs).Ok? && code !in base.properties
    ensures var n := ApplyAll(lex, base, cs).value;
      code in n.properties ==> n.properties[code].detail == PropertyDetail("catalogOnly", None, "")
    decreases |cs|
  {
    if cs != [] {
      var k := |cs| - 1;
      var m := ApplyAll(lex, base, cs[..k]).value;
      NewPropertyDetail(lex, base, cs[..k], code);
      if code in m.properties {
        PropertyStep(lex, m, cs[k], code);
      } else {
        AppearsNew(lex, m, cs[k], code);
      }
    }
  }

  lemma AppearsNew(lex: Lexicon, m: Manifest, c: Candidate, code: string)
    requires ApplyCandidate(lex, m, c).Ok? && code !in m.properties
    ensures var n := ApplyCandidate(lex, m, c).value;
      code in n.properties ==> n.properties[code].detail == PropertyDetail("catalogOnly", None, "")
  {
    PropertyScopeStep(lex, m, c, code);
    if ClaimsProperty(c, code) {
      assert ApplyCandidate(lex, m, c) == ApplyProperty(lex, m, c.assertion);
    }
  }

  // ----- what is only added to -----

  /** Keys are added with the given value, and no value changes. */
  ghost predicate OnlyAdds<V(!new)>(m: map<string, V>, n: map<string, V>, added: (string, V) -> bool) {
    && (forall x :: x in m ==> x in n && n[x] == m[x])
    && (forall x :: x in n && x !in m ==> added(x, n[x]))
  }

  lemma OnlyAddsTwice<V(!new)>(m: map<string, V>, n: map<string, V>, k: map<string, V>, added: (string, V) -> bool)
    requires OnlyAdds(m, n, added) && OnlyAdds(n, k, added)
    ensures OnlyAdds(m, k, added)
  {
    forall x | x in k && x !in m ensures added(x, k[x]) { if x in n { assert k[x] == n[x]; } }
  }

  /** A mode is registered without a description. */
  const Undescribed := (x: string, v: string) => v == ""

  /** Evidence other than the observations themselves is registered as what somebody said. */
  const AsSaid := (x: string, v: EvidenceEntry) =>
    if x != CANONICAL then v == EvidenceEntry("semantic-assertion", "", "")
    else v == EvidenceEntry("semantic-assertion", "", "") || v == EvidenceEntry("camera-observation", "evidence/", "")

  lemma {:induction false} ModesOnlyAdded(modes: map<string, string>, scopes: seq<Context>)
    ensures OnlyAdds(modes, RegisterModes(modes, scopes), Undescribed)
    decreases |scopes|
  {
    if scopes != [] { ModesOnlyAdded(modes, scopes[..|scopes| - 1]); }
  }

  lemma {:induction false} ReferencesOnlyAdded(evidence: map<string, EvidenceEntry>, references: seq<string>)
    ensures OnlyAdds(evidence, RegisterReferences(evidence, references), AsSaid)
    decreases |references|
  {
    if references != [] { ReferencesOnlyAdded(evidence, references[..|references| - 1]); }
  }

  lemma EvidenceOnlyAdded(evidence: map<string, EvidenceEntry>, provenance: seq<Provenance>)
    ensures OnlyAdds(evidence, RegisterAll(evidence, provenance), AsSaid)
    ensures OnlyAdds(evidence, RegisterCanonical(evidence), AsSaid)
  {
    ReferencesOnlyAdded(evidence, References(provenance));
    var k := RegisterReferences(evidence, References(provenance));
    assert OnlyAdds(k, RegisterCanonical(k), AsSaid);
    OnlyAddsTwice(evidence, k, RegisterCanonical(k), AsSaid);
  }

  ghost predicate KeepsRest(m: Manifest, n: Manifest) {
    n.rest == m.rest && OnlyAdds(m.modes, n.modes, Undescribed) && OnlyAdds(m.evidence, n.evidence, AsSaid)
  }

  /** The parts of a manifest that are only added to become these. */
  predicate RestIs(m: Manifest, n: Manifest, modes: map<string, string>, evidence: map<string, EvidenceEntry>) {
    n.rest == m.rest && n.modes == modes && n.evidence == evidence
  }

  lemma NamingRest(lex: Lexicon, m: Manifest, code: string, name: string, provenance: seq<Provenance>)
    ensures var all := RegisterAll(m.evidence, provenance);
      && (var r := ApplyOperationName(lex, m, code, name, provenance); r.Ok? ==> RestIs(m, r.value, m.modes, all))
      && (var r := ApplyPropertyName(lex, m, code, name, provenance); r.Ok? ==> RestIs(m, r.value, m.modes, all))
      && (var r := ApplyNativeName(lex, m, code, name, provenance); r.Ok? ==> RestIs(m, r.value, m.modes, all))
  {}

  lemma RowRest(lex: Lexicon, m: Manifest, code: string, value: TypedValue, caption: string,
                provenance: seq<Provenance>)
    ensures var r := ApplyRow(lex, m, code, value, caption, provenance);
      r.Ok? ==> RestIs(m, r.value, m.modes, RegisterAll(m.evidence, provenance))
  {}

  lemma ProfileRest(lex: Lexicon, m: Manifest, code: string, profile: ValueProfile, provenance: seq<Provenance>,
                    scopes: seq<Context>)
    ensures var r := ApplyProfile(lex, m, code, profile, provenance, scopes);
      r.Ok? ==> RestIs(m, r.value, ProfileModes(m.modes, profile, scopes), RegisterAll(m.evidence, provenance))
    ensures OnlyAdds(m.modes, ProfileModes(m.modes, profile, scopes), Undescribed)
  {
    ModesOnlyAdded(m.modes, scopes);
  }

  lemma OperationRest(lex: Lexicon, m: Manifest, code: string, scopes: seq<Context>)
    ensures RestIs(m, ApplyOperation(lex, m, code, scopes), RegisterModes(m.modes, scopes),
                   RegisterCanonical(m.evidence))
  {}

  lemma PropertyRest(lex: Lexicon, m: Manifest, a: Assertion)
    requires a.PropertySupport? && ApplyProperty(lex, m, a).Ok?
    ensures RestIs(m, ApplyProperty(lex, m, a).value, RegisterModes(m.modes, a.scopes),
                   RegisterCanonical(m.evidence))
  {}

  lemma RestStep(lex: Lexicon, m: Manifest, c: Candidate)
    requires ApplyCandidate(lex, m, c).Ok?
    ensures KeepsRest(m, ApplyCandidate(lex, m, c).value)
  {
    var a := c.assertion;
    EvidenceOnlyAdded(m.evidence, c.provenance);
    if a.CameraIdentity? {
      assert RestIs(m, ApplyIdentity(m, a.camera).value, m.modes, RegisterCanonical(m.evidence));
    } else if a.OperationSupport? {
      OperationRest(lex, m, a.code, a.scopes);
      ModesOnlyAdded(m.modes, a.scopes);
    } else if a.PropertySupport? {
      if a.supported { PropertyRest(lex, m, a); }
      ModesOnlyAdded(m.modes, a.scopes);
    } else if a.PropertyValueRow? {
      RowRest(lex, m, a.code, a.value, a.caption, c.provenance);
    } else if a.PropertyValueProfile? {
      ProfileRest(lex, m, a.code, a.profile, c.provenance, c.observedScopes);
    } else {
      NamingRest(lex, m, a.code, a.name, c.provenance);
    }
  }

  lemma {:induction false} RestKept(lex: Lexicon, base: Manifest, cs: seq<Candidate>)
    requires ApplyAll(lex, base, cs).Ok?
    ensures KeepsRest(base, ApplyAll(lex, base, cs).value)
    decreases |cs|
  {
    if cs != [] {
      var n := |cs| - 1;
      var m := ApplyAll(lex, base, cs[..n]).value;
      RestKept(lex, base, cs[..n]);
      RestStep(lex, m, cs[n]);
      var k := ApplyAll(lex, base, cs).value;
      OnlyAddsTwice(base.modes, m.modes, k.modes, Undescribed);
      OnlyAddsTwice(base.evidence, m.evidence, k.evidence, AsSaid);
    }
  }

  /** The camera, the names and what new entries start with, after a review. */
  lemma EntriesReviewed(lex: Lexicon, valid: Manifest -> bool, base: Manifest, p: Proposal, r: ProposalReview,
                        y: Manifest, code: string)
    requires ApplyReview(lex, valid, base, p, r) == Ok(y)
    ensures var cs := Agenda(p, r);
      && LastDecides(cs, SaysCamera, CameraSaid, base.camera, y.camera)
      && LastDecides(cs, NamesOperation(code), NameSaid, OperationCalled(lex, base, code),
                     OperationCalled(lex, y, code))
      && LastDecides(cs, NamesProperty(code), NameSaid, PropertyCalled(lex, base, code), PropertyCalled(lex, y, code))
    ensures var cs := Agenda(p, r);
      && (code !in base.operations ==>
            forall i :: FirstClaim(cs, code, i) ==>
              code in y.operations && Advertised(cs[i].assertion.scopes, y.operations[code].detail))
      && (code !in base.properties && code in y.properties ==>
            y.properties[code].detail == PropertyDetail("catalogOnly", None, ""))
      && KeepsRest(base, y)
  {
    var cs := Agenda(p, r);
    CameraDecided(lex, base, cs);
    NamesDecided(lex, base, cs, code);
    RestKept(lex, base, cs);
    if code !in base.operations {
      forall i | FirstClaim(cs, code, i)
        ensures code in y.operations && Advertised(cs[i].assertion.scopes, y.operations[code].detail)
      {
        NewOperationDetail(lex, base, cs, i, code);
      }
    }
    if code !in base.properties { NewPropertyDetail(lex, base, cs, code); }
  }
}
