// What applied candidates leave behind in a manifest, and why later candidates keep it.
module ReviewSettled {
  import opened Options
  import opened Observation
  import opened Ordering
  import opened Sorting
  import opened Bags
  import opened Folds
  import opened Proposal
  import opened ProposalIntegrity
  import opened Review
  import opened ReviewFacts
  import opened ReviewGrowth

  // ----- what an applied candidate leaves behind -----

  ghost predicate OperationNamedAs(lex: Lexicon, m: Manifest, code: string, name: string, provenance: seq<Provenance>) {
    && code in m.operations && m.operations[code].name == name && HasEvidence(m.operations[code].evidence, provenance)
    && HasName(lex.codec, OperationNameAt(m, code), name, provenance)
    && HasRegistered(m.evidence, provenance)
  }

  ghost predicate PropertyNamedAs(lex: Lexicon, m: Manifest, code: string, name: string, provenance: seq<Provenance>) {
    && code in m.properties && m.properties[code].name == name && HasEvidence(m.properties[code].evidence, provenance)
    && HasName(lex.codec, LedgerAt(m, code).canonicalName, name, provenance)
    && HasRegistered(m.evidence, provenance)
  }

  ghost predicate NativelyNamedAs(lex: Lexicon, m: Manifest, code: string, name: string, provenance: seq<Provenance>) {
    && code in m.properties && m.properties[code].ptpName == Some(name)
       && HasEvidence(m.properties[code].evidence, provenance)
    && HasName(lex.codec, LedgerAt(m, code).sourceNativeName, name, provenance)
    && HasRegistered(m.evidence, provenance)
  }

  ghost predicate RowListed(lex: Lexicon, m: Manifest, code: string, value: TypedValue, caption: string,
                            provenance: seq<Provenance>) {
    && code in m.properties && HasTypedRow(m.properties[code].rows, value, caption, provenance)
    && HasEvidence(m.properties[code].evidence, provenance)
    && HasLedgerRow(lex.codec, LedgerAt(m, code).rows, value, caption, provenance)
    && HasRegistered(m.evidence, provenance)
  }

  ghost predicate ProfileListed(lex: Lexicon, m: Manifest, code: string, profile: ValueProfile,
                                provenance: seq<Provenance>, scopes: seq<Context>) {
    && HasProfileModes(m.modes, profile, scopes)
    && code in m.properties && HasEvidence(m.properties[code].evidence, provenance)
    && HasLedgerProfile(lex.codec, LedgerAt(m, code).profiles, SourcedProfile(profile, provenance), provenance)
    && HasRegistered(m.evidence, provenance)
  }

  ghost predicate OperationSeen(m: Manifest, code: string, scopes: seq<Context>) {
    HasModes(m.modes, scopes) && code in m.operations && HasScopes(m.operations[code].scopes, scopes)
      && CANONICAL in m.evidence
  }

  ghost predicate PropertySeen(m: Manifest, code: string, scopes: seq<Context>) {
    HasModes(m.modes, scopes) && code in m.properties && HasScopes(m.properties[code].scopes, scopes)
      && CANONICAL in m.evidence
  }

  /** Everything the candidate would extend already holds what it brings. */
  ghost predicate Settled(lex: Lexicon, m: Manifest, c: Candidate) {
    match c.assertion
    case CameraIdentity(camera) => CANONICAL in m.evidence
    case OperationSupport(code, supported, _, scopes) => supported ==> OperationSeen(m, code, scopes)
    case OperationName(code, name) => OperationNamedAs(lex, m, code, name, c.provenance)
    case PropertySupport(code, supported, _, _, _, descriptor, _, _, scopes) =>
      supported ==> PropertySeen(m, code, scopes) && StorableDescriptor(descriptor)
    case PropertyName(code, name) => PropertyNamedAs(lex, m, code, name, c.provenance)
    case PropertySourceNativeName(code, name) => NativelyNamedAs(lex, m, code, name, c.provenance)
    case PropertyValueRow(code, value, caption) => RowListed(lex, m, code, value, caption, c.provenance)
    case PropertyValueProfile(code, profile) => ProfileListed(lex, m, code, profile, c.provenance, c.observedScopes)
  }

  // ----- what every candidate keeps -----

  /** The ledger and the entry agree on the name. */
  predicate Confirmed(named: Option<ProvenancedName>, name: string) { named.Some? && named.value.name == name }

  ghost predicate OperationGrows(e: OperationEntry, f: OperationEntry, named: Option<ProvenancedName>) {
    && (forall scopes :: HasScopes(e.scopes, scopes) ==> HasScopes(f.scopes, scopes))
    && (forall provenance :: HasEvidence(e.evidence, provenance) ==> HasEvidence(f.evidence, provenance))
    && (Confirmed(named, e.name) ==> f.name == e.name)
  }

  ghost predicate RowsGrow(a: seq<Row>, b: seq<Row>) {
    forall raw, caption, provenance :: HasRow(a, raw, caption, provenance) ==> HasRow(b, raw, caption, provenance)
  }

  ghost predicate PropertyGrows(e: PropertyEntry, f: PropertyEntry, named: Option<ProvenancedName>) {
    && (forall scopes :: HasScopes(e.scopes, scopes) ==> HasScopes(f.scopes, scopes))
    && (forall provenance :: HasEvidence(e.evidence, provenance) ==> HasEvidence(f.evidence, provenance))
    && RowsGrow(e.rows, f.rows)
    && (e.ptpName.Some? ==> f.ptpName == e.ptpName)
    && (Confirmed(named, e.name) ==> f.name == e.name)
  }

  ghost predicate NameOnlyGrows(codec: Codec, a: Option<ProvenancedName>, b: Option<ProvenancedName>) {
    forall name, provenance :: HasName(codec, a, name, provenance) ==> HasName(codec, b, name, provenance)
  }

  ghost predicate ListGrows(codec: Codec, a: seq<LedgerRow>, b: seq<LedgerRow>) {
    forall value, caption, provenance :: HasLedgerRow(codec, a, value, caption, provenance) ==>
      HasLedgerRow(codec, b, value, caption, provenance)
  }

  ghost predicate ProfilesGrow(codec: Codec, a: seq<LedgerProfile>, b: seq<LedgerProfile>) {
    forall profile, provenance :: HasLedgerProfile(codec, a, profile, provenance) ==>
      HasLedgerProfile(codec, b, profile, provenance)
  }

  ghost predicate LedgerGrows(codec: Codec, a: PropertyLedger, b: PropertyLedger) {
    && NameOnlyGrows(codec, a.canonicalName, b.canonicalName)
       && NameOnlyGrows(codec, a.sourceNativeName, b.sourceNativeName)
    && ListGrows(codec, a.rows, b.rows) && ProfilesGrow(codec, a.profiles, b.profiles)
  }

  ghost predicate OperationsGrow(codec: Codec, m: Manifest, n: Manifest) {
    && (forall code :: code in m.operations ==>
          code in n.operations && OperationGrows(m.operations[code], n.operations[code], OperationNameAt(m, code)))
    && (forall code :: NameOnlyGrows(codec, OperationNameAt(m, code), OperationNameAt(n, code)))
  }

  ghost predicate PropertiesGrow(codec: Codec, m: Manifest, n: Manifest) {
    && (forall code :: code in m.properties ==>
          code in n.properties && PropertyGrows(m.properties[code], n.properties[code],
                                                LedgerAt(m, code).canonicalName))
    && (forall code :: LedgerGrows(codec, LedgerAt(m, code), LedgerAt(n, code)))
  }

  ghost predicate RegistersGrow(m: Manifest, n: Manifest) {
    (forall s :: s in m.modes ==> s in n.modes) && (forall r :: r in m.evidence ==> r in n.evidence)
  }

  ghost predicate Grows(codec: Codec, m: Manifest, n: Manifest) {
    RegistersGrow(m, n) && OperationsGrow(codec, m, n) && PropertiesGrow(codec, m, n)
  }

  lemma OperationSettled(lex: Lexicon, m: Manifest, n: Manifest, c: Candidate)
    requires RegistersGrow(m, n) && OperationsGrow(lex.codec, m, n) && Settled(lex, m, c)
    requires c.assertion.OperationSupport? || c.assertion.OperationName?
    ensures Settled(lex, n, c)
  {
    if c.assertion.OperationName? {
      assert NameOnlyGrows(lex.codec, OperationNameAt(m, c.assertion.code), OperationNameAt(n, c.assertion.code));
    }
  }

  lemma PropertySettled(lex: Lexicon, m: Manifest, n: Manifest, c: Candidate)
    requires RegistersGrow(m, n) && PropertiesGrow(lex.codec, m, n) && Settled(lex, m, c)
    requires c.assertion.PropertySupport? || c.assertion.PropertyName? || c.assertion.PropertySourceNativeName?
    ensures Settled(lex, n, c)
  {
    var code := c.assertion.code;
    assert LedgerGrows(lex.codec, LedgerAt(m, code), LedgerAt(n, code));
  }

  lemma ValueSettled(lex: Lexicon, m: Manifest, n: Manifest, c: Candidate)
    requires RegistersGrow(m, n) && PropertiesGrow(lex.codec, m, n) && Settled(lex, m, c)
    requires c.assertion.PropertyValueRow? || c.assertion.PropertyValueProfile?
    ensures Settled(lex, n, c)
  {
    var code := c.assertion.code;
    assert LedgerGrows(lex.codec, LedgerAt(m, code), LedgerAt(n, code));
  }

  lemma GrowsSettled(lex: Lexicon, m: Manifest, n: Manifest, c: Candidate)
    requires Grows(lex.codec, m, n) && Settled(lex, m, c)
    ensures Settled(lex, n, c)
  {
    match c.assertion {
      case CameraIdentity(camera) =>
      case OperationSupport(_, _, _, _) => OperationSettled(lex, m, n, c);
      case OperationName(_, _) => OperationSettled(lex, m, n, c);
      case PropertySupport(_, _, _, _, _, _, _, _, _) => PropertySettled(lex, m, n, c);
      case PropertyName(_, _) => PropertySettled(lex, m, n, c);
      case PropertySourceNativeName(_, _) => PropertySettled(lex, m, n, c);
      case PropertyValueRow(_, _, _) => ValueSettled(lex, m, n, c);
      case PropertyValueProfile(_, _) => ValueSettled(lex, m, n, c);
    }
  }

  // ----- changing one entry -----

  lemma OperationFrame(codec: Codec, m: Manifest, n: Manifest, code: string, e: OperationEntry)
    requires RegistersGrow(m, n) && n.properties == m.properties && n.propertyLedger == m.propertyLedger
    requires n.operations == m.operations[code := e]
    requires code in m.operations ==> OperationGrows(m.operations[code], e, OperationNameAt(m, code))
    requires forall k :: k != code ==> OperationNameAt(n, k) == OperationNameAt(m, k)
    requires NameOnlyGrows(codec, OperationNameAt(m, code), OperationNameAt(n, code))
    ensures Grows(codec, m, n)
  {
    assert PropertiesGrow(codec, m, n);
    assert OperationsGrow(codec, m, n);
  }

  lemma PropertyFrame(codec: Codec, m: Manifest, n: Manifest, code: string, e: PropertyEntry)
    requires RegistersGrow(m, n) && n.operations == m.operations && n.operationLedger == m.operationLedger
    requires n.properties == m.properties[code := e]
    requires code in m.properties ==> PropertyGrows(m.properties[code], e, LedgerAt(m, code).canonicalName)
    requires forall k :: k != code ==> LedgerAt(n, k) == LedgerAt(m, k)
    requires LedgerGrows(codec, LedgerAt(m, code), LedgerAt(n, code))
    ensures Grows(codec, m, n)
  {
    assert PropertiesGrow(codec, m, n);
    assert OperationsGrow(codec, m, n);
  }

  /** One entry and one ledger are replaced by grown ones. */
  lemma EntryFrame(codec: Codec, m: Manifest, n: Manifest, code: string, e: PropertyEntry, l: PropertyLedger)
    requires RegistersGrow(m, n) && n.operations == m.operations && n.operationLedger == m.operationLedger
    requires n.properties == m.properties[code := e] && n.propertyLedger == m.propertyLedger[code := l]
    requires code in m.properties ==> PropertyGrows(m.properties[code], e, LedgerAt(m, code).canonicalName)
    requires LedgerGrows(codec, LedgerAt(m, code), l)
    ensures Grows(codec, m, n) && LedgerAt(n, code) == l && n.properties[code] == e
  {
    PropertyFrame(codec, m, n, code, e);
  }

  // ----- each kind of candidate settles itself and keeps the rest -----

  lemma IdentityGrows(codec: Codec, m: Manifest, camera: Camera)
    requires ApplyIdentity(m, camera).Ok?
    ensures Grows(codec, m, ApplyIdentity(m, camera).value) && CANONICAL in ApplyIdentity(m, camera).value.evidence
  {}

  lemma OperationSupportGrows(lex: Lexicon, m: Manifest, code: string, scopes: seq<Context>)
    ensures Grows(lex.codec, m, ApplyOperation(lex, m, code, scopes))
            && OperationSeen(ApplyOperation(lex, m, code, scopes), code, scopes)
  {
    var n := ApplyOperation(lex, m, code, scopes);
    ModesGrow(m.modes, scopes);
    ScopesGrow(OperationAt(lex, m, code, scopes).scopes, scopes);
    OperationFrame(lex.codec, m, n, code, n.operations[code]);
  }

  lemma OperationNameGrows(lex: Lexicon, m: Manifest, code: string, name: string, provenance: seq<Provenance>)
    requires lex.codec.Faithful() && Strict(provenance, lex.codec.ProvenanceLe())
    requires ApplyOperationName(lex, m, code, name, provenance).Ok?
    ensures var n := ApplyOperationName(lex, m, code, name, provenance).value;
      Grows(lex.codec, m, n) && OperationNamedAs(lex, n, code, name, provenance)
  {
    var n := ApplyOperationName(lex, m, code, name, provenance).value;
    EvidenceGrows(m.operations[code].evidence, provenance);
    NameGrows(lex.codec, OperationNameAt(m, code), name, provenance);
    RegisterGrows(m.evidence, provenance);
    OperationFrame(lex.codec, m, n, code, n.operations[code]);
  }

  lemma PropertySupportGrows(lex: Lexicon, m: Manifest, a: Assertion)
    requires a.PropertySupport? && ApplyProperty(lex, m, a).Ok?
    ensures var n := ApplyProperty(lex, m, a).value; Grows(lex.codec, m, n) && PropertySeen(n, a.code, a.scopes)
  {
    var n := ApplyProperty(lex, m, a).value;
    ModesGrow(m.modes, a.scopes);
    ScopedEntryGrows(PropertyAt(lex, m, a.code), n.properties[a.code], a.scopes, LedgerAt(m, a.code).canonicalName);
    PropertyFrame(lex.codec, m, n, a.code, n.properties[a.code]);
  }

  lemma ScopedEntryGrows(e: PropertyEntry, f: PropertyEntry, scopes: seq<Context>, named: Option<ProvenancedName>)
    requires f == e.(facts := f.facts, scopes := MergeScopes(e.scopes, scopes))
    ensures PropertyGrows(e, f, named) && HasScopes(f.scopes, scopes)
  {
    ScopesGrow(e.scopes, scopes);
  }

  lemma PropertyNameGrows(lex: Lexicon, m: Manifest, code: string, name: string, provenance: seq<Provenance>)
    requires lex.codec.Faithful() && Strict(provenance, lex.codec.ProvenanceLe())
    requires ApplyPropertyName(lex, m, code, name, provenance).Ok?
    ensures var n := ApplyPropertyName(lex, m, code, name, provenance).value;
      Grows(lex.codec, m, n) && PropertyNamedAs(lex, n, code, name, provenance)
  {
    var n := ApplyPropertyName(lex, m, code, name, provenance).value;
    EvidenceGrows(m.properties[code].evidence, provenance);
    NameGrows(lex.codec, LedgerAt(m, code).canonicalName, name, provenance);
    RegisterGrows(m.evidence, provenance);
    PropertyFrame(lex.codec, m, n, code, n.properties[code]);
  }

  lemma NativeNameGrows(lex: Lexicon, m: Manifest, code: string, name: string, provenance: seq<Provenance>)
    requires lex.codec.Faithful() && Strict(provenance, lex.codec.ProvenanceLe())
    requires ApplyNativeName(lex, m, code, name, provenance).Ok?
    ensures var n := ApplyNativeName(lex, m, code, name, provenance).value;
      Grows(lex.codec, m, n) && NativelyNamedAs(lex, n, code, name, provenance)
  {
    var n := ApplyNativeName(lex, m, code, name, provenance).value;
    EvidenceGrows(m.properties[code].evidence, provenance);
    NameGrows(lex.codec, LedgerAt(m, code).sourceNativeName, name, provenance);
    RegisterGrows(m.evidence, provenance);
    PropertyFrame(lex.codec, m, n, code, n.properties[code]);
  }

  lemma TypedRowGrows(rows: seq<Row>, value: TypedValue, caption: string, provenance: seq<Provenance>)
    requires AddTypedRow(rows, value, caption, provenance).Some?
    ensures HasTypedRow(AddTypedRow(rows, value, caption, provenance).value, value, caption, provenance)
    ensures RowsGrow(rows, AddTypedRow(rows, value, caption, provenance).value)
  {
    if value.raw.Some? {
      RowGrows(rows, value.raw.value, caption, provenance);
      forall raw, cap, prior | HasRow(rows, raw, cap, prior)
        ensures HasRow(AddTypedRow(rows, value, caption, provenance).value, raw, cap, prior)
      {
        RowKeeps(rows, value.raw.value, caption, provenance, raw, cap, prior);
      }
    }
  }

  lemma ListedRowGrows(lex: Lexicon, rows: seq<LedgerRow>, value: TypedValue, caption: string,
                       provenance: seq<Provenance>)
    requires lex.codec.Faithful() && Strict(provenance, lex.codec.ProvenanceLe())
    requires AddLedgerRow(lex, rows, value, caption, provenance).Some?
    ensures var now := AddLedgerRow(lex, rows, value, caption, provenance).value;
      && HasLedgerRow(lex.codec, now, value, caption, provenance)
      && ListGrows(lex.codec, rows, now)
  {
    LedgerRowGrows(lex, rows, value, caption, provenance);
    forall v, cap, prior | HasLedgerRow(lex.codec, rows, v, cap, prior)
      ensures HasLedgerRow(lex.codec, AddLedgerRow(lex, rows, value, caption, provenance).value, v, cap, prior)
    {
      LedgerRowKeeps(lex, rows, value, caption, provenance, v, cap, prior);
    }
  }

  lemma ValueRowGrows(lex: Lexicon, m: Manifest, code: string, value: TypedValue, caption: string,
                      provenance: seq<Provenance>)
    requires lex.codec.Faithful() && Strict(provenance, lex.codec.ProvenanceLe())
    requires ApplyRow(lex, m, code, value, caption, provenance).Ok?
    ensures var n := ApplyRow(lex, m, code, value, caption, provenance).value;
      Grows(lex.codec, m, n) && RowListed(lex, n, code, value, caption, provenance)
  {
    var n := ApplyRow(lex, m, code, value, caption, provenance).value;
    var e, l := m.properties[code], LedgerAt(m, code);
    var f, k := n.properties[code], LedgerAt(n, code);
    TypedRowGrows(e.rows, value, caption, provenance);
    ListedRowGrows(lex, l.rows, value, caption, provenance);
    RowEntryGrows(e, f, provenance, l.canonicalName);
    RowLedgerGrows(lex.codec, l, k);
    RegisterGrows(m.evidence, provenance);
    EntryFrame(lex.codec, m, n, code, f, k);
  }

  lemma RowEntryGrows(e: PropertyEntry, f: PropertyEntry, provenance: seq<Provenance>, named: Option<ProvenancedName>)
    requires f == e.(rows := f.rows, evidence := MergeEvidence(e.evidence, provenance)) && RowsGrow(e.rows, f.rows)
    ensures PropertyGrows(e, f, named) && HasEvidence(f.evidence, provenance)
  {
    EvidenceGrows(e.evidence, provenance);
  }

  lemma RowLedgerGrows(codec: Codec, l: PropertyLedger, k: PropertyLedger)
    requires k == l.(rows := k.rows) && ListGrows(codec, l.rows, k.rows)
    ensures LedgerGrows(codec, l, k)
  {}

  lemma ProfileLedgerGrows(codec: Codec, l: PropertyLedger, k: PropertyLedger)
    requires k == l.(profiles := k.profiles) && ProfilesGrow(codec, l.profiles, k.profiles)
    ensures LedgerGrows(codec, l, k)
  {}

  lemma ListedProfileGrows(lex: Lexicon, profiles: seq<LedgerProfile>, profile: ValueProfile,
                           provenance: seq<Provenance>)
    requires lex.codec.Faithful() && Strict(provenance, lex.codec.ProvenanceLe())
    ensures var now := AddLedgerProfile(lex, profiles, profile, provenance);
      && HasLedgerProfile(lex.codec, now, profile, provenance)
      && ProfilesGrow(lex.codec, profiles, now)
  {
    LedgerProfileGrows(lex, profiles, profile, provenance);
    forall p, prior | HasLedgerProfile(lex.codec, profiles, p, prior)
      ensures HasLedgerProfile(lex.codec, AddLedgerProfile(lex, profiles, profile, provenance), p, prior)
    {
      LedgerProfileKeeps(lex, profiles, profile, provenance, p, prior);
    }
  }

  lemma ValueProfileGrows(lex: Lexicon, m: Manifest, code: string, profile: ValueProfile, provenance: seq<Provenance>,
                          scopes: seq<Context>)
    requires lex.codec.Faithful() && Strict(provenance, lex.codec.ProvenanceLe())
    requires ApplyProfile(lex, m, code, profile, provenance, scopes).Ok?
    ensures var n := ApplyProfile(lex, m, code, profile, provenance, scopes).value;
      Grows(lex.codec, m, n) && ProfileListed(lex, n, code, profile, provenance, scopes)
  {
    var n := ApplyProfile(lex, m, code, profile, provenance, scopes).value;
    ProfileEntryGrows(m.properties[code], n.properties[code], provenance, LedgerAt(m, code).canonicalName);
    SomeProfileGrows(lex, m, n, code, profile, provenance, scopes, n.properties[code]);
  }

  lemma SomeProfileGrows(lex: Lexicon, m: Manifest, n: Manifest, code: string, profile: ValueProfile,
                         provenance: seq<Provenance>,
                         scopes: seq<Context>, e: PropertyEntry)
    requires lex.codec.Faithful() && Strict(provenance, lex.codec.ProvenanceLe()) && code in m.properties
    requires PropertyGrows(m.properties[code], e, LedgerAt(m, code).canonicalName)
             && HasEvidence(e.evidence, provenance)
    requires var listed := AddLedgerProfile(lex, LedgerAt(m, code).profiles, SourcedProfile(profile, provenance),
                                            provenance);
      n == m.(modes := ProfileModes(m.modes, profile, scopes), properties := m.properties[code := e],
              propertyLedger := m.propertyLedger[code := LedgerAt(m, code).(profiles := listed)],
              evidence := RegisterAll(m.evidence, provenance))
    ensures Grows(lex.codec, m, n) && ProfileListed(lex, n, code, profile, provenance, scopes)
  {
    ProfileModesGrow(m.modes, profile, scopes);
    RegisterGrows(m.evidence, provenance);
    ListedProfileGrows(lex, LedgerAt(m, code).profiles, SourcedProfile(profile, provenance), provenance);
    ProfileLedgerGrows(lex.codec, LedgerAt(m, code), LedgerAt(n, code));
    EntryFrame(lex.codec, m, n, code, e, LedgerAt(n, code));
  }

  lemma ProfileEntryGrows(e: PropertyEntry, f: PropertyEntry, provenance: seq<Provenance>,
                          named: Option<ProvenancedName>)
    requires f == e.(facts := f.facts, evidence := MergeEvidence(e.evidence, provenance))
    ensures PropertyGrows(e, f, named) && HasEvidence(f.evidence, provenance)
  {
    EvidenceGrows(e.evidence, provenance);
  }

  /** A candidate that applies settles itself and unsettles no other. */
  lemma CandidateGrows(lex: Lexicon, m: Manifest, c: Candidate)
    requires lex.codec.Faithful() && Strict(c.provenance, lex.codec.ProvenanceLe()) && ApplyCandidate(lex, m, c).Ok?
    ensures Grows(lex.codec, m, ApplyCandidate(lex, m, c).value) && Settled(lex, ApplyCandidate(lex, m, c).value, c)
  {
    match c.assertion {
      case CameraIdentity(camera) => IdentityGrows(lex.codec, m, camera);
      case OperationSupport(code, supported, _, scopes) => if supported { OperationSupportGrows(lex, m, code, scopes); }
      case OperationName(code, name) => OperationNameGrows(lex, m, code, name, c.provenance);
      case PropertySupport(_, supported, _, _, _, _, _, _,
                           _) => if supported { PropertySupportGrows(lex, m, c.assertion); }
      case PropertyName(code, name) => PropertyNameGrows(lex, m, code, name, c.provenance);
      case PropertySourceNativeName(code, name) => NativeNameGrows(lex, m, code, name, c.provenance);
      case PropertyValueRow(code, value, caption) => ValueRowGrows(lex, m, code, value, caption, c.provenance);
      case PropertyValueProfile(code, profile) => ValueProfileGrows(lex, m, code, profile, c.provenance,
                                                                    c.observedScopes);
    }
  }

  lemma StepSettles(lex: Lexicon, x: Manifest, c: Candidate, d: Candidate)
    requires lex.codec.Faithful() && Strict(c.provenance, lex.codec.ProvenanceLe())
    requires ApplyCandidate(lex, x, c).Ok? && Settled(lex, x, d)
    ensures Settled(lex, ApplyCandidate(lex, x, c).value, d)
  {
    CandidateGrows(lex, x, c);
    GrowsSettled(lex, x, ApplyCandidate(lex, x, c).value, d);
  }

  ghost predicate Normalized(lex: Lexicon, cs: seq<Candidate>) {
    forall c :: c in cs ==> Strict(c.provenance, lex.codec.ProvenanceLe())
  }

  /** Every candidate of a list that applies is settled at the end. */
  lemma AllSettled(lex: Lexicon, m: Manifest, cs: seq<Candidate>, i: nat)
    requires lex.codec.Faithful() && Normalized(lex, cs) && ApplyAll(lex, m, cs).Ok? && i < |cs|
    ensures Settled(lex, ApplyAll(lex, m, cs).value, cs[i])
  {
    var step := Applier(lex);
    var settled := (x: Manifest, c: Candidate) => Settled(lex, x, c);
    forall x: Manifest, c: Candidate | c in cs && step(x, c).Ok? ensures settled(step(x, c).value, c) {
      CandidateGrows(lex, x, c);
    }
    forall x: Manifest, c: Candidate, d: Candidate | c in cs && d in cs && settled(x, d) && step(x, c).Ok?
      ensures settled(step(x, c).value, d)
    {
      StepSettles(lex, x, c, d);
    }
    Persists(step, m, cs, settled, i);
  }

  // ----- a settled candidate is a no-op, up to the facts it writes -----

  /** The ledger does not list twice what the candidate would list. */
  ghost predicate OnceListed(m: Manifest, c: Candidate) {
    match c.assertion
    case PropertyValueRow(code, value, caption) => Once(LedgerAt(m, code).rows, RowKey, (value, caption))
    case PropertyValueProfile(code, profile) => Once(LedgerAt(m, code).profiles, ProfileKey,
                                                     SourcedProfile(profile, c.provenance))
    case _ => true
  }

  /** No row or profile of the candidates is listed twice. */
  ghost predicate Unrepeated(m: Manifest, cs: seq<Candidate>) { forall c :: c in cs ==> OnceListed(m, c) }

  ghost predicate LedgerOnce(l: PropertyLedger, k: PropertyLedger) {
    && (forall key :: Once(l.rows, RowKey, key) ==> Once(k.rows, RowKey, key))
    && (forall key :: Once(l.profiles, ProfileKey, key) ==> Once(k.profiles, ProfileKey, key))
  }

  /** What was listed at most once still is. */
  ghost predicate KeepsOnce(m: Manifest, n: Manifest) {
    forall code :: LedgerOnce(LedgerAt(m, code), LedgerAt(n, code))
  }

  predicate Lists(c: Candidate) {
    c.assertion.PropertyName? || c.assertion.PropertySourceNativeName? || c.assertion.PropertyValueRow?
      || c.assertion.PropertyValueProfile?
  }

  lemma NamingOperations(lex: Lexicon, m: Manifest, code: string, name: string, provenance: seq<Provenance>)
    requires ApplyOperationName(lex, m, code, name, provenance).Ok?
    ensures ApplyOperationName(lex, m, code, name, provenance).value.propertyLedger == m.propertyLedger
  {}

  lemma WritingProperties(lex: Lexicon, m: Manifest, a: Assertion)
    requires a.PropertySupport? && ApplyProperty(lex, m, a).Ok?
    ensures ApplyProperty(lex, m, a).value.propertyLedger == m.propertyLedger
  {}

  lemma LedgerUntouched(lex: Lexicon, m: Manifest, c: Candidate)
    requires !Lists(c) && ApplyCandidate(lex, m, c).Ok?
    ensures ApplyCandidate(lex, m, c).value.propertyLedger == m.propertyLedger
  {
    var a := c.assertion;
    if a.CameraIdentity? {
      assert ApplyIdentity(m, a.camera).value.propertyLedger == m.propertyLedger;
    } else if a.OperationName? {
      NamingOperations(lex, m, a.code, a.name, c.provenance);
    } else if a.PropertySupport? && a.supported {
      WritingProperties(lex, m, a);
    } else if a.OperationSupport? && a.supported {
      assert ApplyOperation(lex, m, a.code, a.scopes).propertyLedger == m.propertyLedger;
    }
  }

  lemma OnceKept(lex: Lexicon, m: Manifest, c: Candidate)
    requires ApplyCandidate(lex, m, c).Ok?
    ensures KeepsOnce(m, ApplyCandidate(lex, m, c).value)
  {
    if !Lists(c) {
      LedgerUntouched(lex, m, c);
      SameLedgers(m, ApplyCandidate(lex, m, c).value);
    } else {
      match c.assertion {
        case PropertyValueRow(code, value, caption) => OnceRowKept(lex, m, code, value, caption, c.provenance);
        case PropertyValueProfile(code, profile) => OnceProfileKept(lex, m, code, profile, c.provenance,
                                                                    c.observedScopes);
        case PropertyName(code, name) => OnceNameKept(lex, m, code, name, c.provenance);
        case PropertySourceNativeName(code, name) => OnceNativeKept(lex, m, code, name, c.provenance);
      }
    }
  }

  lemma SameLedgers(m: Manifest, n: Manifest)
    requires n.propertyLedger == m.propertyLedger
    ensures KeepsOnce(m, n)
  {
    assert forall code :: LedgerAt(n, code) == LedgerAt(m, code);
  }

  lemma OneLedger(m: Manifest, n: Manifest, code: string, l: PropertyLedger)
    requires n.propertyLedger == m.propertyLedger[code := l] && LedgerOnce(LedgerAt(m, code), l)
    ensures KeepsOnce(m, n)
  {
    forall k ensures LedgerOnce(LedgerAt(m, k), LedgerAt(n, k)) {
      assert k != code ==> LedgerAt(n, k) == LedgerAt(m, k);
    }
  }

  lemma OnceRowKept(lex: Lexicon, m: Manifest, code: string, value: TypedValue, caption: string,
                    provenance: seq<Provenance>)
    requires ApplyRow(lex, m, code, value, caption, provenance).Ok?
    ensures KeepsOnce(m, ApplyRow(lex, m, code, value, caption, provenance).value)
  {
    var n, rows := ApplyRow(lex, m, code, value, caption, provenance).value, LedgerAt(m, code).rows;
    forall key | Once(rows, RowKey, key)
      ensures Once(AddLedgerRow(lex, rows, value, caption, provenance).value, RowKey, key)
    {
      LedgerRowOnce(lex, rows, value, caption, provenance, key);
    }
    OneLedger(m, n, code, n.propertyLedger[code]);
  }

  lemma OnceProfileKept(lex: Lexicon, m: Manifest, code: string, profile: ValueProfile, provenance: seq<Provenance>,
                        scopes: seq<Context>)
    requires ApplyProfile(lex, m, code, profile, provenance, scopes).Ok?
    ensures KeepsOnce(m, ApplyProfile(lex, m, code, profile, provenance, scopes).value)
  {
    var n, profiles := ApplyProfile(lex, m, code, profile, provenance, scopes).value, LedgerAt(m, code).profiles;
    var sourced := SourcedProfile(profile, provenance);
    forall key | Once(profiles, ProfileKey, key)
      ensures Once(AddLedgerProfile(lex, profiles, sourced, provenance), ProfileKey, key)
    {
      LedgerProfileOnce(lex, profiles, sourced, provenance, key);
    }
    OneLedger(m, n, code, n.propertyLedger[code]);
  }

  lemma OnceNameKept(lex: Lexicon, m: Manifest, code: string, name: string, provenance: seq<Provenance>)
    requires ApplyPropertyName(lex, m, code, name, provenance).Ok?
    ensures KeepsOnce(m, ApplyPropertyName(lex, m, code, name, provenance).value)
  {
    var n := ApplyPropertyName(lex, m, code, name, provenance).value;
    OneLedger(m, n, code, n.propertyLedger[code]);
  }

  lemma OnceNativeKept(lex: Lexicon, m: Manifest, code: string, name: string, provenance: seq<Provenance>)
    requires ApplyNativeName(lex, m, code, name, provenance).Ok?
    ensures KeepsOnce(m, ApplyNativeName(lex, m, code, name, provenance).value)
  {
    var n := ApplyNativeName(lex, m, code, name, provenance).value;
    OneLedger(m, n, code, n.propertyLedger[code]);
  }

  lemma KeptOnce(m: Manifest, n: Manifest, c: Candidate)
    requires KeepsOnce(m, n) && OnceListed(m, c)
    ensures OnceListed(n, c)
  {
    if c.assertion.PropertyValueRow? || c.assertion.PropertyValueProfile? {
      assert LedgerOnce(LedgerAt(m, c.assertion.code), LedgerAt(n, c.assertion.code));
    }
  }

  lemma AllOnce(lex: Lexicon, m: Manifest, cs: seq<Candidate>, c: Candidate)
    requires OnceListed(m, c) && ApplyAll(lex, m, cs).Ok?
    ensures OnceListed(ApplyAll(lex, m, cs).value, c)
  {
    var step, keeps := Applier(lex), (x: Manifest) => OnceListed(x, c);
    forall x: Manifest, d: Candidate | d in cs && keeps(x) && step(x, d).Ok? ensures keeps(step(x, d).value) {
      OnceKept(lex, x, d);
      KeptOnce(x, step(x, d).value, c);
    }
    Invariant(step, m, cs, keeps);
  }

  /** Equal except for the overwritable facts of properties. */
  predicate Same(x: Manifest, m: Manifest) {
    && x.(properties := m.properties) == m
    && x.properties.Keys == m.properties.Keys
    && forall code :: code in m.properties ==>
         x.properties[code].(facts := m.properties[code].facts) == m.properties[code]
  }

  lemma SameButOne(x: Manifest, y: Manifest, m: Manifest, code: string, f: Facts)
    requires Same(x, m) && code in x.properties
             && y == x.(properties := x.properties[code := x.properties[code].(facts := f)])
    ensures Same(y, m)
  {}

  lemma OperationSeenAgain(lex: Lexicon, x: Manifest, code: string, scopes: seq<Context>)
    requires OperationSeen(x, code, scopes)
    ensures ApplyOperation(lex, x, code, scopes) == x
  {
    ModesGrow(x.modes, scopes);
    ScopesGrow(x.operations[code].scopes, scopes);
    assert x.operations[code := x.operations[code]] == x.operations;
  }

  lemma OperationNamedAgain(lex: Lexicon, x: Manifest, code: string, name: string, provenance: seq<Provenance>)
    requires lex.codec.Faithful() && OperationNamedAs(lex, x, code, name, provenance)
    ensures ApplyOperationName(lex, x, code, name, provenance) == Ok(x)
  {
    var entry := x.operations[code];
    EvidenceGrows(entry.evidence, provenance);
    NameKept(lex.codec, OperationNameAt(x, code), name, provenance);
    RegisterGrows(x.evidence, provenance);
    assert entry.(name := name, evidence := MergeEvidence(entry.evidence, provenance)) == entry;
    assert code in x.operationLedger;
    assert x.operations[code := entry] == x.operations;
    assert x.operationLedger[code := x.operationLedger[code]] == x.operationLedger;
  }

  lemma PropertySeenAgain(lex: Lexicon, x: Manifest, a: Assertion)
    requires a.PropertySupport? && PropertySeen(x, a.code, a.scopes) && StorableDescriptor(a.descriptor)
    ensures ApplyProperty(lex, x, a)
         == Ok(x.(properties := x.properties[a.code := x.properties[a.code].(
                facts := WriteFacts(x.properties[a.code].facts, a))]))
  {
    ModesGrow(x.modes, a.scopes);
    ScopesGrow(x.properties[a.code].scopes, a.scopes);
  }

  lemma PropertyNamedAgain(lex: Lexicon, x: Manifest, code: string, name: string, provenance: seq<Provenance>)
    requires lex.codec.Faithful() && PropertyNamedAs(lex, x, code, name, provenance)
    ensures ApplyPropertyName(lex, x, code, name, provenance) == Ok(x)
  {
    EvidenceGrows(x.properties[code].evidence, provenance);
    NameKept(lex.codec, LedgerAt(x, code).canonicalName, name, provenance);
    RegisterGrows(x.evidence, provenance);
    assert x.properties[code := x.properties[code]] == x.properties;
    assert x.propertyLedger[code := x.propertyLedger[code]] == x.propertyLedger;
  }

  lemma NativelyNamedAgain(lex: Lexicon, x: Manifest, code: string, name: string, provenance: seq<Provenance>)
    requires lex.codec.Faithful() && NativelyNamedAs(lex, x, code, name, provenance)
    ensures ApplyNativeName(lex, x, code, name, provenance) == Ok(x)
  {
    EvidenceGrows(x.properties[code].evidence, provenance);
    NameKept(lex.codec, LedgerAt(x, code).sourceNativeName, name, provenance);
    RegisterGrows(x.evidence, provenance);
    assert x.properties[code := x.properties[code]] == x.properties;
    assert x.propertyLedger[code := x.propertyLedger[code]] == x.propertyLedger;
  }

  lemma RowPartsKept(lex: Lexicon, x: Manifest, code: string, value: TypedValue, caption: string,
                     provenance: seq<Provenance>)
    requires lex.codec.Faithful() && Once(LedgerAt(x, code).rows, RowKey, (value, caption))
    requires RowListed(lex, x, code, value, caption, provenance)
    ensures code in x.propertyLedger
    ensures AddTypedRow(x.properties[code].rows, value, caption, provenance) == Some(x.properties[code].rows)
    ensures AddLedgerRow(lex, LedgerAt(x, code).rows, value, caption, provenance) == Some(LedgerAt(x, code).rows)
    ensures MergeEvidence(x.properties[code].evidence, provenance) == x.properties[code].evidence
    ensures RegisterAll(x.evidence, provenance) == x.evidence
  {
    EvidenceGrows(x.properties[code].evidence, provenance);
    if value.raw.Some? { RowKept(x.properties[code].rows, value.raw.value, caption, provenance); }
    LedgerRowKept(lex, LedgerAt(x, code).rows, value, caption, provenance);
    RegisterGrows(x.evidence, provenance);
    LedgerPresent(lex, x, code, value, caption, provenance);
  }

  lemma RowListedAgain(lex: Lexicon, x: Manifest, code: string, value: TypedValue, caption: string,
                       provenance: seq<Provenance>)
    requires lex.codec.Faithful() && Once(LedgerAt(x, code).rows, RowKey, (value, caption))
    requires RowListed(lex, x, code, value, caption, provenance)
    requires x.properties[code].facts.ptype == Some(value.ptype)
    ensures ApplyRow(lex, x, code, value, caption, provenance) == Ok(x)
  {
    RowPartsKept(lex, x, code, value, caption, provenance);
    assert x.properties[code := x.properties[code]] == x.properties;
    assert x.propertyLedger[code := x.propertyLedger[code]] == x.propertyLedger;
  }

  lemma LedgerPresent(lex: Lexicon, x: Manifest, code: string, value: TypedValue, caption: string,
                      provenance: seq<Provenance>)
    requires HasLedgerRow(lex.codec, LedgerAt(x, code).rows, value, caption, provenance)
    ensures code in x.propertyLedger
  {}

  lemma ProfileListedAgain(lex: Lexicon, x: Manifest, code: string, profile: ValueProfile, provenance: seq<Provenance>,
                           scopes: seq<Context>)
    requires lex.codec.Faithful() && Once(LedgerAt(x, code).profiles, ProfileKey, SourcedProfile(profile, provenance))
    requires ProfileListed(lex, x, code, profile, provenance, scopes)
    ensures var f := x.properties[code].facts;
      ApplyProfile(lex, x, code, profile, provenance, scopes)
      == Ok(x.(properties := x.properties[code := x.properties[code].(facts :=
           f.(profiles := SortProfiles(PutProfile(f.profiles, SourcedProfile(profile, provenance)))))]))
  {
    EvidenceGrows(x.properties[code].evidence, provenance);
    ProfileModesGrow(x.modes, profile, scopes);
    LedgerProfileKept(lex, LedgerAt(x, code).profiles, SourcedProfile(profile, provenance), provenance);
    RegisterGrows(x.evidence, provenance);
    assert code in x.propertyLedger;
    assert x.propertyLedger[code := x.propertyLedger[code]] == x.propertyLedger;
  }
}
