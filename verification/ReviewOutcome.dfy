// What a manifest holds after a review, fact by fact: exactly what the base held
// and what the accepted candidates bring.
module ReviewOutcome {
  import opened Options
  import opened Observation
  import opened Ordering
  import opened Sorting
  import opened Bags
  import opened Folds
  import opened Proposal
  import opened ProposalIntegrity
  import opened Review
  import opened ReviewGrowth

  // ----- the facts that only accumulate -----

  datatype NameFact = Is(name: string) | CitedBy(provenance: Provenance)

  datatype EntryFact = Known | Seen(scope: Context) | Backed(reference: string)

  datatype PropertyFact =
    | Entry(fact: EntryFact)
    | Native(name: string)
    | Listed(raw: int, caption: string)
    | ListedBy(raw: int, caption: string, reference: string)

  /** What the ledger of a property holds. */
  datatype LedgerFact =
    | Canonical(fact: NameFact)
    | SourceNative(fact: NameFact)
    | RowOf(value: TypedValue, caption: string)
    | RowCited(value: TypedValue, caption: string, provenance: Provenance)
    | ProfileOf(profile: ValueProfile)
    | ProfileCited(profile: ValueProfile, provenance: Provenance)

  datatype Fact =
    | OfMode(mode: string)
    | OfEvidence(reference: string)
    | OfOperation(code: string, entry: EntryFact)
    | OfProperty(code: string, property: PropertyFact)
    | OfOperationLedger(code: string, name: NameFact)
    | OfLedger(code: string, ledger: LedgerFact)

  predicate NameHolds(n: Option<ProvenancedName>, f: NameFact) {
    match f
    case Is(name) => n.Some? && n.value.name == name
    case CitedBy(p) => n.Some? && p in n.value.provenance
  }

  predicate EntryHolds(evidence: seq<string>, scopes: seq<Context>, f: EntryFact) {
    match f
    case Known => true
    case Seen(scope) => scope in scopes
    case Backed(reference) => reference in evidence
  }

  predicate OperationHolds(operations: map<string, OperationEntry>, code: string, f: EntryFact) {
    code in operations && EntryHolds(operations[code].evidence, operations[code].scopes, f)
  }

  ghost predicate Any<T>(s: seq<T>, p: T -> bool) { exists i :: 0 <= i < |s| && p(s[i]) }

  predicate RowShows(r: Row, f: PropertyFact) {
    && (f.Listed? || f.ListedBy?) && r.raw == f.raw && r.caption == f.caption
    && (f.ListedBy? ==> f.reference in r.evidence)
  }

  function RowTest(f: PropertyFact): Row -> bool { (r: Row) => RowShows(r, f) }

  ghost predicate PropertyHolds(e: PropertyEntry, f: PropertyFact) {
    match f
    case Entry(fact) => EntryHolds(e.evidence, e.scopes, fact)
    case Native(name) => e.ptpName == Some(name)
    case _ => Any(e.rows, RowTest(f))
  }

  predicate LedgerRowShows(r: LedgerRow, f: LedgerFact) {
    && (f.RowOf? || f.RowCited?) && r.value == f.value && r.caption == f.caption
    && (f.RowCited? ==> f.provenance in r.provenance)
  }

  function LedgerRowTest(f: LedgerFact): LedgerRow -> bool { (r: LedgerRow) => LedgerRowShows(r, f) }

  predicate LedgerProfileShows(p: LedgerProfile, f: LedgerFact) {
    (f.ProfileOf? || f.ProfileCited?) && p.profile == f.profile && (f.ProfileCited? ==> f.provenance in p.provenance)
  }

  function LedgerProfileTest(f: LedgerFact): LedgerProfile -> bool { (p: LedgerProfile) => LedgerProfileShows(p, f) }

  ghost predicate LedgerHolds(l: PropertyLedger, f: LedgerFact) {
    match f
    case Canonical(fact) => NameHolds(l.canonicalName, fact)
    case SourceNative(fact) => NameHolds(l.sourceNativeName, fact)
    case _ => Any(l.rows, LedgerRowTest(f)) || Any(l.profiles, LedgerProfileTest(f))
  }

  ghost predicate Holds(m: Manifest, f: Fact) {
    match f
    case OfMode(mode) => mode in m.modes
    case OfEvidence(reference) => reference in m.evidence
    case OfOperation(code, entry) => OperationHolds(m.operations, code, entry)
    case OfProperty(code, property) => code in m.properties && PropertyHolds(m.properties[code], property)
    case OfOperationLedger(code, name) => NameHolds(OperationNameAt(m, code), name)
    case OfLedger(code, ledger) => LedgerHolds(LedgerAt(m, code), ledger)
  }

  // ----- what each candidate brings -----

  predicate Cites(provenance: seq<Provenance>, reference: string) {
    exists i :: 0 <= i < |provenance| && provenance[i].reference == reference
  }

  predicate InMode(scopes: seq<Context>, mode: string) { exists i :: 0 <= i < |scopes| && scopes[i].mode == mode }

  /** Support observed in scopes, for an entry that the base has or has not. */
  predicate SupportBrings(known: bool, scopes: seq<Context>, f: EntryFact) {
    match f
    case Known => true
    case Seen(scope) => scope in scopes
    case Backed(reference) => !known && reference == CANONICAL
  }

  predicate NameBrings(name: string, provenance: seq<Provenance>, f: NameFact) {
    match f
    case Is(n) => n == name
    case CitedBy(p) => p in provenance
  }

  ghost predicate ProfileMode(profile: ValueProfile, scopes: seq<Context>, mode: string) {
    if scopes != [] then InMode(scopes, mode) else profile.mode == Some(mode)
  }

  /** The profile as it is kept: its evidence is what the candidate cites, once each and in order. */
  ghost predicate KeptProfile(profile: ValueProfile, provenance: seq<Provenance>, kept: ValueProfile) {
    && kept.connection == profile.connection && kept.mode == profile.mode && kept.rows == profile.rows
    && CitesExactly(kept.evidence, provenance)
  }

  ghost predicate CitesExactly(evidence: seq<string>, provenance: seq<Provenance>) {
    Strict(evidence, StrLe) && forall reference :: reference in evidence <==> Cites(provenance, reference)
  }

  ghost predicate LedgerBrings(c: Candidate, f: LedgerFact) {
    match c.assertion
    case PropertyName(_, name) => f.Canonical? && NameBrings(name, c.provenance, f.fact)
    case PropertySourceNativeName(_, name) => f.SourceNative? && NameBrings(name, c.provenance, f.fact)
    case PropertyValueRow(_, value, caption) =>
      (f.RowOf? || (f.RowCited? && f.provenance in c.provenance)) && f.value == value && f.caption == caption
    case PropertyValueProfile(_, profile) =>
      (f.ProfileOf? || (f.ProfileCited? && f.provenance in c.provenance))
      && KeptProfile(profile, c.provenance, f.profile)
    case _ => false
  }

  /** What a candidate that says something about a property brings to its entry. */
  predicate EntryBrings(c: Candidate, f: PropertyFact) {
    || (f.Entry? && f.fact.Backed? && Cites(c.provenance, f.fact.reference))
    || (c.assertion.PropertySourceNativeName? && f == Native(c.assertion.name))
    || (c.assertion.PropertyValueRow? && c.assertion.value.raw.Some? && (f.Listed? || f.ListedBy?)
        && f.raw == c.assertion.value.raw.value && f.caption == c.assertion.caption
        && (f.ListedBy? ==> Cites(c.provenance, f.reference)))
  }

  predicate AboutProperty(a: Assertion) {
    a.PropertyName? || a.PropertySourceNativeName? || a.PropertyValueRow? || a.PropertyValueProfile?
  }

  predicate Supported(a: Assertion) { (a.OperationSupport? || a.PropertySupport?) && a.supported }

  ghost predicate BringsMode(c: Candidate, mode: string) {
    || (Supported(c.assertion) && InMode(c.assertion.scopes, mode))
    || (c.assertion.PropertyValueProfile? && ProfileMode(c.assertion.profile, c.observedScopes, mode))
  }

  predicate BringsEvidence(c: Candidate, reference: string) {
    || (Semantic(c.assertion) && Cites(c.provenance, reference))
    || (reference == CANONICAL && (Semantic(c.assertion) || c.assertion.CameraIdentity? || Supported(c.assertion)))
  }

  /** What an accepted candidate brings to a manifest that starts from `base`. */
  ghost predicate Brings(base: Manifest, c: Candidate, f: Fact) {
    var a := c.assertion;
    match f
    case OfMode(mode) => BringsMode(c, mode)
    case OfEvidence(reference) => BringsEvidence(c, reference)
    case OfOperation(code, entry) =>
      || (a.OperationSupport? && a.supported && a.code == code
          && SupportBrings(code in base.operations, a.scopes, entry))
      || (a.OperationName? && a.code == code && entry.Backed? && Cites(c.provenance, entry.reference))
    case OfProperty(code, property) =>
      || (a.PropertySupport? && a.supported && a.code == code && property.Entry?
          && SupportBrings(code in base.properties, a.scopes, property.fact))
      || (AboutProperty(a) && a.code == code && EntryBrings(c, property))
    case OfOperationLedger(code, name) => a.OperationName? && a.code == code && NameBrings(a.name, c.provenance, name)
    case OfLedger(code, ledger) => AboutProperty(a) && a.code == code && LedgerBrings(c, ledger)
  }

  // ----- merging -----

  lemma CitedReferences(provenance: seq<Provenance>)
    ensures Strict(References(provenance), StrLe)
    ensures forall x :: x in References(provenance) <==> Cites(provenance, x)
  {
    StrOrder();
    var all := Map(provenance, ReferenceOf);
    forall x ensures x in all <==> Cites(provenance, x) {
      if x in all {
        var i :| 0 <= i < |all| && all[i] == x;
        assert provenance[i].reference == x;
      }
      if i :| 0 <= i < |provenance| && provenance[i].reference == x { assert all[i] == x; }
    }
  }

  lemma MergedEvidence(target: seq<string>, provenance: seq<Provenance>, x: string)
    ensures x in MergeEvidence(target, provenance) <==> x in target || Cites(provenance, x)
  {
    StrOrder();
    CitedReferences(provenance);
    SortDedupStrict(target + References(provenance), StrLe);
  }

  lemma MergedContexts(target: seq<Context>, incoming: seq<Context>, x: Context)
    ensures x in MergeScopes(target, incoming) <==> x in target || x in incoming
  {
    ContextOrder();
    SortDedupStrict(target + incoming, ContextLe);
  }

  lemma MergedProvenance(codec: Codec, target: seq<Provenance>, incoming: seq<Provenance>, x: Provenance)
    requires codec.Faithful()
    ensures x in MergeProvenance(codec, target, incoming) <==> x in target || x in incoming
  {
    ProvenanceOrder(codec);
    SortDedupStrict(target + incoming, codec.ProvenanceLe());
  }

  lemma {:induction false} RegisteredModes(modes: map<string, string>, scopes: seq<Context>, mode: string)
    ensures mode in RegisterModes(modes, scopes) <==> mode in modes || InMode(scopes, mode)
    decreases |scopes|
  {
    if scopes != [] {
      var n := |scopes| - 1;
      RegisteredModes(modes, scopes[..n], mode);
      if InMode(scopes[..n], mode) {
        var i :| 0 <= i < n && scopes[..n][i].mode == mode;
        assert scopes[i].mode == mode;
      }
      if InMode(scopes, mode) {
        var i :| 0 <= i < |scopes| && scopes[i].mode == mode;
        if i < n { assert scopes[..n][i].mode == mode; }
      }
    }
  }

  lemma {:induction false} RegisteredReferences(evidence: map<string, EvidenceEntry>, references: seq<string>,
                                                x: string)
    ensures x in RegisterReferences(evidence, references) <==> x in evidence || x in references
    decreases |references|
  {
    if references != [] {
      var n := |references| - 1;
      RegisteredReferences(evidence, references[..n], x);
      assert references == references[..n] + [references[n]];
    }
  }

  lemma RegisteredAll(evidence: map<string, EvidenceEntry>, provenance: seq<Provenance>, x: string)
    ensures x in RegisterAll(evidence, provenance) <==> x in evidence || Cites(provenance, x) || x == CANONICAL
  {
    CitedReferences(provenance);
    RegisteredReferences(evidence, References(provenance), x);
  }

  lemma MergedName(codec: Codec, target: Option<ProvenancedName>, name: string, provenance: seq<Provenance>,
                   f: NameFact)
    requires codec.Faithful() && MergeName(codec, target, name, provenance).Some?
    ensures NameHolds(MergeName(codec, target, name, provenance), f)
            <==> NameHolds(target, f) || NameBrings(name, provenance, f)
  {
    if target.Some? && f.CitedBy? { MergedProvenance(codec, target.value.provenance, provenance, f.provenance); }
  }

  lemma SourcedIs(profile: ValueProfile, provenance: seq<Provenance>, kept: ValueProfile)
    ensures KeptProfile(profile, provenance, kept) <==> kept == SourcedProfile(profile, provenance)
  {
    CitedReferences(provenance);
    if KeptProfile(profile, provenance, kept) {
      StrOrder();
      StrictUnique(kept.evidence, References(provenance), StrLe);
    }
  }

  // ----- rows and profiles -----

  lemma AnyPushed<T(!new)>(s: seq<T>, x: T, le: (T, T) -> bool, p: T -> bool)
    ensures Any(Sort(s + [x], le), p) <==> Any(s, p) || p(x)
  {
    var t := Sort(s + [x], le);
    SameMembers(t, s + [x]);
    if Any(t, p) {
      var i :| 0 <= i < |t| && p(t[i]);
      assert t[i] in s + [x];
    }
    if Any(s, p) {
      var i :| 0 <= i < |s| && p(s[i]);
      assert (s + [x])[i] in t;
      var j :| 0 <= j < |t| && t[j] == s[i];
    }
    if p(x) {
      assert (s + [x])[|s|] in t;
      var j :| 0 <= j < |t| && t[j] == x;
    }
  }

  lemma AnyUpdated<T>(s: seq<T>, k: nat, x: T, p: T -> bool)
    requires k < |s| && (p(s[k]) ==> p(x))
    ensures Any(s[k := x], p) <==> Any(s, p) || p(x)
  {
    if Any(s, p) {
      var i :| 0 <= i < |s| && p(s[i]);
      assert p(s[k := x][i]);
    }
    if p(x) { assert p(s[k := x][k]); }
  }

  lemma RowAdded(rows: seq<Row>, raw: int, caption: string, provenance: seq<Provenance>, f: PropertyFact)
    requires AddRow(rows, raw, caption, provenance).Some? && (f.Listed? || f.ListedBy?)
    ensures Any(AddRow(rows, raw, caption, provenance).value, RowTest(f))
            <==> Any(rows, RowTest(f)) || (f.raw == raw && f.caption == caption
                                           && (f.ListedBy? ==> Cites(provenance, f.reference)))
  {
    var k := IndexOf(rows, RowMatch(raw, caption));
    if k < |rows| {
      var x := rows[k].(evidence := MergeEvidence(rows[k].evidence, provenance));
      if f.ListedBy? { MergedEvidence(rows[k].evidence, provenance, f.reference); }
      AnyUpdated(rows, k, x, RowTest(f));
      assert RowTest(f)(rows[k]) ==> Any(rows, RowTest(f));
    } else {
      CitedReferences(provenance);
      AnyPushed(rows, Row(raw, caption, References(provenance)), RowLe, RowTest(f));
    }
  }

  lemma LedgerRowAdded(lex: Lexicon, rows: seq<LedgerRow>, value: TypedValue, caption: string,
                       provenance: seq<Provenance>, f: LedgerFact)
    requires lex.codec.Faithful() && AddLedgerRow(lex, rows, value, caption, provenance).Some?
    requires f.RowOf? || f.RowCited?
    ensures Any(AddLedgerRow(lex, rows, value, caption, provenance).value, LedgerRowTest(f))
            <==> Any(rows, LedgerRowTest(f)) || (f.value == value && f.caption == caption
                                                 && (f.RowCited? ==> f.provenance in provenance))
  {
    var k := IndexOf(rows, LedgerRowMatch(value, caption));
    if k < |rows| {
      var x := rows[k].(provenance := MergeProvenance(lex.codec, rows[k].provenance, provenance));
      if f.RowCited? { MergedProvenance(lex.codec, rows[k].provenance, provenance, f.provenance); }
      AnyUpdated(rows, k, x, LedgerRowTest(f));
      assert LedgerRowTest(f)(rows[k]) ==> Any(rows, LedgerRowTest(f));
    } else {
      AnyPushed(rows, LedgerRow(value, caption, provenance), LedgerRowLe(lex), LedgerRowTest(f));
    }
  }

  lemma LedgerProfileAdded(lex: Lexicon, profiles: seq<LedgerProfile>, profile: ValueProfile,
                           provenance: seq<Provenance>, f: LedgerFact)
    requires lex.codec.Faithful() && (f.ProfileOf? || f.ProfileCited?)
    ensures Any(AddLedgerProfile(lex, profiles, profile, provenance), LedgerProfileTest(f))
            <==> Any(profiles, LedgerProfileTest(f)) || (f.profile == profile
                                                         && (f.ProfileCited? ==> f.provenance in provenance))
  {
    var k := IndexOf(profiles, LedgerProfileMatch(profile));
    if k < |profiles| {
      var x := profiles[k].(provenance := MergeProvenance(lex.codec, profiles[k].provenance, provenance));
      if f.ProfileCited? { MergedProvenance(lex.codec, profiles[k].provenance, provenance, f.provenance); }
      AnyUpdated(profiles, k, x, LedgerProfileTest(f));
      assert LedgerProfileTest(f)(profiles[k]) ==> Any(profiles, LedgerProfileTest(f));
    } else {
      AnyPushed(profiles, LedgerProfile(profile, provenance), LedgerProfileLe(lex), LedgerProfileTest(f));
    }
  }

  // ----- one candidate -----

  /** What holds afterwards is what held before and what the candidate brings. */
  ghost predicate Adds(m: Manifest, n: Manifest, c: Candidate, f: Fact) {
    Holds(n, f) <==> Holds(m, f) || Brings(m, c, f)
  }

  lemma SupportedEntry(known: bool, evidence: seq<string>, scopes: seq<Context>, more: seq<Context>, f: EntryFact)
    requires known || (evidence == [CANONICAL] && scopes == [])
    ensures EntryHolds(evidence, MergeScopes(scopes, more), f)
            <==> (known && EntryHolds(evidence, scopes, f)) || SupportBrings(known, more, f)
  {
    if f.Seen? { MergedContexts(scopes, more, f.scope); }
  }

  /** Only the named parts differ. */
  predicate SameButOperations(m: Manifest, n: Manifest) {
    n.properties == m.properties && n.propertyLedger == m.propertyLedger
  }

  predicate SameButProperties(m: Manifest, n: Manifest) {
    n.operations == m.operations && n.operationLedger == m.operationLedger
  }

  lemma OperationAdds(m: Manifest, n: Manifest, c: Candidate, e: OperationEntry, g: OperationEntry, f: Fact)
    requires c.assertion.OperationSupport? && c.assertion.supported && SameButOperations(m, n)
    requires if c.assertion.code in m.operations then e == m.operations[c.assertion.code]
             else e.evidence == [CANONICAL] && e.scopes == []
    requires g.evidence == e.evidence && g.scopes == MergeScopes(e.scopes, c.assertion.scopes)
    requires n.operations == m.operations[c.assertion.code := g] && n.operationLedger == m.operationLedger
    requires n.modes == RegisterModes(m.modes, c.assertion.scopes) && n.evidence == RegisterCanonical(m.evidence)
    ensures Adds(m, n, c, f)
  {
    var a := c.assertion;
    if f.OfMode? {
      RegisteredModes(m.modes, a.scopes, f.mode);
    } else if f.OfOperation? && f.code == a.code {
      SupportedEntry(a.code in m.operations, e.evidence, e.scopes, a.scopes, f.entry);
    }
  }

  lemma PropertyAdds(m: Manifest, n: Manifest, c: Candidate, e: PropertyEntry, g: PropertyEntry, f: Fact)
    requires c.assertion.PropertySupport? && c.assertion.supported && SameButProperties(m, n)
    requires if c.assertion.code in m.properties then e == m.properties[c.assertion.code]
             else e.evidence == [CANONICAL] && e.scopes == [] && e.rows == [] && e.ptpName == None
    requires g.evidence == e.evidence && g.scopes == MergeScopes(e.scopes, c.assertion.scopes)
             && g.rows == e.rows && g.ptpName == e.ptpName
    requires n.properties == m.properties[c.assertion.code := g] && n.propertyLedger == m.propertyLedger
    requires n.modes == RegisterModes(m.modes, c.assertion.scopes) && n.evidence == RegisterCanonical(m.evidence)
    ensures Adds(m, n, c, f)
  {
    var a := c.assertion;
    if f.OfMode? {
      RegisteredModes(m.modes, a.scopes, f.mode);
    } else if f.OfProperty? && f.code == a.code {
      SupportedProperty(a.code in m.properties, e, g, a.scopes, f.property);
    }
  }

  lemma SupportedProperty(known: bool, e: PropertyEntry, g: PropertyEntry, scopes: seq<Context>, f: PropertyFact)
    requires known || (e.evidence == [CANONICAL] && e.scopes == [] && e.rows == [] && e.ptpName == None)
    requires g.evidence == e.evidence && g.scopes == MergeScopes(e.scopes, scopes)
             && g.rows == e.rows && g.ptpName == e.ptpName
    ensures PropertyHolds(g, f)
            <==> (known && PropertyHolds(e, f)) || (f.Entry? && SupportBrings(known, scopes, f.fact))
  {
    if f.Entry? { SupportedEntry(known, e.evidence, e.scopes, scopes, f.fact); }
  }

  /** The evidence grew by what is cited, as far as the fact can tell. */
  predicate Grew(before: seq<string>, after: seq<string>, provenance: seq<Provenance>, f: EntryFact) {
    f.Backed? ==> (f.reference in after <==> f.reference in before || Cites(provenance, f.reference))
  }

  lemma EvidenceGrew(before: seq<string>, provenance: seq<Provenance>, f: EntryFact)
    ensures Grew(before, MergeEvidence(before, provenance), provenance, f)
  {
    if f.Backed? { MergedEvidence(before, provenance, f.reference); }
  }

  lemma OperationEntryAdds(before: map<string, OperationEntry>, k: string, g: OperationEntry,
                           provenance: seq<Provenance>, code: string, f: EntryFact)
    requires k in before && g.scopes == before[k].scopes && Grew(before[k].evidence, g.evidence, provenance, f)
    ensures OperationHolds(before[k := g], code, f)
            <==> OperationHolds(before, code, f) || (code == k && f.Backed? && Cites(provenance, f.reference))
  {}

  /** The manifest with one operation entry and its name replaced, on the given evidence. */
  function Renamed(m: Manifest, code: string, g: OperationEntry, merged: Option<ProvenancedName>,
                   provenance: seq<Provenance>): Manifest {
    Manifest(m.camera, m.modes, m.operations[code := g], m.properties, m.operationLedger[code := merged],
             m.propertyLedger, RegisterAll(m.evidence, provenance), m.rest)
  }

  lemma RenamedAdds(m: Manifest, c: Candidate, g: OperationEntry, merged: Option<ProvenancedName>, f: Fact)
    requires c.assertion.OperationName? && c.assertion.code in m.operations
    requires g.scopes == m.operations[c.assertion.code].scopes
    requires f.OfOperation? ==> Grew(m.operations[c.assertion.code].evidence, g.evidence, c.provenance, f.entry)
    requires f.OfOperationLedger? ==>
      (NameHolds(merged, f.name) <==> NameHolds(OperationNameAt(m, c.assertion.code), f.name)
                                      || NameBrings(c.assertion.name, c.provenance, f.name))
    ensures Adds(m, Renamed(m, c.assertion.code, g, merged, c.provenance), c, f)
  {
    var a := c.assertion;
    match f {
      case OfEvidence(reference) => RegisteredAll(m.evidence, c.provenance, reference);
      case OfOperation(code, entry) => OperationEntryAdds(m.operations, a.code, g, c.provenance, code, entry);
      case _ =>
    }
  }

  lemma OperationNameAdds(lex: Lexicon, m: Manifest, n: Manifest, c: Candidate, f: Fact)
    requires lex.codec.Faithful() && c.assertion.OperationName?
    requires ApplyOperationName(lex, m, c.assertion.code, c.assertion.name, c.provenance) == Ok(n)
    ensures Adds(m, n, c, f)
  {
    var a, e := c.assertion, m.operations[c.assertion.code];
    var g := e.(name := a.name, evidence := MergeEvidence(e.evidence, c.provenance));
    var merged := MergeName(lex.codec, OperationNameAt(m, a.code), a.name, c.provenance);
    assert n == Renamed(m, a.code, g, merged, c.provenance);
    if f.OfOperation? { EvidenceGrew(e.evidence, c.provenance, f.entry); }
    if f.OfOperationLedger? { MergedName(lex.codec, OperationNameAt(m, a.code), a.name, c.provenance, f.name); }
    RenamedAdds(m, c, g, merged, f);
  }

  /** What a candidate about a property does to its entry and to its ledger. */
  ghost predicate EntryAdds(e: PropertyEntry, g: PropertyEntry, c: Candidate, f: PropertyFact) {
    PropertyHolds(g, f) <==> PropertyHolds(e, f) || EntryBrings(c, f)
  }

  ghost predicate LedgerAdds(l: PropertyLedger, k: PropertyLedger, c: Candidate, f: LedgerFact) {
    LedgerHolds(k, f) <==> LedgerHolds(l, f) || LedgerBrings(c, f)
  }

  /** The manifest with one property entry and its ledger replaced, on the given evidence. */
  function Changed(m: Manifest, code: string, g: PropertyEntry, k: PropertyLedger, modes: map<string, string>,
                   provenance: seq<Provenance>): Manifest {
    Manifest(m.camera, modes, m.operations, m.properties[code := g], m.operationLedger, m.propertyLedger[code := k],
             RegisterAll(m.evidence, provenance), m.rest)
  }

  lemma EntryChanged(m: Manifest, c: Candidate, g: PropertyEntry, k: PropertyLedger, modes: map<string, string>,
                     code: string, f: PropertyFact)
    requires AboutProperty(c.assertion) && c.assertion.code in m.properties
    requires EntryAdds(m.properties[c.assertion.code], g, c, f)
    ensures Adds(m, Changed(m, c.assertion.code, g, k, modes, c.provenance), c, OfProperty(code, f))
  {}

  lemma LedgerChanged(m: Manifest, c: Candidate, g: PropertyEntry, k: PropertyLedger, modes: map<string, string>,
                      code: string, f: LedgerFact)
    requires AboutProperty(c.assertion) && LedgerAdds(LedgerAt(m, c.assertion.code), k, c, f)
    ensures Adds(m, Changed(m, c.assertion.code, g, k, modes, c.provenance), c, OfLedger(code, f))
  {}

  /** Everything but the entry and the ledger, where no mode is brought. */
  lemma RestChanged(m: Manifest, c: Candidate, g: PropertyEntry, k: PropertyLedger, f: Fact)
    requires AboutProperty(c.assertion) && !c.assertion.PropertyValueProfile? && !f.OfProperty? && !f.OfLedger?
    ensures Adds(m, Changed(m, c.assertion.code, g, k, m.modes, c.provenance), c, f)
  {
    if f.OfEvidence? { RegisteredAll(m.evidence, c.provenance, f.reference); }
  }

  lemma ModesChanged(m: Manifest, c: Candidate, g: PropertyEntry, k: PropertyLedger, f: Fact)
    requires c.assertion.PropertyValueProfile? && !f.OfProperty? && !f.OfLedger?
    ensures Adds(m, Changed(m, c.assertion.code, g, k, ProfileModes(m.modes, c.assertion.profile, c.observedScopes),
                            c.provenance), c, f)
  {
    if f.OfEvidence? { RegisteredAll(m.evidence, c.provenance, f.reference); }
    if f.OfMode? { ProfileModesAre(m.modes, c, f.mode); }
  }

  lemma NameAddsLedger(codec: Codec, l: PropertyLedger, k: PropertyLedger, c: Candidate, f: LedgerFact)
    requires codec.Faithful() && (c.assertion.PropertyName? || c.assertion.PropertySourceNativeName?)
    requires var target := if c.assertion.PropertyName? then l.canonicalName else l.sourceNativeName;
      var merged := MergeName(codec, target, c.assertion.name, c.provenance);
      merged.Some? && k == if c.assertion.PropertyName? then l.(canonicalName := merged)
                           else l.(sourceNativeName := merged)
    ensures LedgerAdds(l, k, c, f)
  {
    if f.Canonical? && c.assertion.PropertyName? {
      MergedName(codec, l.canonicalName, c.assertion.name, c.provenance, f.fact);
    } else if f.SourceNative? && c.assertion.PropertySourceNativeName? {
      MergedName(codec, l.sourceNativeName, c.assertion.name, c.provenance, f.fact);
    }
  }

  lemma RowAddsLedger(lex: Lexicon, l: PropertyLedger, k: PropertyLedger, c: Candidate, f: LedgerFact)
    requires lex.codec.Faithful() && c.assertion.PropertyValueRow? && k == l.(rows := k.rows)
    requires AddLedgerRow(lex, l.rows, c.assertion.value, c.assertion.caption, c.provenance) == Some(k.rows)
    ensures LedgerAdds(l, k, c, f)
  {
    RowBrings(c, f);
    if f.RowOf? || f.RowCited? {
      LedgerRowAdded(lex, l.rows, c.assertion.value, c.assertion.caption, c.provenance, f);
    } else {
      NoRows(l.rows, f);
      NoRows(k.rows, f);
    }
  }

  lemma RowBrings(c: Candidate, f: LedgerFact)
    requires c.assertion.PropertyValueRow?
    ensures LedgerBrings(c, f) <==> (f.RowOf? || (f.RowCited? && f.provenance in c.provenance))
                                    && f.value == c.assertion.value && f.caption == c.assertion.caption
  {}

  lemma NoRows(rows: seq<LedgerRow>, f: LedgerFact)
    requires !f.RowOf? && !f.RowCited?
    ensures !Any(rows, LedgerRowTest(f))
  {}

  lemma NoProfiles(profiles: seq<LedgerProfile>, f: LedgerFact)
    requires !f.ProfileOf? && !f.ProfileCited?
    ensures !Any(profiles, LedgerProfileTest(f))
  {}

  lemma ProfileBrings(c: Candidate, f: LedgerFact, kept: ValueProfile)
    requires c.assertion.PropertyValueProfile? && kept == SourcedProfile(c.assertion.profile, c.provenance)
    ensures LedgerBrings(c, f) <==> (f.ProfileOf? || (f.ProfileCited? && f.provenance in c.provenance))
                                    && f.profile == kept
  {
    if f.ProfileOf? || f.ProfileCited? { SourcedIs(c.assertion.profile, c.provenance, f.profile); }
  }

  lemma ProfileAddsLedger(lex: Lexicon, l: PropertyLedger, k: PropertyLedger, c: Candidate, kept: ValueProfile,
                          f: LedgerFact)
    requires lex.codec.Faithful() && c.assertion.PropertyValueProfile?
             && kept == SourcedProfile(c.assertion.profile, c.provenance)
    requires k == l.(profiles := k.profiles)
             && k.profiles == AddLedgerProfile(lex, l.profiles, kept, c.provenance)
    ensures LedgerAdds(l, k, c, f)
  {
    ProfileBrings(c, f, kept);
    if f.ProfileOf? || f.ProfileCited? {
      LedgerProfileAdded(lex, l.profiles, kept, c.provenance, f);
    } else {
      NoProfiles(l.profiles, f);
      NoProfiles(k.profiles, f);
    }
  }

  lemma EntryAddsEvidence(e: PropertyEntry, g: PropertyEntry, c: Candidate, f: PropertyFact)
    requires c.assertion.PropertyName? || c.assertion.PropertyValueProfile?
             || (c.assertion.PropertySourceNativeName? && (e.ptpName.Some? ==> e.ptpName == Some(c.assertion.name)))
    requires g.rows == e.rows && g.scopes == e.scopes
    requires f.Entry? ==> Grew(e.evidence, g.evidence, c.provenance, f.fact)
    requires g.ptpName == if c.assertion.PropertySourceNativeName? then Some(c.assertion.name) else e.ptpName
    ensures EntryAdds(e, g, c, f)
  {}

  lemma EntryAddsRow(e: PropertyEntry, g: PropertyEntry, c: Candidate, f: PropertyFact)
    requires c.assertion.PropertyValueRow? && g.ptpName == e.ptpName && g.scopes == e.scopes
    requires f.Entry? ==> Grew(e.evidence, g.evidence, c.provenance, f.fact)
    requires f.Listed? || f.ListedBy? ==>
      (Any(g.rows, RowTest(f))
       <==> Any(e.rows, RowTest(f)) || (c.assertion.value.raw == Some(f.raw) && f.caption == c.assertion.caption
                                        && (f.ListedBy? ==> Cites(c.provenance, f.reference))))
    ensures EntryAdds(e, g, c, f)
  {}

  lemma TypedRowAdded(rows: seq<Row>, value: TypedValue, caption: string, provenance: seq<Provenance>, f: PropertyFact)
    requires AddTypedRow(rows, value, caption, provenance).Some? && (f.Listed? || f.ListedBy?)
    ensures Any(AddTypedRow(rows, value, caption, provenance).value, RowTest(f))
            <==> Any(rows, RowTest(f)) || (value.raw == Some(f.raw) && f.caption == caption
                                           && (f.ListedBy? ==> Cites(provenance, f.reference)))
  {
    if value.raw.Some? { RowAdded(rows, value.raw.value, caption, provenance, f); }
  }

  lemma ProfileModesAre(modes: map<string, string>, c: Candidate, mode: string)
    requires c.assertion.PropertyValueProfile?
    ensures mode in ProfileModes(modes, c.assertion.profile, c.observedScopes)
            <==> mode in modes || BringsMode(c, mode)
  {
    RegisteredModes(modes, c.observedScopes, mode);
  }

  lemma NamedAdds(lex: Lexicon, m: Manifest, c: Candidate, n: Manifest, f: Fact)
    requires lex.codec.Faithful() && c.assertion.PropertyName?
    requires ApplyPropertyName(lex, m, c.assertion.code, c.assertion.name, c.provenance) == Ok(n)
    ensures Adds(m, n, c, f)
  {
    var a, e, l := c.assertion, m.properties[c.assertion.code], LedgerAt(m, c.assertion.code);
    var g := e.(name := a.name, evidence := MergeEvidence(e.evidence, c.provenance));
    var k := l.(canonicalName := MergeName(lex.codec, l.canonicalName, a.name, c.provenance));
    assert n == Changed(m, a.code, g, k, m.modes, c.provenance);
    if f.OfProperty? {
      if f.property.Entry? { EvidenceGrew(e.evidence, c.provenance, f.property.fact); }
      EntryAddsEvidence(e, g, c, f.property);
      EntryChanged(m, c, g, k, m.modes, f.code, f.property);
    } else if f.OfLedger? {
      NameAddsLedger(lex.codec, l, k, c, f.ledger);
      LedgerChanged(m, c, g, k, m.modes, f.code, f.ledger);
    } else {
      RestChanged(m, c, g, k, f);
    }
  }

  lemma NativelyNamedAdds(lex: Lexicon, m: Manifest, c: Candidate, n: Manifest, f: Fact)
    requires lex.codec.Faithful() && c.assertion.PropertySourceNativeName?
    requires ApplyNativeName(lex, m, c.assertion.code, c.assertion.name, c.provenance) == Ok(n)
    ensures Adds(m, n, c, f)
  {
    var a, e, l := c.assertion, m.properties[c.assertion.code], LedgerAt(m, c.assertion.code);
    var g := e.(ptpName := Some(a.name), evidence := MergeEvidence(e.evidence, c.provenance));
    var k := l.(sourceNativeName := MergeName(lex.codec, l.sourceNativeName, a.name, c.provenance));
    assert n == Changed(m, a.code, g, k, m.modes, c.provenance);
    if f.OfProperty? {
      if f.property.Entry? { EvidenceGrew(e.evidence, c.provenance, f.property.fact); }
      EntryAddsEvidence(e, g, c, f.property);
      EntryChanged(m, c, g, k, m.modes, f.code, f.property);
    } else if f.OfLedger? {
      NameAddsLedger(lex.codec, l, k, c, f.ledger);
      LedgerChanged(m, c, g, k, m.modes, f.code, f.ledger);
    } else {
      RestChanged(m, c, g, k, f);
    }
  }

  lemma RowChanges(lex: Lexicon, m: Manifest, c: Candidate, n: Manifest)
    requires c.assertion.PropertyValueRow?
    requires ApplyRow(lex, m, c.assertion.code, c.assertion.value, c.assertion.caption, c.provenance) == Ok(n)
    ensures c.assertion.code in m.properties
    ensures var a, e, l := c.assertion, m.properties[c.assertion.code], LedgerAt(m, c.assertion.code);
      var rows, listed := AddTypedRow(e.rows, a.value, a.caption, c.provenance),
                          AddLedgerRow(lex, l.rows, a.value, a.caption, c.provenance);
      && rows.Some? && listed.Some?
      && n == Changed(m, a.code, e.(rows := rows.value, evidence := MergeEvidence(e.evidence, c.provenance)),
                      l.(rows := listed.value), m.modes, c.provenance)
  {}

  lemma RowEntryAdds(e: PropertyEntry, g: PropertyEntry, c: Candidate, f: PropertyFact)
    requires c.assertion.PropertyValueRow?
    requires AddTypedRow(e.rows, c.assertion.value, c.assertion.caption, c.provenance).Some?
    requires g == e.(rows := AddTypedRow(e.rows, c.assertion.value, c.assertion.caption, c.provenance).value,
                     evidence := MergeEvidence(e.evidence, c.provenance))
    ensures EntryAdds(e, g, c, f)
  {
    if f.Entry? { EvidenceGrew(e.evidence, c.provenance, f.fact); }
    if f.Listed? || f.ListedBy? {
      TypedRowAdded(e.rows, c.assertion.value, c.assertion.caption, c.provenance, f);
    }
    EntryAddsRow(e, g, c, f);
  }

  lemma RowAdds(lex: Lexicon, m: Manifest, c: Candidate, n: Manifest, f: Fact)
    requires lex.codec.Faithful() && c.assertion.PropertyValueRow?
    requires ApplyRow(lex, m, c.assertion.code, c.assertion.value, c.assertion.caption, c.provenance) == Ok(n)
    ensures Adds(m, n, c, f)
  {
    RowChanges(lex, m, c, n);
    var a, e, l := c.assertion, m.properties[c.assertion.code], LedgerAt(m, c.assertion.code);
    var g := e.(rows := AddTypedRow(e.rows, a.value, a.caption, c.provenance).value,
                evidence := MergeEvidence(e.evidence, c.provenance));
    var k := l.(rows := AddLedgerRow(lex, l.rows, a.value, a.caption, c.provenance).value);
    if f.OfProperty? {
      RowEntryAdds(e, g, c, f.property);
      EntryChanged(m, c, g, k, m.modes, f.code, f.property);
    } else if f.OfLedger? {
      RowAddsLedger(lex, l, k, c, f.ledger);
      LedgerChanged(m, c, g, k, m.modes, f.code, f.ledger);
    } else {
      RestChanged(m, c, g, k, f);
    }
  }

  lemma ProfileAdds(lex: Lexicon, m: Manifest, c: Candidate, n: Manifest, f: Fact)
    requires lex.codec.Faithful() && c.assertion.PropertyValueProfile?
    requires ApplyProfile(lex, m, c.assertion.code, c.assertion.profile, c.provenance, c.observedScopes) == Ok(n)
    ensures Adds(m, n, c, f)
  {
    var a, e, l := c.assertion, m.properties[c.assertion.code], LedgerAt(m, c.assertion.code);
    var kept := SourcedProfile(a.profile, c.provenance);
    var g := e.(facts := e.facts.(profiles := SortProfiles(PutProfile(e.facts.profiles, kept))),
                evidence := MergeEvidence(e.evidence, c.provenance));
    var k := l.(profiles := AddLedgerProfile(lex, l.profiles, kept, c.provenance));
    var modes := ProfileModes(m.modes, a.profile, c.observedScopes);
    assert n == Changed(m, a.code, g, k, modes, c.provenance);
    if f.OfProperty? {
      if f.property.Entry? { EvidenceGrew(e.evidence, c.provenance, f.property.fact); }
      EntryAddsEvidence(e, g, c, f.property);
      EntryChanged(m, c, g, k, modes, f.code, f.property);
    } else if f.OfLedger? {
      ProfileAddsLedger(lex, l, k, c, kept, f.ledger);
      LedgerChanged(m, c, g, k, modes, f.code, f.ledger);
    } else {
      ModesChanged(m, c, g, k, f);
    }
  }

  lemma OperationSupportAdds(lex: Lexicon, m: Manifest, c: Candidate, n: Manifest, f: Fact)
    requires c.assertion.OperationSupport? && ApplyCandidate(lex, m, c) == Ok(n)
    ensures Adds(m, n, c, f)
  {
    var a := c.assertion;
    if a.supported { OperationAdds(m, n, c, OperationAt(lex, m, a.code, a.scopes), n.operations[a.code], f); }
  }

  lemma PropertySupportAdds(lex: Lexicon, m: Manifest, c: Candidate, n: Manifest, f: Fact)
    requires c.assertion.PropertySupport? && ApplyCandidate(lex, m, c) == Ok(n)
    ensures Adds(m, n, c, f)
  {
    var a := c.assertion;
    if a.supported { PropertyAdds(m, n, c, PropertyAt(lex, m, a.code), n.properties[a.code], f); }
  }

  lemma IdentityAdds(lex: Lexicon, m: Manifest, c: Candidate, n: Manifest, f: Fact)
    requires c.assertion.CameraIdentity? && ApplyCandidate(lex, m, c) == Ok(n)
    ensures Adds(m, n, c, f)
  {}

  lemma CandidateAdds(lex: Lexicon, m: Manifest, c: Candidate, n: Manifest, f: Fact)
    requires lex.codec.Faithful() && ApplyCandidate(lex, m, c) == Ok(n)
    ensures Adds(m, n, c, f)
  {
    match c.assertion {
      case CameraIdentity(_) => IdentityAdds(lex, m, c, n, f);
      case OperationSupport(_, _, _, _) => OperationSupportAdds(lex, m, c, n, f);
      case OperationName(_, _) => OperationNameAdds(lex, m, n, c, f);
      case PropertySupport(_, _, _, _, _, _, _, _, _) => PropertySupportAdds(lex, m, c, n, f);
      case PropertyName(_, _) => NamedAdds(lex, m, c, n, f);
      case PropertySourceNativeName(_, _) => NativelyNamedAdds(lex, m, c, n, f);
      case PropertyValueRow(_, _, _) => RowAdds(lex, m, c, n, f);
      case PropertyValueProfile(_, _) => ProfileAdds(lex, m, c, n, f);
    }
  }

  // ----- all of them -----

  ghost predicate SomeBrings(base: Manifest, cs: seq<Candidate>, f: Fact) {
    exists i :: 0 <= i < |cs| && Brings(base, cs[i], f)
  }

  lemma BringsLast(base: Manifest, cs: seq<Candidate>, f: Fact)
    requires cs != []
    ensures var n := |cs| - 1; SomeBrings(base, cs, f) <==> SomeBrings(base, cs[..n], f) || Brings(base, cs[n], f)
  {
    var n := |cs| - 1;
    if SomeBrings(base, cs, f) {
      var i :| 0 <= i < |cs| && Brings(base, cs[i], f);
      if i < n { assert Brings(base, cs[..n][i], f); }
    }
    if SomeBrings(base, cs[..n], f) {
      var i :| 0 <= i < n && Brings(base, cs[..n][i], f);
      assert Brings(base, cs[i], f);
    }
  }

  /** What a candidate brings to a later manifest it brought to the base, or someone before it did. */
  lemma BringsLater(base: Manifest, m: Manifest, cs: seq<Candidate>, c: Candidate, f: Fact)
    requires forall g: Fact :: Holds(m, g) <==> Holds(base, g) || SomeBrings(base, cs, g)
    ensures Holds(m, f) || Brings(m, c, f) <==> Holds(m, f) || Brings(base, c, f)
  {
    var a := c.assertion;
    if f.OfOperation? && a.OperationSupport? {
      assert Holds(m, OfOperation(f.code, Known)) <==> f.code in m.operations;
      assert Holds(base, OfOperation(f.code, Known)) <==> f.code in base.operations;
      if f.code in m.operations && f.code !in base.operations { NewBacked(base, cs, f.code, true); }
      if f.code in base.operations { assert f.code in m.operations; }
    }
    if f.OfProperty? && a.PropertySupport? {
      assert Holds(m, OfProperty(f.code, Entry(Known))) <==> f.code in m.properties;
      assert Holds(base, OfProperty(f.code, Entry(Known))) <==> f.code in base.properties;
      if f.code in m.properties && f.code !in base.properties { NewBacked(base, cs, f.code, false); }
      if f.code in base.properties { assert f.code in m.properties; }
    }
  }

  /** An entry that is new is backed by the observation that brought it. */
  lemma NewBacked(base: Manifest, cs: seq<Candidate>, code: string, operation: bool)
    requires operation ==> code !in base.operations && SomeBrings(base, cs, OfOperation(code, Known))
    requires !operation ==> code !in base.properties && SomeBrings(base, cs, OfProperty(code, Entry(Known)))
    ensures operation ==> SomeBrings(base, cs, OfOperation(code, Backed(CANONICAL)))
    ensures !operation ==> SomeBrings(base, cs, OfProperty(code, Entry(Backed(CANONICAL))))
  {
    if operation {
      var i :| 0 <= i < |cs| && Brings(base, cs[i], OfOperation(code, Known));
      assert Brings(base, cs[i], OfOperation(code, Backed(CANONICAL)));
    } else {
      var i :| 0 <= i < |cs| && Brings(base, cs[i], OfProperty(code, Entry(Known)));
      assert Brings(base, cs[i], OfProperty(code, Entry(Backed(CANONICAL))));
    }
  }

  /** After the candidates are applied a fact holds if it held before or one of them brings it, and only then. */
  lemma {:induction false} AllAdd(lex: Lexicon, base: Manifest, cs: seq<Candidate>, n: Manifest)
    requires lex.codec.Faithful() && ApplyAll(lex, base, cs) == Ok(n)
    ensures forall f: Fact :: Holds(n, f) <==> Holds(base, f) || SomeBrings(base, cs, f)
    decreases |cs|
  {
    if cs != [] {
      var k := |cs| - 1;
      var m := ApplyAll(lex, base, cs[..k]).value;
      AllAdd(lex, base, cs[..k], m);
      forall f: Fact ensures Holds(n, f) <==> Holds(base, f) || SomeBrings(base, cs, f) {
        CandidateAdds(lex, m, cs[k], n, f);
        BringsLater(base, m, cs[..k], cs[k], f);
        BringsLast(base, cs, f);
      }
    }
  }

  /** The same of a whole review. */
  lemma ReviewedExactly(lex: Lexicon, valid: Manifest -> bool, base: Manifest, p: Proposal, r: ProposalReview,
                        y: Manifest, f: Fact)
    requires lex.codec.Faithful() && ApplyReview(lex, valid, base, p, r) == Ok(y)
    ensures Holds(y, f) <==> Holds(base, f) || SomeBrings(base, Agenda(p, r), f)
  {
    AllAdd(lex, base, Agenda(p, r), y);
  }
}
