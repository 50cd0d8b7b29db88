// What a review can and cannot change.
module ReviewFrame {
  import opened Options
  import opened Observation
  import opened Ordering
  import opened Sorting
  import opened Bags
  import opened Folds
  import opened Proposal
  import opened ProposalIntegrity
  import opened Review

  // ----- only accepted support matters -----

  /** Evidence that something is not supported is recorded in the proposal, never in the manifest. */
  predicate Matters(c: Candidate) {
    !(c.assertion.OperationSupport? && !c.assertion.supported)
      && !(c.assertion.PropertySupport? && !c.assertion.supported)
  }

  lemma {:induction false} SkipIdle<S(!new), C(!new), E>(step: (S, C) -> Result<S, E>, s: S, cs: seq<C>,
                                                         matters: C -> bool)
    requires forall x, c :: c in cs && !matters(c) ==> step(x, c) == Ok(x)
    ensures Fold(step, s, cs) == Fold(step, s, Filter(cs, matters))
    decreases |cs|
  {
    if cs != [] {
      var n := |cs| - 1;
      assert forall c :: c in cs[..n] ==> c in cs;
      assert cs[n] in cs;
      SkipIdle(step, s, cs[..n], matters);
      if matters(cs[n]) {
        assert Filter(cs, matters)[..|Filter(cs, matters)| - 1] == Filter(cs[..n], matters);
      } else {
        assert Filter(cs, matters) == Filter(cs[..n], matters);
      }
    }
  }

  lemma UnsupportedIgnored(lex: Lexicon, m: Manifest, cs: seq<Candidate>)
    ensures ApplyAll(lex, m, cs) == ApplyAll(lex, m, Filter(cs, Matters))
  {
    var step := Applier(lex);
    forall x: Manifest, c: Candidate | c in cs && !Matters(c) ensures step(x, c) == Ok(x) {}
    SkipIdle(step, m, cs, Matters);
  }

  /** Two reviews that accept the same supported candidates do the same to a manifest. */
  lemma OnlyAcceptedMatters(lex: Lexicon, valid: Manifest -> bool, base: Manifest,
                            p: Proposal, r: ProposalReview, q: Proposal, s: ProposalReview)
    requires Objection(lex, p, r).None? && Objection(lex, q, s).None?
    requires Filter(Agenda(p, r), Matters) == Filter(Agenda(q, s), Matters)
    ensures ApplyReview(lex, valid, base, p, r) == ApplyReview(lex, valid, base, q, s)
  {
    UnsupportedIgnored(lex, base, Agenda(p, r));
    UnsupportedIgnored(lex, base, Agenda(q, s));
  }

  // ----- curated entries -----

  function KeepsOperation(code: string, detail: OperationDetail): Manifest -> bool {
    (m: Manifest) => code in m.operations && m.operations[code].detail == detail
  }

  function KeepsProperty(code: string, detail: PropertyDetail): Manifest -> bool {
    (m: Manifest) => code in m.properties && m.properties[code].detail == detail
  }

  function KeepsOperationName(code: string, name: string): Manifest -> bool {
    (m: Manifest) => code in m.operations && m.operations[code].name == name
  }

  function KeepsPropertyName(code: string, name: string): Manifest -> bool {
    (m: Manifest) => code in m.properties && m.properties[code].name == name
  }

  /** Neither the placeholder nor the generated standard name. */
  predicate Curated(code: string, name: string, standard: Option<string>) {
    name != Placeholder(code) && standard != Some(name)
  }

  lemma NamingFrame(lex: Lexicon, m: Manifest, code: string, name: string, provenance: seq<Provenance>)
    ensures ApplyOperationName(lex, m, code, name, provenance).Ok? ==>
      ApplyOperationName(lex, m, code, name, provenance).value.properties == m.properties
    ensures ApplyPropertyName(lex, m, code, name, provenance).Ok? ==>
      ApplyPropertyName(lex, m, code, name, provenance).value.operations == m.operations
    ensures ApplyNativeName(lex, m, code, name, provenance).Ok? ==>
      ApplyNativeName(lex, m, code, name, provenance).value.operations == m.operations
  {}

  lemma RowFrame(lex: Lexicon, m: Manifest, code: string, value: TypedValue, caption: string,
                 provenance: seq<Provenance>)
    requires ApplyRow(lex, m, code, value, caption, provenance).Ok?
    ensures ApplyRow(lex, m, code, value, caption, provenance).value.operations == m.operations
  {}

  lemma ProfileFrame(lex: Lexicon, m: Manifest, code: string, profile: ValueProfile, provenance: seq<Provenance>,
                     scopes: seq<Context>)
    requires ApplyProfile(lex, m, code, profile, provenance, scopes).Ok?
    ensures ApplyProfile(lex, m, code, profile, provenance, scopes).value.operations == m.operations
  {}

  lemma PropertySupportFrame(lex: Lexicon, m: Manifest, a: Assertion)
    requires a.PropertySupport? && ApplyProperty(lex, m, a).Ok?
    ensures ApplyProperty(lex, m, a).value.operations == m.operations
  {}

  predicate AboutOperations(c: Candidate) { c.assertion.OperationSupport? || c.assertion.OperationName? }

  /** Only candidates about operations change operations. */
  lemma OperationsUntouched(lex: Lexicon, m: Manifest, c: Candidate)
    requires !AboutOperations(c) && ApplyCandidate(lex, m, c).Ok?
    ensures ApplyCandidate(lex, m, c).value.operations == m.operations
  {
    var a := c.assertion;
    if a.CameraIdentity? { assert ApplyIdentity(m, a.camera).value.operations == m.operations; }
    else if a.PropertySupport? && a.supported { PropertySupportFrame(lex, m, a); }
    else if a.PropertyName? { NamingFrame(lex, m, a.code, a.name, c.provenance); }
    else if a.PropertySourceNativeName? { NamingFrame(lex, m, a.code, a.name, c.provenance); }
    else if a.PropertyValueRow? { RowFrame(lex, m, a.code, a.value, a.caption, c.provenance); }
    else if a.PropertyValueProfile? { ProfileFrame(lex, m, a.code, a.profile, c.provenance, c.observedScopes); }
  }

  /** And neither they nor identities change properties. */
  lemma PropertiesUntouched(lex: Lexicon, m: Manifest, c: Candidate)
    requires (AboutOperations(c) || c.assertion.CameraIdentity?) && ApplyCandidate(lex, m, c).Ok?
    ensures ApplyCandidate(lex, m, c).value.properties == m.properties
  {
    var a := c.assertion;
    if a.CameraIdentity? { assert ApplyIdentity(m, a.camera).value.properties == m.properties; }
    else if a.OperationName? { NamingFrame(lex, m, a.code, a.name, c.provenance); }
    else if a.supported { assert ApplyOperation(lex, m, a.code, a.scopes).properties == m.properties; }
  }

  predicate KeepsOperationEntry(lex: Lexicon, code: string, e: OperationEntry, f: OperationEntry) {
    f.detail == e.detail && (Curated(code, e.name, lex.operationName(code)) ==> f.name == e.name)
  }

  predicate KeepsPropertyEntry(lex: Lexicon, code: string, e: PropertyEntry, f: PropertyEntry) {
    f.detail == e.detail && (Curated(code, e.name, lex.propertyName(code)) ==> f.name == e.name)
  }

  lemma OperationNameStep(lex: Lexicon, m: Manifest, k: string, name: string, provenance: seq<Provenance>, code: string)
    requires code in m.operations && ApplyOperationName(lex, m, k, name, provenance).Ok?
    ensures var n := ApplyOperationName(lex, m, k, name, provenance).value;
      code in n.operations && KeepsOperationEntry(lex, code, m.operations[code], n.operations[code])
      && n.operations[code].scopes == m.operations[code].scopes && n.operations.Keys == m.operations.Keys
  {}

  lemma OperationSupportStep(lex: Lexicon, m: Manifest, k: string, scopes: seq<Context>, code: string)
    ensures var n := ApplyOperation(lex, m, k, scopes);
      && (code in m.operations ==> code in n.operations
                                   && KeepsOperationEntry(lex, code, m.operations[code], n.operations[code]))
      && n.operations.Keys == m.operations.Keys + {k}
      && OperationScopes(n, code) == OperationScopes(m, code) + (if k == code then Elements(scopes) else {})
  {
    var n, entry := ApplyOperation(lex, m, k, scopes), OperationAt(lex, m, k, scopes);
    MergedScopes(entry.scopes, scopes);
    OneOperation(lex, m, n, k, n.operations[k], Elements(scopes), code);
  }

  lemma OneOperation(lex: Lexicon, m: Manifest, n: Manifest, k: string, e: OperationEntry, more: set<Context>,
                     code: string)
    requires n.operations == m.operations[k := e]
    requires k in m.operations ==> KeepsOperationEntry(lex, k, m.operations[k], e)
    requires Elements(e.scopes) == OperationScopes(m, k) + more
    ensures code in m.operations ==> code in n.operations
                                     && KeepsOperationEntry(lex, code, m.operations[code], n.operations[code])
    ensures n.operations.Keys == m.operations.Keys + {k}
    ensures OperationScopes(n, code) == OperationScopes(m, code) + (if k == code then more else {})
  {}

  lemma OperationStep(lex: Lexicon, m: Manifest, c: Candidate, code: string)
    requires code in m.operations && ApplyCandidate(lex, m, c).Ok?
    ensures var n := ApplyCandidate(lex, m, c).value;
      code in n.operations && KeepsOperationEntry(lex, code, m.operations[code], n.operations[code])
  {
    var a := c.assertion;
    if !AboutOperations(c) { OperationsUntouched(lex, m, c); }
    else if a.OperationName? { OperationNameStep(lex, m, a.code, a.name, c.provenance, code); }
    else if a.supported { OperationSupportStep(lex, m, a.code, a.scopes, code); }
  }

  lemma PropertyNameStep(lex: Lexicon, m: Manifest, k: string, name: string, provenance: seq<Provenance>, code: string)
    requires code in m.properties && ApplyPropertyName(lex, m, k, name, provenance).Ok?
    ensures var n := ApplyPropertyName(lex, m, k, name, provenance).value;
      code in n.properties && KeepsPropertyEntry(lex, code, m.properties[code], n.properties[code])
      && n.properties[code].scopes == m.properties[code].scopes && n.properties.Keys == m.properties.Keys
  {
    var n := ApplyPropertyName(lex, m, k, name, provenance).value;
    OneEntry(lex, m, n, k, n.properties[k], code);
  }

  lemma NativeNameStep(lex: Lexicon, m: Manifest, k: string, name: string, provenance: seq<Provenance>, code: string)
    requires code in m.properties && ApplyNativeName(lex, m, k, name, provenance).Ok?
    ensures var n := ApplyNativeName(lex, m, k, name, provenance).value;
      code in n.properties && KeepsPropertyEntry(lex, code, m.properties[code], n.properties[code])
      && n.properties[code].scopes == m.properties[code].scopes && n.properties.Keys == m.properties.Keys
  {
    var n := ApplyNativeName(lex, m, k, name, provenance).value;
    OneEntry(lex, m, n, k, n.properties[k], code);
  }

  lemma RowStep(lex: Lexicon, m: Manifest, k: string, value: TypedValue, caption: string, provenance: seq<Provenance>,
                code: string)
    requires code in m.properties && ApplyRow(lex, m, k, value, caption, provenance).Ok?
    ensures var n := ApplyRow(lex, m, k, value, caption, provenance).value;
      code in n.properties && KeepsPropertyEntry(lex, code, m.properties[code], n.properties[code])
      && n.properties[code].scopes == m.properties[code].scopes && n.properties.Keys == m.properties.Keys
  {
    var n := ApplyRow(lex, m, k, value, caption, provenance).value;
    OneEntry(lex, m, n, k, n.properties[k], code);
  }

  lemma ProfileStep(lex: Lexicon, m: Manifest, k: string, profile: ValueProfile, provenance: seq<Provenance>,
                    scopes: seq<Context>, code: string)
    requires code in m.properties && ApplyProfile(lex, m, k, profile, provenance, scopes).Ok?
    ensures var n := ApplyProfile(lex, m, k, profile, provenance, scopes).value;
      code in n.properties && KeepsPropertyEntry(lex, code, m.properties[code], n.properties[code])
      && n.properties[code].scopes == m.properties[code].scopes && n.properties.Keys == m.properties.Keys
  {
    var n := ApplyProfile(lex, m, k, profile, provenance, scopes).value;
    OneEntry(lex, m, n, k, n.properties[k], code);
  }

  lemma OneEntry(lex: Lexicon, m: Manifest, n: Manifest, k: string, e: PropertyEntry, code: string)
    requires k in m.properties && code in m.properties && n.properties == m.properties[k := e]
    requires KeepsPropertyEntry(lex, k, m.properties[k], e) && e.scopes == m.properties[k].scopes
    ensures code in n.properties && KeepsPropertyEntry(lex, code, m.properties[code], n.properties[code])
    ensures n.properties[code].scopes == m.properties[code].scopes && n.properties.Keys == m.properties.Keys
  {}

  lemma PropertySupportStep(lex: Lexicon, m: Manifest, a: Assertion, code: string)
    requires a.PropertySupport? && ApplyProperty(lex, m, a).Ok?
    ensures var n := ApplyProperty(lex, m, a).value;
      && (code in m.properties ==> code in n.properties
                                   && KeepsPropertyEntry(lex, code, m.properties[code], n.properties[code]))
      && n.properties.Keys == m.properties.Keys + {a.code}
      && PropertyScopes(n, code) == PropertyScopes(m, code) + (if a.code == code then Elements(a.scopes) else {})
  {
    var n := ApplyProperty(lex, m, a).value;
    var e := n.properties[a.code];
    ScopedEntry(lex, a.code, PropertyAt(lex, m, a.code), e, a.scopes);
    OneProperty(lex, m, n, a.code, e, Elements(a.scopes), code);
  }

  lemma ScopedEntry(lex: Lexicon, code: string, e: PropertyEntry, f: PropertyEntry, scopes: seq<Context>)
    requires f == e.(facts := f.facts, scopes := MergeScopes(e.scopes, scopes))
    ensures KeepsPropertyEntry(lex, code, e, f) && Elements(f.scopes) == Elements(e.scopes) + Elements(scopes)
  {
    MergedScopes(e.scopes, scopes);
  }

  lemma OneProperty(lex: Lexicon, m: Manifest, n: Manifest, k: string, e: PropertyEntry, more: set<Context>,
                    code: string)
    requires n.properties == m.properties[k := e]
    requires k in m.properties ==> KeepsPropertyEntry(lex, k, m.properties[k], e)
    requires Elements(e.scopes) == PropertyScopes(m, k) + more
    ensures code in m.properties ==> code in n.properties
                                     && KeepsPropertyEntry(lex, code, m.properties[code], n.properties[code])
    ensures n.properties.Keys == m.properties.Keys + {k}
    ensures PropertyScopes(n, code) == PropertyScopes(m, code) + (if k == code then more else {})
  {}

  /** What a candidate about property semantics does to an entry it finds. */
  lemma SemanticPropertyStep(lex: Lexicon, m: Manifest, c: Candidate, code: string)
    requires Semantic(c.assertion) && !c.assertion.OperationName? && ApplyCandidate(lex, m, c).Ok?
             && code in m.properties
    ensures var n := ApplyCandidate(lex, m, c).value;
      code in n.properties && KeepsPropertyEntry(lex, code, m.properties[code], n.properties[code])
      && n.properties[code].scopes == m.properties[code].scopes && n.properties.Keys == m.properties.Keys
  {
    var a := c.assertion;
    if a.PropertyName? { PropertyNameStep(lex, m, a.code, a.name, c.provenance, code); }
    else if a.PropertySourceNativeName? { NativeNameStep(lex, m, a.code, a.name, c.provenance, code); }
    else if a.PropertyValueRow? { RowStep(lex, m, a.code, a.value, a.caption, c.provenance, code); }
    else { ProfileStep(lex, m, a.code, a.profile, c.provenance, c.observedScopes, code); }
  }

  lemma PropertyStep(lex: Lexicon, m: Manifest, c: Candidate, code: string)
    requires code in m.properties && ApplyCandidate(lex, m, c).Ok?
    ensures var n := ApplyCandidate(lex, m, c).value;
      code in n.properties && KeepsPropertyEntry(lex, code, m.properties[code], n.properties[code])
  {
    if AboutOperations(c) || c.assertion.CameraIdentity? { PropertiesUntouched(lex, m, c); }
    else if c.assertion.PropertySupport? {
      if c.assertion.supported { PropertySupportStep(lex, m, c.assertion, code); }
    } else { SemanticPropertyStep(lex, m, c, code); }
  }

  /** An operation of the base keeps its kind, owner, handler, modes, connections, gates and effects. */
  lemma OperationCurationKept(lex: Lexicon, m: Manifest, cs: seq<Candidate>, code: string)
    requires code in m.operations && ApplyAll(lex, m, cs).Ok?
    ensures var n := ApplyAll(lex, m, cs).value;
      code in n.operations && n.operations[code].detail == m.operations[code].detail
  {
    var step, keeps := Applier(lex), KeepsOperation(code, m.operations[code].detail);
    forall x: Manifest, c: Candidate | c in cs && keeps(x) && step(x, c).Ok? ensures keeps(step(x, c).value) {
      OperationStep(lex, x, c, code);
    }
    Invariant(step, m, cs, keeps);
  }

  lemma PropertyCurationKept(lex: Lexicon, m: Manifest, cs: seq<Candidate>, code: string)
    requires code in m.properties && ApplyAll(lex, m, cs).Ok?
    ensures var n := ApplyAll(lex, m, cs).value;
      code in n.properties && n.properties[code].detail == m.properties[code].detail
  {
    var step, keeps := Applier(lex), KeepsProperty(code, m.properties[code].detail);
    forall x: Manifest, c: Candidate | c in cs && keeps(x) && step(x, c).Ok? ensures keeps(step(x, c).value) {
      PropertyStep(lex, x, c, code);
    }
    Invariant(step, m, cs, keeps);
  }

  /** No accepted name replaces a curated one. */
  lemma CuratedOperationName(lex: Lexicon, m: Manifest, cs: seq<Candidate>, code: string)
    requires code in m.operations && Curated(code, m.operations[code].name, lex.operationName(code))
             && ApplyAll(lex, m, cs).Ok?
    ensures var n := ApplyAll(lex, m, cs).value;
      code in n.operations && n.operations[code].name == m.operations[code].name
  {
    var step, keeps := Applier(lex), KeepsOperationName(code, m.operations[code].name);
    forall x: Manifest, c: Candidate | c in cs && keeps(x) && step(x, c).Ok? ensures keeps(step(x, c).value) {
      OperationStep(lex, x, c, code);
    }
    Invariant(step, m, cs, keeps);
  }

  lemma CuratedPropertyName(lex: Lexicon, m: Manifest, cs: seq<Candidate>, code: string)
    requires code in m.properties && Curated(code, m.properties[code].name, lex.propertyName(code))
             && ApplyAll(lex, m, cs).Ok?
    ensures var n := ApplyAll(lex, m, cs).value;
      code in n.properties && n.properties[code].name == m.properties[code].name
  {
    var step, keeps := Applier(lex), KeepsPropertyName(code, m.properties[code].name);
    forall x: Manifest, c: Candidate | c in cs && keeps(x) && step(x, c).Ok? ensures keeps(step(x, c).value) {
      PropertyStep(lex, x, c, code);
    }
    Invariant(step, m, cs, keeps);
  }

  // ----- observed scopes -----

  function OperationScopes(m: Manifest, code: string): set<Context> {
    if code in m.operations then Elements(m.operations[code].scopes) else {}
  }

  function PropertyScopes(m: Manifest, code: string): set<Context> {
    if code in m.properties then Elements(m.properties[code].scopes) else {}
  }

  predicate ClaimsOperation(c: Candidate, code: string) {
    c.assertion.OperationSupport? && c.assertion.supported && c.assertion.code == code
  }

  predicate ClaimsProperty(c: Candidate, code: string) {
    c.assertion.PropertySupport? && c.assertion.supported && c.assertion.code == code
  }

  /** The scopes accepted candidates claim for an operation. */
  function ClaimedOperationScopes(cs: seq<Candidate>, code: string): set<Context> {
    set c, s | c in cs && ClaimsOperation(c, code) && s in c.assertion.scopes :: s
  }

  function ClaimedPropertyScopes(cs: seq<Candidate>, code: string): set<Context> {
    set c, s | c in cs && ClaimsProperty(c, code) && s in c.assertion.scopes :: s
  }

  lemma MergedScopes(target: seq<Context>, incoming: seq<Context>)
    ensures Elements(MergeScopes(target, incoming)) == Elements(target) + Elements(incoming)
  {
    ContextOrder();
    SortDedupStrict(target + incoming, ContextLe);
  }

  lemma OperationScopeStep(lex: Lexicon, m: Manifest, c: Candidate, code: string)
    requires ApplyCandidate(lex, m, c).Ok?
    ensures var n := ApplyCandidate(lex, m, c).value;
      && OperationScopes(n, code) == OperationScopes(m, code)
         + (if ClaimsOperation(c, code) then Elements(c.assertion.scopes) else {})
      && (code in n.operations <==> code in m.operations || ClaimsOperation(c, code))
  {
    var a := c.assertion;
    if !AboutOperations(c) { OperationsUntouched(lex, m, c); }
    else if a.OperationSupport? {
      if a.supported { OperationSupportStep(lex, m, a.code, a.scopes, code); }
    }
    else { OperationNameStep(lex, m, a.code, a.name, c.provenance, if code in m.operations then code else a.code); }
  }

  lemma PropertyScopeStep(lex: Lexicon, m: Manifest, c: Candidate, code: string)
    requires ApplyCandidate(lex, m, c).Ok?
    ensures var n := ApplyCandidate(lex, m, c).value;
      && PropertyScopes(n, code) == PropertyScopes(m, code)
         + (if ClaimsProperty(c, code) then Elements(c.assertion.scopes) else {})
      && (code in n.properties <==> code in m.properties || ClaimsProperty(c, code))
  {
    if AboutOperations(c) || c.assertion.CameraIdentity? { PropertiesUntouched(lex, m, c); }
    else if c.assertion.PropertySupport? {
      if c.assertion.supported { PropertySupportStep(lex, m, c.assertion, code); }
    } else { SemanticPropertyStep(lex, m, c, if code in m.properties then code else c.assertion.code); }
  }

  lemma ClaimedMore(cs: seq<Candidate>, code: string)
    requires cs != []
    ensures var n, c := |cs| - 1, cs[|cs| - 1];
      && ClaimedOperationScopes(cs, code)
         == ClaimedOperationScopes(cs[..n], code)
            + (if ClaimsOperation(c, code) then Elements(c.assertion.scopes) else {})
      && ClaimedPropertyScopes(cs, code)
         == ClaimedPropertyScopes(cs[..n], code) + (if ClaimsProperty(c, code)
                                                    then Elements(c.assertion.scopes) else {})
  {
    var n := |cs| - 1;
    assert cs == cs[..n] + [cs[n]];
    assert forall c :: c in cs <==> c in cs[..n] || c == cs[n];
  }

  /** The observed scopes of an operation are those of the base and those accepted, and nothing else. */
  lemma {:induction false} OperationScopesExact(lex: Lexicon, m: Manifest, cs: seq<Candidate>, code: string)
    requires ApplyAll(lex, m, cs).Ok?
    ensures var n := ApplyAll(lex, m, cs).value;
      && OperationScopes(n, code) == OperationScopes(m, code) + ClaimedOperationScopes(cs, code)
      && (code in n.operations <==> code in m.operations || exists c :: c in cs && ClaimsOperation(c, code))
    decreases |cs|
  {
    if cs != [] {
      var n := |cs| - 1;
      OperationScopesExact(lex, m, cs[..n], code);
      OperationScopeStep(lex, ApplyAll(lex, m, cs[..n]).value, cs[n], code);
      ClaimedMore(cs, code);
      LastOrBefore(cs, (c: Candidate) => ClaimsOperation(c, code));
    }
  }

  lemma {:induction false} PropertyScopesExact(lex: Lexicon, m: Manifest, cs: seq<Candidate>, code: string)
    requires ApplyAll(lex, m, cs).Ok?
    ensures var n := ApplyAll(lex, m, cs).value;
      && PropertyScopes(n, code) == PropertyScopes(m, code) + ClaimedPropertyScopes(cs, code)
      && (code in n.properties <==> code in m.properties || exists c :: c in cs && ClaimsProperty(c, code))
    decreases |cs|
  {
    if cs != [] {
      var n := |cs| - 1;
      PropertyScopesExact(lex, m, cs[..n], code);
      PropertyScopeStep(lex, ApplyAll(lex, m, cs[..n]).value, cs[n], code);
      ClaimedMore(cs, code);
      LastOrBefore(cs, (c: Candidate) => ClaimsProperty(c, code));
    }
  }

  lemma LastOrBefore<T(!new)>(s: seq<T>, p: T -> bool)
    requires s != []
    ensures (exists x :: x in s && p(x)) <==> p(s[|s| - 1]) || exists x :: x in s[..|s| - 1] && p(x)
  {
    var n := |s| - 1;
    assert s == s[..n] + [s[n]];
    assert s[n] in s;
    if x :| x in s && p(x) { assert x == s[n] || x in s[..n]; }
    if x :| x in s[..n] && p(x) { assert x in s; }
  }

  /** The frame of a whole review, for one operation code. */
  lemma ReviewedOperation(lex: Lexicon, valid: Manifest -> bool, base: Manifest, p: Proposal, r: ProposalReview,
                          y: Manifest, code: string)
    requires ApplyReview(lex, valid, base, p, r) == Ok(y)
    ensures code in y.operations <==>
              code in base.operations || exists c :: c in Agenda(p, r) && ClaimsOperation(c, code)
    ensures OperationScopes(y, code) == OperationScopes(base, code) + ClaimedOperationScopes(Agenda(p, r), code)
    ensures code in base.operations ==> KeepsOperationEntry(lex, code, base.operations[code], y.operations[code])
  {
    OperationScopesExact(lex, base, Agenda(p, r), code);
    if code in base.operations {
      OperationCurationKept(lex, base, Agenda(p, r), code);
      if Curated(code, base.operations[code].name, lex.operationName(code)) {
        CuratedOperationName(lex, base, Agenda(p, r), code);
      }
    }
  }

  /** And for one property code. */
  lemma ReviewedProperty(lex: Lexicon, valid: Manifest -> bool, base: Manifest, p: Proposal, r: ProposalReview,
                         y: Manifest, code: string)
    requires ApplyReview(lex, valid, base, p, r) == Ok(y)
    ensures code in y.properties <==>
              code in base.properties || exists c :: c in Agenda(p, r) && ClaimsProperty(c, code)
    ensures PropertyScopes(y, code) == PropertyScopes(base, code) + ClaimedPropertyScopes(Agenda(p, r), code)
    ensures code in base.properties ==> KeepsPropertyEntry(lex, code, base.properties[code], y.properties[code])
  {
    PropertyScopesExact(lex, base, Agenda(p, r), code);
    if code in base.properties {
      PropertyCurationKept(lex, base, Agenda(p, r), code);
      if Curated(code, base.properties[code].name, lex.propertyName(code)) {
        CuratedPropertyName(lex, base, Agenda(p, r), code);
      }
    }
  }
}
