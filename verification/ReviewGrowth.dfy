// The parts of a manifest that review only ever extends. For each part: what an
// accepted candidate leaves behind, that later candidates keep it, and that
// finding it already there makes the candidate a no-op.
module ReviewGrowth {
  import opened Options
  import opened Observation
  import opened Ordering
  import opened Sorting
  import opened Bags
  import opened Stability
  import opened Proposal
  import opened Review

  // ----- sorted lists without repetition -----

  ghost predicate Has<T>(target: seq<T>, incoming: seq<T>, le: (T, T) -> bool) {
    Strict(target, le) && forall x :: x in incoming ==> x in target
  }

  lemma MergeHas<T(!new)>(target: seq<T>, incoming: seq<T>, le: (T, T) -> bool)
    requires TotalOrder(le)
    ensures Has(SortDedup(target + incoming, le), incoming, le)
    ensures forall prior :: Has(target, prior, le) ==> Has(SortDedup(target + incoming, le), prior, le)
  {
    SortDedupStrict(target + incoming, le);
  }

  lemma MergeNothing<T(!new)>(target: seq<T>, incoming: seq<T>, le: (T, T) -> bool)
    requires TotalOrder(le) && Has(target, incoming, le)
    ensures SortDedup(target + incoming, le) == target
  {
    SortDedupAbsorbs(target, incoming, le);
  }

  ghost predicate HasEvidence(target: seq<string>, provenance: seq<Provenance>) {
    Has(target, References(provenance), StrLe)
  }

  ghost predicate HasScopes(target: seq<Context>, scopes: seq<Context>) { Has(target, scopes, ContextLe) }

  ghost predicate HasProvenance(codec: Codec, target: seq<Provenance>, provenance: seq<Provenance>) {
    Has(target, provenance, codec.ProvenanceLe())
  }

  lemma EvidenceGrows(target: seq<string>, provenance: seq<Provenance>)
    ensures HasEvidence(MergeEvidence(target, provenance), provenance)
    ensures forall prior :: HasEvidence(target, prior) ==> HasEvidence(MergeEvidence(target, provenance), prior)
    ensures HasEvidence(target, provenance) ==> MergeEvidence(target, provenance) == target
  {
    StrOrder();
    MergeHas(target, References(provenance), StrLe);
    if HasEvidence(target, provenance) { MergeNothing(target, References(provenance), StrLe); }
  }

  lemma ScopesGrow(target: seq<Context>, scopes: seq<Context>)
    ensures HasScopes(MergeScopes(target, scopes), scopes)
    ensures forall prior :: HasScopes(target, prior) ==> HasScopes(MergeScopes(target, scopes), prior)
    ensures HasScopes(target, scopes) ==> MergeScopes(target, scopes) == target
  {
    ContextOrder();
    MergeHas(target, scopes, ContextLe);
    if HasScopes(target, scopes) { MergeNothing(target, scopes, ContextLe); }
  }

  lemma ProvenanceGrows(codec: Codec, target: seq<Provenance>, provenance: seq<Provenance>)
    requires codec.Faithful()
    ensures HasProvenance(codec, MergeProvenance(codec, target, provenance), provenance)
    ensures forall prior :: HasProvenance(codec, target, prior) ==>
              HasProvenance(codec, MergeProvenance(codec, target, provenance), prior)
    ensures HasProvenance(codec, target, provenance) ==> MergeProvenance(codec, target, provenance) == target
  {
    ProvenanceOrder(codec);
    MergeHas(target, provenance, codec.ProvenanceLe());
    if HasProvenance(codec, target, provenance) { MergeNothing(target, provenance, codec.ProvenanceLe()); }
  }

  // ----- names -----

  ghost predicate HasName(codec: Codec, target: Option<ProvenancedName>, name: string, provenance: seq<Provenance>) {
    target.Some? && target.value.name == name && HasProvenance(codec, target.value.provenance, provenance)
  }

  lemma NameGrows(codec: Codec, target: Option<ProvenancedName>, name: string, provenance: seq<Provenance>)
    requires codec.Faithful() && Strict(provenance, codec.ProvenanceLe())
             && MergeName(codec, target, name, provenance).Some?
    ensures HasName(codec, MergeName(codec, target, name, provenance), name, provenance)
    ensures forall n, prior :: HasName(codec, target, n, prior) ==>
              HasName(codec, MergeName(codec, target, name, provenance), n, prior)
  {
    if target.Some? { ProvenanceGrows(codec, target.value.provenance, provenance); }
  }

  lemma NameKept(codec: Codec, target: Option<ProvenancedName>, name: string, provenance: seq<Provenance>)
    requires codec.Faithful() && HasName(codec, target, name, provenance)
    ensures MergeName(codec, target, name, provenance) == target
  {
    ProvenanceGrows(codec, target.value.provenance, provenance);
  }

  // ----- value rows -----

  ghost predicate HasRow(rows: seq<Row>, raw: int, caption: string, provenance: seq<Provenance>) {
    && !RowConflict(rows, raw, caption)
    && IndexOf(rows, RowMatch(raw, caption)) < |rows|
    && HasEvidence(rows[IndexOf(rows, RowMatch(raw, caption))].evidence, provenance)
  }

  /** The first match is the head of the matches. */
  lemma {:induction false} IndexIsHead<T>(s: seq<T>, p: T -> bool)
    ensures IndexOf(s, p) < |s| <==> Filter(s, p) != []
    ensures IndexOf(s, p) < |s| ==> Filter(s, p)[0] == s[IndexOf(s, p)]
    decreases |s|
  {
    if s != [] { IndexIsHead(s[..|s| - 1], p); }
  }

  lemma IndexUnique<T>(s: seq<T>, p: T -> bool, k: nat)
    requires k <= |s| && (k < |s| ==> p(s[k])) && forall i :: 0 <= i < k ==> !p(s[i])
    ensures IndexOf(s, p) == k
  {}

  lemma RowsSorted(rows: seq<Row>, raw: int, caption: string)
    ensures Filter(Sort(rows, RowLe), RowMatch(raw, caption)) == Filter(rows, RowMatch(raw, caption))
    ensures RowConflict(Sort(rows, RowLe), raw, caption) == RowConflict(rows, raw, caption)
  {
    StrOrder();
    SortKeepsClass(rows, RowLe, RowMatch(raw, caption));
    SameMembers(rows, Sort(rows, RowLe));
    ConflictMembers(rows, Sort(rows, RowLe), raw, caption);
    ConflictMembers(Sort(rows, RowLe), rows, raw, caption);
  }

  lemma ConflictMembers(a: seq<Row>, b: seq<Row>, raw: int, caption: string)
    requires forall x :: x in a ==> x in b
    ensures RowConflict(a, raw, caption) ==> RowConflict(b, raw, caption)
  {
    if RowConflict(a, raw, caption) {
      var i :| 0 <= i < |a| && a[i].raw == raw && a[i].caption != caption;
      assert a[i] in b;
    }
  }

  lemma PushNoConflict(rows: seq<Row>, added: Row, raw: int, caption: string)
    requires !RowConflict(rows, raw, caption) && (added.raw == raw ==> added.caption == caption)
    ensures !RowConflict(rows + [added], raw, caption)
  {}

  lemma PushSorted(rows: seq<Row>, added: Row, raw: int, caption: string)
    requires !RowConflict(rows, raw, caption) && (added.raw == raw ==> added.caption == caption)
    ensures !RowConflict(Sort(rows + [added], RowLe), raw, caption)
    ensures Filter(Sort(rows + [added], RowLe), RowMatch(raw, caption))
         == Filter(rows, RowMatch(raw, caption)) + (if RowMatch(raw, caption)(added) then [added] else [])
  {
    PushNoConflict(rows, added, raw, caption);
    RowsSorted(rows + [added], raw, caption);
    FilterLast(rows, added, RowMatch(raw, caption));
  }

  lemma HeadHas(rows: seq<Row>, raw: int, caption: string, provenance: seq<Provenance>)
    ensures HasRow(rows, raw, caption, provenance)
       <==> var f := Filter(rows, RowMatch(raw, caption));
            !RowConflict(rows, raw, caption) && f != [] && HasEvidence(f[0].evidence, provenance)
  {
    IndexIsHead(rows, RowMatch(raw, caption));
  }

  lemma PushedRow(rows: seq<Row>, raw: int, caption: string, provenance: seq<Provenance>)
    requires !RowConflict(rows, raw, caption) && IndexOf(rows, RowMatch(raw, caption)) == |rows|
    ensures HasRow(Sort(rows + [Row(raw, caption, References(provenance))], RowLe), raw, caption, provenance)
  {
    var added := Row(raw, caption, References(provenance));
    PushSorted(rows, added, raw, caption);
    IndexIsHead(rows, RowMatch(raw, caption));
    HeadHas(Sort(rows + [added], RowLe), raw, caption, provenance);
  }

  lemma PushedKeeps(rows: seq<Row>, added: Row, raw: int, caption: string, prior: seq<Provenance>)
    requires !RowConflict(rows, added.raw, added.caption) && HasRow(rows, raw, caption, prior)
    ensures HasRow(Sort(rows + [added], RowLe), raw, caption, prior)
  {
    var k := IndexOf(rows, RowMatch(raw, caption));
    assert rows[k].raw == raw && rows[k].caption == caption;
    PushSorted(rows, added, raw, caption);
    HeadHas(rows, raw, caption, prior);
    HeadHas(Sort(rows + [added], RowLe), raw, caption, prior);
  }

  lemma UpdatedKeeps(rows: seq<Row>, k: nat, provenance: seq<Provenance>, raw: int, caption: string,
                     prior: seq<Provenance>)
    requires k < |rows| && HasRow(rows, raw, caption, prior)
    ensures HasRow(rows[k := rows[k].(evidence := MergeEvidence(rows[k].evidence, provenance))], raw, caption, prior)
  {
    var now := rows[k := rows[k].(evidence := MergeEvidence(rows[k].evidence, provenance))];
    var j := IndexOf(rows, RowMatch(raw, caption));
    IndexUnique(now, RowMatch(raw, caption), j);
    EvidenceGrows(rows[k].evidence, provenance);
    assert forall i :: 0 <= i < |rows| ==> now[i].raw == rows[i].raw && now[i].caption == rows[i].caption;
  }

  lemma ReplacedHas(rows: seq<Row>, k: nat, r: Row, raw: int, caption: string, provenance: seq<Provenance>)
    requires !RowConflict(rows, raw, caption) && k < |rows| && k == IndexOf(rows, RowMatch(raw, caption))
    requires r.raw == raw && r.caption == caption && HasEvidence(r.evidence, provenance)
    ensures HasRow(rows[k := r], raw, caption, provenance)
  {
    IndexUnique(rows[k := r], RowMatch(raw, caption), k);
  }

  lemma UpdatedHas(rows: seq<Row>, raw: int, caption: string, provenance: seq<Provenance>)
    requires !RowConflict(rows, raw, caption) && IndexOf(rows, RowMatch(raw, caption)) < |rows|
    ensures var k := IndexOf(rows, RowMatch(raw, caption));
      HasRow(rows[k := rows[k].(evidence := MergeEvidence(rows[k].evidence, provenance))], raw, caption, provenance)
  {
    var k := IndexOf(rows, RowMatch(raw, caption));
    EvidenceGrows(rows[k].evidence, provenance);
    assert RowMatch(raw, caption)(rows[k]);
    ReplacedHas(rows, k, rows[k].(evidence := MergeEvidence(rows[k].evidence, provenance)), raw, caption, provenance);
  }

  lemma RowGrows(rows: seq<Row>, raw: int, caption: string, provenance: seq<Provenance>)
    requires AddRow(rows, raw, caption, provenance).Some?
    ensures HasRow(AddRow(rows, raw, caption, provenance).value, raw, caption, provenance)
  {
    var k := IndexOf(rows, RowMatch(raw, caption));
    if k < |rows| { UpdatedHas(rows, raw, caption, provenance); } else { PushedRow(rows, raw, caption, provenance); }
  }

  lemma RowKeeps(rows: seq<Row>, raw: int, caption: string, provenance: seq<Provenance>, raw': int, caption': string,
                 prior: seq<Provenance>)
    requires AddRow(rows, raw, caption, provenance).Some? && HasRow(rows, raw', caption', prior)
    ensures HasRow(AddRow(rows, raw, caption, provenance).value, raw', caption', prior)
  {
    var k := IndexOf(rows, RowMatch(raw, caption));
    if k < |rows| { UpdatedKeeps(rows, k, provenance, raw', caption', prior); }
    else { PushedKeeps(rows, Row(raw, caption, References(provenance)), raw', caption', prior); }
  }

  lemma RowKept(rows: seq<Row>, raw: int, caption: string, provenance: seq<Provenance>)
    requires HasRow(rows, raw, caption, provenance)
    ensures AddRow(rows, raw, caption, provenance) == Some(rows)
  {
    var k := IndexOf(rows, RowMatch(raw, caption));
    EvidenceGrows(rows[k].evidence, provenance);
    assert rows[k := rows[k]] == rows;
  }

  ghost predicate HasTypedRow(rows: seq<Row>, value: TypedValue, caption: string, provenance: seq<Provenance>) {
    value.raw.Some? ==> HasRow(rows, value.raw.value, caption, provenance)
  }

  // ----- ledger lists: at most one entry under a key -----

  ghost predicate Once<T, K>(s: seq<T>, key: T -> K, k: K) {
    forall i, j :: 0 <= i < j < |s| ==> !(key(s[i]) == k && key(s[j]) == k)
  }

  lemma OncePermuted<T(!new), K>(a: seq<T>, b: seq<T>, key: T -> K, k: K)
    requires multiset(a) == multiset(b) && Once(a, key, k)
    ensures Once(b, key, k)
  {
    var same := (x: T, y: T) => key(x) == k && key(y) == k;
    PairPermuted(b, a, same);
    assert !RelatedPair(a, same);
    forall i, j | 0 <= i < j < |b| ensures !(key(b[i]) == k && key(b[j]) == k) {
      assert !same(b[i], b[j]);
    }
  }

  lemma OncePush<T, K>(s: seq<T>, x: T, key: T -> K, k: K)
    requires Once(s, key, k) && forall i :: 0 <= i < |s| ==> key(s[i]) != key(x)
    ensures Once(s + [x], key, k)
  {}

  lemma OnceUpdate<T, K>(s: seq<T>, n: nat, x: T, key: T -> K, k: K)
    requires Once(s, key, k) && n < |s| && key(x) == key(s[n])
    ensures Once(s[n := x], key, k)
  {}

  function RowKey(r: LedgerRow): (TypedValue, string) { (r.value, r.caption) }

  function ProfileKey(p: LedgerProfile): ValueProfile { p.profile }

  ghost predicate HasLedgerRow(codec: Codec, rows: seq<LedgerRow>, value: TypedValue, caption: string,
                               provenance: seq<Provenance>) {
    && !LedgerRowConflict(rows, value, caption)
    && exists i :: 0 <= i < |rows| && rows[i].value == value && rows[i].caption == caption
                   && HasProvenance(codec, rows[i].provenance, provenance)
  }

  lemma LedgerMembers(codec: Codec, a: seq<LedgerRow>, b: seq<LedgerRow>, value: TypedValue, caption: string,
                      provenance: seq<Provenance>)
    requires (forall x :: x in a <==> x in b) && HasLedgerRow(codec, a, value, caption, provenance)
    ensures HasLedgerRow(codec, b, value, caption, provenance)
  {
    var i :| 0 <= i < |a| && a[i].value == value && a[i].caption == caption
      && HasProvenance(codec, a[i].provenance, provenance);
    assert a[i] in b;
    forall j | 0 <= j < |b| ensures !(b[j].value == value && b[j].caption != caption) { assert b[j] in a; }
  }

  lemma LedgerRowOnce(lex: Lexicon, rows: seq<LedgerRow>, value: TypedValue, caption: string,
                      provenance: seq<Provenance>,
                      key: (TypedValue, string))
    requires Once(rows, RowKey, key) && AddLedgerRow(lex, rows, value, caption, provenance).Some?
    ensures Once(AddLedgerRow(lex, rows, value, caption, provenance).value, RowKey, key)
  {
    var k := IndexOf(rows, LedgerRowMatch(value, caption));
    var now := AddLedgerRow(lex, rows, value, caption, provenance).value;
    if k < |rows| {
      OnceUpdate(rows, k, now[k], RowKey, key);
    } else {
      var added := LedgerRow(value, caption, provenance);
      forall i | 0 <= i < |rows|
        ensures RowKey(rows[i]) != RowKey(added)
      {
        assert !LedgerRowMatch(value, caption)(rows[i]);
      }
      OncePush(rows, added, RowKey, key);
      OncePermuted(rows + [added], now, RowKey, key);
    }
  }

  lemma LedgerRowGrows(lex: Lexicon, rows: seq<LedgerRow>, value: TypedValue, caption: string,
                       provenance: seq<Provenance>)
    requires lex.codec.Faithful() && Strict(provenance, lex.codec.ProvenanceLe())
    requires AddLedgerRow(lex, rows, value, caption, provenance).Some?
    ensures HasLedgerRow(lex.codec, AddLedgerRow(lex, rows, value, caption, provenance).value, value, caption,
                         provenance)
  {
    var k := IndexOf(rows, LedgerRowMatch(value, caption));
    var now := AddLedgerRow(lex, rows, value, caption, provenance).value;
    if k < |rows| {
      ProvenanceGrows(lex.codec, rows[k].provenance, provenance);
      assert now[k].value == value && now[k].caption == caption;
      forall i | 0 <= i < |now| ensures !(now[i].value == value && now[i].caption != caption) {
        assert now[i].value == rows[i].value && now[i].caption == rows[i].caption;
      }
    } else {
      var longer := rows + [LedgerRow(value, caption, provenance)];
      assert longer[|rows|].value == value;
      SameMembers(longer, now);
      LedgerMembers(lex.codec, longer, now, value, caption, provenance);
    }
  }

  lemma LedgerRowKeeps(lex: Lexicon, rows: seq<LedgerRow>, value: TypedValue, caption: string,
                       provenance: seq<Provenance>,
                       value': TypedValue, caption': string, prior: seq<Provenance>)
    requires lex.codec.Faithful() && AddLedgerRow(lex, rows, value, caption, provenance).Some?
    requires HasLedgerRow(lex.codec, rows, value', caption', prior)
    ensures HasLedgerRow(lex.codec, AddLedgerRow(lex, rows, value, caption, provenance).value, value', caption', prior)
  {
    var k := IndexOf(rows, LedgerRowMatch(value, caption));
    var now := AddLedgerRow(lex, rows, value, caption, provenance).value;
    var i :| 0 <= i < |rows| && rows[i].value == value' && rows[i].caption == caption'
      && HasProvenance(lex.codec, rows[i].provenance, prior);
    if k < |rows| {
      ProvenanceGrows(lex.codec, rows[k].provenance, provenance);
      assert now[i].value == value' && now[i].caption == caption' && HasProvenance(lex.codec, now[i].provenance, prior);
      forall j | 0 <= j < |now| ensures !(now[j].value == value' && now[j].caption != caption') {
        assert now[j].value == rows[j].value && now[j].caption == rows[j].caption;
      }
    } else {
      var longer := rows + [LedgerRow(value, caption, provenance)];
      assert longer[i] == rows[i];
      forall j | 0 <= j < |longer| ensures !(longer[j].value == value' && longer[j].caption != caption') {
        assert j < |rows| ==> longer[j] == rows[j];
      }
      SameMembers(longer, now);
      LedgerMembers(lex.codec, longer, now, value', caption', prior);
    }
  }

  lemma LedgerRowKept(lex: Lexicon, rows: seq<LedgerRow>, value: TypedValue, caption: string,
                      provenance: seq<Provenance>)
    requires lex.codec.Faithful() && Once(rows, RowKey, (value, caption))
    requires HasLedgerRow(lex.codec, rows, value, caption, provenance)
    ensures AddLedgerRow(lex, rows, value, caption, provenance) == Some(rows)
  {
    var i :| 0 <= i < |rows| && rows[i].value == value && rows[i].caption == caption
      && HasProvenance(lex.codec, rows[i].provenance, provenance);
    var k := IndexOf(rows, LedgerRowMatch(value, caption));
    assert k <= i;
    assert RowKey(rows[k]) == RowKey(rows[i]) == (value, caption);
    ProvenanceGrows(lex.codec, rows[k].provenance, provenance);
    assert rows[k := rows[k]] == rows;
  }

  ghost predicate HasLedgerProfile(codec: Codec, profiles: seq<LedgerProfile>, profile: ValueProfile,
                                   provenance: seq<Provenance>) {
    exists i :: 0 <= i < |profiles| && profiles[i].profile == profile
      && HasProvenance(codec, profiles[i].provenance, provenance)
  }

  lemma LedgerProfileOnce(lex: Lexicon, profiles: seq<LedgerProfile>, profile: ValueProfile,
                          provenance: seq<Provenance>,
                          key: ValueProfile)
    requires Once(profiles, ProfileKey, key)
    ensures Once(AddLedgerProfile(lex, profiles, profile, provenance), ProfileKey, key)
  {
    var k := IndexOf(profiles, LedgerProfileMatch(profile));
    var now := AddLedgerProfile(lex, profiles, profile, provenance);
    if k < |profiles| {
      OnceUpdate(profiles, k, now[k], ProfileKey, key);
    } else {
      var added := LedgerProfile(profile, provenance);
      forall i | 0 <= i < |profiles| ensures ProfileKey(profiles[i]) != ProfileKey(added) {
        assert !LedgerProfileMatch(profile)(profiles[i]);
      }
      OncePush(profiles, added, ProfileKey, key);
      OncePermuted(profiles + [added], now, ProfileKey, key);
    }
  }

  lemma LedgerProfileGrows(lex: Lexicon, profiles: seq<LedgerProfile>, profile: ValueProfile,
                           provenance: seq<Provenance>)
    requires lex.codec.Faithful() && Strict(provenance, lex.codec.ProvenanceLe())
    ensures HasLedgerProfile(lex.codec, AddLedgerProfile(lex, profiles, profile, provenance), profile, provenance)
  {
    var k := IndexOf(profiles, LedgerProfileMatch(profile));
    var now := AddLedgerProfile(lex, profiles, profile, provenance);
    if k < |profiles| {
      ProvenanceGrows(lex.codec, profiles[k].provenance, provenance);
      assert now[k].profile == profile;
    } else {
      var entry := LedgerProfile(profile, provenance);
      SameMembers(profiles + [entry], now);
      assert entry in now;
    }
  }

  lemma LedgerProfileKeeps(lex: Lexicon, profiles: seq<LedgerProfile>, profile: ValueProfile,
                           provenance: seq<Provenance>,
                           profile': ValueProfile, prior: seq<Provenance>)
    requires lex.codec.Faithful() && HasLedgerProfile(lex.codec, profiles, profile', prior)
    ensures HasLedgerProfile(lex.codec, AddLedgerProfile(lex, profiles, profile, provenance), profile', prior)
  {
    var k := IndexOf(profiles, LedgerProfileMatch(profile));
    var now := AddLedgerProfile(lex, profiles, profile, provenance);
    var i :| 0 <= i < |profiles| && profiles[i].profile == profile'
      && HasProvenance(lex.codec, profiles[i].provenance, prior);
    if k < |profiles| {
      ProvenanceGrows(lex.codec, profiles[k].provenance, provenance);
      assert now[i].profile == profile' && HasProvenance(lex.codec, now[i].provenance, prior);
    } else {
      SameMembers(profiles + [LedgerProfile(profile, provenance)], now);
      assert (profiles + [LedgerProfile(profile, provenance)])[i] in now;
    }
  }

  lemma LedgerProfileKept(lex: Lexicon, profiles: seq<LedgerProfile>, profile: ValueProfile,
                          provenance: seq<Provenance>)
    requires lex.codec.Faithful() && Once(profiles, ProfileKey, profile)
    requires HasLedgerProfile(lex.codec, profiles, profile, provenance)
    ensures AddLedgerProfile(lex, profiles, profile, provenance) == profiles
  {
    var i :| 0 <= i < |profiles| && profiles[i].profile == profile
      && HasProvenance(lex.codec, profiles[i].provenance, provenance);
    var k := IndexOf(profiles, LedgerProfileMatch(profile));
    assert k <= i;
    assert ProfileKey(profiles[k]) == ProfileKey(profiles[i]) == profile;
    ProvenanceGrows(lex.codec, profiles[k].provenance, provenance);
    assert profiles[k := profiles[k]] == profiles;
  }

  // ----- modes and the evidence register -----

  predicate HasModes(modes: map<string, string>, scopes: seq<Context>) {
    forall i :: 0 <= i < |scopes| ==> scopes[i].mode in modes
  }

  lemma {:induction false} ModesGrow(modes: map<string, string>, scopes: seq<Context>)
    ensures HasModes(RegisterModes(modes, scopes), scopes)
    ensures forall s :: s in modes ==> s in RegisterModes(modes, scopes)
    ensures HasModes(modes, scopes) ==> RegisterModes(modes, scopes) == modes
    decreases |scopes|
  {
    if scopes != [] { ModesGrow(modes, scopes[..|scopes| - 1]); }
  }

  predicate HasProfileModes(modes: map<string, string>, profile: ValueProfile, scopes: seq<Context>) {
    if scopes != [] then HasModes(modes, scopes) else profile.mode.Some? ==> profile.mode.value in modes
  }

  lemma ProfileModesGrow(modes: map<string, string>, profile: ValueProfile, scopes: seq<Context>)
    ensures HasProfileModes(ProfileModes(modes, profile, scopes), profile, scopes)
    ensures forall s :: s in modes ==> s in ProfileModes(modes, profile, scopes)
    ensures HasProfileModes(modes, profile, scopes) ==> ProfileModes(modes, profile, scopes) == modes
  {
    ModesGrow(modes, scopes);
  }

  predicate HasRegistered(evidence: map<string, EvidenceEntry>, provenance: seq<Provenance>) {
    CANONICAL in evidence && forall r :: r in References(provenance) ==> r in evidence
  }

  lemma {:induction false} ReferencesGrow(evidence: map<string, EvidenceEntry>, references: seq<string>)
    ensures forall r :: r in references ==> r in RegisterReferences(evidence, references)
    ensures var now := RegisterReferences(evidence, references);
      forall r :: r in evidence ==> r in now && now[r] == evidence[r]
    ensures (forall r :: r in references ==> r in evidence) ==> RegisterReferences(evidence, references) == evidence
    decreases |references|
  {
    if references != [] {
      var n := |references| - 1;
      ReferencesGrow(evidence, references[..n]);
      assert references == references[..n] + [references[n]];
    }
  }

  lemma RegisterGrows(evidence: map<string, EvidenceEntry>, provenance: seq<Provenance>)
    ensures HasRegistered(RegisterAll(evidence, provenance), provenance)
    ensures forall r :: r in evidence ==> r in RegisterAll(evidence, provenance)
    ensures HasRegistered(evidence, provenance) ==> RegisterAll(evidence, provenance) == evidence
  {
    ReferencesGrow(evidence, References(provenance));
  }
}
