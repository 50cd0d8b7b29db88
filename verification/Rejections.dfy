// What a validation report says: every reason to reject a line, told by the
// bundles, and how the report lists and counts them.
module Rejections {
  import opened Options
  import opened Observation
  import opened Ordering
  import opened Sorting
  import opened Bags
  import opened Stability
  import opened Validation
  import opened ValidationOrder
  import opened LineOrder
  import opened Acceptance
  import opened ProposalIntegrity
  import opened ProposalTheorems

  // ----- reasons within a bundle -----

  predicate HeaderAt(raws: seq<RawLine>, i: int) { 0 <= i < |raws| && raws[i].Parsed? && raws[i].value.Header? }

  ghost function HeaderCount(raws: seq<RawLine>): nat { |set i: nat | i < |raws| && HeaderAt(raws, i)| }

  /** Two different lines of the run share what `key` reads off them. */
  ghost predicate Shared<K>(raws: seq<RawLine>, run: string, key: Observation -> Option<K>, k: K) {
    exists i, j :: 0 <= i < j < |raws| && raws[i].Parsed? && raws[j].Parsed?
                   && raws[i].value.RunId() == run && raws[j].value.RunId() == run
                   && key(raws[i].value) == Some(k) && key(raws[j].value) == Some(k)
  }

  function RecordIdOf(v: Observation): Option<string> { Some(v.RecordId()) }
  function OrdinalOf(v: Observation): Option<nat> { Some(v.Ordinal()) }
  function CorrelationOf(v: Observation): Option<(string, string, string, nat)> {
    if v.Transaction? then Some((v.connectionInstance, v.session, v.endpointSet, v.transactionId)) else None
  }

  ghost predicate Linking(v: Observation, id: string) { v.Event? && v.transactionRecordId == Some(id) }

  /** The last transaction that could answer for the link stands elsewhere. */
  ghost predicate Crosses(raws: seq<RawLine>, run: string, v: Observation, id: string)
    requires v.Event?
  {
    exists k :: 0 <= k < |raws| && Answers(raws[k], run, id) && !Agrees(raws[k].value, v)
                && forall i :: k < i < |raws| ==> !Answers(raws[i], run, id)
  }

  ghost predicate LinkWrong(raws: seq<RawLine>, run: string, v: Observation, f: Fault) {
    exists id :: Linking(v, id)
                 && ((f == DANGLING_LINK && forall i :: 0 <= i < |raws| ==> !Answers(raws[i], run, id))
                     || (f == CROSSING_LINK && Crosses(raws, run, v, id)))
  }

  ghost predicate Duplicated(raws: seq<RawLine>, run: string, v: Observation, f: Fault) {
    v.RunId() == run
    && ((f == DUPLICATE_RECORD && Shared(raws, run, RecordIdOf, v.RecordId()))
        || (f == DUPLICATE_ORDINAL && Shared(raws, run, OrdinalOf, v.Ordinal()))
        || (f == DUPLICATE_CORRELATION && CorrelationOf(v).Some?
            && Shared(raws, run, CorrelationOf, CorrelationOf(v).value)))
  }

  /** What a record of a bundle with this header is rejected for. */
  ghost predicate RecordWrong(rules: Rules, raws: seq<RawLine>, head: Observation, v: Observation, f: Fault) {
    || (f == FOREIGN_RUN && v.RunId() != head.RunId())
    || (f == ZERO_ORDINAL && !v.Header? && v.Ordinal() == 0)
    || f in rules(head, v)
    || Duplicated(raws, head.RunId(), v, f)
    || LinkWrong(raws, head.RunId(), v, f)
  }

  ghost predicate BundleWrong(rules: Rules, raws: seq<RawLine>, x: nat, f: Fault)
    requires x < |raws|
  {
    if HeaderCount(raws) != 1 then f == HeaderCountFault(HeaderCount(raws))
    else exists h: nat :: OnlyHeader(raws, h) && WrongUnder(rules, raws, h, x, f)
  }

  ghost predicate WrongUnder(rules: Rules, raws: seq<RawLine>, h: nat, x: nat, f: Fault)
    requires OnlyHeader(raws, h) && x < |raws|
  {
    || (x == h && x != 0 && f == NOT_FIRST)
    || (x == h && raws[h].value.Ordinal() != 0 && f == HEADER_ORDINAL)
    || (raws[x].Parsed? && RecordWrong(rules, raws, raws[h].value, raws[x].value, f))
  }

  // ----- reasons across bundles -----

  predicate Placed(bundles: seq<seq<RawLine>>, p: int, x: int) {
    0 <= p < |bundles| && 0 <= x < |bundles[p]| && bundles[p][x].Parsed?
  }

  /** Two different lines, anywhere, under one key, that contradict each other. */
  ghost predicate Clash<K>(bundles: seq<seq<RawLine>>, key: Observation -> Option<K>,
                           clash: (Observation, Observation) -> bool, k: K) {
    exists p, x, q, y :: Placed(bundles, p, x) && Placed(bundles, q, y) && (p != q || x != y)
                         && key(bundles[p][x].value) == Some(k) && key(bundles[q][y].value) == Some(k)
                         && clash(bundles[p][x].value, bundles[q][y].value)
  }

  function RunOf(v: Observation): Option<string> { if v.Header? then Some(v.runId) else None }

  function ScopeOf(v: Observation): Option<string> {
    if v.Capability? then Some(ScopeKey(v.subject, v.common.context)) else None
  }

  function EntryOf(v: Observation): Option<string> {
    if v.Capability? && !v.subject.Identity? then Some(ManifestKey(v.subject)) else None
  }

  ghost predicate CrossWrong(bundles: seq<seq<RawLine>>, v: Observation, f: Fault) {
    || (f == DUPLICATE_RUN && RunOf(v).Some? && Clash(bundles, RunOf, Always, RunOf(v).value))
    || (f == SCOPE_CONFLICT && ScopeOf(v).Some? && Clash(bundles, ScopeOf, ScopeClash, ScopeOf(v).value))
    || (f == MANIFEST_CONFLICT && EntryOf(v).Some? && Clash(bundles, EntryOf, ManifestClash, EntryOf(v).value))
  }

  /** Everything line `x` of bundle `p` is rejected for. */
  ghost predicate Wrong(rules: Rules, bundles: seq<seq<RawLine>>, p: nat, x: nat, f: Fault)
    requires p < |bundles| && x < |bundles[p]|
  {
    var raw := bundles[p][x];
    || (raw.Unparsed? && f == raw.fault)
    || BundleWrong(rules, bundles[p], x, f)
    || (raw.Parsed? && CrossWrong(bundles, raw.value, f))
  }

  // ----- within a bundle, the checks find exactly these -----

  lemma SharedClash<K>(raws: seq<RawLine>, run: string, key: Observation -> Option<K>, rule: ClashRule<K>, k: K)
    requires forall v :: rule.key(v) == if v.RunId() == run then key(v) else None
    requires forall v, w :: rule.clash(v, w)
    ensures Clashing(Map(raws, ParseLine), rule, k) <==> Shared(raws, run, key, k)
  {
    var lines := Map(raws, ParseLine);
    if Clashing(lines, rule, k) {
      var i, j :| 0 <= i < j < |lines| && ClashAt(lines, rule, k, i, j);
      assert raws[i].Parsed? && raws[j].Parsed?;
    }
    if Shared(raws, run, key, k) {
      var i, j :| 0 <= i < j < |raws| && raws[i].Parsed? && raws[j].Parsed?
                  && raws[i].value.RunId() == run && raws[j].value.RunId() == run
                  && key(raws[i].value) == Some(k) && key(raws[j].value) == Some(k);
      assert ClashAt(lines, rule, k, i, j);
    }
  }

  lemma RecordsShared(raws: seq<RawLine>, run: string, v: Observation)
    ensures ClashFaults(Map(raws, ParseLine), RecordRule(run), v)
            == if v.RunId() == run && Shared(raws, run, RecordIdOf, v.RecordId()) then {DUPLICATE_RECORD} else {}
  {
    SharedClash(raws, run, RecordIdOf, RecordRule(run), v.RecordId());
  }

  lemma OrdinalsShared(raws: seq<RawLine>, run: string, v: Observation)
    ensures ClashFaults(Map(raws, ParseLine), OrdinalRule(run), v)
            == if v.RunId() == run && Shared(raws, run, OrdinalOf, v.Ordinal()) then {DUPLICATE_ORDINAL} else {}
  {
    SharedClash(raws, run, OrdinalOf, OrdinalRule(run), v.Ordinal());
  }

  lemma CorrelationsShared(raws: seq<RawLine>, run: string, v: Observation)
    ensures ClashFaults(Map(raws, ParseLine), CorrelationRule(run), v)
            == if v.RunId() == run && CorrelationOf(v).Some?
                  && Shared(raws, run, CorrelationOf, CorrelationOf(v).value) then {DUPLICATE_CORRELATION} else {}
  {
    if v.Transaction? { SharedClash(raws, run, CorrelationOf, CorrelationRule(run), CorrelationOf(v).value); }
  }

  lemma LinksFound(raws: seq<RawLine>, run: string, v: Observation, f: Fault)
    ensures f in LinkFaults(v, Targets(Map(raws, ParseLine), run)) <==> LinkWrong(raws, run, v, f)
  {
    if v.Event? && v.transactionRecordId.Some? {
      var lines, id := Map(raws, ParseLine), v.transactionRecordId.value;
      assert Linking(v, id);
      forall i | 0 <= i < |raws| ensures IsTarget(lines[i], run, id) <==> Answers(raws[i], run, id) {
        RawTarget(raws[i], run, id);
      }
      if LinkTarget(lines, run, id).Some? {
        var k := LastTarget(lines, run, id);
        LastTransactionAnswers(raws, run, id, v, k);
        LastCrosses(raws, run, v, id, k);
      } else if i :| 0 <= i < |raws| && Answers(raws[i], run, id) {
        SomeTarget(lines, run, id, i);
      }
    }
  }

  lemma LastCrosses(raws: seq<RawLine>, run: string, v: Observation, id: string, k: nat)
    requires v.Event? && k < |raws| && Answers(raws[k], run, id)
    requires forall i :: k < i < |raws| ==> !Answers(raws[i], run, id)
    ensures Crosses(raws, run, v, id) <==> !Agrees(raws[k].value, v)
  {}

  lemma OwnFound(rules: Rules, raws: seq<RawLine>, head: Observation, v: Observation, f: Fault)
    ensures f in OwnFaults(rules, head, v, Targets(Map(raws, ParseLine), head.RunId()))
            <==> || (f == FOREIGN_RUN && v.RunId() != head.RunId())
                 || (f == ZERO_ORDINAL && !v.Header? && v.Ordinal() == 0)
                 || f in rules(head, v) || LinkWrong(raws, head.RunId(), v, f)
  {
    LinksFound(raws, head.RunId(), v, f);
  }

  lemma DuplicatesFound(raws: seq<RawLine>, run: string, v: Observation, f: Fault)
    ensures Duplicated(raws, run, v, f)
            <==> || f in ClashFaults(Map(raws, ParseLine), RecordRule(run), v)
                 || f in ClashFaults(Map(raws, ParseLine), OrdinalRule(run), v)
                 || f in ClashFaults(Map(raws, ParseLine), CorrelationRule(run), v)
  {
    RecordsShared(raws, run, v);
    OrdinalsShared(raws, run, v);
    CorrelationsShared(raws, run, v);
  }

  lemma RecordFound(rules: Rules, raws: seq<RawLine>, head: Observation, v: Observation, f: Fault)
    ensures f in RecordFaults(rules, Map(raws, ParseLine), head, v) <==> RecordWrong(rules, raws, head, v, f)
  {
    DuplicatesFound(raws, head.RunId(), v, f);
    OwnFound(rules, raws, head, v, f);
  }

  lemma {:induction false} Counted(r: seq<nat>)
    requires forall i, j :: 0 <= i < j < |r| ==> r[i] < r[j]
    ensures |Elements(r)| == |r|
    decreases |r|
  {
    if r != [] {
      var n := |r| - 1;
      Counted(r[..n]);
      assert r == r[..n] + [r[n]];
      assert Elements(r) == Elements(r[..n]) + {r[n]};
    } else {
      assert Elements(r) == {};
    }
  }

  lemma CountedPlaces(raws: seq<RawLine>)
    ensures |Places(Map(raws, ParseLine), IsHeader)| == HeaderCount(raws)
  {
    var lines := Map(raws, ParseLine);
    var heads := Places(lines, IsHeader);
    Counted(heads);
    forall i: nat ensures i in heads <==> HeaderAt(raws, i) {
      if i < |raws| { assert IsHeader(lines[i]) <==> HeaderAt(raws, i); }
    }
    assert Elements(heads) == set i: nat | i < |raws| && HeaderAt(raws, i);
  }

  lemma BundleFound(rules: Rules, raws: seq<RawLine>, x: nat, f: Fault)
    requires x < |raws|
    ensures f in BundleFaults(rules, Map(raws, ParseLine), x) <==> BundleWrong(rules, raws, x, f)
  {
    var lines := Map(raws, ParseLine);
    CountedPlaces(raws);
    if HeaderCount(raws) == 1 {
      PlacedHeader(raws);
      var h := Places(lines, IsHeader)[0];
      forall g: nat | OnlyHeader(raws, g) ensures g == h {}
      if raws[x].Parsed? { RecordFound(rules, raws, raws[h].value, raws[x].value, f); }
    }
  }

  // ----- across bundles -----

  function Bundled(rules: Rules, bundles: seq<seq<RawLine>>): seq<seq<Line>> { Map(bundles, Checker(rules)) }

  const MISSING := Line("bundle:missing-header", None, {HeaderCountFault(0)}, false)

  lemma LoneLine(rules: Rules, line: Line)
    requires line.value.None?
    ensures CheckedBundle(rules, [line]) == [AddFaults(line, {HeaderCountFault(0)})]
  {
    assert [line][..0] == [];
    assert Places([line], IsHeader) == [];
    assert BundleFaults(rules, [line], 0) == {HeaderCountFault(0)};
  }

  lemma EmptyLine(rules: Rules, bundles: seq<seq<RawLine>>, p: nat)
    requires p < |bundles| && bundles[p] == []
    ensures Bundled(rules, bundles)[p] == [MISSING]
  {
    LoneLine(rules, MISSING);
    assert AddFaults(MISSING, {HeaderCountFault(0)}) == MISSING;
  }

  /** The lines carry the values of the bundles; an empty bundle has one line without a value. */
  ghost predicate Carries(bundles: seq<seq<RawLine>>, ss: seq<seq<Line>>) {
    |ss| == |bundles| && forall p :: 0 <= p < |bundles| ==> CarriesOne(bundles[p], ss[p])
  }

  ghost predicate CarriesOne(raws: seq<RawLine>, lines: seq<Line>) {
    if raws == [] then |lines| == 1 && lines[0].value.None?
    else |lines| == |raws| && forall x :: 0 <= x < |raws| ==> lines[x].value == ParsedValue(raws[x])
  }

  function ParsedValue(raw: RawLine): Option<Observation> { if raw.Parsed? then Some(raw.value) else None }

  lemma BundledCarries(rules: Rules, bundles: seq<seq<RawLine>>)
    ensures Carries(bundles, Bundled(rules, bundles))
  {
    forall p | 0 <= p < |bundles| ensures CarriesOne(bundles[p], Bundled(rules, bundles)[p]) {
      if bundles[p] == [] { EmptyLine(rules, bundles, p); }
    }
  }

  lemma ValuePlace(bundles: seq<seq<RawLine>>, ss: seq<seq<Line>>, i: nat) returns (p: nat, x: nat)
    requires Carries(bundles, ss) && i < |Flat(ss)| && Flat(ss)[i].value.Some?
    ensures Placed(bundles, p, x) && i == Offset(ss, p) + x && Flat(ss)[i].value == Some(bundles[p][x].value)
  {
    p, x := FlatPlace(ss, i);
    FlatAt(ss, p, x);
    assert CarriesOne(bundles[p], ss[p]);
  }

  lemma PlacedLine(bundles: seq<seq<RawLine>>, ss: seq<seq<Line>>, p: nat, x: nat)
    requires Carries(bundles, ss) && p < |bundles| && x < |bundles[p]|
    ensures Offset(ss, p) + x < |Flat(ss)| && |ss[p]| == |bundles[p]| && Flat(ss)[Offset(ss, p) + x] == ss[p][x]
    ensures ss[p][x].value == ParsedValue(bundles[p][x])
  {
    assert CarriesOne(bundles[p], ss[p]);
    FlatAt(ss, p, x);
  }

  lemma PlacesApart(bundles: seq<seq<RawLine>>, ss: seq<seq<Line>>, p: nat, x: nat, q: nat, y: nat)
    requires Carries(bundles, ss) && (p != q || x != y)
    requires p < |bundles| && x < |bundles[p]| && q < |bundles| && y < |bundles[q]|
    ensures Offset(ss, p) + x != Offset(ss, q) + y
  {
    assert CarriesOne(bundles[p], ss[p]) && CarriesOne(bundles[q], ss[q]);
    OffsetStep(ss, p);
    OffsetStep(ss, q);
    if p < q { OffsetGrows(ss, p + 1, q); }
    if q < p { OffsetGrows(ss, q + 1, p); }
  }

  /** Lines that clash are placed lines that clash. */
  lemma ClashPlaced<K>(bundles: seq<seq<RawLine>>, ss: seq<seq<Line>>, rule: ClashRule<K>, k: K)
    requires Carries(bundles, ss) && Clashing(Flat(ss), rule, k)
    ensures Clash(bundles, rule.key, rule.clash, k)
  {
    var i, j :| 0 <= i < j < |Flat(ss)| && ClashAt(Flat(ss), rule, k, i, j);
    var p, x := ValuePlace(bundles, ss, i);
    var q, y := ValuePlace(bundles, ss, j);
    assert p != q || x != y;
  }

  lemma PlacedClash<K>(bundles: seq<seq<RawLine>>, ss: seq<seq<Line>>, rule: ClashRule<K>, k: K)
    requires Carries(bundles, ss) && Symmetric(rule.clash) && Clash(bundles, rule.key, rule.clash, k)
    ensures Clashing(Flat(ss), rule, k)
  {
    var p, x, q, y :| Placed(bundles, p, x) && Placed(bundles, q, y) && (p != q || x != y)
                      && rule.key(bundles[p][x].value) == Some(k) && rule.key(bundles[q][y].value) == Some(k)
                      && rule.clash(bundles[p][x].value, bundles[q][y].value);
    PlacedLine(bundles, ss, p, x);
    PlacedLine(bundles, ss, q, y);
    PlacesApart(bundles, ss, p, x, q, y);
    var i, j := Offset(ss, p) + x, Offset(ss, q) + y;
    if i < j { assert ClashAt(Flat(ss), rule, k, i, j); } else { assert ClashAt(Flat(ss), rule, k, j, i); }
  }

  lemma ClashPlaces<K>(bundles: seq<seq<RawLine>>, ss: seq<seq<Line>>, rule: ClashRule<K>, k: K)
    requires Carries(bundles, ss) && Symmetric(rule.clash)
    ensures Clashing(Flat(ss), rule, k) <==> Clash(bundles, rule.key, rule.clash, k)
  {
    if Clashing(Flat(ss), rule, k) { ClashPlaced(bundles, ss, rule, k); }
    if Clash(bundles, rule.key, rule.clash, k) { PlacedClash(bundles, ss, rule, k); }
  }

  lemma RunsFound(bundles: seq<seq<RawLine>>, ss: seq<seq<Line>>, v: Observation)
    requires Carries(bundles, ss)
    ensures ClashFaults(Flat(ss), RunRule(), v)
            == if RunOf(v).Some? && Clash(bundles, RunOf, Always, RunOf(v).value) then {DUPLICATE_RUN} else {}
  {
    if v.Header? {
      ClashPlaces(bundles, ss, RunRule(), v.runId);
      SameClash(bundles, RunRule().key, RunOf, Always, v.runId);
    }
  }

  lemma ScopesFound(bundles: seq<seq<RawLine>>, ss: seq<seq<Line>>, v: Observation)
    requires Carries(bundles, ss)
    ensures ClashFaults(Flat(ss), ScopeRule(), v)
            == if ScopeOf(v).Some? && Clash(bundles, ScopeOf, ScopeClash, ScopeOf(v).value) then {SCOPE_CONFLICT}
               else {}
  {
    RulesSymmetric();
    if v.Capability? {
      ClashPlaces(bundles, ss, ScopeRule(), ScopeOf(v).value);
      SameClash(bundles, ScopeRule().key, ScopeOf, ScopeClash, ScopeOf(v).value);
    }
  }

  lemma EntriesFound(bundles: seq<seq<RawLine>>, ss: seq<seq<Line>>, v: Observation)
    requires Carries(bundles, ss)
    ensures ClashFaults(Flat(ss), ManifestRule(), v)
            == if EntryOf(v).Some? && Clash(bundles, EntryOf, ManifestClash, EntryOf(v).value) then {MANIFEST_CONFLICT}
               else {}
  {
    RulesSymmetric();
    if EntryOf(v).Some? {
      ClashPlaces(bundles, ss, ManifestRule(), EntryOf(v).value);
      SameClash(bundles, ManifestRule().key, EntryOf, ManifestClash, EntryOf(v).value);
    }
  }

  lemma CrossFound(bundles: seq<seq<RawLine>>, ss: seq<seq<Line>>, v: Observation, f: Fault)
    requires Carries(bundles, ss)
    ensures f in CrossFaults(Flat(ss), v) <==> CrossWrong(bundles, v, f)
  {
    RunsFound(bundles, ss, v);
    ScopesFound(bundles, ss, v);
    EntriesFound(bundles, ss, v);
  }

  lemma SameClash<K>(bundles: seq<seq<RawLine>>, a: Observation -> Option<K>, b: Observation -> Option<K>,
                     clash: (Observation, Observation) -> bool, k: K)
    requires forall v :: a(v) == b(v)
    ensures Clash(bundles, a, clash, k) <==> Clash(bundles, b, clash, k)
  {
    if Clash(bundles, a, clash, k) {
      var p, x, q, y :| Placed(bundles, p, x) && Placed(bundles, q, y) && (p != q || x != y)
                        && a(bundles[p][x].value) == Some(k) && a(bundles[q][y].value) == Some(k)
                        && clash(bundles[p][x].value, bundles[q][y].value);
      assert b(bundles[p][x].value) == Some(k) && b(bundles[q][y].value) == Some(k);
    }
    if Clash(bundles, b, clash, k) {
      var p, x, q, y :| Placed(bundles, p, x) && Placed(bundles, q, y) && (p != q || x != y)
                        && b(bundles[p][x].value) == Some(k) && b(bundles[q][y].value) == Some(k)
                        && clash(bundles[p][x].value, bundles[q][y].value);
      assert a(bundles[p][x].value) == Some(k) && a(bundles[q][y].value) == Some(k);
    }
  }

  // ----- every line -----

  function LineName(raw: RawLine): string { if raw.Parsed? then raw.value.Name() else raw.identity }

  lemma CheckedParts(rules: Rules, raws: seq<RawLine>, x: nat, f: Fault)
    requires x < |raws|
    ensures var l := Checker(rules)(raws)[x];
      && l.identity == LineName(raws[x]) && l.value == ParsedValue(raws[x]) && l.counts
      && (f in l.faults <==> (raws[x].Unparsed? && f == raws[x].fault) || BundleWrong(rules, raws, x, f))
  {
    BundleFound(rules, raws, x, f);
  }

  lemma FlatLine(rules: Rules, bundles: seq<seq<RawLine>>, p: nat, x: nat)
    requires p < |bundles| && x < |bundles[p]|
    ensures var ss := Bundled(rules, bundles);
      && Offset(ss, p) + x < |Flat(ss)| && x < |Checker(rules)(bundles[p])|
      && Flat(ss)[Offset(ss, p) + x] == Checker(rules)(bundles[p])[x]
  {
    BundledCarries(rules, bundles);
    PlacedLine(bundles, Bundled(rules, bundles), p, x);
  }

  lemma WrongParts(rules: Rules, bundles: seq<seq<RawLine>>, p: nat, x: nat, f: Fault)
    requires p < |bundles| && x < |bundles[p]|
    ensures var ss, l := Bundled(rules, bundles), Checker(rules)(bundles[p])[x];
      Wrong(rules, bundles, p, x, f) <==> f in l.faults || (l.value.Some? && f in CrossFaults(Flat(ss), l.value.value))
  {
    CheckedParts(rules, bundles[p], x, f);
    BundledCarries(rules, bundles);
    if bundles[p][x].Parsed? { CrossFound(bundles, Bundled(rules, bundles), bundles[p][x].value, f); }
  }

  /** A line is rejected for exactly what is wrong with it. */
  lemma LineFound(rules: Rules, bundles: seq<seq<RawLine>>, p: nat, x: nat, f: Fault)
    requires p < |bundles| && x < |bundles[p]|
    ensures var lines, i := CheckedLines(rules, bundles), Offset(Bundled(rules, bundles), p) + x;
      && i < |lines| && lines[i].identity == LineName(bundles[p][x]) && lines[i].counts
      && (f in lines[i].faults <==> Wrong(rules, bundles, p, x, f))
  {
    FlatLine(rules, bundles, p, x);
    WrongParts(rules, bundles, p, x, f);
    CheckedParts(rules, bundles[p], x, f);
    CrossLine(Flat(Bundled(rules, bundles)), Offset(Bundled(rules, bundles), p) + x, f);
  }

  lemma CrossLine(lines: seq<Line>, i: nat, f: Fault)
    requires i < |lines|
    ensures var l := CrossChecked(lines)[i];
      && l.identity == lines[i].identity && l.counts == lines[i].counts && l.value == lines[i].value
      && (f in l.faults <==> f in lines[i].faults
                             || (lines[i].value.Some? && f in CrossFaults(lines, lines[i].value.value)))
  {}

  /** A bundle without lines is reported as one line, which does not count. */
  lemma MissingFound(rules: Rules, bundles: seq<seq<RawLine>>, p: nat)
    requires p < |bundles| && bundles[p] == []
    ensures var lines, i := CheckedLines(rules, bundles), Offset(Bundled(rules, bundles), p);
      i < |lines| && lines[i] == MISSING
  {
    EmptyLine(rules, bundles, p);
    FlatAt(Bundled(rules, bundles), p, 0);
    CrossUnvalued(Flat(Bundled(rules, bundles)), Offset(Bundled(rules, bundles), p));
  }

  lemma CrossUnvalued(lines: seq<Line>, i: nat)
    requires i < |lines| && lines[i].value.None?
    ensures CrossChecked(lines)[i] == lines[i]
  {}

  /** And there are no other lines. */
  lemma LinePlace(rules: Rules, bundles: seq<seq<RawLine>>, i: nat) returns (p: nat, x: nat)
    requires i < |CheckedLines(rules, bundles)|
    ensures p < |bundles| && i == Offset(Bundled(rules, bundles), p) + x
    ensures if bundles[p] == [] then x == 0 else x < |bundles[p]|
  {
    var ss := Bundled(rules, bundles);
    BundledCarries(rules, bundles);
    p, x := FlatPlace(ss, i);
    assert CarriesOne(bundles[p], ss[p]);
  }

  // ----- the report -----

  ghost predicate LineReported(rules: Rules, bundles: seq<seq<RawLine>>, p: nat, x: nat, d: Disposition)
    requires p < |bundles| && x < |bundles[p]|
  {
    && d.identity == LineName(bundles[p][x])
    && if forall f :: !Wrong(rules, bundles, p, x, f) then d == Disposition(d.identity, Accepted, 0, "accepted")
       else d.status == Rejected && Wrong(rules, bundles, p, x, Fault(d.code, d.message))
  }

  /** One entry for a line with nothing wrong, one for each thing wrong with another, one for an empty bundle. */
  ghost predicate Reported(rules: Rules, bundles: seq<seq<RawLine>>, d: Disposition) {
    || (exists p: nat, x: nat :: p < |bundles| && x < |bundles[p]| && LineReported(rules, bundles, p, x, d))
    || (exists p :: 0 <= p < |bundles| && bundles[p] == []
                    && d == Disposition("bundle:missing-header", Rejected, HeaderCountFault(0).code,
                                        HeaderCountFault(0).message))
  }

  lemma DispositionsOf(line: Line, d: Disposition)
    ensures d in LineDispositions(line)
            <==> && d.identity == line.identity
                 && if line.faults == {} then d == Disposition(d.identity, Accepted, 0, "accepted")
                    else d.status == Rejected && Fault(d.code, d.message) in line.faults
  {
    FaultOrder();
    if line.faults != {} {
      var fs := Ascending(line.faults, FaultLe);
      var ds := Map(fs, RejectionOf(line.identity));
      if d.identity == line.identity && d.status == Rejected && Fault(d.code, d.message) in line.faults {
        assert Fault(d.code, d.message) in fs;
        var i :| 0 <= i < |fs| && fs[i] == Fault(d.code, d.message);
        assert ds[i] == d;
      }
      if d in ds {
        var i :| 0 <= i < |ds| && ds[i] == d;
        assert fs[i] in fs;
      }
    }
  }

  lemma {:induction false} InFlat<T>(ss: seq<seq<T>>, d: T)
    ensures d in Flat(ss) <==> exists i :: 0 <= i < |ss| && d in ss[i]
    decreases |ss|
  {
    if ss != [] {
      var n := |ss| - 1;
      InFlat(ss[..n], d);
      if d in Flat(ss[..n]) {
        var i :| 0 <= i < n && d in ss[..n][i];
        assert d in ss[i];
      }
      if i :| 0 <= i < |ss| && d in ss[i] {
        if i < n { assert d in ss[..n][i]; }
      }
    }
  }

  lemma Dispositioned(lines: seq<Line>, d: Disposition)
    ensures d in ReportOf(lines).dispositions <==> exists i :: 0 <= i < |lines| && d in LineDispositions(lines[i])
    ensures Sorted(ReportOf(lines).dispositions, DispositionLe)
  {
    var ss := Map(lines, LineDispositions);
    DispositionOrder();
    SortSorted(Flat(ss), DispositionLe);
    SameMembers(Sort(Flat(ss), DispositionLe), Flat(ss));
    InFlat(ss, d);
    if i :| 0 <= i < |lines| && d in LineDispositions(lines[i]) { assert d in ss[i]; }
    if i :| 0 <= i < |ss| && d in ss[i] { assert d in LineDispositions(lines[i]); }
  }

  lemma LineDisposed(rules: Rules, bundles: seq<seq<RawLine>>, p: nat, x: nat, d: Disposition)
    requires p < |bundles| && x < |bundles[p]|
    ensures var lines, i := CheckedLines(rules, bundles), Offset(Bundled(rules, bundles), p) + x;
      i < |lines| && (d in LineDispositions(lines[i]) <==> LineReported(rules, bundles, p, x, d))
  {
    var lines, i := CheckedLines(rules, bundles), Offset(Bundled(rules, bundles), p) + x;
    LineFound(rules, bundles, p, x, Fault(d.code, d.message));
    DispositionsOf(lines[i], d);
    assert lines[i].faults == {} <==> forall f :: !Wrong(rules, bundles, p, x, f) by {
      forall f ensures f in lines[i].faults <==> Wrong(rules, bundles, p, x, f) { LineFound(rules, bundles, p, x, f); }
    }
  }

  lemma MissingDisposed(d: Disposition)
    ensures d in LineDispositions(MISSING)
            <==> d == Disposition("bundle:missing-header", Rejected, HeaderCountFault(0).code,
                                  HeaderCountFault(0).message)
  {
    DispositionsOf(MISSING, d);
  }

  lemma ListedReported(rules: Rules, bundles: seq<seq<RawLine>>, d: Disposition, i: nat)
    requires i < |CheckedLines(rules, bundles)| && d in LineDispositions(CheckedLines(rules, bundles)[i])
    ensures Reported(rules, bundles, d)
  {
    var p, x := LinePlace(rules, bundles, i);
    if bundles[p] == [] {
      MissingFound(rules, bundles, p);
      MissingDisposed(d);
    } else {
      LineDisposed(rules, bundles, p, x, d);
    }
  }

  lemma ReportedListed(rules: Rules, bundles: seq<seq<RawLine>>, d: Disposition) returns (i: nat)
    requires Reported(rules, bundles, d)
    ensures i < |CheckedLines(rules, bundles)| && d in LineDispositions(CheckedLines(rules, bundles)[i])
  {
    if p: nat, x: nat :| p < |bundles| && x < |bundles[p]| && LineReported(rules, bundles, p, x, d) {
      LineDisposed(rules, bundles, p, x, d);
      i := Offset(Bundled(rules, bundles), p) + x;
    } else {
      var p :| 0 <= p < |bundles| && bundles[p] == []
               && d == Disposition("bundle:missing-header", Rejected, HeaderCountFault(0).code,
                                   HeaderCountFault(0).message);
      MissingFound(rules, bundles, p);
      MissingDisposed(d);
      i := Offset(Bundled(rules, bundles), p);
    }
  }

  /** The report of a validation, accepted or not, lists exactly what is wrong, in order. */
  lemma ReportSays(rules: Rules, bundles: seq<seq<RawLine>>, d: Disposition)
    ensures var r := ReportOf(CheckedLines(rules, bundles));
      && (d in r.dispositions <==> Reported(rules, bundles, d)) && Sorted(r.dispositions, DispositionLe)
  {
    var lines := CheckedLines(rules, bundles);
    Dispositioned(lines, d);
    if i :| 0 <= i < |lines| && d in LineDispositions(lines[i]) { ListedReported(rules, bundles, d, i); }
    if Reported(rules, bundles, d) { var i := ReportedListed(rules, bundles, d); }
  }

  // ----- the counts -----

  ghost function HoldsAt<T>(s: seq<T>, test: T -> bool): set<nat> { set i: nat | i < |s| && test(s[i]) }

  /** At how many places the test holds. */
  ghost function CountWhere<T>(s: seq<T>, test: T -> bool): nat { |HoldsAt(s, test)| }

  lemma CountLast<T>(s: seq<T>, test: T -> bool)
    requires s != []
    ensures CountWhere(s, test) == CountWhere(s[..|s| - 1], test) + if test(s[|s| - 1]) then 1 else 0
  {
    var n := |s| - 1;
    var front, all := HoldsAt(s[..n], test), HoldsAt(s, test);
    forall i: nat ensures i in all <==> i in front || (i == n && test(s[n])) {
      if i < n { assert s[..n][i] == s[i]; }
    }
    assert all == if test(s[n]) then front + {n} else front;
  }

  lemma {:induction false} FilterCount<T>(s: seq<T>, test: T -> bool)
    ensures |Filter(s, test)| == CountWhere(s, test)
    decreases |s|
  {
    if s == [] {
      assert HoldsAt(s, test) == {};
    } else {
      FilterCount(s[..|s| - 1], test);
      CountLast(s, test);
    }
  }

  /** Every line of a bundle counts, and the line that stands for an empty bundle does not. */
  ghost predicate CountsOne(raws: seq<RawLine>, lines: seq<Line>) {
    if raws == [] then lines == [MISSING] else |lines| == |raws| && forall x :: 0 <= x < |raws| ==> lines[x].counts
  }

  function Empties(bundles: seq<seq<RawLine>>): nat {
    if bundles == [] then 0
    else Empties(bundles[..|bundles| - 1]) + if bundles[|bundles| - 1] == [] then 1 else 0
  }

  lemma {:induction false} CountedLines(bundles: seq<seq<RawLine>>, ss: seq<seq<Line>>)
    requires |ss| == |bundles| && forall p :: 0 <= p < |bundles| ==> CountsOne(bundles[p], ss[p])
    ensures |Filter(Flat(ss), Counts)| == |Flat(bundles)|
    ensures |Flat(ss)| == |Flat(bundles)| + Empties(bundles)
    decreases |ss|
  {
    if ss != [] {
      var n := |ss| - 1;
      CountedLines(bundles[..n], ss[..n]);
      assert CountsOne(bundles[n], ss[n]);
      FilterAppend(Flat(ss[..n]), ss[n], Counts);
      if bundles[n] == [] { FilterOne(MISSING, Counts); } else { FilterAll(ss[n], Counts); }
    }
  }

  lemma {:induction false} FilterAlike<A, B>(a: seq<A>, b: seq<B>, p: A -> bool, q: B -> bool)
    requires |a| == |b| && forall i :: 0 <= i < |a| ==> p(a[i]) == q(b[i])
    ensures |Filter(a, p)| == |Filter(b, q)|
    decreases |a|
  {
    if a != [] { FilterAlike(a[..|a| - 1], b[..|b| - 1], p, q); }
  }

  lemma {:induction false} FilterSplit<T>(s: seq<T>, p: T -> bool, q: T -> bool)
    requires forall i :: 0 <= i < |s| ==> p(s[i]) != q(s[i])
    ensures |Filter(s, p)| + |Filter(s, q)| == |s|
    decreases |s|
  {
    if s != [] { FilterSplit(s[..|s| - 1], p, q); }
  }

  lemma BundledCounts(rules: Rules, bundles: seq<seq<RawLine>>)
    ensures forall p :: 0 <= p < |bundles| ==> CountsOne(bundles[p], Bundled(rules, bundles)[p])
  {
    forall p | 0 <= p < |bundles| ensures CountsOne(bundles[p], Bundled(rules, bundles)[p]) {
      if bundles[p] == [] { EmptyLine(rules, bundles, p); }
    }
  }

  /** A line that does not count is not clean. */
  lemma UncountedFaulty(rules: Rules, bundles: seq<seq<RawLine>>, i: nat)
    requires i < |CheckedLines(rules, bundles)| && !CheckedLines(rules, bundles)[i].counts
    ensures CheckedLines(rules, bundles)[i].faults != {}
  {
    var p, x := LinePlace(rules, bundles, i);
    if bundles[p] == [] {
      MissingFound(rules, bundles, p);
      assert HeaderCountFault(0) in MISSING.faults;
    } else {
      LineFound(rules, bundles, p, x, NOT_FIRST);
    }
  }

  /** The counts of a report: all lines, those with nothing wrong, and the rest, empty bundles among them. */
  lemma ReportCounts(rules: Rules, bundles: seq<seq<RawLine>>)
    ensures var lines, r := CheckedLines(rules, bundles), ReportOf(CheckedLines(rules, bundles));
      && |lines| == |Flat(bundles)| + Empties(bundles)
      && r.total == |Flat(bundles)|
      && r.accepted == CountWhere(lines, Clean)
      && r.rejected == CountWhere(lines, Faulty)
      && r.accepted + r.rejected == r.total + Empties(bundles)
  {
    var lines, ss := CheckedLines(rules, bundles), Bundled(rules, bundles);
    BundledCounts(rules, bundles);
    CountedLines(bundles, ss);
    FilterAlike(lines, Flat(ss), Counts, Counts);
    CountedClean(rules, bundles, lines);
  }

  lemma CountedClean(rules: Rules, bundles: seq<seq<RawLine>>, lines: seq<Line>)
    requires lines == CheckedLines(rules, bundles)
    ensures var r := ReportOf(lines);
      && r.total == |Filter(lines, Counts)|
      && r.accepted == CountWhere(lines, Clean)
      && r.rejected == CountWhere(lines, Faulty)
      && r.accepted + r.rejected == |lines|
  {
    forall i: nat | i < |lines| && !lines[i].counts ensures lines[i].faults != {} {
      UncountedFaulty(rules, bundles, i);
    }
    ReportFilters(lines);
  }

  lemma CleanCounted(lines: seq<Line>)
    requires forall i: nat :: i < |lines| && !lines[i].counts ==> lines[i].faults != {}
    ensures |Filter(lines, CountsClean)| == CountWhere(lines, Clean)
            == |Filter(lines, Clean)|
  {
    FilterAlike(lines, lines, CountsClean, Clean);
    FilterCount(lines, Clean);
  }

  lemma FaultyCounted(lines: seq<Line>)
    ensures var n := |Filter(lines, Faulty)|;
      n == CountWhere(lines, Faulty) && |Filter(lines, Clean)| + n == |lines|
  {
    FilterCount(lines, Faulty);
    FilterSplit(lines, Clean, Faulty);
  }

  lemma ReportFilters(lines: seq<Line>)
    requires forall i: nat :: i < |lines| && !lines[i].counts ==> lines[i].faults != {}
    ensures var r := ReportOf(lines);
      && r.total == |Filter(lines, Counts)|
      && r.accepted == CountWhere(lines, Clean)
      && r.rejected == CountWhere(lines, Faulty)
      && r.accepted + r.rejected == |lines|
  {
    CleanCounted(lines);
    FaultyCounted(lines);
  }

  // ----- what acceptance returns -----

  lemma {:induction false} FilterHalves<T>(s: seq<T>, p: T -> bool, q: T -> bool)
    requires forall i :: 0 <= i < |s| ==> p(s[i]) != q(s[i])
    ensures multiset(Filter(s, p)) + multiset(Filter(s, q)) == multiset(s)
    decreases |s|
  {
    if s != [] {
      var n, x := |s| - 1, s[|s| - 1];
      FilterHalves(s[..n], p, q);
      assert s == s[..n] + [x];
      if p(x) {
        assert Filter(s, p) == Filter(s[..n], p) + [x] && Filter(s, q) == Filter(s[..n], q);
      } else {
        assert Filter(s, p) == Filter(s[..n], p) && Filter(s, q) == Filter(s[..n], q) + [x];
      }
    }
  }

  function RawValue(raw: RawLine): Observation { ValueOf(ParseLine(raw)) }

  lemma HeadersAndRecords(lines: seq<Line>)
    requires forall i :: 0 <= i < |lines| ==> Clean(lines[i]) && lines[i].value.Some?
    ensures multiset(HeadersOf(lines) + RecordsOf(lines)) == multiset(Map(lines, ValueOf))
    ensures forall v :: v in HeadersOf(lines) ==> v.Header?
    ensures forall v :: v in RecordsOf(lines) ==> !v.Header?
  {
    var hs, rs := Filter(lines, IsCleanHeader), Filter(lines, IsCleanRecord);
    FilterHalves(lines, IsCleanHeader, IsCleanRecord);
    assert multiset(hs + rs) == multiset(lines);
    MapPermuted(hs + rs, lines, ValueOf);
    MapAppend(hs, rs, ValueOf);
    assert multiset(HeadersOf(lines)) == multiset(Map(hs, ValueOf));
    assert multiset(RecordsOf(lines)) == multiset(Map(rs, ValueOf));
    SameMembers(HeadersOf(lines), Map(hs, ValueOf));
    SameMembers(RecordsOf(lines), Map(rs, ValueOf));
    forall v | v in HeadersOf(lines) ensures v.Header? { FilteredValues(lines, IsCleanHeader, v); }
    forall v | v in RecordsOf(lines) ensures !v.Header? { FilteredValues(lines, IsCleanRecord, v); }
  }

  lemma AcceptedLines(rules: Rules, bundles: seq<seq<RawLine>>)
    requires CoherentAll(bundles) && CrossClean(ParsedLines(bundles))
    ensures var lines := ParsedLines(bundles);
      && (forall i :: 0 <= i < |lines| ==> Clean(lines[i]) && lines[i].value.Some?)
      && Map(lines, ValueOf) == Map(Flat(bundles), RawValue)
  {
    var lines := ParsedLines(bundles);
    forall p | 0 <= p < |bundles| ensures bundles[p] != [] { assert Coherent(bundles[p]); }
    ParsedFlat(bundles);
    forall i | 0 <= i < |lines| ensures Clean(lines[i]) && lines[i].value.Some? {
      CrossCleanLine(lines, i);
      ParsedIdentity(bundles, i);
    }
  }

  /** Accepted input comes back whole: its headers by run, its records by run and ordinal. */
  lemma ValidatedExactly(rules: Rules, bundles: seq<seq<RawLine>>, v: Validated)
    requires Validate(rules, bundles) == Ok(v)
    ensures multiset(v.headers + v.records) == multiset(Map(Flat(bundles), RawValue))
    ensures (forall h :: h in v.headers ==> h.Header?) && (forall r :: r in v.records ==> !r.Header?)
    ensures Sorted(v.headers, RunLe) && Sorted(v.records, RecordLe)
  {
    AcceptedCoherent(rules, bundles);
    var lines := ParsedLines(bundles);
    AcceptedLines(rules, bundles);
    HeadersAndRecords(lines);
    RunLePreorder();
    RecordLePreorder();
    SortSorted(Map(Filter(lines, IsCleanHeader), ValueOf), RunLe);
    SortSorted(Map(Filter(lines, IsCleanRecord), ValueOf), RecordLe);
  }
}
