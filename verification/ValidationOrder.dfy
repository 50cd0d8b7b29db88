// The order of bundles never matters to validation; the order of lines inside an
// accepted bundle does not matter either.
module ValidationOrder {
  import opened Options
  import opened Observation
  import opened Ordering
  import opened Sorting
  import opened Bags
  import opened Validation

  // ----- clash rules do not look at the order of lines -----

  ghost predicate Symmetric(clash: (Observation, Observation) -> bool) {
    forall a, b :: clash(a, b) == clash(b, a)
  }

  lemma RulesSymmetric()
    ensures Symmetric(Always) && Symmetric(ScopeClash) && Symmetric(ManifestClash)
  {
    forall a: Observation, b: Observation
      ensures ScopeClash(a, b) == ScopeClash(b, a) && ManifestClash(a, b) == ManifestClash(b, a)
    {
      if a.Capability? && b.Capability? { ConflictSymmetric(a.subject, b.subject); }
    }
  }

  function PairOf<K(==)>(rule: ClashRule<K>, k: K): (Line, Line) -> bool {
    (x: Line, y: Line) => Holds(x, rule.key, k) && Holds(y, rule.key, k) && rule.clash(x.value.value, y.value.value)
  }

  lemma ClashIsPair<K>(lines: seq<Line>, rule: ClashRule<K>, k: K)
    ensures Clashing(lines, rule, k) == RelatedPair(lines, PairOf(rule, k))
  {
    if Clashing(lines, rule, k) {
      var i, j :| 0 <= i < j < |lines| && ClashAt(lines, rule, k, i, j);
      assert PairOf(rule, k)(lines[i], lines[j]);
    }
    if RelatedPair(lines, PairOf(rule, k)) {
      var i, j :| 0 <= i < j < |lines| && PairOf(rule, k)(lines[i], lines[j]);
      assert ClashAt(lines, rule, k, i, j);
    }
  }

  lemma PairSymmetric<K>(rule: ClashRule<K>, k: K, x: Line, y: Line)
    requires Symmetric(rule.clash)
    ensures PairOf(rule, k)(x, y) == PairOf(rule, k)(y, x)
  {
    if Holds(x, rule.key, k) && Holds(y, rule.key, k) {
      var clash, v, w := rule.clash, x.value.value, y.value.value;
      assert clash(v, w) == clash(w, v);
    }
  }

  lemma ClashPermuted<K>(a: seq<Line>, b: seq<Line>, rule: ClashRule<K>, v: Observation)
    requires multiset(a) == multiset(b) && Symmetric(rule.clash)
    ensures ClashFaults(a, rule, v) == ClashFaults(b, rule, v)
  {
    if rule.key(v).Some? {
      var k := rule.key(v).value;
      ClashIsPair(a, rule, k);
      ClashIsPair(b, rule, k);
      var rel := PairOf(rule, k);
      forall x: Line, y: Line ensures rel(x, y) == rel(y, x) { PairSymmetric(rule, k, x, y); }
      PairPermuted(a, b, rel);
      PairPermuted(b, a, rel);
    }
  }

  // ----- the cross-bundle pass -----

  function CrossOf(lines: seq<Line>): Line -> Line {
    (l: Line) => if l.value.Some? then AddFaults(l, CrossFaults(lines, l.value.value)) else l
  }

  lemma CrossPermuted(a: seq<Line>, b: seq<Line>)
    requires multiset(a) == multiset(b)
    ensures multiset(CrossChecked(a)) == multiset(CrossChecked(b))
  {
    assert CrossChecked(a) == Map(a, CrossOf(a));
    assert CrossChecked(b) == Map(b, CrossOf(b));
    RulesSymmetric();
    forall l: Line ensures CrossOf(a)(l) == CrossOf(b)(l) {
      if l.value.Some? {
        ClashPermuted(a, b, RunRule(), l.value.value);
        ClashPermuted(a, b, ScopeRule(), l.value.value);
        ClashPermuted(a, b, ManifestRule(), l.value.value);
      }
    }
    assert Map(b, CrossOf(b)) == Map(b, CrossOf(a));
    MapPermuted(a, b, CrossOf(a));
  }

  // ----- the report -----

  lemma DispositionOrder()
    ensures TotalOrder(DispositionLe)
  {
    StrOrder();
  }

  lemma ReportPermuted(a: seq<Line>, b: seq<Line>)
    requires multiset(a) == multiset(b)
    ensures ReportOf(a) == ReportOf(b)
  {
    FilterPermuted(a, b, Counts);
    FilterPermuted(a, b, CountsClean);
    FilterPermuted(a, b, Faulty);
    MapPermuted(a, b, LineDispositions);
    FlatPermuted(Map(a, LineDispositions), Map(b, LineDispositions));
    DispositionOrder();
    SortCanonical(Flat(Map(a, LineDispositions)), Flat(Map(b, LineDispositions)), DispositionLe);
  }

  lemma AllClean(lines: seq<Line>)
    ensures ReportOf(lines).rejected == 0 <==> forall i :: 0 <= i < |lines| ==> Clean(lines[i])
  {
    FilterMembers(lines, Faulty);
    if exists i :: 0 <= i < |lines| && !Clean(lines[i]) {
      var i :| 0 <= i < |lines| && !Clean(lines[i]);
      assert Faulty(lines[i]);
      assert lines[i] in Filter(lines, Faulty);
    }
    if |Filter(lines, Faulty)| > 0 {
      var l := Filter(lines, Faulty)[0];
      var i :| 0 <= i < |lines| && lines[i] == l;
      assert !Clean(lines[i]);
    }
  }

  // ----- places in the flattened list -----

  function Offset<T>(ss: seq<seq<T>>, p: nat): nat
    requires p <= |ss|
  {
    |Flat(ss[..p])|
  }

  lemma {:induction false} OffsetStep<T>(ss: seq<seq<T>>, p: nat)
    requires p < |ss|
    ensures Offset(ss, p + 1) == Offset(ss, p) + |ss[p]|
    ensures Flat(ss[..p + 1]) == Flat(ss[..p]) + ss[p]
  {
    assert ss[..p + 1][..p] == ss[..p];
  }

  lemma {:induction false} FlatPrefix<T>(ss: seq<seq<T>>, p: nat)
    requires p <= |ss|
    ensures Flat(ss[..p]) <= Flat(ss)
    decreases |ss| - p
  {
    if p < |ss| {
      OffsetStep(ss, p);
      FlatPrefix(ss, p + 1);
    } else {
      assert ss[..p] == ss;
    }
  }

  lemma FlatAt<T>(ss: seq<seq<T>>, p: nat, x: nat)
    requires p < |ss| && x < |ss[p]|
    ensures Offset(ss, p) + x < |Flat(ss)| && Flat(ss)[Offset(ss, p) + x] == ss[p][x]
  {
    OffsetStep(ss, p);
    FlatPrefix(ss, p + 1);
  }

  lemma {:induction false} OffsetGrows<T>(ss: seq<seq<T>>, p: nat, q: nat)
    requires p <= q <= |ss|
    ensures Offset(ss, p) <= Offset(ss, q)
    decreases q - p
  {
    if p < q {
      OffsetStep(ss, p);
      OffsetGrows(ss, p + 1, q);
    }
  }

  lemma {:induction false} FlatPlace<T>(ss: seq<seq<T>>, i: nat) returns (p: nat, x: nat)
    requires i < |Flat(ss)|
    ensures p < |ss| && x < |ss[p]| && i == Offset(ss, p) + x
    decreases |ss|
  {
    var n := |ss| - 1;
    if i < |Flat(ss[..n])| {
      p, x := FlatPlace(ss[..n], i);
      assert ss[..n][..p] == ss[..p];
    } else {
      p, x := n, i - |Flat(ss[..n])|;
    }
  }

  // ----- what acceptance says about a bundle -----

  /** One header in front, one run, and no record id or ordinal used twice. */
  ghost predicate Coherent(raws: seq<RawLine>) {
    && raws != []
    && (forall i :: 0 <= i < |raws| ==> raws[i].Parsed?)
    && (forall i :: 0 <= i < |raws| ==> (raws[i].value.Header? <==> i == 0))
    && (forall i :: 0 <= i < |raws| ==> raws[i].value.RunId() == raws[0].value.RunId())
    && (forall i, j :: 0 <= i < j < |raws| ==> raws[i].value.RecordId() != raws[j].value.RecordId())
    && (forall i, j :: 0 <= i < j < |raws| ==> raws[i].value.Ordinal() != raws[j].value.Ordinal())
  }

  ghost predicate CleanBundle(rules: Rules, raws: seq<RawLine>) {
    forall i :: 0 <= i < |ParseBundle(raws)| ==> Clean(Checker(rules)(raws)[i])
  }

  lemma CleanParts(rules: Rules, raws: seq<RawLine>, i: nat)
    requires CleanBundle(rules, raws) && i < |ParseBundle(raws)|
    ensures ParseBundle(raws)[i].faults == {} && BundleFaults(rules, ParseBundle(raws), i) == {}
  {
    assert Clean(Checker(rules)(raws)[i]);
    assert AddFaults(ParseBundle(raws)[i], BundleFaults(rules, ParseBundle(raws), i)).faults == {};
  }

  lemma CleanHead(rules: Rules, raws: seq<RawLine>)
    requires CleanBundle(rules, raws)
    ensures raws != [] && forall i :: 0 <= i < |raws| ==> raws[i].Parsed?
    ensures var heads := Places(ParseBundle(raws), IsHeader); |heads| == 1 && heads[0] == 0
  {
    var lines := ParseBundle(raws);
    var heads := Places(lines, IsHeader);
    CleanParts(rules, raws, 0);
    assert raws != [];
    forall i | 0 <= i < |raws| ensures raws[i].Parsed? {
      CleanParts(rules, raws, i);
      assert lines[i] == ParseLine(raws[i]);
    }
    assert |heads| == 1;
    CleanParts(rules, raws, heads[0]);
    assert HeadFaultsAt(heads[0], heads[0], lines[heads[0]].value.value) <= BundleFaults(rules, lines, heads[0]);
    assert NOT_FIRST !in HeadFaults(heads[0], lines[heads[0]].value.value);
  }

  lemma CleanRecord(rules: Rules, raws: seq<RawLine>, i: nat)
    requires CleanBundle(rules, raws) && i < |raws|
    ensures raws != [] && raws[0].Parsed? && raws[i].Parsed? && ParseBundle(raws)[i].value == Some(raws[i].value)
    ensures RecordFaults(rules, ParseBundle(raws), raws[0].value, raws[i].value) == {}
  {
    CleanHead(rules, raws);
    CleanParts(rules, raws, i);
    var lines := ParseBundle(raws);
    assert lines[0] == ParseLine(raws[0]) && lines[i] == ParseLine(raws[i]);
    assert ValueFaults(rules, lines, raws[0].value, lines[i].value) <= BundleFaults(rules, lines, i);
  }

  lemma NoClash<K>(lines: seq<Line>, rule: ClashRule<K>, i: nat, j: nat)
    requires i < |lines| && j < |lines| && i != j && lines[i].value.Some? && lines[j].value.Some?
    requires Symmetric(rule.clash) && rule.clash(lines[i].value.value, lines[j].value.value)
    requires ClashFaults(lines, rule, lines[i].value.value) == {}
    ensures rule.key(lines[i].value.value).None? || rule.key(lines[i].value.value) != rule.key(lines[j].value.value)
  {
    var v, w, clash := lines[i].value.value, lines[j].value.value, rule.clash;
    if rule.key(v).Some? && rule.key(v) == rule.key(w) {
      var k := rule.key(v).value;
      assert clash(v, w) == clash(w, v);
      assert if i < j then ClashAt(lines, rule, k, i, j) else ClashAt(lines, rule, k, j, i);
      assert Clashing(lines, rule, k);
    }
  }

  lemma CleanRun(rules: Rules, raws: seq<RawLine>, i: nat)
    requires CleanBundle(rules, raws) && i < |raws|
    ensures raws[i].Parsed? && raws[0].Parsed? && raws[i].value.RunId() == raws[0].value.RunId()
    ensures raws[i].value.Header? <==> i == 0
  {
    CleanHead(rules, raws);
    CleanRecord(rules, raws, i);
    var lines := ParseBundle(raws);
    assert OwnFaults(rules, raws[0].value, raws[i].value, Targets(lines, raws[0].value.RunId())) == {};
    assert FOREIGN_RUN !in OwnFaults(rules, raws[0].value, raws[i].value, Targets(lines, raws[0].value.RunId()));
    assert lines[i] == ParseLine(raws[i]);
    assert IsHeader(lines[i]) <==> raws[i].value.Header?;
    var heads := Places(lines, IsHeader);
    assert IsHeader(lines[heads[0]]);
    if IsHeader(lines[i]) { assert i in heads; }
  }

  lemma CleanPair(rules: Rules, raws: seq<RawLine>, i: nat, j: nat)
    requires CleanBundle(rules, raws) && i < |raws| && j < |raws| && i != j
    ensures raws[i].Parsed? && raws[j].Parsed?
    ensures raws[i].value.RecordId() != raws[j].value.RecordId() && raws[i].value.Ordinal() != raws[j].value.Ordinal()
  {
    CleanRun(rules, raws, i);
    CleanRun(rules, raws, j);
    CleanRecord(rules, raws, i);
    CleanRecord(rules, raws, j);
    var lines, run := ParseBundle(raws), raws[0].value.RunId();
    RulesSymmetric();
    assert ClashFaults(lines, RecordRule(run), raws[i].value) == {};
    assert ClashFaults(lines, OrdinalRule(run), raws[i].value) == {};
    NoClash(lines, RecordRule(run), i, j);
    NoClash(lines, OrdinalRule(run), i, j);
  }

  lemma CleanIsCoherent(rules: Rules, raws: seq<RawLine>)
    requires CleanBundle(rules, raws)
    ensures Coherent(raws)
  {
    CleanHead(rules, raws);
    forall i | 0 <= i < |raws|
      ensures raws[i].value.RunId() == raws[0].value.RunId() && (raws[i].value.Header? <==> i == 0)
    {
      CleanRun(rules, raws, i);
    }
    forall i, j | 0 <= i < j < |raws|
      ensures raws[i].value.RecordId() != raws[j].value.RecordId() && raws[i].value.Ordinal() != raws[j].value.Ordinal()
    {
      CleanPair(rules, raws, i, j);
    }
  }

  // ----- what acceptance says about all bundles -----

  ghost predicate CrossClean(lines: seq<Line>) {
    forall i :: 0 <= i < |lines| ==> Clean(CrossChecked(lines)[i])
  }

  lemma AcceptedCrossClean(rules: Rules, bundles: seq<seq<RawLine>>)
    ensures Validate(rules, bundles).Ok? <==> CrossClean(BundleLines(rules, bundles))
  {
    AllClean(CheckedLines(rules, bundles));
  }

  lemma CrossCleanLine(lines: seq<Line>, i: nat)
    requires CrossClean(lines) && i < |lines|
    ensures lines[i].faults == {}
    ensures lines[i].value.Some? ==> CrossFaults(lines, lines[i].value.value) == {}
    ensures CrossChecked(lines)[i] == lines[i]
  {
    assert Clean(CrossChecked(lines)[i]);
    if lines[i].value.Some? {
      assert AddFaults(lines[i], CrossFaults(lines, lines[i].value.value)).faults == {};
    }
  }

  lemma CrossCleanUnchanged(lines: seq<Line>)
    requires CrossClean(lines)
    ensures CrossChecked(lines) == lines
  {
    forall i | 0 <= i < |lines| ensures CrossChecked(lines)[i] == lines[i] { CrossCleanLine(lines, i); }
  }

  lemma CleanUnchanged(rules: Rules, raws: seq<RawLine>)
    requires CleanBundle(rules, raws)
    ensures Checker(rules)(raws) == ParseBundle(raws)
  {
    forall x | 0 <= x < |ParseBundle(raws)| ensures Checker(rules)(raws)[x] == ParseBundle(raws)[x] {
      CleanParts(rules, raws, x);
    }
  }

  lemma FlatClean(ss: seq<seq<Line>>, p: nat, x: nat)
    requires CrossClean(Flat(ss)) && p < |ss| && x < |ss[p]|
    ensures Clean(ss[p][x])
  {
    FlatAt(ss, p, x);
    CrossCleanLine(Flat(ss), Offset(ss, p) + x);
  }

  lemma AcceptedBundle(rules: Rules, bundles: seq<seq<RawLine>>, p: nat)
    requires CrossClean(BundleLines(rules, bundles)) && p < |bundles|
    ensures CleanBundle(rules, bundles[p])
  {
    var ss, mine := Map(bundles, Checker(rules)), Checker(rules)(bundles[p]);
    assert ss[p] == mine;
    forall x | 0 <= x < |mine| ensures Clean(mine[x]) {
      FlatClean(ss, p, x);
    }
  }

  function Parser(): seq<RawLine> -> seq<Line> { (raws: seq<RawLine>) => ParseBundle(raws) }

  function ParsedLines(bundles: seq<seq<RawLine>>): seq<Line> { Flat(Map(bundles, Parser())) }

  /** Accepted input, without reference to the rules: every bundle is coherent and the runs differ. */
  ghost predicate CoherentAll(bundles: seq<seq<RawLine>>) {
    && (forall p :: 0 <= p < |bundles| ==> Coherent(bundles[p]))
    && (forall p, q :: 0 <= p < q < |bundles| ==> Run(bundles[p]) != Run(bundles[q]))
  }

  function Run(raws: seq<RawLine>): string {
    if raws != [] && raws[0].Parsed? then raws[0].value.RunId() else ""
  }

  lemma AcceptedParsed(rules: Rules, bundles: seq<seq<RawLine>>)
    requires CrossClean(BundleLines(rules, bundles))
    ensures BundleLines(rules, bundles) == ParsedLines(bundles)
  {
    forall p | 0 <= p < |bundles| ensures Map(bundles, Checker(rules))[p] == Map(bundles, Parser())[p] {
      AcceptedBundle(rules, bundles, p);
      CleanUnchanged(rules, bundles[p]);
    }
    assert Map(bundles, Checker(rules)) == Map(bundles, Parser());
  }

  lemma ParsedAt(bundles: seq<seq<RawLine>>, p: nat, x: nat)
    requires p < |bundles| && bundles[p] != [] && x < |bundles[p]|
    ensures var i := Offset(Map(bundles, Parser()), p) + x;
      i < |ParsedLines(bundles)| && ParsedLines(bundles)[i] == ParseLine(bundles[p][x])
  {
    FlatAt(Map(bundles, Parser()), p, x);
  }

  lemma OffsetsApart<T>(ss: seq<seq<T>>, p: nat, q: nat)
    requires p < q < |ss| && ss[p] != []
    ensures Offset(ss, p) < Offset(ss, q)
  {
    OffsetStep(ss, p);
    OffsetGrows(ss, p + 1, q);
  }

  /** Two header lines that both pass the cross-bundle checks belong to different runs. */
  lemma HeadersApart(lines: seq<Line>, i: nat, j: nat)
    requires CrossClean(lines) && i < j < |lines| && IsHeader(lines[i]) && IsHeader(lines[j])
    ensures lines[i].value.value.RunId() != lines[j].value.value.RunId()
  {
    CrossCleanLine(lines, i);
    RulesSymmetric();
    assert ClashFaults(lines, RunRule(), lines[i].value.value) == {};
    NoClash(lines, RunRule(), i, j);
  }

  lemma DistinctRuns(bundles: seq<seq<RawLine>>, p: nat, q: nat)
    requires CrossClean(ParsedLines(bundles)) && p < q < |bundles| && Coherent(bundles[p]) && Coherent(bundles[q])
    ensures Run(bundles[p]) != Run(bundles[q])
  {
    var ss := Map(bundles, Parser());
    ParsedAt(bundles, p, 0);
    ParsedAt(bundles, q, 0);
    OffsetsApart(ss, p, q);
    HeadersApart(ParsedLines(bundles), Offset(ss, p), Offset(ss, q));
  }

  lemma AcceptedCoherent(rules: Rules, bundles: seq<seq<RawLine>>)
    requires Validate(rules, bundles).Ok?
    ensures CheckedLines(rules, bundles) == ParsedLines(bundles) && CrossClean(ParsedLines(bundles))
    ensures CoherentAll(bundles)
  {
    AcceptedCrossClean(rules, bundles);
    AcceptedParsed(rules, bundles);
    CrossCleanUnchanged(ParsedLines(bundles));
    forall p | 0 <= p < |bundles| ensures Coherent(bundles[p]) {
      AcceptedBundle(rules, bundles, p);
      CleanIsCoherent(rules, bundles[p]);
    }
    forall p, q | 0 <= p < q < |bundles| ensures Run(bundles[p]) != Run(bundles[q]) {
      DistinctRuns(bundles, p, q);
    }
  }

  /** Different records never share run and ordinal, nor run and record id. */
  predicate Apart(v: Observation, w: Observation) {
    v.RunId() == w.RunId() ==> v.Ordinal() != w.Ordinal() && v.RecordId() != w.RecordId()
  }

  ghost predicate AllApart(lines: seq<Line>) {
    && (forall i :: 0 <= i < |lines| ==> lines[i].value.Some?)
    && (forall i, j :: 0 <= i < j < |lines| ==> Apart(lines[i].value.value, lines[j].value.value))
  }

  lemma CoherentApart(raws: seq<RawLine>, x: nat, y: nat)
    requires Coherent(raws) && x < |raws| && y < |raws| && x != y
    ensures Apart(raws[x].value, raws[y].value)
  {}

  lemma CoherentRun(raws: seq<RawLine>, x: nat)
    requires Coherent(raws) && x < |raws|
    ensures raws[x].Parsed? && raws[x].value.RunId() == Run(raws)
  {}

  lemma ParsedPlace(bundles: seq<seq<RawLine>>, i: nat) returns (p: nat, x: nat)
    requires (forall p :: 0 <= p < |bundles| ==> bundles[p] != []) && i < |ParsedLines(bundles)|
    ensures p < |bundles| && x < |bundles[p]| && i == Offset(Map(bundles, Parser()), p) + x
    ensures ParsedLines(bundles)[i] == ParseLine(bundles[p][x])
  {
    p, x := FlatPlace(Map(bundles, Parser()), i);
    ParsedAt(bundles, p, x);
  }

  lemma ParsedApart(bundles: seq<seq<RawLine>>)
    requires CoherentAll(bundles)
    ensures AllApart(ParsedLines(bundles))
  {
    var lines := ParsedLines(bundles);
    forall i | 0 <= i < |lines| ensures lines[i].value.Some? {
      var p, x := ParsedPlace(bundles, i);
      CoherentRun(bundles[p], x);
    }
    forall i, j | 0 <= i < j < |lines| ensures Apart(lines[i].value.value, lines[j].value.value) {
      var p, x := ParsedPlace(bundles, i);
      var q, y := ParsedPlace(bundles, j);
      CoherentRun(bundles[p], x);
      CoherentRun(bundles[q], y);
      if p == q { CoherentApart(bundles[p], x, y); }
    }
  }

  lemma OneLine(lines: seq<Line>, v: Observation, w: Observation)
    requires AllApart(lines)
    requires exists i :: 0 <= i < |lines| && lines[i].value == Some(v)
    requires exists i :: 0 <= i < |lines| && lines[i].value == Some(w)
    requires v.RunId() == w.RunId() && (v.Ordinal() == w.Ordinal() || v.RecordId() == w.RecordId())
    ensures v == w
  {
    var i :| 0 <= i < |lines| && lines[i].value == Some(v);
    var j :| 0 <= j < |lines| && lines[j].value == Some(w);
    assert i < j ==> Apart(lines[i].value.value, lines[j].value.value);
    assert j < i ==> Apart(lines[j].value.value, lines[i].value.value);
  }

  lemma RunLePreorder()
    ensures TotalPreorder(RunLe)
  {
    StrOrder();
  }

  lemma RecordLePreorder()
    ensures TotalPreorder(RecordLe)
  {
    StrOrder();
  }

  lemma FilteredValues(lines: seq<Line>, keep: Line -> bool, v: Observation)
    requires forall l :: keep(l) ==> l.value.Some?
    requires v in Map(Filter(lines, keep), ValueOf)
    ensures exists i :: 0 <= i < |lines| && lines[i].value == Some(v) && keep(lines[i])
  {
    var fs := Filter(lines, keep);
    FilterMembers(lines, keep);
    var k :| 0 <= k < |fs| && ValueOf(fs[k]) == v;
    assert fs[k] in lines;
    var i :| 0 <= i < |lines| && lines[i] == fs[k];
  }

  lemma RecordsNoTies(lines: seq<Line>)
    requires AllApart(lines)
    ensures NoTies(Map(Filter(lines, IsCleanRecord), ValueOf), RecordLe)
  {
    var rs := Map(Filter(lines, IsCleanRecord), ValueOf);
    StrOrder();
    forall i, j | 0 <= i < |rs| && 0 <= j < |rs| && RecordLe(rs[i], rs[j]) && RecordLe(rs[j], rs[i])
      ensures rs[i] == rs[j]
    {
      FilteredValues(lines, IsCleanRecord, rs[i]);
      FilteredValues(lines, IsCleanRecord, rs[j]);
      OneLine(lines, rs[i], rs[j]);
    }
  }

  lemma HeadersNoTies(lines: seq<Line>)
    requires AllApart(lines) && CrossClean(lines)
    ensures NoTies(Map(Filter(lines, IsCleanHeader), ValueOf), RunLe)
  {
    var hs := Map(Filter(lines, IsCleanHeader), ValueOf);
    StrOrder();
    forall i, j | 0 <= i < |hs| && 0 <= j < |hs| && RunLe(hs[i], hs[j]) && RunLe(hs[j], hs[i]) ensures hs[i] == hs[j] {
      FilteredValues(lines, IsCleanHeader, hs[i]);
      FilteredValues(lines, IsCleanHeader, hs[j]);
      var k :| 0 <= k < |lines| && lines[k].value == Some(hs[i]) && IsCleanHeader(lines[k]);
      var l :| 0 <= l < |lines| && lines[l].value == Some(hs[j]) && IsCleanHeader(lines[l]);
      if k < l { HeadersApart(lines, k, l); } else if l < k { HeadersApart(lines, l, k); }
    }
  }

  /** What is assembled from lines that pass every check does not depend on their order. */
  lemma AssemblePermuted(a: seq<Line>, b: seq<Line>)
    requires multiset(a) == multiset(b) && AllApart(a) && CrossClean(a)
    ensures Assemble(a) == Assemble(b)
  {
    ReportPermuted(a, b);
    FilterPermuted(a, b, IsCleanHeader);
    FilterPermuted(a, b, IsCleanRecord);
    MapPermuted(Filter(a, IsCleanHeader), Filter(b, IsCleanHeader), ValueOf);
    MapPermuted(Filter(a, IsCleanRecord), Filter(b, IsCleanRecord), ValueOf);
    HeadersNoTies(a);
    RecordsNoTies(a);
    RunLePreorder();
    RecordLePreorder();
    SortCanonical(Map(Filter(a, IsCleanHeader), ValueOf), Map(Filter(b, IsCleanHeader), ValueOf), RunLe);
    SortCanonical(Map(Filter(a, IsCleanRecord), ValueOf), Map(Filter(b, IsCleanRecord), ValueOf), RecordLe);
  }

  // ----- the two theorems -----

  /**
   * Bundles may be given in any order: acceptance, headers, records and, on
   * rejection, the whole report are the same.
   */
  lemma BundleOrderIrrelevant(rules: Rules, a: seq<seq<RawLine>>, b: seq<seq<RawLine>>)
    requires multiset(a) == multiset(b)
    ensures Validate(rules, a) == Validate(rules, b)
  {
    MapPermuted(a, b, Checker(rules));
    FlatPermuted(Map(a, Checker(rules)), Map(b, Checker(rules)));
    CrossPermuted(BundleLines(rules, a), BundleLines(rules, b));
    if Validate(rules, a).Ok? {
      AcceptedCoherent(rules, a);
      ParsedApart(a);
      AssemblePermuted(CheckedLines(rules, a), CheckedLines(rules, b));
    } else {
      ReportPermuted(CheckedLines(rules, a), CheckedLines(rules, b));
    }
  }

  // ----- line order inside a bundle -----

  /** The same lines, with the first one left in front. */
  ghost predicate Shuffled(a: seq<RawLine>, b: seq<RawLine>) {
    multiset(a) == multiset(b) && (a != [] ==> b != [] && a[0] == b[0])
  }

  lemma {:induction false} PlacesCount(lines: seq<Line>, p: Line -> bool)
    ensures |Places(lines, p)| == |Filter(lines, p)|
    decreases |lines|
  {
    if lines != [] { PlacesCount(lines[..|lines| - 1], p); }
  }

  /** A transaction line of this run under this record id. */
  predicate IsTarget(line: Line, run: string, id: string) {
    IsTransaction(line, run) && line.value.value.RecordId() == id
  }

  lemma {:induction false} NoTarget(lines: seq<Line>, run: string, id: string)
    requires forall i :: 0 <= i < |lines| ==> !IsTarget(lines[i], run, id)
    ensures LinkTarget(lines, run, id) == None
    decreases |lines|
  {
    if lines != [] { NoTarget(lines[..|lines| - 1], run, id); }
  }

  lemma {:induction false} OnlyTarget(lines: seq<Line>, run: string, id: string, k: nat)
    requires k < |lines| && IsTarget(lines[k], run, id)
    requires forall i :: 0 <= i < |lines| && IsTarget(lines[i], run, id) ==> lines[i].value == lines[k].value
    ensures LinkTarget(lines, run, id) == Some((lines[k].value.value.connectionInstance, lines[k].value.value.session))
    decreases |lines|
  {
    var n := |lines| - 1;
    if !IsTarget(lines[n], run, id) {
      OnlyTarget(lines[..n], run, id, k);
    }
  }

  lemma {:induction false} LastTarget(lines: seq<Line>, run: string, id: string) returns (k: nat)
    requires LinkTarget(lines, run, id).Some?
    ensures k < |lines| && IsTarget(lines[k], run, id) && forall i :: k < i < |lines| ==> !IsTarget(lines[i], run, id)
    ensures LinkTarget(lines, run, id) == Some((lines[k].value.value.connectionInstance, lines[k].value.value.session))
    decreases |lines|
  {
    k := |lines| - 1;
    if !IsTarget(lines[k], run, id) { k := LastTarget(lines[..k], run, id); }
  }

  lemma OnePlace(raws: seq<RawLine>, i: nat, j: nat)
    requires Coherent(raws) && i < |raws| && j < |raws| && raws[i].value.RecordId() == raws[j].value.RecordId()
    ensures i == j
  {}

  lemma CoherentTargets(raws: seq<RawLine>, run: string, id: string)
    requires Coherent(raws)
    ensures var lines := Map(raws, ParseLine);
      forall i, j :: 0 <= i < |lines| && 0 <= j < |lines| && IsTarget(lines[i], run, id) && IsTarget(lines[j], run, id)
                     ==> lines[i].value == lines[j].value
  {
    var lines := Map(raws, ParseLine);
    forall i, j | 0 <= i < |lines| && 0 <= j < |lines| && IsTarget(lines[i], run, id) && IsTarget(lines[j], run, id)
      ensures lines[i].value == lines[j].value
    {
      CoherentRun(raws, i);
      CoherentRun(raws, j);
      OnePlace(raws, i, j);
    }
  }

  lemma {:induction false} FlatPointwise<T>(a: seq<seq<T>>, b: seq<seq<T>>)
    requires |a| == |b| && forall p :: 0 <= p < |a| ==> multiset(a[p]) == multiset(b[p])
    ensures multiset(Flat(a)) == multiset(Flat(b))
    decreases |a|
  {
    if a != [] { FlatPointwise(a[..|a| - 1], b[..|b| - 1]); }
  }

  lemma AtMostOne(places: seq<nat>, h: nat)
    requires forall i :: 0 <= i < |places| ==> places[i] == h
    requires |places| > 1 ==> places[0] < places[1]
    ensures |places| <= 1
  {}
}
