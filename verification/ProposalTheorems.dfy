// When a proposal passes its own integrity check, and why its order never varies.
module ProposalTheorems {
  import opened Options
  import opened Observation
  import opened Ordering
  import opened Sorting
  import opened Bags
  import opened Validation
  import opened ValidationOrder
  import opened LineOrder
  import opened Proposal
  import opened ProposalIntegrity

  function LineIdentity(l: Line): string { l.identity }

  /** The identities the records of the input will be linked under. */
  function Identities(bundles: seq<seq<RawLine>>): seq<string> { Map(ParsedLines(bundles), LineIdentity) }

  // ----- the accepted lines and what is assembled from them -----

  function AcceptedDisposition(l: Line): Disposition { Disposition(l.identity, Accepted, ACCEPTED_CODE, "accepted") }

  lemma {:induction false} FlatSingles<A, B>(s: seq<A>, f: A -> seq<B>, g: A -> B)
    requires forall i :: 0 <= i < |s| ==> f(s[i]) == [g(s[i])]
    ensures Flat(Map(s, f)) == Map(s, g)
    decreases |s|
  {
    if s != [] {
      var n := |s| - 1;
      FlatSingles(s[..n], f, g);
      assert Map(s, f)[..n] == Map(s[..n], f);
    }
  }

  lemma CleanDispositions(lines: seq<Line>)
    requires forall i :: 0 <= i < |lines| ==> Clean(lines[i])
    ensures multiset(Map(ReportOf(lines).dispositions, DispositionIdentity)) == multiset(Map(lines, LineIdentity))
    ensures Sorted(ReportOf(lines).dispositions, DispositionLe)
  {
    FlatSingles(lines, LineDispositions, AcceptedDisposition);
    var unsorted := Flat(Map(lines, LineDispositions));
    DispositionOrder();
    SortSorted(unsorted, DispositionLe);
    MapPermuted(ReportOf(lines).dispositions, unsorted, DispositionIdentity);
    assert Map(unsorted, DispositionIdentity) == Map(lines, LineIdentity);
  }

  lemma ParsedIdentity(bundles: seq<seq<RawLine>>, i: nat)
    requires CoherentAll(bundles) && i < |ParsedLines(bundles)|
    ensures var l := ParsedLines(bundles)[i]; l.value.Some? && l.identity == l.value.value.Name()
  {
    var p, x := ParsedPlace(bundles, i);
    CoherentRun(bundles[p], x);
  }

  lemma SortedValues(lines: seq<Line>, keep: Line -> bool, le: (Observation, Observation) -> bool)
    requires forall l :: keep(l) ==> l.value.Some?
    requires forall i :: 0 <= i < |lines| && lines[i].value.Some? ==> lines[i].identity == lines[i].value.value.Name()
    ensures forall v :: v in Sort(Map(Filter(lines, keep), ValueOf), le) ==> v.Name() in Map(lines, LineIdentity)
  {
    var vs := Map(Filter(lines, keep), ValueOf);
    SameMembers(vs, Sort(vs, le));
    forall v | v in Sort(vs, le) ensures v.Name() in Map(lines, LineIdentity) {
      FilteredValues(lines, keep, v);
      var i :| 0 <= i < |lines| && lines[i].value == Some(v) && keep(lines[i]);
      assert Map(lines, LineIdentity)[i] == v.Name();
    }
  }

  lemma NoDuplicatesPermuted<T(!new)>(a: seq<T>, b: seq<T>)
    requires multiset(a) == multiset(b)
    ensures NoDuplicates(a) ==> NoDuplicates(b)
  {
    if !NoDuplicates(b) {
      var same := (x: T, y: T) => x == y;
      assert RelatedPair(b, same);
      PairPermuted(b, a, same);
      var i, j :| 0 <= i < j < |a| && same(a[i], a[j]);
    }
  }

  /** For accepted input, the proposal is sound exactly if no two lines share an identity. */
  lemma IntegrityIffDistinct(codec: Codec, rules: Rules, bundles: seq<seq<RawLine>>)
    requires codec.Faithful() && Validate(rules, bundles).Ok?
    ensures Integrity(codec, ProposalOf(codec, Validate(rules, bundles).value)) <==> NoDuplicates(Identities(bundles))
  {
    AcceptedCoherent(rules, bundles);
    var lines, v := ParsedLines(bundles), Validate(rules, bundles).value;
    forall i | 0 <= i < |lines|
      ensures lines[i].value.Some? && lines[i].identity == lines[i].value.value.Name() && Clean(lines[i])
    {
      ParsedIdentity(bundles, i);
      CrossCleanLine(lines, i);
    }
    CleanDispositions(lines);
    AssembledNames(codec, lines);
    NoDuplicatesPermuted(Identities(bundles), Map(v.report.dispositions, DispositionIdentity));
    NoDuplicatesPermuted(Map(v.report.dispositions, DispositionIdentity), Identities(bundles));
  }

  lemma DispositionNames(ds: seq<Disposition>, names: seq<string>, s: string)
    requires multiset(Map(ds, DispositionIdentity)) == multiset(names) && s in names
    ensures exists i :: 0 <= i < |ds| && ds[i].identity == s
  {
    var ids := Map(ds, DispositionIdentity);
    SameMembers(ids, names);
    assert s in ids;
    var i :| 0 <= i < |ids| && ids[i] == s;
    assert ds[i].identity == s;
  }

  lemma AssembledNames(codec: Codec, lines: seq<Line>)
    requires codec.Faithful()
    requires forall i :: 0 <= i < |lines| ==> lines[i].value.Some? && lines[i].identity == lines[i].value.value.Name()
    requires multiset(Map(ReportOf(lines).dispositions, DispositionIdentity)) == multiset(Map(lines, LineIdentity))
    requires Sorted(ReportOf(lines).dispositions, DispositionLe)
    ensures var v := Validated(HeadersOf(lines), RecordsOf(lines), ReportOf(lines));
      Integrity(codec, ProposalOf(codec, v)) <==> NoDuplicates(Map(v.report.dispositions, DispositionIdentity))
  {
    SortedValues(lines, IsCleanHeader, RunLe);
    SortedValues(lines, IsCleanRecord, RecordLe);
    NamedIntegrity(codec, Validated(HeadersOf(lines), RecordsOf(lines), ReportOf(lines)), Map(lines, LineIdentity));
  }

  lemma NamedIntegrity(codec: Codec, v: Validated, names: seq<string>)
    requires codec.Faithful() && Sorted(v.report.dispositions, DispositionLe)
    requires forall x :: x in v.headers ==> x.Name() in names
    requires forall x :: x in v.records ==> x.Name() in names
    requires multiset(Map(v.report.dispositions, DispositionIdentity)) == multiset(names)
    ensures Integrity(codec, ProposalOf(codec, v)) <==> NoDuplicates(Map(v.report.dispositions, DispositionIdentity))
  {
    forall s | s in Elements(names)
      ensures exists i :: 0 <= i < |v.report.dispositions| && v.report.dispositions[i].identity == s
    {
      DispositionNames(v.report.dispositions, names, s);
    }
    assert forall i :: 0 <= i < |v.headers| ==> v.headers[i] in v.headers;
    assert forall i :: 0 <= i < |v.records| ==> v.records[i] in v.records;
    BuiltIntegrity(codec, v, Elements(names));
  }

  /** The entry of one input line: every candidate that cites the line, in id order. */
  ghost predicate Accounts(cs: seq<Candidate>, d: RecordDisposition) {
    && Strict(d.candidateIds, StrLe) && (d.status.Proposed? <==> d.candidateIds != [])
    && forall id :: id in d.candidateIds <==> LinksForward(cs, id, d.identity)
  }

  /** A proposal lists every input line once, in order, each with exactly the candidates that cite it. */
  lemma RecordsProposed(codec: Codec, rules: Rules, bundles: seq<seq<RawLine>>, p: Proposal)
    requires codec.Faithful() && Propose(codec, rules, bundles) == Ok(p)
    ensures multiset(Map(p.dispositions, IdentityOfRecord)) == multiset(Identities(bundles))
    ensures Sorted(Map(p.dispositions, IdentityOfRecord), StrLe)
    ensures forall d :: d in p.dispositions ==> Accounts(p.candidates, d)
  {
    AcceptedCoherent(rules, bundles);
    var lines, v := ParsedLines(bundles), Validate(rules, bundles).value;
    forall i | 0 <= i < |lines| ensures Clean(lines[i]) {
      ParsedIdentity(bundles, i);
      CrossCleanLine(lines, i);
    }
    CleanDispositions(lines);
    LinkedEntries(p.candidates, v.report.dispositions);
    BuiltWell(codec, v.headers, v.records);
    RecordsSound(p.candidates, v.report.dispositions);
    forall d | d in p.dispositions ensures Accounts(p.candidates, d) {
      EntryAccounts(p.candidates, v.report.dispositions, d);
    }
  }

  lemma LinkedEntries(cs: seq<Candidate>, ds: seq<Disposition>)
    requires Sorted(ds, DispositionLe)
    ensures Map(Map(ds, Linker(cs)), IdentityOfRecord) == Map(ds, DispositionIdentity)
    ensures Sorted(Map(ds, DispositionIdentity), StrLe)
  {
    StrOrder();
    forall i, j | 0 <= i < j < |ds| ensures StrLe(ds[i].identity, ds[j].identity) {
      assert DispositionLe(ds[i], ds[j]);
    }
  }

  lemma EntryAccounts(cs: seq<Candidate>, ds: seq<Disposition>, d: RecordDisposition)
    requires d in Map(ds, Linker(cs)) && RecordSound(cs, d)
    ensures Accounts(cs, d)
  {
    LinkedIdsAre(cs, d.identity);
    forall id | LinksForward(cs, id, d.identity) ensures id in d.candidateIds {
      var c :| c in cs && c.id == id && d.identity in c.sources;
    }
  }

  // ----- when joined identities collide -----

  /** The run of `w` continues the run of `v`, and the record id of `v` starts with that continuation. */
  predicate Nests(v: Observation, w: Observation) {
    exists x | 0 <= x <= |w.RunId()| :: NestsAt(v, w, w.RunId()[x..])
  }

  predicate NestsAt(v: Observation, w: Observation, rest: string) {
    w.RunId() == v.RunId() + ":" + rest && v.RecordId() == rest + ":" + w.RecordId()
  }

  lemma NestsJoin(v: Observation, w: Observation)
    requires Nests(v, w)
    ensures v.Name() == w.Name() && v.RunId() != w.RunId()
  {
    var x :| 0 <= x <= |w.RunId()| && NestsAt(v, w, w.RunId()[x..]);
    var rest := w.RunId()[x..];
    calc {
      w.Name();
      v.RunId() + ":" + rest + ":" + w.RecordId();
      v.RunId() + ":" + (rest + ":" + w.RecordId());
      v.Name();
    }
    assert |w.RunId()| > |v.RunId()|;
  }

  /** Cutting one text at two of its separators: the longer head contains the shorter one. */
  lemma CutTwice(r: string, a: string, s: string, b: string)
    requires r + ":" + a == s + ":" + b && |r| < |s|
    ensures s == r + ":" + s[|r| + 1..] && a == s[|r| + 1..] + ":" + b
  {
    var name, n := r + ":" + a, |r|;
    assert s == name[..|s|] by { assert name == s + ":" + b; }
    assert s[..n] == r && s[n] == ':';
    assert s == s[..n] + [s[n]] + s[n + 1..];
    assert a == name[n + 1..];
    assert (s + ":" + b)[n + 1..] == s[n + 1..] + ":" + b;
  }

  lemma JoinNests(v: Observation, w: Observation)
    requires v.Name() == w.Name() && |v.RunId()| < |w.RunId()|
    ensures Nests(v, w)
  {
    CutTwice(v.RunId(), v.RecordId(), w.RunId(), w.RecordId());
    assert NestsAt(v, w, w.RunId()[|v.RunId()| + 1..]);
  }

  lemma SameLengthRuns(v: Observation, w: Observation)
    requires v.Name() == w.Name() && |v.RunId()| == |w.RunId()|
    ensures v.RunId() == w.RunId() && v.RecordId() == w.RecordId()
  {
    var n := |v.RunId()|;
    assert v.Name()[..n] == v.RunId() && w.Name()[..n] == w.RunId();
    assert v.Name()[n + 1..] == v.RecordId() && w.Name()[n + 1..] == w.RecordId();
  }

  /** Two records of different runs share an identity exactly if one nests in the other. */
  lemma CollisionIffNested(v: Observation, w: Observation)
    ensures v.Name() == w.Name() && (v.RunId() != w.RunId() || v.RecordId() != w.RecordId())
            <==> Nests(v, w) || Nests(w, v)
  {
    if Nests(v, w) { NestsJoin(v, w); }
    if Nests(w, v) { NestsJoin(w, v); }
    if v.Name() == w.Name() {
      if |v.RunId()| < |w.RunId()| { JoinNests(v, w); }
      else if |w.RunId()| < |v.RunId()| { JoinNests(w, v); }
      else { SameLengthRuns(v, w); }
    }
  }

  /** Some record of the input nests in a record of another run. */
  ghost predicate NestedInput(bundles: seq<seq<RawLine>>) {
    exists p, x, q, y :: 0 <= p < |bundles| && 0 <= x < |bundles[p]| && 0 <= q < |bundles| && 0 <= y < |bundles[q]|
      && bundles[p][x].Parsed? && bundles[q][y].Parsed? && Nests(bundles[p][x].value, bundles[q][y].value)
  }

  /**
   * A proposal built from accepted input passes its integrity check if and only
   * if no run id extends another by a colon in a way its record ids complete.
   */
  lemma ProposalPassesIntegrity(codec: Codec, rules: Rules, bundles: seq<seq<RawLine>>)
    requires codec.Faithful() && Propose(codec, rules, bundles).Ok?
    ensures Integrity(codec, Propose(codec, rules, bundles).value) <==> !NestedInput(bundles)
  {
    IntegrityIffDistinct(codec, rules, bundles);
    AcceptedCoherent(rules, bundles);
    DistinctIffNotNested(bundles);
  }

  lemma IdentityAt(bundles: seq<seq<RawLine>>, p: nat, x: nat) returns (i: nat)
    requires p < |bundles| && x < |bundles[p]| && bundles[p][x].Parsed?
    ensures i < |Identities(bundles)| && Identities(bundles)[i] == bundles[p][x].value.Name()
    ensures ParsedLines(bundles)[i] == ParseLine(bundles[p][x])
  {
    ParsedAt(bundles, p, x);
    i := Offset(Map(bundles, Parser()), p) + x;
  }

  lemma NestedCollides(bundles: seq<seq<RawLine>>)
    requires NestedInput(bundles)
    ensures !NoDuplicates(Identities(bundles))
  {
    var p, x, q, y :| 0 <= p < |bundles| && 0 <= x < |bundles[p]| && 0 <= q < |bundles| && 0 <= y < |bundles[q]|
      && bundles[p][x].Parsed? && bundles[q][y].Parsed? && Nests(bundles[p][x].value, bundles[q][y].value);
    PairCollides(bundles, p, x, q, y);
  }

  lemma PairCollides(bundles: seq<seq<RawLine>>, p: nat, x: nat, q: nat, y: nat)
    requires p < |bundles| && x < |bundles[p]| && bundles[p][x].Parsed?
    requires q < |bundles| && y < |bundles[q]| && bundles[q][y].Parsed?
    requires Nests(bundles[p][x].value, bundles[q][y].value)
    ensures !NoDuplicates(Identities(bundles))
  {
    var v, w := bundles[p][x].value, bundles[q][y].value;
    NestsJoin(v, w);
    var i := IdentityAt(bundles, p, x);
    var j := IdentityAt(bundles, q, y);
    assert ParsedLines(bundles)[i].value == Some(v) && ParsedLines(bundles)[j].value == Some(w);
    assert v != w;
    assert i != j;
  }

  lemma DistinctIffNotNested(bundles: seq<seq<RawLine>>)
    requires CoherentAll(bundles)
    ensures NoDuplicates(Identities(bundles)) <==> !NestedInput(bundles)
  {
    if NestedInput(bundles) { NestedCollides(bundles); }
    if !NoDuplicates(Identities(bundles)) {
      var ids, lines := Identities(bundles), ParsedLines(bundles);
      var i, j :| 0 <= i < j < |ids| && ids[i] == ids[j];
      var p, x := ParsedPlace(bundles, i);
      var q, y := ParsedPlace(bundles, j);
      ParsedIdentity(bundles, i);
      ParsedIdentity(bundles, j);
      ParsedApart(bundles);
      var v, w := bundles[p][x].value, bundles[q][y].value;
      assert Apart(lines[i].value.value, lines[j].value.value);
      CollisionIffNested(v, w);
      assert Nests(v, w) || Nests(w, v);
    }
  }

  /** Run ids without a colon are enough. */
  lemma ColonFreeRunsPass(codec: Codec, rules: Rules, bundles: seq<seq<RawLine>>)
    requires codec.Faithful() && Propose(codec, rules, bundles).Ok?
    requires forall p, x :: 0 <= p < |bundles| && 0 <= x < |bundles[p]| && bundles[p][x].Parsed? ==>
               ':' !in bundles[p][x].value.RunId()
    ensures Integrity(codec, Propose(codec, rules, bundles).value)
  {
    ProposalPassesIntegrity(codec, rules, bundles);
    forall p, x, q, y | 0 <= p < |bundles| && 0 <= x < |bundles[p]| && 0 <= q < |bundles| && 0 <= y < |bundles[q]|
      && bundles[p][x].Parsed? && bundles[q][y].Parsed?
      ensures !Nests(bundles[p][x].value, bundles[q][y].value)
    {
      NestingHasColon(bundles[p][x].value, bundles[q][y].value);
    }
  }

  lemma NestingHasColon(v: Observation, w: Observation)
    ensures Nests(v, w) ==> ':' in w.RunId()
  {
    if Nests(v, w) {
      var k :| 0 <= k <= |w.RunId()| && NestsAt(v, w, w.RunId()[k..]);
      assert w.RunId()[|v.RunId()|] == ':';
    }
  }

  /** The order of bundles never shows in the outcome, that of lines not where input is accepted or undisputed. */
  lemma ProposalOrderIrrelevant(codec: Codec, rules: Rules, a: seq<seq<RawLine>>, b: seq<seq<RawLine>>,
                                c: seq<seq<RawLine>>)
    requires multiset(a) == multiset(b)
    requires |b| == |c| && forall p :: 0 <= p < |b| ==> Shuffled(b[p], c[p])
    ensures Propose(codec, rules, a) == Propose(codec, rules, b)
    ensures Propose(codec, rules, a).Ok? || (forall p :: 0 <= p < |b| ==> !Disputed(rules, b[p]))
            ==> Propose(codec, rules, c) == Propose(codec, rules, a)
  {
    BundleOrderIrrelevant(rules, a, b);
    if Validate(rules, b).Ok? {
      LineOrderIrrelevant(rules, b, c);
    } else if forall p :: 0 <= p < |b| ==> !Disputed(rules, b[p]) {
      ReportOrderIrrelevant(rules, b, c);
    }
  }

  // ----- nested run ids are accepted and do fail -----

  predicate Lone(h: Observation) { h.Header? && h.Ordinal() == 0 }

  lemma LoneHead(h: Observation)
    requires Lone(h)
    ensures var heads := Places([ParseLine(Parsed(h))], IsHeader); |heads| == 1 && heads[0] == 0
  {
    var lines := [ParseLine(Parsed(h))];
    var heads := Places(lines, IsHeader);
    assert IsHeader(lines[0]);
    assert 0 in heads;
    AtMostOne(heads, 0);
  }

  lemma LoneClean(rules: Rules, h: Observation)
    requires Lone(h) && rules(h, h) == {}
    ensures ParseBundle([Parsed(h)]) == [ParseLine(Parsed(h))]
    ensures Checker(rules)([Parsed(h)]) == [ParseLine(Parsed(h))]
  {
    var line := ParseLine(Parsed(h));
    var lines := [line];
    assert ParseBundle([Parsed(h)]) == lines;
    LoneHead(h);
    assert RecordFaults(rules, lines, h, h) == {};
    assert BundleFaults(rules, lines, 0) == {};
    assert AddFaults(line, {}) == line;
  }

  lemma TwoHeadersClean(g: Observation, h: Observation)
    requires Lone(g) && Lone(h) && g.RunId() != h.RunId()
    ensures CrossClean([ParseLine(Parsed(g)), ParseLine(Parsed(h))])
  {
    var lines := [ParseLine(Parsed(g)), ParseLine(Parsed(h))];
    forall k: string ensures !Clashing(lines, RunRule(), k) && !Clashing(lines, ScopeRule(), k)
      && !Clashing(lines, ManifestRule(), k) {}
    assert CrossFaults(lines, g) == {} && CrossFaults(lines, h) == {};
    forall i | 0 <= i < |lines| ensures Clean(CrossChecked(lines)[i]) {}
  }

  /** Two bundles of one header each, one header nested in the other: accepted, but the proposal is not sound. */
  lemma NestedRunsFail(codec: Codec, rules: Rules, g: Observation, h: Observation)
    requires codec.Faithful() && Lone(g) && Lone(h) && rules(g, g) == {} && rules(h, h) == {} && Nests(g, h)
    ensures var input := [[Parsed(g)], [Parsed(h)]];
      Propose(codec, rules, input).Ok? && !Integrity(codec, Propose(codec, rules, input).value)
  {
    var input: seq<seq<RawLine>> := [[Parsed(g)], [Parsed(h)]];
    NestsJoin(g, h);
    TwoHeadersAccepted(rules, g, h);
    assert input[0][0].value == g && input[1][0].value == h;
    ProposalPassesIntegrity(codec, rules, input);
  }

  lemma TwoHeadersAccepted(rules: Rules, g: Observation, h: Observation)
    requires Lone(g) && Lone(h) && rules(g, g) == {} && rules(h, h) == {} && g.RunId() != h.RunId()
    ensures Validate(rules, [[Parsed(g)], [Parsed(h)]]).Ok?
  {
    var input: seq<seq<RawLine>> := [[Parsed(g)], [Parsed(h)]];
    TwoHeaderLines(rules, g, h);
    TwoHeadersClean(g, h);
    AcceptedCrossClean(rules, input);
  }

  lemma TwoHeaderLines(rules: Rules, g: Observation, h: Observation)
    requires Lone(g) && Lone(h) && rules(g, g) == {} && rules(h, h) == {}
    ensures BundleLines(rules, [[Parsed(g)], [Parsed(h)]]) == [ParseLine(Parsed(g)), ParseLine(Parsed(h))]
  {
    LoneClean(rules, g);
    LoneClean(rules, h);
    var checked := Map([[Parsed(g)], [Parsed(h)]], Checker(rules));
    FlatTwo(checked, checked[0], checked[1]);
  }

  lemma FlatTwo<T>(ss: seq<seq<T>>, a: seq<T>, b: seq<T>)
    requires |ss| == 2 && ss[0] == a && ss[1] == b
    ensures Flat(ss) == a + b
  {
    assert ss[..1][..0] == [];
    assert Flat(ss[..1]) == Flat(ss[..0]) + a;
    assert ss[..0] == [];
  }

  lemma NestedExample(camera: Camera)
    ensures Nests(Header("a", "b:c", 0, camera, ""), Header("a:b", "c", 0, camera, ""))
  {
    assert "a:b"[2..] == "b";
    assert NestsAt(Header("a", "b:c", 0, camera, ""), Header("a:b", "c", 0, camera, ""), "a:b"[2..]);
  }
}
