// Exactly which input validation accepts, said about the records themselves.
module Acceptance {
  import opened Options
  import opened Observation
  import opened Ordering
  import opened Sorting
  import opened Bags
  import opened Validation
  import opened ValidationOrder

  // ----- one bundle -----

  function Correlation(v: Observation): (string, string, string, nat)
    requires v.Transaction?
  {
    (v.connectionInstance, v.session, v.endpointSet, v.transactionId)
  }

  /** The event's transaction is in the bundle, on the same connection and in the same session. */
  ghost predicate Linked(raws: seq<RawLine>, id: string, e: Observation)
    requires e.Event?
  {
    exists k :: 0 <= k < |raws| && raws[k].Parsed? && raws[k].value.Transaction? && raws[k].value.RecordId() == id
             && raws[k].value.connectionInstance == e.connectionInstance && raws[k].value.session == e.session
  }

  ghost predicate LinksHold(raws: seq<RawLine>, v: Observation) {
    v.Event? && v.transactionRecordId.Some? ==> Linked(raws, v.transactionRecordId.value, v)
  }

  ghost predicate CorrelationsDiffer(raws: seq<RawLine>) {
    forall i, j ::
      && 0 <= i < j < |raws| && raws[i].Parsed? && raws[j].Parsed?
      && raws[i].value.Transaction? && raws[j].value.Transaction?
      ==> Correlation(raws[i].value) != Correlation(raws[j].value)
  }

  /** A bundle that is in order: no fault is mentioned here, only the records. */
  ghost predicate Sound(rules: Rules, raws: seq<RawLine>) {
    && Coherent(raws)
    && (forall i :: 0 <= i < |raws| ==> (raws[i].value.Ordinal() == 0 <==> i == 0))
    && (forall i :: 0 <= i < |raws| ==> rules(raws[0].value, raws[i].value) == {})
    && CorrelationsDiffer(raws)
    && (forall i :: 0 <= i < |raws| ==> LinksHold(raws, raws[i].value))
  }

  /** Two lines that the rule holds against each other. */
  predicate Against<K(==)>(x: Line, y: Line, rule: ClashRule<K>) {
    && x.value.Some? && y.value.Some?
    && rule.key(x.value.value).Some? && rule.key(x.value.value) == rule.key(y.value.value)
    && rule.clash(x.value.value, y.value.value)
  }

  ghost predicate Quiet<K>(lines: seq<Line>, rule: ClashRule<K>) {
    forall i, j :: 0 <= i < j < |lines| ==> !Against(lines[i], lines[j], rule)
  }

  /** No line carries the rule's fault exactly if no two lines are held against each other. */
  lemma QuietIff<K>(lines: seq<Line>, rule: ClashRule<K>)
    ensures Quiet(lines, rule) <==> forall i :: 0 <= i < |lines| && lines[i].value.Some? ==>
                                      ClashFaults(lines, rule, lines[i].value.value) == {}
  {
    if !Quiet(lines, rule) {
      var i, j :| 0 <= i < j < |lines| && Against(lines[i], lines[j], rule);
      assert ClashAt(lines, rule, rule.key(lines[i].value.value).value, i, j);
      assert Clashing(lines, rule, rule.key(lines[i].value.value).value);
      assert rule.fault in ClashFaults(lines, rule, lines[i].value.value);
    } else {
      forall i | 0 <= i < |lines| && lines[i].value.Some? ensures ClashFaults(lines, rule, lines[i].value.value) == {} {
        QuietLine(lines, rule, lines[i].value.value);
      }
    }
  }

  lemma QuietLine<K>(lines: seq<Line>, rule: ClashRule<K>, v: Observation)
    requires Quiet(lines, rule)
    ensures ClashFaults(lines, rule, v) == {}
  {
    if rule.key(v).Some? {
      var k := rule.key(v).value;
      forall i, j | 0 <= i < j < |lines| ensures !ClashAt(lines, rule, k, i, j) {
        assert !Against(lines[i], lines[j], rule);
      }
    }
  }

  /** The clashes looked for inside a bundle of one run are duplicates of ids, ordinals and correlations. */
  lemma BundleQuiet(raws: seq<RawLine>, run: string)
    requires Coherent(raws) && run == raws[0].value.RunId()
    ensures var lines := Map(raws, ParseLine);
      Quiet(lines, RecordRule(run)) && Quiet(lines, OrdinalRule(run))
        && (Quiet(lines, CorrelationRule(run)) <==> CorrelationsDiffer(raws))
  {
    var lines := Map(raws, ParseLine);
    forall i | 0 <= i < |raws| ensures lines[i].value == Some(raws[i].value) && raws[i].value.RunId() == run {}
    forall i, j | 0 <= i < j < |raws|
      ensures Against(lines[i], lines[j], CorrelationRule(run))
         <==> raws[i].value.Transaction? && raws[j].value.Transaction?
              && Correlation(raws[i].value) == Correlation(raws[j].value)
    {}
  }

  lemma LinkIff(raws: seq<RawLine>, v: Observation)
    requires Coherent(raws)
    ensures LinkFaults(v, Targets(Map(raws, ParseLine), raws[0].value.RunId())) == {} <==> LinksHold(raws, v)
  {
    var lines, run := Map(raws, ParseLine), raws[0].value.RunId();
    if v.Event? && v.transactionRecordId.Some? {
      var id := v.transactionRecordId.value;
      if LinkTarget(lines, run, id).Some? {
        var k := LastTarget(lines, run, id);
        assert raws[k].Parsed? && raws[k].value == lines[k].value.value;
      }
      if Linked(raws, id, v) {
        var k :| 0 <= k < |raws| && raws[k].Parsed? && raws[k].value.Transaction? && raws[k].value.RecordId() == id
              && raws[k].value.connectionInstance == v.connectionInstance && raws[k].value.session == v.session;
        assert IsTarget(lines[k], run, id);
        CoherentTargets(raws, run, id);
        OnlyTarget(lines, run, id, k);
      }
    }
  }

  /** What is asked of line `i` apart from duplicates. */
  ghost predicate Fine(rules: Rules, raws: seq<RawLine>, i: nat)
    requires Coherent(raws) && i < |raws|
  {
    && (raws[i].value.Ordinal() == 0 <==> i == 0)
    && rules(raws[0].value, raws[i].value) == {}
    && LinksHold(raws, raws[i].value)
  }

  lemma RecordSound(rules: Rules, raws: seq<RawLine>, i: nat)
    requires Coherent(raws) && i < |raws|
    ensures RecordFaults(rules, Map(raws, ParseLine), raws[0].value, raws[i].value) == {}
            && (i == 0 ==> raws[0].value.Ordinal() == 0)
       <==> ClashFaults(Map(raws, ParseLine), CorrelationRule(raws[0].value.RunId()), raws[i].value) == {}
            && Fine(rules, raws, i)
  {
    var lines, run := Map(raws, ParseLine), raws[0].value.RunId();
    BundleQuiet(raws, run);
    QuietLine(lines, RecordRule(run), raws[i].value);
    QuietLine(lines, OrdinalRule(run), raws[i].value);
    LinkIff(raws, raws[i].value);
  }

  lemma OneHeader(raws: seq<RawLine>)
    requires Coherent(raws)
    ensures var heads := Places(Map(raws, ParseLine), IsHeader); |heads| == 1 && heads[0] == 0
  {
    var lines := Map(raws, ParseLine);
    var heads := Places(lines, IsHeader);
    assert IsHeader(lines[0]);
    forall i | 0 <= i < |heads| ensures heads[i] == 0 {
      assert IsHeader(lines[heads[i]]);
    }
    AtMostOne(heads, 0);
  }

  /** A bundle passes its own checks exactly if it is sound. */
  lemma SoundIff(rules: Rules, raws: seq<RawLine>)
    ensures CleanBundle(rules, raws) <==> Sound(rules, raws)
  {
    if CleanBundle(rules, raws) { CleanIsCoherent(rules, raws); }
    if Coherent(raws) {
      CleanIff(rules, raws);
      UnclashedIff(raws);
      SoundParts(rules, raws);
    }
  }

  lemma LineSound(rules: Rules, raws: seq<RawLine>, i: nat)
    requires Coherent(raws) && i < |raws|
    ensures Clean(Checker(rules)(raws)[i])
       <==> ClashFaults(Map(raws, ParseLine), CorrelationRule(raws[0].value.RunId()), raws[i].value) == {}
            && Fine(rules, raws, i)
  {
    OneHeader(raws);
    RecordSound(rules, raws, i);
    var lines := Map(raws, ParseLine);
    assert ParseBundle(raws) == lines && lines[i].faults == {} && lines[i].value == Some(raws[i].value);
  }

  ghost predicate Unclashed(raws: seq<RawLine>, i: nat)
    requires Coherent(raws) && i < |raws|
  {
    ClashFaults(Map(raws, ParseLine), CorrelationRule(raws[0].value.RunId()), raws[i].value) == {}
  }

  lemma CleanIff(rules: Rules, raws: seq<RawLine>)
    requires Coherent(raws)
    ensures CleanBundle(rules, raws) <==> forall i :: 0 <= i < |raws| ==> Unclashed(raws, i) && Fine(rules, raws, i)
  {
    assert |ParseBundle(raws)| == |raws|;
    forall i | 0 <= i < |raws| ensures Clean(Checker(rules)(raws)[i]) <==> Unclashed(raws, i) && Fine(rules, raws, i) {
      LineSound(rules, raws, i);
    }
  }

  lemma UnclashedIff(raws: seq<RawLine>)
    requires Coherent(raws)
    ensures CorrelationsDiffer(raws) <==> forall i :: 0 <= i < |raws| ==> Unclashed(raws, i)
  {
    var lines, run := Map(raws, ParseLine), raws[0].value.RunId();
    BundleQuiet(raws, run);
    QuietIff(lines, CorrelationRule(run));
    assert forall i :: 0 <= i < |raws| ==> lines[i].value == Some(raws[i].value);
    assert forall i :: 0 <= i < |raws| ==> (Unclashed(raws, i) <==>
                                            ClashFaults(lines, CorrelationRule(run), lines[i].value.value) == {});
  }

  lemma SoundParts(rules: Rules, raws: seq<RawLine>)
    requires Coherent(raws)
    ensures Sound(rules, raws) <==> CorrelationsDiffer(raws) && forall i :: 0 <= i < |raws| ==> Fine(rules, raws, i)
  {
    if forall i :: 0 <= i < |raws| ==> Fine(rules, raws, i) {
      forall i | 0 <= i < |raws|
        ensures (raws[i].value.Ordinal() == 0 <==> i == 0) && rules(raws[0].value, raws[i].value) == {}
                && LinksHold(raws, raws[i].value)
      {
        assert Fine(rules, raws, i);
      }
    }
  }

  // ----- across bundles -----

  /** What two lines of the whole input may not do: share a run as headers, or contradict each other. */
  ghost predicate Compatible(v: Observation, w: Observation) {
    && (v.Header? && w.Header? ==> v.runId != w.runId)
    && (v.Capability? && w.Capability? && ScopeKey(v.subject, v.common.context) == ScopeKey(w.subject, w.common.context)
        ==> !SubjectsConflict(v.subject, w.subject))
    && (v.Capability? && w.Capability? && !v.subject.Identity? && !w.subject.Identity?
        && ManifestKey(v.subject) == ManifestKey(w.subject) && v.common.context != w.common.context
        ==> !SubjectsConflictAcrossScopes(v.subject, w.subject))
  }

  ghost predicate Peaceful(all: seq<RawLine>) {
    forall i, j :: 0 <= i < j < |all| && all[i].Parsed? && all[j].Parsed? ==> Compatible(all[i].value, all[j].value)
  }

  ghost predicate AllParsed(all: seq<RawLine>) { forall i :: 0 <= i < |all| ==> all[i].Parsed? }

  lemma PairIff(x: Line, y: Line)
    requires x.value.Some? && y.value.Some?
    ensures Compatible(x.value.value, y.value.value)
       <==> !Against(x, y, RunRule()) && !Against(x, y, ScopeRule()) && !Against(x, y, ManifestRule())
  {}

  ghost predicate AllQuiet(lines: seq<Line>) {
    Quiet(lines, RunRule()) && Quiet(lines, ScopeRule()) && Quiet(lines, ManifestRule())
  }

  lemma PeacefulQuiet(all: seq<RawLine>)
    requires AllParsed(all)
    ensures Peaceful(all) <==> AllQuiet(Map(all, ParseLine))
  {
    var lines := Map(all, ParseLine);
    forall i, j | 0 <= i < j < |all|
      ensures Compatible(all[i].value, all[j].value)
         <==> !Against(lines[i], lines[j], RunRule()) && !Against(lines[i], lines[j], ScopeRule())
              && !Against(lines[i], lines[j], ManifestRule())
    {
      PairIff(lines[i], lines[j]);
    }
  }

  lemma QuietCross(all: seq<RawLine>)
    requires AllParsed(all)
    ensures CrossClean(Map(all, ParseLine)) <==> AllQuiet(Map(all, ParseLine))
  {
    var lines := Map(all, ParseLine);
    QuietIff(lines, RunRule());
    QuietIff(lines, ScopeRule());
    QuietIff(lines, ManifestRule());
    forall i | 0 <= i < |all|
      ensures Clean(CrossChecked(lines)[i]) <==> CrossFaults(lines, lines[i].value.value) == {}
    {
      assert lines[i].faults == {} && lines[i].value.Some?;
    }
  }

  lemma MapAppend<A, B>(a: seq<A>, b: seq<A>, f: A -> B)
    ensures Map(a + b, f) == Map(a, f) + Map(b, f)
  {}

  lemma {:induction false} ParsedFlat(bundles: seq<seq<RawLine>>)
    requires forall p :: 0 <= p < |bundles| ==> bundles[p] != []
    ensures ParsedLines(bundles) == Map(Flat(bundles), ParseLine)
    decreases |bundles|
  {
    if bundles != [] {
      var n := |bundles| - 1;
      ParsedFlat(bundles[..n]);
      assert Map(bundles, Parser())[..n] == Map(bundles[..n], Parser());
      MapAppend(Flat(bundles[..n]), bundles[n], ParseLine);
    }
  }

  lemma {:induction false} FlatParsed(bundles: seq<seq<RawLine>>)
    requires forall p :: 0 <= p < |bundles| ==> AllParsed(bundles[p])
    ensures AllParsed(Flat(bundles))
    decreases |bundles|
  {
    if bundles != [] {
      var n := |bundles| - 1;
      FlatParsed(bundles[..n]);
      var front, last := Flat(bundles[..n]), bundles[n];
      assert AllParsed(last);
      assert forall i :: 0 <= i < |front + last| ==>
               (front + last)[i] == if i < |front| then front[i] else last[i - |front|];
    }
  }

  ghost predicate AllSound(rules: Rules, bundles: seq<seq<RawLine>>) {
    forall p :: 0 <= p < |bundles| ==> Sound(rules, bundles[p])
  }

  lemma SoundParsed(rules: Rules, bundles: seq<seq<RawLine>>)
    requires AllSound(rules, bundles)
    ensures AllParsed(Flat(bundles)) && ParsedLines(bundles) == Map(Flat(bundles), ParseLine)
  {
    forall p | 0 <= p < |bundles| ensures bundles[p] != [] && AllParsed(bundles[p]) { assert Sound(rules, bundles[p]); }
    FlatParsed(bundles);
    ParsedFlat(bundles);
  }

  lemma SoundLines(rules: Rules, bundles: seq<seq<RawLine>>)
    requires AllSound(rules, bundles)
    ensures BundleLines(rules, bundles) == ParsedLines(bundles)
  {
    forall p | 0 <= p < |bundles| ensures Checker(rules)(bundles[p]) == Parser()(bundles[p]) {
      SoundIff(rules, bundles[p]);
      CleanUnchanged(rules, bundles[p]);
    }
    assert Map(bundles, Checker(rules)) == Map(bundles, Parser());
  }

  lemma AcceptedSound(rules: Rules, bundles: seq<seq<RawLine>>)
    requires CrossClean(BundleLines(rules, bundles))
    ensures AllSound(rules, bundles)
  {
    forall p | 0 <= p < |bundles| ensures Sound(rules, bundles[p]) {
      AcceptedBundle(rules, bundles, p);
      SoundIff(rules, bundles[p]);
    }
  }

  /**
   * Validation accepts exactly the input whose every bundle is sound and in which
   * no two records, of one bundle or of two, are incompatible.
   */
  lemma AcceptedIff(rules: Rules, bundles: seq<seq<RawLine>>)
    ensures Validate(rules, bundles).Ok? <==> AllSound(rules, bundles) && Peaceful(Flat(bundles))
  {
    AcceptedCrossClean(rules, bundles);
    if CrossClean(BundleLines(rules, bundles)) { AcceptedSound(rules, bundles); }
    if AllSound(rules, bundles) {
      SoundLines(rules, bundles);
      SoundParsed(rules, bundles);
      QuietCross(Flat(bundles));
      PeacefulQuiet(Flat(bundles));
    }
  }
}
