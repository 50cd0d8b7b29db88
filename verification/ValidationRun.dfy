// Validation as it runs: group the records, compare inside each group, and add
// the resulting faults to the lines in place.
module ValidationRun {
  import opened Options
  import opened Observation
  import opened Ordering
  import opened Sorting
  import opened Bags
  import opened Validation

  /** `g` lists, in order, the first `n` lines that hold the key `k`. */
  ghost predicate IsGroup<K>(lines: seq<Line>, key: Observation -> Option<K>, n: nat, k: K, g: seq<nat>)
    requires n <= |lines|
  {
    && (forall p :: 0 <= p < |g| ==> g[p] < n && Holds(lines[g[p]], key, k))
    && (forall j :: 0 <= j < n && Holds(lines[j], key, k) ==> j in g)
    && (forall p, q :: 0 <= p < q < |g| ==> g[p] < g[q])
  }

  /** What one clash rule does to every line. */
  function Clashed<K(==)>(lines: seq<Line>, rule: ClashRule<K>): (r: seq<Line>)
    ensures |r| == |lines|
  {
    seq(|lines|, i requires 0 <= i < |lines| =>
      if lines[i].value.Some? then AddFaults(lines[i], ClashFaults(lines, rule, lines[i].value.value)) else lines[i])
  }

  /** `groups` lists the holders of every key among the first `n` lines. */
  ghost predicate Grouped<K(!new)>(lines: seq<Line>, key: Observation -> Option<K>, n: nat, groups: map<K, seq<nat>>)
    requires n <= |lines|
  {
    forall k :: IsGroup(lines, key, n, k, if k in groups then groups[k] else [])
  }

  method GroupBy<K(==,!new)>(lines: seq<Line>, key: Observation -> Option<K>) returns (groups: map<K, seq<nat>>)
    ensures Grouped(lines, key, |lines|, groups)
  {
    groups := map[];
    for i := 0 to |lines|
      invariant Grouped(lines, key, i, groups)
    {
      ghost var before := groups;
      if lines[i].value.Some? && key(lines[i].value.value).Some? {
        var k := key(lines[i].value.value).value;
        groups := groups[k := (if k in groups then groups[k] else []) + [i]];
      }
      GroupsGrow(lines, key, i, before, groups);
    }
  }

  lemma GroupsGrow<K(!new)>(lines: seq<Line>, key: Observation -> Option<K>, n: nat,
                            before: map<K, seq<nat>>, after: map<K, seq<nat>>)
    requires n < |lines| && Grouped(lines, key, n, before)
    requires after == if lines[n].value.Some? && key(lines[n].value.value).Some?
                      then var k := key(lines[n].value.value).value;
                           before[k := (if k in before then before[k] else []) + [n]]
                      else before
    ensures Grouped(lines, key, n + 1, after)
  {
    forall k ensures IsGroup(lines, key, n + 1, k, if k in after then after[k] else []) {
      GroupGrows(lines, key, n, k, if k in before then before[k] else []);
    }
  }

  lemma GroupGrows<K>(lines: seq<Line>, key: Observation -> Option<K>, n: nat, k: K, g: seq<nat>)
    requires n < |lines| && IsGroup(lines, key, n, k, g)
    ensures IsGroup(lines, key, n + 1, k, if Holds(lines[n], key, k) then g + [n] else g)
  {
    var r := if Holds(lines[n], key, k) then g + [n] else g;
    forall j | 0 <= j < n + 1 && Holds(lines[j], key, k) ensures j in r {
      if j < n { assert j in g; } else { assert r[|g|] == j; }
    }
  }

  method ClashesLater<K(==)>(lines: seq<Line>, group: seq<nat>, rule: ClashRule<K>, ghost k: K, p: nat)
    returns (found: bool)
    requires p < |group| && IsGroup(lines, rule.key, |lines|, k, group)
    ensures found <==> exists q :: p < q < |group| && ClashAt(lines, rule, k, group[p], group[q])
  {
    found := false;
    for q := p + 1 to |group|
      invariant found <==> exists y :: p < y < q && ClashAt(lines, rule, k, group[p], group[y])
    {
      found := found || rule.clash(lines[group[p]].value.value, lines[group[q]].value.value);
    }
  }

  method AnyClash<K(==)>(lines: seq<Line>, group: seq<nat>, rule: ClashRule<K>, ghost k: K) returns (found: bool)
    requires IsGroup(lines, rule.key, |lines|, k, group)
    ensures found <==> Clashing(lines, rule, k)
  {
    found := false;
    for p := 0 to |group|
      invariant found <==> exists x, q :: 0 <= x < p && x < q < |group| && ClashAt(lines, rule, k, group[x], group[q])
    {
      var here := ClashesLater(lines, group, rule, k, p);
      found := found || here;
    }
    GroupClash(lines, group, rule, k);
  }

  lemma GroupClash<K>(lines: seq<Line>, group: seq<nat>, rule: ClashRule<K>, k: K)
    requires IsGroup(lines, rule.key, |lines|, k, group)
    ensures Clashing(lines, rule, k)
       <==> exists p, q :: 0 <= p < q < |group| && ClashAt(lines, rule, k, group[p], group[q])
  {
    if Clashing(lines, rule, k) {
      var i, j :| 0 <= i < j < |lines| && ClashAt(lines, rule, k, i, j);
      assert i in group && j in group;
      var p :| 0 <= p < |group| && group[p] == i;
      var q :| 0 <= q < |group| && group[q] == j;
      assert p < q;
    }
  }

  method RejectAll(lines: seq<Line>, group: seq<nat>, fault: Fault) returns (out: seq<Line>)
    requires forall p :: 0 <= p < |group| ==> group[p] < |lines|
    ensures |out| == |lines|
    ensures forall i :: 0 <= i < |lines| ==> out[i] == if i in group then AddFaults(lines[i], {fault}) else lines[i]
  {
    out := lines;
    for p := 0 to |group|
      invariant |out| == |lines|
      invariant forall i :: 0 <= i < |lines| ==>
                  out[i] == if i in group[..p] then AddFaults(lines[i], {fault}) else lines[i]
    {
      assert group[..p + 1] == group[..p] + [group[p]];
      out := out[group[p] := AddFaults(out[group[p]], {fault})];
    }
    assert group[..|group|] == group;
  }

  /** Whether the groups of `todo` still have to be looked at for this line. */
  function Progress<K(==)>(lines: seq<Line>, rule: ClashRule<K>, todo: set<K>, i: nat): Line
    requires i < |lines|
  {
    if lines[i].value.Some? && rule.key(lines[i].value.value).Some?
       && rule.key(lines[i].value.value).value !in todo && Clashing(lines, rule, rule.key(lines[i].value.value).value)
    then AddFaults(lines[i], {rule.fault}) else lines[i]
  }

  lemma ProgressDone<K>(lines: seq<Line>, rule: ClashRule<K>, i: nat)
    requires i < |lines|
    ensures Progress(lines, rule, {}, i) == Clashed(lines, rule)[i]
  {
    assert AddFaults(lines[i], {}) == lines[i];
  }

  lemma ProgressStep<K>(lines: seq<Line>, rule: ClashRule<K>, todo: set<K>, k: K, group: seq<nat>, i: nat)
    requires i < |lines| && k in todo && IsGroup(lines, rule.key, |lines|, k, group)
    ensures Progress(lines, rule, todo - {k}, i)
         == if i in group && Clashing(lines, rule, k) then AddFaults(Progress(lines, rule, todo, i), {rule.fault})
            else Progress(lines, rule, todo, i)
  {
    assert i in group <==> Holds(lines[i], rule.key, k);
  }

  method RejectClashing<K(==,!new)>(lines: seq<Line>, rule: ClashRule<K>) returns (out: seq<Line>)
    ensures out == Clashed(lines, rule)
  {
    var groups := GroupBy(lines, rule.key);
    out := lines;
    var todo := groups.Keys;
    forall i | 0 <= i < |lines| ensures out[i] == Progress(lines, rule, todo, i) {
      Untouched(lines, rule, groups, i);
    }
    while todo != {}
      invariant todo <= groups.Keys
      invariant |out| == |lines|
      invariant forall i :: 0 <= i < |lines| ==> out[i] == Progress(lines, rule, todo, i)
      decreases |todo|
    {
      var k :| k in todo;
      var group := groups[k];
      assert IsGroup(lines, rule.key, |lines|, k, if k in groups then groups[k] else []);
      var conflicts := AnyClash(lines, group, rule, k);
      forall i | 0 <= i < |lines|
        ensures Progress(lines, rule, todo - {k}, i)
             == if i in group && conflicts then AddFaults(out[i], {rule.fault}) else out[i]
      {
        ProgressStep(lines, rule, todo, k, group, i);
      }
      if conflicts {
        out := RejectAll(out, group, rule.fault);
      }
      todo := todo - {k};
    }
    forall i | 0 <= i < |lines| ensures out[i] == Clashed(lines, rule)[i] {
      ProgressDone(lines, rule, i);
    }
  }

  lemma Untouched<K(!new)>(lines: seq<Line>, rule: ClashRule<K>, groups: map<K, seq<nat>>, i: nat)
    requires i < |lines| && Grouped(lines, rule.key, |lines|, groups)
    ensures Progress(lines, rule, groups.Keys, i) == lines[i]
  {
    if lines[i].value.Some? && rule.key(lines[i].value.value).Some? {
      var k := rule.key(lines[i].value.value).value;
      assert Holds(lines[i], rule.key, k);
      assert IsGroup(lines, rule.key, |lines|, k, if k in groups then groups[k] else []);
    }
  }

  // ----- one bundle -----

  predicate SameValues(a: seq<Line>, b: seq<Line>) {
    |a| == |b| && forall i :: 0 <= i < |a| ==> a[i].value == b[i].value
  }

  lemma ClashSameValues<K>(a: seq<Line>, b: seq<Line>, rule: ClashRule<K>, v: Observation)
    requires SameValues(a, b)
    ensures ClashFaults(a, rule, v) == ClashFaults(b, rule, v)
  {
    if rule.key(v).Some? {
      var k := rule.key(v).value;
      forall i, j | 0 <= i < j < |a| ensures ClashAt(a, rule, k, i, j) == ClashAt(b, rule, k, i, j) {}
    }
  }

  /** `out` is `lines` with `faults(v)` added to every line holding a value `v`. */
  ghost predicate Adds(lines: seq<Line>, out: seq<Line>, faults: Observation -> set<Fault>) {
    && |out| == |lines|
    && forall i :: 0 <= i < |lines| ==>
                     out[i] == if lines[i].value.Some? then AddFaults(lines[i],
                                                                      faults(lines[i].value.value)) else lines[i]
  }

  /** A clash rule compares the values only, so it may run on lines already faulted. */
  method RejectClashingIn<K(==,!new)>(ghost input: seq<Line>, lines: seq<Line>, rule: ClashRule<K>)
    returns (out: seq<Line>)
    requires SameValues(input, lines)
    ensures Adds(lines, out, (v: Observation) => ClashFaults(input, rule, v))
    ensures SameValues(input, out)
  {
    out := RejectClashing(lines, rule);
    forall i | 0 <= i < |lines| && lines[i].value.Some?
      ensures out[i] == AddFaults(lines[i], ClashFaults(input, rule, lines[i].value.value))
    {
      ClashSameValues(input, lines, rule, lines[i].value.value);
    }
  }

  method Links(lines: seq<Line>, run: string) returns (links: map<string, (string, string)>)
    ensures forall id :: Targets(lines, run)(id) == LinkLookup(links)(id)
  {
    links := map[];
    for i := 0 to |lines|
      invariant forall id :: LinkTarget(lines[..i], run, id) == if id in links then Some(links[id]) else None
    {
      assert lines[..i + 1][..i] == lines[..i];
      if IsTransaction(lines[i], run) {
        var v := lines[i].value.value;
        links := links[v.RecordId() := (v.connectionInstance, v.session)];
      }
    }
    assert lines[..|lines|] == lines;
  }

  method HeaderPlaces(lines: seq<Line>) returns (heads: seq<nat>)
    ensures heads == Places(lines, IsHeader)
  {
    heads := [];
    for i := 0 to |lines|
      invariant heads == Places(lines[..i], IsHeader)
    {
      assert lines[..i + 1][..i] == lines[..i];
      if IsHeader(lines[i]) { heads := heads + [i]; }
    }
    assert lines[..|lines|] == lines;
  }

  method RejectEvery(input: seq<Line>, fault: Fault) returns (lines: seq<Line>)
    ensures |lines| == |input|
    ensures forall i :: 0 <= i < |input| ==> lines[i] == AddFaults(input[i], {fault})
  {
    lines := input;
    for i := 0 to |input|
      invariant |lines| == |input|
      invariant forall j :: 0 <= j < i ==> lines[j] == AddFaults(input[j], {fault})
      invariant forall j :: i <= j < |input| ==> lines[j] == input[j]
    {
      lines := lines[i := AddFaults(lines[i], {fault})];
    }
  }

  function LinkLookup(links: map<string, (string, string)>): string -> Option<(string, string)> {
    (id: string) => if id in links then Some(links[id]) else None
  }

  method AddOwnFaults(rules: Rules, head: Observation, links: map<string, (string, string)>, input: seq<Line>)
    returns (lines: seq<Line>)
    ensures Adds(input, lines, (v: Observation) => OwnFaults(rules, head, v, LinkLookup(links)))
  {
    lines := input;
    for i := 0 to |input|
      invariant |lines| == |input|
      invariant forall j :: 0 <= j < i ==>
        lines[j] == if input[j].value.Some? then AddFaults(input[j],
                                                           OwnFaults(rules, head, input[j].value.value,
                                                                     LinkLookup(links)))
                    else input[j]
      invariant forall j :: i <= j < |input| ==> lines[j] == input[j]
    {
      if lines[i].value.Some? {
        lines := lines[i := AddFaults(lines[i], OwnFaults(rules, head, lines[i].value.value, LinkLookup(links)))];
      }
    }
  }

  lemma AddsUp(l0: Line, l1: Line, l2: Line, l3: Line, l4: Line, line: Line,
               a: set<Fault>, b: set<Fault>, c: set<Fault>, d: set<Fault>, e: set<Fault>)
    requires l0 == AddFaults(line, a) && l1 == AddFaults(l0, b) && l2 == AddFaults(l1, c)
    requires l3 == AddFaults(l2, d) && l4 == AddFaults(l3, e)
    ensures l4 == AddFaults(line, a + (b + c + d + e))
  {
    assert l4.faults == line.faults + (a + (b + c + d + e));
  }

  lemma OwnFaultsLookup(rules: Rules, head: Observation, v: Observation,
                        f: string -> Option<(string, string)>, g: string -> Option<(string, string)>)
    requires forall id :: f(id) == g(id)
    ensures OwnFaults(rules, head, v, f) == OwnFaults(rules, head, v, g)
  {
    assert LinkFaults(v, f) == LinkFaults(v, g);
  }

  lemma OneHeader(rules: Rules, input: seq<Line>, h: nat, i: nat)
    requires i < |input| && h < |input| && |Places(input, IsHeader)| == 1 && Places(input, IsHeader)[0] == h
             && input[h].value.Some?
    ensures BundleFaults(rules, input, i)
         == HeadFaultsAt(h, i, input[h].value.value) + ValueFaults(rules, input, input[h].value.value, input[i].value)
  {}

  /** The passes over one record, one after the other, add up to its faults. */
  lemma RecordAssembled(rules: Rules, input: seq<Line>, head: Observation, line: Line, a: set<Fault>,
                        target: string -> Option<(string, string)>, l0: Line, l1: Line, l2: Line, l3: Line, l4: Line)
    requires line.value.Some? && l0 == AddFaults(line, a)
    requires forall id :: Targets(input, head.RunId())(id) == target(id)
    requires l1 == AddFaults(l0, ClashFaults(input, RecordRule(head.RunId()), line.value.value))
    requires l2 == AddFaults(l1, ClashFaults(input, OrdinalRule(head.RunId()), line.value.value))
    requires l3 == AddFaults(l2, ClashFaults(input, CorrelationRule(head.RunId()), line.value.value))
    requires l4 == AddFaults(l3, OwnFaults(rules, head, line.value.value, target))
    ensures l4 == AddFaults(line, a + ValueFaults(rules, input, head, line.value))
  {
    var v, run := line.value.value, head.RunId();
    OwnFaultsLookup(rules, head, v, target, Targets(input, run));
    AddsUp(l0, l1, l2, l3, l4, line, a, ClashFaults(input, RecordRule(run), v),
           ClashFaults(input, OrdinalRule(run), v), ClashFaults(input, CorrelationRule(run), v),
           OwnFaults(rules, head, v, Targets(input, run)));
  }

  lemma BundleAssembled(rules: Rules, input: seq<Line>, h: nat, links: map<string, (string, string)>,
                        headed: seq<Line>, first: seq<Line>, second: seq<Line>, third: seq<Line>, lines: seq<Line>)
    requires h < |input| && |Places(input, IsHeader)| == 1 && Places(input, IsHeader)[0] == h && input[h].value.Some?
    requires var run := input[h].value.value.RunId();
      && (forall id :: Targets(input, run)(id) == LinkLookup(links)(id))
      && headed == input[h := AddFaults(input[h], HeadFaults(h, input[h].value.value))]
      && Adds(headed, first, (v: Observation) => ClashFaults(input, RecordRule(run), v))
      && Adds(first, second, (v: Observation) => ClashFaults(input, OrdinalRule(run), v))
      && Adds(second, third, (v: Observation) => ClashFaults(input, CorrelationRule(run), v))
      && Adds(third, lines, (v: Observation) => OwnFaults(rules, input[h].value.value, v, LinkLookup(links)))
    ensures lines == CheckedBundle(rules, input)
  {
    var head := input[h].value.value;
    forall i | 0 <= i < |input| ensures lines[i] == AddFaults(input[i], BundleFaults(rules, input, i)) {
      OneHeader(rules, input, h, i);
      var a := HeadFaultsAt(h, i, head);
      assert headed[i] == AddFaults(input[i], a) by { assert AddFaults(input[i], {}) == input[i]; }
      if input[i].value.Some? {
        RecordAssembled(rules, input, head, input[i], a, LinkLookup(links), headed[i], first[i], second[i], third[i],
                        lines[i]);
      } else {
        assert a + {} == a;
      }
    }
  }

  method CheckBundle(rules: Rules, input: seq<Line>) returns (lines: seq<Line>)
    ensures lines == CheckedBundle(rules, input)
  {
    var heads := HeaderPlaces(input);
    if |heads| != 1 {
      lines := RejectEvery(input, HeaderCountFault(|heads|));
      return;
    }
    var h := heads[0];
    var head := input[h].value.value;
    var run := head.RunId();
    var headed := input[h := AddFaults(input[h], HeadFaults(h, head))];
    var links := Links(input, run);
    var first := RejectClashingIn(input, headed, RecordRule(run));
    var second := RejectClashingIn(input, first, OrdinalRule(run));
    var third := RejectClashingIn(input, second, CorrelationRule(run));
    lines := AddOwnFaults(rules, head, links, third);
    BundleAssembled(rules, input, h, links, headed, first, second, third, lines);
  }

  // ----- all bundles -----

  method BuildReport(lines: seq<Line>) returns (report: Report)
    ensures report == ReportOf(lines)
  {
    var total, accepted, rejected := 0, 0, 0;
    var dispositions: seq<Disposition> := [];
    for i := 0 to |lines|
      invariant total == |Filter(lines[..i], Counts)|
      invariant accepted == |Filter(lines[..i], CountsClean)|
      invariant rejected == |Filter(lines[..i], Faulty)|
      invariant dispositions == Flat(Map(lines[..i], LineDispositions))
    {
      assert lines[..i + 1][..i] == lines[..i];
      assert Map(lines[..i + 1], LineDispositions)[..i] == Map(lines[..i], LineDispositions);
      total := total + if lines[i].counts then 1 else 0;
      accepted := accepted + if lines[i].counts && Clean(lines[i]) then 1 else 0;
      rejected := rejected + if Clean(lines[i]) then 0 else 1;
      dispositions := dispositions + LineDispositions(lines[i]);
    }
    assert lines[..|lines|] == lines;
    report := Report(total, accepted, rejected, Sort(dispositions, DispositionLe));
  }

  method CrossCheck(input: seq<Line>) returns (lines: seq<Line>)
    ensures lines == CrossChecked(input)
  {
    var first := RejectClashingIn(input, input, RunRule());
    var second := RejectClashingIn(input, first, ScopeRule());
    lines := RejectClashingIn(input, second, ManifestRule());
    forall i | 0 <= i < |input| ensures lines[i] == CrossChecked(input)[i] {
      if input[i].value.Some? {
        var v := input[i].value.value;
        AddsUp(input[i], first[i], second[i], lines[i], lines[i], input[i], {}, ClashFaults(input, RunRule(), v),
               ClashFaults(input, ScopeRule(), v), ClashFaults(input, ManifestRule(), v), {});
      }
    }
  }

  method Collect(lines: seq<Line>) returns (headers: seq<Observation>, records: seq<Observation>)
    ensures headers == HeadersOf(lines) && records == RecordsOf(lines)
  {
    headers, records := [], [];
    for i := 0 to |lines|
      invariant headers == Map(Filter(lines[..i], IsCleanHeader), ValueOf)
      invariant records == Map(Filter(lines[..i], IsCleanRecord), ValueOf)
    {
      assert lines[..i + 1][..i] == lines[..i];
      if lines[i].faults == {} && lines[i].value.Some? {
        if lines[i].value.value.Header? {
          headers := headers + [lines[i].value.value];
        } else {
          records := records + [lines[i].value.value];
        }
      }
    }
    assert lines[..|lines|] == lines;
    headers, records := Sort(headers, RunLe), Sort(records, RecordLe);
  }

  method ValidateBundles(rules: Rules, bundles: seq<seq<RawLine>>) returns (r: Result<Validated, Report>)
    ensures r == Validate(rules, bundles)
  {
    var lines: seq<Line> := [];
    for i := 0 to |bundles|
      invariant lines == Flat(Map(bundles[..i], Checker(rules)))
    {
      var checked := CheckBundle(rules, ParseBundle(bundles[i]));
      assert Map(bundles[..i + 1], Checker(rules))[..i] == Map(bundles[..i], Checker(rules));
      lines := lines + checked;
    }
    assert bundles[..|bundles|] == bundles;
    lines := CrossCheck(lines);
    var report := BuildReport(lines);
    if report.rejected == 0 {
      var headers, records := Collect(lines);
      r := Ok(Validated(headers, records, report));
    } else {
      r := Err(report);
    }
  }
}
