// Exactly when the order of the lines behind the first one shows in a checked
// bundle, for accepted and rejected bundles alike.
module LineOrder {
  import opened Options
  import opened Observation
  import opened Ordering
  import opened Sorting
  import opened Bags
  import opened Validation
  import opened ValidationOrder

  // ----- the condition -----

  /** Of the run's transactions with one record id, does this one stand where the event says? */
  predicate Agrees(t: Observation, e: Observation)
    requires t.Transaction? && e.Event?
  {
    t.connectionInstance == e.connectionInstance && t.session == e.session
  }

  /** A transaction of the run under this record id: a line that may answer for a link. */
  predicate Answers(raw: RawLine, run: string, id: string) {
    raw.Parsed? && raw.value.Transaction? && raw.value.RunId() == run && raw.value.RecordId() == id
  }

  ghost predicate OnlyHeader(raws: seq<RawLine>, h: nat) {
    h < |raws| && forall i :: 0 <= i < |raws| ==> (raws[i].Parsed? && raws[i].value.Header? <==> i == h)
  }

  /** Lines `i` and `j`, neither of them pinned in front, give the event's link different answers. */
  ghost predicate Contradicted(raws: seq<RawLine>, run: string, id: string, e: Observation, i: nat, j: nat)
    requires e.Event?
  {
    && 1 <= i < |raws| && 1 <= j < |raws| && Answers(raws[i], run, id) && Answers(raws[j], run, id)
    && Agrees(raws[i].value, e) && !Agrees(raws[j].value, e)
  }

  ghost predicate DisputedEvent(rules: Rules, raws: seq<RawLine>, head: Observation, e: Observation) {
    && e.Event? && e.transactionRecordId.Some? && CROSSING_LINK !in rules(head, e)
    && exists i, j :: Contradicted(raws, head.RunId(), e.transactionRecordId.value, e, i, j)
  }

  /** The bundle has one header, and transactions in it disagree about some event's link. */
  ghost predicate Disputed(rules: Rules, raws: seq<RawLine>) {
    exists h: nat, k :: OnlyHeader(raws, h) && 0 <= k < |raws| && raws[k].Parsed?
                        && DisputedEvent(rules, raws, raws[h].value, raws[k].value)
  }

  // ----- the last transaction answers -----

  lemma {:induction false} SomeTarget(lines: seq<Line>, run: string, id: string, k: nat)
    requires k < |lines| && IsTarget(lines[k], run, id)
    ensures LinkTarget(lines, run, id).Some?
    decreases |lines|
  {
    var n := |lines| - 1;
    if !IsTarget(lines[n], run, id) { SomeTarget(lines[..n], run, id, k); }
  }

  lemma RawTarget(raw: RawLine, run: string, id: string)
    ensures IsTarget(ParseLine(raw), run, id) <==> Answers(raw, run, id)
    ensures Answers(raw, run, id) ==> ParseLine(raw).value == Some(raw.value)
  {}

  /** Of all transactions that could answer for a link, the last one does, wherever the others stand. */
  lemma LastTransactionAnswers(raws: seq<RawLine>, run: string, id: string, e: Observation, k: nat)
    requires e.Event? && e.transactionRecordId == Some(id) && k < |raws| && Answers(raws[k], run, id)
    requires forall i :: k < i < |raws| ==> !Answers(raws[i], run, id)
    ensures LinkFaults(e, Targets(Map(raws, ParseLine), run)) == if Agrees(raws[k].value, e) then {}
            else {CROSSING_LINK}
  {
    var lines := Map(raws, ParseLine);
    forall i | 0 <= i < |raws| ensures IsTarget(lines[i], run, id) <==> Answers(raws[i], run, id) {
      RawTarget(raws[i], run, id);
    }
    SomeTarget(lines, run, id, k);
    var l := LastTarget(lines, run, id);
    assert l == k;
  }

  // ----- a checked bundle, line by line -----

  /** What the checks make of a line of a bundle with one header, which stands at `h`. */
  function LineChecker(rules: Rules, lines: seq<Line>, h: nat, head: Observation): Line -> Line {
    (l: Line) => AddFaults(l, (if IsHeader(l) then HeadFaults(h, head) else {})
                           + ValueFaults(rules, lines, head, l.value))
  }

  function CountChecker(n: nat): Line -> Line { (l: Line) => AddFaults(l, {HeaderCountFault(n)}) }

  lemma CheckedByLine(rules: Rules, lines: seq<Line>)
    ensures var heads := Places(lines, IsHeader);
      CheckedBundle(rules, lines)
      == Map(lines, if |heads| != 1 then CountChecker(|heads|)
             else LineChecker(rules, lines, heads[0], lines[heads[0]].value.value))
  {
    var heads := Places(lines, IsHeader);
    if |heads| == 1 {
      var h, head := heads[0], lines[heads[0]].value.value;
      forall i | 0 <= i < |lines| ensures CheckedBundle(rules, lines)[i]
        == LineChecker(rules, lines, h, head)(lines[i]) {
        assert IsHeader(lines[i]) <==> i == h by { if IsHeader(lines[i]) { assert i in heads; } }
      }
    }
  }

  // ----- what shuffling keeps -----

  lemma HeadersKept(a: seq<Line>, b: seq<Line>)
    requires multiset(a) == multiset(b) && a != [] && b != [] && a[0] == b[0]
    ensures var ha, hb := Places(a, IsHeader), Places(b, IsHeader);
      |ha| == |hb| && (|ha| == 1 ==> a[ha[0]] == b[hb[0]] && (ha[0] == 0 <==> hb[0] == 0))
  {
    PlacesCount(a, IsHeader);
    PlacesCount(b, IsHeader);
    FilterPermuted(a, b, IsHeader);
    var ha, hb := Places(a, IsHeader), Places(b, IsHeader);
    if |ha| == 1 {
      SameMembers(a, b);
      assert IsHeader(b[hb[0]]) && b[hb[0]] in a;
      var i :| 0 <= i < |a| && a[i] == b[hb[0]];
      assert i in ha;
      assert IsHeader(a[ha[0]]);
      assert IsHeader(a[0]) ==> 0 in ha && 0 in hb;
    }
  }

  lemma HeaderPlace(raws: seq<RawLine>, h: nat)
    requires OnlyHeader(raws, h)
    ensures Places(Map(raws, ParseLine), IsHeader) == [h]
  {
    var lines := Map(raws, ParseLine);
    var heads := Places(lines, IsHeader);
    assert IsHeader(lines[h]);
    forall k | 0 <= k < |heads| ensures heads[k] == h { assert IsHeader(lines[heads[k]]); }
    AtMostOne(heads, h);
  }

  lemma PlacedHeader(raws: seq<RawLine>)
    requires |Places(Map(raws, ParseLine), IsHeader)| == 1
    ensures OnlyHeader(raws, Places(Map(raws, ParseLine), IsHeader)[0])
  {
    var lines := Map(raws, ParseLine);
    var heads := Places(lines, IsHeader);
    forall i | 0 <= i < |raws| ensures raws[i].Parsed? && raws[i].value.Header? <==> i == heads[0] {
      assert IsHeader(lines[i]) <==> raws[i].Parsed? && raws[i].value.Header?;
      if IsHeader(lines[i]) { assert i in heads; }
    }
  }

  lemma DropFirst<T>(s: seq<T>)
    requires s != []
    ensures multiset(s[1..]) == multiset(s) - multiset{s[0]}
  {
    assert s == [s[0]] + s[1..];
  }

  lemma BehindFirst(a: seq<RawLine>, b: seq<RawLine>, x: RawLine, i: nat)
    requires Shuffled(a, b) && 1 <= i < |b| && b[i] == x
    ensures exists j :: 1 <= j < |a| && a[j] == x
  {
    DropFirst(a);
    DropFirst(b);
    assert x == b[1..][i - 1];
    assert x in multiset(a[1..]);
    var k :| 0 <= k < |a[1..]| && a[1..][k] == x;
    assert a[k + 1] == x;
  }

  /**
   * The last line that answers in `b`, if it disagrees with the last one in `a`, is behind the
   * first line in `a` too.
   */
  lemma RivalBehind(a: seq<RawLine>, b: seq<RawLine>, run: string, id: string, k: nat, l: nat)
    requires Shuffled(a, b) && k < |a| && l < |b| && Answers(a[k], run, id) && Answers(b[l], run, id) && a[k] != b[l]
    requires forall i :: l < i < |b| ==> !Answers(b[i], run, id)
    ensures exists j :: 1 <= j < |a| && a[j] == b[l]
  {
    SameMembers(a, b);
    assert a[k] in b;
    var m :| 0 <= m < |b| && b[m] == a[k];
    assert m < l;
    BehindFirst(a, b, b[l], l);
  }

  /** If the event is not disputed, shuffling changes nothing about what its link adds to the shallow rules. */
  lemma LinkSettled(rules: Rules, a: seq<RawLine>, b: seq<RawLine>, head: Observation, e: Observation)
    requires Shuffled(a, b) && !DisputedEvent(rules, a, head, e)
    ensures rules(head, e) + LinkFaults(e, Targets(Map(a, ParseLine), head.RunId()))
         == rules(head, e) + LinkFaults(e, Targets(Map(b, ParseLine), head.RunId()))
  {
    if e.Event? && e.transactionRecordId.Some? {
      var run, id := head.RunId(), e.transactionRecordId.value;
      SameMembers(a, b);
      var la, lb := Map(a, ParseLine), Map(b, ParseLine);
      if k0 :| 0 <= k0 < |a| && Answers(a[k0], run, id) {
        assert a[k0] in b;
        var l0 :| 0 <= l0 < |b| && b[l0] == a[k0];
        var k := LastAnswer(a, run, id, k0);
        var l := LastAnswer(b, run, id, l0);
        LastTransactionAnswers(a, run, id, e, k);
        LastTransactionAnswers(b, run, id, e, l);
        if Agrees(a[k].value, e) != Agrees(b[l].value, e) { Rivals(rules, a, b, head, e, k, l); }
      } else {
        forall i | 0 <= i < |b| ensures !Answers(b[i], run, id) { assert b[i] in a; }
        Unanswered(a, run, id);
        Unanswered(b, run, id);
      }
    }
  }

  lemma {:induction false} LastAnswer(raws: seq<RawLine>, run: string, id: string, k: nat) returns (l: nat)
    requires k < |raws| && Answers(raws[k], run, id)
    ensures l < |raws| && Answers(raws[l], run, id) && forall i :: l < i < |raws| ==> !Answers(raws[i], run, id)
    decreases |raws|
  {
    l := |raws| - 1;
    if !Answers(raws[l], run, id) { l := LastAnswer(raws[..l], run, id, k); }
  }

  lemma Unanswered(raws: seq<RawLine>, run: string, id: string)
    requires forall i :: 0 <= i < |raws| ==> !Answers(raws[i], run, id)
    ensures LinkTarget(Map(raws, ParseLine), run, id).None?
  {
    forall i | 0 <= i < |raws| ensures !IsTarget(Map(raws, ParseLine)[i], run, id) { RawTarget(raws[i], run, id); }
    NoTarget(Map(raws, ParseLine), run, id);
  }

  /** Last answers that disagree about the event make it disputed, unless the shallow rules already object. */
  lemma Rivals(rules: Rules, a: seq<RawLine>, b: seq<RawLine>, head: Observation, e: Observation, k: nat, l: nat)
    requires Shuffled(a, b) && e.Event? && e.transactionRecordId.Some? && k < |a| && l < |b|
    requires var run, id := head.RunId(), e.transactionRecordId.value;
      && Answers(a[k], run, id) && (forall i :: k < i < |a| ==> !Answers(a[i], run, id))
      && Answers(b[l], run, id) && (forall i :: l < i < |b| ==> !Answers(b[i], run, id))
    requires Agrees(a[k].value, e) != Agrees(b[l].value, e)
    ensures CROSSING_LINK !in rules(head, e) ==> DisputedEvent(rules, a, head, e)
  {
    var run, id := head.RunId(), e.transactionRecordId.value;
    RivalBehind(a, b, run, id, k, l);
    RivalBehind(b, a, run, id, l, k);
    var i :| 1 <= i < |b| && b[i] == a[k];
    BehindFirst(a, b, a[k], i);
    var x :| 1 <= x < |a| && a[x] == a[k];
    var y :| 1 <= y < |a| && a[y] == b[l];
    assert if Agrees(a[k].value, e) then Contradicted(a, run, id, e, x, y) else Contradicted(a, run, id, e, y, x);
  }

  lemma RecordSettled(rules: Rules, a: seq<RawLine>, b: seq<RawLine>, head: Observation, v: Observation)
    requires Shuffled(a, b) && !DisputedEvent(rules, a, head, v)
    ensures RecordFaults(rules, Map(a, ParseLine), head, v) == RecordFaults(rules, Map(b, ParseLine), head, v)
  {
    var la, lb, run := Map(a, ParseLine), Map(b, ParseLine), head.RunId();
    MapPermuted(a, b, ParseLine);
    RulesSymmetric();
    ClashPermuted(la, lb, RecordRule(run), v);
    ClashPermuted(la, lb, OrdinalRule(run), v);
    ClashPermuted(la, lb, CorrelationRule(run), v);
    LinkSettled(rules, a, b, head, v);
  }

  // ----- a bundle that is not disputed -----

  lemma SameByMembers(b: seq<Line>, f: Line -> Line, g: Line -> Line)
    requires forall i :: 0 <= i < |b| ==> f(b[i]) == g(b[i])
    ensures Map(b, f) == Map(b, g)
  {}

  lemma HeadSettled(a: nat, b: nat, head: Observation)
    requires a == 0 <==> b == 0
    ensures HeadFaults(a, head) == HeadFaults(b, head)
  {}

  lemma LineSettled(rules: Rules, a: seq<RawLine>, b: seq<RawLine>, h: nat, k: nat, i: nat)
    requires Shuffled(a, b) && !Disputed(rules, a) && OnlyHeader(a, h) && (h == 0 <==> k == 0) && i < |b|
    ensures LineChecker(rules, Map(a, ParseLine), h, a[h].value)(ParseLine(b[i]))
         == LineChecker(rules, Map(b, ParseLine), k, a[h].value)(ParseLine(b[i]))
  {
    var head := a[h].value;
    HeadSettled(h, k, head);
    if b[i].Parsed? {
      SameMembers(a, b);
      assert b[i] in a;
      var j :| 0 <= j < |a| && a[j] == b[i];
      assert !DisputedEvent(rules, a, head, a[j].value);
      RecordSettled(rules, a, b, head, b[i].value);
    }
  }

  /** No order of the lines shows in a bundle that is not disputed. */
  lemma UndisputedSettled(rules: Rules, a: seq<RawLine>, b: seq<RawLine>)
    requires Shuffled(a, b) && !Disputed(rules, a)
    ensures multiset(Checker(rules)(a)) == multiset(Checker(rules)(b))
  {
    if a == [] {
      assert |b| == |multiset(b)|;
    } else {
      var la, lb := Map(a, ParseLine), Map(b, ParseLine);
      MapPermuted(a, b, ParseLine);
      HeadersKept(la, lb);
      CheckedByLine(rules, la);
      CheckedByLine(rules, lb);
      var ha, hb := Places(la, IsHeader), Places(lb, IsHeader);
      if |ha| == 1 {
        PlacedHeader(a);
        var f, g := LineChecker(rules, la, ha[0], a[ha[0]].value), LineChecker(rules, lb, hb[0], a[ha[0]].value);
        forall i | 0 <= i < |lb| ensures f(lb[i]) == g(lb[i]) { LineSettled(rules, a, b, ha[0], hb[0], i); }
        SameByMembers(lb, f, g);
        MapPermuted(la, lb, f);
      } else {
        MapPermuted(la, lb, CountChecker(|ha|));
      }
    }
  }

  // ----- a bundle that is disputed -----

  /** Line `i` put at the end. */
  function Postpone(raws: seq<RawLine>, i: nat): seq<RawLine>
    requires i < |raws|
  {
    raws[..i] + raws[i + 1..] + [raws[i]]
  }

  lemma PostponeShuffles(raws: seq<RawLine>, i: nat)
    requires 1 <= i < |raws|
    ensures Shuffled(raws, Postpone(raws, i))
  {
    assert raws == raws[..i] + [raws[i]] + raws[i + 1..];
  }

  lemma HeaderAfter(a: seq<RawLine>, b: seq<RawLine>, h: nat) returns (k: nat)
    requires Shuffled(a, b) && OnlyHeader(a, h)
    ensures OnlyHeader(b, k) && b[k] == a[h]
  {
    var la, lb := Map(a, ParseLine), Map(b, ParseLine);
    MapPermuted(a, b, ParseLine);
    HeaderPlace(a, h);
    HeadersKept(la, lb);
    PlacedHeader(b);
    k := Places(lb, IsHeader)[0];
    assert la[h] == lb[k];
  }

  /** A fault that only the shallow rules or the link could bring. */
  lemma CrossingOnlyByLink(rules: Rules, lines: seq<Line>, head: Observation, e: Observation)
    requires CROSSING_LINK !in rules(head, e)
    ensures CROSSING_LINK in RecordFaults(rules, lines, head, e)
            <==> CROSSING_LINK in LinkFaults(e, Targets(lines, head.RunId()))
  {
    var run := head.RunId();
    assert CROSSING_LINK !in ClashFaults(lines, RecordRule(run), e) + ClashFaults(lines, OrdinalRule(run), e)
                             + ClashFaults(lines, CorrelationRule(run), e);
  }

  /** A line for this event that is rejected for a crossing link. */
  predicate Crossing(l: Line, e: Observation) { l.value == Some(e) && CROSSING_LINK in l.faults }

  /**
   * In a bundle with one header, the lines of an event are rejected for a crossing link exactly if
   * its link crosses.
   */
  lemma EventJudged(rules: Rules, b: seq<RawLine>, k: nat, e: Observation, l: Line)
    requires OnlyHeader(b, k) && e.Event? && CROSSING_LINK !in rules(b[k].value, e) && l in Checker(rules)(b)
             && l.value == Some(e)
    ensures Crossing(l, e) <==> CROSSING_LINK in LinkFaults(e, Targets(Map(b, ParseLine), b[k].value.RunId()))
  {
    var x := CheckedLine(rules, b, k, l);
    EventLine(rules, Map(b, ParseLine), k, b[k].value, ParseLine(b[x]), e);
  }

  lemma CheckedLine(rules: Rules, b: seq<RawLine>, k: nat, l: Line) returns (x: nat)
    requires OnlyHeader(b, k) && l in Checker(rules)(b)
    ensures x < |b| && l == LineChecker(rules, Map(b, ParseLine), k, b[k].value)(ParseLine(b[x]))
    ensures l.value == ParseLine(b[x]).value
  {
    OneHeaderByLine(rules, b, k);
    x := MapMember(Map(b, ParseLine), LineChecker(rules, Map(b, ParseLine), k, b[k].value), l);
  }

  lemma OneHeaderByLine(rules: Rules, b: seq<RawLine>, k: nat)
    requires OnlyHeader(b, k)
    ensures Checker(rules)(b) == Map(Map(b, ParseLine), LineChecker(rules, Map(b, ParseLine), k, b[k].value))
  {
    HeaderPlace(b, k);
    CheckedByLine(rules, Map(b, ParseLine));
  }

  lemma MapMember<A, B>(s: seq<A>, f: A -> B, y: B) returns (x: nat)
    requires y in Map(s, f)
    ensures x < |s| && f(s[x]) == y
  {
    x :| 0 <= x < |s| && Map(s, f)[x] == y;
  }

  /** With line `i` last, every line of the event is judged by line `i`. */
  lemma PostponedAnswers(rules: Rules, a: seq<RawLine>, h: nat, e: Observation, i: nat)
    requires OnlyHeader(a, h) && e.Event? && e.transactionRecordId.Some? && CROSSING_LINK !in rules(a[h].value, e)
    requires 1 <= i < |a| && Answers(a[i], a[h].value.RunId(), e.transactionRecordId.value)
    ensures forall l :: l in Checker(rules)(Postpone(a, i)) && l.value == Some(e) ==>
              (Crossing(l, e) <==> !Agrees(a[i].value, e))
  {
    var b := Postpone(a, i);
    PostponeShuffles(a, i);
    var k := HeaderAfter(a, b, h);
    assert b[|b| - 1] == a[i];
    LastTransactionAnswers(b, a[h].value.RunId(), e.transactionRecordId.value, e, |b| - 1);
    forall l | l in Checker(rules)(b) && l.value == Some(e) ensures Crossing(l, e) <==> !Agrees(a[i].value, e) {
      EventJudged(rules, b, k, e, l);
    }
  }

  lemma EventLine(rules: Rules, lines: seq<Line>, k: nat, head: Observation, l: Line, e: Observation)
    requires e.Event? && l.value == Some(e) && l.faults == {} && CROSSING_LINK !in rules(head, e)
    ensures Crossing(LineChecker(rules, lines, k, head)(l), e)
            <==> CROSSING_LINK in LinkFaults(e, Targets(lines, head.RunId()))
  {
    CrossingOnlyByLink(rules, lines, head, e);
  }

  lemma EventChecked(rules: Rules, a: seq<RawLine>, e: Observation)
    requires Parsed(e) in a
    ensures exists l :: l in Checker(rules)(a) && l.value == Some(e)
  {
    var x :| 0 <= x < |a| && a[x] == Parsed(e);
    var l := Checker(rules)(a)[x];
    assert ParseBundle(a)[x] == ParseLine(a[x]);
    assert l.value == Some(e);
  }

  /** Two orders of a disputed bundle, one of which rejects an event that the other does not. */
  lemma RejectedLineOrderMatters(rules: Rules, a: seq<RawLine>)
    returns (b: seq<RawLine>, c: seq<RawLine>, e: Observation)
    requires Disputed(rules, a)
    ensures Shuffled(a, b) && Shuffled(a, c)
    ensures forall l :: l in Checker(rules)(b) ==> !Crossing(l, e)
    ensures exists l :: l in Checker(rules)(c) && Crossing(l, e)
  {
    var h: nat, k :| OnlyHeader(a, h) && 0 <= k < |a| && a[k].Parsed?
      && DisputedEvent(rules, a, a[h].value, a[k].value);
    e := a[k].value;
    var i, j :| Contradicted(a, a[h].value.RunId(), e.transactionRecordId.value, e, i, j);
    b, c := Postpone(a, i), Postpone(a, j);
    PostponeShuffles(a, i);
    PostponeShuffles(a, j);
    PostponedAnswers(rules, a, h, e, i);
    PostponedAnswers(rules, a, h, e, j);
    SameMembers(a, c);
    assert a[k] in c;
    EventChecked(rules, c, e);
  }

  /** Two transactions of one run under one record id, in different sessions, and an event that links to it. */
  lemma DisputedExample(rules: Rules, camera: Camera)
    requires CROSSING_LINK !in rules(Header("r", "h", 0, camera, ""), Linking("one"))
    ensures Disputed(rules, [Parsed(Header("r", "h", 0, camera, "")), Parsed(Repeated(1, "one")),
                             Parsed(Repeated(2, "two")),
                             Parsed(Linking("one"))])
  {
    var raws := [Parsed(Header("r", "h", 0, camera, "")), Parsed(Repeated(1, "one")), Parsed(Repeated(2, "two")),
                 Parsed(Linking("one"))];
    assert OnlyHeader(raws, 0);
    assert "one"[0] != "two"[0];
    var head, e := raws[0].value, raws[3].value;
    assert Contradicted(raws, head.RunId(), e.transactionRecordId.value, e, 1, 2);
    assert DisputedEvent(rules, raws, head, e);
  }

  function Repeated(ordinal: nat, session: string): Observation {
    Transaction(Common("r", "t", ordinal, Context("c", "m", "s"), ""), "c", session, "e", ordinal, "")
  }

  function Linking(session: string): Observation {
    Event(Common("r", "e", 3, Context("c", "m", "s"), ""), "c", session, Some("t"), "")
  }

  // ----- the theorem -----

  /** Every order of the lines behind the first gives the same checked lines. */
  ghost predicate OrderFree(rules: Rules, a: seq<RawLine>) {
    forall b :: Shuffled(a, b) ==> multiset(Checker(rules)(a)) == multiset(Checker(rules)(b))
  }

  /**
   * For every bundle, accepted or rejected: the order of the lines behind the first
   * is irrelevant to the checks if and only if the bundle is not disputed.
   */
  lemma LineOrderIff(rules: Rules, a: seq<RawLine>)
    ensures OrderFree(rules, a) <==> !Disputed(rules, a)
  {
    if Disputed(rules, a) {
      var b, c, e := RejectedLineOrderMatters(rules, a);
      var l :| l in Checker(rules)(c) && Crossing(l, e);
      assert l !in multiset(Checker(rules)(b)) && l in multiset(Checker(rules)(c));
    } else {
      forall b | Shuffled(a, b) ensures multiset(Checker(rules)(a)) == multiset(Checker(rules)(b)) {
        UndisputedSettled(rules, a, b);
      }
    }
  }

  /** Where no bundle is disputed, the whole result is the same for every order, rejection report included. */
  lemma ReportOrderIrrelevant(rules: Rules, a: seq<seq<RawLine>>, b: seq<seq<RawLine>>)
    requires |a| == |b| && forall p :: 0 <= p < |a| ==> Shuffled(a[p], b[p]) && !Disputed(rules, a[p])
    ensures Validate(rules, b) == Validate(rules, a)
  {
    var sa, sb := Map(a, Checker(rules)), Map(b, Checker(rules));
    forall p | 0 <= p < |a| ensures multiset(sa[p]) == multiset(sb[p]) { UndisputedSettled(rules, a[p], b[p]); }
    FlatPointwise(sa, sb);
    CrossPermuted(BundleLines(rules, a), BundleLines(rules, b));
    if Validate(rules, a).Ok? {
      AcceptedCoherent(rules, a);
      ParsedApart(a);
      AssemblePermuted(CheckedLines(rules, a), CheckedLines(rules, b));
    } else {
      ReportPermuted(CheckedLines(rules, a), CheckedLines(rules, b));
    }
  }

  /** Accepted input is never disputed, since no two of its lines share a record id. */
  lemma AcceptedUndisputed(rules: Rules, bundles: seq<seq<RawLine>>, p: nat)
    requires Validate(rules, bundles).Ok? && p < |bundles|
    ensures !Disputed(rules, bundles[p])
  {
    AcceptedCoherent(rules, bundles);
    var a := bundles[p];
    forall run: string, id: string, e: Observation, i: nat, j: nat | e.Event?
      ensures !Contradicted(a, run, id, e, i, j) {
      if i < |a| && j < |a| && Answers(a[i], run, id) && Answers(a[j], run, id) { OnePlace(a, i, j); }
    }
  }

  /**
   * Behind the header, the lines of an accepted bundle may come in any order: the
   * input stays accepted, with the same headers, records and report.
   */
  lemma LineOrderIrrelevant(rules: Rules, a: seq<seq<RawLine>>, b: seq<seq<RawLine>>)
    requires |a| == |b| && forall p :: 0 <= p < |a| ==> Shuffled(a[p], b[p])
    requires Validate(rules, a).Ok?
    ensures Validate(rules, b) == Validate(rules, a)
  {
    forall p | 0 <= p < |a| ensures !Disputed(rules, a[p]) { AcceptedUndisputed(rules, a, p); }
    ReportOrderIrrelevant(rules, a, b);
  }
}
