// Which step programs the load-time check accepts, and what it computes, told by
// the control paths of a program and not by the check.
module StepPaths {
  import opened Options
  import opened Steps
  import opened StepSoundness

  // ----- control paths -----

  /** What a path meets that concerns collections. */
  datatype Event =
    | Binds(names: set<string>)
    | Loops(collection: string)
    | Absorbs(retry: Retry)

  type Trace = seq<Event>

  /** The events of one way through the steps. */
  ghost predicate Path(steps: seq<Step>, t: Trace)
    decreases steps, 0, 0
  {
    if steps == [] then t == []
    else exists k :: 0 <= k <= |t| && StepPath(steps[0], t[..k]) && Path(steps[1..], t[k..])
  }

  ghost predicate StepPath(s: Step, t: Trace)
    decreases s, 3, 0
  {
    t != [] && t[0] == Binds(ArrayBinds(s.captures)) && InnerPath(s, t[1..])
  }

  ghost predicate InnerPath(s: Step, t: Trace)
    decreases s, 2, 0
  {
    if s.retry.Some? then RetryPath(s, t)
    else if s.awaitUntil.Some? then Repeats(s.awaitUntil.value.onEach, t)
    else if s.loop.Some? then LoopPath(s, t)
    else if s.ifStep.Some? then Path(s.ifStep.value.thenSteps, t) || Path(s.ifStep.value.elseSteps, t)
    else t == []
  }

  ghost predicate LoopPath(s: Step, t: Trace)
    requires s.loop.Some?
    decreases s, 1, 0
  {
    if s.loop.value.ForEach?
    then t != [] && t[0] == Loops(s.loop.value.collection) && Repeats(s.loop.value.body, t[1..])
    else Repeats(s.loop.value.body, t)
  }

  /** Any number of times. */
  ghost predicate Repeats(body: seq<Step>, t: Trace)
    decreases body, 1, |t|
  {
    t == [] || exists k :: 0 < k <= |t| && Path(body, t[..k]) && Repeats(body, t[k..])
  }

  /** Attempts that fail somewhere, then one that succeeds or the fallback; a tolerant retry may also give up. */
  ghost predicate RetryPath(s: Step, t: Trace)
    requires s.retry.Some?
    decreases s, 1, 0
  {
    if s.tolerant then t != [] && t[0] == Absorbs(s.retry.value) && (Fails(s.retry.value.steps, t[1..])
                                                                      || Succeeds(s.retry.value, t[1..]))
    else Succeeds(s.retry.value, t)
  }

  ghost predicate Succeeds(r: Retry, t: Trace)
    decreases r, 0, 0
  {
    exists k :: 0 <= k <= |t| && Fails(r.steps, t[..k])
                && (Path(r.steps, t[k..]) || (r.fallback.Otherwise? && Path(r.fallback.steps, t[k..])))
  }

  ghost predicate Fails(steps: seq<Step>, t: Trace)
    decreases steps, 2, |t|
  {
    t == [] || exists k :: 0 < k <= |t| && Starts(steps, t[..k]) && Fails(steps, t[k..])
  }

  ghost predicate Starts(steps: seq<Step>, t: Trace)
    decreases steps, 1, 0
  {
    exists rest :: Path(steps, t + rest)
  }

  // ----- what a path binds and demands -----

  function Given(t: Trace): set<string> {
    if t == [] then {} else (if t[0].Binds? then t[0].names else {}) + Given(t[1..])
  }

  /** Bound whichever way the steps are gone through. */
  ghost predicate Sure(steps: seq<Step>, n: string) { forall t :: Path(steps, t) ==> n in Given(t) }

  ghost predicate SureRetry(r: Retry, n: string) {
    Sure(r.steps, n) && (r.fallback.Otherwise? ==> Sure(r.fallback.steps, n))
  }

  /** A loop needs its collection; a retry that may be given up may bind for sure only what is bound already. */
  ghost predicate Demands(e: Event, n: string) {
    (e.Loops? && e.collection == n) || (e.Absorbs? && SureRetry(e.retry, n))
  }

  /** Every demand on the path comes after a binding. */
  ghost predicate Covered(bound: set<string>, t: Trace) { forall i: nat :: i < |t| ==> Met(bound, t, i) }

  ghost predicate Met(bound: set<string>, t: Trace, i: nat)
    requires i < |t|
  {
    forall n :: Demands(t[i], n) ==> n in bound || n in Given(t[..i])
  }

  ghost predicate AllCovered(bound: set<string>, steps: seq<Step>) { forall t :: Path(steps, t) ==> Covered(bound, t) }

  // ----- shapes -----

  /** What is asked of a step whatever is bound. */
  ghost predicate Shaped(texts: Texts, own: Option<Ownership>, s: Step) {
    && WellFormed(s) && AwaitCapturesOk(s) && CapturesOk(texts, own, s)
    && (s.retry.Some? ==> RetryShape(texts, s.retry.value))
  }

  ghost predicate AllShaped(texts: Texts, own: Option<Ownership>, steps: seq<Step>) {
    forall s :: Occurs(s, steps) ==> Shaped(texts, own, s)
  }

  ghost predicate BelowShaped(texts: Texts, own: Option<Ownership>, t: Step) {
    forall s :: OccursBelow(s, t) ==> Shaped(texts, own, s)
  }

  lemma ShapedParts(texts: Texts, own: Option<Ownership>, steps: seq<Step>)
    requires steps != []
    ensures AllShaped(texts, own, steps)
            <==> Shaped(texts, own, steps[0]) && BelowShaped(texts, own, steps[0]) && AllShaped(texts, own, steps[1..])
  {
    var rest := steps[1..];
    forall s ensures Occurs(s, steps) <==> s == steps[0] || OccursBelow(s, steps[0]) || Occurs(s, rest) {
      if Occurs(s, rest) {
        var i :| 0 <= i < |rest| && (rest[i] == s || OccursBelow(s, rest[i]));
        assert rest[i] == steps[i + 1];
      }
      if Occurs(s, steps) {
        var i :| 0 <= i < |steps| && (steps[i] == s || OccursBelow(s, steps[i]));
        if i > 0 { assert steps[i] == rest[i - 1]; }
      }
    }
  }

  // ----- traces put together -----

  lemma {:induction false} GivenAppend(a: Trace, b: Trace)
    ensures Given(a + b) == Given(a) + Given(b)
    decreases |a|
  {
    if a == [] {
      assert a + b == b;
    } else {
      assert (a + b)[1..] == a[1..] + b;
      GivenAppend(a[1..], b);
    }
  }

  lemma MetLeft(bound: set<string>, a: Trace, b: Trace, i: nat)
    requires i < |a|
    ensures Met(bound, a + b, i) <==> Met(bound, a, i)
  {
    assert (a + b)[..i] == a[..i];
  }

  lemma MetRight(bound: set<string>, a: Trace, b: Trace, i: nat)
    requires i < |b|
    ensures Met(bound, a + b, |a| + i) <==> Met(bound + Given(a), b, i)
  {
    assert (a + b)[..|a| + i] == a + b[..i];
    GivenAppend(a, b[..i]);
  }

  lemma CoveredAppend(bound: set<string>, a: Trace, b: Trace)
    ensures Covered(bound, a + b) <==> Covered(bound, a) && Covered(bound + Given(a), b)
  {
    forall i: nat | i < |a| ensures Met(bound, a + b, i) <==> Met(bound, a, i) { MetLeft(bound, a, b, i); }
    forall i: nat | i < |b| ensures Met(bound, a + b, |a| + i) <==> Met(bound + Given(a), b, i) {
      MetRight(bound, a, b, i);
    }
    if Covered(bound, a) && Covered(bound + Given(a), b) {
      forall i: nat | i < |a + b| ensures Met(bound, a + b, i) {
        if i >= |a| {
          MetRight(bound, a, b, i - |a|);
          assert |a| + (i - |a|) == i;
        }
      }
    }
  }

  lemma CoveredMore(bound: set<string>, more: set<string>, t: Trace)
    requires bound <= more && Covered(bound, t)
    ensures Covered(more, t)
  {
    forall i: nat | i < |t| ensures Met(more, t, i) { assert Met(bound, t, i); }
  }

  function Names(e: Event): set<string> { if e.Binds? then e.names else {} }

  lemma CoveredOne(bound: set<string>, e: Event)
    ensures Covered(bound, [e]) <==> forall n :: Demands(e, n) ==> n in bound
    ensures Given([e]) == Names(e)
  {
    assert [e][..0] == [] && [e][1..] == [];
    assert Covered(bound, [e]) <==> Met(bound, [e], 0);
  }

  lemma CoveredAfter(bound: set<string>, e: Event, t: Trace)
    ensures Covered(bound, [e] + t)
            <==> (forall n :: Demands(e, n) ==> n in bound) && Covered(bound + Names(e), t)
    ensures Given([e] + t) == Names(e) + Given(t)
  {
    CoveredAppend(bound, [e], t);
    CoveredOne(bound, e);
    GivenAppend([e], t);
  }

  // ----- steps one after another -----

  lemma PathAppend(steps: seq<Step>, a: Trace, b: Trace)
    requires steps != [] && StepPath(steps[0], a) && Path(steps[1..], b)
    ensures Path(steps, a + b)
  {
    assert (a + b)[..|a|] == a && (a + b)[|a|..] == b;
  }

  lemma PathSplit(steps: seq<Step>, t: Trace) returns (a: Trace, b: Trace)
    requires steps != [] && Path(steps, t)
    ensures t == a + b && StepPath(steps[0], a) && Path(steps[1..], b)
  {
    var k :| 0 <= k <= |t| && StepPath(steps[0], t[..k]) && Path(steps[1..], t[k..]);
    a, b := t[..k], t[k..];
  }

  /** There always is a way through. */
  lemma {:induction false} SomePath(steps: seq<Step>) returns (t: Trace)
    ensures Path(steps, t)
    decreases steps, 1
  {
    if steps == [] {
      t := [];
    } else {
      var a := SomeStepPath(steps[0]);
      var b := SomePath(steps[1..]);
      PathAppend(steps, a, b);
      t := a + b;
    }
  }

  lemma {:induction false} SomeStepPath(s: Step) returns (t: Trace)
    ensures StepPath(s, t)
    decreases s, 0
  {
    var inner: Trace := [];
    if s.retry.Some? {
      inner := SomePath(s.retry.value.steps);
      AtOnce(s.retry.value, inner);
      if s.tolerant {
        assert ([Absorbs(s.retry.value)] + inner)[1..] == inner;
        inner := [Absorbs(s.retry.value)] + inner;
      }
    } else if s.awaitUntil.None? && s.loop.Some? && s.loop.value.ForEach? {
      inner := [Loops(s.loop.value.collection)];
      assert Repeats(s.loop.value.body, inner[1..]);
    } else if s.awaitUntil.None? && s.loop.None? && s.ifStep.Some? {
      inner := SomePath(s.ifStep.value.thenSteps);
    }
    assert InnerPath(s, inner);
    t := [Binds(ArrayBinds(s.captures))] + inner;
    assert t[1..] == inner;
  }

  /** A retry that succeeds without a failed attempt. */
  lemma AtOnce(r: Retry, t: Trace)
    requires Path(r.steps, t) || (r.fallback.Otherwise? && Path(r.fallback.steps, t))
    ensures Succeeds(r, t)
  {
    assert t[..0] == [] && t[0..] == t;
    assert Fails(r.steps, t[..0]);
  }

  /** What the paths of one step bind for sure. */
  ghost predicate SureStep(s: Step, n: string) { forall t :: StepPath(s, t) ==> n in Given(t) }

  ghost predicate StepCovered(bound: set<string>, s: Step) { forall t :: StepPath(s, t) ==> Covered(bound, t) }

  /** Exactly the bindings that are there already or sure. */
  ghost predicate Definite(bound: set<string>, s: Step, after: set<string>) {
    forall n :: n in after <==> n in bound || SureStep(s, n)
  }

  lemma SureSequence(steps: seq<Step>, n: string)
    requires steps != []
    ensures Sure(steps, n) <==> SureStep(steps[0], n) || Sure(steps[1..], n)
  {
    if !SureStep(steps[0], n) && !Sure(steps[1..], n) {
      var a :| StepPath(steps[0], a) && n !in Given(a);
      var b :| Path(steps[1..], b) && n !in Given(b);
      PathAppend(steps, a, b);
      GivenAppend(a, b);
      assert !Sure(steps, n);
    } else {
      forall t | Path(steps, t) ensures n in Given(t) {
        var a, b := PathSplit(steps, t);
        GivenAppend(a, b);
      }
    }
  }

  /** The paths behind a step are covered one by one if they are covered by what is definite. */
  lemma CoveredSequence(bound: set<string>, steps: seq<Step>, after: set<string>)
    requires steps != [] && Definite(bound, steps[0], after)
    ensures AllCovered(bound, steps) <==> StepCovered(bound, steps[0]) && AllCovered(after, steps[1..])
  {
    if StepCovered(bound, steps[0]) && AllCovered(after, steps[1..]) {
      forall t | Path(steps, t) ensures Covered(bound, t) {
        var a, b := PathSplit(steps, t);
        CoveredAppend(bound, a, b);
        CoveredMore(after, bound + Given(a), b);
      }
    }
    if AllCovered(bound, steps) {
      forall a | StepPath(steps[0], a) ensures Covered(bound, a) {
        var b := SomePath(steps[1..]);
        PathAppend(steps, a, b);
        CoveredAppend(bound, a, b);
      }
      forall b | Path(steps[1..], b) ensures Covered(after, b) { BehindCovered(bound, steps, after, b); }
    }
  }

  lemma BehindCovered(bound: set<string>, steps: seq<Step>, after: set<string>, b: Trace)
    requires steps != [] && Definite(bound, steps[0], after) && AllCovered(bound, steps) && Path(steps[1..], b)
    ensures Covered(after, b)
  {
    forall i: nat | i < |b| ensures Met(after, b, i) {
      forall n | Demands(b[i], n) ensures n in after || n in Given(b[..i]) {
        if n !in after {
          assert !SureStep(steps[0], n);
          var a :| StepPath(steps[0], a) && n !in Given(a);
          PathAppend(steps, a, b);
          CoveredAppend(bound, a, b);
          assert Met(bound + Given(a), b, i);
        }
      }
    }
  }

  // ----- inside one step -----

  ghost predicate InnerSure(s: Step, n: string) { forall t :: InnerPath(s, t) ==> n in Given(t) }

  ghost predicate InnerCovered(bound: set<string>, s: Step) { forall t :: InnerPath(s, t) ==> Covered(bound, t) }

  lemma StepFromInner(s: Step, bound: set<string>)
    ensures forall n :: SureStep(s, n) <==> n in ArrayBinds(s.captures) || InnerSure(s, n)
    ensures StepCovered(bound, s) <==> InnerCovered(bound + ArrayBinds(s.captures), s)
  {
    var e := Binds(ArrayBinds(s.captures));
    forall u | InnerPath(s, u)
      ensures StepPath(s, [e] + u) && Given([e] + u) == e.names + Given(u)
      ensures Covered(bound, [e] + u) <==> Covered(bound + e.names, u)
    {
      assert ([e] + u)[1..] == u;
      CoveredAfter(bound, e, u);
    }
    forall t | StepPath(s, t) ensures InnerPath(s, t[1..]) && t == [e] + t[1..] {}
    forall n ensures SureStep(s, n) <==> n in e.names || InnerSure(s, n) {
      if InnerSure(s, n) {
        forall t | StepPath(s, t) ensures n in Given(t) { assert InnerPath(s, t[1..]); }
      }
      if SureStep(s, n) && n !in e.names {
        forall u | InnerPath(s, u) ensures n in Given(u) { assert StepPath(s, [e] + u); }
      }
    }
    if StepCovered(bound, s) {
      forall u | InnerPath(s, u) ensures Covered(bound + e.names, u) { assert StepPath(s, [e] + u); }
    }
    if InnerCovered(bound + e.names, s) {
      forall t | StepPath(s, t) ensures Covered(bound, t) { assert InnerPath(s, t[1..]); }
    }
  }

  // ----- repetition -----

  lemma NothingCovered(bound: set<string>)
    ensures Covered(bound, []) && Given([]) == {}
  {}

  lemma {:induction false} RepeatsCovered(bound: set<string>, body: seq<Step>, t: Trace)
    requires AllCovered(bound, body) && Repeats(body, t)
    ensures Covered(bound, t)
    decreases |t|
  {
    if t != [] {
      var k :| 0 < k <= |t| && Path(body, t[..k]) && Repeats(body, t[k..]);
      RepeatsCovered(bound, body, t[k..]);
      CoveredMore(bound, bound + Given(t[..k]), t[k..]);
      CoveredAppend(bound, t[..k], t[k..]);
      assert t == t[..k] + t[k..];
    }
  }

  lemma OnceRepeats(body: seq<Step>, t: Trace)
    requires Path(body, t)
    ensures Repeats(body, t)
  {
    if t != [] { assert t[..|t|] == t && t[|t|..] == []; }
  }

  /** A repetition is covered if its body is, and binds nothing for sure. */
  lemma RepetitionIff(bound: set<string>, body: seq<Step>)
    ensures (forall t :: Repeats(body, t) ==> Covered(bound, t)) <==> AllCovered(bound, body)
    ensures Repeats(body, []) && Given([]) == {}
  {
    if AllCovered(bound, body) {
      forall t | Repeats(body, t) ensures Covered(bound, t) { RepeatsCovered(bound, body, t); }
    }
    if forall t :: Repeats(body, t) ==> Covered(bound, t) {
      forall t | Path(body, t) ensures Covered(bound, t) { OnceRepeats(body, t); }
    }
  }

  lemma AwaitIff(s: Step, bound: set<string>)
    requires s.awaitUntil.Some? && s.retry.None?
    ensures InnerCovered(bound, s) <==> AllCovered(bound, s.awaitUntil.value.onEach)
    ensures forall n :: !InnerSure(s, n)
  {
    RepetitionIff(bound, s.awaitUntil.value.onEach);
    assert InnerPath(s, []);
  }

  lemma ChunkIff(s: Step, bound: set<string>)
    requires s.loop.Some? && s.retry.None? && s.awaitUntil.None? && s.loop.value.Chunk?
    ensures InnerCovered(bound, s) <==> AllCovered(bound, s.loop.value.body)
    ensures forall n :: !InnerSure(s, n)
  {
    RepetitionIff(bound, s.loop.value.body);
    forall t ensures InnerPath(s, t) <==> Repeats(s.loop.value.body, t) {
      assert InnerPath(s, t) <==> LoopPath(s, t);
    }
    assert InnerPath(s, []);
  }

  lemma EachPath(s: Step, t: Trace)
    requires s.loop.Some? && s.retry.None? && s.awaitUntil.None? && s.loop.value.ForEach?
    ensures InnerPath(s, t)
            <==> t != [] && t[0] == Loops(s.loop.value.collection) && Repeats(s.loop.value.body, t[1..])
  {
    assert InnerPath(s, t) <==> LoopPath(s, t);
  }

  lemma LoopCovered(bound: set<string>, name: string, u: Trace)
    ensures Covered(bound, [Loops(name)] + u) <==> name in bound && Covered(bound, u)
  {
    CoveredAfter(bound, Loops(name), u);
    assert bound + Names(Loops(name)) == bound;
    assert Demands(Loops(name), name);
  }

  lemma EachIff(s: Step, bound: set<string>)
    requires s.loop.Some? && s.retry.None? && s.awaitUntil.None? && s.loop.value.ForEach?
    ensures InnerCovered(bound, s) <==> s.loop.value.collection in bound && AllCovered(bound, s.loop.value.body)
    ensures forall n :: !InnerSure(s, n)
  {
    var e, body := Loops(s.loop.value.collection), s.loop.value.body;
    RepetitionIff(bound, body);
    LoopCovered(bound, s.loop.value.collection, []);
    CoveredOne(bound, e);
    assert [e] + [] == [e] && [e][1..] == [];
    EachPath(s, [e]);
    if InnerCovered(bound, s) {
      forall u | Repeats(body, u) ensures Covered(bound, u) {
        EachPath(s, [e] + u);
        assert ([e] + u)[1..] == u;
        LoopCovered(bound, s.loop.value.collection, u);
      }
    } else if s.loop.value.collection in bound && AllCovered(bound, body) {
      forall t | InnerPath(s, t) ensures Covered(bound, t) {
        EachPath(s, t);
        assert t == [e] + t[1..];
        LoopCovered(bound, s.loop.value.collection, t[1..]);
      }
    }
  }

  lemma IfIff(s: Step, bound: set<string>)
    requires s.ifStep.Some? && s.retry.None? && s.awaitUntil.None? && s.loop.None?
    ensures InnerCovered(bound, s)
            <==> AllCovered(bound, s.ifStep.value.thenSteps) && AllCovered(bound, s.ifStep.value.elseSteps)
    ensures forall n :: InnerSure(s, n) <==> Sure(s.ifStep.value.thenSteps, n) && Sure(s.ifStep.value.elseSteps, n)
  {}

  // ----- retries -----

  lemma {:induction false} FailsCovered(bound: set<string>, steps: seq<Step>, t: Trace)
    requires AllCovered(bound, steps) && Fails(steps, t)
    ensures Covered(bound, t)
    decreases |t|
  {
    if t != [] {
      var k :| 0 < k <= |t| && Starts(steps, t[..k]) && Fails(steps, t[k..]);
      var rest :| Path(steps, t[..k] + rest);
      CoveredAppend(bound, t[..k], rest);
      FailsCovered(bound, steps, t[k..]);
      CoveredMore(bound, bound + Given(t[..k]), t[k..]);
      CoveredAppend(bound, t[..k], t[k..]);
      assert t == t[..k] + t[k..];
    }
  }

  ghost predicate RetryCovered(bound: set<string>, r: Retry) {
    AllCovered(bound, r.steps) && (r.fallback.Otherwise? ==> AllCovered(bound, r.fallback.steps))
  }

  lemma SuccessCovered(bound: set<string>, r: Retry, t: Trace)
    requires RetryCovered(bound, r) && Succeeds(r, t)
    ensures Covered(bound, t)
  {
    var k :| 0 <= k <= |t| && Fails(r.steps, t[..k])
             && (Path(r.steps, t[k..]) || (r.fallback.Otherwise? && Path(r.fallback.steps, t[k..])));
    FailsCovered(bound, r.steps, t[..k]);
    assert Covered(bound, t[k..]);
    CoveredMore(bound, bound + Given(t[..k]), t[k..]);
    CoveredAppend(bound, t[..k], t[k..]);
    assert t == t[..k] + t[k..];
  }

  lemma SuccessBinds(r: Retry, t: Trace, n: string)
    requires SureRetry(r, n) && Succeeds(r, t)
    ensures n in Given(t)
  {
    var k :| 0 <= k <= |t| && Fails(r.steps, t[..k])
             && (Path(r.steps, t[k..]) || (r.fallback.Otherwise? && Path(r.fallback.steps, t[k..])));
    GivenAppend(t[..k], t[k..]);
    assert t == t[..k] + t[k..];
  }

  ghost predicate SuccessSure(r: Retry, n: string) { forall t :: Succeeds(r, t) ==> n in Given(t) }

  lemma SuccessIff(bound: set<string>, r: Retry)
    ensures (forall t :: Succeeds(r, t) ==> Covered(bound, t)) <==> RetryCovered(bound, r)
    ensures forall n :: SuccessSure(r, n) <==> SureRetry(r, n)
  {
    forall t | Path(r.steps, t) || (r.fallback.Otherwise? && Path(r.fallback.steps, t)) ensures Succeeds(r, t) {
      AtOnce(r, t);
    }
    if RetryCovered(bound, r) {
      forall t | Succeeds(r, t) ensures Covered(bound, t) { SuccessCovered(bound, r, t); }
    }
    forall n | SureRetry(r, n) ensures SuccessSure(r, n) {
      forall t | Succeeds(r, t) ensures n in Given(t) { SuccessBinds(r, t, n); }
    }
  }

  lemma FirmRetryIff(s: Step, bound: set<string>)
    requires s.retry.Some? && !s.tolerant
    ensures InnerCovered(bound, s) <==> RetryCovered(bound, s.retry.value)
    ensures forall n :: InnerSure(s, n) <==> SureRetry(s.retry.value, n)
  {
    SuccessIff(bound, s.retry.value);
    forall t ensures InnerPath(s, t) <==> Succeeds(s.retry.value, t) {
      assert InnerPath(s, t) <==> RetryPath(s, t);
    }
  }

  lemma TolerantPath(s: Step, t: Trace)
    requires s.retry.Some? && s.tolerant
    ensures var r := s.retry.value;
      InnerPath(s, t) <==> t != [] && t[0] == Absorbs(r) && (Fails(r.steps, t[1..]) || Succeeds(r, t[1..]))
  {
    assert InnerPath(s, t) <==> RetryPath(s, t);
  }

  lemma AbsorbedCovered(bound: set<string>, r: Retry, u: Trace)
    ensures Covered(bound, [Absorbs(r)] + u) <==> (forall n :: SureRetry(r, n) ==> n in bound) && Covered(bound, u)
    ensures Given([Absorbs(r)] + u) == Given(u)
  {
    CoveredAfter(bound, Absorbs(r), u);
    assert bound + Names(Absorbs(r)) == bound;
    assert forall n :: Demands(Absorbs(r), n) <==> SureRetry(r, n);
  }

  lemma TolerantCovered(s: Step, bound: set<string>)
    requires s.retry.Some? && s.tolerant && RetryCovered(bound, s.retry.value)
    requires forall n :: SureRetry(s.retry.value, n) ==> n in bound
    ensures InnerCovered(bound, s)
  {
    var r := s.retry.value;
    forall t | InnerPath(s, t) ensures Covered(bound, t) {
      TolerantPath(s, t);
      AbsorbedCovered(bound, r, t[1..]);
      assert t == [Absorbs(r)] + t[1..];
      if Succeeds(r, t[1..]) { SuccessCovered(bound, r, t[1..]); } else { FailsCovered(bound, r.steps, t[1..]); }
    }
  }

  lemma TolerantRetryIff(s: Step, bound: set<string>)
    requires s.retry.Some? && s.tolerant
    ensures InnerCovered(bound, s)
            <==> RetryCovered(bound, s.retry.value) && forall n :: SureRetry(s.retry.value, n) ==> n in bound
    ensures forall n :: !InnerSure(s, n)
  {
    var r := s.retry.value;
    var e := Absorbs(r);
    AbsorbedCovered(bound, r, []);
    TolerantPath(s, [e] + []);
    assert Fails(r.steps, ([e] + [])[1..]);
    assert InnerPath(s, [e] + []);
    if InnerCovered(bound, s) {
      forall u | Succeeds(r, u) ensures Covered(bound, u) {
        AbsorbedCovered(bound, r, u);
        TolerantPath(s, [e] + u);
        assert ([e] + u)[1..] == u;
      }
      SuccessIff(bound, r);
    } else if RetryCovered(bound, r) && forall n :: SureRetry(r, n) ==> n in bound {
      TolerantCovered(s, bound);
    }
  }

  // ----- the check -----

  /** The check accepts what is shaped and covered, and returns what is sure. */
  ghost predicate Judged(texts: Texts, own: Option<Ownership>, steps: seq<Step>, bound: set<string>) {
    var r := CheckSteps(texts, own, steps, bound);
    && (r.Some? <==> AllShaped(texts, own, steps) && AllCovered(bound, steps))
    && (r.Some? ==> forall n :: n in r.value <==> n in bound || Sure(steps, n))
  }

  ghost predicate StepJudged(texts: Texts, own: Option<Ownership>, s: Step, bound: set<string>) {
    var r := CheckStep(texts, own, s, bound);
    && (r.Some? <==> Shaped(texts, own, s) && BelowShaped(texts, own, s) && StepCovered(bound, s))
    && (r.Some? ==> Definite(bound, s, r.value))
  }

  lemma NoSteps(texts: Texts, own: Option<Ownership>, bound: set<string>)
    ensures Judged(texts, own, [], bound)
  {
    assert Path([], []);
    assert forall n :: !Sure([], n);
    forall t | Path([], t) ensures Covered(bound, t) { NothingCovered(bound); }
  }

  lemma HeadCovered(bound: set<string>, steps: seq<Step>)
    requires steps != [] && AllCovered(bound, steps)
    ensures StepCovered(bound, steps[0])
  {
    forall a | StepPath(steps[0], a) ensures Covered(bound, a) {
      var b := SomePath(steps[1..]);
      PathAppend(steps, a, b);
      CoveredAppend(bound, a, b);
    }
  }

  /**
   * A program is accepted if and only if every step at every depth has the right
   * shape and, on every path, every loop comes after a binding of its collection and
   * every retry that may be given up binds only what is bound. What the check returns
   * is what every path binds.
   */
  lemma {:induction false} AcceptedIff(texts: Texts, own: Option<Ownership>, steps: seq<Step>, bound: set<string>)
    ensures Judged(texts, own, steps, bound)
    decreases steps, 1
  {
    if steps == [] {
      NoSteps(texts, own, bound);
    } else {
      ShapedParts(texts, own, steps);
      StepAcceptedIff(texts, own, steps[0], bound);
      var r := CheckStep(texts, own, steps[0], bound);
      if r.Some? {
        AcceptedIff(texts, own, steps[1..], r.value);
        CoveredSequence(bound, steps, r.value);
        forall n ensures Sure(steps, n) <==> SureStep(steps[0], n) || Sure(steps[1..], n) { SureSequence(steps, n); }
      } else if AllCovered(bound, steps) {
        HeadCovered(bound, steps);
      }
    }
  }

  lemma {:induction false} StepAcceptedIff(texts: Texts, own: Option<Ownership>, s: Step, bound: set<string>)
    ensures StepJudged(texts, own, s, bound)
    decreases s, 3
  {
    if WellFormed(s) && AwaitCapturesOk(s) && CapturesOk(texts, own, s) {
      var captured := bound + ArrayBinds(s.captures);
      StepFromInner(s, bound);
      InnerAcceptedIff(texts, own, s, bound, captured);
    }
  }

  /** The same with the captures of the step bound. */
  ghost predicate InnerJudged(texts: Texts, own: Option<Ownership>, s: Step, captured: set<string>,
                              r: Option<set<string>>) {
    && (r.Some? <==> (s.retry.Some? ==> RetryShape(texts, s.retry.value)) && BelowShaped(texts, own, s)
                     && InnerCovered(captured, s))
    && (r.Some? ==> forall n :: n in r.value <==> n in captured || InnerSure(s, n))
  }

  lemma {:induction false} InnerAcceptedIff(texts: Texts, own: Option<Ownership>, s: Step, bound: set<string>,
                                            captured: set<string>)
    requires WellFormed(s) && AwaitCapturesOk(s) && CapturesOk(texts, own, s)
    requires captured == bound + ArrayBinds(s.captures)
    ensures InnerJudged(texts, own, s, captured, CheckStep(texts, own, s, bound))
    decreases s, 2
  {
    if s.retry.Some? {
      RetryAcceptedIff(texts, own, s, captured);
    } else if s.awaitUntil.Some? {
      AcceptedIff(texts, own, s.awaitUntil.value.onEach, captured);
      AwaitIff(s, captured);
    } else if s.loop.Some? {
      AcceptedIff(texts, own, s.loop.value.body, captured);
      if s.loop.value.ForEach? { EachIff(s, captured); } else { ChunkIff(s, captured); }
    } else if s.ifStep.Some? {
      AcceptedIff(texts, own, s.ifStep.value.thenSteps, captured);
      AcceptedIff(texts, own, s.ifStep.value.elseSteps, captured);
      IfIff(s, captured);
    } else {
      PlainIff(s, captured);
    }
  }

  lemma PlainIff(s: Step, bound: set<string>)
    requires s.retry.None? && s.awaitUntil.None? && s.loop.None? && s.ifStep.None?
    ensures InnerCovered(bound, s) && forall n :: !InnerSure(s, n)
  {
    assert InnerPath(s, []);
    forall t | InnerPath(s, t) ensures Covered(bound, t) { NothingCovered(bound); }
  }

  lemma {:induction false} RetryAcceptedIff(texts: Texts, own: Option<Ownership>, s: Step, captured: set<string>)
    requires WellFormed(s) && s.retry.Some?
    ensures InnerJudged(texts, own, s, captured, CheckRetry(texts, own, s.retry.value, s.tolerant, captured))
    decreases s, 1
  {
    var r := s.retry.value;
    AcceptedIff(texts, own, r.steps, captured);
    if r.fallback.Otherwise? { AcceptedIff(texts, own, r.fallback.steps, captured); }
    if s.tolerant { TolerantRetryIff(s, captured); } else { FirmRetryIff(s, captured); }
  }
}
