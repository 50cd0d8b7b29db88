// Accepted step programs never loop over a collection that is not bound.
module StepSoundness {
  import opened Options
  import opened Steps
  import opened Executor

  // ----- the check only adds -----

  lemma {:induction false} CheckGrows(texts: Texts, own: Option<Ownership>, steps: seq<Step>, bound: set<string>)
    requires CheckSteps(texts, own, steps, bound).Some?
    ensures bound <= CheckSteps(texts, own, steps, bound).value
    decreases steps, 0
  {
    if steps != [] {
      StepGrows(texts, own, steps[0], bound);
      CheckGrows(texts, own, steps[1..], CheckStep(texts, own, steps[0], bound).value);
    }
  }

  lemma {:induction false} StepGrows(texts: Texts, own: Option<Ownership>, s: Step, bound: set<string>)
    requires CheckStep(texts, own, s, bound).Some?
    ensures bound <= CheckStep(texts, own, s, bound).value
    decreases s, 1
  {
    var captured := bound + ArrayBinds(s.captures);
    if s.retry.Some? {
      RetryGrows(texts, own, s, captured);
    } else if s.awaitUntil.None? && s.loop.None? && s.ifStep.Some? {
      CheckGrows(texts, own, s.ifStep.value.thenSteps, captured);
      CheckGrows(texts, own, s.ifStep.value.elseSteps, captured);
    }
  }

  lemma {:induction false} RetryGrows(texts: Texts, own: Option<Ownership>, s: Step, bound: set<string>)
    requires s.retry.Some? && CheckRetry(texts, own, s.retry.value, s.tolerant, bound).Some?
    ensures bound <= CheckRetry(texts, own, s.retry.value, s.tolerant, bound).value
    decreases s, 0
  {
    CheckGrows(texts, own, s.retry.value.steps, bound);
    if s.retry.value.fallback.Otherwise? { CheckGrows(texts, own, s.retry.value.fallback.steps, bound); }
  }

  // ----- captures bind what the check says they bind -----

  lemma {:induction false} MappedCaptures(texts: Texts, cs: seq<Capture>)
    requires MapCaptures(texts, cs).Some?
    ensures var es := MapCaptures(texts, cs).value;
      |es| == |cs| && forall i :: 0 <= i < |cs| ==> MapCapture(texts, cs[i]) == Some(es[i])
  {
    if cs != [] {
      MappedCaptures(texts, cs[1..]);
      var es := MapCaptures(texts, cs).value;
      assert forall i :: 1 <= i < |cs| ==> cs[i] == cs[1..][i - 1] && es[i] == MapCaptures(texts, cs[1..]).value[i - 1];
    }
  }

  lemma SameArrayBinds(texts: Texts, cs: seq<Capture>)
    requires MapCaptures(texts, cs).Some?
    ensures EntryArrayBinds(MapCaptures(texts, cs).value) == ArrayBinds(cs)
  {
    MappedCaptures(texts, cs);
    var es := MapCaptures(texts, cs).value;
    assert forall i :: 0 <= i < |cs| ==> es[i].bind == cs[i].bind && es[i].source == cs[i].source;
  }

  lemma ArrayBindsRest(captures: seq<EntryCapture>)
    requires captures != []
    ensures EntryArrayBinds(captures) == EntryArrayBinds(captures[1..])
            + (if IsArray(captures[0]) then {captures[0].bind} else {})
  {
    var rest := captures[1..];
    assert forall i :: 1 <= i < |captures| ==> captures[i] == rest[i - 1];
    assert forall i :: 0 <= i < |rest| ==> rest[i] == captures[i + 1];
  }

  lemma {:induction false} ArraysBound(captures: seq<EntryCapture>, values: seq<nat>, m: Machine)
    ensures BindArrays(captures, values, m).Done?
            ==> EntryArrayBinds(captures) <= BindArrays(captures, values, m).m.collections.Keys
  {
    if captures != [] {
      ArrayBindsRest(captures);
      if IsArray(captures[0]) {
        ArraysBound(captures[1..], values, m.(collections := m.collections[captures[0].bind := values]));
      }
    }
  }

  lemma PropertyBinds(dev: Device, prop: nat, captures: seq<EntryCapture>, payload: seq<nat>, m: Machine)
    ensures var o := CaptureProperty(dev, prop, captures, payload, m);
            o.Done? ==> EntryArrayBinds(captures) <= o.m.collections.Keys
  {
    if exists i :: 0 <= i < |captures| && IsArray(captures[i]) {
      if DecodeU32Array(payload).Some? { ArraysBound(captures, DecodeU32Array(payload).value, m); }
    } else {
      assert EntryArrayBinds(captures) == {};
    }
  }

  lemma {:induction false} RepliesBind(dev: Device, op: nat, captures: seq<EntryCapture>, reply: Exchange,
                                       scalars: map<string, Value>, m: Machine)
    requires reply.Got?
    ensures var o := ApplyCaptures(dev, op, captures, reply, scalars, m);
            o.Done? ==> EntryArrayBinds(captures) <= o.m.collections.Keys
  {
    if captures != [] {
      ArrayBindsRest(captures);
      var c, rest := captures[0], captures[1..];
      match c.source {
        case PtpU32Array =>
          var values := DecodeU32Array(reply.payload);
          if values.Some? {
            RepliesBind(dev, op, rest, reply, scalars, m.(collections := m.collections[c.bind := values.value]));
          }
        case PropValue =>
        case TransactionId => RepliesBind(dev, op, rest, reply, scalars[c.bind := Number(reply.transactionId)], m);
        case _ =>
          var n := dev.scalar(c.source, op, reply.payload);
          if n.Ok? { RepliesBind(dev, op, rest, reply, scalars[c.bind := Number(n.value)], m); }
      }
    }
  }

  /** A capture that binds an array has no fallback, so a refused read cannot pass for a bound one. */
  lemma GetBinds(dev: Device, prop: nat, captures: seq<EntryCapture>, m: Machine)
    requires forall i :: 0 <= i < |captures| && IsArray(captures[i]) ==> captures[i].fallback.None?
    ensures var o := RunGet(dev, prop, captures, m); o.Done? ==> EntryArrayBinds(captures) <= o.m.collections.Keys
  {
    var e := Issue(m);
    if e.Got? {
      if e.code == OK_RESPONSE { PropertyBinds(dev, prop, captures, e.payload, e.m); }
      else if FallbackSelected(captures, e.code) { assert EntryArrayBinds(captures) == {}; }
    }
  }

  lemma {:induction false} SendBinds(dev: Device, op: nat, captures: seq<EntryCapture>, tolerant: bool, times: nat,
                                     m: Machine)
    requires !tolerant || EntryArrayBinds(captures) == {}
    ensures var o := RunSend(dev, op, captures, tolerant, times, m);
      o.Done? && (times > 0 || EntryArrayBinds(captures) <= m.collections.Keys) ==>
        EntryArrayBinds(captures) <= o.m.collections.Keys
    decreases times
  {
    if times > 0 {
      var e := Issue(m);
      if e.Got? {
        if e.code == OK_RESPONSE {
          RepliesBind(dev, op, captures, e, map[], e.m);
          var o := ApplyCaptures(dev, op, captures, e, map[], e.m);
          if o.Done? { SendBinds(dev, op, captures, tolerant, times - 1, o.m); }
        } else if tolerant {
          SendBinds(dev, op, captures, tolerant, times - 1, e.m);
        }
      }
    }
  }

  // ----- soundness -----

  /** What the check promises about a run that starts with `bound` bound. */
  predicate Safe(o: Outcome, after: set<string>) {
    (o.Failed? ==> !o.fault.Unbound?) && (o.Done? ==> after <= o.m.collections.Keys)
  }

  lemma NoFallbackOnArrays(texts: Texts, own: Option<Ownership>, s: Step, es: seq<EntryCapture>)
    requires CapturesOk(texts, own, s) && MapCaptures(texts, s.captures) == Some(es)
    ensures forall i :: 0 <= i < |es| && IsArray(es[i]) ==> es[i].fallback.None?
    ensures s.tolerant || !(s.getProp.Some? || s.sendOp.Some?) ==> ArrayBinds(s.captures) == {}
  {
    MappedCaptures(texts, s.captures);
    forall i | 0 <= i < |es| && IsArray(es[i]) ensures es[i].fallback.None? {
      assert CaptureOk(texts, own, s, s.captures[i]);
    }
    if s.tolerant || !(s.getProp.Some? || s.sendOp.Some?) {
      forall i | 0 <= i < |s.captures| ensures !s.captures[i].source.PtpU32Array? {
        assert ArrayOk(texts, s, s.captures[i]);
      }
    }
  }

  /** Only a step that reads binds arrays, and only if it is not tolerant. */
  lemma FewArrays(texts: Texts, own: Option<Ownership>, s: Step)
    requires CapturesOk(texts, own, s) && (s.tolerant || !(s.getProp.Some? || s.sendOp.Some?))
    ensures ArrayBinds(s.captures) == {}
  {
    forall i | 0 <= i < |s.captures| ensures !s.captures[i].source.PtpU32Array? {
      assert ArrayOk(texts, s, s.captures[i]);
    }
  }

  lemma WireSafe(texts: Texts, own: Option<Ownership>, dev: Device, s: Step, e: EntryStep, bound: set<string>,
                 m: Machine)
    requires WellFormed(s) && CapturesOk(texts, own, s) && MapStep(texts, s) == Some(e)
    requires s.awaitUntil.None? && s.retry.None? && s.loop.None? && s.ifStep.None? && bound <= m.collections.Keys
    ensures Safe(RunOnce(dev, e, m), bound + ArrayBinds(s.captures))
  {
    if s.getProp.Some? {
      NoFallbackOnArrays(texts, own, s, e.captures);
      SameArrayBinds(texts, s.captures);
      GetBinds(dev, e.prop, e.captures, m);
    } else if s.sendOp.Some? {
      NoFallbackOnArrays(texts, own, s, e.captures);
      SameArrayBinds(texts, s.captures);
      if Resolves(dev, e.params, m) { SendBinds(dev, e.op, e.captures, e.tolerant, Max(e.repeat, 1), m); }
    } else {
      FewArrays(texts, own, s);
    }
  }

  lemma {:induction false} StepsSafe(texts: Texts, own: Option<Ownership>, dev: Device, steps: seq<Step>,
                                     es: seq<EntryStep>,
                                     bound: set<string>, m: Machine)
    requires CheckSteps(texts, own, steps, bound).Some? && MapSteps(texts, steps) == Some(es)
             && bound <= m.collections.Keys
    ensures Safe(RunSteps(dev, es, m), CheckSteps(texts, own, steps, bound).value)
    decreases steps, 0, 0
  {
    if steps != [] {
      var after := CheckStep(texts, own, steps[0], bound).value;
      StepSafe(texts, own, dev, steps[0], es[0], bound, m);
      var o := RunStep(dev, es[0], m);
      if o.Done? {
        assert es[1..] == MapSteps(texts, steps[1..]).value;
        StepsSafe(texts, own, dev, steps[1..], es[1..], after, o.m);
      }
    }
  }

  lemma {:induction false} StepSafe(texts: Texts, own: Option<Ownership>, dev: Device, s: Step, e: EntryStep,
                                    bound: set<string>, m: Machine)
    requires CheckStep(texts, own, s, bound).Some? && MapStep(texts, s) == Some(e) && bound <= m.collections.Keys
    ensures Safe(RunStep(dev, e, m), CheckStep(texts, own, s, bound).value)
    decreases s, 3, 0
  {
    OnceSafe(texts, own, dev, s, e, bound, m);
    if Tolerant(e) { TolerantAddsNothing(texts, own, s, e, bound); }
  }

  /** A step whose refusal is absorbed binds nothing on success either. */
  lemma TolerantAddsNothing(texts: Texts, own: Option<Ownership>, s: Step, e: EntryStep, bound: set<string>)
    requires CheckStep(texts, own, s, bound).Some? && MapStep(texts, s) == Some(e) && Tolerant(e)
    ensures CheckStep(texts, own, s, bound) == Some(bound)
  {
    FewArrays(texts, own, s);
    assert bound + ArrayBinds(s.captures) == bound;
  }

  lemma {:induction false} OnceSafe(texts: Texts, own: Option<Ownership>, dev: Device, s: Step, e: EntryStep,
                                    bound: set<string>, m: Machine)
    requires CheckStep(texts, own, s, bound).Some? && MapStep(texts, s) == Some(e) && bound <= m.collections.Keys
    ensures Safe(RunOnce(dev, e, m), CheckStep(texts, own, s, bound).value)
    decreases s, 2, 0
  {
    if s.retry.Some? || s.awaitUntil.Some? || s.loop.Some? || s.ifStep.Some? {
      FewArrays(texts, own, s);
      assert bound + ArrayBinds(s.captures) == bound;
      ControlSafe(texts, own, dev, s, e, bound, m);
    } else {
      WireSafe(texts, own, dev, s, e, bound, m);
    }
  }

  lemma {:induction false} ControlSafe(texts: Texts, own: Option<Ownership>, dev: Device, s: Step, e: EntryStep,
                                       bound: set<string>, m: Machine)
    requires CheckStep(texts, own, s, bound).Some? && MapControl(texts, s) == Some(e) && MapStep(texts, s) == Some(e)
    requires bound <= m.collections.Keys && ArrayBinds(s.captures) == {} && bound + ArrayBinds(s.captures) == bound
    requires s.retry.Some? || s.awaitUntil.Some? || s.loop.Some? || s.ifStep.Some?
    ensures Safe(RunOnce(dev, e, m), CheckStep(texts, own, s, bound).value)
    decreases s, 1, 0
  {
    if s.retry.Some? {
      RetrySafe(texts, own, dev, s, e, bound, Max(e.maxAttempts, 1), m);
    } else if s.awaitUntil.Some? {
      AwaitSafe(texts, own, dev, s, e, bound, m);
    } else if s.loop.Some? {
      LoopSafe(texts, own, dev, s, e, bound, m);
    } else {
      IfSafe(texts, own, dev, s, e, bound, m);
    }
  }

  lemma {:induction false} RetrySafe(texts: Texts, own: Option<Ownership>, dev: Device, s: Step, e: EntryStep,
                                     bound: set<string>,
                                     left: nat, m: Machine)
    requires s.retry.Some? && e.RetryStep? && left > 0 && bound <= m.collections.Keys
    requires CheckRetry(texts, own, s.retry.value, s.tolerant, bound).Some?
    requires MapSteps(texts, s.retry.value.steps) == Some(e.steps)
    requires if s.retry.value.fallback.Otherwise? then MapSteps(texts, s.retry.value.fallback.steps) == Some(e.fallback)
             else e.fallback == []
    ensures Safe(RunRetry(dev, e, left, m), CheckRetry(texts, own, s.retry.value, s.tolerant, bound).value)
    decreases s, 0, left
  {
    var r := s.retry.value;
    StepsSafe(texts, own, dev, r.steps, e.steps, bound, m);
    var o := RunSteps(dev, e.steps, m);
    if o.Failed? && Selects(e, o.fault) {
      if left > 1 {
        if e.delayMs == 0 {
          RetrySafe(texts, own, dev, s, e, bound, left - 1, o.m);
        } else if Tick(o.m).Done? {
          RetrySafe(texts, own, dev, s, e, bound, left - 1, Tick(o.m).m);
        }
      } else if e.fallback != [] {
        StepsSafe(texts, own, dev, r.fallback.steps, e.fallback, bound, o.m);
      }
    }
  }

  lemma {:induction false} IfSafe(texts: Texts, own: Option<Ownership>, dev: Device, s: Step, e: EntryStep,
                                  bound: set<string>, m: Machine)
    requires s.ifStep.Some? && s.retry.None? && s.awaitUntil.None? && s.loop.None? && bound <= m.collections.Keys
    requires MapControl(texts, s) == Some(e)
    requires CheckSteps(texts, own, s.ifStep.value.thenSteps, bound).Some?
             && CheckSteps(texts, own, s.ifStep.value.elseSteps, bound).Some?
    ensures Safe(RunOnce(dev, e, m), CheckSteps(texts, own, s.ifStep.value.thenSteps, bound).value
                                     * CheckSteps(texts, own, s.ifStep.value.elseSteps, bound).value)
    decreases s, 0, 0
  {
    var i := s.ifStep.value;
    StepsSafe(texts, own, dev, i.thenSteps, e.thenSteps, bound, m);
    if i.elseSteps != [] { StepsSafe(texts, own, dev, i.elseSteps, e.elseSteps, bound, m); }
  }

  lemma {:induction false} LoopSafe(texts: Texts, own: Option<Ownership>, dev: Device, s: Step, e: EntryStep,
                                    bound: set<string>, m: Machine)
    requires s.loop.Some? && s.retry.None? && s.awaitUntil.None? && bound <= m.collections.Keys
             && MapControl(texts, s) == Some(e)
    requires s.loop.value.ForEach? ==> s.loop.value.collection in bound
    requires CheckSteps(texts, own, s.loop.value.body, bound).Some?
    ensures e.LoopStep? && Safe(RunLoop(dev, e, m), bound)
    decreases s, 0, 2
  {
    match s.loop.value {
      case ForEach(collection, bind, body) =>
        if |m.collections[collection]| <= MAX_FOREACH_ITERS {
          EachSafe(texts, own, dev, s, e.kind.body, bound, bind, m.collections[collection], m);
        }
      case Chunk(total, size, offsetBind, lengthBind, body) =>
        var whole := NumberAt(m.bindings, total);
        var window := if size.LiteralSize? then Some(size.n) else NumberAt(m.bindings, size.slot);
        if whole.Some? && window.Some? && window.value > 0 {
          ChunksSafe(texts, own, dev, s, e.kind.body, bound, offsetBind, lengthBind, 0, whole.value, window.value, 0,
                     m);
        }
    }
  }

  lemma {:induction false} EachSafe(texts: Texts, own: Option<Ownership>, dev: Device, s: Step, body: seq<EntryStep>,
                                    bound: set<string>,
                                    bind: string, values: seq<nat>, m: Machine)
    requires s.loop.Some? && MapSteps(texts, s.loop.value.body) == Some(body) && bound <= m.collections.Keys
    requires CheckSteps(texts, own, s.loop.value.body, bound).Some?
    ensures Safe(RunEach(dev, body, bind, values, m), bound)
    decreases s, 0, 1, |values|
  {
    if values != [] {
      var inner := m.(bindings := m.bindings[bind := Number(values[0])]);
      StepsSafe(texts, own, dev, s.loop.value.body, body, bound, inner);
      var o := RunSteps(dev, body, inner);
      if o.Done? {
        EachSafe(texts, own, dev, s, body, bound, bind, values[1..],
                 o.m.(bindings := Restore(o.m.bindings, bind, m.bindings)));
      }
    }
  }

  lemma {:induction false} ChunksSafe(texts: Texts, own: Option<Ownership>, dev: Device, s: Step, body: seq<EntryStep>,
                                      bound: set<string>,
                                      offsetBind: string, lengthBind: string, offset: nat, total: nat, window: nat,
                                        index: nat, m: Machine)
    requires s.loop.Some? && MapSteps(texts, s.loop.value.body) == Some(body) && bound <= m.collections.Keys
             && window > 0
    requires CheckSteps(texts, own, s.loop.value.body, bound).Some?
    ensures Safe(RunChunks(dev, body, offsetBind, lengthBind, offset, total, window, index, m), bound)
    decreases s, 0, 1, total - offset
  {
    if offset < total && index != MAX_CHUNK_ITERS {
      var length := Min(total - offset, window);
      var bindings := m.bindings[offsetBind := Number(offset)];
      var inner := m.(bindings := bindings[lengthBind := Number(length)]);
      StepsSafe(texts, own, dev, s.loop.value.body, body, bound, inner);
      var o := RunSteps(dev, body, inner);
      if o.Done? {
        ChunksSafe(texts, own, dev, s, body, bound, offsetBind, lengthBind, offset + length, total, window, index + 1,
                   o.m.(bindings := Restore(Restore(o.m.bindings, offsetBind, m.bindings), lengthBind, bindings)));
      }
    }
  }

  lemma {:induction false} AwaitSafe(texts: Texts, own: Option<Ownership>, dev: Device, s: Step, e: EntryStep,
                                     bound: set<string>, m: Machine)
    requires s.awaitUntil.Some? && s.retry.None? && bound <= m.collections.Keys && MapControl(texts, s) == Some(e)
    requires CheckSteps(texts, own, s.awaitUntil.value.onEach, bound).Some?
    ensures e.AwaitUntilStep? && Safe(RunAwait(dev, e, m), bound)
    decreases s, 0, 1
  {
    if e.source.EntryPoll? {
      PollSafe(texts, own, dev, s, e, bound, m);
    } else {
      PollSafe(texts, own, dev, s, e, bound, Tick(m).m);
    }
  }

  lemma {:induction false} PollSafe(texts: Texts, own: Option<Ownership>, dev: Device, s: Step, e: EntryStep,
                                    bound: set<string>, m: Machine)
    requires s.awaitUntil.Some? && e.AwaitUntilStep? && bound <= m.collections.Keys
    requires MapSteps(texts, s.awaitUntil.value.onEach) == Some(e.onEach)
    requires CheckSteps(texts, own, s.awaitUntil.value.onEach, bound).Some?
    ensures Safe(RunPoll(dev, e, m), bound)
    decreases s, 0, 0, |m.script|
  {
    var poll := PollOf(e.source);
    var x := Issue(m);
    if poll.Some? && x.Got? && x.code == OK_RESPONSE {
      var seen := dev.observe(poll.value, x.payload, x.m.observed);
      if seen.Ok? && !dev.holds(e.until, seen.value) {
        var before := x.m.(observed := seen.value);
        StepsSafe(texts, own, dev, s.awaitUntil.value.onEach, e.onEach, bound, before);
        var o := RunSteps(dev, e.onEach, before);
        if o.Done? && Tick(o.m).Done? { PollSafe(texts, own, dev, s, e, bound, Tick(o.m).m); }
      }
    }
  }

  /**
   * In every run of an accepted program, whatever the camera answers, no `forEach`
   * meets an unbound collection, and a run that completes has bound everything
   * the check counted on.
   */
  lemma AcceptedProgramsBind(texts: Texts, own: Option<Ownership>, dev: Device, steps: seq<Step>, es: seq<EntryStep>,
                             m: Machine)
    requires CheckSteps(texts, own, steps, {}).Some? && MapSteps(texts, steps) == Some(es)
    ensures var o := RunSteps(dev, es, m);
      && (o.Failed? ==> !o.fault.Unbound?)
      && (o.Done? ==> CheckSteps(texts, own, steps, {}).value <= o.m.collections.Keys)
  {
    StepsSafe(texts, own, dev, steps, es, {}, m);
  }

  // ----- no loop under a retry -----

  /** Where no loop is found, none occurs at any depth. */
  lemma {:induction false} LoopFree(steps: seq<Step>, s: Step)
    requires !ContainsLoop(steps) && Occurs(s, steps)
    ensures s.loop.None?
    decreases steps, 0
  {
    var i :| 0 <= i < |steps| && (steps[i] == s || OccursBelow(s, steps[i]));
    assert !LoopIn(steps[i]);
    if steps[i] != s { LoopFreeBelow(steps[i], s); }
  }

  lemma {:induction false} LoopFreeBelow(t: Step, s: Step)
    requires !LoopIn(t) && OccursBelow(s, t)
    ensures s.loop.None?
    decreases t, 0
  {
    if t.retry.Some? && Occurs(s, t.retry.value.steps) { LoopFree(t.retry.value.steps, s); }
    else if t.retry.Some? && t.retry.value.fallback.Otherwise? && Occurs(s, t.retry.value.fallback.steps) {
      LoopFree(t.retry.value.fallback.steps, s);
    }
    else if t.awaitUntil.Some? && Occurs(s, t.awaitUntil.value.onEach) { LoopFree(t.awaitUntil.value.onEach, s); }
    else if Occurs(s, t.ifStep.value.thenSteps) { LoopFree(t.ifStep.value.thenSteps, s); }
    else { LoopFree(t.ifStep.value.elseSteps, s); }
  }

  /** And where one is found, one occurs. */
  lemma {:induction false} LoopFound(steps: seq<Step>) returns (s: Step)
    requires ContainsLoop(steps)
    ensures Occurs(s, steps) && s.loop.Some?
    decreases steps, 0
  {
    var i :| 0 <= i < |steps| && LoopIn(steps[i]);
    s := steps[i];
    if s.loop.None? { s := LoopFoundBelow(steps[i]); }
  }

  lemma {:induction false} LoopFoundBelow(t: Step) returns (s: Step)
    requires LoopIn(t) && t.loop.None?
    ensures OccursBelow(s, t) && s.loop.Some?
    decreases t, 0
  {
    if t.retry.Some? && ContainsLoop(t.retry.value.steps) { s := LoopFound(t.retry.value.steps); }
    else if t.retry.Some? && t.retry.value.fallback.Otherwise? && ContainsLoop(t.retry.value.fallback.steps) {
      s := LoopFound(t.retry.value.fallback.steps);
    }
    else if t.awaitUntil.Some? && ContainsLoop(t.awaitUntil.value.onEach) {
      s := LoopFound(t.awaitUntil.value.onEach);
    }
    else if ContainsLoop(t.ifStep.value.thenSteps) { s := LoopFound(t.ifStep.value.thenSteps); }
    else { s := LoopFound(t.ifStep.value.elseSteps); }
  }

  /** Every step of an accepted program, at any depth, was itself accepted with some collections bound. */
  lemma {:induction false} EveryStepChecked(texts: Texts, own: Option<Ownership>, steps: seq<Step>, bound: set<string>,
                                            s: Step)
    requires CheckSteps(texts, own, steps, bound).Some? && Occurs(s, steps)
    ensures exists b: set<string> :: CheckStep(texts, own, s, b).Some?
    decreases steps, 0
  {
    var i :| 0 <= i < |steps| && (steps[i] == s || OccursBelow(s, steps[i]));
    var b := StepReached(texts, own, steps, bound, i);
    if steps[i] != s { EveryStepBelow(texts, own, steps[i], b, s); }
  }

  lemma {:induction false} StepReached(texts: Texts, own: Option<Ownership>, steps: seq<Step>, bound: set<string>,
                                       i: nat)
    returns (b: set<string>)
    requires CheckSteps(texts, own, steps, bound).Some? && i < |steps|
    ensures CheckStep(texts, own, steps[i], b).Some?
    decreases i
  {
    if i == 0 { b := bound; }
    else {
      assert steps[1..][i - 1] == steps[i];
      b := StepReached(texts, own, steps[1..], CheckStep(texts, own, steps[0], bound).value, i - 1);
    }
  }

  lemma {:induction false} EveryStepBelow(texts: Texts, own: Option<Ownership>, t: Step, bound: set<string>, s: Step)
    requires CheckStep(texts, own, t, bound).Some? && OccursBelow(s, t)
    ensures exists b: set<string> :: CheckStep(texts, own, s, b).Some?
    decreases t, 0
  {
    var captured := bound + ArrayBinds(t.captures);
    if t.retry.Some? {
      if Occurs(s, t.retry.value.steps) { EveryStepChecked(texts, own, t.retry.value.steps, captured, s); }
      else { EveryStepChecked(texts, own, t.retry.value.fallback.steps, captured, s); }
    } else if t.awaitUntil.Some? {
      EveryStepChecked(texts, own, t.awaitUntil.value.onEach, captured, s);
    } else if t.loop.Some? {
      EveryStepChecked(texts, own, t.loop.value.body, captured, s);
    } else if Occurs(s, t.ifStep.value.thenSteps) {
      EveryStepChecked(texts, own, t.ifStep.value.thenSteps, captured, s);
    } else {
      EveryStepChecked(texts, own, t.ifStep.value.elseSteps, captured, s);
    }
  }

  /** In an accepted program no loop occurs, at any depth, inside any retry or its fallback. */
  lemma NoLoopUnderRetry(texts: Texts, own: Option<Ownership>, steps: seq<Step>, bound: set<string>, r: Step, s: Step)
    requires CheckSteps(texts, own, steps, bound).Some? && Occurs(r, steps) && r.retry.Some?
    requires Occurs(s, r.retry.value.steps) || Occurs(s, FallbackSteps(r.retry.value))
    ensures s.loop.None?
  {
    EveryStepChecked(texts, own, steps, bound, r);
    if Occurs(s, r.retry.value.steps) {
      LoopFree(r.retry.value.steps, s);
    } else {
      LoopFree(FallbackSteps(r.retry.value), s);
    }
  }

  /** The response codes of an accepted fallback all parse, so mapping them for the executor cannot panic. */
  lemma AcceptedCapturesMap(texts: Texts, own: Option<Ownership>, s: Step, bound: set<string>)
    requires CheckStep(texts, own, s, bound).Some?
    ensures MapCaptures(texts, s.captures).Some?
  {
    forall i | 0 <= i < |s.captures| ensures MapCapture(texts, s.captures[i]).Some? {
      assert CaptureOk(texts, own, s, s.captures[i]);
      if s.captures[i].fallback.Some? { CodesMap(texts, s.captures[i].fallback.value.whenResponseCodes); }
    }
    AllCapturesMap(texts, s.captures);
  }

  lemma {:induction false} CodesMap(texts: Texts, codes: seq<string>)
    requires forall i :: 0 <= i < |codes| ==> texts.hex(codes[i]).Some?
    ensures AllHex(texts, codes).Some?
  {
    if codes != [] {
      assert forall i :: 0 <= i < |codes[1..]| ==> codes[1..][i] == codes[i + 1];
      CodesMap(texts, codes[1..]);
    }
  }

  lemma {:induction false} AllCapturesMap(texts: Texts, cs: seq<Capture>)
    requires forall i :: 0 <= i < |cs| ==> MapCapture(texts, cs[i]).Some?
    ensures MapCaptures(texts, cs).Some?
  {
    if cs != [] {
      assert forall i :: 0 <= i < |cs[1..]| ==> cs[1..][i] == cs[i + 1];
      AllCapturesMap(texts, cs[1..]);
    }
  }
}
