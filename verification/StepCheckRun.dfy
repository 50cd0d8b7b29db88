// The load-time step check as it runs, with a set that grows while it walks.
module StepCheckRun {
  import opened Options
  import opened Steps

  method CheckCodes(texts: Texts, codes: seq<string>) returns (ok: bool)
    ensures ok <==> CodesOk(texts, codes)
  {
    var seen: set<nat> := {};
    for i := 0 to |codes|
      invariant forall j :: 0 <= j < i ==> texts.hex(codes[j]).Some? && texts.hex(codes[j]) != Some(OK_RESPONSE)
      invariant seen == set j | 0 <= j < i :: texts.hex(codes[j]).value
      invariant forall j, k :: 0 <= j < k < i ==> texts.hex(codes[j]) != texts.hex(codes[k])
    {
      var code := texts.hex(codes[i]);
      if code.None? { return false; }
      if code.value == OK_RESPONSE { return false; }
      if code.value in seen { return false; }
      seen := seen + {code.value};
    }
    return true;
  }

  method CheckCapture(texts: Texts, ownership: Option<Ownership>, s: Step, c: Capture) returns (ok: bool)
    ensures ok <==> CaptureOk(texts, ownership, s, c)
  {
    if c.fallback.Some? {
      if s.getProp.None? || !c.source.PropValue? { return false; }
      if s.tolerant { return false; }
      if c.fallback.value.whenResponseCodes == [] { return false; }
      var codes := CheckCodes(texts, c.fallback.value.whenResponseCodes);
      if !codes { return false; }
    }
    if c.source.TransactionId? {
      if ownership == Some(DaemonAttached) || s.sendOp.None? || s.repeat != 1 || s.tolerant || texts.blank(c.bind) {
        return false;
      }
    }
    if c.source.PtpU32Array? {
      if (s.getProp.None? && s.sendOp.None?) || s.tolerant || texts.blank(c.bind) { return false; }
    }
    return true;
  }

  method CheckCaptures(texts: Texts, ownership: Option<Ownership>, s: Step) returns (ok: bool, arrays: set<string>)
    ensures ok <==> CapturesOk(texts, ownership, s)
    ensures ok ==> arrays == ArrayBinds(s.captures)
  {
    arrays := {};
    for i := 0 to |s.captures|
      invariant arrays == set j | 0 <= j < i && s.captures[j].source.PtpU32Array? :: s.captures[j].bind
      invariant forall j :: 0 <= j < i ==> CaptureOk(texts, ownership, s, s.captures[j])
      invariant forall j, k :: 0 <= j < k < i && s.captures[j].source.PtpU32Array? && s.captures[k].source.PtpU32Array?
                  ==> s.captures[j].bind != s.captures[k].bind
    {
      var fine := CheckCapture(texts, ownership, s, s.captures[i]);
      if !fine { return false, {}; }
      if s.captures[i].source.PtpU32Array? {
        if s.captures[i].bind in arrays { return false, {}; }
        arrays := arrays + {s.captures[i].bind};
      }
    }
    return true, arrays;
  }

  lemma CheckFrom(texts: Texts, ownership: Option<Ownership>, steps: seq<Step>, i: nat, bound: set<string>)
    requires i < |steps|
    ensures CheckSteps(texts, ownership, steps[i..], bound)
         == match CheckStep(texts, ownership, steps[i], bound)
            case None => None
            case Some(after) => CheckSteps(texts, ownership, steps[i + 1..], after)
  {
    assert steps[i..][0] == steps[i] && steps[i..][1..] == steps[i + 1..];
  }

  method CheckProgram(texts: Texts, ownership: Option<Ownership>, steps: seq<Step>, bound: set<string>)
    returns (ok: bool, after: set<string>)
    ensures ok <==> CheckSteps(texts, ownership, steps, bound).Some?
    ensures ok ==> CheckSteps(texts, ownership, steps, bound) == Some(after)
    decreases steps, 1
  {
    after := bound;
    assert steps[0..] == steps;
    for i := 0 to |steps|
      invariant CheckSteps(texts, ownership, steps, bound) == CheckSteps(texts, ownership, steps[i..], after)
    {
      CheckFrom(texts, ownership, steps, i, after);
      var fine, now := CheckOne(texts, ownership, steps[i], after);
      if !fine { return false, {}; }
      after := now;
    }
    return true, after;
  }

  method CheckOne(texts: Texts, ownership: Option<Ownership>, s: Step, bound: set<string>)
    returns (ok: bool, after: set<string>)
    ensures ok <==> CheckStep(texts, ownership, s, bound).Some?
    ensures ok ==> CheckStep(texts, ownership, s, bound) == Some(after)
    decreases s, 1
  {
    if !WellFormed(s) || !AwaitCapturesOk(s) { return false, {}; }
    var fine, arrays := CheckCaptures(texts, ownership, s);
    if !fine { return false, {}; }
    after := bound + arrays;
    if s.retry.Some? {
      ok, after := CheckAttempts(texts, ownership, s, after);
      return;
    }
    if s.awaitUntil.Some? {
      var nested, _ := CheckProgram(texts, ownership, s.awaitUntil.value.onEach, after);
      if !nested { return false, {}; }
    }
    if s.loop.Some? {
      if s.loop.value.ForEach? && s.loop.value.collection !in after { return false, {}; }
      var nested, _ := CheckProgram(texts, ownership, s.loop.value.body, after);
      if !nested { return false, {}; }
    }
    if s.ifStep.Some? {
      var left, thenBound := CheckProgram(texts, ownership, s.ifStep.value.thenSteps, after);
      if !left { return false, {}; }
      var right, elseBound := CheckProgram(texts, ownership, s.ifStep.value.elseSteps, after);
      if !right { return false, {}; }
      after := thenBound * elseBound;
    }
    return true, after;
  }

  method CheckAttempts(texts: Texts, ownership: Option<Ownership>, s: Step, bound: set<string>)
    returns (ok: bool, after: set<string>)
    requires s.retry.Some?
    ensures ok <==> CheckRetry(texts, ownership, s.retry.value, s.tolerant, bound).Some?
    ensures ok ==> CheckRetry(texts, ownership, s.retry.value, s.tolerant, bound) == Some(after)
    decreases s, 0
  {
    var r := s.retry.value;
    if !RetryShape(texts, r) { return false, {}; }
    ok, after := CheckProgram(texts, ownership, r.steps, bound);
    if !ok { return false, {}; }
    if r.fallback.Otherwise? {
      var fell, otherwise := CheckProgram(texts, ownership, r.fallback.steps, bound);
      if !fell { return false, {}; }
      after := after * otherwise;
    }
    if s.tolerant && after != bound { return false, {}; }
    return true, after;
  }
}
