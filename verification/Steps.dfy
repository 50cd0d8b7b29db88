// The step language of mode entries and actions, and the load-time check that
// decides which collections are definitely bound where.
module Steps {
  import opened Options

  datatype SetValue = Literal(i: int) | Runtime(slot: string, skipIfMissing: bool)

  datatype Param = LiteralParam(n: nat) | SlotParam(slot: string, shift: nat, mask: Option<nat>)

  datatype CaptureSource = ObjectInfoCompressedSize | PropValue | U32Le | U64Le | PtpU32Array | TransactionId

  datatype Fallback = Fallback(value: nat, whenResponseCodes: seq<string>)

  datatype Capture = Capture(bind: string, source: CaptureSource, fallback: Option<Fallback>)

  datatype AwaitSource = Poll(prop: string) | EventSource(code: string, thenPoll: Option<string>)

  datatype Await = Await(source: AwaitSource, until: string, onEach: seq<Step>)

  /** `onDecode`: the decode class is among the selected failure classes; there is no other class. */
  datatype Retry = Retry(steps: seq<Step>, fallback: Alternative, whenResponseCodes: seq<string>, onDecode: bool,
                         maxAttempts: nat, delayMs: nat)

  datatype Alternative = Never | Otherwise(steps: seq<Step>)

  datatype ChunkSize = LiteralSize(n: nat) | SlotSize(slot: string)

  datatype Loop =
    | ForEach(collection: string, bind: string, body: seq<Step>)
    | Chunk(total: string, size: ChunkSize, offsetBind: string, lengthBind: string, body: seq<Step>)

  datatype IfStep = IfStep(slot: string, equals: nat, thenSteps: seq<Step>, elseSteps: seq<Step>)

  datatype Role = Command | Event | LiveView

  datatype Step = Step(
    setProp: Option<string>, getProp: Option<string>, readEcho: Option<string>, sendOp: Option<string>,
    openChannel: Option<Role>, reopenSession: bool, closeSession: Option<bool>,
    value: Option<SetValue>, params: seq<Param>, captures: seq<Capture>, tolerant: bool, repeat: nat,
    awaitUntil: Option<Await>, retry: Option<Retry>, loop: Option<Loop>, ifStep: Option<IfStep>)

  datatype Ownership = SessionOwned | DaemonAttached

  /** Text rules the loader relies on: hexadecimal codes, blank names, predicates the executor can evaluate. */
  datatype Texts = Texts(hex: string -> Option<nat>, blank: string -> bool, expressible: string -> bool)

  const OK_RESPONSE: nat := 0x2001

  function One(b: bool): nat { if b then 1 else 0 }

  /** Exactly one action. */
  predicate WellFormed(s: Step) {
    One(s.setProp.Some?) + One(s.getProp.Some?) + One(s.readEcho.Some?) + One(s.sendOp.Some?) + One(s.openChannel.Some?)
    + One(s.reopenSession) + One(s.closeSession.Some?) + One(s.awaitUntil.Some?) + One(s.retry.Some?)
      + One(s.loop.Some?)
    + One(s.ifStep.Some?) == 1
  }

  // ----- captures -----

  predicate Polls(source: AwaitSource) { source.Poll? || source.thenPoll.Some? }

  predicate AwaitCapturesOk(s: Step) {
    s.awaitUntil.Some? && s.captures != [] ==>
      Polls(s.awaitUntil.value.source) && forall i :: 0 <= i < |s.captures| ==> s.captures[i].source.PropValue?
  }

  predicate CodesOk(texts: Texts, codes: seq<string>) {
    && (forall i :: 0 <= i < |codes| ==> texts.hex(codes[i]).Some? && texts.hex(codes[i]) != Some(OK_RESPONSE))
    && (forall i, j :: 0 <= i < j < |codes| ==> texts.hex(codes[i]) != texts.hex(codes[j]))
  }

  predicate FallbackOk(texts: Texts, s: Step, c: Capture) {
    c.fallback.Some? ==>
      && s.getProp.Some? && c.source.PropValue? && !s.tolerant
      && c.fallback.value.whenResponseCodes != [] && CodesOk(texts, c.fallback.value.whenResponseCodes)
  }

  predicate TransactionOk(texts: Texts, ownership: Option<Ownership>, s: Step, c: Capture) {
    c.source.TransactionId? ==>
      ownership != Some(DaemonAttached) && s.sendOp.Some? && s.repeat == 1 && !s.tolerant && !texts.blank(c.bind)
  }

  predicate ArrayOk(texts: Texts, s: Step, c: Capture) {
    c.source.PtpU32Array? ==> (s.getProp.Some? || s.sendOp.Some?) && !s.tolerant && !texts.blank(c.bind)
  }

  predicate CaptureOk(texts: Texts, ownership: Option<Ownership>, s: Step, c: Capture) {
    FallbackOk(texts, s, c) && TransactionOk(texts, ownership, s, c) && ArrayOk(texts, s, c)
  }

  predicate CapturesOk(texts: Texts, ownership: Option<Ownership>, s: Step) {
    && (forall i :: 0 <= i < |s.captures| ==> CaptureOk(texts, ownership, s, s.captures[i]))
    && (forall i, j :: 0 <= i < j < |s.captures| && s.captures[i].source.PtpU32Array?
          && s.captures[j].source.PtpU32Array?
          ==> s.captures[i].bind != s.captures[j].bind)
  }

  function ArrayBinds(captures: seq<Capture>): set<string> {
    set i | 0 <= i < |captures| && captures[i].source.PtpU32Array? :: captures[i].bind
  }

  // ----- loops and retries -----

  function FallbackSteps(r: Retry): seq<Step> { if r.fallback.Otherwise? then r.fallback.steps else [] }

  predicate ContainsLoop(steps: seq<Step>) {
    exists i :: 0 <= i < |steps| && LoopIn(steps[i])
  }

  predicate LoopIn(s: Step) {
    || s.loop.Some?
    || (s.retry.Some? && (ContainsLoop(s.retry.value.steps)
                          || (s.retry.value.fallback.Otherwise? && ContainsLoop(s.retry.value.fallback.steps))))
    || (s.awaitUntil.Some? && ContainsLoop(s.awaitUntil.value.onEach))
    || (s.ifStep.Some? && (ContainsLoop(s.ifStep.value.thenSteps) || ContainsLoop(s.ifStep.value.elseSteps)))
  }

  predicate RetryShape(texts: Texts, r: Retry) {
    && r.steps != [] && r.fallback != Otherwise([]) && (r.whenResponseCodes != [] || r.onDecode) && r.maxAttempts != 0
    && !ContainsLoop(r.steps) && !ContainsLoop(FallbackSteps(r))
    && (forall i :: 0 <= i < |r.whenResponseCodes| ==> texts.hex(r.whenResponseCodes[i]).Some?)
  }

  // ----- definite binding -----

  /** The collections definitely bound after the steps, if the steps are accepted. */
  function CheckSteps(texts: Texts, ownership: Option<Ownership>, steps: seq<Step>,
                      bound: set<string>): Option<set<string>> {
    if steps == [] then Some(bound)
    else
      match CheckStep(texts, ownership, steps[0], bound)
      case None => None
      case Some(after) => CheckSteps(texts, ownership, steps[1..], after)
  }

  function CheckStep(texts: Texts, ownership: Option<Ownership>, s: Step, bound: set<string>): Option<set<string>> {
    if !WellFormed(s) || !AwaitCapturesOk(s) || !CapturesOk(texts, ownership, s) then None
    else
      var captured := bound + ArrayBinds(s.captures);
      if s.retry.Some? then CheckRetry(texts, ownership, s.retry.value, s.tolerant, captured)
      else if s.awaitUntil.Some? then
        if CheckSteps(texts, ownership, s.awaitUntil.value.onEach, captured).None? then None else Some(captured)
      else if s.loop.Some? then
        if s.loop.value.ForEach? && s.loop.value.collection !in captured then None
        else if CheckSteps(texts, ownership, s.loop.value.body, captured).None? then None
        else Some(captured)
      else if s.ifStep.Some? then
        var left := CheckSteps(texts, ownership, s.ifStep.value.thenSteps, captured);
        var right := CheckSteps(texts, ownership, s.ifStep.value.elseSteps, captured);
        if left.None? || right.None? then None else Some(left.value * right.value)
      else Some(captured)
  }

  function CheckRetry(texts: Texts, ownership: Option<Ownership>, r: Retry, tolerant: bool,
                      bound: set<string>): Option<set<string>> {
    if !RetryShape(texts, r) then None
    else
      var tried := CheckSteps(texts, ownership, r.steps, bound);
      var fell := if r.fallback.Otherwise? then CheckSteps(texts, ownership, r.fallback.steps, bound) else tried;
      if tried.None? || fell.None? then None
      else
        var after := if r.fallback.Otherwise? then tried.value * fell.value else tried.value;
        if tolerant && after != bound then None else Some(after)
  }

  // ----- every depth -----

  /** `s` is one of the steps or occurs inside one of them, at any depth. */
  ghost predicate Occurs(s: Step, steps: seq<Step>) {
    exists i :: 0 <= i < |steps| && (steps[i] == s || OccursBelow(s, steps[i]))
  }

  ghost predicate OccursBelow(s: Step, t: Step) {
    || (t.retry.Some? && (Occurs(s, t.retry.value.steps)
                          || (t.retry.value.fallback.Otherwise? && Occurs(s, t.retry.value.fallback.steps))))
    || (t.awaitUntil.Some? && Occurs(s, t.awaitUntil.value.onEach))
    || (t.loop.Some? && Occurs(s, t.loop.value.body))
    || (t.ifStep.Some? && (Occurs(s, t.ifStep.value.thenSteps) || Occurs(s, t.ifStep.value.elseSteps)))
  }
}
