// The step executor as a function of the program and of everything the outside
// world answers. Every wire exchange, sleep or channel operation takes one turn
// from a finite script; a turn may be any reply or any failure, and when the
// script ends the pending deadline expires.
module Executor {
  import opened Options
  import opened Steps

  const MAX_FOREACH_ITERS: nat := 100_000
  const MAX_CHUNK_ITERS: nat := 4096

  // ----- what the executor is given -----

  datatype EntryFallback = EntryFallback(value: nat, whenResponseCodes: seq<nat>)

  datatype EntryCapture = EntryCapture(bind: string, source: CaptureSource, fallback: Option<EntryFallback>)

  datatype EntrySource = EntryPoll(prop: nat) | EntryEvent(code: nat, thenPoll: Option<nat>)

  datatype EntryLoop =
    | EntryForEach(collection: string, bind: string, body: seq<EntryStep>)
    | EntryChunk(total: string, size: ChunkSize, offsetBind: string, lengthBind: string, body: seq<EntryStep>)

  datatype EntryStep =
    | SetPropStep(prop: nat, value: int, tolerant: bool)
    | SetPropRuntimeStep(prop: nat, slot: string, skipIfMissing: bool, tolerant: bool)
    | GetPropStep(prop: nat, captures: seq<EntryCapture>, tolerant: bool)
    | ReadEchoStep(prop: nat, captures: seq<EntryCapture>, tolerant: bool)
    | SendOpStep(op: nat, params: seq<Param>, captures: seq<EntryCapture>, repeat: nat, tolerant: bool)
    | OpenChannelStep(role: Role, tolerant: bool)
    | ReopenSessionStep(tolerant: bool)
    | CloseSessionStep(transportClose: bool, tolerant: bool)
    | AwaitUntilStep(source: EntrySource, until: string, onEach: seq<EntryStep>, captures: seq<EntryCapture>,
                     tolerant: bool)
    | RetryStep(steps: seq<EntryStep>, fallback: seq<EntryStep>, whenResponseCodes: seq<nat>, onDecode: bool,
                maxAttempts: nat, delayMs: nat, tolerant: bool)
    | LoopStep(kind: EntryLoop, tolerant: bool)
    | IfOnlyStep(slot: string, equals: nat, thenSteps: seq<EntryStep>, tolerant: bool)
    | IfElseStep(slot: string, equals: nat, thenSteps: seq<EntryStep>, elseSteps: seq<EntryStep>, tolerant: bool)

  // ----- from manifest steps to executor steps -----

  function AllHex(texts: Texts, codes: seq<string>): Option<seq<nat>> {
    if codes == [] then Some([])
    else
      var first, rest := texts.hex(codes[0]), AllHex(texts, codes[1..]);
      if first.None? || rest.None? then None else Some([first.value] + rest.value)
  }

  /** Nothing stands for the panic on a fallback code that does not parse. */
  function MapCapture(texts: Texts, c: Capture): Option<EntryCapture> {
    if c.fallback.None? then Some(EntryCapture(c.bind, c.source, None))
    else
      var codes := AllHex(texts, c.fallback.value.whenResponseCodes);
      if codes.None? then None
      else Some(EntryCapture(c.bind, c.source, Some(EntryFallback(c.fallback.value.value, codes.value))))
  }

  function MapCaptures(texts: Texts, cs: seq<Capture>): Option<seq<EntryCapture>> {
    if cs == [] then Some([])
    else
      var first, rest := MapCapture(texts, cs[0]), MapCaptures(texts, cs[1..]);
      if first.None? || rest.None? then None else Some([first.value] + rest.value)
  }

  function MapSource(texts: Texts, s: AwaitSource): Option<EntrySource> {
    match s
    case Poll(prop) => if texts.hex(prop).None? then None else Some(EntryPoll(texts.hex(prop).value))
    case EventSource(code, thenPoll) =>
      if texts.hex(code).None? then None
      else if thenPoll.None? then Some(EntryEvent(texts.hex(code).value, None))
      else if texts.hex(thenPoll.value).None? then None
      else Some(EntryEvent(texts.hex(code).value, texts.hex(thenPoll.value)))
  }

  function MapSteps(texts: Texts, steps: seq<Step>): Option<seq<EntryStep>>
    decreases steps, 0
  {
    if steps == [] then Some([])
    else
      var first, rest := MapStep(texts, steps[0]), MapSteps(texts, steps[1..]);
      if first.None? || rest.None? then None else Some([first.value] + rest.value)
  }

  /** The first action field that is set decides. */
  function MapStep(texts: Texts, s: Step): Option<EntryStep>
    decreases s, 1
  {
    if s.setProp.Some? then
      var prop := texts.hex(s.setProp.value);
      if prop.None? then None
      else
        match s.value
        case None => Some(SetPropStep(prop.value, 0, s.tolerant))
        case Some(Literal(i)) => Some(SetPropStep(prop.value, i, s.tolerant))
        case Some(Runtime(slot, skip)) => Some(SetPropRuntimeStep(prop.value, slot, skip, s.tolerant))
    else if s.getProp.Some? then
      var prop, captures := texts.hex(s.getProp.value), MapCaptures(texts, s.captures);
      if prop.None? || captures.None? then None else Some(GetPropStep(prop.value, captures.value, s.tolerant))
    else if s.readEcho.Some? then
      var prop, captures := texts.hex(s.readEcho.value), MapCaptures(texts, s.captures);
      if prop.None? || captures.None? then None else Some(ReadEchoStep(prop.value, captures.value, s.tolerant))
    else if s.sendOp.Some? then
      var op, captures := texts.hex(s.sendOp.value), MapCaptures(texts, s.captures);
      if op.None? || captures.None? then None
      else Some(SendOpStep(op.value, s.params, captures.value, s.repeat, s.tolerant))
    else if s.openChannel.Some? then Some(OpenChannelStep(s.openChannel.value, s.tolerant))
    else if s.reopenSession then Some(ReopenSessionStep(s.tolerant))
    else if s.closeSession.Some? then Some(CloseSessionStep(s.closeSession.value, s.tolerant))
    else MapControl(texts, s)
  }

  function MapControl(texts: Texts, s: Step): Option<EntryStep>
    decreases s, 0
  {
    if s.awaitUntil.Some? then
      var a := s.awaitUntil.value;
      var source, onEach, captures := MapSource(texts, a.source), MapSteps(texts, a.onEach),
        MapCaptures(texts, s.captures);
      if source.None? || !texts.expressible(a.until) || onEach.None? || captures.None? then None
      else Some(AwaitUntilStep(source.value, a.until, onEach.value, captures.value, s.tolerant))
    else if s.retry.Some? then
      var r := s.retry.value;
      var steps, codes := MapSteps(texts, r.steps), AllHex(texts, r.whenResponseCodes);
      var fallback := if r.fallback.Otherwise? then MapSteps(texts, r.fallback.steps) else Some([]);
      if steps.None? || fallback.None? || codes.None? then None
      else Some(RetryStep(steps.value, fallback.value, codes.value, r.onDecode, r.maxAttempts, r.delayMs, s.tolerant))
    else if s.loop.Some? then
      match s.loop.value
      case ForEach(collection, bind, body) =>
        var mapped := MapSteps(texts, body);
        if mapped.None? then None else Some(LoopStep(EntryForEach(collection, bind, mapped.value), s.tolerant))
      case Chunk(total, size, offsetBind, lengthBind, body) =>
        var mapped := MapSteps(texts, body);
        if mapped.None? then None
        else Some(LoopStep(EntryChunk(total, size, offsetBind, lengthBind, mapped.value), s.tolerant))
    else if s.ifStep.Some? then
      var i := s.ifStep.value;
      var left, right := MapSteps(texts, i.thenSteps), MapSteps(texts, i.elseSteps);
      if left.None? || right.None? then None
      else if i.elseSteps == [] then Some(IfOnlyStep(i.slot, i.equals, left.value, s.tolerant))
      else Some(IfElseStep(i.slot, i.equals, left.value, right.value, s.tolerant))
    else None
  }

  // ----- the state of a run -----

  datatype Value = Number(n: nat) | Text(text: string)

  datatype IoFault = DecodeFault | DeadlineFault | TransportFault | OtherFault

  /** `Unbound` is the failure of a loop over a collection nothing has bound. */
  datatype Fault = Response(code: nat) | Io(fault: IoFault) | Unbound

  datatype Turn = Reply(code: nat, payload: seq<nat>, transactionId: nat) | Broken(fault: IoFault)

  datatype Machine = Machine(bindings: map<string, Value>, collections: map<string, seq<nat>>, observed: map<nat, int>,
                             script: seq<Turn>)

  datatype Outcome = Done(m: Machine) | Failed(m: Machine, fault: Fault)

  datatype Exchange =
    | Got(m: Machine, code: nat, payload: seq<nat>, transactionId: nat)
    | Lost(m: Machine, fault: IoFault)

  /** What a property payload reads as, and what has been observed once it was read. */
  datatype Reading = Reading(value: Option<Value>, observed: map<nat, int>)

  /** What the store and the codecs decide, and the parameters of this run. */
  datatype Device = Device(
    runtime: map<string, Value>, bestEffort: bool,
    encodesLiteral: (nat, int) -> bool, encodes: (nat, Value) -> bool,
    read: (nat, bool, seq<nat>, map<nat, int>) -> Result<Reading, IoFault>,
    observe: (nat, seq<nat>, map<nat, int>) -> Result<map<nat, int>, IoFault>,
    holds: (string, map<nat, int>) -> bool,
    scalar: (CaptureSource, nat, seq<nat>) -> Result<nat, IoFault>,
    resolves: (Param, map<string, Value>) -> bool,
    framed: bool, closable: bool)

  /** How far a run can have got from a state: turns are used up, collections only added. */
  ghost predicate Follows(after: Machine, before: Machine) {
    |after.script| <= |before.script| && before.collections.Keys <= after.collections.Keys
  }

  function Issue(m: Machine): (e: Exchange)
    ensures e.Got? ==> |e.m.script| < |m.script|
    ensures Follows(e.m, m) && e.m.collections == m.collections
  {
    if m.script == [] then Lost(m, DeadlineFault)
    else
      var rest := m.(script := m.script[1..]);
      match m.script[0]
      case Reply(code, payload, transactionId) => Got(rest, code, payload, transactionId)
      case Broken(fault) => Lost(rest, fault)
  }

  // ----- captures -----

  function Le32(b: seq<nat>, at: nat): nat
    requires at + 4 <= |b|
  {
    b[at] + 0x100 * b[at + 1] + 0x1_0000 * b[at + 2] + 0x100_0000 * b[at + 3]
  }

  function DecodeU32Array(payload: seq<nat>): Option<seq<nat>> {
    if |payload| < 4 then None
    else
      var count := Le32(payload, 0);
      if count > MAX_FOREACH_ITERS || |payload| != 4 + 4 * count then None
      else Some(seq(count, i requires 0 <= i < count => Le32(payload, 4 + 4 * i)))
  }

  predicate IsArray(c: EntryCapture) { c.source.PtpU32Array? }

  function EntryArrayBinds(captures: seq<EntryCapture>): set<string> {
    set i | 0 <= i < |captures| && IsArray(captures[i]) :: captures[i].bind
  }

  function BindArrays(captures: seq<EntryCapture>, values: seq<nat>, m: Machine): (o: Outcome)
    ensures Follows(o.m, m) && o != Failed(o.m, Unbound)
  {
    if captures == [] then Done(m)
    else if !IsArray(captures[0]) then Failed(m, Io(OtherFault))
    else BindArrays(captures[1..], values, m.(collections := m.collections[captures[0].bind := values]))
  }

  function BindScalars(captures: seq<EntryCapture>, value: Value, m: Machine): (o: Outcome)
    ensures Follows(o.m, m) && o != Failed(o.m, Unbound)
  {
    if captures == [] then Done(m)
    else if !captures[0].source.PropValue? then Failed(m, Io(OtherFault))
    else BindScalars(captures[1..], value, m.(bindings := m.bindings[captures[0].bind := value]))
  }

  function CaptureProperty(dev: Device, prop: nat, captures: seq<EntryCapture>, payload: seq<nat>,
                           m: Machine): (o: Outcome)
    ensures Follows(o.m, m) && o != Failed(o.m, Unbound)
  {
    if exists i :: 0 <= i < |captures| && IsArray(captures[i]) then
      match DecodeU32Array(payload)
      case None => Failed(m, Io(DecodeFault))
      case Some(values) => BindArrays(captures, values, m)
    else
      match dev.read(prop, captures != [], payload, m.observed)
      case Err(fault) => Failed(m, Io(fault))
      case Ok(Reading(value, observed)) =>
        var seen := m.(observed := observed);
        if value.Some? then BindScalars(captures, value.value, seen)
        else if captures == [] then Done(seen)
        else Failed(seen, Io(OtherFault))
  }

  /** Every capture has a fallback that selects the response, and there is one at all. */
  predicate FallbackSelected(captures: seq<EntryCapture>, code: nat) {
    captures != [] && forall i :: 0 <= i < |captures| ==>
                        captures[i].fallback.Some? && code in captures[i].fallback.value.whenResponseCodes
  }

  function BindFallbacks(captures: seq<EntryCapture>, m: Machine): (n: Machine)
    ensures n.collections == m.collections && n.script == m.script
  {
    if captures == [] then m
    else if captures[0].fallback.None? then BindFallbacks(captures[1..], m)
    else BindFallbacks(captures[1..],
                       m.(bindings := m.bindings[captures[0].bind := Number(captures[0].fallback.value.value)]))
  }

  /** Arrays are stored at once; scalars only when every capture of the reply decoded. */
  function ApplyCaptures(dev: Device, op: nat, captures: seq<EntryCapture>, reply: Exchange,
                         scalars: map<string, Value>, m: Machine): (o: Outcome)
    requires reply.Got?
    ensures Follows(o.m, m) && o != Failed(o.m, Unbound)
  {
    if captures == [] then Done(m.(bindings := m.bindings + scalars))
    else
      var c, rest := captures[0], captures[1..];
      match c.source
      case PtpU32Array =>
        (match DecodeU32Array(reply.payload)
         case None => Failed(m, Io(DecodeFault))
         case Some(values) =>
           ApplyCaptures(dev, op, rest, reply, scalars, m.(collections := m.collections[c.bind := values])))
      case PropValue => Failed(m, Io(OtherFault))
      case TransactionId => ApplyCaptures(dev, op, rest, reply, scalars[c.bind := Number(reply.transactionId)], m)
      case _ =>
        (match dev.scalar(c.source, op, reply.payload)
         case Err(fault) => Failed(m, Io(fault))
         case Ok(n) => ApplyCaptures(dev, op, rest, reply, scalars[c.bind := Number(n)], m))
  }

  // ----- wire steps -----

  function RunSet(m: Machine): (o: Outcome)
    ensures Follows(o.m, m) && o != Failed(o.m, Unbound)
  {
    match Issue(m)
    case Lost(n, fault) => Failed(n, Io(fault))
    case Got(n, code, _, _) => if code == OK_RESPONSE then Done(n) else Failed(n, Response(code))
  }

  function RunGet(dev: Device, prop: nat, captures: seq<EntryCapture>, m: Machine): (o: Outcome)
    ensures Follows(o.m, m) && o != Failed(o.m, Unbound)
  {
    match Issue(m)
    case Lost(n, fault) => Failed(n, Io(fault))
    case Got(n, code, payload, _) =>
      if code == OK_RESPONSE then CaptureProperty(dev, prop, captures, payload, n)
      else if FallbackSelected(captures, code) then Done(BindFallbacks(captures, n))
      else Failed(n, Response(code))
  }

  function RunEcho(dev: Device, prop: nat, captures: seq<EntryCapture>, m: Machine): (o: Outcome)
    ensures Follows(o.m, m) && o != Failed(o.m, Unbound)
  {
    match Issue(m)
    case Lost(n, fault) => Failed(n, Io(fault))
    case Got(n, code, payload, _) =>
      if code != OK_RESPONSE then Failed(n, Response(code))
      else
        match CaptureProperty(dev, prop, captures, payload, n)
        case Failed(k, fault) => Failed(k, fault)
        case Done(k) => RunSet(k)
  }

  function RunSend(dev: Device, op: nat, captures: seq<EntryCapture>, tolerant: bool, times: nat,
                   m: Machine): (o: Outcome)
    ensures Follows(o.m, m) && o != Failed(o.m, Unbound)
    decreases times
  {
    if times == 0 then Done(m)
    else
      var reply := Issue(m);
      match reply
      case Lost(n, fault) => Failed(n, Io(fault))
      case Got(n, code, _, _) =>
        if code == OK_RESPONSE then
          match ApplyCaptures(dev, op, captures, reply, map[], n)
          case Failed(k, fault) => Failed(k, fault)
          case Done(k) => RunSend(dev, op, captures, tolerant, times - 1, k)
        else if tolerant then RunSend(dev, op, captures, tolerant, times - 1, n)
        else Failed(n, Response(code))
  }

  /** A sleep or a channel operation: only whether it works matters. */
  function Tick(m: Machine): (o: Outcome)
    ensures Follows(o.m, m) && o != Failed(o.m, Unbound)
  {
    match Issue(m)
    case Lost(n, fault) => Failed(n, Io(fault))
    case Got(n, _, _, _) => Done(n)
  }

  function RunClose(dev: Device, transportClose: bool, tolerant: bool, m: Machine): (o: Outcome)
    ensures Follows(o.m, m) && o != Failed(o.m, Unbound)
  {
    match Issue(m)
    case Lost(n, fault) => Failed(n, Io(fault))
    case Got(n, code, _, _) =>
      if code != OK_RESPONSE && !tolerant then Failed(n, Response(code))
      else if transportClose && !dev.closable then Failed(n, Io(OtherFault))
      else Tick(n)
  }

  function RunReopen(dev: Device, tolerant: bool, m: Machine): (o: Outcome)
    ensures Follows(o.m, m) && o != Failed(o.m, Unbound)
  {
    match RunClose(dev, true, tolerant, m)
    case Failed(n, fault) => Failed(n, fault)
    case Done(n) =>
      match Issue(n)
      case Lost(k, fault) => Failed(k, Io(fault))
      case Got(k, code, _, _) => if code != OK_RESPONSE && !tolerant then Failed(k, Response(code)) else Done(k)
  }

  function NumberAt(bindings: map<string, Value>, slot: string): Option<nat> {
    if slot in bindings && bindings[slot].Number? then Some(bindings[slot].n) else None
  }

  function Restore(bindings: map<string, Value>, slot: string, previous: map<string, Value>): map<string, Value> {
    if slot in previous then bindings[slot := previous[slot]] else bindings - {slot}
  }

  predicate Resolves(dev: Device, params: seq<Param>, m: Machine) {
    forall i :: 0 <= i < |params| ==> dev.resolves(params[i], m.bindings)
  }

  // ----- control flow -----

  predicate Tolerant(e: EntryStep) { !e.IfOnlyStep? && !e.IfElseStep? && e.tolerant }

  predicate Selects(e: EntryStep, fault: Fault)
    requires e.RetryStep?
  {
    (fault.Response? && fault.code in e.whenResponseCodes) || (fault == Io(DecodeFault) && e.onDecode)
  }

  function Max(a: nat, b: nat): nat { if a < b then b else a }
  function Min(a: nat, b: nat): nat { if a < b then a else b }

  function RunSteps(dev: Device, steps: seq<EntryStep>, m: Machine): (o: Outcome)
    ensures Follows(o.m, m)
    decreases steps, 0, 0
  {
    if steps == [] then Done(m)
    else
      match RunStep(dev, steps[0], m)
      case Failed(n, fault) => Failed(n, fault)
      case Done(n) => RunSteps(dev, steps[1..], n)
  }

  /** A tolerant step absorbs a refusal by the camera and nothing else. */
  function RunStep(dev: Device, e: EntryStep, m: Machine): (o: Outcome)
    ensures Follows(o.m, m)
    decreases e, 2, 0
  {
    match RunOnce(dev, e, m)
    case Done(n) => Done(n)
    case Failed(n, fault) => if Tolerant(e) && fault.Response? then Done(n) else Failed(n, fault)
  }

  function RunOnce(dev: Device, e: EntryStep, m: Machine): (o: Outcome)
    ensures Follows(o.m, m)
    decreases e, 1, 0
  {
    match e
    case SetPropStep(prop, value, _) => if dev.encodesLiteral(prop, value) then RunSet(m) else Failed(m, Io(OtherFault))
    case SetPropRuntimeStep(prop, slot, skip, _) =>
      if slot !in dev.runtime then (if skip then Done(m) else Failed(m, Io(OtherFault)))
      else if dev.encodes(prop, dev.runtime[slot]) then RunSet(m) else Failed(m, Io(OtherFault))
    case GetPropStep(prop, captures, _) => RunGet(dev, prop, captures, m)
    case ReadEchoStep(prop, captures, _) => RunEcho(dev, prop, captures, m)
    case SendOpStep(op, params, captures, repeat, tolerant) =>
      if Resolves(dev, params, m) then RunSend(dev, op, captures, tolerant, Max(repeat, 1), m)
      else Failed(m, Io(OtherFault))
    case OpenChannelStep(_, _) => if dev.framed then Tick(m) else Failed(m, Io(OtherFault))
    case ReopenSessionStep(tolerant) => if dev.framed then RunReopen(dev, tolerant, m) else Failed(m, Io(OtherFault))
    case CloseSessionStep(transportClose, tolerant) =>
      if dev.framed then RunClose(dev, transportClose, tolerant, m) else Failed(m, Io(OtherFault))
    case AwaitUntilStep(_, _, _, _, _) => RunAwait(dev, e, m)
    case RetryStep(_, _, _, _, maxAttempts, _, _) => RunRetry(dev, e, Max(maxAttempts, 1), m)
    case LoopStep(kind, _) => RunLoop(dev, e, m)
    case IfOnlyStep(slot, equals, thenSteps, _) =>
      (match NumberAt(m.bindings, slot)
       case None => Failed(m, Io(OtherFault))
       case Some(n) => if n == equals then RunSteps(dev, thenSteps, m) else Done(m))
    case IfElseStep(slot, equals, thenSteps, elseSteps, _) =>
      (match NumberAt(m.bindings, slot)
       case None => Failed(m, Io(OtherFault))
       case Some(n) => if n == equals then RunSteps(dev, thenSteps, m) else RunSteps(dev, elseSteps, m))
  }

  /** `left` attempts remain, the one about to start included. */
  function RunRetry(dev: Device, e: EntryStep, left: nat, m: Machine): (o: Outcome)
    requires e.RetryStep? && left > 0
    ensures Follows(o.m, m)
    decreases e, 0, left
  {
    match RunSteps(dev, e.steps, m)
    case Done(n) => Done(n)
    case Failed(n, fault) =>
      if !Selects(e, fault) then Failed(n, fault)
      else if left > 1 then
        if e.delayMs == 0 then RunRetry(dev, e, left - 1, n)
        else
          match Tick(n)
          case Failed(k, late) => Failed(k, late)
          case Done(k) => RunRetry(dev, e, left - 1, k)
      else if e.fallback != [] then RunSteps(dev, e.fallback, n)
      else Failed(n, fault)
  }

  function RunLoop(dev: Device, e: EntryStep, m: Machine): (o: Outcome)
    requires e.LoopStep?
    ensures Follows(o.m, m)
    decreases e, 0, 0
  {
    match e.kind
    case EntryForEach(collection, bind, body) =>
      if collection !in m.collections then Failed(m, Unbound)
      else if |m.collections[collection]| > MAX_FOREACH_ITERS then Failed(m, Io(OtherFault))
      else RunEach(dev, body, bind, m.collections[collection], m)
    case EntryChunk(total, size, offsetBind, lengthBind, body) =>
      var whole := NumberAt(m.bindings, total);
      var window := if size.LiteralSize? then Some(size.n) else NumberAt(m.bindings, size.slot);
      if whole.None? || window.None? || window.value == 0 then Failed(m, Io(OtherFault))
      else RunChunks(dev, body, offsetBind, lengthBind, 0, whole.value, window.value, 0, m)
  }

  function RunEach(dev: Device, body: seq<EntryStep>, bind: string, values: seq<nat>, m: Machine): (o: Outcome)
    ensures Follows(o.m, m)
    decreases body, 1, |values|
  {
    if values == [] then Done(m)
    else
      match RunSteps(dev, body, m.(bindings := m.bindings[bind := Number(values[0])]))
      case Failed(n, fault) => Failed(n.(bindings := Restore(n.bindings, bind, m.bindings)), fault)
      case Done(n) => RunEach(dev, body, bind, values[1..], n.(bindings := Restore(n.bindings, bind, m.bindings)))
  }

  function RunChunks(dev: Device, body: seq<EntryStep>, offsetBind: string, lengthBind: string,
                     offset: nat, total: nat, window: nat, index: nat, m: Machine): (o: Outcome)
    requires window > 0
    ensures Follows(o.m, m)
    decreases body, 1, total - offset
  {
    if offset >= total then Done(m)
    else if index == MAX_CHUNK_ITERS then Failed(m, Io(OtherFault))
    else
      var length := Min(total - offset, window);
      var inner := m.bindings[offsetBind := Number(offset)];
      match RunSteps(dev, body, m.(bindings := inner[lengthBind := Number(length)]))
      case Failed(n, fault) =>
        Failed(n.(bindings := Restore(Restore(n.bindings, offsetBind, m.bindings), lengthBind, inner)), fault)
      case Done(n) =>
        RunChunks(dev, body, offsetBind, lengthBind, offset + length, total, window, index + 1,
                  n.(bindings := Restore(Restore(n.bindings, offsetBind, m.bindings), lengthBind, inner)))
  }

  function PollOf(source: EntrySource): Option<nat> { if source.EntryPoll? then Some(source.prop) else source.thenPoll }

  /** Wait for the event, if there is one to wait for; a best-effort connection may lose it. */
  function RunAwait(dev: Device, e: EntryStep, m: Machine): (o: Outcome)
    requires e.AwaitUntilStep?
    ensures Follows(o.m, m)
    decreases e, 0, |m.script| + 1
  {
    if e.source.EntryPoll? then RunPoll(dev, e, m)
    else
      match Tick(m)
      case Done(n) => RunPoll(dev, e, n)
      case Failed(n, fault) =>
        if !(dev.bestEffort && fault == Io(DeadlineFault)) then Failed(n, fault)
        else if e.source.thenPoll.None? then Failed(n, Io(OtherFault))
        else RunPoll(dev, e, n)
  }

  function RunPoll(dev: Device, e: EntryStep, m: Machine): (o: Outcome)
    requires e.AwaitUntilStep?
    ensures Follows(o.m, m)
    decreases e, 0, |m.script|
  {
    var poll := PollOf(e.source);
    if poll.None? then
      if !dev.holds(e.until, m.observed) || e.captures != [] then Failed(m, Io(OtherFault)) else Done(m)
    else
      match Issue(m)
      case Lost(n, fault) => Failed(n, Io(fault))
      case Got(n, code, payload, _) =>
        if code != OK_RESPONSE then Failed(n, Response(code))
        else
          match dev.observe(poll.value, payload, n.observed)
          case Err(fault) => Failed(n, Io(fault))
          case Ok(observed) =>
            var seen := n.(observed := observed);
            if dev.holds(e.until, observed) then CaptureProperty(dev, poll.value, e.captures, payload, seen)
            else
              match RunSteps(dev, e.onEach, seen)
              case Failed(k, fault) => Failed(k, fault)
              case Done(k) =>
                match Tick(k)
                case Failed(l, fault) => Failed(l, fault)
                case Done(l) => RunPoll(dev, e, l)
  }
}
