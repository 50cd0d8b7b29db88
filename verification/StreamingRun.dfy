// The streamed transaction as it runs: a link to the host, a guard that poisons
// the session unless it is disarmed, and the loops that fill buffers.
module StreamingRun {
  import opened Options
  import opened Streaming
  import opened StreamingTheorems

  /** The host's side: what it will still do, and how often it was told to drop the session. */
  class Link {
    var host: Host
    var invalidations: nat

    constructor (host: Host)
      ensures this.host == host && invalidations == 0
    {
      this.host, invalidations := host, 0;
    }

    method Exchange() returns (stop: Option<Stop>)
      modifies this`host
      ensures stop.None? ==> Ask(old(host)) == Went(true, host)
      ensures stop.Some? ==> Ask(old(host)) == Stopped(stop.value, host)
    {
      var phase := Ask(host);
      host := phase.host;
      stop := if phase.Went? then None else Some(phase.why);
    }

    method ReceiveBytes(most: nat) returns (stop: Option<Stop>, chunk: seq<Byte>)
      modifies this`host
      ensures stop.None? ==> Receive(old(host), most) == Went(chunk, host)
      ensures stop.Some? ==> Receive(old(host), most) == Stopped(stop.value, host)
    {
      var phase := Receive(host, most);
      host := phase.host;
      if phase.Went? { return None, phase.value; }
      return Some(phase.why), [];
    }

    method CallSink(call: SinkCall) returns (stop: Option<Stop>)
      modifies this`host
      ensures stop.None? ==> Tell(old(host), call) == Went(true, host)
      ensures stop.Some? ==> Tell(old(host), call) == Stopped(stop.value, host)
    {
      var phase := Tell(host, call);
      host := phase.host;
      stop := if phase.Went? then None else Some(phase.why);
    }

    method Invalidate()
      modifies this`invalidations
      ensures invalidations == old(invalidations) + 1
    {
      invalidations := invalidations + 1;
    }
  }

  /** Poisons the session when it goes out of scope armed. */
  class SessionGuard {
    const link: Link
    var armed: bool

    constructor (link: Link)
      ensures this.link == link && !armed
    {
      this.link, armed := link, false;
    }

    method Arm()
      modifies this
      ensures armed
    {
      armed := true;
    }

    method Disarm()
      modifies this
      ensures !armed
    {
      armed := false;
    }

    method Drop()
      modifies link`invalidations
      ensures link.invalidations == old(link.invalidations) + if armed then 1 else 0
    {
      if armed { link.Invalidate(); }
    }
  }

  method ReadBytes(link: Link, length: nat) returns (stop: Option<Stop>, bytes: seq<Byte>)
    modifies link`host
    ensures stop.None? ==> ReadExact(old(link.host), length, []) == Went(bytes, link.host)
    ensures stop.Some? ==> ReadExact(old(link.host), length, []) == Stopped(stop.value, link.host)
  {
    bytes := [];
    while |bytes| < length
      invariant |bytes| <= length
      invariant ReadExact(old(link.host), length, []) == ReadExact(link.host, length, bytes)
      decreases length - |bytes|
    {
      var remaining := length - |bytes|;
      var failed, chunk := link.ReceiveBytes(remaining);
      if failed.Some? { return failed, []; }
      if chunk == [] { return Some(Failed(TransportTrouble)), []; }
      if |chunk| > remaining { return Some(Failed(FramingTrouble)), []; }
      bytes := bytes + chunk;
    }
    return None, bytes;
  }

  method CopyPayload(link: Link, total: nat) returns (stop: Option<Stop>)
    modifies link`host
    ensures stop.None? ==> CopyBody(ExactReader(), old(link.host), total) == Went(true, link.host)
    ensures stop.Some? ==> CopyBody(ExactReader(), old(link.host), total) == Stopped(stop.value, link.host)
  {
    ghost var start := link.host;
    var remaining := total;
    while remaining > 0
      invariant CopyBody(ExactReader(), start, total) == CopyBody(ExactReader(), link.host, remaining)
      decreases remaining
    {
      ghost var before := link.host;
      var requested := Min(remaining, MAX_STREAM_CHUNK);
      var failed, chunk := ReadBytes(link, requested);
      assert ExactReader()(before, requested) == ReadExact(before, requested, []);
      if failed.Some? { return failed; }
      var refused := link.CallSink(Write(chunk));
      if refused.Some? { return refused; }
      remaining := remaining - requested;
    }
    return None;
  }

  /** Read the response that follows the payload. Disarms the guard if it decodes. */
  method ReadResponse(link: Link, guard: SessionGuard, transaction: nat, total: nat)
    returns (result: Option<Outcome>, why: Option<Stop>)
    requires guard.armed
    modifies link`host, guard
    ensures var e := FinalResponse(ExactReader(), old(link.host), transaction, total);
      result == e.result && why == e.why && link.host == e.host && guard.armed == Poisoned(e)
  {
    ghost var start := link.host;
    var stop, prefix := ReadBytes(link, 4);
    assert ExactReader()(start, 4) == ReadExact(start, 4, []);
    if stop.Some? { return None, stop; }
    if |prefix| != 4 || !ValidResponseLength(Le32(prefix, 0)) { return None, Some(Failed(FramingTrouble)); }
    ghost var next := link.host;
    var length := Le32(prefix, 0) - 4;
    var late, rest := ReadBytes(link, length);
    assert ExactReader()(next, length) == ReadExact(next, length, []);
    if late.Some? { return None, late; }
    result, why := Conclude(link, guard, prefix + rest, transaction, Some(total));
  }

  method Conclude(link: Link, guard: SessionGuard, frame: seq<Byte>, transaction: nat, completed: Option<nat>)
    returns (result: Option<Outcome>, why: Option<Stop>)
    requires guard.armed
    modifies guard
    ensures var e := Settle(link.host, frame, transaction, completed);
      result == e.result && why == e.why && link.host == e.host && guard.armed == Poisoned(e)
  {
    var response := DecodeResponse(frame, transaction);
    if response.None? { return None, Some(Failed(FramingTrouble)); }
    guard.Disarm();
    if response.value.code != OK_RESPONSE { return None, Some(Refused(response.value.code, response.value.params)); }
    if completed.None? { return None, Some(Failed(FramingTrouble)); }
    return Some(Outcome(completed.value, response.value.params)), None;
  }

  method ReadEarlyResponse(link: Link, guard: SessionGuard, header: seq<Byte>, transaction: nat)
    returns (result: Option<Outcome>, why: Option<Stop>)
    requires guard.armed && |header| == HEADER_BYTES
    modifies link`host, guard
    ensures var e := EarlyResponse(ExactReader(), old(link.host), header, transaction);
      result == e.result && why == e.why && link.host == e.host && guard.armed == Poisoned(e)
  {
    ghost var start := link.host;
    var length := Le32(header, 0);
    if !ValidResponseLength(length) { return None, Some(Failed(FramingTrouble)); }
    var more := length - HEADER_BYTES;
    var stop, rest := ReadBytes(link, more);
    assert ExactReader()(start, more) == ReadExact(start, more, []);
    if stop.Some? { return None, stop; }
    assert EarlyResponse(ExactReader(), start, header, transaction)
           == Settle(link.host, header + rest, transaction, None);
    result, why := Conclude(link, guard, header + rest, transaction, None);
  }

  method ReceiveData(link: Link, guard: SessionGuard, transaction: nat, total: nat)
    returns (result: Option<Outcome>, why: Option<Stop>)
    requires guard.armed
    modifies link`host, guard
    ensures var e := DataPhase(ExactReader(), old(link.host), transaction, total);
      result == e.result && why == e.why && link.host == e.host && guard.armed == Poisoned(e)
  {
    var refused := link.CallSink(Begin(total));
    if refused.Some? { return None, refused; }
    var stop := CopyPayload(link, total);
    if stop.Some? { return None, stop; }
    result, why := ReadResponse(link, guard, transaction, total);
  }

  /** The kind of container a header announces, if it is one this run can use. */
  datatype Kind = Unusable | Answer | Payload(total: nat)

  function KindOf(header: seq<Byte>, operation: nat, transaction: nat, expected: Option<nat>): Kind {
    if |header| != HEADER_BYTES || Le32(header, 0) < HEADER_BYTES then Unusable
    else if Le16(header, 4) == RESPONSE_TYPE then Answer
    else if Le16(header, 4) != DATA_TYPE || Le16(header, 6) != operation || Le32(header, 8) != transaction then Unusable
    else if expected.Some? && expected.value != Le32(header, 0) - HEADER_BYTES then Unusable
    else Payload(Le32(header, 0) - HEADER_BYTES)
  }

  lemma JudgedByKind(read: Reader, h: Host, header: seq<Byte>, operation: nat, transaction: nat, expected: Option<nat>)
    ensures var kind := KindOf(header, operation, transaction, expected);
      && (kind.Answer? ==> |header| == HEADER_BYTES)
      && Judge(read, h, header, operation, transaction, expected)
         == match kind
            case Unusable => Halt(Failed(FramingTrouble), h)
            case Answer => EarlyResponse(read, h, header, transaction)
            case Payload(total) => DataPhase(read, h, transaction, total)
  {}

  method ReceiveKind(link: Link, guard: SessionGuard, header: seq<Byte>, kind: Kind, transaction: nat)
    returns (result: Option<Outcome>, why: Option<Stop>)
    requires guard.armed && (kind.Answer? ==> |header| == HEADER_BYTES)
    modifies link`host, guard
    ensures var e := match kind
                     case Unusable => Halt(Failed(FramingTrouble), old(link.host))
                     case Answer => EarlyResponse(ExactReader(), old(link.host), header, transaction)
                     case Payload(total) => DataPhase(ExactReader(), old(link.host), transaction, total);
      result == e.result && why == e.why && link.host == e.host && guard.armed == Poisoned(e)
  {
    match kind
    case Unusable => return None, Some(Failed(FramingTrouble));
    case Answer => result, why := ReadEarlyResponse(link, guard, header, transaction);
    case Payload(total) => result, why := ReceiveData(link, guard, transaction, total);
  }

  method ReceiveReply(link: Link, guard: SessionGuard, operation: nat, transaction: nat, expected: Option<nat>)
    returns (result: Option<Outcome>, why: Option<Stop>)
    requires guard.armed
    modifies link`host, guard
    ensures var e := AfterSend(ExactReader(), old(link.host), operation, transaction, expected);
      result == e.result && why == e.why && link.host == e.host && guard.armed == Poisoned(e)
  {
    ghost var start := link.host;
    var stop, header := ReadBytes(link, HEADER_BYTES);
    assert ExactReader()(start, HEADER_BYTES) == ReadExact(start, HEADER_BYTES, []);
    if stop.Some? { return None, stop; }
    JudgedByKind(ExactReader(), link.host, header, operation, transaction, expected);
    result, why := ReceiveKind(link, guard, header, KindOf(header, operation, transaction, expected), transaction);
  }

  /**
   * The whole run: however it ends, the session is dropped at most once, and exactly if
   * a transaction id was given out and the stream does not stand behind the response.
   */
  method RunStreamingOperation(link: Link, operation: nat, transaction: nat, expected: Option<nat>)
    returns (result: Option<Outcome>, why: Option<Stop>)
    modifies link
    ensures var e := Transact(old(link.host), operation, transaction, expected);
      result == e.result && why == e.why && link.host == e.host
    ensures link.invalidations == old(link.invalidations)
              + if Ask(old(link.host)).Went? && !AtBoundary(old(link.host), link.host, operation, transaction)
                then 1 else 0
  {
    SessionReuseIff(link.host, operation, transaction, expected);
    var stop := link.Exchange();
    if stop.Some? { return None, stop; }
    var guard := new SessionGuard(link);
    guard.Arm();
    stop := link.Exchange();
    if stop.Some? {
      guard.Drop();
      return None, stop;
    }
    result, why := ReceiveReply(link, guard, operation, transaction, expected);
    guard.Drop();
  }
}
