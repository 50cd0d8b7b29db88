// One streamed transaction over a fragmented byte stream: send a command, copy a
// data container of any size to a sink in bounded chunks, read the response.
//
// The outside world is an adversary: `moves` says, for every exchange with the
// transport, how much arrives or how it fails, and `answers` does the same for
// the sink. Containers follow Annex D of PIMA 15740:2000.
module Streaming {
  import opened Options

  /** Nothing here depends on the range of a byte, only on how bytes make numbers. */
  type Byte = int

  const HEADER_BYTES: nat := 12
  const MAX_STREAM_CHUNK: nat := 1024 * 1024
  const MAX_RESPONSE_BYTES: nat := 12 + 5 * 4
  const DATA_TYPE: nat := 2
  const RESPONSE_TYPE: nat := 3
  const OK_RESPONSE: nat := 0x2001

  // ----- the outside world -----

  /**
   * What the transport does when asked: hand over `n` bytes (at least one, at most
   * what was asked for and is there), fail, let the deadline pass, hand over more
   * than was asked for, or never answer because the caller was cancelled.
   */
  datatype Move = Give(n: nat) | Refuse | Expire | Flood | Vanish

  datatype Answer = Take | Reject | Leave

  datatype SinkCall = Begin(total: nat) | Write(chunk: seq<Byte>)

  datatype Host = Host(bytes: seq<Byte>, moves: seq<Move>, calls: seq<SinkCall>, answers: seq<Answer>)

  datatype Trouble = TransportTrouble | DeadlineTrouble | FramingTrouble | SinkTrouble

  datatype Stop = Failed(trouble: Trouble) | Refused(code: int, params: seq<int>) | Cancelled

  datatype Phase<T> = Went(value: T, host: Host) | Stopped(why: Stop, host: Host)

  function Min(a: nat, b: nat): nat { if a < b then a else b }
  function Max(a: nat, b: nat): nat { if a < b then b else a }

  function NextMove(h: Host): Move { if h.moves == [] then Give(1) else h.moves[0] }

  function Moved(h: Host): Host { if h.moves == [] then h else h.(moves := h.moves[1..]) }

  /** An exchange that only works or does not: reserving an id, writing the command. */
  function Ask(h: Host): Phase<bool> {
    match NextMove(h)
    case Give(_) => Went(true, Moved(h))
    case Flood => Went(true, Moved(h))
    case Refuse => Stopped(Failed(TransportTrouble), Moved(h))
    case Expire => Stopped(Failed(DeadlineTrouble), Moved(h))
    case Vanish => Stopped(Cancelled, Moved(h))
  }

  /** Nothing arrives at the end of the stream. */
  function Receive(h: Host, most: nat): Phase<seq<Byte>> {
    match NextMove(h)
    case Give(n) =>
      var k := Min(Min(most, |h.bytes|), Max(n, 1));
      Went(h.bytes[..k], Moved(h).(bytes := h.bytes[k..]))
    case Flood => Went(seq(most + 1, i => 0), Moved(h))
    case Refuse => Stopped(Failed(TransportTrouble), Moved(h))
    case Expire => Stopped(Failed(DeadlineTrouble), Moved(h))
    case Vanish => Stopped(Cancelled, Moved(h))
  }

  function Tell(h: Host, call: SinkCall): Phase<bool> {
    var answer := if h.answers == [] then Take else h.answers[0];
    var next := h.(answers := if h.answers == [] then [] else h.answers[1..]);
    match answer
    case Take => Went(true, next.(calls := h.calls + [call]))
    case Reject => Stopped(Failed(SinkTrouble), next)
    case Leave => Stopped(Cancelled, next)
  }

  // ----- reading -----

  /** Read until `n` bytes are together. */
  function ReadExact(h: Host, n: nat, got: seq<Byte>): Phase<seq<Byte>>
    decreases n - |got|
  {
    if |got| >= n then Went(got, h)
    else
      var left := n - |got|;
      match Receive(h, left)
      case Stopped(why, next) => Stopped(why, next)
      case Went(chunk, next) =>
        if chunk == [] then Stopped(Failed(TransportTrouble), next)
        else if |chunk| > left then Stopped(Failed(FramingTrouble), next)
        else ReadExact(next, n, got + chunk)
  }

  function Le16(b: seq<Byte>, at: nat): int
    requires at + 2 <= |b|
  {
    b[at] + 0x100 * b[at + 1]
  }

  function Le32(b: seq<Byte>, at: nat): int
    requires at + 4 <= |b|
  {
    b[at] + 0x100 * b[at + 1] + 0x1_0000 * b[at + 2] + 0x100_0000 * b[at + 3]
  }

  predicate ValidResponseLength(n: int) {
    HEADER_BYTES <= n <= MAX_RESPONSE_BYTES && (n - HEADER_BYTES) % 4 == 0
  }

  datatype Response = Response(code: int, params: seq<int>)

  /** Both framings decode a response container the same way; anything else, or another transaction, is an error. */
  function DecodeResponse(frame: seq<Byte>, transaction: nat): Option<Response> {
    if |frame| < HEADER_BYTES || Le32(frame, 0) != |frame| || Le16(frame, 4) != RESPONSE_TYPE then None
    else if (|frame| - HEADER_BYTES) % 4 != 0 || Le32(frame, 8) != transaction then None
    else
      var count := (|frame| - HEADER_BYTES) / 4;
      Some(Response(Le16(frame, 6), seq(count, i requires 0 <= i < count => Le32(frame, HEADER_BYTES + 4 * i))))
  }

  /** How a run reads: so many bytes, or a reason to stop. */
  type Reader = (Host, nat) -> Phase<seq<Byte>>

  function ExactReader(): Reader { (h: Host, n: nat) => ReadExact(h, n, []) }

  /** Copy the payload to the sink, at most a chunk at a time. */
  function CopyBody(read: Reader, h: Host, remaining: nat): Phase<bool>
    decreases remaining
  {
    if remaining == 0 then Went(true, h)
    else
      var wanted := Min(remaining, MAX_STREAM_CHUNK);
      match read(h, wanted)
      case Stopped(why, next) => Stopped(why, next)
      case Went(chunk, next) =>
        match Tell(next, Write(chunk))
        case Stopped(why, told) => Stopped(why, told)
        case Went(_, told) => CopyBody(read, told, remaining - wanted)
  }

  // ----- the transaction -----

  /** How a run ended; `settled` once a response for this transaction was decoded. */
  datatype Ending = Ending(result: Option<Outcome>, why: Option<Stop>, host: Host, sent: bool, settled: bool)

  datatype Outcome = Outcome(total: nat, params: seq<int>)

  function Halt(why: Stop, h: Host): Ending { Ending(None, Some(why), h, true, false) }

  /** Decode a response read in full and judge its code. */
  function Settle(h: Host, frame: seq<Byte>, transaction: nat, completed: Option<nat>): Ending {
    match DecodeResponse(frame, transaction)
    case None => Halt(Failed(FramingTrouble), h)
    case Some(response) =>
      if response.code != OK_RESPONSE then Ending(None, Some(Refused(response.code, response.params)), h, true, true)
      else if completed.None? then Ending(None, Some(Failed(FramingTrouble)), h, true, true)
      else Ending(Some(Outcome(completed.value, response.params)), None, h, true, true)
  }

  function EarlyResponse(read: Reader, h: Host, header: seq<Byte>, transaction: nat): Ending
    requires |header| == HEADER_BYTES
  {
    var length := Le32(header, 0);
    if !ValidResponseLength(length) then Halt(Failed(FramingTrouble), h)
    else
      match read(h, length - HEADER_BYTES)
      case Stopped(why, next) => Halt(why, next)
      case Went(rest, next) => Settle(next, header + rest, transaction, None)
  }

  function FinalResponse(read: Reader, h: Host, transaction: nat, total: nat): Ending {
    match read(h, 4)
    case Stopped(why, next) => Halt(why, next)
    case Went(prefix, next) =>
      if |prefix| != 4 || !ValidResponseLength(Le32(prefix, 0)) then Halt(Failed(FramingTrouble), next)
      else
        match read(next, Le32(prefix, 0) - 4)
        case Stopped(why, last) => Halt(why, last)
        case Went(rest, last) => Settle(last, prefix + rest, transaction, Some(total))
  }

  function DataPhase(read: Reader, h: Host, transaction: nat, total: nat): Ending {
    match Tell(h, Begin(total))
    case Stopped(why, next) => Halt(why, next)
    case Went(_, next) =>
      match CopyBody(read, next, total)
      case Stopped(why, last) => Halt(why, last)
      case Went(_, last) => FinalResponse(read, last, transaction, total)
  }

  /** What the first header leads to. */
  function Judge(read: Reader, h: Host, header: seq<Byte>, operation: nat, transaction: nat,
                 expected: Option<nat>): Ending {
    if |header| != HEADER_BYTES || Le32(header, 0) < HEADER_BYTES then Halt(Failed(FramingTrouble), h)
    else if Le16(header, 4) == RESPONSE_TYPE then EarlyResponse(read, h, header, transaction)
    else if Le16(header, 4) != DATA_TYPE || Le16(header, 6) != operation || Le32(header, 8) != transaction
    then Halt(Failed(FramingTrouble), h)
    else if expected.Some? && expected.value != Le32(header, 0) - HEADER_BYTES then Halt(Failed(FramingTrouble), h)
    else DataPhase(read, h, transaction, Le32(header, 0) - HEADER_BYTES)
  }

  function AfterSend(read: Reader, h: Host, operation: nat, transaction: nat, expected: Option<nat>): Ending {
    match read(h, HEADER_BYTES)
    case Stopped(why, next) => Halt(why, next)
    case Went(header, next) => Judge(read, next, header, operation, transaction, expected)
  }

  /** The whole run. Before the command is written the session cannot be harmed. */
  function Transact(h: Host, operation: nat, transaction: nat, expected: Option<nat>): Ending {
    match Ask(h)
    case Stopped(why, next) => Ending(None, Some(why), next, false, false)
    case Went(_, next) =>
      match Ask(next)
      case Stopped(why, last) => Halt(why, last)
      case Went(_, last) => AfterSend(ExactReader(), last, operation, transaction, expected)
  }

  /** The guard is armed when the command is written and disarmed by a decoded response. */
  predicate Poisoned(e: Ending) { e.sent && !e.settled }
}
