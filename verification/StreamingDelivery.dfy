// Every payload gets through: what a camera writes as a data container and an OK
// response, cut up in any way, ends in the sink byte for byte.
module StreamingDelivery {
  import opened Options
  import opened Streaming
  import opened StreamingTheorems

  // ----- writing containers -----

  function Put16(n: nat): seq<Byte> { [n % 256, n / 256 % 256] }

  function Put32(n: nat): seq<Byte> { [n % 256, n / 256 % 256, n / 0x1_0000 % 256, n / 0x100_0000 % 256] }

  function PutParams(params: seq<nat>): seq<Byte> {
    if params == [] then [] else Put32(params[0]) + PutParams(params[1..])
  }

  function Container(kind: nat, code: nat, transaction: nat, body: seq<Byte>): seq<Byte> {
    Put32(HEADER_BYTES + |body|) + Put16(kind) + Put16(code) + Put32(transaction) + body
  }

  lemma Read32(n: nat, before: seq<Byte>, after: seq<Byte>)
    requires n < 0x1_0000_0000
    ensures Le32(before + Put32(n) + after, |before|) == n
  {
    var b := before + Put32(n) + after;
    var at := |before|;
    assert b[at] == n % 256 && b[at + 1] == n / 256 % 256 && b[at + 2] == n / 0x1_0000 % 256
           && b[at + 3] == n / 0x100_0000 % 256;
    assert n / 0x1_0000 == n / 256 / 256 && n / 0x100_0000 == n / 256 / 256 / 256;
  }

  lemma Read16(n: nat, before: seq<Byte>, after: seq<Byte>)
    requires n < 0x1_0000
    ensures Le16(before + Put16(n) + after, |before|) == n
  {
    var b := before + Put16(n) + after;
    assert b[|before|] == n % 256 && b[|before| + 1] == n / 256 % 256;
  }

  predicate Fits(kind: nat, code: nat, transaction: nat, body: seq<Byte>) {
    kind < 0x1_0000 && code < 0x1_0000 && transaction < 0x1_0000_0000 && HEADER_BYTES + |body| < 0x1_0000_0000
  }

  /** Reading back the four header fields. */
  lemma HeaderReads(kind: nat, code: nat, transaction: nat, body: seq<Byte>)
    requires Fits(kind, code, transaction, body)
    ensures var c := Container(kind, code, transaction, body);
      && |c| == HEADER_BYTES + |body| && Le32(c, 0) == |c| && Le16(c, 4) == kind && Le16(c, 6) == code
         && Le32(c, 8) == transaction
      && c[HEADER_BYTES..] == body
  {
    var c := Container(kind, code, transaction, body);
    var n := HEADER_BYTES + |body|;
    Read32(n, [], Put16(kind) + Put16(code) + Put32(transaction) + body);
    assert c == [] + Put32(n) + (Put16(kind) + Put16(code) + Put32(transaction) + body);
    Read16(kind, Put32(n), Put16(code) + Put32(transaction) + body);
    assert c == Put32(n) + Put16(kind) + (Put16(code) + Put32(transaction) + body);
    Read16(code, Put32(n) + Put16(kind), Put32(transaction) + body);
    assert c == (Put32(n) + Put16(kind)) + Put16(code) + (Put32(transaction) + body);
    Read32(transaction, Put32(n) + Put16(kind) + Put16(code), body);
  }

  lemma {:induction false} ParamsRead(params: seq<nat>, i: nat)
    requires i < |params| && forall k :: 0 <= k < |params| ==> params[k] < 0x1_0000_0000
    ensures |PutParams(params)| == 4 * |params| && Le32(PutParams(params), 4 * i) == params[i]
    decreases |params|
  {
    ParamsLength(params);
    var b := PutParams(params);
    if i == 0 {
      Read32(params[0], [], PutParams(params[1..]));
      assert b == [] + Put32(params[0]) + PutParams(params[1..]);
    } else {
      ParamsLength(params[1..]);
      ParamsRead(params[1..], i - 1);
      var rest := PutParams(params[1..]);
      assert forall k :: 0 <= k < |rest| ==> b[k + 4] == rest[k];
    }
  }

  lemma {:induction false} ParamsLength(params: seq<nat>)
    ensures |PutParams(params)| == 4 * |params|
    decreases |params|
  {
    if params != [] { ParamsLength(params[1..]); }
  }

  lemma ReadBehind(b: seq<Byte>, skip: nat, at: nat)
    requires skip + at + 4 <= |b|
    ensures Le32(b[skip..], at) == Le32(b, skip + at)
  {}

  function ResponseFrame(code: nat, transaction: nat, params: seq<nat>): seq<Byte> {
    Container(RESPONSE_TYPE, code, transaction, PutParams(params))
  }

  function DataFrame(operation: nat, transaction: nat, payload: seq<Byte>): seq<Byte> {
    Container(DATA_TYPE, operation, transaction, payload)
  }

  predicate WireParams(params: seq<nat>) {
    |params| <= 5 && forall k :: 0 <= k < |params| ==> params[k] < 0x1_0000_0000
  }

  /** Decoding a response undoes encoding it. */
  lemma ResponseRoundTrip(code: nat, transaction: nat, params: seq<nat>)
    requires code < 0x1_0000 && transaction < 0x1_0000_0000 && WireParams(params)
    ensures DecodeResponse(ResponseFrame(code, transaction, params), transaction) == Some(Response(code, params))
    ensures ValidResponseLength(|ResponseFrame(code, transaction, params)|)
  {
    ParamsLength(params);
    var body := PutParams(params);
    HeaderReads(RESPONSE_TYPE, code, transaction, body);
    var frame := ResponseFrame(code, transaction, params);
    var decoded := DecodeResponse(frame, transaction).value;
    assert |decoded.params| == |params|;
    forall i | 0 <= i < |params| ensures decoded.params[i] == params[i] {
      ParamsRead(params, i);
      ReadBehind(frame, HEADER_BYTES, 4 * i);
    }
    assert decoded.params == params;
  }

  // ----- delivery -----

  predicate Arrives(h: Host, n: nat, r: Phase<seq<Byte>>) {
    Calm(h) && n <= |h.bytes| ==> r.Went? && Calm(r.host)
  }

  ghost predicate Reliable(read: Reader) {
    forall h, n {:trigger Arrives(h, n, read(h, n))} :: Arrives(h, n, read(h, n))
  }

  lemma ExactIsReliable()
    ensures Reliable(ExactReader())
  {
    forall h: Host, n: nat ensures Arrives(h, n, ExactReader()(h, n)) {
      if Calm(h) { CalmRead(h, n, []); }
    }
  }

  lemma {:induction false} BodyArrives(read: Reader, h: Host, remaining: nat)
    requires Exact(read) && Reliable(read) && Calm(h) && h.answers == [] && remaining <= |h.bytes|
    ensures var r := CopyBody(read, h, remaining); r.Went? && Calm(r.host) && r.host.answers == []
    decreases remaining
  {
    if remaining > 0 {
      var wanted := Min(remaining, MAX_STREAM_CHUNK);
      var r := read(h, wanted);
      assert Takes(h, wanted, r) && Arrives(h, wanted, r);
      BodyArrives(read, Tell(r.host, Write(r.value)).host, remaining - wanted);
    }
  }

  /** What a decoded response after the whole payload amounts to. */
  function Answer(code: nat, total: nat, params: seq<nat>): Option<Outcome> {
    if code == OK_RESPONSE then Some(Outcome(total, params)) else None
  }

  function Complaint(code: nat, params: seq<nat>): Option<Stop> {
    if code == OK_RESPONSE then None else Some(Refused(code, params))
  }

  lemma FinalBody(read: Reader, h: Host, frame: seq<Byte>, transaction: nat, total: nat, response: Response,
                  rest: seq<Byte>)
    requires Exact(read) && Reliable(read) && Calm(h) && ValidResponseLength(|frame|)
    requires Le32(frame, 0) == |frame| && h.bytes == frame + rest
             && DecodeResponse(frame, transaction) == Some(response)
    ensures var e := FinalResponse(read, h, transaction, total);
      && e.result == (if response.code == OK_RESPONSE then Some(Outcome(total, response.params)) else None)
      && e.why == (if response.code == OK_RESPONSE then None else Some(Refused(response.code, response.params)))
      && e.sent && e.settled && e.host.bytes == rest && e.host.calls == h.calls
  {
    var p := read(h, 4);
    assert Takes(h, 4, p) && Arrives(h, 4, p);
    assert p.value == frame[..4];
    assert Le32(p.value, 0) == |frame|;
    var n := |frame| - 4;
    var q := read(p.host, n);
    TwoCuts(h.bytes, 4, |frame|);
    assert Takes(p.host, n, q) && Arrives(p.host, n, q);
    assert p.value + q.value == h.bytes[..|frame|] == frame;
    assert h.bytes[|frame|..] == rest;
  }

  lemma ResponseArrives(read: Reader, h: Host, transaction: nat, total: nat, code: nat, params: seq<nat>,
                        rest: seq<Byte>)
    requires Exact(read) && Reliable(read) && Calm(h) && code < 0x1_0000 && transaction < 0x1_0000_0000
             && WireParams(params)
    requires h.bytes == ResponseFrame(code, transaction, params) + rest
    ensures var e := FinalResponse(read, h, transaction, total);
      && e.result == Answer(code, total, params) && e.why == Complaint(code, params) && e.sent && e.settled
      && e.host.bytes == rest && e.host.calls == h.calls
  {
    var frame := ResponseFrame(code, transaction, params);
    ResponseRoundTrip(code, transaction, params);
    HeaderReads(RESPONSE_TYPE, code, transaction, PutParams(params));
    FinalBody(read, h, frame, transaction, total, Response(code, params), rest);
  }

  lemma DataArrives(read: Reader, h: Host, transaction: nat, payload: seq<Byte>, code: nat, params: seq<nat>,
                    rest: seq<Byte>)
    requires Exact(read) && Reliable(read) && Calm(h) && h.answers == [] && code < 0x1_0000
             && transaction < 0x1_0000_0000 && WireParams(params)
    requires h.bytes == payload + (ResponseFrame(code, transaction, params) + rest)
    ensures var e := DataPhase(read, h, transaction, |payload|);
      && e.result == Answer(code, |payload|, params) && e.why == Complaint(code, params) && e.sent && e.settled
      && e.host.bytes == rest && e.host.calls == h.calls + [Begin(|payload|)] + Writes(payload)
  {
    var p := Tell(h, Begin(|payload|));
    BodyArrives(read, p.host, |payload|);
    BodyCopied(read, p.host, |payload|);
    var q := CopyBody(read, p.host, |payload|);
    assert h.bytes[..|payload|] == payload && h.bytes[|payload|..] == ResponseFrame(code, transaction, params) + rest;
    ResponseArrives(read, q.host, transaction, |payload|, code, params, rest);
  }

  lemma FrameArrives(read: Reader, h: Host, operation: nat, transaction: nat, payload: seq<Byte>, code: nat,
                     params: seq<nat>,
                     rest: seq<Byte>, expected: Option<nat>)
    requires Exact(read) && Reliable(read) && Calm(h) && code < 0x1_0000 && h.answers == [] && WireParams(params)
    requires Fits(DATA_TYPE, operation, transaction, payload) && (expected.Some? ==> expected.value == |payload|)
    requires h.bytes == DataFrame(operation, transaction, payload) + (ResponseFrame(code, transaction, params) + rest)
    ensures var e := AfterSend(read, h, operation, transaction, expected);
      && e.result == Answer(code, |payload|, params) && e.why == Complaint(code, params) && e.sent && e.settled
      && e.host.bytes == rest && e.host.calls == h.calls + [Begin(|payload|)] + Writes(payload)
  {
    var d := DataFrame(operation, transaction, payload);
    HeaderReads(DATA_TYPE, operation, transaction, payload);
    var p := read(h, HEADER_BYTES);
    assert Takes(h, HEADER_BYTES, p) && Arrives(h, HEADER_BYTES, p);
    HeaderCut(d, ResponseFrame(code, transaction, params) + rest);
    JudgedData(read, p.host, p.value, operation, transaction, expected, |payload|);
    DataArrives(read, p.host, transaction, payload, code, params, rest);
  }

  lemma HeaderCut(d: seq<Byte>, rest: seq<Byte>)
    requires |d| >= HEADER_BYTES
    ensures var header := (d + rest)[..HEADER_BYTES];
      && Le32(header, 0) == Le32(d, 0) && Le16(header, 4) == Le16(d, 4) && Le16(header, 6) == Le16(d, 6)
         && Le32(header, 8) == Le32(d, 8)
      && (d + rest)[HEADER_BYTES..] == d[HEADER_BYTES..] + rest
  {}

  lemma JudgedData(read: Reader, h: Host, header: seq<Byte>, operation: nat, transaction: nat, expected: Option<nat>,
                   total: nat)
    requires |header| == HEADER_BYTES && Le32(header, 0) == HEADER_BYTES + total
             && (expected.Some? ==> expected.value == total)
    requires Le16(header, 4) == DATA_TYPE && Le16(header, 6) == operation && Le32(header, 8) == transaction
    ensures Judge(read, h, header, operation, transaction, expected) == DataPhase(read, h, transaction, total)
  {}

  /**
   * For every payload, every response code and every fragmentation: the sink sees the
   * length once and then the payload, the run reports success or the camera's refusal,
   * the session is kept and the stream is left where the response ended.
   */
  lemma EveryPayloadDelivered(h: Host, operation: nat, transaction: nat, payload: seq<Byte>, code: nat,
                              params: seq<nat>,
                              rest: seq<Byte>, expected: Option<nat>)
    requires Calm(h) && code < 0x1_0000 && h.answers == [] && WireParams(params)
    requires Fits(DATA_TYPE, operation, transaction, payload) && (expected.Some? ==> expected.value == |payload|)
    requires h.bytes == DataFrame(operation, transaction, payload) + (ResponseFrame(code, transaction, params) + rest)
    ensures var e := Transact(h, operation, transaction, expected);
      && e.result == Answer(code, |payload|, params) && e.why == Complaint(code, params) && !Poisoned(e)
      && e.host.bytes == rest && e.host.calls == h.calls + [Begin(|payload|)] + Writes(payload)
  {
    ExactReads();
    ExactIsReliable();
    FrameArrives(ExactReader(), Ask(Ask(h).host).host, operation, transaction, payload, code, params, rest, expected);
  }

  lemma JudgedEarly(read: Reader, h: Host, header: seq<Byte>, operation: nat, transaction: nat, expected: Option<nat>)
    requires |header| == HEADER_BYTES && Le32(header, 0) >= HEADER_BYTES && Le16(header, 4) == RESPONSE_TYPE
    ensures Judge(read, h, header, operation, transaction, expected) == EarlyResponse(read, h, header, transaction)
  {}

  lemma EarlyBody(read: Reader, h: Host, header: seq<Byte>, frame: seq<Byte>, transaction: nat, response: Response,
                  rest: seq<Byte>)
    requires Exact(read) && Reliable(read) && Calm(h) && ValidResponseLength(|frame|)
    requires header == frame[..HEADER_BYTES] && Le32(header, 0) == |frame| && h.bytes == frame[HEADER_BYTES..] + rest
    requires DecodeResponse(frame, transaction) == Some(response)
    ensures var e := EarlyResponse(read, h, header, transaction);
      && e.result.None?
      && e.why == Some(if response.code == OK_RESPONSE
                       then Failed(FramingTrouble) else Refused(response.code, response.params))
      && e.sent && e.settled && e.host.bytes == rest && e.host.calls == h.calls
  {
    var n := |frame| - HEADER_BYTES;
    var q := read(h, n);
    assert Takes(h, n, q) && Arrives(h, n, q);
    assert h.bytes[..n] == frame[HEADER_BYTES..] && h.bytes[n..] == rest;
    assert header + q.value == frame;
  }

  lemma EarlyArrives(read: Reader, h: Host, operation: nat, transaction: nat, code: nat, params: seq<nat>,
                     rest: seq<Byte>, expected: Option<nat>)
    requires Exact(read) && Reliable(read) && Calm(h) && code < 0x1_0000 && transaction < 0x1_0000_0000
             && WireParams(params)
    requires h.bytes == ResponseFrame(code, transaction, params) + rest
    ensures var e := AfterSend(read, h, operation, transaction, expected);
      && e.result.None? && e.why == Some(if code == OK_RESPONSE then Failed(FramingTrouble) else Refused(code, params))
      && e.sent && e.settled && e.host.bytes == rest && e.host.calls == h.calls
  {
    var frame := ResponseFrame(code, transaction, params);
    ParamsLength(params);
    ResponseRoundTrip(code, transaction, params);
    HeaderReads(RESPONSE_TYPE, code, transaction, PutParams(params));
    var p := read(h, HEADER_BYTES);
    assert Takes(h, HEADER_BYTES, p) && Arrives(h, HEADER_BYTES, p);
    HeaderCut(frame, rest);
    JudgedEarly(read, p.host, p.value, operation, transaction, expected);
    EarlyBody(read, p.host, p.value, frame, transaction, Response(code, params), rest);
  }

  /** A response in place of the data: the sink is not called, the run fails, but the session is kept. */
  lemma EarlyResponseKeepsSession(h: Host, operation: nat, transaction: nat, code: nat, params: seq<nat>,
                                  rest: seq<Byte>, expected: Option<nat>)
    requires Calm(h) && h.answers == [] && code < 0x1_0000 && transaction < 0x1_0000_0000 && WireParams(params)
    requires h.bytes == ResponseFrame(code, transaction, params) + rest
    ensures var e := Transact(h, operation, transaction, expected);
      && e.result.None? && e.why == Some(if code == OK_RESPONSE then Failed(FramingTrouble) else Refused(code, params))
      && !Poisoned(e) && e.host.bytes == rest && e.host.calls == h.calls
  {
    ExactReads();
    ExactIsReliable();
    EarlyArrives(ExactReader(), Ask(Ask(h).host).host, operation, transaction, code, params, rest, expected);
  }
}
