// What a streamed transaction guarantees: the way bytes are cut up does not
// matter, the sink gets exactly the payload, and a session that is kept stands
// at a container boundary.
module StreamingTheorems {
  import opened Options
  import opened Streaming

  // ----- reading takes exactly what was asked for -----

  lemma TwoCuts<T>(s: seq<T>, a: nat, b: nat)
    requires a <= b <= |s|
    ensures s[..b][..a] == s[..a] && s[..b][a..] == s[a..][..b - a] && s[a..][b - a..] == s[b..]
    ensures s[..a] + s[a..][..b - a] == s[..b] && s == s[..a] + s[a..]
  {}

  /** What a later host has left of the stream is a tail of it. */
  predicate Left(h: Host, later: Host) {
    |later.bytes| <= |h.bytes| && h.bytes[|h.bytes| - |later.bytes|..] == later.bytes
  }

  /** How many bytes were taken off the stream in between. */
  function Used(h: Host, later: Host): int { |h.bytes| - |later.bytes| }

  lemma LeftTwice(a: Host, b: Host, c: Host)
    requires Left(a, b)
    ensures Left(b, c) ==> Left(a, c) && Used(a, c) == Used(a, b) + Used(b, c)
  {}

  lemma {:induction false} ReadTakes(h: Host, n: nat, got: seq<Byte>)
    requires |got| <= n
    ensures var r := ReadExact(h, n, got);
      && r.host.calls == h.calls && r.host.answers == h.answers
      && (r.Went? ==> var k := n - |got|;
                      k <= |h.bytes| && r.value == got + h.bytes[..k] && r.host.bytes == h.bytes[k..])
    decreases n - |got|
  {
    if |got| < n {
      var left := n - |got|;
      ReceiveTakes(h, left);
      var x := Receive(h, left);
      if x.Went? && x.value != [] && |x.value| <= left {
        var j := |x.value|;
        ReadTakes(x.host, n, got + x.value);
        if left <= |h.bytes| {
          TwoCuts(h.bytes, j, left);
          assert got + (h.bytes[..j] + h.bytes[j..][..left - j]) == got + h.bytes[..j] + h.bytes[j..][..left - j];
        }
      }
    } else {
      assert got + h.bytes[..0] == got && h.bytes[0..] == h.bytes;
    }
  }

  /** A read that stops took fewer bytes than it was to take. */
  lemma {:induction false} ReadFallsShort(h: Host, n: nat, got: seq<Byte>)
    requires |got| <= n && ReadExact(h, n, got).Stopped?
    ensures var last := ReadExact(h, n, got).host;
      Left(h, last) && Used(h, last) < n - |got|
    decreases n - |got|
  {
    var left := n - |got|;
    ReceiveUses(h, left);
    var x := Receive(h, left);
    if x.Went? && x.value != [] && |x.value| <= left {
      var rest := ReadExact(x.host, n, got + x.value);
      assert ReadExact(h, n, got) == rest;
      ReadFallsShort(x.host, n, got + x.value);
      LeftTwice(h, x.host, rest.host);
    }
  }

  lemma ReceiveUses(h: Host, most: nat)
    ensures var x := Receive(h, most);
      Left(h, x.host) && Used(h, x.host) == if x.Went? && |x.value| <= most then |x.value| else 0
  {}

  lemma ReceiveTakes(h: Host, most: nat)
    ensures var x := Receive(h, most);
      && x.host.calls == h.calls && x.host.answers == h.answers
      && (x.Went? && |x.value| <= most ==> |x.value| <= |h.bytes| && x.value == h.bytes[..|x.value|]
                                           && x.host.bytes == h.bytes[|x.value|..])
  {}

  /** The transport delivers in whatever pieces it likes, but it does deliver. */
  predicate Calm(h: Host) { forall i :: 0 <= i < |h.moves| ==> h.moves[i].Give? }

  lemma {:induction false} CalmRead(h: Host, n: nat, got: seq<Byte>)
    requires Calm(h) && |got| <= n
    ensures var r := ReadExact(h, n, got);
      && Calm(r.host)
      && (r.Went? <==> n - |got| <= |h.bytes|)
      && (r.Stopped? ==> r.why == Failed(TransportTrouble) && r.host.bytes == [])
    decreases n - |got|
  {
    if |got| < n {
      var x := Receive(h, n - |got|);
      if x.value != [] { CalmRead(x.host, n, got + x.value); }
    }
  }

  /** A read that succeeds takes exactly the next bytes, one that stops takes fewer, and none touches the sink. */
  predicate Takes(h: Host, n: nat, r: Phase<seq<Byte>>) {
    && r.host.calls == h.calls && r.host.answers == h.answers
    && (r.Went? ==> n <= |h.bytes| && r.value == h.bytes[..n] && r.host.bytes == h.bytes[n..])
    && (r.Stopped? ==> Left(h, r.host) && Used(h, r.host) < n)
  }

  ghost predicate Exact(read: Reader) { forall h, n {:trigger Takes(h, n, read(h, n))} :: Takes(h, n, read(h, n)) }

  lemma ReadsExactly(h: Host, n: nat)
    ensures Takes(h, n, ReadExact(h, n, []))
  {
    ReadTakes(h, n, []);
    if ReadExact(h, n, []).Stopped? {
      ReadFallsShort(h, n, []);
    } else {
      assert [] + h.bytes[..n] == h.bytes[..n];
    }
  }

  lemma ExactReads()
    ensures Exact(ExactReader())
  {
    forall h: Host, n: nat ensures Takes(h, n, ExactReader()(h, n)) { ReadsExactly(h, n); }
  }

  // ----- fragmentation independence -----

  /** Same bytes to come, same sink; only the cuts differ. */
  predicate Alike(a: Host, b: Host) {
    a.bytes == b.bytes && a.calls == b.calls && a.answers == b.answers && Calm(a) && Calm(b)
  }

  ghost predicate SamePhase<T>(p: Phase<T>, q: Phase<T>) {
    && Alike(p.host, q.host) && (p.Went? <==> q.Went?)
    && (p.Went? ==> p.value == q.value) && (p.Stopped? ==> p.why == q.why)
  }

  ghost predicate CutsIgnored(read: Reader) {
    forall a, b, n {:trigger SamePhase(read(a, n), read(b, n))} :: Alike(a, b) ==> SamePhase(read(a, n), read(b, n))
  }

  lemma ExactIgnoresCuts()
    ensures CutsIgnored(ExactReader())
  {
    forall a: Host, b: Host, n: nat | Alike(a, b) ensures SamePhase(ExactReader()(a, n), ExactReader()(b, n)) {
      CalmRead(a, n, []);
      CalmRead(b, n, []);
      ReadTakes(a, n, []);
      ReadTakes(b, n, []);
    }
  }

  lemma {:induction false} SameBody(read: Reader, a: Host, b: Host, remaining: nat)
    requires CutsIgnored(read) && Alike(a, b)
    ensures SamePhase(CopyBody(read, a, remaining), CopyBody(read, b, remaining))
    decreases remaining
  {
    if remaining > 0 {
      var wanted := Min(remaining, MAX_STREAM_CHUNK);
      var p, q := read(a, wanted), read(b, wanted);
      assert SamePhase(p, q);
      if p.Went? {
        var s, t := Tell(p.host, Write(p.value)), Tell(q.host, Write(q.value));
        if s.Went? { SameBody(read, s.host, t.host, remaining - wanted); }
      }
    }
  }

  ghost predicate SameEnding(e: Ending, f: Ending) {
    Alike(e.host, f.host) && e.result == f.result && e.why == f.why && e.sent == f.sent && e.settled == f.settled
  }

  lemma SameFinal(read: Reader, a: Host, b: Host, transaction: nat, total: nat)
    requires CutsIgnored(read) && Alike(a, b)
    ensures SameEnding(FinalResponse(read, a, transaction, total), FinalResponse(read, b, transaction, total))
  {
    var p, q := read(a, 4), read(b, 4);
    assert SamePhase(p, q);
    if p.Went? && |p.value| == 4 && ValidResponseLength(Le32(p.value, 0)) {
      var n := Le32(p.value, 0) - 4;
      assert SamePhase(read(p.host, n), read(q.host, n));
    }
  }

  lemma SameData(read: Reader, a: Host, b: Host, transaction: nat, total: nat)
    requires CutsIgnored(read) && Alike(a, b)
    ensures SameEnding(DataPhase(read, a, transaction, total), DataPhase(read, b, transaction, total))
  {
    var p, q := Tell(a, Begin(total)), Tell(b, Begin(total));
    if p.Went? {
      SameBody(read, p.host, q.host, total);
      var r, s := CopyBody(read, p.host, total), CopyBody(read, q.host, total);
      if r.Went? { SameFinal(read, r.host, s.host, transaction, total); }
    }
  }

  lemma SameEarly(read: Reader, a: Host, b: Host, header: seq<Byte>, transaction: nat)
    requires CutsIgnored(read) && Alike(a, b) && |header| == HEADER_BYTES
    ensures SameEnding(EarlyResponse(read, a, header, transaction), EarlyResponse(read, b, header, transaction))
  {
    if ValidResponseLength(Le32(header, 0)) {
      var n := Le32(header, 0) - HEADER_BYTES;
      assert SamePhase(read(a, n), read(b, n));
    }
  }

  lemma SameJudgement(read: Reader, a: Host, b: Host, header: seq<Byte>, operation: nat, transaction: nat,
                      expected: Option<nat>)
    requires CutsIgnored(read) && Alike(a, b)
    ensures SameEnding(Judge(read, a, header, operation, transaction, expected),
                       Judge(read, b, header, operation, transaction, expected))
  {
    if |header| == HEADER_BYTES && Le32(header, 0) >= HEADER_BYTES {
      if Le16(header, 4) == RESPONSE_TYPE {
        SameEarly(read, a, b, header, transaction);
      } else {
        SameData(read, a, b, transaction, Le32(header, 0) - HEADER_BYTES);
      }
    }
  }

  lemma SameAfterSend(read: Reader, a: Host, b: Host, operation: nat, transaction: nat, expected: Option<nat>)
    requires CutsIgnored(read) && Alike(a, b)
    ensures SameEnding(AfterSend(read, a, operation, transaction, expected),
                       AfterSend(read, b, operation, transaction, expected))
  {
    var p, q := read(a, HEADER_BYTES), read(b, HEADER_BYTES);
    assert SamePhase(p, q);
    if p.Went? { SameJudgement(read, p.host, q.host, p.value, operation, transaction, expected); }
  }

  /** However the same bytes are cut into pieces, the result, the sink and what is left of the stream are the same. */
  lemma FragmentationIrrelevant(a: Host, b: Host, operation: nat, transaction: nat, expected: Option<nat>)
    requires Alike(a, b)
    ensures SameEnding(Transact(a, operation, transaction, expected), Transact(b, operation, transaction, expected))
  {
    var p, q := Ask(a), Ask(b);
    var r, s := Ask(p.host), Ask(q.host);
    ExactIgnoresCuts();
    SameAfterSend(ExactReader(), r.host, s.host, operation, transaction, expected);
  }

  // ----- what the sink gets -----

  /** The payload as the sink sees it. */
  function Writes(payload: seq<Byte>): seq<SinkCall> {
    if payload == [] then []
    else
      var k := Min(|payload|, MAX_STREAM_CHUNK);
      [Write(payload[..k])] + Writes(payload[k..])
  }

  function Written(calls: seq<SinkCall>): seq<Byte> {
    if calls == [] then [] else (if calls[0].Write? then calls[0].chunk else []) + Written(calls[1..])
  }

  /** Nothing empty, nothing above the bound, and together exactly the payload. */
  lemma {:induction false} WritesCover(payload: seq<Byte>)
    ensures Written(Writes(payload)) == payload
    ensures forall i :: 0 <= i < |Writes(payload)| ==>
      Writes(payload)[i].Write? && 0 < |Writes(payload)[i].chunk| <= MAX_STREAM_CHUNK
    decreases |payload|
  {
    if payload != [] {
      var k := Min(|payload|, MAX_STREAM_CHUNK);
      WritesCover(payload[k..]);
      assert Writes(payload)[1..] == Writes(payload[k..]);
      assert payload[..k] + payload[k..] == payload;
    }
  }

  /** A copied body reached the sink whole. */
  lemma {:induction false} BodyCopied(read: Reader, h: Host, remaining: nat)
    requires Exact(read) && CopyBody(read, h, remaining).Went?
    ensures var n := CopyBody(read, h, remaining).host;
      remaining <= |h.bytes| && n.bytes == h.bytes[remaining..] && n.calls == h.calls + Writes(h.bytes[..remaining])
    decreases remaining
  {
    if remaining > 0 {
      var wanted := Min(remaining, MAX_STREAM_CHUNK);
      assert Takes(h, wanted, read(h, wanted));
      var r := read(h, wanted);
      var t := Tell(r.host, Write(r.value));
      BodyCopied(read, t.host, remaining - wanted);
      TwoCuts(h.bytes, wanted, remaining);
      OneWrite(h.calls, h.bytes[..remaining], wanted, remaining);
    } else {
      NothingCopied(h);
    }
  }

  lemma NothingCopied(h: Host)
    ensures h.bytes[..0] == [] && h.bytes[0..] == h.bytes && Writes(h.bytes[..0]) == [] && h.calls + [] == h.calls
  {}

  lemma OneWrite(calls: seq<SinkCall>, payload: seq<Byte>, wanted: nat, remaining: nat)
    requires wanted == Min(remaining, MAX_STREAM_CHUNK) && 0 < wanted <= |payload| <= remaining
    ensures calls + [Write(payload[..wanted])] + Writes(payload[wanted..]) == calls + Writes(payload)
  {}

  /** Even a copy that is cut short gave the sink a prefix of the payload, in the same pieces. */
  lemma {:induction false} BodyPrefix(read: Reader, h: Host, remaining: nat) returns (k: nat)
    requires Exact(read)
    ensures k <= remaining && k <= |h.bytes|
            && CopyBody(read, h, remaining).host.calls == h.calls + Writes(h.bytes[..k])
    decreases remaining
  {
    k := 0;
    NothingCopied(h);
    if remaining > 0 {
      var wanted := Min(remaining, MAX_STREAM_CHUNK);
      assert Takes(h, wanted, read(h, wanted));
      var r := read(h, wanted);
      if r.Went? {
        var t := Tell(r.host, Write(r.value));
        if t.Went? {
          var j := BodyPrefix(read, t.host, remaining - wanted);
          k := wanted + j;
          assert CopyBody(read, h, remaining) == CopyBody(read, t.host, remaining - wanted);
          assert t.host.calls == h.calls + [Write(h.bytes[..wanted])];
          TwoCuts(h.bytes, wanted, k);
          OneWrite(h.calls, h.bytes[..k], wanted, remaining);
        }
      }
    }
  }

  // ----- a session that is kept stands at a container boundary -----

  /** A whole container: as long as it says. */
  predicate Whole(frame: seq<Byte>) { |frame| >= HEADER_BYTES && Le32(frame, 0) == |frame| }

  predicate DataContainer(frame: seq<Byte>, operation: nat, transaction: nat) {
    Whole(frame) && Le16(frame, 4) == DATA_TYPE && Le16(frame, 6) == operation && Le32(frame, 8) == transaction
  }

  predicate ResponseContainer(frame: seq<Byte>, transaction: nat) {
    Whole(frame) && ValidResponseLength(|frame|) && DecodeResponse(frame, transaction).Some?
  }

  lemma SettleMeans(h: Host, frame: seq<Byte>, transaction: nat, completed: Option<nat>)
    ensures var e := Settle(h, frame, transaction, completed);
      && e.host == h && e.sent && (e.settled <==> DecodeResponse(frame, transaction).Some?)
      && (e.result.Some? ==> completed.Some? && e.settled && e.result.value.total == completed.value
                             && DecodeResponse(frame, transaction)
                                == Some(Response(OK_RESPONSE, e.result.value.params)))
  {}

  lemma DecodedWhole(frame: seq<Byte>, transaction: nat)
    requires DecodeResponse(frame, transaction).Some? && |frame| <= MAX_RESPONSE_BYTES
    ensures ResponseContainer(frame, transaction)
  {}

  lemma FinalSettles(read: Reader, h: Host, transaction: nat, total: nat) returns (r: seq<Byte>)
    requires Exact(read) && FinalResponse(read, h, transaction, total).settled
    ensures var e := FinalResponse(read, h, transaction, total);
      && h.bytes == r + e.host.bytes && ResponseContainer(r, transaction) && e.host.calls == h.calls
      && (e.result.Some? ==> DecodeResponse(r, transaction) == Some(Response(OK_RESPONSE, e.result.value.params))
                             && e.result.value.total == total)
  {
    var p := read(h, 4);
    assert Takes(h, 4, p);
    var n := Le32(p.value, 0);
    var q := read(p.host, n - 4);
    assert Takes(p.host, n - 4, q);
    r := p.value + q.value;
    SettleMeans(q.host, r, transaction, Some(total));
    DecodedWhole(r, transaction);
    TwoCuts(h.bytes, 4, n);
  }

  lemma EarlySettles(read: Reader, h: Host, header: seq<Byte>, transaction: nat)
    requires Exact(read) && |header| == HEADER_BYTES && EarlyResponse(read, h, header, transaction).settled
    ensures var e := EarlyResponse(read, h, header, transaction);
      var k := Le32(header, 0) - HEADER_BYTES;
      && 0 <= k <= |h.bytes| && h.bytes == h.bytes[..k] + e.host.bytes
         && ResponseContainer(header + h.bytes[..k], transaction)
      && e.host.calls == h.calls && e.result.None?
  {
    var k := Le32(header, 0) - HEADER_BYTES;
    var q := read(h, k);
    assert Takes(h, k, q);
    SettleMeans(q.host, header + q.value, transaction, None);
    DecodedWhole(header + q.value, transaction);
  }

  /** The data container, its payload at the sink, and the response behind it. */
  lemma DataSettles(read: Reader, h: Host, transaction: nat, total: nat) returns (r: seq<Byte>)
    requires Exact(read) && DataPhase(read, h, transaction, total).settled
    ensures var e := DataPhase(read, h, transaction, total);
      && total <= |h.bytes| && h.bytes == h.bytes[..total] + r + e.host.bytes && ResponseContainer(r, transaction)
      && e.host.calls == h.calls + [Begin(total)] + Writes(h.bytes[..total])
      && (e.result.Some? ==> DecodeResponse(r, transaction) == Some(Response(OK_RESPONSE, e.result.value.params))
                             && e.result.value.total == total)
  {
    var p := Tell(h, Begin(total));
    BodyCopied(read, p.host, total);
    var q := CopyBody(read, p.host, total);
    r := FinalSettles(read, q.host, transaction, total);
    assert h.bytes == h.bytes[..total] + h.bytes[total..];
  }

  /** The bytes of a settled run: a response alone, or a data container and a response. */
  ghost predicate Boundary(consumed: seq<Byte>, operation: nat, transaction: nat) {
    || ResponseContainer(consumed, transaction)
    || exists k :: 0 <= k <= |consumed| && DataContainer(consumed[..k], operation, transaction)
                   && ResponseContainer(consumed[k..], transaction)
  }

  /** How a run after the command can settle, by the kind of the first container. */
  lemma AfterHeader(read: Reader, h: Host, operation: nat, transaction: nat, expected: Option<nat>)
    returns (p: Host, header: seq<Byte>)
    requires Exact(read) && AfterSend(read, h, operation, transaction, expected).settled
    ensures |header| == HEADER_BYTES && h.bytes == header + p.bytes && p.calls == h.calls
    ensures Le32(header, 0) >= HEADER_BYTES
    ensures AfterSend(read, h, operation, transaction, expected) == ByHeader(read, p, header, transaction)
    ensures Le16(header, 4) != RESPONSE_TYPE ==>
      && Le16(header, 4) == DATA_TYPE && Le16(header, 6) == operation && Le32(header, 8) == transaction
      && (expected.Some? ==> expected.value == Le32(header, 0) - HEADER_BYTES)
  {
    var r := read(h, HEADER_BYTES);
    assert Takes(h, HEADER_BYTES, r);
    p, header := r.host, r.value;
  }

  lemma SettledAfterSend(read: Reader, h: Host, operation: nat, transaction: nat, expected: Option<nat>)
    returns (consumed: seq<Byte>)
    requires Exact(read) && AfterSend(read, h, operation, transaction, expected).settled
    ensures h.bytes == consumed + AfterSend(read, h, operation, transaction, expected).host.bytes
            && Boundary(consumed, operation, transaction)
  {
    var p, header := AfterHeader(read, h, operation, transaction, expected);
    consumed := SettledByHeader(read, p, header, operation, transaction);
    assert h.bytes == header + p.bytes;
  }

  /** The ending a header leads to. */
  function ByHeader(read: Reader, p: Host, header: seq<Byte>, transaction: nat): Ending
    requires |header| == HEADER_BYTES && Le32(header, 0) >= HEADER_BYTES
  {
    if Le16(header, 4) == RESPONSE_TYPE then EarlyResponse(read, p, header, transaction)
    else DataPhase(read, p, transaction, Le32(header, 0) - HEADER_BYTES)
  }

  lemma SettledByHeader(read: Reader, p: Host, header: seq<Byte>, operation: nat, transaction: nat)
    returns (consumed: seq<Byte>)
    requires Exact(read) && |header| == HEADER_BYTES && Le32(header, 0) >= HEADER_BYTES
             && ByHeader(read, p, header, transaction).settled
    requires Le16(header, 4) != RESPONSE_TYPE ==>
      Le16(header, 4) == DATA_TYPE && Le16(header, 6) == operation && Le32(header, 8) == transaction
    ensures header + p.bytes == consumed + ByHeader(read, p, header, transaction).host.bytes
            && Boundary(consumed, operation, transaction)
  {
    if Le16(header, 4) == RESPONSE_TYPE {
      EarlySettles(read, p, header, transaction);
      consumed := header + p.bytes[..Le32(header, 0) - HEADER_BYTES];
    } else {
      var total := Le32(header, 0) - HEADER_BYTES;
      var r := DataSettles(read, p, transaction, total);
      consumed := header + p.bytes[..total] + r;
      Assembled(header, p.bytes, total, r, ByHeader(read, p, header, transaction).host.bytes, operation, transaction);
    }
  }

  lemma Prepend<T>(a: seq<T>, x: seq<T>, y: seq<T>, z: seq<T>)
    ensures a + (x + y + z) == a + x + y + z
  {}

  /** A header, its body and a response, put together. */
  lemma Assembled(header: seq<Byte>, bytes: seq<Byte>, total: nat, r: seq<Byte>, rest: seq<Byte>, operation: nat,
                  transaction: nat)
    requires |header| == HEADER_BYTES && Le32(header, 0) == HEADER_BYTES + total && ResponseContainer(r, transaction)
    requires Le16(header, 4) == DATA_TYPE && Le16(header, 6) == operation && Le32(header, 8) == transaction
    requires total <= |bytes| && bytes == bytes[..total] + r + rest
    ensures header + bytes == header + bytes[..total] + r + rest
    ensures DataContainer(header + bytes[..total], operation, transaction)
    ensures Boundary(header + bytes[..total] + r, operation, transaction)
    ensures (header + bytes[..total])[HEADER_BYTES..] == bytes[..total]
  {
    Prepend(header, bytes[..total], r, rest);
    var d := header + bytes[..total];
    HeaderKept(header, bytes[..total]);
    AtCut(d, r, operation, transaction);
  }

  lemma AtCut(d: seq<Byte>, r: seq<Byte>, operation: nat, transaction: nat)
    requires DataContainer(d, operation, transaction) && ResponseContainer(r, transaction)
    ensures Boundary(d + r, operation, transaction)
  {
    assert (d + r)[..|d|] == d && (d + r)[|d|..] == r;
  }

  lemma HeaderKept(header: seq<Byte>, body: seq<Byte>)
    requires |header| == HEADER_BYTES
    ensures var d := header + body;
      Le32(d, 0) == Le32(header, 0) && Le16(d, 4) == Le16(header, 4) && Le16(d, 6) == Le16(header, 6)
        && Le32(d, 8) == Le32(header, 8)
  {}

  // ----- a poisoned session does not -----

  /** Less than a header is no container, let alone two. */
  lemma TooShort(consumed: seq<Byte>, operation: nat, transaction: nat)
    requires |consumed| < HEADER_BYTES
    ensures !Boundary(consumed, operation, transaction)
  {}

  /** A stream that begins with a response, but not one that decodes. */
  lemma NotAResponse(consumed: seq<Byte>, operation: nat, transaction: nat)
    requires |consumed| >= HEADER_BYTES && Le16(consumed, 4) == RESPONSE_TYPE
    requires Le32(consumed, 0) == |consumed| ==> DecodeResponse(consumed, transaction).None?
    ensures !Boundary(consumed, operation, transaction)
  {}

  /** A stream whose first container is neither a response nor the data. */
  lemma NeitherKind(consumed: seq<Byte>, operation: nat, transaction: nat)
    requires |consumed| >= HEADER_BYTES && Le16(consumed, 4) != RESPONSE_TYPE
    requires Le16(consumed, 4) == DATA_TYPE ==> Le32(consumed, 0) + HEADER_BYTES > |consumed|
    ensures !Boundary(consumed, operation, transaction)
  {}

  /** A data container that is not followed by a response that decodes. */
  lemma NoResponseBehind(consumed: seq<Byte>, k: nat, operation: nat, transaction: nat)
    requires HEADER_BYTES <= k <= |consumed| && Le16(consumed, 4) == DATA_TYPE && Le32(consumed, 0) == k
    requires !ResponseContainer(consumed[k..], transaction)
    ensures !Boundary(consumed, operation, transaction)
  {}

  /** The bytes between two hosts. */
  function Between(h: Host, later: Host): seq<Byte>
    requires Left(h, later)
  {
    h.bytes[..Used(h, later)]
  }

  lemma EarlyUnsettled(read: Reader, h: Host, header: seq<Byte>, operation: nat, transaction: nat)
    requires Exact(read) && |header| == HEADER_BYTES && Le16(header, 4) == RESPONSE_TYPE
    requires !EarlyResponse(read, h, header, transaction).settled
    ensures var last := EarlyResponse(read, h, header, transaction).host;
      Left(h, last) && !Boundary(header + Between(h, last), operation, transaction)
  {
    var n := Le32(header, 0);
    var last := EarlyResponse(read, h, header, transaction).host;
    if ValidResponseLength(n) {
      var r := read(h, n - HEADER_BYTES);
      assert Takes(h, n - HEADER_BYTES, r);
      if r.Went? { SettleMeans(r.host, header + r.value, transaction, None); }
    }
    HeaderKept(header, Between(h, last));
    NotAResponse(header + Between(h, last), operation, transaction);
  }

  /** A final response that does not settle leaves something other than a response behind it. */
  lemma FinalUnsettled(read: Reader, h: Host, transaction: nat, total: nat)
    requires Exact(read) && !FinalResponse(read, h, transaction, total).settled
    ensures var last := FinalResponse(read, h, transaction, total).host;
      Left(h, last) && !ResponseContainer(Between(h, last), transaction)
  {
    var p := read(h, 4);
    assert Takes(h, 4, p);
    if p.Went? && ValidResponseLength(Le32(p.value, 0)) {
      var n := Le32(p.value, 0);
      var q := read(p.host, n - 4);
      assert Takes(p.host, n - 4, q);
      BehindPrefix(h, p.host, q, n);
      if q.Went? { SettleMeans(q.host, p.value + q.value, transaction, Some(total)); }
    } else {
      TakesLeaves(h, 4, p);
    }
  }

  /** What was read behind a length: all of what it announces, or less. */
  lemma BehindPrefix(h: Host, mid: Host, q: Phase<seq<Byte>>, n: nat)
    requires 4 <= |h.bytes| && mid.bytes == h.bytes[4..] && 4 <= n && Takes(mid, n - 4, q) && Le32(h.bytes, 0) == n
    ensures Left(h, q.host)
    ensures q.Went? ==> Between(h, q.host) == h.bytes[..4] + q.value
    ensures q.Stopped? ==> !Whole(Between(h, q.host))
  {
    TakesLeaves(mid, n - 4, q);
    LeftTwice(h, mid, q.host);
    if q.Went? { TwoCuts(h.bytes, 4, n); }
  }

  /** A copy that is cut short used up no more than the payload. */
  lemma {:induction false} BodyUses(read: Reader, h: Host, remaining: nat)
    requires Exact(read)
    ensures var last := CopyBody(read, h, remaining).host;
      Left(h, last) && Used(h, last) <= remaining && (CopyBody(read, h, remaining).Went? ==> Used(h, last) == remaining)
    decreases remaining
  {
    if remaining > 0 {
      var wanted := Min(remaining, MAX_STREAM_CHUNK);
      var r := read(h, wanted);
      assert Takes(h, wanted, r);
      TakesLeaves(h, wanted, r);
      if r.Went? {
        var t := Tell(r.host, Write(r.value));
        assert t.host.bytes == r.host.bytes;
        if t.Went? {
          BodyUses(read, t.host, remaining - wanted);
          LeftTwice(h, t.host, CopyBody(read, t.host, remaining - wanted).host);
        }
      }
    }
  }

  lemma TakesLeaves(h: Host, n: nat, r: Phase<seq<Byte>>)
    requires Takes(h, n, r)
    ensures Left(h, r.host) && (if r.Went? then Used(h, r.host) == n else Used(h, r.host) < n)
  {}

  /** A data phase that does not settle: part of the container, or all of it and no response. */
  lemma DataUses(read: Reader, h: Host, transaction: nat, total: nat)
    requires Exact(read) && !DataPhase(read, h, transaction, total).settled
    ensures var last := DataPhase(read, h, transaction, total).host;
      Left(h, last) && (Used(h, last) > total ==> !ResponseContainer(Between(h, last)[total..], transaction))
  {
    var p := Tell(h, Begin(total));
    if p.Went? {
      BodyUses(read, p.host, total);
      var q := CopyBody(read, p.host, total);
      if q.Went? {
        FinalUnsettled(read, q.host, transaction, total);
        PastBody(h, q.host, FinalResponse(read, q.host, transaction, total).host, total);
      }
    }
  }

  lemma PastBody(h: Host, mid: Host, last: Host, total: nat)
    requires Left(h, mid) && Used(h, mid) == total && Left(mid, last)
    ensures Left(h, last) && Used(h, last) >= total && Between(h, last)[total..] == Between(mid, last)
  {
    LeftTwice(h, mid, last);
    TwoCuts(h.bytes, total, Used(h, last));
  }

  lemma DataUnsettled(read: Reader, h: Host, header: seq<Byte>, operation: nat, transaction: nat)
    requires Exact(read) && |header| == HEADER_BYTES && Le32(header, 0) >= HEADER_BYTES
    requires Le16(header, 4) == DATA_TYPE
    requires !DataPhase(read, h, transaction, Le32(header, 0) - HEADER_BYTES).settled
    ensures var last := DataPhase(read, h, transaction, Le32(header, 0) - HEADER_BYTES).host;
      Left(h, last) && !Boundary(header + Between(h, last), operation, transaction)
  {
    var total := Le32(header, 0) - HEADER_BYTES;
    DataUses(read, h, transaction, total);
    var body := Between(h, DataPhase(read, h, transaction, total).host);
    HeaderKept(header, body);
    if |body| > total {
      assert (header + body)[HEADER_BYTES + total..] == body[total..];
      NoResponseBehind(header + body, HEADER_BYTES + total, operation, transaction);
    } else {
      NeitherKind(header + body, operation, transaction);
    }
  }

  lemma JudgedUnsettled(read: Reader, h: Host, header: seq<Byte>, operation: nat, transaction: nat,
                        expected: Option<nat>)
    requires Exact(read) && |header| == HEADER_BYTES
    requires !Judge(read, h, header, operation, transaction, expected).settled
    ensures var last := Judge(read, h, header, operation, transaction, expected).host;
      Left(h, last) && !Boundary(header + Between(h, last), operation, transaction)
  {
    var e := Judge(read, h, header, operation, transaction, expected);
    if Le32(header, 0) >= HEADER_BYTES && Le16(header, 4) == RESPONSE_TYPE {
      EarlyUnsettled(read, h, header, operation, transaction);
    } else if Le32(header, 0) >= HEADER_BYTES && e == DataPhase(read, h, transaction, Le32(header, 0) - HEADER_BYTES)
              && Le16(header, 4) == DATA_TYPE {
      DataUnsettled(read, h, header, operation, transaction);
    } else {
      assert e.host == h && header + Between(h, h) == header;
      assert !ResponseContainer(header, transaction);
    }
  }

  lemma UnsettledAfterSend(read: Reader, h: Host, operation: nat, transaction: nat, expected: Option<nat>)
    requires Exact(read) && !AfterSend(read, h, operation, transaction, expected).settled
    ensures var last := AfterSend(read, h, operation, transaction, expected).host;
      Left(h, last) && !Boundary(Between(h, last), operation, transaction)
  {
    var r := read(h, HEADER_BYTES);
    assert Takes(h, HEADER_BYTES, r);
    var last := AfterSend(read, h, operation, transaction, expected).host;
    if r.Went? {
      JudgedUnsettled(read, r.host, r.value, operation, transaction, expected);
      LeftTwice(h, r.host, last);
      TwoCuts(h.bytes, HEADER_BYTES, Used(h, last));
    } else {
      TooShort(Between(h, last), operation, transaction);
    }
  }

  /** Exactly whole containers of this transaction were taken off the stream, the response last. */
  ghost predicate AtBoundary(h: Host, last: Host, operation: nat, transaction: nat) {
    exists consumed :: h.bytes == consumed + last.bytes && Boundary(consumed, operation, transaction)
  }

  lemma BetweenDecides(h: Host, last: Host, operation: nat, transaction: nat)
    requires Left(h, last)
    ensures AtBoundary(h, last, operation, transaction) <==> Boundary(Between(h, last), operation, transaction)
  {
    assert h.bytes == Between(h, last) + last.bytes;
    forall consumed | h.bytes == consumed + last.bytes ensures consumed == Between(h, last) {
      assert consumed == h.bytes[..|consumed|];
    }
  }

  /**
   * In every run, with failure or cancellation anywhere: a run that gets no
   * transaction id leaves stream, sink and session alone. Every other run keeps the
   * session if and only if exactly whole containers were taken off the stream; in
   * particular a command that could not be written drops it.
   */
  lemma SessionReuseIff(h: Host, operation: nat, transaction: nat, expected: Option<nat>)
    ensures var e := Transact(h, operation, transaction, expected);
      && Left(h, e.host)
      && (Ask(h).Stopped? ==> !Poisoned(e) && e.host.bytes == h.bytes && e.host.calls == h.calls)
      && (Ask(h).Went? ==> (Poisoned(e) <==> !AtBoundary(h, e.host, operation, transaction)))
      && (Ask(h).Went? && Ask(Ask(h).host).Stopped? ==> Poisoned(e) && e.host.bytes == h.bytes)
  {
    var e := Transact(h, operation, transaction, expected);
    if Ask(h).Went? {
      var q := Ask(Ask(h).host);
      if q.Went? {
        ExactReads();
        AfterSendIff(ExactReader(), q.host, operation, transaction, expected);
        SameBytes(h, q.host, e.host, operation, transaction);
      } else {
        NothingRead(h, e.host, operation, transaction);
      }
    }
  }

  lemma SameBytes(a: Host, b: Host, last: Host, operation: nat, transaction: nat)
    requires a.bytes == b.bytes
    ensures Left(a, last) == Left(b, last)
    ensures AtBoundary(a, last, operation, transaction) == AtBoundary(b, last, operation, transaction)
  {}

  lemma NothingRead(h: Host, last: Host, operation: nat, transaction: nat)
    requires last.bytes == h.bytes
    ensures !AtBoundary(h, last, operation, transaction)
  {
    TooShort(Between(h, last), operation, transaction);
    BetweenDecides(h, last, operation, transaction);
  }

  lemma AfterSendIff(read: Reader, h: Host, operation: nat, transaction: nat, expected: Option<nat>)
    requires Exact(read)
    ensures var e := AfterSend(read, h, operation, transaction, expected);
      Left(h, e.host) && (Poisoned(e) <==> !AtBoundary(h, e.host, operation, transaction))
  {
    SendsAlways(read, h, operation, transaction, expected);
    var e := AfterSend(read, h, operation, transaction, expected);
    if e.settled {
      var consumed := SettledAfterSend(read, h, operation, transaction, expected);
    } else {
      UnsettledAfterSend(read, h, operation, transaction, expected);
      BetweenDecides(h, e.host, operation, transaction);
    }
  }

  lemma SendsAlways(read: Reader, h: Host, operation: nat, transaction: nat, expected: Option<nat>)
    ensures AfterSend(read, h, operation, transaction, expected).sent
  {}

  /** A success gave the sink `begin` once and then exactly the payload of the data container. */
  lemma SuccessDelivers(h: Host, operation: nat, transaction: nat, expected: Option<nat>)
    returns (d: seq<Byte>, r: seq<Byte>)
    requires Transact(h, operation, transaction, expected).result.Some?
    ensures var e := Transact(h, operation, transaction, expected);
      && h.bytes == d + r + e.host.bytes && DataContainer(d, operation, transaction)
      && e.result.value.total == |d| - HEADER_BYTES && (expected.Some? ==> expected.value == e.result.value.total)
      && DecodeResponse(r, transaction) == Some(Response(OK_RESPONSE, e.result.value.params))
      && e.host.calls == h.calls + [Begin(|d| - HEADER_BYTES)] + Writes(d[HEADER_BYTES..])
  {
    var a := Ask(h);
    var b := Ask(a.host);
    ExactReads();
    d, r := SendDelivers(ExactReader(), b.host, operation, transaction, expected);
  }

  lemma SendDelivers(read: Reader, h: Host, operation: nat, transaction: nat, expected: Option<nat>)
    returns (d: seq<Byte>, r: seq<Byte>)
    requires Exact(read) && AfterSend(read, h, operation, transaction, expected).result.Some?
    ensures var e := AfterSend(read, h, operation, transaction, expected);
      && h.bytes == d + r + e.host.bytes && DataContainer(d, operation, transaction)
      && e.result.value.total == |d| - HEADER_BYTES && (expected.Some? ==> expected.value == e.result.value.total)
      && DecodeResponse(r, transaction) == Some(Response(OK_RESPONSE, e.result.value.params))
      && e.host.calls == h.calls + [Begin(|d| - HEADER_BYTES)] + Writes(d[HEADER_BYTES..])
  {
    ResultsSettle(read, h, operation, transaction, expected);
    var p, header := AfterHeader(read, h, operation, transaction, expected);
    EarlyFails(read, p, header, transaction);
    d, r := HeaderDelivers(read, p, header, operation, transaction);
  }

  lemma HeaderDelivers(read: Reader, p: Host, header: seq<Byte>, operation: nat, transaction: nat)
    returns (d: seq<Byte>, r: seq<Byte>)
    requires Exact(read) && |header| == HEADER_BYTES && Le32(header, 0) >= HEADER_BYTES
    requires Le16(header, 4) == DATA_TYPE && Le16(header, 6) == operation && Le32(header, 8) == transaction
    requires DataPhase(read, p, transaction, Le32(header, 0) - HEADER_BYTES).result.Some?
    ensures var e := DataPhase(read, p, transaction, Le32(header, 0) - HEADER_BYTES);
      && header + p.bytes == d + r + e.host.bytes && DataContainer(d, operation, transaction)
      && e.result.value.total == |d| - HEADER_BYTES == Le32(header, 0) - HEADER_BYTES
      && DecodeResponse(r, transaction) == Some(Response(OK_RESPONSE, e.result.value.params))
      && e.host.calls == p.calls + [Begin(|d| - HEADER_BYTES)] + Writes(d[HEADER_BYTES..])
  {
    var total := Le32(header, 0) - HEADER_BYTES;
    DataResults(read, p, transaction, total);
    r := DataSettles(read, p, transaction, total);
    d := header + p.bytes[..total];
    Assembled(header, p.bytes, total, r, DataPhase(read, p, transaction, total).host.bytes, operation, transaction);
  }

  lemma EarlyFails(read: Reader, h: Host, header: seq<Byte>, transaction: nat)
    requires |header| == HEADER_BYTES
    ensures EarlyResponse(read, h, header, transaction).result.None?
  {}

  lemma DataResults(read: Reader, h: Host, transaction: nat, total: nat)
    ensures DataPhase(read, h, transaction, total).result.Some? ==> DataPhase(read, h, transaction, total).settled
  {}

  lemma ResultsSettle(read: Reader, h: Host, operation: nat, transaction: nat, expected: Option<nat>)
    ensures AfterSend(read, h, operation, transaction, expected).result.Some?
            ==> AfterSend(read, h, operation, transaction, expected).settled
  {
    var r := read(h, HEADER_BYTES);
    if r.Went? && |r.value| == HEADER_BYTES && Le32(r.value, 0) >= HEADER_BYTES {
      EarlyFails(read, r.host, r.value, transaction);
      DataResults(read, r.host, transaction, Le32(r.value, 0) - HEADER_BYTES);
    }
  }
}
