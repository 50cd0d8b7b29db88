// What a run that does not succeed reports and what its sink has seen: the first
// exchange that fails ends the run and names the reason, and the sink is touched
// only by a data container the run asked for.
module StreamingFailures {
  import opened Options
  import opened Streaming
  import opened StreamingTheorems

  // ----- the first failure ends the run -----

  predicate Suffix<T(==)>(a: seq<T>, b: seq<T>) { |b| <= |a| && a[|a| - |b|..] == b }

  /** What of `a` was used up on the way to its suffix `b`. */
  function Spent<T>(a: seq<T>, b: seq<T>): seq<T>
    requires |b| <= |a|
  {
    a[..|a| - |b|]
  }

  /** Exchanges that did as they were asked, or flooded. */
  predicate Worked(moves: seq<Move>, answers: seq<Answer>) {
    && (forall m :: m in moves ==> m.Give? || m.Flood?) && (forall x :: x in answers ==> x.Take?)
  }

  /** What was used up until a run stopped for `why`; `dry` if the stream was at its end. */
  predicate Cause(moves: seq<Move>, answers: seq<Answer>, why: Stop, dry: bool) {
    && (why == Failed(DeadlineTrouble) <==> Expire in moves)
    && (why == Failed(SinkTrouble) <==> Reject in answers)
    && (why == Cancelled <==> Vanish in moves || Leave in answers)
    && (Refuse in moves ==> why == Failed(TransportTrouble))
    && (why == Failed(TransportTrouble) ==> Refuse in moves || dry)
  }

  predicate Onwards(a: Host, b: Host) { Suffix(a.moves, b.moves) && Suffix(a.answers, b.answers) }

  predicate Smooth(a: Host, b: Host) {
    Onwards(a, b) && Worked(Spent(a.moves, b.moves), Spent(a.answers, b.answers))
  }

  predicate Stops(a: Host, b: Host, why: Stop) {
    Onwards(a, b) && Cause(Spent(a.moves, b.moves), Spent(a.answers, b.answers), why, b.bytes == [])
  }

  predicate Explained<T>(h: Host, r: Phase<T>) {
    match r
    case Went(_, next) => Smooth(h, next)
    case Stopped(why, next) => Stops(h, next, why)
  }

  lemma SpentTwice<T>(a: seq<T>, b: seq<T>, c: seq<T>)
    requires Suffix(a, b) && Suffix(b, c)
    ensures Suffix(a, c) && Spent(a, c) == Spent(a, b) + Spent(b, c)
  {}

  lemma SmoothTwice(a: Host, b: Host, c: Host)
    requires Smooth(a, b) && Smooth(b, c)
    ensures Smooth(a, c)
  {
    SpentTwice(a.moves, b.moves, c.moves);
    SpentTwice(a.answers, b.answers, c.answers);
  }

  lemma CauseLater(moves: seq<Move>, answers: seq<Answer>, moves': seq<Move>, answers': seq<Answer>, why: Stop,
                   dry: bool)
    requires Worked(moves, answers) && Cause(moves', answers', why, dry)
    ensures Cause(moves + moves', answers + answers', why, dry)
  {}

  lemma SmoothStops(a: Host, b: Host, c: Host, why: Stop)
    requires Smooth(a, b) && Stops(b, c, why)
    ensures Stops(a, c, why)
  {
    SpentTwice(a.moves, b.moves, c.moves);
    SpentTwice(a.answers, b.answers, c.answers);
    CauseLater(Spent(a.moves, b.moves), Spent(a.answers, b.answers), Spent(b.moves, c.moves),
               Spent(b.answers, c.answers), why, c.bytes == []);
  }

  lemma Still(h: Host)
    ensures Smooth(h, h)
  {}

  /** The stream made no sense, or was at its end. */
  lemma Halts(a: Host, b: Host, why: Stop)
    requires Smooth(a, b)
    requires why == Failed(FramingTrouble) || why.Refused? || (why == Failed(TransportTrouble) && b.bytes == [])
    ensures Stops(a, b, why)
  {}

  /** After one exchange with the transport that worked. */
  lemma MovedSmoothly(h: Host, next: Host)
    requires next.moves == Moved(h).moves && next.answers == h.answers && (NextMove(h).Give? || NextMove(h).Flood?)
    ensures Smooth(h, next)
  {
    if h.moves != [] { assert Spent(h.moves, next.moves) == [h.moves[0]]; }
  }

  /** What a failing exchange with the transport is reported as. */
  predicate Says(m: Move, why: Stop) {
    match m
    case Refuse => why == Failed(TransportTrouble)
    case Expire => why == Failed(DeadlineTrouble)
    case Vanish => why == Cancelled
    case _ => false
  }

  lemma MoveStops(h: Host, next: Host, why: Stop)
    requires next == Moved(h) && Says(NextMove(h), why)
    ensures Stops(h, next, why)
  {
    assert Spent(h.moves, next.moves) == [h.moves[0]] && Spent(h.answers, next.answers) == [];
  }

  lemma AskExplained(h: Host)
    ensures Explained(h, Ask(h))
  {
    if Ask(h).Went? { MovedSmoothly(h, Ask(h).host); } else { MoveStops(h, Ask(h).host, Ask(h).why); }
  }

  lemma TellExplained(h: Host, call: SinkCall)
    ensures Explained(h, Tell(h, call))
  {
    var next := Tell(h, call).host;
    assert Spent(h.moves, next.moves) == [];
    assert Spent(h.answers, next.answers) == if h.answers == [] then [] else [h.answers[0]];
  }

  lemma ReceiveExplained(h: Host, most: nat)
    ensures Explained(h, Receive(h, most))
  {
    var r := Receive(h, most);
    if r.Went? { MovedSmoothly(h, r.host); } else { MoveStops(h, r.host, r.why); }
  }

  lemma NothingLeft(h: Host, most: nat)
    requires most > 0 && Receive(h, most).Went? && Receive(h, most).value == []
    ensures Receive(h, most).host.bytes == []
  {}

  lemma {:induction false} ReadExplained(h: Host, n: nat, got: seq<Byte>)
    ensures Explained(h, ReadExact(h, n, got))
    decreases n - |got|
  {
    Still(h);
    if |got| < n {
      var r := Receive(h, n - |got|);
      ReceiveExplained(h, n - |got|);
      if r.Went? {
        if r.value == [] {
          NothingLeft(h, n - |got|);
          Halts(h, r.host, Failed(TransportTrouble));
        } else if |r.value| > n - |got| {
          Halts(h, r.host, Failed(FramingTrouble));
        } else {
          ReadExplained(r.host, n, got + r.value);
          Onward(h, r.host, ReadExact(r.host, n, got + r.value));
        }
      }
    }
  }

  lemma Onward<T>(a: Host, b: Host, r: Phase<T>)
    requires Smooth(a, b) && Explained(b, r)
    ensures Explained(a, r)
  {
    match r
    case Went(_, next) => SmoothTwice(a, b, next);
    case Stopped(why, next) => SmoothStops(a, b, next, why);
  }

  ghost predicate Explains(read: Reader) {
    forall h, n {:trigger Explained(h, read(h, n))} :: Explained(h, read(h, n))
  }

  lemma ExactExplains()
    ensures Explains(ExactReader())
  {
    forall h: Host, n: nat ensures Explained(h, ExactReader()(h, n)) { ReadExplained(h, n, []); }
  }

  lemma {:induction false} BodyExplained(read: Reader, h: Host, remaining: nat)
    requires Explains(read)
    ensures Explained(h, CopyBody(read, h, remaining))
    decreases remaining
  {
    Still(h);
    if remaining > 0 {
      var wanted := Min(remaining, MAX_STREAM_CHUNK);
      var r := read(h, wanted);
      assert Explained(h, r);
      if r.Went? {
        var t := Tell(r.host, Write(r.value));
        TellExplained(r.host, Write(r.value));
        Onward(h, r.host, t);
        if t.Went? {
          BodyExplained(read, t.host, remaining - wanted);
          Onward(h, t.host, CopyBody(read, t.host, remaining - wanted));
        }
      }
    }
  }

  /** The stream starts with the header of the data container that was asked for. */
  predicate Announced(bytes: seq<Byte>, operation: nat, transaction: nat, expected: Option<nat>) {
    && |bytes| >= HEADER_BYTES && Le32(bytes, 0) >= HEADER_BYTES && Le16(bytes, 4) == DATA_TYPE
    && Le16(bytes, 6) == operation && Le32(bytes, 8) == transaction
    && (expected.Some? ==> expected.value == Le32(bytes, 0) - HEADER_BYTES)
  }

  /** A result if nothing failed; otherwise none, and the reason. */
  predicate EndExplained(h: Host, e: Ending) {
    if e.why.None? then e.result.Some? && Smooth(h, e.host) else e.result.None? && Stops(h, e.host, e.why.value)
  }

  lemma EndOnward(a: Host, b: Host, e: Ending)
    requires Smooth(a, b) && EndExplained(b, e)
    ensures EndExplained(a, e)
  {
    if e.why.None? { SmoothTwice(a, b, e.host); } else { SmoothStops(a, b, e.host, e.why.value); }
  }

  /** A response that was read in full ends the run without another exchange. */
  lemma SettleEnds(h: Host, frame: seq<Byte>, transaction: nat, completed: Option<nat>)
    ensures var e := Settle(h, frame, transaction, completed);
      && e.host == h && (e.why.None? <==> e.result.Some?)
      && (e.why.Some? ==> e.why.value == Failed(FramingTrouble) || e.why.value.Refused?)
  {}

  lemma EndedExplained(h: Host, e: Ending)
    requires e.host == h && (e.why.None? <==> e.result.Some?)
    requires e.why.Some? ==> e.why.value == Failed(FramingTrouble) || e.why.value.Refused?
    ensures EndExplained(h, e)
  {
    Still(h);
    if e.why.Some? { Halts(h, h, e.why.value); }
  }

  lemma SettleExplained(h: Host, frame: seq<Byte>, transaction: nat, completed: Option<nat>)
    ensures EndExplained(h, Settle(h, frame, transaction, completed))
  {
    SettleEnds(h, frame, transaction, completed);
    EndedExplained(h, Settle(h, frame, transaction, completed));
  }

  lemma EarlyExplained(read: Reader, h: Host, header: seq<Byte>, transaction: nat)
    requires Explains(read) && |header| == HEADER_BYTES
    ensures EndExplained(h, EarlyResponse(read, h, header, transaction))
  {
    Still(h);
    var n := Le32(header, 0);
    if !ValidResponseLength(n) {
      Halts(h, h, Failed(FramingTrouble));
    } else {
      var r := read(h, n - HEADER_BYTES);
      assert Explained(h, r);
      if r.Went? {
        SettleExplained(r.host, header + r.value, transaction, None);
        EndOnward(h, r.host, Settle(r.host, header + r.value, transaction, None));
      }
    }
  }

  lemma FinalEnds(read: Reader, h: Host, transaction: nat, total: nat) returns (n: nat)
    ensures var p, e := read(h, 4), FinalResponse(read, h, transaction, total);
      if p.Stopped? then e == Halt(p.why, p.host)
      else e == Halt(Failed(FramingTrouble), p.host)
           || if read(p.host, n).Stopped? then e == Halt(read(p.host, n).why, read(p.host, n).host)
              else EndExplained(read(p.host, n).host, e)
  {
    n := 0;
    var p := read(h, 4);
    if p.Went? && |p.value| == 4 && ValidResponseLength(Le32(p.value, 0)) {
      n := Le32(p.value, 0) - 4;
      var q := read(p.host, n);
      if q.Went? { SettleExplained(q.host, p.value + q.value, transaction, Some(total)); }
    }
  }

  lemma StopExplained<T>(h: Host, r: Phase<T>)
    requires r.Stopped? && Explained(h, r)
    ensures EndExplained(h, Halt(r.why, r.host))
  {}

  lemma EndsExplained(h: Host, p: Phase<seq<Byte>>, q: Phase<seq<Byte>>, e: Ending)
    requires Explained(h, p) && (p.Went? ==> Explained(p.host, q))
    requires if p.Stopped? then e == Halt(p.why, p.host)
             else e == Halt(Failed(FramingTrouble), p.host)
                  || if q.Stopped? then e == Halt(q.why, q.host) else EndExplained(q.host, e)
    ensures EndExplained(h, e)
  {
    if p.Stopped? {
      StopExplained(h, p);
    } else if e == Halt(Failed(FramingTrouble), p.host) {
      EndedExplained(p.host, e);
      EndOnward(h, p.host, e);
    } else {
      Onward(h, p.host, q);
      if q.Stopped? { StopExplained(h, q); } else { EndOnward(h, q.host, e); }
    }
  }

  lemma FinalExplained(read: Reader, h: Host, transaction: nat, total: nat)
    requires Explains(read)
    ensures EndExplained(h, FinalResponse(read, h, transaction, total))
  {
    var n := FinalEnds(read, h, transaction, total);
    var p := read(h, 4);
    assert Explained(h, p) && Explained(p.host, read(p.host, n));
    EndsExplained(h, p, read(p.host, n), FinalResponse(read, h, transaction, total));
  }

  lemma DataExplained(read: Reader, h: Host, transaction: nat, total: nat)
    requires Explains(read)
    ensures EndExplained(h, DataPhase(read, h, transaction, total))
  {
    var p := Tell(h, Begin(total));
    TellExplained(h, Begin(total));
    if p.Went? {
      var q := CopyBody(read, p.host, total);
      BodyExplained(read, p.host, total);
      Onward(h, p.host, q);
      if q.Went? {
        FinalExplained(read, q.host, transaction, total);
        EndOnward(h, q.host, FinalResponse(read, q.host, transaction, total));
      }
    }
  }

  lemma JudgedEarly(read: Reader, h: Host, header: seq<Byte>, operation: nat, transaction: nat, expected: Option<nat>)
    requires |header| == HEADER_BYTES && Le32(header, 0) >= HEADER_BYTES && Le16(header, 4) == RESPONSE_TYPE
    ensures Judge(read, h, header, operation, transaction, expected) == EarlyResponse(read, h, header, transaction)
  {}

  lemma JudgedData(read: Reader, h: Host, header: seq<Byte>, operation: nat, transaction: nat, expected: Option<nat>)
    requires |header| == HEADER_BYTES && Announced(header, operation, transaction, expected)
    ensures Judge(read, h, header, operation, transaction, expected)
         == DataPhase(read, h, transaction, Le32(header, 0) - HEADER_BYTES)
  {}

  lemma JudgedWrong(read: Reader, h: Host, header: seq<Byte>, operation: nat, transaction: nat, expected: Option<nat>)
    requires |header| != HEADER_BYTES
             || (!Announced(header, operation, transaction, expected)
                 && (Le32(header, 0) < HEADER_BYTES || Le16(header, 4) != RESPONSE_TYPE))
    ensures Judge(read, h, header, operation, transaction, expected) == Halt(Failed(FramingTrouble), h)
  {}

  lemma JudgeExplained(read: Reader, h: Host, header: seq<Byte>, operation: nat, transaction: nat,
                       expected: Option<nat>)
    requires Explains(read)
    ensures EndExplained(h, Judge(read, h, header, operation, transaction, expected))
  {
    if |header| == HEADER_BYTES && Announced(header, operation, transaction, expected) {
      JudgedData(read, h, header, operation, transaction, expected);
      DataExplained(read, h, transaction, Le32(header, 0) - HEADER_BYTES);
    } else if |header| == HEADER_BYTES && Le32(header, 0) >= HEADER_BYTES && Le16(header, 4) == RESPONSE_TYPE {
      JudgedEarly(read, h, header, operation, transaction, expected);
      EarlyExplained(read, h, header, transaction);
    } else {
      JudgedWrong(read, h, header, operation, transaction, expected);
      EndedExplained(h, Halt(Failed(FramingTrouble), h));
    }
  }

  lemma SendExplained(read: Reader, h: Host, operation: nat, transaction: nat, expected: Option<nat>)
    requires Explains(read)
    ensures EndExplained(h, AfterSend(read, h, operation, transaction, expected))
  {
    var r := read(h, HEADER_BYTES);
    assert Explained(h, r);
    if r.Went? {
      JudgeExplained(read, r.host, r.value, operation, transaction, expected);
      EndOnward(h, r.host, Judge(read, r.host, r.value, operation, transaction, expected));
    }
  }

  lemma RunExplained(h: Host, operation: nat, transaction: nat, expected: Option<nat>)
    ensures EndExplained(h, Transact(h, operation, transaction, expected))
  {
    AskExplained(h);
    var p := Ask(h);
    if p.Went? {
      var q := Ask(p.host);
      AskExplained(p.host);
      Onward(h, p.host, q);
      if q.Went? {
        ExactExplains();
        SendExplained(ExactReader(), q.host, operation, transaction, expected);
        EndOnward(h, q.host, AfterSend(ExactReader(), q.host, operation, transaction, expected));
      }
    }
  }

  /**
   * In every run the reported reason is what went wrong: a deadline that passed, a
   * sink that refused, a caller that left, and nothing of the kind in a success. A
   * transport failure is one the transport reported, or a stream at its end.
   */
  lemma StopsForCause(h: Host, operation: nat, transaction: nat, expected: Option<nat>)
    ensures var e := Transact(h, operation, transaction, expected);
      && Onwards(h, e.host) && (e.why.None? <==> e.result.Some?)
      && var moves, answers := Spent(h.moves, e.host.moves), Spent(h.answers, e.host.answers);
         if e.why.None? then Worked(moves, answers) else Cause(moves, answers, e.why.value, e.host.bytes == [])
  {
    RunExplained(h, operation, transaction, expected);
  }

  // ----- what the sink has seen -----

  /** After `begin` with the length, the first `k` bytes of a payload in bounded writes. */
  predicate Fed(before: seq<SinkCall>, after: seq<SinkCall>, total: nat, payload: seq<Byte>, k: nat) {
    k <= total && k <= |payload| && after == before + [Begin(total)] + Writes(payload[..k])
  }

  lemma DataFeeds(read: Reader, h: Host, transaction: nat, total: nat) returns (k: nat)
    requires Exact(read)
    ensures var last := DataPhase(read, h, transaction, total).host;
      last.calls == h.calls || Fed(h.calls, last.calls, total, h.bytes, k)
  {
    k := 0;
    var p := Tell(h, Begin(total));
    if p.Went? {
      k := BodyPrefix(read, p.host, total);
      var q := CopyBody(read, p.host, total);
      if q.Went? { FinalFeeds(read, q.host, transaction, total); }
    }
  }

  lemma FinalFeeds(read: Reader, h: Host, transaction: nat, total: nat)
    requires Exact(read)
    ensures FinalResponse(read, h, transaction, total).host.calls == h.calls
  {
    var p := read(h, 4);
    assert Takes(h, 4, p);
    if p.Went? && ValidResponseLength(Le32(p.value, 0)) {
      var q := read(p.host, Le32(p.value, 0) - 4);
      assert Takes(p.host, Le32(p.value, 0) - 4, q);
    }
  }

  lemma EarlyFeeds(read: Reader, h: Host, header: seq<Byte>, transaction: nat)
    requires Exact(read) && |header| == HEADER_BYTES
    ensures EarlyResponse(read, h, header, transaction).host.calls == h.calls
  {
    if ValidResponseLength(Le32(header, 0)) {
      assert Takes(h, Le32(header, 0) - HEADER_BYTES, read(h, Le32(header, 0) - HEADER_BYTES));
    }
  }

  /** The sink is untouched, or was offered only what the run asked for. */
  predicate Offered(h: Host, last: Host, operation: nat, transaction: nat, expected: Option<nat>, k: nat) {
    || last.calls == h.calls
    || (Announced(h.bytes, operation, transaction, expected)
        && Fed(h.calls, last.calls, Le32(h.bytes, 0) - HEADER_BYTES, h.bytes[HEADER_BYTES..], k))
  }

  lemma SendFeeds(read: Reader, h: Host, operation: nat, transaction: nat, expected: Option<nat>) returns (k: nat)
    requires Exact(read)
    ensures Offered(h, AfterSend(read, h, operation, transaction, expected).host, operation, transaction, expected, k)
  {
    k := 0;
    var r := read(h, HEADER_BYTES);
    assert Takes(h, HEADER_BYTES, r);
    if r.Went? && Le32(r.value, 0) >= HEADER_BYTES {
      if Le16(r.value, 4) == RESPONSE_TYPE {
        EarlyFeeds(read, r.host, r.value, transaction);
      } else if Announced(h.bytes, operation, transaction, expected) {
        k := DataFeeds(read, r.host, transaction, Le32(r.value, 0) - HEADER_BYTES);
      }
    }
  }

  lemma OfferedAlike(a: Host, b: Host, last: Host, operation: nat, transaction: nat, expected: Option<nat>, k: nat)
    requires a.bytes == b.bytes && a.calls == b.calls
    ensures Offered(a, last, operation, transaction, expected, k)
         == Offered(b, last, operation, transaction, expected, k)
  {}

  /** However a run ends, the sink is untouched, or has a prefix of the payload the run asked for, in order. */
  lemma SinkSees(h: Host, operation: nat, transaction: nat, expected: Option<nat>) returns (k: nat)
    ensures Offered(h, Transact(h, operation, transaction, expected).host, operation, transaction, expected, k)
  {
    k := 0;
    var p := Ask(h);
    if p.Went? && Ask(p.host).Went? {
      ExactReads();
      var q := Ask(p.host).host;
      k := SendFeeds(ExactReader(), q, operation, transaction, expected);
      OfferedAlike(h, q, Transact(h, operation, transaction, expected).host, operation, transaction, expected, k);
    }
  }
}
