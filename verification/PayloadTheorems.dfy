// What the payload validator rejects, said of the metadata itself: each fault
// code, and which metadata draws none.
module PayloadTheorems {
  import opened Options
  import opened Payload
  import Hex

  // ----- ranges -----

  predicate Fits(r: Range) { r.offset + r.length < U64_LIMIT }

  /** Behind the first `n` ranges, contiguous text goes on at `at`: the end of the last one whose end can be told. */
  ghost predicate GoesOnAt(ranges: seq<Range>, n: nat, at: nat)
    requires n <= |ranges|
  {
    || (at == 0 && forall j :: 0 <= j < n ==> !Fits(ranges[j]))
    || exists j :: 0 <= j < n && Fits(ranges[j]) && at == ranges[j].offset + ranges[j].length
                   && forall k :: j < k < n ==> !Fits(ranges[k])
  }

  ghost predicate OutOfPlace(ranges: seq<Range>, i: nat)
    requires i < |ranges|
  {
    ranges[i].length == 0 || !GoesOnAt(ranges, i, ranges[i].offset)
  }

  lemma {:induction false} WalkEnds(wellFormed: string -> bool, ranges: seq<Range>, n: nat, at: nat)
    requires n <= |ranges|
    ensures GoesOnAt(ranges, n, at) <==> at == WalkRanges(wellFormed, ranges[..n]).0
  {
    if n > 0 {
      assert ranges[..n][..n - 1] == ranges[..n - 1] && ranges[..n][n - 1] == ranges[n - 1];
      WalkEnds(wellFormed, ranges, n - 1, at);
      if !Fits(ranges[n - 1]) { SkipsUnfit(ranges, n, at); } else { StopsAtFit(ranges, n, at); }
    }
  }

  lemma SkipsUnfit(ranges: seq<Range>, n: nat, at: nat)
    requires 0 < n <= |ranges| && !Fits(ranges[n - 1])
    ensures GoesOnAt(ranges, n, at) <==> GoesOnAt(ranges, n - 1, at)
  {}

  lemma StopsAtFit(ranges: seq<Range>, n: nat, at: nat)
    requires 0 < n <= |ranges| && Fits(ranges[n - 1])
    ensures GoesOnAt(ranges, n, at) <==> at == ranges[n - 1].offset + ranges[n - 1].length
  {}

  ghost predicate SomeBadSha(wellFormed: string -> bool, ranges: seq<Range>, n: nat)
    requires n <= |ranges|
  {
    exists i :: 0 <= i < n && !wellFormed(ranges[i].sha256)
  }

  ghost predicate SomeOutOfPlace(ranges: seq<Range>, n: nat)
    requires n <= |ranges|
  {
    exists i: nat :: i < n && OutOfPlace(ranges, i)
  }

  ghost predicate SomeOverflow(ranges: seq<Range>, n: nat)
    requires n <= |ranges|
  {
    exists i :: 0 <= i < n && !Fits(ranges[i])
  }

  lemma OneMoreRange(wellFormed: string -> bool, ranges: seq<Range>, n: nat)
    requires 0 < n <= |ranges|
    ensures SomeBadSha(wellFormed, ranges, n)
            <==> SomeBadSha(wellFormed, ranges, n - 1) || !wellFormed(ranges[n - 1].sha256)
    ensures SomeOutOfPlace(ranges, n) <==> SomeOutOfPlace(ranges, n - 1) || OutOfPlace(ranges, n - 1)
    ensures SomeOverflow(ranges, n) <==> SomeOverflow(ranges, n - 1) || !Fits(ranges[n - 1])
  {}

  lemma WalkStep(wellFormed: string -> bool, ranges: seq<Range>, n: nat)
    requires 0 < n <= |ranges|
    ensures var (at, before), r := WalkRanges(wellFormed, ranges[..n - 1]), ranges[n - 1];
      WalkRanges(wellFormed, ranges[..n]).1
      == before + (if wellFormed(r.sha256) then {} else {BAD_SHA})
         + (if r.length == 0 || r.offset != at then {BAD_RANGE} else {}) + if Fits(r) then {} else {RANGE_OVERFLOW}
  {
    assert ranges[..n][..n - 1] == ranges[..n - 1] && ranges[..n][n - 1] == ranges[n - 1];
  }

  /** The faults of the first `n` ranges, one by one. */
  lemma {:induction false} WalkFaults(wellFormed: string -> bool, ranges: seq<Range>, n: nat)
    requires n <= |ranges|
    ensures var faults := WalkRanges(wellFormed, ranges[..n]).1;
      && faults <= {BAD_SHA, BAD_RANGE, RANGE_OVERFLOW}
      && (BAD_SHA in faults <==> SomeBadSha(wellFormed, ranges, n))
      && (BAD_RANGE in faults <==> SomeOutOfPlace(ranges, n))
      && (RANGE_OVERFLOW in faults <==> SomeOverflow(ranges, n))
  {
    if n > 0 {
      WalkFaults(wellFormed, ranges, n - 1);
      WalkStep(wellFormed, ranges, n);
      WalkEnds(wellFormed, ranges, n - 1, ranges[n - 1].offset);
      OneMoreRange(wellFormed, ranges, n);
    }
  }

  // ----- inline text -----

  /** The text is the canonical hexadecimal of these bytes. */
  ghost predicate Spells(text: string, bytes: seq<int>) { Hex.AllBytes(bytes) && Hex.Encode(bytes) == text }

  lemma SpeltOnce(text: string)
    ensures Hex.Decode(text).None? <==> forall bytes :: !Spells(text, bytes)
    ensures forall bytes :: Spells(text, bytes) <==> Hex.Decode(text) == Some(bytes)
  {
    forall bytes ensures Spells(text, bytes) <==> Hex.Decode(text) == Some(bytes) {
      if Spells(text, bytes) { Hex.RoundTrip(bytes); }
      if Hex.Decode(text) == Some(bytes) { Hex.CanonicalText(text); }
    }
    if Hex.Decode(text).Some? { assert Spells(text, Hex.Decode(text).value); }
  }

  /** The artifact lengths add up: what `Total` is, without its recursion. */
  lemma {:induction false} TotalAdds(a: seq<nat>, b: seq<nat>)
    ensures Total(a + b) == Total(a) + Total(b) && Total([]) == 0
    ensures |a| == 1 ==> Total(a) == a[0]
    decreases |b|
  {
    if b == [] {
      assert a + b == a;
    } else {
      var n := |b| - 1;
      assert (a + b)[..|a + b| - 1] == a + b[..n];
      TotalAdds(a, b[..n]);
    }
  }

  // ----- every code -----

  /** Where a payload's faults come from. */
  function LengthFaults(m: Metadata): set<nat> {
    if m.inlineHex.Some? || m.length == 0 then {}
    else (if m.streamRanges == [] then {NO_RANGES} else {})
         + if m.artifactLengths != [] && Total(m.artifactLengths) != m.length then {ARTIFACT_LENGTH} else {}
  }

  function TextFaults(digest: Digest, m: Metadata): set<nat> {
    if m.inlineHex.Some? then InlineFaults(digest, m) else {}
  }

  function RangeFaults(wellFormed: string -> bool, m: Metadata): set<nat> {
    (if wellFormed(m.sha256) then {} else {BAD_SHA}) + WalkRanges(wellFormed, m.streamRanges).1
    + if m.streamRanges != [] && WalkRanges(wellFormed, m.streamRanges).0 != m.length then {RANGES_SHORT} else {}
  }

  lemma FaultParts(digest: Digest, wellFormed: string -> bool, m: Metadata)
    ensures PayloadFaults(digest, wellFormed, m)
            == RangeFaults(wellFormed, m) + TextFaults(digest, m) + LengthFaults(m)
  {}

  const RANGE_CODES := {BAD_SHA, BAD_RANGE, RANGE_OVERFLOW, RANGES_SHORT}
  const TEXT_CODES := {INLINE_TOO_LONG, BAD_HEX, INLINE_LENGTH, INLINE_SHA}
  const LENGTH_CODES := {NO_RANGES, ARTIFACT_LENGTH}

  lemma RangeFaultsMean(wellFormed: string -> bool, m: Metadata)
    ensures var faults, ranges := RangeFaults(wellFormed, m), m.streamRanges;
      && faults <= RANGE_CODES
      && (BAD_SHA in faults <==> !wellFormed(m.sha256) || SomeBadSha(wellFormed, ranges, |ranges|))
      && (BAD_RANGE in faults <==> SomeOutOfPlace(ranges, |ranges|))
      && (RANGE_OVERFLOW in faults <==> SomeOverflow(ranges, |ranges|))
      && (RANGES_SHORT in faults <==> ranges != [] && !GoesOnAt(ranges, |ranges|, m.length))
  {
    var n := |m.streamRanges|;
    assert m.streamRanges[..n] == m.streamRanges;
    WalkFaults(wellFormed, m.streamRanges, n);
    WalkEnds(wellFormed, m.streamRanges, n, m.length);
  }

  lemma TextFaultsMean(digest: Digest, m: Metadata)
    ensures var faults := TextFaults(digest, m);
      && faults <= TEXT_CODES && (m.inlineHex.None? ==> faults == {})
      && (m.inlineHex.Some? ==> var text := m.inlineHex.value;
            && (INLINE_TOO_LONG in faults <==> m.length > MAX_INLINE_PAYLOAD_BYTES)
            && (BAD_HEX in faults <==> forall bytes :: !Spells(text, bytes))
            && (INLINE_LENGTH in faults <==> exists bytes :: Spells(text, bytes) && |bytes| != m.length)
            && (INLINE_SHA in faults <==> exists bytes :: Spells(text, bytes) && digest(bytes) != m.sha256))
  {
    if m.inlineHex.Some? { SpeltOnce(m.inlineHex.value); }
  }

  lemma LengthFaultsMean(m: Metadata)
    ensures var faults := LengthFaults(m);
      && faults <= LENGTH_CODES
      && (NO_RANGES in faults <==> m.inlineHex.None? && m.length > 0 && m.streamRanges == [])
      && (ARTIFACT_LENGTH in faults <==> m.inlineHex.None? && m.length > 0 && m.artifactLengths != []
                                         && Total(m.artifactLengths) != m.length)
  {}

  /** When each code is reported, said of the metadata. */
  ghost predicate Deserves(digest: Digest, wellFormed: string -> bool, m: Metadata, code: nat) {
    var ranges := m.streamRanges;
    if code == BAD_SHA then !wellFormed(m.sha256) || SomeBadSha(wellFormed, ranges, |ranges|)
    else if code == BAD_RANGE then SomeOutOfPlace(ranges, |ranges|)
    else if code == RANGE_OVERFLOW then SomeOverflow(ranges, |ranges|)
    else if code == RANGES_SHORT then ranges != [] && !GoesOnAt(ranges, |ranges|, m.length)
    else if code in TEXT_CODES then m.inlineHex.Some? && Misspelt(digest, m.inlineHex.value, m, code)
    else if code == NO_RANGES then m.inlineHex.None? && m.length > 0 && ranges == []
    else code == ARTIFACT_LENGTH && m.inlineHex.None? && m.length > 0 && m.artifactLengths != []
         && Total(m.artifactLengths) != m.length
  }

  ghost predicate Misspelt(digest: Digest, text: string, m: Metadata, code: nat) {
    if code == INLINE_TOO_LONG then m.length > MAX_INLINE_PAYLOAD_BYTES
    else if code == BAD_HEX then forall bytes :: !Spells(text, bytes)
    else if code == INLINE_LENGTH then exists bytes :: Spells(text, bytes) && |bytes| != m.length
    else exists bytes :: Spells(text, bytes) && digest(bytes) != m.sha256
  }

  /** A code is reported exactly when it is deserved; there are no others. */
  lemma FaultsMean(digest: Digest, wellFormed: string -> bool, m: Metadata, code: nat)
    ensures code in PayloadFaults(digest, wellFormed, m) <==> Deserves(digest, wellFormed, m, code)
  {
    FaultParts(digest, wellFormed, m);
    RangeFaultsMean(wellFormed, m);
    TextFaultsMean(digest, m);
    LengthFaultsMean(m);
  }

  // ----- no code at all -----

  /** Nonempty ranges, end to end from zero, none past what 64 bits can tell. */
  ghost predicate Contiguous(ranges: seq<Range>) {
    forall i :: 0 <= i < |ranges| ==>
      ranges[i].length > 0 && Fits(ranges[i]) && ranges[i].offset == EndBefore(ranges, i)
  }

  function EndBefore(ranges: seq<Range>, i: nat): nat
    requires i <= |ranges|
  {
    if i == 0 then 0 else ranges[i - 1].offset + ranges[i - 1].length
  }

  ghost predicate InlineKept(digest: Digest, m: Metadata)
    requires m.inlineHex.Some?
  {
    m.length <= MAX_INLINE_PAYLOAD_BYTES
    && exists bytes :: Spells(m.inlineHex.value, bytes) && |bytes| == m.length && digest(bytes) == m.sha256
  }

  /** The metadata accounts for its payload. */
  ghost predicate Accounted(digest: Digest, wellFormed: string -> bool, m: Metadata) {
    && wellFormed(m.sha256) && (forall i :: 0 <= i < |m.streamRanges| ==> wellFormed(m.streamRanges[i].sha256))
    && Contiguous(m.streamRanges)
    && (m.streamRanges != [] ==> EndBefore(m.streamRanges, |m.streamRanges|) == m.length)
    && (m.inlineHex.Some? ==> InlineKept(digest, m))
    && (m.inlineHex.None? && m.length > 0 ==>
          m.streamRanges != [] && (m.artifactLengths != [] ==> Total(m.artifactLengths) == m.length))
  }

  lemma FitEnd(ranges: seq<Range>, i: nat, at: nat)
    requires i <= |ranges| && forall j :: 0 <= j < |ranges| ==> Fits(ranges[j])
    ensures GoesOnAt(ranges, i, at) <==> at == EndBefore(ranges, i)
  {
    if i > 0 { StopsAtFit(ranges, i, at); }
  }

  lemma PlacedContiguous(ranges: seq<Range>)
    ensures Contiguous(ranges) <==> !SomeOutOfPlace(ranges, |ranges|) && !SomeOverflow(ranges, |ranges|)
  {
    if !SomeOverflow(ranges, |ranges|) {
      forall i: nat | i < |ranges|
        ensures !OutOfPlace(ranges, i) <==> ranges[i].length > 0 && ranges[i].offset == EndBefore(ranges, i)
      {
        FitEnd(ranges, i, ranges[i].offset);
      }
    }
  }

  lemma InlineAccepted(digest: Digest, m: Metadata)
    requires m.inlineHex.Some?
    ensures InlineKept(digest, m) <==> TextFaults(digest, m) == {}
  {
    SpeltOnce(m.inlineHex.value);
  }

  lemma RangesAccepted(wellFormed: string -> bool, m: Metadata)
    ensures RangeFaults(wellFormed, m) == {} <==>
            && wellFormed(m.sha256) && (forall i :: 0 <= i < |m.streamRanges| ==> wellFormed(m.streamRanges[i].sha256))
            && Contiguous(m.streamRanges)
            && (m.streamRanges != [] ==> EndBefore(m.streamRanges, |m.streamRanges|) == m.length)
  {
    var faults := RangeFaults(wellFormed, m);
    RangeFaultsMean(wellFormed, m);
    PlacedContiguous(m.streamRanges);
    if Contiguous(m.streamRanges) { FitEnd(m.streamRanges, |m.streamRanges|, m.length); }
    assert faults == {} <==> BAD_SHA !in faults && BAD_RANGE !in faults && RANGE_OVERFLOW !in faults
                             && RANGES_SHORT !in faults;
  }

  /** Metadata passes validation if and only if it accounts for its payload. */
  lemma AcceptedIffAccounted(digest: Digest, wellFormed: string -> bool, m: Metadata)
    ensures PayloadFaults(digest, wellFormed, m) == {} <==> Accounted(digest, wellFormed, m)
  {
    FaultParts(digest, wellFormed, m);
    RangesAccepted(wellFormed, m);
    if m.inlineHex.Some? { InlineAccepted(digest, m); }
  }
}
