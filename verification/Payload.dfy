// Summaries of payloads: an incremental builder, and the independently written
// check every summary must pass. A hasher is modelled as the bytes fed to it.
module Payload {
  import opened Options
  import Hex

  const MAX_INLINE_PAYLOAD_BYTES: nat := 4096
  const STREAM_RANGE_BYTES: nat := 65536
  const U64_LIMIT: nat := 0x1_0000_0000_0000_0000

  datatype Range = Range(offset: nat, length: nat, sha256: string)

  datatype Metadata = Metadata(length: nat, sha256: string, inlineHex: Option<string>, streamRanges: seq<Range>,
                               artifactLengths: seq<nat>)

  type Digest = seq<int> -> string

  // ----- the summary of a byte string -----

  /** The first `n` full ranges. */
  function FullRanges(digest: Digest, bytes: seq<int>, n: nat): seq<Range>
    requires n * STREAM_RANGE_BYTES <= |bytes|
  {
    if n == 0 then []
    else
      FullRanges(digest, bytes, n - 1)
      + [Range((n - 1) * STREAM_RANGE_BYTES, STREAM_RANGE_BYTES,
               digest(bytes[(n - 1) * STREAM_RANGE_BYTES..n * STREAM_RANGE_BYTES]))]
  }

  function Whole(bytes: seq<int>): (n: nat)
    ensures n * STREAM_RANGE_BYTES <= |bytes| < (n + 1) * STREAM_RANGE_BYTES
  {
    |bytes| / STREAM_RANGE_BYTES
  }

  function Tail(bytes: seq<int>): seq<int> { bytes[Whole(bytes) * STREAM_RANGE_BYTES..] }

  function AllRanges(digest: Digest, bytes: seq<int>): seq<Range> {
    FullRanges(digest, bytes, Whole(bytes))
    + (if Tail(bytes) == [] then [] else [Range(|bytes| - |Tail(bytes)|, |Tail(bytes)|, digest(Tail(bytes)))])
  }

  /** Short payloads are kept inline, long ones by their ranges. */
  function Summary(digest: Digest, bytes: seq<int>): Metadata {
    if |bytes| <= MAX_INLINE_PAYLOAD_BYTES then Metadata(|bytes|, digest(bytes), Some(Hex.Encode(bytes)), [], [])
    else Metadata(|bytes|, digest(bytes), None, AllRanges(digest, bytes), [])
  }

  lemma {:induction false} RangesOfPrefix(digest: Digest, a: seq<int>, b: seq<int>, n: nat)
    requires n * STREAM_RANGE_BYTES <= |a| && a <= b
    ensures FullRanges(digest, a, n) == FullRanges(digest, b, n)
  {
    if n > 0 {
      RangesOfPrefix(digest, a, b, n - 1);
      var lo, hi := (n - 1) * STREAM_RANGE_BYTES, n * STREAM_RANGE_BYTES;
      assert a[lo..hi] == b[lo..hi];
    }
  }

  lemma WholeUnique(bytes: seq<int>, n: nat)
    requires n * STREAM_RANGE_BYTES <= |bytes| < (n + 1) * STREAM_RANGE_BYTES
    ensures Whole(bytes) == n
  {}

  lemma TailExtends(before: seq<int>, piece: seq<int>)
    ensures var lo := Whole(before) * STREAM_RANGE_BYTES;
      lo <= |before| && (before + piece)[lo..] == Tail(before) + piece
  {}

  lemma StaysOpen(digest: Digest, before: seq<int>, piece: seq<int>)
    requires |Tail(before)| + |piece| < STREAM_RANGE_BYTES
    ensures var after, n := before + piece, Whole(before);
      Whole(after) == n && Tail(after) == Tail(before) + piece
        && FullRanges(digest, after, n) == FullRanges(digest, before, n)
  {
    TailExtends(before, piece);
    RangesOfPrefix(digest, before, before + piece, Whole(before));
    WholeUnique(before + piece, Whole(before));
  }

  lemma Closes(digest: Digest, before: seq<int>, piece: seq<int>)
    requires |Tail(before)| + |piece| == STREAM_RANGE_BYTES
    ensures var after, n := before + piece, Whole(before);
      Whole(after) == n + 1 && Tail(after) == []
      && FullRanges(digest, after, n + 1)
         == FullRanges(digest, before, n) + [Range(|after| - STREAM_RANGE_BYTES, STREAM_RANGE_BYTES,
                                                   digest(Tail(before) + piece))]
  {
    var after, n := before + piece, Whole(before);
    TailExtends(before, piece);
    RangesOfPrefix(digest, before, after, n);
    WholeUnique(after, n + 1);
    assert after[n * STREAM_RANGE_BYTES..(n + 1) * STREAM_RANGE_BYTES] == after[n * STREAM_RANGE_BYTES..];
  }

  // ----- building it piece by piece -----

  class PayloadMetadataBuilder {
    const digest: Digest
    var length: nat
    var hasher: seq<int>
    var inline: Option<seq<int>>
    var streamRanges: seq<Range>
    var pendingRangeLength: nat
    var pendingRangeHasher: seq<int>

    /** The fields agree with the bytes seen so far. */
    ghost predicate Valid()
      reads this
    {
      && length == |hasher|
      && inline == (if |hasher| <= MAX_INLINE_PAYLOAD_BYTES then Some(hasher) else None)
      && Ranged(hasher)
    }

    ghost predicate Ranged(seen: seq<int>)
      reads this`streamRanges, this`pendingRangeLength, this`pendingRangeHasher
    {
      && streamRanges == FullRanges(digest, seen, Whole(seen))
      && pendingRangeHasher == Tail(seen) && pendingRangeLength == |Tail(seen)| < STREAM_RANGE_BYTES
    }

    constructor (digest: Digest)
      ensures this.digest == digest && Valid() && hasher == []
    {
      this.digest := digest;
      length, hasher, inline := 0, [], Some([]);
      streamRanges, pendingRangeLength, pendingRangeHasher := [], 0, [];
    }

    method Update(bytes: seq<int>)
      requires Valid()
      modifies this
      ensures Valid() && hasher == old(hasher) + bytes
    {
      hasher := hasher + bytes;
      KeepInline(bytes);
      AbsorbAll(bytes, old(hasher));
    }

    /** Cut the bytes where ranges end. */
    method AbsorbAll(bytes: seq<int>, ghost before: seq<int>)
      requires Ranged(before) && length == |before|
      modifies this`length, this`streamRanges, this`pendingRangeLength, this`pendingRangeHasher
      ensures Ranged(before + bytes) && length == |before| + |bytes|
    {
      var done := 0;
      assert before + bytes[..0] == before;
      while done < |bytes|
        invariant done <= |bytes| && length == |before| + done && Ranged(before + bytes[..done])
      {
        var available := STREAM_RANGE_BYTES - pendingRangeLength;
        var take := if available < |bytes| - done then available else |bytes| - done;
        var chunk := bytes[done..done + take];
        assert before + bytes[..done] + chunk == before + bytes[..done + take];
        Absorb(chunk, before + bytes[..done]);
        done := done + take;
      }
      assert bytes[..|bytes|] == bytes;
    }

    method KeepInline(bytes: seq<int>)
      modifies this`inline
      ensures inline == if old(inline).Some? && |old(inline).value| + |bytes| <= MAX_INLINE_PAYLOAD_BYTES
                        then Some(old(inline).value + bytes) else None
    {
      if inline.Some? && |inline.value| + |bytes| <= MAX_INLINE_PAYLOAD_BYTES {
        inline := Some(inline.value + bytes);
      } else {
        inline := None;
      }
    }

    /** Put a piece that fits into the open range. */
    method Absorb(chunk: seq<int>, ghost seen: seq<int>)
      requires Ranged(seen) && length == |seen| && pendingRangeLength + |chunk| <= STREAM_RANGE_BYTES
      modifies this`length, this`streamRanges, this`pendingRangeLength, this`pendingRangeHasher
      ensures Ranged(seen + chunk) && length == |seen| + |chunk|
    {
      if pendingRangeLength + |chunk| < STREAM_RANGE_BYTES {
        StaysOpen(digest, seen, chunk);
      } else {
        Closes(digest, seen, chunk);
      }
      pendingRangeHasher := pendingRangeHasher + chunk;
      pendingRangeLength := pendingRangeLength + |chunk|;
      length := length + |chunk|;
      if pendingRangeLength == STREAM_RANGE_BYTES { FinishPendingRange(); }
    }

    method FinishPendingRange()
      requires pendingRangeLength <= length
      modifies this`streamRanges, this`pendingRangeLength, this`pendingRangeHasher
      ensures streamRanges == old(streamRanges)
              + [Range(length - old(pendingRangeLength), old(pendingRangeLength), digest(old(pendingRangeHasher)))]
      ensures pendingRangeLength == 0 && pendingRangeHasher == []
    {
      streamRanges := streamRanges + [Range(length - pendingRangeLength, pendingRangeLength,
                                            digest(pendingRangeHasher))];
      pendingRangeLength, pendingRangeHasher := 0, [];
    }

    /** What is summarized is the bytes seen, however they were split across updates. */
    method CurrentMetadata() returns (m: Metadata)
      requires Valid()
      ensures m == Summary(digest, hasher)
    {
      var ranges := streamRanges;
      if pendingRangeLength > 0 {
        ranges := ranges + [Range(length - pendingRangeLength, pendingRangeLength, digest(pendingRangeHasher))];
      }
      var text: Option<string> := None;
      if inline.Some? {
        var written := Hex.Write(inline.value);
        text := Some(written);
      }
      m := Metadata(length, digest(hasher), text, if inline.None? then ranges else [], []);
    }
  }

  method Summarize(digest: Digest, pieces: seq<seq<int>>) returns (m: Metadata)
    ensures m == Summary(digest, Joined(pieces))
  {
    var builder := new PayloadMetadataBuilder(digest);
    for i := 0 to |pieces|
      invariant builder.Valid() && builder.digest == digest && fresh(builder)
      invariant builder.hasher == Joined(pieces[..i])
    {
      assert pieces[..i + 1][..i] == pieces[..i];
      builder.Update(pieces[i]);
    }
    assert pieces[..|pieces|] == pieces;
    m := builder.CurrentMetadata();
  }

  function Joined(pieces: seq<seq<int>>): seq<int> {
    if pieces == [] then [] else Joined(pieces[..|pieces| - 1]) + pieces[|pieces| - 1]
  }

  // ----- the validator -----

  const BAD_SHA: nat := 61
  const BAD_RANGE: nat := 86
  const RANGE_OVERFLOW: nat := 87
  const RANGES_SHORT: nat := 88
  const INLINE_TOO_LONG: nat := 80
  const BAD_HEX: nat := 81
  const INLINE_LENGTH: nat := 82
  const INLINE_SHA: nat := 83
  const NO_RANGES: nat := 84
  const ARTIFACT_LENGTH: nat := 85

  /** The end of the last range and what was wrong on the way there. */
  function WalkRanges(wellFormed: string -> bool, ranges: seq<Range>): (nat, set<nat>) {
    if ranges == [] then (0, {})
    else
      var n := |ranges| - 1;
      var (offset, faults) := WalkRanges(wellFormed, ranges[..n]);
      var r := ranges[n];
      var seen := faults + (if wellFormed(r.sha256) then {} else {BAD_SHA})
                  + (if r.length == 0 || r.offset != offset then {BAD_RANGE} else {});
      if r.offset + r.length >= U64_LIMIT then (offset, seen + {RANGE_OVERFLOW}) else (r.offset + r.length, seen)
  }

  function Total(lengths: seq<nat>): nat {
    if lengths == [] then 0 else Total(lengths[..|lengths| - 1]) + lengths[|lengths| - 1]
  }

  function InlineFaults(digest: Digest, m: Metadata): set<nat>
    requires m.inlineHex.Some?
  {
    (if m.length > MAX_INLINE_PAYLOAD_BYTES then {INLINE_TOO_LONG} else {})
    + match Hex.Decode(m.inlineHex.value)
      case None => {BAD_HEX}
      case Some(bytes) =>
        (if |bytes| != m.length then {INLINE_LENGTH} else {}) + (if digest(bytes) != m.sha256 then {INLINE_SHA} else {})
  }

  /** Everything a payload's metadata is rejected for; artifact ranges are checked elsewhere. */
  function PayloadFaults(digest: Digest, wellFormed: string -> bool, m: Metadata): set<nat> {
    var (end, walked) := WalkRanges(wellFormed, m.streamRanges);
    (if wellFormed(m.sha256) then {} else {BAD_SHA}) + walked
    + (if m.streamRanges != [] && end != m.length then {RANGES_SHORT} else {})
    + (if m.inlineHex.Some? then InlineFaults(digest, m)
       else if m.length == 0 then {}
       else (if m.streamRanges == [] then {NO_RANGES} else {})
            + (if m.artifactLengths != [] && Total(m.artifactLengths) != m.length then {ARTIFACT_LENGTH} else {}))
  }

  lemma {:induction false} FullRangesWalk(digest: Digest, wellFormed: string -> bool, bytes: seq<int>, n: nat)
    requires (forall b :: wellFormed(digest(b))) && n * STREAM_RANGE_BYTES <= |bytes| < U64_LIMIT
    ensures |FullRanges(digest, bytes, n)| == n
    ensures WalkRanges(wellFormed, FullRanges(digest, bytes, n)) == (n * STREAM_RANGE_BYTES, {})
  {
    if n > 0 {
      FullRangesWalk(digest, wellFormed, bytes, n - 1);
      var ranges := FullRanges(digest, bytes, n);
      assert ranges[..n - 1] == FullRanges(digest, bytes, n - 1);
    }
  }

  lemma AllRangesWalk(digest: Digest, wellFormed: string -> bool, bytes: seq<int>)
    requires (forall b :: wellFormed(digest(b))) && |bytes| < U64_LIMIT
    ensures WalkRanges(wellFormed, AllRanges(digest, bytes)) == (|bytes|, {})
    ensures AllRanges(digest, bytes) == [] <==> bytes == []
  {
    var n := Whole(bytes);
    FullRangesWalk(digest, wellFormed, bytes, n);
    var full, all := FullRanges(digest, bytes, n), AllRanges(digest, bytes);
    if Tail(bytes) == [] {
      assert all == full;
    } else {
      assert all[..n] == full;
    }
  }

  /** Every summary of a byte string passes validation: its ranges account for it, its text decodes to it. */
  lemma SummariesValid(digest: Digest, wellFormed: string -> bool, bytes: seq<int>)
    requires (forall b :: wellFormed(digest(b))) && Hex.AllBytes(bytes) && |bytes| < U64_LIMIT
    ensures PayloadFaults(digest, wellFormed, Summary(digest, bytes)) == {}
  {
    if |bytes| <= MAX_INLINE_PAYLOAD_BYTES {
      Hex.RoundTrip(bytes);
    } else {
      AllRangesWalk(digest, wellFormed, bytes);
    }
  }

  method ValidatePayload(digest: Digest, wellFormed: string -> bool, m: Metadata) returns (faults: set<nat>)
    ensures faults == PayloadFaults(digest, wellFormed, m)
  {
    faults := if wellFormed(m.sha256) then {} else {BAD_SHA};
    var end, walked := WalkAll(wellFormed, m.streamRanges);
    faults := faults + walked;
    if m.streamRanges != [] && end != m.length { faults := faults + {RANGES_SHORT}; }
    if m.inlineHex.Some? {
      if m.length > MAX_INLINE_PAYLOAD_BYTES { faults := faults + {INLINE_TOO_LONG}; }
      var bytes := Hex.Decode(m.inlineHex.value);
      if bytes.None? { return faults + {BAD_HEX}; }
      if |bytes.value| != m.length { faults := faults + {INLINE_LENGTH}; }
      if digest(bytes.value) != m.sha256 { faults := faults + {INLINE_SHA}; }
    } else if m.length > 0 {
      if m.streamRanges == [] { faults := faults + {NO_RANGES}; }
      var total := Sum(m.artifactLengths);
      if m.artifactLengths != [] && total != m.length { faults := faults + {ARTIFACT_LENGTH}; }
    }
  }

  method WalkAll(wellFormed: string -> bool, ranges: seq<Range>) returns (end: nat, faults: set<nat>)
    ensures (end, faults) == WalkRanges(wellFormed, ranges)
  {
    end, faults := 0, {};
    for i := 0 to |ranges|
      invariant (end, faults) == WalkRanges(wellFormed, ranges[..i])
    {
      assert ranges[..i + 1][..i] == ranges[..i];
      faults := faults + (if wellFormed(ranges[i].sha256) then {} else {BAD_SHA});
      faults := faults + (if ranges[i].length == 0 || ranges[i].offset != end then {BAD_RANGE} else {});
      if ranges[i].offset + ranges[i].length >= U64_LIMIT {
        faults := faults + {RANGE_OVERFLOW};
      } else {
        end := ranges[i].offset + ranges[i].length;
      }
    }
    assert ranges[..|ranges|] == ranges;
  }

  method Sum(lengths: seq<nat>) returns (total: nat)
    ensures total == Total(lengths)
  {
    total := 0;
    for i := 0 to |lengths|
      invariant total == Total(lengths[..i])
    {
      assert lengths[..i + 1][..i] == lengths[..i];
      total := total + lengths[i];
    }
    assert lengths[..|lengths|] == lengths;
  }
}
