// Which thumbnail the parser finds, for every byte string: told by where the
// bytes point, in either byte order, past any number of other segments.
module ThumbnailIff {
  import opened Options
  import opened Thumbnail

  // ----- directories -----

  const OFFSET_TAG: nat := 0x0201
  const LENGTH_TAG: nat := 0x0202

  function EntryAt(ifd: nat, i: nat): nat { ifd + 2 + i * 12 }

  predicate Tagged(tiff: seq<int>, e: Endian, at: nat, tag: int) { at + 2 <= |tiff| && U16(tiff, at, e) == tag }

  /** A single number of 16 or 32 bits. */
  predicate Single(tiff: seq<int>, e: Endian, at: nat, v: int) {
    && at + 8 <= |tiff| && U32(tiff, at + 4, e) == 1
    && ((U16(tiff, at + 2, e) == 3 && at + 10 <= |tiff| && v == U16(tiff, at + 8, e))
        || (U16(tiff, at + 2, e) == 4 && at + 12 <= |tiff| && v == U32(tiff, at + 8, e)))
  }

  /** The entry can be read as far as it matters. */
  ghost predicate Readable(tiff: seq<int>, e: Endian, at: nat) {
    && at + 2 <= |tiff|
    && (U16(tiff, at, e) == OFFSET_TAG || U16(tiff, at, e) == LENGTH_TAG ==> exists v :: Single(tiff, e, at, v))
  }

  /** Of the first `n` entries, the last with the tag holds `v`. */
  ghost predicate LastTagged(tiff: seq<int>, e: Endian, ifd: nat, n: nat, tag: int, v: int) {
    exists i :: 0 <= i < n && Tagged(tiff, e, EntryAt(ifd, i), tag) && Single(tiff, e, EntryAt(ifd, i), v)
                && forall j :: i < j < n ==> !Tagged(tiff, e, EntryAt(ifd, j), tag)
  }

  ghost predicate NoneTagged(tiff: seq<int>, e: Endian, ifd: nat, n: nat, tag: int) {
    forall i :: 0 <= i < n ==> !Tagged(tiff, e, EntryAt(ifd, i), tag)
  }

  lemma EntryIs(tiff: seq<int>, e: Endian, at: nat, v: int)
    requires Bytes(tiff)
    ensures IfdEntry(tiff, at, e) == Some(v) <==> Single(tiff, e, at, v)
    ensures IfdEntry(tiff, at, e).Some? <==> exists w :: Single(tiff, e, at, w)
  {
    if IfdEntry(tiff, at, e).Some? { assert Single(tiff, e, at, IfdEntry(tiff, at, e).value); }
  }

  /** What was read for a tag so far. */
  ghost predicate ReadSo(tiff: seq<int>, e: Endian, ifd: nat, n: nat, tag: int, got: Option<nat>) {
    if got.None? then NoneTagged(tiff, e, ifd, n, tag) else LastTagged(tiff, e, ifd, n, tag, got.value)
  }

  lemma ReadOneMore(tiff: seq<int>, e: Endian, ifd: nat, n: nat, tag: int, got: Option<nat>, now: Option<nat>)
    requires n > 0 && ReadSo(tiff, e, ifd, n - 1, tag, got)
    requires if Tagged(tiff, e, EntryAt(ifd, n - 1), tag)
             then now.Some? && Single(tiff, e, EntryAt(ifd, n - 1), now.value) else now == got
    ensures ReadSo(tiff, e, ifd, n, tag, now)
  {
    if !Tagged(tiff, e, EntryAt(ifd, n - 1), tag) && got.Some? {
      var i :| 0 <= i < n - 1 && Tagged(tiff, e, EntryAt(ifd, i), tag)
               && Single(tiff, e, EntryAt(ifd, i), got.value)
               && forall j :: i < j < n - 1 ==> !Tagged(tiff, e, EntryAt(ifd, j), tag);
      assert forall j :: i < j < n ==> !Tagged(tiff, e, EntryAt(ifd, j), tag);
    }
  }

  lemma {:induction false} ScanIs(tiff: seq<int>, ifd: nat, e: Endian, n: nat)
    requires Bytes(tiff)
    ensures var r := ScanEntries(tiff, ifd, e, n);
      && (r.Broken? <==> exists i :: 0 <= i < n && !Readable(tiff, e, EntryAt(ifd, i)))
      && (r.Entries? ==> ReadSo(tiff, e, ifd, n, OFFSET_TAG, r.offset) && ReadSo(tiff, e, ifd, n, LENGTH_TAG, r.length))
  {
    if n > 0 {
      ScanIs(tiff, ifd, e, n - 1);
      var before, r, at := ScanEntries(tiff, ifd, e, n - 1), ScanEntries(tiff, ifd, e, n), EntryAt(ifd, n - 1);
      if before.Entries? {
        EntryIs(tiff, e, at, if IfdEntry(tiff, at, e).Some? then IfdEntry(tiff, at, e).value else 0);
        if r.Entries? {
          ReadOneMore(tiff, e, ifd, n, OFFSET_TAG, before.offset, r.offset);
          ReadOneMore(tiff, e, ifd, n, LENGTH_TAG, before.length, r.length);
        }
      }
    }
  }

  // ----- the TIFF structure -----

  predicate InOrder(tiff: seq<int>, e: Endian) {
    |tiff| >= 2 && (if e.Little? then tiff[0] == 0x49 && tiff[1] == 0x49 else tiff[0] == 0x4d && tiff[1] == 0x4d)
  }

  /** The second directory: the link behind the entries of the first. */
  predicate SecondAt(tiff: seq<int>, e: Endian, ifd: nat) {
    && 8 <= |tiff|
    && var first := U32(tiff, 4, e);
       && 0 <= first && first + 2 <= |tiff|
       && var link := first + 2 + U16(tiff, first, e) * 12;
          0 <= link && link + 4 <= |tiff| && ifd == U32(tiff, link, e) != 0
  }

  /** The directory lists an offset and a length. */
  ghost predicate LinksTo(tiff: seq<int>, e: Endian, ifd: nat, span: Span) {
    && ifd + 2 <= |tiff| && U16(tiff, ifd, e) >= 0
    && var n := U16(tiff, ifd, e);
       && (forall i :: 0 <= i < n ==> Readable(tiff, e, EntryAt(ifd, i)))
       && LastTagged(tiff, e, ifd, n, OFFSET_TAG, span.offset) && LastTagged(tiff, e, ifd, n, LENGTH_TAG, span.length)
  }

  /** The structure points at a JPEG inside itself. */
  ghost predicate Points(tiff: seq<int>, span: Span) {
    && (exists e: Endian, ifd: nat :: InOrder(tiff, e) && 4 <= |tiff| && U16(tiff, 2, e) == 42
                                      && SecondAt(tiff, e, ifd) && LinksTo(tiff, e, ifd, span))
    && span.offset + span.length <= |tiff| && span.length >= 2 && StartsJpeg(tiff, span.offset)
  }

  lemma LastOnce(tiff: seq<int>, e: Endian, ifd: nat, n: nat, tag: int, got: Option<nat>, v: int)
    requires ReadSo(tiff, e, ifd, n, tag, got) && LastTagged(tiff, e, ifd, n, tag, v)
    ensures got == Some(v)
  {
    var i :| 0 <= i < n && Tagged(tiff, e, EntryAt(ifd, i), tag) && Single(tiff, e, EntryAt(ifd, i), v)
             && forall j :: i < j < n ==> !Tagged(tiff, e, EntryAt(ifd, j), tag);
    if got.Some? {
      var k :| 0 <= k < n && Tagged(tiff, e, EntryAt(ifd, k), tag) && Single(tiff, e, EntryAt(ifd, k), got.value)
               && forall j :: k < j < n ==> !Tagged(tiff, e, EntryAt(ifd, j), tag);
      assert i == k;
    }
  }

  lemma DirectoryIs(tiff: seq<int>, ifd: nat, e: Endian, span: Span)
    requires Bytes(tiff)
    ensures IfdThumbnail(tiff, ifd, e) == Some(span) <==> LinksTo(tiff, e, ifd, span)
  {
    if ifd + 2 <= |tiff| {
      var n := U16(tiff, ifd, e);
      ScanIs(tiff, ifd, e, n);
      var r := ScanEntries(tiff, ifd, e, n);
      if LinksTo(tiff, e, ifd, span) {
        LastOnce(tiff, e, ifd, n, OFFSET_TAG, r.offset, span.offset);
        LastOnce(tiff, e, ifd, n, LENGTH_TAG, r.length, span.length);
      }
    }
  }

  lemma NextIs(tiff: seq<int>, e: Endian, ifd: nat)
    requires Bytes(tiff)
    ensures SecondAt(tiff, e, ifd)
            <==> TiffU32(tiff, 4, e).Some? && IfdNext(tiff, TiffU32(tiff, 4, e).value, e) == Some(ifd)
  {}

  lemma OrderIs(tiff: seq<int>, e: Endian)
    ensures EndianOf(tiff) == Some(e) <==> InOrder(tiff, e)
  {}

  /** A TIFF structure yields a thumbnail if and only if it points at one, in either byte order. */
  lemma TiffIff(tiff: seq<int>, span: Span)
    requires Bytes(tiff)
    ensures TiffThumbnail(tiff) == Some(span) <==> Points(tiff, span)
  {
    forall e: Endian ensures EndianOf(tiff) == Some(e) <==> InOrder(tiff, e) { OrderIs(tiff, e); }
    forall e: Endian, ifd: nat
      ensures SecondAt(tiff, e, ifd)
              <==> TiffU32(tiff, 4, e).Some? && IfdNext(tiff, TiffU32(tiff, 4, e).value, e) == Some(ifd)
      ensures IfdThumbnail(tiff, ifd, e) == Some(span) <==> LinksTo(tiff, e, ifd, span)
    {
      NextIs(tiff, e, ifd);
      DirectoryIs(tiff, ifd, e, span);
    }
  }

  // ----- markers -----

  /** A marker at `pos`: 0xff, any number of fill bytes, and its code at `m`. */
  predicate CodeAt(file: seq<int>, end: nat, pos: nat, m: nat) {
    && pos < m < |file| && (m == pos + 1 || m < end) && file[m] != 0xff
    && forall i :: pos <= i < m ==> file[i] == 0xff
  }

  lemma {:induction false} SkipIs(file: seq<int>, end: nat, at: nat, m: nat)
    requires 0 < at <= m + 1 <= |file| && (m + 1 == at || m < end) && file[m] != 0xff
    requires forall i :: at - 1 <= i < m ==> file[i] == 0xff
    ensures SkipFill(file, end, at, file[at - 1]) == Ok((m + 1, file[m]))
    decreases m + 1 - at
  {
    if at <= m { SkipIs(file, end, at + 1, m); }
  }

  lemma {:induction false} SkippedTo(file: seq<int>, end: nat, at: nat) returns (m: nat)
    requires 0 < at <= |file| && SkipFill(file, end, at, file[at - 1]).Ok?
             && SkipFill(file, end, at, file[at - 1]).value.1 != 0xff
    ensures at <= m + 1 <= |file| && (m + 1 == at || m < end) && file[m] != 0xff
    ensures forall i :: at - 1 <= i < m ==> file[i] == 0xff
    ensures SkipFill(file, end, at, file[at - 1]).value == (m + 1, file[m])
    decreases end - at
  {
    if file[at - 1] != 0xff || at >= end { m := at - 1; } else { m := SkippedTo(file, end, at + 1); }
  }

  /** A segment behind the code at `m` that ends at `next`, inside the image. */
  predicate SegmentAt(file: seq<int>, end: nat, m: nat, next: nat) {
    && m + 3 <= end && m + 3 <= |file| && !Ends(file[m]) && !Standalone(file[m])
    && next == m + 1 + U16(file, m + 1, Big) && m + 3 <= next <= end
  }

  /** An Exif payload whose structure points at a thumbnail. */
  ghost predicate Inside(payload: seq<int>, span: Span) {
    EXIF <= payload && span.offset >= 6 && Points(payload[6..], Span(span.offset - 6, span.length))
  }

  /** An APP1 segment that holds a thumbnail at `span`. */
  ghost predicate Yields(file: seq<int>, end: nat, m: nat, next: nat, span: Span) {
    && SegmentAt(file, end, m, next) && file[m] == 0xe1 && next <= |file|
    && span.offset >= m + 3 && Inside(file[m + 3..next], Span(span.offset - (m + 3), span.length))
    && span.offset + span.length <= end
  }

  /** The marker at `pos` holds no thumbnail, and the next one is at `next`. */
  ghost predicate Passes(file: seq<int>, end: nat, pos: nat, next: nat) {
    exists m: nat :: CodeAt(file, end, pos, m)
      && ((Standalone(file[m]) && next == m + 1)
          || (SegmentAt(file, end, m, next)
              && (file[m] == 0xe1 ==> next <= |file| && forall span :: !Yields(file, end, m, next, span))))
  }

  ghost predicate FoundAt(file: seq<int>, end: nat, pos: nat, span: Span) {
    exists m: nat, next: nat :: CodeAt(file, end, pos, m) && Yields(file, end, m, next, span)
  }

  /** From marker to marker. */
  ghost predicate Reaches(file: seq<int>, end: nat, pos: nat, q: nat)
    decreases end - pos
  {
    pos == q || (pos + 4 <= end && exists next: nat :: pos < next && Passes(file, end, pos, next)
                                                       && Reaches(file, end, next, q))
  }

  /** Some marker from `pos` on holds the thumbnail. */
  ghost predicate HeldFrom(file: seq<int>, end: nat, pos: nat, span: Span) {
    exists q: nat :: Reaches(file, end, pos, q) && q + 4 <= end && FoundAt(file, end, q, span)
  }

  lemma CodeOnce(file: seq<int>, end: nat, pos: nat, m: nat, k: nat)
    requires CodeAt(file, end, pos, m) && CodeAt(file, end, pos, k)
    ensures m == k
  {}

  /** The reader finds what is inside, and nothing else. */
  ghost predicate Sees(exif: Exif) {
    forall payload, span :: Bytes(payload) ==> (exif(payload) == Some(span) <==> Inside(payload, span))
  }

  lemma ExifIs(payload: seq<int>, span: Span)
    requires Bytes(payload)
    ensures ExifThumbnail(payload) == Some(span) <==> Inside(payload, span)
  {
    if EXIF <= payload && span.offset >= 6 { TiffIff(payload[6..], Span(span.offset - 6, span.length)); }
  }

  lemma ExifSees()
    ensures Sees(ExifReader())
  {
    forall payload: seq<int>, span: Span | Bytes(payload)
      ensures ExifReader()(payload) == Some(span) <==> Inside(payload, span)
    {
      ExifIs(payload, span);
    }
  }

  lemma LookedInto(exif: Exif, file: seq<int>, end: nat, m: nat, next: nat, r: Option<Span>)
    requires Bytes(file) && SegmentAt(file, end, m, next) && file[m] == 0xe1 && next <= |file|
    requires exif(file[m + 3..next]) == r
    ensures Segment(exif, file, end, m + 1, file[m])
         == if r.Some? && m + 3 + r.value.offset + r.value.length <= end
            then Stop(Ok(Some(Span(m + 3 + r.value.offset, r.value.length)))) else GoOn(next)
  {}

  lemma App1At(exif: Exif, file: seq<int>, end: nat, m: nat, next: nat, r: Option<Span>, span: Span)
    requires Sees(exif) && Bytes(file) && SegmentAt(file, end, m, next) && file[m] == 0xe1 && next <= |file|
    requires exif(file[m + 3..next]) == r
    ensures Yields(file, end, m, next, span)
            <==> r.Some? && span == Span(m + 3 + r.value.offset, r.value.length) && span.offset + span.length <= end
  {
    if span.offset >= m + 3 {
      var inner := Span(span.offset - (m + 3), span.length);
      assert r == Some(inner) <==> Inside(file[m + 3..next], inner);
    }
  }

  lemma App1Is(exif: Exif, file: seq<int>, end: nat, m: nat, next: nat)
    requires Sees(exif) && Bytes(file) && SegmentAt(file, end, m, next) && file[m] == 0xe1 && next <= |file|
    ensures var hop := Segment(exif, file, end, m + 1, file[m]);
      && (hop == GoOn(next) || (hop.Stop? && hop.found.Ok? && hop.found.value.Some?))
      && forall span :: hop == Stop(Ok(Some(span))) <==> Yields(file, end, m, next, span)
  {
    var r := exif(file[m + 3..next]);
    LookedInto(exif, file, end, m, next, r);
    forall span ensures Yields(file, end, m, next, span)
      <==> r.Some? && span == Span(m + 3 + r.value.offset, r.value.length) && span.offset + span.length <= end
    {
      App1At(exif, file, end, m, next, r, span);
    }
  }

  /** What a segment behind the code at `m` leads to. */
  ghost predicate LeadsTo(file: seq<int>, end: nat, m: nat, hop: Hop)
    requires m < |file|
  {
    && (forall span :: hop == Stop(Ok(Some(span))) <==> exists next: nat :: Yields(file, end, m, next, span))
    && (forall next: nat :: hop == GoOn(next) <==>
          SegmentAt(file, end, m, next)
          && (file[m] == 0xe1 ==> next <= |file| && forall span :: !Yields(file, end, m, next, span)))
  }

  lemma OtherLeads(exif: Exif, file: seq<int>, end: nat, m: nat)
    requires Bytes(file) && m < |file| && !Ends(file[m]) && !Standalone(file[m])
    requires forall next: nat :: SegmentAt(file, end, m, next) ==> file[m] != 0xe1 || next > |file|
    ensures LeadsTo(file, end, m, Segment(exif, file, end, m + 1, file[m]))
  {
    if m + 3 <= end && m + 3 <= |file| {
      var next := m + 1 + U16(file, m + 1, Big);
      assert m + 3 <= next <= end ==> SegmentAt(file, end, m, next);
    }
  }

  lemma App1Leads(exif: Exif, file: seq<int>, end: nat, m: nat, next: nat)
    requires Sees(exif) && Bytes(file) && SegmentAt(file, end, m, next) && file[m] == 0xe1 && next <= |file|
    ensures LeadsTo(file, end, m, Segment(exif, file, end, m + 1, file[m]))
  {
    App1Is(exif, file, end, m, next);
    forall k: nat | SegmentAt(file, end, m, k) ensures k == next {}
  }

  lemma SegmentLeads(exif: Exif, file: seq<int>, end: nat, m: nat)
    requires Sees(exif) && Bytes(file) && m < |file| && !Ends(file[m]) && !Standalone(file[m])
    ensures LeadsTo(file, end, m, Segment(exif, file, end, m + 1, file[m]))
  {
    if next: nat :| SegmentAt(file, end, m, next) && file[m] == 0xe1 && next <= |file| {
      App1Leads(exif, file, end, m, next);
    } else {
      OtherLeads(exif, file, end, m);
    }
  }

  /** What the marker at `pos` leads to. */
  ghost predicate Hops(file: seq<int>, end: nat, pos: nat, hop: Hop) {
    && (forall span :: hop == Stop(Ok(Some(span))) <==> FoundAt(file, end, pos, span))
    && (forall next: nat :: hop == GoOn(next) <==> Passes(file, end, pos, next))
  }

  lemma NoCodeHops(file: seq<int>, end: nat, pos: nat, hop: Hop)
    requires forall m: nat :: !CodeAt(file, end, pos, m)
    requires hop.Stop? && (hop.found.Err? || hop.found == Ok(None))
    ensures Hops(file, end, pos, hop)
  {}

  lemma CodeHops(exif: Exif, file: seq<int>, end: nat, pos: nat, m: nat)
    requires Sees(exif) && Bytes(file) && CodeAt(file, end, pos, m)
    ensures HopFrom(exif, file, end, pos)
         == if Ends(file[m]) then Stop(Ok(None)) else if Standalone(file[m]) then GoOn(m + 1)
            else Segment(exif, file, end, m + 1, file[m])
  {
    SkipIs(file, end, pos + 2, m);
  }

  lemma HopLeads(exif: Exif, file: seq<int>, end: nat, pos: nat)
    requires Sees(exif) && Bytes(file) && pos + 4 <= end
    ensures Hops(file, end, pos, HopFrom(exif, file, end, pos))
  {
    if m: nat :| CodeAt(file, end, pos, m) {
      CodeHops(exif, file, end, pos, m);
      forall k: nat | CodeAt(file, end, pos, k) ensures k == m { CodeOnce(file, end, pos, k, m); }
      if !Ends(file[m]) && !Standalone(file[m]) { SegmentLeads(exif, file, end, m); }
    } else {
      NoCode(exif, file, end, pos);
      NoCodeHops(file, end, pos, HopFrom(exif, file, end, pos));
    }
  }

  lemma NoCode(exif: Exif, file: seq<int>, end: nat, pos: nat)
    requires Bytes(file) && pos + 4 <= end && forall m: nat :: !CodeAt(file, end, pos, m)
    ensures var hop := HopFrom(exif, file, end, pos); hop.Stop? && (hop.found.Err? || hop.found == Ok(None))
  {
    if pos + 2 <= |file| && file[pos] == 0xff {
      var r := SkipFill(file, end, pos + 2, file[pos + 1]);
      if r.Ok? {
        if r.value.1 != 0xff {
          var m := SkippedTo(file, end, pos + 2);
          assert CodeAt(file, end, pos, m);
        } else {
          FilledUp(file, end, pos + 2, file[pos + 1]);
        }
      }
    }
  }

  lemma {:induction false} FilledUp(file: seq<int>, end: nat, at: nat, id: int)
    requires SkipFill(file, end, at, id).Ok? && SkipFill(file, end, at, id).value.1 == 0xff
    ensures SkipFill(file, end, at, id).value.0 >= end
    decreases end - at
  {
    if id == 0xff && at < end { FilledUp(file, end, at + 1, file[at]); }
  }

  /** The walk finds a thumbnail if and only if some marker it reaches holds it. */
  lemma {:induction false} WalkIff(exif: Exif, file: seq<int>, end: nat, pos: nat, span: Span)
    requires Sees(exif) && Bytes(file)
    ensures Walk(exif, file, end, pos) == Ok(Some(span))
            <==> HeldFrom(file, end, pos, span)
    decreases end - pos
  {
    if pos + 4 <= end {
      HopsForward(exif, file, end, pos);
      HopLeads(exif, file, end, pos);
      var hop := HopFrom(exif, file, end, pos);
      if hop.GoOn? {
        WalkIff(exif, file, end, hop.pos, span);
        WalkOn(file, end, pos, hop.pos, span);
      } else {
        WalkStops(file, end, pos, span);
      }
    }
  }

  lemma WalkOn(file: seq<int>, end: nat, pos: nat, next: nat, span: Span)
    requires pos + 4 <= end && pos < next && Passes(file, end, pos, next) && !FoundAt(file, end, pos, span)
    requires forall k: nat :: Passes(file, end, pos, k) ==> k == next
    ensures HeldFrom(file, end, pos, span)
            <==> HeldFrom(file, end, next, span)
  {
    if q: nat :| Reaches(file, end, pos, q) && q + 4 <= end && FoundAt(file, end, q, span) {
      assert Reaches(file, end, next, q);
    }
    if q: nat :| Reaches(file, end, next, q) && q + 4 <= end && FoundAt(file, end, q, span) {
      assert Reaches(file, end, pos, q);
    }
  }

  lemma WalkStops(file: seq<int>, end: nat, pos: nat, span: Span)
    requires pos + 4 <= end && forall k: nat :: !Passes(file, end, pos, k)
    ensures HeldFrom(file, end, pos, span)
            <==> FoundAt(file, end, pos, span)
  {
    if FoundAt(file, end, pos, span) { assert Reaches(file, end, pos, pos); }
  }

  lemma ReaderWalk(file: seq<int>, end: nat, pos: nat, span: Span)
    requires Bytes(file)
    ensures Walk(ExifReader(), file, end, pos) == Ok(Some(span)) <==> HeldFrom(file, end, pos, span)
  {
    ExifSees();
    WalkIff(ExifReader(), file, end, pos, span);
  }

  lemma JpegDecided(file: seq<int>, jpeg: Span, span: Span, held: bool)
    requires Bytes(file)
    requires Walk(ExifReader(), file, jpeg.offset + jpeg.length, jpeg.offset + 2) == Ok(Some(span)) <==> held
    ensures JpegThumbnail(file, jpeg) == Ok(Some(span)) <==> StartsJpeg(file, jpeg.offset) && held
  {}

  /** An image yields a thumbnail if and only if, from its first marker, one is reached that holds it. */
  lemma JpegIff(file: seq<int>, jpeg: Span, span: Span)
    requires Bytes(file)
    ensures JpegThumbnail(file, jpeg) == Ok(Some(span))
            <==> StartsJpeg(file, jpeg.offset)
                 && HeldFrom(file, jpeg.offset + jpeg.length, jpeg.offset + 2, span)
  {
    ReaderWalk(file, jpeg.offset + jpeg.length, jpeg.offset + 2, span);
    JpegDecided(file, jpeg, span, HeldFrom(file, jpeg.offset + jpeg.length, jpeg.offset + 2, span));
  }

  /** The preview a RAF header announces. */
  predicate Announces(file: seq<int>, preview: Span) {
    && |file| >= RAF_HEADER_LEN && FUJIFILM <= file
    && preview.offset == U32(file, 0x54, Big) && preview.length == U32(file, 0x58, Big)
    && preview.offset > 0 && preview.length > 0 && preview.offset + preview.length <= |file|
  }

  lemma PreviewIs(file: seq<int>, preview: Span)
    requires Bytes(file)
    ensures RafPreview(file) == Some(preview) <==> Announces(file, preview)
  {}

  ghost predicate HeldIn(file: seq<int>, preview: Span, span: Span) {
    StartsJpeg(file, preview.offset) && HeldFrom(file, preview.offset + preview.length, preview.offset + 2, span)
  }

  /** Whether the announced preview, if there is one, passes the test. */
  ghost predicate Announced(file: seq<int>, held: Span -> bool) {
    exists preview :: Announces(file, preview) && held(preview)
  }

  function Holding(file: seq<int>, span: Span): Span -> bool
    requires Bytes(file)
  {
    (preview: Span) => JpegThumbnail(file, preview) == Ok(Some(span))
  }

  lemma RafDecided(file: seq<int>, span: Span)
    requires Bytes(file)
    ensures RafThumbnail(file) == Ok(span) <==> Announced(file, Holding(file, span))
  {
    forall preview ensures RafPreview(file) == Some(preview) <==> Announces(file, preview) {
      PreviewIs(file, preview);
    }
  }

  /** A RAF file yields a thumbnail if and only if its header announces a preview that holds it. */
  lemma RafIff(file: seq<int>, span: Span)
    requires Bytes(file)
    ensures RafThumbnail(file) == Ok(span)
            <==> exists preview :: Announces(file, preview) && HeldIn(file, preview, span)
  {
    RafDecided(file, span);
    forall preview ensures Holding(file, span)(preview) <==> HeldIn(file, preview, span) {
      JpegIff(file, preview, span);
    }
  }
}
