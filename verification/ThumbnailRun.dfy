// The parser's and the printer's loops, proved against their specifications.
module ThumbnailRun {
  import opened Options
  import opened Thumbnail
  import opened ThumbnailPrinter

  method ScanDirectory(tiff: seq<int>, ifd: nat, e: Endian) returns (thumb: Option<Span>)
    requires Bytes(tiff)
    ensures thumb == IfdThumbnail(tiff, ifd, e)
  {
    var count := TiffU16(tiff, ifd, e);
    if count.None? { return None; }
    var offset: Option<nat>, length: Option<nat> := None, None;
    for i := 0 to count.value
      invariant ScanEntries(tiff, ifd, e, i) == Entries(offset, length)
    {
      var entry := ifd + 2 + i * 12;
      var tag := TiffU16(tiff, entry, e);
      if tag.None? {
        StaysBroken(tiff, ifd, e, i + 1, count.value);
        return None;
      }
      if tag.value == 0x0201 || tag.value == 0x0202 {
        var value := IfdEntry(tiff, entry, e);
        if value.None? {
          StaysBroken(tiff, ifd, e, i + 1, count.value);
          return None;
        }
        if tag.value == 0x0201 { offset := value; } else { length := value; }
      }
    }
    if offset.None? || length.None? { return None; }
    return Some(Span(offset.value, length.value));
  }

  lemma {:induction false} StaysBroken(tiff: seq<int>, ifd: nat, e: Endian, n: nat, m: nat)
    requires Bytes(tiff) && n <= m && ScanEntries(tiff, ifd, e, n).Broken?
    ensures ScanEntries(tiff, ifd, e, m).Broken?
    decreases m - n
  {
    if n < m { StaysBroken(tiff, ifd, e, n + 1, m); }
  }

  method ReadTiff(tiff: seq<int>) returns (thumb: Option<Span>)
    requires Bytes(tiff)
    ensures thumb == TiffThumbnail(tiff)
  {
    var endian := EndianOf(tiff);
    if endian.None? || TiffU16(tiff, 2, endian.value) != Some(42) { return None; }
    var ifd0 := TiffU32(tiff, 4, endian.value);
    if ifd0.None? { return None; }
    var ifd1 := IfdNext(tiff, ifd0.value, endian.value);
    if ifd1.None? { return None; }
    thumb := ScanDirectory(tiff, ifd1.value, endian.value);
    if thumb.None? || thumb.value.length < 2 || thumb.value.offset + thumb.value.length > |tiff| { return None; }
    if !StartsJpeg(tiff, thumb.value.offset) { return None; }
  }

  method ReadApp1(app1: seq<int>) returns (thumb: Option<Span>)
    requires Bytes(app1)
    ensures thumb == ExifReader()(app1)
  {
    if !(EXIF <= app1) { return None; }
    thumb := ReadTiff(app1[6..]);
    if thumb.None? { return None; }
    return Some(Span(6 + thumb.value.offset, thumb.value.length));
  }

  method SkipFillBytes(file: seq<int>, end: nat, start: nat, first: int) returns (r: Result<(nat, int), MediaError>)
    ensures r == SkipFill(file, end, start, first)
  {
    var pos, id := start, first;
    while id == 0xff && pos < end
      invariant SkipFill(file, end, start, first) == SkipFill(file, end, pos, id)
      decreases end - pos
    {
      if pos >= |file| { return Err(NoPreview); }
      id := file[pos];
      pos := pos + 1;
    }
    return Ok((pos, id));
  }

  method ReadSegment(file: seq<int>, end: nat, pos: nat, id: int) returns (hop: Hop)
    requires Bytes(file)
    ensures hop == Segment(ExifReader(), file, end, pos, id)
  {
    if pos + 2 > end { return Stop(Ok(None)); }
    if pos + 2 > |file| { return Stop(Err(NoPreview)); }
    var length := U16(file, pos, Big);
    if length < 2 || pos + length > end { return Stop(Ok(None)); }
    if id == 0xe1 {
      if pos + length > |file| { return Stop(Err(NoPreview)); }
      hop := ReadPayload(file, end, pos, length);
      return;
    }
    return GoOn(pos + length);
  }

  method ReadPayload(file: seq<int>, end: nat, pos: nat, length: nat) returns (hop: Hop)
    requires Bytes(file) && 2 <= length && pos + length <= |file|
    ensures hop == LookInto(ExifReader(), file, end, pos, length)
  {
    var span := ReadApp1(file[pos + 2..pos + length]);
    if span.Some? && pos + 2 + span.value.offset + span.value.length <= end {
      return Stop(Ok(Some(Span(pos + 2 + span.value.offset, span.value.length))));
    }
    return GoOn(pos + length);
  }

  method WalkMarkers(file: seq<int>, end: nat, start: nat) returns (r: Found)
    requires Bytes(file)
    ensures r == Walk(ExifReader(), file, end, start)
  {
    var pos := start;
    ghost var exif := ExifReader();
    while pos + 4 <= end
      invariant Walk(exif, file, end, start) == Walk(exif, file, end, pos)
      decreases end - pos
    {
      HopsForward(exif, file, end, pos);
      if pos + 2 > |file| { return Err(NoPreview); }
      if file[pos] != 0xff { return Ok(None); }
      var skipped := SkipFillBytes(file, end, pos + 2, file[pos + 1]);
      if skipped.Err? { return Err(skipped.error); }
      var next, id := skipped.value.0, skipped.value.1;
      if Ends(id) { return Ok(None); }
      if Standalone(id) {
        pos := next;
      } else {
        var hop := ReadSegment(file, end, next, id);
        if hop.Stop? { return hop.found; }
        pos := hop.pos;
      }
    }
    return Ok(None);
  }

  method FindThumbnail(file: seq<int>, jpeg: Span) returns (r: Found)
    requires Bytes(file)
    ensures r == JpegThumbnail(file, jpeg)
  {
    if jpeg.offset + 2 > |file| { return Err(NoPreview); }
    if !StartsJpeg(file, jpeg.offset) { return Ok(None); }
    r := WalkMarkers(file, jpeg.offset + jpeg.length, jpeg.offset + 2);
  }

  // ----- the printer -----

  method BuildTiff(thumbnail: seq<int>) returns (tiff: seq<int>)
    ensures tiff == Tiff(thumbnail)
  {
    var n := |thumbnail|;
    tiff := [0x49, 0x49] + Le16(42) + Le32(8);
    assert tiff == TiffHead(n, 8);
    tiff := tiff + Le16(0) + Le32(14) + Le16(2);
    assert tiff == TiffHead(n, 16);
    tiff := tiff + Entry(0x0201, THUMBNAIL_OFFSET);
    assert tiff == TiffHead(n, 28);
    tiff := tiff + Entry(0x0202, n);
    assert tiff == TiffHead(n, 40);
    tiff := tiff + Le32(0);
    assert tiff == TiffHead(n, 44);
    tiff := tiff + thumbnail;
  }

  function Entry(tag: nat, value: nat): (r: seq<int>)
    ensures |r| == 12 && forall i :: 0 <= i < 12 ==> r[i] == EntryByte(tag, value, i)
  {
    Le16(tag) + Le16(4) + Le32(1) + Le32(value)
  }

  method BuildJpeg(data: seq<int>) returns (jpeg: seq<int>)
    ensures jpeg == Jpeg(Embedded(data))
  {
    var thumbnail := [0xff, 0xd8];
    thumbnail := thumbnail + (if |data| < MAX_THUMBNAIL_BYTES then data else data[..MAX_THUMBNAIL_BYTES]);
    thumbnail := thumbnail + [0xff, 0xd9];
    var tiff := BuildTiff(thumbnail);
    var app1 := EXIF + tiff;
    jpeg := [0xff, 0xd8, 0xff, 0xe1];
    jpeg := jpeg + Be16(|app1| + 2);
    jpeg := jpeg + app1;
    jpeg := jpeg + [0xff, 0xd9];
  }

  /** Overwrite part of a buffer. */
  method CopyInto(buffer: array<int>, at: nat, bytes: seq<int>)
    requires at + |bytes| <= buffer.Length
    modifies buffer
    ensures forall i :: 0 <= i < buffer.Length ==>
              buffer[i] == if at <= i < at + |bytes| then bytes[i - at] else old(buffer[i])
  {
    for i := 0 to |bytes|
      invariant forall k :: 0 <= k < buffer.Length ==>
                  buffer[k] == if at <= k < at + i then bytes[k - at] else old(buffer[k])
    {
      buffer[at + i] := bytes[i];
    }
  }

  method BuildRaf(preview: seq<int>) returns (raf: seq<int>)
    ensures raf == Raf(preview)
  {
    var header := new int[RAF_PREVIEW_OFFSET](_ => 0);
    CopyInto(header, 0, RAF_NAME);
    CopyInto(header, 0x54, Be32(RAF_PREVIEW_OFFSET));
    CopyInto(header, 0x58, Be32(|preview|));
    assert header[..] == RafHead(|preview|);
    raf := header[..] + preview;
  }
}
