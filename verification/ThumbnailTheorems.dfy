// What a found thumbnail is, and that every thumbnail the printer embeds is found.
module ThumbnailTheorems {
  import opened Options
  import opened Thumbnail

  // ----- safety -----

  /** A nonempty span of `b` that starts like a JPEG. */
  predicate JpegSpan(b: seq<int>, s: Span) { 2 <= s.length && s.offset + s.length <= |b| && StartsJpeg(b, s.offset) }

  lemma ExifInside(app1: seq<int>)
    requires Bytes(app1) && ExifThumbnail(app1).Some?
    ensures EXIF <= app1 && JpegSpan(app1, ExifThumbnail(app1).value) && |EXIF| <= ExifThumbnail(app1).value.offset
  {
    var tiff := app1[6..];
    var s := TiffThumbnail(tiff).value;
    assert app1[6 + s.offset] == tiff[s.offset] && app1[6 + s.offset + 1] == tiff[s.offset + 1];
  }

  /** What is found is behind the Exif prefix of the payload. */
  predicate Sound(b: seq<int>, found: Option<Span>) {
    found.Some? ==> EXIF <= b && JpegSpan(b, found.value) && |EXIF| <= found.value.offset
  }

  ghost predicate SoundReader(exif: Exif) { forall b {:trigger Sound(b, exif(b))} :: Sound(b, exif(b)) }

  lemma ExifReaderSound()
    ensures SoundReader(ExifReader())
  {
    forall b: seq<int> ensures Sound(b, ExifReader()(b)) {
      if Bytes(b) && ExifThumbnail(b).Some? { ExifInside(b); }
    }
  }

  /**
   * An APP1 segment of the image with an Exif payload: the marker ends where its two
   * length bytes begin, at `at`, and all of it lies inside the image and the file.
   */
  predicate App1At(file: seq<int>, jpeg: Span, at: nat)
    requires Bytes(file)
  {
    && jpeg.offset + 4 <= at && at + 2 <= |file| && file[at - 2] == 0xff && file[at - 1] == 0xe1
    && 2 <= U16(file, at, Big) && at + U16(file, at, Big) <= jpeg.offset + jpeg.length
       && at + U16(file, at, Big) <= |file|
    && EXIF <= file[at + 2..at + U16(file, at, Big)]
  }

  /** The span lies inside the payload of that segment, behind the Exif prefix. */
  predicate InSegment(file: seq<int>, at: nat, s: Span)
    requires Bytes(file) && at + 2 <= |file|
  {
    at + 2 + |EXIF| <= s.offset && s.offset + s.length <= at + U16(file, at, Big)
  }

  lemma SkipEnds(file: seq<int>, end: nat, pos: nat, id: int)
    requires SkipFill(file, end, pos, id).Ok? && 2 <= pos <= |file| && file[pos - 2] == 0xff && file[pos - 1] == id
    ensures var (next, last) := SkipFill(file, end, pos, id).value;
      pos <= next <= |file| && file[next - 2] == 0xff && file[next - 1] == last
    decreases end - pos
  {
    if id == 0xff && pos < end { SkipEnds(file, end, pos + 1, file[pos]); }
  }

  lemma SegmentSafe(exif: Exif, file: seq<int>, jpeg: Span, pos: nat, id: int, s: Span)
    requires SoundReader(exif) && Bytes(file) && jpeg.offset + 4 <= pos <= |file| && file[pos - 2] == 0xff
             && file[pos - 1] == id
    requires Segment(exif, file, jpeg.offset + jpeg.length, pos, id) == Stop(Ok(Some(s)))
    ensures App1At(file, jpeg, pos) && InSegment(file, pos, s) && JpegSpan(file, s)
  {
    var n := U16(file, pos, Big);
    var data := file[pos + 2..pos + n];
    var t := exif(data).value;
    assert Sound(data, exif(data));
    assert data[t.offset] == file[s.offset] && data[t.offset + 1] == file[s.offset + 1];
  }

  lemma StopSafe(exif: Exif, file: seq<int>, jpeg: Span, pos: nat, s: Span)
    requires SoundReader(exif) && Bytes(file) && jpeg.offset + 2 <= pos
    requires HopFrom(exif, file, jpeg.offset + jpeg.length, pos) == Stop(Ok(Some(s)))
    ensures JpegSpan(file, s) && exists at :: App1At(file, jpeg, at) && InSegment(file, at, s)
  {
    var end := jpeg.offset + jpeg.length;
    SkipEnds(file, end, pos + 2, file[pos + 1]);
    var (next, id) := SkipFill(file, end, pos + 2, file[pos + 1]).value;
    SegmentSafe(exif, file, jpeg, next, id, s);
  }

  lemma {:induction false} WalkSafe(exif: Exif, file: seq<int>, jpeg: Span, pos: nat, s: Span)
    requires SoundReader(exif) && Bytes(file) && jpeg.offset + 2 <= pos
             && Walk(exif, file, jpeg.offset + jpeg.length, pos) == Ok(Some(s))
    ensures JpegSpan(file, s) && exists at :: App1At(file, jpeg, at) && InSegment(file, at, s)
    decreases jpeg.offset + jpeg.length - pos
  {
    var end := jpeg.offset + jpeg.length;
    HopsForward(exif, file, end, pos);
    var hop := HopFrom(exif, file, end, pos);
    if hop.GoOn? { WalkSafe(exif, file, jpeg, hop.pos, s); } else { StopSafe(exif, file, jpeg, pos, s); }
  }

  /**
   * For every byte string: a thumbnail that is found is nonempty, starts with the
   * JPEG start marker, and lies inside an APP1 segment, inside the preview, inside the file.
   */
  lemma FoundThumbnailSafe(file: seq<int>)
    requires Bytes(file) && RafThumbnail(file).Ok?
    ensures var s, preview := RafThumbnail(file).value, RafPreview(file);
      && JpegSpan(file, s) && preview.Some?
      && 0 < preview.value.offset && preview.value.offset + preview.value.length <= |file|
      && preview.value.offset <= s.offset && s.offset + s.length <= preview.value.offset + preview.value.length
      && exists at :: App1At(file, preview.value, at) && InSegment(file, at, s)
  {
    var preview, s := RafPreview(file).value, RafThumbnail(file).value;
    ExifReaderSound();
    WalkSafe(ExifReader(), file, preview, preview.offset + 2, s);
  }
}
