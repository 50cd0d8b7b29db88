// Finding the EXIF thumbnail inside a RAF file's preview JPEG. Markers follow
// section B.1.1 of ITU-T T.81, image file directories section 2 of TIFF 6.0.
// Sizes are those of a 64-bit host, so no index computation overflows.
module Thumbnail {
  import opened Options

  datatype Span = Span(offset: nat, length: nat)

  /** A read past the end of the file is the only error. */
  datatype MediaError = NoPreview

  type Found = Result<Option<Span>, MediaError>

  const RAF_HEADER_LEN: nat := 0x5c
  const RAF_PREVIEW_OFFSET_AT: nat := 0x54
  const RAF_PREVIEW_LENGTH_AT: nat := 0x58

  const FUJIFILM: seq<int> := [0x46, 0x55, 0x4a, 0x49, 0x46, 0x49, 0x4c, 0x4d]
  const EXIF: seq<int> := [0x45, 0x78, 0x69, 0x66, 0, 0]

  // ----- numbers in files -----

  datatype Endian = Little | Big

  function U16(b: seq<int>, at: nat, e: Endian): int
    requires at + 2 <= |b|
  {
    if e.Little? then b[at] + 0x100 * b[at + 1] else 0x100 * b[at] + b[at + 1]
  }

  function U32(b: seq<int>, at: nat, e: Endian): int
    requires at + 4 <= |b|
  {
    if e.Little? then b[at] + 0x100 * b[at + 1] + 0x1_0000 * b[at + 2] + 0x100_0000 * b[at + 3]
    else 0x100_0000 * b[at] + 0x1_0000 * b[at + 1] + 0x100 * b[at + 2] + b[at + 3]
  }

  /** Bytes of a file; nothing here makes sense of any other numbers. */
  predicate Bytes(b: seq<int>) { forall i :: 0 <= i < |b| ==> 0 <= b[i] < 256 }

  function TiffU16(tiff: seq<int>, at: nat, e: Endian): Option<nat>
    requires Bytes(tiff)
  {
    if at + 2 <= |tiff| then Some(U16(tiff, at, e)) else None
  }

  function TiffU32(tiff: seq<int>, at: nat, e: Endian): Option<nat>
    requires Bytes(tiff)
  {
    if at + 4 <= |tiff| then Some(U32(tiff, at, e)) else None
  }

  // ----- image file directories -----

  function EndianOf(tiff: seq<int>): Option<Endian> {
    if |tiff| < 2 then None
    else if tiff[0] == 0x49 && tiff[1] == 0x49 then Some(Little)
    else if tiff[0] == 0x4d && tiff[1] == 0x4d then Some(Big)
    else None
  }

  function IfdNext(tiff: seq<int>, ifd: nat, e: Endian): Option<nat>
    requires Bytes(tiff)
  {
    var count := TiffU16(tiff, ifd, e);
    if count.None? then None
    else
      var next := TiffU32(tiff, ifd + 2 + count.value * 12, e);
      if next.None? || next.value == 0 then None else next
  }

  function IfdEntry(tiff: seq<int>, entry: nat, e: Endian): Option<nat>
    requires Bytes(tiff)
  {
    var kind, count := TiffU16(tiff, entry + 2, e), TiffU32(tiff, entry + 4, e);
    if kind.None? || count.None? || count.value != 1 then None
    else if kind.value == 3 then TiffU16(tiff, entry + 8, e)
    else if kind.value == 4 then TiffU32(tiff, entry + 8, e)
    else None
  }

  datatype Entries = Broken | Entries(offset: Option<nat>, length: Option<nat>)

  /** The first `n` entries; of several with one tag the last counts. */
  function ScanEntries(tiff: seq<int>, ifd: nat, e: Endian, n: nat): Entries
    requires Bytes(tiff)
  {
    if n == 0 then Entries(None, None)
    else
      match ScanEntries(tiff, ifd, e, n - 1)
      case Broken => Broken
      case Entries(offset, length) =>
        var entry := ifd + 2 + (n - 1) * 12;
        var tag := TiffU16(tiff, entry, e);
        if tag.None? then Broken
        else if tag.value == 0x0201 then
          if IfdEntry(tiff, entry, e).None? then Broken else Entries(IfdEntry(tiff, entry, e), length)
        else if tag.value == 0x0202 then
          if IfdEntry(tiff, entry, e).None? then Broken else Entries(offset, IfdEntry(tiff, entry, e))
        else Entries(offset, length)
  }

  function IfdThumbnail(tiff: seq<int>, ifd: nat, e: Endian): Option<Span>
    requires Bytes(tiff)
  {
    var count := TiffU16(tiff, ifd, e);
    if count.None? then None
    else
      match ScanEntries(tiff, ifd, e, count.value)
      case Broken => None
      case Entries(offset, length) => if offset.None?
        || length.None? then None else Some(Span(offset.value, length.value))
  }

  predicate StartsJpeg(b: seq<int>, at: nat) { at + 2 <= |b| && b[at] == 0xff && b[at + 1] == 0xd8 }

  /** The thumbnail a TIFF structure points at, as a span of it. */
  function TiffThumbnail(tiff: seq<int>): Option<Span>
    requires Bytes(tiff)
  {
    var endian := EndianOf(tiff);
    if endian.None? || TiffU16(tiff, 2, endian.value) != Some(42) then None
    else
      var ifd0 := TiffU32(tiff, 4, endian.value);
      if ifd0.None? then None
      else
        var ifd1 := IfdNext(tiff, ifd0.value, endian.value);
        if ifd1.None? then None
        else
          var thumb := IfdThumbnail(tiff, ifd1.value, endian.value);
          if thumb.None? || thumb.value.length < 2 || thumb.value.offset + thumb.value.length > |tiff| then None
          else if !StartsJpeg(tiff, thumb.value.offset) then None
          else thumb
  }

  function ExifThumbnail(app1: seq<int>): Option<Span>
    requires Bytes(app1)
  {
    if !(EXIF <= app1) then None
    else
      match TiffThumbnail(app1[6..])
      case None => None
      case Some(span) => Some(Span(6 + span.offset, span.length))
  }

  /** How the walk looks into an APP1 segment. */
  type Exif = seq<int> -> Option<Span>

  function ExifReader(): Exif { (app1: seq<int>) => if Bytes(app1) then ExifThumbnail(app1) else None }

  // ----- the marker walk -----

  /** Fill bytes in front of a marker code, up to the end of the image. */
  function SkipFill(file: seq<int>, end: nat, pos: nat, id: int): Result<(nat, int), MediaError>
    decreases end - pos
  {
    if id != 0xff || pos >= end then Ok((pos, id))
    else if pos >= |file| then Err(NoPreview)
    else SkipFill(file, end, pos + 1, file[pos])
  }

  predicate Ends(id: int) { id == 0xd9 || id == 0xda }

  predicate Standalone(id: int) { id == 0x01 || 0xd0 <= id <= 0xd7 }

  lemma SkipForward(file: seq<int>, end: nat, pos: nat, id: int)
    ensures SkipFill(file, end, pos, id).Ok? ==> pos <= SkipFill(file, end, pos, id).value.0
    decreases end - pos
  {}

  /** One step of the walk: the marker at `pos`, its segment if it has one, and where to go on. */
  datatype Hop = Stop(found: Found) | GoOn(pos: nat)

  /** An APP1 segment, looked into. */
  function LookInto(exif: Exif, file: seq<int>, end: nat, pos: nat, length: nat): Hop
    requires 2 <= length && pos + length <= |file|
  {
    match exif(file[pos + 2..pos + length])
    case None => GoOn(pos + length)
    case Some(span) =>
      if pos + 2 + span.offset + span.length <= end then Stop(Ok(Some(Span(pos + 2 + span.offset, span.length))))
      else GoOn(pos + length)
  }

  function Segment(exif: Exif, file: seq<int>, end: nat, pos: nat, id: int): Hop
    requires Bytes(file)
  {
    if pos + 2 > end then Stop(Ok(None))
    else if pos + 2 > |file| then Stop(Err(NoPreview))
    else
      var length := U16(file, pos, Big);
      if length < 2 || pos + length > end then Stop(Ok(None))
      else if id != 0xe1 then GoOn(pos + length)
      else if pos + length > |file| then Stop(Err(NoPreview))
      else LookInto(exif, file, end, pos, length)
  }

  function HopFrom(exif: Exif, file: seq<int>, end: nat, pos: nat): Hop
    requires Bytes(file)
  {
    if pos + 2 > |file| then Stop(Err(NoPreview))
    else if file[pos] != 0xff then Stop(Ok(None))
    else
      match SkipFill(file, end, pos + 2, file[pos + 1])
      case Err(e) => Stop(Err(e))
      case Ok((next, id)) =>
        if Ends(id) then Stop(Ok(None)) else if Standalone(id) then GoOn(next) else Segment(exif, file, end, next, id)
  }

  lemma HopsForward(exif: Exif, file: seq<int>, end: nat, pos: nat)
    requires Bytes(file)
    ensures HopFrom(exif, file, end, pos).GoOn? ==> pos < HopFrom(exif, file, end, pos).pos
  {
    if pos + 2 <= |file| { SkipForward(file, end, pos + 2, file[pos + 1]); }
  }

  function Walk(exif: Exif, file: seq<int>, end: nat, pos: nat): Found
    requires Bytes(file)
    decreases end - pos
  {
    if pos + 4 > end then Ok(None)
    else
      HopsForward(exif, file, end, pos);
      match HopFrom(exif, file, end, pos)
      case Stop(found) => found
      case GoOn(next) => Walk(exif, file, end, next)
  }

  function JpegThumbnail(file: seq<int>, jpeg: Span): Found
    requires Bytes(file)
  {
    if jpeg.offset + 2 > |file| then Err(NoPreview)
    else if !StartsJpeg(file, jpeg.offset) then Ok(None)
    else Walk(ExifReader(), file, jpeg.offset + jpeg.length, jpeg.offset + 2)
  }

  // ----- the RAF header -----

  function RafPreview(file: seq<int>): Option<Span>
    requires Bytes(file)
  {
    if |file| < RAF_HEADER_LEN || !(FUJIFILM <= file) then None
    else
      var offset, length := U32(file, RAF_PREVIEW_OFFSET_AT, Big), U32(file, RAF_PREVIEW_LENGTH_AT, Big);
      if offset == 0 || length == 0 || offset + length > |file| then None else Some(Span(offset, length))
  }

  /** The thumbnail of a RAF file; no preview or no thumbnail is an error here. */
  function RafThumbnail(file: seq<int>): Result<Span, MediaError>
    requires Bytes(file)
  {
    match RafPreview(file)
    case None => Err(NoPreview)
    case Some(preview) =>
      match JpegThumbnail(file, preview)
      case Err(e) => Err(e)
      case Ok(None) => Err(NoPreview)
      case Ok(Some(span)) => Ok(span)
  }
}
