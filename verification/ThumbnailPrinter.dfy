// Files with an embedded thumbnail, as the fuzz target writes them, and the
// proof that the parser finds exactly what was embedded.
module ThumbnailPrinter {
  import opened Options
  import opened Thumbnail

  const MAX_THUMBNAIL_BYTES: nat := 4096
  const THUMBNAIL_OFFSET: nat := 44
  const RAF_PREVIEW_OFFSET: nat := 0x94
  const RAF_NAME: seq<int> := [0x46, 0x55, 0x4a, 0x49, 0x46, 0x49, 0x4c, 0x4d, 0x43, 0x43, 0x44, 0x2d, 0x52, 0x41, 0x57]

  function Le16(n: nat): seq<int> { [n % 256, n / 256 % 256] }
  function Le32(n: nat): seq<int> { [n % 256, n / 256 % 256, n / 0x1_0000 % 256, n / 0x100_0000 % 256] }
  function Be16(n: nat): seq<int> { [n / 256 % 256, n % 256] }
  function Be32(n: nat): seq<int> { [n / 0x100_0000 % 256, n / 0x1_0000 % 256, n / 256 % 256, n % 256] }

  lemma FourBytes(n: nat)
    requires n < 0x1_0000_0000
    ensures n == n % 256 + 0x100 * (n / 256 % 256) + 0x1_0000 * (n / 0x1_0000 % 256)
            + 0x100_0000 * (n / 0x100_0000 % 256)
  {
    assert n / 0x1_0000 == n / 256 / 256 && n / 0x100_0000 == n / 256 / 256 / 256;
  }

  // ----- what is written -----

  function Embedded(data: seq<int>): seq<int> {
    [0xff, 0xd8] + (if |data| < MAX_THUMBNAIL_BYTES then data else data[..MAX_THUMBNAIL_BYTES]) + [0xff, 0xd9]
  }

  /** Byte `i` of a directory entry holding one 32-bit number. */
  function EntryByte(tag: nat, value: nat, i: nat): int {
    if i < 2 then Le16(tag)[i]
    else if i < 4 then Le16(4)[i - 2] else if i < 8 then Le32(1)[i - 4] else if i < 12 then Le32(value)[i - 8] else 0
  }

  /** Byte `i` of the structure in front of the thumbnail: an empty directory, then one with two entries. */
  function TiffByte(length: nat, i: nat): int {
    if i < 2 then 0x49
    else if i < 4 then Le16(42)[i - 2]
    else if i < 8 then Le32(8)[i - 4]
    else if i < 10 then Le16(0)[i - 8]
    else if i < 14 then Le32(14)[i - 10]
    else if i < 16 then Le16(2)[i - 14]
    else if i < 28 then EntryByte(0x0201, THUMBNAIL_OFFSET, i - 16)
    else if i < 40 then EntryByte(0x0202, length, i - 28)
    else 0
  }

  function TiffHead(length: nat, n: nat): (r: seq<int>)
    ensures |r| == n
  {
    seq(n, i requires 0 <= i => TiffByte(length, i))
  }

  function Tiff(thumbnail: seq<int>): seq<int> { TiffHead(|thumbnail|, THUMBNAIL_OFFSET) + thumbnail }

  function App1(thumbnail: seq<int>): seq<int> { EXIF + Tiff(thumbnail) }

  /** An image of one APP1 segment and nothing else. */
  function Image(app1: seq<int>): seq<int> { [0xff, 0xd8, 0xff, 0xe1] + Be16(|app1| + 2) + app1 + [0xff, 0xd9] }

  function Jpeg(thumbnail: seq<int>): seq<int> { Image(App1(thumbnail)) }

  function RafByte(length: nat, i: nat): int {
    if i < 15 then RAF_NAME[i]
    else if 0x54 <= i < 0x58 then Be32(RAF_PREVIEW_OFFSET)[i - 0x54]
    else if 0x58 <= i < 0x5c then Be32(length)[i - 0x58]
    else 0
  }

  function RafHead(length: nat): (r: seq<int>)
    ensures |r| == RAF_PREVIEW_OFFSET
  {
    seq(RAF_PREVIEW_OFFSET, i requires 0 <= i => RafByte(length, i))
  }

  function Raf(preview: seq<int>): seq<int> { RafHead(|preview|) + preview }

  // ----- reading it back -----

  predicate Small(thumbnail: seq<int>) { Bytes(thumbnail) && 4 <= |thumbnail| <= 4100 && StartsJpeg(thumbnail, 0) }

  lemma EmbeddedSmall(data: seq<int>)
    requires Bytes(data)
    ensures Small(Embedded(data))
  {
    var e := Embedded(data);
    assert forall i :: 2 <= i < |e| - 2 ==> e[i] == data[i - 2];
  }

  lemma TiffPlaces(thumbnail: seq<int>)
    requires Small(thumbnail)
    ensures var t := Tiff(thumbnail);
      && Bytes(t) && |t| == THUMBNAIL_OFFSET + |thumbnail|
      && EndianOf(t) == Some(Little) && U16(t, 2, Little) == 42 && U32(t, 4, Little) == 8
      && U16(t, 8, Little) == 0 && U32(t, 10, Little) == 14 && U16(t, 14, Little) == 2
  {
    var t := Tiff(thumbnail);
    assert forall i :: 0 <= i < THUMBNAIL_OFFSET ==> t[i] == TiffByte(|thumbnail|, i);
    assert forall i :: THUMBNAIL_OFFSET <= i < |t| ==> t[i] == thumbnail[i - THUMBNAIL_OFFSET];
  }

  lemma EntryReads(t: seq<int>, at: nat, tag: nat, value: nat)
    requires Bytes(t) && at + 12 <= |t| && tag < 0x1_0000 && value < 0x1_0000_0000
    requires forall i :: at <= i < at + 12 ==> t[i] == EntryByte(tag, value, i - at)
    ensures TiffU16(t, at, Little) == Some(tag) && IfdEntry(t, at, Little) == Some(value)
  {
    assert U16(t, at, Little) == tag;
    assert U16(t, at + 2, Little) == 4;
    assert U32(t, at + 4, Little) == 1;
    FourBytes(value);
    assert U32(t, at + 8, Little) == value;
  }

  lemma EntryPlaces(thumbnail: seq<int>, at: nat, tag: nat, value: nat)
    requires Small(thumbnail)
    requires (at == 16 && tag == 0x0201 && value == THUMBNAIL_OFFSET)
             || (at == 28 && tag == 0x0202 && value == |thumbnail|)
    requires Bytes(Tiff(thumbnail))
    ensures var t := Tiff(thumbnail); TiffU16(t, at, Little) == Some(tag) && IfdEntry(t, at, Little) == Some(value)
  {
    var t := Tiff(thumbnail);
    forall i | at <= i < at + 12 ensures t[i] == EntryByte(tag, value, i - at) {
      assert t[i] == TiffByte(|thumbnail|, i);
    }
    EntryReads(t, at, tag, value);
  }

  lemma ThumbnailInTiff(thumbnail: seq<int>)
    requires Small(thumbnail)
    ensures Bytes(Tiff(thumbnail)) && TiffThumbnail(Tiff(thumbnail)) == Some(Span(THUMBNAIL_OFFSET, |thumbnail|))
  {
    var t := Tiff(thumbnail);
    TiffPlaces(thumbnail);
    EntryPlaces(thumbnail, 16, 0x0201, THUMBNAIL_OFFSET);
    EntryPlaces(thumbnail, 28, 0x0202, |thumbnail|);
    assert IfdNext(t, 8, Little) == Some(14);
    assert ScanEntries(t, 14, Little, 1) == Entries(Some(THUMBNAIL_OFFSET), None) by {
      assert ScanEntries(t, 14, Little, 0) == Entries(None, None);
    }
    assert ScanEntries(t, 14, Little, 2) == Entries(Some(THUMBNAIL_OFFSET), Some(|thumbnail|));
    assert t[THUMBNAIL_OFFSET] == thumbnail[0] && t[THUMBNAIL_OFFSET + 1] == thumbnail[1];
  }

  lemma ExifInFront(app1: seq<int>, tiff: seq<int>)
    requires app1 == EXIF + tiff && Bytes(tiff)
    ensures Bytes(app1) && EXIF <= app1 && app1[6..] == tiff
  {
    assert app1[..6] == EXIF;
    assert forall i :: 6 <= i < |app1| ==> app1[i] == tiff[i - 6];
  }

  lemma ThumbnailInApp1(thumbnail: seq<int>)
    requires Small(thumbnail)
    ensures Bytes(App1(thumbnail)) && |App1(thumbnail)| == 50 + |thumbnail| && App1(thumbnail)[50..] == thumbnail
    ensures ExifThumbnail(App1(thumbnail)) == Some(Span(50, |thumbnail|))
  {
    ThumbnailInTiff(thumbnail);
    ExifInFront(App1(thumbnail), Tiff(thumbnail));
    BehindHead(App1(thumbnail), Tiff(thumbnail), TiffHead(|thumbnail|, THUMBNAIL_OFFSET), thumbnail);
  }

  lemma BehindHead(app1: seq<int>, tiff: seq<int>, head: seq<int>, thumbnail: seq<int>)
    requires |app1| == 6 + |tiff| && app1[6..] == tiff && |head| == 44 && tiff == head + thumbnail
    ensures app1[50..] == thumbnail
  {
    assert app1[50..] == app1[6..][44..];
  }

  /** Where the pieces of the image are. */
  lemma ImagePlaces(app1: seq<int>)
    requires Bytes(app1) && |app1| + 2 < 0x1_0000
    ensures var j, n := Image(app1), |app1|;
      && Bytes(j) && |j| == 8 + n
      && j[0] == 0xff && j[1] == 0xd8 && j[2] == 0xff && j[3] == 0xe1 && U16(j, 4, Big) == n + 2 && j[6..6 + n] == app1
  {
    var j, n := Image(app1), |app1|;
    assert forall i :: 6 <= i < 6 + n ==> j[i] == app1[i - 6];
    assert j[4] == (n + 2) / 256 % 256 && j[5] == (n + 2) % 256;
  }

  /** The walk stops at the first segment. */
  lemma FirstSegment(exif: Exif, file: seq<int>, start: nat, end: nat, app1: seq<int>, s: Span)
    requires Bytes(file) && start + 6 + |app1| <= end <= |file|
    requires file[start + 2] == 0xff && file[start + 3] == 0xe1 && U16(file, start + 4, Big) == |app1| + 2
    requires file[start + 6..start + 6 + |app1|] == app1 && exif(app1) == Some(s) && s.offset + s.length <= |app1|
    ensures Walk(exif, file, end, start + 2) == Ok(Some(Span(start + 6 + s.offset, s.length)))
  {
    assert SkipFill(file, end, start + 4, 0xe1) == Ok((start + 4, 0xe1));
    assert Segment(exif, file, end, start + 4, 0xe1) == Stop(Ok(Some(Span(start + 6 + s.offset, s.length))));
  }

  lemma RafPlaces(preview: seq<int>)
    requires Bytes(preview) && 0 < |preview| < 0x1_0000_0000
    ensures Bytes(Raf(preview)) && RafPreview(Raf(preview)) == Some(Span(RAF_PREVIEW_OFFSET, |preview|))
  {
    var f := Raf(preview);
    assert forall i :: 0 <= i < RAF_PREVIEW_OFFSET ==> f[i] == RafByte(|preview|, i);
    assert forall i :: RAF_PREVIEW_OFFSET <= i < |f| ==> f[i] == preview[i - RAF_PREVIEW_OFFSET];
    NameBytes(f, |preview|);
    assert U32(f, 0x54, Big) == RAF_PREVIEW_OFFSET;
    FourBytes(|preview|);
    assert U32(f, 0x58, Big) == |preview|;
  }

  lemma NameBytes(f: seq<int>, length: nat)
    requires |f| >= 15 && forall i :: 0 <= i < 15 ==> f[i] == RafByte(length, i)
    ensures FUJIFILM <= f
  {
    assert forall i :: 0 <= i < 8 ==> f[i] == RAF_NAME[i] == FUJIFILM[i];
  }

  /** Whatever the reader finds in the segment, the walk over the file finds at its place. */
  lemma FoundInRaf(exif: Exif, app1: seq<int>, s: Span)
    requires Bytes(app1) && |app1| + 2 < 0x1_0000 && exif(app1) == Some(s) && s.offset + s.length <= |app1|
    ensures var f, at := Raf(Image(app1)), RAF_PREVIEW_OFFSET;
      && Bytes(f) && RafPreview(f) == Some(Span(at, |Image(app1)|)) && |f| == at + 8 + |app1| && StartsJpeg(f, at)
      && Walk(exif, f, |f|, at + 2) == Ok(Some(Span(at + 6 + s.offset, s.length)))
      && f[at + 6..at + 6 + |app1|] == app1
  {
    var j := Image(app1);
    var f := Raf(j);
    ImagePlaces(app1);
    RafPlaces(j);
    assert forall i :: 0 <= i < |j| ==> f[RAF_PREVIEW_OFFSET + i] == j[i];
    InsideRaf(f, j, |app1|);
    FirstSegment(exif, f, RAF_PREVIEW_OFFSET, |f|, app1, s);
  }

  lemma InsideRaf(f: seq<int>, j: seq<int>, n: nat)
    requires |f| == RAF_PREVIEW_OFFSET + |j| && 6 + n <= |j| && forall i :: 0 <= i < |j| ==>
                                                                  f[RAF_PREVIEW_OFFSET + i] == j[i]
    ensures f[RAF_PREVIEW_OFFSET + 6..RAF_PREVIEW_OFFSET + 6 + n] == j[6..6 + n]
    ensures U16(f, RAF_PREVIEW_OFFSET + 4, Big) == U16(j, 4, Big)
  {}

  lemma ThumbnailInRaf(thumbnail: seq<int>)
    requires Small(thumbnail)
    ensures var f := Raf(Jpeg(thumbnail));
      Bytes(f) && RafThumbnail(f) == Ok(Span(RAF_PREVIEW_OFFSET + 56, |thumbnail|))
      && RAF_PREVIEW_OFFSET + 56 + |thumbnail| <= |f| && f[RAF_PREVIEW_OFFSET + 56..][..|thumbnail|] == thumbnail
  {
    var app1 := App1(thumbnail);
    ThumbnailInApp1(thumbnail);
    FoundInRaf(ExifReader(), app1, Span(50, |thumbnail|));
    var f := Raf(Image(app1));
    Behind(f, RAF_PREVIEW_OFFSET + 6, app1, 50, thumbnail);
    WalkIsFound(f, Span(RAF_PREVIEW_OFFSET, |Image(app1)|), Span(RAF_PREVIEW_OFFSET + 56, |thumbnail|));
  }

  lemma WalkIsFound(f: seq<int>, preview: Span, s: Span)
    requires Bytes(f) && RafPreview(f) == Some(preview) && StartsJpeg(f, preview.offset)
    requires Walk(ExifReader(), f, preview.offset + preview.length, preview.offset + 2) == Ok(Some(s))
    ensures RafThumbnail(f) == Ok(s)
  {
    assert JpegThumbnail(f, preview) == Ok(Some(s));
    PreviewIsFound(f, preview, s);
  }

  lemma PreviewIsFound(f: seq<int>, preview: Span, s: Span)
    requires Bytes(f) && RafPreview(f) == Some(preview) && JpegThumbnail(f, preview) == Ok(Some(s))
    ensures RafThumbnail(f) == Ok(s)
  {}

  lemma Behind(f: seq<int>, at: nat, app1: seq<int>, skip: nat, thumbnail: seq<int>)
    requires at + |app1| <= |f| && f[at..at + |app1|] == app1 && skip + |thumbnail| == |app1|
             && app1[skip..] == thumbnail
    ensures f[at + skip..][..|thumbnail|] == thumbnail
  {
    forall i | 0 <= i < |thumbnail| ensures f[at + skip + i] == thumbnail[i] {
      assert f[at..at + |app1|][skip + i] == app1[skip + i] == app1[skip..][i];
    }
  }

  /** For every input, the parser returns exactly the span that holds the embedded thumbnail. */
  lemma EmbeddedThumbnailFound(data: seq<int>)
    requires Bytes(data)
    ensures var f := Raf(Jpeg(Embedded(data)));
      && Bytes(f) && RafThumbnail(f).Ok?
      && var s := RafThumbnail(f).value; s.offset + s.length <= |f| && f[s.offset..][..s.length] == Embedded(data)
  {
    EmbeddedSmall(data);
    ThumbnailInRaf(Embedded(data));
  }
}
