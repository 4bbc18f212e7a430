/** Image sizes read from the file header (src/cropGrounding.ts 112-153): PNG's at a fixed
    offset, JPEG's by walking the marker segments of ITU-T T.81, section B.1.1. */
module ImageHeaders {
  import opened Pricing

  type Byte = b: nat | b < 256

  datatype Size = Size(width: nat, height: nat)

  function U16(s: seq<Byte>, i: nat): nat
    requires i + 1 < |s|
  {
    (s[i] as int) * 256 + (s[i + 1] as int)
  }

  function U32(s: seq<Byte>, i: nat): nat
    requires i + 3 < |s|
  {
    U16(s, i) * 65536 + U16(s, i + 2)
  }

  predicate PngSignature(s: seq<Byte>)
  {
    && |s| >= 24
    && s[0] == 0x89 && s[1] == 0x50 && s[2] == 0x4E && s[3] == 0x47
    && s[4] == 0x0D && s[5] == 0x0A && s[6] == 0x1A && s[7] == 0x0A
  }

  /** Markers without a length: TEM, RSTm and, as the walk takes it, another SOI. */
  predicate Standalone(marker: Byte)
  {
    marker == 0xD8 || marker == 0x01 || 0xD0 <= marker <= 0xD7
  }

  /** SOF0-SOF15 without DHT, JPG and DAC. */
  predicate FrameHeader(marker: Byte)
  {
    0xC0 <= marker <= 0xCF && marker !in {0xC4, 0xC8, 0xCC}
  }

  /** End of image, or start of scan. */
  predicate Ends(marker: Byte) { marker == 0xD9 || marker == 0xDA }

  /** The markers, one by one, from table B.1. */
  lemma MarkersAreThose(m: Byte)
    ensures FrameHeader(m) <==> m in {0xC0, 0xC1, 0xC2, 0xC3, 0xC5, 0xC6, 0xC7, 0xC9, 0xCA, 0xCB, 0xCD, 0xCE, 0xCF}
    ensures Standalone(m) <==> m in {0x01, 0xD0, 0xD1, 0xD2, 0xD3, 0xD4, 0xD5, 0xD6, 0xD7, 0xD8}
    ensures Ends(m) <==> m in {0xD9, 0xDA}
  {}

  function Drop(s: seq<Byte>, n: nat): seq<Byte>
  {
    if n <= |s| then s[n..] else []
  }

  /** The marker walk over what is left of the file. */
  function Walk(s: seq<Byte>): Option<Size>
    decreases |s|
  {
    if |s| < 10 then None
    else if s[0] != 0xFF then Walk(s[1..])
    else if Standalone(s[1]) then Walk(s[2..])
    else if Ends(s[1]) then None
    else if FrameHeader(s[1]) then Some(Size(U16(s, 7), U16(s, 5)))
    else if U16(s, 2) < 2 then None
    else Walk(Drop(s, 2 + U16(s, 2)))
  }

  function Dimensions(bytes: seq<Byte>): Option<Size>
  {
    if PngSignature(bytes) then Some(Size(U32(bytes, 16), U32(bytes, 20)))
    else if |bytes| >= 4 && bytes[0] == 0xFF && bytes[1] == 0xD8 then Walk(bytes[2..])
    else None
  }

  /** What the walk finds from an offset on. */
  function Left(bytes: seq<Byte>, offset: nat): Option<Size>
  {
    Walk(Drop(bytes, offset))
  }

  /** What the walk finds at an offset is this. */
  ghost predicate Finds(bytes: seq<Byte>, offset: nat, size: Option<Size>)
  {
    match size
    case None => Left(bytes, offset) == None
    case Some(_) => Left(bytes, offset) == size
  }

  /** One turn of the walk, at an offset into the file. */
  lemma {:induction false} WalkAt(bytes: seq<Byte>, offset: nat, size: Option<Size>)
    requires offset + 9 < |bytes| && Finds(bytes, offset, size)
    ensures var marker := bytes[offset + 1];
            if bytes[offset] != 0xFF then Finds(bytes, offset + 1, size)
            else if Standalone(marker) then Finds(bytes, offset + 2, size)
            else if Ends(marker) then size == None
            else if FrameHeader(marker) then size == Some(Size(U16(bytes, offset + 7), U16(bytes, offset + 5)))
            else U16(bytes, offset + 2) < 2 ==> size == None
  {}

  /** A segment is passed over. */
  lemma {:induction false} WalkPast(bytes: seq<Byte>, offset: nat, next: nat, size: Option<Size>)
    requires offset + 9 < |bytes| && Finds(bytes, offset, size) && bytes[offset] == 0xFF
    requires var marker := bytes[offset + 1]; !Standalone(marker) && !Ends(marker) && !FrameHeader(marker)
    requires U16(bytes, offset + 2) >= 2 && next == offset + 2 + U16(bytes, offset + 2)
    ensures Finds(bytes, next, size)
  {
    var s := Drop(bytes, offset);
    assert s[0] == bytes[offset] && s[1] == bytes[offset + 1] && U16(s, 2) == U16(bytes, offset + 2);
    DropTwice(bytes, offset, 2 + U16(s, 2));
    assert Walk(s) == Walk(Drop(s, 2 + U16(s, 2)));
  }

  lemma DropTwice(bytes: seq<Byte>, a: nat, b: nat)
    requires a <= |bytes|
    ensures Drop(Drop(bytes, a), b) == Drop(bytes, a + b)
  {}

  lemma {:induction false} WalkStops(bytes: seq<Byte>, offset: nat, size: Option<Size>)
    requires offset + 9 >= |bytes| && Finds(bytes, offset, size)
    ensures size == None
  {}

  /** The marker walk as a loop: reads in bounds and ends, whatever the bytes are. */
  method WalkMarkers(bytes: seq<Byte>) returns (size: Option<Size>)
    requires |bytes| >= 4
    ensures size == Walk(bytes[2..])
  {
    ghost var found := Walk(bytes[2..]);
    assert Finds(bytes, 2, found);
    var offset := 2;
    while offset + 9 < |bytes|
      invariant 2 <= offset && Finds(bytes, offset, found) == true
      decreases |bytes| - offset
    {
      WalkAt(bytes, offset, found);
      if bytes[offset] != 0xFF {
        offset := offset + 1; // resynchronise rather than trust a length just read
        continue;
      }
      var marker := bytes[offset + 1];
      if Standalone(marker) {
        offset := offset + 2;
        continue;
      }
      if Ends(marker) {
        return None;
      }
      var length := U16(bytes, offset + 2);
      if FrameHeader(marker) {
        return Some(Size(U16(bytes, offset + 7), U16(bytes, offset + 5)));
      }
      if length < 2 {
        return None; // a length that cannot advance
      }
      WalkPast(bytes, offset, offset + 2 + length, found);
      offset := offset + 2 + length;
    }
    WalkStops(bytes, offset, found);
    size := None;
  }

  method ImageDimensions(bytes: seq<Byte>) returns (size: Option<Size>)
    ensures size == Dimensions(bytes)
  {
    if |bytes| >= 24
       && bytes[0] == 0x89 && bytes[1] == 0x50 && bytes[2] == 0x4E && bytes[3] == 0x47
       && bytes[4] == 0x0D && bytes[5] == 0x0A && bytes[6] == 0x1A && bytes[7] == 0x0A
    {
      return Some(Size(U32(bytes, 16), U32(bytes, 20)));
    }
    if |bytes| >= 4 && bytes[0] == 0xFF && bytes[1] == 0xD8 {
      size := WalkMarkers(bytes);
    } else {
      size := None;
    }
  }

  /** Four bytes, the highest first. */
  function FourBytes(n: nat): seq<Byte>
    requires n < 0x1_0000_0000
  {
    [n / 0x100_0000, n / 0x1_0000 % 0x100, n / 0x100 % 0x100, n % 0x100]
  }

  lemma FourBytesRead(n: nat, s: seq<Byte>, i: nat)
    requires n < 0x1_0000_0000 && i + 3 < |s| && s[i..i + 4] == FourBytes(n)
    ensures U32(s, i) == n
  {
    var f := FourBytes(n);
    assert s[i] == s[i..i + 4][0] && s[i + 1] == s[i..i + 4][1] && s[i + 2] == s[i..i + 4][2] && s[i + 3] == s[i..i + 4][3];
    assert n / 0x1_0000 / 0x100 == n / 0x100_0000;
  }

  /** A PNG's size is the one its first chunk records, after the signature and eight bytes of
      length and type, whatever those and the rest are. */
  lemma PngSizeIsRead(chunk: seq<Byte>, width: nat, height: nat, rest: seq<Byte>)
    requires |chunk| == 8 && width < 0x1_0000_0000 && height < 0x1_0000_0000
    ensures Dimensions([0x89, 0x50, 0x4E, 0x47, 0x0D, 0x0A, 0x1A, 0x0A] + chunk + FourBytes(width) + FourBytes(height) + rest)
            == Some(Size(width, height))
  {
    var file: seq<Byte> := [0x89, 0x50, 0x4E, 0x47, 0x0D, 0x0A, 0x1A, 0x0A] + chunk + FourBytes(width) + FourBytes(height) + rest;
    assert file[16..20] == FourBytes(width) && file[20..24] == FourBytes(height);
    FourBytesRead(width, file, 16);
    FourBytesRead(height, file, 20);
  }

  // ---- Files without fill bytes -------------------------------------------------

  /** What may stand between SOI and the frame header: markers alone, and segments whose
      length counts itself and the payload. */
  datatype Segment = Alone(marker: Byte) | Block(marker: Byte, payload: seq<Byte>)

  predicate WellFormed(seg: Segment)
  {
    match seg
    case Alone(m) => Standalone(m)
    case Block(m, payload) =>
      m != 0 && m != 0xFF && !Standalone(m) && !Ends(m) && !FrameHeader(m) && |payload| + 2 < 65536
  }

  function Encode(seg: Segment): seq<Byte>
    requires WellFormed(seg)
  {
    match seg
    case Alone(m) => [0xFF, m]
    case Block(m, payload) => [0xFF, m, (|payload| + 2) / 256, (|payload| + 2) % 256] + payload
  }

  function EncodeAll(segments: seq<Segment>): seq<Byte>
    requires forall s :: s in segments ==> WellFormed(s)
  {
    if segments == [] then [] else Encode(segments[0]) + EncodeAll(segments[1..])
  }

  /** Section B.2.2: a frame header with its sample precision, lines, samples per line and
      component parameters. */
  datatype Frame = Frame(marker: Byte, precision: Byte, lines: nat, samples: nat, components: seq<Byte>)

  predicate Encodable(f: Frame)
  {
    FrameHeader(f.marker) && f.lines < 65536 && f.samples < 65536 && |f.components| % 3 == 0 && |f.components| < 3 * 256
  }

  function EncodeFrame(f: Frame): seq<Byte>
    requires Encodable(f)
  {
    var length := 8 + |f.components|;
    [0xFF, f.marker, length / 256, length % 256, f.precision, f.lines / 256, f.lines % 256, f.samples / 256, f.samples % 256,
     |f.components| / 3] + f.components
  }

  function Jpeg(segments: seq<Segment>, tail: seq<Byte>): seq<Byte>
    requires forall s :: s in segments ==> WellFormed(s)
  {
    [0xFF, 0xD8] + (EncodeAll(segments) + tail)
  }

  lemma OneSegment(seg: Segment, rest: seq<Byte>)
    requires WellFormed(seg)
    ensures Walk(Encode(seg) + rest) == Walk(rest)
  {
    var s := Encode(seg) + rest;
    match seg
    case Alone(m) => assert s[2..] == rest;
    case Block(m, payload) =>
      assert U16(s, 2) == |payload| + 2;
      assert Drop(s, 4 + |payload|) == rest;
  }

  lemma Regroup(a: seq<Byte>, b: seq<Byte>, c: seq<Byte>)
    ensures (a + b) + c == a + (b + c)
  {}

  lemma {:induction false} AllSegments(segments: seq<Segment>, rest: seq<Byte>)
    requires forall s :: s in segments ==> WellFormed(s)
    ensures Walk(EncodeAll(segments) + rest) == Walk(rest)
  {
    if segments == [] {
      assert EncodeAll(segments) + rest == rest;
    } else {
      var first, others := Encode(segments[0]), EncodeAll(segments[1..]);
      AllSegments(segments[1..], rest);
      OneSegment(segments[0], others + rest);
      Regroup(first, others, rest);
    }
  }

  lemma JpegStarts(segments: seq<Segment>, tail: seq<Byte>)
    requires (forall s :: s in segments ==> WellFormed(s)) && |tail| >= 2
    ensures Dimensions(Jpeg(segments, tail)) == Walk(tail)
  {
    var file := Jpeg(segments, tail);
    assert file[2..] == EncodeAll(segments) + tail;
    assert file[0] == 0xFF;
    AllSegments(segments, tail);
  }

  /** The size found is the one in the first frame header, whatever segments stand before it
      and whatever follows. */
  lemma FirstFrameHeaderIsRead(segments: seq<Segment>, f: Frame, rest: seq<Byte>)
    requires (forall s :: s in segments ==> WellFormed(s)) && Encodable(f)
    ensures Dimensions(Jpeg(segments, EncodeFrame(f) + rest)) == Some(Size(f.samples, f.lines))
  {
    var tail := EncodeFrame(f) + rest;
    JpegStarts(segments, tail);
    assert U16(tail, 7) == f.samples && U16(tail, 5) == f.lines;
  }

  /** A file whose image ends, or whose scan starts, before any frame header has no size. */
  lemma NoFrameHeaderNoSize(segments: seq<Segment>, marker: Byte, rest: seq<Byte>)
    requires (forall s :: s in segments ==> WellFormed(s)) && Ends(marker)
    ensures Dimensions(Jpeg(segments, [0xFF, marker] + rest)) == None
  {
    JpegStarts(segments, [0xFF, marker] + rest);
  }
}
