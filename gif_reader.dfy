/**
  A reader for the GIF89a streams the encoder writes, written from the block layouts of the
  GIF89a specification (sections 15 to 27): it reads the header, the logical screen descriptor
  (and a global colour table when one is flagged), the Netscape looping extension, and then
  frames (graphic control extension, image descriptor, local colour table when one is flagged,
  image data in sub-blocks) and trailers. Packed fields are decoded bit by bit from their byte.
  The lemmas show that reading what the encoder writes gives back every field it wrote.
*/
module GifReader {
  import opened Gif

  /** A value read from the front of a byte sequence, and the bytes after it. */
  datatype Read<T> = Read(value: T, rest: seq<byte>)

  datatype ScreenDescriptor = ScreenDescriptor(
    width: int, height: int,
    globalColorTable: bool, colorResolution: int, sorted: bool, globalColorTableSize: int,
    backgroundColorIndex: byte, pixelAspectRatio: byte)

  datatype GraphicControl = GraphicControl(
    disposalMethod: int, userInput: bool, transparentColor: bool,
    delayTime: int, transparentColorIndex: byte)

  datatype ImageDescriptor = ImageDescriptor(
    left: int, top: int, width: int, height: int,
    localColorTable: bool, interlaced: bool, sorted: bool, localColorTableSize: int)

  datatype DecodedFrame = DecodedFrame(
    control: GraphicControl, descriptor: ImageDescriptor, colorTable: seq<byte>,
    minCodeSize: byte, imageData: seq<byte>)

  datatype Block = FrameBlock(frame: DecodedFrame) | TrailerBlock

  datatype DecodedGif = DecodedGif(
    screen: ScreenDescriptor, globalColorTable: seq<byte>, loopCount: int, blocks: seq<Block>)

  function LittleEndian(low: byte, high: byte): int
  {
    low as int + 256 * high as int
  }

  function Pow2(n: nat): nat
  {
    if n == 0 then 1 else 2 * Pow2(n - 1)
  }

  /** A colour table whose size field is `sizeField` has 2^(sizeField + 1) colours of 3 bytes. */
  function ColorTableLength(sizeField: int): nat
  {
    if 0 <= sizeField then 3 * Pow2(sizeField + 1) else 0
  }

  /** GIF89a section 18: width, height, packed fields, background colour index, pixel aspect ratio. */
  function ReadScreenDescriptor(s: seq<byte>): Option<Read<ScreenDescriptor>>
  {
    if |s| < 7 then None
    else
      var packed := s[4] as int;
      Some(Read(ScreenDescriptor(
        LittleEndian(s[0], s[1]), LittleEndian(s[2], s[3]),
        packed / 0x80 == 1, packed / 0x10 % 8, packed / 0x08 % 2 == 1, packed % 8,
        s[5], s[6]), s[7..]))
  }

  /** GIF89a section 26: an application extension "NETSCAPE2.0" with one sub-block of id 1 that holds
      the loop count. */
  function ReadLoopingExtension(s: seq<byte>): Option<Read<int>>
  {
    if |s| < 19 || s[..3] != [0x21, 0xFF, 0x0B] || s[3..14] != NetscapeIdentifier
       || s[14] != 0x03 || s[15] != 0x01 || s[18] != 0x00
    then None
    else Some(Read(LittleEndian(s[16], s[17]), s[19..]))
  }

  /** GIF89a section 23: the graphic control extension. */
  function ReadGraphicControl(s: seq<byte>): Option<Read<GraphicControl>>
  {
    if |s| < 8 || s[0] != 0x21 || s[1] != 0xF9 || s[2] != 0x04 || s[7] != 0x00 then None
    else
      var packed := s[3] as int;
      Some(Read(GraphicControl(
        packed / 0x04 % 8, packed / 0x02 % 2 == 1, packed % 2 == 1,
        LittleEndian(s[4], s[5]), s[6]), s[8..]))
  }

  /** GIF89a section 20: the image descriptor. */
  function ReadImageDescriptor(s: seq<byte>): Option<Read<ImageDescriptor>>
  {
    if |s| < 10 || s[0] != 0x2C then None
    else
      var packed := s[9] as int;
      Some(Read(ImageDescriptor(
        LittleEndian(s[1], s[2]), LittleEndian(s[3], s[4]),
        LittleEndian(s[5], s[6]), LittleEndian(s[7], s[8]),
        packed / 0x80 == 1, packed / 0x40 % 2 == 1, packed / 0x20 % 2 == 1, packed % 8), s[10..]))
  }

  /** GIF89a section 15: data sub-blocks, each a size byte and that many bytes, up to a zero size. */
  function ReadSubBlocks(s: seq<byte>): Option<Read<seq<byte>>>
    decreases |s|
  {
    if s == [] then None
    else if s[0] == 0 then Some(Read([], s[1..]))
    else if |s| < 1 + s[0] as int then None
    else
      match ReadSubBlocks(s[1 + s[0] as int..])
      case None => None
      case Some(r) => Some(Read(s[1..1 + s[0] as int] + r.value, r.rest))
  }

  /** GIF89a sections 20 to 23: one frame. */
  function ReadFrame(s: seq<byte>): Option<Read<DecodedFrame>>
  {
    match ReadGraphicControl(s)
    case None => None
    case Some(c) =>
      match ReadImageDescriptor(c.rest)
      case None => None
      case Some(d) =>
        var tableLength := if d.value.localColorTable then ColorTableLength(d.value.localColorTableSize) else 0;
        if |d.rest| < tableLength + 1 then None
        else
          var afterTable := d.rest[tableLength..];
          match ReadSubBlocks(afterTable[1..])
          case None => None
          case Some(data) =>
            Some(Read(DecodedFrame(c.value, d.value, d.rest[..tableLength], afterTable[0], data.value), data.rest))
  }

  /** Frames and trailers up to the end of the stream. */
  function ReadBlocks(s: seq<byte>): Option<seq<Block>>
    decreases |s|
  {
    if s == [] then Some([])
    else if s[0] == 0x3B then
      match ReadBlocks(s[1..])
      case None => None
      case Some(bs) => Some([TrailerBlock] + bs)
    else
      match ReadFrame(s)
      case None => None
      case Some(f) =>
        if |f.rest| >= |s| then None
        else
          match ReadBlocks(f.rest)
          case None => None
          case Some(bs) => Some([FrameBlock(f.value)] + bs)
  }

  /** GIF89a sections 17 to 27: a whole stream. */
  function DecodeGif(s: seq<byte>): Option<DecodedGif>
  {
    if |s| < 6 || s[..6] != Signature then None
    else
      match ReadScreenDescriptor(s[6..])
      case None => None
      case Some(screen) =>
        var tableLength := if screen.value.globalColorTable then ColorTableLength(screen.value.globalColorTableSize) else 0;
        if |screen.rest| < tableLength then None
        else
          match ReadLoopingExtension(screen.rest[tableLength..])
          case None => None
          case Some(loop) =>
            match ReadBlocks(loop.rest)
            case None => None
            case Some(blocks) => Some(DecodedGif(screen.value, screen.rest[..tableLength], loop.value, blocks))
  }

  /* ---------------------------------------------------------------- what the encoder wrote */

  /** The screen: the canvas size, no global colour table, colour resolution 7 (8 bits per
      primary colour), unsorted, size field 7, background colour 0, no aspect ratio. */
  function EncodedScreen(width: u16, height: u16): ScreenDescriptor
  {
    ScreenDescriptor(width as int, height as int, false, 7, false, 7, 0, 0)
  }

  /** The control block of every frame: disposal "clear canvas", no user input, transparent
      colour at index 0xFF. */
  function EncodedControl(delayTime: u16): GraphicControl
  {
    GraphicControl(ClearCanvas.RawValue() as int, false, true, delayTime as int, TransparentColorIndex)
  }

  /** The descriptor of every frame: the whole canvas, a local colour table of 2^(7+1) colours,
      not interlaced, unsorted. */
  function EncodedDescriptor(width: u16, height: u16): ImageDescriptor
  {
    ImageDescriptor(0, 0, width as int, height as int, true, false, false, 7)
  }

  function EncodedBlock(width: u16, height: u16, p: Part): Block
  {
    match p
    case FramePart(f) =>
      FrameBlock(DecodedFrame(EncodedControl(f.delayTime), EncodedDescriptor(width, height),
                              ColorTableBytes(f.colorTable), f.lzw.minCodeSize, f.lzw.bytes))
    case Trailer => TrailerBlock
  }

  function EncodedBlocks(width: u16, height: u16, parts: seq<Part>): (bs: seq<Block>)
    ensures |bs| == |parts|
  {
    if parts == [] then [] else [EncodedBlock(width, height, parts[0])] + EncodedBlocks(width, height, parts[1..])
  }

  /** Every palette fits the 256-entry table the descriptors announce. */
  predicate PalettesFit(parts: seq<Part>)
  {
    forall i :: 0 <= i < |parts| && parts[i].FramePart? ==> |parts[i].frame.colorTable| <= ColorCount
  }

  /* ---------------------------------------------------------------- round trips */

  lemma Split(a: seq<byte>, b: seq<byte>)
    ensures (a + b)[..|a|] == a && (a + b)[|a|..] == b
  {
  }

  lemma Nest(a: seq<byte>, b: seq<byte>, c: seq<byte>, d: seq<byte>, e: seq<byte>)
    ensures a + b + c + d + e == a + (b + (c + (d + e)))
  {
  }

  /** A colour table with size field 7 is 768 bytes long. */
  lemma LocalTableLength()
    ensures ColorTableLength(7) == 768
  {
  }

  lemma ScreenRoundTrip(width: u16, height: u16, rest: seq<byte>)
    ensures ReadScreenDescriptor(ScreenDescriptorBytes(width, height) + rest)
         == Some(Read(EncodedScreen(width, height), rest))
  {
    var w, h := Short(width), Short(height);
    var x := ScreenDescriptorBytes(width, height);
    assert x == [w[0], w[1], h[0], h[1], 0x77, 0x00, 0x00];
    Split(x, rest);
  }

  lemma LoopingRoundTrip(loopCount: u16, rest: seq<byte>)
    ensures ReadLoopingExtension(LoopingExtensionBytes(loopCount) + rest) == Some(Read(loopCount as int, rest))
  {
    var c := Short(loopCount);
    var x := LoopingExtensionBytes(loopCount);
    assert x == [0x21, 0xFF, 0x0B] + NetscapeIdentifier + [0x03, 0x01, c[0], c[1], 0x00];
    var s := x + rest;
    Split(x, rest);
    assert s[..3] == [0x21, 0xFF, 0x0B];
    assert s[3..14] == NetscapeIdentifier;
  }

  lemma ControlRoundTrip(delayTime: u16, rest: seq<byte>)
    ensures ReadGraphicControl(ControlExtensionBytes(delayTime) + rest) == Some(Read(EncodedControl(delayTime), rest))
  {
    var t := Short(delayTime);
    var x := ControlExtensionBytes(delayTime);
    assert x == [0x21, 0xF9, 0x04, 0x09, t[0], t[1], 0xFF, 0x00];
    Split(x, rest);
    ControlFields();
  }

  /** The packed byte 0x09 of the graphic control extension: disposal 2, no user input,
      transparent colour set. */
  lemma ControlFields()
    ensures 0x09 / 0x04 % 8 == 2 && 0x09 / 0x02 % 2 == 0 && 0x09 % 2 == 1
  {
  }

  lemma DescriptorRoundTrip(width: u16, height: u16, rest: seq<byte>)
    ensures ReadImageDescriptor(ImageDescriptorBytes(width, height) + rest)
         == Some(Read(EncodedDescriptor(width, height), rest))
  {
    var w, h := Short(width), Short(height);
    var x := ImageDescriptorBytes(width, height);
    assert x == [0x2C, 0, 0, 0, 0, w[0], w[1], h[0], h[1], 0x87];
    Split(x, rest);
  }

  /** The sub-blocks and terminator the encoder writes read back as the compressed bytes. */
  lemma {:induction false} SubBlocksRoundTrip(bytes: seq<byte>, rest: seq<byte>)
    ensures ReadSubBlocks(SubBlocks(bytes) + [0x00] + rest) == Some(Read(bytes, rest))
    decreases |bytes|
  {
    var s := SubBlocks(bytes) + [0x00] + rest;
    if bytes == [] {
      assert s == [0x00] + rest;
    } else {
      var n := if |bytes| < 0xFF then |bytes| else 0xFF;
      var tail := SubBlocks(bytes[n..]) + [0x00] + rest;
      assert s == [n as byte] + bytes[..n] + tail;
      assert s[0] as int == n;
      assert s[1..1 + n] == bytes[..n];
      assert s[1 + n..] == tail;
      SubBlocksRoundTrip(bytes[n..], rest);
      assert bytes[..n] + bytes[n..] == bytes;
    }
  }

  /** The sizes of the sub-blocks are all 255 but the last, and together they hold every byte. */
  lemma {:induction false} SubBlocksLayout(bytes: seq<byte>)
    ensures SubBlocks(bytes) == SizedBlocks(bytes, SubBlockSizes(|bytes|))
    decreases |bytes|
  {
    if bytes != [] && |bytes| > 0xFF {
      SubBlocksLayout(bytes[0xFF..]);
    }
  }

  /** Sub-blocks of the given sizes, cut from the front of `bytes`. */
  function SizedBlocks(bytes: seq<byte>, sizes: seq<nat>): seq<byte>
    decreases sizes
  {
    if sizes == [] || sizes[0] > |bytes| || sizes[0] > 0xFF then []
    else [sizes[0] as byte] + bytes[..sizes[0]] + SizedBlocks(bytes[sizes[0]..], sizes[1..])
  }

  /** After the descriptor: the 768-byte colour table, the code size and the sub-blocks. */
  lemma TableAndDataRoundTrip(table: seq<byte>, lzw: LzwOutput, rest: seq<byte>)
    requires |table| == 768
    ensures var s := table + (ImageDataBytes(lzw) + rest);
      && |s| >= 769 && s[..768] == table && s[768..][0] == lzw.minCodeSize
      && ReadSubBlocks(s[768..][1..]) == Some(Read(lzw.bytes, rest))
  {
    var s := table + (ImageDataBytes(lzw) + rest);
    assert s[768..] == ImageDataBytes(lzw) + rest;
    assert s[768..][1..] == SubBlocks(lzw.bytes) + [0x00] + rest;
    SubBlocksRoundTrip(lzw.bytes, rest);
  }

  lemma FrameRoundTrip(width: u16, height: u16, f: Frame, rest: seq<byte>)
    requires |f.colorTable| <= ColorCount
    ensures ReadFrame(FrameBytes(width, height, f) + rest)
         == Some(Read(EncodedBlock(width, height, FramePart(f)).frame, rest))
  {
    var c, d, t, i := ControlExtensionBytes(f.delayTime), ImageDescriptorBytes(width, height),
                      ColorTableBytes(f.colorTable), ImageDataBytes(f.lzw);
    Nest(c, d, t, i, rest);
    ControlRoundTrip(f.delayTime, d + (t + (i + rest)));
    DescriptorRoundTrip(width, height, t + (i + rest));
    ColorTableLayout(f.colorTable);
    LocalTableLength();
    TableAndDataRoundTrip(t, f.lzw, rest);
  }

  lemma {:induction false} BlocksRoundTrip(width: u16, height: u16, parts: seq<Part>)
    requires PalettesFit(parts)
    ensures ReadBlocks(PartsBytes(width, height, parts)) == Some(EncodedBlocks(width, height, parts))
  {
    if parts != [] {
      var rest := PartsBytes(width, height, parts[1..]);
      forall i | 0 <= i < |parts[1..]| && parts[1..][i].FramePart?
        ensures |parts[1..][i].frame.colorTable| <= ColorCount
      {
        assert parts[1..][i] == parts[i + 1];
      }
      BlocksRoundTrip(width, height, parts[1..]);
      match parts[0]
      case Trailer =>
        assert PartsBytes(width, height, parts) == [0x3B] + rest;
        assert ([0x3B] + rest)[1..] == rest;
      case FramePart(f) =>
        assert parts[0].FramePart?;
        FrameRoundTrip(width, height, f, rest);
        assert PartsBytes(width, height, parts) == FrameBytes(width, height, f) + rest;
        assert FrameBytes(width, height, f)[0] == 0x21;
    }
  }

  /** Decoding a stream the encoder wrote gives back the canvas size, the loop count, and every
      frame and trailer in the order they were appended, each field as written. */
  lemma GifRoundTrip(width: u16, height: u16, loopCount: u16, parts: seq<Part>)
    requires PalettesFit(parts)
    ensures DecodeGif(Prologue(width, height, loopCount) + PartsBytes(width, height, parts))
         == Some(DecodedGif(EncodedScreen(width, height), [], loopCount as int, EncodedBlocks(width, height, parts)))
  {
    var sd, le, ps := ScreenDescriptorBytes(width, height), LoopingExtensionBytes(loopCount), PartsBytes(width, height, parts);
    var s := Prologue(width, height, loopCount) + ps;
    Associative(Signature + sd, le, ps);
    Associative(Signature, sd, le + ps);
    Split(Signature, sd + (le + ps));
    ScreenRoundTrip(width, height, le + ps);
    LoopingRoundTrip(loopCount, ps);
    BlocksRoundTrip(width, height, parts);
  }

  /** The buffer of an encoder decodes to what was appended to it. */
  lemma EncoderOutputDecodes(g: AnimatedGif)
    requires g.Valid() && PalettesFit(g.parts)
    ensures DecodeGif(g.data)
         == Some(DecodedGif(EncodedScreen(g.width, g.height), [], g.loopCount as int, EncodedBlocks(g.width, g.height, g.parts)))
  {
    GifRoundTrip(g.width, g.height, g.loopCount, g.parts);
  }
}
