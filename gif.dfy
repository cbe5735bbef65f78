/**
  A GIF89a encoder for looping animations. The stream is an append-only byte buffer: the
  constructor writes the header, the logical screen descriptor and the Netscape looping
  extension, every frame appends a graphic control extension, an image descriptor, a local
  colour table and LZW-compressed image data in sub-blocks, and the trailer ends the stream.
  The LZW compressor and the colour quantizer are given to the encoder as functions.
*/
module Gif {

  newtype byte = x: int | 0 <= x < 0x100
  newtype u16 = x: int | 0 <= x < 0x1_0000

  /** The size of every local colour table and the number of bytes of one colour in it. */
  const ColorCount: nat := 256
  const ColorChannels: nat := 3
  /** The palette index the quantizer keeps for transparent pixels. */
  const TransparentColorIndex: byte := 0xFF
  /** Bits per pixel minus one, also the colour table size field. */
  const ColorResolution: bv8 := 7

  /** Packed bytes of the screen descriptor, the graphic control extension and the image
      descriptor, as the encoder assembles them with `PackedFieldByte`. */
  const ScreenPackedFields: byte := 0x77
  const ControlPackedFields: byte := 0x09
  const ImagePackedFields: byte := 0x87

  datatype Option<T> = None | Some(value: T)

  datatype Color = Color(red: byte, green: byte, blue: byte, alpha: byte)

  /** A frame as the caller hands it over; the pixels are for the quantizer only. */
  datatype Image = Image(width: nat, height: nat, pixels: seq<Color>)

  /** What the quantizer produces: a palette and the palette index of the pixel at (y, x). */
  datatype QuantizedImage = QuantizedImage(colorTable: seq<Color>, index: (int, int) -> int)

  /** What the LZW compressor produces for a sequence of palette indices. */
  datatype LzwOutput = LzwOutput(minCodeSize: byte, bytes: seq<byte>)

  datatype DisposalMethod = KeepCanvas | ClearCanvas | RestoreCanvas {
    function RawValue(): (r: byte)
      ensures 1 <= r <= 3
    {
      match this
      case KeepCanvas => 1
      case ClearCanvas => 2
      case RestoreCanvas => 3
    }
  }

  datatype AnimatedGifError = FrameSizeMismatch(frameWidth: int, frameHeight: int, width: int, height: int)

  /* ---------------------------------------------------------------- bit packing */

  /** The low `bits` bits set. */
  function Mask(bits: nat): (m: bv8)
    requires bits <= 8
    ensures m == 0xFF >> (8 - bits)
    ensures bits < 8 ==> m >> bits == 0
  {
    ((1 as bv8) << bits) - 1
  }

  /** The `bits` bits of `raw` that start `from` bits below the most significant one. */
  function Field(raw: bv8, from: nat, bits: nat): bv8
    requires from + bits <= 8
  {
    (raw >> (8 - from - bits)) & Mask(bits)
  }

  /** The bits of a packed byte that lie at or after bit index `from`, counted from the top. */
  function Tail(from: nat): bv8
    requires from <= 8
  {
    0xFF >> from
  }

  /** `appended`, cut to `bits` bits, shifted to start at bit index `bitIndex`. A negative
      shift amount shifts right, as Swift's shift operators do. */
  function Placed(appended: bv8, bits: nat, bitIndex: nat): (r: bv8)
    requires bits <= 7 && bitIndex < 8
    ensures bits == 0 ==> r == 0
    ensures bitIndex + bits == 8 ==> r == appended & Mask(bits)
  {
    var masked := appended & Mask(bits);
    var shift := 8 - bits - bitIndex;
    if shift >= 0 then masked << shift else masked >> (-shift)
  }

  /** Appending a field that fits writes it MSB-first right after the fields before it: the new
      field reads back as the low `bits` bits of `appended`... */
  lemma AppendPlacesField(raw: bv8, bitIndex: nat, appended: bv8, bits: nat)
    requires bits <= 7 && bitIndex < 8 && bitIndex + bits <= 8
    requires raw & Tail(bitIndex) == 0
    ensures Field(raw | Placed(appended, bits, bitIndex), bitIndex, bits) == appended & Mask(bits)
  {
  }

  /** ... the bits before it are unchanged ... */
  lemma AppendKeepsEarlierFields(raw: bv8, bitIndex: nat, appended: bv8, bits: nat)
    requires bits <= 7 && bitIndex < 8 && bitIndex + bits <= 8
    ensures (raw | Placed(appended, bits, bitIndex)) & !Tail(bitIndex) == raw & !Tail(bitIndex)
  {
  }

  /** ... and the bits after it stay clear. */
  lemma AppendLeavesRestClear(raw: bv8, bitIndex: nat, appended: bv8, bits: nat)
    requires bits <= 7 && bitIndex < 8 && bitIndex + bits <= 8
    requires raw & Tail(bitIndex) == 0
    ensures (raw | Placed(appended, bits, bitIndex)) & Tail(bitIndex + bits) == 0
  {
  }

  /** Appending never clears a bit that is already set. */
  lemma AppendKeepsBits(raw: bv8, bitIndex: nat, appended: bv8, bits: nat)
    requires bits <= 7 && bitIndex < 8
    ensures (raw | Placed(appended, bits, bitIndex)) & raw == raw
  {
  }

  /** A byte assembled field by field, most significant field first. */
  class PackedFieldByte {
    var rawValue: bv8
    var bitIndex: nat

    /** Bits at or after the next bit index have not been written yet. */
    ghost predicate Valid()
      reads this
    {
      bitIndex <= 8 ==> rawValue & Tail(bitIndex) == 0
    }

    constructor ()
      ensures Valid() && rawValue == 0 && bitIndex == 0
    {
      rawValue := 0;
      bitIndex := 0;
    }

    /** Appends the low `bits` bits of `appended`. A mask of eight bits would overflow, so
        `bits` is at most 7, and the next field has to start inside the byte. */
    method Append(appended: bv8, bits: nat)
      requires Valid() && bits <= 7 && bitIndex < 8
      modifies this
      ensures Valid()
      ensures rawValue == old(rawValue) | Placed(appended, bits, old(bitIndex))
      ensures bitIndex == old(bitIndex) + bits
    {
      rawValue := rawValue | Placed(appended, bits, bitIndex);
      bitIndex := bitIndex + bits;
      if bitIndex <= 8 {
        AppendLeavesRestClear(old(rawValue), old(bitIndex), appended, bits);
      }
    }

    /** Appends a one-bit flag. */
    method AppendFlag(flag: bool)
      requires Valid() && bitIndex < 8
      modifies this
      ensures Valid()
      ensures rawValue == old(rawValue) | Placed(if flag then 1 else 0, 1, old(bitIndex))
      ensures bitIndex == old(bitIndex) + 1
    {
      Append(if flag then 1 else 0, 1);
    }
  }

  /* ---------------------------------------------------------------- bytes of the stream */

  /** A 16-bit value, least significant byte first. */
  function Short(v: u16): (r: seq<byte>)
    ensures |r| == 2 && r[0] as int + 256 * r[1] as int == v as int
  {
    [(v % 256) as byte, (v / 256) as byte]
  }

  /** The UTF-8 encoding of one Unicode scalar value. */
  function Utf8Char(c: char): (r: seq<byte>)
    ensures 1 <= |r| <= 4
    ensures (c as int < 0x80) <==> |r| == 1
    ensures |r| == 1 ==> r[0] as int == c as int
    ensures forall i :: 1 <= i < |r| ==> 0x80 <= r[i] < 0xC0
  {
    var cp := c as int;
    if cp < 0x80 then [cp as byte]
    else if cp < 0x800 then [(0xC0 + cp / 0x40) as byte, (0x80 + cp % 0x40) as byte]
    else if cp < 0x1_0000 then
      [(0xE0 + cp / 0x1000) as byte, (0x80 + cp / 0x40 % 0x40) as byte, (0x80 + cp % 0x40) as byte]
    else
      [(0xF0 + cp / 0x4_0000) as byte, (0x80 + cp / 0x1000 % 0x40) as byte,
       (0x80 + cp / 0x40 % 0x40) as byte, (0x80 + cp % 0x40) as byte]
  }

  /** The UTF-8 encoding of a string. */
  function Utf8(s: string): (r: seq<byte>)
    ensures |s| <= |r| <= 4 * |s|
    ensures r == [] <==> s == []
  {
    if s == [] then [] else Utf8Char(s[0]) + Utf8(s[1..])
  }

  /** An ASCII string encodes to one byte per character, each its code. */
  lemma {:induction false} Utf8Ascii(s: string)
    requires forall i :: 0 <= i < |s| ==> s[i] as int < 0x80
    ensures |Utf8(s)| == |s|
    ensures forall i :: 0 <= i < |s| ==> Utf8(s)[i] as int == s[i] as int
  {
    if s != [] {
      Utf8Ascii(s[1..]);
    }
  }

  /** Stream header: the signature "GIF" and the version "89a", in ASCII. */
  const Signature: seq<byte> := [0x47, 0x49, 0x46, 0x38, 0x39, 0x61]

  /** The application identifier and authentication code "NETSCAPE2.0", in ASCII. */
  const NetscapeIdentifier: seq<byte> := [0x4E, 0x45, 0x54, 0x53, 0x43, 0x41, 0x50, 0x45, 0x32, 0x2E, 0x30]

  /** An ASCII string encodes to the bytes of its character codes. */
  lemma AsciiBytes(s: string, bytes: seq<byte>)
    requires |s| == |bytes|
    requires forall i :: 0 <= i < |s| ==> s[i] as int < 0x80 && bytes[i] as int == s[i] as int
    ensures Utf8(s) == bytes
  {
    Utf8Ascii(s);
  }

  lemma SignatureIsUtf8()
    ensures Utf8("GIF89a") == Signature
  {
    AsciiBytes("GIF89a", Signature);
  }

  lemma NetscapeIdentifierIsUtf8()
    ensures Utf8("NETSCAPE2.0") == NetscapeIdentifier
  {
    AsciiBytes("NETSCAPE2.0", NetscapeIdentifier);
  }

  /** The logical screen descriptor: canvas size, no global colour table, colour resolution
      and table size 7, background colour 0, no aspect ratio. */
  function ScreenDescriptorBytes(width: u16, height: u16): (r: seq<byte>)
    ensures |r| == 7
  {
    Short(width) + Short(height) + [ScreenPackedFields, 0, 0]
  }

  /** The application extension carrying the Netscape looping block. */
  function LoopingExtensionBytes(loopCount: u16): (r: seq<byte>)
    ensures |r| == 19
  {
    [0x21, 0xFF, 0x0B] + NetscapeIdentifier + [0x03, 0x01] + Short(loopCount) + [0x00]
  }

  /** Everything the constructor writes. */
  function Prologue(width: u16, height: u16, loopCount: u16): (r: seq<byte>)
    ensures |r| == 32 && r[..6] == Signature
  {
    Signature + ScreenDescriptorBytes(width, height) + LoopingExtensionBytes(loopCount)
  }

  /** The stream the constructor writes is 32 bytes long and is laid out field by field. */
  lemma PrologueLayout(width: u16, height: u16, loopCount: u16)
    ensures var p := Prologue(width, height, loopCount);
      && |p| == 32
      && p[..6] == Signature
      && p[6..10] == Short(width) + Short(height)
      && p[10..13] == [0x77, 0x00, 0x00]
      && p[13..16] == [0x21, 0xFF, 0x0B]
      && p[16..27] == NetscapeIdentifier
      && p[27..29] == [0x03, 0x01]
      && p[29..31] == Short(loopCount)
      && p[31] == 0x00
  {
  }

  /** The graphic control extension of a frame: disposal 2, no user input, a transparent colour
      at index 0xFF, and the delay in hundredths of a second. */
  function ControlExtensionBytes(delayTime: u16): (r: seq<byte>)
    ensures |r| == 8
  {
    [0x21, 0xF9, 0x04, ControlPackedFields] + Short(delayTime) + [TransparentColorIndex, 0x00]
  }

  /** The image descriptor of a frame: it covers the whole canvas and has a local colour table
      of 2^(7+1) entries. */
  function ImageDescriptorBytes(width: u16, height: u16): (r: seq<byte>)
    ensures |r| == 10
  {
    [0x2C] + Short(0) + Short(0) + Short(width) + Short(height) + [ImagePackedFields]
  }

  /** Red, green and blue of every colour, in palette order. */
  function RgbBytes(colors: seq<Color>): (r: seq<byte>)
    ensures |r| == 3 * |colors|
    ensures forall j :: 0 <= j < |colors| ==>
      r[3 * j] == colors[j].red && r[3 * j + 1] == colors[j].green && r[3 * j + 2] == colors[j].blue
  {
    if colors == [] then []
    else
      var last := colors[|colors| - 1];
      RgbBytes(colors[..|colors| - 1]) + [last.red, last.green, last.blue]
  }

  /** The palette's first k + 1 colours add the red, green and blue of colour k. */
  lemma RgbBytesStep(colors: seq<Color>, k: nat)
    requires k < |colors|
    ensures RgbBytes(colors[..k + 1]) == RgbBytes(colors[..k]) + [colors[k].red, colors[k].green, colors[k].blue]
  {
    assert colors[..k + 1][..k] == colors[..k];
  }

  function Zeros(n: nat): (r: seq<byte>)
    ensures |r| == n && forall i :: 0 <= i < n ==> r[i] == 0
  {
    if n == 0 then [] else Zeros(n - 1) + [0]
  }

  /** The local colour table: every colour's red, green and blue, then zeros up to 256 colours.
      A palette of more than 256 colours is written out whole, without padding. */
  function ColorTableBytes(colors: seq<Color>): (r: seq<byte>)
    ensures |r| == if |colors| <= ColorCount then 768 else 3 * |colors|
    ensures r[..3 * |colors|] == RgbBytes(colors)
  {
    RgbBytes(colors) + Zeros(if 3 * |colors| < ColorCount * ColorChannels then ColorCount * ColorChannels - 3 * |colors| else 0)
  }

  /** A palette of at most 256 colours fills exactly 768 bytes: its colours first, zeros after. */
  lemma ColorTableLayout(colors: seq<Color>)
    requires |colors| <= ColorCount
    ensures var t := ColorTableBytes(colors);
      && |t| == 768
      && t[..3 * |colors|] == RgbBytes(colors)
      && forall i :: 3 * |colors| <= i < 768 ==> t[i] == 0
  {
  }

  /** The compressed bytes cut into sub-blocks of at most 255 bytes, each preceded by its size. */
  function SubBlocks(bytes: seq<byte>): (r: seq<byte>)
    ensures |r| == |bytes| + |SubBlockSizes(|bytes|)|
    ensures r == [] <==> bytes == []
    decreases |bytes|
  {
    if bytes == [] then []
    else
      var n := if |bytes| < 0xFF then |bytes| else 0xFF;
      [n as byte] + bytes[..n] + SubBlocks(bytes[n..])
  }

  /** The sum of a sequence of sizes. */
  function Total(sizes: seq<nat>): nat
  {
    if sizes == [] then 0 else sizes[0] + Total(sizes[1..])
  }

  /** The sizes of the sub-blocks `SubBlocks` writes: all 255 but the last, which holds the rest;
      together they hold every byte. */
  function SubBlockSizes(count: nat): (sizes: seq<nat>)
    ensures forall i :: 0 <= i < |sizes| ==> 0 < sizes[i] <= 0xFF
    ensures forall i :: 0 <= i < |sizes| - 1 ==> sizes[i] == 0xFF
    ensures Total(sizes) == count
    decreases count
  {
    if count == 0 then []
    else if count <= 0xFF then [count]
    else
      var rest := SubBlockSizes(count - 0xFF);
      assert ([0xFF] + rest)[1..] == rest;
      [0xFF] + rest
  }

  /** Table based image data: the LZW minimum code size, the sub-blocks and a terminator. */
  function ImageDataBytes(lzw: LzwOutput): (r: seq<byte>)
    ensures |r| >= 2 && r[0] == lzw.minCodeSize && r[|r| - 1] == 0x00
    ensures |r| == 2 <==> lzw.bytes == []
  {
    [lzw.minCodeSize] + SubBlocks(lzw.bytes) + [0x00]
  }

  /** Without compressed bytes the image data is the code size and the terminator alone. */
  lemma EmptyImageData(minCodeSize: byte)
    ensures ImageDataBytes(LzwOutput(minCodeSize, [])) == [minCodeSize, 0x00]
  {
  }

  /** The palette indices of the first `rows` rows of a `width`-wide image, row after row. */
  function RowMajor(q: QuantizedImage, width: nat, rows: nat): (r: seq<int>)
    ensures |r| == rows * width
  {
    if rows == 0 then []
    else
      assert rows * width == (rows - 1) * width + width;
      RowMajor(q, width, rows - 1) + Row(q, rows - 1, width)
  }

  /** The palette indices of the first `columns` pixels of row `y`. */
  function Row(q: QuantizedImage, y: nat, columns: nat): (r: seq<int>)
    ensures |r| == columns && forall x :: 0 <= x < columns ==> r[x] == q.index(y, x)
  {
    if columns == 0 then [] else Row(q, y, columns - 1) + [q.index(y, columns - 1)]
  }

  /** The compressor sees pixel (y, x) at position y * width + x. */
  lemma {:induction false} RowMajorAt(q: QuantizedImage, width: nat, rows: nat, y: nat, x: nat)
    requires y < rows && x < width
    ensures y * width + x < |RowMajor(q, width, rows)|
    ensures RowMajor(q, width, rows)[y * width + x] == q.index(y, x)
  {
    if y == rows - 1 {
    } else {
      RowMajorAt(q, width, rows - 1, y, x);
    }
  }

  /** One frame as it stands in the stream. */
  datatype Frame = Frame(delayTime: u16, colorTable: seq<Color>, lzw: LzwOutput)

  /** What follows the prologue: frames and trailers, in the order they were appended. */
  datatype Part = FramePart(frame: Frame) | Trailer

  /** The frame the encoder makes of an image: the palette of the quantizer, asked for 256
      colours with index 0xFF kept for transparency, and the compressor's output for the
      palette indices in row-major order. */
  function EncodedFrame(frame: Image, delayTime: u16, quantize: (Image, nat, nat) -> QuantizedImage,
                        lzw: (nat, seq<int>) -> LzwOutput): (r: Frame)
    ensures r.delayTime == delayTime
    ensures r.colorTable == quantize(frame, ColorCount, TransparentColorIndex as nat).colorTable
    ensures r.lzw == lzw(ColorCount, RowMajor(quantize(frame, ColorCount, TransparentColorIndex as nat), frame.width, frame.height))
  {
    var q := quantize(frame, ColorCount, TransparentColorIndex as nat);
    Frame(delayTime, q.colorTable, lzw(ColorCount, RowMajor(q, frame.width, frame.height)))
  }

  /** A frame's blocks: control extension, image descriptor, local colour table, image data. */
  function FrameBytes(width: u16, height: u16, f: Frame): (r: seq<byte>)
    ensures |r| >= 20 && r[..18] == ControlExtensionBytes(f.delayTime) + ImageDescriptorBytes(width, height)
    ensures |f.colorTable| <= ColorCount ==> |r| == 786 + |ImageDataBytes(f.lzw)|
    ensures r[|r| - 1] == 0x00
  {
    ControlExtensionBytes(f.delayTime) + ImageDescriptorBytes(width, height)
      + ColorTableBytes(f.colorTable) + ImageDataBytes(f.lzw)
  }

  function PartBytes(width: u16, height: u16, p: Part): seq<byte>
  {
    match p
    case FramePart(f) => FrameBytes(width, height, f)
    case Trailer => [0x3B]
  }

  function PartsBytes(width: u16, height: u16, parts: seq<Part>): seq<byte>
  {
    if parts == [] then [] else PartBytes(width, height, parts[0]) + PartsBytes(width, height, parts[1..])
  }

  lemma {:induction false} PartsBytesAppend(width: u16, height: u16, parts: seq<Part>, p: Part)
    ensures PartsBytes(width, height, parts + [p]) == PartsBytes(width, height, parts) + PartBytes(width, height, p)
  {
    if parts != [] {
      assert (parts + [p])[1..] == parts[1..] + [p];
      PartsBytesAppend(width, height, parts[1..], p);
      Associative(PartBytes(width, height, parts[0]), PartsBytes(width, height, parts[1..]),
                  PartBytes(width, height, p));
    }
  }

  lemma Associative<T>(a: seq<T>, b: seq<T>, c: seq<T>)
    ensures a + b + c == a + (b + c)
  {
  }

  lemma FourBlocks<T>(d: seq<T>, a: seq<T>, b: seq<T>, c: seq<T>, e: seq<T>)
    ensures d + a + b + c + e == d + (a + b + c + e)
  {
  }

  lemma ThreeBytes(d: seq<byte>, x: byte, y: byte, z: byte)
    ensures d + [x] + [y] + [z] == d + [x, y, z]
  {
  }

  lemma SliceGrows<T>(prefix: seq<T>, s: seq<T>, from: nat, to: nat)
    requires from <= to < |s|
    ensures prefix + s[from..to] + [s[to]] == prefix + s[from..to + 1]
  {
    assert s[from..to] + [s[to]] == s[from..to + 1];
  }

  /** Writing one sub-block leaves `SubBlocks` of the rest to write. */
  lemma SubBlockStep(before: seq<byte>, bytes: seq<byte>, from: nat, n: nat, to: nat)
    requires from < |bytes| && n == (if |bytes| - from < 0xFF then |bytes| - from else 0xFF) && to == from + n
    ensures before + [n as byte] + bytes[from..to] + SubBlocks(bytes[to..]) == before + SubBlocks(bytes[from..])
  {
    var rest := bytes[from..];
    assert rest[..n] == bytes[from..to];
    assert rest[n..] == bytes[to..];
    Associative(before, [n as byte] + bytes[from..to], SubBlocks(bytes[to..]));
  }

  /** The looping extension, byte by byte as the encoder appends it. */
  lemma LoopingBytesInOrder(d: seq<byte>, loopCount: u16)
    ensures d + [0x21] + [0xFF] + [0x0B] + NetscapeIdentifier + [0x03] + [0x01] + Short(loopCount) + [0x00]
         == d + LoopingExtensionBytes(loopCount)
  {
  }

  /* ---------------------------------------------------------------- the encoder */

  class AnimatedGif {
    const width: u16
    const height: u16
    var data: seq<byte>
    /** The loop count and the parts appended so far, which `data` encodes. */
    ghost const loopCount: u16
    ghost var prologue: seq<byte>
    ghost var parts: seq<Part>

    /** The buffer holds what the constructor wrote followed by the appended parts. */
    ghost predicate Valid()
      reads this
    {
      && prologue == Prologue(width, height, loopCount)
      && data == prologue + PartsBytes(width, height, parts)
    }

    /** A loop count of 0 loops forever. */
    constructor (width: u16, height: u16, loopCount: u16 := 0)
      ensures Valid() && this.width == width && this.height == height
      ensures this.loopCount == loopCount && data == Prologue(width, height, loopCount) && parts == []
    {
      this.width := width;
      this.height := height;
      this.loopCount := loopCount;
      parts := [];
      data := [];
      new;
      AppendHeader();
      AppendLogicalScreenDescriptor();
      AppendLoopingApplicationExtensionBlock(loopCount);
      prologue := data;
    }

    /** The number of colours the quantizer and the compressor are given: a full local colour
        table of 768 bytes, whose last entry is the transparent index. */
    function ColorCountOf(): (n: nat)
      ensures n * ColorChannels == 768
      ensures TransparentColorIndex as nat == n - 1
    {
      ColorCount
    }

    method AppendByte(b: byte)
      modifies this`data
      ensures data == old(data) + [b]
    {
      data := data + [b];
    }

    method AppendShort(v: u16)
      modifies this`data
      ensures data == old(data) + Short(v)
    {
      AppendByte((v % 256) as byte);
      AppendByte((v / 256 % 256) as byte);
    }

    method AppendString(s: string)
      modifies this`data
      ensures data == old(data) + Utf8(s)
    {
      data := data + Utf8(s);
    }

    method AppendHeader()
      modifies this`data
      ensures data == old(data) + Signature
    {
      AppendString("GIF89a");
      SignatureIsUtf8();
    }

    method AppendLogicalScreenDescriptor()
      modifies this`data
      ensures data == old(data) + ScreenDescriptorBytes(width, height)
    {
      AppendShort(width);
      AppendShort(height);
      var globalColorTableFlag := false;
      var sortFlag := false;
      var sizeOfGlobalColorTable := ColorResolution;
      var packedField := new PackedFieldByte();
      packedField.AppendFlag(globalColorTableFlag);
      packedField.Append(ColorResolution, 3);
      packedField.AppendFlag(sortFlag);
      packedField.Append(sizeOfGlobalColorTable, 3);
      assert packedField.rawValue == 0x77;
      AppendByte(packedField.rawValue as int as byte);
      AppendByte(0);  // background colour index
      AppendByte(0);  // pixel aspect ratio
    }

    method AppendLoopingApplicationExtensionBlock(loopCount: u16)
      modifies this`data
      ensures data == old(data) + LoopingExtensionBytes(loopCount)
    {
      AppendByte(0x21);  // extension introducer
      AppendByte(0xFF);  // application extension label
      AppendByte(0x0B);  // block size
      AppendString("NETSCAPE2.0");
      NetscapeIdentifierIsUtf8();
      AppendByte(0x03);  // sub-block size
      AppendByte(0x01);  // loop sub-block id
      AppendShort(loopCount);
      AppendByte(0x00);  // block terminator
      LoopingBytesInOrder(old(data), loopCount);
    }

    /** The disposal method passed in is shadowed by the constant `ClearCanvas`: every frame
        asks for the canvas to be cleared. */
    method AppendGraphicsControlExtension(disposalMethod: DisposalMethod, delayTime: u16)
      modifies this`data
      ensures data == old(data) + ControlExtensionBytes(delayTime)
    {
      AppendByte(0x21);  // extension introducer
      AppendByte(0xF9);  // graphic control label
      AppendByte(0x04);  // block size
      var disposal := ClearCanvas.RawValue();
      var userInputFlag := false;
      var transparentColorFlag := true;
      var packedField := new PackedFieldByte();
      packedField.Append(0, 3);
      packedField.Append(disposal as bv8, 3);
      packedField.AppendFlag(userInputFlag);
      packedField.AppendFlag(transparentColorFlag);
      assert packedField.rawValue == 0x09;
      AppendByte(packedField.rawValue as int as byte);
      AppendShort(delayTime);
      AppendByte(TransparentColorIndex);
      AppendByte(0x00);  // block terminator
    }

    method AppendImageDescriptor()
      modifies this`data
      ensures data == old(data) + ImageDescriptorBytes(width, height)
    {
      AppendByte(0x2C);  // image separator
      AppendShort(0);    // left
      AppendShort(0);    // top
      AppendShort(width);
      AppendShort(height);
      var localColorTableFlag := true;
      var interlaceFlag := false;
      var sortFlag := false;
      var sizeOfLocalColorTable := ColorResolution;
      var packedField := new PackedFieldByte();
      packedField.AppendFlag(localColorTableFlag);
      packedField.AppendFlag(interlaceFlag);
      packedField.AppendFlag(sortFlag);
      packedField.Append(0, 2);
      packedField.Append(sizeOfLocalColorTable, 3);
      assert packedField.rawValue == 0x87;
      AppendByte(packedField.rawValue as int as byte);
    }

    method AppendLocalColorTable(colorTable: seq<Color>)
      modifies this`data
      ensures data == old(data) + ColorTableBytes(colorTable)
    {
      var maxColorBytes := ColorCount * ColorChannels;
      var i := 0;
      for k := 0 to |colorTable|
        invariant i == 3 * k
        invariant data == old(data) + RgbBytes(colorTable[..k])
      {
        var color := colorTable[k];
        ghost var before := data;
        AppendByte(color.red);
        AppendByte(color.green);
        AppendByte(color.blue);
        i := i + ColorChannels;
        RgbBytesStep(colorTable, k);
        ThreeBytes(before, color.red, color.green, color.blue);
        Associative(old(data), RgbBytes(colorTable[..k]), [color.red, color.green, color.blue]);
      }
      assert colorTable[..|colorTable|] == colorTable;
      ghost var written := data;
      while i < maxColorBytes
        invariant 3 * |colorTable| <= i
        invariant i <= maxColorBytes || i == 3 * |colorTable|
        invariant data == written + Zeros(i - 3 * |colorTable|)
      {
        AppendByte(0x00);
        i := i + 1;
      }
    }

    /** Feeds every palette index to the compressor, row after row, then writes the code size
        and the compressed bytes in sub-blocks of at most 255 bytes, and a terminator. */
    method AppendImageDataAsLzw(quantizedFrame: QuantizedImage, width: nat, height: nat,
                                lzw: (nat, seq<int>) -> LzwOutput)
      modifies this`data
      ensures data == old(data) + ImageDataBytes(lzw(ColorCount, RowMajor(quantizedFrame, width, height)))
    {
      var fed: seq<int> := [];
      for y := 0 to height
        invariant fed == RowMajor(quantizedFrame, width, y)
        invariant data == old(data)
      {
        for x := 0 to width
          invariant fed == RowMajor(quantizedFrame, width, y) + Row(quantizedFrame, y, x)
          invariant data == old(data)
        {
          Associative(RowMajor(quantizedFrame, width, y), Row(quantizedFrame, y, x), [quantizedFrame.index(y, x)]);
          fed := fed + [quantizedFrame.index(y, x)];
        }
      }
      var encoder := lzw(ColorCount, fed);
      AppendByte(encoder.minCodeSize);
      AppendSubBlocks(encoder.bytes);
      Associative(old(data), [encoder.minCodeSize], SubBlocks(encoder.bytes));
      AppendByte(0x00);  // block terminator
      Associative(old(data), [encoder.minCodeSize] + SubBlocks(encoder.bytes), [0x00]);
    }

    /** The compressed bytes, written in sub-blocks of at most 255 bytes, each preceded by its
        size. */
    method AppendSubBlocks(lzwEncoded: seq<byte>)
      modifies this`data
      ensures data == old(data) + SubBlocks(lzwEncoded)
    {
      var byteIndex := 0;
      while byteIndex < |lzwEncoded|
        invariant byteIndex <= |lzwEncoded|
        invariant data + SubBlocks(lzwEncoded[byteIndex..]) == old(data) + SubBlocks(lzwEncoded)
      {
        var subBlockByteCount := if |lzwEncoded| - byteIndex < 0xFF then |lzwEncoded| - byteIndex else 0xFF;
        ghost var blockStart, before := byteIndex, data;
        AppendByte(subBlockByteCount as byte);
        ghost var header := data;
        for k := 0 to subBlockByteCount
          invariant byteIndex == blockStart + k
          invariant data == header + lzwEncoded[blockStart..byteIndex]
        {
          SliceGrows(header, lzwEncoded, blockStart, byteIndex);
          AppendByte(lzwEncoded[byteIndex]);
          byteIndex := byteIndex + 1;
        }
        SubBlockStep(before, lzwEncoded, blockStart, subBlockByteCount, byteIndex);
      }
      assert lzwEncoded[byteIndex..] == [];
    }

    /** The four blocks of a frame, in stream order. */
    method AppendFrameBlocks(frame: Image, delayTime: u16, disposalMethod: DisposalMethod,
                             quantized: QuantizedImage, lzw: (nat, seq<int>) -> LzwOutput)
      modifies this`data
      ensures data == old(data) + FrameBytes(width, height,
        Frame(delayTime, quantized.colorTable, lzw(ColorCount, RowMajor(quantized, frame.width, frame.height))))
    {
      ghost var f := Frame(delayTime, quantized.colorTable, lzw(ColorCount, RowMajor(quantized, frame.width, frame.height)));
      AppendGraphicsControlExtension(disposalMethod, delayTime);
      AppendImageDescriptor();
      AppendLocalColorTable(quantized.colorTable);
      AppendImageDataAsLzw(quantized, frame.width, frame.height, lzw);
      FourBlocks(old(data), ControlExtensionBytes(delayTime), ImageDescriptorBytes(width, height),
                 ColorTableBytes(f.colorTable), ImageDataBytes(f.lzw));
    }

    /** Appends a frame, quantized with `quantize` and compressed with `lzw`, which is shown for
        `delayTime` hundredths of a second. A frame of another size than the canvas is refused
        and nothing is written. */
    method AppendWithQuantizer(frame: Image, delayTime: u16, disposalMethod: DisposalMethod := ClearCanvas,
                               quantize: (Image, nat, nat) -> QuantizedImage,
                               lzw: (nat, seq<int>) -> LzwOutput)
      returns (err: Option<AnimatedGifError>)
      requires Valid()
      requires frame.width < 0x1_0000 && frame.height < 0x1_0000
      modifies this`data, this`parts
      ensures Valid()
      ensures err.Some? <==> frame.width != width as int || frame.height != height as int
      ensures err.Some? ==> err.value == FrameSizeMismatch(frame.width, frame.height, width as int, height as int)
      ensures err.Some? ==> data == old(data) && parts == old(parts)
      ensures err.None? ==> parts == old(parts) + [FramePart(EncodedFrame(frame, delayTime, quantize, lzw))]
      ensures err.None? ==> data == old(data) + FrameBytes(width, height, EncodedFrame(frame, delayTime, quantize, lzw))
    {
      var frameWidth := frame.width as u16;
      var frameHeight := frame.height as u16;
      if frameWidth != width || frameHeight != height {
        return Some(FrameSizeMismatch(frame.width, frame.height, width as int, height as int));
      }
      var quantized := quantize(frame, ColorCountOf(), TransparentColorIndex as nat);
      ghost var part := FramePart(EncodedFrame(frame, delayTime, quantize, lzw));
      AppendFrameBlocks(frame, delayTime, disposalMethod, quantized, lzw);
      PartsBytesAppend(width, height, parts, part);
      Associative(prologue, PartsBytes(width, height, parts), PartBytes(width, height, part));
      parts := parts + [part];
      err := None;
    }

    /** Ends the stream with the trailer byte. */
    method AppendTrailer()
      requires Valid()
      modifies this`data, this`parts
      ensures Valid()
      ensures data == old(data) + [0x3B] && parts == old(parts) + [Trailer]
    {
      PartsBytesAppend(width, height, parts, Trailer);
      Associative(prologue, PartsBytes(width, height, parts), [0x3B]);
      AppendByte(0x3B);
      parts := parts + [Trailer];
    }
  }
}
