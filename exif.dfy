/** `stickerExif` of src/services/stickers/exif.ts: the sticker-pack
    metadata and the EXIF block embedded in a WebP sticker. The block is a
    little-endian TIFF header with one IFD entry (tag 0x5741, type 7,
    UNDEFINED) whose value, the JSON text of the metadata, starts at byte 22;
    the entry's count, at bytes 14..17, is the byte length of that text. The
    JSON and UTF-8 encoding and the WebP library's load and save are inputs. */
module Exif {
  import opened Strings
  import opened StickerUtils
  import opened StickerBuilder

  /** `EXIF_HEADER_BYTES`. */
  const Header: seq<Byte> := [
    0x49, 0x49, 0x2a, 0x00, 0x08, 0x00, 0x00, 0x00, 0x01, 0x00, 0x41, 0x57, 0x07,
    0x00, 0x00, 0x00, 0x00, 0x00, 0x16, 0x00, 0x00, 0x00]

  /** 256 to the power n. */
  function Pow256(n: nat): (p: nat)
    ensures p >= 1
  {
    if n == 0 then 1 else 256 * Pow256(n - 1)
  }

  /** The n bytes of `writeUIntLE(value, _, n)`, least significant first. */
  function LittleEndian(value: nat, n: nat): (r: seq<Byte>)
    ensures |r| == n
  {
    if n == 0 then [] else [value % 256] + LittleEndian(value / 256, n - 1)
  }

  /** The unsigned number a little-endian byte sequence encodes. */
  function Decode(bytes: seq<Byte>): nat {
    if |bytes| == 0 then 0 else bytes[0] + 256 * Decode(bytes[1..])
  }

  /** Decoding the written bytes gives the value back when it fits. */
  lemma {:induction false} DecodeLittleEndian(value: nat, n: nat)
    requires value < Pow256(n)
    ensures Decode(LittleEndian(value, n)) == value
  {
    if n > 0 {
      var r := LittleEndian(value, n);
      assert r[1..] == LittleEndian(value / 256, n - 1);
      DecodeLittleEndian(value / 256, n - 1);
    }
  }

  /** Decoding two and four bytes. */
  lemma DecodeShort(a: Byte, b: Byte, c: Byte, d: Byte)
    ensures Decode([a, b]) == a + 256 * b
    ensures Decode([a, b, c, d]) == a + 256 * b + 65536 * c + 16777216 * d
  {
    assert [d][1..] == [] && Decode([d]) == d;
    assert [c, d][1..] == [d] && Decode([c, d]) == c + 256 * d;
    assert [b, c, d][1..] == [c, d] && Decode([b, c, d]) == b + 256 * (c + 256 * d);
    assert [a, b, c, d][1..] == [b, c, d];
    assert [b][1..] == [] && Decode([b]) == b;
    assert [a, b][1..] == [b];
  }

  /** The header opens a little-endian TIFF file: "II" byte order, magic
      42, and the first IFD at offset 8. */
  lemma HeaderStart()
    ensures |Header| == 22
    ensures Header[0] == 0x49 && Header[1] == 0x49
    ensures Decode(Header[2..4]) == 42 && Decode(Header[4..8]) == 8
  {
    assert Header[2..4] == [0x2a, 0x00];
    DecodeShort(0x2a, 0x00, 0, 0);
    assert Header[4..8] == [0x08, 0x00, 0x00, 0x00];
    DecodeShort(0x08, 0x00, 0x00, 0x00);
  }

  /** The IFD holds one entry, tag 0x5741 of type 7, whose value is at
      offset 22, right after the header. */
  lemma HeaderEntry()
    ensures Decode(Header[8..10]) == 1 && Decode(Header[10..12]) == 0x5741
    ensures Decode(Header[12..14]) == 7
    ensures Decode(Header[18..22]) == |Header|
  {
    assert Header[8..10] == [0x01, 0x00];
    DecodeShort(0x01, 0x00, 0, 0);
    assert Header[10..12] == [0x41, 0x57];
    DecodeShort(0x41, 0x57, 0, 0);
    assert Header[12..14] == [0x07, 0x00];
    DecodeShort(0x07, 0x00, 0, 0);
    assert Header[18..22] == [0x16, 0x00, 0x00, 0x00];
    DecodeShort(0x16, 0x00, 0x00, 0x00);
  }

  /** The block `addMetadata` builds for a payload that fits a 32-bit count. */
  function Block(payload: seq<Byte>): (r: seq<Byte>)
    requires |payload| < Pow256(4)
    ensures |r| == 22 + |payload|
  {
    Header[..14] + LittleEndian(|payload|, 4) + Header[18..] + payload
  }

  /** The block's bytes: the header constants around the count, the count
      itself, and the payload from the value offset on. */
  lemma BlockLayout(payload: seq<Byte>)
    requires |payload| < Pow256(4)
    ensures Block(payload)[..14] == Header[..14]
    ensures Block(payload)[18..22] == Header[18..22]
    ensures Decode(Block(payload)[14..18]) == |payload|
    ensures Decode(Block(payload)[18..22]) == 22
    ensures Block(payload)[22..] == payload
  {
    var b := Block(payload);
    var count := LittleEndian(|payload|, 4);
    assert b[14..18] == count;
    assert b[18..22] == Header[18..22];
    assert b[22..] == payload;
    DecodeLittleEndian(|payload|, 4);
    HeaderEntry();
  }

  /** `Buffer.concat([EXIF_HEADER_BYTES, payload])`. */
  method Concat(payload: seq<Byte>) returns (buf: array<Byte>)
    ensures fresh(buf)
    ensures buf[..] == Header + payload
  {
    buf := new Byte[|Header| + |payload|];
    var i := 0;
    while i < buf.Length
      invariant 0 <= i <= buf.Length
      invariant forall k :: 0 <= k < i ==> buf[k] == (Header + payload)[k]
    {
      buf[i] := if i < |Header| then Header[i] else payload[i - |Header|];
      i := i + 1;
    }
  }

  /** `buf.writeUIntLE(value, offset, 4)`: the four bytes at offset are
      overwritten in place; a value that does not fit throws, which `ok`
      reports, and leaves the buffer as it was. */
  method WriteUIntLE(buf: array<Byte>, value: nat, offset: nat) returns (ok: bool)
    requires offset + 4 <= buf.Length
    modifies buf
    ensures ok <==> value < Pow256(4)
    ensures ok ==> buf[..] == old(buf[..offset]) + LittleEndian(value, 4) + old(buf[offset + 4..])
    ensures !ok ==> buf[..] == old(buf[..])
  {
    if value >= Pow256(4) {
      return false;
    }
    var bytes := LittleEndian(value, 4);
    ghost var before := buf[..];
    var i := 0;
    while i < 4
      invariant 0 <= i <= 4
      invariant forall k :: 0 <= k < buf.Length ==>
        buf[k] == if offset <= k < offset + i then bytes[k - offset] else before[k]
    {
      buf[offset + i] := bytes[i];
      i := i + 1;
    }
    assert buf[..] == before[..offset] + bytes + before[offset + 4..];
    return true;
  }

  /** The sticker-pack metadata the block carries. */
  datatype PackMetadata = PackMetadata(id: string, name: string, publisher: string, emojis: seq<string>)

  /** What the WebP library's `save` gives for an image with a new EXIF
      block, or None when it throws. */
  type Saver = (seq<Byte>, seq<Byte>) -> Option<seq<Byte>>

  class StickerExif {
    var metadata: PackMetadata

    /** `new stickerExif(options)` with the 16 bytes the id is made of. */
    constructor(options: Metadata, random: seq<Byte>)
      requires |random| == 16
      ensures metadata == PackMetadata(StickerId(random), options.pack, options.author, options.emojis)
    {
      metadata := PackMetadata(StickerId(random), options.pack, options.author, options.emojis);
    }

    /** `addMetadata(imageBuffer)`. `loads` says whether the library loads
        the image, `encode` is `JSON.stringify` followed by UTF-8 encoding.
        Any failure gives the input image back unchanged. */
    method AddMetadata(image: seq<Byte>, loads: bool, encode: PackMetadata -> seq<Byte>, save: Saver)
      returns (r: seq<Byte>)
      ensures r == WithMetadata(image, loads, encode(metadata), save)
    {
      if !loads {
        return image;
      }
      var payload := encode(metadata);
      var buf := Concat(payload);
      var ok := WriteUIntLE(buf, |payload|, 14);
      if !ok {
        return image;
      }
      assert buf[..] == Block(payload);
      var saved := save(image, buf[..]);
      r := if saved.Some? then saved.value else image;
    }
  }

  /** The image `addMetadata` resolves to for a given payload. */
  function WithMetadata(image: seq<Byte>, loads: bool, payload: seq<Byte>, save: Saver): (r: seq<Byte>)
    ensures r == image || (loads && |payload| < Pow256(4) && save(image, Block(payload)) == Some(r))
    ensures loads && |payload| < Pow256(4) && save(image, Block(payload)).Some? ==> r == save(image, Block(payload)).value
  {
    if !loads || |payload| >= Pow256(4) then image
    else
      match save(image, Block(payload))
      case Some(out) => out
      case None => image
  }

  /** The metadata names the pack and publisher of the settled options, and
      its id is 32 hexadecimal digits. */
  lemma MetadataOfOptions(options: Options, random: seq<Byte>)
    requires |random| == 16
    ensures var m := MetadataOf(options);
      var meta := PackMetadata(StickerId(random), m.pack, m.author, m.emojis);
      meta.name == OrElse(options.pack, "") && meta.publisher == OrElse(options.author, "")
      && (options.emojis.None? ==> meta.emojis == [])
      && |meta.id| == 32
  {
  }
}
