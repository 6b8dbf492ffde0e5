/** The whole file: signature, IHDR, IDAT, IEND; and the canvas its pixels are drawn on. */
module PngWriter {
  import opened Common
  import opened PngBits
  import opened PngCrc
  import opened PngFile

  const SIGNATURE: seq<byte> := [137, 80, 78, 71, 13, 10, 26, 10]
  const IHDR: seq<byte> := [73, 72, 68, 82]
  const IDAT: seq<byte> := [73, 68, 65, 84]
  const IEND: seq<byte> := [73, 69, 78, 68]

  /** Bit depth 8, colour type RGB, deflate, filter method 0, no interlace. */
  const FORMAT: seq<byte> := [8, 2, 0, 0, 0]

  function Header(width: int, height: int): Chunk
    requires 0 <= width < LIMIT && 0 <= height < LIMIT
  {
    Chunk(IHDR, Big(width) + Big(height) + FORMAT)
  }

  /** The file; None where writing a 32-bit field throws. */
  function Encoded(width: nat, height: nat, rgb: seq<byte>, deflate: seq<byte> -> seq<byte>): Option<seq<byte>>
    requires |rgb| == width * 3 * height
  {
    if width >= LIMIT || height >= LIMIT then None
    else
      var idat := Framed(Chunk(IDAT, deflate(Packed(rgb, width * 3, height))));
      if idat.None? then None
      else Some(SIGNATURE + Framed(Header(width, height)).value + idat.value + Framed(Chunk(IEND, [])).value)
  }

  method EncodePng(width: nat, height: nat, rgb: array<byte>, deflate: seq<byte> -> seq<byte>)
    returns (file: Option<seq<byte>>)
    requires rgb.Length == width * 3 * height
    ensures file == Encoded(width, height, rgb[..], deflate)
  {
    if width >= LIMIT || height >= LIMIT {
      return None;
    }
    var header := Big(width) + Big(height) + FORMAT;
    var raw := Pack(rgb, width * 3, height);
    var ihdr := MakeChunk(IHDR, header);
    var idat := MakeChunk(IDAT, deflate(raw[..]));
    var iend := MakeChunk(IEND, []);
    if idat.None? {
      return None;
    }
    file := Some(SIGNATURE + ihdr.value + idat.value + iend.value);
  }

  // ---------- Reading it back ----------

  function ReadFile(file: seq<byte>): Option<seq<Chunk>> {
    if |file| < 8 || file[..8] != SIGNATURE then None else ReadChunks(file[8..])
  }

  datatype Image = Image(width: int, height: int, rgb: seq<byte>)

  /** A reader for exactly the files this writer produces: IHDR, IDAT, IEND in that order. */
  function ReadImage(file: seq<byte>, inflate: seq<byte> -> seq<byte>): Option<Image> {
    var chunks := ReadFile(file);
    if chunks.None? || |chunks.value| != 3 then None
    else
      var (ihdr, idat, iend) := (chunks.value[0], chunks.value[1], chunks.value[2]);
      if ihdr.kind != IHDR || idat.kind != IDAT || iend != Chunk(IEND, []) then None
      else if |ihdr.data| != 13 || ihdr.data[8..] != FORMAT then None
      else
        var (width, height) := (FromBig(ihdr.data[..4]), FromBig(ihdr.data[4..8]));
        if width < 0 || height < 0 then None
        else
          var rgb := Unpacked(inflate(idat.data), width * 3, height);
          if rgb.None? then None else Some(Image(width, height, rgb.value))
  }

  lemma ReadThree(bytes: seq<byte>, more: seq<byte>, last: seq<byte>, a: Chunk, b: Chunk, c: Chunk)
    requires ReadChunk(bytes) == Some(Read(a, more)) && ReadChunk(more) == Some(Read(b, last))
    requires ReadChunk(last) == Some(Read(c, []))
    ensures ReadChunks(bytes) == Some([a, b, c])
  {
    ReadOne(last, [], c, []);
    assert [c] + [] == [c] && [b] + [c] == [b, c] && [a] + [b, c] == [a, b, c];
    ReadOne(more, last, b, [c]);
    ReadOne(bytes, more, a, [b, c]);
  }

  lemma ReadOne(bytes: seq<byte>, rest: seq<byte>, first: Chunk, others: seq<Chunk>)
    requires ReadChunk(bytes) == Some(Read(first, rest)) && ReadChunks(rest) == Some(others)
    ensures ReadChunks(bytes) == Some([first] + others)
  {
  }

  lemma ThreeChunks(a: Chunk, b: Chunk, c: Chunk)
    requires |a.kind| == |b.kind| == |c.kind| == 4 && Framed(a).Some? && Framed(b).Some? && Framed(c).Some?
    ensures ReadChunks(Framed(a).value + (Framed(b).value + (Framed(c).value + []))) == Some([a, b, c])
  {
    var last := Framed(c).value + [];
    var more := Framed(b).value + last;
    ChunkRoundTrip(a, more);
    ChunkRoundTrip(b, last);
    ChunkRoundTrip(c, []);
    ReadThree(Framed(a).value + more, more, last, a, b, c);
  }

  lemma Regroup<T>(s: seq<T>, a: seq<T>, b: seq<T>, c: seq<T>)
    requires |s| == 8
    ensures (s + a + b + c)[..8] == s && (s + a + b + c)[8..] == a + (b + (c + []))
  {
  }

  /** The file consists of the signature and exactly the three chunks. */
  lemma FileHasThreeChunks(width: nat, height: nat, rgb: seq<byte>, deflate: seq<byte> -> seq<byte>)
    requires |rgb| == width * 3 * height && Encoded(width, height, rgb, deflate).Some?
    ensures ReadFile(Encoded(width, height, rgb, deflate).value) ==
            Some([Header(width, height), Chunk(IDAT, deflate(Packed(rgb, width * 3, height))), Chunk(IEND, [])])
  {
    var idat := Chunk(IDAT, deflate(Packed(rgb, width * 3, height)));
    Regroup(SIGNATURE, Framed(Header(width, height)).value, Framed(idat).value, Framed(Chunk(IEND, [])).value);
    ThreeChunks(Header(width, height), idat, Chunk(IEND, []));
  }

  lemma HeaderFields(width: int, height: int)
    requires 0 <= width < LIMIT && 0 <= height < LIMIT
    ensures var d := Header(width, height).data;
            && |d| == 13 && d[8..] == FORMAT && FromBig(d[..4]) == width && FromBig(d[4..8]) == height
  {
    BigRoundTrip(width);
    BigRoundTrip(height);
  }

  /** Encoding succeeds exactly when the 32-bit fields fit, and reading the file back gives the picture. */
  lemma PngRoundTrip(width: nat, height: nat, rgb: seq<byte>, deflate: seq<byte> -> seq<byte>,
                     inflate: seq<byte> -> seq<byte>)
    requires |rgb| == width * 3 * height
    requires inflate(deflate(Packed(rgb, width * 3, height))) == Packed(rgb, width * 3, height)
    ensures Encoded(width, height, rgb, deflate).Some? <==>
            width < LIMIT && height < LIMIT && |deflate(Packed(rgb, width * 3, height))| < LIMIT
    ensures Encoded(width, height, rgb, deflate).Some? ==>
            ReadImage(Encoded(width, height, rgb, deflate).value, inflate) == Some(Image(width, height, rgb))
  {
    if Encoded(width, height, rgb, deflate).Some? {
      FileHasThreeChunks(width, height, rgb, deflate);
      HeaderFields(width, height);
      ScanlinesRoundTrip(rgb, width * 3, height);
    }
  }

  /** Four bytes, the most significant one first. */
  function NumberAt(f: seq<byte>, at: nat): int
    requires at + 4 <= |f|
  {
    ((f[at] as int * 256 + f[at + 1] as int) * 256 + f[at + 2] as int) * 256 + f[at + 3] as int
  }

  /** A file byte by byte, but for the compressed pixels: signature, a 13-byte IHDR with the dimensions and the format
      (8 bits, RGB, deflate, filter method 0, not interlaced), the name IDAT, and the one possible IEND. */
  ghost predicate IsFileOf(f: seq<byte>, width: int, height: int, data: seq<byte>) {
    && |f| == 57 + |data|
    && f[..16] == [0x89, 0x50, 0x4e, 0x47, 0x0d, 0x0a, 0x1a, 0x0a, 0, 0, 0, 13, 0x49, 0x48, 0x44, 0x52]
    && NumberAt(f, 16) == width && NumberAt(f, 20) == height
    && f[24..29] == [8, 2, 0, 0, 0]
    && NumberAt(f, 33) == |data| && f[37..41] == [0x49, 0x44, 0x41, 0x54]
    && f[41..|f| - 16] == data
    && f[|f| - 12..] == [0, 0, 0, 0, 0x49, 0x45, 0x4e, 0x44, 0xae, 0x42, 0x60, 0x82]
  }

  lemma {:induction false} FileBytes(width: nat, height: nat, rgb: seq<byte>, deflate: seq<byte> -> seq<byte>)
    requires |rgb| == width * 3 * height && Encoded(width, height, rgb, deflate).Some?
    ensures IsFileOf(Encoded(width, height, rgb, deflate).value, width, height, deflate(Packed(rgb, width * 3, height)))
  {
    var data := deflate(Packed(rgb, width * 3, height));
    BytesOfHeader(width, height);
    BytesOfChunk(Chunk(IDAT, data));
    BytesOfEnd();
    WholeFile(Framed(Header(width, height)).value, Framed(Chunk(IDAT, data)).value, Framed(Chunk(IEND, [])).value,
              width, height, data);
  }

  lemma WholeFile(ihdr: seq<byte>, idat: seq<byte>, iend: seq<byte>, width: int, height: int, data: seq<byte>)
    requires |ihdr| == 25 && ihdr[..8] == [0, 0, 0, 13, 0x49, 0x48, 0x44, 0x52] && ihdr[16..21] == [8, 2, 0, 0, 0]
    requires NumberAt(ihdr, 8) == width && NumberAt(ihdr, 12) == height
    requires |idat| == 12 + |data| && NumberAt(idat, 0) == |data| && idat[4..8] == IDAT && idat[8..8 + |data|] == data
    requires iend == [0, 0, 0, 0, 0x49, 0x45, 0x4e, 0x44, 0xae, 0x42, 0x60, 0x82]
    ensures IsFileOf(SIGNATURE + ihdr + idat + iend, width, height, data)
  {
    PartsOfFile(SIGNATURE, ihdr, idat, iend, data);
  }

  lemma PartsOfFile(s: seq<byte>, ihdr: seq<byte>, idat: seq<byte>, iend: seq<byte>, data: seq<byte>)
    requires |s| == 8 && |ihdr| == 25 && |idat| == 12 + |data| && |iend| == 12 && idat[8..8 + |data|] == data
    ensures var f := s + ihdr + idat + iend;
            && |f| == 57 + |data| && f[..16] == s + ihdr[..8] && f[24..29] == ihdr[16..21]
            && NumberAt(f, 16) == NumberAt(ihdr, 8) && NumberAt(f, 20) == NumberAt(ihdr, 12)
            && NumberAt(f, 33) == NumberAt(idat, 0) && f[37..41] == idat[4..8]
            && f[41..|f| - 16] == data && f[|f| - 12..] == iend
  {
    var f := s + ihdr + idat + iend;
    assert f[..16] == s + ihdr[..8];
    assert f[24..29] == ihdr[16..21];
    assert f[37..41] == idat[4..8];
    assert f[41..|f| - 16] == idat[8..8 + |data|];
  }

  lemma BytesOfChunk(c: Chunk)
    requires |c.kind| == 4 && Framed(c).Some?
    ensures var f := Framed(c).value;
            |f| == 12 + |c.data| && NumberAt(f, 0) == |c.data| && f[4..8] == c.kind && f[8..8 + |c.data|] == c.data
  {
    BigRoundTrip(|c.data|);
    BigRoundTrip(Checksum(c.kind + c.data));
    var f := Framed(c).value;
    Slices(Big(|c.data|), c.kind, c.data, Big(Checksum(c.kind + c.data)), []);
    assert f + [] == f;
    assert forall i :: 0 <= i < 4 ==> f[i] == Big(|c.data|)[i];
  }

  lemma BytesOfHeader(width: int, height: int)
    requires 0 <= width < LIMIT && 0 <= height < LIMIT
    ensures var f := Framed(Header(width, height)).value;
            && |f| == 25 && f[..8] == [0, 0, 0, 13, 0x49, 0x48, 0x44, 0x52]
            && NumberAt(f, 8) == width && NumberAt(f, 12) == height && f[16..21] == [8, 2, 0, 0, 0]
  {
    var (c, f) := (Header(width, height), Framed(Header(width, height)).value);
    BigRoundTrip(width);
    BigRoundTrip(height);
    BytesOfChunk(c);
    assert Big(13) == [0, 0, 0, 13];
    assert f[..4] == Big(13) && f[..8] == f[..4] + f[4..8];
    assert forall i :: 0 <= i < 13 ==> f[8 + i] == c.data[i];
    assert f[16..21] == c.data[8..13] == FORMAT;
  }

  lemma BytesOfEnd()
    ensures Framed(Chunk(IEND, [])).value == [0, 0, 0, 0, 0x49, 0x45, 0x4e, 0x44, 0xae, 0x42, 0x60, 0x82]
  {
    CrcOfIend(IEND[0], IEND[1], IEND[2], IEND[3]);
    assert IEND + [] == [IEND[0], IEND[1], IEND[2], IEND[3]];
    CheckBytes(Crc(IEND + []));
  }

  lemma CheckBytes(crc: bv32)
    requires crc == 0xae426082
    ensures 0 <= crc as int < LIMIT && Big(crc as int) == [0xae, 0x42, 0x60, 0x82]
  {
    assert crc as int == 0xae426082;
  }
}
