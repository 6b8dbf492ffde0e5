/** encodePng: scanline packing, chunk framing, and a reader that takes the file apart again. */
module PngFile {
  import opened Common
  import opened PngBits
  import opened PngCrc

  const LIMIT: int := 0x1_0000_0000

  // ---------- Four-byte big-endian integers ----------

  function Big(n: int): seq<byte>
    requires 0 <= n < LIMIT
  {
    [(n / 0x100_0000) as byte, (n / 0x1_0000 % 0x100) as byte, (n / 0x100 % 0x100) as byte, (n % 0x100) as byte]
  }

  function FromBig(b: seq<byte>): int
    requires |b| == 4
  {
    b[0] as int * 0x100_0000 + b[1] as int * 0x1_0000 + b[2] as int * 0x100 + b[3] as int
  }

  lemma BigRoundTrip(n: int)
    requires 0 <= n < LIMIT
    ensures |Big(n)| == 4 && FromBig(Big(n)) == n
  {
    DigitsAddUp(n);
  }

  lemma DigitsAddUp(n: int)
    requires 0 <= n < LIMIT
    ensures n == n / 0x100_0000 * 0x100_0000 + n / 0x1_0000 % 0x100 * 0x1_0000 + n / 0x100 % 0x100 * 0x100 + n % 0x100
  {
  }

  /** The CRC as a number. */
  function Checksum(data: seq<byte>): (n: int)
    ensures 0 <= n < LIMIT
  {
    Crc(data) as int
  }

  // ---------- Chunks ----------

  datatype Chunk = Chunk(kind: seq<byte>, data: seq<byte>)

  /** length, type, data, CRC over type and data; writing a length of 2^32 or more throws. */
  function Framed(c: Chunk): Option<seq<byte>> {
    if |c.data| >= LIMIT then None
    else Some(Big(|c.data|) + (c.kind + c.data) + Big(Checksum(c.kind + c.data)))
  }

  method MakeChunk(kind: seq<byte>, data: seq<byte>) returns (r: Option<seq<byte>>)
    ensures r == Framed(Chunk(kind, data))
  {
    if |data| >= LIMIT {
      return None;
    }
    var len := Big(|data|);
    var typeAndData := kind + data;
    var crc := Crc32(typeAndData);
    r := Some(len + typeAndData + Big(crc as int));
  }

  datatype Read<T> = Read(value: T, rest: seq<byte>)

  /** Section 3.2 of RFC 2083: a chunk is accepted only if its length fits and its CRC matches. */
  function ReadChunk(bytes: seq<byte>): Option<Read<Chunk>> {
    if |bytes| < 12 then None
    else
      var n := FromBig(bytes[..4]);
      if n < 0 || |bytes| < 12 + n then None
      else
        var c := Chunk(bytes[4..8], bytes[8..8 + n]);
        if FromBig(bytes[8 + n..12 + n]) != Checksum(bytes[4..8 + n]) then None
        else Some(Read(c, bytes[12 + n..]))
  }

  function ReadChunks(bytes: seq<byte>): Option<seq<Chunk>> {
    if bytes == [] then Some([])
    else
      var first := ReadChunk(bytes);
      if first.None? then None
      else
        var others := ReadChunks(first.value.rest);
        if others.None? then None else Some([first.value.value] + others.value)
  }

  lemma Slices<T>(len: seq<T>, kind: seq<T>, data: seq<T>, crc: seq<T>, rest: seq<T>)
    requires |len| == 4 && |kind| == 4 && |crc| == 4
    ensures var (bytes, n) := (len + (kind + data) + crc + rest, |data|);
            && bytes[..4] == len && bytes[4..8] == kind && bytes[8..8 + n] == data && bytes[4..8 + n] == kind + data
            && bytes[8 + n..12 + n] == crc && bytes[12 + n..] == rest
  {
  }

  lemma ChunkRoundTrip(c: Chunk, rest: seq<byte>)
    requires |c.kind| == 4 && Framed(c).Some?
    ensures ReadChunk(Framed(c).value + rest) == Some(Read(c, rest))
  {
    var crc := Checksum(c.kind + c.data);
    BigRoundTrip(|c.data|);
    BigRoundTrip(crc);
    Slices(Big(|c.data|), c.kind, c.data, Big(crc), rest);
  }

  // ---------- Scanlines ----------

  /** Every scanline gets a filter byte 0 in front. */
  function Packed(rgb: seq<byte>, row: nat, height: nat): seq<byte>
    requires |rgb| == row * height
    decreases height
  {
    if height == 0 then []
    else
      [0] + rgb[..row] + Packed(rgb[row..], row, height - 1)
  }

  /** Read the scanlines back; any filter byte other than 0, or a wrong length, is refused. */
  function Unpacked(raw: seq<byte>, row: nat, height: nat): Option<seq<byte>>
    decreases height
  {
    if height == 0 then if raw == [] then Some([]) else None
    else if |raw| < row + 1 || raw[0] != 0 then None
    else
      var others := Unpacked(raw[row + 1..], row, height - 1);
      if others.None? then None else Some(raw[1..row + 1] + others.value)
  }

  lemma {:induction false} ScanlinesRoundTrip(rgb: seq<byte>, row: nat, height: nat)
    requires |rgb| == row * height
    ensures Unpacked(Packed(rgb, row, height), row, height) == Some(rgb)
    decreases height
  {
    if height == 0 {
    } else {
      ScanlinesRoundTrip(rgb[row..], row, height - 1);
      var raw := Packed(rgb, row, height);
      assert raw[1..row + 1] == rgb[..row];
      assert raw[row + 1..] == Packed(rgb[row..], row, height - 1);
      assert rgb == rgb[..row] + rgb[row..];
    }
  }

  lemma {:induction false} PackedLength(rgb: seq<byte>, row: nat, height: nat)
    requires |rgb| == row * height
    ensures |Packed(rgb, row, height)| == (row + 1) * height
    decreases height
  {
    if height == 0 {
    } else {
      PackedLength(rgb[row..], row, height - 1);
    }
  }

  /** Where a byte of the picture stands among the scanlines: in its row, behind the filter byte. */
  lemma {:induction false} PackedAt(rgb: seq<byte>, row: nat, height: nat, y: nat, k: nat)
    requires |rgb| == row * height && y < height && k < row
    ensures |Packed(rgb, row, height)| == (row + 1) * height
    ensures 0 <= y * (row + 1) && y * (row + 1) + 1 + k < (row + 1) * height && 0 <= y * row + k < |rgb|
    ensures Packed(rgb, row, height)[y * (row + 1)] == 0
    ensures Packed(rgb, row, height)[y * (row + 1) + 1 + k] == rgb[y * row + k]
    decreases y
  {
    PackedLength(rgb, row, height);
    RowBounds(row + 1, y, height);
    RowBounds(row, y, height);
    if y == 0 {
    } else {
      PackedAt(rgb[row..], row, height - 1, y - 1, k);
      assert y * (row + 1) == (row + 1) + (y - 1) * (row + 1) && y * row == row + (y - 1) * row;
    }
  }

  lemma RowBounds(row: nat, y: nat, height: nat)
    requires y < height
    ensures y * row + row == (y + 1) * row <= height * row
  {
  }

  /** Buffer.copy: source[from..to] into target at `at`. */
  method Copy(target: array<byte>, at: nat, source: array<byte>, from: nat, to: nat)
    requires from <= to <= source.Length && at + (to - from) <= target.Length && target != source
    modifies target
    ensures target[..] == old(target[..at]) + source[from..to] + old(target[at + (to - from)..])
  {
    for k := 0 to to - from
      invariant target[..] == old(target[..at]) + source[from..from + k] + old(target[at + k..])
    {
      target[at + k] := source[from + k];
      assert source[from..from + k + 1] == source[from..from + k] + [source[from + k]];
    }
  }

  /** One pass of the packing loop. */
  method PackRow(raw: array<byte>, rgb: array<byte>, row: nat, height: nat, y: nat)
    requires rgb.Length == height * row && raw.Length == height * (row + 1) && y < height && raw != rgb
    requires y * (row + 1) <= raw.Length
    modifies raw
    ensures (y + 1) * (row + 1) <= raw.Length && y * row <= (y + 1) * row <= rgb.Length
    ensures raw[..(y + 1) * (row + 1)] == old(raw[..y * (row + 1)]) + [0] + rgb[y * row..(y + 1) * row]
  {
    RowBounds(row + 1, y, height);
    RowBounds(row, y, height);
    var rowStart := y * (row + 1);
    raw[rowStart] := 0;
    Copy(raw, rowStart + 1, rgb, y * row, (y + 1) * row);
  }

  lemma PackedUnfolds(done: seq<byte>, rest: seq<byte>, row: nat, height: nat)
    requires |rest| == row * height && height > 0
    ensures row <= |rest| && |rest[row..]| == row * (height - 1)
    ensures done + Packed(rest, row, height) == done + [0] + rest[..row] + Packed(rest[row..], row, height - 1)
  {
  }

  method Pack(rgb: array<byte>, row: nat, height: nat) returns (raw: array<byte>)
    requires rgb.Length == height * row
    ensures fresh(raw) && raw[..] == Packed(rgb[..], row, height)
  {
    raw := new byte[height * (row + 1)](_ => 0);
    ghost var rest := rgb[..];
    ghost var done: seq<byte> := [];
    for y := 0 to height
      invariant y * (row + 1) <= raw.Length && y * row <= rgb.Length
      invariant done == raw[..y * (row + 1)] && rest == rgb[y * row..] && |rest| == row * (height - y)
      invariant done + Packed(rest, row, height - y) == Packed(rgb[..], row, height)
    {
      PackedUnfolds(done, rest, row, height - y);
      PackRow(raw, rgb, row, height, y);
      done, rest := done + [0] + rest[..row], rest[row..];
    }
    assert raw[..height * (row + 1)] == raw[..];
  }

}
