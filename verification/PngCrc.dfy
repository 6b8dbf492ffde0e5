/** crc32 of the PNG writer: the table-driven loop against a shift register that takes one bit at a time. */
module PngCrc {
  import opened PngBits

  // ---------- Reference: RFC 2083, section 3.4 ----------

  function Iterate<T>(f: T -> T, x: T, k: nat): T {
    if k == 0 then x else f(Iterate(f, x, k - 1))
  }

  /** Clock in the first k bits of `c`, least significant bit first. */
  function Feed<T>(clock: (T, bool) -> T, low: T -> bool, half: T -> T, register: T, c: T, k: nat): T {
    if k == 0 then register
    else clock(Feed(clock, low, half, register, c, k - 1), low(Iterate(half, c, k - 1)))
  }

  function ClockByte(register: bv32, b: bv8): bv32 {
    Feed(Clock, LowBit, Half, register, b as bv32, 8)
  }

  function ClockBytes(register: bv32, data: seq<byte>): bv32 {
    if data == [] then register
    else ClockByte(ClockBytes(register, data[..|data| - 1]), Word(data[|data| - 1]))
  }

  /** The register starts at all ones and is complemented at the end. */
  function Crc(data: seq<byte>): bv32 {
    ClockBytes(ONES, data) ^ ONES
  }

  // ---------- One step of the table ----------

  function Eight(c: bv32): bv32 {
    Iterate(Bit, c, 8)
  }

  lemma {:induction false} IterateHomomorphism<T(!new)>(f: T -> T, op: (T, T) -> T, x: T, y: T, k: nat)
    requires forall a, b :: f(op(a, b)) == op(f(a), f(b))
    ensures Iterate(f, op(x, y), k) == op(Iterate(f, x, k), Iterate(f, y, k))
  {
    if k == 0 {
    } else {
      IterateHomomorphism(f, op, x, y, k - 1);
    }
  }

  lemma EightIsLinear(x: bv32, y: bv32)
    ensures Eight(Xor(x, y)) == Xor(Eight(x), Eight(y))
  {
    forall a: bv32, b: bv32
      ensures Bit(Xor(a, b)) == Xor(Bit(a), Bit(b))
    {
      BitOfXor(a, b);
    }
    IterateHomomorphism(Bit, Xor, x, y, 8);
  }

  lemma EightShifts(x: bv32)
    requires x & 0xff == 0
    ensures Eight(x) == x >> 8
  {
  }

  lemma EightOfParts(x: bv32, low: bv32, high: bv32, shifted: bv32)
    requires x == Xor(low, high) && high & 0xff == 0 && high >> 8 == shifted
    ensures Xor(Eight(low), shifted) == Eight(x)
  {
    EightIsLinear(low, high);
    EightShifts(high);
  }

  /** Table lookup plus an 8-bit shift is eight single-bit steps. */
  lemma TableStep(crc: bv32, b: bv8, low: bv32, high: bv32)
    requires Splits(crc, b, low, high)
    ensures Xor(Eight(low), crc >> 8) == Eight(Xor(crc, b as bv32))
  {
    EightOfParts(Xor(crc, b as bv32), low, high, crc >> 8);
  }

  // ---------- Eight steps of the register ----------

  /** Feeding bits one at a time keeps pace with shifting the whole word through the register. */
  lemma {:induction false} FeedKeepsPace<T(!new)>(clock: (T, bool) -> T, low: T -> bool, half: T -> T, bit: T -> T,
                                                  xor: (T, T) -> T, register: T, c: T, k: nat)
    requires forall r, d :: xor(clock(r, low(d)), half(d)) == bit(xor(r, d))
    ensures xor(Feed(clock, low, half, register, c, k), Iterate(half, c, k)) == Iterate(bit, xor(register, c), k)
  {
    if k == 0 {
    } else {
      FeedKeepsPace(clock, low, half, bit, xor, register, c, k - 1);
    }
  }

  /** Clocking in a byte bit by bit is eight single-bit steps of the register xor the byte. */
  lemma ByteStep(register: bv32, b: bv8)
    ensures ClockByte(register, b) == Eight(Xor(register, b as bv32))
  {
    forall r: bv32, d: bv32
      ensures Xor(Clock(r, LowBit(d)), Half(d)) == Bit(Xor(r, d))
    {
      ClockIsBit(r, d);
    }
    FeedKeepsPace(Clock, LowBit, Half, Bit, Xor, register, b as bv32, 8);
  }

  // ---------- The code ----------

  function TableEntry(n: int): bv32
    requires 0 <= n < 256
  {
    Eight((n as bv8) as bv32)
  }

  /** The table so far: one entry per index, in order. */
  ghost predicate IsTable(table: seq<bv32>) {
    table == [] || (IsTable(table[..|table| - 1]) && |table| <= 256 && table[|table| - 1] == TableEntry(|table| - 1))
  }

  lemma {:induction false} EntryAt(table: seq<bv32>, n: nat)
    requires IsTable(table) && n < |table|
    ensures n < 256 && table[n] == TableEntry(n)
  {
    if n == |table| - 1 {
    } else {
      EntryAt(table[..|table| - 1], n);
    }
  }

  method MakeEntry(n: int) returns (c: bv32)
    requires 0 <= n < 256
    ensures c == TableEntry(n)
  {
    c := (n as bv8) as bv32;
    ghost var start := c;
    for k := 0 to 8
      invariant c == Iterate(Bit, start, k)
    {
      c := if c & 1 == 1 then 0xedb88320 ^ (c >> 1) else c >> 1;
    }
  }

  method MakeTable() returns (table: seq<bv32>)
    ensures IsTable(table) && |table| == 256
  {
    table := [];
    for n := 0 to 256
      invariant IsTable(table) && |table| == n
    {
      var c := MakeEntry(n);
      assert (table + [c])[..n] == table;
      table := table + [c];
    }
  }

  lemma EntryOfByte(x: bv8)
    ensures 0 <= x as int < 256 && TableEntry(x as int) == Eight(x as bv32)
  {
    IndexOfByte(x);
  }

  method Next(table: seq<bv32>, crc: bv32, b: bv8) returns (next: bv32)
    requires IsTable(table) && |table| == 256
    ensures next == ClockByte(crc, b)
  {
    var low := LowByte(crc, b);
    TableStep(crc, b, low as bv32, (crc ^ (b as bv32)) & 0xffffff00);
    ByteStep(crc, b);
    EntryOfByte(low);
    EntryAt(table, low as int);
    next := Xor(table[low as int], crc >> 8);
  }

  method Crc32(buf: seq<byte>) returns (crc: bv32)
    ensures crc == Crc(buf)
  {
    var table := MakeTable();
    crc := 0xffffffff;
    for i := 0 to |buf|
      invariant crc == ClockBytes(ONES, buf[..i])
    {
      assert buf[..i + 1][..i] == buf[..i];
      crc := Next(table, crc, Word(buf[i]));
    }
    assert buf[..|buf|] == buf;
    crc := crc ^ 0xffffffff;
  }

  // ---------- A known value ----------

  /** The register after a byte, step by step. */
  lemma ByteSteps(register: bv32, b: bv8, steps: seq<bv32>)
    requires |steps| == 9 && steps[0] == register ^ (b as bv32)
    requires forall k :: 0 <= k < 8 ==> steps[k + 1] == Bit(steps[k])
    ensures ClockByte(register, b) == steps[8]
  {
    ByteStep(register, b);
    for k := 0 to 8
      invariant Iterate(Bit, steps[0], k) == steps[k]
    {
    }
  }

  lemma IendSteps()
    ensures ClockByte(0xffffffff, 0x49) == 0x22fde946 && ClockByte(0x22fde946, 0x45) == 0x992bac53
    ensures ClockByte(0x992bac53, 0x4e) == 0x639f4775 && ClockByte(0x639f4775, 0x44) == 0x51bd9f7d
  {
    ByteSteps(0xffffffff, 0x49, [0xffffffb6, 0x7fffffdb, 0xd2477ccd, 0x849b3d46, 0x424d9ea3,
                               0xcc9e4c71, 0x8bf7a518, 0x45fbd28c, 0x22fde946]);
    ByteSteps(0x22fde946, 0x45, [0x22fde903, 0xfcc677a1, 0x93dbb8f0, 0x49eddc78, 0x24f6ee3c,
                               0x127b771e, 0x093dbb8f, 0xe9265ee7, 0x992bac53]);
    ByteSteps(0x992bac53, 0x4e, [0x992bac1d, 0xa12d552e, 0x5096aa97, 0xc5f3d66b, 0x8f416815,
                               0xaa18372a, 0x550c1b95, 0xc73e8eea, 0x639f4775]);
    ByteSteps(0x639f4775, 0x44, [0x639f4731, 0xdc7720b8, 0x6e3b905c, 0x371dc82e, 0x1b8ee417,
                               0xe07ff12b, 0x9d877bb5, 0xa37b3efa, 0x51bd9f7d]);
  }

  lemma OneMore(register: bv32, data: seq<byte>, b: byte)
    ensures ClockBytes(register, data + [b]) == ClockByte(ClockBytes(register, data), Word(b))
  {
  }

  lemma FourBytes(register: bv32, a: byte, b: byte, c: byte, d: byte)
    ensures ClockBytes(register, [a, b, c, d]) ==
            ClockByte(ClockByte(ClockByte(ClockByte(register, Word(a)), Word(b)), Word(c)), Word(d))
  {
    assert [a, b, c, d] == [a] + [b] + [c] + [d] && [a] == [] + [a];
    OneMore(register, [], a);
    OneMore(register, [a], b);
    OneMore(register, [a] + [b], c);
    OneMore(register, [a] + [b] + [c], d);
  }

  lemma WordsOfIend(a: byte, b: byte, c: byte, d: byte)
    requires a == 73 && b == 69 && c == 78 && d == 68
    ensures Word(a) == 0x49 && Word(b) == 0x45 && Word(c) == 0x4e && Word(d) == 0x44
  {
  }

  /** The check value of the chunk every PNG file ends with: an IEND without data. */
  lemma CrcOfIend(a: byte, b: byte, c: byte, d: byte)
    requires a == 73 && b == 69 && c == 78 && d == 68
    ensures Crc([a, b, c, d]) == 0xae426082
  {
    IendSteps();
    WordsOfIend(a, b, c, d);
    FourBytes(ONES, a, b, c, d);
  }
}
