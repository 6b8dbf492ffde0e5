/** Words and bytes of the CRC: single steps of the shift register, as bit-vector facts. */
module PngBits {

  /** A byte of a buffer; `Word` is the same byte as a bit-vector. */
  newtype byte = x: int | 0 <= x < 256

  function Word(b: byte): bv8 {
    b as bv8
  }

  const POLYNOMIAL: bv32 := 0xedb88320
  const ONES: bv32 := 0xffffffff

  /** Clock one message bit into the register. */
  function Clock(register: bv32, bit: bool): bv32 {
    if (register & 1 == 1) != bit then POLYNOMIAL ^ (register >> 1) else register >> 1
  }

  function Half(c: bv32): bv32 {
    c >> 1
  }

  function LowBit(c: bv32): bool {
    c & 1 == 1
  }

  function Bit(c: bv32): bv32 {
    if c & 1 == 1 then POLYNOMIAL ^ (c >> 1) else c >> 1
  }

  function Xor(a: bv32, b: bv32): bv32 {
    a ^ b
  }

  lemma LowBitOfXor(x: bv32, y: bv32)
    ensures (x ^ y) & 1 == (x & 1) ^ (y & 1)
    ensures (x & 1 == 0 || x & 1 == 1) && (y & 1 == 0 || y & 1 == 1)
  {
  }

  lemma XorAssociates(x: bv32, y: bv32, z: bv32)
    ensures (x ^ y) ^ z == x ^ (y ^ z)
  {
  }

  lemma BitOfXor(x: bv32, y: bv32)
    ensures Bit(x ^ y) == Bit(x) ^ Bit(y)
  {
    LowBitOfXor(x, y);
    var a, b := x >> 1, y >> 1;
    if x & 1 == 1 {
      if y & 1 == 1 {
        assert (x ^ y) & 1 == 0;
        XorAssociates(a, POLYNOMIAL, POLYNOMIAL ^ b);
        XorAssociates(POLYNOMIAL, POLYNOMIAL, b);
      } else {
        assert (x ^ y) & 1 == 1;
        XorAssociates(POLYNOMIAL, a, b);
      }
    } else {
      if y & 1 == 1 {
        assert (x ^ y) & 1 == 1;
        XorAssociates(POLYNOMIAL, a, b);
        XorAssociates(a, POLYNOMIAL, b);
      } else {
        assert (x ^ y) & 1 == 0;
      }
    }
  }

  lemma ClockIsBit(register: bv32, c: bv32)
    ensures Xor(Clock(register, LowBit(c)), Half(c)) == Bit(Xor(register, c))
  {
    LowBitOfXor(register, c);
    XorAssociates(POLYNOMIAL, register >> 1, c >> 1);
  }

  /** `low` is the low byte of crc ^ b; the rest of crc ^ b is `high`, which b does not reach. */
  ghost predicate Splits(crc: bv32, b: bv8, low: bv32, high: bv32) {
    crc ^ (b as bv32) == Xor(low, high) && high & 0xff == 0 && high >> 8 == crc >> 8
  }

  lemma IndexOfByte(x: bv8)
    ensures 0 <= x as int < 256 && ((x as int) as bv8) == x
  {
  }

  /** (crc ^ b) & 0xff */
  method LowByte(crc: bv32, b: bv8) returns (low: bv8)
    ensures low as bv32 == (crc ^ (b as bv32)) & 0xff
  {
    var masked := (crc ^ (b as bv32)) & 0xff;
    low := masked as bv8;
  }
}
