/** The table-driven CRC-32 of cpp/src/common/Crc32.hpp, and the one-bit-at-a-time
    register it abbreviates: every table entry is eight shift/xor steps of its index, so
    the loop computes the bit-serial checksum of the message, each byte taken from its
    least significant bit. */
module Crc {
  type octet = bv8

  // The table, sixteen entries to a row: entry 16 * h + l is ROW_h[l].
  const ROW_0: seq<bv32> := [
    0x00000000, 0x77073096, 0xee0e612c, 0x990951ba, 0x076dc419, 0x706af48f, 0xe963a535, 0x9e6495a3,
    0x0edb8832, 0x79dcb8a4, 0xe0d5e91e, 0x97d2d988, 0x09b64c2b, 0x7eb17cbd, 0xe7b82d07, 0x90bf1d91]

  const ROW_1: seq<bv32> := [
    0x1db71064, 0x6ab020f2, 0xf3b97148, 0x84be41de, 0x1adad47d, 0x6ddde4eb, 0xf4d4b551, 0x83d385c7,
    0x136c9856, 0x646ba8c0, 0xfd62f97a, 0x8a65c9ec, 0x14015c4f, 0x63066cd9, 0xfa0f3d63, 0x8d080df5]

  const ROW_2: seq<bv32> := [
    0x3b6e20c8, 0x4c69105e, 0xd56041e4, 0xa2677172, 0x3c03e4d1, 0x4b04d447, 0xd20d85fd, 0xa50ab56b,
    0x35b5a8fa, 0x42b2986c, 0xdbbbc9d6, 0xacbcf940, 0x32d86ce3, 0x45df5c75, 0xdcd60dcf, 0xabd13d59]

  const ROW_3: seq<bv32> := [
    0x26d930ac, 0x51de003a, 0xc8d75180, 0xbfd06116, 0x21b4f4b5, 0x56b3c423, 0xcfba9599, 0xb8bda50f,
    0x2802b89e, 0x5f058808, 0xc60cd9b2, 0xb10be924, 0x2f6f7c87, 0x58684c11, 0xc1611dab, 0xb6662d3d]

  const ROW_4: seq<bv32> := [
    0x76dc4190, 0x01db7106, 0x98d220bc, 0xefd5102a, 0x71b18589, 0x06b6b51f, 0x9fbfe4a5, 0xe8b8d433,
    0x7807c9a2, 0x0f00f934, 0x9609a88e, 0xe10e9818, 0x7f6a0dbb, 0x086d3d2d, 0x91646c97, 0xe6635c01]

  const ROW_5: seq<bv32> := [
    0x6b6b51f4, 0x1c6c6162, 0x856530d8, 0xf262004e, 0x6c0695ed, 0x1b01a57b, 0x8208f4c1, 0xf50fc457,
    0x65b0d9c6, 0x12b7e950, 0x8bbeb8ea, 0xfcb9887c, 0x62dd1ddf, 0x15da2d49, 0x8cd37cf3, 0xfbd44c65]

  const ROW_6: seq<bv32> := [
    0x4db26158, 0x3ab551ce, 0xa3bc0074, 0xd4bb30e2, 0x4adfa541, 0x3dd895d7, 0xa4d1c46d, 0xd3d6f4fb,
    0x4369e96a, 0x346ed9fc, 0xad678846, 0xda60b8d0, 0x44042d73, 0x33031de5, 0xaa0a4c5f, 0xdd0d7cc9]

  const ROW_7: seq<bv32> := [
    0x5005713c, 0x270241aa, 0xbe0b1010, 0xc90c2086, 0x5768b525, 0x206f85b3, 0xb966d409, 0xce61e49f,
    0x5edef90e, 0x29d9c998, 0xb0d09822, 0xc7d7a8b4, 0x59b33d17, 0x2eb40d81, 0xb7bd5c3b, 0xc0ba6cad]

  const ROW_8: seq<bv32> := [
    0xedb88320, 0x9abfb3b6, 0x03b6e20c, 0x74b1d29a, 0xead54739, 0x9dd277af, 0x04db2615, 0x73dc1683,
    0xe3630b12, 0x94643b84, 0x0d6d6a3e, 0x7a6a5aa8, 0xe40ecf0b, 0x9309ff9d, 0x0a00ae27, 0x7d079eb1]

  const ROW_9: seq<bv32> := [
    0xf00f9344, 0x8708a3d2, 0x1e01f268, 0x6906c2fe, 0xf762575d, 0x806567cb, 0x196c3671, 0x6e6b06e7,
    0xfed41b76, 0x89d32be0, 0x10da7a5a, 0x67dd4acc, 0xf9b9df6f, 0x8ebeeff9, 0x17b7be43, 0x60b08ed5]

  const ROW_10: seq<bv32> := [
    0xd6d6a3e8, 0xa1d1937e, 0x38d8c2c4, 0x4fdff252, 0xd1bb67f1, 0xa6bc5767, 0x3fb506dd, 0x48b2364b,
    0xd80d2bda, 0xaf0a1b4c, 0x36034af6, 0x41047a60, 0xdf60efc3, 0xa867df55, 0x316e8eef, 0x4669be79]

  const ROW_11: seq<bv32> := [
    0xcb61b38c, 0xbc66831a, 0x256fd2a0, 0x5268e236, 0xcc0c7795, 0xbb0b4703, 0x220216b9, 0x5505262f,
    0xc5ba3bbe, 0xb2bd0b28, 0x2bb45a92, 0x5cb36a04, 0xc2d7ffa7, 0xb5d0cf31, 0x2cd99e8b, 0x5bdeae1d]

  const ROW_12: seq<bv32> := [
    0x9b64c2b0, 0xec63f226, 0x756aa39c, 0x026d930a, 0x9c0906a9, 0xeb0e363f, 0x72076785, 0x05005713,
    0x95bf4a82, 0xe2b87a14, 0x7bb12bae, 0x0cb61b38, 0x92d28e9b, 0xe5d5be0d, 0x7cdcefb7, 0x0bdbdf21]

  const ROW_13: seq<bv32> := [
    0x86d3d2d4, 0xf1d4e242, 0x68ddb3f8, 0x1fda836e, 0x81be16cd, 0xf6b9265b, 0x6fb077e1, 0x18b74777,
    0x88085ae6, 0xff0f6a70, 0x66063bca, 0x11010b5c, 0x8f659eff, 0xf862ae69, 0x616bffd3, 0x166ccf45]

  const ROW_14: seq<bv32> := [
    0xa00ae278, 0xd70dd2ee, 0x4e048354, 0x3903b3c2, 0xa7672661, 0xd06016f7, 0x4969474d, 0x3e6e77db,
    0xaed16a4a, 0xd9d65adc, 0x40df0b66, 0x37d83bf0, 0xa9bcae53, 0xdebb9ec5, 0x47b2cf7f, 0x30b5ffe9]

  const ROW_15: seq<bv32> := [
    0xbdbdf21c, 0xcabac28a, 0x53b39330, 0x24b4a3a6, 0xbad03605, 0xcdd70693, 0x54de5729, 0x23d967bf,
    0xb3667a2e, 0xc4614ab8, 0x5d681b02, 0x2a6f2b94, 0xb40bbe37, 0xc30c8ea1, 0x5a05df1b, 0x2d02ef8d]

  function Row(hi: octet): (row: seq<bv32>)
    ensures |row| == 16
  {
    if hi == 0 then ROW_0 else
    if hi == 1 then ROW_1 else
    if hi == 2 then ROW_2 else
    if hi == 3 then ROW_3 else
    if hi == 4 then ROW_4 else
    if hi == 5 then ROW_5 else
    if hi == 6 then ROW_6 else
    if hi == 7 then ROW_7 else
    if hi == 8 then ROW_8 else
    if hi == 9 then ROW_9 else
    if hi == 10 then ROW_10 else
    if hi == 11 then ROW_11 else
    if hi == 12 then ROW_12 else
    if hi == 13 then ROW_13 else
    if hi == 14 then ROW_14 else
    ROW_15
  }

  lemma LowNibble(i: octet)
    ensures 0 <= (i & 0xF) as int < 16
  {
  }

  /** crc32_tab[i]. */
  function Entry(i: octet): bv32 {
    LowNibble(i);
    Row(i >> 4)[(i & 0xF) as int]
  }

  /** The 32-bit register. A datatype of its own, so that proofs can treat it as a point
      of a vector space and go down to its bits only where they must. */
  datatype Reg = Reg(v: bv32)

  function Xor(r: Reg, s: Reg): Reg {
    Reg(r.v ^ s.v)
  }

  /** One turn of the loop: crc32_tab[(crc ^ b) & 0xFF] ^ (crc >> 8). */
  function TableStep(r: Reg, b: octet): Reg {
    Xor(Reg(Entry((Xor(r, Reg(b as bv32)).v & 0xFF) as bv8)), Reg(r.v >> 8))
  }

  function TableRun(r: Reg, p: seq<octet>): Reg
    decreases |p|
  {
    if p == [] then r else TableRun(TableStep(r, p[0]), p[1..])
  }

  const ALL_ONES: bv32 := 0xFFFF_FFFF

  function Crc32(p: seq<octet>): bv32 {
    TableRun(Reg(ALL_ONES), p).v ^ ALL_ONES
  }

  lemma {:induction false} TableRunAppend(r: Reg, p: seq<octet>, q: seq<octet>)
    ensures TableRun(r, p + q) == TableRun(TableRun(r, p), q)
    decreases |p|
  {
    if p == [] {
      assert p + q == q;
    } else {
      assert (p + q)[1..] == p[1..] + q;
      TableRunAppend(TableStep(r, p[0]), p[1..], q);
    }
  }

  /** The loop over the message. */
  method ComputeCrc32(buf: seq<octet>) returns (crc: bv32)
    ensures crc == Crc32(buf)
  {
    crc := 0;
    crc := crc ^ ALL_ONES;
    var p := 0;
    while p < |buf|
      invariant 0 <= p <= |buf|
      invariant Reg(crc) == TableRun(Reg(ALL_ONES), buf[..p])
    {
      assert buf[..p + 1] == buf[..p] + [buf[p]];
      TableRunAppend(Reg(ALL_ONES), buf[..p], [buf[p]]);
      crc := TableStep(Reg(crc), buf[p]).v;
      p := p + 1;
    }
    assert buf[..p] == buf;
    crc := crc ^ ALL_ONES;
  }

  // ---- The bit-serial register ----

  const POLYNOMIAL: bv32 := 0xEDB8_8320

  // What the lowest bit feeds back.
  function Feedback(v: bv32): bv32 {
    if v & 1 == 1 then POLYNOMIAL else 0
  }

  function Shift(v: bv32): bv32 {
    (v >> 1) ^ Feedback(v)
  }

  function EightShifts(v: bv32): bv32 {
    Shift(Shift(Shift(Shift(Shift(Shift(Shift(Shift(v))))))))
  }

  /** One shift/xor step of the register. */
  function BitStep(r: Reg): Reg {
    Reg(Shift(r.v))
  }

  function Steps(r: Reg, n: nat): Reg
    decreases n
  {
    if n == 0 then r else Steps(BitStep(r), n - 1)
  }

  function BitReg(b: bool): Reg {
    Reg(if b then 1 else 0)
  }

  /** The register after the bits of a message, one bit at a time. */
  function BitRun(r: Reg, bits: seq<bool>): Reg
    decreases |bits|
  {
    if bits == [] then r else BitRun(BitStep(Xor(r, BitReg(bits[0]))), bits[1..])
  }

  /** The n low bits of a word, least significant first. */
  function LowBits(v: bv32, n: nat): (bits: seq<bool>)
    ensures |bits| == n
    decreases n
  {
    if n == 0 then [] else [v & 1 == 1] + LowBits(v >> 1, n - 1)
  }

  function ByteBits(b: octet): (bits: seq<bool>)
    ensures |bits| == 8
  {
    LowBits(b as bv32, 8)
  }

  function MessageBits(p: seq<octet>): (bits: seq<bool>)
    ensures |bits| == 8 * |p|
  {
    if p == [] then [] else ByteBits(p[0]) + MessageBits(p[1..])
  }

  // ---- The table holds eight steps of every index ----

  lemma Columns0And1(i: octet)
    requires (i >> 1) & 0x7 == 0
    ensures Entry(i) == EightShifts(i as bv32)
  {
    if i & 0xF == 0 { } else { }
  }

  lemma Columns2And3(i: octet)
    requires (i >> 1) & 0x7 == 1
    ensures Entry(i) == EightShifts(i as bv32)
  {
    if i & 0xF == 2 { } else { }
  }

  lemma Columns4And5(i: octet)
    requires (i >> 1) & 0x7 == 2
    ensures Entry(i) == EightShifts(i as bv32)
  {
    if i & 0xF == 4 { } else { }
  }

  lemma Columns6And7(i: octet)
    requires (i >> 1) & 0x7 == 3
    ensures Entry(i) == EightShifts(i as bv32)
  {
    if i & 0xF == 6 { } else { }
  }

  lemma Columns8And9(i: octet)
    requires (i >> 1) & 0x7 == 4
    ensures Entry(i) == EightShifts(i as bv32)
  {
    if i & 0xF == 8 { } else { }
  }

  lemma Columns10And11(i: octet)
    requires (i >> 1) & 0x7 == 5
    ensures Entry(i) == EightShifts(i as bv32)
  {
    if i & 0xF == 10 { } else { }
  }

  lemma Columns12And13(i: octet)
    requires (i >> 1) & 0x7 == 6
    ensures Entry(i) == EightShifts(i as bv32)
  {
    if i & 0xF == 12 { } else { }
  }

  lemma Columns14And15(i: octet)
    requires (i >> 1) & 0x7 == 7
    ensures Entry(i) == EightShifts(i as bv32)
  {
    if i & 0xF == 14 { } else { }
  }

  lemma EntryIsEightShifts(i: octet)
    ensures Entry(i) == EightShifts(i as bv32)
  {
    if (i >> 1) & 0x7 == 0 { Columns0And1(i); }
    else if (i >> 1) & 0x7 == 1 { Columns2And3(i); }
    else if (i >> 1) & 0x7 == 2 { Columns4And5(i); }
    else if (i >> 1) & 0x7 == 3 { Columns6And7(i); }
    else if (i >> 1) & 0x7 == 4 { Columns8And9(i); }
    else if (i >> 1) & 0x7 == 5 { Columns10And11(i); }
    else if (i >> 1) & 0x7 == 6 { Columns12And13(i); }
    else { Columns14And15(i); }
  }

  lemma EightShiftsAreSteps(v: bv32)
    ensures Steps(Reg(v), 8) == Reg(EightShifts(v))
  {
    var r4 := BitStep(BitStep(BitStep(BitStep(Reg(v)))));
    assert Steps(Reg(v), 8) == Steps(BitStep(BitStep(Reg(v))), 6) == Steps(r4, 4);
    assert Steps(r4, 4) == Steps(BitStep(BitStep(r4)), 2);
  }

  // ---- The register step is linear ----

  lemma SwapXor(a: bv32, b: bv32, c: bv32, d: bv32)
    ensures (a ^ b) ^ (c ^ d) == (a ^ c) ^ (b ^ d)
  {
  }

  lemma LowBitIsBit(v: bv32)
    ensures v & 1 == 0 || v & 1 == 1
  {
  }

  lemma LowBitLinear(r: bv32, s: bv32)
    ensures (r ^ s) & 1 == (r & 1) ^ (s & 1)
  {
  }

  lemma HighBitsLinear(r: bv32, s: bv32)
    ensures (r ^ s) >> 1 == (r >> 1) ^ (s >> 1)
  {
  }

  lemma XorSame(v: bv32)
    ensures v ^ v == 0
  {
  }

  lemma XorZero(v: bv32)
    ensures v ^ 0 == v
    ensures 0 ^ v == v
  {
  }

  lemma FeedbackLinear(r: bv32, s: bv32)
    ensures Feedback(r ^ s) == Feedback(r) ^ Feedback(s)
  {
    LowBitLinear(r, s);
    LowBitIsBit(r);
    LowBitIsBit(s);
    XorSame(POLYNOMIAL);
    XorZero(POLYNOMIAL);
    XorZero(0);
  }

  lemma ShiftLinear(r: bv32, s: bv32)
    ensures Reg(Shift(r ^ s)) == Xor(Reg(Shift(r)), Reg(Shift(s)))
  {
    hide Feedback;
    HighBitsLinear(r, s);
    FeedbackLinear(r, s);
    SwapXor(r >> 1, Feedback(r), s >> 1, Feedback(s));
  }

  lemma BitStepLinear(r: Reg, s: Reg)
    ensures BitStep(Xor(r, s)) == Xor(BitStep(r), BitStep(s))
  {
    hide Shift;
    ShiftLinear(r.v, s.v);
  }

  lemma {:induction false} StepsLinear(r: Reg, s: Reg, n: nat)
    ensures Steps(Xor(r, s), n) == Xor(Steps(r, n), Steps(s, n))
    decreases n
  {
    if n != 0 {
      BitStepLinear(r, s);
      StepsLinear(BitStep(r), BitStep(s), n - 1);
    }
  }

  lemma EvenShift(v: bv32)
    requires v & 1 == 0
    ensures Shift(v) == v >> 1
  {
    XorZero(v >> 1);
  }

  lemma EvenPart(v: bv32)
    ensures BitStep(Reg(v & 0xFFFF_FFFE)) == Reg(v >> 1)
  {
    assert (v & 0xFFFF_FFFE) & 1 == 0;
    EvenShift(v & 0xFFFF_FFFE);
    assert (v & 0xFFFF_FFFE) >> 1 == v >> 1;
  }

  lemma XorAssociates(r: Reg, s: Reg, t: Reg)
    ensures Xor(r, Xor(s, t)) == Xor(Xor(r, s), t)
  {
  }

  lemma SplitLowBit(v: bv32)
    ensures Reg(v) == Xor(Reg(v & 1), Reg(v & 0xFFFF_FFFE))
  {
  }

  // Only the lowest bit of v meets the feedback; the rest moves down unchanged.
  lemma PeelBit(r: Reg, v: bv32)
    ensures BitStep(Xor(r, Reg(v))) == Xor(BitStep(Xor(r, Reg(v & 1))), Reg(v >> 1))
  {
    SplitLowBit(v);
    XorAssociates(r, Reg(v & 1), Reg(v & 0xFFFF_FFFE));
    EvenPart(v);
    BitStepLinear(Xor(r, Reg(v & 1)), Reg(v & 0xFFFF_FFFE));
  }

  function ShiftDown(v: bv32, n: nat): bv32
    decreases n
  {
    if n == 0 then v else ShiftDown(v >> 1, n - 1)
  }

  lemma BitRegIsLowBit(v: bv32)
    ensures BitReg(v & 1 == 1) == Reg(v & 1)
  {
  }

  // Feeding the n low bits of v is n steps from r ^ v, less the bits still to come.
  lemma {:induction false} LowBitsFeed(r: Reg, v: bv32, n: nat)
    ensures Xor(BitRun(r, LowBits(v, n)), Reg(ShiftDown(v, n))) == Steps(Xor(r, Reg(v)), n)
    decreases n
  {
    if n != 0 {
      var bits := LowBits(v, n);
      assert bits[1..] == LowBits(v >> 1, n - 1);
      BitRegIsLowBit(v);
      PeelBit(r, v);
      LowBitsFeed(BitStep(Xor(r, BitReg(bits[0]))), v >> 1, n - 1);
    }
  }

  lemma ShiftDownFour(v: bv32)
    ensures ShiftDown(v, 4) == v >> 4
  {
    assert ShiftDown(v, 4) == ShiftDown((v >> 1) >> 1, 2);
  }

  lemma ShiftDownEight(v: bv32)
    ensures ShiftDown(v, 8) == v >> 8
  {
    assert ShiftDown(v, 8) == ShiftDown((v >> 1) >> 1, 6) == ShiftDown((((v >> 1) >> 1) >> 1) >> 1, 4);
    ShiftDownFour((((v >> 1) >> 1) >> 1) >> 1);
  }

  lemma ByteShiftsOut(b: octet)
    ensures (b as bv32) >> 8 == 0
  {
  }

  lemma ByteBitsFeed(r: Reg, b: octet)
    ensures BitRun(r, ByteBits(b)) == Steps(Xor(r, Reg(b as bv32)), 8)
  {
    LowBitsFeed(r, b as bv32, 8);
    ShiftDownEight(b as bv32);
    ByteShiftsOut(b);
    XorZero(BitRun(r, ByteBits(b)).v);
  }

  function ClearBits(h: bv32, n: nat): bool
    decreases n
  {
    n == 0 || (h & 1 == 0 && ClearBits(h >> 1, n - 1))
  }

  lemma {:induction false} ClearBitsFeed(h: bv32, n: nat)
    requires ClearBits(h, n)
    ensures Steps(Reg(h), n) == Reg(ShiftDown(h, n))
    decreases n
  {
    if n != 0 {
      EvenShift(h);
      ClearBitsFeed(h >> 1, n - 1);
    }
  }

  // A register whose low byte is clear feeds nothing back for eight steps.
  lemma HighBytesShift(h: bv32)
    requires h & 0xFF == 0
    ensures Steps(Reg(h), 8) == Reg(h >> 8)
  {
    ClearBitsFeed(h, 8);
    ShiftDownEight(h);
  }

  lemma SplitLowByte(v: bv32)
    ensures Reg(v) == Xor(Reg(v & 0xFF), Reg(v & 0xFFFF_FF00))
    ensures (v & 0xFFFF_FF00) & 0xFF == 0
  {
  }

  lemma LowByteSteps(v: bv32)
    ensures Steps(Reg(v & 0xFF), 8) == Reg(Entry((v & 0xFF) as bv8))
  {
    EntryIsEightShifts((v & 0xFF) as bv8);
    EightShiftsAreSteps(v & 0xFF);
    assert ((v & 0xFF) as bv8) as bv32 == v & 0xFF;
  }

  lemma StepsOfParts(v: bv32)
    ensures Steps(Reg(v), 8) == Xor(Reg(Entry((v & 0xFF) as bv8)), Reg((v & 0xFFFF_FF00) >> 8))
  {
    SplitLowByte(v);
    StepsLinear(Reg(v & 0xFF), Reg(v & 0xFFFF_FF00), 8);
    HighBytesShift(v & 0xFFFF_FF00);
    LowByteSteps(v);
  }

  lemma KeepsHighBytes(r: bv32, b: octet, x: bv32)
    requires x == r ^ (b as bv32)
    ensures Reg((x & 0xFFFF_FF00) >> 8) == Reg(r >> 8)
  {
  }

  lemma TableStepOn(r: Reg, b: octet, x: Reg)
    requires x == Xor(r, Reg(b as bv32))
    ensures TableStep(r, b) == Steps(x, 8)
  {
    StepsOfParts(x.v);
    KeepsHighBytes(r.v, b, x.v);
  }

  lemma TableStepIsEightSteps(r: Reg, b: octet)
    ensures TableStep(r, b) == Steps(Xor(r, Reg(b as bv32)), 8)
  {
    TableStepOn(r, b, Xor(r, Reg(b as bv32)));
  }

  lemma {:induction false} BitRunAppend(r: Reg, x: seq<bool>, y: seq<bool>)
    ensures BitRun(r, x + y) == BitRun(BitRun(r, x), y)
    decreases |x|
  {
    if x == [] {
      assert x + y == y;
    } else {
      assert (x + y)[1..] == x[1..] + y;
      BitRunAppend(BitStep(Xor(r, BitReg(x[0]))), x[1..], y);
    }
  }

  lemma {:induction false} TableRunIsBitRun(r: Reg, p: seq<octet>)
    ensures TableRun(r, p) == BitRun(r, MessageBits(p))
    decreases |p|
  {
    if p != [] {
      TableStepIsEightSteps(r, p[0]);
      ByteBitsFeed(r, p[0]);
      BitRunAppend(r, ByteBits(p[0]), MessageBits(p[1..]));
      TableRunIsBitRun(TableStep(r, p[0]), p[1..]);
    }
  }

  function IsSet(v: bv32, mask: bv32): bool {
    v & mask == mask
  }

  lemma TwoBits(v: bv32)
    ensures LowBits(v, 2) == [IsSet(v, 1), IsSet(v, 2)]
  {
    assert LowBits(v >> 1, 1) == [(v >> 1) & 1 == 1];
    assert (v >> 1) & 1 == 1 <==> v & 2 == 2;
  }

  lemma {:induction false} LowBitsSplit(v: bv32, m: nat, n: nat)
    ensures LowBits(v, m + n) == LowBits(v, m) + LowBits(ShiftDown(v, m), n)
    decreases m
  {
    if m > 0 {
      LowBitsSplit(v >> 1, m - 1, n);
    }
  }

  lemma ThirdAndFourth(v: bv32)
    ensures IsSet((v >> 1) >> 1, 1) == IsSet(v, 4)
    ensures IsSet((v >> 1) >> 1, 2) == IsSet(v, 8)
  {
  }

  lemma FourBits(v: bv32)
    ensures LowBits(v, 4) == [IsSet(v, 1), IsSet(v, 2), IsSet(v, 4), IsSet(v, 8)]
  {
    LowBitsSplit(v, 2, 2);
    assert ShiftDown(v, 2) == (v >> 1) >> 1;
    TwoBits(v);
    TwoBits((v >> 1) >> 1);
    ThirdAndFourth(v);
  }

  lemma HighFour(v: bv32)
    ensures IsSet(v >> 4, 1) == IsSet(v, 0x10)
    ensures IsSet(v >> 4, 2) == IsSet(v, 0x20)
    ensures IsSet(v >> 4, 4) == IsSet(v, 0x40)
    ensures IsSet(v >> 4, 8) == IsSet(v, 0x80)
  {
  }

  lemma EightBits(v: bv32)
    ensures LowBits(v, 8) == [IsSet(v, 0x01), IsSet(v, 0x02), IsSet(v, 0x04), IsSet(v, 0x08),
                              IsSet(v, 0x10), IsSet(v, 0x20), IsSet(v, 0x40), IsSet(v, 0x80)]
  {
    hide IsSet, LowBits;
    LowBitsSplit(v, 4, 4);
    ShiftDownFour(v);
    FourBits(v);
    FourBits(v >> 4);
    HighFour(v);
  }

  /** The bits of a byte, least significant first. */
  lemma ByteBitsAre(b: octet)
    ensures var v := b as bv32;
            ByteBits(b) == [IsSet(v, 0x01), IsSet(v, 0x02), IsSet(v, 0x04), IsSet(v, 0x08),
                            IsSet(v, 0x10), IsSet(v, 0x20), IsSet(v, 0x40), IsSet(v, 0x80)]
  {
    hide IsSet, LowBits;
    EightBits(b as bv32);
  }

  lemma SliceBehind(first: seq<bool>, rest: seq<bool>, k: nat)
    requires |first| == 8 && k + 8 <= |rest|
    ensures (first + rest)[k + 8..k + 16] == rest[k..k + 8]
  {
  }

  /** The bits of a message are those of its bytes, in order. */
  lemma {:induction false} MessageBitsAt(p: seq<octet>, i: nat)
    requires i < |p|
    ensures MessageBits(p)[8 * i..8 * i + 8] == ByteBits(p[i])
    decreases i
  {
    hide ByteBits;
    if i > 0 {
      MessageBitsAt(p[1..], i - 1);
      SliceBehind(ByteBits(p[0]), MessageBits(p[1..]), 8 * (i - 1));
    }
  }

  /** The table form is the reflected CRC-32 computed one bit at a time. */
  lemma TableFormIsBitSerial(p: seq<octet>)
    ensures Crc32(p) == BitRun(Reg(0xFFFF_FFFF), MessageBits(p)).v ^ 0xFFFF_FFFF
  {
    TableRunIsBitRun(Reg(ALL_ONES), p);
  }

  lemma EmptyCrc()
    ensures Crc32([]) == 0
  {
  }
}
