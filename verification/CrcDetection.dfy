/** What the checksum detects. Damage goes unnoticed exactly when the error pattern, run
    through an empty register, leaves it empty; a burst of at most 32 bits never does. */
module CrcDetection {
  import opened Crc

  // ---- Undetected damage is an error pattern the register maps to zero ----

  function XorBits(x: seq<bool>, y: seq<bool>): (e: seq<bool>)
    requires |x| == |y|
    ensures |e| == |x|
    decreases |x|
  {
    if x == [] then [] else [x[0] != y[0]] + XorBits(x[1..], y[1..])
  }

  lemma XorCommutes(r: Reg, s: Reg)
    ensures Xor(r, s) == Xor(s, r)
  {
  }

  lemma Interchange(a: Reg, b: Reg, c: Reg, d: Reg)
    ensures Xor(Xor(a, b), Xor(c, d)) == Xor(Xor(a, c), Xor(b, d))
  {
    XorAssociates(a, b, Xor(c, d));
    XorAssociates(b, c, d);
    XorCommutes(b, c);
    XorAssociates(c, b, d);
    XorAssociates(a, c, Xor(b, d));
  }

  lemma BitRegLinear(a: bool, b: bool)
    ensures BitReg(a != b) == Xor(BitReg(a), BitReg(b))
  {
    if a {
      if b { } else { }
    } else {
      if b { } else { }
    }
  }

  lemma {:induction false} BitRunLinear(r: Reg, s: Reg, x: seq<bool>, y: seq<bool>)
    requires |x| == |y|
    ensures BitRun(Xor(r, s), XorBits(x, y)) == Xor(BitRun(r, x), BitRun(s, y))
    decreases |x|
  {
    if x != [] {
      var r', s' := Xor(r, BitReg(x[0])), Xor(s, BitReg(y[0]));
      BitRegLinear(x[0], y[0]);
      Interchange(r, s, BitReg(x[0]), BitReg(y[0]));
      BitStepLinear(r', s');
      assert XorBits(x, y)[1..] == XorBits(x[1..], y[1..]);
      BitRunLinear(BitStep(r'), BitStep(s'), x[1..], y[1..]);
    }
  }

  lemma XorSelf(r: Reg)
    ensures Xor(r, r) == Reg(0)
  {
  }

  lemma XorZeroOnlySelf(r: Reg, s: Reg)
    requires Xor(r, s) == Reg(0)
    ensures r == s
  {
    assert r.v ^ s.v == 0;
  }

  lemma XorCancelsRight(r: Reg, s: Reg, b: Reg)
    requires Xor(r, b) == Xor(s, b)
    ensures r == s
  {
    assert r.v ^ b.v == s.v ^ b.v;
  }

  lemma CrcOfRegister(p: seq<octet>)
    ensures Reg(Crc32(p)) == Xor(BitRun(Reg(ALL_ONES), MessageBits(p)), Reg(ALL_ONES))
  {
    TableRunIsBitRun(Reg(ALL_ONES), p);
  }

  lemma SameCrcIffSameRegister(p: seq<octet>, q: seq<octet>)
    ensures Crc32(p) == Crc32(q) <==>
            BitRun(Reg(ALL_ONES), MessageBits(p)) == BitRun(Reg(ALL_ONES), MessageBits(q))
  {
    CrcOfRegister(p);
    CrcOfRegister(q);
    if Crc32(p) == Crc32(q) {
      XorCancelsRight(BitRun(Reg(ALL_ONES), MessageBits(p)), BitRun(Reg(ALL_ONES), MessageBits(q)), Reg(ALL_ONES));
    }
  }

  /** Two messages of one length share a checksum iff their difference does not register. */
  lemma UndetectedIffNoResidue(p: seq<octet>, q: seq<octet>)
    requires |p| == |q|
    ensures Crc32(p) == Crc32(q) <==>
            BitRun(Reg(0), XorBits(MessageBits(p), MessageBits(q))) == Reg(0)
  {
    var x, y := MessageBits(p), MessageBits(q);
    var ones := Reg(ALL_ONES);
    SameCrcIffSameRegister(p, q);
    BitRunLinear(ones, ones, x, y);
    XorSelf(ones);
    XorSelf(BitRun(ones, x));
    if BitRun(Reg(0), XorBits(x, y)) == Reg(0) {
      XorZeroOnlySelf(BitRun(ones, x), BitRun(ones, y));
    }
  }

  // ---- The register step can be undone ----

  lemma BitStepInjective(r: Reg, s: Reg)
    requires BitStep(r) == BitStep(s)
    ensures r == s
  {
  }

  lemma {:induction false} StepsInjective(r: Reg, s: Reg, n: nat)
    requires Steps(r, n) == Steps(s, n)
    ensures r == s
    decreases n
  {
    if n != 0 {
      StepsInjective(BitStep(r), BitStep(s), n - 1);
      BitStepInjective(r, s);
    }
  }

  lemma XorCancels(r: Reg, v: bv32, w: bv32)
    requires Xor(r, Reg(v)) == Xor(r, Reg(w))
    ensures v == w
  {
    assert r.v ^ v == r.v ^ w;
  }

  lemma {:induction false} BitRunInjective(r: Reg, s: Reg, x: seq<bool>)
    requires BitRun(r, x) == BitRun(s, x)
    ensures r == s
    decreases |x|
  {
    if x != [] {
      var r', s' := Xor(r, BitReg(x[0])), Xor(s, BitReg(x[0]));
      BitRunInjective(BitStep(r'), BitStep(s'), x[1..]);
      BitStepInjective(r', s');
      XorCancelsRight(r, s, BitReg(x[0]));
    }
  }

  // ---- At most 32 bits fit the register as a word ----

  lemma {:induction false} ShiftDownAdds(v: bv32, a: nat, b: nat)
    ensures ShiftDown(v, a + b) == ShiftDown(ShiftDown(v, a), b)
    decreases a
  {
    if a != 0 {
      ShiftDownAdds(v >> 1, a - 1, b);
    }
  }

  lemma {:induction false} ShiftDownZero(n: nat)
    ensures ShiftDown(0, n) == 0
    decreases n
  {
    if n != 0 {
      ShiftDownZero(n - 1);
    }
  }

  lemma ShiftDown16(v: bv32)
    ensures ShiftDown(v, 16) == v >> 16
  {
    ShiftDownAdds(v, 8, 8);
    ShiftDownEight(v);
    ShiftDownEight(v >> 8);
  }

  lemma ShiftDown28(v: bv32)
    ensures ShiftDown(v, 28) == v >> 28
  {
    ShiftDownAdds(v, 16, 12);
    ShiftDown16(v);
    ShiftDownAdds(v >> 16, 8, 4);
    ShiftDownEight(v >> 16);
    ShiftDownFour((v >> 16) >> 8);
  }

  lemma ShiftDown31(v: bv32)
    ensures ShiftDown(v, 31) == v >> 31
  {
    ShiftDownAdds(v, 28, 3);
    ShiftDown28(v);
    assert ShiftDown(v >> 28, 3) == (((v >> 28) >> 1) >> 1) >> 1;
  }

  lemma TopBitClear(v: bv32, n: nat)
    requires n <= 31 && ShiftDown(v, n) == 0
    ensures v >> 31 == 0
  {
    ShiftDownAdds(v, n, 31 - n);
    ShiftDownZero(31 - n);
    ShiftDown31(v);
  }

  // One bit more at the low end of a word with room for it.
  lemma AddBit(w: bv32, b: bool) returns (v: bv32)
    requires w >> 31 == 0
    ensures v >> 1 == w && (v & 1 == 1) == b
  {
    if b {
      v := 1 | (w << 1);
    } else {
      v := w << 1;
    }
  }

  lemma PrependBit(v: bv32, w: bv32, b: bool, n: nat)
    requires (v & 1 == 1) == b && v >> 1 == w
    ensures LowBits(v, n + 1) == [b] + LowBits(w, n)
    ensures ShiftDown(v, n + 1) == ShiftDown(w, n)
  {
  }

  lemma {:induction false} WordOf(bits: seq<bool>) returns (v: bv32)
    requires |bits| <= 32
    ensures LowBits(v, |bits|) == bits && ShiftDown(v, |bits|) == 0
    decreases |bits|
  {
    if bits == [] {
      v := 0;
    } else {
      var w := WordOf(bits[1..]);
      TopBitClear(w, |bits| - 1);
      v := AddBit(w, bits[0]);
      PrependBit(v, w, bits[0], |bits| - 1);
    }
  }

  // Distinct words of at most 32 bits send one register to distinct registers.
  lemma WordsSeparate(r: Reg, x: seq<bool>, y: seq<bool>)
    requires |x| == |y| <= 32
    requires BitRun(r, x) == BitRun(r, y)
    ensures x == y
  {
    var n := |x|;
    var v := WordOf(x);
    var w := WordOf(y);
    LowBitsFeed(r, v, n);
    LowBitsFeed(r, w, n);
    StepsInjective(Xor(r, Reg(v)), Xor(r, Reg(w)), n);
    XorCancels(r, v, w);
  }

  // ---- Bursts ----

  /** x and y agree outside the 32 bits that start at bit k. */
  predicate AgreeOutside(x: seq<bool>, y: seq<bool>, k: nat) {
    && |x| == |y|
    && (forall i | 0 <= i < |x| && !(k <= i < k + 32) :: x[i] == y[i])
  }

  /** q is p after a burst of at most 32 bits, in transmission order. */
  ghost predicate BurstDamage(p: seq<octet>, q: seq<octet>) {
    |p| == |q| && exists k: nat :: AgreeOutside(MessageBits(p), MessageBits(q), k)
  }

  lemma BitRunInThree(r: Reg, x: seq<bool>, a: nat, b: nat)
    requires a <= b <= |x|
    ensures BitRun(r, x) == BitRun(BitRun(BitRun(r, x[..a]), x[a..b]), x[b..])
  {
    assert x == x[..a] + (x[a..b] + x[b..]);
    BitRunAppend(r, x[..a], x[a..b] + x[b..]);
    BitRunAppend(BitRun(r, x[..a]), x[a..b], x[b..]);
  }

  // Registers that end equal were equal before a common suffix, and so was a window of at
  // most 32 bits in front of it.
  lemma WindowsEqual(s: Reg, u: seq<bool>, v: seq<bool>, z: seq<bool>)
    requires |u| == |v| <= 32
    requires BitRun(BitRun(s, u), z) == BitRun(BitRun(s, v), z)
    ensures u == v
  {
    BitRunInjective(BitRun(s, u), BitRun(s, v), z);
    WordsSeparate(s, u, v);
  }

  lemma SplitInThree(x: seq<bool>, a: nat, b: nat)
    requires a <= b <= |x|
    ensures x == x[..a] + x[a..b] + x[b..]
  {
  }

  lemma BitBurstDetected(r: Reg, x: seq<bool>, y: seq<bool>, k: nat)
    requires AgreeOutside(x, y, k) && BitRun(r, x) == BitRun(r, y)
    ensures x == y
  {
    var a := if k < |x| then k else |x|;
    var b := if a + 32 < |x| then a + 32 else |x|;
    assert x[..a] == y[..a] && x[b..] == y[b..];
    BitRunInThree(r, x, a, b);
    BitRunInThree(r, y, a, b);
    WindowsEqual(BitRun(r, x[..a]), x[a..b], y[a..b], x[b..]);
    SplitInThree(x, a, b);
    SplitInThree(y, a, b);
  }

  lemma SameWord(v: bv32, w: bv32, b: bool, u: bv32)
    requires (v & 1 == 1) == b && (w & 1 == 1) == b && v >> 1 == u && w >> 1 == u
    ensures v == w
  {
  }

  lemma {:induction false} LowBitsInjective(v: bv32, w: bv32, n: nat)
    requires ShiftDown(v, n) == ShiftDown(w, n) && LowBits(v, n) == LowBits(w, n)
    ensures v == w
    decreases n
  {
    if n != 0 {
      PrependBit(v, v >> 1, v & 1 == 1, n - 1);
      PrependBit(w, w >> 1, w & 1 == 1, n - 1);
      assert LowBits(v, n)[1..] == LowBits(v >> 1, n - 1);
      assert LowBits(w, n)[1..] == LowBits(w >> 1, n - 1);
      LowBitsInjective(v >> 1, w >> 1, n - 1);
      SameWord(v, w, v & 1 == 1, v >> 1);
    }
  }

  lemma ByteBitsInjective(b: octet, c: octet)
    requires ByteBits(b) == ByteBits(c)
    ensures b == c
  {
    ShiftDownEight(b as bv32);
    ShiftDownEight(c as bv32);
    ByteShiftsOut(b);
    ByteShiftsOut(c);
    LowBitsInjective(b as bv32, c as bv32, 8);
  }

  lemma {:induction false} MessageBitsInjective(p: seq<octet>, q: seq<octet>)
    requires |p| == |q| && MessageBits(p) == MessageBits(q)
    ensures p == q
    decreases |p|
  {
    if p != [] {
      var x, y := MessageBits(p), MessageBits(q);
      assert x[..8] == ByteBits(p[0]) && y[..8] == ByteBits(q[0]);
      assert x[8..] == MessageBits(p[1..]) && y[8..] == MessageBits(q[1..]);
      ByteBitsInjective(p[0], q[0]);
      MessageBitsInjective(p[1..], q[1..]);
    }
  }

  /** A burst of at most 32 bits that changes anything changes the checksum. */
  lemma BurstDetected(p: seq<octet>, q: seq<octet>)
    requires BurstDamage(p, q) && p != q
    ensures Crc32(p) != Crc32(q)
  {
    var x, y := MessageBits(p), MessageBits(q);
    var k: nat :| AgreeOutside(x, y, k);
    if Crc32(p) == Crc32(q) {
      SameCrcIffSameRegister(p, q);
      BitBurstDetected(Reg(ALL_ONES), x, y, k);
      MessageBitsInjective(p, q);
      assert false;
    }
  }
}
