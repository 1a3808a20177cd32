/** CRC-CCITT in both its forms (delegate-mq/extras/util/crc16.h): polynomial
    x^16 + x^12 + x^5 + 1, most significant bit first, no final XOR. */
module Crc16 {

  const POLY: bv16 := 0x1021

  // ---------------------------------------------------------------------------------------------
  // The bit-serial register
  // ---------------------------------------------------------------------------------------------

  /** The word operations the register is built from, named so that proofs can treat them as
      black boxes. */
  predicate Top(x: bv16) {
    x & 0x8000 != 0
  }

  function Shl(x: bv16): bv16 {
    x << 1
  }

  function Xor(x: bv16, y: bv16): bv16 {
    x ^ y
  }

  /** One message bit enters the register. */
  function StepBit(crc: bv16, bit: bool): bv16 {
    if Top(crc) != bit then Xor(Shl(crc), POLY) else Shl(crc)
  }

  /** The register after a sequence of message bits: the reference definition of the CRC. */
  function Feed(crc: bv16, bits: seq<bool>): bv16
    decreases |bits|
  {
    if bits == [] then crc else Feed(StepBit(crc, bits[0]), bits[1..])
  }

  /** The bits of a byte, most significant first. */
  function ByteBits(b: bv8): (r: seq<bool>)
    ensures |r| == 8
  {
    [b & 0x80 != 0, b & 0x40 != 0, b & 0x20 != 0, b & 0x10 != 0,
     b & 0x08 != 0, b & 0x04 != 0, b & 0x02 != 0, b & 0x01 != 0]
  }

  function Bits(msg: seq<bv8>): (r: seq<bool>)
    ensures |r| == 8 * |msg|
  {
    if msg == [] then [] else ByteBits(msg[0]) + Bits(msg[1..])
  }

  lemma {:induction false} FeedConcat(crc: bv16, a: seq<bool>, b: seq<bool>)
    ensures Feed(crc, a + b) == Feed(Feed(crc, a), b)
    decreases |a|
  {
    hide StepBit;
    if a == [] {
      assert a + b == b;
    } else {
      assert (a + b)[1..] == a[1..] + b;
      FeedConcat(StepBit(crc, a[0]), a[1..], b);
    }
  }

  lemma {:induction false} BitsConcat(a: seq<bv8>, b: seq<bv8>)
    ensures Bits(a + b) == Bits(a) + Bits(b)
  {
    hide ByteBits;
    if a == [] {
      assert a + b == b;
    } else {
      assert (a + b)[1..] == a[1..] + b;
      BitsConcat(a[1..], b);
      assert Bits(a + b) == ByteBits(a[0]) + (Bits(a[1..]) + Bits(b));
    }
  }

  // ---------------------------------------------------------------------------------------------
  // One byte at a time
  // ---------------------------------------------------------------------------------------------

  /** One step of the register on a zero message bit. */
  function Shift(x: bv16): bv16 {
    StepBit(x, false)
  }

  function Eight(x: bv16): bv16 {
    Shift(Shift(Shift(Shift(Shift(Shift(Shift(Shift(x))))))))
  }

  function Word(b: bv8): bv16 {
    b as bv16
  }

  function Up8(x: bv16): bv16 {
    x << 8
  }

  /** A byte placed at the top of a word. */
  function ByteData(b: bv8): bv16 {
    Up8(Word(b))
  }

  /** Does `data` hold exactly these bits at its top, and zeros below? */
  ghost predicate Holds(data: bv16, bits: seq<bool>)
    decreases |bits|
  {
    if bits == [] then data == 0 else bits[0] == Top(data) && Holds(Shl(data), bits[1..])
  }

  lemma XorTop(x: bv16, y: bv16)
    ensures Top(Xor(x, y)) == (Top(x) != Top(y))
  {
  }

  lemma XorShl(x: bv16, y: bv16)
    ensures Xor(Shl(x), Shl(y)) == Shl(Xor(x, y))
  {
  }

  lemma XorShlPoly(x: bv16, y: bv16)
    ensures Xor(Xor(Shl(x), POLY), Shl(y)) == Xor(Shl(Xor(x, y)), POLY)
  {
  }

  /** The register combined with the message bits still to come is a register fed with zeros. */
  lemma StepIsShift(crc: bv16, data: bv16)
    ensures Xor(StepBit(crc, Top(data)), Shl(data)) == Shift(Xor(crc, data))
  {
    hide Top, Shl, Xor;
    XorTop(crc, data);
    XorShl(crc, data);
    XorShlPoly(crc, data);
  }

  lemma FeedStep(crc: bv16, data: bv16, bits: seq<bool>) returns (next: bv16, rest: bv16)
    requires Holds(data, bits) && bits != []
    ensures Feed(crc, bits) == Feed(next, bits[1..]) && Holds(rest, bits[1..])
    ensures Xor(next, rest) == Shift(Xor(crc, data))
  {
    hide Top, Shl, Xor;
    StepIsShift(crc, data);
    next, rest := StepBit(crc, bits[0]), Shl(data);
  }

  lemma FeedDone(crc: bv16, data: bv16, bits: seq<bool>)
    requires Holds(data, bits) && bits == []
    ensures Feed(crc, bits) == Xor(crc, data)
  {
  }

  lemma FeedFour(crc: bv16, data: bv16, bits: seq<bool>) returns (next: bv16, rest: bv16)
    requires Holds(data, bits) && |bits| >= 4
    ensures Feed(crc, bits) == Feed(next, bits[4..]) && Holds(rest, bits[4..])
    ensures Xor(next, rest) == Shift(Shift(Shift(Shift(Xor(crc, data)))))
  {
    hide *;
    next, rest := FeedStep(crc, data, bits);
    next, rest := FeedStep(next, rest, bits[1..]);
    assert bits[1..][1..] == bits[2..];
    next, rest := FeedStep(next, rest, bits[2..]);
    assert bits[2..][1..] == bits[3..];
    next, rest := FeedStep(next, rest, bits[3..]);
    assert bits[3..][1..] == bits[4..];
  }

  lemma HoldsStep(data: bv16, bits: seq<bool>)
    requires bits != [] && bits[0] == Top(data) && Holds(Shl(data), bits[1..])
    ensures Holds(data, bits)
  {
  }

  lemma HoldsFour(d: bv16, bits: seq<bool>)
    requires |bits| >= 4 && bits[0] == Top(d) && bits[1] == Top(Shl(d))
    requires bits[2] == Top(Shl(Shl(d))) && bits[3] == Top(Shl(Shl(Shl(d))))
    requires Holds(Shl(Shl(Shl(Shl(d)))), bits[4..])
    ensures Holds(d, bits)
  {
    hide *;
    assert bits[3..][1..] == bits[4..];
    HoldsStep(Shl(Shl(Shl(d))), bits[3..]);
    assert bits[2..][1..] == bits[3..];
    HoldsStep(Shl(Shl(d)), bits[2..]);
    assert bits[1..][1..] == bits[2..];
    HoldsStep(Shl(d), bits[1..]);
    HoldsStep(d, bits);
  }

  lemma ByteTops(b: bv8) returns (d: bv16, e: bv16, r: seq<bool>)
    ensures d == ByteData(b) && r == ByteBits(b)
    ensures e == Shl(Shl(Shl(Shl(d)))) && Shl(Shl(Shl(Shl(e)))) == 0
    ensures r[0] == Top(d) && r[1] == Top(Shl(d)) && r[2] == Top(Shl(Shl(d))) && r[3] == Top(Shl(Shl(Shl(d))))
    ensures r[4] == Top(e) && r[5] == Top(Shl(e)) && r[6] == Top(Shl(Shl(e))) && r[7] == Top(Shl(Shl(Shl(e))))
  {
    d, r := ByteData(b), ByteBits(b);
    e := Shl(Shl(Shl(Shl(d))));
  }

  lemma ByteHolds(b: bv8)
    ensures Holds(ByteData(b), ByteBits(b))
  {
    hide Top, Shl, ByteData, ByteBits;
    var d, e, r := ByteTops(b);
    assert r[4..][4..] == [] && Holds(0, []);
    HoldsFour(e, r[4..]);
    HoldsFour(d, r);
  }

  /** A byte entering the register is eight zero steps of the register combined with the byte. */
  lemma FeedByte(crc: bv16, b: bv8)
    ensures Feed(crc, ByteBits(b)) == Eight(Xor(crc, ByteData(b)))
  {
    hide Top, Shl, Xor, Shift, StepBit, Holds, Feed, ByteData, ByteBits;
    ByteHolds(b);
    var r := ByteBits(b);
    var c4, d4 := FeedFour(crc, ByteData(b), r);
    var c8, d8 := FeedFour(c4, d4, r[4..]);
    FeedDone(c8, d8, r[4..][4..]);
  }

  // ---------------------------------------------------------------------------------------------
  // The loop form
  // ---------------------------------------------------------------------------------------------

  method LoopBit(crc: bv16, data: bv16) returns (next: bv16, rest: bv16)
    ensures next == StepBit(crc, Top(data)) && rest == Shl(data)
  {
    if (data ^ crc) & 0x8000 != 0 {
      next := (crc << 1) ^ POLY;
    } else {
      next := crc << 1;
    }
    rest := data << 1;
  }

  /** The inner loop: eight tests of the top bit of the register combined with the byte. */
  method LoopByte(init: bv16, byte: bv8) returns (crc: bv16)
    ensures crc == Feed(init, ByteBits(byte))
  {
    hide Top, Shl, StepBit, ByteBits;
    ByteHolds(byte);
    crc := init;
    var data := byte as bv16 << 8;
    ghost var bits := ByteBits(byte);
    var i := 8;
    while i > 0
      invariant 0 <= i <= 8 && i == |bits|
      invariant Holds(data, bits) && Feed(crc, bits) == Feed(init, ByteBits(byte))
    {
      crc, data := LoopBit(crc, data);
      bits := bits[1..];
      i := i - 1;
    }
  }

  /** The bit-by-bit form of `Crc16CalcBlock`. */
  method Crc16Loop(msg: seq<bv8>, init: bv16) returns (crc: bv16)
    ensures crc == Feed(init, Bits(msg))
  {
    hide ByteBits, StepBit;
    crc := init;
    var n := 0;
    while n < |msg|
      invariant 0 <= n <= |msg|
      invariant Feed(crc, Bits(msg[n..])) == Feed(init, Bits(msg))
    {
      assert msg[n..][1..] == msg[n + 1..];
      FeedConcat(crc, ByteBits(msg[n]), Bits(msg[n + 1..]));
      crc := LoopByte(crc, msg[n]);
      n := n + 1;
    }
  }

  // ---------------------------------------------------------------------------------------------
  // Burst errors and the appended check value
  // ---------------------------------------------------------------------------------------------

  predicate Agree(x: bv16, y: bv16, mask: bv16) {
    (x ^ y) & mask == 0
  }

  /** The mask of the low `m` bits. */
  function Low(m: nat): bv16
    requires m <= 16
  {
    [0x0, 0x1, 0x3, 0x7, 0xf, 0x1f, 0x3f, 0x7f, 0xff,
     0x1ff, 0x3ff, 0x7ff, 0xfff, 0x1fff, 0x3fff, 0x7fff, 0xffff][m]
  }

  function Extend(mask: bv16): bv16 {
    (mask << 1) | 1
  }

  lemma LowStep(m: nat)
    requires m < 16
    ensures Low(m + 1) == Extend(Low(m)) && !Top(Low(m))
  {
  }

  lemma LowBitIsFeedback(c: bv16, x: bool)
    ensures StepBit(c, x) & 1 == (if Top(c) != x then 1 else 0)
  {
  }

  lemma AgreeLowBit(x: bv16, y: bv16, mask: bv16)
    requires Agree(x, y, Extend(mask))
    ensures x & 1 == y & 1
  {
  }

  lemma AgreeShl(x: bv16, y: bv16, mask: bv16)
    requires !Top(mask) && Agree(Shl(x), Shl(y), Extend(mask))
    ensures Agree(x, y, mask)
  {
  }

  lemma AgreePoly(x: bv16, y: bv16, mask: bv16)
    requires Agree(Xor(x, POLY), Xor(y, POLY), mask)
    ensures Agree(x, y, mask)
  {
  }

  /** Running a step backwards: registers that agree on their low bits came from registers with the
      same feedback, agreeing on one bit fewer. */
  lemma StepBack(c1: bv16, x1: bool, c2: bv16, x2: bool, mask: bv16)
    requires !Top(mask) && Agree(StepBit(c1, x1), StepBit(c2, x2), Extend(mask))
    ensures (Top(c1) != x1) == (Top(c2) != x2)
    ensures Agree(c1, c2, mask)
  {
    LowBitIsFeedback(c1, x1);
    LowBitIsFeedback(c2, x2);
    AgreeLowBit(StepBit(c1, x1), StepBit(c2, x2), mask);
    hide Top, Shl, Xor, Agree, Extend;
    if Top(c1) != x1 {
      AgreePoly(Shl(c1), Shl(c2), Extend(mask));
    }
    AgreeShl(c1, c2, mask);
  }

  lemma AgreeAll(c1: bv16, c2: bv16)
    ensures Agree(c1, c2, Low(16)) <==> c1 == c2
  {
    assert Low(16) == 0xffff;
    AgreeFull(c1, c2);
  }

  lemma AgreeFull(c1: bv16, c2: bv16)
    ensures (c1 ^ c2) & 0xffff == 0 <==> c1 == c2
  {
  }

  /** Feeding the same bits to two registers never makes them equal. */
  lemma {:induction false} FeedInjective(c1: bv16, c2: bv16, bits: seq<bool>)
    requires Feed(c1, bits) == Feed(c2, bits)
    ensures c1 == c2
    decreases |bits|
  {
    hide Top, StepBit, Agree, Low;
    if bits != [] {
      var x := bits[0];
      FeedInjective(StepBit(c1, x), StepBit(c2, x), bits[1..]);
      StepDetermines(c1, c2, x);
    }
  }

  lemma StepDetermines(c1: bv16, c2: bv16, x: bool)
    requires StepBit(c1, x) == StepBit(c2, x)
    ensures c1 == c2
  {
    AgreeAll(StepBit(c1, x), StepBit(c2, x));
    LowStep(15);
    hide StepBit, Agree, Low, Top, Extend;
    StepBack(c1, x, c2, x, Low(15));
    AgreeAll(c1, c2);
  }

  /** Registers that agree on their low `m` bits after `|a|` steps agreed on `m - |a|` before. */
  lemma {:induction false} FeedBack(c1: bv16, a: seq<bool>, c2: bv16, b: seq<bool>, m: nat)
    requires |a| == |b| <= m <= 16 && Agree(Feed(c1, a), Feed(c2, b), Low(m))
    ensures Agree(c1, c2, Low(m - |a|))
    decreases |a|
  {
    hide Top, StepBit, Agree, Low, Extend;
    if a != [] {
      FeedBack(StepBit(c1, a[0]), a[1..], StepBit(c2, b[0]), b[1..], m);
      LowStep(m - |a|);
      StepBack(c1, a[0], c2, b[0], Low(m - |a|));
    }
  }

  /** From one register, different bit strings of at most 16 bits lead to different registers. */
  lemma {:induction false} ShortStringsDiffer(c: bv16, a: seq<bool>, b: seq<bool>)
    requires |a| == |b| <= 16 && Feed(c, a) == Feed(c, b)
    ensures a == b
    decreases |a|
  {
    hide Top, StepBit, Agree, Low, Extend;
    if a != [] {
      var c1, c2 := StepBit(c, a[0]), StepBit(c, b[0]);
      AgreeAll(Feed(c, a), Feed(c, b));
      FeedBack(c1, a[1..], c2, b[1..], 16);
      LowStep(16 - |a|);
      StepBack(c, a[0], c, b[0], Low(16 - |a|));
      ShortStringsDiffer(c1, a[1..], b[1..]);
      assert a == [a[0]] + a[1..] && b == [b[0]] + b[1..];
    }
  }

  /** Every burst error of at most 16 bits changes the register: bit strings of equal length that
      differ at most inside a window of 16 consecutive bits and have the same CRC are the same. */
  lemma BurstDetected(c: bv16, a: seq<bool>, b: seq<bool>, p: nat)
    requires |a| == |b| && Feed(c, a) == Feed(c, b)
    requires forall k :: 0 <= k < |a| && !(p <= k < p + 16) ==> a[k] == b[k]
    ensures a == b
  {
    hide Feed;
    var lo := if p < |a| then p else |a|;
    var hi := if p + 16 < |a| then p + 16 else |a|;
    assert a[..lo] == b[..lo] && a[hi..] == b[hi..];
    var start := Feed(c, a[..lo]);
    FeedWindow(c, a, lo, hi);
    FeedWindow(c, b, lo, hi);
    FeedInjective(Feed(start, a[lo..hi]), Feed(start, b[lo..hi]), a[hi..]);
    ShortStringsDiffer(start, a[lo..hi], b[lo..hi]);
    assert a == a[..lo] + a[lo..hi] + a[hi..] && b == b[..lo] + b[lo..hi] + b[hi..];
  }

  lemma FeedWindow(c: bv16, a: seq<bool>, lo: nat, hi: nat)
    requires lo <= hi <= |a|
    ensures Feed(c, a) == Feed(Feed(Feed(c, a[..lo]), a[lo..hi]), a[hi..])
  {
    hide Feed;
    assert a == a[..lo] + (a[lo..hi] + a[hi..]);
    FeedConcat(c, a[..lo], a[lo..hi] + a[hi..]);
    FeedConcat(Feed(c, a[..lo]), a[lo..hi], a[hi..]);
  }

  lemma ByteBitsInjective(x: bv8, y: bv8)
    requires ByteBits(x) == ByteBits(y)
    ensures x == y
  {
    var r, q := ByteBits(x), ByteBits(y);
    assert forall k :: 0 <= k < 8 ==> r[k] == q[k];
    assert r[0] == q[0] && r[1] == q[1] && r[2] == q[2] && r[3] == q[3];
    assert r[4] == q[4] && r[5] == q[5] && r[6] == q[6] && r[7] == q[7];
  }

  lemma {:induction false} BitsInjective(a: seq<bv8>, b: seq<bv8>)
    requires |a| == |b| && Bits(a) == Bits(b)
    ensures a == b
  {
    hide ByteBits;
    if a != [] {
      assert Bits(a)[..8] == ByteBits(a[0]) && Bits(a)[8..] == Bits(a[1..]);
      assert Bits(b)[..8] == ByteBits(b[0]) && Bits(b)[8..] == Bits(b[1..]);
      ByteBitsInjective(a[0], b[0]);
      BitsInjective(a[1..], b[1..]);
      assert a == [a[0]] + a[1..] && b == [b[0]] + b[1..];
    }
  }

  /** Two different messages of equal length whose bits differ only inside a window of 16
      consecutive bits never have the same CRC. */
  lemma MessageBurstDetected(init: bv16, a: seq<bv8>, b: seq<bv8>, p: nat)
    requires |a| == |b| && a != b
    requires forall k :: 0 <= k < 8 * |a| && !(p <= k < p + 16) ==> Bits(a)[k] == Bits(b)[k]
    ensures Feed(init, Bits(a)) != Feed(init, Bits(b))
  {
    hide StepBit, ByteBits, Feed;
    if Feed(init, Bits(a)) == Feed(init, Bits(b)) {
      BurstDetected(init, Bits(a), Bits(b), p);
      BitsInjective(a, b);
    }
  }

  function HighByte(crc: bv16): bv8 {
    (crc >> 8) as bv8
  }

  function LowByte(crc: bv16): bv8 {
    (crc & 0xff) as bv8
  }

  function LowHalf(x: bv16): bv16 {
    x & 0xff
  }

  lemma EightOfLow(x: bv16)
    ensures Eight(LowHalf(x)) == Up8(x)
  {
  }

  /** The high check byte clears the register's high half; the low one then clears the rest. */
  lemma CheckBytes(crc: bv16)
    ensures Xor(crc, ByteData(HighByte(crc))) == LowHalf(crc)
    ensures Xor(Up8(crc), ByteData(LowByte(crc))) == 0 && LowHalf(0) == 0 == Up8(0)
  {
  }

  lemma OwnCheckGivesZero(crc: bv16)
    ensures Feed(crc, ByteBits(HighByte(crc)) + ByteBits(LowByte(crc))) == 0
  {
    hide StepBit, ByteBits, Feed, Eight, Xor, ByteData, HighByte, LowByte, LowHalf, Up8;
    var hi, lo := HighByte(crc), LowByte(crc);
    FeedConcat(crc, ByteBits(hi), ByteBits(lo));
    CheckBytes(crc);
    FeedByte(crc, hi);
    EightOfLow(crc);
    FeedByte(Up8(crc), lo);
    EightOfLow(0);
  }

  /** A receiver that runs the CRC over a message and two appended bytes gets 0 exactly when those
      bytes are the message's CRC, high byte first. */
  lemma AppendedCheckIff(init: bv16, msg: seq<bv8>, hi: bv8, lo: bv8)
    ensures var crc := Feed(init, Bits(msg));
      Feed(init, Bits(msg + [hi, lo])) == 0 <==> hi == HighByte(crc) && lo == LowByte(crc)
  {
    hide StepBit, ByteBits, HighByte, LowByte;
    var crc := Feed(init, Bits(msg));
    BitsConcat(msg, [hi, lo]);
    TwoBytes(hi, lo);
    FeedConcat(init, Bits(msg), ByteBits(hi) + ByteBits(lo));
    OwnCheckGivesZero(crc);
    if Feed(init, Bits(msg + [hi, lo])) == 0 {
      var own := ByteBits(HighByte(crc)) + ByteBits(LowByte(crc));
      var given := ByteBits(hi) + ByteBits(lo);
      ShortStringsDiffer(crc, given, own);
      assert given[..8] == ByteBits(hi) && own[..8] == ByteBits(HighByte(crc));
      assert given[8..] == ByteBits(lo) && own[8..] == ByteBits(LowByte(crc));
      ByteBitsInjective(hi, HighByte(crc));
      ByteBitsInjective(lo, LowByte(crc));
    }
  }

  lemma TwoBytes(hi: bv8, lo: bv8)
    ensures Bits([hi, lo]) == ByteBits(hi) + ByteBits(lo)
  {
    hide ByteBits;
    assert [hi, lo][1..] == [lo] && [lo][1..] == [];
    assert Bits([lo]) == ByteBits(lo) + [];
  }
}
