/** The table form of the CRC.  The table lives in a module of its own. */
module Crc16Table {
  import opened Crc16

  /** The 256-entry lookup table, in rows of sixteen. */
  const TABLE: seq<seq<bv16>> := [
    [0x0000, 0x1021, 0x2042, 0x3063, 0x4084, 0x50a5, 0x60c6, 0x70e7,
     0x8108, 0x9129, 0xa14a, 0xb16b, 0xc18c, 0xd1ad, 0xe1ce, 0xf1ef],
    [0x1231, 0x0210, 0x3273, 0x2252, 0x52b5, 0x4294, 0x72f7, 0x62d6,
     0x9339, 0x8318, 0xb37b, 0xa35a, 0xd3bd, 0xc39c, 0xf3ff, 0xe3de],
    [0x2462, 0x3443, 0x0420, 0x1401, 0x64e6, 0x74c7, 0x44a4, 0x5485,
     0xa56a, 0xb54b, 0x8528, 0x9509, 0xe5ee, 0xf5cf, 0xc5ac, 0xd58d],
    [0x3653, 0x2672, 0x1611, 0x0630, 0x76d7, 0x66f6, 0x5695, 0x46b4,
     0xb75b, 0xa77a, 0x9719, 0x8738, 0xf7df, 0xe7fe, 0xd79d, 0xc7bc],
    [0x48c4, 0x58e5, 0x6886, 0x78a7, 0x0840, 0x1861, 0x2802, 0x3823,
     0xc9cc, 0xd9ed, 0xe98e, 0xf9af, 0x8948, 0x9969, 0xa90a, 0xb92b],
    [0x5af5, 0x4ad4, 0x7ab7, 0x6a96, 0x1a71, 0x0a50, 0x3a33, 0x2a12,
     0xdbfd, 0xcbdc, 0xfbbf, 0xeb9e, 0x9b79, 0x8b58, 0xbb3b, 0xab1a],
    [0x6ca6, 0x7c87, 0x4ce4, 0x5cc5, 0x2c22, 0x3c03, 0x0c60, 0x1c41,
     0xedae, 0xfd8f, 0xcdec, 0xddcd, 0xad2a, 0xbd0b, 0x8d68, 0x9d49],
    [0x7e97, 0x6eb6, 0x5ed5, 0x4ef4, 0x3e13, 0x2e32, 0x1e51, 0x0e70,
     0xff9f, 0xefbe, 0xdfdd, 0xcffc, 0xbf1b, 0xaf3a, 0x9f59, 0x8f78],
    [0x9188, 0x81a9, 0xb1ca, 0xa1eb, 0xd10c, 0xc12d, 0xf14e, 0xe16f,
     0x1080, 0x00a1, 0x30c2, 0x20e3, 0x5004, 0x4025, 0x7046, 0x6067],
    [0x83b9, 0x9398, 0xa3fb, 0xb3da, 0xc33d, 0xd31c, 0xe37f, 0xf35e,
     0x02b1, 0x1290, 0x22f3, 0x32d2, 0x4235, 0x5214, 0x6277, 0x7256],
    [0xb5ea, 0xa5cb, 0x95a8, 0x8589, 0xf56e, 0xe54f, 0xd52c, 0xc50d,
     0x34e2, 0x24c3, 0x14a0, 0x0481, 0x7466, 0x6447, 0x5424, 0x4405],
    [0xa7db, 0xb7fa, 0x8799, 0x97b8, 0xe75f, 0xf77e, 0xc71d, 0xd73c,
     0x26d3, 0x36f2, 0x0691, 0x16b0, 0x6657, 0x7676, 0x4615, 0x5634],
    [0xd94c, 0xc96d, 0xf90e, 0xe92f, 0x99c8, 0x89e9, 0xb98a, 0xa9ab,
     0x5844, 0x4865, 0x7806, 0x6827, 0x18c0, 0x08e1, 0x3882, 0x28a3],
    [0xcb7d, 0xdb5c, 0xeb3f, 0xfb1e, 0x8bf9, 0x9bd8, 0xabbb, 0xbb9a,
     0x4a75, 0x5a54, 0x6a37, 0x7a16, 0x0af1, 0x1ad0, 0x2ab3, 0x3a92],
    [0xfd2e, 0xed0f, 0xdd6c, 0xcd4d, 0xbdaa, 0xad8b, 0x9de8, 0x8dc9,
     0x7c26, 0x6c07, 0x5c64, 0x4c45, 0x3ca2, 0x2c83, 0x1ce0, 0x0cc1],
    [0xef1f, 0xff3e, 0xcf5d, 0xdf7c, 0xaf9b, 0xbfba, 0x8fd9, 0x9ff8,
     0x6e17, 0x7e36, 0x4e55, 0x5e74, 0x2e93, 0x3eb2, 0x0ed1, 0x1ef0]
  ]

  // ---------------------------------------------------------------------------------------------
  // The table form
  // ---------------------------------------------------------------------------------------------

  function EightRow(x: bv16): seq<bv16> {
    [Eight(x), Eight(x ^ 0x0100), Eight(x ^ 0x0200), Eight(x ^ 0x0300),
     Eight(x ^ 0x0400), Eight(x ^ 0x0500), Eight(x ^ 0x0600), Eight(x ^ 0x0700),
     Eight(x ^ 0x0800), Eight(x ^ 0x0900), Eight(x ^ 0x0a00), Eight(x ^ 0x0b00),
     Eight(x ^ 0x0c00), Eight(x ^ 0x0d00), Eight(x ^ 0x0e00), Eight(x ^ 0x0f00)]
  }

  lemma Row0() ensures TABLE[0] == EightRow(0x0000) {}
  lemma Row1() ensures TABLE[1] == EightRow(0x1000) {}
  lemma Row2() ensures TABLE[2] == EightRow(0x2000) {}
  lemma Row3() ensures TABLE[3] == EightRow(0x3000) {}
  lemma Row4() ensures TABLE[4] == EightRow(0x4000) {}
  lemma Row5() ensures TABLE[5] == EightRow(0x5000) {}
  lemma Row6() ensures TABLE[6] == EightRow(0x6000) {}
  lemma Row7() ensures TABLE[7] == EightRow(0x7000) {}
  lemma Row8() ensures TABLE[8] == EightRow(0x8000) {}
  lemma Row9() ensures TABLE[9] == EightRow(0x9000) {}
  lemma RowA() ensures TABLE[10] == EightRow(0xa000) {}
  lemma RowB() ensures TABLE[11] == EightRow(0xb000) {}
  lemma RowC() ensures TABLE[12] == EightRow(0xc000) {}
  lemma RowD() ensures TABLE[13] == EightRow(0xd000) {}
  lemma RowE() ensures TABLE[14] == EightRow(0xe000) {}
  lemma RowF() ensures TABLE[15] == EightRow(0xf000) {}

  lemma NibbleRange(i: bv16)
    requires i < 0x100
    ensures (i >> 4) as int < 16 && (i & 0xf) as int < 16
  {
  }

  function Lookup(i: bv16): bv16
    requires i < 0x100
  {
    NibbleRange(i);
    TABLE[(i >> 4) as int][(i & 0xf) as int]
  }

  lemma RowAt(i: bv16)
    requires i < 0x100
    ensures (i >> 4) as int < 16 && TABLE[(i >> 4) as int] == EightRow((i >> 4) << 12)
  {
    NibbleRange(i);
    hide Eight, EightRow;
    match (i >> 4) as int
    case 0 => Row0();
    case 1 => Row1();
    case 2 => Row2();
    case 3 => Row3();
    case 4 => Row4();
    case 5 => Row5();
    case 6 => Row6();
    case 7 => Row7();
    case 8 => Row8();
    case 9 => Row9();
    case 10 => RowA();
    case 11 => RowB();
    case 12 => RowC();
    case 13 => RowD();
    case 14 => RowE();
    case _ => RowF();
  }

  lemma ColumnXor(i: bv16, x: bv16, j: bv16)
    requires i < 0x100 && x == (i >> 4) << 12 && i & 0xf == j
    ensures x ^ (j << 8) == i << 8
  {
  }

  lemma ColumnAt(j: bv16, x: bv16)
    requires j < 16
    ensures j as int < 16 && EightRow(x)[j as int] == Eight(x ^ (j << 8))
  {
    hide Eight;
    match j as int
    case 0 => assert j << 8 == 0x0000;
    case 1 => assert j << 8 == 0x0100;
    case 2 => assert j << 8 == 0x0200;
    case 3 => assert j << 8 == 0x0300;
    case 4 => assert j << 8 == 0x0400;
    case 5 => assert j << 8 == 0x0500;
    case 6 => assert j << 8 == 0x0600;
    case 7 => assert j << 8 == 0x0700;
    case 8 => assert j << 8 == 0x0800;
    case 9 => assert j << 8 == 0x0900;
    case 10 => assert j << 8 == 0x0a00;
    case 11 => assert j << 8 == 0x0b00;
    case 12 => assert j << 8 == 0x0c00;
    case 13 => assert j << 8 == 0x0d00;
    case 14 => assert j << 8 == 0x0e00;
    case _ => assert j << 8 == 0x0f00;
  }

  /** Each of the 256 entries is eight steps of the register on its index. */
  lemma EntryIsEight(i: bv16)
    requires i < 0x100
    ensures Lookup(i) == Eight(i << 8)
  {
    hide Eight, EightRow, TABLE;
    RowAt(i);
    ColumnAt(i & 0xf, (i >> 4) << 12);
    ColumnXor(i, (i >> 4) << 12, i & 0xf);
  }

  lemma CancelPoly(x: bv16, y: bv16)
    ensures Xor(Xor(x, POLY), Xor(y, POLY)) == Xor(x, y)
  {
  }

  lemma MovePoly(x: bv16, y: bv16)
    ensures Xor(Xor(x, POLY), y) == Xor(Xor(x, y), POLY)
  {
  }

  lemma XorCommutes(x: bv16, y: bv16)
    ensures Xor(x, y) == Xor(y, x)
  {
  }

  lemma ShiftLinear(x: bv16, y: bv16)
    ensures Shift(Xor(x, y)) == Xor(Shift(x), Shift(y))
  {
    hide Xor, Shl, Top, TABLE;
    XorTop(x, y);
    XorShl(x, y);
    CancelPoly(Shl(x), Shl(y));
    MovePoly(Shl(x), Shl(y));
    MovePoly(Shl(y), Shl(x));
    XorCommutes(Shl(x), Shl(y));
    XorCommutes(Shl(x), Xor(Shl(y), POLY));
  }

  lemma EightLinear(x: bv16, y: bv16)
    ensures Eight(Xor(x, y)) == Xor(Eight(x), Eight(y))
  {
    FourLinear(x, y);
    FourLinear(Four(x), Four(y));
  }

  function Four(x: bv16): bv16 {
    Shift(Shift(Shift(Shift(x))))
  }

  lemma FourLinear(x: bv16, y: bv16)
    ensures Four(Xor(x, y)) == Xor(Four(x), Four(y))
  {
    hide Xor, Shift, TABLE;
    ShiftLinear(x, y);
    ShiftLinear(Shift(x), Shift(y));
    ShiftLinear(Shift(Shift(x)), Shift(Shift(y)));
    ShiftLinear(Shift(Shift(Shift(x))), Shift(Shift(Shift(y))));
  }

  /** The table index for a message byte. */
  function Index(crc: bv16, w: bv16): bv16 {
    (crc >> 8) ^ w
  }

  lemma IndexInTable(crc: bv16, b: bv8)
    ensures Index(crc, Word(b)) < 0x100
  {
  }

  lemma SplitRegister(crc: bv16, w: bv16)
    ensures Xor(crc, Up8(w)) == Xor(LowHalf(crc), Up8(Index(crc, w)))
  {
  }

  lemma EntryIsEightUp(i: bv16)
    requires i < 0x100
    ensures Lookup(i) == Eight(Up8(i))
  {
    hide Eight, Lookup;
    EntryIsEight(i);
  }

  /** One step of the table form is one byte of the bit-serial register. */
  lemma TableStep(crc: bv16, b: bv8)
    ensures Index(crc, Word(b)) < 0x100
    ensures Xor(Up8(crc), Lookup(Index(crc, Word(b)))) == Feed(crc, ByteBits(b))
  {
    IndexInTable(crc, b);
    hide Xor, Eight, Lookup, Index, Word, Up8, LowHalf, ByteBits, Feed, TABLE;
    var i := Index(crc, Word(b));
    SplitRegister(crc, Word(b));
    EightLinear(LowHalf(crc), Up8(i));
    EightOfLow(crc);
    EntryIsEightUp(i);
    FeedByte(crc, b);
  }

  /** The table form of `Crc16CalcBlock`: it computes the same register as the loop form, for every
      message and every initial value. */
  method Crc16CalcBlock(msg: seq<bv8>, init: bv16) returns (crc: bv16)
    ensures crc == Feed(init, Bits(msg))
  {
    hide ByteBits, StepBit, Xor, Up8, Index, Word, Lookup, TABLE;
    crc := init;
    var n := 0;
    while n < |msg|
      invariant 0 <= n <= |msg|
      invariant Feed(crc, Bits(msg[n..])) == Feed(init, Bits(msg))
    {
      assert msg[n..][1..] == msg[n + 1..];
      FeedConcat(crc, ByteBits(msg[n]), Bits(msg[n + 1..]));
      TableStep(crc, msg[n]);
      crc := Xor(Up8(crc), Lookup(Index(crc, Word(msg[n]))));
      n := n + 1;
    }
  }
}
