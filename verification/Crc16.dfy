/** The checksum that assigns keys to slots: the table-driven loop of `ChannelPool::crc16` against the bit-by-bit
    checksum of Appendix A of the Redis Cluster specification (CRC-16/XMODEM: polynomial 0x1021, initial value 0, most
    significant bit first, nothing reflected). */
module Crc16 {

  // ------------------------------------------------------------------ the specification

  /** Polynomials over GF(2) of degree below 16, as bit words: their sum. */
  function Plus(a: bv16, b: bv16): bv16 {
    a ^ b
  }

  /** A polynomial of degree below 15 times x. */
  function Twice(a: bv16): bv16 {
    a << 1
  }

  /** A byte in the high half of a word. */
  function High(b: bv8): bv16 {
    b as bv16 << 8
  }

  /** One bit of the checksum: shift the register, and add the polynomial as often as the bit shifted out says, once
      or not at all. */
  function ShiftOut(crc: bv16): bv16 {
    (crc << 1) ^ ((crc >> 15) * 0x1021)
  }

  function ShiftOut4(crc: bv16): bv16 {
    ShiftOut(ShiftOut(ShiftOut(ShiftOut(crc))))
  }

  function ShiftOut8(crc: bv16): bv16 {
    ShiftOut4(ShiftOut4(crc))
  }

  /** One byte: add it into the high half of the register and shift eight bits out. */
  function AddByte(crc: bv16, b: bv8): bv16 {
    ShiftOut8(Plus(crc, High(b)))
  }

  /** The checksum of a byte string. */
  function Checksum(bytes: seq<bv8>): bv16 {
    if bytes == [] then 0 else AddByte(Checksum(bytes[..|bytes| - 1]), bytes[|bytes| - 1])
  }

  lemma NothingOut(crc: bv16)
    requires crc < 0x8000
    ensures ShiftOut(crc) == crc << 1
  {
  }

  lemma OneOut(crc: bv16)
    requires crc >= 0x8000
    ensures ShiftOut(crc) == (crc << 1) ^ 0x1021
  {
  }

  /** The same in the words of the textbooks. */
  lemma ShiftOutIsConditional(crc: bv16)
    ensures ShiftOut(crc) == if crc >= 0x8000 then (crc << 1) ^ 0x1021 else crc << 1
  {
    if crc >= 0x8000 {
      OneOut(crc);
    } else {
      NothingOut(crc);
    }
  }

  lemma Append(s: seq<bv8>, b: bv8, crc: bv16) returns (t: seq<bv8>)
    requires Checksum(s) == crc
    ensures t == s + [b] && Checksum(t) == AddByte(crc, b)
  {
    t := s + [b];
    assert t[..|s|] == s;
  }

  /** The check value that Appendix A gives for the string "123456789". */
  lemma CheckValue()
    ensures Checksum([0x31, 0x32, 0x33, 0x34, 0x35, 0x36, 0x37, 0x38, 0x39]) == 0x31C3
  {
    var s := [];
    s := Append(s, 0x31, 0x0000);
    s := Append(s, 0x32, 0x2672);
    s := Append(s, 0x33, 0x20B5);
    s := Append(s, 0x34, 0x9752);
    s := Append(s, 0x35, 0xD789);
    s := Append(s, 0x36, 0x546C);
    s := Append(s, 0x37, 0x20E4);
    s := Append(s, 0x38, 0x86D6);
    s := Append(s, 0x39, 0x9015);
    assert s == [0x31, 0x32, 0x33, 0x34, 0x35, 0x36, 0x37, 0x38, 0x39];
  }

  // ------------------------------------------------------------------ the code

  function Pick(k: bv8, a0: bv16, a1: bv16, a2: bv16, a3: bv16, a4: bv16, a5: bv16, a6: bv16, a7: bv16,
                a8: bv16, a9: bv16, a10: bv16, a11: bv16, a12: bv16, a13: bv16, a14: bv16, a15: bv16): bv16
  {
    match k
    case 0 => a0 case 1 => a1 case 2 => a2 case 3 => a3
    case 4 => a4 case 5 => a5 case 6 => a6 case 7 => a7
    case 8 => a8 case 9 => a9 case 10 => a10 case 11 => a11
    case 12 => a12 case 13 => a13 case 14 => a14 case _ => a15
  }

  /** `crc16tab`, in rows of sixteen. */
  function Crc16Tab(i: bv8): bv16 {
    var lo := i & 0x0F;
    match i >> 4
    case 0x0 => Pick(lo, 0x0000, 0x1021, 0x2042, 0x3063, 0x4084, 0x50a5, 0x60c6, 0x70e7,
                   0x8108, 0x9129, 0xa14a, 0xb16b, 0xc18c, 0xd1ad, 0xe1ce, 0xf1ef)
    case 0x1 => Pick(lo, 0x1231, 0x0210, 0x3273, 0x2252, 0x52b5, 0x4294, 0x72f7, 0x62d6,
                   0x9339, 0x8318, 0xb37b, 0xa35a, 0xd3bd, 0xc39c, 0xf3ff, 0xe3de)
    case 0x2 => Pick(lo, 0x2462, 0x3443, 0x0420, 0x1401, 0x64e6, 0x74c7, 0x44a4, 0x5485,
                   0xa56a, 0xb54b, 0x8528, 0x9509, 0xe5ee, 0xf5cf, 0xc5ac, 0xd58d)
    case 0x3 => Pick(lo, 0x3653, 0x2672, 0x1611, 0x0630, 0x76d7, 0x66f6, 0x5695, 0x46b4,
                   0xb75b, 0xa77a, 0x9719, 0x8738, 0xf7df, 0xe7fe, 0xd79d, 0xc7bc)
    case 0x4 => Pick(lo, 0x48c4, 0x58e5, 0x6886, 0x78a7, 0x0840, 0x1861, 0x2802, 0x3823,
                   0xc9cc, 0xd9ed, 0xe98e, 0xf9af, 0x8948, 0x9969, 0xa90a, 0xb92b)
    case 0x5 => Pick(lo, 0x5af5, 0x4ad4, 0x7ab7, 0x6a96, 0x1a71, 0x0a50, 0x3a33, 0x2a12,
                   0xdbfd, 0xcbdc, 0xfbbf, 0xeb9e, 0x9b79, 0x8b58, 0xbb3b, 0xab1a)
    case 0x6 => Pick(lo, 0x6ca6, 0x7c87, 0x4ce4, 0x5cc5, 0x2c22, 0x3c03, 0x0c60, 0x1c41,
                   0xedae, 0xfd8f, 0xcdec, 0xddcd, 0xad2a, 0xbd0b, 0x8d68, 0x9d49)
    case 0x7 => Pick(lo, 0x7e97, 0x6eb6, 0x5ed5, 0x4ef4, 0x3e13, 0x2e32, 0x1e51, 0x0e70,
                   0xff9f, 0xefbe, 0xdfdd, 0xcffc, 0xbf1b, 0xaf3a, 0x9f59, 0x8f78)
    case 0x8 => Pick(lo, 0x9188, 0x81a9, 0xb1ca, 0xa1eb, 0xd10c, 0xc12d, 0xf14e, 0xe16f,
                   0x1080, 0x00a1, 0x30c2, 0x20e3, 0x5004, 0x4025, 0x7046, 0x6067)
    case 0x9 => Pick(lo, 0x83b9, 0x9398, 0xa3fb, 0xb3da, 0xc33d, 0xd31c, 0xe37f, 0xf35e,
                   0x02b1, 0x1290, 0x22f3, 0x32d2, 0x4235, 0x5214, 0x6277, 0x7256)
    case 0xA => Pick(lo, 0xb5ea, 0xa5cb, 0x95a8, 0x8589, 0xf56e, 0xe54f, 0xd52c, 0xc50d,
                   0x34e2, 0x24c3, 0x14a0, 0x0481, 0x7466, 0x6447, 0x5424, 0x4405)
    case 0xB => Pick(lo, 0xa7db, 0xb7fa, 0x8799, 0x97b8, 0xe75f, 0xf77e, 0xc71d, 0xd73c,
                   0x26d3, 0x36f2, 0x0691, 0x16b0, 0x6657, 0x7676, 0x4615, 0x5634)
    case 0xC => Pick(lo, 0xd94c, 0xc96d, 0xf90e, 0xe92f, 0x99c8, 0x89e9, 0xb98a, 0xa9ab,
                   0x5844, 0x4865, 0x7806, 0x6827, 0x18c0, 0x08e1, 0x3882, 0x28a3)
    case 0xD => Pick(lo, 0xcb7d, 0xdb5c, 0xeb3f, 0xfb1e, 0x8bf9, 0x9bd8, 0xabbb, 0xbb9a,
                   0x4a75, 0x5a54, 0x6a37, 0x7a16, 0x0af1, 0x1ad0, 0x2ab3, 0x3a92)
    case 0xE => Pick(lo, 0xfd2e, 0xed0f, 0xdd6c, 0xcd4d, 0xbdaa, 0xad8b, 0x9de8, 0x8dc9,
                   0x7c26, 0x6c07, 0x5c64, 0x4c45, 0x3ca2, 0x2c83, 0x1ce0, 0x0cc1)
    case _ => Pick(lo, 0xef1f, 0xff3e, 0xcf5d, 0xdf7c, 0xaf9b, 0xbfba, 0x8fd9, 0x9ff8,
                   0x6e17, 0x7e36, 0x4e55, 0x5e74, 0x2e93, 0x3eb2, 0x0ed1, 0x1ef0)
  }

  /** The byte as the code sees it: a `char`, sign-extended to an `int` by the exclusive or. */
  function SignExtended(b: bv8): bv32 {
    if b & 0x80 != 0 then 0xFFFF_FF00 | (b as bv32) else b as bv32
  }

  /** `((crc>>8) ^ *buf++)&0x00FF`, computed as an `int`. */
  function TableIndex(crc: bv16, b: bv8): bv32 {
    ((crc as bv32 >> 8) ^ SignExtended(b)) & 0x00FF
  }

  function Index(crc: bv16, b: bv8): bv8 {
    IndexInTable(crc, b);
    TableIndex(crc, b) as bv8
  }

  lemma IndexInTable(crc: bv16, b: bv8)
    ensures TableIndex(crc, b) < 0x100
  {
  }

  /** `(crc<<8) ^ entry`, computed as an `int` and cut to 16 bits by the assignment. */
  function Combined(crc: bv16, entry: bv16): bv16 {
    (((crc as bv32 << 8) ^ (entry as bv32)) & 0xFFFF) as bv16
  }

  method Crc16(buf: seq<bv8>) returns (crc: bv16)
    ensures crc == Checksum(buf)
  {
    crc := 0;
    for counter := 0 to |buf|
      invariant crc == Checksum(buf[..counter])
    {
      assert buf[..counter + 1][..counter] == buf[..counter];
      TableStep(crc, buf[counter]);
      crc := Combined(crc, Crc16Tab(Index(crc, buf[counter])));
    }
    assert buf[..|buf|] == buf;
  }

  // ------------------------------------------------------------------ why they agree

  /** What eight shifts make of a byte in the high half, in closed form. */
  function Remainder(i: bv8): bv16 {
    var x := (i as bv16) ^ (i as bv16 >> 4);
    (x << 12) ^ (x << 5) ^ x
  }

  lemma TableIsRemainder(i: bv8)
    ensures Crc16Tab(i) == Remainder(i)
  {
    match i >> 4 {
      case 0 => case 1 => case 2 => case 3 => case 4 => case 5 => case 6 => case 7 =>
      case 8 => case 9 => case 10 => case 11 => case 12 => case 13 => case 14 => case _ =>
    }
  }

  lemma ShiftsAreRemainder(i: bv8)
    ensures ShiftOut8(High(i)) == Remainder(i)
  {
  }

  lemma PlusIsXor(a: bv16, b: bv16)
    ensures Plus(a, b) == a ^ b
  {
  }

  lemma LowPassesRaw(x: bv16, y: bv16)
    requires y < 0x8000
    ensures ShiftOut(x ^ y) == ShiftOut(x) ^ Twice(y)
  {
  }

  /** Bits that are not shifted out pass through. */
  lemma LowPasses(x: bv16, y: bv16)
    requires y < 0x8000
    ensures ShiftOut(Plus(x, y)) == Plus(ShiftOut(x), Twice(y))
  {
    LowPassesRaw(x, y);
    PlusIsXor(x, y);
    PlusIsXor(ShiftOut(x), Twice(y));
  }

  function Times16(y: bv16): bv16 {
    Twice(Twice(Twice(Twice(y))))
  }

  lemma LowPasses4(x: bv16, y: bv16)
    requires y < 0x1000
    ensures ShiftOut4(Plus(x, y)) == Plus(ShiftOut4(x), Times16(y))
  {
    var y1 := Twice(y);
    var y2 := Twice(y1);
    var y3 := Twice(y2);
    assert y1 < 0x2000 && y2 < 0x4000 && y3 < 0x8000;
    LowPasses(x, y);
    LowPasses(ShiftOut(x), y1);
    LowPasses(ShiftOut(ShiftOut(x)), y2);
    LowPasses(ShiftOut(ShiftOut(ShiftOut(x))), y3);
  }

  lemma LowPasses8(x: bv16, y: bv16)
    requires y < 0x0100
    ensures ShiftOut8(Plus(x, y)) == Plus(ShiftOut8(x), Times16(Times16(y)))
  {
    Small(y);
    LowPasses4(x, y);
    LowPasses4(ShiftOut4(x), Times16(y));
  }

  lemma Small(y: bv16)
    requires y < 0x0100
    ensures Times16(y) < 0x1000
  {
  }

  function LowByte(crc: bv16): bv16 {
    crc & 0xFF
  }

  /** The sign extension does not reach the index: it is the exclusive or of the byte and the register's high byte. */
  lemma IndexIsByte(crc: bv16, b: bv8)
    ensures TableIndex(crc, b) == (crc >> 8) as bv32 ^ b as bv32
  {
  }

  lemma IndexRaw(crc: bv16, b: bv8)
    ensures Index(crc, b) == ((crc >> 8) as bv8) ^ b
  {
    IndexIsByte(crc, b);
  }

  lemma HalvesRaw(crc: bv16, b: bv8)
    ensures crc ^ (b as bv16 << 8) == ((((crc >> 8) as bv8) ^ b) as bv16 << 8) ^ (crc & 0xFF)
    ensures crc & 0xFF < 0x100
  {
  }

  lemma Halves(crc: bv16, b: bv8)
    ensures Plus(crc, High(b)) == Plus(High(Index(crc, b)), LowByte(crc))
    ensures LowByte(crc) < 0x100
  {
    IndexRaw(crc, b);
    HalvesRaw(crc, b);
    PlusIsXor(crc, High(b));
    PlusIsXor(High(Index(crc, b)), LowByte(crc));
  }

  lemma CombinedIsSum(crc: bv16, t: bv16)
    ensures Combined(crc, t) == Plus(t, Times16(Times16(LowByte(crc))))
  {
  }

  /** Table look-up and truncation together do what adding the byte bit by bit does. */
  lemma TableStep(crc: bv16, b: bv8)
    ensures Combined(crc, Crc16Tab(Index(crc, b))) == AddByte(crc, b)
  {
    Halves(crc, b);
    LowPasses8(High(Index(crc, b)), LowByte(crc));
    TableIsRemainder(Index(crc, b));
    ShiftsAreRemainder(Index(crc, b));
    CombinedIsSum(crc, Crc16Tab(Index(crc, b)));
  }
}
