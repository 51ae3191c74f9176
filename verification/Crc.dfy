/**
 The four CRC routines: the bit-by-bit link CRC of the Pico, its nibble-table twin in the
 firmware, and the two 256-entry table CRCs of the printer bus.
 */
module Crc {
  import opened Bytes

  // ----- 16-bit register, polynomial 0x1021 -----

  function Shift16(c: bv16): bv16 {
    if c & 0x8000 != 0 then (c << 1) ^ 0x1021 else c << 1
  }

  function Rounds4(c: bv16): bv16 { Shift16(Shift16(Shift16(Shift16(c)))) }

  function Rounds8(c: bv16): bv16 { Rounds4(Rounds4(c)) }

  function Word(b: bv8): bv16 { b as bv16 }

  /** XOR a byte into the top of the register. */
  function Mix(c: bv16, w: bv16): bv16 { c ^ (w << 8) }

  function Step16(c: bv16, b: bv8): bv16 { Rounds8(Mix(c, Word(b))) }

  /** The register after clocking in `data` from `init`: the reference definition. */
  function Crc16(init: bv16, data: seq<bv8>): bv16
    decreases data
  {
    if data == [] then init else Crc16(Step16(init, data[0]), data[1..])
  }

  // ----- 8-bit register, polynomial 0x39 -----

  function Shift8(c: bv8): bv8 {
    if c & 0x80 != 0 then (c << 1) ^ 0x39 else c << 1
  }

  function Rounds8of8(c: bv8): bv8 {
    Shift8(Shift8(Shift8(Shift8(Shift8(Shift8(Shift8(Shift8(c))))))))
  }

  function Mix8(c: bv8, b: bv8): bv8 { c ^ b }

  function Step8(c: bv8, b: bv8): bv8 { Rounds8of8(Mix8(c, b)) }

  function Crc8(init: bv8, data: seq<bv8>): bv8
    decreases data
  {
    if data == [] then init else Crc8(Step8(init, data[0]), data[1..])
  }

  const LINK_INIT: bv16 := 0xFFFF
  const BUS_INIT16: bv16 := 0x913D
  const BUS_INIT8: bv8 := 0x66

  function Octets(data: seq<byte>): (s: seq<bv8>)
    ensures |s| == |data|
  {
    seq(|data|, i requires 0 <= i < |data| => data[i] as bv8)
  }

  /** The link CRC as the integer the decoder compares with the two trailing bytes. */
  function LinkCrc(data: seq<byte>): (n: nat)
    ensures n < MASK16
  {
    Crc16(LINK_INIT, Octets(data)) as int
  }

  /** The printer bus header CRC as the byte value it is compared with. */
  function HeaderCrc(header: seq<byte>): byte {
    Crc8(BUS_INIT8, Octets(header)) as int
  }

  // ----- The literal tables -----

  const NIBBLE_TABLE: seq<bv16> :=
    [0x0000, 0x1021, 0x2042, 0x3063, 0x4084, 0x50A5, 0x60C6, 0x70E7,
     0x8108, 0x9129, 0xA14A, 0xB16B, 0xC18C, 0xD1AD, 0xE1CE, 0xF1EF]

  // The bus CRC8 table, 64 entries (four rows of 16) to a function.

  function Bus8Quarter0(h: bv8): (rows: seq<bv8>)
    ensures |rows| == 16
  {
    if h == 0 then
      [0x00, 0x39, 0x72, 0x4B, 0xE4, 0xDD, 0x96, 0xAF, 0xF1, 0xC8, 0x83, 0xBA, 0x15, 0x2C, 0x67, 0x5E]
    else if h == 1 then
      [0xDB, 0xE2, 0xA9, 0x90, 0x3F, 0x06, 0x4D, 0x74, 0x2A, 0x13, 0x58, 0x61, 0xCE, 0xF7, 0xBC, 0x85]
    else if h == 2 then
      [0x8F, 0xB6, 0xFD, 0xC4, 0x6B, 0x52, 0x19, 0x20, 0x7E, 0x47, 0x0C, 0x35, 0x9A, 0xA3, 0xE8, 0xD1]
    else
      [0x54, 0x6D, 0x26, 0x1F, 0xB0, 0x89, 0xC2, 0xFB, 0xA5, 0x9C, 0xD7, 0xEE, 0x41, 0x78, 0x33, 0x0A]
  }

  function Bus8Quarter1(h: bv8): (rows: seq<bv8>)
    ensures |rows| == 16
  {
    if h == 4 then
      [0x27, 0x1E, 0x55, 0x6C, 0xC3, 0xFA, 0xB1, 0x88, 0xD6, 0xEF, 0xA4, 0x9D, 0x32, 0x0B, 0x40, 0x79]
    else if h == 5 then
      [0xFC, 0xC5, 0x8E, 0xB7, 0x18, 0x21, 0x6A, 0x53, 0x0D, 0x34, 0x7F, 0x46, 0xE9, 0xD0, 0x9B, 0xA2]
    else if h == 6 then
      [0xA8, 0x91, 0xDA, 0xE3, 0x4C, 0x75, 0x3E, 0x07, 0x59, 0x60, 0x2B, 0x12, 0xBD, 0x84, 0xCF, 0xF6]
    else
      [0x73, 0x4A, 0x01, 0x38, 0x97, 0xAE, 0xE5, 0xDC, 0x82, 0xBB, 0xF0, 0xC9, 0x66, 0x5F, 0x14, 0x2D]
  }

  function Bus8Quarter2(h: bv8): (rows: seq<bv8>)
    ensures |rows| == 16
  {
    if h == 8 then
      [0x4E, 0x77, 0x3C, 0x05, 0xAA, 0x93, 0xD8, 0xE1, 0xBF, 0x86, 0xCD, 0xF4, 0x5B, 0x62, 0x29, 0x10]
    else if h == 9 then
      [0x95, 0xAC, 0xE7, 0xDE, 0x71, 0x48, 0x03, 0x3A, 0x64, 0x5D, 0x16, 0x2F, 0x80, 0xB9, 0xF2, 0xCB]
    else if h == 10 then
      [0xC1, 0xF8, 0xB3, 0x8A, 0x25, 0x1C, 0x57, 0x6E, 0x30, 0x09, 0x42, 0x7B, 0xD4, 0xED, 0xA6, 0x9F]
    else
      [0x1A, 0x23, 0x68, 0x51, 0xFE, 0xC7, 0x8C, 0xB5, 0xEB, 0xD2, 0x99, 0xA0, 0x0F, 0x36, 0x7D, 0x44]
  }

  function Bus8Quarter3(h: bv8): (rows: seq<bv8>)
    ensures |rows| == 16
  {
    if h == 12 then
      [0x69, 0x50, 0x1B, 0x22, 0x8D, 0xB4, 0xFF, 0xC6, 0x98, 0xA1, 0xEA, 0xD3, 0x7C, 0x45, 0x0E, 0x37]
    else if h == 13 then
      [0xB2, 0x8B, 0xC0, 0xF9, 0x56, 0x6F, 0x24, 0x1D, 0x43, 0x7A, 0x31, 0x08, 0xA7, 0x9E, 0xD5, 0xEC]
    else if h == 14 then
      [0xE6, 0xDF, 0x94, 0xAD, 0x02, 0x3B, 0x70, 0x49, 0x17, 0x2E, 0x65, 0x5C, 0xF3, 0xCA, 0x81, 0xB8]
    else
      [0x3D, 0x04, 0x4F, 0x76, 0xD9, 0xE0, 0xAB, 0x92, 0xCC, 0xF5, 0xBE, 0x87, 0x28, 0x11, 0x5A, 0x63]
  }

  /** Row h: entries 16*h .. 16*h+15. */
  function BusRow8(h: bv8): (row: seq<bv8>)
    ensures |row| == 16
  {
    if h < 4 then Bus8Quarter0(h) else if h < 8 then Bus8Quarter1(h)
    else if h < 12 then Bus8Quarter2(h) else Bus8Quarter3(h)
  }

  // The bus CRC16 table, 64 entries (four rows of 16) to a function.

  function Bus16Quarter0(h: bv8): (rows: seq<bv16>)
    ensures |rows| == 16
  {
    if h == 0 then
      [0x0000, 0x1021, 0x2042, 0x3063, 0x4084, 0x50A5, 0x60C6, 0x70E7,
       0x8108, 0x9129, 0xA14A, 0xB16B, 0xC18C, 0xD1AD, 0xE1CE, 0xF1EF]
    else if h == 1 then
      [0x1231, 0x0210, 0x3273, 0x2252, 0x52B5, 0x4294, 0x72F7, 0x62D6,
       0x9339, 0x8318, 0xB37B, 0xA35A, 0xD3BD, 0xC39C, 0xF3FF, 0xE3DE]
    else if h == 2 then
      [0x2462, 0x3443, 0x0420, 0x1401, 0x64E6, 0x74C7, 0x44A4, 0x5485,
       0xA56A, 0xB54B, 0x8528, 0x9509, 0xE5EE, 0xF5CF, 0xC5AC, 0xD58D]
    else
      [0x3653, 0x2672, 0x1611, 0x0630, 0x76D7, 0x66F6, 0x5695, 0x46B4,
       0xB75B, 0xA77A, 0x9719, 0x8738, 0xF7DF, 0xE7FE, 0xD79D, 0xC7BC]
  }

  function Bus16Quarter1(h: bv8): (rows: seq<bv16>)
    ensures |rows| == 16
  {
    if h == 4 then
      [0x48C4, 0x58E5, 0x6886, 0x78A7, 0x0840, 0x1861, 0x2802, 0x3823,
       0xC9CC, 0xD9ED, 0xE98E, 0xF9AF, 0x8948, 0x9969, 0xA90A, 0xB92B]
    else if h == 5 then
      [0x5AF5, 0x4AD4, 0x7AB7, 0x6A96, 0x1A71, 0x0A50, 0x3A33, 0x2A12,
       0xDBFD, 0xCBDC, 0xFBBF, 0xEB9E, 0x9B79, 0x8B58, 0xBB3B, 0xAB1A]
    else if h == 6 then
      [0x6CA6, 0x7C87, 0x4CE4, 0x5CC5, 0x2C22, 0x3C03, 0x0C60, 0x1C41,
       0xEDAE, 0xFD8F, 0xCDEC, 0xDDCD, 0xAD2A, 0xBD0B, 0x8D68, 0x9D49]
    else
      [0x7E97, 0x6EB6, 0x5ED5, 0x4EF4, 0x3E13, 0x2E32, 0x1E51, 0x0E70,
       0xFF9F, 0xEFBE, 0xDFDD, 0xCFFC, 0xBF1B, 0xAF3A, 0x9F59, 0x8F78]
  }

  function Bus16Quarter2(h: bv8): (rows: seq<bv16>)
    ensures |rows| == 16
  {
    if h == 8 then
      [0x9188, 0x81A9, 0xB1CA, 0xA1EB, 0xD10C, 0xC12D, 0xF14E, 0xE16F,
       0x1080, 0x00A1, 0x30C2, 0x20E3, 0x5004, 0x4025, 0x7046, 0x6067]
    else if h == 9 then
      [0x83B9, 0x9398, 0xA3FB, 0xB3DA, 0xC33D, 0xD31C, 0xE37F, 0xF35E,
       0x02B1, 0x1290, 0x22F3, 0x32D2, 0x4235, 0x5214, 0x6277, 0x7256]
    else if h == 10 then
      [0xB5EA, 0xA5CB, 0x95A8, 0x8589, 0xF56E, 0xE54F, 0xD52C, 0xC50D,
       0x34E2, 0x24C3, 0x14A0, 0x0481, 0x7466, 0x6447, 0x5424, 0x4405]
    else
      [0xA7DB, 0xB7FA, 0x8799, 0x97B8, 0xE75F, 0xF77E, 0xC71D, 0xD73C,
       0x26D3, 0x36F2, 0x0691, 0x16B0, 0x6657, 0x7676, 0x4615, 0x5634]
  }

  function Bus16Quarter3(h: bv8): (rows: seq<bv16>)
    ensures |rows| == 16
  {
    if h == 12 then
      [0xD94C, 0xC96D, 0xF90E, 0xE92F, 0x99C8, 0x89E9, 0xB98A, 0xA9AB,
       0x5844, 0x4865, 0x7806, 0x6827, 0x18C0, 0x08E1, 0x3882, 0x28A3]
    else if h == 13 then
      [0xCB7D, 0xDB5C, 0xEB3F, 0xFB1E, 0x8BF9, 0x9BD8, 0xABBB, 0xBB9A,
       0x4A75, 0x5A54, 0x6A37, 0x7A16, 0x0AF1, 0x1AD0, 0x2AB3, 0x3A92]
    else if h == 14 then
      [0xFD2E, 0xED0F, 0xDD6C, 0xCD4D, 0xBDAA, 0xAD8B, 0x9DE8, 0x8DC9,
       0x7C26, 0x6C07, 0x5C64, 0x4C45, 0x3CA2, 0x2C83, 0x1CE0, 0x0CC1]
    else
      [0xEF1F, 0xFF3E, 0xCF5D, 0xDF7C, 0xAF9B, 0xBFBA, 0x8FD9, 0x9FF8,
       0x6E17, 0x7E36, 0x4E55, 0x5E74, 0x2E93, 0x3EB2, 0x0ED1, 0x1EF0]
  }

  /** Row h: entries 16*h .. 16*h+15. */
  function BusRow16(h: bv8): (row: seq<bv16>)
    ensures |row| == 16
  {
    if h < 4 then Bus16Quarter0(h) else if h < 8 then Bus16Quarter1(h)
    else if h < 12 then Bus16Quarter2(h) else Bus16Quarter3(h)
  }

  lemma LowNibble(b: bv8)
    ensures 0 <= (b & 15) as int < 16
  {
    var i := b & 15;
    assert i < 16;
  }

  function BusTable8(b: bv8): bv8 {
    LowNibble(b);
    BusRow8(b >> 4)[(b & 15) as int]
  }

  function BusTable16(b: bv8): bv16 {
    LowNibble(b);
    BusRow16(b >> 4)[(b & 15) as int]
  }

  // ----- Each table entry is eight bit rounds of its index -----

  lemma NibbleEntry(c: bv16)
    ensures 0 <= (c >> 12) as int < 16
    ensures (c << 4) ^ NIBBLE_TABLE[(c >> 12) as int] == Rounds4(c)
  {
    var i := c >> 12;
    assert i < 16;
  }

  lemma Bus8Entries0(b: bv8)
    requires b >> 4 < 4
    ensures 0 <= (b & 15) as int < 16
    ensures Bus8Quarter0(b >> 4)[(b & 15) as int] == Rounds8of8(b)
  {
    var i := b & 15;
    assert i < 16;
  }

  lemma Bus8Entries1(b: bv8)
    requires 4 <= b >> 4 < 8
    ensures 0 <= (b & 15) as int < 16
    ensures Bus8Quarter1(b >> 4)[(b & 15) as int] == Rounds8of8(b)
  {
    var i := b & 15;
    assert i < 16;
  }

  lemma Bus8Entries2(b: bv8)
    requires 8 <= b >> 4 < 12
    ensures 0 <= (b & 15) as int < 16
    ensures Bus8Quarter2(b >> 4)[(b & 15) as int] == Rounds8of8(b)
  {
    var i := b & 15;
    assert i < 16;
  }

  lemma Bus8Entries3(b: bv8)
    requires 12 <= b >> 4 < 16
    ensures 0 <= (b & 15) as int < 16
    ensures Bus8Quarter3(b >> 4)[(b & 15) as int] == Rounds8of8(b)
  {
    var i := b & 15;
    assert i < 16;
  }

  lemma BusEntry8(b: bv8)
    ensures BusTable8(b) == Rounds8of8(b)
  {
    var h := b >> 4;
    assert h < 16;
    if h < 4 {
      Bus8Entries0(b);
    } else if h < 8 {
      Bus8Entries1(b);
    } else if h < 12 {
      Bus8Entries2(b);
    } else {
      Bus8Entries3(b);
    }
  }

  lemma Bus16Entries0(b: bv8)
    requires b >> 4 < 4
    ensures 0 <= (b & 15) as int < 16
    ensures Bus16Quarter0(b >> 4)[(b & 15) as int] == Rounds8((b as bv16) << 8)
  {
    var i := b & 15;
    assert i < 16;
  }

  lemma Bus16Entries1(b: bv8)
    requires 4 <= b >> 4 < 8
    ensures 0 <= (b & 15) as int < 16
    ensures Bus16Quarter1(b >> 4)[(b & 15) as int] == Rounds8((b as bv16) << 8)
  {
    var i := b & 15;
    assert i < 16;
  }

  lemma Bus16Entries2(b: bv8)
    requires 8 <= b >> 4 < 12
    ensures 0 <= (b & 15) as int < 16
    ensures Bus16Quarter2(b >> 4)[(b & 15) as int] == Rounds8((b as bv16) << 8)
  {
    var i := b & 15;
    assert i < 16;
  }

  lemma Bus16Entries3(b: bv8)
    requires 12 <= b >> 4 < 16
    ensures 0 <= (b & 15) as int < 16
    ensures Bus16Quarter3(b >> 4)[(b & 15) as int] == Rounds8((b as bv16) << 8)
  {
    var i := b & 15;
    assert i < 16;
  }

  lemma BusEntry16(b: bv8)
    ensures BusTable16(b) == Rounds8((b as bv16) << 8)
  {
    var h := b >> 4;
    assert h < 16;
    if h < 4 {
      Bus16Entries0(b);
    } else if h < 8 {
      Bus16Entries1(b);
    } else if h < 12 {
      Bus16Entries2(b);
    } else {
      Bus16Entries3(b);
    }
  }

  // ----- The four implementations refine the reference fold -----

  /** n single-bit shifts. */
  function Shifts(c: bv16, n: nat): bv16
    decreases n
  {
    if n == 0 then c else Shift16(Shifts(c, n - 1))
  }

  lemma EightShifts(c: bv16)
    ensures Shifts(c, 8) == Rounds8(c)
  {
    assert Shifts(c, 4) == Rounds4(c) by {
      assert Shifts(c, 2) == Shift16(Shift16(c));
    }
    assert Shifts(c, 6) == Shift16(Shift16(Shifts(c, 4)));
  }

  /** The inner loop of `crc16_ccitt_false`. */
  method BitRounds(mixed: bv16) returns (crc: bv16)
    ensures crc == Rounds8(mixed)
  {
    hide Shift16;
    crc := mixed;
    for bit := 0 to 8
      invariant crc == Shifts(mixed, bit)
    {
      crc := Shift16(crc);
    }
    EightShifts(mixed);
  }

  /** The Pico's `crc16_ccitt_false`: one bit at a time. */
  method CcittFalse(data: seq<bv8>) returns (crc: bv16)
    ensures crc == Crc16(LINK_INIT, data)
  {
    crc := LINK_INIT;
    for i := 0 to |data|
      invariant Crc16(crc, data[i..]) == Crc16(LINK_INIT, data)
    {
      crc := BitRounds(Mix(crc, Word(data[i])));
      assert data[i..][1..] == data[i + 1..];
    }
  }

  /** The firmware's `crc16`: two nibble-table rounds per byte. */
  method NibbleTableCrc(data: seq<bv8>) returns (crc: bv16)
    ensures crc == Crc16(LINK_INIT, data)
  {
    crc := LINK_INIT;
    for i := 0 to |data|
      invariant Crc16(crc, data[i..]) == Crc16(LINK_INIT, data)
    {
      crc := Mix(crc, Word(data[i]));
      NibbleEntry(crc);
      crc := (crc << 4) ^ NIBBLE_TABLE[(crc >> 12) as int];
      NibbleEntry(crc);
      crc := (crc << 4) ^ NIBBLE_TABLE[(crc >> 12) as int];
      assert data[i..][1..] == data[i + 1..];
    }
  }

  method BusCrc8(data: seq<bv8>) returns (r: bv8)
    ensures r == Crc8(BUS_INIT8, data)
  {
    r := BUS_INIT8;
    for i := 0 to |data|
      invariant Crc8(r, data[i..]) == Crc8(BUS_INIT8, data)
    {
      BusEntry8(r ^ data[i]);
      r := BusTable8(r ^ data[i]);
      assert data[i..][1..] == data[i + 1..];
    }
  }

  method BusCrc16(data: seq<bv8>) returns (r: bv16)
    ensures r == Crc16(BUS_INIT16, data)
  {
    hide BusTable16, Step16;
    r := BUS_INIT16;
    for i := 0 to |data|
      invariant Crc16(r, data[i..]) == Crc16(BUS_INIT16, data)
    {
      var idx := ((r >> 8) as bv8) ^ data[i];
      TableStep(r, data[i], idx);
      r := BusTable16(idx) ^ (r << 8);
      assert data[i..][1..] == data[i + 1..];
    }
  }

  /** Looking up only the top byte is enough: one table step is one bitwise step. */
  lemma TableStep(r: bv16, b: bv8, idx: bv8)
    requires idx == ((r >> 8) as bv8) ^ b
    ensures IsXor(Step16(r, b), BusTable16(idx), r << 8)
  {
    hide BusTable16, Rounds8, IsXor, Mix, Word;
    BusEntry16(idx);
    SplitIndex(r, b, idx);
    LowByteUp(r);
    SplitEight((idx as bv16) << 8, r & 0xFF, Mix(r, Word(b)), r << 8);
  }

  lemma LowByteUp(r: bv16)
    ensures (r & 0xFF) << 8 == r << 8 && r & 0xFF < 256
  {
  }

  lemma SplitIndex(r: bv16, b: bv8, idx: bv8)
    requires idx == ((r >> 8) as bv8) ^ b
    ensures IsXor(Mix(r, Word(b)), (idx as bv16) << 8, r & 0xFF)
  {
    hide Mix, IsXor;
    SplitIndexBits(r, b, Word(b), idx);
  }

  lemma SplitIndexBits(r: bv16, b8: bv8, w: bv16, idx: bv8)
    requires w == b8 as bv16 && idx == ((r >> 8) as bv8) ^ b8
    ensures IsXor(Mix(r, w), (idx as bv16) << 8, r & 0xFF)
  {
  }

  // ----- Bits that do not reach the top of the register just move up -----

  predicate IsXor(x: bv16, h: bv16, l: bv16) { x == h ^ l }

  predicate MovesUp(l: bv16, l': bv16) { l & 0x8000 == 0 && l' == l << 1 }

  lemma XorShl(h: bv16, l: bv16)
    ensures (h ^ l) << 1 == (h << 1) ^ (l << 1)
  {
  }

  lemma XorShlPoly(h: bv16, l: bv16)
    ensures ((h ^ l) << 1) ^ 0x1021 == ((h << 1) ^ 0x1021) ^ (l << 1)
  {
  }

  lemma SplitTop(h: bv16, l: bv16, x: bv16, l': bv16)
    requires h & 0x8000 != 0 && l & 0x8000 == 0 && l' == l << 1 && x == h ^ l
    ensures x & 0x8000 != 0 && (x << 1) ^ 0x1021 == ((h << 1) ^ 0x1021) ^ l'
  {
    XorShlPoly(h, l);
  }

  lemma SplitClear(h: bv16, l: bv16, x: bv16, l': bv16)
    requires h & 0x8000 == 0 && l & 0x8000 == 0 && l' == l << 1 && x == h ^ l
    ensures x & 0x8000 == 0 && x << 1 == (h << 1) ^ l'
  {
    XorShl(h, l);
  }

  lemma SplitOne(h: bv16, l: bv16, x: bv16, l': bv16)
    requires IsXor(x, h, l) && MovesUp(l, l')
    ensures IsXor(Shift16(x), Shift16(h), l')
  {
    hide Shift16;
    ShiftTop(x);
    ShiftTop(h);
    if h & 0x8000 != 0 {
      SplitTop(h, l, x, l');
    } else {
      SplitClear(h, l, x, l');
    }
  }

  lemma SplitFour(h: bv16, x: bv16, l0: bv16, l1: bv16, l2: bv16, l3: bv16, l4: bv16)
    requires IsXor(x, h, l0)
    requires MovesUp(l0, l1) && MovesUp(l1, l2) && MovesUp(l2, l3) && MovesUp(l3, l4)
    ensures IsXor(Rounds4(x), Rounds4(h), l4)
  {
    hide IsXor, MovesUp, Shift16;
    var h1, x1 := Shift16(h), Shift16(x);
    var h2, x2 := Shift16(h1), Shift16(x1);
    SplitOne(h, l0, x, l1);
    SplitOne(h1, l1, x1, l2);
    SplitOne(h2, l2, x2, l3);
    SplitOne(Shift16(h2), l3, Shift16(x2), l4);
  }

  lemma LowBitsMoveUp(l: bv16)
    requires l < 256
    ensures MovesUp(l, l << 1) && MovesUp(l << 1, l << 2) && MovesUp(l << 2, l << 3)
    ensures MovesUp(l << 3, l << 4) && MovesUp(l << 4, l << 5) && MovesUp(l << 5, l << 6)
    ensures MovesUp(l << 6, l << 7) && MovesUp(l << 7, l << 8)
  {
  }

  lemma SplitEight(h: bv16, l: bv16, x: bv16, l8: bv16)
    requires l < 256 && IsXor(x, h, l) && l8 == l << 8
    ensures IsXor(Rounds8(x), Rounds8(h), l8)
  {
    hide IsXor, MovesUp, Rounds4;
    LowBitsMoveUp(l);
    SplitFour(h, x, l, l << 1, l << 2, l << 3, l << 4);
    SplitFour(Rounds4(h), Rounds4(x), l << 4, l << 5, l << 6, l << 7, l << 8);
  }

  // ----- Error detection: the register is an injective function of its past -----

  lemma SameBranch(c: bv16, d: bv16, next: bv16)
    requires c & 0x8000 != 0 && d & 0x8000 != 0
    requires next == (c << 1) ^ 0x1021 && next == (d << 1) ^ 0x1021
    ensures c == d
  {
  }

  lemma BothShift(c: bv16, d: bv16, next: bv16)
    requires c & 0x8000 == 0 && d & 0x8000 == 0 && next == c << 1 && next == d << 1
    ensures c == d
  {
  }

  lemma ParityOfShift(c: bv16)
    ensures Shift16(c) & 1 == 0 <==> c & 0x8000 == 0
  {
  }

  lemma ShiftTop(c: bv16)
    ensures c & 0x8000 != 0 ==> Shift16(c) == (c << 1) ^ 0x1021
    ensures c & 0x8000 == 0 ==> Shift16(c) == c << 1
  {
  }

  lemma SameTop(c: bv16, d: bv16)
    requires Shift16(c) == Shift16(d)
    ensures c & 0x8000 == 0 <==> d & 0x8000 == 0
  {
    hide Shift16;
    ParityOfShift(c);
    ParityOfShift(d);
  }

  lemma Shift16Injective(c: bv16, d: bv16)
    requires Shift16(c) == Shift16(d)
    ensures c == d
  {
    hide Shift16;
    SameTop(c, d);
    ShiftTop(c);
    ShiftTop(d);
    if c & 0x8000 != 0 {
      SameBranch(c, d, Shift16(c));
    } else {
      BothShift(c, d, Shift16(c));
    }
  }

  lemma Rounds4Injective(x: bv16, y: bv16)
    requires Rounds4(x) == Rounds4(y)
    ensures x == y
  {
    hide Shift16;
    var a, b := Shift16(x), Shift16(y);
    var c, d := Shift16(a), Shift16(b);
    Shift16Injective(Shift16(c), Shift16(d));
    Shift16Injective(c, d);
    Shift16Injective(a, b);
    Shift16Injective(x, y);
  }

  lemma Rounds8Injective(x: bv16, y: bv16)
    requires Rounds8(x) == Rounds8(y)
    ensures x == y
  {
    Rounds4Injective(Rounds4(x), Rounds4(y));
    Rounds4Injective(x, y);
  }

  lemma TopByteCancels(c: bv16, a: bv16, b: bv16, m: bv16)
    requires a < 256 && b < 256 && m == c ^ (a << 8) && m == c ^ (b << 8)
    ensures a == b
  {
  }

  lemma WordValue(b: bv8)
    ensures Word(b) < 256 && Word(b) as bv8 == b
  {
  }

  lemma MixTwice(c: bv16, w: bv16)
    ensures Mix(Mix(c, w), w) == c
  {
  }

  lemma MixByteInjective(c: bv16, a: bv16, b: bv16)
    requires Mix(c, a) == Mix(c, b) && a < 256 && b < 256
    ensures a == b
  {
    TopByteCancels(c, a, b, Mix(c, a));
  }

  lemma Step16Injective(c: bv16, d: bv16, b: bv8)
    requires Step16(c, b) == Step16(d, b)
    ensures c == d
  {
    hide Rounds8, Mix;
    Rounds8Injective(Mix(c, Word(b)), Mix(d, Word(b)));
    MixTwice(c, Word(b));
    MixTwice(d, Word(b));
  }

  lemma Step16ByteInjective(c: bv16, a: bv8, b: bv8)
    requires Step16(c, a) == Step16(c, b)
    ensures a == b
  {
    hide Rounds8, Mix, Word;
    Rounds8Injective(Mix(c, Word(a)), Mix(c, Word(b)));
    WordValue(a);
    WordValue(b);
    MixByteInjective(c, Word(a), Word(b));
  }

  lemma {:induction false} Crc16Injective(c: bv16, d: bv16, data: seq<bv8>)
    requires Crc16(c, data) == Crc16(d, data)
    ensures c == d
    decreases data
  {
    if data != [] {
      hide Step16;
      Crc16Injective(Step16(c, data[0]), Step16(d, data[0]), data[1..]);
      Step16Injective(c, d, data[0]);
    }
  }

  lemma {:induction false} Crc16Append(c: bv16, s: seq<bv8>, t: seq<bv8>)
    ensures Crc16(c, s + t) == Crc16(Crc16(c, s), t)
    decreases s
  {
    hide Step16;
    if s == [] {
      assert s + t == t;
    } else {
      assert (s + t)[1..] == s[1..] + t;
      Crc16Append(Step16(c, s[0]), s[1..], t);
    }
  }

  /** Changing exactly one byte always changes a CRC16, whatever the initial register. */
  lemma SingleByteChange16(init: bv16, s: seq<bv8>, i: nat, v: bv8)
    requires i < |s| && v != s[i]
    ensures Crc16(init, s[i := v]) != Crc16(init, s)
  {
    hide Step16;
    var pre, post := s[..i], s[i + 1..];
    assert s == pre + ([s[i]] + post) && s[i := v] == pre + ([v] + post);
    Crc16Append(init, pre, [s[i]] + post);
    Crc16Append(init, pre, [v] + post);
    var c := Crc16(init, pre);
    if Crc16(c, [v] + post) == Crc16(c, [s[i]] + post) {
      assert ([v] + post)[1..] == post && ([s[i]] + post)[1..] == post;
      Crc16Injective(Step16(c, v), Step16(c, s[i]), post);
      Step16ByteInjective(c, v, s[i]);
    }
  }

  /**
   Two different bytes never give table entries with the same low byte, so two
   consecutive bytes are also recovered by the register.
   */
  lemma TwoSteps16Injective(c: bv16, a: bv8, b: bv8, a': bv8, b': bv8)
    requires Step16(Step16(c, a), b) == Step16(Step16(c, a'), b')
    ensures a == a' && b == b'
  {
    hide Rounds8, Mix, Word;
    var x, x' := Mix(c, Word(a)), Mix(c, Word(a'));
    var s, s' := Rounds8(x), Rounds8(x');
    var w, w' := Word(b), Word(b');
    Rounds8Injective(Mix(s, w), Mix(s', w'));
    WordValue(a);
    WordValue(a');
    WordValue(b);
    WordValue(b');
    var k := w ^ w';
    MixDifference(s, w, s', w', k);
    assert IsXor(Rounds8(x ^ k), s, k << 8) by {
      hide IsXor;
      IsXorDef(x, k);
      SplitEight(x, k, x ^ k, k << 8);
    }
    assert s' == Rounds8(x ^ k);
    Rounds8Injective(x ^ k, x');
    MixLowByte(c, Word(a), Word(a'), k);
    SameWords(w, w', k);
  }

  lemma IsXorDef(x: bv16, k: bv16)
    ensures IsXor(x ^ k, x, k)
  {
  }

  lemma MixDifference(s: bv16, w: bv16, s': bv16, w': bv16, k: bv16)
    requires Mix(s, w) == Mix(s', w') && w < 256 && w' < 256 && k == w ^ w'
    ensures IsXor(s', s, k << 8) && k < 256
  {
  }

  lemma MixLowByte(c: bv16, a: bv16, a': bv16, k: bv16)
    requires Mix(c, a) ^ k == Mix(c, a') && a < 256 && a' < 256 && k < 256
    ensures a == a' && k == 0
  {
  }

  lemma SameWords(w: bv16, w': bv16, k: bv16)
    requires k == w ^ w' && k == 0
    ensures w == w'
  {
  }

  /** A burst confined to two neighbouring bytes always changes a CRC16. */
  lemma AdjacentBytesChange16(init: bv16, s: seq<bv8>, i: nat, v: bv8, v': bv8)
    requires i + 1 < |s| && (v != s[i] || v' != s[i + 1])
    ensures Crc16(init, s[i := v][i + 1 := v']) != Crc16(init, s)
  {
    hide Step16;
    var pre, post, t := s[..i], s[i + 2..], s[i := v][i + 1 := v'];
    assert s == pre + ([s[i], s[i + 1]] + post) && t == pre + ([v, v'] + post);
    Crc16Append(init, pre, [s[i], s[i + 1]] + post);
    Crc16Append(init, pre, [v, v'] + post);
    var c := Crc16(init, pre);
    Crc16Pair(c, s[i], s[i + 1], post);
    Crc16Pair(c, v, v', post);
    if Crc16(init, t) == Crc16(init, s) {
      Crc16Injective(Step16(Step16(c, v), v'), Step16(Step16(c, s[i]), s[i + 1]), post);
      TwoSteps16Injective(c, v, v', s[i], s[i + 1]);
    }
  }

  lemma Crc16Pair(c: bv16, a: bv8, b: bv8, post: seq<bv8>)
    ensures Crc16(c, [a, b] + post) == Crc16(Step16(Step16(c, a), b), post)
  {
    hide Step16;
    assert ([a, b] + post)[1..] == [b] + post;
    assert ([b] + post)[1..] == post;
  }

  // ----- The same for the 8-bit header CRC -----

  function Unshift8(c: bv8): bv8 {
    if c & 1 != 0 then ((c ^ 0x39) >> 1) | 0x80 else c >> 1
  }

  lemma UnshiftShift8(c: bv8)
    ensures Unshift8(Shift8(c)) == c
  {
  }

  lemma Rounds8of8Injective(x: bv8, y: bv8)
    requires Rounds8of8(x) == Rounds8of8(y)
    ensures x == y
  {
    hide Shift8, Unshift8;
    var x1, y1 := Shift8(x), Shift8(y);
    var x2, y2 := Shift8(x1), Shift8(y1);
    var x3, y3 := Shift8(x2), Shift8(y2);
    var x4, y4 := Shift8(x3), Shift8(y3);
    var x5, y5 := Shift8(x4), Shift8(y4);
    var x6, y6 := Shift8(x5), Shift8(y5);
    var x7, y7 := Shift8(x6), Shift8(y6);
    UnshiftShift8(x7);
    UnshiftShift8(y7);
    UnshiftShift8(x6);
    UnshiftShift8(y6);
    UnshiftShift8(x5);
    UnshiftShift8(y5);
    UnshiftShift8(x4);
    UnshiftShift8(y4);
    UnshiftShift8(x3);
    UnshiftShift8(y3);
    UnshiftShift8(x2);
    UnshiftShift8(y2);
    UnshiftShift8(x1);
    UnshiftShift8(y1);
    UnshiftShift8(x);
    UnshiftShift8(y);
  }

  lemma Mix8Twice(c: bv8, b: bv8)
    ensures Mix8(Mix8(c, b), b) == c && Mix8(Mix8(c, b), c) == b
  {
  }

  lemma Step8Injective(c: bv8, d: bv8, b: bv8)
    requires Step8(c, b) == Step8(d, b)
    ensures c == d
  {
    hide Rounds8of8, Mix8;
    Rounds8of8Injective(Mix8(c, b), Mix8(d, b));
    Mix8Twice(c, b);
    Mix8Twice(d, b);
  }

  lemma {:induction false} Crc8Injective(c: bv8, d: bv8, data: seq<bv8>)
    requires Crc8(c, data) == Crc8(d, data)
    ensures c == d
    decreases data
  {
    if data != [] {
      hide Step8;
      Crc8Injective(Step8(c, data[0]), Step8(d, data[0]), data[1..]);
      Step8Injective(c, d, data[0]);
    }
  }

  lemma {:induction false} Crc8Append(c: bv8, s: seq<bv8>, t: seq<bv8>)
    ensures Crc8(c, s + t) == Crc8(Crc8(c, s), t)
    decreases s
  {
    hide Step8;
    if s == [] {
      assert s + t == t;
    } else {
      assert (s + t)[1..] == s[1..] + t;
      Crc8Append(Step8(c, s[0]), s[1..], t);
    }
  }

  lemma Step8ByteInjective(c: bv8, a: bv8, b: bv8)
    requires Step8(c, a) == Step8(c, b)
    ensures a == b
  {
    hide Rounds8of8, Mix8;
    Rounds8of8Injective(Mix8(c, a), Mix8(c, b));
    Mix8Twice(c, a);
    Mix8Twice(c, b);
  }

  /** Changing exactly one byte always changes the header CRC8. */
  lemma SingleByteChange8(init: bv8, s: seq<bv8>, i: nat, v: bv8)
    requires i < |s| && v != s[i]
    ensures Crc8(init, s[i := v]) != Crc8(init, s)
  {
    hide Step8;
    var pre, post := s[..i], s[i + 1..];
    assert s == pre + ([s[i]] + post) && s[i := v] == pre + ([v] + post);
    Crc8Append(init, pre, [s[i]] + post);
    Crc8Append(init, pre, [v] + post);
    var c := Crc8(init, pre);
    if Crc8(c, [v] + post) == Crc8(c, [s[i]] + post) {
      assert ([v] + post)[1..] == post && ([s[i]] + post)[1..] == post;
      Crc8Injective(Step8(c, v), Step8(c, s[i]), post);
      Step8ByteInjective(c, v, s[i]);
    }
  }
}
