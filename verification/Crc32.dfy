/**
 CRC-32 as the manager and the monitor compute it: a byte-at-a-time loop over a
 table of 256 feedback terms. The reference it is proved against is the one-bit
 shift register of section 8 of RFC 1952, fed with the message bits in
 transmission order (least significant bit of each byte first).
 */
module Crc32 {
  const POLYNOMIAL: bv32 := 0xEDB88320
  const ONES: bv32 := 0xFFFF_FFFF

  // ---------------------------------------------------------------- reference

  function Xor(x: bv32, y: bv32): bv32 {
    x ^ y
  }

  /** One clock of the shift register. */
  function ShiftBit(c: bv32): bv32 {
    if c & 1 == 1 then (c >> 1) ^ POLYNOMIAL else c >> 1
  }

  function ShiftN(c: bv32, n: nat): bv32
    decreases n
  {
    if n == 0 then c else ShiftN(ShiftBit(c), n - 1)
  }

  function Bit(b: bool): bv32 {
    if b then 1 else 0
  }

  /** Feeds message bits into the register, first bit first. */
  function Serial(c: bv32, bits: seq<bool>): bv32
    decreases |bits|
  {
    if bits == [] then c else Serial(ShiftBit(Xor(c, Bit(bits[0]))), bits[1..])
  }

  function BitsOf(b: bv8): seq<bool> {
    [b & 1 == 1, (b >> 1) & 1 == 1, (b >> 2) & 1 == 1, (b >> 3) & 1 == 1,
     (b >> 4) & 1 == 1, (b >> 5) & 1 == 1, (b >> 6) & 1 == 1, (b >> 7) & 1 == 1]
  }

  function MessageBits(buf: seq<bv8>): (bits: seq<bool>)
    ensures |bits| == 8 * |buf|
  {
    if buf == [] then [] else MessageBits(buf[..|buf| - 1]) + BitsOf(buf[|buf| - 1])
  }

  /** The bit-serial CRC-32, with the pre- and post-inversion of the source. */
  function BitSerialCrc(crc: bv32, buf: seq<bv8>): bv32 {
    Xor(Serial(Xor(crc, ONES), MessageBits(buf)), ONES)
  }

  // -------------------------------------------------------------------- table

  // The 256 feedback terms, sixteen to a row.
  const ROW_0: seq<bv32> := [
    0x00000000, 0x77073096, 0xEE0E612C, 0x990951BA, 0x076DC419, 0x706AF48F, 0xE963A535, 0x9E6495A3,
    0x0EDB8832, 0x79DCB8A4, 0xE0D5E91E, 0x97D2D988, 0x09B64C2B, 0x7EB17CBD, 0xE7B82D07, 0x90BF1D91]
  const ROW_1: seq<bv32> := [
    0x1DB71064, 0x6AB020F2, 0xF3B97148, 0x84BE41DE, 0x1ADAD47D, 0x6DDDE4EB, 0xF4D4B551, 0x83D385C7,
    0x136C9856, 0x646BA8C0, 0xFD62F97A, 0x8A65C9EC, 0x14015C4F, 0x63066CD9, 0xFA0F3D63, 0x8D080DF5]
  const ROW_2: seq<bv32> := [
    0x3B6E20C8, 0x4C69105E, 0xD56041E4, 0xA2677172, 0x3C03E4D1, 0x4B04D447, 0xD20D85FD, 0xA50AB56B,
    0x35B5A8FA, 0x42B2986C, 0xDBBBC9D6, 0xACBCF940, 0x32D86CE3, 0x45DF5C75, 0xDCD60DCF, 0xABD13D59]
  const ROW_3: seq<bv32> := [
    0x26D930AC, 0x51DE003A, 0xC8D75180, 0xBFD06116, 0x21B4F4B5, 0x56B3C423, 0xCFBA9599, 0xB8BDA50F,
    0x2802B89E, 0x5F058808, 0xC60CD9B2, 0xB10BE924, 0x2F6F7C87, 0x58684C11, 0xC1611DAB, 0xB6662D3D]
  const ROW_4: seq<bv32> := [
    0x76DC4190, 0x01DB7106, 0x98D220BC, 0xEFD5102A, 0x71B18589, 0x06B6B51F, 0x9FBFE4A5, 0xE8B8D433,
    0x7807C9A2, 0x0F00F934, 0x9609A88E, 0xE10E9818, 0x7F6A0DBB, 0x086D3D2D, 0x91646C97, 0xE6635C01]
  const ROW_5: seq<bv32> := [
    0x6B6B51F4, 0x1C6C6162, 0x856530D8, 0xF262004E, 0x6C0695ED, 0x1B01A57B, 0x8208F4C1, 0xF50FC457,
    0x65B0D9C6, 0x12B7E950, 0x8BBEB8EA, 0xFCB9887C, 0x62DD1DDF, 0x15DA2D49, 0x8CD37CF3, 0xFBD44C65]
  const ROW_6: seq<bv32> := [
    0x4DB26158, 0x3AB551CE, 0xA3BC0074, 0xD4BB30E2, 0x4ADFA541, 0x3DD895D7, 0xA4D1C46D, 0xD3D6F4FB,
    0x4369E96A, 0x346ED9FC, 0xAD678846, 0xDA60B8D0, 0x44042D73, 0x33031DE5, 0xAA0A4C5F, 0xDD0D7CC9]
  const ROW_7: seq<bv32> := [
    0x5005713C, 0x270241AA, 0xBE0B1010, 0xC90C2086, 0x5768B525, 0x206F85B3, 0xB966D409, 0xCE61E49F,
    0x5EDEF90E, 0x29D9C998, 0xB0D09822, 0xC7D7A8B4, 0x59B33D17, 0x2EB40D81, 0xB7BD5C3B, 0xC0BA6CAD]
  const ROW_8: seq<bv32> := [
    0xEDB88320, 0x9ABFB3B6, 0x03B6E20C, 0x74B1D29A, 0xEAD54739, 0x9DD277AF, 0x04DB2615, 0x73DC1683,
    0xE3630B12, 0x94643B84, 0x0D6D6A3E, 0x7A6A5AA8, 0xE40ECF0B, 0x9309FF9D, 0x0A00AE27, 0x7D079EB1]
  const ROW_9: seq<bv32> := [
    0xF00F9344, 0x8708A3D2, 0x1E01F268, 0x6906C2FE, 0xF762575D, 0x806567CB, 0x196C3671, 0x6E6B06E7,
    0xFED41B76, 0x89D32BE0, 0x10DA7A5A, 0x67DD4ACC, 0xF9B9DF6F, 0x8EBEEFF9, 0x17B7BE43, 0x60B08ED5]
  const ROW_A: seq<bv32> := [
    0xD6D6A3E8, 0xA1D1937E, 0x38D8C2C4, 0x4FDFF252, 0xD1BB67F1, 0xA6BC5767, 0x3FB506DD, 0x48B2364B,
    0xD80D2BDA, 0xAF0A1B4C, 0x36034AF6, 0x41047A60, 0xDF60EFC3, 0xA867DF55, 0x316E8EEF, 0x4669BE79]
  const ROW_B: seq<bv32> := [
    0xCB61B38C, 0xBC66831A, 0x256FD2A0, 0x5268E236, 0xCC0C7795, 0xBB0B4703, 0x220216B9, 0x5505262F,
    0xC5BA3BBE, 0xB2BD0B28, 0x2BB45A92, 0x5CB36A04, 0xC2D7FFA7, 0xB5D0CF31, 0x2CD99E8B, 0x5BDEAE1D]
  const ROW_C: seq<bv32> := [
    0x9B64C2B0, 0xEC63F226, 0x756AA39C, 0x026D930A, 0x9C0906A9, 0xEB0E363F, 0x72076785, 0x05005713,
    0x95BF4A82, 0xE2B87A14, 0x7BB12BAE, 0x0CB61B38, 0x92D28E9B, 0xE5D5BE0D, 0x7CDCEFB7, 0x0BDBDF21]
  const ROW_D: seq<bv32> := [
    0x86D3D2D4, 0xF1D4E242, 0x68DDB3F8, 0x1FDA836E, 0x81BE16CD, 0xF6B9265B, 0x6FB077E1, 0x18B74777,
    0x88085AE6, 0xFF0F6A70, 0x66063BCA, 0x11010B5C, 0x8F659EFF, 0xF862AE69, 0x616BFFD3, 0x166CCF45]
  const ROW_E: seq<bv32> := [
    0xA00AE278, 0xD70DD2EE, 0x4E048354, 0x3903B3C2, 0xA7672661, 0xD06016F7, 0x4969474D, 0x3E6E77DB,
    0xAED16A4A, 0xD9D65ADC, 0x40DF0B66, 0x37D83BF0, 0xA9BCAE53, 0xDEBB9EC5, 0x47B2CF7F, 0x30B5FFE9]
  const ROW_F: seq<bv32> := [
    0xBDBDF21C, 0xCABAC28A, 0x53B39330, 0x24B4A3A6, 0xBAD03605, 0xCDD70693, 0x54DE5729, 0x23D967BF,
    0xB3667A2E, 0xC4614AB8, 0x5D681B02, 0x2A6F2B94, 0xB40BBE37, 0xC30C8EA1, 0x5A05DF1B, 0x2D02EF8D]

  const TABLE: seq<seq<bv32>> := [
    ROW_0, ROW_1, ROW_2, ROW_3, ROW_4, ROW_5, ROW_6, ROW_7,
    ROW_8, ROW_9, ROW_A, ROW_B, ROW_C, ROW_D, ROW_E, ROW_F]

  lemma NibbleRange(i: bv8)
    ensures (i & 15) as int < 16 && (i >> 4) as int < 16
  {
  }

  function Lookup(i: bv8): bv32 {
    NibbleRange(i);
    TABLE[(i >> 4) as int][(i & 15) as int]
  }

  function Shift8(c: bv32): bv32 {
    ShiftBit(ShiftBit(ShiftBit(ShiftBit(ShiftBit(ShiftBit(ShiftBit(ShiftBit(c))))))))
  }

  lemma Row0(i: bv8)
    requires i >> 4 == 0
    ensures Lookup(i) == Shift8(i as bv32)
  {
    assert i == 0x00 || i == 0x01 || i == 0x02 || i == 0x03 || i == 0x04 || i == 0x05 || i == 0x06 || i == 0x07
      || i == 0x08 || i == 0x09 || i == 0x0A || i == 0x0B || i == 0x0C || i == 0x0D || i == 0x0E || i == 0x0F;
  }

  lemma Row1(i: bv8)
    requires i >> 4 == 1
    ensures Lookup(i) == Shift8(i as bv32)
  {
    assert i == 0x10 || i == 0x11 || i == 0x12 || i == 0x13 || i == 0x14 || i == 0x15 || i == 0x16 || i == 0x17
      || i == 0x18 || i == 0x19 || i == 0x1A || i == 0x1B || i == 0x1C || i == 0x1D || i == 0x1E || i == 0x1F;
  }

  lemma Row2(i: bv8)
    requires i >> 4 == 2
    ensures Lookup(i) == Shift8(i as bv32)
  {
    assert i == 0x20 || i == 0x21 || i == 0x22 || i == 0x23 || i == 0x24 || i == 0x25 || i == 0x26 || i == 0x27
      || i == 0x28 || i == 0x29 || i == 0x2A || i == 0x2B || i == 0x2C || i == 0x2D || i == 0x2E || i == 0x2F;
  }

  lemma Row3(i: bv8)
    requires i >> 4 == 3
    ensures Lookup(i) == Shift8(i as bv32)
  {
    assert i == 0x30 || i == 0x31 || i == 0x32 || i == 0x33 || i == 0x34 || i == 0x35 || i == 0x36 || i == 0x37
      || i == 0x38 || i == 0x39 || i == 0x3A || i == 0x3B || i == 0x3C || i == 0x3D || i == 0x3E || i == 0x3F;
  }

  lemma Row4(i: bv8)
    requires i >> 4 == 4
    ensures Lookup(i) == Shift8(i as bv32)
  {
    assert i == 0x40 || i == 0x41 || i == 0x42 || i == 0x43 || i == 0x44 || i == 0x45 || i == 0x46 || i == 0x47
      || i == 0x48 || i == 0x49 || i == 0x4A || i == 0x4B || i == 0x4C || i == 0x4D || i == 0x4E || i == 0x4F;
  }

  lemma Row5(i: bv8)
    requires i >> 4 == 5
    ensures Lookup(i) == Shift8(i as bv32)
  {
    assert i == 0x50 || i == 0x51 || i == 0x52 || i == 0x53 || i == 0x54 || i == 0x55 || i == 0x56 || i == 0x57
      || i == 0x58 || i == 0x59 || i == 0x5A || i == 0x5B || i == 0x5C || i == 0x5D || i == 0x5E || i == 0x5F;
  }

  lemma Row6(i: bv8)
    requires i >> 4 == 6
    ensures Lookup(i) == Shift8(i as bv32)
  {
    assert i == 0x60 || i == 0x61 || i == 0x62 || i == 0x63 || i == 0x64 || i == 0x65 || i == 0x66 || i == 0x67
      || i == 0x68 || i == 0x69 || i == 0x6A || i == 0x6B || i == 0x6C || i == 0x6D || i == 0x6E || i == 0x6F;
  }

  lemma Row7(i: bv8)
    requires i >> 4 == 7
    ensures Lookup(i) == Shift8(i as bv32)
  {
    assert i == 0x70 || i == 0x71 || i == 0x72 || i == 0x73 || i == 0x74 || i == 0x75 || i == 0x76 || i == 0x77
      || i == 0x78 || i == 0x79 || i == 0x7A || i == 0x7B || i == 0x7C || i == 0x7D || i == 0x7E || i == 0x7F;
  }

  lemma Row8(i: bv8)
    requires i >> 4 == 8
    ensures Lookup(i) == Shift8(i as bv32)
  {
    assert i == 0x80 || i == 0x81 || i == 0x82 || i == 0x83 || i == 0x84 || i == 0x85 || i == 0x86 || i == 0x87
      || i == 0x88 || i == 0x89 || i == 0x8A || i == 0x8B || i == 0x8C || i == 0x8D || i == 0x8E || i == 0x8F;
  }

  lemma Row9(i: bv8)
    requires i >> 4 == 9
    ensures Lookup(i) == Shift8(i as bv32)
  {
    assert i == 0x90 || i == 0x91 || i == 0x92 || i == 0x93 || i == 0x94 || i == 0x95 || i == 0x96 || i == 0x97
      || i == 0x98 || i == 0x99 || i == 0x9A || i == 0x9B || i == 0x9C || i == 0x9D || i == 0x9E || i == 0x9F;
  }

  lemma RowA(i: bv8)
    requires i >> 4 == 10
    ensures Lookup(i) == Shift8(i as bv32)
  {
    assert i == 0xA0 || i == 0xA1 || i == 0xA2 || i == 0xA3 || i == 0xA4 || i == 0xA5 || i == 0xA6 || i == 0xA7
      || i == 0xA8 || i == 0xA9 || i == 0xAA || i == 0xAB || i == 0xAC || i == 0xAD || i == 0xAE || i == 0xAF;
  }

  lemma RowB(i: bv8)
    requires i >> 4 == 11
    ensures Lookup(i) == Shift8(i as bv32)
  {
    assert i == 0xB0 || i == 0xB1 || i == 0xB2 || i == 0xB3 || i == 0xB4 || i == 0xB5 || i == 0xB6 || i == 0xB7
      || i == 0xB8 || i == 0xB9 || i == 0xBA || i == 0xBB || i == 0xBC || i == 0xBD || i == 0xBE || i == 0xBF;
  }

  lemma RowC(i: bv8)
    requires i >> 4 == 12
    ensures Lookup(i) == Shift8(i as bv32)
  {
    assert i == 0xC0 || i == 0xC1 || i == 0xC2 || i == 0xC3 || i == 0xC4 || i == 0xC5 || i == 0xC6 || i == 0xC7
      || i == 0xC8 || i == 0xC9 || i == 0xCA || i == 0xCB || i == 0xCC || i == 0xCD || i == 0xCE || i == 0xCF;
  }

  lemma RowD(i: bv8)
    requires i >> 4 == 13
    ensures Lookup(i) == Shift8(i as bv32)
  {
    assert i == 0xD0 || i == 0xD1 || i == 0xD2 || i == 0xD3 || i == 0xD4 || i == 0xD5 || i == 0xD6 || i == 0xD7
      || i == 0xD8 || i == 0xD9 || i == 0xDA || i == 0xDB || i == 0xDC || i == 0xDD || i == 0xDE || i == 0xDF;
  }

  lemma RowE(i: bv8)
    requires i >> 4 == 14
    ensures Lookup(i) == Shift8(i as bv32)
  {
    assert i == 0xE0 || i == 0xE1 || i == 0xE2 || i == 0xE3 || i == 0xE4 || i == 0xE5 || i == 0xE6 || i == 0xE7
      || i == 0xE8 || i == 0xE9 || i == 0xEA || i == 0xEB || i == 0xEC || i == 0xED || i == 0xEE || i == 0xEF;
  }

  lemma RowF(i: bv8)
    requires i >> 4 == 15
    ensures Lookup(i) == Shift8(i as bv32)
  {
    assert i == 0xF0 || i == 0xF1 || i == 0xF2 || i == 0xF3 || i == 0xF4 || i == 0xF5 || i == 0xF6 || i == 0xF7
      || i == 0xF8 || i == 0xF9 || i == 0xFA || i == 0xFB || i == 0xFC || i == 0xFD || i == 0xFE || i == 0xFF;
  }

  lemma HighNibble(i: bv8)
    ensures i >> 4 < 16
  {
  }

  /** Every table entry is the register after eight clocks from its index. */
  lemma TableEntry(i: bv8)
    ensures Lookup(i) == Shift8(i as bv32)
  {
    hide Lookup, Shift8;
    HighNibble(i);
    if i >> 4 == 0 {
      Row0(i);
    } else if i >> 4 == 1 {
      Row1(i);
    } else if i >> 4 == 2 {
      Row2(i);
    } else if i >> 4 == 3 {
      Row3(i);
    } else if i >> 4 == 4 {
      Row4(i);
    } else if i >> 4 == 5 {
      Row5(i);
    } else if i >> 4 == 6 {
      Row6(i);
    } else if i >> 4 == 7 {
      Row7(i);
    } else if i >> 4 == 8 {
      Row8(i);
    } else if i >> 4 == 9 {
      Row9(i);
    } else if i >> 4 == 10 {
      RowA(i);
    } else if i >> 4 == 11 {
      RowB(i);
    } else if i >> 4 == 12 {
      RowC(i);
    } else if i >> 4 == 13 {
      RowD(i);
    } else if i >> 4 == 14 {
      RowE(i);
    } else {
      RowF(i);
    }
  }

  /** The loop body of the source. */
  function ByteStep(c: bv32, b: bv8): bv32 {
    Xor(Lookup(TableIndex(c, b)), c >> 8)
  }

  function TableIndex(c: bv32, b: bv8): bv8 {
    ((c ^ (b as bv32)) & 0xFF) as bv8
  }

  // ------------------------------------------------- algebra of the register

  // `Xor` names the operator so that it can be hidden where only its laws matter.
  lemma XorIsCaret(x: bv32, y: bv32)
    ensures Xor(x, y) == x ^ y
  {
  }

  lemma XorComm(a: bv32, b: bv32)
    ensures Xor(a, b) == Xor(b, a)
  {
  }

  lemma XorAssocCaret(a: bv32, b: bv32, c: bv32)
    ensures Xor(a ^ b, c) == Xor(a, b ^ c)
  {
  }

  lemma XorAssoc(a: bv32, b: bv32, c: bv32)
    ensures Xor(Xor(a, b), c) == Xor(a, Xor(b, c))
  {
    hide Xor;
    XorAssocCaret(a, b, c);
    XorIsCaret(a, b);
    XorIsCaret(b, c);
  }

  lemma XorUnits(a: bv32)
    ensures Xor(a, 0) == a && Xor(a, a) == 0
  {
  }

  lemma XorCancel(a: bv32, b: bv32)
    ensures Xor(Xor(a, b), b) == a
  {
    hide Xor;
    XorAssoc(a, b, b);
    XorUnits(b);
    XorUnits(a);
  }

  lemma XorSwapLast(a: bv32, b: bv32, c: bv32)
    ensures Xor(Xor(a, b), c) == Xor(Xor(a, c), b)
  {
    hide Xor;
    XorAssoc(a, b, c);
    XorAssoc(a, c, b);
    XorComm(b, c);
  }

  lemma ShiftCases(x: bv32)
    ensures x & 1 == 0 || x & 1 == 1
    ensures x & 1 == 0 ==> ShiftBit(x) == x >> 1
    ensures x & 1 == 1 ==> ShiftBit(x) == Xor(x >> 1, POLYNOMIAL)
  {
  }

  lemma XorShiftRight(x: bv32, y: bv32)
    ensures Xor(x, y) >> 1 == Xor(x >> 1, y >> 1)
  {
    hide Xor;
    XorIsCaret(x, y);
    XorIsCaret(x >> 1, y >> 1);
  }

  lemma XorLowBit(x: bv32, y: bv32)
    ensures Xor(x, y) & 1 == 0 <==> x & 1 == y & 1
  {
  }

  /** The register is linear over exclusive or. */
  lemma ShiftLinear(x: bv32, y: bv32)
    ensures ShiftBit(Xor(x, y)) == Xor(ShiftBit(x), ShiftBit(y))
  {
    hide Xor, ShiftBit;
    var p, q := x >> 1, y >> 1;
    ShiftCases(x);
    ShiftCases(y);
    ShiftCases(Xor(x, y));
    XorShiftRight(x, y);
    XorLowBit(x, y);
    XorAssoc(p, q, POLYNOMIAL);
    XorSwapLast(p, q, POLYNOMIAL);
    XorAssoc(Xor(p, POLYNOMIAL), q, POLYNOMIAL);
    XorCancel(Xor(p, q), POLYNOMIAL);
  }

  /** The top feedback tap makes one clock reversible. */
  lemma ShiftInjective(x: bv32, y: bv32)
    requires ShiftBit(x) == ShiftBit(y)
    ensures x == y
  {
  }

  lemma {:induction false} ShiftNInjective(x: bv32, y: bv32, n: nat)
    requires ShiftN(x, n) == ShiftN(y, n)
    ensures x == y
    decreases n
  {
    hide ShiftBit;
    if n > 0 {
      ShiftNInjective(ShiftBit(x), ShiftBit(y), n - 1);
      ShiftInjective(x, y);
    }
  }

  lemma Shift8IsShiftN(c: bv32)
    ensures Shift8(c) == ShiftN(c, 8)
  {
    hide ShiftBit;
    var c2 := ShiftBit(ShiftBit(c));
    var c4 := ShiftBit(ShiftBit(c2));
    var c6 := ShiftBit(ShiftBit(c4));
    assert ShiftN(c, 8) == ShiftN(c2, 6) == ShiftN(c4, 4) == ShiftN(c6, 2);
  }

  lemma {:induction false} ShiftNLinear(x: bv32, y: bv32, n: nat)
    ensures ShiftN(Xor(x, y), n) == Xor(ShiftN(x, n), ShiftN(y, n))
    decreases n
  {
    hide ShiftBit, Xor;
    if n > 0 {
      ShiftLinear(x, y);
      ShiftNLinear(ShiftBit(x), ShiftBit(y), n - 1);
    }
  }

  function Shift4(c: bv32): bv32 {
    ShiftBit(ShiftBit(ShiftBit(ShiftBit(c))))
  }

  lemma Shift4High(x: bv32)
    requires x & 0xF == 0
    ensures Shift4(x) == x >> 4
  {
  }

  lemma NibblesClear(x: bv32)
    requires x & 0xFF == 0
    ensures x & 0xF == 0 && (x >> 4) & 0xF == 0 && (x >> 4) >> 4 == x >> 8
  {
  }

  /** No feedback happens while the eight bits shifted out are zero. */
  lemma Shift8High(x: bv32)
    requires x & 0xFF == 0
    ensures Shift8(x) == x >> 8
  {
    hide ShiftBit;
    NibblesClear(x);
    Shift4High(x);
    Shift4High(x >> 4);
    assert Shift8(x) == Shift4(Shift4(x));
  }

  lemma SplitLowByte(c: bv32, b: bv8)
    ensures Xor(c, b as bv32) == Xor((c ^ (b as bv32)) & 0xFF, c & 0xFFFF_FF00)
    ensures (c & 0xFFFF_FF00) & 0xFF == 0
    ensures (c & 0xFFFF_FF00) >> 8 == c >> 8
    ensures TableIndex(c, b) as bv32 == (c ^ (b as bv32)) & 0xFF
  {
  }

  /** The loop body of the source is eight clocks with the byte added first. */
  lemma ByteStepIsShiftN(c: bv32, b: bv8)
    ensures ByteStep(c, b) == ShiftN(Xor(c, b as bv32), 8)
  {
    hide Xor, Shift8, ShiftN, Lookup, TableIndex;
    SplitLowByte(c, b);
    TableEntry(TableIndex(c, b));
    var low := (c ^ (b as bv32)) & 0xFF;
    var high := c & 0xFFFF_FF00;
    Shift8IsShiftN(low);
    Shift8IsShiftN(high);
    ShiftNLinear(low, high, 8);
    Shift8High(high);
  }

  // ------------------------------------------------ words of up to 32 bits

  function Double(p: bv32): bv32 {
    p << 1
  }

  predicate TopClear(p: bv32) {
    p & 0x8000_0000 == 0
  }

  /** The bits as a word, first bit in the least significant position. */
  function Pack(bits: seq<bool>): bv32
    decreases |bits|
  {
    if bits == [] then 0 else Xor(Double(Pack(bits[1..])), Bit(bits[0]))
  }

  function LowMask(n: nat): bv32 {
    if n == 0 then 0 else Xor(Double(LowMask(n - 1)), 1)
  }

  predicate Within(p: bv32, m: bv32) {
    p & m == p
  }

  lemma MaskStep(p: bv32, m: bv32, b: bool)
    requires Within(p, m)
    ensures Within(Xor(Double(p), Bit(b)), Xor(Double(m), 1))
  {
    hide Xor;
    XorIsCaret(p << 1, Bit(b));
    XorIsCaret(m << 1, 1);
  }

  lemma {:induction false} PackFits(bits: seq<bool>)
    ensures Within(Pack(bits), LowMask(|bits|))
    decreases |bits|
  {
    if bits != [] {
      hide Xor, Double, Within;
      PackFits(bits[1..]);
      MaskStep(Pack(bits[1..]), LowMask(|bits| - 1), bits[0]);
    }
  }

  lemma {:induction false} LowMaskGrows(n: nat, m: nat)
    requires n <= m
    ensures Within(LowMask(n), LowMask(m))
    decreases n
  {
    if n > 0 {
      hide Xor, Double, Within;
      LowMaskGrows(n - 1, m - 1);
      MaskStep(LowMask(n - 1), LowMask(m - 1), true);
    }
  }

  lemma LowMask31()
    ensures LowMask(31) == 0x7FFF_FFFF
  {
    assert LowMask(8) == 0xFF;
    assert LowMask(16) == 0xFFFF;
    assert LowMask(24) == 0xFF_FFFF;
  }

  lemma WithinTopClear(p: bv32, m: bv32)
    requires Within(p, m) && Within(m, 0x7FFF_FFFF)
    ensures TopClear(p)
  {
  }

  lemma PackTopClear(bits: seq<bool>)
    requires |bits| < 32
    ensures TopClear(Pack(bits))
  {
    hide *;
    PackFits(bits);
    LowMaskGrows(|bits|, 31);
    LowMask31();
    WithinTopClear(Pack(bits), LowMask(|bits|));
  }

  lemma ShiftDoubled(y: bv32)
    requires TopClear(y)
    ensures ShiftBit(Double(y)) == y
  {
  }

  /**
   Clocking in at most 32 bits one at a time is the same as adding the packed
   word first and clocking afterwards.
   */
  lemma {:induction false} SerialIsPacked(c: bv32, bits: seq<bool>)
    requires |bits| <= 32
    ensures Serial(c, bits) == ShiftN(Xor(c, Pack(bits)), |bits|)
    decreases |bits|
  {
    hide Xor, Double, ShiftBit, Bit, TopClear;
    if bits == [] {
      XorUnits(c);
    } else {
      var rest, b := bits[1..], Bit(bits[0]);
      SerialIsPacked(ShiftBit(Xor(c, b)), rest);
      PackTopClear(rest);
      var twice := Double(Pack(rest));
      ShiftDoubled(Pack(rest));
      ShiftLinear(Xor(c, b), twice);
      XorAssoc(c, b, twice);
      XorComm(b, twice);
    }
  }

  lemma PackCons(p: bv32, q: bv32, b: bool, d: bool)
    requires TopClear(p) && TopClear(q)
    requires Xor(Double(p), Bit(b)) == Xor(Double(q), Bit(d))
    ensures p == q && b == d
  {
  }

  lemma {:induction false} PackInjective(u: seq<bool>, v: seq<bool>)
    requires |u| == |v| <= 32
    requires Pack(u) == Pack(v)
    ensures u == v
    decreases |u|
  {
    hide Xor, Double, Bit, TopClear;
    if u != [] {
      PackTopClear(u[1..]);
      PackTopClear(v[1..]);
      PackCons(Pack(u[1..]), Pack(v[1..]), u[0], v[0]);
      PackInjective(u[1..], v[1..]);
      assert u == [u[0]] + u[1..] && v == [v[0]] + v[1..];
    }
  }

  /** The word of eight bits, written out. */
  function Word8(b0: bv32, b1: bv32, b2: bv32, b3: bv32, b4: bv32, b5: bv32, b6: bv32, b7: bv32): bv32 {
    Xor(Double(Xor(Double(Xor(Double(Xor(Double(Xor(Double(Xor(Double(Xor(Double(b7), b6)), b5)), b4)), b3)), b2)), b1)), b0)
  }

  lemma Word8OfByte(b: bv8)
    ensures Word8(Bit(b & 1 == 1), Bit((b >> 1) & 1 == 1), Bit((b >> 2) & 1 == 1), Bit((b >> 3) & 1 == 1),
                  Bit((b >> 4) & 1 == 1), Bit((b >> 5) & 1 == 1), Bit((b >> 6) & 1 == 1), Bit((b >> 7) & 1 == 1))
            == b as bv32
  {
  }

  lemma Pack8(t: seq<bool>)
    requires |t| == 8
    ensures Pack(t) == Word8(Bit(t[0]), Bit(t[1]), Bit(t[2]), Bit(t[3]), Bit(t[4]), Bit(t[5]), Bit(t[6]), Bit(t[7]))
  {
    hide Xor, Double, Bit;
    assert Pack(t) == Xor(Double(Pack(t[1..])), Bit(t[0]));
    assert t[1..][1..] == t[2..];
    assert t[2..][1..] == t[3..];
    assert t[3..][1..] == t[4..];
    assert t[4..][1..] == t[5..];
    assert t[5..][1..] == t[6..];
    assert t[6..][1..] == t[7..];
    assert t[7..][1..] == [];
    assert Pack([]) == 0;
    ZeroWord(Bit(t[7]));
    assert Pack(t[7..]) == Bit(t[7]);
    assert Pack(t[6..]) == Xor(Double(Bit(t[7])), Bit(t[6]));
    assert Pack(t[5..]) == Xor(Double(Pack(t[6..])), Bit(t[5]));
    assert Pack(t[4..]) == Xor(Double(Pack(t[5..])), Bit(t[4]));
    assert Pack(t[3..]) == Xor(Double(Pack(t[4..])), Bit(t[3]));
    assert Pack(t[2..]) == Xor(Double(Pack(t[3..])), Bit(t[2]));
    assert Pack(t[1..]) == Xor(Double(Pack(t[2..])), Bit(t[1]));
  }

  lemma ZeroWord(b: bv32)
    ensures Xor(Double(0), b) == b
  {
  }

  lemma PackOfByte(b: bv8)
    ensures Pack(BitsOf(b)) == b as bv32
  {
    hide Pack, Word8, Bit;
    Pack8(BitsOf(b));
    Word8OfByte(b);
  }

  /** One table step is eight clocks on the byte's bits. */
  lemma ByteStepIsSerial(c: bv32, b: bv8)
    ensures ByteStep(c, b) == Serial(c, BitsOf(b))
  {
    hide Xor, Pack, ByteStep, ShiftN, Serial;
    ByteStepIsShiftN(c, b);
    SerialIsPacked(c, BitsOf(b));
    PackOfByte(b);
  }

  lemma {:induction false} SerialAppend(c: bv32, x: seq<bool>, y: seq<bool>)
    ensures Serial(c, x + y) == Serial(Serial(c, x), y)
    decreases |x|
  {
    hide Xor, ShiftBit, Bit;
    if x == [] {
      assert x + y == y;
    } else {
      assert (x + y)[1..] == x[1..] + y;
      SerialAppend(ShiftBit(Xor(c, Bit(x[0]))), x[1..], y);
    }
  }

  lemma {:induction false} SerialInjective(c: bv32, d: bv32, bits: seq<bool>)
    requires Serial(c, bits) == Serial(d, bits)
    ensures c == d
    decreases |bits|
  {
    hide Xor, ShiftBit, Bit;
    if bits != [] {
      var b := Bit(bits[0]);
      SerialInjective(ShiftBit(Xor(c, b)), ShiftBit(Xor(d, b)), bits[1..]);
      ShiftInjective(Xor(c, b), Xor(d, b));
      XorCancel(c, b);
      XorCancel(d, b);
    }
  }

  // ------------------------------------------------------------- the method

  /** The table-driven loop computes the bit-serial CRC of the whole buffer. */
  method Compute(crc: bv32, buf: seq<bv8>) returns (r: bv32)
    ensures r == BitSerialCrc(crc, buf)
  {
    hide Xor, ByteStep, Serial, BitsOf;
    var c := Xor(crc, ONES);
    var i := 0;
    SerialOfNothing(c);
    assert buf[..0] == [];
    while i < |buf|
      invariant 0 <= i <= |buf|
      invariant c == Serial(Xor(crc, ONES), MessageBits(buf[..i]))
    {
      ByteStepIsSerial(c, buf[i]);
      assert buf[..i + 1][..i] == buf[..i];
      SerialAppend(Xor(crc, ONES), MessageBits(buf[..i]), BitsOf(buf[i]));
      c := ByteStep(c, buf[i]);
      i := i + 1;
    }
    assert buf[..i] == buf;
    r := Xor(c, ONES);
  }

  lemma SerialOfNothing(c: bv32)
    ensures Serial(c, []) == c
  {
  }

  lemma {:induction false} MessageBitsAppend(a: seq<bv8>, b: seq<bv8>)
    ensures MessageBits(a + b) == MessageBits(a) + MessageBits(b)
    decreases |b|
  {
    hide BitsOf;
    if b == [] {
      assert a + b == a;
    } else {
      assert (a + b)[..|a + b| - 1] == a + b[..|b| - 1];
      MessageBitsAppend(a, b[..|b| - 1]);
    }
  }

  /** A checksum can be continued: the CRC of the first part seeds the second. */
  lemma CrcChains(crc: bv32, a: seq<bv8>, b: seq<bv8>)
    ensures BitSerialCrc(BitSerialCrc(crc, a), b) == BitSerialCrc(crc, a + b)
  {
    hide Xor, Serial, MessageBits;
    MessageBitsAppend(a, b);
    SerialAppend(Xor(crc, ONES), MessageBits(a), MessageBits(b));
    XorCancel(Serial(Xor(crc, ONES), MessageBits(a)), ONES);
  }

  lemma CrcOfNothing(crc: bv32)
    ensures BitSerialCrc(crc, []) == crc
  {
    SerialOfNothing(Xor(crc, ONES));
    XorCancel(crc, ONES);
  }

  // ------------------------------------------------------------ residue

  function DoubleN(p: bv32, n: nat): bv32 {
    if n == 0 then p else Double(DoubleN(p, n - 1))
  }

  lemma DoubleLinear(x: bv32, y: bv32)
    ensures Double(Xor(x, y)) == Xor(Double(x), Double(y))
  {
    hide Xor;
    XorIsCaret(x, y);
    XorIsCaret(x << 1, y << 1);
  }

  /** A word packed from two parts. */
  lemma {:induction false} PackAppend(x: seq<bool>, y: seq<bool>)
    ensures Pack(x + y) == Xor(DoubleN(Pack(y), |x|), Pack(x))
    decreases |x|
  {
    hide Xor, Double, Bit;
    if x == [] {
      assert x + y == y;
      XorUnits(Pack(y));
    } else {
      assert (x + y)[1..] == x[1..] + y;
      PackAppend(x[1..], y);
      var high, low := DoubleN(Pack(y), |x| - 1), Pack(x[1..]);
      DoubleLinear(high, low);
      XorAssoc(Double(high), Double(low), Bit(x[0]));
    }
  }

  function Up8(p: bv32): bv32 {
    p << 8
  }

  function Wide(b: bv8): bv32 {
    b as bv32
  }

  lemma DoubledTwice(p: bv32, n: nat)
    ensures DoubleN(p, n + 2) == Double(Double(DoubleN(p, n)))
  {
    hide Double;
    assert DoubleN(p, n + 2) == Double(DoubleN(p, n + 1));
  }

  lemma Doubled(p: bv32)
    ensures Double(Double(Double(Double(Double(Double(Double(Double(p)))))))) == Up8(p)
  {
  }

  lemma Double8(p: bv32)
    ensures DoubleN(p, 8) == Up8(p)
  {
    assert DoubleN(p, 0) == p;
    hide Double, DoubleN, Up8;
    DoubledTwice(p, 0);
    DoubledTwice(p, 2);
    DoubledTwice(p, 4);
    DoubledTwice(p, 6);
    Doubled(p);
  }

  /** A word as four bytes, least significant first. */
  function BytesOf(w: bv32): seq<bv8> {
    [(w & 0xFF) as bv8, ((w >> 8) & 0xFF) as bv8, ((w >> 16) & 0xFF) as bv8, ((w >> 24) & 0xFF) as bv8]
  }

  lemma WordOfBytes(w: bv32)
    ensures var b := BytesOf(w);
            Xor(Up8(Xor(Up8(Xor(Up8(Wide(b[3])), Wide(b[2]))), Wide(b[1]))), Wide(b[0])) == w
  {
  }

  lemma MessageBitsCons(b: bv8, rest: seq<bv8>)
    ensures MessageBits([b] + rest) == BitsOf(b) + MessageBits(rest)
  {
    hide BitsOf;
    MessageBitsAppend([b], rest);
    assert [b][..0] == [] && MessageBits([]) == [];
    assert MessageBits([b]) == MessageBits([b][..0]) + BitsOf(b);
  }

  lemma PackByte(b: bv8)
    ensures |BitsOf(b)| == 8 && Pack(BitsOf(b)) == Wide(b)
  {
    hide Pack;
    PackOfByte(b);
  }

  lemma PackBytes(b: bv8, rest: seq<bv8>)
    ensures Pack(MessageBits([b] + rest)) == Xor(Up8(Pack(MessageBits(rest))), Wide(b))
  {
    hide Xor, Pack, BitsOf, DoubleN, MessageBits, Up8, Wide;
    MessageBitsCons(b, rest);
    PackAppend(BitsOf(b), MessageBits(rest));
    PackByte(b);
    Double8(Pack(MessageBits(rest)));
  }

  lemma PackLast(b: bv8)
    ensures Pack(MessageBits([b])) == Wide(b)
  {
    hide Pack, BitsOf, Wide;
    MessageBitsCons(b, []);
    assert [b] + [] == [b] && BitsOf(b) + [] == BitsOf(b);
    PackByte(b);
  }

  lemma PackOfWord(w: bv32)
    ensures Pack(MessageBits(BytesOf(w))) == w
  {
    var b := BytesOf(w);
    assert b == [b[0]] + ([b[1]] + ([b[2]] + [b[3]]));
    hide Xor, Pack, MessageBits, BytesOf, Up8, Wide;
    PackLast(b[3]);
    PackBytes(b[2], [b[3]]);
    PackBytes(b[1], [b[2]] + [b[3]]);
    PackBytes(b[0], [b[1]] + ([b[2]] + [b[3]]));
    WordOfBytes(w);
  }

  lemma {:induction false} ShiftNAdd(c: bv32, n: nat, m: nat)
    ensures ShiftN(c, n + m) == ShiftN(ShiftN(c, n), m)
    decreases n
  {
    hide ShiftBit;
    if n > 0 {
      ShiftNAdd(ShiftBit(c), n - 1, m);
    }
  }

  /** Thirty-two clocks from the register of all ones. */
  lemma OnesAfter32()
    ensures ShiftN(0xFFFF_FFFF, 32) == 0xDEBB_20E3
  {
    assert Shift8(0xFFFF_FFFF) == 0x2DFD_1072 && Shift8(0x2DFD_1072) == 0xBE26_ED00;
    assert Shift8(0xBE26_ED00) == 0x00BE_26ED && Shift8(0x00BE_26ED) == 0xDEBB_20E3;
    hide Shift8, ShiftN;
    Shift8IsShiftN(0xFFFF_FFFF);
    Shift8IsShiftN(0x2DFD_1072);
    Shift8IsShiftN(0xBE26_ED00);
    Shift8IsShiftN(0x00BE_26ED);
    ShiftNAdd(0xFFFF_FFFF, 8, 8);
    ShiftNAdd(0xFFFF_FFFF, 16, 8);
    ShiftNAdd(0xFFFF_FFFF, 24, 8);
  }

  /**
   The residue law: a message followed by its own checksum, least significant
   byte first, always has the checksum 0x2144DF1C. It holds only with the
   inversions before and after.
   */
  lemma Residue(buf: seq<bv8>)
    ensures BitSerialCrc(0, buf + BytesOf(BitSerialCrc(0, buf))) == 0x2144_DF1C
  {
    var crc := BitSerialCrc(0, buf);
    assert |MessageBits(BytesOf(crc))| == 32;
    assert Xor(0xDEBB_20E3, 0xFFFF_FFFF) == 0x2144_DF1C;
    CrcChains(0, buf, BytesOf(crc));
    OnesAfter32();
    hide Xor, Serial, MessageBits, Pack, ShiftN, BytesOf;
    SerialIsPacked(Xor(crc, ONES), MessageBits(BytesOf(crc)));
    PackOfWord(crc);
    XorSwapLast(crc, ONES, crc);
    XorUnits(crc);
    XorComm(0, ONES);
    XorUnits(ONES);
  }

  lemma SerialByte(c: bv32, b: bv8)
    ensures Serial(c, BitsOf(b)) == Shift8(Xor(c, Wide(b)))
  {
    hide Xor, Serial, Shift8, ShiftN, ByteStep, BitsOf;
    ByteStepIsSerial(c, b);
    ByteStepIsShiftN(c, b);
    Shift8IsShiftN(Xor(c, Wide(b)));
  }

  /** One byte more. */
  lemma SerialNext(c: bv32, buf: seq<bv8>, b: bv8)
    ensures Serial(c, MessageBits(buf + [b])) == Shift8(Xor(Serial(c, MessageBits(buf)), Wide(b)))
  {
    assert (buf + [b])[..|buf + [b]| - 1] == buf;
    assert MessageBits(buf + [b]) == MessageBits(buf) + BitsOf(b);
    hide Xor, Serial, Shift8, BitsOf, MessageBits;
    SerialAppend(c, MessageBits(buf), BitsOf(b));
    SerialByte(Serial(c, MessageBits(buf)), b);
  }

  /** The checksum of a single zero byte: it leaves its trace. */
  lemma CheckZero()
    ensures BitSerialCrc(0, [0]) == 0xD202_EF8D
  {
    assert Shift8(Xor(Xor(0, 0xFFFF_FFFF), Wide(0))) == 0x2DFD_1072 && Xor(0x2DFD_1072, 0xFFFF_FFFF) == 0xD202_EF8D;
    assert Serial(Xor(0, ONES), MessageBits([])) == Xor(0, ONES);
    hide Xor, Serial, Shift8, MessageBits;
    SerialNext(Xor(0, ONES), [], 0);
    assert [] + [0 as bv8] == [0];
  }

  // --------------------------------------------------------- error detection

  lemma BitsOfInjective(b: bv8, d: bv8)
    requires BitsOf(b) == BitsOf(d)
    ensures b == d
  {
    hide Pack, BitsOf;
    PackOfByte(b);
    PackOfByte(d);
    assert (b as bv32) as bv8 == b && (d as bv32) as bv8 == d;
  }

  lemma {:induction false} MessageBitsInjective(a: seq<bv8>, b: seq<bv8>)
    requires |a| == |b|
    requires MessageBits(a) == MessageBits(b)
    ensures a == b
    decreases |a|
  {
    if a != [] {
      hide BitsOf;
      var n := |a| - 1;
      var x, y := MessageBits(a), MessageBits(b);
      assert x[..8 * n] == MessageBits(a[..n]);
      assert x[8 * n..] == BitsOf(a[n]);
      assert y[..8 * n] == MessageBits(b[..n]);
      assert y[8 * n..] == BitsOf(b[n]);
      MessageBitsInjective(a[..n], b[..n]);
      BitsOfInjective(a[n], b[n]);
      assert a == a[..n] + [a[n]] && b == b[..n] + [b[n]];
    }
  }

  /**
   The images agree on every transmitted bit outside a window of 32 bits
   that starts at bit number `start`.
   */
  ghost predicate AgreeOutsideBurst(a: seq<bv8>, b: seq<bv8>, start: nat) {
    && |a| == |b|
    && forall k :: 0 <= k < 8 * |a| && !(start <= k < start + 32) ==> MessageBits(a)[k] == MessageBits(b)[k]
  }

  /** A difference of at most 32 bits can be undone by no later bits. */
  lemma BurstChangesRegister(c: bv32, head: seq<bool>, u: seq<bool>, v: seq<bool>, tail: seq<bool>)
    requires |u| == |v| <= 32 && u != v
    ensures Serial(c, head + u + tail) != Serial(c, head + v + tail)
  {
    hide Xor, Serial, ShiftN, Pack;
    SerialAppend(c, head + u, tail);
    SerialAppend(c, head, u);
    SerialAppend(c, head + v, tail);
    SerialAppend(c, head, v);
    var s := Serial(c, head);
    if Serial(c, head + u + tail) == Serial(c, head + v + tail) {
      SerialInjective(Serial(s, u), Serial(s, v), tail);
      SerialIsPacked(s, u);
      SerialIsPacked(s, v);
      ShiftNInjective(Xor(s, Pack(u)), Xor(s, Pack(v)), |u|);
      XorComm(s, Pack(u));
      XorComm(s, Pack(v));
      XorCancel(Pack(u), s);
      XorCancel(Pack(v), s);
      PackInjective(u, v);
      assert false;
    }
  }

  /** Every non-empty error burst of at most 32 bits changes the checksum. */
  lemma BurstDetected(crc: bv32, a: seq<bv8>, b: seq<bv8>, start: nat)
    requires AgreeOutsideBurst(a, b, start)
    requires a != b
    ensures BitSerialCrc(crc, a) != BitSerialCrc(crc, b)
  {
    hide Xor, Serial, MessageBits;
    var x, y := MessageBits(a), MessageBits(b);
    if x == y {
      MessageBitsInjective(a, b);
      assert false;
    }
    var p := if start <= |x| then start else |x|;
    var q := if start + 32 <= |x| then start + 32 else |x|;
    assert x[..p] == y[..p] && x[q..] == y[q..];
    assert x == x[..p] + x[p..q] + x[q..] && y == y[..p] + y[p..q] + y[q..];
    BurstChangesRegister(Xor(crc, ONES), x[..p], x[p..q], y[p..q], x[q..]);
    XorCancel(Serial(Xor(crc, ONES), x), ONES);
    XorCancel(Serial(Xor(crc, ONES), y), ONES);
  }
}
