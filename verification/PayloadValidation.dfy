/**
 The monitor's decision on a payload image before it enters it.
 */
module PayloadValidation {
  import opened Crc32

  datatype Response = CrcOk | CrcMismatched | ImageMalformed | AbiIncompatible

  const HEADER_SIZE: nat := 32
  const ABI_MAGIC_NUMBER: bv32 := 0x6F626D42
  const ABI_MAJOR: bv8 := 2
  const ABI_MINOR: bv8 := 0

  /** A little-endian 32-bit field of the header. */
  function Word32(bytes: seq<bv8>): bv32
    requires |bytes| == 4
  {
    (bytes[0] as bv32) | ((bytes[1] as bv32) << 8) | ((bytes[2] as bv32) << 16) | ((bytes[3] as bv32) << 24)
  }

  /** The header carries the magic number and an ABI this monitor can serve. */
  predicate MagicOk(memory: seq<bv8>)
    requires |memory| >= HEADER_SIZE
  {
    Word32(memory[8..12]) == ABI_MAGIC_NUMBER
  }

  predicate AbiOk(memory: seq<bv8>)
    requires |memory| >= HEADER_SIZE
  {
    memory[12] == ABI_MAJOR && memory[13] <= ABI_MINOR
  }

  /**
   What the monitor may answer for an image at the start of `memory`. The
   header is read whole whatever the size is, so 32 bytes must be readable.
   */
  ghost predicate Answers(memory: seq<bv8>, imageSize: nat, crcExpected: bv32, r: Response)
    requires |memory| >= HEADER_SIZE && |memory| >= imageSize
  {
    var intact := BitSerialCrc(0, memory[..imageSize]) == crcExpected;
    && (r == CrcMismatched <==> !intact)
    && (r == ImageMalformed <==> intact && !MagicOk(memory))
    && (r == AbiIncompatible <==> intact && MagicOk(memory) && !AbiOk(memory))
    && (r == CrcOk <==> intact && MagicOk(memory) && AbiOk(memory))
  }

  method ValidatePayload(memory: seq<bv8>, imageSize: nat, crcExpected: bv32) returns (r: Response)
    requires |memory| >= HEADER_SIZE && |memory| >= imageSize
    ensures Answers(memory, imageSize, crcExpected, r)
  {
    hide BitSerialCrc, Word32;
    var crcGotten := Compute(0, memory[..imageSize]);
    if crcGotten != crcExpected {
      return CrcMismatched;
    }
    if Word32(memory[8..12]) != ABI_MAGIC_NUMBER {
      return ImageMalformed;
    }
    if memory[12] != ABI_MAJOR || memory[13] > ABI_MINOR {
      return AbiIncompatible;
    }
    return CrcOk;
  }

  lemma WordBytes(bytes: seq<bv8>)
    requires |bytes| == 4
    ensures Word32(bytes) == 0x6F62_6D42 <==>
              bytes[0] == 0x42 && bytes[1] == 0x6D && bytes[2] == 0x62 && bytes[3] == 0x6F
  {
  }

  /** The header as it lies in memory: "Bmbo" at offset 8, ABI 2.0 at offset 12. */
  lemma HeaderInMemory(memory: seq<bv8>)
    requires |memory| >= 32
    ensures MagicOk(memory) <==> memory[8..12] == [0x42, 0x6D, 0x62, 0x6F]
    ensures AbiOk(memory) <==> memory[12..14] == [2, 0]
  {
    hide Word32;
    WordBytes(memory[8..12]);
  }

  /**
   A stored image that differs from the one whose checksum was sent by one
   non-empty error burst of at most 32 bits is always answered with a mismatch,
   whatever the length of the image and the place of the burst.
   */
  lemma BurstRejected(memory: seq<bv8>, sent: seq<bv8>, start: nat, r: Response)
    requires |memory| >= HEADER_SIZE && |memory| >= |sent|
    requires memory[..|sent|] != sent
    requires AgreeOutsideBurst(sent, memory[..|sent|], start)
    requires Answers(memory, |sent|, BitSerialCrc(0, sent), r)
    ensures r == CrcMismatched
  {
    hide BitSerialCrc, AgreeOutsideBurst;
    BurstDetected(0, sent, memory[..|sent|], start);
  }

  /**
   An ELF image is announced with size 0 and checksum 0: the checksum test
   then passes on every memory content and only the header decides.
   */
  lemma ElfPassesChecksum(memory: seq<bv8>, r: Response)
    requires |memory| >= HEADER_SIZE
    requires Answers(memory, 0, 0, r)
    ensures r != CrcMismatched
    ensures r == CrcOk <==> MagicOk(memory) && AbiOk(memory)
  {
    hide BitSerialCrc;
    assert memory[..0] == [];
    CrcOfNothing(0);
  }
}
