/**
 The static translation tables: how the assembler source emits them, and what
 the memory management unit makes of them (VMSAv8-64 with 4 KB granule,
 chapter D4 of ARM DDI 0487A.k). 40-bit addresses start at level 0.
 */
module MmuTables {

  const GB: nat := 0x4000_0000
  const MB2: nat := 0x20_0000
  const TABLE_BYTES: nat := 0x1000

  // Descriptor attributes as the source defines them.
  const RESERVED: nat := 0
  const MEMORY: nat := 0x625
  const DEVICE: nat := 0x409 + 0x20_0000_0000_0000 + 0x40_0000_0000_0000
  const TABLE: nat := 3

  /** MAIR_EL3 and MAIR_EL1 as the boot code sets them. */
  const MAIR: nat := 0x0000_00BB_0400_FF44

  datatype MemoryType = NormalWriteBack | StronglyOrdered | OtherType

  datatype Shareability = NonShareable | OuterShareable | InnerShareable | ReservedShareability

  /** Who may do what: writing, execution at either privilege, visibility to other masters. */
  datatype Access = Access(writable: bool, nonSecure: bool, share: Shareability, privilegedExecute: bool, execute: bool)

  datatype Translation = Fault | Mapped(output: nat, kind: MemoryType, access: Access)

  // ------------------------------------------------------- the documented map

  /** Normal memory: write-back, read-write, non-secure, outer shareable. */
  function Memory(a: nat): Translation {
    Mapped(a, NormalWriteBack, Access(true, true, OuterShareable, true, true))
  }

  /** Devices: strongly ordered, read-write, never executable. */
  function Device(a: nat): Translation {
    Mapped(a, StronglyOrdered, Access(true, false, NonShareable, false, false))
  }

  /** The memory map in the header comment of the source. */
  function Documented(a: nat): Translation {
    if a < 0x8000_0000 then Memory(a)                     // DDR
    else if a < 0xF000_0000 then Device(a)                // PL, QSPI, lower PCIe
    else if a < 0xF800_0000 then Fault                    // reserved
    else if a < 0xF920_0000 then Device(a)                // STM Coresight, GIC
    else if a < 0xFD00_0000 then Fault                    // reserved
    else if a < 0xFFE0_0000 then Device(a)                // FPS, LPS, CSU, PMU
    else if a < 0x1_0000_0000 then Memory(a)              // TCM, OCM
    else if a < 0x4_0000_0000 then Fault                  // reserved
    else if a < 0x8_0000_0000 then Device(a)              // PL, PCIe
    else if a < 0x10_0000_0000 then Memory(a)             // DDR
    else if a < 0xC0_0000_0000 then Device(a)             // PL, PCIe
    else Fault                                            // reserved
  }

  /** Whole blocks of the memory that is present; the rest of the window stays reserved. */
  function DdrBlocks(size: nat, window: nat, block: nat): nat
    requires block > 0
  {
    if size > window then window / block else size / block
  }

  const DDR_0_WINDOW: nat := 0x8000_0000
  const DDR_1_WINDOW: nat := 0x8_0000_0000

  /** Addresses in a DDR window whose block, 2 MB or 1 GB, the memory does not fill. */
  predicate Absent(a: nat, ddr0: nat, ddr1: nat) {
    || (a < 0x8000_0000 && ddr0 < (a / 0x20_0000 + 1) * 0x20_0000)
    || (0x8_0000_0000 <= a < 0x10_0000_0000 && ddr1 < (a / 0x4000_0000 - 32 + 1) * 0x4000_0000)
  }

  // --------------------------------------------------------------- the builder

  /** Entries of the level 1 tables, by the gigabyte they cover. */
  function Level1Attribute(k: nat, ddr1: nat): nat {
    if k < 16 then RESERVED
    else if k < 32 then DEVICE
    else if k < 32 + DdrBlocks(ddr1, DDR_1_WINDOW, GB) then MEMORY
    else if k < 64 then RESERVED
    else if k < 768 then DEVICE
    else RESERVED
  }

  /** Entries of the level 2 tables, by the 2 MB block they cover. */
  function Level2Attribute(k: nat, ddr0: nat): nat {
    if k < DdrBlocks(ddr0, DDR_0_WINDOW, MB2) then MEMORY
    else if k < 0x400 then RESERVED
    else if k < 0x780 then DEVICE
    else if k < 0x7C0 then RESERVED
    else if k < 0x7C9 then DEVICE
    else if k < 0x7E8 then RESERVED
    else if k < 0x7FF then DEVICE
    else MEMORY
  }

  /** A section of the output under construction and the assembler symbol SECT. */
  class Section {
    var out: seq<nat>
    var sect: nat

    constructor ()
      ensures out == [] && sect == 0
    {
      out, sect := [], 0;
    }

    /** Entry, then SECT moved on by one gigabyte, `count` times. */
    method ReptGigabytes(count: nat, attribute: nat)
      requires sect == GB * |out|
      modifies this
      ensures |out| == old(|out|) + count && sect == GB * |out|
      ensures forall k :: 0 <= k < old(|out|) ==> out[k] == old(out)[k]
      ensures forall k :: old(|out|) <= k < |out| ==> out[k] == GB * k + attribute
    {
      for i := 0 to count
        invariant |out| == old(|out|) + i && sect == GB * |out|
        invariant forall k :: 0 <= k < old(|out|) ==> out[k] == old(out)[k]
        invariant forall k :: old(|out|) <= k < |out| ==> out[k] == GB * k + attribute
      {
        out := out + [sect + attribute];
        sect := sect + GB;
      }
    }

    /** The same in steps of 2 MB. */
    method ReptBlocks(count: nat, attribute: nat)
      requires sect == MB2 * |out|
      modifies this
      ensures |out| == old(|out|) + count && sect == MB2 * |out|
      ensures forall k :: 0 <= k < old(|out|) ==> out[k] == old(out)[k]
      ensures forall k :: old(|out|) <= k < |out| ==> out[k] == MB2 * k + attribute
    {
      for i := 0 to count
        invariant |out| == old(|out|) + i && sect == MB2 * |out|
        invariant forall k :: 0 <= k < old(|out|) ==> out[k] == old(out)[k]
        invariant forall k :: old(|out|) <= k < |out| ==> out[k] == MB2 * k + attribute
      {
        out := out + [sect + attribute];
        sect := sect + MB2;
      }
    }

    /** Pointers to consecutive tables. */
    method PointToTables(count: nat, base: nat)
      requires count > 0
      modifies this
      ensures |out| == old(|out|) + count
      ensures forall k :: 0 <= k < old(|out|) ==> out[k] == old(out)[k]
      ensures forall k :: old(|out|) <= k < |out| ==> out[k] == base + TABLE_BYTES * (k - old(|out|)) + TABLE
    {
      sect := base;
      out := out + [sect + TABLE];
      for i := 1 to count
        invariant |out| == old(|out|) + i && sect == base + TABLE_BYTES * (i - 1)
        invariant forall k :: 0 <= k < old(|out|) ==> out[k] == old(out)[k]
        invariant forall k :: old(|out|) <= k < |out| ==> out[k] == base + TABLE_BYTES * (k - old(|out|)) + TABLE
      {
        sect := sect + TABLE_BYTES;
        out := out + [sect + TABLE];
      }
    }
  }

  /** Section .mmu_tbl0. */
  method BuildLevel0(level1: nat) returns (table: seq<nat>)
    ensures table == [level1 + TABLE, level1 + TABLE_BYTES + TABLE]
  {
    var s := new Section();
    s.PointToTables(2, level1);
    table := s.out;
  }

  /** Section .mmu_tbl1: two full tables, for any amount of upper memory. */
  method BuildLevel1(level2: nat, ddr1: nat) returns (table: seq<nat>)
    ensures |table| == 1024
    ensures forall k :: 0 <= k < 4 ==> table[k] == level2 + TABLE_BYTES * k + TABLE
    ensures forall k :: 4 <= k < 1024 ==> table[k] == GB * k + Level1Attribute(k, ddr1)
  {
    var s := new Section();
    s.PointToTables(4, level2);
    s.sect := 0x1_0000_0000;
    s.ReptGigabytes(0xC, RESERVED);
    s.ReptGigabytes(0x10, DEVICE);
    var ddr1Entries := if ddr1 > 0x8_0000_0000 then 0x20 else ddr1 / GB;
    s.ReptGigabytes(ddr1Entries, MEMORY);
    s.ReptGigabytes(0x20 - ddr1Entries, RESERVED);
    s.ReptGigabytes(0x1C0, DEVICE);
    s.ReptGigabytes(0x100, DEVICE);
    s.ReptGigabytes(0x100, RESERVED);
    table := s.out;
  }

  /** The entries emitted so far carry the attributes of their blocks. */
  ghost predicate Level2Holds(out: seq<nat>, ddr0: nat) {
    forall k :: 0 <= k < |out| ==> out[k] == MB2 * k + Level2Attribute(k, ddr0)
  }

  /** Section .mmu_tbl2: four full tables, for any amount of lower memory. */
  method BuildLevel2(ddr0: nat) returns (table: seq<nat>)
    ensures |table| == 2048
    ensures Level2Holds(table, ddr0)
  {
    var s := new Section();
    var ddr0Entries := if ddr0 > 0x8000_0000 then 0x400 else ddr0 / MB2;
    s.ReptBlocks(ddr0Entries, MEMORY);
    assert Level2Holds(s.out, ddr0);
    s.ReptBlocks(0x400 - ddr0Entries, RESERVED);
    assert Level2Holds(s.out, ddr0);
    s.ReptBlocks(0x200, DEVICE);
    assert Level2Holds(s.out, ddr0);
    s.ReptBlocks(0x100, DEVICE);
    assert Level2Holds(s.out, ddr0);
    s.ReptBlocks(0x80, DEVICE);
    assert Level2Holds(s.out, ddr0);
    s.ReptBlocks(0x40, RESERVED);
    assert Level2Holds(s.out, ddr0);
    table := FinishLevel2(s, ddr0);
  }

  /** The part of .mmu_tbl2 from 0xF800_0000 on. */
  method FinishLevel2(s: Section, ghost ddr0: nat) returns (table: seq<nat>)
    requires |s.out| == 0x7C0 && s.sect == MB2 * |s.out| && Level2Holds(s.out, ddr0)
    modifies s
    ensures |table| == 2048
    ensures Level2Holds(table, ddr0)
  {
    s.ReptBlocks(0x8, DEVICE);
    s.ReptBlocks(0x1, DEVICE);
    assert Level2Holds(s.out, ddr0);
    s.ReptBlocks(0x1F, RESERVED);
    assert Level2Holds(s.out, ddr0);
    s.ReptBlocks(0x8, DEVICE);
    s.ReptBlocks(0xE, DEVICE);
    assert Level2Holds(s.out, ddr0);
    s.ReptBlocks(0x1, DEVICE);
    s.ReptBlocks(0x1, MEMORY);
    table := s.out;
  }

  // ----------------------------------------------------------- the table walk

  /** The tables and the physical addresses the linker gives them. */
  datatype Tables = Tables(level0: seq<nat>, level1: seq<nat>, level2: seq<nat>, base0: nat, base1: nat, base2: nat)

  predicate Placed(t: Tables) {
    && |t.level0| == 2 && |t.level1| == 1024 && |t.level2| == 2048
    && t.base0 % TABLE_BYTES == 0 && t.base1 % TABLE_BYTES == 0 && t.base2 % TABLE_BYTES == 0
    && t.base0 + 16 <= t.base1 && t.base1 + 8 * 1024 <= t.base2
    && t.base2 + 8 * 2048 <= 0x1_0000_0000_0000
  }

  /** The 64-bit word at a physical address, if it belongs to the tables. */
  function Fetch(t: Tables, address: nat): nat {
    if t.base0 <= address < t.base0 + 8 * |t.level0| then t.level0[(address - t.base0) / 8]
    else if t.base1 <= address < t.base1 + 8 * |t.level1| then t.level1[(address - t.base1) / 8]
    else if t.base2 <= address < t.base2 + 8 * |t.level2| then t.level2[(address - t.base2) / 8]
    else 0
  }

  /** Bits 47:12 of a descriptor. */
  function NextTable(descriptor: nat): nat {
    descriptor / 0x1000 % 0x10_0000_0000 * 0x1000
  }

  predicate IsTable(descriptor: nat) {
    descriptor % 4 == 3
  }

  /** Valid, a block, and its access flag set. */
  predicate IsBlock(descriptor: nat) {
    descriptor % 4 == 1 && descriptor / 0x400 % 2 == 1
  }

  /** The attribute field selects a byte of MAIR. */
  function Kind(descriptor: nat): MemoryType {
    var index := descriptor / 4 % 8;
    var attribute :=
      if index == 0 then MAIR % 256
      else if index == 1 then MAIR / 0x100 % 256
      else if index == 2 then MAIR / 0x1_0000 % 256
      else if index == 3 then MAIR / 0x100_0000 % 256
      else if index == 4 then MAIR / 0x1_0000_0000 % 256
      else 0x44;
    if attribute == 0xFF then NormalWriteBack
    else if attribute == 0 then StronglyOrdered
    else OtherType
  }

  const BIT_53: nat := 0x20_0000_0000_0000

  /** Access permission (bit 7), security (5), shareability (9:8), execute-never (54:53). */
  function Rights(d: nat): Access {
    var share := d / 0x100 % 4;
    Access(d / 0x80 % 2 == 0, d / 0x20 % 2 == 1,
           if share == 0 then NonShareable
           else if share == 2 then OuterShareable
           else if share == 3 then InnerShareable
           else ReservedShareability,
           d / BIT_53 % 2 == 0, d / BIT_53 / 2 % 2 == 0)
  }

  function Walk(t: Tables, a: nat): Translation {
    var d0 := Fetch(t, t.base0 + 8 * (a / 0x80_0000_0000 % 512));
    if !IsTable(d0) then Fault
    else
      var d1 := Fetch(t, NextTable(d0) + 8 * (a / GB % 512));
      if IsBlock(d1) then Mapped(d1 / GB % 0x4_0000 * GB + a % GB, Kind(d1), Rights(d1))
      else if !IsTable(d1) then Fault
      else
        var d2 := Fetch(t, NextTable(d1) + 8 * (a / MB2 % 512));
        if IsBlock(d2) then Mapped(d2 / MB2 % 0x800_0000 * MB2 + a % MB2, Kind(d2), Rights(d2))
        else Fault
  }

  /** The tables hold what the builders emit. */
  ghost predicate Built(t: Tables, ddr0: nat, ddr1: nat) {
    && Placed(t)
    && t.level0 == [t.base1 + TABLE, t.base1 + TABLE_BYTES + TABLE]
    && (forall k :: 0 <= k < 4 ==> t.level1[k] == t.base2 + TABLE_BYTES * k + TABLE)
    && (forall k :: 4 <= k < 1024 ==> t.level1[k] == GB * k + Level1Attribute(k, ddr1))
    && Level2Holds(t.level2, ddr0)
  }

  method BuildTables(base0: nat, base1: nat, base2: nat, ddr0: nat, ddr1: nat) returns (t: Tables)
    requires base0 % TABLE_BYTES == 0 && base1 % TABLE_BYTES == 0 && base2 % TABLE_BYTES == 0
    requires base0 + 16 <= base1 && base1 + 8 * 1024 <= base2 && base2 + 8 * 2048 <= 0x1_0000_0000_0000
    ensures Built(t, ddr0, ddr1)
    ensures t.base0 == base0 && t.base1 == base1 && t.base2 == base2
  {
    var l0 := BuildLevel0(base1);
    var l1 := BuildLevel1(base2, ddr1);
    var l2 := BuildLevel2(ddr0);
    t := Tables(l0, l1, l2, base0, base1, base2);
  }

  // ------------------------------------------------------------------ the proof

  lemma TablePointer(base: nat, k: nat)
    requires base % TABLE_BYTES == 0 && k < 4 && base + TABLE_BYTES * k < 0x1_0000_0000_0000
    ensures IsTable(base + TABLE_BYTES * k + TABLE)
    ensures !IsBlock(base + TABLE_BYTES * k + TABLE)
    ensures NextTable(base + TABLE_BYTES * k + TABLE) == base + TABLE_BYTES * k
  {
    var page := base / TABLE_BYTES + k;
    var d := base + TABLE_BYTES * k + TABLE;
    By4(d, 0x400 * page, 3);
    By4K(d, page, 3);
  }

  // Quotient and remainder, one divisor at a time.

  lemma By2(n: nat, q: nat, r: nat)
    requires n == 2 * q + r && r < 2
    ensures n / 2 == q && n % 2 == r
  {
  }

  lemma By4(n: nat, q: nat, r: nat)
    requires n == 4 * q + r && r < 4
    ensures n / 4 == q && n % 4 == r
  {
  }

  lemma By8(n: nat, q: nat, r: nat)
    requires n == 8 * q + r && r < 8
    ensures n / 8 == q && n % 8 == r
  {
  }

  lemma By32(n: nat, q: nat, r: nat)
    requires n == 0x20 * q + r && r < 0x20
    ensures n / 0x20 == q
  {
  }

  lemma By128(n: nat, q: nat, r: nat)
    requires n == 0x80 * q + r && r < 0x80
    ensures n / 0x80 == q
  {
  }

  lemma By256(n: nat, q: nat, r: nat)
    requires n == 0x100 * q + r && r < 0x100
    ensures n / 0x100 == q
  {
  }

  lemma By1K(n: nat, q: nat, r: nat)
    requires n == 0x400 * q + r && r < 0x400
    ensures n / 0x400 == q && n % 0x400 == r
  {
  }

  lemma By4K(n: nat, q: nat, r: nat)
    requires n == 0x1000 * q + r && r < 0x1000
    ensures n / 0x1000 == q && n % 0x1000 == r
  {
  }

  lemma FetchLevel0(t: Tables, i: nat)
    requires Placed(t) && i < 2
    ensures Fetch(t, t.base0 + 8 * i) == t.level0[i]
  {
  }

  lemma FetchLevel1(t: Tables, k: nat)
    requires Placed(t) && k < 1024
    ensures Fetch(t, t.base1 + 8 * k) == t.level1[k]
  {
  }

  lemma FetchLevel2(t: Tables, k: nat)
    requires Placed(t) && k < 2048
    ensures Fetch(t, t.base2 + 8 * k) == t.level2[k]
  {
  }

  lemma GigabyteIndex(a: nat)
    requires a < 0x100_0000_0000
    ensures a / 0x80_0000_0000 < 2 && a / 0x80_0000_0000 % 512 == a / 0x80_0000_0000
    ensures a / GB < 1024 && TABLE_BYTES * (a / 0x80_0000_0000) + 8 * (a / GB % 512) == 8 * (a / GB)
  {
    assert a / 0x80_0000_0000 == a / GB / 512;
  }

  lemma BlockIndex(a: nat)
    requires a < 0x1_0000_0000
    ensures a / GB < 4 && a / MB2 < 2048
    ensures TABLE_BYTES * (a / GB) + 8 * (a / MB2 % 512) == 8 * (a / MB2)
  {
    assert a / GB == a / MB2 / 512;
  }

  /** What the walk finds at level 1. */
  lemma ReachLevel1(t: Tables, ddr0: nat, ddr1: nat, a: nat)
    requires Built(t, ddr0, ddr1) && a < 0x100_0000_0000
    ensures var d0 := Fetch(t, t.base0 + 8 * (a / 0x80_0000_0000 % 512));
            a / GB < 1024 && IsTable(d0) && Fetch(t, NextTable(d0) + 8 * (a / GB % 512)) == t.level1[a / GB]
  {
    var h := a / 0x80_0000_0000;
    var k := a / GB;
    GigabyteIndex(a);
    FetchLevel0(t, h);
    TablePointer(t.base1, h);
    FetchLevel1(t, k);
  }

  /** What the walk finds at level 2, for the first four gigabytes. */
  lemma ReachLevel2(t: Tables, ddr0: nat, ddr1: nat, a: nat)
    requires Built(t, ddr0, ddr1) && a < 0x1_0000_0000
    ensures var d1 := t.level1[a / GB];
            IsTable(d1) && !IsBlock(d1) && Fetch(t, NextTable(d1) + 8 * (a / MB2 % 512)) == t.level2[a / MB2]
  {
    var j := a / GB;
    var k := a / MB2;
    BlockIndex(a);
    TablePointer(t.base2, j);
    FetchLevel2(t, k);
  }

  /** The low bits of an entry are those of its attribute. */
  lemma LowBits(d: nat, m: nat, low: nat)
    requires d == 0x800 * m + low && (low == 0 || low == 0x409 || low == 0x625)
    ensures d % 4 == low % 4 && d / 4 % 8 == low / 4 % 8 && d / 0x400 % 2 == low / 0x400
  {
    By4(d, 0x200 * m + low / 4, low % 4);
    By8(d / 4, 0x40 * m + low / 4 / 8, low / 4 % 8);
    By1K(d, 2 * m + low / 0x400, low % 0x400);
    By2(d / 0x400, m, low / 0x400);
  }

  lemma AttributeBits(d: nat, m: nat, attribute: nat)
    requires attribute == RESERVED || attribute == MEMORY || attribute == DEVICE
    requires d == 0x800 * m + attribute
    ensures if attribute == RESERVED then !IsBlock(d) && !IsTable(d)
            else IsBlock(d) && Kind(d) == if attribute == MEMORY then NormalWriteBack else StronglyOrdered
  {
    hide IsBlock, IsTable, Kind;
    if attribute == DEVICE {
      LowBits(d, m + 0xC00_0000_0000, 0x409);
      DeviceBits(d);
    } else if attribute == MEMORY {
      LowBits(d, m, MEMORY);
      MemoryBits(d);
    } else {
      LowBits(d, m, RESERVED);
      ReservedBits(d);
    }
  }

  /** The access fields of an entry are those of its attribute. */
  lemma MiddleBits(d: nat, m: nat, low: nat)
    requires d == 0x800 * m + low && (low == 0x409 || low == 0x625)
    ensures d / 0x20 % 2 == low / 0x20 % 2 && d / 0x80 % 2 == low / 0x80 % 2 && d / 0x100 % 4 == low / 0x100 % 4
  {
    By32(d, 0x40 * m + low / 0x20, low % 0x20);
    By2(d / 0x20, 0x20 * m + low / 0x20 / 2, low / 0x20 % 2);
    By128(d, 0x10 * m + low / 0x80, low % 0x80);
    By2(d / 0x80, 8 * m + low / 0x80 / 2, low / 0x80 % 2);
    By256(d, 8 * m + low / 0x100, low % 0x100);
    By4(d / 0x100, 2 * m + low / 0x100 / 4, low / 0x100 % 4);
  }

  lemma TopBits(d: nat, below: nat, device: bool)
    requires below < BIT_53 && d == below + if device then 3 * BIT_53 else 0
    ensures d / BIT_53 == if device then 3 else 0
  {
  }

  /** The rights of an entry for an address below 2^40. */
  lemma RightsOf(d: nat, m: nat, attribute: nat)
    requires attribute == MEMORY || attribute == DEVICE
    requires d == 0x800 * m + attribute && 0x800 * m < 0x100_0000_0000
    ensures Rights(d) == if attribute == MEMORY then Memory(0).access else Device(0).access
  {
    if attribute == DEVICE {
      MiddleBits(d, m + 0xC00_0000_0000, 0x409);
      TopBits(d, 0x800 * m + 0x409, true);
    } else {
      MiddleBits(d, m, 0x625);
      TopBits(d, d, false);
    }
  }

  lemma DeviceBits(d: nat)
    requires d % 4 == 1 && d / 4 % 8 == 2 && d / 0x400 % 2 == 1
    ensures IsBlock(d) && Kind(d) == StronglyOrdered
  {
  }

  lemma MemoryBits(d: nat)
    requires d % 4 == 1 && d / 4 % 8 == 1 && d / 0x400 % 2 == 1
    ensures IsBlock(d) && Kind(d) == NormalWriteBack
  {
  }

  lemma ReservedBits(d: nat)
    requires d % 4 == 0
    ensures !IsBlock(d) && !IsTable(d)
  {
  }

  lemma GigabyteNumber(k: nat, low: nat, top: nat)
    requires k < 1024 && low < GB && (top == 0 || top == 0x180_0000)
    ensures (GB * k + low + GB * top) / GB % 0x4_0000 == k
  {
    var d := GB * k + low + GB * top;
    assert d == GB * (k + top) + low;
    assert d / GB == k + top;
  }

  lemma BlockNumber(k: nat, low: nat, top: nat)
    requires k < 2048 && low < MB2 && (top == 0 || top == 0x3_0000_0000)
    ensures (MB2 * k + low + MB2 * top) / MB2 % 0x800_0000 == k
  {
    var d := MB2 * k + low + MB2 * top;
    assert d == MB2 * (k + top) + low;
    assert d / MB2 == k + top;
  }

  /** The fields of a 1 GB entry. */
  lemma GigabyteEntry(k: nat, attribute: nat)
    requires k < 1024 && (attribute == RESERVED || attribute == MEMORY || attribute == DEVICE)
    ensures var d := GB * k + attribute;
            if attribute == RESERVED then !IsBlock(d) && !IsTable(d)
            else IsBlock(d) && d / GB % 0x4_0000 == k &&
                 Mapped(0, Kind(d), Rights(d)) == if attribute == MEMORY then Memory(0) else Device(0)
  {
    hide IsBlock, IsTable, Kind, Rights;
    AttributeBits(GB * k + attribute, 0x8_0000 * k, attribute);
    if attribute != RESERVED {
      RightsOf(GB * k + attribute, 0x8_0000 * k, attribute);
    }
    if attribute == DEVICE {
      GigabyteNumber(k, 0x409, 0x180_0000);
    } else {
      GigabyteNumber(k, attribute, 0);
    }
  }

  /** The fields of a 2 MB entry. */
  lemma BlockEntry(k: nat, attribute: nat)
    requires k < 2048 && (attribute == RESERVED || attribute == MEMORY || attribute == DEVICE)
    ensures var d := MB2 * k + attribute;
            if attribute == RESERVED then !IsBlock(d)
            else IsBlock(d) && d / MB2 % 0x800_0000 == k &&
                 Mapped(0, Kind(d), Rights(d)) == if attribute == MEMORY then Memory(0) else Device(0)
  {
    hide IsBlock, IsTable, Kind, Rights;
    AttributeBits(MB2 * k + attribute, 0x400 * k, attribute);
    if attribute != RESERVED {
      RightsOf(MB2 * k + attribute, 0x400 * k, attribute);
    }
    if attribute == DEVICE {
      BlockNumber(k, 0x409, 0x3_0000_0000);
    } else {
      BlockNumber(k, attribute, 0);
    }
  }

  function Expected(a: nat, attribute: nat): Translation {
    if attribute == RESERVED then Fault
    else if attribute == MEMORY then Memory(a)
    else Device(a)
  }

  lemma WalkUpper(t: Tables, ddr0: nat, ddr1: nat, a: nat)
    requires Built(t, ddr0, ddr1) && 0x1_0000_0000 <= a < 0x100_0000_0000
    ensures Walk(t, a) == Expected(a, Level1Attribute(a / GB, ddr1))
  {
    hide Fetch, NextTable, Kind, Rights, IsBlock, IsTable;
    ReachLevel1(t, ddr0, ddr1, a);
    GigabyteEntry(a / GB, Level1Attribute(a / GB, ddr1));
  }

  lemma WalkLower(t: Tables, ddr0: nat, ddr1: nat, a: nat)
    requires Built(t, ddr0, ddr1) && a < 0x1_0000_0000
    ensures Walk(t, a) == Expected(a, Level2Attribute(a / MB2, ddr0))
  {
    hide Fetch, NextTable, Kind, Rights, IsBlock, IsTable;
    ReachLevel1(t, ddr0, ddr1, a);
    ReachLevel2(t, ddr0, ddr1, a);
    BlockEntry(a / MB2, Level2Attribute(a / MB2, ddr0));
  }

  /** The emitted attributes agree with the documented ranges. */
  lemma AttributesDocumented(a: nat, ddr0: nat, ddr1: nat)
    requires a < 0x100_0000_0000
    ensures a < 0x1_0000_0000 ==>
              Expected(a, Level2Attribute(a / MB2, ddr0)) == if Absent(a, ddr0, ddr1) then Fault else Documented(a)
    ensures a >= 0x1_0000_0000 ==>
              Expected(a, Level1Attribute(a / GB, ddr1)) == if Absent(a, ddr0, ddr1) then Fault else Documented(a)
  {
  }

  /**
   Every 40-bit address either faults or is translated to itself with the memory
   type of its documented range; it faults exactly where the documentation
   leaves it unassigned or the memory is not there.
   */
  lemma IdentityMap(t: Tables, ddr0: nat, ddr1: nat, a: nat)
    requires Built(t, ddr0, ddr1) && a < 0x100_0000_0000
    ensures Walk(t, a) == if Absent(a, ddr0, ddr1) then Fault else Documented(a)
    ensures Walk(t, a) != Fault ==> Walk(t, a) == Documented(a) && Walk(t, a).output == a
  {
    hide Walk, Built, Level1Attribute, Level2Attribute, Absent;
    AttributesDocumented(a, ddr0, ddr1);
    if a < 0x1_0000_0000 {
      WalkLower(t, ddr0, ddr1, a);
    } else {
      WalkUpper(t, ddr0, ddr1, a);
    }
  }

  /** With the memory of the board, 2 GB in both windows. */
  lemma BoardMap(t: Tables, a: nat)
    requires Built(t, 0x8000_0000, 0x8000_0000) && a < 0x100_0000_0000
    ensures Walk(t, a) == if 0x8_8000_0000 <= a < 0x10_0000_0000 then Fault else Documented(a)
  {
    IdentityMap(t, 0x8000_0000, 0x8000_0000, a);
  }
}
