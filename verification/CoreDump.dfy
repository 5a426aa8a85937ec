/**
 The ELF core dump of a payload: what the manager writes, and what a reader
 finds who knows nothing but the ELF format (System V gABI, Program Header and
 Note Section).
 */
module Bytes {
  type Byte = b: int | 0 <= b < 256

  function Pow256(width: nat): (r: nat)
    ensures r > 0
  {
    if width == 0 then 1 else 256 * Pow256(width - 1)
  }

  /** A number as `width` bytes, least significant first. */
  function LittleEndian(n: nat, width: nat): (r: seq<Byte>)
    ensures |r| == width
  {
    if width == 0 then [] else [n % 256] + LittleEndian(n / 256, width - 1)
  }

  function Decode(bytes: seq<Byte>): nat {
    if bytes == [] then 0 else bytes[0] + 256 * Decode(bytes[1..])
  }

  lemma {:induction false} DecodeLittleEndian(n: nat, width: nat)
    requires n < Pow256(width)
    ensures Decode(LittleEndian(n, width)) == n
    decreases width
  {
    if width > 0 {
      DecodeLittleEndian(n / 256, width - 1);
      assert LittleEndian(n, width)[1..] == LittleEndian(n / 256, width - 1);
    }
  }

  lemma Widths()
    ensures Pow256(2) == 0x1_0000 && Pow256(4) == 0x1_0000_0000 && Pow256(8) == 0x1_0000_0000_0000_0000
  {
    assert Pow256(1) == 256 && Pow256(2) == 0x1_0000 && Pow256(3) == 0x100_0000;
    assert Pow256(4) == 0x1_0000_0000 && Pow256(5) == 0x100_0000_0000;
    assert Pow256(6) == 0x1_0000_0000_0000 && Pow256(7) == 0x100_0000_0000_0000;
  }

  function Zeros(n: nat): (r: seq<Byte>)
    ensures |r| == n && forall i :: 0 <= i < n ==> r[i] == 0
  {
    seq(n, i => 0)
  }

  /** Byte strings one after the other. */
  function Join(parts: seq<seq<Byte>>): seq<Byte> {
    if parts == [] then [] else parts[0] + Join(parts[1..])
  }

  function Size(parts: seq<seq<Byte>>): nat {
    if parts == [] then 0 else |parts[0]| + Size(parts[1..])
  }

  lemma {:induction false} JoinSize(parts: seq<seq<Byte>>)
    ensures |Join(parts)| == Size(parts)
  {
    if parts != [] {
      JoinSize(parts[1..]);
    }
  }

  lemma {:induction false} JoinSnoc(parts: seq<seq<Byte>>, last: seq<Byte>)
    ensures Join(parts + [last]) == Join(parts) + last
    ensures Size(parts + [last]) == Size(parts) + |last|
  {
    if parts == [] {
      assert parts + [last] == [last];
      assert Join([last]) == last + Join([]);
    } else {
      assert (parts + [last])[1..] == parts[1..] + [last];
      JoinSnoc(parts[1..], last);
    }
  }

  /** A part is found behind the parts before it. */
  lemma {:induction false} PartAt(parts: seq<seq<Byte>>, k: nat)
    requires k < |parts|
    ensures Size(parts[..k]) + |parts[k]| <= |Join(parts)|
    ensures Join(parts)[Size(parts[..k])..Size(parts[..k]) + |parts[k]|] == parts[k]
    decreases k
  {
    if k > 0 {
      var rest := parts[1..];
      PartAt(rest, k - 1);
      assert rest[..k - 1] == parts[..k][1..];
      var at := Size(rest[..k - 1]);
      assert Size(parts[..k]) == |parts[0]| + at;
      Shifted(parts[0], Join(rest), at, at + |parts[k]|);
    }
  }

  lemma Shifted(a: seq<Byte>, b: seq<Byte>, lo: nat, hi: nat)
    requires lo <= hi <= |b|
    ensures (a + b)[|a| + lo..|a| + hi] == b[lo..hi]
  {
  }

  lemma Middle(a: seq<Byte>, b: seq<Byte>, c: seq<Byte>, lo: nat, hi: nat)
    requires lo <= hi <= |b|
    ensures |a| + hi <= |a + b + c|
    ensures (a + b + c)[|a| + lo..|a| + hi] == b[lo..hi]
  {
  }

  lemma {:induction false} EqualParts(parts: seq<seq<Byte>>, width: nat)
    requires forall i :: 0 <= i < |parts| ==> |parts[i]| == width
    ensures Size(parts) == width * |parts|
  {
    if parts != [] {
      EqualParts(parts[1..], width);
      assert width * |parts| == width + width * (|parts| - 1);
    }
  }
}

module CoreFormat {
  import opened Bytes

  const EHDR_SIZE: nat := 64
  const PHDR_SIZE: nat := 56
  const SHDR_SIZE: nat := 64
  const NHDR_SIZE: nat := 12
  const PT_LOAD: nat := 1
  const PT_NOTE: nat := 4
  const U16: nat := 0x1_0000
  const U32: nat := 0x1_0000_0000
  const U64: nat := 0x1_0000_0000_0000_0000

  datatype Phdr = Phdr(kind: nat, flags: nat, offset: nat, vaddr: nat, paddr: nat, filesz: nat, memsz: nat, align: nat)

  predicate PhdrFits(p: Phdr) {
    && p.kind < U32 && p.flags < U32 && p.offset < U64 && p.vaddr < U64
    && p.paddr < U64 && p.filesz < U64 && p.memsz < U64 && p.align < U64
  }

  /** The section header fields at the end of the ELF header. */
  function EhdrTail(): (r: seq<Byte>)
    ensures |r| == 6
  {
    LittleEndian(SHDR_SIZE, 2) + LittleEndian(0, 2) + LittleEndian(0, 2)
  }

  function EhdrBytes(phnum: nat): (r: seq<Byte>)
    ensures |r| == EHDR_SIZE
  {
    [0x7F, 0x45, 0x4C, 0x46, 2, 1, 1, 0, 0, 0, 0, 0, 0, 0, 0, 0]
    + LittleEndian(4, 2) + LittleEndian(183, 2) + LittleEndian(1, 4)
    + LittleEndian(0, 8) + LittleEndian(EHDR_SIZE, 8) + LittleEndian(0, 8)
    + LittleEndian(0, 4) + LittleEndian(EHDR_SIZE, 2)
    + LittleEndian(PHDR_SIZE, 2) + LittleEndian(phnum, 2)
    + EhdrTail()
  }

  function PhdrBytes(p: Phdr): (r: seq<Byte>)
    ensures |r| == PHDR_SIZE
  {
    LittleEndian(p.kind, 4) + LittleEndian(p.flags, 4) + LittleEndian(p.offset, 8) + LittleEndian(p.vaddr, 8)
    + LittleEndian(p.paddr, 8) + LittleEndian(p.filesz, 8) + LittleEndian(p.memsz, 8) + LittleEndian(p.align, 8)
  }

  // ------------------------------------------------------------------ reader

  datatype Option<T> = None | Some(value: T)

  datatype Note = Note(name: seq<Byte>, kind: nat, desc: seq<Byte>)

  datatype Segment = Segment(address: nat, bytes: seq<Byte>)

  /** What a reader gets out of a core file. */
  datatype Core = Core(notes: seq<Note>, segments: seq<Segment>)

  function Field(bytes: seq<Byte>, at: nat, width: nat): nat
    requires at + width <= |bytes|
  {
    Decode(bytes[at..at + width])
  }

  function ParsePhdr(bytes: seq<Byte>): Phdr
    requires |bytes| == PHDR_SIZE
  {
    Phdr(Field(bytes, 0, 4), Field(bytes, 4, 4), Field(bytes, 8, 8), Field(bytes, 16, 8),
         Field(bytes, 24, 8), Field(bytes, 32, 8), Field(bytes, 40, 8), Field(bytes, 48, 8))
  }

  function Align4(n: nat): (r: nat)
    ensures r % 4 == 0 && n <= r < n + 4
  {
    (n + 3) / 4 * 4
  }

  /** A note section: header, name and descriptor, each padded to four bytes. */
  function ParseNotes(bytes: seq<Byte>): Option<seq<Note>>
    decreases |bytes|
  {
    if bytes == [] then Some([])
    else if |bytes| < NHDR_SIZE then None
    else
      var namesz, descsz, kind := Field(bytes, 0, 4), Field(bytes, 4, 4), Field(bytes, 8, 4);
      var desc := NHDR_SIZE + Align4(namesz);
      var end := desc + Align4(descsz);
      if end > |bytes| then None
      else
        match ParseNotes(bytes[end..])
        case None => None
        case Some(rest) =>
          Some([Note(bytes[NHDR_SIZE..NHDR_SIZE + namesz], kind, bytes[desc..desc + descsz])] + rest)
  }

  /** Follows program headers i..n-1 of the table at `phoff`. */
  function FollowHeaders(file: seq<Byte>, phoff: nat, i: nat, n: nat): Option<Core>
    requires i <= n
    decreases n - i
  {
    if i == n then Some(Core([], []))
    else
      var at := phoff + PHDR_SIZE * i;
      if at + PHDR_SIZE > |file| then None
      else
        var p := ParsePhdr(file[at..at + PHDR_SIZE]);
        if p.offset + p.filesz > |file| then None
        else
          var content := file[p.offset..p.offset + p.filesz];
          match FollowHeaders(file, phoff, i + 1, n)
          case None => None
          case Some(rest) =>
            if p.kind == PT_LOAD then
              // What the segment has beyond its bytes in the file is zero.
              if p.memsz < p.filesz then None
              else Some(rest.(segments := [Segment(p.vaddr, content + Zeros(p.memsz - p.filesz))] + rest.segments))
            else if p.kind == PT_NOTE then
              match ParseNotes(content)
              case None => None
              case Some(notes) => Some(rest.(notes := notes + rest.notes))
            else Some(rest)
  }

  /** A 64-bit little-endian core file for AArch64, with headers of the usual sizes. */
  predicate CoreHeader(e: seq<Byte>)
    requires |e| == EHDR_SIZE
  {
    && e[..16] == [0x7F, 0x45, 0x4C, 0x46, 2, 1, 1, 0, 0, 0, 0, 0, 0, 0, 0, 0]
    && Field(e, 16, 2) == 4 && Field(e, 18, 2) == 183 && Field(e, 20, 4) == 1
    && Field(e, 52, 2) == 64 && Field(e, 54, 2) == 56
    && NoSections(e)
  }

  /** No entry point, no flags, no section headers, whose size is given all the same. */
  predicate NoSections(e: seq<Byte>)
    requires |e| == EHDR_SIZE
  {
    Field(e, 24, 8) == 0 && Field(e, 40, 8) == 0 && Field(e, 48, 4) == 0
    && Field(e, 58, 2) == 64 && Field(e, 60, 2) == 0 && Field(e, 62, 2) == 0
  }

  function ReadCore(file: seq<Byte>): Option<Core> {
    if |file| < EHDR_SIZE || !CoreHeader(file[..EHDR_SIZE]) then None
    else FollowHeaders(file, Field(file, 32, 8), 0, Field(file, 56, 2))
  }

  // ------------------------------------------------------- fields round-trip

  lemma PhdrRoundTrip(p: Phdr)
    requires PhdrFits(p)
    ensures ParsePhdr(PhdrBytes(p)) == p
  {
    Widths();
    var b := PhdrBytes(p);
    hide LittleEndian, Decode;
    assert b[0..4] == LittleEndian(p.kind, 4);
    assert b[4..8] == LittleEndian(p.flags, 4);
    assert b[8..16] == LittleEndian(p.offset, 8);
    assert b[16..24] == LittleEndian(p.vaddr, 8);
    assert b[24..32] == LittleEndian(p.paddr, 8);
    assert b[32..40] == LittleEndian(p.filesz, 8);
    assert b[40..48] == LittleEndian(p.memsz, 8);
    var last := LittleEndian(p.align, 8);
    Shifted(b[..48], last, 0, 8);
    assert b == b[..48] + last && last[0..8] == last;
    DecodeLittleEndian(p.kind, 4);
    DecodeLittleEndian(p.flags, 4);
    DecodeLittleEndian(p.offset, 8);
    DecodeLittleEndian(p.vaddr, 8);
    DecodeLittleEndian(p.paddr, 8);
    DecodeLittleEndian(p.filesz, 8);
    DecodeLittleEndian(p.memsz, 8);
    DecodeLittleEndian(p.align, 8);
  }

  lemma EhdrIdent(phnum: nat)
    ensures EhdrBytes(phnum)[..16] == [0x7F, 0x45, 0x4C, 0x46, 2, 1, 1, 0, 0, 0, 0, 0, 0, 0, 0, 0]
  {
    hide LittleEndian, EhdrTail;
  }

  lemma TailFields()
    ensures Decode(EhdrTail()[0..2]) == 64 && Decode(EhdrTail()[2..4]) == 0 && Decode(EhdrTail()[4..6]) == 0
  {
    Widths();
    DecodeLittleEndian(0, 2);
    DecodeLittleEndian(SHDR_SIZE, 2);
    var front, last := LittleEndian(SHDR_SIZE, 2), LittleEndian(0, 2);
    hide LittleEndian, Decode;
    Shifted(front + last, last, 0, 2);
    Middle(front, last, last, 0, 2);
    Middle([], front, last + last, 0, 2);
    assert last[0..2] == last && front[0..2] == front;
    assert [] + front + (last + last) == EhdrTail();
  }

  lemma EhdrWithoutSections(phnum: nat)
    ensures NoSections(EhdrBytes(phnum))
  {
    Widths();
    TailFields();
    var b := EhdrBytes(phnum);
    hide LittleEndian, Decode, EhdrTail;
    assert b[24..32] == LittleEndian(0, 8);
    assert b[40..48] == LittleEndian(0, 8);
    assert b[48..52] == LittleEndian(0, 4);
    assert b[58..60] == EhdrTail()[0..2];
    assert b[60..62] == EhdrTail()[2..4];
    assert b[62..64] == EhdrTail()[4..6];
    DecodeLittleEndian(0, 8);
    DecodeLittleEndian(0, 4);
  }

  lemma EhdrKind(phnum: nat)
    ensures Field(EhdrBytes(phnum), 16, 2) == 4 && Field(EhdrBytes(phnum), 18, 2) == 183 && Field(EhdrBytes(phnum), 20, 4) == 1
    ensures Field(EhdrBytes(phnum), 52, 2) == 64 && Field(EhdrBytes(phnum), 54, 2) == 56
  {
    Widths();
    var b := EhdrBytes(phnum);
    hide LittleEndian, Decode, EhdrTail;
    assert b[16..18] == LittleEndian(4, 2);
    assert b[18..20] == LittleEndian(183, 2);
    assert b[20..24] == LittleEndian(1, 4);
    assert b[52..54] == LittleEndian(EHDR_SIZE, 2);
    assert b[54..56] == LittleEndian(PHDR_SIZE, 2);
    DecodeLittleEndian(4, 2);
    DecodeLittleEndian(183, 2);
    DecodeLittleEndian(1, 4);
    DecodeLittleEndian(EHDR_SIZE, 2);
    DecodeLittleEndian(PHDR_SIZE, 2);
  }

  lemma EhdrRoundTrip(phnum: nat)
    requires phnum < U16
    ensures Field(EhdrBytes(phnum), 32, 8) == EHDR_SIZE
    ensures Field(EhdrBytes(phnum), 56, 2) == phnum
    ensures CoreHeader(EhdrBytes(phnum))
  {
    Widths();
    EhdrIdent(phnum);
    EhdrKind(phnum);
    EhdrWithoutSections(phnum);
    var b := EhdrBytes(phnum);
    hide LittleEndian, Decode, EhdrTail, NoSections;
    assert b[32..40] == LittleEndian(EHDR_SIZE, 8);
    assert b[56..58] == LittleEndian(phnum, 2);
    DecodeLittleEndian(EHDR_SIZE, 8);
    DecodeLittleEndian(phnum, 2);
  }
}

module CoreDump {
  import opened Bytes
  import opened CoreFormat

  const PAGE_SIZE: nat := 4096
  const PF_RWX: nat := 7
  const NT_PRSTATUS: nat := 1
  const NT_FPREGSET: nat := 2
  const NT_PRPSINFO: nat := 3

  // Sizes of the descriptor structures on AArch64 Linux.
  const PRPSINFO_SIZE: nat := 136
  const PRSTATUS_SIZE: nat := 392
  const FPREGS_SIZE: nat := 528

  /** The name "CORE". */
  const CORE_NAME: seq<Byte> := [0x43, 0x4F, 0x52, 0x45]

  /** Padding that brings a length to a multiple of four. */
  function PadTo4(length: nat): (r: nat)
    ensures r < 4 && (length + r) % 4 == 0
  {
    if length % 4 == 0 then 0 else 4 - length % 4
  }

  /** Padding that brings a length to a multiple of the page size. */
  function PadToPage(length: nat): (r: nat)
    ensures r < PAGE_SIZE && (length + r) % PAGE_SIZE == 0
  {
    if length % PAGE_SIZE == 0 then 0 else PAGE_SIZE - length % PAGE_SIZE
  }

  /** A note as it must lie in the file. */
  function NoteBytes(n: Note): seq<Byte> {
    LittleEndian(|n.name|, 4) + LittleEndian(|n.desc|, 4) + LittleEndian(n.kind, 4)
    + n.name + Zeros(Align4(|n.name|) - |n.name|) + n.desc
  }

  /** write_note: the terminating zero counts as part of the name. */
  method WriteNote(file: seq<Byte>, name: seq<Byte>, kind: nat, desc: seq<Byte>) returns (r: seq<Byte>)
    requires |name| + 1 < U32 && |desc| < U32
    ensures r == file + NoteBytes(Note(name + [0], kind, desc))
  {
    hide LittleEndian;
    var terminated := name + [0];
    r := file + (LittleEndian(|terminated|, 4) + LittleEndian(|desc|, 4) + LittleEndian(kind, 4));
    r := r + terminated;
    var padding := PadTo4(|terminated|);
    assert padding == Align4(|terminated|) - |terminated|;
    r := r + Zeros(padding);
    r := r + desc;
  }

  /** The notes of a dump. */
  function DumpNotes(prpsinfo: seq<Byte>, prstatus: seq<Byte>, fpregs: seq<Byte>): seq<Note> {
    [Note(CORE_NAME + [0], NT_PRPSINFO, prpsinfo),
     Note(CORE_NAME + [0], NT_PRSTATUS, prstatus),
     Note(CORE_NAME + [0], NT_FPREGSET, fpregs)]
  }

  /** The descriptors have the sizes of their C structures. */
  predicate DescriptorSizes(prpsinfo: seq<Byte>, prstatus: seq<Byte>, fpregs: seq<Byte>) {
    |prpsinfo| == PRPSINFO_SIZE && |prstatus| == PRSTATUS_SIZE && |fpregs| == FPREGS_SIZE
  }

  const NOTES_SIZE: nat := 3 * (NHDR_SIZE + 8) + PRPSINFO_SIZE + PRSTATUS_SIZE + FPREGS_SIZE

  function NotesBytes(notes: seq<Note>): seq<Byte> {
    if notes == [] then [] else NoteBytes(notes[0]) + NotesBytes(notes[1..])
  }

  // ------------------------------------------------------------- the file image

  /** e_phnum is a 16-bit field. */
  function PhNum(count: nat): nat {
    (count + 1) % U16
  }

  function NotesOffset(count: nat): nat {
    EHDR_SIZE + PhNum(count) * PHDR_SIZE
  }

  /** Fills up to the next page behind the notes. */
  function NotePadding(count: nat): (r: nat)
    ensures r < PAGE_SIZE && (NotesOffset(count) + NOTES_SIZE + r) % PAGE_SIZE == 0
  {
    PadToPage(NotesOffset(count) + NOTES_SIZE)
  }

  function Contents(segments: seq<Segment>): (r: seq<seq<Byte>>)
    ensures |r| == |segments|
  {
    seq(|segments|, i requires 0 <= i < |segments| => segments[i].bytes)
  }

  /** Where the bytes of segment i start. */
  function SegmentOffset(segments: seq<Segment>, i: nat): nat
    requires i <= |segments|
  {
    NotesOffset(|segments|) + NOTES_SIZE + NotePadding(|segments|) + Size(Contents(segments)[..i])
  }

  function NotePhdr(count: nat): Phdr {
    Phdr(PT_NOTE, 0, NotesOffset(count), 0, 0, NOTES_SIZE, 0, 0)
  }

  function LoadPhdr(segments: seq<Segment>, i: nat): Phdr
    requires i < |segments|
  {
    var size := |segments[i].bytes|;
    Phdr(PT_LOAD, PF_RWX, SegmentOffset(segments, i), segments[i].address, 0, size, size, PAGE_SIZE)
  }

  function HeaderParts(segments: seq<Segment>, n: nat): (r: seq<seq<Byte>>)
    requires n <= |segments|
    ensures |r| == n + 1
    ensures forall i :: 0 <= i <= n ==> |r[i]| == PHDR_SIZE
  {
    [PhdrBytes(NotePhdr(|segments|))] +
    seq(n, i requires 0 <= i < n => PhdrBytes(LoadPhdr(segments, i)))
  }

  function Image(segments: seq<Segment>, notes: seq<Note>): seq<Byte> {
    EhdrBytes(PhNum(|segments|)) + Join(HeaderParts(segments, |segments|))
    + NotesBytes(notes) + Zeros(NotePadding(|segments|)) + Join(Contents(segments))
  }

  /** Addresses and file offsets fit their 64-bit fields. */
  predicate Fits(segments: seq<Segment>) {
    && SegmentOffset(segments, |segments|) < U64
    && forall i :: 0 <= i < |segments| ==> segments[i].address < U64
  }

  // ------------------------------------------------------------------ the writer

  /** writeCoreDump, every write succeeding. */
  method WriteCoreDump(segments: seq<Segment>, prpsinfo: seq<Byte>, prstatus: seq<Byte>, fpregs: seq<Byte>)
    returns (file: seq<Byte>)
    requires DescriptorSizes(prpsinfo, prstatus, fpregs)
    ensures file == Image(segments, DumpNotes(prpsinfo, prstatus, fpregs))
  {
    hide PhdrBytes, EhdrBytes, NoteBytes, Join, HeaderParts, Contents;
    var phnum := (|segments| + 1) % U16;
    file := EhdrBytes(phnum);
    var offset := EHDR_SIZE + phnum * PHDR_SIZE;
    var filesz := NHDR_SIZE + 8 + PRPSINFO_SIZE + (NHDR_SIZE + 8 + PRSTATUS_SIZE + NHDR_SIZE + 8 + FPREGS_SIZE);
    var headers := WriteHeaders(segments, offset, filesz);
    file := file + headers;
    file := WriteNote(file, CORE_NAME, NT_PRPSINFO, prpsinfo);
    file := WriteNote(file, CORE_NAME, NT_PRSTATUS, prstatus);
    file := WriteNote(file, CORE_NAME, NT_FPREGSET, fpregs);
    ThreeNotes(prpsinfo, prstatus, fpregs);
    var noteAlign := NoteAlign(offset, filesz);
    if noteAlign != 0 {
      file := file + Zeros(noteAlign);
    }
    assert Zeros(0) == [];
    file := WriteSegments(file, segments);
  }

  method WriteSegments(head: seq<Byte>, segments: seq<Segment>) returns (file: seq<Byte>)
    ensures file == head + Join(Contents(segments))
  {
    file := head;
    var i := 0;
    assert Contents(segments)[..0] == [];
    while i < |segments|
      invariant 0 <= i <= |segments|
      invariant file == head + Join(Contents(segments)[..i])
    {
      JoinSnoc(Contents(segments)[..i], segments[i].bytes);
      assert Contents(segments)[..i + 1] == Contents(segments)[..i] + [segments[i].bytes];
      file := file + segments[i].bytes;
      i := i + 1;
    }
    assert Contents(segments)[..i] == Contents(segments);
  }

  /** The padding as the source computes it. */
  function NoteAlign(offset: nat, filesz: nat): (r: nat)
    ensures r == PadToPage(offset + filesz)
  {
    var r := PAGE_SIZE - (offset + filesz) % PAGE_SIZE;
    if r == PAGE_SIZE then 0 else r
  }

  lemma ThreeNotes(prpsinfo: seq<Byte>, prstatus: seq<Byte>, fpregs: seq<Byte>)
    ensures var ns := DumpNotes(prpsinfo, prstatus, fpregs);
            NotesBytes(ns) == NoteBytes(ns[0]) + NoteBytes(ns[1]) + NoteBytes(ns[2])
  {
    hide NoteBytes;
    var ns := DumpNotes(prpsinfo, prstatus, fpregs);
    assert ns[1..][1..] == [ns[2]];
    assert NotesBytes([ns[2]]) == NoteBytes(ns[2]) + NotesBytes([]);
    assert NotesBytes(ns[1..]) == NoteBytes(ns[1]) + NotesBytes(ns[1..][1..]);
  }

  /** The program headers; `offset` runs ahead by one segment at a time. */
  method WriteHeaders(segments: seq<Segment>, noteOffset: nat, noteSize: nat) returns (headers: seq<Byte>)
    requires noteOffset == NotesOffset(|segments|) && noteSize == NOTES_SIZE
    ensures headers == Join(HeaderParts(segments, |segments|))
  {
    hide PhdrBytes;
    headers := PhdrBytes(Phdr(PT_NOTE, 0, noteOffset, 0, 0, noteSize, 0, 0));
    assert HeaderParts(segments, 0) == [headers];
    assert Join([headers]) == headers + Join([]);
    var offset, filesz := noteOffset, noteSize;
    offset := offset + NoteAlign(offset, filesz);
    var i := 0;
    assert Contents(segments)[..0] == [];
    while i < |segments|
      invariant 0 <= i <= |segments|
      invariant offset + filesz == SegmentOffset(segments, i)
      invariant headers == Join(HeaderParts(segments, i))
    {
      offset := offset + filesz;
      filesz := |segments[i].bytes|;
      var phdr := Phdr(PT_LOAD, PF_RWX, offset, segments[i].address, 0, filesz, filesz, PAGE_SIZE);
      headers := headers + PhdrBytes(phdr);
      JoinSnoc(HeaderParts(segments, i), PhdrBytes(phdr));
      assert HeaderParts(segments, i + 1) == HeaderParts(segments, i) + [PhdrBytes(phdr)];
      JoinSnoc(Contents(segments)[..i], segments[i].bytes);
      assert Contents(segments)[..i + 1] == Contents(segments)[..i] + [segments[i].bytes];
      i := i + 1;
    }
  }

  // ------------------------------------------------------- reading it back

  predicate NoteFits(n: Note) {
    |n.name| < U32 && |n.desc| < U32 && n.kind < U32 && |n.desc| % 4 == 0
  }

  lemma NoteFields(n: Note, rest: seq<Byte>)
    requires NoteFits(n)
    ensures var b := NoteBytes(n) + rest;
            var desc := NHDR_SIZE + Align4(|n.name|);
            && |NoteBytes(n)| == desc + |n.desc|
            && Field(b, 0, 4) == |n.name| && Field(b, 4, 4) == |n.desc| && Field(b, 8, 4) == n.kind
            && b[NHDR_SIZE..NHDR_SIZE + |n.name|] == n.name
            && b[desc..desc + |n.desc|] == n.desc
            && b[desc + |n.desc|..] == rest
  {
    Widths();
    hide LittleEndian, Decode, Zeros, Align4;
    var b := NoteBytes(n) + rest;
    assert b[0..4] == LittleEndian(|n.name|, 4);
    assert b[4..8] == LittleEndian(|n.desc|, 4);
    assert b[8..12] == LittleEndian(n.kind, 4);
    DecodeLittleEndian(|n.name|, 4);
    DecodeLittleEndian(|n.desc|, 4);
    DecodeLittleEndian(n.kind, 4);
  }

  lemma AlignedDesc(n: Note)
    requires NoteFits(n)
    ensures Align4(|n.desc|) == |n.desc|
  {
  }

  /** The first note of a section is taken off its front. */
  lemma OneNote(n: Note, rest: seq<Byte>, others: seq<Note>)
    requires NoteFits(n) && ParseNotes(rest) == Some(others)
    ensures ParseNotes(NoteBytes(n) + rest) == Some([n] + others)
  {
    hide NoteBytes, Field, NoteFits, Align4;
    NoteFields(n, rest);
    AlignedDesc(n);
    var b := NoteBytes(n) + rest;
    assert b != [] && |b| >= NHDR_SIZE;
  }

  /** Notes whose descriptors are multiples of four bytes are all found again. */
  lemma {:induction false} NotesRoundTrip(notes: seq<Note>)
    requires forall i :: 0 <= i < |notes| ==> NoteFits(notes[i])
    ensures ParseNotes(NotesBytes(notes)) == Some(notes)
  {
    if notes != [] {
      hide NoteBytes, ParseNotes;
      NotesRoundTrip(notes[1..]);
      OneNote(notes[0], NotesBytes(notes[1..]), notes[1..]);
      assert notes == [notes[0]] + notes[1..];
    }
  }

  lemma NoteSize(n: Note)
    ensures |NoteBytes(n)| == NHDR_SIZE + Align4(|n.name|) + |n.desc|
  {
  }

  lemma NotesFit(prpsinfo: seq<Byte>, prstatus: seq<Byte>, fpregs: seq<Byte>)
    requires DescriptorSizes(prpsinfo, prstatus, fpregs)
    ensures var ns := DumpNotes(prpsinfo, prstatus, fpregs);
            && |NotesBytes(ns)| == NOTES_SIZE
            && forall i :: 0 <= i < |ns| ==> NoteFits(ns[i])
  {
    var ns := DumpNotes(prpsinfo, prstatus, fpregs);
    ThreeNotes(prpsinfo, prstatus, fpregs);
    NoteSize(ns[0]);
    NoteSize(ns[1]);
    NoteSize(ns[2]);
  }

  // The file as front, middle and back around each of its regions.

  lemma AroundEhdr(e: seq<Byte>, h: seq<Byte>, b: seq<Byte>, z: seq<Byte>, c: seq<Byte>)
    ensures e + h + b + z + c == [] + e + (h + b + z + c)
  {
  }

  lemma AroundHeaders(e: seq<Byte>, h: seq<Byte>, b: seq<Byte>, z: seq<Byte>, c: seq<Byte>)
    ensures e + h + b + z + c == e + h + (b + z + c)
  {
  }

  lemma AroundNotes(e: seq<Byte>, h: seq<Byte>, b: seq<Byte>, z: seq<Byte>, c: seq<Byte>)
    ensures e + h + b + z + c == (e + h) + b + (z + c)
  {
  }

  lemma AroundContents(e: seq<Byte>, h: seq<Byte>, b: seq<Byte>, z: seq<Byte>, c: seq<Byte>)
    ensures e + h + b + z + c == (e + h + b + z) + c + []
  {
  }

  /** The sizes of the regions. */
  lemma Regions(segments: seq<Segment>, notes: seq<Note>)
    requires |segments| + 1 < U16 && |NotesBytes(notes)| == NOTES_SIZE
    ensures |Join(HeaderParts(segments, |segments|))| == PHDR_SIZE * (|segments| + 1)
    ensures |Image(segments, notes)| == SegmentOffset(segments, |segments|)
  {
    hide EhdrBytes, PhdrBytes, NotesBytes, Zeros, HeaderParts, Join, NotePadding;
    var parts := HeaderParts(segments, |segments|);
    EqualParts(parts, PHDR_SIZE);
    JoinSize(parts);
    JoinSize(Contents(segments));
    assert Contents(segments)[..|segments|] == Contents(segments);
  }

  /** Program header i is where the table says it is. */
  lemma HeaderAt(segments: seq<Segment>, notes: seq<Note>, i: nat)
    requires |segments| + 1 < U16 && |NotesBytes(notes)| == NOTES_SIZE && i <= |segments|
    ensures var at := EHDR_SIZE + PHDR_SIZE * i;
            at + PHDR_SIZE <= |Image(segments, notes)| &&
            Image(segments, notes)[at..at + PHDR_SIZE] == HeaderParts(segments, |segments|)[i]
  {
    hide EhdrBytes, PhdrBytes, NotesBytes, Zeros, HeaderParts, Join, NotePadding, Size;
    var parts := HeaderParts(segments, |segments|);
    var e, h := EhdrBytes(PhNum(|segments|)), Join(parts);
    var b, z, c := NotesBytes(notes), Zeros(NotePadding(|segments|)), Join(Contents(segments));
    Regions(segments, notes);
    EqualParts(parts[..i], PHDR_SIZE);
    PartAt(parts, i);
    AroundHeaders(e, h, b, z, c);
    Middle(e, h, b + z + c, PHDR_SIZE * i, PHDR_SIZE * i + PHDR_SIZE);
  }

  /** The notes are where their header says they are. */
  lemma NotesAt(segments: seq<Segment>, notes: seq<Note>)
    requires |segments| + 1 < U16 && |NotesBytes(notes)| == NOTES_SIZE
    ensures var at := NotesOffset(|segments|);
            at + NOTES_SIZE <= |Image(segments, notes)| &&
            Image(segments, notes)[at..at + NOTES_SIZE] == NotesBytes(notes)
  {
    hide EhdrBytes, PhdrBytes, NotesBytes, Zeros, HeaderParts, Join, NotePadding, Size;
    var e, h := EhdrBytes(PhNum(|segments|)), Join(HeaderParts(segments, |segments|));
    var b, z, c := NotesBytes(notes), Zeros(NotePadding(|segments|)), Join(Contents(segments));
    Regions(segments, notes);
    AroundNotes(e, h, b, z, c);
    Middle(e + h, b, z + c, 0, NOTES_SIZE);
    assert b[0..NOTES_SIZE] == b;
  }

  lemma ContentAt(segments: seq<Segment>, i: nat)
    requires i < |segments|
    ensures Contents(segments)[i] == segments[i].bytes
  {
  }

  /** The bytes of segment i are where its header says they are. */
  lemma SegmentAt(segments: seq<Segment>, notes: seq<Note>, i: nat)
    requires |segments| + 1 < U16 && |NotesBytes(notes)| == NOTES_SIZE && i < |segments|
    ensures var at := SegmentOffset(segments, i);
            at + |segments[i].bytes| <= |Image(segments, notes)| &&
            Image(segments, notes)[at..at + |segments[i].bytes|] == segments[i].bytes
  {
    hide EhdrBytes, PhdrBytes, NotesBytes, Zeros, HeaderParts, Join, NotePadding, Size, Contents;
    ContentAt(segments, i);
    var e, h := EhdrBytes(PhNum(|segments|)), Join(HeaderParts(segments, |segments|));
    var b, z, c := NotesBytes(notes), Zeros(NotePadding(|segments|)), Join(Contents(segments));
    Regions(segments, notes);
    PartAt(Contents(segments), i);
    AroundContents(e, h, b, z, c);
    var lo := Size(Contents(segments)[..i]);
    Middle(e + h + b + z, c, [], lo, lo + |segments[i].bytes|);
  }

  lemma {:induction false} SizeGrows(parts: seq<seq<Byte>>, i: nat)
    requires i < |parts|
    ensures Size(parts[..i]) + |parts[i]| <= Size(parts)
  {
    PartAt(parts, i);
    JoinSize(parts);
  }

  lemma HeaderFits(segments: seq<Segment>, i: nat)
    requires Fits(segments) && i < |segments|
    ensures PhdrFits(LoadPhdr(segments, i))
  {
    SizeGrows(Contents(segments), i);
    assert Contents(segments)[..|segments|] == Contents(segments);
  }

  lemma LoadHeaderPart(segments: seq<Segment>, i: nat)
    requires i < |segments|
    ensures HeaderParts(segments, |segments|)[i + 1] == PhdrBytes(LoadPhdr(segments, i))
  {
    hide PhdrBytes, LoadPhdr;
  }

  lemma NoneLeft(file: seq<Byte>, n: nat)
    ensures FollowHeaders(file, EHDR_SIZE, n, n) == Some(Core([], []))
  {
  }

  /** One load header, followed. */
  lemma OneLoad(file: seq<Byte>, i: nat, n: nat, p: Phdr, segments: seq<Segment>)
    requires i < n && EHDR_SIZE + PHDR_SIZE * i + PHDR_SIZE <= |file| && segments != []
    requires file[EHDR_SIZE + PHDR_SIZE * i..EHDR_SIZE + PHDR_SIZE * i + PHDR_SIZE] == PhdrBytes(p)
    requires ParsePhdr(PhdrBytes(p)) == p && p.kind == PT_LOAD
    requires p.offset + p.filesz <= |file| && p.memsz == p.filesz
    requires Segment(p.vaddr, file[p.offset..p.offset + p.filesz]) == segments[0]
    requires FollowHeaders(file, EHDR_SIZE, i + 1, n) == Some(Core([], segments[1..]))
    ensures FollowHeaders(file, EHDR_SIZE, i, n) == Some(Core([], segments))
  {
    hide PhdrBytes, ParsePhdr, ParseNotes;
    assert segments == [segments[0]] + segments[1..];
    assert segments[0].bytes + Zeros(0) == segments[0].bytes;
  }

  /** The note header, followed. */
  lemma NoteHeader(file: seq<Byte>, n: nat, p: Phdr, notes: seq<Note>, segments: seq<Segment>)
    requires 0 < n && EHDR_SIZE + PHDR_SIZE <= |file|
    requires file[EHDR_SIZE..EHDR_SIZE + PHDR_SIZE] == PhdrBytes(p)
    requires ParsePhdr(PhdrBytes(p)) == p && p.kind == PT_NOTE
    requires p.offset + p.filesz <= |file|
    requires ParseNotes(file[p.offset..p.offset + p.filesz]) == Some(notes)
    requires FollowHeaders(file, EHDR_SIZE, 1, n) == Some(Core([], segments))
    ensures FollowHeaders(file, EHDR_SIZE, 0, n) == Some(Core(notes, segments))
  {
    hide PhdrBytes, ParsePhdr, ParseNotes;
    assert notes + [] == notes;
  }

  /** Following load headers i.. yields segments i.. . */
  lemma {:induction false} FollowLoads(segments: seq<Segment>, notes: seq<Note>, i: nat)
    requires |segments| + 1 < U16 && |NotesBytes(notes)| == NOTES_SIZE && Fits(segments)
    requires i <= |segments|
    ensures FollowHeaders(Image(segments, notes), EHDR_SIZE, i + 1, |segments| + 1) == Some(Core([], segments[i..]))
    decreases |segments| - i
  {
    hide Image, PhdrBytes, ParsePhdr, Fits, SegmentOffset, NotesBytes, FollowHeaders, HeaderParts;
    if i < |segments| {
      FollowLoads(segments, notes, i + 1);
      HeaderAt(segments, notes, i + 1);
      HeaderFits(segments, i);
      PhdrRoundTrip(LoadPhdr(segments, i));
      SegmentAt(segments, notes, i);
      LoadHeaderPart(segments, i);
      OneLoad(Image(segments, notes), i + 1, |segments| + 1, LoadPhdr(segments, i), segments[i..]);
    } else {
      NoneLeft(Image(segments, notes), |segments| + 1);
      assert segments[i..] == [];
    }
  }

  /**
   A reader who follows the headers recovers the three notes and every segment,
   byte for byte and at its address.
   */
  lemma CoreRoundTrip(segments: seq<Segment>, prpsinfo: seq<Byte>, prstatus: seq<Byte>, fpregs: seq<Byte>)
    requires DescriptorSizes(prpsinfo, prstatus, fpregs)
    requires |segments| + 1 < U16 && Fits(segments)
    ensures ReadCore(Image(segments, DumpNotes(prpsinfo, prstatus, fpregs)))
            == Some(Core(DumpNotes(prpsinfo, prstatus, fpregs), segments))
  {
    hide Image, PhdrBytes, ParsePhdr, Fits, NotesBytes, ParseNotes, DumpNotes, Field, FollowHeaders, HeaderParts,
      NotesOffset, NoteFits, CoreHeader;
    var notes := DumpNotes(prpsinfo, prstatus, fpregs);
    NotesFit(prpsinfo, prstatus, fpregs);
    var file := Image(segments, notes);
    var n := |segments|;
    FollowLoads(segments, notes, 0);
    HeaderAt(segments, notes, 0);
    NotePhdrFits(n);
    PhdrRoundTrip(NotePhdr(n));
    NotesAt(segments, notes);
    NotesRoundTrip(notes);
    EhdrOfImage(segments, notes);
    assert segments[0..] == segments;
    NoteHeaderPart(segments);
    NoteHeader(file, n + 1, NotePhdr(n), notes, segments);
  }

  lemma NoteHeaderPart(segments: seq<Segment>)
    ensures HeaderParts(segments, |segments|)[0] == PhdrBytes(NotePhdr(|segments|))
  {
    hide PhdrBytes;
  }

  lemma NotePhdrFits(count: nat)
    ensures PhdrFits(NotePhdr(count))
  {
  }

  lemma EhdrOfImage(segments: seq<Segment>, notes: seq<Note>)
    ensures |Image(segments, notes)| >= EHDR_SIZE && CoreHeader(Image(segments, notes)[..EHDR_SIZE])
    ensures Field(Image(segments, notes), 32, 8) == EHDR_SIZE
    ensures Field(Image(segments, notes), 56, 2) == PhNum(|segments|)
  {
    hide EhdrBytes, NotesBytes, Zeros, HeaderParts, Join, NotePadding, Decode, CoreHeader;
    var e, h := EhdrBytes(PhNum(|segments|)), Join(HeaderParts(segments, |segments|));
    var b, z, c := NotesBytes(notes), Zeros(NotePadding(|segments|)), Join(Contents(segments));
    AroundEhdr(e, h, b, z, c);
    Middle([], e, h + b + z + c, 0, EHDR_SIZE);
    assert e[0..EHDR_SIZE] == e;
    Middle([], e, h + b + z + c, 32, 40);
    Middle([], e, h + b + z + c, 56, 58);
    EhdrRoundTrip(PhNum(|segments|));
  }

  lemma {:induction false} FewSegments(file: seq<Byte>, phoff: nat, i: nat, n: nat)
    requires i <= n
    ensures FollowHeaders(file, phoff, i, n).Some? ==> |FollowHeaders(file, phoff, i, n).value.segments| <= n - i
    decreases n - i
  {
    if i < n {
      hide ParsePhdr, ParseNotes;
      FewSegments(file, phoff, i + 1, n);
    }
  }

  /**
   The number of segments a dump can hold is exact: with 65535 or more, the
   16-bit header count wraps around and no reader gets the segments back.
   */
  lemma SegmentLimitExact(segments: seq<Segment>, prpsinfo: seq<Byte>, prstatus: seq<Byte>, fpregs: seq<Byte>)
    requires DescriptorSizes(prpsinfo, prstatus, fpregs) && Fits(segments)
    ensures ReadCore(Image(segments, DumpNotes(prpsinfo, prstatus, fpregs)))
            == Some(Core(DumpNotes(prpsinfo, prstatus, fpregs), segments))
            <==> |segments| + 1 < U16
  {
    var notes := DumpNotes(prpsinfo, prstatus, fpregs);
    hide Image, DumpNotes, FollowHeaders, Field, Fits, DescriptorSizes, CoreHeader;
    if |segments| + 1 < U16 {
      CoreRoundTrip(segments, prpsinfo, prstatus, fpregs);
    } else {
      EhdrOfImage(segments, notes);
      FewSegments(Image(segments, notes), EHDR_SIZE, 0, PhNum(|segments|));
    }
  }

  /**
   The same without the names of the writer. A debugger finds under "CORE" the
   process information as note 3, the registers as note 1 and the floating-point
   registers as note 2.
   */
  lemma DumpIsFound(segments: seq<Segment>, prpsinfo: seq<Byte>, prstatus: seq<Byte>, fpregs: seq<Byte>)
    requires DescriptorSizes(prpsinfo, prstatus, fpregs)
    requires |segments| < 65535 && Fits(segments)
    ensures ReadCore(Image(segments, DumpNotes(prpsinfo, prstatus, fpregs)))
            == Some(Core([Note([0x43, 0x4F, 0x52, 0x45, 0], 3, prpsinfo),
                          Note([0x43, 0x4F, 0x52, 0x45, 0], 1, prstatus),
                          Note([0x43, 0x4F, 0x52, 0x45, 0], 2, fpregs)], segments))
  {
    hide Image, ReadCore, Fits;
    CoreRoundTrip(segments, prpsinfo, prstatus, fpregs);
    assert CORE_NAME + [0] == [0x43, 0x4F, 0x52, 0x45, 0];
  }

  /** The header of segment i as it lies in the file, field by field. */
  lemma LoadHeaderInFile(segments: seq<Segment>, notes: seq<Note>, i: nat)
    requires |segments| < 65535 && |NotesBytes(notes)| == NOTES_SIZE && Fits(segments) && i < |segments|
    ensures 176 + 56 * i <= |Image(segments, notes)|
    ensures var load := ParsePhdr(Image(segments, notes)[120 + 56 * i..176 + 56 * i]);
            && load.kind == 1 && load.flags == 7 && load.paddr == 0 && load.align == 4096
            && load.vaddr == segments[i].address && load.filesz == load.memsz == |segments[i].bytes|
  {
    hide Image, PhdrBytes, ParsePhdr, Fits, NotesBytes, HeaderParts, SegmentOffset, NotesOffset;
    HeaderAt(segments, notes, i + 1);
    LoadHeaderPart(segments, i);
    HeaderFits(segments, i);
    PhdrRoundTrip(LoadPhdr(segments, i));
  }

  /** The header of the notes. */
  lemma NoteHeaderInFile(segments: seq<Segment>, notes: seq<Note>)
    requires |segments| < 65535 && |NotesBytes(notes)| == NOTES_SIZE
    ensures 120 <= |Image(segments, notes)|
    ensures var note := ParsePhdr(Image(segments, notes)[64..120]);
            note.kind == 4 && note.flags == 0 && note.vaddr == 0 && note.paddr == 0 && note.memsz == 0 && note.align == 0
  {
    hide Image, PhdrBytes, ParsePhdr, NotesBytes, HeaderParts, NotesOffset;
    HeaderAt(segments, notes, 0);
    NoteHeaderPart(segments);
    NotePhdrFits(|segments|);
    PhdrRoundTrip(NotePhdr(|segments|));
  }

  /** Load segments start on pages: the first always, all if sizes are whole pages. */
  lemma {:induction false} SegmentsAligned(segments: seq<Segment>, i: nat)
    requires i < |segments|
    requires forall j :: 0 <= j < i ==> |segments[j].bytes| % 4096 == 0
    ensures SegmentOffset(segments, i) % 4096 == 0
    decreases i
  {
    var contents := Contents(segments);
    if i == 0 {
      assert contents[..0] == [];
    } else {
      SegmentsAligned(segments, i - 1);
      assert contents[..i] == contents[..i - 1] + [contents[i - 1]];
      JoinSnoc(contents[..i - 1], contents[i - 1]);
    }
  }
}
