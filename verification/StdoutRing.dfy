/**
 The standard output of a payload: a ring buffer in the IPC block, written by
 the monitor on behalf of the payload and read by the manager. The buffer and
 both positions are read and written by two cores at the same time.

 `StdoutRing` has the single accesses as atomic actions and is about every
 interleaving; `StdoutChannel` has the two routines as they run undisturbed.
 */
module RingTypes {
  type Byte = b: int | 0 <= b < 256

  const SIZE: nat := 1024

  /** The unread bytes between the read and the write position. */
  function Queue(buf: seq<Byte>, rd: nat, wr: nat): (q: seq<Byte>)
    requires |buf| == SIZE && rd < SIZE && wr < SIZE
    ensures |q| < SIZE
  {
    if rd <= wr then buf[rd..wr] else buf[rd..] + buf[..wr]
  }

  lemma QueueFull(buf: seq<Byte>, rd: nat, wr: nat)
    requires |buf| == SIZE && rd < SIZE && wr < SIZE
    ensures |Queue(buf, rd, wr)| == SIZE - 1 <==> (wr + 1) % SIZE == rd
    ensures Queue(buf, rd, wr) == [] <==> rd == wr
  {
  }

  lemma QueueLength(buf: seq<Byte>, rd: nat, wr: nat)
    requires |buf| == SIZE && rd < SIZE && wr < SIZE
    ensures |Queue(buf, rd, wr)| == if rd <= wr then wr - rd else SIZE - rd + wr
  {
  }

  lemma QueueAt(buf: seq<Byte>, rd: nat, wr: nat, i: nat)
    requires |buf| == SIZE && rd < SIZE && wr < SIZE && i < |Queue(buf, rd, wr)|
    ensures Queue(buf, rd, wr)[i] == buf[if rd + i < SIZE then rd + i else rd + i - SIZE]
  {
  }

  lemma QueueAppend(buf: seq<Byte>, rd: nat, wr: nat, b: Byte)
    requires |buf| == SIZE && rd < SIZE && wr < SIZE
    requires (wr + 1) % SIZE != rd
    ensures Queue(buf[wr := b], rd, (wr + 1) % SIZE) == Queue(buf, rd, wr) + [b]
  {
    hide Queue;
    var after, next := buf[wr := b], (wr + 1) % SIZE;
    QueueLength(buf, rd, wr);
    QueueLength(after, rd, next);
    var q := Queue(after, rd, next);
    forall i | 0 <= i < |q|
      ensures q[i] == (Queue(buf, rd, wr) + [b])[i]
    {
      QueueAt(after, rd, next, i);
      if i < |q| - 1 {
        QueueAt(buf, rd, wr, i);
      }
    }
  }

  lemma QueueTake(buf: seq<Byte>, rd: nat, wr: nat)
    requires |buf| == SIZE && rd < SIZE && wr < SIZE && rd != wr
    ensures Queue(buf, rd, wr) == [buf[rd]] + Queue(buf, (rd + 1) % SIZE, wr)
  {
    hide Queue;
    var next := (rd + 1) % SIZE;
    QueueLength(buf, rd, wr);
    QueueLength(buf, next, wr);
    var q := Queue(buf, rd, wr);
    forall i | 0 <= i < |q|
      ensures q[i] == ([buf[rd]] + Queue(buf, next, wr))[i]
    {
      QueueAt(buf, rd, wr, i);
      if i > 0 {
        QueueAt(buf, next, wr, i - 1);
      }
    }
  }
}

module StdoutChannel {
  import opened RingTypes

  const MESSAGE_LENGTH: nat := 40

  /** The text the monitor inserts after it had to reset its position. */
  function Message(): (m: seq<Byte>)
    ensures |m| == MESSAGE_LENGTH
  {
    var text := "unexpected dom_stdout_wrpos, reset to 0\n";
    seq(|text|, i requires 0 <= i < |text| => text[i] as int % 256)
  }

  /** The text in ASCII, with a line feed at the end and no zero. */
  lemma MessageInAscii()
    ensures Message() == [0x75, 0x6E, 0x65, 0x78, 0x70, 0x65, 0x63, 0x74, 0x65, 0x64,
                          0x20, 0x64, 0x6F, 0x6D, 0x5F, 0x73, 0x74, 0x64, 0x6F, 0x75,
                          0x74, 0x5F, 0x77, 0x72, 0x70, 0x6F, 0x73, 0x2C, 0x20, 0x72,
                          0x65, 0x73, 0x65, 0x74, 0x20, 0x74, 0x6F, 0x20, 0x30, 0x0A]
  {
  }

  function Min(a: nat, b: nat): nat {
    if a <= b then a else b
  }

  /** What the queue holds after an attempt to write `data`. */
  function Offered(q: seq<Byte>, data: seq<Byte>): seq<Byte>
    requires |q| < SIZE
  {
    q + data[..Min(|data|, SIZE - 1 - |q|)]
  }

  lemma OfferedFits(q: seq<Byte>, data: seq<Byte>)
    requires |q| < SIZE
    ensures |Offered(q, data)| < SIZE
  {
  }

  /**
   Writing round and round from slot w with no reader to stop it: every slot
   holds the last byte that fell on it, or what it held before.
   */
  ghost predicate Wrapped(before: seq<Byte>, w: nat, data: seq<Byte>, after: seq<Byte>, w': nat)
    requires |before| == |after| == SIZE
  {
    && w' == (w + |data|) % SIZE
    && (forall k :: 0 <= k < |data| <= k + SIZE ==> after[Slot(w, k)] == data[k])
    && (forall k :: |data| <= k < SIZE ==> after[Slot(w, k)] == before[Slot(w, k)])
  }

  function Slot(w: nat, k: nat): (r: nat)
    ensures r < SIZE
  {
    (w + k) % SIZE
  }

  lemma SlotsApart(w: nat, i: nat, j: nat)
    requires i < j < i + SIZE
    ensures Slot(w, i) != Slot(w, j)
  {
  }

  lemma SlotNext(w: nat, k: nat, n: nat)
    ensures Slot(Slot(w, n), k) == Slot(w, n + k)
  {
    var m := w + n;
    assert m == SIZE * (m / SIZE) + m % SIZE;
  }

  lemma WrapOne(before: seq<Byte>, w: nat, data: seq<Byte>, n: nat, after: seq<Byte>)
    requires |before| == |after| == SIZE && w < SIZE && n < |data|
    requires Wrapped(before, w, data[..n], after, Slot(w, n))
    ensures Wrapped(before, w, data[..n + 1], after[Slot(w, n) := data[n]], Slot(Slot(w, n), 1))
  {
    hide Slot;
    var more := data[..n + 1];
    var next := after[Slot(w, n) := data[n]];
    SlotNext(w, 1, n);
    assert (w + |more|) % SIZE == Slot(w, n + 1) by { SlotIs(w, n + 1); }
    forall k | 0 <= k < |more| <= k + SIZE
      ensures next[Slot(w, k)] == more[k]
    {
      if k < n {
        SlotsApart(w, k, n);
        assert data[..n][k] == more[k];
      }
    }
    forall k | |more| <= k < SIZE
      ensures next[Slot(w, k)] == before[Slot(w, k)]
    {
      SlotsApart(w, n, k);
    }
  }

  lemma SlotIs(w: nat, k: nat)
    ensures Slot(w, k) == (w + k) % SIZE
  {
  }

  lemma NothingWrapped(buf: seq<Byte>, w: nat)
    requires |buf| == SIZE && w < SIZE
    ensures Wrapped(buf, w, [], buf, w) && Slot(w, 0) == w
  {
  }

  /** The write loop has put `done` into the buffer. */
  ghost predicate Progress(before: seq<Byte>, w: nat, rd: nat, done: seq<Byte>, now: seq<Byte>, wr: nat)
    requires |before| == |now| == SIZE && w < SIZE && wr < SIZE
  {
    && wr == Slot(w, |done|)
    && (rd < SIZE ==> Queue(now, rd, wr) == Queue(before, rd, w) + done)
    && (rd >= SIZE ==> Wrapped(before, w, done, now, wr))
  }

  lemma ProgressStarts(before: seq<Byte>, w: nat, rd: nat, data: seq<Byte>)
    requires |before| == SIZE && w < SIZE
    ensures Progress(before, w, rd, data[..0], before, w)
  {
    hide Queue;
    NothingWrapped(before, w);
    assert data[..0] == [];
  }

  lemma ProgressSteps(before: seq<Byte>, w: nat, rd: nat, data: seq<Byte>, n: nat, now: seq<Byte>, wr: nat)
    requires |before| == |now| == SIZE && w < SIZE && wr < SIZE && n < |data| && (wr + 1) % SIZE != rd
    requires Progress(before, w, rd, data[..n], now, wr)
    ensures Progress(before, w, rd, data[..n + 1], now[wr := data[n]], (wr + 1) % SIZE)
  {
    hide Queue, Wrapped, Slot;
    SlotIs(wr, 1);
    SlotNext(w, 1, n);
    assert data[..n + 1] == data[..n] + [data[n]];
    if rd < SIZE {
      QueueAppend(now, rd, wr, data[n]);
    } else {
      WrapOne(before, w, data, n, now);
    }
  }

  /** The buffer is full, or everything is written. */
  lemma ProgressEnds(before: seq<Byte>, w: nat, rd: nat, data: seq<Byte>, n: nat, now: seq<Byte>, wr: nat)
    requires |before| == |now| == SIZE && w < SIZE && wr < SIZE && n <= |data|
    requires (wr + 1) % SIZE == rd || n == |data|
    requires Progress(before, w, rd, data[..n], now, wr)
    ensures rd < SIZE ==> Queue(now, rd, wr) == Offered(Queue(before, rd, w), data)
    ensures rd >= SIZE ==> Wrapped(before, w, data, now, wr)
  {
    hide Queue, Wrapped, Slot;
    if rd < SIZE {
      QueueFull(now, rd, wr);
    }
    if n == |data| {
      assert data[..n] == data;
    }
  }

  /** Two writes in a row are one of both texts. */
  lemma WrapTwice(before: seq<Byte>, w: nat, a: seq<Byte>, middle: seq<Byte>, v: nat, b: seq<Byte>, after: seq<Byte>, u: nat)
    requires |before| == |middle| == |after| == SIZE
    requires Wrapped(before, w, a, middle, v) && Wrapped(middle, v, b, after, u)
    ensures Wrapped(before, w, a + b, after, u)
  {
    hide Slot;
    SlotIs(w, |a|);
    SlotIs(v, |b|);
    SlotIs(w, |a + b|);
    SlotNext(w, |b|, |a|);
    forall k | 0 <= k < |a + b| <= k + SIZE
      ensures after[Slot(w, k)] == (a + b)[k]
    {
      if k >= |a| {
        SlotNext(w, k - |a|, |a|);
      } else {
        LeftAlone(w, a, k, b, after, middle, v);
      }
    }
    forall k | |a + b| <= k < SIZE
      ensures after[Slot(w, k)] == before[Slot(w, k)]
    {
      SlotNext(w, k - |a|, |a|);
    }
  }

  /** A byte of the first text that the second does not reach round to. */
  lemma LeftAlone(w: nat, a: seq<Byte>, k: nat, b: seq<Byte>, after: seq<Byte>, middle: seq<Byte>, v: nat)
    requires |middle| == |after| == SIZE && v == Slot(w, |a|)
    requires k < |a| && |a| + |b| <= k + SIZE
    requires forall i :: |b| <= i < SIZE ==> after[Slot(v, i)] == middle[Slot(v, i)]
    ensures after[Slot(w, k)] == middle[Slot(w, k)]
  {
    hide Slot;
    var i := k + SIZE - |a|;
    SlotNext(w, i, |a|);
    SlotIs(w, k);
    SlotIs(w, k + SIZE);
    assert (w + k + SIZE) % SIZE == (w + k) % SIZE;
  }

  /** The conversion of a size to the `int` that is returned. */
  function ToInt(size: nat): int {
    var low := size % 0x1_0000_0000;
    if low < 0x8000_0000 then low else low - 0x1_0000_0000
  }

  class IpcStdout {
    const buf: array<Byte>
    var wrpos: nat
    var rdpos: nat

    ghost predicate Valid() {
      buf.Length == SIZE
    }

    /** The IPC block is zeroed at start-up. */
    constructor ()
      ensures Valid() && fresh(buf)
      ensures wrpos == 0 && rdpos == 0
    {
      buf := new Byte[SIZE](i => 0);
      wrpos, rdpos := 0, 0;
    }

    ghost function Contents(): seq<Byte>
      requires Valid() && wrpos < SIZE && rdpos < SIZE
      reads this, buf
    {
      Queue(buf[..], rdpos, wrpos)
    }

    /** The queue as it would read with the write position reset to 0. */
    ghost function ContentsAfterReset(): seq<Byte>
      requires Valid() && rdpos < SIZE
      reads this, buf
    {
      Queue(buf[..], rdpos, 0)
    }

    /**
     Appends as much of `data` as there is room for, silently drops the rest and
     reports the whole size as written. A write position outside the buffer is
     reset to 0 and a message is put in front; the call for the message finds
     the position in range, so it does not recur again.
     */
    method WriteToStdout(data: seq<Byte>) returns (r: int)
      requires Valid()
      modifies this`wrpos, buf
      ensures wrpos < SIZE
      ensures r == ToInt(|data|)
      ensures rdpos < SIZE && old(wrpos) < SIZE ==>
                Contents() == Offered(old(Contents()), data)
      ensures rdpos < SIZE && old(wrpos) >= SIZE ==>
                |Offered(old(ContentsAfterReset()), Message())| < SIZE &&
                Contents() == Offered(Offered(old(ContentsAfterReset()), Message()), data)
      ensures rdpos >= SIZE && old(wrpos) < SIZE ==> Wrapped(old(buf[..]), old(wrpos), data, buf[..], wrpos)
      ensures rdpos >= SIZE && old(wrpos) >= SIZE ==> Wrapped(old(buf[..]), 0, Message() + data, buf[..], wrpos)
      decreases wrpos >= SIZE
    {
      hide Queue, Offered, Message, ToInt, Wrapped;
      ghost var before, middle, w := buf[..], buf[..], 0;
      if wrpos >= SIZE {
        wrpos := 0;
        ghost var q := if rdpos < SIZE then Contents() else [];
        OfferedFits(q, Message());
        var ignored := WriteToStdout(Message());
        assert rdpos < SIZE ==> Contents() == Offered(q, Message());
        middle, w := buf[..], wrpos;
        assert rdpos >= SIZE ==> Wrapped(before, 0, Message(), middle, w);
      }
      var wrote := PutBytes(data);
      if rdpos >= SIZE && old(wrpos) >= SIZE {
        WrapTwice(before, 0, Message(), middle, w, data, buf[..], wrpos);
      }
      r := ToInt(wrote);
    }

    /** The write loop. */
    method PutBytes(data: seq<Byte>) returns (wrote: nat)
      requires Valid() && wrpos < SIZE
      modifies this`wrpos, buf
      ensures wrpos < SIZE
      ensures wrote == |data|
      ensures rdpos < SIZE ==> Contents() == Offered(old(Contents()), data)
      ensures rdpos >= SIZE ==> Wrapped(old(buf[..]), old(wrpos), data, buf[..], wrpos)
    {
      hide Queue, Wrapped, Progress, Offered;
      ghost var before, w := buf[..], wrpos;
      ProgressStarts(before, w, rdpos, data);
      var size: nat := |data|;
      wrote := 0;
      while size > 0
        invariant wrote + size == |data|
        invariant wrpos < SIZE
        invariant Progress(before, w, rdpos, data[..wrote], buf[..], wrpos)
      {
        var next := (wrpos + 1) % SIZE;
        if next == rdpos {
          ProgressEnds(before, w, rdpos, data, wrote, buf[..], wrpos);
          wrote := wrote + size;
          return;
        }
        ProgressSteps(before, w, rdpos, data, wrote, buf[..], wrpos);
        ghost var now := buf[..];
        buf[wrpos] := data[wrote];
        assert buf[..] == now[wrpos := data[wrote]];
        wrpos := next;
        wrote := wrote + 1;
        size := size - 1;
      }
      ProgressEnds(before, w, rdpos, data, wrote, buf[..], wrpos);
    }

    /** The oldest unread byte, or -1; a read position outside the buffer is reset. */
    method Getchar() returns (r: int)
      requires Valid()
      modifies this`rdpos
      ensures rdpos < SIZE
      ensures old(rdpos) < SIZE && wrpos < SIZE && old(Contents()) == [] ==> r == -1 && Contents() == []
      ensures old(rdpos) < SIZE && wrpos < SIZE && old(Contents()) != [] ==>
                old(Contents()) == [r] + Contents()
      ensures old(rdpos) >= SIZE ==>
                if wrpos == 0 then r == -1 && rdpos == 0 else r == buf[0] && rdpos == 1
      ensures old(rdpos) < SIZE && wrpos >= SIZE ==> r == buf[old(rdpos)] && rdpos == (old(rdpos) + 1) % SIZE
    {
      hide Queue;
      if rdpos >= SIZE {
        rdpos := 0;
      }
      if wrpos < SIZE {
        QueueFull(buf[..], rdpos, wrpos);
      }
      if rdpos != wrpos {
        if wrpos < SIZE {
          QueueTake(buf[..], rdpos, wrpos);
        }
        var c := buf[rdpos];
        rdpos := (rdpos + 1) % SIZE;
        return c;
      }
      return -1;
    }
  }

  /**
   The number reported is the requested size exactly for sizes an `int` can
   hold; larger sizes come back truncated.
   */
  lemma ReportedSizeExact(size: nat)
    ensures ToInt(size) == size <==> size < 0x8000_0000
    ensures -0x8000_0000 <= ToInt(size) < 0x8000_0000 && (size - ToInt(size)) % 0x1_0000_0000 == 0
  {
  }
}

/** Every interleaving of the single accesses of writer and reader. */
module StdoutRing {
  import opened RingTypes
  import StdoutChannel

  /** A byte and the payload that wrote it, as fixed when its write began. */
  datatype Entry = Entry(owner: nat, byte: Byte)

  /** The monitor inside its write loop. */
  datatype Producer =
    | AtLoopHead
    | Checked(entry: Entry, next: nat)
    | Stored(entry: Entry, next: nat)

  /** The manager inside getchar, or inside the flush of startPayloadAt. */
  datatype Consumer =
    | Outside
    | SawData
    | Loaded(byte: Byte)
    | Flushing(position: nat, mark: nat)

  /**
   The shared buffer and positions, both program counters, and the history:
   everything published so far (`stream`), how much of it has been passed by
   the reader (`taken`), where the last flush was (`flushed`) and what getchar
   has returned since then (`delivered`).
   */
  datatype State = State(
    buf: seq<Byte>, wrpos: nat, rdpos: nat,
    producer: Producer, consumer: Consumer,
    stream: seq<Entry>, taken: nat, flushed: nat, delivered: seq<Entry>)

  datatype Action =
    | Check(entry: Entry)
    | Store
    | Publish
    | Peek
    | Load
    | Advance
    | FlushRead
    | FlushWrite

  function Initial(): State {
    State(seq(SIZE, i => 0), 0, 0, AtLoopHead, Outside, [], 0, 0, [])
  }

  predicate Enabled(s: State, a: Action) {
    match a
    case Check(_) => s.producer.AtLoopHead?
    case Store => s.producer.Checked? && s.wrpos < |s.buf|
    case Publish => s.producer.Stored?
    case Peek => s.consumer.Outside?
    case Load => s.consumer.SawData? && s.rdpos < |s.buf|
    case Advance => s.consumer.Loaded? && s.taken < |s.stream|
    case FlushRead => s.consumer.Outside?
    case FlushWrite => s.consumer.Flushing?
  }

  function Apply(s: State, a: Action): State
    requires Enabled(s, a)
  {
    match a
    case Check(entry) =>
      // One read of the manager's position; if the buffer is full the rest is dropped.
      var next := (s.wrpos + 1) % SIZE;
      if next == s.rdpos then s else s.(producer := Checked(entry, next))
    case Store =>
      s.(buf := s.buf[s.wrpos := s.producer.entry.byte], producer := Stored(s.producer.entry, s.producer.next))
    case Publish =>
      s.(wrpos := s.producer.next, producer := AtLoopHead, stream := s.stream + [s.producer.entry])
    case Peek =>
      if s.rdpos != s.wrpos then s.(consumer := SawData) else s
    case Load =>
      s.(consumer := Loaded(s.buf[s.rdpos]))
    case Advance =>
      s.(rdpos := (s.rdpos + 1) % SIZE, consumer := Outside, taken := s.taken + 1,
         delivered := s.delivered + [Entry(s.stream[s.taken].owner, s.consumer.byte)])
    case FlushRead =>
      s.(consumer := Flushing(s.wrpos, |s.stream|))
    case FlushWrite =>
      s.(rdpos := s.consumer.position, consumer := Outside,
         taken := s.consumer.mark, flushed := s.consumer.mark, delivered := [])
  }

  // --------------------------------------------------------------- invariant

  predicate Positions(s: State) {
    && |s.buf| == SIZE
    && s.wrpos == |s.stream| % SIZE
    && s.rdpos == s.taken % SIZE
    && s.flushed <= s.taken <= |s.stream| < s.taken + SIZE
  }

  predicate UnreadIntact(s: State)
    requires Positions(s)
  {
    forall i :: s.taken <= i < |s.stream| ==> s.buf[i % SIZE] == s.stream[i].byte
  }

  predicate ProducerOk(s: State)
    requires Positions(s)
  {
    match s.producer
    case AtLoopHead => true
    case Checked(_, next) => next == (s.wrpos + 1) % SIZE && |s.stream| + 1 < s.taken + SIZE
    case Stored(entry, next) =>
      next == (s.wrpos + 1) % SIZE && |s.stream| + 1 < s.taken + SIZE && s.buf[s.wrpos] == entry.byte
  }

  predicate ConsumerOk(s: State) {
    match s.consumer
    case Outside => true
    case SawData => s.taken < |s.stream|
    case Loaded(c) => s.taken < |s.stream| && c == s.stream[s.taken].byte
    case Flushing(position, mark) => s.taken <= mark <= |s.stream| && position == mark % SIZE
  }

  predicate DeliveredOk(s: State)
    requires Positions(s)
  {
    s.delivered == s.stream[s.flushed..s.taken]
  }

  predicate Inv(s: State) {
    Positions(s) && UnreadIntact(s) && ProducerOk(s) && ConsumerOk(s) && DeliveredOk(s)
  }

  lemma InitialInv()
    ensures Inv(Initial())
  {
  }

  lemma SlotsDiffer(i: nat, j: nat)
    requires i < j < i + SIZE
    ensures i % SIZE != j % SIZE
  {
  }

  lemma NextSlot(n: nat)
    ensures (n % SIZE + 1) % SIZE == (n + 1) % SIZE
  {
  }

  /** A store never hits a byte the reader has yet to fetch. */
  lemma StoreMissesUnread(s: State, i: nat)
    requires Inv(s) && s.producer.Checked?
    requires s.taken <= i < |s.stream|
    ensures i % SIZE != s.wrpos
  {
    SlotsDiffer(i, |s.stream|);
  }

  lemma CheckKeepsInv(s: State, entry: Entry)
    requires Inv(s) && Enabled(s, Check(entry))
    ensures Inv(Apply(s, Check(entry)))
  {
    hide UnreadIntact, DeliveredOk;
    NextSlot(|s.stream|);
    var s' := Apply(s, Check(entry));
    assert UnreadIntact(s') && DeliveredOk(s') by {
      Unaffected(s, s');
    }
    if |s.stream| + 1 == s.taken + SIZE {
      assert (|s.stream| + 1) % SIZE == s.taken % SIZE;
    }
  }

  lemma Unaffected(s: State, s': State)
    requires Inv(s)
    requires s' == s.(producer := s'.producer)
    ensures UnreadIntact(s') && DeliveredOk(s')
  {
  }

  lemma StoreKeepsInv(s: State)
    requires Inv(s) && Enabled(s, Store)
    ensures Inv(Apply(s, Store))
  {
    var s' := Apply(s, Store);
    forall i | s.taken <= i < |s.stream|
      ensures s'.buf[i % SIZE] == s.stream[i].byte
    {
      StoreMissesUnread(s, i);
    }
  }

  lemma PublishKeepsInv(s: State)
    requires Inv(s) && Enabled(s, Publish)
    ensures Inv(Apply(s, Publish))
  {
    var s' := Apply(s, Publish);
    NextSlot(|s.stream|);
    assert s'.stream[s.flushed..s.taken] == s.stream[s.flushed..s.taken];
  }

  lemma ConsumerKeepsInv(s: State, a: Action)
    requires Inv(s) && Enabled(s, a)
    requires !(a.Check? || a.Store? || a.Publish?)
    ensures Inv(Apply(s, a))
  {
    var s' := Apply(s, a);
    NextSlot(s.taken);
    match a
    case Peek =>
    case Load =>
    case Advance =>
      assert s.stream[s.flushed..s.taken + 1] == s.stream[s.flushed..s.taken] + [s.stream[s.taken]];
    case FlushRead =>
    case FlushWrite =>
  }

  lemma StepKeepsInv(s: State, a: Action)
    requires Inv(s) && Enabled(s, a)
    ensures Inv(Apply(s, a))
  {
    match a
    case Check(entry) => CheckKeepsInv(s, entry);
    case Store => StoreKeepsInv(s);
    case Publish => PublishKeepsInv(s);
    case _ => ConsumerKeepsInv(s, a);
  }

  // -------------------------------------------------------- refinement of a FIFO

  /** The abstract queue. */
  function Fifo(s: State): seq<Entry>
    requires Positions(s)
  {
    s.stream[s.taken..]
  }

  /** Every access is invisible, or one operation on the queue. */
  ghost predicate FifoStep(s: State, a: Action, s': State)
    requires Positions(s) && Positions(s')
  {
    match a
    case Publish => s.producer.Stored? && Fifo(s') == Fifo(s) + [s.producer.entry]
    case Advance => s.consumer.Loaded? && |s'.delivered| > 0
                    && s'.delivered[|s'.delivered| - 1].byte == s.consumer.byte
                    && Fifo(s) == [s'.delivered[|s'.delivered| - 1]] + Fifo(s')
    case FlushWrite => s.consumer.Flushing? && s.taken <= s.consumer.mark <= |s.stream|
                       && Fifo(s') == Fifo(s)[s.consumer.mark - s.taken..]
    case _ => Fifo(s') == Fifo(s)
  }

  lemma RefinesFifo(s: State, a: Action)
    requires Inv(s) && Enabled(s, a)
    ensures Inv(Apply(s, a)) && FifoStep(s, a, Apply(s, a))
  {
    StepKeepsInv(s, a);
  }

  /** The bytes that lie in the buffer between the positions are that queue. */
  lemma BufferHoldsFifo(s: State)
    requires Inv(s)
    ensures |Queue(s.buf, s.rdpos, s.wrpos)| == |Fifo(s)|
    ensures forall i :: 0 <= i < |Fifo(s)| ==> Queue(s.buf, s.rdpos, s.wrpos)[i] == Fifo(s)[i].byte
  {
    var n := |s.stream| - s.taken;
    Slot(s.taken, n);
    hide DeliveredOk, Queue, ConsumerOk, ProducerOk;
    QueueLength(s.buf, s.rdpos, s.wrpos);
    forall i | 0 <= i < n
      ensures Queue(s.buf, s.rdpos, s.wrpos)[i] == s.stream[s.taken + i].byte
    {
      Slot(s.taken, i);
      QueueAt(s.buf, s.rdpos, s.wrpos, i);
    }
  }

  lemma Slot(start: nat, i: nat)
    requires i < SIZE
    ensures (start + i) % SIZE == if start % SIZE + i < SIZE then start % SIZE + i else start % SIZE + i - SIZE
  {
  }

  /** A byte is refused if and only if 1023 are unread; otherwise its write goes on. */
  lemma RefusedExactly(s: State, entry: Entry)
    requires Inv(s) && s.producer.AtLoopHead?
    ensures Apply(s, Check(entry)) == s <==> |Fifo(s)| == 1023
    ensures |Fifo(s)| < 1023 ==> Apply(s, Check(entry)) == s.(producer := Checked(entry, (s.wrpos + 1) % SIZE))
  {
    NextSlot(|s.stream|);
    hide UnreadIntact, DeliveredOk, ConsumerOk;
    if |Fifo(s)| == 1023 {
      assert |s.stream| + 1 == s.taken + SIZE;
    } else {
      SlotsDiffer(s.taken, |s.stream| + 1);
    }
  }

  /** getchar finds nothing if and only if nothing is unread. */
  lemma NothingExactly(s: State)
    requires Inv(s) && s.consumer.Outside?
    ensures Apply(s, Peek) == s <==> Fifo(s) == []
    ensures Fifo(s) != [] ==> Apply(s, Peek) == s.(consumer := SawData)
  {
    hide UnreadIntact, DeliveredOk, ProducerOk;
    if Fifo(s) != [] {
      SlotsDiffer(s.taken, |s.stream|);
    }
  }

  /** Neither side is ever stopped by anything but its own program counter. */
  lemma NoStepBlocked(s: State)
    requires Inv(s)
    ensures Enabled(s, Store) <==> s.producer.Checked?
    ensures Enabled(s, Load) <==> s.consumer.SawData?
    ensures Enabled(s, Advance) <==> s.consumer.Loaded?
  {
  }

  // -------------------------------------------------------------------- runs

  ghost predicate Reaches(s: State, actions: seq<Action>, s': State)
    decreases |actions|
  {
    if actions == [] then s' == s
    else Enabled(s, actions[0]) && Reaches(Apply(s, actions[0]), actions[1..], s')
  }

  lemma {:induction false} RunKeepsInv(s: State, actions: seq<Action>, s': State)
    requires Inv(s) && Reaches(s, actions, s')
    ensures Inv(s')
    decreases |actions|
  {
    if actions != [] {
      StepKeepsInv(s, actions[0]);
      RunKeepsInv(Apply(s, actions[0]), actions[1..], s');
    }
  }

  // ------------------------------------------- the write loop, undisturbed

  predicate OfWriter(a: Action) {
    a.Check? || a.Store? || a.Publish?
  }

  function Unread(s: State): seq<Byte>
    requires Positions(s)
  {
    Queue(s.buf, s.rdpos, s.wrpos)
  }

  lemma {:induction false} RunOn(s: State, actions: seq<Action>, t: State, a: Action)
    requires Reaches(s, actions, t) && Enabled(t, a)
    ensures Reaches(s, actions + [a], Apply(t, a))
    decreases |actions|
  {
    hide Apply, Enabled;
    if actions == [] {
      assert actions + [a] == [a] && [a][1..] == [];
    } else {
      assert (actions + [a])[1..] == actions[1..] + [a];
      RunOn(Apply(s, actions[0]), actions[1..], t, a);
    }
  }

  /** One byte goes through. */
  lemma PutsOne(s: State, entry: Entry) returns (actions: seq<Action>, t: State)
    requires Inv(s) && s.producer.AtLoopHead? && |Fifo(s)| < 1023
    ensures Reaches(s, actions, t) && forall i :: 0 <= i < |actions| ==> OfWriter(actions[i])
    ensures Inv(t) && t.producer.AtLoopHead? && t.rdpos == s.rdpos && Unread(t) == Unread(s) + [entry.byte]
  {
    RefusedExactly(s, entry);
    var checked := Apply(s, Check(entry));
    StepKeepsInv(s, Check(entry));
    NoStepBlocked(checked);
    var stored := Apply(checked, Store);
    StepKeepsInv(checked, Store);
    t := Apply(stored, Publish);
    StepKeepsInv(stored, Publish);
    assert (s.wrpos + 1) % SIZE != s.rdpos;
    QueueAppend(s.buf, s.rdpos, s.wrpos, entry.byte);
    assert Reaches(s, [], s);
    hide Apply, Inv;
    RunOn(s, [], s, Check(entry));
    RunOn(s, [] + [Check(entry)], checked, Store);
    RunOn(s, [] + [Check(entry)] + [Store], stored, Publish);
    actions := [] + [Check(entry)] + [Store] + [Publish];
  }

  lemma {:induction false} Joined(s: State, a: seq<Action>, t: State, b: seq<Action>, u: State)
    requires Reaches(s, a, t) && Reaches(t, b, u)
    ensures Reaches(s, a + b, u)
    decreases |a|
  {
    hide Apply, Enabled;
    if a == [] {
      assert a + b == b;
    } else {
      assert (a + b)[1..] == a[1..] + b;
      Joined(Apply(s, a[0]), a[1..], t, b, u);
    }
  }

  /**
   The loop of the monitor, access by access and with the reader at rest, does
   to the unread bytes exactly what the undisturbed routine promises: it appends
   the longest prefix of the data that fits.
   */
  lemma {:induction false} WriterRun(s: State, owner: nat, data: seq<Byte>) returns (actions: seq<Action>, t: State)
    requires Inv(s) && s.producer.AtLoopHead?
    ensures Reaches(s, actions, t) && forall i :: 0 <= i < |actions| ==> OfWriter(actions[i])
    ensures Inv(t) && t.producer.AtLoopHead? && t.rdpos == s.rdpos
    ensures Unread(t) == StdoutChannel.Offered(Unread(s), data)
    decreases |data|
  {
    BufferHoldsFifo(s);
    actions, t := [], s;
    if data != [] && |Fifo(s)| < 1023 {
      hide Queue, Inv;
      actions, t := PutsOne(s, Entry(owner, data[0]));
      var rest, u := WriterRun(t, owner, data[1..]);
      Joined(s, actions, t, rest, u);
      OfferedOne(Unread(s), data);
      actions, t := actions + rest, u;
    }
  }

  lemma OfferedOne(q: seq<Byte>, data: seq<Byte>)
    requires |q| < 1023 && data != []
    ensures StdoutChannel.Offered(q, data) == StdoutChannel.Offered(q + [data[0]], data[1..])
  {
  }

  /** The bytes accepted since the last flush. */
  function Accepted(s: State): seq<Entry>
    requires Positions(s)
  {
    s.stream[s.flushed..]
  }

  /**
   In every reachable state both positions are inside the buffer, at most 1023
   bytes are unread, and what getchar has returned since the last flush is a
   prefix, in order, of what was accepted since then.
   */
  lemma RunSafety(actions: seq<Action>, s: State)
    requires Reaches(Initial(), actions, s)
    ensures Positions(s)
    ensures s.wrpos < SIZE && s.rdpos < SIZE
    ensures |Fifo(s)| <= SIZE - 1
    ensures s.delivered <= Accepted(s)
  {
    InitialInv();
    RunKeepsInv(Initial(), actions, s);
  }
}
