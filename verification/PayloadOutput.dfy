/**
 Whose bytes the manager reads: the standard output ring together with the
 command protocol. A payload writes through the monitor, with all interrupts
 masked; startPayloadAt flushes the ring between its guards and its stores.
 */
module PayloadOutput {
  import opened Protocol
  import opened ProtocolPaths
  import opened ProtocolArguments
  import ProtocolPickup
  import RingTypes
  import Ring = StdoutRing

  datatype System = System(p: State, r: Ring.State)

  /** A step of the protocol, or a single access of the writer or of getchar. */
  datatype Step = Core(e: Event) | Output(a: Ring.Action)

  predicate Flushes(p: State, e: Event, k: nat) {
    e.ManagerStep? && p.mgr.Writing? && p.mgr.k == k
  }

  /** What the core cannot do in the middle of a write; a fault it can have. */
  predicate LeavesWrite(e: Event) {
    e.MonitorStep? || e.PayloadStarted? || e.PayloadCrashed? || e.TakeKill?
  }

  /**
   The accesses of one write belong to the payload the monitor serves. getchar
   and the flush do not overlap.
   */
  predicate Possible(y: System, x: Step) {
    match x
    case Core(e) =>
      && Enabled(y.p, e)
      && (y.r.producer.AtLoopHead? || !LeavesWrite(e))
      && (Flushes(y.p, e, 0) ==> y.r.consumer.Outside?)
      && (Flushes(y.p, e, 1) ==> y.r.consumer.Flushing?)
    case Output(a) =>
      && Ring.Enabled(y.r, a)
      && !a.FlushRead? && !a.FlushWrite?
      && (a.Check? || a.Store? || a.Publish? ==> y.p.mon.InPayload? && !y.p.mon.dummy)
      && (a.Check? ==> a.entry.owner == y.p.h.current)
  }

  function After(y: System, x: Step): System
    requires Possible(y, x)
  {
    match x
    case Core(e) =>
      System(Next(y.p, e),
             if Flushes(y.p, e, 0) then Ring.Apply(y.r, Ring.FlushRead)
             else if Flushes(y.p, e, 1) then Ring.Apply(y.r, Ring.FlushWrite)
             else if e.ManagerStep? && y.p.mgr.StartupClear? then Ring.Initial()
             else y.r)
    case Output(a) => System(y.p, Ring.Apply(y.r, a))
  }

  ghost predicate Runs(d: Discipline, y: System, steps: seq<Step>, y': System)
    decreases |steps|
  {
    if steps == [] then y' == y
    else
      && Possible(y, steps[0]) && (steps[0].Core? ==> Allowed(d, y.p, steps[0].e))
      && Runs(d, After(y, steps[0]), steps[1..], y')
  }

  predicate InitialSystem(y: System) {
    Initial(y.p) && y.r == Ring.Initial()
  }

  // --------------------------------------------------------------- invariant

  /** A write in progress is one of the running payload, or was cut off by a crash. */
  predicate BusyOk(y: System) {
    y.r.producer.AtLoopHead? || y.p.mon.Crashed?
    || (y.p.mon.InPayload? && !y.p.mon.dummy && y.r.producer.entry.owner == y.p.h.current)
  }

  /** From the flush to the new sequence number nothing is published. */
  predicate FlushOk(y: System) {
    && (y.r.consumer.Flushing? <==> y.p.mgr.Writing? && y.p.mgr.k == 1)
    && (y.r.consumer.Flushing? ==> y.r.consumer.mark == |y.r.stream|)
    && (y.p.mgr.Writing? && y.p.mgr.k >= 2 ==> y.r.flushed == |y.r.stream|)
  }

  /** What was published since the last flush comes from the latest command. */
  predicate OwnersOk(y: System) {
    forall i :: 0 <= y.r.flushed <= i < |y.r.stream| ==> y.r.stream[i].owner == y.p.h.issued
  }

  /** Before the first start there is no output. */
  predicate OffOk(y: System) {
    y.p.mon.Off? ==> y.r == Ring.Initial()
  }

  predicate Linked(y: System) {
    BusyOk(y) && FlushOk(y) && OwnersOk(y) && OffOk(y)
  }

  /** While a call flushes and writes, the monitor is at rest. */
  predicate RestOk(p: State) {
    p.mgr.Writing? ==> AtRest(p.mon)
  }

  /** What the protocol contributes. */
  predicate CoreInv(p: State) {
    Inv(p) && RestOk(p) && WorkIsLatest(p)
  }

  predicate Good(y: System) {
    CoreInv(y.p) && Ring.Inv(y.r) && Linked(y)
  }

  /** The flush finds no write in progress. */
  lemma FlushFindsNoWrite(y: System)
    requires Good(y) && y.p.mgr.Writing?
    ensures y.r.producer.AtLoopHead? || y.p.mon.Crashed?
    ensures !y.p.mon.InPayload?
  {
    hide Inv, WorkIsLatest;
  }

  lemma ManagerRest(p: State)
    requires CountersOk(p) && LifeOk(p) && RestOk(p) && WorkIsLatest(p) && Allowed(NoOverlap, p, ManagerStep)
    ensures RestOk(ManagerNext(p)) && WorkIsLatest(ManagerNext(p))
  {
    CountersTell(p);
    if p.mgr.Writing? {
      PutFrame(p);
    }
    hide SeesReady, Put, Increment, WordsOk;
  }

  lemma MonitorRest(p: State, verdict: Response)
    requires CountersOk(p) && RestOk(p) && WorkIsLatest(p)
    ensures RestOk(MonitorNext(p, verdict)) && WorkIsLatest(MonitorNext(p, verdict))
  {
    CountersTell(p);
    hide Increment, WordsOk;
  }

  lemma CoreStepKeepsInv(p: State, e: Event)
    requires CoreInv(p) && Enabled(p, e) && Allowed(NoOverlap, p, e)
    ensures CoreInv(Next(p, e))
  {
    StepKeepsInv(p, e);
    hide ManagerNext, MonitorNext, WordsOk, CountsOk, BarrierOk, WorkFresh, StatesOk, LifeOk;
    match e
    case ManagerStep => ManagerRest(p);
    case MonitorStep(verdict) => MonitorRest(p, verdict);
    case _ =>
  }

  lemma OutputKeepsRing(y: System, a: Ring.Action)
    requires Ring.Inv(y.r) && Possible(y, Output(a))
    ensures Ring.Inv(After(y, Output(a)).r)
  {
    Ring.StepKeepsInv(y.r, a);
  }

  lemma OutputKeepsLinked(y: System, a: Ring.Action)
    requires RestOk(y.p) && WorkIsLatest(y.p) && Ring.Positions(y.r) && Linked(y) && Possible(y, Output(a))
    ensures Linked(After(y, Output(a)))
  {
  }

  lemma CoreKeepsRing(y: System, e: Event)
    requires Ring.Inv(y.r) && Possible(y, Core(e))
    ensures Ring.Inv(After(y, Core(e)).r)
  {
    hide Next, Ring.Inv, Enabled;
    Ring.InitialInv();
    if Flushes(y.p, e, 0) {
      Ring.StepKeepsInv(y.r, Ring.FlushRead);
    } else if Flushes(y.p, e, 1) {
      Ring.StepKeepsInv(y.r, Ring.FlushWrite);
    }
  }

  /** What a step of the protocol does to what the ring depends on. */
  predicate Framed(p: State, e: Event, q: State) {
    && (q.mon == p.mon || LeavesWrite(e) || e.MonitorCrash? || p.mon.Off?)
    && (q.h.current == p.h.current || e.MonitorStep? || p.mon.Off?)
    && (e.MonitorCrash? ==> q.mon.Crashed?)
    && (q.h.issued == p.h.issued || Flushes(p, e, 7) || p.mon.Off?)
    && (q.mgr.Writing? ==> if p.mgr.Writing? && e.ManagerStep? then q.mgr.k == p.mgr.k + 1
                           else q.mgr == p.mgr || q.mgr.k == 0)
    && (p.mgr.Writing? ==> q.mgr.Writing? || Flushes(p, e, 7))
    && (p.mgr.Writing? && !e.ManagerStep? ==> q.mgr == p.mgr)
    && (q.mon.Off? ==> p.mon.Off?)
    && (p.mon.Off? ==> !p.mgr.Writing?)
  }

  lemma ManagerFrame(p: State)
    requires LifeOk(p) && CountsOk(p)
    ensures Framed(p, ManagerStep, ManagerNext(p))
  {
    if p.mgr.Writing? {
      PutFrame(p);
    }
    hide Put, Increment, SeesReady;
  }

  lemma MonitorFrame(p: State, verdict: Response)
    requires LifeOk(p)
    ensures Framed(p, MonitorStep(verdict), MonitorNext(p, verdict))
  {
    hide Increment;
  }

  lemma CoreFrame(p: State, e: Event)
    requires Enabled(p, e) && LifeOk(p) && CountsOk(p)
    ensures Framed(p, e, Next(p, e))
  {
    hide ManagerNext, MonitorNext, CountsOk;
    match e
    case ManagerStep => ManagerFrame(p);
    case MonitorStep(verdict) => MonitorFrame(p, verdict);
    case _ =>
  }

  lemma CoreKeepsLinked(y: System, e: Event)
    requires LifeOk(y.p) && CountsOk(y.p) && Ring.Positions(y.r) && Linked(y) && Possible(y, Core(e))
    ensures Linked(After(y, Core(e)))
  {
    CoreFrame(y.p, e);
    hide Next, Enabled, LifeOk, CountsOk;
  }

  lemma StepKeepsGood(y: System, x: Step)
    requires Good(y) && Possible(y, x) && (x.Core? ==> Allowed(NoOverlap, y.p, x.e))
    ensures Good(After(y, x))
  {
    match x
    case Core(e) =>
      hide Allowed, Next, Enabled, Linked, WordsOk, CountsOk, BarrierOk, WorkFresh, StatesOk, LifeOk, RestOk, WorkIsLatest;
      CoreStepKeepsInv(y.p, e);
      CoreKeepsRing(y, e);
      CoreKeepsLinked(y, e);
    case Output(a) =>
      hide Linked, Inv, RestOk, WorkIsLatest;
      OutputKeepsRing(y, a);
      OutputKeepsLinked(y, a);
  }

  lemma {:induction false} RunKeepsGood(y: System, steps: seq<Step>, y': System)
    requires Good(y) && Runs(NoOverlap, y, steps, y')
    ensures Good(y')
    decreases |steps|
  {
    if steps != [] {
      hide Good, Possible, After, Allowed;
      StepKeepsGood(y, steps[0]);
      RunKeepsGood(After(y, steps[0]), steps[1..], y');
    }
  }

  lemma InitialGood(y: System)
    requires InitialSystem(y)
    ensures Good(y)
  {
    InitialInv(y.p);
    Ring.InitialInv();
  }

  // ----------------------------------------------------------------- theorems

  /** Something getchar has returned since the last flush comes from another payload. */
  predicate Stale(y: System) {
    exists entry :: entry in y.r.delivered && entry.owner != y.p.h.issued
  }

  lemma NotStale(y: System)
    requires Good(y)
    ensures !Stale(y)
    ensures y.p.mon.InPayload? && !y.p.mon.dummy ==> y.p.h.current == y.p.h.issued
  {
    hide Inv, RestOk;
    forall entry | entry in y.r.delivered
      ensures entry.owner == y.p.h.issued
    {
      var k :| 0 <= k < |y.r.delivered| && y.r.delivered[k] == entry;
      assert entry == y.r.stream[y.r.flushed + k];
    }
  }

  /**
   If no call passes its second guard with a payload running or about to be
   entered, everything getchar has returned since the last flush was written by
   the payload of the latest command; while a payload runs, by that payload. No
   byte of an earlier payload is ever delivered after the flush.
   */
  lemma NoStaleByte(y0: System, steps: seq<Step>, y: System)
    requires InitialSystem(y0) && Runs(NoOverlap, y0, steps, y)
    ensures forall entry :: entry in y.r.delivered ==> entry.owner == y.p.h.issued
    ensures y.p.mon.InPayload? && !y.p.mon.dummy ==> forall entry :: entry in y.r.delivered ==> entry.owner == y.p.h.current
  {
    hide Good, Runs;
    InitialGood(y0);
    RunKeepsGood(y0, steps, y);
    NotStale(y);
  }

  lemma {:induction false} PromptRunsDoNotOverlap(y: System, steps: seq<Step>, y': System)
    requires ProtocolPickup.PromptInv(y.p) && Runs(Prompt, y, steps, y')
    ensures Runs(NoOverlap, y, steps, y')
    decreases |steps|
  {
    if steps != [] {
      hide ProtocolPickup.PromptInv, Next, Enabled, NotPickedUp, Forgotten, Overlaps;
      if steps[0].Core? {
        ProtocolPickup.StepKeepsPrompt(y.p, steps[0].e);
      }
      PromptRunsDoNotOverlap(After(y, steps[0]), steps[1..], y');
    }
  }

  /** The same if the monitor is prompt. */
  lemma NoStaleByteIfPrompt(y0: System, steps: seq<Step>, y: System)
    requires InitialSystem(y0) && Runs(Prompt, y0, steps, y)
    ensures forall entry :: entry in y.r.delivered ==> entry.owner == y.p.h.issued
  {
    hide Runs, ProtocolPickup.PromptInv;
    ProtocolPickup.InitialPromptInv(y0.p);
    PromptRunsDoNotOverlap(y0, steps, y);
    NoStaleByte(y0, steps, y);
  }

  // ------------------------------------------------- what happens without guards

  lemma {:induction false} Concatenated(d: Discipline, y: System, a: seq<Step>, z: System, b: seq<Step>, w: System)
    requires Runs(d, y, a, z) && Runs(d, z, b, w)
    ensures Runs(d, y, a + b, w)
    decreases |a|
  {
    if a == [] {
      assert a + b == b;
    } else {
      assert (a + b)[1..] == a[1..] + b;
      hide Possible, After, Allowed;
      Concatenated(d, After(y, a[0]), a[1..], z, b, w);
    }
  }

  /** One step more, of whatever kind. */
  lemma ThenDo(d: Discipline, y: System, steps: seq<Step>, z: System, x: Step) returns (longer: seq<Step>, z': System)
    requires Runs(d, y, steps, z) && Possible(z, x) && (x.Core? ==> Allowed(d, z.p, x.e))
    ensures Runs(d, y, longer, z') && z' == After(z, x)
  {
    hide Possible, After, Allowed;
    z' := After(z, x);
    assert [x][1..] == [];
    assert Runs(d, z, [x], z');
    Concatenated(d, y, steps, z, [x], z');
    longer := steps + [x];
  }

  /** Nothing has been written or read yet. */
  predicate Untouched(y: System) {
    y.r == if y.p.mgr.Writing? && y.p.mgr.k == 1 then Ring.Initial().(consumer := Ring.Flushing(0, 0)) else Ring.Initial()
  }

  lemma UntouchedStays(y: System, e: Event)
    requires Untouched(y) && Enabled(y.p, e) && LifeOk(y.p) && CountsOk(y.p)
    ensures Possible(y, Core(e)) && Untouched(After(y, Core(e)))
  {
    CoreFrame(y.p, e);
    hide Next, Enabled, LifeOk, CountsOk;
  }

  /** A run of the protocol is a run of the system in which nothing is written. */
  lemma {:induction false} Lift(y: System, events: seq<Event>, q: State) returns (steps: seq<Step>, z: System)
    requires Untouched(y) && Inv(y.p) && Follows(Free, y.p, events, q)
    ensures Runs(Free, y, steps, z) && z.p == q && Untouched(z)
    decreases |events|
  {
    steps, z := [], y;
    if events != [] {
      UntouchedStays(y, events[0]);
      StepKeepsInv(y.p, events[0]);
      hide Inv, Untouched, Next, Enabled;
      var first, next := ThenDo(Free, y, [], y, Core(events[0]));
      var rest;
      rest, z := Lift(next, events[1..], q);
      Concatenated(Free, y, first, next, rest, z);
      steps := first + rest;
    }
  }

  /** A payload is in the middle of a write when the next call passes its second guard. */
  predicate Straddled(y: System, args: Args) {
    && y.p.mgr == CheckAck(args) && y.p.mon.InPayload? && !y.p.mon.dummy && y.p.ipc.ack == y.p.ipc.sequence
    && y.r.producer.Stored? && y.r.producer.entry.owner == y.p.h.current && y.r.producer.next == 1
    && y.r.buf == Ring.Initial().buf[0 := y.r.producer.entry.byte]
    && y.r == Ring.Initial().(buf := y.r.buf, producer := y.r.producer)
  }

  lemma BeginsWrite(y: System, args: Args, b: RingTypes.Byte) returns (steps: seq<Step>, z: System)
    requires y.p.mgr == CheckAck(args) && y.p.mon.InPayload? && !y.p.mon.dummy && y.p.ipc.ack == y.p.ipc.sequence
    requires y.r == Ring.Initial()
    ensures Runs(Free, y, steps, z) && Straddled(z, args) && z.p == y.p && z.r.producer.entry.byte == b
  {
    steps, z := [], y;
    steps, z := ThenDo(Free, y, steps, z, Output(Ring.Check(Ring.Entry(y.p.h.current, b))));
    steps, z := ThenDo(Free, y, steps, z, Output(Ring.Store));
  }

  /** The byte is published between the two halves of the flush. */
  lemma SlipsThrough(y: System, args: Args) returns (steps: seq<Step>, z: System)
    requires Straddled(y, args)
    ensures Runs(Free, y, steps, z)
    ensures z.p == y.p.(mgr := Writing(args, 2)) && z.r.consumer.Outside? && z.r.delivered == []
    ensures z.r.stream == [y.r.producer.entry] && z.r.taken == z.r.flushed == 0 && z.r.rdpos == 0 && z.r.wrpos == 1
    ensures |z.r.buf| > 0 && z.r.buf[0] == y.r.producer.entry.byte
  {
    steps, z := [], y;
    steps, z := ThenDo(Free, y, steps, z, Core(ManagerStep));
    steps, z := ThenDo(Free, y, steps, z, Core(ManagerStep));
    steps, z := ThenDo(Free, y, steps, z, Output(Ring.Publish));
    steps, z := ThenDo(Free, y, steps, z, Core(ManagerStep));
  }

  lemma IsRead(y: System, entry: Ring.Entry) returns (steps: seq<Step>, z: System)
    requires y.r.consumer.Outside? && y.r.delivered == [] && y.r.stream == [entry]
    requires y.r.taken == 0 && y.r.rdpos == 0 && y.r.wrpos == 1 && |y.r.buf| > 0 && y.r.buf[0] == entry.byte
    ensures Runs(Free, y, steps, z) && z.p == y.p && z.r.delivered == [entry]
  {
    steps, z := [], y;
    steps, z := ThenDo(Free, y, steps, z, Output(Ring.Peek));
    steps, z := ThenDo(Free, y, steps, z, Output(Ring.Load));
    steps, z := ThenDo(Free, y, steps, z, Output(Ring.Advance));
  }

  /** The stores after the flush. */
  lemma {:induction false} CommandFollows(d: Discipline, y: System) returns (steps: seq<Step>, z: System)
    requires y.p.mgr.Writing? && 2 <= y.p.mgr.k <= 7
    ensures Runs(d, y, steps, z) && z.r == y.r && z.p.h.issued == y.p.h.issued + 1
    decreases 7 - y.p.mgr.k
  {
    PutFrame(y.p);
    hide Put, Runs, NotPickedUp, Harmful, Overlaps, Forgotten;
    assert Runs(d, y, [], y) by {
      NoSteps(d, y);
    }
    steps, z := ThenDo(d, y, [], y, Core(ManagerStep));
    if y.p.mgr.k < 7 {
      var rest, w := CommandFollows(d, z);
      Concatenated(d, y, steps, z, rest, w);
      steps, z := steps + rest, w;
    }
  }

  lemma NoSteps(d: Discipline, y: System)
    ensures Runs(d, y, [], y)
  {
  }

  /** From power-up to a payload entered under a call that has passed its first guard. */
  lemma ComesToPayload(s0: State, args: Args, other: Args) returns (events: seq<Event>, t: State)
    requires Initial(s0) && args.entry != DUMMY_ENTRY
    ensures Follows(Free, s0, events, t)
    ensures t.mgr == CheckAck(other) && t.mon.InPayload? && !t.mon.dummy && t.ipc.ack == t.ipc.sequence
    ensures t.h.current == t.h.issued
  {
    hide Follows;
    var a, torn := TornPosition(s0, args, other);
    events, t := Then(Guarded, s0, a, torn, GOOD);
    hide Next;
    NothingBreaks(s0, events, t);
    Weaken(Guarded, Free, s0, events, t);
  }

  /**
   Otherwise, from power-up: the second call passes its second guard
   while the first payload is in the middle of a write, the byte is published
   between the two halves of the flush, and getchar returns it after the flush,
   as if it came from the payload that is only now being started.
   */
  lemma StaleByte(y0: System, args: Args, b: RingTypes.Byte) returns (steps: seq<Step>, y: System)
    requires InitialSystem(y0) && args.entry != DUMMY_ENTRY
    ensures Runs(Free, y0, steps, y)
    ensures |y.r.delivered| == 1 && y.r.delivered[0].byte == b && y.r.delivered[0].owner < y.p.h.issued
  {
    hide Runs, Follows;
    var events, entered := ComesToPayload(y0.p, args, args);
    InitialInv(y0.p);
    var c0, at := Lift(y0, events, entered);
    hide Inv, Initial;
    var c1, writing := BeginsWrite(at, args, b);
    var c2, flushed := SlipsThrough(writing, args);
    var c3, read := IsRead(flushed, writing.r.producer.entry);
    var c4;
    c4, y := CommandFollows(Free, read);
    Concatenated(Free, y0, c0, at, c1, writing);
    Concatenated(Free, y0, c0 + c1, writing, c2, flushed);
    Concatenated(Free, y0, c0 + c1 + c2, flushed, c3, read);
    Concatenated(Free, y0, c0 + c1 + c2 + c3, read, c4, y);
    steps := c0 + c1 + c2 + c3 + c4;
  }

  // ------------------------------------------------------- the exact condition

  ghost predicate CanGoStale(y: System) {
    exists steps, z :: Runs(NoOverlap, y, steps, z) && Stale(z)
  }

  /** The core inside a payload, nothing being written or read. */
  predicate Settled(y: System, args: Args, k: nat) {
    && y.p.mgr == Writing(args, k) && y.p.mon.InPayload? && !y.p.mon.dummy && y.p.h.current == y.p.h.issued
    && Ring.Inv(y.r) && y.r.producer.AtLoopHead? && y.r.consumer.Outside?
  }

  /** A write in progress is completed. */
  lemma WriterSettles(y: System) returns (steps: seq<Step>, z: System)
    requires y.p.mon.InPayload? && !y.p.mon.dummy && Ring.Inv(y.r)
    ensures Runs(NoOverlap, y, steps, z) && z.p == y.p && Ring.Inv(z.r)
    ensures z.r.producer.AtLoopHead? && z.r.consumer == y.r.consumer
  {
    steps, z := [], y;
    if z.r.producer.Checked? {
      Ring.NoStepBlocked(z.r);
      OutputKeepsRing(z, Ring.Store);
      steps, z := ThenDo(NoOverlap, y, steps, z, Output(Ring.Store));
    }
    hide Ring.Inv;
    if z.r.producer.Stored? {
      OutputKeepsRing(z, Ring.Publish);
      steps, z := ThenDo(NoOverlap, y, steps, z, Output(Ring.Publish));
    }
  }

  /** A getchar in progress is completed. */
  lemma ReaderSettles(y: System) returns (steps: seq<Step>, z: System)
    requires Ring.Inv(y.r) && y.r.producer.AtLoopHead? && !y.r.consumer.Flushing?
    ensures Runs(NoOverlap, y, steps, z) && z.p == y.p && Ring.Inv(z.r)
    ensures z.r.producer.AtLoopHead? && z.r.consumer.Outside?
  {
    steps, z := [], y;
    if z.r.consumer.SawData? {
      Ring.NoStepBlocked(z.r);
      OutputKeepsRing(z, Ring.Load);
      steps, z := ThenDo(NoOverlap, y, steps, z, Output(Ring.Load));
    }
    if z.r.consumer.Loaded? {
      Ring.NoStepBlocked(z.r);
      OutputKeepsRing(z, Ring.Advance);
      steps, z := ThenDo(NoOverlap, y, steps, z, Output(Ring.Advance));
    }
  }

  lemma ManagerFlushes(y: System, args: Args) returns (steps: seq<Step>, z: System)
    requires Settled(y, args, 0)
    ensures Runs(NoOverlap, y, steps, z)
    ensures Settled(z, args, 2) && z.p.h == y.p.h && z.r.taken == z.r.flushed == |z.r.stream| && z.r.delivered == []
  {
    CoreKeepsRing(y, ManagerStep);
    steps, z := [], y;
    steps, z := ThenDo(NoOverlap, y, steps, z, Core(ManagerStep));
    CoreKeepsRing(z, ManagerStep);
    steps, z := ThenDo(NoOverlap, y, steps, z, Core(ManagerStep));
  }

  /** The payload of the previous command writes one more byte after the flush. */
  lemma PayloadWrites(y: System, args: Args) returns (steps: seq<Step>, z: System)
    requires Settled(y, args, 2) && y.r.taken == y.r.flushed == |y.r.stream|
    ensures Runs(NoOverlap, y, steps, z)
    ensures Settled(z, args, 2) && z.p == y.p && z.r.delivered == y.r.delivered && z.r.taken == y.r.taken
    ensures z.r.stream == y.r.stream + [Ring.Entry(y.p.h.current, 0)]
  {
    var entry := Ring.Entry(y.p.h.current, 0);
    steps, z := [], y;
    Ring.NextSlot(|y.r.stream|);
    Ring.SlotsDiffer(|y.r.stream|, |y.r.stream| + 1);
    OutputKeepsRing(z, Ring.Check(entry));
    steps, z := ThenDo(NoOverlap, y, steps, z, Output(Ring.Check(entry)));
    Ring.NoStepBlocked(z.r);
    hide Ring.Inv, Settled;
    OutputKeepsRing(z, Ring.Store);
    steps, z := ThenDo(NoOverlap, y, steps, z, Output(Ring.Store));
    OutputKeepsRing(z, Ring.Publish);
    steps, z := ThenDo(NoOverlap, y, steps, z, Output(Ring.Publish));
    assert Settled(z, args, 2) by {
      SettledIs(z, args);
    }
  }

  lemma SettledIs(y: System, args: Args)
    requires y.p.mgr == Writing(args, 2) && y.p.mon.InPayload? && !y.p.mon.dummy && y.p.h.current == y.p.h.issued
    requires Ring.Inv(y.r) && y.r.producer.AtLoopHead? && y.r.consumer.Outside?
    ensures Settled(y, args, 2)
  {
  }

  lemma ManagerReads(y: System, args: Args) returns (steps: seq<Step>, z: System)
    requires Settled(y, args, 2) && y.r.delivered == [] && y.r.taken + 1 == |y.r.stream|
    ensures Runs(NoOverlap, y, steps, z)
    ensures z.p == y.p && z.r.delivered == [y.r.stream[y.r.taken]]
  {
    Ring.SlotsDiffer(y.r.taken, |y.r.stream|);
    steps, z := [], y;
    OutputKeepsRing(z, Ring.Peek);
    steps, z := ThenDo(NoOverlap, y, steps, z, Output(Ring.Peek));
    Ring.NoStepBlocked(z.r);
    OutputKeepsRing(z, Ring.Load);
    steps, z := ThenDo(NoOverlap, y, steps, z, Output(Ring.Load));
    steps, z := ThenDo(NoOverlap, y, steps, z, Output(Ring.Advance));
  }

  lemma SettledGoesStale(y: System, args: Args) returns (steps: seq<Step>, z: System)
    requires Settled(y, args, 0)
    ensures Runs(NoOverlap, y, steps, z) && Stale(z)
  {
    var a, flushed := ManagerFlushes(y, args);
    var b, written := PayloadWrites(flushed, args);
    var c, read := ManagerReads(written, args);
    var straggler := written.r.stream[written.r.taken];
    assert straggler.owner == read.p.h.issued;
    assert read.p.mgr == Writing(args, 2);
    hide Runs, Settled, Ring.Inv;
    var d;
    d, z := CommandFollows(NoOverlap, read);
    assert straggler in z.r.delivered;
    Concatenated(NoOverlap, y, a, flushed, b, written);
    Concatenated(NoOverlap, y, a + b, written, c, read);
    Concatenated(NoOverlap, y, a + b + c, read, d, z);
    steps := a + b + c + d;
  }

  /** A payload that runs on under the next call. */
  lemma PayloadGoesStale(y: System, args: Args) returns (steps: seq<Step>, z: System)
    requires y.p.mgr == Writing(args, 0) && y.p.mon.InPayload? && !y.p.mon.dummy && y.p.h.current == y.p.h.issued
    requires Ring.Inv(y.r) && !y.r.consumer.Flushing?
    ensures Runs(NoOverlap, y, steps, z) && Stale(z)
  {
    hide Runs, Ring.Inv, Stale;
    var a, written := WriterSettles(y);
    var b, settled := ReaderSettles(written);
    var c;
    c, z := SettledGoesStale(settled, args);
    Concatenated(NoOverlap, y, a, written, b, settled);
    Concatenated(NoOverlap, y, a + b, settled, c, z);
    steps := a + b + c;
  }

  lemma OverlapGoesStale(y: System) returns (steps: seq<Step>, z: System)
    requires Good(y) && PassesSecondGuard(y.p, ManagerStep) && Overlaps(y.p)
    ensures Runs(NoOverlap, After(y, Core(ManagerStep)), steps, z) && Stale(z)
  {
    hide Inv, Ring.Inv, Stale;
    var passed := After(y, Core(ManagerStep));
    if y.p.mon.InPayload? {
      steps, z := PayloadGoesStale(passed, y.p.mgr.args);
    } else {
      var a, entered := ThenDo(NoOverlap, passed, [], passed, Core(GOOD));
      var b;
      b, z := PayloadGoesStale(entered, y.p.mgr.args);
      Concatenated(NoOverlap, passed, a, entered, b, z);
      steps := a + b;
    }
  }

  lemma GoodCannotGoStale(y: System)
    requires Good(y)
    ensures !CanGoStale(y)
  {
    hide Good, Stale;
    forall steps, z | Runs(NoOverlap, y, steps, z)
      ensures !Stale(z)
    {
      RunKeepsGood(y, steps, z);
      NotStale(z);
    }
  }

  /**
   The condition is exact: a call that passes its second guard can lead to a
   byte of an earlier payload being delivered after its flush if and only if a
   payload is running or about to be entered.
   */
  lemma StaleExact(y: System)
    requires Good(y) && PassesSecondGuard(y.p, ManagerStep)
    ensures Possible(y, Core(ManagerStep))
    ensures CanGoStale(After(y, Core(ManagerStep))) <==> Overlaps(y.p)
  {
    if Overlaps(y.p) {
      hide Good, Stale, After;
      var steps, z := OverlapGoesStale(y);
    } else {
      hide Good, CanGoStale, After;
      StepKeepsGood(y, Core(ManagerStep));
      GoodCannotGoStale(After(y, Core(ManagerStep)));
    }
  }
}
