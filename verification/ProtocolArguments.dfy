/**
 Whose arguments the monitor works on, and what a result of startPayloadAt
 means.

 startPayloadAt reads the reported state and then the acknowledgement: two
 reads. The claims hold in all runs in which no call passes its second guard
 while the core is in a harmful position, and that condition is exact
 (SecondGuardExact). It holds if both guards are one atomic read, and, by
 ProtocolPickup, if the monitor picks its commands up in time.
 */
module ProtocolArguments {
  import opened Protocol
  import opened ProtocolPaths
  import PayloadValidation

  /** The monitor has no more use for the arguments. */
  predicate AtRest(m: Monitor) {
    || m.Boot? || m.Setup? || m.Publish? || m.LoopSeq? || m.Crashed? || m.SetReady?
    || (m.Decide? && m.resp != PayloadValidation.CrcOk)
  }

  /** While arguments are being written nobody reads them. */
  predicate WritingSafe(s: State) {
    s.mgr.Writing? ==>
      && AtRest(s.mon) && !PayloadReported(s.ipc.state)
      && (s.mgr.k > 2 ==> s.ipc.args.entry == s.mgr.args.entry)
      && (s.mgr.k > 3 ==> s.ipc.args.size == s.mgr.args.size)
      && (s.mgr.k > 4 ==> s.ipc.args.crc == s.mgr.args.crc)
      && (s.mgr.k > 5 ==> s.ipc.args.argument == s.mgr.args.argument)
      && (s.mgr.k > 6 ==> s.ipc.cmd.StartPayload?)
  }

  /** While the manager waits, its command and arguments stand. */
  predicate PollingSafe(s: State) {
    Polling(s.mgr) ==> s.ipc.args == s.mgr.args && s.ipc.cmd.StartPayload? && !s.mon.NoopAck?
  }

  /** The verdict is bad: the monitor is on its way back to the loop. */
  predicate Refusing(m: Monitor) {
    m.Decide? && m.resp != PayloadValidation.CrcOk
  }

  /** What the monitor is busy with is the latest command. */
  predicate WorkIsLatest(s: State) {
    && (Working(s.mon) && !Refusing(s.mon) ==> s.h.current == s.h.issued)
    && ((s.mon.Decide? && !Refusing(s.mon)) || (s.mon.InPayload? && !s.mon.dummy) ==> s.h.issued == s.h.acked)
  }

  predicate OkFor(s: State, id: nat, verdict: Response) {
    s.h.validated == Validated(id, s.ipc.args, verdict)
  }

  /** The verdict the monitor carries along is about the arguments in the block. */
  predicate VerdictOk(s: State) {
    && (s.mon.Validate? ==> s.ipc.args.entry != DUMMY_ENTRY)
    && (s.mon.PutResponse? || s.mon.PutAck? || (s.mon.Decide? && !Refusing(s.mon)) ==> OkFor(s, s.h.current, s.mon.resp))
    && (s.mon.PutAck? || s.mon.Decide? ==> s.ipc.resp == s.mon.resp)
    && (s.h.validated.Validated? ==> s.h.validated.args.entry != DUMMY_ENTRY)
  }

  /** The running payload was validated and entered at the validated address. */
  predicate PayloadOk(s: State) {
    s.mon.InPayload? && !s.mon.dummy ==>
      OkFor(s, s.h.current, PayloadValidation.CrcOk) && s.h.entered == Entered(s.h.current, s.ipc.args.entry)
  }

  /** A response in the block answers the command being waited for. */
  predicate ResponseOk(s: State) {
    Polling(s.mgr) && s.h.issued == s.h.acked ==> OkFor(s, s.h.issued, s.ipc.resp)
  }

  /** running_payload and crashed_payload are about the latest command. */
  predicate ReportOk(s: State) {
    s.general.MonitorStarted? && PayloadReported(s.ipc.state) ==>
      && EnteredAsIssued(s, s.ipc.args)
      && (s.ipc.state.RunningPayload? ==> s.h.reported == s.h.issued)
  }

  predicate ArgsInv(s: State) {
    && Inv(s)
    && WritingSafe(s) && PollingSafe(s) && WorkIsLatest(s) && VerdictOk(s) && PayloadOk(s) && ResponseOk(s) && ReportOk(s)
  }

  lemma InitialArgsInv(s: State)
    requires Initial(s)
    ensures ArgsInv(s)
  {
    InitialInv(s);
  }

  // ----------------------------------------------------------- manager steps

  lemma ManagerWriting(s: State)
    requires Inv(s) && WritingSafe(s) && Allowed(Guarded, s, ManagerStep) && !s.mgr.Idle?
    ensures WritingSafe(ManagerNext(s))
  {
    CountersTell(s);
    hide SeesReady, Increment, BarrierOk, WorkFresh, WordsOk, LifeOk;
  }

  lemma ManagerPolling(s: State)
    requires CountsOk(s) && WritingSafe(s) && PollingSafe(s)
    ensures PollingSafe(ManagerNext(s))
  {
    hide SeesReady, Increment;
  }

  lemma ManagerWork(s: State)
    requires LifeOk(s) && WritingSafe(s) && WorkIsLatest(s)
    ensures WorkIsLatest(ManagerNext(s))
  {
    hide SeesReady, Increment;
  }

  lemma ManagerVerdict(s: State)
    requires LifeOk(s) && WritingSafe(s) && VerdictOk(s)
    ensures VerdictOk(ManagerNext(s))
  {
    hide SeesReady, Increment;
  }

  lemma ManagerPayload(s: State)
    requires LifeOk(s) && WritingSafe(s) && PayloadOk(s)
    ensures PayloadOk(ManagerNext(s))
  {
    hide SeesReady, Increment;
  }

  lemma ManagerResponse(s: State)
    requires CountsOk(s) && LifeOk(s) && ResponseOk(s)
    ensures ResponseOk(ManagerNext(s))
  {
    if s.mgr.Writing? {
      PutFrame(s);
    }
    hide SeesReady, Put, Increment;
  }

  lemma ManagerReport(s: State)
    requires LifeOk(s) && WritingSafe(s) && ReportOk(s)
    ensures ReportOk(ManagerNext(s))
  {
    if s.mgr.Writing? {
      PutFrame(s);
    }
    hide SeesReady, Put, Increment;
  }

  lemma ManagerKeepsArgs(s: State)
    requires ArgsInv(s) && Allowed(Guarded, s, ManagerStep) && !s.mgr.Idle?
    ensures ArgsInv(ManagerNext(s))
  {
    ManagerKeepsInv(s);
    hide ManagerNext, Allowed, WordsOk, CountsOk, BarrierOk, WorkFresh, StatesOk, LifeOk,
      WritingSafe, PollingSafe, WorkIsLatest, VerdictOk, PayloadOk, ResponseOk, ReportOk;
    ManagerWriting(s);
    ManagerPolling(s);
    ManagerWork(s);
    ManagerVerdict(s);
    ManagerPayload(s);
    ManagerResponse(s);
    ManagerReport(s);
  }

  // ----------------------------------------------------------- monitor steps

  lemma MonitorWriting(s: State, verdict: Response)
    requires CountsOk(s) && WritingSafe(s)
    requires s.ipc.sequence == s.ipc.ack <==> s.h.issued == s.h.acked
    ensures WritingSafe(MonitorNext(s, verdict))
  {
    hide Increment;
  }

  lemma MonitorPolling(s: State, verdict: Response)
    requires PollingSafe(s)
    ensures PollingSafe(MonitorNext(s, verdict))
  {
    hide Increment;
  }

  lemma MonitorWork(s: State, verdict: Response)
    requires CountsOk(s) && WorkIsLatest(s)
    ensures WorkIsLatest(MonitorNext(s, verdict))
  {
    hide Increment;
  }

  lemma MonitorVerdict(s: State, verdict: Response)
    requires VerdictOk(s)
    ensures VerdictOk(MonitorNext(s, verdict))
  {
    hide Increment;
  }

  lemma MonitorPayload(s: State, verdict: Response)
    requires VerdictOk(s) && PayloadOk(s)
    ensures PayloadOk(MonitorNext(s, verdict))
  {
    hide Increment;
  }

  lemma MonitorResponse(s: State, verdict: Response)
    requires CountsOk(s) && PollingSafe(s) && WorkIsLatest(s) && VerdictOk(s) && ResponseOk(s)
    ensures ResponseOk(MonitorNext(s, verdict))
  {
    hide Increment;
  }

  lemma MonitorReport(s: State, verdict: Response)
    requires StatesOk(s) && ReportOk(s)
    ensures ReportOk(MonitorNext(s, verdict))
  {
    hide Increment;
  }

  lemma MonitorKeepsArgs(s: State, verdict: Response)
    requires ArgsInv(s)
    ensures ArgsInv(MonitorNext(s, verdict))
  {
    MonitorKeepsInv(s, verdict);
    CountersTell(s);
    hide MonitorNext, WordsOk, CountsOk, BarrierOk, WorkFresh, StatesOk, LifeOk,
      WritingSafe, PollingSafe, WorkIsLatest, VerdictOk, PayloadOk, ResponseOk, ReportOk;
    MonitorWriting(s, verdict);
    MonitorPolling(s, verdict);
    MonitorWork(s, verdict);
    MonitorVerdict(s, verdict);
    MonitorPayload(s, verdict);
    MonitorResponse(s, verdict);
    MonitorReport(s, verdict);
  }

  lemma OtherEventKeepsArgs(s: State, e: Event)
    requires ArgsInv(s) && Enabled(s, e) && !e.ManagerStep? && !e.MonitorStep?
    ensures ArgsInv(Next(s, e))
  {
    OtherEventKeepsInv(s, e);
    hide WordsOk, BarrierOk, WorkFresh;
  }

  lemma StepKeepsArgs(s: State, e: Event)
    requires ArgsInv(s) && Enabled(s, e) && Allowed(Guarded, s, e)
    ensures ArgsInv(Next(s, e))
  {
    hide ArgsInv, ManagerNext, MonitorNext;
    match e
    case ManagerStep => ManagerKeepsArgs(s);
    case MonitorStep(verdict) => MonitorKeepsArgs(s, verdict);
    case _ => OtherEventKeepsArgs(s, e);
  }

  lemma {:induction false} RunKeepsArgs(s: State, events: seq<Event>, s': State)
    requires ArgsInv(s) && Follows(Guarded, s, events, s')
    ensures ArgsInv(s')
    decreases |events|
  {
    if events != [] {
      hide ArgsInv, Next, Enabled, Allowed;
      StepKeepsArgs(s, events[0]);
      RunKeepsArgs(Next(s, events[0]), events[1..], s');
    }
  }

  // ----------------------------------------------------------------- theorems

  lemma NotBroken(s: State)
    requires ArgsInv(s)
    ensures !Broken(s)
  {
    hide WordsOk, BarrierOk, WorkFresh, VerdictOk;
  }

  /** In every guarded run nothing goes wrong. */
  lemma NothingBreaks(s0: State, events: seq<Event>, s: State)
    requires Initial(s0) && Follows(Guarded, s0, events, s)
    ensures !Broken(s) && ArgsInv(s)
  {
    hide ArgsInv, Broken;
    InitialArgsInv(s0);
    RunKeepsArgs(s0, events, s);
    NotBroken(s);
  }

  /** A response the manager acts on was computed for this command's own arguments. */
  lemma ResponseIsOwn(s0: State, events: seq<Event>, s: State)
    requires Initial(s0) && Follows(Guarded, s0, events, s)
    requires s.mgr.PollResponse?
    ensures s.h.validated == Validated(s.h.issued, s.mgr.args, s.ipc.resp)
  {
    NothingBreaks(s0, events, s);
  }

  /** The address entered is the one that was validated, for the same command. */
  lemma EnteredWasValidated(s0: State, events: seq<Event>, s: State)
    requires Initial(s0) && Follows(Guarded, s0, events, s)
    requires s.mon.InPayload? && !s.mon.dummy
    ensures s.h.validated.Validated? && s.h.validated.resp == PayloadValidation.CrcOk
    ensures s.h.entered == Entered(s.h.validated.id, s.h.validated.args.entry)
  {
    NothingBreaks(s0, events, s);
  }

  /**
   However startPayloadAt ends, it returns success only if this very payload was
   validated, entered at its address and reported its own start; a dummy start,
   which is never validated, therefore never succeeds.
   */
  lemma SuccessIsReal(s0: State, events: seq<Event>, s: State)
    requires Initial(s0) && Follows(Guarded, s0, events, s)
    requires InStart(s.mgr) && ManagerNext(s).mgr.Idle? && Returned(s) == Success
    ensures s.mgr.PollState?
    ensures s.h.validated == Validated(s.h.issued, s.mgr.args, PayloadValidation.CrcOk)
    ensures s.h.entered == Entered(s.h.issued, s.mgr.args.entry)
    ensures s.h.reported == s.h.issued
    ensures s.mgr.args.entry != 0xBAAD_F00D
  {
    NothingBreaks(s0, events, s);
    hide Inv, WritingSafe, PollingSafe, WorkIsLatest, PayloadOk, ResponseOk, ReportOk;
  }

  /** It reports a crash during start-up only if this very payload was validated and entered. */
  lemma CrashIsReal(s0: State, events: seq<Event>, s: State)
    requires Initial(s0) && Follows(Guarded, s0, events, s)
    requires InStart(s.mgr) && ManagerNext(s).mgr.Idle? && Returned(s) == Failure(PayloadCrashedDuringStartup)
    ensures s.mgr.PollState?
    ensures s.h.validated == Validated(s.h.issued, s.mgr.args, PayloadValidation.CrcOk)
    ensures s.h.entered == Entered(s.h.issued, s.mgr.args.entry)
  {
    NothingBreaks(s0, events, s);
  }

  /** Each refusal of an image is the monitor's verdict on exactly this image. */
  lemma RefusalIsReal(s0: State, events: seq<Event>, s: State)
    requires Initial(s0) && Follows(Guarded, s0, events, s)
    requires s.mgr.PollResponse? && ManagerNext(s).mgr.Idle?
    ensures s.h.validated.Validated? && s.h.validated.id == s.h.issued && s.h.validated.args == s.mgr.args
    ensures Returned(s) == Failure(PayloadChecksumMismatch) <==> s.h.validated.resp == PayloadValidation.CrcMismatched
    ensures Returned(s) == Failure(PayloadImageMalformed) <==> s.h.validated.resp == PayloadValidation.ImageMalformed
    ensures Returned(s) == Failure(PayloadAbiIncompatible) <==> s.h.validated.resp == PayloadValidation.AbiIncompatible
  {
    ResponseIsOwn(s0, events, s);
  }

  // ------------------------------------------------------- the exact condition

  /** A payload reports itself while the manager waits for another one. */
  lemma ReportMisleads(s: State, args: Args) returns (events: seq<Event>, t: State)
    requires s.mgr == Writing(args, 0) && PayloadReported(s.ipc.state) && s.ipc.ack == s.ipc.sequence < WORD
    requires s.h.validated.Validated? ==> s.h.validated.id != s.h.issued + 1
    ensures Follows(Plain, s, events, t) && Broken(t)
  {
    events, t := Writes(s, args);
    events, t := Then(Plain, s, events, t, ManagerStep);
  }

  /** The running payload reports its start meanwhile. */
  lemma PayloadMisleads(s: State, args: Args) returns (events: seq<Event>, t: State)
    requires s.mgr == Writing(args, 0) && s.mon.InPayload? && !s.mon.dummy && s.ipc.ack == s.ipc.sequence < WORD
    requires s.h.validated.Validated? ==> s.h.validated.id != s.h.issued + 1
    ensures Follows(Plain, s, events, t) && Broken(t)
  {
    var first, reported := Then(Plain, s, [], s, PayloadStarted);
    var rest;
    rest, t := ReportMisleads(reported, args);
    Concatenate(Plain, s, first, reported, rest, t);
    events := first + rest;
  }

  /** In each harmful position something can go wrong. */
  lemma HarmIsDone(s: State) returns (events: seq<Event>, t: State)
    requires ArgsInv(s) && PassesSecondGuard(s, ManagerStep) && Harmful(s)
    ensures Follows(Plain, ManagerNext(s), events, t) && Broken(t)
  {
    var passed := ManagerNext(s);
    assert s.h.validated.Validated? && s.h.validated.id == s.h.issued by {
      hide WordsOk, CountsOk, BarrierOk, WorkFresh;
    }
    assert passed.mgr == Writing(s.mgr.args, 0) && passed.ipc == s.ipc && passed.mon == s.mon && passed.h == s.h;
    assert s.ipc.sequence < WORD;
    hide ArgsInv, ManagerNext, Broken;
    if s.mon.Decide? {
      var first, entered := Then(Plain, passed, [], passed, GOOD);
      var rest;
      rest, t := PayloadMisleads(entered, s.mgr.args);
      Concatenate(Plain, passed, first, entered, rest, t);
      events := first + rest;
    } else if s.mon.InPayload? {
      events, t := PayloadMisleads(passed, s.mgr.args);
    } else {
      events, t := ReportMisleads(passed, s.mgr.args);
    }
  }

  /** Some guarded continuation goes wrong. */
  ghost predicate CanBreak(d: Discipline, s: State) {
    exists events, t :: Follows(d, s, events, t) && Broken(t)
  }

  lemma SafeCannotBreak(s: State)
    requires ArgsInv(s)
    ensures !CanBreak(Guarded, s)
  {
    hide ArgsInv, Broken;
    forall events, t | Follows(Guarded, s, events, t)
      ensures !Broken(t)
    {
      RunKeepsArgs(s, events, t);
      NotBroken(t);
    }
  }

  /**
   The condition on the second guard is exact: a call that passes it leaves
   something to go wrong if and only if the core is in a harmful position.
   */
  lemma SecondGuardExact(s: State)
    requires ArgsInv(s) && PassesSecondGuard(s, ManagerStep)
    ensures CanBreak(Guarded, ManagerNext(s)) <==> Harmful(s)
  {
    if Harmful(s) {
      hide ArgsInv, ManagerNext, Broken;
      var events, t := HarmIsDone(s);
      Weaken(Plain, Guarded, ManagerNext(s), events, t);
    } else {
      ManagerKeepsArgs(s);
      SafeCannotBreak(ManagerNext(s));
    }
  }

  /**
   It does happen. From power-up: a start whose call times out before the
   monitor notices it, and a second start that sees monitor_ready and then the
   acknowledgement of the first command, about to be entered.
   */
  lemma TornPosition(s0: State, args: Args, other: Args) returns (events: seq<Event>, t: State)
    requires Initial(s0) && args.entry != DUMMY_ENTRY
    ensures Follows(Guarded, s0, events, t)
    ensures t.mgr == CheckAck(other) && t.ipc.ack == t.ipc.sequence && t.mon == Decide(PayloadValidation.CrcOk)
    ensures t.h.validated.Validated? && t.h.validated.args == args && t.general.MonitorStarted?
  {
    hide Follows;
    var a, up := BootsUp(s0);
    SmallCounters(s0, a, up);
    var b, issued := Issues(up, args);
    var c, late := PollsOut(issued);
    Concatenate(Plain, s0, a, up, b, issued);
    Concatenate(Plain, s0, a + b, issued, c, late);
    Weaken(Plain, Guarded, s0, a + b + c, late);
    var first, idle := Then(Guarded, s0, a + b + c, late, ManagerStep);
    assert idle == issued.(mgr := Idle) && Primed(idle);
    hide Primed, Waiting;
    var d, poised := ComesToStart(idle);
    var e;
    e, t := GuardsTear(poised, other);
    Concatenate(Plain, idle, d, poised, e, t);
    Weaken(Plain, Guarded, idle, d + e, t);
    Concatenate(Guarded, s0, first, idle, d + e, t);
    events := first + (d + e);
  }

  /**
   The second start overwrites the address between its validation and its use.
   The monitor enters an address it never validated.
   */
  lemma TornGuards(s0: State, args: Args) returns (events: seq<Event>, t: State)
    requires Initial(s0) && args.entry != DUMMY_ENTRY
    ensures Follows(Free, s0, events, t) && Misentered(t)
  {
    hide Follows, Misentered;
    var other := Args(args.entry + 1, 0, 0, 0);
    var a, torn := TornPosition(s0, args, other);
    var b;
    b, t := Overwrites(torn, other);
    Weaken(Guarded, Free, s0, a, torn);
    Weaken(Prompt, Free, torn, b, t);
    Concatenate(Free, s0, a, torn, b, t);
    events := a + b;
  }
}
