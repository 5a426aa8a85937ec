/** What holds in every run of the protocol, without any assumption. */
module ProtocolRuns {
  import opened Protocol
  import PayloadValidation

  /**
   Across every run, with time-outs, kills at any point, restarts and 32-bit
   wrap-around, the difference of the counters is 0 or 1, and it is 0 exactly
   when every issued command has been acknowledged.
   */
  lemma OneCommandAtATime(s0: State, events: seq<Event>, s: State)
    requires Initial(s0) && Reaches(s0, events, s)
    ensures s.h.issued - s.h.acked == 0 || s.h.issued - s.h.acked == 1
    ensures (s.ipc.sequence - s.ipc.ack) % 0x1_0000_0000 == s.h.issued - s.h.acked
    ensures s.ipc.sequence == s.h.issued % 0x1_0000_0000 && s.ipc.ack == s.h.acked % 0x1_0000_0000
    ensures s.ipc.sequence == s.ipc.ack <==> s.h.issued == s.h.acked
  {
    InitialInv(s0);
    RunKeepsInv(s0, events, s);
    CountersTell(s);
    Difference(s.h.issued, s.h.acked);
  }

  lemma Difference(n: nat, m: nat)
    requires m <= n <= m + 1
    ensures (Truncate(n) - Truncate(m)) % WORD == n - m
  {
    if n == m + 1 {
      Wraps(m);
      assert Truncate(n) == Truncate(m) + 1 || Truncate(n) == Truncate(m) + 1 - WORD;
    }
  }

  /** Every acknowledgement is for the one outstanding command: none twice, none skipped. */
  lemma AcknowledgesThePendingOne(s: State, e: Event)
    requires Inv(s) && Enabled(s, e) && s.general.MonitorStarted?
    ensures Next(s, e).h.acked == s.h.acked || Next(s, e).h.acked == s.h.acked + 1 == s.h.issued
  {
  }

  // --------------------------------------------------------- what calls return

  /** Each answer of startPayloadAt, exactly: by the words in the block and the number of polls. */
  lemma AnswerExact(s: State)
    requires InStart(s.mgr)
    ensures Answers(s, Failure(BadDomainState)) <==>
              || (s.mgr.CheckState? && !(s.general.MonitorStarted? && s.ipc.state.MonitorReady?))
              || (s.mgr.CheckAck? && s.ipc.ack != s.ipc.sequence)
    ensures Answers(s, Failure(PayloadStartTimedOut)) <==> s.mgr.PollAck? && s.mgr.i >= 100
    ensures Answers(s, Success) <==> s.mgr.PollState? && s.ipc.state.RunningPayload?
    ensures Answers(s, Failure(PayloadCrashedDuringStartup)) <==> s.mgr.PollState? && s.ipc.state.CrashedPayload?
    ensures Answers(s, Failure(PayloadChecksumMismatch)) <==>
              s.mgr.PollResponse? && s.ipc.resp == PayloadValidation.CrcMismatched
    ensures Answers(s, Failure(PayloadImageMalformed)) <==>
              s.mgr.PollResponse? && s.ipc.resp == PayloadValidation.ImageMalformed
    ensures Answers(s, Failure(PayloadAbiIncompatible)) <==>
              s.mgr.PollResponse? && s.ipc.resp == PayloadValidation.AbiIncompatible
    ensures !Answers(s, Failure(MonitorStartTimedOut))
  {
  }

  /** The answers of startup and terminatePayload once they wait for the monitor. */
  lemma AwaitAnswerExact(s: State)
    requires s.mgr.Await?
    ensures Answers(s, Failure(MonitorStartTimedOut)) <==> s.mgr.i >= 50
    ensures Answers(s, Success) <==> s.mgr.i < 50 && s.general.MonitorStarted? && s.ipc.state.MonitorReady?
    ensures !ManagerNext(s).mgr.Idle? ==> ManagerNext(s) == s.(mgr := Await(s.mgr.i + 1, s.mgr.clean))
  {
  }

  /** The manager steps left before a call ends, at most. */
  function StepsLeft(m: Manager): nat {
    match m
    case Idle => 0
    case CheckState(_) => 311
    case CheckAck(_) => 310
    case Writing(_, k) => if k < 8 then 309 - k else 302
    case PollAck(_, i) => if i < 100 then 301 - 3 * i else 1
    case PollResponse(_, i) => if i < 100 then 300 - 3 * i else 3
    case PollState(_, i) => if i < 100 then 299 - 3 * i else 2
    case TermNoop(_) => 53
    case TermKill(_) => 52
    case Await(i, _) => if i < 50 then 51 - i else 1
    case StartupClear => 53
    case StartupBoot => 52
  }

  /** Whatever the core does, every call returns: no manager step is ever without progress. */
  lemma CallsReturn(s: State)
    requires !s.mgr.Idle?
    ensures StepsLeft(ManagerNext(s).mgr) < StepsLeft(s.mgr) <= 311
  {
    if s.mgr.Writing? {
      PutFrame(s);
      hide Put, Increment;
    } else {
      OtherCallsReturn(s);
    }
  }

  lemma OtherCallsReturn(s: State)
    requires !s.mgr.Idle? && !s.mgr.Writing?
    ensures StepsLeft(ManagerNext(s).mgr) < StepsLeft(s.mgr) <= 311
  {
    hide Put, Increment, SeesReady, ReadySeen;
  }

  // ---------------------------------------------------------- what a kill meets

  /**
   A pending kill strikes wherever FIQ is unmasked: everywhere but in the boot
   code and in the crash loops, and during set-up from the second time on.
   */
  lemma KillStrikes(s: State)
    requires Inv(s) && s.kill && s.general.MonitorStarted?
    ensures Enabled(s, TakeKill) <==> !s.mon.Boot? && !s.mon.Crashed? && (s.mon.Setup? ==> s.ipiEnabled)
    ensures Enabled(s, TakeKill) ==> Next(s, TakeKill).mon.Boot? && !Next(s, TakeKill).kill
                                     && Next(s, TakeKill).ipc == s.ipc && Next(s, TakeKill).mgr == s.mgr
  {
    hide WordsOk, CountsOk, BarrierOk, WorkFresh, StatesOk;
  }

  /**
   The monitor can fault wherever it is, and reports it; a payload can report
   its start and its crash whenever it runs, in any order; a dummy payload never.
   */
  lemma ReportsPossible(s: State)
    requires Inv(s) && s.general.MonitorStarted?
    ensures Enabled(s, MonitorCrash) <==> !s.ipc.state.CrashedMonitor?
    ensures Enabled(s, MonitorCrash) ==> Next(s, MonitorCrash).ipc == s.ipc.(state := CrashedMonitor) && Next(s, MonitorCrash).mon.Crashed?
    ensures Enabled(s, PayloadStarted) <==> s.mon == InPayload(false)
    ensures Enabled(s, PayloadStarted) ==> Next(s, PayloadStarted).ipc == s.ipc.(state := RunningPayload) && Next(s, PayloadStarted).mon == s.mon
    ensures Enabled(s, PayloadCrashed) <==> s.mon == InPayload(false)
    ensures Enabled(s, PayloadCrashed) ==> Next(s, PayloadCrashed).ipc == s.ipc.(state := CrashedPayload) && Next(s, PayloadCrashed).mon == s.mon
  {
    hide WordsOk, CountsOk, BarrierOk, WorkFresh;
  }

  /** The dummy address is entered without being validated or acknowledged, and it alone. */
  lemma DummyExact(s: State, verdict: Response)
    requires s.mon.ReadEntry?
    ensures var t := MonitorNext(s, verdict);
            && (t.mon == InPayload(true) <==> s.ipc.args.entry == 0xBAAD_F00D)
            && (t.mon.Validate? <==> s.ipc.args.entry != 0xBAAD_F00D)
            && t.ipc == s.ipc && t.h == s.h
  {
  }

  // ------------------------------------------------------- after a termination

  lemma BarrierGrows(s: State, e: Event)
    requires Inv(s) && Enabled(s, e)
    ensures s.general.MonitorStarted? ==> Next(s, e).general.MonitorStarted? && Next(s, e).h.barrier >= s.h.barrier
  {
    hide WordsOk, CountsOk, WorkFresh, StatesOk, Increment, SeesReady;
  }

  lemma {:induction false} BarrierStays(s: State, events: seq<Event>, s': State)
    requires Inv(s) && s.general.MonitorStarted? && Reaches(s, events, s')
    ensures s'.h.barrier >= s.h.barrier && s'.general.MonitorStarted?
    decreases |events|
  {
    if events != [] {
      StepKeepsInv(s, events[0]);
      BarrierGrows(s, events[0]);
      hide Inv, Next, Enabled;
      BarrierStays(Next(s, events[0]), events[1..], s');
    }
  }

  lemma NoopGrows(s: State, e: Event)
    requires Inv(s) && Enabled(s, e) && s.general.MonitorStarted?
    ensures Next(s, e).general.MonitorStarted? && Next(s, e).h.noopAt >= s.h.noopAt
  {
    hide WordsOk, CountsOk, WorkFresh, StatesOk, Increment, SeesReady;
  }

  lemma {:induction false} NoopStays(s: State, events: seq<Event>, s': State)
    requires Inv(s) && s.general.MonitorStarted? && Reaches(s, events, s')
    ensures s'.h.noopAt >= s.h.noopAt && s'.general.MonitorStarted?
    decreases |events|
  {
    if events != [] {
      StepKeepsInv(s, events[0]);
      NoopGrows(s, events[0]);
      hide Inv, Next, Enabled;
      NoopStays(Next(s, events[0]), events[1..], s');
    }
  }

  /**
   A terminatePayload writes its no-op at s. Whatever happens until a kill takes
   effect, from that restart on the monitor never again works on, and never
   enters, a command issued before s: not a start it was validating, and not a
   dummy start either.
   */
  lemma KilledCommandsStayDead(s: State, until: seq<Event>, struck: State, after: seq<Event>, t: State)
    requires Inv(s) && s.mgr.TermNoop? && s.general.MonitorStarted?
    requires Reaches(ManagerNext(s), until, struck) && Enabled(struck, TakeKill)
    requires Reaches(Next(struck, TakeKill), after, t)
    ensures Working(t.mon) ==> t.h.current > s.h.issued
  {
    var written := ManagerNext(s);
    assert written.h.noopAt == s.h.issued && written.general.MonitorStarted?;
    ManagerKeepsInv(s);
    RunKeepsInv(written, until, struck);
    NoopStays(written, until, struck);
    var restarted := Next(struck, TakeKill);
    StepKeepsInv(struck, TakeKill);
    assert restarted.h.barrier == struck.h.noopAt && restarted.general.MonitorStarted?;
    hide ManagerNext, Next, Enabled;
    RunKeepsInv(restarted, after, t);
    BarrierStays(restarted, after, t);
  }

  /** Monitor steps with nothing in between. */
  function Loop(s: State, n: nat): State
    decreases n
  {
    if n == 0 then s else Loop(MonitorNext(s, PayloadCrcOk()), n - 1)
  }

  function PayloadCrcOk(): Response {
    PayloadValidation.CrcOk
  }

  /**
   A command that was still outstanding at the restart, such as a dummy start,
   which is entered without being acknowledged, is consumed as a no-op.
   */
  lemma OutstandingIsConsumed(s: State)
    requires Inv(s) && s.mon.Boot? && s.h.issued == s.h.acked + 1 && s.h.issued == s.h.noopAt
    ensures var after := Loop(s, 6);
            after.mon.LoopSeq? && after.h.acked == after.h.issued == s.h.issued && after.ipc.state.MonitorReady?
  {
    CountersTell(s);
    var s1 := MonitorNext(s, PayloadCrcOk());
    var s2 := MonitorNext(s1, PayloadCrcOk());
    var s3 := MonitorNext(s2, PayloadCrcOk());
    assert s3.mon.LoopSeq? && s3.ipc.sequence != s3.ipc.ack && s3.ipc.cmd.Noop?;
    var s4 := MonitorNext(s3, PayloadCrcOk());
    var s5 := MonitorNext(s4, PayloadCrcOk());
    assert s5.mon.NoopAck?;
    var s6 := MonitorNext(s5, PayloadCrcOk());
    hide MonitorNext;
    assert Loop(s, 6) == Loop(s3, 3);
    assert Loop(s3, 3) == Loop(s6, 0);
  }

  // ------------------------------------------------------- the reported state

  /** running_payload is reported only after starting_payload since the last monitor_ready. */
  lemma RunningFollowsStarting(s0: State, events: seq<Event>, s: State, e: Event)
    requires Initial(s0) && Reaches(s0, events, s) && Enabled(s, e)
    requires Next(s, e).ipc.state.RunningPayload? && !s.ipc.state.RunningPayload?
    ensures s.h.startingSinceReady && s.mon.InPayload? && !s.mon.dummy
  {
    InitialInv(s0);
    RunKeepsInv(s0, events, s);
    hide WordsOk, CountsOk, BarrierOk, WorkFresh, Increment, SeesReady;
  }

  lemma CrashStays(s: State, e: Event)
    requires Inv(s) && Enabled(s, e) && s.general.MonitorStarted? && s.ipc.state.CrashedMonitor?
    ensures var s' := Next(s, e); s'.general.MonitorStarted? && s'.ipc.state.CrashedMonitor?
  {
    hide Increment;
  }

  /** Once crashed_monitor is reported, nothing ever changes the reported state. */
  lemma {:induction false} CrashIsFinal(s: State, events: seq<Event>, s': State)
    requires Inv(s) && s.general.MonitorStarted? && s.ipc.state.CrashedMonitor?
    requires Reaches(s, events, s')
    ensures s'.ipc.state.CrashedMonitor? && s'.mon.Crashed?
    decreases |events|
  {
    if events != [] {
      StepKeepsInv(s, events[0]);
      CrashStays(s, events[0]);
      hide Inv, Next, Enabled;
      CrashIsFinal(Next(s, events[0]), events[1..], s');
    }
  }
}
