/**
 Kill requests: when does a successful terminatePayload leave none behind?

 The manager's own history decides. A termination is clean if it begins while
 running_payload or crashed_payload is reported and no other kill is
 outstanding: every earlier one was sent that way and followed by a sight of
 monitor_ready.
 */
module ProtocolKill {
  import opened Protocol
  import opened ProtocolPaths
  import PayloadValidation

  /** In a payload that has reported itself, or in the crash loop. */
  predicate InPayloadOrCrashed(s: State) {
    (s.mon.InPayload? && !s.mon.dummy && PayloadReported(s.ipc.state)) || s.mon.Crashed?
  }

  /** Nothing outstanding: no request pending, no restart except the very first. */
  predicate QuietOk(s: State) {
    s.h.mode.Quiet? ==> !s.kill && (Restarting(s.mon) ==> s.ipc.state.InvalidState?)
  }

  /** One request sent into a payload: pending there, or restarting, or over. */
  predicate OneKillOk(s: State) {
    s.h.mode.OneKill? ==>
      if s.kill then InPayloadOrCrashed(s) else Restarting(s.mon) ==> PayloadReported(s.ipc.state)
  }

  /** A clean termination on its way. */
  predicate CleanOk(s: State) {
    && (s.mgr.TermNoop? || s.mgr.TermKill? ==>
          (s.mgr.clean ==> s.h.mode.Quiet? && InPayloadOrCrashed(s)))
    && (s.mgr.Await? && s.mgr.clean ==> s.h.mode.OneKill?)
    && (s.mgr.TermNoop? || s.mgr.TermKill? ==> s.general.MonitorStarted?)
  }

  /** No start has been written since a clean request that may still be pending. */
  predicate NoopOk(s: State) {
    && (s.mgr.TermKill? ==> s.ipc.cmd.Noop?)
    && (s.h.mode.OneKill? ==>
          s.ipc.cmd.Noop? && (s.mgr.Idle? || s.mgr.CheckState? || s.mgr.TermNoop? || s.mgr.TermKill? || s.mgr.Await?))
  }

  predicate KillInv(s: State) {
    Inv(s) && QuietOk(s) && OneKillOk(s) && CleanOk(s) && NoopOk(s)
  }

  lemma InitialKillInv(s: State)
    requires Initial(s)
    ensures KillInv(s)
  {
    InitialInv(s);
  }

  lemma ManagerQuiet(s: State)
    requires StatesOk(s) && LifeOk(s) && QuietOk(s) && OneKillOk(s) && CleanOk(s)
    ensures QuietOk(ManagerNext(s))
  {
    if s.mgr.Writing? {
      PutFrame(s);
    }
    hide Put, Increment;
  }

  lemma ManagerOneKill(s: State)
    requires StatesOk(s) && LifeOk(s) && QuietOk(s) && OneKillOk(s) && CleanOk(s)
    ensures OneKillOk(ManagerNext(s))
  {
    if s.mgr.Writing? {
      PutFrame(s);
    }
    hide Put, Increment;
  }

  lemma ManagerClean(s: State)
    requires LifeOk(s) && CleanOk(s)
    ensures CleanOk(ManagerNext(s))
  {
    if s.mgr.Writing? {
      PutFrame(s);
    }
    hide Put, Increment;
  }

  lemma ManagerNoop(s: State)
    requires LifeOk(s) && NoopOk(s)
    ensures NoopOk(ManagerNext(s))
  {
    hide SeesReady, Increment;
  }

  lemma ManagerKeepsKill(s: State)
    requires KillInv(s) && !s.mgr.Idle?
    ensures KillInv(ManagerNext(s))
  {
    ManagerKeepsInv(s);
    hide ManagerNext, WordsOk, CountsOk, BarrierOk, WorkFresh, StatesOk, LifeOk, QuietOk, OneKillOk, CleanOk, NoopOk;
    ManagerNoop(s);
    ManagerQuiet(s);
    ManagerOneKill(s);
    ManagerClean(s);
  }

  lemma MonitorKill(s: State, verdict: Response)
    requires StatesOk(s) && LifeOk(s) && QuietOk(s) && OneKillOk(s) && CleanOk(s)
    ensures QuietOk(MonitorNext(s, verdict)) && OneKillOk(MonitorNext(s, verdict))
  {
    hide Increment;
  }

  lemma MonitorClean(s: State, verdict: Response)
    requires CleanOk(s) && NoopOk(s)
    ensures CleanOk(MonitorNext(s, verdict)) && NoopOk(MonitorNext(s, verdict))
  {
    hide Increment;
  }

  lemma MonitorKeepsKill(s: State, verdict: Response)
    requires KillInv(s)
    ensures KillInv(MonitorNext(s, verdict))
  {
    MonitorKeepsInv(s, verdict);
    hide MonitorNext, WordsOk, CountsOk, BarrierOk, WorkFresh, StatesOk, LifeOk, QuietOk, OneKillOk, CleanOk, NoopOk;
    MonitorKill(s, verdict);
    MonitorClean(s, verdict);
  }

  lemma OtherEventKeepsKill(s: State, e: Event)
    requires KillInv(s) && Enabled(s, e) && !e.ManagerStep? && !e.MonitorStep?
    ensures KillInv(Next(s, e))
  {
    OtherEventKeepsInv(s, e);
    hide WordsOk, CountsOk, BarrierOk, WorkFresh;
  }

  lemma StepKeepsKill(s: State, e: Event)
    requires KillInv(s) && Enabled(s, e)
    ensures KillInv(Next(s, e))
  {
    hide KillInv, ManagerNext, MonitorNext;
    match e
    case ManagerStep => ManagerKeepsKill(s);
    case MonitorStep(verdict) => MonitorKeepsKill(s, verdict);
    case _ => OtherEventKeepsKill(s, e);
  }

  lemma {:induction false} RunKeepsKill(s: State, events: seq<Event>, s': State)
    requires KillInv(s) && Reaches(s, events, s')
    ensures KillInv(s')
    decreases |events|
  {
    if events != [] {
      hide KillInv, Next, Enabled;
      StepKeepsKill(s, events[0]);
      RunKeepsKill(Next(s, events[0]), events[1..], s');
    }
  }

  // ----------------------------------------------------------------- theorems

  /**
   A clean terminatePayload that returns success leaves no kill request pending
   and the monitor at work, not restarting.
   */
  lemma CleanTerminationLeavesNoKill(s0: State, events: seq<Event>, s: State)
    requires Initial(s0) && Reaches(s0, events, s)
    requires s.mgr.Await? && s.mgr.clean && ManagerNext(s).mgr.Idle? && Returned(s) == Success
    ensures !s.kill && !Restarting(s.mon)
    ensures ManagerNext(s).h.mode.Quiet?
  {
    InitialKillInv(s0);
    RunKeepsKill(s0, events, s);
  }

  /**
   If every termination so far was clean, a kill finds the no-op its own call
   wrote, never a start command written since.
   */
  lemma CleanKillFindsNoop(s0: State, events: seq<Event>, s: State)
    requires Initial(s0) && Reaches(s0, events, s) && Enabled(s, TakeKill) && !s.h.mode.Unknown?
    ensures s.ipc.cmd.Noop? && !s.mgr.Writing? && !s.mgr.PollAck? && !s.mgr.PollResponse? && !s.mgr.PollState?
  {
    InitialKillInv(s0);
    RunKeepsKill(s0, events, s);
  }

  /** No termination request has been sent along a run. */
  ghost predicate SendsNoKill(s: State, events: seq<Event>)
    decreases |events|
  {
    events != [] && Enabled(s, events[0]) ==>
      !(events[0].ManagerStep? && s.mgr.TermKill?) && SendsNoKill(Next(s, events[0]), events[1..])
  }

  lemma QuietStays(s: State, e: Event)
    requires KillInv(s) && Enabled(s, e) && s.h.mode.Quiet?
    requires !(e.ManagerStep? && s.mgr.TermKill?)
    ensures Next(s, e).h.mode.Quiet? && !e.TakeKill?
  {
    hide Increment;
  }

  /** From then on nothing is killed until the manager asks for it again. */
  lemma {:induction false} QuietMeansNoKill(s: State, events: seq<Event>, s': State)
    requires KillInv(s) && s.h.mode.Quiet? && Reaches(s, events, s') && SendsNoKill(s, events)
    ensures TakeKill !in events && s'.h.mode.Quiet? && !s'.kill
    decreases |events|
  {
    if events != [] {
      StepKeepsKill(s, events[0]);
      QuietStays(s, events[0]);
      hide Inv, Next, Enabled, OneKillOk, CleanOk;
      QuietMeansNoKill(Next(s, events[0]), events[1..], s');
      assert events == [events[0]] + events[1..];
    }
  }

  // ------------------------------------------------------- the exact condition

  /** On the way into a payload, past the point of reporting monitor_ready instead. */
  predicate Committed(s: State) {
    || (s.mon.ReadEntry? && s.ipc.args.entry == DUMMY_ENTRY)
    || ((s.mon.PutResponse? || s.mon.PutAck? || s.mon.Decide?) && s.mon.resp == PayloadValidation.CrcOk)
  }

  /**
   Where a kill request must find the core in order not to outlive the call:
   in a payload, dummy or not, or bound for one; in the crash loop; or in the
   first part of a restart that began while something else than monitor_ready
   was reported.
   */
  predicate SafeToKill(s: State) {
    || s.mon.InPayload? || s.mon.Crashed? || Committed(s)
    || ((s.mon.Boot? || s.mon.Setup?) && !s.ipc.state.MonitorReady?)
  }

  /** A run during which the manager stays in awaitMonitorStartup. */
  ghost predicate Waits(s: State, events: seq<Event>, t: State)
    decreases |events|
  {
    && s.mgr.Await?
    && if events == [] then t == s else Enabled(s, events[0]) && Waits(Next(s, events[0]), events[1..], t)
  }

  /** The call sent its request at s, and at t it is about to succeed with the request still pending. */
  ghost predicate LeavesKill(s: State, events: seq<Event>, t: State) {
    Waits(ManagerNext(s), events, t) && t.kill && ManagerNext(t).mgr.Idle? && Returned(t) == Success
  }

  lemma {:induction false} WaitsToTheEnd(s: State, events: seq<Event>, t: State)
    requires Waits(s, events, t)
    ensures t.mgr.Await?
    decreases |events|
  {
    if events != [] {
      hide Next, Enabled;
      WaitsToTheEnd(Next(s, events[0]), events[1..], t);
    }
  }

  lemma SafeStays(s: State, e: Event)
    requires Inv(s) && Enabled(s, e) && s.mgr.Await? && Next(s, e).mgr.Await?
    requires s.kill ==> SafeToKill(s)
    ensures Next(s, e).kill ==> SafeToKill(Next(s, e))
  {
    hide WordsOk, CountsOk, BarrierOk, WorkFresh, Increment;
  }

  lemma {:induction false} SafeKillIsConsumed(s: State, events: seq<Event>, t: State)
    requires Inv(s) && (s.kill ==> SafeToKill(s)) && Waits(s, events, t)
    ensures t.kill ==> !SeesReady(t)
    decreases |events|
  {
    if events == [] {
      hide WordsOk, CountsOk, BarrierOk, WorkFresh;
    } else {
      StepKeepsInv(s, events[0]);
      SafeStays(s, events[0]);
      hide Inv, Next, Enabled, SafeToKill;
      SafeKillIsConsumed(Next(s, events[0]), events[1..], t);
    }
  }

  function StepsToReady(m: Monitor): nat {
    match m
    case ReadEntry => 6
    case Validate => 5
    case PutResponse(_) => 4
    case PutAck(_) => 3
    case Decide(_) => 2
    case SetReady => 1
    case Publish => 1
    case _ => 0
  }

  /** From any other position the monitor can come to report monitor_ready first. */
  lemma {:induction false} ReadyComesFirst(s: State) returns (events: seq<Event>, t: State)
    requires Inv(s) && s.mgr.Await? && s.kill && s.general.MonitorStarted? && !SafeToKill(s)
    ensures Waits(s, events, t) && t.kill && t.mgr == s.mgr && SeesReady(t)
    decreases StepsToReady(s.mon)
  {
    hide WordsOk, CountsOk, BarrierOk, WorkFresh, Increment;
    if s.ipc.state.MonitorReady? {
      events, t := [], s;
    } else {
      var e := MonitorStep(PayloadValidation.CrcMismatched);
      var next := Next(s, e);
      StepKeepsInv(s, e);
      var rest;
      rest, t := ReadyComesFirst(next);
      events := [e] + rest;
      assert events[1..] == rest;
    }
  }

  /**
   The condition is exact: a terminatePayload that sends its request in a given
   position can return success with the request still pending, ready to kill
   the next payload, if and only if the position is not one of the safe ones.
   */
  lemma KillConditionExact(s: State)
    requires Inv(s) && s.mgr.TermKill? && s.general.MonitorStarted?
    ensures SafeToKill(s) <==> !exists events, t :: LeavesKill(s, events, t)
  {
    var sent := ManagerNext(s);
    ManagerKeepsInv(s);
    if SafeToKill(s) {
      forall events, t
        ensures !LeavesKill(s, events, t)
      {
        if LeavesKill(s, events, t) {
          SafeKillIsConsumed(sent, events, t);
          WaitsToTheEnd(sent, events, t);
          assert false;
        }
      }
    } else {
      var events, t := ReadyComesFirst(sent);
      assert LeavesKill(s, events, t);
    }
  }

  // ------------------------------------------- the exact condition before the call

  /** A run inside terminatePayload up to the point where it sends its request. */
  ghost predicate Sends(s: State, events: seq<Event>, u: State)
    decreases |events|
  {
    && (s.mgr.TermNoop? || s.mgr.TermKill?)
    && if events == [] then u == s && s.mgr.TermKill? else Enabled(s, events[0]) && Sends(Next(s, events[0]), events[1..], u)
  }

  /** A terminatePayload called now can succeed with its request still pending. */
  ghost predicate CallLeavesKill(s: State)
    requires s.mgr.Idle?
  {
    exists before, u, after, t :: Sends(Next(s, CallTerminate), before, u) && LeavesKill(u, after, t)
  }

  /** In a payload or bound for one with no request pending, or in the crash loop. */
  predicate SafeToCall(s: State) {
    s.mon.Crashed? || (!s.kill && (s.mon.InPayload? || Committed(s)))
  }

  lemma SafeCallStays(s: State, e: Event)
    requires SafeToCall(s) && Enabled(s, e) && (s.mgr.TermNoop? || s.mgr.TermKill?)
    requires Next(s, e).mgr.TermNoop? || Next(s, e).mgr.TermKill?
    ensures SafeToCall(Next(s, e)) && Next(s, e).general == s.general
  {
    hide Increment;
  }

  lemma {:induction false} SafeCallSendsSafely(s: State, events: seq<Event>, u: State)
    requires Inv(s) && SafeToCall(s) && s.general.MonitorStarted? && Sends(s, events, u)
    ensures Inv(u) && SafeToKill(u) && u.mgr.TermKill? && u.general.MonitorStarted?
    decreases |events|
  {
    if events != [] {
      StepKeepsInv(s, events[0]);
      SafeCallStays(s, events[0]);
      hide Inv, Next, Enabled, SafeToCall, SafeToKill;
      SafeCallSendsSafely(Next(s, events[0]), events[1..], u);
    }
  }

  function StepsToPublish(m: Monitor): nat {
    match m
    case Setup => 1
    case Boot => 2
    case _ => 3
  }

  /** Otherwise the core can come to where the request outlives the call before it is sent. */
  lemma {:induction false} ComesToUnsafe(s: State) returns (events: seq<Event>, u: State)
    requires Inv(s) && s.mgr.TermKill? && s.general.MonitorStarted? && !SafeToCall(s)
    ensures Sends(s, events, u) && Inv(u) && !SafeToKill(u) && u.mgr.TermKill? && u.general.MonitorStarted?
    decreases StepsToPublish(s.mon)
  {
    if !SafeToKill(s) {
      events, u := [], s;
    } else {
      var e := if s.mon.Boot? || s.mon.Setup? then GOOD else TakeKill;
      assert Enabled(s, e);
      var next := Next(s, e);
      StepKeepsInv(s, e);
      assert next.mgr == s.mgr && next.general == s.general && !SafeToCall(next);
      assert next.mon.Publish? || StepsToPublish(next.mon) < StepsToPublish(s.mon);
      hide Inv, Next, Enabled, SafeToCall;
      if next.mon.Publish? {
        events, u := [e], next;
        assert events[1..] == [];
      } else {
        var rest;
        rest, u := ComesToUnsafe(next);
        events := [e] + rest;
        assert events[1..] == rest;
      }
    }
  }

  /**
   The condition before the call, exact in every state: a terminatePayload
   called now can return success and leave its request pending if and only if
   the core is neither crashed nor, with no request pending, in or bound for a
   payload.
   */
  lemma CallConditionExact(s: State)
    requires Inv(s) && s.mgr.Idle? && s.general.MonitorStarted?
    ensures CallLeavesKill(s) <==> !SafeToCall(s)
  {
    var begun := Next(s, CallTerminate);
    StepKeepsInv(s, CallTerminate);
    if SafeToCall(s) {
      assert SafeToCall(begun) && begun.general.MonitorStarted?;
      hide Inv, Next, SafeToCall, SafeToKill, LeavesKill, Sends;
      forall before, u, after, t | Sends(begun, before, u)
        ensures !LeavesKill(u, after, t)
      {
        SafeCallSendsSafely(begun, before, u);
        KillConditionExact(u);
      }
    } else {
      var asked := Next(begun, ManagerStep);
      StepKeepsInv(begun, ManagerStep);
      assert asked.mgr.TermKill? && !SafeToCall(asked) && asked.general.MonitorStarted?;
      assert begun.mgr.TermNoop? && Enabled(begun, ManagerStep);
      hide Inv, Next, Enabled, SafeToCall, SafeToKill, LeavesKill;
      var rest, u := ComesToUnsafe(asked);
      KillConditionExact(u);
      assert ([ManagerStep] + rest)[1..] == rest;
      assert Sends(begun, [ManagerStep] + rest, u);
    }
  }

  /** For a call begun in running_payload or crashed_payload. */
  lemma CallFromPayloadExact(s: State)
    requires Inv(s) && s.mgr.Idle? && s.general.MonitorStarted? && PayloadReported(s.ipc.state)
    ensures CallLeavesKill(s) <==> !(s.mon.InPayload? && !s.kill)
  {
    CallConditionExact(s);
    hide WordsOk, CountsOk, BarrierOk, WorkFresh, CallLeavesKill;
  }

  /** With no kill outstanding that holds, so a clean call leaves no request behind. */
  lemma CleanCallLeavesNoKill(s0: State, events: seq<Event>, s: State)
    requires Initial(s0) && Reaches(s0, events, s)
    requires s.mgr.Idle? && s.general.MonitorStarted? && BeginsClean(s)
    ensures !CallLeavesKill(s)
  {
    InitialKillInv(s0);
    RunKeepsKill(s0, events, s);
    CallFromPayloadExact(s);
    hide WordsOk, CountsOk, BarrierOk, WorkFresh, CallLeavesKill;
  }

  // ----------------------------------------------------------- it does happen

  /** A payload that runs and has reported itself, its call over. */
  predicate Running(s: State) {
    && s.general.MonitorStarted? && s.mon.InPayload? && !s.mon.dummy && s.ipc.state.RunningPayload? && s.ipiEnabled
  }

  /** The monitor enters the payload, the payload reports itself, the manager sees it. */
  lemma Concludes(s: State) returns (events: seq<Event>, t: State)
    requires s.mon == Decide(PayloadValidation.CrcOk) && s.ipc.ack == s.ipc.sequence && s.ipc.resp == PayloadValidation.CrcOk
    requires s.mgr.PollAck? && s.mgr.i < START_POLLS && s.ipiEnabled && s.general.MonitorStarted?
    ensures Follows(Plain, s, events, t) && Running(t) && t.mgr.Idle?
  {
    events, t := [], s;
    events, t := Then(Plain, s, events, t, GOOD);
    events, t := Then(Plain, s, events, t, PayloadStarted);
    events, t := Then(Plain, s, events, t, ManagerStep);
    events, t := Then(Plain, s, events, t, ManagerStep);
    events, t := Then(Plain, s, events, t, ManagerStep);
  }

  /** From a start command before the monitor to a payload that has reported itself. */
  lemma Starts(s: State) returns (events: seq<Event>, t: State)
    requires Waiting(s) && s.mgr.PollAck? && s.mgr.i < START_POLLS && s.ipiEnabled
    ensures Follows(Plain, s, events, t) && Running(t) && t.mgr.Idle?
  {
    hide Follows;
    var a, picked := PicksUp(s);
    var b, accepted := Accepts(picked);
    var c;
    c, t := Concludes(accepted);
    Concatenate(Plain, picked, b, accepted, c, t);
    Concatenate(Plain, s, a, picked, b + c, t);
    events := a + (b + c);
  }

  /** A terminatePayload whose request is not taken in time. */
  lemma TerminationTimesOut(s: State) returns (events: seq<Event>, t: State)
    requires Running(s) && s.mgr.Idle?
    ensures Follows(Plain, s, events, t) && Running(t) && t.mgr.Idle? && t.kill
  {
    events, t := [], s;
    events, t := Then(Plain, s, events, t, CallTerminate);
    events, t := Then(Plain, s, events, t, ManagerStep);
    events, t := Then(Plain, s, events, t, ManagerStep);
    var rest, late := AwaitsOut(t);
    Concatenate(Plain, s, events, t, rest, late);
    events, t := Then(Plain, s, events + rest, late, ManagerStep);
  }

  /**
   Beginning in running_payload is not enough. From power-up: a payload runs, a
   first terminatePayload times out with its request not yet taken, and a second
   one can succeed and leave its own request pending, because the restart caused
   by the first clears old requests before the second sends its own.
   */
  lemma SecondKillSurvives(s0: State, args: Args) returns (events: seq<Event>, s: State)
    requires Initial(s0) && args.entry != DUMMY_ENTRY
    ensures Follows(Plain, s0, events, s)
    ensures s.mgr.Idle? && s.ipc.state.RunningPayload? && CallLeavesKill(s)
  {
    hide Follows, CallLeavesKill;
    var a, up := BootsUp(s0);
    SmallCounters(s0, a, up);
    var b, issued := Issues(up, args);
    var c, running := Starts(issued);
    var d;
    d, s := TerminationTimesOut(running);
    Concatenate(Plain, issued, c, running, d, s);
    Concatenate(Plain, up, b, issued, c + d, s);
    Concatenate(Plain, s0, a, up, b + (c + d), s);
    events := a + (b + (c + d));
    SmallCounters(s0, events, s);
    CallFromPayloadExact(s);
  }

  /** What the manager can tell from its history implies a safe position. */
  lemma CleanIsSafe(s0: State, events: seq<Event>, s: State)
    requires Initial(s0) && Reaches(s0, events, s)
    requires s.mgr.TermKill? && s.mgr.clean
    ensures SafeToKill(s)
  {
    InitialKillInv(s0);
    RunKeepsKill(s0, events, s);
  }

  /** Terminating while monitor_ready is reported is never safe. */
  lemma KillingReadyIsUnsafe(s: State)
    requires Inv(s) && s.general.MonitorStarted? && s.ipc.state.MonitorReady?
    ensures !SafeToKill(s)
  {
  }
}
