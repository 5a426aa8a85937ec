/**
 When the guards of startPayloadAt may be trusted.

 If the monitor is prompt, a call never passes its second guard in a harmful
 position: it has picked a start command up by the time the issuing call gives
 up, and no kill throws it back to the start of one whose call has returned.
 Picking up in time is not enough alone (BelatedKill); both conditions are
 exact, step by step (PromptExact); and the one on kills holds by itself if
 every termination is clean (CleanRunsArePrompt).
 */
module ProtocolPickup {
  import opened Protocol
  import opened ProtocolPaths
  import opened ProtocolArguments
  import ProtocolKill

  /** Nothing lies in wait for the next call. */
  predicate PickedUpOk(s: State) {
    !Polling(s.mgr) ==> !NotPickedUp(s)
  }

  /** The first guard goes stale only over a dummy start, which is never acknowledged as such. */
  predicate GuardOk(s: State) {
    s.mgr.CheckAck? ==>
      || s.ipc.state.MonitorReady? || s.ipc.state.CrashedMonitor?
      || (s.ipc.state.StartingPayload? && Outstanding(s) && s.ipc.args.entry == DUMMY_ENTRY)
  }

  /** A payload that reports itself has been acknowledged. */
  predicate AckedOk(s: State) {
    s.general.MonitorStarted? && PayloadReported(s.ipc.state) ==> s.h.issued == s.h.acked
  }

  /** No command is written before the last one is settled. */
  predicate SettledOk(s: State) {
    && (s.mon.Decide? || s.mon.SetReady? ==> s.h.issued == s.h.acked)
    && (s.mgr.Writing? ==> !s.mon.Decide? && !s.mon.SetReady?)
  }

  /** The no-op stands as long as its call lasts. */
  predicate NoopStands(s: State) {
    s.mgr.TermKill? || s.mgr.Await? || s.mgr.StartupBoot? ==> s.ipc.cmd.Noop?
  }

  predicate PromptInv(s: State) {
    ArgsInv(s) && PickedUpOk(s) && GuardOk(s) && AckedOk(s) && SettledOk(s) && NoopStands(s)
  }

  lemma PromptIsGuarded(s: State, e: Event)
    requires CountersOk(s) && StatesOk(s) && LifeOk(s) && GuardOk(s)
    ensures Allowed(Guarded, s, e)
  {
    CountersTell(s);
    hide WordsOk;
  }

  lemma ManagerPickedUp(s: State)
    requires CountsOk(s) && LifeOk(s) && PickedUpOk(s) && AckedOk(s) && Allowed(Prompt, s, ManagerStep)
    ensures PickedUpOk(ManagerNext(s))
  {
    hide SeesReady, Increment;
  }

  lemma ManagerGuard(s: State)
    requires LifeOk(s) && GuardOk(s)
    ensures GuardOk(ManagerNext(s)) && (NoopStands(s) ==> NoopStands(ManagerNext(s)))
  {
    hide Increment;
  }

  lemma ManagerAcked(s: State)
    requires LifeOk(s) && AckedOk(s) && WritingSafe(s)
    ensures AckedOk(ManagerNext(s))
  {
    hide SeesReady, Increment;
  }

  lemma ManagerSettled(s: State)
    requires CountersOk(s) && StatesOk(s) && LifeOk(s) && GuardOk(s) && SettledOk(s)
    ensures SettledOk(ManagerNext(s))
  {
    CountersTell(s);
    hide SeesReady, Increment, WordsOk;
  }

  lemma MonitorPickedUp(s: State, verdict: Response)
    requires CountsOk(s) && LifeOk(s) && SettledOk(s) && PickedUpOk(s)
    ensures PickedUpOk(MonitorNext(s, verdict))
  {
    hide Increment;
  }

  lemma MonitorGuard(s: State, verdict: Response)
    requires CountsOk(s) && VerdictOk(s) && StatesOk(s) && SettledOk(s) && PickedUpOk(s) && GuardOk(s)
    ensures GuardOk(MonitorNext(s, verdict)) && (NoopStands(s) ==> NoopStands(MonitorNext(s, verdict)))
  {
    hide Increment;
  }

  lemma MonitorAcked(s: State, verdict: Response)
    requires CountsOk(s) && StatesOk(s) && LifeOk(s) && AckedOk(s)
    ensures AckedOk(MonitorNext(s, verdict))
  {
    hide Increment;
  }

  lemma MonitorSettled(s: State, verdict: Response)
    requires CountsOk(s) && WritingSafe(s) && SettledOk(s)
    ensures SettledOk(MonitorNext(s, verdict))
  {
    hide Increment;
  }

  lemma OtherEventKeepsPickup(s: State, e: Event)
    requires PromptInv(s) && Enabled(s, e) && Allowed(Prompt, s, e) && !e.ManagerStep? && !e.MonitorStep?
    ensures PickedUpOk(Next(s, e)) && GuardOk(Next(s, e)) && AckedOk(Next(s, e)) && SettledOk(Next(s, e)) && NoopStands(Next(s, e))
  {
    hide WordsOk, BarrierOk, WorkFresh, WritingSafe, PollingSafe, VerdictOk, PayloadOk, ResponseOk, ReportOk;
  }

  lemma StepKeepsPrompt(s: State, e: Event)
    requires PromptInv(s) && Enabled(s, e) && Allowed(Prompt, s, e)
    ensures Allowed(Guarded, s, e) && PromptInv(Next(s, e))
  {
    hide ManagerNext, MonitorNext, Allowed, WordsOk, CountsOk, BarrierOk, WorkFresh, StatesOk, LifeOk,
      WritingSafe, PollingSafe, WorkIsLatest, VerdictOk, PayloadOk, ResponseOk, ReportOk,
      PickedUpOk, GuardOk, AckedOk, SettledOk, NoopStands;
    PromptIsGuarded(s, e);
    StepKeepsArgs(s, e);
    match e {
      case ManagerStep =>
        ManagerPickedUp(s);
        ManagerGuard(s);
        ManagerAcked(s);
        ManagerSettled(s);
      case MonitorStep(verdict) =>
        MonitorPickedUp(s, verdict);
        MonitorGuard(s, verdict);
        MonitorAcked(s, verdict);
        MonitorSettled(s, verdict);
      case _ =>
        OtherEventKeepsPickup(s, e);
    }
  }

  lemma {:induction false} PromptRunsAreGuarded(s: State, events: seq<Event>, s': State)
    requires PromptInv(s) && Follows(Prompt, s, events, s')
    ensures Follows(Guarded, s, events, s') && PromptInv(s')
    decreases |events|
  {
    if events != [] {
      hide PromptInv, Next, Enabled, Allowed;
      StepKeepsPrompt(s, events[0]);
      PromptRunsAreGuarded(Next(s, events[0]), events[1..], s');
    }
  }

  lemma InitialPromptInv(s: State)
    requires Initial(s)
    ensures PromptInv(s)
  {
    InitialArgsInv(s);
  }

  // ----------------------------------------------------------------- theorems

  /** With a prompt monitor the two guards are as good as one, and nothing goes wrong. */
  lemma PickupSuffices(s0: State, events: seq<Event>, s: State)
    requires Initial(s0) && Follows(Prompt, s0, events, s)
    ensures Follows(Guarded, s0, events, s) && !Broken(s)
  {
    hide PromptInv, Broken;
    InitialPromptInv(s0);
    PromptRunsAreGuarded(s0, events, s);
    NothingBreaks(s0, events, s);
  }

  lemma PromptCannotBreak(s: State)
    requires PromptInv(s)
    ensures !CanBreak(Prompt, s)
  {
    hide ArgsInv, Broken;
    forall events, t | Follows(Prompt, s, events, t)
      ensures !Broken(t)
    {
      PromptRunsAreGuarded(s, events, t);
      NotBroken(t);
    }
  }

  /** A command whose call gave up on it before it was picked up. */
  lemma GivenUpIsPrimed(s: State)
    requires PromptInv(s) && GivesUp(s, ManagerStep) && NotPickedUp(s)
    ensures Primed(ManagerNext(s))
  {
    CountersTell(s);
    Wraps(s.h.acked);
    hide BarrierOk, WorkFresh, WritingSafe, WorkIsLatest, VerdictOk, PayloadOk, ResponseOk, ReportOk, Increment, Truncate;
  }

  /** A forgotten command after a kill, and what is known about it until the manager is idle. */
  predicate Revived(s: State) {
    && s.general.MonitorStarted? && s.ipc.args.entry != DUMMY_ENTRY && s.ipc.cmd.StartPayload?
    && s.ipc.sequence != s.ipc.ack && Increment(s.ipc.ack) == s.ipc.sequence
    && s.mon.Boot?
    && (s.mgr.Idle? || s.mgr.CheckState? || s.mgr.CheckAck? || s.mgr.TermNoop?)
  }

  lemma ForgottenIsRevived(s: State)
    requires PromptInv(s) && Enabled(s, TakeKill) && Forgotten(s)
    ensures Revived(Next(s, TakeKill))
  {
    CountersTell(s);
    Wraps(s.h.acked);
    hide BarrierOk, WorkFresh, WritingSafe, WorkIsLatest, VerdictOk, PayloadOk, ResponseOk, ReportOk, StatesOk, Increment, Truncate;
  }

  /** A call in progress fails; a termination comes too late. */
  lemma ManagerComesToRest(s: State) returns (events: seq<Event>, t: State)
    requires Revived(s)
    ensures Follows(Plain, s, events, t) && Primed(t)
  {
    events, t := [], s;
    if s.mgr.TermNoop? {
      events, t := TerminationComesLate(s);
    } else {
      if t.mgr.CheckState? {
        events, t := Then(Plain, s, events, t, ManagerStep);
      }
      if t.mgr.CheckAck? {
        events, t := Then(Plain, s, events, t, ManagerStep);
      }
    }
  }

  /** The monitor has read the command when the no-op is written, and still reports monitor_ready. */
  lemma TerminationComesLate(s: State) returns (events: seq<Event>, t: State)
    requires Revived(s) && s.mgr.TermNoop?
    ensures Follows(Plain, s, events, t) && Primed(t)
  {
    var first, read := ReadsCommand(s);
    var rest;
    rest, t := EndsAtOnce(read);
    Concatenate(Plain, s, first, read, rest, t);
    events := first + rest;
  }

  lemma ReadsCommand(s: State) returns (events: seq<Event>, t: State)
    requires Revived(s)
    ensures Follows(Plain, s, events, t) && t.mon.StartState? && t.ipc == s.ipc.(state := MonitorReady)
    ensures t.mgr == s.mgr && t.general == s.general
  {
    events, t := [], s;
    events, t := Then(Plain, s, events, t, GOOD);
    events, t := Then(Plain, s, events, t, GOOD);
    events, t := Then(Plain, s, events, t, GOOD);
    events, t := Then(Plain, s, events, t, GOOD);
    events, t := Then(Plain, s, events, t, GOOD);
  }

  lemma EndsAtOnce(s: State) returns (events: seq<Event>, t: State)
    requires s.mgr.TermNoop? && s.general.MonitorStarted? && s.ipc.state.MonitorReady?
    ensures Follows(Plain, s, events, t) && t.mgr.Idle? && t.ipc == s.ipc.(cmd := Noop)
    ensures t.mon == s.mon && t.general == s.general && t.kill && t.ipiEnabled == s.ipiEnabled
  {
    events, t := [], s;
    events, t := Then(Plain, s, events, t, ManagerStep);
    events, t := Then(Plain, s, events, t, ManagerStep);
    events, t := Then(Plain, s, events, t, ManagerStep);
  }

  lemma RevivedIsBroken(s: State)
    requires Revived(s)
    ensures CanBreak(Prompt, s)
  {
    hide Revived, Follows, Primed, Misentered;
    var a, idle := ManagerComesToRest(s);
    var b, t := PrimedIsBroken(idle);
    Weaken(Plain, Prompt, s, a, idle);
    Concatenate(Prompt, s, a, idle, b, t);
    assert Broken(t);
  }

  /**
   Both conditions are exact. Among continuations that observe them, a step
   leaves something to go wrong if and only if it violates one of them: a call
   gives up on a start the monitor has not picked up, or a kill strikes a start
   whose call has returned.
   */
  lemma PromptExact(s: State, e: Event)
    requires PromptInv(s) && Enabled(s, e)
    ensures CanBreak(Prompt, Next(s, e)) <==> !Allowed(Prompt, s, e)
  {
    hide PromptInv, CanBreak, Revived, NotPickedUp, Forgotten, Primed, ManagerNext, MonitorNext;
    if Allowed(Prompt, s, e) {
      StepKeepsPrompt(s, e);
      PromptCannotBreak(Next(s, e));
    } else if e.TakeKill? {
      ForgottenIsRevived(s);
      RevivedIsBroken(Next(s, e));
    } else {
      GivenUpIsPrimed(s);
      PrimedCanBreak(ManagerNext(s));
    }
  }

  lemma PrimedCanBreak(s: State)
    requires Primed(s)
    ensures CanBreak(Prompt, s)
  {
    hide Primed, Follows, Misentered;
    var events, t := PrimedIsBroken(s);
    assert Broken(t);
  }

  // ----------------------------------------------------- clean terminations

  lemma CleanKillIsTimely(s: State, e: Event)
    requires ProtocolKill.KillInv(s) && Enabled(s, e) && Allowed(InTimeClean, s, e)
    ensures Allowed(Prompt, s, e)
  {
    hide Inv, NotPickedUp;
  }

  lemma {:induction false} CleanRunsFollow(s: State, events: seq<Event>, s': State)
    requires ProtocolKill.KillInv(s) && Follows(InTimeClean, s, events, s')
    ensures Follows(Prompt, s, events, s')
    decreases |events|
  {
    if events != [] {
      hide ProtocolKill.KillInv, Next, Enabled, Allowed;
      CleanKillIsTimely(s, events[0]);
      ProtocolKill.StepKeepsKill(s, events[0]);
      CleanRunsFollow(Next(s, events[0]), events[1..], s');
    }
  }

  /**
   A run in which commands are picked up in time and every kill comes from a
   clean termination is prompt; so nothing goes wrong in it.
   */
  lemma CleanRunsArePrompt(s0: State, events: seq<Event>, s: State)
    requires Initial(s0) && Follows(InTimeClean, s0, events, s)
    ensures Follows(Prompt, s0, events, s) && Follows(Guarded, s0, events, s) && !Broken(s)
  {
    hide ProtocolKill.KillInv, Broken;
    ProtocolKill.InitialKillInv(s0);
    CleanRunsFollow(s0, events, s);
    PickupSuffices(s0, events, s);
  }

  // --------------------------------------------------------- the belated kill

  /** terminatePayload with the monitor at rest: success, and a request pending. */
  lemma TerminatesAtRest(s: State) returns (events: seq<Event>, t: State)
    requires Resting(s) && s.mgr.Idle?
    ensures Follows(Plain, s, events, t)
    ensures Resting(t) && t.mgr.Idle? && t.kill && t.ipiEnabled == s.ipiEnabled && t.ipc.sequence == s.ipc.sequence
  {
    events, t := Then(Plain, s, [], s, CallTerminate);
    var rest, u := EndsAtOnce(t);
    Concatenate(Plain, s, events, t, rest, u);
    events, t := events + rest, u;
  }

  /** A start is issued and picked up, and its call polls until only the time-out is left. */
  lemma StartDrags(s: State, args: Args) returns (events: seq<Event>, t: State)
    requires Resting(s) && s.mgr.Idle? && s.ipc.sequence < WORD && args.entry != DUMMY_ENTRY
    ensures Follows(Plain, s, events, t)
    ensures t.mon.Validate? && t.mgr == PollAck(args, START_POLLS) && t.general.MonitorStarted? && t.ipc.cmd.StartPayload?
    ensures t.ipc.args == args && t.ipc.sequence != t.ipc.ack && Increment(t.ipc.ack) == t.ipc.sequence
    ensures t.kill == s.kill && t.ipiEnabled == s.ipiEnabled
  {
    hide Follows, Increment;
    var a, issued := Issues(s, args);
    var b, picked := PicksUp(issued);
    var c;
    c, t := PollsOut(picked);
    Concatenate(Plain, issued, b, picked, c, t);
    Concatenate(Plain, s, a, issued, b + c, t);
    events := a + (b + c);
  }

  /**
   Picking up in time is not enough. From power-up: a termination with the
   monitor at rest leaves a kill pending; a start is picked up in time, but its
   call gives up during the validation; then the kill strikes, the restarted
   monitor picks the same command up once more, and the guards of a second call
   are torn.
   */
  lemma BelatedKill(s0: State, args: Args) returns (events: seq<Event>, t: State)
    requires Initial(s0) && args.entry != DUMMY_ENTRY
    ensures Follows(InTime, s0, events, t) && Misentered(t)
  {
    hide Follows, Misentered, Increment;
    var a, up := BootsUp(s0);
    SmallCounters(s0, a, up);
    var b, pending := TerminatesAtRest(up);
    var c, late := StartDrags(pending, args);
    Concatenate(Plain, up, b, pending, c, late);
    Concatenate(Plain, s0, a, up, b + c, late);
    Weaken(Plain, InTime, s0, a + (b + c), late);
    var first, killed := Then(InTime, s0, a + (b + c), late, ManagerStep);
    first, killed := Then(InTime, s0, first, killed, TakeKill);
    assert Primed(killed);
    var rest;
    rest, t := PrimedIsBroken(killed);
    Weaken(Prompt, InTime, killed, rest, t);
    Concatenate(InTime, s0, first, killed, rest, t);
    events := first + rest;
  }
}
