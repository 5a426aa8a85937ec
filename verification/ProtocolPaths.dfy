/**
 Runs under a discipline, what can go wrong in a run, and the pieces from which
 runs are built that show a discipline to be needed.
 */
module ProtocolPaths {
  import opened Protocol
  import PayloadValidation

  // -------------------------------------------------------------- disciplines

  predicate PayloadReported(state: DomainState) {
    state.RunningPayload? || state.CrashedPayload?
  }

  predicate PassesSecondGuard(s: State, e: Event) {
    e.ManagerStep? && s.mgr.CheckAck? && s.ipc.ack == s.ipc.sequence
  }

  /** About to enter a payload, or in one. */
  predicate Overlaps(s: State) {
    || (s.mon.Decide? && s.mon.resp == PayloadValidation.CrcOk)
    || (s.mon.InPayload? && !s.mon.dummy)
  }

  /**
   Where the core must not be when a call passes its second guard: about to
   enter a payload, in one, or restarting from one it still reports.
   */
  predicate Harmful(s: State) {
    Overlaps(s) || (Restarting(s.mon) && PayloadReported(s.ipc.state))
  }

  predicate Outstanding(s: State) {
    s.h.issued == s.h.acked + 1
  }

  /** A start command, not a dummy, is outstanding that the monitor has yet to report as starting. */
  predicate NotPickedUp(s: State) {
    && Outstanding(s) && s.ipc.args.entry != DUMMY_ENTRY
    && (s.mon.StartState? || ((s.mon.LoopSeq? || s.mon.LoopCmd? || Restarting(s.mon)) && s.ipc.cmd.StartPayload?))
  }

  predicate GivesUp(s: State, e: Event) {
    e.ManagerStep? && s.mgr.PollAck? && s.mgr.i >= START_POLLS
  }

  predicate Polling(m: Manager) {
    m.PollAck? || m.PollResponse? || m.PollState?
  }

  /** A start command, not a dummy, is outstanding and its call has returned. */
  predicate Forgotten(s: State) {
    Outstanding(s) && s.ipc.cmd.StartPayload? && s.ipc.args.entry != DUMMY_ENTRY && !Polling(s.mgr)
  }

  /** Which runs are considered. */
  datatype Discipline =
    | Free
    | Guarded      // no call passes its second guard in a harmful position
    | NoOverlap    // no call passes it with a payload running or about to be entered
    | InTime       // no call gives up on a command that has not been picked up
    | Prompt       // in time, and no kill strikes a forgotten start
    | InTimeClean  // in time, and every kill comes from a clean termination
    | Plain        // none of these matters

  predicate Allowed(d: Discipline, s: State, e: Event) {
    match d
    case Free => true
    case Guarded => PassesSecondGuard(s, e) ==> !Harmful(s)
    case NoOverlap => PassesSecondGuard(s, e) ==> !Overlaps(s)
    case InTime => GivesUp(s, e) ==> !NotPickedUp(s)
    case Prompt => (GivesUp(s, e) ==> !NotPickedUp(s)) && (e.TakeKill? ==> !Forgotten(s))
    case InTimeClean => (GivesUp(s, e) ==> !NotPickedUp(s)) && (e.TakeKill? ==> !s.h.mode.Unknown?)
    case Plain => !GivesUp(s, e) && !e.TakeKill? && (PassesSecondGuard(s, e) ==> !Harmful(s))
  }

  ghost predicate Follows(d: Discipline, s: State, events: seq<Event>, s': State)
    decreases |events|
  {
    if events == [] then s' == s
    else Enabled(s, events[0]) && Allowed(d, s, events[0]) && Follows(d, Next(s, events[0]), events[1..], s')
  }

  // ------------------------------------------------------- what can go wrong

  /** This very command was validated as good and entered at its address. */
  predicate EnteredAsIssued(s: State, args: Args) {
    && s.h.validated == Validated(s.h.issued, args, PayloadValidation.CrcOk)
    && s.h.entered == Entered(s.h.issued, args.entry)
  }

  /** A payload is running that was not found good, or at an address that was not. */
  predicate Misentered(s: State) {
    s.mon.InPayload? && !s.mon.dummy &&
    !(s.h.validated.Validated? && s.h.validated.resp == PayloadValidation.CrcOk &&
      s.h.entered == Entered(s.h.validated.id, s.h.validated.args.entry))
  }

  /** The manager is about to act on a response that is not about its command. */
  predicate ForeignResponse(s: State) {
    s.mgr.PollResponse? && s.h.validated != Validated(s.h.issued, s.mgr.args, s.ipc.resp)
  }

  /** The manager is about to report success for a payload that has not started. */
  predicate FalseSuccess(s: State) {
    s.mgr.PollState? && s.ipc.state.RunningPayload? && !(EnteredAsIssued(s, s.mgr.args) && s.h.reported == s.h.issued)
  }

  /** The manager is about to report a crash of a payload that was never entered. */
  predicate FalseCrash(s: State) {
    s.mgr.PollState? && s.ipc.state.CrashedPayload? && !EnteredAsIssued(s, s.mgr.args)
  }

  predicate Broken(s: State) {
    Misentered(s) || ForeignResponse(s) || FalseSuccess(s) || FalseCrash(s)
  }

  // ------------------------------------------------------- putting runs together

  lemma Prepend(d: Discipline, s: State, e: Event, rest: seq<Event>, s': State)
    requires Enabled(s, e) && Allowed(d, s, e) && Follows(d, Next(s, e), rest, s')
    ensures Follows(d, s, [e] + rest, s')
  {
    hide Enabled, Next, Allowed;
    assert ([e] + rest)[1..] == rest;
  }

  lemma {:induction false} Concatenate(d: Discipline, s: State, a: seq<Event>, t: State, b: seq<Event>, u: State)
    requires Follows(d, s, a, t) && Follows(d, t, b, u)
    ensures Follows(d, s, a + b, u)
    decreases |a|
  {
    if a == [] {
      assert a + b == b;
    } else {
      assert (a + b)[1..] == a[1..] + b;
      hide Enabled, Next, Allowed;
      Concatenate(d, Next(s, a[0]), a[1..], t, b, u);
    }
  }

  /** One step more. */
  lemma Then(d: Discipline, s: State, events: seq<Event>, t: State, e: Event) returns (longer: seq<Event>, t': State)
    requires Follows(d, s, events, t) && Enabled(t, e) && Allowed(d, t, e)
    ensures Follows(d, s, longer, t') && t' == Next(t, e)
  {
    hide Enabled, Next, Allowed;
    t' := Next(t, e);
    Prepend(d, t, e, [], t');
    Concatenate(d, s, events, t, [e] + [], t');
    longer := events + ([e] + []);
  }

  lemma {:induction false} FollowsReaches(d: Discipline, s: State, events: seq<Event>, t: State)
    requires Follows(d, s, events, t)
    ensures Reaches(s, events, t)
    decreases |events|
  {
    if events != [] {
      hide Enabled, Next, Allowed;
      FollowsReaches(d, Next(s, events[0]), events[1..], t);
    }
  }

  /** The runs of d are among those of d'. */
  predicate Stricter(d: Discipline, d': Discipline) {
    d'.Free? || d.Plain? || (d'.InTime? && (d.Prompt? || d.InTimeClean?))
  }

  lemma {:induction false} Weaken(d: Discipline, d': Discipline, s: State, events: seq<Event>, t: State)
    requires Stricter(d, d') && Follows(d, s, events, t)
    ensures Follows(d', s, events, t)
    decreases |events|
  {
    if events != [] {
      hide Enabled, Next, NotPickedUp, Harmful, Forgotten;
      Weaken(d, d', Next(s, events[0]), events[1..], t);
    }
  }

  lemma SmallCounters(s0: State, events: seq<Event>, s: State)
    requires Initial(s0) && Follows(Plain, s0, events, s)
    ensures Inv(s) && s.ipc.sequence < WORD
  {
    InitialInv(s0);
    FollowsReaches(Plain, s0, events, s);
    RunKeepsInv(s0, events, s);
  }

  // ---------------------------------------------------------------- the pieces

  const GOOD: Event := MonitorStep(PayloadValidation.CrcOk)

  /** The monitor waits for commands and none is outstanding. */
  predicate Resting(s: State) {
    s.general.MonitorStarted? && s.mon.LoopSeq? && s.ipc.state.MonitorReady? && s.ipc.sequence == s.ipc.ack
  }

  lemma ManagerStarts(s: State) returns (events: seq<Event>, t: State)
    requires Initial(s)
    ensures Follows(Plain, s, events, t)
    ensures t.mgr == Await(0, false) && t.mon.Boot? && t.general.MonitorStarted?
    ensures t.ipc.sequence == t.ipc.ack == 0 && !t.kill && t.h == FRESH
  {
    events, t := [], s;
    events, t := Then(Plain, s, events, t, CallStartup);
    events, t := Then(Plain, s, events, t, ManagerStep);
    events, t := Then(Plain, s, events, t, ManagerStep);
  }

  lemma MonitorBoots(s: State) returns (events: seq<Event>, t: State)
    requires s.mon.Boot? && s.general.MonitorStarted? && s.ipc.sequence == s.ipc.ack
    ensures Follows(Plain, s, events, t)
    ensures Resting(t) && t.mgr == s.mgr && !t.kill && t.ipiEnabled
    ensures t.h == s.h.(startingSinceReady := false)
  {
    events, t := [], s;
    events, t := Then(Plain, s, events, t, GOOD);
    events, t := Then(Plain, s, events, t, GOOD);
    events, t := Then(Plain, s, events, t, GOOD);
  }

  /** From power-up to an idle manager and a monitor at rest. */
  lemma BootsUp(s: State) returns (events: seq<Event>, t: State)
    requires Initial(s)
    ensures Follows(Plain, s, events, t)
    ensures Resting(t) && t.mgr.Idle? && !t.kill && t.ipiEnabled && t.h.mode.Quiet?
  {
    var first, rest, started, ready;
    first, started := ManagerStarts(s);
    rest, ready := MonitorBoots(started);
    Concatenate(Plain, s, first, started, rest, ready);
    events, t := Then(Plain, s, first + rest, ready, ManagerStep);
  }

  /** The monitor has an unacknowledged start command before it and nothing else to do. */
  predicate Waiting(s: State) {
    && s.general.MonitorStarted? && s.mon.LoopSeq? && s.ipc.state.MonitorReady? && s.ipc.cmd.StartPayload?
    && s.ipc.args.entry != DUMMY_ENTRY
    && s.ipc.sequence != s.ipc.ack && Increment(s.ipc.ack) == s.ipc.sequence
  }

  /** A call passes both guards. */
  lemma PassesGuards(s: State, args: Args) returns (events: seq<Event>, t: State)
    requires Resting(s) && s.mgr.Idle?
    ensures Follows(Plain, s, events, t)
    ensures t == s.(mgr := Writing(args, 0), h := ReadySeen(s.h))
  {
    events, t := [], s;
    events, t := Then(Plain, s, events, t, CallStart(args));
    events, t := Then(Plain, s, events, t, ManagerStep);
    events, t := Then(Plain, s, events, t, ManagerStep);
  }

  function Written(s: State, args: Args): State {
    s.(ipc := s.ipc.(args := args, cmd := StartPayload, sequence := Increment(s.ipc.sequence)),
       mgr := PollAck(args, 0), h := s.h.(issued := s.h.issued + 1))
  }

  lemma WritesArguments(s: State, args: Args) returns (events: seq<Event>, t: State)
    requires s.mgr == Writing(args, 0)
    ensures Follows(Plain, s, events, t)
    ensures t == s.(ipc := s.ipc.(args := args), mgr := Writing(args, 6))
  {
    events, t := [], s;
    events, t := Then(Plain, s, events, t, ManagerStep);
    events, t := Then(Plain, s, events, t, ManagerStep);
    events, t := Then(Plain, s, events, t, ManagerStep);
    events, t := Then(Plain, s, events, t, ManagerStep);
    events, t := Then(Plain, s, events, t, ManagerStep);
    events, t := Then(Plain, s, events, t, ManagerStep);
  }

  /** The manager writes a command while nobody else moves. */
  lemma Writes(s: State, args: Args) returns (events: seq<Event>, t: State)
    requires s.mgr == Writing(args, 0)
    ensures Follows(Plain, s, events, t) && t == Written(s, args)
  {
    events, t := WritesArguments(s, args);
    events, t := Then(Plain, s, events, t, ManagerStep);
    events, t := Then(Plain, s, events, t, ManagerStep);
  }

  /** A start issued to a monitor at rest. */
  lemma Issues(s: State, args: Args) returns (events: seq<Event>, t: State)
    requires Resting(s) && s.mgr.Idle? && s.ipc.sequence < WORD && args.entry != DUMMY_ENTRY
    ensures Follows(Plain, s, events, t)
    ensures Waiting(t) && t.mgr == PollAck(args, 0) && t.ipc.args == args
    ensures t.kill == s.kill && t.ipiEnabled == s.ipiEnabled
  {
    var first, rest, passed;
    first, passed := PassesGuards(s, args);
    rest, t := Writes(passed, args);
    Concatenate(Plain, s, first, passed, rest, t);
    events := first + rest;
  }

  lemma PicksUp(s: State) returns (events: seq<Event>, t: State)
    requires Waiting(s)
    ensures Follows(Plain, s, events, t)
    ensures t.mon.Validate? && t.mgr == s.mgr && t.ipc == s.ipc.(state := StartingPayload)
    ensures t.kill == s.kill && t.ipiEnabled == s.ipiEnabled && t.general == s.general
  {
    events, t := [], s;
    events, t := Then(Plain, s, events, t, GOOD);
    events, t := Then(Plain, s, events, t, GOOD);
    events, t := Then(Plain, s, events, t, GOOD);
    events, t := Then(Plain, s, events, t, GOOD);
  }

  /** The monitor finds the image good and acknowledges the command. */
  lemma Accepts(s: State) returns (events: seq<Event>, t: State)
    requires s.mon.Validate?
    ensures Follows(Plain, s, events, t)
    ensures t.mon == Decide(PayloadValidation.CrcOk) && t.mgr == s.mgr && t.general == s.general
    ensures t.ipc == s.ipc.(resp := PayloadValidation.CrcOk, ack := Increment(s.ipc.ack))
    ensures t.h.validated == Validated(s.h.current, s.ipc.args, PayloadValidation.CrcOk)
    ensures t.kill == s.kill && t.ipiEnabled == s.ipiEnabled
  {
    events, t := [], s;
    events, t := Then(Plain, s, events, t, GOOD);
    events, t := Then(Plain, s, events, t, GOOD);
    events, t := Then(Plain, s, events, t, GOOD);
  }

  /** A monitor that does not move: the call polls until only the time-out is left. */
  lemma {:induction false} PollsOut(s: State) returns (events: seq<Event>, t: State)
    requires s.mgr.PollAck? && s.mgr.i <= START_POLLS
    requires s.ipc.ack != s.ipc.sequence && !PayloadReported(s.ipc.state)
    ensures Follows(Plain, s, events, t) && t == s.(mgr := PollAck(s.mgr.args, START_POLLS))
    decreases START_POLLS - s.mgr.i
  {
    events, t := [], s;
    if s.mgr.i < START_POLLS {
      events, t := Then(Plain, s, events, t, ManagerStep);
      events, t := Then(Plain, s, events, t, ManagerStep);
      var rest, u := PollsOut(t);
      Concatenate(Plain, s, events, t, rest, u);
      events, t := events + rest, u;
    }
  }

  /** The same while waiting for monitor_ready. */
  lemma {:induction false} AwaitsOut(s: State) returns (events: seq<Event>, t: State)
    requires s.mgr.Await? && s.mgr.i <= AWAIT_POLLS && !SeesReady(s)
    ensures Follows(Plain, s, events, t) && t == s.(mgr := Await(AWAIT_POLLS, s.mgr.clean))
    decreases AWAIT_POLLS - s.mgr.i
  {
    events, t := [], s;
    if s.mgr.i < AWAIT_POLLS {
      events, t := Then(Plain, s, events, t, ManagerStep);
      var rest, u := AwaitsOut(t);
      Concatenate(Plain, s, events, t, rest, u);
      events, t := events + rest, u;
    }
  }

  // ---------------------------------------------------------------- torn guards

  /** The manager is idle and the monitor yet has to start an outstanding command. */
  predicate Primed(s: State) {
    && s.general.MonitorStarted? && s.mgr.Idle? && s.ipc.args.entry != DUMMY_ENTRY
    && s.ipc.sequence != s.ipc.ack && Increment(s.ipc.ack) == s.ipc.sequence
    && (Looping(s.mon) ==> s.ipc.state.MonitorReady?)
    && (s.mon.StartState? || ((s.mon.LoopSeq? || s.mon.LoopCmd? || Restarting(s.mon)) && s.ipc.cmd.StartPayload?))
  }

  function StepsToStart(m: Monitor): nat {
    match m
    case Boot => 5
    case Setup => 4
    case Publish => 3
    case LoopSeq => 2
    case LoopCmd => 1
    case _ => 0
  }

  lemma {:induction false} ComesToStart(s: State) returns (events: seq<Event>, t: State)
    requires Primed(s)
    ensures Follows(Plain, s, events, t) && Primed(t) && t.mon.StartState? && t.ipc.args == s.ipc.args
    decreases StepsToStart(s.mon)
  {
    events, t := [], s;
    if !s.mon.StartState? {
      events, t := Then(Plain, s, events, t, GOOD);
      var rest, u := ComesToStart(t);
      Concatenate(Plain, s, events, t, rest, u);
      events, t := events + rest, u;
    }
  }

  /** A second call sees monitor_ready, then the monitor moves on and acknowledges the first command. */
  lemma GuardsTear(s: State, other: Args) returns (events: seq<Event>, t: State)
    requires Primed(s) && s.mon.StartState?
    ensures Follows(Plain, s, events, t)
    ensures t.mgr == CheckAck(other) && t.mon == Decide(PayloadValidation.CrcOk) && t.ipc.ack == t.ipc.sequence
    ensures t.h.validated.Validated? && t.h.validated.args == s.ipc.args && t.general == s.general
  {
    events, t := [], s;
    events, t := Then(Plain, s, events, t, CallStart(other));
    events, t := Then(Plain, s, events, t, ManagerStep);
    events, t := Then(Plain, s, events, t, GOOD);
    events, t := Then(Plain, s, events, t, GOOD);
    var rest, u := Accepts(t);
    Concatenate(Plain, s, events, t, rest, u);
    events, t := events + rest, u;
  }

  /** It passes its second guard and overwrites the address between validation and use. */
  lemma Overwrites(s: State, other: Args) returns (events: seq<Event>, t: State)
    requires s.mgr == CheckAck(other) && s.mon == Decide(PayloadValidation.CrcOk) && s.ipc.ack == s.ipc.sequence
    requires s.h.validated.Validated? && s.h.validated.args.entry != other.entry
    ensures Follows(Prompt, s, events, t) && Misentered(t)
  {
    events, t := [], s;
    events, t := Then(Prompt, s, events, t, ManagerStep);
    events, t := Then(Prompt, s, events, t, ManagerStep);
    events, t := Then(Prompt, s, events, t, ManagerStep);
    events, t := Then(Prompt, s, events, t, ManagerStep);
    events, t := Then(Prompt, s, events, t, GOOD);
  }

  /** A command that lies in wait when the next call begins can be torn. */
  lemma PrimedIsBroken(s: State) returns (events: seq<Event>, t: State)
    requires Primed(s)
    ensures Follows(Prompt, s, events, t) && Misentered(t)
  {
    hide Primed, Follows, Misentered;
    var other := Args(s.ipc.args.entry + 1, 0, 0, 0);
    var a, b, c, poised, torn;
    a, poised := ComesToStart(s);
    b, torn := GuardsTear(poised, other);
    c, t := Overwrites(torn, other);
    Weaken(Plain, Prompt, s, a, poised);
    Weaken(Plain, Prompt, poised, b, torn);
    Concatenate(Prompt, poised, b, torn, c, t);
    Concatenate(Prompt, s, a, poised, b + c, t);
    events := a + (b + c);
  }
}
