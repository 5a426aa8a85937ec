/**
 The command protocol between the manager on Linux and the monitor on the
 executor core, over the shared IPC block and the kill interrupt. One manager
 thread; every access to the shared block is one atomic step (the design
 assumes that all cores observe memory operations in the same order).
 */
module Protocol {
  import PayloadValidation

  type Response = PayloadValidation.Response

  const WORD: nat := 0x1_0000_0000
  const DUMMY_ENTRY: nat := 0xBAAD_F00D
  const START_POLLS: nat := 100
  const AWAIT_POLLS: nat := 50

  datatype DomainState =
    | InReset | MonitorReady | StartingPayload | RunningPayload
    | CrashedPayload | CrashedMonitor | Unavailable | InvalidState

  datatype Command = Noop | StartPayload

  datatype Args = Args(entry: nat, size: nat, crc: nat, argument: nat)

  /** The shared block; `sequence` and `ack` are 32-bit counters. */
  datatype Ipc = Ipc(cmd: Command, sequence: nat, ack: nat, args: Args, resp: Response, state: DomainState)

  datatype Error =
    | BadDomainState | PayloadChecksumMismatch | PayloadImageMalformed | PayloadAbiIncompatible
    | PayloadCrashedDuringStartup | PayloadStartTimedOut | MonitorStartTimedOut

  datatype Result = Success | Failure(error: Error)

  /** Where the manager thread is. */
  datatype Manager =
    | Idle
    | CheckState(args: Args)                 // startPayloadAt: first guard
    | CheckAck(args: Args)                   // second guard
    | Writing(args: Args, k: nat)            // 0, 1: flush of the output; stores 2-5: arguments, 6: command, 7: sequence number
    | PollAck(args: Args, i: nat)
    | PollResponse(args: Args, i: nat)
    | PollState(args: Args, i: nat)
    | TermNoop(clean: bool)                  // terminatePayload
    | TermKill(clean: bool)
    | Await(i: nat, clean: bool)             // awaitMonitorStartup
    | StartupClear                           // startup
    | StartupBoot

  /** Where the executor core is. */
  datatype Monitor =
    | Off
    | Boot                                   // FIQ masked
    | Setup                                  // FIQ unmasked, old requests not yet cleared
    | Publish                                // about to report monitor_ready
    | LoopSeq                                // compares the counters
    | LoopCmd                                // reads the command
    | NoopAck
    | StartState                             // about to report starting_payload
    | ReadEntry                              // looks for the dummy address
    | Validate                               // reads the arguments and checks the image
    | PutResponse(resp: Response)
    | PutAck(resp: Response)
    | Decide(resp: Response)                 // enters the payload, or not
    | SetReady
    | InPayload(dummy: bool)
    | Crashed                                // spins with all interrupts masked

  datatype General = CoreInReset | MonitorStarted

  /** A validation, an entry into a payload: for which command, with which data. */
  datatype Validation = NotValidated | Validated(id: nat, args: Args, resp: Response)

  datatype Entry = NotEntered | Entered(id: nat, address: nat)

  /** What the manager can tell from its own history about kill requests. */
  datatype KillMode = Quiet | OneKill | Unknown

  /**
   History that no code reads: commands issued and acknowledged, counted without
   wrap-around; the number issued when terminatePayload last wrote its no-op
   (`noopAt`), and that number at the last restart (`barrier`); the command the
   monitor last picked up; what it validated and entered, and for which command
   the payload reported its start.
   */
  datatype History = History(
    issued: nat, acked: nat, noopAt: nat, barrier: nat, current: nat,
    startingSinceReady: bool, validated: Validation, entered: Entry, reported: nat, mode: KillMode)

  datatype State = State(ipc: Ipc, general: General, mgr: Manager, mon: Monitor, kill: bool, ipiEnabled: bool, h: History)

  datatype Event =
    | CallStart(args: Args)
    | CallTerminate
    | CallStartup
    | ManagerStep
    | MonitorStep(verdict: Response)         // the verdict matters only while validating
    | PayloadStarted
    | PayloadCrashed
    | MonitorCrash                           // any fault at EL3, an unknown SMC included
    | TakeKill                               // FIQ: restart

  const ZERO_ARGS: Args := Args(0, 0, 0, 0)
  const FRESH: History := History(0, 0, 0, 0, 0, false, NotValidated, NotEntered, 0, Quiet)

  predicate Initial(s: State) {
    s.general.CoreInReset? && s.mgr.Idle? && s.mon.Off? && !s.kill && !s.ipiEnabled && s.h == FRESH
    && s.ipc.sequence == 0 && s.ipc.ack == 0
  }

  /** Counting up in 32 bits. */
  function Increment(word: nat): nat {
    (word + 1) % WORD
  }

  function Truncate(n: nat): nat {
    n % WORD
  }

  // ------------------------------------------------------------------ manager

  function Done(s: State): State {
    s.(mgr := Idle)
  }

  /** The manager has seen monitor_ready: a single outstanding kill is over. */
  function ReadySeen(h: History): History {
    h.(mode := if h.mode.OneKill? then Quiet else h.mode)
  }

  /** getState while the monitor has been started reports the word in the block. */
  predicate SeesReady(s: State) {
    s.general.MonitorStarted? && s.ipc.state.MonitorReady?
  }

  /** The flush concerns the standard output only (module PayloadOutput). */
  function Put(s: State, args: Args, k: nat): State {
    var a := s.ipc.args;
    if k < 2 then s.(mgr := Writing(args, k + 1))
    else if k == 2 then s.(ipc := s.ipc.(args := a.(entry := args.entry)), mgr := Writing(args, 3))
    else if k == 3 then s.(ipc := s.ipc.(args := a.(size := args.size)), mgr := Writing(args, 4))
    else if k == 4 then s.(ipc := s.ipc.(args := a.(crc := args.crc)), mgr := Writing(args, 5))
    else if k == 5 then s.(ipc := s.ipc.(args := a.(argument := args.argument)), mgr := Writing(args, 6))
    else if k == 6 then s.(ipc := s.ipc.(cmd := StartPayload), mgr := Writing(args, 7))
    else s.(ipc := s.ipc.(sequence := Increment(s.ipc.sequence)), mgr := PollAck(args, 0), h := s.h.(issued := s.h.issued + 1))
  }

  function ManagerNext(s: State): State {
    match s.mgr
    case Idle => s
    case CheckState(args) =>
      if SeesReady(s) then s.(mgr := CheckAck(args), h := ReadySeen(s.h)) else Done(s)
    case CheckAck(args) =>
      if s.ipc.ack == s.ipc.sequence then s.(mgr := Writing(args, 0)) else Done(s)
    case Writing(args, k) => Put(s, args, k)
    case PollAck(args, i) =>
      if i >= START_POLLS then Done(s)
      else if s.ipc.ack == s.ipc.sequence then s.(mgr := PollResponse(args, i))
      else s.(mgr := PollState(args, i))
    case PollResponse(args, i) =>
      if s.ipc.resp == PayloadValidation.CrcOk then s.(mgr := PollState(args, i)) else Done(s)
    case PollState(args, i) =>
      if s.ipc.state.RunningPayload? || s.ipc.state.CrashedPayload? then Done(s)
      else s.(mgr := PollAck(args, i + 1))
    case TermNoop(clean) =>
      s.(ipc := s.ipc.(cmd := Noop), mgr := TermKill(clean), h := s.h.(noopAt := s.h.issued))
    case TermKill(clean) =>
      s.(kill := true, mgr := Await(0, clean), h := s.h.(mode := if clean then OneKill else Unknown))
    case Await(i, clean) =>
      if i >= AWAIT_POLLS then Done(s)
      else if SeesReady(s) then Done(s).(h := ReadySeen(s.h))
      else s.(mgr := Await(i + 1, clean))
    case StartupClear =>
      s.(ipc := Ipc(Noop, 0, 0, ZERO_ARGS, PayloadValidation.CrcOk, InvalidState), mgr := StartupBoot, h := FRESH)
    case StartupBoot =>
      s.(mon := Boot, general := MonitorStarted, mgr := Await(0, false))
  }

  /** What the call returns if the manager's next step ends it. */
  function Returned(s: State): Result
    requires ManagerNext(s).mgr.Idle?
  {
    match s.mgr
    case CheckState(_) => Failure(BadDomainState)
    case CheckAck(_) => Failure(BadDomainState)
    case PollAck(_, _) => Failure(PayloadStartTimedOut)
    case PollResponse(_, _) =>
      (match s.ipc.resp
       case CrcMismatched => Failure(PayloadChecksumMismatch)
       case ImageMalformed => Failure(PayloadImageMalformed)
       case _ => Failure(PayloadAbiIncompatible))
    case PollState(_, _) =>
      if s.ipc.state.RunningPayload? then Success else Failure(PayloadCrashedDuringStartup)
    case Await(i, _) => if i >= AWAIT_POLLS then Failure(MonitorStartTimedOut) else Success
    case _ => Success
  }

  /** Inside startPayloadAt, where it can end. */
  predicate InStart(m: Manager) {
    m.CheckState? || m.CheckAck? || m.PollAck? || m.PollResponse? || m.PollState?
  }

  /** The manager's next step ends its call with this answer. */
  predicate Answers(s: State, result: Result) {
    ManagerNext(s).mgr.Idle? && Returned(s) == result
  }

  /** Terminating is clean if it begins in a payload and no kill is about. */
  predicate BeginsClean(s: State) {
    s.h.mode.Quiet? && (s.ipc.state.RunningPayload? || s.ipc.state.CrashedPayload?)
  }

  // ------------------------------------------------------------------ monitor

  function Acknowledged(s: State): State {
    s.(ipc := s.ipc.(ack := Increment(s.ipc.ack)), h := s.h.(acked := s.h.acked + 1))
  }

  function Report(s: State, state: DomainState): State {
    s.(ipc := s.ipc.(state := state),
       h := s.h.(startingSinceReady :=
                   if state.StartingPayload? then true
                   else if state.MonitorReady? then false
                   else s.h.startingSinceReady))
  }

  function MonitorNext(s: State, verdict: Response): State {
    match s.mon
    case Off => s
    case Boot => s.(mon := Setup)
    case Setup => s.(mon := Publish, kill := false, ipiEnabled := true)
    case Publish => Report(s, MonitorReady).(mon := LoopSeq)
    case LoopSeq => if s.ipc.sequence != s.ipc.ack then s.(mon := LoopCmd) else s
    case LoopCmd =>
      if s.ipc.cmd.Noop? then s.(mon := NoopAck)
      else s.(mon := StartState, h := s.h.(current := s.h.issued))
    case NoopAck => Acknowledged(s).(mon := LoopSeq)
    case StartState => Report(s, StartingPayload).(mon := ReadEntry)
    case ReadEntry =>
      if s.ipc.args.entry == DUMMY_ENTRY then s.(mon := InPayload(true)) else s.(mon := Validate)
    case Validate =>
      s.(mon := PutResponse(verdict), h := s.h.(validated := Validated(s.h.current, s.ipc.args, verdict)))
    case PutResponse(r) => s.(ipc := s.ipc.(resp := r), mon := PutAck(r))
    case PutAck(r) => Acknowledged(s).(mon := Decide(r))
    case Decide(r) =>
      if r == PayloadValidation.CrcOk
      then s.(mon := InPayload(false), h := s.h.(entered := Entered(s.h.current, s.ipc.args.entry)))
      else s.(mon := SetReady)
    case SetReady => Report(s, MonitorReady).(mon := LoopSeq)
    case InPayload(_) => s
    case Crashed => s
  }

  // ---------------------------------------------------------------- the system

  predicate Enabled(s: State, e: Event) {
    match e
    case CallStart(_) => s.mgr.Idle?
    case CallTerminate => s.mgr.Idle?
    case CallStartup => s.mgr.Idle?
    case ManagerStep => !s.mgr.Idle?
    case MonitorStep(_) => true
    case PayloadStarted => (s.mon.InPayload? && !s.mon.dummy)
    case PayloadCrashed => (s.mon.InPayload? && !s.mon.dummy)
    case MonitorCrash => !s.mon.Off? && !s.mon.Crashed?
    case TakeKill => s.kill && s.ipiEnabled && !s.mon.Off? && !s.mon.Boot? && !s.mon.Crashed?
  }

  function Next(s: State, e: Event): State
    requires Enabled(s, e)
  {
    match e
    case CallStart(args) => s.(mgr := CheckState(args))
    case CallTerminate => if s.general.MonitorStarted? then s.(mgr := TermNoop(BeginsClean(s))) else s
    case CallStartup => if s.general.CoreInReset? then s.(mgr := StartupClear) else s
    case ManagerStep => ManagerNext(s)
    case MonitorStep(verdict) => MonitorNext(s, verdict)
    case PayloadStarted => Report(s, RunningPayload).(h := s.h.(reported := s.h.current))
    case PayloadCrashed => Report(s, CrashedPayload)
    case MonitorCrash => Report(s, CrashedMonitor).(mon := Crashed)
    case TakeKill => s.(kill := false, mon := Boot, h := s.h.(barrier := s.h.noopAt))
  }

  ghost predicate Reaches(s: State, events: seq<Event>, s': State)
    decreases |events|
  {
    if events == [] then s' == s
    else Enabled(s, events[0]) && Reaches(Next(s, events[0]), events[1..], s')
  }

  // -------------------------------------------------------------- invariants

  /** Picked up and not yet acknowledged. */
  predicate Pending(m: Monitor) {
    m.LoopCmd? || m.NoopAck? || m.StartState? || m.ReadEntry? || m.Validate?
    || m.PutResponse? || m.PutAck? || (m.InPayload? && m.dummy)
  }

  /** Busy with a start command, or inside the payload it started. */
  predicate Working(m: Monitor) {
    m.StartState? || m.ReadEntry? || m.Validate? || m.PutResponse? || m.PutAck? || m.Decide? || m.InPayload?
  }

  /** Between reporting starting_payload and entering or giving up. */
  predicate Starting(m: Monitor) {
    m.ReadEntry? || m.Validate? || m.PutResponse? || m.PutAck? || m.Decide? || m.SetReady? || (m.InPayload? && m.dummy)
  }

  /** In the command loop. */
  predicate Looping(m: Monitor) {
    m.LoopSeq? || m.LoopCmd? || m.NoopAck? || m.StartState?
  }

  /** On the way to reporting monitor_ready. */
  predicate Restarting(m: Monitor) {
    m.Boot? || m.Setup? || m.Publish?
  }

  /** The 32-bit counters in the block. */
  predicate WordsOk(s: State) {
    s.ipc.sequence == Truncate(s.h.issued) && s.ipc.ack == Truncate(s.h.acked)
  }

  /** One command at most is outstanding. */
  predicate CountsOk(s: State) {
    && s.h.acked <= s.h.issued <= s.h.acked + 1
    && (Pending(s.mon) ==> s.h.issued == s.h.acked + 1)
    && (s.mgr.Writing? ==> s.h.issued == s.h.acked && s.mgr.k <= 7)
    && (s.mgr.PollResponse? ==> s.h.issued == s.h.acked)
  }

  predicate CountersOk(s: State) {
    WordsOk(s) && CountsOk(s)
  }

  /** Commands from before a terminatePayload are dead once it has taken effect. */
  predicate BarrierOk(s: State) {
    && s.h.barrier <= s.h.noopAt <= s.h.issued
    && (s.h.issued == s.h.acked + 1 && s.h.issued == s.h.noopAt ==> s.ipc.cmd.Noop?)
  }

  /** The monitor is only ever busy with a command from after the last restart. */
  predicate WorkFresh(s: State) {
    Working(s.mon) ==> s.h.current > s.h.barrier
  }

  /** What the reported state tells about the core. */
  predicate StatesOk(s: State) {
    && (Looping(s.mon) ==> s.ipc.state.MonitorReady?)
    && (Starting(s.mon) ==> s.ipc.state.StartingPayload?)
    && ((s.mon.InPayload? && !s.mon.dummy) ==> s.ipc.state.StartingPayload? || s.ipc.state.RunningPayload? || s.ipc.state.CrashedPayload?)
    && (s.ipc.state.RunningPayload? || s.ipc.state.CrashedPayload? ==>
          (s.mon.InPayload? && !s.mon.dummy) || Restarting(s.mon) || s.general.CoreInReset?)
    && (Starting(s.mon) || s.mon.InPayload? ==> s.h.startingSinceReady)
    && (s.general.MonitorStarted? ==> (s.mon.Crashed? <==> s.ipc.state.CrashedMonitor?))
  }

  predicate LifeOk(s: State) {
    && (s.general.CoreInReset? <==> s.mon.Off?)
    && (s.mgr.StartupClear? || s.mgr.StartupBoot? ==> s.general.CoreInReset?)
    && (s.mgr.StartupBoot? ==> s.ipc.state.InvalidState?)
    && (s.general.CoreInReset? ==>
          s.mgr.Idle? || s.mgr.CheckState? || s.mgr.StartupClear? || s.mgr.StartupBoot?)
    && (s.general.CoreInReset? ==> !s.kill && !s.ipiEnabled && s.h == FRESH)
    && (!s.mon.Off? && !s.mon.Boot? && !s.mon.Setup? && !s.mon.Crashed? ==> s.ipiEnabled)
  }

  predicate Inv(s: State) {
    CountersOk(s) && BarrierOk(s) && WorkFresh(s) && StatesOk(s) && LifeOk(s)
  }

  lemma InitialInv(s: State)
    requires Initial(s)
    ensures Inv(s)
  {
  }

  /** Equal counters mean nothing is outstanding, wrap-around or not. */
  lemma CountersTell(s: State)
    requires CountersOk(s)
    ensures s.ipc.sequence == s.ipc.ack <==> s.h.issued == s.h.acked
  {
    Wraps(s.h.acked);
  }

  lemma Wraps(n: nat)
    ensures Increment(Truncate(n)) == Truncate(n + 1)
    ensures Truncate(n + 1) != Truncate(n)
  {
  }

  lemma TruncatedZero()
    ensures Truncate(0) == 0
  {
  }

  /** What a store of the manager leaves alone. */
  lemma PutFrame(s: State)
    requires s.mgr.Writing?
    ensures var k, t := s.mgr.k, Put(s, s.mgr.args, s.mgr.k);
            && t == s.(ipc := t.ipc, mgr := t.mgr, h := t.h)
            && t.ipc == s.ipc.(args := t.ipc.args, cmd := t.ipc.cmd, sequence := t.ipc.sequence)
            && (k < 7 ==> t.mgr == Writing(s.mgr.args, k + 1) && t.h == s.h && t.ipc.sequence == s.ipc.sequence)
            && (k >= 7 ==> t.mgr == PollAck(s.mgr.args, 0) && t.h == s.h.(issued := s.h.issued + 1)
                           && t.ipc.sequence == Increment(s.ipc.sequence))
            && (k != 6 ==> t.ipc.cmd == s.ipc.cmd)
  {
    hide Increment;
  }

  lemma ManagerWords(s: State)
    requires WordsOk(s)
    ensures WordsOk(ManagerNext(s))
  {
    if s.mgr.Writing? {
      PutFrame(s);
    }
    hide SeesReady, Put, Increment, Truncate;
    Wraps(s.h.issued);
    TruncatedZero();
  }

  lemma ManagerCounts(s: State)
    requires CountsOk(s) && LifeOk(s)
    requires s.ipc.sequence == s.ipc.ack <==> s.h.issued == s.h.acked
    ensures CountsOk(ManagerNext(s))
  {
    if s.mgr.Writing? {
      PutFrame(s);
    }
    hide SeesReady, Put, Increment;
  }

  lemma ManagerBarrier(s: State)
    requires CountsOk(s) && BarrierOk(s) && LifeOk(s)
    ensures BarrierOk(ManagerNext(s))
  {
    if s.mgr.Writing? {
      PutFrame(s);
    }
    hide SeesReady, Put, Increment;
  }

  lemma ManagerFresh(s: State)
    requires WorkFresh(s) && LifeOk(s)
    ensures WorkFresh(ManagerNext(s))
  {
    if s.mgr.Writing? {
      PutFrame(s);
    }
    hide SeesReady, Put, Increment;
  }

  lemma ManagerStates(s: State)
    requires StatesOk(s) && LifeOk(s)
    ensures StatesOk(ManagerNext(s))
  {
    if s.mgr.Writing? {
      PutFrame(s);
    }
    hide SeesReady, Put, Increment;
  }

  lemma ManagerLife(s: State)
    requires LifeOk(s)
    ensures LifeOk(ManagerNext(s))
  {
  }

  lemma ManagerKeepsInv(s: State)
    requires Inv(s) && !s.mgr.Idle?
    ensures Inv(ManagerNext(s))
  {
    hide WordsOk, CountsOk, BarrierOk, WorkFresh, StatesOk, LifeOk, ManagerNext;
    CountersTell(s);
    ManagerWords(s);
    ManagerCounts(s);
    ManagerBarrier(s);
    ManagerFresh(s);
    ManagerStates(s);
    ManagerLife(s);
  }

  lemma MonitorWords(s: State, verdict: Response)
    requires WordsOk(s)
    ensures WordsOk(MonitorNext(s, verdict))
  {
    hide Increment, Truncate;
    Wraps(s.h.acked);
  }

  lemma MonitorCounts(s: State, verdict: Response)
    requires CountsOk(s) && LifeOk(s)
    requires s.ipc.sequence == s.ipc.ack <==> s.h.issued == s.h.acked
    ensures CountsOk(MonitorNext(s, verdict))
  {
  }

  lemma MonitorBarrier(s: State, verdict: Response)
    requires CountsOk(s) && BarrierOk(s)
    ensures BarrierOk(MonitorNext(s, verdict))
  {
    hide Increment;
  }

  lemma MonitorFresh(s: State, verdict: Response)
    requires CountsOk(s) && BarrierOk(s) && WorkFresh(s)
    ensures WorkFresh(MonitorNext(s, verdict))
  {
    hide Increment;
  }

  lemma MonitorStates(s: State, verdict: Response)
    requires StatesOk(s) && LifeOk(s)
    ensures StatesOk(MonitorNext(s, verdict))
  {
  }

  lemma MonitorLife(s: State, verdict: Response)
    requires LifeOk(s)
    ensures LifeOk(MonitorNext(s, verdict))
  {
  }

  lemma MonitorKeepsInv(s: State, verdict: Response)
    requires Inv(s)
    ensures Inv(MonitorNext(s, verdict))
  {
    hide WordsOk, CountsOk, BarrierOk, WorkFresh, StatesOk, LifeOk, MonitorNext;
    CountersTell(s);
    MonitorWords(s, verdict);
    MonitorCounts(s, verdict);
    MonitorBarrier(s, verdict);
    MonitorFresh(s, verdict);
    MonitorStates(s, verdict);
    MonitorLife(s, verdict);
  }

  /** Calls, reports of the payload, crashes and kills. */
  lemma OtherEventKeepsInv(s: State, e: Event)
    requires Inv(s) && Enabled(s, e) && !e.ManagerStep? && !e.MonitorStep?
    ensures Inv(Next(s, e))
  {
  }

  lemma StepKeepsInv(s: State, e: Event)
    requires Inv(s) && Enabled(s, e)
    ensures Inv(Next(s, e))
  {
    hide Inv, ManagerNext, MonitorNext;
    match e
    case ManagerStep => ManagerKeepsInv(s);
    case MonitorStep(verdict) => MonitorKeepsInv(s, verdict);
    case _ => OtherEventKeepsInv(s, e);
  }

  lemma {:induction false} RunKeepsInv(s: State, events: seq<Event>, s': State)
    requires Inv(s) && Reaches(s, events, s')
    ensures Inv(s')
    decreases |events|
  {
    if events != [] {
      StepKeepsInv(s, events[0]);
      hide Inv, Next, Enabled;
      RunKeepsInv(Next(s, events[0]), events[1..], s');
    }
  }
}
