/**
 Nested interrupts at EL1 with lazy saving of the floating-point context.

 On interrupt entry floating-point access is trapped; the first use inside a
 handler saves the context of the interrupted code onto a fixed array of eight
 blocks, and the exit path restores a block only if access was enabled.
 */
module LazyFpu {

  /** Sixteen bytes, as two 64-bit halves. */
  datatype Quad = Quad(lo: nat, hi: nat)

  type Registers = q: seq<Quad> | |q| == 32 witness seq(32, i => Quad(0, 0))

  /** All floating-point registers and both control registers. */
  datatype FpState = FpState(q: Registers, fpcr: nat, fpsr: nat)

  datatype Pstate = Pstate(irqMasked: bool, flags: nat)

  /** What the interrupted code must find again. */
  datatype Context = Context(pc: nat, pstate: Pstate, fp: FpState, fpEnabled: bool)

  /** How far an active interrupt has got. */
  datatype Phase =
    | Entered       // registers pushed, floating point trapped
    | Acknowledged  // IAR read, SPSR and ELR kept in locals
    | Handling      // user handler, interrupts unmasked
    | Remasked      // interrupts masked again, SPSR and ELR written back
    | Ended         // EOIR written
    | Crashed       // spurious or unhandled interrupt: reported, spins forever

  /**
   An active interrupt: what the assembly code keeps on the stack, what the C++
   handler keeps in locals, its group priority, and (history) the context of
   the code it interrupted.
   */
  datatype Frame = Frame(
    savedFpEnabled: bool, savedElr: nat, savedSpsr: Pstate,
    localElr: nat, localSpsr: Pstate,
    level: nat, phase: Phase, before: Context)

  /** `base` is FPUContextBase, counted in blocks; `status` is FPUStatus. */
  datatype Machine = Machine(
    pc: nat, pstate: Pstate, elr: nat, spsr: Pstate,
    fpEnabled: bool, fp: FpState,
    status: bool, base: nat, blocks: seq<FpState>,
    frames: seq<Frame>)

  const BLOCKS: nat := 8

  const MIN_PRIORITY: nat := 0x80
  const MAX_PRIORITY: nat := 0xF0

  datatype Event =
    | Compute(pc: nat, flags: nat)       // any instructions without floating point
    | UseFp(fp: FpState)                 // floating-point instructions, access enabled
    | FpTrap                             // first one while access is disabled
    | TakeIrq(vector: nat, priority: nat)
    | Acknowledge(priority: nat)
    | AcknowledgeSpurious
    | Unmask
    | Remask
    | EndInterrupt
    | Return

  function Top(m: Machine): Frame
    requires m.frames != []
  {
    m.frames[|m.frames| - 1]
  }

  function SetTop(m: Machine, f: Frame): seq<Frame>
    requires m.frames != []
  {
    m.frames[|m.frames| - 1 := f]
  }

  function Current(m: Machine): Context {
    Context(m.pc, m.pstate, m.fp, m.fpEnabled)
  }

  /** Only the upper four bits of a priority count for preemption. */
  function Level(priority: nat): nat {
    priority / 16
  }

  /** The levels the monitor lets a payload configure. */
  predicate PayloadPriority(priority: nat) {
    MIN_PRIORITY <= priority <= MAX_PRIORITY
  }

  /** The interrupt controller signals and hands out only higher priorities. */
  predicate Preempts(priority: nat, active: seq<Frame>) {
    forall i :: 0 <= i < |active| ==> Level(priority) < active[i].level
  }

  predicate InPhase(m: Machine, phase: Phase) {
    m.frames != [] && Top(m).phase == phase
  }

  predicate Enabled(m: Machine, e: Event) {
    match e
    case Compute(_, _) => true
    case UseFp(_) => m.fpEnabled
    case FpTrap => !m.fpEnabled
    case TakeIrq(_, p) => !m.pstate.irqMasked && PayloadPriority(p) && Preempts(p, m.frames)
    case Acknowledge(p) =>
      InPhase(m, Entered) && PayloadPriority(p) && Preempts(p, m.frames[..|m.frames| - 1])
    case AcknowledgeSpurious => InPhase(m, Entered)
    case Unmask => InPhase(m, Acknowledged)
    case Remask => InPhase(m, Handling)
    case EndInterrupt => InPhase(m, Remasked)
    case Return => InPhase(m, Ended)
  }

  /** The save or restore a step performs stays inside the context array. */
  predicate InsideArray(m: Machine, e: Event) {
    match e
    case FpTrap => m.status ==> m.base < |m.blocks|
    case Return => m.fpEnabled ==> 1 <= m.base <= |m.blocks|
    case _ => true
  }

  /** SynchronousInterruptHandler on a floating-point trap, up to its eret. */
  function Trap(m: Machine): Machine
    requires InsideArray(m, FpTrap)
  {
    var enabled := m.(fpEnabled := true, elr := m.pc, spsr := m.pstate);
    if m.status then
      enabled.(blocks := m.blocks[m.base := m.fp], base := m.base + 1)
    else
      enabled.(status := true, base := 0)
  }

  /** IRQInterruptHandler up to the call of the C++ handler. */
  function Enter(m: Machine, vector: nat, level: nat): Machine {
    m.(elr := m.pc, spsr := m.pstate, pc := vector, pstate := m.pstate.(irqMasked := true),
       fpEnabled := false,
       frames := m.frames + [Frame(m.fpEnabled, m.pc, m.pstate, 0, m.pstate, level, Entered, Current(m))])
  }

  /** IRQInterruptHandler after the C++ handler, including the eret. */
  function Leave(m: Machine): Machine
    requires m.frames != [] && InsideArray(m, Return)
  {
    var f := Top(m);
    var restored := if m.fpEnabled then m.(base := m.base - 1, fp := m.blocks[m.base - 1]) else m;
    restored.(fpEnabled := f.savedFpEnabled, elr := f.savedElr, spsr := f.savedSpsr,
              pc := f.savedElr, pstate := f.savedSpsr, frames := m.frames[..|m.frames| - 1])
  }

  function Step(m: Machine, e: Event): Machine
    requires Enabled(m, e) && InsideArray(m, e)
  {
    match e
    case Compute(pc, flags) => m.(pc := pc, pstate := m.pstate.(flags := flags))
    case UseFp(fp) => m.(fp := fp)
    case FpTrap => Trap(m)
    case TakeIrq(vector, p) => Enter(m, vector, Level(p))
    case Acknowledge(p) =>
      m.(frames := SetTop(m, Top(m).(phase := Acknowledged, localSpsr := m.spsr, localElr := m.elr, level := Level(p))))
    case AcknowledgeSpurious => m.(frames := SetTop(m, Top(m).(phase := Crashed)))
    case Unmask =>
      m.(pstate := m.pstate.(irqMasked := false), frames := SetTop(m, Top(m).(phase := Handling)))
    case Remask =>
      m.(pstate := m.pstate.(irqMasked := true), spsr := Top(m).localSpsr, elr := Top(m).localElr,
         frames := SetTop(m, Top(m).(phase := Remasked)))
    case EndInterrupt => m.(frames := SetTop(m, Top(m).(phase := Ended)))
    case Return => Leave(m)
  }

  // --------------------------------------------------------------- invariant

  /** Whether the code of frame i had floating point enabled when last seen. */
  predicate UsesFp(m: Machine, i: nat)
    requires i < |m.frames|
  {
    if i + 1 == |m.frames| then m.fpEnabled else m.frames[i + 1].savedFpEnabled
  }

  /** The floating-point registers as the code of frame i left them. */
  function FpOf(m: Machine, i: nat): FpState
    requires i < |m.frames|
  {
    if i + 1 == |m.frames| then m.fp else m.frames[i + 1].before.fp
  }

  predicate MainUsesFp(m: Machine) {
    if m.frames == [] then m.fpEnabled else m.frames[0].savedFpEnabled
  }

  /** How many of the first n active interrupts have enabled floating point. */
  function SavedBelow(m: Machine, n: nat): (c: nat)
    requires n <= |m.frames|
    ensures c <= n
  {
    if n == 0 then 0 else SavedBelow(m, n - 1) + if UsesFp(m, n - 1) then 1 else 0
  }

  predicate FramesFaithful(m: Machine) {
    forall i :: 0 <= i < |m.frames| ==>
      var f := m.frames[i];
      f.savedFpEnabled == f.before.fpEnabled && f.savedElr == f.before.pc && f.savedSpsr == f.before.pstate
  }

  predicate LevelsFall(m: Machine) {
    && (forall i :: 0 <= i < |m.frames| ==> 8 <= m.frames[i].level <= 15 - i)
    && (forall i, j :: 0 <= i < j < |m.frames| ==> m.frames[j].level < m.frames[i].level)
  }

  predicate MasksMatch(m: Machine) {
    && (m.frames != [] ==> (Top(m).phase == Handling <==> !m.pstate.irqMasked))
    && (forall i :: 0 <= i < |m.frames| - 1 ==> m.frames[i].phase == Handling)
    && (forall i :: 0 <= i < |m.frames| ==> !m.frames[i].savedSpsr.irqMasked)
  }

  predicate CountsMatch(m: Machine) {
    && |m.blocks| == BLOCKS
    && (m.status ==> m.base == SavedBelow(m, |m.frames|))
    && (m.status <==> MainUsesFp(m))
    && (!m.status ==> forall i :: 0 <= i < |m.frames| ==> !UsesFp(m, i))
  }

  /** The interrupted registers of frame i are in its block, or still in place. */
  predicate Kept(m: Machine, i: nat)
    requires i < |m.frames| && SavedBelow(m, i) < |m.blocks|
  {
    if UsesFp(m, i) then m.blocks[SavedBelow(m, i)] == m.frames[i].before.fp
    else FpOf(m, i) == m.frames[i].before.fp
  }

  predicate ContextsKept(m: Machine) {
    forall i :: 0 <= i < |m.frames| ==> SavedBelow(m, i) < |m.blocks| && Kept(m, i)
  }

  predicate Good(m: Machine) {
    FramesFaithful(m) && LevelsFall(m) && MasksMatch(m) && CountsMatch(m) && ContextsKept(m)
  }

  /** A payload starts with floating point trapped and nothing active. */
  predicate Initial(m: Machine) {
    m.frames == [] && !m.fpEnabled && !m.status && |m.blocks| == BLOCKS
  }

  lemma InitialGood(m: Machine)
    requires Initial(m)
    ensures Good(m)
  {
  }

  /**
   The restriction on payloads: a handler does not use floating point before
   the main program has.
   */
  predicate MainFirst(m: Machine, e: Event) {
    e.FpTrap? && m.frames != [] ==> m.status
  }

  // ------------------------------------------------------ depth and bounds

  /** Eight levels, each preempted only by a higher one: at most eight active. */
  lemma DepthBound(m: Machine)
    requires LevelsFall(m)
    ensures |m.frames| <= 8
  {
    if m.frames != [] {
      assert 8 <= Top(m).level <= 15 - (|m.frames| - 1);
    }
  }

  /** Every save and restore stays inside the 4224 bytes. */
  lemma GoodInsideArray(m: Machine, e: Event)
    requires Good(m) && Enabled(m, e) && MainFirst(m, e)
    ensures InsideArray(m, e)
    ensures m.status ==> m.base * 528 <= 4224
    ensures e.FpTrap? && m.status ==> (m.base + 1) * 528 <= 4224
  {
    DepthBound(m);
    if e.FpTrap? && m.status {
      assert m.frames != [];
      assert SavedBelow(m, |m.frames|) == SavedBelow(m, |m.frames| - 1);
    }
    if e.Return? && m.fpEnabled {
      assert UsesFp(m, |m.frames| - 1);
    }
  }

  /**
   Which interrupt may preempt which handler: one acknowledged at p and running
   with interrupts unmasked is preempted by q if and only if the upper four bits
   of q are the smaller number.
   */
  lemma PreemptionExact(m: Machine, p: nat, vector: nat, q: nat)
    requires Good(m) && Enabled(m, Acknowledge(p))
    ensures Enabled(Step(m, Acknowledge(p)), Unmask)
    ensures var handling := Step(Step(m, Acknowledge(p)), Unmask);
            Enabled(handling, TakeIrq(vector, q)) <==> 0x80 <= q <= 0xF0 && q / 16 < p / 16
  {
    hide CountsMatch, ContextsKept, FramesFaithful;
    var n := |m.frames| - 1;
    var handling := Step(Step(m, Acknowledge(p)), Unmask);
    assert handling.frames[..n] == m.frames[..n] && handling.frames[n].level == p / 16;
    assert forall i :: 0 <= i < n ==> handling.frames[i].level == m.frames[..n][i].level > p / 16;
    assert !handling.pstate.irqMasked;
  }

  // ----------------------------------------------------- steps keep the invariant

  /** Counting depends only on who had floating point enabled. */
  lemma {:induction false} SameCounts(m: Machine, m': Machine, n: nat)
    requires n <= |m.frames| && n <= |m'.frames|
    requires forall i :: 0 <= i < n ==> UsesFp(m, i) == UsesFp(m', i)
    ensures SavedBelow(m, n) == SavedBelow(m', n)
  {
    if n > 0 {
      SameCounts(m, m', n - 1);
    }
  }

  /** Steps that touch neither floating point nor the stack of saved values. */
  lemma QuietStep(m: Machine, m': Machine)
    requires Good(m)
    requires m'.blocks == m.blocks && m'.base == m.base && m'.status == m.status
    requires m'.fpEnabled == m.fpEnabled
    requires |m'.frames| == |m.frames|
    requires m.frames != [] && !m.fpEnabled ==> m'.fp == m.fp
    requires forall i :: 0 <= i < |m.frames| ==>
               m'.frames[i].before == m.frames[i].before && m'.frames[i].savedFpEnabled == m.frames[i].savedFpEnabled
    ensures CountsMatch(m') && ContextsKept(m')
  {
    assert forall i :: 0 <= i < |m.frames| ==> UsesFp(m, i) == UsesFp(m', i);
    forall n | 0 <= n <= |m.frames|
      ensures SavedBelow(m, n) == SavedBelow(m', n)
    {
      SameCounts(m, m', n);
    }
    forall i | 0 <= i < |m'.frames|
      ensures SavedBelow(m', i) < |m'.blocks| && Kept(m', i)
    {
      assert Kept(m, i);
    }
  }

  /** The part of the invariant that is about the frames alone. */
  predicate Shape(m: Machine) {
    FramesFaithful(m) && LevelsFall(m) && MasksMatch(m)
  }

  /** A step that only moves the innermost handler on. */
  lemma PhaseKeepsShape(m: Machine, m': Machine, f: Frame)
    requires Shape(m) && m.frames != [] && m'.frames == SetTop(m, f)
    requires f.savedFpEnabled == Top(m).savedFpEnabled && f.savedElr == Top(m).savedElr
    requires f.savedSpsr == Top(m).savedSpsr && f.before == Top(m).before
    requires f.level == Top(m).level || AcknowledgedLevel(m, f.level)
    requires f.phase == Handling <==> !m'.pstate.irqMasked
    ensures Shape(m')
  {
    if f.level != Top(m).level {
      LowerLevels(m, f.level);
    }
  }

  predicate AcknowledgedLevel(m: Machine, level: nat)
    requires m.frames != []
  {
    8 <= level <= 15 && forall i :: 0 <= i < |m.frames| - 1 ==> level < m.frames[i].level
  }

  lemma LowerLevels(m: Machine, level: nat)
    requires LevelsFall(m) && m.frames != [] && AcknowledgedLevel(m, level)
    ensures level <= 15 - (|m.frames| - 1)
  {
    if |m.frames| > 1 {
      assert level < m.frames[|m.frames| - 2].level;
    }
  }

  lemma QuietShape(m: Machine, e: Event)
    requires Shape(m) && Enabled(m, e)
    requires !e.FpTrap? && !e.TakeIrq? && !e.Return?
    ensures Shape(Step(m, e))
  {
    var m' := Step(m, e);
    if e.Compute? || e.UseFp? {
      assert m'.frames == m.frames && m'.pstate.irqMasked == m.pstate.irqMasked;
    } else {
      var f := Top(m');
      if e.Acknowledge? {
        assert f.level == Level(e.priority);
      }
      hide FramesFaithful, LevelsFall;
      PhaseKeepsShape(m, m', f);
    }
  }

  lemma QuietEvents(m: Machine, e: Event)
    requires Good(m) && Enabled(m, e) && InsideArray(m, e)
    requires !e.FpTrap? && !e.TakeIrq? && !e.Return?
    ensures Good(Step(m, e))
  {
    QuietShape(m, e);
    hide FramesFaithful, LevelsFall, MasksMatch, CountsMatch, ContextsKept;
    QuietStep(m, Step(m, e));
  }

  lemma PreemptingLevel(active: seq<Frame>, p: nat)
    requires PayloadPriority(p) && Preempts(p, active)
    requires forall i :: 0 <= i < |active| ==> 8 <= active[i].level <= 15 - i
    ensures 8 <= Level(p) <= 15 - |active|
  {
    if active != [] {
      assert Level(p) < active[|active| - 1].level;
    }
  }

  lemma TrapKeepsGood(m: Machine)
    requires Good(m) && Enabled(m, FpTrap) && InsideArray(m, FpTrap) && MainFirst(m, FpTrap)
    ensures Good(Step(m, FpTrap))
  {
    var m' := Step(m, FpTrap);
    assert Shape(m');
    if m.status {
      TrapCounts(m, m');
      TrapContexts(m);
      hide FramesFaithful, LevelsFall, MasksMatch, ContextsKept, SavedBelow;
      assert CountsMatch(m');
    }
  }

  lemma TrapContexts(m: Machine)
    requires CountsMatch(m) && ContextsKept(m)
    requires m.status && m.frames != [] && !m.fpEnabled && m.base < |m.blocks|
    ensures ContextsKept(Trap(m))
  {
    var m', n := Trap(m), |m.frames|;
    TrapCounts(m, m');
    hide SavedBelow;
    forall i | 0 <= i < n
      ensures SavedBelow(m', i) < |m'.blocks| && Kept(m', i)
    {
      assert Kept(m, i);
      SavedGrows(m, i, n - 1);
    }
  }

  lemma TrapCounts(m: Machine, m': Machine)
    requires m.frames != [] && !m.fpEnabled && m'.fpEnabled && m'.frames == m.frames
    ensures forall i :: 0 <= i < |m.frames| ==> SavedBelow(m', i) == SavedBelow(m, i)
    ensures SavedBelow(m', |m.frames|) == SavedBelow(m, |m.frames|) + 1
    ensures SavedBelow(m, |m.frames|) == SavedBelow(m, |m.frames| - 1)
  {
    forall i | 0 <= i < |m.frames|
      ensures SavedBelow(m', i) == SavedBelow(m, i)
    {
      SameCounts(m, m', i);
    }
  }

  lemma {:induction false} SavedGrows(m: Machine, i: nat, n: nat)
    requires i <= n <= |m.frames|
    ensures SavedBelow(m, i) <= SavedBelow(m, n)
    ensures i < n && UsesFp(m, i) ==> SavedBelow(m, i) < SavedBelow(m, n)
    decreases n
  {
    if i < n {
      SavedGrows(m, i, n - 1);
    }
  }

  lemma PushKeepsShape(m: Machine, m': Machine, f: Frame)
    requires Shape(m) && !m.pstate.irqMasked && m'.pstate.irqMasked
    requires m'.frames == m.frames + [f] && f.phase == Entered
    requires f.savedFpEnabled == f.before.fpEnabled && f.savedElr == f.before.pc && f.savedSpsr == f.before.pstate
    requires !f.savedSpsr.irqMasked
    requires 8 <= f.level <= 15 - |m.frames|
    requires forall i :: 0 <= i < |m.frames| ==> f.level < m.frames[i].level
    ensures Shape(m')
  {
  }

  lemma EnterShape(m: Machine, vector: nat, p: nat)
    requires Shape(m) && Enabled(m, TakeIrq(vector, p))
    ensures Shape(Step(m, TakeIrq(vector, p))) && |m.frames| < 8
  {
    PreemptingLevel(m.frames, p);
    hide Shape;
    var m' := Step(m, TakeIrq(vector, p));
    PushKeepsShape(m, m', Top(m'));
  }

  /** Entering or leaving an interrupt does not change the count below it. */
  lemma CountsBelow(m: Machine, m': Machine, n: nat)
    requires n <= |m.frames| && n <= |m'.frames|
    requires forall i :: 0 <= i < n ==> UsesFp(m, i) == UsesFp(m', i)
    ensures forall k :: 0 <= k <= n ==> SavedBelow(m, k) == SavedBelow(m', k)
  {
    forall k | 0 <= k <= n
      ensures SavedBelow(m, k) == SavedBelow(m', k)
    {
      SameCounts(m, m', k);
    }
  }

  lemma EnterKeepsGood(m: Machine, vector: nat, p: nat)
    requires Good(m) && Enabled(m, TakeIrq(vector, p))
    ensures Good(Step(m, TakeIrq(vector, p)))
  {
    var m' := Step(m, TakeIrq(vector, p));
    var n := |m.frames|;
    EnterShape(m, vector, p);
    hide FramesFaithful, LevelsFall, MasksMatch;
    assert forall i :: 0 <= i < n ==> UsesFp(m, i) == UsesFp(m', i);
    CountsBelow(m, m', n);
    forall i | 0 <= i < |m'.frames|
      ensures SavedBelow(m', i) < |m'.blocks| && Kept(m', i)
    {
      if i < n {
        assert Kept(m, i);
      }
    }
  }

  /** Returning gives the interrupted code its context back. */
  lemma LeaveRestores(m: Machine)
    requires Good(m) && Enabled(m, Return) && InsideArray(m, Return)
    ensures Current(Step(m, Return)) == Top(m).before
    ensures m.fpEnabled ==> Step(m, Return).base == SavedBelow(m, |m.frames| - 1)
    ensures m.status && !m.fpEnabled ==> Step(m, Return).base == SavedBelow(m, |m.frames| - 1)
  {
    hide LevelsFall, MasksMatch;
    var n := |m.frames| - 1;
    assert Kept(m, n);
  }

  lemma LeaveShape(m: Machine)
    requires Shape(m) && Enabled(m, Return) && InsideArray(m, Return)
    ensures Shape(Step(m, Return))
  {
  }

  lemma LeaveKeepsGood(m: Machine)
    requires Good(m) && Enabled(m, Return) && InsideArray(m, Return)
    ensures Good(Step(m, Return))
  {
    var m' := Step(m, Return);
    var n := |m.frames| - 1;
    LeaveShape(m);
    LeaveRestores(m);
    hide FramesFaithful, LevelsFall, MasksMatch, ContextsKept, SavedBelow;
    assert forall i :: 0 <= i < n ==> UsesFp(m, i) == UsesFp(m', i);
    CountsBelow(m, m', n);
    assert CountsMatch(m');
    LeaveContexts(m);
  }

  lemma LeaveContexts(m: Machine)
    requires CountsMatch(m) && ContextsKept(m) && m.frames != [] && InsideArray(m, Return)
    requires Leave(m).fp == Top(m).before.fp
    ensures ContextsKept(Leave(m))
  {
    var m', n := Leave(m), |m.frames| - 1;
    assert forall i :: 0 <= i < n ==> UsesFp(m, i) == UsesFp(m', i);
    CountsBelow(m, m', n);
    hide SavedBelow;
    forall i | 0 <= i < n
      ensures SavedBelow(m', i) < |m'.blocks| && Kept(m', i)
    {
      assert Kept(m, i);
    }
  }

  lemma StepKeepsGood(m: Machine, e: Event)
    requires Good(m) && Enabled(m, e) && MainFirst(m, e)
    ensures InsideArray(m, e) && Good(Step(m, e))
  {
    hide Good;
    GoodInsideArray(m, e);
    match e
    case FpTrap => TrapKeepsGood(m);
    case TakeIrq(vector, p) => EnterKeepsGood(m, vector, p);
    case Return => LeaveKeepsGood(m);
    case _ => QuietEvents(m, e);
  }

  /**
   The restriction on payloads is exact: a trap inside a handler keeps the
   bookkeeping right if and only if FPUStatus is already set.
   */
  lemma MainFirstIsExact(m: Machine)
    requires Good(m) && Enabled(m, FpTrap) && m.frames != []
    ensures InsideArray(m, FpTrap)
    ensures Good(Step(m, FpTrap)) <==> m.status
  {
    if m.status {
      StepKeepsGood(m, FpTrap);
    } else {
      var m' := Step(m, FpTrap);
      assert MainUsesFp(m') == MainUsesFp(m);
    }
  }

  // -------------------------------------------------------------------- runs

  ghost predicate Reaches(m: Machine, events: seq<Event>, m': Machine)
    decreases |events|
  {
    if events == [] then m' == m
    else
      && Enabled(m, events[0]) && MainFirst(m, events[0]) && InsideArray(m, events[0])
      && Reaches(Step(m, events[0]), events[1..], m')
  }

  lemma {:induction false} RunKeepsGood(m: Machine, events: seq<Event>, m': Machine)
    requires Good(m) && Reaches(m, events, m')
    ensures Good(m')
    decreases |events|
  {
    if events != [] {
      hide Good, Step, Enabled, MainFirst, InsideArray;
      StepKeepsGood(m, events[0]);
      RunKeepsGood(Step(m, events[0]), events[1..], m');
    }
  }

  /**
   In every run of every payload that respects the restriction at most eight
   interrupts are active, the number of saved blocks is the number of active
   handlers that have enabled floating point, and it never leaves the array.
   */
  lemma RunBookkeeping(start: Machine, events: seq<Event>, m: Machine)
    requires Initial(start) && Reaches(start, events, m)
    ensures |m.frames| <= 8
    ensures m.status ==> m.base == SavedBelow(m, |m.frames|) && m.base * 528 <= 4224
    ensures m.status <==> MainUsesFp(m)
  {
    InitialGood(start);
    RunKeepsGood(start, events, m);
    DepthBound(m);
  }

  /** Never blocked by the array: InsideArray adds nothing to a run. */
  lemma RunNeverOverflows(start: Machine, events: seq<Event>, m: Machine, e: Event)
    requires Initial(start) && Reaches(start, events, m)
    requires Enabled(m, e) && MainFirst(m, e)
    ensures InsideArray(m, e)
  {
    InitialGood(start);
    RunKeepsGood(start, events, m);
    StepKeepsGood(m, e);
  }

  /** The run stays inside the handlers above depth d. */
  ghost predicate StaysAbove(m: Machine, events: seq<Event>, d: nat)
    decreases |events|
  {
    && |m.frames| > d
    && (events != [] && Enabled(m, events[0]) && InsideArray(m, events[0]) ==>
          StaysAbove(Step(m, events[0]), events[1..], d))
  }

  lemma StepKeepsLower(m: Machine, e: Event, d: nat)
    requires Enabled(m, e) && InsideArray(m, e)
    requires |m.frames| > d && |Step(m, e).frames| > d
    ensures Step(m, e).frames[..d] == m.frames[..d]
    ensures Step(m, e).frames[d].before == m.frames[d].before
  {
  }

  /** While deeper handlers run, the stack below them does not change. */
  lemma {:induction false} LowerStackKept(m: Machine, events: seq<Event>, m': Machine, d: nat)
    requires Good(m) && Reaches(m, events, m') && StaysAbove(m, events, d)
    ensures |m'.frames| > d
    ensures m'.frames[..d] == m.frames[..d]
    ensures m'.frames[d].before == m.frames[d].before
    decreases |events|
  {
    if events != [] {
      StepKeepsGood(m, events[0]);
      StepKeepsLower(m, events[0], d);
      hide Good, Step;
      LowerStackKept(Step(m, events[0]), events[1..], m', d);
    }
  }

  /** From m an interrupt is taken, and `last` is about to return from it. */
  ghost predicate Interlude(m: Machine, vector: nat, p: nat, events: seq<Event>, last: Machine)
    requires Enabled(m, TakeIrq(vector, p))
  {
    && Reaches(Step(m, TakeIrq(vector, p)), events, last)
    && StaysAbove(Step(m, TakeIrq(vector, p)), events, |m.frames|)
    && |last.frames| == |m.frames| + 1 && Enabled(last, Return)
  }

  lemma InterludeIsTransparent(m: Machine, vector: nat, p: nat, events: seq<Event>, last: Machine)
    requires Good(m) && Enabled(m, TakeIrq(vector, p)) && Interlude(m, vector, p, events, last)
    ensures InsideArray(last, Return)
    ensures Current(Step(last, Return)) == Current(m)
    ensures Step(last, Return).frames == m.frames
    ensures m.status ==> Step(last, Return).base == m.base
  {
    var d := |m.frames|;
    var entered := Step(m, TakeIrq(vector, p));
    StepKeepsGood(m, TakeIrq(vector, p));
    RunKeepsGood(entered, events, last);
    LowerStackKept(entered, events, last, d);
    assert entered.frames[..d] == m.frames;
    StepKeepsGood(last, Return);
    LeaveRestores(last);
    var after := Step(last, Return);
    assert after.frames == m.frames;
    SameCounts(m, after, d);
  }

  /**
   A handler is transparent. In every run of a payload, whatever happens between
   taking an interrupt and returning from it, with any nesting of further
   interrupts and any use of floating point in any of them, the interrupted code
   continues at the same place with the same processor state, the same
   floating-point registers and the same access to them, above the same stack.
   */
  lemma HandlerIsTransparent(start: Machine, before: seq<Event>, m: Machine, vector: nat, p: nat, events: seq<Event>, last: Machine)
    requires Initial(start) && Reaches(start, before, m)
    requires Enabled(m, TakeIrq(vector, p)) && Interlude(m, vector, p, events, last)
    ensures InsideArray(last, Return)
    ensures Current(Step(last, Return)) == Current(m)
    ensures Step(last, Return).frames == m.frames
    ensures m.status ==> Step(last, Return).base == m.base
  {
    hide Good, Interlude, Step, Reaches;
    InitialGood(start);
    RunKeepsGood(start, before, m);
    InterludeIsTransparent(m, vector, p, events, last);
  }

  // -------------------------------------------------- the bounds are reached

  lemma {:induction false} RunOn(m: Machine, a: seq<Event>, m': Machine, e: Event) returns (b: seq<Event>, m'': Machine)
    requires Reaches(m, a, m') && Enabled(m', e) && MainFirst(m', e) && InsideArray(m', e)
    ensures Reaches(m, b, m'') && m'' == Step(m', e)
    decreases |a|
  {
    hide Enabled, MainFirst, InsideArray, Step;
    if a == [] {
      b, m'' := [e], Step(m', e);
      assert b[1..] == [];
    } else {
      var c;
      c, m'' := RunOn(Step(m, a[0]), a[1..], m', e);
      b := [a[0]] + c;
      assert b[1..] == c;
    }
  }

  /**
   The main program and n handlers, each above the last, have all used floating
   point and left their own number in FPCR, and each was interrupted at an
   address and with flags of its own.
   */
  predicate Deep(m: Machine, n: nat) {
    && |m.frames| == n && |m.blocks| == 8 && m.status && m.fpEnabled && m.base == n && !m.pstate.irqMasked
    && n <= 8 && m.fp.fpcr == n
    && (forall i :: 0 <= i < n ==> m.frames[i].level == 15 - i)
    && (forall i :: 0 <= i < n ==> m.frames[i].before.pc == 4 * i && m.frames[i].before.pstate.flags == i)
    && (forall i :: 0 <= i < n ==> m.blocks[i].fpcr == i)
  }

  lemma GoesDeeper(start: Machine, a: seq<Event>, m: Machine, n: nat) returns (b: seq<Event>, deeper: Machine)
    requires Reaches(start, a, m) && Deep(m, n) && n < 8
    ensures Reaches(start, b, deeper) && Deep(deeper, n + 1)
  {
    hide Reaches;
    var p := 0xF0 - 16 * n;
    b, deeper := RunOn(start, a, m, Compute(4 * n, n));
    b, deeper := RunOn(start, b, deeper, TakeIrq(0x280, p));
    assert deeper.frames[..n] == m.frames;
    b, deeper := RunOn(start, b, deeper, Acknowledge(p));
    assert deeper.frames[..n] == m.frames && deeper.frames[n].level == 15 - n;
    assert deeper.frames[n].before.pc == 4 * n && deeper.frames[n].before.pstate.flags == n;
    b, deeper := RunOn(start, b, deeper, Unmask);
    b, deeper := RunOn(start, b, deeper, FpTrap);
    b, deeper := RunOn(start, b, deeper, UseFp(deeper.fp.(fpcr := n + 1)));
    assert deeper.frames[..n] == m.frames && deeper.frames[n].level == 15 - n;
    assert deeper.frames[n].before.pc == 4 * n && deeper.frames[n].before.pstate.flags == n;
  }

  lemma {:induction false} GoesDown(start: Machine, a: seq<Event>, m: Machine, n: nat) returns (b: seq<Event>, deepest: Machine)
    requires Reaches(start, a, m) && Deep(m, n) && n <= 8
    ensures Reaches(start, b, deepest) && Deep(deepest, 8)
    decreases 8 - n
  {
    hide Reaches, Deep;
    b, deepest := a, m;
    if n < 8 {
      b, deepest := GoesDeeper(start, a, m, n);
      b, deepest := GoesDown(start, b, deepest, n + 1);
    }
  }

  /**
   Eight levels and eight blocks are needed: from every start state with
   interrupts unmasked there is a run in which eight handlers are active, one
   above the other, and all eight blocks of the array are in use, each holding
   the registers of the code its handler interrupted.
   */
  lemma DepthIsReached(start: Machine) returns (events: seq<Event>, m: Machine)
    requires Initial(start) && !start.pstate.irqMasked
    ensures Reaches(start, events, m) && |m.frames| == 8 && m.base == 8 && m.base * 528 == 4224
    ensures |m.blocks| == 8 && m.fp.fpcr == 8 && forall i :: 0 <= i < 8 ==> m.blocks[i].fpcr == i
    ensures forall i :: 0 <= i < 8 ==> m.frames[i].before.pc == 4 * i && m.frames[i].before.pstate.flags == i
  {
    assert Reaches(start, [], start);
    events, m := RunOn(start, [], start, FpTrap);
    hide Reaches;
    events, m := RunOn(start, events, m, UseFp(m.fp.(fpcr := 0)));
    events, m := GoesDown(start, events, m, 0);
  }

  /** A spurious or unhandled interrupt is the end: nothing ever returns from it. */
  lemma {:induction false} SpuriousIsFinal(m: Machine, events: seq<Event>, m': Machine)
    requires InPhase(m, Crashed) && m.pstate.irqMasked && Reaches(m, events, m')
    ensures InPhase(m', Crashed) && |m'.frames| == |m.frames| && !Enabled(m', Return)
    decreases |events|
  {
    if events != [] {
      SpuriousStays(m, events[0]);
      hide Step, Enabled, InsideArray, MainFirst;
      SpuriousIsFinal(Step(m, events[0]), events[1..], m');
    }
  }

  lemma SpuriousStays(m: Machine, e: Event)
    requires InPhase(m, Crashed) && m.pstate.irqMasked && Enabled(m, e) && InsideArray(m, e)
    ensures InPhase(Step(m, e), Crashed) && Step(m, e).pstate.irqMasked && |Step(m, e).frames| == |m.frames|
  {
  }

  /** An interrupt nobody handles leads there. */
  lemma SpuriousEnds(m: Machine)
    requires Good(m) && Enabled(m, AcknowledgeSpurious)
    ensures InPhase(Step(m, AcknowledgeSpurious), Crashed) && Step(m, AcknowledgeSpurious).pstate.irqMasked
  {
  }

  // ------------------------------------------------ the backup of ELR and SPSR

  /** Only the vector code runs: the interrupt at depth d has not been acknowledged. */
  ghost predicate Unacknowledged(m: Machine, events: seq<Event>, m': Machine)
    decreases |events|
  {
    && InPhase(m, Entered)
    && if events == [] then m' == m
       else Enabled(m, events[0]) && InsideArray(m, events[0]) && Unacknowledged(Step(m, events[0]), events[1..], m')
  }

  /** ELR and SPSR still hold what the interrupted code needs. */
  predicate Undisturbed(m: Machine)
    requires m.frames != []
  {
    m.elr == Top(m).before.pc && m.spsr == Top(m).before.pstate
  }

  /** Before the acknowledgement interrupts are masked, after a trap SPSR says so. */
  predicate BackupOk(m: Machine) {
    && m.frames != [] && m.pstate.irqMasked && !Top(m).before.pstate.irqMasked
    && (Undisturbed(m) || m.spsr.irqMasked)
  }

  lemma EarlyStep(m: Machine, e: Event)
    requires BackupOk(m) && InPhase(m, Entered) && Enabled(m, e) && InsideArray(m, e) && InPhase(Step(m, e), Entered)
    ensures var next := Step(m, e);
            && BackupOk(next) && Top(next).before == Top(m).before && |next.frames| == |m.frames|
            && (Undisturbed(next) <==> Undisturbed(m) && !e.FpTrap?)
  {
  }

  lemma {:induction false} TrapDisturbs(m: Machine, events: seq<Event>, m': Machine)
    requires Unacknowledged(m, events, m') && BackupOk(m)
    ensures BackupOk(m') && Top(m').before == Top(m).before && |m'.frames| == |m.frames|
    ensures Undisturbed(m') <==> Undisturbed(m) && FpTrap !in events
    decreases |events|
  {
    if events != [] {
      hide Step, Enabled, InsideArray, Undisturbed;
      var e, next := events[0], Step(m, events[0]);
      EarlyStep(m, e);
      TrapDisturbs(next, events[1..], m');
      assert events == [e] + events[1..];
    }
  }

  lemma StepKeepsLocals(m: Machine, e: Event, d: nat)
    requires Enabled(m, e) && InsideArray(m, e)
    requires |m.frames| > d && |Step(m, e).frames| > d && !m.frames[d].phase.Entered?
    ensures var f, g := m.frames[d], Step(m, e).frames[d];
            g.localElr == f.localElr && g.localSpsr == f.localSpsr && g.before == f.before && !g.phase.Entered?
  {
  }

  lemma {:induction false} LocalsKept(m: Machine, events: seq<Event>, m': Machine, d: nat)
    requires Reaches(m, events, m') && StaysAbove(m, events, d) && !m.frames[d].phase.Entered?
    ensures |m'.frames| > d
    ensures var f, g := m.frames[d], m'.frames[d];
            g.localElr == f.localElr && g.localSpsr == f.localSpsr && g.before == f.before
    decreases |events|
  {
    if events != [] {
      StepKeepsLocals(m, events[0], d);
      hide Step;
      LocalsKept(Step(m, events[0]), events[1..], m', d);
    }
  }

  /**
   The C++ handler keeps ELR and SPSR in locals. Whatever is nested inside the
   user handler, writing them back gives the interrupted values if and only if
   no floating-point instruction trapped between the interrupt and the backup.
   */
  lemma BackupExact(m: Machine, vector: nat, p: nat, early: seq<Event>, entered: Machine, q: nat, late: seq<Event>, last: Machine)
    requires Enabled(m, TakeIrq(vector, p))
    requires Unacknowledged(Step(m, TakeIrq(vector, p)), early, entered) && Enabled(entered, Acknowledge(q))
    requires Reaches(Step(entered, Acknowledge(q)), late, last)
    requires StaysAbove(Step(entered, Acknowledge(q)), late, |m.frames|)
    requires |last.frames| == |m.frames| + 1 && Enabled(last, Remask)
    ensures var after := Step(last, Remask);
            (after.elr == m.pc && after.spsr == m.pstate) <==> FpTrap !in early
  {
    var d := |m.frames|;
    var taken := Step(m, TakeIrq(vector, p));
    assert BackupOk(taken) && Undisturbed(taken) && Top(taken).before == Current(m);
    TrapDisturbs(taken, early, entered);
    var acknowledged := Step(entered, Acknowledge(q));
    assert |acknowledged.frames| == d + 1 && acknowledged.frames[d].before == Current(m);
    LocalsKept(acknowledged, late, last, d);
  }

  // ------------------------------------------- what happens without the restriction

  predicate StepsTo(m: Machine, e: Event, m': Machine) {
    Enabled(m, e) && InsideArray(m, e) && m' == Step(m, e)
  }

  /** A single handler that has not used floating point, and nobody before it. */
  predicate Lone(m: Machine, phase: Phase) {
    |m.frames| == 1 && m.frames[0].phase == phase && !m.status && !m.fpEnabled
  }

  /** The same after its trap: access enabled, nothing saved. */
  predicate LoneAfterTrap(m: Machine, phase: Phase) {
    |m.frames| == 1 && m.frames[0].phase == phase && m.fpEnabled && m.base == 0
  }

  /**
   At any depth of nesting: a handler that uses floating point for the first
   time and then finishes comes out right, its restore inside the array and its
   interrupted code unharmed, if and only if FPUStatus was set before.
   */
  lemma FirstUseExact(m: Machine) returns (trapped: Machine, masked: Machine, ended: Machine)
    requires Good(m) && InPhase(m, Handling) && Enabled(m, FpTrap)
    ensures StepsTo(m, FpTrap, trapped) && StepsTo(trapped, Remask, masked) && StepsTo(masked, EndInterrupt, ended)
    ensures Enabled(ended, Return)
    ensures (InsideArray(ended, Return) && Current(Step(ended, Return)) == Top(m).before) <==> m.status
  {
    hide Good;
    MainFirstIsExact(m);
    trapped := Step(m, FpTrap);
    assert InPhase(trapped, Handling);
    masked := Step(trapped, Remask);
    assert InPhase(masked, Remasked);
    ended := Step(masked, EndInterrupt);
    assert InPhase(ended, Ended) && Top(ended).before == Top(m).before;
    assert ended.fpEnabled && ended.base == trapped.base && ended.blocks == trapped.blocks;
    if m.status {
      hide Step, Top;
      StepKeepsGood(trapped, Remask);
      StepKeepsGood(masked, EndInterrupt);
      StepKeepsGood(ended, Return);
      LeaveRestores(ended);
    }
  }

  /** An interrupt, and floating point used before it is acknowledged. */
  lemma TrapsEarly(m: Machine, vector: nat, p: nat) returns (m1: Machine, m2: Machine)
    requires Good(m) && m.status && Enabled(m, TakeIrq(vector, p))
    ensures StepsTo(m, TakeIrq(vector, p), m1) && StepsTo(m1, FpTrap, m2)
    ensures Good(m2) && Enabled(m2, Acknowledge(p)) && Top(m2).before == Current(m) && m2.spsr.irqMasked
  {
    m1 := Step(m, TakeIrq(vector, p));
    StepKeepsGood(m, TakeIrq(vector, p));
    assert InPhase(m1, Entered) && m1.frames[..|m.frames|] == m.frames && Top(m1).before == Current(m) && m1.status;
    hide Good;
    StepKeepsGood(m1, FpTrap);
    m2 := Step(m1, FpTrap);
    assert m2.frames == m1.frames;
  }

  /** The rest of a handler that does nothing else. */
  lemma Finishes(m: Machine, p: nat) returns (m1: Machine, m2: Machine, m3: Machine, m4: Machine)
    requires Good(m) && Enabled(m, Acknowledge(p))
    ensures StepsTo(m, Acknowledge(p), m1) && StepsTo(m1, Unmask, m2) && StepsTo(m2, Remask, m3) && StepsTo(m3, EndInterrupt, m4)
    ensures m3.spsr == m.spsr && Good(m4) && Enabled(m4, Return) && Top(m4).before == Top(m).before
  {
    hide Good;
    m1 := Step(m, Acknowledge(p));
    StepKeepsGood(m, Acknowledge(p));
    m2 := Step(m1, Unmask);
    StepKeepsGood(m1, Unmask);
    m3 := Step(m2, Remask);
    StepKeepsGood(m2, Remask);
    m4 := Step(m3, EndInterrupt);
    StepKeepsGood(m3, EndInterrupt);
  }

  /**
   The backup of ELR and SPSR can be lost, and it does no harm: a handler whose
   first floating-point instruction comes before the acknowledgement writes
   SPSR back wrong, yet the interrupted code gets everything back.
   */
  lemma LostBackupIsHarmless(m: Machine, vector: nat, p: nat)
    returns (m1: Machine, m2: Machine, m3: Machine, m4: Machine, m5: Machine, m6: Machine)
    requires Good(m) && m.status && Enabled(m, TakeIrq(vector, p))
    ensures StepsTo(m, TakeIrq(vector, p), m1) && StepsTo(m1, FpTrap, m2) && StepsTo(m2, Acknowledge(p), m3)
    ensures StepsTo(m3, Unmask, m4) && StepsTo(m4, Remask, m5) && StepsTo(m5, EndInterrupt, m6)
    ensures m5.spsr != m.pstate
    ensures Enabled(m6, Return) && InsideArray(m6, Return) && Current(Step(m6, Return)) == Current(m)
  {
    assert !m.pstate.irqMasked;
    hide Good, StepsTo, Enabled, Step, InsideArray;
    m1, m2 := TrapsEarly(m, vector, p);
    m3, m4, m5, m6 := Finishes(m2, p);
    MainFirstOnReturn(m6);
    StepKeepsGood(m6, Return);
    LeaveRestores(m6);
  }

  lemma MainFirstOnReturn(m: Machine)
    ensures MainFirst(m, Return)
  {
  }

  lemma TakeFirst(m: Machine) returns (m': Machine)
    requires Initial(m) && !m.pstate.irqMasked
    ensures StepsTo(m, TakeIrq(0x280, MIN_PRIORITY), m') && Lone(m', Entered)
  {
    m' := Step(m, TakeIrq(0x280, MIN_PRIORITY));
  }

  lemma AcknowledgeFirst(m: Machine) returns (m': Machine)
    requires Lone(m, Entered)
    ensures StepsTo(m, Acknowledge(MIN_PRIORITY), m') && Lone(m', Acknowledged)
  {
    m' := Step(m, Acknowledge(MIN_PRIORITY));
  }

  lemma UnmaskFirst(m: Machine) returns (m': Machine)
    requires Lone(m, Acknowledged)
    ensures StepsTo(m, Unmask, m') && Lone(m', Handling)
  {
    m' := Step(m, Unmask);
  }

  lemma TrapFirst(m: Machine) returns (m': Machine)
    requires Lone(m, Handling)
    ensures StepsTo(m, FpTrap, m') && LoneAfterTrap(m', Handling)
  {
    m' := Step(m, FpTrap);
  }

  lemma FinishFirst(m: Machine) returns (m': Machine, m'': Machine)
    requires LoneAfterTrap(m, Handling)
    ensures StepsTo(m, Remask, m') && StepsTo(m', EndInterrupt, m'') && LoneAfterTrap(m'', Ended)
  {
    m' := Step(m, Remask);
    m'' := Step(m', EndInterrupt);
  }

  /**
   From every start state: a handler uses floating point before the main
   program ever has, and at its return the exit path is about to pop a block in
   front of the array, because none was pushed.
   */
  lemma EarlyUseUnderflows(m: Machine)
    returns (m1: Machine, m2: Machine, m3: Machine, m4: Machine, m5: Machine, m6: Machine)
    requires Initial(m) && !m.pstate.irqMasked
    ensures StepsTo(m, TakeIrq(0x280, MIN_PRIORITY), m1)
    ensures StepsTo(m1, Acknowledge(MIN_PRIORITY), m2)
    ensures StepsTo(m2, Unmask, m3)
    ensures StepsTo(m3, FpTrap, m4)
    ensures StepsTo(m4, Remask, m5)
    ensures StepsTo(m5, EndInterrupt, m6)
    ensures Enabled(m6, Return) && !InsideArray(m6, Return)
  {
    hide StepsTo;
    m1 := TakeFirst(m);
    m2 := AcknowledgeFirst(m1);
    m3 := UnmaskFirst(m2);
    m4 := TrapFirst(m3);
    m5, m6 := FinishFirst(m4);
  }
}
