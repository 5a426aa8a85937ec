/**
 The interrupt controller as one monitor sees it, and the bookkeeping that lets
 the monitor take back everything a payload has routed to itself.

 A register word is the set of its bits that are one. Writing to a set-register
 ORs the written word into the bank, writing to a clear-register removes it.
 */
module Gic {
  import Ipi
  import LazyFpu

  type Word = set<nat>

  const IDS: nat := 1020
  const GIC_MAX_USER_INTERRUPT_ID: nat := 187
  const CNTPNS_INTERRUPT_ID: nat := 30
  const MIN_PRIORITY: nat := 0x80
  const MAX_PRIORITY: nat := 0xF0
  const MONITOR_TOP_PRIORITY: nat := 0

  datatype Trigger = Unchanged | Edge

  /**
   The distributor registers (for ids below 32 the copies banked for this core),
   the non-secure active priorities, and interrupt_routed_to_el1.
   */
  datatype Regs = Regs(
    group: seq<Word>, enable: seq<Word>, pending: seq<Word>, active: seq<Word>,
    priority: seq<nat>, targets: seq<set<nat>>, config: seq<Word>,
    nsapr: nat, routed: seq<bool>)

  predicate WellFormed(r: Regs) {
    && |r.group| == 32 && |r.enable| == 32 && |r.pending| == 32 && |r.active| == 32
    && |r.priority| == IDS && |r.targets| == IDS && |r.config| == 64
    && |r.routed| == GIC_MAX_USER_INTERRUPT_ID + 1
  }

  // ----------------------------------------------------------- register banks

  predicate Bit(bank: seq<Word>, id: nat)
    requires |bank| == 32 && id < IDS
  {
    id % 32 in bank[id / 32]
  }

  /** The word with only the bit of this interrupt set. */
  function Mask(id: nat): Word {
    {id % 32}
  }

  function WriteOneToSet(bank: seq<Word>, index: nat, word: Word): (after: seq<Word>)
    requires |bank| == 32 && index < 32
    ensures |after| == 32
  {
    bank[index := bank[index] + word]
  }

  function WriteOneToClear(bank: seq<Word>, index: nat, word: Word): (after: seq<Word>)
    requires |bank| == 32 && index < 32
    ensures |after| == 32
  {
    bank[index := bank[index] - word]
  }

  /** Each bank operation changes the bit of its own interrupt and no other. */
  lemma BankFrame(bank: seq<Word>, id: nat, other: nat)
    requires |bank| == 32 && id < IDS && other < IDS
    ensures Bit(WriteOneToSet(bank, id / 32, Mask(id)), other) == (Bit(bank, other) || other == id)
    ensures Bit(WriteOneToClear(bank, id / 32, Mask(id)), other) == (Bit(bank, other) && other != id)
  {
  }

  // ------------------------------------------------------- controller routines

  function SetGroup(r: Regs, id: nat, group1: bool): Regs
    requires WellFormed(r) && id < IDS
  {
    var cleared := WriteOneToClear(r.group, id / 32, Mask(id));
    var grouped := r.(group := if group1 then WriteOneToSet(cleared, id / 32, Mask(id)) else cleared);
    if id <= GIC_MAX_USER_INTERRUPT_ID then grouped.(routed := r.routed[id := group1]) else grouped
  }

  function SetTriggerEdge(r: Regs, id: nat): Regs
    requires WellFormed(r) && id < IDS
  {
    r.(config := r.config[id / 16 := r.config[id / 16] + {id % 16 * 2 + 1}])
  }

  function ConfigurePrivate(r: Regs, id: nat, group1: bool, priority: nat): Regs
    requires WellFormed(r) && id < IDS
  {
    var grouped := SetGroup(r, id, group1);
    grouped.(priority := r.priority[id := priority])
  }

  function ConfigureShared(r: Regs, id: nat, trigger: Trigger, cpu: nat, group1: bool, priority: nat): Regs
    requires WellFormed(r) && id < IDS
  {
    var grouped := SetGroup(r, id, group1);
    var targeted := grouped.(priority := r.priority[id := priority], targets := r.targets[id := {cpu}]);
    if trigger.Edge? then SetTriggerEdge(targeted, id) else targeted
  }

  function Disable(r: Regs, id: nat): (after: Regs)
    requires WellFormed(r) && id < IDS
    ensures WellFormed(after)
  {
    r.(enable := WriteOneToClear(r.enable, id / 32, Mask(id)))
  }

  function Enable(r: Regs, id: nat): Regs
    requires WellFormed(r) && id < IDS
  {
    r.(pending := WriteOneToClear(r.pending, id / 32, Mask(id)),
       active := WriteOneToClear(r.active, id / 32, Mask(id)),
       enable := WriteOneToSet(r.enable, id / 32, Mask(id)))
  }

  /** The loop of teardownEl1Interrupts from interrupt `id` on. */
  function TeardownFrom(r: Regs, id: nat): (after: Regs)
    requires WellFormed(r) && id <= GIC_MAX_USER_INTERRUPT_ID + 1
    ensures WellFormed(after)
    decreases GIC_MAX_USER_INTERRUPT_ID + 1 - id
  {
    if id > GIC_MAX_USER_INTERRUPT_ID then r
    else TeardownFrom(TeardownOne(r, id), id + 1)
  }

  function TeardownOne(r: Regs, id: nat): (after: Regs)
    requires WellFormed(r) && id <= GIC_MAX_USER_INTERRUPT_ID
    ensures WellFormed(after)
  {
    if r.routed[id] then Disable(r, id).(routed := r.routed[id := false]) else r
  }

  function Teardown(r: Regs): (after: Regs)
    requires WellFormed(r)
    ensures WellFormed(after)
  {
    TeardownFrom(Disable(r, CNTPNS_INTERRUPT_ID).(nsapr := 0), 0)
  }

  /** The interrupt over which the manager reaches the monitor on a core. */
  function IpiInterrupt(cpu: nat): (id: nat)
    requires 1 <= cpu <= 3
    ensures 32 <= id <= GIC_MAX_USER_INTERRUPT_ID
  {
    Ipi.InterruptId(Ipi.ChannelForCpu(cpu))
  }

  /** setupInterrupts, as far as the distributor is concerned. */
  function Setup(r: Regs, cpu: nat): (after: Regs)
    requires WellFormed(r) && 1 <= cpu <= 3
    ensures WellFormed(after)
  {
    var ipi := IpiInterrupt(cpu);
    Enable(ConfigureShared(r, ipi, Unchanged, cpu, false, MONITOR_TOP_PRIORITY), ipi)
  }

  // ------------------------------------------------------- calls of a payload

  datatype Call =
    | ConfigureCall(id: int, priority: int)
    | EnableCall(id: int)
    | DisableCall(id: int)

  /** Requests the monitor ignores. */
  predicate Ignored(c: Call) {
    c.ConfigureCall? && (c.id < 16 || c.priority < MIN_PRIORITY || c.priority > MAX_PRIORITY)
  }

  /** The distributor has registers for this interrupt. */
  predicate Addressable(c: Call) {
    Ignored(c) || 0 <= c.id < IDS
  }

  function Serve(r: Regs, cpu: nat, c: Call): (after: Regs)
    requires WellFormed(r) && Addressable(c)
    ensures WellFormed(after)
  {
    match c
    case ConfigureCall(id, priority) =>
      if Ignored(c) then r
      else if id < 32 then ConfigurePrivate(r, id, true, priority)
      else ConfigureShared(r, id, Edge, cpu, true, priority)
    case EnableCall(id) => Enable(r, id)
    case DisableCall(id) => Disable(r, id)
  }

  // ----------------------------------------------------- what must be tracked

  predicate TargetsCore(r: Regs, cpu: nat, id: nat)
    requires WellFormed(r) && id < IDS
  {
    id < 32 || cpu in r.targets[id]
  }

  predicate EdgeTriggered(r: Regs, id: nat)
    requires WellFormed(r) && id < IDS
  {
    id % 16 * 2 + 1 in r.config[id / 16]
  }

  /** This interrupt would be delivered to this core as an IRQ. */
  predicate Deliverable(r: Regs, cpu: nat, id: nat)
    requires WellFormed(r) && id < IDS
  {
    Bit(r.enable, id) && Bit(r.group, id) && TargetsCore(r, cpu, id)
  }

  predicate Tracked(r: Regs, id: nat)
    requires WellFormed(r)
  {
    id <= GIC_MAX_USER_INTERRUPT_ID && r.routed[id]
  }

  /**
   Everything that can interrupt this core as an IRQ is on record, save for the
   timer, which teardown disables in any case.
   */
  predicate AllTracked(r: Regs, cpu: nat)
    requires WellFormed(r)
  {
    forall id :: 0 <= id < IDS && id != CNTPNS_INTERRUPT_ID && Deliverable(r, cpu, id) ==> Tracked(r, id)
  }

  /** No IRQ can reach this core at all. */
  predicate Silent(r: Regs, cpu: nat)
    requires WellFormed(r)
  {
    forall id :: 0 <= id < IDS ==> !Deliverable(r, cpu, id)
  }

  /** The upper four bits of this priority are a smaller number than those of any payload priority. */
  predicate AbovePayload(priority: nat) {
    forall p :: 0x80 <= p <= 0xF0 ==> priority / 16 < p / 16
  }

  /**
   The manager's kill request still arrives: as an FIQ, on this core, and
   whatever handler of the payload is active.
   */
  predicate KillArrives(r: Regs, cpu: nat)
    requires WellFormed(r) && 1 <= cpu <= 3
  {
    var ipi := IpiInterrupt(cpu);
    Bit(r.enable, ipi) && !Bit(r.group, ipi) && cpu in r.targets[ipi] && AbovePayload(r.priority[ipi])
  }

  /**
   What a payload must observe for the record to stay complete: it configures
   no interrupt beyond the user range that is already enabled, and enables only
   the timer and interrupts that are on record or cannot be delivered anyway.
   */
  predicate Observed(r: Regs, cpu: nat, c: Call)
    requires WellFormed(r) && Addressable(c)
  {
    match c
    case ConfigureCall(id, _) => Ignored(c) || id <= GIC_MAX_USER_INTERRUPT_ID || !Bit(r.enable, id)
    case EnableCall(id) => id == CNTPNS_INTERRUPT_ID || Tracked(r, id) || !Bit(r.group, id) || !TargetsCore(r, cpu, id)
    case DisableCall(_) => true
  }

  /** A call leaves every other interrupt exactly as it was. */
  lemma ServeFrame(r: Regs, cpu: nat, c: Call, other: nat)
    requires WellFormed(r) && Addressable(c) && other < IDS && other != c.id
    ensures Deliverable(Serve(r, cpu, c), cpu, other) == Deliverable(r, cpu, other)
    ensures Tracked(Serve(r, cpu, c), other) == Tracked(r, other)
    ensures Bit(Serve(r, cpu, c).enable, other) == Bit(r.enable, other)
    ensures Bit(Serve(r, cpu, c).group, other) == Bit(r.group, other)
    ensures Bit(Serve(r, cpu, c).pending, other) == Bit(r.pending, other)
    ensures Bit(Serve(r, cpu, c).active, other) == Bit(r.active, other)
    ensures Serve(r, cpu, c).targets[other] == r.targets[other]
    ensures Serve(r, cpu, c).priority[other] == r.priority[other]
    ensures EdgeTriggered(Serve(r, cpu, c), other) == EdgeTriggered(r, other)
  {
    if !Ignored(c) {
      BankFrame(r.group, c.id, other);
      BankFrame(r.enable, c.id, other);
      BankFrame(WriteOneToClear(r.group, c.id / 32, Mask(c.id)), c.id, other);
      BankFrame(r.pending, c.id, other);
      BankFrame(r.active, c.id, other);
    }
  }

  /** A request to configure is refused, and changes nothing, exactly for these numbers. */
  lemma RefusedExactly(r: Regs, cpu: nat, id: int, priority: int)
    requires WellFormed(r) && Addressable(ConfigureCall(id, priority))
    ensures Ignored(ConfigureCall(id, priority)) <==> id < 16 || priority < 0x80 || priority > 0xF0
    ensures Ignored(ConfigureCall(id, priority)) ==> Serve(r, cpu, ConfigureCall(id, priority)) == r
    ensures Addressable(EnableCall(id)) <==> 0 <= id < 1020
    ensures Addressable(DisableCall(id)) <==> 0 <= id < 1020
  {
  }

  /** What a call does to the interrupt it names. */
  lemma ServeEffect(r: Regs, cpu: nat, c: Call)
    requires WellFormed(r) && Addressable(c) && !Ignored(c)
    ensures var after := Serve(r, cpu, c);
            match c
            case ConfigureCall(id, priority) =>
              && Bit(after.group, id) && TargetsCore(after, cpu, id)
              && Bit(after.enable, id) == Bit(r.enable, id)
              && after.priority[id] == priority
              && (id >= 32 ==> EdgeTriggered(after, id) && after.targets[id] == {cpu})
              && after.pending == r.pending && after.active == r.active && after.nsapr == r.nsapr
              && (id <= 187 ==> after.routed[id])
            case EnableCall(id) =>
              && Bit(after.enable, id) && !Bit(after.pending, id) && !Bit(after.active, id)
              && Bit(after.group, id) == Bit(r.group, id) && after.routed == r.routed && after.targets == r.targets
            case DisableCall(id) =>
              !Bit(after.enable, id) && after == r.(enable := after.enable)
  {
    BankFrame(r.enable, c.id, c.id);
    BankFrame(WriteOneToClear(r.group, c.id / 32, Mask(c.id)), c.id, c.id);
    BankFrame(r.pending, c.id, c.id);
    BankFrame(r.active, c.id, c.id);
  }

  /** The record stays complete if and only if the payload observes that. */
  lemma ServeKeepsTrack(r: Regs, cpu: nat, c: Call)
    requires WellFormed(r) && AllTracked(r, cpu) && Addressable(c)
    ensures AllTracked(Serve(r, cpu, c), cpu) <==> Observed(r, cpu, c)
  {
    if !Ignored(c) {
      var after := Serve(r, cpu, c);
      var id: nat := c.id;
      ServeEffect(r, cpu, c);
      forall other: nat | other < IDS && other != id
        ensures other != CNTPNS_INTERRUPT_ID && Deliverable(after, cpu, other) ==> Tracked(after, other)
      {
        ServeFrame(r, cpu, c, other);
      }
      hide Serve, Bit;
      assert AllTracked(after, cpu) <==>
             (id != CNTPNS_INTERRUPT_ID && Deliverable(after, cpu, id) ==> Tracked(after, id));
      if id > GIC_MAX_USER_INTERRUPT_ID && !Bit(r.enable, id) {
        assert !Deliverable(r, cpu, id);
      }
    }
  }

  /** The kill path survives every call that does not name its interrupt. */
  lemma ServeKeepsKill(r: Regs, cpu: nat, c: Call)
    requires WellFormed(r) && 1 <= cpu <= 3 && KillArrives(r, cpu) && Addressable(c)
    ensures KillArrives(Serve(r, cpu, c), cpu) <==>
              Ignored(c) || c.EnableCall? || c.id != IpiInterrupt(cpu)
  {
    var ipi := IpiInterrupt(cpu);
    if c.id != ipi {
      ServeFrame(r, cpu, c, ipi);
    } else if !Ignored(c) {
      ServeEffect(r, cpu, c);
    }
  }

  // --------------------------------------------------------------- teardown

  /** What teardown does to each interrupt. */
  lemma {:induction false} TeardownFromEffect(r: Regs, from: nat, id: nat)
    requires WellFormed(r) && from <= GIC_MAX_USER_INTERRUPT_ID + 1 && id < IDS
    ensures var after := TeardownFrom(r, from);
            && after == r.(enable := after.enable, routed := after.routed)
            && Bit(after.enable, id) == (Bit(r.enable, id) && !(from <= id && Tracked(r, id)))
            && (id <= GIC_MAX_USER_INTERRUPT_ID ==> after.routed[id] == (r.routed[id] && id < from))
    decreases GIC_MAX_USER_INTERRUPT_ID + 1 - from
  {
    if from <= GIC_MAX_USER_INTERRUPT_ID {
      TeardownFromEffect(TeardownOne(r, from), from + 1, id);
      BankFrame(r.enable, from, id);
    }
  }

  lemma TeardownEffect(r: Regs, id: nat)
    requires WellFormed(r) && id < IDS
    ensures var after := Teardown(r);
            && after == r.(enable := after.enable, routed := after.routed, nsapr := 0)
            && Bit(after.enable, id) == (Bit(r.enable, id) && !(id <= 187 && r.routed[id]) && id != 30)
            && (id <= 187 ==> !after.routed[id])
  {
    hide Bit, TeardownFrom, WriteOneToClear;
    var first := Disable(r, CNTPNS_INTERRUPT_ID).(nsapr := 0);
    TeardownFromEffect(first, 0, id);
    BankFrame(r.enable, CNTPNS_INTERRUPT_ID, id);
  }

  /** Teardown silences the core if and only if the record is complete. */
  lemma TeardownSilences(r: Regs, cpu: nat)
    requires WellFormed(r)
    ensures Silent(Teardown(r), cpu) <==> AllTracked(r, cpu)
  {
    hide Teardown;
    forall id: nat | id < IDS
      ensures Deliverable(Teardown(r), cpu, id) <==>
              id != CNTPNS_INTERRUPT_ID && Deliverable(r, cpu, id) && !Tracked(r, id)
    {
      TeardownEffect(r, id);
    }
  }

  /**
   What a call means for a kill that comes right after it: the core falls silent
   if and only if the payload observes the restriction.
   */
  lemma ServeKeepsSilence(r: Regs, cpu: nat, c: Call)
    requires WellFormed(r) && Addressable(c) && Silent(Teardown(r), cpu)
    ensures Silent(Teardown(Serve(r, cpu, c)), cpu) <==> Observed(r, cpu, c)
  {
    hide Silent, Teardown, AllTracked, Serve, Observed;
    TeardownSilences(r, cpu);
    TeardownSilences(Serve(r, cpu, c), cpu);
    ServeKeepsTrack(r, cpu, c);
  }

  /** The next payload may enable the timer without configuring it: its group survives a kill. */
  lemma TimerSurvivesKill(r: Regs, cpu: nat, priority: nat)
    requires WellFormed(r) && 1 <= cpu <= 3 && MIN_PRIORITY <= priority <= MAX_PRIORITY
    ensures var killed := Setup(Teardown(Serve(r, cpu, ConfigureCall(CNTPNS_INTERRUPT_ID, priority))), cpu);
            Bit(killed.group, CNTPNS_INTERRUPT_ID) && !Tracked(killed, CNTPNS_INTERRUPT_ID)
            && Deliverable(Serve(killed, cpu, EnableCall(CNTPNS_INTERRUPT_ID)), cpu, CNTPNS_INTERRUPT_ID)
  {
    hide Bit, Teardown, Setup, Serve;
    var configured := Serve(r, cpu, ConfigureCall(CNTPNS_INTERRUPT_ID, priority));
    ServeEffect(r, cpu, ConfigureCall(CNTPNS_INTERRUPT_ID, priority));
    TeardownEffect(configured, CNTPNS_INTERRUPT_ID);
    ConfigureIpi(Teardown(configured), cpu, CNTPNS_INTERRUPT_ID);
    ServeEffect(Setup(Teardown(configured), cpu), cpu, EnableCall(CNTPNS_INTERRUPT_ID));
  }

  lemma ConfigureIpi(r: Regs, cpu: nat, id: nat)
    requires WellFormed(r) && 1 <= cpu <= 3 && id < IDS
    ensures var after := Setup(r, cpu);
            var ipi := IpiInterrupt(cpu);
            && Bit(after.enable, id) == (Bit(r.enable, id) || id == ipi)
            && Bit(after.group, id) == (Bit(r.group, id) && id != ipi)
            && after.targets == r.targets[ipi := {cpu}]
            && after.priority == r.priority[ipi := 0]
            && after.routed == r.routed[ipi := false]
  {
    var ipi := IpiInterrupt(cpu);
    BankFrame(r.enable, ipi, id);
    BankFrame(r.group, ipi, id);
  }

  /** Setting up the monitor keeps a silent core silent and opens the kill path. */
  lemma SetupKeepsSilence(r: Regs, cpu: nat)
    requires WellFormed(r) && 1 <= cpu <= 3 && Silent(r, cpu)
    ensures Silent(Setup(r, cpu), cpu) && KillArrives(Setup(r, cpu), cpu)
  {
    hide Bit, Setup, IpiInterrupt;
    forall id: nat | id < IDS
      ensures !Deliverable(Setup(r, cpu), cpu, id)
    {
      ConfigureIpi(r, cpu, id);
      assert !Deliverable(r, cpu, id);
    }
    ConfigureIpi(r, cpu, IpiInterrupt(cpu));
  }

  lemma SilentIsTracked(r: Regs, cpu: nat)
    requires WellFormed(r) && Silent(r, cpu)
    ensures AllTracked(r, cpu)
  {
  }

  /** The kill request preempts every handler a payload can have active. */
  lemma KillPreempts(r: Regs, cpu: nat, m: LazyFpu.Machine)
    requires WellFormed(r) && 1 <= cpu <= 3 && KillArrives(r, cpu) && LazyFpu.LevelsFall(m)
    ensures LazyFpu.Preempts(r.priority[IpiInterrupt(cpu)], m.frames)
  {
    assert 0x80 / 16 == 8;
    assert r.priority[IpiInterrupt(cpu)] / 16 < 8;
  }

  /**
   The interrupt that set-up enables is the one a kill sent to this core raises,
   and no other core's.
   */
  lemma KillRaisesPrepared(r: Regs, lines: Ipi.Regs, cpu: nat, other: nat)
    requires WellFormed(r) && 1 <= cpu <= 3 && 1 <= other <= 3
    ensures var sent := Ipi.SendKill(Ipi.EnableReception(lines, cpu), cpu);
            && Ipi.Asserted(sent, Ipi.ChannelForCpu(cpu)) && Ipi.IsKill(sent, cpu)
            && Bit(Setup(r, cpu).enable, Ipi.Wired(Ipi.ChannelForCpu(cpu)))
    ensures IpiInterrupt(cpu) == IpiInterrupt(other) <==> cpu == other
  {
    Ipi.KillFindsItsCore(lines, cpu, other);
    Ipi.CoresApart(cpu, other);
    hide Ipi.SendKill, Ipi.EnableReception, Ipi.Asserted, Ipi.IsKill, Setup, Bit;
    ConfigureIpi(r, cpu, IpiInterrupt(cpu));
  }

  // -------------------------------------------------------------------- runs

  /** A payload calls the monitor, or the manager kills it and the monitor restarts. */
  datatype Event = Payload(call: Call) | Kill

  predicate Permitted(r: Regs, cpu: nat, e: Event)
    requires WellFormed(r) && 1 <= cpu <= 3
  {
    e.Payload? ==> Addressable(e.call) && Observed(r, cpu, e.call) &&
                   (Ignored(e.call) || e.call.id != IpiInterrupt(cpu))
  }

  function After(r: Regs, cpu: nat, e: Event): (after: Regs)
    requires WellFormed(r) && 1 <= cpu <= 3 && Permitted(r, cpu, e)
    ensures WellFormed(after)
  {
    match e
    case Payload(c) => Serve(r, cpu, c)
    case Kill => Setup(Teardown(r), cpu)
  }

  ghost predicate Reaches(r: Regs, cpu: nat, events: seq<Event>, r': Regs)
    requires WellFormed(r) && 1 <= cpu <= 3
    decreases |events|
  {
    if events == [] then r' == r
    else Permitted(r, cpu, events[0]) && Reaches(After(r, cpu, events[0]), cpu, events[1..], r')
  }

  lemma EventKeepsTrack(r: Regs, cpu: nat, e: Event)
    requires WellFormed(r) && 1 <= cpu <= 3 && Permitted(r, cpu, e)
    requires AllTracked(r, cpu) && KillArrives(r, cpu)
    ensures AllTracked(After(r, cpu, e), cpu) && KillArrives(After(r, cpu, e), cpu)
    ensures e.Kill? ==> Silent(After(r, cpu, e), cpu)
  {
    hide AllTracked, KillArrives, Silent, Serve, Setup, Teardown;
    match e
    case Payload(c) =>
      ServeKeepsTrack(r, cpu, c);
      ServeKeepsKill(r, cpu, c);
    case Kill =>
      TeardownSilences(r, cpu);
      SetupKeepsSilence(Teardown(r), cpu);
      SilentIsTracked(After(r, cpu, e), cpu);
  }

  /**
   Over any number of payloads, whatever they configured, enabled and disabled,
   the kill path stays open, and once a kill has been processed no IRQ can
   reach the core until the next payload asks for one.
   */
  lemma {:induction false} RunSilentAfterKill(r: Regs, cpu: nat, events: seq<Event>, r': Regs)
    requires WellFormed(r) && 1 <= cpu <= 3
    requires AllTracked(r, cpu) && KillArrives(r, cpu)
    requires Reaches(r, cpu, events, r')
    ensures WellFormed(r') && AllTracked(r', cpu) && KillArrives(r', cpu)
    ensures events != [] && events[|events| - 1] == Kill ==> Silent(r', cpu)
    decreases |events|
  {
    if events != [] {
      hide AllTracked, KillArrives, Silent, After, Permitted;
      EventKeepsTrack(r, cpu, events[0]);
      RunSilentAfterKill(After(r, cpu, events[0]), cpu, events[1..], r');
    }
  }

  // ------------------------------------------------------- the code in place

  /** The monitor's view of the controller, changed register by register. */
  class InterruptController {
    var group: seq<Word>
    var enable: seq<Word>
    var pending: seq<Word>
    var active: seq<Word>
    var priority: seq<nat>
    var targets: seq<set<nat>>
    var config: seq<Word>
    var nsapr: nat
    var routed: seq<bool>

    ghost function View(): Regs
      reads this
    {
      Regs(group, enable, pending, active, priority, targets, config, nsapr, routed)
    }

    constructor (r: Regs)
      requires WellFormed(r)
      ensures View() == r
    {
      group, enable, pending, active := r.group, r.enable, r.pending, r.active;
      priority, targets, config, nsapr, routed := r.priority, r.targets, r.config, r.nsapr, r.routed;
    }

    method DisableInterrupt(id: nat)
      requires WellFormed(View()) && id < IDS
      modifies this
      ensures View() == Disable(old(View()), id)
    {
      enable := WriteOneToClear(enable, id / 32, Mask(id));
    }

    method EnableInterrupt(id: nat)
      requires WellFormed(View()) && id < IDS
      modifies this
      ensures View() == Enable(old(View()), id)
      ensures Bit(enable, id) && !Bit(pending, id) && !Bit(active, id)
    {
      pending := WriteOneToClear(pending, id / 32, Mask(id));
      active := WriteOneToClear(active, id / 32, Mask(id));
      enable := WriteOneToSet(enable, id / 32, Mask(id));
    }

    method SetGroupForInterruptChannel(id: nat, group1: bool)
      requires WellFormed(View()) && id < IDS
      modifies this
      ensures View() == SetGroup(old(View()), id, group1)
      ensures Bit(group, id) == group1
    {
      var word := group[id / 32] - Mask(id);
      group := group[id / 32 := if group1 then word + Mask(id) else word];
      if id <= GIC_MAX_USER_INTERRUPT_ID {
        routed := routed[id := group1];
      }
    }

    method ConfigurePrivatePeripheralInterrupt(id: nat, group1: bool, p: nat)
      requires WellFormed(View()) && id < IDS
      modifies this
      ensures View() == ConfigurePrivate(old(View()), id, group1, p)
      ensures Bit(group, id) == group1 && priority[id] == p && enable == old(enable)
    {
      SetGroupForInterruptChannel(id, group1);
      priority := priority[id := p];
    }

    method ConfigureSharedPeripheralInterrupt(id: nat, trigger: Trigger, cpu: nat, group1: bool, p: nat)
      requires WellFormed(View()) && id < IDS
      modifies this
      ensures View() == ConfigureShared(old(View()), id, trigger, cpu, group1, p)
      ensures Bit(group, id) == group1 && priority[id] == p && targets[id] == {cpu} && enable == old(enable)
    {
      SetGroupForInterruptChannel(id, group1);
      priority := priority[id := p];
      targets := targets[id := {cpu}];
      if trigger.Edge? {
        config := config[id / 16 := config[id / 16] + {id % 16 * 2 + 1}];
      }
    }

    /** The interrupt services of handleSmc. */
    method HandleSmc(cpu: nat, c: Call)
      requires WellFormed(View()) && Addressable(c)
      modifies this
      ensures View() == Serve(old(View()), cpu, c)
    {
      match c {
        case ConfigureCall(id, p) =>
          if p < MIN_PRIORITY || p > MAX_PRIORITY {
            return;
          }
          if id >= 16 && id < 32 {
            ConfigurePrivatePeripheralInterrupt(id, true, p);
          } else if id >= 32 {
            ConfigureSharedPeripheralInterrupt(id, Edge, cpu, true, p);
          }
        case EnableCall(id) =>
          EnableInterrupt(id);
        case DisableCall(id) =>
          DisableInterrupt(id);
      }
    }

    method TeardownChannel(id: nat)
      requires WellFormed(View()) && id <= GIC_MAX_USER_INTERRUPT_ID
      modifies this
      ensures View() == TeardownOne(old(View()), id)
    {
      if routed[id] {
        DisableInterrupt(id);
        routed := routed[id := false];
      }
    }

    method TeardownEl1Interrupts()
      requires WellFormed(View())
      modifies this
      ensures View() == Teardown(old(View()))
    {
      hide WriteOneToClear, TeardownOne;
      DisableInterrupt(CNTPNS_INTERRUPT_ID);
      nsapr := 0;
      var id := 0;
      while id <= GIC_MAX_USER_INTERRUPT_ID
        invariant 0 <= id <= GIC_MAX_USER_INTERRUPT_ID + 1
        invariant WellFormed(View())
        invariant TeardownFrom(View(), id) == Teardown(old(View()))
      {
        TeardownChannel(id);
        id := id + 1;
      }
    }

    method SetupInterrupts(cpu: nat)
      requires WellFormed(View()) && 1 <= cpu <= 3
      modifies this
      ensures View() == Setup(old(View()), cpu)
      ensures KillArrives(View(), cpu) && (old(Silent(View(), cpu)) ==> Silent(View(), cpu))
      ensures priority[IpiInterrupt(cpu)] == 0
    {
      ghost var before := View();
      if Silent(before, cpu) {
        SetupKeepsSilence(before, cpu);
      }
      ConfigureIpi(before, cpu, IpiInterrupt(cpu));
      hide Silent, Bit, IpiInterrupt;
      var ipi := IpiInterrupt(cpu);
      ConfigureSharedPeripheralInterrupt(ipi, Unchanged, cpu, false, MONITOR_TOP_PRIORITY);
      EnableInterrupt(ipi);
    }
  }
}
