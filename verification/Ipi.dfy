/**
 Inter-processor interrupts: how the manager's kill request finds its core. A
 sender writes a mask of receivers to the trigger register of its own channel;
 the hardware then sets the sender's bit in the status register of each
 receiver, and a receiver with a status bit it has enabled raises its interrupt.
 */
module Ipi {

  datatype Channel = Ch0 | Ch1 | Ch2 | Ch7 | Ch8 | Ch9 | Ch10

  // --------------------------------------------------------------- the hardware

  /** The bit of a channel in masks and status registers (APU_TRIG register, UG1087). */
  function Line(c: Channel): nat {
    match c
    case Ch0 => 0
    case Ch1 => 8
    case Ch2 => 9
    case Ch7 => 24
    case Ch8 => 25
    case Ch9 => 26
    case Ch10 => 27
  }

  /** The interrupt a channel is wired to (UG1085, System Interrupts). */
  function Wired(c: Channel): nat {
    match c
    case Ch0 => 67
    case Ch1 => 65
    case Ch2 => 66
    case Ch7 => 61
    case Ch8 => 62
    case Ch9 => 63
    case Ch10 => 64
  }

  function Pow2(n: nat): (r: nat)
    ensures r > 0
  {
    if n == 0 then 1 else 2 * Pow2(n - 1)
  }

  /** A 32-bit word has the bit of this channel set. */
  predicate HasLine(mask: nat, c: Channel) {
    mask / Pow2(Line(c)) % 2 == 1
  }

  /** Status and enable registers: which senders each channel has seen, and listens to. */
  datatype Regs = Regs(status: set<(Channel, Channel)>, enabled: set<(Channel, Channel)>)

  /** A write to the trigger register of `sender`. */
  function Trigger(r: Regs, sender: Channel, mask: nat): Regs {
    r.(status := r.status + set c: Channel | HasLine(mask, c) :: (c, sender))
  }

  /** A write to the status register of `receiver` clears, one to its enable register sets. */
  function ClearStatus(r: Regs, receiver: Channel, mask: nat): Regs {
    r.(status := r.status - set c: Channel | HasLine(mask, c) :: (receiver, c))
  }

  function EnableLines(r: Regs, receiver: Channel, mask: nat): Regs {
    r.(enabled := r.enabled + set c: Channel | HasLine(mask, c) :: (receiver, c))
  }

  /** The channel's interrupt line is asserted. */
  predicate Asserted(r: Regs, receiver: Channel) {
    exists sender: Channel :: (receiver, sender) in r.status && (receiver, sender) in r.enabled
  }

  // --------------------------------------------------------------- the software

  const MANAGER: Channel := Ch0

  function ChannelForCpu(cpu: nat): Channel
    requires 1 <= cpu <= 3
  {
    if cpu == 1 then Ch0 else if cpu == 2 then Ch7 else Ch8
  }

  function InterruptId(c: Channel): nat {
    match c
    case Ch0 => 67
    case Ch1 => 65
    case Ch2 => 66
    case Ch7 => 61
    case Ch8 => 62
    case Ch9 => 63
    case Ch10 => 64
  }

  function PeerMask(c: Channel): nat {
    match c
    case Ch0 => 0x0000_0001
    case Ch1 => 0x0000_0100
    case Ch2 => 0x0000_0200
    case Ch7 => 0x0100_0000
    case Ch8 => 0x0200_0000
    case Ch9 => 0x0400_0000
    case Ch10 => 0x0800_0000
  }

  /** sendIpiMessage, the message aside. */
  function SendKill(r: Regs, cpu: nat): Regs
    requires 1 <= cpu <= 3
  {
    Trigger(r, MANAGER, PeerMask(ChannelForCpu(cpu)))
  }

  /** enableIpiReception on the core's own channel. */
  function EnableReception(r: Regs, cpu: nat): Regs
    requires 1 <= cpu <= 3
  {
    var mine := ChannelForCpu(cpu);
    EnableLines(ClearStatus(r, mine, PeerMask(MANAGER)), mine, PeerMask(MANAGER))
  }

  /** The FIQ handler takes a request for a kill if the manager's bit is set in the status. */
  predicate IsKill(r: Regs, cpu: nat)
    requires 1 <= cpu <= 3
  {
    exists c: Channel :: (ChannelForCpu(cpu), c) in r.status && HasLine(PeerMask(MANAGER), c)
  }

  // ----------------------------------------------------------------- theorems

  lemma Powers()
    ensures Pow2(0) == 1 && Pow2(8) == 0x100 && Pow2(9) == 0x200
    ensures Pow2(24) == 0x100_0000 && Pow2(25) == 0x200_0000 && Pow2(26) == 0x400_0000 && Pow2(27) == 0x800_0000
  {
    assert Pow2(4) == 16;
    assert Pow2(8) == 256;
    assert Pow2(12) == 0x1000;
    assert Pow2(16) == 0x1_0000;
    assert Pow2(20) == 0x10_0000;
    assert Pow2(24) == 0x100_0000;
  }

  /** A peer mask addresses its own channel and no other. */
  lemma MaskAddressesOne(c: Channel, d: Channel)
    ensures HasLine(PeerMask(c), d) <==> c == d
  {
    Powers();
    hide Pow2;
  }

  /** Different cores have different channels and interrupts. */
  lemma CoresApart(cpu: nat, other: nat)
    requires 1 <= cpu <= 3 && 1 <= other <= 3
    ensures ChannelForCpu(cpu) == ChannelForCpu(other) <==> cpu == other
    ensures InterruptId(ChannelForCpu(cpu)) == InterruptId(ChannelForCpu(other)) <==> cpu == other
    ensures InterruptId(ChannelForCpu(1)) == 67 && InterruptId(ChannelForCpu(2)) == 61 && InterruptId(ChannelForCpu(3)) == 62
  {
  }

  /** The interrupt the monitor prepares on a core is the one the hardware raises for it. */
  lemma InterruptIsWired(c: Channel)
    ensures InterruptId(c) == Wired(c)
  {
  }

  /**
   A kill sent to a core that listens raises the interrupt of that core, is
   recognised there as one, and leaves every other core alone.
   */
  lemma KillFindsItsCore(r: Regs, cpu: nat, other: nat)
    requires 1 <= cpu <= 3 && 1 <= other <= 3
    ensures var sent := SendKill(EnableReception(r, cpu), cpu);
            && Asserted(sent, ChannelForCpu(cpu)) && IsKill(sent, cpu)
            && Wired(ChannelForCpu(cpu)) == InterruptId(ChannelForCpu(cpu))
            && (other != cpu ==>
                  && (Asserted(sent, ChannelForCpu(other)) <==> Asserted(r, ChannelForCpu(other)))
                  && (IsKill(sent, other) <==> IsKill(r, other)))
  {
    hide HasLine;
    forall c: Channel, d: Channel
      ensures HasLine(PeerMask(c), d) <==> c == d
    {
      MaskAddressesOne(c, d);
    }
    InterruptIsWired(ChannelForCpu(cpu));
    CoresApart(cpu, other);
    var mine, theirs := ChannelForCpu(cpu), ChannelForCpu(other);
    var ready := EnableReception(r, cpu);
    var sent := SendKill(ready, cpu);
    assert (mine, MANAGER) in sent.status && (mine, MANAGER) in sent.enabled;
    if other != cpu {
      forall c: Channel
        ensures (theirs, c) in sent.status <==> (theirs, c) in r.status
        ensures (theirs, c) in sent.enabled <==> (theirs, c) in r.enabled
      {
      }
    }
  }

  /** Setting up clears every request of the manager that came before, on this core only. */
  lemma SetupForgetsOldKills(r: Regs, cpu: nat, other: nat)
    requires 1 <= cpu <= 3 && 1 <= other <= 3
    ensures !IsKill(EnableReception(r, cpu), cpu)
    ensures other != cpu ==> (IsKill(EnableReception(r, cpu), other) <==> IsKill(r, other))
  {
    hide HasLine;
    forall c: Channel, d: Channel
      ensures HasLine(PeerMask(c), d) <==> c == d
    {
      MaskAddressesOne(c, d);
    }
    CoresApart(cpu, other);
  }
}
