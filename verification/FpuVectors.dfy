/**
 The exception vectors of the payload as they change the machine: registers
 pushed and popped, the context pointer moved, access bits set and cleared.
 Each routine is proved to perform one step of the model in LazyFpu.
 */
module FpuVectors {
  import opened LazyFpu

  // The context array counted in units of 16 bytes: 32 registers and one pair
  // of control registers make a block of 528 bytes.
  const UNITS_PER_BLOCK: nat := 33
  const UNITS: nat := 264

  /** A saved block as it lies in memory. */
  function Image(fp: FpState): seq<Quad> {
    fp.q + [Quad(fp.fpcr, fp.fpsr)]
  }

  function FromImage(units: seq<Quad>): FpState
    requires |units| == UNITS_PER_BLOCK
  {
    FpState(units[..32], units[32].lo, units[32].hi)
  }

  /** A block takes 528 bytes, and eight blocks fill the 4224 bytes of the array. */
  lemma ImageRoundTrip(fp: FpState)
    ensures FromImage(Image(fp)) == fp
    ensures |Image(fp)| * 16 == 528 && UNITS * 16 == 4224 == BLOCKS * 528
  {
    assert Image(fp)[..32] == fp.q;
  }

  function BlockAt(units: seq<Quad>, k: nat): FpState
    requires |units| == UNITS && k < BLOCKS
  {
    FromImage(units[UNITS_PER_BLOCK * k..UNITS_PER_BLOCK * k + UNITS_PER_BLOCK])
  }

  /** The context array read as eight blocks. */
  function Blocks(units: seq<Quad>): seq<FpState>
    requires |units| == UNITS
  {
    seq(BLOCKS, k requires 0 <= k < BLOCKS => BlockAt(units, k))
  }

  lemma SameBelow(a: seq<Quad>, b: seq<Quad>, lo: nat, hi: nat, cut: nat)
    requires |a| == |b| && lo <= hi <= cut <= |a| && a[..cut] == b[..cut]
    ensures a[lo..hi] == b[lo..hi]
  {
    forall i | lo <= i < hi
      ensures a[i] == b[i]
    {
      assert a[..cut][i] == b[..cut][i];
    }
  }

  lemma SameAbove(a: seq<Quad>, b: seq<Quad>, lo: nat, hi: nat, cut: nat)
    requires |a| == |b| && cut <= lo <= hi <= |a| && a[cut..] == b[cut..]
    ensures a[lo..hi] == b[lo..hi]
  {
    forall i | lo <= i < hi
      ensures a[i] == b[i]
    {
      assert a[cut..][i - cut] == b[cut..][i - cut];
    }
  }

  lemma OtherBlock(before: seq<Quad>, after: seq<Quad>, k: nat, j: nat)
    requires |before| == |after| == UNITS && k < BLOCKS && j < BLOCKS && j != k
    requires after[..UNITS_PER_BLOCK * k] == before[..UNITS_PER_BLOCK * k]
    requires after[UNITS_PER_BLOCK * k + UNITS_PER_BLOCK..] == before[UNITS_PER_BLOCK * k + UNITS_PER_BLOCK..]
    ensures BlockAt(after, j) == BlockAt(before, j)
  {
    var lo, hi := UNITS_PER_BLOCK * j, UNITS_PER_BLOCK * j + UNITS_PER_BLOCK;
    if j < k {
      SameBelow(after, before, lo, hi, UNITS_PER_BLOCK * k);
    } else {
      SameAbove(after, before, lo, hi, UNITS_PER_BLOCK * k + UNITS_PER_BLOCK);
    }
  }

  /** Writing one block's bytes changes that block only. */
  lemma BlockWritten(before: seq<Quad>, after: seq<Quad>, k: nat, fp: FpState)
    requires |before| == |after| == UNITS && k < BLOCKS
    requires after[UNITS_PER_BLOCK * k..UNITS_PER_BLOCK * k + UNITS_PER_BLOCK] == Image(fp)
    requires after[..UNITS_PER_BLOCK * k] == before[..UNITS_PER_BLOCK * k]
    requires after[UNITS_PER_BLOCK * k + UNITS_PER_BLOCK..] == before[UNITS_PER_BLOCK * k + UNITS_PER_BLOCK..]
    ensures Blocks(after) == Blocks(before)[k := fp]
  {
    ImageRoundTrip(fp);
    hide BlockAt;
    assert BlockAt(after, k) == fp by {
      BlockAtIsImage(after, k, fp);
    }
    forall j | 0 <= j < BLOCKS && j != k
      ensures BlockAt(after, j) == BlockAt(before, j)
    {
      OtherBlock(before, after, k, j);
    }
  }

  lemma BlockAtIsImage(units: seq<Quad>, k: nat, fp: FpState)
    requires |units| == UNITS && k < BLOCKS
    requires units[UNITS_PER_BLOCK * k..UNITS_PER_BLOCK * k + UNITS_PER_BLOCK] == Image(fp)
    ensures BlockAt(units, k) == fp
  {
    ImageRoundTrip(fp);
  }

  class El1Core {
    var pc: nat
    var pstate: Pstate
    var elr: nat
    var spsr: Pstate
    var fpEnabled: bool
    var fp: FpState
    var fpuStatus: bool
    var contextBase: nat        // FPUContextBase as an index of units
    const context: array<Quad>  // FPUContext
    var frames: seq<Frame>      // the interrupt stack, innermost last

    ghost predicate Valid()
      reads this
    {
      context.Length == UNITS && contextBase % UNITS_PER_BLOCK == 0
    }

    ghost function View(): Machine
      requires Valid()
      reads this, context
    {
      Machine(pc, pstate, elr, spsr, fpEnabled, fp, fpuStatus, contextBase / UNITS_PER_BLOCK,
              Blocks(context[..]), frames)
    }

    /** The state in which the boot code hands over to the payload. */
    constructor (entry: nat, p: Pstate, registers: FpState)
      ensures Valid() && Initial(View())
    {
      pc, pstate, elr, spsr := entry, p, 0, p;
      fpEnabled, fp, fpuStatus, contextBase := false, registers, false, 0;
      context := new Quad[UNITS](i => Quad(0, 0));
      frames := [];
    }

    /** The macro savefloatregister: sixteen pairs of registers, then FPCR and FPSR. */
    method SaveFloatRegisters()
      requires context.Length == UNITS && contextBase + UNITS_PER_BLOCK <= UNITS
      modifies this`contextBase, context
      ensures contextBase == old(contextBase) + UNITS_PER_BLOCK
      ensures context[old(contextBase)..contextBase] == Image(fp)
      ensures context[..old(contextBase)] == old(context[..contextBase])
      ensures context[contextBase..] == old(context[contextBase + UNITS_PER_BLOCK..])
    {
      var x0 := contextBase;
      ghost var start := contextBase;
      ghost var was := context[..];
      for i := 0 to 16
        invariant x0 == start + 2 * i
        invariant context[start..x0] == fp.q[..2 * i]
        invariant context[..start] == was[..start]
        invariant context[start + UNITS_PER_BLOCK..] == was[start + UNITS_PER_BLOCK..]
      {
        ghost var done := context[start..x0];
        context[x0], context[x0 + 1] := fp.q[2 * i], fp.q[2 * i + 1];
        assert context[start..x0 + 2] == done + [fp.q[2 * i], fp.q[2 * i + 1]];
        assert fp.q[..2 * i + 2] == fp.q[..2 * i] + [fp.q[2 * i], fp.q[2 * i + 1]];
        x0 := x0 + 2;
      }
      assert fp.q[..32] == fp.q;
      ghost var saved := context[start..x0];
      context[x0] := Quad(fp.fpcr, fp.fpsr);
      x0 := x0 + 1;
      assert context[start..x0] == saved + [Quad(fp.fpcr, fp.fpsr)];
      contextBase := x0;
    }

    /** The macro restorefloatregister: the same block, last pair first. */
    method RestoreFloatRegisters()
      requires context.Length == UNITS && UNITS_PER_BLOCK <= contextBase <= UNITS
      modifies this`contextBase, this`fp
      ensures contextBase == old(contextBase) - UNITS_PER_BLOCK
      ensures fp == FromImage(context[contextBase..old(contextBase)])
    {
      ghost var start := contextBase - UNITS_PER_BLOCK;
      ghost var block := context[start..contextBase];
      var x0 := contextBase - 1;
      var fpcr, fpsr := context[x0].lo, context[x0].hi;
      var q: Registers := fp.q;
      var i := 16;
      while i > 0
        invariant 0 <= i <= 16 && x0 == start + 2 * i
        invariant forall j :: 2 * i <= j < 32 ==> q[j] == block[j]
      {
        x0 := x0 - 2;
        i := i - 1;
        q := q[2 * i := context[x0]][2 * i + 1 := context[x0 + 1]];
      }
      assert q == block[..32];
      fp := FpState(q, fpcr, fpsr);
      contextBase := x0;
    }

    /** The same in terms of whole blocks. */
    method RestoreTopBlock()
      requires Valid() && UNITS_PER_BLOCK <= contextBase <= UNITS
      modifies this`contextBase, this`fp
      ensures Valid() && contextBase / UNITS_PER_BLOCK == old(contextBase) / UNITS_PER_BLOCK - 1
      ensures contextBase < UNITS && fp == Blocks(context[..])[contextBase / UNITS_PER_BLOCK]
    {
      hide FromImage;
      ghost var k := contextBase / UNITS_PER_BLOCK - 1;
      assert UNITS_PER_BLOCK * k + UNITS_PER_BLOCK == contextBase;
      RestoreFloatRegisters();
      assert fp == BlockAt(context[..], k);
    }

    /** SynchronousInterruptHandler for a trapped floating-point instruction. */
    method OnFpTrap()
      requires Valid() && Good(View()) && Enabled(View(), FpTrap)
      modifies this, context
      ensures Valid()
      ensures old(InsideArray(View(), FpTrap)) && View() == old(Step(View(), FpTrap))
    {
      if fpuStatus {
        GoodInsideArray(View(), FpTrap);
      }
      hide Good, Enabled, Image;
      elr, spsr := pc, pstate;          // taking the exception
      fpEnabled := true;
      if fpuStatus {
        ghost var k := contextBase / UNITS_PER_BLOCK;
        ghost var was := context[..];
        SaveFloatRegisters();
        BlockWritten(was, context[..], k, fp);
      } else {
        fpuStatus := true;
        contextBase := 0;
      }
      pc, pstate := elr, spsr;          // eret: the instruction runs again
    }

    /** IRQInterruptHandler up to the branch to the C++ handler. */
    method OnIrqEntry(vector: nat, priority: nat)
      requires Valid() && Enabled(View(), TakeIrq(vector, priority))
      modifies this
      ensures Valid() && View() == old(Step(View(), TakeIrq(vector, priority)))
    {
      var interrupted := Context(pc, pstate, fp, fpEnabled);  // history
      elr, spsr := pc, pstate;          // taking the exception
      pc, pstate := vector, pstate.(irqMasked := true);
      frames := frames + [Frame(fpEnabled, elr, spsr, 0, spsr, Level(priority), Entered, interrupted)];
      fpEnabled := false;
    }

    /** IRQInterrupt up to the user handler. */
    method BeforeUserHandler(priority: nat)
      requires Valid() && Enabled(View(), Acknowledge(priority))
      modifies this
      ensures Valid()
      ensures var acknowledged := old(Step(View(), Acknowledge(priority)));
              Enabled(acknowledged, Unmask) && View() == Step(acknowledged, Unmask)
    {
      var top := frames[|frames| - 1];
      hide Blocks;
      var kept := top.(phase := Acknowledged, localSpsr := spsr, localElr := elr, level := Level(priority));
      frames := frames[|frames| - 1 := kept];
      pstate := pstate.(irqMasked := false);
      frames := frames[|frames| - 1 := kept.(phase := Handling)];
    }

    /** IRQInterrupt after the user handler. */
    method AfterUserHandler()
      requires Valid() && Enabled(View(), Remask)
      modifies this
      ensures Valid()
      ensures var remasked := old(Step(View(), Remask));
              Enabled(remasked, EndInterrupt) && View() == Step(remasked, EndInterrupt)
    {
      var top := frames[|frames| - 1];
      hide Blocks;
      pstate := pstate.(irqMasked := true);
      spsr, elr := top.localSpsr, top.localElr;
      frames := frames[|frames| - 1 := top.(phase := Remasked)];
      frames := frames[|frames| - 1 := top.(phase := Ended)];
    }

    /** IRQInterruptHandler after the C++ handler has returned. */
    method OnIrqExit()
      requires Valid() && Good(View()) && Enabled(View(), Return)
      modifies this
      ensures Valid()
      ensures old(InsideArray(View(), Return)) && View() == old(Step(View(), Return))
    {
      GoodInsideArray(View(), Return);
      assert frames != [] && Step(View(), Return) == Leave(View());
      hide Good, Enabled, Blocks, Step;
      if fpEnabled {
        RestoreTopBlock();
      }
      var top := frames[|frames| - 1];
      fpEnabled, elr, spsr := top.savedFpEnabled, top.savedElr, top.savedSpsr;
      frames := frames[..|frames| - 1];
      pc, pstate := elr, spsr;          // eret
    }
  }
}
