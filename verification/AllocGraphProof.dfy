/** From blocks to whole functions: the end of a block, one block of a run, and every run
    of the allocated flow graph. */
module AllocGraphProof {
  import opened Options
  import opened Tac
  import opened Asm
  import opened Frame
  import opened Liveness
  import opened AllocSpec
  import opened AllocProof
  import opened AllocBlockProof

  /** Between blocks nothing is in a register: every live temporary is in its slot. */
  ghost predicate AtRest(s: State, m: Mach, live: set<Temp>, slots: map<Temp, int>) {
    && s.world == m.world && s.args == []
    && forall t :: t in live ==> t in slots && Val(m.frame, slots[t]) == Val(s.temps, t)
  }

  /** Arguments pushed and not yet consumed by a call after n instructions. */
  function PendingParms(tacs: seq<Tac>, n: nat): nat
    requires n <= |tacs|
  {
    if n == 0 then 0
    else match tacs[n - 1]
      case Parm(_) => PendingParms(tacs, n - 1) + 1
      case Call(_, _) => 0
      case _ => PendingParms(tacs, n - 1)
  }

  lemma {:induction false} RunPending(me: Meaning, tacs: seq<Tac>, n: nat, s: State)
    requires n <= |tacs| && s.args == []
    ensures |Run(me, tacs[..n], s).args| == PendingParms(tacs, n)
  {
    if n > 0 {
      RunPending(me, tacs, n - 1, s);
      assert tacs[..n] == tacs[..n - 1] + [tacs[n - 1]];
      RunSnoc(me, tacs[..n - 1], tacs[n - 1], s);
    }
  }

  lemma {:induction false} PrefixActual(c: Choices, st: St, tacs: seq<Tac>, end: set<Temp>, n: nat)
    requires Ok(st) && st.frame.actual == WORD && n <= |tacs|
    ensures AllocPrefix(c, st, tacs, end, n).st.frame.actual == ArgOffset(PendingParms(tacs, n))
  {
    hide AllocTac, LiveAt;
    if n > 0 {
      PrefixActual(c, st, tacs, end, n - 1);
      PrefixOk(c, st, tacs, end, n - 1);
      TacActual(c, AllocPrefix(c, st, tacs, end, n - 1).st, tacs, end, n - 1);
    }
  }

  lemma TacActual(c: Choices, st: St, tacs: seq<Tac>, end: set<Temp>, i: nat)
    requires Ok(st) && i < |tacs|
    ensures
      AllocTac(c, st, LiveAt(tacs, i, end), LiveAt(tacs, i + 1, end), tacs[i]).st.frame.actual
        == match tacs[i] case Parm(_) => st.frame.actual + WORD case Call(_, _) => WORD case _ => st.frame.actual
  {
    hide PlaceOperands;
    var live := LiveAt(tacs, i, end);
    PlaceOperandsOnward(c, st, live, tacs[i]);
    var p := PlaceOperands(c, st, live, tacs[i]).st;
    if tacs[i].Call? {
      FindSlotsOk(FinishActual(p.frame), Saved(p, c.order(LiveAt(tacs, i + 1, end)), tacs[i].ret));
    }
  }

  // ----- the end of a block -----

  /** The load of the tested value, when there is one, overwrites nothing that the saves
      after it still need. */
  ghost predicate EndSpared(st: St, b: Block, liveOut: set<Temp>, fin: Final) {
    NeedsEndLoad(st, b) ==> Spares(fin, EndTemp(b).value, st, liveOut)
  }

  /** The code after the last instruction: the load, then the saves. */
  function EndCode(p: Placed, a: Allocated, b: Block): seq<Asm> {
    EndLoad(p, a, b) + StoreAll(a.st.tempReg, a.saves)
  }

  function EndLoad(p: Placed, a: Allocated, b: Block): seq<Asm> {
    if NeedsEndLoad(p.st, b) then
      [SlotLoad(RegOf(a.st.tempReg, EndTemp(b).value), Val(a.st.frame.off, EndTemp(b).value))]
    else []
  }

  lemma EndGrows(c: Choices, p: Placed, b: Block, liveOut: set<Temp>)
    requires Ok(p.st)
    ensures
      var a := EndBlock(c, p, b, liveOut);
      var saved := Saved(p.st, c.order(liveOut), None);
      && Grown(p.st, a.st) && a.st.frame.actual == p.st.frame.actual
      && (forall t :: t in saved ==> t in a.st.frame.off)
      && a.saves == WithSlots(a.st.frame.off, saved)
      && (NeedsEndLoad(p.st, b) ==> EndTemp(b).value in a.st.frame.off)
      && a.st.regVar == p.st.regVar
      && a.st.tempReg == (if NeedsEndLoad(p.st, b) then p.st.tempReg[EndTemp(b).value := 0] else p.st.tempReg)
  {
    hide FindSlots, FrameOk, FindSlot;
    var saved := Saved(p.st, c.order(liveOut), None);
    FindSlotsOk(p.st.frame, saved);
    var f := FindSlots(p.st.frame, saved);
    var a := EndBlock(c, p, b, liveOut);
    if NeedsEndLoad(p.st, b) {
      FindSlotOk(f, EndTemp(b).value);
    }
    SameSlots(f.off, a.st.frame.off, saved);
    assert Ok(a.st);
  }

  /** What the load and the saves do, register by register and slot by slot. */
  lemma EndEffect(
    me: Meaning, c: Choices, p: Placed, b: Block, liveOut: set<Temp>, m: Mach, slots: map<Temp, int>)
    requires Ok(p.st) && Enumerates(c) && FinalSlots(EndBlock(c, p, b, liveOut).st, slots)
    ensures
      var a := EndBlock(c, p, b, liveOut);
      var m' := Exec(me, EndCode(p, a, b), m);
      && m'.world == m.world && m'.regs == AfterEndLoad(p, a, b, m)
      && forall t :: t in slots ==>
           Val(m'.frame, slots[t]) ==
           if t in liveOut && InReg(p.st, t) then Val(AfterEndLoad(p, a, b, m), RegOf(a.st.tempReg, t))
           else Val(m.frame, slots[t])
  {
    hide Exec, StoreAll, FrameOk, FindSlots, EndBlock, WithSlots;
    var a := EndBlock(c, p, b, liveOut);
    var fin, saved := a.st.tempReg, Saved(p.st, c.order(liveOut), None);
    EndGrows(c, p, b, liveOut);
    SameSlots(a.st.frame.off, slots, saved);
    var load := EndLoad(p, a, b);
    ExecConcat(me, load, StoreAll(fin, WithSlots(slots, saved)), m);
    if load == [] {
      ExecNil(me, m);
    } else {
      ExecOne(me, load[0], m);
    }
    StoreAllEffect(me, fin, saved, slots, Exec(me, load, m));
  }

  /** The registers after the load at the end of the block, if there is one. */
  function AfterEndLoad(p: Placed, a: Allocated, b: Block, m: Mach): map<nat, int> {
    if NeedsEndLoad(p.st, b) then
      var v := EndTemp(b).value;
      m.regs[RegOf(a.st.tempReg, v) := Val(m.frame, Val(a.st.frame.off, v))]
    else m.regs
  }

  lemma EndVarReg(c: Choices, p: Placed, b: Block, liveOut: set<Temp>)
    requires Ok(p.st) && EndTemp(b).Some?
    ensures
      var a := EndBlock(c, p, b, liveOut);
      a.varReg == RegOf(a.st.tempReg, EndTemp(b).value)
  {
  }

  /** The end of a block does its work: every live-out temporary is in its slot and the
      tested or returned value is in the register that the ending names. */
  ghost predicate EndKept(
    me: Meaning, c: Choices, p: Placed, b: Block, liveOut: set<Temp>, s: State, m: Mach, slots: map<Temp, int>)
  {
    var a := EndBlock(c, p, b, liveOut);
    var m' := Exec(me, EndCode(p, a, b), m);
    && AtRest(s, m', liveOut, slots)
    && (EndTemp(b).Some? ==> Val(m'.regs, a.varReg) == Val(s.temps, EndTemp(b).value))
  }

  lemma EndSimulates(
    me: Meaning, c: Choices, p: Placed, b: Block, liveOut: set<Temp>, s: State, m: Mach, slots: map<Temp, int>)
    requires Ok(p.st) && Enumerates(c) && EndSpared(p.st, b, liveOut, EndBlock(c, p, b, liveOut).st.tempReg)
    requires Match(s, m, p.st, EndBlock(c, p, b, liveOut).st.tempReg, EndLive(b, liveOut), slots) && s.args == []
    requires FinalSlots(EndBlock(c, p, b, liveOut).st, slots)
    ensures EndKept(me, c, p, b, liveOut, s, m, slots)
  {
    hide EndBlock, Exec, EndCode, FrameOk, Injective;
    var a := EndBlock(c, p, b, liveOut);
    var fin := a.st.tempReg;
    EndGrows(c, p, b, liveOut);
    EndEffect(me, c, p, b, liveOut, m, slots);
    if EndTemp(b).Some? {
      EndVarReg(c, p, b, liveOut);
      assert Holds(p.st, fin, m, EndTemp(b).value, Val(s.temps, EndTemp(b).value), slots);
    }
    var m' := Exec(me, EndCode(p, a, b), m);
    forall t | t in liveOut ensures t in slots && Val(m'.frame, slots[t]) == Val(s.temps, t) {
      assert Holds(p.st, fin, m, t, Val(s.temps, t), slots);
      if InReg(p.st, t) { assert t in Saved(p.st, c.order(liveOut), None); }
    }
  }

  lemma OkInjective(st: St)
    requires Ok(st)
    ensures Injective(st.frame.off)
  {
  }

  // ----- one block -----

  /** What a block must satisfy for its code to be right: every parameter is followed by
      its call, and no register is written, with every temporary in its last register,
      while another temporary still needs it. */
  ghost predicate Sound(c: Choices, st: St, b: Block, liveOut: set<Temp>)
    requires |st.regVar| > 0
  {
    PendingParms(b.tacs, |b.tacs|) == 0 && Undisturbed(c, st, b, liveOut)
  }

  ghost predicate Undisturbed(c: Choices, st: St, b: Block, liveOut: set<Temp>)
    requires |st.regVar| > 0
  {
    var end, fin := EndLive(b, liveOut), AllocBlock(c, st, b, liveOut).st.tempReg;
    && Spared(c, Clear(st), b.tacs, end, fin)
    && EndSpared(AllocPrefix(c, Clear(st), b.tacs, end, |b.tacs|).st, b, liveOut, fin)
  }

  lemma ClearOk(st: St)
    requires Ok(st)
    ensures Ok(Clear(st)) && Clear(st).frame == st.frame && forall t :: !InReg(Clear(st), t)
  {
  }

  lemma BlockGrows(c: Choices, st: St, b: Block, liveOut: set<Temp>)
    requires Ok(st) && st.frame.actual == WORD && PendingParms(b.tacs, |b.tacs|) == 0
    ensures Grown(st, AllocBlock(c, st, b, liveOut).st) && AllocBlock(c, st, b, liveOut).st.frame.actual == WORD
  {
    hide AllocPrefix, EndBlock;
    ClearOk(st);
    PrefixOk(c, Clear(st), b.tacs, EndLive(b, liveOut), |b.tacs|);
    PrefixActual(c, Clear(st), b.tacs, EndLive(b, liveOut), |b.tacs|);
    EndGrows(c, AllocPrefix(c, Clear(st), b.tacs, EndLive(b, liveOut), |b.tacs|), b, liveOut);
  }

  /** The code of a block: its instructions, then the ending. */
  lemma BlockCodeIs(c: Choices, p: Placed, b: Block, liveOut: set<Temp>)
    requires Ok(p.st)
    ensures
      var a := EndBlock(c, p, b, liveOut);
      BlockCode(a) == EmitAll(p.items, a.st.tempReg) + EndCode(p, a, b)
  {
    hide FindSlots, Saved, StoreAll, WithSlots, EmitAll;
    var a := EndBlock(c, p, b, liveOut);
    if NeedsEndLoad(p.st, b) {
      EndGrows(c, p, b, liveOut);
      var v := EndTemp(b).value;
      EmitSnoc(p.items, Reload(v, a.st.frame.off[v]), a.st.tempReg);
    }
  }

  /** Register allocation of a block preserves meaning: from a machine that holds the
      live-in temporaries in their slots, the emitted code has the same effect on the
      world as the block, leaves the live-out temporaries in their slots, and holds the
      value the ending consumes in the register the ending names. */
  lemma BlockSimulates(
    me: Meaning, c: Choices, st: St, b: Block, liveOut: set<Temp>, s: State, m: Mach, slots: map<Temp, int>)
    requires Ok(st) && st.frame.actual == WORD && Enumerates(c) && Sound(c, st, b, liveOut)
    requires AtRest(s, m, LiveAt(b.tacs, 0, EndLive(b, liveOut)), slots)
    requires FinalSlots(AllocBlock(c, st, b, liveOut).st, slots)
    ensures
      var a := AllocBlock(c, st, b, liveOut);
      var s', m' := Run(me, b.tacs, s), Exec(me, BlockCode(a), m);
      && AtRest(s', m', liveOut, slots)
      && (EndTemp(b).Some? ==> Val(m'.regs, a.varReg) == Val(s'.temps, EndTemp(b).value))
  {
    hide AllocPrefix, Spared, EndBlock, EndCode, BlockCode, Exec, Run, LiveAt, EmitAll, EndSpared, FrameOk;
    var n, end := |b.tacs|, EndLive(b, liveOut);
    ClearOk(st);
    var p := AllocPrefix(c, Clear(st), b.tacs, end, n);
    var a := AllocBlock(c, st, b, liveOut);
    var fin := a.st.tempReg;
    PrefixOk(c, Clear(st), b.tacs, end, n);
    EndGrows(c, p, b, liveOut);
    FinalTrans(p.st, a.st, slots);
    assert Match(s, m, Clear(st), fin, LiveAt(b.tacs, 0, end), slots);
    PrefixSimulates(me, c, Clear(st), b.tacs, end, fin, n, s, m, slots);
    assert b.tacs[..n] == b.tacs;
    RunPending(me, b.tacs, n, s);
    LiveAtEnd(b.tacs, end);
    var m1 := Exec(me, EmitAll(p.items, fin), m);
    EndSimulates(me, c, p, b, liveOut, Run(me, b.tacs, s), m1, slots);
    BlockCodeIs(c, p, b, liveOut);
    ExecConcat(me, EmitAll(p.items, fin), EndCode(p, a, b), m);
  }

  // ----- whole functions -----

  /** The allocator state before block n of a function. */
  function StateBefore(c: Choices, st: St, g: seq<Block>, liveOut: Sets, n: nat): (r: St)
    requires |st.regVar| > 0 && n <= |g| == |liveOut|
    ensures |r.regVar| == |st.regVar|
  {
    if n == 0 then st
    else AllocBlock(c, StateBefore(c, st, g, liveOut, n - 1), g[n - 1], liveOut[n - 1]).st
  }

  function AllocOf(c: Choices, st: St, g: seq<Block>, liveOut: Sets, i: nat): Allocated
    requires |st.regVar| > 0 && i < |g| == |liveOut|
  {
    AllocBlock(c, StateBefore(c, st, g, liveOut, i), g[i], liveOut[i])
  }

  /** All blocks of a function, allocated in order. */
  function AllocAll(c: Choices, st: St, g: seq<Block>, liveOut: Sets): (r: seq<Allocated>)
    requires |st.regVar| > 0 && |g| == |liveOut|
    ensures |r| == |g|
  {
    seq(|g|, i requires 0 <= i < |g| => AllocOf(c, st, g, liveOut, i))
  }

  /** The slots of the finished function. */
  function SlotsOf(c: Choices, st: St, g: seq<Block>, liveOut: Sets): map<Temp, int>
    requires |st.regVar| > 0 && |g| == |liveOut|
  {
    StateBefore(c, st, g, liveOut, |g|).frame.off
  }

  ghost predicate AllSound(c: Choices, st: St, g: seq<Block>, liveOut: Sets)
    requires |st.regVar| > 0 && |g| == |liveOut|
  {
    forall i :: 0 <= i < |g| ==> SoundAt(c, st, g, liveOut, i)
  }

  ghost predicate SoundAt(c: Choices, st: St, g: seq<Block>, liveOut: Sets, i: nat)
    requires |st.regVar| > 0 && i < |g| == |liveOut|
  {
    Sound(c, StateBefore(c, st, g, liveOut, i), g[i], liveOut[i])
  }

  ghost predicate Ready(st: St) {
    |st.regVar| > 0 && Ok(st) && st.frame.actual == WORD
  }

  lemma SoundGrows(c: Choices, st: St, b: Block, liveOut: set<Temp>)
    requires Ready(st) && Sound(c, st, b, liveOut)
    ensures Ready(AllocBlock(c, st, b, liveOut).st) && Extends(st.frame.off, AllocBlock(c, st, b, liveOut).st.frame.off)
  {
    hide AllocBlock, FrameOk, LiveAt, Undisturbed, AllocPrefix;
    BlockGrows(c, st, b, liveOut);
  }

  lemma ExtendsTrans(a: map<Temp, int>, b: map<Temp, int>, c: map<Temp, int>)
    requires Extends(a, b) && Extends(b, c)
    ensures Extends(a, c)
  {
  }

  lemma {:induction false} StatesGrow(c: Choices, st: St, g: seq<Block>, liveOut: Sets, i: nat, n: nat)
    requires Ready(st) && i <= n <= |g| == |liveOut| && AllSound(c, st, g, liveOut)
    ensures Ready(StateBefore(c, st, g, liveOut, n))
    ensures Extends(StateBefore(c, st, g, liveOut, i).frame.off, StateBefore(c, st, g, liveOut, n).frame.off)
    decreases n
  {
    hide AllocBlock, Sound, Ok;
    if n > 0 {
      hide Extends;
      var st1 := StateBefore(c, st, g, liveOut, n - 1);
      StatesGrow(c, st, g, liveOut, if i < n then i else 0, n - 1);
      assert SoundAt(c, st, g, liveOut, n - 1);
      SoundGrows(c, st1, g[n - 1], liveOut[n - 1]);
      if i < n {
        ExtendsTrans(
          StateBefore(c, st, g, liveOut, i).frame.off, st1.frame.off, StateBefore(c, st, g, liveOut, n).frame.off);
      } else {
        ExtendsRefl(StateBefore(c, st, g, liveOut, n).frame.off);
      }
    }
  }

  lemma ExtendsRefl(a: map<Temp, int>)
    ensures Extends(a, a)
  {
  }

  datatype MachOutcome = MAt(block: nat, mach: Mach) | MReturned(result: Option<int>, world: World)

  function MachStep(me: Meaning, b: Block, a: Allocated, m: Mach): MachOutcome {
    var m' := Exec(me, BlockCode(a), m);
    if b.endKind == ByReturn then
      MReturned(if b.endVar.Some? then Some(Val(m'.regs, a.varReg)) else None, m'.world)
    else MAt(Goto(b, Val(m'.regs, a.varReg)), m')
  }

  /** The machine after n blocks of the allocated function. */
  function MachRun(me: Meaning, g: seq<Block>, allocs: seq<Allocated>, n: nat, o: MachOutcome): (r: MachOutcome)
    requires WellFormedGraph(g) && |g| == |allocs|
    requires o.MAt? ==> o.block < |g|
    ensures r.MAt? ==> r.block < |g|
    decreases n
  {
    if n == 0 then o
    else
      var p := MachRun(me, g, allocs, n - 1, o);
      if p.MReturned? then p else MachStep(me, g[p.block], allocs[p.block], p.mach)
  }

  /** Same block, same world, live temporaries in their slots; or same result and world. */
  ghost predicate SameRun(o: Outcome, mo: MachOutcome, liveIn: Sets, slots: map<Temp, int>) {
    match o
    case Returned(v, w) => mo == MReturned(v, w)
    case At(b, s) => mo.MAt? && mo.block == b && b < |liveIn| && AtRest(s, mo.mach, liveIn[b], slots)
  }

  lemma BlockOutcome(
    me: Meaning, c: Choices, st: St, g: seq<Block>, liveIn: Sets, liveOut: Sets, i: nat, s: State, m: Mach)
    requires WellFormedGraph(g) && Solution(g, liveIn, liveOut) && i < |g|
    requires Ready(st) && Enumerates(c) && AllSound(c, st, g, liveOut)
    requires AtRest(s, m, liveIn[i], SlotsOf(c, st, g, liveOut))
    ensures
      SameRun(
        BlockStep(me, g[i], s), MachStep(me, g[i], AllocOf(c, st, g, liveOut, i), m), liveIn,
        SlotsOf(c, st, g, liveOut))
  {
    hide AllocBlock, Exec, BlockCode, Run, StateBefore, LiveAt, BlockDefUse, Ok, AtRest, Sound, MachStep, BlockStep,
      SameRun;
    var slots := SlotsOf(c, st, g, liveOut);
    var st1 := StateBefore(c, st, g, liveOut, i);
    StatesGrow(c, st, g, liveOut, i, i);
    StatesGrow(c, st, g, liveOut, i + 1, |g|);
    StateAfter(c, st, g, liveOut, i);
    OkInjective(StateBefore(c, st, g, liveOut, |g|));
    assert SoundAt(c, st, g, liveOut, i);
    SolutionClosed(g, liveIn, liveOut);
    assert Closed(g, liveIn, liveOut, i);
    BlockSimulates(me, c, st1, g[i], liveOut[i], s, m, slots);
    OutcomeFrom(me, g[i], AllocOf(c, st, g, liveOut, i), s, m, liveIn, liveOut[i], slots);
  }

  lemma OutcomeFrom(
    me: Meaning, b: Block, a: Allocated, s: State, m: Mach, liveIn: Sets, out: set<Temp>, slots: map<Temp, int>)
    requires b.next0 < |liveIn| && b.next1 < |liveIn|
    requires liveIn[b.next0] <= out && liveIn[b.next1] <= out
    requires b.endKind == ByBeqz || b.endKind == ByBnez ==> b.endVar.Some?
    requires
      var s', m' := Run(me, b.tacs, s), Exec(me, BlockCode(a), m);
      && AtRest(s', m', out, slots)
      && (EndTemp(b).Some? ==> Val(m'.regs, a.varReg) == Val(s'.temps, EndTemp(b).value))
    ensures SameRun(BlockStep(me, b, s), MachStep(me, b, a, m), liveIn, slots)
  {
    hide Exec, Run, BlockCode;
  }

  lemma StateAfter(c: Choices, st: St, g: seq<Block>, liveOut: Sets, i: nat)
    requires |st.regVar| > 0 && i < |g| == |liveOut|
    ensures StateBefore(c, st, g, liveOut, i + 1) == AllocOf(c, st, g, liveOut, i).st
  {
    hide AllocBlock;
  }

  /** The back end preserves meaning over whole runs: for every function whose blocks
      are sound, every meaning of the operators and callees and every run length, the
      emitted code visits the same blocks, makes the same calls and stores and returns
      the same value as the three-address code. */
  lemma {:induction false} GraphSimulates(
    me: Meaning, c: Choices, st: St, g: seq<Block>, liveIn: Sets, liveOut: Sets, b: nat, s: State, m: Mach, n: nat)
    requires WellFormedGraph(g) && Solution(g, liveIn, liveOut) && b < |g|
    requires Ready(st) && Enumerates(c) && AllSound(c, st, g, liveOut)
    requires AtRest(s, m, liveIn[b], SlotsOf(c, st, g, liveOut))
    ensures
      SameRun(
        RunGraph(me, g, n, At(b, s)), MachRun(me, g, AllocAll(c, st, g, liveOut), n, MAt(b, m)), liveIn,
        SlotsOf(c, st, g, liveOut))
  {
    hide BlockStep, MachStep, AllocOf, StateBefore, AtRest, Sound, Ok;
    if n > 0 {
      GraphSimulates(me, c, st, g, liveIn, liveOut, b, s, m, n - 1);
      var o := RunGraph(me, g, n - 1, At(b, s));
      var mo := MachRun(me, g, AllocAll(c, st, g, liveOut), n - 1, MAt(b, m));
      if o.At? {
        BlockOutcome(me, c, st, g, liveIn, liveOut, o.block, o.state, mo.mach);
      }
    }
  }
}
