/** The condition of the simulation is exact: wherever a register is written that another
    temporary still needs, some store and machine that agree before the write do not agree
    after it. */
module AllocExact {
  import opened Options
  import opened Tac
  import opened Asm
  import opened Frame
  import opened Liveness
  import opened AllocSpec
  import opened AllocProof
  import opened AllocBlockProof
  import opened AllocGraphProof

  /** The frame's argument offset stands for a number of pending arguments. */
  ghost predicate Counted(f: Frame) {
    exists k: nat :: f.actual == ArgOffset(k)
  }

  lemma ZeroArgs(f: Frame) returns (args: seq<int>)
    requires Counted(f)
    ensures f.actual == ArgOffset(|args|) && AreaArgs(map[], |args|) == args
    ensures f.actual == WORD ==> args == []
  {
    var k: nat :| f.actual == ArgOffset(k);
    args := AreaArgs(map[], k);
  }

  /** Slots for everything live, on top of those of q. */
  lemma MoreSlots(c: Choices, q: St, live: set<Temp>) returns (slots: map<Temp, int>)
    requires Ok(q) && Enumerates(c)
    ensures FinalSlots(q, slots) && forall t :: t in live ==> t in slots
  {
    FindSlotsOk(q.frame, c.order(live));
    slots := FindSlots(q.frame, c.order(live)).off;
  }

  // ----- loading an operand -----

  /** Live temporaries are where they belong and the operands placed so far are in their
      registers. */
  ghost predicate InPlace(
    s: State, m: Mach, st: St, fin: Final, live: set<Temp>, placed: seq<Temp>, slots: map<Temp, int>)
  {
    Match(s, m, st, fin, live, slots) && RegVals(m.regs, RegsOf(fin, placed)) == TempVals(s.temps, placed)
  }

  ghost predicate LoadRight(
    me: Meaning, c: Choices, st: St, live: set<Temp>, placed: seq<Temp>, t: Temp, fin: Final,
    s: State, m: Mach, slots: map<Temp, int>)
    requires |st.regVar| > 0
  {
    var q := FindReg(c, st, live, t, true);
    InPlace(s, Exec(me, EmitAll(q.items, fin), m), q.st, fin, live, placed + [t], slots)
  }

  /** Placing t after `placed` is right for all stores and machines that agree. */
  ghost predicate LoadKept(c: Choices, st: St, live: set<Temp>, placed: seq<Temp>, t: Temp, fin: Final)
    requires |st.regVar| > 0
  {
    forall me: Meaning, s: State, m: Mach, slots: map<Temp, int> ::
      InPlace(s, m, st, fin, live, placed, slots) && FinalSlots(FindReg(c, st, live, t, true).st, slots) ==>
        LoadRight(me, c, st, live, placed, t, fin, s, m, slots)
  }

  /** What a load does to the registers, whatever they hold. */
  lemma LoadRegs(me: Meaning, c: Choices, st: St, live: set<Temp>, t: Temp, fin: Final, m: Mach)
    requires Ok(st) && !InReg(st, t)
    ensures
      var q := FindReg(c, st, live, t, true);
      && t in q.st.frame.off
      && Exec(me, EmitAll(q.items, fin), m).regs == m.regs[RegOf(fin, t) := Val(m.frame, q.st.frame.off[t])]
  {
    hide Exec, EmitAll, FrameOk;
    var free := FirstFree(st, live, 0);
    if free < |st.regVar| {
      PlaceRegs(me, st, free, t, [], fin, live, m);
    } else {
      var fixed := FirstFixed(st, 0);
      if fixed < |st.regVar| {
        var v := st.regVar[fixed].value;
        PlaceRegs(me, st, fixed, t, [Spill(v, st.frame.off[v])], fin, live, m);
      } else {
        var r := c.random(st.drawn) % |st.regVar|;
        assert !Free(st, live, r);
        var v := st.regVar[r].value;
        FindSlotOk(st.frame, v);
        var st' := st.(frame := FindSlot(st.frame, v), drawn := st.drawn + 1);
        PlaceRegs(me, st', r, t, [Spill(v, st'.frame.off[v])], fin, live, m);
      }
    }
  }

  lemma PlaceRegs(
    me: Meaning, st: St, r: nat, t: Temp, spills: seq<Item>, fin: Final, live: set<Temp>, m: Mach)
    requires Ok(st) && r < |st.regVar| && !InReg(st, t) && Taken(st, live, r, spills)
    ensures
      var p := Place(st, r, t, true, spills);
      && t in p.st.frame.off
      && Exec(me, EmitAll(p.items, fin), m).regs == m.regs[RegOf(fin, t) := Val(m.frame, p.st.frame.off[t])]
  {
    hide Exec, EmitAll;
    PlaceCode(me, st, r, t, true, spills, fin, live, m);
    PlaceBinds(st, r, t, true, spills);
    var off := Place(st, r, t, true, spills).st.frame.off;
    OkInjective(Place(st, r, t, true, spills).st);
    if spills != [] {
      var v := st.regVar[r].value;
      assert v != t && off[v] == spills[0].off;
    }
  }

  /** A store that is 1 exactly in the temporaries held by register r. */
  ghost function OnesIn(st: St, fin: Final, live: set<Temp>, r: nat): map<Temp, int> {
    map t | t in live && InReg(st, t) && RegOf(fin, t) == r :: 1
  }

  lemma OnesMatch(st: St, fin: Final, live: set<Temp>, r: nat, args: seq<int>, w: World, slots: map<Temp, int>)
    requires st.frame.actual == ArgOffset(|args|) && AreaArgs(map[], |args|) == args
    requires forall t :: t in live ==> t in slots
    ensures
      Match(State(OnesIn(st, fin, live, r), args, w), Mach(map[r := 1], map[], map[], 0, w), st, fin, live, slots)
  {
  }

  lemma LoadExact(c: Choices, st: St, live: set<Temp>, placed: seq<Temp>, t: Temp, fin: Final)
    requires Ok(st) && Enumerates(c) && Counted(st.frame) && t in live
    requires forall u :: u in placed ==> u in live && InReg(st, u)
    ensures ReadSpared(st, FindReg(c, st, live, t, true).st, live, placed, t, fin) <==>
      LoadKept(c, st, live, placed, t, fin)
  {
    hide FindReg, Exec, EmitAll, FrameOk;
    var q := FindReg(c, st, live, t, true);
    if ReadSpared(st, q.st, live, placed, t, fin) {
      forall me: Meaning, s: State, m: Mach, slots: map<Temp, int> |
        InPlace(s, m, st, fin, live, placed, slots) && FinalSlots(q.st, slots)
        ensures LoadRight(me, c, st, live, placed, t, fin, s, m, slots)
      {
        NextRead(me, c, st, live, placed, t, fin, s, m, slots);
      }
    } else {
      LoadBreaks(c, st, live, placed, t, fin);
    }
  }

  lemma LoadBreaks(c: Choices, st: St, live: set<Temp>, placed: seq<Temp>, t: Temp, fin: Final)
    requires Ok(st) && Enumerates(c) && Counted(st.frame) && t in live
    requires forall u :: u in placed ==> u in live && InReg(st, u)
    requires !ReadSpared(st, FindReg(c, st, live, t, true).st, live, placed, t, fin)
    ensures !LoadKept(c, st, live, placed, t, fin)
  {
    hide FindReg, Exec, EmitAll, FrameOk, Match;
    var q, r := FindReg(c, st, live, t, true), RegOf(fin, t);
    FindRegBinds(c, st, live, t, true);
    var args := ZeroArgs(st.frame);
    var slots := MoreSlots(c, q.st, live);
    var w := World(map[], 0, []);
    var me := Ones();
    var s, m := State(OnesIn(st, fin, live, r), args, w), Mach(map[r := 1], map[], map[], 0, w);
    OnesMatch(st, fin, live, r, args, w, slots);
    assert InPlace(s, m, st, fin, live, placed, slots) by {
      forall i | 0 <= i < |placed| ensures RegVals(m.regs, RegsOf(fin, placed))[i] == TempVals(s.temps, placed)[i] {
        assert placed[i] in placed;
      }
    }
    LoadRegs(me, c, st, live, t, fin, m);
    var m' := Exec(me, EmitAll(q.items, fin), m);
    assert Val(m'.regs, r) == 0;
    NotHeld(c, st, q.st, live, placed, t, fin, s, m', slots);
    assert !LoadRight(me, c, st, live, placed, t, fin, s, m, slots);
  }

  lemma NotHeld(
    c: Choices, st: St, q: St, live: set<Temp>, placed: seq<Temp>, t: Temp, fin: Final,
    s: State, m: Mach, slots: map<Temp, int>)
    requires !ReadSpared(st, q, live, placed, t, fin) && s.temps == OnesIn(st, fin, live, RegOf(fin, t))
    requires
      && (forall u :: u in placed ==> u in live && InReg(st, u))
      && (forall u :: u != t && InReg(q, u) ==> InReg(st, u))
    requires Val(m.regs, RegOf(fin, t)) == 0
    ensures !InPlace(s, m, q, fin, live, placed + [t], slots)
  {
    if !Spares(fin, t, q, live) {
      var u :| u in live && u != t && InReg(q, u) && RegOf(fin, u) == RegOf(fin, t);
      assert !Holds(q, fin, m, u, Val(s.temps, u), slots);
    } else {
      var u :| u in placed && u != t && RegOf(fin, u) == RegOf(fin, t);
      var i :| 0 <= i < |placed| && placed[i] == u;
      assert RegVals(m.regs, RegsOf(fin, placed + [t]))[i] != TempVals(s.temps, placed + [t])[i];
    }
  }

  /** A meaning under which every operation gives 1. */
  function Ones(): Meaning {
    Meaning((_, _, _) => 1, (_, _) => 1, _ => 1, (_, _, _) => CallResult(1, map[], 0), _ => map[], _ => map[])
  }

  /** All operands of an instruction, one after the other. */
  ghost predicate LoadsKept(c: Choices, st: St, live: set<Temp>, ts: seq<Temp>, fin: Final)
    requires |st.regVar| > 0
    decreases |ts|
  {
    ts != [] ==>
      var front, t := ts[..|ts| - 1], ts[|ts| - 1];
      LoadsKept(c, st, live, front, fin) && LoadKept(c, PlaceReads(c, st, live, front).st, live, front, t, fin)
  }

  lemma LoadsExact(c: Choices, st: St, live: set<Temp>, ts: seq<Temp>, fin: Final)
    requires Ok(st) && Enumerates(c) && Counted(st.frame) && |ts| <= 2 && forall t :: t in ts ==> t in live
    ensures ReadsSpared(c, st, live, ts, fin) <==> LoadsKept(c, st, live, ts, fin)
  {
    hide FindReg, LoadKept, ReadSpared, FrameOk;
    if ts != [] {
      var front, t := ts[..|ts| - 1], ts[|ts| - 1];
      assert t in ts && forall u :: u in front ==> u in ts;
      LoadsExact(c, st, live, front, fin);
      PlaceReadsOnward(c, st, live, front);
      FirstInReg(c, st, live, front);
      LoadExact(c, PlaceReads(c, st, live, front).st, live, front, t, fin);
    }
  }

  lemma FirstInReg(c: Choices, st: St, live: set<Temp>, ts: seq<Temp>)
    requires Ok(st) && |ts| <= 1
    ensures forall t :: t in ts ==> InReg(PlaceReads(c, st, live, ts).st, t)
  {
    hide FindReg;
    if ts != [] {
      FindRegBinds(c, st, live, ts[0], true);
    }
  }

  // ----- the instruction's own write -----

  ghost predicate WriteRight(
    me: Meaning, c: Choices, st: St, liveOut: set<Temp>, tac: Tac, fin: Final, s: State, m: Mach, slots: map<Temp, int>)
  {
    Match(Step(me, tac, s), Exec(me, Emit(ItemFor(c, st, liveOut, tac), fin), m),
          FrameAfter(c, st, liveOut, tac), fin, liveOut, slots)
  }

  /** With its operands in place, the instruction is right for all stores and machines that
      agree. */
  ghost predicate WriteKept(c: Choices, st: St, live: set<Temp>, liveOut: set<Temp>, tac: Tac, fin: Final) {
    forall me: Meaning, s: State, m: Mach, slots: map<Temp, int> ::
      Operands(tac, s, m, st, fin, live, slots) && FinalSlots(FrameAfter(c, st, liveOut, tac), slots) ==>
        WriteRight(me, c, st, liveOut, tac, fin, s, m, slots)
  }

  lemma WriteExact(c: Choices, st: St, live: set<Temp>, liveOut: set<Temp>, tac: Tac, fin: Final)
    requires Ok(st) && Enumerates(c) && Counted(st.frame) && (Writes(tac).Some? ==> InReg(st, Writes(tac).value))
    requires live == liveOut - Defs(tac) + Uses(tac)
    ensures WriteSpared(tac, st, fin, liveOut) <==> WriteKept(c, st, live, liveOut, tac, fin)
  {
    hide Emit, Exec, Step, FrameOk, Ok, WriteSpared, Operands, Match, ItemFor, FrameAfter;
    if WriteSpared(tac, st, fin, liveOut) {
      forall me: Meaning, s: State, m: Mach, slots: map<Temp, int> |
        Operands(tac, s, m, st, fin, live, slots) && FinalSlots(FrameAfter(c, st, liveOut, tac), slots)
        ensures WriteRight(me, c, st, liveOut, tac, fin, s, m, slots)
      {
        RunItem(me, c, st, live, liveOut, tac, fin, s, m, slots);
      }
    } else {
      WriteBreaks(c, st, live, liveOut, tac, fin);
    }
  }

  lemma FrameAfterOk(c: Choices, st: St, liveOut: set<Temp>, tac: Tac)
    requires Ok(st)
    ensures Ok(FrameAfter(c, st, liveOut, tac))
  {
    if tac.Call? {
      FindSlotsOk(FinishActual(st.frame), Saved(st, c.order(liveOut), tac.ret));
    }
  }

  lemma WriteBreaks(c: Choices, st: St, live: set<Temp>, liveOut: set<Temp>, tac: Tac, fin: Final)
    requires Ok(st) && Enumerates(c) && Counted(st.frame) && (Writes(tac).Some? ==> InReg(st, Writes(tac).value))
    requires live == liveOut - Defs(tac) + Uses(tac) && !WriteSpared(tac, st, fin, liveOut)
    ensures !WriteKept(c, st, live, liveOut, tac, fin)
  {
    hide FrameOk, FindSlots;
    var args := ZeroArgs(st.frame);
    FrameAfterOk(c, st, liveOut, tac);
    var slots := MoreSlots(c, FrameAfter(c, st, liveOut, tac), live);
    if tac.Call? {
      CallBreaks(c, st, live, liveOut, tac, fin, args, slots);
    } else if tac.Unary? && tac.op1 == Assign {
      CopyBreaks(c, st, live, liveOut, tac, fin, args, slots);
    } else {
      PlainBreaks(c, st, live, liveOut, tac, fin, args, slots);
    }
  }

  /** Everything is 0 before; the instruction gives 1. */
  ghost function ZeroWorld(tac: Tac): World {
    World(if tac.Load? then map[tac.offset := 1] else map[], 1, [])
  }

  lemma ZeroOperands(
    st: St, tac: Tac, fin: Final, live: set<Temp>, args: seq<int>, slots: map<Temp, int>)
    requires st.frame.actual == ArgOffset(|args|) && AreaArgs(map[], |args|) == args
    requires forall t :: t in live ==> t in slots
    ensures
      var w := ZeroWorld(tac);
      Operands(tac, State(map[], args, w), Mach(map[], map[], map[], 0, w), st, fin, live, slots)
  {
  }

  lemma PlainBreaks(
    c: Choices, st: St, live: set<Temp>, liveOut: set<Temp>, tac: Tac, fin: Final, args: seq<int>,
    slots: map<Temp, int>)
    requires !tac.Call? && !(tac.Unary? && tac.op1 == Assign) && !WriteSpared(tac, st, fin, liveOut)
    requires st.frame.actual == ArgOffset(|args|) && AreaArgs(map[], |args|) == args
    requires (forall t :: t in live ==> t in slots) && FinalSlots(FrameAfter(c, st, liveOut, tac), slots)
    ensures !WriteKept(c, st, live, liveOut, tac, fin)
  {
    var me, w, d := Ones(), ZeroWorld(tac), Writes(tac).value;
    var s, m := State(map[], args, w), Mach(map[], map[], map[], 0, w);
    ZeroOperands(st, tac, fin, live, args, slots);
    var u :| u in liveOut && u != d && InReg(st, u) && RegOf(fin, u) == RegOf(fin, d);
    var code := Emit(Plain(tac), fin);
    ExecOne(me, code[0], m);
    var m' := Exec(me, code, m);
    assert Step(me, tac, s).temps == map[d := 1];
    assert Val(m'.regs, RegOf(fin, u)) == 1;
    assert !Holds(st, fin, m', u, Val(Step(me, tac, s).temps, u), slots);
    assert !WriteRight(me, c, st, liveOut, tac, fin, s, m, slots);
  }

  lemma CopyBreaks(
    c: Choices, st: St, live: set<Temp>, liveOut: set<Temp>, tac: Tac, fin: Final, args: seq<int>,
    slots: map<Temp, int>)
    requires Ok(st) && tac.Unary? && tac.op1 == Assign && !WriteSpared(tac, st, fin, liveOut)
    requires live == liveOut - Defs(tac) + Uses(tac)
    requires st.frame.actual == ArgOffset(|args|) && AreaArgs(map[], |args|) == args
    requires (forall t :: t in live ==> t in slots) && FinalSlots(st, slots)
    ensures !WriteKept(c, st, live, liveOut, tac, fin)
  {
    hide FrameOk, Exec;
    var me, w, d, src := Ones(), World(map[], 0, []), tac.dst, tac.src1;
    var r := RegOf(fin, src);
    assert Reads(tac) == [src] && src in Uses(tac);
    var s := State(OnesIn(st, fin, live, r)[src := 1], args, w);
    var m := Mach(map[r := 1], map[slots[src] := 1], map[], 0, w);
    forall t | t in live - Defs(tac) ensures Holds(st, fin, m, t, Val(s.temps, t), slots) {
      if !InReg(st, t) && t != src { assert slots[t] != slots[src]; }
    }
    assert Operands(tac, s, m, st, fin, live, slots);
    var u :| u in liveOut && u != d && InReg(st, u) && RegOf(fin, u) == RegOf(fin, d);
    var a := Op(tac, RegsOf(fin, Reads(tac)), Some(RegOf(fin, d)));
    assert Emit(Plain(tac), fin) == [a];
    ExecOne(me, a, m);
    var m' := Exec(me, Emit(Plain(tac), fin), m);
    assert Val(m'.regs, RegOf(fin, u)) == 1;
    assert Val(Step(me, tac, s).temps, u) == 0;
    assert !Holds(st, fin, m', u, Val(Step(me, tac, s).temps, u), slots);
    assert !WriteRight(me, c, st, liveOut, tac, fin, s, m, slots);
  }

  lemma CallBreaks(
    c: Choices, st: St, live: set<Temp>, liveOut: set<Temp>, tac: Tac, fin: Final, args: seq<int>,
    slots: map<Temp, int>)
    requires Ok(st) && Enumerates(c) && tac.Call? && (tac.ret.Some? ==> InReg(st, tac.ret.value))
    requires live == liveOut - Defs(tac) + Uses(tac) && !WriteSpared(tac, st, fin, liveOut)
    requires st.frame.actual == ArgOffset(|args|) && AreaArgs(map[], |args|) == args
    requires (forall t :: t in live ==> t in slots) && FinalSlots(FrameAfter(c, st, liveOut, tac), slots)
    ensures !WriteKept(c, st, live, liveOut, tac, fin)
  {
    hide FrameOk, FindSlots, Exec, Emit, Injective, ItemFor, FrameAfter, Step;
    var me, w, d := Ones(), ZeroWorld(tac), tac.ret.value;
    var s, m := State(map[], args, w), Mach(map[], map[], map[], 0, w);
    ZeroOperands(st, tac, fin, live, args, slots);
    var u :| u in liveOut && u != d && InReg(st, u) && RegOf(fin, u) == RegOf(fin, d);
    CallItem(c, st, liveOut, tac, slots);
    CallOverwrites(st, tac, fin, Saved(st, c.order(liveOut), tac.ret), live, args, slots, u);
    CallGivesOne(tac, args, w);
    var m' := Exec(me, Emit(ItemFor(c, st, liveOut, tac), fin), m);
    assert !Holds(FrameAfter(c, st, liveOut, tac), fin, m', d, Val(Step(me, tac, s).temps, d), slots);
    assert !WriteRight(me, c, st, liveOut, tac, fin, s, m, slots);
  }

  lemma CallGivesOne(tac: Tac, args: seq<int>, w: World)
    requires tac.Call? && tac.ret.Some?
    ensures Val(Step(Ones(), tac, State(map[], args, w)).temps, tac.ret.value) == 1
  {
  }

  lemma CallItem(c: Choices, st: St, liveOut: set<Temp>, tac: Tac, slots: map<Temp, int>)
    requires Ok(st) && tac.Call? && FinalSlots(FrameAfter(c, st, liveOut, tac), slots)
    ensures
      var saved := Saved(st, c.order(liveOut), tac.ret);
      && HaveSlots(saved, slots) && FrameAfter(c, st, liveOut, tac).regVar == st.regVar
      && FrameAfter(c, st, liveOut, tac).tempReg == st.tempReg
      && ItemFor(c, st, liveOut, tac) == CallAt(tac, WithSlots(slots, saved), Pending(st.frame))
  {
    var saved := Saved(st, c.order(liveOut), tac.ret);
    FindSlotsOk(FinishActual(st.frame), saved);
    SameSlots(FindSlots(FinishActual(st.frame), saved).off, slots, saved);
  }

  /** The reload of a saved temporary overwrites the result. */
  lemma CallOverwrites(
    st: St, tac: Tac, fin: Final, saved: seq<Temp>, live: set<Temp>, args: seq<int>, slots: map<Temp, int>, u: Temp)
    requires tac.Call? && HaveSlots(saved, slots) && u in saved
    requires st.frame.actual == ArgOffset(|args|) && AreaArgs(map[], |args|) == args
    requires forall t :: t in live ==> t in slots
    ensures
      var w, item := ZeroWorld(tac), CallAt(tac, WithSlots(slots, saved), Pending(st.frame));
      Val(Exec(Ones(), Emit(item, fin), Mach(map[], map[], map[], 0, w)).regs, RegOf(fin, u)) == 0
  {
    hide Exec, Emit, Stored, Loaded, AfterCall;
    var me, w := Ones(), ZeroWorld(tac);
    var s, m := State(map[], args, w), Mach(map[], map[], map[], 0, w);
    CallCode(me, st.frame, fin, tac, saved, slots, m);
    StoreAllEffect(me, fin, saved, slots, m);
    var m1 := Stored(me, fin, saved, slots, m);
    ZeroOperands(st, tac, fin, live, args, slots);
    CallValue(me, st, tac, fin, live, s, m, m1, slots);
    LoadAllEffect(me, fin, saved, slots, AfterCall(me, st.frame, fin, tac, m1));
  }

  // ----- the end of a block -----

  /** The end of the block is right for all stores and machines that agree. */
  ghost predicate EndAllKept(c: Choices, p: Placed, b: Block, liveOut: set<Temp>) {
    var a := EndBlock(c, p, b, liveOut);
    forall me: Meaning, s: State, m: Mach, slots: map<Temp, int> ::
      Match(s, m, p.st, a.st.tempReg, EndLive(b, liveOut), slots) && s.args == [] && FinalSlots(a.st, slots) ==>
        EndKept(me, c, p, b, liveOut, s, m, slots)
  }

  lemma EndExact(c: Choices, p: Placed, b: Block, liveOut: set<Temp>)
    requires Ok(p.st) && Enumerates(c) && p.st.frame.actual == WORD
    ensures
      EndSpared(p.st, b, liveOut, EndBlock(c, p, b, liveOut).st.tempReg) <==> EndAllKept(c, p, b, liveOut)
  {
    hide EndBlock, Exec, EndCode, FrameOk, Match;
    var a := EndBlock(c, p, b, liveOut);
    if EndSpared(p.st, b, liveOut, a.st.tempReg) {
      forall me: Meaning, s: State, m: Mach, slots: map<Temp, int> |
        Match(s, m, p.st, a.st.tempReg, EndLive(b, liveOut), slots) && s.args == [] && FinalSlots(a.st, slots)
        ensures EndKept(me, c, p, b, liveOut, s, m, slots)
      {
        EndSimulates(me, c, p, b, liveOut, s, m, slots);
      }
    } else {
      EndBreaks(c, p, b, liveOut);
    }
  }

  lemma EndBreaks(c: Choices, p: Placed, b: Block, liveOut: set<Temp>)
    requires Ok(p.st) && Enumerates(c) && p.st.frame.actual == WORD
    requires !EndSpared(p.st, b, liveOut, EndBlock(c, p, b, liveOut).st.tempReg)
    ensures !EndAllKept(c, p, b, liveOut)
  {
    hide EndBlock, EndKept, FrameOk, Match, FinalSlots, Ok;
    var v := EndTemp(b).value;
    var fin := EndBlock(c, p, b, liveOut).st.tempReg;
    var u :| u in liveOut && u != v && InReg(p.st, u) && RegOf(fin, u) == RegOf(fin, v);
    var me, s, m, slots := EndWitness(c, p, b, liveOut, u);
  }

  lemma EndWitness(c: Choices, p: Placed, b: Block, liveOut: set<Temp>, u: Temp)
    returns (me: Meaning, s: State, m: Mach, slots: map<Temp, int>)
    requires Ok(p.st) && Enumerates(c) && p.st.frame.actual == WORD && NeedsEndLoad(p.st, b)
    requires u in liveOut && InReg(p.st, u)
    requires
      var fin := EndBlock(c, p, b, liveOut).st.tempReg;
      RegOf(fin, u) == RegOf(fin, EndTemp(b).value)
    ensures
      var a := EndBlock(c, p, b, liveOut);
      && Match(s, m, p.st, a.st.tempReg, EndLive(b, liveOut), slots) && s.args == [] && FinalSlots(a.st, slots)
      && !EndKept(me, c, p, b, liveOut, s, m, slots)
  {
    hide EndBlock, Exec, EndCode, FrameOk, Match, FinalSlots, AtRest;
    var a, live := EndBlock(c, p, b, liveOut), EndLive(b, liveOut);
    EndGrows(c, p, b, liveOut);
    slots := MoreSlots(c, a.st, live);
    var w, r := World(map[], 0, []), RegOf(a.st.tempReg, EndTemp(b).value);
    me, s, m := Ones(), State(OnesIn(p.st, a.st.tempReg, live, r), [], w), Mach(map[r := 1], map[], map[], 0, w);
    OnesMatch(p.st, a.st.tempReg, live, r, [], w, slots);
    EndOverwrites(me, c, p, b, liveOut, u, m, slots);
    NotAtRest(s, Exec(me, EndCode(p, a, b), m), liveOut, slots, u);
  }

  lemma NotAtRest(s: State, m: Mach, live: set<Temp>, slots: map<Temp, int>, u: Temp)
    requires u in live && u in slots && Val(m.frame, slots[u]) != Val(s.temps, u)
    ensures !AtRest(s, m, live, slots)
  {
  }

  /** The load at the end overwrites a register that is saved after it. */
  lemma EndOverwrites(
    me: Meaning, c: Choices, p: Placed, b: Block, liveOut: set<Temp>, u: Temp, m: Mach, slots: map<Temp, int>)
    requires Ok(p.st) && Enumerates(c) && FinalSlots(EndBlock(c, p, b, liveOut).st, slots) && NeedsEndLoad(p.st, b)
    requires u in liveOut && u in slots && InReg(p.st, u) && m.frame == map[]
    requires RegOf(EndBlock(c, p, b, liveOut).st.tempReg, u) ==
      RegOf(EndBlock(c, p, b, liveOut).st.tempReg, EndTemp(b).value)
    ensures Val(Exec(me, EndCode(p, EndBlock(c, p, b, liveOut), b), m).frame, slots[u]) == 0
  {
    hide EndBlock, Exec, EndCode, FrameOk, Injective;
    EndEffect(me, c, p, b, liveOut, m, slots);
  }

  // ----- the whole block -----

  ghost predicate StepKept(c: Choices, st: St, tacs: seq<Tac>, end: set<Temp>, fin: Final, i: nat)
    requires |st.regVar| > 0 && i < |tacs|
  {
    var p, live, out := AllocPrefix(c, st, tacs, end, i).st, LiveAt(tacs, i, end), LiveAt(tacs, i + 1, end);
    && LoadsKept(c, p, live, Reads(tacs[i]), fin)
    && WriteKept(c, PlaceOperands(c, p, live, tacs[i]).st, live, out, tacs[i], fin)
  }

  /** Every load, every instruction and the ending of the block are right for all stores
      and machines that agree just before them. */
  ghost predicate EveryStepKept(c: Choices, st: St, b: Block, liveOut: set<Temp>)
    requires |st.regVar| > 0
  {
    var end, fin := EndLive(b, liveOut), AllocBlock(c, st, b, liveOut).st.tempReg;
    && (forall i :: 0 <= i < |b.tacs| ==> StepKept(c, Clear(st), b.tacs, end, fin, i))
    && EndAllKept(c, AllocPrefix(c, Clear(st), b.tacs, end, |b.tacs|), b, liveOut)
  }

  lemma StepExact(c: Choices, st: St, tacs: seq<Tac>, end: set<Temp>, fin: Final, i: nat)
    requires Ok(st) && Enumerates(c) && st.frame.actual == WORD && i < |tacs|
    ensures SparedAt(c, st, tacs, end, fin, i) <==> StepKept(c, st, tacs, end, fin, i)
  {
    hide AllocPrefix, PlaceOperands, LiveAt, LoadsKept, WriteKept, ReadsSpared, WriteSpared, FrameOk, Extends;
    var p, live, out := AllocPrefix(c, st, tacs, end, i).st, LiveAt(tacs, i, end), LiveAt(tacs, i + 1, end);
    PrefixOk(c, st, tacs, end, i);
    PrefixActual(c, st, tacs, end, i);
    LiveAtStep(tacs, i, end);
    PlaceOperandsOnward(c, p, live, tacs[i]);
    assert Counted(p.frame);
    forall t | t in Reads(tacs[i]) ensures t in live { assert t in Uses(tacs[i]); }
    LoadsExact(c, p, live, Reads(tacs[i]), fin);
    WriteExact(c, PlaceOperands(c, p, live, tacs[i]).st, live, out, tacs[i], fin);
  }

  /** The condition of the simulation holds if and only if no step of the emitted code goes
      wrong from a store and a machine that agree. */
  lemma UndisturbedExact(c: Choices, st: St, b: Block, liveOut: set<Temp>)
    requires Ok(st) && Enumerates(c) && st.frame.actual == WORD && PendingParms(b.tacs, |b.tacs|) == 0
    ensures Undisturbed(c, st, b, liveOut) <==> EveryStepKept(c, st, b, liveOut)
  {
    hide AllocPrefix, EndBlock, LiveAt, SparedAt, StepKept, EndSpared, EndAllKept, FrameOk, Extends;
    var end, fin := EndLive(b, liveOut), AllocBlock(c, st, b, liveOut).st.tempReg;
    ClearOk(st);
    PrefixOk(c, Clear(st), b.tacs, end, |b.tacs|);
    PrefixActual(c, Clear(st), b.tacs, end, |b.tacs|);
    forall i | 0 <= i < |b.tacs|
      ensures SparedAt(c, Clear(st), b.tacs, end, fin, i) <==> StepKept(c, Clear(st), b.tacs, end, fin, i)
    {
      StepExact(c, Clear(st), b.tacs, end, fin, i);
    }
    EndExact(c, AllocPrefix(c, Clear(st), b.tacs, end, |b.tacs|), b, liveOut);
  }
}
