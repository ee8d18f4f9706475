/** Meaning of allocated code.  The code of a block is written after the whole block has
    been allocated, so every temporary is named by the register it had last; `fin` is that
    final map.  Placing operands, and then running one instruction, keeps every live
    temporary in its final register or in its own slot, provided that no register is
    written while another temporary still needs it. */
module AllocProof {
  import opened Options
  import opened Counting
  import opened Tac
  import opened Asm
  import opened Frame
  import opened AllocSpec

  /** Bindings are mutual (so no two registers hold the same temporary) and slots are
      well laid out. */
  ghost predicate Ok(st: St) {
    && |st.regVar| > 0
    && (forall r :: 0 <= r < |st.regVar| && st.regVar[r].Some? ==>
         InReg(st, st.regVar[r].value) && st.tempReg[st.regVar[r].value] == r)
    && FrameOk(st.frame)
  }

  /** The last register of each temporary. */
  type Final = map<Temp, nat>

  /** Where a temporary's value is: its final register if it is in one, else its slot. */
  ghost predicate Holds(st: St, fin: Final, m: Mach, t: Temp, v: int, slots: map<Temp, int>) {
    if InReg(st, t) then Val(m.regs, RegOf(fin, t)) == v
    else t in slots && Val(m.frame, slots[t]) == v
  }

  ghost predicate HoldAll(
    st: St, fin: Final, m: Mach, temps: map<Temp, int>, live: set<Temp>, slots: map<Temp, int>)
  {
    forall t :: t in live ==> Holds(st, fin, m, t, Val(temps, t), slots)
  }

  /** The machine has seen the same pending arguments. */
  ghost predicate SameArgs(s: State, m: Mach, f: Frame) {
    f.actual == ArgOffset(|s.args|) && AreaArgs(m.area, |s.args|) == s.args
  }

  /** The simulation relation: `slots` is the function's final slot assignment. */
  ghost predicate Match(s: State, m: Mach, st: St, fin: Final, live: set<Temp>, slots: map<Temp, int>) {
    && s.world == m.world
    && SameArgs(s, m, st.frame)
    && HoldAll(st, fin, m, s.temps, live, slots)
  }

  ghost predicate FinalSlots(st: St, slots: map<Temp, int>) {
    Injective(slots) && Extends(st.frame.off, slots)
  }

  /** Writing the register of t disturbs no other temporary of `keep` that is in one. */
  ghost predicate Spares(fin: Final, t: Temp, st: St, keep: set<Temp>) {
    forall u :: u in keep && u != t && InReg(st, u) ==> RegOf(fin, u) != RegOf(fin, t)
  }

  // ----- finding a register -----

  /** What FindReg does to the bindings. */
  lemma FindRegBinds(c: Choices, st: St, live: set<Temp>, t: Temp, read: bool)
    requires Ok(st)
    ensures
      var p := FindReg(c, st, live, t, read).st;
      && Ok(p) && |p.regVar| == |st.regVar| && InReg(p, t)
      && p.frame.actual == st.frame.actual && Extends(st.frame.off, p.frame.off)
      && (forall u :: u != t ==> (u in p.tempReg <==> u in st.tempReg))
      && (forall u :: u != t && u in st.tempReg ==> p.tempReg[u] == st.tempReg[u])
      && (forall u :: u != t && InReg(p, u) ==> InReg(st, u))
      && p.regVar == st.regVar[p.tempReg[t] := Some(t)]
      && (InReg(st, t) ==> p == st)
  {
    if !InReg(st, t) {
      var free := FirstFree(st, live, 0);
      if free < |st.regVar| {
        PlaceBinds(st, free, t, read, []);
      } else {
        var fixed := FirstFixed(st, 0);
        if fixed < |st.regVar| {
          var v := st.regVar[fixed].value;
          PlaceBinds(st, fixed, t, read, [Spill(v, st.frame.off[v])]);
        } else {
          var r := c.random(st.drawn) % |st.regVar|;
          assert !Free(st, live, r);
          var v := st.regVar[r].value;
          FindSlotOk(st.frame, v);
          var st' := st.(frame := FindSlot(st.frame, v), drawn := st.drawn + 1);
          PlaceBinds(st', r, t, read, [Spill(v, st'.frame.off[v])]);
        }
      }
    }
  }

  lemma PlaceBinds(st: St, r: nat, t: Temp, read: bool, spills: seq<Item>)
    requires Ok(st) && r < |st.regVar| && !InReg(st, t)
    ensures
      var p := Place(st, r, t, read, spills).st;
      && Ok(p) && |p.regVar| == |st.regVar| && InReg(p, t)
      && p.frame.actual == st.frame.actual && Extends(st.frame.off, p.frame.off)
      && p.tempReg == st.tempReg[t := r]
      && p.regVar == st.regVar[r := Some(t)]
  {
    FindSlotOk(st.frame, t);
    var p := Place(st, r, t, read, spills).st;
    forall k | 0 <= k < |p.regVar| && p.regVar[k].Some?
      ensures InReg(p, p.regVar[k].value) && p.tempReg[p.regVar[k].value] == k
    {
      if k != r {
        assert p.regVar[k].value != t;
      }
    }
  }

  /** The two ways in which register r may be taken over: its temporary is dead, or it is
      stored in its slot first. */
  ghost predicate Taken(st: St, live: set<Temp>, r: nat, spills: seq<Item>)
    requires r < |st.regVar|
  {
    if spills == [] then Free(st, live, r)
    else
      && !Free(st, live, r) && st.regVar[r].value in st.frame.off
      && spills == [Spill(st.regVar[r].value, st.frame.off[st.regVar[r].value])]
  }

  ghost function AfterSpill(me: Meaning, fin: Final, spills: seq<Item>, m: Mach): Mach {
    if spills == [] || !spills[0].Spill? then m
    else Exec1(me, SlotStore(RegOf(fin, spills[0].temp), spills[0].off), m)
  }

  /** The temporary that loses its register has its value in its slot. */
  lemma SpillOne(
    me: Meaning, st: St, r: nat, t: Temp, p: St, spills: seq<Item>, fin: Final,
    s: State, m: Mach, live: set<Temp>, slots: map<Temp, int>, u: Temp)
    requires Ok(st) && r < |st.regVar| && !InReg(st, t) && Taken(st, live, r, spills) && u in live && u != t
    requires Match(s, m, st, fin, live, slots) && FinalSlots(st, slots)
    requires p.regVar == st.regVar[r := Some(t)] && p.tempReg == st.tempReg[t := r]
    ensures Holds(p, fin, AfterSpill(me, fin, spills, m), u, Val(s.temps, u), slots)
  {
    hide FrameOk;
    assert Holds(st, fin, m, u, Val(s.temps, u), slots);
    if spills != [] {
      var v := st.regVar[r].value;
      assert Holds(st, fin, m, v, Val(s.temps, v), slots) && slots[v] == st.frame.off[v];
    }
  }

  lemma SpillHolds(
    me: Meaning, st: St, r: nat, t: Temp, read: bool, spills: seq<Item>, fin: Final,
    s: State, m: Mach, live: set<Temp>, slots: map<Temp, int>)
    requires Ok(st) && r < |st.regVar| && !InReg(st, t) && Taken(st, live, r, spills)
    requires Match(s, m, st, fin, live, slots) && FinalSlots(st, slots)
    ensures
      var p := Place(st, r, t, read, spills).st;
      var m1 := AfterSpill(me, fin, spills, m);
      && HoldAll(p, fin, m1, s.temps, live - {t}, slots) && m1 == m.(frame := m1.frame)
      && (t in live ==> t in slots && Val(m1.frame, slots[t]) == Val(s.temps, t))
  {
    PlaceBinds(st, r, t, read, spills);
    var p := Place(st, r, t, read, spills).st;
    hide Place;
    var m1 := AfterSpill(me, fin, spills, m);
    forall u | u in live - {t} ensures Holds(p, fin, m1, u, Val(s.temps, u), slots) {
      SpillOne(me, st, r, t, p, spills, fin, s, m, live, slots, u);
    }
    if t in live {
      assert Holds(st, fin, m, t, Val(s.temps, t), slots);
      if spills != [] {
        assert st.regVar[r].value != t && slots[st.regVar[r].value] == spills[0].off;
      }
    }
  }

  /** The code of a placement: the spill, then the load. */
  lemma PlaceCode(
    me: Meaning, st: St, r: nat, t: Temp, read: bool, spills: seq<Item>, fin: Final, live: set<Temp>, m: Mach)
    requires Ok(st) && r < |st.regVar| && !InReg(st, t) && Taken(st, live, r, spills)
    ensures
      var p := Place(st, r, t, read, spills);
      var m1 := AfterSpill(me, fin, spills, m);
      Exec(me, EmitAll(p.items, fin), m)
        == if read then Exec1(me, SlotLoad(RegOf(fin, t), p.st.frame.off[t]), m1) else m1
  {
    hide Exec, Exec1, FrameOk;
    var p := Place(st, r, t, read, spills);
    ExecNil(me, m);
    EmitNil(fin);
    if read {
      var load := Reload(t, p.st.frame.off[t]);
      EmitSnoc(spills, load, fin);
      ExecConcat(me, EmitAll(spills, fin), Emit(load, fin), m);
      ExecOne(me, SlotLoad(RegOf(fin, t), p.st.frame.off[t]), Exec(me, EmitAll(spills, fin), m));
    }
    if spills != [] {
      EmitOne(spills[0], fin);
      ExecOne(me, SlotStore(RegOf(fin, spills[0].temp), spills[0].off), m);
    }
  }

  lemma ExecNil(me: Meaning, m: Mach)
    ensures Exec(me, [], m) == m
  {
  }

  lemma EmitNil(fin: Final)
    ensures EmitAll([], fin) == []
  {
  }

  lemma EmitOne(item: Item, fin: Final)
    ensures EmitAll([item], fin) == Emit(item, fin)
  {
    assert [item][..0] == [];
  }

  lemma EmitSnoc(items: seq<Item>, item: Item, fin: Final)
    ensures EmitAll(items + [item], fin) == EmitAll(items, fin) + Emit(item, fin)
  {
    assert (items + [item])[..|items|] == items;
  }

  lemma {:induction false} EmitConcat(x: seq<Item>, y: seq<Item>, fin: Final)
    ensures EmitAll(x + y, fin) == EmitAll(x, fin) + EmitAll(y, fin)
    decreases |y|
  {
    hide Emit;
    if y == [] {
      assert x + y == x;
    } else {
      assert (x + y)[..|x + y| - 1] == x + y[..|y| - 1];
      EmitConcat(x, y[..|y| - 1], fin);
    }
  }

  /** Running the code of two lists of elements one after the other. */
  lemma ExecItems(me: Meaning, x: seq<Item>, y: seq<Item>, fin: Final, m: Mach)
    ensures Exec(me, EmitAll(x + y, fin), m) == Exec(me, EmitAll(y, fin), Exec(me, EmitAll(x, fin), m))
  {
    hide Exec, EmitAll;
    EmitConcat(x, y, fin);
    ExecConcat(me, EmitAll(x, fin), EmitAll(y, fin), m);
  }

  /** What a placement leaves behind: live values where they belong, registers as before
      but for the one that was loaded. */
  ghost predicate Placing(
    s: State, m: Mach, m': Mach, p: St, fin: Final, t: Temp, read: bool, live: set<Temp>, slots: map<Temp, int>)
  {
    if read then
      Match(s, m', p, fin, live, slots) && m'.regs == m.regs[RegOf(fin, t) := Val(s.temps, t)]
    else
      Match(s, m', p, fin, live - {t}, slots) && m'.regs == m.regs
  }

  /** Taking over a register moves no live value out of reach. */
  lemma PlaceHolds(
    me: Meaning, st: St, r: nat, t: Temp, read: bool, spills: seq<Item>, fin: Final,
    s: State, m: Mach, live: set<Temp>, slots: map<Temp, int>)
    requires Ok(st) && r < |st.regVar| && !InReg(st, t) && Taken(st, live, r, spills)
    requires Match(s, m, st, fin, live, slots)
    requires read ==> t in live && Spares(fin, t, Place(st, r, t, read, spills).st, live)
    requires FinalSlots(Place(st, r, t, read, spills).st, slots)
    ensures
      var p := Place(st, r, t, read, spills);
      Placing(s, m, Exec(me, EmitAll(p.items, fin), m), p.st, fin, t, read, live, slots)
  {
    hide EmitAll, FrameOk, Exec, Taken, AfterSpill;
    var p := Place(st, r, t, read, spills);
    PlaceBinds(st, r, t, read, spills);
    FindSlotOk(st.frame, t);
    SpillHolds(me, st, r, t, read, spills, fin, s, m, live, slots);
    PlaceCode(me, st, r, t, read, spills, fin, live, m);
    var m1 := AfterSpill(me, fin, spills, m);
    if read {
      var m' := Exec1(me, SlotLoad(RegOf(fin, t), p.st.frame.off[t]), m1);
      forall u | u in live ensures Holds(p.st, fin, m', u, Val(s.temps, u), slots) {
        if u != t { assert Holds(p.st, fin, m1, u, Val(s.temps, u), slots); }
      }
    }
  }

  /** FindReg moves no live value: it only changes where it is. */
  lemma FindRegHolds(
    me: Meaning, c: Choices, st: St, live: set<Temp>, t: Temp, read: bool, fin: Final,
    s: State, m: Mach, slots: map<Temp, int>)
    requires Ok(st) && !InReg(st, t) && Match(s, m, st, fin, live, slots)
    requires read ==> t in live && Spares(fin, t, FindReg(c, st, live, t, read).st, live)
    requires FinalSlots(FindReg(c, st, live, t, read).st, slots)
    ensures
      var p := FindReg(c, st, live, t, read);
      Placing(s, m, Exec(me, EmitAll(p.items, fin), m), p.st, fin, t, read, live, slots)
  {
    hide FrameOk, EmitAll, Place, Exec;
    var free := FirstFree(st, live, 0);
    if free < |st.regVar| {
      PlaceHolds(me, st, free, t, read, [], fin, s, m, live, slots);
    } else {
      var fixed := FirstFixed(st, 0);
      if fixed < |st.regVar| {
        var v := st.regVar[fixed].value;
        PlaceHolds(me, st, fixed, t, read, [Spill(v, st.frame.off[v])], fin, s, m, live, slots);
      } else {
        var r := c.random(st.drawn) % |st.regVar|;
        assert !Free(st, live, r);
        var v := st.regVar[r].value;
        FindSlotOk(st.frame, v);
        var st' := st.(frame := FindSlot(st.frame, v), drawn := st.drawn + 1);
        assert Match(s, m, st', fin, live, slots);
        PlaceHolds(me, st', r, t, read, [Spill(v, st'.frame.off[v])], fin, s, m, live, slots);
      }
    }
  }

  // ----- the operands of one instruction -----

  /** The allocator moves on: bindings stay mutual, slots are only added. */
  ghost predicate Onward(st: St, st': St) {
    && Ok(st') && |st'.regVar| == |st.regVar|
    && st'.frame.actual == st.frame.actual && Extends(st.frame.off, st'.frame.off)
  }

  lemma OnwardRefl(st: St)
    requires Ok(st)
    ensures Onward(st, st)
  {
  }

  lemma OnwardTrans(a: St, b: St, c: St)
    requires Onward(a, b) && Onward(b, c)
    ensures Onward(a, c)
  {
  }

  lemma FindRegOnward(c: Choices, st: St, live: set<Temp>, t: Temp, read: bool)
    requires Ok(st)
    ensures Onward(st, FindReg(c, st, live, t, read).st) && InReg(FindReg(c, st, live, t, read).st, t)
  {
    FindRegBinds(c, st, live, t, read);
  }

  lemma {:induction false} PlaceReadsOnward(c: Choices, st: St, live: set<Temp>, ts: seq<Temp>)
    requires Ok(st)
    ensures Onward(st, PlaceReads(c, st, live, ts).st)
    decreases |ts|
  {
    hide FindReg, Onward;
    if ts != [] {
      var front, t := ts[..|ts| - 1], ts[|ts| - 1];
      PlaceReadsOnward(c, st, live, front);
      var p := PlaceReads(c, st, live, front).st;
      assert Ok(p) by { OnwardOk(st, p); }
      FindRegOnward(c, p, live, t, true);
      OnwardTrans(st, p, FindReg(c, p, live, t, true).st);
    } else {
      OnwardRefl(st);
    }
  }

  lemma OnwardOk(st: St, p: St)
    requires Onward(st, p)
    ensures Ok(p) && |p.regVar| == |st.regVar| && Extends(st.frame.off, p.frame.off)
  {
  }

  lemma PlaceOperandsOnward(c: Choices, st: St, live: set<Temp>, tac: Tac)
    requires Ok(st)
    ensures
      var p := PlaceOperands(c, st, live, tac).st;
      Onward(st, p) && (Writes(tac).Some? ==> InReg(p, Writes(tac).value))
  {
    hide FindReg, PlaceReads;
    PlaceReadsOnward(c, st, live, Reads(tac));
    match Writes(tac) {
      case None =>
      case Some(d) =>
        var p := PlaceReads(c, st, live, Reads(tac)).st;
        FindRegOnward(c, p, live, d, false);
        OnwardTrans(st, p, FindReg(c, p, live, d, false).st);
    }
  }

  /** Loading t disturbs neither a live temporary nor an operand placed before it. */
  ghost predicate ReadSpared(st: St, q: St, live: set<Temp>, placed: seq<Temp>, t: Temp, fin: Final) {
    InReg(st, t) ||
    (Spares(fin, t, q, live) && forall u :: u in placed && u != t ==> RegOf(fin, u) != RegOf(fin, t))
  }

  ghost predicate ReadsSpared(c: Choices, st: St, live: set<Temp>, ts: seq<Temp>, fin: Final)
    requires |st.regVar| > 0
    decreases |ts|
  {
    ts != [] ==>
      var front, t := ts[..|ts| - 1], ts[|ts| - 1];
      var p := PlaceReads(c, st, live, front).st;
      ReadsSpared(c, st, live, front, fin) && ReadSpared(p, FindReg(c, p, live, t, true).st, live, front, t, fin)
  }

  /** Reading operands: their values end up in their registers, all at the same time. */
  lemma {:induction false} PlaceReadsHolds(
    me: Meaning, c: Choices, st: St, live: set<Temp>, ts: seq<Temp>, fin: Final,
    s: State, m: Mach, slots: map<Temp, int>)
    requires Ok(st) && (forall t :: t in ts ==> t in live) && ReadsSpared(c, st, live, ts, fin)
    requires Match(s, m, st, fin, live, slots) && FinalSlots(PlaceReads(c, st, live, ts).st, slots)
    ensures
      var p := PlaceReads(c, st, live, ts);
      var m' := Exec(me, EmitAll(p.items, fin), m);
      Match(s, m', p.st, fin, live, slots) && RegVals(m'.regs, RegsOf(fin, ts)) == TempVals(s.temps, ts)
    decreases |ts|
  {
    hide FindReg, Exec, EmitAll, FrameOk, Spares;
    if ts == [] {
      EmitNil(fin);
      ExecNil(me, m);
    } else {
      var front, t := ts[..|ts| - 1], ts[|ts| - 1];
      PlaceReadsOnward(c, st, live, front);
      var p := PlaceReads(c, st, live, front);
      FindRegOnward(c, p.st, live, t, true);
      var q := FindReg(c, p.st, live, t, true);
      assert t in ts && forall u :: u in front ==> u in ts;
      PlaceReadsHolds(me, c, st, live, front, fin, s, m, slots);
      ExecItems(me, p.items, q.items, fin, m);
      NextRead(me, c, p.st, live, front, t, fin, s, Exec(me, EmitAll(p.items, fin), m), slots);
      assert front + [t] == ts;
    }
  }

  lemma NextRead(
    me: Meaning, c: Choices, st: St, live: set<Temp>, front: seq<Temp>, t: Temp, fin: Final,
    s: State, m: Mach, slots: map<Temp, int>)
    requires Ok(st) && t in live && ReadSpared(st, FindReg(c, st, live, t, true).st, live, front, t, fin)
    requires Match(s, m, st, fin, live, slots) && FinalSlots(FindReg(c, st, live, t, true).st, slots)
    requires RegVals(m.regs, RegsOf(fin, front)) == TempVals(s.temps, front)
    ensures
      var q := FindReg(c, st, live, t, true);
      var m' := Exec(me, EmitAll(q.items, fin), m);
      && Match(s, m', q.st, fin, live, slots)
      && RegVals(m'.regs, RegsOf(fin, front + [t])) == TempVals(s.temps, front + [t])
  {
    var q := FindReg(c, st, live, t, true);
    var m' := Exec(me, EmitAll(q.items, fin), m);
    if InReg(st, t) {
      EmitNil(fin);
      ExecNil(me, m);
      assert Holds(st, fin, m, t, Val(s.temps, t), slots);
    } else {
      FindRegHolds(me, c, st, live, t, true, fin, s, m, slots);
    }
    hide Exec, EmitAll, FindReg, FrameOk;
    assert Val(m'.regs, RegOf(fin, t)) == Val(s.temps, t);
    var ts := front + [t];
    forall i | 0 <= i < |ts| ensures RegVals(m'.regs, RegsOf(fin, ts))[i] == TempVals(s.temps, ts)[i] {
      if i < |front| && front[i] != t {
        assert front[i] in front;
        assert RegVals(m.regs, RegsOf(fin, front))[i] == TempVals(s.temps, front)[i];
      }
    }
  }

  /** What placing all operands establishes before the instruction itself runs. */
  ghost predicate Operands(
    tac: Tac, s: State, m: Mach, st: St, fin: Final, live: set<Temp>, slots: map<Temp, int>)
  {
    && Match(s, m, st, fin, live - Defs(tac), slots)
    && RegVals(m.regs, RegsOf(fin, Reads(tac))) == TempVals(s.temps, Reads(tac))
  }

  lemma PlaceOperandsHolds(
    me: Meaning, c: Choices, st: St, live: set<Temp>, tac: Tac, fin: Final,
    s: State, m: Mach, slots: map<Temp, int>)
    requires Ok(st) && Uses(tac) <= live && ReadsSpared(c, st, live, Reads(tac), fin)
    requires Match(s, m, st, fin, live, slots) && FinalSlots(PlaceOperands(c, st, live, tac).st, slots)
    ensures
      var p := PlaceOperands(c, st, live, tac);
      Operands(tac, s, Exec(me, EmitAll(p.items, fin), m), p.st, fin, live, slots)
  {
    hide FindReg, PlaceReads, ReadsSpared, Exec, EmitAll, FrameOk;
    var ts := Reads(tac);
    forall t | t in ts ensures t in live { assert t in Uses(tac); }
    PlaceReadsOnward(c, st, live, ts);
    var p := PlaceReads(c, st, live, ts);
    var m1 := Exec(me, EmitAll(p.items, fin), m);
    match Writes(tac) {
      case None =>
        PlaceReadsHolds(me, c, st, live, ts, fin, s, m, slots);
        assert live - Defs(tac) == live;
      case Some(d) =>
        FindRegOnward(c, p.st, live, d, false);
        var q := FindReg(c, p.st, live, d, false);
        PlaceReadsHolds(me, c, st, live, ts, fin, s, m, slots);
        ExecItems(me, p.items, q.items, fin, m);
        WriteRoom(me, c, p.st, live, d, fin, s, m1, slots);
    }
  }

  /** Making room for a result changes no register. */
  lemma WriteRoom(
    me: Meaning, c: Choices, st: St, live: set<Temp>, d: Temp, fin: Final, s: State, m: Mach, slots: map<Temp, int>)
    requires Ok(st) && Match(s, m, st, fin, live, slots)
    requires FinalSlots(FindReg(c, st, live, d, false).st, slots)
    ensures
      var q := FindReg(c, st, live, d, false);
      var m' := Exec(me, EmitAll(q.items, fin), m);
      Match(s, m', q.st, fin, live - {d}, slots) && m'.regs == m.regs
  {
    if InReg(st, d) {
      EmitNil(fin);
      ExecNil(me, m);
    } else {
      FindRegHolds(me, c, st, live, d, false, fin, s, m, slots);
    }
  }

  // ----- running the instruction -----

  /** The instruction's own write disturbs no temporary live after it.  A copy between
      temporaries of one register is not emitted, and a result that is dead after a call
      is overwritten by the reloads. */
  ghost predicate WriteSpared(tac: Tac, st: St, fin: Final, liveOut: set<Temp>) {
    match Writes(tac)
    case None => true
    case Some(d) =>
      || (tac.Call? && d !in liveOut)
      || (tac.Unary? && tac.op1 == Assign && RegOf(fin, d) == RegOf(fin, tac.src1))
      || Spares(fin, d, st, liveOut)
  }

  /** Writing the register of d disturbs no other live temporary. */
  lemma DefineHolds(
    st: St, fin: Final, m: Mach, m': Mach, temps: map<Temp, int>, d: Temp, v: int,
    live: set<Temp>, liveOut: set<Temp>, slots: map<Temp, int>)
    requires InReg(st, d) && HoldAll(st, fin, m, temps, live - {d}, slots)
    requires liveOut - {d} <= live && Spares(fin, d, st, liveOut)
    requires m'.frame == m.frame && m'.regs == m.regs[RegOf(fin, d) := v]
    ensures HoldAll(st, fin, m', temps[d := v], liveOut, slots)
  {
    forall u | u in liveOut ensures Holds(st, fin, m', u, Val(temps[d := v], u), slots) {
      if u != d {
        assert Holds(st, fin, m, u, Val(temps, u), slots);
      }
    }
  }

  lemma PlainHolds(
    me: Meaning, st: St, tac: Tac, fin: Final, live: set<Temp>, liveOut: set<Temp>,
    s: State, m: Mach, slots: map<Temp, int>)
    requires !tac.Call? && !tac.Parm? && WriteSpared(tac, st, fin, liveOut)
    requires Writes(tac).Some? ==> InReg(st, Writes(tac).value)
    requires live == liveOut - Defs(tac) + Uses(tac)
    requires Operands(tac, s, m, st, fin, live, slots)
    ensures Match(Step(me, tac, s), Exec(me, Emit(Plain(tac), fin), m), st, fin, liveOut, slots)
  {
    var code := Emit(Plain(tac), fin);
    var s' := Step(me, tac, s);
    var e := Apply(me, tac, TempVals(s.temps, Reads(tac)), s.args, s.world);
    assert e.args == s.args;
    if code == [] {
      assert tac.Unary? && tac.op1 == Assign;
      var d := tac.dst;
      assert Reads(tac) == [tac.src1];
      assert RegVals(m.regs, RegsOf(fin, Reads(tac)))[0] == TempVals(s.temps, Reads(tac))[0];
      forall u | u in liveOut ensures Holds(st, fin, m, u, Val(s'.temps, u), slots) {
        if u != d { assert Holds(st, fin, m, u, Val(s.temps, u), slots); }
      }
    } else {
      ExecOne(me, code[0], m);
      var m' := Exec1(me, code[0], m);
      var e2 := Apply(me, tac, TempVals(s.temps, Reads(tac)), [], s.world);
      assert e2.result == e.result && e2.world == e.world;
      match Writes(tac) {
        case None =>
          assert forall u :: u in liveOut ==> u in live - Defs(tac);
          assert forall u :: u in liveOut ==> Holds(st, fin, m, u, Val(s.temps, u), slots);
        case Some(d) =>
          DefineHolds(st, fin, m, m', s.temps, d, e.result, live, liveOut, slots);
      }
    }
  }

  lemma ParmHolds(
    me: Meaning, st: St, tac: Tac, fin: Final, live: set<Temp>, liveOut: set<Temp>,
    s: State, m: Mach, slots: map<Temp, int>)
    requires tac.Parm? && live == liveOut + Uses(tac)
    requires Operands(tac, s, m, st, fin, live, slots)
    ensures
      Match(Step(me, tac, s), Exec(me, Emit(ParmAt(tac, st.frame.actual), fin), m),
            st.(frame := AddActual(st.frame)), fin, liveOut, slots)
  {
    var st' := st.(frame := AddActual(st.frame));
    var k := st.frame.actual;
    var a := ArgStore(RegOf(fin, tac.src), k);
    ExecOne(me, a, m);
    var m' := Exec1(me, a, m);
    var s' := Step(me, tac, s);
    assert RegVals(m.regs, RegsOf(fin, Reads(tac)))[0] == TempVals(s.temps, Reads(tac))[0];
    assert AreaArgs(m'.area, |s'.args|) == s'.args by {
      forall i | 0 <= i < |s'.args| ensures AreaArgs(m'.area, |s'.args|)[i] == s'.args[i] {
        if i < |s.args| { assert AreaArgs(m.area, |s.args|)[i] == s.args[i]; }
      }
    }
    assert live - Defs(tac) == live;
    forall u | u in liveOut ensures Holds(st', fin, m', u, Val(s'.temps, u), slots) {
      assert Holds(st, fin, m, u, Val(s.temps, u), slots);
    }
  }

  // ----- saving and restoring around a call, saving at the end of a block -----

  ghost predicate HaveSlots(ts: seq<Temp>, slots: map<Temp, int>) {
    Injective(slots) && forall t :: t in ts ==> t in slots
  }

  ghost function Stored(me: Meaning, fin: Final, ts: seq<Temp>, slots: map<Temp, int>, m: Mach): Mach {
    Exec(me, StoreAll(fin, WithSlots(slots, ts)), m)
  }

  ghost function Loaded(me: Meaning, fin: Final, ts: seq<Temp>, slots: map<Temp, int>, m: Mach): Mach {
    Exec(me, LoadAll(fin, WithSlots(slots, ts)), m)
  }

  /** Storing a list of temporaries writes exactly their own slots. */
  lemma {:induction false} StoreAllEffect(
    me: Meaning, fin: Final, ts: seq<Temp>, slots: map<Temp, int>, m: Mach)
    requires HaveSlots(ts, slots)
    ensures
      var m' := Stored(me, fin, ts, slots, m);
      && m' == m.(frame := m'.frame)
      && forall t :: t in slots ==>
           Val(m'.frame, slots[t]) == if t in ts then Val(m.regs, RegOf(fin, t)) else Val(m.frame, slots[t])
    decreases |ts|
  {
    if ts != [] {
      var front, t := ts[..|ts| - 1], ts[|ts| - 1];
      assert t in ts;
      StoreAllEffect(me, fin, front, slots, m);
      StoredSnoc(me, fin, ts, slots, m);
      hide Stored;
      assert forall u :: u in ts <==> u in front || u == t;
    }
  }

  lemma StoredSnoc(me: Meaning, fin: Final, ts: seq<Temp>, slots: map<Temp, int>, m: Mach)
    requires ts != [] && ts[|ts| - 1] in slots
    ensures
      var t, m1 := ts[|ts| - 1], Stored(me, fin, ts[..|ts| - 1], slots, m);
      Stored(me, fin, ts, slots, m) == m1.(frame := m1.frame[slots[t] := Val(m1.regs, RegOf(fin, t))])
  {
    hide Exec;
    var front, t := ts[..|ts| - 1], ts[|ts| - 1];
    var a := SlotStore(RegOf(fin, t), slots[t]);
    assert StoreAll(fin, WithSlots(slots, ts)) == StoreAll(fin, WithSlots(slots, front)) + [a];
    ExecConcat(me, StoreAll(fin, WithSlots(slots, front)), [a], m);
    ExecOne(me, a, Stored(me, fin, front, slots, m));
  }

  /** Temporaries that share a register have the same value in their slots. */
  ghost predicate Consistent(fin: Final, ts: seq<Temp>, slots: map<Temp, int>, m: Mach) {
    forall t, u :: t in ts && u in ts && t in slots && u in slots && RegOf(fin, t) == RegOf(fin, u) ==>
      Val(m.frame, slots[t]) == Val(m.frame, slots[u])
  }

  /** Loading a list of temporaries writes exactly their own registers. */
  lemma {:induction false} LoadAllEffect(
    me: Meaning, fin: Final, ts: seq<Temp>, slots: map<Temp, int>, m: Mach)
    requires HaveSlots(ts, slots) && Consistent(fin, ts, slots, m)
    ensures
      var m' := Loaded(me, fin, ts, slots, m);
      && m' == m.(regs := m'.regs)
      && (forall t :: t in ts ==> Val(m'.regs, RegOf(fin, t)) == Val(m.frame, slots[t]))
      && forall r :: (forall t :: t in ts ==> RegOf(fin, t) != r) ==> Val(m'.regs, r) == Val(m.regs, r)
    decreases |ts|
  {
    if ts != [] {
      var front, t := ts[..|ts| - 1], ts[|ts| - 1];
      assert t in ts;
      LoadAllEffect(me, fin, front, slots, m);
      LoadedSnoc(me, fin, ts, slots, m);
      hide Loaded;
      assert forall u :: u in ts <==> u in front || u == t;
    } else {
      ExecNil(me, m);
    }
  }

  lemma LoadedSnoc(me: Meaning, fin: Final, ts: seq<Temp>, slots: map<Temp, int>, m: Mach)
    requires ts != [] && ts[|ts| - 1] in slots
    ensures
      var t, m1 := ts[|ts| - 1], Loaded(me, fin, ts[..|ts| - 1], slots, m);
      Loaded(me, fin, ts, slots, m) == m1.(regs := m1.regs[RegOf(fin, t) := Val(m1.frame, slots[t])])
  {
    hide Exec;
    var front, t := ts[..|ts| - 1], ts[|ts| - 1];
    var a := SlotLoad(RegOf(fin, t), slots[t]);
    assert LoadAll(fin, WithSlots(slots, ts)) == LoadAll(fin, WithSlots(slots, front)) + [a];
    ExecConcat(me, LoadAll(fin, WithSlots(slots, front)), [a], m);
    ExecOne(me, a, Loaded(me, fin, front, slots, m));
  }

  lemma SameSlots(off: map<Temp, int>, slots: map<Temp, int>, ts: seq<Temp>)
    requires Extends(off, slots) && forall t :: t in ts ==> t in off
    ensures WithSlots(off, ts) == WithSlots(slots, ts)
  {
    forall i | 0 <= i < |ts| ensures WithSlots(off, ts)[i] == WithSlots(slots, ts)[i] {
      assert ts[i] in ts;
    }
  }

  /** The call itself and the move of its result. */
  ghost function AfterCall(me: Meaning, f: Frame, fin: Final, tac: Tac, m: Mach): Mach
    requires tac.Call?
  {
    var func := match tac.callee case Direct(_) => 0 case Indirect(f) => RegOf(fin, f);
    var m1 := Exec1(me, Jal(tac.callee, func, Pending(f)), m);
    match tac.ret case None => m1 case Some(d) => Exec1(me, MoveV0(RegOf(fin, d)), m1)
  }

  lemma CallCode(me: Meaning, f: Frame, fin: Final, tac: Tac, saved: seq<Temp>, slots: map<Temp, int>, m: Mach)
    requires tac.Call?
    ensures
      var item := CallAt(tac, WithSlots(slots, saved), Pending(f));
      Exec(me, Emit(item, fin), m)
        == Loaded(me, fin, saved, slots, AfterCall(me, f, fin, tac, Stored(me, fin, saved, slots, m)))
  {
    hide Exec1;
    var saves := WithSlots(slots, saved);
    var func := match tac.callee case Direct(_) => 0 case Indirect(f) => RegOf(fin, f);
    var jal := [Jal(tac.callee, func, Pending(f))];
    var move: seq<Asm> := match tac.ret case None => [] case Some(d) => [MoveV0(RegOf(fin, d))];
    var stores, loads := StoreAll(fin, saves), LoadAll(fin, saves);
    ExecConcat(me, stores + jal + move, loads, m);
    ExecConcat(me, stores + jal, move, m);
    ExecConcat(me, stores, jal, m);
    var m1 := Exec(me, stores, m);
    ExecOne(me, jal[0], m1);
    if tac.ret.Some? {
      ExecOne(me, move[0], Exec1(me, jal[0], m1));
    }
  }

  lemma CallValue(
    me: Meaning, st: St, tac: Tac, fin: Final, live: set<Temp>, s: State, m: Mach, m1: Mach, slots: map<Temp, int>)
    requires tac.Call? && Operands(tac, s, m, st, fin, live, slots) && m1 == m.(frame := m1.frame)
    ensures
      var s' := Step(me, tac, s);
      var m2 := AfterCall(me, st.frame, fin, tac, m1);
      && m2.world == s'.world && s'.args == [] && m2.frame == m1.frame
      && (tac.ret.Some? ==> Val(m2.regs, RegOf(fin, tac.ret.value)) == Val(s'.temps, tac.ret.value))
      && (forall u: Temp :: Some(u) != tac.ret ==> Val(s'.temps, u) == Val(s.temps, u))
  {
    if tac.callee.Indirect? {
      assert RegVals(m.regs, RegsOf(fin, Reads(tac)))[0] == TempVals(s.temps, Reads(tac))[0];
    }
  }

  /** What a call saves: the temporaries live after it that are in registers. */
  ghost predicate SavesFor(st: St, saved: seq<Temp>, liveOut: set<Temp>, ret: Option<Temp>) {
    forall t :: t in saved <==> t in liveOut && InReg(st, t) && Some(t) != ret
  }

  lemma CallHolds(
    me: Meaning, st: St, tac: Tac, fin: Final, saved: seq<Temp>, live: set<Temp>, liveOut: set<Temp>,
    s: State, m: Mach, slots: map<Temp, int>)
    requires tac.Call? && HaveSlots(saved, slots) && SavesFor(st, saved, liveOut, tac.ret)
    requires tac.ret.Some? ==> InReg(st, tac.ret.value)
    requires live == liveOut - Defs(tac) + Uses(tac) && WriteSpared(tac, st, fin, liveOut)
    requires Operands(tac, s, m, st, fin, live, slots)
    ensures
      var item := CallAt(tac, WithSlots(slots, saved), Pending(st.frame));
      var m' := Exec(me, Emit(item, fin), m);
      && HoldAll(st, fin, m', Step(me, tac, s).temps, liveOut, slots)
      && m'.world == Step(me, tac, s).world && Step(me, tac, s).args == []
  {
    hide Emit, Stored, Loaded, AfterCall, Step, Exec;
    var s' := Step(me, tac, s);
    CallCode(me, st.frame, fin, tac, saved, slots, m);
    StoreAllEffect(me, fin, saved, slots, m);
    var m1 := Stored(me, fin, saved, slots, m);
    CallValue(me, st, tac, fin, live, s, m, m1, slots);
    var m2 := AfterCall(me, st.frame, fin, tac, m1);
    forall t | t in liveOut && Some(t) != tac.ret ensures Holds(st, fin, m, t, Val(s.temps, t), slots) {
      assert t in live - Defs(tac);
    }
    LoadAllEffect(me, fin, saved, slots, m2);
    var m' := Loaded(me, fin, saved, slots, m2);
    forall u | u in liveOut ensures Holds(st, fin, m', u, Val(s'.temps, u), slots) {
      if Some(u) != tac.ret {
        assert Holds(st, fin, m, u, Val(s.temps, u), slots);
      } else {
        assert forall t :: t in saved ==> RegOf(fin, t) != RegOf(fin, u);
      }
    }
  }

  // ----- one instruction, whole -----

  lemma AllocTacGrows(c: Choices, st: St, live: set<Temp>, liveOut: set<Temp>, tac: Tac)
    requires Ok(st)
    ensures
      var p, q := PlaceOperands(c, st, live, tac).st, AllocTac(c, st, live, liveOut, tac).st;
      && Ok(q) && |q.regVar| == |st.regVar|
      && Extends(st.frame.off, p.frame.off) && Extends(p.frame.off, q.frame.off) && Extends(st.frame.off, q.frame.off)
      && q.regVar == p.regVar && q.tempReg == p.tempReg
  {
    hide PlaceOperands;
    PlaceOperandsOnward(c, st, live, tac);
    var p := PlaceOperands(c, st, live, tac).st;
    if tac.Call? {
      FindSlotsOk(FinishActual(p.frame), Saved(p, c.order(liveOut), tac.ret));
    }
  }

  lemma AllocCallHolds(
    me: Meaning, c: Choices, st: St, live: set<Temp>, liveOut: set<Temp>, tac: Tac, fin: Final,
    s: State, m: Mach, slots: map<Temp, int>)
    requires Ok(st) && Enumerates(c) && tac.Call? && (tac.ret.Some? ==> InReg(st, tac.ret.value))
    requires live == liveOut - Defs(tac) + Uses(tac) && WriteSpared(tac, st, fin, liveOut)
    requires Operands(tac, s, m, st, fin, live, slots)
    requires Injective(slots)
    requires Extends(FindSlots(FinishActual(st.frame), Saved(st, c.order(liveOut), tac.ret)).off, slots)
    ensures
      var saved := Saved(st, c.order(liveOut), tac.ret);
      var st' := st.(frame := FindSlots(FinishActual(st.frame), saved));
      var item := CallAt(tac, WithSlots(st'.frame.off, saved), Pending(st.frame));
      Match(Step(me, tac, s), Exec(me, Emit(item, fin), m), st', fin, liveOut, slots)
  {
    hide Emit, Exec, Step, WriteSpared, FindSlots;
    var saved := Saved(st, c.order(liveOut), tac.ret);
    var f := FinishActual(st.frame);
    FindSlotsOk(f, saved);
    SameSlots(FindSlots(f, saved).off, slots, saved);
    CallHolds(me, st, tac, fin, saved, live, liveOut, s, m, slots);
    var st' := st.(frame := FindSlots(f, saved));
    var s' := Step(me, tac, s);
    var m' := Exec(me, Emit(CallAt(tac, WithSlots(slots, saved), Pending(st.frame)), fin), m);
    forall u | u in liveOut ensures Holds(st', fin, m', u, Val(s'.temps, u), slots) {
      assert Holds(st, fin, m', u, Val(s'.temps, u), slots);
    }
  }

  lemma FinalTrans(st: St, st': St, slots: map<Temp, int>)
    requires Extends(st.frame.off, st'.frame.off) && FinalSlots(st', slots)
    ensures FinalSlots(st, slots)
  {
  }

  /** No write of one instruction's code disturbs a temporary that is still needed. */
  ghost predicate TacSpared(c: Choices, st: St, live: set<Temp>, liveOut: set<Temp>, tac: Tac, fin: Final)
    requires |st.regVar| > 0
  {
    && ReadsSpared(c, st, live, Reads(tac), fin)
    && WriteSpared(tac, PlaceOperands(c, st, live, tac).st, fin, liveOut)
  }

  /** One instruction of the simulation. */
  lemma AllocTacHolds(
    me: Meaning, c: Choices, st: St, live: set<Temp>, liveOut: set<Temp>, tac: Tac, fin: Final,
    s: State, m: Mach, slots: map<Temp, int>)
    requires Ok(st) && Enumerates(c) && TacSpared(c, st, live, liveOut, tac, fin)
    requires live == liveOut - Defs(tac) + Uses(tac)
    requires Match(s, m, st, fin, live, slots) && FinalSlots(AllocTac(c, st, live, liveOut, tac).st, slots)
    ensures
      var p := AllocTac(c, st, live, liveOut, tac);
      Match(Step(me, tac, s), Exec(me, EmitAll(p.items, fin), m), p.st, fin, liveOut, slots)
  {
    hide PlaceOperands, Exec, EmitAll, ReadsSpared, WriteSpared, Step, Match, FinalSlots, Emit, Extends, FrameOk;
    PlaceOperandsOnward(c, st, live, tac);
    AllocTacGrows(c, st, live, liveOut, tac);
    var p := PlaceOperands(c, st, live, tac);
    var q := AllocTac(c, st, live, liveOut, tac);
    FinalTrans(p.st, q.st, slots);
    PlaceOperandsHolds(me, c, st, live, tac, fin, s, m, slots);
    var item := ItemFor(c, p.st, liveOut, tac);
    ExecItems(me, p.items, [item], fin, m);
    EmitOne(item, fin);
    RunItem(me, c, p.st, live, liveOut, tac, fin, s, Exec(me, EmitAll(p.items, fin), m), slots);
  }

  lemma RunItem(
    me: Meaning, c: Choices, st: St, live: set<Temp>, liveOut: set<Temp>, tac: Tac, fin: Final,
    s: State, m: Mach, slots: map<Temp, int>)
    requires Ok(st) && Enumerates(c) && (Writes(tac).Some? ==> InReg(st, Writes(tac).value))
    requires live == liveOut - Defs(tac) + Uses(tac) && WriteSpared(tac, st, fin, liveOut)
    requires Operands(tac, s, m, st, fin, live, slots)
    requires FinalSlots(FrameAfter(c, st, liveOut, tac), slots)
    ensures
      Match(Step(me, tac, s), Exec(me, Emit(ItemFor(c, st, liveOut, tac), fin), m),
            FrameAfter(c, st, liveOut, tac), fin, liveOut, slots)
  {
    if tac.Call? {
      AllocCallHolds(me, c, st, live, liveOut, tac, fin, s, m, slots);
    } else if tac.Parm? {
      ParmHolds(me, st, tac, fin, live, liveOut, s, m, slots);
    } else {
      PlainHolds(me, st, tac, fin, live, liveOut, s, m, slots);
    }
  }
}
