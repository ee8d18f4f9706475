/** Where the back end goes wrong, for every number of registers: operands that displace
    each other, and the load of a block's tested value ahead of the saves. */
module AllocFailures {
  import opened Options
  import opened Counting
  import opened Tac
  import opened Asm
  import opened Frame
  import opened Liveness
  import opened AllocSpec
  import opened AllocProof
  import opened AllocBlockProof
  import opened AllocGraphProof
  import opened AllocExact

  // ----- register pressure: when the second operand displaces the first -----

  /** Making room for another temporary takes the register of a: none is free, and the
      first temporary with a slot, or else the random victim, is a. */
  predicate Displaces(c: Choices, st: St, live: set<Temp>, a: Temp)
    requires |st.regVar| > 0 && InReg(st, a)
  {
    && FirstFree(st, live, 0) == |st.regVar|
    && st.tempReg[a] ==
       if FirstFixed(st, 0) < |st.regVar| then FirstFixed(st, 0) else c.random(st.drawn) % |st.regVar|
  }

  lemma DisplacedIff(c: Choices, st: St, live: set<Temp>, a: Temp, b: Temp)
    requires Ok(st) && a != b && a in live && InReg(st, a) && !InReg(st, b)
    ensures InReg(FindReg(c, st, live, b, true).st, a) <==> !Displaces(c, st, live, a)
    ensures
      var fin := FindReg(c, st, live, b, true).st.tempReg;
      RegOf(fin, a) == RegOf(fin, b) <==> Displaces(c, st, live, a)
  {
    hide FrameOk;
    FindRegBinds(c, st, live, b, true);
    assert !Free(st, live, st.tempReg[a]);
  }

  /** The first operand's register holds its value when the instruction runs. */
  ghost predicate FirstKept(
    me: Meaning, c: Choices, st: St, live: set<Temp>, a: Temp, b: Temp, fin: Final, s: State, m: Mach)
    requires |st.regVar| > 0
  {
    var q := FindReg(c, st, live, b, true);
    Val(Exec(me, EmitAll(q.items, fin), m).regs, RegOf(fin, a)) == Val(s.temps, a)
  }

  /** Reading operand b after operand a leaves a's value in a's register, for every store
      and machine that match, if and only if a and b end the block in different registers. */
  lemma OperandClashExact(c: Choices, st: St, live: set<Temp>, a: Temp, b: Temp, fin: Final)
    requires Ok(st) && Enumerates(c) && Counted(st.frame)
    requires a != b && a in live && b in live && InReg(st, a) && !InReg(st, b)
    ensures
      RegOf(fin, a) != RegOf(fin, b) <==>
        forall me: Meaning, s: State, m: Mach, slots: map<Temp, int> ::
          Match(s, m, st, fin, live, slots) && FinalSlots(FindReg(c, st, live, b, true).st, slots) ==>
            FirstKept(me, c, st, live, a, b, fin, s, m)
  {
    hide FindReg, FrameOk, Exec, EmitAll, Injective;
    var q := FindReg(c, st, live, b, true);
    if RegOf(fin, a) != RegOf(fin, b) {
      forall me: Meaning, s: State, m: Mach, slots: map<Temp, int> |
        Match(s, m, st, fin, live, slots) && FinalSlots(q.st, slots)
        ensures FirstKept(me, c, st, live, a, b, fin, s, m)
      {
        LoadRegs(me, c, st, live, b, fin, m);
        assert Holds(st, fin, m, a, Val(s.temps, a), slots);
      }
    } else {
      var me, s, m, slots := ClashWitness(c, st, live, a, b, fin);
    }
  }

  lemma ClashWitness(c: Choices, st: St, live: set<Temp>, a: Temp, b: Temp, fin: Final)
    returns (me: Meaning, s: State, m: Mach, slots: map<Temp, int>)
    requires Ok(st) && Enumerates(c) && Counted(st.frame)
    requires a in live && InReg(st, a) && !InReg(st, b) && RegOf(fin, a) == RegOf(fin, b)
    ensures Match(s, m, st, fin, live, slots) && FinalSlots(FindReg(c, st, live, b, true).st, slots)
    ensures !FirstKept(me, c, st, live, a, b, fin, s, m)
  {
    hide FindReg, FrameOk, Exec, EmitAll, Match, FinalSlots;
    FindRegBinds(c, st, live, b, true);
    var args := ZeroArgs(st.frame);
    slots := MoreSlots(c, FindReg(c, st, live, b, true).st, live);
    var w, r := World(map[], 0, []), RegOf(fin, b);
    me, s, m := Ones(), State(OnesIn(st, fin, live, r), args, w), Mach(map[r := 1], map[], map[], 0, w);
    OnesMatch(st, fin, live, r, args, w, slots);
    LoadRegs(me, c, st, live, b, fin, m);
  }

  /** The allocator at the start of a function with the given parameters. */
  function Start(regs: nat, params: map<Temp, int>): St {
    St(seq(regs, _ => None), map[], Reset(params), 0)
  }

  lemma StartOk(n: nat)
    requires n > 0
    ensures Ready(Start(n, map[])) && forall t :: !InReg(Start(n, map[]), t)
  {
  }

  ghost function UpTo(n: nat): set<Temp> {
    NumbersBelow(n + 1)
  }

  /** Temporaries 0..k-1 have been read, one after the other, while 0..n are live. */
  ghost function Read(c: Choices, n: nat, k: nat): (st: St)
    requires k <= n && n > 0
    ensures |st.regVar| == n
  {
    if k == 0 then Start(n, map[])
    else
      var p := Read(c, n, k - 1);
      FindReg(c, p, UpTo(n), k - 1, true).st
  }

  lemma FirstFreeIs(st: St, live: set<Temp>, r: nat)
    requires r <= |st.regVar| && (r < |st.regVar| ==> Free(st, live, r))
    requires forall j :: 0 <= j < r ==> !Free(st, live, j)
    ensures FirstFree(st, live, 0) == r
  {
    hide FirstFree, Free;
  }

  /** Temporaries 0..k-1 fill the first registers in order, and each has a slot. */
  ghost predicate Filled(st: St, n: nat, k: nat) {
    && Ready(st) && |st.regVar| == n && k <= n
    && (forall i: nat :: i < n ==> st.regVar[i] == if i < k then Some(i) else None)
    && (forall i: nat :: i < k ==> i in st.frame.off && i in st.tempReg && st.tempReg[i] == i)
  }

  lemma FillStep(c: Choices, p: St, n: nat, k: nat)
    requires Filled(p, n, k) && k < n
    ensures Filled(FindReg(c, p, UpTo(n), k, true).st, n, k + 1)
  {
    hide FrameOk;
    var live := UpTo(n);
    forall j: nat | j < k ensures !Free(p, live, j) {}
    FirstFreeIs(p, live, k);
    hide UpTo;
    assert !InReg(p, k);
    PlaceBinds(p, k, k, true, []);
    FindSlotOk(p.frame, k);
    assert FindReg(c, p, live, k, true) == Place(p, k, k, true, []);
  }

  lemma StartFilled(n: nat)
    requires n > 0
    ensures Filled(Start(n, map[]), n, 0)
  {
    StartOk(n);
  }

  lemma {:induction false} ReadFills(c: Choices, n: nat, k: nat)
    requires k <= n && n > 0
    ensures Filled(Read(c, n, k), n, k)
  {
    hide Filled, FindReg, UpTo;
    if k == 0 {
      StartFilled(n);
    } else {
      ReadFills(c, n, k - 1);
      FillStep(c, Read(c, n, k - 1), n, k - 1);
    }
  }

  /** With any number of registers, all holding live temporaries, reading operand n after
      operand 0 displaces 0; the instruction then finds the value of n in both. */
  lemma FullClashes(c: Choices, n: nat) returns (me: Meaning, s: State, m: Mach, slots: map<Temp, int>)
    requires n > 0 && Enumerates(c)
    ensures
      var st, live := Read(c, n, n), UpTo(n);
      var q := FindReg(c, st, live, n, true);
      && InReg(st, 0) && !InReg(st, n) && Displaces(c, st, live, 0)
      && Match(s, m, st, q.st.tempReg, live, slots) && FinalSlots(q.st, slots)
      && !FirstKept(me, c, st, live, 0, n, q.st.tempReg, s, m)
  {
    hide FindReg, Read, Match, FinalSlots, FirstKept;
    ReadFills(c, n, n);
    var st, live := Read(c, n, n), UpTo(n);
    FirstFreeIs(st, live, n);
    assert Fixed(st, 0) && FirstFixed(st, 0) == 0;
    DisplacedIff(c, st, live, 0, n);
    assert st.frame.actual == ArgOffset(0);
    me, s, m, slots := ClashWitness(c, st, live, 0, n, FindReg(c, st, live, n, true).st.tempReg);
  }

  // ----- the load of the tested value, emitted before the saves -----

  const EndCodeTacs: seq<Tac> := [Unary(Neg, 1, 2)]

  /** Negate parameter 2 into 1, test parameter 3, return parameter 2 if it is zero. */
  const EndGraph: seq<Block> := [
    Block(EndCodeTacs, ByBeqz, Some(3), 1, 2), Block([], ByReturn, Some(2), 0, 0), Block([], ByReturn, None, 0, 0)]

  const EndParams: map<Temp, int> := map[2 := 4, 3 := 8]

  const Both: set<Temp> := {2, 3}

  const EndSets: Sets := [Both, Both, Both]

  lemma EndDefUse()
    ensures BlockDefUse(EndGraph[0]) == DefUse({1}, Both)
    ensures BlockDefUse(EndGraph[1]) == DefUse({}, {2}) && BlockDefUse(EndGraph[2]) == DefUse({}, {})
  {
    assert Scan(EndCodeTacs, 0) == DefUse({}, {});
    assert Uses(EndCodeTacs[0]) == {2};
    assert Scan(EndCodeTacs, 1) == DefUse({1}, {2});
  }

  /** Its liveness, as the analysis finds it. */
  lemma EndGraphSolution()
    ensures WellFormedGraph(EndGraph) && Solution(EndGraph, EndSets, EndSets) && Least(EndGraph, EndSets, EndSets)
  {
    hide BlockDefUse, Scan;
    EndDefUse();
    var g := EndGraph;
    forall i | 0 <= i < |g| ensures Solves(g, EndSets, EndSets, i) {
      assert i == 0 || i == 1 || i == 2;
    }
    forall i2: Sets, o2: Sets | AllClosed(g, i2, o2) ensures Below(EndSets, i2) && Below(EndSets, o2) {
      assert Closed(g, i2, o2, 0) && Closed(g, i2, o2, 1) && Closed(g, i2, o2, 2);
      assert Both <= i2[0];
      assert Both <= o2[1] && Both <= o2[2] && Both <= i2[1] && Both <= i2[2] && Both <= o2[0];
    }
  }

  lemma EndStartOk(n: nat)
    requires n > 1
    ensures Ready(Start(n, EndParams)) && Clear(Start(n, EndParams)) == Start(n, EndParams)
    ensures forall t :: !InReg(Start(n, EndParams), t)
  {
  }

  lemma FindSlotsSame(f: Frame, ts: seq<Temp>)
    requires forall t :: t in ts ==> t in f.off
    ensures FindSlots(f, ts) == f
    decreases |ts|
  {
    if ts != [] {
      assert ts[|ts| - 1] in ts;
      FindSlotsSame(f, ts[..|ts| - 1]);
    }
  }

  /** The allocator after the first block's instruction: 2 in register 0, 1 in register 1. */
  function EndSt(n: nat): St
    requires n > 1
  {
    Bind(Bind(Start(n, EndParams), 0, 2), 1, 1)
  }

  lemma EndPrefix(c: Choices, n: nat)
    requires n > 1
    ensures
      AllocPrefix(c, Start(n, EndParams), EndCodeTacs, Both, 1)
        == Placed(EndSt(n), [Reload(2, 4), Plain(Unary(Neg, 1, 2))])
  {
    var st, tac := Start(n, EndParams), EndCodeTacs[0];
    EndStartOk(n);
    LiveAtEnd(EndCodeTacs, Both);
    LiveAtStep(EndCodeTacs, 0, Both);
    assert LiveAt(EndCodeTacs, 0, Both) == Both && LiveAt(EndCodeTacs, 1, Both) == Both;
    FirstFreeIs(st, Both, 0);
    assert [2][..0] == [];
    var p := Bind(st, 0, 2);
    assert PlaceReads(c, st, Both, [2]) == Placed(p, [Reload(2, 4)]);
    assert !Free(p, Both, 0);
    FirstFreeIs(p, Both, 1);
    assert FindReg(c, p, Both, 1, false) == Placed(EndSt(n), []);
    assert PlaceOperands(c, st, Both, tac) == Placed(EndSt(n), [Reload(2, 4)] + []);
    assert AllocTac(c, st, Both, Both, tac) == Placed(EndSt(n), [Reload(2, 4)] + [] + [Plain(tac)]);
  }

  lemma SavedOnly(c: Choices, st: St)
    requires Enumerates(c)
    ensures forall t :: t in Saved(st, c.order(Both), None) ==> t in Both
  {
  }

  /** The first block: the load of 3 overwrites 2, which is then saved. */
  lemma EndFirst(me: Meaning, c: Choices, n: nat, w: World) returns (m': Mach)
    requires n > 1 && Enumerates(c)
    ensures
      var a := AllocBlock(c, Start(n, EndParams), EndGraph[0], Both);
      && a.st.frame == Reset(EndParams) && Ok(a.st) && |a.st.regVar| == n
      && MachStep(me, EndGraph[0], a, Mach(map[], map[4 := 1], map[], 0, w)) == MAt(1, m')
    ensures m'.world == w && Val(m'.frame, 4) == 0
  {
    hide Exec, EmitAll, FrameOk, FindSlots, BlockCode, EndCode, StoreAll;
    var st, b := Start(n, EndParams), EndGraph[0];
    EndStartOk(n);
    EndPrefix(c, n);
    var p := Placed(EndSt(n), [Reload(2, 4), Plain(Unary(Neg, 1, 2))]);
    assert EndLive(b, Both) == Both;
    var a := AllocBlock(c, st, b, Both);
    hide AllocPrefix;
    assert a == EndBlock(c, p, b, Both);
    PrefixOk(c, st, EndCodeTacs, Both, 1);
    EndGrows(c, p, b, Both);
    SavedOnly(c, p.st);
    FindSlotsSame(p.st.frame, Saved(p.st, c.order(Both), None));
    var m := Mach(map[], map[4 := 1], map[], 0, w);
    BlockCodeIs(c, p, b, Both);
    var code := EmitAll(p.items, a.st.tempReg);
    ExecConcat(me, code, EndCode(p, a, b), m);
    var m1 := EndBody(me, a.st.tempReg, m);
    OkInjective(a.st);
    EndEffect(me, c, p, b, Both, m1, a.st.frame.off);
    EndVarReg(c, p, b, Both);
    m' := Exec(me, BlockCode(a), m);
  }

  lemma EndBody(me: Meaning, fin: Final, m: Mach) returns (m1: Mach)
    requires fin == map[2 := 0, 1 := 1, 3 := 0]
    ensures m1 == Exec(me, EmitAll([Reload(2, 4), Plain(Unary(Neg, 1, 2))], fin), m)
    ensures m1.frame == m.frame && m1.world == m.world
  {
    hide Exec;
    var x, y := Reload(2, 4), Plain(Unary(Neg, 1, 2));
    assert [x, y] == [x] + [y];
    EmitOne(x, fin);
    EmitSnoc([x], y, fin);
    var a, b := SlotLoad(0, 4), Op(Unary(Neg, 1, 2), RegsOf(fin, [2]), Some(1));
    assert EmitAll([x, y], fin) == [a, b];
    ExecTwo(me, a, b, m);
    m1 := Exec(me, EmitAll([x, y], fin), m);
  }

  /** The second block returns what it finds in the slot of 2. */
  lemma EndSecond(me: Meaning, c: Choices, st: St, m: Mach)
    requires Ok(st) && Enumerates(c) && st.frame == Reset(EndParams)
    ensures
      var a := AllocBlock(c, st, EndGraph[1], Both);
      && a.st.frame == Reset(EndParams) && Ok(a.st) && |a.st.regVar| == |st.regVar|
      && MachStep(me, EndGraph[1], a, m) == MReturned(Some(Val(m.frame, 4)), m.world)
  {
    hide Exec, FrameOk, FindSlots, BlockCode, EndCode, StoreAll;
    var b := EndGraph[1];
    ClearOk(st);
    assert EndLive(b, Both) == Both;
    var p := Placed(Clear(st), []);
    var a := AllocBlock(c, st, b, Both);
    assert a == EndBlock(c, p, b, Both);
    EndGrows(c, p, b, Both);
    SavedOnly(c, p.st);
    FindSlotsSame(p.st.frame, Saved(p.st, c.order(Both), None));
    BlockCodeIs(c, p, b, Both);
    EmitNil(a.st.tempReg);
    assert [] + EndCode(p, a, b) == EndCode(p, a, b);
    OkInjective(a.st);
    EndEffect(me, c, p, b, Both, m, a.st.frame.off);
    EndVarReg(c, p, b, Both);
  }

  lemma EndThird(c: Choices, st: St)
    requires Ok(st) && Enumerates(c) && st.frame == Reset(EndParams)
    ensures AllocBlock(c, st, EndGraph[2], Both).st.frame == Reset(EndParams)
  {
    var p := Placed(Clear(st), []);
    SavedOnly(c, p.st);
    FindSlotsSame(p.st.frame, Saved(p.st, c.order(Both), None));
    assert EndTemp(EndGraph[2]) == None;
    assert AllocBlock(c, st, EndGraph[2], Both) == EndBlock(c, p, EndGraph[2], Both);
  }

  lemma EndAllocs(c: Choices, n: nat)
    requires n > 1 && Enumerates(c)
    ensures
      var st := Start(n, EndParams);
      && SlotsOf(c, st, EndGraph, EndSets) == EndParams
      && AllocAll(c, st, EndGraph, EndSets)[0] == AllocBlock(c, st, EndGraph[0], Both)
      && AllocAll(c, st, EndGraph, EndSets)[1]
           == AllocBlock(c, AllocBlock(c, st, EndGraph[0], Both).st, EndGraph[1], Both)
  {
    hide AllocBlock, Ok;
    var st := Start(n, EndParams);
    var me, w := Ones(), World(map[], 0, []);
    var m1 := EndFirst(me, c, n, w);
    var st1 := AllocBlock(c, st, EndGraph[0], Both).st;
    EndSecond(me, c, st1, m1);
    var st2 := AllocBlock(c, st1, EndGraph[1], Both).st;
    EndThird(c, st2);
    StateAfter(c, st, EndGraph, EndSets, 0);
    StateAfter(c, st, EndGraph, EndSets, 1);
    StateAfter(c, st, EndGraph, EndSets, 2);
  }

  lemma EndRun(me: Meaning, w: World)
    ensures WellFormedGraph(EndGraph)
    ensures RunGraph(me, EndGraph, 2, At(0, State(map[2 := 1], [], w))) == Returned(Some(1), w)
  {
    EndGraphSolution();
    var s := State(map[2 := 1], [], w);
    assert EndCodeTacs[..0] == [] && Run(me, [], s) == s;
    assert Run(me, EndCodeTacs, s) == Step(me, EndCodeTacs[0], s);
    var s1 := Step(me, EndCodeTacs[0], s);
    assert RunGraph(me, EndGraph, 1, At(0, s)) == At(1, s1);
    assert BlockStep(me, EndGraph[1], s1) == Returned(Some(1), w);
  }

  /** A function of three blocks, with its liveness, for any number of registers from two
      on: the tested parameter 3 is loaded into register 0 over parameter 2, which is then
      saved, so that the function returns 0 instead of the 1 that it was given. */
  lemma EndLoadBreaks(me: Meaning, c: Choices, n: nat, w: World)
    requires n > 1 && Enumerates(c)
    ensures
      var st, g, sets := Start(n, EndParams), EndGraph, EndSets;
      var s, m := State(map[2 := 1], [], w), Mach(map[], map[4 := 1], map[], 0, w);
      && WellFormedGraph(g) && Solution(g, sets, sets) && Least(g, sets, sets) && Ready(st)
      && AtRest(s, m, sets[0], SlotsOf(c, st, g, sets))
      && RunGraph(me, g, 2, At(0, s)) == Returned(Some(1), w)
      && MachRun(me, g, AllocAll(c, st, g, sets), 2, MAt(0, m)) == MReturned(Some(0), w)
  {
    hide AllocBlock, RunGraph, MachStep, Solution, Least, Ok, SlotsOf, AllocAll;
    EndGraphSolution();
    EndStartOk(n);
    EndRun(me, w);
    EndAllocs(c, n);
    var st, g := Start(n, EndParams), EndGraph;
    var m := Mach(map[], map[4 := 1], map[], 0, w);
    var m1 := EndFirst(me, c, n, w);
    var allocs := AllocAll(c, st, g, EndSets);
    EndSecond(me, c, allocs[0].st, m1);
    assert MachRun(me, g, allocs, 1, MAt(0, m)) == MAt(1, m1);
  }
}
