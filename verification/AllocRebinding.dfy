/** A temporary that changes its register: functions of one assignment, for every number of
    registers from three on, whose code returns a wrong value. */
module AllocRebinding {
  import opened Options
  import opened Tac
  import opened Asm
  import opened Frame
  import opened Liveness
  import opened AllocSpec
  import opened AllocProof
  import opened AllocBlockProof
  import opened AllocGraphProof
  import opened AllocConditions
  import F = AllocFailures

  /** The code of i = i + x + y, with parameter i in temporary 1. */
  function Code(x: int, y: int): seq<Tac> {
    [LoadConst(2, Imm4(x)), Binary(Add, 3, 1, 2), LoadConst(4, Imm4(y)), Binary(Add, 5, 3, 4), Unary(Assign, 1, 5)]
  }

  /** The function that returns i afterwards. */
  function Graph(x: int, y: int): seq<Block> {
    [Block(Code(x, y), ByReturn, Some(1), 0, 0)]
  }

  const Params: map<Temp, int> := map[1 := 4]

  const Live: Sets := [{1}]

  /** The registers in which the temporaries end the block. */
  const Last: map<Temp, nat> := map[1 := 0, 2 := 0, 3 := 2, 4 := 0, 5 := 1]

  /** Its liveness, as the analysis finds it. */
  lemma GraphSolution(x: int, y: int)
    ensures WellFormedGraph(Graph(x, y)) && Solution(Graph(x, y), Live, Live) && Least(Graph(x, y), Live, Live)
  {
    var g, t := Graph(x, y), Code(x, y);
    assert Scan(t, 0) == DefUse({}, {});
    assert Scan(t, 1) == DefUse({2}, {});
    assert Scan(t, 2) == DefUse({2, 3}, {1});
    assert Scan(t, 3) == DefUse({2, 3, 4}, {1});
    assert Scan(t, 4) == DefUse({2, 3, 4, 5}, {1});
    assert Scan(t, 5) == DefUse({2, 3, 4, 5}, {1});
    assert BlockDefUse(g[0]) == DefUse({2, 3, 4, 5}, {1});
    hide BlockDefUse;
    assert Solves(g, Live, Live, 0);
    forall i2: Sets, o2: Sets | AllClosed(g, i2, o2) ensures Below(Live, i2) && Below(Live, o2) {
      assert Closed(g, i2, o2, 0);
    }
  }

  lemma LiveSets(x: int, y: int)
    ensures
      var t := Code(x, y);
      && LiveAt(t, 5, {1}) == {1} && LiveAt(t, 4, {1}) == {5} && LiveAt(t, 3, {1}) == {3, 4}
      && LiveAt(t, 2, {1}) == {3} && LiveAt(t, 1, {1}) == {1, 2} && LiveAt(t, 0, {1}) == {1}
  {
    var t := Code(x, y);
    LiveAtEnd(t, {1});
    LiveAtStep(t, 4, {1});
    LiveAtStep(t, 3, {1});
    LiveAtStep(t, 2, {1});
    LiveAtStep(t, 1, {1});
    LiveAtStep(t, 0, {1});
  }

  // ----- what the allocator does -----

  lemma {:induction false} ReadsInPlace(c: Choices, st: St, live: set<Temp>, ts: seq<Temp>)
    requires |st.regVar| > 0 && forall t :: t in ts ==> InReg(st, t)
    ensures PlaceReads(c, st, live, ts) == Placed(st, [])
    decreases |ts|
  {
    if ts != [] {
      ReadsInPlace(c, st, live, ts[..|ts| - 1]);
    }
  }

  /** With its operands in registers, a plain instruction writes the first free one. */
  lemma AllocWrite(c: Choices, st: St, live: set<Temp>, out: set<Temp>, tac: Tac, r: nat)
    requires !tac.Call? && !tac.Parm? && Writes(tac).Some? && !InReg(st, Writes(tac).value)
    requires forall t :: t in Reads(tac) ==> InReg(st, t)
    requires r < |st.regVar| && Free(st, live, r) && forall j :: 0 <= j < r ==> !Free(st, live, j)
    ensures AllocTac(c, st, live, out, tac) == Placed(Bind(st, r, Writes(tac).value), [Plain(tac)])
  {
    F.FirstFreeIs(st, live, r);
    ReadsInPlace(c, st, live, Reads(tac));
    assert FindReg(c, st, live, Writes(tac).value, false) == Placed(Bind(st, r, Writes(tac).value), []);
    assert PlaceOperands(c, st, live, tac) == Placed(Bind(st, r, Writes(tac).value), []);
  }

  /** The addition loads i into register 1 and writes register 2. */
  lemma AllocFirstAdd(c: Choices, st: St)
    requires |st.regVar| > 2 && InReg(st, 2) && st.tempReg[2] == 0 && 1 !in st.tempReg && 3 !in st.tempReg
    requires st.regVar[1].None? && st.regVar[2].None? && 1 in st.frame.off && st.frame.off[1] == 4
    ensures
      var tac := Binary(Add, 3, 1, 2);
      AllocTac(c, st, {1, 2}, {3}, tac) == Placed(Bind(Bind(st, 1, 1), 2, 3), [Reload(1, 4), Plain(tac)])
  {
    var tac, live := Binary(Add, 3, 1, 2), {1, 2};
    F.FirstFreeIs(st, live, 1);
    assert [1, 2][..1] == [1] && [1][..0] == [];
    var st1 := Bind(st, 1, 1);
    assert FindReg(c, st, live, 1, true) == Placed(st1, [Reload(1, 4)]);
    assert PlaceReads(c, st, live, [1]) == Placed(st1, [] + [Reload(1, 4)]);
    assert FindReg(c, st1, live, 2, true) == Placed(st1, []);
    assert PlaceReads(c, st, live, [1, 2]) == Placed(st1, [Reload(1, 4)] + []);
    F.FirstFreeIs(st1, live, 2);
    assert FindReg(c, st1, live, 3, false) == Placed(Bind(st1, 2, 3), []);
    assert PlaceOperands(c, st, live, tac) == Placed(Bind(st1, 2, 3), [Reload(1, 4)] + []);
  }

  lemma PrefixStep(c: Choices, st: St, tacs: seq<Tac>, end: set<Temp>, k: nat, p: Placed, q: Placed)
    requires |st.regVar| > 0 && k < |tacs| && AllocPrefix(c, st, tacs, end, k) == p
    requires AllocTac(c, p.st, LiveAt(tacs, k, end), LiveAt(tacs, k + 1, end), tacs[k]) == q
    ensures AllocPrefix(c, st, tacs, end, k + 1) == Placed(q.st, p.items + q.items)
  {
    hide AllocTac, LiveAt;
  }

  function Items(x: int, y: int): seq<Item> {
    var t := Code(x, y);
    [Plain(t[0]), Reload(1, 4), Plain(t[1]), Plain(t[2]), Plain(t[3]), Plain(t[4])]
  }

  /** What the first registers hold after k instructions. */
  function Held(k: nat): seq<Option<Temp>> {
    match k
    case 0 => []
    case 1 => [Some(2)]
    case 2 => [Some(2), Some(1), Some(3)]
    case 3 => [Some(4), Some(1), Some(3)]
    case 4 => [Some(4), Some(5), Some(3)]
    case _ => [Some(1), Some(5), Some(3)]
  }

  /** Temporary 1 is loaded into register 1, loses it while dead, and is bound to register 0
      at the end, where temporary 2 was when 1 was loaded. */
  function Bound(k: nat): map<Temp, nat> {
    match k
    case 0 => map[]
    case 1 => map[2 := 0]
    case 2 => map[2 := 0, 1 := 1, 3 := 2]
    case 3 => map[2 := 0, 1 := 1, 3 := 2, 4 := 0]
    case 4 => map[2 := 0, 1 := 1, 3 := 2, 4 := 0, 5 := 1]
    case _ => Last
  }

  /** The allocator after k instructions. */
  function After(n: nat, k: nat): (st: St)
    ensures |st.regVar| == n
    ensures forall i :: 0 <= i < n ==> st.regVar[i] == if i < |Held(k)| then Held(k)[i] else None
  {
    var held := seq(n, i requires 0 <= i < n => if i < |Held(k)| then Held(k)[i] else None);
    St(held, Bound(k), Reset(Params), 0)
  }

  /** The list elements for instruction k. */
  function Added(x: int, y: int, k: nat): seq<Item>
    requires k < 5
  {
    (if k == 1 then [Reload(1, 4)] else []) + [Plain(Code(x, y)[k])]
  }

  /** Every instruction but the addition of x binds what it writes. */
  lemma AfterNext(n: nat, x: int, y: int, k: nat)
    requires n > 2 && k < 5 && k != 1
    ensures
      var r, tac := if k == 3 then 1 else 0, Code(x, y)[k];
      Writes(tac).Some? && After(n, k + 1) == Bind(After(n, k), r, Writes(tac).value)
  {
    var r, tac := if k == 3 then 1 else 0, Code(x, y)[k];
    var st, st' := Bind(After(n, k), r, Writes(tac).value), After(n, k + 1);
    assert st.regVar == st'.regVar;
    assert st.tempReg == st'.tempReg;
  }

  lemma StepIs(c: Choices, n: nat, x: int, y: int, k: nat)
    requires n > 2 && k < 5
    ensures
      var t := Code(x, y);
      AllocTac(c, After(n, k), LiveAt(t, k, {1}), LiveAt(t, k + 1, {1}), t[k])
        == Placed(After(n, k + 1), Added(x, y, k))
  {
    hide AllocTac, LiveAt, FirstFree;
    var t, st := Code(x, y), After(n, k);
    LiveSets(x, y);
    var live, out := LiveAt(t, k, {1}), LiveAt(t, k + 1, {1});
    if k == 1 {
      AllocFirstAdd(c, st);
      assert After(n, 2) == Bind(Bind(st, 1, 1), 2, 3);
    } else {
      AfterNext(n, x, y, k);
      hide Code;
      AllocWrite(c, st, live, out, t[k], if k == 3 then 1 else 0);
    }
  }

  lemma {:induction false} Allocation(c: Choices, n: nat, x: int, y: int)
    requires n > 2
    ensures AllocPrefix(c, F.Start(n, Params), Code(x, y), {1}, 5) == Placed(After(n, 5), Items(x, y))
  {
    hide AllocTac, LiveAt, AllocPrefix, Bound;
    var t, st := Code(x, y), F.Start(n, Params);
    NoPrefix(c, n, t, {1});
    var p := [];
    for k := 0 to 5
      invariant AllocPrefix(c, st, t, {1}, k) == Placed(After(n, k), p)
      invariant p == Items(x, y)[..if k < 2 then k else k + 1]
    {
      StepIs(c, n, x, y, k);
      PrefixStep(c, st, t, {1}, k, Placed(After(n, k), p), Placed(After(n, k + 1), Added(x, y, k)));
      p := p + Added(x, y, k);
    }
  }

  lemma NoPrefix(c: Choices, n: nat, tacs: seq<Tac>, end: set<Temp>)
    requires n > 0
    ensures AllocPrefix(c, F.Start(n, Params), tacs, end, 0) == Placed(After(n, 0), [])
  {
    assert F.Start(n, Params).regVar == After(n, 0).regVar;
  }

  // ----- what the code does -----

  /** The code of the block: i is loaded over x. */
  function Emitted(x: int, y: int): seq<Asm> {
    var t := Code(x, y);
    [Op(t[0], [], Some(0)), SlotLoad(0, 4), Op(t[1], [0, 0], Some(2)),
     Op(t[2], [], Some(0)), Op(t[3], [2, 0], Some(1)), Op(t[4], [1], Some(0))]
  }

  lemma EmittedAt(x: int, y: int, k: nat)
    requires k < 6
    ensures Emit(Items(x, y)[k], Last) == [Emitted(x, y)[k]]
  {
    assert RegsOf(Last, []) == [] && RegsOf(Last, [1, 2]) == [0, 0];
    assert RegsOf(Last, [3, 4]) == [2, 0] && RegsOf(Last, [5]) == [1];
  }

  lemma EmittedAll(x: int, y: int)
    ensures EmitAll(Items(x, y), Last) == Emitted(x, y)
  {
    hide EmitAll, Emit, Emitted;
    var items := Items(x, y);
    EmitNil(Last);
    var code := [];
    for k := 0 to 6
      invariant EmitAll(items[..k], Last) == code && k == |code|
      invariant forall j :: 0 <= j < k ==> j < |Emitted(x, y)| && code[j] == Emitted(x, y)[j]
    {
      EmittedSize(x, y);
      EmittedAt(x, y, k);
      assert items[..k + 1] == items[..k] + [items[k]];
      EmitSnoc(items[..k], items[k], Last);
      code := code + [Emitted(x, y)[k]];
    }
    EmittedSize(x, y);
    assert items[..6] == items;
  }

  lemma EmittedSize(x: int, y: int)
    ensures |Emitted(x, y)| == 6
  {
  }

  lemma ExecCons(me: Meaning, a: Asm, code: seq<Asm>, m: Mach)
    ensures Exec(me, [a] + code, m) == Exec(me, code, Exec1(me, a, m))
  {
    assert ([a] + code)[1..] == code;
  }

  /** The sum that the code computes, from a frame that holds i. */
  lemma ExecEmitted(me: Meaning, x: int, y: int, m: Mach)
    ensures
      var i, m' := Val(m.frame, 4), Exec(me, Emitted(x, y), m);
      && Val(m'.regs, 0) == me.op2(Add, me.op2(Add, i, i), me.lit(Imm4(y)))
      && m'.world == m.world && m'.frame == m.frame
  {
    hide Exec;
    var e := Emitted(x, y);
    assert e == [e[0]] + ([e[1]] + ([e[2]] + ([e[3]] + ([e[4]] + [e[5]]))));
    var m1 := Exec1(me, e[0], m);
    ExecCons(me, e[0], [e[1]] + ([e[2]] + ([e[3]] + ([e[4]] + [e[5]]))), m);
    var m2 := Exec1(me, e[1], m1);
    ExecCons(me, e[1], [e[2]] + ([e[3]] + ([e[4]] + [e[5]])), m1);
    var m3 := Exec1(me, e[2], m2);
    ExecCons(me, e[2], [e[3]] + ([e[4]] + [e[5]]), m2);
    var m4 := Exec1(me, e[3], m3);
    ExecCons(me, e[3], [e[4]] + [e[5]], m3);
    var m5 := Exec1(me, e[4], m4);
    ExecCons(me, e[4], [e[5]], m4);
    ExecOne(me, e[5], m5);
  }

  lemma RunOriginal(me: Meaning, x: int, y: int, s: State)
    ensures
      var i, s' := Val(s.temps, 1), Run(me, Code(x, y), s);
      && Val(s'.temps, 1) == me.op2(Add, me.op2(Add, i, me.lit(Imm4(x))), me.lit(Imm4(y)))
      && s'.world == s.world
  {
    hide Run;
    var t := Code(x, y);
    assert t == [] + [t[0]] + [t[1]] + [t[2]] + [t[3]] + [t[4]];
    RunNil(me, s);
    RunSnoc(me, [], t[0], s);
    RunSnoc(me, [] + [t[0]], t[1], s);
    RunSnoc(me, [] + [t[0]] + [t[1]], t[2], s);
    RunSnoc(me, [] + [t[0]] + [t[1]] + [t[2]], t[3], s);
    RunSnoc(me, [] + [t[0]] + [t[1]] + [t[2]] + [t[3]], t[4], s);
  }

  lemma RunNil(me: Meaning, s: State)
    ensures Run(me, [], s) == s
  {
  }

  lemma BlockShape(c: Choices, n: nat, x: int, y: int)
    requires n > 2 && Enumerates(c)
    ensures
      var p, b := Placed(After(n, 5), Items(x, y)), Graph(x, y)[0];
      var a := AllocBlock(c, F.Start(n, Params), b, {1});
      && Ok(p.st) && InReg(p.st, 1) && a == EndBlock(c, p, b, {1})
      && a.st.frame == Reset(Params) && a.st.tempReg == Last && Ok(a.st) && a.varReg == 0
  {
    hide FrameOk, FindSlots, AllocPrefix, Items, Code;
    var st, b := F.Start(n, Params), Graph(x, y)[0];
    assert Clear(st) == st;
    assert EndLive(b, {1}) == {1};
    StartReady(n);
    CodeSize(x, y);
    Allocation(c, n, x, y);
    var p := Placed(After(n, 5), Items(x, y));
    PrefixOk(c, st, Code(x, y), {1}, 5);
    EndGrows(c, p, b, {1});
    F.FindSlotsSame(p.st.frame, Saved(p.st, c.order({1}), None));
  }

  lemma CodeSize(x: int, y: int)
    ensures |Code(x, y)| == 5
  {
  }

  /** What running the block's code leaves in the register that is returned. */
  lemma BlockResult(me: Meaning, c: Choices, n: nat, x: int, y: int, m: Mach)
    requires n > 2 && Enumerates(c)
    ensures
      var a := AllocBlock(c, F.Start(n, Params), Graph(x, y)[0], {1});
      var i, m' := Val(m.frame, 4), Exec(me, BlockCode(a), m);
      && a.st.frame == Reset(Params) && Ok(a.st)
      && Val(m'.regs, a.varReg) == me.op2(Add, me.op2(Add, i, i), me.lit(Imm4(y))) && m'.world == m.world
  {
    hide Exec, EmitAll, FrameOk, BlockCode, EndCode, Emitted, Items, AllocBlock, EndBlock, After, Code, Injective;
    var b := Graph(x, y)[0];
    BlockShape(c, n, x, y);
    var p := Placed(After(n, 5), Items(x, y));
    var a := AllocBlock(c, F.Start(n, Params), b, {1});
    BlockCodeIs(c, p, b, {1});
    EmittedAll(x, y);
    ExecConcat(me, Emitted(x, y), EndCode(p, a, b), m);
    ExecEmitted(me, x, y, m);
    OkInjective(a.st);
    EndEffect(me, c, p, b, {1}, Exec(me, Emitted(x, y), m), a.st.frame.off);
  }

  lemma StartReady(n: nat)
    requires n > 0
    ensures Ready(F.Start(n, Params)) && forall t :: !InReg(F.Start(n, Params), t)
  {
  }

  // ----- the function and its code -----

  /** The function returns i + x + y and its code i + i + y, for any two literals, any
      argument and any number of registers from three on, since i is loaded into the
      register that it has only at the end of the block, where x is at the time. With the
      machine's addition the two agree for one argument only, x itself. */
  lemma RebindingBreaks(me: Meaning, c: Choices, n: nat, x: int, y: int, i: int, w: World)
    requires n > 2 && Enumerates(c)
    ensures
      var st, g := F.Start(n, Params), Graph(x, y);
      var s, m := State(map[1 := i], [], w), Mach(map[], map[4 := i], map[], 0, w);
      && WellFormedGraph(g) && Solution(g, Live, Live) && Least(g, Live, Live) && Ready(st)
      && AtRest(s, m, Live[0], SlotsOf(c, st, g, Live))
      && RunGraph(me, g, 1, At(0, s))
           == Returned(Some(me.op2(Add, me.op2(Add, i, me.lit(Imm4(x))), me.lit(Imm4(y)))), w)
      && MachRun(me, g, AllocAll(c, st, g, Live), 1, MAt(0, m))
           == MReturned(Some(me.op2(Add, me.op2(Add, i, i), me.lit(Imm4(y)))), w)
    ensures
      AddsWords(me) ==>
        var a, b := me.lit(Imm4(x)), me.lit(Imm4(y));
        me.op2(Add, me.op2(Add, i, i), b) == me.op2(Add, me.op2(Add, i, a), b) <==> (i - a) % WORDS == 0
  {
    hide AllocBlock, Run, Exec, BlockCode, Solution, Least, Ok, Code, AddsWords;
    if AddsWords(me) {
      RightForOne(me, me.lit(Imm4(x)), me.lit(Imm4(y)), i);
    }
    GraphSolution(x, y);
    StartReady(n);
    var st, g := F.Start(n, Params), Graph(x, y);
    var s, m := State(map[1 := i], [], w), Mach(map[], map[4 := i], map[], 0, w);
    BlockResult(me, c, n, x, y, m);
    RunOriginal(me, x, y, s);
    StateAfter(c, st, g, Live, 0);
    assert RunGraph(me, g, 0, At(0, s)) == At(0, s);
    assert MachRun(me, g, AllocAll(c, st, g, Live), 0, MAt(0, m)) == MAt(0, m);
  }

  const WORDS := 0x1_0000_0000

  /** The machine's addition. */
  ghost predicate AddsWords(me: Meaning) {
    forall a, b :: me.op2(Add, a, b) == (a + b) % WORDS
  }

  /** With the machine's addition the two values agree for one argument only: x itself. */
  lemma RightForOne(me: Meaning, x: int, y: int, i: int)
    requires AddsWords(me)
    ensures
      me.op2(Add, me.op2(Add, i, i), y) == me.op2(Add, me.op2(Add, i, x), y) <==> (i - x) % WORDS == 0
  {
    AddTwice(i, i, y);
    AddTwice(i, x, y);
    SameRest(i + i + y, i + x + y);
  }

  lemma AddTwice(a: int, b: int, d: int)
    ensures ((a + b) % WORDS + d) % WORDS == (a + b + d) % WORDS
  {
    var q := (a + b) / WORDS;
    SameRest((a + b) % WORDS + d, a + b + d);
    assert ((a + b) % WORDS + d) - (a + b + d) == -q * WORDS;
  }

  lemma SameRest(a: int, b: int)
    ensures a % WORDS == b % WORDS <==> (a - b) % WORDS == 0
  {
  }

  /** A meaning under which operators add and literals stand for themselves. */
  function Sums(): Meaning {
    Meaning(
      (_, a, b) => a + b, (_, _) => 0, (l: Literal) => if l.Imm4? then l.value else 0,
      (_, _, _) => CallResult(0, map[], 0), _ => map[], _ => map[])
  }

  /** So the block does not satisfy the condition of the simulation, nor the one on the
      code that implies it. */
  lemma NotSound(c: Choices, n: nat, x: int, y: int)
    requires n > 2 && Enumerates(c)
    ensures !Sound(c, F.Start(n, Params), Graph(x, y)[0], {1}) && !Settled(Code(x, y))
  {
    NotSettled(x, y);
    hide AllocBlock, Run, Exec, BlockCode, Ok, Code, Sound, LiveAt, Settled;
    var st, b := F.Start(n, Params), Graph(x, y)[0];
    var w := World(map[], 0, []);
    var me := Sums();
    var s, m := State(map[1 := x + 1], [], w), Mach(map[], map[4 := x + 1], map[], 0, w);
    BlockResult(me, c, n, x, y, m);
    RunOriginal(me, x, y, s);
    StartReady(n);
    LiveSets(x, y);
    assert EndLive(b, {1}) == {1};
    var slots := AllocBlock(c, st, b, {1}).st.frame.off;
    OkInjective(AllocBlock(c, st, b, {1}).st);
    if Sound(c, st, b, {1}) {
      BlockSimulates(me, c, st, b, {1}, s, m, slots);
      assert false;
    }
  }

  lemma NotSettled(x: int, y: int)
    ensures !Settled(Code(x, y))
  {
    var t := Code(x, y);
    assert Touches(t[0]) == {2} && Touches(t[1]) == {1, 2, 3} && Touches(t[2]) == {4} && Touches(t[3]) == {3, 4, 5};
    assert Touched(t, 0) == {};
    assert Touched(t, 1) == {2};
    assert Touched(t, 2) == {1, 2, 3};
    assert Waits(t, 1, 2, 4) && !Quiet(t, 2);
  }
}
