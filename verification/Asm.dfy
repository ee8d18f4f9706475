/** The target of the back end: instructions over numbered registers, the slots of the
    current stack frame and the outgoing-argument area. */
module Asm {
  import opened Options
  import opened Tac

  /** What the back end emits for one basic block, one constructor per form:
      an operation over registers, `lw`/`sw` on a frame slot, `sw` into the argument
      area, a call, and the move out of the result register. */
  datatype Asm =
    | Op(tac: Tac, srcs: seq<nat>, dst: Option<nat>)
    | SlotLoad(reg: nat, off: int)
    | SlotStore(reg: nat, off: int)
    | ArgStore(reg: nat, off: int)
    | Jal(callee: Callee, func: nat, argc: nat)
    | MoveV0(reg: nat)

  /** Registers, frame slots by offset from the frame pointer, argument area by offset
      from the stack pointer, the result register and the world. */
  datatype Mach = Mach(regs: map<nat, int>, frame: map<int, int>, area: map<int, int>, v0: int, world: World)

  function RegVals(regs: map<nat, int>, rs: seq<nat>): (r: seq<int>)
    ensures |r| == |rs|
  {
    seq(|rs|, i requires 0 <= i < |rs| => Val(regs, rs[i]))
  }

  /** The first outgoing argument sits one word above the stack pointer. */
  function ArgOffset(i: nat): int {
    4 + 4 * i
  }

  function AreaArgs(area: map<int, int>, argc: nat): (r: seq<int>)
    ensures |r| == argc
  {
    seq(argc, i requires 0 <= i < argc => Val(area, ArgOffset(i)))
  }

  function DefineReg(regs: map<nat, int>, d: Option<nat>, v: int): map<nat, int> {
    match d case None => regs case Some(r) => regs[r := v]
  }

  function Exec1(me: Meaning, a: Asm, m: Mach): Mach {
    match a
    case Op(tac, srcs, dst) =>
      if |srcs| == |Reads(tac)| then
        var e := Apply(me, tac, RegVals(m.regs, srcs), [], m.world);
        m.(regs := DefineReg(m.regs, dst, e.result), world := e.world)
      else m
    case SlotLoad(r, k) => m.(regs := m.regs[r := Val(m.frame, k)])
    case SlotStore(r, k) => m.(frame := m.frame[k := Val(m.regs, r)])
    case ArgStore(r, k) => m.(area := m.area[k := Val(m.regs, r)])
    case Jal(callee, func, argc) =>
      var target := match callee case Direct(l) => Label(l) case Indirect(_) => Address(Val(m.regs, func));
      var e := Invoke(me, target, AreaArgs(m.area, argc), m.world);
      Mach(me.clobber(e.world), m.frame, me.clobberArgs(e.world), e.result, e.world)
    case MoveV0(r) => m.(regs := m.regs[r := m.v0])
  }

  function Exec(me: Meaning, code: seq<Asm>, m: Mach): Mach
    decreases |code|
  {
    if code == [] then m else Exec(me, code[1..], Exec1(me, code[0], m))
  }

  lemma {:induction false} ExecConcat(me: Meaning, a: seq<Asm>, b: seq<Asm>, m: Mach)
    ensures Exec(me, a + b, m) == Exec(me, b, Exec(me, a, m))
    decreases |a|
  {
    if a == [] {
      assert a + b == b;
    } else {
      assert (a + b)[1..] == a[1..] + b;
      ExecConcat(me, a[1..], b, Exec1(me, a[0], m));
    }
  }

  lemma ExecOne(me: Meaning, a: Asm, m: Mach)
    ensures Exec(me, [a], m) == Exec1(me, a, m)
  {
    assert [a][1..] == [];
  }

  lemma ExecTwo(me: Meaning, a: Asm, b: Asm, m: Mach)
    ensures Exec(me, [a, b], m) == Exec1(me, b, Exec1(me, a, m))
  {
    assert [a, b][1..] == [b];
    ExecOne(me, b, Exec1(me, a, m));
  }
}
