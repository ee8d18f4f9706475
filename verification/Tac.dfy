/** Three-address code of the Decaf back end and its meaning over temporaries.

    Every instruction is described by the temporaries it reads (in the order in which
    the register allocator places them), the temporary it writes, and its effect on
    values.  The effect is shared by the two machines of this project: the one that
    keeps values in temporaries (this module) and the one that keeps them in registers
    and frame slots (module Asm). */
module Tac {
  import opened Options

  type Temp = nat

  /** Value of a finite store at a key; a key never written reads as 0. */
  function Val<K>(m: map<K, int>, k: K): int {
    if k in m then m[k] else 0
  }

  datatype Op2 = Add | Sub | Mul | Div | Mod | LAnd | LOr | Gtr | Geq | Equ | Neq | Leq | Les

  datatype Op1 = Neg | LNot | Assign

  datatype Literal = VTable(name: string) | Imm4(value: int) | StrConst(str: string)

  datatype Callee = Direct(name: string) | Indirect(func: Temp)

  datatype Tac =
    | Binary(op2: Op2, dst: Temp, src1: Temp, src2: Temp)
    | Unary(op1: Op1, dst: Temp, src1: Temp)
    | LoadConst(dst: Temp, lit: Literal)
    | Mult(src0: Temp, src1: Temp)
    | Mflo(dst: Temp)
    | Load(dst: Temp, base: Temp, offset: int)
    | Store(src: Temp, base: Temp, offset: int)
    | Parm(src: Temp)
    | Call(ret: Option<Temp>, callee: Callee)

  /** The temporaries an instruction reads, first operand placed first. */
  function Reads(tac: Tac): (r: seq<Temp>)
    ensures |r| <= 2
  {
    match tac
    case Binary(_, _, a, b) => [a, b]
    case Unary(_, _, a) => [a]
    case LoadConst(_, _) => []
    case Mult(a, b) => [b, a]
    case Mflo(_) => []
    case Load(_, b, _) => [b]
    case Store(s, b, _) => [b, s]
    case Parm(s) => [s]
    case Call(_, Direct(_)) => []
    case Call(_, Indirect(f)) => [f]
  }

  /** The temporary an instruction defines, if any. */
  function Writes(tac: Tac): Option<Temp> {
    match tac
    case Binary(_, d, _, _) => Some(d)
    case Unary(_, d, _) => Some(d)
    case LoadConst(d, _) => Some(d)
    case Mult(_, _) => None
    case Mflo(d) => Some(d)
    case Load(d, _, _) => Some(d)
    case Store(_, _, _) => None
    case Parm(_) => None
    case Call(d, _) => d
  }

  function Uses(tac: Tac): set<Temp> {
    set t | t in Reads(tac)
  }

  function Defs(tac: Tac): set<Temp> {
    match Writes(tac) case None => {} case Some(d) => {d}
  }

  function Touches(tac: Tac): set<Temp> {
    Uses(tac) + Defs(tac)
  }

  // ----- meaning over temporaries -----

  datatype Target = Label(name: string) | Address(addr: int)

  datatype Event = Called(target: Target, args: seq<int>)

  /** What the program shares with its surroundings: heap memory, the LO register and
      the calls made so far. */
  datatype World = World(mem: map<int, int>, lo: int, trace: seq<Event>)

  datatype CallResult = CallResult(ret: int, mem: map<int, int>, lo: int)

  /** An arbitrary meaning for operators, literals and callees, and an arbitrary choice
      of what a callee leaves in the registers it may overwrite. */
  datatype Meaning = Meaning(
    op2: (Op2, int, int) -> int,
    op1: (Op1, int) -> int,
    lit: Literal -> int,
    call: (Target, seq<int>, World) -> CallResult,
    clobber: World -> map<nat, int>,
    clobberArgs: World -> map<int, int>)

  datatype Effect = Effect(result: int, args: seq<int>, world: World)

  /** What an instruction does with the values it reads: the value it defines, the
      pending actual parameters and the world afterwards. */
  function Apply(me: Meaning, tac: Tac, vals: seq<int>, args: seq<int>, w: World): Effect
    requires |vals| == |Reads(tac)|
  {
    match tac
    case Binary(op, _, _, _) => Effect(me.op2(op, vals[0], vals[1]), args, w)
    case Unary(Assign, _, _) => Effect(vals[0], args, w)
    case Unary(op, _, _) => Effect(me.op1(op, vals[0]), args, w)
    case LoadConst(_, l) => Effect(me.lit(l), args, w)
    case Mult(_, _) => Effect(0, args, w.(lo := me.op2(Mul, vals[1], vals[0])))
    case Mflo(_) => Effect(w.lo, args, w)
    case Load(_, _, k) => Effect(Val(w.mem, vals[0] + k), args, w)
    case Store(_, _, k) => Effect(0, args, w.(mem := w.mem[vals[0] + k := vals[1]]))
    case Parm(_) => Effect(0, args + [vals[0]], w)
    case Call(_, Direct(l)) => Invoke(me, Label(l), args, w)
    case Call(_, Indirect(_)) => Invoke(me, Address(vals[0]), args, w)
  }

  function Invoke(me: Meaning, target: Target, args: seq<int>, w: World): Effect {
    var r := me.call(target, args, w);
    Effect(r.ret, [], World(r.mem, r.lo, w.trace + [Called(target, args)]))
  }

  datatype State = State(temps: map<Temp, int>, args: seq<int>, world: World)

  function TempVals(s: map<Temp, int>, ts: seq<Temp>): (r: seq<int>)
    ensures |r| == |ts|
  {
    seq(|ts|, i requires 0 <= i < |ts| => Val(s, ts[i]))
  }

  function Define(temps: map<Temp, int>, d: Option<Temp>, v: int): map<Temp, int> {
    match d case None => temps case Some(t) => temps[t := v]
  }

  function Step(me: Meaning, tac: Tac, s: State): State {
    var e := Apply(me, tac, TempVals(s.temps, Reads(tac)), s.args, s.world);
    State(Define(s.temps, Writes(tac), e.result), e.args, e.world)
  }

  function Run(me: Meaning, tacs: seq<Tac>, s: State): State
    decreases |tacs|
  {
    if tacs == [] then s else Step(me, tacs[|tacs| - 1], Run(me, tacs[..|tacs| - 1], s))
  }

  lemma RunSnoc(me: Meaning, tacs: seq<Tac>, tac: Tac, s: State)
    ensures Run(me, tacs + [tac], s) == Step(me, tac, Run(me, tacs, s))
  {
    assert (tacs + [tac])[..|tacs|] == tacs;
  }

  // ----- basic blocks -----

  datatype EndKind = ByBranch | ByBeqz | ByBnez | ByReturn

  /** A basic block: straight-line code, the way it ends, the temporary it tests or
      returns, and its two successors (both 0 in a returning block). */
  datatype Block = Block(tacs: seq<Tac>, endKind: EndKind, endVar: Option<Temp>, next0: nat, next1: nat)

  datatype Outcome = At(block: nat, state: State) | Returned(result: Option<int>, world: World)

  /** Which successor a block passes control to when its tested value is v. */
  function Goto(b: Block, v: int): nat {
    match b.endKind
    case ByBranch => b.next0
    case ByBeqz => if v == 0 then b.next0 else b.next1
    case ByBnez => if v != 0 then b.next0 else b.next1
    case ByReturn => b.next0
  }

  predicate WellFormedGraph(g: seq<Block>) {
    && |g| > 0
    && (forall i :: 0 <= i < |g| ==> g[i].next0 < |g| && g[i].next1 < |g|)
    && (forall i :: 0 <= i < |g| && (g[i].endKind == ByBeqz || g[i].endKind == ByBnez) ==> g[i].endVar.Some?)
    && (forall i :: 0 <= i < |g| && g[i].endKind == ByBranch ==> g[i].next1 == g[i].next0)
  }

  /** One block of a run. */
  function BlockStep(me: Meaning, b: Block, s: State): Outcome {
    var s' := Run(me, b.tacs, s);
    var v := match b.endVar case None => None case Some(t) => Some(Val(s'.temps, t));
    if b.endKind == ByReturn then Returned(v, s'.world)
    else At(Goto(b, if v.Some? then v.value else 0), s')
  }

  /** The state of a run after n blocks. */
  function RunGraph(me: Meaning, g: seq<Block>, n: nat, o: Outcome): (r: Outcome)
    requires WellFormedGraph(g)
    requires o.At? ==> o.block < |g|
    ensures r.At? ==> r.block < |g|
    decreases n
  {
    if n == 0 then o
    else
      var p := RunGraph(me, g, n - 1, o);
      if p.Returned? then p else BlockStep(me, g[p.block], p.state)
  }
}
