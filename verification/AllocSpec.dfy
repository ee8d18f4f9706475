/** The register allocator as functions: which register each temporary gets, which loads
    and spills are inserted, and the code the inserted and original instructions stand
    for.  Module RegisterAllocator proves the imperative allocator against these. */
module AllocSpec {
  import opened Options
  import opened Tac
  import opened Asm
  import opened Frame
  import opened Liveness

  /** One element of a block's instruction list after allocation.  Spill and Reload are
      the inserted stores and loads; a call remembers what to save around it. */
  datatype Item =
    | Plain(tac: Tac)
    | ParmAt(tac: Tac, off: int)
    | CallAt(tac: Tac, saves: seq<(Temp, int)>, argc: nat)
    | Spill(temp: Temp, off: int)
    | Reload(temp: Temp, off: int)

  /** What the allocator leaves to chance: the random victim and the order in which a
      hash set is enumerated. */
  datatype Choices = Choices(random: nat -> nat, order: set<Temp> -> seq<Temp>)

  ghost predicate Enumerates(c: Choices) {
    forall s: set<Temp>, t: Temp :: t in c.order(s) <==> t in s
  }

  /** regVar: the temporary each register is bound to; tempReg: the register each
      temporary was last bound to (possibly taken over since). */
  datatype St = St(regVar: seq<Option<Temp>>, tempReg: map<Temp, nat>, frame: Frame, drawn: nat)

  predicate InReg(st: St, t: Temp) {
    t in st.tempReg && st.tempReg[t] < |st.regVar| && st.regVar[st.tempReg[t]] == Some(t)
  }

  function Clear(st: St): St {
    st.(regVar := seq(|st.regVar|, _ => None))
  }

  function Bind(st: St, r: nat, t: Temp): St
    requires r < |st.regVar|
  {
    st.(regVar := st.regVar[r := Some(t)], tempReg := st.tempReg[t := r])
  }

  predicate Free(st: St, live: set<Temp>, r: nat)
    requires r < |st.regVar|
  {
    st.regVar[r].None? || st.regVar[r].value !in live
  }

  /** The first register from r on that can be taken without a spill, or the number of
      registers when there is none. */
  function FirstFree(st: St, live: set<Temp>, r: nat): (k: nat)
    requires r <= |st.regVar|
    ensures r <= k <= |st.regVar|
    ensures k < |st.regVar| ==> Free(st, live, k)
    ensures forall j :: r <= j < k ==> !Free(st, live, j)
    decreases |st.regVar| - r
  {
    if r == |st.regVar| || Free(st, live, r) then r else FirstFree(st, live, r + 1)
  }

  predicate Fixed(st: St, r: nat)
    requires r < |st.regVar|
  {
    st.regVar[r].Some? && st.regVar[r].value in st.frame.off
  }

  /** The first register from r on whose temporary already has a slot. */
  function FirstFixed(st: St, r: nat): (k: nat)
    requires r <= |st.regVar|
    ensures r <= k <= |st.regVar|
    ensures k < |st.regVar| ==> Fixed(st, k)
    ensures forall j :: r <= j < k ==> !Fixed(st, j)
    decreases |st.regVar| - r
  {
    if r == |st.regVar| || Fixed(st, r) then r else FirstFixed(st, r + 1)
  }

  // ----- emitted code -----

  function RegOf(tempReg: map<Temp, nat>, t: Temp): nat {
    if t in tempReg then tempReg[t] else 0
  }

  function RegsOf(tempReg: map<Temp, nat>, ts: seq<Temp>): (r: seq<nat>)
    ensures |r| == |ts|
  {
    seq(|ts|, i requires 0 <= i < |ts| => RegOf(tempReg, ts[i]))
  }

  function StoreAll(tempReg: map<Temp, nat>, saves: seq<(Temp, int)>): seq<Asm> {
    seq(|saves|, i requires 0 <= i < |saves| => SlotStore(RegOf(tempReg, saves[i].0), saves[i].1))
  }

  function LoadAll(tempReg: map<Temp, nat>, saves: seq<(Temp, int)>): seq<Asm> {
    seq(|saves|, i requires 0 <= i < |saves| => SlotLoad(RegOf(tempReg, saves[i].0), saves[i].1))
  }

  /** The code one list element stands for when temporaries are held as tempReg says. */
  function Emit(item: Item, tempReg: map<Temp, nat>): seq<Asm> {
    match item
    case Plain(tac) =>
      if tac.Unary? && tac.op1 == Assign && RegOf(tempReg, tac.dst) == RegOf(tempReg, tac.src1) then []
      else
        var dst := match Writes(tac) case None => None case Some(d) => Some(RegOf(tempReg, d));
        [Op(tac, RegsOf(tempReg, Reads(tac)), dst)]
    case ParmAt(tac, k) => if Reads(tac) == [] then [] else [ArgStore(RegOf(tempReg, Reads(tac)[0]), k)]
    case CallAt(tac, saves, argc) =>
      if !tac.Call? then []
      else
        var func := match tac.callee case Direct(_) => 0 case Indirect(f) => RegOf(tempReg, f);
        StoreAll(tempReg, saves)
        + [Jal(tac.callee, func, argc)]
        + (match tac.ret case None => [] case Some(d) => [MoveV0(RegOf(tempReg, d))])
        + LoadAll(tempReg, saves)
    case Spill(t, k) => [SlotStore(RegOf(tempReg, t), k)]
    case Reload(t, k) => [SlotLoad(RegOf(tempReg, t), k)]
  }

  function EmitAll(items: seq<Item>, tempReg: map<Temp, nat>): seq<Asm>
    decreases |items|
  {
    if items == [] then []
    else EmitAll(items[..|items| - 1], tempReg) + Emit(items[|items| - 1], tempReg)
  }

  // ----- placement -----

  /** A new allocator state and the list elements produced on the way. */
  datatype Placed = Placed(st: St, items: seq<Item>)

  function Place(st: St, r: nat, t: Temp, read: bool, spills: seq<Item>): Placed
    requires r < |st.regVar|
  {
    var b := Bind(st, r, t);
    if read then
      var b' := b.(frame := FindSlot(b.frame, t));
      Placed(b', spills + [Reload(t, b'.frame.off[t])])
    else
      Placed(b, spills)
  }

  /** Find a register for t before an instruction at which `live` is live. */
  function FindReg(c: Choices, st: St, live: set<Temp>, t: Temp, read: bool): Placed
    requires |st.regVar| > 0
  {
    if InReg(st, t) then Placed(st, [])
    else
      var free := FirstFree(st, live, 0);
      if free < |st.regVar| then Place(st, free, t, read, [])
      else
        var fixed := FirstFixed(st, 0);
        if fixed < |st.regVar| then
          var v := st.regVar[fixed].value;
          Place(st, fixed, t, read, [Spill(v, st.frame.off[v])])
        else
          var r := c.random(st.drawn) % |st.regVar|;
          assert !Free(st, live, r);
          var v := st.regVar[r].value;
          var st' := st.(frame := FindSlot(st.frame, v), drawn := st.drawn + 1);
          Place(st', r, t, read, [Spill(v, st'.frame.off[v])])
  }

  function PlaceReads(c: Choices, st: St, live: set<Temp>, ts: seq<Temp>): (p: Placed)
    requires |st.regVar| > 0
    ensures |p.st.regVar| == |st.regVar|
    decreases |ts|
  {
    if ts == [] then Placed(st, [])
    else
      var p := PlaceReads(c, st, live, ts[..|ts| - 1]);
      var q := FindReg(c, p.st, live, ts[|ts| - 1], true);
      Placed(q.st, p.items + q.items)
  }

  /** Registers for all operands of an instruction: what it reads, then what it writes. */
  function PlaceOperands(c: Choices, st: St, live: set<Temp>, tac: Tac): (p: Placed)
    requires |st.regVar| > 0
    ensures |p.st.regVar| == |st.regVar|
  {
    var p := PlaceReads(c, st, live, Reads(tac));
    match Writes(tac)
    case None => p
    case Some(d) =>
      var q := FindReg(c, p.st, live, d, false);
      Placed(q.st, p.items + q.items)
  }

  /** The temporaries of `ts` that are in a register, other than `except`. */
  function Saved(st: St, ts: seq<Temp>, except: Option<Temp>): (r: seq<Temp>)
    ensures forall t :: t in r <==> t in ts && InReg(st, t) && Some(t) != except
    decreases |ts|
  {
    if ts == [] then []
    else
      var t := ts[|ts| - 1];
      Saved(st, ts[..|ts| - 1], except) + (if InReg(st, t) && Some(t) != except then [t] else [])
  }

  function WithSlots(off: map<Temp, int>, ts: seq<Temp>): (r: seq<(Temp, int)>)
    ensures |r| == |ts|
  {
    seq(|ts|, i requires 0 <= i < |ts| => (ts[i], if ts[i] in off then off[ts[i]] else 0))
  }

  /** The list element for the instruction itself. */
  function ItemFor(c: Choices, st: St, liveOut: set<Temp>, tac: Tac): Item {
    match tac
    case Call(ret, _) =>
      var saved := Saved(st, c.order(liveOut), ret);
      CallAt(tac, WithSlots(FindSlots(FinishActual(st.frame), saved).off, saved), Pending(st.frame))
    case Parm(_) => ParmAt(tac, st.frame.actual)
    case _ => Plain(tac)
  }

  /** What the instruction does to the frame. */
  function FrameAfter(c: Choices, st: St, liveOut: set<Temp>, tac: Tac): St {
    match tac
    case Call(ret, _) => st.(frame := FindSlots(FinishActual(st.frame), Saved(st, c.order(liveOut), ret)))
    case Parm(_) => st.(frame := AddActual(st.frame))
    case _ => st
  }

  /** One instruction of a block. */
  function AllocTac(c: Choices, st: St, live: set<Temp>, liveOut: set<Temp>, tac: Tac): (p: Placed)
    requires |st.regVar| > 0
    ensures |p.st.regVar| == |st.regVar|
  {
    var p := PlaceOperands(c, st, live, tac);
    var st' := FrameAfter(c, p.st, liveOut, tac);
    var item := ItemFor(c, p.st, liveOut, tac);
    Placed(st', p.items + [item])
  }

  /** The first n instructions of a block, from allocator state st. */
  function AllocPrefix(c: Choices, st: St, tacs: seq<Tac>, end: set<Temp>, n: nat): (p: Placed)
    requires |st.regVar| > 0 && n <= |tacs|
    ensures |p.st.regVar| == |st.regVar|
  {
    if n == 0 then Placed(st, [])
    else
      var p := AllocPrefix(c, st, tacs, end, n - 1);
      var q := AllocTac(c, p.st, LiveAt(tacs, n - 1, end), LiveAt(tacs, n, end), tacs[n - 1]);
      Placed(q.st, p.items + q.items)
  }

  /** The result of allocating a block: the rewritten list, what to save at its end and
      the register that holds the tested or returned value. */
  datatype Allocated = Allocated(st: St, items: seq<Item>, saves: seq<(Temp, int)>, varReg: nat)

  /** The temporary whose value the ending of the block consumes. */
  function EndTemp(b: Block): Option<Temp> {
    if b.endKind == ByBranch then None else b.endVar
  }

  predicate NeedsEndLoad(st: St, b: Block) {
    EndTemp(b).Some? && !InReg(st, EndTemp(b).value)
  }

  function EndBlock(c: Choices, p: Placed, b: Block, liveOut: set<Temp>): Allocated {
    var saved := Saved(p.st, c.order(liveOut), None);
    var st := p.st.(frame := FindSlots(p.st.frame, saved));
    var saves := WithSlots(st.frame.off, saved);
    match EndTemp(b)
    case None => Allocated(st, p.items, saves, 0)
    case Some(v) =>
      if InReg(p.st, v) then Allocated(st, p.items, saves, p.st.tempReg[v])
      else
        var st' := st.(tempReg := st.tempReg[v := 0], frame := FindSlot(st.frame, v));
        Allocated(st', p.items + [Reload(v, st'.frame.off[v])], saves, 0)
  }

  function AllocBlock(c: Choices, st: St, b: Block, liveOut: set<Temp>): (a: Allocated)
    requires |st.regVar| > 0
    ensures |a.st.regVar| == |st.regVar|
  {
    EndBlock(c, AllocPrefix(c, Clear(st), b.tacs, EndLive(b, liveOut), |b.tacs|), b, liveOut)
  }

  /** The code emitted for a block.  It is produced after the whole block has been
      allocated, so every temporary is taken to be in the register it was bound to last. */
  function BlockCode(a: Allocated): seq<Asm> {
    EmitAll(a.items, a.st.tempReg) + StoreAll(a.st.tempReg, a.saves)
  }
}
