/** The back end of one function from end to end: the graph as the front end gathers it is
    simplified, analysed and allocated, and the machine runs the code. */
module BackEnd {
  import opened Options
  import opened Tac
  import opened Asm
  import opened Frame
  import opened Liveness
  import opened Simplify
  import opened AllocSpec
  import opened AllocProof
  import opened AllocGraphProof
  import opened Simplifier
  import RegisterAllocator

  /** Block 0 of the simplified graph is where the original goes from its block 0. */
  ghost predicate EntryStays(g: seq<Block>)
    requires WellFormedGraph(g) && NoEmptyCycle(g)
  {
    forall i :: 0 <= i < Goal(g, 0) ==> !Survives(g, i)
  }

  /** Every run of the gathered graph from its entry is, with the empty blocks left out, a
      run of the code: same path, same calls and stores, same return value. */
  lemma BackEndPreserves(
    me: Meaning, c: Choices, st: St, g: seq<Block>, liveIn: Sets, liveOut: Sets, s: State, m: Mach, n: nat)
    requires Gathered(g) && NoEmptyCycle(g) && EntryStays(g) && Gathered(Simplified(g))
    requires Solution(Simplified(g), liveIn, liveOut) && Ready(st) && Enumerates(c)
    requires AllSound(c, st, Simplified(g), liveOut)
    requires AtRest(s, m, liveIn[0], SlotsOf(c, st, Simplified(g), liveOut))
    ensures
      var h, o := Simplified(g), At(0, s);
      SameRun(Image(g, RunGraph(me, g, n, o)),
              MachRun(me, h, AllocAll(c, st, h, liveOut), Real(me, g, n, o), MAt(0, m)),
              liveIn, SlotsOf(c, st, h, liveOut))
  {
    hide Simplified, Goal, Number, InDegree, AllSound, SlotsOf, AllocAll, AtRest, SameRun, Solution, NoEmptyCycle;
    var h := Simplified(g);
    EntryExact(g);
    EntryCounts(g, |g|);
    SimplifyPreserves(me, g, 0, s, n);
    GraphSimulates(me, c, st, h, liveIn, liveOut, 0, s, m, Real(me, g, n, At(0, s)));
  }

  /** Simplification, liveness analysis, allocation and code generation in place. */
  method Compile(blocks: FlowGraphBlocks, regs: RegisterAllocator.RegisterAllocator)
    returns (allocs: seq<Allocated>, code: seq<seq<Asm>>, liveIn: Sets, liveOut: Sets)
    requires Gathered(Blocks(blocks.bbs)) && NoEmptyCycle(Blocks(blocks.bbs)) && Fresh(blocks.bbs)
    requires |regs.regVar| > 0 && Ready(regs.S()) && Enumerates(regs.c)
    modifies blocks, regs, regs.fm
    ensures Blocks(blocks.bbs) == Simplified(old(Blocks(blocks.bbs))) && Gathered(Blocks(blocks.bbs))
    ensures
      var h := Blocks(blocks.bbs);
      && |allocs| == |code| == |h| && Solution(h, liveIn, liveOut) && Least(h, liveIn, liveOut)
      && (forall i :: 0 <= i < |h| ==> code[i] == BlockCode(allocs[i]))
    ensures
      EntryStays(old(Blocks(blocks.bbs))) && AllSound(regs.c, old(regs.S()), Blocks(blocks.bbs), liveOut) ==>
        forall me: Meaning, s: State, m: Mach, n: nat ::
          AtRest(s, m, liveIn[0], regs.fm.frame.off) ==>
            Agrees(me, old(Blocks(blocks.bbs)), Blocks(blocks.bbs), allocs, liveIn, regs.fm.frame.off, s, m, n)
  {
    hide Simplified, Goal, NoEmptyCycle, AllSound, Solves, Least, Ok, AtRest, SlotsOf, AllocAll, EntryStays;
    ghost var g, st := Blocks(blocks.bbs), regs.S();
    blocks.Simplify();
    var h := Blocks(blocks.bbs);
    GatheredGraph(h);
    allocs, code, liveIn, liveOut := regs.EmitAsm(h);
    if EntryStays(g) && AllSound(regs.c, st, h, liveOut) {
      forall me: Meaning, s: State, m: Mach, n: nat | AtRest(s, m, liveIn[0], regs.fm.frame.off)
        ensures Agrees(me, g, h, allocs, liveIn, regs.fm.frame.off, s, m, n)
      {
        BackEndPreserves(me, regs.c, st, g, liveIn, liveOut, s, m, n);
      }
    }
  }

  ghost predicate Agrees(
    me: Meaning, g: seq<Block>, h: seq<Block>, allocs: seq<Allocated>, liveIn: Sets, slots: map<Temp, int>,
    s: State, m: Mach, n: nat)
    requires WellFormedGraph(g) && NoEmptyCycle(g) && WellFormedGraph(h) && |h| == |allocs|
  {
    var o := At(0, s);
    SameRun(Image(g, RunGraph(me, g, n, o)), MachRun(me, h, allocs, Real(me, g, n, o), MAt(0, m)), liveIn, slots)
  }
}
