/** Live-variable analysis of the flow graph: the forward def/use scan of a block, the
    backward scan that annotates each instruction, the iteration to a fixpoint over the
    graph, and the theorem that the computed sets are sound for whole runs. */
module Liveness {
  import opened Options
  import opened Tac
  import opened Counting

  // ----- inside a block -----

  /** Temporaries live just before instruction i when `end` is live after the last one. */
  function LiveAt(tacs: seq<Tac>, i: nat, end: set<Temp>): set<Temp>
    requires i <= |tacs|
    decreases |tacs| - i
  {
    if i == |tacs| then end
    else LiveAt(tacs, i + 1, end) - Defs(tacs[i]) + Uses(tacs[i])
  }

  lemma LiveAtStep(tacs: seq<Tac>, i: nat, end: set<Temp>)
    requires i < |tacs|
    ensures LiveAt(tacs, i, end) == LiveAt(tacs, i + 1, end) - Defs(tacs[i]) + Uses(tacs[i])
  {
  }

  datatype DefUse = DefUse(def: set<Temp>, use: set<Temp>)

  /** First touches of a block: a temporary goes to `use` or `def` by the way it is
      first touched, and never to both. */
  function Scan(tacs: seq<Tac>, n: nat): DefUse
    requires n <= |tacs|
  {
    if n == 0 then DefUse({}, {})
    else
      var p := Scan(tacs, n - 1);
      var tac := tacs[n - 1];
      var use := p.use + (Uses(tac) - p.def);
      DefUse(p.def + (Defs(tac) - use), use)
  }

  function EndVars(b: Block): set<Temp> {
    match b.endVar case None => {} case Some(t) => {t}
  }

  function BlockDefUse(b: Block): DefUse {
    var p := Scan(b.tacs, |b.tacs|);
    DefUse(p.def, p.use + (EndVars(b) - p.def))
  }

  /** What is live after the last instruction of a block: the block's live-out
      temporaries and the one its ending tests or returns. */
  function EndLive(b: Block, liveOut: set<Temp>): set<Temp> {
    liveOut + EndVars(b)
  }

  lemma {:induction false} ScanAgrees(tacs: seq<Tac>, n: nat, end: set<Temp>)
    requires n <= |tacs|
    ensures LiveAt(tacs, 0, end) == Scan(tacs, n).use + (LiveAt(tacs, n, end) - Scan(tacs, n).def)
  {
    if n > 0 {
      ScanAgrees(tacs, n - 1, end);
    }
  }

  /** The forward scan and the backward scan agree at block entry. */
  lemma ForwardMeetsBackward(b: Block, liveOut: set<Temp>)
    ensures LiveAt(b.tacs, 0, EndLive(b, liveOut))
         == BlockDefUse(b).use + (liveOut - BlockDefUse(b).def)
  {
    ScanAgrees(b.tacs, |b.tacs|, EndLive(b, liveOut));
  }

  /** The operands of one instruction, each tested for its mark in turn. */
  method ScanReads(operands: seq<Temp>, def: set<Temp>, liveUse: set<Temp>) returns (use: set<Temp>)
    ensures use == liveUse + ((set t | t in operands) - def)
  {
    use := liveUse;
    for k := 0 to |operands|
      invariant use == liveUse + ((set t | t in operands[..k]) - def)
    {
      assert operands[..k + 1] == operands[..k] + [operands[k]];
      if operands[k] !in def + use {
        use := use + {operands[k]};
      }
    }
    assert operands[..|operands|] == operands;
  }

  /** The forward scan; `visited` plays the part of the marks left in the temporaries. */
  method ComputeDefAndLiveUse(b: Block) returns (def: set<Temp>, liveUse: set<Temp>)
    ensures DefUse(def, liveUse) == BlockDefUse(b)
  {
    var visited: set<Temp> := {};
    def, liveUse := {}, {};
    for i := 0 to |b.tacs|
      invariant visited == def + liveUse
      invariant DefUse(def, liveUse) == Scan(b.tacs, i)
    {
      liveUse := ScanReads(Reads(b.tacs[i]), def, liveUse);
      visited := def + liveUse;
      match Writes(b.tacs[i]) {
        case None =>
        case Some(d) =>
          if d !in visited {
            def := def + {d};
            visited := visited + {d};
          }
      }
    }
    match b.endVar {
      case None =>
      case Some(t) =>
        if t !in visited {
          liveUse := liveUse + {t};
        }
    }
  }

  /** The backward scan; liveOuts[i] annotates instruction i. */
  method AnnotateLiveness(b: Block, liveOut: set<Temp>) returns (liveOuts: seq<set<Temp>>)
    ensures |liveOuts| == |b.tacs|
    ensures forall i :: 0 <= i < |b.tacs| ==> liveOuts[i] == LiveAt(b.tacs, i + 1, EndLive(b, liveOut))
  {
    liveOuts := [];
    if b.tacs == [] {
      return;
    }
    ghost var end := EndLive(b, liveOut);
    var live := liveOut;
    if b.endVar.Some? {
      live := live + {b.endVar.value};
    }
    var k := |b.tacs| - 1;
    liveOuts := [live];
    while k > 0
      invariant 0 <= k < |b.tacs|
      invariant |liveOuts| == |b.tacs| - k
      invariant live == LiveAt(b.tacs, k + 1, end)
      invariant forall j :: 0 <= j < |liveOuts| ==> liveOuts[j] == LiveAt(b.tacs, j + k + 1, end)
    {
      live := live - Defs(b.tacs[k]);
      live := live + Uses(b.tacs[k]);
      liveOuts := [live] + liveOuts;
      k := k - 1;
    }
  }

  // ----- the fixpoint -----

  type Sets = seq<set<Temp>>

  predicate Sized(g: seq<Block>, s: Sets) {
    |s| == |g|
  }

  function SuccIn(g: seq<Block>, liveIn: Sets, i: nat): set<Temp>
    requires WellFormedGraph(g) && Sized(g, liveIn) && i < |g|
  {
    liveIn[g[i].next0] + liveIn[g[i].next1]
  }

  /** The data-flow equations of block i, with = weakened to "at least". */
  predicate Closed(g: seq<Block>, liveIn: Sets, liveOut: Sets, i: nat)
    requires WellFormedGraph(g) && Sized(g, liveIn) && Sized(g, liveOut) && i < |g|
  {
    && SuccIn(g, liveIn, i) <= liveOut[i]
    && BlockDefUse(g[i]).use + (liveOut[i] - BlockDefUse(g[i]).def) <= liveIn[i]
  }

  ghost predicate AllClosed(g: seq<Block>, liveIn: Sets, liveOut: Sets)
    requires WellFormedGraph(g)
  {
    && Sized(g, liveIn) && Sized(g, liveOut)
    && forall i :: 0 <= i < |g| ==> Closed(g, liveIn, liveOut, i)
  }

  predicate Solves(g: seq<Block>, liveIn: Sets, liveOut: Sets, i: nat)
    requires WellFormedGraph(g) && Sized(g, liveIn) && Sized(g, liveOut) && i < |g|
  {
    && liveOut[i] == SuccIn(g, liveIn, i)
    && liveIn[i] == BlockDefUse(g[i]).use + (liveOut[i] - BlockDefUse(g[i]).def)
  }

  ghost predicate Solution(g: seq<Block>, liveIn: Sets, liveOut: Sets)
    requires WellFormedGraph(g)
  {
    && Sized(g, liveIn) && Sized(g, liveOut)
    && forall i :: 0 <= i < |g| ==> Solves(g, liveIn, liveOut, i)
  }

  predicate Below(a: Sets, b: Sets) {
    |a| == |b| && forall i :: 0 <= i < |a| ==> a[i] <= b[i]
  }

  ghost predicate Least(g: seq<Block>, liveIn: Sets, liveOut: Sets)
    requires WellFormedGraph(g)
  {
    forall i2: Sets, o2: Sets :: AllClosed(g, i2, o2) ==> Below(liveIn, i2) && Below(liveOut, o2)
  }

  /** All temporaries that can ever become live. */
  ghost function Universe(g: seq<Block>, n: nat): set<Temp>
    requires n <= |g|
  {
    if n == 0 then {} else Universe(g, n - 1) + BlockDefUse(g[n - 1]).use
  }

  lemma {:induction false} UseInUniverse(g: seq<Block>, n: nat, i: nat)
    requires i < n <= |g|
    ensures BlockDefUse(g[i]).use <= Universe(g, n)
  {
    if i < n - 1 { UseInUniverse(g, n - 1, i); }
  }

  /** How many (block, temporary) pairs are still missing from the live-in sets. */
  ghost function Missing(all: set<Temp>, s: Sets): nat {
    if s == [] then 0 else |all - s[0]| + Missing(all, s[1..])
  }

  lemma {:induction false} MissingDrops(all: set<Temp>, s: Sets, i: nat, bigger: set<Temp>)
    requires i < |s| && s[i] <= bigger <= all
    ensures Missing(all, s[i := bigger]) <= Missing(all, s)
    ensures s[i] != bigger ==> Missing(all, s[i := bigger]) < Missing(all, s)
  {
    if i == 0 {
      assert s[0 := bigger][1..] == s[1..];
      SubsetCard(all - bigger, all - s[0]);
      if s[0] != bigger {
        assert all - bigger != all - s[0] by {
          var t :| t in bigger && t !in s[0];
          assert t in all - s[0] && t !in all - bigger;
        }
      }
    } else {
      assert s[i := bigger][1..] == s[1..][i - 1 := bigger];
      MissingDrops(all, s[1..], i - 1, bigger);
    }
  }

  /** What holds throughout the iteration: the sets hold only what every solution holds. */
  ghost predicate Partial(g: seq<Block>, liveIn: Sets, liveOut: Sets)
    requires WellFormedGraph(g)
  {
    && Sized(g, liveIn) && Sized(g, liveOut)
    && Least(g, liveIn, liveOut)
    && forall i :: 0 <= i < |g| ==> PartialAt(g, liveIn, liveOut, i)
  }

  ghost predicate PartialAt(g: seq<Block>, liveIn: Sets, liveOut: Sets, i: nat)
    requires WellFormedGraph(g) && Sized(g, liveIn) && Sized(g, liveOut) && i < |g|
  {
    var du := BlockDefUse(g[i]);
    && du.use <= liveIn[i] <= Universe(g, |g|)
    && liveIn[i] <= du.use + (SuccIn(g, liveIn, i) - du.def)
    && liveOut[i] <= SuccIn(g, liveIn, i)
  }

  /** The live-in set of block k after a visit. */
  function VisitedIn(g: seq<Block>, liveIn: Sets, k: nat): set<Temp>
    requires WellFormedGraph(g) && Sized(g, liveIn) && k < |g|
  {
    liveIn[k] + (SuccIn(g, liveIn, k) - BlockDefUse(g[k]).def)
  }

  lemma VisitKeepsLeast(g: seq<Block>, liveIn: Sets, liveOut: Sets, k: nat)
    requires WellFormedGraph(g) && Partial(g, liveIn, liveOut) && k < |g|
    ensures
      var in' := liveIn[k := VisitedIn(g, liveIn, k)];
      Least(g, in', liveOut[k := SuccIn(g, in', k)])
  {
    var in' := liveIn[k := VisitedIn(g, liveIn, k)];
    var out' := liveOut[k := SuccIn(g, in', k)];
    forall i2: Sets, o2: Sets | AllClosed(g, i2, o2)
      ensures Below(in', i2) && Below(out', o2)
    {
      assert Below(liveIn, i2) && Below(liveOut, o2);
      assert Closed(g, i2, o2, k);
      assert liveIn[g[k].next0] <= i2[g[k].next0] && liveIn[g[k].next1] <= i2[g[k].next1];
      assert in'[g[k].next0] <= i2[g[k].next0] && in'[g[k].next1] <= i2[g[k].next1];
    }
  }

  lemma VisitKeepsPartial(g: seq<Block>, liveIn: Sets, liveOut: Sets, k: nat)
    requires WellFormedGraph(g) && Partial(g, liveIn, liveOut) && k < |g|
    ensures
      var in' := liveIn[k := VisitedIn(g, liveIn, k)];
      Partial(g, in', liveOut[k := SuccIn(g, in', k)]) && VisitedIn(g, liveIn, k) <= Universe(g, |g|)
  {
    var in' := liveIn[k := VisitedIn(g, liveIn, k)];
    var out' := liveOut[k := SuccIn(g, in', k)];
    VisitKeepsLeast(g, liveIn, liveOut, k);
    assert PartialAt(g, liveIn, liveOut, k);
    assert PartialAt(g, liveIn, liveOut, g[k].next0) && PartialAt(g, liveIn, liveOut, g[k].next1);
    forall i | 0 <= i < |g|
      ensures PartialAt(g, in', out', i)
    {
      assert PartialAt(g, liveIn, liveOut, i);
      assert SuccIn(g, liveIn, i) <= SuccIn(g, in', i);
    }
  }

  /** A visit that leaves the live-in set alone has solved the equations of its block. */
  lemma VisitSolves(g: seq<Block>, liveIn: Sets, liveOut: Sets, k: nat)
    requires WellFormedGraph(g) && Partial(g, liveIn, liveOut) && k < |g|
    requires VisitedIn(g, liveIn, k) == liveIn[k]
    ensures Solves(g, liveIn, liveOut[k := SuccIn(g, liveIn, k)], k)
  {
    assert PartialAt(g, liveIn, liveOut, k);
  }

  ghost function ToGo(g: seq<Block>, liveIn: Sets): nat {
    Missing(Universe(g, |g|), liveIn)
  }

  ghost predicate SolvedUpTo(g: seq<Block>, liveIn: Sets, liveOut: Sets, k: nat)
    requires WellFormedGraph(g) && Sized(g, liveIn) && Sized(g, liveOut)
  {
    forall i :: 0 <= i < k && i < |g| ==> Solves(g, liveIn, liveOut, i)
  }

  lemma VisitAdvances(g: seq<Block>, liveIn: Sets, liveOut: Sets, k: nat)
    requires WellFormedGraph(g) && Partial(g, liveIn, liveOut) && k < |g|
    ensures
      var in' := liveIn[k := VisitedIn(g, liveIn, k)];
      var out' := liveOut[k := SuccIn(g, in', k)];
      && Partial(g, in', out')
      && ToGo(g, in') <= ToGo(g, liveIn)
      && (in'[k] != liveIn[k] ==> ToGo(g, in') < ToGo(g, liveIn))
      && (in'[k] == liveIn[k] ==> in' == liveIn)
      && (in'[k] == liveIn[k] && SolvedUpTo(g, liveIn, liveOut, k) ==> SolvedUpTo(g, in', out', k + 1))
  {
    VisitKeepsPartial(g, liveIn, liveOut, k);
    MissingDrops(Universe(g, |g|), liveIn, k, VisitedIn(g, liveIn, k));
    var in' := liveIn[k := VisitedIn(g, liveIn, k)];
    if in'[k] == liveIn[k] {
      assert in' == liveIn;
      VisitSolves(g, liveIn, liveOut, k);
      var out' := liveOut[k := SuccIn(g, in', k)];
      if SolvedUpTo(g, liveIn, liveOut, k) {
        forall i | 0 <= i < k + 1 && i < |g| ensures Solves(g, in', out', i) {
          if i < k { assert Solves(g, liveIn, liveOut, i); }
        }
      }
    }
  }

  /** The analysis object: the sets that are updated in place. */
  class FlowGraph {
    const blocks: seq<Block>
    var def: Sets
    var liveUse: Sets
    var liveIn: Sets
    var liveOut: Sets

    constructor (g: seq<Block>)
      ensures blocks == g
    {
      blocks := g;
      def, liveUse, liveIn, liveOut := [], [], [], [];
    }

    ghost predicate Ready()
      reads this
    {
      && WellFormedGraph(blocks)
      && |def| == |liveUse| == |liveIn| == |liveOut| == |blocks|
      && (forall i :: 0 <= i < |blocks| ==> DefUse(def[i], liveUse[i]) == BlockDefUse(blocks[i]))
    }

    method ComputeAll()
      requires WellFormedGraph(blocks)
      modifies this
      ensures Ready() && Partial(blocks, liveIn, liveOut)
    {
      def, liveUse, liveIn, liveOut := [], [], [], [];
      for k := 0 to |blocks|
        invariant |def| == |liveUse| == |liveIn| == |liveOut| == k
        invariant forall i :: 0 <= i < k ==> DefUse(def[i], liveUse[i]) == BlockDefUse(blocks[i])
        invariant forall i :: 0 <= i < k ==> liveIn[i] == liveUse[i] && liveOut[i] == {}
      {
        var d, u := ComputeDefAndLiveUse(blocks[k]);
        def, liveUse, liveIn, liveOut := def + [d], liveUse + [u], liveIn + [u], liveOut + [{}];
      }
      forall i | 0 <= i < |blocks|
        ensures liveUse[i] <= Universe(blocks, |blocks|)
      {
        UseInUniverse(blocks, |blocks|, i);
      }
      forall i2: Sets, o2: Sets | AllClosed(blocks, i2, o2)
        ensures Below(liveIn, i2) && Below(liveOut, o2)
      {
        forall i | 0 <= i < |blocks| ensures liveIn[i] <= i2[i] { assert Closed(blocks, i2, o2, i); }
      }
    }

    /** One block of a pass: add, remove, add, all in place on liveOut[k]. */
    method Visit(k: nat) returns (changed: bool)
      requires Ready() && Partial(blocks, liveIn, liveOut) && k < |blocks|
      modifies this
      ensures Ready() && def == old(def) && liveUse == old(liveUse)
      ensures liveIn == old(liveIn)[k := VisitedIn(blocks, old(liveIn), k)]
      ensures liveOut == old(liveOut)[k := SuccIn(blocks, liveIn, k)]
      ensures changed <==> liveIn[k] != old(liveIn)[k]
    {
      assert PartialAt(blocks, liveIn, liveOut, k);
      assert DefUse(def[k], liveUse[k]) == BlockDefUse(blocks[k]);
      var b := blocks[k];
      var out := liveOut[k] + liveIn[b.next0];
      out := out + liveIn[b.next1];
      assert out == SuccIn(blocks, liveIn, k);
      out := out - def[k];
      var in' := liveIn[k] + out;
      changed := in' != liveIn[k];
      liveIn := liveIn[k := in'];
      out := out + liveIn[b.next0];
      out := out + liveIn[b.next1];
      assert out == SuccIn(blocks, liveIn, k);
      liveOut := liveOut[k := out];
    }

    /** One pass over all blocks. */
    method Pass() returns (changed: bool)
      requires Ready() && Partial(blocks, liveIn, liveOut)
      modifies this
      ensures Ready() && Partial(blocks, liveIn, liveOut)
      ensures changed ==> ToGo(blocks, liveIn) < ToGo(blocks, old(liveIn))
      ensures !changed ==> liveIn == old(liveIn) && Solution(blocks, liveIn, liveOut)
    {
      changed := false;
      for k := 0 to |blocks|
        invariant Ready() && Partial(blocks, liveIn, liveOut)
        invariant ToGo(blocks, liveIn) <= ToGo(blocks, old(liveIn))
        invariant changed ==> ToGo(blocks, liveIn) < ToGo(blocks, old(liveIn))
        invariant !changed ==> liveIn == old(liveIn) && SolvedUpTo(blocks, liveIn, liveOut, k)
      {
        VisitAdvances(blocks, liveIn, liveOut, k);
        var c := Visit(k);
        changed := changed || c;
      }
    }

    method AnalyzeLiveness()
      requires WellFormedGraph(blocks)
      modifies this
      ensures Ready()
      ensures Solution(blocks, liveIn, liveOut) && Least(blocks, liveIn, liveOut)
    {
      ComputeAll();
      var changed := true;
      while changed
        invariant Ready() && Partial(blocks, liveIn, liveOut)
        invariant !changed ==> Solution(blocks, liveIn, liveOut)
        decreases ToGo(blocks, liveIn), if changed then 1 else 0
      {
        changed := Pass();
      }
    }
  }

  // ----- liveness is sound for whole runs -----

  ghost predicate Agree(s1: State, s2: State, live: set<Temp>) {
    && s1.args == s2.args && s1.world == s2.world
    && forall t :: t in live ==> Val(s1.temps, t) == Val(s2.temps, t)
  }

  lemma StepAgree(me: Meaning, tac: Tac, s1: State, s2: State, after: set<Temp>)
    requires Agree(s1, s2, after - Defs(tac) + Uses(tac))
    ensures Agree(Step(me, tac, s1), Step(me, tac, s2), after)
  {
    var r := Reads(tac);
    forall i | 0 <= i < |r|
      ensures TempVals(s1.temps, r)[i] == TempVals(s2.temps, r)[i]
    {
      assert r[i] in Uses(tac);
    }
    assert TempVals(s1.temps, r) == TempVals(s2.temps, r);
    var u1, u2 := Step(me, tac, s1), Step(me, tac, s2);
    forall t | t in after
      ensures Val(u1.temps, t) == Val(u2.temps, t)
    {
      if t !in Defs(tac) {
        assert t in after - Defs(tac) + Uses(tac);
      }
    }
  }

  /** Two stores that agree on what is live before instruction i agree, after the first
      k - i instructions from there, on what is live before instruction k. */
  lemma {:induction false} RunAgree(me: Meaning, tacs: seq<Tac>, i: nat, k: nat, s1: State, s2: State, end: set<Temp>)
    requires i <= k <= |tacs|
    requires Agree(s1, s2, LiveAt(tacs, i, end))
    ensures Agree(Run(me, tacs[i..k], s1), Run(me, tacs[i..k], s2), LiveAt(tacs, k, end))
  {
    hide Agree, Step, LiveAt;
    if i < k {
      LiveAtStep(tacs, k - 1, end);
      RunAgree(me, tacs, i, k - 1, s1, s2, end);
      assert tacs[i..k] == tacs[i..k - 1] + [tacs[k - 1]];
      RunSnoc(me, tacs[i..k - 1], tacs[k - 1], s1);
      RunSnoc(me, tacs[i..k - 1], tacs[k - 1], s2);
      StepAgree(me, tacs[k - 1], Run(me, tacs[i..k - 1], s1), Run(me, tacs[i..k - 1], s2), LiveAt(tacs, k, end));
    }
  }

  /** What an observer sees of a run: where it is, or what it returned, and its world. */
  ghost predicate SameOutcome(o1: Outcome, o2: Outcome, liveIn: Sets) {
    if o1.Returned? then o1 == o2
    else o2.At? && o1.block == o2.block && o1.block < |liveIn| && Agree(o1.state, o2.state, liveIn[o1.block])
  }

  lemma BlockAgree(me: Meaning, g: seq<Block>, liveIn: Sets, liveOut: Sets, i: nat, s1: State, s2: State)
    requires WellFormedGraph(g) && AllClosed(g, liveIn, liveOut) && i < |g|
    requires Agree(s1, s2, liveIn[i])
    ensures SameOutcome(BlockStep(me, g[i], s1), BlockStep(me, g[i], s2), liveIn)
  {
    var b := g[i];
    var end := EndLive(b, liveOut[i]);
    assert Closed(g, liveIn, liveOut, i);
    ForwardMeetsBackward(b, liveOut[i]);
    RunAgree(me, b.tacs, 0, |b.tacs|, s1, s2, end);
    assert b.tacs[0..|b.tacs|] == b.tacs;
    assert SuccIn(g, liveIn, i) <= end;
  }

  /** Liveness is sound: from two stores that agree on a block's live-in set, runs of any
      length visit the same blocks, make the same calls and stores and return the same
      value.  It needs only the inequalities, so it also covers the extra edge from a
      returning block to block 0. */
  lemma {:induction false} LivenessSound(
    me: Meaning, g: seq<Block>, liveIn: Sets, liveOut: Sets, b: nat, s1: State, s2: State, n: nat)
    requires WellFormedGraph(g) && AllClosed(g, liveIn, liveOut) && b < |g|
    requires Agree(s1, s2, liveIn[b])
    ensures SameOutcome(RunGraph(me, g, n, At(b, s1)), RunGraph(me, g, n, At(b, s2)), liveIn)
  {
    if n > 0 {
      LivenessSound(me, g, liveIn, liveOut, b, s1, s2, n - 1);
      var p1 := RunGraph(me, g, n - 1, At(b, s1));
      var p2 := RunGraph(me, g, n - 1, At(b, s2));
      if p1.At? {
        BlockAgree(me, g, liveIn, liveOut, p1.block, p1.state, p2.state);
      }
    }
  }

  /** Running a block from instruction i on. */
  function RestStep(me: Meaning, b: Block, i: nat, s: State): Outcome
    requires i <= |b.tacs|
  {
    BlockStep(me, b.(tacs := b.tacs[i..]), s)
  }

  /** Liveness is sound inside blocks too: two stores that agree on what is live before
      instruction i of a block, which finish the block and run on for any length, visit the
      same blocks, make the same calls and stores and return the same value. */
  lemma {:induction false} PointSound(
    me: Meaning, g: seq<Block>, liveIn: Sets, liveOut: Sets, b: nat, i: nat, s1: State, s2: State, n: nat)
    requires WellFormedGraph(g) && AllClosed(g, liveIn, liveOut) && b < |g| && i <= |g[b].tacs|
    requires Agree(s1, s2, LiveAt(g[b].tacs, i, EndLive(g[b], liveOut[b])))
    ensures
      SameOutcome(
        RunGraph(me, g, n, RestStep(me, g[b], i, s1)), RunGraph(me, g, n, RestStep(me, g[b], i, s2)), liveIn)
  {
    if n == 0 {
      RestAgree(me, g, liveIn, liveOut, b, i, s1, s2);
    } else {
      PointSound(me, g, liveIn, liveOut, b, i, s1, s2, n - 1);
      var p1 := RunGraph(me, g, n - 1, RestStep(me, g[b], i, s1));
      var p2 := RunGraph(me, g, n - 1, RestStep(me, g[b], i, s2));
      hide RestStep, BlockStep, Agree, LiveAt;
      if p1.At? {
        BlockAgree(me, g, liveIn, liveOut, p1.block, p1.state, p2.state);
      }
    }
  }

  lemma LiveAtEnd(tacs: seq<Tac>, end: set<Temp>)
    ensures LiveAt(tacs, |tacs|, end) == end
  {
  }

  lemma RestAgree(
    me: Meaning, g: seq<Block>, liveIn: Sets, liveOut: Sets, b: nat, i: nat, s1: State, s2: State)
    requires WellFormedGraph(g) && AllClosed(g, liveIn, liveOut) && b < |g| && i <= |g[b].tacs|
    requires Agree(s1, s2, LiveAt(g[b].tacs, i, EndLive(g[b], liveOut[b])))
    ensures SameOutcome(RestStep(me, g[b], i, s1), RestStep(me, g[b], i, s2), liveIn)
  {
    var end, n := EndLive(g[b], liveOut[b]), |g[b].tacs|;
    assert Closed(g, liveIn, liveOut, b);
    RunAgree(me, g[b].tacs, i, n, s1, s2, end);
    LiveAtEnd(g[b].tacs, end);
    assert g[b].tacs[i..n] == g[b].tacs[i..];
    assert SuccIn(g, liveIn, b) <= end;
  }

  lemma SolutionClosed(g: seq<Block>, liveIn: Sets, liveOut: Sets)
    requires WellFormedGraph(g) && Solution(g, liveIn, liveOut)
    ensures AllClosed(g, liveIn, liveOut)
    ensures forall i :: 0 <= i < |g| ==> liveIn[i] == LiveAt(g[i].tacs, 0, EndLive(g[i], liveOut[i]))
  {
    forall i | 0 <= i < |g|
      ensures Closed(g, liveIn, liveOut, i)
      ensures liveIn[i] == LiveAt(g[i].tacs, 0, EndLive(g[i], liveOut[i]))
    {
      assert Solves(g, liveIn, liveOut, i);
      ForwardMeetsBackward(g[i], liveOut[i]);
    }
  }
}
