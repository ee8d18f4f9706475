/** Flow-graph simplification: blocks that are never entered and empty blocks that only
    jump are dropped, edges through them are shortened, and what is left is renumbered. */
module Simplify {
  import opened Options
  import opened Tac

  predicate EmptyBranch(b: Block) {
    b.endKind == ByBranch && b.tacs == []
  }

  /** A graph as the front end builds it: returning blocks keep both successors 0. */
  ghost predicate Gathered(g: seq<Block>) {
    && WellFormedGraph(g)
    && forall i :: 0 <= i < |g| && g[i].endKind == ByReturn ==> g[i].next0 == 0 && g[i].next1 == 0
  }

  /** Following the only edge of empty blocks from b, a block that is not one is reached
      within n steps. */
  ghost predicate Leaves(g: seq<Block>, b: nat, n: nat)
    requires WellFormedGraph(g) && b < |g|
    decreases n
  {
    EmptyBranch(g[b]) ==> n > 0 && Leaves(g, g[b].next0, n - 1)
  }

  /** There is no cycle of empty blocks. */
  ghost predicate NoEmptyCycle(g: seq<Block>)
    requires WellFormedGraph(g)
  {
    forall b :: 0 <= b < |g| ==> CanLeave(g, b)
  }

  ghost predicate CanLeave(g: seq<Block>, b: nat)
    requires WellFormedGraph(g) && b < |g|
  {
    exists n: nat :: Leaves(g, b, n)
  }

  /** Where control ends up when it enters b and skips empty blocks. */
  ghost function Resolve(g: seq<Block>, b: nat, n: nat): (r: nat)
    requires WellFormedGraph(g) && b < |g| && Leaves(g, b, n)
    ensures r < |g| && !EmptyBranch(g[r])
    decreases n
  {
    if EmptyBranch(g[b]) then Resolve(g, g[b].next0, n - 1) else b
  }

  lemma {:induction false} ResolveUnique(g: seq<Block>, b: nat, n: nat, m: nat)
    requires WellFormedGraph(g) && b < |g| && Leaves(g, b, n) && Leaves(g, b, m)
    ensures Resolve(g, b, n) == Resolve(g, b, m)
    decreases n
  {
    if EmptyBranch(g[b]) {
      ResolveUnique(g, g[b].next0, n - 1, m - 1);
    }
  }

  ghost function Goal(g: seq<Block>, b: nat): (r: nat)
    requires WellFormedGraph(g) && NoEmptyCycle(g) && b < |g|
    ensures r < |g| && !EmptyBranch(g[r])
  {
    assert CanLeave(g, b);
    var n: nat :| Leaves(g, b, n);
    Resolve(g, b, n)
  }

  lemma GoalIs(g: seq<Block>, b: nat, n: nat)
    requires WellFormedGraph(g) && NoEmptyCycle(g) && b < |g| && Leaves(g, b, n)
    ensures Goal(g, b) == Resolve(g, b, n)
  {
    forall m: nat | Leaves(g, b, m) ensures Resolve(g, b, m) == Resolve(g, b, n) {
      ResolveUnique(g, b, m, n);
    }
  }

  lemma GoalStep(g: seq<Block>, b: nat)
    requires WellFormedGraph(g) && NoEmptyCycle(g) && b < |g|
    ensures Goal(g, b) == if EmptyBranch(g[b]) then Goal(g, g[b].next0) else b
  {
    hide Goal;
    assert CanLeave(g, b);
    var n: nat :| Leaves(g, b, n);
    GoalIs(g, b, n);
    if EmptyBranch(g[b]) {
      GoalIs(g, g[b].next0, n - 1);
    }
  }

  // ----- specification of the result -----

  function Into(b: Block, i: nat): nat {
    match b.endKind
    case ByReturn => 0
    case ByBranch => if b.next0 == i then 1 else 0
    case _ => (if b.next0 == i then 1 else 0) + (if b.next1 == i then 1 else 0)
  }

  /** Edges into block i from the first n blocks, counting the entry as an edge into 0. */
  function InDegree(g: seq<Block>, i: nat, n: nat): nat
    requires n <= |g|
  {
    if n == 0 then if i == 0 then 1 else 0 else InDegree(g, i, n - 1) + Into(g[n - 1], i)
  }

  predicate Cancelled(g: seq<Block>, i: nat)
    requires i < |g|
  {
    InDegree(g, i, |g|) <= 0 || EmptyBranch(g[i])
  }

  /** The kept blocks among the first n, and the number each kept block gets. */
  function Kept(g: seq<Block>, n: nat): (r: seq<nat>)
    requires n <= |g|
    ensures |r| <= n
    ensures forall j :: 0 <= j < |r| ==> r[j] < n && !Cancelled(g, r[j])
  {
    if n == 0 then [] else Kept(g, n - 1) + (if Cancelled(g, n - 1) then [] else [n - 1])
  }

  function Number(g: seq<Block>, i: nat): nat
    requires i <= |g|
  {
    |Kept(g, i)|
  }

  lemma {:induction false} NumberIndexes(g: seq<Block>, i: nat, n: nat)
    requires i < n <= |g| && !Cancelled(g, i)
    ensures Number(g, i) < |Kept(g, n)| && Kept(g, n)[Number(g, i)] == i
  {
    if i < n - 1 {
      NumberIndexes(g, i, n - 1);
    }
  }

  /** A block with its edges shortened. */
  ghost function Rewired(g: seq<Block>, b: Block): Block
    requires WellFormedGraph(g) && NoEmptyCycle(g) && b.next0 < |g| && b.next1 < |g|
  {
    match b.endKind
    case ByReturn => b
    case ByBranch => b.(next0 := Goal(g, b.next0), next1 := Goal(g, b.next0))
    case _ =>
      var n0, n1 := Goal(g, b.next0), Goal(g, b.next1);
      b.(next0 := n0, next1 := n1, endKind := if n0 == n1 then ByBranch else b.endKind)
  }

  function Renumbered(g: seq<Block>, b: Block): Block {
    if b.endKind == ByReturn then b
    else b.(next0 := if b.next0 <= |g| then Number(g, b.next0) else 0,
            next1 := if b.next1 <= |g| then Number(g, b.next1) else 0)
  }

  ghost function Simplified(g: seq<Block>): (r: seq<Block>)
    requires WellFormedGraph(g) && NoEmptyCycle(g)
    ensures |r| == Number(g, |g|)
  {
    var kept := Kept(g, |g|);
    seq(|kept|, j requires 0 <= j < |kept| => Renumbered(g, Rewired(g, g[kept[j]])))
  }

  // ----- targets of edges are kept -----

  predicate HasEdge(b: Block, i: nat) {
    Into(b, i) > 0
  }

  lemma {:induction false} EdgeCounts(g: seq<Block>, i: nat, j: nat, n: nat)
    requires j < n <= |g| && HasEdge(g[j], i)
    ensures InDegree(g, i, n) > 0
  {
    if j < n - 1 {
      EdgeCounts(g, i, j, n - 1);
    }
  }

  /** A block entered by some edge leads to a kept block. */
  lemma {:induction false} GoalKept(g: seq<Block>, b: nat, n: nat)
    requires WellFormedGraph(g) && NoEmptyCycle(g) && b < |g| && Leaves(g, b, n)
    requires InDegree(g, b, |g|) > 0
    ensures !Cancelled(g, Goal(g, b))
    decreases n
  {
    GoalStep(g, b);
    if EmptyBranch(g[b]) {
      EdgeCounts(g, g[b].next0, b, |g|);
      GoalKept(g, g[b].next0, n - 1);
    }
  }

  lemma SuccessorKept(g: seq<Block>, j: nat, i: nat)
    requires WellFormedGraph(g) && NoEmptyCycle(g) && j < |g| && i < |g| && HasEdge(g[j], i)
    ensures !Cancelled(g, Goal(g, i))
  {
    EdgeCounts(g, i, j, |g|);
    assert CanLeave(g, i);
    var n: nat :| Leaves(g, i, n);
    GoalKept(g, i, n);
  }

  lemma {:induction false} EntryCounts(g: seq<Block>, n: nat)
    requires n <= |g|
    ensures InDegree(g, 0, n) > 0
  {
    if n > 0 { EntryCounts(g, n - 1); }
  }

  lemma EntryKept(g: seq<Block>)
    requires WellFormedGraph(g) && NoEmptyCycle(g)
    ensures !Cancelled(g, Goal(g, 0))
  {
    EntryCounts(g, |g|);
    assert CanLeave(g, 0);
    var n: nat :| Leaves(g, 0, n);
    GoalKept(g, 0, n);
  }

  /** The simplified graph is again a graph: all successors are in range. */
  lemma SimplifiedGathered(g: seq<Block>)
    requires Gathered(g) && NoEmptyCycle(g)
    ensures Gathered(Simplified(g))
  {
    hide Leaves, InDegree, Goal;
    var r := Simplified(g);
    EntryKept(g);
    NumberIndexes(g, Goal(g, 0), |g|);
    forall j | 0 <= j < |r|
      ensures r[j].next0 < |r| && r[j].next1 < |r|
    {
      var i := Kept(g, |g|)[j];
      if g[i].endKind != ByReturn {
        SuccessorsInRange(g, i);
      }
    }
  }

  lemma SuccessorsInRange(g: seq<Block>, i: nat)
    requires Gathered(g) && NoEmptyCycle(g) && i < |g| && g[i].endKind != ByReturn
    ensures
      var b := Renumbered(g, Rewired(g, g[i]));
      b.next0 < Number(g, |g|) && b.next1 < Number(g, |g|)
  {
    hide Leaves, InDegree, Goal;
    SuccessorKept(g, i, g[i].next0);
    NumberIndexes(g, Goal(g, g[i].next0), |g|);
    if g[i].endKind != ByBranch {
      SuccessorKept(g, i, g[i].next1);
      NumberIndexes(g, Goal(g, g[i].next1), |g|);
    }
  }

  // ----- what is kept, without counting -----

  /** Block b has an edge to block i. */
  predicate Enters(b: Block, i: nat) {
    || (b.endKind == ByBranch && b.next0 == i)
    || ((b.endKind == ByBeqz || b.endKind == ByBnez) && (b.next0 == i || b.next1 == i))
  }

  /** Block i does more than jump, and is the entry or the target of some edge. */
  ghost predicate Survives(g: seq<Block>, i: nat)
    requires i < |g|
  {
    && !(g[i].endKind == ByBranch && g[i].tacs == [])
    && (i == 0 || exists j :: 0 <= j < |g| && Enters(g[j], i))
  }

  lemma {:induction false} DegreeExact(g: seq<Block>, i: nat, n: nat)
    requires n <= |g|
    ensures InDegree(g, i, n) > 0 <==> i == 0 || exists j :: 0 <= j < n && Enters(g[j], i)
  {
    if n > 0 {
      DegreeExact(g, i, n - 1);
    }
  }

  lemma SurvivesExact(g: seq<Block>, i: nat)
    requires i < |g|
    ensures Cancelled(g, i) <==> !Survives(g, i)
  {
    hide InDegree;
    DegreeExact(g, i, |g|);
  }

  /** A way from block i through empty jumps to block t, which is none. */
  ghost predicate JumpPath(g: seq<Block>, path: seq<nat>, i: nat, t: nat) {
    && |path| > 0 && path[0] == i && path[|path| - 1] == t
    && (forall k :: 0 <= k < |path| ==> path[k] < |g|)
    && (forall k :: 0 <= k < |path| - 1 ==> JumpsTo(g[path[k]], path[k + 1]))
    && !(g[t].endKind == ByBranch && g[t].tacs == [])
  }

  predicate JumpsTo(b: Block, i: nat) {
    b.endKind == ByBranch && b.tacs == [] && b.next0 == i
  }

  ghost predicate LeadsTo(g: seq<Block>, i: nat, t: nat) {
    exists path: seq<nat> :: JumpPath(g, path, i, t)
  }

  lemma {:induction false} GoalLeads(g: seq<Block>, b: nat, n: nat)
    requires WellFormedGraph(g) && NoEmptyCycle(g) && b < |g| && Leaves(g, b, n)
    ensures LeadsTo(g, b, Goal(g, b))
    decreases n
  {
    hide Goal, NoEmptyCycle;
    GoalStep(g, b);
    if g[b].endKind == ByBranch && g[b].tacs == [] {
      GoalLeads(g, g[b].next0, n - 1);
      var path :| JumpPath(g, path, g[b].next0, Goal(g, b));
      assert JumpPath(g, [b] + path, b, Goal(g, b));
    } else {
      assert JumpPath(g, [b], b, b);
    }
  }

  lemma AnyGoalLeads(g: seq<Block>, b: nat)
    requires WellFormedGraph(g) && NoEmptyCycle(g) && b < |g|
    ensures LeadsTo(g, b, Goal(g, b))
  {
    assert CanLeave(g, b);
    var n: nat :| Leaves(g, b, n);
    GoalLeads(g, b, n);
  }

  /** c does what b does, and goes where b goes when the empty jumps are followed; a branch
      both of whose ways lead to the same block has become a jump. */
  ghost predicate CopyOf(g: seq<Block>, kept: seq<nat>, c: Block, b: Block) {
    && c.tacs == b.tacs && c.endVar == b.endVar
    && if b.endKind == ByReturn then c.endKind == ByReturn && c.next0 == b.next0 && c.next1 == b.next1
    else
      && c.next0 < |kept| && c.next1 < |kept| && LeadsTo(g, b.next0, kept[c.next0])
      && LeadsTo(g, if b.endKind == ByBranch then b.next0 else b.next1, kept[c.next1])
      && c.endKind == if c.next0 == c.next1 then ByBranch else b.endKind
  }

  lemma {:induction false} KeptRises(g: seq<Block>, n: nat)
    requires n <= |g|
    ensures forall a, b :: 0 <= a < b < |Kept(g, n)| ==> Kept(g, n)[a] < Kept(g, n)[b]
    ensures forall i: nat :: i in Kept(g, n) <==> i < n && !Cancelled(g, i)
  {
    hide Cancelled;
    if n > 0 {
      KeptRises(g, n - 1);
    }
  }

  /** The blocks of h are, in order, copies of the blocks `kept` of g, which are exactly
      those that do more than jump and are entered. */
  ghost predicate Copies(g: seq<Block>, kept: seq<nat>, h: seq<Block>) {
    && (forall a, b :: 0 <= a < b < |kept| ==> kept[a] < kept[b])
    && (forall i: nat :: i in kept <==> i < |g| && Survives(g, i))
    && |h| == |kept| && forall j :: 0 <= j < |kept| ==> kept[j] < |g| && CopyOf(g, kept, h[j], g[kept[j]])
  }

  ghost predicate SimplifiesTo(g: seq<Block>, h: seq<Block>) {
    exists kept :: Copies(g, kept, h)
  }

  /** What is left after simplification. */
  lemma SimplifiedBlocks(g: seq<Block>)
    requires Gathered(g) && NoEmptyCycle(g)
    ensures SimplifiesTo(g, Simplified(g))
  {
    hide Cancelled, Goal, NoEmptyCycle, Survives, CopyOf, Kept;
    var kept := Kept(g, |g|);
    KeptRises(g, |g|);
    forall i | 0 <= i < |g| ensures Cancelled(g, i) <==> !Survives(g, i) { SurvivesExact(g, i); }
    forall j | 0 <= j < |kept| ensures CopyOf(g, kept, Simplified(g)[j], g[kept[j]]) {
      assert kept[j] in kept;
      CopyIs(g, kept[j]);
    }
    assert Copies(g, kept, Simplified(g));
  }

  lemma CopyIs(g: seq<Block>, i: nat)
    requires Gathered(g) && NoEmptyCycle(g) && i < |g|
    ensures CopyOf(g, Kept(g, |g|), Renumbered(g, Rewired(g, g[i])), g[i])
  {
    hide Cancelled, Goal, NoEmptyCycle, Kept, LeadsTo;
    if g[i].endKind != ByReturn {
      SuccessorKept(g, i, g[i].next0);
      NumberIndexes(g, Goal(g, g[i].next0), |g|);
      AnyGoalLeads(g, g[i].next0);
      if g[i].endKind != ByBranch {
        SuccessorKept(g, i, g[i].next1);
        NumberIndexes(g, Goal(g, g[i].next1), |g|);
        AnyGoalLeads(g, g[i].next1);
      }
    }
  }

  // ----- simplification preserves meaning -----

  /** The place in the simplified graph that a place in the original corresponds to. */
  ghost function Image(g: seq<Block>, o: Outcome): Outcome
    requires WellFormedGraph(g) && NoEmptyCycle(g)
    requires o.At? ==> o.block < |g|
  {
    match o
    case At(b, s) => At(Number(g, Goal(g, b)), s)
    case Returned(_, _) => o
  }

  ghost predicate Entered(g: seq<Block>, o: Outcome) {
    o.At? ==> o.block < |g| && InDegree(g, o.block, |g|) > 0
  }

  /** A step of a block that is not skipped is a step of its image. */
  lemma KeptStep(me: Meaning, g: seq<Block>, b: nat, s: State)
    requires Gathered(g) && NoEmptyCycle(g) && b < |g| && !Cancelled(g, b)
    ensures
      var o := BlockStep(me, g[b], s);
      && Number(g, b) < |Simplified(g)|
      && (o.At? ==> o.block < |g|) && Entered(g, o)
      && BlockStep(me, Simplified(g)[Number(g, b)], s) == Image(g, o)
  {
    hide Leaves, Cancelled, Goal, InDegree;
    NumberIndexes(g, b, |g|);
    GoalStep(g, b);
    if g[b].endKind != ByReturn {
      EdgeCounts(g, g[b].next0, b, |g|);
      if g[b].endKind != ByBranch {
        EdgeCounts(g, g[b].next1, b, |g|);
      }
    }
  }

  /** A step of a skipped block leaves the image alone. */
  lemma SkippedStep(me: Meaning, g: seq<Block>, b: nat, s: State)
    requires Gathered(g) && NoEmptyCycle(g) && b < |g| && EmptyBranch(g[b])
    ensures
      var o := BlockStep(me, g[b], s);
      && o == At(g[b].next0, s) && Entered(g, o)
      && Image(g, o) == Image(g, At(b, s))
  {
    hide Leaves, Goal;
    GoalStep(g, b);
    EdgeCounts(g, g[b].next0, b, |g|);
  }

  /** How many of the first n blocks of a run are not skipped. */
  ghost function Real(me: Meaning, g: seq<Block>, n: nat, o: Outcome): nat
    requires WellFormedGraph(g)
    requires o.At? ==> o.block < |g|
  {
    if n == 0 then 0
    else
      var p := RunGraph(me, g, n - 1, o);
      Real(me, g, n - 1, o) + (if p.At? && !EmptyBranch(g[p.block]) then 1 else 0)
  }

  /** Every run of the original graph is a run of the simplified one, up to the empty
      blocks it passes through. */
  lemma {:induction false} SimplifyPreserves(me: Meaning, g: seq<Block>, b: nat, s: State, n: nat)
    requires Gathered(g) && NoEmptyCycle(g) && b < |g| && InDegree(g, b, |g|) > 0
    ensures
      var o := RunGraph(me, g, n, At(b, s));
      && Entered(g, o) && Gathered(Simplified(g))
      && Number(g, Goal(g, b)) < |Simplified(g)|
      && RunGraph(me, Simplified(g), Real(me, g, n, At(b, s)), Image(g, At(b, s))) == Image(g, o)
  {
    hide Leaves, Goal, Number, InDegree, BlockStep, Simplified, Gathered, NoEmptyCycle, Cancelled;
    GatheredGraph(g);
    SimplifiedGathered(g);
    GatheredGraph(Simplified(g));
    EnteredGoal(g, b);
    ImageInRange(g, At(b, s));
    if n > 0 {
      SimplifyPreserves(me, g, b, s, n - 1);
      var p := RunGraph(me, g, n - 1, At(b, s));
      if p.At? {
        ImageStep(me, g, p.block, p.state);
      }
    }
  }

  lemma GatheredGraph(g: seq<Block>)
    requires Gathered(g)
    ensures WellFormedGraph(g)
  {
  }

  lemma ImageInRange(g: seq<Block>, o: Outcome)
    requires WellFormedGraph(g) && NoEmptyCycle(g) && Entered(g, o)
    ensures Image(g, o).At? ==> Image(g, o).block < |Simplified(g)|
  {
    hide Leaves, Goal, InDegree;
    if o.At? {
      EnteredGoal(g, o.block);
      NumberIndexes(g, Goal(g, o.block), |g|);
    }
  }

  /** One step of the original is one step of the image, or none. */
  lemma ImageStep(me: Meaning, g: seq<Block>, b: nat, s: State)
    requires Gathered(g) && NoEmptyCycle(g) && b < |g| && InDegree(g, b, |g|) > 0
    ensures
      var o := BlockStep(me, g[b], s);
      && Entered(g, o)
      && Image(g, At(b, s)).block < |Simplified(g)|
      && Image(g, o) ==
         if EmptyBranch(g[b]) then Image(g, At(b, s))
         else BlockStep(me, Simplified(g)[Image(g, At(b, s)).block], s)
  {
    hide Leaves, Goal, Number, InDegree, BlockStep, Simplified;
    ImageInRange(g, At(b, s));
    GoalStep(g, b);
    if EmptyBranch(g[b]) {
      SkippedStep(me, g, b, s);
    } else {
      KeptStep(me, g, b, s);
    }
  }

  lemma EnteredGoal(g: seq<Block>, b: nat)
    requires WellFormedGraph(g) && NoEmptyCycle(g) && b < |g| && InDegree(g, b, |g|) > 0
    ensures !Cancelled(g, Goal(g, b))
  {
    assert CanLeave(g, b);
    var n: nat :| Leaves(g, b, n);
    GoalKept(g, b, n);
  }

  /** From any place a run either has returned or makes a real step before long. */
  lemma {:induction false} RealAdvances(me: Meaning, g: seq<Block>, b: nat, s: State, n: nat, d: nat) returns (n': nat)
    requires Gathered(g) && b < |g|
    requires var p := RunGraph(me, g, n, At(b, s)); p.At? && Leaves(g, p.block, d)
    ensures n' > n && Real(me, g, n', At(b, s)) == Real(me, g, n, At(b, s)) + 1
    decreases d
  {
    var p := RunGraph(me, g, n, At(b, s));
    if EmptyBranch(g[p.block]) {
      SkipTo(me, g, p.block, p.state);
      n' := RealAdvances(me, g, b, s, n + 1, d - 1);
    } else {
      n' := n + 1;
    }
  }

  lemma SkipTo(me: Meaning, g: seq<Block>, b: nat, s: State)
    requires WellFormedGraph(g) && b < |g| && EmptyBranch(g[b])
    ensures BlockStep(me, g[b], s) == At(g[b].next0, s)
  {
  }

  /** And every run of the simplified graph comes from a run of the original. */
  lemma {:induction false} SimplifyReflects(me: Meaning, g: seq<Block>, b: nat, s: State, k: nat) returns (n: nat)
    requires Gathered(g) && NoEmptyCycle(g) && b < |g| && InDegree(g, b, |g|) > 0
    ensures
      var o := RunGraph(me, g, n, At(b, s));
      && Entered(g, o) && Gathered(Simplified(g)) && Number(g, Goal(g, b)) < |Simplified(g)|
      && RunGraph(me, Simplified(g), k, Image(g, At(b, s))) == Image(g, o)
  {
    hide Leaves, Goal, Number, InDegree, BlockStep;
    n := Reach(me, g, b, s, k);
    SimplifyPreserves(me, g, b, s, n);
    var o := RunGraph(me, g, n, At(b, s));
    if o.Returned? {
      ReturnedStays(me, Simplified(g), Real(me, g, n, At(b, s)), k, Image(g, At(b, s)));
    }
  }

  lemma {:induction false} Reach(me: Meaning, g: seq<Block>, b: nat, s: State, k: nat) returns (n: nat)
    requires Gathered(g) && NoEmptyCycle(g) && b < |g|
    ensures
      var r := Real(me, g, n, At(b, s));
      r == k || (r < k && RunGraph(me, g, n, At(b, s)).Returned?)
  {
    n := 0;
    if k > 0 {
      n := Reach(me, g, b, s, k - 1);
      var p := RunGraph(me, g, n, At(b, s));
      if p.At? {
        assert CanLeave(g, p.block);
        var d: nat :| Leaves(g, p.block, d);
        n := RealAdvances(me, g, b, s, n, d);
      }
    }
  }

  lemma {:induction false} ReturnedStays(me: Meaning, g: seq<Block>, r: nat, k: nat, o: Outcome)
    requires WellFormedGraph(g) && r <= k && (o.At? ==> o.block < |g|)
    requires RunGraph(me, g, r, o).Returned?
    ensures RunGraph(me, g, k, o) == RunGraph(me, g, r, o)
  {
    if r < k { ReturnedStays(me, g, r, k - 1, o); }
  }

  /** The function is entered at block 0 of the simplified graph.  That is the block its
      original entry leads to if and only if no lower-numbered block is kept; it is so
      whenever block 0 itself is not empty. */
  lemma EntryExact(g: seq<Block>)
    requires Gathered(g) && NoEmptyCycle(g)
    ensures Number(g, Goal(g, 0)) == 0 <==> (forall i :: 0 <= i < Goal(g, 0) ==> !Survives(g, i))
    ensures LeadsTo(g, 0, Goal(g, 0))
    ensures !(g[0].endKind == ByBranch && g[0].tacs == []) ==> Number(g, Goal(g, 0)) == 0
  {
    hide Goal, Number, Survives, InDegree, LeadsTo;
    AnyGoalLeads(g, 0);
    GoalStep(g, 0);
    NumberZero(g, Goal(g, 0));
    forall i | 0 <= i < |g| ensures Cancelled(g, i) <==> !Survives(g, i) { SurvivesExact(g, i); }
  }

  lemma {:induction false} NumberZero(g: seq<Block>, n: nat)
    requires n <= |g|
    ensures Number(g, n) == 0 <==> (forall i :: 0 <= i < n ==> Cancelled(g, i))
  {
    hide InDegree;
    if n > 0 {
      NumberZero(g, n - 1);
    }
  }

  /** A conditional block falls through to the block after it. */
  predicate FallsThrough(g: seq<Block>) {
    forall i :: 0 <= i < |g| && (g[i].endKind == ByBeqz || g[i].endKind == ByBnez) ==> g[i].next1 == i + 1
  }

  /** A loop without an initial statement: a jump over the update f(), the update, the
      test of temporary 1, the jump back to the update, the end. */
  const LoopGraph: seq<Block> := [
    Block([], ByBranch, None, 2, 2),
    Block([Call(None, Direct("f"))], ByBranch, None, 2, 2),
    Block([], ByBeqz, Some(1), 4, 3),
    Block([], ByBranch, None, 1, 1),
    Block([], ByReturn, None, 0, 0)]

  lemma LoopGraphOk()
    ensures Gathered(LoopGraph) && NoEmptyCycle(LoopGraph) && FallsThrough(LoopGraph)
  {
    assert Gathered(LoopGraph) && FallsThrough(LoopGraph);
    hide Gathered, FallsThrough;
    var g := LoopGraph;
    assert Leaves(g, 2, 0) && Leaves(g, 1, 0) && Leaves(g, 4, 0) && Leaves(g, 0, 1) && Leaves(g, 3, 1);
    assert CanLeave(g, 0) && CanLeave(g, 1) && CanLeave(g, 2) && CanLeave(g, 3) && CanLeave(g, 4);
  }

  /** Block 0 leads to block 2, but block 1 is kept and becomes the entry. */
  lemma LoopKept()
    ensures Gathered(LoopGraph) && NoEmptyCycle(LoopGraph)
    ensures !Cancelled(LoopGraph, 1) && !Cancelled(LoopGraph, 2) && !Cancelled(LoopGraph, 4)
    ensures Number(LoopGraph, 1) == 0 && Number(LoopGraph, 2) != 0
    ensures Goal(LoopGraph, 0) == 2 && Goal(LoopGraph, 2) == 2 && Goal(LoopGraph, 4) == 4
  {
    hide Goal, Number, InDegree, NoEmptyCycle;
    var g := LoopGraph;
    LoopGraphOk();
    GoalStep(g, 0);
    GoalStep(g, 2);
    GoalStep(g, 4);
    EdgeCounts(g, 1, 3, 5);
    EdgeCounts(g, 2, 1, 5);
    EdgeCounts(g, 4, 2, 5);
    assert EmptyBranch(g[0]);
    NumberZero(g, 1);
    NumberZero(g, 2);
  }

  /** A run of the loop whose test fails at once never calls f; the simplified graph calls
      it first. */
  lemma EntryMoves(me: Meaning, w: World)
    ensures Gathered(LoopGraph) && NoEmptyCycle(LoopGraph) && FallsThrough(LoopGraph)
    ensures Gathered(Simplified(LoopGraph))
    ensures
      var s := State(map[], [], w);
      var o := RunGraph(me, Simplified(LoopGraph), 3, At(0, s));
      && RunGraph(me, LoopGraph, 3, At(0, s)) == Returned(None, w)
      && o.Returned? && o.world.trace == w.trace + [Called(Label("f"), [])]
  {
    hide Goal, Number, InDegree, NoEmptyCycle, Simplified, BlockStep, Cancelled, Gathered, FallsThrough;
    LoopGraphOk();
    LoopKept();
    SimplifiedGathered(LoopGraph);
    GatheredGraph(LoopGraph);
    GatheredGraph(Simplified(LoopGraph));
    var g, s := LoopGraph, State(map[], [], w);
    var s1 := LoopSteps(me, s);
    KeptStep(me, g, 1, s);
    KeptStep(me, g, 2, s1);
    KeptStep(me, g, 4, s1);
    assert RunGraph(me, g, 1, At(0, s)) == At(2, s);
    assert RunGraph(me, g, 2, At(0, s)) == At(4, s);
    var h := Simplified(g);
    assert RunGraph(me, h, 1, At(0, s)) == At(Number(g, 2), s1);
    assert RunGraph(me, h, 2, At(0, s)) == At(Number(g, 4), s1);
  }

  /** The blocks of the loop, one by one. */
  lemma LoopSteps(me: Meaning, s: State) returns (s1: State)
    requires s.temps == map[] && s.args == []
    ensures s1.temps == map[] && s1.world.trace == s.world.trace + [Called(Label("f"), [])]
    ensures BlockStep(me, LoopGraph[0], s) == At(2, s)
    ensures BlockStep(me, LoopGraph[1], s) == At(2, s1)
    ensures BlockStep(me, LoopGraph[2], s) == At(4, s) && BlockStep(me, LoopGraph[2], s1) == At(4, s1)
    ensures BlockStep(me, LoopGraph[4], s) == Returned(None, s.world)
    ensures BlockStep(me, LoopGraph[4], s1) == Returned(None, s1.world)
  {
    var tac := Call(None, Direct("f"));
    s1 := Step(me, tac, s);
    assert [tac][..0] == [];
    assert Run(me, [], s) == s && Run(me, [tac], s) == s1;
  }
}
