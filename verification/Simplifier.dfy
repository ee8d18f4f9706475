/** The in-place simplification, proved to produce the graph that Simplify specifies. */
module Simplifier {
  import opened Tac
  import opened Simplify

  datatype BB = BB(block: Block, bbNum: nat, inDegree: nat, cancelled: bool)

  function Blocks(bbs: seq<BB>): (r: seq<Block>)
    ensures |r| == |bbs|
  {
    seq(|bbs|, i requires 0 <= i < |bbs| => bbs[i].block)
  }

  /** As gathered: numbered in order, nothing counted or cancelled yet. */
  ghost predicate Fresh(bbs: seq<BB>) {
    forall i :: 0 <= i < |bbs| ==> bbs[i].bbNum == i && bbs[i].inDegree == 0 && !bbs[i].cancelled
  }

  ghost predicate Counted(bbs: seq<BB>, g: seq<Block>, k: nat) {
    && |bbs| == |g| && k <= |g|
    && forall i :: 0 <= i < |g| ==> bbs[i] == BB(g[i], i, InDegree(g, i, k), false)
  }

  /** Numbered, counted and marked; only blocks that are kept may have new edges. */
  ghost predicate Marked(bbs: seq<BB>, g: seq<Block>) {
    && |bbs| == |g|
    && forall i :: 0 <= i < |g| ==> MarkedAt(bbs, g, i)
  }

  ghost predicate MarkedAt(bbs: seq<BB>, g: seq<Block>, i: nat)
    requires i < |g| == |bbs|
  {
    bbs[i].bbNum == i && bbs[i].cancelled == Cancelled(g, i) && (bbs[i].cancelled ==> bbs[i].block == g[i])
  }

  ghost predicate ShortenedAt(bbs: seq<BB>, g: seq<Block>, i: nat)
    requires WellFormedGraph(g) && NoEmptyCycle(g) && i < |g| == |bbs|
  {
    bbs[i].block == if Cancelled(g, i) then g[i] else Rewired(g, g[i])
  }

  lemma CountStep(g: seq<Block>, k: nat, i: nat)
    requires k < |g|
    ensures InDegree(g, i, k + 1) == InDegree(g, i, k) + Into(g[k], i)
  {
  }

  class FlowGraphBlocks {
    var bbs: seq<BB>

    constructor (g: seq<Block>)
      ensures Blocks(bbs) == g && Fresh(bbs)
    {
      bbs := seq(|g|, i requires 0 <= i < |g| => BB(g[i], i, 0, false));
    }

    method CountDegrees(ghost g: seq<Block>)
      requires WellFormedGraph(g) && Blocks(bbs) == g && Fresh(bbs)
      modifies this
      ensures Counted(bbs, g, |g|)
    {
      hide InDegree;
      assert forall i :: 0 <= i < |g| ==> Blocks(bbs)[i] == g[i];
      bbs := bbs[0 := bbs[0].(inDegree := 1)];
      forall i: nat ensures InDegree(g, i, 0) == if i == 0 then 1 else 0 { DegreeStart(g, i); }
      for k := 0 to |bbs|
        invariant Counted(bbs, g, k)
      {
        ghost var before := bbs;
        var b := bbs[k].block;
        if b.endKind == ByBeqz || b.endKind == ByBnez {
          bbs := bbs[b.next1 := bbs[b.next1].(inDegree := bbs[b.next1].inDegree + 1)];
        }
        if b.endKind != ByReturn {
          bbs := bbs[b.next0 := bbs[b.next0].(inDegree := bbs[b.next0].inDegree + 1)];
        }
        forall i | 0 <= i < |g| ensures bbs[i] == BB(g[i], i, InDegree(g, i, k + 1), false) {
          CountStep(g, k, i);
          assert before[i] == BB(g[i], i, InDegree(g, i, k), false);
        }
      }
    }

    method MarkCancelled(ghost g: seq<Block>)
      requires Counted(bbs, g, |g|)
      modifies this
      ensures Marked(bbs, g) && Blocks(bbs) == g
      ensures forall i :: 0 <= i < |g| ==> (bbs[i].cancelled <==> !Survives(g, i))
    {
      hide InDegree, Survives;
      for k := 0 to |bbs|
        invariant |bbs| == |g|
        invariant forall i :: 0 <= i < k ==> MarkedAt(bbs, g, i) && bbs[i].block == g[i]
        invariant forall i :: k <= i < |g| ==> bbs[i] == BB(g[i], i, InDegree(g, i, |g|), false)
      {
        if bbs[k].inDegree <= 0 || (bbs[k].block.endKind == ByBranch && bbs[k].block.tacs == []) {
          bbs := bbs[k := bbs[k].(cancelled := true)];
        }
        assert MarkedAt(bbs, g, k);
      }
      forall i | 0 <= i < |g| ensures bbs[i].cancelled <==> !Survives(g, i) { SurvivesExact(g, i); }
    }

    /** Follow an edge through cancelled blocks. */
    method Trace(start: nat, ghost g: seq<Block>) returns (r: nat)
      requires WellFormedGraph(g) && NoEmptyCycle(g) && Marked(bbs, g) && start < |g|
      requires InDegree(g, start, |g|) > 0
      ensures r == Goal(g, start)
    {
      hide InDegree, Goal;
      assert CanLeave(g, start);
      ghost var d: nat :| Leaves(g, start, d);
      r := start;
      while bbs[r].cancelled
        invariant r < |g| && Leaves(g, r, d)
        invariant InDegree(g, r, |g|) > 0 && Goal(g, r) == Goal(g, start)
        decreases d
      {
        assert MarkedAt(bbs, g, r);
        GoalStep(g, r);
        EdgeCounts(g, g[r].next0, r, |g|);
        r, d := bbs[r].block.next0, d - 1;
      }
      assert MarkedAt(bbs, g, r);
      GoalStep(g, r);
    }

    /** Shorten the edges of block k. */
    method Rewire(k: nat, ghost g: seq<Block>)
      requires Gathered(g) && NoEmptyCycle(g) && Marked(bbs, g) && k < |g| && bbs[k].block == g[k]
      modifies this
      ensures |bbs| == |g| && bbs == old(bbs)[k := bbs[k]]
      ensures MarkedAt(bbs, g, k) && ShortenedAt(bbs, g, k)
    {
      hide InDegree, Goal, NoEmptyCycle;
      assert MarkedAt(bbs, g, k);
      var b := bbs[k].block;
      if bbs[k].cancelled || b.endKind == ByReturn {
        return;
      }
      EdgeCounts(g, b.next0, k, |g|);
      var t := Trace(b.next0, g);
      var b' := b.(next0 := t);
      if b.endKind == ByBeqz || b.endKind == ByBnez {
        EdgeCounts(g, b.next1, k, |g|);
        t := Trace(b.next1, g);
        b' := b'.(next1 := t);
        if b'.next0 == b'.next1 {
          b' := b'.(endKind := ByBranch);
        }
      } else {
        b' := b'.(next1 := b'.next0);
      }
      bbs := bbs[k := bbs[k].(block := b')];
    }

    method Shorten(ghost g: seq<Block>)
      requires Gathered(g) && NoEmptyCycle(g) && Marked(bbs, g) && Blocks(bbs) == g
      modifies this
      ensures Marked(bbs, g) && forall i :: 0 <= i < |g| ==> ShortenedAt(bbs, g, i)
    {
      hide ShortenedAt, Cancelled, NoEmptyCycle, Gathered;
      GatheredGraph(g);
      assert forall i :: 0 <= i < |g| ==> Blocks(bbs)[i] == g[i];
      for k := 0 to |bbs|
        invariant Marked(bbs, g)
        invariant forall i :: 0 <= i < k ==> ShortenedAt(bbs, g, i)
        invariant forall i :: k <= i < |g| ==> bbs[i].block == g[i]
      {
        ghost var before := bbs;
        Rewire(k, g);
        forall i | 0 <= i < |g| ensures MarkedAt(bbs, g, i) { assert MarkedAt(before, g, i); }
        forall i | 0 <= i < k ensures ShortenedAt(bbs, g, i) { ShortenedSame(before, bbs, g, i); }
      }
    }

    /** Move the kept blocks to the front and record their new numbers. */
    method Compact(ghost g: seq<Block>) returns (newNum: map<nat, nat>)
      requires Marked(bbs, g)
      modifies this
      ensures |bbs| == Number(g, |g|)
      ensures forall j :: 0 <= j < |bbs| ==> bbs[j] == old(bbs)[Kept(g, |g|)[j]] && !bbs[j].cancelled
      ensures forall i :: 0 <= i < |g| && !Cancelled(g, i) ==> i in newNum && newNum[i] == Number(g, i)
    {
      hide InDegree, Cancelled, Kept;
      newNum := map[];
      KeptStart(g);
      var sz := 0;
      ghost var was := bbs;
      for i := 0 to |bbs|
        invariant |bbs| == |g| && sz == Number(g, i) <= i
        invariant Moved(bbs, was, Kept(g, i), i)
        invariant forall j :: 0 <= j < i && !Cancelled(g, j) ==> j in newNum && newNum[j] == Number(g, j)
      {
        assert MarkedAt(was, g, i);
        KeptSnoc(g, i);
        MoveOne(bbs, was, Kept(g, i), i);
        if !bbs[i].cancelled {
          newNum := newNum[i := sz];
          if i > sz {
            bbs := bbs[sz := bbs[i]];
          }
          sz := sz + 1;
        }
      }
      bbs := bbs[..sz];
      forall j | 0 <= j < |bbs| ensures !bbs[j].cancelled { assert MarkedAt(was, g, Kept(g, |g|)[j]); }
    }

    /** New numbers for block j and its successors. */
    method Renumber(j: nat, newNum: map<nat, nat>, ghost g: seq<Block>, ghost i: nat)
      requires Gathered(g) && NoEmptyCycle(g) && i < |g| && j < |bbs|
      requires !Cancelled(g, i) && bbs[j].bbNum == i && bbs[j].block == Rewired(g, g[i]) && Number(g, i) == j
      requires forall k :: 0 <= k < |g| && !Cancelled(g, k) ==> k in newNum && newNum[k] == Number(g, k)
      modifies this
      ensures |bbs| == |old(bbs)| && bbs == old(bbs)[j := bbs[j]]
      ensures bbs[j].bbNum == j && bbs[j].block == Renumbered(g, Rewired(g, g[i]))
      ensures bbs[j].cancelled == old(bbs[j].cancelled)
    {
      hide InDegree, Cancelled, Kept, Goal, NoEmptyCycle, Number;
      if g[i].endKind != ByReturn {
        RewiredKept(g, i);
      }
      var bb := bbs[j];
      bb := bb.(bbNum := newNum[bb.bbNum]);
      if bb.block.endKind != ByReturn {
        bb := bb.(block := bb.block.(next0 := newNum[bb.block.next0], next1 := newNum[bb.block.next1]));
      }
      bbs := bbs[j := bb];
    }

    /** All of it. */
    method Simplify()
      requires Gathered(Blocks(bbs)) && NoEmptyCycle(Blocks(bbs)) && Fresh(bbs)
      modifies this
      ensures Blocks(bbs) == Simplified(old(Blocks(bbs))) && Gathered(Blocks(bbs))
      ensures SimplifiesTo(old(Blocks(bbs)), Blocks(bbs))
      ensures forall j :: 0 <= j < |bbs| ==> bbs[j].bbNum == j && !bbs[j].cancelled
    {
      hide InDegree, NoEmptyCycle, Gathered, Goal, Kept, Rewired, Renumbered, SimplifiesTo;
      ghost var g := Blocks(bbs);
      GatheredGraph(g);
      CountDegrees(g);
      MarkCancelled(g);
      Shorten(g);
      ghost var shortened := bbs;
      var newNum := Compact(g);
      ghost var kept, compacted := Kept(g, |g|), bbs;
      for j := 0 to |bbs|
        invariant |bbs| == |compacted|
        invariant forall i :: 0 <= i < j ==> bbs[i].bbNum == i && bbs[i].block == Renumbered(g, Rewired(g, g[kept[i]]))
        invariant forall i :: 0 <= i < |bbs| ==> !bbs[i].cancelled
        invariant forall i :: j <= i < |bbs| ==> bbs[i] == compacted[i]
      {
        ghost var i := kept[j];
        assert MarkedAt(shortened, g, i) && ShortenedAt(shortened, g, i);
        KeptNumber(g, |g|, j);
        Renumber(j, newNum, g, i);
      }
      assert Blocks(bbs) == Simplified(g);
      SimplifiedBlocks(g);
      SimplifiedGathered(g);
    }
  }

  lemma KeptStart(g: seq<Block>)
    ensures Kept(g, 0) == []
  {
  }

  lemma KeptSnoc(g: seq<Block>, i: nat)
    requires i < |g|
    ensures Kept(g, i + 1) == Kept(g, i) + (if Cancelled(g, i) then [] else [i])
  {
    hide Cancelled;
  }

  /** The kept ones of the first i blocks are in front; the others are where they were. */
  ghost predicate Moved(bbs: seq<BB>, was: seq<BB>, kept: seq<nat>, i: nat) {
    && |kept| <= i <= |bbs| == |was| && (forall j :: 0 <= j < |kept| ==> kept[j] < |was| && bbs[j] == was[kept[j]])
    && forall j :: i <= j < |bbs| ==> bbs[j] == was[j]
  }

  lemma MoveOne(bbs: seq<BB>, was: seq<BB>, kept: seq<nat>, i: nat)
    requires Moved(bbs, was, kept, i) && i < |bbs|
    ensures bbs[i] == was[i] && Moved(bbs, was, kept, i + 1) && kept + [] == kept
    ensures Moved(bbs[|kept| := bbs[i]], was, kept + [i], i + 1)
    ensures |kept| == i ==> bbs[|kept| := bbs[i]] == bbs
  {
  }

  lemma DegreeStart(g: seq<Block>, i: nat)
    ensures InDegree(g, i, 0) == if i == 0 then 1 else 0
  {
  }

  lemma ShortenedSame(a: seq<BB>, b: seq<BB>, g: seq<Block>, i: nat)
    requires WellFormedGraph(g) && NoEmptyCycle(g) && i < |g| == |a| == |b|
    requires a[i] == b[i] && ShortenedAt(a, g, i)
    ensures ShortenedAt(b, g, i)
  {
  }

  lemma {:induction false} KeptNumber(g: seq<Block>, n: nat, j: nat)
    requires n <= |g| && j < |Kept(g, n)|
    ensures Number(g, Kept(g, n)[j]) == j
  {
    hide InDegree, Cancelled;
    if j < |Kept(g, n - 1)| {
      KeptNumber(g, n - 1, j);
    }
  }

  lemma RewiredKept(g: seq<Block>, i: nat)
    requires Gathered(g) && NoEmptyCycle(g) && i < |g| && g[i].endKind != ByReturn
    ensures
      var b := Rewired(g, g[i]);
      && b.next0 < |g| && b.next1 < |g| && b.endKind != ByReturn
      && !Cancelled(g, b.next0) && !Cancelled(g, b.next1)
  {
    hide InDegree, Goal;
    SuccessorKept(g, i, g[i].next0);
    if g[i].endKind != ByBranch {
      SuccessorKept(g, i, g[i].next1);
    }
  }
}
