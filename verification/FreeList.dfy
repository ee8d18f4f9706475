/** First-fit free lists of page blocks as values, against the plain set of free pages. */
module FreeList {
  import opened Options

  /** size pages from base on. */
  datatype Block = Block(base: nat, size: nat)

  function End(b: Block): nat {
    b.base + b.size
  }

  /** Non-empty blocks by increasing address, at least gap pages apart: 0 is disjoint, 1 is
      disjoint and coalesced. */
  ghost predicate Spaced(bs: seq<Block>, gap: nat) {
    && (forall i :: 0 <= i < |bs| ==> bs[i].size > 0)
    && (forall i, j :: 0 <= i < j < |bs| ==> End(bs[i]) + gap <= bs[j].base)
  }

  ghost predicate In(b: Block, p: nat) {
    b.base <= p < End(b)
  }

  ghost predicate Covered(bs: seq<Block>, p: nat) {
    exists i :: 0 <= i < |bs| && In(bs[i], p)
  }

  /** The n pages from base on. */
  ghost function Run(base: nat, n: nat): set<nat> {
    set p: nat | base <= p < base + n && In(Block(base, n), p)
  }

  lemma {:induction false} RunSize(base: nat, n: nat)
    ensures |Run(base, n)| == n
  {
    if n == 0 {
      assert Run(base, 0) == {};
    } else {
      RunSize(base, n - 1);
      assert Run(base, n) == Run(base, n - 1) + {base + n - 1};
    }
  }

  /** The set of free pages that a list stands for. */
  ghost function Pages(bs: seq<Block>): set<nat> {
    if bs == [] then {} else Pages(bs[..|bs| - 1]) + Run(bs[|bs| - 1].base, bs[|bs| - 1].size)
  }

  lemma {:induction false} PagesHas(bs: seq<Block>, p: nat)
    ensures p in Pages(bs) <==> Covered(bs, p)
  {
    if bs != [] {
      var front, x := bs[..|bs| - 1], bs[|bs| - 1];
      PagesHas(front, p);
      if In(x, p) { assert In(bs[|bs| - 1], p); }
      if Covered(front, p) {
        var i :| 0 <= i < |front| && In(front[i], p);
        assert In(bs[i], p);
      }
      if Covered(bs, p) {
        var i :| 0 <= i < |bs| && In(bs[i], p);
        assert i < |front| ==> In(front[i], p);
      }
    }
  }

  function Total(bs: seq<Block>): nat {
    if bs == [] then 0 else Total(bs[..|bs| - 1]) + bs[|bs| - 1].size
  }

  lemma {:induction false} TotalConcat(a: seq<Block>, b: seq<Block>)
    ensures Total(a + b) == Total(a) + Total(b)
  {
    if b == [] {
      assert a + b == a;
    } else {
      TotalConcat(a, b[..|b| - 1]);
      assert (a + b)[..|a + b| - 1] == a + b[..|b| - 1];
    }
  }

  lemma {:induction false} PagesConcat(a: seq<Block>, b: seq<Block>)
    ensures Pages(a + b) == Pages(a) + Pages(b)
  {
    if b == [] {
      assert a + b == a;
    } else {
      PagesConcat(a, b[..|b| - 1]);
      assert (a + b)[..|a + b| - 1] == a + b[..|b| - 1];
    }
  }

  lemma PagesOne(x: Block)
    ensures Pages([x]) == Run(x.base, x.size)
  {
    assert [x][..0] == [];
    assert Pages([]) == {};
  }

  lemma TotalOne(x: Block)
    ensures Total([x]) == x.size
  {
    assert [x][..0] == [];
  }

  /** The total of the sizes is the number of free pages. */
  lemma {:induction false} TotalCountsPages(bs: seq<Block>)
    requires Spaced(bs, 0)
    ensures |Pages(bs)| == Total(bs)
  {
    if bs != [] {
      var front, x := bs[..|bs| - 1], bs[|bs| - 1];
      TotalCountsPages(front);
      RunSize(x.base, x.size);
      forall p | p in Pages(front) ensures p !in Run(x.base, x.size) { PagesHas(front, p); }
    }
  }

  // ----- the list is determined by the set -----

  lemma PagesTail(a: seq<Block>, p: nat)
    requires a != [] && Spaced(a, 1)
    ensures p in Pages(a[1..]) <==> p in Pages(a) && p > End(a[0])
    ensures p in Pages(a) <==> In(a[0], p) || p in Pages(a[1..])
  {
    assert a == [a[0]] + a[1..];
    PagesConcat([a[0]], a[1..]);
    PagesOne(a[0]);
    PagesHas(a[1..], p);
  }

  /** A coalesced list is the only one for its set of free pages. */
  lemma {:induction false} Canonical(a: seq<Block>, b: seq<Block>)
    requires Spaced(a, 1) && Spaced(b, 1) && Pages(a) == Pages(b)
    ensures a == b
  {
    hide Pages;
    if a == [] || b == [] {
      NoPages(a);
      NoPages(b);
    } else {
      SameHead(a, b);
      SameTail(a, b);
      Canonical(a[1..], b[1..]);
      assert a == [a[0]] + a[1..] && b == [b[0]] + b[1..];
    }
  }

  lemma NoPages(a: seq<Block>)
    requires Spaced(a, 1)
    ensures Pages(a) == {} <==> a == []
  {
    if a != [] {
      PagesTail(a, a[0].base);
    }
  }

  lemma SameTail(a: seq<Block>, b: seq<Block>)
    requires Spaced(a, 1) && Spaced(b, 1) && a != [] && b != [] && Pages(a) == Pages(b) && a[0] == b[0]
    ensures Pages(a[1..]) == Pages(b[1..])
  {
    hide Pages;
    forall p ensures p in Pages(a[1..]) <==> p in Pages(b[1..]) {
      PagesTail(a, p);
      PagesTail(b, p);
    }
  }

  /** The head of one list starts no later and ends no earlier than the other's. */
  lemma HeadNoLess(a: seq<Block>, b: seq<Block>)
    requires Spaced(a, 1) && Spaced(b, 1) && a != [] && b != [] && Pages(a) == Pages(b)
    ensures a[0].base <= b[0].base
    ensures a[0].base == b[0].base ==> End(b[0]) <= End(a[0])
  {
    PagesTail(b, b[0].base);
    PagesTail(a, b[0].base);
    if b[0].base != a[0].base {
      PagesHas(a[1..], b[0].base);
    } else {
      PagesTail(a, End(a[0]));
      PagesTail(b, End(a[0]));
    }
  }

  lemma SameHead(a: seq<Block>, b: seq<Block>)
    requires Spaced(a, 1) && Spaced(b, 1) && a != [] && b != [] && Pages(a) == Pages(b)
    ensures a[0] == b[0]
  {
    HeadNoLess(a, b);
    HeadNoLess(b, a);
  }

  // ----- allocation -----

  /** The first block with room for n pages, or the length of the list. */
  function FirstFit(bs: seq<Block>, n: nat): (i: nat)
    ensures i <= |bs| && (i < |bs| ==> bs[i].size >= n)
    ensures forall j :: 0 <= j < i ==> bs[j].size < n
  {
    if bs == [] then 0 else
      var i := FirstFit(bs[..|bs| - 1], n);
      assert i < |bs| - 1 ==> bs[..|bs| - 1][i] == bs[i];
      assert forall j :: 0 <= j < i ==> bs[..|bs| - 1][j] == bs[j];
      if i < |bs| - 1 || bs[i].size >= n then i else |bs|
  }

  function Rest(b: Block, n: nat): seq<Block>
    requires n <= b.size
  {
    if b.size > n then [Block(b.base + n, b.size - n)] else []
  }

  /** The first n pages of block i are taken out. */
  function Taken(bs: seq<Block>, i: nat, n: nat): seq<Block>
    requires i < |bs| && n <= bs[i].size
  {
    bs[..i] + Rest(bs[i], n) + bs[i + 1..]
  }

  function Alloc(bs: seq<Block>, n: nat): (r: (seq<Block>, Option<nat>)) {
    var i := FirstFit(bs, n);
    if i < |bs| then (Taken(bs, i, n), Some(bs[i].base)) else (bs, None)
  }

  ghost predicate FreeRun(free: set<nat>, base: nat, n: nat) {
    Run(base, n) <= free
  }

  /** In a coalesced list every run of free pages lies inside one block. */
  lemma {:induction false} RunInBlock(bs: seq<Block>, base: nat, n: nat) returns (i: nat)
    requires Spaced(bs, 1) && n > 0 && FreeRun(Pages(bs), base, n)
    ensures i < |bs| && bs[i].base <= base && base + n <= End(bs[i])
  {
    assert base + n - 1 in Run(base, n);
    PagesHas(bs, base + n - 1);
    var j :| 0 <= j < |bs| && In(bs[j], base + n - 1);
    i := j;
    if n > 1 {
      assert Run(base, n - 1) <= Run(base, n);
      i := RunInBlock(bs, base, n - 1);
      assert i == j;
    }
  }

  /** Allocation returns the lowest base of any run of n free pages, and fails exactly when
      there is none. */
  lemma AllocExact(bs: seq<Block>, n: nat)
    requires Spaced(bs, 1) && n > 0
    ensures Alloc(bs, n).1.None? <==> forall base :: !FreeRun(Pages(bs), base, n)
    ensures Alloc(bs, n).1.Some? ==> FreeRun(Pages(bs), Alloc(bs, n).1.value, n)
    ensures Alloc(bs, n).1.Some? ==> forall base :: FreeRun(Pages(bs), base, n) ==> Alloc(bs, n).1.value <= base
  {
    var i := FirstFit(bs, n);
    if i < |bs| {
      forall p | p in Run(bs[i].base, n) ensures p in Pages(bs) {
        PagesHas(bs, p);
        assert In(bs[i], p);
      }
      assert FreeRun(Pages(bs), bs[i].base, n);
    }
    hide FirstFit, Pages, Run, Taken;
    forall base | FreeRun(Pages(bs), base, n) ensures i < |bs| && bs[i].base <= base {
      var j := RunInBlock(bs, base, n);
      assert !(bs[j].size < n);
    }
  }

  lemma TakenSpaced(bs: seq<Block>, i: nat, n: nat, gap: nat)
    requires Spaced(bs, gap) && i < |bs| && n <= bs[i].size
    ensures Spaced(Taken(bs, i, n), gap)
  {
    var r := Taken(bs, i, n);
    var m := |Rest(bs[i], n)|;
    assert forall k :: 0 <= k < i ==> r[k] == bs[k];
    assert m == 1 ==> r[i] == Rest(bs[i], n)[0];
    assert forall k :: i + m <= k < |r| ==> r[k] == bs[k + 1 - m];
  }

  lemma PagesThree(a: seq<Block>, b: seq<Block>, c: seq<Block>)
    ensures Pages(a + b + c) == Pages(a) + Pages(b) + Pages(c)
  {
    hide Pages;
    PagesConcat(a + b, c);
    PagesConcat(a, b);
  }

  lemma RestPages(b: Block, n: nat)
    requires n <= b.size
    ensures Pages([b]) == Run(b.base, n) + Pages(Rest(b, n)) && Run(b.base, n) !! Pages(Rest(b, n))
  {
    PagesOne(b);
    if b.size > n {
      PagesOne(Rest(b, n)[0]);
    }
  }

  lemma NotElsewhere(bs: seq<Block>, i: nat, n: nat)
    requires Spaced(bs, 0) && i < |bs| && n <= bs[i].size
    ensures Run(bs[i].base, n) !! Pages(bs[..i]) && Run(bs[i].base, n) !! Pages(bs[i + 1..])
  {
    forall p | p in Run(bs[i].base, n) ensures p !in Pages(bs[..i]) && p !in Pages(bs[i + 1..]) {
      PagesHas(bs[..i], p);
      PagesHas(bs[i + 1..], p);
    }
  }

  /** Allocation takes exactly its run out of the set of free pages. */
  lemma TakenPages(bs: seq<Block>, i: nat, n: nat)
    requires Spaced(bs, 0) && i < |bs| && n <= bs[i].size
    ensures Pages(Taken(bs, i, n)) == Pages(bs) - Run(bs[i].base, n)
  {
    var front, back := bs[..i], bs[i + 1..];
    NotElsewhere(bs, i, n);
    hide Pages, Run, Spaced, Rest;
    assert bs == front + [bs[i]] + back;
    PagesThree(front, [bs[i]], back);
    PagesThree(front, Rest(bs[i], n), back);
    RestPages(bs[i], n);
  }

  lemma TakenTotal(bs: seq<Block>, i: nat, n: nat)
    requires i < |bs| && n <= bs[i].size
    ensures Total(Taken(bs, i, n)) == Total(bs) - n
  {
    var front, back, rest := bs[..i], bs[i + 1..], Rest(bs[i], n);
    assert bs == front + [bs[i]] + back;
    assert Total(rest) == bs[i].size - n by {
      if rest != [] { TotalOne(rest[0]); }
    }
    TotalOne(bs[i]);
    hide Total;
    TotalConcat(front + [bs[i]], back);
    TotalConcat(front, [bs[i]]);
    TotalConcat(front + rest, back);
    TotalConcat(front, rest);
  }

  // ----- release -----

  datatype Merge = Merge(kept: seq<Block>, block: Block)

  /** One turn of the merging loop: p joins the block from above or from below, or stays. */
  function Absorb(m: Merge, p: Block): Merge {
    if End(m.block) == p.base then Merge(m.kept, Block(m.block.base, m.block.size + p.size))
    else if End(p) == m.block.base then Merge(m.kept, Block(p.base, p.size + m.block.size))
    else Merge(m.kept + [p], m.block)
  }

  /** The merging loop over the first k blocks. */
  function Absorbed(bs: seq<Block>, k: nat, x: Block): Merge
    requires k <= |bs|
  {
    if k == 0 then Merge([], x) else Absorb(Absorbed(bs, k - 1, x), bs[k - 1])
  }

  /** Where a block goes: before the first one with a higher base. */
  function Place(bs: seq<Block>, x: Block): (i: nat)
    ensures i <= |bs| && (i < |bs| ==> x.base < bs[i].base)
    ensures forall j :: 0 <= j < i ==> bs[j].base <= x.base
  {
    if bs == [] then 0 else
      var i := Place(bs[..|bs| - 1], x);
      assert i < |bs| - 1 ==> bs[..|bs| - 1][i] == bs[i];
      assert forall j :: 0 <= j < i ==> bs[..|bs| - 1][j] == bs[j];
      if i < |bs| - 1 || x.base < bs[i].base then i else |bs|
  }

  function Inserted(bs: seq<Block>, x: Block): seq<Block> {
    bs[..Place(bs, x)] + [x] + bs[Place(bs, x)..]
  }

  function Free(bs: seq<Block>, base: nat, n: nat): seq<Block> {
    var m := Absorbed(bs, |bs|, Block(base, n));
    Inserted(m.kept, m.block)
  }

  ghost predicate ApartBy(a: Block, b: Block, gap: nat) {
    End(a) + gap <= b.base || End(b) + gap <= a.base
  }

  /** The loop's invariant: what is kept is spaced from the block and from what is left. */
  ghost predicate Merging(bs: seq<Block>, k: nat, m: Merge, gap: nat)
    requires k <= |bs|
  {
    && m.block.size > 0
    && Spaced(m.kept + bs[k..], gap)
    && (forall i :: 0 <= i < |m.kept| ==> ApartBy(m.kept[i], m.block, gap))
    && (forall i :: k <= i < |bs| ==> ApartBy(bs[i], m.block, 0))
  }

  /** The block at k lies between what is kept and what is left. */
  lemma Around(bs: seq<Block>, k: nat, kept: seq<Block>, gap: nat)
    requires k < |bs| && Spaced(kept + bs[k..], gap)
    ensures bs[k].size > 0
    ensures forall i :: 0 <= i < |kept| ==> kept[i].size > 0 && End(kept[i]) + gap <= bs[k].base
    ensures forall i :: k < i < |bs| ==> bs[i].size > 0 && End(bs[k]) + gap <= bs[i].base
    ensures Spaced(kept + bs[k + 1..], gap) && Spaced(kept + [bs[k]] + bs[k + 1..], gap)
  {
    var all := kept + bs[k..];
    var a := |kept|;
    assert all[a] == bs[k];
    assert forall i :: 0 <= i < a ==> all[i] == kept[i];
    assert forall i :: k < i < |bs| ==> all[a + i - k] == bs[i];
    assert kept + bs[k + 1..] == all[..a] + all[a + 1..];
    assert kept + [bs[k]] + bs[k + 1..] == all;
    SpacedWithout(all, a, gap);
  }

  lemma AbsorbKeeps(bs: seq<Block>, k: nat, m: Merge, gap: nat)
    requires k < |bs| && gap <= 1 && Merging(bs, k, m, gap)
    ensures Merging(bs, k + 1, Absorb(m, bs[k]), gap)
  {
    Around(bs, k, m.kept, gap);
    hide Spaced;
    assert ApartBy(bs[k], m.block, 0);
  }

  lemma SpacedWithout(bs: seq<Block>, i: nat, gap: nat)
    requires Spaced(bs, gap) && i < |bs|
    ensures Spaced(bs[..i] + bs[i + 1..], gap)
  {
    var r := bs[..i] + bs[i + 1..];
    assert forall k :: 0 <= k < |r| ==> r[k] == bs[if k < i then k else k + 1];
  }

  /** The pages and the sizes of the kept blocks and the block together. */
  ghost function MergePages(m: Merge): set<nat> {
    Pages(m.kept) + Run(m.block.base, m.block.size)
  }

  lemma AbsorbPages(m: Merge, p: Block)
    ensures MergePages(Absorb(m, p)) == MergePages(m) + Run(p.base, p.size)
    ensures Total(Absorb(m, p).kept) + Absorb(m, p).block.size == Total(m.kept) + m.block.size + p.size
  {
    PagesConcat(m.kept, [p]);
    PagesOne(p);
    TotalConcat(m.kept, [p]);
    TotalOne(p);
    hide Pages, Total;
  }

  lemma {:induction false} AbsorbedOk(bs: seq<Block>, k: nat, x: Block, gap: nat)
    requires k <= |bs| && gap <= 1 && Spaced(bs, gap) && x.size > 0
    requires forall i :: 0 <= i < |bs| ==> ApartBy(bs[i], x, 0)
    ensures Merging(bs, k, Absorbed(bs, k, x), gap)
  {
    if k == 0 {
      assert [] + bs[0..] == bs;
    } else {
      AbsorbedOk(bs, k - 1, x, gap);
      AbsorbKeeps(bs, k - 1, Absorbed(bs, k - 1, x), gap);
    }
  }

  lemma PrefixPages(bs: seq<Block>, k: nat)
    requires 0 < k <= |bs|
    ensures Pages(bs[..k]) == Pages(bs[..k - 1]) + Run(bs[k - 1].base, bs[k - 1].size)
    ensures Total(bs[..k]) == Total(bs[..k - 1]) + bs[k - 1].size
  {
    assert bs[..k][..k - 1] == bs[..k - 1];
  }

  lemma {:induction false} AbsorbedPages(bs: seq<Block>, k: nat, x: Block)
    requires k <= |bs|
    ensures MergePages(Absorbed(bs, k, x)) == Pages(bs[..k]) + Run(x.base, x.size)
    ensures Total(Absorbed(bs, k, x).kept) + Absorbed(bs, k, x).block.size == Total(bs[..k]) + x.size
  {
    if k == 0 {
      assert Pages([]) == {};
    } else {
      AbsorbedPages(bs, k - 1, x);
      AbsorbPages(Absorbed(bs, k - 1, x), bs[k - 1]);
      PrefixPages(bs, k);
      hide Pages, Run, Total, Absorb, MergePages;
    }
  }

  lemma InsertedOk(bs: seq<Block>, x: Block, gap: nat)
    requires Spaced(bs, gap) && x.size > 0 && forall i :: 0 <= i < |bs| ==> ApartBy(bs[i], x, gap)
    ensures Spaced(Inserted(bs, x), gap)
  {
    var i := Place(bs, x);
    var r := Inserted(bs, x);
    hide Place;
    assert forall j :: 0 <= j < i ==> r[j] == bs[j] && End(bs[j]) + gap <= x.base;
    assert forall j :: i < j < |r| ==> r[j] == bs[j - 1];
    assert r[i] == x;
    if i < |bs| {
      assert End(x) + gap <= bs[i].base;
      assert forall j :: i < j < |bs| ==> End(x) + gap <= bs[j].base;
    }
  }

  lemma InsertedPages(bs: seq<Block>, x: Block)
    ensures Pages(Inserted(bs, x)) == Pages(bs) + Run(x.base, x.size)
    ensures Total(Inserted(bs, x)) == Total(bs) + x.size
  {
    var i := Place(bs, x);
    var front, back := bs[..i], bs[i..];
    PagesOne(x);
    TotalOne(x);
    hide Pages, Run, Total;
    assert bs == front + back;
    PagesConcat(front, back);
    PagesConcat(front + [x], back);
    PagesConcat(front, [x]);
    TotalConcat(front, back);
    TotalConcat(front + [x], back);
    TotalConcat(front, [x]);
  }

  lemma ApartFromRun(bs: seq<Block>, base: nat, n: nat)
    requires n > 0 && Spaced(bs, 0) && Pages(bs) !! Run(base, n)
    ensures forall i :: 0 <= i < |bs| ==> ApartBy(bs[i], Block(base, n), 0)
  {
    forall i | 0 <= i < |bs| ensures ApartBy(bs[i], Block(base, n), 0) {
      var p := if bs[i].base < base then base else bs[i].base;
      PagesHas(bs, p);
      assert In(bs[i], p) ==> Covered(bs, p);
    }
  }

  /** Release adds exactly its run to the set of free pages, and keeps a disjoint list
      disjoint and a coalesced one coalesced. */
  lemma FreeRefines(bs: seq<Block>, base: nat, n: nat, gap: nat)
    requires n > 0 && gap <= 1 && Spaced(bs, gap) && Pages(bs) !! Run(base, n)
    ensures Spaced(Free(bs, base, n), gap)
    ensures Pages(Free(bs, base, n)) == Pages(bs) + Run(base, n)
    ensures Total(Free(bs, base, n)) == Total(bs) + n
  {
    var x := Block(base, n);
    ApartFromRun(bs, base, n);
    AbsorbedOk(bs, |bs|, x, gap);
    AbsorbedPages(bs, |bs|, x);
    var m := Absorbed(bs, |bs|, x);
    assert m.kept + bs[|bs|..] == m.kept && bs[..|bs|] == bs;
    hide Absorbed, Pages, Run, Total, Inserted, Spaced;
    InsertedOk(m.kept, m.block, gap);
    InsertedPages(m.kept, m.block);
  }

  /** Allocation refines taking the lowest run out of the set of free pages. */
  lemma AllocRefines(bs: seq<Block>, n: nat, gap: nat)
    requires n > 0 && Spaced(bs, gap)
    ensures Spaced(Alloc(bs, n).0, gap)
    ensures Alloc(bs, n).1.None? ==> Alloc(bs, n).0 == bs
    ensures Alloc(bs, n).1.Some? ==>
      && Total(Alloc(bs, n).0) == Total(bs) - n
      && Pages(Alloc(bs, n).0) == Pages(bs) - Run(Alloc(bs, n).1.value, n)
  {
    var i := FirstFit(bs, n);
    if i < |bs| {
      TakenSpaced(bs, i, n, gap);
      TakenPages(bs, i, n);
      TakenTotal(bs, i, n);
    }
  }

  /** Freeing an allocation restores the identical list. */
  lemma FreeUndoesAlloc(bs: seq<Block>, n: nat)
    requires n > 0 && Spaced(bs, 1) && Alloc(bs, n).1.Some?
    ensures Free(Alloc(bs, n).0, Alloc(bs, n).1.value, n) == bs
  {
    var (bs', r) := Alloc(bs, n);
    AllocRefines(bs, n, 1);
    AllocExact(bs, n);
    FreeRefines(bs', r.value, n, 1);
    assert Pages(bs') + Run(r.value, n) == Pages(bs);
    Canonical(Free(bs', r.value, n), bs);
  }

  // ----- any sequence of requests -----

  datatype Request = AllocPages(n: nat) | FreePages(base: nat, n: nat)

  function Serve(bs: seq<Block>, q: Request): (r: (seq<Block>, Option<nat>)) {
    match q
    case AllocPages(n) => Alloc(bs, n)
    case FreePages(base, n) => (Free(bs, base, n), None)
  }

  /** The plain machine over sets: what an allocation may answer is the lowest run. */
  ghost predicate SetStep(free: set<nat>, q: Request, answer: Option<nat>, free': set<nat>) {
    match q
    case AllocPages(n) =>
      (match answer
       case None => free' == free && forall base :: !FreeRun(free, base, n)
       case Some(b) =>
         && free' == free - Run(b, n) && FreeRun(free, b, n)
         && forall base :: FreeRun(free, base, n) ==> b <= base)
    case FreePages(base, n) => answer == None && free' == free + Run(base, n)
  }

  /** Callers ask for at least one page and free only pages that are not free. */
  ghost predicate Proper(free: set<nat>, q: Request) {
    q.n > 0 && (q.FreePages? ==> free !! Run(q.base, q.n))
  }

  lemma ServeRefines(bs: seq<Block>, q: Request)
    requires Spaced(bs, 1) && Proper(Pages(bs), q)
    ensures Spaced(Serve(bs, q).0, 1)
    ensures SetStep(Pages(bs), q, Serve(bs, q).1, Pages(Serve(bs, q).0))
  {
    match q
    case AllocPages(n) =>
      AllocRefines(bs, n, 1);
      AllocExact(bs, n);
    case FreePages(base, n) =>
      FreeRefines(bs, base, n, 1);
  }

  /** A run of the allocator over a sequence of requests. */
  ghost predicate IsRun(lists: seq<seq<Block>>, answers: seq<Option<nat>>, requests: seq<Request>) {
    && |lists| == |requests| + 1 && |answers| == |requests| && Spaced(lists[0], 1)
    && forall k :: 0 <= k < |requests| ==>
         Proper(Pages(lists[k]), requests[k]) && (lists[k + 1], answers[k]) == Serve(lists[k], requests[k])
  }

  /** After any sequence of requests the list is sorted, disjoint and coalesced, its total
      is the number of free pages, and every step is one of the set machine. */
  lemma {:induction false} RunsRefine(lists: seq<seq<Block>>, answers: seq<Option<nat>>, requests: seq<Request>, k: nat)
    requires IsRun(lists, answers, requests) && k <= |requests|
    ensures Spaced(lists[k], 1) && Total(lists[k]) == |Pages(lists[k])|
    ensures k < |requests| ==> SetStep(Pages(lists[k]), requests[k], answers[k], Pages(lists[k + 1]))
  {
    hide Serve, Spaced, SetStep;
    if k > 0 {
      RunsRefine(lists, answers, requests, k - 1);
      ServeRefines(lists[k - 1], requests[k - 1]);
      assert (lists[k], answers[k - 1]) == Serve(lists[k - 1], requests[k - 1]);
    }
    assert Spaced(lists[k], 0) by { SpacedWeaken(lists[k]); }
    TotalCountsPages(lists[k]);
    if k < |requests| {
      ServeRefines(lists[k], requests[k]);
      assert (lists[k + 1], answers[k]) == Serve(lists[k], requests[k]);
    }
  }

  lemma SpacedWeaken(bs: seq<Block>)
    requires Spaced(bs, 1)
    ensures Spaced(bs, 0)
  {
  }

  // ----- a new region -----

  /** A region is put in place without merging: the list stays coalesced exactly when
      the pages next to the region are not free. */
  lemma RegionCoalesces(bs: seq<Block>, x: Block)
    requires Spaced(bs, 1) && x.size > 0 && Pages(bs) !! Run(x.base, x.size)
    ensures Spaced(Inserted(bs, x), 0)
    ensures Spaced(Inserted(bs, x), 1) <==> End(x) !in Pages(bs) && (x.base > 0 ==> x.base - 1 !in Pages(bs))
  {
    ApartFromRun(bs, x.base, x.size);
    assert Block(x.base, x.size) == x;
    SpacedWeaken(bs);
    InsertedOk(bs, x, 0);
    if End(x) !in Pages(bs) && (x.base > 0 ==> x.base - 1 !in Pages(bs)) {
      NotAdjacent(bs, x);
      hide Pages, Run, Spaced, Inserted;
      InsertedOk(bs, x, 1);
    } else if End(x) in Pages(bs) {
      Adjacent(bs, x, End(x));
    } else {
      Adjacent(bs, x, x.base - 1);
    }
  }

  lemma NotAdjacent(bs: seq<Block>, x: Block)
    requires Spaced(bs, 1) && x.size > 0 && forall i :: 0 <= i < |bs| ==> ApartBy(bs[i], x, 0)
    requires End(x) !in Pages(bs) && (x.base > 0 ==> x.base - 1 !in Pages(bs))
    ensures forall i :: 0 <= i < |bs| ==> ApartBy(bs[i], x, 1)
  {
    forall i | 0 <= i < |bs| ensures ApartBy(bs[i], x, 1) {
      assert ApartBy(bs[i], x, 0);
      PagesHas(bs, End(x));
      assert !In(bs[i], End(x));
      if x.base > 0 {
        PagesHas(bs, x.base - 1);
        assert !In(bs[i], x.base - 1);
      }
    }
  }

  lemma Adjacent(bs: seq<Block>, x: Block, q: nat)
    requires Spaced(bs, 1) && x.size > 0 && Pages(bs) !! Run(x.base, x.size)
    requires q in Pages(bs) && (q == End(x) || q + 1 == x.base)
    ensures !Spaced(Inserted(bs, x), 1)
  {
    PagesHas(bs, q);
    var i :| 0 <= i < |bs| && In(bs[i], q);
    ApartFromRun(bs, x.base, x.size);
    assert ApartBy(bs[i], Block(x.base, x.size), 0);
    hide Pages, Run, Covered;
    var r, at := Inserted(bs, x), Place(bs, x);
    assert r[at] == x && r[if i < at then i else i + 1] == bs[i];
  }
}
