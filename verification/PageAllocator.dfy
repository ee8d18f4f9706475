/** The page allocator in place: a list of block heads, a size and two flags per page. */
module PageAllocator {
  import opened Options
  import opened FreeList

  /** The blocks that a list of heads stands for, with the sizes kept in the head pages. */
  function BlocksOf(list: seq<nat>, size: seq<nat>): (r: seq<Block>)
    requires Heads(list, size)
    ensures |r| == |list| && forall i :: 0 <= i < |list| ==> r[i] == Block(list[i], size[list[i]])
  {
    seq(|list|, i requires 0 <= i < |list| => Block(list[i], size[list[i]]))
  }

  lemma FirstFitUnique(bs: seq<Block>, n: nat, i: nat)
    requires i <= |bs| && (i < |bs| ==> bs[i].size >= n) && forall j :: 0 <= j < i ==> bs[j].size < n
    ensures FirstFit(bs, n) == i
  {
    hide FirstFit;
  }

  lemma PlaceUnique(bs: seq<Block>, x: Block, i: nat)
    requires i <= |bs| && (i < |bs| ==> x.base < bs[i].base) && forall j :: 0 <= j < i ==> bs[j].base <= x.base
    ensures Place(bs, x) == i
  {
    hide Place;
  }

  lemma {:induction false} SizeBelowTotal(bs: seq<Block>, i: nat)
    requires i < |bs|
    ensures bs[i].size <= Total(bs)
  {
    if i < |bs| - 1 {
      SizeBelowTotal(bs[..|bs| - 1], i);
    }
  }

  /** The flag marks exactly the heads in the list. */
  ghost predicate HeadsMarked(list: seq<nat>, head: seq<bool>) {
    forall p :: 0 <= p < |head| ==> (head[p] <==> p in list)
  }

  /** The list after block i was cut at n. */
  function CutList(list: seq<nat>, i: nat, n: nat, size: nat): seq<nat>
    requires i < |list|
  {
    list[..i] + (if size > n then [list[i] + n] else []) + list[i + 1..]
  }

  ghost predicate Heads(list: seq<nat>, size: seq<nat>) {
    forall i :: 0 <= i < |list| ==> list[i] < |size|
  }

  lemma BlocksThree(a: seq<nat>, b: seq<nat>, c: seq<nat>, size: seq<nat>)
    requires Heads(a, size) && Heads(b, size) && Heads(c, size)
    ensures Heads(a + b + c, size)
    ensures BlocksOf(a + b + c, size) == BlocksOf(a, size) + BlocksOf(b, size) + BlocksOf(c, size)
  {
  }

  /** The sizes and the flags after the block at page was cut at n. */
  function CutSize(size: seq<nat>, page: nat, n: nat): seq<nat>
    requires page < |size| && n <= size[page] && (size[page] > n ==> page + n < |size|)
  {
    if size[page] > n then size[page + n := size[page] - n] else size
  }

  function CutHead(head: seq<bool>, page: nat, n: nat, size: nat): seq<bool>
    requires page < |head| && (size > n ==> page + n < |head|)
  {
    (if size > n then head[page + n := true] else head)[page := false]
  }

  lemma CutBlocks(list: seq<nat>, size: seq<nat>, i: nat, n: nat)
    requires Heads(list, size) && i < |list| && Spaced(BlocksOf(list, size), 0) && 0 < n <= size[list[i]]
    requires size[list[i]] > n ==> list[i] + n < |size|
    ensures
      var list', size' := CutList(list, i, n, size[list[i]]), CutSize(size, list[i], n);
      Heads(list', size') && BlocksOf(list', size') == Taken(BlocksOf(list, size), i, n)
  {
    var bs := BlocksOf(list, size);
    var size' := CutSize(size, list[i], n);
    assert forall j :: 0 <= j < |list| && j != i && size[list[i]] > n ==> bs[j].base != list[i] + n;
    hide Spaced;
    var front, mid, back := list[..i], (if size[list[i]] > n then [list[i] + n] else []), list[i + 1..];
    assert BlocksOf(front, size') == bs[..i];
    assert BlocksOf(back, size') == bs[i + 1..];
    assert BlocksOf(mid, size') == Rest(bs[i], n);
    BlocksThree(front, mid, back, size');
  }

  lemma CutHeads(list: seq<nat>, head: seq<bool>, i: nat, n: nat, size: nat)
    requires HeadsMarked(list, head) && i < |list| && list[i] < |head| && 0 < n <= size
    requires forall j :: 0 <= j < |list| && j != i ==> list[j] != list[i]
    requires size > n ==> list[i] + n < |head|
    ensures HeadsMarked(CutList(list, i, n, size), CutHead(head, list[i], n, size))
  {
    var list' := CutList(list, i, n, size);
    forall p | 0 <= p < |head| ensures CutHead(head, list[i], n, size)[p] <==> p in list' {
      if p in list && p != list[i] {
        var j :| 0 <= j < |list| && list[j] == p;
        assert p in list[..i] || p in list[i + 1..];
      }
    }
  }

  /** The list is disjoint and sorted, the count is its total, and the flags agree. */
  ghost predicate Good(list: seq<nat>, nr: nat, size: seq<nat>, head: seq<bool>, reserved: seq<bool>) {
    && |size| == |head| == |reserved| && Heads(list, size)
    && Spaced(BlocksOf(list, size), 0) && nr == Total(BlocksOf(list, size))
    && HeadsMarked(list, head)
    && (forall p :: p in Pages(BlocksOf(list, size)) ==> p < |size| && !reserved[p])
  }

  /** Blocks lie in range and have different heads. */
  lemma GoodBlock(list: seq<nat>, nr: nat, size: seq<nat>, head: seq<bool>, reserved: seq<bool>, i: nat)
    requires Good(list, nr, size, head, reserved) && i < |list|
    ensures size[list[i]] > 0 && list[i] + size[list[i]] <= |size| && size[list[i]] <= nr
    ensures forall j :: 0 <= j < |list| && j != i ==> list[j] != list[i]
  {
    var bs := BlocksOf(list, size);
    assert bs[i] == Block(list[i], size[list[i]]);
    PagesHas(bs, End(bs[i]) - 1);
    assert In(bs[i], End(bs[i]) - 1);
    SizeBelowTotal(bs, i);
    forall j | 0 <= j < |list| && j != i ensures list[j] != list[i] { assert bs[j].base == list[j]; }
  }

  lemma CutGood(list: seq<nat>, nr: nat, size: seq<nat>, head: seq<bool>, reserved: seq<bool>, i: nat, n: nat)
    requires Good(list, nr, size, head, reserved) && i < |list| && 0 < n <= size[list[i]]
    ensures list[i] + size[list[i]] <= |size| && n <= nr
    ensures
      var list', size' := CutList(list, i, n, size[list[i]]), CutSize(size, list[i], n);
      && Heads(list', size') && Good(list', nr - n, size', CutHead(head, list[i], n, size[list[i]]), reserved)
      && BlocksOf(list', size') == Taken(BlocksOf(list, size), i, n)
  {
    GoodBlock(list, nr, size, head, reserved, i);
    var bs := BlocksOf(list, size);
    hide Spaced, Total, Pages, HeadsMarked, Run;
    CutBlocks(list, size, i, n);
    CutHeads(list, head, i, n, size[list[i]]);
    hide CutList, Taken;
    TakenSpaced(bs, i, n, 0);
    TakenPages(bs, i, n);
    TakenTotal(bs, i, n);
  }

  class PageManager {
    /** Heads of the free blocks, by increasing address. */
    var list: seq<nat>
    var nrFree: nat
    /** Per page: the block size, whether it is the head of a free block, and whether the
        page is reserved. */
    const property: array<nat>
    const head: array<bool>
    const reserved: array<bool>

    ghost predicate Shaped()
      reads this, property
    {
      && property.Length == head.Length == reserved.Length && head != reserved
      && Heads(list, property[..])
    }

    ghost function Blocks(): seq<Block>
      requires Shaped()
      reads this, property
    {
      BlocksOf(list, property[..])
    }

    ghost predicate Valid()
      reads this, property, head, reserved
    {
      Shaped() && Good(list, nrFree, property[..], head[..], reserved[..])
    }

    /** All pages are reserved and none is free. */
    constructor (pages: nat)
      ensures Valid() && Blocks() == [] && property.Length == pages
      ensures fresh(property) && fresh(head) && fresh(reserved)
      ensures forall p :: 0 <= p < pages ==> reserved[p]
    {
      property := new nat[pages](_ => 0);
      head := new bool[pages](_ => false);
      reserved := new bool[pages](_ => true);
      list, nrFree := [], 0;
    }

    /** Where in the list a new head goes; the checks along the way cannot fail. */
    method FindPlace(base: nat) returns (i: nat)
      requires Shaped() && Spaced(Blocks(), 0) && base < property.Length && property[base] > 0
      requires forall k :: 0 <= k < |list| ==> ApartBy(Blocks()[k], Block(base, property[base]), 0)
      ensures i == Place(Blocks(), Block(base, property[base]))
    {
      ghost var bs := Blocks();
      i := 0;
      while i < |list| && list[i] < base
        invariant i <= |list|
        invariant forall k :: 0 <= k < i ==> bs[k].base < base
      {
        assert ApartBy(bs[i], Block(base, property[base]), 0);
        assert bs[i].base + bs[i].size <= base;
        i := i + 1;
      }
      if i < |list| {
        assert ApartBy(bs[i], Block(base, property[base]), 0);
        assert base != list[i] && base + property[base] <= list[i];
      }
      PlaceUnique(bs, Block(base, property[base]), i);
    }

    /** The first block with room is cut; its first n pages are the answer. */
    method AllocPages(n: nat) returns (page: Option<nat>)
      requires Valid() && n > 0
      modifies this, property, head
      ensures Valid()
      ensures (Blocks(), page) == Alloc(old(Blocks()), n)
    {
      ghost var bs := Blocks();
      if n > nrFree {
        forall j | 0 <= j < |bs| ensures bs[j].size < n { SizeBelowTotal(bs, j); }
        FirstFitUnique(bs, n, |bs|);
        return None;
      }
      var i := 0;
      while i < |list| && property[list[i]] < n
        invariant i <= |list| && forall k :: 0 <= k < i ==> bs[k].size < n
      {
        i := i + 1;
      }
      FirstFitUnique(bs, n, i);
      if i == |list| {
        return None;
      }
      page := Some(list[i]);
      Cut(i, n);
    }

    method Cut(i: nat, n: nat)
      requires Valid() && i < |list| && 0 < n <= property[list[i]]
      modifies this, property, head
      ensures Valid() && Blocks() == Taken(old(Blocks()), i, n)
    {
      CutGood(list, nrFree, property[..], head[..], reserved[..], i, n);
      hide Good, BlocksOf, Taken, Heads, CutList, CutSize, CutHead;
      var page, size := list[i], property[list[i]];
      Unmark(page, n);
      list, nrFree := CutList(list, i, n, size), nrFree - n;
    }

    /** The pages from page + n on become a block of their own; page is no head any more. */
    method Unmark(page: nat, n: nat)
      requires property.Length == head.Length && page < property.Length && n <= property[page] &&
        page + property[page] <= property.Length
      modifies property, head
      ensures property[..] == CutSize(old(property[..]), page, n)
      ensures head[..] == CutHead(old(head[..]), page, n, old(property[page]))
    {
      if property[page] > n {
        property[page + n] := property[page] - n;
        head[page + n] := true;
      }
      head[page] := false;
    }

    /** A block that is apart from all others goes to its place in the list. */
    method Link(base: nat)
      requires Shaped() && Ready(list, property[..], head[..], reserved[..], base)
      requires nrFree == Total(Blocks()) + property[base]
      modifies this
      ensures Valid() && Blocks() == Inserted(old(Blocks()), Block(base, property[base]))
    {
      var i := FindPlace(base);
      LinkGood(list, property[..], head[..], reserved[..], base, i);
      hide Good, BlocksOf, Inserted, Heads, Ready, Total;
      list := list[..i] + [base] + list[i..];
    }

    /** The region [base, base + n) becomes a free block of its own. */
    method InitMemmap(base: nat, n: nat)
      requires Valid() && n > 0 && base + n <= property.Length
      requires forall p :: base <= p < base + n ==> reserved[p]
      modifies this, property, head, reserved
      ensures Valid() && Blocks() == Inserted(old(Blocks()), Block(base, n))
      ensures forall p :: 0 <= p < property.Length ==> reserved[p] == (old(reserved[p]) && !(base <= p < base + n))
    {
      ghost var size0, head0, res0 := property[..], head[..], reserved[..];
      hide Good, BlocksOf, Inserted, Ready, Total, Heads;
      ClearPages(base, n);
      property[base] := n;
      head[base] := true;
      RegionReady(list, nrFree, size0, head0, res0, property[..], head[..], reserved[..], base, n);
      nrFree := nrFree + n;
      Link(base);
    }

    method ClearPages(base: nat, n: nat)
      requires property.Length == head.Length == reserved.Length && head != reserved && base + n <= property.Length
      modifies property, head, reserved
      ensures
        forall q :: 0 <= q < property.Length ==>
          property[q] == if base <= q < base + n then 0 else old(property[q])
      ensures forall q :: 0 <= q < property.Length ==> head[q] == (old(head[q]) && !(base <= q < base + n))
      ensures forall q :: 0 <= q < property.Length ==> reserved[q] == (old(reserved[q]) && !(base <= q < base + n))
    {
      for p := base to base + n
        invariant forall q :: 0 <= q < property.Length ==> property[q] == if base <= q < p then 0 else old(property[q])
        invariant forall q :: 0 <= q < property.Length ==> head[q] == (old(head[q]) && !(base <= q < p))
        invariant forall q :: 0 <= q < property.Length ==> reserved[q] == (old(reserved[q]) && !(base <= q < p))
      {
        property[p], head[p], reserved[p] := 0, false, false;
      }
    }

    /** The flags of pages that come back are clear already. */
    method ClearFlags(first: nat, n: nat)
      requires head.Length == reserved.Length && head != reserved && first + n <= head.Length
      requires forall p :: first <= p < first + n ==> !head[p] && !reserved[p]
      modifies head
      ensures head[..] == old(head[..])
    {
      for p := first to first + n
        invariant head[..] == old(head[..])
      {
        assert !reserved[p] && !head[p] by { assert head[p] == head[..][p] == old(head[..])[p]; }
        head[p] := false;
      }
    }

    /** The pages come back: neighbouring blocks are merged into the new one, which then
        goes to its place. */
    method FreePages(first: nat, n: nat)
      requires Valid() && n > 0 && first + n <= property.Length
      requires forall p :: first <= p < first + n ==> !reserved[p]
      requires Pages(Blocks()) !! Run(first, n)
      modifies this, property, head
      ensures Valid() && Blocks() == Free(old(Blocks()), first, n)
    {
      ghost var bs, size0, head0 := Blocks(), property[..], head[..];
      GoodRange(list, nrFree, property[..], head[..], reserved[..], first, n);
      MidStart(list, nrFree, size0, head0, reserved[..], first, n);
      FreePagesOk(list, nrFree, size0, head0, reserved[..], first, n);
      hide Good, BlocksOf, Inserted, Ready, Total, Pages, Run, Mid, Heads, Free, Usable;
      Mark(first, n);
      var base := Coalesce(first, bs, n);
      MidEnd(bs, Block(first, n), list, property[..], head[..], reserved[..], base);
      nrFree := nrFree + n;
      Link(base);
    }

    /** The pages become a block by themselves. */
    method Mark(first: nat, n: nat)
      requires head.Length == reserved.Length == property.Length && head != reserved && n > 0 &&
        first + n <= head.Length
      requires forall p :: first <= p < first + n ==> !head[p] && !reserved[p]
      modifies property, head
      ensures property[..] == old(property[..])[first := n] && head[..] == old(head[..])[first := true]
    {
      ClearFlags(first, n);
      property[first] := n;
      head[first] := true;
    }

    /** The merging loop: returns the head of the merged block. */
    method Coalesce(first: nat, ghost bs: seq<Block>, n: nat) returns (base: nat)
      requires Shaped() && Mid(bs, Block(first, n), list, 0, 0, property[..], head[..], first)
      modifies this`list, property, head
      ensures Shaped() && Mid(bs, Block(first, n), list, |list|, |bs|, property[..], head[..], base)
    {
      ghost var x := Block(first, n);
      base := first;
      var i := 0;
      ghost var k := 0;
      while i < |list|
        invariant Shaped() && Mid(bs, x, list, i, k, property[..], head[..], base)
        invariant i <= |list| && k <= |bs| && |list| - i == |bs| - k
        decreases |list| - i
      {
        var p := list[i];
        ghost var size0, head0 := property[..], head[..];
        if base + property[base] == p {
          JoinUp(bs, x, list, i, k, size0, head0, base);
          property[base] := property[base] + property[p];
          head[p] := false;
          list := list[..i] + list[i + 1..];
          assert property[..] == size0[base := size0[base] + size0[p]] && head[..] == head0[p := false];
        } else if p + property[p] == base {
          JoinDown(bs, x, list, i, k, size0, head0, base);
          property[p] := property[p] + property[base];
          head[base] := false;
          assert property[..] == size0[p := size0[p] + size0[base]] && head[..] == head0[base := false];
          base := p;
          list := list[..i] + list[i + 1..];
        } else {
          Stay(bs, x, list, i, k, size0, head0, base);
          i := i + 1;
        }
        k := k + 1;
      }
    }
  }

  // ----- the merging loop on values -----

  /** After k blocks of the list: the first i heads are the kept blocks, the rest is as it
      was, and base is the head of the growing block. */
  ghost predicate Mid(
    bs: seq<Block>, x: Block, list: seq<nat>, i: nat, k: nat, size: seq<nat>, head: seq<bool>, base: nat) {
    && |size| == |head| && Heads(list, size) && base < |size|
    && k <= |bs| && i <= |list| && |list| - i == |bs| - k
    && Spaced(bs, 0) && x.size > 0 && (forall j :: 0 <= j < |bs| ==> ApartBy(bs[j], x, 0))
    && BlocksOf(list, size) == Absorbed(bs, k, x).kept + bs[k..]
    && |Absorbed(bs, k, x).kept| == i
    && Block(base, size[base]) == Absorbed(bs, k, x).block
    && HeadsMarked(list + [base], head)
  }

  /** The block that the loop looks at. */
  lemma MidBlock(bs: seq<Block>, x: Block, list: seq<nat>, i: nat, k: nat, size: seq<nat>, head: seq<bool>, base: nat)
    requires Mid(bs, x, list, i, k, size, head, base) && i < |list|
    ensures k < |bs| && Block(list[i], size[list[i]]) == bs[k] && size[list[i]] > 0
    ensures base !in list && forall j :: 0 <= j < |list| && j != i ==> list[j] != list[i]
  {
    var m := Absorbed(bs, k, x);
    var now := BlocksOf(list, size);
    AbsorbedOk(bs, k, x, 0);
    assert now[i] == bs[k..][0];
    forall j | 0 <= j < |list| ensures list[j] != base {
      assert now[j].base == list[j];
      if j < i {
        assert now[j] == m.kept[j] && ApartBy(m.kept[j], m.block, 0);
      } else {
        assert now[j] == bs[k + j - i] && ApartBy(bs[k + j - i], m.block, 0);
      }
    }
    forall j | 0 <= j < |list| && j != i ensures list[j] != list[i] {
      assert now[j].base == list[j];
    }
  }

  /** A head leaves the list and the size of a page outside it changes. */
  lemma BlocksWithout(list: seq<nat>, size: seq<nat>, i: nat, q: nat, v: nat)
    requires Heads(list, size) && i < |list| && q < |size| && forall j :: 0 <= j < |list| && j != i ==> list[j] != q
    ensures
      var list' := list[..i] + list[i + 1..];
      && Heads(list', size[q := v])
      && BlocksOf(list', size[q := v]) == BlocksOf(list, size)[..i] + BlocksOf(list, size)[i + 1..]
  {
  }

  lemma TailOf(kept: seq<Block>, bs: seq<Block>, k: nat)
    requires k < |bs|
    ensures (kept + bs[k..])[..|kept|] + (kept + bs[k..])[|kept| + 1..] == kept + bs[k + 1..]
    ensures kept + bs[k..] == (kept + [bs[k]]) + bs[k + 1..]
  {
  }

  lemma JoinUp(bs: seq<Block>, x: Block, list: seq<nat>, i: nat, k: nat, size: seq<nat>, head: seq<bool>, base: nat)
    requires Mid(bs, x, list, i, k, size, head, base) && i < |list| && base + size[base] == list[i]
    ensures k < |bs|
    ensures
      Mid(bs, x, list[..i] + list[i + 1..], i, k + 1, size[base := size[base] + size[list[i]]],
        head[list[i] := false], base)
  {
    var v := size[base] + size[list[i]];
    MidBlock(bs, x, list, i, k, size, head, base);
    BlocksWithout(list, size, i, base, v);
    TailOf(Absorbed(bs, k, x).kept, bs, k);
    assert HeadsMarked(list[..i] + list[i + 1..] + [base], head[list[i] := false]);
    hide HeadsMarked, BlocksOf, Spaced;
  }

  lemma JoinDown(bs: seq<Block>, x: Block, list: seq<nat>, i: nat, k: nat, size: seq<nat>, head: seq<bool>, base: nat)
    requires Mid(bs, x, list, i, k, size, head, base) && i < |list| && base + size[base] != list[i] &&
      list[i] + size[list[i]] == base
    ensures k < |bs|
    ensures
      Mid(bs, x, list[..i] + list[i + 1..], i, k + 1, size[list[i] := size[list[i]] + size[base]],
        head[base := false], list[i])
  {
    var v := size[list[i]] + size[base];
    MidBlock(bs, x, list, i, k, size, head, base);
    BlocksWithout(list, size, i, list[i], v);
    TailOf(Absorbed(bs, k, x).kept, bs, k);
    assert HeadsMarked(list[..i] + list[i + 1..] + [list[i]], head[base := false]);
    hide HeadsMarked, BlocksOf, Spaced;
  }

  lemma Stay(bs: seq<Block>, x: Block, list: seq<nat>, i: nat, k: nat, size: seq<nat>, head: seq<bool>, base: nat)
    requires Mid(bs, x, list, i, k, size, head, base) && i < |list| && base + size[base] != list[i] &&
      list[i] + size[list[i]] != base
    ensures k < |bs| && Mid(bs, x, list, i + 1, k + 1, size, head, base)
  {
    MidBlock(bs, x, list, i, k, size, head, base);
    TailOf(Absorbed(bs, k, x).kept, bs, k);
    hide HeadsMarked, BlocksOf, Spaced;
  }

  // ----- before and after -----

  /** A block with its size and flag set, apart from all blocks of the list. */
  ghost predicate Ready(list: seq<nat>, size: seq<nat>, head: seq<bool>, reserved: seq<bool>, base: nat) {
    && |size| == |head| == |reserved| && Heads(list, size) && base < |size|
    && Spaced(BlocksOf(list, size), 0) && size[base] > 0
    && (forall k :: 0 <= k < |list| ==> ApartBy(BlocksOf(list, size)[k], Block(base, size[base]), 0))
    && HeadsMarked(list + [base], head)
    && (forall p :: p in Pages(BlocksOf(list, size)) || p in Run(base, size[base]) ==> p < |size| && !reserved[p])
  }

  lemma LinkHeads(list: seq<nat>, head: seq<bool>, base: nat, i: nat)
    requires HeadsMarked(list + [base], head) && i <= |list|
    ensures HeadsMarked(list[..i] + [base] + list[i..], head)
  {
    assert list == list[..i] + list[i..];
  }

  lemma LinkGood(list: seq<nat>, size: seq<nat>, head: seq<bool>, reserved: seq<bool>, base: nat, i: nat)
    requires Ready(list, size, head, reserved, base) && i == Place(BlocksOf(list, size), Block(base, size[base]))
    ensures
      var list' := list[..i] + [base] + list[i..];
      && Heads(list', size) && Good(list', Total(BlocksOf(list, size)) + size[base], size, head, reserved)
      && BlocksOf(list', size) == Inserted(BlocksOf(list, size), Block(base, size[base]))
  {
    var bs, x := BlocksOf(list, size), Block(base, size[base]);
    InsertedOk(bs, x, 0);
    InsertedPages(bs, x);
    LinkHeads(list, head, base, i);
    hide Spaced, Total, Pages, Run, HeadsMarked, Place;
    LinkBlocks(list, size, base, i);
    hide BlocksOf, Inserted;
  }

  lemma LinkBlocks(list: seq<nat>, size: seq<nat>, base: nat, i: nat)
    requires Heads(list, size) && base < |size| && i <= |list|
    ensures
      var bs, list' := BlocksOf(list, size), list[..i] + [base] + list[i..];
      Heads(list', size) && BlocksOf(list', size) == bs[..i] + [Block(base, size[base])] + bs[i..]
  {
    var bs := BlocksOf(list, size);
    assert BlocksOf(list[..i], size) == bs[..i];
    assert BlocksOf(list[i..], size) == bs[i..];
    assert BlocksOf([base], size) == [Block(base, size[base])];
    BlocksThree(list[..i], [base], list[i..], size);
  }

  /** Pages that are not free are no heads. */
  lemma GoodRange(list: seq<nat>, nr: nat, size: seq<nat>, head: seq<bool>, reserved: seq<bool>, first: nat, n: nat)
    requires Good(list, nr, size, head, reserved) && first + n <= |size| && Pages(BlocksOf(list, size)) !! Run(first, n)
    ensures forall p :: first <= p < first + n ==> p !in list && !head[p]
  {
    var bs := BlocksOf(list, size);
    forall i | 0 <= i < |list| ensures !(first <= list[i] < first + n) {
      PagesHas(bs, list[i]);
      assert In(bs[i], list[i]);
      assert In(Block(first, n), list[i]) <==> list[i] in Run(first, n);
    }
  }

  ghost predicate Usable(bs: seq<Block>, x: Block, reserved: seq<bool>) {
    forall p :: p in Pages(bs) || p in Run(x.base, x.size) ==> p < |reserved| && !reserved[p]
  }

  /** All pages that will be free are in range and not reserved. */
  lemma FreePagesOk(list: seq<nat>, nr: nat, size: seq<nat>, head: seq<bool>, reserved: seq<bool>, first: nat, n: nat)
    requires Good(list, nr, size, head, reserved) && first + n <= |size|
    requires forall p :: first <= p < first + n ==> !reserved[p]
    ensures Heads(list, size) && nr == Total(BlocksOf(list, size))
    ensures Usable(BlocksOf(list, size), Block(first, n), reserved)
  {
  }

  lemma MidStart(list: seq<nat>, nr: nat, size: seq<nat>, head: seq<bool>, reserved: seq<bool>, first: nat, n: nat)
    requires Good(list, nr, size, head, reserved) && n > 0 && first + n <= |size| &&
      Pages(BlocksOf(list, size)) !! Run(first, n)
    ensures Mid(BlocksOf(list, size), Block(first, n), list, 0, 0, size[first := n], head[first := true], first)
  {
    var bs := BlocksOf(list, size);
    GoodRange(list, nr, size, head, reserved, first, n);
    ApartFromRun(bs, first, n);
    assert BlocksOf(list, size[first := n]) == bs;
    assert [] + bs[0..] == bs;
  }

  /** After the merging loop the block is ready to be linked. */
  lemma MidEnd(
    bs: seq<Block>, x: Block, list: seq<nat>, size: seq<nat>, head: seq<bool>, reserved: seq<bool>, base: nat)
    requires Mid(bs, x, list, |list|, |bs|, size, head, base) && |reserved| == |size|
    requires Usable(bs, x, reserved)
    ensures Ready(list, size, head, reserved, base)
    ensures Total(BlocksOf(list, size)) + size[base] == Total(bs) + x.size
    ensures Inserted(BlocksOf(list, size), Block(base, size[base])) == Free(bs, x.base, x.size)
  {
    var m := Absorbed(bs, |bs|, x);
    AbsorbedOk(bs, |bs|, x, 0);
    AbsorbedPages(bs, |bs|, x);
    assert bs[..|bs|] == bs && m.kept + bs[|bs|..] == m.kept == BlocksOf(list, size);
    assert Block(x.base, x.size) == x;
    hide Spaced, Total, Pages, Run, HeadsMarked, Absorbed, Inserted, BlocksOf;
  }

  lemma RegionReady(
    list: seq<nat>, nr: nat, size: seq<nat>, head: seq<bool>, reserved: seq<bool>, size': seq<nat>, head': seq<bool>,
    reserved': seq<bool>, base: nat, n: nat)
    requires Good(list, nr, size, head, reserved) && n > 0 && base + n <= |size| == |size'| == |head'| == |reserved'|
    requires forall p :: base <= p < base + n ==> reserved[p]
    requires
      forall q :: 0 <= q < |size| ==>
        size'[q] == if q == base then n else if base <= q < base + n then 0 else size[q]
    requires forall q :: 0 <= q < |size| ==> head'[q] == (q == base || (head[q] && !(base <= q < base + n)))
    requires forall q :: 0 <= q < |size| ==> reserved'[q] == (reserved[q] && !(base <= q < base + n))
    ensures Heads(list, size) && Heads(list, size') && Ready(list, size', head', reserved', base)
    ensures BlocksOf(list, size') == BlocksOf(list, size) && nr == Total(BlocksOf(list, size))
  {
    var bs := BlocksOf(list, size);
    assert Pages(bs) !! Run(base, n);
    GoodRange(list, nr, size, head, reserved, base, n);
    ApartFromRun(bs, base, n);
    assert BlocksOf(list, size') == bs;
  }
}
