/** The small-object heap in place: first-fit allocation from a ring of free blocks that
    grows by one page at a time. */
module Slob {
  import opened Options
  import opened SlobRing
  import opened SlobSpec

  /** A failed assertion, or the answer of slob_alloc. */
  datatype Outcome = Stopped | Answer(block: Option<nat>)

  class Heap {
    /** The two words of each block header, and where the search begins. */
    var units: map<nat, nat>
    var next: map<nat, nat>
    var slobfree: nat
    const arena: nat
    ghost var heads: set<nat>
    ghost var held: map<nat, nat>
    ghost var intact: set<nat>

    ghost function H(): Ring
      reads this
    {
      Ring(heads, units, next)
    }

    ghost function Value(): State
      reads this
    {
      State(H(), slobfree, held, intact)
    }

    constructor (arenaAt: nat)
      ensures arena == arenaAt && Value() == Empty(arena) && Valid(Value(), arena)
    {
      arena, slobfree := arenaAt, arenaAt;
      units, next := map[arenaAt := 1], map[arenaAt := arenaAt];
      heads, held, intact := {arenaAt}, map[], {};
      EmptyValid(arenaAt);
    }

    /** The block to insert behind: the scan ends, since every turn comes closer to it. */
    method FindPlace(b: nat) returns (cur: nat)
      requires Good(H(), slobfree, arena) && b !in heads
      ensures Before(H(), cur, b)
    {
      PlaceExists(H(), b);
      ghost var t :| Before(H(), t, b);
      ghost var top := Largest(heads);
      cur := slobfree;
      PlaceTest(H(), t, b);
      while true
        invariant cur in heads
        decreases Distance(cur, t, top)
      {
        PlaceTest(H(), cur, b);
        assert LinkedAt(H(), cur);
        if cur < b < next[cur] {
          return;
        }
        if cur >= next[cur] && (b > cur || b < next[cur]) {
          return;
        }
        Closer(H(), cur, t, top);
        cur := next[cur];
      }
    }

    /** Insert the block behind cur, merging it with the blocks that it touches. */
    method Insert(cur: nat, b: nat, n: nat)
      requires Ok(H()) && Before(H(), cur, b) && b !in heads && n > 0
      modifies this`units, this`next, this`slobfree, this`heads
      ensures H() == Released(old(H()), cur, b, n) && slobfree == cur
    {
      ghost var h := H();
      assert LinkedAt(h, cur) && cur in units;
      AbsorbNext(cur, b, n);
      hide Ok, Before, JoinedUp, SizeUp;
      if cur + units[cur] == b {
        units := units[cur := units[cur] + units[b]];
        next := next[cur := next[b]];
      } else {
        next := next[cur := b];
        heads := heads + {b};
      }
      slobfree := cur;
      ghost var r := Released(h, cur, b, n);
      assert heads == r.heads;
      assert units == r.units;
      assert next == r.next;
    }

    /** The block takes over its successor if it touches it; its header is written. */
    method AbsorbNext(cur: nat, b: nat, n: nat)
      requires Ok(H()) && cur in heads && b !in heads
      modifies this`units, this`next, this`heads
      ensures
        var h, h1 := old(H()), JoinedUp(old(H()), cur, b, n);
        && heads == h1.heads && units == h.units[b := SizeUp(h, cur, b, n)] && next == h.next[b := Next(h1, cur)]
        && h1.units == h.units && h1.next == h.next[cur := Next(h1, cur)]
    {
      ghost var h := H();
      assert LinkedAt(h, cur);
      var nxt := next[cur];
      assert LinkedAt(h, nxt) && nxt in units;
      hide Ok;
      units := units[b := n];
      if b + units[b] == nxt {
        units := units[b := units[b] + units[nxt]];
        next := next[b := next[nxt]];
        heads := heads - {nxt};
      } else {
        next := next[b := nxt];
        assert h.next == h.next[cur := nxt];
      }
    }

    /** slob_free: a size of zero means the size in the header. */
    method SlobFree(b: nat, size: nat)
      requires Valid(Value(), arena) && Proper(Value(), FreeBlock(b, size), arena)
      modifies this
      ensures Valid(Value(), arena) && Serves(old(Value()), FreeBlock(b, size), None, Value())
      ensures Conserves(old(Value()), FreeBlock(b, size), Value())
      ensures forall p :: Free(H(), p) <==> old(Free(H(), p)) || In(b, old(held[b]), p)
      ensures held == old(held) - {b} && intact == old(intact) - {b} && Before(old(H()), slobfree, b)
    {
      ghost var s := Value();
      HeldOutside(s, b);
      var n := if size > 0 then SlobUnits(size) else if b in units then units[b] else 0;
      assert n == s.held[b] > 0;
      var cur := FindPlace(b);
      ReturnKeeps(s, b, cur, arena);
      Insert(cur, b, n);
      held, intact := held - {b}, intact - {b};
      hide Released, Before, Valid;
      assert Value() == Returned(s, b, cur);
    }

    /** The first n units of cur leave the ring; the search will go on at prev. */
    method Take(prev: nat, cur: nat, n: nat)
      requires Ok(H()) && prev in heads && Next(H(), prev) == cur && 0 < n <= Size(H(), cur)
      requires prev == cur ==> n == Size(H(), cur)
      modifies this`units, this`next, this`slobfree, this`heads
      ensures H() == (if prev == cur then old(H()) else Taken(old(H()), prev, cur, n)) && slobfree == prev
    {
      ghost var h := H();
      assert LinkedAt(h, prev) && LinkedAt(h, cur) && cur in units;
      assert ApartAt(h, cur, prev);
      hide Ok;
      if units[cur] == n {
        next := next[prev := next[cur]];
        heads := if prev == cur then heads else heads - {cur};
      } else {
        var rest := cur + n;
        next := next[prev := rest];
        units := units[rest := units[cur] - n];
        next := next[rest := next[cur]];
        units := units[cur := n];
        heads := heads - {cur} + {rest};
        TakenIs(h, prev, cur, n);
      }
      slobfree := prev;
    }

    /** slob_alloc with a page that the page allocator would give: the first block in ring
        order that fits; if there is none, one page is added and then a block fits. */
    method SlobAlloc(size: nat, page: Option<nat>) returns (r: Option<nat>, grew: bool)
      requires Valid(Value(), arena) && Proper(Value(), Alloc(size, page), arena)
      modifies this
      ensures Serves(old(Value()), Alloc(size, page), r, Value())
      ensures Valid(Value(), arena) <==> r != Some(arena)
      ensures r == Some(arena) <==> SlobUnits(size) == 1 && Next(old(H()), old(slobfree)) == arena
      ensures r != Some(arena) ==> Conserves(old(Value()), Alloc(size, page), Value())
      ensures r.None? <==> page.None? && NoFit(old(H()), SlobUnits(size))
      ensures grew <==> page.Some? && NoFit(old(H()), SlobUnits(size))
      ensures
        r.Some? ==>
          && r.value !in old(held) && held == old(held)[r.value := SlobUnits(size)]
          && intact == old(intact) + {r.value}
      ensures r.None? ==> Value() == old(Value())
      ensures Resumes(old(Value()), Alloc(size, page), r, slobfree)
      ensures r.Some? && !grew ==> FirstFit(old(H()), old(slobfree), SlobUnits(size), slobfree, r.value)
      ensures
        r.Some? && r.value != arena ==> forall p :: Free(H(), p) <==>
          (old(Free(H(), p)) || (grew && In(page.value, PAGE_UNITS, p))) && !In(r.value, SlobUnits(size), p)
    {
      hide Valid, Owns;
      var n := SlobUnits(size);
      ghost var s := Value();
      grew := false;
      while true
        invariant Valid(Value(), arena) && held == s.held && intact == s.intact && Prepared(s, n, page, Value())
        invariant !grew ==> Value() == s
        invariant grew ==> page.Some? && NoFit(s.ring, n)
        invariant forall p :: Free(H(), p) <==> Free(s.ring, p) || (grew && In(page.value, PAGE_UNITS, p))
        decreases !grew
      {
        assert Good(H(), slobfree, arena) by { ValidGood(Value(), arena); }
        var prev, cur, found := Search(n);
        if found {
          ghost var s1 := Value();
          HandOver(prev, cur, n);
          assert Cuts(s, n, page, cur, s1, prev);
          r := Some(cur);
          ServeKeeps(s, Alloc(size, page), r, Value(), arena);
          assert !grew ==> !NoFit(s.ring, n) by { SomeFit(s.ring, n, cur, grew, s1.ring); }
          return;
        }
        if grew {
          PageFits(H(), page.value, n);
          assert false;
        }
        if page.None? {
          ServeKeeps(s, Alloc(size, page), None, Value(), arena);
          return None, false;
        }
        AddPage(page.value, n);
        grew := true;
      }
    }

    /** What kmalloc asks of slob_alloc: eight sizes stop at its assertion, and zero is the
        only size that can be given the arena. */
    method Kmalloc(size: nat, page: Option<nat>) returns (out: Outcome)
      requires Valid(Value(), arena) && (page.Some? ==> Fresh(Value(), page.value, arena))
      modifies this
      ensures out.Stopped? <==> 4080 <= size < 4088
      ensures out.Stopped? ==> Value() == old(Value())
      ensures out.Answer? ==> Serves(old(Value()), Alloc(KmallocBytes(size), page), out.block, Value())
      ensures Valid(Value(), arena) <==> !(size == 0 && Next(old(H()), old(slobfree)) == arena)
      ensures
        size < 4080 && out.Answer? && out.block.Some? ==>
          out.block.value in held && SLOB_UNIT * (held[out.block.value] - 1) >= size
    {
      KmallocGuard(size);
      var bytes := if size < PAGE_SIZE - SLOB_UNIT then size + SLOB_UNIT else BIGBLOCK;
      if bytes + SLOB_UNIT >= PAGE_SIZE {
        return Stopped;
      }
      var r, grew := SlobAlloc(bytes, page);
      out := Answer(r);
    }

    /** Once around the ring from slobfree: the first block that fits and the one before it. */
    method Search(n: nat) returns (prev: nat, cur: nat, found: bool)
      requires Good(H(), slobfree, arena) && n > 0
      ensures found ==> FirstFit(H(), slobfree, n, prev, cur)
      ensures !found ==> NoFit(H(), n)
    {
      prev := slobfree;
      assert LinkedAt(H(), prev);
      cur := next[prev];
      forall y | y in heads ensures !Passed(slobfree, y, cur) { PassNone(H(), slobfree, y); }
      ghost var top := Largest(heads);
      while true
        invariant prev in heads && cur in heads && Next(H(), prev) == cur
        invariant forall y :: y in heads && Passed(slobfree, y, cur) ==> Size(H(), y) < n
        decreases Distance(cur, slobfree, top)
      {
        assert LinkedAt(H(), cur) && cur in units;
        if units[cur] >= n {
          return prev, cur, true;
        }
        if cur == slobfree {
          return prev, cur, false;
        }
        Closer(H(), cur, slobfree, top);
        forall y | y in heads && Passed(slobfree, y, next[cur]) ensures Size(H(), y) < n {
          PassOne(H(), slobfree, cur, y);
        }
        prev := cur;
        cur := next[cur];
      }
    }

    /** The block is cut and becomes an allocated one. */
    method HandOver(prev: nat, cur: nat, n: nat)
      requires Valid(Value(), arena) && prev in heads && Next(H(), prev) == cur && 1 <= n <= Size(H(), cur)
      modifies this
      ensures Value() == Given(old(Value()), prev, cur, n) && cur !in old(held)
      ensures cur != arena ==> forall p :: Free(H(), p) <==> old(Free(H(), p)) && !In(cur, n, p)
    {
      NotAlone(H(), arena, prev, cur);
      GiveKeeps(Value(), prev, cur, n, arena);
      Take(prev, cur, n);
      held, intact := held[cur := n], intact + {cur};
    }

    /** A fresh page joins the free blocks. */
    method AddPage(page: nat, ghost n: nat)
      requires Valid(Value(), arena) && Fresh(Value(), page, arena) && NoFit(H(), n)
      modifies this`units, this`next, this`slobfree, this`heads
      ensures Valid(Value(), arena) && Prepared(old(Value()), n, Some(page), Value())
      ensures forall p :: Free(H(), p) <==> old(Free(H(), p)) || In(page, PAGE_UNITS, p)
    {
      ghost var s := Value();
      Insertable(s.ring, page, PAGE_UNITS, arena);
      var cur := FindPlace(page);
      PageKeeps(s, page, cur, arena);
      Insert(cur, page, SlobUnits(PAGE_SIZE));
      hide Released, Before, Valid;
      assert Value() == Grown(s, page, cur);
    }
  }

  lemma SomeFit(h: Ring, n: nat, cur: nat, grew: bool, h1: Ring)
    requires (!grew ==> h1 == h) && cur in h1.heads && n <= Size(h1, cur)
    ensures !grew ==> !NoFit(h, n)
  {
  }

  /** The words that cutting a block writes. */
  lemma TakenIs(h: Ring, prev: nat, cur: nat, n: nat)
    requires cur in h.next && prev != cur && n < Size(h, cur) && cur + n != prev && n > 0
    ensures
      Taken(h, prev, cur, n) ==
      Ring(
        h.heads - {cur} + {cur + n}, h.units[cur + n := Size(h, cur) - n][cur := n],
        h.next[prev := cur + n][cur + n := h.next[cur]])
  {
    var r := Taken(h, prev, cur, n);
    assert r.next == h.next[prev := cur + n][cur + n := h.next[cur]];
  }

}
