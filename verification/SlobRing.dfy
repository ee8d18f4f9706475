/** The free blocks of the small-object heap: a ring of blocks by increasing address with
    one wrap, as values. */
module SlobRing {

  /** The heads of the free blocks, and the two words of every block header. */
  datatype Ring = Ring(heads: set<nat>, units: map<nat, nat>, next: map<nat, nat>)

  function Size(h: Ring, x: nat): nat {
    if x in h.units then h.units[x] else 0
  }

  function Next(h: Ring, x: nat): nat {
    if x in h.next then h.next[x] else 0
  }

  /** y comes directly after x in address order, or x is the last and y the first. */
  ghost predicate Succ(heads: set<nat>, x: nat, y: nat) {
    y in heads && if x < y then forall z :: z in heads ==> z <= x || y <= z else forall z :: z in heads ==> y <= z <= x
  }

  ghost predicate LinkedAt(h: Ring, x: nat) {
    Size(h, x) > 0 && x in h.next && Succ(h.heads, x, Next(h, x))
  }

  /** Block y does not begin in or right behind block x. */
  ghost predicate ApartAt(h: Ring, x: nat, y: nat) {
    x < y ==> x + Size(h, x) < y
  }

  /** Blocks are non-empty, linked in address order, disjoint and never adjacent. */
  ghost predicate Ok(h: Ring) {
    && (forall x {:trigger LinkedAt(h, x)} :: x in h.heads ==> LinkedAt(h, x))
    && (forall x, y {:trigger ApartAt(h, x, y)} :: x in h.heads && y in h.heads ==> ApartAt(h, x, y))
  }

  ghost predicate In(x: nat, n: nat, p: nat) {
    x <= p < x + n
  }

  ghost predicate Covers(h: Ring, x: nat, p: nat) {
    x in h.heads && In(x, Size(h, x), p)
  }

  /** Unit p is free. */
  ghost predicate Free(h: Ring, p: nat) {
    exists x :: Covers(h, x, p)
  }

  /** A ring is determined by its free units: blocks are as large as they can be, and the
      links follow the addresses. */
  lemma RingCanonical(h: Ring, k: Ring)
    requires Ok(h) && Ok(k) && forall p :: Free(h, p) <==> Free(k, p)
    ensures h.heads == k.heads && forall x :: x in h.heads ==> Size(h, x) == Size(k, x) && Next(h, x) == Next(k, x)
  {
    forall x | x in h.heads ensures x in k.heads { HeadIn(h, k, x); }
    forall x | x in k.heads ensures x in h.heads { HeadIn(k, h, x); }
    forall x | x in h.heads ensures Size(h, x) == Size(k, x) && Next(h, x) == Next(k, x) {
      SizeAtMost(h, k, x);
      SizeAtMost(k, h, x);
      assert LinkedAt(h, x) && LinkedAt(k, x);
    }
  }

  lemma HeadIn(h: Ring, k: Ring, x: nat)
    requires Ok(h) && Ok(k) && x in h.heads && forall p :: Free(h, p) <==> Free(k, p)
    ensures x in k.heads
  {
    assert LinkedAt(h, x) && Covers(h, x, x);
    assert Free(k, x);
    var y: nat :| Covers(k, y, x);
    if y < x {
      var p: nat := x - 1;
      assert Covers(k, y, p);
      assert Free(k, p);
      var z: nat :| Covers(h, z, p);
      NotBefore(h, x, z);
    }
  }

  lemma NotBefore(h: Ring, x: nat, z: nat)
    requires Ok(h) && x in h.heads
    ensures x > 0 ==> !Covers(h, z, x - 1)
  {
    if z in h.heads {
      assert ApartAt(h, z, x);
    }
  }

  lemma NotBehind(h: Ring, x: nat, z: nat)
    requires Ok(h) && x in h.heads
    ensures !Covers(h, z, x + Size(h, x))
  {
    if z in h.heads {
      assert ApartAt(h, x, z) && ApartAt(h, z, x);
    }
  }

  lemma SizeAtMost(h: Ring, k: Ring, x: nat)
    requires Ok(h) && Ok(k) && x in h.heads && x in k.heads && forall p :: Free(h, p) <==> Free(k, p)
    ensures Size(k, x) <= Size(h, x)
  {
    if Size(h, x) < Size(k, x) {
      var p := x + Size(h, x);
      assert Covers(k, x, p);
      assert Free(k, p);
      var z :| Covers(h, z, p);
      NotBehind(h, x, z);
    }
  }

  // ----- the three ways to change the ring -----

  function Unlink(h: Ring, prev: nat, cur: nat): Ring {
    h.(heads := h.heads - {cur}, next := h.next[prev := Next(h, cur)])
  }

  function Link(h: Ring, prev: nat, b: nat, n: nat): Ring {
    h.(heads := h.heads + {b}, units := h.units[b := n], next := h.next[b := Next(h, prev)][prev := b])
  }

  function Grow(h: Ring, x: nat, n: nat): Ring {
    h.(units := h.units[x := Size(h, x) + n])
  }

  /** prev is the last head before b, or b is before all heads and prev is the last. */
  ghost predicate Before(h: Ring, prev: nat, b: nat) {
    && prev in h.heads
    && if prev < b then forall z :: z in h.heads ==> z <= prev || b < z
    else forall z :: z in h.heads ==> b < z <= prev
  }

  ghost predicate Follows(h: Ring, prev: nat, cur: nat) {
    prev in h.heads && cur in h.heads && prev != cur && Next(h, prev) == cur
  }

  lemma UnlinkKeeps(h: Ring, prev: nat, cur: nat)
    requires Ok(h) && Follows(h, prev, cur)
    ensures Ok(Unlink(h, prev, cur))
  {
    var r := Unlink(h, prev, cur);
    assert LinkedAt(h, prev) && LinkedAt(h, cur);
    forall x | x in r.heads ensures LinkedAt(r, x) { assert LinkedAt(h, x); }
    forall x, y | x in r.heads && y in r.heads ensures ApartAt(r, x, y) { assert ApartAt(h, x, y); }
  }

  lemma UnlinkFree(h: Ring, prev: nat, cur: nat, p: nat)
    requires Ok(h) && Follows(h, prev, cur)
    ensures Free(Unlink(h, prev, cur), p) <==> Free(h, p) && !In(cur, Size(h, cur), p)
  {
    var r := Unlink(h, prev, cur);
    if Free(r, p) {
      var x :| Covers(r, x, p);
      assert Covers(h, x, p);
      assert ApartAt(h, x, cur) && ApartAt(h, cur, x);
    }
    if Free(h, p) && !In(cur, Size(h, cur), p) {
      var x :| Covers(h, x, p);
      assert Covers(r, x, p);
    }
  }

  /** The block (b, n) touches no free block. */
  ghost predicate Clear(h: Ring, b: nat, n: nat) {
    forall x :: x in h.heads ==> ClearOf(h, x, b, n)
  }

  ghost predicate ClearOf(h: Ring, x: nat, b: nat, n: nat) {
    x + Size(h, x) < b || b + n < x
  }

  lemma LinkKeeps(h: Ring, prev: nat, b: nat, n: nat)
    requires Ok(h) && Before(h, prev, b) && n > 0 && Clear(h, b, n)
    ensures Ok(Link(h, prev, b, n)) && b !in h.heads
  {
    assert LinkedAt(h, prev);
    assert b in h.heads ==> ClearOf(h, b, b, n);
    var r := Link(h, prev, b, n);
    forall x | x in r.heads ensures LinkedAt(r, x) { assert x != b ==> LinkedAt(h, x); }
    forall x, y | x in r.heads && y in r.heads ensures ApartAt(r, x, y) {
      assert x != b && y != b ==> ApartAt(h, x, y);
      assert x != b ==> ClearOf(h, x, b, n);
      assert y != b ==> ClearOf(h, y, b, n);
    }
  }

  lemma LinkFree(h: Ring, prev: nat, b: nat, n: nat, p: nat)
    requires b !in h.heads
    ensures Free(Link(h, prev, b, n), p) <==> Free(h, p) || In(b, n, p)
  {
    var r := Link(h, prev, b, n);
    if Free(r, p) {
      var x :| Covers(r, x, p);
      assert x != b ==> Covers(h, x, p);
    }
    if Free(h, p) {
      var x :| Covers(h, x, p);
      assert Covers(r, x, p);
    }
    if In(b, n, p) {
      assert Covers(r, b, p);
    }
  }

  /** No head lies in or right behind the n units after block x. */
  ghost predicate RoomAfter(h: Ring, x: nat, n: nat) {
    forall y :: y in h.heads && x < y ==> x + Size(h, x) + n < y
  }

  lemma GrowKeeps(h: Ring, x: nat, n: nat)
    requires Ok(h) && x in h.heads && RoomAfter(h, x, n)
    ensures Ok(Grow(h, x, n))
  {
    var r := Grow(h, x, n);
    forall y | y in r.heads ensures LinkedAt(r, y) { assert LinkedAt(h, y); }
    forall y, z | y in r.heads && z in r.heads ensures ApartAt(r, y, z) { assert ApartAt(h, y, z); }
  }

  lemma GrowFree(h: Ring, x: nat, n: nat, p: nat)
    requires x in h.heads
    ensures Free(Grow(h, x, n), p) <==> Free(h, p) || In(x + Size(h, x), n, p)
  {
    var r := Grow(h, x, n);
    if Free(r, p) {
      var y :| Covers(r, y, p);
      assert y != x ==> Covers(h, y, p);
      assert y == x ==> Covers(h, x, p) || In(x + Size(h, x), n, p);
    }
    if Free(h, p) {
      var y :| Covers(h, y, p);
      assert Covers(r, y, p);
    }
    if In(x + Size(h, x), n, p) {
      assert Covers(r, x, p);
    }
  }

  /** The header of a block outside the ring does not matter. */
  function WithHeader(h: Ring, b: nat, n: nat, next: nat): Ring {
    h.(units := h.units[b := n], next := h.next[b := next])
  }

  lemma HeaderOutside(h: Ring, b: nat, n: nat, next: nat)
    requires Ok(h) && b !in h.heads
    ensures Ok(WithHeader(h, b, n, next)) && forall p :: Free(WithHeader(h, b, n, next), p) <==> Free(h, p)
  {
    var r := WithHeader(h, b, n, next);
    forall x | x in r.heads ensures LinkedAt(r, x) { assert LinkedAt(h, x); }
    forall x, y | x in r.heads && y in r.heads ensures ApartAt(r, x, y) { assert ApartAt(h, x, y); }
    forall p ensures Free(r, p) <==> Free(h, p) { HeaderFree(h, b, n, next, p); }
  }

  lemma HeaderFree(h: Ring, b: nat, n: nat, next: nat, p: nat)
    requires b !in h.heads
    ensures Free(WithHeader(h, b, n, next), p) <==> Free(h, p)
  {
    var r := WithHeader(h, b, n, next);
    if Free(h, p) {
      var x :| Covers(h, x, p);
      assert Covers(r, x, p);
    }
    if Free(r, p) {
      var x :| Covers(r, x, p);
      assert Covers(h, x, p);
    }
  }

  // ----- releasing a block -----

  /** The block (b, n) overlaps no free block. */
  ghost predicate Disjoint(h: Ring, b: nat, n: nat) {
    forall x :: x in h.heads ==> DisjointFrom(h, x, b, n)
  }

  ghost predicate DisjointFrom(h: Ring, x: nat, b: nat, n: nat) {
    x + Size(h, x) <= b || b + n <= x
  }

  /** The block after prev joins (b, n) from above if it begins where (b, n) ends. */
  function JoinedUp(h: Ring, prev: nat, b: nat, n: nat): Ring {
    if b + n == Next(h, prev) then Unlink(h, prev, Next(h, prev)) else h
  }

  function SizeUp(h: Ring, prev: nat, b: nat, n: nat): nat {
    if b + n == Next(h, prev) then n + Size(h, Next(h, prev)) else n
  }

  /** Then the block joins prev if it begins where prev ends, or is linked behind it. */
  function Released(h: Ring, prev: nat, b: nat, n: nat): Ring {
    var h1, n1 := JoinedUp(h, prev, b, n), SizeUp(h, prev, b, n);
    if prev + Size(h, prev) == b then WithHeader(Grow(h1, prev, n1), b, n1, Next(h1, prev)) else Link(h1, prev, b, n1)
  }

  /** Nothing begins in or right behind the block; what is below it may touch it. */
  ghost predicate ClearAbove(h: Ring, b: nat, n: nat) {
    forall x :: x in h.heads ==> ClearAboveAt(h, x, b, n)
  }

  ghost predicate ClearAboveAt(h: Ring, x: nat, b: nat, n: nat) {
    x + Size(h, x) <= b || b + n < x
  }

  lemma JoinedUpKeeps(h: Ring, prev: nat, b: nat, n: nat, arena: nat)
    requires Ok(h) && Before(h, prev, b) && n > 0 && Disjoint(h, b, n)
    requires arena in h.heads && ClearOf(h, arena, b, n)
    ensures
      var h1, n1 := JoinedUp(h, prev, b, n), SizeUp(h, prev, b, n);
      && Ok(h1) && Before(h1, prev, b) && n1 > 0 && ClearAbove(h1, b, n1) && h1.units == h.units
      && arena in h1.heads && ClearOf(h1, arena, b, n1)
      && forall p :: Free(h1, p) || In(b, n1, p) <==> Free(h, p) || In(b, n, p)
  {
    var nxt := Next(h, prev);
    assert LinkedAt(h, prev);
    if b + n == nxt {
      assert LinkedAt(h, nxt);
      if nxt == prev {
        assert false;
      }
      assert Follows(h, prev, nxt);
      UnlinkKeeps(h, prev, nxt);
      var h1, n1 := Unlink(h, prev, nxt), n + Size(h, nxt);
      forall x | x in h1.heads ensures ClearAboveAt(h1, x, b, n1) {
        assert DisjointFrom(h, x, b, n) && ApartAt(h, x, nxt) && ApartAt(h, nxt, x);
      }
      assert ClearAboveAt(h1, arena, b, n1);
      forall p ensures Free(h1, p) || In(b, n1, p) <==> Free(h, p) || In(b, n, p) {
        UnlinkFree(h, prev, nxt, p);
        if In(nxt, Size(h, nxt), p) { assert Covers(h, nxt, p); }
      }
    } else {
      forall x | x in h.heads ensures ClearAboveAt(h, x, b, n) {
        assert DisjointFrom(h, x, b, n) && DisjointFrom(h, nxt, b, n);
      }
    }
  }

  lemma BelowClear(h: Ring, prev: nat, b: nat, n: nat)
    requires Ok(h) && Before(h, prev, b) && ClearAbove(h, b, n) && n > 0 && prev + Size(h, prev) != b
    ensures Clear(h, b, n)
  {
    assert ClearAboveAt(h, prev, b, n);
    forall x | x in h.heads ensures ClearOf(h, x, b, n) { assert ClearAboveAt(h, x, b, n) && ApartAt(h, x, prev); }
  }

  /** Releasing a block keeps the ring, adds exactly its units to the free ones and leaves
      the arena alone. */
  lemma ReleasedOk(h: Ring, prev: nat, b: nat, n: nat, arena: nat)
    requires Ok(h) && Before(h, prev, b) && n > 0 && Disjoint(h, b, n)
    requires arena in h.heads && ClearOf(h, arena, b, n) && b !in h.heads
    ensures
      var r := Released(h, prev, b, n);
      && Ok(r) && prev in r.heads && arena in r.heads && Size(r, arena) == Size(h, arena)
      && forall p :: Free(r, p) <==> Free(h, p) || In(b, n, p)
  {
    var h1, n1 := JoinedUp(h, prev, b, n), SizeUp(h, prev, b, n);
    JoinedUpKeeps(h, prev, b, n, arena);
    hide JoinedUp, SizeUp;
    if prev + Size(h, prev) == b {
      forall y | y in h1.heads && prev < y ensures prev + Size(h1, prev) + n1 < y { assert ClearAboveAt(h1, y, b, n1); }
      GrowKeeps(h1, prev, n1);
      forall p ensures Free(Grow(h1, prev, n1), p) <==> Free(h, p) || In(b, n, p) { GrowFree(h1, prev, n1, p); }
      HeaderOutside(Grow(h1, prev, n1), b, n1, Next(h1, prev));
    } else {
      BelowClear(h1, prev, b, n1);
      LinkKeeps(h1, prev, b, n1);
      forall p ensures Free(Link(h1, prev, b, n1), p) <==> Free(h, p) || In(b, n, p) { LinkFree(h1, prev, b, n1, p); }
    }
  }

  // ----- taking a block -----

  /** The first n units of block cur leave the ring; a rest stays behind prev. */
  function Taken(h: Ring, prev: nat, cur: nat, n: nat): Ring {
    var h1 := Unlink(h, prev, cur);
    if Size(h, cur) <= n then h1
    else
      var h2 := Link(h1, prev, cur + n, Size(h, cur) - n);
      WithHeader(h2, cur, n, Next(h, cur))
  }

  lemma RestFits(h: Ring, prev: nat, cur: nat, n: nat)
    requires Ok(h) && Follows(h, prev, cur) && 0 < n < Size(h, cur)
    ensures Before(Unlink(h, prev, cur), prev, cur + n) && Clear(Unlink(h, prev, cur), cur + n, Size(h, cur) - n)
  {
    var h1 := Unlink(h, prev, cur);
    assert LinkedAt(h, prev);
    forall x | x in h1.heads ensures ClearOf(h1, x, cur + n, Size(h, cur) - n) && (x < cur || cur + Size(h, cur) < x) {
      assert ApartAt(h, x, cur) && ApartAt(h, cur, x);
    }
  }

  lemma TakenOk(h: Ring, prev: nat, cur: nat, n: nat)
    requires Ok(h) && Follows(h, prev, cur) && 0 < n <= Size(h, cur)
    ensures
      var r := Taken(h, prev, cur, n);
      && Ok(r) && prev in r.heads && cur !in r.heads && Size(r, cur) == n
      && (forall x :: x in h.heads && x != cur ==> x in r.heads && Size(r, x) == Size(h, x))
      && forall p :: Free(r, p) <==> Free(h, p) && !In(cur, n, p)
  {
    var h1 := Unlink(h, prev, cur);
    UnlinkKeeps(h, prev, cur);
    if Size(h, cur) == n {
      forall p ensures Free(h1, p) <==> Free(h, p) && !In(cur, n, p) { UnlinkFree(h, prev, cur, p); }
    } else {
      var b, m := cur + n, Size(h, cur) - n;
      RestFits(h, prev, cur, n);
      LinkKeeps(h1, prev, b, m);
      var h2 := Link(h1, prev, b, m);
      HeaderOutside(h2, cur, n, Next(h, cur));
      forall x | x in h.heads && x != cur ensures x != b { assert ClearOf(h1, x, b, m); }
      forall p ensures Free(h2, p) <==> Free(h, p) && !In(cur, n, p) {
        UnlinkFree(h, prev, cur, p);
        LinkFree(h1, prev, b, m, p);
        if In(cur, Size(h, cur), p) { assert Covers(h, cur, p); }
      }
    }
  }

  // ----- going around -----

  /** How far x is from head t, going up to top and around. */
  function Distance(x: nat, t: nat, top: nat): int {
    if x <= t then t - x else top - x + t + 1
  }

  lemma Closer(h: Ring, x: nat, t: nat, top: nat)
    requires Ok(h) && x in h.heads && t in h.heads && x != t && forall z :: z in h.heads ==> z <= top
    ensures 0 <= Distance(Next(h, x), t, top) < Distance(x, t, top) && Next(h, x) in h.heads
  {
    assert LinkedAt(h, x);
  }

  lemma {:induction false} Largest(s: set<nat>) returns (m: nat)
    requires s != {}
    ensures m in s && forall z :: z in s ==> z <= m
  {
    m :| m in s;
    var rest := s - {m};
    assert s == rest + {m};
    if rest != {} {
      var k := Largest(rest);
      m := if k > m then k else m;
    }
  }

  /** Some head is the one to insert behind. */
  lemma PlaceExists(h: Ring, b: nat)
    requires h.heads != {} && b !in h.heads
    ensures exists t :: Before(h, t, b)
  {
    var below := set z | z in h.heads && z < b;
    if below != {} {
      var t := Largest(below);
      assert forall z :: z in h.heads && z < b ==> z in below;
      assert Before(h, t, b);
    } else {
      var t := Largest(h.heads);
      assert forall z :: z in h.heads ==> z !in below;
      assert Before(h, t, b);
    }
  }

  /** The test of the insertion loop finds exactly the place. */
  lemma PlaceTest(h: Ring, cur: nat, b: nat)
    requires Ok(h) && cur in h.heads && b !in h.heads
    ensures
      var nxt := Next(h, cur);
      Before(h, cur, b) <==> (cur < b < nxt) || (cur >= nxt && (b > cur || b < nxt))
  {
    assert LinkedAt(h, cur);
  }
}
