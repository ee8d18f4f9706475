/** The small-object heap as values: free blocks, allocated blocks and their headers, and
    what every request keeps. */
module SlobSpec {
  import opened Options
  import opened SlobRing

  const SLOB_UNIT := 8
  const PAGE_SIZE := 4096
  const PAGE_UNITS := PAGE_SIZE / SLOB_UNIT

  /** The least number of units that hold size bytes. */
  function SlobUnits(size: nat): (r: nat)
    ensures 8 * r >= size && (r > 0 ==> 8 * (r - 1) < size)
  {
    (size + SLOB_UNIT - 1) / SLOB_UNIT
  }

  /** Unit p belongs to an allocated block. */
  ghost predicate Held(held: map<nat, nat>, p: nat) {
    exists b :: HeldBy(held, b, p)
  }

  ghost predicate HeldBy(held: map<nat, nat>, b: nat, p: nat) {
    b in held && In(b, held[b], p)
  }

  /** Allocated blocks overlap neither each other nor free ones. */
  ghost predicate HeldOk(h: Ring, held: map<nat, nat>) {
    && (forall b :: b in held ==> held[b] > 0)
    && (forall b, c, p :: HeldBy(held, b, p) && HeldBy(held, c, p) ==> b == c)
    && (forall p :: Held(held, p) ==> !Free(h, p))
  }

  /** All units of the heap, free or allocated. */
  ghost predicate Owned(h: Ring, held: map<nat, nat>, p: nat) {
    Free(h, p) || Held(held, p)
  }

  /** Only the arena itself is next to the arena. */
  ghost predicate Away(h: Ring, held: map<nat, nat>, arena: nat) {
    forall p: nat :: Owned(h, held, p) ==> p != arena + 1 && p + 1 != arena
  }

  ghost predicate Good(h: Ring, slobfree: nat, arena: nat) {
    Ok(h) && slobfree in h.heads && arena in h.heads && Size(h, arena) == 1
  }

  /** A block none of whose units is free, and that is not next to the arena, can be put
      into the ring. */
  lemma Insertable(h: Ring, b: nat, n: nat, arena: nat)
    requires Ok(h) && n > 0 && arena in h.heads && Size(h, arena) == 1
    requires forall p: nat :: In(b, n, p) ==> !Free(h, p) && p != arena + 1 && p + 1 != arena
    ensures Disjoint(h, b, n) && ClearOf(h, arena, b, n) && b !in h.heads
  {
    forall x | x in h.heads ensures DisjointFrom(h, x, b, n) && x != b {
      assert LinkedAt(h, x);
      var p := if x < b then b else x;
      assert In(b, n, p) ==> !Covers(h, x, p);
    }
    assert DisjointFrom(h, arena, b, n);
    assert In(b, n, b) && In(b, n, b + n - 1);
  }

  /** A head that has been looked at on the way from slobfree to cur. */
  ghost predicate Passed(from: nat, y: nat, cur: nat) {
    if from < cur then from < y < cur else y > from || y < cur
  }

  lemma PassOne(h: Ring, from: nat, cur: nat, y: nat)
    requires Ok(h) && from in h.heads && cur in h.heads && y in h.heads && cur != from
    requires Passed(from, y, Next(h, cur))
    ensures Passed(from, y, cur) || y == cur
  {
    assert LinkedAt(h, cur);
  }

  lemma PassNone(h: Ring, from: nat, y: nat)
    requires Ok(h) && from in h.heads && y in h.heads
    ensures !Passed(from, y, Next(h, from))
  {
    assert LinkedAt(h, from);
  }

  /** A block other than the arena is not the only one in the ring. */
  lemma NotAlone(h: Ring, arena: nat, prev: nat, cur: nat)
    requires Ok(h) && arena in h.heads && prev in h.heads && Next(h, prev) == cur
    ensures cur != arena ==> Follows(h, prev, cur)
    ensures prev != cur ==> Follows(h, prev, cur)
  {
    assert LinkedAt(h, prev);
  }

  /** A ring with n units in a row free has a block of that size. */
  lemma {:induction false} RunInBlock(h: Ring, b: nat, n: nat) returns (x: nat)
    requires Ok(h) && n > 0 && forall p :: In(b, n, p) ==> Free(h, p)
    ensures x in h.heads && x <= b && b + n <= x + Size(h, x)
  {
    assert In(b, n, b + n - 1);
    var y :| Covers(h, y, b + n - 1);
    x := y;
    if n > 1 {
      forall p | In(b, n - 1, p) ensures Free(h, p) { assert In(b, n, p); }
      x := RunInBlock(h, b, n - 1);
      assert ApartAt(h, x, y) && ApartAt(h, y, x);
    }
  }

  // ----- what is allocated -----

  lemma GiveBack(h: Ring, held: map<nat, nat>, b: nat, h': Ring, arena: nat)
    requires HeldOk(h, held) && Away(h, held, arena) && b in held
    requires forall p :: Free(h', p) <==> Free(h, p) || In(b, held[b], p)
    ensures HeldOk(h', held - {b}) && Away(h', held - {b}, arena)
    ensures forall p :: Owned(h', held - {b}, p) <==> Owned(h, held, p)
  {
    var left := held - {b};
    forall p ensures Held(held, p) <==> Held(left, p) || In(b, held[b], p) {
      if Held(held, p) {
        var c :| HeldBy(held, c, p);
        assert c != b ==> HeldBy(left, c, p);
      }
      if Held(left, p) {
        var c :| HeldBy(left, c, p);
        assert HeldBy(held, c, p);
      }
      if In(b, held[b], p) {
        assert HeldBy(held, b, p);
      }
    }
    forall c, d, p | HeldBy(left, c, p) && HeldBy(left, d, p) ensures c == d {
      assert HeldBy(held, c, p) && HeldBy(held, d, p);
    }
    forall p | Held(left, p) ensures !Free(h', p) {
      var c :| HeldBy(left, c, p);
      assert HeldBy(held, c, p);
      assert HeldBy(held, b, p) ==> c == b;
    }
    forall p: nat | Owned(h', left, p) ensures p != arena + 1 && p + 1 != arena { assert Owned(h, held, p); }
  }

  lemma HandOut(h: Ring, held: map<nat, nat>, b: nat, n: nat, h': Ring, arena: nat)
    requires HeldOk(h, held) && Away(h, held, arena) && n > 0 && forall p :: In(b, n, p) ==> Free(h, p)
    requires forall p :: Free(h', p) <==> Free(h, p) && !In(b, n, p)
    ensures b !in held && HeldOk(h', held[b := n]) && Away(h', held[b := n], arena)
    ensures forall p :: Owned(h', held[b := n], p) <==> Owned(h, held, p)
  {
    var more := held[b := n];
    assert In(b, n, b);
    assert b in held ==> HeldBy(held, b, b);
    forall p ensures Held(more, p) <==> Held(held, p) || In(b, n, p) {
      if Held(more, p) {
        var c :| HeldBy(more, c, p);
        assert c != b ==> HeldBy(held, c, p);
      }
      if Held(held, p) {
        var c :| HeldBy(held, c, p);
        assert HeldBy(more, c, p);
      }
      if In(b, n, p) {
        assert HeldBy(more, b, p);
      }
    }
    forall c, d, p | HeldBy(more, c, p) && HeldBy(more, d, p) ensures c == d {
      assert c != b ==> HeldBy(held, c, p);
      assert d != b ==> HeldBy(held, d, p);
    }
    forall p: nat | Owned(h', more, p) ensures p != arena + 1 && p + 1 != arena { assert Owned(h, held, p); }
  }

  /** No free block has n units. */
  ghost predicate NoFit(h: Ring, n: nat) {
    forall y :: y in h.heads ==> Size(h, y) < n
  }

  /** With a whole page free some block has room for any request. */
  lemma PageFits(h: Ring, page: nat, n: nat)
    requires Ok(h) && n <= PAGE_UNITS && forall p :: In(page, PAGE_UNITS, p) ==> Free(h, p)
    ensures !NoFit(h, n)
  {
    var x := RunInBlock(h, page, PAGE_UNITS);
  }

  // ----- the heap and its requests -----

  /** The ring, where the search begins, the allocated blocks with their sizes, and those
      of them whose header nobody has written over. */
  datatype State = State(ring: Ring, slobfree: nat, held: map<nat, nat>, intact: set<nat>)

  /** The header of an allocated block still holds its size. */
  ghost predicate HeadersOk(s: State) {
    && (forall b :: b in s.intact ==> b in s.held)
    && (forall b :: b in s.intact ==> Size(s.ring, b) == s.held[b])
  }

  ghost predicate Valid(s: State, arena: nat) {
    && Good(s.ring, s.slobfree, arena) && HeldOk(s.ring, s.held) && Away(s.ring, s.held, arena)
    && HeadersOk(s)
  }

  ghost predicate Owns(s: State, p: nat) {
    Owned(s.ring, s.held, p)
  }

  /** A heap of nothing but the arena. */
  function Empty(arena: nat): State {
    State(Ring({arena}, map[arena := 1], map[arena := arena]), arena, map[], {})
  }

  lemma EmptyValid(arena: nat)
    ensures Valid(Empty(arena), arena) && forall p :: Owns(Empty(arena), p) <==> p == arena
  {
    var h := Empty(arena).ring;
    assert LinkedAt(h, arena);
    assert Covers(h, arena, arena);
  }

  /** A block comes back behind prev. */
  function Returned(s: State, b: nat, prev: nat): State
    requires b in s.held
  {
    State(Released(s.ring, prev, b, s.held[b]), prev, s.held - {b}, s.intact - {b})
  }

  /** A page joins the ring behind prev. */
  function Grown(s: State, page: nat, prev: nat): State {
    s.(ring := Released(s.ring, prev, page, PAGE_UNITS), slobfree := prev)
  }

  /** The first n units of cur are handed out. Unlinking a block that is its own
      predecessor has no effect. */
  function Given(s: State, prev: nat, cur: nat, n: nat): State {
    var h := if prev == cur then s.ring else Taken(s.ring, prev, cur, n);
    State(h, prev, s.held[cur := n], s.intact + {cur})
  }

  /** The owner of a block writes over its header. */
  function Scribbled(s: State, b: nat, v: nat, x: nat): State {
    s.(ring := WithHeader(s.ring, b, v, x), intact := s.intact - {b})
  }

  /** Allocated blocks are not in the ring. */
  lemma HeldOutside(s: State, b: nat)
    requires HeldOk(s.ring, s.held) && Ok(s.ring) && b in s.held
    ensures b !in s.ring.heads && !Free(s.ring, b)
  {
    assert HeldBy(s.held, b, b);
    if b in s.ring.heads {
      assert LinkedAt(s.ring, b);
      assert Covers(s.ring, b, b);
    }
  }

  /** Releasing a block writes no header but its own and those in the ring. */
  lemma ReleasedHeaders(h: Ring, prev: nat, b: nat, n: nat, x: nat)
    requires x != b && x != prev
    ensures Size(Released(h, prev, b, n), x) == Size(h, x)
  {
  }

  lemma TakenHeaders(h: Ring, prev: nat, cur: nat, n: nat, x: nat)
    requires x != cur && x != cur + n
    ensures Size(Taken(h, prev, cur, n), x) == Size(h, x)
  {
  }

  /** Freeing a block: exactly its units become free, all others stay as they are, and
      every other allocated block keeps its header. */
  lemma ReturnKeeps(s: State, b: nat, prev: nat, arena: nat)
    requires Valid(s, arena) && b in s.held && Before(s.ring, prev, b)
    ensures Valid(Returned(s, b, prev), arena)
    ensures forall p :: Owns(Returned(s, b, prev), p) <==> Owns(s, p)
    ensures forall p :: Free(Returned(s, b, prev).ring, p) <==> Free(s.ring, p) || In(b, s.held[b], p)
  {
    var h, n, s' := s.ring, s.held[b], Returned(s, b, prev);
    forall p: nat | In(b, n, p) ensures !Free(h, p) && p != arena + 1 && p + 1 != arena {
      assert HeldBy(s.held, b, p);
      assert Owned(h, s.held, p);
    }
    Insertable(h, b, n, arena);
    ReleasedOk(h, prev, b, n, arena);
    hide Released, HeldOk, Away, Ok, Before;
    GiveBack(h, s.held, b, s'.ring, arena);
    forall x | x in s'.intact ensures Size(s'.ring, x) == s'.held[x] {
      HeldOutside(s, x);
      ReleasedHeaders(h, prev, b, n, x);
    }
  }

  ghost predicate Fresh(s: State, page: nat, arena: nat) {
    forall p: nat :: In(page, PAGE_UNITS, p) ==> !Owns(s, p) && p != arena + 1 && p + 1 != arena
  }

  /** A fresh page: exactly its units are added to the free ones. */
  lemma PageKeeps(s: State, page: nat, prev: nat, arena: nat)
    requires Valid(s, arena) && Fresh(s, page, arena) && Before(s.ring, prev, page)
    ensures Valid(Grown(s, page, prev), arena)
    ensures forall p :: Owns(Grown(s, page, prev), p) <==> Owns(s, p) || In(page, PAGE_UNITS, p)
    ensures forall p :: Free(Grown(s, page, prev).ring, p) <==> Free(s.ring, p) || In(page, PAGE_UNITS, p)
  {
    var h, s' := s.ring, Grown(s, page, prev);
    Insertable(h, page, PAGE_UNITS, arena);
    ReleasedOk(h, prev, page, PAGE_UNITS, arena);
    hide Released, Ok, Before;
    forall p | Held(s.held, p) ensures !Free(s'.ring, p) { assert Owned(h, s.held, p); }
    forall p: nat | Owned(s'.ring, s.held, p) ensures p != arena + 1 && p + 1 != arena {
      assert Owned(h, s.held, p) || In(page, PAGE_UNITS, p);
    }
    forall x | x in s'.intact ensures Size(s'.ring, x) == s'.held[x] {
      HeldOutside(s, x);
      assert Owns(s, x) by { assert HeldBy(s.held, x, x); }
      assert x != page by { assert In(page, PAGE_UNITS, page); }
      ReleasedHeaders(h, prev, page, PAGE_UNITS, x);
    }
  }

  /** Handing out units: they were free, overlap no allocated block, and stay owned,
      unless they are the arena's, without which the heap is no longer in order. */
  lemma GiveKeeps(s: State, prev: nat, cur: nat, n: nat, arena: nat)
    requires Valid(s, arena) && prev in s.ring.heads && Next(s.ring, prev) == cur && 1 <= n <= Size(s.ring, cur)
    ensures Valid(Given(s, prev, cur, n), arena) <==> cur != arena
    ensures cur !in s.held && Given(s, prev, cur, n).slobfree == prev
    ensures cur != arena ==> forall p :: Owns(Given(s, prev, cur, n), p) <==> Owns(s, p)
    ensures
      cur != arena ==> forall p :: Free(Given(s, prev, cur, n).ring, p) <==> Free(s.ring, p) && !In(cur, n, p)
  {
    NotAlone(s.ring, arena, prev, cur);
    assert LinkedAt(s.ring, prev);
    if cur in s.held {
      HeldOutside(s, cur);
    }
    if cur != arena {
      GiveApart(s, prev, cur, n, arena);
    } else if prev == cur {
      assert HeldBy(s.held[cur := n], cur, cur) && Covers(s.ring, cur, cur);
      assert Held(Given(s, prev, cur, n).held, cur) && Free(s.ring, cur);
    } else {
      TakenOk(s.ring, prev, cur, n);
    }
  }

  lemma GiveApart(s: State, prev: nat, cur: nat, n: nat, arena: nat)
    requires Valid(s, arena) && Follows(s.ring, prev, cur) && 1 <= n <= Size(s.ring, cur) && cur != arena
    ensures Valid(Given(s, prev, cur, n), arena)
    ensures forall p :: Owns(Given(s, prev, cur, n), p) <==> Owns(s, p)
    ensures forall p :: Free(Given(s, prev, cur, n).ring, p) <==> Free(s.ring, p) && !In(cur, n, p)
  {
    var h, s' := s.ring, Given(s, prev, cur, n);
    TakenOk(h, prev, cur, n);
    forall p | In(cur, n, p) ensures Free(h, p) { assert Covers(h, cur, p); }
    hide HeldOk, Away, Ok;
    HandOut(h, s.held, cur, n, s'.ring, arena);
    forall x | x in s'.intact ensures x in s'.held && Size(s'.ring, x) == s'.held[x] {
      if x != cur {
        HeldOutside(s, x);
        OtherHeader(h, prev, cur, n, x);
      }
    }
  }

  lemma OtherHeader(h: Ring, prev: nat, cur: nat, n: nat, x: nat)
    requires x != cur && !Free(h, x) && cur in h.heads && 0 < n <= Size(h, cur)
    ensures Size(Taken(h, prev, cur, n), x) == Size(h, x)
  {
    if Size(h, cur) > n {
      assert Covers(h, cur, cur + n);
      TakenHeaders(h, prev, cur, n, x);
    }
  }

  /** Writing over the header of an allocated block disturbs nothing. */
  lemma ScribbleKeeps(s: State, b: nat, v: nat, x: nat, arena: nat)
    requires Valid(s, arena) && b in s.held
    ensures Valid(Scribbled(s, b, v, x), arena)
    ensures forall p :: Owns(Scribbled(s, b, v, x), p) <==> Owns(s, p)
  {
    var s' := Scribbled(s, b, v, x);
    HeldOutside(s, b);
    HeaderOutside(s.ring, b, v, x);
    hide Ok;
    assert arena != b;
    forall p ensures Owns(s', p) <==> Owns(s, p) {}
    forall p: nat | Owned(s'.ring, s'.held, p) ensures p != arena + 1 && p + 1 != arena {
      assert Owned(s.ring, s.held, p);
    }
  }

  // ----- what kmalloc asks for -----

  /** The bytes of a bigblock_t. */
  const BIGBLOCK := 12

  /** A small block with its header, or the record of a large one. */
  function KmallocBytes(size: nat): nat {
    if size < PAGE_SIZE - SLOB_UNIT then size + SLOB_UNIT else BIGBLOCK
  }

  /** kmalloc's own guard lets eight sizes through that slob_alloc's assertion refuses; a
      request is for a single unit only if the size is zero; and a small block has room
      for the bytes behind its header. */
  lemma KmallocGuard(size: nat)
    ensures KmallocBytes(size) + SLOB_UNIT < PAGE_SIZE <==> size < 4080 || size >= 4088
    ensures SlobUnits(KmallocBytes(size)) == 1 <==> size == 0
    ensures size < PAGE_SIZE - SLOB_UNIT ==> SLOB_UNIT * (SlobUnits(KmallocBytes(size)) - 1) >= size
  {
  }

  // ----- any sequence of requests -----

  datatype Request =
    | Alloc(size: nat, page: Option<nat>)
    | FreeBlock(block: nat, bytes: nat)
    | Scribble(block: nat, units: nat, next: nat)

  /** Small requests of at least one byte, with a page that is not in use; frees of
      allocated blocks, by their size or by their untouched header; writes by an owner. */
  ghost predicate Proper(s: State, q: Request, arena: nat) {
    match q
    case Alloc(size, page) =>
      && 0 < size && size + SLOB_UNIT < PAGE_SIZE
      && (page.Some? ==> Fresh(s, page.value, arena))
    case FreeBlock(b, bytes) => b in s.held && if bytes > 0 then SlobUnits(bytes) == s.held[b] else b in s.intact
    case Scribble(b, _, _) => b in s.held
  }

  /** The heap before a block is cut: as it was, or with one page if nothing fitted. */
  ghost predicate Prepared(s: State, n: nat, page: Option<nat>, s1: State) {
    || s1 == s
    || (NoFit(s.ring, n) && page.Some? && exists at :: Before(s.ring, at, page.value) && s1 == Grown(s, page.value, at))
  }

  ghost predicate Serves(s: State, q: Request, answer: Option<nat>, s': State) {
    match q
    case Alloc(size, page) =>
      var n := SlobUnits(size);
      if answer.None? then s' == s && page.None? && NoFit(s.ring, n)
      else exists s1, prev :: Cuts(s, n, page, answer.value, s1, prev) && s' == Given(s1, prev, answer.value, n)
    case FreeBlock(b, _) =>
      b in s.held && answer == None && exists prev :: Before(s.ring, prev, b) && s' == Returned(s, b, prev)
    case Scribble(b, v, x) => answer == None && s' == Scribbled(s, b, v, x)
  }

  ghost predicate Cuts(s: State, n: nat, page: Option<nat>, cur: nat, s1: State, prev: nat) {
    Prepared(s, n, page, s1) && FirstFit(s1.ring, s1.slobfree, n, prev, cur)
  }

  /** cur, behind prev, is the first block after `from` that has n units. */
  ghost predicate FirstFit(h: Ring, from: nat, n: nat, prev: nat, cur: nat) {
    && prev in h.heads && cur in h.heads && Next(h, prev) == cur && n <= Size(h, cur)
    && forall y :: y in h.heads && Passed(from, y, cur) ==> Size(h, y) < n
  }

  /** The search from one place has one answer. */
  lemma FirstFitUnique(h: Ring, from: nat, n: nat, prev: nat, cur: nat, prev': nat, cur': nat)
    requires Ok(h) && from in h.heads && FirstFit(h, from, n, prev, cur) && FirstFit(h, from, n, prev', cur')
    ensures prev == prev' && cur == cur'
  {
    assert !Passed(from, cur, cur') && !Passed(from, cur', cur);
    assert LinkedAt(h, prev) && LinkedAt(h, prev');
  }

  /** A request of one unit while the arena comes next: every block has a unit, so the
      arena is taken. */
  predicate TakesArena(s: State, q: Request, arena: nat) {
    q.Alloc? && SlobUnits(q.size) == 1 && Next(s.ring, s.slobfree) == arena
  }

  lemma FirstFitArena(s: State, n: nat, prev: nat, cur: nat, arena: nat)
    requires Valid(s, arena) && n > 0 && FirstFit(s.ring, s.slobfree, n, prev, cur)
    ensures cur == arena <==> n == 1 && Next(s.ring, s.slobfree) == arena
  {
    var next := Next(s.ring, s.slobfree);
    assert LinkedAt(s.ring, s.slobfree);
    assert LinkedAt(s.ring, next);
    assert next == cur || Passed(s.slobfree, next, cur);
  }

  ghost predicate NewUnit(q: Request, p: nat) {
    q.Alloc? && q.page.Some? && In(q.page.value, PAGE_UNITS, p)
  }

  /** No request loses a unit, and only a page brings new ones. */
  ghost predicate Conserves(s: State, q: Request, s': State) {
    && (forall p :: Owns(s, p) ==> Owns(s', p))
    && (forall p :: Owns(s', p) ==> Owns(s, p) || NewUnit(q, p))
  }

  /** Where the next search begins: at the block before the one handed out, in the ring that
      was cut; at the block behind which the freed one went; otherwise where it was. */
  ghost predicate Resumes(s: State, q: Request, answer: Option<nat>, from: nat) {
    match q
    case Alloc(size, page) =>
      var n := SlobUnits(size);
      if answer.None? then from == s.slobfree
      else if !NoFit(s.ring, n) then FirstFit(s.ring, s.slobfree, n, from, answer.value)
      else page.Some? && FitsInPage(s, n, page.value, from, answer.value)
    case FreeBlock(b, _) => Before(s.ring, from, b)
    case Scribble(_, _, _) => from == s.slobfree
  }

  /** The first fit from the block behind which the page went, in the ring with the page. */
  ghost predicate FitsInPage(s: State, n: nat, page: nat, prev: nat, cur: nat) {
    exists at ::
      && Before(s.ring, at, page)
      && FirstFit(Released(s.ring, at, page, PAGE_SIZE / SLOB_UNIT), at, n, prev, cur)
  }

  lemma ResumesAlloc(s: State, n: nat, page: Option<nat>, cur: nat, s1: State, prev: nat)
    requires Cuts(s, n, page, cur, s1, prev)
    ensures
      var from := Given(s1, prev, cur, n).slobfree;
      if !NoFit(s.ring, n) then FirstFit(s.ring, s.slobfree, n, from, cur)
      else page.Some? && FitsInPage(s, n, page.value, from, cur)
  {
    hide Released, Before, Taken;
    if s1 != s {
      var at :| Before(s.ring, at, page.value) && s1 == Grown(s, page.value, at);
    }
  }

  /** A request keeps the heap in order if and only if it is not one for a single unit
      made while the arena comes next; then no unit is lost. */
  lemma ServeKeeps(s: State, q: Request, answer: Option<nat>, s': State, arena: nat)
    requires Valid(s, arena) && Proper(s, q, arena) && Serves(s, q, answer, s')
    ensures Valid(s', arena) <==> !TakesArena(s, q, arena)
    ensures answer == Some(arena) <==> TakesArena(s, q, arena)
    ensures !TakesArena(s, q, arena) ==> Conserves(s, q, s')
    ensures Resumes(s, q, answer, s'.slobfree)
  {
    hide Valid, Owns, Before, Returned, Given, Grown, Scribbled, Fresh, NoFit, Follows, FirstFit, Resumes;
    ServeResumes(s, q, answer, s');
    match q
    case Alloc(size, page) =>
      OneUnitFits(s, arena);
      if answer.Some? {
        var n := SlobUnits(size);
        var s1, prev :| Cuts(s, n, page, answer.value, s1, prev) && s' == Given(s1, prev, answer.value, n);
        if s1 != s {
          var at :| Before(s.ring, at, page.value) && s1 == Grown(s, page.value, at);
          PageKeeps(s, page.value, at, arena);
        }
        FitIs(s1.ring, s1.slobfree, n, prev, answer.value);
        GiveKeeps(s1, prev, answer.value, n, arena);
        FirstFitArena(s1, n, prev, answer.value, arena);
      }
    case FreeBlock(b, _) =>
      var prev :| Before(s.ring, prev, b) && s' == Returned(s, b, prev);
      ReturnKeeps(s, b, prev, arena);
    case Scribble(b, v, x) =>
      ScribbleKeeps(s, b, v, x, arena);
  }

  lemma ServeResumes(s: State, q: Request, answer: Option<nat>, s': State)
    requires Serves(s, q, answer, s')
    ensures Resumes(s, q, answer, s'.slobfree)
  {
    hide Before, NoFit, FirstFit, FitsInPage, Released, Taken;
    if q.Alloc? && answer.Some? {
      var n := SlobUnits(q.size);
      var s1, prev :| Cuts(s, n, q.page, answer.value, s1, prev) && s' == Given(s1, prev, answer.value, n);
      ResumesAlloc(s, n, q.page, answer.value, s1, prev);
    }
  }

  lemma BeforeUnique(h: Ring, b: nat, prev: nat, prev': nat)
    requires b !in h.heads && Before(h, prev, b) && Before(h, prev', b)
    ensures prev == prev'
  {
  }

  lemma PreparedUnique(s: State, n: nat, page: Option<nat>, s1: State, s2: State, arena: nat)
    requires Valid(s, arena) && n > 0 && (page.Some? ==> Fresh(s, page.value, arena))
    requires Prepared(s, n, page, s1) && Prepared(s, n, page, s2) && (NoFit(s.ring, n) ==> s1 != s && s2 != s)
    ensures s1 == s2
  {
    if s1 != s && s2 != s {
      var at, at' :|
        && Before(s.ring, at, page.value) && s1 == Grown(s, page.value, at)
        && Before(s.ring, at', page.value) && s2 == Grown(s, page.value, at');
      Insertable(s.ring, page.value, PAGE_UNITS, arena);
      BeforeUnique(s.ring, page.value, at, at');
    }
  }

  /** The answer and the heap after a request are determined by the heap before it. */
  lemma ServeUnique(s: State, q: Request, a: Option<nat>, s1: State, a': Option<nat>, s2: State, arena: nat)
    requires Valid(s, arena) && Proper(s, q, arena) && Serves(s, q, a, s1) && Serves(s, q, a', s2)
    ensures a == a' && s1 == s2
  {
    hide Valid, Before, Returned, Given, Grown, Scribbled, Fresh, Follows, FirstFit, Prepared;
    match q
    case Alloc(size, page) =>
      if a.Some? && a'.Some? {
        var n := SlobUnits(size);
        var t1, p1 :| Cuts(s, n, page, a.value, t1, p1) && s1 == Given(t1, p1, a.value, n);
        var t2, p2 :| Cuts(s, n, page, a'.value, t2, p2) && s2 == Given(t2, p2, a'.value, n);
        CutsOne(s, n, page, a.value, t1, p1);
        CutsOne(s, n, page, a'.value, t2, p2);
        PreparedUnique(s, n, page, t1, t2, arena);
        PreparedValid(s, n, page, t1, arena);
        ValidGood(t1, arena);
        FirstFitUnique(t1.ring, t1.slobfree, n, p1, a.value, p2, a'.value);
      } else if a.Some? {
        var t1, p1 :| Cuts(s, SlobUnits(size), page, a.value, t1, p1);
        CutsOne(s, SlobUnits(size), page, a.value, t1, p1);
      } else if a'.Some? {
        var t2, p2 :| Cuts(s, SlobUnits(size), page, a'.value, t2, p2);
        CutsOne(s, SlobUnits(size), page, a'.value, t2, p2);
      }
    case FreeBlock(b, _) =>
      var p1, p2 :|
        && Before(s.ring, p1, b) && s1 == Returned(s, b, p1)
        && Before(s.ring, p2, b) && s2 == Returned(s, b, p2);
      ValidGood(s, arena);
      HeldOutside(s, b);
      BeforeUnique(s.ring, b, p1, p2);
    case Scribble(b, v, x) =>
  }

  lemma CutsOne(s: State, n: nat, page: Option<nat>, cur: nat, s1: State, prev: nat)
    requires Cuts(s, n, page, cur, s1, prev)
    ensures NoFit(s.ring, n) ==> s1 != s && page.Some?
  {
  }

  lemma PreparedValid(s: State, n: nat, page: Option<nat>, s1: State, arena: nat)
    requires Valid(s, arena) && Prepared(s, n, page, s1) && (page.Some? ==> Fresh(s, page.value, arena))
    ensures Valid(s1, arena)
  {
    hide Valid, Before, Grown, Fresh, NoFit;
    if s1 != s {
      var at :| Before(s.ring, at, page.value) && s1 == Grown(s, page.value, at);
      PageKeeps(s, page.value, at, arena);
    }
  }

  lemma ValidGood(s: State, arena: nat)
    requires Valid(s, arena)
    ensures Good(s.ring, s.slobfree, arena) && HeldOk(s.ring, s.held)
  {
  }

  lemma FitIs(h: Ring, from: nat, n: nat, prev: nat, cur: nat)
    requires FirstFit(h, from, n, prev, cur)
    ensures prev in h.heads && Next(h, prev) == cur && n <= Size(h, cur)
  {
  }

  lemma OneUnitFits(s: State, arena: nat)
    requires Valid(s, arena)
    ensures !NoFit(s.ring, 1)
  {
    assert Size(s.ring, arena) == 1;
  }

  /** Two requests of one unit on an empty heap are both given the arena, which stays
      in the ring. */
  lemma ArenaTwice(arena: nat, answer: Option<nat>, s': State)
    ensures
      var q, s1 := Alloc(SLOB_UNIT, None), Given(Empty(arena), arena, arena, 1);
      && Proper(Empty(arena), q, arena) && Proper(s1, q, arena)
      && (Serves(Empty(arena), q, answer, s') <==> answer == Some(arena) && s' == s1)
      && (Serves(s1, q, answer, s') <==> answer == Some(arena) && s' == s1)
      && Held(s1.held, arena) && Free(s1.ring, arena)
  {
    var s, s1 := Empty(arena), Given(Empty(arena), arena, arena, 1);
    var h := s.ring;
    assert SlobUnits(SLOB_UNIT) == 1;
    assert s1.held == map[arena := 1] && s1 == Given(s1, arena, arena, 1);
    assert Cuts(s, 1, None, arena, s, arena) && Cuts(s1, 1, None, arena, s1, arena);
    assert Covers(h, arena, arena) && HeldBy(s1.held, arena, arena);
    assert Size(h, arena) == 1 && !NoFit(h, 1);
    assert !Passed(arena, arena, arena);
    forall t, t1, prev, cur | (t == s || t == s1) && Cuts(t, 1, None, cur, t1, prev)
      ensures prev == cur == arena && Given(t1, prev, cur, 1) == s1
    {
    }
  }

  ghost predicate IsRun(states: seq<State>, requests: seq<Request>, answers: seq<Option<nat>>, arena: nat) {
    && |states| == |requests| + 1 == |answers| + 1 && states[0] == Empty(arena)
    && forall k :: 0 <= k < |requests| ==> RunsAt(states, requests, answers, arena, k)
  }

  ghost predicate RunsAt(states: seq<State>, requests: seq<Request>, answers: seq<Option<nat>>, arena: nat, k: nat)
    requires |states| == |requests| + 1 == |answers| + 1 && k < |requests|
  {
    Proper(states[k], requests[k], arena) && Serves(states[k], requests[k], answers[k], states[k + 1])
  }

  /** None of the first k requests is for a single unit while the arena comes next. */
  ghost predicate ArenaKept(states: seq<State>, requests: seq<Request>, arena: nat, k: nat) {
    forall j :: 0 <= j < k && j < |requests| && j < |states| ==> !TakesArena(states[j], requests[j], arena)
  }

  /** In every run the ring is in order, allocated blocks overlap neither each other nor
      free ones, and untouched headers hold the sizes, as long as the arena is not given
      away; giving it away breaks this. */
  lemma {:induction false} RunsStayValid(
    states: seq<State>, requests: seq<Request>, answers: seq<Option<nat>>, arena: nat, k: nat)
    requires IsRun(states, requests, answers, arena) && k <= |requests| && ArenaKept(states, requests, arena, k)
    ensures Valid(states[k], arena)
    ensures k < |requests| ==> (Valid(states[k + 1], arena) <==> !TakesArena(states[k], requests[k], arena))
    ensures
      k < |requests| && !TakesArena(states[k], requests[k], arena) ==>
        Conserves(states[k], requests[k], states[k + 1])
  {
    hide Valid, Proper, Serves, Conserves, TakesArena;
    if k == 0 {
      EmptyValid(arena);
    } else {
      RunsStayValid(states, requests, answers, arena, k - 1);
    }
    if k < |requests| {
      assert RunsAt(states, requests, answers, arena, k);
      ServeKeeps(states[k], requests[k], answers[k], states[k + 1], arena);
    }
  }

  /** All states up to the k-th are in order if and only if no request before it takes the
      arena. */
  lemma {:induction false} RunsValidExact(
    states: seq<State>, requests: seq<Request>, answers: seq<Option<nat>>, arena: nat, k: nat)
    requires IsRun(states, requests, answers, arena) && k <= |requests|
    ensures (forall j :: 0 <= j <= k ==> Valid(states[j], arena)) <==> ArenaKept(states, requests, arena, k)
  {
    hide Valid, Proper, Serves, Conserves, TakesArena;
    if k == 0 {
      RunsStayValid(states, requests, answers, arena, 0);
    } else {
      RunsValidExact(states, requests, answers, arena, k - 1);
      if ArenaKept(states, requests, arena, k - 1) {
        RunsStayValid(states, requests, answers, arena, k - 1);
      }
    }
  }

  /** Two units or more, as kmalloc asks for any size but zero. */
  ghost predicate Sizeable(q: Request) {
    q.Alloc? ==> SlobUnits(q.size) >= 2
  }

  /** The heap stays in order if no request is for a single unit. */
  lemma SizeableKeepArena(
    states: seq<State>, requests: seq<Request>, answers: seq<Option<nat>>, arena: nat, k: nat)
    requires IsRun(states, requests, answers, arena) && k <= |requests|
    requires forall j :: 0 <= j < k ==> Sizeable(requests[j])
    ensures ArenaKept(states, requests, arena, k) && Valid(states[k], arena)
  {
    hide Valid, Proper, Serves, Conserves;
    RunsStayValid(states, requests, answers, arena, k);
  }

  ghost predicate Supplied(requests: seq<Request>, k: nat, p: nat) {
    exists j :: 0 <= j < k && j < |requests| && NewUnit(requests[j], p)
  }

  /** Units are conserved: once in the heap, a unit is free or allocated ever after; and
      every unit is the arena's or came with a page. */
  lemma {:induction false} UnitsConserved(
    states: seq<State>, requests: seq<Request>, answers: seq<Option<nat>>, arena: nat, j: nat, k: nat, p: nat)
    requires IsRun(states, requests, answers, arena) && j <= k <= |requests| && ArenaKept(states, requests, arena, k)
    ensures Owns(states[j], p) ==> Owns(states[k], p)
    ensures Owns(states[k], p) ==> p == arena || Supplied(requests, k, p)
    decreases k
  {
    hide Valid, Proper, Serves, Owns, NewUnit;
    if k == 0 {
      EmptyValid(arena);
    } else {
      RunsStayValid(states, requests, answers, arena, k - 1);
      UnitsConserved(states, requests, answers, arena, if j < k then j else k - 1, k - 1, p);
    }
  }

  ghost predicate LeavesAlone(q: Request, b: nat) {
    !(q.FreeBlock? && q.block == b) && !(q.Scribble? && q.block == b)
  }

  lemma ServeLeaves(s: State, q: Request, answer: Option<nat>, s': State, arena: nat, b: nat)
    requires Valid(s, arena) && Proper(s, q, arena) && Serves(s, q, answer, s') && b in s.intact && LeavesAlone(q, b)
    ensures b in s'.intact && b in s.held && b in s'.held && s'.held[b] == s.held[b]
  {
    hide Before, Follows, NoFit, Fresh, HeldOk, Away, Good, Released, Taken, FirstFit;
    if q.Alloc? && answer.Some? {
      var n := SlobUnits(q.size);
      var s1, prev :| Cuts(s, n, q.page, answer.value, s1, prev) && s' == Given(s1, prev, answer.value, n);
      if s1 != s {
        var at :| Before(s.ring, at, q.page.value) && s1 == Grown(s, q.page.value, at);
        PageKeeps(s, q.page.value, at, arena);
      }
      FitIs(s1.ring, s1.slobfree, n, prev, answer.value);
      GiveKeeps(s1, prev, answer.value, n, arena);
    }
  }

  /** An allocated block can be freed by its header after any other requests: the header
      still holds its size. */
  lemma {:induction false} HeaderStays(
    states: seq<State>, requests: seq<Request>, answers: seq<Option<nat>>, arena: nat, j: nat, k: nat, b: nat)
    requires IsRun(states, requests, answers, arena) && j <= k <= |requests| && ArenaKept(states, requests, arena, k)
    requires b in states[j].intact
    requires forall i :: j <= i < k ==> LeavesAlone(requests[i], b)
    ensures b in states[k].intact && b in states[j].held && b in states[k].held
    ensures Size(states[k].ring, b) == states[k].held[b] == states[j].held[b]
    decreases k
  {
    hide Proper, Serves, Good, HeldOk, Away, LeavesAlone;
    RunsStayValid(states, requests, answers, arena, k);
    if j < k {
      HeaderStays(states, requests, answers, arena, j, k - 1, b);
      RunsStayValid(states, requests, answers, arena, k - 1);
      assert RunsAt(states, requests, answers, arena, k - 1);
      ServeLeaves(states[k - 1], requests[k - 1], answers[k - 1], states[k], arena, b);
    }
  }
}
