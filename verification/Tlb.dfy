/** The software-managed TLB: a 16-entry cache of page pairs, mirrored in bits of the page
    table entries, kept in step with misses, evictions, invalidations and rewrites. */
module Tlb {
  import opened Counting

  const TLBN := 16

  /** A TLB index: the width of the index field. */
  type Index = i: nat | i < 16

  /** A page table entry by its fields: frame number (31..12), TLB index (11..8), TLB_P
      (7), and the permission bits. */
  datatype Pte = Pte(ppn: nat, idx: Index, tlbP: bool, user: bool, writable: bool, present: bool)

  const ZeroPte := Pte(0, 0, false, false, false, false)

  /** The EntryLo word: frame number, cache attribute 2, dirty, valid and global. */
  function EntryLo(p: Pte): nat {
    p.ppn * 64 + 16 + (if p.writable then 4 else 0) + 3
  }

  const LO_INVALID: nat := 0

  const HI_INVALID: nat := 0x80000000 / 0x2000

  /** The valid bit of an EntryLo word. */
  predicate ValidLo(lo: nat) {
    (lo / 2) % 2 == 1
  }

  lemma EntryLoValid(p: Pte)
    ensures ValidLo(EntryLo(p)) && !ValidLo(LO_INVALID)
  {
  }

  /** What the hardware reads in an EntryLo word for a table entry: the frame in bits 6 and
      up, cacheable (2) in bits 5..3, writable in bit 2, valid and global in bits 1 and 0. */
  predicate Describes(lo: nat, p: Pte) {
    && lo / 64 == p.ppn && (lo / 8) % 8 == 2 && ((lo / 4) % 2 == 1 <==> p.writable) && lo % 4 == 3
  }

  lemma EntryLoDescribes(p: Pte)
    ensures Describes(EntryLo(p), p)
  {
    var lo, dirty := EntryLo(p), if p.writable then 1 else 0;
    assert lo / 64 == p.ppn;
    assert lo / 8 == 8 * p.ppn + 2;
    assert lo / 4 == 2 * (8 * p.ppn + 2) + dirty;
    hide EntryLo;
  }

  function Bit(b: bool): nat {
    if b then 1 else 0
  }

  /** The PTE word of an entry. */
  function PteWord(p: Pte): nat {
    p.ppn * 4096 + p.idx * 256 + Bit(p.tlbP) * 128 + Bit(p.user) * 4 + Bit(p.writable) * 2 + Bit(p.present)
  }

  /** The fields that ENTRYLO reads, in the bits that the format gives: 31..12 and 1. */
  lemma FrameOfWord(p: Pte)
    ensures PteWord(p) / 4096 == p.ppn
  {
  }

  lemma WritableOfWord(p: Pte)
    ensures (PteWord(p) / 2) % 2 == Bit(p.writable)
  {
    var half := p.ppn * 1024 + p.idx * 64 + Bit(p.tlbP) * 32 + Bit(p.user);
    assert PteWord(p) == 2 * (2 * half + Bit(p.writable)) + Bit(p.present);
    assert PteWord(p) / 2 == 2 * half + Bit(p.writable);
  }

  /** The macro ENTRYLO on the word gives the EntryLo word of the entry. */
  lemma EntryLoOfWord(p: Pte)
    ensures var w := PteWord(p); EntryLo(p) == (w / 4096) * 64 + 2 * 8 + ((w / 2) % 2) * 4 + 3
  {
    FrameOfWord(p);
    WritableOfWord(p);
    hide PteWord;
  }

  /** The macro ENTRYLO on the word: the frame number, the attribute bits and bit 1. */
  function EntryLoWord(pte: bv32): bv32 {
    ((pte >> 12) << 6) | (2 << 3) | (((pte >> 1) & 1) << 2) | 3
  }

  /** Every field of the EntryLo word, bit by bit from the PTE word: frame 31..12 to 25..6,
      writable 1 to 2. */
  lemma EntryLoBits(pte: bv32)
    ensures
      var lo := EntryLoWord(pte);
      && lo >> 6 == pte >> 12 && (lo >> 3) & 7 == 2 && lo & 3 == 3
      && ((lo >> 2) & 1 == 1 <==> pte & 2 != 0) && lo >> 26 == 0
  {
  }

  /** The bit operations of the handler act on the fields as the record updates do. */
  lemma PteBits(pte: bv32, i: bv32)
    requires i < 16
    ensures
      var set' := (pte & 0xfffff0ff) | (i << 8) | 0x80;
      && (set' >> 8) & 0xf == i && set' & 0x80 != 0
      && set' >> 12 == pte >> 12 && set' & 0x7f == pte & 0x7f
    ensures
      var clear := pte & 0xffffff7f;
      && clear & 0x80 == 0 && clear >> 12 == pte >> 12
      && (clear >> 8) & 0xf == (pte >> 8) & 0xf && clear & 0x7f == pte & 0x7f
  {
  }

  type Page = nat

  /** TLBPAIR: the other page of the pair. */
  function Buddy(v: Page): Page {
    if v % 2 == 0 then v + 1 else v - 1
  }

  /** hi names the pair, lo0 its even page and lo1 its odd page. */
  datatype Entry = Entry(hi: nat, lo0: nat, lo1: nat)

  const NoEntry := Entry(HI_INVALID, LO_INVALID, LO_INVALID)

  function MkEntry(hi: nat, v: Page, own: nat, other: nat): Entry {
    if v % 2 == 0 then Entry(hi, own, other) else Entry(hi, other, own)
  }

  /** empty[..n] is the stack of unused indices, hi the pair each index was given to, ptr
      the next index to evict, pt the page table of the current page directory (a page
      without a page table is absent). */
  datatype State = State(entries: seq<Entry>, empty: seq<Index>, n: nat, hi: seq<nat>, ptr: Index, pt: map<Page, Pte>)

  predicate Sized(s: State) {
    |s.entries| == TLBN && |s.empty| == TLBN && |s.hi| == TLBN && s.n <= TLBN
  }

  // ----- operations -----

  /** Load a page directory: everything invalid, every index unused. */
  function Load(s: State, pt: map<Page, Pte>): State {
    s.(entries := seq(TLBN, _ => NoEntry), empty := seq(TLBN, i => i), n := TLBN, pt := pt)
  }

  predicate Resident(pt: map<Page, Pte>, v: Page) {
    v in pt && pt[v].tlbP
  }

  function ClearP(pt: map<Page, Pte>, v: Page): map<Page, Pte> {
    if v in pt then pt[v := pt[v].(tlbP := false)] else pt
  }

  /** An index for a new pair: a stacked one, or the one whose turn it is to be evicted. */
  function GetEmpty(s: State, hi: nat): (r: (State, Index))
    requires Sized(s)
    ensures Sized(r.0)
  {
    if s.n > 0 then
      var i := s.empty[s.n - 1];
      (s.(n := s.n - 1, hi := s.hi[i := hi]), i)
    else
      var i := s.ptr;
      var pt := ClearP(ClearP(s.pt, 2 * s.hi[i]), 2 * s.hi[i] + 1);
      (s.(ptr := (s.ptr + 1) % TLBN, hi := s.hi[i := hi], pt := pt), i)
  }

  function Write(s: State, i: Index, e: Entry): State
    requires Sized(s)
  {
    s.(entries := s.entries[i := e])
  }

  /** The refill on a miss of page v, whose table entry exists. */
  function Refill(s: State, v: Page): (r: State)
    requires Sized(s) && v in s.pt
    ensures Sized(r)
  {
    var own := EntryLo(s.pt[v]);
    if Resident(s.pt, Buddy(v)) then
      var i := s.pt[Buddy(v)].idx;
      var s' := Write(s, i, MkEntry(v / 2, v, own, EntryLo(s.pt[Buddy(v)])));
      s'.(pt := s'.pt[v := s.pt[v].(idx := i, tlbP := true)])
    else
      var (s1, i) := GetEmpty(s, v / 2);
      var s' := Write(s1, i, MkEntry(v / 2, v, own, LO_INVALID));
      s'.(pt := s'.pt[v := s1.pt[v].(idx := i, tlbP := true)])
  }

  /** Put an index back on the stack; the stack is never full then (see InUseLeavesRoom). */
  function Push(s: State, i: Index): (r: State)
    requires Sized(s)
    ensures Sized(r)
  {
    if s.n < TLBN then s.(empty := s.empty[s.n := i], n := s.n + 1) else s
  }

  function Invalidate(s: State, v: Page): (r: State)
    requires Sized(s)
    ensures Sized(r)
  {
    if !Resident(s.pt, v) then s
    else
      var i := s.pt[v].idx;
      var s' :=
        if Resident(s.pt, Buddy(v)) then
          Write(s, i, MkEntry(v / 2, v, LO_INVALID, EntryLo(s.pt[Buddy(v)])))
        else
          Write(Push(s, i), i, NoEntry);
      s'.(pt := ClearP(s'.pt, v))
  }

  /** get_pte with creation: a missing page table is allocated and zeroed. */
  function WithTable(pt: map<Page, Pte>, v: Page): map<Page, Pte> {
    if v in pt then pt else map u | u in pt.Keys + Table(v) :: if u in pt then pt[u] else ZeroPte
  }

  /** The pages that share a page table with v. */
  function Table(v: Page): (r: set<Page>)
    ensures v in r
  {
    assert v == TablePages(v)[v % 1024];
    set u | u in TablePages(v)
  }

  function TablePages(v: Page): seq<Page> {
    seq(1024, k requires 0 <= k < 1024 => v / 1024 * 1024 + k)
  }

  /** Map page v to a frame: invalidate, then overwrite the entry. */
  function Insert(s: State, v: Page, ppn: nat, user: bool, writable: bool): (r: State)
    requires Sized(s)
    ensures Sized(r)
  {
    var s1 := s.(pt := WithTable(s.pt, v));
    var s2 := if v in s1.pt && s1.pt[v].present && s1.pt[v].ppn != ppn then Remove(s1, v) else s1;
    var s3 := Invalidate(s2, v);
    s3.(pt := s3.pt[v := Pte(ppn, 0, false, user, writable, true)])
  }

  /** Unmap page v: invalidate, then clear the entry. */
  function Remove(s: State, v: Page): (r: State)
    requires Sized(s)
    ensures Sized(r)
  {
    if v in s.pt && s.pt[v].present then
      var s' := Invalidate(s, v);
      s'.(pt := s'.pt[v := ZeroPte])
    else s
  }

  // ----- the invariant -----

  predicate InUse(s: State, i: Index)
    requires Sized(s)
  {
    i !in s.empty[..s.n]
  }

  function Half(pt: map<Page, Pte>, v: Page): nat {
    if Resident(pt, v) then EntryLo(pt[v]) else LO_INVALID
  }

  ghost predicate StackOk(s: State)
    requires Sized(s)
  {
    forall i, j :: 0 <= i < j < s.n ==> s.empty[i] != s.empty[j]
  }

  /** A page marked TLB_P sits in the entry its index bits name. */
  ghost predicate PageOk(s: State, v: Page)
    requires Sized(s)
  {
    Resident(s.pt, v) ==>
      InUse(s, s.pt[v].idx) && s.hi[s.pt[v].idx] == v / 2
  }

  /** An index in use holds exactly the resident pages of its pair, with the words their
      table entries give now; an unused one holds nothing. */
  ghost predicate EntryOk(s: State, i: nat)
    requires Sized(s) && i < TLBN
  {
    if InUse(s, i) then
      && s.entries[i] == Entry(s.hi[i], Half(s.pt, 2 * s.hi[i]), Half(s.pt, 2 * s.hi[i] + 1))
      && (Resident(s.pt, 2 * s.hi[i]) || Resident(s.pt, 2 * s.hi[i] + 1))
      && (Resident(s.pt, 2 * s.hi[i]) ==> s.pt[2 * s.hi[i]].idx == i)
      && (Resident(s.pt, 2 * s.hi[i] + 1) ==> s.pt[2 * s.hi[i] + 1].idx == i)
    else s.entries[i] == NoEntry
  }

  ghost predicate Inv(s: State) {
    && Sized(s) && StackOk(s)
    && (forall v :: PageOk(s, v))
    && (forall i :: 0 <= i < TLBN ==> EntryOk(s, i))
  }

  // ----- what the hardware sees -----

  /** Entry i translates page v. */
  predicate Hits(s: State, i: nat, v: Page)
    requires Sized(s) && i < TLBN
  {
    s.entries[i].hi == v / 2 && ValidLo(HalfFor(s, i, v))
  }

  /** The half of entry i for page v. */
  function HalfFor(s: State, i: nat, v: Page): nat
    requires Sized(s) && i < TLBN
  {
    if v % 2 == 0 then s.entries[i].lo0 else s.entries[i].lo1
  }

  /** No stale translation: an entry that translates a page gives the word of its current
      table entry, which is marked TLB_P with that index; and no two entries do. */
  lemma NoStaleTranslation(s: State, i: nat, v: Page)
    requires Inv(s) && i < TLBN && Hits(s, i, v)
    ensures Resident(s.pt, v) && s.pt[v].idx == i
    ensures HalfFor(s, i, v) == EntryLo(s.pt[v]) && Describes(HalfFor(s, i, v), s.pt[v])
    ensures forall j :: 0 <= j < TLBN && Hits(s, j, v) ==> j == i
  {
    HitIsResident(s, i, v);
    EntryLoDescribes(s.pt[v]);
    forall j | 0 <= j < TLBN && Hits(s, j, v) ensures j == i {
      HitIsResident(s, j, v);
    }
  }

  lemma HitIsResident(s: State, i: nat, v: Page)
    requires Inv(s) && i < TLBN && Hits(s, i, v)
    ensures Resident(s.pt, v) && s.pt[v].idx == i
    ensures HalfFor(s, i, v) == EntryLo(s.pt[v])
  {
    assert EntryOk(s, i);
    assert !ValidLo(LO_INVALID);
    assert v == 2 * (v / 2) || v == 2 * (v / 2) + 1;
  }

  /** A marked page is translated by the entry that its index names. */
  lemma ResidentHits(s: State, v: Page)
    requires Inv(s) && Resident(s.pt, v)
    ensures Hits(s, s.pt[v].idx, v) && Describes(HalfFor(s, s.pt[v].idx, v), s.pt[v])
  {
    assert PageOk(s, v);
    assert EntryOk(s, s.pt[v].idx);
    EntryLoValid(s.pt[v]);
    EntryLoDescribes(s.pt[v]);
  }

  /** And the marks are exact: a page is marked TLB_P if and only if some entry
      translates it. */
  lemma MarksExact(s: State, v: Page)
    requires Inv(s)
    ensures Resident(s.pt, v) <==> exists i :: 0 <= i < TLBN && Hits(s, i, v)
  {
    if Resident(s.pt, v) {
      assert PageOk(s, v);
      var i := s.pt[v].idx;
      assert EntryOk(s, i);
      EntryLoValid(s.pt[v]);
      assert Hits(s, i, v);
    } else if exists i :: 0 <= i < TLBN && Hits(s, i, v) {
      var i :| 0 <= i < TLBN && Hits(s, i, v);
      HitIsResident(s, i, v);
      assert false;
    }
  }

  // ----- every operation keeps the invariant -----

  /** Loading a page directory establishes the invariant exactly when none of its entries
      is still marked from an earlier residency. */
  lemma LoadExact(s: State, pt: map<Page, Pte>)
    requires |s.hi| == TLBN
    ensures Inv(Load(s, pt)) <==> (forall v :: !Resident(pt, v))
  {
    var s' := Load(s, pt);
    forall i: Index ensures !InUse(s', i) {
      assert s'.empty[..TLBN][i] == i;
    }
    if forall v :: !Resident(pt, v) {
      forall i: Index ensures EntryOk(s', i) {}
    } else {
      var v :| Resident(pt, v);
      assert !PageOk(s', v);
    }
  }

  /** Different indices in use hold different pairs. */
  lemma PairsDistinct(s: State, i: Index, j: Index)
    requires Inv(s) && InUse(s, i) && InUse(s, j) && s.hi[i] == s.hi[j]
    ensures i == j
  {
    assert EntryOk(s, i) && EntryOk(s, j);
  }

  lemma EvenOrOdd(v: Page)
    ensures v == 2 * (v / 2) || v == 2 * (v / 2) + 1
    ensures Buddy(v) / 2 == v / 2 && Buddy(Buddy(v)) == v && Buddy(v) != v
    ensures v == 2 * (v / 2) ==> Buddy(v) == 2 * (v / 2) + 1
    ensures v == 2 * (v / 2) + 1 ==> Buddy(v) == 2 * (v / 2)
  {
  }

  /** The second half of a pair joins the entry of the first. */
  lemma JoinKeeps(s: State, v: Page)
    requires Inv(s) && v in s.pt && !Resident(s.pt, v) && Resident(s.pt, Buddy(v))
    ensures Inv(Refill(s, v))
  {
    EvenOrOdd(v);
    var r := Refill(s, v);
    var i := s.pt[Buddy(v)].idx;
    assert PageOk(s, Buddy(v));
    assert EntryOk(s, i);
    forall u ensures PageOk(r, u) { assert PageOk(s, u); }
    forall j: Index ensures EntryOk(r, j) {
      assert EntryOk(s, j);
      if j != i && InUse(s, j) && s.hi[j] == s.hi[i] {
        PairsDistinct(s, i, j);
      }
    }
  }

  /** What GetEmpty returns: an index no resident page uses any more. */
  lemma GetEmptyFrees(s: State, hi: nat)
    requires Inv(s)
    ensures
      var (s1, i) := GetEmpty(s, hi);
      && StackOk(s1) && InUse(s1, i) && s1.hi == s.hi[i := hi] && s1.entries == s.entries
      && s1.pt.Keys == s.pt.Keys
      && (forall u :: u in s.pt ==>
        s1.pt[u] == if Resident(s.pt, u) && s.pt[u].idx == i then s.pt[u].(tlbP := false) else s.pt[u])
      && (forall j: Index :: j != i ==> (InUse(s1, j) <==> InUse(s, j)))
  {
    var (s1, i) := GetEmpty(s, hi);
    if s.n > 0 {
      assert s.empty[..s.n] == s.empty[..s.n - 1] + [i];
      forall u | Resident(s.pt, u) ensures s.pt[u].idx != i { assert PageOk(s, u); }
    } else {
      assert s.empty[..0] == [];
      assert EntryOk(s, i);
      forall u | u in s.pt
        ensures s1.pt[u] == if Resident(s.pt, u) && s.pt[u].idx == i then s.pt[u].(tlbP := false) else s.pt[u]
      {
        assert PageOk(s, u);
        EvenOrOdd(u);
      }
    }
  }

  /** The word a table entry gives does not depend on its TLB bits. */
  lemma SameWord(p: Pte, i: Index)
    ensures EntryLo(p.(idx := i, tlbP := true)) == EntryLo(p)
  {
  }

  lemma StackSame(s: State, r: State)
    requires Sized(s) && Sized(r) && StackOk(s) && r.empty == s.empty && r.n == s.n
    ensures StackOk(r)
  {
  }

  /** A pair with no resident page gets an entry of its own. */
  lemma FreshKeeps(s: State, v: Page)
    requires Inv(s) && v in s.pt && !Resident(s.pt, v) && !Resident(s.pt, Buddy(v))
    ensures Inv(Refill(s, v))
  {
    hide GetEmpty, StackOk, EntryLo;
    EvenOrOdd(v);
    GetEmptyFrees(s, v / 2);
    var (s1, i) := GetEmpty(s, v / 2);
    SameWord(s1.pt[v], i);
    var r := Refill(s, v);
    assert r.hi == s.hi[i := v / 2] && r.pt == s1.pt[v := s1.pt[v].(idx := i, tlbP := true)];
    assert s1.pt[v] == s.pt[v];
    assert StackOk(r) by { StackSame(s1, r); }
    forall u ensures PageOk(r, u) { assert PageOk(s, u); }
    forall j: Index ensures EntryOk(r, j) {
      assert EntryOk(s, j);
      if j != i && InUse(s, j) {
        PairStays(s, s1, i, j, v);
      }
    }
  }

  /** Freeing index i and marking v leaves the pair of another index alone. */
  lemma PairStays(s: State, s1: State, i: Index, j: Index, v: Page)
    requires Inv(s) && Sized(s1) && i != j && InUse(s, j)
    requires !Resident(s.pt, v) && !Resident(s.pt, Buddy(v))
    requires s1.pt.Keys == s.pt.Keys
    requires forall u :: u in s.pt ==>
      s1.pt[u] == if Resident(s.pt, u) && s.pt[u].idx == i then s.pt[u].(tlbP := false) else s.pt[u]
    ensures s.hi[j] != v / 2
    ensures forall u :: u == 2 * s.hi[j] || u == 2 * s.hi[j] + 1 ==>
      (Resident(s1.pt, u) <==> Resident(s.pt, u)) && (u in s.pt && Resident(s.pt, u) ==> s1.pt[u] == s.pt[u])
  {
    EvenOrOdd(v);
    assert EntryOk(s, j);
  }

  /** A miss keeps the invariant and leaves the page resident. */
  lemma RefillKeeps(s: State, v: Page)
    requires Inv(s) && v in s.pt && !Resident(s.pt, v)
    ensures Inv(Refill(s, v)) && Resident(Refill(s, v).pt, v)
  {
    if Resident(s.pt, Buddy(v)) {
      JoinKeeps(s, v);
    } else {
      FreshKeeps(s, v);
    }
  }

  // ----- invalidation -----

  /** While an index is in use the stack of unused ones has room. */
  lemma InUseLeavesRoom(s: State, i: Index)
    requires Sized(s) && StackOk(s) && InUse(s, i)
    ensures s.n < TLBN
  {
    RoomLeft(s.empty[..s.n], TLBN, i);
  }

  lemma HalfGoneKeeps(s: State, v: Page)
    requires Inv(s) && Resident(s.pt, v) && Resident(s.pt, Buddy(v))
    ensures Inv(Invalidate(s, v))
  {
    EvenOrOdd(v);
    var r := Invalidate(s, v);
    var i := s.pt[v].idx;
    assert PageOk(s, v) && PageOk(s, Buddy(v));
    assert EntryOk(s, i);
    forall u ensures PageOk(r, u) { assert PageOk(s, u); }
    forall j: Index ensures EntryOk(r, j) {
      assert EntryOk(s, j);
      if j != i && InUse(s, j) && s.hi[j] == s.hi[i] {
        PairsDistinct(s, i, j);
      }
    }
  }

  lemma WholeGoneKeeps(s: State, v: Page)
    requires Inv(s) && Resident(s.pt, v) && !Resident(s.pt, Buddy(v))
    ensures Inv(Invalidate(s, v))
  {
    EvenOrOdd(v);
    var r := Invalidate(s, v);
    var i := s.pt[v].idx;
    assert PageOk(s, v);
    assert EntryOk(s, i);
    InUseLeavesRoom(s, i);
    assert r.empty[..r.n] == s.empty[..s.n] + [i];
    assert StackOk(r) by {
      forall k | 0 <= k < s.n ensures s.empty[k] != i { assert s.empty[..s.n][k] == s.empty[k]; }
    }
    forall u ensures PageOk(r, u) {
      assert PageOk(s, u);
      EvenOrOdd(u);
    }
    forall j: Index ensures EntryOk(r, j) {
      assert EntryOk(s, j);
      if j != i && InUse(s, j) && s.hi[j] == s.hi[i] {
        PairsDistinct(s, i, j);
      }
    }
  }

  /** Invalidation keeps the invariant and leaves the page without an entry. */
  lemma InvalidateKeeps(s: State, v: Page)
    requires Inv(s)
    ensures Inv(Invalidate(s, v)) && !Resident(Invalidate(s, v).pt, v)
    ensures v in s.pt ==> v in Invalidate(s, v).pt
  {
    if Resident(s.pt, v) {
      if Resident(s.pt, Buddy(v)) {
        HalfGoneKeeps(s, v);
      } else {
        WholeGoneKeeps(s, v);
      }
    }
  }

  /** Rewriting the table entry of a page without a TLB entry changes nothing the TLB
      depends on. */
  lemma RewriteKeeps(s: State, v: Page, p: Pte)
    requires Inv(s) && !Resident(s.pt, v) && !p.tlbP
    ensures Inv(s.(pt := s.pt[v := p]))
  {
    var r := s.(pt := s.pt[v := p]);
    forall u ensures PageOk(r, u) { assert PageOk(s, u); }
    forall j: Index ensures EntryOk(r, j) { assert EntryOk(s, j); }
  }

  lemma TableKeeps(s: State, v: Page)
    requires Inv(s)
    ensures Inv(s.(pt := WithTable(s.pt, v)))
  {
    hide Table;
    var r := s.(pt := WithTable(s.pt, v));
    forall u ensures Resident(r.pt, u) == Resident(s.pt, u) && (Resident(s.pt, u) ==> r.pt[u] == s.pt[u]) {}
    forall u ensures PageOk(r, u) { assert PageOk(s, u); }
    forall j: Index ensures EntryOk(r, j) { assert EntryOk(s, j); }
  }

  lemma RemoveKeeps(s: State, v: Page)
    requires Inv(s)
    ensures Inv(Remove(s, v))
  {
    hide Invalidate;
    if v in s.pt && s.pt[v].present {
      InvalidateKeeps(s, v);
      RewriteKeeps(Invalidate(s, v), v, ZeroPte);
    }
  }

  lemma InsertKeeps(s: State, v: Page, ppn: nat, user: bool, writable: bool)
    requires Inv(s)
    ensures
      var r := Insert(s, v, ppn, user, writable);
      Inv(r) && v in r.pt && r.pt[v] == Pte(ppn, 0, false, user, writable, true)
  {
    hide Invalidate, Remove, WithTable;
    TableKeeps(s, v);
    var s1 := s.(pt := WithTable(s.pt, v));
    RemoveKeeps(s1, v);
    var s2 := if v in s1.pt && s1.pt[v].present && s1.pt[v].ppn != ppn then Remove(s1, v) else s1;
    InvalidateKeeps(s2, v);
    RewriteKeeps(Invalidate(s2, v), v, Pte(ppn, 0, false, user, writable, true));
  }

  // ----- runs -----

  /** How a page fault ends: the process is killed, or the page is mapped. */
  datatype Fault = Killed | Mapped(ppn: nat, user: bool, writable: bool)

  datatype Event =
    | Miss(v: Page, fault: Fault)
    | Drop(v: Page)
    | Map(v: Page, ppn: nat, user: bool, writable: bool)
    | Unmap(v: Page)

  /** The miss handler: a page that is not present is faulted in first. */
  function Handle(s: State, v: Page, fault: Fault): (r: State)
    requires Sized(s)
    ensures Sized(r)
  {
    if v in s.pt && s.pt[v].present then Refill(s, v)
    else match fault
      case Killed => s
      case Mapped(ppn, user, writable) =>
        var s1 := Insert(s, v, ppn, user, writable);
        Refill(s1, v)
  }

  function Step(s: State, e: Event): (r: State)
    requires Sized(s)
    ensures Sized(r)
  {
    match e
    case Miss(v, fault) => Handle(s, v, fault)
    case Drop(v) => Invalidate(s, v)
    case Map(v, ppn, user, writable) => Insert(s, v, ppn, user, writable)
    case Unmap(v) => Remove(s, v)
  }

  /** A miss happens only on a page that no entry translates. */
  ghost predicate Enabled(s: State, e: Event)
    requires Sized(s)
  {
    e.Miss? ==> forall i :: 0 <= i < TLBN ==> !Hits(s, i, e.v)
  }

  /** A run: states[k + 1] is what event k leads to. */
  ghost predicate IsRun(states: seq<State>, events: seq<Event>) {
    && |states| == |events| + 1
    && (forall k :: 0 <= k < |states| ==> Sized(states[k]))
    && forall k :: 0 <= k < |events| ==> Enabled(states[k], events[k]) && states[k + 1] == Step(states[k], events[k])
  }

  lemma HandleKeeps(s: State, v: Page, fault: Fault)
    requires Inv(s) && !Resident(s.pt, v)
    ensures Inv(Handle(s, v, fault))
    ensures fault.Mapped? || (v in s.pt && s.pt[v].present) ==> Resident(Handle(s, v, fault).pt, v)
  {
    hide Refill, Insert;
    if v in s.pt && s.pt[v].present {
      RefillKeeps(s, v);
    } else if fault.Mapped? {
      InsertKeeps(s, v, fault.ppn, fault.user, fault.writable);
      RefillKeeps(Insert(s, v, fault.ppn, fault.user, fault.writable), v);
    }
  }

  lemma StepKeeps(s: State, e: Event)
    requires Inv(s) && Enabled(s, e)
    ensures Inv(Step(s, e))
  {
    hide Handle, Invalidate, Insert, Remove;
    match e {
      case Miss(v, fault) =>
        MarksExact(s, v);
        HandleKeeps(s, v, fault);
      case Drop(v) => InvalidateKeeps(s, v);
      case Map(v, ppn, user, writable) => InsertKeeps(s, v, ppn, user, writable);
      case Unmap(v) => RemoveKeeps(s, v);
    }
  }

  /** From a page directory loaded without marks, every state of every run satisfies the
      invariant. */
  lemma {:induction false} RunsKeepInvariant(
    states: seq<State>, events: seq<Event>, s: State, pt: map<Page, Pte>, k: nat)
    requires IsRun(states, events) && k < |states|
    requires |s.hi| == TLBN && states[0] == Load(s, pt) && forall v :: !Resident(pt, v)
    ensures Inv(states[k])
  {
    hide Step, Load, Inv, Sized;
    if k == 0 {
      LoadExact(s, pt);
    } else {
      RunsKeepInvariant(states, events, s, pt, k - 1);
      assert Enabled(states[k - 1], events[k - 1]);
      StepKeeps(states[k - 1], events[k - 1]);
    }
  }

  // ----- the handler's own form -----

  class TlbManager {
    var entries: seq<Entry>
    var empty: seq<Index>
    var n: nat
    var hi: seq<nat>
    var ptr: Index
    var pt: map<Page, Pte>

    function S(): State
      reads this
    {
      State(entries, empty, n, hi, ptr, pt)
    }

    constructor ()
      ensures S().hi == seq(TLBN, _ => 0) && |entries| == |empty| == TLBN
    {
      entries, empty, n, hi, ptr, pt := seq(TLBN, _ => NoEntry), seq(TLBN, _ => 0), 0, seq(TLBN, _ => 0), 0, map[];
    }

    /** load_pgdir: switch tables and reset every entry and the stack. */
    method LoadDirectory(table: map<Page, Pte>)
      requires |entries| == |empty| == |hi| == TLBN
      modifies this
      ensures S() == Load(old(S()), table)
      ensures Inv(S()) <==> forall v :: !Resident(table, v)
    {
      pt := table;
      for i := 0 to TLBN
        invariant |entries| == TLBN && empty == old(empty) && n == old(n) && hi == old(hi) && ptr == old(ptr) &&
          pt == table
        invariant forall j :: 0 <= j < i ==> entries[j] == NoEntry
      {
        entries := entries[i := NoEntry];
      }
      for i := 0 to TLBN
        invariant |empty| == TLBN && n == old(n) && hi == old(hi) && ptr == old(ptr) && pt == table
        invariant entries == seq(TLBN, _ => NoEntry)
        invariant forall j :: 0 <= j < i ==> empty[j] == j
      {
        empty := empty[i := i];
      }
      n := TLBN;
      assert empty == seq(TLBN, i => i);
      LoadExact(old(S()), table);
    }

    method TakeIndex(pair: nat) returns (i: Index)
      requires Sized(S())
      modifies this
      ensures S() == GetEmpty(old(S()), pair).0 && i == GetEmpty(old(S()), pair).1
    {
      if n > 0 {
        n := n - 1;
        i := empty[n];
      } else {
        i := ptr;
        ptr := (ptr + 1) % TLBN;
        var hi0 := hi[i];
        if 2 * hi0 in pt {
          pt := pt[2 * hi0 := pt[2 * hi0].(tlbP := false)];
        }
        if 2 * hi0 + 1 in pt {
          pt := pt[2 * hi0 + 1 := pt[2 * hi0 + 1].(tlbP := false)];
        }
      }
      hi := hi[i := pair];
    }

    /** Invalidate the entry of page v, if it has one. */
    method TlbInvalidate(v: Page)
      requires Inv(S())
      modifies this
      ensures S() == Invalidate(old(S()), v) && Inv(S())
    {
      InvalidateKeeps(S(), v);
      if v !in pt || !pt[v].tlbP {
        return;
      }
      var i := pt[v].idx;
      var b := Buddy(v);
      assert PageOk(S(), v);
      InUseLeavesRoom(S(), i);
      var e := NoEntry;
      if b in pt && pt[b].tlbP {
        e := MkEntry(v / 2, v, LO_INVALID, EntryLo(pt[b]));
      } else {
        empty := empty[n := i];
        n := n + 1;
      }
      entries := entries[i := e];
      pt := pt[v := pt[v].(tlbP := false)];
    }

    /** Map page v to a frame. */
    method PageInsert(v: Page, ppn: nat, user: bool, writable: bool)
      requires Inv(S())
      modifies this
      ensures S() == Insert(old(S()), v, ppn, user, writable) && Inv(S())
      ensures v in pt && pt[v] == Pte(ppn, 0, false, user, writable, true)
    {
      hide WithTable, Invalidate, Inv;
      InsertKeeps(S(), v, ppn, user, writable);
      TableKeeps(S(), v);
      TableHas(pt, v);
      pt := WithTable(pt, v);
      if pt[v].present && pt[v].ppn != ppn {
        PageRemove(v);
      }
      TlbInvalidate(v);
      pt := pt[v := Pte(ppn, 0, false, user, writable, true)];
    }

    /** Unmap page v. */
    method PageRemove(v: Page)
      requires Inv(S()) && v in pt
      modifies this
      ensures S() == Remove(old(S()), v) && Inv(S())
    {
      hide Invalidate, Inv;
      RemoveKeeps(S(), v);
      if pt[v].present {
        TlbInvalidate(v);
        pt := pt[v := ZeroPte];
      }
    }

    /** The refill: share the entry of the other half, or take a new one. */
    method FillEntry(v: Page)
      requires Inv(S()) && v in pt && !pt[v].tlbP
      modifies this
      ensures S() == Refill(old(S()), v) && Inv(S()) && Resident(pt, v)
      ensures Hits(S(), pt[v].idx, v) && Describes(HalfFor(S(), pt[v].idx, v), pt[v])
    {
      hide GetEmpty, Inv, StackOk, Describes;
      InvSized(S());
      RefillKeeps(S(), v);
      var own := EntryLo(pt[v]);
      var b := Buddy(v);
      var i: Index;
      var other := LO_INVALID;
      if b in pt && pt[b].tlbP {
        other := EntryLo(pt[b]);
        i := pt[b].idx;
      } else {
        GetEmptyKeys(S(), v / 2);
        i := TakeIndex(v / 2);
      }
      entries := entries[i := MkEntry(v / 2, v, own, other)];
      pt := pt[v := pt[v].(idx := i, tlbP := true)];
      ResidentHits(S(), v);
    }

    /** The miss handler.  When it returns true the page translates, through exactly one
        entry, to what its table entry says. */
    method MissHandler(v: Page, fault: Fault) returns (ok: bool)
      requires Inv(S())
      requires forall i :: 0 <= i < TLBN ==> !Hits(S(), i, v)
      modifies this
      ensures S() == Handle(old(S()), v, fault) && Inv(S())
      ensures ok <==> fault.Mapped? || (v in old(pt) && old(pt)[v].present)
      ensures ok ==> v in pt && exists i :: 0 <= i < TLBN && Hits(S(), i, v) && Describes(HalfFor(S(), i, v), pt[v])
    {
      hide Refill, Insert, Hits, Inv, Describes, HalfFor;
      InvSized(S());
      MarksExact(S(), v);
      ok := true;
      if v !in pt || !pt[v].present {
        match fault {
          case Killed =>
            ok := false;
            return;
          case Mapped(ppn, user, writable) =>
            PageInsert(v, ppn, user, writable);
        }
      }
      FillEntry(v);
      MarksExact(S(), v);
      ghost var i :| 0 <= i < TLBN && Hits(S(), i, v);
      NoStaleTranslation(S(), i, v);
    }
  }

  lemma InvSized(s: State)
    requires Inv(s)
    ensures Sized(s)
  {
  }

  lemma TableHas(pt: map<Page, Pte>, v: Page)
    ensures v in WithTable(pt, v)
  {
  }

  lemma GetEmptyKeys(s: State, hi: nat)
    requires Sized(s)
    ensures GetEmpty(s, hi).0.pt.Keys == s.pt.Keys
  {
  }
}
