/** What the TLB's bookkeeping leaves alone: the mappings in the page table, and the turn in
    which indices are evicted. */
module TlbTable {
  import opened Tlb

  /** The table without the bits that mirror the TLB. */
  function Mappings(pt: map<Page, Pte>): map<Page, Pte> {
    map v | v in pt :: pt[v].(idx := 0, tlbP := false)
  }

  /** Page v gets a frame; a page table that was missing is there now, with nothing else
      mapped in it. */
  function Mapped(m: map<Page, Pte>, v: Page, ppn: nat, user: bool, writable: bool): map<Page, Pte> {
    map u | u in m.Keys + (if v in m then {} else Table(v)) + {v} ::
      if u == v then Pte(ppn, 0, false, user, writable, true) else if u in m then m[u]
      else Pte(0, 0, false, false, false, false)
  }

  /** A page table holds the 1024 pages with the same upper bits. */
  lemma TableIs(v: Page, u: Page)
    ensures u in Table(v) <==> u / 1024 == v / 1024
  {
    if u / 1024 == v / 1024 {
      assert TablePages(v)[u % 1024] == u;
    }
  }

  /** What an event means to the page table alone. */
  function Effect(m: map<Page, Pte>, e: Event): map<Page, Pte> {
    match e
    case Drop(_) => m
    case Map(v, ppn, user, writable) => Mapped(m, v, ppn, user, writable)
    case Unmap(v) => if v in m && m[v].present then m[v := Pte(0, 0, false, false, false, false)] else m
    case Miss(v, fault) =>
      if (v in m && m[v].present) || fault.Killed? then m
      else Mapped(m, v, fault.ppn, fault.user, fault.writable)
  }

  lemma InvalidateMaps(s: State, v: Page)
    requires Sized(s)
    ensures Mappings(Invalidate(s, v).pt) == Mappings(s.pt)
  {
    hide Mappings, ClearP, EntryLo, MkEntry;
    ClearMaps(s.pt, v);
  }

  lemma MapsSame(pt: map<Page, Pte>, v: Page)
    ensures v in Mappings(pt) <==> v in pt
    ensures v in pt ==> Mappings(pt)[v].present == pt[v].present
  {
  }

  lemma ClearMaps(pt: map<Page, Pte>, v: Page)
    ensures Mappings(ClearP(pt, v)) == Mappings(pt) && ClearP(pt, v).Keys == pt.Keys
  {
  }

  lemma MarkMaps(pt: map<Page, Pte>, v: Page, i: Index)
    requires v in pt
    ensures Mappings(pt[v := pt[v].(idx := i, tlbP := true)]) == Mappings(pt)
  {
  }

  lemma RefillMaps(s: State, v: Page)
    requires Sized(s) && v in s.pt
    ensures Mappings(Refill(s, v).pt) == Mappings(s.pt)
  {
    hide Mappings, ClearP, EntryLo, MkEntry;
    if Resident(s.pt, Buddy(v)) {
      MarkMaps(s.pt, v, s.pt[Buddy(v)].idx);
    } else {
      var (s1, i) := GetEmpty(s, v / 2);
      var hi := s.hi[s.ptr];
      ClearMaps(s.pt, 2 * hi);
      ClearMaps(ClearP(s.pt, 2 * hi), 2 * hi + 1);
      MarkMaps(s1.pt, v, i);
    }
  }

  lemma RemoveMaps(s: State, v: Page)
    requires Sized(s)
    ensures Mappings(Remove(s, v).pt) == Effect(Mappings(s.pt), Unmap(v))
  {
    hide Invalidate, Mappings;
    InvalidateMaps(s, v);
    MapsSame(s.pt, v);
    NewMaps(Invalidate(s, v).pt, v, ZeroPte);
  }

  lemma InsertMaps(s: State, v: Page, ppn: nat, user: bool, writable: bool)
    requires Sized(s)
    ensures Mappings(Insert(s, v, ppn, user, writable).pt) == Mapped(Mappings(s.pt), v, ppn, user, writable)
  {
    hide Invalidate, Remove, Table, Mappings;
    var s1 := s.(pt := WithTable(s.pt, v));
    var s2 := if v in s1.pt && s1.pt[v].present && s1.pt[v].ppn != ppn then Remove(s1, v) else s1;
    RemoveMaps(s1, v);
    InvalidateMaps(s2, v);
    var m, s3 := Mappings(s.pt), Invalidate(s2, v);
    var entry := Pte(ppn, 0, false, user, writable, true);
    TableMaps(s.pt, v);
    assert Mappings(s3.pt)[v := entry] == Mapped(m, v, ppn, user, writable);
    NewMaps(s3.pt, v, entry);
  }

  lemma TableMaps(pt: map<Page, Pte>, v: Page)
    ensures
      var m, m1 := Mappings(pt), Mappings(WithTable(pt, v));
      && m1.Keys == m.Keys + (if v in m then {} else Table(v)) + {v} && v in m1
      && forall u :: u in m1 ==> m1[u] == if u in m then m[u] else ZeroPte
  {
  }

  lemma NewMaps(pt: map<Page, Pte>, v: Page, entry: Pte)
    requires entry == entry.(idx := 0, tlbP := false)
    ensures Mappings(pt[v := entry]) == Mappings(pt)[v := entry]
  {
  }

  lemma InsertHas(s: State, v: Page, ppn: nat, user: bool, writable: bool)
    requires Sized(s)
    ensures v in Insert(s, v, ppn, user, writable).pt
  {
  }

  lemma StepMaps(s: State, e: Event)
    requires Sized(s)
    ensures Mappings(Step(s, e).pt) == Effect(Mappings(s.pt), e)
  {
    hide Insert, Invalidate, Remove, Refill, Mapped, Mappings;
    match e
    case Drop(v) => InvalidateMaps(s, v);
    case Map(v, ppn, user, writable) => InsertMaps(s, v, ppn, user, writable);
    case Unmap(v) => RemoveMaps(s, v);
    case Miss(v, fault) =>
      MapsSame(s.pt, v);
      if v in s.pt && s.pt[v].present {
        RefillMaps(s, v);
      } else if fault.Mapped? {
        InsertMaps(s, v, fault.ppn, fault.user, fault.writable);
        var s1 := Insert(s, v, fault.ppn, fault.user, fault.writable);
        InsertHas(s, v, fault.ppn, fault.user, fault.writable);
        RefillMaps(s1, v);
      }
  }

  function Effects(m: map<Page, Pte>, events: seq<Event>): map<Page, Pte> {
    if events == [] then m else Effect(Effects(m, events[..|events| - 1]), events[|events| - 1])
  }

  /** Over every run, misses, evictions and invalidations change no mapping: the table is
      what mapping and unmapping alone make of it. */
  lemma {:induction false} RunsMap(states: seq<State>, events: seq<Event>, k: nat)
    requires IsRun(states, events) && k <= |events|
    ensures Mappings(states[k].pt) == Effects(Mappings(states[0].pt), events[..k])
  {
    hide Step, Mappings, Effect, Enabled;
    if k > 0 {
      RunsMap(states, events, k - 1);
      assert events[..k][..k - 1] == events[..k - 1];
      StepMaps(states[k - 1], events[k - 1]);
    }
  }

  // ----- whose turn it is -----

  /** Indices for pairs, one after the other, with nothing on the stack. */
  function Evictions(s: State, pairs: seq<nat>): (r: State)
    requires Sized(s)
    ensures Sized(r)
  {
    if pairs == [] then s
    else GetEmpty(Evictions(s, pairs[..|pairs| - 1]), pairs[|pairs| - 1]).0
  }

  /** Evictions go round: after k of them it is the turn of the k-th index from the first,
      so an entry is evicted again only after all others. */
  lemma {:induction false} EvictsInTurn(s: State, pairs: seq<nat>, pair: nat)
    requires Sized(s) && s.n == 0
    ensures
      var r := Evictions(s, pairs);
      && r.n == 0 && r.ptr == (s.ptr + |pairs|) % TLBN && GetEmpty(r, pair).1 == r.ptr
      && GetEmpty(r, pair).0.hi[r.ptr] == pair
  {
    hide GetEmpty;
    if pairs != [] {
      EvictsInTurn(s, pairs[..|pairs| - 1], pairs[|pairs| - 1]);
      OneEviction(Evictions(s, pairs[..|pairs| - 1]), pairs[|pairs| - 1]);
      NextTurn(s.ptr + |pairs| - 1);
    }
    OneEviction(Evictions(s, pairs), pair);
  }

  lemma OneEviction(s: State, pair: nat)
    requires Sized(s) && s.n == 0
    ensures
      var (r, i) := GetEmpty(s, pair);
      i == s.ptr && r.n == 0 && r.ptr == (s.ptr + 1) % TLBN && r.hi == s.hi[i := pair]
  {
  }

  lemma NextTurn(a: nat)
    ensures (a % TLBN + 1) % TLBN == (a + 1) % TLBN
  {
  }

  /** The mark of a page goes exactly when its pair's index is evicted. */
  lemma EvictionUnmarks(s: State, pair: nat, v: Page)
    requires Inv(s) && s.n == 0
    ensures Resident(GetEmpty(s, pair).0.pt, v) <==> Resident(s.pt, v) && s.pt[v].idx != s.ptr
  {
    assert PageOk(s, v) && EntryOk(s, s.ptr);
    EvenOrOdd(v);
  }
}
