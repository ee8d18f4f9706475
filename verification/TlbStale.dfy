/** What stale marks do in the end: a run on a page table that is switched away and loaded
    again, after which the TLB translates a page that is no longer mapped. */
module TlbStale {
  import opened Tlb

  /** Pages 0 to 99 mapped, none of them marked. */
  const Whole: map<Page, Pte> := map u: Page | u < 100 :: Pte(u + 1, 0, false, true, true, true)

  /** The TLB is empty and the k pages base, base + 2, ... can be given entries of their own. */
  ghost predicate Ready(s: State, base: Page, k: nat) {
    && Sized(s) && s.n == TLBN && base % 2 == 0 && k <= TLBN
    && (forall i: Index :: s.empty[i] == i && s.entries[i] == NoEntry)
    && forall j :: 0 <= j < k ==> ReadyAt(s, base + 2 * j)
  }

  ghost predicate ReadyAt(s: State, v: Page) {
    v in s.pt && s.pt[v].present && !Resident(s.pt, v + 1)
  }

  /** The first k pages have been given the indices from the top down. */
  ghost predicate Filled(s0: State, s: State, base: Page, k: nat) {
    && Sized(s) && k <= TLBN && s.n == TLBN - k && s.empty == s0.empty && s.ptr == s0.ptr
    && s.pt.Keys == s0.pt.Keys
    && (forall u :: u in s0.pt && !(u % 2 == 0 && base <= u < base + 2 * k) ==> s.pt[u] == s0.pt[u])
    && (forall j :: 0 <= j < k ==> FilledAt(s0, s, base, j))
    && forall i: Index :: i < TLBN - k ==> s.entries[i] == NoEntry
  }

  ghost predicate FilledAt(s0: State, s: State, base: Page, j: nat)
    requires Sized(s) && j < TLBN
  {
    var v, i := base + 2 * j, TLBN - 1 - j;
    && v in s0.pt && v in s.pt && s.pt[v] == s0.pt[v].(idx := i, tlbP := true)
    && s.hi[i] == base / 2 + j && s.entries[i] == Entry(base / 2 + j, EntryLo(s0.pt[v]), LO_INVALID)
  }

  lemma FillOne(s0: State, s: State, base: Page, k: nat)
    requires Ready(s0, base, k + 1) && Filled(s0, s, base, k)
    ensures
      var e := Miss(base + 2 * k, Killed);
      Enabled(s, e) && Filled(s0, Step(s, e), base, k + 1)
  {
    var v := base + 2 * k;
    var e := Miss(v, Killed);
    assert ReadyAt(s0, base + 2 * k);
    assert s.pt[v] == s0.pt[v] && Buddy(v) == v + 1 && v / 2 == base / 2 + k;
    assert !Resident(s.pt, v + 1) by {
      if v + 1 in s0.pt { assert s.pt[v + 1] == s0.pt[v + 1]; }
    }
    forall i | 0 <= i < TLBN ensures !Hits(s, i, v) {
      if i >= TLBN - k { assert FilledAt(s0, s, base, TLBN - 1 - i); }
    }
    var r := Step(s, e);
    assert r == Refill(s, v);
    var i: Index := TLBN - 1 - k;
    assert s.empty[s.n - 1] == i;
    forall j | 0 <= j < k + 1 ensures FilledAt(s0, r, base, j) {
      if j < k { assert FilledAt(s0, s, base, j); }
    }
  }

  /** A run goes on with one more event. */
  lemma GoOn(states: seq<State>, events: seq<Event>, e: Event) returns (states': seq<State>, events': seq<Event>)
    requires IsRun(states, events) && Enabled(states[|events|], e)
    ensures IsRun(states', events') && |states'| - 1 == |events'| == |events| + 1 && states'[0] == states[0]
    ensures states'[|events'|] == Step(states[|events|], e)
  {
    hide Step, Enabled;
    states', events' := states + [Step(states[|events|], e)], events + [e];
  }

  lemma {:induction false} FillRun(s0: State, base: Page, k: nat) returns (states: seq<State>, events: seq<Event>)
    requires Ready(s0, base, k)
    ensures IsRun(states, events) && |states| - 1 == |events| == k && states[0] == s0 && Filled(s0, states[k], base, k)
  {
    hide Step, Enabled;
    if k == 0 {
      states, events := [s0], [];
    } else {
      assert Ready(s0, base, k - 1);
      states, events := FillRun(s0, base, k - 1);
      var e := Miss(base + 2 * (k - 1), Killed);
      FillOne(s0, states[k - 1], base, k - 1);
      states, events := GoOn(states, events, e);
    }
  }

  /** No entry holds any of the three pairs used below. */
  ghost predicate Unseen(s: State)
    requires Sized(s)
  {
    forall i: Index :: s.entries[i].hi !in {14, 40, 45}
  }

  /** Indices 1 and 0 are left, 1 is the next to be evicted, and page 28 is still marked
      with index 1 from an earlier residency. */
  ghost predicate NearlyFull(s: State) {
    && Sized(s) && s.n == 2 && s.empty[0] == 0 && s.empty[1] == 1 && s.ptr == 1 && Unseen(s)
    && (forall u :: u in {28, 29, 80, 90} ==> u in s.pt && s.pt[u].present)
    && Resident(s.pt, 28) && s.pt[28].idx == 1
    && !Resident(s.pt, 80) && !Resident(s.pt, 81) && !Resident(s.pt, 91)
  }

  /** Page 80 gets index 1; page 29, the other half of page 28, overwrites that entry;
      page 80 misses again and gets index 0. */
  lemma TwoIndices(s: State)
    requires NearlyFull(s)
    ensures
      var m := Miss(80, Killed);
      var s1 := Step(s, m);
      var s2 := Step(s1, Miss(29, Killed));
      var s3 := Step(s2, m);
      && Enabled(s, m) && Enabled(s1, Miss(29, Killed)) && Enabled(s2, m)
      && s3.n == 0 && s3.ptr == 1 && s3.hi[1] == 40 && s3.entries[0] == Entry(40, EntryLo(s.pt[80]), LO_INVALID)
      && s3.entries[1].hi == 14 && (forall i: Index :: i > 1 ==> s3.entries[i] == s.entries[i])
      && 80 in s3.pt && s3.pt[80] == s.pt[80].(idx := 0, tlbP := true)
      && (forall u :: u in s.pt && u !in {29, 80} ==> u in s3.pt && s3.pt[u] == s.pt[u])
      && s3.pt.Keys == s.pt.Keys
  {
    var own := EntryLo(s.pt[80]);
    var s1 := Step(s, Miss(80, Killed));
    assert s1 == s.(
      n := 1, hi := s.hi[1 := 40], entries := s.entries[1 := Entry(40, own, LO_INVALID)],
      pt := s.pt[80 := s.pt[80].(idx := 1, tlbP := true)]);
    var s2 := Step(s1, Miss(29, Killed));
    assert s2.n == 1 && s2.hi == s1.hi && s2.empty == s.empty && s2.ptr == 1;
    assert s2.entries == s1.entries[1 := MkEntry(14, 29, EntryLo(s.pt[29]), EntryLo(s.pt[28]))];
    assert s2.pt == s1.pt[29 := s.pt[29].(idx := 1, tlbP := true)];
    assert EntryLo(s2.pt[80]) == own;
  }

  /** Evicting index 1 clears the mark of page 80, so that unmapping it leaves entry 0. */
  lemma MarkLost(s: State, own: nat)
    requires Sized(s) && s.n == 0 && s.ptr == 1 && s.hi[1] == 40
    requires s.entries[0] == Entry(40, own, LO_INVALID) && ValidLo(own)
    requires forall i: Index :: s.entries[i].hi != 45
    requires forall u :: u in {80, 90} ==> u in s.pt && s.pt[u].present
    requires !Resident(s.pt, 91)
    ensures
      var s1 := Step(s, Miss(90, Killed));
      var s2 := Step(s1, Unmap(80));
      && Enabled(s, Miss(90, Killed)) && Enabled(s1, Unmap(80))
      && Hits(s2, 0, 80) && s2.entries[0].lo0 == own && 80 in s2.pt && s2.pt[80] == ZeroPte
  {
    var s1 := Step(s, Miss(90, Killed));
    assert s1.entries == s.entries[1 := Entry(45, EntryLo(s.pt[90]), LO_INVALID)];
    assert 80 in s1.pt && !Resident(s1.pt, 80) && s1.pt[80].present;
  }

  /** What seventeen misses leave behind: page 28 marked with index 1, the page that
      follows in its pair and all from 41 on untouched. */
  ghost predicate LeftBehind(s: State) {
    && Sized(s) && s.ptr == 1 && s.pt.Keys == Whole.Keys
    && s.pt[28] == Whole[28].(idx := 1, tlbP := true)
    && forall u :: u == 29 || 41 <= u < 100 ==> s.pt[u] == Whole[u]
  }

  lemma FirstResidency(boot: State) returns (states: seq<State>, events: seq<Event>)
    requires |boot.hi| == TLBN && boot.ptr == 0
    ensures IsRun(states, events) && |states| == |events| + 1 && states[0] == Load(boot, Whole) &&
      LeftBehind(states[|events|])
  {
    hide Step, IsRun, Enabled;
    var s0 := Load(boot, Whole);
    forall j | 0 <= j < 16 ensures ReadyAt(s0, 0 + 2 * j) {}
    states, events := FillRun(s0, 0, 16);
    var s, e := states[16], Miss(40, Killed);
    LastMiss(s0, s);
    states, events := GoOn(states, events, e);
  }

  lemma LastMiss(s0: State, s: State)
    requires s0.pt == Whole && s0.ptr == 0 && Filled(s0, s, 0, 16)
    ensures Enabled(s, Miss(40, Killed)) && LeftBehind(Step(s, Miss(40, Killed)))
  {
    assert FilledAt(s0, s, 0, 14) && FilledAt(s0, s, 0, 15);
    forall i | 0 <= i < TLBN ensures !Hits(s, i, 40) { assert FilledAt(s0, s, 0, 15 - i); }
    var r := Step(s, Miss(40, Killed));
    assert r.pt == ClearP(ClearP(s.pt, 30), 31)[40 := s.pt[40].(idx := 0, tlbP := true)];
  }

  lemma SecondResidency(s: State) returns (states: seq<State>, events: seq<Event>)
    requires LeftBehind(s)
    ensures IsRun(states, events) && |states| == |events| + 1 && states[0] == Load(s, s.pt) &&
      NearlyFull(states[|events|])
    ensures states[|events|].pt[80] == Whole[80]
  {
    hide IsRun;
    var s0 := Load(s, s.pt);
    forall j | 0 <= j < 14 ensures ReadyAt(s0, 50 + 2 * j) {}
    states, events := FillRun(s0, 50, 14);
    var r := states[14];
    forall i: Index ensures r.entries[i].hi !in {14, 40, 45} {
      if i >= 2 { assert FilledAt(s0, r, 50, 15 - i); }
    }
  }

  /** The table is loaded unmarked, used, and loaded again with the marks it then has. At
      the end entry 0 translates page 80 to its frame although the page is unmapped. */
  lemma StaleTranslation(boot: State)
    returns (first: seq<State>, before: seq<Event>, second: seq<State>, after: seq<Event>)
    requires |boot.hi| == TLBN && boot.ptr == 0
    ensures IsRun(first, before) && first[0] == Load(boot, Whole) && forall v :: !Resident(Whole, v)
    ensures IsRun(second, after) && second[0] == Load(first[|before|], first[|before|].pt)
    ensures
      var last := second[|after|];
      && Hits(last, 0, 80) && last.entries[0].lo0 == EntryLo(Whole[80])
      && 80 in last.pt && last.pt[80] == ZeroPte
  {
    hide Step, IsRun, Enabled, Hits, LeftBehind, Load;
    first, before := FirstResidency(boot);
    second, after := SecondResidency(first[|before|]);
    var s, m := second[|after|], Miss(80, Killed);
    TwoIndices(s);
    second, after := GoOn(second, after, m);
    second, after := GoOn(second, after, Miss(29, Killed));
    second, after := GoOn(second, after, m);
    EntryLoValid(Whole[80]);
    MarkLost(second[|after|], EntryLo(Whole[80]));
    second, after := GoOn(second, after, Miss(90, Killed));
    second, after := GoOn(second, after, Unmap(80));
  }
}
