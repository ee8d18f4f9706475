/** The timer list: entries hold the time after their predecessor, so that a tick touches
    only the head.  It refines a list of absolute deadlines. */
module Timers {

  datatype Entry = Entry(id: nat, delta: nat)

  /** A timer and the number of ticks until it fires. */
  datatype Deadline = Deadline(id: nat, ticks: nat)

  const WORD := 0x1_0000_0000

  /** The deadlines, counted from `from`. */
  function Deadlines(list: seq<Entry>, from: nat): (r: seq<Deadline>)
    ensures |r| == |list|
  {
    if list == [] then []
    else [Deadline(list[0].id, from + list[0].delta)] + Deadlines(list[1..], from + list[0].delta)
  }

  // ----- the operations on deltas -----

  /** Walk past every entry that is due no later, subtracting; the first later entry gives
      up what the new one takes. */
  function Added(list: seq<Entry>, id: nat, n: nat): seq<Entry> {
    if list == [] then [Entry(id, n)]
    else if n < list[0].delta then [Entry(id, n), Entry(list[0].id, list[0].delta - n)] + list[1..]
    else [list[0]] + Added(list[1..], id, n - list[0].delta)
  }

  /** Take the entry at k out; its successor inherits its time. */
  function Removed(list: seq<Entry>, k: nat): seq<Entry>
    requires k < |list|
  {
    if k + 1 < |list| then list[..k] + [Entry(list[k + 1].id, list[k + 1].delta + list[k].delta)] + list[k + 2..]
    else list[..k]
  }

  function DropZeros(list: seq<Entry>): (r: seq<Entry>) {
    if list != [] && list[0].delta == 0 then DropZeros(list[1..]) else list
  }

  /** The entries at the front that are due now. */
  function Due(list: seq<Entry>): (r: seq<nat>) {
    if list != [] && list[0].delta == 0 then [list[0].id] + Due(list[1..]) else []
  }

  function LessOne(list: seq<Entry>): seq<Entry>
    requires list != [] && list[0].delta > 0
  {
    [Entry(list[0].id, list[0].delta - 1)] + list[1..]
  }

  /** A tick; a head that is zero already would stop the program. */
  function Ticked(list: seq<Entry>): seq<Entry> {
    if list == [] || list[0].delta == 0 then list else DropZeros(LessOne(list))
  }

  function Fired(list: seq<Entry>): seq<nat> {
    if list == [] || list[0].delta == 0 then [] else Due(LessOne(list))
  }

  predicate HeadPositive(list: seq<Entry>) {
    list != [] ==> list[0].delta > 0
  }

  // ----- the operations on deadlines -----

  /** Behind every deadline that is not later. */
  function Insert(d: seq<Deadline>, id: nat, n: nat): seq<Deadline> {
    if d == [] || n < d[0].ticks then [Deadline(id, n)] + d else [d[0]] + Insert(d[1..], id, n)
  }

  function Without(d: seq<Deadline>, k: nat): seq<Deadline>
    requires k < |d|
  {
    d[..k] + d[k + 1..]
  }

  /** One tick later: everyone has one tick less, and who has none left is gone. */
  function Later(d: seq<Deadline>): seq<Deadline> {
    if d == [] then []
    else (if d[0].ticks <= 1 then [] else [Deadline(d[0].id, d[0].ticks - 1)]) + Later(d[1..])
  }

  function LastTick(d: seq<Deadline>): seq<nat> {
    if d == [] then [] else (if d[0].ticks == 1 then [d[0].id] else []) + LastTick(d[1..])
  }

  // ----- refinement -----

  lemma {:induction false} DeadlinesRise(list: seq<Entry>, from: nat, i: nat, j: nat)
    requires i <= j < |list|
    ensures from <= from + list[0].delta <= Deadlines(list, from)[i].ticks <= Deadlines(list, from)[j].ticks
    ensures Deadlines(list, from)[i].id == list[i].id && list[i].delta <= Deadlines(list, from)[i].ticks
  {
    if i > 0 {
      DeadlinesRise(list[1..], from + list[0].delta, i - 1, j - 1);
    } else if j > 0 {
      DeadlinesRise(list[1..], from + list[0].delta, 0, j - 1);
    }
  }

  /** Adding a timer due in n ticks leaves every other deadline and the order of the others
      unchanged, and puts it behind those that are due at the same tick. */
  lemma {:induction false} AddRefines(list: seq<Entry>, from: nat, id: nat, n: nat)
    ensures Deadlines(Added(list, id, n), from) == Insert(Deadlines(list, from), id, from + n)
  {
    if list != [] {
      var d := list[0].delta;
      var r := Added(list, id, n);
      if n < d {
        assert r[1..] == [Entry(list[0].id, d - n)] + list[1..];
        assert r[1..][1..] == list[1..];
        assert Deadlines(r[1..], from + n) == Deadlines(list, from);
      } else {
        AddRefines(list[1..], from + d, id, n - d);
        assert r[1..] == Added(list[1..], id, n - d);
        assert Deadlines(list, from)[1..] == Deadlines(list[1..], from + d);
      }
    }
  }

  lemma RemovedTail(list: seq<Entry>, k: nat)
    requires 0 < k < |list|
    ensures Removed(list, k) != [] && Removed(list, k)[0] == list[0] &&
      Removed(list, k)[1..] == Removed(list[1..], k - 1)
  {
  }

  /** Deleting a timer leaves every other deadline unchanged. */
  lemma {:induction false} RemoveRefines(list: seq<Entry>, from: nat, k: nat)
    requires k < |list|
    ensures Deadlines(Removed(list, k), from) == Without(Deadlines(list, from), k)
  {
    var d, r, d0 := Deadlines(list, from), Removed(list, k), list[0].delta;
    if k > 0 {
      hide Removed, Deadlines, Without;
      RemoveRefines(list[1..], from + d0, k - 1);
      RemovedTail(list, k);
      DeadlinesCons(list, from);
      DeadlinesCons(r, from);
      WithoutCons(d, k);
    } else {
      RemoveHead(list, from);
    }
  }

  lemma DeadlinesCons(list: seq<Entry>, from: nat)
    requires list != []
    ensures Deadlines(list, from) ==
      [Deadline(list[0].id, from + list[0].delta)] + Deadlines(list[1..], from + list[0].delta)
    ensures Deadlines(list, from)[1..] == Deadlines(list[1..], from + list[0].delta)
  {
  }

  lemma WithoutCons(d: seq<Deadline>, k: nat)
    requires 0 < k < |d|
    ensures Without(d, k) == [d[0]] + Without(d[1..], k - 1)
  {
  }

  lemma RemoveHead(list: seq<Entry>, from: nat)
    requires list != []
    ensures Deadlines(Removed(list, 0), from) == Without(Deadlines(list, from), 0)
  {
    var d := Deadlines(list, from);
    assert Without(d, 0) == d[1..] == Deadlines(list[1..], from + list[0].delta);
    if |list| > 1 {
      assert Removed(list, 0)[1..] == list[1..][1..];
    }
  }

  /** Behind an entry that stays, everyone stays. */
  lemma {:induction false} LaterKeeps(list: seq<Entry>, from: nat)
    requires from > 0
    ensures Later(Deadlines(list, from + 1)) == Deadlines(list, from) && LastTick(Deadlines(list, from + 1)) == []
  {
    if list != [] {
      LaterKeeps(list[1..], from + list[0].delta);
      assert Deadlines(list, from + 1)[1..] == Deadlines(list[1..], from + list[0].delta + 1);
    }
  }

  lemma {:induction false} DropRefines(list: seq<Entry>)
    ensures Later(Deadlines(list, 1)) == Deadlines(DropZeros(list), 0) && LastTick(Deadlines(list, 1)) == Due(list)
    ensures HeadPositive(DropZeros(list))
  {
    if list != [] {
      var d := Deadlines(list, 1);
      assert d[1..] == Deadlines(list[1..], 1 + list[0].delta);
      if list[0].delta == 0 {
        DropRefines(list[1..]);
      } else {
        LaterKeeps(list[1..], list[0].delta);
      }
    }
  }

  /** A tick takes one from every deadline and fires exactly those that had one left, in
      order; the head is positive again. */
  lemma TickRefines(list: seq<Entry>)
    requires HeadPositive(list)
    ensures Deadlines(Ticked(list), 0) == Later(Deadlines(list, 0))
    ensures Fired(list) == LastTick(Deadlines(list, 0))
    ensures HeadPositive(Ticked(list))
  {
    if list != [] {
      assert LessOne(list)[1..] == list[1..];
      assert Deadlines(LessOne(list), 1) == Deadlines(list, 0);
      DropRefines(LessOne(list));
    }
  }

  // ----- what holds between ticks -----

  ghost predicate DistinctIds(d: seq<Deadline>) {
    forall i, j :: 0 <= i < j < |d| ==> d[i].id != d[j].id
  }

  ghost predicate HasId(d: seq<Deadline>, id: nat) {
    exists i :: 0 <= i < |d| && d[i].id == id
  }

  /** The head is never zero, no timer is in the list twice, and all deadlines fit a
      machine word (so no sum of deltas wraps). */
  ghost predicate Good(list: seq<Entry>) {
    && HeadPositive(list) && DistinctIds(Deadlines(list, 0))
    && forall i :: 0 <= i < |list| ==> Deadlines(list, 0)[i].ticks < WORD
  }

  lemma {:induction false} InsertHas(d: seq<Deadline>, id: nat, n: nat, x: Deadline)
    ensures x in Insert(d, id, n) <==> x in d || x == Deadline(id, n)
  {
    if d != [] && n >= d[0].ticks {
      InsertHas(d[1..], id, n, x);
      assert x in d <==> x == d[0] || x in d[1..];
    }
  }

  /** The new timer goes behind all that are due no later and before all that are due later,
      so timers due at the same tick fire in the order in which they were added. */
  lemma {:induction false} InsertPlace(d: seq<Deadline>, id: nat, n: nat) returns (k: nat)
    requires forall i, j :: 0 <= i < j < |d| ==> d[i].ticks <= d[j].ticks
    ensures k <= |d| && Insert(d, id, n) == d[..k] + [Deadline(id, n)] + d[k..]
    ensures forall i :: 0 <= i < |d| ==> (d[i].ticks <= n <==> i < k)
  {
    if d == [] || n < d[0].ticks {
      k := 0;
    } else {
      var rest := d[1..];
      k := InsertPlace(rest, id, n);
      assert d == [d[0]] + rest;
      assert forall i :: 0 < i < |d| ==> d[i] == rest[i - 1];
      k := k + 1;
    }
  }

  lemma {:induction false} InsertDistinct(d: seq<Deadline>, id: nat, n: nat)
    requires DistinctIds(d) && !HasId(d, id)
    ensures DistinctIds(Insert(d, id, n))
  {
    if d != [] && n >= d[0].ticks {
      var rest := d[1..];
      assert !HasId(rest, id) by {
        forall i | 0 <= i < |rest| ensures rest[i].id != id { assert rest[i] == d[i + 1]; }
      }
      InsertDistinct(rest, id, n);
      var r := Insert(rest, id, n);
      forall j | 0 <= j < |r| ensures r[j].id != d[0].id {
        InsertHas(rest, id, n, r[j]);
        if r[j] in rest {
          var i :| 0 <= i < |rest| && rest[i] == r[j];
          assert d[i + 1] == r[j];
        }
      }
    }
  }

  lemma {:induction false} LaterHas(d: seq<Deadline>, id: nat, n: nat)
    ensures Deadline(id, n) in Later(d) <==> n > 0 && Deadline(id, n + 1) in d
    ensures id in LastTick(d) <==> Deadline(id, 1) in d
  {
    if d != [] {
      LaterHas(d[1..], id, n);
      assert forall x :: x in d <==> x == d[0] || x in d[1..];
    }
  }

  lemma {:induction false} LaterDistinct(d: seq<Deadline>)
    requires DistinctIds(d)
    ensures DistinctIds(Later(d))
  {
    if d != [] {
      LaterDistinct(d[1..]);
      var r := Later(d[1..]);
      forall j | 0 <= j < |r| ensures r[j].id != d[0].id {
        LaterHas(d[1..], r[j].id, r[j].ticks);
        assert Deadline(r[j].id, r[j].ticks + 1) in d[1..];
        var i :| 0 <= i < |d[1..]| && d[1..][i] == Deadline(r[j].id, r[j].ticks + 1);
        assert d[i + 1].id == r[j].id;
      }
    }
  }

  // ----- runs -----

  datatype Op = Add(id: nat, n: nat) | Del(id: nat) | Tick

  /** The index of a timer, or the length of the list. */
  function Find(list: seq<Entry>, id: nat): (k: nat)
    ensures k <= |list| && (k < |list| ==> list[k].id == id) && forall i :: 0 <= i < k ==> list[i].id != id
  {
    if list == [] || list[0].id == id then 0 else
      var k := Find(list[1..], id);
      assert forall i :: 1 <= i < k + 1 ==> list[i] == list[1..][i - 1];
      k + 1
  }

  function Deleted(list: seq<Entry>, id: nat): seq<Entry> {
    if Find(list, id) < |list| then Removed(list, Find(list, id)) else list
  }

  function Do(list: seq<Entry>, op: Op): seq<Entry>
  {
    match op
    case Add(id, n) => Added(list, id, n)
    case Del(id) => Deleted(list, id)
    case Tick => Ticked(list)
  }

  function Output(list: seq<Entry>, op: Op): seq<nat>
  {
    if op.Tick? then Fired(list) else []
  }

  /** A timer is added only while it is not in the list, with a positive word. */
  ghost predicate Legal(list: seq<Entry>, op: Op) {
    op.Add? ==> 0 < op.n < WORD && !HasId(Deadlines(list, 0), op.id)
  }

  lemma AddGood(list: seq<Entry>, id: nat, n: nat)
    requires Good(list) && 0 < n < WORD && !HasId(Deadlines(list, 0), id)
    ensures Good(Added(list, id, n))
  {
    var d, r := Deadlines(list, 0), Deadlines(Added(list, id, n), 0);
    AddRefines(list, 0, id, n);
    InsertDistinct(d, id, n);
    forall i | 0 <= i < |r| ensures r[i].ticks < WORD {
      InsertHas(d, id, n, r[i]);
      if r[i] in d {
        var j :| 0 <= j < |d| && d[j] == r[i];
      }
    }
  }

  lemma RemoveGood(list: seq<Entry>, k: nat)
    requires Good(list) && k < |list|
    ensures Good(Removed(list, k))
  {
    var d, r := Deadlines(list, 0), Deadlines(Removed(list, k), 0);
    RemoveRefines(list, 0, k);
    assert forall i :: 0 <= i < |r| ==> r[i] == d[if i < k then i else i + 1];
    hide Deadlines;
  }

  lemma TickGood(list: seq<Entry>)
    requires Good(list)
    ensures Good(Ticked(list))
  {
    var d, r := Deadlines(list, 0), Deadlines(Ticked(list), 0);
    TickRefines(list);
    LaterDistinct(d);
    forall i | 0 <= i < |r| ensures r[i].ticks < WORD {
      LaterHas(d, r[i].id, r[i].ticks);
      assert Deadline(r[i].id, r[i].ticks + 1) in d;
    }
  }

  lemma DoGood(list: seq<Entry>, op: Op)
    requires Good(list) && Legal(list, op)
    ensures Good(Do(list, op))
  {
    match op
    case Add(id, n) => AddGood(list, id, n);
    case Del(id) => if Find(list, id) < |list| { RemoveGood(list, Find(list, id)); }
    case Tick => TickGood(list);
  }

  ghost predicate Pending(list: seq<Entry>, id: nat, n: nat) {
    Deadline(id, n) in Deadlines(list, 0)
  }

  lemma DeletePending(list: seq<Entry>, other: nat, id: nat, n: nat)
    requires Pending(list, id, n) && other != id
    ensures Pending(Deleted(list, other), id, n)
  {
    var d, k := Deadlines(list, 0), Find(list, other);
    if k < |list| {
      RemoveRefines(list, 0, k);
      DeadlinesRise(list, 0, k, k);
      var i :| 0 <= i < |d| && d[i] == Deadline(id, n);
      hide Deadlines;
      assert Without(d, k)[if i < k then i else i - 1] == d[i];
    }
  }

  lemma TickPending(list: seq<Entry>, id: nat, n: nat)
    requires Good(list) && Pending(list, id, n)
    ensures n > 0 && (n == 1 <==> id in Fired(list)) && (n > 1 ==> Pending(Ticked(list), id, n - 1))
  {
    PendingPositive(list, id, n);
    TickRefines(list);
    hide Deadlines, Ticked, Fired, Later, LastTick;
    LaterPending(Deadlines(list, 0), id, n);
  }

  lemma LaterPending(d: seq<Deadline>, id: nat, n: nat)
    requires DistinctIds(d) && Deadline(id, n) in d && n > 0
    ensures (n == 1 <==> id in LastTick(d)) && (n > 1 ==> Deadline(id, n - 1) in Later(d))
  {
    hide Later, LastTick;
    OneDeadline(d, id, n);
    hide DistinctIds;
    LaterHas(d, id, n - 1);
  }

  /** No operation but a tick or its own deletion touches a pending timer. */
  lemma DoPending(list: seq<Entry>, op: Op, id: nat, n: nat)
    requires Good(list) && Legal(list, op) && Pending(list, id, n) && op != Del(id)
    ensures op.Tick? ==> (n == 1 <==> id in Output(list, op)) && (n > 1 ==> Pending(Do(list, op), id, n - 1))
    ensures !op.Tick? ==> Pending(Do(list, op), id, n)
  {
    hide Good, Deadlines, Added, Insert;
    match op
    case Add(other, m) =>
      AddRefines(list, 0, other, m);
      InsertHas(Deadlines(list, 0), other, m, Deadline(id, n));
    case Del(other) => DeletePending(list, other, id, n);
    case Tick => TickPending(list, id, n);
  }

  lemma OneDeadline(d: seq<Deadline>, id: nat, n: nat)
    requires DistinctIds(d) && Deadline(id, n) in d
    ensures Deadline(id, 1) in d <==> n == 1
  {
    var i :| 0 <= i < |d| && d[i] == Deadline(id, n);
    if Deadline(id, 1) in d {
      var j :| 0 <= j < |d| && d[j] == Deadline(id, 1);
    }
  }

  lemma PendingPositive(list: seq<Entry>, id: nat, n: nat)
    requires HeadPositive(list) && Pending(list, id, n)
    ensures n > 0
  {
    var i :| 0 <= i < |list| && Deadlines(list, 0)[i] == Deadline(id, n);
    DeadlinesRise(list, 0, i, i);
  }

  /** A run: the lists between the operations. */
  ghost predicate IsRun(lists: seq<seq<Entry>>, ops: seq<Op>) {
    && |lists| == |ops| + 1 && Good(lists[0])
    && forall k :: 0 <= k < |ops| ==> Legal(lists[k], ops[k]) && lists[k + 1] == Do(lists[k], ops[k])
  }

  lemma {:induction false} RunsStayGood(lists: seq<seq<Entry>>, ops: seq<Op>, k: nat)
    requires IsRun(lists, ops) && k < |lists|
    ensures Good(lists[k])
  {
    if k > 0 {
      RunsStayGood(lists, ops, k - 1);
      hide Good, Legal, Do;
      DoGood(lists[k - 1], ops[k - 1]);
    }
  }

  function Ticks(ops: seq<Op>): nat {
    if ops == [] then 0 else Ticks(ops[..|ops| - 1]) + if ops[|ops| - 1].Tick? then 1 else 0
  }

  /** A timer due in n ticks is, k operations later and unless it was deleted, due in n
      minus the number of ticks since; so it fires on exactly the n-th tick. */
  lemma {:induction false} FiresOnTime(lists: seq<seq<Entry>>, ops: seq<Op>, id: nat, n: nat, k: nat)
    requires IsRun(lists, ops) && k < |ops| && Pending(lists[0], id, n) && Del(id) !in ops
    requires Ticks(ops[..k]) < n
    ensures Pending(lists[k], id, n - Ticks(ops[..k]))
    ensures id in Output(lists[k], ops[k]) <==> ops[k].Tick? && Ticks(ops[..k + 1]) == n
  {
    hide Good, Pending, Legal, Do, Fired;
    RunsStayGood(lists, ops, k);
    assert ops[..k + 1][..k] == ops[..k];
    if k > 0 {
      assert ops[..k][..k - 1] == ops[..k - 1];
      FiresOnTime(lists, ops, id, n, k - 1);
      RunsStayGood(lists, ops, k - 1);
      DoPending(lists[k - 1], ops[k - 1], id, n - Ticks(ops[..k - 1]));
    }
    DoPending(lists[k], ops[k], id, n - Ticks(ops[..k]));
  }

  /** A timer that is added is pending with its own number of ticks. */
  lemma AddedPending(list: seq<Entry>, id: nat, n: nat)
    ensures Pending(Added(list, id, n), id, n)
  {
    hide Added, Deadlines, Insert;
    AddRefines(list, 0, id, n);
    InsertHas(Deadlines(list, 0), id, n, Deadline(id, n));
  }

  // ----- the kernel's list -----

  lemma FitsWord(list: seq<Entry>, k: nat)
    requires Good(list) && k + 1 < |list|
    ensures list[k].delta + list[k + 1].delta < WORD
  {
    var d := Deadlines(list, 0);
    NextDeadline(list, 0, k);
    DeadlinesRise(list, 0, k, k);
  }

  lemma {:induction false} NextDeadline(list: seq<Entry>, from: nat, k: nat)
    requires k + 1 < |list|
    ensures Deadlines(list, from)[k + 1].ticks == Deadlines(list, from)[k].ticks + list[k + 1].delta
  {
    if k > 0 {
      NextDeadline(list[1..], from + list[0].delta, k - 1);
    }
  }

  /** One turn of the insertion loop, and its end. */
  lemma AddedFrom(list: seq<Entry>, i: nat, id: nat, left: nat)
    requires i <= |list|
    ensures i == |list| ==> Added(list[i..], id, left) == [Entry(id, left)]
    ensures i < |list| && left < list[i].delta ==>
      list[..i] + Added(list[i..], id, left) ==
        list[..i] + [Entry(id, left), Entry(list[i].id, list[i].delta - left)] + list[i + 1..]
    ensures i < |list| && left >= list[i].delta ==>
      list[..i] + Added(list[i..], id, left) == list[..i + 1] + Added(list[i + 1..], id, left - list[i].delta)
  {
    if i < |list| {
      assert list[i..][1..] == list[i + 1..];
    }
  }

  class TimerList {
    var list: seq<Entry>

    constructor ()
      ensures Good(list) && list == []
    {
      list := [];
    }

    /** add_timer: the loop subtracts what it passes, never below zero. */
    method AddTimer(id: nat, expires: nat)
      requires Good(list) && 0 < expires < WORD && !HasId(Deadlines(list, 0), id)
      modifies this
      ensures Good(list) && list == Added(old(list), id, expires)
      ensures Deadlines(list, 0) == Insert(old(Deadlines(list, 0)), id, expires)
    {
      AddGood(list, id, expires);
      AddRefines(list, 0, id, expires);
      hide Good, Deadlines, Insert;
      var i, left := Pass(id, expires);
      if i < |list| {
        list := list[..i] + [Entry(id, left), Entry(list[i].id, list[i].delta - left)] + list[i + 1..];
      } else {
        list := list + [Entry(id, left)];
      }
    }

    /** How many entries the new one passes, and what is left of its time then. */
    method Pass(id: nat, expires: nat) returns (i: nat, left: nat)
      ensures i <= |list| && left <= expires && (i < |list| ==> left < list[i].delta)
      ensures Added(list, id, expires) ==
        if i < |list| then list[..i] + [Entry(id, left), Entry(list[i].id, list[i].delta - left)] + list[i + 1..]
        else list + [Entry(id, left)]
    {
      hide Added;
      i, left := 0, expires;
      while i < |list| && left >= list[i].delta
        invariant i <= |list| && left <= expires
        invariant Added(list, id, expires) == list[..i] + Added(list[i..], id, left)
      {
        AddedFrom(list, i, id, left);
        left := left - list[i].delta;
        i := i + 1;
      }
      AddedFrom(list, i, id, left);
      assert i == |list| ==> list[..i] == list;
    }

    /** del_timer: a timer that is not in the list is left alone. */
    method DelTimer(id: nat)
      requires Good(list)
      modifies this
      ensures Good(list) && list == Deleted(old(list), id)
      ensures
        var k := Find(old(list), id);
        Deadlines(list, 0) == if k < |old(list)| then Without(old(Deadlines(list, 0)), k) else old(Deadlines(list, 0))
    {
      var k := Find(list, id);
      if k < |list| {
        RemoveGood(list, k);
        RemoveRefines(list, 0, k);
        if k + 1 < |list| { FitsWord(list, k); }
        DeleteAt(k);
      }
    }

    method DeleteAt(k: nat)
      requires k < |list| && (k + 1 < |list| ==> list[k].delta + list[k + 1].delta < WORD)
      modifies this
      ensures list == Removed(old(list), k)
    {
      if list[k].delta != 0 && k + 1 < |list| {
        list := list[k + 1 := Entry(list[k + 1].id, list[k + 1].delta + list[k].delta)];
      }
      list := list[..k] + list[k + 1..];
    }

    /** run_timer_list: the timers that fire, in order. */
    method RunTimerList() returns (fired: seq<nat>)
      requires Good(list)
      modifies this
      ensures Good(list) && list == Ticked(old(list)) && fired == Fired(old(list))
      ensures Deadlines(list, 0) == Later(old(Deadlines(list, 0))) && fired == LastTick(old(Deadlines(list, 0)))
    {
      TickGood(list);
      TickRefines(list);
      fired := [];
      if list == [] {
        return;
      }
      assert list[0].delta != 0;
      ghost var now := LessOne(list);
      list := list[0 := Entry(list[0].id, list[0].delta - 1)];
      assert list == now;
      while list != [] && list[0].delta == 0
        invariant DropZeros(list) == DropZeros(now)
        invariant fired + Due(list) == Due(now)
        decreases |list|
      {
        fired := fired + [list[0].id];
        list := list[1..];
      }
    }
  }
}
