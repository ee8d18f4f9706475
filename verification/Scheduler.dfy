/** The round-robin scheduler: process states, the current process and the run queue. */
module Scheduler {
  import opened Counting

  const MAX_TIME_SLICE := 20

  datatype ProcState = Uninit | Sleeping | Runnable | Zombie

  /** The fields of the process structures, by process, and the run queue. */
  datatype S = S(
    state: seq<ProcState>, slice: seq<nat>, resched: seq<bool>, runs: seq<nat>,
    current: nat, queue: seq<nat>, procNum: int)

  /** The idle process is the first one. */
  const IDLE: nat := 0

  predicate Sized(s: S) {
    0 < |s.state| == |s.slice| == |s.resched| == |s.runs| && s.current < |s.state|
  }

  // ----- the operations -----

  function Refreshed(slice: nat): (r: nat)
    ensures 0 < r <= MAX_TIME_SLICE
  {
    if slice == 0 || slice > MAX_TIME_SLICE then MAX_TIME_SLICE else slice
  }

  function Enqueue(s: S, p: nat): (r: S)
    requires Sized(s) && p < |s.state|
    ensures Sized(r) && |r.state| == |s.state|
  {
    if p == IDLE then s
    else s.(queue := s.queue + [p], slice := s.slice[p := Refreshed(s.slice[p])], procNum := s.procNum + 1)
  }

  function Wakeup(s: S, p: nat): (r: S)
    requires Sized(s) && p < |s.state|
    ensures Sized(r) && |r.state| == |s.state|
  {
    if s.state[p] == Runnable then s
    else
      var s1 := s.(state := s.state[p := Runnable]);
      if p == s.current then s1 else Enqueue(s1, p)
  }

  /** The current process gives up the processor's claim on it; it still runs until it
      calls the scheduler. */
  function Block(s: S, exits: bool): (r: S)
    requires Sized(s)
    ensures Sized(r) && |r.state| == |s.state|
  {
    s.(state := s.state[s.current := if exits then Zombie else Sleeping])
  }

  /** The current process goes to the end of the queue if it can still run. */
  function Requeued(s: S): (r: S)
    requires Sized(s)
    ensures Sized(r) && |r.state| == |s.state|
  {
    var s1 := s.(resched := s.resched[s.current := false]);
    if s.state[s.current] == Runnable then Enqueue(s1, s.current) else s1
  }

  /** The first process of the queue, or the idle one, takes over. */
  function Switched(s: S): (r: S)
    requires Sized(s)
    ensures Sized(r) && |r.state| == |s.state|
  {
    if s.queue == [] || s.queue[0] >= |s.state| then s.(current := IDLE, runs := s.runs[IDLE := s.runs[IDLE] + 1])
    else
      var next := s.queue[0];
      s.(current := next, queue := s.queue[1..], procNum := s.procNum - 1, runs := s.runs[next := s.runs[next] + 1])
  }

  function Schedule(s: S): (r: S)
    requires Sized(s)
    ensures Sized(r) && |r.state| == |s.state|
  {
    Switched(Requeued(s))
  }

  function Tick(s: S): (r: S)
    requires Sized(s)
    ensures Sized(r) && |r.state| == |s.state|
  {
    var p := s.current;
    if p == IDLE then s.(resched := s.resched[p := true])
    else
      var left := if s.slice[p] > 0 then s.slice[p] - 1 else 0;
      s.(slice := s.slice[p := left], resched := if left == 0 then s.resched[p := true] else s.resched)
  }

  // ----- what every operation keeps -----

  /** A runnable process other than the idle one is either current or in the queue, once;
      the queue holds nobody else and the count is its length. */
  ghost predicate Inv(s: S) {
    && Sized(s) && s.procNum == |s.queue| && Distinct(s.queue) && s.state[IDLE] == Runnable
    && (forall i :: 0 <= i < |s.queue| ==>
         var p := s.queue[i];
         p < |s.state| && p != IDLE && p != s.current && s.state[p] == Runnable && 0 < s.slice[p] <= MAX_TIME_SLICE)
    && (forall p :: 0 < p < |s.state| && s.state[p] == Runnable && p != s.current ==> p in s.queue)
  }

  datatype Op = WakeupProc(p: nat) | Blocks(exits: bool) | Schedules | Ticks

  /** Zombies are not woken, and the idle process does not block. */
  predicate Legal(s: S, op: Op)
    requires Sized(s)
  {
    && (op.WakeupProc? ==> op.p < |s.state| && s.state[op.p] != Zombie)
    && (op.Blocks? ==> s.current != IDLE)
  }

  function Do(s: S, op: Op): (r: S)
    requires Sized(s) && Legal(s, op)
    ensures Sized(r) && |r.state| == |s.state|
  {
    match op
    case WakeupProc(p) => Wakeup(s, p)
    case Blocks(exits) => Block(s, exits)
    case Schedules => Schedule(s)
    case Ticks => Tick(s)
  }

  lemma EnqueueKeeps(s: S, p: nat)
    requires Sized(s) && p < |s.state| && p !in s.queue && s.state[p] == Runnable && s.state[IDLE] == Runnable
    requires s.procNum == |s.queue| && Distinct(s.queue)
    ensures p != IDLE ==> Distinct(Enqueue(s, p).queue)
  {
  }

  lemma WakeupKeeps(s: S, p: nat)
    requires Inv(s) && p < |s.state|
    ensures Inv(Wakeup(s, p))
  {
    if s.state[p] != Runnable {
      var s1 := s.(state := s.state[p := Runnable]);
      assert p !in s.queue;
      EnqueueKeeps(s1, p);
    }
  }

  /** With the current process back in the queue, everyone runnable is in it. */
  ghost predicate AllQueued(s: S) {
    && Sized(s) && s.procNum == |s.queue| && Distinct(s.queue) && s.state[IDLE] == Runnable
    && (forall i :: 0 <= i < |s.queue| ==>
         var p := s.queue[i];
         p < |s.state| && p != IDLE && s.state[p] == Runnable && 0 < s.slice[p] <= MAX_TIME_SLICE)
    && (forall p :: 0 < p < |s.state| && s.state[p] == Runnable ==> p in s.queue)
  }

  lemma RequeuedAll(s: S)
    requires Inv(s)
    ensures AllQueued(Requeued(s))
  {
    assert s.current !in s.queue;
  }

  lemma ScheduleKeeps(s: S)
    requires Inv(s)
    ensures Inv(Schedule(s))
  {
    RequeuedAll(s);
    var s2 := Requeued(s);
    hide Requeued;
    if s2.queue != [] {
      assert s2.queue == [s2.queue[0]] + s2.queue[1..];
    }
  }

  lemma DoKeeps(s: S, op: Op)
    requires Inv(s) && Legal(s, op)
    ensures Inv(Do(s, op))
  {
    match op
    case WakeupProc(p) => WakeupKeeps(s, p);
    case Blocks(_) =>
    case Schedules => ScheduleKeeps(s);
    case Ticks =>
  }

  // ----- runs -----

  ghost predicate IsRun(states: seq<S>, ops: seq<Op>) {
    && |states| == |ops| + 1 && Inv(states[0])
    && (forall k :: 0 <= k < |states| ==> Sized(states[k]))
    && forall k :: 0 <= k < |ops| ==> Legal(states[k], ops[k]) && states[k + 1] == Do(states[k], ops[k])
  }

  lemma {:induction false} RunsKeepInvariant(states: seq<S>, ops: seq<Op>, k: nat)
    requires IsRun(states, ops) && k < |states|
    ensures Inv(states[k]) && |states[k].state| == |states[0].state|
  {
    hide Inv, Do;
    if k > 0 {
      RunsKeepInvariant(states, ops, k - 1);
      DoKeeps(states[k - 1], ops[k - 1]);
    }
  }

  function Schedulings(ops: seq<Op>): nat {
    if ops == [] then 0 else Schedulings(ops[..|ops| - 1]) + if ops[|ops| - 1].Schedules? then 1 else 0
  }

  /** One operation moves a queued process up by one place if it is a scheduling, gives it
      the processor if it was first, and otherwise leaves it in its place. */
  lemma Advances(s: S, op: Op, at: nat)
    requires Inv(s) && Legal(s, op) && at < |s.queue|
    ensures
      var r := Do(s, op);
      if op.Schedules? then
        if at == 0 then r.current == s.queue[0] && r.runs[r.current] == s.runs[r.current] + 1
        else at <= |r.queue| && r.queue[at - 1] == s.queue[at]
      else at < |r.queue| && r.queue[at] == s.queue[at]
  {
  }

  /** A process with `at` others ahead of it gets the processor at the latest at the
      (at + 1)-st scheduling, whatever happens in between. */
  lemma {:induction false} RunsInTurn(states: seq<S>, ops: seq<Op>, p: nat, at: nat, k: nat)
    requires IsRun(states, ops) && at < |states[0].queue| && states[0].queue[at] == p
    requires k <= |ops| && Schedulings(ops[..k]) <= at
    ensures
      var done := Schedulings(ops[..k]);
      && at - done < |states[k].queue| && states[k].queue[at - done] == p
      && (k < |ops| && done == at && ops[k].Schedules? ==> states[k + 1].current == p)
  {
    hide Inv, Do;
    if k > 0 {
      assert ops[..k][..k - 1] == ops[..k - 1];
      RunsInTurn(states, ops, p, at, k - 1);
      RunsKeepInvariant(states, ops, k - 1);
      Advances(states[k - 1], ops[k - 1], at - Schedulings(ops[..k - 1]));
    } else {
      assert ops[..0] == [];
    }
    RunsKeepInvariant(states, ops, k);
    if k < |ops| {
      Advances(states[k], ops[k], at - Schedulings(ops[..k]));
    }
  }

  /** A wakeup is never lost: the woken process is runnable, and the next scheduling finds
      it in the queue or hands it the processor, even if it was still current and on its
      way to sleep. */
  lemma NoLostWakeup(s: S, p: nat)
    requires Inv(s) && Legal(s, WakeupProc(p)) && p != IDLE
    ensures
      var r := Schedule(Wakeup(s, p));
      && r.state[p] == Runnable && (r.current == p || p in r.queue)
      && (r.current == p ==> p !in r.queue)
  {
    var w := Wakeup(s, p);
    WakeupKeeps(s, p);
    RequeuedAll(w);
    ScheduleKeeps(w);
    assert w.state[p] == Runnable;
    assert Requeued(w).state == w.state;
    assert Schedule(w).state == w.state;
    assert Inv(Schedule(w));
    hide Schedule, Wakeup, Requeued;
    assert Schedule(w).current != p ==> p in Schedule(w).queue;
  }

  /** A process that keeps the processor is told to give it up when its slice is over, and
      not before, unless it had been told already. */
  lemma {:induction false} SliceRunsOut(states: seq<S>, ops: seq<Op>, k: nat)
    requires IsRun(states, ops) && k <= |ops| && states[0].current != IDLE && states[0].slice[states[0].current] > 0
    requires forall i :: 0 <= i < k ==> !ops[i].Schedules?
    ensures
      var s, p, ticks := states[k], states[0].current, TickCount(ops[..k]);
      && s.current == p && p < |s.slice|
      && s.slice[p] == (if ticks < states[0].slice[p] then states[0].slice[p] - ticks else 0)
      && (s.resched[p] <==> states[0].resched[p] || ticks >= states[0].slice[p])
  {
    if k > 0 {
      assert ops[..k][..k - 1] == ops[..k - 1];
      SliceRunsOut(states, ops, k - 1);
      RunsKeepInvariant(states, ops, k - 1);
    } else {
      assert ops[..0] == [];
    }
  }

  // ----- what every operation does to every process -----

  /** The fields of process q after an operation, from those before it. */
  ghost predicate Changes(s: S, op: Op, r: S, q: nat)
    requires Sized(s) && Sized(r) && |r.state| == |s.state| && q < |s.state|
  {
    var mine := q == s.current;
    match op
    case WakeupProc(p) =>
      var enters := q == p && s.state[p] != Runnable && p != s.current && p != IDLE;
      && r.state[q] == (if q == p then Runnable else s.state[q]) && r.resched[q] == s.resched[q]
      && r.runs[q] == s.runs[q] && Enters(s.slice[q], r.slice[q], enters)
    case Blocks(exits) =>
      && r.state[q] == (if !mine then s.state[q] else if exits then Zombie else Sleeping)
      && r.resched[q] == s.resched[q] && r.runs[q] == s.runs[q] && r.slice[q] == s.slice[q]
    case Schedules =>
      && r.state[q] == s.state[q] && r.resched[q] == (!mine && s.resched[q])
      && r.runs[q] == s.runs[q] + (if q == r.current then 1 else 0)
      && Enters(s.slice[q], r.slice[q], mine && q != IDLE && s.state[q] == Runnable)
    case Ticks =>
      && r.state[q] == s.state[q] && r.runs[q] == s.runs[q]
      && r.slice[q] == (if mine && q != IDLE && s.slice[q] > 0 then s.slice[q] - 1 else s.slice[q])
      && r.resched[q] == (s.resched[q] || (mine && (q == IDLE || r.slice[q] == 0)))
  }

  /** Entering the queue gives a whole slice for one that is used up or out of range. */
  predicate Enters(before: nat, after: nat, enters: bool) {
    after == if enters && (before == 0 || before > 20) then 20 else before
  }

  /** Who runs and who waits after an operation. */
  ghost predicate Queues(s: S, op: Op, r: S)
    requires Sized(s)
  {
    match op
    case WakeupProc(p) =>
      && r.current == s.current
      && (if p < |s.state| && s.state[p] != Runnable && p != s.current && p != IDLE then r.queue == s.queue + [p]
          else r.queue == s.queue)
    case Schedules =>
      var all := if s.current != IDLE && s.state[s.current] == Runnable then s.queue + [s.current] else s.queue;
      if all == [] then r.current == IDLE && r.queue == [] else [r.current] + r.queue == all
    case _ => r.current == s.current && r.queue == s.queue
  }

  /** The whole effect of an operation. */
  ghost predicate Effects(s: S, op: Op, r: S) {
    && Sized(s) && Sized(r) && |r.state| == |s.state| && Queues(s, op, r)
    && forall q :: 0 <= q < |s.state| ==> Changes(s, op, r, q)
  }

  lemma ScheduleQueues(s: S)
    requires Inv(s)
    ensures Queues(s, Schedules, Schedule(s))
  {
    RequeuedAll(s);
    var s2 := Requeued(s);
    assert s2.queue == if s.current != IDLE && s.state[s.current] == Runnable then s.queue + [s.current] else s.queue;
    hide Requeued, Inv;
    if s2.queue != [] {
      assert s2.queue == [s2.queue[0]] + s2.queue[1..];
    }
  }

  lemma OneChanges(s: S, op: Op, q: nat)
    requires Sized(s) && Legal(s, op) && q < |s.state|
    ensures Changes(s, op, Do(s, op), q)
  {
    match op
    case WakeupProc(p) =>
    case Blocks(_) =>
    case Schedules =>
    case Ticks =>
  }

  /** An operation changes of every process exactly what it should. */
  lemma DoEffects(s: S, op: Op)
    requires Inv(s) && Legal(s, op)
    ensures Effects(s, op, Do(s, op))
  {
    forall q | 0 <= q < |s.state| ensures Changes(s, op, Do(s, op), q) { OneChanges(s, op, q); }
    hide Changes, Schedule, Inv;
    if op.Schedules? {
      ScheduleQueues(s);
    }
  }

  /** A process other than the idle one has need_resched set exactly while it is current
      with its slice used up. */
  ghost predicate ReschedExact(s: S)
    requires Sized(s)
  {
    forall q :: 0 < q < |s.state| ==> (s.resched[q] <==> q == s.current && s.slice[q] == 0)
  }

  lemma DoReschedExact(s: S, op: Op)
    requires Inv(s) && Legal(s, op) && ReschedExact(s)
    ensures ReschedExact(Do(s, op))
  {
    var r := Do(s, op);
    DoEffects(s, op);
    DoKeeps(s, op);
    hide Do;
    forall q | 0 < q < |s.state| ensures r.resched[q] <==> q == r.current && r.slice[q] == 0 {
      assert Changes(s, op, r, q);
      if op.Schedules? && q == r.current {
        Dispatched(s, r);
      }
    }
  }

  /** Whoever gets the processor at a scheduling comes with a slice that is not used up. */
  lemma Dispatched(s: S, r: S)
    requires Inv(s) && r == Schedule(s) && r.current != IDLE
    ensures 0 < r.slice[r.current] <= MAX_TIME_SLICE
  {
    RequeuedAll(s);
    assert r.current == Requeued(s).queue[0];
  }

  lemma {:induction false} RunsReschedExact(states: seq<S>, ops: seq<Op>, k: nat)
    requires IsRun(states, ops) && k < |states| && ReschedExact(states[0])
    ensures ReschedExact(states[k])
  {
    hide Inv, Do, ReschedExact;
    if k > 0 {
      RunsReschedExact(states, ops, k - 1);
      RunsKeepInvariant(states, ops, k - 1);
      DoReschedExact(states[k - 1], ops[k - 1]);
    }
  }

  /** In every run, a process that a scheduling gives the processor has between one tick and
      a whole slice, and is told to give it up after exactly that many of its own ticks. */
  lemma WholeTurn(states: seq<S>, ops: seq<Op>, d: nat, k: nat)
    requires IsRun(states, ops) && ReschedExact(states[0]) && d < k <= |ops| && ops[d].Schedules?
    requires states[d + 1].current != IDLE && forall i :: d < i < k ==> !ops[i].Schedules?
    ensures
      var p, slice := states[d + 1].current, states[d + 1].slice[states[d + 1].current];
      && 0 < slice <= MAX_TIME_SLICE && states[k].current == p && p < |states[k].resched|
      && (states[k].resched[p] <==> TickCount(ops[d + 1..k]) >= slice)
  {
    hide Inv, Do;
    RunsKeepInvariant(states, ops, d);
    RunsKeepInvariant(states, ops, d + 1);
    RunsReschedExact(states, ops, d + 1);
    assert states[d + 1] == Schedule(states[d]) by { DoSchedules(states[d]); }
    Dispatched(states[d], states[d + 1]);
    var rest, after := states[d + 1..], ops[d + 1..];
    assert IsRun(rest, after) by {
      forall j | 0 <= j < |after| ensures Legal(rest[j], after[j]) && rest[j + 1] == Do(rest[j], after[j]) {
        assert ops[d + 1 + j] == after[j];
      }
    }
    assert after[..k - d - 1] == ops[d + 1..k];
    SliceRunsOut(rest, after, k - d - 1);
  }

  lemma DoSchedules(s: S)
    requires Sized(s)
    ensures Do(s, Schedules) == Schedule(s)
  {
  }

  function TickCount(ops: seq<Op>): nat {
    if ops == [] then 0 else TickCount(ops[..|ops| - 1]) + if ops[|ops| - 1].Ticks? then 1 else 0
  }

  // ----- the kernel's data in place -----

  class RunQueue {
    const state: array<ProcState>
    const slice: array<nat>
    const resched: array<bool>
    const runs: array<nat>
    var current: nat
    var queue: seq<nat>
    var procNum: int

    ghost predicate Shaped()
      reads this
    {
      0 < state.Length == slice.Length == resched.Length == runs.Length && slice != runs && current < state.Length
    }

    ghost function Value(): S
      reads this, state, slice, resched, runs
    {
      S(state[..], slice[..], resched[..], runs[..], current, queue, procNum)
    }

    ghost predicate Valid()
      reads this, state, slice, resched, runs
    {
      Shaped() && Inv(Value())
    }

    /** Only the idle process exists and runs. */
    constructor (procs: nat)
      requires procs > 0
      ensures Valid() && queue == [] && current == IDLE && state.Length == procs && ReschedExact(Value())
    {
      state := new ProcState[procs](i => if i == 0 then Runnable else Uninit);
      slice := new nat[procs](_ => 0);
      resched := new bool[procs](_ => false);
      runs := new nat[procs](_ => 0);
      current, queue, procNum := IDLE, [], 0;
    }

    /** The process must not be in the queue yet. */
    method EnqueueProc(p: nat)
      requires Shaped() && p < state.Length && p !in queue
      modifies this`queue, this`procNum, slice
      ensures Value() == Enqueue(old(Value()), p)
    {
      if p != IDLE {
        queue := queue + [p];
        if slice[p] == 0 || slice[p] > MAX_TIME_SLICE {
          slice[p] := MAX_TIME_SLICE;
        }
        procNum := procNum + 1;
      }
    }

    method PickNext() returns (next: nat, found: bool)
      ensures found <==> queue != []
      ensures found ==> next == queue[0]
    {
      if |queue| > 0 {
        return queue[0], true;
      }
      return 0, false;
    }

    method Wake(p: nat)
      requires Valid() && p < state.Length && state[p] != Zombie
      modifies this`queue, this`procNum, slice, state
      ensures Valid() && Value() == Wakeup(old(Value()), p)
      ensures Effects(old(Value()), WakeupProc(p), Value())
    {
      WakeupKeeps(Value(), p);
      DoEffects(Value(), WakeupProc(p));
      assert state[p] != Runnable ==> p !in queue;
      hide Inv, Effects;
      if state[p] != Runnable {
        state[p] := Runnable;
        if p != current {
          EnqueueProc(p);
        }
      }
    }

    /** The current process marks itself sleeping or a zombie. */
    method BlockCurrent(exits: bool)
      requires Valid() && current != IDLE
      modifies state
      ensures Valid() && Value() == Block(old(Value()), exits)
      ensures Effects(old(Value()), Blocks(exits), Value())
    {
      DoEffects(Value(), Blocks(exits));
      DoKeeps(Value(), Blocks(exits));
      hide Effects, Inv;
      state[current] := if exits then Zombie else Sleeping;
    }

    /** schedule: the current process is requeued if it can run, and the next one, or the
        idle process, takes over. */
    method Run()
      requires Valid()
      modifies this, slice, resched, runs
      ensures Valid() && Value() == Schedule(old(Value()))
      ensures Effects(old(Value()), Schedules, Value())
    {
      ScheduleKeeps(Value());
      RequeuedAll(Value());
      DoEffects(Value(), Schedules);
      assert current !in queue;
      hide Inv, Requeued, Switched, Effects;
      Requeue();
      assert queue != [] ==> queue[0] < state.Length;
      var next, found := PickNext();
      Switch(next, found);
    }

    method Requeue()
      requires Shaped() && current !in queue
      modifies this`queue, this`procNum, slice, resched
      ensures Value() == Requeued(old(Value()))
    {
      resched[current] := false;
      if state[current] == Runnable {
        EnqueueProc(current);
      }
    }

    /** The first process of the queue, or the idle one, takes over. */
    method Switch(first: nat, found: bool)
      requires Shaped() && (found <==> queue != []) && (found ==> first == queue[0] < state.Length)
      modifies this`queue, this`procNum, this`current, runs
      ensures Shaped() && Value() == Switched(old(Value()))
    {
      var next := first;
      if found {
        queue := queue[1..];
        procNum := procNum - 1;
      } else {
        next := IDLE;
      }
      runs[next] := runs[next] + 1;
      current := next;
    }

    method ProcTick()
      requires Valid()
      modifies slice, resched
      ensures Valid() && Value() == Tick(old(Value()))
      ensures Effects(old(Value()), Ticks, Value())
    {
      DoKeeps(Value(), Ticks);
      DoEffects(Value(), Ticks);
      hide Inv, Effects;
      if current == IDLE {
        resched[current] := true;
      } else {
        if slice[current] > 0 {
          slice[current] := slice[current] - 1;
        }
        if slice[current] == 0 {
          resched[current] := true;
        }
      }
    }
  }
}
