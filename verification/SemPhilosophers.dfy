/** The dining philosophers on semaphores, for any number of philosophers and any
    interleaving of their steps. */
module SemPhilosophers {
  import opened Semaphore

  datatype Food = Thinking | Hungry | Eating

  /** Where a philosopher is: outside, entering or inside take_forks and put_forks. */
  datatype PC =
    | Think | Eat | Quit
    | TakeWait | TakeSet | TakeTest | TakeUp | TakeDown | ForkWait
    | PutWait | PutSet | PutLeft | PutRight | PutUp

  /** One program counter and one entry of state_sema and s per philosopher. */
  datatype State = State(pc: seq<PC>, food: seq<Food>, mutex: Sem, s: seq<Sem>)

  function Left(n: nat, i: nat): (r: nat)
    requires i < n
    ensures r < n
  {
    if i == 0 then n - 1 else i - 1
  }

  function Right(n: nat, i: nat): (r: nat)
    requires i < n
    ensures r < n
  {
    if i == n - 1 then 0 else i + 1
  }

  /** The quotient and the remainder are unique. */
  lemma ModIs(q: nat, r: nat, n: nat)
    requires r < n
    ensures (q * n + r) % n == r
  {
    var d := (q * n + r) / n;
    assert (d - q) * n == r - (q * n + r) % n;
    MultipleGap(d - q, n);
  }

  lemma MultipleGap(k: int, n: int)
    requires -n < k * n < n
    ensures k == 0
  {
  }

  /** The neighbours are the program's (i - 1 + n) mod n and (i + 1) mod n. */
  lemma NeighboursMod(n: nat, i: nat)
    requires i < n
    ensures Left(n, i) == (i + n - 1) % n && Right(n, i) == (i + 1) % n
  {
    ModIs(if i == 0 then 0 else 1, Left(n, i), n);
    ModIs(if i + 1 == n then 1 else 0, Right(n, i), n);
  }

  predicate Sized(s: State) {
    |s.pc| >= 2 && |s.food| == |s.pc| && |s.s| == |s.pc|
  }

  function Start(n: nat): State {
    State(seq(n, _ => Think), seq(n, _ => Thinking), Sem(1, []), seq(n, _ => Sem(0, [])))
  }

  /** Philosopher i may pass on to eating. */
  predicate CanEat(s: State, i: nat)
    requires Sized(s) && i < |s.pc|
  {
    var n := |s.pc|;
    s.food[i] == Hungry && s.food[Left(n, i)] != Eating && s.food[Right(n, i)] != Eating
  }

  /** phi_test: let philosopher i eat if it is hungry and both neighbours leave it room. */
  function Test(s: State, i: nat): (r: State)
    requires Sized(s) && i < |s.pc|
    ensures Sized(r) && |r.pc| == |s.pc|
  {
    if CanEat(s, i) then
      State(if Wakes(s.s[i]) then s.pc[i := Eat] else s.pc, s.food[i := Eating], s.mutex, s.s[i := Up(s.s[i])])
    else s
  }

  /** down(&mutex): enter, or join the queue. */
  function Enter(s: State, i: nat, inside: PC, waiting: PC): (r: State)
    requires Sized(s) && i < |s.pc|
    ensures Sized(r) && |r.pc| == |s.pc|
  {
    s.(pc := s.pc[i := if Passes(s.mutex) then inside else waiting], mutex := Down(s.mutex, i))
  }

  /** Where a process goes when the mutex is handed to it. */
  function Resume(pc: PC): PC {
    if pc == TakeWait then TakeSet else PutSet
  }

  /** up(&mutex): release, or hand over to the first in the queue. */
  function Exit(s: State, i: nat, after: PC): (r: State)
    requires Sized(s) && i < |s.pc|
    ensures Sized(r) && |r.pc| == |s.pc|
  {
    var pc := s.pc[i := after];
    if Wakes(s.mutex) && s.mutex.queue[0] < |pc| then
      var w := s.mutex.queue[0];
      s.(pc := pc[w := Resume(pc[w])], mutex := Up(s.mutex))
    else s.(pc := pc, mutex := Up(s.mutex))
  }

  predicate Blocked(pc: PC) {
    pc == TakeWait || pc == PutWait || pc == ForkWait
  }

  predicate Runnable(s: State, i: nat)
    requires Sized(s) && i < |s.pc|
  {
    !Blocked(s.pc[i]) && s.pc[i] != Quit
  }

  /** One step of philosopher i; a thinking one may quit instead of taking forks. */
  function Step(s: State, i: nat, quits: bool): (r: State)
    requires Sized(s) && i < |s.pc| && Runnable(s, i)
    ensures Sized(r) && |r.pc| == |s.pc|
  {
    var n := |s.pc|;
    match s.pc[i]
    case Think => if quits then s.(pc := s.pc[i := Quit]) else Enter(s, i, TakeSet, TakeWait)
    case TakeSet => s.(pc := s.pc[i := TakeTest], food := s.food[i := Hungry])
    case TakeTest => Test(s.(pc := s.pc[i := TakeUp]), i)
    case TakeUp => Exit(s, i, TakeDown)
    case TakeDown => s.(pc := s.pc[i := if Passes(s.s[i]) then Eat else ForkWait], s := s.s[i := Down(s.s[i], i)])
    case Eat => Enter(s, i, PutSet, PutWait)
    case PutSet => s.(pc := s.pc[i := PutLeft], food := s.food[i := Thinking])
    case PutLeft => Test(s.(pc := s.pc[i := PutRight]), Left(n, i))
    case PutRight => Test(s.(pc := s.pc[i := PutUp]), Right(n, i))
    case PutUp => Exit(s, i, Think)
    case _ => s
  }

  // ----- the invariant -----

  /** Inside the critical section. */
  predicate Holds(pc: PC) {
    pc == TakeSet || pc == TakeTest || pc == TakeUp || pc == PutSet || pc == PutLeft || pc == PutRight || pc == PutUp
  }

  /** The mutex is free or held by exactly one process, and its queue is the processes
      waiting for it. */
  ghost predicate MutexOk(s: State)
    requires Sized(s)
  {
    && Ok(s.mutex) && s.mutex.value <= 1
    && (forall i, j :: 0 <= i < j < |s.pc| ==> !(Holds(s.pc[i]) && Holds(s.pc[j])))
    && (forall i :: 0 <= i < |s.pc| && Holds(s.pc[i]) ==> s.mutex.value == 0)
    && (s.mutex.value == 0 ==> exists i :: 0 <= i < |s.pc| && Holds(s.pc[i]))
    && (forall p :: p in s.mutex.queue ==> p < |s.pc| && (s.pc[p] == TakeWait || s.pc[p] == PutWait))
    && (forall p :: 0 <= p < |s.pc| && (s.pc[p] == TakeWait || s.pc[p] == PutWait) ==> p in s.mutex.queue)
  }

  /** What a philosopher's place says about its state and its semaphore: s[i] holds a unit
      exactly when i is Eating but has not passed its `down`. */
  ghost predicate SelfOk(s: State, i: nat)
    requires Sized(s) && i < |s.pc|
  {
    match s.pc[i]
    case Think => s.food[i] == Thinking && s.s[i] == Sem(0, [])
    case Quit => s.food[i] == Thinking && s.s[i] == Sem(0, [])
    case TakeWait => s.food[i] == Thinking && s.s[i] == Sem(0, [])
    case TakeSet => s.food[i] == Thinking && s.s[i] == Sem(0, [])
    case TakeTest => s.food[i] == Hungry && s.s[i] == Sem(0, [])
    case TakeUp => (s.food[i] == Hungry && s.s[i] == Sem(0, [])) || (s.food[i] == Eating && s.s[i] == Sem(1, []))
    case TakeDown => (s.food[i] == Hungry && s.s[i] == Sem(0, [])) || (s.food[i] == Eating && s.s[i] == Sem(1, []))
    case ForkWait => s.food[i] == Hungry && s.s[i] == Sem(0, [i])
    case Eat => s.food[i] == Eating && s.s[i] == Sem(0, [])
    case PutWait => s.food[i] == Eating && s.s[i] == Sem(0, [])
    case PutSet => s.food[i] == Eating && s.s[i] == Sem(0, [])
    case _ => s.food[i] == Thinking && s.s[i] == Sem(0, [])
  }

  ghost predicate Apart(s: State, i: nat)
    requires Sized(s) && i < |s.pc|
  {
    s.food[i] == Eating ==> s.food[Right(|s.pc|, i)] != Eating
  }

  /** Someone inside the critical section is about to test philosopher i. */
  predicate ToBeTested(s: State, i: nat)
    requires Sized(s) && i < |s.pc|
  {
    var n := |s.pc|;
    || s.pc[i] == TakeTest
    || s.pc[Left(n, i)] == PutLeft || s.pc[Left(n, i)] == PutRight
    || s.pc[Right(n, i)] == PutLeft
  }

  /** A hungry philosopher has an eating neighbour or is about to be tested. */
  ghost predicate Served(s: State, i: nat)
    requires Sized(s) && i < |s.pc|
  {
    CanEat(s, i) ==> ToBeTested(s, i)
  }

  ghost predicate Inv(s: State) {
    && Sized(s) && MutexOk(s)
    && (forall i :: 0 <= i < |s.pc| ==> SelfOk(s, i))
    && (forall i :: 0 <= i < |s.pc| ==> Apart(s, i))
    && (forall i :: 0 <= i < |s.pc| ==> Served(s, i))
  }

  lemma Neighbours(n: nat, i: nat)
    requires i < n && n >= 2
    ensures Left(n, Right(n, i)) == i && Right(n, Left(n, i)) == i && Left(n, i) != i && Right(n, i) != i
  {
  }

  // ----- entering and leaving the critical section -----

  lemma EnterMutex(s: State, i: nat, inside: PC, waiting: PC)
    requires Sized(s) && MutexOk(s) && i < |s.pc| && !Holds(s.pc[i]) && s.pc[i] != TakeWait && s.pc[i] != PutWait
    requires Holds(inside) && (waiting == TakeWait || waiting == PutWait)
    ensures MutexOk(Enter(s, i, inside, waiting))
  {
    var r := Enter(s, i, inside, waiting);
    assert i !in s.mutex.queue;
    DownOk(s.mutex, i);
    if Passes(s.mutex) {
      assert Holds(r.pc[i]);
      assert r.mutex.queue == [];
    } else {
      var h :| 0 <= h < |s.pc| && Holds(s.pc[h]);
      assert Holds(r.pc[h]);
      assert forall p :: p in r.mutex.queue <==> p in s.mutex.queue || p == i;
      forall a, b | 0 <= a < b < |s.pc| ensures !(Holds(r.pc[a]) && Holds(r.pc[b])) {
        assert !(Holds(s.pc[a]) && Holds(s.pc[b]));
      }
    }
  }

  lemma EnterKeeps(s: State, i: nat, inside: PC, waiting: PC)
    requires Inv(s) && i < |s.pc|
    requires (s.pc[i] == Think && inside == TakeSet && waiting == TakeWait) ||
      (s.pc[i] == Eat && inside == PutSet && waiting == PutWait)
    ensures Inv(Enter(s, i, inside, waiting))
  {
    hide MutexOk;
    var r := Enter(s, i, inside, waiting);
    EnterMutex(s, i, inside, waiting);
    forall k | 0 <= k < |s.pc| ensures SelfOk(r, k) { assert SelfOk(s, k); }
    SameFoodKeeps(s, r, i);
  }

  /** A step that touches neither food nor fork semaphores, of a philosopher that is not
      about to test anyone. */
  lemma SameFoodKeeps(s: State, r: State, i: nat)
    requires Inv(s) && Sized(r) && |r.pc| == |s.pc| && i < |s.pc|
    requires r.food == s.food && r.s == s.s
    requires forall k :: 0 <= k < |s.pc| ==> SelfOk(r, k)
    requires forall k :: 0 <= k < |s.pc| && (s.pc[k] == TakeTest || s.pc[k] == PutLeft || s.pc[k] == PutRight) ==>
      r.pc[k] == s.pc[k]
    requires MutexOk(r)
    ensures Inv(r)
  {
    forall k | 0 <= k < |s.pc| ensures Apart(r, k) { assert Apart(s, k); }
    forall k | 0 <= k < |s.pc| ensures Served(r, k) { assert Served(s, k); }
  }

  lemma ExitMutex(s: State, i: nat, after: PC)
    requires Sized(s) && MutexOk(s) && i < |s.pc| && Holds(s.pc[i]) && (after == TakeDown || after == Think)
    ensures MutexOk(Exit(s, i, after))
    ensures Wakes(s.mutex) ==>
      s.mutex.queue[0] < |s.pc| && s.mutex.queue[0] != i &&
      (s.pc[s.mutex.queue[0]] == TakeWait || s.pc[s.mutex.queue[0]] == PutWait)
  {
    var r := Exit(s, i, after);
    UpOk(s.mutex);
    if Wakes(s.mutex) {
      var w := s.mutex.queue[0];
      assert w in s.mutex.queue && w != i;
      assert Holds(r.pc[w]);
      forall a, b | 0 <= a < b < |s.pc| ensures !(Holds(r.pc[a]) && Holds(r.pc[b])) {
        OneHolder(s, a, i);
        OneHolder(s, b, i);
      }
    } else {
      assert r.mutex.value == 1;
      forall a | 0 <= a < |s.pc| ensures !Holds(r.pc[a]) { OneHolder(s, a, i); }
    }
  }

  lemma OneHolder(s: State, a: nat, i: nat)
    requires Sized(s) && MutexOk(s) && a < |s.pc| && i < |s.pc| && Holds(s.pc[i])
    ensures Holds(s.pc[a]) ==> a == i
  {
  }

  lemma ExitKeeps(s: State, i: nat, after: PC)
    requires Inv(s) && i < |s.pc|
    requires (s.pc[i] == TakeUp && after == TakeDown) || (s.pc[i] == PutUp && after == Think)
    ensures Inv(Exit(s, i, after))
  {
    hide MutexOk;
    var r := Exit(s, i, after);
    ExitMutex(s, i, after);
    forall k | 0 <= k < |s.pc| ensures SelfOk(r, k) { assert SelfOk(s, k); }
    SameFoodKeeps(s, r, i);
  }

  // ----- steps inside -----

  /** Moving from one place inside the critical section to another leaves the mutex alone. */
  lemma InsideMutex(s: State, r: State, i: nat)
    requires Sized(s) && Sized(r) && MutexOk(s) && |r.pc| == |s.pc| && i < |s.pc| && r.mutex == s.mutex
    requires Holds(s.pc[i]) && Holds(r.pc[i])
    requires forall k :: 0 <= k < |s.pc| && k != i ==> r.pc[k] == s.pc[k] || (s.pc[k] == ForkWait && r.pc[k] == Eat)
    ensures MutexOk(r)
  {
    forall a, b | 0 <= a < b < |s.pc| ensures !(Holds(r.pc[a]) && Holds(r.pc[b])) {
      assert !(Holds(s.pc[a]) && Holds(s.pc[b]));
    }
  }

  lemma TakeSetKeeps(s: State, i: nat)
    requires Inv(s) && i < |s.pc| && s.pc[i] == TakeSet
    ensures Inv(Step(s, i, false))
  {
    var r := Step(s, i, false);
    assert SelfOk(s, i);
    InsideMutex(s, r, i);
    forall k | 0 <= k < |s.pc| ensures SelfOk(r, k) { assert SelfOk(s, k); }
    forall k | 0 <= k < |s.pc| ensures Apart(r, k) { assert Apart(s, k); }
    forall k | 0 <= k < |s.pc| ensures Served(r, k) { assert Served(s, k); }
  }

  lemma PutSetKeeps(s: State, i: nat)
    requires Inv(s) && i < |s.pc| && s.pc[i] == PutSet
    ensures Inv(Step(s, i, false))
  {
    var n := |s.pc|;
    var r := Step(s, i, false);
    assert SelfOk(s, i);
    InsideMutex(s, r, i);
    forall k | 0 <= k < n ensures SelfOk(r, k) { assert SelfOk(s, k); }
    forall k | 0 <= k < n ensures Apart(r, k) { assert Apart(s, k); }
    forall k | 0 <= k < n ensures Served(r, k) {
      assert Served(s, k);
      Neighbours(n, k);
    }
  }

  /** The state between moving on and testing: everything holds but that j may be left to
      be tested. */
  ghost predicate AllBut(s: State, j: nat) {
    && Sized(s) && MutexOk(s) && j < |s.pc|
    && (forall k :: 0 <= k < |s.pc| ==> SelfOk(s, k))
    && (forall k :: 0 <= k < |s.pc| ==> Apart(s, k))
    && (forall k :: 0 <= k < |s.pc| && k != j ==> Served(s, k))
  }

  /** Granting j its forks keeps neighbours apart and everyone else served. */
  lemma GrantServes(s: State, j: nat)
    requires Sized(s) && j < |s.pc| && CanEat(s, j)
    requires forall k :: 0 <= k < |s.pc| ==> Apart(s, k)
    requires forall k :: 0 <= k < |s.pc| && k != j ==> Served(s, k)
    ensures forall k :: 0 <= k < |s.pc| ==> Apart(Test(s, j), k) && Served(Test(s, j), k)
  {
    forall k | 0 <= k < |s.pc| ensures Apart(Test(s, j), k) && Served(Test(s, j), k) {
      assert Apart(s, k);
      assert k != j ==> Served(s, k);
      Neighbours(|s.pc|, k);
    }
  }

  /** Testing j serves j and leaves everyone else served. */
  lemma TestKeeps(s: State, j: nat, i: nat)
    requires AllBut(s, j) && i < |s.pc| && Holds(s.pc[i]) && s.pc[i] != TakeTest
    ensures Inv(Test(s, j))
  {
    assert SelfOk(s, j);
    OneHolder(s, j, i);
    if CanEat(s, j) {
      GrantServes(s, j);
      hide Served, Apart;
      InsideMutex(s, Test(s, j), i);
      hide MutexOk;
      forall k | 0 <= k < |s.pc| ensures SelfOk(Test(s, j), k) { assert SelfOk(s, k); }
    } else {
      assert Served(s, j);
    }
  }

  lemma TakeTestKeeps(s: State, i: nat)
    requires Inv(s) && i < |s.pc| && s.pc[i] == TakeTest
    ensures Inv(Step(s, i, false))
  {
    var s1 := s.(pc := s.pc[i := TakeUp]);
    InsideMutex(s, s1, i);
    hide MutexOk;
    forall k | 0 <= k < |s.pc| ensures SelfOk(s1, k) { assert SelfOk(s, k); }
    forall k | 0 <= k < |s.pc| ensures Apart(s1, k) { assert Apart(s, k); }
    forall k | 0 <= k < |s.pc| && k != i ensures Served(s1, k) { assert Served(s, k); }
    TestKeeps(s1, i, i);
  }

  lemma PutTestKeeps(s: State, i: nat)
    requires Inv(s) && i < |s.pc| && (s.pc[i] == PutLeft || s.pc[i] == PutRight)
    ensures Inv(Step(s, i, false))
  {
    var n := |s.pc|;
    var left := s.pc[i] == PutLeft;
    var j := if left then Left(n, i) else Right(n, i);
    var s1 := s.(pc := s.pc[i := if left then PutRight else PutUp]);
    InsideMutex(s, s1, i);
    hide MutexOk;
    forall k | 0 <= k < n ensures SelfOk(s1, k) { assert SelfOk(s, k); }
    hide SelfOk;
    forall k | 0 <= k < n ensures Apart(s1, k) { assert Apart(s, k); }
    hide Apart;
    forall k | 0 <= k < n && k != j ensures Served(s1, k) {
      assert Served(s, k);
      Neighbours(n, k);
    }
    hide Served, CanEat, ToBeTested;
    TestKeeps(s1, j, i);
  }

  lemma TakeDownKeeps(s: State, i: nat)
    requires Inv(s) && i < |s.pc| && s.pc[i] == TakeDown
    ensures Inv(Step(s, i, false))
  {
    var r := Step(s, i, false);
    assert SelfOk(s, i);
    assert MutexOk(r) by { QuietMutex(s, r); }
    hide MutexOk;
    forall k | 0 <= k < |s.pc| ensures SelfOk(r, k) { assert SelfOk(s, k); }
    forall k | 0 <= k < |s.pc| ensures Apart(r, k) { assert Apart(s, k); }
    forall k | 0 <= k < |s.pc| ensures Served(r, k) { assert Served(s, k); }
  }

  lemma QuietMutex(s: State, r: State)
    requires Sized(s) && Sized(r) && MutexOk(s) && |r.pc| == |s.pc| && r.mutex == s.mutex
    requires forall k :: 0 <= k < |s.pc| ==>
      r.pc[k] == s.pc[k] ||
      (!Holds(r.pc[k]) && !Holds(s.pc[k]) && s.pc[k] != TakeWait && s.pc[k] != PutWait && r.pc[k] != TakeWait &&
        r.pc[k] != PutWait)
    ensures MutexOk(r)
  {
    if s.mutex.value == 0 {
      var h :| 0 <= h < |s.pc| && Holds(s.pc[h]);
      assert Holds(r.pc[h]);
    }
    forall a, b | 0 <= a < b < |s.pc| ensures !(Holds(r.pc[a]) && Holds(r.pc[b])) {
      assert !(Holds(s.pc[a]) && Holds(s.pc[b]));
    }
  }

  lemma QuitKeeps(s: State, i: nat)
    requires Inv(s) && i < |s.pc| && s.pc[i] == Think
    ensures Inv(Step(s, i, true))
  {
    var r := Step(s, i, true);
    QuietMutex(s, r);
    hide MutexOk;
    forall k | 0 <= k < |s.pc| ensures SelfOk(r, k) { assert SelfOk(s, k); }
    SameFoodKeeps(s, r, i);
  }

  /** Every step of every philosopher keeps the invariant. */
  lemma StepKeeps(s: State, i: nat, quits: bool)
    requires Inv(s) && i < |s.pc| && Runnable(s, i)
    ensures Inv(Step(s, i, quits))
  {
    hide Inv, Test, Enter, Exit;
    match s.pc[i] {
      case Think => if quits { QuitKeeps(s, i); } else { EnterKeeps(s, i, TakeSet, TakeWait); }
      case TakeSet => TakeSetKeeps(s, i);
      case TakeTest => TakeTestKeeps(s, i);
      case TakeUp => ExitKeeps(s, i, TakeDown);
      case TakeDown => TakeDownKeeps(s, i);
      case Eat => EnterKeeps(s, i, PutSet, PutWait);
      case PutSet => PutSetKeeps(s, i);
      case PutLeft => PutTestKeeps(s, i);
      case PutRight => PutTestKeeps(s, i);
      case PutUp => ExitKeeps(s, i, Think);
    }
  }

  lemma StartInv(n: nat)
    requires n >= 2
    ensures Inv(Start(n))
  {
  }

  // ----- runs -----

  /** A scheduling choice: who moves, and whether a thinking philosopher quits. */
  datatype Choice = Choice(who: nat, quits: bool)

  ghost predicate IsRun(states: seq<State>, choices: seq<Choice>, n: nat) {
    && n >= 2 && |states| == |choices| + 1 && states[0] == Start(n)
    && (forall k :: 0 <= k < |states| ==> Sized(states[k]) && |states[k].pc| == n)
    && forall k :: 0 <= k < |choices| ==>
         && choices[k].who < |states[k].pc| && Runnable(states[k], choices[k].who)
         && states[k + 1] == Step(states[k], choices[k].who, choices[k].quits)
  }

  lemma {:induction false} RunsKeepInvariant(states: seq<State>, choices: seq<Choice>, n: nat, k: nat)
    requires IsRun(states, choices, n) && k < |states|
    ensures Inv(states[k]) && |states[k].pc| == n
  {
    hide Step, Inv;
    if k == 0 {
      StartInv(n);
    } else {
      RunsKeepInvariant(states, choices, n, k - 1);
      StepKeeps(states[k - 1], choices[k - 1].who, choices[k - 1].quits);
    }
  }

  // ----- what the invariant gives -----

  /** In every reachable state: neighbours never eat together; s[i] holds a unit exactly
      when i has been granted its forks and has not passed its `down`; and while the mutex
      is free every hungry philosopher has an eating neighbour. */
  lemma ForkSafety(states: seq<State>, choices: seq<Choice>, n: nat, k: nat, i: nat)
    requires IsRun(states, choices, n) && k < |states| && i < n
    ensures
      var s := states[k];
      && Inv(s) && |s.pc| == n
      && !(s.food[i] == Eating && s.food[Right(n, i)] == Eating)
      && (s.s[i].value == 1 <==> s.food[i] == Eating && (s.pc[i] == TakeUp || s.pc[i] == TakeDown))
      && (s.mutex.value == 1 && s.food[i] == Hungry ==> s.food[Left(n, i)] == Eating || s.food[Right(n, i)] == Eating)
  {
    RunsKeepInvariant(states, choices, n, k);
    var s := states[k];
    assert SelfOk(s, i) && Apart(s, i) && Served(s, i);
  }

  /** No reachable state is deadlocked: while some philosopher has not quit, one can move. */
  lemma NoDeadlock(states: seq<State>, choices: seq<Choice>, n: nat, k: nat)
    requires IsRun(states, choices, n) && k < |states|
    requires exists i :: 0 <= i < n && states[k].pc[i] != Quit
    ensures exists i :: 0 <= i < n && Runnable(states[k], i)
  {
    RunsKeepInvariant(states, choices, n, k);
    var s := states[k];
    var i :| 0 <= i < n && s.pc[i] != Quit;
    if s.mutex.value == 0 {
      var h :| 0 <= h < n && Holds(s.pc[h]);
      assert Runnable(s, h);
    } else if Blocked(s.pc[i]) {
      assert s.mutex.queue == [];
      assert SelfOk(s, i) && s.pc[i] == ForkWait;
      ForkSafety(states, choices, n, k, i);
      var e := if s.food[Left(n, i)] == Eating then Left(n, i) else Right(n, i);
      assert SelfOk(s, e);
      assert Runnable(s, e);
    } else {
      assert Runnable(s, i);
    }
  }
}
