/** What the monitor protocol guarantees in every reachable state. */
module MonitorSafety {
  import P = SemPhilosophers
  import opened Semaphore
  import opened Monitor
  import opened MonitorProof

  ghost predicate IsRun(states: seq<State>, choices: seq<P.Choice>, n: nat) {
    && n >= 2 && |states| == |choices| + 1 && states[0] == Start(n)
    && (forall k :: 0 <= k < |states| ==> Sized(states[k]) && |states[k].pc| == n)
    && forall k :: 0 <= k < |choices| ==>
         && choices[k].who < |states[k].pc| && Runnable(states[k], choices[k].who)
         && states[k + 1] == Step(states[k], choices[k].who, choices[k].quits)
  }

  lemma {:induction false} RunsKeepInvariant(states: seq<State>, choices: seq<P.Choice>, n: nat, k: nat)
    requires IsRun(states, choices, n) && k < |states|
    ensures |states[k].pc| == n && exists w :: Inv(states[k], w)
  {
    hide Step, Inv, TokenAfter;
    if k == 0 {
      StartInv(n);
    } else {
      RunsKeepInvariant(states, choices, n, k - 1);
      var c := choices[k - 1];
      assert states[k] == Step(states[k - 1], c.who, c.quits);
      var w :| Inv(states[k - 1], w);
      StepKeeps(states[k - 1], w, c.who, c.quits);
    }
  }

  // ----- the right to run is conserved -----

  /** Processes that may run inside the monitor. */
  function ActiveCount(pc: seq<PC>): nat {
    if pc == [] then 0 else ActiveCount(pc[..|pc| - 1]) + if Active(pc[|pc| - 1]) then 1 else 0
  }

  /** Units at the condition semaphores. */
  function CvUnits(cv: seq<Cv>): nat {
    if cv == [] then 0 else CvUnits(cv[..|cv| - 1]) + cv[|cv| - 1].sem.value
  }

  function Rights(s: State): nat {
    s.mutex.value + s.next.value + CvUnits(s.cv) + ActiveCount(s.pc)
  }

  lemma {:induction false} CountOne(pc: seq<PC>, k: nat, p: nat)
    requires k <= |pc| && forall i :: 0 <= i < |pc| ==> (Active(pc[i]) <==> i == p)
    ensures ActiveCount(pc[..k]) == if p < k then 1 else 0
  {
    if k > 0 {
      CountOne(pc, k - 1, p);
      assert pc[..k][..k - 1] == pc[..k - 1];
    }
  }

  lemma {:induction false} UnitsOne(cv: seq<Cv>, k: nat, p: nat)
    requires k <= |cv| && forall j :: 0 <= j < |cv| ==> cv[j].sem.value == if j == p then 1 else 0
    ensures CvUnits(cv[..k]) == if p < k then 1 else 0
  {
    if k > 0 {
      UnitsOne(cv, k - 1, p);
      assert cv[..k][..k - 1] == cv[..k - 1];
    }
  }

  lemma TokenIsOneRight(s: State, w: Where)
    requires Sized(s) && TokenOk(s, w)
    ensures Rights(s) == 1
  {
    var n := |s.pc|;
    CountOne(s.pc, n, if w.AtProc? then w.proc else n);
    UnitsOne(s.cv, n, if w.AtCv? then w.cv else n);
    assert s.pc[..n] == s.pc && s.cv[..n] == s.cv;
  }

  /** In every reachable state there is exactly one right to run inside the monitor, over
      the mutex, `next`, all condition semaphores and all processes together. */
  lemma OneRight(states: seq<State>, choices: seq<P.Choice>, n: nat, k: nat)
    requires IsRun(states, choices, n) && k < |states|
    ensures Rights(states[k]) == 1
  {
    RunsKeepInvariant(states, choices, n, k);
    var w :| Inv(states[k], w);
    hide Rights;
    TokenIsOneRight(states[k], w);
  }

  /** At most one process is active inside the monitor, neighbours never eat together, and
      a philosopher that comes back from cond_wait finds itself eating. */
  lemma MonitorIsSafe(states: seq<State>, choices: seq<P.Choice>, n: nat, k: nat, i: nat, j: nat)
    requires IsRun(states, choices, n) && k < |states| && i < n && j < n
    ensures
      var s := states[k];
      && Sized(s) && |s.pc| == n
      && (Active(s.pc[i]) && Active(s.pc[j]) ==> i == j)
      && !(s.food[i] == P.Eating && s.food[P.Right(n, i)] == P.Eating)
      && (s.pc[i] == CvDec ==> s.food[i] == P.Eating)
      && 0 <= s.nextCount <= 1
  {
    RunsKeepInvariant(states, choices, n, k);
    var s := states[k];
    var w :| Inv(s, w);
    assert SelfOk(s, w, i) && Apart(s, i);
  }

  /** While the mutex is free nobody is inside: no signaller is suspended and everyone
      hungry waits at its condition for an eating neighbour. */
  lemma FreeMonitor(s: State, w: Where, i: nat)
    requires Inv(s, w) && s.mutex.value == 1 && i < |s.pc|
    ensures s.nextCount == 0 && !s.pc[i].NextWait? && !s.pc[i].EnterWait?
    ensures s.food[i] == P.Hungry ==> s.food[P.Left(|s.pc|, i)] == P.Eating || s.food[P.Right(|s.pc|, i)] == P.Eating
    ensures s.food[i] == P.Eating ==> s.pc[i] == Eat
  {
    assert w == AtMutex;
    assert s.mutex.queue == [];
    forall k | 0 <= k < |s.pc| ensures !Signaller(s.pc[k]) && !OwesRight(s.pc[k]) && !s.pc[k].Test? {
      assert Lent(s, w, k) && !Active(s.pc[k]);
    }
    assert i !in s.mutex.queue;
    hide QueuesOk, SignalsOk, Lent;
    assert SelfOk(s, w, i) && Served(s, i);
    assert !Active(s.pc[i]);
  }

  lemma HungryHasEatingNeighbour(states: seq<State>, choices: seq<P.Choice>, n: nat, k: nat, i: nat)
    requires IsRun(states, choices, n) && k < |states| && i < n
    requires states[k].mutex.value == 1 && states[k].food[i] == P.Hungry
    ensures states[k].food[P.Left(n, i)] == P.Eating || states[k].food[P.Right(n, i)] == P.Eating
  {
    RunsKeepInvariant(states, choices, n, k);
    var w :| Inv(states[k], w);
    FreeMonitor(states[k], w, i);
  }

  /** No reachable state is deadlocked: while some philosopher has not quit, one can move. */
  lemma NoDeadlock(states: seq<State>, choices: seq<P.Choice>, n: nat, k: nat)
    requires IsRun(states, choices, n) && k < |states|
    requires exists i :: 0 <= i < n && states[k].pc[i] != Quit
    ensures exists i :: 0 <= i < n && Runnable(states[k], i)
  {
    RunsKeepInvariant(states, choices, n, k);
    var w :| Inv(states[k], w);
    SomeoneRuns(states[k], w);
  }

  lemma SomeoneRuns(s: State, w: Where)
    requires Inv(s, w) && exists i :: 0 <= i < |s.pc| && s.pc[i] != Quit
    ensures exists i :: 0 <= i < |s.pc| && Runnable(s, i)
  {
    match w
    case AtProc(p) =>
      assert Active(s.pc[p]);
      assert Runnable(s, p);
    case AtCv(c) =>
      assert SelfOk(s, w, c);
      assert Runnable(s, c);
    case AtNext =>
      var k :| 0 <= k < |s.pc| && s.pc[k].SigDown?;
      assert Runnable(s, k);
    case AtMutex =>
      FreeMutexRuns(s);
  }

  lemma FreeMutexRuns(s: State)
    requires Inv(s, AtMutex) && exists i :: 0 <= i < |s.pc| && s.pc[i] != Quit
    ensures exists i :: 0 <= i < |s.pc| && Runnable(s, i)
  {
    var n := |s.pc|;
    var i :| 0 <= i < n && s.pc[i] != Quit;
    FreeMonitor(s, AtMutex, i);
    assert SelfOk(s, AtMutex, i);
    if Blocked(s.pc[i]) {
      var e := if s.food[P.Left(n, i)] == P.Eating then P.Left(n, i) else P.Right(n, i);
      FreeMonitor(s, AtMutex, e);
      assert Runnable(s, e);
    } else {
      assert Runnable(s, i);
    }
  }
}
