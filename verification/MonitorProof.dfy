/** Every step of the monitor protocol keeps its invariant. */
module MonitorProof {
  import opened Semaphore
  import P = SemPhilosophers
  import opened Monitor

  // ----- queues -----

  /** A process that does not wait moves to a place where it does not wait either. */
  lemma QueueMove(q: seq<nat>, pc: seq<PC>, i: nat, x: PC, why: Wait)
    requires QueueIs(q, pc, why) && i < |pc| && WaitOf(pc[i]) != why && WaitOf(x) != why
    ensures QueueIs(q, pc[i := x], why) && i !in q
  {
  }

  lemma QueueJoin(sem: Sem, pc: seq<PC>, i: nat, x: PC, why: Wait)
    requires Ok(sem) && QueueIs(sem.queue, pc, why) && i < |pc| && WaitOf(pc[i]) != why
    requires WaitOf(x) == if Passes(sem) then NoWait else why
    requires why != NoWait
    ensures Ok(Down(sem, i)) && QueueIs(Down(sem, i).queue, pc[i := x], why)
  {
    DownOk(sem, i);
  }

  /** A hand-off takes the first waiter out of the queue. */
  lemma QueueWake(sem: Sem, pc: seq<PC>, why: Wait)
    requires Ok(sem) && QueueIs(sem.queue, pc, why) && why != NoWait
    ensures Ok(Up(sem)) && QueueIs(Up(sem).queue, Wake(pc, sem), why)
    ensures Wakes(sem) ==>
      sem.queue[0] < |pc| && WaitOf(pc[sem.queue[0]]) == why &&
      Wake(pc, sem) == pc[sem.queue[0] := Resume(pc[sem.queue[0]])]
  {
    UpOk(sem);
    if Wakes(sem) {
      assert sem.queue[0] in sem.queue;
    }
  }

  lemma QueueOther(q: seq<nat>, sem: Sem, pc: seq<PC>, why: Wait, other: Wait)
    requires Ok(sem) && QueueIs(sem.queue, pc, why) && QueueIs(q, pc, other) && why != other && why != NoWait &&
      other != NoWait
    ensures QueueIs(q, Wake(pc, sem), other)
  {
    if Wakes(sem) {
      assert sem.queue[0] in sem.queue;
      QueueMove(q, pc, sem.queue[0], Resume(pc[sem.queue[0]]), other);
    }
  }

  /** Both shared queues, when process i moves between places where it does not wait. */
  lemma BothQueues(s: State, i: nat, x: PC)
    requires MutexQueueOk(s) && NextQueueOk(s) && i < |s.pc| && WaitOf(s.pc[i]) != OnMutex && WaitOf(s.pc[i]) != OnNext
    requires WaitOf(x) != OnMutex && WaitOf(x) != OnNext
    ensures QueueIs(s.mutex.queue, s.pc[i := x], OnMutex) && QueueIs(s.next.queue, s.pc[i := x], OnNext)
  {
    QueueMove(s.mutex.queue, s.pc, i, x, OnMutex);
    QueueMove(s.next.queue, s.pc, i, x, OnNext);
  }

  // ----- signallers -----

  /** Signallers are where they were and still have lent their token. */
  lemma SignalsSame(s: State, w: Where, r: State, w': Where)
    requires Sized(s) && Sized(r) && |s.pc| == |r.pc| && SignalsOk(s, w) && r.nextCount == s.nextCount
    requires forall k :: 0 <= k < |s.pc| ==>
      (Signaller(r.pc[k]) <==> Signaller(s.pc[k])) && (Signaller(s.pc[k]) ==> r.pc[k] == s.pc[k])
    requires forall k :: 0 <= k < |s.pc| ==> Lent(r, w', k)
    requires w' == AtNext ==> w == AtNext
    ensures SignalsOk(r, w')
  {
    hide Lent;
    if s.nextCount == 1 {
      var k :| 0 <= k < |s.pc| && Signaller(s.pc[k]);
      assert Signaller(r.pc[k]);
    }
    if w' == AtNext {
      var k :| 0 <= k < |s.pc| && s.pc[k].SigDown?;
      assert Signaller(s.pc[k]) && r.pc[k].SigDown?;
    }
    forall a, b | 0 <= a < b < |s.pc| ensures !(Signaller(r.pc[a]) && Signaller(r.pc[b])) {
      assert !(Signaller(s.pc[a]) && Signaller(s.pc[b]));
    }
  }

  /** A process that is active and not on its way out of cond_wait faces no signaller. */
  lemma NoSignallerYet(s: State, i: nat)
    requires Sized(s) && TokenOk(s, AtProc(i)) && SignalsOk(s, AtProc(i)) && i < |s.pc|
    requires s.pc[i] != CvDec && s.pc[i] != Leave(false) && !Signaller(s.pc[i])
    ensures s.nextCount == 0 && forall k :: 0 <= k < |s.pc| ==> !Signaller(s.pc[k])
  {
    forall k | 0 <= k < |s.pc| ensures !Signaller(s.pc[k]) {
      assert Lent(s, AtProc(i), k);
      assert Active(s.pc[k]) ==> k == i;
    }
  }

  // ----- the monitor under moves of the active process -----

  /** Process i moves from one active place to another; no semaphore changes. */
  ghost predicate Moves(s: State, r: State, i: nat) {
    && Sized(s) && Sized(r) && i < |s.pc| == |r.pc|
    && Active(s.pc[i]) && Active(r.pc[i]) && r.pc == s.pc[i := r.pc[i]]
    && r.mutex == s.mutex && r.next == s.next
    && forall j :: 0 <= j < |s.pc| ==> r.cv[j].sem == s.cv[j].sem
  }

  lemma MoveToken(s: State, r: State, i: nat)
    requires Moves(s, r, i) && TokenOk(s, AtProc(i)) && QueuesOk(s)
    ensures TokenOk(r, AtProc(i)) && QueuesOk(r)
  {
    BothQueues(s, i, r.pc[i]);
    hide QueueIs;
  }

  /** A move that neither starts nor ends a signal. */
  lemma MoveCore(s: State, r: State, i: nat)
    requires Moves(s, r, i) && Core(s, AtProc(i)) && r.nextCount == s.nextCount
    requires !Signaller(s.pc[i]) && !Signaller(r.pc[i])
    requires s.pc[i] == CvDec ==> r.pc[i] == Leave(false)
    requires s.pc[i] != Leave(false)
    ensures Core(r, AtProc(i))
  {
    MoveToken(s, r, i);
    hide TokenOk, QueuesOk;
    forall k | 0 <= k < |s.pc| ensures Lent(r, AtProc(i), k) { assert Lent(s, AtProc(i), k); }
    SignalsSame(s, AtProc(i), r, AtProc(i));
  }

  lemma SigIncCore(s: State, r: State, i: nat)
    requires Moves(s, r, i) && Core(s, AtProc(i)) && r.nextCount == s.nextCount + 1
    requires s.pc[i].SigInc? && r.pc[i].SigUp?
    ensures Core(r, AtProc(i))
  {
    MoveToken(s, r, i);
    NoSignallerYet(s, i);
    hide TokenOk, QueuesOk;
    assert Signaller(r.pc[i]);
  }

  lemma SigDecCore(s: State, r: State, i: nat)
    requires Moves(s, r, i) && Core(s, AtProc(i)) && r.nextCount == s.nextCount - 1
    requires s.pc[i].SigDec? && !Signaller(r.pc[i])
    ensures Core(r, AtProc(i))
  {
    MoveToken(s, r, i);
    hide TokenOk, QueuesOk;
    assert Signaller(s.pc[i]);
    forall k | 0 <= k < |s.pc| ensures !Signaller(r.pc[k]) { assert k != i ==> !Signaller(s.pc[k]); }
  }

  // ----- the table under moves of the active process -----

  /** Philosophers whose place and food are the same, whom nobody starts or stops
      signalling. */
  lemma SelfSame(s: State, w: Where, r: State, w': Where, i: nat)
    requires Sized(s) && Sized(r) && i < |s.pc| == |r.pc|
    requires forall k :: 0 <= k < |s.pc| ==> SelfOk(s, w, k)
    requires forall k :: 0 <= k < |s.pc| && k != i ==> r.food[k] == s.food[k] && r.cv[k].count == s.cv[k].count
    requires forall k :: 0 <= k < |s.pc| && k != i ==>
      r.pc[k] == s.pc[k] || ((s.pc[k].EnterWait? || s.pc[k].NextWait?) && r.pc[k] == Resume(s.pc[k]))
    requires Signalled(s, w) == Signalled(r, w')
    requires forall k :: 0 <= k < |s.pc| && k != i ==> (w == AtCv(k) <==> w' == AtCv(k))
    requires SelfOk(r, w', i)
    ensures forall k :: 0 <= k < |s.pc| ==> SelfOk(r, w', k)
  {
    hide Signalled;
    forall k | 0 <= k < |s.pc| ensures SelfOk(r, w', k) { assert SelfOk(s, w, k); }
  }

  /** Places from which a test is owed. */
  predicate Owes(pc: PC) {
    pc.Test? || OwesRight(pc)
  }

  /** No food changes and every owed test is still owed. */
  lemma FedSame(s: State, r: State)
    requires Sized(s) && Sized(r) && |s.pc| == |r.pc| && r.food == s.food && Fed(s)
    requires forall k :: 0 <= k < |s.pc| && Owes(s.pc[k]) ==>
      r.pc[k] == s.pc[k] || (!s.pc[k].Test? && OwesRight(r.pc[k]))
    ensures Fed(r)
  {
    forall k | 0 <= k < |s.pc| ensures Apart(r, k) && Served(r, k) {
      assert Apart(s, k) && Served(s, k);
    }
  }

  lemma SetHungryKeeps(s: State, i: nat)
    requires Inv(s, AtProc(i)) && i < |s.pc| && s.pc[i] == SetHungry
    ensures Inv(Goto(s, i, Test(Self)).(food := s.food[i := P.Hungry]), AtProc(i))
  {
    var w := AtProc(i);
    var r := Goto(s, i, Test(Self)).(food := s.food[i := P.Hungry]);
    assert Active(s.pc[i]);
    MoveCore(s, r, i);
    hide Core;
    assert SelfOk(s, w, i);
    SelfSame(s, w, r, w, i);
    hide SelfOk;
    forall k | 0 <= k < |s.pc| ensures Apart(r, k) && Served(r, k) { assert Apart(s, k) && Served(s, k); }
  }

  lemma SetThinkingKeeps(s: State, i: nat)
    requires Inv(s, AtProc(i)) && i < |s.pc| && s.pc[i] == SetThinking
    ensures Inv(Goto(s, i, Test(LeftSide)).(food := s.food[i := P.Thinking]), AtProc(i))
  {
    var w := AtProc(i);
    var r := Goto(s, i, Test(LeftSide)).(food := s.food[i := P.Thinking]);
    assert Active(s.pc[i]);
    MoveCore(s, r, i);
    hide Core;
    assert SelfOk(s, w, i);
    SelfSame(s, w, r, w, i);
    hide SelfOk;
    forall k | 0 <= k < |s.pc| ensures Apart(r, k) && Served(r, k) {
      assert Apart(s, k) && Served(s, k);
      P.Neighbours(|s.pc|, k);
    }
  }

  /** No philosopher but the active one is hungry outside cond_wait. */
  lemma HungryWaits(s: State, i: nat, j: nat)
    requires Sized(s) && i < |s.pc| && j < |s.pc| && i != j && TokenOk(s, AtProc(i)) && SelfOk(s, AtProc(i), j) &&
      s.food[j] == P.Hungry
    ensures s.pc[j] == CvDown || s.pc[j] == CvWait
    ensures s.cv[j].count == 1
  {
    assert !Active(s.pc[j]);
  }

  /** The outcome of a test. */
  function Tested(s: State, i: nat, stage: Stage): (r: State)
    requires Sized(s) && i < |s.pc|
    ensures Sized(r) && |r.pc| == |s.pc|
  {
    var j := Target(|s.pc|, i, stage);
    if CanEat(s, j) then
      Goto(s, i, if s.cv[j].count > 0 then SigInc(stage) else After(stage)).(food := s.food[j := P.Eating])
    else Goto(s, i, After(stage))
  }

  /** A test that lets another philosopher eat begins to signal it. */
  lemma GrantSelf(s: State, i: nat, stage: Stage, j: nat)
    requires Sized(s) && i < |s.pc| && s.pc[i] == Test(stage) && j == Target(|s.pc|, i, stage) && j != i
    requires forall k :: 0 <= k < |s.pc| ==> SelfOk(s, AtProc(i), k)
    requires s.food[j] == P.Hungry && (s.pc[j] == CvDown || s.pc[j] == CvWait)
    ensures
      var r := Goto(s, i, SigInc(stage)).(food := s.food[j := P.Eating]);
      forall k :: 0 <= k < |s.pc| ==> SelfOk(r, AtProc(i), k)
  {
    var w := AtProc(i);
    var r := Goto(s, i, SigInc(stage)).(food := s.food[j := P.Eating]);
    assert Signalled(s, w) == -1 && Signalled(r, w) == j;
    hide Signalled;
    forall k | 0 <= k < |s.pc| ensures SelfOk(r, w, k) {
      assert SelfOk(s, w, k);
    }
  }

  lemma TestSelf(s: State, i: nat, stage: Stage)
    requires Sized(s) && TokenOk(s, AtProc(i)) && i < |s.pc| && s.pc[i] == Test(stage)
    requires forall k :: 0 <= k < |s.pc| ==> SelfOk(s, AtProc(i), k)
    ensures forall k :: 0 <= k < |s.pc| ==> SelfOk(Tested(s, i, stage), AtProc(i), k)
  {
    var n := |s.pc|;
    var w := AtProc(i);
    var j := Target(n, i, stage);
    P.Neighbours(n, i);
    assert SelfOk(s, w, i);
    if CanEat(s, j) && j != i {
      HungryWaits(s, i, j);
      hide TokenOk;
      GrantSelf(s, i, stage, j);
    } else {
      hide TokenOk;
      SelfSame(s, w, Tested(s, i, stage), w, i);
    }
  }

  lemma TestFed(s: State, i: nat, stage: Stage)
    requires Sized(s) && i < |s.pc| && s.pc[i] == Test(stage) && Fed(s)
    ensures Fed(Tested(s, i, stage))
  {
    var n := |s.pc|;
    var r := Tested(s, i, stage);
    P.Neighbours(n, i);
    forall k | 0 <= k < n ensures Apart(r, k) && Served(r, k) {
      assert Apart(s, k) && Served(s, k);
      P.Neighbours(n, k);
    }
  }

  lemma TestKeeps(s: State, i: nat, stage: Stage)
    requires Inv(s, AtProc(i)) && i < |s.pc| && s.pc[i] == Test(stage)
    ensures Inv(Tested(s, i, stage), AtProc(i))
  {
    assert Active(s.pc[i]);
    TestSelf(s, i, stage);
    TestFed(s, i, stage);
    hide Fed, SelfOk, CanEat;
    MoveCore(s, Tested(s, i, stage), i);
  }

  lemma SigIncKeeps(s: State, i: nat)
    requires Inv(s, AtProc(i)) && i < |s.pc| && s.pc[i].SigInc?
    ensures Inv(Goto(s, i, SigUp(s.pc[i].stage)).(nextCount := s.nextCount + 1), AtProc(i))
  {
    var w := AtProc(i);
    var r := Goto(s, i, SigUp(s.pc[i].stage)).(nextCount := s.nextCount + 1);
    assert Active(s.pc[i]);
    SigIncCore(s, r, i);
    hide Core;
    assert SelfOk(s, w, i);
    SelfSame(s, w, r, w, i);
    hide SelfOk;
    FedSame(s, r);
  }

  lemma SigDecKeeps(s: State, i: nat)
    requires Inv(s, AtProc(i)) && i < |s.pc| && s.pc[i].SigDec?
    ensures Inv(Goto(s, i, After(s.pc[i].stage)).(nextCount := s.nextCount - 1), AtProc(i))
  {
    var w := AtProc(i);
    var r := Goto(s, i, After(s.pc[i].stage)).(nextCount := s.nextCount - 1);
    assert Active(s.pc[i]);
    assert SelfOk(s, w, i);
    SigDecCore(s, r, i);
    hide Core;
    SelfSame(s, w, r, w, i);
    hide SelfOk;
    FedSame(s, r);
  }

  lemma OwnMoveTable(s: State, r: State, i: nat)
    requires Sized(s) && Table(s, AtProc(i)) && i < |s.pc|
    requires
      || (s.pc[i] == Check && r == Goto(s, i, if s.food[i] != P.Eating then CvInc else Leave(false)))
      || (s.pc[i] == CvInc && r == Goto(s, i, CvGive).(cv := s.cv[i := s.cv[i].(count := s.cv[i].count + 1)]))
      || (s.pc[i] == CvDec && r == Goto(s, i, Leave(false)).(cv := s.cv[i := s.cv[i].(count := s.cv[i].count - 1)]))
    ensures Table(r, AtProc(i))
  {
    assert SelfOk(s, AtProc(i), i);
    SelfSame(s, AtProc(i), r, AtProc(i), i);
    hide SelfOk;
    FedSame(s, r);
  }

  /** Check, CvInc and CvDec: moves of the active process that concern only itself. */
  lemma OwnMoveKeeps(s: State, r: State, i: nat)
    requires Inv(s, AtProc(i)) && i < |s.pc|
    requires
      || (s.pc[i] == Check && r == Goto(s, i, if s.food[i] != P.Eating then CvInc else Leave(false)))
      || (s.pc[i] == CvInc && r == Goto(s, i, CvGive).(cv := s.cv[i := s.cv[i].(count := s.cv[i].count + 1)]))
      || (s.pc[i] == CvDec && r == Goto(s, i, Leave(false)).(cv := s.cv[i := s.cv[i].(count := s.cv[i].count - 1)]))
    ensures Inv(r, AtProc(i))
  {
    hide Table;
    MoveCore(s, r, i);
    OwnMoveTable(s, r, i);
  }

  // ----- entering -----

  function Entered(s: State, i: nat, put: bool): (r: State)
    requires Sized(s) && i < |s.pc|
    ensures Sized(r) && |r.pc| == |s.pc|
  {
    var pc := if !Passes(s.mutex) then EnterWait(put) else if put then SetThinking else SetHungry;
    Goto(s, i, pc).(mutex := Down(s.mutex, i))
  }

  /** A process outside the monitor moves, perhaps taking the token from the mutex. */
  lemma OutsideSignals(s: State, w: Where, r: State, w': Where, i: nat)
    requires Sized(s) && Sized(r) && i < |s.pc| && SignalsOk(s, w) && r.nextCount == s.nextCount
    requires |r.pc| == |s.pc| && r.pc == s.pc[i := r.pc[i]] && (s.pc[i] == Think || s.pc[i] == Eat) &&
      !Signaller(r.pc[i])
    requires w' == w || (w == AtMutex && w' == AtProc(i))
    ensures SignalsOk(r, w')
  {
    forall k | 0 <= k < |s.pc| ensures Lent(r, w', k) { assert Lent(s, w, k); }
    SignalsSame(s, w, r, w');
  }

  lemma EnterQueues(s: State, i: nat, put: bool)
    requires Sized(s) && QueuesOk(s) && i < |s.pc| && s.pc[i] == if put then Eat else Think
    ensures QueuesOk(Entered(s, i, put))
  {
    var r := Entered(s, i, put);
    QueueJoin(s.mutex, s.pc, i, r.pc[i], OnMutex);
    QueueMove(s.next.queue, s.pc, i, r.pc[i], OnNext);
    hide QueueIs, Ok;
  }

  lemma EnterCore(s: State, w: Where, i: nat, put: bool)
    requires Sized(s) && Core(s, w) && i < |s.pc| && s.pc[i] == if put then Eat else Think
    ensures Core(Entered(s, i, put), if Passes(s.mutex) then AtProc(i) else w) && (Passes(s.mutex) ==> w == AtMutex)
  {
    hide SignalsOk, QueuesOk;
    var r := Entered(s, i, put);
    var w' := if Passes(s.mutex) then AtProc(i) else w;
    EnterQueues(s, i, put);
    OutsideSignals(s, w, r, w', i);
    assert TokenOk(r, w');
  }

  lemma EnterTable(s: State, w: Where, i: nat, put: bool)
    requires Sized(s) && Table(s, w) && i < |s.pc| && s.pc[i] == if put then Eat else Think
    requires w != AtProc(i) && (Passes(s.mutex) ==> w == AtMutex)
    ensures Table(Entered(s, i, put), if Passes(s.mutex) then AtProc(i) else w)
  {
    var r := Entered(s, i, put);
    var w' := if Passes(s.mutex) then AtProc(i) else w;
    assert Signalled(r, w') == Signalled(s, w);
    assert SelfOk(s, w, i);
    assert SelfOk(r, w', i);
    SelfSame(s, w, r, w', i);
    hide SelfOk;
    FedSame(s, r);
  }

  lemma EnterKeeps(s: State, w: Where, i: nat, put: bool)
    requires Inv(s, w) && i < |s.pc| && s.pc[i] == if put then Eat else Think
    ensures Inv(Entered(s, i, put), if Passes(s.mutex) then AtProc(i) else w)
  {
    hide Core, Table;
    EnterCore(s, w, i, put);
    TokenInactive(s, w, i);
    EnterTable(s, w, i, put);
  }

  lemma TokenInactive(s: State, w: Where, i: nat)
    requires Sized(s) && Core(s, w) && i < |s.pc| && !Active(s.pc[i])
    ensures w != AtProc(i)
  {
  }

  lemma QuitKeeps(s: State, w: Where, i: nat)
    requires Inv(s, w) && i < |s.pc| && s.pc[i] == Think
    ensures Inv(Goto(s, i, Quit), w)
  {
    var r := Goto(s, i, Quit);
    QuitCore(s, w, i);
    TokenInactive(s, w, i);
    hide Core;
    assert SelfOk(s, w, i);
    SelfSame(s, w, r, w, i);
    hide SelfOk;
    FedSame(s, r);
  }

  lemma QuitCore(s: State, w: Where, i: nat)
    requires Sized(s) && Core(s, w) && i < |s.pc| && s.pc[i] == Think
    ensures Core(Goto(s, i, Quit), w)
  {
    hide SignalsOk;
    OutsideSignals(s, w, Goto(s, i, Quit), w, i);
    BothQueues(s, i, Quit);
    hide QueueIs, Ok, NextQueueOk;
    assert NextQueueOk(Goto(s, i, Quit)) by { assert NextQueueOk(s); }
  }

  // ----- leaving -----

  /** Where the token goes when the monitor is given up. */
  function ReleasedTo(s: State): Where
    requires Sized(s)
  {
    if s.nextCount > 0 then if Wakes(s.next) then AtProc(s.next.queue[0]) else AtNext
    else if Wakes(s.mutex) then AtProc(s.mutex.queue[0]) else AtMutex
  }

  /** The process that gets the monitor next, if it waits for it. */
  ghost predicate HandsOver(s: State, i: nat)
    requires Sized(s) && i < |s.pc|
  {
    && (s.nextCount > 0 && Wakes(s.next) ==>
      s.next.queue[0] < |s.pc| && s.next.queue[0] != i && s.pc[s.next.queue[0]].NextWait?)
    && (s.nextCount <= 0 && Wakes(s.mutex) ==>
      s.mutex.queue[0] < |s.pc| && s.mutex.queue[0] != i && s.pc[s.mutex.queue[0]].EnterWait?)
  }

  lemma ReleaseQueues(s: State, i: nat, pc: PC)
    requires Sized(s) && QueuesOk(s) && i < |s.pc| && Active(s.pc[i]) && (pc == CvDown || pc == Think || pc == Eat)
    ensures QueuesOk(Release(Goto(s, i, pc))) && HandsOver(s, i)
  {
    var pc1 := s.pc[i := pc];
    BothQueues(s, i, pc);
    if s.nextCount > 0 {
      QueueWake(s.next, pc1, OnNext);
      QueueOther(s.mutex.queue, s.next, pc1, OnNext, OnMutex);
    } else {
      QueueWake(s.mutex, pc1, OnMutex);
      QueueOther(s.next.queue, s.mutex, pc1, OnMutex, OnNext);
    }
    hide QueueIs, Ok;
    assert CvQueuesOk(Release(Goto(s, i, pc)));
  }

  lemma ReleaseToken(s: State, i: nat, pc: PC)
    requires Sized(s) && TokenOk(s, AtProc(i)) && i < |s.pc| && (pc == CvDown || pc == Think || pc == Eat) &&
      HandsOver(s, i)
    ensures TokenOk(Release(Goto(s, i, pc)), ReleasedTo(s))
  {
    var r := Release(Goto(s, i, pc));
    var w' := ReleasedTo(s);
    forall k | 0 <= k < |s.pc| ensures Active(r.pc[k]) <==> w' == AtProc(k) {
      assert Active(s.pc[k]) <==> k == i;
    }
  }

  /** No signaller is suspended: the monitor goes to the mutex. */
  lemma ToMutex(s: State, i: nat, pc: PC)
    requires Sized(s) && TokenOk(s, AtProc(i)) && SignalsOk(s, AtProc(i)) && i < |s.pc| && s.nextCount == 0
    requires (pc == CvDown || pc == Think || pc == Eat) && HandsOver(s, i)
    ensures SignalsOk(Release(Goto(s, i, pc)), ReleasedTo(s))
  {
    hide TokenOk;
    var r := Release(Goto(s, i, pc));
    forall k | 0 <= k < |s.pc| ensures !Signaller(r.pc[k]) { assert !Signaller(s.pc[k]); }
    forall k | 0 <= k < |s.pc| ensures Lent(r, ReleasedTo(s), k) { assert !Signaller(r.pc[k]); }
  }

  /** A process that leaves while a signaller is suspended was signalled by it, and the
      signaller either waits first in the queue of `next` or is about to take `next`. */
  lemma SuspendedSignaller(s: State, i: nat, put: bool) returns (k: nat)
    requires Sized(s) && Core(s, AtProc(i)) && i < |s.pc| && s.pc[i] == Leave(put) && s.nextCount > 0 && HandsOver(s, i)
    ensures !put && k < |s.pc| && k != i && Signaller(s.pc[k])
    ensures forall a :: 0 <= a < |s.pc| && a != k ==> !Signaller(s.pc[a])
    ensures if Wakes(s.next) then s.next.queue[0] == k && s.pc[k].NextWait? else s.pc[k].SigDown?
  {
    k :| 0 <= k < |s.pc| && Signaller(s.pc[k]);
    assert Lent(s, AtProc(i), k);
    assert Active(s.pc[k]) ==> k == i;
    if Wakes(s.next) {
      assert Signaller(s.pc[s.next.queue[0]]);
    } else {
      assert k !in s.next.queue;
    }
  }

  /** The monitor goes back to the suspended signaller. */
  lemma ToNext(s: State, i: nat, put: bool)
    requires Sized(s) && Core(s, AtProc(i)) && i < |s.pc| && s.pc[i] == Leave(put) && s.nextCount > 0 && HandsOver(s, i)
    ensures !put && SignalsOk(Release(Goto(s, i, if put then Think else Eat)), ReleasedTo(s))
  {
    var k := SuspendedSignaller(s, i, put);
    hide QueuesOk, TokenOk;
    var r := Release(Goto(s, i, Eat));
    assert Signaller(r.pc[k]);
    forall a | 0 <= a < |s.pc| && a != k ensures !Signaller(r.pc[a]) { assert !Signaller(s.pc[a]); }
    forall a | 0 <= a < |s.pc| ensures Lent(r, ReleasedTo(s), a) {}
  }

  lemma ReleaseCore(s: State, i: nat, pc: PC)
    requires Sized(s) && Core(s, AtProc(i)) && i < |s.pc|
    requires (s.pc[i] == CvGive && pc == CvDown) || (s.pc[i] == Leave(true) && pc == Think) ||
      (s.pc[i] == Leave(false) && pc == Eat)
    ensures Core(Release(Goto(s, i, pc)), ReleasedTo(s)) && HandsOver(s, i)
  {
    assert Active(s.pc[i]);
    ReleaseQueues(s, i, pc);
    ReleaseToken(s, i, pc);
    hide HandsOver, Release;
    if s.nextCount > 0 {
      if s.pc[i] == CvGive {
        NoSignallerYet(s, i);
        assert false;
      } else {
        ToNext(s, i, s.pc[i].put);
      }
    } else {
      ToMutex(s, i, pc);
    }
  }

  /** Giving the monitor up changes no food, no counts and nobody's signal. */
  lemma ReleaseTable(s: State, i: nat, pc: PC)
    requires Sized(s) && Table(s, AtProc(i)) && i < |s.pc| && HandsOver(s, i)
    requires (s.pc[i] == CvGive && pc == CvDown) || (s.pc[i] == Leave(true) && pc == Think) ||
      (s.pc[i] == Leave(false) && pc == Eat)
    ensures Table(Release(Goto(s, i, pc)), ReleasedTo(s))
  {
    var r := Release(Goto(s, i, pc));
    var w' := ReleasedTo(s);
    assert SelfOk(s, AtProc(i), i);
    assert Signalled(s, AtProc(i)) == -1 && Signalled(r, w') == -1;
    assert SelfOk(r, w', i);
    SelfSame(s, AtProc(i), r, w', i);
    hide SelfOk;
    FedSame(s, r);
  }

  lemma ReleaseKeeps(s: State, i: nat, pc: PC)
    requires Inv(s, AtProc(i)) && i < |s.pc|
    requires (s.pc[i] == CvGive && pc == CvDown) || (s.pc[i] == Leave(true) && pc == Think) ||
      (s.pc[i] == Leave(false) && pc == Eat)
    ensures Inv(Release(Goto(s, i, pc)), ReleasedTo(s))
  {
    hide Core, Table;
    ReleaseCore(s, i, pc);
    ReleaseTable(s, i, pc);
  }

  // ----- signalling -----

  /** The signaller's `up`: the signalled process is released or finds a unit waiting. */
  function SignalledOn(s: State, i: nat, stage: Stage): (r: State)
    requires Sized(s) && i < |s.pc|
    ensures Sized(r) && |r.pc| == |s.pc|
  {
    var j := Target(|s.pc|, i, stage);
    var s' := Goto(s, i, SigDown(stage));
    s'.(pc := Wake(s'.pc, s.cv[j].sem), cv := s.cv[j := s.cv[j].(sem := Up(s.cv[j].sem))])
  }

  function SignalledTo(s: State, j: nat): Where
    requires Sized(s) && j < |s.pc|
  {
    if s.pc[j] == CvWait then AtProc(j) else AtCv(j)
  }

  /** What signalling j does to the places. */
  lemma SignalPlaces(s: State, i: nat, stage: Stage, j: nat)
    requires Sized(s) && i < |s.pc| && j == Target(|s.pc|, i, stage) && j != i && CvQueuesOk(s) &&
      (s.pc[j] == CvDown || s.pc[j] == CvWait)
    ensures
      var r := SignalledOn(s, i, stage);
      && r.pc == s.pc[i := SigDown(stage)][j := if s.pc[j] == CvWait then CvDec else CvDown]
      && r.cv[j].sem == Sem(if s.pc[j] == CvWait then s.cv[j].sem.value else s.cv[j].sem.value + 1, [])
  {
    assert s.cv[j].sem.queue == if s.pc[j] == CvWait then [j] else [];
  }

  lemma SignalQueues(s: State, i: nat, stage: Stage, j: nat)
    requires Sized(s) && i < |s.pc| && j == Target(|s.pc|, i, stage) && j != i && QueuesOk(s)
    requires s.pc[i] == SigUp(stage) && (s.pc[j] == CvDown || s.pc[j] == CvWait)
    ensures QueuesOk(SignalledOn(s, i, stage))
  {
    SignalPlaces(s, i, stage, j);
    var s1 := Goto(s, i, SigDown(stage));
    BothQueues(s, i, SigDown(stage));
    BothQueues(s1, j, if s.pc[j] == CvWait then CvDec else CvDown);
    hide QueueIs, Ok;
  }

  lemma SignalSignals(s: State, i: nat, stage: Stage, j: nat)
    requires Sized(s) && i < |s.pc| && j == Target(|s.pc|, i, stage) && j != i && CvQueuesOk(s) &&
      SignalsOk(s, AtProc(i))
    requires s.pc[i] == SigUp(stage) && (s.pc[j] == CvDown || s.pc[j] == CvWait)
    ensures SignalsOk(SignalledOn(s, i, stage), SignalledTo(s, j))
  {
    SignalPlaces(s, i, stage, j);
    var r := SignalledOn(s, i, stage);
    hide SignalledOn, CvQueuesOk;
    assert Signaller(s.pc[i]) && Signaller(r.pc[i]);
    forall a | 0 <= a < |s.pc| && a != i ensures !Signaller(r.pc[a]) { assert !Signaller(s.pc[a]); }
    forall k | 0 <= k < |s.pc| ensures Lent(r, SignalledTo(s, j), k) {}
  }

  lemma SignalToken(s: State, i: nat, stage: Stage, j: nat)
    requires Sized(s) && i < |s.pc| && j == Target(|s.pc|, i, stage) && j != i && CvQueuesOk(s) && TokenOk(s, AtProc(i))
    requires s.pc[i] == SigUp(stage) && (s.pc[j] == CvDown || s.pc[j] == CvWait)
    ensures TokenOk(SignalledOn(s, i, stage), SignalledTo(s, j))
  {
    hide Target;
    var r := SignalledOn(s, i, stage);
    var w' := SignalledTo(s, j);
    SignalPlaces(s, i, stage, j);
    assert r.mutex == s.mutex && r.next == s.next && forall c :: 0 <= c < |s.pc| && c != j ==> r.cv[c] == s.cv[c];
    hide CvQueuesOk, SignalledOn;
    forall k | 0 <= k < |s.pc| ensures Active(r.pc[k]) <==> w' == AtProc(k) { assert k != i ==> !Active(s.pc[k]); }
  }

  /** The signalled process is on its way out; nobody is being signalled any more. */
  lemma SignalSelf(s: State, r: State, i: nat, stage: Stage, j: nat)
    requires Sized(s) && Sized(r) && i < |s.pc| == |r.pc| && j == Target(|s.pc|, i, stage) && j != i
    requires s.pc[i] == SigUp(stage) && (s.pc[j] == CvDown || s.pc[j] == CvWait)
    requires r.food == s.food && (forall k :: 0 <= k < |s.pc| ==> r.cv[k].count == s.cv[k].count)
    requires r.pc == s.pc[i := SigDown(stage)][j := if s.pc[j] == CvWait then CvDec else CvDown]
    requires forall k :: 0 <= k < |s.pc| ==> SelfOk(s, AtProc(i), k)
    ensures forall k :: 0 <= k < |s.pc| ==> SelfOk(r, SignalledTo(s, j), k)
  {
    var w' := SignalledTo(s, j);
    assert Signalled(s, AtProc(i)) == j && Signalled(r, w') == -1;
    assert w' == AtCv(j) || w' == AtProc(j);
    hide Signalled, Target;
    assert SelfOk(r, w', i) by { assert SelfOk(s, AtProc(i), i); }
    assert SelfOk(r, w', j) by { assert SelfOk(s, AtProc(i), j); }
    forall k | 0 <= k < |s.pc| && k != i && k != j ensures SelfOk(r, w', k) {
      assert SelfOk(s, AtProc(i), k);
    }
  }

  lemma SignalTable(s: State, i: nat, stage: Stage, j: nat)
    requires Sized(s) && i < |s.pc| && j == Target(|s.pc|, i, stage) && j != i && CvQueuesOk(s) && Table(s, AtProc(i))
    requires s.pc[i] == SigUp(stage) && (s.pc[j] == CvDown || s.pc[j] == CvWait)
    ensures Table(SignalledOn(s, i, stage), SignalledTo(s, j))
  {
    hide SelfOk;
    var r := SignalledOn(s, i, stage);
    SignalPlaces(s, i, stage, j);
    hide CvQueuesOk;
    SignalSelf(s, r, i, stage, j);
    FedSame(s, r);
  }

  lemma SigUpKeeps(s: State, i: nat, stage: Stage)
    requires Inv(s, AtProc(i)) && i < |s.pc| && s.pc[i] == SigUp(stage)
    ensures Inv(SignalledOn(s, i, stage), SignalledTo(s, Target(|s.pc|, i, stage)))
  {
    var j := Target(|s.pc|, i, stage);
    assert stage != Self by { assert SelfOk(s, AtProc(i), i); }
    assert j != i by { P.Neighbours(|s.pc|, i); }
    assert s.pc[j] == CvDown || s.pc[j] == CvWait by {
      assert SelfOk(s, AtProc(i), j);
      assert BeingSignalled(s, AtProc(i), j);
    }
    SignalTable(s, i, stage, j);
    hide Table, Target, SelfOk;
    SignalQueues(s, i, stage, j);
    SignalSignals(s, i, stage, j);
    SignalToken(s, i, stage, j);
    hide TokenOk, SignalsOk, QueuesOk, SignalledOn;
  }

  // ----- the signaller waits for its turn -----

  function Suspended(s: State, i: nat, stage: Stage): (r: State)
    requires Sized(s) && i < |s.pc|
    ensures Sized(r) && |r.pc| == |s.pc|
  {
    Goto(s, i, if Passes(s.next) then SigDec(stage) else NextWait(stage)).(next := Down(s.next, i))
  }

  lemma SuspendQueues(s: State, i: nat, stage: Stage)
    requires Sized(s) && QueuesOk(s) && i < |s.pc| && s.pc[i] == SigDown(stage)
    ensures QueuesOk(Suspended(s, i, stage))
  {
    var r := Suspended(s, i, stage);
    QueueJoin(s.next, s.pc, i, r.pc[i], OnNext);
    QueueMove(s.mutex.queue, s.pc, i, r.pc[i], OnMutex);
    hide QueueIs, Ok;
  }

  lemma SuspendSignals(s: State, w: Where, i: nat, stage: Stage)
    requires Sized(s) && SignalsOk(s, w) && i < |s.pc| && s.pc[i] == SigDown(stage) && (Passes(s.next) <==> w == AtNext)
    ensures SignalsOk(Suspended(s, i, stage), if Passes(s.next) then AtProc(i) else w)
  {
    var r := Suspended(s, i, stage);
    var w' := if Passes(s.next) then AtProc(i) else w;
    assert Lent(s, w, i);
    assert Signaller(s.pc[i]) && Signaller(r.pc[i]);
    forall a | 0 <= a < |s.pc| && a != i ensures !Signaller(r.pc[a]) { assert !Signaller(s.pc[a]); }
    forall k | 0 <= k < |s.pc| ensures Lent(r, w', k) {}
  }

  lemma SuspendTable(s: State, w: Where, i: nat, stage: Stage)
    requires Sized(s) && Table(s, w) && i < |s.pc| && s.pc[i] == SigDown(stage) &&
      (Passes(s.next) <==> w == AtNext) && w != AtProc(i)
    ensures Table(Suspended(s, i, stage), if Passes(s.next) then AtProc(i) else w)
  {
    var r := Suspended(s, i, stage);
    var w' := if Passes(s.next) then AtProc(i) else w;
    assert Signalled(r, w') == Signalled(s, w);
    assert SelfOk(s, w, i);
    assert SelfOk(r, w', i);
    SelfSame(s, w, r, w', i);
    hide SelfOk;
    FedSame(s, r);
  }

  lemma SigDownKeeps(s: State, w: Where, i: nat, stage: Stage)
    requires Inv(s, w) && i < |s.pc| && s.pc[i] == SigDown(stage)
    ensures Inv(Suspended(s, i, stage), if Passes(s.next) then AtProc(i) else w)
  {
    hide QueuesOk, SignalsOk, Table;
    var w' := if Passes(s.next) then AtProc(i) else w;
    assert w != AtProc(i) && (Passes(s.next) <==> w == AtNext) by { assert !Active(s.pc[i]); }
    assert TokenOk(Suspended(s, i, stage), w');
    SuspendQueues(s, i, stage);
    SuspendSignals(s, w, i, stage);
    SuspendTable(s, w, i, stage);
  }

  // ----- a process waits for its condition -----

  function Awaiting(s: State, i: nat): (r: State)
    requires Sized(s) && i < |s.pc|
    ensures Sized(r) && |r.pc| == |s.pc|
  {
    Goto(s, i, if Passes(s.cv[i].sem) then CvDec else CvWait).(cv := s.cv[i := s.cv[i].(sem := Down(s.cv[i].sem, i))])
  }

  lemma AwaitQueues(s: State, i: nat)
    requires Sized(s) && QueuesOk(s) && i < |s.pc| && s.pc[i] == CvDown
    ensures QueuesOk(Awaiting(s, i))
  {
    BothQueues(s, i, Awaiting(s, i).pc[i]);
    hide QueueIs, Ok;
  }

  lemma AwaitSignals(s: State, w: Where, i: nat)
    requires Sized(s) && SignalsOk(s, w) && i < |s.pc| && s.pc[i] == CvDown && (Passes(s.cv[i].sem) <==> w == AtCv(i))
    ensures SignalsOk(Awaiting(s, i), if Passes(s.cv[i].sem) then AtProc(i) else w)
  {
    var r := Awaiting(s, i);
    var w' := if Passes(s.cv[i].sem) then AtProc(i) else w;
    forall k | 0 <= k < |s.pc| ensures Lent(r, w', k) { assert Lent(s, w, k); }
    SignalsSame(s, w, r, w');
  }

  lemma AwaitTable(s: State, w: Where, i: nat)
    requires Sized(s) && Table(s, w) && i < |s.pc| && s.pc[i] == CvDown && (Passes(s.cv[i].sem) <==> w == AtCv(i)) &&
      w != AtProc(i)
    ensures Table(Awaiting(s, i), if Passes(s.cv[i].sem) then AtProc(i) else w)
  {
    var r := Awaiting(s, i);
    var w' := if Passes(s.cv[i].sem) then AtProc(i) else w;
    assert Signalled(r, w') == Signalled(s, w);
    assert SelfOk(s, w, i);
    assert SelfOk(r, w', i);
    SelfSame(s, w, r, w', i);
    hide SelfOk;
    FedSame(s, r);
  }

  lemma CvDownKeeps(s: State, w: Where, i: nat)
    requires Inv(s, w) && i < |s.pc| && s.pc[i] == CvDown
    ensures Inv(Awaiting(s, i), if Passes(s.cv[i].sem) then AtProc(i) else w)
  {
    hide QueuesOk, SignalsOk, Table;
    var w' := if Passes(s.cv[i].sem) then AtProc(i) else w;
    assert w != AtProc(i) && (Passes(s.cv[i].sem) <==> w == AtCv(i)) by { assert !Active(s.pc[i]); }
    assert TokenOk(Awaiting(s, i), w');
    AwaitQueues(s, i);
    AwaitSignals(s, w, i);
    AwaitTable(s, w, i);
  }

  // ----- every step and every run -----

  /** Where the token is after a step. */
  function TokenAfter(s: State, w: Where, i: nat, quits: bool): Where
    requires Sized(s) && i < |s.pc|
  {
    match s.pc[i]
    case Think => if !quits && Passes(s.mutex) then AtProc(i) else w
    case Eat => if Passes(s.mutex) then AtProc(i) else w
    case SigUp(stage) => SignalledTo(s, Target(|s.pc|, i, stage))
    case SigDown(_) => if Passes(s.next) then AtProc(i) else w
    case CvGive => ReleasedTo(s)
    case CvDown => if Passes(s.cv[i].sem) then AtProc(i) else w
    case Leave(_) => ReleasedTo(s)
    case _ => w
  }

  lemma ActiveHolds(s: State, w: Where, i: nat)
    requires Inv(s, w) && i < |s.pc| && Active(s.pc[i])
    ensures w == AtProc(i)
  {
  }

  lemma ActiveStepKeeps(s: State, i: nat, quits: bool)
    requires Inv(s, AtProc(i)) && i < |s.pc| && Active(s.pc[i])
    ensures Inv(Step(s, i, quits), TokenAfter(s, AtProc(i), i, quits))
  {
    assert Sized(s);
    hide Inv, Release, ReleasedTo, CanEat, Wake;
    match s.pc[i]
    case SetHungry => SetHungryKeeps(s, i);
    case SetThinking => SetThinkingKeeps(s, i);
    case Test(stage) => TestKeeps(s, i, stage);
    case SigInc(_) => SigIncKeeps(s, i);
    case SigUp(stage) => SigUpKeeps(s, i, stage);
    case SigDec(_) => SigDecKeeps(s, i);
    case CvGive => ReleaseKeeps(s, i, CvDown);
    case Leave(put) => ReleaseKeeps(s, i, if put then Think else Eat);
    case Check => OwnMoveKeeps(s, Step(s, i, quits), i);
    case CvInc => OwnMoveKeeps(s, Step(s, i, quits), i);
    case CvDec => OwnMoveKeeps(s, Step(s, i, quits), i);
    case _ => assert false;
  }

  /** Every step of every process keeps the invariant. */
  lemma StepKeeps(s: State, w: Where, i: nat, quits: bool)
    requires Inv(s, w) && i < |s.pc| && Runnable(s, i)
    ensures Inv(Step(s, i, quits), TokenAfter(s, w, i, quits))
  {
    if Active(s.pc[i]) {
      ActiveHolds(s, w, i);
      ActiveStepKeeps(s, i, quits);
    } else {
      hide Inv, Release, ReleasedTo, CanEat, Wake;
      match s.pc[i]
      case Think => if quits { QuitKeeps(s, w, i); } else { EnterKeeps(s, w, i, false); }
      case Eat => EnterKeeps(s, w, i, true);
      case SigDown(stage) => SigDownKeeps(s, w, i, stage);
      case CvDown => CvDownKeeps(s, w, i);
      case _ => assert false;
    }
  }
}
