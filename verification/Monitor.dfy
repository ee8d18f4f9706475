/** The dining philosophers on a Hoare monitor built from hand-off semaphores, for any
    number of philosophers and any interleaving.  The right to run inside the monitor is
    a single token that is at the mutex, at `next`, at a condition's semaphore or with a
    process. */
module Monitor {
  import opened Semaphore
  import P = SemPhilosophers

  type Food = P.Food

  /** Which test of the monitor procedures a process is in. */
  datatype Stage = Self | LeftSide | RightSide

  /** take: enter, SetHungry, Test(Self), Check, perhaps cond_wait (CvInc, CvGive, CvDown,
      CvWait, CvDec), Leave; put: enter, SetThinking, Test(LeftSide), Test(RightSide),
      Leave.  A test may go through cond_signal (SigInc, SigUp, SigDown, NextWait,
      SigDec). */
  datatype PC =
    | Think | Eat | Quit
    | EnterWait(put: bool) | SetHungry | SetThinking
    | Test(stage: Stage)
    | SigInc(stage: Stage) | SigUp(stage: Stage) | SigDown(stage: Stage) | NextWait(stage: Stage) | SigDec(stage: Stage)
    | Check | CvInc | CvGive | CvDown | CvWait | CvDec
    | Leave(put: bool)

  datatype Cv = Cv(count: int, sem: Sem)

  datatype State = State(pc: seq<PC>, food: seq<Food>, mutex: Sem, next: Sem, nextCount: int, cv: seq<Cv>)

  predicate Sized(s: State) {
    |s.pc| >= 2 && |s.food| == |s.pc| && |s.cv| == |s.pc|
  }

  function Start(n: nat): State {
    State(seq(n, _ => Think), seq(n, _ => P.Thinking), Sem(1, []), Sem(0, []), 0, seq(n, _ => Cv(0, Sem(0, []))))
  }

  predicate CanEat(s: State, i: nat)
    requires Sized(s) && i < |s.pc|
  {
    var n := |s.pc|;
    s.food[i] == P.Hungry && s.food[P.Left(n, i)] != P.Eating && s.food[P.Right(n, i)] != P.Eating
  }

  /** Whom a process tests. */
  function Target(n: nat, i: nat, stage: Stage): (r: nat)
    requires i < n
    ensures r < n
  {
    match stage
    case Self => i
    case LeftSide => P.Left(n, i)
    case RightSide => P.Right(n, i)
  }

  /** Where a process goes when its test is over. */
  function After(stage: Stage): PC {
    match stage
    case Self => Check
    case LeftSide => Test(RightSide)
    case RightSide => Leave(true)
  }

  /** Where a process goes when it is handed what it waited for. */
  function Resume(pc: PC): PC {
    match pc
    case EnterWait(put) => if put then SetThinking else SetHungry
    case NextWait(stage) => SigDec(stage)
    case CvWait => CvDec
    case _ => pc
  }

  function Wake(pc: seq<PC>, sem: Sem): (r: seq<PC>)
    ensures |r| == |pc|
  {
    if Wakes(sem) && sem.queue[0] < |pc| then pc[sem.queue[0] := Resume(pc[sem.queue[0]])] else pc
  }

  /** Give the monitor up: to a suspended signaller if there is one, else to the mutex. */
  function Release(s: State): (r: State)
    requires Sized(s)
    ensures Sized(r) && |r.pc| == |s.pc|
  {
    if s.nextCount > 0 then s.(pc := Wake(s.pc, s.next), next := Up(s.next))
    else s.(pc := Wake(s.pc, s.mutex), mutex := Up(s.mutex))
  }

  predicate Blocked(pc: PC) {
    pc.EnterWait? || pc.NextWait? || pc.CvWait?
  }

  predicate Runnable(s: State, i: nat)
    requires Sized(s) && i < |s.pc|
  {
    !Blocked(s.pc[i]) && s.pc[i] != Quit
  }

  function Goto(s: State, i: nat, pc: PC): (r: State)
    requires Sized(s) && i < |s.pc|
    ensures Sized(r) && |r.pc| == |s.pc|
  {
    s.(pc := s.pc[i := pc])
  }

  /** One step of philosopher i; a thinking one may quit instead of taking forks. */
  function Step(s: State, i: nat, quits: bool): (r: State)
    requires Sized(s) && i < |s.pc| && Runnable(s, i)
    ensures Sized(r) && |r.pc| == |s.pc|
  {
    var n := |s.pc|;
    match s.pc[i]
    case Think =>
      if quits then Goto(s, i, Quit)
      else Goto(s, i, if Passes(s.mutex) then SetHungry else EnterWait(false)).(mutex := Down(s.mutex, i))
    case Eat => Goto(s, i, if Passes(s.mutex) then SetThinking else EnterWait(true)).(mutex := Down(s.mutex, i))
    case SetHungry => Goto(s, i, Test(Self)).(food := s.food[i := P.Hungry])
    case SetThinking => Goto(s, i, Test(LeftSide)).(food := s.food[i := P.Thinking])
    case Test(stage) =>
      var j := Target(n, i, stage);
      if CanEat(s, j) then
        Goto(s, i, if s.cv[j].count > 0 then SigInc(stage) else After(stage)).(food := s.food[j := P.Eating])
      else Goto(s, i, After(stage))
    case SigInc(stage) => Goto(s, i, SigUp(stage)).(nextCount := s.nextCount + 1)
    case SigUp(stage) =>
      var j := Target(n, i, stage);
      var s' := Goto(s, i, SigDown(stage));
      s'.(pc := Wake(s'.pc, s.cv[j].sem), cv := s.cv[j := s.cv[j].(sem := Up(s.cv[j].sem))])
    case SigDown(stage) =>
      Goto(s, i, if Passes(s.next) then SigDec(stage) else NextWait(stage)).(next := Down(s.next, i))
    case SigDec(stage) => Goto(s, i, After(stage)).(nextCount := s.nextCount - 1)
    case Check => Goto(s, i, if s.food[i] != P.Eating then CvInc else Leave(false))
    case CvInc => Goto(s, i, CvGive).(cv := s.cv[i := s.cv[i].(count := s.cv[i].count + 1)])
    case CvGive => Release(Goto(s, i, CvDown))
    case CvDown =>
      Goto(s, i, if Passes(s.cv[i].sem) then CvDec else CvWait).(cv := s.cv[i := s.cv[i].(sem := Down(s.cv[i].sem, i))])
    case CvDec => Goto(s, i, Leave(false)).(cv := s.cv[i := s.cv[i].(count := s.cv[i].count - 1)])
    case Leave(put) => Release(Goto(s, i, if put then Think else Eat))
    case _ => s
  }

  // ----- the token -----

  datatype Where = AtMutex | AtNext | AtCv(cv: nat) | AtProc(proc: nat)

  /** Inside the monitor and allowed to run. */
  predicate Active(pc: PC) {
    match pc
    case SetHungry => true
    case SetThinking => true
    case Test(_) => true
    case SigInc(_) => true
    case SigUp(_) => true
    case SigDec(_) => true
    case Check => true
    case CvInc => true
    case CvGive => true
    case CvDec => true
    case Leave(_) => true
    case _ => false
  }

  /** There is exactly one token. */
  ghost predicate TokenOk(s: State, w: Where)
    requires Sized(s)
  {
    && s.mutex.value == (if w == AtMutex then 1 else 0)
    && s.next.value == (if w == AtNext then 1 else 0)
    && (forall j :: 0 <= j < |s.pc| ==> s.cv[j].sem.value == if w == AtCv(j) then 1 else 0)
    && (forall i :: 0 <= i < |s.pc| ==> (Active(s.pc[i]) <==> w == AtProc(i)))
    && (w.AtCv? ==> w.cv < |s.pc|) && (w.AtProc? ==> w.proc < |s.pc|)
  }

  datatype Wait = NoWait | OnMutex | OnNext | OnCv

  function WaitOf(pc: PC): Wait {
    match pc
    case EnterWait(_) => OnMutex
    case NextWait(_) => OnNext
    case CvWait => OnCv
    case _ => NoWait
  }

  /** The queue holds exactly the processes that wait for the given reason. */
  ghost predicate QueueIs(q: seq<nat>, pc: seq<PC>, why: Wait) {
    && (forall p :: p in q ==> p < |pc| && WaitOf(pc[p]) == why)
    && (forall p :: 0 <= p < |pc| && WaitOf(pc[p]) == why ==> p in q)
  }

  ghost predicate MutexQueueOk(s: State) {
    Ok(s.mutex) && QueueIs(s.mutex.queue, s.pc, OnMutex)
  }

  ghost predicate NextQueueOk(s: State) {
    Ok(s.next) && QueueIs(s.next.queue, s.pc, OnNext)
  }

  ghost predicate CvQueuesOk(s: State)
    requires Sized(s)
  {
    forall i :: 0 <= i < |s.pc| ==> s.cv[i].sem.queue == if s.pc[i] == CvWait then [i] else []
  }

  /** The queues hold exactly the processes that wait. */
  ghost predicate QueuesOk(s: State)
    requires Sized(s)
  {
    MutexQueueOk(s) && NextQueueOk(s) && CvQueuesOk(s)
  }

  /** Between next_count++ and next_count--. */
  predicate Signaller(pc: PC) {
    pc.SigUp? || pc.SigDown? || pc.NextWait? || pc.SigDec?
  }

  /** A suspended signaller has given its token to the process it signalled, which is on
      its way out, or gets it back. */
  ghost predicate Lent(s: State, w: Where, k: nat)
    requires Sized(s) && k < |s.pc|
  {
    s.pc[k].SigDown? || s.pc[k].NextWait? ==>
      var j := Target(|s.pc|, k, s.pc[k].stage);
      || (w == AtCv(j) && s.pc[j] == CvDown)
      || (w == AtProc(j) && (s.pc[j] == CvDec || s.pc[j] == Leave(false)))
      || (w == AtNext && s.pc[k].SigDown?)
  }

  /** There is at most one signaller, and next_count counts it. */
  ghost predicate SignalsOk(s: State, w: Where)
    requires Sized(s)
  {
    && (forall a, b :: 0 <= a < b < |s.pc| ==> !(Signaller(s.pc[a]) && Signaller(s.pc[b])))
    && (forall k :: 0 <= k < |s.pc| && Signaller(s.pc[k]) ==> s.nextCount == 1)
    && 0 <= s.nextCount <= 1
    && (s.nextCount == 1 ==> exists k :: 0 <= k < |s.pc| && Signaller(s.pc[k]))
    && (forall k :: 0 <= k < |s.pc| ==> Lent(s, w, k))
    && (w == AtNext ==> exists k :: 0 <= k < |s.pc| && s.pc[k].SigDown?)
  }

  /** Whom the process with the token is signalling, or -1. */
  function Signalled(s: State, w: Where): int
    requires Sized(s)
  {
    if w.AtProc? && w.proc < |s.pc| && (s.pc[w.proc].SigInc? || s.pc[w.proc].SigUp?)
    then Target(|s.pc|, w.proc, s.pc[w.proc].stage)
    else -1
  }

  predicate BeingSignalled(s: State, w: Where, i: nat)
    requires Sized(s) && i < |s.pc|
  {
    Signalled(s, w) == i
  }

  predicate InCondWait(pc: PC) {
    pc == CvGive || pc == CvDown || pc == CvWait || pc == CvDec
  }

  /** What a philosopher's place says about it. */
  ghost predicate SelfOk(s: State, w: Where, i: nat)
    requires Sized(s) && i < |s.pc|
  {
    && s.cv[i].count == (if InCondWait(s.pc[i]) then 1 else 0)
    && (w == AtCv(i) ==> s.pc[i] == CvDown)
    && (BeingSignalled(s, w, i) ==> s.pc[i] == CvDown || s.pc[i] == CvWait)
    && match s.pc[i]
       case Think => s.food[i] == P.Thinking
       case Quit => s.food[i] == P.Thinking
       case EnterWait(put) => s.food[i] == if put then P.Eating else P.Thinking
       case SetHungry => s.food[i] == P.Thinking
       case SetThinking => s.food[i] == P.Eating
       case Eat => s.food[i] == P.Eating
       case Test(stage) => s.food[i] == if stage == Self then P.Hungry else P.Thinking
       case Check => s.food[i] != P.Thinking
       case CvInc => s.food[i] == P.Hungry
       case CvGive => s.food[i] == P.Hungry
       case CvDown => s.food[i] == if w == AtCv(i) || BeingSignalled(s, w, i) then P.Eating else P.Hungry
       case CvWait => s.food[i] == if BeingSignalled(s, w, i) then P.Eating else P.Hungry
       case CvDec => s.food[i] == P.Eating
       case Leave(put) => s.food[i] == if put then P.Thinking else P.Eating
       case _ => s.food[i] == P.Thinking && s.pc[i].stage != Self
  }

  ghost predicate Apart(s: State, i: nat)
    requires Sized(s) && i < |s.pc|
  {
    s.food[i] == P.Eating ==> s.food[P.Right(|s.pc|, i)] != P.Eating
  }

  /** A process in this place still has its right neighbour to test. */
  predicate OwesRight(pc: PC) {
    match pc
    case Test(stage) => stage != Self
    case SigInc(stage) => stage == LeftSide
    case SigUp(stage) => stage == LeftSide
    case SigDown(stage) => stage == LeftSide
    case NextWait(stage) => stage == LeftSide
    case SigDec(stage) => stage == LeftSide
    case _ => false
  }

  ghost predicate Served(s: State, i: nat)
    requires Sized(s) && i < |s.pc|
  {
    CanEat(s, i) ==>
      || s.pc[i] == Test(Self)
      || s.pc[P.Right(|s.pc|, i)] == Test(LeftSide)
      || OwesRight(s.pc[P.Left(|s.pc|, i)])
  }

  /** The monitor: one token, right queues, at most one suspended signaller. */
  ghost predicate Core(s: State, w: Where)
    requires Sized(s)
  {
    TokenOk(s, w) && QueuesOk(s) && SignalsOk(s, w)
  }

  /** The table: places and foods fit, neighbours do not eat together, the hungry wait for
      a neighbour or a test. */
  ghost predicate Table(s: State, w: Where)
    requires Sized(s)
  {
    && (forall i :: 0 <= i < |s.pc| ==> SelfOk(s, w, i))
    && Fed(s)
  }

  ghost predicate Fed(s: State)
    requires Sized(s)
  {
    forall i :: 0 <= i < |s.pc| ==> Apart(s, i) && Served(s, i)
  }

  ghost predicate Inv(s: State, w: Where) {
    Sized(s) && Core(s, w) && Table(s, w)
  }

  lemma StartInv(n: nat)
    requires n >= 2
    ensures Inv(Start(n), AtMutex)
  {
  }
}
