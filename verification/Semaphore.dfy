/** Counting semaphores with hand-off: a process that is woken owns the unit it waited
    for, so `up` with a waiter does not raise the count. */
module Semaphore {
  import opened Counting

  type Pid = nat

  datatype Sem = Sem(value: nat, queue: seq<Pid>)

  /** The first waiter, if any, is released; otherwise the count goes up. */
  function Up(s: Sem): Sem {
    if s.queue == [] then s.(value := s.value + 1) else s.(queue := s.queue[1..])
  }

  predicate Wakes(s: Sem) {
    s.queue != []
  }

  predicate Passes(s: Sem) {
    s.value > 0
  }

  /** A unit is taken if there is one; otherwise p waits at the end of the queue. */
  function Down(s: Sem, p: Pid): Sem {
    if s.value > 0 then s.(value := s.value - 1) else s.(queue := s.queue + [p])
  }

  /** Nobody waits while there is a unit, and nobody waits twice. */
  ghost predicate Ok(s: Sem) {
    (s.value > 0 ==> s.queue == []) && Distinct(s.queue)
  }

  lemma DownOk(s: Sem, p: Pid)
    requires Ok(s) && p !in s.queue
    ensures Ok(Down(s, p))
  {
  }

  lemma UpOk(s: Sem)
    requires Ok(s)
    ensures Ok(Up(s))
    ensures Wakes(s) ==> s.queue[0] !in Up(s).queue && forall p :: p in s.queue ==> p == s.queue[0] || p in Up(s).queue
    ensures forall p :: p in Up(s).queue ==> p in s.queue
  {
    if Wakes(s) {
      assert s.queue == [s.queue[0]] + s.queue[1..];
    }
  }

  /** The kernel object: a count and a queue of waiters, oldest first. */
  class KernelSemaphore {
    var value: nat
    var queue: seq<Pid>

    function S(): Sem
      reads this
    {
      Sem(value, queue)
    }

    constructor (v: nat)
      ensures S() == Sem(v, []) && Ok(S())
    {
      value, queue := v, [];
    }

    /** Returns the process to make runnable, if there is one. */
    method Signal() returns (woken: seq<Pid>)
      requires Ok(S())
      modifies this
      ensures S() == Up(old(S())) && Ok(S())
      ensures woken == if Wakes(old(S())) then [old(queue)[0]] else []
    {
      UpOk(S());
      if |queue| == 0 {
        value := value + 1;
        woken := [];
      } else {
        woken := [queue[0]];
        queue := queue[1..];
      }
    }

    /** Returns whether the caller must sleep. */
    method Wait(p: Pid) returns (sleeps: bool)
      requires Ok(S()) && p !in queue
      modifies this
      ensures S() == Down(old(S()), p) && Ok(S())
      ensures sleeps <==> !Passes(old(S()))
    {
      DownOk(S(), p);
      if value > 0 {
        value := value - 1;
        return false;
      }
      queue := queue + [p];
      return true;
    }

    method TryDown() returns (ok: bool)
      requires Ok(S())
      modifies this
      ensures ok <==> old(value) > 0
      ensures S() == if ok then old(S()).(value := old(value) - 1) else old(S())
      ensures Ok(S())
    {
      ok := value > 0;
      if ok {
        value := value - 1;
      }
    }
  }
}
