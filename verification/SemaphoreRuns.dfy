/** Runs of a semaphore: units are conserved and waiters are served in order of arrival. */
module SemaphoreRuns {
  import opened Semaphore

  datatype Op = Ups | Downs(p: Pid)

  function Do(s: Sem, op: Op): Sem {
    match op
    case Ups => Up(s)
    case Downs(p) => Down(s, p)
  }

  function After(s: Sem, ops: seq<Op>): Sem {
    if ops == [] then s else Do(After(s, ops[..|ops| - 1]), ops[|ops| - 1])
  }

  function UpsIn(ops: seq<Op>): nat {
    if ops == [] then 0 else UpsIn(ops[..|ops| - 1]) + if ops[|ops| - 1].Ups? then 1 else 0
  }

  /** Units are conserved: the count less the number of waiters goes up by one with every up
      and down by one with every down. */
  lemma {:induction false} Balance(s: Sem, ops: seq<Op>)
    ensures var r := After(s, ops); r.value - |r.queue| == s.value - |s.queue| + 2 * UpsIn(ops) - |ops|
  {
    if ops != [] {
      Balance(s, ops[..|ops| - 1]);
    }
  }

  /** Waiters are served in order of arrival: one with `at` others before it moves up by one
      with every up, is woken by the (at + 1)-st, and nobody who comes later passes it. */
  lemma {:induction false} WokenInTurn(s: Sem, ops: seq<Op>, at: nat)
    requires Ok(s) && at < |s.queue| && UpsIn(ops) <= at
    ensures
      var r := After(s, ops);
      && r.value == 0 && at - UpsIn(ops) < |r.queue|
      && forall k :: 0 <= k <= at - UpsIn(ops) ==> r.queue[k] == s.queue[k + UpsIn(ops)]
  {
    if ops != [] {
      WokenInTurn(s, ops[..|ops| - 1], at);
    }
  }

  /** A process that has to wait is the last in line. */
  lemma WaitsLast(s: Sem, p: Pid)
    requires Ok(s) && !Passes(s)
    ensures Down(s, p).queue[..|s.queue|] == s.queue && Down(s, p).queue[|s.queue|..] == [p]
  {
  }
}
