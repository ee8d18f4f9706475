/** Process identifiers: a search with a cached gap of free identifiers behind the last one
    handed out. */
module PidAllocator {
  import opened Counting

  const MAX_PROCESS := 4096
  const MAX_PID := 2 * MAX_PROCESS

  /** The cyclic successor among the identifiers 1 .. MAX_PID - 1. */
  function Next(p: nat): (r: nat)
    ensures 1 <= r < MAX_PID
  {
    if p + 1 >= MAX_PID then 1 else p + 1
  }

  function Iter(p: nat, k: nat): (r: nat)
    ensures k > 0 ==> 1 <= r < MAX_PID
  {
    if k == 0 then p else Next(Iter(p, k - 1))
  }

  /** The first free identifier behind `last` in cyclic order. */
  ghost predicate FirstFree(last: nat, live: seq<nat>, r: nat) {
    exists k :: FoundAfter(last, live, r, k)
  }

  ghost predicate FoundAfter(last: nat, live: seq<nat>, r: nat, k: nat) {
    k >= 1 && r == Iter(last, k) && r !in live && forall j :: 1 <= j < k ==> Iter(last, j) in live
  }

  /** Nobody holds an identifier strictly between the two. */
  ghost predicate GapFree(last: nat, safe: nat, live: seq<nat>) {
    1 <= last <= MAX_PID && safe <= MAX_PID && forall p :: p in live ==> !(last < p < safe)
  }

  /** How far `last` is from a given free identifier, going up and around. */
  function Distance(last: nat, free: nat): (r: nat)
    requires 1 <= last < MAX_PID && 1 <= free < MAX_PID
  {
    if last <= free then free - last else MAX_PID - last + free - 1
  }

  ghost predicate Free(p: nat, live: seq<nat>) {
    1 <= p < MAX_PID && p !in live
  }

  lemma {:induction false} ElementsBound(a: seq<nat>)
    ensures |Elements(a)| <= |a|
  {
    if a != [] {
      ElementsBound(a[..|a| - 1]);
    }
  }

  /** There are more identifiers than processes. */
  lemma FreePidExists(live: seq<nat>)
    requires |live| < MAX_PID - 1
    ensures exists p :: Free(p, live)
  {
    ElementsBound(live);
    var all := NumbersBelow(MAX_PID) - {0};
    if all <= Elements(live) {
      SubsetCard(all, Elements(live));
    }
    assert exists p :: p in all && p !in Elements(live);
    var p :| p in all && p !in Elements(live);
    assert Free(p, live);
  }

  class Pids {
    var lastPid: nat
    var nextSafe: nat

    constructor ()
      ensures lastPid == nextSafe == MAX_PID && GapFree(lastPid, nextSafe, [])
    {
      lastPid, nextSafe := MAX_PID, MAX_PID;
    }

    /** Returns the first free identifier behind the last one, whatever the order of the
        process list; terminates because some identifier is free. */
    method GetPid(live: seq<nat>) returns (pid: nat)
      requires GapFree(lastPid, nextSafe, live) && exists p :: Free(p, live)
      modifies this
      ensures pid == lastPid && 1 <= pid < MAX_PID && pid !in live
      ensures FirstFree(old(lastPid), live, pid)
      ensures GapFree(lastPid, nextSafe, live)
      ensures nextSafe == old(nextSafe) || nextSafe == MAX_PID || nextSafe in live
    {
      ghost var from := lastPid;
      lastPid := lastPid + 1;
      if lastPid >= MAX_PID {
        lastPid := 1;
        Scan(live, from);
      } else if lastPid >= nextSafe {
        Scan(live, from);
      } else {
        assert Iter(from, 0) == from;
        assert FoundAfter(from, live, lastPid, 1);
      }
      pid := lastPid;
    }

    /** The search from lastPid, which starts over when it runs into the known gap's end. */
    method Scan(live: seq<nat>, ghost from: nat)
      requires 1 <= lastPid < MAX_PID && lastPid == Next(from) && exists p :: Free(p, live)
      modifies this
      ensures 1 <= lastPid < MAX_PID && lastPid !in live && FirstFree(from, live, lastPid)
      ensures GapFree(lastPid, nextSafe, live) && (nextSafe == MAX_PID || nextSafe in live)
    {
      ghost var free :| Free(free, live);
      ghost var k := 1;
      assert Iter(from, 0) == from;
      nextSafe := MAX_PID;
      var i := 0;
      while i < |live|
        invariant i <= |live| && 1 <= lastPid < nextSafe <= MAX_PID && (nextSafe == MAX_PID || nextSafe in live)
        invariant forall j :: 0 <= j < i ==> !(lastPid <= live[j] < nextSafe)
        invariant k >= 1 && lastPid == Iter(from, k) && forall j :: 1 <= j < k ==> Iter(from, j) in live
        decreases Distance(lastPid, free), |live| - i
      {
        if live[i] == lastPid {
          k := k + 1;
          lastPid := lastPid + 1;
          if lastPid >= nextSafe {
            if lastPid >= MAX_PID {
              lastPid := 1;
            }
            nextSafe := MAX_PID;
            i := 0;
          } else {
            i := i + 1;
          }
        } else {
          if live[i] > lastPid && nextSafe > live[i] {
            nextSafe := live[i];
          }
          i := i + 1;
        }
      }
      assert FoundAfter(from, live, lastPid, k);
    }
  }

  // ----- forks and exits -----

  datatype State = State(last: nat, safe: nat, live: seq<nat>)

  /** What a call of GetPid does to the cached range. */
  ghost predicate Got(s: State, last': nat, safe': nat) {
    && 1 <= last' < MAX_PID && last' !in s.live && FirstFree(s.last, s.live, last')
    && GapFree(last', safe', s.live)
  }

  /** A fork puts the new process anywhere into the list, and only below the limit. */
  ghost predicate Fork(s: State, s': State, at: nat) {
    && |s.live| + 1 < MAX_PROCESS && at <= |s.live| && Got(s, s'.last, s'.safe)
    && s'.live == s.live[..at] + [s'.last] + s.live[at..]
  }

  ghost predicate Exit(s: State, s': State, at: nat) {
    at < |s.live| && s' == s.(live := s.live[..at] + s.live[at + 1..])
  }

  ghost predicate Inv(s: State) {
    && GapFree(s.last, s.safe, s.live) && Distinct(s.live)
    && forall i :: 0 <= i < |s.live| ==> 1 <= s.live[i] < MAX_PID
  }

  lemma ForkKeeps(s: State, s': State, at: nat)
    requires Inv(s) && Fork(s, s', at)
    ensures Inv(s')
  {
    assert forall i :: 0 <= i < |s'.live| ==>
      s'.live[i] == if i < at then s.live[i] else if i == at then s'.last else s.live[i - 1];
    assert forall p :: p in s'.live ==> p == s'.last || p in s.live;
  }

  lemma ExitKeeps(s: State, s': State, at: nat)
    requires Inv(s) && Exit(s, s', at)
    ensures Inv(s')
  {
    assert forall i :: 0 <= i < |s'.live| ==> s'.live[i] == s.live[if i < at then i else i + 1];
    forall p | p in s'.live ensures p in s.live {
      var i :| 0 <= i < |s'.live| && s'.live[i] == p;
    }
  }

  /** A run of forks and exits, each at some place of the list. */
  ghost predicate IsRun(states: seq<State>, forks: seq<bool>, places: seq<nat>) {
    && |states| == |forks| + 1 == |places| + 1 && states[0] == State(MAX_PID, MAX_PID, [])
    && forall k :: 0 <= k < |forks| ==>
         if forks[k] then Fork(states[k], states[k + 1], places[k]) else Exit(states[k], states[k + 1], places[k])
  }

  /** In every run live processes have different identifiers in range, and the cached gap
      stays free; so every fork finds an identifier. */
  lemma {:induction false} RunsKeepPids(states: seq<State>, forks: seq<bool>, places: seq<nat>, k: nat)
    requires IsRun(states, forks, places) && k < |states|
    ensures Inv(states[k])
    ensures |states[k].live| + 1 < MAX_PROCESS ==> exists p :: Free(p, states[k].live)
  {
    if k > 0 {
      RunsKeepPids(states, forks, places, k - 1);
      if forks[k - 1] {
        ForkKeeps(states[k - 1], states[k], places[k - 1]);
      } else {
        ExitKeeps(states[k - 1], states[k], places[k - 1]);
      }
    }
    if |states[k].live| + 1 < MAX_PROCESS {
      FreePidExists(states[k].live);
    }
  }
}
