/** Conditions on the three-address code and its liveness alone under which a block's code
    is right, whatever the allocator's random choices. */
module AllocConditions {
  import opened Options
  import opened Counting
  import opened Tac
  import opened Asm
  import opened Frame
  import opened Liveness
  import opened AllocSpec
  import opened AllocProof
  import opened AllocBlockProof
  import opened AllocGraphProof

  // ----- register pressure -----

  /** The temporaries held by registers 0..n-1. */
  ghost function Held(st: St, n: nat): set<Temp>
    requires n <= |st.regVar|
  {
    if n == 0 then {}
    else Held(st, n - 1) + (if st.regVar[n - 1].Some? then {st.regVar[n - 1].value} else {})
  }

  lemma {:induction false} HeldMembers(st: St, n: nat, t: Temp)
    requires Ok(st) && n <= |st.regVar|
    requires forall r :: 0 <= r < n ==> st.regVar[r].Some?
    ensures t in Held(st, n) <==> InReg(st, t) && st.tempReg[t] < n
  {
    hide FrameOk;
    if n > 0 {
      HeldMembers(st, n - 1, t);
      var v := st.regVar[n - 1].value;
      assert InReg(st, v) && st.tempReg[v] == n - 1;
    }
  }

  lemma {:induction false} HeldSize(st: St, n: nat)
    requires Ok(st) && n <= |st.regVar|
    requires forall r :: 0 <= r < n ==> st.regVar[r].Some?
    ensures |Held(st, n)| == n
  {
    hide FrameOk;
    if n > 0 {
      HeldSize(st, n - 1);
      var v := st.regVar[n - 1].value;
      assert InReg(st, v) && st.tempReg[v] == n - 1;
      HeldMembers(st, n - 1, v);
    }
  }

  /** When the live temporaries and t fit in the registers and t is not in one, some
      register can be taken without a spill. */
  lemma PressureLeavesRoom(st: St, live: set<Temp>, t: Temp)
    requires Ok(st) && !InReg(st, t) && |live + {t}| <= |st.regVar|
    ensures FirstFree(st, live, 0) < |st.regVar|
  {
    if FirstFree(st, live, 0) == |st.regVar| {
      forall r | 0 <= r < |st.regVar| ensures st.regVar[r].Some? && st.regVar[r].value in live {
        assert !Free(st, live, r);
      }
      HeldSize(st, |st.regVar|);
      var held := Held(st, |st.regVar|);
      forall u | u in held ensures u in live + {t} - {t} { HeldMembers(st, |st.regVar|, u); }
      SubsetCard(held, live + {t} - {t});
      assert false;
    }
  }

  /** Without pressure FindReg takes no register from a live temporary. */
  lemma FindRegKeeps(c: Choices, st: St, live: set<Temp>, t: Temp, read: bool, u: Temp)
    requires Ok(st) && |live + {t}| <= |st.regVar|
    requires u in live && InReg(st, u)
    ensures InReg(FindReg(c, st, live, t, read).st, u)
  {
    if !InReg(st, t) {
      PressureLeavesRoom(st, live, t);
    }
  }

  /** Every temporary of keep stays in its register, which does not change. */
  ghost predicate Keeps(st: St, st': St, keep: set<Temp>) {
    forall t :: t in keep && InReg(st, t) ==> InReg(st', t) && RegOf(st'.tempReg, t) == RegOf(st.tempReg, t)
  }

  ghost predicate SameRegs(a: map<Temp, nat>, b: map<Temp, nat>, ts: set<Temp>) {
    forall t :: t in ts ==> RegOf(a, t) == RegOf(b, t)
  }

  lemma FindRegKeepsAll(c: Choices, st: St, live: set<Temp>, t: Temp, read: bool, ts: set<Temp>)
    requires Ok(st) && |live + {t}| <= |st.regVar|
    requires t in ts ==> InReg(st, t)
    ensures
      var p := FindReg(c, st, live, t, read).st;
      Onward(st, p) && InReg(p, t) && Keeps(st, p, live) && SameRegs(st.tempReg, p.tempReg, ts)
  {
    hide FindReg, FrameOk;
    FindRegBinds(c, st, live, t, read);
    FindRegOnward(c, st, live, t, read);
    forall u | u in live && InReg(st, u) ensures InReg(FindReg(c, st, live, t, read).st, u) {
      FindRegKeeps(c, st, live, t, read, u);
    }
  }

  lemma {:induction false} PlaceReadsKeeps(c: Choices, st: St, live: set<Temp>, rs: seq<Temp>, ts: set<Temp>)
    requires Ok(st) && |live| <= |st.regVar|
    requires forall t :: t in rs ==> t in live && (t in ts ==> InReg(st, t))
    ensures
      var p := PlaceReads(c, st, live, rs).st;
      && Onward(st, p) && Keeps(st, p, live) && SameRegs(st.tempReg, p.tempReg, ts)
      && forall t :: t in rs ==> InReg(p, t)
    decreases |rs|
  {
    hide FindReg, Ok, Extends;
    if rs != [] {
      var front, t := rs[..|rs| - 1], rs[|rs| - 1];
      assert t in rs && live + {t} == live;
      PlaceReadsKeeps(c, st, live, front, ts);
      var p := PlaceReads(c, st, live, front).st;
      FindRegKeepsAll(c, p, live, t, true, ts);
      OnwardTrans(st, p, FindReg(c, p, live, t, true).st);
    } else {
      OnwardRefl(st);
    }
  }

  lemma PlaceOperandsKeeps(c: Choices, st: St, live: set<Temp>, tac: Tac, ts: set<Temp>)
    requires Ok(st) && Uses(tac) <= live && |live + Touches(tac)| <= |st.regVar|
    requires forall t :: t in Touches(tac) && t in ts ==> InReg(st, t) && t in live
    ensures
      var q, p := PlaceReads(c, st, live, Reads(tac)).st, PlaceOperands(c, st, live, tac).st;
      && Keeps(st, p, live) && Keeps(q, p, live) && SameRegs(st.tempReg, p.tempReg, ts)
      && forall t :: t in Touches(tac) ==> InReg(p, t)
  {
    assert |st.regVar| > 0;
    hide FindReg, PlaceReads, Extends, FrameOk, Ok, InReg, RegOf, Reads, Writes;
    var rs := Reads(tac);
    SubsetCard(live, live + Touches(tac));
    forall t | t in rs ensures t in live && (t in ts ==> InReg(st, t)) { assert t in Uses(tac); }
    PlaceReadsKeeps(c, st, live, rs, ts);
    var q := PlaceReads(c, st, live, rs).st;
    match Writes(tac) {
      case None =>
      case Some(d) =>
        assert d in Touches(tac);
        SubsetCard(live + {d}, live + Touches(tac));
        WriteKeeps(c, st, q, live, rs, d, ts);
    }
  }

  lemma WriteKeeps(c: Choices, st: St, q: St, live: set<Temp>, rs: seq<Temp>, d: Temp, ts: set<Temp>)
    requires Ok(q) && |live + {d}| <= |q.regVar| && (d in ts ==> InReg(st, d) && d in live)
    requires Keeps(st, q, live) && SameRegs(st.tempReg, q.tempReg, ts)
    requires forall t :: t in rs ==> t in live && InReg(q, t)
    ensures
      var p := FindReg(c, q, live, d, false).st;
      && Keeps(st, p, live) && Keeps(q, p, live) && SameRegs(st.tempReg, p.tempReg, ts) && InReg(p, d)
      && forall t :: t in rs ==> InReg(p, t)
  {
    hide FindReg, InReg, RegOf;
    assert d in ts ==> InReg(q, d);
    FindRegKeepsAll(c, q, live, d, false, ts);
    var p := FindReg(c, q, live, d, false).st;
    forall t | t in rs ensures InReg(p, t) {}
    hide Keeps, SameRegs;
    KeepsTrans(st, q, p, live);
    SameRegsTrans(st.tempReg, q.tempReg, p.tempReg, ts, ts);
  }

  lemma KeepsTrans(a: St, b: St, c: St, ts: set<Temp>)
    requires Keeps(a, b, ts) && Keeps(b, c, ts)
    ensures Keeps(a, c, ts)
  {
  }

  /** Operands that are all in registers are left alone. */
  lemma PlaceOperandsSame(c: Choices, st: St, live: set<Temp>, tac: Tac)
    requires |st.regVar| > 0 && forall t :: t in Touches(tac) ==> InReg(st, t)
    ensures PlaceOperands(c, st, live, tac).st == st && PlaceReads(c, st, live, Reads(tac)).st == st
  {
    forall t | t in Reads(tac) ensures InReg(st, t) { assert t in Uses(tac); }
    PlaceReadsSame(c, st, live, Reads(tac));
    if Writes(tac).Some? { assert Writes(tac).value in Touches(tac); }
  }

  lemma {:induction false} PlaceReadsSame(c: Choices, st: St, live: set<Temp>, rs: seq<Temp>)
    requires |st.regVar| > 0 && forall t :: t in rs ==> InReg(st, t)
    ensures PlaceReads(c, st, live, rs).st == st
    decreases |rs|
  {
    if rs != [] {
      assert rs[|rs| - 1] in rs;
      PlaceReadsSame(c, st, live, rs[..|rs| - 1]);
    }
  }

  // ----- the condition on the code -----

  /** The temporaries touched by the first n instructions. */
  function Touched(tacs: seq<Tac>, n: nat): set<Temp>
    requires n <= |tacs|
  {
    if n == 0 then {} else Touched(tacs, n - 1) + Touches(tacs[n - 1])
  }

  /** Live-in temporaries and operands of every instruction fit in the registers. */
  ghost predicate Roomy(tacs: seq<Tac>, end: set<Temp>, regs: nat) {
    forall i :: 0 <= i < |tacs| ==> RoomyAt(tacs, end, regs, i)
  }

  predicate RoomyAt(tacs: seq<Tac>, end: set<Temp>, regs: nat, i: nat)
    requires i < |tacs|
  {
    |LiveAt(tacs, i, end) + Touches(tacs[i])| <= regs
  }

  /** Instruction k touches no temporary that is new to the block. */
  predicate Quiet(tacs: seq<Tac>, k: nat)
    requires k < |tacs|
  {
    Touches(tacs[k]) <= Touched(tacs, k)
  }

  /** From instruction k on, d is next touched by instruction i, which overwrites it. */
  ghost predicate Waits(tacs: seq<Tac>, d: Temp, k: nat, i: nat) {
    && k <= i < |tacs| && d in Defs(tacs[i]) && d !in Uses(tacs[i])
    && forall x :: k <= x < i ==> d !in Touches(tacs[x])
  }

  /** Between the last touch of a temporary and an instruction that overwrites it, that
      instruction included, no temporary new to the block is touched. */
  ghost predicate Settled(tacs: seq<Tac>) {
    forall d, k, i :: Waits(tacs, d, k, i) && d in Touched(tacs, k) ==> Quiet(tacs, k)
  }

  /** The tested or returned temporary is used in the block, or nothing the block uses is
      live after it. */
  predicate EndTempSafe(b: Block, liveOut: set<Temp>) {
    var used := Touched(b.tacs, |b.tacs|);
    EndTemp(b).None? || EndTemp(b).value in used || liveOut !! used
  }

  ghost predicate Simple(b: Block, liveOut: set<Temp>, regs: nat) {
    && Roomy(b.tacs, EndLive(b, liveOut), regs)
    && Settled(b.tacs)
    && EndTempSafe(b, liveOut)
    && PendingParms(b.tacs, |b.tacs|) == 0
  }

  // ----- what every prefix of a simple block keeps -----

  ghost predicate Awaited(tacs: seq<Tac>, d: Temp, k: nat) {
    exists i :: Waits(tacs, d, k, i)
  }

  /** Only the block's temporaries are in registers, and all that are still live or will be
      overwritten next are. */
  ghost predicate Stay(st: St, tacs: seq<Tac>, end: set<Temp>, k: nat)
    requires k <= |tacs|
  {
    && (forall t :: InReg(st, t) ==> t in Touched(tacs, k))
    && (forall t :: t in Touched(tacs, k) && (t in LiveAt(tacs, k, end) || Awaited(tacs, t, k)) ==> InReg(st, t))
  }

  lemma AwaitedBefore(tacs: seq<Tac>, d: Temp, k: nat)
    requires k < |tacs| && d !in Touches(tacs[k]) && Awaited(tacs, d, k + 1)
    ensures Awaited(tacs, d, k)
  {
    var i :| Waits(tacs, d, k + 1, i);
    assert Waits(tacs, d, k, i);
  }

  lemma RedefinitionAwaited(tacs: seq<Tac>, d: Temp, k: nat)
    requires k < |tacs| && d in Touches(tacs[k]) && d !in Uses(tacs[k])
    ensures Awaited(tacs, d, k)
  {
    assert Waits(tacs, d, k, k);
  }

  /** The temporaries that instruction k shares with the block so far are in registers. */
  lemma SharedInReg(st: St, tacs: seq<Tac>, end: set<Temp>, k: nat, t: Temp)
    requires k < |tacs| && Stay(st, tacs, end, k) && t in Touches(tacs[k]) && t in Touched(tacs, k)
    ensures InReg(st, t)
  {
    LiveAtStep(tacs, k, end);
    hide LiveAt;
    if t !in Uses(tacs[k]) { RedefinitionAwaited(tacs, t, k); }
  }

  lemma QuietStep(c: Choices, st: St, tacs: seq<Tac>, end: set<Temp>, k: nat)
    requires |st.regVar| > 0 && k < |tacs| && Stay(st, tacs, end, k) && Quiet(tacs, k)
    ensures
      var live := LiveAt(tacs, k, end);
      && PlaceOperands(c, st, live, tacs[k]).st == st && PlaceReads(c, st, live, Reads(tacs[k])).st == st
      && Stay(st, tacs, end, k + 1) && forall t :: t in Touches(tacs[k]) ==> InReg(st, t)
  {
    hide LiveAt, PlaceOperands, PlaceReads, InReg, Awaited;
    LiveAtStep(tacs, k, end);
    forall t | t in Touches(tacs[k]) ensures InReg(st, t) { SharedInReg(st, tacs, end, k, t); }
    PlaceOperandsSame(c, st, LiveAt(tacs, k, end), tacs[k]);
    forall t | t in Touched(tacs, k + 1) && (t in LiveAt(tacs, k + 1, end) || Awaited(tacs, t, k + 1))
      ensures InReg(st, t)
    {
      if t !in Touches(tacs[k]) && Awaited(tacs, t, k + 1) { AwaitedBefore(tacs, t, k); }
    }
  }

  /** Instruction k touches a new temporary: then none of the block waits to be
      overwritten. */
  lemma LoudStep(c: Choices, st: St, tacs: seq<Tac>, end: set<Temp>, k: nat)
    requires Ok(st) && k < |tacs| && RoomyAt(tacs, end, |st.regVar|, k) && Settled(tacs)
    requires Stay(st, tacs, end, k) && !Quiet(tacs, k)
    ensures
      var live := LiveAt(tacs, k, end);
      var q, p := PlaceReads(c, st, live, Reads(tacs[k])).st, PlaceOperands(c, st, live, tacs[k]).st;
      && Keeps(q, p, live) && SameRegs(st.tempReg, p.tempReg, Touched(tacs, k))
      && Stay(p, tacs, end, k + 1) && forall t :: t in Touches(tacs[k]) ==> InReg(p, t)
  {
    assert |st.regVar| > 0;
    hide LiveAt, PlaceOperands, PlaceReads, Awaited, Ok, FrameOk, Quiet, Reads, Writes;
    var live, tac := LiveAt(tacs, k, end), tacs[k];
    LiveAtStep(tacs, k, end);
    forall t | t in Touched(tacs, k) ensures !Awaited(tacs, t, k) { NotAwaited(tacs, t, k); }
    forall t | t in Touches(tac) && t in Touched(tacs, k) ensures InReg(st, t) && t in live {
      SharedInReg(st, tacs, end, k, t);
      if t !in Uses(tac) { RedefinitionAwaited(tacs, t, k); }
    }
    PlaceOperandsKeeps(c, st, live, tac, Touched(tacs, k));
    OperandsBound(c, st, live, tac, Touched(tacs, k));
    var p := PlaceOperands(c, st, live, tac).st;
    forall t | t in Touched(tacs, k + 1) && (t in LiveAt(tacs, k + 1, end) || Awaited(tacs, t, k + 1))
      ensures InReg(p, t)
    {
      if t !in Touches(tac) {
        if Awaited(tacs, t, k + 1) { AwaitedBefore(tacs, t, k); }
        assert t in live && InReg(st, t);
      }
    }
  }

  lemma NotAwaited(tacs: seq<Tac>, t: Temp, k: nat)
    requires k < |tacs| && Settled(tacs) && !Quiet(tacs, k) && t in Touched(tacs, k)
    ensures !Awaited(tacs, t, k)
  {
    hide Quiet, Touched, Waits;
  }

  /** Placing operands binds nothing but the instruction's temporaries. */
  lemma OperandsBound(c: Choices, st: St, live: set<Temp>, tac: Tac, ts: set<Temp>)
    requires Ok(st) && forall t :: InReg(st, t) ==> t in ts
    ensures forall t :: InReg(PlaceOperands(c, st, live, tac).st, t) ==> t in ts + Touches(tac)
  {
    hide FindReg, PlaceReads, InReg, FrameOk;
    var rs := Reads(tac);
    ReadsBound(c, st, live, rs, ts);
    PlaceReadsOnward(c, st, live, rs);
    var p := PlaceReads(c, st, live, rs).st;
    forall t | t in rs ensures t in Touches(tac) { assert t in Uses(tac); }
    if Writes(tac).Some? {
      FindRegBinds(c, p, live, Writes(tac).value, false);
    }
  }

  lemma {:induction false} ReadsBound(c: Choices, st: St, live: set<Temp>, rs: seq<Temp>, ts: set<Temp>)
    requires Ok(st) && forall t :: InReg(st, t) ==> t in ts
    ensures forall t :: InReg(PlaceReads(c, st, live, rs).st, t) ==> t in ts || t in rs
    decreases |rs|
  {
    hide FindReg, InReg, FrameOk;
    if rs != [] {
      var front := rs[..|rs| - 1];
      ReadsBound(c, st, live, front, ts);
      PlaceReadsOnward(c, st, live, front);
      FindRegBinds(c, PlaceReads(c, st, live, front).st, live, rs[|rs| - 1], true);
    }
  }

  // ----- registers never change in a simple block -----

  /** A block that meets the conditions begins with empty registers. */
  ghost predicate Starts(st: St, tacs: seq<Tac>, end: set<Temp>) {
    && |st.regVar| > 0 && Ok(st) && Roomy(tacs, end, |st.regVar|) && Settled(tacs)
    && forall t :: !InReg(st, t)
  }

  /** One instruction of a simple block. */
  ghost predicate StepStays(c: Choices, st: St, tacs: seq<Tac>, end: set<Temp>, k: nat)
    requires |st.regVar| > 0 && k < |tacs|
  {
    var live := LiveAt(tacs, k, end);
    var q, p := PlaceReads(c, st, live, Reads(tacs[k])).st, PlaceOperands(c, st, live, tacs[k]).st;
    && Keeps(q, p, live) && SameRegs(st.tempReg, p.tempReg, Touched(tacs, k))
    && Stay(p, tacs, end, k + 1) && forall t :: t in Touches(tacs[k]) ==> InReg(p, t)
  }

  lemma AnyStepStays(c: Choices, st: St, tacs: seq<Tac>, end: set<Temp>, k: nat)
    requires Ok(st) && k < |tacs| && Roomy(tacs, end, |st.regVar|) && Settled(tacs) && Stay(st, tacs, end, k)
    ensures StepStays(c, st, tacs, end, k)
  {
    hide LiveAt, PlaceOperands, PlaceReads, Stay, Quiet, FrameOk, Settled;
    assert RoomyAt(tacs, end, |st.regVar|, k);
    if Quiet(tacs, k) {
      QuietStep(c, st, tacs, end, k);
    } else {
      LoudStep(c, st, tacs, end, k);
    }
  }

  /** The allocator state after k instructions. */
  function StAt(c: Choices, st: St, tacs: seq<Tac>, end: set<Temp>, k: nat): (r: St)
    requires |st.regVar| > 0 && k <= |tacs|
    ensures |r.regVar| == |st.regVar|
  {
    AllocPrefix(c, st, tacs, end, k).st
  }

  lemma StNext(c: Choices, st: St, tacs: seq<Tac>, end: set<Temp>, k: nat)
    requires Ok(st) && k < |tacs|
    ensures
      var s0, s1 := StAt(c, st, tacs, end, k), StAt(c, st, tacs, end, k + 1);
      var p := PlaceOperands(c, s0, LiveAt(tacs, k, end), tacs[k]).st;
      Ok(s0) && Ok(p) && s1.regVar == p.regVar && s1.tempReg == p.tempReg
  {
    hide AllocTac, PlaceOperands, LiveAt, Extends;
    PrefixOk(c, st, tacs, end, k);
    var s0 := StAt(c, st, tacs, end, k);
    AllocTacGrows(c, s0, LiveAt(tacs, k, end), LiveAt(tacs, k + 1, end), tacs[k]);
    PlaceOperandsOnward(c, s0, LiveAt(tacs, k, end), tacs[k]);
  }

  lemma StaySame(st: St, st': St, tacs: seq<Tac>, end: set<Temp>, k: nat)
    requires k <= |tacs| && Stay(st, tacs, end, k) && st'.regVar == st.regVar && st'.tempReg == st.tempReg
    ensures Stay(st', tacs, end, k)
  {
    assert forall t :: InReg(st', t) <==> InReg(st, t);
    hide LiveAt, Awaited, InReg;
  }

  lemma {:induction false} SimplePrefix(c: Choices, st: St, tacs: seq<Tac>, end: set<Temp>, n: nat)
    requires Starts(st, tacs, end) && n <= |tacs|
    ensures Stay(StAt(c, st, tacs, end, n), tacs, end, n)
    ensures n < |tacs| ==> StepStays(c, StAt(c, st, tacs, end, n), tacs, end, n)
  {
    hide AllocTac, LiveAt, PlaceOperands, PlaceReads, FrameOk, Settled, Roomy;
    if n > 0 {
      SimplePrefix(c, st, tacs, end, n - 1);
      StNext(c, st, tacs, end, n - 1);
      var s0 := StAt(c, st, tacs, end, n - 1);
      var p := PlaceOperands(c, s0, LiveAt(tacs, n - 1, end), tacs[n - 1]).st;
      StaySame(p, StAt(c, st, tacs, end, n), tacs, end, n);
    }
    hide Stay, StepStays;
    PrefixOk(c, st, tacs, end, n);
    if n < |tacs| {
      AnyStepStays(c, StAt(c, st, tacs, end, n), tacs, end, n);
    }
  }

  lemma StepSame(c: Choices, st: St, tacs: seq<Tac>, end: set<Temp>, k: nat)
    requires Starts(st, tacs, end) && k < |tacs|
    ensures SameRegs(StAt(c, st, tacs, end, k).tempReg, StAt(c, st, tacs, end, k + 1).tempReg, Touched(tacs, k))
  {
    hide StAt, LiveAt, PlaceOperands, PlaceReads, Ok, Settled, Roomy, Stay, SameRegs, InReg, Touched;
    SimplePrefix(c, st, tacs, end, k);
    StNext(c, st, tacs, end, k);
  }

  /** Once touched, a temporary keeps its register to the end of the block. */
  lemma {:induction false} SimpleStable(c: Choices, st: St, tacs: seq<Tac>, end: set<Temp>, k: nat, n: nat, t: Temp)
    requires |st.regVar| > 0 && Starts(st, tacs, end) && k <= n <= |tacs| && t in Touched(tacs, k)
    ensures RegOf(StAt(c, st, tacs, end, k).tempReg, t) == RegOf(StAt(c, st, tacs, end, n).tempReg, t)
    decreases n
  {
    hide StAt, Starts, Touched, RegOf;
    if k < n {
      SimpleStable(c, st, tacs, end, k, n - 1, t);
      StepSame(c, st, tacs, end, n - 1);
      TouchedGrows(tacs, k, n - 1);
    }
  }

  lemma SameRegsTrans(x: map<Temp, nat>, y: map<Temp, nat>, z: map<Temp, nat>, ts: set<Temp>, us: set<Temp>)
    requires SameRegs(x, y, ts) && SameRegs(y, z, us) && ts <= us
    ensures SameRegs(x, z, ts)
  {
  }

  lemma {:induction false} TouchedGrows(tacs: seq<Tac>, k: nat, n: nat)
    requires k <= n <= |tacs|
    ensures Touched(tacs, k) <= Touched(tacs, n)
    decreases n
  {
    if k < n { TouchedGrows(tacs, k, n - 1); }
  }

  /** Two temporaries in registers have different final registers, if the final map says
      what the allocator says now. */
  lemma DifferentRegs(p: St, fin: Final, ts: set<Temp>, t: Temp, u: Temp)
    requires Ok(p) && SameRegs(p.tempReg, fin, ts) && t in ts && u in ts && t != u && InReg(p, t) && InReg(p, u)
    ensures RegOf(fin, t) != RegOf(fin, u)
  {
  }

  lemma {:induction false} ReadsSparedFrom(
    c: Choices, st: St, live: set<Temp>, rs: seq<Temp>, p: St, fin: Final, ts: set<Temp>)
    requires Ok(st) && |live| <= |st.regVar| && (forall t :: t in rs ==> t in live) && Ok(p)
    requires Keeps(PlaceReads(c, st, live, rs).st, p, live) && SameRegs(p.tempReg, fin, ts)
    requires forall t :: InReg(p, t) ==> t in ts
    ensures ReadsSpared(c, st, live, rs, fin)
    decreases |rs|
  {
    hide FindReg, Ok, Extends, InReg, RegOf;
    if rs != [] {
      var front, t := rs[..|rs| - 1], rs[|rs| - 1];
      assert t in rs && (forall u :: u in front ==> u in rs) && live + {t} == live;
      PlaceReadsKeeps(c, st, live, front, {});
      var q0 := PlaceReads(c, st, live, front).st;
      FindRegKeepsAll(c, q0, live, t, true, {});
      var q := FindReg(c, q0, live, t, true).st;
      ReadsSparedFrom(c, st, live, front, p, fin, ts);
      forall u | u in live && u != t && (InReg(q, u) || u in front) ensures RegOf(fin, u) != RegOf(fin, t) {
        assert InReg(q, u) && InReg(p, u) && InReg(p, t);
        DifferentRegs(p, fin, ts, t, u);
      }
    }
  }

  lemma SimpleSparedAt(c: Choices, st: St, tacs: seq<Tac>, end: set<Temp>, fin: Final, k: nat)
    requires Starts(st, tacs, end) && k < |tacs|
    requires SameRegs(StAt(c, st, tacs, end, k + 1).tempReg, fin, Touched(tacs, k + 1))
    ensures SparedAt(c, st, tacs, end, fin, k)
  {
    hide AllocPrefix, LiveAt, PlaceOperands, PlaceReads, ReadsSpared, FrameOk, Settled, Keeps, RegOf, Reads, Writes;
    var s0, live, tac := StAt(c, st, tacs, end, k), LiveAt(tacs, k, end), tacs[k];
    SimplePrefix(c, st, tacs, end, k);
    StNext(c, st, tacs, end, k);
    LiveAtStep(tacs, k, end);
    assert RoomyAt(tacs, end, |st.regVar|, k);
    SubsetCard(live, live + Touches(tac));
    var p := PlaceOperands(c, s0, live, tac).st;
    forall t | t in Reads(tac) ensures t in live { assert t in Uses(tac); }
    ReadsSparedFrom(c, s0, live, Reads(tac), p, fin, Touched(tacs, k + 1));
    WriteSparedFrom(tac, p, fin, LiveAt(tacs, k + 1, end), Touched(tacs, k + 1));
  }

  lemma WriteSparedFrom(tac: Tac, p: St, fin: Final, liveOut: set<Temp>, ts: set<Temp>)
    requires Ok(p) && SameRegs(p.tempReg, fin, ts) && (forall t :: InReg(p, t) ==> t in ts)
    requires forall t :: t in Touches(tac) ==> InReg(p, t)
    ensures WriteSpared(tac, p, fin, liveOut)
  {
    hide Ok, InReg, RegOf;
    match Writes(tac)
    case None =>
    case Some(d) =>
      assert d in Touches(tac);
      forall u | u in liveOut && u != d && InReg(p, u) ensures RegOf(fin, u) != RegOf(fin, d) {
        DifferentRegs(p, fin, ts, d, u);
      }
  }

  /** A simple block is sound: the condition of the simulation follows from the
      three-address code and its liveness alone. */
  lemma SimpleSound(c: Choices, st: St, b: Block, liveOut: set<Temp>)
    requires Ok(st) && Simple(b, liveOut, |st.regVar|)
    ensures Sound(c, st, b, liveOut)
  {
    hide AllocPrefix, FrameOk, LiveAt, Roomy, Settled, Touched, SparedAt, EndBlock, InReg, Extends;
    var n, end := |b.tacs|, EndLive(b, liveOut);
    ClearOk(st);
    var p := AllocPrefix(c, Clear(st), b.tacs, end, n);
    var fin := EndBlock(c, p, b, liveOut).st.tempReg;
    PrefixOk(c, Clear(st), b.tacs, end, n);
    EndGrows(c, p, b, liveOut);
    assert Starts(Clear(st), b.tacs, end);
    SimplePrefix(c, Clear(st), b.tacs, end, n);
    LiveAtEnd(b.tacs, end);
    assert NeedsEndLoad(p.st, b) ==> EndTemp(b).value !in Touched(b.tacs, n);
    forall k | 0 <= k < n ensures SparedAt(c, Clear(st), b.tacs, end, fin, k) {
      forall t | t in Touched(b.tacs, k + 1)
        ensures RegOf(StAt(c, Clear(st), b.tacs, end, k + 1).tempReg, t) == RegOf(fin, t)
      {
        SimpleStable(c, Clear(st), b.tacs, end, k + 1, n, t);
        TouchedGrows(b.tacs, k + 1, n);
      }
      SimpleSparedAt(c, Clear(st), b.tacs, end, fin, k);
    }
  }

  /** The back end on simple functions: no condition on the allocator remains. */
  lemma SimpleGraphSimulates(
    me: Meaning, c: Choices, st: St, g: seq<Block>, liveIn: Sets, liveOut: Sets, s: State, m: Mach, n: nat)
    requires WellFormedGraph(g) && Solution(g, liveIn, liveOut)
    requires Ready(st) && Enumerates(c)
    requires forall i :: 0 <= i < |g| ==> Simple(g[i], liveOut[i], |st.regVar|)
    requires AtRest(s, m, liveIn[0], SlotsOf(c, st, g, liveOut))
    ensures
      SameRun(RunGraph(me, g, n, At(0, s)), MachRun(me, g, AllocAll(c, st, g, liveOut), n, MAt(0, m)),
              liveIn, SlotsOf(c, st, g, liveOut))
  {
    hide Simple, Sound, RunGraph, MachRun, StateBefore, AtRest, SameRun, Ok, AllocBlock;
    SimpleAllSound(c, st, g, liveOut, |g|);
    forall i | 0 <= i < |g| ensures SoundAt(c, st, g, liveOut, i) {}
    GraphSimulates(me, c, st, g, liveIn, liveOut, 0, s, m, n);
  }

  lemma {:induction false} SimpleAllSound(c: Choices, st: St, g: seq<Block>, liveOut: Sets, n: nat)
    requires Ready(st) && n <= |g| == |liveOut|
    requires forall i :: 0 <= i < |g| ==> Simple(g[i], liveOut[i], |st.regVar|)
    ensures Ready(StateBefore(c, st, g, liveOut, n))
    ensures forall i :: 0 <= i < n ==> SoundAt(c, st, g, liveOut, i)
  {
    hide Simple, Sound, AllocBlock, Ok;
    if n > 0 {
      SimpleAllSound(c, st, g, liveOut, n - 1);
      var st1 := StateBefore(c, st, g, liveOut, n - 1);
      SimpleSound(c, st1, g[n - 1], liveOut[n - 1]);
      SoundGrows(c, st1, g[n - 1], liveOut[n - 1]);
      assert SoundAt(c, st, g, liveOut, n - 1);
    }
  }

  // ----- an update of a variable is simple -----

  /** The code of i = i + 1 with i in temporary 1. */
  const IncrementCode: seq<Tac> := [LoadConst(2, Imm4(1)), Binary(Add, 3, 1, 2), Unary(Assign, 1, 3)]

  lemma IncrementTouched()
    ensures Touched(IncrementCode, 0) == {} && Touched(IncrementCode, 1) == {2}
    ensures Touched(IncrementCode, 2) == {1, 2, 3} && Touched(IncrementCode, 3) == {1, 2, 3}
    ensures Touches(IncrementCode[0]) == {2} && Touches(IncrementCode[1]) == {1, 2, 3}
    ensures Touches(IncrementCode[2]) == {1, 3}
  {
    assert Uses(IncrementCode[1]) == {1, 2};
  }

  lemma IncrementSettled()
    ensures Settled(IncrementCode)
  {
    hide Touched, Touches;
    IncrementTouched();
    forall d, k, i | Waits(IncrementCode, d, k, i) && d in Touched(IncrementCode, k) ensures Quiet(IncrementCode, k) {
      assert k == 0 || k == 1 || k == 2;
    }
  }

  /** It is simple in any surroundings, as soon as what is live afterwards and the three
      temporaries fit in the registers. */
  lemma IncrementSimple(next: nat, liveOut: set<Temp>, regs: nat)
    requires |liveOut + {1, 2, 3}| <= regs
    ensures Simple(Block(IncrementCode, ByBranch, None, next, next), liveOut, regs)
  {
    hide Touched, Touches, LiveAt, Settled;
    IncrementSettled();
    IncrementTouched();
    var b, tacs := Block(IncrementCode, ByBranch, None, next, next), IncrementCode;
    var end := EndLive(b, liveOut);
    assert end == liveOut;
    LiveAtEnd(tacs, end);
    LiveAtStep(tacs, 2, end);
    LiveAtStep(tacs, 1, end);
    LiveAtStep(tacs, 0, end);
    forall i | 0 <= i < |tacs| ensures RoomyAt(tacs, end, regs, i) {
      UsesTouched(tacs[i]);
      assert LiveAt(tacs, i, end) + Touches(tacs[i]) <= liveOut + {1, 2, 3} by {
        UsesTouched(tacs[0]);
        UsesTouched(tacs[1]);
        UsesTouched(tacs[2]);
      }
      SubsetCard(LiveAt(tacs, i, end) + Touches(tacs[i]), liveOut + {1, 2, 3});
    }
  }

  lemma UsesTouched(tac: Tac)
    ensures Uses(tac) <= Touches(tac)
  {
  }
}
