/** Register allocation of whole blocks: the code of a block, with every temporary named by
    its last register, simulates the block as long as none of its writes disturbs a
    temporary that is still needed. */
module AllocBlockProof {
  import opened Options
  import opened Tac
  import opened Asm
  import opened Frame
  import opened Liveness
  import opened AllocSpec
  import opened AllocProof

  /** The allocator has moved on: bindings stay mutual, slots are only added. */
  ghost predicate Grown(st: St, st': St) {
    Ok(st') && |st'.regVar| == |st.regVar| && Extends(st.frame.off, st'.frame.off)
  }

  lemma GrownRefl(st: St)
    requires Ok(st)
    ensures Grown(st, st)
  {
  }

  lemma GrownTrans(a: St, b: St, c: St)
    requires Grown(a, b) && Grown(b, c)
    ensures Grown(a, c)
  {
  }

  lemma TacGrows(c: Choices, st: St, tacs: seq<Tac>, end: set<Temp>, i: nat)
    requires Ok(st) && i < |tacs|
    ensures Grown(st, AllocTac(c, st, LiveAt(tacs, i, end), LiveAt(tacs, i + 1, end), tacs[i]).st)
  {
    hide AllocTac, PlaceOperands;
    AllocTacGrows(c, st, LiveAt(tacs, i, end), LiveAt(tacs, i + 1, end), tacs[i]);
  }

  lemma {:induction false} PrefixOk(c: Choices, st: St, tacs: seq<Tac>, end: set<Temp>, n: nat)
    requires Ok(st) && n <= |tacs|
    ensures Grown(st, AllocPrefix(c, st, tacs, end, n).st)
  {
    hide AllocTac, Extends, FrameOk, InReg, LiveAt;
    if n > 0 {
      PrefixOk(c, st, tacs, end, n - 1);
      var p := AllocPrefix(c, st, tacs, end, n - 1).st;
      TacGrows(c, p, tacs, end, n - 1);
      GrownTrans(st, p, AllocPrefix(c, st, tacs, end, n).st);
    } else {
      GrownRefl(st);
    }
  }

  /** No write of instruction i's code disturbs a temporary that is still needed. */
  ghost predicate SparedAt(c: Choices, st: St, tacs: seq<Tac>, end: set<Temp>, fin: Final, i: nat)
    requires |st.regVar| > 0 && i < |tacs|
  {
    TacSpared(c, AllocPrefix(c, st, tacs, end, i).st, LiveAt(tacs, i, end), LiveAt(tacs, i + 1, end), tacs[i], fin)
  }

  ghost predicate Spared(c: Choices, st: St, tacs: seq<Tac>, end: set<Temp>, fin: Final)
    requires |st.regVar| > 0
  {
    forall i :: 0 <= i < |tacs| ==> SparedAt(c, st, tacs, end, fin, i)
  }

  /** After every prefix of a block each live temporary is in its final register, if the
      allocator has it in one, or in its own slot; calls, stores and pending arguments
      agree. */
  lemma {:induction false} PrefixSimulates(
    me: Meaning, c: Choices, st: St, tacs: seq<Tac>, end: set<Temp>, fin: Final, n: nat,
    s: State, m: Mach, slots: map<Temp, int>)
    requires Ok(st) && n <= |tacs| && Spared(c, st, tacs, end, fin) && Enumerates(c)
    requires Match(s, m, st, fin, LiveAt(tacs, 0, end), slots)
    requires FinalSlots(AllocPrefix(c, st, tacs, end, n).st, slots)
    ensures
      var p := AllocPrefix(c, st, tacs, end, n);
      Match(Run(me, tacs[..n], s), Exec(me, EmitAll(p.items, fin), m), p.st, fin, LiveAt(tacs, n, end), slots)
  {
    hide AllocTac, Extends, FinalSlots, Match, Step, FrameOk, LiveAt, Exec, EmitAll, TacSpared;
    if n > 0 {
      PrefixOk(c, st, tacs, end, n - 1);
      var p := AllocPrefix(c, st, tacs, end, n - 1);
      var live, out, tac := LiveAt(tacs, n - 1, end), LiveAt(tacs, n, end), tacs[n - 1];
      TacGrows(c, p.st, tacs, end, n - 1);
      var q := AllocTac(c, p.st, live, out, tac);
      FinalTrans(p.st, q.st, slots);
      PrefixSimulates(me, c, st, tacs, end, fin, n - 1, s, m, slots);
      assert tacs[..n] == tacs[..n - 1] + [tac];
      RunSnoc(me, tacs[..n - 1], tac, s);
      assert SparedAt(c, st, tacs, end, fin, n - 1);
      LiveAtStep(tacs, n - 1, end);
      ExecItems(me, p.items, q.items, fin, m);
      AllocTacHolds(me, c, p.st, live, out, tac, fin,
                    Run(me, tacs[..n - 1], s), Exec(me, EmitAll(p.items, fin), m), slots);
    } else {
      assert tacs[..0] == [];
      EmitNil(fin);
      ExecNil(me, m);
    }
  }
}
