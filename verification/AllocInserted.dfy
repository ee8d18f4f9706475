/** What the allocator inserts: which register is taken, which spills and loads appear, which
    slots are handed out and which temporaries are saved. */
module AllocInserted {
  import opened Options
  import opened Tac
  import opened Frame
  import opened AllocSpec
  import opened AllocProof

  /** Register r holds nothing, or a temporary that is not live. */
  predicate Unneeded(st: St, live: set<Temp>, r: nat)
    requires r < |st.regVar|
  {
    st.regVar[r] == None || st.regVar[r].value !in live
  }

  /** Register r holds a temporary that has a slot. */
  predicate HasSlot(st: St, r: nat)
    requires r < |st.regVar|
  {
    st.regVar[r] != None && st.regVar[r].value in st.frame.off
  }

  ghost predicate SomeUnneeded(st: St, live: set<Temp>) {
    exists r :: 0 <= r < |st.regVar| && Unneeded(st, live, r)
  }

  ghost predicate SomeSlot(st: St) {
    exists r :: 0 <= r < |st.regVar| && HasSlot(st, r)
  }

  /** The register for a temporary that is in none: the lowest that is not needed, else the
      lowest whose temporary has a slot, else the one drawn. */
  ghost predicate Chosen(c: Choices, st: St, live: set<Temp>, r: nat) {
    && r < |st.regVar|
    && if SomeUnneeded(st, live) then Unneeded(st, live, r) && forall q :: 0 <= q < r ==> !Unneeded(st, live, q)
    else if SomeSlot(st) then HasSlot(st, r) && forall q :: 0 <= q < r ==> !HasSlot(st, q)
    else r == c.random(st.drawn) % |st.regVar|
  }

  /** What the two scans over the registers find. */
  lemma Scans(st: St, live: set<Temp>)
    ensures
      var free, fixed := FirstFree(st, live, 0), FirstFixed(st, 0);
      && (SomeUnneeded(st, live) <==> free < |st.regVar|) && (SomeSlot(st) <==> fixed < |st.regVar|)
      && (free < |st.regVar| ==> Unneeded(st, live, free)) && (fixed < |st.regVar| ==> HasSlot(st, fixed))
      && (forall q :: 0 <= q < free ==> !Unneeded(st, live, q)) && (forall q :: 0 <= q < fixed ==> !HasSlot(st, q))
  {
    forall r | 0 <= r < |st.regVar|
      ensures Unneeded(st, live, r) <==> Free(st, live, r)
      ensures HasSlot(st, r) <==> Fixed(st, r)
    {
    }
  }

  lemma FindRegChooses(c: Choices, st: St, live: set<Temp>, t: Temp, read: bool)
    requires Ok(st) && !InReg(st, t)
    ensures
      var p := FindReg(c, st, live, t, read);
      t in p.st.tempReg && Chosen(c, st, live, p.st.tempReg[t])
  {
    Scans(st, live);
    hide FrameOk, FindSlot, FirstFree, FirstFixed, Unneeded, HasSlot, SomeUnneeded, SomeSlot;
  }

  /** Who has to leave: the temporary of the register taken, if no register was unneeded. */
  ghost function Victims(st: St, live: set<Temp>, r: nat): seq<Temp>
    requires r < |st.regVar|
  {
    if SomeUnneeded(st, live) || st.regVar[r] == None then [] else [st.regVar[r].value]
  }

  /** Exactly the victim is stored, into its slot, and exactly a temporary that is read is
      loaded, from its own, in this order; nothing is inserted for one in a register. Slots
      go to these two only, and a number is drawn exactly when nothing else decides. */
  lemma FindRegInserts(c: Choices, st: St, live: set<Temp>, t: Temp, read: bool)
    requires Ok(st)
    ensures
      var p := FindReg(c, st, live, t, read);
      if InReg(st, t) then p == Placed(st, [])
      else
        && t in p.st.tempReg && p.st.tempReg[t] < |st.regVar|
        && var victims := Victims(st, live, p.st.tempReg[t]);
        && p.st.tempReg == st.tempReg[t := p.st.tempReg[t]]
        && p.st.regVar == st.regVar[p.st.tempReg[t] := Some(t)]
        && p.st.frame == FindSlots(st.frame, victims + if read then [t] else [])
        && (forall v :: v in victims ==> v in p.st.frame.off) && (read ==> t in p.st.frame.off)
        && p.items == (if victims == [] then [] else [Spill(victims[0], p.st.frame.off[victims[0]])])
             + (if read then [Reload(t, p.st.frame.off[t])] else [])
        && p.st.drawn == st.drawn + if SomeUnneeded(st, live) || SomeSlot(st) then 0 else 1
  {
    if !InReg(st, t) {
      FindRegChooses(c, st, live, t, read);
      InsertsFor(c, st, live, t, read);
    }
  }

  lemma InsertsFor(c: Choices, st: St, live: set<Temp>, t: Temp, read: bool)
    requires Ok(st) && !InReg(st, t)
    requires
      var p := FindReg(c, st, live, t, read);
      t in p.st.tempReg && Chosen(c, st, live, p.st.tempReg[t])
    ensures
      var p := FindReg(c, st, live, t, read);
      var victims := Victims(st, live, p.st.tempReg[t]);
      && p.st.tempReg == st.tempReg[t := p.st.tempReg[t]]
      && p.st.regVar == st.regVar[p.st.tempReg[t] := Some(t)]
      && p.st.frame == FindSlots(st.frame, victims + if read then [t] else [])
      && (forall v :: v in victims ==> v in p.st.frame.off) && (read ==> t in p.st.frame.off)
      && p.items == (if victims == [] then [] else [Spill(victims[0], p.st.frame.off[victims[0]])])
           + (if read then [Reload(t, p.st.frame.off[t])] else [])
      && p.st.drawn == st.drawn + if SomeUnneeded(st, live) || SomeSlot(st) then 0 else 1
  {
    Scans(st, live);
    hide FrameOk, FirstFree, FirstFixed, SomeUnneeded, SomeSlot, FindSlots;
    var p := FindReg(c, st, live, t, read);
    var r := p.st.tempReg[t];
    if FirstFree(st, live, 0) < |st.regVar| {
      SlotsOf1(st.frame, t);
      assert [] + [t] == [t];
    } else {
      assert !Unneeded(st, live, r);
      var v := st.regVar[r].value;
      SlotsOf1(st.frame, v);
      SlotsOf2(st.frame, v, t);
      assert [v] + [t] == [v, t] && [v] + [] == [v];
    }
  }

  lemma SlotsOf1(f: Frame, t: Temp)
    ensures FindSlots(f, [t]) == FindSlot(f, t) && FindSlots(f, []) == f
  {
    assert [t][..0] == [];
  }

  lemma SlotsOf2(f: Frame, v: Temp, t: Temp)
    ensures FindSlots(f, [v, t]) == FindSlot(FindSlot(f, v), t)
  {
    assert [v, t][..1] == [v];
    SlotsOf1(f, v);
  }

  /** Around a call exactly the live-out temporaries that are in registers are saved, other
      than the result, each in its slot. */
  lemma CallSaves(c: Choices, st: St, liveOut: set<Temp>, tac: Tac, t: Temp)
    requires Ok(st) && Enumerates(c) && tac.Call?
    ensures
      var item, after := ItemFor(c, st, liveOut, tac), FrameAfter(c, st, liveOut, tac);
      && item.CallAt? && item.tac == tac
      && ((exists i :: 0 <= i < |item.saves| && item.saves[i].0 == t)
          <==> t in liveOut && InReg(st, t) && tac.ret != Some(t))
      && (forall i :: 0 <= i < |item.saves| ==>
            item.saves[i].0 in after.frame.off && item.saves[i].1 == after.frame.off[item.saves[i].0])
  {
    hide FindSlots;
    var saved := Saved(st, c.order(liveOut), tac.ret);
    FindSlotsOk(FinishActual(st.frame), saved);
    var item := ItemFor(c, st, liveOut, tac);
    forall i | 0 <= i < |item.saves| ensures item.saves[i].0 == saved[i] {}
    if t in saved {
      var i :| 0 <= i < |saved| && saved[i] == t;
      assert item.saves[i].0 == t;
    }
  }

  /** At the end of a block exactly the live-out temporaries that are in registers are
      saved. */
  lemma EndSaves(c: Choices, p: Placed, b: Block, liveOut: set<Temp>, t: Temp)
    requires Ok(p.st) && Enumerates(c)
    ensures
      var a := EndBlock(c, p, b, liveOut);
      && ((exists i :: 0 <= i < |a.saves| && a.saves[i].0 == t) <==> t in liveOut && InReg(p.st, t))
      && (EndTemp(b).Some? && InReg(p.st, EndTemp(b).value) ==>
           a.varReg == p.st.tempReg[EndTemp(b).value] && a.items == p.items)
      && (EndTemp(b).Some? && !InReg(p.st, EndTemp(b).value) ==>
           && a.varReg == 0 && EndTemp(b).value in a.st.frame.off
           && a.items == p.items + [Reload(EndTemp(b).value, a.st.frame.off[EndTemp(b).value])])
  {
    hide FrameOk, FindSlots;
    var saved := Saved(p.st, c.order(liveOut), None);
    var a := EndBlock(c, p, b, liveOut);
    forall i | 0 <= i < |a.saves| ensures a.saves[i].0 == saved[i] {}
    if t in saved {
      var i :| 0 <= i < |saved| && saved[i] == t;
      assert a.saves[i].0 == t;
    }
  }
}
