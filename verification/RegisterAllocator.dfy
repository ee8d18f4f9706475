/** The imperative register allocator, instruction list and all, proved against AllocSpec. */
module RegisterAllocator {
  import opened Options
  import opened Tac
  import opened Asm
  import opened Frame
  import opened Liveness
  import AllocSpec
  import opened AllocProof
  import opened AllocGraphProof

  type St = AllocSpec.St
  type Item = AllocSpec.Item
  type Allocated = AllocSpec.Allocated

  /** An element of the instruction list; inserted loads and stores carry no annotation. */
  datatype Node = Node(item: Item, liveOut: Option<set<Temp>>)

  function Items(list: seq<Node>): (r: seq<Item>)
    ensures |r| == |list|
  {
    seq(|list|, i requires 0 <= i < |list| => list[i].item)
  }

  function Inserted(items: seq<Item>): (r: seq<Node>)
    ensures |r| == |items|
  {
    seq(|items|, i requires 0 <= i < |items| => Node(items[i], None))
  }

  /** What is live before element k: the annotation of the nearest original instruction
      before it, or the block's live-in set. */
  function LiveBefore(list: seq<Node>, k: nat, liveIn: set<Temp>): set<Temp>
    requires k <= |list|
  {
    if k == 0 then liveIn
    else match list[k - 1].liveOut
      case Some(s) => s
      case None => LiveBefore(list, k - 1, liveIn)
  }

  lemma {:induction false} InsertedIsTransparent(list: seq<Node>, k: nat, items: seq<Item>, j: nat, liveIn: set<Temp>)
    requires k <= |list| && j <= |items|
    ensures
      var list' := list[..k] + Inserted(items) + list[k..];
      LiveBefore(list', k + j, liveIn) == LiveBefore(list, k, liveIn)
    decreases k + j
  {
    var list' := list[..k] + Inserted(items) + list[k..];
    if j > 0 {
      InsertedIsTransparent(list, k, items, j - 1, liveIn);
    } else if k > 0 {
      SamePrefix(list, list', k, liveIn);
    }
  }

  lemma {:induction false} SamePrefix(a: seq<Node>, b: seq<Node>, k: nat, liveIn: set<Temp>)
    requires k <= |a| && k <= |b| && a[..k] == b[..k]
    ensures LiveBefore(a, k, liveIn) == LiveBefore(b, k, liveIn)
  {
    if k > 0 {
      assert a[k - 1] == a[..k][k - 1] == b[k - 1];
      assert a[..k - 1] == a[..k][..k - 1];
      assert b[..k - 1] == b[..k][..k - 1];
      SamePrefix(a, b, k - 1, liveIn);
    }
  }

  /** The instruction list a block starts with. */
  predicate Annotated(tacs: seq<Tac>, end: set<Temp>, list: seq<Node>) {
    && |list| == |tacs|
    && forall i :: 0 <= i < |tacs| ==> list[i] == Node(AllocSpec.Plain(tacs[i]), Some(LiveAt(tacs, i + 1, end)))
  }

  class RegisterAllocator {
    const c: AllocSpec.Choices
    const fm: MipsFrameManager
    var regVar: seq<Option<Temp>>
    var tempReg: map<Temp, nat>
    var drawn: nat
    var list: seq<Node>
    var liveIn: set<Temp>

    constructor (choices: AllocSpec.Choices, frameManager: MipsFrameManager, regs: nat)
      requires regs > 0
      ensures c == choices && fm == frameManager
      ensures regVar == seq(regs, _ => None) && tempReg == map[] && drawn == 0
    {
      c := choices;
      fm := frameManager;
      regVar := seq(regs, _ => None);
      tempReg := map[];
      drawn := 0;
      list, liveIn := [], {};
    }

    function S(): St
      reads this, fm
    {
      AllocSpec.St(regVar, tempReg, fm.frame, drawn)
    }

    method InsertBefore(item: Item, k: nat)
      requires k <= |list|
      modifies this`list
      ensures list == old(list)[..k] + [Node(item, None)] + old(list)[k..]
    {
      list := list[..k] + [Node(item, None)] + list[k..];
    }

    method IsAlive(k: nat, t: Temp) returns (alive: bool)
      requires k <= |list|
      ensures alive <==> t in LiveBefore(list, k, liveIn)
    {
      var j := k;
      while j > 0 && list[j - 1].liveOut.None?
        invariant 0 <= j <= k
        invariant LiveBefore(list, j, liveIn) == LiveBefore(list, k, liveIn)
      {
        j := j - 1;
      }
      if j > 0 {
        return t in list[j - 1].liveOut.value;
      }
      return t in liveIn;
    }

    method Bind(r: nat, t: Temp)
      requires r < |regVar|
      modifies this`regVar, this`tempReg
      ensures S() == AllocSpec.Bind(old(S()), r, t)
    {
      regVar := regVar[r := Some(t)];
      tempReg := tempReg[t := r];
    }

    /** The register scan that needs no spill. */
    method ScanFree(k: nat) returns (r: nat)
      requires k <= |list|
      ensures r == AllocSpec.FirstFree(S(), LiveBefore(list, k, liveIn), 0)
    {
      ghost var live := LiveBefore(list, k, liveIn);
      r := 0;
      while r < |regVar|
        invariant r <= |regVar|
        invariant AllocSpec.FirstFree(S(), live, r) == AllocSpec.FirstFree(S(), live, 0)
      {
        if regVar[r].None? {
          return;
        }
        var alive := IsAlive(k, regVar[r].value);
        if !alive {
          return;
        }
        r := r + 1;
      }
    }

    /** The scan for a temporary that already has a slot. */
    method ScanFixed() returns (r: nat)
      ensures r == AllocSpec.FirstFixed(S(), 0)
    {
      r := 0;
      while r < |regVar|
        invariant r <= |regVar|
        invariant AllocSpec.FirstFixed(S(), r) == AllocSpec.FirstFixed(S(), 0)
      {
        if regVar[r].Some? && regVar[r].value in fm.frame.off {
          return;
        }
        r := r + 1;
      }
    }

    /** Take register r for t before element k, loading t when it is read. */
    method Take(k: nat, r: nat, t: Temp, read: bool) returns (k': nat)
      requires k <= |list| && r < |regVar|
      modifies this`regVar, this`tempReg, this`list, fm
      ensures drawn == old(drawn)
      ensures S() == AllocSpec.Place(old(S()), r, t, read, []).st
      ensures
        var ins := AllocSpec.Place(old(S()), r, t, read, []).items;
        list == old(list)[..k] + Inserted(ins) + old(list)[k..] && k' == k + |ins|
    {
      k' := k;
      Bind(r, t);
      if read {
        fm.AssignSlot(t);
        InsertBefore(AllocSpec.Reload(t, fm.frame.off[t]), k);
        k' := k + 1;
        assert Inserted([AllocSpec.Reload(t, fm.frame.off[t])]) == [Node(AllocSpec.Reload(t, fm.frame.off[t]), None)];
      } else {
        assert Inserted([]) == [];
      }
    }

    /** Store the temporary of register r in its slot, then take the register. */
    method SpillAndTake(k: nat, r: nat, t: Temp, read: bool) returns (k': nat)
      requires k <= |list| && r < |regVar| && regVar[r].Some? && regVar[r].value in fm.frame.off
      modifies this`regVar, this`tempReg, this`list, fm
      ensures drawn == old(drawn)
      ensures
        var v := old(regVar)[r].value;
        var p := AllocSpec.Place(old(S()), r, t, read, [AllocSpec.Spill(v, old(fm.frame.off[v]))]);
        && S() == p.st && k' == k + |p.items|
        && list == old(list)[..k] + Inserted(p.items) + old(list)[k..]
    {
      var v := regVar[r].value;
      var spill := AllocSpec.Spill(v, fm.frame.off[v]);
      ghost var st0, list0 := S(), list;
      InsertBefore(spill, k);
      ghost var list1 := list;
      k' := Take(k + 1, r, t, read);
      TakeAfterSpill(list0, list1, list, k, spill, AllocSpec.Place(st0, r, t, read, []).items);
      assert AllocSpec.Place(st0, r, t, read, [spill]).items == [spill] + AllocSpec.Place(st0, r, t, read, []).items;
    }

    /** Find a register for temporary t, used by the instruction at position k; returns
        that instruction's new position. */
    method FindReg(k: nat, t: Temp, read: bool) returns (k': nat)
      requires k <= |list| && |regVar| > 0
      modifies this`regVar, this`tempReg, this`drawn, this`list, fm
      ensures
        var p := AllocSpec.FindReg(c, old(S()), LiveBefore(old(list), k, liveIn), t, read);
        && S() == p.st && k' == k + |p.items|
        && list == old(list)[..k] + Inserted(p.items) + old(list)[k..]
    {
      hide AllocSpec.Place;
      k' := k;
      if t in tempReg && tempReg[t] < |regVar| && regVar[tempReg[t]] == Some(t) {
        assert Inserted([]) == [];
        return;
      }
      ghost var live := LiveBefore(list, k, liveIn);
      var r := ScanFree(k);
      if r < |regVar| {
        k' := Take(k, r, t, read);
        return;
      }
      r := ScanFixed();
      if r < |regVar| {
        assert !AllocSpec.Free(S(), live, r);
        k' := SpillAndTake(k, r, t, read);
        return;
      }
      r := c.random(drawn) % |regVar|;
      assert !AllocSpec.Free(S(), live, r);
      drawn := drawn + 1;
      fm.AssignSlot(regVar[r].value);
      k' := SpillAndTake(k, r, t, read);
    }

    /** Registers for the operands an instruction reads, in order. */
    method FindRegsForRead(k: nat, ts: seq<Temp>) returns (k': nat)
      requires k <= |list| && |regVar| > 0
      modifies this`regVar, this`tempReg, this`drawn, this`list, fm
      ensures
        var p := AllocSpec.PlaceReads(c, old(S()), LiveBefore(old(list), k, liveIn), ts);
        && S() == p.st && k' == k + |p.items|
        && list == old(list)[..k] + Inserted(p.items) + old(list)[k..]
    {
      hide AllocSpec.FindReg, AllocSpec.PlaceReads, LiveBefore;
      ghost var st0, list0, live := S(), list, LiveBefore(list, k, liveIn);
      k' := k;
      PlaceReadsNil(c, st0, live, ts[..0]);
      assert Inserted([]) == [];
      for i := 0 to |ts|
        invariant |regVar| > 0 && k' <= |list| && |st0.regVar| > 0
        invariant
          var p := AllocSpec.PlaceReads(c, st0, live, ts[..i]);
          && S() == p.st && k' == k + |p.items|
          && list == list0[..k] + Inserted(p.items) + list0[k..]
      {
        ghost var p := AllocSpec.PlaceReads(c, st0, live, ts[..i]);
        ghost var q := AllocSpec.FindReg(c, p.st, live, ts[i], true);
        InsertedIsTransparent(list0, k, p.items, |p.items|, liveIn);
        k' := FindReg(k', ts[i], true);
        InsertTwice(list0, k, p.items, q.items);
        PlaceReadsSnoc(c, st0, live, ts, i);
      }
      assert ts[..|ts|] == ts;
    }

    /** Registers for all operands of an instruction. */
    method FindRegs(k: nat, tac: Tac) returns (k': nat)
      requires k <= |list| && |regVar| > 0
      modifies this`regVar, this`tempReg, this`drawn, this`list, fm
      ensures
        var p := AllocSpec.PlaceOperands(c, old(S()), LiveBefore(old(list), k, liveIn), tac);
        && S() == p.st && k' == k + |p.items|
        && list == old(list)[..k] + Inserted(p.items) + old(list)[k..]
    {
      hide AllocSpec.FindReg, AllocSpec.PlaceReads;
      ghost var st0, list0, live := S(), list, LiveBefore(list, k, liveIn);
      k' := FindRegsForRead(k, Reads(tac));
      match Writes(tac) {
        case None =>
        case Some(d) =>
          ghost var p := AllocSpec.PlaceReads(c, st0, live, Reads(tac));
          ghost var q := AllocSpec.FindReg(c, p.st, live, d, false);
          InsertedIsTransparent(list0, k, p.items, |p.items|, liveIn);
          k' := FindReg(k', d, false);
          InsertTwice(list0, k, p.items, q.items);
      }
    }

    /** Give every temporary of ts that is in a register a slot, and list them. */
    method CollectSaves(ts: seq<Temp>, except: Option<Temp>) returns (saved: seq<Temp>)
      modifies fm
      ensures saved == AllocSpec.Saved(old(S()), ts, except)
      ensures fm.frame == FindSlots(old(fm.frame), saved)
    {
      hide FindSlot;
      saved := [];
      assert ts[..0] == [];
      for i := 0 to |ts|
        invariant saved == AllocSpec.Saved(old(S()), ts[..i], except)
        invariant fm.frame == FindSlots(old(fm.frame), saved)
      {
        var t := ts[i];
        assert ts[..i + 1][..i] == ts[..i];
        if t in tempReg && tempReg[t] < |regVar| && regVar[tempReg[t]] == Some(t) && Some(t) != except {
          fm.AssignSlot(t);
          assert (saved + [t])[..|saved|] == saved;
          saved := saved + [t];
        }
      }
      assert ts[..|ts|] == ts;
    }

    /** The instruction at position k, from operands to its own list element; returns the
        position after it. */
    method AllocTac(k: nat) returns (k': nat)
      requires k < |list| && |regVar| > 0 && list[k].item.Plain? && list[k].liveOut.Some?
      modifies this`regVar, this`tempReg, this`drawn, this`list, fm
      ensures
        var n := old(list)[k];
        var p := AllocSpec.AllocTac(c, old(S()), LiveBefore(old(list), k, liveIn), n.liveOut.value, n.item.tac);
        && S() == p.st && k' == k + |p.items|
        && list ==
          old(list)[..k] + Inserted(p.items[..|p.items| - 1]) +
          [Node(p.items[|p.items| - 1], n.liveOut)] + old(list)[k + 1..]
    {
      hide AllocSpec.PlaceOperands, AllocSpec.Emit;
      var n := list[k];
      var tac := n.item.tac;
      ghost var st0, list0, live := S(), list, LiveBefore(list, k, liveIn);
      ghost var p := AllocSpec.PlaceOperands(c, st0, live, tac);
      k' := FindRegs(k, tac);
      assert list[k'] == n && list[..k'] == list0[..k] + Inserted(p.items) && list[k' + 1..] == list0[k + 1..];
      var item := n.item;
      match tac {
        case Call(ret, _) =>
          var argc := Pending(fm.frame);
          fm.EndActuals();
          var saved := CollectSaves(c.order(n.liveOut.value), ret);
          ghost var st1 := p.st.(frame := FinishActual(p.st.frame));
          SavedFrame(p.st, st1, c.order(n.liveOut.value), ret);
          item := AllocSpec.CallAt(tac, AllocSpec.WithSlots(fm.frame.off, saved), argc);
        case Parm(_) =>
          var offset := fm.PushActual();
          item := AllocSpec.ParmAt(tac, offset);
        case _ =>
      }
      assert item == AllocSpec.ItemFor(c, p.st, n.liveOut.value, tac);
      assert S() == AllocSpec.FrameAfter(c, p.st, n.liveOut.value, tac);
      list := list[..k'] + [Node(item, n.liveOut)] + list[k' + 1..];
      k' := k' + 1;
      assert (p.items + [item])[..|p.items|] == p.items;
    }

    method Clear()
      modifies this`regVar
      ensures S() == AllocSpec.Clear(old(S()))
    {
      ghost var was := regVar;
      for r := 0 to |regVar|
        invariant |regVar| == |was|
        invariant forall j :: 0 <= j < r ==> regVar[j] == None
        invariant forall j :: r <= j < |was| ==> regVar[j] == was[j]
      {
        if regVar[r] != None {
          regVar := regVar[r := None];
        }
      }
    }

    /** All instructions of a block, in order. */
    method AllocList(tacs: seq<Tac>, ghost end: set<Temp>)
      requires |regVar| > 0 && Annotated(tacs, end, list) && liveIn == LiveAt(tacs, 0, end)
      modifies this`regVar, this`tempReg, this`drawn, this`list, fm
      ensures
        var p := AllocSpec.AllocPrefix(c, old(S()), tacs, end, |tacs|);
        S() == p.st && Items(list) == p.items
    {
      hide AllocSpec.AllocTac, LiveAt, LiveBefore;
      ghost var st0, list0 := S(), list;
      var k := 0;
      LiveBeforeStart(list, liveIn);
      for i := 0 to |tacs|
        invariant |regVar| == |st0.regVar| > 0 && k <= |list|
        invariant
          var p := AllocSpec.AllocPrefix(c, st0, tacs, end, i);
          S() == p.st && k == |p.items| && Items(list[..k]) == p.items
        invariant list[k..] == list0[i..]
        invariant LiveBefore(list, k, liveIn) == LiveAt(tacs, i, end)
      {
        ghost var p, list1, k1 := AllocSpec.AllocPrefix(c, st0, tacs, end, i), list, k;
        assert list[k] == list[k..][0] == list0[i] == Node(AllocSpec.Plain(tacs[i]), Some(LiveAt(tacs, i + 1, end)));
        k := AllocTac(k);
        ghost var q := AllocSpec.AllocTac(c, p.st, LiveAt(tacs, i, end), LiveAt(tacs, i + 1, end), tacs[i]);
        AllocTacNonEmpty(c, p.st, LiveAt(tacs, i, end), LiveAt(tacs, i + 1, end), tacs[i]);
        ListGrows(list1, list, k1, q.items, p.items, Some(LiveAt(tacs, i + 1, end)));
        assert list1[k1 + 1..] == list1[k1..][1..];
        LiveBeforeAnnotated(list, k, liveIn);
      }
      assert list[k..] == [];
      assert list[..k] == list;
    }

    /** A block: its instructions, its saves and the register of the tested value. */
    method Alloc(b: Block, in': set<Temp>, liveOuts: seq<set<Temp>>, liveOut: set<Temp>) returns (a: Allocated)
      requires |regVar| > 0 && |liveOuts| == |b.tacs|
      requires forall i :: 0 <= i < |b.tacs| ==> liveOuts[i] == LiveAt(b.tacs, i + 1, EndLive(b, liveOut))
      requires in' == LiveAt(b.tacs, 0, EndLive(b, liveOut))
      modifies this, fm
      ensures a == AllocSpec.AllocBlock(c, old(S()), b, liveOut) && S() == a.st
    {
      hide AllocSpec.AllocPrefix, LiveAt, FindSlots, FindSlot;
      Clear();
      liveIn := in';
      list := seq(|b.tacs|, i requires 0 <= i < |b.tacs| => Node(AllocSpec.Plain(b.tacs[i]), Some(liveOuts[i])));
      ghost var st0, end := S(), EndLive(b, liveOut);
      AllocList(b.tacs, end);
      ghost var p := AllocSpec.AllocPrefix(c, st0, b.tacs, end, |b.tacs|);
      var saved := CollectSaves(c.order(liveOut), None);
      var saves := AllocSpec.WithSlots(fm.frame.off, saved);
      var varReg := 0;
      if b.endKind != ByBranch && b.endVar.Some? {
        var v := b.endVar.value;
        if v in tempReg && tempReg[v] < |regVar| && regVar[tempReg[v]] == Some(v) {
          varReg := tempReg[v];
        } else {
          tempReg := tempReg[v := 0];
          SlotAssigned(fm.frame, v);
          fm.AssignSlot(v);
          list := list + [Node(AllocSpec.Reload(v, fm.frame.off[v]), None)];
        }
      }
      a := AllocSpec.Allocated(AllocSpec.St(regVar, tempReg, fm.frame, drawn), Items(list), saves, varReg);
    }

    /** Code generation, after the whole block has been allocated. */
    method GenAsmForBlock(a: Allocated) returns (code: seq<Asm>)
      requires a.st.tempReg == tempReg
      ensures code == AllocSpec.BlockCode(a)
    {
      hide AllocSpec.EmitAll, AllocSpec.StoreAll;
      var body := GenItems(a.items);
      var saves := GenSaves(a.saves);
      code := body + saves;
    }

    method GenItems(items: seq<Item>) returns (code: seq<Asm>)
      ensures code == AllocSpec.EmitAll(items, tempReg)
    {
      hide AllocSpec.Emit;
      code := [];
      assert items[..0] == [];
      for i := 0 to |items|
        invariant code == AllocSpec.EmitAll(items[..i], tempReg)
      {
        code := code + AllocSpec.Emit(items[i], tempReg);
        assert items[..i + 1] == items[..i] + [items[i]];
        EmitSnoc(items[..i], items[i], tempReg);
      }
      assert items[..|items|] == items;
    }

    method GenSaves(saves: seq<(Temp, int)>) returns (code: seq<Asm>)
      ensures code == AllocSpec.StoreAll(tempReg, saves)
    {
      code := [];
      for i := 0 to |saves|
        invariant code == AllocSpec.StoreAll(tempReg, saves[..i])
      {
        code := code + [SlotStore(AllocSpec.RegOf(tempReg, saves[i].0), saves[i].1)];
        assert AllocSpec.StoreAll(tempReg, saves[..i + 1])
            == AllocSpec.StoreAll(tempReg, saves[..i]) + [SlotStore(AllocSpec.RegOf(tempReg, saves[i].0), saves[i].1)];
      }
      assert saves[..|saves|] == saves;
    }

    /** All blocks of a function: liveness, annotation, allocation and code, in order. */
    method EmitAsm(g: seq<Block>) returns (allocs: seq<Allocated>, code: seq<seq<Asm>>, in': Sets, out: Sets)
      requires |regVar| > 0 && WellFormedGraph(g)
      modifies this, fm
      ensures Solution(g, in', out) && Least(g, in', out)
      ensures allocs == AllocAll(c, old(S()), g, out)
      ensures |code| == |g| && forall i :: 0 <= i < |g| ==> code[i] == AllocSpec.BlockCode(allocs[i])
      ensures fm.frame.off == SlotsOf(c, old(S()), g, out)
    {
      hide AllocSpec.AllocBlock, AllocSpec.BlockCode, LiveAt, BlockDefUse;
      var fg := new FlowGraph(g);
      fg.AnalyzeLiveness();
      in', out := fg.liveIn, fg.liveOut;
      SolutionClosed(g, in', out);
      ghost var st0 := S();
      allocs, code := [], [];
      for i := 0 to |g|
        invariant |regVar| == |st0.regVar| > 0
        invariant S() == StateBefore(c, st0, g, out, i)
        invariant |allocs| == |code| == i
        invariant forall j :: 0 <= j < i ==>
          allocs[j] == AllocOf(c, st0, g, out, j) && code[j] == AllocSpec.BlockCode(allocs[j])
      {
        var liveOuts := AnnotateLiveness(g[i], out[i]);
        var a := Alloc(g[i], in'[i], liveOuts, out[i]);
        var asm := GenAsmForBlock(a);
        allocs, code := allocs + [a], code + [asm];
        StateAfter(c, st0, g, out, i);
      }
    }
  }

  lemma PlaceReadsNil(c: AllocSpec.Choices, st: St, live: set<Temp>, ts: seq<Temp>)
    requires |st.regVar| > 0 && ts == []
    ensures AllocSpec.PlaceReads(c, st, live, ts) == AllocSpec.Placed(st, [])
  {
  }

  lemma PlaceReadsSnoc(c: AllocSpec.Choices, st: St, live: set<Temp>, ts: seq<Temp>, i: nat)
    requires |st.regVar| > 0 && i < |ts|
    ensures
      var p := AllocSpec.PlaceReads(c, st, live, ts[..i]);
      var q := AllocSpec.FindReg(c, p.st, live, ts[i], true);
      AllocSpec.PlaceReads(c, st, live, ts[..i + 1]) == AllocSpec.Placed(q.st, p.items + q.items)
  {
    hide AllocSpec.FindReg;
    assert ts[..i + 1][..i] == ts[..i];
  }

  lemma TakeAfterSpill(list0: seq<Node>, list1: seq<Node>, list2: seq<Node>, k: nat, spill: Item, ins: seq<Item>)
    requires k <= |list0|
    requires list1 == list0[..k] + [Node(spill, None)] + list0[k..]
    requires list2 == list1[..k + 1] + Inserted(ins) + list1[k + 1..]
    ensures list2 == list0[..k] + Inserted([spill] + ins) + list0[k..]
  {
    assert list1[..k + 1] == list0[..k] + [Node(spill, None)];
    assert list1[k + 1..] == list0[k..];
    assert Inserted([spill] + ins) == [Node(spill, None)] + Inserted(ins);
  }

  lemma InsertTwice(list: seq<Node>, k: nat, a: seq<Item>, b: seq<Item>)
    requires k <= |list|
    ensures
      var one := list[..k] + Inserted(a) + list[k..];
      one[..k + |a|] + Inserted(b) + one[k + |a|..] == list[..k] + Inserted(a + b) + list[k..]
  {
    var one := list[..k] + Inserted(a) + list[k..];
    assert one[..k + |a|] == list[..k] + Inserted(a);
    assert one[k + |a|..] == list[k..];
    assert Inserted(a + b) == Inserted(a) + Inserted(b);
  }

  /** Which temporaries are saved does not depend on the frame. */
  lemma {:induction false} SavedFrame(st: St, st': St, ts: seq<Temp>, except: Option<Temp>)
    requires st'.regVar == st.regVar && st'.tempReg == st.tempReg
    ensures AllocSpec.Saved(st', ts, except) == AllocSpec.Saved(st, ts, except)
    decreases |ts|
  {
    if ts != [] {
      SavedFrame(st, st', ts[..|ts| - 1], except);
    }
  }

  lemma LiveBeforeStart(list: seq<Node>, liveIn: set<Temp>)
    ensures LiveBefore(list, 0, liveIn) == liveIn
  {
  }

  lemma LiveBeforeAnnotated(list: seq<Node>, k: nat, liveIn: set<Temp>)
    requires 0 < k <= |list| && list[k - 1].liveOut.Some?
    ensures LiveBefore(list, k, liveIn) == list[k - 1].liveOut.value
  {
  }

  lemma AllocTacNonEmpty(c: AllocSpec.Choices, st: St, live: set<Temp>, liveOut: set<Temp>, tac: Tac)
    requires |st.regVar| > 0
    ensures |AllocSpec.AllocTac(c, st, live, liveOut, tac).items| > 0
  {
    hide AllocSpec.PlaceOperands, AllocSpec.ItemFor, AllocSpec.FrameAfter;
  }

  /** One instruction's elements take the place of its original node. */
  lemma ListGrows(
    before: seq<Node>, after: seq<Node>, k: nat, items: seq<Item>, done: seq<Item>, ann: Option<set<Temp>>)
    requires k < |before| && |items| > 0 && Items(before[..k]) == done
    requires after == before[..k] + Inserted(items[..|items| - 1]) + [Node(items[|items| - 1], ann)] + before[k + 1..]
    ensures k + |items| <= |after| && Items(after[..k + |items|]) == done + items
    ensures after[k + |items|..] == before[k + 1..]
    ensures after[k + |items| - 1].liveOut == ann
  {
    var mid := Inserted(items[..|items| - 1]) + [Node(items[|items| - 1], ann)];
    assert after[..k + |items|] == before[..k] + mid;
    forall i | 0 <= i < k + |items| ensures Items(after[..k + |items|])[i] == (done + items)[i] {
      if i < k { assert Items(before[..k])[i] == done[i]; }
    }
  }

  lemma SlotAssigned(f: Frame, t: Temp)
    ensures t in FindSlot(f, t).off
  {
  }
}
