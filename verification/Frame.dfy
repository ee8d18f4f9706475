/** The frame manager: one word of the frame per temporary that ever needs one, and the
    outgoing-argument area at the other end of the frame. */
module Frame {
  import opened Tac

  const WORD := 4

  /** off: slots handed out, as offsets from the frame pointer; next: the offset counter
      for locals; current/max: bytes of locals; actual/maxActual: bytes of arguments. */
  datatype Frame = Frame(off: map<Temp, int>, next: int, current: int, max: int, actual: int, maxActual: int)

  /** State at the start of a function; `params` are the slots of its formal parameters. */
  function Reset(params: map<Temp, int>): Frame {
    Frame(params, -2 * WORD, 0, 0, WORD, WORD)
  }

  function FindSlot(f: Frame, t: Temp): Frame {
    if t in f.off then f
    else
      f.(off := f.off[t := f.next],
         next := f.next - WORD,
         current := f.current + WORD,
         max := if f.current + WORD > f.max then f.current + WORD else f.max)
  }

  function AddActual(f: Frame): Frame {
    f.(actual := f.actual + WORD)
  }

  function FinishActual(f: Frame): Frame {
    f.(maxActual := if f.actual > f.maxActual then f.actual else f.maxActual, actual := WORD)
  }

  /** How many arguments have been pushed since the last call. */
  function Pending(f: Frame): nat {
    if f.actual >= WORD then (f.actual - WORD) / WORD else 0
  }

  /** The argument offset is that of the next argument word. */
  predicate Aligned(f: Frame) {
    f.actual == WORD + WORD * Pending(f)
  }

  function FrameSize(f: Frame): int {
    f.max + f.maxActual
  }

  function FindSlots(f: Frame, ts: seq<Temp>): Frame
    decreases |ts|
  {
    if ts == [] then f else FindSlot(FindSlots(f, ts[..|ts| - 1]), ts[|ts| - 1])
  }

  ghost predicate Injective(off: map<Temp, int>) {
    forall t, u :: t in off && u in off && t != u ==> off[t] != off[u]
  }

  ghost predicate Extends(small: map<Temp, int>, big: map<Temp, int>) {
    forall t :: t in small ==> t in big && big[t] == small[t]
  }

  ghost predicate IsParam(k: int) {
    k >= WORD
  }

  /** Every slot is a formal parameter's (above the frame pointer) or one of the local
      words below the saved $fp and $ra, and no two temporaries share one. */
  ghost predicate FrameOk(f: Frame) {
    && Injective(f.off)
    && (forall t :: t in f.off ==> IsParam(f.off[t]) || (f.next + WORD <= f.off[t] <= -2 * WORD))
    && f.next == -2 * WORD - f.current
    && 0 <= f.current == f.max
    && WORD <= f.actual && WORD <= f.maxActual
  }

  lemma FindSlotOk(f: Frame, t: Temp)
    requires FrameOk(f)
    ensures FrameOk(FindSlot(f, t)) && Extends(f.off, FindSlot(f, t).off) && t in FindSlot(f, t).off
    ensures FindSlot(f, t).actual == f.actual
  {
  }

  lemma {:induction false} FindSlotsOk(f: Frame, ts: seq<Temp>)
    requires FrameOk(f)
    ensures FrameOk(FindSlots(f, ts)) && Extends(f.off, FindSlots(f, ts).off)
    ensures forall t :: t in ts ==> t in FindSlots(f, ts).off
    ensures FindSlots(f, ts).actual == f.actual
    decreases |ts|
  {
    if ts != [] {
      FindSlotsOk(f, ts[..|ts| - 1]);
    }
  }

  /** Layout of the finished frame.  With $sp set FrameSize + 8 bytes below $fp, a local
      slot and an argument word never coincide, and neither meets the saved $fp (offset 0)
      or the saved $ra (offset -4). */
  lemma FrameLayout(f: Frame, t: Temp, k: int)
    requires FrameOk(f) && t in f.off
    requires WORD <= k < f.maxActual
    ensures var sp := -(FrameSize(f) + 2 * WORD);
      && f.off[t] > sp + k
      && sp + k < -WORD
      && f.off[t] != 0 && f.off[t] != -WORD
      && (f.off[t] < 0 ==> f.off[t] >= sp + f.maxActual + WORD)
  {
  }

  /** Word k of the frame, below the two saved ones, belongs to some temporary. */
  ghost predicate Used(f: Frame, k: int) {
    exists t :: t in f.off && f.off[t] == k
  }

  /** Every word of the locals' area is the slot of a temporary. */
  ghost predicate Dense(f: Frame) {
    f.current % WORD == 0 && forall k :: 0 <= k < f.current / WORD ==> Used(f, -2 * WORD - WORD * k)
  }

  /** No word is wasted: a new slot is the next word, and exactly one. */
  lemma FindSlotDense(f: Frame, t: Temp)
    requires FrameOk(f) && Dense(f)
    ensures Dense(FindSlot(f, t)) && FindSlot(f, t).current == f.current + if t in f.off then 0 else 4
    ensures FindSlot(f, t).max == FindSlot(f, t).current && FindSlot(f, t).maxActual == f.maxActual
  {
    if t !in f.off {
      var g := FindSlot(f, t);
      forall k | 0 <= k < g.current / WORD ensures Used(g, -2 * WORD - WORD * k) {
        if k < f.current / WORD {
          assert Used(f, -2 * WORD - WORD * k);
          var u :| u in f.off && f.off[u] == -2 * WORD - WORD * k;
          assert u in g.off && g.off[u] == f.off[u];
        } else {
          assert t in g.off && g.off[t] == -2 * WORD - WORD * k;
        }
      }
    }
  }

  /** n arguments one after the other. */
  function Pushed(f: Frame, n: nat): Frame {
    if n == 0 then f else AddActual(Pushed(f, n - 1))
  }

  lemma {:induction false} PushedCounts(f: Frame, n: nat)
    ensures Pushed(f, n) == f.(actual := f.actual + WORD * n)
  {
    if n > 0 {
      PushedCounts(f, n - 1);
    }
  }

  /** The arguments of a call of n arguments have words of their own, which lie in the
      argument area of the frame and apart from every slot, after this call and any other. */
  lemma ArgumentsFit(f: Frame, n: nat, i: nat, j: nat, t: Temp)
    requires FrameOk(f) && f.actual == WORD && i < n && j < n && t in f.off
    ensures
      var g := FinishActual(Pushed(f, n));
      var a, sp := Pushed(f, i).actual, -(FrameSize(g) + 2 * WORD);
      && FrameOk(g) && g.off == f.off && g.actual == WORD
      && g.maxActual == (if f.maxActual < 4 * (n + 1) then 4 * (n + 1) else f.maxActual)
      && (i != j ==> a != Pushed(f, j).actual)
      && WORD <= a < g.maxActual && g.off[t] != sp + a
  {
    PushedCounts(f, i);
    PushedCounts(f, j);
    PushedCounts(f, n);
    FrameLayout(FinishActual(Pushed(f, n)), t, Pushed(f, i).actual);
  }

  /** The object the allocator talks to. */
  class MipsFrameManager {
    var frame: Frame

    constructor (params: map<Temp, int>)
      ensures frame == Reset(params)
    {
      frame := Reset(params);
    }

    method AssignSlot(t: Temp)
      modifies this
      ensures frame == FindSlot(old(frame), t)
      ensures FrameOk(old(frame)) ==> FrameOk(frame) && Extends(old(frame).off, frame.off)
    {
      if t in frame.off {
        return;
      }
      var offset := frame.next;
      frame := frame.(off := frame.off[t := offset], next := frame.next - WORD, current := frame.current + WORD);
      if frame.current > frame.max {
        frame := frame.(max := frame.current);
      }
    }

    /** The argument goes into the first word that no argument of this call has. */
    method PushActual() returns (offset: int)
      modifies this
      ensures frame == AddActual(old(frame)) && offset == old(frame).actual
      ensures FrameOk(old(frame)) ==> FrameOk(frame)
      ensures Aligned(old(frame)) ==> Aligned(frame) && Pending(frame) == Pending(old(frame)) + 1
      ensures Aligned(old(frame)) ==> offset == WORD + WORD * Pending(old(frame))
    {
      offset := frame.actual;
      frame := frame.(actual := frame.actual + WORD);
    }

    /** The area now has room for every argument of the finished call, and no earlier call
        has lost any. */
    method EndActuals()
      modifies this
      ensures frame == FinishActual(old(frame)) && Aligned(frame) && Pending(frame) == 0
      ensures FrameOk(old(frame)) ==> FrameOk(frame)
      ensures frame.maxActual >= old(frame).actual && frame.maxActual >= old(frame).maxActual
      ensures FrameSize(frame) >= FrameSize(old(frame)) && frame.off == old(frame).off
    {
      if frame.actual > frame.maxActual {
        frame := frame.(maxActual := frame.actual);
      }
      frame := frame.(actual := WORD);
    }
  }
}
