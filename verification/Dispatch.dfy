/** Method slots and virtual tables of a class hierarchy with single inheritance. */
module Dispatch {
  import opened Options

  datatype Kind = Var | Static | Method(code: nat)

  datatype Member = Member(name: string, kind: Kind)

  /** A class with its members in order of declaration; the parent chain is finite because
      cyclic inheritance has been refused. */
  datatype Class = Root(scope: seq<Member>) | Sub(parent: Class, scope: seq<Member>)

  const POINTER_SIZE := 4
  const WORD_SIZE := 4

  // ----- names -----

  function Own(scope: seq<Member>, name: string): (r: Option<Member>)
    ensures r.Some? ==> r.value in scope && r.value.name == name
    ensures r.None? ==> forall i :: 0 <= i < |scope| ==> scope[i].name != name
  {
    if scope == [] then None
    else
      var r := Own(scope[..|scope| - 1], name);
      if r.Some? then r
      else if scope[|scope| - 1].name == name then Some(scope[|scope| - 1])
      else None
  }

  /** The nearest definition of a name at or above a class. */
  function Nearest(c: Class, name: string): Option<Member> {
    match c
    case Root(scope) => Own(scope, name)
    case Sub(parent, scope) => var r := Own(scope, name); if r.Some? then r else Nearest(parent, name)
  }

  predicate IsMethod(r: Option<Member>) {
    r.Some? && r.value.kind.Method?
  }

  ghost predicate NamesDistinct(scope: seq<Member>) {
    forall i, j :: 0 <= i < j < |scope| ==> scope[i].name != scope[j].name
  }

  /** What the override check leaves: a member may share its name with an inherited one
      only if both are methods of objects. */
  ghost predicate Checked(c: Class) {
    && NamesDistinct(c.scope)
    && (c.Sub? ==>
      && Checked(c.parent)
      && forall i :: 0 <= i < |c.scope| && Nearest(c.parent, c.scope[i].name).Some? ==>
           c.scope[i].kind.Method? && IsMethod(Nearest(c.parent, c.scope[i].name)))
  }

  ghost predicate AtOrAbove(a: Class, c: Class) {
    a == c || (c.Sub? && AtOrAbove(a, c.parent))
  }

  // ----- slots -----

  /** The slot of every visible method, the order of every variable, and the counters. */
  datatype Layout = Layout(slots: map<string, nat>, fields: map<string, nat>, funcs: nat, vars: nat, size: nat)

  function Start(): Layout {
    Layout(map[], map[], 0, 0, POINTER_SIZE)
  }

  /** One member: a variable takes the next word; a method takes the slot of the inherited
      one of that name, or the next slot. */
  function Add(inherited: Layout, l: Layout, m: Member): Layout {
    match m.kind
    case Var => l.(fields := l.fields[m.name := l.vars], vars := l.vars + 1, size := l.size + WORD_SIZE)
    case Static => l
    case Method(_) =>
      if m.name in inherited.slots then l.(slots := l.slots[m.name := inherited.slots[m.name]])
      else l.(slots := l.slots[m.name := l.funcs], funcs := l.funcs + 1)
  }

  function AddAll(inherited: Layout, scope: seq<Member>): Layout {
    if scope == [] then inherited else Add(inherited, AddAll(inherited, scope[..|scope| - 1]), scope[|scope| - 1])
  }

  function LayoutOf(c: Class): Layout {
    AddAll(if c.Root? then Start() else LayoutOf(c.parent), c.scope)
  }

  method ResolveFieldOrder(c: Class) returns (l: Layout)
    ensures l == LayoutOf(c)
    decreases c
  {
    var inherited := Start();
    if c.Sub? {
      inherited := ResolveFieldOrder(c.parent);
    }
    l := inherited;
    for i := 0 to |c.scope|
      invariant l == AddAll(inherited, c.scope[..i])
    {
      assert c.scope[..i + 1][..i] == c.scope[..i];
      var m := c.scope[i];
      if m.kind.Var? {
        l := l.(fields := l.fields[m.name := l.vars], vars := l.vars + 1, size := l.size + WORD_SIZE);
      } else if m.kind.Method? {
        if m.name !in inherited.slots {
          l := l.(slots := l.slots[m.name := l.funcs], funcs := l.funcs + 1);
        } else {
          l := l.(slots := l.slots[m.name := inherited.slots[m.name]]);
        }
      }
    }
    assert c.scope[..|c.scope|] == c.scope;
  }

  ghost predicate Occupied(l: Layout, k: nat) {
    exists x :: x in l.slots && l.slots[x] == k
  }

  /** Slots are handed out without gaps and never twice. */
  ghost predicate Exact(l: Layout) {
    && (forall x :: x in l.slots ==> l.slots[x] < l.funcs)
    && (forall x, y :: x in l.slots && y in l.slots && x != y ==> l.slots[x] != l.slots[y])
    && (forall k :: 0 <= k < l.funcs ==> Occupied(l, k))
    && l.size == POINTER_SIZE + WORD_SIZE * l.vars
  }

  ghost predicate Extends(l: Layout, inherited: Layout) {
    inherited.funcs <= l.funcs && forall x :: x in inherited.slots ==> x in l.slots && l.slots[x] == inherited.slots[x]
  }

  lemma NewSlot(l: Layout, name: string)
    requires Exact(l) && name !in l.slots
    ensures Exact(l.(slots := l.slots[name := l.funcs], funcs := l.funcs + 1))
  {
    var r := l.(slots := l.slots[name := l.funcs], funcs := l.funcs + 1);
    forall k | 0 <= k < r.funcs ensures Occupied(r, k) {
      if k < l.funcs {
        assert Occupied(l, k);
        var x :| x in l.slots && l.slots[x] == k;
        assert x in r.slots && r.slots[x] == k;
      } else {
        assert name in r.slots && r.slots[name] == k;
      }
    }
  }

  lemma AddExact(inherited: Layout, l: Layout, m: Member)
    requires Exact(l) && Extends(l, inherited)
    requires m.kind.Method? && m.name !in inherited.slots ==> m.name !in l.slots
    ensures Exact(Add(inherited, l, m)) && Extends(Add(inherited, l, m), inherited)
  {
    if m.kind.Method? {
      if m.name in inherited.slots {
        assert l.slots[m.name := inherited.slots[m.name]] == l.slots;
        assert Add(inherited, l, m) == l;
      } else {
        NewSlot(l, m.name);
      }
    } else {
      var r := Add(inherited, l, m);
      forall k | 0 <= k < r.funcs ensures Occupied(r, k) { assert Occupied(l, k); }
    }
  }

  /** The methods of a scope and the inherited ones have slots, and nothing else. */
  ghost predicate Named(inherited: Layout, scope: seq<Member>, l: Layout) {
    forall x :: x in l.slots <==> x in inherited.slots || IsMethod(Own(scope, x))
  }

  lemma OwnSnoc(scope: seq<Member>, m: Member, x: string)
    requires Own(scope, m.name).None?
    ensures Own(scope + [m], x) == if x == m.name then Some(m) else Own(scope, x)
  {
    assert (scope + [m])[..|scope|] == scope;
  }

  lemma AddNamed(inherited: Layout, front: seq<Member>, l: Layout, m: Member)
    requires Named(inherited, front, l) && Own(front, m.name).None?
    ensures Named(inherited, front + [m], Add(inherited, l, m))
  {
    forall x ensures x in Add(inherited, l, m).slots <==> x in inherited.slots || IsMethod(Own(front + [m], x)) {
      OwnSnoc(front, m, x);
    }
  }

  lemma {:induction false} AddAllExact(inherited: Layout, scope: seq<Member>)
    requires Exact(inherited) && NamesDistinct(scope)
    ensures Exact(AddAll(inherited, scope)) && Extends(AddAll(inherited, scope), inherited)
    ensures Named(inherited, scope, AddAll(inherited, scope))
  {
    if scope != [] {
      var front, m := scope[..|scope| - 1], scope[|scope| - 1];
      AddAllExact(inherited, front);
      assert scope == front + [m];
      assert Own(front, m.name).None?;
      AddExact(inherited, AddAll(inherited, front), m);
      hide Exact, Extends;
      AddNamed(inherited, front, AddAll(inherited, front), m);
    }
  }

  /** The slots of a checked class: exactly its visible methods, without gaps, and the same
      as in its parent for everything inherited. */
  lemma {:induction false} LayoutExact(c: Class)
    requires Checked(c)
    ensures Exact(LayoutOf(c))
    ensures forall x :: x in LayoutOf(c).slots <==> IsMethod(Nearest(c, x))
    ensures c.Sub? ==> Extends(LayoutOf(c), LayoutOf(c.parent))
  {
    if c.Sub? {
      LayoutExact(c.parent);
      AddAllExact(LayoutOf(c.parent), c.scope);
      forall x ensures x in LayoutOf(c).slots <==> IsMethod(Nearest(c, x)) {
        var own := Own(c.scope, x);
        if own.Some? {
          var i :| 0 <= i < |c.scope| && c.scope[i] == own.value;
          assert c.scope[i].name == x;
        }
      }
    } else {
      AddAllExact(Start(), c.scope);
    }
  }

  /** A slot number means the same method in all subclasses. */
  lemma {:induction false} SlotsStable(a: Class, c: Class)
    requires Checked(c) && AtOrAbove(a, c)
    ensures Checked(a) && Extends(LayoutOf(c), LayoutOf(a))
  {
    if a != c {
      SlotsStable(a, c.parent);
      LayoutExact(c);
    }
  }

  // ----- virtual tables -----

  /** The methods of a scope are written into their slots. */
  function Written(e: seq<Option<nat>>, scope: seq<Member>, slots: map<string, nat>): (r: seq<Option<nat>>)
    ensures |r| == |e|
  {
    if scope == [] then e
    else
      var m := scope[|scope| - 1];
      var r := Written(e, scope[..|scope| - 1], slots);
      if m.kind.Method? && m.name in slots && slots[m.name] < |r| then r[slots[m.name] := Some(m.kind.code)] else r
  }

  /** First the parents' methods, then the class's own. */
  function Filled(e: seq<Option<nat>>, c: Class): (r: seq<Option<nat>>)
    ensures |r| == |e|
  {
    Written(if c.Root? then e else Filled(e, c.parent), c.scope, LayoutOf(c).slots)
  }

  function Blank(n: nat): (r: seq<Option<nat>>)
    ensures |r| == n && forall i :: 0 <= i < n ==> r[i] == None
  {
    seq(n, _ => None)
  }

  function Table(c: Class): seq<Option<nat>> {
    Filled(Blank(LayoutOf(c).funcs), c)
  }

  method FillEntries(entries: array<Option<nat>>, c: Class)
    requires Checked(c) && LayoutOf(c).funcs <= entries.Length
    modifies entries
    ensures entries[..] == Filled(old(entries[..]), c)
    decreases c
  {
    LayoutExact(c);
    if c.Sub? {
      FillEntries(entries, c.parent);
    }
    WriteScope(entries, c.scope, LayoutOf(c).slots);
  }

  method WriteScope(entries: array<Option<nat>>, scope: seq<Member>, slots: map<string, nat>)
    requires forall i :: 0 <= i < |scope| && scope[i].kind.Method? ==>
      scope[i].name in slots && slots[scope[i].name] < entries.Length
    modifies entries
    ensures entries[..] == Written(old(entries[..]), scope, slots)
  {
    for i := 0 to |scope|
      invariant entries[..] == Written(old(entries[..]), scope[..i], slots)
    {
      assert scope[..i + 1][..i] == scope[..i];
      if scope[i].kind.Method? {
        entries[slots[scope[i].name]] := Some(scope[i].kind.code);
      }
    }
    assert scope[..|scope|] == scope;
  }

  method CreateVTable(c: Class) returns (entries: array<Option<nat>>)
    requires Checked(c)
    ensures fresh(entries) && entries[..] == Table(c)
  {
    var l := ResolveFieldOrder(c);
    entries := new Option<nat>[l.funcs](_ => None);
    assert entries[..] == Blank(l.funcs);
    FillEntries(entries, c);
  }

  /** Every method of the scope is in its slot; all other entries are as before. */
  lemma {:induction false} WrittenAt(e: seq<Option<nat>>, scope: seq<Member>, l: Layout, x: string)
    requires Exact(l) && l.funcs <= |e| && NamesDistinct(scope) && x in l.slots
    requires forall i :: 0 <= i < |scope| && scope[i].kind.Method? ==> scope[i].name in l.slots
    ensures
      Written(e, scope, l.slots)[l.slots[x]] ==
      if IsMethod(Own(scope, x)) then Some(Own(scope, x).value.kind.code) else e[l.slots[x]]
  {
    if scope != [] {
      var front, m := scope[..|scope| - 1], scope[|scope| - 1];
      WrittenAt(e, front, l, x);
      assert scope == front + [m];
      assert Own(front, m.name).None?;
      OwnSnoc(front, m, x);
    }
  }

  /** The entry of every visible method is its nearest definition. */
  lemma {:induction false} FilledAt(e: seq<Option<nat>>, c: Class, x: string)
    requires Checked(c) && LayoutOf(c).funcs <= |e| && x in LayoutOf(c).slots
    ensures IsMethod(Nearest(c, x)) && LayoutOf(c).slots[x] < |e|
    ensures Filled(e, c)[LayoutOf(c).slots[x]] == Some(Nearest(c, x).value.kind.code)
  {
    var l := LayoutOf(c);
    LayoutExact(c);
    forall i | 0 <= i < |c.scope| && c.scope[i].kind.Method? ensures c.scope[i].name in l.slots {
      OwnAt(c.scope, i);
    }
    if c.Sub? {
      LayoutExact(c.parent);
      WrittenAt(Filled(e, c.parent), c.scope, l, x);
      if Own(c.scope, x).None? {
        FilledAt(e, c.parent, x);
      }
    } else {
      WrittenAt(e, c.scope, l, x);
    }
  }

  lemma OwnAt(scope: seq<Member>, i: nat)
    requires i < |scope| && NamesDistinct(scope)
    ensures Own(scope, scope[i].name) == Some(scope[i])
  {
    var r := Own(scope, scope[i].name);
    assert r.Some?;
    var j :| 0 <= j < |scope| && scope[j] == r.value;
  }

  /** A call through any ancestor's slot reaches the nearest definition at or above the
      object's class. */
  lemma DispatchCorrect(a: Class, c: Class, name: string)
    requires Checked(c) && AtOrAbove(a, c) && IsMethod(Nearest(a, name))
    ensures
      && name in LayoutOf(a).slots && LayoutOf(a).slots[name] < |Table(c)|
      && IsMethod(Nearest(c, name))
      && Table(c)[LayoutOf(a).slots[name]] == Some(Nearest(c, name).value.kind.code)
  {
    SlotsStable(a, c);
    LayoutExact(a);
    LayoutExact(c);
    FilledAt(Blank(LayoutOf(c).funcs), c, name);
  }

  /** No entry of a table is left empty. */
  lemma TableFull(c: Class, k: nat)
    requires Checked(c) && k < |Table(c)|
    ensures Table(c)[k].Some?
  {
    LayoutExact(c);
    assert Occupied(LayoutOf(c), k);
    var x :| x in LayoutOf(c).slots && LayoutOf(c).slots[x] == k;
    FilledAt(Blank(LayoutOf(c).funcs), c, x);
  }
}
