/** The variables of objects: their order, their offsets and the size of an object. */
module DispatchFields {
  import opened Options
  import opened Dispatch

  predicate IsVar(r: Option<Member>) {
    r.Some? && r.value.kind.Var?
  }

  /** How many variables a scope declares. */
  function VarsIn(scope: seq<Member>): nat {
    |set i | 0 <= i < |scope| && scope[i].kind.Var?|
  }

  /** The variables of an object: those of its class and of all ancestors. */
  function VarsOf(c: Class): nat {
    VarsIn(c.scope) + if c.Root? then 0 else VarsOf(c.parent)
  }

  lemma VarsSnoc(front: seq<Member>, m: Member)
    ensures VarsIn(front + [m]) == VarsIn(front) + if m.kind.Var? then 1 else 0
  {
    var scope := front + [m];
    var a := set i | 0 <= i < |front| && front[i].kind.Var?;
    var b := set i | 0 <= i < |scope| && scope[i].kind.Var?;
    assert b == a + if m.kind.Var? then {|front|} else {};
  }

  lemma {:induction false} VarsBefore(scope: seq<Member>, i: nat, j: nat)
    requires i < j <= |scope|
    ensures VarsIn(scope[..i]) + (if scope[i].kind.Var? then 1 else 0) <= VarsIn(scope[..j])
  {
    hide VarsIn;
    VarsSnoc(scope[..j - 1], scope[j - 1]);
    assert scope[..j - 1] + [scope[j - 1]] == scope[..j];
    if i < j - 1 {
      VarsBefore(scope, i, j - 1);
    }
  }

  /** The variables of a scope get the numbers after the inherited ones, in order of
      declaration; nothing else gets one. */
  ghost predicate Numbered(inherited: Layout, scope: seq<Member>, l: Layout) {
    && l.vars == inherited.vars + VarsIn(scope) && l.size == inherited.size + 4 * VarsIn(scope)
    && (forall x :: x in l.fields <==> x in inherited.fields || IsVar(Own(scope, x)))
    && (forall x :: x in inherited.fields && !IsVar(Own(scope, x)) ==> l.fields[x] == inherited.fields[x])
    && forall i :: 0 <= i < |scope| && scope[i].kind.Var? ==> NumberedAt(inherited, scope, l, i)
  }

  ghost predicate NumberedAt(inherited: Layout, scope: seq<Member>, l: Layout, i: nat)
    requires i < |scope|
  {
    scope[i].name in l.fields && l.fields[scope[i].name] == inherited.vars + VarsIn(scope[..i])
  }

  lemma {:induction false} AddAllNumbers(inherited: Layout, scope: seq<Member>)
    requires NamesDistinct(scope)
    ensures Numbered(inherited, scope, AddAll(inherited, scope))
  {
    hide Numbered, Own, Add;
    if scope == [] {
      NoneNumbered(inherited);
    } else {
      var front, m := scope[..|scope| - 1], scope[|scope| - 1];
      AddAllNumbers(inherited, front);
      assert scope == front + [m];
      NewName(front, m);
      AddNumbers(inherited, front, AddAll(inherited, front), m);
    }
  }

  lemma NoneNumbered(inherited: Layout)
    ensures Numbered(inherited, [], inherited)
  {
    assert VarsIn([]) == 0;
  }

  lemma NewName(front: seq<Member>, m: Member)
    requires NamesDistinct(front + [m])
    ensures Own(front, m.name).None?
  {
    forall j | 0 <= j < |front| ensures front[j].name != m.name {
      assert (front + [m])[j] == front[j] && (front + [m])[|front|] == m;
    }
  }

  lemma AddNumbers(inherited: Layout, front: seq<Member>, l: Layout, m: Member)
    requires Own(front, m.name).None? && Numbered(inherited, front, l)
    ensures Numbered(inherited, front + [m], Add(inherited, l, m))
  {
    hide VarsIn, Own;
    var scope, r := front + [m], Add(inherited, l, m);
    VarsSnoc(front, m);
    hide NumberedAt;
    forall x ensures Own(scope, x) == if x == m.name then Some(m) else Own(front, x) { OwnSnoc(front, m, x); }
    forall i | 0 <= i < |scope| && scope[i].kind.Var? ensures NumberedAt(inherited, scope, r, i) {
      assert i < |front| ==> scope[i] == front[i];
      AddNumberAt(inherited, front, l, m, i);
    }
  }

  lemma AddNumberAt(inherited: Layout, front: seq<Member>, l: Layout, m: Member, i: nat)
    requires Own(front, m.name).None? && i <= |front| && (front + [m])[i].kind.Var?
    requires if i < |front| then NumberedAt(inherited, front, l, i) else l.vars == inherited.vars + VarsIn(front)
    ensures NumberedAt(inherited, front + [m], Add(inherited, l, m), i)
  {
    hide VarsIn, Own;
    if i < |front| {
      assert (front + [m])[..i] == front[..i];
      OtherName(front, m.name, i);
    } else {
      assert (front + [m])[..i] == front;
    }
  }

  lemma OtherName(scope: seq<Member>, name: string, i: nat)
    requires Own(scope, name).None? && i < |scope|
    ensures scope[i].name != name
  {
  }

  /** Numbers below the count, never twice. */
  ghost predicate Apart(l: Layout) {
    && (forall x :: x in l.fields ==> l.fields[x] < l.vars)
    && forall x, y :: x in l.fields && y in l.fields && x != y ==> l.fields[x] != l.fields[y]
  }

  /** Variables do not hide inherited ones, so the numbers stay apart. */
  lemma NumberedApart(inherited: Layout, scope: seq<Member>, l: Layout)
    requires NamesDistinct(scope) && Numbered(inherited, scope, l) && Apart(inherited)
    requires forall x :: x in inherited.fields ==> !IsVar(Own(scope, x))
    ensures Apart(l)
  {
    forall x | x in l.fields
      ensures l.fields[x] < l.vars
      ensures x !in inherited.fields ==> l.fields[x] >= inherited.vars
    {
      if x !in inherited.fields { var i := NumberOf(inherited, scope, l, x); }
    }
    forall x, y | x in l.fields && y in l.fields && x != y ensures l.fields[x] != l.fields[y] {
      if x !in inherited.fields && y !in inherited.fields {
        var i := NumberOf(inherited, scope, l, x);
        var j := NumberOf(inherited, scope, l, y);
        if i < j { VarsBefore(scope, i, j); } else { VarsBefore(scope, j, i); }
      }
    }
  }

  lemma NumberOf(inherited: Layout, scope: seq<Member>, l: Layout, x: string) returns (i: nat)
    requires Numbered(inherited, scope, l) && x in l.fields && x !in inherited.fields
    ensures i < |scope| && scope[i].name == x && scope[i].kind.Var?
    ensures l.fields[x] == inherited.vars + VarsIn(scope[..i]) && l.fields[x] < l.vars
  {
    hide VarsIn;
    i :| 0 <= i < |scope| && scope[i] == Own(scope, x).value;
    assert NumberedAt(inherited, scope, l, i);
    VarsBefore(scope, i, |scope|);
    assert scope[..|scope|] == scope;
  }

  /** An object has as many variables as its class and its ancestors declare; the visible
      ones are numbered below that, never twice; and its size is a pointer and a word each. */
  lemma {:induction false} FieldsExact(c: Class)
    requires Checked(c)
    ensures LayoutOf(c).vars == VarsOf(c) && LayoutOf(c).size == 4 + 4 * VarsOf(c) && Apart(LayoutOf(c))
    ensures forall x :: x in LayoutOf(c).fields <==> IsVar(Nearest(c, x))
  {
    hide VarsIn;
    var inherited := if c.Root? then Start() else LayoutOf(c.parent);
    AddAllNumbers(inherited, c.scope);
    if c.Sub? {
      FieldsExact(c.parent);
      forall x | Own(c.scope, x).Some? ensures Nearest(c.parent, x).None? || IsMethod(Own(c.scope, x)) { Hides(c, x); }
      forall x | x in inherited.fields ensures !IsVar(Own(c.scope, x)) {}
    }
    NumberedApart(inherited, c.scope, LayoutOf(c));
    forall x ensures x in LayoutOf(c).fields <==> IsVar(Nearest(c, x)) {
      if c.Sub? && Own(c.scope, x).Some? { Hides(c, x); }
    }
  }

  /** What the override check leaves. */
  lemma Hides(c: Class, x: string)
    requires Checked(c) && c.Sub? && Own(c.scope, x).Some?
    ensures Nearest(c.parent, x).None? || (IsMethod(Own(c.scope, x)) && IsMethod(Nearest(c.parent, x)))
  {
    var i :| 0 <= i < |c.scope| && c.scope[i] == Own(c.scope, x).value;
    assert c.scope[i].name == x;
  }

  /** An object of a subclass is laid out like one of the class, with the new variables
      behind. */
  lemma {:induction false} FieldsStable(a: Class, c: Class)
    requires Checked(c) && AtOrAbove(a, c)
    ensures Checked(a) && LayoutOf(a).vars <= LayoutOf(c).vars
    ensures forall x :: x in LayoutOf(a).fields ==>
      x in LayoutOf(c).fields && LayoutOf(c).fields[x] == LayoutOf(a).fields[x]
  {
    hide VarsIn;
    if a != c {
      FieldsStable(a, c.parent);
      FieldsExact(c.parent);
      AddAllNumbers(LayoutOf(c.parent), c.scope);
      forall x | x in LayoutOf(c.parent).fields ensures !IsVar(Own(c.scope, x)) {
        if Own(c.scope, x).Some? { Hides(c, x); }
      }
    }
  }

  // ----- offsets -----

  /** The offset that the first pass of the translation gives to the i-th member of a class,
      a variable: behind the parent's object, in order. */
  function Offset(c: Class, i: nat): nat
    requires i < |c.scope|
  {
    (if c.Root? then 4 else LayoutOf(c.parent).size) + 4 * VarsIn(c.scope[..i])
  }

  /** It is the word that the variable's number says, inside the object. */
  lemma OffsetExact(c: Class, i: nat)
    requires Checked(c) && i < |c.scope| && c.scope[i].kind.Var?
    ensures
      var l := LayoutOf(c);
      && c.scope[i].name in l.fields && Offset(c, i) == 4 + 4 * l.fields[c.scope[i].name]
      && 4 <= Offset(c, i) && Offset(c, i) + 4 <= l.size
  {
    hide VarsIn;
    var inherited := if c.Root? then Start() else LayoutOf(c.parent);
    AddAllNumbers(inherited, c.scope);
    assert NumberedAt(inherited, c.scope, LayoutOf(c), i);
    FieldsExact(c);
    if c.Sub? {
      FieldsExact(c.parent);
    }
  }
}
