/** How a nested function reaches a local of a function around it. */
module Upvalues {
  import opened Shapes

  datatype Local = Local(name: string, reg: Reg, captured: bool)

  /** Where a function finds a captured variable when it is created: in a register of the
      function around it, or among the variables that one has captured. */
  datatype Descriptor = InRegister(reg: Reg) | InUpvalue(index: nat)

  datatype Scope = Scope(locals: seq<Local>, upvalues: seq<Descriptor>)

  /** The last position of a local called `name`, or -1. */
  function Position(locals: seq<Local>, name: string): (p: int)
    ensures -1 <= p < |locals| && (p >= 0 ==> locals[p].name == name)
    ensures forall k :: p < k < |locals| ==> locals[k].name != name
  {
    if locals == [] then -1
    else if locals[|locals| - 1].name == name then |locals| - 1
    else Position(locals[..|locals| - 1], name)
  }

  /** Every descriptor refers to something in the function around. */
  predicate WellFormed(scopes: seq<Scope>) {
    forall i, k :: 0 <= i < |scopes| && 0 <= k < |scopes[i].upvalues| ==>
      i > 0 && (scopes[i].upvalues[k].InUpvalue? ==> scopes[i].upvalues[k].index < |scopes[i - 1].upvalues|)
  }

  /** A function of the nest and one of its registers. */
  datatype Place = Place(scope: nat, reg: Reg)

  /** Where following the descriptors from upvalue `k` of function `i` ends. */
  function Follow(scopes: seq<Scope>, i: nat, k: nat): Place
    requires WellFormed(scopes) && i < |scopes| && k < |scopes[i].upvalues|
    decreases i
  {
    match scopes[i].upvalues[k]
    case InRegister(reg) => Place(i - 1, reg)
    case InUpvalue(index) => Follow(scopes, i - 1, index)
  }

  /** The nearest function around function `i` with a local called `name`, or -1. */
  function Nearest(scopes: seq<Scope>, i: nat, name: string): (j: int)
    requires i < |scopes|
    ensures -1 <= j < i
    ensures j >= 0 ==> Position(scopes[j].locals, name) >= 0
    ensures forall m :: j < m < i ==> Position(scopes[m].locals, name) < 0
    decreases i
  {
    if i == 0 then -1
    else if Position(scopes[i - 1].locals, name) >= 0 then i - 1
    else Nearest(scopes, i - 1, name)
  }

  /** Scopes only grow: locals are the same but for the mark, upvalues are added at the end. */
  ghost predicate Extends(a: seq<Scope>, b: seq<Scope>) {
    && |a| == |b|
    && forall i :: 0 <= i < |a| ==>
         && a[i].upvalues <= b[i].upvalues
         && |a[i].locals| == |b[i].locals|
         && forall k :: 0 <= k < |a[i].locals| ==> b[i].locals[k].name == a[i].locals[k].name && b[i].locals[k].reg == a[i].locals[k].reg && (a[i].locals[k].captured ==> b[i].locals[k].captured)
  }

  /** What an index stands for never changes. */
  lemma {:induction false} FollowStays(a: seq<Scope>, b: seq<Scope>, i: nat, k: nat)
    requires WellFormed(a) && WellFormed(b) && Extends(a, b) && i < |a| && k < |a[i].upvalues|
    ensures Follow(b, i, k) == Follow(a, i, k)
    decreases i
  {
    assert a[i].upvalues <= b[i].upvalues;
    assert b[i].upvalues[k] == a[i].upvalues[k];
    match a[i].upvalues[k]
    case InRegister(_) =>
    case InUpvalue(index) => FollowStays(a, b, i - 1, index);
  }

  /** A scope with local `p` marked as captured. */
  function Marked(s: Scope, p: nat): Scope
    requires p < |s.locals|
  {
    s.(locals := s.locals[p := s.locals[p].(captured := true)])
  }

  lemma {:induction false} MarkKeeps(scopes: seq<Scope>, j: nat, p: nat)
    requires WellFormed(scopes) && j < |scopes| && p < |scopes[j].locals|
    ensures var marked := scopes[j := Marked(scopes[j], p)]; WellFormed(marked) && Extends(scopes, marked)
  {
    var marked := scopes[j := Marked(scopes[j], p)];
    assert forall i :: 0 <= i < |scopes| ==> marked[i].upvalues == scopes[i].upvalues;
  }

  class Nest {
    var scopes: seq<Scope>

    constructor (scopes: seq<Scope>)
      ensures this.scopes == scopes
    {
      this.scopes := scopes;
    }

    /** The index of a descriptor in function `i`, added unless it is there. */
    method AddUpvalue(i: nat, d: Descriptor) returns (index: nat)
      requires WellFormed(scopes) && 0 < i < |scopes| && (d.InUpvalue? ==> d.index < |scopes[i - 1].upvalues|)
      modifies this
      ensures WellFormed(scopes) && Extends(old(scopes), scopes)
      ensures index < |scopes[i].upvalues| && scopes[i].upvalues[index] == d
      ensures forall m :: 0 <= m < |scopes| ==> scopes[m].locals == old(scopes)[m].locals
    {
      var ups := scopes[i].upvalues;
      index := 0;
      while index < |ups|
        invariant 0 <= index <= |ups| && forall k :: 0 <= k < index ==> ups[k] != d
      {
        if ups[index] == d { return; }
        index := index + 1;
      }
      scopes := scopes[i := scopes[i].(upvalues := ups + [d])];
    }

    /** Captures local `p` of the function around function `i`. */
    method Capture(i: nat, p: nat) returns (index: nat)
      requires WellFormed(scopes) && 0 < i < |scopes| && p < |scopes[i - 1].locals|
      modifies this
      ensures WellFormed(scopes) && Extends(old(scopes), scopes)
      ensures index < |scopes[i].upvalues| && Follow(scopes, i, index) == Place(i - 1, old(scopes)[i - 1].locals[p].reg)
      ensures scopes[i - 1].locals == old(scopes)[i - 1].locals[p := old(scopes)[i - 1].locals[p].(captured := true)]
      ensures forall m :: 0 <= m < |scopes| && m != i - 1 ==> scopes[m].locals == old(scopes)[m].locals
    {
      var around := scopes[i - 1];
      var l := around.locals[p];
      MarkKeeps(scopes, i - 1, p);
      scopes := scopes[i - 1 := Marked(around, p)];
      ghost var marked := scopes;
      index := AddUpvalue(i, InRegister(l.reg));
      ExtendsTwice(old(scopes), marked, scopes);
    }

    /** Finds `name` in the functions around function `i`: in the nearest that has a local of
        that name, its innermost one, which is marked as captured; the functions between pass
        it on. */
    method ResolveUpvalue(i: nat, name: string) returns (index: Option<nat>)
      requires WellFormed(scopes) && i < |scopes|
      modifies this
      ensures WellFormed(scopes) && Extends(old(scopes), scopes)
      ensures index.Some? <==> Nearest(old(scopes), i, name) >= 0
      ensures index.None? ==> scopes == old(scopes)
      ensures index.Some? ==>
                var j := Nearest(old(scopes), i, name);
                var p := Position(old(scopes)[j].locals, name);
                && index.value < |scopes[i].upvalues|
                && Follow(scopes, i, index.value) == Place(j, old(scopes)[j].locals[p].reg)
                && scopes[j].locals == old(scopes)[j].locals[p := old(scopes)[j].locals[p].(captured := true)]
                && forall m :: 0 <= m < |scopes| && m != j ==> scopes[m].locals == old(scopes)[m].locals
      decreases i
    {
      if i == 0 { return None; }
      var around := i - 1;
      var p := Position(scopes[around].locals, name);
      if p >= 0 {
        var k := Capture(i, p);
        return Some(k);
      }
      var outer := ResolveUpvalue(around, name);
      if outer.None? { return None; }
      ghost var found := scopes;
      var k := AddUpvalue(i, InUpvalue(outer.value));
      ExtendsTwice(old(scopes), found, scopes);
      FollowStays(found, scopes, around, outer.value);
      return Some(k);
    }
  }

  lemma {:induction false} ExtendsTwice(a: seq<Scope>, b: seq<Scope>, c: seq<Scope>)
    requires Extends(a, b) && Extends(b, c)
    ensures Extends(a, c)
  {
    forall i | 0 <= i < |a| ensures a[i].upvalues <= c[i].upvalues {
      assert a[i].upvalues <= b[i].upvalues && b[i].upvalues <= c[i].upvalues;
    }
  }
}
