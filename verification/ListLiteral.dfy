/** List literals: one `MakeList`, or, for a long one, an empty list extended chunk by chunk. */
module ListLiteral {
  type Reg = nat

  const ChunkSize: nat := 64

  /** An element: a local, which needs no code, or an expression whose code leaves its value in
      the next free register and uses `need` registers from there on. */
  datatype Elem = Local(reg: Reg) | Computed(val: nat, need: nat)

  datatype Val = Nil | V(id: nat) | List(at: nat)

  datatype Instr =
    | Evaluate(dst: Reg, val: nat, need: nat)
    | Move(dst: Reg, src: Reg)
    | MakeList(dst: Reg, start: Reg, count: nat)
    /** `obj.extend(arg)`, its argument two registers after the object. */
    | InvokeExtend(obj: Reg)

  datatype State = State(regs: map<Reg, Val>, lists: seq<seq<Val>>)

  function Get(regs: map<Reg, Val>, r: Reg): Val {
    if r in regs then regs[r] else Nil
  }

  /** Registers an expression's code used on the way. */
  function Scratch(regs: map<Reg, Val>, from: Reg, n: nat): map<Reg, Val> {
    if n == 0 then regs else Scratch(regs, from, n - 1)[from + n - 1 := Nil]
  }

  function Window(regs: map<Reg, Val>, start: Reg, n: nat): (s: seq<Val>)
    ensures |s| == n && forall i :: 0 <= i < n ==> s[i] == Get(regs, start + i)
  {
    seq(n, i requires 0 <= i < n => Get(regs, start + i))
  }

  function Step(i: Instr, s: State): State {
    match i
    case Evaluate(dst, val, need) => s.(regs := Scratch(s.regs, dst, need)[dst := V(val)])
    case Move(dst, src) => s.(regs := s.regs[dst := Get(s.regs, src)])
    case MakeList(dst, start, count) => State(s.regs[dst := List(|s.lists|)], s.lists + [Window(s.regs, start, count)])
    case InvokeExtend(obj) =>
      var l, a := Get(s.regs, obj), Get(s.regs, obj + 2);
      if l.List? && a.List? && l.at < |s.lists| && a.at < |s.lists| then State(s.regs[obj := Nil], s.lists[l.at := s.lists[l.at] + s.lists[a.at]])
      else s
  }

  function Run(code: seq<Instr>, s: State): State {
    if code == [] then s else Step(code[|code| - 1], Run(code[..|code| - 1], s))
  }

  lemma {:induction false} RunConcat(a: seq<Instr>, b: seq<Instr>, s: State)
    ensures Run(a + b, s) == Run(b, Run(a, s))
    decreases |b|
  {
    if b == [] {
      assert a + b == a;
    } else {
      var n := |b| - 1;
      assert (a + b)[..|a| + n] == a + b[..n];
      RunConcat(a, b[..n], s);
    }
  }

  // The code.

  function ElemCode(e: Elem, m: Reg): seq<Instr> {
    if e.Local? then [] else [Evaluate(m, e.val, e.need)]
  }

  function ElemReg(e: Elem, m: Reg): Reg {
    if e.Local? then e.reg else m
  }

  /** The elements of a chunk, each moved to its place in the window above `m`. */
  function Placed(elems: seq<Elem>, m: Reg): seq<Instr> {
    if elems == [] then []
    else
      var n := |elems| - 1;
      var expected := m + 1 + n;
      Placed(elems[..n], m) + ElemCode(elems[n], expected + 1) + [Move(expected, ElemReg(elems[n], expected + 1))]
  }

  function ChunkCode(elems: seq<Elem>, m: Reg): seq<Instr> {
    Placed(elems, m) + [MakeList(m, m + 1, |elems|)]
  }

  function ExtendCall(receiver: Reg, arg: Reg, m: Reg): seq<Instr> {
    [Move(m, receiver), Move(m + 1, m)] + (if m + 2 != arg then [Move(m + 2, arg)] else []) + [InvokeExtend(m)]
  }

  /** The elements before the last chunk: all but a chunk's worth or less. */
  function LastChunk(elems: seq<Elem>): (at: nat)
    requires elems != []
    ensures at < |elems| && |elems| - at <= ChunkSize && at % ChunkSize == 0
  {
    (|elems| - 1) / ChunkSize * ChunkSize
  }

  /** The list in `m` extended by the elements, chunk by chunk. */
  function Extended(elems: seq<Elem>, m: Reg): seq<Instr> {
    if elems == [] then []
    else
      var at := LastChunk(elems);
      Extended(elems[..at], m) + ChunkCode(elems[at..], m + 1) + ExtendCall(m, m + 1, m + 2)
  }

  function ListCode(elems: seq<Elem>, m: Reg): seq<Instr> {
    if |elems| <= ChunkSize then ChunkCode(elems, m) else [MakeList(m, m, 0)] + Extended(elems, m)
  }

  // What it does.

  function Value(e: Elem, regs: map<Reg, Val>): Val {
    if e.Local? then Get(regs, e.reg) else V(e.val)
  }

  function Values(elems: seq<Elem>, regs: map<Reg, Val>): (s: seq<Val>)
    ensures |s| == |elems| && forall i :: 0 <= i < |s| ==> s[i] == Value(elems[i], regs)
  {
    seq(|elems|, i requires 0 <= i < |elems| => Value(elems[i], regs))
  }

  /** Locals live below the first free register. */
  predicate Below(elems: seq<Elem>, m: Reg) {
    forall i :: 0 <= i < |elems| && elems[i].Local? ==> elems[i].reg < m
  }

  ghost predicate Same(a: map<Reg, Val>, b: map<Reg, Val>, m: Reg) {
    forall r: Reg :: r < m ==> Get(b, r) == Get(a, r)
  }

  lemma {:induction false} ScratchKeeps(regs: map<Reg, Val>, from: Reg, n: nat)
    ensures Same(regs, Scratch(regs, from, n), from)
    decreases n
  {
    if n > 0 { ScratchKeeps(regs, from, n - 1); }
  }

  /** The window above `m` holds the elements' values. */
  ghost predicate Holds(t: map<Reg, Val>, elems: seq<Elem>, m: Reg, regs: map<Reg, Val>) {
    forall i :: 0 <= i < |elems| ==> Get(t, m + 1 + i) == Value(elems[i], regs)
  }

  lemma {:induction false} HoldsMore(t: map<Reg, Val>, u: map<Reg, Val>, elems: seq<Elem>, m: Reg, regs: map<Reg, Val>)
    requires elems != [] && Below(elems, m) && Holds(t, elems[..|elems| - 1], m, regs) && Same(regs, t, m)
    requires Same(t, u, m + |elems|) && Get(u, m + |elems|) == Value(elems[|elems| - 1], t)
    ensures Holds(u, elems, m, regs) && Same(regs, u, m)
  {
    var n := |elems| - 1;
    forall i | 0 <= i < |elems| ensures Get(u, m + 1 + i) == Value(elems[i], regs) {
      if i < n { assert elems[..n][i] == elems[i]; }
    }
  }

  lemma {:induction false} BelowFirst(elems: seq<Elem>, m: Reg)
    requires elems != [] && Below(elems, m)
    ensures Below(elems[..|elems| - 1], m) && (elems[|elems| - 1].Local? ==> elems[|elems| - 1].reg < m)
  {
  }

  lemma {:induction false} PlacedRuns(elems: seq<Elem>, m: Reg, s: State)
    requires Below(elems, m)
    ensures var t := Run(Placed(elems, m), s); t.lists == s.lists && Same(s.regs, t.regs, m) && Holds(t.regs, elems, m, s.regs)
    decreases |elems|
  {
    if elems == [] {
      assert Run([], s) == s;
    } else {
      hide *;
      BelowFirst(elems, m);
      var n := |elems| - 1;
      var e, expected := elems[n], m + 1 + n;
      var first, code, move := Placed(elems[..n], m), ElemCode(e, expected + 1), [Move(expected, ElemReg(e, expected + 1))];
      PlacedIs(elems, m);
      PlacedRuns(elems[..n], m, s);
      var t := Run(first, s);
      RunConcat(first + code, move, s);
      RunConcat(first, code, s);
      ElementRuns(e, expected, t);
      HoldsMore(t.regs, Run(Placed(elems, m), s).regs, elems, m, s.regs);
    }
  }

  lemma {:induction false} PlacedIs(elems: seq<Elem>, m: Reg)
    requires elems != []
    ensures
      var n := |elems| - 1;
      var expected := m + 1 + n;
      Placed(elems, m) == Placed(elems[..n], m) + ElemCode(elems[n], expected + 1) + [Move(expected, ElemReg(elems[n], expected + 1))]
  {
  }

  /** One element: its value in its place, everything before it untouched. */
  lemma {:induction false} ElementRuns(e: Elem, expected: Reg, t: State)
    requires e.Local? ==> e.reg < expected
    ensures
      var u := Run([Move(expected, ElemReg(e, expected + 1))], Run(ElemCode(e, expected + 1), t));
      u.lists == t.lists && Same(t.regs, u.regs, expected) && Get(u.regs, expected) == Value(e, t.regs)
  {
    var code := ElemCode(e, expected + 1);
    if e.Computed? {
      ScratchKeeps(t.regs, expected + 1, e.need);
      assert code[..0] == [];
      assert Run([], t) == t;
      assert Run(code, t) == Step(code[0], Run(code[..0], t));
    }
    var v := Run(code, t);
    var move := [Move(expected, ElemReg(e, expected + 1))];
    assert move[..0] == [];
    assert Run([], v) == v;
    assert Run(move, v) == Step(move[0], Run(move[..0], v));
    hide Run;
  }

  /** A chunk leaves a fresh list of its elements in `m`. */
  lemma {:induction false} ChunkRuns(elems: seq<Elem>, m: Reg, s: State)
    requires Below(elems, m)
    ensures
      var t := Run(ChunkCode(elems, m), s);
      t.lists == s.lists + [Values(elems, s.regs)] && Same(s.regs, t.regs, m) && Get(t.regs, m) == List(|s.lists|)
  {
    PlacedRuns(elems, m, s);
    var t := Run(Placed(elems, m), s);
    var make := [MakeList(m, m + 1, |elems|)];
    RunConcat(Placed(elems, m), make, s);
    assert make[..0] == [] && Run([], t) == t && Run(make, t) == Step(make[0], Run(make[..0], t));
    hide Run, Placed;
    assert Window(t.regs, m + 1, |elems|) == Values(elems, s.regs);
  }

  lemma {:induction false} RunSnoc(code: seq<Instr>, i: Instr, s: State)
    ensures Run(code + [i], s) == Step(i, Run(code, s))
  {
    assert (code + [i])[..|code|] == code;
  }

  /** The call's window: the receiver twice and the argument, in three registers in a row. */
  lemma {:induction false} WindowRuns(receiver: Reg, arg: Reg, m: Reg, s: State)
    requires receiver < m && (arg < m || arg == m + 2)
    ensures
      var t := Run([Move(m, receiver), Move(m + 1, m)] + if m + 2 != arg then [Move(m + 2, arg)] else [], s);
      && t.lists == s.lists && Same(s.regs, t.regs, m)
      && Get(t.regs, m) == Get(t.regs, m + 1) == Get(s.regs, receiver) && Get(t.regs, m + 2) == Get(s.regs, arg)
  {
    var a, b, c := Move(m, receiver), Move(m + 1, m), Move(m + 2, arg);
    assert Run([], s) == s;
    hide Run;
    RunSnoc([], a, s);
    RunSnoc([a], b, s);
    assert [] + [a] == [a] && [a] + [b] == [a, b] && [a, b] + [] == [a, b];
    if m + 2 != arg { RunSnoc([a, b], c, s); }
  }

  /** Code that appends the list in `arg` to the list in `receiver` and keeps every register
      below `m` and every other list. */
  ghost predicate Appends(code: seq<Instr>, receiver: Reg, arg: Reg, m: Reg) {
    forall s: State, i: nat, j: nat ::
      Get(s.regs, receiver) == List(i) && Get(s.regs, arg) == List(j) && i < |s.lists| && j < |s.lists| ==>
        Run(code, s).lists == s.lists[i := s.lists[i] + s.lists[j]] && Same(s.regs, Run(code, s).regs, m)
  }

  lemma {:induction false} ExtendCallAppends(receiver: Reg, arg: Reg, m: Reg)
    requires receiver < m && (arg < m || arg == m + 2)
    ensures Appends(ExtendCall(receiver, arg, m), receiver, arg, m)
  {
    var window := [Move(m, receiver), Move(m + 1, m)] + if m + 2 != arg then [Move(m + 2, arg)] else [];
    forall s: State, i: nat, j: nat | Get(s.regs, receiver) == List(i) && Get(s.regs, arg) == List(j) && i < |s.lists| && j < |s.lists|
      ensures Run(ExtendCall(receiver, arg, m), s).lists == s.lists[i := s.lists[i] + s.lists[j]]
      ensures Same(s.regs, Run(ExtendCall(receiver, arg, m), s).regs, m)
    {
      WindowRuns(receiver, arg, m, s);
      RunSnoc(window, InvokeExtend(m), s);
      hide Run;
    }
  }

  lemma {:induction false} ExtendRuns(m: Reg, s: State, i: nat, j: nat)
    requires Get(s.regs, m) == List(i) && Get(s.regs, m + 1) == List(j) && i < |s.lists| && j < |s.lists|
    ensures
      var t := Run(ExtendCall(m, m + 1, m + 2), s);
      t.lists == s.lists[i := s.lists[i] + s.lists[j]] && Same(s.regs, t.regs, m + 1)
  {
    ExtendCallAppends(m, m + 1, m + 2);
    hide Run;
  }

  /** List `i` has grown by `vals`; the others are as they were. */
  ghost predicate Grown(a: seq<seq<Val>>, b: seq<seq<Val>>, i: nat, vals: seq<Val>) {
    i < |a| <= |b| && (forall k :: 0 <= k < |a| && k != i ==> b[k] == a[k]) && b[i] == a[i] + vals
  }

  lemma {:induction false} GrownMore(a: seq<seq<Val>>, b: seq<seq<Val>>, i: nat, vals: seq<Val>, chunk: seq<Val>)
    requires Grown(a, b, i, vals)
    ensures var c := b + [chunk]; Grown(a, c[i := c[i] + c[|b|]], i, vals + chunk)
  {
    assert a[i] + vals + chunk == a[i] + (vals + chunk);
  }

  lemma {:induction false} GrownByNone(a: seq<seq<Val>>, i: nat)
    requires i < |a|
    ensures Grown(a, a, i, [])
  {
    assert a[i] + [] == a[i];
  }

  /** Extending chunk by chunk adds the elements in order to the list in `m`. */
  lemma {:induction false} ExtendedRuns(elems: seq<Elem>, m: Reg, s: State, i: nat)
    requires Below(elems, m) && Get(s.regs, m) == List(i) && i < |s.lists|
    ensures var t := Run(Extended(elems, m), s); Same(s.regs, t.regs, m + 1) && Grown(s.lists, t.lists, i, Values(elems, s.regs))
    decreases |elems|
  {
    if elems == [] {
      assert Run([], s) == s;
      GrownByNone(s.lists, i);
    } else {
      hide *;
      var at := LastChunk(elems);
      BelowSplit(elems, at, m);
      var first, chunk := Extended(elems[..at], m), ChunkCode(elems[at..], m + 1);
      ExtendedIs(elems, m);
      ExtendedRuns(elems[..at], m, s, i);
      var t := Run(first, s);
      RunConcat(first + chunk, ExtendCall(m, m + 1, m + 2), s);
      RunConcat(first, chunk, s);
      ChunkRuns(elems[at..], m + 1, t);
      var u := Run(chunk, t);
      SameParts(s.regs, t.regs, u.regs, m);
      GrownIndex(s.lists, t.lists, i, Values(elems[..at], s.regs));
      ExtendRuns(m, u, i, |t.lists|);
      SameParts(s.regs, t.regs, Run(ExtendCall(m, m + 1, m + 2), u).regs, m);
      SameOn(t.regs, u.regs, Run(ExtendCall(m, m + 1, m + 2), u).regs, m);
      ValuesSplit(elems, at, s.regs, t.regs, m);
      GrownMore(s.lists, t.lists, i, Values(elems[..at], s.regs), Values(elems[at..], t.regs));
    }
  }

  lemma {:induction false} BelowSplit(elems: seq<Elem>, at: nat, m: Reg)
    requires at <= |elems| && Below(elems, m)
    ensures Below(elems[..at], m) && Below(elems[at..], m + 1)
  {
  }

  lemma {:induction false} GrownIndex(a: seq<seq<Val>>, b: seq<seq<Val>>, i: nat, vals: seq<Val>)
    requires Grown(a, b, i, vals)
    ensures i < |b|
  {
  }

  lemma {:induction false} SameParts(a: map<Reg, Val>, b: map<Reg, Val>, c: map<Reg, Val>, m: Reg)
    requires Same(a, b, m + 1)
    ensures Same(a, b, m) && (Same(b, c, m + 1) ==> Same(a, c, m + 1) && Get(c, m) == Get(a, m)) && Get(b, m) == Get(a, m)
  {
  }

  lemma {:induction false} SameOn(a: map<Reg, Val>, b: map<Reg, Val>, c: map<Reg, Val>, m: Reg)
    requires Same(a, b, m + 1) && Same(b, c, m + 1)
    ensures Same(a, c, m + 1)
  {
  }

  lemma {:induction false} ExtendedIs(elems: seq<Elem>, m: Reg)
    requires elems != []
    ensures var at := LastChunk(elems); Extended(elems, m) == Extended(elems[..at], m) + ChunkCode(elems[at..], m + 1) + ExtendCall(m, m + 1, m + 2)
  {
  }

  lemma {:induction false} ValuesSplit(elems: seq<Elem>, at: nat, a: map<Reg, Val>, b: map<Reg, Val>, m: Reg)
    requires at <= |elems| && Below(elems, m) && Same(a, b, m)
    ensures Values(elems[..at], a) + Values(elems[at..], b) == Values(elems, a)
  {
  }

  /** A literal of any length leaves in `m` a fresh list of exactly its elements, in order, as a
      single `MakeList` would; nothing below `m` and no other list changes. */
  lemma {:induction false} ListLiteralBuilds(elems: seq<Elem>, m: Reg, s: State)
    requires Below(elems, m)
    ensures
      var t := Run(ListCode(elems, m), s);
      && Same(s.regs, t.regs, m) && Get(t.regs, m) == List(|s.lists|) && |s.lists| < |t.lists|
      && t.lists[|s.lists|] == Values(elems, s.regs)
      && (forall k :: 0 <= k < |s.lists| ==> t.lists[k] == s.lists[k])
  {
    hide Run, Extended, ChunkCode, Same, Values, Grown;
    if |elems| <= ChunkSize {
      ChunkRuns(elems, m, s);
    } else {
      var make := [MakeList(m, m, 0)];
      EmptyRuns(m, s, elems);
      var t := Run(make, s);
      RunConcat(make, Extended(elems, m), s);
      ExtendedRuns(elems, m, t, |s.lists|);
      SameTwice(s.regs, t.regs, Run(Extended(elems, m), t).regs, m);
      GrownParts(t.lists, Run(Extended(elems, m), t).lists, |s.lists|, Values(elems, s.regs));
      assert [] + Values(elems, s.regs) == Values(elems, s.regs);
    }
  }

  lemma {:induction false} GrownParts(a: seq<seq<Val>>, b: seq<seq<Val>>, i: nat, vals: seq<Val>)
    requires Grown(a, b, i, vals)
    ensures i < |a| <= |b| && (forall k :: 0 <= k < |a| && k != i ==> b[k] == a[k]) && b[i] == a[i] + vals
  {
  }

  lemma {:induction false} EmptyRuns(m: Reg, s: State, elems: seq<Elem>)
    requires Below(elems, m)
    ensures
      var t := Run([MakeList(m, m, 0)], s);
      t.lists == s.lists + [[]] && Get(t.regs, m) == List(|s.lists|) && Same(s.regs, t.regs, m) && Values(elems, t.regs) == Values(elems, s.regs)
  {
    var make := [MakeList(m, m, 0)];
    assert make[..0] == [] && Run([], s) == s && Run(make, s) == Step(make[0], Run(make[..0], s));
    hide Run;
    assert Window(s.regs, m, 0) == [];
  }

  lemma {:induction false} SameTwice(a: map<Reg, Val>, b: map<Reg, Val>, c: map<Reg, Val>, m: Reg)
    requires Same(a, b, m) && Same(b, c, m + 1)
    ensures Same(a, c, m) && Get(c, m) == Get(b, m)
  {
  }

  /** Chunking changes nothing a program can see of the list. */
  lemma {:induction false} ChunksBuildTheSame(elems: seq<Elem>, m: Reg, s: State)
    requires Below(elems, m)
    ensures
      var a, b := Run(ListCode(elems, m), s).lists, Run(ChunkCode(elems, m), s).lists;
      |s.lists| < |a| && |s.lists| < |b| && a[|s.lists|] == b[|s.lists|]
  {
    hide Run, ListCode, ChunkCode;
    ListLiteralBuilds(elems, m, s);
    ChunkRuns(elems, m, s);
  }

  // Registers.

  /** The registers an instruction writes, and the window a list is made from, are below `n`. */
  predicate Fits(i: Instr, n: nat) {
    match i
    case Evaluate(dst, _, need) => dst + need <= n && dst < n
    case Move(dst, _) => dst < n
    case MakeList(dst, start, count) => dst < n && start + count <= n
    case InvokeExtend(obj) => obj + 2 < n
  }

  predicate AllFit(code: seq<Instr>, n: nat) {
    forall i :: 0 <= i < |code| ==> Fits(code[i], n)
  }

  predicate Needs(elems: seq<Elem>, most: nat) {
    forall i :: 0 <= i < |elems| && elems[i].Computed? ==> 1 <= elems[i].need <= most
  }

  lemma {:induction false} PlacedFits(elems: seq<Elem>, m: Reg, most: nat, n: nat)
    requires Needs(elems, most) && m + 1 + |elems| + most <= n && m + 1 + |elems| <= n
    ensures AllFit(Placed(elems, m), n)
    decreases |elems|
  {
    if elems != [] { PlacedFits(elems[..|elems| - 1], m, most, n); }
  }

  lemma {:induction false} ExtendedFits(elems: seq<Elem>, m: Reg, most: nat)
    requires Needs(elems, most)
    ensures AllFit(Extended(elems, m), m + ChunkSize + 2 + most)
    decreases |elems|
  {
    if elems != [] {
      var at, n := LastChunk(elems), m + ChunkSize + 2 + most;
      ExtendedFits(elems[..at], m, most);
      PlacedFits(elems[at..], m + 1, most, n);
      ExtendedIs(elems, m);
      hide Extended, Placed;
    }
  }

  /** However long the literal, its code stays within a fixed number of registers above the
      first free one, plus what its greediest element needs. */
  lemma {:induction false} ListLiteralFits(elems: seq<Elem>, m: Reg, most: nat)
    requires Needs(elems, most)
    ensures AllFit(ListCode(elems, m), m + ChunkSize + 2 + most)
  {
    if |elems| <= ChunkSize {
      PlacedFits(elems, m, most, m + ChunkSize + 2 + most);
    } else {
      ExtendedFits(elems, m, most);
      hide Extended;
    }
  }

  // The compiler.

  class Registers {
    var code: seq<Instr>
    var nextReg: nat

    constructor (nextReg: nat)
      ensures code == [] && this.nextReg == nextReg
    {
      code, this.nextReg := [], nextReg;
    }

    method Alloc() returns (r: Reg)
      modifies this
      ensures r == old(nextReg) && nextReg == r + 1 && code == old(code)
    {
      r := nextReg;
      nextReg := nextReg + 1;
    }

    method CompileElem(e: Elem) returns (r: Reg)
      modifies this
      ensures code == old(code) + ElemCode(e, old(nextReg)) && r == ElemReg(e, old(nextReg)) && nextReg == old(nextReg) + if e.Local? then 0 else 1
    {
      if e.Local? {
        assert code == code + ElemCode(e, nextReg);
        return e.reg;
      }
      r := Alloc();
      code := code + [Evaluate(r, e.val, e.need)];
    }

    method CompileChunk(elems: seq<Elem>) returns (dst: Reg)
      requires Below(elems, nextReg)
      modifies this
      ensures code == old(code) + ChunkCode(elems, old(nextReg)) && dst == old(nextReg) && nextReg == dst + 1
    {
      ghost var before := code;
      dst := Alloc();
      var start := nextReg;
      hide Placed, ElemCode;
      assert code == before + Placed(elems[..0], dst) by { PlacedNone(dst); }
      for k := 0 to |elems|
        invariant nextReg == dst + 1 + k && code == before + Placed(elems[..k], dst)
      {
        assert elems[..k + 1][..k] == elems[..k];
        PlacedIs(elems[..k + 1], dst);
        var expected := Alloc();
        var r := CompileElem(elems[k]);
        if r != expected { code := code + [Move(expected, r)]; }
        Append(before, Placed(elems[..k], dst), ElemCode(elems[k], expected + 1), [Move(expected, r)]);
        nextReg := expected + 1;
      }
      assert elems[..|elems|] == elems;
      Append(before, Placed(elems, dst), [], [MakeList(dst, start, |elems|)]);
      code := code + [MakeList(dst, start, |elems|)];
      nextReg := dst + 1;
    }

    method EmitExtendCall(receiver: Reg, arg: Reg)
      modifies this
      ensures code == old(code) + ExtendCall(receiver, arg, old(nextReg)) && nextReg == old(nextReg) + 3
      ensures receiver < old(nextReg) && (arg < old(nextReg) || arg == old(nextReg) + 2) ==>
                Appends(code[|old(code)|..], receiver, arg, old(nextReg))
    {
      ghost var before := code;
      if receiver < nextReg && (arg < nextReg || arg == nextReg + 2) { ExtendCallAppends(receiver, arg, nextReg); }
      var obj := Alloc();
      code := code + [Move(obj, receiver)];
      var self := Alloc();
      code := code + [Move(self, obj)];
      var slot := Alloc();
      if slot != arg { code := code + [Move(slot, arg)]; }
      code := code + [InvokeExtend(obj)];
      assert code[|before|..] == ExtendCall(receiver, arg, obj);
    }

    /** Builds one chunk and extends the list in `result` by it. */
    method ExtendByChunk(chunk: seq<Elem>, result: Reg)
      requires Below(chunk, nextReg) && nextReg == result + 1
      modifies this
      ensures code == old(code) + ChunkCode(chunk, result + 1) + ExtendCall(result, result + 1, result + 2) && nextReg == old(nextReg)
    {
      hide ChunkCode, ExtendCall;
      var chunkMark := nextReg;
      var reg := CompileChunk(chunk);
      EmitExtendCall(result, reg);
      nextReg := chunkMark;
    }

    method CompileListLiteral(elems: seq<Elem>) returns (result: Reg)
      requires Below(elems, nextReg)
      modifies this
      ensures code == old(code) + ListCode(elems, old(nextReg)) && result == old(nextReg) && nextReg == result + 1
    {
      if |elems| <= ChunkSize {
        result := CompileChunk(elems);
        return;
      }
      ghost var before := code;
      result := Alloc();
      code := code + [MakeList(result, result, 0)];
      var at := 0;
      hide Extended, ChunkCode, ExtendCall, LastChunk;
      assert Extended(elems[..0], result) == [] by { ExtendedNone(result); }
      assert code == before + [MakeList(result, result, 0)] + Extended(elems[..0], result);
      while at < |elems|
        invariant at <= |elems| && nextReg == result + 1 && (at < |elems| ==> at % ChunkSize == 0)
        invariant code == before + [MakeList(result, result, 0)] + Extended(elems[..at], result)
      {
        var end := if at + ChunkSize < |elems| then at + ChunkSize else |elems|;
        NextChunk(elems, at, end, result);
        ExtendByChunk(elems[at..end], result);
        Append(before + [MakeList(result, result, 0)], Extended(elems[..at], result), ChunkCode(elems[at..end], result + 1), ExtendCall(result, result + 1, result + 2));
        ChunkEnds(at, end, |elems|);
        at := end;
      }
      assert elems[..at] == elems;
      Append(before, [MakeList(result, result, 0)], [], Extended(elems, result));
      nextReg := result + 1;
    }
  }

  lemma {:induction false} ChunkEnds(at: nat, end: nat, n: nat)
    requires at % ChunkSize == 0 && end == if at + ChunkSize < n then at + ChunkSize else n
    ensures end < n ==> end % ChunkSize == 0
  {
  }

  lemma {:induction false} PlacedNone(m: Reg)
    ensures Placed([], m) == []
  {
  }

  lemma {:induction false} ExtendedNone(m: Reg)
    ensures Extended([], m) == []
  {
  }

  lemma {:induction false} Append(a: seq<Instr>, b: seq<Instr>, c: seq<Instr>, d: seq<Instr>)
    ensures a + b + c + d == a + (b + c + d) && (c == [] ==> a + b + d == a + (b + d))
  {
  }

  lemma {:induction false} NextChunk(elems: seq<Elem>, at: nat, end: nat, m: Reg)
    requires at < end <= |elems| && at % ChunkSize == 0 && end - at <= ChunkSize
    ensures Extended(elems[..end], m) == Extended(elems[..at], m) + ChunkCode(elems[at..end], m + 1) + ExtendCall(m, m + 1, m + 2)
  {
    var s := elems[..end];
    assert (end - 1) / ChunkSize == at / ChunkSize;
    assert LastChunk(s) == at;
    assert s[..at] == elems[..at] && s[at..] == elems[at..end];
    ExtendedIs(s, m);
  }
}
