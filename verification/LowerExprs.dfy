/** Lowered expressions mean what the expressions they were made from mean. */
module LowerExprs {
  import opened Shapes
  import opened Values
  import opened Surface
  import opened Lower
  import opened Erasure

  predicate IsPlace(kind: Kind, args: seq<Expr>) {
    (kind.GetField? && |args| == 1) || (kind.GetIndex? && |args| == 2)
  }

  /** What the parser lets an assignment assign to. */
  predicate Assignable(target: Expr) {
    target.Ident? || (target.Op? && IsPlace(target.kind, target.args))
  }

  /** Names as the lexer makes them, assignments to what can be assigned to, and interpolated
      strings that start with text. */
  predicate FineExpr(e: Expr)
    decreases e
  {
    match e
    case Lit(_) => true
    case Ident(name) => name.User?
    case Shorthand(name) => name.User?
    case Op(_, args) => forall i :: 0 <= i < |args| ==> FineExpr(args[i])
    case Circuit(a, _, b) => FineExpr(a) && FineExpr(b)
    case Condition(c, t, f) => FineExpr(c) && FineExpr(t) && FineExpr(f)
    case Assign(target, value) => Assignable(target) && FineExpr(target) && FineExpr(value)
    case CompoundAssign(target, _, value) => Assignable(target) && FineExpr(target) && FineExpr(value)
    case Update(target, _) => Assignable(target) && FineExpr(target)
    case Interpolation(segments) => segments != [] && segments[0].Text? && forall i :: 0 <= i < |segments| ==> FineSegment(segments[i])
  }

  predicate FineSegment(s: Segment)
    decreases s
  {
    s.Part? ==> FineExpr(s.e)
  }

  lemma {:induction false} EvalTwo(h: Host, reading: Reading, a: Expr, b: Expr, st: State)
    ensures
      var x := Eval(h, reading, a, st);
      EvalAll(h, reading, [a, b], st) ==
        if !x.res.Ok? then DidAll([], Some(x.res), x.st)
        else
          var y := Eval(h, reading, b, x.st);
          if y.res.Ok? then DidAll([x.res.v, y.res.v], None, y.st) else DidAll([x.res.v], Some(y.res), y.st)
  {
    assert [a, b][..1] == [a] && [a][..0] == [];
    hide Eval;
    assert EvalAll(h, reading, [], st) == DidAll([], None, st);
    var x := Eval(h, reading, a, st);
    assert EvalAll(h, reading, [a], st) == if x.res.Ok? then DidAll([] + [x.res.v], None, x.st) else DidAll([], Some(x.res), x.st);
  }

  lemma {:induction false} OpOf(h: Host, reading: Reading, kind: Kind, args: seq<Expr>, st: State)
    ensures
      var d := EvalAll(h, reading, args, st);
      Eval(h, reading, Op(kind, args), st) == if d.stop.Some? then Did(d.stop.value, d.st) else Apply(h, kind, d.vals, d.st)
  {
    hide EvalAll, Apply;
  }

  /** An operator on two expressions. */
  lemma {:induction false} OpTwo(h: Host, reading: Reading, kind: Kind, a: Expr, b: Expr, st: State)
    ensures
      var x := Eval(h, reading, a, st);
      Eval(h, reading, Op(kind, [a, b]), st) ==
        if !x.res.Ok? then x
        else
          var y := Eval(h, reading, b, x.st);
          if y.res.Ok? then Apply(h, kind, [x.res.v, y.res.v], y.st) else y
  {
    hide Eval, EvalAll, Apply;
    OpOf(h, reading, kind, [a, b], st);
    EvalTwo(h, reading, a, b, st);
  }

  lemma {:induction false} SimExpr(h: Host, e: Expr, t: State, s: State)
    requires FineExpr(e) && Shows(t, s)
    ensures Matches(t, Eval(h, WrittenOut, e, s), Eval(h, Meant, LowerExpr(e), t))
    decreases e, 3
  {
    match e
    case Lit(_) =>
    case Ident(name) => ReadMatches(name, t, s);
    case Shorthand(name) => ReadMatches(name, t, s);
    case Op(kind, args) => SimOp(h, e, t, s);
    case Circuit(_, _, _) => SimCircuit(h, e, t, s);
    case Condition(_, _, _) => SimCondition(h, e, t, s);
    case Assign(_, _) => SimAssign(h, e, t, s);
    case CompoundAssign(_, _, _) => SimUpdate(h, e, t, s);
    case Update(_, _) => SimUpdate(h, e, t, s);
    case Interpolation(segments) => SimSegments(h, segments, t, s);
  }

  lemma {:induction false} SimAll(h: Host, es: seq<Expr>, t: State, s: State)
    requires (forall i :: 0 <= i < |es| ==> FineExpr(es[i])) && Shows(t, s)
    ensures MatchesAll(t, EvalAll(h, WrittenOut, es, s), EvalAll(h, Meant, LowerAll(es), t))
    decreases es, 0
  {
    if es != [] {
      var n := |es| - 1;
      var les := LowerAll(es);
      assert les[..n] == LowerAll(es[..n]) && les[n] == LowerExpr(es[n]);
      SimAll(h, es[..n], t, s);
      var d, d1 := EvalAll(h, WrittenOut, es[..n], s), EvalAll(h, Meant, les[..n], t);
      AllSteps(h, WrittenOut, es, s);
      AllSteps(h, Meant, les, t);
      hide EvalAll, Eval, LowerAll, LowerExpr;
      if d.stop.None? {
        SimExpr(h, es[n], d1.st, d.st);
        MatchesFrom(t, d1.st, Eval(h, WrittenOut, es[n], d.st), Eval(h, Meant, les[n], d1.st));
      }
    }
  }

  lemma {:induction false} AllSteps(h: Host, reading: Reading, es: seq<Expr>, st: State)
    requires es != []
    ensures
      var n := |es| - 1;
      var d := EvalAll(h, reading, es[..n], st);
      var l := Eval(h, reading, es[n], d.st);
      EvalAll(h, reading, es, st) ==
        if d.stop.Some? then d
        else if l.res.Ok? then DidAll(d.vals + [l.res.v], None, l.st)
        else DidAll(d.vals, Some(l.res), l.st)
  {
    hide Eval;
  }

  lemma {:induction false} SimOp(h: Host, e: Expr, t: State, s: State)
    requires e.Op? && FineExpr(e) && Shows(t, s)
    ensures Matches(t, Eval(h, WrittenOut, e, s), Eval(h, Meant, LowerExpr(e), t))
    decreases e, 0
  {
    SimAll(h, e.args, t, s);
    assert LowerExpr(e) == Op(e.kind, LowerAll(e.args));
    hide EvalAll, Eval, LowerAll, LowerExpr, Apply, Shows;
    OpOf(h, WrittenOut, e.kind, e.args, s);
    OpOf(h, Meant, e.kind, LowerAll(e.args), t);
    var d, d1 := EvalAll(h, WrittenOut, e.args, s), EvalAll(h, Meant, LowerAll(e.args), t);
    if d.stop.None? { ApplyMatches(h, e.kind, d.vals, d1.st, d.st); }
  }

  lemma {:induction false} SimCircuit(h: Host, e: Expr, t: State, s: State)
    requires e.Circuit? && FineExpr(e) && Shows(t, s)
    ensures Matches(t, Eval(h, WrittenOut, e, s), Eval(h, Meant, LowerExpr(e), t))
    decreases e, 0
  {
    var la, lb := LowerExpr(e.left), LowerExpr(e.right);
    var d, d1 := Eval(h, WrittenOut, e.left, s), Eval(h, Meant, la, t);
    var l := Circuit(la, e.isAnd, lb);
    assert LowerExpr(e) == l;
    assert Eval(h, WrittenOut, e, s) == if !d.res.Ok? || Falsey(d.res.v) == e.isAnd then d else Eval(h, WrittenOut, e.right, d.st);
    assert Eval(h, Meant, l, t) == if !d1.res.Ok? || Falsey(d1.res.v) == e.isAnd then d1 else Eval(h, Meant, lb, d1.st);
    hide Eval, LowerExpr, Shows;
    SimExpr(h, e.left, t, s);
    if d.res.Ok? && Falsey(d.res.v) != e.isAnd {
      SimExpr(h, e.right, d1.st, d.st);
      MatchesFrom(t, d1.st, Eval(h, WrittenOut, e.right, d.st), Eval(h, Meant, lb, d1.st));
    }
  }

  lemma {:induction false} SimCondition(h: Host, e: Expr, t: State, s: State)
    requires e.Condition? && FineExpr(e) && Shows(t, s)
    ensures Matches(t, Eval(h, WrittenOut, e, s), Eval(h, Meant, LowerExpr(e), t))
    decreases e, 0
  {
    var lc, lt, lf := LowerExpr(e.cond), LowerExpr(e.truth), LowerExpr(e.falsy);
    var d, d1 := Eval(h, WrittenOut, e.cond, s), Eval(h, Meant, lc, t);
    var l := Condition(lc, lt, lf);
    assert LowerExpr(e) == l;
    assert Eval(h, WrittenOut, e, s) == if !d.res.Ok? then d else if Falsey(d.res.v) then Eval(h, WrittenOut, e.falsy, d.st) else Eval(h, WrittenOut, e.truth, d.st);
    assert Eval(h, Meant, l, t) == if !d1.res.Ok? then d1 else if Falsey(d1.res.v) then Eval(h, Meant, lf, d1.st) else Eval(h, Meant, lt, d1.st);
    hide Eval, LowerExpr, Shows;
    SimExpr(h, e.cond, t, s);
    if d.res.Ok? {
      var arm := if Falsey(d.res.v) then e.falsy else e.truth;
      SimExpr(h, arm, d1.st, d.st);
      MatchesFrom(t, d1.st, Eval(h, WrittenOut, arm, d.st), Eval(h, Meant, LowerExpr(arm), d1.st));
    }
  }

  // Assignments.

  function Writer(kind: Kind): Kind
    requires kind.GetField? || kind.GetIndex?
  {
    if kind.GetField? then SetField(kind.field) else SetIndex
  }

  lemma {:induction false} AssignVar(h: Host, reading: Reading, name: Name, value: Expr, st: State)
    ensures
      var d := Eval(h, reading, value, st);
      Eval(h, reading, Assign(Ident(name), value), st) == if d.res.Ok? then Write(name, d.res.v, d.st) else d
  {
    hide Write;
    assert Eval(h, reading, Assign(Ident(name), value), st) == EvalAssign(h, reading, Assign(Ident(name), value), st);
  }

  lemma {:induction false} AssignPlace(h: Host, reading: Reading, kind: Kind, args: seq<Expr>, value: Expr, st: State)
    requires IsPlace(kind, args)
    ensures
      var p := EvalAll(h, reading, args, st);
      var d := Eval(h, reading, value, p.st);
      Eval(h, reading, Assign(Op(kind, args), value), st) ==
        if p.stop.Some? then Did(p.stop.value, p.st)
        else if !d.res.Ok? then d
        else Answering(Apply(h, Writer(kind), p.vals + [d.res.v], d.st), d.res.v)
  {
    hide Apply, EvalAll;
    var e := Assign(Op(kind, args), value);
    assert Eval(h, reading, e, st) == EvalAssign(h, reading, e, st);
  }

  lemma {:induction false} WriteLast(h: Host, kind: Kind, vals: seq<Value>, v: Value, t: State, t1: State, s: State)
    requires Shows(t1, s) && KeepsHidden(t.locals, t1.locals)
    ensures Matches(t, Answering(Apply(h, kind, vals, s), v), Answering(Apply(h, kind, vals, t1), v))
  {
    ApplyMatches(h, kind, vals, t1, s);
  }

  lemma {:induction false} SimAssign(h: Host, e: Expr, t: State, s: State)
    requires e.Assign? && FineExpr(e) && Shows(t, s)
    ensures Matches(t, Eval(h, WrittenOut, e, s), Eval(h, Meant, LowerExpr(e), t))
    decreases e, 2
  {
    var lv := LowerExpr(e.value);
    if e.target.Ident? {
      var name := e.target.name;
      assert e == Assign(Ident(name), e.value) && LowerExpr(e) == Assign(Ident(name), lv);
      assert name.User? && FineExpr(e.value);
      hide Eval, LowerExpr, Shows, Write, FineExpr;
      SimExpr(h, e.value, t, s);
      AssignVar(h, WrittenOut, name, e.value, s);
      AssignVar(h, Meant, name, lv, t);
      var d, d1 := Eval(h, WrittenOut, e.value, s), Eval(h, Meant, lv, t);
      if d.res.Ok? {
        WriteMatches(name, d.res.v, d1.st, d.st);
        MatchesFrom(t, d1.st, Write(name, d.res.v, d.st), Write(name, d.res.v, d1.st));
      }
    } else {
      var kind, args := e.target.kind, e.target.args;
      var largs := LowerAll(args);
      assert e == Assign(Op(kind, args), e.value) && LowerExpr(e) == Assign(Op(kind, largs), lv) by {
        assert LowerExpr(e.target) == Op(kind, largs);
      }
      SimPlace(h, e, kind, args, largs, lv, t, s);
    }
  }

  lemma {:induction false} SimPlace(h: Host, e: Expr, kind: Kind, args: seq<Expr>, largs: seq<Expr>, lv: Expr, t: State, s: State)
    requires e.Assign? && FineExpr(e) && Shows(t, s) && IsPlace(kind, args) && e.target == Op(kind, args)
    requires largs == LowerAll(args) && lv == LowerExpr(e.value)
    ensures Matches(t, Eval(h, WrittenOut, e, s), Eval(h, Meant, Assign(Op(kind, largs), lv), t))
    decreases e, 1
  {
    assert FineExpr(e.value) && FineExpr(e.target);
    hide Eval, EvalAll, LowerExpr, LowerAll, Shows, Apply;
    SimAll(h, args, t, s);
    AssignPlace(h, WrittenOut, kind, args, e.value, s);
    AssignPlace(h, Meant, kind, largs, lv, t);
    var p, p1 := EvalAll(h, WrittenOut, args, s), EvalAll(h, Meant, largs, t);
    if p.stop.None? {
      SimExpr(h, e.value, p1.st, p.st);
      var d, d1 := Eval(h, WrittenOut, e.value, p.st), Eval(h, Meant, lv, p1.st);
      if d.res.Ok? {
        KeepsTwice(t.locals, p1.st.locals, d1.st.locals);
        WriteLast(h, Writer(kind), p.vals + [d.res.v], d.res.v, t, d1.st, d.st);
      } else {
        MatchesFrom(t, p1.st, d, d1);
      }
    }
  }

  /** The operand of a compound assignment once lowered. */
  function LoweredOperand(e: Expr): Expr
    requires e.CompoundAssign? || e.Update?
  {
    if e.CompoundAssign? then LowerExpr(e.value) else Lit(Num(1))
  }

  lemma {:induction false} SimOperand(h: Host, e: Expr, t: State, s: State)
    requires (e.CompoundAssign? || e.Update?) && FineExpr(e) && Shows(t, s)
    ensures Matches(t, Operand(h, WrittenOut, e, s), Eval(h, Meant, LoweredOperand(e), t))
    decreases e, 0
  {
    if e.CompoundAssign? {
      assert FineExpr(e.value);
      hide Eval, FineExpr, LowerExpr;
      SimExpr(h, e.value, t, s);
    }
  }

  lemma {:induction false} SimUpdate(h: Host, e: Expr, t: State, s: State)
    requires (e.CompoundAssign? || e.Update?) && FineExpr(e) && Shows(t, s)
    ensures Matches(t, Eval(h, WrittenOut, e, s), Eval(h, Meant, LowerExpr(e), t))
    decreases e, 2
  {
    assert LowerExpr(e) == AssignWith(LowerExpr(e.target), UpdateOp(e), LoweredOperand(e));
    assert Eval(h, WrittenOut, e, s) == EvalUpdate(h, WrittenOut, e, s);
    if e.target.Ident? {
      SimUpdateVar(h, e, t, s);
    } else {
      assert LowerExpr(e.target) == Op(e.target.kind, LowerAll(e.target.args));
      SimUpdatePlace(h, e, t, s);
    }
  }

  lemma {:induction false} CombinedIs(h: Host, reading: Reading, e: Expr, c: Value, st: State)
    requires e.CompoundAssign? || e.Update?
    ensures
      var v := Operand(h, reading, e, st);
      Combined(h, reading, e, c, st) == if v.res.Ok? then Apply(h, Bin(UpdateOp(e)), [c, v.res.v], v.st) else v
  {
    hide Apply, Operand;
  }

  lemma {:induction false} UpdateVar(h: Host, reading: Reading, e: Expr, st: State)
    requires (e.CompoundAssign? || e.Update?) && e.target.Ident?
    ensures
      var c := Read(e.target.name, st);
      var v := Operand(h, reading, e, st);
      Eval(h, reading, e, st) ==
        if !c.res.Ok? then c
        else if !v.res.Ok? then v
        else
          var r := Apply(h, Bin(UpdateOp(e)), [c.res.v, v.res.v], v.st);
          if r.res.Ok? then Write(e.target.name, r.res.v, r.st) else r
  {
    assert Eval(h, reading, e, st) == EvalUpdate(h, reading, e, st);
    ReadStays(e.target.name, st);
    var c := Read(e.target.name, st);
    if c.res.Ok? { CombinedIs(h, reading, e, c.res.v, st); }
    hide Apply, Write, Combined, Operand, Read;
  }

  lemma {:induction false} SimUpdateVar(h: Host, e: Expr, t: State, s: State)
    requires (e.CompoundAssign? || e.Update?) && FineExpr(e) && Shows(t, s) && e.target.Ident?
    ensures Matches(t, Eval(h, WrittenOut, e, s), Eval(h, Meant, AssignWith(e.target, UpdateOp(e), LoweredOperand(e)), t))
    decreases e, 1
  {
    var name, op, lv := e.target.name, Bin(UpdateOp(e)), LoweredOperand(e);
    assert name.User? && e.target == Ident(name);
    assert Eval(h, Meant, Ident(name), t) == Read(name, t);
    UpdateVar(h, WrittenOut, e, s);
    hide Eval, Operand, LoweredOperand, Shows, Apply, Write, FineExpr, UpdateOp, Read;
    ReadStays(name, s);
    ReadStays(name, t);
    AssignVar(h, Meant, name, Op(op, [e.target, lv]), t);
    OpTwo(h, Meant, op, e.target, lv, t);
    ReadMatches(name, t, s);
    SimOperand(h, e, t, s);
    var c, v, v1 := Read(name, s), Operand(h, WrittenOut, e, s), Eval(h, Meant, lv, t);
    if c.res.Ok? && v.res.Ok? {
      var args := [c.res.v, v.res.v];
      ApplyMatches(h, op, args, v1.st, v.st);
      var r, r1 := Apply(h, op, args, v.st), Apply(h, op, args, v1.st);
      if r.res.Ok? {
        WriteMatches(name, r.res.v, r1.st, r.st);
        MatchesFrom(t, r1.st, Write(name, r.res.v, r.st), Write(name, r.res.v, r1.st));
      }
    }
  }

  lemma {:induction false} ReadStays(name: Name, st: State)
    ensures Read(name, st).st == st
  {
  }

  /** Receiver and index of a compound assignment as they are read the second time. */
  function AgainAll(h: Host, reading: Reading, args: seq<Expr>, p: DidAll): DidAll {
    if reading.Meant? then p else EvalAll(h, reading, args, p.st)
  }

  lemma {:induction false} UpdatePlace(h: Host, reading: Reading, e: Expr, st: State)
    requires (e.CompoundAssign? || e.Update?) && e.target.Op? && IsPlace(e.target.kind, e.target.args)
    ensures
      var kind, args := e.target.kind, e.target.args;
      var p := EvalAll(h, reading, args, st);
      var q := AgainAll(h, reading, args, p);
      var c := Apply(h, kind, q.vals, q.st);
      var v := Operand(h, reading, e, c.st);
      Eval(h, reading, e, st) ==
        if p.stop.Some? then Did(p.stop.value, p.st)
        else if reading.Careful? && q != p then Did(Wrong, st)
        else if q.stop.Some? then Did(q.stop.value, q.st)
        else if !c.res.Ok? then c
        else if !v.res.Ok? then v
        else
          var r := Apply(h, Bin(UpdateOp(e)), [c.res.v, v.res.v], v.st);
          if r.res.Ok? then Answering(Apply(h, Writer(kind), p.vals + [r.res.v], r.st), r.res.v) else r
  {
    assert Eval(h, reading, e, st) == EvalUpdate(h, reading, e, st);
    var p := EvalAll(h, reading, e.target.args, st);
    var q := AgainAll(h, reading, e.target.args, p);
    var c := Apply(h, e.target.kind, q.vals, q.st);
    if c.res.Ok? { CombinedIs(h, reading, e, c.res.v, c.st); }
    hide Apply, EvalAll, Combined, Operand;
  }

  lemma {:induction false} SimUpdatePlace(h: Host, e: Expr, t: State, s: State)
    requires (e.CompoundAssign? || e.Update?) && FineExpr(e) && Shows(t, s)
    requires e.target.Op? && IsPlace(e.target.kind, e.target.args)
    ensures Matches(t, Eval(h, WrittenOut, e, s), Eval(h, Meant, AssignWith(Op(e.target.kind, LowerAll(e.target.args)), UpdateOp(e), LoweredOperand(e)), t))
    decreases e, 1
  {
    var kind, args, op, lv := e.target.kind, e.target.args, Bin(UpdateOp(e)), LoweredOperand(e);
    var largs := LowerAll(args);
    UpdatePlace(h, WrittenOut, e, s);
    hide Eval, EvalAll, Operand, LoweredOperand, LowerAll, Shows, Apply, FineExpr, UpdateOp;
    AssignPlace(h, Meant, kind, largs, Op(op, [Op(kind, largs), lv]), t);
    SimArgs(h, e, t, s);
    var p, p1 := EvalAll(h, WrittenOut, args, s), EvalAll(h, Meant, largs, t);
    if p.stop.None? {
      var q, q1 := EvalAll(h, WrittenOut, args, p.st), EvalAll(h, Meant, largs, p1.st);
      SimArgs(h, e, p1.st, p.st);
      KeepsTwice(t.locals, p1.st.locals, q1.st.locals);
      OpTwo(h, Meant, op, Op(kind, largs), lv, p1.st);
      OpOf(h, Meant, kind, largs, p1.st);
      if q.stop.None? {
        ApplyMatches(h, kind, q.vals, q1.st, q.st);
        var c, c1 := Apply(h, kind, q.vals, q.st), Apply(h, kind, q.vals, q1.st);
        if c.res.Ok? {
          SimOperand(h, e, c1.st, c.st);
          var v, v1 := Operand(h, WrittenOut, e, c.st), Eval(h, Meant, lv, c1.st);
          KeepsTwice(t.locals, c1.st.locals, v1.st.locals);
          if v.res.Ok? { SimUpdated(h, kind, op, p.vals, c.res.v, v.res.v, t, v1.st, v.st); }
        }
      }
    }
  }

  lemma {:induction false} SimArgs(h: Host, e: Expr, t: State, s: State)
    requires (e.CompoundAssign? || e.Update?) && FineExpr(e) && Shows(t, s) && e.target.Op?
    ensures MatchesAll(t, EvalAll(h, WrittenOut, e.target.args, s), EvalAll(h, Meant, LowerAll(e.target.args), t))
    decreases e, 0
  {
    assert FineExpr(e.target);
    SimAll(h, e.target.args, t, s);
  }

  /** The operator's result, written back. */
  lemma {:induction false} SimUpdated(h: Host, kind: Kind, op: Kind, place: seq<Value>, c: Value, v: Value, t: State, t1: State, s: State)
    requires Shows(t1, s) && KeepsHidden(t.locals, t1.locals) && (kind.GetField? || kind.GetIndex?)
    ensures
      var r, r1 := Apply(h, op, [c, v], s), Apply(h, op, [c, v], t1);
      && Matches(t, r, r1) && r1.res == r.res
      && (r.res.Ok? ==>
            Matches(t, Answering(Apply(h, Writer(kind), place + [r.res.v], r.st), r.res.v), Answering(Apply(h, Writer(kind), place + [r.res.v], r1.st), r.res.v)))
  {
    hide Apply, Shows;
    ApplyMatches(h, op, [c, v], t1, s);
    var r, r1 := Apply(h, op, [c, v], s), Apply(h, op, [c, v], t1);
    if r.res.Ok? { WriteLast(h, Writer(kind), place + [r.res.v], r.res.v, t, r1.st, r.st); }
  }

  // Interpolated strings.

  lemma {:induction false} SimSegment(h: Host, g: Segment, t: State, s: State)
    requires FineSegment(g) && Shows(t, s)
    ensures Matches(t, EvalSegment(h, WrittenOut, g, s), Eval(h, Meant, LowerSegment(g), t))
    decreases g, 0
  {
    if g.Part? { SimExpr(h, g.e, t, s); }
  }

  lemma {:induction false} SimSegments(h: Host, segments: seq<Segment>, t: State, s: State)
    requires segments != [] && (forall i :: 0 <= i < |segments| ==> FineSegment(segments[i])) && Shows(t, s)
    ensures Matches(t, EvalSegments(h, WrittenOut, segments, s), Eval(h, Meant, ChainOf(segments), t))
    decreases segments, 0
  {
    if |segments| == 1 {
      SimSegment(h, segments[0], t, s);
    } else {
      var n := |segments| - 1;
      var first, last := ChainOf(segments[..n]), LowerSegment(segments[n]);
      var d, d1 := EvalSegments(h, WrittenOut, segments[..n], s), Eval(h, Meant, first, t);
      var p := EvalSegment(h, WrittenOut, segments[n], d.st);
      assert ChainOf(segments) == Op(Bin(Add), [first, last]);
      assert EvalSegments(h, WrittenOut, segments, s) == if !d.res.Ok? then d else if p.res.Ok? then Apply(h, Bin(Add), [d.res.v, p.res.v], p.st) else p;
      hide Eval, EvalSegments, EvalSegment, ChainOf, LowerSegment, Shows, Apply;
      SimSegments(h, segments[..n], t, s);
      OpTwo(h, Meant, Bin(Add), first, last, t);
      if d.res.Ok? {
        SimSegment(h, segments[n], d1.st, d.st);
        var p1 := Eval(h, Meant, last, d1.st);
        MatchesFrom(t, d1.st, p, p1);
        if p.res.Ok? { ApplyMatches(h, Bin(Add), [d.res.v, p.res.v], p1.st, p.st); }
      }
    }
  }

  // With care or not.

  /** An expression that, read with care, does not go wrong is the same in every reading. */
  lemma {:induction false} CarefulExpr(h: Host, reading: Reading, e: Expr, st: State)
    requires !Eval(h, Careful, e, st).res.Wrong?
    ensures Eval(h, reading, e, st) == Eval(h, Careful, e, st)
    decreases e, 3
  {
    match e
    case Op(kind, args) => CarefulAll(h, reading, args, st);
    case Circuit(a, isAnd, b) =>
      CarefulExpr(h, reading, a, st);
      var d := Eval(h, Careful, a, st);
      if d.res.Ok? && Falsey(d.res.v) != isAnd { CarefulExpr(h, reading, b, d.st); }
    case Condition(c, t, f) =>
      CarefulExpr(h, reading, c, st);
      var d := Eval(h, Careful, c, st);
      if d.res.Ok? { CarefulExpr(h, reading, if Falsey(d.res.v) then f else t, d.st); }
    case Assign(_, _) => CarefulAssign(h, reading, e, st);
    case CompoundAssign(_, _, _) => CarefulUpdate(h, reading, e, st);
    case Update(_, _) => CarefulUpdate(h, reading, e, st);
    case Interpolation(segments) => CarefulSegments(h, reading, segments, st);
    case _ =>
  }

  lemma {:induction false} CarefulAll(h: Host, reading: Reading, es: seq<Expr>, st: State)
    requires EvalAll(h, Careful, es, st).stop != Some(Wrong)
    ensures EvalAll(h, reading, es, st) == EvalAll(h, Careful, es, st)
    decreases es, 0
  {
    if es != [] {
      var n := |es| - 1;
      hide Eval, EvalAll;
      AllSteps(h, Careful, es, st);
      AllSteps(h, reading, es, st);
      CarefulAll(h, reading, es[..n], st);
      var d := EvalAll(h, Careful, es[..n], st);
      if d.stop.None? { CarefulExpr(h, reading, es[n], d.st); }
    }
  }

  lemma {:induction false} CarefulAssign(h: Host, reading: Reading, e: Expr, st: State)
    requires e.Assign? && !Eval(h, Careful, e, st).res.Wrong?
    ensures Eval(h, reading, e, st) == Eval(h, Careful, e, st)
    decreases e, 2
  {
    assert forall reading: Reading :: Eval(h, reading, e, st) == EvalAssign(h, reading, e, st);
    if e.target.Ident? {
      CarefulExpr(h, reading, e.value, st);
    } else if e.target.Op? && IsPlace(e.target.kind, e.target.args) {
      var kind, args := e.target.kind, e.target.args;
      assert e == Assign(Op(kind, args), e.value);
      hide Eval, EvalAll, Apply;
      AssignPlace(h, Careful, kind, args, e.value, st);
      AssignPlace(h, reading, kind, args, e.value, st);
      CarefulAll(h, reading, args, st);
      var p := EvalAll(h, Careful, args, st);
      if p.stop.None? { CarefulExpr(h, reading, e.value, p.st); }
    }
  }

  lemma {:induction false} CarefulOperand(h: Host, reading: Reading, e: Expr, st: State)
    requires (e.CompoundAssign? || e.Update?) && !Operand(h, Careful, e, st).res.Wrong?
    ensures Operand(h, reading, e, st) == Operand(h, Careful, e, st)
    decreases e, 0
  {
    if e.CompoundAssign? {
      hide Eval;
      CarefulExpr(h, reading, e.value, st);
    }
  }

  lemma {:induction false} CarefulUpdate(h: Host, reading: Reading, e: Expr, st: State)
    requires (e.CompoundAssign? || e.Update?) && !Eval(h, Careful, e, st).res.Wrong?
    ensures Eval(h, reading, e, st) == Eval(h, Careful, e, st)
    decreases e, 2
  {
    assert forall reading: Reading :: Eval(h, reading, e, st) == EvalUpdate(h, reading, e, st);
    if e.target.Ident? {
      UpdateVar(h, Careful, e, st);
      UpdateVar(h, reading, e, st);
      hide Eval, EvalUpdate, Operand, Apply, Read, Write;
      if Read(e.target.name, st).res.Ok? { CarefulOperand(h, reading, e, st); }
    } else if e.target.Op? && IsPlace(e.target.kind, e.target.args) {
      UpdatePlace(h, Careful, e, st);
      UpdatePlace(h, reading, e, st);
      hide Eval, EvalAll, EvalUpdate, Operand, Apply;
      CarefulAll(h, reading, e.target.args, st);
      var p := EvalAll(h, Careful, e.target.args, st);
      var c := Apply(h, e.target.kind, p.vals, p.st);
      if p.stop.None? {
        CarefulAll(h, reading, e.target.args, p.st);
        if c.res.Ok? { CarefulOperand(h, reading, e, c.st); }
      }
    }
  }

  lemma {:induction false} CarefulSegments(h: Host, reading: Reading, segments: seq<Segment>, st: State)
    requires !EvalSegments(h, Careful, segments, st).res.Wrong?
    ensures EvalSegments(h, reading, segments, st) == EvalSegments(h, Careful, segments, st)
    decreases segments, 0
  {
    if |segments| == 1 {
      CarefulSegment(h, reading, segments[0], st);
    } else if |segments| > 1 {
      var n := |segments| - 1;
      CarefulSegments(h, reading, segments[..n], st);
      var d := EvalSegments(h, Careful, segments[..n], st);
      if d.res.Ok? { CarefulSegment(h, reading, segments[n], d.st); }
    }
  }

  lemma {:induction false} CarefulSegment(h: Host, reading: Reading, s: Segment, st: State)
    requires !EvalSegment(h, Careful, s, st).res.Wrong?
    ensures EvalSegment(h, reading, s, st) == EvalSegment(h, Careful, s, st)
    decreases s, 0
  {
    if s.Part? { CarefulExpr(h, reading, s.e, st); }
  }
}
