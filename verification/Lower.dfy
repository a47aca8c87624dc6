/** The lowering pass: `for`, `iter` and `do..while` become `while`, shorthands become plain expressions. */
module Lower {
  import opened Shapes
  import opened Values
  import opened Surface

  /** `target op operand` assigned back to the target, which is written out twice. */
  function AssignWith(target: Expr, op: BinOp, operand: Expr): Expr {
    Assign(target, Op(Bin(op), [target, operand]))
  }

  function LowerExpr(e: Expr): Expr
    decreases e, 0
  {
    match e
    case CompoundAssign(target, op, value) => AssignWith(LowerExpr(target), op, LowerExpr(value))
    case Update(target, increment) => AssignWith(LowerExpr(target), if increment then Add else Sub, Lit(Num(1)))
    case Interpolation(segments) => ChainOf(segments)
    case Shorthand(name) => Ident(name)
    case Op(kind, args) => Op(kind, LowerAll(args))
    case Circuit(a, isAnd, b) => Circuit(LowerExpr(a), isAnd, LowerExpr(b))
    case Condition(c, t, f) => Condition(LowerExpr(c), LowerExpr(t), LowerExpr(f))
    case Assign(target, value) => Assign(LowerExpr(target), LowerExpr(value))
    case Lit(_) => e
    case Ident(_) => e
  }

  function LowerAll(es: seq<Expr>): (r: seq<Expr>)
    ensures |r| == |es|
    decreases es, 0
  {
    if es == [] then [] else LowerAll(es[..|es| - 1]) + [LowerExpr(es[|es| - 1])]
  }

  function LowerSegment(s: Segment): Expr
    decreases s, 0
  {
    match s
    case Text(t) => Lit(Str(t))
    case Part(e) => LowerExpr(e)
  }

  /** The pieces of an interpolated string added up from the left. */
  function ChainOf(segments: seq<Segment>): Expr
    decreases segments, 0
  {
    if segments == [] then Lit(Nil)
    else
      var last := LowerSegment(segments[|segments| - 1]);
      if |segments| == 1 then last else Op(Bin(Add), [ChainOf(segments[..|segments| - 1]), last])
  }

  /** As the pass builds it: a chain that grows by a piece at each turn. */
  method Interpolate(segments: seq<Segment>) returns (e: Expr)
    requires segments != []
    ensures e == LowerExpr(Interpolation(segments))
  {
    var chain: Option<Expr> := None;
    for n := 0 to |segments|
      invariant chain == if n == 0 then None else Some(ChainOf(segments[..n]))
    {
      var part := LowerSegment(segments[n]);
      assert segments[..n + 1][..n] == segments[..n];
      chain := if chain.None? then Some(part) else Some(Op(Bin(Add), [chain.value, part]));
    }
    assert segments[..|segments|] == segments;
    e := chain.value;
  }

  // Loops.

  const IterName := Hidden("iter")
  const KeyName := Hidden("key")
  const LowerName := Hidden("lower")
  const UpperName := Hidden("upper")
  const CountName := Hidden("count")
  const StepName := Hidden("step")
  const TurnName := Hidden("n")

  function Set(name: Name, value: Expr): Stmt {
    Expression(Assign(Ident(name), value))
  }

  function KeyOf(key: Option<Name>): Name {
    if key.Some? then key.value else KeyName
  }

  /** The start of a turn: the next key, the way out, the value. */
  function Advance(k: Name): Stmt {
    Set(k, Op(Method("@key"), [Ident(IterName), Ident(k)]))
  }

  function Stop(k: Name): Stmt {
    If(Op(Cmp(Eq), [Ident(k), Lit(Nil)]), Break, None)
  }

  function FetchTo(k: Name, value: Name): Stmt {
    Set(value, Op(Method("@value"), [Ident(IterName), Ident(k)]))
  }

  function ForBody(k: Name, value: Name, body: Stmt): Stmt {
    Block([Advance(k), Stop(k), FetchTo(k, value), body])
  }

  function ForLoop(key: Option<Name>, value: Name, iterable: Expr, body: Stmt): Stmt {
    if key.None? && iterable.Op? && iterable.kind.RangeOf? && |iterable.args| == 2 then
      CountedLoop(value, iterable.args[0], iterable.args[1], body)
    else
      var k := KeyOf(key);
      Block([Var(IterName, iterable), Var(k, Lit(Nil)), Var(value, Lit(Nil)), While(Lit(Bool(true)), ForBody(k, value, body))])
  }

  function Ascending(): Expr {
    Op(Cmp(Ge), [Ident(UpperName), Ident(LowerName)])
  }

  function CountedBody(x: Name, body: Stmt): Stmt {
    Block([body, FixContinue, Set(x, Op(Bin(Add), [Ident(x), Ident(StepName)])), Set(TurnName, Op(Bin(Add), [Ident(TurnName), Lit(Num(1))]))])
  }

  function CountedWhile(x: Name, body: Stmt): Stmt {
    While(Op(Cmp(Lt), [Ident(TurnName), Ident(CountName)]), CountedBody(x, body))
  }

  /** A `for` over a range written out, as a loop that counts. */
  function CountedLoop(x: Name, lower: Expr, upper: Expr, body: Stmt): Stmt {
    Block([
      Var(LowerName, lower),
      Var(UpperName, upper),
      Var(CountName, Condition(Ascending(), Op(Bin(Sub), [Ident(UpperName), Ident(LowerName)]), Op(Bin(Sub), [Ident(LowerName), Ident(UpperName)]))),
      Var(StepName, Condition(Ascending(), Lit(Num(1)), Lit(Num(-1)))),
      Var(TurnName, Lit(Num(0))),
      Var(x, Ident(LowerName)),
      CountedWhile(x, body)])
  }

  function AsStmts(es: seq<Expr>): (r: seq<Stmt>)
    ensures |r| == |es| && forall i :: 0 <= i < |r| ==> r[i] == Expression(es[i])
  {
    seq(|es|, i requires 0 <= i < |es| => Expression(es[i]))
  }

  function IterBody(steps: seq<Expr>, body: Stmt): Stmt {
    Block([body, FixContinue] + AsStmts(steps))
  }

  function IterLoop(init: Option<Stmt>, test: Option<Expr>, steps: seq<Expr>, body: Stmt): Stmt {
    var loop := While(if test.Some? then test.value else Lit(Bool(true)), IterBody(steps, body));
    Block(if init.Some? then [init.value, loop] else [loop])
  }

  /** As the pass builds it, pushing one statement after the other. */
  method BuildIterLoop(init: Option<Stmt>, test: Option<Expr>, steps: seq<Expr>, body: Stmt) returns (s: Stmt)
    ensures s == IterLoop(init, test, steps, body)
  {
    var loopBody := [body, FixContinue];
    for n := 0 to |steps|
      invariant loopBody == [body, FixContinue] + AsStmts(steps[..n])
    {
      assert AsStmts(steps[..n]) + [Expression(steps[n])] == AsStmts(steps[..n + 1]);
      loopBody := loopBody + [Expression(steps[n])];
    }
    assert steps[..|steps|] == steps;
    var condition := if test.Some? then test.value else Lit(Bool(true));
    var looped := While(condition, Block(loopBody));
    var lowered := [];
    if init.Some? { lowered := lowered + [init.value]; }
    lowered := lowered + [looped];
    s := Block(lowered);
  }

  function LowerStmt(s: Stmt): Stmt
    decreases s, 0
  {
    match s
    case For(key, value, iterable, body) => ForLoop(key, value, LowerExpr(iterable), LowerStmt(body))
    case Iter(init, test, steps, body) =>
      IterLoop(if init.Some? then Some(LowerStmt(init.value)) else None, if test.Some? then Some(LowerExpr(test.value)) else None, LowerAll(steps), LowerStmt(body))
    case DoWhile(body, until) => Block([LowerStmt(body), While(LowerExpr(until), LowerStmt(body))])
    case Expression(e) => Expression(LowerExpr(e))
    case Echo(e) => Echo(LowerExpr(e))
    case Var(name, e) => Var(name, LowerExpr(e))
    case Block(ss) => Block(LowerStmts(ss))
    case If(c, t, f) => If(LowerExpr(c), LowerStmt(t), if f.Some? then Some(LowerStmt(f.value)) else None)
    case While(c, body) => While(LowerExpr(c), LowerStmt(body))
    case Return(e) => Stmt.Return(LowerExpr(e))
    case Raise(e) => Raise(LowerExpr(e))
    case Catch(body, handler, binds) => Catch(LowerStmt(body), if handler.Some? then Some(LowerStmt(handler.value)) else None, binds)
    case Break => s
    case Continue => s
    case FixContinue => s
  }

  function LowerStmts(ss: seq<Stmt>): (r: seq<Stmt>)
    ensures |r| == |ss|
    decreases ss, 0
  {
    if ss == [] then [] else LowerStmts(ss[..|ss| - 1]) + [LowerStmt(ss[|ss| - 1])]
  }

  // Nothing is left for the compiler to trip over.

  predicate CoreExpr(e: Expr)
    decreases e
  {
    match e
    case Lit(_) => true
    case Ident(_) => true
    case Op(_, args) => forall i :: 0 <= i < |args| ==> CoreExpr(args[i])
    case Circuit(a, _, b) => CoreExpr(a) && CoreExpr(b)
    case Condition(c, t, f) => CoreExpr(c) && CoreExpr(t) && CoreExpr(f)
    case Assign(target, value) => CoreExpr(target) && CoreExpr(value)
    case _ => false
  }

  predicate CoreStmt(s: Stmt)
    decreases s
  {
    match s
    case Expression(e) => CoreExpr(e)
    case Echo(e) => CoreExpr(e)
    case Var(_, e) => CoreExpr(e)
    case Block(ss) => forall i :: 0 <= i < |ss| ==> CoreStmt(ss[i])
    case If(c, t, f) => CoreExpr(c) && CoreStmt(t) && (f.Some? ==> CoreStmt(f.value))
    case While(c, body) => CoreExpr(c) && CoreStmt(body)
    case Return(e) => CoreExpr(e)
    case Raise(e) => CoreExpr(e)
    case Catch(body, handler, _) => CoreStmt(body) && (handler.Some? ==> CoreStmt(handler.value))
    case Break => true
    case Continue => true
    case FixContinue => true
    case _ => false
  }

  lemma {:induction false} LoweredExprIsCore(e: Expr)
    ensures CoreExpr(LowerExpr(e))
    decreases e, 0
  {
    match e
    case CompoundAssign(target, op, value) => LoweredExprIsCore(target); LoweredExprIsCore(value);
    case Update(target, _) => LoweredExprIsCore(target);
    case Interpolation(segments) => ChainIsCore(segments);
    case Op(_, args) => LoweredAllAreCore(args);
    case Circuit(a, _, b) => LoweredExprIsCore(a); LoweredExprIsCore(b);
    case Condition(c, t, f) => LoweredExprIsCore(c); LoweredExprIsCore(t); LoweredExprIsCore(f);
    case Assign(target, value) => LoweredExprIsCore(target); LoweredExprIsCore(value);
    case _ =>
  }

  lemma {:induction false} LoweredAllAreCore(es: seq<Expr>)
    ensures forall i :: 0 <= i < |es| ==> CoreExpr(LowerAll(es)[i])
    decreases es, 0
  {
    if es != [] {
      LoweredAllAreCore(es[..|es| - 1]);
      LoweredExprIsCore(es[|es| - 1]);
    }
  }

  lemma {:induction false} SegmentIsCore(s: Segment)
    ensures CoreExpr(LowerSegment(s))
    decreases s, 0
  {
    if s.Part? { LoweredExprIsCore(s.e); }
  }

  lemma {:induction false} ChainIsCore(segments: seq<Segment>)
    ensures CoreExpr(ChainOf(segments))
    decreases segments, 0
  {
    if segments != [] {
      SegmentIsCore(segments[|segments| - 1]);
      ChainIsCore(segments[..|segments| - 1]);
    }
  }

  lemma {:induction false} OpIsCore(kind: Kind, a: Expr, b: Expr, x: Name)
    requires CoreExpr(a) && CoreExpr(b)
    ensures CoreExpr(Op(kind, [a, b])) && CoreStmt(Set(x, Op(kind, [a, b])))
  {
    assert CoreExpr(Op(kind, [a, b]));
    assert CoreExpr(Assign(Ident(x), Op(kind, [a, b])));
  }

  lemma {:induction false} IterIsCore(init: Option<Stmt>, test: Option<Expr>, steps: seq<Expr>, body: Stmt)
    requires (init.Some? ==> CoreStmt(init.value)) && (test.Some? ==> CoreExpr(test.value)) && CoreStmt(body)
    requires forall i :: 0 <= i < |steps| ==> CoreExpr(steps[i])
    ensures CoreStmt(IterLoop(init, test, steps, body))
  {
    assert CoreStmt(IterBody(steps, body)) by {
      forall i | 0 <= i < |steps| ensures CoreStmt(AsStmts(steps)[i]) { }
    }
    var loop := While(if test.Some? then test.value else Lit(Bool(true)), IterBody(steps, body));
    assert CoreStmt(loop);
  }

  lemma {:induction false} ForIsCore(key: Option<Name>, value: Name, iterable: Expr, body: Stmt)
    requires CoreExpr(iterable) && CoreStmt(body)
    ensures CoreStmt(ForLoop(key, value, iterable, body))
  {
    if key.None? && iterable.Op? && iterable.kind.RangeOf? && |iterable.args| == 2 {
      assert CoreExpr(iterable.args[0]) && CoreExpr(iterable.args[1]);
      CountedIsCore(value, iterable.args[0], iterable.args[1], body);
    } else {
      var k := KeyOf(key);
      OpIsCore(Method("@key"), Ident(IterName), Ident(k), k);
      OpIsCore(Method("@value"), Ident(IterName), Ident(k), value);
      OpIsCore(Cmp(Eq), Ident(k), Lit(Nil), k);
      assert CoreStmt(ForBody(k, value, body));
      assert CoreStmt(While(Lit(Bool(true)), ForBody(k, value, body)));
    }
  }

  lemma {:induction false} CountedIsCore(x: Name, lower: Expr, upper: Expr, body: Stmt)
    requires CoreExpr(lower) && CoreExpr(upper) && CoreStmt(body)
    ensures CoreStmt(CountedLoop(x, lower, upper, body))
  {
    OpIsCore(Cmp(Ge), Ident(UpperName), Ident(LowerName), x);
    OpIsCore(Bin(Sub), Ident(UpperName), Ident(LowerName), x);
    OpIsCore(Bin(Sub), Ident(LowerName), Ident(UpperName), x);
    CountedWhileIsCore(x, body);
    var a, up, down := Ascending(), Op(Bin(Sub), [Ident(UpperName), Ident(LowerName)]), Op(Bin(Sub), [Ident(LowerName), Ident(UpperName)]);
    hide CountedWhile;
    assert CoreExpr(Condition(a, up, down)) && CoreExpr(Condition(a, Lit(Num(1)), Lit(Num(-1))));
  }

  lemma {:induction false} CountedWhileIsCore(x: Name, body: Stmt)
    requires CoreStmt(body)
    ensures CoreStmt(CountedWhile(x, body))
  {
    OpIsCore(Cmp(Lt), Ident(TurnName), Ident(CountName), x);
    OpIsCore(Bin(Add), Ident(x), Ident(StepName), x);
    OpIsCore(Bin(Add), Ident(TurnName), Lit(Num(1)), TurnName);
    assert CoreStmt(CountedBody(x, body));
  }

  /** What the pass hands to the compiler has no loop but `while` and no shorthand. */
  lemma {:induction false} LoweredIsCore(s: Stmt)
    ensures CoreStmt(LowerStmt(s))
    decreases s, 0
  {
    match s
    case For(key, value, iterable, body) =>
      LoweredExprIsCore(iterable);
      LoweredIsCore(body);
      ForIsCore(key, value, LowerExpr(iterable), LowerStmt(body));
    case Iter(init, test, steps, body) =>
      if init.Some? { LoweredIsCore(init.value); }
      if test.Some? { LoweredExprIsCore(test.value); }
      LoweredAllAreCore(steps);
      LoweredIsCore(body);
      IterIsCore(if init.Some? then Some(LowerStmt(init.value)) else None, if test.Some? then Some(LowerExpr(test.value)) else None, LowerAll(steps), LowerStmt(body));
    case DoWhile(body, until) => LoweredIsCore(body); LoweredExprIsCore(until);
    case Expression(e) => LoweredExprIsCore(e);
    case Echo(e) => LoweredExprIsCore(e);
    case Var(_, e) => LoweredExprIsCore(e);
    case Block(ss) => LoweredStmtsAreCore(ss);
    case If(c, t, f) =>
      LoweredExprIsCore(c);
      LoweredIsCore(t);
      if f.Some? { LoweredIsCore(f.value); }
    case While(c, body) => LoweredExprIsCore(c); LoweredIsCore(body);
    case Return(e) => LoweredExprIsCore(e);
    case Raise(e) => LoweredExprIsCore(e);
    case Catch(body, handler, _) =>
      LoweredIsCore(body);
      if handler.Some? { LoweredIsCore(handler.value); }
    case _ =>
  }

  lemma {:induction false} LoweredStmtsAreCore(ss: seq<Stmt>)
    ensures forall i :: 0 <= i < |ss| ==> CoreStmt(LowerStmts(ss)[i])
    decreases ss, 0
  {
    if ss != [] {
      LoweredStmtsAreCore(ss[..|ss| - 1]);
      LoweredIsCore(ss[|ss| - 1]);
    }
  }
}
