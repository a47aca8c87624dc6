/** From the parser's tree to bytecode: lowering and compiling together keep the meaning of a program. */
module Pipeline {
  // The two halves are each proved against a semantics of their own. On programs whose operators
  // are all the compiler model knows, and a runtime that answers them as the machine does, the
  // two semantics agree, state by state.

  import opened Shapes
  import opened Values
  import opened Surface
  import opened Lower
  import opened ExecFacts
  import opened Connections
  import opened LowerSound
  import opened Readings
  import LowerExprs
  import opened Erasure
  import C = Core
  import Machine
  import Functions
  import Fidelity

  // The fragment.

  /** An operator of the compiler model, with its operands. */
  predicate Basic(kind: Kind, n: nat) {
    ((kind.Bin? || kind.Cmp?) && n == 2) || (kind.Un? && n == 1)
  }

  /** Expressions that read variables and compute. */
  predicate Computes(e: Expr)
    decreases e
  {
    match e
    case Lit(_) => true
    case Ident(_) => true
    case Shorthand(_) => true
    case Op(kind, args) => Basic(kind, |args|) && forall i :: 0 <= i < |args| ==> Computes(args[i])
    case Circuit(a, _, b) => Computes(a) && Computes(b)
    case Condition(c, t, f) => Computes(c) && Computes(t) && Computes(f)
    case Interpolation(segments) => forall i :: 0 <= i < |segments| ==> segments[i].Part? ==> Computes(segments[i].e)
    case _ => false
  }

  /** Those and assignments to variables, of either form. */
  predicate Acts(e: Expr) {
    match e
    case Assign(target, value) => target.Ident? && Computes(value)
    case CompoundAssign(target, _, value) => target.Ident? && Computes(value)
    case Update(target, _) => target.Ident?
    case _ => Computes(e)
  }

  predicate Common(s: Stmt)
    decreases s
  {
    match s
    case Expression(e) => Acts(e)
    case Echo(e) => Computes(e)
    case Var(_, e) => Computes(e)
    case Block(ss) => forall i :: 0 <= i < |ss| ==> Common(ss[i])
    case If(c, t, f) => Computes(c) && Common(t) && (f.Some? ==> Common(f.value))
    case While(c, body) => Computes(c) && Common(body)
    case Return(e) => Computes(e)
    case Raise(e) => Computes(e)
    case Catch(body, handler, _) => Common(body) && (handler.Some? ==> Common(handler.value))
    case For(_, _, iterable, body) => Counts(s) && Common(body) && Computes(iterable.args[0]) && Computes(iterable.args[1])
    case Iter(init, test, steps, body) =>
      && (init.Some? ==> Common(init.value)) && (test.Some? ==> Computes(test.value)) && Common(body)
      && forall i :: 0 <= i < |steps| ==> Acts(steps[i])
    case DoWhile(body, until) => Common(body) && Computes(until)
    case _ => true
  }

  // Lowering stays inside.

  /** What is left of the fragment once shorthands are gone. */
  predicate Plain(e: Expr)
    decreases e
  {
    match e
    case Lit(_) => true
    case Ident(_) => true
    case Op(kind, args) => Basic(kind, |args|) && forall i :: 0 <= i < |args| ==> Plain(args[i])
    case Circuit(a, _, b) => Plain(a) && Plain(b)
    case Condition(c, t, f) => Plain(c) && Plain(t) && Plain(f)
    case _ => false
  }

  predicate PlainStmt(s: Stmt)
    decreases s
  {
    match s
    case Expression(e) => Plain(e) || (e.Assign? && e.target.Ident? && Plain(e.value))
    case Echo(e) => Plain(e)
    case Var(_, e) => Plain(e)
    case Block(ss) => forall i :: 0 <= i < |ss| ==> PlainStmt(ss[i])
    case If(c, t, f) => Plain(c) && PlainStmt(t) && (f.Some? ==> PlainStmt(f.value))
    case While(c, body) => Plain(c) && PlainStmt(body)
    case Return(e) => Plain(e)
    case Raise(e) => Plain(e)
    case Catch(body, handler, _) => PlainStmt(body) && (handler.Some? ==> PlainStmt(handler.value))
    case For(_, _, _, _) => false
    case Iter(_, _, _, _) => false
    case DoWhile(_, _) => false
    case _ => true
  }

  lemma {:induction false} PlainExpr(e: Expr)
    requires Computes(e)
    ensures Plain(LowerExpr(e))
    decreases e, 0
  {
    match e
    case Op(_, args) => PlainAll(args);
    case Circuit(a, _, b) => PlainExpr(a); PlainExpr(b);
    case Condition(c, t, f) => PlainExpr(c); PlainExpr(t); PlainExpr(f);
    case Interpolation(segments) => PlainChain(segments);
    case _ =>
  }

  lemma {:induction false} PlainAll(es: seq<Expr>)
    requires forall i :: 0 <= i < |es| ==> Computes(es[i])
    ensures forall i :: 0 <= i < |es| ==> Plain(LowerAll(es)[i])
    decreases es, 0
  {
    if es != [] {
      PlainAll(es[..|es| - 1]);
      PlainExpr(es[|es| - 1]);
    }
  }

  lemma {:induction false} PlainSegment(s: Segment)
    requires s.Part? ==> Computes(s.e)
    ensures Plain(LowerSegment(s))
    decreases s, 0
  {
    if s.Part? { PlainExpr(s.e); }
  }

  lemma {:induction false} PlainChain(segments: seq<Segment>)
    requires forall i :: 0 <= i < |segments| ==> segments[i].Part? ==> Computes(segments[i].e)
    ensures Plain(ChainOf(segments))
    decreases segments, 0
  {
    if segments != [] {
      PlainSegment(segments[|segments| - 1]);
      PlainChain(segments[..|segments| - 1]);
    }
  }

  lemma {:induction false} PlainAct(e: Expr)
    requires Acts(e)
    ensures PlainStmt(Expression(LowerExpr(e)))
  {
    match e
    case Assign(target, value) => PlainExpr(value);
    case CompoundAssign(target, op, value) => PlainExpr(value); PlainOp(Bin(op), LowerExpr(target), LowerExpr(value));
    case Update(target, increment) => PlainOp(Bin(if increment then Add else Sub), LowerExpr(target), Lit(Num(1)));
    case _ => PlainExpr(e);
  }

  lemma {:induction false} PlainOp(kind: Kind, a: Expr, b: Expr)
    requires Basic(kind, 2) && Plain(a) && Plain(b)
    ensures Plain(Op(kind, [a, b]))
  {
  }

  lemma {:induction false} PlainCounted(x: Name, lower: Expr, upper: Expr, body: Stmt)
    requires Plain(lower) && Plain(upper) && PlainStmt(body)
    ensures PlainStmt(CountedLoop(x, lower, upper, body))
  {
    PlainOp(Cmp(Ge), Ident(UpperName), Ident(LowerName));
    PlainOp(Bin(Sub), Ident(UpperName), Ident(LowerName));
    PlainOp(Bin(Sub), Ident(LowerName), Ident(UpperName));
    PlainCountedWhile(x, body);
    var a, up, down := Ascending(), Op(Bin(Sub), [Ident(UpperName), Ident(LowerName)]), Op(Bin(Sub), [Ident(LowerName), Ident(UpperName)]);
    hide CountedWhile;
    assert Plain(Condition(a, up, down)) && Plain(Condition(a, Lit(Num(1)), Lit(Num(-1))));
  }

  lemma {:induction false} PlainCountedWhile(x: Name, body: Stmt)
    requires PlainStmt(body)
    ensures PlainStmt(CountedWhile(x, body))
  {
    PlainOp(Cmp(Lt), Ident(TurnName), Ident(CountName));
    PlainOp(Bin(Add), Ident(x), Ident(StepName));
    PlainOp(Bin(Add), Ident(TurnName), Lit(Num(1)));
    assert PlainStmt(CountedBody(x, body));
  }

  lemma {:induction false} PlainIter(init: Option<Stmt>, test: Option<Expr>, steps: seq<Expr>, body: Stmt)
    requires (init.Some? ==> PlainStmt(init.value)) && (test.Some? ==> Plain(test.value)) && PlainStmt(body)
    requires forall i :: 0 <= i < |steps| ==> PlainStmt(Expression(steps[i]))
    ensures PlainStmt(IterLoop(init, test, steps, body))
  {
    assert PlainStmt(IterBody(steps, body)) by {
      forall i | 0 <= i < |steps| ensures PlainStmt(AsStmts(steps)[i]) { }
    }
    assert PlainStmt(While(if test.Some? then test.value else Lit(Bool(true)), IterBody(steps, body)));
  }

  /** Lowering keeps to the fragment, without its loops and shorthands. */
  lemma {:induction false} LoweredIsPlain(s: Stmt)
    requires Common(s)
    ensures PlainStmt(LowerStmt(s))
    decreases s, 1
  {
    hide Plain, Computes, Acts, LowerExpr, LowerAll;
    match s
    case Expression(e) => PlainAct(e);
    case Echo(e) => PlainExpr(e);
    case Var(_, e) => PlainExpr(e);
    case Return(e) => PlainExpr(e);
    case Raise(e) => PlainExpr(e);
    case Block(ss) => LoweredArePlain(ss);
    case If(c, t, f) =>
      PlainExpr(c);
      LoweredIsPlain(t);
      if f.Some? { LoweredIsPlain(f.value); }
    case While(c, body) => PlainExpr(c); LoweredIsPlain(body);
    case Catch(body, handler, _) =>
      LoweredIsPlain(body);
      if handler.Some? { LoweredIsPlain(handler.value); }
    case For(_, _, _, _) => LoweredForIsPlain(s);
    case Iter(_, _, _, _) => LoweredIterIsPlain(s);
    case DoWhile(body, until) => LoweredIsPlain(body); PlainExpr(until);
    case _ =>
  }

  lemma {:induction false} LoweredForIsPlain(s: Stmt)
    requires s.For? && Common(s)
    ensures PlainStmt(LowerStmt(s))
    decreases s, 0
  {
    var args := s.iterable.args;
    PlainAll(args);
    LoweredIsPlain(s.body);
    PlainCounted(s.value, LowerAll(args)[0], LowerAll(args)[1], LowerStmt(s.body));
    assert LowerExpr(s.iterable) == Op(s.iterable.kind, LowerAll(args));
    hide LowerAll, CountedLoop, PlainStmt, Plain;
  }

  lemma {:induction false} LoweredIterIsPlain(s: Stmt)
    requires s.Iter? && Common(s)
    ensures PlainStmt(LowerStmt(s))
    decreases s, 0
  {
    if s.init.Some? { LoweredIsPlain(s.init.value); }
    if s.test.Some? { PlainExpr(s.test.value); }
    LoweredIsPlain(s.body);
    PlainSteps(s.steps);
    PlainIter(if s.init.Some? then Some(LowerStmt(s.init.value)) else None, if s.test.Some? then Some(LowerExpr(s.test.value)) else None, LowerAll(s.steps), LowerStmt(s.body));
    hide LowerAll, IterLoop, PlainStmt, Plain;
  }

  lemma {:induction false} PlainSteps(steps: seq<Expr>)
    requires forall i :: 0 <= i < |steps| ==> Acts(steps[i])
    ensures forall i :: 0 <= i < |steps| ==> PlainStmt(Expression(LowerAll(steps)[i]))
    decreases |steps|
  {
    if steps != [] {
      PlainSteps(steps[..|steps| - 1]);
      PlainAct(steps[|steps| - 1]);
    }
  }

  lemma {:induction false} LoweredArePlain(ss: seq<Stmt>)
    requires forall i :: 0 <= i < |ss| ==> Common(ss[i])
    ensures forall i :: 0 <= i < |ss| ==> PlainStmt(LowerStmts(ss)[i])
    decreases ss, 0
  {
    if ss != [] {
      LoweredArePlain(ss[..|ss| - 1]);
      LoweredIsPlain(ss[|ss| - 1]);
    }
  }

  // The same program for the compiler.

  type Naming = Name -> string

  ghost predicate Injective(name: Naming) {
    forall a: Name, b: Name :: name(a) == name(b) ==> a == b
  }

  function CoreExpr(e: Expr, name: Naming): C.Expr
    decreases e
  {
    match e
    case Lit(v) => C.Lit(v)
    case Ident(x) => C.Var(name(x))
    case Op(Bin(op), args) => if |args| == 2 then C.Binary(CoreExpr(args[0], name), op, CoreExpr(args[1], name)) else C.Lit(Nil)
    case Op(Cmp(cmp), args) => if |args| == 2 then C.Logical(CoreExpr(args[0], name), cmp, CoreExpr(args[1], name)) else C.Lit(Nil)
    case Op(Un(op), args) => if |args| == 1 then C.UnaryOf(op, CoreExpr(args[0], name)) else C.Lit(Nil)
    case Circuit(a, isAnd, b) => C.Circuit(CoreExpr(a, name), isAnd, CoreExpr(b, name))
    case Condition(c, t, f) => C.Condition(CoreExpr(c, name), CoreExpr(t, name), CoreExpr(f, name))
    case _ => C.Lit(Nil)
  }

  function CoreExprs(name: Naming): Expr -> C.Expr {
    e => CoreExpr(e, name)
  }

  /** The program the compiler is given. */
  function Core(s: Stmt, name: Naming): C.Stmt {
    AsCore(s, CoreExprs(name), name)
  }

  function CoreAll(ss: seq<Stmt>, name: Naming): (r: seq<C.Stmt>)
    ensures |r| == |ss|
  {
    AllAsCore(ss, CoreExprs(name), name)
  }

  // The same state.

  function CoreNames(locals: seq<Binding>, name: Naming): (r: seq<string>)
    ensures |r| == |locals|
  {
    seq(|locals|, i requires 0 <= i < |locals| => name(locals[i].name))
  }

  function CoreVals(locals: seq<Binding>): (r: seq<Value>)
    ensures |r| == |locals|
  {
    seq(|locals|, i requires 0 <= i < |locals| => locals[i].val)
  }

  ghost function CoreGlobals(globals: map<Name, Value>, name: Naming): map<string, Value>
    requires Injective(name)
  {
    map x | x in globals :: name(x) := globals[x]
  }

  /** What has been printed, in order. */
  function Output(log: seq<Event>): seq<Value> {
    if log == [] then []
    else
      var first, last := Output(log[..|log| - 1]), log[|log| - 1];
      if last.Printed? then first + [last.val] else first
  }

  ghost function CoreState(st: State, name: Naming): (r: C.State)
    requires Injective(name)
    ensures r.Valid()
  {
    C.State(CoreNames(st.locals, name), CoreVals(st.locals), CoreGlobals(st.globals, name), Output(st.log))
  }

  function CoreHow(how: Outcome): C.Outcome {
    match how
    case Normal => C.Normal
    case Broke => C.Broke
    case Continued => C.Continued
    case Returned(v) => C.Returned(v)
    case Raised(err) => C.Raised(err)
    case OutOfTurns => C.OutOfTurns
    case WentWrong => C.Lost
  }

  ghost function CoreEnded(r: Ended, name: Naming): C.Ended
    requires Injective(name)
  {
    C.Ended(CoreHow(r.how), CoreState(r.st, name))
  }

  lemma {:induction false} OutputSnoc(log: seq<Event>, e: Event)
    ensures Output(log + [e]) == if e.Printed? then Output(log) + [e.val] else Output(log)
  {
    assert (log + [e])[..|log|] == log;
  }

  lemma {:induction false} FoundIsLookedUp(locals: seq<Binding>, x: Name, name: Naming)
    requires Injective(name)
    ensures
      var i := C.Find(CoreNames(locals, name), name(x));
      Lookup(locals, x) == if i >= 0 then Some(locals[i].val) else None
    decreases |locals|
  {
    if locals != [] {
      var n := |locals| - 1;
      assert CoreNames(locals, name)[..n] == CoreNames(locals[..n], name);
      assert name(locals[n].name) == name(x) ==> locals[n].name == x;
      FoundIsLookedUp(locals[..n], x, name);
    }
  }

  lemma {:induction false} FindSnoc(names: seq<string>, last: string, x: string)
    ensures C.Find(names + [last], x) == if last == x then |names| else C.Find(names, x)
  {
    assert (names + [last])[..|names|] == names;
  }

  lemma {:induction false} NamesSnoc(locals: seq<Binding>, last: Binding, name: Naming)
    ensures CoreNames(locals + [last], name) == CoreNames(locals, name) + [name(last.name)]
  {
  }

  lemma {:induction false} FoundIsStored(locals: seq<Binding>, x: Name, v: Value, name: Naming)
    requires Injective(name)
    ensures
      var i := C.Find(CoreNames(locals, name), name(x));
      Store(locals, x, v) == if i >= 0 then locals[i := Binding(x, v)] else locals
    decreases |locals|
  {
    if locals != [] {
      var n := |locals| - 1;
      var first, last := locals[..n], locals[n];
      assert locals == first + [last];
      hide Store, CoreNames, C.Find;
      NamesSnoc(first, last, name);
      FindSnoc(CoreNames(first, name), name(last.name), name(x));
      StoreSnoc(first, last, x, v);
      FoundIsStored(first, x, v, name);
      assert name(last.name) == name(x) ==> last.name == x;
    }
  }

  lemma {:induction false} GlobalIs(globals: map<Name, Value>, x: Name, name: Naming)
    requires Injective(name)
    ensures name(x) in CoreGlobals(globals, name) <==> x in globals
    ensures x in globals ==> CoreGlobals(globals, name)[name(x)] == globals[x]
  {
    if name(x) in CoreGlobals(globals, name) {
      var y :| y in globals && name(y) == name(x);
    }
  }

  lemma {:induction false} GlobalsStored(globals: map<Name, Value>, x: Name, v: Value, name: Naming)
    requires Injective(name) && x in globals
    ensures CoreGlobals(globals[x := v], name) == CoreGlobals(globals, name)[name(x) := v]
  {
    var g1, g2 := CoreGlobals(globals[x := v], name), CoreGlobals(globals, name)[name(x) := v];
    forall k ensures k in g1 <==> k in g2 {
      if k in g1 {
        var y :| y in globals[x := v] && name(y) == k;
        GlobalIs(globals, y, name);
      }
      if k in g2 && k != name(x) {
        var y :| y in globals && name(y) == k;
        GlobalIs(globals[x := v], y, name);
      }
      GlobalIs(globals[x := v], x, name);
    }
    forall k | k in g1 ensures g1[k] == g2[k] {
      var y :| y in globals[x := v] && name(y) == k;
      GlobalIs(globals[x := v], y, name);
      if y != x { GlobalIs(globals, y, name); }
    }
  }

  // The same meaning.

  /** What the machine's operators answer to an operator of the tree. */
  function Basics(ops: C.Ops, kind: Kind, args: seq<Value>): C.Result
    requires Basic(kind, |args|)
  {
    match kind
    case Bin(op) => ops.bin(op, args[0], args[1])
    case Cmp(cmp) => ops.cmp(cmp, args[0], args[1])
    case Un(op) => ops.un(op, args[0])
  }

  function AsRes(r: C.Result): Res {
    match r
    case Ok(v) => Ok(v)
    case Err(x) => Err(x)
  }

  /** The runtime answers operators as the machine does and does nothing else. */
  ghost predicate Behaves(h: Host, ops: C.Ops) {
    forall kind, args, globals, log :: Basic(kind, |args|) ==>
      && h.ask(kind, args, globals, log) == Answer(AsRes(Basics(ops, kind, args)), globals)
      && (BuiltIn(kind, args).Some? ==> BuiltIn(kind, args).value == AsRes(Basics(ops, kind, args)))
  }

  /** Only what has been asked of the runtime may differ. */
  ghost predicate SameBut(a: State, b: State) {
    b.locals == a.locals && b.globals == a.globals && Output(b.log) == Output(a.log)
  }

  lemma {:induction false} ApplyIs(h: Host, ops: C.Ops, kind: Kind, args: seq<Value>, st: State)
    requires Behaves(h, ops) && Basic(kind, |args|)
    ensures var d := Apply(h, kind, args, st); d.res == AsRes(Basics(ops, kind, args)) && SameBut(st, d.st)
  {
    var _ := h.ask(kind, args, st.globals, st.log);
    OutputSnoc(st.log, Event(kind, args));
  }

  ghost predicate MeansTheSame(h: Host, ops: C.Ops, e: Expr, st: State, name: Naming)
    requires Injective(name)
  {
    var d := Eval(h, Meant, e, st);
    d.res == AsRes(C.Eval(ops, CoreExpr(e, name), CoreState(st, name))) && SameBut(st, d.st)
  }

  lemma {:induction false} SameState(a: State, b: State, name: Naming)
    requires Injective(name) && SameBut(a, b)
    ensures CoreState(b, name) == CoreState(a, name)
  {
  }

  lemma {:induction false} ExprMeansTheSame(h: Host, ops: C.Ops, e: Expr, st: State, name: Naming)
    requires Injective(name) && Behaves(h, ops) && Plain(e)
    ensures MeansTheSame(h, ops, e, st, name)
    decreases e, 1
  {
    match e
    case Lit(_) =>
    case Ident(x) => VarMeansTheSame(h, ops, x, st, name);
    case Op(kind, args) => OpMeansTheSame(h, ops, e, st, name);
    case Circuit(a, isAnd, b) =>
      ExprMeansTheSame(h, ops, a, st, name);
      var d := Eval(h, Meant, a, st);
      ExprMeansTheSame(h, ops, b, d.st, name);
      SameState(st, d.st, name);
    case Condition(c, t, f) =>
      ExprMeansTheSame(h, ops, c, st, name);
      var d := Eval(h, Meant, c, st);
      ExprMeansTheSame(h, ops, t, d.st, name);
      ExprMeansTheSame(h, ops, f, d.st, name);
      SameState(st, d.st, name);
  }

  lemma {:induction false} VarMeansTheSame(h: Host, ops: C.Ops, x: Name, st: State, name: Naming)
    requires Injective(name)
    ensures MeansTheSame(h, ops, Ident(x), st, name)
  {
    FoundIsLookedUp(st.locals, x, name);
    GlobalIs(st.globals, x, name);
    hide C.Find, Lookup;
  }

  lemma {:induction false} OpMeansTheSame(h: Host, ops: C.Ops, e: Expr, st: State, name: Naming)
    requires Injective(name) && Behaves(h, ops) && Plain(e) && e.Op?
    ensures MeansTheSame(h, ops, e, st, name)
    decreases e, 0
  {
    var args := e.args;
    ExprMeansTheSame(h, ops, args[0], st, name);
    if |args| == 1 {
      assert args == [args[0]];
      hide Behaves, Plain, MeansTheSame;
      OneMeansTheSame(h, ops, e.kind, args[0], st, name);
    } else {
      assert args == [args[0], args[1]];
      ExprMeansTheSame(h, ops, args[1], Eval(h, Meant, args[0], st).st, name);
      hide Behaves, Plain, MeansTheSame;
      TwoMeanTheSame(h, ops, e.kind, args[0], args[1], st, name);
    }
  }

  lemma {:induction false} OneMeansTheSame(h: Host, ops: C.Ops, kind: Kind, a: Expr, st: State, name: Naming)
    requires Injective(name) && Behaves(h, ops) && Basic(kind, 1) && MeansTheSame(h, ops, a, st, name)
    ensures MeansTheSame(h, ops, Op(kind, [a]), st, name)
  {
    hide Behaves, Eval, CoreState, Output;
    OneOperand(h, kind, a, st);
    var d := Eval(h, Meant, a, st);
    if d.res.Ok? { ApplyIs(h, ops, kind, [d.res.v], d.st); }
  }

  lemma {:induction false} TwoMeanTheSame(h: Host, ops: C.Ops, kind: Kind, a: Expr, b: Expr, st: State, name: Naming)
    requires Injective(name) && Behaves(h, ops) && Basic(kind, 2)
    requires MeansTheSame(h, ops, a, st, name) && MeansTheSame(h, ops, b, Eval(h, Meant, a, st).st, name)
    ensures MeansTheSame(h, ops, Op(kind, [a, b]), st, name)
  {
    hide Behaves, Eval, CoreState, Output;
    var d := Eval(h, Meant, a, st);
    SameState(st, d.st, name);
    LowerExprs.OpTwo(h, Meant, kind, a, b, st);
    var y := Eval(h, Meant, b, d.st);
    if d.res.Ok? && y.res.Ok? { ApplyIs(h, ops, kind, [d.res.v, y.res.v], y.st); }
  }

  lemma {:induction false} OneOperand(h: Host, kind: Kind, a: Expr, st: State)
    ensures
      var d := Eval(h, Meant, a, st);
      Eval(h, Meant, Op(kind, [a]), st) == if d.res.Ok? then Apply(h, kind, [d.res.v], d.st) else d
  {
    assert [a][..0] == [] && [] + [a] == [a];
    LowerExprs.OpOf(h, Meant, kind, [a], st);
    LowerExprs.AllSteps(h, Meant, [a], st);
    assert EvalAll(h, Meant, [], st) == DidAll([], None, st);
    hide Eval, EvalAll, Apply;
    var d := Eval(h, Meant, a, st);
    if d.res.Ok? { assert [] + [d.res.v] == [d.res.v]; }
  }

  // Statements.

  ghost predicate Same(h: Host, ops: C.Ops, s: Stmt, st: State, turns: nat, name: Naming)
    requires Injective(name)
  {
    var r := Exec(h, Meant, s, st, turns);
    !r.how.WentWrong? && C.Exec(ops, C.AsWritten, Core(s, name), CoreState(st, name), turns) == CoreEnded(r, name)
  }

  ghost predicate SameSeq(h: Host, ops: C.Ops, ss: seq<Stmt>, st: State, turns: nat, name: Naming)
    requires Injective(name)
  {
    var r := ExecSeq(h, Meant, ss, st, turns);
    !r.how.WentWrong? && C.ExecSeq(ops, C.AsWritten, CoreAll(ss, name), CoreState(st, name), turns) == CoreEnded(r, name)
  }

  lemma {:induction false} BindSame(st: State, x: Name, v: Value, name: Naming)
    requires Injective(name)
    ensures CoreState(Bind(st, x, v), name) == CoreState(st, name).Declare(name(x), v)
  {
    hide Output;
    assert CoreNames(st.locals + [Binding(x, v)], name) == CoreNames(st.locals, name) + [name(x)];
    assert CoreVals(st.locals + [Binding(x, v)]) == CoreVals(st.locals) + [v];
  }

  lemma {:induction false} LeaveSame(r: Ended, n: nat, name: Naming)
    requires Injective(name) && n <= |r.st.locals|
    ensures CoreState(Leave(r, n).st, name) == CoreState(r.st, name).Leave(n)
  {
    hide Output;
    assert CoreNames(r.st.locals[..n], name) == CoreNames(r.st.locals, name)[..n];
    assert CoreVals(r.st.locals[..n]) == CoreVals(r.st.locals)[..n];
  }

  lemma {:induction false} WriteSame(x: Name, v: Value, st: State, name: Naming)
    requires Injective(name)
    ensures
      var d := Write(x, v, st);
      !d.res.Wrong? && C.AssignTo(name(x), v, CoreState(st, name)) == C.Ended(if d.res.Ok? then C.Normal else C.Raised(d.res.err), CoreState(d.st, name))
  {
    FoundIsLookedUp(st.locals, x, name);
    FoundIsStored(st.locals, x, v, name);
    GlobalIs(st.globals, x, name);
    if x in st.globals { GlobalsStored(st.globals, x, v, name); }
    hide C.Find, Lookup, Store, Output, CoreGlobals;
    var i := C.Find(CoreNames(st.locals, name), name(x));
    if i >= 0 {
      var locals := st.locals[i := Binding(x, v)];
      assert C.Find(CoreNames(st.locals, name), name(x)) >= 0;
      StoreVals(st.locals, i, x, v, name);
    }
  }

  lemma {:induction false} StoreVals(locals: seq<Binding>, i: nat, x: Name, v: Value, name: Naming)
    requires i < |locals| && name(locals[i].name) == name(x)
    ensures CoreNames(locals[i := Binding(x, v)], name) == CoreNames(locals, name) && CoreVals(locals[i := Binding(x, v)]) == CoreVals(locals)[i := v]
  {
  }

  lemma {:induction false} ExprCoreSame(h: Host, ops: C.Ops, e: Expr, st: State, name: Naming)
    requires Injective(name) && Behaves(h, ops) && Plain(e)
    ensures
      var d := Eval(h, Meant, e, st);
      && d.res == AsRes(C.Eval(ops, CoreExprs(name)(e), CoreState(st, name))) && CoreState(d.st, name) == CoreState(st, name)
      && SameBut(st, d.st) && !d.res.Wrong?
  {
    hide Eval, CoreState, C.Eval, CoreExpr, Behaves;
    ExprMeansTheSame(h, ops, e, st, name);
    SameState(st, Eval(h, Meant, e, st).st, name);
  }

  lemma {:induction false} SimpleSame(h: Host, ops: C.Ops, s: Stmt, st: State, turns: nat, name: Naming)
    requires Injective(name) && Behaves(h, ops) && PlainStmt(s) && Simple(s) && Plain(s.e)
    ensures Same(h, ops, s, st, turns, name)
  {
    hide Eval, C.Eval, Exec, CoreExprs, Output, CoreNames, CoreVals, CoreGlobals, Behaves;
    SimpleIs(h, Meant, s, st, turns);
    ExprCoreSame(h, ops, s.e, st, name);
    var d := Eval(h, Meant, s.e, st);
    if d.res.Ok? {
      OutputSnoc(d.st.log, Printed(d.res.v));
      if s.Var? { BindSame(d.st, s.name, d.res.v, name); }
    }
  }

  lemma {:induction false} AssignCore(x: Name, e: Expr, name: Naming)
    ensures Core(Expression(Assign(Ident(x), e)), name) == C.Assign(name(x), CoreExprs(name)(e))
  {
    hide CoreExprs;
  }

  lemma {:induction false} AssignSame(h: Host, ops: C.Ops, s: Stmt, x: Name, e: Expr, st: State, turns: nat, name: Naming)
    requires Injective(name) && Behaves(h, ops) && s == Expression(Assign(Ident(x), e)) && Plain(e)
    ensures Same(h, ops, s, st, turns, name)
  {
    hide Eval, C.Eval, Exec, CoreExprs, CoreState, Behaves, Core, C.AssignTo, Write, C.ExecSeq;
    AssignCore(x, e, name);
    SimpleIs(h, Meant, s, st, turns);
    LowerExprs.AssignVar(h, Meant, x, e, st);
    ExprCoreSame(h, ops, e, st, name);
    var d := Eval(h, Meant, e, st);
    if d.res.Ok? { WriteSame(x, d.res.v, d.st, name); }
  }

  lemma {:induction false} CoreAllAt(ss: seq<Stmt>, name: Naming)
    requires ss != []
    ensures var n := |ss| - 1; CoreAll(ss, name)[..n] == CoreAll(ss[..n], name) && CoreAll(ss, name)[n] == Core(ss[n], name)
  {
    hide AsCore;
  }

  lemma {:induction false} StmtMeansTheSame(h: Host, ops: C.Ops, s: Stmt, st: State, turns: nat, name: Naming, inLoop: bool, own: bool)
    requires Injective(name) && Behaves(h, ops) && PlainStmt(s) && C.Fits(Core(s, name), inLoop, own)
    ensures Same(h, ops, s, st, turns, name)
    decreases turns, s, 2
  {
    match s
    case Block(ss) =>
      SeqMeansTheSame(h, ops, ss, st, turns, name, inLoop, own);
      BlockSame(h, ops, ss, st, turns, name);
    case If(_, _, _) => IfMeansTheSame(h, ops, s, st, turns, name, inLoop, own);
    case While(_, _) => WhileMeansTheSame(h, ops, s, st, turns, name, inLoop, own);
    case Catch(_, _, _) => CatchMeansTheSame(h, ops, s, st, turns, name, inLoop, own);
    case Expression(e) => if e.Assign? { AssignSame(h, ops, s, e.target.name, e.value, st, turns, name); } else { SimpleSame(h, ops, s, st, turns, name); }
    case Echo(_) => SimpleSame(h, ops, s, st, turns, name);
    case Var(_, _) => SimpleSame(h, ops, s, st, turns, name);
    case Return(_) => SimpleSame(h, ops, s, st, turns, name);
    case Raise(_) => SimpleSame(h, ops, s, st, turns, name);
    case _ =>
  }

  lemma {:induction false} BlockSame(h: Host, ops: C.Ops, ss: seq<Stmt>, st: State, turns: nat, name: Naming)
    requires Injective(name) && SameSeq(h, ops, ss, st, turns, name)
    ensures Same(h, ops, Block(ss), st, turns, name)
  {
    hide ExecSeq, C.ExecSeq, AllAsCore, CoreState;
    var r := ExecSeq(h, Meant, ss, st, turns);
    LeaveSame(r, |st.locals|, name);
    NamesLen(st, name);
  }

  lemma {:induction false} NamesLen(st: State, name: Naming)
    requires Injective(name)
    ensures |CoreState(st, name).names| == |CoreState(st, name).vals| == |st.locals|
  {
  }

  lemma {:induction false} SeqMeansTheSame(h: Host, ops: C.Ops, ss: seq<Stmt>, st: State, turns: nat, name: Naming, inLoop: bool, own: bool)
    requires Injective(name) && Behaves(h, ops) && (forall i :: 0 <= i < |ss| ==> PlainStmt(ss[i])) && C.FitsSeq(CoreAll(ss, name), inLoop, own)
    ensures SameSeq(h, ops, ss, st, turns, name)
    decreases turns, ss, 0
  {
    if ss == [] {
      NoneSame(h, ops, st, turns, name);
    } else {
      hide *;
      var n := |ss| - 1;
      SeqParts(ss, name, inLoop, own);
      var r := ExecSeq(h, Meant, ss[..n], st, turns);
      SeqMeansTheSame(h, ops, ss[..n], st, turns, name, inLoop, if ss[n].FixContinue? then false else own);
      if !ss[n].FixContinue? { StmtMeansTheSame(h, ops, ss[n], r.st, turns, name, inLoop, false); }
      SeqSame(h, ops, ss, st, turns, name);
    }
  }

  lemma {:induction false} NoneSame(h: Host, ops: C.Ops, st: State, turns: nat, name: Naming)
    requires Injective(name)
    ensures SameSeq(h, ops, [], st, turns, name)
  {
    hide CoreState;
  }

  lemma {:induction false} SeqParts(ss: seq<Stmt>, name: Naming, inLoop: bool, own: bool)
    requires ss != [] && C.FitsSeq(CoreAll(ss, name), inLoop, own)
    ensures
      var n := |ss| - 1;
      && C.FitsSeq(CoreAll(ss[..n], name), inLoop, if ss[n].FixContinue? then false else own)
      && (!ss[n].FixContinue? ==> C.Fits(Core(ss[n], name), inLoop, false))
  {
    hide CoreAll, Core, C.Fits;
    CoreAllAt(ss, name);
    FixIsFix(ss[|ss| - 1], name);
  }

  lemma {:induction false} FixIsFix(s: Stmt, name: Naming)
    ensures Core(s, name).FixContinue? <==> s.FixContinue?
  {
  }

  lemma {:induction false} SeqSame(h: Host, ops: C.Ops, ss: seq<Stmt>, st: State, turns: nat, name: Naming)
    requires Injective(name) && ss != []
    requires SameSeq(h, ops, ss[..|ss| - 1], st, turns, name)
    requires !ss[|ss| - 1].FixContinue? ==> Same(h, ops, ss[|ss| - 1], ExecSeq(h, Meant, ss[..|ss| - 1], st, turns).st, turns, name)
    ensures SameSeq(h, ops, ss, st, turns, name)
  {
    CoreAllAt(ss, name);
    FixIsFix(ss[|ss| - 1], name);
    SeqIs(h, Meant, ss, st, turns);
    hide Exec, ExecSeq, C.Exec, Core, CoreAll, CoreState;
  }

  lemma {:induction false} IfMeansTheSame(h: Host, ops: C.Ops, s: Stmt, st: State, turns: nat, name: Naming, inLoop: bool, own: bool)
    requires s.If? && Injective(name) && Behaves(h, ops) && PlainStmt(s) && C.Fits(Core(s, name), inLoop, own)
    ensures Same(h, ops, s, st, turns, name)
    decreases turns, s, 1
  {
    var d := Eval(h, Meant, s.cond, st);
    StmtMeansTheSame(h, ops, s.thenB, d.st, turns, name, inLoop, false);
    if s.elseB.Some? { StmtMeansTheSame(h, ops, s.elseB.value, d.st, turns, name, inLoop, false); }
    ExprCoreSame(h, ops, s.cond, st, name);
    IfIs(h, Meant, s, st, turns);
    hide Eval, C.Eval, Exec, CoreExprs, CoreState, Behaves, C.Fits;
  }

  lemma {:induction false} WhileMeansTheSame(h: Host, ops: C.Ops, s: Stmt, st: State, turns: nat, name: Naming, inLoop: bool, own: bool)
    requires s.While? && Injective(name) && Behaves(h, ops) && PlainStmt(s) && C.Fits(Core(s, name), inLoop, own)
    ensures Same(h, ops, s, st, turns, name)
    decreases turns, s, 1
  {
    hide *;
    WhileParts(s, name, inLoop, own);
    if turns > 0 {
      var d := Eval(h, Meant, s.cond, st);
      StmtMeansTheSame(h, ops, s.body, d.st, turns - 1, name, true, true);
      var r := Exec(h, Meant, s.body, d.st, turns - 1);
      if GoesOn(r.how) { StmtMeansTheSame(h, ops, s, r.st, turns - 1, name, inLoop, own); }
    }
    WhileSame(h, ops, s, st, turns, name);
  }

  lemma {:induction false} WhileParts(s: Stmt, name: Naming, inLoop: bool, own: bool)
    requires s.While? && PlainStmt(s) && C.Fits(Core(s, name), inLoop, own)
    ensures Plain(s.cond) && PlainStmt(s.body) && C.Fits(Core(s.body, name), true, true) && !Declares(s.body)
  {
    AsCoreDeclares(s.body, CoreExprs(name), name);
  }

  lemma {:induction false} WhileCore(s: Stmt, name: Naming)
    requires s.While?
    ensures Core(s, name) == C.While(CoreExprs(name)(s.cond), Core(s.body, name))
  {
    hide CoreExprs;
  }

  lemma {:induction false} WhileSame(h: Host, ops: C.Ops, s: Stmt, st: State, turns: nat, name: Naming)
    requires s.While? && Injective(name) && Behaves(h, ops) && Plain(s.cond) && !Declares(s.body)
    requires turns > 0 ==>
               var d := Eval(h, Meant, s.cond, st);
               var r := Exec(h, Meant, s.body, d.st, turns - 1);
               Same(h, ops, s.body, d.st, turns - 1, name) && (GoesOn(r.how) ==> Same(h, ops, s, r.st, turns - 1, name))
    ensures Same(h, ops, s, st, turns, name)
  {
    hide Eval, C.Eval, Exec, Within, CoreExprs, CoreState, Behaves, Core, Plain, C.ExecSeq;
    ExprCoreSame(h, ops, s.cond, st, name);
    WhileIs(h, Meant, s, st, turns);
    WhileCore(s, name);
    if turns > 0 { NoNewLocal(h, Meant, s.body, Eval(h, Meant, s.cond, st).st, turns - 1); }
  }

  /** What a `catch` makes of the end of its body, before any handler. */
  function Taken(r: Ended, n: nat, binds: Option<Name>): Ended
    requires n <= |r.st.locals|
  {
    if !r.how.Raised? then r
    else
      var caught := Leave(r, n).st;
      Ended(Normal, if binds.Some? then Bind(caught, binds.value, r.how.err) else caught)
  }

  lemma {:induction false} TakenSame(r: Ended, st: State, binds: Option<Name>, name: Naming)
    requires Injective(name)
    requires SameNames((if binds.Some? then Bind(st, binds.value, Nil) else st).locals, r.st.locals)
    ensures
      var n := |st.locals| + if binds.Some? then 1 else 0;
      C.Caught(CoreEnded(r, name), n, binds.Some?) == CoreEnded(Taken(r, |st.locals|, binds), name)
  {
    hide CoreGlobals, Output;
    var n := |st.locals|;
    if r.how.Raised? {
      LeaveSame(r, n, name);
      if binds.Some? {
        LeaveSame(r, n + 1, name);
        BindSame(Leave(r, n).st, binds.value, r.how.err, name);
        BoundSame(r, n, binds.value, name);
      }
    }
  }

  lemma {:induction false} BoundSame(r: Ended, n: nat, x: Name, name: Naming)
    requires Injective(name) && r.how.Raised? && |r.st.locals| == n + 1 && r.st.locals[n].name == x
    ensures
      var s := CoreState(r.st, name);
      s.Leave(n + 1).(vals := s.Leave(n + 1).vals[n := r.how.err]) == s.Leave(n).Declare(name(x), r.how.err)
  {
    hide CoreGlobals, Output;
    var s := CoreState(r.st, name);
    assert s.names[..n + 1] == s.names[..n] + [name(x)];
    assert s.vals[..n + 1][n := r.how.err] == s.vals[..n] + [r.how.err];
  }

  lemma {:induction false} CoreCatch(ops: C.Ops, s: C.Stmt, st: C.State, turns: nat)
    requires s.Catch? && st.Valid()
    ensures
      var st0 := if s.binds.Some? then st.Declare(s.binds.value, Nil) else st;
      var r := C.Exec(ops, C.AsWritten, s.body, st0, turns);
      var after := C.Caught(r, |st0.names|, s.binds.Some?);
      C.Exec(ops, C.AsWritten, s, st, turns) ==
        if r.how.Raised? && s.handler.Some? && s.binds.Some? then C.Exec(ops, C.AsWritten, s.handler.value, after.st, turns) else after
  {
  }

  lemma {:induction false} CatchParts(h: Host, s: Stmt, st: State, turns: nat, name: Naming)
    requires s.Catch?
    ensures
      var c := Core(s, name);
      && c.Catch? && c.body == Core(s.body, name) && c.handler.Some? == s.handler.Some? && c.binds.Some? == s.binds.Some?
      && (s.handler.Some? ==> c.handler.value == Core(s.handler.value, name))
      && (s.binds.Some? ==> c.binds.value == name(s.binds.value))
    ensures Exec(h, Meant, s, st, turns) == Catching(h, Meant, s, st, turns)
  {
  }

  lemma {:induction false} CatchSame(h: Host, ops: C.Ops, s: Stmt, st: State, turns: nat, name: Naming)
    requires s.Catch? && Injective(name) && !Declares(s.body) && (s.handler.Some? ==> s.binds.Some? && !Declares(s.handler.value))
    requires
      var st0 := if s.binds.Some? then Bind(st, s.binds.value, Nil) else st;
      var r := Exec(h, Meant, s.body, st0, turns);
      && Same(h, ops, s.body, st0, turns, name) && SameNames(st0.locals, r.st.locals)
      && (r.how.Raised? && s.handler.Some? ==> Same(h, ops, s.handler.value, Taken(r, |st.locals|, s.binds).st, turns, name))
    ensures Same(h, ops, s, st, turns, name)
  {
    hide Exec, Within, Catching, C.Exec, Core, CoreState, SameNames, C.Caught;
    var st0 := if s.binds.Some? then Bind(st, s.binds.value, Nil) else st;
    CatchParts(h, s, st, turns, name);
    CatchIs(h, Meant, s, st, turns);
    NoNewLocal(h, Meant, s.body, st0, turns);
    var r := Exec(h, Meant, s.body, st0, turns);
    if s.binds.Some? { BindSame(st, s.binds.value, Nil, name); }
    NamesLen(st0, name);
    CoreCatch(ops, Core(s, name), CoreState(st, name), turns);
    TakenSame(r, st, s.binds, name);
    if r.how.Raised? && s.handler.Some? { NoNewLocal(h, Meant, s.handler.value, Taken(r, |st.locals|, s.binds).st, turns); }
  }

  lemma {:induction false} CatchMeansTheSame(h: Host, ops: C.Ops, s: Stmt, st: State, turns: nat, name: Naming, inLoop: bool, own: bool)
    requires s.Catch? && Injective(name) && Behaves(h, ops) && PlainStmt(s) && C.Fits(Core(s, name), inLoop, own)
    ensures Same(h, ops, s, st, turns, name)
    decreases turns, s, 1
  {
    var st0 := if s.binds.Some? then Bind(st, s.binds.value, Nil) else st;
    AsCoreDeclares(s.body, CoreExprs(name), name);
    if s.handler.Some? { AsCoreDeclares(s.handler.value, CoreExprs(name), name); }
    StmtMeansTheSame(h, ops, s.body, st0, turns, name, inLoop, false);
    NoNewLocal(h, Meant, s.body, st0, turns);
    var r := Exec(h, Meant, s.body, st0, turns);
    if r.how.Raised? && s.binds.Some? && s.handler.Some? {
      var bound := Bind(Leave(r, |st.locals|).st, s.binds.value, r.how.err);
      StmtMeansTheSame(h, ops, s.handler.value, bound, turns, name, inLoop, false);
      NoNewLocal(h, Meant, s.handler.value, bound, turns);
    }
    CatchSame(h, ops, s, st, turns, name);
  }

  // Runtimes and operators like these exist.

  /** A runtime that does nothing but answer operators as the machine does. */
  function HostOf(ops: C.Ops): Host {
    Host((kind: Kind, args: seq<Value>, globals: map<Name, Value>, log: seq<Event>) =>
      Answer(if Basic(kind, |args|) then AsRes(Basics(ops, kind, args)) else Err(Error("TypeError")), globals))
  }

  /** Integer arithmetic and order, structural equality, and type errors for everything else. */
  function Arithmetic(): C.Ops {
    var wrong := C.Err(Error("TypeError"));
    C.Ops(
      (op: BinOp, a: Value, b: Value) =>
        if a.Num? && b.Num? && op.Add? then C.Ok(Num(a.n + b.n)) else if a.Num? && b.Num? && op.Sub? then C.Ok(Num(a.n - b.n)) else wrong,
      (cmp: CmpOp, a: Value, b: Value) =>
        if cmp.Eq? then C.Ok(Bool(a == b)) else if cmp.Neq? then C.Ok(Bool(a != b))
        else if a.Num? && b.Num? then C.Ok(Bool(if cmp.Lt? then a.n < b.n else if cmp.Le? then a.n <= b.n else if cmp.Gt? then a.n > b.n else a.n >= b.n))
        else wrong,
      (op: UnOp, a: Value) => if op.Neg? && a.Num? then C.Ok(Num(-a.n)) else if op.Not? then C.Ok(Bool(Falsey(a))) else wrong)
  }

  /** So the theorem below speaks of something. */
  lemma {:induction false} ArithmeticBehaves()
    ensures Fidelity.Usual(Arithmetic()) && Behaves(HostOf(Arithmetic()), Arithmetic())
  {
    var ops := Arithmetic();
    forall v: Value ensures v.Error? ==> Fidelity.TestIsRight(ops, true, v) { }
    assert Fidelity.TestIsRight(ops, false, Nil);
    forall kind, args, globals, log | Basic(kind, |args|)
      ensures HostOf(ops).ask(kind, args, globals, log) == Answer(AsRes(Basics(ops, kind, args)), globals)
      ensures BuiltIn(kind, args).Some? ==> BuiltIn(kind, args).value == AsRes(Basics(ops, kind, args))
    {
    }
  }

  // From the tree to the machine.

  /** A call of the function with this body, read this way, ends with this. */
  ghost predicate TreeEnds(h: Host, reading: Reading, s: Stmt, st: State, name: Naming, m: Machine.Status)
    requires Injective(name)
  {
    exists turns: nat :: TreeFinishes(Exec(h, reading, s, st, turns), name, m)
  }

  ghost predicate TreeFinishes(r: Ended, name: Naming, m: Machine.Status)
    requires Injective(name)
  {
    !r.how.OutOfTurns? && m == Machine.Halted(Functions.Answer(CoreHow(r.how)), CoreGlobals(r.st.globals, name), Output(r.st.log))
  }

  /** What a body must be like: what lowering and the compiler ask of programs, and no more
      operators than the compiler model has. */
  predicate Whole(s: Stmt) {
    FineStmt(s) && WellPlaced(s, false) && Common(s)
  }

  ghost predicate UserLocals(st: State) {
    forall i :: 0 <= i < |st.locals| ==> st.locals[i].name.User?
  }

  lemma {:induction false} LoweredFinishes(h: Host, ops: C.Ops, s: Stmt, st: State, turns: nat, name: Naming, m: Machine.Status)
    requires Injective(name) && Behaves(h, ops) && Whole(s) && UserLocals(st)
    ensures Functions.Finishes(C.Exec(ops, C.AsWritten, Core(LowerStmt(s), name), CoreState(st, name), turns), m) <==>
              TreeFinishes(Exec(h, WrittenOut, s, st, turns), name, m)
  {
    hide Exec, C.Exec, CoreState, CoreGlobals, Output, Core, LowerStmt, FineStmt, WellPlaced, Common, Behaves, C.Fits;
    LoweringWritesOut(h, s, st, turns);
    LoweredFitsCore(s, name);
    LoweredIsPlain(s);
    StmtMeansTheSame(h, ops, LowerStmt(s), st, turns, name, false, false);
    var r := Exec(h, Meant, LowerStmt(s), st, turns);
    CoreStateParts(r.st, name);
  }

  lemma {:induction false} LoweredFitsCore(s: Stmt, name: Naming)
    requires WellPlaced(s, false)
    ensures C.Fits(Core(LowerStmt(s), name), false, false)
  {
    hide C.Fits, AsCore, LowerStmt;
    LoweredFits(s, CoreExprs(name), name, false);
  }

  lemma {:induction false} CoreStateParts(st: State, name: Naming)
    requires Injective(name)
    ensures CoreState(st, name).globals == CoreGlobals(st.globals, name) && CoreState(st, name).output == Output(st.log)
  {
  }

  /** A program with counted `for` loops, `iter` loops, `do` loops, `catch`, compound assignments
      and interpolated strings, lowered and compiled, ends on the machine with the result, the
      globals and the output it has read as written out, if and only if it ends at all. */
  lemma {:induction false} WrittenOutToMachine(h: Host, ops: C.Ops, s: Stmt, st: State, name: Naming, c: Machine.Config, m: Machine.Status)
    requires Injective(name) && Behaves(h, ops) && Whole(s) && UserLocals(st)
    requires
      var body := Core(LowerStmt(s), name);
      Fidelity.Usual(ops) && Fidelity.Tidy(body) && Fidelity.Braced(body)
    requires Functions.Called(CoreNames(st.locals, name), CoreState(st, name), c)
    ensures TreeEnds(h, WrittenOut, s, st, name, m) <==>
              Functions.MachineEnds(ops, Functions.FunctionCode(CoreNames(st.locals, name), Core(LowerStmt(s), name)), c, m)
  {
    hide Exec, C.Exec, CoreState, Core, LowerStmt, Whole, Behaves, C.Fits, TreeFinishes, Functions.Finishes, Functions.Called, Functions.MachineEnds, Functions.FunctionCode,
      Fidelity.Usual, Fidelity.Tidy, Fidelity.Braced, UserLocals, CoreNames;
    var body, params := Core(LowerStmt(s), name), CoreNames(st.locals, name);
    WholeParts(s);
    LoweredFitsCore(s, name);
    Functions.TidyFunctionAgrees(ops, params, body, CoreState(st, name), c, m);
    forall turns: nat
      ensures Functions.Finishes(C.Exec(ops, C.AsWritten, body, CoreState(st, name), turns), m) <==> TreeFinishes(Exec(h, WrittenOut, s, st, turns), name, m)
    {
      LoweredFinishes(h, ops, s, st, turns, name, m);
    }
  }

  /** And it ends as it does by the meaning of the tree, if and only if it ends at all by that
      meaning, unless, read with care, it goes wrong. */
  lemma {:induction false} TreeToMachine(h: Host, ops: C.Ops, s: Stmt, st: State, name: Naming, c: Machine.Config, m: Machine.Status)
    requires Injective(name) && Behaves(h, ops) && Whole(s) && Enclosed(s) && UserLocals(st)
    requires forall turns: nat :: !Exec(h, Careful, s, st, turns).how.WentWrong?
    requires
      var body := Core(LowerStmt(s), name);
      Fidelity.Usual(ops) && Fidelity.Tidy(body) && Fidelity.Braced(body)
    requires Functions.Called(CoreNames(st.locals, name), CoreState(st, name), c)
    ensures TreeEnds(h, Meant, s, st, name, m) <==>
              Functions.MachineEnds(ops, Functions.FunctionCode(CoreNames(st.locals, name), Core(LowerStmt(s), name)), c, m)
  {
    hide Exec, C.Exec, CoreState, Core, LowerStmt, Whole, Behaves, C.Fits, TreeFinishes, Functions.Finishes, Functions.Called, Functions.MachineEnds, Functions.FunctionCode,
      Fidelity.Usual, Fidelity.Tidy, Fidelity.Braced, UserLocals, CoreNames, Enclosed;
    WrittenOutToMachine(h, ops, s, st, name, c, m);
    forall turns: nat
      ensures Exec(h, Meant, s, st, turns) == Exec(h, WrittenOut, s, st, turns)
    {
      CarefulIsAny(h, Meant, s, st, turns);
      CarefulIsAny(h, WrittenOut, s, st, turns);
    }
  }

  lemma {:induction false} WholeParts(s: Stmt)
    requires Whole(s)
    ensures FineStmt(s) && WellPlaced(s, false) && Common(s)
  {
  }
}
