/** Where the models meet: compiled code as the escape analysis takes it, and lowered programs as the compiler takes them. */
module Connections {
  import opened Shapes
  import opened Values
  import Flow
  import Frame
  import B = Bytecode
  import EscapeGaps
  import C = Core
  import G = CodeGen
  import CodeLayout
  import ExprSim
  import ProgramSim
  import Functions
  import opened InstrShapes
  import opened Surface
  import opened Lower
  import opened ExecFacts
  import opened LowerSound

  // Compiled code under analysis.

  /** Code that names only registers of its frame is what the analyses ask for. */
  lemma {:induction false} FrameIsEnough(name: string, code: seq<B.Instr>, n: nat, arity: nat, variadic: bool)
    requires Frame.AllBelow(code, n)
    ensures Flow.RegsInFrame(ProtoOf(name, code, n, arity, variadic, false, false))
  {
    var p := ProtoOf(name, code, n, arity, variadic, false, false);
    forall k | 0 <= k < |p.code| ensures (Dst(p.code[k]).Some? ==> Dst(p.code[k]).value < n) && (p.code[k].Move? ==> p.code[k].src < n) {
      assert Frame.Below(code[k], n);
    }
  }

  /** The first statement of a block comes first in its code. */
  lemma {:induction false} FirstStatementFirst(ss: seq<C.Stmt>, x: G.Ctx)
    requires ss != [] && |x.env.names| == |x.env.regs| && C.FitsSeq(ss, false, false)
    ensures ExprSim.CodeAt(G.SeqCode(ss, x, 0), 0, G.StmtCode(ss[0], x, 0))
    decreases |ss|
  {
    var n := |ss| - 1;
    CodeLayout.SeqCodeSteps(ss, x, 0);
    if n > 0 {
      FirstStatementFirst(ss[..n], x);
      var first, all := G.SeqCode(ss[..n], x, 0), G.SeqCode(ss, x, 0);
      var m := |G.StmtCode(ss[0], x, 0)|;
      assert all[..m] == first[..m];
    } else {
      assert G.AfterSeq(ss[..0], x) == x && G.SeqCode(ss[..0], x, 0) == [];
      assert [] + G.StmtCode(ss[0], x, 0) == G.StmtCode(ss[0], x, 0);
    }
  }

  lemma {:induction false} FunctionStart(params: seq<string>, ss: seq<C.Stmt>)
    requires ss != [] && C.FitsSeq(ss, false, false)
    ensures ExprSim.CodeAt(Functions.FunctionCode(params, C.Block(ss)), 0, G.StmtCode(ss[0], Functions.Entry(params), 0))
  {
    hide G.StmtCode, G.SeqCode, G.After, G.AfterSeq, C.Fits, C.FitsSeq;
    var x := Functions.Entry(params);
    FirstStatementFirst(ss, x);
    CodeLayout.BlockCode(C.Block(ss), x, 0);
    var code, all := Functions.FunctionCode(params, C.Block(ss)), G.StmtCode(C.Block(ss), x, 0);
    var m := |G.StmtCode(ss[0], x, 0)|;
    assert code[..m] == all[..m];
  }

  /** A function that starts with a loop is compiled to code that comes back to its first
      instruction, where the summary never looks at what comes back. */
  lemma {:induction false} LoopFirstIsJumpTarget(params: seq<string>, ss: seq<C.Stmt>, n: nat)
    requires ss != [] && ss[0].While? && C.Fits(C.Block(ss), false, false)
    ensures Preds(ProtoOf("f", Functions.FunctionCode(params, C.Block(ss)), n, |params|, false, false, false), 0) != {}
  {
    hide G.StmtCode, G.SeqCode, G.After, G.AfterSeq, Preds, ProtoOf, Functions.FunctionCode;
    var x, w := Functions.Entry(params), ss[0];
    var code := Functions.FunctionCode(params, C.Block(ss));
    FunctionStart(params, ss);
    ProgramSim.WhilePlaces(code, w, x, 0);
    var m := |G.StmtCode(w, x, 0)|;
    assert code[m - 1] == B.Jmp(-m);
    BackEdge(code, m - 1, n, |params|);
  }

  lemma {:induction false} BackEdge(code: seq<B.Instr>, ip: nat, n: nat, arity: nat)
    requires ip < |code| && code[ip] == B.Jmp(-(ip + 1))
    ensures Preds(ProtoOf("f", code, n, arity, false, false, false), 0) != {}
  {
    var p := ProtoOf("f", code, n, arity, false, false, false);
    assert 0 in DirectFlow(ip, code[ip]);
    assert 0 in FlowOf(code, ip);
    assert 0 in Successors(p, ip);
    assert ip in Preds(p, 0);
  }

  /** `while q { echo q; q = p }` */
  const Spinning := C.While(C.Var("q"), C.Block([C.Echo(C.Var("q")), C.Assign("q", C.Var("p"))]))

  const SpinningCode := [B.JmpIfFalse(1, 3), B.Print(1), B.Copy(1, 0), B.Jmp(-4), B.LoadNil(2), B.Ret(2)]

  lemma {:induction false} SpinningReads(m: nat)
    ensures
      var env := G.Scope(["p", "q"], [0, 1]);
      && C.Find(["p", "q"], "p") == 0 && C.Find(["p", "q"], "q") == 1
      && G.ExprCode(C.Var("q"), env, m) == [] && G.ExprReg(C.Var("q"), env, m) == 1
      && G.ExprCode(C.Var("p"), env, m) == [] && G.ExprReg(C.Var("p"), env, m) == 0
  {
    assert ["p", "q"][..1] == ["p"];
    assert C.Find(["p"], "p") == 0;
  }

  lemma {:induction false} SpinningBody(x: G.Ctx, pos: nat)
    requires x.env == G.Scope(["p", "q"], [0, 1])
    ensures G.StmtCode(Spinning.body, x, pos) == [B.Print(1), B.Copy(1, 0)]
  {
    var e, a := C.Echo(C.Var("q")), C.Assign("q", C.Var("p"));
    var ss := [e, a];
    SpinningReads(x.next);
    assert G.StmtCode(e, x, pos) == [] + [B.Print(1)];
    assert G.StmtCode(a, x, pos + 1) == [] + [B.Copy(1, 0)];
    assert ss[..1] == [e] && [e][..0] == [];
    hide G.StmtCode, G.SeqCode, G.ExprCode;
    CodeLayout.BlockCode(Spinning.body, x, pos);
    CodeLayout.SeqCodeSteps(ss, x, pos);
    CodeLayout.SeqCodeSteps([e], x, pos);
    NoStatements(x, pos);
    assert [] + [B.Print(1)] == [B.Print(1)];
  }

  lemma {:induction false} NoStatements(x: G.Ctx, pos: nat)
    requires |x.env.names| == |x.env.regs|
    ensures G.SeqCode([], x, pos) == [] && G.AfterSeq([], x) == x && forall e :: G.AfterSeq([C.Echo(e)], x) == x
  {
    forall e ensures G.AfterSeq([C.Echo(e)], x) == x { assert [C.Echo(e)][..0] == []; }
  }

  lemma {:induction false} SpinningEntry()
    ensures
      var x := Functions.Entry(["p", "q"]);
      x == G.Ctx(G.Scope(["p", "q"], [0, 1]), 2, G.NoLoop) && G.After(Spinning, x) == x
  {
    assert Functions.Entry(["p", "q"]).env.regs == [0, 1];
  }

  lemma {:induction false} SpinningCycle()
    ensures
      var code := G.Cycle([], 1, [B.Print(1), B.Copy(1, 0)]) + [B.LoadNil(2), B.Ret(2)];
      code == SpinningCode
  {
  }

  lemma {:induction false} IsItsCode(params: seq<string>, s: C.Stmt)
    ensures
      var x := Functions.Entry(params);
      var nil := G.After(s, x).next;
      Functions.FunctionCode(params, s) == G.StmtCode(s, x, 0) + [B.LoadNil(nil), B.Ret(nil)]
  {
    hide G.StmtCode, G.After;
  }

  lemma {:induction false} BodyEnv(x: G.Ctx, start: nat, end: Option<nat>)
    ensures G.BodyCtx(x, start, end).env == x.env
  {
  }

  lemma {:induction false} SpinningIs()
    ensures Spinning == C.While(C.Var("q"), C.Block([C.Echo(C.Var("q")), C.Assign("q", C.Var("p"))]))
  {
  }

  lemma {:induction false} SpinningCompiles()
    ensures Functions.FunctionCode(["p", "q"], Spinning) == SpinningCode
  {
    hide *;
    var x := Functions.Entry(["p", "q"]);
    SpinningIs();
    SpinningEntry();
    SpinningReads(2);
    CodeLayout.WhileCode(Spinning, x, 0);
    forall end: Option<nat> ensures G.BodyCtx(x, 0, end).env == x.env { BodyEnv(x, 0, end); }
    forall end: Option<nat> ensures G.StmtCode(Spinning.body, G.BodyCtx(x, 0, end), 1) == [B.Print(1), B.Copy(1, 0)] {
      SpinningBody(G.BodyCtx(x, 0, end), 1);
    }
    IsItsCode(["p", "q"], Spinning);
    SpinningCycle();
  }

  lemma {:induction false} NothingCaught(code: seq<B.Instr>, ip: nat, n: nat)
    requires n <= |code| && forall k :: 0 <= k < n ==> !code[k].PushCatch?
    ensures CatchResume(code, ip, n) == None
    decreases n
  {
    if n > 0 { NothingCaught(code, ip, n - 1); }
  }

  /** The function on which the summary goes wrong is what the compiler makes of this source. */
  lemma {:induction false} EntryLoopIsCompiled()
    ensures ProtoOf("f", Functions.FunctionCode(["p", "q"], Spinning), 3, 2, false, false, false) == EscapeGaps.EntryLoop()
  {
    hide *;
    SpinningCompiles();
    SpinningProto();
  }

  lemma {:induction false} SpinningFlow()
    ensures
      var code := SpinningCode;
      FlowOf(code, 0) == {1, 4} && FlowOf(code, 1) == {2} && FlowOf(code, 2) == {3} && FlowOf(code, 3) == {0} && FlowOf(code, 4) == {5} && FlowOf(code, 5) == {}
  {
    hide CatchResume, FlowOf;
    forall ip: nat | ip < 6
      ensures FlowOf(SpinningCode, ip) == set t | t in DirectFlow(ip, SpinningCode[ip]) && t >= 0
    {
      FlowWithoutCatch(SpinningCode, ip);
    }
  }

  lemma {:induction false} FlowWithoutCatch(code: seq<B.Instr>, ip: nat)
    requires ip < |code| && forall k :: 0 <= k < |code| ==> !code[k].PushCatch?
    ensures FlowOf(code, ip) == set t | t in DirectFlow(ip, code[ip]) && t >= 0
  {
    NothingCaught(code, ip, |code|);
  }

  lemma {:induction false} SpinningCatches(ip: nat)
    requires ip < 6
    ensures CatchResume(SpinningCode, ip, 6) == None
  {
    hide CatchResume;
    NothingCaught(SpinningCode, ip, 6);
  }

  lemma {:induction false} SpinningProto()
    ensures ProtoOf("f", SpinningCode, 3, 2, false, false, false) == EscapeGaps.EntryLoop()
  {
    hide FlowOf, CatchResume;
    SpinningFlow();
    SpinningCatches(0);
    SpinningCatches(1);
    SpinningCatches(2);
    SpinningCatches(3);
    SpinningCatches(4);
    SpinningCatches(5);
    var p := ProtoOf("f", SpinningCode, 3, 2, false, false, false);
    assert p.code == EscapeGaps.EntryLoop().code && p.flow == EscapeGaps.EntryLoop().flow && p.catches == EscapeGaps.EntryLoop().catches;
  }

  // Lowered programs under compilation.

  /** The statements of a lowered program as the compiler's, whatever becomes of expressions. */
  function AsCore(s: Stmt, f: Expr -> C.Expr, name: Name -> string): C.Stmt
    decreases s, 0
  {
    match s
    case Expression(e) => if e.Assign? && e.target.Ident? then C.Assign(name(e.target.name), f(e.value)) else C.Expression(f(e))
    case Echo(e) => C.Echo(f(e))
    case Var(x, e) => C.VarDecl(name(x), f(e))
    case Block(ss) => C.Block(AllAsCore(ss, f, name))
    case If(c, t, e) => C.If(f(c), AsCore(t, f, name), if e.Some? then Some(AsCore(e.value, f, name)) else None)
    case While(c, body) => C.While(f(c), AsCore(body, f, name))
    case Break => C.Break
    case Continue => C.Continue
    case FixContinue => C.FixContinue
    case Return(e) => C.Return(f(e))
    case Raise(e) => C.RaiseOf(f(e))
    case Catch(body, handler, binds) =>
      C.Catch(AsCore(body, f, name), if handler.Some? then Some(AsCore(handler.value, f, name)) else None, if binds.Some? then Some(name(binds.value)) else None)
    case _ => C.Block([])
  }

  function AllAsCore(ss: seq<Stmt>, f: Expr -> C.Expr, name: Name -> string): (r: seq<C.Stmt>)
    ensures |r| == |ss|
    decreases ss, 0
  {
    if ss == [] then [] else AllAsCore(ss[..|ss| - 1], f, name) + [AsCore(ss[|ss| - 1], f, name)]
  }

  /** Programs in which the bodies of loops and of `catch` open a scope before they declare
      anything, and whose jumps stand in loops. */
  predicate WellPlaced(s: Stmt, inLoop: bool)
    decreases s, 0
  {
    match s
    case Block(ss) => forall i :: 0 <= i < |ss| ==> WellPlaced(ss[i], inLoop)
    case If(_, t, f) => WellPlaced(t, inLoop) && (f.Some? ==> WellPlaced(f.value, inLoop))
    case While(_, body) => PlacedBody(body, true)
    case Break => inLoop
    case Continue => inLoop
    case FixContinue => false
    case Catch(body, handler, binds) => PlacedBody(body, inLoop) && (handler.Some? ==> binds.Some? && PlacedBody(handler.value, inLoop))
    case For(_, _, _, body) => PlacedBody(body, true)
    case Iter(init, _, _, body) => (init.Some? ==> WellPlaced(init.value, inLoop)) && PlacedBody(body, true)
    case DoWhile(body, _) => PlacedBody(body, inLoop) && PlacedBody(body, true)
    case _ => true
  }

  predicate PlacedBody(s: Stmt, inLoop: bool)
    decreases s, 1
  {
    WellPlaced(s, inLoop) && !Declares(s)
  }

  ghost predicate CoreFits(s: Stmt, f: Expr -> C.Expr, name: Name -> string, inLoop: bool) {
    C.Fits(AsCore(s, f, name), inLoop, false)
  }

  lemma {:induction false} AsCoreDeclares(s: Stmt, f: Expr -> C.Expr, name: Name -> string)
    ensures C.Declares(AsCore(s, f, name)) == Declares(s)
    ensures AsCore(s, f, name).FixContinue? == s.FixContinue?
    decreases s
  {
    if s.If? {
      AsCoreDeclares(s.thenB, f, name);
      if s.elseB.Some? { AsCoreDeclares(s.elseB.value, f, name); }
    }
  }

  /** Statements that fit alone fit in sequence, whether or not the block is a loop's own. */
  lemma {:induction false} SeqFits(ss: seq<C.Stmt>, inLoop: bool, own: bool)
    requires forall i :: 0 <= i < |ss| ==> C.Fits(ss[i], inLoop, false)
    ensures C.FitsSeq(ss, inLoop, own)
    decreases |ss|
  {
    if ss != [] { SeqFits(ss[..|ss| - 1], inLoop, own); }
  }

  /** The same after a `FixContinue` that follows a single statement. */
  lemma {:induction false} FixedFits(first: C.Stmt, rest: seq<C.Stmt>)
    requires C.Fits(first, true, false) && !C.Declares(first)
    requires forall i :: 0 <= i < |rest| ==> C.Fits(rest[i], true, false)
    ensures C.FitsSeq([first, C.FixContinue] + rest, true, true)
    decreases |rest|
  {
    var all := [first, C.FixContinue] + rest;
    var n := |all| - 1;
    if rest == [] {
      assert all[..1] == [first] && all[1] == C.FixContinue;
      assert [first][..0] == [];
    } else {
      FixedFits(first, rest[..|rest| - 1]);
      assert all[..n] == [first, C.FixContinue] + rest[..|rest| - 1];
      assert all[n] == rest[|rest| - 1];
    }
  }

  /** A loop's own block asks for no more than any other. */
  lemma {:induction false} OwnFits(s: C.Stmt, inLoop: bool)
    requires C.Fits(s, inLoop, false)
    ensures C.Fits(s, inLoop, true)
  {
    if s.Block? { OwnFitsSeq(s.stmts, inLoop); }
  }

  lemma {:induction false} OwnFitsSeq(ss: seq<C.Stmt>, inLoop: bool)
    requires C.FitsSeq(ss, inLoop, false)
    ensures C.FitsSeq(ss, inLoop, true)
    decreases |ss|
  {
    if ss != [] { OwnFitsSeq(ss[..|ss| - 1], inLoop); }
  }

  lemma {:induction false} AllAsCoreAt(ss: seq<Stmt>, f: Expr -> C.Expr, name: Name -> string, i: nat)
    requires i < |ss|
    ensures AllAsCore(ss, f, name)[i] == AsCore(ss[i], f, name)
    decreases |ss|
  {
    if i < |ss| - 1 { AllAsCoreAt(ss[..|ss| - 1], f, name, i); }
  }

  lemma {:induction false} LowerStmtsAt(ss: seq<Stmt>, i: nat)
    requires i < |ss|
    ensures LowerStmts(ss)[i] == LowerStmt(ss[i])
    decreases |ss|
  {
    if i < |ss| - 1 { LowerStmtsAt(ss[..|ss| - 1], i); }
  }

  lemma {:induction false} BlockFits(ss: seq<Stmt>, f: Expr -> C.Expr, name: Name -> string, inLoop: bool)
    requires forall i :: 0 <= i < |ss| ==> CoreFits(ss[i], f, name, inLoop)
    ensures CoreFits(Block(ss), f, name, inLoop)
  {
    var cs := AllAsCore(ss, f, name);
    forall i | 0 <= i < |cs| ensures C.Fits(cs[i], inLoop, false) {
      assert CoreFits(ss[i], f, name, inLoop);
      AllAsCoreAt(ss, f, name, i);
    }
    SeqFits(cs, inLoop, false);
  }

  lemma {:induction false} WhileFits(c: Expr, body: Stmt, f: Expr -> C.Expr, name: Name -> string, inLoop: bool)
    requires CoreFits(body, f, name, true) && !Declares(body)
    ensures CoreFits(While(c, body), f, name, inLoop)
  {
    OwnFits(AsCore(body, f, name), true);
    AsCoreDeclares(body, f, name);
  }

  /** A loop whose body is followed by steps that `continue` must not skip. */
  lemma {:induction false} SteppedFits(c: Expr, body: Stmt, steps: seq<Stmt>, f: Expr -> C.Expr, name: Name -> string, inLoop: bool)
    requires CoreFits(body, f, name, true) && !Declares(body)
    requires forall i :: 0 <= i < |steps| ==> steps[i].Expression?
    ensures CoreFits(While(c, Block([body, FixContinue] + steps)), f, name, inLoop)
  {
    hide *;
    SteppedAsCore(body, steps, f, name);
    AsCoreDeclares(body, f, name);
    assert C.Fits(AsCore(body, f, name), true, false) by { CoreFitsIs(body, f, name, true); }
    forall i | 0 <= i < |steps| ensures C.Fits(AllAsCore(steps, f, name)[i], true, false) { StepFits(steps, f, name, i); }
    FixedFits(AsCore(body, f, name), AllAsCore(steps, f, name));
    OwnLoopFits(While(c, Block([body, FixContinue] + steps)), f, name, inLoop);
  }

  lemma {:induction false} CoreFitsIs(s: Stmt, f: Expr -> C.Expr, name: Name -> string, inLoop: bool)
    ensures CoreFits(s, f, name, inLoop) == C.Fits(AsCore(s, f, name), inLoop, false)
  {
  }

  lemma {:induction false} StepFits(steps: seq<Stmt>, f: Expr -> C.Expr, name: Name -> string, i: nat)
    requires i < |steps| && steps[i].Expression?
    ensures C.Fits(AllAsCore(steps, f, name)[i], true, false)
  {
    AllAsCoreAt(steps, f, name, i);
  }

  lemma {:induction false} OwnLoopFits(s: Stmt, f: Expr -> C.Expr, name: Name -> string, inLoop: bool)
    requires s.While? && s.body.Block? && C.FitsSeq(AllAsCore(s.body.stmts, f, name), true, true)
    ensures CoreFits(s, f, name, inLoop)
  {
    hide AllAsCore;
    var body := C.Block(AllAsCore(s.body.stmts, f, name));
    assert AsCore(s, f, name) == C.While(f(s.cond), body);
    assert C.Fits(body, true, true) && !C.Declares(body);
  }

  lemma {:induction false} SteppedAsCore(body: Stmt, steps: seq<Stmt>, f: Expr -> C.Expr, name: Name -> string)
    ensures AllAsCore([body, FixContinue] + steps, f, name) == [AsCore(body, f, name), C.FixContinue] + AllAsCore(steps, f, name)
  {
    hide AllAsCore;
    var ss := [body, FixContinue] + steps;
    forall i | 0 <= i < |ss| ensures AllAsCore(ss, f, name)[i] == AsCore(ss[i], f, name) { AllAsCoreAt(ss, f, name, i); }
    forall i | 0 <= i < |steps| ensures AllAsCore(steps, f, name)[i] == AsCore(steps[i], f, name) { AllAsCoreAt(steps, f, name, i); }
  }

  lemma {:induction false} ForFits(key: Option<Name>, value: Name, iterable: Expr, body: Stmt, f: Expr -> C.Expr, name: Name -> string, inLoop: bool)
    requires CoreFits(body, f, name, true) && !Declares(body)
    ensures CoreFits(ForLoop(key, value, iterable, body), f, name, inLoop)
  {
    if key.None? && iterable.Op? && iterable.kind.RangeOf? && |iterable.args| == 2 {
      CountedFits(value, iterable.args[0], iterable.args[1], body, f, name, inLoop);
    } else {
      var k := KeyOf(key);
      var ss := [Advance(k), Stop(k), FetchTo(k, value), body];
      forall i | 0 <= i < |ss| ensures CoreFits(ss[i], f, name, true) { }
      BlockFits(ss, f, name, true);
      WhileFits(Lit(Bool(true)), ForBody(k, value, body), f, name, inLoop);
      BlockFits([Var(IterName, iterable), Var(k, Lit(Nil)), Var(value, Lit(Nil)), While(Lit(Bool(true)), ForBody(k, value, body))], f, name, inLoop);
    }
  }

  lemma {:induction false} CountedFits(x: Name, lower: Expr, upper: Expr, body: Stmt, f: Expr -> C.Expr, name: Name -> string, inLoop: bool)
    requires CoreFits(body, f, name, true) && !Declares(body)
    ensures CoreFits(CountedLoop(x, lower, upper, body), f, name, inLoop)
  {
    var steps := [Set(x, Op(Bin(Add), [Ident(x), Ident(StepName)])), Set(TurnName, Op(Bin(Add), [Ident(TurnName), Lit(Num(1))]))];
    SteppedFits(Op(Cmp(Lt), [Ident(TurnName), Ident(CountName)]), body, steps, f, name, inLoop);
    assert CountedBody(x, body) == Block([body, FixContinue] + steps);
    var all := CountedLoop(x, lower, upper, body).stmts;
    forall i | 0 <= i < |all| ensures CoreFits(all[i], f, name, inLoop) {
      if i < 6 { assert all[i].Var?; } else { assert all[i] == CountedWhile(x, body); }
    }
    BlockFits(all, f, name, inLoop);
  }

  lemma {:induction false} IterFits(init: Option<Stmt>, test: Option<Expr>, steps: seq<Expr>, body: Stmt, f: Expr -> C.Expr, name: Name -> string, inLoop: bool)
    requires init.Some? ==> CoreFits(init.value, f, name, inLoop)
    requires CoreFits(body, f, name, true) && !Declares(body)
    ensures CoreFits(IterLoop(init, test, steps, body), f, name, inLoop)
  {
    SteppedFits(if test.Some? then test.value else Lit(Bool(true)), body, AsStmts(steps), f, name, inLoop);
    BlockFits(IterLoop(init, test, steps, body).stmts, f, name, inLoop);
  }

  lemma {:induction false} LowerDeclares(s: Stmt)
    ensures Declares(LowerStmt(s)) == Declares(s)
    decreases s
  {
    if s.If? {
      LowerDeclares(s.thenB);
      if s.elseB.Some? { LowerDeclares(s.elseB.value); }
    }
  }

  /** The compiler is only ever given programs it is made for: whatever expressions compile to,
      lowering a program with its jumps in loops leaves every `FixContinue` in a loop's own block,
      after one statement that declares nothing, and every jump in a loop. */
  lemma {:induction false} LoweredFits(s: Stmt, f: Expr -> C.Expr, name: Name -> string, inLoop: bool)
    requires WellPlaced(s, inLoop)
    ensures C.Fits(AsCore(LowerStmt(s), f, name), inLoop, false)
    decreases s, 0
  {
    match s
    case Block(ss) =>
      var ls := LowerStmts(ss);
      forall i | 0 <= i < |ls| ensures CoreFits(ls[i], f, name, inLoop) {
        LowerStmtsAt(ss, i);
        LoweredFits(ss[i], f, name, inLoop);
      }
      BlockFits(ls, f, name, inLoop);
    case If(c, t, e) =>
      LoweredFits(t, f, name, inLoop);
      if e.Some? { LoweredFits(e.value, f, name, inLoop); }
    case While(c, body) =>
      LoweredBody(body, f, name, true);
      WhileFits(LowerExpr(c), LowerStmt(body), f, name, inLoop);
    case Catch(body, handler, _) =>
      LoweredBody(body, f, name, inLoop);
      if handler.Some? { LoweredBody(handler.value, f, name, inLoop); }
    case For(key, value, iterable, body) =>
      LoweredBody(body, f, name, true);
      ForFits(key, value, LowerExpr(iterable), LowerStmt(body), f, name, inLoop);
    case Iter(init, test, steps, body) =>
      if init.Some? { LoweredFits(init.value, f, name, inLoop); }
      LoweredBody(body, f, name, true);
      IterFits(if init.Some? then Some(LowerStmt(init.value)) else None, if test.Some? then Some(LowerExpr(test.value)) else None, LowerAll(steps), LowerStmt(body), f, name, inLoop);
    case DoWhile(body, until) =>
      LoweredBody(body, f, name, inLoop);
      LoweredBody(body, f, name, true);
      WhileFits(LowerExpr(until), LowerStmt(body), f, name, inLoop);
      BlockFits([LowerStmt(body), While(LowerExpr(until), LowerStmt(body))], f, name, inLoop);
    case _ =>
  }

  lemma {:induction false} LoweredBody(s: Stmt, f: Expr -> C.Expr, name: Name -> string, inLoop: bool)
    requires PlacedBody(s, inLoop)
    ensures CoreFits(LowerStmt(s), f, name, inLoop) && !Declares(LowerStmt(s)) && !C.Declares(AsCore(LowerStmt(s), f, name))
    decreases s, 1
  {
    LoweredFits(s, f, name, inLoop);
    LowerDeclares(s);
    AsCoreDeclares(LowerStmt(s), f, name);
  }
}
