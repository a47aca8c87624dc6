/** The compiler: a function scope whose methods append to the code, patch jumps in place and move the register mark. */
module Compiler {
  // What they leave is stated with the functions of `Compiling` and `CompilingStmts`, and comes
  // to the code that `CodeGen` describes.

  import opened Shapes
  import opened Bytecode
  import opened Values
  import opened Core
  import opened CodeGen
  import opened Frame
  import opened Functions
  import Redirect
  import opened Compiling
  import opened CompilingStmts

  class FunctionScope {
    var code: seq<Instr>
    var locals: Scope
    var nextReg: nat
    var maxReg: nat
    var loops: seq<LoopContext>
    var openCatches: nat

    constructor ()
      ensures View() == Comp([], Scope([], []), 0, 0, [], 0)
    {
      code, locals, nextReg, maxReg, loops, openCatches := [], Scope([], []), 0, 0, [], 0;
    }

    ghost function View(): Comp
      reads this
    {
      Comp(code, locals, nextReg, maxReg, loops, openCatches)
    }

    method AllocReg() returns (r: Reg)
      modifies this
      ensures r == old(nextReg) && View() == old(View()).Alloc()
    {
      r := nextReg;
      nextReg := nextReg + 1;
      maxReg := if nextReg > maxReg then nextReg else maxReg;
    }

    method FreeRegsTo(mark: nat)
      modifies this
      ensures View() == old(View()).Free(mark)
    {
      nextReg := mark;
      if mark > maxReg { maxReg := mark; }
    }

    method Emit(i: Instr) returns (at: nat)
      modifies this
      ensures at == |old(code)| && View() == old(View()).Put(i)
    {
      at := |code|;
      code := code + [i];
    }

    method PatchJump(at: nat)
      requires at < |code| && IsJump(code[at])
      modifies this
      ensures View() == old(View()).Patch(at)
      ensures |code| == |old(code)| && SameJump(old(code)[at], code[at]) && TargetOf(code, at) == |code|
      ensures forall k :: 0 <= k < |code| && k != at ==> code[k] == old(code)[k]
      ensures forall k :: 0 <= k < |code| && k != at && IsJump(code[k]) ==> TargetOf(code, k) == TargetOf(old(code), k)
    {
      code := code[at := WithOffset(code[at], |code| - (at + 1))];
    }

    method EmitLoop(loopStart: nat) returns (at: nat)
      modifies this
      ensures at == |old(code)| && View() == old(View()).Put(Jmp(loopStart - (at + 1)))
    {
      at := Emit(Jmp(loopStart - (|code| + 1)));
    }

    /** Brings a value to `dst` unless it is there. */
    method EmitMove(dst: Reg, src: Reg)
      modifies this
      ensures View() == old(View()).Move(dst, src)
    {
      if src != dst {
        var _ := Emit(Copy(dst, src));
      } else {
        assert code == code + MoveTo(dst, src);
      }
    }

    /** A register of its own for a result: the operand's, unless that is a local. */
    method Destination(src: Reg, mark: nat) returns (dst: Reg)
      requires if src < mark then nextReg == mark else src == mark && nextReg == mark + 1 <= maxReg
      modifies this
      ensures dst == mark && View() == Placed(old(View()), mark)
    {
      if src >= mark { dst := src; } else { dst := AllocReg(); }
    }

    method CompileExpression(e: Expr) returns (r: Reg)
      requires View().Ok()
      modifies this
      ensures View().Ok() && View() == old(View()).Load(e) && r == ExprReg(e, old(locals), old(nextReg))
      decreases e, 1
    {
      ghost var c := View();
      LoadOk(c, e);
      match e
      case Lit(v) =>
        r := AllocReg();
        var _ := Emit(LoadLit(v, r));
      case Var(name) =>
        var i := Find(locals.names, name);
        if i >= 0 {
          r := locals.regs[i];
          assert c.code == c.code + [];
        } else {
          r := AllocReg();
          var _ := Emit(ReadGlobal(r, name));
        }
      case UnaryOf(op, a) =>
        var mark := nextReg;
        LoadOk(c, a);
        var src := CompileExpression(a);
        r := Destination(src, mark);
        var _ := Emit(Unary(op, r, src));
        assert code == c.code + (ExprCode(a, c.locals, mark) + [Unary(op, mark, src)]);
      case Binary(_, _, _) => r := CompileOperator(e);
      case Logical(_, _, _) => r := CompileOperator(e);
      case Circuit(_, _, _) => r := CompileCircuit(e);
      case Grouping(a) => r := CompileExpression(a);
      case Condition(_, _, _) => r := CompileCondition(e);
    }

    method CompileOperator(e: Expr) returns (r: Reg)
      requires View().Ok() && (e.Binary? || e.Logical?)
      modifies this
      ensures View() == old(View()).Load(e) && r == old(nextReg)
      decreases e, 0
    {
      LoadOk(View(), e.left);
      OperatorResult(View(), e);
      hide ExprCode, ExprReg, ExprPeak, ExprNext;
      var mark := nextReg;
      var a := CompileExpression(e.left);
      r := Destination(a, mark);
      if e.right.Lit? && e.right.val.Num? && (e.Logical? || FusesArith(e.op)) {
        var _ := Emit(if e.Binary? then ArithImm(e.op, r, a, e.right.val.n) else CompareImm(e.cmp, r, a, e.right.val.n));
        FreeRegsTo(r + 1);
      } else {
        var rhsMark := nextReg;
        var b := CompileExpression(e.right);
        var _ := Emit(if e.Binary? then Arith(e.op, r, a, b) else Compare(e.cmp, r, a, b));
        FreeRegsTo(Max(rhsMark, r + 1));
      }
    }

    method CompileCircuit(e: Expr) returns (r: Reg)
      requires View().Ok() && e.Circuit?
      modifies this
      ensures View() == old(View()).Load(e) && r == old(nextReg)
      decreases e, 0
    {
      CircuitResult(View(), e);
      hide ExprCode, ExprReg, ExprPeak, ExprNext, MoveTo, Shorted;
      r := nextReg;
      var jump := CompileLeft(e);
      var b := CompileExpression(e.right);
      EmitMove(r, b);
      FreeRegsTo(r + 1);
      PatchJump(jump);
    }

    /** The left operand of `and`/`or` in the common register, and the jump past the right one. */
    method CompileLeft(e: Expr) returns (jump: nat)
      requires View().Ok() && e.Circuit?
      modifies this
      ensures |old(locals).names| == |old(locals).regs| && View() == Shorted(old(View()), e) && |code| == jump + 1
      decreases e.left, 2
    {
      LoadOk(View(), e.left);
      hide ExprCode, ExprReg, ExprPeak, ExprNext, MoveTo;
      var r := nextReg;
      var a := CompileExpression(e.left);
      EmitMove(r, a);
      FreeRegsTo(r + 1);
      jump := Emit(if e.isAnd then JmpIfFalse(r, 0) else JmpIfTrue(r, 0));
    }

    /** A condition, and a jump to be patched for when it fails. */
    method CompileTest(e: Expr) returns (jump: nat)
      requires View().Ok()
      modifies this
      ensures View().Ok() && View() == Tested(old(View()), e)
      ensures |code| == jump + 1 && IsJump(code[jump])
      decreases e, 2
    {
      TestedOk(View(), e);
      LoadOk(View(), e);
      hide ExprCode, ExprReg, ExprPeak, ExprNext;
      var mark := nextReg;
      var r := CompileExpression(e);
      jump := Emit(JmpIfFalse(r, 0));
      FreeRegsTo(mark);
    }

    method CompileCondition(e: Expr) returns (r: Reg)
      requires View().Ok() && e.Condition?
      modifies this
      ensures View() == old(View()).Load(e) && r == old(nextReg)
      decreases e, 0
    {
      ConditionResult(View(), e);
      hide ExprCode, ExprReg, ExprPeak, ExprNext, MoveTo, Tested, Chosen;
      r := nextReg;
      var thenJump := CompileTest(e.cond);
      var elseJump := CompileTruth(e, thenJump);
      var no := CompileExpression(e.falsy);
      EmitMove(r, no);
      PatchJump(elseJump);
      FreeRegsTo(r + 1);
    }

    /** The first arm of `?:`, with the jump over the second. */
    method CompileTruth(e: Expr, thenJump: nat) returns (elseJump: nat)
      requires View().Ok() && e.Condition? && |code| == thenJump + 1 && IsJump(code[thenJump])
      modifies this
      ensures View() == Chosen(old(View()), e, thenJump) && |code| == elseJump + 1
      decreases e.truth, 2
    {
      LoadOk(View(), e.truth);
      hide ExprCode, ExprReg, ExprPeak, ExprNext, MoveTo;
      var mark := nextReg;
      var yes := CompileExpression(e.truth);
      EmitMove(mark, yes);
      elseJump := Emit(Jmp(0));
      FreeRegsTo(mark);
      PatchJump(thenJump);
    }
  
    /** Pops the handlers of the `catch` bodies opened inside the innermost loop. */
    method LeaveLoopCatches()
      requires loops != [] ==> loops[|loops| - 1].openCatches <= openCatches
      modifies this
      ensures View() == old(View()).(code := old(code) + Pops(Opens(old(View()))))
    {
      var since := if loops == [] then 0 else loops[|loops| - 1].openCatches;
      ghost var c := View();
      var n := since;
      assert c.code + Pops(0) == c.code;
      while n < openCatches
        invariant since <= n <= openCatches && View() == c.(code := c.code + Pops(n - since))
      {
        var _ := Emit(PopCatch);
        assert Pops(n - since) + [PopCatch] == Pops(n + 1 - since);
        assert c.code + Pops(n - since) + [PopCatch] == c.code + (Pops(n - since) + [PopCatch]);
        n := n + 1;
      }
    }

    method CompileStatement(s: Stmt, ghost own: bool)
      requires Ready(View(), own) && Fits(s, loops != [], own)
      modifies this
      ensures View() == Compiled(old(View()), s) && Ready(View(), false) && (loops == [] <==> old(loops) == [])
      decreases s, 4
    {
      CompiledReady(View(), s, own);
      hide Compiled, Fits;
      match s
      case Block(_) => CompileBlock(s, own);
      case If(_, _, _) => CompileIf(s, own);
      case While(_, _) => CompileWhile(s, own);
      case Catch(_, _, _) => CompileCatch(s, own);
      case Break => CompileJump(s);
      case Continue => CompileJump(s);
      case FixContinue => FixNever(s, loops != [], own);
      case _ => CompileSimple(s);
    }

    method CompileSimple(s: Stmt)
      requires View().Ok() && (s.Expression? || s.Assign? || s.Echo? || s.VarDecl? || s.Return? || s.RaiseOf?)
      modifies this
      ensures View() == Compiled(old(View()), s)
    {
      LoadOk(View(), s.e);
      SimpleResult(View(), s);
      hide ExprCode, ExprReg, ExprPeak, ExprNext, Compiled;
      var mark := nextReg;
      var r := CompileExpression(s.e);
      match s
      case Expression(_) => FreeRegsTo(mark);
      case Echo(_) =>
        var _ := Emit(Print(r));
        FreeRegsTo(mark);
      case Assign(name, _) =>
        var i := Find(locals.names, name);
        if i < 0 {
          var _ := Emit(AssignGlobal(name, r));
        } else if r != locals.regs[i] {
          var _ := Emit(Copy(locals.regs[i], r));
          FreeRegsTo(r);
        }
        FreeRegsTo(mark);
      case VarDecl(name, _) =>
        var reg := r;
        if r < mark {
          reg := AllocReg();
          var _ := Emit(Copy(reg, r));
        }
        locals := locals.Declare(name, reg);
      case Return(_) => var _ := Emit(Ret(r));
      case RaiseOf(_) => var _ := Emit(Raise(r));
    }

    method CompileJump(s: Stmt)
      requires Ready(View(), false) && (s.Break? || s.Continue?) && loops != []
      modifies this
      ensures View() == Compiled(old(View()), s)
    {
      JumpResult(View(), s);
      hide Compiled, Pops;
      LeaveLoopCatches();
      var n := |loops| - 1;
      var l := loops[n];
      if s.Break? {
        var at := Emit(Jmp(0));
        loops := loops[..n] + [l.(breakJumps := l.breakJumps + [at])];
        assert l.continueLocales + [] == l.continueLocales;
      } else {
        var at := EmitLoop(l.continueTarget);
        loops := loops[..n] + [l.(continueLocales := l.continueLocales + [at])];
        assert l.breakJumps + [] == l.breakJumps;
      }
    }

    method CompileIf(s: Stmt, ghost own: bool)
      requires Ready(View(), own) && s.If? && Fits(s, loops != [], own)
      modifies this
      ensures View() == Compiled(old(View()), s)
      decreases s, 3
    {
      ghost var c := View();
      IfReady(c, s, own);
      IfFits(s, loops != [], own);
      hide Compiled, Tested, NeverFallsThrough, Branched, Ready, Fits;
      ReadyOk(c, own);
      var thenJump := CompileTest(s.cond);
      var elseJump := CompileThen(s, thenJump);
      match s.elseB
      case None => IfThenResult(c, s, own);
      case Some(f) =>
        IfElseResult(c, s, own);
        CompileStatement(f, false);
        if !NeverFallsThrough(s.thenB) { PatchJump(elseJump); }
    }

    /** The first branch of an `if`, and the jump over the other one if that can be reached. */
    method CompileThen(s: Stmt, thenJump: nat) returns (elseJump: nat)
      requires Ready(View(), false) && s.If? && Fits(s.thenB, loops != [], false) && |code| == thenJump + 1 && IsJump(code[thenJump])
      modifies this
      ensures View() == Branched(old(View()), s)
      ensures s.elseB.Some? && !NeverFallsThrough(s.thenB) ==> |code| == elseJump + 1
      decreases s, 2
    {
      CompiledReady(View(), s.thenB, false);
      hide Fits, NeverFallsThrough, Ready;
      CompileStatement(s.thenB, false);
      elseJump := 0;
      if s.elseB.Some? && !NeverFallsThrough(s.thenB) { elseJump := Emit(Jmp(0)); }
      PatchJump(thenJump);
    }

    method CompileWhile(s: Stmt, ghost own: bool)
      requires Ready(View(), own) && s.While? && Fits(s, loops != [], own)
      modifies this
      ensures View() == Compiled(old(View()), s)
      decreases s, 3
    {
      ghost var c := View();
      hide Compiled, Tested, Looped, Ready, Fits, PatchAll, CtxOf;
      WhileFits(s, c.loops != [], own);
      WhileResult(c, s, own);
      ReadyOk(c, own);
      var loopStart := |code|;
      var exitJump := CompileTest(s.cond);
      var finished := CompileLoop(s, loopStart, exitJump, own, c);
      PatchBreaks(finished.breakJumps);
    }

    /** A loop's body and the jump back, up to where the loop is closed. */
    method CompileLoop(s: Stmt, loopStart: nat, exitJump: nat, ghost own: bool, ghost c: Comp) returns (finished: LoopContext)
      requires s.While? && Fits(s.body, true, true) && Ready(c, own)
      requires |c.locals.names| == |c.locals.regs| && View() == Tested(c, s.cond) && loopStart == |c.code| && |code| == exitJump + 1 && IsJump(code[exitJump])
      modifies this
      ensures |old(View()).locals.names| == |old(View()).locals.regs|
      ensures View() == Looped(old(View()), s, loopStart)
      ensures var d1 := Compiled(PushLoop(old(View()), loopStart), s.body); d1.loops != [] && finished == d1.loops[|d1.loops| - 1]
      decreases s, 2
    {
      LoopedIs(c, s, own);
      hide Tested, Fits, Ready, Compiled, ExprCode, ExprReg, StmtCode;
      loops := loops + [LoopContext(loopStart, [], [], openCatches)];
      CompileStatement(s.body, true);
      var _ := EmitLoop(loopStart);
      PatchJump(exitJump);
      finished := loops[|loops| - 1];
      loops := loops[..|loops| - 1];
    }

    method PatchBreaks(sites: seq<nat>)
      requires AreJumps(code, sites)
      modifies this
      ensures View() == old(View()).(code := PatchAll(old(code), sites))
    {
      ghost var c := View();
      for k := 0 to |sites|
        invariant View() == c.(code := PatchAll(c.code, sites[..k]))
      {
        assert sites[k] in sites;
        PatchOneMore(c.code, sites, k);
        PatchJump(sites[k]);
      }
      assert sites[..|sites|] == sites;
    }

    method CompileCatch(s: Stmt, ghost own: bool)
      requires Ready(View(), own) && s.Catch? && Fits(s, loops != [], own)
      modifies this
      ensures View() == Compiled(old(View()), s)
      decreases s, 3
    {
      ghost var c := View();
      hide Compiled, Ready, Fits, Shut, Asked, Bound, Opened, StmtCode, Redirect.Sites, StmtPeak, After, AddSites, CtxOf, Guarded;
      CatchFits(s, loops != [], own);
      ReadyOk(c, own);
      ShutIs(c, s, own);
      var reg := nextReg;
      var pushAt := OpenCatch(s);
      CloseCatch(s.body, pushAt);
      match s.handler
      case None => CatchPlainResult(c, s, own);
      case Some(h) =>
        CatchHandlerResult(c, s, own);
        var skip := CompileErrorTest(reg);
        CompileStatement(h, false);
        PatchJump(skip);
    }

    /** Declares the variable of a `catch`, if any, and pushes its handler. */
    method OpenCatch(s: Stmt) returns (pushAt: nat)
      requires s.Catch?
      modifies this
      ensures View() == Opened(Bound(old(View()), s), VarOf(old(View()), s)) && |code| == pushAt + 1
    {
      var varReg: Option<Reg> := None;
      if s.binds.Some? {
        var reg := AllocReg();
        var _ := Emit(LoadNil(reg));
        locals := locals.Declare(s.binds.value, reg);
        varReg := Some(reg);
      }
      pushAt := Emit(PushCatch(varReg, 0));
      openCatches := openCatches + 1;
    }

    method CloseCatch(body: Stmt, pushAt: nat)
      requires Ready(View(), false) && Fits(body, loops != [], false) && openCatches > 0 && |code| == pushAt + 1 && IsJump(code[pushAt])
      modifies this
      ensures |old(locals).names| == |old(locals).regs| && View() == Shut(old(View()), body)
      decreases body, 5
    {
      ReadyOk(View(), false);
      CompiledReady(View(), body, false);
      hide Fits, Ready;
      CompileStatement(body, false);
      openCatches := openCatches - 1;
      var _ := Emit(PopCatch);
      PatchJump(pushAt);
    }

    /** Whether the variable in `reg` is still nil. */
    method CompileErrorTest(reg: Reg) returns (skip: nat)
      modifies this
      ensures View() == Asked(old(View()), reg) && |code| == skip + 1
    {
      var mark := nextReg;
      var nilReg := AllocReg();
      var _ := Emit(LoadNil(nilReg));
      var condReg := AllocReg();
      var _ := Emit(Compare(Neq, condReg, reg, nilReg));
      skip := Emit(JmpIfFalse(condReg, 0));
      FreeRegsTo(mark);
    }

    method CompileBlock(s: Stmt, ghost own: bool)
      requires Ready(View(), own) && s.Block? && Fits(s, loops != [], own)
      modifies this
      ensures View() == Compiled(old(View()), s)
      decreases s, 3
    {
      ghost var c := View();
      var stmts := s.stmts;
      BlockResult(c, s, own);
      BlockFits(s, c, own);
      SeqStart(c);
      hide Compiled, CompiledSeq, Ready, Fits, FitsSeq;
      var mark, outer := nextReg, locals;
      assert stmts[..0] == [];
      for n := 0 to |stmts|
        invariant View() == CompiledSeq(c, stmts[..n])
      {
        CompileNext(stmts, n, c, own);
      }
      assert stmts[..|stmts|] == stmts;
      locals := outer;
      FreeRegsTo(mark);
    }

    /** One more statement of a block. */
    method CompileNext(stmts: seq<Stmt>, n: nat, ghost c: Comp, ghost own: bool)
      requires n < |stmts| && Ready(c, own) && FitsSeq(stmts, c.loops != [], own) && |c.locals.names| == |c.locals.regs|
      requires View() == CompiledSeq(c, stmts[..n])
      modifies this
      ensures View() == CompiledSeq(c, stmts[..n + 1])
      decreases stmts, 5
    {
      SeqReady(c, stmts[..n], own);
      FitsAt(stmts, n, c.loops != [], own);
      if stmts[n].FixContinue? {
        OwnLoop(c, own);
        SeqFix(c, stmts, n);
        hide CompiledSeq, Ready, FitsSeq, PatchAll, AddSites, CtxOf;
        PatchBreaks(loops[|loops| - 1].continueLocales);
      } else {
        SeqNext(c, stmts, n, own);
        hide Compiled, CompiledSeq, Ready, Fits, FitsSeq;
        CompileStatement(stmts[n], false);
      }
    }
  }

  lemma {:induction false} BlockFits(s: Stmt, c: Comp, own: bool)
    requires Ready(c, own) && s.Block? && Fits(s, c.loops != [], own)
    ensures FitsSeq(s.stmts, c.loops != [], own) && Ready(c, false)
  {
  }

  lemma {:induction false} WhileFits(s: Stmt, inLoop: bool, own: bool)
    requires s.While? && Fits(s, inLoop, own)
    ensures Fits(s.body, true, true)
  {
  }

  lemma {:induction false} CatchFits(s: Stmt, inLoop: bool, own: bool)
    requires s.Catch? && Fits(s, inLoop, own)
    ensures Fits(s.body, inLoop, false) && (s.handler.Some? ==> s.binds.Some? && Fits(s.handler.value, inLoop, false))
  {
  }

  lemma {:induction false} OwnLoop(c: Comp, own: bool)
    requires Ready(c, own) && own
    ensures c.loops != [] && Ready(c, true)
  {
  }

  /** Every statement of a block fits; one that fixes `continue` stands in a loop's own block. */
  lemma {:induction false} FitsAt(ss: seq<Stmt>, n: nat, inLoop: bool, own: bool)
    requires FitsSeq(ss, inLoop, own) && n < |ss|
    ensures !ss[n].FixContinue? ==> Fits(ss[n], inLoop, false)
    ensures ss[n].FixContinue? ==> own && FitsSeq(ss[..n], inLoop, false)
    decreases ss
  {
    var m := |ss| - 1;
    if n < m {
      if ss[m].FixContinue? {
        assert ss[..m][n] == ss[n];
        FitsAt(ss[..m], n, inLoop, false);
      } else {
        FitsAt(ss[..m], n, inLoop, own);
        assert ss[..m][..n] == ss[..n];
      }
    }
  }

  lemma {:induction false} FixNever(s: Stmt, inLoop: bool, own: bool)
    requires s.FixContinue?
    ensures !Fits(s, inLoop, own)
  {
  }

  lemma {:induction false} IfFits(s: Stmt, inLoop: bool, own: bool)
    requires s.If? && Fits(s, inLoop, own)
    ensures Fits(s.thenB, inLoop, false) && (s.elseB.Some? ==> Fits(s.elseB.value, inLoop, false))
  {
  }

  lemma {:induction false} ReadyOk(c: Comp, own: bool)
    requires Ready(c, own)
    ensures c.Ok() && Ready(c, false) && |c.locals.names| == |c.locals.regs|
  {
  }

  /** The state of a scope with the first `n` parameters declared. */
  function Declared(params: seq<string>, n: nat): Comp
    requires n <= |params|
  {
    Comp([], Scope(params[..n], seq(n, i requires 0 <= i => i as Reg)), n, n, [], 0)
  }

  /** Compiles a function: its code, and a frame size no register of it exceeds. */
  method CompileFunction(params: seq<string>, body: Stmt) returns (code: seq<Instr>, numRegisters: nat)
    requires Fits(body, false, false)
    ensures code == FunctionCode(params, body)
    ensures AllBelow(code, numRegisters) && |params| <= numRegisters
  {
    hide Fits, Compiled, StmtCode, StmtPeak, After, Frame.AllBelow, FunctionCode;
    var scope := new FunctionScope();
    for n := 0 to |params|
      invariant fresh(scope) && scope.View() == Declared(params, n)
    {
      var reg := scope.AllocReg();
      scope.locals := scope.locals.Declare(params[n], reg);
    }
    ghost var c := scope.View();
    EntryReady(params);
    scope.CompileStatement(body, false);
    var nilReg := scope.AllocReg();
    var _ := scope.Emit(LoadNil(nilReg));
    var _ := scope.Emit(Ret(nilReg));
    code, numRegisters := scope.code, scope.maxReg;
    FunctionResult(params, body);
  }

  lemma {:induction false} EntryReady(params: seq<string>)
    ensures var c := Declared(params, |params|); Ready(c, false) && CtxOf(c) == Entry(params) && |c.locals.names| == |c.locals.regs|
  {
    assert params[..|params|] == params;
  }

  lemma {:induction false} FunctionResult(params: seq<string>, body: Stmt)
    ensures
      var c := Declared(params, |params|);
      && |c.locals.names| == |c.locals.regs|
      && var d := Compiled(c, body);
         var f := d.Alloc().Put(LoadNil(d.nextReg)).Put(Ret(d.nextReg));
         f.code == FunctionCode(params, body) && AllBelow(f.code, f.maxReg) && |params| <= f.maxReg
  {
    EntryReady(params);
    var x := Entry(params);
    hide StmtCode, StmtPeak, After, AllBelow;
    StmtBelow(body, x, 0);
    var d := Compiled(Declared(params, |params|), body);
    var code, nil := StmtCode(body, x, 0), d.nextReg;
    assert [] + code == code;
    ReturnBelow(nil);
    BelowJoin(code, StmtPeak(body, x), [LoadNil(nil), Ret(nil)], nil + 1, Max(d.maxReg, nil + 1));
    assert code + [LoadNil(nil)] + [Ret(nil)] == code + [LoadNil(nil), Ret(nil)];
  }

  lemma {:induction false} ReturnBelow(nil: Reg)
    ensures AllBelow([LoadNil(nil), Ret(nil)], nil + 1)
  {
  }
}
