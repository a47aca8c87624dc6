/** Where compiled code departs from the language: declarations that are the whole of a branch, and `catch` bodies that change their variable. */
module CompilerGaps {
  import opened Shapes
  import opened Bytecode
  import opened Values
  import opened Core
  import opened Machine
  import opened CodeGen
  import opened CodeLayout
  import opened ExprSim
  import opened StmtSim
  import opened ProgramSim
  import opened Functions
  import opened Fidelity
  import opened Locals

  // Declarations for branches.

  /** How many locals the compiler takes a statement to leave in its scope. */
  function Declarations(s: Stmt): (n: nat)
    ensures n > 0 <==> Declares(s)
  {
    match s
    case VarDecl(_, _) => 1
    case Catch(_, _, binds) => if binds.Some? then 1 else 0
    case If(_, t, f) => Declarations(t) + if f.Some? then Declarations(f.value) else 0
    case _ => 0
  }

  lemma {:induction false} ScopeGrows(s: Stmt, x: Ctx, own: bool)
    requires Fits(s, x.loop.InLoop?, own)
    ensures |After(s, x).env.names| == |x.env.names| + Declarations(s)
    decreases s
  {
    match s
    case If(_, t, f) =>
      ScopeGrows(t, x, false);
      if f.Some? { ScopeGrows(f.value, After(t, x), false); }
    case While(_, _) => SameScope(s, x, x.loop.InLoop?, own);
    case Catch(_, _, _) => CatchScope(s, x, own);
    case _ =>
  }

  /** A statement that ends normally leaves at most those locals. */
  lemma {:induction false} LocalsGrow(ops: Ops, s: Stmt, st: State, turns: nat, inLoop: bool, own: bool)
    requires st.Valid() && Fits(s, inLoop, own) && Exec(ops, AsWritten, s, st, turns).how.Normal?
    ensures |Exec(ops, AsWritten, s, st, turns).st.names| <= |st.names| + Declarations(s)
    decreases s
  {
    match s
    case If(c, t, f) =>
      var r := Eval(ops, c, st);
      if !Falsey(r.v) { LocalsGrow(ops, t, st, turns, inLoop, false); }
      else if f.Some? { LocalsGrow(ops, f.value, st, turns, inLoop, false); }
    case While(_, _) => NoNewLocals(ops, AsWritten, s, st, turns, inLoop, own);
    case Catch(_, _, _) => CatchLocals(ops, s, st, turns, inLoop, own);
    case _ =>
  }

  lemma {:induction false} CatchLocals(ops: Ops, s: Stmt, st: State, turns: nat, inLoop: bool, own: bool)
    requires s.Catch? && st.Valid() && Fits(s, inLoop, own)
    ensures |Exec(ops, AsWritten, s, st, turns).st.names| <= |st.names| + Declarations(s)
  {
    var st0 := CatchState(s, st);
    NoNewLocals(ops, AsWritten, s.body, st0, turns, inLoop, false);
    var after := AfterCatchBody(ops, s, st, turns);
    if s.handler.Some? { NoNewLocals(ops, AsWritten, s.handler.value, after.st, turns, inLoop, false); }
  }

  /** The branch that was chosen makes all the declarations of its `if`, if it ends at all. */
  ghost predicate AllDeclared(ops: Ops, s: Stmt, st: State, turns: nat)
    requires s.If? && st.Valid()
  {
    var r := Eval(ops, s.cond, st);
    r.Ok? ==>
      if Falsey(r.v) then !Declares(s.thenB)
      else Exec(ops, AsWritten, s.thenB, st, turns).how.Normal? ==> s.elseB.None? || !Declares(s.elseB.value)
  }

  /** The run of the branch that was chosen is faithful. */
  ghost predicate BranchFaithful(ops: Ops, s: Stmt, st: State, turns: nat)
    requires s.If? && st.Valid()
  {
    var r := Eval(ops, s.cond, st);
    r.Ok? ==> if !Falsey(r.v) then Faithful(ops, s.thenB, st, turns) else s.elseB.Some? ==> Faithful(ops, s.elseB.value, st, turns)
  }

  /** After `k` steps the code has ended as the language has it, with the locals the compiler
      takes to be visible. */
  ghost predicate EndsIn(ops: Ops, code: seq<Instr>, s: Stmt, x: Ctx, pos: nat, st: State, c: Config, turns: nat, k: nat, c1: Config)
    requires st.Valid() && |x.env.names| == |x.env.regs|
  {
    Ends(ops, code, c, k, c1, Exec(ops, AsWritten, s, st, turns), x, After(s, x), pos + |StmtCode(s, x, pos)|, turns)
  }

  ghost predicate EndsWell(ops: Ops, code: seq<Instr>, s: Stmt, x: Ctx, pos: nat, st: State, c: Config, turns: nat)
    requires st.Valid() && |x.env.names| == |x.env.regs|
  {
    exists k: nat, c1 :: EndsIn(ops, code, s, x, pos, st, c, turns, k, c1)
  }

  /** An `if` that ends normally leaves the state its compiler goes on from exactly when the
      branch that ran is the one that declares; and if it ends in another way, by an error say,
      that is enough, too. */
  lemma {:induction false} BranchExactly(ops: Ops, code: seq<Instr>, s: Stmt, x: Ctx, pos: nat, st: State, c: Config, own: bool, turns: nat)
    requires s.If? && Starts(code, s, x, pos, st, c, own) && st.Valid() && |x.env.names| == |x.env.regs| && BranchFaithful(ops, s, st, turns)
    ensures AllDeclared(ops, s, st, turns) ==> EndsWell(ops, code, s, x, pos, st, c, turns)
    ensures Exec(ops, AsWritten, s, st, turns).how.Normal? && EndsWell(ops, code, s, x, pos, st, c, turns) ==> AllDeclared(ops, s, st, turns)
  {
    hide *;
    if AllDeclared(ops, s, st, turns) {
      DeclaredIsFaithful(ops, s, st, turns);
      var c1, k := SimStmt(ops, code, s, x, pos, st, c, own, turns);
      EndsIsWell(ops, code, s, x, pos, st, c, turns, k, c1);
    } else if Exec(ops, AsWritten, s, st, turns).how.Normal? && EndsWell(ops, code, s, x, pos, st, c, turns) {
      StartsParts(code, s, x, pos, st, c, own);
      ScopeGrows(s, x, own);
      UndeclaredIsShort(ops, s, st, turns, x.loop.InLoop?, own);
      WellIsLong(ops, code, s, x, pos, st, c, turns);
    }
  }

  lemma {:induction false} DeclaredIsFaithful(ops: Ops, s: Stmt, st: State, turns: nat)
    requires s.If? && st.Valid() && AllDeclared(ops, s, st, turns) && BranchFaithful(ops, s, st, turns)
    ensures Faithful(ops, s, st, turns)
  {
  }

  lemma {:induction false} EndsIsWell(ops: Ops, code: seq<Instr>, s: Stmt, x: Ctx, pos: nat, st: State, c: Config, turns: nat, k: nat, c1: Config)
    requires st.Valid() && |x.env.names| == |x.env.regs|
    requires Ends(ops, code, c, k, c1, Exec(ops, AsWritten, s, st, turns), x, After(s, x), pos + |StmtCode(s, x, pos)|, turns)
    ensures EndsWell(ops, code, s, x, pos, st, c, turns)
  {
    assert EndsIn(ops, code, s, x, pos, st, c, turns, k, c1);
  }

  lemma {:induction false} WellIsLong(ops: Ops, code: seq<Instr>, s: Stmt, x: Ctx, pos: nat, st: State, c: Config, turns: nat)
    requires Ready(x.env, x.next, st, c) && st.Valid() && |x.env.names| == |x.env.regs| && Exec(ops, AsWritten, s, st, turns).how.Normal?
    requires EndsWell(ops, code, s, x, pos, st, c, turns)
    ensures |Exec(ops, AsWritten, s, st, turns).st.names| - |st.names| == |After(s, x).env.names| - |x.env.names|
  {
    var k: nat, c1 :| EndsIn(ops, code, s, x, pos, st, c, turns, k, c1);
    hide Exec, After, StmtCode, Steps;
  }

  /** Without all declarations, fewer locals are left than the compiler takes to be visible. */
  lemma {:induction false} UndeclaredIsShort(ops: Ops, s: Stmt, st: State, turns: nat, inLoop: bool, own: bool)
    requires s.If? && st.Valid() && Fits(s, inLoop, own) && Exec(ops, AsWritten, s, st, turns).how.Normal?
    requires !AllDeclared(ops, s, st, turns)
    ensures |Exec(ops, AsWritten, s, st, turns).st.names| < |st.names| + Declarations(s)
  {
    var r := Eval(ops, s.cond, st);
    if !Falsey(r.v) { LocalsGrow(ops, s.thenB, st, turns, inLoop, false); }
    else if s.elseB.Some? { LocalsGrow(ops, s.elseB.value, st, turns, inLoop, false); }
  }

  /** `def f(c) { if c var x = 1 ; return x }` */
  const Branch := If(Var("c"), VarDecl("x", Lit(Num(1))), None)
  const Last := Stmt.Return(Var("x"))
  const Unbraced := Block([Branch, Last])

  const UnbracedCode := [JmpIfFalse(0, 1), LoadConst(1, Num(1)), Ret(1), LoadNil(1), Ret(1)]

  lemma {:induction false} FindOne(a: string, name: string)
    ensures Find([a], name) == if a == name then 0 else -1
  {
    assert [a][..0] == [];
  }

  lemma {:induction false} BranchCompiles(x: Ctx)
    requires x == Ctx(Scope(["c"], [0]), 1, NoLoop)
    ensures StmtCode(Branch, x, 0) == [JmpIfFalse(0, 1), LoadConst(1, Num(1))]
    ensures After(Branch, x) == Ctx(Scope(["c", "x"], [0, 1]), 2, NoLoop)
  {
    FindOne("c", "c");
    IfCode(Branch, x, 0);
    assert ExprCode(Var("c"), x.env, 1) == [] && ExprReg(Var("c"), x.env, 1) == 0;
    assert ExprCode(Lit(Num(1)), x.env, 1) == [LoadConst(1, Num(1))];
    assert StmtCode(VarDecl("x", Lit(Num(1))), x, 1) == [LoadConst(1, Num(1))];
  }

  lemma {:induction false} LastCompiles(y: Ctx)
    requires y == Ctx(Scope(["c", "x"], [0, 1]), 2, NoLoop)
    ensures StmtCode(Last, y, 2) == [Ret(1)]
  {
    assert Find(["c", "x"], "x") == 1;
    assert ExprCode(Var("x"), y.env, 2) == [] && ExprReg(Var("x"), y.env, 2) == 1;
  }

  lemma {:induction false} UnbracedCompiles()
    ensures FunctionCode(["c"], Unbraced) == UnbracedCode
  {
    var x, ss := Entry(["c"]), [Branch, Last];
    assert x.env.regs == [0];
    assert ss[..1] == [Branch] && [Branch][..0] == [];
    assert FunctionCode(["c"], Unbraced) == StmtCode(Unbraced, x, 0) + [LoadNil(After(Unbraced, x).next), Ret(After(Unbraced, x).next)];
    hide *;
    Nothing(x);
    BranchCompiles(x);
    LastCompiles(After(Branch, x));
    SeqCodeSteps(ss, x, 0);
    SeqCodeSteps([Branch], x, 0);
    BlockCode(Unbraced, x, 0);
  }

  lemma {:induction false} Nothing(x: Ctx)
    requires |x.env.names| == |x.env.regs|
    ensures SeqCode([], x, 0) == [] && AfterSeq([], x) == x && AfterSeq([Branch], x) == After(Branch, x) && After(Unbraced, x) == x
  {
    assert [Branch][..0] == [];
    hide SeqCode;
    assert SeqCode([], x, 0) == [] by { NoCode(x); }
  }

  lemma {:induction false} NoCode(x: Ctx)
    requires |x.env.names| == |x.env.regs|
    ensures SeqCode([], x, 0) == []
  {
  }

  lemma {:induction false} UnbracedRaises(ops: Ops, st: State)
    requires st == State(["c"], [Nil], map[], [])
    ensures Exec(ops, AsWritten, Unbraced, st, 0).how == Raised(Undefined)
  {
    var ss := [Branch, Last];
    assert ss[..1] == [Branch] && [Branch][..0] == [];
    FindOne("c", "c");
    FindOne("c", "x");
    assert Eval(ops, Var("c"), st) == Ok(Nil);
    assert Exec(ops, AsWritten, Branch, st, 0) == Ended(Normal, st);
    assert Exec(ops, AsWritten, Last, st, 0) == Raises(Undefined, st);
    assert ExecSeq(ops, AsWritten, [], st, 0) == Ended(Normal, st);
    assert ExecSeq(ops, AsWritten, [Branch], st, 0) == Ended(Normal, st);
    assert ExecSeq(ops, AsWritten, ss, st, 0) == Raises(Undefined, st);
  }

  /** The compiler takes the variable to be declared from there on, whether or not the branch
      ran: if it did not, the function returns whatever was in the register, where the source
      has no such variable. */
  lemma {:induction false} UnbracedGap(ops: Ops, garbage: Value)
    ensures
      var st := State(["c"], [Nil], map[], []);
      var c := Config(0, map[0 := Nil, 1 := garbage], [], map[], []);
      && Called(["c"], st, c)
      && Exec(ops, AsWritten, Unbraced, st, 0).how == Raised(Undefined)
      && Steps(ops, FunctionCode(["c"], Unbraced), Running(c), 2) == Halted(Returned(garbage), map[], [])
  {
    var st := State(["c"], [Nil], map[], []);
    var c := Config(0, map[0 := Nil, 1 := garbage], [], map[], []);
    UnbracedRaises(ops, st);
    UnbracedCompiles();
    assert Entry(["c"]).env.regs == [0];
    hide Exec, FunctionCode;
    var c1 := c.(pc := 2);
    assert Step(ops, UnbracedCode, Running(c)) == Running(c1);
    assert Step(ops, UnbracedCode, Running(c1)) == Halted(Returned(garbage), map[], []);
    StepsNone(ops, UnbracedCode, c);
    OneStep(ops, UnbracedCode, c, 0, c);
    OneStep(ops, UnbracedCode, c, 1, c1);
  }

  // `catch` bodies that change their variable.

  /** `catch { e = 1 } as e { echo 7 }` */
  const Changing := Catch(Block([Assign("e", Lit(Num(1)))]), Some(Block([Echo(Lit(Num(7)))])), Some("e"))

  lemma {:induction false} OneStatement(ops: Ops, rule: Rule, s: Stmt, st: State, turns: nat)
    requires st.Valid() && !s.FixContinue?
    ensures var r := Exec(ops, rule, s, st, turns); Exec(ops, rule, Block([s]), st, turns) == Ended(r.how, r.st.Leave(|st.names|))
  {
    hide Exec;
    assert [s][..0] == [];
    assert ExecSeq(ops, rule, [], st, turns) == Ended(Normal, st);
    assert ExecSeq(ops, rule, [s], st, turns) == Exec(ops, rule, s, st, turns);
    BlockIs(ops, rule, [s], st, turns);
  }

  lemma {:induction false} BlockIs(ops: Ops, rule: Rule, ss: seq<Stmt>, st: State, turns: nat)
    requires st.Valid()
    ensures var r := ExecSeq(ops, rule, ss, st, turns); Exec(ops, rule, Block(ss), st, turns) == Ended(r.how, r.st.Leave(|st.names|))
  {
    hide ExecSeq;
  }

  lemma {:induction false} ChangingRuns(ops: Ops, rule: Rule, turns: nat)
    requires ops.cmp(Neq, Num(1), Nil) == Ok(Bool(true))
    ensures
      var st := State([], [], map[], []);
      var r := Exec(ops, rule, Changing, st, turns);
      r.how == Normal && r.st.globals == map[] && r.st.output == if rule.AsWritten? then [] else [Num(7)]
  {
    var st0, st1 := State(["e"], [Nil], map[], []), State(["e"], [Num(1)], map[], []);
    FindOne("e", "e");
    assert Exec(ops, rule, Assign("e", Lit(Num(1))), st0, turns) == Ended(Normal, st1);
    assert Exec(ops, rule, Echo(Lit(Num(7))), st1, turns) == Ended(Normal, st1.(output := [Num(7)]));
    OneStatement(ops, rule, Assign("e", Lit(Num(1))), st0, turns);
    OneStatement(ops, rule, Echo(Lit(Num(7))), st1, turns);
    assert State([], [], map[], []).Declare("e", Nil) == st0;
    assert Exec(ops, rule, Changing.body, st0, turns) == Ended(Normal, st1);
    assert Exec(ops, rule, Changing.handler.value, st1, turns) == Ended(Normal, st1.(output := [Num(7)]));
    CatchIs(ops, rule, Changing, State([], [], map[], []), turns);
  }

  lemma {:induction false} CatchIs(ops: Ops, rule: Rule, s: Stmt, st: State, turns: nat)
    requires s.Catch? && s.handler.Some? && s.binds.Some? && st.Valid()
    ensures
      var st0 := st.Declare(s.binds.value, Nil);
      var r := Exec(ops, rule, s.body, st0, turns);
      var after := Caught(r, |st0.names|, true);
      Exec(ops, rule, s, st, turns) ==
        if after.how.Normal? then Answered(ops, rule, HandlerRuns(ops, rule, r, after.st.vals[|st.names|]), s.handler.value, after, turns) else after
  {
  }

  lemma {:induction false} ChangingFits()
    ensures Fits(Changing, false, false) && Braced(Changing)
  {
    assert [Assign("e", Lit(Num(1)))][..0] == [] && [Echo(Lit(Num(7)))][..0] == [];
  }

  /** Nothing raises, so by the language the handler never runs; the compiled function runs it,
      because the variable is not nil any more. */
  lemma {:induction false} CatchGap(ops: Ops)
    requires ops.cmp(Neq, Num(1), Nil) == Ok(Bool(true))
    ensures
      var st, c := State([], [], map[], []), Config(0, map[], [], map[], []);
      && Called([], st, c)
      && SourceEnds(ops, AsWritten, Changing, st, Halted(Returned(Nil), map[], []))
      && MachineEnds(ops, FunctionCode([], Changing), c, Halted(Returned(Nil), map[], [Num(7)]))
  {
    var st, c := State([], [], map[], []), Config(0, map[], [], map[], []);
    var h := Halted(Returned(Nil), map[], [Num(7)]);
    ChangingFits();
    hide Exec, Fits, FunctionCode, Braced;
    ChangingRuns(ops, AsWritten, 0);
    ChangingRuns(ops, AsEmitted, 0);
    assert Finishes(Exec(ops, AsWritten, Changing, st, 0), Halted(Returned(Nil), map[], []));
    assert Finishes(Exec(ops, AsEmitted, Changing, st, 0), h);
    forall turns: nat ensures Tells(ops, AsEmitted, Changing, st, turns) { BracedKeepsScope(ops, AsEmitted, Changing, st, turns); }
    CompiledFunctionAgrees(ops, AsEmitted, [], Changing, st, c, h);
  }
}
