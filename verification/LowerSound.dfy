/** Lowering preserves meaning: the lowered program ends as the program does, after the same dealings with the runtime and with the same variables. */
module LowerSound {
  import opened Shapes
  import opened Values
  import opened Surface
  import opened Lower
  import opened Erasure
  import opened LowerExprs
  import opened ExecFacts
  import opened LowerFor
  import opened CountLoop
  import opened Readings

  /** The programs the lowering is for: names as the lexer makes them, and the body of an `iter`
      in braces, as the grammar has it. */
  predicate FineStmt(s: Stmt)
    decreases s
  {
    match s
    case Expression(e) => FineExpr(e)
    case Echo(e) => FineExpr(e)
    case Var(name, e) => name.User? && FineExpr(e)
    case Block(ss) => forall i :: 0 <= i < |ss| ==> FineStmt(ss[i])
    case If(c, t, f) => FineExpr(c) && FineStmt(t) && (f.Some? ==> FineStmt(f.value))
    case While(c, body) => FineExpr(c) && FineStmt(body)
    case Break => true
    case Continue => true
    case FixContinue => false
    case Return(e) => FineExpr(e)
    case Raise(e) => FineExpr(e)
    case Catch(body, handler, binds) =>
      FineStmt(body) && (handler.Some? ==> FineStmt(handler.value)) && (binds.Some? ==> binds.value.User?)
    case For(key, value, iterable, body) =>
      (key.Some? ==> key.value.User?) && value.User? && FineExpr(iterable) && FineStmt(body)
    case Iter(init, test, steps, body) =>
      && (init.Some? ==> FineStmt(init.value)) && (test.Some? ==> FineExpr(test.value))
      && (forall i :: 0 <= i < |steps| ==> FineExpr(steps[i])) && FineStmt(body) && !Declares(body)
    case DoWhile(body, until) => FineStmt(body) && FineExpr(until)
  }

  // The simulation.

  lemma {:induction false} SimStmt(h: Host, s: Stmt, t: State, st: State, turns: nat)
    requires FineStmt(s) && Shows(t, st)
    ensures MatchesEnd(t, Exec(h, WrittenOut, s, st, turns), Exec(h, Meant, LowerStmt(s), t, turns))
    decreases turns, s, 5
  {
    match s
    case Expression(_) => SimSimple(h, s, t, st, turns);
    case Echo(_) => SimSimple(h, s, t, st, turns);
    case Var(_, _) => SimSimple(h, s, t, st, turns);
    case Return(_) => SimSimple(h, s, t, st, turns);
    case Raise(_) => SimSimple(h, s, t, st, turns);
    case Block(_) => SimBlock(h, s, t, st, turns);
    case If(_, _, _) => SimIf(h, s, t, st, turns);
    case While(_, _) => SimWhile(h, s, t, st, turns);
    case Catch(_, _, _) => SimCatch(h, s, t, st, turns);
    case For(_, _, _, _) => SimFor(h, s, t, st, turns);
    case Iter(_, _, _, _) => SimIter(h, s, t, st, turns);
    case DoWhile(_, _) => SimDo(h, s, t, st, turns);
    case Break =>
    case Continue =>
  }

  lemma {:induction false} SimpleLowered(s: Stmt)
    requires Simple(s) && FineStmt(s)
    ensures
      var l := LowerStmt(s);
      && Simple(l) && l.e == LowerExpr(s.e) && FineExpr(s.e) && (s.Var? ==> l.Var? && l.name == s.name && s.name.User?)
      && (l.Echo? <==> s.Echo?) && (l.Return? <==> s.Return?) && (l.Raise? <==> s.Raise?) && (l.Var? <==> s.Var?)
  {
    hide LowerExpr, FineExpr;
  }

  lemma {:induction false} SimSimple(h: Host, s: Stmt, t: State, st: State, turns: nat)
    requires FineStmt(s) && Shows(t, st) && Simple(s)
    ensures MatchesEnd(t, Exec(h, WrittenOut, s, st, turns), Exec(h, Meant, LowerStmt(s), t, turns))
  {
    hide Eval, LowerExpr, LowerStmt, Exec, FineExpr, FineStmt;
    var l := LowerStmt(s);
    SimpleLowered(s);
    SimpleIs(h, WrittenOut, s, st, turns);
    SimpleIs(h, Meant, l, t, turns);
    SimExpr(h, s.e, t, st);
    var d, d1 := Eval(h, WrittenOut, s.e, st), Eval(h, Meant, l.e, t);
    if d.res.Ok? && s.Var? { EraseSnoc(d1.st.locals, Binding(s.name, d.res.v)); }
  }

  lemma {:induction false} MatchesLeave(t: State, st: State, r: Ended, r1: Ended)
    requires Shows(t, st) && MatchesEnd(t, r, r1) && Grows(st.locals, r.st.locals) && Grows(t.locals, r1.st.locals)
    ensures MatchesEnd(t, Leave(r, |st.locals|), Leave(r1, |t.locals|))
  {
    EraseLeave(t.locals, r1.st.locals);
  }

  lemma {:induction false} SimWithin(h: Host, s: Stmt, t: State, st: State, turns: nat)
    requires FineStmt(s) && Shows(t, st)
    ensures MatchesEnd(t, Within(h, WrittenOut, s, st, turns), Within(h, Meant, LowerStmt(s), t, turns))
    decreases turns, s, 6
  {
    hide Exec, LowerStmt, FineStmt, Shows, Leave;
    SimStmt(h, s, t, st, turns);
    MatchesLeave(t, st, Exec(h, WrittenOut, s, st, turns), Exec(h, Meant, LowerStmt(s), t, turns));
  }

  lemma {:induction false} SimBlock(h: Host, s: Stmt, t: State, st: State, turns: nat)
    requires FineStmt(s) && Shows(t, st) && s.Block?
    ensures MatchesEnd(t, Exec(h, WrittenOut, s, st, turns), Exec(h, Meant, LowerStmt(s), t, turns))
    decreases turns, s, 4
  {
    SimSeq(h, s.stmts, t, st, turns);
    MatchesLeave(t, st, ExecSeq(h, WrittenOut, s.stmts, st, turns), ExecSeq(h, Meant, LowerStmts(s.stmts), t, turns));
    hide ExecSeq, LowerStmts, Shows, Leave;
  }

  lemma {:induction false} SimSeq(h: Host, ss: seq<Stmt>, t: State, st: State, turns: nat)
    requires (forall i :: 0 <= i < |ss| ==> FineStmt(ss[i])) && Shows(t, st)
    ensures MatchesEnd(t, ExecSeq(h, WrittenOut, ss, st, turns), ExecSeq(h, Meant, LowerStmts(ss), t, turns))
    decreases turns, ss, 0
  {
    if ss != [] {
      var n, ls := |ss| - 1, LowerStmts(ss);
      assert ls[..n] == LowerStmts(ss[..n]) && ls[n] == LowerStmt(ss[n]);
      assert !ss[n].FixContinue? && !ls[n].FixContinue?;
      SimSeq(h, ss[..n], t, st, turns);
      hide Exec, ExecSeq, LowerStmts, LowerStmt, Shows, FineStmt;
      SeqIs(h, WrittenOut, ss, st, turns);
      SeqIs(h, Meant, ls, t, turns);
      var r, r1 := ExecSeq(h, WrittenOut, ss[..n], st, turns), ExecSeq(h, Meant, ls[..n], t, turns);
      if r.how.Normal? {
        SimStmt(h, ss[n], r1.st, r.st, turns);
        MatchesEndFrom(t, r1.st, Exec(h, WrittenOut, ss[n], r.st, turns), Exec(h, Meant, ls[n], r1.st, turns));
      }
    }
  }

  lemma {:induction false} SimIf(h: Host, s: Stmt, t: State, st: State, turns: nat)
    requires FineStmt(s) && Shows(t, st) && s.If?
    ensures MatchesEnd(t, Exec(h, WrittenOut, s, st, turns), Exec(h, Meant, LowerStmt(s), t, turns))
    decreases turns, s, 4
  {
    var l := LowerStmt(s);
    assert l.If? && l.cond == LowerExpr(s.cond) && l.thenB == LowerStmt(s.thenB) && l.elseB.Some? == s.elseB.Some?;
    assert s.elseB.Some? ==> l.elseB.value == LowerStmt(s.elseB.value);
    assert FineExpr(s.cond) && FineStmt(s.thenB) && (s.elseB.Some? ==> FineStmt(s.elseB.value));
    hide Eval, LowerExpr, LowerStmt, Exec, Within, FineExpr, FineStmt, Shows;
    IfIs(h, WrittenOut, s, st, turns);
    IfIs(h, Meant, l, t, turns);
    SimExpr(h, s.cond, t, st);
    var d, d1 := Eval(h, WrittenOut, s.cond, st), Eval(h, Meant, l.cond, t);
    if d.res.Ok? {
      if !Falsey(d.res.v) {
        SimStmt(h, s.thenB, d1.st, d.st, turns);
        MatchesEndFrom(t, d1.st, Exec(h, WrittenOut, s.thenB, d.st, turns), Exec(h, Meant, l.thenB, d1.st, turns));
      } else if s.elseB.Some? {
        SimStmt(h, s.elseB.value, d1.st, d.st, turns);
        MatchesEndFrom(t, d1.st, Exec(h, WrittenOut, s.elseB.value, d.st, turns), Exec(h, Meant, l.elseB.value, d1.st, turns));
      }
    }
  }

  lemma {:induction false} WhileLowered(s: Stmt)
    requires s.While? && FineStmt(s)
    ensures LowerStmt(s) == While(LowerExpr(s.cond), LowerStmt(s.body)) && FineExpr(s.cond) && FineStmt(s.body)
  {
    hide LowerExpr, FineExpr;
  }

  lemma {:induction false} SimWhile(h: Host, s: Stmt, t: State, st: State, turns: nat)
    requires FineStmt(s) && Shows(t, st) && s.While?
    ensures MatchesEnd(t, Exec(h, WrittenOut, s, st, turns), Exec(h, Meant, LowerStmt(s), t, turns))
    decreases turns, s, 4
  {
    hide Eval, LowerExpr, LowerStmt, Exec, Within, FineExpr, FineStmt, Shows;
    var l := LowerStmt(s);
    WhileLowered(s);
    WhileIs(h, WrittenOut, s, st, turns);
    WhileIs(h, Meant, l, t, turns);
    if turns == 0 {
      KeepsSelf(t);
    } else {
      SimExpr(h, s.cond, t, st);
      var d, d1 := Eval(h, WrittenOut, s.cond, st), Eval(h, Meant, l.cond, t);
      if d.res.Ok? && !Falsey(d.res.v) {
        SimWithin(h, s.body, d1.st, d.st, turns - 1);
        var r, r1 := Within(h, WrittenOut, s.body, d.st, turns - 1), Within(h, Meant, l.body, d1.st, turns - 1);
        MatchesEndFrom(t, d1.st, r, r1);
        if GoesOn(r.how) {
          SimStmt(h, s, r1.st, r.st, turns - 1);
          MatchesEndFrom(t, r1.st, Exec(h, WrittenOut, s, r.st, turns - 1), Exec(h, Meant, l, r1.st, turns - 1));
        }
      }
    }
  }

  lemma {:induction false} KeepsSelf(t: State)
    ensures KeepsHidden(t.locals, t.locals)
  {
  }

  // `catch`.

  lemma {:induction false} BindMatches(name: Name, v: Value, t: State, st: State)
    requires Shows(t, st) && name.User?
    ensures Shows(Bind(t, name, v), Bind(st, name, v)) && KeepsHidden(t.locals, Bind(t, name, v).locals)
  {
    EraseSnoc(t.locals, Binding(name, v));
  }

  lemma {:induction false} CatchLowered(s: Stmt)
    requires s.Catch? && FineStmt(s)
    ensures LowerStmt(s) == Catch(LowerStmt(s.body), if s.handler.Some? then Some(LowerStmt(s.handler.value)) else None, s.binds)
    ensures FineStmt(s.body) && (s.handler.Some? ==> FineStmt(s.handler.value)) && (s.binds.Some? ==> s.binds.value.User?)
  {
  }

  lemma {:induction false} SimCatch(h: Host, s: Stmt, t: State, st: State, turns: nat)
    requires FineStmt(s) && Shows(t, st) && s.Catch?
    ensures MatchesEnd(t, Exec(h, WrittenOut, s, st, turns), Exec(h, Meant, LowerStmt(s), t, turns))
    decreases turns, s, 4
  {
    var l := LowerStmt(s);
    assert Exec(h, WrittenOut, s, st, turns) == Catching(h, WrittenOut, s, st, turns);
    CatchLowered(s);
    assert Exec(h, Meant, l, t, turns) == Catching(h, Meant, l, t, turns);
    hide Exec, Catching, Within, LowerStmt, FineStmt, Shows, Leave, Bind, KeepsHidden;
    CatchIs(h, WrittenOut, s, st, turns);
    CatchIs(h, Meant, l, t, turns);
    KeepsSelf(t);
    if s.binds.Some? { BindMatches(s.binds.value, Nil, t, st); }
    var st0, t0 := if s.binds.Some? then Bind(st, s.binds.value, Nil) else st, if s.binds.Some? then Bind(t, s.binds.value, Nil) else t;
    SimWithin(h, s.body, t0, st0, turns);
    var r, r1 := Within(h, WrittenOut, s.body, st0, turns), Within(h, Meant, l.body, t0, turns);
    MatchesEndFrom(t, t0, r, r1);
    if r.how.Raised? {
      CaughtMatches(t, st, r, r1);
      var q, q1 := Leave(r, |st.locals|).st, Leave(r1, |t.locals|).st;
      if s.binds.Some? {
        BindMatches(s.binds.value, r.how.err, q1, q);
        var b, b1 := Bind(q, s.binds.value, r.how.err), Bind(q1, s.binds.value, r.how.err);
        KeepsTwice(t.locals, q1.locals, b1.locals);
        if s.handler.Some? {
          SimWithin(h, s.handler.value, b1, b, turns);
          MatchesEndFrom(t, b1, Within(h, WrittenOut, s.handler.value, b, turns), Within(h, Meant, l.handler.value, b1, turns));
        }
      }
    }
  }

  lemma {:induction false} CaughtMatches(t: State, st: State, r: Ended, r1: Ended)
    requires Shows(t, st) && MatchesEnd(t, r, r1) && r.how.Raised? && |st.locals| <= |r.st.locals| && |t.locals| <= |r1.st.locals|
    ensures Shows(Leave(r1, |t.locals|).st, Leave(r, |st.locals|).st) && KeepsHidden(t.locals, Leave(r1, |t.locals|).st.locals)
  {
    EraseLeave(t.locals, r1.st.locals);
  }

  // `do`.

  predicate FineDo(s: Stmt) {
    s.DoWhile? && FineStmt(s.body) && FineExpr(s.until)
  }

  lemma {:induction false} DoLowered(s: Stmt)
    requires FineDo(s)
    ensures LowerStmt(s) == Block([LowerStmt(s.body), While(LowerExpr(s.until), LowerStmt(s.body))])
    ensures FineStmt(s.body) && FineExpr(s.until) && !LowerStmt(s.body).FixContinue?
  {
    LoweredNoFix(s.body);
  }

  lemma {:induction false} LoweredNoFix(s: Stmt)
    requires FineStmt(s)
    ensures !LowerStmt(s).FixContinue?
  {
    hide LowerExpr, FineExpr;
  }

  /** From the condition on, the copy of the body in the `while` does what the `do` does. */
  lemma {:induction false} SimDoRest(h: Host, s: Stmt, t: State, st: State, turns: nat)
    requires FineDo(s) && Shows(t, st)
    ensures MatchesEnd(t, DoRest(h, WrittenOut, s, st, turns), Exec(h, Meant, While(LowerExpr(s.until), LowerStmt(s.body)), t, turns))
    decreases turns, s, 2
  {
    hide Eval, Exec, Within, DoTurns, LowerStmt, LowerExpr, FineStmt, FineExpr, Shows;
    DoLowered(s);
    var l := While(LowerExpr(s.until), LowerStmt(s.body));
    WhileIs(h, Meant, l, t, turns);
    if turns == 0 {
      KeepsSelf(t);
    } else {
      SimExpr(h, s.until, t, st);
      var d, d1 := Eval(h, WrittenOut, s.until, st), Eval(h, Meant, l.cond, t);
      if d.res.Ok? && !Falsey(d.res.v) {
        DoIs(h, WrittenOut, s, d.st, turns - 1);
        SimWithin(h, s.body, d1.st, d.st, turns - 1);
        var r, r1 := Within(h, WrittenOut, s.body, d.st, turns - 1), Within(h, Meant, l.body, d1.st, turns - 1);
        MatchesEndFrom(t, d1.st, r, r1);
        if GoesOn(r.how) {
          SimDoRest(h, s, r1.st, r.st, turns - 1);
          MatchesEndFrom(t, r1.st, DoRest(h, WrittenOut, s, r.st, turns - 1), Exec(h, Meant, l, r1.st, turns - 1));
        }
      }
    }
  }

  lemma {:induction false} LoweredDeclares(s: Stmt)
    requires !Declares(s)
    ensures !Declares(LowerStmt(s)) && (LowerStmt(s).FixContinue? ==> s.FixContinue?)
    decreases s
  {
    hide LowerExpr;
    if s.If? {
      LoweredDeclares(s.thenB);
      if s.elseB.Some? { LoweredDeclares(s.elseB.value); }
    }
  }

  /** Lowered, a `do` loop runs its body once before the loop. */
  lemma {:induction false} DoBlockIs(h: Host, s: Stmt, t: State, turns: nat)
    requires FineDo(s)
    ensures
      var lb, l := LowerStmt(s.body), While(LowerExpr(s.until), LowerStmt(s.body));
      var r := Exec(h, Meant, lb, t, turns);
      && ExecSeq(h, Meant, [lb, l], t, turns) == (if r.how.Normal? then Exec(h, Meant, l, r.st, turns) else r)
      && Exec(h, Meant, LowerStmt(s), t, turns) == Leave(ExecSeq(h, Meant, [lb, l], t, turns), |t.locals|)
  {
    DoLowered(s);
    var lb, l := LowerStmt(s.body), While(LowerExpr(s.until), LowerStmt(s.body));
    assert Exec(h, Meant, Block([lb, l]), t, turns) == Leave(ExecSeq(h, Meant, [lb, l], t, turns), |t.locals|);
    hide Eval, Exec, ExecSeq, LowerStmt, LowerExpr, FineStmt, FineExpr, Leave;
    SeqTwo(h, Meant, lb, l, t, turns);
  }

  lemma {:induction false} SimDo(h: Host, s: Stmt, t: State, st: State, turns: nat)
    requires FineStmt(s) && Shows(t, st) && s.DoWhile?
    ensures MatchesEnd(t, Exec(h, WrittenOut, s, st, turns), Exec(h, Meant, LowerStmt(s), t, turns))
    decreases turns, s, 4
  {
    assert FineDo(s);
    var lb, l := LowerStmt(s.body), While(LowerExpr(s.until), LowerStmt(s.body));
    hide Eval, Exec, ExecSeq, DoTurns, DoRest, LowerStmt, LowerExpr, FineStmt, FineExpr, FineDo, Shows, Leave;
    DoLowered(s);
    DoBlockIs(h, s, t, turns);
    DoWrittenOutIs(h, s, st, turns);
    SimStmt(h, s.body, t, st, turns);
    var r, r1 := Exec(h, WrittenOut, s.body, st, turns), Exec(h, Meant, lb, t, turns);
    if r.how.Normal? {
      SimDoRest(h, s, r1.st, r.st, turns);
      MatchesEndFrom(t, r1.st, DoRest(h, WrittenOut, s, r.st, turns), Exec(h, Meant, l, r1.st, turns));
    }
    MatchesLeave(t, st, if r.how.Normal? then DoRest(h, WrittenOut, s, r.st, turns) else r, ExecSeq(h, Meant, [lb, l], t, turns));
  }

  // `iter`.

  /** Statements, and expressions to evaluate after them. */
  lemma {:induction false} StepsIs(h: Host, reading: Reading, ss: seq<Stmt>, es: seq<Expr>, st: State, turns: nat)
    ensures
      var b := ExecSeq(h, reading, ss, st, turns);
      var p := EvalAll(h, reading, es, b.st);
      ExecSeq(h, reading, ss + AsStmts(es), st, turns) ==
        if !b.how.Normal? then b
        else if p.stop.Some? then Failed(p.stop.value, p.st)
        else Ended(Normal, p.st)
    decreases |es|
  {
    if es == [] {
      assert ss + AsStmts(es) == ss;
    } else {
      var n := |es| - 1;
      var all := ss + AsStmts(es);
      assert all[..|all| - 1] == ss + AsStmts(es[..n]) && all[|all| - 1] == Expression(es[n]);
      hide ExecSeq, EvalAll, Eval;
      StepsIs(h, reading, ss, es[..n], st, turns);
      SeqIs(h, reading, all, st, turns);
      var b := ExecSeq(h, reading, ss, st, turns);
      AllSteps(h, reading, es, b.st);
      if b.how.Normal? {
        SimpleIs(h, reading, Expression(es[n]), EvalAll(h, reading, es[..n], b.st).st, turns);
      }
    }
  }

  /** A turn of the lowered loop: the body, whose `continue` goes on to the steps, in one scope. */
  lemma {:induction false} IterBodyRuns(h: Host, reading: Reading, steps: seq<Expr>, body: Stmt, st: State, turns: nat)
    requires !body.FixContinue?
    ensures
      var b := Exec(h, reading, body, st, turns);
      var p := EvalAll(h, reading, steps, b.st);
      Within(h, reading, IterBody(steps, body), st, turns) ==
        Leave(if !GoesOn(b.how) then b
              else if p.stop.Some? then Failed(p.stop.value, p.st)
              else Ended(Normal, p.st), |st.locals|)
  {
    var ss := [body, FixContinue];
    assert Exec(h, reading, IterBody(steps, body), st, turns) == Leave(ExecSeq(h, reading, ss + AsStmts(steps), st, turns), |st.locals|);
    assert ss[..1] == [body] && [body][..0] == [];
    NoNewLocal(h, reading, IterBody(steps, body), st, turns);
    hide Exec, Within, EvalAll, Leave;
    SeqIs(h, reading, [body], st, turns);
    SeqIs(h, reading, ss, st, turns);
    assert ExecSeq(h, reading, [], st, turns) == Ended(Normal, st);
    StepsIs(h, reading, ss, steps, st, turns);
    hide ExecSeq;
  }

  /** The same with a body in braces. */
  lemma {:induction false} IterBodyIs(h: Host, reading: Reading, steps: seq<Expr>, body: Stmt, st: State, turns: nat)
    requires !body.FixContinue? && !Declares(body)
    ensures
      var b := Within(h, reading, body, st, turns);
      var p := EvalAll(h, reading, steps, b.st);
      Within(h, reading, IterBody(steps, body), st, turns) ==
        if !GoesOn(b.how) then b
        else if p.stop.Some? then Failed(p.stop.value, p.st)
        else Ended(Normal, p.st)
  {
    NoNewLocal(h, reading, body, st, turns);
    IterBodyRuns(h, reading, steps, body, st, turns);
    hide Exec, Within, EvalAll;
    var b := Exec(h, reading, body, st, turns);
    var p := EvalAll(h, reading, steps, b.st);
    LeaveNothing(if !GoesOn(b.how) then b else if p.stop.Some? then Failed(p.stop.value, p.st) else Ended(Normal, p.st), st);
  }

  function LoweredTest(s: Stmt): Expr
    requires s.Iter?
  {
    if s.test.Some? then LowerExpr(s.test.value) else Lit(Bool(true))
  }

  function LoweredIter(s: Stmt): Stmt
    requires s.Iter?
  {
    While(LoweredTest(s), IterBody(LowerAll(s.steps), LowerStmt(s.body)))
  }

  lemma {:induction false} IterParts(s: Stmt)
    requires s.Iter? && FineStmt(s)
    ensures FineStmt(s.body) && !Declares(s.body) && (s.init.Some? ==> FineStmt(s.init.value)) && (s.test.Some? ==> FineExpr(s.test.value))
    ensures forall i :: 0 <= i < |s.steps| ==> FineExpr(s.steps[i])
    ensures !Declares(LowerStmt(s.body)) && !LowerStmt(s.body).FixContinue?
    ensures LowerStmt(s) == Block(if s.init.Some? then [LowerStmt(s.init.value), LoweredIter(s)] else [LoweredIter(s)])
    ensures s.init.Some? ==> !LowerStmt(s.init.value).FixContinue?
  {
    LoweredDeclares(s.body);
    hide LowerExpr, LowerAll, FineExpr;
  }

  lemma {:induction false} SimTest(h: Host, s: Stmt, t: State, st: State)
    requires s.Iter? && (s.test.Some? ==> FineExpr(s.test.value)) && Shows(t, st)
    ensures
      var d := if s.test.None? then Did(Ok(Bool(true)), st) else Eval(h, WrittenOut, s.test.value, st);
      Matches(t, d, Eval(h, Meant, LoweredTest(s), t))
  {
    if s.test.Some? { SimExpr(h, s.test.value, t, st); }
  }

  lemma {:induction false} SimIterTurns(h: Host, s: Stmt, t: State, st: State, turns: nat)
    requires FineStmt(s) && Shows(t, st) && s.Iter?
    ensures MatchesEnd(t, IterTurns(h, WrittenOut, s, st, turns), Exec(h, Meant, LoweredIter(s), t, turns))
    decreases turns, s, 2
  {
    hide Eval, EvalAll, Exec, Within, IterTurns, LowerStmt, LowerExpr, LowerAll, LoweredTest, FineStmt, FineExpr, Shows, IterBody, Declares;
    IterParts(s);
    var l := LoweredIter(s);
    IterIs(h, WrittenOut, s, st, turns);
    WhileIs(h, Meant, l, t, turns);
    if turns == 0 {
      KeepsSelf(t);
    } else {
      SimTest(h, s, t, st);
      var d, d1 := if s.test.None? then Did(Ok(Bool(true)), st) else Eval(h, WrittenOut, s.test.value, st), Eval(h, Meant, l.cond, t);
      if d.res.Ok? && !Falsey(d.res.v) {
        IterBodyIs(h, Meant, LowerAll(s.steps), LowerStmt(s.body), d1.st, turns - 1);
        SimWithin(h, s.body, d1.st, d.st, turns - 1);
        var r, r1 := Within(h, WrittenOut, s.body, d.st, turns - 1), Within(h, Meant, LowerStmt(s.body), d1.st, turns - 1);
        MatchesEndFrom(t, d1.st, r, r1);
        if GoesOn(r.how) {
          SimSteps(h, s, t, r1.st, r.st);
          var p, p1 := EvalAll(h, WrittenOut, s.steps, r.st), EvalAll(h, Meant, LowerAll(s.steps), r1.st);
          if p.stop.None? {
            SimIterTurns(h, s, p1.st, p.st, turns - 1);
            MatchesEndFrom(t, p1.st, IterTurns(h, WrittenOut, s, p.st, turns - 1), Exec(h, Meant, l, p1.st, turns - 1));
          }
        }
      }
    }
  }

  lemma {:induction false} SimSteps(h: Host, s: Stmt, t: State, t1: State, st: State)
    requires s.Iter? && (forall i :: 0 <= i < |s.steps| ==> FineExpr(s.steps[i])) && Shows(t1, st) && KeepsHidden(t.locals, t1.locals)
    ensures MatchesAll(t, EvalAll(h, WrittenOut, s.steps, st), EvalAll(h, Meant, LowerAll(s.steps), t1))
  {
    SimAll(h, s.steps, t1, st);
    var p, p1 := EvalAll(h, WrittenOut, s.steps, st), EvalAll(h, Meant, LowerAll(s.steps), t1);
    if p.stop != Some(Wrong) { KeepsTwice(t.locals, t1.locals, p1.st.locals); }
  }

  lemma {:induction false} SimIter(h: Host, s: Stmt, t: State, st: State, turns: nat)
    requires FineStmt(s) && Shows(t, st) && s.Iter?
    ensures MatchesEnd(t, Exec(h, WrittenOut, s, st, turns), Exec(h, Meant, LowerStmt(s), t, turns))
    decreases turns, s, 4
  {
    IterParts(s);
    var l := LoweredIter(s);
    var ss := if s.init.Some? then [LowerStmt(s.init.value), l] else [l];
    var i := if s.init.None? then Ended(Normal, st) else Exec(h, WrittenOut, s.init.value, st, turns);
    var r := if i.how.Normal? then IterTurns(h, WrittenOut, s, i.st, turns) else i;
    assert Exec(h, WrittenOut, s, st, turns) == Leave(r, |st.locals|);
    assert Exec(h, Meant, Block(ss), t, turns) == Leave(ExecSeq(h, Meant, ss, t, turns), |t.locals|);
    hide Exec, IterTurns, LowerStmt, FineStmt, Shows, Leave, ExecSeq, LoweredIter;
    KeepsSelf(t);
    SeqOne(h, Meant, l, t, turns);
    var t1 := t;
    if s.init.Some? {
      SeqTwo(h, Meant, LowerStmt(s.init.value), l, t, turns);
      SimStmt(h, s.init.value, t, st, turns);
      t1 := Exec(h, Meant, LowerStmt(s.init.value), t, turns).st;
    }
    if i.how.Normal? {
      SimIterTurns(h, s, t1, i.st, turns);
      MatchesEndFrom(t, t1, r, Exec(h, Meant, l, t1, turns));
    }
    MatchesLeave(t, st, r, ExecSeq(h, Meant, ss, t, turns));
  }

  // `for`.

  lemma {:induction false} ForParts(s: Stmt)
    requires s.For? && FineStmt(s)
    ensures NamesFine(s) && FineExpr(s.iterable) && FineStmt(s.body) && !LowerStmt(s.body).FixContinue?
    ensures LowerStmt(s) == ForLoop(s.key, s.value, LowerExpr(s.iterable), LowerStmt(s.body))
  {
    LoweredNoFix(s.body);
    hide LowerExpr, FineExpr, ForLoop;
  }

  /** A turn of the lowered loop: nothing left to fetch, or the body. */
  lemma {:induction false} ForBodyIs(h: Host, s: Stmt, it: Value, k: Value, t0: State, n: nat, t: State, st: State, turns: nat)
    requires NamesFine(s) && Scaffold(t, n, s, it, k) && Shows(t, st) && KeepsHidden(t0.locals, t.locals) && |t0.locals| == n
    requires !LowerStmt(s.body).FixContinue?
    ensures
      var b := Started(Fetch(h, Keyed(s), it, Nil, t));
      Within(h, Meant, ForBody(KeyOf(s.key), s.value, LowerStmt(s.body)), t, turns) == if b.how.Normal? then Within(h, Meant, LowerStmt(s.body), b.st, turns) else b
  {
    var body := LowerStmt(s.body);
    hide LowerStmt, Fetch, Shows, Scaffold, KeepsHidden;
    var kn := KeyOf(s.key);
    var ss := [Advance(kn), Stop(kn), FetchTo(kn, s.value), body];
    assert Exec(h, Meant, ForBody(kn, s.value, body), t, turns) == Leave(ExecSeq(h, Meant, ss, t, turns), |t.locals|);
    NoNewLocal(h, Meant, ForBody(kn, s.value, body), t, turns);
    StartIs(h, s, it, k, t0, n, t, st, body, turns);
    var f := Fetch(h, Keyed(s), it, Nil, t);
    SameLength(t, f.st);
    hide Exec, ExecSeq;
    StartedLeaves(t, f);
  }

  lemma {:induction false} StartedLeaves(t: State, f: Fetched)
    requires SameNames(t.locals, f.st.locals)
    ensures |t.locals| <= |Started(f).st.locals| && Leave(Started(f), |t.locals|) == Started(f) && Started(f).st == f.st
  {
  }

  /** What a `for` loop over anything but a written-out range becomes, after its variables. */
  function LoweredFor(s: Stmt): Stmt
    requires s.For?
  {
    While(Lit(Bool(true)), ForBody(KeyOf(s.key), s.value, LowerStmt(s.body)))
  }

  lemma {:induction false} LoweredForIs(h: Host, s: Stmt, it: Value, k: Value, t0: State, n: nat, t: State, st: State, turns: nat)
    requires NamesFine(s) && Scaffold(t, n, s, it, k) && Shows(t, st) && KeepsHidden(t0.locals, t.locals) && |t0.locals| == n
    requires !LowerStmt(s.body).FixContinue? && turns > 0
    ensures
      var b := Started(Fetch(h, Keyed(s), it, Nil, t));
      var r := if b.how.Normal? then Within(h, Meant, LowerStmt(s.body), b.st, turns - 1) else b;
      Exec(h, Meant, LoweredFor(s), t, turns) == if GoesOn(r.how) then Exec(h, Meant, LoweredFor(s), r.st, turns - 1) else Left(r)
  {
    assert Eval(h, Meant, Lit(Bool(true)), t) == Did(Ok(Bool(true)), t);
    hide Eval, Exec, Within, Fetch, LowerStmt, Shows, Declares, ForBody, Scaffold, KeepsHidden;
    WhileIs(h, Meant, LoweredFor(s), t, turns);
    ForBodyIs(h, s, it, k, t0, n, t, st, turns - 1);
  }

  lemma {:induction false} LoweredForEnds(h: Host, s: Stmt, t: State)
    requires s.For?
    ensures Exec(h, Meant, LoweredFor(s), t, 0) == Ended(OutOfTurns, t)
  {
  }

  lemma {:induction false} SimForTurns(h: Host, s: Stmt, it: Value, k: Value, t0: State, n: nat, t: State, st: State, turns: nat)
    requires FineStmt(s) && s.For? && !Counts(s)
    requires Scaffold(t, n, s, it, k) && Shows(t, st) && KeepsHidden(t0.locals, t.locals) && |t0.locals| == n
    ensures MatchesEnd(t0, ForTurns(h, WrittenOut, s, it, k, st, turns), Exec(h, Meant, LoweredFor(s), t, turns))
    decreases turns, s, 2
  {
    hide Eval, Exec, Within, ForTurns, Fetch, LowerStmt, LowerExpr, FineStmt, FineExpr, Shows, Declares, LoweredFor, Scaffold, KeepsHidden;
    ForParts(s);
    ForTurnIs(h, WrittenOut, s, it, k, st, turns);
    if turns == 0 {
      LoweredForEnds(h, s, t);
    } else {
      SimFetch(h, s, it, k, t0, n, t, st);
      var f, f1 := Fetch(h, s, it, k, st), Fetch(h, Keyed(s), it, Nil, t);
      LoweredForIs(h, s, it, k, t0, n, t, st, turns);
      if f.res.Ok? && !f.done {
        SimWithin(h, s.body, f1.st, f.st, turns - 1);
        var r, r1 := Within(h, WrittenOut, s.body, f.st, turns - 1), Within(h, Meant, LowerStmt(s.body), f1.st, turns - 1);
        MatchesEndFrom(t0, f1.st, r, r1);
        if GoesOn(r.how) {
          SameLength(f1.st, r1.st);
          ScaffoldStays(f1.st, r1.st, n, s, it, f.res.v);
          SimForTurns(h, s, it, f.res.v, t0, n, r1.st, r.st, turns - 1);
        }
      }
    }
  }

  lemma {:induction false} SameLength(a: State, b: State)
    requires SameNames(a.locals, b.locals)
    ensures |a.locals| == |b.locals|
  {
  }

  /** Before the loop: the iterable evaluated once, and the loop's variables. */
  function ForStart(t: State, s: Stmt, it: Value): State
    requires s.For?
  {
    Bind(Bind(Bind(t, IterName, it), KeyOf(s.key), Nil), s.value, Nil)
  }

  lemma {:induction false} ForStartIs(h: Host, s: Stmt, it: Expr, l: Stmt, t: State, turns: nat)
    requires s.For? && !l.FixContinue?
    ensures
      var d := Eval(h, Meant, it, t);
      ExecSeq(h, Meant, [Var(IterName, it), Var(KeyOf(s.key), Lit(Nil)), Var(s.value, Lit(Nil)), l], t, turns) ==
        if d.res.Ok? then Exec(h, Meant, l, ForStart(d.st, s, d.res.v), turns) else Failed(d.res, d.st)
  {
    assert forall st :: Eval(h, Meant, Lit(Nil), st) == Did(Ok(Nil), st);
    hide Eval, Exec, ExecSeq;
    var a, b, c := Var(IterName, it), Var(KeyOf(s.key), Lit(Nil)), Var(s.value, Lit(Nil));
    SeqFour(h, a, b, c, l, t, turns);
    SimpleIs(h, Meant, a, t, turns);
    var ra := Exec(h, Meant, a, t, turns);
    SimpleIs(h, Meant, b, ra.st, turns);
    SimpleIs(h, Meant, c, Exec(h, Meant, b, ra.st, turns).st, turns);
  }

  lemma {:induction false} ForStartShows(s: Stmt, it: Value, t: State, st: State)
    requires NamesFine(s) && Shows(t, st)
    ensures
      var vars := Bind(if s.key.Some? then Bind(st, s.key.value, Nil) else st, s.value, Nil);
      && Shows(ForStart(t, s, it), vars) && Scaffold(ForStart(t, s, it), |t.locals|, s, it, Nil)
      && KeepsHidden(t.locals, ForStart(t, s, it).locals)
  {
    EraseSnoc(t.locals, Binding(IterName, it));
    var t1 := Bind(t, IterName, it);
    EraseSnoc(t1.locals, Binding(KeyOf(s.key), Nil));
    var t2 := Bind(t1, KeyOf(s.key), Nil);
    EraseSnoc(t2.locals, Binding(s.value, Nil));
  }

  lemma {:induction false} SimFor(h: Host, s: Stmt, t: State, st: State, turns: nat)
    requires FineStmt(s) && Shows(t, st) && s.For?
    ensures MatchesEnd(t, Exec(h, WrittenOut, s, st, turns), Exec(h, Meant, LowerStmt(s), t, turns))
    decreases turns, s, 4
  {
    ForParts(s);
    if Counts(s) {
      SimCounted(h, s, t, st, turns);
    } else {
      SimForEach(h, s, t, st, turns);
    }
  }

  lemma {:induction false} SimForEach(h: Host, s: Stmt, t: State, st: State, turns: nat)
    requires FineStmt(s) && Shows(t, st) && s.For? && !Counts(s)
    ensures MatchesEnd(t, Exec(h, WrittenOut, s, st, turns), Exec(h, Meant, LowerStmt(s), t, turns))
    decreases turns, s, 3
  {
    ForParts(s);
    NotCounted(s);
    var li := LowerExpr(s.iterable);
    var l := While(Lit(Bool(true)), ForBody(KeyOf(s.key), s.value, LowerStmt(s.body)));
    var ss := [Var(IterName, li), Var(KeyOf(s.key), Lit(Nil)), Var(s.value, Lit(Nil)), l];
    assert Exec(h, Meant, Block(ss), t, turns) == Leave(ExecSeq(h, Meant, ss, t, turns), |t.locals|);
    hide Eval, Exec, ExecSeq, ForTurns, LowerStmt, LowerExpr, FineStmt, FineExpr, Shows, ForBody, Scaffold, KeepsHidden, Leave, Bind, ForStart, Counts;
    ForIs(h, WrittenOut, s, st, turns);
    ForStartIs(h, s, li, l, t, turns);
    SimExpr(h, s.iterable, t, st);
    var d, d1 := Eval(h, WrittenOut, s.iterable, st), Eval(h, Meant, li, t);
    if d.res.Ok? {
      ForStartShows(s, d.res.v, d1.st, d.st);
      var vars := Bind(if s.key.Some? then Bind(d.st, s.key.value, Nil) else d.st, s.value, Nil);
      SimForTurns(h, s, d.res.v, Nil, d1.st, |d1.st.locals|, ForStart(d1.st, s, d.res.v), vars, turns);
      var r, r1 := ForTurns(h, WrittenOut, s, d.res.v, Nil, vars, turns), Exec(h, Meant, l, ForStart(d1.st, s, d.res.v), turns);
      MatchesEndFrom(t, d1.st, r, r1);
      LoopLeave(t, st, d, d1, r, r1);
    } else {
      FailLeave(t, d1);
    }
  }

  lemma {:induction false} NotCounted(s: Stmt)
    requires s.For? && FineStmt(s) && !Counts(s)
    ensures
      var li := LowerExpr(s.iterable);
      ForLoop(s.key, s.value, li, LowerStmt(s.body)) ==
        Block([Var(IterName, li), Var(KeyOf(s.key), Lit(Nil)), Var(s.value, Lit(Nil)), While(Lit(Bool(true)), ForBody(KeyOf(s.key), s.value, LowerStmt(s.body)))])
  {
    if s.key.None? {
      assert FineExpr(s.iterable);
      LoweredRange(s.iterable);
    }
  }

  /** Only a range is lowered to a range. */
  lemma {:induction false} LoweredRange(e: Expr)
    requires FineExpr(e)
    ensures
      var l := LowerExpr(e);
      l.Op? && l.kind.RangeOf? && |l.args| == 2 ==> e.Op? && e.kind.RangeOf? && |e.args| == 2
  {
    if e.Interpolation? && |e.segments| == 1 { assert LowerSegment(e.segments[0]).Lit?; }
  }

  /** Leaving the loop's scope, which the evaluation of the iterable did not change. */
  lemma {:induction false} LoopLeave(t: State, st: State, d: Did, d1: Did, r: Ended, r1: Ended)
    requires Shows(t, st) && MatchesEnd(t, r, r1) && SameNames(st.locals, d.st.locals) && SameNames(t.locals, d1.st.locals)
    requires Grows(d.st.locals, r.st.locals) && Grows(d1.st.locals, r1.st.locals)
    ensures MatchesEnd(t, Leave(r, |st.locals|), Leave(r1, |t.locals|))
  {
    MatchesLeave(t, st, r, r1);
  }

  lemma {:induction false} FailLeave(t: State, d1: Did)
    requires SameNames(t.locals, d1.st.locals) && !d1.res.Ok?
    ensures Leave(Failed(d1.res, d1.st), |t.locals|) == Failed(d1.res, d1.st)
  {
  }

  // Loops over a range in the header.

  /** The counting loop takes the same turns on both sides. */
  lemma {:induction false} SimCountTurns(h: Host, s: Stmt, c: Limits, i: nat, t0: State, n: nat, t: State, st: State, turns: nat)
    requires FineStmt(s) && s.For?
    requires Counting(t, n, s.value, c, i) && Shows(t, st) && KeepsHidden(t0.locals, t.locals) && |t0.locals| == n
    ensures MatchesEnd(t0, CountTurns(h, WrittenOut, s, c.count, c.step, i, st, turns), Exec(h, Meant, CountedWhile(s.value, LowerStmt(s.body)), t, turns))
    decreases turns, s, 1
  {
    hide Eval, EvalAll, Exec, Within, Apply, MoveOn, CountTurns, LowerStmt, LowerExpr, FineStmt, FineExpr, Shows, Declares, CountedBody, Counting, KeepsHidden, CountSteps;
    ForParts(s);
    var x, lb := s.value, LowerStmt(s.body);
    var l := CountedWhile(x, lb);
    CountTurnIs(h, WrittenOut, s, c.count, c.step, i, st, turns);
    WhileIs(h, Meant, l, t, turns);
    if turns > 0 {
      CountedTest(h, t, n, x, c, i);
      ApplyMatches(h, Cmp(Lt), [Num(i), c.count], t, st);
      var g, g1 := Apply(h, Cmp(Lt), [Num(i), c.count], st), Apply(h, Cmp(Lt), [Num(i), c.count], t);
      CountingKeeps(t, g1.st, n, x, c, i);
      KeepsTwice(t0.locals, t.locals, g1.st.locals);
      if g.res.Ok? && !Falsey(g.res.v) {
        SimCountTurn(h, s, c, i, t0, n, g1.st, g.st, turns);
      }
    }
  }

  /** One turn, and the rest. */
  lemma {:induction false} SimCountTurn(h: Host, s: Stmt, c: Limits, i: nat, t0: State, n: nat, t: State, st: State, turns: nat)
    requires FineStmt(s) && s.For? && turns > 0
    requires Counting(t, n, s.value, c, i) && Shows(t, st) && KeepsHidden(t0.locals, t.locals) && |t0.locals| == n
    ensures
      var q := Leave(Moved(h, s.value, c.step, Exec(h, WrittenOut, s.body, st, turns - 1)), |st.locals|);
      var q1 := Within(h, Meant, CountedBody(s.value, LowerStmt(s.body)), t, turns - 1);
      MatchesEnd(t0,
        if GoesOn(q.how) then CountTurns(h, WrittenOut, s, c.count, c.step, i + 1, q.st, turns - 1) else Left(q),
        if GoesOn(q1.how) then Exec(h, Meant, CountedWhile(s.value, LowerStmt(s.body)), q1.st, turns - 1) else Left(q1))
    decreases turns, s, 0
  {
    hide Eval, EvalAll, Exec, Within, Moved, CountTurns, LowerStmt, FineStmt, Shows, CountedBody, CountedWhile, Counting, KeepsHidden, Erase, MatchesEnd, Leave;
    ForParts(s);
    var x, lb := s.value, LowerStmt(s.body);
    SimStmt(h, s.body, t, st, turns - 1);
    LoweredAddsNames(h, s.body, t, turns - 1);
    var r, b1 := Exec(h, WrittenOut, s.body, st, turns - 1), Exec(h, Meant, lb, t, turns - 1);
    CountedBodyIs(x, lb);
    IterBodyRuns(h, Meant, CountSteps(x), lb, t, turns - 1);
    var m := Moved(h, x, c.step, r);
    SimMoved(h, x, c, i, t0, n, t, st, r, b1);
    var m1 := Stepped(h, x, b1);
    SteppedIs(h, x, b1);
    LeavesTurn(x, c, i, t0, n, t, st, m, m1);
    var q := Leave(m, |st.locals|);
    var q1 := Leave(m1, |t.locals|);
    if GoesOn(q.how) {
      SimCountTurns(h, s, c, i + 1, t0, n, q1.st, q.st, turns - 1);
    }
  }

  /** What the lowered loop does after its body. */
  function Stepped(h: Host, x: Name, b: Ended): (r: Ended)
    ensures |b.st.locals| == |r.st.locals|
  {
    var p := EvalAll(h, Meant, CountSteps(x), b.st);
    if !GoesOn(b.how) then b else if p.stop.Some? then Failed(p.stop.value, p.st) else Ended(Normal, p.st)
  }

  lemma {:induction false} SteppedIs(h: Host, x: Name, b: Ended)
    ensures
      var p := EvalAll(h, Meant, CountSteps(x), b.st);
      Stepped(h, x, b) == if !GoesOn(b.how) then b else if p.stop.Some? then Failed(p.stop.value, p.st) else Ended(Normal, p.st)
  {
    hide EvalAll;
  }

  lemma {:induction false} SimMoved(h: Host, x: Name, c: Limits, i: nat, t0: State, n: nat, t: State, st: State, r: Ended, b1: Ended)
    requires Counting(t, n, x, c, i) && KeepsHidden(t0.locals, t.locals) && |t0.locals| == n && MatchesEnd(t, r, b1)
    requires forall k :: |t.locals| <= k < |b1.st.locals| ==> b1.st.locals[k].name.User?
    requires Grows(st.locals, r.st.locals)
    ensures
      var m, m1 := Moved(h, x, c.step, r), Stepped(h, x, b1);
      && |t.locals| <= |m1.st.locals| && |st.locals| <= |m.st.locals| && Grows(st.locals, m.st.locals) && Grows(t.locals, m1.st.locals)
      && MatchesEnd(t0, m, m1) && (GoesOn(m.how) ==> Counting(m1.st, n, x, c, i + 1))
  {
    hide EvalAll, MoveOn, Shows, Counting;
    KeepsTwice(t0.locals, t.locals, b1.st.locals);
    CountingKeeps(t, b1.st, n, x, c, i);
    if GoesOn(r.how) {
      CountStepsIs(h, t0, b1.st, r.st, n, x, c, i);
    }
  }

  lemma {:induction false} LeavesTurn(x: Name, c: Limits, i: nat, t0: State, n: nat, t: State, st: State, m: Ended, m1: Ended)
    requires Counting(t, n, x, c, i) && Shows(t, st) && |t0.locals| == n && MatchesEnd(t0, m, m1)
    requires Grows(st.locals, m.st.locals) && Grows(t.locals, m1.st.locals)
    requires GoesOn(m.how) ==> Counting(m1.st, n, x, c, i + 1)
    ensures
      var q, q1 := Leave(m, |st.locals|), Leave(m1, |t.locals|);
      && MatchesEnd(t0, q, q1) && MatchesEnd(t0, Left(q), Left(q1)) && q.how == m.how && q1.how == m1.how && q1.how == q.how
      && Shows(q1.st, q.st) && KeepsHidden(t0.locals, q1.st.locals)
      && (GoesOn(m.how) ==> Counting(q1.st, n, x, c, i + 1))
  {
    EraseLeave(t.locals, m1.st.locals);
    InFront(t, n, x, c, i);
    hide Counting, Erase;
    if GoesOn(m.how) { CountingLeaves(m1.st, |t.locals|, n, x, c, i + 1); }
  }

  lemma {:induction false} InFront(t: State, n: nat, x: Name, c: Limits, i: nat)
    requires Counting(t, n, x, c, i)
    ensures n + 6 <= |t.locals|
  {
  }

  /** A lowered statement leaves no hidden variable behind in the scope it stands in. */
  lemma {:induction false} LoweredAddsNames(h: Host, s: Stmt, t: State, turns: nat)
    requires FineStmt(s)
    ensures var r := Exec(h, Meant, LowerStmt(s), t, turns); forall k :: |t.locals| <= k < |r.st.locals| ==> r.st.locals[k].name.User?
    decreases s
  {
    hide *;
    var l := LowerStmt(s);
    if !Declares(s) {
      LoweredDeclares(s);
      NoNewLocal(h, Meant, l, t, turns);
      NoMore(t, Exec(h, Meant, l, t, turns).st);
    } else {
      WhatDeclares(s);
      if s.If? {
        IfLowered(s);
        var st := Eval(h, Meant, l.cond, t).st;
        LoweredAddsNames(h, s.thenB, st, turns);
        if s.elseB.Some? { LoweredAddsNames(h, s.elseB.value, st, turns); }
        IfAddsNames(h, s, t, turns);
      } else if s.Catch? {
        CatchLowered(s);
        CatchAddsNames(h, l, t, turns);
      } else {
        VarAddsName(h, s, t, turns);
      }
    }
  }

  lemma {:induction false} WhatDeclares(s: Stmt)
    requires Declares(s)
    ensures s.If? || s.Catch? || s.Var?
  {
  }

  lemma {:induction false} IfLowered(s: Stmt)
    requires s.If? && FineStmt(s)
    ensures LowerStmt(s) == If(LowerExpr(s.cond), LowerStmt(s.thenB), if s.elseB.Some? then Some(LowerStmt(s.elseB.value)) else None)
    ensures FineStmt(s.thenB) && (s.elseB.Some? ==> FineStmt(s.elseB.value))
  {
  }

  lemma {:induction false} VarAddsName(h: Host, s: Stmt, t: State, turns: nat)
    requires s.Var? && FineStmt(s)
    ensures var r := Exec(h, Meant, LowerStmt(s), t, turns); forall k :: |t.locals| <= k < |r.st.locals| ==> r.st.locals[k].name.User?
  {
    hide Eval, FineExpr, LowerExpr;
    assert LowerStmt(s).Var?;
  }

  lemma {:induction false} IfAddsNames(h: Host, s: Stmt, t: State, turns: nat)
    requires FineStmt(s) && s.If?
    requires
      var l := LowerStmt(s);
      l.If? &&
      var st := Eval(h, Meant, l.cond, t).st;
      && (var r := Exec(h, Meant, l.thenB, st, turns); forall k :: |st.locals| <= k < |r.st.locals| ==> r.st.locals[k].name.User?)
      && (l.elseB.Some? ==> var r := Exec(h, Meant, l.elseB.value, st, turns); forall k :: |st.locals| <= k < |r.st.locals| ==> r.st.locals[k].name.User?)
    ensures var r := Exec(h, Meant, LowerStmt(s), t, turns); forall k :: |t.locals| <= k < |r.st.locals| ==> r.st.locals[k].name.User?
  {
    hide Eval, Exec, LowerStmt, FineStmt;
    IfIs(h, Meant, LowerStmt(s), t, turns);
  }

  lemma {:induction false} CatchAddsNames(h: Host, l: Stmt, t: State, turns: nat)
    requires l.Catch? && (l.binds.Some? ==> l.binds.value.User?)
    ensures var r := Exec(h, Meant, l, t, turns); forall k :: |t.locals| <= k < |r.st.locals| ==> r.st.locals[k].name.User?
  {
    assert Exec(h, Meant, l, t, turns) == Catching(h, Meant, l, t, turns);
    hide Exec, Within, Catching;
    CatchIs(h, Meant, l, t, turns);
  }

  lemma {:induction false} CountedParts(s: Stmt)
    requires Counts(s) && FineStmt(s)
    ensures
      var lo, hi := s.iterable.args[0], s.iterable.args[1];
      && s.iterable == Op(RangeOf, [lo, hi]) && FineExpr(lo) && FineExpr(hi)
      && LowerStmt(s) == CountedLoop(s.value, LowerExpr(lo), LowerExpr(hi), LowerStmt(s.body))
      && !CountedWhile(s.value, LowerStmt(s.body)).FixContinue?
  {
    var args := s.iterable.args;
    assert args == [args[0], args[1]];
    LowerTwo(args[0], args[1]);
    assert FineExpr(s.iterable);
    assert LowerExpr(s.iterable) == Op(RangeOf, LowerAll(args));
  }

  lemma {:induction false} LowerTwo(a: Expr, b: Expr)
    ensures LowerAll([a, b]) == [LowerExpr(a), LowerExpr(b)]
  {
    assert [a, b][..1] == [a] && [a][..0] == [];
    assert LowerAll([a]) == [] + [LowerExpr(a)];
  }

  lemma {:induction false} ShowsHidden(t0: State, t: State, st: State, name: Name, v: Value)
    requires Shows(t, st) && name.Hidden? && KeepsHidden(t0.locals, t.locals)
    ensures Shows(Bind(t, name, v), st) && KeepsHidden(t0.locals, Bind(t, name, v).locals)
  {
    EraseSnoc(t.locals, Binding(name, v));
  }

  /** What stands before the counting loop, and the loop itself. */
  function CountedStmts(x: Name, lo: Expr, hi: Expr, l: Stmt): seq<Stmt> {
    [Var(LowerName, lo)] + ([Var(UpperName, hi)] + ([Var(CountName, CountExpr())] + ([Var(StepName, StepExpr())] + ([Var(TurnName, Lit(Num(0)))] + ([Var(x, Ident(LowerName))] + [l])))))
  }

  lemma {:induction false} CountedIsBlock(h: Host, x: Name, lo: Expr, hi: Expr, body: Stmt, t: State, turns: nat)
    ensures
      var l := CountedWhile(x, body);
      && !l.FixContinue?
      && Exec(h, Meant, CountedLoop(x, lo, hi, body), t, turns) == Leave(ExecSeq(h, Meant, CountedStmts(x, lo, hi, l), t, turns), |t.locals|)
  {
    assert CountedLoop(x, lo, hi, body) == Block(CountedStmts(x, lo, hi, CountedWhile(x, body)));
    hide ExecSeq, CountedStmts;
  }

  lemma {:induction false} SimCounted(h: Host, s: Stmt, t: State, st: State, turns: nat)
    requires FineStmt(s) && Shows(t, st) && s.For? && Counts(s)
    ensures MatchesEnd(t, Exec(h, WrittenOut, s, st, turns), Exec(h, Meant, LowerStmt(s), t, turns))
    decreases turns, s, 3
  {
    assert Exec(h, WrittenOut, s, st, turns) == Counted(h, WrittenOut, s, st, turns);
    hide *;
    CountedParts(s);
    ForParts(s);
    var lo, hi := s.iterable.args[0], s.iterable.args[1];
    var l := CountedWhile(s.value, LowerStmt(s.body));
    CountedIsBlock(h, s.value, LowerExpr(lo), LowerExpr(hi), LowerStmt(s.body), t, turns);
    SimLower(h, s, t, st, turns);
    CountedEnds(h, s, st, turns);
    MatchesLeave(t, st, CountedFrom(h, s, st, turns), ExecSeq(h, Meant, CountedStmts(s.value, LowerExpr(lo), LowerExpr(hi), l), t, turns));
  }

  /** The counted loop before its scope is left. */
  function CountedFrom(h: Host, s: Stmt, st: State, turns: nat): (r: Ended)
    requires Counts(s)
    ensures Grows(st.locals, r.st.locals)
  {
    var a := Eval(h, WrittenOut, s.iterable.args[0], st);
    if a.res.Ok? then CountedTo(h, s, a.res.v, a.st, turns) else Failed(a.res, a.st)
  }

  function CountedTo(h: Host, s: Stmt, a: Value, st: State, turns: nat): (r: Ended)
    requires Counts(s)
    ensures Grows(st.locals, r.st.locals)
  {
    var b := Eval(h, WrittenOut, s.iterable.args[1], st);
    if b.res.Ok? then CountedBetween(h, s, a, b.res.v, b.st, turns) else Failed(b.res, b.st)
  }

  function CountedBetween(h: Host, s: Stmt, a: Value, b: Value, st: State, turns: nat): (r: Ended)
    requires Counts(s)
    ensures Grows(st.locals, r.st.locals)
  {
    var count := CountOf(h, a, b, st);
    if !count.res.Ok? then Failed(count.res, count.st)
    else
      var step := StepOf(h, a, b, count.st);
      if step.res.Ok? then CountTurns(h, WrittenOut, s, count.res.v, step.res.v, 0, Bind(step.st, s.value, a), turns) else Failed(step.res, step.st)
  }

  lemma {:induction false} CountedEnds(h: Host, s: Stmt, st: State, turns: nat)
    requires Counts(s)
    ensures Counted(h, WrittenOut, s, st, turns) == Leave(CountedFrom(h, s, st, turns), |st.locals|)
    ensures Grows(st.locals, CountedFrom(h, s, st, turns).st.locals)
  {
    hide Eval, CountOf, StepOf, CountTurns, Bind;
    assert forall r: Res, q: State :: !r.Ok? && SameNames(st.locals, q.locals) ==> Leave(Failed(r, q), |st.locals|) == Failed(r, q);
  }

  lemma {:induction false} SimLower(h: Host, s: Stmt, t: State, st: State, turns: nat)
    requires FineStmt(s) && Shows(t, st) && Counts(s) && s.For?
    ensures
      var lo, hi := s.iterable.args[0], s.iterable.args[1];
      var l := CountedWhile(s.value, LowerStmt(s.body));
      MatchesEnd(t, CountedFrom(h, s, st, turns), ExecSeq(h, Meant, CountedStmts(s.value, LowerExpr(lo), LowerExpr(hi), l), t, turns))
    decreases turns, s, 2, 3
  {
    hide Eval, Exec, ExecSeq, CountedTo, LowerStmt, LowerExpr, FineStmt, FineExpr, Shows, KeepsHidden, CountedWhile, Bind, CountExpr, StepExpr, Counts;
    CountedParts(s);
    var lo, hi := s.iterable.args[0], s.iterable.args[1];
    var l := CountedWhile(s.value, LowerStmt(s.body));
    SimExpr(h, lo, t, st);
    var a, a1 := Eval(h, WrittenOut, lo, st), Eval(h, Meant, LowerExpr(lo), t);
    VarFront(h, LowerName, LowerExpr(lo), UpperOn(s.value, LowerExpr(hi), l), t, turns);
    if a.res.Ok? {
      ShowsHidden(t, a1.st, a.st, LowerName, a.res.v);
      LowerBound(t, a1.st, a.res.v);
      SimUpper(h, s, a.res.v, t, Bind(a1.st, LowerName, a.res.v), a.st, turns);
    }
  }

  function UpperOn(x: Name, hi: Expr, l: Stmt): (ss: seq<Stmt>)
    ensures !l.FixContinue? ==> forall i :: 0 <= i < |ss| ==> !ss[i].FixContinue?
  {
    [Var(UpperName, hi)] + CountOn(x, l)
  }

  function CountOn(x: Name, l: Stmt): (ss: seq<Stmt>)
    ensures !l.FixContinue? ==> forall i :: 0 <= i < |ss| ==> !ss[i].FixContinue?
  {
    [Var(CountName, CountExpr())] + ([Var(StepName, StepExpr())] + ([Var(TurnName, Lit(Num(0)))] + ([Var(x, Ident(LowerName))] + [l])))
  }

  /** `t` has the lower bound as its last local. */
  ghost predicate HasLower(t0: State, t: State, a: Value) {
    |t.locals| == |t0.locals| + 1 && t.locals[|t0.locals|] == Binding(LowerName, a)
  }

  lemma {:induction false} LowerBound(t0: State, t: State, a: Value)
    requires SameNames(t0.locals, t.locals)
    ensures HasLower(t0, Bind(t, LowerName, a), a)
  {
  }

  lemma {:induction false} SimUpper(h: Host, s: Stmt, a: Value, t0: State, t: State, st: State, turns: nat)
    requires FineStmt(s) && Shows(t, st) && Counts(s) && s.For? && KeepsHidden(t0.locals, t.locals) && HasLower(t0, t, a)
    ensures
      var hi, l := s.iterable.args[1], CountedWhile(s.value, LowerStmt(s.body));
      MatchesEnd(t0, CountedTo(h, s, a, st, turns), ExecSeq(h, Meant, UpperOn(s.value, LowerExpr(hi), l), t, turns))
    decreases turns, s, 2, 2
  {
    hide Eval, Exec, ExecSeq, CountedBetween, LowerStmt, LowerExpr, FineStmt, FineExpr, Shows, KeepsHidden, CountedWhile, Bind, CountExpr, StepExpr, Counts, HasLower, CountOn;
    CountedParts(s);
    var hi, l := s.iterable.args[1], CountedWhile(s.value, LowerStmt(s.body));
    SimExpr(h, hi, t, st);
    var b, b1 := Eval(h, WrittenOut, hi, st), Eval(h, Meant, LowerExpr(hi), t);
    VarFront(h, UpperName, LowerExpr(hi), CountOn(s.value, l), t, turns);
    KeepsTwice(t0.locals, t.locals, b1.st.locals);
    if b.res.Ok? {
      ShowsHidden(t0, b1.st, b.st, UpperName, b.res.v);
      BothBounds(t0, t, b1.st, a, b.res.v);
      SimBetween(h, s, a, b.res.v, t0, Bind(b1.st, UpperName, b.res.v), b.st, turns);
    }
  }

  lemma {:induction false} BothBounds(t0: State, t: State, t1: State, a: Value, b: Value)
    requires HasLower(t0, t, a) && KeepsHidden(t.locals, t1.locals) && SameNames(t.locals, t1.locals)
    ensures
      var t2, n := Bind(t1, UpperName, b), |t0.locals|;
      Bounded(t2, n, a, b) && |t2.locals| == n + 2
  {
  }

  lemma {:induction false} SimBetween(h: Host, s: Stmt, a: Value, b: Value, t0: State, t: State, st: State, turns: nat)
    requires FineStmt(s) && Shows(t, st) && Counts(s) && s.For? && KeepsHidden(t0.locals, t.locals)
    requires Bounded(t, |t0.locals|, a, b) && |t.locals| == |t0.locals| + 2
    ensures
      var l := CountedWhile(s.value, LowerStmt(s.body));
      MatchesEnd(t0, CountedBetween(h, s, a, b, st, turns), ExecSeq(h, Meant, CountOn(s.value, l), t, turns))
    decreases turns, s, 2, 1
  {
    hide Eval, Exec, ExecSeq, CountOf, StepOf, CountTurns, LowerStmt, LowerExpr, FineStmt, FineExpr, Shows, KeepsHidden, CountedWhile, Bind, CountExpr, StepExpr, Counts, Bounded;
    CountedParts(s);
    var n, x, l := |t0.locals|, s.value, CountedWhile(s.value, LowerStmt(s.body));
    CountExprIs(h, t, n, a, b);
    CountOfMatches(h, a, b, t, st);
    var c, c1 := CountOf(h, a, b, st), CountOf(h, a, b, t);
    VarFront(h, CountName, CountExpr(), [Var(StepName, StepExpr())] + ([Var(TurnName, Lit(Num(0)))] + ([Var(x, Ident(LowerName))] + [l])), t, turns);
    if c.res.Ok? {
      ShowsHidden(t0, c1.st, c.st, CountName, c.res.v);
      var t1 := Bind(c1.st, CountName, c.res.v);
      StaysBoundedBy(t, c1.st, n, a, b, CountName, c.res.v);
      StepExprIs(h, t1, n, a, b);
      StepOfMatches(h, a, b, t1, c.st);
      var d, d1 := StepOf(h, a, b, c.st), StepOf(h, a, b, t1);
      VarFront(h, StepName, StepExpr(), [Var(TurnName, Lit(Num(0)))] + ([Var(x, Ident(LowerName))] + [l]), t1, turns);
      KeepsTwice(t0.locals, t1.locals, d1.st.locals);
      if d.res.Ok? {
        ShowsHidden(t0, d1.st, d.st, StepName, d.res.v);
        var t2 := Bind(d1.st, StepName, d.res.v);
        StaysBoundedBy(t1, d1.st, n, a, b, StepName, d.res.v);
        LastNames(t, c1.st, t1, d1.st, t2, n, c.res.v, d.res.v);
        SimStart(h, s, Limits(a, b, c.res.v, d.res.v), t0, t2, d.st, turns);
      } else {
        FailsAlike(t0, d, d1);
      }
    } else {
      FailsAlike(t0, c, c1);
    }
  }

  lemma {:induction false} FailsAlike(t0: State, d: Did, d1: Did)
    requires !d.res.Ok? && d1.res == d.res && Shows(d1.st, d.st) && KeepsHidden(t0.locals, d1.st.locals)
    ensures MatchesEnd(t0, Failed(d.res, d.st), Failed(d1.res, d1.st))
  {
  }

  lemma {:induction false} CountOfMatches(h: Host, a: Value, b: Value, t: State, st: State)
    requires Shows(t, st)
    ensures
      var d, d1 := CountOf(h, a, b, st), CountOf(h, a, b, t);
      d1.res == d.res && Shows(d1.st, d.st) && d1.st.locals == t.locals
  {
    hide Apply, Shows;
    ApplyMatches(h, Cmp(Ge), [b, a], t, st);
    var up, up1 := Apply(h, Cmp(Ge), [b, a], st), Apply(h, Cmp(Ge), [b, a], t);
    if up.res.Ok? {
      ApplyMatches(h, Bin(Sub), [a, b], up1.st, up.st);
      ApplyMatches(h, Bin(Sub), [b, a], up1.st, up.st);
    }
  }

  lemma {:induction false} StepOfMatches(h: Host, a: Value, b: Value, t: State, st: State)
    requires Shows(t, st)
    ensures
      var d, d1 := StepOf(h, a, b, st), StepOf(h, a, b, t);
      d1.res == d.res && Shows(d1.st, d.st) && d1.st.locals == t.locals && KeepsHidden(t.locals, d1.st.locals)
  {
    hide Apply, Shows;
    ApplyMatches(h, Cmp(Ge), [b, a], t, st);
  }

  lemma {:induction false} StaysBoundedBy(t: State, t1: State, n: nat, a: Value, b: Value, name: Name, v: Value)
    requires Bounded(t, n, a, b) && t1.locals == t.locals && name != LowerName && name != UpperName
    ensures Bounded(Bind(t1, name, v), n, a, b)
  {
  }

  lemma {:induction false} LastNames(t: State, c1: State, t1: State, d1: State, t2: State, n: nat, count: Value, step: Value)
    requires |t.locals| == n + 2 && c1.locals == t.locals && t1 == Bind(c1, CountName, count) && d1.locals == t1.locals && t2 == Bind(d1, StepName, step)
    ensures |t2.locals| == n + 4 && t2.locals[n..] == t.locals[n..] + [Binding(CountName, count), Binding(StepName, step)]
  {
  }

  lemma {:induction false} SimStart(h: Host, s: Stmt, c: Limits, t0: State, t: State, st: State, turns: nat)
    requires FineStmt(s) && Shows(t, st) && s.For? && KeepsHidden(t0.locals, t.locals)
    requires Bounded(t, |t0.locals|, c.lower, c.upper) && |t.locals| == |t0.locals| + 4
    requires t.locals[|t0.locals| + 2] == Binding(CountName, c.count) && t.locals[|t0.locals| + 3] == Binding(StepName, c.step)
    ensures
      var l := CountedWhile(s.value, LowerStmt(s.body));
      MatchesEnd(t0, CountTurns(h, WrittenOut, s, c.count, c.step, 0, Bind(st, s.value, c.lower), turns),
        ExecSeq(h, Meant, [Var(TurnName, Lit(Num(0)))] + ([Var(s.value, Ident(LowerName))] + [l]), t, turns))
    decreases turns, s, 2, 0
  {
    LitsAre(h);
    hide Eval, Exec, ExecSeq, CountTurns, LowerStmt, FineStmt, Shows, KeepsHidden, CountedWhile, Bind, Bounded, Counting;
    ForParts(s);
    var n, x, l := |t0.locals|, s.value, CountedWhile(s.value, LowerStmt(s.body));
    NotFix(x, LowerStmt(s.body));
    VarFront(h, TurnName, Lit(Num(0)), [Var(x, Ident(LowerName))] + [l], t, turns);
    ShowsHidden(t0, t, st, TurnName, Num(0));
    var t1 := Bind(t, TurnName, Num(0));
    StaysBoundedBy(t, t, n, c.lower, c.upper, TurnName, Num(0));
    BoundsRead(h, t1, n, c.lower, c.upper);
    VarFront(h, x, Ident(LowerName), [l], t1, turns);
    BindMatches(x, c.lower, t1, st);
    var t2 := Bind(t1, x, c.lower);
    KeepsTwice(t0.locals, t1.locals, t2.locals);
    SeqOne(h, Meant, l, t2, turns);
    CountingStarts(t, n, x, c);
    SimCountTurns(h, s, c, 0, t0, n, t2, Bind(st, x, c.lower), turns);
  }

  lemma {:induction false} NotFix(x: Name, body: Stmt)
    ensures !CountedWhile(x, body).FixContinue?
  {
  }

  lemma {:induction false} CountingStarts(t: State, n: nat, x: Name, c: Limits)
    requires Bounded(t, n, c.lower, c.upper) && |t.locals| == n + 4 && x.User?
    requires t.locals[n + 2] == Binding(CountName, c.count) && t.locals[n + 3] == Binding(StepName, c.step)
    ensures Counting(Bind(Bind(t, TurnName, Num(0)), x, c.lower), n, x, c, 0)
  {
  }

  // The main result.

  lemma {:induction false} EraseNothing(locals: seq<Binding>)
    requires forall i :: 0 <= i < |locals| ==> locals[i].name.User?
    ensures Erase(locals) == locals
    decreases |locals|
  {
    if locals != [] { EraseNothing(locals[..|locals| - 1]); }
  }

  /** What the pass makes of a program does what the program does read as written out, whatever
      the runtime answers and however either ends. */
  lemma {:induction false} LoweringWritesOut(h: Host, s: Stmt, st: State, turns: nat)
    requires FineStmt(s) && forall i :: 0 <= i < |st.locals| ==> st.locals[i].name.User?
    ensures
      var r, r1 := Exec(h, WrittenOut, s, st, turns), Exec(h, Meant, LowerStmt(s), st, turns);
      r1.how == r.how && r1.st.globals == r.st.globals && r1.st.log == r.st.log && Erase(r1.st.locals) == r.st.locals
  {
    EraseNothing(st.locals);
    SimStmt(h, s, st, st, turns);
  }

  /** Lowering preserves meaning: if the program, read with care, does not go wrong, the lowered
      program ends as the program does, with the same globals and the same dealings with the
      runtime, and its visible locals are the program's. */
  lemma {:induction false} LoweringPreservesMeaning(h: Host, s: Stmt, st: State, turns: nat)
    requires FineStmt(s) && Enclosed(s) && forall i :: 0 <= i < |st.locals| ==> st.locals[i].name.User?
    requires !Exec(h, Careful, s, st, turns).how.WentWrong?
    ensures
      var r, r1 := Exec(h, Meant, s, st, turns), Exec(h, Meant, LowerStmt(s), st, turns);
      r1.how == r.how && r1.st.globals == r.st.globals && r1.st.log == r.st.log && Erase(r1.st.locals) == r.st.locals
  {
    LoweringWritesOut(h, s, st, turns);
    CarefulIsAny(h, Meant, s, st, turns);
    CarefulIsAny(h, WrittenOut, s, st, turns);
  }
}
