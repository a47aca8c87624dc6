/** The readings of a tree, side by side: when they come to the same. */
module Readings {
  import opened Shapes
  import opened Values
  import opened Surface
  import opened Erasure
  import opened LowerExprs
  import opened ExecFacts
  import opened RangeLoop

  /** No `break` or `continue` in `s` belongs to a loop around it. */
  predicate NoFreeJump(s: Stmt)
    decreases s
  {
    match s
    case Break => false
    case Continue => false
    case Block(ss) => forall i :: 0 <= i < |ss| ==> NoFreeJump(ss[i])
    case If(_, t, f) => NoFreeJump(t) && (f.Some? ==> NoFreeJump(f.value))
    case Catch(body, handler, _) => NoFreeJump(body) && (handler.Some? ==> NoFreeJump(handler.value))
    case Iter(init, _, _, _) => init.Some? ==> NoFreeJump(init.value)
    case _ => true
  }

  /** What the body of a `do`, which is written out twice, declares or jumps to stays in it, and
      so does what the body of a loop that counts declares. */
  predicate Enclosed(s: Stmt)
    decreases s
  {
    match s
    case Block(ss) => forall i :: 0 <= i < |ss| ==> Enclosed(ss[i])
    case If(_, t, f) => Enclosed(t) && (f.Some? ==> Enclosed(f.value))
    case While(_, body) => Enclosed(body)
    case Catch(body, handler, _) => Enclosed(body) && (handler.Some? ==> Enclosed(handler.value))
    case For(_, _, _, body) => Enclosed(body) && (Counts(s) ==> !Declares(body))
    case Iter(init, _, _, body) => (init.Some? ==> Enclosed(init.value)) && Enclosed(body)
    case DoWhile(body, _) => Enclosed(body) && !Declares(body) && NoFreeJump(body)
    case _ => true
  }

  lemma {:induction false} NeverJumps(h: Host, reading: Reading, s: Stmt, st: State, turns: nat)
    requires NoFreeJump(s) && !reading.WrittenOut?
    ensures var how := Exec(h, reading, s, st, turns).how; !how.Broke? && !how.Continued?
    decreases turns, s, 1
  {
    hide Eval, EvalAll, ForTurns, IterTurns, DoTurns, ExecSeq;
    match s
    case Block(ss) => NeverJumpsSeq(h, reading, ss, st, turns);
    case If(c, t, f) =>
      var d := Eval(h, reading, c, st);
      NeverJumps(h, reading, t, d.st, turns);
      if f.Some? { NeverJumps(h, reading, f.value, d.st, turns); }
    case While(c, body) =>
      if turns > 0 {
        var r := Within(h, reading, body, Eval(h, reading, c, st).st, turns - 1);
        NeverJumps(h, reading, s, r.st, turns - 1);
      }
    case Catch(body, handler, binds) =>
      CatchNeverJumps(h, reading, s, st, turns);
    case For(_, _, _, _) => ForEachNeverJumps(h, reading, s, st, turns);
    case Iter(init, _, _, _) =>
      if init.Some? { NeverJumps(h, reading, init.value, st, turns); }
      forall st1 { IterNeverJumps(h, reading, s, st1, turns); }
    case DoWhile(_, _) => DoNeverJumps(h, reading, s, st, turns);
    case _ =>
  }

  lemma {:induction false} CatchNeverJumps(h: Host, reading: Reading, s: Stmt, st: State, turns: nat)
    requires NoFreeJump(s) && s.Catch? && !reading.WrittenOut?
    ensures var how := Catching(h, reading, s, st, turns).how; !how.Broke? && !how.Continued?
    decreases turns, s, 0
  {
    var st0 := if s.binds.Some? then Bind(st, s.binds.value, Nil) else st;
    assert NoFreeJump(s.body) && (s.handler.Some? ==> NoFreeJump(s.handler.value));
    CatchIs(h, reading, s, st, turns);
    hide Exec, Catching, NoFreeJump;
    NeverJumps(h, reading, s.body, st0, turns);
    var r := Within(h, reading, s.body, st0, turns);
    if r.how.Raised? && s.binds.Some? && s.handler.Some? {
      NeverJumps(h, reading, s.handler.value, Bind(Leave(r, |st.locals|).st, s.binds.value, r.how.err), turns);
    }
  }

  lemma {:induction false} NeverJumpsSeq(h: Host, reading: Reading, ss: seq<Stmt>, st: State, turns: nat)
    requires !reading.WrittenOut? && forall i :: 0 <= i < |ss| ==> NoFreeJump(ss[i])
    ensures var how := ExecSeq(h, reading, ss, st, turns).how; !how.Broke? && !how.Continued?
    decreases turns, ss, 0
  {
    if ss != [] {
      var n := |ss| - 1;
      NeverJumpsSeq(h, reading, ss[..n], st, turns);
      NeverJumps(h, reading, ss[n], ExecSeq(h, reading, ss[..n], st, turns).st, turns);
    }
  }

  lemma {:induction false} ForEachNeverJumps(h: Host, reading: Reading, s: Stmt, st: State, turns: nat)
    requires s.For? && !reading.WrittenOut?
    ensures var how := Exec(h, reading, s, st, turns).how; !how.Broke? && !how.Continued?
  {
    hide Exec, Eval, ForTurns, Fetch, NumericBounds;
    NotWrittenOut(reading, s);
    ForIs(h, reading, s, st, turns);
    var d := Eval(h, reading, s.iterable, st);
    if d.res.Ok? {
      var vars := Bind(if s.key.Some? then Bind(d.st, s.key.value, Nil) else d.st, s.value, Nil);
      ForNeverJumps(h, reading, s, d.res.v, Nil, vars, turns);
      LeaveKeeps(ForTurns(h, reading, s, d.res.v, Nil, vars, turns), |st.locals|);
    } else {
      FailureIsNoJump(d.res, d.st);
    }
  }

  lemma {:induction false} NotWrittenOut(reading: Reading, s: Stmt)
    requires s.For? && !reading.WrittenOut?
    ensures !(reading.WrittenOut? && Counts(s))
  {
  }

  lemma {:induction false} LeaveKeeps(r: Ended, n: nat)
    requires n <= |r.st.locals|
    ensures Leave(r, n).how == r.how
  {
  }

  lemma {:induction false} ForNeverJumps(h: Host, reading: Reading, s: Stmt, it: Value, k: Value, st: State, turns: nat)
    requires s.For?
    ensures var how := ForTurns(h, reading, s, it, k, st, turns).how; !how.Broke? && !how.Continued?
    decreases turns
  {
    hide *;
    ForTurnIs(h, reading, s, it, k, st, turns);
    if turns > 0 {
      var f := Fetch(h, s, it, k, st);
      if f.res.Ok? && !f.done {
        var r := Within(h, reading, s.body, f.st, turns - 1);
        JumpsAbsorbed(r);
        ForNeverJumps(h, reading, s, it, f.res.v, r.st, turns - 1);
      } else if !f.res.Ok? {
        FailureIsNoJump(f.res, f.st);
      }
    }
  }

  lemma {:induction false} JumpsAbsorbed(r: Ended)
    ensures !GoesOn(r.how) ==> !Left(r).how.Broke? && !Left(r).how.Continued?
  {
  }

  lemma {:induction false} FailureIsNoJump(r: Res, st: State)
    requires !r.Ok?
    ensures !Failed(r, st).how.Broke? && !Failed(r, st).how.Continued?
  {
  }

  lemma {:induction false} IterNeverJumps(h: Host, reading: Reading, s: Stmt, st: State, turns: nat)
    requires s.Iter?
    ensures var how := IterTurns(h, reading, s, st, turns).how; !how.Broke? && !how.Continued?
    decreases turns
  {
    if turns > 0 {
      var d := if s.test.None? then Did(Ok(Bool(true)), st) else Eval(h, reading, s.test.value, st);
      var r := Within(h, reading, s.body, d.st, turns - 1);
      IterNeverJumps(h, reading, s, EvalAll(h, reading, s.steps, r.st).st, turns - 1);
    }
  }

  lemma {:induction false} DoNeverJumps(h: Host, reading: Reading, s: Stmt, st: State, turns: nat)
    requires s.DoWhile?
    ensures var how := DoTurns(h, reading, s, st, turns).how; !how.Broke? && !how.Continued?
    decreases turns
  {
    if turns > 0 {
      var r := Within(h, reading, s.body, st, turns);
      DoNeverJumps(h, reading, s, Eval(h, reading, s.until, r.st).st, turns - 1);
    }
  }

  /** A run that, read with care, does not go wrong is the same in every reading. */
  lemma {:induction false} CarefulIsAny(h: Host, reading: Reading, s: Stmt, st: State, turns: nat)
    requires !Exec(h, Careful, s, st, turns).how.WentWrong?
    requires reading.WrittenOut? ==> Enclosed(s)
    ensures Exec(h, reading, s, st, turns) == Exec(h, Careful, s, st, turns)
    decreases turns, s, 3
  {
    match s
    case Block(ss) => CarefulSeq(h, reading, ss, st, turns);
    case If(c, t, f) =>
      hide Eval, Exec;
      IfIs(h, Careful, s, st, turns);
      IfIs(h, reading, s, st, turns);
      CarefulExpr(h, reading, c, st);
      var d := Eval(h, Careful, c, st);
      if d.res.Ok? {
        if !Falsey(d.res.v) { CarefulIsAny(h, reading, t, d.st, turns); }
        else if f.Some? { CarefulIsAny(h, reading, f.value, d.st, turns); }
      }
    case While(_, _) => CarefulWhile(h, reading, s, st, turns);
    case Catch(_, _, _) => CarefulCatch(h, reading, s, st, turns);
    case For(_, _, _, _) => if reading.WrittenOut? && Counts(s) { CarefulCounted(h, s, st, turns); } else { CarefulForEach(h, reading, s, st, turns); }
    case Iter(init, _, _, _) => CarefulIter(h, reading, s, st, turns);
    case DoWhile(_, _) => CarefulDoWhile(h, reading, s, st, turns);
    case Expression(e) => CarefulExpr(h, reading, e, st);
    case Echo(e) => CarefulExpr(h, reading, e, st);
    case Var(_, e) => CarefulExpr(h, reading, e, st);
    case Return(e) => CarefulExpr(h, reading, e, st);
    case Raise(e) => CarefulExpr(h, reading, e, st);
    case _ =>
  }

  lemma {:induction false} CarefulWithin(h: Host, reading: Reading, s: Stmt, st: State, turns: nat)
    requires !Within(h, Careful, s, st, turns).how.WentWrong?
    requires reading.WrittenOut? ==> Enclosed(s)
    ensures Within(h, reading, s, st, turns) == Within(h, Careful, s, st, turns)
    decreases turns, s, 4
  {
    hide Exec;
    CarefulIsAny(h, reading, s, st, turns);
  }

  lemma {:induction false} CarefulSeq(h: Host, reading: Reading, ss: seq<Stmt>, st: State, turns: nat)
    requires !ExecSeq(h, Careful, ss, st, turns).how.WentWrong?
    requires reading.WrittenOut? ==> forall i :: 0 <= i < |ss| ==> Enclosed(ss[i])
    ensures ExecSeq(h, reading, ss, st, turns) == ExecSeq(h, Careful, ss, st, turns)
    decreases turns, ss, 0
  {
    if ss != [] {
      hide Exec, ExecSeq;
      var n := |ss| - 1;
      SeqIs(h, Careful, ss, st, turns);
      SeqIs(h, reading, ss, st, turns);
      CarefulSeq(h, reading, ss[..n], st, turns);
      var r := ExecSeq(h, Careful, ss[..n], st, turns);
      if !ss[n].FixContinue? && r.how.Normal? { CarefulIsAny(h, reading, ss[n], r.st, turns); }
    }
  }

  lemma {:induction false} CarefulWhile(h: Host, reading: Reading, s: Stmt, st: State, turns: nat)
    requires s.While? && !Exec(h, Careful, s, st, turns).how.WentWrong?
    requires reading.WrittenOut? ==> Enclosed(s)
    ensures Exec(h, reading, s, st, turns) == Exec(h, Careful, s, st, turns)
    decreases turns, s, 2
  {
    hide Eval, Exec, Within;
    WhileIs(h, Careful, s, st, turns);
    WhileIs(h, reading, s, st, turns);
    if turns > 0 {
      CarefulExpr(h, reading, s.cond, st);
      var d := Eval(h, Careful, s.cond, st);
      if d.res.Ok? && !Falsey(d.res.v) {
        CarefulWithin(h, reading, s.body, d.st, turns - 1);
        var r := Within(h, Careful, s.body, d.st, turns - 1);
        if GoesOn(r.how) { CarefulWhile(h, reading, s, r.st, turns - 1); }
      }
    }
  }

  lemma {:induction false} CarefulCatch(h: Host, reading: Reading, s: Stmt, st: State, turns: nat)
    requires s.Catch? && !Exec(h, Careful, s, st, turns).how.WentWrong?
    requires reading.WrittenOut? ==> Enclosed(s)
    ensures Exec(h, reading, s, st, turns) == Exec(h, Careful, s, st, turns)
    decreases turns, s, 2
  {
    assert forall any: Reading :: Exec(h, any, s, st, turns) == Catching(h, any, s, st, turns);
    hide Exec, Within, Catching, Leave;
    CatchIs(h, Careful, s, st, turns);
    CatchIs(h, reading, s, st, turns);
    var st0 := if s.binds.Some? then Bind(st, s.binds.value, Nil) else st;
    CarefulWithin(h, reading, s.body, st0, turns);
    var r := Within(h, Careful, s.body, st0, turns);
    if r.how.Raised? && s.binds.Some? && s.handler.Some? {
      CarefulWithin(h, reading, s.handler.value, Bind(Leave(r, |st.locals|).st, s.binds.value, r.how.err), turns);
    }
  }

  lemma {:induction false} CarefulForEach(h: Host, reading: Reading, s: Stmt, st: State, turns: nat)
    requires s.For? && !(reading.WrittenOut? && Counts(s)) && !Exec(h, Careful, s, st, turns).how.WentWrong?
    requires reading.WrittenOut? ==> Enclosed(s)
    ensures Exec(h, reading, s, st, turns) == Exec(h, Careful, s, st, turns)
    decreases turns, s, 2
  {
    hide Eval, Exec, ForTurns, NumericBounds;
    ForIs(h, Careful, s, st, turns);
    ForIs(h, reading, s, st, turns);
    CarefulExpr(h, reading, s.iterable, st);
    var d := Eval(h, Careful, s.iterable, st);
    if d.res.Ok? {
      CarefulForTurns(h, reading, s, d.res.v, Nil, Bind(if s.key.Some? then Bind(d.st, s.key.value, Nil) else d.st, s.value, Nil), turns);
    }
  }

  lemma {:induction false} CarefulForTurns(h: Host, reading: Reading, s: Stmt, it: Value, k: Value, st: State, turns: nat)
    requires s.For? && !ForTurns(h, Careful, s, it, k, st, turns).how.WentWrong?
    requires reading.WrittenOut? ==> Enclosed(s)
    ensures ForTurns(h, reading, s, it, k, st, turns) == ForTurns(h, Careful, s, it, k, st, turns)
    decreases turns, s, 1
  {
    hide Fetch, ForTurns, Within;
    ForTurnIs(h, Careful, s, it, k, st, turns);
    ForTurnIs(h, reading, s, it, k, st, turns);
    if turns > 0 {
      var f := Fetch(h, s, it, k, st);
      if f.res.Ok? && !f.done {
        CarefulWithin(h, reading, s.body, f.st, turns - 1);
        var r := Within(h, Careful, s.body, f.st, turns - 1);
        if GoesOn(r.how) && !Strays(Careful, s, f.st, r.st) { CarefulForTurns(h, reading, s, it, f.res.v, r.st, turns - 1); }
      }
    }
  }

  lemma {:induction false} CarefulIter(h: Host, reading: Reading, s: Stmt, st: State, turns: nat)
    requires s.Iter? && !Exec(h, Careful, s, st, turns).how.WentWrong?
    requires reading.WrittenOut? ==> Enclosed(s)
    ensures Exec(h, reading, s, st, turns) == Exec(h, Careful, s, st, turns)
    decreases turns, s, 2
  {
    if s.init.Some? { CarefulIsAny(h, reading, s.init.value, st, turns); }
    var i := if s.init.None? then Ended(Normal, st) else Exec(h, Careful, s.init.value, st, turns);
    if i.how.Normal? { CarefulIterTurns(h, reading, s, i.st, turns); }
  }

  lemma {:induction false} CarefulIterTurns(h: Host, reading: Reading, s: Stmt, st: State, turns: nat)
    requires s.Iter? && !IterTurns(h, Careful, s, st, turns).how.WentWrong?
    requires reading.WrittenOut? ==> Enclosed(s)
    ensures IterTurns(h, reading, s, st, turns) == IterTurns(h, Careful, s, st, turns)
    decreases turns, s, 1
  {
    hide Eval, EvalAll, IterTurns, Within;
    IterIs(h, Careful, s, st, turns);
    IterIs(h, reading, s, st, turns);
    if turns > 0 {
      if s.test.Some? { CarefulExpr(h, reading, s.test.value, st); }
      var d := if s.test.None? then Did(Ok(Bool(true)), st) else Eval(h, Careful, s.test.value, st);
      if d.res.Ok? && !Falsey(d.res.v) {
        CarefulWithin(h, reading, s.body, d.st, turns - 1);
        var r := Within(h, Careful, s.body, d.st, turns - 1);
        var p := EvalAll(h, Careful, s.steps, r.st);
        if GoesOn(r.how) { CarefulAll(h, reading, s.steps, r.st); }
        if GoesOn(r.how) && p.stop.None? { CarefulIterTurns(h, reading, s, p.st, turns - 1); }
      }
    }
  }

  lemma {:induction false} CarefulDo(h: Host, reading: Reading, s: Stmt, st: State, turns: nat)
    requires s.DoWhile? && !DoTurns(h, Careful, s, st, turns).how.WentWrong?
    requires reading.WrittenOut? ==> Enclosed(s.body)
    ensures DoTurns(h, reading, s, st, turns) == DoTurns(h, Careful, s, st, turns)
    decreases turns, s, 1
  {
    hide Eval, DoTurns, DoRest, Within;
    DoIs(h, Careful, s, st, turns);
    DoIs(h, reading, s, st, turns);
    CarefulWithin(h, reading, s.body, st, turns);
    var r := Within(h, Careful, s.body, st, turns);
    if GoesOn(r.how) { CarefulRest(h, reading, s, r.st, turns); }
  }

  lemma {:induction false} CarefulRest(h: Host, reading: Reading, s: Stmt, st: State, turns: nat)
    requires s.DoWhile? && !DoRest(h, Careful, s, st, turns).how.WentWrong?
    requires reading.WrittenOut? ==> Enclosed(s.body)
    ensures DoRest(h, reading, s, st, turns) == DoRest(h, Careful, s, st, turns)
    decreases turns, s, 0
  {
    hide Eval, DoTurns;
    if turns > 0 {
      CarefulExpr(h, reading, s.until, st);
      var d := Eval(h, Careful, s.until, st);
      if d.res.Ok? && !Falsey(d.res.v) { CarefulDo(h, reading, s, d.st, turns - 1); }
    }
  }

  lemma {:induction false} CarefulDoWhile(h: Host, reading: Reading, s: Stmt, st: State, turns: nat)
    requires s.DoWhile? && !Exec(h, Careful, s, st, turns).how.WentWrong?
    requires reading.WrittenOut? ==> Enclosed(s)
    ensures Exec(h, reading, s, st, turns) == Exec(h, Careful, s, st, turns)
    decreases turns, s, 2
  {
    DoExec(h, Careful, s, st, turns);
    if reading.WrittenOut? {
      assert Enclosed(s.body) && !Declares(s.body) && NoFreeJump(s.body);
      hide Exec, DoTurns, DoRest, Within, Enclosed, NoFreeJump, Declares;
      NeverJumps(h, Careful, s.body, st, turns);
      DoIs(h, Careful, s, st, turns);
      NoNewLocal(h, Careful, s.body, st, turns);
      NoNewLocal(h, WrittenOut, s.body, st, turns);
      DoWrittenOutIs(h, s, st, turns);
      var r := Within(h, Careful, s.body, st, turns);
      LeftWrong(r);
      CarefulWithin(h, WrittenOut, s.body, st, turns);
      if r.how.Normal? { CarefulRest(h, WrittenOut, s, r.st, turns); }
      LeaveNothing(if r.how.Normal? then DoRest(h, WrittenOut, s, r.st, turns) else r, st);
      LeftIs(r);
    } else {
      DoExec(h, reading, s, st, turns);
      hide Exec, Enclosed;
      CarefulDo(h, reading, s, st, turns);
    }
  }

  lemma {:induction false} LeftIs(r: Ended)
    requires !r.how.Broke?
    ensures Left(r) == r && (GoesOn(r.how) ==> r.how.Normal? || r.how.Continued?)
  {
  }

  lemma {:induction false} DoExec(h: Host, reading: Reading, s: Stmt, st: State, turns: nat)
    requires s.DoWhile? && !reading.WrittenOut?
    ensures Exec(h, reading, s, st, turns) == DoTurns(h, reading, s, st, turns)
  {
    hide DoTurns;
  }

  lemma {:induction false} DoWrittenOutIs(h: Host, s: Stmt, st: State, turns: nat)
    requires s.DoWhile?
    ensures
      var first := Exec(h, WrittenOut, s.body, st, turns);
      Exec(h, WrittenOut, s, st, turns) == Leave(if first.how.Normal? then DoRest(h, WrittenOut, s, first.st, turns) else first, |st.locals|)
  {
    hide DoRest;
  }

  // Counting.

  lemma {:induction false} NumbersOf(h: Host, s: Stmt, st: State, turns: nat)
    requires Counts(s)
    ensures
      var lo, hi := s.iterable.args[0], s.iterable.args[1];
      var x := Eval(h, Careful, lo, st);
      var y := Eval(h, Careful, hi, x.st);
      var r := Exec(h, Careful, s, st, turns);
      if !x.res.Ok? then r == Failed(x.res, x.st)
      else if !y.res.Ok? then r == Failed(y.res, y.st)
      else if x.res.v.Num? && y.res.v.Num? then
        r == Leave(ForTurns(h, Careful, s, Span(x.res.v.n, y.res.v.n), KeyBefore(0), Bind(y.st, s.value, Nil), turns), |st.locals|)
      else r.how.WentWrong?
  {
    var lo, hi := s.iterable.args[0], s.iterable.args[1];
    assert s.iterable.args == [lo, hi] && s.iterable == Op(RangeOf, [lo, hi]);
    hide Eval, EvalAll, ForTurns, Exec, Leave, Bind;
    ForIs(h, Careful, s, st, turns);
    EvalTwo(h, Careful, lo, hi, st);
    OpTwo(h, Careful, RangeOf, lo, hi, st);
  }

  /** With numbers for bounds, and a variable no turn changes, counting is what the range's
      protocol does. */
  lemma {:induction false} CarefulCounted(h: Host, s: Stmt, st: State, turns: nat)
    requires Counts(s) && Enclosed(s) && !Exec(h, Careful, s, st, turns).how.WentWrong?
    ensures Exec(h, WrittenOut, s, st, turns) == Exec(h, Careful, s, st, turns)
    decreases turns, s, 2
  {
    assert Exec(h, WrittenOut, s, st, turns) == Counted(h, WrittenOut, s, st, turns);
    hide Eval, Exec, ForTurns, CountTurns, Leave, Bind, CountOf, StepOf, Width;
    NumbersOf(h, s, st, turns);
    var lo, hi := s.iterable.args[0], s.iterable.args[1];
    var x := Eval(h, Careful, lo, st);
    var y := Eval(h, Careful, hi, x.st);
    FailsWrong(x.res, x.st);
    FailsWrong(y.res, y.st);
    CarefulExpr(h, WrittenOut, lo, st);
    if x.res.Ok? {
      CarefulExpr(h, WrittenOut, hi, x.st);
      if y.res.Ok? {
        var a, b := x.res.v.n, y.res.v.n;
        NumbersCount(h, a, b, y.st);
        CountedNumbers(h, s, a, b, st, y.st, turns);
      }
    }
  }

  lemma {:induction false} FailsWrong(r: Res, st: State)
    ensures r.Wrong? ==> Failed(r, st).how.WentWrong?
  {
  }

  lemma {:induction false} CountedNumbers(h: Host, s: Stmt, a: int, b: int, st: State, st1: State, turns: nat)
    requires Counts(s) && s.For? && Enclosed(s) && SameNames(st.locals, st1.locals)
    requires !Leave(ForTurns(h, Careful, s, Span(a, b), KeyBefore(0), Bind(st1, s.value, Nil), turns), |st.locals|).how.WentWrong?
    ensures
      Leave(CountTurns(h, WrittenOut, s, Num(Width(a, b)), Num(Sign(a, b)), 0, Bind(st1, s.value, Num(a)), turns), |st.locals|) ==
      Leave(ForTurns(h, Careful, s, Span(a, b), KeyBefore(0), Bind(st1, s.value, Nil), turns), |st.locals|)
    decreases turns, s, 1
  {
    hide ForTurns, CountTurns, Width;
    var m := |st.locals|;
    var v := Bind(st1, s.value, Nil);
    assert |v.locals| == m + 1 && v.locals[m].name == s.value && ValueAt(a, b, 0) == a;
    assert Ahead(s, m, v, a) == Bind(st1, s.value, Num(a));
    CountsLikeRange(h, s, a, b, 0, m, v, turns);
  }

  /** The states of the two loops before a turn: the counting one has the value already. */
  function Ahead(s: Stmt, m: nat, st: State, v: int): State
    requires s.For? && m < |st.locals|
  {
    st.(locals := st.locals[m := Binding(s.value, Num(v))])
  }

  /** Both ended alike, seen from outside the loop. */
  ghost predicate AlikeOutside(m: nat, r: Ended, r1: Ended) {
    |r.st.locals| == |r1.st.locals| == m + 1 && Leave(r1, m) == Leave(r, m)
  }

  lemma {:induction false} AheadOutside(s: Stmt, m: nat, how: Outcome, st: State, v: int)
    requires s.For? && |st.locals| == m + 1
    ensures AlikeOutside(m, Ended(how, st), Ended(how, Ahead(s, m, st, v)))
  {
    assert st.locals[..m] == Ahead(s, m, st, v).locals[..m];
  }

  lemma {:induction false} SelfOutside(m: nat, r: Ended)
    requires |r.st.locals| == m + 1
    ensures AlikeOutside(m, r, r)
  {
  }

  lemma {:induction false} CountsLikeRange(h: Host, s: Stmt, a: int, b: int, i: nat, m: nat, st: State, turns: nat)
    requires Counts(s) && s.For? && Enclosed(s) && |st.locals| == m + 1 && st.locals[m].name == s.value && i <= Width(a, b)
    requires !ForTurns(h, Careful, s, Span(a, b), KeyBefore(i), st, turns).how.WentWrong?
    ensures AlikeOutside(m, ForTurns(h, Careful, s, Span(a, b), KeyBefore(i), st, turns),
              CountTurns(h, WrittenOut, s, Num(Width(a, b)), Num(Sign(a, b)), i, Ahead(s, m, st, ValueAt(a, b, i)), turns))
    decreases turns, s, 0, 1
  {
    var at := Ahead(s, m, st, ValueAt(a, b, i));
    hide *;
    BodyStays(s);
    ForTurnIs(h, Careful, s, Span(a, b), KeyBefore(i), st, turns);
    NumbersCount(h, a, b, at);
    CountTurnIs(h, WrittenOut, s, Num(Width(a, b)), Num(Sign(a, b)), i, at, turns);
    AheadOutside(s, m, OutOfTurns, st, ValueAt(a, b, i));
    AheadOutside(s, m, Normal, st, ValueAt(a, b, i));
    if turns > 0 {
      RangeFetch(h, s, st, m, a, b, i);
      AheadIs(s, m, st, ValueAt(a, b, i));
      BoolIs(i < Width(a, b));
      if i < Width(a, b) { CountsLikeTurn(h, s, a, b, i, m, at, turns); }
    }
  }

  lemma {:induction false} BoolIs(b: bool)
    ensures Falsey(Bool(b)) == !b
  {
  }

  lemma {:induction false} AheadIs(s: Stmt, m: nat, st: State, v: int)
    requires s.For? && |st.locals| == m + 1
    ensures Ahead(s, m, st, v) == st.(locals := st.locals[m := Binding(s.value, Num(v))])
    ensures |Ahead(s, m, st, v).locals| == m + 1 && Ahead(s, m, st, v).locals[m] == Binding(s.value, Num(v))
  {
  }

  /** A turn with the same value on both sides, and the rest. */
  lemma {:induction false} CountsLikeTurn(h: Host, s: Stmt, a: int, b: int, i: nat, m: nat, at: State, turns: nat)
    requires Counts(s) && s.For? && s.key.None? && Enclosed(s) && |at.locals| == m + 1 && at.locals[m] == Binding(s.value, Num(ValueAt(a, b, i)))
    requires i < Width(a, b) && turns > 0
    requires
      var r := Within(h, Careful, s.body, at, turns - 1);
      && (!GoesOn(r.how) ==> !Left(r).how.WentWrong?)
      && (GoesOn(r.how) ==> !Strays(Careful, s, at, r.st) && !ForTurns(h, Careful, s, Span(a, b), Num(i), r.st, turns - 1).how.WentWrong?)
    ensures
      var r := Within(h, Careful, s.body, at, turns - 1);
      var q := Leave(Moved(h, s.value, Num(Sign(a, b)), Exec(h, WrittenOut, s.body, at, turns - 1)), |at.locals|);
      AlikeOutside(m, if GoesOn(r.how) then ForTurns(h, Careful, s, Span(a, b), Num(i), r.st, turns - 1) else Left(r),
        if GoesOn(q.how) then CountTurns(h, WrittenOut, s, Num(Width(a, b)), Num(Sign(a, b)), i + 1, q.st, turns - 1) else Left(q))
    decreases turns, s, 0, 0
  {
    hide *;
    BodyStays(s);
    var r := Within(h, Careful, s.body, at, turns - 1);
    LeftWrong(r);
    NoNewLocal(h, WrittenOut, s.body, at, turns - 1);
    CarefulWithin(h, WrittenOut, s.body, at, turns - 1);
    var q := Moved(h, s.value, Num(Sign(a, b)), r);
    MovedIs(h, s.value, Num(Sign(a, b)), r);
    LeaveMoved(at, r, q);
    KeepsLength(at, r, m);
    if GoesOn(r.how) {
      StaysPut(s, at, r.st, m, Num(ValueAt(a, b, i)));
      NextValueExactly(h, s, r.st, m, a, b, i, ValueAt(a, b, i));
      KeyIs(i);
      AheadIs(s, m, r.st, ValueAt(a, b, i + 1));
      CountsLikeRange(h, s, a, b, i + 1, m, r.st, turns - 1);
    } else {
      SelfOutside(m, Left(r));
    }
  }

  lemma {:induction false} MovedIs(h: Host, x: Name, step: Value, r: Ended)
    ensures
      var d := MoveOn(h, x, step, r.st);
      && (!GoesOn(r.how) ==> Moved(h, x, step, r) == r)
      && (GoesOn(r.how) && d.res.Ok? ==> Moved(h, x, step, r) == Ended(Normal, d.st) && GoesOn(Normal))
  {
    hide MoveOn;
  }

  lemma {:induction false} LeaveMoved(at: State, r: Ended, q: Ended)
    requires SameNames(at.locals, r.st.locals) && SameNames(r.st.locals, q.st.locals)
    ensures |at.locals| <= |q.st.locals| && Leave(q, |at.locals|) == q
  {
  }

  lemma {:induction false} KeyIs(i: nat)
    ensures KeyBefore(i + 1) == Num(i)
  {
  }

  lemma {:induction false} KeepsLength(at: State, r: Ended, m: nat)
    requires SameNames(at.locals, r.st.locals) && |at.locals| == m + 1
    ensures |r.st.locals| == m + 1 && |Left(r).st.locals| == m + 1
  {
  }

  lemma {:induction false} BodyStays(s: Stmt)
    requires Counts(s) && Enclosed(s)
    ensures s.For? && s.key.None? && Enclosed(s.body) && !Declares(s.body)
  {
  }

  lemma {:induction false} LeftWrong(r: Ended)
    ensures r.how.WentWrong? ==> !GoesOn(r.how) && Left(r).how.WentWrong?
  {
  }

  /** A variable that reads the same is the same. */
  lemma {:induction false} StaysPut(s: Stmt, at: State, st: State, m: nat, v: Value)
    requires s.For? && |at.locals| == m + 1 && at.locals[m] == Binding(s.value, v) && SameNames(at.locals, st.locals)
    requires Counts(s) && !Strays(Careful, s, at, st)
    ensures |st.locals| == m + 1 && st.locals[m] == Binding(s.value, v)
  {
    LookupGone(at.locals, s.value, m);
    LookupGone(st.locals, s.value, m);
  }
}
