/** The counting loop that stands for a `for` over a range in its header, and the locals it keeps for itself. */
module CountLoop {
  import opened Shapes
  import opened Values
  import opened Surface
  import opened Lower
  import opened Erasure
  import opened LowerExprs
  import opened ExecFacts
  import opened LowerFor

  /** The bounds, the number of turns and the step, whatever values they are. */
  datatype Limits = Limits(lower: Value, upper: Value, count: Value, step: Value)

  /** What the loop keeps for itself before turn `i`. */
  function Counters(c: Limits, i: nat): seq<Binding> {
    [Binding(LowerName, c.lower), Binding(UpperName, c.upper), Binding(CountName, c.count), Binding(StepName, c.step), Binding(TurnName, Num(i))]
  }

  /** They stand from position `n` on; then come the loop's variable and what its body declares. */
  ghost predicate Counting(t: State, n: nat, x: Name, c: Limits, i: nat) {
    && |t.locals| >= n + 6 && t.locals[n..n + 5] == Counters(c, i)
    && t.locals[n + 5].name == x && forall k :: n + 5 <= k < |t.locals| ==> t.locals[k].name.User?
  }

  lemma {:induction false} CountersDiffer(c: Limits, i: nat, j: nat, k: nat)
    requires j <= k < 5
    ensures Counters(c, i)[j].name.Hidden? && (Counters(c, i)[j].name == Counters(c, i)[k].name ==> j == k)
  {
  }

  lemma {:induction false} CountingAt(t: State, n: nat, x: Name, c: Limits, i: nat, j: nat)
    requires Counting(t, n, x, c, i) && j < 5
    ensures t.locals[n + j] == Counters(c, i)[j]
    ensures
      var name := t.locals[n + j].name;
      Read(name, t) == Did(Ok(t.locals[n + j].val), t)
    ensures
      var name := t.locals[n + j].name;
      forall v :: Write(name, v, t) == Did(Ok(v), t.(locals := t.locals[n + j := Binding(name, v)]))
  {
    var c5 := Counters(c, i);
    forall k | 0 <= k < 5 ensures t.locals[n + k] == c5[k] {
      assert t.locals[n..n + 5][k] == c5[k];
    }
    forall k | n + j < k < |t.locals| ensures t.locals[k].name != t.locals[n + j].name {
      if k < n + 5 {
        CountersDiffer(c, i, j, k - n);
        assert t.locals[n + (k - n)] == c5[k - n];
      } else {
        CountersDiffer(c, i, j, j);
      }
    }
    LookupGone(t.locals, t.locals[n + j].name, n + j);
  }

  /** Changing no hidden variable leaves the counters in place. */
  lemma {:induction false} CountingKeeps(t: State, t1: State, n: nat, x: Name, c: Limits, i: nat)
    requires Counting(t, n, x, c, i) && KeepsHidden(t.locals, t1.locals)
    requires forall k :: |t.locals| <= k < |t1.locals| ==> t1.locals[k].name.User?
    ensures Counting(t1, n, x, c, i)
  {
    forall j | 0 <= j < 5 ensures t1.locals[n..n + 5][j] == Counters(c, i)[j] {
      CountingAt(t, n, x, c, i, j);
    }
  }

  lemma {:induction false} CountingLeaves(t: State, m: nat, n: nat, x: Name, c: Limits, i: nat)
    requires Counting(t, n, x, c, i) && n + 6 <= m <= |t.locals|
    ensures Counting(t.(locals := t.locals[..m]), n, x, c, i)
  {
    assert t.locals[..m][n..n + 5] == t.locals[n..n + 5];
  }

  // The test.

  lemma {:induction false} CountedTest(h: Host, t: State, n: nat, x: Name, c: Limits, i: nat)
    requires Counting(t, n, x, c, i)
    ensures Eval(h, Meant, Op(Cmp(Lt), [Ident(TurnName), Ident(CountName)]), t) == Apply(h, Cmp(Lt), [Num(i), c.count], t)
  {
    hide Eval, Read, Write, Lookup, Apply;
    CountingAt(t, n, x, c, i, 4);
    CountingAt(t, n, x, c, i, 2);
    IdentIs(h, TurnName, t);
    IdentIs(h, CountName, t);
    OpTwo(h, Meant, Cmp(Lt), Ident(TurnName), Ident(CountName), t);
  }

  // The end of a turn.

  function CountSteps(x: Name): seq<Expr> {
    [ Assign(Ident(x), Op(Bin(Add), [Ident(x), Ident(StepName)])), Assign(Ident(TurnName), Op(Bin(Add), [Ident(TurnName), Lit(Num(1))])) ]
  }

  lemma {:induction false} CountedBodyIs(x: Name, body: Stmt)
    ensures CountedBody(x, body) == IterBody(CountSteps(x), body)
  {
    assert AsStmts(CountSteps(x)) == [Expression(CountSteps(x)[0]), Expression(CountSteps(x)[1])];
  }

  /** The variable moves on by the step, whatever is in it. */
  lemma {:induction false} StepX(h: Host, t: State, n: nat, x: Name, c: Limits, i: nat)
    requires Counting(t, n, x, c, i)
    ensures Eval(h, Meant, CountSteps(x)[0], t) == MoveOn(h, x, c.step, t)
  {
    CountingAt(t, n, x, c, i, 3);
    ReadStays(x, t);
    hide Eval, Write, Read, Apply;
    OpTwo(h, Meant, Bin(Add), Ident(x), Ident(StepName), t);
    AssignVar(h, Meant, x, Op(Bin(Add), [Ident(x), Ident(StepName)]), t);
    IdentIs(h, x, t);
    IdentIs(h, StepName, t);
  }

  /** The turn is counted. */
  lemma {:induction false} StepTurn(h: Host, t: State, n: nat, x: Name, c: Limits, i: nat)
    requires Counting(t, n, x, c, i)
    ensures
      var t1 := t.(locals := t.locals[n + 4 := Binding(TurnName, Num(i + 1))]);
      && Eval(h, Meant, CountSteps(x)[1], t) == Did(Ok(Num(i + 1)), t1)
      && Counting(t1, n, x, c, i + 1) && t1.locals[..n] == t.locals[..n]
  {
    CountingAt(t, n, x, c, i, 4);
    IdentIs(h, TurnName, t);
    OneIs(h, t);
    OpTwo(h, Meant, Bin(Add), Ident(TurnName), Lit(Num(1)), t);
    AssignVar(h, Meant, TurnName, Op(Bin(Add), [Ident(TurnName), Lit(Num(1))]), t);
    hide Eval, Lookup, Store;
    var t1 := t.(locals := t.locals[n + 4 := Binding(TurnName, Num(i + 1))]);
    assert t1.locals[n..n + 5] == t.locals[n..n + 5][4 := Binding(TurnName, Num(i + 1))];
  }

  lemma {:induction false} OneIs(h: Host, t: State)
    ensures Eval(h, Meant, Lit(Num(1)), t) == Did(Ok(Num(1)), t)
  {
  }

  /** After the steps of a turn the loop is ready for the next. */
  lemma {:induction false} CountStepsIs(h: Host, t0: State, t: State, st: State, n: nat, x: Name, c: Limits, i: nat)
    requires Counting(t, n, x, c, i) && Shows(t, st) && KeepsHidden(t0.locals, t.locals) && |t0.locals| == n
    ensures
      var p := EvalAll(h, Meant, CountSteps(x), t);
      var d := MoveOn(h, x, c.step, st);
      && (p.stop == if d.res.Ok? then None else Some(d.res))
      && Shows(p.st, d.st) && KeepsHidden(t0.locals, p.st.locals)
      && (d.res.Ok? ==> Counting(p.st, n, x, c, i + 1))
  {
    NameIsUser(t, n, x, c, i);
    MoveOnMatches(h, x, c.step, t, st);
    var d, d1 := MoveOn(h, x, c.step, st), MoveOn(h, x, c.step, t);
    NoMore(t, d1.st);
    hide Eval, EvalAll, MoveOn, Counting, Shows, KeepsHidden;
    CountingKeeps(t, d1.st, n, x, c, i);
    StepX(h, t, n, x, c, i);
    EvalTwo(h, Meant, CountSteps(x)[0], CountSteps(x)[1], t);
    KeepsTwice(t0.locals, t.locals, d1.st.locals);
    if d.res.Ok? {
      StepTurn(h, d1.st, n, x, c, i);
      TurnShows(t0, d1.st, d.st, n, x, c, i);
    }
  }

  lemma {:induction false} NameIsUser(t: State, n: nat, x: Name, c: Limits, i: nat)
    requires Counting(t, n, x, c, i)
    ensures x.User?
  {
  }

  lemma {:induction false} NoMore(t: State, t1: State)
    requires SameNames(t.locals, t1.locals)
    ensures forall k :: |t.locals| <= k < |t1.locals| ==> t1.locals[k].name.User?
  {
  }

  lemma {:induction false} TurnShows(t0: State, t: State, st: State, n: nat, x: Name, c: Limits, i: nat)
    requires Counting(t, n, x, c, i) && Shows(t, st) && KeepsHidden(t0.locals, t.locals) && |t0.locals| == n
    ensures
      var t1 := t.(locals := t.locals[n + 4 := Binding(TurnName, Num(i + 1))]);
      Shows(t1, st) && KeepsHidden(t0.locals, t1.locals)
  {
    CountingAt(t, n, x, c, i, 4);
    InFrontOf(t, n, x, c, i);
    hide *;
    HiddenStoreShows(t, st, n + 4, Num(i + 1));
    KeepsPast(t0.locals, t.locals, n + 4, Num(i + 1));
  }

  lemma {:induction false} InFrontOf(t: State, n: nat, x: Name, c: Limits, i: nat)
    requires Counting(t, n, x, c, i)
    ensures n + 6 <= |t.locals| && Counters(c, i)[4].name == TurnName
  {
  }

  lemma {:induction false} KeepsPast(a: seq<Binding>, b: seq<Binding>, j: nat, v: Value)
    requires KeepsHidden(a, b) && |a| <= j < |b|
    ensures KeepsHidden(a, b[j := Binding(b[j].name, v)])
  {
  }

  lemma {:induction false} MoveOnMatches(h: Host, x: Name, step: Value, t: State, st: State)
    requires Shows(t, st) && x.User?
    ensures Matches(t, MoveOn(h, x, step, st), MoveOn(h, x, step, t))
  {
    ReadMatches(x, t, st);
    ReadStays(x, t);
    ReadStays(x, st);
    hide Shows, Apply, Read, Write;
    var cx := Read(x, st);
    if cx.res.Ok? {
      var args := [cx.res.v, step];
      ApplyMatches(h, Bin(Add), args, t, st);
      var r, r1 := Apply(h, Bin(Add), args, st), Apply(h, Bin(Add), args, t);
      if r.res.Ok? {
        WriteMatches(x, r.res.v, r1.st, r.st);
        MatchesFrom(t, r1.st, Write(x, r.res.v, r.st), Write(x, r.res.v, r1.st));
      }
    }
  }

  // Before the first turn.

  ghost predicate Bounded(t: State, n: nat, a: Value, b: Value) {
    && |t.locals| >= n + 2 && t.locals[n] == Binding(LowerName, a) && t.locals[n + 1] == Binding(UpperName, b)
    && forall k :: n + 2 <= k < |t.locals| ==> t.locals[k].name != LowerName && t.locals[k].name != UpperName
  }

  lemma {:induction false} BoundsRead(h: Host, t: State, n: nat, a: Value, b: Value)
    requires Bounded(t, n, a, b)
    ensures Eval(h, Meant, Ident(LowerName), t) == Did(Ok(a), t) && Eval(h, Meant, Ident(UpperName), t) == Did(Ok(b), t)
  {
    LookupGone(t.locals, LowerName, n);
    LookupGone(t.locals, UpperName, n + 1);
    IdentIs(h, LowerName, t);
    IdentIs(h, UpperName, t);
    hide Eval, Lookup, Store;
  }

  lemma {:induction false} BoundsOp(h: Host, t: State, n: nat, a: Value, b: Value, kind: Kind)
    requires Bounded(t, n, a, b)
    ensures Eval(h, Meant, Op(kind, [Ident(UpperName), Ident(LowerName)]), t) == Apply(h, kind, [b, a], t)
    ensures Eval(h, Meant, Op(kind, [Ident(LowerName), Ident(UpperName)]), t) == Apply(h, kind, [a, b], t)
  {
    BoundsRead(h, t, n, a, b);
    hide Eval, Apply;
    OpTwo(h, Meant, kind, Ident(UpperName), Ident(LowerName), t);
    OpTwo(h, Meant, kind, Ident(LowerName), Ident(UpperName), t);
  }

  function CountExpr(): Expr {
    Condition(Ascending(), Op(Bin(Sub), [Ident(UpperName), Ident(LowerName)]), Op(Bin(Sub), [Ident(LowerName), Ident(UpperName)]))
  }

  function StepExpr(): Expr {
    Condition(Ascending(), Lit(Num(1)), Lit(Num(-1)))
  }

  lemma {:induction false} ConditionIs(h: Host, c: Expr, yes: Expr, no: Expr, t: State)
    ensures
      var d := Eval(h, Meant, c, t);
      Eval(h, Meant, Condition(c, yes, no), t) == if !d.res.Ok? then d else if Falsey(d.res.v) then Eval(h, Meant, no, d.st) else Eval(h, Meant, yes, d.st)
  {
  }

  lemma {:induction false} StaysBounded(h: Host, t: State, n: nat, a: Value, b: Value, kind: Kind, args: seq<Value>)
    requires Bounded(t, n, a, b)
    ensures Bounded(Apply(h, kind, args, t).st, n, a, b)
  {
  }

  lemma {:induction false} CountExprIs(h: Host, t: State, n: nat, a: Value, b: Value)
    requires Bounded(t, n, a, b)
    ensures Eval(h, Meant, CountExpr(), t) == CountOf(h, a, b, t)
  {
    var up, down := Op(Bin(Sub), [Ident(UpperName), Ident(LowerName)]), Op(Bin(Sub), [Ident(LowerName), Ident(UpperName)]);
    hide Eval, Apply, Bounded;
    BoundsOp(h, t, n, a, b, Cmp(Ge));
    ConditionIs(h, Ascending(), up, down, t);
    StaysBounded(h, t, n, a, b, Cmp(Ge), [b, a]);
    BoundsOp(h, Apply(h, Cmp(Ge), [b, a], t).st, n, a, b, Bin(Sub));
  }

  lemma {:induction false} StepExprIs(h: Host, t: State, n: nat, a: Value, b: Value)
    requires Bounded(t, n, a, b)
    ensures Eval(h, Meant, StepExpr(), t) == StepOf(h, a, b, t)
  {
    LitsAre(h);
    hide Eval, Apply, Bounded;
    BoundsOp(h, t, n, a, b, Cmp(Ge));
    ConditionIs(h, Ascending(), Lit(Num(1)), Lit(Num(-1)), t);
  }

  lemma {:induction false} LitsAre(h: Host)
    ensures forall v, t :: Eval(h, Meant, Lit(v), t) == Did(Ok(v), t)
  {
  }

  /** A declaration and the rest. */
  lemma {:induction false} VarFront(h: Host, name: Name, e: Expr, rest: seq<Stmt>, t: State, turns: nat)
    requires forall i :: 0 <= i < |rest| ==> !rest[i].FixContinue?
    ensures
      var d := Eval(h, Meant, e, t);
      ExecSeq(h, Meant, [Var(name, e)] + rest, t, turns) == if d.res.Ok? then ExecSeq(h, Meant, rest, Bind(d.st, name, d.res.v), turns) else Failed(d.res, d.st)
  {
    hide Eval, Exec, ExecSeq;
    SeqFront(h, Meant, Var(name, e), rest, t, turns);
    SimpleIs(h, Meant, Var(name, e), t, turns);
  }
}
