/** What running each statement comes to, one step at a time. */
module ExecFacts {
  import opened Shapes
  import opened Values
  import opened Surface

  /** A statement that leaves a new local in the scope it stands in. */
  predicate Declares(s: Stmt) {
    match s
    case Var(_, _) => true
    case Catch(_, _, binds) => binds.Some?
    case If(_, t, f) => Declares(t) || (f.Some? && Declares(f.value))
    case _ => false
  }

  /** A `for` loop changes its variable in a turn it must not. */
  predicate Strays(reading: Reading, s: Stmt, a: State, b: State)
    requires s.For?
  {
    reading.Careful? && Counts(s) && Lookup(b.locals, s.value) != Lookup(a.locals, s.value)
  }

  lemma {:induction false} ForTurnIs(h: Host, reading: Reading, s: Stmt, it: Value, k: Value, st: State, turns: nat)
    requires s.For?
    ensures
      var f := Fetch(h, s, it, k, st);
      ForTurns(h, reading, s, it, k, st, turns) ==
        if turns == 0 then Ended(OutOfTurns, st)
        else if !f.res.Ok? then Failed(f.res, f.st)
        else if f.done then Ended(Normal, f.st)
        else
          var r := Within(h, reading, s.body, f.st, turns - 1);
          if !GoesOn(r.how) then Left(r)
          else if Strays(reading, s, f.st, r.st) then Ended(WentWrong, r.st)
          else ForTurns(h, reading, s, it, f.res.v, r.st, turns - 1)
  {
    hide Fetch, Within, Counts, Lookup;
  }

  lemma {:induction false} CatchIs(h: Host, reading: Reading, s: Stmt, st: State, turns: nat)
    requires s.Catch?
    ensures
      var r := Within(h, reading, s.body, if s.binds.Some? then Bind(st, s.binds.value, Nil) else st, turns);
      Catching(h, reading, s, st, turns) ==
        if !r.how.Raised? then r
        else
          var caught := Leave(r, |st.locals|).st;
          if s.binds.None? then Ended(Normal, caught)
          else
            var bound := Bind(caught, s.binds.value, r.how.err);
            if s.handler.None? then Ended(Normal, bound) else Within(h, reading, s.handler.value, bound, turns)
  {
    hide Within;
  }

  predicate Simple(s: Stmt) {
    s.Expression? || s.Echo? || s.Var? || s.Return? || s.Raise?
  }

  /** What a simple statement makes of its expression. */
  function Finish(s: Stmt, d: Did): Ended
    requires Simple(s)
  {
    if !d.res.Ok? then Failed(d.res, d.st)
    else
      match s
      case Expression(_) => Ended(Normal, d.st)
      case Echo(_) => Ended(Normal, d.st.(log := d.st.log + [Printed(d.res.v)]))
      case Var(name, _) => Ended(Normal, d.st.(locals := d.st.locals + [Binding(name, d.res.v)]))
      case Return(_) => Ended(Returned(d.res.v), d.st)
      case Raise(_) => Ended(Raised(Thrown(d.res.v)), d.st)
  }

  lemma {:induction false} SimpleIs(h: Host, reading: Reading, s: Stmt, st: State, turns: nat)
    requires Simple(s)
    ensures Exec(h, reading, s, st, turns) == Finish(s, Eval(h, reading, s.e, st))
  {
    hide Eval;
  }

  lemma {:induction false} SeqIs(h: Host, reading: Reading, ss: seq<Stmt>, st: State, turns: nat)
    requires ss != []
    ensures
      var n := |ss| - 1;
      var r := ExecSeq(h, reading, ss[..n], st, turns);
      ExecSeq(h, reading, ss, st, turns) ==
        if ss[n].FixContinue? then (if r.how.Continued? then Ended(Normal, r.st) else r)
        else if r.how.Normal? then Exec(h, reading, ss[n], r.st, turns)
        else r
  {
    hide Exec;
  }

  lemma {:induction false} IfIs(h: Host, reading: Reading, s: Stmt, st: State, turns: nat)
    requires s.If?
    ensures
      var d := Eval(h, reading, s.cond, st);
      Exec(h, reading, s, st, turns) ==
        if !d.res.Ok? then Failed(d.res, d.st)
        else if !Falsey(d.res.v) then Exec(h, reading, s.thenB, d.st, turns)
        else if s.elseB.Some? then Exec(h, reading, s.elseB.value, d.st, turns)
        else Ended(Normal, d.st)
  {
    hide Eval;
  }

  lemma {:induction false} WhileIs(h: Host, reading: Reading, s: Stmt, st: State, turns: nat)
    requires s.While?
    ensures
      var d := Eval(h, reading, s.cond, st);
      Exec(h, reading, s, st, turns) ==
        if turns == 0 then Ended(OutOfTurns, st)
        else if !d.res.Ok? then Failed(d.res, d.st)
        else if Falsey(d.res.v) then Ended(Normal, d.st)
        else
          var r := Within(h, reading, s.body, d.st, turns - 1);
          if GoesOn(r.how) then Exec(h, reading, s, r.st, turns - 1) else Left(r)
  {
    hide Eval;
  }

  lemma {:induction false} DoIs(h: Host, reading: Reading, s: Stmt, st: State, turns: nat)
    requires s.DoWhile?
    ensures
      var r := Within(h, reading, s.body, st, turns);
      DoTurns(h, reading, s, st, turns) == if GoesOn(r.how) then DoRest(h, reading, s, r.st, turns) else Left(r)
  {
    hide Within, DoRest;
  }

  lemma {:induction false} SeqTwo(h: Host, reading: Reading, a: Stmt, b: Stmt, st: State, turns: nat)
    requires !a.FixContinue? && !b.FixContinue?
    ensures
      var r := Exec(h, reading, a, st, turns);
      ExecSeq(h, reading, [a, b], st, turns) == if r.how.Normal? then Exec(h, reading, b, r.st, turns) else r
  {
    hide Exec;
    assert [a, b][..1] == [a] && [a][..0] == [];
    SeqIs(h, reading, [a, b], st, turns);
    SeqIs(h, reading, [a], st, turns);
    assert ExecSeq(h, reading, [], st, turns) == Ended(Normal, st);
  }

  /** A statement that declares nothing leaves no new local. */
  lemma {:induction false} NoNewLocal(h: Host, reading: Reading, s: Stmt, st: State, turns: nat)
    requires !Declares(s)
    ensures SameNames(st.locals, Exec(h, reading, s, st, turns).st.locals)
    ensures Within(h, reading, s, st, turns) == Exec(h, reading, s, st, turns)
    decreases turns, s
  {
    hide Eval;
    if s.While? && turns > 0 {
      NoNewLocal(h, reading, s, Within(h, reading, s.body, Eval(h, reading, s.cond, st).st, turns - 1).st, turns - 1);
    } else if s.If? {
      IfIs(h, reading, s, st, turns);
      var d := Eval(h, reading, s.cond, st);
      NoNewLocal(h, reading, s.thenB, d.st, turns);
      if s.elseB.Some? { NoNewLocal(h, reading, s.elseB.value, d.st, turns); }
    }
  }

  lemma {:induction false} LeaveNothing(r: Ended, st: State)
    requires SameNames(st.locals, r.st.locals)
    ensures Leave(r, |st.locals|) == r
  {
  }

  lemma {:induction false} IterIs(h: Host, reading: Reading, s: Stmt, st: State, turns: nat)
    requires s.Iter?
    ensures
      var d := if s.test.None? then Did(Ok(Bool(true)), st) else Eval(h, reading, s.test.value, st);
      IterTurns(h, reading, s, st, turns) ==
        if turns == 0 then Ended(OutOfTurns, st)
        else if !d.res.Ok? then Failed(d.res, d.st)
        else if Falsey(d.res.v) then Ended(Normal, d.st)
        else
          var r := Within(h, reading, s.body, d.st, turns - 1);
          var p := EvalAll(h, reading, s.steps, r.st);
          if !GoesOn(r.how) then Left(r)
          else if p.stop.Some? then Failed(p.stop.value, p.st)
          else IterTurns(h, reading, s, p.st, turns - 1)
  {
    hide Eval, EvalAll, Within;
  }

  lemma {:induction false} SeqOne(h: Host, reading: Reading, a: Stmt, st: State, turns: nat)
    requires !a.FixContinue?
    ensures ExecSeq(h, reading, [a], st, turns) == Exec(h, reading, a, st, turns)
  {
    hide Exec;
    assert [a][..0] == [];
    SeqIs(h, reading, [a], st, turns);
    assert ExecSeq(h, reading, [], st, turns) == Ended(Normal, st);
  }

  lemma {:induction false} SeqSnoc(h: Host, reading: Reading, ss: seq<Stmt>, a: Stmt, st: State, turns: nat)
    requires !a.FixContinue?
    ensures
      var r := ExecSeq(h, reading, ss, st, turns);
      ExecSeq(h, reading, ss + [a], st, turns) == if r.how.Normal? then Exec(h, reading, a, r.st, turns) else r
  {
    assert (ss + [a])[..|ss|] == ss;
    hide Exec;
  }

  /** The first of several statements. */
  lemma {:induction false} SeqFront(h: Host, reading: Reading, a: Stmt, rest: seq<Stmt>, st: State, turns: nat)
    requires !a.FixContinue? && forall i :: 0 <= i < |rest| ==> !rest[i].FixContinue?
    ensures
      var r := Exec(h, reading, a, st, turns);
      ExecSeq(h, reading, [a] + rest, st, turns) == if r.how.Normal? then ExecSeq(h, reading, rest, r.st, turns) else r
    decreases |rest|
  {
    var r := Exec(h, reading, a, st, turns);
    assert ExecSeq(h, reading, [], st, turns) == Ended(Normal, st) && ExecSeq(h, reading, [], r.st, turns) == Ended(Normal, r.st);
    hide Exec, ExecSeq;
    if rest == [] {
      SeqSnoc(h, reading, [], a, st, turns);
      assert [a] + rest == [] + [a];
    } else {
      var n := |rest| - 1;
      SeqFront(h, reading, a, rest[..n], st, turns);
      SeqSnoc(h, reading, [a] + rest[..n], rest[n], st, turns);
      SeqSnoc(h, reading, rest[..n], rest[n], r.st, turns);
      assert [a] + rest[..n] + [rest[n]] == [a] + rest && rest[..n] + [rest[n]] == rest;
    }
  }

  lemma {:induction false} CountTurnIs(h: Host, reading: Reading, s: Stmt, count: Value, step: Value, i: nat, st: State, turns: nat)
    requires s.For?
    ensures
      var more := Apply(h, Cmp(Lt), [Num(i), count], st);
      CountTurns(h, reading, s, count, step, i, st, turns) ==
        if turns == 0 then Ended(OutOfTurns, st)
        else if !more.res.Ok? then Failed(more.res, more.st)
        else if Falsey(more.res.v) then Ended(Normal, more.st)
        else
          var q := Leave(Moved(h, s.value, step, Exec(h, reading, s.body, more.st, turns - 1)), |more.st.locals|);
          if GoesOn(q.how) then CountTurns(h, reading, s, count, step, i + 1, q.st, turns - 1) else Left(q)
  {
    hide Apply, Exec, Moved;
  }

  lemma {:induction false} ForIs(h: Host, reading: Reading, s: Stmt, st: State, turns: nat)
    requires s.For? && !(reading.WrittenOut? && Counts(s))
    ensures
      var d := Eval(h, reading, s.iterable, st);
      Exec(h, reading, s, st, turns) ==
        if reading.Careful? && Counts(s) && !NumericBounds(h, s, st) then Ended(WentWrong, st)
        else if !d.res.Ok? then Failed(d.res, d.st)
        else
          var vars := Bind(if s.key.Some? then Bind(d.st, s.key.value, Nil) else d.st, s.value, Nil);
          Leave(ForTurns(h, reading, s, d.res.v, Nil, vars, turns), |st.locals|)
  {
    hide Eval, ForTurns, NumericBounds;
  }
}
