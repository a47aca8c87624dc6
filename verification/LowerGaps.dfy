/** Where lowering changes what a program means, and exactly when it does not. */
module LowerGaps {
  import opened Shapes
  import opened Values
  import opened Surface
  import opened Lower
  import opened Erasure
  import opened LowerExprs
  import opened ExecFacts
  import opened RangeLoop
  import opened Readings
  import opened LowerSound

  /** A `do` loop whose body declares nothing keeps its meaning exactly when the first run of the
      body, which is written out before the loop, does not end with `break` or `continue`. */
  lemma {:induction false} DoKeepsMeaningExactly(h: Host, s: Stmt, st: State, turns: nat)
    requires FineDo(s) && Enclosed(s.body) && !Declares(s.body) && forall i :: 0 <= i < |st.locals| ==> st.locals[i].name.User?
    requires !Exec(h, Careful, s, st, turns).how.WentWrong?
    ensures
      var first := Exec(h, Meant, s.body, st, turns).how;
      Exec(h, Meant, LowerStmt(s), st, turns).how == Exec(h, Meant, s, st, turns).how <==> !first.Broke? && !first.Continued?
  {
    DoFirst(h, s, st, turns);
    assert FineStmt(s);
    hide Eval, Exec, DoTurns, DoRest, Within, FineStmt, FineExpr, Enclosed, Declares, LowerStmt;
    LoweringWritesOut(h, s, st, turns);
    CarefulIsAny(h, Meant, s, st, turns);
    CarefulIsAny(h, Meant, s.body, st, turns);
    CarefulIsAny(h, WrittenOut, s.body, st, turns);
    var r := Exec(h, Careful, s.body, st, turns);
    DoExec(h, Careful, s, st, turns);
    DoExec(h, Meant, s, st, turns);
    DoNeverJumps(h, Meant, s, st, turns);
    DoWrittenOutIs(h, s, st, turns);
    DoIs(h, Careful, s, st, turns);
    NoNewLocal(h, Careful, s.body, st, turns);
    if r.how.Normal? { CarefulRest(h, WrittenOut, s, r.st, turns); }
  }

  /** A `do` whose body went wrong went wrong. */
  lemma {:induction false} DoFirst(h: Host, s: Stmt, st: State, turns: nat)
    requires s.DoWhile? && !Exec(h, Careful, s, st, turns).how.WentWrong?
    ensures !Exec(h, Careful, s.body, st, turns).how.WentWrong?
  {
    assert Exec(h, Careful, s, st, turns) == DoTurns(h, Careful, s, st, turns);
    DoIs(h, Careful, s, st, turns);
    hide Exec, DoTurns, DoRest;
  }

  /** `do { break } while true` is lowered to a block that breaks out of the loop around it. */
  lemma {:induction false} DoGap(h: Host, st: State)
    ensures
      var s := DoWhile(Block([Break]), Lit(Bool(true)));
      Exec(h, Meant, s, st, 1).how == Normal && Exec(h, Meant, LowerStmt(s), st, 1).how == Broke
  {
    var s := DoWhile(Block([Break]), Lit(Bool(true)));
    hide Exec, ExecSeq, DoTurns, LowerStmt, Eval, FineStmt, FineExpr, Within;
    BreakBlock(h, st);
    DoExec(h, Meant, s, st, 1);
    assert FineExpr(Lit(Bool(true))) by { LitIsFine(Bool(true)); }
    DoBlockIs(h, s, st, 1);
    DoIs(h, Meant, s, st, 1);
  }

  lemma {:induction false} LitIsFine(v: Value)
    ensures FineExpr(Lit(v))
  {
  }

  lemma {:induction false} BreakBlock(h: Host, st: State)
    ensures LowerStmt(Block([Break])) == Block([Break]) && FineStmt(Block([Break]))
    ensures Exec(h, Meant, Block([Break]), st, 1).how == Broke && Within(h, Meant, Block([Break]), st, 1).how == Broke
  {
    assert [Break][..0] == [];
    assert LowerStmts([Break]) == [] + [Break];
    SeqOne(h, Meant, Break, st, 1);
  }

  // A range in the header.

  const Turn := User("i")
  const Five := Op(Bin(Add), [Ident(Turn), Lit(Num(5))])

  /** `for var i in 0..2 { echo i = i + 5 }` */
  function Adding(): Stmt {
    For(None, Turn, Op(RangeOf, [Lit(Num(0)), Lit(Num(2))]), Echo(Assign(Ident(Turn), Five)))
  }

  /** After a turn that left the variable at `v`. */
  function AddedTo(st: State, v: int): State
    requires st.locals != []
  {
    State(st.locals[|st.locals| - 1 := Binding(Turn, Num(v))], st.globals, st.log + [Printed(Num(v))])
  }

  predicate TurnAt(st: State, m: nat, v: int) {
    |st.locals| == m + 1 && st.locals[m] == Binding(Turn, Num(v))
  }

  lemma {:induction false} AddingTurn(h: Host, reading: Reading, st: State, m: nat, v: int, turns: nat)
    requires TurnAt(st, m, v)
    ensures
      var r := Ended(Normal, AddedTo(st, v + 5));
      Exec(h, reading, Adding().body, st, turns) == r && Within(h, reading, Adding().body, st, turns) == r
  {
    LookupGone(st.locals, Turn, m);
    OpTwo(h, reading, Bin(Add), Ident(Turn), Lit(Num(5)), st);
    assert Eval(h, reading, Five, st) == Did(Ok(Num(v + 5)), st);
    assert Eval(h, reading, Assign(Ident(Turn), Five), st) == Did(Ok(Num(v + 5)), st.(locals := st.locals[m := Binding(Turn, Num(v + 5))]));
    NoNewLocal(h, reading, Adding().body, st, turns);
  }

  /** By the range's protocol: the next value is the next of the range, whatever the turn did. */
  lemma {:induction false} AddingByRange(h: Host, st: State, m: nat, i: nat, turns: nat)
    requires |st.locals| == m + 1 && st.locals[m].name == Turn && i < 2 && turns > 0
    ensures
      var at := st.(locals := st.locals[m := Binding(Turn, Num(i))]);
      ForTurns(h, Meant, Adding(), Span(0, 2), KeyBefore(i), st, turns) == ForTurns(h, Meant, Adding(), Span(0, 2), KeyBefore(i + 1), AddedTo(at, i + 5), turns - 1)
  {
    var at := st.(locals := st.locals[m := Binding(Turn, Num(i))]);
    assert ValueAt(0, 2, i) == i && Width(0, 2) == 2;
    hide Fetch, Within, Exec, ForTurns, AddedTo;
    ForTurnIs(h, Meant, Adding(), Span(0, 2), KeyBefore(i), st, turns);
    RangeFetch(h, Adding(), st, m, 0, 2, i);
    AddingTurn(h, Meant, at, m, i, turns - 1);
  }

  /** Counting: the next value is one more than what the turn left. */
  lemma {:induction false} AddingByCount(h: Host, st: State, m: nat, i: nat, v: int, turns: nat)
    requires TurnAt(st, m, v) && i < 2 && turns > 0
    ensures
      var moved := AddedTo(st, v + 5).(locals := st.locals[m := Binding(Turn, Num(v + 6))]);
      CountTurns(h, WrittenOut, Adding(), Num(2), Num(1), i, st, turns) == CountTurns(h, WrittenOut, Adding(), Num(2), Num(1), i + 1, moved, turns - 1)
  {
    AddingCounts();
    hide *;
    StillTurns(h, i, st);
    CountTurnIs(h, WrittenOut, Adding(), Num(2), Num(1), i, st, turns);
    AddingTurn(h, WrittenOut, st, m, v, turns - 1);
    AddingMoves(h, st, m, v);
  }

  lemma {:induction false} AddingCounts()
    ensures Adding().For?
  {
  }

  lemma {:induction false} StillTurns(h: Host, i: nat, st: State)
    requires i < 2
    ensures
      var more := Apply(h, Cmp(Lt), [Num(i), Num(2)], st);
      more == Did(Ok(Bool(true)), st) && !Falsey(Bool(true))
  {
    NumbersCount(h, 0, 2, st);
    assert Width(0, 2) == 2;
    assert [Num(i), Num(2)] == [Num(i), Num(Width(0, 2))];
  }

  /** The end of such a turn. */
  lemma {:induction false} AddingMoves(h: Host, st: State, m: nat, v: int)
    requires TurnAt(st, m, v)
    ensures
      var r := AddedTo(st, v + 5);
      var moved := r.(locals := st.locals[m := Binding(Turn, Num(v + 6))]);
      var q := Leave(Moved(h, Adding().value, Num(1), Ended(Normal, r)), |st.locals|);
      st.locals != [] && q == Ended(Normal, moved) && GoesOn(q.how)
  {
    var r := AddedTo(st, v + 5);
    LookupGone(r.locals, Turn, m);
    assert MoveOn(h, Turn, Num(1), r) == Did(Ok(Num(v + 6)), r.(locals := st.locals[m := Binding(Turn, Num(v + 6))]));
  }

  /** It prints 5 and 6, and once lowered 5 and 11. */
  lemma {:induction false} RangeGap(h: Host, st: State)
    requires forall i :: 0 <= i < |st.locals| ==> st.locals[i].name.User?
    ensures
      var r, r1 := Exec(h, Meant, Adding(), st, 3), Exec(h, Meant, LowerStmt(Adding()), st, 3);
      && r.how == r1.how == Normal
      && r.st.log == st.log + [Printed(Num(5)), Printed(Num(6))]
      && r1.st.log == st.log + [Printed(Num(5)), Printed(Num(11))]
  {
    AddingMeans(h, st);
    AddingWrittenOut(h, st);
    hide Exec;
    LoweringWritesOut(h, Adding(), st, 3);
  }

  lemma {:induction false} AddingMeans(h: Host, st: State)
    ensures
      var r := Exec(h, Meant, Adding(), st, 3);
      r.how == Normal && r.st.log == st.log + [Printed(Num(5)), Printed(Num(6))]
  {
    var s, m := Adding(), |st.locals|;
    var s0 := Bind(st, Turn, Nil);
    hide Fetch, Within, Exec, ForTurns, CountTurns;
    ForIs(h, Meant, s, st, 3);
    OpTwo(h, Meant, RangeOf, Lit(Num(0)), Lit(Num(2)), st);
    AddingByRange(h, s0, m, 0, 3);
    var s1 := AddedTo(s0.(locals := s0.locals[m := Binding(Turn, Num(0))]), 5);
    AddingByRange(h, s1, m, 1, 2);
    var s2 := AddedTo(s1.(locals := s1.locals[m := Binding(Turn, Num(1))]), 6);
    RangeFetch(h, s, s2, m, 0, 2, 2);
    ForTurnIs(h, Meant, s, Span(0, 2), KeyBefore(2), s2, 1);
  }

  lemma {:induction false} AddingWrittenOut(h: Host, st: State)
    ensures
      var r := Exec(h, WrittenOut, Adding(), st, 3);
      r.how == Normal && r.st.log == st.log + [Printed(Num(5)), Printed(Num(11))]
  {
    var s, m := Adding(), |st.locals|;
    var s0 := Bind(st, Turn, Num(0));
    hide Exec, CountTurns;
    AddingStarts(h, st);
    AddingByCount(h, s0, m, 0, 0, 3);
    var s1 := AddedTo(s0, 5).(locals := s0.locals[m := Binding(Turn, Num(6))]);
    AddingByCount(h, s1, m, 1, 6, 2);
    var s2 := AddedTo(s1, 11).(locals := s1.locals[m := Binding(Turn, Num(12))]);
    AddingEnds(h, s2);
  }

  lemma {:induction false} AddingStarts(h: Host, st: State)
    ensures
      var s := Adding();
      Exec(h, WrittenOut, s, st, 3) == Leave(CountTurns(h, WrittenOut, s, Num(2), Num(1), 0, Bind(st, Turn, Num(0)), 3), |st.locals|)
  {
    hide *;
    AddingIsCounted(h, st);
    AddingHeader(h, st);
    CountedFrom(h, Adding(), Num(0), Num(2), Num(2), Num(1), st, 3);
  }

  lemma {:induction false} CountedFrom(h: Host, s: Stmt, a: Value, b: Value, count: Value, step: Value, st: State, turns: nat)
    requires Counts(s)
    requires Eval(h, WrittenOut, s.iterable.args[0], st) == Did(Ok(a), st) && Eval(h, WrittenOut, s.iterable.args[1], st) == Did(Ok(b), st)
    requires CountOf(h, a, b, st) == Did(Ok(count), st) && StepOf(h, a, b, st) == Did(Ok(step), st)
    ensures
      s.For? && Counted(h, WrittenOut, s, st, turns) == Leave(CountTurns(h, WrittenOut, s, count, step, 0, Bind(st, s.value, a), turns), |st.locals|)
  {
    hide Eval, CountOf, StepOf, CountTurns;
  }

  lemma {:induction false} AddingHeader(h: Host, st: State)
    ensures
      var s := Adding();
      && Counts(s) && s.value == Turn
      && Eval(h, WrittenOut, s.iterable.args[0], st) == Did(Ok(Num(0)), st) && Eval(h, WrittenOut, s.iterable.args[1], st) == Did(Ok(Num(2)), st)
      && CountOf(h, Num(0), Num(2), st) == Did(Ok(Num(2)), st) && StepOf(h, Num(0), Num(2), st) == Did(Ok(Num(1)), st)
  {
    hide Eval, CountOf, StepOf;
    LitIs(h, Num(0), st);
    LitIs(h, Num(2), st);
    CountsToTwo(h, st);
  }

  lemma {:induction false} LitIs(h: Host, v: Value, st: State)
    ensures Eval(h, WrittenOut, Lit(v), st) == Did(Ok(v), st)
  {
  }

  lemma {:induction false} CountsToTwo(h: Host, st: State)
    ensures CountOf(h, Num(0), Num(2), st) == Did(Ok(Num(2)), st) && StepOf(h, Num(0), Num(2), st) == Did(Ok(Num(1)), st)
  {
    hide *;
    TwoTurns();
    NumbersCount(h, 0, 2, st);
  }

  lemma {:induction false} AddingIsCounted(h: Host, st: State)
    ensures Exec(h, WrittenOut, Adding(), st, 3) == Counted(h, WrittenOut, Adding(), st, 3)
  {
    hide Counted;
  }

  lemma {:induction false} TwoTurns()
    ensures Width(0, 2) == 2 && Sign(0, 2) == 1 && ValueAt(0, 2, 0) == 0 && ValueAt(0, 2, 1) == 1
  {
  }

  lemma {:induction false} AddingEnds(h: Host, st: State)
    ensures CountTurns(h, WrittenOut, Adding(), Num(2), Num(1), 2, st, 1) == Ended(Normal, st)
  {
    NumbersCount(h, 0, 2, st);
    assert Width(0, 2) == 2 && Apply(h, Cmp(Lt), [Num(2), Num(Width(0, 2))], st) == Did(Ok(Bool(false)), st);
    hide Exec, CountTurns, Apply;
    CountTurnIs(h, WrittenOut, Adding(), Num(2), Num(1), 2, st, 1);
  }

  /** A runtime whose objects all have fields that read 0. */
  function Fields(): Host {
    Host((kind: Kind, args: seq<Value>, globals: map<Name, Value>, log: seq<Event>) => Answer(Ok(if kind.Strict? then Obj(0) else Num(0)), globals))
  }

  const Made := Op(Strict(0), [])
  const MadeField := Kind.GetField("f")

  lemma {:induction false} MadeIs(st: State)
    ensures EvalAll(Fields(), Meant, [Made], st) == DidAll([Obj(0)], None, st.(log := st.log + [Event(Strict(0), [])]))
  {
    assert [Made][..0] == [];
    assert EvalAll(Fields(), Meant, [], st) == DidAll([], None, st);
    OpOf(Fields(), Meant, Strict(0), [], st);
    AllSteps(Fields(), Meant, [Made], st);
    assert [] + [Obj(0)] == [Obj(0)];
    hide Eval, EvalAll;
  }

  /** `make().f += 1` asks for the receiver twice once lowered. */
  lemma {:induction false} CompoundGap(st: State)
    ensures
      var e := CompoundAssign(Op(MadeField, [Made]), Add, Lit(Num(1)));
      && |Eval(Fields(), Meant, e, st).st.log| == |st.log| + 3
      && |Eval(Fields(), Meant, LowerExpr(e), st).st.log| == |st.log| + 4
  {
    var h, place := Fields(), Op(MadeField, [Made]);
    var e := CompoundAssign(place, Add, Lit(Num(1)));
    hide Eval, EvalAll, LowerExpr;
    CompoundLowered();
    MadeIs(st);
    UpdatePlace(h, Meant, e, st);
    var st1 := st.(log := st.log + [Event(Strict(0), [])]);
    MadeIs(st1);
    OneIs(h);
    OpOf(h, Meant, MadeField, [Made], st1);
    OpTwo(h, Meant, Bin(Add), place, Lit(Num(1)), st1);
    AssignPlace(h, Meant, MadeField, [Made], Op(Bin(Add), [place, Lit(Num(1))]), st);
  }

  lemma {:induction false} OneIs(h: Host)
    ensures forall t :: Eval(h, Meant, Lit(Num(1)), t) == Did(Ok(Num(1)), t)
  {
  }

  lemma {:induction false} CompoundLowered()
    ensures LowerExpr(CompoundAssign(Op(MadeField, [Made]), Add, Lit(Num(1)))) == AssignWith(Op(MadeField, [Made]), Add, Lit(Num(1)))
  {
    assert [Made][..0] == [];
    assert LowerAll([]) == [];
    assert LowerExpr(Made) == Made;
    assert LowerAll([Made]) == [] + [Made];
    assert LowerExpr(Op(MadeField, [Made])) == Op(MadeField, [Made]);
  }

  // Compound assignment, for every runtime.

  predicate UpdatesPlace(e: Expr) {
    (e.CompoundAssign? || e.Update?) && e.target.Op? && IsPlace(e.target.kind, e.target.args)
  }

  /** The compound assignment with its receiver and index evaluated once; what stands in it is
      read as written out. */
  function Once(h: Host, e: Expr, st: State): Did
    requires UpdatesPlace(e)
  {
    var p := EvalAll(h, WrittenOut, e.target.args, st);
    if p.stop.Some? then Did(p.stop.value, p.st) else Updated(h, e, p.vals, p.vals, p.st)
  }

  /** From reading the place on: the place is read with `vals`, and written to with `place`. */
  function Updated(h: Host, e: Expr, place: seq<Value>, vals: seq<Value>, st: State): Did
    requires UpdatesPlace(e)
  {
    var c := Apply(h, e.target.kind, vals, st);
    if !c.res.Ok? then c
    else
      var v := Operand(h, WrittenOut, e, c.st);
      if !v.res.Ok? then v
      else
        var r := Apply(h, Bin(UpdateOp(e)), [c.res.v, v.res.v], v.st);
        if r.res.Ok? then Answering(Apply(h, Writer(e.target.kind), place + [r.res.v], r.st), r.res.v) else r
  }

  /** Its receiver and index, evaluated again right away, are the same and change nothing. */
  predicate Again(h: Host, e: Expr, st: State)
    requires UpdatesPlace(e)
  {
    var p := EvalAll(h, WrittenOut, e.target.args, st);
    p.stop.None? ==> EvalAll(h, WrittenOut, e.target.args, p.st) == p
  }

  /** Evaluating the operand asks the runtime nothing. */
  ghost predicate Quiet(h: Host, e: Expr)
    requires e.CompoundAssign? || e.Update?
  {
    forall st :: Operand(h, WrittenOut, e, st).st.log == st.log
  }

  /** What the pass makes of it: the receiver and index twice. */
  lemma {:induction false} TwiceIs(h: Host, e: Expr, st: State)
    requires UpdatesPlace(e)
    ensures
      var p := EvalAll(h, WrittenOut, e.target.args, st);
      var q := EvalAll(h, WrittenOut, e.target.args, p.st);
      Eval(h, WrittenOut, e, st) ==
        if p.stop.Some? then Did(p.stop.value, p.st)
        else if q.stop.Some? then Did(q.stop.value, q.st)
        else Updated(h, e, p.vals, q.vals, q.st)
  {
    hide Eval, EvalAll, Operand, Apply;
    UpdatePlace(h, WrittenOut, e, st);
  }

  /** An expression without shorthands has one reading. */
  lemma {:induction false} CoreReads(h: Host, reading: Reading, e: Expr, st: State)
    requires CoreExpr(e)
    ensures Eval(h, reading, e, st) == Eval(h, Meant, e, st)
    decreases e, 1
  {
    match e
    case Op(_, args) => CoreReadsAll(h, reading, args, st);
    case Circuit(a, isAnd, b) =>
      CoreReads(h, reading, a, st);
      CoreReads(h, reading, b, Eval(h, Meant, a, st).st);
    case Condition(c, t, f) =>
      CoreReads(h, reading, c, st);
      CoreReads(h, reading, t, Eval(h, Meant, c, st).st);
      CoreReads(h, reading, f, Eval(h, Meant, c, st).st);
    case Assign(target, value) => CoreReadsAssign(h, reading, e, st);
    case _ =>
  }

  lemma {:induction false} CoreReadsAssign(h: Host, reading: Reading, e: Expr, st: State)
    requires CoreExpr(e) && e.Assign?
    ensures Eval(h, reading, e, st) == Eval(h, Meant, e, st)
    decreases e, 0
  {
    assert forall any: Reading :: Eval(h, any, e, st) == EvalAssign(h, any, e, st);
    if e.target.Op? && IsPlace(e.target.kind, e.target.args) {
      var args := e.target.args;
      assert e == Assign(Op(e.target.kind, args), e.value);
      assert CoreExpr(e.target) && CoreExpr(e.value);
      hide Eval, EvalAll, Apply, CoreExpr;
      AssignPlace(h, reading, e.target.kind, args, e.value, st);
      AssignPlace(h, Meant, e.target.kind, args, e.value, st);
      CoreParts(e.target);
      CoreReadsAll(h, reading, args, st);
      CoreReads(h, reading, e.value, EvalAll(h, Meant, args, st).st);
    } else {
      CoreReads(h, reading, e.value, st);
    }
  }

  lemma {:induction false} CoreParts(e: Expr)
    requires CoreExpr(e) && e.Op?
    ensures forall i :: 0 <= i < |e.args| ==> CoreExpr(e.args[i])
  {
  }

  lemma {:induction false} CoreReadsAll(h: Host, reading: Reading, es: seq<Expr>, st: State)
    requires forall i :: 0 <= i < |es| ==> CoreExpr(es[i])
    ensures EvalAll(h, reading, es, st) == EvalAll(h, Meant, es, st)
    decreases es, 0
  {
    if es != [] {
      hide Eval, CoreExpr;
      var n := |es| - 1;
      CoreReadsAll(h, reading, es[..n], st);
      CoreReads(h, reading, es[n], EvalAll(h, Meant, es[..n], st).st);
    }
  }

  /** Receiver, index and operand have no shorthands in them. */
  predicate PlainParts(e: Expr)
    requires UpdatesPlace(e)
  {
    (forall i :: 0 <= i < |e.target.args| ==> CoreExpr(e.target.args[i])) && (e.CompoundAssign? ==> CoreExpr(e.value))
  }

  /** Then evaluating them once is what the language means. */
  lemma {:induction false} OnceIsMeant(h: Host, e: Expr, st: State)
    requires UpdatesPlace(e) && PlainParts(e)
    ensures Once(h, e, st) == Eval(h, Meant, e, st)
  {
    hide Eval, EvalAll, Apply, CoreExpr;
    UpdatePlace(h, Meant, e, st);
    CoreReadsAll(h, WrittenOut, e.target.args, st);
    var p := EvalAll(h, Meant, e.target.args, st);
    var c := Apply(h, e.target.kind, p.vals, p.st);
    if e.CompoundAssign? { CoreReads(h, WrittenOut, e.value, c.st); }
  }

  lemma {:induction false} ApplyLogs(h: Host, kind: Kind, args: seq<Value>, st: State)
    ensures Apply(h, kind, args, st).st.log == st.log + if BuiltIn(kind, args).Some? then [] else [Event(kind, args)]
    ensures kind.GetField? && |args| == 1 ==> BuiltIn(kind, args).None?
    ensures kind.GetIndex? || kind.SetField? || kind.SetIndex? ==> BuiltIn(kind, args).None?
  {
  }

  /** From reading the place on, everything goes well. */
  ghost predicate GoesWell(h: Host, e: Expr, vals: seq<Value>, st: State)
    requires UpdatesPlace(e)
  {
    var c := Apply(h, e.target.kind, vals, st);
    var v := Operand(h, WrittenOut, e, c.st);
    c.res.Ok? && v.res.Ok? && Apply(h, Bin(UpdateOp(e)), [c.res.v, v.res.v], v.st).res.Ok?
  }

  /** What the runtime is asked from reading the place on, with a quiet operand. */
  function Asked(h: Host, e: Expr, place: seq<Value>, vals: seq<Value>, st: State): seq<Event>
    requires UpdatesPlace(e) && GoesWell(h, e, vals, st)
  {
    var c := Apply(h, e.target.kind, vals, st);
    var v := Operand(h, WrittenOut, e, c.st);
    var op, args := Bin(UpdateOp(e)), [c.res.v, v.res.v];
    var r := Apply(h, op, args, v.st);
    [Event(e.target.kind, vals)] + (if BuiltIn(op, args).Some? then [] else [Event(op, args)]) + [Event(Writer(e.target.kind), place + [r.res.v])]
  }

  lemma {:induction false} AskedIs(h: Host, e: Expr, place: seq<Value>, vals: seq<Value>, st: State)
    requires UpdatesPlace(e) && Quiet(h, e) && |vals| == |e.target.args| && Updated(h, e, place, vals, st).res.Ok?
    ensures GoesWell(h, e, vals, st) && Updated(h, e, place, vals, st).st.log == st.log + Asked(h, e, place, vals, st)
  {
    hide Apply, Operand, BuiltIn;
    var c := Apply(h, e.target.kind, vals, st);
    var v := Operand(h, WrittenOut, e, c.st);
    var op, args := Bin(UpdateOp(e)), [c.res.v, v.res.v];
    var r := Apply(h, op, args, v.st);
    ApplyLogs(h, e.target.kind, vals, st);
    ApplyLogs(h, op, args, v.st);
    ApplyLogs(h, Writer(e.target.kind), place + [r.res.v], r.st);
  }

  /** Reading comes first, then perhaps the operator, then writing. */
  ghost predicate Ordered(events: seq<Event>) {
    && 2 <= |events| <= 3 && events[0].Event? && !events[0].kind.Bin?
    && (|events| == 3 ==> events[1].Event? && events[1].kind.Bin?)
  }

  /** Two logs that go on like this and are the same in the end were the same before. */
  lemma {:induction false} SameTail(a: seq<Event>, x: seq<Event>, b: seq<Event>, y: seq<Event>)
    requires a + x == b + y && Ordered(x) && Ordered(y)
    ensures a == b
  {
    var all := a + x;
    assert all[|a|] == x[0] && all[|a| + 1] == x[1] && all[|b|] == y[0] && all[|b| + 1] == y[1];
    assert |a| == |b|;
    assert a == all[..|a|] && b == all[..|b|];
  }

  lemma {:induction false} SameLocals(a: seq<Binding>, b: seq<Binding>)
    requires SameNames(a, b) && forall i :: 0 <= i < |a| ==> a[i].name.User?
    ensures Erase(b) == b
  {
    EraseNothing(b);
  }

  /** Lowering a compound assignment to a place keeps its value and everything it does whenever
      its receiver and index can be evaluated again. And it keeps what the runtime is asked, if
      all goes well, only when evaluating them again asks it nothing. */
  lemma {:induction false} CompoundExactly(h: Host, e: Expr, st: State)
    requires UpdatesPlace(e) && FineExpr(e) && forall i :: 0 <= i < |st.locals| ==> st.locals[i].name.User?
    ensures Again(h, e, st) ==> Eval(h, Meant, LowerExpr(e), st) == Once(h, e, st)
    ensures
      var p := EvalAll(h, WrittenOut, e.target.args, st);
      var d, l := Once(h, e, st), Eval(h, Meant, LowerExpr(e), st);
      Quiet(h, e) && d.res.Ok? && l.res.Ok? && l.st.log == d.st.log ==>
        EvalAll(h, WrittenOut, e.target.args, p.st).st.log == p.st.log
  {
    hide Eval, EvalAll, Operand, Apply, BuiltIn, LowerExpr, FineExpr, Updated, Asked;
    LoweredTwice(h, e, st);
    TwiceIs(h, e, st);
    var args := e.target.args;
    var p := EvalAll(h, WrittenOut, args, st);
    var q := EvalAll(h, WrittenOut, args, p.st);
    var d, l := Once(h, e, st), Eval(h, Meant, LowerExpr(e), st);
    if Quiet(h, e) && d.res.Ok? && l.res.Ok? && l.st.log == d.st.log {
      AskedIs(h, e, p.vals, p.vals, p.st);
      AskedIs(h, e, p.vals, q.vals, q.st);
      AskedOrdered(h, e, p.vals, p.vals, p.st);
      AskedOrdered(h, e, p.vals, q.vals, q.st);
      SameTail(p.st.log, Asked(h, e, p.vals, p.vals, p.st), q.st.log, Asked(h, e, p.vals, q.vals, q.st));
    }
  }

  lemma {:induction false} AskedOrdered(h: Host, e: Expr, place: seq<Value>, vals: seq<Value>, st: State)
    requires UpdatesPlace(e) && GoesWell(h, e, vals, st)
    ensures Ordered(Asked(h, e, place, vals, st))
  {
    hide Apply, Operand, BuiltIn;
  }

  /** In a state without hidden variables the lowered expression does just what the expression
      does as written out. */
  lemma {:induction false} LoweredTwice(h: Host, e: Expr, st: State)
    requires FineExpr(e) && forall i :: 0 <= i < |st.locals| ==> st.locals[i].name.User?
    ensures Eval(h, Meant, LowerExpr(e), st) == Eval(h, WrittenOut, e, st)
  {
    hide Eval, LowerExpr, FineExpr;
    EraseNothing(st.locals);
    SimExpr(h, e, st, st);
    var d, l := Eval(h, WrittenOut, e, st), Eval(h, Meant, LowerExpr(e), st);
    SameLocals(st.locals, l.st.locals);
  }
}
