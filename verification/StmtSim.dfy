/** The code of a statement does what the statement does. */
module StmtSim {
  import opened Shapes
  import opened Bytecode
  import opened Values
  import opened Core
  import opened Machine
  import opened CodeGen
  import opened CodeLayout
  import opened Locals
  import opened ExprSim

  // Where the pieces of a fragment are.

  lemma {:induction false} ForkLayout(code: seq<Instr>, pos: int, test: seq<Instr>, r: Reg, yes: seq<Instr>, hop: bool, no: seq<Instr>)
    requires CodeAt(code, pos, Fork(test, r, yes, hop, no))
    ensures
      var at, over := pos + |test|, if hop then 1 else 0;
      && CodeAt(code, pos, test)
      && 0 <= at < |code| && code[at] == Branch(true, r, |yes| + over)
      && CodeAt(code, at + 1, yes)
      && (hop ==> at + 1 + |yes| < |code| && code[at + 1 + |yes|] == Jmp(|no|))
      && CodeAt(code, at + 1 + |yes| + over, no)
      && |Fork(test, r, yes, hop, no)| == |test| + 1 + |yes| + over + |no|
  {
    var jump := [JmpIfFalse(r, |yes| + if hop then 1 else 0)];
    var tail := if hop then [Jmp(|no|)] else [];
    assert Fork(test, r, yes, hop, no) == test + jump + yes + tail + no by {
      assert test + jump + yes + [] == test + jump + yes;
    }
    hide CodeAt, Fork;
    CodeAtSplit(code, pos, test + jump + yes + tail, no);
    if hop { CodeAtOne(code, pos, test + jump + yes, Jmp(|no|)); }
    CodeAtSplit(code, pos, test + jump + yes, tail);
    CodeAtSplit(code, pos, test + jump, yes);
    CodeAtOne(code, pos, test, jump[0]);
  }

  lemma {:induction false} CycleLayout(code: seq<Instr>, pos: int, test: seq<Instr>, r: Reg, body: seq<Instr>)
    requires CodeAt(code, pos, Cycle(test, r, body))
    ensures
      var at := pos + |test|;
      && CodeAt(code, pos, test)
      && 0 <= at < |code| && code[at] == Branch(true, r, |body| + 1)
      && CodeAt(code, at + 1, body)
      && at + 1 + |body| < |code| && code[at + 1 + |body|] == Jmp(pos - (at + 1 + |body| + 1))
      && |Cycle(test, r, body)| == |test| + 1 + |body| + 1
  {
    var jump := [JmpIfFalse(r, |body| + 1)];
    CodeAtOne(code, pos, test + jump + body, Jmp(-(|test| + 1 + |body| + 1)));
    CodeAtSplit(code, pos, test + jump, body);
    CodeAtOne(code, pos, test, jump[0]);
  }

  lemma {:induction false} GuardedLayout(code: seq<Instr>, pos: int, v: Option<Reg>, body: seq<Instr>)
    requires CodeAt(code, pos, Guarded(v, body))
    ensures
      && 0 <= pos && pos + 1 + |body| < |code|
      && code[pos] == PushCatch(v, |body| + 1)
      && CodeAt(code, pos + 1, body)
      && code[pos + 1 + |body|] == PopCatch
      && |Guarded(v, body)| == |body| + 2
  {
    CodeAtOne(code, pos, [PushCatch(v, |body| + 1)] + body, PopCatch);
    CodeAtSplit(code, pos, [PushCatch(v, |body| + 1)], body);
    assert [PushCatch(v, |body| + 1)] == [] + [PushCatch(v, |body| + 1)];
    CodeAtOne(code, pos, [], PushCatch(v, |body| + 1));
  }

  /** What is left of the handlers when `opens` of them are dropped. */
  function Dropped(handlers: seq<Handler>, opens: nat): seq<Handler> {
    if opens <= |handlers| then handlers[..|handlers| - opens] else []
  }

  /** Running a statement's code for `k` steps comes to what the statement came to: to the
      code after it, to the loop's target with the inner handlers dropped, or to the end of
      the function; or it is still running, after at least as many steps as there were turns. */
  ghost predicate Ends(ops: Ops, code: seq<Instr>, c: Config, k: nat, c1: Config, r: Ended, x: Ctx, y: Ctx, end: int, turns: nat) {
    var m := Steps(ops, code, Running(c), k);
    (r.how.Lost? || Agrees(x.env, r.st, c1))
    && match r.how
       case Normal => m == Running(c1) && c1.pc == end && c1.handlers == c.handlers && Ready(y.env, y.next, r.st, c1)
       case Broke => m == Running(c1) && x.loop.InLoop? && x.loop.brk == Some(c1.pc) && c1.handlers == Dropped(c.handlers, x.loop.opens)
       case Continued => m == Running(c1) && x.loop.InLoop? && x.loop.cont == c1.pc && c1.handlers == Dropped(c.handlers, x.loop.opens)
       case Returned(v) => m == Halted(Returned(v), r.st.globals, r.st.output)
       case Raised(err) => m == Unwind(c1, err) && c1.handlers == c.handlers
       case OutOfTurns => m == Running(c1) && k >= turns
       case Lost => true
  }

  lemma {:induction false} AgreesPrefix(x: Ctx, y: Ctx, st: State, c: Config)
    requires Extends(x, y) && |x.env.names| == |x.env.regs| && Agrees(y.env, st, c)
    ensures Agrees(x.env, st, c)
  {
    assert x.env.names == st.names[..|y.env.names|][..|x.env.names|];
    forall i | 0 <= i < |x.env.regs| ensures Get(c.regs, x.env.regs[i]) == st.vals[i] {
      assert x.env.regs[i] == y.env.regs[i];
    }
  }

  /** Going on from where the first `k` steps led. */
  lemma {:induction false} Follow(ops: Ops, code: seq<Instr>, c: Config, k: nat, c1: Config, j: nat, c2: Config, r: Ended, x: Ctx, x1: Ctx, y: Ctx, end: int, some: nat, turns: nat)
    requires Steps(ops, code, Running(c), k) == Running(c1) && c1.handlers == c.handlers
    requires Ends(ops, code, c1, j, c2, r, x1, y, end, some) && Extends(x, x1) && |x.env.names| == |x.env.regs|
    requires turns <= k + some
    ensures Ends(ops, code, c, k + j, c2, r, x, y, end, turns)
  {
    StepsAdd(ops, code, Running(c), k, j);
    if !r.how.Lost? { AgreesPrefix(x, x1, r.st, c2); }
  }

  /** An expression that raises. */
  lemma {:induction false} Fails(ops: Ops, code: seq<Instr>, c: Config, k: nat, c1: Config, r: Result, reg: Reg, at: int, x: Ctx, y: Ctx, st: State, end: int, turns: nat)
    requires Ready(x.env, x.next, st, c) && Computes(ops, code, c, k, c1, r, reg, at, x.next) && r.Err?
    ensures Ends(ops, code, c, k, c1, Raises(r.err, st), x, y, end, turns)
  {
    KeptReady(x.env, x.next, st, c, c1, x.next);
  }

  /** What every statement lemma starts from. */
  ghost predicate Starts(code: seq<Instr>, s: Stmt, x: Ctx, pos: nat, st: State, c: Config, own: bool) {
    && Ready(x.env, x.next, st, c)
    && c.pc == pos && CodeAt(code, pos, StmtCode(s, x, pos))
    && Fits(s, x.loop.InLoop?, own)
    && Targets(x, c, own)
  }

  /** The loop's targets are known, and the handlers its jumps drop are there. */
  ghost predicate Targets(x: Ctx, c: Config, own: bool) {
    && (x.loop.InLoop? ==> x.loop.brk.Some? && x.loop.opens <= |c.handlers|)
    && (own ==> x.loop.InLoop? && x.loop.opens == 0)
  }

  lemma {:induction false} OneStep(ops: Ops, code: seq<Instr>, c: Config, k: nat, c1: Config)
    requires Steps(ops, code, Running(c), k) == Running(c1)
    ensures Steps(ops, code, Running(c), k + 1) == Step(ops, code, Running(c1))
  {
    StepsAdd(ops, code, Running(c), k, 1);
    assert Steps(ops, code, Step(ops, code, Running(c1)), 0) == Step(ops, code, Running(c1));
    assert Steps(ops, code, Running(c1), 1) == Steps(ops, code, Step(ops, code, Running(c1)), 0);
  }

  // Statements without statements in them.

  /** The expression of a simple statement. */
  function Body(s: Stmt): Option<Expr> {
    match s
    case Expression(e) => Some(e)
    case Assign(_, e) => Some(e)
    case Echo(e) => Some(e)
    case VarDecl(_, e) => Some(e)
    case Return(e) => Some(e)
    case RaiseOf(e) => Some(e)
    case _ => None
  }

  /** What a simple statement does once its expression is in register `r`. */
  function Tail(s: Stmt, x: Ctx, r: Reg): seq<Instr>
    requires |x.env.names| == |x.env.regs|
  {
    match s
    case Assign(name, _) =>
      var i := Find(x.env.names, name);
      if i >= 0 then MoveTo(x.env.regs[i], r) else [AssignGlobal(name, r)]
    case Echo(_) => [Print(r)]
    case VarDecl(_, _) => MoveTo(x.next, r)
    case Return(_) => [Ret(r)]
    case RaiseOf(_) => [Raise(r)]
    case _ => []
  }

  /** What a simple statement makes of its expression's value. */
  function Effect(s: Stmt, v: Value, st: State): Ended
    requires st.Valid()
  {
    match s
    case Assign(name, _) => AssignTo(name, v, st)
    case Echo(_) => Ended(Normal, st.(output := st.output + [v]))
    case VarDecl(name, _) => Ended(Normal, st.Declare(name, v))
    case Return(_) => Ended(Returned(v), st)
    case RaiseOf(_) => Raises(Thrown(v), st)
    case _ => Ended(Normal, st)
  }

  lemma {:induction false} SimpleCode(s: Stmt, x: Ctx, pos: nat)
    requires Body(s).Some? && |x.env.names| == |x.env.regs|
    ensures var e := Body(s).value;
            StmtCode(s, x, pos) == ExprCode(e, x.env, x.next) + Tail(s, x, ExprReg(e, x.env, x.next))
  {
    hide ExprCode, ExprReg, MoveTo;
  }

  lemma {:induction false} SimpleExec(ops: Ops, s: Stmt, st: State, turns: nat)
    requires Body(s).Some? && st.Valid()
    ensures var r := Eval(ops, Body(s).value, st);
            Exec(ops, AsEmitted, s, st, turns) == if r.Err? then Raises(r.err, st) else Effect(s, r.v, st)
  {
    hide Eval, AssignTo;
  }

  /** The end of a simple statement, from the state its expression was evaluated in. */
  lemma {:induction false} SimTail(ops: Ops, code: seq<Instr>, s: Stmt, x: Ctx, st: State, v: Value, r: Reg, c: Config, turns: nat) returns (c1: Config, k: nat)
    requires Body(s).Some? && Ready(x.env, x.next, st, c) && Get(c.regs, r) == v && r <= x.next
    requires CodeAt(code, c.pc, Tail(s, x, r))
    ensures Ends(ops, code, c, k, c1, Effect(s, v, st), x, After(s, x), c.pc + |Tail(s, x, r)|, turns)
  {
    var tail := Tail(s, x, r);
    assert Steps(ops, code, Running(c), 0) == Running(c);
    if tail == [] {
      c1, k := c, 0;
      TailNothing(s, x, st, v, r, c);
    } else {
      assert code[c.pc..c.pc + 1] == tail;
      assert code[c.pc] == tail[0];
      OneStep(ops, code, c, 0, c);
      k := 1;
      c1 := TailStep(ops, code, s, x, st, v, r, c);
    }
  }

  lemma {:induction false} TailNothing(s: Stmt, x: Ctx, st: State, v: Value, r: Reg, c: Config)
    requires Body(s).Some? && Ready(x.env, x.next, st, c) && Get(c.regs, r) == v && r <= x.next
    requires Tail(s, x, r) == []
    ensures Effect(s, v, st).how == Normal && Ready(After(s, x).env, After(s, x).next, Effect(s, v, st).st, c)
    ensures Agrees(x.env, Effect(s, v, st).st, c)
  {
  }

  lemma {:induction false} TailStep(ops: Ops, code: seq<Instr>, s: Stmt, x: Ctx, st: State, v: Value, r: Reg, c: Config) returns (c1: Config)
    requires Body(s).Some? && Ready(x.env, x.next, st, c) && Get(c.regs, r) == v && r <= x.next
    requires Tail(s, x, r) != [] && 0 <= c.pc < |code| && code[c.pc] == Tail(s, x, r)[0]
    ensures c1.handlers == c.handlers && Agrees(x.env, Effect(s, v, st).st, c1)
    ensures
      var m := Step(ops, code, Running(c));
      var e := Effect(s, v, st);
      match e.how
      case Normal => m == Running(c1) && c1.pc == c.pc + 1 && Ready(After(s, x).env, After(s, x).next, e.st, c1)
      case Returned(w) => m == Halted(Returned(w), e.st.globals, e.st.output)
      case Raised(err) => m == Unwind(c1, err)
      case _ => false
  {
    var m := Step(ops, code, Running(c));
    c1 := if s.Return? || Effect(s, v, st).how.Raised? then c else m.c;
  }

  lemma {:induction false} SimSimple(ops: Ops, code: seq<Instr>, s: Stmt, x: Ctx, pos: nat, st: State, c: Config, turns: nat) returns (c1: Config, k: nat)
    requires Body(s).Some? && Starts(code, s, x, pos, st, c, false)
    ensures Ends(ops, code, c, k, c1, Exec(ops, AsEmitted, s, st, turns), x, After(s, x), pos + |StmtCode(s, x, pos)|, turns)
  {
    assert st.Valid() && x.env.Valid(x.next) && |x.env.names| == |x.env.regs|;
    SimpleCode(s, x, pos);
    SimpleExec(ops, s, st, turns);
    ExprRegBound(Body(s).value, x.env, x.next);
    ExtendsSelf(x);
    var e := Body(s).value;
    var first, reg := ExprCode(e, x.env, x.next), ExprReg(e, x.env, x.next);
    var end := pos + |StmtCode(s, x, pos)|;
    hide *;
    StartsParts(code, s, x, pos, st, c, false);
    CodeAtSplit(code, pos, first, Tail(s, x, reg));
    c1, k := SimExpr(ops, code, e, x.env, x.next, st, c);
    var r := Eval(ops, e, st);
    ComputesCases(ops, code, c, k, c1, r, reg, pos + |first|, x.next, end);
    if r.Err? {
      Fails(ops, code, c, k, c1, r, reg, pos + |first|, x, After(s, x), st, end, turns);
    } else {
      KeptReady(x.env, x.next, st, c, c1, x.next);
      KeptHandlers(c, c1, x.next);
      var c2, j := SimTail(ops, code, s, x, st, r.v, reg, c1, turns);
      Follow(ops, code, c, k, c1, j, c2, Effect(s, r.v, st), x, x, After(s, x), end, turns, turns);
      c1, k := c2, k + j;
    }
  }

  lemma {:induction false} StartsParts(code: seq<Instr>, s: Stmt, x: Ctx, pos: nat, st: State, c: Config, own: bool)
    requires Starts(code, s, x, pos, st, c, own)
    ensures Ready(x.env, x.next, st, c) && c.pc == pos
    ensures |x.env.names| == |x.env.regs| && st.Valid() && CodeAt(code, pos, StmtCode(s, x, pos))
    ensures Fits(s, x.loop.InLoop?, own) && Targets(x, c, own)
  {
  }

  lemma {:induction false} ExtendsSelf(x: Ctx)
    ensures Extends(x, x)
  {
  }

  lemma {:induction false} KeptHandlers(c: Config, c1: Config, m: nat)
    requires Kept(c, c1, m)
    ensures c1.handlers == c.handlers
  {
  }

  // `break` and `continue`.

  lemma {:induction false} PopAll(ops: Ops, code: seq<Instr>, c: Config, n: nat)
    requires CodeAt(code, c.pc, Pops(n)) && n <= |c.handlers|
    ensures Steps(ops, code, Running(c), n) == Running(c.(pc := c.pc + n, handlers := Dropped(c.handlers, n)))
    decreases n
  {
    if n > 0 {
      assert Pops(n) == [PopCatch] + Pops(n - 1);
      CodeAtSplit(code, c.pc, [PopCatch], Pops(n - 1));
      assert code[c.pc..c.pc + 1] == [PopCatch];
      assert code[c.pc] == PopCatch;
      var c1 := c.(pc := c.pc + 1, handlers := c.handlers[..|c.handlers| - 1]);
      assert Step(ops, code, Running(c)) == Running(c1);
      PopAll(ops, code, c1, n - 1);
      assert Dropped(c1.handlers, n - 1) == Dropped(c.handlers, n);
    }
  }

  lemma {:induction false} SimLeaving(ops: Ops, code: seq<Instr>, opens: nat, target: nat, pos: nat, c: Config) returns (c1: Config)
    requires c.pc == pos && CodeAt(code, pos, Leaving(opens, pos, Some(target))) && opens <= |c.handlers|
    ensures Steps(ops, code, Running(c), opens + 1) == Running(c1)
    ensures c1 == c.(pc := target, handlers := Dropped(c.handlers, opens))
  {
    CodeAtOne(code, pos, Pops(opens), Jmp(target - (pos + opens + 1)));
    PopAll(ops, code, c, opens);
    var mid := c.(pc := c.pc + opens, handlers := Dropped(c.handlers, opens));
    OneStep(ops, code, c, opens, mid);
    c1 := mid.(pc := target);
  }

  lemma {:induction false} SimJump(ops: Ops, code: seq<Instr>, s: Stmt, x: Ctx, pos: nat, st: State, c: Config, turns: nat) returns (c1: Config, k: nat)
    requires (s.Break? || s.Continue?) && Starts(code, s, x, pos, st, c, false)
    ensures Ends(ops, code, c, k, c1, Exec(ops, AsEmitted, s, st, turns), x, After(s, x), pos + |StmtCode(s, x, pos)|, turns)
  {
    var target := if s.Break? then x.loop.brk.value else x.loop.cont;
    assert CodeAt(code, pos, Leaving(x.loop.opens, pos, Some(target)));
    hide StmtCode, After, CodeAt, Steps;
    c1 := SimLeaving(ops, code, x.loop.opens, target, pos, c);
    k := x.loop.opens + 1;
  }

  // Branches.

  /** Where a statement that ended normally is said to end can be restated. */
  lemma {:induction false} Land(ops: Ops, code: seq<Instr>, c: Config, k: nat, c1: Config, r: Ended, x: Ctx, y: Ctx, end: int, y1: Ctx, end1: int, turns: nat)
    requires Ends(ops, code, c, k, c1, r, x, y, end, turns)
    requires r.how.Normal? ==> y1.env == y.env && y.next <= y1.next && end1 == end
    ensures Ends(ops, code, c, k, c1, r, x, y1, end1, turns)
  {
  }

  lemma {:induction false} Hop(ops: Ops, code: seq<Instr>, c: Config, k: nat, c1: Config, r: Ended, x: Ctx, y: Ctx, end: int, offset: int, turns: nat) returns (c2: Config, k2: nat)
    requires Ends(ops, code, c, k, c1, r, x, y, end, turns)
    requires 0 <= end < |code| && code[end] == Jmp(offset)
    ensures Ends(ops, code, c, k2, c2, r, x, y, end + 1 + offset, turns)
    ensures r.how.Normal? ==> k2 > 0
  {
    if r.how.Normal? {
      OneStep(ops, code, c, k, c1);
      c2, k2 := c1.(pc := end + 1 + offset), k + 1;
    } else {
      c2, k2 := c1, k;
    }
  }

  lemma {:induction false} NeverNormal(ops: Ops, s: Stmt, st: State, turns: nat)
    requires st.Valid() && NeverFallsThrough(s)
    ensures !Exec(ops, AsEmitted, s, st, turns).how.Normal?
    decreases s
  {
    match s
    case Block(ss) =>
      NeverNormal(ops, ss[|ss| - 1], ExecSeq(ops, AsEmitted, ss[..|ss| - 1], st, turns).st, turns);
    case If(_, t, Some(f)) =>
      NeverNormal(ops, t, st, turns);
      NeverNormal(ops, f, st, turns);
    case _ =>
  }

  /** What an `if` comes to once its test has chosen. */
  function Chosen(ops: Ops, s: Stmt, st: State, turns: nat, falsey: bool): Ended
    requires st.Valid() && s.If?
  {
    if !falsey then Missing(AsEmitted, Exec(ops, AsEmitted, s.thenB, st, turns), s.elseB.Some? && Declares(s.elseB.value))
    else if Declares(s.thenB) then Ended(Lost, st)
    else if s.elseB.Some? then Exec(ops, AsEmitted, s.elseB.value, st, turns)
    else Ended(Normal, st)
  }

  lemma {:induction false} IfExec(ops: Ops, s: Stmt, st: State, turns: nat)
    requires st.Valid() && s.If?
    ensures
      var r := Eval(ops, s.cond, st);
      Exec(ops, AsEmitted, s, st, turns) == if r.Err? then Raises(r.err, st) else Chosen(ops, s, st, turns, Falsey(r.v))
  {
    hide Eval, Falsey, ExecSeq, Declares;
  }
}
