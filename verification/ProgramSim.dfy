/** Compiled programs mean what their source means. */
module ProgramSim {
  import opened Shapes
  import opened Bytecode
  import opened Values
  import opened Core
  import opened Machine
  import opened CodeGen
  import opened CodeLayout
  import opened Locals
  import opened ExprSim
  import opened StmtSim
  import opened Fidelity

  /** Running the code of a statement, from any state the compiler's scope agrees with, ends
      as the statement ends by the code's rule; and by the language's, if the run is faithful. */
  lemma {:induction false} SimStmt(ops: Ops, code: seq<Instr>, s: Stmt, x: Ctx, pos: nat, st: State, c: Config, own: bool, turns: nat) returns (c1: Config, k: nat)
    requires Starts(code, s, x, pos, st, c, own)
    ensures Ends(ops, code, c, k, c1, Exec(ops, AsEmitted, s, st, turns), x, After(s, x), pos + |StmtCode(s, x, pos)|, turns)
    ensures Faithful(ops, s, st, turns) ==> Ends(ops, code, c, k, c1, Exec(ops, AsWritten, s, st, turns), x, After(s, x), pos + |StmtCode(s, x, pos)|, turns)
    decreases turns, s, 3
  {
    hide *;
    StartsParts(code, s, x, pos, st, c, own);
    if Faithful(ops, s, st, turns) { FaithfulIsSame(ops, s, st, turns); }
    match s
    case Block(_) => c1, k := SimBlock(ops, code, s, x, pos, st, c, own, turns);
    case If(_, _, _) => c1, k := SimIf(ops, code, s, x, pos, st, c, own, turns);
    case While(_, _) => c1, k := SimWhile(ops, code, s, x, pos, st, c, own, turns);
    case Catch(_, _, _) => c1, k := SimCatch(ops, code, s, x, pos, st, c, own, turns);
    case Break => StartsAnyway(code, s, x, pos, st, c, own); c1, k := SimJump(ops, code, s, x, pos, st, c, turns);
    case Continue => StartsAnyway(code, s, x, pos, st, c, own); c1, k := SimJump(ops, code, s, x, pos, st, c, turns);
    case FixContinue => FixDoesNotFit(s, x.loop.InLoop?, own);
    case _ => StartsAnyway(code, s, x, pos, st, c, own); HasBody(s); c1, k := SimSimple(ops, code, s, x, pos, st, c, turns);
  }

  lemma {:induction false} FixDoesNotFit(s: Stmt, inLoop: bool, own: bool)
    requires s.FixContinue?
    ensures !Fits(s, inLoop, own)
  {
  }

  lemma {:induction false} HasBody(s: Stmt)
    requires !(s.Block? || s.If? || s.While? || s.Catch? || s.Break? || s.Continue? || s.FixContinue?)
    ensures Body(s).Some?
  {
  }

  lemma {:induction false} StartsAnyway(code: seq<Instr>, s: Stmt, x: Ctx, pos: nat, st: State, c: Config, own: bool)
    requires Starts(code, s, x, pos, st, c, own) && !s.Block?
    ensures Starts(code, s, x, pos, st, c, false)
  {
    hide StmtCode, CodeAt, Ready;
  }

  // Branches.

  lemma {:induction false} SimIf(ops: Ops, code: seq<Instr>, s: Stmt, x: Ctx, pos: nat, st: State, c: Config, own: bool, turns: nat) returns (c1: Config, k: nat)
    requires s.If? && Starts(code, s, x, pos, st, c, own)
    ensures Ends(ops, code, c, k, c1, Exec(ops, AsEmitted, s, st, turns), x, After(s, x), pos + |StmtCode(s, x, pos)|, turns)
    decreases turns, s, 2
  {
    hide *;
    StartsParts(code, s, x, pos, st, c, own);
    IfPlaces(code, s, x, pos);
    IfExec(ops, s, st, turns);
    ExtendsSelf(x);
    var test, reg := ExprCode(s.cond, x.env, x.next), ExprReg(s.cond, x.env, x.next);
    var end := pos + |StmtCode(s, x, pos)|;
    c1, k := SimExpr(ops, code, s.cond, x.env, x.next, st, c);
    var r := Eval(ops, s.cond, st);
    ComputesCases(ops, code, c, k, c1, r, reg, pos + |test|, x.next, end);
    if r.Err? {
      Fails(ops, code, c, k, c1, r, reg, pos + |test|, x, After(s, x), st, end, turns);
    } else {
      var c2 := BranchLast(ops, code, c, k, c1, x.next, true, reg, IfSkip(s, x, pos));
      KeptReady(x.env, x.next, st, c, c2, x.next);
      KeptHandlers(c, c2, x.next);
      TargetsKept(x, x, c, c2, own);
      var c3, j := SimBranch(ops, code, s, x, pos, st, c2, own, turns, Falsey(r.v));
      Follow(ops, code, c, k + 1, c2, j, c3, Exec(ops, AsEmitted, s, st, turns), x, x, After(s, x), end, turns, turns);
      c1, k := c3, k + 1 + j;
    }
  }

  lemma {:induction false} TargetsKept(x: Ctx, y: Ctx, c: Config, c1: Config, own: bool)
    requires Targets(x, c, own) && c1.handlers == c.handlers && y.loop == x.loop
    ensures Targets(y, c1, own) && Targets(y, c1, false)
  {
  }

  function YesAt(s: Stmt, x: Ctx, pos: nat): nat
    requires s.If? && |x.env.names| == |x.env.regs|
  {
    pos + |ExprCode(s.cond, x.env, x.next)| + 1
  }

  function Hops(s: Stmt): bool
    requires s.If?
  {
    s.elseB.Some? && !NeverFallsThrough(s.thenB)
  }

  /** How far the test of an `if` jumps when it fails. */
  function IfSkip(s: Stmt, x: Ctx, pos: nat): nat
    requires s.If? && |x.env.names| == |x.env.regs|
  {
    |StmtCode(s.thenB, x, YesAt(s, x, pos))| + if Hops(s) then 1 else 0
  }

  lemma {:induction false} IfPlaces(code: seq<Instr>, s: Stmt, x: Ctx, pos: nat)
    requires s.If? && |x.env.names| == |x.env.regs| && CodeAt(code, pos, StmtCode(s, x, pos))
    ensures
      var test := ExprCode(s.cond, x.env, x.next);
      var at := YesAt(s, x, pos);
      var yes := StmtCode(s.thenB, x, at);
      var else_ := at + IfSkip(s, x, pos);
      var end := pos + |StmtCode(s, x, pos)|;
      && at == pos + |test| + 1
      && CodeAt(code, pos, test)
      && 0 <= at - 1 < |code| && code[at - 1] == Branch(true, ExprReg(s.cond, x.env, x.next), IfSkip(s, x, pos))
      && CodeAt(code, at, yes)
      && (Hops(s) ==> at + |yes| < |code| && code[at + |yes|] == Jmp(end - (at + |yes| + 1)))
      && (s.elseB.Some? ==> CodeAt(code, else_, StmtCode(s.elseB.value, After(s.thenB, x), else_)) && end == else_ + |StmtCode(s.elseB.value, After(s.thenB, x), else_)|)
      && (s.elseB.None? ==> end == else_ && !Hops(s))
      && (!Hops(s) ==> else_ == at + |yes|)
  {
    hide StmtCode, SeqCode, CodeAt, After, ExprCode, ExprReg, Fork, NeverFallsThrough;
    IfCode(s, x, pos);
    var test := ExprCode(s.cond, x.env, x.next);
    var at := pos + |test| + 1;
    var yes := StmtCode(s.thenB, x, at);
    var else_ := at + IfSkip(s, x, pos);
    var no := if s.elseB.None? then [] else StmtCode(s.elseB.value, After(s.thenB, x), else_);
    ForkLayout(code, pos, test, ExprReg(s.cond, x.env, x.next), yes, Hops(s), no);
  }

  /** The branch the test chose, from its first instruction on. */
  lemma {:induction false} SimBranch(ops: Ops, code: seq<Instr>, s: Stmt, x: Ctx, pos: nat, st: State, c: Config, own: bool, turns: nat, falsey: bool) returns (c1: Config, k: nat)
    requires s.If? && Ready(x.env, x.next, st, c) && Targets(x, c, own) && Fits(s, x.loop.InLoop?, own)
    requires CodeAt(code, pos, StmtCode(s, x, pos)) && c.pc == if falsey then YesAt(s, x, pos) + IfSkip(s, x, pos) else YesAt(s, x, pos)
    ensures Ends(ops, code, c, k, c1, Chosen(ops, s, st, turns, falsey), x, After(s, x), pos + |StmtCode(s, x, pos)|, turns)
    decreases turns, s, 1
  {
    hide *;
    ReadyFacts(x.env, x.next, st, c);
    ChosenCases(ops, s, st, turns, falsey);
    if !falsey {
      c1, k := SimThen(ops, code, s, x, pos, st, c, own, turns);
    } else if Declares(s.thenB) {
      c1, k := c, 0;
      LostIsEnough(ops, code, c, st, x, After(s, x), pos + |StmtCode(s, x, pos)|, turns);
    } else if s.elseB.Some? {
      c1, k := SimElse(ops, code, s, x, pos, st, c, own, turns);
    } else {
      c1, k := c, 0;
      IfPlaces(code, s, x, pos);
      IfScope(s, x, own);
      StepsNone(ops, code, c);
      EndsHere(ops, code, c, 0, c, st, x, After(s, x), turns);
    }
  }

  lemma {:induction false} ChosenCases(ops: Ops, s: Stmt, st: State, turns: nat, falsey: bool)
    requires s.If? && st.Valid()
    ensures
      Chosen(ops, s, st, turns, falsey) ==
        if !falsey then Missing(AsEmitted, Exec(ops, AsEmitted, s.thenB, st, turns), s.elseB.Some? && Declares(s.elseB.value))
        else if Declares(s.thenB) then Ended(Lost, st)
        else if s.elseB.Some? then Exec(ops, AsEmitted, s.elseB.value, st, turns)
        else Ended(Normal, st)
  {
    hide Exec, Missing, Declares;
  }

  lemma {:induction false} LostIsEnough(ops: Ops, code: seq<Instr>, c: Config, st: State, x: Ctx, y: Ctx, end: int, turns: nat)
    ensures Ends(ops, code, c, 0, c, Ended(Lost, st), x, y, end, turns)
  {
  }

  lemma {:induction false} ReadyGrows(x: Ctx, y: Ctx, st: State, c: Config)
    requires Ready(x.env, x.next, st, c) && y.env == x.env && x.next <= y.next
    ensures Ready(y.env, y.next, st, c)
  {
  }

  /** What branches add to the scope, if anything. */
  lemma {:induction false} IfScope(s: Stmt, x: Ctx, own: bool)
    requires s.If? && Fits(s, x.loop.InLoop?, own)
    ensures var y := After(s.thenB, x);
            && x.next <= y.next && y.loop == x.loop && y.next <= After(s, x).next
            && Fits(s.thenB, x.loop.InLoop?, false)
            && (s.elseB.Some? ==> After(s.elseB.value, y) == After(s, x) && Fits(s.elseB.value, x.loop.InLoop?, false))
            && (!Declares(s.thenB) ==> y.env == x.env)
            && (s.elseB.None? || !Declares(s.elseB.value) ==> After(s, x).env == y.env)
  {
    var y := After(s.thenB, x);
    if !Declares(s.thenB) { SameScope(s.thenB, x, x.loop.InLoop?, false); }
    if s.elseB.Some? && !Declares(s.elseB.value) { SameScope(s.elseB.value, y, x.loop.InLoop?, false); }
  }

  lemma {:induction false} SimThen(ops: Ops, code: seq<Instr>, s: Stmt, x: Ctx, pos: nat, st: State, c: Config, own: bool, turns: nat) returns (c1: Config, k: nat)
    requires s.If? && Ready(x.env, x.next, st, c) && Targets(x, c, own) && Fits(s, x.loop.InLoop?, own)
    requires CodeAt(code, pos, StmtCode(s, x, pos)) && c.pc == YesAt(s, x, pos)
    ensures Ends(ops, code, c, k, c1, Missing(AsEmitted, Exec(ops, AsEmitted, s.thenB, st, turns), s.elseB.Some? && Declares(s.elseB.value)),
                 x, After(s, x), pos + |StmtCode(s, x, pos)|, turns)
    decreases turns, s, 0
  {
    hide *;
    ReadyFacts(x.env, x.next, st, c);
    IfScope(s, x, own);
    TargetsKept(x, x, c, c, own);
    IfPlaces(code, s, x, pos);
    var at := YesAt(s, x, pos);
    var r := Exec(ops, AsEmitted, s.thenB, st, turns);
    var end0 := at + |StmtCode(s.thenB, x, at)|;
    var end := pos + |StmtCode(s, x, pos)|;
    MakeStarts(code, s.thenB, x, at, st, c, false);
    c1, k := SimStmt(ops, code, s.thenB, x, at, st, c, false, turns);
    var more := s.elseB.Some? && Declares(s.elseB.value);
    if Hops(s) {
      c1, k := Hop(ops, code, c, k, c1, r, x, After(s.thenB, x), end0, end - (end0 + 1), turns);
      LandOrMiss(ops, code, c, k, c1, r, x, After(s.thenB, x), end, more, After(s, x), end, turns);
    } else {
      NoHop(ops, s, st, turns);
      LandOrMiss(ops, code, c, k, c1, r, x, After(s.thenB, x), end0, more, After(s, x), end, turns);
    }
  }

  lemma {:induction false} LandOrMiss(ops: Ops, code: seq<Instr>, c: Config, k: nat, c1: Config, r: Ended, x: Ctx, y: Ctx, end: int, more: bool, y1: Ctx, end1: int, turns: nat)
    requires Ends(ops, code, c, k, c1, r, x, y, end, turns)
    requires r.how.Normal? && !more ==> y1.env == y.env && y.next <= y1.next && end1 == end
    ensures Ends(ops, code, c, k, c1, Missing(AsEmitted, r, more), x, y1, end1, turns)
  {
  }

  /** Without the jump over `else`, the branch before it never reaches its end. */
  lemma {:induction false} NoHop(ops: Ops, s: Stmt, st: State, turns: nat)
    requires s.If? && !Hops(s) && st.Valid()
    ensures s.elseB.None? || !Exec(ops, AsEmitted, s.thenB, st, turns).how.Normal?
  {
    hide Exec;
    if s.elseB.Some? { NeverNormal(ops, s.thenB, st, turns); }
  }

  lemma {:induction false} MakeStarts(code: seq<Instr>, s: Stmt, x: Ctx, pos: nat, st: State, c: Config, own: bool)
    requires Ready(x.env, x.next, st, c) && c.pc == pos && CodeAt(code, pos, StmtCode(s, x, pos))
    requires Fits(s, x.loop.InLoop?, own) && Targets(x, c, own)
    ensures Starts(code, s, x, pos, st, c, own)
  {
  }

  lemma {:induction false} SimElse(ops: Ops, code: seq<Instr>, s: Stmt, x: Ctx, pos: nat, st: State, c: Config, own: bool, turns: nat) returns (c1: Config, k: nat)
    requires s.If? && Ready(x.env, x.next, st, c) && Targets(x, c, own) && Fits(s, x.loop.InLoop?, own) && s.elseB.Some?
    requires CodeAt(code, pos, StmtCode(s, x, pos)) && c.pc == YesAt(s, x, pos) + IfSkip(s, x, pos) && !Declares(s.thenB)
    ensures Ends(ops, code, c, k, c1, Exec(ops, AsEmitted, s.elseB.value, st, turns), x, After(s, x), pos + |StmtCode(s, x, pos)|, turns)
    decreases turns, s, 0
  {
    hide *;
    ReadyFacts(x.env, x.next, st, c);
    IfScope(s, x, own);
    var y := After(s.thenB, x);
    TargetsKept(x, y, c, c, own);
    IfPlaces(code, s, x, pos);
    AfterExtends(s.thenB, x);
    ReadyGrows(x, y, st, c);
    var else_ := YesAt(s, x, pos) + IfSkip(s, x, pos);
    var end := pos + |StmtCode(s, x, pos)|;
    MakeStarts(code, s.elseB.value, y, else_, st, c, false);
    c1, k := SimStmt(ops, code, s.elseB.value, y, else_, st, c, false, turns);
    StepsNone(ops, code, c);
    Follow(ops, code, c, 0, c, k, c1, Exec(ops, AsEmitted, s.elseB.value, st, turns), x, y, After(s, x), end, turns, turns);
  }

  lemma {:induction false} StepsNone(ops: Ops, code: seq<Instr>, c: Config)
    ensures Steps(ops, code, Running(c), 0) == Running(c)
  {
  }

  // Blocks.

  lemma {:induction false} SimBlock(ops: Ops, code: seq<Instr>, s: Stmt, x: Ctx, pos: nat, st: State, c: Config, own: bool, turns: nat) returns (c1: Config, k: nat)
    requires s.Block? && Starts(code, s, x, pos, st, c, own)
    ensures Ends(ops, code, c, k, c1, Exec(ops, AsEmitted, s, st, turns), x, After(s, x), pos + |StmtCode(s, x, pos)|, turns)
    decreases turns, s, 2
  {
    hide *;
    StartsParts(code, s, x, pos, st, c, own);
    BlockCode(s, x, pos);
    BlockParts(ops, s, x, st, c, own, turns);
    c1, k := SimSeq(ops, code, s.stmts, x, pos, st, c, own, turns);
    LeaveScope(ops, code, c, k, c1, ExecSeq(ops, AsEmitted, s.stmts, st, turns), x, AfterSeq(s.stmts, x), pos + |StmtCode(s, x, pos)|, turns);
  }

  lemma {:induction false} BlockParts(ops: Ops, s: Stmt, x: Ctx, st: State, c: Config, own: bool, turns: nat)
    requires s.Block? && Fits(s, x.loop.InLoop?, own) && Ready(x.env, x.next, st, c)
    ensures FitsSeq(s.stmts, x.loop.InLoop?, own) && After(s, x) == x && x.env.Valid(x.next)
    ensures var r := ExecSeq(ops, AsEmitted, s.stmts, st, turns);
            && r.st.Valid() && |x.env.names| <= |r.st.names|
            && Exec(ops, AsEmitted, s, st, turns) == Ended(r.how, r.st.Leave(|x.env.names|))
  {
  }

  /** The end of a block drops its locals. */
  lemma {:induction false} LeaveScope(ops: Ops, code: seq<Instr>, c: Config, k: nat, c1: Config, r: Ended, x: Ctx, y: Ctx, end: int, turns: nat)
    requires Ends(ops, code, c, k, c1, r, x, y, end, turns) && x.env.Valid(x.next)
    requires r.st.Valid() && |x.env.names| <= |r.st.names|
    ensures Ends(ops, code, c, k, c1, Ended(r.how, r.st.Leave(|x.env.names|)), x, x, end, turns)
  {
    hide Steps, Unwind;
    var n := |x.env.names|;
    assert r.st.Leave(n).names[..n] == r.st.names[..n];
    if !r.how.Lost? { assert Agrees(x.env, r.st.Leave(n), c1); }
  }

  lemma {:induction false} SimSeq(ops: Ops, code: seq<Instr>, ss: seq<Stmt>, x: Ctx, pos: nat, st: State, c: Config, own: bool, turns: nat) returns (c1: Config, k: nat)
    requires Ready(x.env, x.next, st, c) && c.pc == pos && CodeAt(code, pos, SeqCode(ss, x, pos))
    requires FitsSeq(ss, x.loop.InLoop?, own) && Targets(x, c, own)
    ensures Ends(ops, code, c, k, c1, ExecSeq(ops, AsEmitted, ss, st, turns), x, AfterSeq(ss, x), pos + |SeqCode(ss, x, pos)|, turns)
    decreases turns, ss, 1
  {
    if ss == [] {
      c1, k := c, 0;
    } else {
      hide *;
      if ss[|ss| - 1].FixContinue? {
        c1, k := SimFixed(ops, code, ss, x, pos, st, c, own, turns);
      } else {
        c1, k := SimLast(ops, code, ss, x, pos, st, c, own, turns);
      }
    }
  }

  lemma {:induction false} SeqParts(ops: Ops, ss: seq<Stmt>, x: Ctx, st: State, own: bool, turns: nat)
    requires ss != [] && FitsSeq(ss, x.loop.InLoop?, own) && st.Valid()
    ensures
      var n := |ss| - 1;
      var r := ExecSeq(ops, AsEmitted, ss[..n], st, turns);
      var y := AfterSeq(ss[..n], x);
      && y.loop == x.loop
      && (ss[n].FixContinue? ==>
            && own && Plain(ss[..n]) && FitsSeq(ss[..n], x.loop.InLoop?, false) && AfterSeq(ss, x) == y
            && ExecSeq(ops, AsEmitted, ss, st, turns) == Fixed(r))
      && (!ss[n].FixContinue? ==>
            && FitsSeq(ss[..n], x.loop.InLoop?, own) && Fits(ss[n], x.loop.InLoop?, false) && AfterSeq(ss, x) == After(ss[n], y)
            && r.st.Valid()
            && ExecSeq(ops, AsEmitted, ss, st, turns) == if r.how.Normal? then Exec(ops, AsEmitted, ss[n], r.st, turns) else r)
  {
    hide Exec, Fits, Plain;
  }

  function Fixed(r: Ended): Ended {
    if r.how.Continued? then Ended(Normal, r.st) else r
  }

  lemma {:induction false} SimLast(ops: Ops, code: seq<Instr>, ss: seq<Stmt>, x: Ctx, pos: nat, st: State, c: Config, own: bool, turns: nat) returns (c1: Config, k: nat)
    requires Ready(x.env, x.next, st, c) && c.pc == pos && CodeAt(code, pos, SeqCode(ss, x, pos))
    requires FitsSeq(ss, x.loop.InLoop?, own) && Targets(x, c, own) && ss != [] && !ss[|ss| - 1].FixContinue?
    ensures Ends(ops, code, c, k, c1, ExecSeq(ops, AsEmitted, ss, st, turns), x, AfterSeq(ss, x), pos + |SeqCode(ss, x, pos)|, turns)
    decreases turns, ss, 0
  {
    hide *;
    ReadyFacts(x.env, x.next, st, c);
    SeqParts(ops, ss, x, st, own, turns);
    SeqCodeSteps(ss, x, pos);
    var n := |ss| - 1;
    var s, y := ss[n], AfterSeq(ss[..n], x);
    var first := SeqCode(ss[..n], x, pos);
    var at := pos + |first|;
    var end := pos + |SeqCode(ss, x, pos)|;
    var r := ExecSeq(ops, AsEmitted, ss[..n], st, turns);
    CodeAtSplit(code, pos, first, StmtCode(s, y, at));
    c1, k := SimSeq(ops, code, ss[..n], x, pos, st, c, own, turns);
    if r.how.Normal? {
      EndsNormally(ops, code, c, k, c1, r, x, y, at, turns);
      TargetsKept(x, y, c, c1, own);
      MakeStarts(code, s, y, at, r.st, c1, false);
      var c2, j := SimStmt(ops, code, s, y, at, r.st, c1, false, turns);
      AfterSeqExtends(ss[..n], x);
      Follow(ops, code, c, k, c1, j, c2, Exec(ops, AsEmitted, s, r.st, turns), x, y, AfterSeq(ss, x), end, turns, turns);
      c1, k := c2, k + j;
    } else {
      Land(ops, code, c, k, c1, r, x, y, at, AfterSeq(ss, x), end, turns);
    }
  }

  lemma {:induction false} EndsNormally(ops: Ops, code: seq<Instr>, c: Config, k: nat, c1: Config, r: Ended, x: Ctx, y: Ctx, end: int, turns: nat)
    requires Ends(ops, code, c, k, c1, r, x, y, end, turns) && r.how.Normal?
    ensures Steps(ops, code, Running(c), k) == Running(c1) && c1.pc == end && c1.handlers == c.handlers
    ensures Ready(y.env, y.next, r.st, c1)
  {
  }

  /** The part of a loop's own block that ends with `FixContinue`. */
  lemma {:induction false} SimFixed(ops: Ops, code: seq<Instr>, ss: seq<Stmt>, x: Ctx, pos: nat, st: State, c: Config, own: bool, turns: nat) returns (c1: Config, k: nat)
    requires Ready(x.env, x.next, st, c) && c.pc == pos && CodeAt(code, pos, SeqCode(ss, x, pos))
    requires FitsSeq(ss, x.loop.InLoop?, own) && Targets(x, c, own) && ss != [] && ss[|ss| - 1].FixContinue?
    ensures Ends(ops, code, c, k, c1, ExecSeq(ops, AsEmitted, ss, st, turns), x, AfterSeq(ss, x), pos + |SeqCode(ss, x, pos)|, turns)
    decreases turns, ss, 0
  {
    hide *;
    ReadyFacts(x.env, x.next, st, c);
    SeqParts(ops, ss, x, st, own, turns);
    SeqCodeSteps(ss, x, pos);
    var n := |ss| - 1;
    var end := pos + |SeqCode(ss[..n], x, pos)|;
    var x1 := FixedCtx(x, end);
    FixedAlike(ss[..n], x, c, end, own, pos);
    NoNewLocalsInSeq(ops, AsEmitted, ss[..n], st, turns, x.loop.InLoop?, false);
    SameScopeSeq(ss[..n], x, x.loop.InLoop?, false);
    AfterSeqExtends(ss[..n], x);
    c1, k := SimSeq(ops, code, ss[..n], x1, pos, st, c, false, turns);
    FixLands(ops, code, c, k, c1, ExecSeq(ops, AsEmitted, ss[..n], st, turns), x, AfterSeq(ss[..n], x), AfterSeq(ss[..n], x1), end, st, turns);
  }

  lemma {:induction false} FixedAlike(ss: seq<Stmt>, x: Ctx, c: Config, end: nat, own: bool, pos: nat)
    requires |x.env.names| == |x.env.regs| && Targets(x, c, own)
    ensures
      var x1 := FixedCtx(x, end);
      && x1.env == x.env && x1.next == x.next && x1.loop.InLoop? == x.loop.InLoop? && Targets(x1, c, false)
      && |SeqCode(ss, x1, pos)| == |SeqCode(ss, x, pos)|
      && AfterSeq(ss, x1).env == AfterSeq(ss, x).env && AfterSeq(ss, x1).next == AfterSeq(ss, x).next
    ensures own ==> x.loop.InLoop? && x.loop.opens == 0
  {
    hide SeqCode, AfterSeq;
    SeqLenAlike(ss, FixedCtx(x, end), x, pos, pos);
    AfterSeqAlike(ss, FixedCtx(x, end), x);
  }

  lemma {:induction false} FixLands(ops: Ops, code: seq<Instr>, c: Config, k: nat, c1: Config, r: Ended, x: Ctx, y: Ctx, y1: Ctx, end: nat, st: State, turns: nat)
    requires Ends(ops, code, c, k, c1, r, FixedCtx(x, end), y1, end, turns)
    requires Ready(x.env, x.next, st, c) && x.loop.InLoop? && x.loop.opens == 0
    requires r.st.names == st.names && y.env == x.env && x.next <= y.next && y1.env == y.env && y1.next == y.next
    ensures Ends(ops, code, c, k, c1, Fixed(r), x, y, end, turns)
  {
    hide Steps, Unwind;
    if r.how.Continued? {
      assert Dropped(c.handlers, 0) == c.handlers;
    }
  }

  // Loops.

  /** Where a loop's body starts. */
  function BodyAt(s: Stmt, x: Ctx, pos: nat): nat
    requires s.While? && |x.env.names| == |x.env.regs|
  {
    pos + |ExprCode(s.cond, x.env, x.next)| + 1
  }

  function InBody(s: Stmt, x: Ctx, pos: nat): Ctx
    requires s.While? && |x.env.names| == |x.env.regs|
  {
    BodyCtx(x, pos, Some(pos + |StmtCode(s, x, pos)|))
  }

  lemma {:induction false} WhilePlaces(code: seq<Instr>, s: Stmt, x: Ctx, pos: nat)
    requires s.While? && |x.env.names| == |x.env.regs| && CodeAt(code, pos, StmtCode(s, x, pos))
    ensures
      var test, at, end := ExprCode(s.cond, x.env, x.next), BodyAt(s, x, pos), pos + |StmtCode(s, x, pos)|;
      var body := StmtCode(s.body, InBody(s, x, pos), at);
      && at == pos + |test| + 1
      && CodeAt(code, pos, test)
      && 0 <= at - 1 < |code| && code[at - 1] == Branch(true, ExprReg(s.cond, x.env, x.next), end - at)
      && CodeAt(code, at, body)
      && at + |body| + 1 == end <= |code| && code[at + |body|] == Jmp(pos - end)
  {
    hide StmtCode, SeqCode, CodeAt, ExprCode, ExprReg, Cycle;
    WhileCode(s, x, pos);
    BodyLen(s, x, pos);
    var test, at, end := ExprCode(s.cond, x.env, x.next), BodyAt(s, x, pos), pos + |StmtCode(s, x, pos)|;
    CycleLayout(code, pos, test, ExprReg(s.cond, x.env, x.next), StmtCode(s.body, InBody(s, x, pos), at));
  }

  /** What a loop does after its test has succeeded. */
  function Turn(ops: Ops, s: Stmt, st: State, turns: nat): Ended
    requires s.While? && st.Valid()
  {
    var r := Exec(ops, AsEmitted, s.body, st, turns);
    if r.how.Normal? || r.how.Continued? then Exec(ops, AsEmitted, s, r.st, turns)
    else if r.how.Broke? then Ended(Normal, r.st)
    else r
  }

  lemma {:induction false} WhileExec(ops: Ops, s: Stmt, st: State, turns: nat)
    requires s.While? && st.Valid()
    ensures
      var r := Eval(ops, s.cond, st);
      Exec(ops, AsEmitted, s, st, turns) ==
        if turns == 0 then Ended(OutOfTurns, st)
        else if r.Err? then Raises(r.err, st)
        else if Falsey(r.v) then Ended(Normal, st)
        else Turn(ops, s, st, turns - 1)
  {
    hide Eval, Falsey, ExecSeq;
  }

  lemma {:induction false} WhileScope(s: Stmt, x: Ctx, own: bool)
    requires s.While? && Fits(s, x.loop.InLoop?, own)
    ensures Fits(s.body, true, true) && !Declares(s.body)
    ensures After(s, x).env == x.env && x.next <= After(s, x).next
  {
    SameScope(s, x, x.loop.InLoop?, own);
  }

  lemma {:induction false} EndsHere(ops: Ops, code: seq<Instr>, c: Config, k: nat, c1: Config, st: State, x: Ctx, y: Ctx, turns: nat)
    requires Steps(ops, code, Running(c), k) == Running(c1) && c1.handlers == c.handlers
    requires Ready(x.env, x.next, st, c1) && y.env == x.env && x.next <= y.next
    ensures Ends(ops, code, c, k, c1, Ended(Normal, st), x, y, c1.pc, turns)
    ensures Ends(ops, code, c, k, c1, Ended(OutOfTurns, st), x, y, c1.pc, k)
  {
  }

  lemma {:induction false} SimWhile(ops: Ops, code: seq<Instr>, s: Stmt, x: Ctx, pos: nat, st: State, c: Config, own: bool, turns: nat) returns (c1: Config, k: nat)
    requires s.While? && Starts(code, s, x, pos, st, c, own)
    ensures Ends(ops, code, c, k, c1, Exec(ops, AsEmitted, s, st, turns), x, After(s, x), pos + |StmtCode(s, x, pos)|, turns)
    decreases turns, s, 2
  {
    hide *;
    StartsParts(code, s, x, pos, st, c, own);
    WhileExec(ops, s, st, turns);
    WhileScope(s, x, own);
    ExtendsSelf(x);
    var y, end := After(s, x), pos + |StmtCode(s, x, pos)|;
    if turns == 0 {
      StepsNone(ops, code, c);
      EndsHere(ops, code, c, 0, c, st, x, y, 0);
      c1, k := c, 0;
      Land(ops, code, c, 0, c, Ended(OutOfTurns, st), x, y, c.pc, y, end, 0);
    } else {
      c1, k := SimTest(ops, code, s, x, pos, st, c, turns);
      var r := Eval(ops, s.cond, st);
      if r.Ok? && !Falsey(r.v) {
        TargetsKept(x, x, c, c1, own);
        var c2, j := SimTurn(ops, code, s, x, pos, st, c1, own, turns - 1);
        Follow(ops, code, c, k, c1, j, c2, Exec(ops, AsEmitted, s, st, turns), x, x, y, end, turns - 1, turns);
        c1, k := c2, k + j;
      }
    }
  }

  /** The test of a loop: the loop is over, or its body is next. */
  lemma {:induction false} SimTest(ops: Ops, code: seq<Instr>, s: Stmt, x: Ctx, pos: nat, st: State, c: Config, turns: nat) returns (c1: Config, k: nat)
    requires s.While? && Ready(x.env, x.next, st, c) && c.pc == pos && CodeAt(code, pos, StmtCode(s, x, pos))
    requires After(s, x).env == x.env && x.next <= After(s, x).next
    ensures
      var r := Eval(ops, s.cond, st);
      var end := pos + |StmtCode(s, x, pos)|;
      && (r.Err? ==> Ends(ops, code, c, k, c1, Raises(r.err, st), x, After(s, x), end, turns))
      && (r.Ok? && Falsey(r.v) ==> Ends(ops, code, c, k, c1, Ended(Normal, st), x, After(s, x), end, turns))
      && (r.Ok? && !Falsey(r.v) ==>
            && Steps(ops, code, Running(c), k) == Running(c1) && k > 0 && c1.pc == BodyAt(s, x, pos)
            && c1.handlers == c.handlers && Ready(x.env, x.next, st, c1))
  {
    hide *;
    ReadyFacts(x.env, x.next, st, c);
    WhilePlaces(code, s, x, pos);
    var reg, at, end := ExprReg(s.cond, x.env, x.next), BodyAt(s, x, pos), pos + |StmtCode(s, x, pos)|;
    c1, k := SimExpr(ops, code, s.cond, x.env, x.next, st, c);
    var r := Eval(ops, s.cond, st);
    ComputesCases(ops, code, c, k, c1, r, reg, at - 1, x.next, end);
    if r.Err? {
      Fails(ops, code, c, k, c1, r, reg, at - 1, x, After(s, x), st, end, turns);
    } else {
      var c2 := BranchLast(ops, code, c, k, c1, x.next, true, reg, end - at);
      KeptReady(x.env, x.next, st, c, c2, x.next);
      KeptHandlers(c, c2, x.next);
      c1, k := c2, k + 1;
      EndsHere(ops, code, c, k, c1, st, x, After(s, x), turns);
    }
  }

  lemma {:induction false} BodyTargets(s: Stmt, x: Ctx, pos: nat, c: Config)
    requires s.While? && |x.env.names| == |x.env.regs|
    ensures var x1 := InBody(s, x, pos);
            && x1.env == x.env && x1.next == x.next && x1.loop == InLoop(Some(pos + |StmtCode(s, x, pos)|), pos, 0)
            && Targets(x1, c, true)
  {
  }

  /** A turn of the loop and everything the loop does after it. */
  lemma {:induction false} SimTurn(ops: Ops, code: seq<Instr>, s: Stmt, x: Ctx, pos: nat, st: State, c: Config, own: bool, turns: nat) returns (c1: Config, k: nat)
    requires s.While? && Ready(x.env, x.next, st, c) && c.pc == BodyAt(s, x, pos) && CodeAt(code, pos, StmtCode(s, x, pos))
    requires Fits(s, x.loop.InLoop?, own) && Targets(x, c, own)
    ensures Ends(ops, code, c, k, c1, Turn(ops, s, st, turns), x, After(s, x), pos + |StmtCode(s, x, pos)|, turns)
    decreases turns, s, 4
  {
    hide *;
    ReadyFacts(x.env, x.next, st, c);
    WhilePlaces(code, s, x, pos);
    WhileScope(s, x, own);
    BodyTargets(s, x, pos, c);
    TurnCases(ops, s, st, turns);
    var x1, at, end := InBody(s, x, pos), BodyAt(s, x, pos), pos + |StmtCode(s, x, pos)|;
    var r := Exec(ops, AsEmitted, s.body, st, turns);
    MakeStarts(code, s.body, x1, at, st, c, true);
    c1, k := SimStmt(ops, code, s.body, x1, at, st, c, true, turns);
    c1, k := Hop(ops, code, c, k, c1, r, x1, After(s.body, x1), end - 1, pos - end, turns);
    NoNewLocals(ops, AsEmitted, s.body, st, turns, true, true);
    TurnEnds(ops, code, c, k, c1, r, x, x1, After(s.body, x1), After(s, x), pos, end, st, turns);
    if r.how.Normal? || r.how.Continued? {
      TargetsKept(x, x, c, c1, own);
      MakeStarts(code, s, x, pos, r.st, c1, own);
      var c2, j := SimWhile(ops, code, s, x, pos, r.st, c1, own, turns);
      ExtendsSelf(x);
      Follow(ops, code, c, k, c1, j, c2, Turn(ops, s, st, turns), x, x, After(s, x), end, turns, turns);
      c1, k := c2, k + j;
    }
  }

  lemma {:induction false} TurnCases(ops: Ops, s: Stmt, st: State, turns: nat)
    requires s.While? && st.Valid()
    ensures
      var r := Exec(ops, AsEmitted, s.body, st, turns);
      && r.st.Valid()
      && Turn(ops, s, st, turns) ==
           if r.how.Normal? || r.how.Continued? then Exec(ops, AsEmitted, s, r.st, turns)
           else if r.how.Broke? then Ended(Normal, r.st)
           else r
  {
    hide Exec;
  }

  /** How a turn of the body ended decides whether the loop starts over or is left. */
  lemma {:induction false} TurnEnds(ops: Ops, code: seq<Instr>, c: Config, k: nat, c1: Config, r: Ended, x: Ctx, x1: Ctx, y1: Ctx, y: Ctx, pos: nat, end: nat, st: State, turns: nat)
    requires Ends(ops, code, c, k, c1, r, x1, y1, pos, turns)
    requires x1 == x.(loop := InLoop(Some(end), pos, 0))
    requires Ready(x.env, x.next, st, c) && r.st.names == st.names && y.env == x.env && x.next <= y.next
    ensures
      if r.how.Normal? || r.how.Continued? then
        && Steps(ops, code, Running(c), k) == Running(c1) && c1.pc == pos && c1.handlers == c.handlers
        && Ready(x.env, x.next, r.st, c1)
      else Ends(ops, code, c, k, c1, if r.how.Broke? then Ended(Normal, r.st) else r, x, y, end, turns)
  {
    hide Steps, Unwind;
    assert Dropped(c.handlers, 0) == c.handlers;
  }

  // Handlers.

  function CatchVar(s: Stmt, x: Ctx): Option<Reg>
    requires s.Catch?
  {
    if s.binds.Some? then Some(x.next) else None
  }

  /** Where the handler of a `catch` is pushed. */
  function GuardAt(s: Stmt, pos: nat): nat
    requires s.Catch?
  {
    if s.binds.Some? then pos + 1 else pos
  }

  function Guard(s: Stmt, x: Ctx, pos: nat): seq<Instr>
    requires s.Catch? && |x.env.names| == |x.env.regs|
  {
    Guarded(CatchVar(s, x), StmtCode(s.body, OpenOne(CatchCtx(s.binds, x)), GuardAt(s, pos) + 1))
  }

  lemma {:induction false} UnlessLen(v: Reg, m: nat, h: seq<Instr>)
    ensures |Fork(Unless(v, m), m + 1, h, false, [])| == 3 + |h|
  {
  }

  /** The code after the guarded body, if there is a handler. */
  function Rescue(s: Stmt, x: Ctx, at: nat): seq<Instr>
    requires s.Catch? && s.handler.Some? && |x.env.names| == |x.env.regs|
  {
    var z := After(s.body, CatchCtx(s.binds, x));
    Fork(Unless(x.next, z.next), z.next + 1, StmtCode(s.handler.value, z, at + 3), false, [])
  }

  function LoadNils(s: Stmt, x: Ctx): seq<Instr>
    requires s.Catch?
  {
    if s.binds.Some? then [LoadNil(x.next)] else []
  }

  lemma {:induction false} CatchIs(s: Stmt, x: Ctx, pos: nat)
    requires s.Catch? && |x.env.names| == |x.env.regs|
    ensures GuardAt(s, pos) == pos + |LoadNils(s, x)|
    ensures s.handler.None? || s.binds.None? ==> StmtCode(s, x, pos) == LoadNils(s, x) + Guard(s, x, pos)
    ensures s.handler.Some? && s.binds.Some? ==>
              StmtCode(s, x, pos) == LoadNils(s, x) + Guard(s, x, pos) + Rescue(s, x, GuardAt(s, pos) + |Guard(s, x, pos)|)
  {
    hide StmtCode, SeqCode, After, Guarded, Fork, Unless;
    CatchCode(s, x, pos);
  }

  lemma {:induction false} RescueLen(s: Stmt, x: Ctx, at: nat)
    requires s.Catch? && s.handler.Some? && |x.env.names| == |x.env.regs|
    ensures |Rescue(s, x, at)| == 3 + |StmtCode(s.handler.value, After(s.body, CatchCtx(s.binds, x)), at + 3)|
  {
    hide StmtCode, After, Fork, Unless;
    var z := After(s.body, CatchCtx(s.binds, x));
    UnlessLen(x.next, z.next, StmtCode(s.handler.value, z, at + 3));
  }

  lemma {:induction false} LoadPlaces(code: seq<Instr>, s: Stmt, x: Ctx, pos: nat)
    requires s.Catch? && CodeAt(code, pos, LoadNils(s, x))
    ensures s.binds.Some? ==> 0 <= pos < |code| && code[pos] == LoadNil(x.next)
  {
    if s.binds.Some? {
      assert LoadNils(s, x) == [] + [LoadNil(x.next)];
      CodeAtOne(code, pos, [], LoadNil(x.next));
    }
  }

  lemma {:induction false} CatchPlaces(code: seq<Instr>, s: Stmt, x: Ctx, pos: nat)
    requires s.Catch? && |x.env.names| == |x.env.regs| && CodeAt(code, pos, StmtCode(s, x, pos))
    ensures
      var at, guard, end := GuardAt(s, pos), Guard(s, x, pos), pos + |StmtCode(s, x, pos)|;
      var z := After(s.body, CatchCtx(s.binds, x));
      && (s.binds.Some? ==> 0 <= pos < |code| && code[pos] == LoadNil(x.next))
      && CodeAt(code, at, guard)
      && (s.handler.None? || s.binds.None? ==> end == at + |guard|)
      && (s.handler.Some? && s.binds.Some? ==>
            end == at + |guard| + 3 + |StmtCode(s.handler.value, z, at + |guard| + 3)| && CodeAt(code, at + |guard|, Rescue(s, x, at + |guard|)))
  {
    hide *;
    CatchIs(s, x, pos);
    var load, guard := LoadNils(s, x), Guard(s, x, pos);
    var at := GuardAt(s, pos) + |guard|;
    if s.handler.Some? && s.binds.Some? {
      RescueLen(s, x, at);
      CodeAtSplit(code, pos, load + guard, Rescue(s, x, at));
    }
    CodeAtSplit(code, pos, load, guard);
    LoadPlaces(code, s, x, pos);
  }

  function CatchState(s: Stmt, st: State): State
    requires s.Catch?
  {
    if s.binds.Some? then st.Declare(s.binds.value, Nil) else st
  }

  /** What a `catch` does after its body: nothing, or its handler unless its variable is nil. */
  function Handle(ops: Ops, s: Stmt, r: Ended, turns: nat): Ended
    requires s.Catch? && r.st.Valid() && (s.binds.Some? && r.how.Normal? ==> |r.st.names| > 0)
  {
    if !r.how.Normal? || s.handler.None? || s.binds.None? then r
    else
      match ops.cmp(Neq, r.st.vals[|r.st.vals| - 1], Nil)
      case Ok(v) => if Falsey(v) then r else Exec(ops, AsEmitted, s.handler.value, r.st, turns)
      case Err(x) => Raises(x, r.st)
  }

  /** How the guarded body of a `catch` ended, as seen after it. */
  function Guarding(ops: Ops, s: Stmt, st: State, turns: nat): Ended
    requires s.Catch? && st.Valid()
  {
    var st0 := CatchState(s, st);
    Caught(Exec(ops, AsEmitted, s.body, st0, turns), |st0.names|, s.binds.Some?)
  }

  lemma {:induction false} CatchExec(ops: Ops, s: Stmt, x: Ctx, st: State, own: bool, turns: nat)
    requires s.Catch? && st.Valid() && Fits(s, x.loop.InLoop?, own)
    ensures
      var st0 := CatchState(s, st);
      var r := Guarding(ops, s, st, turns);
      && st0.Valid() && r.st.Valid() && (s.binds.Some? ==> |st0.names| > 0)
      && (r.how.Normal? ==> r.st.names == st0.names)
      && Exec(ops, AsEmitted, s, st, turns) == Handle(ops, s, r, turns)
      && FitsIn(s.body, x.loop.InLoop?) && (s.handler.Some? ==> s.binds.Some? && FitsIn(s.handler.value, x.loop.InLoop?))
  {
    NoNewLocals(ops, AsEmitted, s.body, CatchState(s, st), turns, x.loop.InLoop?, false);
    hide Fits;
  }

  lemma {:induction false} CatchScope(s: Stmt, x: Ctx, own: bool)
    requires s.Catch? && Fits(s, x.loop.InLoop?, own)
    ensures
      var u := CatchCtx(s.binds, x);
      var z := After(s.body, u);
      && Extends(x, u) && u.loop == x.loop && z.loop == x.loop
      && z.env == u.env && u.next <= z.next
      && (s.handler.None? ==> After(s, x) == z)
      && (s.handler.Some? ==> After(s, x) == After(s.handler.value, z))
      && After(s, x).env == u.env && z.next <= After(s, x).next
  {
    var u := CatchCtx(s.binds, x);
    SameScope(s.body, u, x.loop.InLoop?, false);
    if s.handler.Some? { SameScope(s.handler.value, After(s.body, u), x.loop.InLoop?, false); }
  }

  lemma {:induction false} SimCatch(ops: Ops, code: seq<Instr>, s: Stmt, x: Ctx, pos: nat, st: State, c: Config, own: bool, turns: nat) returns (c1: Config, k: nat)
    requires s.Catch? && Starts(code, s, x, pos, st, c, own)
    ensures Ends(ops, code, c, k, c1, Exec(ops, AsEmitted, s, st, turns), x, After(s, x), pos + |StmtCode(s, x, pos)|, turns)
    ensures Faithful(ops, s, st, turns) ==> Ends(ops, code, c, k, c1, Exec(ops, AsWritten, s, st, turns), x, After(s, x), pos + |StmtCode(s, x, pos)|, turns)
    decreases turns, s, 2
  {
    hide *;
    StartsParts(code, s, x, pos, st, c, own);
    if Faithful(ops, s, st, turns) { FaithfulIsSame(ops, s, st, turns); }
    CatchExec(ops, s, x, st, own, turns);
    CatchScope(s, x, own);
    CatchPlaces(code, s, x, pos);
    var u := CatchCtx(s.binds, x);
    c1, k := SimDeclare(ops, code, s, x, pos, st, c);
    TargetsKept(x, u, c, c1, own);
    TargetsKept(x, x, c, c1, own);
    var c2, j := SimGuarded(ops, code, s, x, pos, st, c1, turns);
    var c3, i := SimHandler(ops, code, s, x, pos, Guarding(ops, s, st, turns), c1, j, c2, own, turns);
    Follow(ops, code, c, k, c1, i, c3, Exec(ops, AsEmitted, s, st, turns), x, u, After(s, x), pos + |StmtCode(s, x, pos)|, turns, turns);
    c1, k := c3, k + i;
  }

  /** The variable of a `catch` starts as nil. */
  lemma {:induction false} SimDeclare(ops: Ops, code: seq<Instr>, s: Stmt, x: Ctx, pos: nat, st: State, c: Config) returns (c1: Config, k: nat)
    requires s.Catch? && Ready(x.env, x.next, st, c) && c.pc == pos && CodeAt(code, pos, StmtCode(s, x, pos))
    ensures Steps(ops, code, Running(c), k) == Running(c1) && c1.pc == GuardAt(s, pos) && c1.handlers == c.handlers
    ensures var u := CatchCtx(s.binds, x); Ready(u.env, u.next, CatchState(s, st), c1)
  {
    hide StmtCode, CodeAt;
    CatchPlaces(code, s, x, pos);
    StepsNone(ops, code, c);
    if s.binds.None? {
      c1, k := c, 0;
    } else {
      OneStep(ops, code, c, 0, c);
      k := 1;
      c1 := c.(pc := pos + 1, regs := c.regs[x.next := Nil]);
    }
  }

  /** A handler is pushed, the body runs, and either way the handler is gone after it. */
  lemma {:induction false} SimGuarded(ops: Ops, code: seq<Instr>, s: Stmt, x: Ctx, pos: nat, st: State, c: Config, turns: nat) returns (c1: Config, k: nat)
    requires s.Catch? && |x.env.names| == |x.env.regs| && st.Valid()
    requires var u := CatchCtx(s.binds, x); Ready(u.env, u.next, CatchState(s, st), c) && Targets(u, c, false) && FitsIn(s.body, u.loop.InLoop?)
    requires c.pc == GuardAt(s, pos) && CodeAt(code, c.pc, Guard(s, x, pos))
    ensures var u := CatchCtx(s.binds, x);
            Ends(ops, code, c, k, c1, Guarding(ops, s, st, turns), u, After(s.body, u), c.pc + |Guard(s, x, pos)|, turns)
    decreases turns, s, 1
  {
    hide *;
    var u, st0 := CatchCtx(s.binds, x), CatchState(s, st);
    ReadyFacts(u.env, u.next, st0, c);
    GuardPlaces(code, s, x, pos);
    var o := OpenOne(u);
    var at := GuardAt(s, pos) + 1;
    var end := at + |StmtCode(s.body, o, at)|;
    var c0 := PushStep(ops, code, c, u, o, st0, CatchVar(s, x), end - at + 1);
    InnerFits(s.body, u, o);
    MakeStarts(code, s.body, o, at, st0, c0, false);
    var c2, j := SimStmt(ops, code, s.body, o, at, st0, c0, false, turns);
    AfterAlike(s.body, u, o);
    SameScope(s.body, u, u.loop.InLoop?, false);
    var r := Exec(ops, AsEmitted, s.body, st0, turns);
    GuardingIs(ops, s, x, st, turns);
    c1, k := Unguard(ops, code, c, c0, j, c2, r, u, o, After(s.body, u), After(s.body, o), end, st0, CatchVar(s, x), turns);
  }

  lemma {:induction false} GuardPlaces(code: seq<Instr>, s: Stmt, x: Ctx, pos: nat)
    requires s.Catch? && |x.env.names| == |x.env.regs| && CodeAt(code, GuardAt(s, pos), Guard(s, x, pos))
    ensures
      var o, at := OpenOne(CatchCtx(s.binds, x)), GuardAt(s, pos) + 1;
      var body := StmtCode(s.body, o, at);
      && 0 <= at - 1 && at + |body| < |code|
      && code[at - 1] == PushCatch(CatchVar(s, x), |body| + 1)
      && CodeAt(code, at, body) && code[at + |body|] == PopCatch
      && |Guard(s, x, pos)| == |body| + 2
      && |o.env.names| == |o.env.regs|
  {
    hide StmtCode, CodeAt, Guarded;
    GuardedLayout(code, GuardAt(s, pos), CatchVar(s, x), StmtCode(s.body, OpenOne(CatchCtx(s.binds, x)), GuardAt(s, pos) + 1));
  }

  lemma {:induction false} InnerFits(body: Stmt, u: Ctx, o: Ctx)
    requires FitsIn(body, u.loop.InLoop?) && o == OpenOne(u)
    ensures Fits(body, o.loop.InLoop?, false) && Fits(body, u.loop.InLoop?, false) && !Declares(body)
    ensures o.env == u.env && o.next == u.next
  {
  }

  lemma {:induction false} PushStep(ops: Ops, code: seq<Instr>, c: Config, u: Ctx, o: Ctx, st: State, v: Option<Reg>, offset: int) returns (c1: Config)
    requires Ready(u.env, u.next, st, c) && Targets(u, c, false) && o == OpenOne(u)
    requires 0 <= c.pc < |code| && code[c.pc] == PushCatch(v, offset)
    ensures Steps(ops, code, Running(c), 1) == Running(c1) && c1.pc == c.pc + 1
    ensures c1.handlers == c.handlers + [Handler(c.pc + 1 + offset, v)]
    ensures Ready(o.env, o.next, st, c1) && Targets(o, c1, false)
  {
    StepsNone(ops, code, c);
    OneStep(ops, code, c, 0, c);
    c1 := c.(pc := c.pc + 1, handlers := c.handlers + [Handler(c.pc + 1 + offset, v)]);
  }

  lemma {:induction false} GuardingIs(ops: Ops, s: Stmt, x: Ctx, st: State, turns: nat)
    requires s.Catch? && st.Valid()
    ensures
      var st0, u := CatchState(s, st), CatchCtx(s.binds, x);
      var r := Exec(ops, AsEmitted, s.body, st0, turns);
      && st0.Valid() && r.st.Valid() && |st0.names| <= |r.st.names| && st0.names == r.st.names[..|st0.names|]
      && (CatchVar(s, x).Some? ==> |st0.names| > 0 && |u.env.regs| > 0 && CatchVar(s, x).value == u.env.regs[|u.env.regs| - 1])
      && Guarding(ops, s, st, turns) == Caught(r, |st0.names|, CatchVar(s, x).Some?)
  {
  }

  /** However the guarded body ended, after `PopCatch` or unwinding its handler is gone. */
  lemma {:induction false} Unguard(ops: Ops, code: seq<Instr>, c: Config, c0: Config, j: nat, c2: Config, r: Ended, u: Ctx, o: Ctx, z: Ctx, z1: Ctx, end: int, st: State, v: Option<Reg>, turns: nat)
    returns (c1: Config, k: nat)
    requires Ready(u.env, u.next, st, c) && Targets(u, c, false)
    requires Steps(ops, code, Running(c), 1) == Running(c0) && c0.handlers == c.handlers + [Handler(end + 1, v)]
    requires Ends(ops, code, c0, j, c2, r, o, z1, end, turns) && o == OpenOne(u)
    requires 0 <= end < |code| && code[end] == PopCatch
    requires z.env == u.env && u.next <= z.next && z1.env == z.env && z1.next == z.next
    requires r.st.Valid() && |st.names| <= |r.st.names| && st.names == r.st.names[..|st.names|]
    requires v.Some? ==> |st.names| > 0 && |u.env.regs| > 0 && v.value == u.env.regs[|u.env.regs| - 1]
    ensures Ends(ops, code, c, k, c1, Caught(r, |st.names|, v.Some?), u, z, end + 1, turns)
  {
    StepsAdd(ops, code, Running(c), 1, j);
    if r.how.Normal? {
      OneStep(ops, code, c, 1 + j, c2);
      c1, k := c2.(pc := end + 1, handlers := c.handlers), 2 + j;
      PopBack(ops, code, c2, c.handlers, end, v);
      assert Agrees(u.env, r.st, c1);
      assert Ready(z.env, z.next, r.st, c1);
    } else if r.how.Raised? {
      c1 := CatchLands(c, c2, r, u, z, end, st, v);
      k := 1 + j;
    } else {
      c1, k := c2, 1 + j;
      DroppedMore(c.handlers, Handler(end + 1, v), if u.loop.InLoop? then u.loop.opens else 0);
    }
  }

  lemma {:induction false} PopBack(ops: Ops, code: seq<Instr>, c: Config, handlers: seq<Handler>, end: int, v: Option<Reg>)
    requires 0 <= end < |code| && code[end] == PopCatch && c.pc == end
    requires c.handlers == handlers + [Handler(end + 1, v)]
    ensures Step(ops, code, Running(c)) == Running(c.(pc := end + 1, handlers := handlers))
  {
    assert c.handlers[..|c.handlers| - 1] == handlers;
  }

  lemma {:induction false} DroppedMore(handlers: seq<Handler>, h: Handler, opens: nat)
    ensures Dropped(handlers + [h], opens + 1) == Dropped(handlers, opens)
  {
  }

  /** Unwinding to a handler puts the error in its variable and goes on after the body. */
  lemma {:induction false} CatchLands(c: Config, c2: Config, r: Ended, u: Ctx, z: Ctx, end: int, st: State, v: Option<Reg>) returns (c1: Config)
    requires r.how.Raised? && Ready(u.env, u.next, st, c) && Agrees(u.env, r.st, c2)
    requires c2.handlers == c.handlers + [Handler(end + 1, v)]
    requires z.env == u.env && u.next <= z.next
    requires r.st.Valid() && |st.names| <= |r.st.names| && st.names == r.st.names[..|st.names|]
    requires v.Some? ==> |st.names| > 0 && |u.env.regs| > 0 && v.value == u.env.regs[|u.env.regs| - 1]
    ensures Unwind(c2, r.how.err) == Running(c1) && c1.pc == end + 1 && c1.handlers == c.handlers
    ensures
      var q := Caught(r, |st.names|, v.Some?);
      q.how.Normal? && Agrees(u.env, q.st, c1) && Ready(z.env, z.next, q.st, c1)
  {
    var n := |st.names|;
    c1 := c2.(pc := end + 1, handlers := c.handlers, regs := if v.Some? then c2.regs[v.value := r.how.err] else c2.regs);
    assert c2.handlers[..|c2.handlers| - 1] == c.handlers;
    var q := Caught(r, n, v.Some?);
    assert q.st.names == st.names;
    forall i | 0 <= i < n ensures Get(c1.regs, u.env.regs[i]) == q.st.vals[i] {
      assert v.Some? && i < n - 1 ==> u.env.regs[i] != v.value;
    }
  }

  /** The test for an error, and the handler if there is one. */
  lemma {:induction false} SimHandler(ops: Ops, code: seq<Instr>, s: Stmt, x: Ctx, pos: nat, r: Ended, c: Config, k: nat, c1: Config, own: bool, turns: nat) returns (c2: Config, j: nat)
    requires s.Catch? && |x.env.names| == |x.env.regs| && CodeAt(code, pos, StmtCode(s, x, pos))
    requires r.st.Valid() && (s.binds.Some? && r.how.Normal? ==> |r.st.names| > 0)
    requires Fits(s, x.loop.InLoop?, own) && Targets(x, c, own)
    requires var u := CatchCtx(s.binds, x); Ends(ops, code, c, k, c1, r, u, After(s.body, u), GuardAt(s, pos) + |Guard(s, x, pos)|, turns)
    ensures var u := CatchCtx(s.binds, x);
            Ends(ops, code, c, j, c2, Handle(ops, s, r, turns), u, After(s, x), pos + |StmtCode(s, x, pos)|, turns)
    decreases turns, s, 1
  {
    hide *;
    var u := CatchCtx(s.binds, x);
    var z, at, end := After(s.body, u), GuardAt(s, pos) + |Guard(s, x, pos)|, pos + |StmtCode(s, x, pos)|;
    CatchPlaces(code, s, x, pos);
    CatchScope(s, x, own);
    HandleIs(ops, s, x, r, own, turns);
    if !r.how.Normal? || s.handler.None? {
      Land(ops, code, c, k, c1, r, u, z, at, After(s, x), end, turns);
      c2, j := c1, k;
    } else {
      EndsNormally(ops, code, c, k, c1, r, u, z, at, turns);
      TargetsKept(x, z, c, c1, own);
      assert r == Ended(Normal, r.st);
      var c3, i := SimRescue(ops, code, s, x, at, r.st, c1, turns);
      AfterExtends(s.body, u);
      Follow(ops, code, c, k, c1, i, c3, Handle(ops, s, r, turns), u, z, After(s, x), end, turns, turns);
      c2, j := c3, k + i;
    }
  }

  lemma {:induction false} HandleIs(ops: Ops, s: Stmt, x: Ctx, r: Ended, own: bool, turns: nat)
    requires s.Catch? && r.st.Valid() && (s.binds.Some? && r.how.Normal? ==> |r.st.names| > 0)
    requires Fits(s, x.loop.InLoop?, own)
    ensures s.handler.Some? ==> s.binds.Some? && FitsIn(s.handler.value, x.loop.InLoop?)
    ensures !r.how.Normal? || s.handler.None? ==> Handle(ops, s, r, turns) == r
    ensures |CatchCtx(s.binds, x).env.names| == |x.env.names| + if s.binds.Some? then 1 else 0
    ensures |CatchCtx(s.binds, x).env.regs| == |x.env.regs| + if s.binds.Some? then 1 else 0
  {
    hide Exec;
  }

  /** From the end of a `catch` body with a handler, normally reached. */
  lemma {:induction false} SimRescue(ops: Ops, code: seq<Instr>, s: Stmt, x: Ctx, pos: nat, st: State, c: Config, turns: nat) returns (c1: Config, k: nat)
    requires s.Catch? && s.handler.Some? && s.binds.Some? && |x.env.names| == |x.env.regs| && st.Valid()
    requires FitsIn(s.handler.value, x.loop.InLoop?) && |st.names| > 0
    requires
      var u := CatchCtx(s.binds, x);
      var z := After(s.body, u);
      && z.env == u.env && z.loop == x.loop && c.pc == pos
      && Ready(z.env, z.next, st, c) && Targets(z, c, false)
      && CodeAt(code, pos, Rescue(s, x, pos))
    ensures
      var z := After(s.body, CatchCtx(s.binds, x));
      Ends(ops, code, c, k, c1, Handle(ops, s, Ended(Normal, st), turns), z, After(s.handler.value, z), pos + 3 + |StmtCode(s.handler.value, z, pos + 3)|, turns)
    decreases turns, s, 0
  {
    hide *;
    var h, z := s.handler.value, After(s.body, CatchCtx(s.binds, x));
    RescueFacts(ops, s, x, z, st, c, turns);
    var rest := StmtCode(h, z, pos + 3);
    var end := pos + 3 + |rest|;
    RescueIs(s, x, z, pos);
    ForkLayout(code, pos, Unless(x.next, z.next), z.next + 1, rest, false, []);
    c1 := SimUnless(ops, code, x.next, z.next, st.vals[|st.vals| - 1], pos, c);
    var r := ops.cmp(Neq, st.vals[|st.vals| - 1], Nil);
    ComputesCases(ops, code, c, 2, c1, r, z.next + 1, pos + 2, z.next, end);
    if r.Err? {
      k := 2;
      Fails(ops, code, c, k, c1, r, z.next + 1, pos + 2, z, After(h, z), st, end, turns);
    } else {
      c1 := BranchLast(ops, code, c, 2, c1, z.next, true, z.next + 1, |rest|);
      k := 3;
      KeptReady(z.env, z.next, st, c, c1, z.next);
      KeptHandlers(c, c1, z.next);
      if Falsey(r.v) {
        EndsHere(ops, code, c, k, c1, st, z, After(h, z), turns);
      } else {
        TargetsKept(z, z, c, c1, false);
        InnerFits(h, z, OpenOne(z));
        MakeStarts(code, h, z, pos + 3, st, c1, false);
        var c2, j := SimStmt(ops, code, h, z, pos + 3, st, c1, false, turns);
        ExtendsSelf(z);
        Follow(ops, code, c, k, c1, j, c2, Exec(ops, AsEmitted, h, st, turns), z, z, After(h, z), end, turns, turns);
        c1, k := c2, k + j;
      }
    }
  }

  lemma {:induction false} RescueIs(s: Stmt, x: Ctx, z: Ctx, at: nat)
    requires s.Catch? && s.handler.Some? && |x.env.names| == |x.env.regs| && z == After(s.body, CatchCtx(s.binds, x))
    ensures Rescue(s, x, at) == Fork(Unless(x.next, z.next), z.next + 1, StmtCode(s.handler.value, z, at + 3), false, [])
  {
  }

  lemma {:induction false} RescueFacts(ops: Ops, s: Stmt, x: Ctx, z: Ctx, st: State, c: Config, turns: nat)
    requires s.Catch? && s.handler.Some? && s.binds.Some? && FitsIn(s.handler.value, x.loop.InLoop?)
    requires |x.env.names| == |x.env.regs| && st.Valid() && |st.names| > 0
    requires z.env == CatchCtx(s.binds, x).env && Ready(z.env, z.next, st, c)
    ensures
      var h := s.handler.value;
      var v := st.vals[|st.vals| - 1];
      var r := ops.cmp(Neq, v, Nil);
      && |st.vals| > 0 && |z.env.names| == |z.env.regs| && Get(c.regs, x.next) == v && x.next < z.next
      && After(h, z).env == z.env && z.next <= After(h, z).next
      && |Unless(x.next, z.next)| == 2
      && Handle(ops, s, Ended(Normal, st), turns) ==
           if r.Err? then Raises(r.err, st) else if Falsey(r.v) then Ended(Normal, st) else Exec(ops, AsEmitted, h, st, turns)
  {
    SameScope(s.handler.value, z, x.loop.InLoop?, false);
    hide Exec, After, FitsIn;
    assert z.env.regs[|z.env.regs| - 1] == x.next;
  }

  lemma {:induction false} SimUnless(ops: Ops, code: seq<Instr>, v: Reg, m: nat, val: Value, pos: nat, c: Config) returns (c2: Config)
    requires c.pc == pos && CodeAt(code, pos, Unless(v, m)) && Get(c.regs, v) == val && v < m
    ensures Computes(ops, code, c, 2, c2, ops.cmp(Neq, val, Nil), m + 1, pos + 2, m)
  {
    assert code[pos..pos + 2] == [LoadNil(m), Compare(Neq, m + 1, v, m)];
    assert code[pos] == LoadNil(m) && code[pos + 1] == Compare(Neq, m + 1, v, m);
    var c1 := c.(pc := pos + 1, regs := c.regs[m := Nil]);
    var r := ops.cmp(Neq, val, Nil);
    c2 := if r.Ok? then c1.(pc := pos + 2, regs := c1.regs[m + 1 := r.v]) else c1;
    StepsNone(ops, code, c);
    OneStep(ops, code, c, 0, c);
    OneStep(ops, code, c, 1, c1);
  }
}
