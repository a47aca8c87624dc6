/** Which handlers are open at each instruction of compiled code. */
module Handlers {
  import opened Shapes
  import opened Bytecode
  import opened Values
  import opened Core
  import opened Machine
  import opened CodeGen
  import opened CodeLayout
  import opened ExprSim
  import opened StmtSim
  import opened ProgramSim
  import opened Functions

  /** The handlers without the innermost `n`. */
  function Without(hs: seq<Handler>, n: nat): seq<Handler> {
    if n <= |hs| then hs[..|hs| - n] else []
  }

  /** The handlers in the body of a `catch`: its own is the innermost. */
  function Opened(s: Stmt, x: Ctx, pos: nat, hs: seq<Handler>): (inner: seq<Handler>)
    requires s.Catch? && |x.env.names| == |x.env.regs|
    ensures |inner| == |hs| + 1 && Without(inner, 1) == hs
  {
    var at := GuardAt(s, pos) + 1;
    hs + [Handler(at + |StmtCode(s.body, OpenOne(CatchCtx(s.binds, x)), at)| + 1, CatchVar(s, x))]
  }

  /** The handlers of the `catch` bodies the compiler has open when it emits instruction `i` of a
      statement, `hs` those around the statement. Leaving a loop takes one handler off at each
      `PopCatch`. */
  function StackOf(s: Stmt, x: Ctx, pos: nat, hs: seq<Handler>, i: nat): seq<Handler>
    requires |x.env.names| == |x.env.regs|
    decreases s, 1
  {
    match s
    case Block(ss) => SeqStack(ss, x, pos, hs, i)
    case If(_, t, f) =>
      var at := YesAt(s, x, pos);
      var no := at + IfSkip(s, x, pos);
      if at <= i < at + |StmtCode(t, x, at)| then StackOf(t, x, at, hs, i)
      else if f.Some? && no <= i then StackOf(f.value, After(t, x), no, hs, i)
      else hs
    case While(_, body) =>
      var at, y := BodyAt(s, x, pos), InBody(s, x, pos);
      if at <= i < at + |StmtCode(body, y, at)| then StackOf(body, y, at, hs, i) else hs
    case Catch(body, handler, binds) =>
      var u, at := CatchCtx(binds, x), GuardAt(s, pos) + 1;
      var end := at + |StmtCode(body, OpenOne(u), at)|;
      if at <= i < end then StackOf(body, OpenOne(u), at, Opened(s, x, pos, hs), i)
      else if i == end then Opened(s, x, pos, hs)
      else if handler.Some? && binds.Some? && end + 4 <= i then StackOf(handler.value, After(body, u), end + 4, hs, i)
      else hs
    case Break => if x.loop.InLoop? && x.loop.opens <= |hs| && pos <= i <= pos + x.loop.opens then Without(hs, i - pos) else hs
    case Continue => if x.loop.InLoop? && x.loop.opens <= |hs| && pos <= i <= pos + x.loop.opens then Without(hs, i - pos) else hs
    case _ => hs
  }

  function SeqStack(ss: seq<Stmt>, x: Ctx, pos: nat, hs: seq<Handler>, i: nat): seq<Handler>
    requires |x.env.names| == |x.env.regs|
    decreases ss, 0
  {
    if ss == [] then hs
    else
      var n := |ss| - 1;
      var at := pos + |SeqCode(ss[..n], x, pos)|;
      if ss[n].FixContinue? then SeqStack(ss[..n], FixedCtx(x, at), pos, hs, i)
      else if i < at then SeqStack(ss[..n], x, pos, hs, i)
      else StackOf(ss[n], AfterSeq(ss[..n], x), at, hs, i)
  }

  /** Control may go to `j` with the handlers `hs` open. */
  predicate At(stacks: seq<seq<Handler>>, j: int, hs: seq<Handler>) {
    0 <= j < |stacks| && stacks[j] == hs
  }

  /** Wherever instruction `i` goes, the open handlers are the ones expected there. */
  predicate Level(code: seq<Instr>, stacks: seq<seq<Handler>>, i: nat)
    requires i < |code| && i < |stacks|
  {
    var hs := stacks[i];
    match code[i]
    case Jmp(offset) => At(stacks, i + 1 + offset, hs)
    case JmpIfFalse(_, offset) => At(stacks, i + 1, hs) && At(stacks, i + 1 + offset, hs)
    case JmpIfTrue(_, offset) => At(stacks, i + 1, hs) && At(stacks, i + 1 + offset, hs)
    case Ret(_) => true
    case Raise(_) => true
    case PushCatch(v, offset) => At(stacks, i + 1, hs + [Handler(i + 1 + offset, v)]) && At(stacks, i + 1 + offset, hs)
    case PopCatch => hs != [] && At(stacks, i + 1, Without(hs, 1))
    case On(_) => false
    case _ => At(stacks, i + 1, hs)
  }

  /** Code that opens and closes no handler and jumps only within itself or to its end. */
  predicate Closed(frag: seq<Instr>) {
    forall i :: 0 <= i < |frag| ==> ClosedAt(frag[i], i, |frag|)
  }

  predicate ClosedAt(ins: Instr, i: int, n: int) {
    match ins
    case Jmp(offset) => 0 <= i + 1 + offset <= n
    case JmpIfFalse(_, offset) => 0 <= i + 1 + offset <= n
    case JmpIfTrue(_, offset) => 0 <= i + 1 + offset <= n
    case PushCatch(_, _) => false
    case PopCatch => false
    case On(_) => false
    case _ => true
  }

  lemma {:induction false} ClosedConcat(a: seq<Instr>, b: seq<Instr>)
    requires Closed(a) && Closed(b)
    ensures Closed(a + b)
  {
    var ab := a + b;
    forall i | 0 <= i < |ab| ensures ClosedAt(ab[i], i, |ab|) {
      if i < |a| { assert ClosedAt(a[i], i, |a|); } else { assert ClosedAt(b[i - |a|], i - |a|, |b|); }
    }
  }

  /** A jump over the code after it. */
  lemma {:induction false} ClosedOver(a: seq<Instr>, j: Instr, b: seq<Instr>, tail: seq<Instr>)
    requires Closed(a) && Closed(b) && Closed(tail)
    requires ClosedAt(j, 0, 1 + |b|)
    ensures Closed(a + [j] + b + tail)
  {
    var jb := [j] + b;
    forall i | 0 <= i < |jb| ensures ClosedAt(jb[i], i, |jb|) {
      if i > 0 { assert ClosedAt(b[i - 1], i - 1, |b|); }
    }
    ClosedConcat(a, jb);
    ClosedConcat(a + jb, tail);
    assert a + [j] + b + tail == a + jb + tail;
  }

  lemma {:induction false} ExprClosed(e: Expr, env: Scope, m: nat)
    requires |env.names| == |env.regs|
    ensures Closed(ExprCode(e, env, m))
    decreases e, 1
  {
    match e
    case UnaryOf(op, a) => ExprClosed(a, env, m);
    case Binary(a, _, b) => ExprClosed(a, env, m); ExprClosed(b, env, m + 1);
    case Logical(a, _, b) => ExprClosed(a, env, m); ExprClosed(b, env, m + 1);
    case Circuit(_, _, _) => CircuitIsClosed(e, env, m);
    case Grouping(a) => ExprClosed(a, env, m);
    case Condition(_, _, _) => ConditionIsClosed(e, env, m);
    case _ =>
  }

  lemma {:induction false} CircuitIsClosed(e: Expr, env: Scope, m: nat)
    requires e.Circuit? && |env.names| == |env.regs|
    ensures Closed(ExprCode(e, env, m))
    decreases e, 0
  {
    var a, b := e.left, e.right;
    var first, rest := ExprCode(a, env, m) + MoveTo(m, ExprReg(a, env, m)), ExprCode(b, env, m + 1) + MoveTo(m, ExprReg(b, env, m + 1));
    assert ExprCode(e, env, m) == first + [Branch(e.isAnd, m, |rest|)] + rest + [];
    hide ExprCode;
    ExprClosed(a, env, m);
    ExprClosed(b, env, m + 1);
    ClosedOver(first, Branch(e.isAnd, m, |rest|), rest, []);
  }

  lemma {:induction false} ConditionIsClosed(e: Expr, env: Scope, m: nat)
    requires e.Condition? && |env.names| == |env.regs|
    ensures Closed(ExprCode(e, env, m))
    decreases e, 0
  {
    var c, t, f := e.cond, e.truth, e.falsy;
    var yes, no := ExprCode(t, env, m) + MoveTo(m, ExprReg(t, env, m)), ExprCode(f, env, m) + MoveTo(m, ExprReg(f, env, m));
    var j := JmpIfFalse(ExprReg(c, env, m), |yes| + 1);
    assert ExprCode(e, env, m) == ExprCode(c, env, m) + [j] + (yes + [Jmp(|no|)]) + no;
    hide ExprCode;
    ExprClosed(c, env, m);
    ExprClosed(t, env, m);
    ExprClosed(f, env, m);
    ConditionClosed(ExprCode(c, env, m), j, yes, no);
  }

  lemma {:induction false} ConditionClosed(test: seq<Instr>, j: Instr, yes: seq<Instr>, no: seq<Instr>)
    requires Closed(test) && Closed(yes) && Closed(no) && j.JmpIfFalse? && j.offset == |yes| + 1
    ensures Closed(test + [j] + (yes + [Jmp(|no|)]) + no)
  {
    var t := yes + [Jmp(|no|)] + no;
    ClosedOver(yes, Jmp(|no|), no, []);
    assert yes + [Jmp(|no|)] + no + [] == t;
    var jt := [j] + t;
    forall i | 0 <= i < |jt| ensures ClosedAt(jt[i], i, |jt|) {
      if i > 0 { assert ClosedAt(t[i - 1], i - 1, |t|); }
    }
    ClosedConcat(test, jt);
    assert test + [j] + (yes + [Jmp(|no|)]) + no == test + jt;
  }

  /** Closed code runs at one level. */
  lemma {:induction false} ClosedLevels(code: seq<Instr>, stacks: seq<seq<Handler>>, pos: nat, frag: seq<Instr>, hs: seq<Handler>)
    requires |stacks| == |code| && CodeAt(code, pos, frag) && Closed(frag)
    requires forall i :: pos <= i <= pos + |frag| ==> At(stacks, i, hs)
    ensures forall i: nat :: pos <= i < pos + |frag| ==> Level(code, stacks, i)
  {
    forall i: nat | pos <= i < pos + |frag| ensures Level(code, stacks, i) {
      assert code[pos..pos + |frag|][i - pos] == frag[i - pos];
      assert ClosedAt(frag[i - pos], i - pos, |frag|);
      assert At(stacks, i, hs) && At(stacks, i + 1, hs);
    }
  }

  // Statements.

  lemma {:induction false} StartIs(s: Stmt, x: Ctx, pos: nat, hs: seq<Handler>)
    requires |x.env.names| == |x.env.regs|
    ensures StackOf(s, x, pos, hs, pos) == hs
    decreases s, 1
  {
    hide StmtCode, SeqCode, ExprCode, After;
    if s.Block? { SeqStartIs(s.stmts, x, pos, hs); }
  }

  lemma {:induction false} SeqStartIs(ss: seq<Stmt>, x: Ctx, pos: nat, hs: seq<Handler>)
    requires |x.env.names| == |x.env.regs|
    ensures SeqStack(ss, x, pos, hs, pos) == hs
    decreases ss, 0
  {
    hide StmtCode, SeqCode, StackOf, AfterSeq;
    if ss != [] {
      var n := |ss| - 1;
      var at := pos + |SeqCode(ss[..n], x, pos)|;
      SeqStartIs(ss[..n], FixedCtx(x, at), pos, hs);
      SeqStartIs(ss[..n], x, pos, hs);
      StartIs(ss[n], AfterSeq(ss[..n], x), at, hs);
    }
  }

  /** `stacks` has the compiler's handlers at every instruction of a statement, and `hs` after it. */
  ghost predicate Marked(stacks: seq<seq<Handler>>, s: Stmt, x: Ctx, pos: nat, hs: seq<Handler>)
    requires |x.env.names| == |x.env.regs|
  {
    && At(stacks, pos + |StmtCode(s, x, pos)|, hs)
    && forall i: nat :: pos <= i < pos + |StmtCode(s, x, pos)| ==> At(stacks, i, StackOf(s, x, pos, hs, i))
  }

  ghost predicate SeqMarked(stacks: seq<seq<Handler>>, ss: seq<Stmt>, x: Ctx, pos: nat, hs: seq<Handler>)
    requires |x.env.names| == |x.env.regs|
  {
    && At(stacks, pos + |SeqCode(ss, x, pos)|, hs)
    && forall i: nat :: pos <= i < pos + |SeqCode(ss, x, pos)| ==> At(stacks, i, SeqStack(ss, x, pos, hs, i))
  }

  /** The loop's targets are where its inner handlers are gone. */
  ghost predicate LoopMarked(stacks: seq<seq<Handler>>, x: Ctx, hs: seq<Handler>, own: bool) {
    && (x.loop.InLoop? ==>
          && x.loop.opens <= |hs| && x.loop.brk.Some?
          && At(stacks, x.loop.brk.value, Without(hs, x.loop.opens)) && At(stacks, x.loop.cont, Without(hs, x.loop.opens)))
    && (own ==> x.loop.InLoop? && x.loop.opens == 0)
  }

  ghost predicate AllLevel(code: seq<Instr>, stacks: seq<seq<Handler>>, lo: nat, hi: nat) {
    |stacks| == |code| && hi <= |code| && forall i: nat :: lo <= i < hi ==> Level(code, stacks, i)
  }

  lemma {:induction false} StmtLevels(code: seq<Instr>, stacks: seq<seq<Handler>>, s: Stmt, x: Ctx, pos: nat, hs: seq<Handler>, own: bool)
    requires |stacks| == |code| && |x.env.names| == |x.env.regs| && CodeAt(code, pos, StmtCode(s, x, pos))
    requires Fits(s, x.loop.InLoop?, own) && Marked(stacks, s, x, pos, hs) && LoopMarked(stacks, x, hs, own)
    ensures AllLevel(code, stacks, pos, pos + |StmtCode(s, x, pos)|)
    decreases s, 2
  {
    hide *;
    match s
    case Block(_) => BlockLevels(code, stacks, s, x, pos, hs, own);
    case If(_, _, _) => IfLevels(code, stacks, s, x, pos, hs, own);
    case While(_, _) => WhileLevels(code, stacks, s, x, pos, hs, own);
    case Catch(_, _, _) => CatchLevels(code, stacks, s, x, pos, hs, own);
    case Break => JumpLevels(code, stacks, s, x, pos, hs, own);
    case Continue => JumpLevels(code, stacks, s, x, pos, hs, own);
    case FixContinue => FixDoesNotFit(s, x.loop.InLoop?, own);
    case _ => HasBody(s); SimpleLevels(code, stacks, s, x, pos, hs);
  }

  lemma {:induction false} SimpleLevels(code: seq<Instr>, stacks: seq<seq<Handler>>, s: Stmt, x: Ctx, pos: nat, hs: seq<Handler>)
    requires |stacks| == |code| && |x.env.names| == |x.env.regs| && CodeAt(code, pos, StmtCode(s, x, pos))
    requires Body(s).Some? && Marked(stacks, s, x, pos, hs)
    ensures AllLevel(code, stacks, pos, pos + |StmtCode(s, x, pos)|)
  {
    SimpleCode(s, x, pos);
    var e := Body(s).value;
    var first, tail := ExprCode(e, x.env, x.next), Tail(s, x, ExprReg(e, x.env, x.next));
    ExprClosed(e, x.env, x.next);
    ClosedConcat(first, tail);
    hide StmtCode, ExprCode, Closed, Tail, CodeAt, Level;
    forall i | pos <= i <= pos + |first + tail| ensures At(stacks, i, hs) {
      assert StackOf(s, x, pos, hs, i) == hs;
    }
    ClosedLevels(code, stacks, pos, first + tail, hs);
  }

  lemma {:induction false} JumpLevels(code: seq<Instr>, stacks: seq<seq<Handler>>, s: Stmt, x: Ctx, pos: nat, hs: seq<Handler>, own: bool)
    requires |stacks| == |code| && |x.env.names| == |x.env.regs| && CodeAt(code, pos, StmtCode(s, x, pos))
    requires (s.Break? || s.Continue?) && Fits(s, x.loop.InLoop?, own) && Marked(stacks, s, x, pos, hs) && LoopMarked(stacks, x, hs, own)
    ensures AllLevel(code, stacks, pos, pos + |StmtCode(s, x, pos)|)
  {
    var opens := x.loop.opens;
    var target := if s.Break? then x.loop.brk.value else x.loop.cont;
    assert CodeAt(code, pos, Leaving(opens, pos, Some(target)));
    assert |StmtCode(s, x, pos)| == opens + 1;
    assert forall i: nat :: pos <= i <= pos + opens ==> StackOf(s, x, pos, hs, i) == Without(hs, i - pos);
    hide StmtCode, StackOf;
    forall i: nat | pos <= i < pos + opens + 1 ensures Level(code, stacks, i) {
      assert code[pos..pos + opens + 1][i - pos] == Leaving(opens, pos, Some(target))[i - pos];
      assert code[i] == if i < pos + opens then PopCatch else Jmp(target - (pos + opens + 1));
      assert i < pos + opens ==> StackOf(s, x, pos, hs, i + 1) == Without(hs, i + 1 - pos);
      assert At(stacks, i, StackOf(s, x, pos, hs, i));
    }
  }

  lemma {:induction false} BlockLevels(code: seq<Instr>, stacks: seq<seq<Handler>>, s: Stmt, x: Ctx, pos: nat, hs: seq<Handler>, own: bool)
    requires |stacks| == |code| && |x.env.names| == |x.env.regs| && CodeAt(code, pos, StmtCode(s, x, pos))
    requires s.Block? && Fits(s, x.loop.InLoop?, own) && Marked(stacks, s, x, pos, hs) && LoopMarked(stacks, x, hs, own)
    ensures AllLevel(code, stacks, pos, pos + |StmtCode(s, x, pos)|)
    decreases s, 1
  {
    BlockCode(s, x, pos);
    hide StmtCode, SeqCode, SeqStack, CodeAt, Level;
    assert SeqMarked(stacks, s.stmts, x, pos, hs) by {
      forall i: nat | pos <= i < pos + |SeqCode(s.stmts, x, pos)| ensures At(stacks, i, SeqStack(s.stmts, x, pos, hs, i)) {
        assert StackOf(s, x, pos, hs, i) == SeqStack(s.stmts, x, pos, hs, i);
      }
    }
    SeqLevels(code, stacks, s.stmts, x, pos, hs, own);
  }

  lemma {:induction false} SeqLevels(code: seq<Instr>, stacks: seq<seq<Handler>>, ss: seq<Stmt>, x: Ctx, pos: nat, hs: seq<Handler>, own: bool)
    requires |stacks| == |code| && |x.env.names| == |x.env.regs| && CodeAt(code, pos, SeqCode(ss, x, pos))
    requires FitsSeq(ss, x.loop.InLoop?, own) && SeqMarked(stacks, ss, x, pos, hs) && LoopMarked(stacks, x, hs, own)
    ensures AllLevel(code, stacks, pos, pos + |SeqCode(ss, x, pos)|)
    decreases ss, 1
  {
    hide *;
    if ss == [] {
      EmptyLevels(code, stacks, x, pos);
    } else {
      SeqCodeSteps(ss, x, pos);
      SeqFits(ss, x, own);
      var n := |ss| - 1;
      if ss[n].FixContinue? {
        FixedMarks(stacks, ss, x, pos, hs, own);
        SeqLevels(code, stacks, ss[..n], FixedCtx(x, pos + |SeqCode(ss[..n], x, pos)|), pos, hs, false);
      } else {
        LastLevels(code, stacks, ss, x, pos, hs, own);
      }
    }
  }

  lemma {:induction false} EmptyLevels(code: seq<Instr>, stacks: seq<seq<Handler>>, x: Ctx, pos: nat)
    requires |stacks| == |code| && |x.env.names| == |x.env.regs| && CodeAt(code, pos, SeqCode([], x, pos))
    ensures AllLevel(code, stacks, pos, pos + |SeqCode([], x, pos)|)
  {
  }

  lemma {:induction false} LastLevels(code: seq<Instr>, stacks: seq<seq<Handler>>, ss: seq<Stmt>, x: Ctx, pos: nat, hs: seq<Handler>, own: bool)
    requires |stacks| == |code| && |x.env.names| == |x.env.regs| && CodeAt(code, pos, SeqCode(ss, x, pos))
    requires FitsSeq(ss, x.loop.InLoop?, own) && SeqMarked(stacks, ss, x, pos, hs) && LoopMarked(stacks, x, hs, own)
    requires ss != [] && !ss[|ss| - 1].FixContinue?
    ensures AllLevel(code, stacks, pos, pos + |SeqCode(ss, x, pos)|)
    decreases ss, 0
  {
    hide *;
    SeqCodeSteps(ss, x, pos);
    SeqFits(ss, x, own);
    var n := |ss| - 1;
    var first := SeqCode(ss[..n], x, pos);
    var at, y := pos + |first|, AfterSeq(ss[..n], x);
    CodeAtSplit(code, pos, first, StmtCode(ss[n], y, at));
    LastMarks(stacks, ss, x, pos, hs, own);
    SeqLevels(code, stacks, ss[..n], x, pos, hs, own);
    StmtLevels(code, stacks, ss[n], y, at, hs, false);
    LevelsJoin(code, stacks, pos, at, pos + |SeqCode(ss, x, pos)|);
  }

  lemma {:induction false} LevelsJoin(code: seq<Instr>, stacks: seq<seq<Handler>>, lo: nat, mid: nat, hi: nat)
    requires lo <= mid <= hi && AllLevel(code, stacks, lo, mid) && AllLevel(code, stacks, mid, hi)
    ensures AllLevel(code, stacks, lo, hi)
  {
  }

  lemma {:induction false} SeqFits(ss: seq<Stmt>, x: Ctx, own: bool)
    requires ss != [] && FitsSeq(ss, x.loop.InLoop?, own) && |x.env.names| == |x.env.regs|
    ensures
      var n := |ss| - 1;
      var y := AfterSeq(ss[..n], x);
      && y.loop == x.loop && |y.env.names| == |y.env.regs|
      && (ss[n].FixContinue? ==> own && FitsSeq(ss[..n], x.loop.InLoop?, false))
      && (!ss[n].FixContinue? ==> FitsSeq(ss[..n], x.loop.InLoop?, own) && Fits(ss[n], x.loop.InLoop?, false))
  {
  }

  lemma {:induction false} FixedMarks(stacks: seq<seq<Handler>>, ss: seq<Stmt>, x: Ctx, pos: nat, hs: seq<Handler>, own: bool)
    requires ss != [] && |x.env.names| == |x.env.regs| && ss[|ss| - 1].FixContinue? && own
    requires SeqMarked(stacks, ss, x, pos, hs) && LoopMarked(stacks, x, hs, own)
    ensures
      var n := |ss| - 1;
      var y := FixedCtx(x, pos + |SeqCode(ss[..n], x, pos)|);
      && |y.env.names| == |y.env.regs| && (y.loop.InLoop? <==> x.loop.InLoop?)
      && SeqMarked(stacks, ss[..n], y, pos, hs) && LoopMarked(stacks, y, hs, false)
  {
    hide SeqCode, SeqStack, StmtCode, StackOf;
    var n := |ss| - 1;
    var at := pos + |SeqCode(ss[..n], x, pos)|;
    var y := FixedCtx(x, at);
    SeqCodeSteps(ss, x, pos);
    SeqLenAlike(ss[..n], x, y, pos, pos);
    forall i: nat ensures SeqStack(ss, x, pos, hs, i) == SeqStack(ss[..n], y, pos, hs, i) { FixedDepth(ss, x, pos, hs, i); }
  }

  lemma {:induction false} FixedDepth(ss: seq<Stmt>, x: Ctx, pos: nat, hs: seq<Handler>, i: nat)
    requires ss != [] && |x.env.names| == |x.env.regs| && ss[|ss| - 1].FixContinue?
    ensures
      var n := |ss| - 1;
      SeqStack(ss, x, pos, hs, i) == SeqStack(ss[..n], FixedCtx(x, pos + |SeqCode(ss[..n], x, pos)|), pos, hs, i)
  {
    hide SeqCode, StmtCode, StackOf;
  }

  lemma {:induction false} LastMarks(stacks: seq<seq<Handler>>, ss: seq<Stmt>, x: Ctx, pos: nat, hs: seq<Handler>, own: bool)
    requires ss != [] && |x.env.names| == |x.env.regs| && !ss[|ss| - 1].FixContinue?
    requires SeqMarked(stacks, ss, x, pos, hs) && LoopMarked(stacks, x, hs, own)
    ensures
      var n := |ss| - 1;
      var y := AfterSeq(ss[..n], x);
      && SeqMarked(stacks, ss[..n], x, pos, hs) && LoopMarked(stacks, y, hs, false)
      && Marked(stacks, ss[n], y, pos + |SeqCode(ss[..n], x, pos)|, hs)
  {
    hide SeqCode, SeqStack, StackOf, AfterSeq, StmtCode;
    var n := |ss| - 1;
    var y := AfterSeq(ss[..n], x);
    var at := pos + |SeqCode(ss[..n], x, pos)|;
    SeqCodeSteps(ss, x, pos);
    StartIs(ss[n], y, at, hs);
    forall i: nat { SeqStackSteps(ss, x, pos, hs, i); }
    assert At(stacks, at, hs) by {
      assert at < pos + |SeqCode(ss, x, pos)| ==> At(stacks, at, SeqStack(ss, x, pos, hs, at));
    }
    forall i: nat | pos <= i < at ensures At(stacks, i, SeqStack(ss[..n], x, pos, hs, i)) {
      assert At(stacks, i, SeqStack(ss, x, pos, hs, i));
    }
    forall i: nat | at <= i < pos + |SeqCode(ss, x, pos)| ensures At(stacks, i, StackOf(ss[n], y, at, hs, i)) {
      assert At(stacks, i, SeqStack(ss, x, pos, hs, i));
    }
  }

  lemma {:induction false} SeqStackSteps(ss: seq<Stmt>, x: Ctx, pos: nat, hs: seq<Handler>, i: nat)
    requires ss != [] && |x.env.names| == |x.env.regs| && !ss[|ss| - 1].FixContinue?
    ensures
      var n := |ss| - 1;
      var y, at := AfterSeq(ss[..n], x), pos + |SeqCode(ss[..n], x, pos)|;
      SeqStack(ss, x, pos, hs, i) == if i < at then SeqStack(ss[..n], x, pos, hs, i) else StackOf(ss[n], y, at, hs, i)
  {
    hide SeqCode, StackOf, AfterSeq;
  }

  /** A test and the jump after it. */
  lemma {:induction false} TestLevels(code: seq<Instr>, stacks: seq<seq<Handler>>, pos: nat, e: Expr, env: Scope, m: nat, offset: int, hs: seq<Handler>)
    requires |stacks| == |code| && |env.names| == |env.regs| && CodeAt(code, pos, ExprCode(e, env, m))
    requires
      var at := pos + |ExprCode(e, env, m)|;
      && at < |code| && code[at] == Branch(true, ExprReg(e, env, m), offset)
      && (forall i :: pos <= i <= at + 1 ==> At(stacks, i, hs)) && At(stacks, at + 1 + offset, hs)
    ensures AllLevel(code, stacks, pos, pos + |ExprCode(e, env, m)| + 1)
  {
    hide ExprCode, CodeAt, Closed;
    ExprClosed(e, env, m);
    ClosedLevels(code, stacks, pos, ExprCode(e, env, m), hs);
    var at := pos + |ExprCode(e, env, m)|;
    assert At(stacks, at, hs) && At(stacks, at + 1, hs);
    assert Level(code, stacks, at);
  }

  lemma {:induction false} JumpLevel(code: seq<Instr>, stacks: seq<seq<Handler>>, at: nat, offset: int, hs: seq<Handler>)
    requires |stacks| == |code| && at < |code| && code[at] == Jmp(offset) && At(stacks, at, hs) && At(stacks, at + 1 + offset, hs)
    ensures AllLevel(code, stacks, at, at + 1)
  {
  }

  lemma {:induction false} IfDepth(s: Stmt, x: Ctx, pos: nat, hs: seq<Handler>, i: nat)
    requires s.If? && |x.env.names| == |x.env.regs|
    ensures
      var at := YesAt(s, x, pos);
      var no := at + IfSkip(s, x, pos);
      StackOf(s, x, pos, hs, i) ==
        if at <= i < at + |StmtCode(s.thenB, x, at)| then StackOf(s.thenB, x, at, hs, i)
        else if s.elseB.Some? && no <= i then StackOf(s.elseB.value, After(s.thenB, x), no, hs, i)
        else hs
  {
    hide StmtCode, After, ExprCode, SeqStack, YesAt, IfSkip;
  }

  /** The mark at one instruction of a statement, or right after it. */
  lemma {:induction false} MarkAt(stacks: seq<seq<Handler>>, s: Stmt, x: Ctx, pos: nat, hs: seq<Handler>, i: nat, e: seq<Handler>)
    requires |x.env.names| == |x.env.regs| && Marked(stacks, s, x, pos, hs) && pos <= i <= pos + |StmtCode(s, x, pos)|
    requires if i < pos + |StmtCode(s, x, pos)| then StackOf(s, x, pos, hs, i) == e else e == hs
    ensures At(stacks, i, e)
  {
  }

  /** The marks of a part of a statement. */
  lemma {:induction false} SubMarked(stacks: seq<seq<Handler>>, s: Stmt, x: Ctx, pos: nat, hs: seq<Handler>, t: Stmt, y: Ctx, at: nat, e: seq<Handler>)
    requires |x.env.names| == |x.env.regs| && Marked(stacks, s, x, pos, hs) && |y.env.names| == |y.env.regs|
    requires pos <= at && at + |StmtCode(t, y, at)| <= pos + |StmtCode(s, x, pos)|
    requires forall i: nat :: at <= i < at + |StmtCode(t, y, at)| ==> StackOf(s, x, pos, hs, i) == StackOf(t, y, at, e, i)
    requires At(stacks, at + |StmtCode(t, y, at)|, e)
    ensures Marked(stacks, t, y, at, e)
  {
    hide StmtCode, StackOf, At;
    forall i: nat | at <= i < at + |StmtCode(t, y, at)| ensures At(stacks, i, StackOf(t, y, at, e, i)) {
      assert At(stacks, i, StackOf(s, x, pos, hs, i));
    }
  }

  lemma {:induction false} IfMarks(stacks: seq<seq<Handler>>, s: Stmt, x: Ctx, pos: nat, hs: seq<Handler>)
    requires s.If? && |x.env.names| == |x.env.regs| && Marked(stacks, s, x, pos, hs)
    requires
      var at := YesAt(s, x, pos);
      var no := at + IfSkip(s, x, pos);
      var end := pos + |StmtCode(s, x, pos)|;
      && (s.elseB.Some? ==> end == no + |StmtCode(s.elseB.value, After(s.thenB, x), no)|)
      && (s.elseB.None? ==> end == no && !Hops(s))
    ensures
      var at := YesAt(s, x, pos);
      var no := at + IfSkip(s, x, pos);
      && Marked(stacks, s.thenB, x, at, hs)
      && (s.elseB.Some? ==> Marked(stacks, s.elseB.value, After(s.thenB, x), no, hs))
      && (forall i :: pos <= i <= at ==> At(stacks, i, hs))
      && (Hops(s) ==> At(stacks, no - 1, hs)) && At(stacks, no, hs) && At(stacks, pos + |StmtCode(s, x, pos)|, hs)
  {
    hide *;
    var at := YesAt(s, x, pos);
    var no := at + IfSkip(s, x, pos);
    var y := After(s.thenB, x);
    SkipIs(s, x, pos);
    StartIs(s.thenB, x, at, hs);
    if s.elseB.Some? { StartIs(s.elseB.value, y, no, hs); }
    forall i: nat { IfDepth(s, x, pos, hs, i); }
    forall i: nat | pos <= i <= at ensures At(stacks, i, hs) { MarkAt(stacks, s, x, pos, hs, i, hs); }
    MarkAt(stacks, s, x, pos, hs, no, hs);
    MarkAt(stacks, s, x, pos, hs, pos + |StmtCode(s, x, pos)|, hs);
    if Hops(s) { MarkAt(stacks, s, x, pos, hs, no - 1, hs); }
    SubMarked(stacks, s, x, pos, hs, s.thenB, x, at, hs);
    if s.elseB.Some? { SubMarked(stacks, s, x, pos, hs, s.elseB.value, y, no, hs); }
  }

  lemma {:induction false} IfLevels(code: seq<Instr>, stacks: seq<seq<Handler>>, s: Stmt, x: Ctx, pos: nat, hs: seq<Handler>, own: bool)
    requires |stacks| == |code| && |x.env.names| == |x.env.regs| && CodeAt(code, pos, StmtCode(s, x, pos))
    requires s.If? && Fits(s, x.loop.InLoop?, own) && Marked(stacks, s, x, pos, hs) && LoopMarked(stacks, x, hs, own)
    ensures AllLevel(code, stacks, pos, pos + |StmtCode(s, x, pos)|)
    decreases s, 1
  {
    hide *;
    IfPlaces(code, s, x, pos);
    IfMarks(stacks, s, x, pos, hs);
    IfScope(s, x, own);
    BranchMarks(stacks, x, After(s.thenB, x), hs, own);
    var at := YesAt(s, x, pos);
    var mid := at + |StmtCode(s.thenB, x, at)|;
    var no := at + IfSkip(s, x, pos);
    var end := pos + |StmtCode(s, x, pos)|;
    TestLevels(code, stacks, pos, s.cond, x.env, x.next, IfSkip(s, x, pos), hs);
    StmtLevels(code, stacks, s.thenB, x, at, hs, false);
    LevelsJoin(code, stacks, pos, at, mid);
    if Hops(s) {
      SkipIs(s, x, pos);
      JumpLevel(code, stacks, mid, end - no, hs);
      LevelsJoin(code, stacks, pos, mid, no);
    }
    if s.elseB.Some? {
      StmtLevels(code, stacks, s.elseB.value, After(s.thenB, x), no, hs, false);
      LevelsJoin(code, stacks, pos, no, end);
    }
  }

  lemma {:induction false} SkipIs(s: Stmt, x: Ctx, pos: nat)
    requires s.If? && |x.env.names| == |x.env.regs|
    ensures var at := YesAt(s, x, pos); pos < at && IfSkip(s, x, pos) == |StmtCode(s.thenB, x, at)| + if Hops(s) then 1 else 0
    ensures |After(s.thenB, x).env.names| == |After(s.thenB, x).env.regs|
  {
  }

  lemma {:induction false} BranchMarks(stacks: seq<seq<Handler>>, x: Ctx, y: Ctx, hs: seq<Handler>, own: bool)
    requires LoopMarked(stacks, x, hs, own) && y.loop == x.loop
    ensures LoopMarked(stacks, x, hs, false) && LoopMarked(stacks, y, hs, false)
  {
  }

  lemma {:induction false} WhileMarks(stacks: seq<seq<Handler>>, s: Stmt, x: Ctx, pos: nat, hs: seq<Handler>)
    requires s.While? && |x.env.names| == |x.env.regs| && Marked(stacks, s, x, pos, hs)
    requires
      var at, y := BodyAt(s, x, pos), InBody(s, x, pos);
      at + |StmtCode(s.body, y, at)| + 1 == pos + |StmtCode(s, x, pos)|
    ensures
      var at, y := BodyAt(s, x, pos), InBody(s, x, pos);
      && Marked(stacks, s.body, y, at, hs) && LoopMarked(stacks, y, hs, true)
      && (forall i :: pos <= i <= at ==> At(stacks, i, hs))
      && At(stacks, at + |StmtCode(s.body, y, at)|, hs) && At(stacks, at + |StmtCode(s.body, y, at)| + 1, hs)
  {
    hide *;
    BodyLoops(s, x, pos);
    var at, y := BodyAt(s, x, pos), InBody(s, x, pos);
    var mid := at + |StmtCode(s.body, y, at)|;
    StartIs(s.body, y, at, hs);
    forall i: nat { WhileDepth(s, x, pos, hs, i); }
    forall i: nat | pos <= i <= at ensures At(stacks, i, hs) { MarkAt(stacks, s, x, pos, hs, i, hs); }
    MarkAt(stacks, s, x, pos, hs, mid, hs);
    MarkAt(stacks, s, x, pos, hs, mid + 1, hs);
    SubMarked(stacks, s, x, pos, hs, s.body, y, at, hs);
    BodyMarks(stacks, s, x, pos, hs);
  }

  lemma {:induction false} WhileDepth(s: Stmt, x: Ctx, pos: nat, hs: seq<Handler>, i: nat)
    requires s.While? && |x.env.names| == |x.env.regs|
    ensures
      var at, y := BodyAt(s, x, pos), InBody(s, x, pos);
      StackOf(s, x, pos, hs, i) == if at <= i < at + |StmtCode(s.body, y, at)| then StackOf(s.body, y, at, hs, i) else hs
  {
    hide StmtCode, ExprCode, SeqStack, InBody, BodyAt;
  }

  lemma {:induction false} BodyMarks(stacks: seq<seq<Handler>>, s: Stmt, x: Ctx, pos: nat, hs: seq<Handler>)
    requires s.While? && |x.env.names| == |x.env.regs| && At(stacks, pos, hs) && At(stacks, pos + |StmtCode(s, x, pos)|, hs)
    ensures LoopMarked(stacks, InBody(s, x, pos), hs, true)
  {
  }

  lemma {:induction false} WhileLevels(code: seq<Instr>, stacks: seq<seq<Handler>>, s: Stmt, x: Ctx, pos: nat, hs: seq<Handler>, own: bool)
    requires |stacks| == |code| && |x.env.names| == |x.env.regs| && CodeAt(code, pos, StmtCode(s, x, pos))
    requires s.While? && Fits(s, x.loop.InLoop?, own) && Marked(stacks, s, x, pos, hs) && LoopMarked(stacks, x, hs, own)
    ensures AllLevel(code, stacks, pos, pos + |StmtCode(s, x, pos)|)
    decreases s, 1
  {
    hide *;
    WhilePlaces(code, s, x, pos);
    WhileMarks(stacks, s, x, pos, hs);
    WhileScope(s, x, own);
    BodyLoops(s, x, pos);
    var at, y, end := BodyAt(s, x, pos), InBody(s, x, pos), pos + |StmtCode(s, x, pos)|;
    TestLevels(code, stacks, pos, s.cond, x.env, x.next, end - at, hs);
    StmtLevels(code, stacks, s.body, y, at, hs, true);
    LevelsJoin(code, stacks, pos, at, end - 1);
    JumpLevel(code, stacks, end - 1, pos - end, hs);
    LevelsJoin(code, stacks, pos, end - 1, end);
  }

  lemma {:induction false} BodyLoops(s: Stmt, x: Ctx, pos: nat)
    requires s.While? && |x.env.names| == |x.env.regs|
    ensures var y := InBody(s, x, pos); y.loop.InLoop? && |y.env.names| == |y.env.regs| && pos < BodyAt(s, x, pos)
  {
  }

  lemma {:induction false} CatchMarks(stacks: seq<seq<Handler>>, s: Stmt, x: Ctx, pos: nat, hs: seq<Handler>, own: bool)
    requires s.Catch? && |x.env.names| == |x.env.regs| && Marked(stacks, s, x, pos, hs) && LoopMarked(stacks, x, hs, own)
    requires
      var u, at := CatchCtx(s.binds, x), GuardAt(s, pos) + 1;
      var mid := at + |StmtCode(s.body, OpenOne(u), at)|;
      var end := pos + |StmtCode(s, x, pos)|;
      && (s.handler.None? || s.binds.None? ==> end == mid + 1)
      && (s.handler.Some? && s.binds.Some? ==> end == mid + 4 + |StmtCode(s.handler.value, After(s.body, u), mid + 4)|)
    ensures
      var u, at := CatchCtx(s.binds, x), GuardAt(s, pos) + 1;
      var mid := at + |StmtCode(s.body, OpenOne(u), at)|;
      && Marked(stacks, s.body, OpenOne(u), at, Opened(s, x, pos, hs)) && LoopMarked(stacks, OpenOne(u), Opened(s, x, pos, hs), false)
      && (forall i :: pos <= i < at ==> At(stacks, i, hs)) && At(stacks, at, Opened(s, x, pos, hs))
      && At(stacks, mid, Opened(s, x, pos, hs)) && At(stacks, mid + 1, hs)
      && (s.handler.Some? && s.binds.Some? ==>
            && (forall i :: mid + 1 <= i <= mid + 4 ==> At(stacks, i, hs))
            && LoopMarked(stacks, After(s.body, u), hs, false)
            && Marked(stacks, s.handler.value, After(s.body, u), mid + 4, hs))
  {
    hide *;
    var u, at := CatchCtx(s.binds, x), GuardAt(s, pos) + 1;
    var z, o := After(s.body, u), OpenOne(u);
    CatchMarksFacts(stacks, s, x, pos, hs, own);
    var mid := at + |StmtCode(s.body, o, at)|;
    StartIs(s.body, o, at, Opened(s, x, pos, hs));
    forall i: nat { CatchDepth(s, x, pos, hs, i); }
    forall i: nat | pos <= i < at ensures At(stacks, i, hs) { MarkAt(stacks, s, x, pos, hs, i, hs); }
    MarkAt(stacks, s, x, pos, hs, at, Opened(s, x, pos, hs));
    MarkAt(stacks, s, x, pos, hs, mid, Opened(s, x, pos, hs));
    if s.handler.Some? && s.binds.Some? {
      StartIs(s.handler.value, z, mid + 4, hs);
      forall i: nat | mid + 1 <= i <= mid + 4 ensures At(stacks, i, hs) { MarkAt(stacks, s, x, pos, hs, i, hs); }
      MarkAt(stacks, s, x, pos, hs, pos + |StmtCode(s, x, pos)|, hs);
      SubMarked(stacks, s, x, pos, hs, s.handler.value, z, mid + 4, hs);
    } else {
      MarkAt(stacks, s, x, pos, hs, mid + 1, hs);
    }
    SubMarked(stacks, s, x, pos, hs, s.body, o, at, Opened(s, x, pos, hs));
  }

  lemma {:induction false} CatchMarksFacts(stacks: seq<seq<Handler>>, s: Stmt, x: Ctx, pos: nat, hs: seq<Handler>, own: bool)
    requires s.Catch? && |x.env.names| == |x.env.regs| && LoopMarked(stacks, x, hs, own)
    ensures
      var u := CatchCtx(s.binds, x);
      var z, o := After(s.body, u), OpenOne(u);
      && |z.env.names| == |z.env.regs| && |o.env.names| == |o.env.regs| && z.loop == x.loop && GuardAt(s, pos) == pos + (if s.binds.Some? then 1 else 0)
      && (o.loop.InLoop? <==> x.loop.InLoop?)
      && LoopMarked(stacks, o, Opened(s, x, pos, hs), false) && LoopMarked(stacks, z, hs, false)
  {
  }

  lemma {:induction false} CatchDepth(s: Stmt, x: Ctx, pos: nat, hs: seq<Handler>, i: nat)
    requires s.Catch? && |x.env.names| == |x.env.regs|
    ensures
      var u, at := CatchCtx(s.binds, x), GuardAt(s, pos) + 1;
      var mid := at + |StmtCode(s.body, OpenOne(u), at)|;
      StackOf(s, x, pos, hs, i) ==
        if at <= i < mid then StackOf(s.body, OpenOne(u), at, Opened(s, x, pos, hs), i)
        else if i == mid then Opened(s, x, pos, hs)
        else if s.handler.Some? && s.binds.Some? && mid + 4 <= i then StackOf(s.handler.value, After(s.body, u), mid + 4, hs, i)
        else hs
  {
    hide StmtCode, After, SeqStack, OpenOne;
  }

  lemma {:induction false} CatchLevels(code: seq<Instr>, stacks: seq<seq<Handler>>, s: Stmt, x: Ctx, pos: nat, hs: seq<Handler>, own: bool)
    requires |stacks| == |code| && |x.env.names| == |x.env.regs| && CodeAt(code, pos, StmtCode(s, x, pos))
    requires s.Catch? && Fits(s, x.loop.InLoop?, own) && Marked(stacks, s, x, pos, hs) && LoopMarked(stacks, x, hs, own)
    ensures AllLevel(code, stacks, pos, pos + |StmtCode(s, x, pos)|)
    decreases s, 1
  {
    hide *;
    CatchMarksFacts(stacks, s, x, pos, hs, own);
    CatchPlaces(code, s, x, pos);
    GuardPlaces(code, s, x, pos);
    CatchMarks(stacks, s, x, pos, hs, own);
    CatchFits(s, x, own);
    var u, at, end := CatchCtx(s.binds, x), GuardAt(s, pos) + 1, pos + |StmtCode(s, x, pos)|;
    var mid := at + |StmtCode(s.body, OpenOne(u), at)|;
    StmtLevels(code, stacks, s.body, OpenOne(u), at, Opened(s, x, pos, hs), false);
    OpenedIs(s, x, pos, hs);
    GuardLevels(code, stacks, pos, at, mid, s.binds.Some?, CatchVar(s, x), x.next, hs, Opened(s, x, pos, hs));
    if s.handler.Some? {
      RescueIs(s, x, After(s.body, u), mid + 1);
      RescueLevels(code, stacks, s, x, mid + 1, After(s.body, u), hs);
      LevelsJoin(code, stacks, pos, mid + 1, end);
    }
  }

  lemma {:induction false} OpenedIs(s: Stmt, x: Ctx, pos: nat, hs: seq<Handler>)
    requires s.Catch? && |x.env.names| == |x.env.regs|
    ensures
      var at := GuardAt(s, pos) + 1;
      Opened(s, x, pos, hs) == hs + [Handler(at + |StmtCode(s.body, OpenOne(CatchCtx(s.binds, x)), at)| + 1, CatchVar(s, x))]
  {
    hide StmtCode;
  }

  lemma {:induction false} CatchFits(s: Stmt, x: Ctx, own: bool)
    requires s.Catch? && Fits(s, x.loop.InLoop?, own)
    ensures Fits(s.body, x.loop.InLoop?, false)
    ensures s.handler.Some? ==> s.binds.Some? && Fits(s.handler.value, x.loop.InLoop?, false)
  {
  }

  /** Around a guarded body: one more handler in it than before and after it. */
  lemma {:induction false} GuardLevels(code: seq<Instr>, stacks: seq<seq<Handler>>, pos: nat, at: nat, mid: nat, named: bool, v: Option<Reg>, m: Reg, hs: seq<Handler>, inner: seq<Handler>)
    requires |stacks| == |code| && at <= mid < |code| && at == pos + if named then 2 else 1
    requires named ==> code[pos] == LoadNil(m)
    requires code[at - 1] == PushCatch(v, mid - at + 1) && code[mid] == PopCatch
    requires (forall i :: pos <= i < at ==> At(stacks, i, hs)) && At(stacks, at, inner) && At(stacks, mid, inner) && At(stacks, mid + 1, hs)
    requires inner == hs + [Handler(mid + 1, v)]
    requires AllLevel(code, stacks, at, mid)
    ensures AllLevel(code, stacks, pos, mid + 1)
  {
    assert At(stacks, at - 1, hs);
    assert Level(code, stacks, at - 1);
    assert named ==> At(stacks, pos, hs) && Level(code, stacks, pos);
    assert Level(code, stacks, mid);
  }

  lemma {:induction false} RescueLevels(code: seq<Instr>, stacks: seq<seq<Handler>>, s: Stmt, x: Ctx, pos: nat, z: Ctx, hs: seq<Handler>)
    requires |stacks| == |code| && s.Catch? && s.handler.Some? && |z.env.names| == |z.env.regs|
    requires CodeAt(code, pos, Fork(Unless(x.next, z.next), z.next + 1, StmtCode(s.handler.value, z, pos + 3), false, []))
    requires Fits(s.handler.value, z.loop.InLoop?, false) && Marked(stacks, s.handler.value, z, pos + 3, hs) && LoopMarked(stacks, z, hs, false)
    requires forall i :: pos <= i <= pos + 3 ==> At(stacks, i, hs)
    ensures AllLevel(code, stacks, pos, pos + 3 + |StmtCode(s.handler.value, z, pos + 3)|)
    decreases s, 0
  {
    hide *;
    var h := StmtCode(s.handler.value, z, pos + 3);
    ForkLayout(code, pos, Unless(x.next, z.next), z.next + 1, h, false, []);
    UnlessTwo(x.next, z.next);
    MarkAt(stacks, s.handler.value, z, pos + 3, hs, pos + 3 + |h|, hs);
    StmtLevels(code, stacks, s.handler.value, z, pos + 3, hs, false);
    UnlessLevels(code, stacks, pos, x.next, z.next, |h|, hs);
    LevelsJoin(code, stacks, pos, pos + 3, pos + 3 + |h|);
  }

  lemma {:induction false} UnlessLevels(code: seq<Instr>, stacks: seq<seq<Handler>>, pos: nat, v: Reg, m: nat, n: nat, hs: seq<Handler>)
    requires |stacks| == |code| && CodeAt(code, pos, Unless(v, m))
    requires pos + 2 < |code| && code[pos + |Unless(v, m)|] == Branch(true, m + 1, n)
    requires (forall i :: pos <= i <= pos + 3 ==> At(stacks, i, hs)) && At(stacks, pos + 3 + n, hs)
    ensures AllLevel(code, stacks, pos, pos + 3)
  {
    assert code[pos..pos + 2] == [LoadNil(m), Compare(Neq, m + 1, v, m)];
    assert code[pos] == LoadNil(m) && code[pos + 1] == Compare(Neq, m + 1, v, m);
    assert At(stacks, pos, hs) && At(stacks, pos + 1, hs) && At(stacks, pos + 2, hs) && At(stacks, pos + 3, hs);
    assert Level(code, stacks, pos) && Level(code, stacks, pos + 1) && Level(code, stacks, pos + 2);
  }

  lemma {:induction false} UnlessTwo(v: Reg, m: nat)
    ensures |Unless(v, m)| == 2
  {
  }

  // Runs.

  /** The handlers of the `catch` bodies the compiler has open at every instruction of a function. */
  function FunctionStacks(params: seq<string>, body: Stmt): seq<seq<Handler>> {
    var x := Entry(params);
    seq(|FunctionCode(params, body)|, i requires 0 <= i => if i < |StmtCode(body, x, 0)| then StackOf(body, x, 0, [], i) else [])
  }

  lemma {:induction false} FunctionLevels(params: seq<string>, body: Stmt)
    requires Fits(body, false, false)
    ensures AllLevel(FunctionCode(params, body), FunctionStacks(params, body), 0, |FunctionCode(params, body)|)
    ensures At(FunctionStacks(params, body), 0, [])
  {
    hide *;
    var code, stacks, x := FunctionCode(params, body), FunctionStacks(params, body), Entry(params);
    FunctionPlaces(params, body, Config(0, map[], [], map[], []));
    FunctionMarks(params, body);
    var end := |StmtCode(body, x, 0)|;
    StmtLevels(code, stacks, body, x, 0, [], false);
    ReturnLevels(code, stacks, end, After(body, x).next);
    LevelsJoin(code, stacks, 0, end, end + 2);
  }

  lemma {:induction false} FunctionMarks(params: seq<string>, body: Stmt)
    ensures
      var code, stacks, x := FunctionCode(params, body), FunctionStacks(params, body), Entry(params);
      && |stacks| == |code| && |x.env.names| == |x.env.regs| && x.loop.NoLoop?
      && Marked(stacks, body, x, 0, []) && LoopMarked(stacks, x, [], false)
      && At(stacks, 0, []) && At(stacks, |StmtCode(body, x, 0)|, []) && At(stacks, |StmtCode(body, x, 0)| + 1, [])
  {
    StartIs(body, Entry(params), 0, []);
    hide StmtCode, StackOf, After;
  }

  lemma {:induction false} ReturnLevels(code: seq<Instr>, stacks: seq<seq<Handler>>, end: nat, nil: Reg)
    requires |stacks| == |code| == end + 2 && code[end] == LoadNil(nil) && code[end + 1] == Ret(nil)
    requires At(stacks, end, []) && At(stacks, end + 1, [])
    ensures AllLevel(code, stacks, end, end + 2)
  {
    assert Level(code, stacks, end) && Level(code, stacks, end + 1);
  }

  /** The open handlers are the compiler's, and each resumes where those below it are the ones
      open. */
  ghost predicate Balanced(stacks: seq<seq<Handler>>, c: Config) {
    && At(stacks, c.pc, c.handlers)
    && forall k :: 0 <= k < |c.handlers| ==> At(stacks, c.handlers[k].resume, c.handlers[..k])
  }

  lemma {:induction false} UnwindBalanced(stacks: seq<seq<Handler>>, c: Config, err: Value)
    requires Balanced(stacks, c)
    ensures !Unwind(c, err).Stuck? && (Unwind(c, err).Running? ==> Balanced(stacks, Unwind(c, err).c))
  {
    var n := |c.handlers|;
    if n > 0 {
      assert forall k :: 0 <= k < n - 1 ==> c.handlers[..n - 1][..k] == c.handlers[..k];
    }
  }

  lemma {:induction false} StoreBalanced(stacks: seq<seq<Handler>>, c: Config, d: Reg, x: Result)
    requires Balanced(stacks, c) && At(stacks, c.pc + 1, c.handlers)
    ensures !Store(c, d, x).Stuck? && (Store(c, d, x).Running? ==> Balanced(stacks, Store(c, d, x).c))
  {
    hide Unwind;
    if x.Err? { UnwindBalanced(stacks, c, x.err); }
  }

  lemma {:induction false} GoBalanced(stacks: seq<seq<Handler>>, c: Config, c': Config)
    requires Balanced(stacks, c) && c'.handlers == c.handlers && At(stacks, c'.pc, c.handlers)
    ensures Balanced(stacks, c')
  {
  }

  lemma {:induction false} PushBalanced(stacks: seq<seq<Handler>>, c: Config, c': Config, h: Handler)
    requires Balanced(stacks, c) && c'.handlers == c.handlers + [h] && At(stacks, c'.pc, c'.handlers) && At(stacks, h.resume, c.handlers)
    ensures Balanced(stacks, c')
  {
    assert c'.handlers[..|c.handlers|] == c.handlers;
    assert forall k :: 0 <= k < |c.handlers| ==> c'.handlers[..k] == c.handlers[..k];
  }

  lemma {:induction false} PopBalanced(stacks: seq<seq<Handler>>, c: Config, c': Config)
    requires Balanced(stacks, c) && c.handlers != [] && c'.handlers == c.handlers[..|c.handlers| - 1] && At(stacks, c'.pc, c'.handlers)
    ensures Balanced(stacks, c')
  {
    assert forall k :: 0 <= k < |c'.handlers| ==> c'.handlers[..k] == c.handlers[..k];
  }

  lemma {:induction false} StepBalanced(ops: Ops, code: seq<Instr>, stacks: seq<seq<Handler>>, c: Config)
    requires |code| == |stacks| && Balanced(stacks, c) && Level(code, stacks, c.pc)
    ensures
      var m := Step(ops, code, Running(c));
      !m.Stuck? && (m.Running? ==> Balanced(stacks, m.c))
  {
    assert 0 <= c.pc < |code| && stacks[c.pc] == c.handlers;
    hide Store, Unwind, Balanced;
    forall err: Value { UnwindBalanced(stacks, c, err); }
    if At(stacks, c.pc + 1, c.handlers) { forall d: Reg, x: Result { StoreBalanced(stacks, c, d, x); } }
    var m := Step(ops, code, Running(c));
    if m.Running? {
      if code[c.pc].PushCatch? { PushBalanced(stacks, c, m.c, Handler(c.pc + 1 + code[c.pc].offset, code[c.pc].varReg)); }
      else if code[c.pc].PopCatch? { PopBalanced(stacks, c, m.c); }
      else if m.c.handlers == c.handlers && At(stacks, m.c.pc, c.handlers) { GoBalanced(stacks, c, m.c); }
    }
  }

  lemma {:induction false} RunBalanced(ops: Ops, code: seq<Instr>, stacks: seq<seq<Handler>>, c: Config, n: nat)
    requires AllLevel(code, stacks, 0, |code|) && Balanced(stacks, c)
    ensures
      var m := Steps(ops, code, Running(c), n);
      !m.Stuck? && (m.Running? ==> Balanced(stacks, m.c))
    decreases n
  {
    if n > 0 {
      assert Level(code, stacks, c.pc);
      StepBalanced(ops, code, stacks, c);
      var m := Step(ops, code, Running(c));
      if m.Running? { RunBalanced(ops, code, stacks, m.c, n - 1); } else { EndedStays(ops, code, m, n - 1); }
    }
  }

  /** In every run of a compiled function, whatever path led to an instruction, the handlers
      open there are exactly those of the `catch` bodies the compiler had open when it emitted
      the instruction; and a run never gets stuck. */
  lemma {:induction false} HandlerHeights(ops: Ops, params: seq<string>, body: Stmt, c: Config, n: nat)
    requires Fits(body, false, false) && c.pc == 0 && c.handlers == []
    ensures
      var m := Steps(ops, FunctionCode(params, body), Running(c), n);
      && !m.Stuck?
      && (m.Running? ==>
            && Balanced(FunctionStacks(params, body), m.c)
            && m.c.handlers == FunctionStacks(params, body)[m.c.pc])
  {
    hide FunctionCode, FunctionStacks, Steps, AllLevel;
    FunctionLevels(params, body);
    RunBalanced(ops, FunctionCode(params, body), FunctionStacks(params, body), c, n);
  }

  /** A compiled function never runs off its code nor pops a handler that is not there. */
  lemma {:induction false} CompiledFunctionNeverStuck(ops: Ops, params: seq<string>, body: Stmt, c: Config, n: nat)
    requires Fits(body, false, false) && c.pc == 0 && c.handlers == []
    ensures !Steps(ops, FunctionCode(params, body), Running(c), n).Stuck?
  {
    HandlerHeights(ops, params, body, c, n);
  }
}
