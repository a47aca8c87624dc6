/** Where an error is caught: the handler found by looking at the code is the one on top in every run. */
module CatchRegions {
  import opened Shapes
  import opened Bytecode
  import opened Values
  import opened Core
  import opened Machine
  import opened CodeGen
  import opened CodeLayout
  import opened ExprSim
  import opened StmtSim
  import opened ProgramSim
  import opened Functions
  import opened Handlers
  import opened InstrShapes

  /** What the code says catches an error is the innermost open handler. */
  predicate CaughtBy(caught: Option<Landing>, hs: seq<Handler>) {
    match caught
    case None => hs == []
    case Some(c) => hs != [] && hs[|hs| - 1] == Handler(c.resume, c.variable)
  }

  /** Instructions that can end with an error. */
  predicate CanFail(i: Instr) {
    i.Arith? || i.ArithImm? || i.Compare? || i.CompareImm? || i.Unary? || i.ReadGlobal? || i.AssignGlobal? || i.Raise?
  }

  /** The `catch` bodies opened between `lo` and `hi` end there. */
  ghost predicate Contained(code: seq<Instr>, lo: nat, hi: nat) {
    hi <= |code| && forall k: nat :: lo <= k < hi ==> EndsBy(code[k], k, hi)
  }

  predicate EndsBy(i: Instr, k: nat, bound: nat) {
    i.PushCatch? ==> k + 1 + i.offset <= bound
  }

  /** Between `lo` and `hi` what was opened before `lo` comes to the handlers `hs`. */
  ghost predicate Around(code: seq<Instr>, lo: nat, hi: nat, hs: seq<Handler>) {
    lo <= hi <= |code| && forall i: nat :: lo <= i < hi ==> CaughtBy(CatchResume(code, i, lo), hs)
  }

  /** Where an instruction can fail, the code names the innermost of the handlers open there. */
  ghost predicate Named(code: seq<Instr>, stacks: seq<seq<Handler>>, lo: nat, hi: nat) {
    hi <= |code| == |stacks| && forall i: nat :: lo <= i < hi && CanFail(code[i]) ==> CaughtBy(CatchResume(code, i, i), stacks[i])
  }

  lemma {:induction false} PassOver(code: seq<Instr>, i: nat, lo: nat, hi: nat, bound: nat)
    requires lo <= hi <= |code| && bound <= i && forall k: nat :: lo <= k < hi ==> EndsBy(code[k], k, bound)
    ensures CatchResume(code, i, hi) == CatchResume(code, i, lo)
    decreases hi
  {
    if lo < hi {
      assert EndsBy(code[hi - 1], hi - 1, bound);
      PassOver(code, i, lo, hi - 1, bound);
    }
  }

  /** What is opened later does not matter. */
  lemma {:induction false} OnlyBefore(code: seq<Instr>, i: nat, n: nat)
    requires i <= n <= |code|
    ensures CatchResume(code, i, n) == CatchResume(code, i, i)
    decreases n
  {
    if i < n { OnlyBefore(code, i, n - 1); }
  }

  lemma {:induction false} NothingOpened(code: seq<Instr>, i: nat, lo: nat, hi: nat)
    requires lo <= hi <= |code| && forall k: nat :: lo <= k < hi ==> !code[k].PushCatch?
    ensures CatchResume(code, i, hi) == CatchResume(code, i, lo)
    decreases hi
  {
    if lo < hi { NothingOpened(code, i, lo, hi - 1); }
  }

  lemma {:induction false} AroundNext(code: seq<Instr>, lo: nat, mid: nat, hi: nat, hs: seq<Handler>)
    requires lo <= mid <= hi && Around(code, lo, hi, hs) && Contained(code, lo, mid)
    ensures Around(code, mid, hi, hs)
  {
    hide CaughtBy, EndsBy;
    forall i: nat | mid <= i < hi ensures CaughtBy(CatchResume(code, i, mid), hs) {
      PassOver(code, i, lo, mid, mid);
    }
  }

  lemma {:induction false} AroundPart(code: seq<Instr>, lo: nat, mid: nat, hi: nat, hs: seq<Handler>)
    requires lo <= mid <= hi && Around(code, lo, hi, hs)
    ensures Around(code, lo, mid, hs)
  {
  }

  lemma {:induction false} Joined(code: seq<Instr>, stacks: seq<seq<Handler>>, lo: nat, mid: nat, hi: nat)
    requires lo <= mid <= hi && Contained(code, lo, mid) && Contained(code, mid, hi) && Named(code, stacks, lo, mid) && Named(code, stacks, mid, hi)
    ensures Contained(code, lo, hi) && Named(code, stacks, lo, hi)
  {
    hide CaughtBy;
  }

  /** Code that opens nothing. */
  lemma {:induction false} PlainNamed(code: seq<Instr>, stacks: seq<seq<Handler>>, lo: nat, hi: nat, hs: seq<Handler>)
    requires Around(code, lo, hi, hs) && |stacks| == |code| && forall k: nat :: lo <= k < hi ==> !code[k].PushCatch?
    requires forall i: nat :: lo <= i < hi && CanFail(code[i]) ==> stacks[i] == hs
    ensures Contained(code, lo, hi) && Named(code, stacks, lo, hi)
  {
    hide CaughtBy, CanFail;
    forall i: nat | lo <= i < hi && CanFail(code[i]) ensures CaughtBy(CatchResume(code, i, i), stacks[i]) {
      NothingOpened(code, i, lo, i);
    }
  }

  lemma {:induction false} ClosedNamed(code: seq<Instr>, stacks: seq<seq<Handler>>, pos: nat, frag: seq<Instr>, hs: seq<Handler>)
    requires |stacks| == |code| && CodeAt(code, pos, frag) && Closed(frag) && Around(code, pos, pos + |frag|, hs)
    requires forall i :: pos <= i < pos + |frag| ==> At(stacks, i, hs)
    ensures Contained(code, pos, pos + |frag|) && Named(code, stacks, pos, pos + |frag|)
  {
    hide Around, CaughtBy, CanFail;
    forall k: nat | pos <= k < pos + |frag| ensures !code[k].PushCatch? && stacks[k] == hs {
      assert code[pos..pos + |frag|][k - pos] == frag[k - pos];
      assert ClosedAt(frag[k - pos], k - pos, |frag|);
      assert At(stacks, k, hs);
    }
    assert pos + |frag| <= |code|;
    PlainNamed(code, stacks, pos, pos + |frag|, hs);
  }

  lemma {:induction false} OneNamed(code: seq<Instr>, stacks: seq<seq<Handler>>, at: nat)
    requires at < |code| == |stacks| && !code[at].PushCatch? && !CanFail(code[at])
    ensures Contained(code, at, at + 1) && Named(code, stacks, at, at + 1)
  {
  }

  // Statements.

  lemma {:induction false} StmtNamed(code: seq<Instr>, stacks: seq<seq<Handler>>, s: Stmt, x: Ctx, pos: nat, hs: seq<Handler>, own: bool)
    requires |stacks| == |code| && |x.env.names| == |x.env.regs| && CodeAt(code, pos, StmtCode(s, x, pos))
    requires Fits(s, x.loop.InLoop?, own) && Marked(stacks, s, x, pos, hs) && LoopMarked(stacks, x, hs, own)
    requires Around(code, pos, pos + |StmtCode(s, x, pos)|, hs)
    ensures Contained(code, pos, pos + |StmtCode(s, x, pos)|) && Named(code, stacks, pos, pos + |StmtCode(s, x, pos)|)
    decreases s, 2
  {
    hide *;
    match s
    case Block(_) => BlockNamed(code, stacks, s, x, pos, hs, own);
    case If(_, _, _) => IfNamed(code, stacks, s, x, pos, hs, own);
    case While(_, _) => WhileNamed(code, stacks, s, x, pos, hs, own);
    case Catch(_, _, _) => CatchNamed(code, stacks, s, x, pos, hs, own);
    case Break => JumpNamed(code, stacks, s, x, pos, own);
    case Continue => JumpNamed(code, stacks, s, x, pos, own);
    case FixContinue => FixDoesNotFit(s, x.loop.InLoop?, own);
    case _ => HasBody(s); SimpleNamed(code, stacks, s, x, pos, hs);
  }

  lemma {:induction false} SimpleNamed(code: seq<Instr>, stacks: seq<seq<Handler>>, s: Stmt, x: Ctx, pos: nat, hs: seq<Handler>)
    requires |stacks| == |code| && |x.env.names| == |x.env.regs| && CodeAt(code, pos, StmtCode(s, x, pos))
    requires Body(s).Some? && Marked(stacks, s, x, pos, hs) && Around(code, pos, pos + |StmtCode(s, x, pos)|, hs)
    ensures Contained(code, pos, pos + |StmtCode(s, x, pos)|) && Named(code, stacks, pos, pos + |StmtCode(s, x, pos)|)
  {
    SimpleCode(s, x, pos);
    var e := Body(s).value;
    var first, tail := ExprCode(e, x.env, x.next), Tail(s, x, ExprReg(e, x.env, x.next));
    ExprClosed(e, x.env, x.next);
    ClosedConcat(first, tail);
    hide StmtCode, ExprCode, Closed, Tail, CodeAt, Around, Contained, Named;
    forall i | pos <= i < pos + |first + tail| ensures At(stacks, i, hs) {
      assert StackOf(s, x, pos, hs, i) == hs;
    }
    ClosedNamed(code, stacks, pos, first + tail, hs);
  }

  lemma {:induction false} JumpNamed(code: seq<Instr>, stacks: seq<seq<Handler>>, s: Stmt, x: Ctx, pos: nat, own: bool)
    requires |stacks| == |code| && |x.env.names| == |x.env.regs| && CodeAt(code, pos, StmtCode(s, x, pos))
    requires (s.Break? || s.Continue?) && Fits(s, x.loop.InLoop?, own)
    ensures Contained(code, pos, pos + |StmtCode(s, x, pos)|) && Named(code, stacks, pos, pos + |StmtCode(s, x, pos)|)
  {
    var opens := x.loop.opens;
    var target := if s.Break? then x.loop.brk else Some(x.loop.cont);
    var leave := Leaving(opens, pos, target);
    assert StmtCode(s, x, pos) == leave;
    hide StmtCode, CaughtBy;
    forall i: nat | pos <= i < pos + opens + 1 ensures code[i].PopCatch? || code[i].Jmp? {
      assert code[pos..pos + |leave|][i - pos] == leave[i - pos];
    }
  }

  lemma {:induction false} BlockNamed(code: seq<Instr>, stacks: seq<seq<Handler>>, s: Stmt, x: Ctx, pos: nat, hs: seq<Handler>, own: bool)
    requires |stacks| == |code| && |x.env.names| == |x.env.regs| && CodeAt(code, pos, StmtCode(s, x, pos))
    requires s.Block? && Fits(s, x.loop.InLoop?, own) && Marked(stacks, s, x, pos, hs) && LoopMarked(stacks, x, hs, own)
    requires Around(code, pos, pos + |StmtCode(s, x, pos)|, hs)
    ensures Contained(code, pos, pos + |StmtCode(s, x, pos)|) && Named(code, stacks, pos, pos + |StmtCode(s, x, pos)|)
    decreases s, 1
  {
    BlockCode(s, x, pos);
    BlockMarks(stacks, s, x, pos, hs);
    hide StmtCode, SeqCode, SeqStack, StackOf, CodeAt, Contained, Named, Around;
    SeqNamed(code, stacks, s.stmts, x, pos, hs, own);
  }

  lemma {:induction false} BlockMarks(stacks: seq<seq<Handler>>, s: Stmt, x: Ctx, pos: nat, hs: seq<Handler>)
    requires |x.env.names| == |x.env.regs| && s.Block? && Marked(stacks, s, x, pos, hs)
    ensures SeqMarked(stacks, s.stmts, x, pos, hs)
  {
    BlockCode(s, x, pos);
    hide StmtCode, SeqCode, SeqStack;
    forall i: nat | pos <= i < pos + |SeqCode(s.stmts, x, pos)| ensures At(stacks, i, SeqStack(s.stmts, x, pos, hs, i)) {
      assert StackOf(s, x, pos, hs, i) == SeqStack(s.stmts, x, pos, hs, i);
    }
  }

  lemma {:induction false} SeqNamed(code: seq<Instr>, stacks: seq<seq<Handler>>, ss: seq<Stmt>, x: Ctx, pos: nat, hs: seq<Handler>, own: bool)
    requires |stacks| == |code| && |x.env.names| == |x.env.regs| && CodeAt(code, pos, SeqCode(ss, x, pos))
    requires FitsSeq(ss, x.loop.InLoop?, own) && SeqMarked(stacks, ss, x, pos, hs) && LoopMarked(stacks, x, hs, own)
    requires Around(code, pos, pos + |SeqCode(ss, x, pos)|, hs)
    ensures Contained(code, pos, pos + |SeqCode(ss, x, pos)|) && Named(code, stacks, pos, pos + |SeqCode(ss, x, pos)|)
    decreases ss, 1
  {
    hide *;
    if ss == [] {
      EmptyNamed(code, stacks, x, pos);
    } else {
      SeqCodeSteps(ss, x, pos);
      SeqFits(ss, x, own);
      var n := |ss| - 1;
      if ss[n].FixContinue? {
        FixedMarks(stacks, ss, x, pos, hs, own);
        SeqNamed(code, stacks, ss[..n], FixedCtx(x, pos + |SeqCode(ss[..n], x, pos)|), pos, hs, false);
      } else {
        LastNamed(code, stacks, ss, x, pos, hs, own);
      }
    }
  }

  lemma {:induction false} EmptyNamed(code: seq<Instr>, stacks: seq<seq<Handler>>, x: Ctx, pos: nat)
    requires |stacks| == |code| && |x.env.names| == |x.env.regs| && CodeAt(code, pos, SeqCode([], x, pos))
    ensures Contained(code, pos, pos + |SeqCode([], x, pos)|) && Named(code, stacks, pos, pos + |SeqCode([], x, pos)|)
  {
    hide CaughtBy;
  }

  lemma {:induction false} LastNamed(code: seq<Instr>, stacks: seq<seq<Handler>>, ss: seq<Stmt>, x: Ctx, pos: nat, hs: seq<Handler>, own: bool)
    requires |stacks| == |code| && |x.env.names| == |x.env.regs| && CodeAt(code, pos, SeqCode(ss, x, pos))
    requires FitsSeq(ss, x.loop.InLoop?, own) && SeqMarked(stacks, ss, x, pos, hs) && LoopMarked(stacks, x, hs, own)
    requires Around(code, pos, pos + |SeqCode(ss, x, pos)|, hs)
    requires ss != [] && !ss[|ss| - 1].FixContinue?
    ensures Contained(code, pos, pos + |SeqCode(ss, x, pos)|) && Named(code, stacks, pos, pos + |SeqCode(ss, x, pos)|)
    decreases ss, 0
  {
    hide *;
    SeqCodeSteps(ss, x, pos);
    SeqFits(ss, x, own);
    var n := |ss| - 1;
    var first := SeqCode(ss[..n], x, pos);
    var at, y, end := pos + |first|, AfterSeq(ss[..n], x), pos + |SeqCode(ss, x, pos)|;
    CodeAtSplit(code, pos, first, StmtCode(ss[n], y, at));
    LastMarks(stacks, ss, x, pos, hs, own);
    AroundPart(code, pos, at, end, hs);
    SeqNamed(code, stacks, ss[..n], x, pos, hs, own);
    AroundNext(code, pos, at, end, hs);
    StmtNamed(code, stacks, ss[n], y, at, hs, false);
    Joined(code, stacks, pos, at, end);
  }

  /** A test and the jump after it. */
  lemma {:induction false} TestNamed(code: seq<Instr>, stacks: seq<seq<Handler>>, pos: nat, e: Expr, env: Scope, m: nat, offset: int, hs: seq<Handler>)
    requires |stacks| == |code| && |env.names| == |env.regs| && CodeAt(code, pos, ExprCode(e, env, m))
    requires
      var at := pos + |ExprCode(e, env, m)|;
      && at < |code| && code[at] == Branch(true, ExprReg(e, env, m), offset)
      && (forall i :: pos <= i <= at ==> At(stacks, i, hs)) && Around(code, pos, at + 1, hs)
    ensures
      var at := pos + |ExprCode(e, env, m)|;
      Contained(code, pos, at + 1) && Named(code, stacks, pos, at + 1)
  {
    hide ExprCode, CodeAt, Closed, Around, Contained, Named;
    ExprClosed(e, env, m);
    var at := pos + |ExprCode(e, env, m)|;
    AroundPart(code, pos, at, at + 1, hs);
    ClosedNamed(code, stacks, pos, ExprCode(e, env, m), hs);
    OneNamed(code, stacks, at);
    Joined(code, stacks, pos, at, at + 1);
  }

  lemma {:induction false} IfNamed(code: seq<Instr>, stacks: seq<seq<Handler>>, s: Stmt, x: Ctx, pos: nat, hs: seq<Handler>, own: bool)
    requires |stacks| == |code| && |x.env.names| == |x.env.regs| && CodeAt(code, pos, StmtCode(s, x, pos))
    requires s.If? && Fits(s, x.loop.InLoop?, own) && Marked(stacks, s, x, pos, hs) && LoopMarked(stacks, x, hs, own)
    requires Around(code, pos, pos + |StmtCode(s, x, pos)|, hs)
    ensures Contained(code, pos, pos + |StmtCode(s, x, pos)|) && Named(code, stacks, pos, pos + |StmtCode(s, x, pos)|)
    decreases s, 1
  {
    hide *;
    IfPlaces(code, s, x, pos);
    IfMarks(stacks, s, x, pos, hs);
    IfScope(s, x, own);
    BranchMarks(stacks, x, After(s.thenB, x), hs, own);
    SkipIs(s, x, pos);
    var at := YesAt(s, x, pos);
    var mid := at + |StmtCode(s.thenB, x, at)|;
    var no := at + IfSkip(s, x, pos);
    var end := pos + |StmtCode(s, x, pos)|;
    AroundPart(code, pos, at, end, hs);
    TestNamed(code, stacks, pos, s.cond, x.env, x.next, IfSkip(s, x, pos), hs);
    AroundNext(code, pos, at, end, hs);
    AroundPart(code, at, mid, end, hs);
    StmtNamed(code, stacks, s.thenB, x, at, hs, false);
    Joined(code, stacks, pos, at, mid);
    if Hops(s) {
      JumpIsPlain(code[mid]);
      OneNamed(code, stacks, mid);
      Joined(code, stacks, pos, mid, no);
    }
    if s.elseB.Some? {
      AroundNext(code, pos, no, end, hs);
      StmtNamed(code, stacks, s.elseB.value, After(s.thenB, x), no, hs, false);
      Joined(code, stacks, pos, no, end);
    }
  }

  lemma {:induction false} JumpIsPlain(i: Instr)
    requires i.Jmp? || i.PopCatch? || i.LoadNil? || i.JmpIfFalse?
    ensures !i.PushCatch? && !CanFail(i)
  {
  }

  lemma {:induction false} WhileNamed(code: seq<Instr>, stacks: seq<seq<Handler>>, s: Stmt, x: Ctx, pos: nat, hs: seq<Handler>, own: bool)
    requires |stacks| == |code| && |x.env.names| == |x.env.regs| && CodeAt(code, pos, StmtCode(s, x, pos))
    requires s.While? && Fits(s, x.loop.InLoop?, own) && Marked(stacks, s, x, pos, hs) && LoopMarked(stacks, x, hs, own)
    requires Around(code, pos, pos + |StmtCode(s, x, pos)|, hs)
    ensures Contained(code, pos, pos + |StmtCode(s, x, pos)|) && Named(code, stacks, pos, pos + |StmtCode(s, x, pos)|)
    decreases s, 1
  {
    hide *;
    WhilePlaces(code, s, x, pos);
    WhileMarks(stacks, s, x, pos, hs);
    WhileScope(s, x, own);
    BodyLoops(s, x, pos);
    var at, y, end := BodyAt(s, x, pos), InBody(s, x, pos), pos + |StmtCode(s, x, pos)|;
    AroundPart(code, pos, at, end, hs);
    TestNamed(code, stacks, pos, s.cond, x.env, x.next, end - at, hs);
    AroundNext(code, pos, at, end, hs);
    AroundPart(code, at, end - 1, end, hs);
    StmtNamed(code, stacks, s.body, y, at, hs, true);
    Joined(code, stacks, pos, at, end - 1);
    JumpIsPlain(code[end - 1]);
    OneNamed(code, stacks, end - 1);
    Joined(code, stacks, pos, end - 1, end);
  }

  /** In a guarded body its own handler is the innermost. */
  lemma {:induction false} AroundBody(code: seq<Instr>, at: nat, mid: nat, v: Option<Reg>, hs: seq<Handler>, inner: seq<Handler>)
    requires 0 < at <= mid < |code| && code[at - 1] == PushCatch(v, mid - at + 1) && inner == hs + [Handler(mid + 1, v)]
    ensures Around(code, at, mid, inner)
  {
    forall i: nat | at <= i < mid ensures CaughtBy(CatchResume(code, i, at), inner) {
      assert CatchResume(code, i, at) == Some(Landing(mid + 1, v));
    }
  }

  /** What comes before a guarded body, the body and the end of it. */
  lemma {:induction false} GuardNamed(code: seq<Instr>, stacks: seq<seq<Handler>>, pos: nat, at: nat, mid: nat, named: bool, v: Option<Reg>, m: Reg)
    requires |stacks| == |code| && at <= mid < |code| && at == pos + if named then 2 else 1
    requires named ==> code[pos] == LoadNil(m)
    requires code[at - 1] == PushCatch(v, mid - at + 1) && code[mid] == PopCatch
    requires Contained(code, at, mid) && Named(code, stacks, at, mid)
    ensures Contained(code, pos, mid + 1) && Named(code, stacks, pos, mid + 1)
  {
    hide CaughtBy;
  }

  lemma {:induction false} CatchNamed(code: seq<Instr>, stacks: seq<seq<Handler>>, s: Stmt, x: Ctx, pos: nat, hs: seq<Handler>, own: bool)
    requires |stacks| == |code| && |x.env.names| == |x.env.regs| && CodeAt(code, pos, StmtCode(s, x, pos))
    requires s.Catch? && Fits(s, x.loop.InLoop?, own) && Marked(stacks, s, x, pos, hs) && LoopMarked(stacks, x, hs, own)
    requires Around(code, pos, pos + |StmtCode(s, x, pos)|, hs)
    ensures Contained(code, pos, pos + |StmtCode(s, x, pos)|) && Named(code, stacks, pos, pos + |StmtCode(s, x, pos)|)
    decreases s, 1
  {
    hide *;
    CatchMarksFacts(stacks, s, x, pos, hs, own);
    CatchPlaces(code, s, x, pos);
    GuardPlaces(code, s, x, pos);
    CatchMarks(stacks, s, x, pos, hs, own);
    CatchFits(s, x, own);
    OpenedIs(s, x, pos, hs);
    var u, at, end := CatchCtx(s.binds, x), GuardAt(s, pos) + 1, pos + |StmtCode(s, x, pos)|;
    var mid := at + |StmtCode(s.body, OpenOne(u), at)|;
    AroundBody(code, at, mid, CatchVar(s, x), hs, Opened(s, x, pos, hs));
    StmtNamed(code, stacks, s.body, OpenOne(u), at, Opened(s, x, pos, hs), false);
    GuardNamed(code, stacks, pos, at, mid, s.binds.Some?, CatchVar(s, x), x.next);
    if s.handler.Some? {
      AroundNext(code, pos, mid + 1, end, hs);
      RescueIs(s, x, After(s.body, u), mid + 1);
      RescueNamed(code, stacks, s, x, mid + 1, After(s.body, u), hs);
      Joined(code, stacks, pos, mid + 1, end);
    }
  }

  lemma {:induction false} RescueNamed(code: seq<Instr>, stacks: seq<seq<Handler>>, s: Stmt, x: Ctx, pos: nat, z: Ctx, hs: seq<Handler>)
    requires |stacks| == |code| && s.Catch? && s.handler.Some? && |z.env.names| == |z.env.regs|
    requires CodeAt(code, pos, Fork(Unless(x.next, z.next), z.next + 1, StmtCode(s.handler.value, z, pos + 3), false, []))
    requires Fits(s.handler.value, z.loop.InLoop?, false) && Marked(stacks, s.handler.value, z, pos + 3, hs) && LoopMarked(stacks, z, hs, false)
    requires forall i :: pos <= i <= pos + 3 ==> At(stacks, i, hs)
    requires Around(code, pos, pos + 3 + |StmtCode(s.handler.value, z, pos + 3)|, hs)
    ensures
      var end := pos + 3 + |StmtCode(s.handler.value, z, pos + 3)|;
      Contained(code, pos, end) && Named(code, stacks, pos, end)
    decreases s, 0
  {
    hide *;
    var h := StmtCode(s.handler.value, z, pos + 3);
    var end := pos + 3 + |h|;
    ForkLayout(code, pos, Unless(x.next, z.next), z.next + 1, h, false, []);
    UnlessTwo(x.next, z.next);
    AroundPart(code, pos, pos + 3, end, hs);
    UnlessNamed(code, stacks, pos, x.next, z.next, |h|, hs);
    AroundNext(code, pos, pos + 3, end, hs);
    StmtNamed(code, stacks, s.handler.value, z, pos + 3, hs, false);
    Joined(code, stacks, pos, pos + 3, end);
  }

  lemma {:induction false} UnlessNamed(code: seq<Instr>, stacks: seq<seq<Handler>>, pos: nat, v: Reg, m: nat, n: nat, hs: seq<Handler>)
    requires |stacks| == |code| && CodeAt(code, pos, Unless(v, m)) && Around(code, pos, pos + 3, hs)
    requires pos + 2 < |code| && code[pos + |Unless(v, m)|] == Branch(true, m + 1, n)
    requires forall i :: pos <= i <= pos + 3 ==> At(stacks, i, hs)
    ensures Contained(code, pos, pos + 3) && Named(code, stacks, pos, pos + 3)
  {
    assert code[pos..pos + 2] == [LoadNil(m), Compare(Neq, m + 1, v, m)];
    assert code[pos] == LoadNil(m) && code[pos + 1] == Compare(Neq, m + 1, v, m);
    assert At(stacks, pos + 1, hs);
    hide Around, Contained, Named;
    PlainNamed(code, stacks, pos, pos + 3, hs);
  }

  // Functions.

  /** In a compiled function the code names, at each instruction that can fail, the handler that
      is innermost there. */
  lemma {:induction false} FunctionNamed(params: seq<string>, body: Stmt)
    requires Fits(body, false, false)
    ensures Named(FunctionCode(params, body), FunctionStacks(params, body), 0, |FunctionCode(params, body)|)
  {
    hide *;
    var code, stacks, x := FunctionCode(params, body), FunctionStacks(params, body), Entry(params);
    FunctionPlaces(params, body, Config(0, map[], [], map[], []));
    FunctionMarks(params, body);
    var end := |StmtCode(body, x, 0)|;
    AroundStart(code, end);
    StmtNamed(code, stacks, body, x, 0, [], false);
    ReturnNamed(code, stacks, end, After(body, x).next);
    Joined(code, stacks, 0, end, end + 2);
  }

  lemma {:induction false} AroundStart(code: seq<Instr>, end: nat)
    requires end <= |code|
    ensures Around(code, 0, end, [])
  {
  }

  lemma {:induction false} ReturnNamed(code: seq<Instr>, stacks: seq<seq<Handler>>, end: nat, nil: Reg)
    requires |stacks| == |code| == end + 2 && code[end] == LoadNil(nil) && code[end + 1] == Ret(nil)
    ensures Contained(code, end, end + 2) && Named(code, stacks, end, end + 2)
  {
    hide CaughtBy;
  }

  /** In every run of a compiled function, an instruction that can fail finds the handler its
      place in the code says, or none if its place says none. */
  lemma {:induction false} ErrorsAreCaught(ops: Ops, params: seq<string>, body: Stmt, c: Config, n: nat)
    requires Fits(body, false, false) && c.pc == 0 && c.handlers == []
    ensures
      var code := FunctionCode(params, body);
      var m := Steps(ops, code, Running(c), n);
      m.Running? ==> 0 <= m.c.pc < |code| && (CanFail(code[m.c.pc]) ==> CaughtBy(CatchResume(code, m.c.pc, |code|), m.c.handlers))
  {
    hide *;
    HandlerHeights(ops, params, body, c, n);
    FunctionNamed(params, body);
    var code := FunctionCode(params, body);
    var m := Steps(ops, code, Running(c), n);
    if m.Running? {
      InCode(code, FunctionStacks(params, body), m.c);
      OnlyBefore(code, m.c.pc, |code|);
    }
  }

  lemma {:induction false} InCode(code: seq<Instr>, stacks: seq<seq<Handler>>, c: Config)
    requires Named(code, stacks, 0, |code|) && Balanced(stacks, c)
    ensures 0 <= c.pc < |code| && (CanFail(code[c.pc]) ==> CaughtBy(CatchResume(code, c.pc, c.pc), c.handlers))
  {
    hide CaughtBy, CanFail;
  }
}
