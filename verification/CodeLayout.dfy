/** The shape of emitted code does not depend on where its jumps go. */
module CodeLayout {
  import opened Shapes
  import opened Bytecode
  import opened Values
  import opened Core
  import opened CodeGen

  /** Contexts that differ at most in jump targets. */
  predicate Alike(x: Ctx, y: Ctx) {
    && x.env == y.env && x.next == y.next
    && |x.env.names| == |x.env.regs|
    && x.loop.InLoop? == y.loop.InLoop?
    && (x.loop.InLoop? ==> x.loop.opens == y.loop.opens)
  }

  lemma {:induction false} AfterAlike(s: Stmt, x: Ctx, y: Ctx)
    requires x.env == y.env && x.next == y.next
    ensures After(s, x).env == After(s, y).env && After(s, x).next == After(s, y).next
    decreases s
  {
    match s
    case If(_, t, f) =>
      AfterAlike(t, x, y);
      if f.Some? { AfterAlike(f.value, After(t, x), After(t, y)); }
    case While(_, body) => AfterAlike(body, x, y);
    case Catch(body, handler, binds) =>
      var u, v := CatchCtx(binds, x), CatchCtx(binds, y);
      AfterAlike(body, u, v);
      if handler.Some? { AfterAlike(handler.value, After(body, u), After(body, v)); }
    case _ =>
  }

  lemma {:induction false} AfterSeqAlike(ss: seq<Stmt>, x: Ctx, y: Ctx)
    requires Alike(x, y)
    ensures Alike(AfterSeq(ss, x), AfterSeq(ss, y))
    decreases ss
  {
    if ss != [] {
      var n := |ss| - 1;
      AfterSeqAlike(ss[..n], x, y);
      AfterAlike(ss[n], AfterSeq(ss[..n], x), AfterSeq(ss[..n], y));
    }
  }

  // What the code of a compound statement consists of.

  lemma {:induction false} IfCode(s: Stmt, x: Ctx, pos: nat)
    requires s.If? && |x.env.names| == |x.env.regs|
    ensures
      var test := ExprCode(s.cond, x.env, x.next);
      var yes := StmtCode(s.thenB, x, pos + |test| + 1);
      var hop := s.elseB.Some? && !NeverFallsThrough(s.thenB);
      var no := if s.elseB.None? then [] else StmtCode(s.elseB.value, After(s.thenB, x), pos + |test| + 1 + |yes| + if hop then 1 else 0);
      StmtCode(s, x, pos) == Fork(test, ExprReg(s.cond, x.env, x.next), yes, hop, no)
  {
    hide ExprCode, ExprReg, After, NeverFallsThrough, Fork, SeqCode;
  }

  lemma {:induction false} WhileCode(s: Stmt, x: Ctx, pos: nat)
    requires s.While? && |x.env.names| == |x.env.regs|
    ensures
      var test := ExprCode(s.cond, x.env, x.next);
      var at := pos + |test| + 1;
      var end := at + |StmtCode(s.body, BodyCtx(x, pos, None), at)| + 1;
      StmtCode(s, x, pos) == Cycle(test, ExprReg(s.cond, x.env, x.next), StmtCode(s.body, BodyCtx(x, pos, Some(end)), at))
  {
    hide ExprCode, ExprReg, Cycle, SeqCode, BodyCtx;
  }

  lemma {:induction false} CatchCode(s: Stmt, x: Ctx, pos: nat)
    requires s.Catch? && |x.env.names| == |x.env.regs|
    ensures
      var y := CatchCtx(s.binds, x);
      var load := if s.binds.Some? then [LoadNil(x.next)] else [];
      var inner := StmtCode(s.body, OpenOne(y), pos + |load| + 1);
      var head := load + Guarded(if s.binds.Some? then Some(x.next) else None, inner);
      var z := After(s.body, y);
      StmtCode(s, x, pos) ==
        if s.handler.None? || s.binds.None? then head
        else head + Fork(Unless(x.next, z.next), z.next + 1, StmtCode(s.handler.value, z, pos + |head| + 3), false, [])
  {
    hide After, Guarded, Fork, Unless, SeqCode;
  }

  lemma {:induction false} BlockCode(s: Stmt, x: Ctx, pos: nat)
    requires s.Block? && |x.env.names| == |x.env.regs|
    ensures StmtCode(s, x, pos) == SeqCode(s.stmts, x, pos)
  {
    hide SeqCode;
  }

  lemma {:induction false} SeqCodeSteps(ss: seq<Stmt>, x: Ctx, pos: nat)
    requires |x.env.names| == |x.env.regs| && ss != []
    ensures
      var n := |ss| - 1;
      var first := SeqCode(ss[..n], x, pos);
      SeqCode(ss, x, pos) ==
        if ss[n].FixContinue? then SeqCode(ss[..n], FixedCtx(x, pos + |first|), pos)
        else first + StmtCode(ss[n], AfterSeq(ss[..n], x), pos + |first|)
  {
    hide StmtCode, AfterSeq;
  }

  lemma {:induction false} LenAlike(s: Stmt, x: Ctx, y: Ctx, p: nat, q: nat)
    requires Alike(x, y)
    ensures |StmtCode(s, x, p)| == |StmtCode(s, y, q)|
    decreases s, 2
  {
    if s.Block? || s.If? || s.While? || s.Catch? {
      hide StmtCode, SeqCode;
      match s
      case Block(ss) =>
        BlockCode(s, x, p);
        BlockCode(s, y, q);
        SeqLenAlike(ss, x, y, p, q);
      case If(c, t, f) => IfLenAlike(s, x, y, p, q);
      case While(c, body) => LoopLenAlike(s, x, y, p, q);
      case Catch(body, handler, binds) => CatchLenAlike(s, x, y, p, q);
    }
  }

  lemma {:induction false} IfLenAlike(s: Stmt, x: Ctx, y: Ctx, p: nat, q: nat)
    requires Alike(x, y) && s.If?
    ensures |StmtCode(s, x, p)| == |StmtCode(s, y, q)|
    decreases s, 0
  {
    hide StmtCode, SeqCode, ExprCode, After, NeverFallsThrough, ExprReg;
    IfCode(s, x, p);
    IfCode(s, y, q);
    var k := |ExprCode(s.cond, x.env, x.next)| + 1;
    LenAlike(s.thenB, x, y, p + k, q + k);
    AfterAlike(s.thenB, x, y);
    if s.elseB.Some? {
      var n := k + |StmtCode(s.thenB, x, p + k)| + if NeverFallsThrough(s.thenB) then 0 else 1;
      LenAlike(s.elseB.value, After(s.thenB, x), After(s.thenB, y), p + n, q + n);
    }
  }

  /** A loop's body takes as much room once the end of the loop is known. */
  lemma {:induction false} BodyLen(s: Stmt, x: Ctx, pos: nat)
    requires s.While? && |x.env.names| == |x.env.regs|
    ensures
      var at := pos + |ExprCode(s.cond, x.env, x.next)| + 1;
      var n := |StmtCode(s.body, BodyCtx(x, pos, None), at)|;
      && |StmtCode(s.body, BodyCtx(x, pos, Some(at + n + 1)), at)| == n
      && |StmtCode(s, x, pos)| == at + n + 1 - pos
    decreases s, 0
  {
    hide StmtCode, SeqCode, ExprCode, ExprReg;
    WhileCode(s, x, pos);
    var at := pos + |ExprCode(s.cond, x.env, x.next)| + 1;
    var n := |StmtCode(s.body, BodyCtx(x, pos, None), at)|;
    LenAlike(s.body, BodyCtx(x, pos, None), BodyCtx(x, pos, Some(at + n + 1)), at, at);
  }

  lemma {:induction false} LoopLenAlike(s: Stmt, x: Ctx, y: Ctx, p: nat, q: nat)
    requires Alike(x, y) && s.While?
    ensures |StmtCode(s, x, p)| == |StmtCode(s, y, q)|
    decreases s, 1
  {
    hide StmtCode, SeqCode, ExprCode;
    BodyLen(s, x, p);
    BodyLen(s, y, q);
    var k := |ExprCode(s.cond, x.env, x.next)| + 1;
    LenAlike(s.body, BodyCtx(x, p, None), BodyCtx(y, q, None), p + k, q + k);
  }

  lemma {:induction false} CatchLenAlike(s: Stmt, x: Ctx, y: Ctx, p: nat, q: nat)
    requires Alike(x, y) && s.Catch?
    ensures |StmtCode(s, x, p)| == |StmtCode(s, y, q)|
    decreases s, 0
  {
    hide StmtCode, SeqCode, After;
    CatchCode(s, x, p);
    CatchCode(s, y, q);
    var u, v := CatchCtx(s.binds, x), CatchCtx(s.binds, y);
    var k := if s.binds.Some? then 2 else 1;
    LenAlike(s.body, OpenOne(u), OpenOne(v), p + k, q + k);
    AfterAlike(s.body, u, v);
    if s.handler.Some? && s.binds.Some? {
      var n := k + |StmtCode(s.body, OpenOne(u), p + k)| + 4;
      LenAlike(s.handler.value, After(s.body, u), After(s.body, v), p + n, q + n);
    }
  }

  lemma {:induction false} SeqLenAlike(ss: seq<Stmt>, x: Ctx, y: Ctx, p: nat, q: nat)
    requires Alike(x, y)
    ensures |SeqCode(ss, x, p)| == |SeqCode(ss, y, q)|
    decreases ss, 0
  {
    if ss != [] {
      hide StmtCode, SeqCode, AfterSeq;
      SeqCodeSteps(ss, x, p);
      SeqCodeSteps(ss, y, q);
      var n := |ss| - 1;
      var a, b := |SeqCode(ss[..n], x, p)|, |SeqCode(ss[..n], y, q)|;
      SeqLenAlike(ss[..n], x, y, p, q);
      if ss[n].FixContinue? {
        SeqLenAlike(ss[..n], FixedCtx(x, p + a), FixedCtx(y, q + b), p, q);
      } else {
        AfterSeqAlike(ss[..n], x, y);
        LenAlike(ss[n], AfterSeq(ss[..n], x), AfterSeq(ss[..n], y), p + a, q + b);
      }
    }
  }
}
