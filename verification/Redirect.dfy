/** Back-patching: the code of a loop's body with its jump targets known is the code emitted before they were known, with the recorded jumps redirected. */
module Redirect {
  import opened Shapes
  import opened Bytecode
  import opened Values
  import opened Core
  import opened CodeGen
  import opened CodeLayout

  /** Where a statement has the jumps of its own loop's `break`s, or of its `continue`s. */
  function Sites(s: Stmt, x: Ctx, pos: nat, breaks: bool): seq<nat>
    requires |x.env.names| == |x.env.regs|
    decreases s, 1
  {
    match s
    case Block(ss) => SeqSites(ss, x, pos, breaks)
    case If(c, t, f) =>
      var at := pos + |ExprCode(c, x.env, x.next)| + 1;
      var no := at + |StmtCode(t, x, at)| + if f.Some? && !NeverFallsThrough(t) then 1 else 0;
      Sites(t, x, at, breaks) + if f.None? then [] else Sites(f.value, After(t, x), no, breaks)
    case Catch(body, handler, binds) =>
      var u := CatchCtx(binds, x);
      var at := pos + if binds.Some? then 2 else 1;
      Sites(body, OpenOne(u), at, breaks)
      + if handler.None? || binds.None? then []
        else Sites(handler.value, After(body, u), at + |StmtCode(body, OpenOne(u), at)| + 4, breaks)
    case Break => if breaks && x.loop.InLoop? then [pos + x.loop.opens] else []
    case Continue => if !breaks && x.loop.InLoop? then [pos + x.loop.opens] else []
    case _ => []
  }

  function SeqSites(ss: seq<Stmt>, x: Ctx, pos: nat, breaks: bool): seq<nat>
    requires |x.env.names| == |x.env.regs|
    decreases ss, 0
  {
    if ss == [] then []
    else
      var n := |ss| - 1;
      SeqSites(ss[..n], x, pos, breaks) + Sites(ss[n], AfterSeq(ss[..n], x), pos + |SeqCode(ss[..n], x, pos)|, breaks)
  }

  function JumpTo(target: Option<nat>, at: int): Instr {
    Jmp(if target.Some? then target.value - (at + 1) else 0)
  }

  /** `cy` is `cx`, placed at `pos`, with its `break`s and, if the targets differ, its
      `continue`s redirected from the targets of loop `x` to those of loop `y`. */
  ghost predicate Redirected(cx: seq<Instr>, cy: seq<Instr>, x: Loop, y: Loop, pos: nat, breaks: seq<nat>, continues: seq<nat>)
    requires x.InLoop? && y.InLoop?
  {
    && |cx| == |cy|
    && (forall i: nat :: i < |cx| ==>
          cy[i] == if pos + i in breaks then JumpTo(y.brk, pos + i)
                   else if pos + i in continues && x.cont != y.cont then JumpTo(Some(y.cont), pos + i)
                   else cx[i])
    && (forall p :: p in breaks || p in continues ==> pos <= p < pos + |cx| && cx[p - pos].Jmp?)
    && (forall p :: p in breaks ==> p !in continues)
  }

  lemma {:induction false} RedirectedConcat(ax: seq<Instr>, ay: seq<Instr>, bx: seq<Instr>, bz: seq<Instr>, x: Loop, y: Loop, pos: nat, ba: seq<nat>, ca: seq<nat>, bb: seq<nat>, cb: seq<nat>)
    requires x.InLoop? && y.InLoop?
    requires Redirected(ax, ay, x, y, pos, ba, ca) && Redirected(bx, bz, x, y, pos + |ax|, bb, cb)
    ensures Redirected(ax + bx, ay + bz, x, y, pos, ba + bb, ca + cb)
  {
    var cx, cy := ax + bx, ay + bz;
    forall i: nat | i < |cx| ensures
        cy[i] == if pos + i in ba + bb then JumpTo(y.brk, pos + i)
                 else if pos + i in ca + cb && x.cont != y.cont then JumpTo(Some(y.cont), pos + i)
                 else cx[i]
    {
      if i < |ax| {
        assert pos + i !in bb && pos + i !in cb;
      } else {
        assert pos + i !in ba && pos + i !in ca;
        assert bz[i - |ax|] == cy[i];
      }
    }
    forall p | p in ba + bb || p in ca + cb ensures pos <= p < pos + |cx| && cx[p - pos].Jmp? {
      assert p in ba || p in bb || p in ca || p in cb;
    }
  }

  /** Code around a redirected part that no jump of the loop is in. */
  lemma {:induction false} RedirectedWithin(a: seq<Instr>, cx: seq<Instr>, cy: seq<Instr>, b: seq<Instr>, x: Loop, y: Loop, pos: nat, breaks: seq<nat>, continues: seq<nat>)
    requires x.InLoop? && y.InLoop?
    requires Redirected(cx, cy, x, y, pos + |a|, breaks, continues)
    ensures Redirected(a + cx + b, a + cy + b, x, y, pos, breaks, continues)
  {
    var none: seq<nat> := [];
    assert Redirected(a, a, x, y, pos, none, none) && Redirected(b, b, x, y, pos + |a + cx|, none, none);
    RedirectedConcat(a, a, cx, cy, x, y, pos, none, none, breaks, continues);
    RedirectedConcat(a + cx, a + cy, b, b, x, y, pos, none + breaks, none + continues, none, none);
    assert none + breaks + none == breaks && none + continues + none == continues;
  }

  /** Contexts that differ in loop targets only, the target of `continue` being the same where
      a `FixContinue` may stand. */
  predicate Retargeted(x: Ctx, y: Ctx, own: bool) {
    Alike(x, y) && x.loop.InLoop? && y.loop.InLoop? && (own ==> x.loop.cont == y.loop.cont)
  }

  /** Emitting a statement for other targets is redirecting its jumps. */
  lemma {:induction false} Redirects(s: Stmt, x: Ctx, y: Ctx, pos: nat, own: bool)
    requires Retargeted(x, y, own) && Fits(s, true, own)
    ensures Redirected(StmtCode(s, x, pos), StmtCode(s, y, pos), x.loop, y.loop, pos, Sites(s, x, pos, true), Sites(s, x, pos, false))
    decreases s, 3
  {
    hide StmtCode, SeqCode, Sites, SeqSites, Redirected;
    match s
    case Block(ss) =>
      BlockCode(s, x, pos);
      BlockCode(s, y, pos);
      BlockSites(s, x, pos);
      SeqRedirects(ss, x, y, pos, own);
    case If(_, _, _) => IfRedirects(s, x, y, pos);
    case Catch(_, _, _) => CatchRedirects(s, x, y, pos);
    case _ => LeafRedirects(s, x, y, pos, own);
  }

  lemma {:induction false} BlockSites(s: Stmt, x: Ctx, pos: nat)
    requires s.Block? && |x.env.names| == |x.env.regs|
    ensures Sites(s, x, pos, true) == SeqSites(s.stmts, x, pos, true) && Sites(s, x, pos, false) == SeqSites(s.stmts, x, pos, false)
  {
    hide SeqSites;
  }

  /** Statements without parts, and inner loops, whose jumps are all their own. */
  lemma {:induction false} LeafRedirects(s: Stmt, x: Ctx, y: Ctx, pos: nat, own: bool)
    requires Retargeted(x, y, own) && !s.Block? && !s.If? && !s.Catch?
    ensures Redirected(StmtCode(s, x, pos), StmtCode(s, y, pos), x.loop, y.loop, pos, Sites(s, x, pos, true), Sites(s, x, pos, false))
  {
    if s.While? {
      hide StmtCode, ExprCode;
      WhileCode(s, x, pos);
      WhileCode(s, y, pos);
      assert forall end :: BodyCtx(x, pos, end) == BodyCtx(y, pos, end);
    } else {
      hide ExprCode, ExprReg, MoveTo;
    }
  }

  function IfNo(s: Stmt, x: Ctx, at: nat): nat
    requires s.If? && |x.env.names| == |x.env.regs|
  {
    at + |StmtCode(s.thenB, x, at)| + if s.elseB.Some? && !NeverFallsThrough(s.thenB) then 1 else 0
  }

  lemma {:induction false} IfSites(s: Stmt, x: Ctx, pos: nat, breaks: bool)
    requires s.If? && |x.env.names| == |x.env.regs|
    ensures
      var at := pos + |ExprCode(s.cond, x.env, x.next)| + 1;
      && (s.elseB.None? ==> Sites(s, x, pos, breaks) == Sites(s.thenB, x, at, breaks))
      && (s.elseB.Some? ==> Sites(s, x, pos, breaks) == Sites(s.thenB, x, at, breaks) + Sites(s.elseB.value, After(s.thenB, x), IfNo(s, x, at), breaks))
  {
    hide StmtCode, After, ExprCode, SeqSites, NeverFallsThrough;
  }

  lemma {:induction false} CatchSites(s: Stmt, x: Ctx, pos: nat, breaks: bool)
    requires s.Catch? && |x.env.names| == |x.env.regs|
    ensures
      var u := CatchCtx(s.binds, x);
      var at := pos + if s.binds.Some? then 2 else 1;
      var inner := Sites(s.body, OpenOne(u), at, breaks);
      && (s.handler.None? || s.binds.None? ==> Sites(s, x, pos, breaks) == inner)
      && (s.handler.Some? && s.binds.Some? ==>
            Sites(s, x, pos, breaks) == inner + Sites(s.handler.value, After(s.body, u), at + |StmtCode(s.body, OpenOne(u), at)| + 4, breaks))
  {
    hide StmtCode, After, SeqSites, OpenOne;
  }

  lemma {:induction false} SeqSitesSteps(ss: seq<Stmt>, x: Ctx, pos: nat, breaks: bool)
    requires ss != [] && |x.env.names| == |x.env.regs|
    ensures
      var n := |ss| - 1;
      var last := Sites(ss[n], AfterSeq(ss[..n], x), pos + |SeqCode(ss[..n], x, pos)|, breaks);
      && SeqSites(ss, x, pos, breaks) == SeqSites(ss[..n], x, pos, breaks) + last
      && (ss[n].FixContinue? ==> SeqSites(ss, x, pos, breaks) == SeqSites(ss[..n], x, pos, breaks))
  {
    hide SeqCode, AfterSeq;
  }

  /** Where the jumps are does not depend on where they go. */
  lemma {:induction false} SitesAlike(s: Stmt, x: Ctx, y: Ctx, pos: nat, breaks: bool)
    requires Alike(x, y)
    ensures Sites(s, x, pos, breaks) == Sites(s, y, pos, breaks)
    decreases s, 1
  {
    if s.Block? {
      SeqSitesAlike(s.stmts, x, y, pos, breaks);
    } else if s.If? {
      IfSitesAlike(s, x, y, pos, breaks);
    } else if s.Catch? {
      CatchSitesAlike(s, x, y, pos, breaks);
    }
  }

  lemma {:induction false} IfSitesAlike(s: Stmt, x: Ctx, y: Ctx, pos: nat, breaks: bool)
    requires Alike(x, y) && s.If?
    ensures Sites(s, x, pos, breaks) == Sites(s, y, pos, breaks)
    decreases s, 0
  {
    hide StmtCode, Sites, SeqSites, After, ExprCode, SeqCode, NeverFallsThrough;
    var at := pos + |ExprCode(s.cond, x.env, x.next)| + 1;
    IfSites(s, x, pos, breaks);
    IfSites(s, y, pos, breaks);
    LenAlike(s.thenB, x, y, at, at);
    AfterAlike(s.thenB, x, y);
    SitesAlike(s.thenB, x, y, at, breaks);
    if s.elseB.Some? { SitesAlike(s.elseB.value, After(s.thenB, x), After(s.thenB, y), IfNo(s, x, at), breaks); }
  }

  lemma {:induction false} CatchSitesAlike(s: Stmt, x: Ctx, y: Ctx, pos: nat, breaks: bool)
    requires Alike(x, y) && s.Catch?
    ensures Sites(s, x, pos, breaks) == Sites(s, y, pos, breaks)
    decreases s, 0
  {
    hide StmtCode, Sites, SeqSites, After, SeqCode;
    var u, v := CatchCtx(s.binds, x), CatchCtx(s.binds, y);
    var at := pos + if s.binds.Some? then 2 else 1;
    CatchSites(s, x, pos, breaks);
    CatchSites(s, y, pos, breaks);
    LenAlike(s.body, OpenOne(u), OpenOne(v), at, at);
    AfterAlike(s.body, u, v);
    SitesAlike(s.body, OpenOne(u), OpenOne(v), at, breaks);
    if s.handler.Some? { SitesAlike(s.handler.value, After(s.body, u), After(s.body, v), at + |StmtCode(s.body, OpenOne(u), at)| + 4, breaks); }
  }

  lemma {:induction false} SeqSitesAlike(ss: seq<Stmt>, x: Ctx, y: Ctx, pos: nat, breaks: bool)
    requires Alike(x, y)
    ensures SeqSites(ss, x, pos, breaks) == SeqSites(ss, y, pos, breaks)
    decreases ss, 0
  {
    if ss != [] {
      hide SeqCode, AfterSeq, Sites, SeqSites, StmtCode;
      var n := |ss| - 1;
      SeqSitesSteps(ss, x, pos, breaks);
      SeqSitesSteps(ss, y, pos, breaks);
      SeqSitesAlike(ss[..n], x, y, pos, breaks);
      SeqLenAlike(ss[..n], x, y, pos, pos);
      AfterSeqAlike(ss[..n], x, y);
      SitesAlike(ss[n], AfterSeq(ss[..n], x), AfterSeq(ss[..n], y), pos + |SeqCode(ss[..n], x, pos)|, breaks);
    }
  }

  lemma {:induction false} IfRedirects(s: Stmt, x: Ctx, y: Ctx, pos: nat)
    requires s.If? && Retargeted(x, y, false) && Fits(s, true, false)
    ensures Redirected(StmtCode(s, x, pos), StmtCode(s, y, pos), x.loop, y.loop, pos, Sites(s, x, pos, true), Sites(s, x, pos, false))
    decreases s, 1
  {
    hide StmtCode, SeqCode, After, ExprCode, ExprReg, Sites, Redirected, NeverFallsThrough;
    var test, r := ExprCode(s.cond, x.env, x.next), ExprReg(s.cond, x.env, x.next);
    var at := pos + |test| + 1;
    var t := s.thenB;
    IfCode(s, x, pos);
    IfCode(s, y, pos);
    IfSites(s, x, pos, true);
    IfSites(s, x, pos, false);
    LenAlike(t, x, y, at, at);
    Redirects(t, x, y, at, false);
    var yx, yy := StmtCode(t, x, at), StmtCode(t, y, at);
    var bt, ct := Sites(t, x, at, true), Sites(t, x, at, false);
    var no := IfNo(s, x, at);
    var hop := s.elseB.Some? && !NeverFallsThrough(t);
    var jump := [JmpIfFalse(r, |yx| + if hop then 1 else 0)];
    if s.elseB.None? {
      RedirectedWithin(test + jump, yx, yy, [], x.loop, y.loop, pos, bt, ct);
      ForkIs(test, r, yx, yy, false, [], [], pos);
    } else {
      AfterAlike(t, x, y);
      var f, u, v := s.elseB.value, After(t, x), After(t, y);
      LenAlike(f, u, v, no, no);
      Redirects(f, u, v, no, false);
      var nx, ny := StmtCode(f, u, no), StmtCode(f, v, no);
      var over := if hop then [Jmp(|nx|)] else [];
      RedirectedWithin(test + jump, yx, yy, over, x.loop, y.loop, pos, bt, ct);
      RedirectedConcat(test + jump + yx + over, test + jump + yy + over, nx, ny, x.loop, y.loop, pos, bt, ct, Sites(f, u, no, true), Sites(f, u, no, false));
      ForkIs(test, r, yx, yy, hop, nx, ny, pos);
    }
  }

  lemma {:induction false} ForkIs(test: seq<Instr>, r: Reg, yx: seq<Instr>, yy: seq<Instr>, hop: bool, nx: seq<Instr>, ny: seq<Instr>, pos: nat)
    requires |yx| == |yy| && |nx| == |ny|
    ensures
      var jump := [JmpIfFalse(r, |yx| + if hop then 1 else 0)];
      var over := if hop then [Jmp(|nx|)] else [];
      && Fork(test, r, yx, hop, nx) == test + jump + yx + over + nx
      && Fork(test, r, yy, hop, ny) == test + jump + yy + over + ny
      && (nx == [] ==> test + jump + yx + over + nx == test + jump + yx + over)
      && (ny == [] ==> test + jump + yy + over + ny == test + jump + yy + over)
  {
    var jump := [JmpIfFalse(r, |yx| + if hop then 1 else 0)];
    assert test + jump + yx + [] == test + jump + yx && test + jump + yy + [] == test + jump + yy;
  }

  lemma {:induction false} CatchRedirects(s: Stmt, x: Ctx, y: Ctx, pos: nat)
    requires s.Catch? && Retargeted(x, y, false) && Fits(s, true, false)
    ensures Redirected(StmtCode(s, x, pos), StmtCode(s, y, pos), x.loop, y.loop, pos, Sites(s, x, pos, true), Sites(s, x, pos, false))
    decreases s, 2
  {
    hide StmtCode, SeqCode, After, Sites, SeqSites, Redirected, Guarded, Fork, Unless;
    var u, v := CatchCtx(s.binds, x), CatchCtx(s.binds, y);
    var load := if s.binds.Some? then [LoadNil(x.next)] else [];
    var w := if s.binds.Some? then Some(x.next) else None;
    var at := pos + |load| + 1;
    CatchCode(s, x, pos);
    CatchCode(s, y, pos);
    CatchSites(s, x, pos, true);
    CatchSites(s, x, pos, false);
    AfterAlike(s.body, u, v);
    GuardRedirects(s, x, y, pos, load, w);
    if s.handler.Some? && s.binds.Some? {
      RescueRedirects(s, x, y, pos, load, w);
    }
  }

  /** The part of a `catch` from its guard to the end of its handler. */
  lemma {:induction false} RescueRedirects(s: Stmt, x: Ctx, y: Ctx, pos: nat, load: seq<Instr>, w: Option<Reg>)
    requires s.Catch? && s.handler.Some? && s.binds.Some? && Retargeted(x, y, false) && Fits(s, true, false) && |load| == 1
    ensures
      var u, v, at := CatchCtx(s.binds, x), CatchCtx(s.binds, y), pos + |load| + 1;
      var bx, bz := StmtCode(s.body, OpenOne(u), at), StmtCode(s.body, OpenOne(v), at);
      var z, q, to := After(s.body, u), After(s.body, v), at + |bx| + 4;
      var hx, hy := StmtCode(s.handler.value, z, to), StmtCode(s.handler.value, q, to);
      && |bz| == |bx| && |Guarded(w, bx)| == |Guarded(w, bz)| == |bx| + 2 && z.next == q.next
      && Redirected(load + Guarded(w, bx) + Fork(Unless(x.next, z.next), z.next + 1, hx, false, []),
                    load + Guarded(w, bz) + Fork(Unless(x.next, z.next), z.next + 1, hy, false, []), x.loop, y.loop, pos,
                    Sites(s.body, OpenOne(u), at, true) + Sites(s.handler.value, z, to, true),
                    Sites(s.body, OpenOne(u), at, false) + Sites(s.handler.value, z, to, false))
    decreases s, 1
  {
    hide *;
    var u, v, at := CatchCtx(s.binds, x), CatchCtx(s.binds, y), pos + |load| + 1;
    var h, z, q := s.handler.value, After(s.body, u), After(s.body, v);
    HandlerAlike(s, x, y);
    var bx, bz := StmtCode(s.body, OpenOne(u), at), StmtCode(s.body, OpenOne(v), at);
    LenAlike(s.body, OpenOne(u), OpenOne(v), at, at);
    GuardedLen(w, bx, bz);
    GuardRedirects(s, x, y, pos, load, w);
    var to := at + |bx| + 4;
    LenAlike(h, z, q, to, to);
    Redirects(h, z, q, to, false);
    var hx, hy := StmtCode(h, z, to), StmtCode(h, q, to);
    var test := Unless(x.next, z.next) + [JmpIfFalse(z.next + 1, |hx|)];
    RescueIs(x.next, z.next, hx, hy);
    RedirectedWithin(test, hx, hy, [], x.loop, y.loop, to - 3, Sites(h, z, to, true), Sites(h, z, to, false));
    RedirectedConcat(load + Guarded(w, bx), load + Guarded(w, bz), test + hx + [], test + hy + [], x.loop, y.loop, pos,
      Sites(s.body, OpenOne(u), at, true), Sites(s.body, OpenOne(u), at, false), Sites(h, z, to, true), Sites(h, z, to, false));
  }

  lemma {:induction false} HandlerAlike(s: Stmt, x: Ctx, y: Ctx)
    requires s.Catch? && s.handler.Some? && Retargeted(x, y, false) && Fits(s, true, false)
    ensures
      var u, v := CatchCtx(s.binds, x), CatchCtx(s.binds, y);
      var z, q := After(s.body, u), After(s.body, v);
      && Alike(OpenOne(u), OpenOne(v)) && Alike(z, q) && Retargeted(z, q, false) && Fits(s.handler.value, true, false)
      && |OpenOne(u).env.names| == |OpenOne(u).env.regs| && |z.env.names| == |z.env.regs| && |OpenOne(v).env.names| == |OpenOne(v).env.regs|
      && |q.env.names| == |q.env.regs| && z.next == q.next && z.loop == x.loop && q.loop == y.loop && x.loop.InLoop? && y.loop.InLoop?
  {
    AfterAlike(s.body, CatchCtx(s.binds, x), CatchCtx(s.binds, y));
    hide After;
  }

  lemma {:induction false} GuardedLen(w: Option<Reg>, bx: seq<Instr>, bz: seq<Instr>)
    requires |bx| == |bz|
    ensures |Guarded(w, bx)| == |Guarded(w, bz)| == |bx| + 2
  {
  }

  lemma {:induction false} RescueIs(v: Reg, m: nat, hx: seq<Instr>, hy: seq<Instr>)
    requires |hx| == |hy|
    ensures
      var test := Unless(v, m) + [JmpIfFalse(m + 1, |hx|)];
      && |test| == 3
      && Fork(Unless(v, m), m + 1, hx, false, []) == test + hx + []
      && Fork(Unless(v, m), m + 1, hy, false, []) == test + hy + []
  {
  }

  lemma {:induction false} GuardRedirects(s: Stmt, x: Ctx, y: Ctx, pos: nat, load: seq<Instr>, w: Option<Reg>)
    requires s.Catch? && Retargeted(x, y, false) && Fits(s, true, false) && |load| == if s.binds.Some? then 1 else 0
    ensures
      var u, v := CatchCtx(s.binds, x), CatchCtx(s.binds, y);
      var at := pos + |load| + 1;
      Redirected(load + Guarded(w, StmtCode(s.body, OpenOne(u), at)), load + Guarded(w, StmtCode(s.body, OpenOne(v), at)), x.loop, y.loop, pos,
                 Sites(s.body, OpenOne(u), at, true), Sites(s.body, OpenOne(u), at, false))
    decreases s, 0
  {
    hide StmtCode, SeqCode, Sites, SeqSites, Redirected, Guarded, Fits;
    GuardAlike(s, x, y);
    var u, v := CatchCtx(s.binds, x), CatchCtx(s.binds, y);
    var ou, ov := OpenOne(u), OpenOne(v);
    hide CatchCtx, OpenOne;
    var at := pos + |load| + 1;
    LenAlike(s.body, ou, ov, at, at);
    Redirects(s.body, ou, ov, at, false);
    var bx, bz := StmtCode(s.body, ou, at), StmtCode(s.body, ov, at);
    var bs, cs := Sites(s.body, ou, at, true), Sites(s.body, ou, at, false);
    RedirectedLoops(bx, bz, ou.loop, ov.loop, x.loop, y.loop, at, bs, cs);
    RedirectedWithin(load + [PushCatch(w, |bx| + 1)], bx, bz, [PopCatch], x.loop, y.loop, pos, bs, cs);
    GuardIs(load, w, bx, bz);
  }

  lemma {:induction false} GuardAlike(s: Stmt, x: Ctx, y: Ctx)
    requires s.Catch? && Retargeted(x, y, false) && Fits(s, true, false)
    ensures
      var ou, ov := OpenOne(CatchCtx(s.binds, x)), OpenOne(CatchCtx(s.binds, y));
      && Retargeted(ou, ov, false) && Fits(s.body, true, false)
      && ou.loop.brk == x.loop.brk && ou.loop.cont == x.loop.cont && ov.loop.brk == y.loop.brk && ov.loop.cont == y.loop.cont
  {
  }

  lemma {:induction false} GuardIs(load: seq<Instr>, w: Option<Reg>, bx: seq<Instr>, bz: seq<Instr>)
    requires |bx| == |bz|
    ensures
      var push := load + [PushCatch(w, |bx| + 1)];
      load + Guarded(w, bx) == push + bx + [PopCatch] && load + Guarded(w, bz) == push + bz + [PopCatch]
  {
  }

  /** Only the targets matter. */
  lemma {:induction false} RedirectedLoops(cx: seq<Instr>, cy: seq<Instr>, x: Loop, y: Loop, x1: Loop, y1: Loop, pos: nat, breaks: seq<nat>, continues: seq<nat>)
    requires x.InLoop? && y.InLoop? && x1.InLoop? && y1.InLoop? && Redirected(cx, cy, x, y, pos, breaks, continues)
    requires y1.brk == y.brk && (x.cont == y.cont <==> x1.cont == y1.cont) && (x1.cont != y1.cont ==> y1.cont == y.cont)
    ensures Redirected(cx, cy, x1, y1, pos, breaks, continues)
  {
  }

  lemma {:induction false} SeqRedirects(ss: seq<Stmt>, x: Ctx, y: Ctx, pos: nat, own: bool)
    requires Retargeted(x, y, own) && FitsSeq(ss, true, own)
    ensures Redirected(SeqCode(ss, x, pos), SeqCode(ss, y, pos), x.loop, y.loop, pos, SeqSites(ss, x, pos, true), SeqSites(ss, x, pos, false))
    decreases ss, 1
  {
    if ss != [] {
      hide SeqCode, AfterSeq, Sites, SeqSites, StmtCode, Redirected;
      if ss[|ss| - 1].FixContinue? {
        FixRedirects(ss, x, y, pos, own);
      } else {
        LastRedirects(ss, x, y, pos, own);
      }
    }
  }

  lemma {:induction false} FixRedirects(ss: seq<Stmt>, x: Ctx, y: Ctx, pos: nat, own: bool)
    requires ss != [] && ss[|ss| - 1].FixContinue? && Retargeted(x, y, own) && FitsSeq(ss, true, own)
    ensures Redirected(SeqCode(ss, x, pos), SeqCode(ss, y, pos), x.loop, y.loop, pos, SeqSites(ss, x, pos, true), SeqSites(ss, x, pos, false))
    decreases ss, 0
  {
    hide SeqCode, AfterSeq, Sites, SeqSites, StmtCode, Redirected, Plain;
    var n := |ss| - 1;
    SeqCodeSteps(ss, x, pos);
    SeqCodeSteps(ss, y, pos);
    SeqSitesSteps(ss, x, pos, true);
    SeqSitesSteps(ss, x, pos, false);
    SeqLenAlike(ss[..n], x, y, pos, pos);
    var at := pos + |SeqCode(ss[..n], x, pos)|;
    var u, v := FixedCtx(x, at), FixedCtx(y, at);
    SeqRedirects(ss[..n], u, v, pos, false);
    SeqSitesAlike(ss[..n], x, u, pos, true);
    SeqSitesAlike(ss[..n], x, u, pos, false);
    RedirectedLoops(SeqCode(ss, x, pos), SeqCode(ss, y, pos), u.loop, v.loop, x.loop, y.loop, pos, SeqSites(ss, x, pos, true), SeqSites(ss, x, pos, false));
  }

  lemma {:induction false} LastRedirects(ss: seq<Stmt>, x: Ctx, y: Ctx, pos: nat, own: bool)
    requires ss != [] && !ss[|ss| - 1].FixContinue? && Retargeted(x, y, own) && FitsSeq(ss, true, own)
    ensures Redirected(SeqCode(ss, x, pos), SeqCode(ss, y, pos), x.loop, y.loop, pos, SeqSites(ss, x, pos, true), SeqSites(ss, x, pos, false))
    decreases ss, 0
  {
    hide SeqCode, AfterSeq, Sites, SeqSites, StmtCode, Redirected, Plain, Fits;
    var n := |ss| - 1;
    SeqCodeSteps(ss, x, pos);
    SeqCodeSteps(ss, y, pos);
    SeqSitesSteps(ss, x, pos, true);
    SeqSitesSteps(ss, x, pos, false);
    SeqLenAlike(ss[..n], x, y, pos, pos);
    var first, at := SeqCode(ss[..n], x, pos), pos + |SeqCode(ss[..n], x, pos)|;
    var u, v := AfterSeq(ss[..n], x), AfterSeq(ss[..n], y);
    AfterSeqAlike(ss[..n], x, y);
    SeqRedirects(ss[..n], x, y, pos, own);
    Redirects(ss[n], u, v, at, false);
    RedirectedConcat(first, SeqCode(ss[..n], y, pos), StmtCode(ss[n], u, at), StmtCode(ss[n], v, at), x.loop, y.loop, pos,
      SeqSites(ss[..n], x, pos, true), SeqSites(ss[..n], x, pos, false), Sites(ss[n], u, at, true), Sites(ss[n], u, at, false));
  }
}
