/** What compiling a statement makes of a function scope, step by step. */
module CompilingStmts {
  import opened Shapes
  import opened Bytecode
  import opened Values
  import opened Core
  import opened CodeGen
  import opened CodeLayout
  import opened Locals
  import opened Redirect
  import opened Frame
  import opened Compiling

  /** What the emitted code depends on. No loop knows its end while it is being compiled. */
  function CtxOf(c: Comp): Ctx {
    Ctx(c.locals, c.nextReg,
      if c.loops == [] then NoLoop
      else
        var l := c.loops[|c.loops| - 1];
        InLoop(None, l.continueTarget, if l.openCatches <= c.openCatches then c.openCatches - l.openCatches else 0))
  }

  /** The innermost loop has more jumps to patch. */
  function AddSites(loops: seq<LoopContext>, breaks: seq<nat>, continues: seq<nat>): seq<LoopContext> {
    if loops == [] then []
    else
      var n := |loops| - 1;
      var l := loops[n];
      loops[..n] + [l.(breakJumps := l.breakJumps + breaks, continueLocales := l.continueLocales + continues)]
  }

  lemma {:induction false} AddSitesTwice(loops: seq<LoopContext>, b1: seq<nat>, c1: seq<nat>, b2: seq<nat>, c2: seq<nat>)
    ensures AddSites(AddSites(loops, b1, c1), b2, c2) == AddSites(loops, b1 + b2, c1 + c2)
  {
    if loops != [] {
      var l := loops[|loops| - 1];
      assert l.breakJumps + b1 + b2 == l.breakJumps + (b1 + b2);
      assert l.continueLocales + c1 + c2 == l.continueLocales + (c1 + c2);
    }
  }

  lemma {:induction false} AddNoSites(loops: seq<LoopContext>)
    ensures AddSites(loops, [], []) == loops
  {
    if loops != [] {
      var l := loops[|loops| - 1];
      assert l.breakJumps + [] == l.breakJumps && l.continueLocales + [] == l.continueLocales;
      assert loops == loops[..|loops| - 1] + [l];
    }
  }

  /** After a statement. */
  function Compiled(c: Comp, s: Stmt): Comp
    requires |c.locals.names| == |c.locals.regs|
  {
    var x, pos := CtxOf(c), |c.code|;
    var y := After(s, x);
    Comp(c.code + StmtCode(s, x, pos), y.env, y.next, Max(c.maxReg, StmtPeak(s, x)),
      AddSites(c.loops, Sites(s, x, pos, true), Sites(s, x, pos, false)), c.openCatches)
  }

  function CompiledSeq(c: Comp, ss: seq<Stmt>): Comp
    requires |c.locals.names| == |c.locals.regs|
  {
    var x, pos := CtxOf(c), |c.code|;
    var y := AfterSeq(ss, x);
    Comp(c.code + SeqCode(ss, x, pos), y.env, y.next, Max(c.maxReg, SeqPeak(ss, x)),
      AddSites(c.loops, SeqSites(ss, x, pos, true), SeqSites(ss, x, pos, false)), c.openCatches)
  }

  /** A scope ready to compile a statement; one for a loop's own block has no `continue` yet. */
  predicate Ready(c: Comp, own: bool) {
    && c.Ok()
    && (c.loops != [] ==> c.loops[|c.loops| - 1].openCatches <= c.openCatches)
    && (own ==>
          && c.loops != []
          && c.loops[|c.loops| - 1].openCatches == c.openCatches
          && c.loops[|c.loops| - 1].continueLocales == []
          && c.loops[|c.loops| - 1].continueTarget < |c.code|)
  }

  lemma {:induction false} CompiledReady(c: Comp, s: Stmt, own: bool)
    requires Ready(c, own)
    ensures |c.locals.names| == |c.locals.regs|
    ensures var d := Compiled(c, s);
            && Ready(d, false) && CtxOf(d) == After(s, CtxOf(c)) && |d.locals.names| == |d.locals.regs|
            && |c.loops| == |d.loops| && |c.code| <= |d.code| && c.openCatches == d.openCatches
            && d.code == c.code + StmtCode(s, CtxOf(c), |c.code|)
            && CtxOf(c).loop.InLoop? == (c.loops != [])
  {
    hide StmtCode, StmtPeak, Sites, After;
    AfterExtends(s, CtxOf(c));
  }

  // Statements without statements in them.

  /** The end of a simple statement once its expression is loaded. */
  function Finish(c: Comp, s: Stmt, mark: nat, r: Reg): Comp
    requires |c.locals.names| == |c.locals.regs|
    requires s.Expression? || s.Assign? || s.Echo? || s.VarDecl? || s.Return? || s.RaiseOf?
  {
    match s
    case Expression(_) => c.Free(mark)
    case Echo(_) => c.Put(Print(r)).Free(mark)
    case Assign(name, _) =>
      var i := Find(c.locals.names, name);
      if i < 0 then c.Put(AssignGlobal(name, r)).Free(mark)
      else if r == c.locals.regs[i] then c.Free(mark)
      else c.Put(Copy(c.locals.regs[i], r)).Free(r).Free(mark)
    case VarDecl(name, _) =>
      if r >= mark then c.(locals := c.locals.Declare(name, r))
      else
        var d := c.Alloc().Put(Copy(c.nextReg, r));
        d.(locals := d.locals.Declare(name, c.nextReg))
    case Return(_) => c.Put(Ret(r))
    case RaiseOf(_) => c.Put(Raise(r))
  }

  lemma {:induction false} SimpleParts(s: Stmt, x: Ctx, pos: nat)
    requires |x.env.names| == |x.env.regs|
    requires s.Expression? || s.Assign? || s.Echo? || s.VarDecl? || s.Return? || s.RaiseOf?
    ensures
      var code, r, p := ExprCode(s.e, x.env, x.next), ExprReg(s.e, x.env, x.next), ExprPeak(s.e, x.env, x.next);
      && Sites(s, x, pos, true) == [] && Sites(s, x, pos, false) == []
      && StmtPeak(s, x) == (if s.VarDecl? then Max(p, x.next + 1) else p)
      && (s.Expression? ==> StmtCode(s, x, pos) == code)
      && (s.Echo? ==> StmtCode(s, x, pos) == code + [Print(r)])
      && (s.Assign? ==>
            var i := Find(x.env.names, s.name);
            StmtCode(s, x, pos) == code + if i >= 0 then MoveTo(x.env.regs[i], r) else [AssignGlobal(s.name, r)])
      && (s.VarDecl? ==> StmtCode(s, x, pos) == code + MoveTo(x.next, r) && After(s, x) == x.(env := x.env.Declare(s.name, x.next), next := x.next + 1))
      && (s.Return? ==> StmtCode(s, x, pos) == code + [Ret(r)])
      && (s.RaiseOf? ==> StmtCode(s, x, pos) == code + [Raise(r)])
      && (s.Return? || s.RaiseOf? ==> After(s, x) == x.(next := ExprNext(s.e, x.env, x.next)))
      && (s.Expression? || s.Echo? || s.Assign? ==> After(s, x) == x)
  {
    hide ExprCode, ExprPeak, ExprReg, MoveTo;
  }

  lemma {:induction false} SimpleResult(c: Comp, s: Stmt)
    requires c.Ok() && (s.Expression? || s.Assign? || s.Echo? || s.VarDecl? || s.Return? || s.RaiseOf?)
    ensures |c.locals.names| == |c.locals.regs|
    ensures Finish(c.Load(s.e), s, c.nextReg, ExprReg(s.e, c.locals, c.nextReg)) == Compiled(c, s)
  {
    hide ExprCode, ExprPeak, ExprReg, ExprNext, StmtCode, StmtPeak, Sites, After;
    LoadOk(c, s.e);
    SimpleParts(s, CtxOf(c), |c.code|);
    AddNoSites(c.loops);
    var e := s.e;
    var code, r := ExprCode(e, c.locals, c.nextReg), ExprReg(e, c.locals, c.nextReg);
    TailShape(c.code, code);
  }

  lemma {:induction false} TailShape(code: seq<Instr>, a: seq<Instr>)
    ensures forall i: Instr :: code + a + [i] == code + (a + [i])
    ensures code + (a + []) == code + a
  {
  }

  // `break` and `continue`.

  function Opens(c: Comp): nat {
    var l := CtxOf(c).loop;
    if l.NoLoop? then c.openCatches else l.opens
  }

  lemma {:induction false} JumpResult(c: Comp, s: Stmt)
    requires c.Ok() && (s.Break? || s.Continue?) && c.loops != []
    ensures |c.locals.names| == |c.locals.regs|
    ensures
      var at, l := |c.code| + Opens(c), c.loops[|c.loops| - 1];
      var d := c.(code := c.code + Pops(Opens(c)));
      && (s.Break? ==> (var b := d.Put(Jmp(0)); b.(loops := AddSites(c.loops, [at], [])) == Compiled(c, s)))
      && (s.Continue? ==> (var b := d.Put(Jmp(l.continueTarget - (at + 1))); b.(loops := AddSites(c.loops, [], [at])) == Compiled(c, s)))
  {
    var x, pos := CtxOf(c), |c.code|;
    assert s.Break? ==> StmtCode(s, x, pos) == Pops(Opens(c)) + [Jmp(0)];
    assert s.Continue? ==> StmtCode(s, x, pos) == Pops(Opens(c)) + [Jmp(x.loop.cont - (pos + Opens(c) + 1))];
    assert After(s, x) == x && StmtPeak(s, x) == x.next;
    hide StmtCode, Pops, After, StmtPeak;
    TailShape(c.code, Pops(Opens(c)));
  }

  // Branches.

  /** After the first branch of an `if`, with the jump over the second one if there is one and
      it is needed, and the test's jump patched. */
  function Branched(d: Comp, s: Stmt): Comp
    requires s.If? && |d.locals.names| == |d.locals.regs| && |d.code| > 0 && IsJump(d.code[|d.code| - 1])
  {
    var d1 := Compiled(d, s.thenB);
    (if s.elseB.Some? && !NeverFallsThrough(s.thenB) then d1.Put(Jmp(0)) else d1).Patch(|d.code| - 1)
  }

  lemma {:induction false} BranchedOk(c: Comp, s: Stmt, own: bool)
    requires Ready(c, own) && s.If?
    ensures |c.locals.names| == |c.locals.regs|
    ensures
      var d, x := Tested(c, s.cond), CtxOf(c);
      var test, r := ExprCode(s.cond, x.env, x.next), ExprReg(s.cond, x.env, x.next);
      var at := |c.code| + |test| + 1;
      var yes := StmtCode(s.thenB, x, at);
      var hop := s.elseB.Some? && !NeverFallsThrough(s.thenB);
      && |d.locals.names| == |d.locals.regs| && |d.code| == at && IsJump(d.code[at - 1]) && Ready(d, false) && CtxOf(d) == x
      && var f := Branched(d, s);
         && |f.locals.names| == |f.locals.regs| && Ready(f, false) && CtxOf(f) == After(s.thenB, x)
         && f.code == c.code + test + [JmpIfFalse(r, |yes| + if hop then 1 else 0)] + yes + (if hop then [Jmp(0)] else [])
         && f.maxReg == Max(Max(c.maxReg, ExprPeak(s.cond, x.env, x.next)), StmtPeak(s.thenB, x))
         && f.loops == AddSites(c.loops, Sites(s.thenB, x, at, true), Sites(s.thenB, x, at, false))
         && f.openCatches == c.openCatches
  {
    hide ExprCode, ExprReg, ExprPeak, ExprNext, StmtCode, StmtPeak, Sites, After, NeverFallsThrough;
    TestedOk(c, s.cond);
    var d, x := Tested(c, s.cond), CtxOf(c);
    hide Tested;
    CompiledReady(d, s.thenB, false);
    var test, r := ExprCode(s.cond, x.env, x.next), ExprReg(s.cond, x.env, x.next);
    var yes := StmtCode(s.thenB, x, |d.code|);
    var hop := s.elseB.Some? && !NeverFallsThrough(s.thenB);
    var over := if hop then [Jmp(0)] else [];
    PatchEnd(c.code + test, JmpIfFalse(r, 0), yes + over);
    BranchShape(c.code + test + [JmpIfFalse(r, 0)], yes, over);
    BranchShape(c.code + test + [JmpIfFalse(r, |yes + over|)], yes, over);
  }

  lemma {:induction false} BranchShape(a: seq<Instr>, b: seq<Instr>, d: seq<Instr>)
    ensures a + (b + d) == a + b + d && (d == [] ==> a + b + d == a + b)
  {
  }

  lemma {:induction false} IfParts(s: Stmt, x: Ctx, pos: nat)
    requires s.If? && |x.env.names| == |x.env.regs|
    ensures
      var y := After(s.thenB, x);
      var p := Max(ExprPeak(s.cond, x.env, x.next), StmtPeak(s.thenB, x));
      && (s.elseB.None? ==> After(s, x) == y && StmtPeak(s, x) == p)
      && (s.elseB.Some? ==> After(s, x) == After(s.elseB.value, y) && StmtPeak(s, x) == Max(p, StmtPeak(s.elseB.value, y)))
  {
    hide ExprPeak;
  }

  lemma {:induction false} IfReady(c: Comp, s: Stmt, own: bool)
    requires Ready(c, own) && s.If?
    ensures |c.locals.names| == |c.locals.regs|
    ensures
      var d := Tested(c, s.cond);
      && Ready(d, false) && |d.locals.names| == |d.locals.regs| && |d.code| > 0 && IsJump(d.code[|d.code| - 1]) && (d.loops == [] <==> c.loops == [])
      && var f := Branched(d, s);
         Ready(f, false) && |f.locals.names| == |f.locals.regs| && (f.loops == [] <==> c.loops == [])
  {
    hide ExprCode, ExprReg, ExprPeak, StmtCode, StmtPeak, Sites, After, NeverFallsThrough, Tested, Branched, Ready;
    BranchedOk(c, s, own);
    LoopsKept(c, Tested(c, s.cond));
  }

  lemma {:induction false} LoopsKept(c: Comp, d: Comp)
    requires CtxOf(d) == CtxOf(c)
    ensures d.loops == [] <==> c.loops == []
  {
  }

  lemma {:induction false} IfThenResult(c: Comp, s: Stmt, own: bool)
    requires Ready(c, own) && s.If? && s.elseB.None?
    ensures |c.locals.names| == |c.locals.regs|
    ensures
      var d := Tested(c, s.cond);
      |d.locals.names| == |d.locals.regs| && |d.code| > 0 && IsJump(d.code[|d.code| - 1]) && Branched(d, s) == Compiled(c, s)
  {
    hide ExprCode, ExprReg, ExprPeak, StmtCode, StmtPeak, Sites, After, NeverFallsThrough, Fork, Tested, Branched, Ready;
    BranchedOk(c, s, own);
    var x, pos := CtxOf(c), |c.code|;
    var test, r := ExprCode(s.cond, x.env, x.next), ExprReg(s.cond, x.env, x.next);
    IfParts(s, x, pos);
    IfCode(s, x, pos);
    IfSites(s, x, pos, true);
    IfSites(s, x, pos, false);
    ForkAppended(c.code, test, r, StmtCode(s.thenB, x, pos + |test| + 1), false, []);
  }

  /** The whole of an `if` with an `else`, its last jump patched. */
  function Joined(f: Comp, s: Stmt): Comp
    requires s.If? && s.elseB.Some? && |f.locals.names| == |f.locals.regs|
  {
    var g := Compiled(f, s.elseB.value);
    if !NeverFallsThrough(s.thenB) && 0 < |f.code| <= |g.code| && IsJump(g.code[|f.code| - 1]) then g.Patch(|f.code| - 1) else g
  }

  lemma {:induction false} IfElseResult(c: Comp, s: Stmt, own: bool)
    requires Ready(c, own) && s.If? && s.elseB.Some?
    ensures |c.locals.names| == |c.locals.regs|
    ensures
      var d := Tested(c, s.cond);
      && |d.locals.names| == |d.locals.regs| && |d.code| > 0 && IsJump(d.code[|d.code| - 1])
      && var f := Branched(d, s);
         && |f.locals.names| == |f.locals.regs| && Joined(f, s) == Compiled(c, s)
         && var g := Compiled(f, s.elseB.value);
            !NeverFallsThrough(s.thenB) ==> 0 < |f.code| <= |g.code| && IsJump(g.code[|f.code| - 1])
  {
    hide ExprCode, ExprReg, ExprPeak, StmtCode, StmtPeak, Sites, After, NeverFallsThrough, Fork, Tested, Branched, Ready, CtxOf, AddSites;
    BranchedOk(c, s, own);
    CtxParts(c);
    var d, x, pos := Tested(c, s.cond), CtxOf(c), |c.code|;
    var f := Branched(d, s);
    var test, r := ExprCode(s.cond, x.env, x.next), ExprReg(s.cond, x.env, x.next);
    var at := pos + |test| + 1;
    IfParts(s, x, pos);
    IfCode(s, x, pos);
    IfSites(s, x, pos, true);
    IfSites(s, x, pos, false);
    var no := StmtCode(s.elseB.value, CtxOf(f), |f.code|);
    AddSitesTwice(c.loops, Sites(s.thenB, x, at, true), Sites(s.thenB, x, at, false),
      Sites(s.elseB.value, CtxOf(f), |f.code|, true), Sites(s.elseB.value, CtxOf(f), |f.code|, false));
    ForkAppended(c.code, test, r, StmtCode(s.thenB, x, at), !NeverFallsThrough(s.thenB), no);
  }

  lemma {:induction false} CtxParts(c: Comp)
    ensures CtxOf(c).env == c.locals && CtxOf(c).next == c.nextReg
  {
  }

  /** A fork at the end of the code, before and after the jump over its second part is
      patched. */
  lemma {:induction false} ForkAppended(code: seq<Instr>, test: seq<Instr>, r: Reg, yes: seq<Instr>, hop: bool, no: seq<Instr>)
    ensures
      var head := code + test + [JmpIfFalse(r, |yes| + if hop then 1 else 0)] + yes;
      && (!hop ==> head + [] + no == code + Fork(test, r, yes, hop, no) && (no == [] ==> head + [] == code + Fork(test, r, yes, hop, no)))
      && (hop ==>
            var all := head + [Jmp(0)] + no;
            && all[|head|] == Jmp(0)
            && all[|head| := WithOffset(Jmp(0), |all| - (|head| + 1))] == code + Fork(test, r, yes, hop, no))
  {
    var head := code + test + [JmpIfFalse(r, |yes| + if hop then 1 else 0)] + yes;
    if hop { PatchEnd(head, Jmp(0), no); }
  }

  // Patching several jumps.

  predicate AreJumps(code: seq<Instr>, sites: seq<nat>) {
    forall p :: p in sites ==> p < |code| && code[p].Jmp?
  }

  /** Every jump in `sites` goes to the end of the code. */
  function PatchAll(code: seq<Instr>, sites: seq<nat>): (r: seq<Instr>)
    ensures |r| == |code|
  {
    if sites == [] then code
    else
      var n := |sites| - 1;
      var rest := PatchAll(code, sites[..n]);
      if sites[n] < |code| then rest[sites[n] := Jmp(|code| - (sites[n] + 1))] else rest
  }

  lemma {:induction false} PatchAllAt(code: seq<Instr>, sites: seq<nat>, i: nat)
    requires i < |code|
    ensures PatchAll(code, sites)[i] == if i in sites then Jmp(|code| - (i + 1)) else code[i]
    decreases sites
  {
    if sites != [] {
      var n := |sites| - 1;
      PatchAllAt(code, sites[..n], i);
      assert sites == sites[..n] + [sites[n]];
    }
  }

  /** One more of the jumps patched. */
  lemma {:induction false} PatchOneMore(code: seq<Instr>, sites: seq<nat>, n: nat)
    requires n < |sites| && sites[n] < |code| && code[sites[n]].Jmp?
    ensures
      var done := PatchAll(code, sites[..n]);
      && done[sites[n]].Jmp?
      && done[sites[n] := WithOffset(done[sites[n]], |done| - (sites[n] + 1))] == PatchAll(code, sites[..n + 1])
  {
    PatchAllAt(code, sites[..n], sites[n]);
    assert sites[..n + 1][..n] == sites[..n];
  }

  /** Patching recorded jumps is redirecting them to the end of the code. */
  lemma {:induction false} PatchedIsRedirected(a: seq<Instr>, cx: seq<Instr>, cy: seq<Instr>, b: seq<Instr>, sites: seq<nat>)
    requires |cx| == |cy|
    requires forall i: nat :: i < |cx| ==> cy[i] == if |a| + i in sites then Jmp(|a + cx + b| - (|a| + i + 1)) else cx[i]
    requires forall p :: p in sites ==> |a| <= p < |a| + |cx|
    ensures PatchAll(a + cx + b, sites) == a + cy + b
  {
    var code := a + cx + b;
    forall i: nat | i < |code| ensures PatchAll(code, sites)[i] == (a + cy + b)[i] {
      PatchAllAt(code, sites, i);
    }
  }

  // Loops.

  function PushLoop(c: Comp, start: nat): Comp {
    c.(loops := c.loops + [LoopContext(start, [], [], c.openCatches)])
  }

  /** A loop up to the jump back to its start, with the exit jump patched and the loop closed. */
  function Looped(d: Comp, s: Stmt, start: nat): Comp
    requires s.While? && |d.locals.names| == |d.locals.regs| && |d.code| > 0 && IsJump(d.code[|d.code| - 1])
  {
    var d1 := Compiled(PushLoop(d, start), s.body);
    var d2 := d1.Put(Jmp(start - (|d1.code| + 1))).Patch(|d.code| - 1);
    d2.(loops := d.loops)
  }

  lemma {:induction false} PushLoopReady(d: Comp, start: nat, own: bool)
    requires Ready(d, own) && start < |d.code|
    ensures Ready(PushLoop(d, start), true) && PushLoop(d, start).loops != []
    ensures CtxOf(PushLoop(d, start)) == BodyCtx(CtxOf(d), start, None)
    ensures forall bs, cs :: AddSites(PushLoop(d, start).loops, bs, cs) == d.loops + [LoopContext(start, bs, cs, d.openCatches)]
  {
    forall bs, cs ensures AddSites(PushLoop(d, start).loops, bs, cs) == d.loops + [LoopContext(start, bs, cs, d.openCatches)] {
      assert [] + bs == bs && [] + cs == cs;
    }
  }

  lemma {:induction false} WhileParts(s: Stmt, x: Ctx, pos: nat)
    requires s.While? && |x.env.names| == |x.env.regs|
    ensures After(s, x) == After(s.body, x) && StmtPeak(s, x) == Max(ExprPeak(s.cond, x.env, x.next), StmtPeak(s.body, x))
    ensures Sites(s, x, pos, true) == [] && Sites(s, x, pos, false) == []
  {
    hide ExprPeak;
  }

  lemma {:induction false} LoopedIs(c: Comp, s: Stmt, own: bool)
    requires Ready(c, own) && s.While?
    ensures |c.locals.names| == |c.locals.regs|
    ensures
      var d, x, pos := Tested(c, s.cond), CtxOf(c), |c.code|;
      var y := BodyCtx(x, pos, None);
      var test, r := ExprCode(s.cond, x.env, x.next), ExprReg(s.cond, x.env, x.next);
      var at := pos + |test| + 1;
      var body := StmtCode(s.body, y, at);
      && |d.locals.names| == |d.locals.regs| && |d.code| == at && IsJump(d.code[at - 1])
      && Ready(PushLoop(d, pos), true) && PushLoop(d, pos).loops != []
      && (var d1 := Compiled(PushLoop(d, pos), s.body);
          && d1.loops == d.loops + [LoopContext(pos, Sites(s.body, y, at, true), Sites(s.body, y, at, false), d.openCatches)]
          && |d.code| <= |d1.code| && IsJump(d1.code[at - 1]))
      && var f := Looped(d, s, pos);
         && f.code == c.code + test + [JmpIfFalse(r, |body| + 1)] + body + [Jmp(-(|test| + 1 + |body| + 1))]
         && f.locals == After(s.body, y).env && f.nextReg == After(s.body, y).next
         && f.maxReg == Max(Max(c.maxReg, ExprPeak(s.cond, x.env, x.next)), StmtPeak(s.body, y))
         && f.loops == c.loops && f.openCatches == c.openCatches
  {
    hide ExprCode, ExprReg, ExprPeak, ExprNext, StmtCode, StmtPeak, Sites, After;
    TestedOk(c, s.cond);
    var d, x, pos := Tested(c, s.cond), CtxOf(c), |c.code|;
    hide Tested;
    PushLoopReady(d, pos, false);
    CompiledReady(PushLoop(d, pos), s.body, true);
    var y := BodyCtx(x, pos, None);
    var test, r := ExprCode(s.cond, x.env, x.next), ExprReg(s.cond, x.env, x.next);
    var body := StmtCode(s.body, y, |d.code|);
    var back := [Jmp(-(|test| + 1 + |body| + 1))];
    PatchEnd(c.code + test, JmpIfFalse(r, 0), body + back);
    BranchShape(c.code + test + [JmpIfFalse(r, 0)], body, back);
    BranchShape(c.code + test + [JmpIfFalse(r, |body + back|)], body, back);
  }

  lemma {:induction false} WhileResult(c: Comp, s: Stmt, own: bool)
    requires Ready(c, own) && s.While? && Fits(s.body, true, true)
    ensures |c.locals.names| == |c.locals.regs|
    ensures
      var d, pos := Tested(c, s.cond), |c.code|;
      && |d.locals.names| == |d.locals.regs| && |d.code| > 0 && IsJump(d.code[|d.code| - 1])
      && var f := Looped(d, s, pos);
         var d1 := Compiled(PushLoop(d, pos), s.body);
         && d1.loops != []
         && AreJumps(f.code, d1.loops[|d1.loops| - 1].breakJumps)
         && f.(code := PatchAll(f.code, d1.loops[|d1.loops| - 1].breakJumps)) == Compiled(c, s)
  {
    hide ExprCode, ExprReg, ExprPeak, StmtCode, StmtPeak, Sites, After, Tested, Looped, Ready, Compiled;
    LoopedIs(c, s, own);
    CtxParts(c);
    var d, x, pos := Tested(c, s.cond), CtxOf(c), |c.code|;
    var test, r := ExprCode(s.cond, x.env, x.next), ExprReg(s.cond, x.env, x.next);
    var at := pos + |test| + 1;
    var y := BodyCtx(x, pos, None);
    var body := StmtCode(s.body, y, at);
    var z := BodyCtx(x, pos, Some(at + |body| + 1));
    var inner := StmtCode(s.body, z, at);
    Redirects(s.body, y, z, at, true);
    WhileCode(s, x, pos);
    WhileParts(s, x, pos);
    AfterAlike(s.body, x, y);
    PeakAlike(s.body, x, y);
    AddNoSites(c.loops);
    BreaksPatched(c.code, test, r, body, inner, y.loop, z.loop, at, Sites(s.body, y, at, true), Sites(s.body, y, at, false));
    CompiledIs(c, s);
  }

  lemma {:induction false} CompiledIs(c: Comp, s: Stmt)
    requires |c.locals.names| == |c.locals.regs|
    ensures
      var x, pos := CtxOf(c), |c.code|;
      var y := After(s, x);
      Compiled(c, s) == Comp(c.code + StmtCode(s, x, pos), y.env, y.next, Max(c.maxReg, StmtPeak(s, x)),
                             AddSites(c.loops, Sites(s, x, pos, true), Sites(s, x, pos, false)), c.openCatches)
  {
    hide StmtCode, StmtPeak, Sites, After;
  }

  lemma {:induction false} BreaksPatched(code: seq<Instr>, test: seq<Instr>, r: Reg, body: seq<Instr>, inner: seq<Instr>, y: Loop, z: Loop, at: nat, breaks: seq<nat>, continues: seq<nat>)
    requires at == |code| + |test| + 1 && y.InLoop? && z.InLoop? && y.cont == z.cont
    requires Redirected(body, inner, y, z, at, breaks, continues) && z.brk == Some(at + |body| + 1)
    ensures
      var all := code + test + [JmpIfFalse(r, |body| + 1)] + body + [Jmp(-(|test| + 1 + |body| + 1))];
      && AreJumps(all, breaks)
      && PatchAll(all, breaks) == code + Cycle(test, r, inner)
  {
    var a, b := code + test + [JmpIfFalse(r, |body| + 1)], [Jmp(-(|test| + 1 + |body| + 1))];
    forall p | p in breaks ensures p < |a + body + b| && (a + body + b)[p].Jmp? {
      assert body[p - at].Jmp?;
    }
    PatchedIsRedirected(a, body, inner, b, breaks);
  }

  // Handlers.

  /** The variable of a `catch`, declared and nil. */
  function Bound(c: Comp, s: Stmt): Comp
    requires s.Catch?
  {
    if s.binds.None? then c
    else
      var d := c.Alloc().Put(LoadNil(c.nextReg));
      d.(locals := d.locals.Declare(s.binds.value, c.nextReg))
  }

  function VarOf(c: Comp, s: Stmt): Option<Reg>
    requires s.Catch?
  {
    if s.binds.Some? then Some(c.nextReg) else None
  }

  /** A handler pushed for the body to come. */
  function Opened(d: Comp, v: Option<Reg>): Comp {
    d.Put(PushCatch(v, 0)).(openCatches := d.openCatches + 1)
  }

  /** The body compiled, and the handler popped after it and patched to resume there. */
  function Shut(d: Comp, body: Stmt): Comp
    requires |d.locals.names| == |d.locals.regs| && d.openCatches > 0 && |d.code| > 0 && IsJump(d.code[|d.code| - 1])
  {
    var d1 := Compiled(d, body);
    d1.(openCatches := d1.openCatches - 1).Put(PopCatch).Patch(|d.code| - 1)
  }

  lemma {:induction false} BoundIs(c: Comp, s: Stmt, own: bool)
    requires Ready(c, own) && s.Catch?
    ensures
      var b := Bound(c, s);
      var d := Opened(b, VarOf(c, s));
      var load := if s.binds.Some? then [LoadNil(c.nextReg)] else [];
      && CtxOf(b) == CatchCtx(s.binds, CtxOf(c)) && Ready(b, false)
      && b.code == c.code + load && b.loops == c.loops && b.openCatches == c.openCatches
      && b.maxReg == Max(c.maxReg, b.nextReg)
      && Ready(d, false) && CtxOf(d) == OpenOne(CtxOf(b)) && d.loops == c.loops && d.maxReg == b.maxReg
      && d.code == b.code + [PushCatch(VarOf(c, s), 0)] && d.openCatches == c.openCatches + 1
      && |d.locals.names| == |d.locals.regs|
  {
    assert c.code + [] == c.code;
  }

  lemma {:induction false} CatchParts(s: Stmt, x: Ctx, pos: nat)
    requires s.Catch? && |x.env.names| == |x.env.regs|
    ensures
      var u := CatchCtx(s.binds, x);
      var z, p := After(s.body, u), StmtPeak(s.body, u);
      && |z.env.names| == |z.env.regs| && z.loop == x.loop && u.next <= p && z.next <= p
      && (s.handler.None? ==> After(s, x) == z && StmtPeak(s, x) == p)
      && (s.handler.Some? ==> After(s, x) == After(s.handler.value, z) && StmtPeak(s, x) == Max(Max(p, z.next + 2), StmtPeak(s.handler.value, z)))
  {
  }

  lemma {:induction false} ShutIs(c: Comp, s: Stmt, own: bool)
    requires Ready(c, own) && s.Catch?
    ensures |c.locals.names| == |c.locals.regs|
    ensures
      var x, pos := CtxOf(c), |c.code|;
      var u, v := CatchCtx(s.binds, x), VarOf(c, s);
      var load := if s.binds.Some? then [LoadNil(x.next)] else [];
      var d := Opened(Bound(c, s), v);
      var at := pos + |load| + 1;
      var z, inner := After(s.body, u), StmtCode(s.body, OpenOne(u), at);
      && Ready(d, false) && |d.locals.names| == |d.locals.regs| && |d.code| == at && IsJump(d.code[at - 1]) && d.openCatches > 0
      && d.loops == c.loops
      && var f := Shut(d, s.body);
         && Ready(f, false) && CtxOf(f) == z && f.openCatches == c.openCatches && |f.locals.names| == |f.locals.regs|
         && f.code == c.code + load + Guarded(v, inner)
         && f.maxReg == Max(c.maxReg, StmtPeak(s.body, u))
         && f.loops == AddSites(c.loops, Sites(s.body, OpenOne(u), at, true), Sites(s.body, OpenOne(u), at, false))
  {
    hide StmtCode, StmtPeak, Sites, After, CatchCtx;
    BoundIs(c, s, own);
    var x, v := CtxOf(c), VarOf(c, s);
    var u := CatchCtx(s.binds, x);
    var load := if s.binds.Some? then [LoadNil(x.next)] else [];
    var d := Opened(Bound(c, s), v);
    hide Bound, Opened;
    CompiledReady(d, s.body, false);
    AfterAlike(s.body, u, OpenOne(u));
    PeakAlike(s.body, u, OpenOne(u));
    var inner := StmtCode(s.body, OpenOne(u), |d.code|);
    PatchEnd(c.code + load, PushCatch(v, 0), inner + [PopCatch]);
    BranchShape(c.code + load + [PushCatch(v, 0)], inner, [PopCatch]);
    GuardShape(c.code + load, v, inner);
    ShutReady(c, d, Compiled(d, s.body), After(s.body, u));
    ShutMax(c, s, x);
  }

  lemma {:induction false} ShutMax(c: Comp, s: Stmt, x: Ctx)
    requires s.Catch? && |x.env.names| == |x.env.regs|
    ensures var u := CatchCtx(s.binds, x); |u.env.names| == |u.env.regs| && u.next <= StmtPeak(s.body, u)
  {
    hide StmtPeak;
  }

  lemma {:induction false} GuardShape(a: seq<Instr>, v: Option<Reg>, inner: seq<Instr>)
    ensures a + [WithOffset(PushCatch(v, 0), |inner + [PopCatch]|)] + (inner + [PopCatch]) == a + Guarded(v, inner)
  {
  }

  /** Leaving the body restores the count of open handlers. */
  lemma {:induction false} ShutReady(c: Comp, d: Comp, e: Comp, z: Ctx)
    requires Ready(e, false) && e.locals == z.env && e.nextReg == z.next && CtxOf(c).loop == z.loop
    requires d.openCatches == e.openCatches == c.openCatches + 1
    requires |e.loops| == |c.loops| && (c.loops != [] ==> SameLoop(c.loops[|c.loops| - 1], e.loops[|e.loops| - 1]))
    requires c.loops != [] ==> c.loops[|c.loops| - 1].openCatches <= c.openCatches
    ensures forall code :: var f := Comp(code, e.locals, e.nextReg, e.maxReg, e.loops, c.openCatches); Ready(f, false) && CtxOf(f) == z
  {
  }

  predicate SameLoop(a: LoopContext, b: LoopContext) {
    a.continueTarget == b.continueTarget && a.openCatches == b.openCatches
  }

  lemma {:induction false} CatchPlainResult(c: Comp, s: Stmt, own: bool)
    requires Ready(c, own) && s.Catch? && s.handler.None?
    ensures |c.locals.names| == |c.locals.regs|
    ensures
      var d := Opened(Bound(c, s), VarOf(c, s));
      && |d.locals.names| == |d.locals.regs| && d.openCatches > 0 && |d.code| > 0 && IsJump(d.code[|d.code| - 1])
      && Shut(d, s.body) == Compiled(c, s)
  {
    hide StmtCode, StmtPeak, Sites, After, Bound, Opened, Shut, Compiled, Ready, Guarded, AddSites;
    ShutIs(c, s, own);
    CtxParts(c);
    var x, pos := CtxOf(c), |c.code|;
    CtxParts(Shut(Opened(Bound(c, s), VarOf(c, s)), s.body));
    CatchCode(s, x, pos);
    CatchParts(s, x, pos);
    CatchSites(s, x, pos, true);
    CatchSites(s, x, pos, false);
    CompiledIs(c, s);
    var load := if s.binds.Some? then [LoadNil(x.next)] else [];
    BranchShape(c.code, load, Guarded(VarOf(c, s), StmtCode(s.body, OpenOne(CatchCtx(s.binds, x)), pos + |load| + 1)));
  }

  /** The test before a handler: whether the variable in `v` is still nil. */
  function Asked(f: Comp, v: Reg): Comp {
    var m := f.nextReg;
    f.Alloc().Put(LoadNil(m)).Alloc().Put(Compare(Neq, m + 1, v, m)).Put(JmpIfFalse(m + 1, 0)).Free(m)
  }

  lemma {:induction false} AskedIs(f: Comp, v: Reg)
    requires Ready(f, false)
    ensures
      var a, m := Asked(f, v), f.nextReg;
      && Ready(a, false) && CtxOf(a) == CtxOf(f) && |a.locals.names| == |a.locals.regs|
      && a == f.(code := a.code, maxReg := Max(f.maxReg, m + 2))
      && a.code == f.code + Unless(v, m) + [JmpIfFalse(m + 1, 0)]
  {
  }

  lemma {:induction false} RescueAppended(code: seq<Instr>, v: Reg, m: nat, h: seq<Instr>)
    ensures
      var all := code + Unless(v, m) + [JmpIfFalse(m + 1, 0)] + h;
      var at := |code| + 2;
      && all[at] == JmpIfFalse(m + 1, 0)
      && all[at := WithOffset(JmpIfFalse(m + 1, 0), |all| - (at + 1))] == code + Fork(Unless(v, m), m + 1, h, false, [])
  {
    PatchEnd(code + Unless(v, m), JmpIfFalse(m + 1, 0), h);
  }

  lemma {:induction false} CatchHandlerResult(c: Comp, s: Stmt, own: bool)
    requires Ready(c, own) && s.Catch? && s.handler.Some? && s.binds.Some?
    ensures |c.locals.names| == |c.locals.regs|
    ensures
      var d := Opened(Bound(c, s), VarOf(c, s));
      && |d.locals.names| == |d.locals.regs| && d.openCatches > 0 && |d.code| > 0 && IsJump(d.code[|d.code| - 1])
      && var f := Shut(d, s.body);
         var a := Asked(f, c.nextReg);
         && Ready(a, false) && |a.locals.names| == |a.locals.regs| && (a.loops == [] <==> c.loops == [])
         && var g := Compiled(a, s.handler.value);
            && 0 < |a.code| <= |g.code| && IsJump(g.code[|a.code| - 1])
            && g.Patch(|a.code| - 1) == Compiled(c, s)
  {
    hide StmtCode, StmtPeak, Sites, After, Bound, Opened, Shut, Compiled, Ready, Guarded, AddSites, Asked, Fork, Unless, CtxOf;
    ShutIs(c, s, own);
    CtxParts(c);
    var x, pos := CtxOf(c), |c.code|;
    var f := Shut(Opened(Bound(c, s), VarOf(c, s)), s.body);
    CtxParts(f);
    AskedIs(f, c.nextReg);
    var a, h := Asked(f, c.nextReg), s.handler.value;
    CatchCode(s, x, pos);
    CatchParts(s, x, pos);
    CatchSites(s, x, pos, true);
    CatchSites(s, x, pos, false);
    CompiledIs(c, s);
    CompiledIs(a, h);
    UnlessTwo(c.nextReg, f.nextReg);
    var u := CatchCtx(s.binds, x);
    var at := pos + 2;
    var inner, rest := StmtCode(s.body, OpenOne(u), at), StmtCode(h, CtxOf(a), |a.code|);
    GuardedTwo(VarOf(c, s), inner);
    RescueAppended(f.code, c.nextReg, f.nextReg, rest);
    BranchShape(c.code, [LoadNil(x.next)], Guarded(VarOf(c, s), inner));
    BranchShape(c.code, [LoadNil(x.next)] + Guarded(VarOf(c, s), inner), Fork(Unless(c.nextReg, f.nextReg), f.nextReg + 1, rest, false, []));
    AddSitesTwice(c.loops, Sites(s.body, OpenOne(u), at, true), Sites(s.body, OpenOne(u), at, false), Sites(h, CtxOf(a), |a.code|, true), Sites(h, CtxOf(a), |a.code|, false));
    SitesLoops(c.loops, Sites(s.body, OpenOne(u), at, true), Sites(s.body, OpenOne(u), at, false));
  }

  lemma {:induction false} UnlessTwo(v: Reg, m: nat)
    ensures |Unless(v, m)| == 2
  {
  }

  lemma {:induction false} GuardedTwo(v: Option<Reg>, inner: seq<Instr>)
    ensures |Guarded(v, inner)| == |inner| + 2
  {
  }

  lemma {:induction false} SitesLoops(loops: seq<LoopContext>, bs: seq<nat>, cs: seq<nat>)
    ensures AddSites(loops, bs, cs) == [] <==> loops == []
  {
  }

  // Blocks.

  lemma {:induction false} SeqStart(c: Comp)
    requires Ready(c, false)
    ensures |c.locals.names| == |c.locals.regs| && CompiledSeq(c, []) == c
  {
    AddNoSites(c.loops);
    assert c.code + [] == c.code;
  }

  lemma {:induction false} SeqReady(c: Comp, ss: seq<Stmt>, own: bool)
    requires Ready(c, own)
    ensures |c.locals.names| == |c.locals.regs|
    ensures
      var d := CompiledSeq(c, ss);
      && Ready(d, false) && CtxOf(d) == AfterSeq(ss, CtxOf(c)) && |d.locals.names| == |d.locals.regs| && (d.loops == [] <==> c.loops == [])
      && d.code == c.code + SeqCode(ss, CtxOf(c), |c.code|)
      && d.loops == AddSites(c.loops, SeqSites(ss, CtxOf(c), |c.code|, true), SeqSites(ss, CtxOf(c), |c.code|, false))
  {
    hide SeqCode, SeqPeak, SeqSites, AfterSeq;
    AfterSeqExtends(ss, CtxOf(c));
  }

  lemma {:induction false} SeqNext(c: Comp, ss: seq<Stmt>, n: nat, own: bool)
    requires Ready(c, own) && n < |ss| && !ss[n].FixContinue?
    ensures |c.locals.names| == |c.locals.regs|
    ensures
      var d := CompiledSeq(c, ss[..n]);
      |d.locals.names| == |d.locals.regs| && Compiled(d, ss[n]) == CompiledSeq(c, ss[..n + 1])
  {
    hide SeqCode, SeqPeak, SeqSites, AfterSeq, StmtCode, StmtPeak, Sites, After, Ready, CtxOf, AddSites;
    SeqReady(c, ss[..n], own);
    CtxParts(c);
    var x, pos, d := CtxOf(c), |c.code|, CompiledSeq(c, ss[..n]);
    var more := ss[..n + 1];
    assert more[..n] == ss[..n] && more[|more| - 1] == ss[n];
    SeqCodeSteps(more, x, pos);
    SeqSitesSteps(more, x, pos, true);
    SeqSitesSteps(more, x, pos, false);
    SeqParts(more, x);
    var y, at := CtxOf(d), |d.code|;
    AddSitesTwice(c.loops, SeqSites(ss[..n], x, pos, true), SeqSites(ss[..n], x, pos, false), Sites(ss[n], y, at, true), Sites(ss[n], y, at, false));
    BranchShape(c.code, SeqCode(ss[..n], x, pos), StmtCode(ss[n], y, at));
  }

  lemma {:induction false} SeqParts(ss: seq<Stmt>, x: Ctx)
    requires ss != [] && |x.env.names| == |x.env.regs|
    ensures
      var n := |ss| - 1;
      var y := AfterSeq(ss[..n], x);
      && AfterSeq(ss, x) == After(ss[n], y) && |y.env.names| == |y.env.regs|
      && SeqPeak(ss, x) == Max(SeqPeak(ss[..n], x), StmtPeak(ss[n], y))
      && (ss[n].FixContinue? ==> After(ss[n], y) == y && StmtPeak(ss[n], y) == y.next)
  {
  }

  /** `FixContinue` in a loop's own block points every `continue` so far to what comes next. */
  lemma {:induction false} SeqFix(c: Comp, ss: seq<Stmt>, n: nat)
    requires Ready(c, true) && n < |ss| && ss[n].FixContinue? && FitsSeq(ss[..n], true, false)
    ensures |c.locals.names| == |c.locals.regs|
    ensures
      var d := CompiledSeq(c, ss[..n]);
      && d.loops != []
      && AreJumps(d.code, d.loops[|d.loops| - 1].continueLocales)
      && d.(code := PatchAll(d.code, d.loops[|d.loops| - 1].continueLocales)) == CompiledSeq(c, ss[..n + 1])
  {
    hide SeqCode, SeqPeak, SeqSites, AfterSeq, StmtCode, StmtPeak, Sites, After;
    SeqReady(c, ss[..n], true);
    var x, pos, d := CtxOf(c), |c.code|, CompiledSeq(c, ss[..n]);
    var more := ss[..n + 1];
    assert more[..n] == ss[..n] && more[|more| - 1] == ss[n];
    SeqCodeSteps(more, x, pos);
    SeqSitesSteps(more, x, pos, true);
    SeqSitesSteps(more, x, pos, false);
    SeqParts(more, x);
    var y := FixedCtx(x, |d.code|);
    assert SeqPeak(more, x) == SeqPeak(ss[..n], x);
    SeqRedirects(ss[..n], x, x, pos, false);
    SeqRedirects(ss[..n], x, y, pos, false);
    var bs, cs := SeqSites(ss[..n], x, pos, true), SeqSites(ss[..n], x, pos, false);
    assert d.loops[|d.loops| - 1].continueLocales == [] + cs == cs;
    ContinuesPatched(c.code, SeqCode(ss[..n], x, pos), SeqCode(more, x, pos), x.loop, y.loop, pos, bs, cs);
    assert PatchAll(d.code, cs) == c.code + SeqCode(more, x, pos);
    assert CompiledSeq(c, more) == d.(code := c.code + SeqCode(more, x, pos));
  }

  lemma {:induction false} ContinuesPatched(code: seq<Instr>, cx: seq<Instr>, cy: seq<Instr>, x: Loop, y: Loop, pos: nat, bs: seq<nat>, cs: seq<nat>)
    requires x.InLoop? && y.InLoop? && pos == |code| && y.brk == x.brk && y.cont == pos + |cx| && x.cont < pos
    requires Redirected(cx, cx, x, x, pos, bs, cs) && Redirected(cx, cy, x, y, pos, bs, cs)
    ensures AreJumps(code + cx, cs)
    ensures PatchAll(code + cx, cs) == code + cy
  {
    forall p | p in cs ensures p < |code + cx| && (code + cx)[p].Jmp? {
      assert cx[p - pos].Jmp?;
    }
    PatchedIsRedirected(code, cx, cy, [], cs);
    assert code + cx + [] == code + cx && code + cy + [] == code + cy;
  }

  lemma {:induction false} BlockResult(c: Comp, s: Stmt, own: bool)
    requires Ready(c, own) && s.Block?
    ensures |c.locals.names| == |c.locals.regs|
    ensures CompiledSeq(c, s.stmts).(locals := c.locals).Free(c.nextReg) == Compiled(c, s)
  {
    var x, pos := CtxOf(c), |c.code|;
    BlockCode(s, x, pos);
    BlockSites(s, x, pos);
    BlockPeak(s, x);
    hide SeqCode, SeqPeak, SeqSites, AfterSeq, StmtCode, StmtPeak, Sites, After, Ready;
  }

  lemma {:induction false} BlockPeak(s: Stmt, x: Ctx)
    requires s.Block? && |x.env.names| == |x.env.regs|
    ensures StmtPeak(s, x) == SeqPeak(s.stmts, x) && After(s, x) == x && x.next <= SeqPeak(s.stmts, x)
  {
    hide SeqPeak;
  }
}
