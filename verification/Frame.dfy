/** How many registers a function needs: the high-water mark of the register allocator, and that the emitted code stays below it. */
module Frame {
  import opened Shapes
  import opened Bytecode
  import opened Values
  import opened Core
  import opened CodeGen
  import opened CodeLayout
  import opened Locals

  function Max(a: nat, b: nat): nat {
    if a < b then b else a
  }

  /** The registers an instruction of the core language names are below `n`. */
  predicate Below(i: Instr, n: nat) {
    match i
    case LoadConst(d, _) => d < n
    case LoadNil(d) => d < n
    case LoadBool(d, _) => d < n
    case Copy(d, s) => d < n && s < n
    case Arith(_, d, a, b) => d < n && a < n && b < n
    case ArithImm(_, d, a, _) => d < n && a < n
    case Compare(_, d, a, b) => d < n && a < n && b < n
    case CompareImm(_, d, a, _) => d < n && a < n
    case Unary(_, d, s) => d < n && s < n
    case Jmp(_) => true
    case JmpIfFalse(r, _) => r < n
    case JmpIfTrue(r, _) => r < n
    case Ret(s) => s < n
    case Raise(s) => s < n
    case Print(s) => s < n
    case ReadGlobal(d, _) => d < n
    case SetGlobal(_, s) => s < n
    case AssignGlobal(_, s) => s < n
    case PushCatch(v, _) => v.Some? ==> v.value < n
    case PopCatch => true
    case On(_) => false
  }

  predicate AllBelow(code: seq<Instr>, n: nat) {
    forall i :: 0 <= i < |code| ==> Below(code[i], n)
  }

  /** How far the allocator gets while compiling an expression from `m` on. */
  function ExprPeak(e: Expr, env: Scope, m: nat): (p: nat)
    ensures m <= p && ExprNext(e, env, m) <= p
  {
    match e
    case Lit(_) => m + 1
    case Var(name) => if Find(env.names, name) >= 0 then m else m + 1
    case UnaryOf(_, a) => Max(ExprPeak(a, env, m), m + 1)
    case Binary(a, op, b) =>
      var p := Max(ExprPeak(a, env, m), m + 1);
      if b.Lit? && b.val.Num? && FusesArith(op) then p else Max(p, ExprPeak(b, env, m + 1))
    case Logical(a, _, b) =>
      var p := Max(ExprPeak(a, env, m), m + 1);
      if b.Lit? && b.val.Num? then p else Max(p, ExprPeak(b, env, m + 1))
    case Circuit(a, _, b) => Max(Max(ExprPeak(a, env, m), m + 1), ExprPeak(b, env, m + 1))
    case Grouping(a) => ExprPeak(a, env, m)
    case Condition(c, t, f) => Max(Max(Max(ExprPeak(c, env, m), ExprPeak(t, env, m)), ExprPeak(f, env, m)), m + 1)
  }

  function StmtPeak(s: Stmt, x: Ctx): (p: nat)
    requires |x.env.names| == |x.env.regs|
    ensures x.next <= p && After(s, x).next <= p
    decreases s, 1
  {
    match s
    case Expression(e) => ExprPeak(e, x.env, x.next)
    case Assign(_, e) => ExprPeak(e, x.env, x.next)
    case Echo(e) => ExprPeak(e, x.env, x.next)
    case VarDecl(_, e) => Max(ExprPeak(e, x.env, x.next), x.next + 1)
    case Block(ss) => SeqPeak(ss, x)
    case If(c, t, f) =>
      var p := Max(ExprPeak(c, x.env, x.next), StmtPeak(t, x));
      if f.None? then p else Max(p, StmtPeak(f.value, After(t, x)))
    case While(c, body) => Max(ExprPeak(c, x.env, x.next), StmtPeak(body, x))
    case Return(e) => ExprPeak(e, x.env, x.next)
    case RaiseOf(e) => ExprPeak(e, x.env, x.next)
    case Catch(body, handler, binds) =>
      var u := CatchCtx(binds, x);
      var z := After(body, u);
      var p := StmtPeak(body, u);
      if handler.None? then p else Max(Max(p, z.next + 2), StmtPeak(handler.value, z))
    case _ => x.next
  }

  function SeqPeak(ss: seq<Stmt>, x: Ctx): (p: nat)
    requires |x.env.names| == |x.env.regs|
    ensures x.next <= p && AfterSeq(ss, x).next <= p
    decreases ss, 0
  {
    if ss == [] then x.next
    else Max(SeqPeak(ss[..|ss| - 1], x), StmtPeak(ss[|ss| - 1], AfterSeq(ss[..|ss| - 1], x)))
  }

  lemma {:induction false} BelowJoin(a: seq<Instr>, p: nat, b: seq<Instr>, q: nat, n: nat)
    requires AllBelow(a, p) && AllBelow(b, q) && p <= n && q <= n
    ensures AllBelow(a + b, n) && AllBelow(a, n) && AllBelow(b, n)
  {
  }

  lemma {:induction false} BelowFork(test: seq<Instr>, r: Reg, yes: seq<Instr>, hop: bool, no: seq<Instr>, n: nat)
    requires AllBelow(test, n) && r < n && AllBelow(yes, n) && AllBelow(no, n)
    ensures AllBelow(Fork(test, r, yes, hop, no), n)
  {
  }

  lemma {:induction false} BelowCycle(test: seq<Instr>, r: Reg, body: seq<Instr>, n: nat)
    requires AllBelow(test, n) && r < n && AllBelow(body, n)
    ensures AllBelow(Cycle(test, r, body), n)
  {
  }

  lemma {:induction false} BelowGuarded(v: Option<Reg>, body: seq<Instr>, n: nat)
    requires (v.Some? ==> v.value < n) && AllBelow(body, n)
    ensures AllBelow(Guarded(v, body), n)
  {
  }

  lemma {:induction false} ExprRegBelow(e: Expr, env: Scope, m: nat)
    requires env.Valid(m)
    ensures ExprReg(e, env, m) < ExprPeak(e, env, m)
    decreases e
  {
    if e.Grouping? { ExprRegBelow(e.inner, env, m); }
  }

  /** What an expression's operands contribute. */
  lemma {:induction false} PartBelow(e: Expr, env: Scope, m: nat, n: nat)
    requires env.Valid(m) && ExprPeak(e, env, m) <= n
    ensures AllBelow(ExprCode(e, env, m), n) && ExprReg(e, env, m) < n
    decreases e, 2
  {
    hide AllBelow, ExprCode;
    ExprRegBelow(e, env, m);
    ExprBelow(e, env, m);
    BelowJoin(ExprCode(e, env, m), ExprPeak(e, env, m), ExprCode(e, env, m), ExprPeak(e, env, m), n);
  }

  lemma {:induction false} ExprBelow(e: Expr, env: Scope, m: nat)
    requires env.Valid(m)
    ensures AllBelow(ExprCode(e, env, m), ExprPeak(e, env, m))
    decreases e, 1
  {
    match e
    case UnaryOf(op, a) => PartBelow(a, env, m, ExprPeak(e, env, m));
    case Binary(_, _, _) => PairBelow(e, env, m);
    case Logical(_, _, _) => PairBelow(e, env, m);
    case Circuit(_, _, _) => CircuitBelow(e, env, m);
    case Grouping(a) => ExprBelow(a, env, m);
    case Condition(_, _, _) => ConditionBelow(e, env, m);
    case _ =>
  }

  lemma {:induction false} PairBelow(e: Expr, env: Scope, m: nat)
    requires env.Valid(m) && (e.Binary? || e.Logical?)
    ensures AllBelow(ExprCode(e, env, m), ExprPeak(e, env, m))
    decreases e, 0
  {
    var a, b, n := e.left, e.right, ExprPeak(e, env, m);
    var ca, cb := ExprCode(a, env, m), ExprCode(b, env, m + 1);
    var fused := b.Lit? && b.val.Num? && (e.Logical? || FusesArith(e.op));
    var last := ExprCode(e, env, m)[|ca| + if fused then 0 else |cb|];
    assert ExprCode(e, env, m) == if fused then ca + [last] else ca + cb + [last];
    assert m < n && ExprPeak(a, env, m) <= n && (!fused ==> ExprPeak(b, env, m + 1) <= n);
    assert Below(last, Max(Max(m, ExprReg(a, env, m)), if fused then 0 else ExprReg(b, env, m + 1)) + 1);
    hide ExprCode, ExprPeak;
    PartBelow(a, env, m, n);
    if !fused { PartBelow(b, env, m + 1, n); }
  }

  lemma {:induction false} CircuitBelow(e: Expr, env: Scope, m: nat)
    requires env.Valid(m) && e.Circuit?
    ensures AllBelow(ExprCode(e, env, m), ExprPeak(e, env, m))
    decreases e, 0
  {
    var a, b, n := e.left, e.right, ExprPeak(e, env, m);
    var first, rest := ExprCode(a, env, m) + MoveTo(m, ExprReg(a, env, m)), ExprCode(b, env, m + 1) + MoveTo(m, ExprReg(b, env, m + 1));
    assert ExprCode(e, env, m) == first + [if e.isAnd then JmpIfFalse(m, |rest|) else JmpIfTrue(m, |rest|)] + rest;
    hide ExprCode;
    PartBelow(a, env, m, n);
    PartBelow(b, env, m + 1, n);
  }

  lemma {:induction false} ConditionBelow(e: Expr, env: Scope, m: nat)
    requires env.Valid(m) && e.Condition?
    ensures AllBelow(ExprCode(e, env, m), ExprPeak(e, env, m))
    decreases e, 0
  {
    var c, t, f, n := e.cond, e.truth, e.falsy, ExprPeak(e, env, m);
    var yes, no := ExprCode(t, env, m) + MoveTo(m, ExprReg(t, env, m)), ExprCode(f, env, m) + MoveTo(m, ExprReg(f, env, m));
    assert ExprCode(e, env, m) == ExprCode(c, env, m) + [JmpIfFalse(ExprReg(c, env, m), |yes| + 1)] + (yes + [Jmp(|no|)]) + no;
    hide ExprCode;
    PartBelow(c, env, m, n);
    PartBelow(t, env, m, n);
    PartBelow(f, env, m, n);
  }

  lemma {:induction false} StmtBelow(s: Stmt, x: Ctx, pos: nat)
    requires x.env.Valid(x.next)
    ensures AllBelow(StmtCode(s, x, pos), StmtPeak(s, x))
    decreases s, 2
  {
    match s
    case Block(ss) => SeqBelow(ss, x, pos);
    case If(_, _, _) => IfBelow(s, x, pos);
    case While(_, _) => WhileBelow(s, x, pos);
    case Catch(_, _, _) => CatchBelow(s, x, pos);
    case Break =>
    case Continue =>
    case FixContinue =>
    case _ => SimpleBelow(s, x, pos);
  }

  lemma {:induction false} SimpleBelow(s: Stmt, x: Ctx, pos: nat)
    requires x.env.Valid(x.next) && (s.Expression? || s.Assign? || s.Echo? || s.VarDecl? || s.Return? || s.RaiseOf?)
    ensures AllBelow(StmtCode(s, x, pos), StmtPeak(s, x))
  {
    PartBelow(s.e, x.env, x.next, StmtPeak(s, x));
    hide ExprCode, ExprPeak, ExprReg;
  }

  /** The loop a statement stands in does not matter. */
  lemma {:induction false} PeakAlike(s: Stmt, x: Ctx, y: Ctx)
    requires x.env == y.env && x.next == y.next && |x.env.names| == |x.env.regs|
    ensures StmtPeak(s, x) == StmtPeak(s, y)
    decreases s, 1
  {
    match s
    case Block(ss) => SeqPeakAlike(ss, x, y);
    case If(_, t, f) =>
      PeakAlike(t, x, y);
      AfterAlike(t, x, y);
      if f.Some? { PeakAlike(f.value, After(t, x), After(t, y)); }
    case While(_, body) => PeakAlike(body, x, y);
    case Catch(body, handler, binds) =>
      var u, v := CatchCtx(binds, x), CatchCtx(binds, y);
      PeakAlike(body, u, v);
      AfterAlike(body, u, v);
      if handler.Some? { PeakAlike(handler.value, After(body, u), After(body, v)); }
    case _ =>
  }

  lemma {:induction false} SeqPeakAlike(ss: seq<Stmt>, x: Ctx, y: Ctx)
    requires x.env == y.env && x.next == y.next && |x.env.names| == |x.env.regs|
    ensures SeqPeak(ss, x) == SeqPeak(ss, y) && AfterSeq(ss, x).env == AfterSeq(ss, y).env && AfterSeq(ss, x).next == AfterSeq(ss, y).next
    decreases ss, 0
  {
    if ss != [] {
      var n := |ss| - 1;
      SeqPeakAlike(ss[..n], x, y);
      PeakAlike(ss[n], AfterSeq(ss[..n], x), AfterSeq(ss[..n], y));
      AfterAlike(ss[n], AfterSeq(ss[..n], x), AfterSeq(ss[..n], y));
    }
  }

  lemma {:induction false} IfBelow(s: Stmt, x: Ctx, pos: nat)
    requires x.env.Valid(x.next) && s.If?
    ensures AllBelow(StmtCode(s, x, pos), StmtPeak(s, x))
    decreases s, 1
  {
    hide *;
    ValidLen(x);
    PeakParts(s, x);
    AfterExtends(s.thenB, x);
    ExtendsValid(x, After(s.thenB, x));
    var n, y := StmtPeak(s, x), After(s.thenB, x);
    IfCode(s, x, pos);
    var test, r := ExprCode(s.cond, x.env, x.next), ExprReg(s.cond, x.env, x.next);
    var at := pos + |test| + 1;
    var yes := StmtCode(s.thenB, x, at);
    var hop := s.elseB.Some? && !NeverFallsThrough(s.thenB);
    PartBelow(s.cond, x.env, x.next, n);
    StmtBelow(s.thenB, x, at);
    BelowJoin(yes, StmtPeak(s.thenB, x), yes, StmtPeak(s.thenB, x), n);
    if s.elseB.Some? {
      var no := StmtCode(s.elseB.value, y, at + |yes| + if hop then 1 else 0);
      StmtBelow(s.elseB.value, y, at + |yes| + if hop then 1 else 0);
      BelowJoin(no, StmtPeak(s.elseB.value, y), no, StmtPeak(s.elseB.value, y), n);
      BelowFork(test, r, yes, hop, no, n);
    } else {
      BelowNone(n);
      BelowFork(test, r, yes, hop, [], n);
    }
  }

  lemma {:induction false} ValidLen(x: Ctx)
    requires x.env.Valid(x.next)
    ensures |x.env.names| == |x.env.regs|
  {
  }

  lemma {:induction false} ExtendsValid(x: Ctx, y: Ctx)
    requires x.env.Valid(x.next) && Extends(x, y)
    ensures y.env.Valid(y.next) && |y.env.names| == |y.env.regs| && x.next <= y.next
  {
  }

  lemma {:induction false} CatchStart(s: Stmt, x: Ctx)
    requires s.Catch? && x.env.Valid(x.next)
    ensures var u := CatchCtx(s.binds, x);
            && u.env.Valid(u.next) && |u.env.names| == |u.env.regs|
            && u.next == x.next + (if s.binds.Some? then 1 else 0)
            && OpenOne(u).env == u.env && OpenOne(u).next == u.next
  {
  }

  /** The parts of a compound statement peak no higher. */
  lemma {:induction false} PeakParts(s: Stmt, x: Ctx)
    requires |x.env.names| == |x.env.regs|
    ensures s.If? ==>
              && ExprPeak(s.cond, x.env, x.next) <= StmtPeak(s, x) && StmtPeak(s.thenB, x) <= StmtPeak(s, x)
              && (s.elseB.Some? ==> StmtPeak(s.elseB.value, After(s.thenB, x)) <= StmtPeak(s, x))
    ensures s.While? ==> ExprPeak(s.cond, x.env, x.next) <= StmtPeak(s, x) && StmtPeak(s.body, x) <= StmtPeak(s, x)
    ensures s.Catch? ==>
              var u := CatchCtx(s.binds, x);
              var z := After(s.body, u);
              && StmtPeak(s.body, u) <= StmtPeak(s, x) && u.next <= StmtPeak(s, x)
              && (s.handler.Some? ==> z.next + 2 <= StmtPeak(s, x) && StmtPeak(s.handler.value, z) <= StmtPeak(s, x))
  {
    hide After, ExprPeak, SeqPeak;
  }

  lemma {:induction false} BelowNone(n: nat)
    ensures AllBelow([], n)
  {
  }

  lemma {:induction false} WhileBelow(s: Stmt, x: Ctx, pos: nat)
    requires x.env.Valid(x.next) && s.While?
    ensures AllBelow(StmtCode(s, x, pos), StmtPeak(s, x))
    decreases s, 1
  {
    hide StmtCode, StmtPeak, SeqCode, SeqPeak, ExprCode, ExprReg, ExprPeak, AllBelow, Cycle;
    PeakParts(s, x);
    var n := StmtPeak(s, x);
    WhileCode(s, x, pos);
    var test, r := ExprCode(s.cond, x.env, x.next), ExprReg(s.cond, x.env, x.next);
    var at := pos + |test| + 1;
    var y := BodyCtx(x, pos, Some(at + |StmtCode(s.body, BodyCtx(x, pos, None), at)| + 1));
    var body := StmtCode(s.body, y, at);
    PartBelow(s.cond, x.env, x.next, n);
    StmtBelow(s.body, y, at);
    PeakAlike(s.body, x, y);
    BelowJoin(body, StmtPeak(s.body, y), body, StmtPeak(s.body, y), n);
    BelowCycle(test, r, body, n);
  }

  lemma {:induction false} CatchBelow(s: Stmt, x: Ctx, pos: nat)
    requires x.env.Valid(x.next) && s.Catch?
    ensures AllBelow(StmtCode(s, x, pos), StmtPeak(s, x))
    decreases s, 1
  {
    hide *;
    ValidLen(x);
    PeakParts(s, x);
    var n, u := StmtPeak(s, x), CatchCtx(s.binds, x);
    CatchStart(s, x);
    AfterExtends(s.body, u);
    ExtendsValid(u, After(s.body, u));
    var z := After(s.body, u);
    var rescue := s.handler.Some? && s.binds.Some?;
    CatchCode(s, x, pos);
    var load := if s.binds.Some? then [LoadNil(x.next)] else [];
    var v := if s.binds.Some? then Some(x.next) else None;
    var at := pos + |load| + 1;
    var inner := StmtCode(s.body, OpenOne(u), at);
    StmtBelow(s.body, OpenOne(u), at);
    PeakAlike(s.body, u, OpenOne(u));
    BelowJoin(inner, StmtPeak(s.body, u), inner, StmtPeak(s.body, u), n);
    BelowGuarded(v, inner, n);
    LoadBelow(load, x.next, n);
    BelowJoin(load, n, Guarded(v, inner), n, n);
    if rescue {
      var to := pos + |load + Guarded(v, inner)| + 3;
      var h := StmtCode(s.handler.value, z, to);
      StmtBelow(s.handler.value, z, to);
      BelowJoin(h, StmtPeak(s.handler.value, z), h, StmtPeak(s.handler.value, z), n);
      BelowNone(n);
      UnlessBelow(x.next, z.next, n);
      BelowFork(Unless(x.next, z.next), z.next + 1, h, false, [], n);
      BelowJoin(load + Guarded(v, inner), n, Fork(Unless(x.next, z.next), z.next + 1, h, false, []), n, n);
    }
  }

  lemma {:induction false} LoadBelow(load: seq<Instr>, m: Reg, n: nat)
    requires load == [] || (load == [LoadNil(m)] && m < n)
    ensures AllBelow(load, n)
  {
  }

  lemma {:induction false} UnlessBelow(v: Reg, m: nat, n: nat)
    requires v < m && m + 2 <= n
    ensures AllBelow(Unless(v, m), n)
  {
  }

  lemma {:induction false} SeqBelow(ss: seq<Stmt>, x: Ctx, pos: nat)
    requires x.env.Valid(x.next)
    ensures AllBelow(SeqCode(ss, x, pos), SeqPeak(ss, x))
    decreases ss, 0
  {
    if ss != [] {
      var n, p := |ss| - 1, SeqPeak(ss, x);
      assert SeqPeak(ss[..n], x) <= p && StmtPeak(ss[n], AfterSeq(ss[..n], x)) <= p;
      hide SeqCode, SeqPeak, StmtCode, StmtPeak, AfterSeq, AllBelow;
      SeqCodeSteps(ss, x, pos);
      var first := SeqCode(ss[..n], x, pos);
      var at := pos + |first|;
      if ss[n].FixContinue? {
        SeqPeakAlike(ss[..n], x, FixedCtx(x, at));
        SeqBelow(ss[..n], FixedCtx(x, at), pos);
        BelowJoin(SeqCode(ss, x, pos), SeqPeak(ss[..n], x), SeqCode(ss, x, pos), SeqPeak(ss[..n], x), p);
      } else {
        SeqBelow(ss[..n], x, pos);
        AfterSeqExtends(ss[..n], x);
        var y := AfterSeq(ss[..n], x);
        StmtBelow(ss[n], y, at);
        BelowJoin(first, SeqPeak(ss[..n], x), StmtCode(ss[n], y, at), StmtPeak(ss[n], y), p);
      }
    }
  }
}
