/** The state of a function scope while it is being compiled, and what compiling an expression or a statement makes of it. */
module Compiling {
  import opened Shapes
  import opened Bytecode
  import opened Values
  import opened Core
  import opened CodeGen
  import opened Frame

  /** One active loop. */
  datatype LoopContext = LoopContext(continueTarget: nat, breakJumps: seq<nat>, continueLocales: seq<nat>, openCatches: nat)

  datatype Comp = Comp(code: seq<Instr>, locals: Scope, nextReg: nat, maxReg: nat, loops: seq<LoopContext>, openCatches: nat) {
    predicate Ok() {
      locals.Valid(nextReg) && nextReg <= maxReg
    }

    function Alloc(): Comp {
      this.(nextReg := nextReg + 1, maxReg := Max(maxReg, nextReg + 1))
    }

    function Free(mark: nat): Comp {
      this.(nextReg := mark, maxReg := Max(maxReg, mark))
    }

    function Put(i: Instr): Comp {
      this.(code := code + [i])
    }

    function Move(dst: Reg, src: Reg): Comp {
      this.(code := code + MoveTo(dst, src))
    }

    /** The jump at `at` goes to the end of the code. */
    function Patch(at: nat): Comp
      requires at < |code| && IsJump(code[at])
    {
      this.(code := code[at := WithOffset(code[at], |code| - (at + 1))])
    }

    /** After an expression. */
    function Load(e: Expr): Comp
      requires |locals.names| == |locals.regs|
    {
      this.(code := code + ExprCode(e, locals, nextReg),
            nextReg := ExprNext(e, locals, nextReg),
            maxReg := Max(maxReg, ExprPeak(e, locals, nextReg)))
    }
  }

  predicate IsJump(i: Instr) {
    i.Jmp? || i.JmpIfFalse? || i.JmpIfTrue? || i.PushCatch?
  }

  function WithOffset(i: Instr, offset: int): Instr
    requires IsJump(i)
  {
    match i
    case Jmp(_) => Jmp(offset)
    case JmpIfFalse(r, _) => JmpIfFalse(r, offset)
    case JmpIfTrue(r, _) => JmpIfTrue(r, offset)
    case PushCatch(v, _) => PushCatch(v, offset)
  }

  /** Where a jump at `at` goes when it is taken. For a `PushCatch` that is when an error is
      caught. */
  function TargetOf(code: seq<Instr>, at: nat): int
    requires at < |code| && IsJump(code[at])
  {
    at + 1 + code[at].offset
  }

  /** The same jump, wherever it goes: its kind and its register. */
  predicate SameJump(i: Instr, j: Instr) {
    IsJump(i) && IsJump(j) && WithOffset(i, j.offset) == j
  }

  lemma {:induction false} OperandPlace(a: Expr, env: Scope, m: nat)
    requires env.Valid(m)
    ensures if IsLocal(a, env) then ExprReg(a, env, m) < m else ExprReg(a, env, m) == m
    decreases a
  {
    if a.Grouping? { OperandPlace(a.inner, env, m); }
  }

  lemma {:induction false} LoadOk(c: Comp, e: Expr)
    requires c.Ok()
    ensures |c.locals.names| == |c.locals.regs|
    ensures c.Load(e).Ok() && c.Load(e).locals == c.locals && c.Load(e).loops == c.loops
    ensures ExprReg(e, c.locals, c.nextReg) <= c.nextReg <= c.Load(e).nextReg <= c.nextReg + 1
    ensures ExprReg(e, c.locals, c.nextReg) == c.nextReg ==> c.Load(e).nextReg == c.nextReg + 1
    ensures ExprReg(e, c.locals, c.nextReg) < c.nextReg ==> c.Load(e).nextReg == c.nextReg
  {
    hide ExprCode, ExprPeak;
    OperandPlace(e, c.locals, c.nextReg);
  }

  /** Code with a jump patched to its end. */
  lemma {:induction false} PatchEnd(a: seq<Instr>, i: Instr, b: seq<Instr>)
    requires IsJump(i)
    ensures
      var code := a + [i] + b;
      code[|a|] == i && code[|a| := WithOffset(i, |code| - (|a| + 1))] == a + [WithOffset(i, |b|)] + b
  {
  }

  /** A scope in which a value has been given a register of its own at `mark`. */
  function Placed(c: Comp, mark: nat): Comp {
    c.(nextReg := mark + 1, maxReg := Max(c.maxReg, mark + 1))
  }

  function Fuses(e: Expr): bool
    requires e.Binary? || e.Logical?
  {
    e.right.Lit? && e.right.val.Num? && (e.Logical? || FusesArith(e.op))
  }

  /** The instruction of an operator or comparison, its operands in `a` and `b`. */
  function Operator(e: Expr, d: Reg, a: Reg, b: Reg): Instr
    requires e.Binary? || e.Logical?
  {
    if Fuses(e) then (if e.Binary? then ArithImm(e.op, d, a, e.right.val.n) else CompareImm(e.cmp, d, a, e.right.val.n))
    else if e.Binary? then Arith(e.op, d, a, b)
    else Compare(e.cmp, d, a, b)
  }

  lemma {:induction false} OperatorParts(e: Expr, env: Scope, m: nat)
    requires |env.names| == |env.regs| && (e.Binary? || e.Logical?)
    ensures
      var a, b := ExprReg(e.left, env, m), ExprReg(e.right, env, m + 1);
      var ca, cb := ExprCode(e.left, env, m), ExprCode(e.right, env, m + 1);
      var p := Max(ExprPeak(e.left, env, m), m + 1);
      && ExprNext(e, env, m) == m + 1
      && (Fuses(e) ==> ExprCode(e, env, m) == ca + [Operator(e, m, a, 0)] && ExprPeak(e, env, m) == p)
      && (!Fuses(e) ==> ExprCode(e, env, m) == ca + cb + [Operator(e, m, a, b)] && ExprPeak(e, env, m) == Max(p, ExprPeak(e.right, env, m + 1)))
  {
  }

  lemma {:induction false} OperatorResult(c: Comp, e: Expr)
    requires c.Ok() && (e.Binary? || e.Logical?)
    ensures
      var env, m := c.locals, c.nextReg;
      var a, b := ExprReg(e.left, env, m), ExprReg(e.right, env, m + 1);
      var c1 := Placed(c.Load(e.left), m);
      && |c1.locals.names| == |c1.locals.regs| && c1.Ok() && c1.nextReg == m + 1 && c1.locals == env
      && (Fuses(e) ==> c1.Put(Operator(e, m, a, 0)).Free(m + 1) == c.Load(e))
      && (!Fuses(e) ==> c1.Load(e.right).Put(Operator(e, m, a, b)).Free(m + 1) == c.Load(e))
  {
    hide ExprCode, ExprPeak, Operator, ExprNext, ExprReg, Fuses;
    LoadOk(c, e.left);
    var env, m := c.locals, c.nextReg;
    var a, b := ExprReg(e.left, env, m), ExprReg(e.right, env, m + 1);
    var ca, cb := ExprCode(e.left, env, m), ExprCode(e.right, env, m + 1);
    OperatorParts(e, env, m);
    AppendTwice(c.code, ca, [], Operator(e, m, a, 0));
    AppendTwice(c.code, ca, cb, Operator(e, m, a, b));
  }

  lemma {:induction false} AppendTwice(code: seq<Instr>, a: seq<Instr>, b: seq<Instr>, i: Instr)
    ensures code + a + b + [i] == code + (a + b + [i])
    ensures b == [] ==> code + a + [i] == code + (a + [i])
  {
  }

  function Shortcut(e: Expr, m: Reg, offset: int): Instr
    requires e.Circuit?
  {
    if e.isAnd then JmpIfFalse(m, offset) else JmpIfTrue(m, offset)
  }

  lemma {:induction false} CircuitParts(e: Expr, env: Scope, m: nat)
    requires |env.names| == |env.regs| && e.Circuit?
    ensures
      var first, rest := ExprCode(e.left, env, m) + MoveTo(m, ExprReg(e.left, env, m)), ExprCode(e.right, env, m + 1) + MoveTo(m, ExprReg(e.right, env, m + 1));
      && ExprNext(e, env, m) == m + 1
      && ExprCode(e, env, m) == first + [Shortcut(e, m, |rest|)] + rest
      && ExprPeak(e, env, m) == Max(Max(ExprPeak(e.left, env, m), m + 1), ExprPeak(e.right, env, m + 1))
      && IsJump(Shortcut(e, m, 0)) && WithOffset(Shortcut(e, m, 0), |rest|) == Shortcut(e, m, |rest|)
  {
  }

  /** Before the right operand of `and`/`or`. */
  function Shorted(c: Comp, e: Expr): Comp
    requires e.Circuit? && |c.locals.names| == |c.locals.regs|
  {
    c.Load(e.left).Move(c.nextReg, ExprReg(e.left, c.locals, c.nextReg)).Free(c.nextReg + 1).Put(Shortcut(e, c.nextReg, 0))
  }

  lemma {:induction false} ShortedOk(c: Comp, e: Expr)
    requires c.Ok() && e.Circuit?
    ensures
      var d, m := Shorted(c, e), c.nextReg;
      && d.Ok() && d.locals == c.locals && d.nextReg == m + 1 && d.loops == c.loops && d.openCatches == c.openCatches
      && d.code == c.code + (ExprCode(e.left, c.locals, m) + MoveTo(m, ExprReg(e.left, c.locals, m))) + [Shortcut(e, m, 0)]
      && d.maxReg == Max(Max(c.maxReg, ExprPeak(e.left, c.locals, m)), m + 1)
  {
    hide ExprCode, ExprPeak, MoveTo, ExprNext, ExprReg, Shortcut;
    LoadOk(c, e.left);
    assert c.code + ExprCode(e.left, c.locals, c.nextReg) + MoveTo(c.nextReg, ExprReg(e.left, c.locals, c.nextReg))
        == c.code + (ExprCode(e.left, c.locals, c.nextReg) + MoveTo(c.nextReg, ExprReg(e.left, c.locals, c.nextReg)));
  }

  lemma {:induction false} CircuitResult(c: Comp, e: Expr)
    requires c.Ok() && e.Circuit?
    ensures
      var d, m := Shorted(c, e), c.nextReg;
      && d.Ok() && d.locals == c.locals && d.nextReg == m + 1 && |d.code| > 0
      && var c3 := d.Load(e.right).Move(m, ExprReg(e.right, c.locals, m + 1)).Free(m + 1);
         |d.code| <= |c3.code| && IsJump(c3.code[|d.code| - 1]) && c3.Patch(|d.code| - 1) == c.Load(e)
  {
    hide ExprCode, ExprPeak, MoveTo, ExprNext, ExprReg, Shortcut, Shorted, IsJump, WithOffset;
    ShortedOk(c, e);
    var env, m := c.locals, c.nextReg;
    CircuitParts(e, env, m);
    var first := ExprCode(e.left, env, m) + MoveTo(m, ExprReg(e.left, env, m));
    var cb, mb := ExprCode(e.right, env, m + 1), MoveTo(m, ExprReg(e.right, env, m + 1));
    PatchForward(c.code, first, Shortcut(e, m, 0), cb, mb);
  }

  /** Patching a jump over two pieces of code emitted after it. */
  lemma {:induction false} PatchForward(code: seq<Instr>, a: seq<Instr>, i: Instr, b: seq<Instr>, d: seq<Instr>)
    requires IsJump(i)
    ensures
      var all := code + a + [i] + b + d;
      var at := |code + a|;
      && all[at] == i
      && all[at := WithOffset(i, |all| - (at + 1))] == code + (a + [WithOffset(i, |b + d|)] + (b + d))
  {
    PatchEnd(code + a, i, b + d);
    assert code + a + [i] + b + d == code + a + [i] + (b + d);
    assert code + a + [WithOffset(i, |b + d|)] + (b + d) == code + (a + [WithOffset(i, |b + d|)] + (b + d));
  }

  /** A condition and the jump to be taken when it fails. */
  function Tested(c: Comp, e: Expr): Comp
    requires |c.locals.names| == |c.locals.regs|
  {
    c.Load(e).Put(JmpIfFalse(ExprReg(e, c.locals, c.nextReg), 0)).Free(c.nextReg)
  }

  lemma {:induction false} TestedOk(c: Comp, e: Expr)
    requires c.Ok()
    ensures
      var d := Tested(c, e);
      && |c.locals.names| == |c.locals.regs|
      && d.Ok() && d == c.(code := d.code, maxReg := d.maxReg)
      && d.code == c.code + ExprCode(e, c.locals, c.nextReg) + [JmpIfFalse(ExprReg(e, c.locals, c.nextReg), 0)]
      && d.maxReg == Max(c.maxReg, ExprPeak(e, c.locals, c.nextReg))
  {
    hide ExprCode, ExprPeak, ExprReg;
    LoadOk(c, e);
  }

  lemma {:induction false} ConditionParts(e: Expr, env: Scope, m: nat)
    requires |env.names| == |env.regs| && e.Condition?
    ensures
      var yes, no := ExprCode(e.truth, env, m) + MoveTo(m, ExprReg(e.truth, env, m)), ExprCode(e.falsy, env, m) + MoveTo(m, ExprReg(e.falsy, env, m));
      && ExprNext(e, env, m) == m + 1
      && ExprCode(e, env, m) == ExprCode(e.cond, env, m) + [JmpIfFalse(ExprReg(e.cond, env, m), |yes| + 1)] + (yes + [Jmp(|no|)]) + no
      && ExprPeak(e, env, m) == Max(Max(Max(ExprPeak(e.cond, env, m), ExprPeak(e.truth, env, m)), ExprPeak(e.falsy, env, m)), m + 1)
  {
  }

  /** After the first arm of `?:` and the jump over the second, to which the test now goes. */
  function Chosen(c: Comp, e: Expr, at: nat): Comp
    requires e.Condition? && |c.locals.names| == |c.locals.regs| && at < |c.code| && IsJump(c.code[at])
  {
    c.Load(e.truth).Move(c.nextReg, ExprReg(e.truth, c.locals, c.nextReg)).Put(Jmp(0)).Free(c.nextReg).Patch(at)
  }

  lemma {:induction false} ChosenOk(c: Comp, e: Expr, a: seq<Instr>, r: Reg)
    requires c.Ok() && e.Condition? && c.code == a + [JmpIfFalse(r, 0)]
    ensures |c.locals.names| == |c.locals.regs|
    ensures
      var m := c.nextReg;
      var d := Chosen(c, e, |a|);
      var yes := ExprCode(e.truth, c.locals, m) + MoveTo(m, ExprReg(e.truth, c.locals, m));
      && d.Ok() && d == c.(code := d.code, maxReg := d.maxReg)
      && d.code == a + [JmpIfFalse(r, |yes| + 1)] + yes + [Jmp(0)]
      && d.maxReg == Max(c.maxReg, ExprPeak(e.truth, c.locals, m))
  {
    hide ExprCode, ExprPeak, ExprReg, MoveTo;
    LoadOk(c, e.truth);
    var m := c.nextReg;
    var x, y := ExprCode(e.truth, c.locals, m), MoveTo(m, ExprReg(e.truth, c.locals, m));
    PatchEnd(a, JmpIfFalse(r, 0), x + y + [Jmp(0)]);
    assert a + [JmpIfFalse(r, 0)] + x + y + [Jmp(0)] == a + [JmpIfFalse(r, 0)] + (x + y + [Jmp(0)]);
    assert a + [JmpIfFalse(r, |x + y| + 1)] + (x + y + [Jmp(0)]) == a + [JmpIfFalse(r, |x + y| + 1)] + (x + y) + [Jmp(0)];
  }

  lemma {:induction false} ConditionResult(c: Comp, e: Expr)
    requires c.Ok() && e.Condition?
    ensures |c.locals.names| == |c.locals.regs|
    ensures
      var d, m := Tested(c, e.cond), c.nextReg;
      && d.Ok() && d.nextReg == m && d.locals == c.locals && |d.code| > 0 && IsJump(d.code[|d.code| - 1])
      && var f := Chosen(d, e, |d.code| - 1);
         && f.Ok() && f.nextReg == m && f.locals == c.locals && |d.code| < |f.code|
         && var g := f.Load(e.falsy).Move(m, ExprReg(e.falsy, c.locals, m));
            |f.code| <= |g.code| && IsJump(g.code[|f.code| - 1]) && g.Patch(|f.code| - 1).Free(m + 1) == c.Load(e)
  {
    hide ExprCode, ExprPeak, MoveTo, ExprNext, ExprReg, Tested, Chosen;
    TestedOk(c, e.cond);
    var env, m := c.locals, c.nextReg;
    var test, r := ExprCode(e.cond, env, m), ExprReg(e.cond, env, m);
    var d := Tested(c, e.cond);
    ChosenOk(d, e, c.code + test, r);
    ConditionParts(e, env, m);
    var yes := ExprCode(e.truth, env, m) + MoveTo(m, ExprReg(e.truth, env, m));
    var x, y := ExprCode(e.falsy, env, m), MoveTo(m, ExprReg(e.falsy, env, m));
    var jump := [JmpIfFalse(r, |yes| + 1)];
    PatchForward(c.code, test + jump + yes, Jmp(0), x, y);
    ConditionShape(c.code, test, jump, yes, x + y);
  }

  lemma {:induction false} ConditionShape(code: seq<Instr>, test: seq<Instr>, jump: seq<Instr>, yes: seq<Instr>, no: seq<Instr>)
    ensures code + test + jump + yes == code + (test + jump + yes)
    ensures test + jump + yes + [Jmp(|no|)] + no == test + jump + (yes + [Jmp(|no|)]) + no
  {
  }
}
