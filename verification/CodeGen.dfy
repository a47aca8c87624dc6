/** The code the compiler emits, as a function of the statement and of the compiler's state: which locals live in which registers, the next free register, the innermost loop's targets and how many `catch` bodies were opened inside it. */
module CodeGen {
  import opened Shapes
  import opened Bytecode
  import opened Values
  import opened Core

  /** Visible locals and their registers, in order of declaration. */
  datatype Scope = Scope(names: seq<string>, regs: seq<Reg>) {
    predicate Valid(next: nat) {
      && |names| == |regs|
      && (forall i :: 0 <= i < |regs| ==> regs[i] < next)
      && (forall i, j :: 0 <= i < j < |regs| ==> regs[i] != regs[j])
    }

    function Declare(name: string, r: Reg): Scope {
      Scope(names + [name], regs + [r])
    }
  }

  /** An expression that is just a local has that local's register and no code. */
  function IsLocal(e: Expr, env: Scope): bool {
    match e
    case Var(name) => Find(env.names, name) >= 0
    case Grouping(a) => IsLocal(a, env)
    case _ => false
  }

  /** The register an expression's value ends up in, when `m` is the next free one. */
  function ExprReg(e: Expr, env: Scope, m: nat): Reg
    requires |env.names| == |env.regs|
  {
    match e
    case Var(name) => var i := Find(env.names, name); if i >= 0 then env.regs[i] else m
    case Grouping(a) => ExprReg(a, env, m)
    case _ => m
  }

  function FusesArith(op: BinOp): bool {
    op.Add? || op.Sub? || op.Mul?
  }

  function MoveTo(dst: Reg, src: Reg): seq<Instr> {
    if src == dst then [] else [Copy(dst, src)]
  }

  function LoadLit(v: Value, m: nat): Instr {
    match v
    case Nil => LoadNil(m)
    case Bool(b) => LoadBool(m, b)
    case _ => LoadConst(m, v)
  }

  function ExprCode(e: Expr, env: Scope, m: nat): seq<Instr>
    requires |env.names| == |env.regs|
  {
    match e
    case Lit(v) => [LoadLit(v, m)]
    case Var(name) => if Find(env.names, name) >= 0 then [] else [ReadGlobal(m, name)]
    case UnaryOf(op, a) => ExprCode(a, env, m) + [Unary(op, m, ExprReg(a, env, m))]
    case Binary(a, op, b) =>
      if b.Lit? && b.val.Num? && FusesArith(op) then
        ExprCode(a, env, m) + [ArithImm(op, m, ExprReg(a, env, m), b.val.n)]
      else
        ExprCode(a, env, m) + ExprCode(b, env, m + 1) + [Arith(op, m, ExprReg(a, env, m), ExprReg(b, env, m + 1))]
    case Logical(a, cmp, b) =>
      if b.Lit? && b.val.Num? then
        ExprCode(a, env, m) + [CompareImm(cmp, m, ExprReg(a, env, m), b.val.n)]
      else
        ExprCode(a, env, m) + ExprCode(b, env, m + 1) + [Compare(cmp, m, ExprReg(a, env, m), ExprReg(b, env, m + 1))]
    case Circuit(a, isAnd, b) =>
      var rest := ExprCode(b, env, m + 1) + MoveTo(m, ExprReg(b, env, m + 1));
      ExprCode(a, env, m) + MoveTo(m, ExprReg(a, env, m))
      + [if isAnd then JmpIfFalse(m, |rest|) else JmpIfTrue(m, |rest|)] + rest
    case Grouping(a) => ExprCode(a, env, m)
    case Condition(c, t, f) =>
      var yes := ExprCode(t, env, m) + MoveTo(m, ExprReg(t, env, m));
      var no := ExprCode(f, env, m) + MoveTo(m, ExprReg(f, env, m));
      ExprCode(c, env, m) + [JmpIfFalse(ExprReg(c, env, m), |yes| + 1)] + (yes + [Jmp(|no|)]) + no
  }

  /** The next free register after an expression whose value is still needed. */
  function ExprNext(e: Expr, env: Scope, m: nat): nat {
    if IsLocal(e, env) then m else m + 1
  }

  /** Where `break` and `continue` go, and how many `catch` bodies they leave on the way. A
      target not known yet is emitted as a jump of offset 0, to be patched. */
  datatype Loop = NoLoop | InLoop(brk: Option<nat>, cont: nat, opens: nat)

  datatype Ctx = Ctx(env: Scope, next: nat, loop: Loop)

  /** Execution never reaches the end of `s`. */
  function NeverFallsThrough(s: Stmt): bool {
    match s
    case Return(_) => true
    case RaiseOf(_) => true
    case Break => true
    case Continue => true
    case Block(ss) => ss != [] && NeverFallsThrough(ss[|ss| - 1])
    case If(_, t, Some(f)) => NeverFallsThrough(t) && NeverFallsThrough(f)
    case _ => false
  }

  /** The compiler's scope and next free register after a statement. */
  function After(s: Stmt, x: Ctx): (y: Ctx)
    ensures y.loop == x.loop && x.next <= y.next
    ensures |x.env.names| == |x.env.regs| ==> |y.env.names| == |y.env.regs|
    decreases s, 1
  {
    match s
    case VarDecl(name, _) => x.(env := x.env.Declare(name, x.next), next := x.next + 1)
    case Return(e) => x.(next := ExprNext(e, x.env, x.next))
    case RaiseOf(e) => x.(next := ExprNext(e, x.env, x.next))
    case If(_, t, f) =>
      var y := After(t, x);
      if f.Some? then After(f.value, y) else y
    case While(_, body) => After(body, x)
    case Catch(body, handler, binds) =>
      var y := After(body, CatchCtx(binds, x));
      if handler.Some? then After(handler.value, y) else y
    case _ => x
  }

  /** The compiler's state once the variable of a `catch`, if any, is declared. */
  function CatchCtx(binds: Option<string>, x: Ctx): Ctx {
    if binds.Some? then x.(env := x.env.Declare(binds.value, x.next), next := x.next + 1) else x
  }

  function AfterSeq(ss: seq<Stmt>, x: Ctx): (y: Ctx)
    ensures y.loop == x.loop && x.next <= y.next
    ensures |x.env.names| == |x.env.regs| ==> |y.env.names| == |y.env.regs|
    decreases ss, 0
  {
    if ss == [] then x else After(ss[|ss| - 1], AfterSeq(ss[..|ss| - 1], x))
  }

  function OpenOne(x: Ctx): Ctx {
    if x.loop.InLoop? then x.(loop := x.loop.(opens := x.loop.opens + 1)) else x
  }

  function Pops(n: nat): (s: seq<Instr>)
    ensures |s| == n && forall k :: 0 <= k < n ==> s[k] == PopCatch
  {
    seq(n, _ => PopCatch)
  }

  /** A test and two ways to go on; the first hops over the second only if it can reach its
      end. */
  function Fork(test: seq<Instr>, r: Reg, yes: seq<Instr>, hop: bool, no: seq<Instr>): seq<Instr> {
    if hop then test + [JmpIfFalse(r, |yes| + 1)] + yes + [Jmp(|no|)] + no
    else test + [JmpIfFalse(r, |yes|)] + yes + no
  }

  /** A test, a body, and the way back to the test. */
  function Cycle(test: seq<Instr>, r: Reg, body: seq<Instr>): seq<Instr> {
    test + [JmpIfFalse(r, |body| + 1)] + body + [Jmp(-(|test| + 1 + |body| + 1))]
  }

  function Guarded(v: Option<Reg>, body: seq<Instr>): seq<Instr> {
    [PushCatch(v, |body| + 1)] + body + [PopCatch]
  }

  /** Whether the variable in `v` is still nil, using registers `m` and `m + 1`. */
  function Unless(v: Reg, m: nat): seq<Instr> {
    [LoadNil(m), Compare(Neq, m + 1, v, m)]
  }

  function Leaving(opens: nat, pos: nat, target: Option<nat>): seq<Instr> {
    Pops(opens) + [Jmp(if target.Some? then target.value - (pos + opens + 1) else 0)]
  }

  /** The state in which a loop's body is compiled. */
  function BodyCtx(x: Ctx, start: nat, end: Option<nat>): Ctx {
    x.(loop := InLoop(end, start, 0))
  }

  /** The code of a statement placed at `pos`. */
  function StmtCode(s: Stmt, x: Ctx, pos: nat): seq<Instr>
    requires |x.env.names| == |x.env.regs|
    decreases s, 1
  {
    var env, m := x.env, x.next;
    match s
    case Expression(e) => ExprCode(e, env, m)
    case Assign(name, e) =>
      var i := Find(env.names, name);
      ExprCode(e, env, m)
      + (if i >= 0 then MoveTo(env.regs[i], ExprReg(e, env, m)) else [AssignGlobal(name, ExprReg(e, env, m))])
    case Echo(e) => ExprCode(e, env, m) + [Print(ExprReg(e, env, m))]
    case VarDecl(_, e) => ExprCode(e, env, m) + MoveTo(m, ExprReg(e, env, m))
    case Block(ss) => SeqCode(ss, x, pos)
    case If(c, t, f) =>
      var test := ExprCode(c, env, m);
      var yes := StmtCode(t, x, pos + |test| + 1);
      var hop := f.Some? && !NeverFallsThrough(t);
      var no := if f.None? then [] else StmtCode(f.value, After(t, x), pos + |test| + 1 + |yes| + if hop then 1 else 0);
      Fork(test, ExprReg(c, env, m), yes, hop, no)
    case While(c, body) =>
      var test := ExprCode(c, env, m);
      var at := pos + |test| + 1;
      var end := at + |StmtCode(body, BodyCtx(x, pos, None), at)| + 1;
      Cycle(test, ExprReg(c, env, m), StmtCode(body, BodyCtx(x, pos, Some(end)), at))
    case Break => if x.loop.NoLoop? then [] else Leaving(x.loop.opens, pos, x.loop.brk)
    case Continue => if x.loop.NoLoop? then [] else Leaving(x.loop.opens, pos, Some(x.loop.cont))
    case FixContinue => []
    case Return(e) => ExprCode(e, env, m) + [Ret(ExprReg(e, env, m))]
    case RaiseOf(e) => ExprCode(e, env, m) + [Raise(ExprReg(e, env, m))]
    case Catch(body, handler, binds) =>
      var y := CatchCtx(binds, x);
      var load := if binds.Some? then [LoadNil(m)] else [];
      var inner := StmtCode(body, OpenOne(y), pos + |load| + 1);
      var head := load + Guarded(if binds.Some? then Some(m) else None, inner);
      if handler.None? || binds.None? then head
      else
        var z := After(body, y);
        head + Fork(Unless(m, z.next), z.next + 1, StmtCode(handler.value, z, pos + |head| + 3), false, [])
  }

  function SeqCode(ss: seq<Stmt>, x: Ctx, pos: nat): seq<Instr>
    requires |x.env.names| == |x.env.regs|
    decreases ss, 0
  {
    if ss == [] then []
    else
      var n := |ss| - 1;
      var first := SeqCode(ss[..n], x, pos);
      if ss[n].FixContinue? then SeqCode(ss[..n], FixedCtx(x, pos + |first|), pos)
      else first + StmtCode(ss[n], AfterSeq(ss[..n], x), pos + |first|)
  }

  /** `continue` goes on at `target`. */
  function FixedCtx(x: Ctx, target: nat): Ctx {
    if x.loop.NoLoop? then x else x.(loop := x.loop.(cont := target))
  }
}
