/** The code of an expression computes the expression. */
module ExprSim {
  import opened Shapes
  import opened Bytecode
  import opened Values
  import opened Core
  import opened Machine
  import opened CodeGen

  /** `frag` sits in the program at `pos`. */
  ghost predicate CodeAt(code: seq<Instr>, pos: int, frag: seq<Instr>) {
    0 <= pos && pos + |frag| <= |code| && code[pos..pos + |frag|] == frag
  }

  lemma {:induction false} CodeAtSplit(code: seq<Instr>, pos: int, a: seq<Instr>, b: seq<Instr>)
    requires CodeAt(code, pos, a + b)
    ensures CodeAt(code, pos, a) && CodeAt(code, pos + |a|, b)
  {
    var whole := code[pos..pos + |a + b|];
    assert code[pos..pos + |a|] == whole[..|a|];
    assert code[pos + |a|..pos + |a| + |b|] == whole[|a|..];
  }

  lemma {:induction false} CodeAtOne(code: seq<Instr>, pos: int, a: seq<Instr>, i: Instr)
    requires CodeAt(code, pos, a + [i])
    ensures CodeAt(code, pos, a) && 0 <= pos + |a| < |code| && code[pos + |a|] == i
  {
    CodeAtSplit(code, pos, a, [i]);
    assert code[pos + |a|..pos + |a| + 1] == [i];
  }

  /** The registers of visible locals hold the values of the source state; globals and
      output are the same. */
  ghost predicate Agrees(env: Scope, st: State, c: Config) {
    && |env.names| == |env.regs| <= |st.vals| == |st.names|
    && env.names == st.names[..|env.names|]
    && (forall i :: 0 <= i < |env.regs| ==> Get(c.regs, env.regs[i]) == st.vals[i])
    && c.globals == st.globals && c.output == st.output
  }

  /** `c1` differs from `c` only in its position and in registers from `m` on. */
  ghost predicate Kept(c: Config, c1: Config, m: nat) {
    && c1.handlers == c.handlers && c1.globals == c.globals && c1.output == c.output
    && forall r: Reg :: r < m ==> Get(c1.regs, r) == Get(c.regs, r)
  }

  /** The compiler's scope and the source state are about the same locals, with registers
      from `m` on free. */
  ghost predicate Ready(env: Scope, m: nat, st: State, c: Config) {
    env.Valid(m) && st.Valid() && st.names == env.names && Agrees(env, st, c)
  }

  lemma {:induction false} KeptReady(env: Scope, m: nat, st: State, c: Config, c1: Config, m1: nat)
    requires Ready(env, m, st, c) && Kept(c, c1, m) && m <= m1
    ensures Ready(env, m1, st, c1)
  {
  }

  lemma {:induction false} ReadyFacts(env: Scope, m: nat, st: State, c: Config)
    requires Ready(env, m, st, c)
    ensures st.Valid() && |env.names| == |env.regs| && env.Valid(m)
  {
  }

  /** What running an expression's code amounts to. */
  ghost predicate Computes(ops: Ops, code: seq<Instr>, c: Config, k: nat, c1: Config, r: Result, reg: Reg, end: int, m: nat) {
    && Kept(c, c1, m)
    && match r
       case Ok(v) => c1.pc == end && Get(c1.regs, reg) == v && Steps(ops, code, Running(c), k) == Running(c1)
       case Err(x) => Steps(ops, code, Running(c), k) == Unwind(c1, x)
  }

  /** One more instruction, which stores its result in `m`. */
  lemma {:induction false} StoreLast(ops: Ops, code: seq<Instr>, c: Config, k: nat, c1: Config, r: Result, m: nat, end: int) returns (c2: Config)
    requires Kept(c, c1, m) && Steps(ops, code, Running(c), k) == Running(c1) && c1.pc + 1 == end
    requires Step(ops, code, Running(c1)) == Store(c1, m, r)
    ensures Computes(ops, code, c, k + 1, c2, r, m, end, m)
  {
    StepsAdd(ops, code, Running(c), k, 1);
    assert Steps(ops, code, Running(c1), 1) == Step(ops, code, Running(c1)) by {
      assert Steps(ops, code, Step(ops, code, Running(c1)), 0) == Step(ops, code, Running(c1));
    }
    c2 := if r.Ok? then c1.(pc := c1.pc + 1, regs := c1.regs[m := r.v]) else c1;
  }

  /** Bringing an operand that is a plain local, or nothing if it is in place already. */
  lemma {:induction false} MoveLast(ops: Ops, code: seq<Instr>, c: Config, k: nat, c1: Config, m: nat, src: Reg, v: Value)
    returns (c2: Config, k2: nat)
    requires Kept(c, c1, m) && Steps(ops, code, Running(c), k) == Running(c1) && Get(c1.regs, src) == v
    requires CodeAt(code, c1.pc, MoveTo(m, src))
    ensures Computes(ops, code, c, k2, c2, Ok(v), m, c1.pc + |MoveTo(m, src)|, m)
  {
    if src == m {
      c2, k2 := c1, k;
    } else {
      assert code[c1.pc..c1.pc + 1] == [Copy(m, src)];
      assert code[c1.pc] == Copy(m, src);
      c2 := StoreLast(ops, code, c, k, c1, Ok(v), m, c1.pc + 1);
      k2 := k + 1;
    }
  }

  lemma {:induction false} JumpLast(ops: Ops, code: seq<Instr>, c: Config, k: nat, c1: Config, m: nat, taken: bool, offset: int) returns (c2: Config)
    requires Kept(c, c1, m) && Steps(ops, code, Running(c), k) == Running(c1)
    requires Step(ops, code, Running(c1)) == Jump(c1, taken, offset)
    ensures Kept(c, c2, m) && Steps(ops, code, Running(c), k + 1) == Running(c2)
    ensures c2 == c1.(pc := if taken then c1.pc + 1 + offset else c1.pc + 1)
  {
    StepsAdd(ops, code, Running(c), k, 1);
    c2 := c1.(pc := if taken then c1.pc + 1 + offset else c1.pc + 1);
    assert Steps(ops, code, Running(c1), 1) == Running(c2) by {
      assert Steps(ops, code, Running(c2), 0) == Running(c2);
    }
  }

  function Branch(onFalse: bool, r: Reg, offset: int): Instr {
    if onFalse then JmpIfFalse(r, offset) else JmpIfTrue(r, offset)
  }

  lemma {:induction false} BranchLast(ops: Ops, code: seq<Instr>, c: Config, k: nat, c1: Config, m: nat, onFalse: bool, r: Reg, offset: int) returns (c2: Config)
    requires Kept(c, c1, m) && Steps(ops, code, Running(c), k) == Running(c1)
    requires 0 <= c1.pc < |code| && code[c1.pc] == Branch(onFalse, r, offset)
    ensures Kept(c, c2, m) && Steps(ops, code, Running(c), k + 1) == Running(c2)
    ensures c2 == c1.(pc := if Falsey(Get(c1.regs, r)) == onFalse then c1.pc + 1 + offset else c1.pc + 1)
  {
    c2 := JumpLast(ops, code, c, k, c1, m, Falsey(Get(c1.regs, r)) == onFalse, offset);
  }

  /** A computation that starts where another stopped. */
  lemma {:induction false} Chain(ops: Ops, code: seq<Instr>, c: Config, k: nat, c1: Config, j: nat, c2: Config, r: Result, reg: Reg, end: int, m: nat, m1: nat)
    requires Kept(c, c1, m) && Steps(ops, code, Running(c), k) == Running(c1)
    requires Computes(ops, code, c1, j, c2, r, reg, end, m1) && m <= m1
    ensures Computes(ops, code, c, k + j, c2, r, reg, end, m)
  {
    StepsAdd(ops, code, Running(c), k, j);
  }

  /** Running the code of an expression leaves its value in the expression's register, or
      raises its error, and changes no register below the entry mark. */
  lemma {:induction false} SimLeaf(ops: Ops, code: seq<Instr>, e: Expr, env: Scope, m: nat, st: State, c: Config) returns (c1: Config, k: nat)
    requires Ready(env, m, st, c) && (e.Lit? || e.Var?)
    requires CodeAt(code, c.pc, ExprCode(e, env, m))
    ensures Computes(ops, code, c, k, c1, Eval(ops, e, st), ExprReg(e, env, m), c.pc + |ExprCode(e, env, m)|, m)
  {
    match e
    case Lit(v) =>
      assert code[c.pc..c.pc + 1] == [LoadLit(v, m)];
      assert code[c.pc] == LoadLit(v, m);
      c1 := StoreLast(ops, code, c, 0, c, Ok(v), m, c.pc + 1);
      k := 1;
    case Var(name) =>
      if Find(env.names, name) >= 0 {
        c1, k := c, 0;
      } else {
        assert code[c.pc..c.pc + 1] == [ReadGlobal(m, name)];
        assert code[c.pc] == ReadGlobal(m, name);
        c1 := StoreLast(ops, code, c, 0, c, Eval(ops, e, st), m, c.pc + 1);
        k := 1;
      }
  }

  lemma {:induction false} SimUnary(ops: Ops, code: seq<Instr>, e: Expr, env: Scope, m: nat, st: State, c: Config) returns (c1: Config, k: nat)
    requires Ready(env, m, st, c) && e.UnaryOf?
    requires CodeAt(code, c.pc, ExprCode(e, env, m))
    ensures Computes(ops, code, c, k, c1, Eval(ops, e, st), ExprReg(e, env, m), c.pc + |ExprCode(e, env, m)|, m)
    decreases e, 2
  {
    var op, a := e.uop, e.operand;
    CodeAtOne(code, c.pc, ExprCode(a, env, m), Unary(op, m, ExprReg(a, env, m)));
    c1, k := SimExpr(ops, code, a, env, m, st, c);
    if Eval(ops, a, st).Ok? {
      var c2 := StoreLast(ops, code, c, k, c1, Eval(ops, e, st), m, c1.pc + 1);
      c1, k := c2, k + 1;
    }
  }

  lemma {:induction false} SimExpr(ops: Ops, code: seq<Instr>, e: Expr, env: Scope, m: nat, st: State, c: Config) returns (c1: Config, k: nat)
    requires Ready(env, m, st, c)
    requires CodeAt(code, c.pc, ExprCode(e, env, m))
    ensures Computes(ops, code, c, k, c1, Eval(ops, e, st), ExprReg(e, env, m), c.pc + |ExprCode(e, env, m)|, m)
    decreases e, 3
  {
    match e
    case Lit(_) => c1, k := SimLeaf(ops, code, e, env, m, st, c);
    case Var(_) => c1, k := SimLeaf(ops, code, e, env, m, st, c);
    case UnaryOf(_, _) => c1, k := SimUnary(ops, code, e, env, m, st, c);
    case Binary(a, op, b) =>
      if b.Lit? && b.val.Num? && FusesArith(op) {
        c1, k := SimFused(ops, code, e, a, ArithImm(op, m, ExprReg(a, env, m), b.val.n), env, m, st, c);
      } else {
        c1, k := SimOperands(ops, code, e, a, b, Arith(op, m, ExprReg(a, env, m), ExprReg(b, env, m + 1)), env, m, st, c);
      }
    case Logical(a, cmp, b) =>
      if b.Lit? && b.val.Num? {
        c1, k := SimFused(ops, code, e, a, CompareImm(cmp, m, ExprReg(a, env, m), b.val.n), env, m, st, c);
      } else {
        c1, k := SimOperands(ops, code, e, a, b, Compare(cmp, m, ExprReg(a, env, m), ExprReg(b, env, m + 1)), env, m, st, c);
      }
    case Circuit(a, isAnd, b) => c1, k := SimCircuit(ops, code, e, env, m, st, c);
    case Grouping(a) => c1, k := SimExpr(ops, code, a, env, m, st, c);
    case Condition(_, _, _) => c1, k := SimCondition(ops, code, e, env, m, st, c);
  }

  /** A binary operator or comparison whose right operand is a literal folded into the
      instruction. */
  lemma {:induction false} SimFused(ops: Ops, code: seq<Instr>, e: Expr, a: Expr, i: Instr, env: Scope, m: nat, st: State, c: Config) returns (c1: Config, k: nat)
    requires Ready(env, m, st, c)
    requires (e.Binary? || e.Logical?) && a == e.left && e.right.Lit? && e.right.val.Num?
    requires i == if e.Binary? then ArithImm(e.op, m, ExprReg(a, env, m), e.right.val.n) else CompareImm(e.cmp, m, ExprReg(a, env, m), e.right.val.n)
    requires ExprCode(e, env, m) == ExprCode(a, env, m) + [i]
    requires CodeAt(code, c.pc, ExprCode(e, env, m))
    ensures Computes(ops, code, c, k, c1, Eval(ops, e, st), m, c.pc + |ExprCode(e, env, m)|, m)
    decreases e, 2
  {
    CodeAtOne(code, c.pc, ExprCode(a, env, m), i);
    assert Eval(ops, e.right, st) == Ok(e.right.val);
    c1, k := SimExpr(ops, code, a, env, m, st, c);
    if Eval(ops, a, st).Ok? {
      var c2 := StoreLast(ops, code, c, k, c1, Eval(ops, e, st), m, c1.pc + 1);
      c1, k := c2, k + 1;
    }
  }

  /** Both operands of an operator, one after the other. */
  lemma {:induction false} SimPair(ops: Ops, code: seq<Instr>, e: Expr, a: Expr, b: Expr, env: Scope, m: nat, st: State, c: Config) returns (c1: Config, k: nat)
    requires Ready(env, m, st, c)
    requires (e.Binary? || e.Logical?) && a == e.left && b == e.right
    requires CodeAt(code, c.pc, ExprCode(a, env, m)) && CodeAt(code, c.pc + |ExprCode(a, env, m)|, ExprCode(b, env, m + 1))
    ensures Eval(ops, a, st).Err? ==> Computes(ops, code, c, k, c1, Eval(ops, a, st), m, 0, m)
    ensures Eval(ops, a, st).Ok? ==>
              && Computes(ops, code, c, k, c1, Eval(ops, b, st), ExprReg(b, env, m + 1), c.pc + |ExprCode(a, env, m)| + |ExprCode(b, env, m + 1)|, m)
              && (Eval(ops, b, st).Ok? ==> Get(c1.regs, ExprReg(a, env, m)) == Eval(ops, a, st).v)
    decreases e, 1
  {
    hide *;
    ReadyFacts(env, m, st, c);
    c1, k := SimExpr(ops, code, a, env, m, st, c);
    ComputesCases(ops, code, c, k, c1, Eval(ops, a, st), ExprReg(a, env, m), c.pc + |ExprCode(a, env, m)|, m, 0);
    if Eval(ops, a, st).Ok? {
      KeptReady(env, m, st, c, c1, m + 1);
      var c2, j := SimExpr(ops, code, b, env, m + 1, st, c1);
      OperandKept(a, env, m, c1, c2);
      Chain(ops, code, c, k, c1, j, c2, Eval(ops, b, st), ExprReg(b, env, m + 1), c1.pc + |ExprCode(b, env, m + 1)|, m, m + 1);
      c1, k := c2, k + j;
    }
  }

  lemma {:induction false} SimOperands(ops: Ops, code: seq<Instr>, e: Expr, a: Expr, b: Expr, i: Instr, env: Scope, m: nat, st: State, c: Config) returns (c1: Config, k: nat)
    requires Ready(env, m, st, c)
    requires (e.Binary? || e.Logical?) && a == e.left && b == e.right
    requires i == if e.Binary? then Arith(e.op, m, ExprReg(a, env, m), ExprReg(b, env, m + 1)) else Compare(e.cmp, m, ExprReg(a, env, m), ExprReg(b, env, m + 1))
    requires ExprCode(e, env, m) == ExprCode(a, env, m) + ExprCode(b, env, m + 1) + [i]
    requires CodeAt(code, c.pc, ExprCode(e, env, m))
    ensures Computes(ops, code, c, k, c1, Eval(ops, e, st), m, c.pc + |ExprCode(e, env, m)|, m)
    decreases e, 2
  {
    var ca, cb := ExprCode(a, env, m), ExprCode(b, env, m + 1);
    CodeAtOne(code, c.pc, ca + cb, i);
    CodeAtSplit(code, c.pc, ca, cb);
    hide Ready, Kept, Steps, Step, Store, Unwind, Agrees, CodeAt, ExprCode;
    c1, k := SimPair(ops, code, e, a, b, env, m, st, c);
    if Eval(ops, a, st).Ok? && Eval(ops, b, st).Ok? {
      OperatorStep(ops, code, e, i, c1, m, ExprReg(a, env, m), ExprReg(b, env, m + 1), st);
      var c3 := StoreLast(ops, code, c, k, c1, Eval(ops, e, st), m, c1.pc + 1);
      c1, k := c3, k + 1;
    }
  }

  lemma {:induction false} OperatorStep(ops: Ops, code: seq<Instr>, e: Expr, i: Instr, c: Config, m: Reg, ra: Reg, rb: Reg, st: State)
    requires st.Valid() && (e.Binary? || e.Logical?)
    requires i == if e.Binary? then Arith(e.op, m, ra, rb) else Compare(e.cmp, m, ra, rb)
    requires 0 <= c.pc < |code| && code[c.pc] == i
    requires Eval(ops, e.left, st) == Ok(Get(c.regs, ra)) && Eval(ops, e.right, st) == Ok(Get(c.regs, rb))
    ensures Step(ops, code, Running(c)) == Store(c, m, Eval(ops, e, st))
  {
  }

  /** The left operand survives the right one: it is in `m`, or it is a local. */
  lemma {:induction false} OperandKept(a: Expr, env: Scope, m: nat, c1: Config, c2: Config)
    requires env.Valid(m) && Kept(c1, c2, m + 1)
    ensures Get(c2.regs, ExprReg(a, env, m)) == Get(c1.regs, ExprReg(a, env, m))
  {
    ExprRegBound(a, env, m);
  }

  lemma ExprRegBound(a: Expr, env: Scope, m: nat)
    requires env.Valid(m)
    ensures ExprReg(a, env, m) <= m
  {
  }

  /** The right operand of `and`/`or`, brought to the common register. */
  lemma {:induction false} SimRight(ops: Ops, code: seq<Instr>, b: Expr, env: Scope, m: nat, st: State, c: Config) returns (c1: Config, k: nat)
    requires Ready(env, m, st, c)
    requires CodeAt(code, c.pc, ExprCode(b, env, m + 1)) && CodeAt(code, c.pc + |ExprCode(b, env, m + 1)|, MoveTo(m, ExprReg(b, env, m + 1)))
    ensures Computes(ops, code, c, k, c1, Eval(ops, b, st), m, c.pc + |ExprCode(b, env, m + 1)| + |MoveTo(m, ExprReg(b, env, m + 1))|, m)
    decreases b, 4
  {
    c1, k := SimExpr(ops, code, b, env, m + 1, st, c);
    if Eval(ops, b, st).Ok? {
      hide Steps, Unwind, Agrees, CodeAt;
      c1, k := MoveLast(ops, code, c, k, c1, m, ExprReg(b, env, m + 1), Eval(ops, b, st).v);
    }
  }

  lemma {:induction false} CircuitLayout(code: seq<Instr>, pos: int, e: Expr, env: Scope, m: nat)
    requires |env.names| == |env.regs| && e.Circuit? && CodeAt(code, pos, ExprCode(e, env, m))
    ensures
      var first := ExprCode(e.left, env, m) + MoveTo(m, ExprReg(e.left, env, m));
      var cb, mb := ExprCode(e.right, env, m + 1), MoveTo(m, ExprReg(e.right, env, m + 1));
      var at := pos + |first|;
      && CodeAt(code, pos, first)
      && 0 <= at < |code|
      && code[at] == Branch(e.isAnd, m, |cb| + |mb|)
      && CodeAt(code, at + 1, cb) && CodeAt(code, at + 1 + |cb|, mb)
      && |ExprCode(e, env, m)| == |first| + 1 + |cb| + |mb|
  {
    var first := ExprCode(e.left, env, m) + MoveTo(m, ExprReg(e.left, env, m));
    var cb, mb := ExprCode(e.right, env, m + 1), MoveTo(m, ExprReg(e.right, env, m + 1));
    var j := Branch(e.isAnd, m, |cb + mb|);
    assert ExprCode(e, env, m) == first + [j] + (cb + mb);
    hide CodeAt, ExprCode, MoveTo, ExprReg;
    CodeAtSplit(code, pos, first + [j], cb + mb);
    CodeAtOne(code, pos, first, j);
    CodeAtSplit(code, pos + |first| + 1, cb, mb);
  }

  /** What is left of `and`/`or` after the test: nothing, or the right operand. */
  lemma {:induction false} SimRest(ops: Ops, code: seq<Instr>, b: Expr, env: Scope, m: nat, st: State, c: Config, left: Value, done: bool, end: int) returns (c1: Config, k: nat)
    requires Ready(env, m, st, c)
    requires done ==> c.pc == end && Get(c.regs, m) == left
    requires
      var cb, mb := ExprCode(b, env, m + 1), MoveTo(m, ExprReg(b, env, m + 1));
      !done ==> CodeAt(code, c.pc, cb) && CodeAt(code, c.pc + |cb|, mb) && end == c.pc + |cb| + |mb|
    ensures Computes(ops, code, c, k, c1, if done then Ok(left) else Eval(ops, b, st), m, end, m)
    decreases b, 5
  {
    if done {
      c1, k := c, 0;
    } else {
      hide *;
      c1, k := SimRight(ops, code, b, env, m, st, c);
    }
  }

  lemma {:induction false} SimCircuit(ops: Ops, code: seq<Instr>, e: Expr, env: Scope, m: nat, st: State, c: Config) returns (c1: Config, k: nat)
    requires Ready(env, m, st, c)
    requires e.Circuit? && CodeAt(code, c.pc, ExprCode(e, env, m))
    ensures Computes(ops, code, c, k, c1, Eval(ops, e, st), m, c.pc + |ExprCode(e, env, m)|, m)
    decreases e, 2
  {
    hide *;
    ReadyFacts(env, m, st, c);
    CircuitLayout(code, c.pc, e, env, m);
    EvalCircuit(ops, e, st);
    var end := c.pc + |ExprCode(e, env, m)|;
    c1, k := SimArm(ops, code, e.left, env, m, st, c);
    var r := Eval(ops, e.left, st);
    ComputesCases(ops, code, c, k, c1, r, m, c.pc + |ExprCode(e.left, env, m) + MoveTo(m, ExprReg(e.left, env, m))|, m, end);
    if r.Ok? {
      var rest := |ExprCode(e.right, env, m + 1)| + |MoveTo(m, ExprReg(e.right, env, m + 1))|;
      var done := Falsey(r.v) == e.isAnd;
      var c2 := BranchLast(ops, code, c, k, c1, m, e.isAnd, m, rest);
      KeptReady(env, m, st, c, c2, m);
      var c3, k3 := SimRest(ops, code, e.right, env, m, st, c2, r.v, done, end);
      Chain(ops, code, c, k + 1, c2, k3, c3, Eval(ops, e, st), m, end, m, m);
      c1, k := c3, k + 1 + k3;
    }
  }

  lemma {:induction false} EvalCircuit(ops: Ops, e: Expr, st: State)
    requires st.Valid() && e.Circuit?
    ensures var r := Eval(ops, e.left, st);
            Eval(ops, e, st) == if r.Err? then r else if Falsey(r.v) == e.isAnd then Ok(r.v) else Eval(ops, e.right, st)
  {
  }

  /** One arm of `?:`, or the left operand of `and`/`or`: its value is brought to the common
      register. */
  lemma {:induction false} SimArm(ops: Ops, code: seq<Instr>, a: Expr, env: Scope, m: nat, st: State, c: Config) returns (c1: Config, k: nat)
    requires Ready(env, m, st, c)
    requires CodeAt(code, c.pc, ExprCode(a, env, m) + MoveTo(m, ExprReg(a, env, m)))
    ensures Computes(ops, code, c, k, c1, Eval(ops, a, st), m, c.pc + |ExprCode(a, env, m) + MoveTo(m, ExprReg(a, env, m))|, m)
    decreases a, 4
  {
    CodeAtSplit(code, c.pc, ExprCode(a, env, m), MoveTo(m, ExprReg(a, env, m)));
    c1, k := SimExpr(ops, code, a, env, m, st, c);
    if Eval(ops, a, st).Ok? {
      c1, k := MoveLast(ops, code, c, k, c1, m, ExprReg(a, env, m), Eval(ops, a, st).v);
    }
  }

  /** The arm taken when the condition holds, with the jump over the other one. */
  lemma {:induction false} SimTruth(ops: Ops, code: seq<Instr>, t: Expr, env: Scope, m: nat, st: State, c: Config, over: int) returns (c1: Config, k: nat)
    requires Ready(env, m, st, c)
    requires CodeAt(code, c.pc, ExprCode(t, env, m) + MoveTo(m, ExprReg(t, env, m)) + [Jmp(over)])
    ensures Computes(ops, code, c, k, c1, Eval(ops, t, st), m, c.pc + |ExprCode(t, env, m) + MoveTo(m, ExprReg(t, env, m))| + 1 + over, m)
    decreases t, 5
  {
    CodeAtOne(code, c.pc, ExprCode(t, env, m) + MoveTo(m, ExprReg(t, env, m)), Jmp(over));
    hide Ready, Kept, Steps, Unwind, Agrees, CodeAt;
    c1, k := SimArm(ops, code, t, env, m, st, c);
    if Eval(ops, t, st).Ok? {
      var c2 := JumpLast(ops, code, c, k, c1, m, true, over);
      c1, k := c2, k + 1;
    }
  }

  lemma {:induction false} ConditionLayout(code: seq<Instr>, pos: int, e: Expr, env: Scope, m: nat)
    requires |env.names| == |env.regs| && e.Condition? && CodeAt(code, pos, ExprCode(e, env, m))
    ensures
      var test := ExprCode(e.cond, env, m);
      var yes := ExprCode(e.truth, env, m) + MoveTo(m, ExprReg(e.truth, env, m));
      var no := ExprCode(e.falsy, env, m) + MoveTo(m, ExprReg(e.falsy, env, m));
      var at := pos + |test|;
      && CodeAt(code, pos, test)
      && 0 <= at < |code| && code[at] == Branch(true, ExprReg(e.cond, env, m), |yes| + 1)
      && CodeAt(code, at + 1, yes + [Jmp(|no|)])
      && CodeAt(code, at + 1 + |yes| + 1, no)
      && |ExprCode(e, env, m)| == |test| + 1 + |yes| + 1 + |no|
  {
    var test := ExprCode(e.cond, env, m);
    var yes := ExprCode(e.truth, env, m) + MoveTo(m, ExprReg(e.truth, env, m));
    var no := ExprCode(e.falsy, env, m) + MoveTo(m, ExprReg(e.falsy, env, m));
    var j := Branch(true, ExprReg(e.cond, env, m), |yes| + 1);
    assert ExprCode(e, env, m) == test + [j] + (yes + [Jmp(|no|)]) + no;
    hide CodeAt, ExprCode, MoveTo, ExprReg;
    CodeAtSplit(code, pos, test + [j] + (yes + [Jmp(|no|)]), no);
    CodeAtSplit(code, pos, test + [j], yes + [Jmp(|no|)]);
    CodeAtOne(code, pos, test, j);
  }

  /** Either arm, entered where the test jumped to, ends at the same place. */
  lemma {:induction false} SimArms(ops: Ops, code: seq<Instr>, t: Expr, f: Expr, falsey: bool, env: Scope, m: nat, st: State, c: Config, end: int) returns (c1: Config, k: nat)
    requires Ready(env, m, st, c)
    requires
      var yes := ExprCode(t, env, m) + MoveTo(m, ExprReg(t, env, m));
      var no := ExprCode(f, env, m) + MoveTo(m, ExprReg(f, env, m));
      && (falsey ==> CodeAt(code, c.pc, no) && end == c.pc + |no|)
      && (!falsey ==> CodeAt(code, c.pc, yes + [Jmp(|no|)]) && end == c.pc + |yes| + 1 + |no|)
    ensures Computes(ops, code, c, k, c1, Eval(ops, if falsey then f else t, st), m, end, m)
    decreases if falsey then f else t, 6
  {
    assert |env.names| == |env.regs|;
    hide Ready, Kept, Steps, Unwind, Agrees, CodeAt, ExprCode, Eval, MoveTo, Computes;
    if falsey {
      c1, k := SimArm(ops, code, f, env, m, st, c);
    } else {
      c1, k := SimTruth(ops, code, t, env, m, st, c, |ExprCode(f, env, m) + MoveTo(m, ExprReg(f, env, m))|);
    }
  }

  lemma {:induction false} SimCondition(ops: Ops, code: seq<Instr>, e: Expr, env: Scope, m: nat, st: State, c: Config) returns (c1: Config, k: nat)
    requires Ready(env, m, st, c)
    requires e.Condition? && CodeAt(code, c.pc, ExprCode(e, env, m))
    ensures Computes(ops, code, c, k, c1, Eval(ops, e, st), m, c.pc + |ExprCode(e, env, m)|, m)
    decreases e, 2
  {
    hide *;
    ReadyFacts(env, m, st, c);
    ConditionLayout(code, c.pc, e, env, m);
    EvalCondition(ops, e, st);
    c1, k := SimExpr(ops, code, e.cond, env, m, st, c);
    ComputesCases(ops, code, c, k, c1, Eval(ops, e.cond, st), ExprReg(e.cond, env, m), c.pc + |ExprCode(e.cond, env, m)|, m, c.pc + |ExprCode(e, env, m)|);
    if Eval(ops, e.cond, st).Ok? {
      var t, f := e.truth, e.falsy;
      var v := Eval(ops, e.cond, st).v;
      var yes := ExprCode(t, env, m) + MoveTo(m, ExprReg(t, env, m));
      var c2 := BranchLast(ops, code, c, k, c1, m, true, ExprReg(e.cond, env, m), |yes| + 1);
      KeptReady(env, m, st, c, c2, m);
      var arm := if Falsey(v) then f else t;
      var end := c.pc + |ExprCode(e, env, m)|;
      var c3, k3 := SimArms(ops, code, t, f, Falsey(v), env, m, st, c2, end);
      Chain(ops, code, c, k + 1, c2, k3, c3, Eval(ops, arm, st), m, end, m, m);
      c1, k := c3, k + 1 + k3;
    }
  }

  lemma {:induction false} EvalCondition(ops: Ops, e: Expr, st: State)
    requires st.Valid() && e.Condition?
    ensures var r := Eval(ops, e.cond, st);
            Eval(ops, e, st) == if r.Err? then r else if Falsey(r.v) then Eval(ops, e.falsy, st) else Eval(ops, e.truth, st)
  {
  }

  /** A computation that succeeds stops at its end with its value; one that fails may be said
      to end anywhere. */
  lemma {:induction false} ComputesCases(ops: Ops, code: seq<Instr>, c: Config, k: nat, c1: Config, r: Result, reg: Reg, end: int, m: nat, other: int)
    requires Computes(ops, code, c, k, c1, r, reg, end, m)
    ensures Kept(c, c1, m)
    ensures r.Ok? ==> c1.pc == end && Get(c1.regs, reg) == r.v && Steps(ops, code, Running(c), k) == Running(c1)
    ensures r.Err? ==> Computes(ops, code, c, k, c1, r, m, other, m)
  {
  }
}
