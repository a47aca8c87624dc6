/** One activation of the interpreter, on the instructions the compiler model emits. */
module Machine {
  import opened Shapes
  import opened Bytecode
  import opened Values
  import opened Core

  datatype Handler = Handler(resume: int, varReg: Option<Reg>)

  datatype Config = Config(pc: int, regs: map<Reg, Value>, handlers: seq<Handler>, globals: map<string, Value>, output: seq<Value>)

  /** A machine runs, or has ended with what it leaves to the rest of the program. */
  datatype Status =
    | Running(c: Config)
    | Halted(how: Outcome, globals: map<string, Value>, output: seq<Value>)
    | Stuck

  function Get(regs: map<Reg, Value>, r: Reg): Value {
    if r in regs then regs[r] else Nil
  }

  /** An error goes to the innermost handler, or out of the function. */
  function Unwind(c: Config, err: Value): Status {
    var n := |c.handlers|;
    if n == 0 then Halted(Raised(err), c.globals, c.output)
    else
      var h := c.handlers[n - 1];
      Running(c.(pc := h.resume,
                 handlers := c.handlers[..n - 1],
                 regs := if h.varReg.Some? then c.regs[h.varReg.value := err] else c.regs))
  }

  function Store(c: Config, dst: Reg, r: Result): Status {
    match r
    case Ok(v) => Running(c.(pc := c.pc + 1, regs := c.regs[dst := v]))
    case Err(x) => Unwind(c, x)
  }

  function Jump(c: Config, taken: bool, offset: int): Status {
    Running(c.(pc := if taken then c.pc + 1 + offset else c.pc + 1))
  }

  function Step(ops: Ops, code: seq<Instr>, m: Status): Status {
    if !m.Running? then m
    else if !(0 <= m.c.pc < |code|) then Stuck
    else
      var c := m.c;
      match code[c.pc]
      case LoadConst(d, v) => Store(c, d, Ok(v))
      case LoadNil(d) => Store(c, d, Ok(Nil))
      case LoadBool(d, b) => Store(c, d, Ok(Bool(b)))
      case Copy(d, s) => Store(c, d, Ok(Get(c.regs, s)))
      case Arith(op, d, a, b) => Store(c, d, ops.bin(op, Get(c.regs, a), Get(c.regs, b)))
      case ArithImm(op, d, a, imm) => Store(c, d, ops.bin(op, Get(c.regs, a), Num(imm)))
      case Compare(cmp, d, a, b) => Store(c, d, ops.cmp(cmp, Get(c.regs, a), Get(c.regs, b)))
      case CompareImm(cmp, d, a, imm) => Store(c, d, ops.cmp(cmp, Get(c.regs, a), Num(imm)))
      case Unary(op, d, s) => Store(c, d, ops.un(op, Get(c.regs, s)))
      case Jmp(offset) => Jump(c, true, offset)
      case JmpIfFalse(r, offset) => Jump(c, Falsey(Get(c.regs, r)), offset)
      case JmpIfTrue(r, offset) => Jump(c, !Falsey(Get(c.regs, r)), offset)
      case Ret(s) => Halted(Returned(Get(c.regs, s)), c.globals, c.output)
      case Raise(s) => Unwind(c, Thrown(Get(c.regs, s)))
      case Print(s) => Running(c.(pc := c.pc + 1, output := c.output + [Get(c.regs, s)]))
      case ReadGlobal(d, name) => Store(c, d, if name in c.globals then Ok(c.globals[name]) else Err(Undefined))
      case SetGlobal(name, s) => Running(c.(pc := c.pc + 1, globals := c.globals[name := Get(c.regs, s)]))
      case AssignGlobal(name, s) =>
        if name in c.globals then Running(c.(pc := c.pc + 1, globals := c.globals[name := Get(c.regs, s)]))
        else Unwind(c, Undefined)
      case PushCatch(v, offset) => Running(c.(pc := c.pc + 1, handlers := c.handlers + [Handler(c.pc + 1 + offset, v)]))
      case PopCatch =>
        if c.handlers == [] then Stuck
        else Running(c.(pc := c.pc + 1, handlers := c.handlers[..|c.handlers| - 1]))
      case On(_) => Stuck
  }

  function Steps(ops: Ops, code: seq<Instr>, m: Status, n: nat): Status
    decreases n
  {
    if n == 0 then m else Steps(ops, code, Step(ops, code, m), n - 1)
  }

  lemma {:induction false} StepsAdd(ops: Ops, code: seq<Instr>, m: Status, a: nat, b: nat)
    ensures Steps(ops, code, m, a + b) == Steps(ops, code, Steps(ops, code, m, a), b)
    decreases a
  {
    if a > 0 {
      StepsAdd(ops, code, Step(ops, code, m), a - 1, b);
    }
  }

  lemma {:induction false} EndedStays(ops: Ops, code: seq<Instr>, m: Status, n: nat)
    requires !m.Running?
    ensures Steps(ops, code, m, n) == m
    decreases n
  {
    if n > 0 {
      EndedStays(ops, code, m, n - 1);
    }
  }
}
