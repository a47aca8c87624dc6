/** The register bytecode. */
module Bytecode {
  // Registers and jump offsets are unbounded, a constant-pool operand is the constant itself,
  // and instructions that differ only in an operator share a constructor.

  import opened Shapes
  import opened Values

  datatype Instr =
    | LoadConst(dst: Reg, val: Value)
    | LoadNil(dst: Reg)
    | LoadBool(dst: Reg, flag: bool)
    | Copy(dst: Reg, src: Reg)
    | Arith(op: BinOp, dst: Reg, a: Reg, b: Reg)
    | ArithImm(op: BinOp, dst: Reg, a: Reg, imm: int)
    | Compare(cmp: CmpOp, dst: Reg, a: Reg, b: Reg)
    | CompareImm(cmp: CmpOp, dst: Reg, a: Reg, imm: int)
    | Unary(uop: UnOp, dst: Reg, src: Reg)
    | Jmp(offset: int)
    | JmpIfFalse(cond: Reg, offset: int)
    | JmpIfTrue(cond: Reg, offset: int)
    | Ret(src: Reg)
    | Raise(src: Reg)
    | Print(src: Reg)
    | ReadGlobal(dst: Reg, name: string)
    | SetGlobal(name: string, src: Reg)
    | AssignGlobal(name: string, src: Reg)
    | PushCatch(varReg: Option<Reg>, offset: int)
    | PopCatch
    /** Calls, closures, containers, classes, modules and multi-way jumps. */
    | On(obj: ObjectInstr)

  /** What a nested function captures: a register of the function that creates the closure,
      or one of that function's own upvalues passed through. */
  datatype Capture = Local(reg: Reg) | Upvalue(idx: nat)

  datatype JumpKey = KeyNil | KeyBool(b: bool) | KeyNum(n: int) | KeyStr(s: string) | KeyEqInstance

  datatype ObjectInstr =
    | Call(dst: Reg, func: Reg, numArgs: nat)
    | Invoke(dst: Reg, receiver: Reg, name: string, numArgs: nat)
    | InvokeSuper(dst: Reg, superclass: Reg, numArgs: nat)
    | CallSuperCtor(dst: Reg, superclass: Reg, numArgs: nat)
    | Closure(dst: Reg, captures: seq<Capture>)
    | GetUpval(dst: Reg, idx: nat)
    | SetUpval(idx: nat, src: Reg)
    | CloseUpvalues(from: Reg)
    | MakeList(dst: Reg, start: Reg, count: nat)
    | MakeDict(dst: Reg, start: Reg, count: nat)
    | MakeRange(dst: Reg, lower: Reg, upper: Reg)
    | GetField(dst: Reg, receiver: Reg, name: string)
    | SetField(receiver: Reg, name: string, src: Reg)
    | GetIndex(dst: Reg, receiver: Reg, index: Reg)
    | SetIndex(receiver: Reg, index: Reg, src: Reg)
    | GetSlice(dst: Reg, receiver: Reg, lo: Reg, hi: Reg)
    | MakeClass(dst: Reg, parent: Option<Reg>)
    | DeclareField(class_: Reg)
    | SetFieldDefault(class_: Reg)
    | SetFieldInit(class_: Reg, src: Reg)
    | SetMethod(class_: Reg, src: Reg)
    | DeclareStatic(class_: Reg, src: Reg)
    | FinalizeClass(class_: Reg)
    | Import(dst: Reg)
    | ImportAll(module_: Reg)
    | MakePromoted(dst: Reg, module_: Reg)
    | UsingJump(subject: Reg, table: map<JumpKey, nat>)
    | CheckParamType(reg: Reg)
}
