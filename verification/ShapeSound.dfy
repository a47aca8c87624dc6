/** What the analysis sees of an instruction is what the instruction does. */
module ShapeSound {
  // `InstrShapes` says which registers an instruction reads and writes and where it leads; here
  // the machine is asked.

  import opened Shapes
  import opened Bytecode
  import opened Values
  import C = Core
  import opened Machine
  import F = Functions
  import Handlers
  import opened CatchRegions
  import opened InstrShapes
  import EscapeSound

  // The instructions of the machine.

  /** The step completed: control goes on where the flow says, and no register changed but the
      destination. */
  predicate Completed(i: Instr, c: Config, c': Config)
    requires c.pc >= 0
  {
    c'.pc in DirectFlow(c.pc, i) && OnlyChanges(c, c', Dst(ShapeOf(i)))
  }

  /** The step failed: control goes on where the innermost handler says, and no register changed
      but that handler's variable. */
  predicate Failed(i: Instr, c: Config, c': Config) {
    var n := |c.handlers|;
    CanFail(i) && n > 0 && c'.pc == c.handlers[n - 1].resume && OnlyChanges(c, c', c.handlers[n - 1].varReg)
  }

  predicate OnlyChanges(c: Config, c': Config, dst: Option<Reg>) {
    forall r: Reg | r in c.regs.Keys + c'.regs.Keys :: Get(c'.regs, r) == Get(c.regs, r) || dst == Some(r)
  }

  lemma {:induction false} StoreChanges(c: Config, d: Reg, x: C.Result)
    ensures
      var m := Store(c, d, x);
      && (x.Ok? ==> m.Running? && m.c.pc == c.pc + 1 && OnlyChanges(c, m.c, Some(d)))
      && (x.Err? ==> m == Unwind(c, x.err))
  {
  }

  lemma {:induction false} UnwindChanges(c: Config, err: Value)
    ensures
      var m, n := Unwind(c, err), |c.handlers|;
      m.Running? ==> n > 0 && m.c.pc == c.handlers[n - 1].resume && OnlyChanges(c, m.c, c.handlers[n - 1].varReg)
  {
  }

  lemma {:induction false} KeepChanges(c: Config, pc: int, hs: seq<Handler>, globals: map<string, Value>, output: seq<Value>, dst: Option<Reg>)
    ensures OnlyChanges(c, Config(pc, c.regs, hs, globals, output), dst)
  {
  }

  /** A step of an instruction without a destination that does not fail. */
  lemma {:induction false} OthersFollowShapes(ops: C.Ops, code: seq<Instr>, c: Config)
    requires 0 <= c.pc < |code| && Dst(ShapeOf(code[c.pc])).None? && !CanFail(code[c.pc])
    ensures
      var m := Step(ops, code, Running(c));
      m.Running? ==> Completed(code[c.pc], c, m.c)
  {
    hide Store, Unwind, OnlyChanges, Get;
    forall pc: int, hs: seq<Handler>, globals: map<string, Value>, output: seq<Value> { KeepChanges(c, pc, hs, globals, output, None); }
  }

  /** Every step of the machine is of one of the two kinds. */
  lemma {:induction false} StepsFollowShapes(ops: C.Ops, code: seq<Instr>, c: Config)
    requires 0 <= c.pc < |code|
    ensures
      var m := Step(ops, code, Running(c));
      m.Running? ==> Completed(code[c.pc], c, m.c) || Failed(code[c.pc], c, m.c)
  {
    hide Store, Unwind, OnlyChanges, Get;
    forall d: Reg, x: C.Result { StoreChanges(c, d, x); }
    forall err: Value { UnwindChanges(c, err); }
    if code[c.pc].AssignGlobal? {
      var name := code[c.pc].name;
      KeepChanges(c, c.pc + 1, c.handlers, c.globals[name := Get(c.regs, code[c.pc].src)], c.output, None);
    } else if Dst(ShapeOf(code[c.pc])).None? && !CanFail(code[c.pc]) {
      OthersFollowShapes(ops, code, c);
    }
  }

  /** The destination gets what the shape says: a copy of the source of a move, nil or a bool, the
      value of the global, the answer to the comparison. */
  lemma {:induction false} ValuesFollowShapes(ops: C.Ops, code: seq<Instr>, c: Config)
    requires 0 <= c.pc < |code| && !CanFail(code[c.pc])
    ensures
      var m, i := Step(ops, code, Running(c)), ShapeOf(code[c.pc]);
      && (i.Move? ==> m.Running? && Get(m.c.regs, i.dst) == Get(c.regs, i.src))
      && (i.LoadPlain? ==> m.Running? && (Get(m.c.regs, i.dst).Nil? || Get(m.c.regs, i.dst).Bool?))
  {
  }

  lemma {:induction false} AnswersFollowShapes(ops: C.Ops, code: seq<Instr>, c: Config)
    requires 0 <= c.pc < |code| && c.handlers == []
    ensures
      var m, i := Step(ops, code, Running(c)), ShapeOf(code[c.pc]);
      && (i.GetGlobal? ==> (m.Running? <==> i.name in c.globals) && (m.Running? ==> Get(m.c.regs, i.dst) == c.globals[i.name]))
      && (i.Equality? ==> exists cmp: CmpOp :: (cmp.Eq? || cmp.Neq?) &&
                            m == Store(c, i.dst, ops.cmp(cmp, Get(c.regs, i.a), Get(c.regs, i.b))))
      && (i.Return? ==> m == Halted(C.Returned(Get(c.regs, i.src)), c.globals, c.output))
  {
    if code[c.pc].Compare? {
      var cmp := code[c.pc].cmp;
      assert cmp.Eq? || cmp.Neq? || ShapeOf(code[c.pc]).Other?;
    }
  }

  /** The kinds of shape the analysis treats on their own are those instructions, no more and no
      fewer, with their operands. */
  lemma {:induction false} KindsAreKept(i: Instr)
    ensures ShapeOf(i).Move? <==> i.Copy?
    ensures ShapeOf(i).LoadPlain? <==> i.LoadNil? || i.LoadBool?
    ensures ShapeOf(i).GetGlobal? <==> i.ReadGlobal?
    ensures ShapeOf(i).Return? <==> i.Ret?
    ensures ShapeOf(i).Equality? <==> i.Compare? && (i.cmp.Eq? || i.cmp.Neq?)
    ensures ShapeOf(i).Call? <==> i.On? && i.obj.Call?
    ensures ShapeOf(i).Closure? <==> i.On? && i.obj.Closure?
    ensures ShapeOf(i).CloseUpvalues? <==> i.On? && i.obj.CloseUpvalues?
    ensures ShapeOf(i).GetField? <==> i.On? && i.obj.GetField?
    ensures i.On? && i.obj.Call? ==> ShapeOf(i).func == i.obj.func && ShapeOf(i).numArgs == i.obj.numArgs
    ensures i.On? && i.obj.Closure? ==> forall r: Reg :: r in ShapeOf(i).captures <==> Local(r) in i.obj.captures
    ensures i.On? && i.obj.CloseUpvalues? ==> ShapeOf(i).from == i.obj.from
    ensures i.On? && i.obj.GetField? ==> ShapeOf(i).obj == i.obj.receiver && ShapeOf(i).name == i.obj.name
  {
    if i.On? && i.obj.Closure? {
      forall r: Reg ensures r in ShapeOf(i).captures <==> Local(r) in i.obj.captures {
        assert Local(r) in i.obj.captures ==> Local(r).Local? && Local(r).reg == r;
      }
    }
  }

  /** The machine with another value in `r`. */
  function With(c: Config, r: Reg, v: Value): Config {
    c.(regs := c.regs[r := v])
  }

  /** Two outcomes that differ at most in what `r` holds. */
  predicate AlikeBut(m: Status, m': Status, r: Reg) {
    match (m, m')
    case (Running(c), Running(c')) =>
      && c.pc == c'.pc && c.handlers == c'.handlers && c.globals == c'.globals && c.output == c'.output
      && forall q: Reg | q in c.regs.Keys + c'.regs.Keys :: q != r ==> Get(c.regs, q) == Get(c'.regs, q)
    case _ => m == m'
  }

  /** A register that is none of an instruction's uses does not matter to its step: so every way
      for a value to get anywhere is one of the uses that are judged. */
  lemma {:induction false} UnusedDoesNotMatter(ops: C.Ops, code: seq<Instr>, c: Config, r: Reg, v: Value)
    requires 0 <= c.pc < |code| && !Uses(code[c.pc], r)
    ensures
      var m, m' := Step(ops, code, Running(c)), Step(ops, code, Running(With(c, r, v)));
      && AlikeBut(m, m', r)
      && (m.Running? && Dst(ShapeOf(code[c.pc])) == Some(r) && !CanFail(code[c.pc]) ==> Get(m.c.regs, r) == Get(m'.c.regs, r))
  {
    OthersSame(c, r, v);
    hide Store, Unwind, AlikeBut, Get;
    forall d: Reg, x: C.Result { StoreAlike(c, d, x, r, v); }
    forall err: Value { UnwindAlike(c, err, r, v); }
    forall pc: int, hs: seq<Handler>, globals: map<string, Value>, output: seq<Value> { KeepAlike(c, r, v, pc, hs, globals, output); }
    forall m: Status | !m.Running? ensures AlikeBut(m, m, r) { EndAlike(m, r); }
  }

  lemma {:induction false} KeepAlike(c: Config, r: Reg, v: Value, pc: int, hs: seq<Handler>, globals: map<string, Value>, output: seq<Value>)
    ensures AlikeBut(Running(Config(pc, c.regs, hs, globals, output)), Running(Config(pc, With(c, r, v).regs, hs, globals, output)), r)
  {
  }

  lemma {:induction false} EndAlike(m: Status, r: Reg)
    requires !m.Running?
    ensures AlikeBut(m, m, r)
  {
  }

  lemma {:induction false} StoreAlike(c: Config, d: Reg, x: C.Result, r: Reg, v: Value)
    ensures AlikeBut(Store(c, d, x), Store(With(c, r, v), d, x), r)
    ensures x.Ok? && d == r ==> Store(c, d, x).Running? && Store(With(c, r, v), d, x).Running? && Get(Store(c, d, x).c.regs, r) == Get(Store(With(c, r, v), d, x).c.regs, r)
  {
  }

  lemma {:induction false} UnwindAlike(c: Config, err: Value, r: Reg, v: Value)
    ensures AlikeBut(Unwind(c, err), Unwind(With(c, r, v), err), r)
  {
  }

  lemma {:induction false} OthersSame(c: Config, r: Reg, v: Value)
    ensures forall q: Reg :: q != r ==> Get(With(c, r, v).regs, q) == Get(c.regs, q)
  {
  }

  // Where control goes.

  /** Some machine goes from `i` at `ip` to `t` without an error. */
  ghost predicate CanGo(i: Instr, ip: nat, t: int) {
    exists ops: C.Ops, code: seq<Instr>, c: Config :: GoesTo(ops, code, c, i, ip, t)
  }

  predicate GoesTo(ops: C.Ops, code: seq<Instr>, c: Config, i: Instr, ip: nat, t: int) {
    && c.pc == ip < |code| && code[ip] == i
    && (c.handlers == [] || i.PopCatch?)
    && Step(ops, code, Running(c)).Running? && Step(ops, code, Running(c)).c.pc == t
  }

  /** The flow of an instruction is exactly where it can go; only after a `raise` the next
      instruction counts as reached although it is not. */
  lemma {:induction false} FlowIsExact(i: Instr, ip: nat, t: int)
    requires !i.On?
    ensures t in DirectFlow(ip, i) <==> CanGo(i, ip, t) || (i.Raise? && t == ip + 1)
  {
    if t in DirectFlow(ip, i) && !i.Raise? { FlowIsTaken(i, ip, t); }
    if ops: C.Ops, code: seq<Instr>, c: Config :| GoesTo(ops, code, c, i, ip, t) {
      StepsFollowShapes(ops, code, c);
    }
  }

  lemma {:induction false} FlowIsTaken(i: Instr, ip: nat, t: int)
    requires !i.On? && !i.Raise? && t in DirectFlow(ip, i)
    ensures CanGo(i, ip, t)
  {
    var ops := C.Ops((op, a, b) => C.Ok(Nil), (op, a, b) => C.Ok(Nil), (op, a) => C.Ok(Nil));
    var code := seq(ip + 1, _ => i);
    var falsey := i.JmpIfFalse? && t == ip + 1 + i.offset;
    var cond := Bool(if i.JmpIfFalse? then t != ip + 1 + i.offset else t == if i.JmpIfTrue? then ip + 1 + i.offset else 0);
    var regs := if i.JmpIfFalse? || i.JmpIfTrue? then map[i.cond := cond] else map[];
    var globals := if i.ReadGlobal? || i.AssignGlobal? then map[i.name := Nil] else map[];
    var c := Config(ip, regs, if i.PopCatch? then [Handler(0, None)] else [], globals, []);
    assert GoesTo(ops, code, c, i, ip, t);
  }

  // Runs of compiled functions.

  /** Every step in every run of a compiled function is one the analysis knows of: control follows
      an edge of the flow it is given, and either no register changed but the destination, or the
      instruction failed where the code says an error is caught, and no register changed but the
      variable named there. */
  lemma {:induction false} RunsFollowShapes(ops: C.Ops, name: string, params: seq<string>, body: C.Stmt, numRegs: nat, c: Config, n: nat)
    requires C.Fits(body, false, false) && c.pc == 0 && c.handlers == []
    requires Steps(ops, F.FunctionCode(params, body), Running(c), n + 1).Running?
    ensures
      var code := F.FunctionCode(params, body);
      var p := ProtoOf(name, code, numRegs, |params|, false, false, false);
      var m, m' := Steps(ops, code, Running(c), n), Steps(ops, code, Running(c), n + 1);
      && m.Running? && m.c.pc >= 0 && m'.c.pc >= 0 && m'.c.pc in Successors(p, m.c.pc)
      && (|| OnlyChanges(m.c, m'.c, Dst(p.code[m.c.pc]))
          || (CaughtAt(p, m.c.pc).Some? && m'.c.pc == CaughtAt(p, m.c.pc).value.resume
              && OnlyChanges(m.c, m'.c, CaughtAt(p, m.c.pc).value.variable)))
  {
    var code := F.FunctionCode(params, body);
    var m := Steps(ops, code, Running(c), n);
    StepsAdd(ops, code, Running(c), n, 1);
    OneStep(ops, code, m);
    ErrorsAreCaught(ops, params, body, c, n);
    ErrorsAreCaught(ops, params, body, c, n + 1);
    hide *;
    StepsFollowShapes(ops, code, m.c);
    StepIsKnown(name, code, numRegs, |params|, m.c, Steps(ops, code, Running(c), n + 1).c);
  }

  lemma {:induction false} OneStep(ops: C.Ops, code: seq<Instr>, m: Status)
    ensures Steps(ops, code, m, 1) == Step(ops, code, m) && (Step(ops, code, m).Running? ==> m.Running?)
  {
    assert Steps(ops, code, m, 1) == Steps(ops, code, Step(ops, code, m), 0);
  }

  lemma {:induction false} StepIsKnown(name: string, code: seq<Instr>, numRegs: nat, arity: nat, c: Config, c': Config)
    requires 0 <= c.pc < |code| && 0 <= c'.pc < |code| && (Completed(code[c.pc], c, c') || Failed(code[c.pc], c, c'))
    requires CanFail(code[c.pc]) ==> CaughtBy(CatchResume(code, c.pc, |code|), c.handlers)
    ensures
      var p := ProtoOf(name, code, numRegs, arity, false, false, false);
      && c'.pc in Successors(p, c.pc)
      && (|| OnlyChanges(c, c', Dst(p.code[c.pc]))
          || (CaughtAt(p, c.pc).Some? && c'.pc == CaughtAt(p, c.pc).value.resume && OnlyChanges(c, c', CaughtAt(p, c.pc).value.variable)))
  {
    hide CanFail, OnlyChanges, CatchResume, DirectFlow, ShapeOf;
    var p := ProtoOf(name, code, numRegs, arity, false, false, false);
    var caught := CatchResume(code, c.pc, |code|);
    assert p.catches[c.pc] == caught && p.flow[c.pc] == FlowOf(code, c.pc) && p.code[c.pc] == ShapeOf(code[c.pc]);
  }

  /** What is known of compiled code as the analysis takes it: where errors are caught is where
      control may go. */
  lemma {:induction false} CatchesAreKnown(name: string, code: seq<Instr>, numRegs: nat, arity: nat, variadic: bool, isMethod: bool, hasOwningClass: bool)
    ensures EscapeSound.CatchesAreEdges(ProtoOf(name, code, numRegs, arity, variadic, isMethod, hasOwningClass))
  {
    hide CatchResume, DirectFlow;
    var p := ProtoOf(name, code, numRegs, arity, variadic, isMethod, hasOwningClass);
    forall ip: nat | ip < |p.code| && CaughtAt(p, ip).Some? && CaughtAt(p, ip).value.resume < |p.code|
      ensures CaughtAt(p, ip).value.resume in Successors(p, ip)
    {
      assert p.catches[ip] == CatchResume(code, ip, |code|) && p.flow[ip] == FlowOf(code, ip);
    }
  }

  // The other instructions.

  /** Object instructions that leave nothing in a register of their own. */
  predicate LeavesNothing(o: ObjectInstr) {
    o.SetUpval? || o.CloseUpvalues? || o.SetField? || o.SetIndex? || o.DeclareField? || o.SetFieldDefault? || o.SetFieldInit? || o.SetMethod?
    || o.DeclareStatic? || o.FinalizeClass? || o.ImportAll? || o.UsingJump? || o.CheckParamType?
  }

  /** The destination an object instruction names. */
  function Target(o: ObjectInstr): Option<Reg> {
    if LeavesNothing(o) then None else Some(o.dst)
  }

  /** A step of an object instruction: it ends, or jumps through its table, and changes only its
      destination and registers other code reaches through open upvalues. */
  predicate ObjectCompletes(o: ObjectInstr, c: Config, c': Config, open: set<Reg>)
    requires c.pc >= 0
  {
    && (c'.pc == c.pc + 1 || (o.UsingJump? && c'.pc in (set k | k in o.table :: o.table[k] as int)))
    && forall r: Reg | r in c.regs.Keys + c'.regs.Keys :: Get(c'.regs, r) == Get(c.regs, r) || Target(o) == Some(r) || r in open
  }

  /** Or it fails, and the innermost handler goes on. */
  predicate ObjectFails(c: Config, c': Config, open: set<Reg>) {
    var n := |c.handlers|;
    && n > 0 && c'.pc == c.handlers[n - 1].resume
    && forall r: Reg | r in c.regs.Keys + c'.regs.Keys :: Get(c'.regs, r) == Get(c.regs, r) || c.handlers[n - 1].varReg == Some(r) || r in open
  }

  /** The shape of an object instruction names that destination, and its flow those places and the
      one where its error is caught. */
  lemma {:induction false} ObjectsFollowShapes(code: seq<Instr>, o: ObjectInstr, c: Config, c': Config, open: set<Reg>)
    requires 0 <= c.pc < |code| && code[c.pc] == On(o)
    ensures Dst(ShapeOf(On(o))) == Target(o)
    ensures ObjectCompletes(o, c, c', open) <==>
            && c'.pc in DirectFlow(c.pc, On(o))
            && forall r: Reg | r in c.regs.Keys + c'.regs.Keys :: Get(c'.regs, r) == Get(c.regs, r) || Dst(ShapeOf(On(o))) == Some(r) || r in open
    ensures
      var caught := CatchResume(code, c.pc, |code|);
      CaughtBy(caught, c.handlers) && ObjectFails(c, c', open) ==>
        && caught.Some? && c'.pc == caught.value.resume && caught.value.resume in FlowOf(code, c.pc)
        && forall r: Reg | r in c.regs.Keys + c'.regs.Keys :: Get(c'.regs, r) == Get(c.regs, r) || caught.value.variable == Some(r) || r in open
  {
  }
}
