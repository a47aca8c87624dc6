/** Runs of a function at any depth of self-recursion, against an environment that may do whatever it likes with what it has been given. */
module Runs {
  // The environment is everything outside the function: unknown callees, operator overloads,
  // closures, other code. It can hand back plain values, the function itself, new objects, and
  // any object that has been let out; and through an open upvalue it can read and overwrite the
  // captured register. An instruction that raises inside a `catch` body leaves its destination
  // alone, and the error lands in the variable of the `catch`. Each activation has its own
  // registers.

  import opened Shapes
  import opened Flow
  import opened Escape

  datatype Val = Plain | SelfFn | Ref(id: nat)

  datatype Frame = Frame(ip: nat, regs: seq<Val>, open: set<Reg>)

  /** `escaped` holds the objects that have been let out; ids from `next` on are unused. */
  datatype State = State(frames: seq<Frame>, escaped: set<nat>, next: nat)

  /** The field names that are no method of an object's class, per object. */
  type Fields = nat -> set<string>

  function At(f: Frame, r: Reg): Val {
    if r < |f.regs| then f.regs[r] else Plain
  }

  function Top(st: State): Frame
    requires st.frames != []
  {
    st.frames[|st.frames| - 1]
  }

  /** An argument with no parameter register of its own: a variadic function collects it
      into a list. */
  predicate Collected(p: Proto, k: nat) {
    p.variadic && k + 1 >= p.arity
  }

  /** Whether executing the instruction at `f.ip` lets out what `r` holds. */
  predicate Leaks(p: Proto, fields: Fields, f: Frame, r: Reg)
    requires f.ip < |p.code|
  {
    var i := p.code[f.ip];
    || CapturesReg(i, r)
    || match i
       case Call(_, func, n) =>
         if At(f, func) == SelfFn then func < r <= func + n && Collected(p, r - func - 1)
         else EscapingRead(i, r)
       case GetField(_, obj, name) =>
         r == obj && !(At(f, obj).Ref? && name in fields(At(f, obj).id))
       case Equality(_, _, b) => At(f, b) != Plain && EscapingRead(i, r)
       case _ => EscapingRead(i, r)
  }

  ghost predicate LeakedNow(p: Proto, fields: Fields, st: State, id: nat) {
    && st.frames != []
    && Top(st).ip < |p.code|
    && exists r :: Leaks(p, fields, Top(st), r) && At(Top(st), r) == Ref(id)
  }

  ghost predicate SeenThroughUpvalue(st: State, id: nat) {
    exists k: nat, c :: k < |st.frames| && c in st.frames[k].open && At(st.frames[k], c) == Ref(id)
  }

  /** What has been let out after a step: everything let out before, what the step lets
      out, and possibly new objects and objects an open upvalue shows. */
  ghost predicate LetsOut(p: Proto, fields: Fields, st: State, st': State) {
    && st.next <= st'.next
    && st.escaped <= st'.escaped
    && (forall id :: LeakedNow(p, fields, st, id) ==> id in st'.escaped)
    && (forall id :: id in st'.escaped ==>
          && id < st'.next
          && (id in st.escaped || st.next <= id || LeakedNow(p, fields, st, id) || SeenThroughUpvalue(st, id)))
  }

  /** A value the environment can produce. */
  predicate FromOutside(st: State, st': State, v: Val) {
    v.Ref? ==> v.id in st'.escaped || st.next <= v.id < st'.next
  }

  /** Instructions that run no other code. */
  predicate Quiet(i: Shape) {
    i.LoadPlain? || i.Move?
  }

  /** The value an instruction other than a self-recursive call leaves in its destination. */
  predicate Produces(p: Proto, st: State, st': State, f: Frame, v: Val)
    requires f.ip < |p.code|
  {
    var i := p.code[f.ip];
    if i.Move? then v == At(f, i.src)
    else if i.LoadPlain? then v == Plain
    else if i.GetGlobal? && i.name == p.name && !p.isMethod then v == SelfFn
    else FromOutside(st, st', v)
  }

  /** Instructions an error can end: not the quiet ones, nor one that closes upvalues, nor a read
      of the name the function itself is bound to. */
  predicate MayRaise(p: Proto, i: Shape) {
    !Quiet(i) && !i.CloseUpvalues? && !(i.GetGlobal? && i.name == p.name && !p.isMethod)
  }

  function OpenAfter(i: Shape, open: set<Reg>): set<Reg> {
    match i
    case Closure(_, captures) => open + captures
    case CloseUpvalues(from) => set r | r in open && r < from
    case _ => open
  }

  /** `f'` is `f` after its instruction, with `v` in the destination. */
  ghost predicate Advances(p: Proto, st: State, st': State, f: Frame, f': Frame, v: Val)
    requires f.ip < |p.code|
  {
    var i := p.code[f.ip];
    && f'.ip in Successors(p, f.ip)
    && |f'.regs| == |f.regs|
    && f'.open == OpenAfter(i, f.open)
    && forall r: Reg :: r < |f.regs| ==>
         if Dst(i) == Some(r) then At(f', r) == v
         else At(f', r) == At(f, r) || (!Quiet(i) && r in f.open && FromOutside(st, st', At(f', r)))
  }

  /** `f'` is `f` after its instruction raised an error that is caught here. */
  ghost predicate Lands(p: Proto, st: State, st': State, f: Frame, f': Frame)
    requires f.ip < |p.code|
  {
    var caught := CaughtAt(p, f.ip);
    && MayRaise(p, p.code[f.ip])
    && caught.Some? && f'.ip == caught.value.resume < |p.code|
    && |f'.regs| == |f.regs|
    && f'.open == f.open
    && forall r: Reg :: r < |f.regs| ==>
         if caught.value.variable == Some(r) then FromOutside(st, st', At(f', r))
         else At(f', r) == At(f, r) || (r in f.open && FromOutside(st, st', At(f', r)))
  }

  /** A frame waiting for a call: only registers behind open upvalues may change. */
  ghost predicate Waits(st: State, st': State, f: Frame, f': Frame) {
    && f'.ip == f.ip && f'.open == f.open && |f'.regs| == |f.regs|
    && forall r: Reg :: r < |f.regs| ==>
         At(f', r) == At(f, r) || (r in f.open && FromOutside(st, st', At(f', r)))
  }

  ghost predicate WaitsBelow(st: State, st': State, n: nat)
    requires n <= |st.frames| && n <= |st'.frames|
  {
    forall k: nat :: k < n ==> Waits(st, st', st.frames[k], st'.frames[k])
  }

  predicate IsSelfCallNow(p: Proto, f: Frame) {
    f.ip < |p.code| && p.code[f.ip].Call? && At(f, p.code[f.ip].func) == SelfFn
  }

  ghost predicate LocalStep(p: Proto, st: State, st': State) {
    var n := |st.frames|;
    && n > 0 && |st'.frames| == n
    && Top(st).ip < |p.code|
    && !p.code[Top(st).ip].Return?
    && !IsSelfCallNow(p, Top(st))
    && WaitsBelow(st, st', n - 1)
    && (Lands(p, st, st', Top(st), Top(st')) || Completes(p, st, st'))
  }

  ghost predicate Completes(p: Proto, st: State, st': State)
    requires st.frames != [] && st'.frames != [] && Top(st).ip < |p.code|
  {
    exists v :: Produces(p, st, st', Top(st), v) && Advances(p, st, st', Top(st), Top(st'), v)
  }

  /** The registers a self-recursive call starts with. */
  ghost predicate Receives(p: Proto, st: State, st': State, f: Frame, callee: Frame)
    requires f.ip < |p.code| && p.code[f.ip].Call?
  {
    var i := p.code[f.ip];
    && callee.ip == 0 && callee.open == {} && |callee.regs| == p.numRegs
    && forall r: Reg :: r < p.numRegs ==>
         if Collected(p, r) then FromOutside(st, st', At(callee, r))
         else At(callee, r) == if r < i.numArgs then At(f, i.func + 1 + r) else Plain
  }

  ghost predicate SelfCallStep(p: Proto, st: State, st': State) {
    var n := |st.frames|;
    && n > 0 && |st'.frames| == n + 1
    && IsSelfCallNow(p, Top(st))
    && st'.frames[..n] == st.frames
    && Receives(p, st, st', Top(st), st'.frames[n])
  }

  /** What a call leaves in its caller: the value returned. */
  predicate HandsBack(p: Proto, st: State, v: Val)
    requires st.frames != [] && Top(st).ip < |p.code|
  {
    var i := p.code[Top(st).ip];
    i.Return? && v == At(Top(st), i.src)
  }

  /** The top activation ends, by returning or by an error that unwinds it; its caller, if
      there is one, goes on after the call or where it catches the error. */
  ghost predicate EndStep(p: Proto, st: State, st': State) {
    var n := |st.frames|;
    && n > 0 && |st'.frames| == n - 1
    && Top(st).ip < |p.code|
    && (n > 1 ==>
          && st.frames[n - 2].ip < |p.code|
          && WaitsBelow(st, st', n - 2)
          && (Lands(p, st, st', st.frames[n - 2], st'.frames[n - 2]) || Resumes(p, st, st')))
  }

  /** The caller of the activation on top goes on after its call. */
  ghost predicate Resumes(p: Proto, st: State, st': State)
    requires |st.frames| > 1 && |st'.frames| == |st.frames| - 1 && Top(st).ip < |p.code| && st.frames[|st.frames| - 2].ip < |p.code|
  {
    var k := |st.frames| - 2;
    exists v :: HandsBack(p, st, v) && Advances(p, st, st', st.frames[k], st'.frames[k], v)
  }

  ghost predicate Step(p: Proto, fields: Fields, st: State, st': State) {
    && LetsOut(p, fields, st, st')
    && (LocalStep(p, st, st') || SelfCallStep(p, st, st') || EndStep(p, st, st'))
  }

  /** One activation, just called from outside. */
  ghost predicate Starts(p: Proto, st: State) {
    && |st.frames| == 1
    && st.frames[0].ip == 0 && st.frames[0].open == {} && |st.frames[0].regs| == p.numRegs
    && (forall id :: id in st.escaped ==> id < st.next)
    && (forall r: Reg :: At(st.frames[0], r).Ref? ==> At(st.frames[0], r).id < st.next)
  }

  ghost predicate IsRun(p: Proto, fields: Fields, run: seq<State>) {
    && |run| > 0
    && Starts(p, run[0])
    && forall k: nat :: k + 1 < |run| ==> StepAt(p, fields, run, k)
  }

  ghost predicate StepAt(p: Proto, fields: Fields, run: seq<State>, k: nat)
    requires k + 1 < |run|
  {
    Step(p, fields, run[k], run[k + 1])
  }
}
