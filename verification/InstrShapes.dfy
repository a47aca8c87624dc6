/** Which shape each bytecode instruction has for the escape analysis. */
module InstrShapes {
  import opened Shapes
  import B = Bytecode
  import Escape

  /** `n` consecutive registers from `lo`. */
  function Span(lo: Reg, n: nat): (s: set<Reg>)
    ensures forall r: Reg :: r in s <==> lo <= r < lo + n
  {
    if n == 0 then {} else Span(lo, n - 1) + {lo + n - 1}
  }

  function CapturedLocals(captures: seq<B.Capture>): set<Reg> {
    set c | c in captures && c.Local? :: c.reg
  }

  function ObjectShape(i: B.ObjectInstr): Shape {
    match i
    case Call(d, f, n) => Call(d, f, n)
    case Invoke(d, o, _, n) => Other(Some(d), Span(o, n + 2))
    case InvokeSuper(d, s, n) => Other(Some(d), Span(s, n + 2))
    case CallSuperCtor(d, s, n) => Other(Some(d), Span(s, n + 2))
    case Closure(d, captures) => Closure(d, CapturedLocals(captures))
    case GetUpval(d, _) => Other(Some(d), {})
    case SetUpval(_, s) => Other(None, {s})
    case CloseUpvalues(from) => CloseUpvalues(from)
    case MakeList(d, start, count) => Other(Some(d), Span(start, count))
    case MakeDict(d, start, count) => Other(Some(d), Span(start, 2 * count))
    case MakeRange(d, lo, hi) => Other(Some(d), {lo, hi})
    case GetField(d, o, name) => GetField(d, o, name)
    case SetField(_, _, s) => Other(None, {s})
    case GetIndex(d, _, _) => Other(Some(d), {})
    case SetIndex(_, _, s) => Other(None, {s})
    case GetSlice(d, o, lo, hi) => Other(Some(d), {o, lo, hi})
    case MakeClass(d, parent) => Other(Some(d), if parent.Some? then {parent.value} else {})
    case DeclareField(_) => Other(None, {})
    case SetFieldDefault(_) => Other(None, {})
    case SetFieldInit(_, s) => Other(None, {s})
    case SetMethod(_, s) => Other(None, {s})
    case DeclareStatic(_, s) => Other(None, {s})
    case FinalizeClass(_) => Other(None, {})
    case Import(d) => Other(Some(d), {})
    case ImportAll(m) => Other(None, {m})
    case MakePromoted(d, m) => Other(Some(d), {m})
    case UsingJump(_, _) => Other(None, {})
    case CheckParamType(_) => Other(None, {})
  }

  function ShapeOf(i: B.Instr): Shape {
    match i
    case LoadConst(d, _) => Other(Some(d), {})
    case LoadNil(d) => LoadPlain(d)
    case LoadBool(d, _) => LoadPlain(d)
    case Copy(d, s) => Move(d, s)
    case Arith(_, d, a, b) => Other(Some(d), {a, b})
    case ArithImm(_, d, a, _) => Other(Some(d), {a})
    case Compare(c, d, a, b) => if c.Eq? || c.Neq? then Equality(d, a, b) else Other(Some(d), {a, b})
    case CompareImm(c, d, a, _) => Other(Some(d), if c.Eq? || c.Neq? then {} else {a})
    case Unary(_, d, s) => Other(Some(d), {s})
    case Jmp(_) => Other(None, {})
    case JmpIfFalse(_, _) => Other(None, {})
    case JmpIfTrue(_, _) => Other(None, {})
    case Ret(s) => Return(s)
    case Raise(s) => Other(None, {s})
    case Print(s) => Other(None, {s})
    case ReadGlobal(d, name) => GetGlobal(d, name)
    case SetGlobal(_, s) => Other(None, {s})
    case AssignGlobal(_, s) => Other(None, {s})
    case PushCatch(_, _) => Other(None, {})
    case PopCatch => Other(None, {})
    case On(o) => ObjectShape(o)
  }

  /** What an error raised at `ip` is caught by, when `ip` is inside a `catch` body: bodies nest,
      so the last `PushCatch` whose body covers `ip` is the innermost. */
  function CatchResume(code: seq<B.Instr>, ip: nat, n: nat): Option<Landing>
    requires n <= |code|
  {
    if n == 0 then None
    else
      match code[n - 1]
      case PushCatch(v, offset) =>
        if n <= ip < n + offset - 1 then Some(Landing(n + offset, v)) else CatchResume(code, ip, n - 1)
      case _ => CatchResume(code, ip, n - 1)
  }

  function DirectFlow(ip: nat, i: B.Instr): set<int> {
    match i
    case Jmp(offset) => {ip + 1 + offset}
    case JmpIfFalse(_, offset) => {ip + 1 + offset, ip + 1}
    case JmpIfTrue(_, offset) => {ip + 1 + offset, ip + 1}
    case Ret(_) => {}
    case On(UsingJump(_, table)) => (set k | k in table :: table[k] as int) + {ip + 1}
    case _ => {ip + 1}
  }

  function FlowOf(code: seq<B.Instr>, ip: nat): set<nat>
    requires ip < |code|
  {
    var caught := CatchResume(code, ip, |code|);
    var all := DirectFlow(ip, code[ip]) + if caught.Some? then {caught.value.resume as int} else {};
    set t | t in all && t >= 0
  }

  /** The function the analysis is given. */
  function ProtoOf(name: string, code: seq<B.Instr>, numRegs: nat, arity: nat, variadic: bool, isMethod: bool, hasOwningClass: bool): Proto {
    Proto(name,
          seq(|code|, ip requires 0 <= ip < |code| => ShapeOf(code[ip])),
          seq(|code|, ip requires 0 <= ip < |code| => FlowOf(code, ip)),
          numRegs, arity, variadic, isMethod, hasOwningClass,
          seq(|code|, ip requires 0 <= ip < |code| => CatchResume(code, ip, |code|)))
  }

  /** The registers an instruction reads. */
  predicate Uses(i: B.Instr, r: Reg) {
    match i
    case Copy(_, s) => r == s
    case Arith(_, _, a, b) => r == a || r == b
    case ArithImm(_, _, a, _) => r == a
    case Compare(_, _, a, b) => r == a || r == b
    case CompareImm(_, _, a, _) => r == a
    case Unary(_, _, s) => r == s
    case JmpIfFalse(c, _) => r == c
    case JmpIfTrue(c, _) => r == c
    case Ret(s) => r == s
    case Raise(s) => r == s
    case Print(s) => r == s
    case SetGlobal(_, s) => r == s
    case AssignGlobal(_, s) => r == s
    case On(o) => ObjectUses(o, r)
    case _ => false
  }

  predicate ObjectUses(i: B.ObjectInstr, r: Reg) {
    match i
    case Call(_, f, n) => f <= r <= f + n
    case Invoke(_, o, _, n) => o <= r <= o + n + 1
    case InvokeSuper(_, s, n) => s <= r <= s + n + 1
    case CallSuperCtor(_, s, n) => s <= r <= s + n + 1
    case Closure(_, captures) => B.Local(r) in captures
    case SetUpval(_, s) => r == s
    case CloseUpvalues(from) => from <= r
    case MakeList(_, start, count) => start <= r < start + count
    case MakeDict(_, start, count) => start <= r < start + 2 * count
    case MakeRange(_, lo, hi) => r == lo || r == hi
    case GetField(_, o, _) => r == o
    case SetField(o, _, s) => r == o || r == s
    case GetIndex(_, o, x) => r == o || r == x
    case SetIndex(o, x, s) => r == o || r == x || r == s
    case GetSlice(_, o, lo, hi) => r == o || r == lo || r == hi
    case MakeClass(_, parent) => parent == Some(r)
    case DeclareField(c) => r == c
    case SetFieldDefault(c) => r == c
    case SetFieldInit(c, s) => r == c || r == s
    case SetMethod(c, s) => r == c || r == s
    case DeclareStatic(c, s) => r == c || r == s
    case FinalizeClass(c) => r == c
    case ImportAll(m) => r == m
    case MakePromoted(_, m) => r == m
    case UsingJump(s, _) => r == s
    case CheckParamType(x) => r == x
    case _ => false
  }

  /** The uses verified safe: copies, truth tests, comparisons with a literal, containers
      and index keys, jump-table subjects and type checks. */
  predicate VerifiedSafe(i: B.Instr, r: Reg) {
    match i
    case Copy(_, s) => r == s
    case JmpIfFalse(c, _) => r == c
    case JmpIfTrue(c, _) => r == c
    case CompareImm(c, _, a, _) => r == a && (c.Eq? || c.Neq?)
    case On(o) =>
      (match o
       case CloseUpvalues(from) => from <= r
       case SetField(x, _, s) => r == x && r != s
       case GetIndex(_, x, k) => r == x || r == k
       case SetIndex(x, k, s) => (r == x || r == k) && r != s
       case DeclareField(c) => r == c
       case SetFieldDefault(c) => r == c
       case SetFieldInit(c, s) => r == c && r != s
       case SetMethod(c, s) => r == c && r != s
       case DeclareStatic(c, s) => r == c && r != s
       case FinalizeClass(c) => r == c
       case UsingJump(s, _) => r == s
       case CheckParamType(x) => r == x
       case _ => false)
    case _ => false
  }

  /** Default deny: a register an instruction reads escapes there unless that very use is on
      the verified list, and nothing it does not read is ever flagged. */
  lemma EveryUseIsJudged(i: B.Instr, r: Reg)
    ensures Escape.EscapingRead(ShapeOf(i), r) || Escape.CapturesReg(ShapeOf(i), r) <==> Uses(i, r) && !VerifiedSafe(i, r)
  {
    if i.On? && i.obj.Closure? {
      var captures := i.obj.captures;
      assert B.Local(r) in captures <==> r in CapturedLocals(captures);
    }
  }
}
