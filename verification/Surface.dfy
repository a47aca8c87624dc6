/** The language as the parser hands it over, with its loops and shorthands, and what it means. */
module Surface {
  // Every construct that evaluates its parts from left to right and then asks the runtime is one
  // `Op`. The runtime's answers, which may depend on everything it has been asked before, are a
  // parameter; arithmetic on numbers, ranges and comparison with nil are built in.

  import opened Shapes
  import opened Values

  /** Names the lexer produces, and names only the lowering makes up. */
  datatype Name = User(id: string) | Hidden(id: string)

  datatype Kind =
    | Bin(op: BinOp)
    | Cmp(cmp: CmpOp)
    | RangeOf
    | GetField(field: string)
    | SetField(field: string)
    | GetIndex
    | SetIndex
    | Method(name: string)
    | Un(uop: UnOp)
    /** Calls, list and dictionary literals, slices. */
    | Strict(id: nat)

  datatype Expr =
    | Lit(val: Value)
    | Ident(name: Name)
    | Op(kind: Kind, args: seq<Expr>)
    | Circuit(left: Expr, isAnd: bool, right: Expr)
    | Condition(cond: Expr, truth: Expr, falsy: Expr)
    | Assign(target: Expr, value: Expr)
    // Shorthands.
    | CompoundAssign(target: Expr, op: BinOp, value: Expr)
    | Update(target: Expr, increment: bool)
    | Interpolation(segments: seq<Segment>)
    | Shorthand(name: Name)

  datatype Segment = Text(s: string) | Part(e: Expr)

  datatype Stmt =
    | Expression(e: Expr)
    | Echo(e: Expr)
    | Var(name: Name, e: Expr)
    | Block(stmts: seq<Stmt>)
    | If(cond: Expr, thenB: Stmt, elseB: Option<Stmt>)
    | While(cond: Expr, body: Stmt)
    | Break
    | Continue
    | FixContinue
    | Return(e: Expr)
    | Raise(e: Expr)
    | Catch(body: Stmt, handler: Option<Stmt>, binds: Option<Name>)
    // Loops the compiler does not know.
    | For(key: Option<Name>, value: Name, iterable: Expr, body: Stmt)
    | Iter(init: Option<Stmt>, test: Option<Expr>, steps: seq<Expr>, body: Stmt)
    | DoWhile(body: Stmt, until: Expr)

  datatype Binding = Binding(name: Name, val: Value)
  datatype Event = Event(kind: Kind, args: seq<Value>) | Printed(val: Value)

  /** Locals in order of declaration, globals, and everything the runtime was asked. */
  datatype State = State(locals: seq<Binding>, globals: map<Name, Value>, log: seq<Event>)

  /** `Wrong` is where the language makes no promise. */
  datatype Res = Ok(v: Value) | Err(err: Value) | Wrong

  datatype Answer = Answer(res: Res, globals: map<Name, Value>)
  datatype Host = Host(ask: (Kind, seq<Value>, map<Name, Value>, seq<Event>) -> Answer)

  datatype Did = Did(res: Res, st: State)

  // Locals.

  ghost predicate SameNames(a: seq<Binding>, b: seq<Binding>) {
    |a| == |b| && forall i :: 0 <= i < |a| ==> b[i].name == a[i].name
  }

  /** The innermost local of a name. */
  function Lookup(locals: seq<Binding>, name: Name): Option<Value> {
    if locals == [] then None
    else if locals[|locals| - 1].name == name then Some(locals[|locals| - 1].val)
    else Lookup(locals[..|locals| - 1], name)
  }

  function Store(locals: seq<Binding>, name: Name, v: Value): (r: seq<Binding>)
    ensures SameNames(locals, r)
  {
    if locals == [] then []
    else
      var n := |locals| - 1;
      if locals[n].name == name then locals[..n] + [Binding(name, v)]
      else Store(locals[..n], name, v) + [locals[n]]
  }

  function Read(name: Name, st: State): Did {
    var l := Lookup(st.locals, name);
    if l.Some? then Did(Ok(l.value), st)
    else if name in st.globals then Did(Ok(st.globals[name]), st)
    else Did(Err(Undefined), st)
  }

  function Write(name: Name, v: Value, st: State): Did {
    if Lookup(st.locals, name).Some? then Did(Ok(v), st.(locals := Store(st.locals, name, v)))
    else if name in st.globals then Did(Ok(v), st.(globals := st.globals[name := v]))
    else Did(Err(Undefined), st)
  }

  // The runtime.

  /** How many values a range has. */
  function Width(lower: int, upper: int): nat {
    if lower <= upper then upper - lower else lower - upper
  }

  /** A range's `@key`: the index after `k`, from 0 on, or nil after the last. */
  function RangeKey(lower: int, upper: int, k: Value): Res {
    if Width(lower, upper) == 0 then Ok(Nil)
    else
      match k
      case Nil => Ok(Num(0))
      case Num(i) => if i < Width(lower, upper) - 1 then Ok(Num(i + 1)) else Ok(Nil)
      case _ => Err(Error("ArgumentError"))
  }

  /** A range's `@value` at an index. */
  function RangeValue(lower: int, upper: int, k: Value): Res {
    match k
    case Num(i) =>
      if 0 <= i < Width(lower, upper) then Ok(Num(if lower <= upper then lower + i else lower - i))
      else Ok(Nil)
    case _ => Err(Error("ArgumentError"))
  }

  /** What needs no runtime. */
  function BuiltIn(kind: Kind, args: seq<Value>): Option<Res> {
    if |args| != 2 then None
    else
      var a, b := args[0], args[1];
      match kind
      case Bin(Add) => if a.Num? && b.Num? then Some(Ok(Num(a.n + b.n))) else None
      case Bin(Sub) => if a.Num? && b.Num? then Some(Ok(Num(a.n - b.n))) else None
      case Cmp(Eq) => if b.Nil? && !a.Obj? then Some(Ok(Bool(a.Nil?))) else None
      case Cmp(Lt) => if a.Num? && b.Num? then Some(Ok(Bool(a.n < b.n))) else None
      case Cmp(Ge) => if a.Num? && b.Num? then Some(Ok(Bool(a.n >= b.n))) else None
      case RangeOf => if a.Num? && b.Num? then Some(Ok(Span(a.n, b.n))) else None
      case Method(name) =>
        if a.Span? && name == "@key" then Some(RangeKey(a.lower, a.upper, b))
        else if a.Span? && name == "@value" then Some(RangeValue(a.lower, a.upper, b))
        else None
      case _ => None
  }

  function Apply(h: Host, kind: Kind, args: seq<Value>, st: State): Did {
    var known := BuiltIn(kind, args);
    if known.Some? then Did(known.value, st)
    else
      var a := h.ask(kind, args, st.globals, st.log);
      Did(a.res, st.(globals := a.globals, log := st.log + [Event(kind, args)]))
  }

  // Expressions.

  /** How a tree is read: as the language means it; with care, going wrong wherever the pass may
      change the meaning; or as the pass writes it out. */
  datatype Reading = Meant | Careful | WrittenOut

  /** Several expressions from left to right, as far as they go. */
  datatype DidAll = DidAll(vals: seq<Value>, stop: Option<Res>, st: State)

  /** The readings differ in compound assignments only. */
  function Eval(h: Host, reading: Reading, e: Expr, st: State): (d: Did)
    ensures SameNames(st.locals, d.st.locals)
    decreases e, 3
  {
    match e
    case Lit(v) => Did(Ok(v), st)
    case Ident(name) => Read(name, st)
    case Shorthand(name) => Read(name, st)
    case Op(kind, args) =>
      var d := EvalAll(h, reading, args, st);
      if d.stop.Some? then Did(d.stop.value, d.st) else Apply(h, kind, d.vals, d.st)
    case Circuit(a, isAnd, b) =>
      var d := Eval(h, reading, a, st);
      if !d.res.Ok? || Falsey(d.res.v) == isAnd then d else Eval(h, reading, b, d.st)
    case Condition(c, t, f) =>
      var d := Eval(h, reading, c, st);
      if !d.res.Ok? then d else if Falsey(d.res.v) then Eval(h, reading, f, d.st) else Eval(h, reading, t, d.st)
    case Assign(target, value) => EvalAssign(h, reading, e, st)
    case CompoundAssign(_, _, _) => EvalUpdate(h, reading, e, st)
    case Update(_, _) => EvalUpdate(h, reading, e, st)
    case Interpolation(segments) => EvalSegments(h, reading, segments, st)
  }

  function EvalAll(h: Host, reading: Reading, es: seq<Expr>, st: State): (d: DidAll)
    ensures SameNames(st.locals, d.st.locals)
    ensures d.stop.Some? ==> !d.stop.value.Ok?
    ensures d.stop.None? ==> |d.vals| == |es|
    decreases es, 0
  {
    if es == [] then DidAll([], None, st)
    else
      var n := |es| - 1;
      var d := EvalAll(h, reading, es[..n], st);
      if d.stop.Some? then d
      else
        var l := Eval(h, reading, es[n], d.st);
        if l.res.Ok? then DidAll(d.vals + [l.res.v], None, l.st) else DidAll(d.vals, Some(l.res), l.st)
  }

  /** What is written last answers with the value written. */
  function Answering(d: Did, v: Value): Did {
    if d.res.Ok? then Did(Ok(v), d.st) else d
  }

  function EvalAssign(h: Host, reading: Reading, e: Expr, st: State): (d: Did)
    requires e.Assign?
    ensures SameNames(st.locals, d.st.locals)
    decreases e, 0
  {
    match e.target
    case Ident(name) =>
      var d := Eval(h, reading, e.value, st);
      if d.res.Ok? then Write(name, d.res.v, d.st) else d
    case Op(kind, args) =>
      if !(kind.GetField? && |args| == 1) && !(kind.GetIndex? && |args| == 2) then Did(Wrong, st)
      else
        var p := EvalAll(h, reading, args, st);
        if p.stop.Some? then Did(p.stop.value, p.st)
        else
          var d := Eval(h, reading, e.value, p.st);
          if !d.res.Ok? then d
          else Answering(Apply(h, if kind.GetField? then SetField(kind.field) else SetIndex, p.vals + [d.res.v], d.st), d.res.v)
    case _ => Did(Wrong, st)
  }

  /** The operator of a compound assignment, `++` or `--`, and its right operand. */
  function UpdateOp(e: Expr): BinOp
    requires e.CompoundAssign? || e.Update?
  {
    if e.CompoundAssign? then e.op else if e.increment then Add else Sub
  }

  function Operand(h: Host, reading: Reading, e: Expr, st: State): (d: Did)
    requires e.CompoundAssign? || e.Update?
    ensures SameNames(st.locals, d.st.locals)
    decreases e, 0
  {
    if e.CompoundAssign? then Eval(h, reading, e.value, st) else Did(Ok(Num(1)), st)
  }

  /** The value to be written back, when `c` is the value there was. */
  function Combined(h: Host, reading: Reading, e: Expr, c: Value, st: State): (d: Did)
    requires e.CompoundAssign? || e.Update?
    ensures SameNames(st.locals, d.st.locals)
    decreases e, 1
  {
    var v := Operand(h, reading, e, st);
    if v.res.Ok? then Apply(h, Bin(UpdateOp(e)), [c, v.res.v], v.st) else v
  }

  /** `target op= value`: receiver and index are evaluated once. Written out they are evaluated
      again before the place is read; read with care, that goes wrong unless it gives the same and
      leaves everything as it is. */
  function EvalUpdate(h: Host, reading: Reading, e: Expr, st: State): (d: Did)
    requires e.CompoundAssign? || e.Update?
    ensures SameNames(st.locals, d.st.locals)
    decreases e, 2
  {
    match e.target
    case Ident(name) =>
      var c := Read(name, st);
      if !c.res.Ok? then c
      else
        var r := Combined(h, reading, e, c.res.v, c.st);
        if r.res.Ok? then Write(name, r.res.v, r.st) else r
    case Op(kind, args) =>
      if !(kind.GetField? && |args| == 1) && !(kind.GetIndex? && |args| == 2) then Did(Wrong, st)
      else
        var p := EvalAll(h, reading, args, st);
        if p.stop.Some? then Did(p.stop.value, p.st)
        else
          var q := if reading.Meant? then p else EvalAll(h, reading, args, p.st);
          if reading.Careful? && q != p then Did(Wrong, st)
          else if q.stop.Some? then Did(q.stop.value, q.st)
          else
            var c := Apply(h, kind, q.vals, q.st);
            if !c.res.Ok? then c
            else
              var r := Combined(h, reading, e, c.res.v, c.st);
              if r.res.Ok? then Answering(Apply(h, if kind.GetField? then SetField(kind.field) else SetIndex, p.vals + [r.res.v], r.st), r.res.v)
              else r
    case _ => Did(Wrong, st)
  }

  /** An interpolated string: its pieces joined from left to right, each evaluated when its
      turn comes. */
  function EvalSegments(h: Host, reading: Reading, segments: seq<Segment>, st: State): (d: Did)
    ensures SameNames(st.locals, d.st.locals)
    decreases segments, 0
  {
    if segments == [] then Did(Wrong, st)
    else
      var n := |segments| - 1;
      if n == 0 then EvalSegment(h, reading, segments[n], st)
      else
        var d := EvalSegments(h, reading, segments[..n], st);
        if !d.res.Ok? then d
        else
          var p := EvalSegment(h, reading, segments[n], d.st);
          if p.res.Ok? then Apply(h, Bin(Add), [d.res.v, p.res.v], p.st) else p
  }

  function EvalSegment(h: Host, reading: Reading, s: Segment, st: State): (d: Did)
    ensures SameNames(st.locals, d.st.locals)
    decreases s, 0
  {
    match s
    case Text(t) => Did(Ok(Str(t)), st)
    case Part(e) => Eval(h, reading, e, st)
  }

  // Statements.

  datatype Outcome =
    | Normal
    | Broke
    | Continued
    | Returned(v: Value)
    | Raised(err: Value)
    | OutOfTurns
    | WentWrong

  datatype Ended = Ended(how: Outcome, st: State)

  /** Locals are only added, and only at the end. */
  ghost predicate Grows(a: seq<Binding>, b: seq<Binding>) {
    |a| <= |b| && forall i :: 0 <= i < |a| ==> b[i].name == a[i].name
  }

  function Failed(r: Res, st: State): Ended
    requires !r.Ok?
  {
    Ended(if r.Err? then Raised(r.err) else WentWrong, st)
  }

  function Leave(r: Ended, n: nat): (q: Ended)
    requires n <= |r.st.locals|
  {
    r.(st := r.st.(locals := r.st.locals[..n]))
  }

  function Bind(st: State, name: Name, v: Value): State {
    st.(locals := st.locals + [Binding(name, v)])
  }

  /** The end of a loop turn: whether the loop goes on. */
  predicate GoesOn(how: Outcome) {
    how.Normal? || how.Continued?
  }

  /** A loop that is left by `break` ends normally. */
  function Left(r: Ended): Ended {
    if r.how.Broke? then r.(how := Normal) else r
  }

  /** A loop over a range written out in its header, with no key. */
  predicate Counts(s: Stmt) {
    s.For? && s.key.None? && s.iterable.Op? && s.iterable.kind.RangeOf? && |s.iterable.args| == 2
  }

  predicate NumericBounds(h: Host, s: Stmt, st: State)
    requires Counts(s)
  {
    var p := EvalAll(h, Careful, s.iterable.args, st);
    p.stop.None? ==> p.vals[0].Num? && p.vals[1].Num?
  }

  /** Runs a statement with at most `turns` nested loop turns. Read with care, it goes wrong when
      the bounds of a range in a loop's header are not numbers, when a turn of such a loop changes
      the loop's variable, or when an expression goes wrong. Written out, such a loop counts, and
      the first run of a `do` body is a statement before the loop. */
  function Exec(h: Host, reading: Reading, s: Stmt, st: State, turns: nat): (r: Ended)
    ensures Grows(st.locals, r.st.locals)
    decreases turns, s, 5
  {
    match s
    case Expression(e) =>
      var d := Eval(h, reading, e, st);
      if d.res.Ok? then Ended(Normal, d.st) else Failed(d.res, d.st)
    case Echo(e) =>
      var d := Eval(h, reading, e, st);
      if d.res.Ok? then Ended(Normal, d.st.(log := d.st.log + [Printed(d.res.v)])) else Failed(d.res, d.st)
    case Var(name, e) =>
      var d := Eval(h, reading, e, st);
      if d.res.Ok? then Ended(Normal, Bind(d.st, name, d.res.v)) else Failed(d.res, d.st)
    case Block(ss) => Leave(ExecSeq(h, reading, ss, st, turns), |st.locals|)
    case If(c, t, f) =>
      var d := Eval(h, reading, c, st);
      if !d.res.Ok? then Failed(d.res, d.st)
      else if !Falsey(d.res.v) then Exec(h, reading, t, d.st, turns)
      else if f.Some? then Exec(h, reading, f.value, d.st, turns)
      else Ended(Normal, d.st)
    case While(c, body) =>
      if turns == 0 then Ended(OutOfTurns, st)
      else
        var d := Eval(h, reading, c, st);
        if !d.res.Ok? then Failed(d.res, d.st)
        else if Falsey(d.res.v) then Ended(Normal, d.st)
        else
          var r := Within(h, reading, body, d.st, turns - 1);
          if GoesOn(r.how) then Exec(h, reading, s, r.st, turns - 1) else Left(r)
    case Break => Ended(Broke, st)
    case Continue => Ended(Continued, st)
    case FixContinue => Ended(Normal, st)
    case Return(e) =>
      var d := Eval(h, reading, e, st);
      if d.res.Ok? then Ended(Returned(d.res.v), d.st) else Failed(d.res, d.st)
    case Raise(e) =>
      var d := Eval(h, reading, e, st);
      if d.res.Ok? then Ended(Raised(Thrown(d.res.v)), d.st) else Failed(d.res, d.st)
    case Catch(_, _, _) => Catching(h, reading, s, st, turns)
    case For(_, _, _, _) => if reading.WrittenOut? && Counts(s) then Counted(h, reading, s, st, turns) else ForEach(h, reading, s, st, turns)
    case Iter(init, test, steps, body) =>
      var i := if init.None? then Ended(Normal, st) else Exec(h, reading, init.value, st, turns);
      Leave(if i.how.Normal? then IterTurns(h, reading, s, i.st, turns) else i, |st.locals|)
    case DoWhile(body, until) =>
      if reading.WrittenOut? then
        var first := Exec(h, reading, body, st, turns);
        Leave(if first.how.Normal? then DoRest(h, reading, s, first.st, turns) else first, |st.locals|)
      else DoTurns(h, reading, s, st, turns)
  }

  /** A `for` loop by the protocol of what it goes over. */
  function ForEach(h: Host, reading: Reading, s: Stmt, st: State, turns: nat): (r: Ended)
    requires s.For?
    ensures SameNames(st.locals, r.st.locals)
    decreases turns, s, 4
  {
    var d := Eval(h, reading, s.iterable, st);
    if reading.Careful? && Counts(s) && !NumericBounds(h, s, st) then Ended(WentWrong, st)
    else if !d.res.Ok? then Failed(d.res, d.st)
    else
      var vars := Bind(if s.key.Some? then Bind(d.st, s.key.value, Nil) else d.st, s.value, Nil);
      Leave(ForTurns(h, reading, s, d.res.v, Nil, vars, turns), |st.locals|)
  }

  /** How many turns a counting loop from `a` to `b` has. */
  function CountOf(h: Host, a: Value, b: Value, st: State): (d: Did)
    ensures SameNames(st.locals, d.st.locals)
  {
    var up := Apply(h, Cmp(Ge), [b, a], st);
    if !up.res.Ok? then up
    else if Falsey(up.res.v) then Apply(h, Bin(Sub), [a, b], up.st)
    else Apply(h, Bin(Sub), [b, a], up.st)
  }

  /** By how much its variable moves on. */
  function StepOf(h: Host, a: Value, b: Value, st: State): (d: Did)
    ensures SameNames(st.locals, d.st.locals)
  {
    var up := Apply(h, Cmp(Ge), [b, a], st);
    if up.res.Ok? then Did(Ok(Num(if Falsey(up.res.v) then -1 else 1)), up.st) else up
  }

  /** The end of a turn: the variable, whatever the turn left in it, moves on. */
  function MoveOn(h: Host, x: Name, step: Value, st: State): (d: Did)
    ensures SameNames(st.locals, d.st.locals)
  {
    var c := Read(x, st);
    if !c.res.Ok? then c
    else
      var r := Apply(h, Bin(Add), [c.res.v, step], c.st);
      if r.res.Ok? then Write(x, r.res.v, r.st) else r
  }

  /** A `for` loop over a range in its header, as a loop that counts. */
  function Counted(h: Host, reading: Reading, s: Stmt, st: State, turns: nat): (r: Ended)
    requires Counts(s)
    ensures SameNames(st.locals, r.st.locals)
    decreases turns, s, 4
  {
    var a := Eval(h, reading, s.iterable.args[0], st);
    if !a.res.Ok? then Failed(a.res, a.st)
    else
      var b := Eval(h, reading, s.iterable.args[1], a.st);
      if !b.res.Ok? then Failed(b.res, b.st)
      else
        var count := CountOf(h, a.res.v, b.res.v, b.st);
        if !count.res.Ok? then Failed(count.res, count.st)
        else
          var step := StepOf(h, a.res.v, b.res.v, count.st);
          if !step.res.Ok? then Failed(step.res, step.st)
          else Leave(CountTurns(h, reading, s, count.res.v, step.res.v, 0, Bind(step.st, s.value, a.res.v), turns), |st.locals|)
  }

  /** Its turns from the `i`-th on. */
  function CountTurns(h: Host, reading: Reading, s: Stmt, count: Value, step: Value, i: nat, st: State, turns: nat): (r: Ended)
    requires s.For?
    ensures SameNames(st.locals, r.st.locals)
    decreases turns, s, 0
  {
    if turns == 0 then Ended(OutOfTurns, st)
    else
      var more := Apply(h, Cmp(Lt), [Num(i), count], st);
      if !more.res.Ok? then Failed(more.res, more.st)
      else if Falsey(more.res.v) then Ended(Normal, more.st)
      else
        var r := Exec(h, reading, s.body, more.st, turns - 1);
        var q := Leave(Moved(h, s.value, step, r), |more.st.locals|);
        if GoesOn(q.how) then CountTurns(h, reading, s, count, step, i + 1, q.st, turns - 1) else Left(q)
  }

  /** The end of a turn, still in the scope of its body. */
  function Moved(h: Host, x: Name, step: Value, r: Ended): (q: Ended)
    ensures SameNames(r.st.locals, q.st.locals)
  {
    if !GoesOn(r.how) then r
    else
      var d := MoveOn(h, x, step, r.st);
      if d.res.Ok? then Ended(Normal, d.st) else Failed(d.res, d.st)
  }

  /** A `catch`: an error in the body goes to the variable, if there is one, and to the handler. */
  function Catching(h: Host, reading: Reading, s: Stmt, st: State, turns: nat): (r: Ended)
    requires s.Catch?
    ensures Grows(st.locals, r.st.locals)
    decreases turns, s, 4
  {
    var r := Within(h, reading, s.body, if s.binds.Some? then Bind(st, s.binds.value, Nil) else st, turns);
    if !r.how.Raised? then r
    else
      var caught := Leave(r, |st.locals|).st;
      if s.binds.None? then Ended(Normal, caught)
      else
        var bound := Bind(caught, s.binds.value, r.how.err);
        if s.handler.None? then Ended(Normal, bound) else Within(h, reading, s.handler.value, bound, turns)
  }

  /** The body of a loop or of a `catch` is a scope of its own, even without braces. */
  function Within(h: Host, reading: Reading, s: Stmt, st: State, turns: nat): (r: Ended)
    ensures SameNames(st.locals, r.st.locals)
    decreases turns, s, 6
  {
    Leave(Exec(h, reading, s, st, turns), |st.locals|)
  }

  function ExecSeq(h: Host, reading: Reading, ss: seq<Stmt>, st: State, turns: nat): (r: Ended)
    ensures Grows(st.locals, r.st.locals)
    decreases turns, ss, 0
  {
    if ss == [] then Ended(Normal, st)
    else
      var n := |ss| - 1;
      var r := ExecSeq(h, reading, ss[..n], st, turns);
      if ss[n].FixContinue? then (if r.how.Continued? then Ended(Normal, r.st) else r)
      else if r.how.Normal? then Exec(h, reading, ss[n], r.st, turns)
      else r
  }

  /** The turns of a `for` loop over `it`: the next key, unless there is none, and its value.
      The key before is the key variable's, or `k` if the loop names none. */
  function ForTurns(h: Host, reading: Reading, s: Stmt, it: Value, k: Value, st: State, turns: nat): (r: Ended)
    requires s.For?
    ensures SameNames(st.locals, r.st.locals)
    decreases turns, s, 0
  {
    if turns == 0 then Ended(OutOfTurns, st)
    else
      var f := Fetch(h, s, it, k, st);
      if f.res.Err? || f.res.Wrong? then Failed(f.res, f.st)
      else if f.done then Ended(Normal, f.st)
      else
        var r := Within(h, reading, s.body, f.st, turns - 1);
        if !GoesOn(r.how) then Left(r)
        else if reading.Careful? && Counts(s) && Lookup(r.st.locals, s.value) != Lookup(f.st.locals, s.value) then Ended(WentWrong, r.st)
        else ForTurns(h, reading, s, it, f.res.v, r.st, turns - 1)
  }

  /** The start of a turn: the key it is for, or that there is none. */
  datatype Fetched = Fetched(res: Res, done: bool, st: State)

  /** The next key: asked for, and kept in the key variable. */
  function NextKey(h: Host, s: Stmt, it: Value, k: Value, st: State): (d: Did)
    requires s.For?
    ensures SameNames(st.locals, d.st.locals)
  {
    var before := if s.key.Some? then Read(s.key.value, st) else Did(Ok(k), st);
    if !before.res.Ok? then before
    else
      var next := Apply(h, Method("@key"), [it, before.res.v], st);
      if !next.res.Ok? then next
      else if s.key.Some? then Write(s.key.value, next.res.v, next.st)
      else next
  }

  /** Once the key is known: whether there is none, or else the value. */
  function TakeValue(h: Host, s: Stmt, it: Value, key: Value, st: State): (f: Fetched)
    requires s.For?
    ensures SameNames(st.locals, f.st.locals)
  {
    var over := Apply(h, Cmp(Eq), [key, Nil], st);
    if !over.res.Ok? then Fetched(over.res, false, over.st)
    else if !Falsey(over.res.v) then Fetched(Ok(key), true, over.st)
    else
      var value := Apply(h, Method("@value"), [it, key], over.st);
      if !value.res.Ok? then Fetched(value.res, false, value.st)
      else
        var got := Write(s.value, value.res.v, value.st);
        Fetched(if got.res.Ok? then Ok(key) else got.res, false, got.st)
  }

  function Fetch(h: Host, s: Stmt, it: Value, k: Value, st: State): (f: Fetched)
    requires s.For?
    ensures SameNames(st.locals, f.st.locals)
  {
    var d := NextKey(h, s, it, k, st);
    if d.res.Ok? then TakeValue(h, s, it, d.res.v, d.st) else Fetched(d.res, false, d.st)
  }

  /** The turns of an `iter` loop: its steps run after every turn that is not left early. */
  function IterTurns(h: Host, reading: Reading, s: Stmt, st: State, turns: nat): (r: Ended)
    requires s.Iter?
    ensures SameNames(st.locals, r.st.locals)
    decreases turns, s, 0
  {
    if turns == 0 then Ended(OutOfTurns, st)
    else
      var d := if s.test.None? then Did(Ok(Bool(true)), st) else Eval(h, reading, s.test.value, st);
      if !d.res.Ok? then Failed(d.res, d.st)
      else if Falsey(d.res.v) then Ended(Normal, d.st)
      else
        var r := Within(h, reading, s.body, d.st, turns - 1);
        if !GoesOn(r.how) then Left(r)
        else
          var p := EvalAll(h, reading, s.steps, r.st);
          if p.stop.Some? then Failed(p.stop.value, p.st) else IterTurns(h, reading, s, p.st, turns - 1)
  }

  /** The turns of a `do` loop: body first, then the condition. */
  function DoTurns(h: Host, reading: Reading, s: Stmt, st: State, turns: nat): (r: Ended)
    requires s.DoWhile?
    ensures SameNames(st.locals, r.st.locals)
    decreases turns, s, 4
  {
    var r := Within(h, reading, s.body, st, turns);
    if GoesOn(r.how) then DoRest(h, reading, s, r.st, turns) else Left(r)
  }

  /** A `do` loop after its body: the condition, and perhaps the loop again. */
  function DoRest(h: Host, reading: Reading, s: Stmt, st: State, turns: nat): (r: Ended)
    requires s.DoWhile?
    ensures SameNames(st.locals, r.st.locals)
    decreases turns, s, 3
  {
    if turns == 0 then Ended(OutOfTurns, st)
    else
      var d := Eval(h, reading, s.until, st);
      if !d.res.Ok? then Failed(d.res, d.st)
      else if Falsey(d.res.v) then Ended(Normal, d.st)
      else DoTurns(h, reading, s, d.st, turns - 1)
  }
}
