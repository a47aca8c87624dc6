/** The core language the compiler accepts once loops and shorthands are lowered: its syntax and a reference semantics that knows nothing of registers or jumps. */
module Core {
  // Numbers are integers. What an operator answers, or raises, for given operands is a parameter
  // of the semantics.

  import opened Values
  import opened Shapes

  datatype Expr =
    | Lit(val: Value)
    | Var(name: string)
    | UnaryOf(uop: UnOp, operand: Expr)
    | Binary(left: Expr, op: BinOp, right: Expr)
    | Logical(left: Expr, cmp: CmpOp, right: Expr)
    | Circuit(left: Expr, isAnd: bool, right: Expr)
    | Grouping(inner: Expr)
    | Condition(cond: Expr, truth: Expr, falsy: Expr)

  datatype Stmt =
    | Expression(e: Expr)
    | Assign(name: string, e: Expr)
    | Echo(e: Expr)
    | VarDecl(name: string, e: Expr)
    | Block(stmts: seq<Stmt>)
    | If(cond: Expr, thenB: Stmt, elseB: Option<Stmt>)
    | While(cond: Expr, body: Stmt)
    | Break
    | Continue
    /** In a loop's own block: a `continue` before it goes on right after it. */
    | FixContinue
    | Return(e: Expr)
    | RaiseOf(e: Expr)
    | Catch(body: Stmt, handler: Option<Stmt>, binds: Option<string>)

  datatype Result = Ok(v: Value) | Err(err: Value)

  /** What operators answer. */
  datatype Ops = Ops(
    bin: (BinOp, Value, Value) -> Result,
    cmp: (CmpOp, Value, Value) -> Result,
    un: (UnOp, Value) -> Result)

  /** The last position of `name`, or -1: the innermost declaration wins. */
  function Find(names: seq<string>, name: string): (i: int)
    ensures -1 <= i < |names|
    ensures i >= 0 ==> names[i] == name
    ensures forall k :: i < k < |names| ==> names[k] != name
  {
    if names == [] then -1
    else if names[|names| - 1] == name then |names| - 1
    else Find(names[..|names| - 1], name)
  }

  /** Locals in order of declaration, globals, and what has been printed. */
  datatype State = State(names: seq<string>, vals: seq<Value>, globals: map<string, Value>, output: seq<Value>) {
    ghost predicate Valid() {
      |names| == |vals|
    }

    /** Leaving a scope: locals declared since are gone. */
    function Leave(n: nat): State
      requires n <= |names| == |vals|
    {
      this.(names := names[..n], vals := vals[..n])
    }

    function Declare(name: string, v: Value): State {
      this.(names := names + [name], vals := vals + [v])
    }
  }

  function Eval(ops: Ops, e: Expr, st: State): Result
    requires st.Valid()
  {
    match e
    case Lit(v) => Ok(v)
    case Var(name) =>
      var i := Find(st.names, name);
      if i >= 0 then Ok(st.vals[i])
      else if name in st.globals then Ok(st.globals[name])
      else Err(Undefined)
    case UnaryOf(op, a) =>
      (match Eval(ops, a, st)
       case Ok(v) => ops.un(op, v)
       case Err(x) => Err(x))
    case Binary(a, op, b) =>
      (match Eval(ops, a, st)
       case Ok(v) =>
         (match Eval(ops, b, st)
          case Ok(w) => ops.bin(op, v, w)
          case Err(x) => Err(x))
       case Err(x) => Err(x))
    case Logical(a, cmp, b) =>
      (match Eval(ops, a, st)
       case Ok(v) =>
         (match Eval(ops, b, st)
          case Ok(w) => ops.cmp(cmp, v, w)
          case Err(x) => Err(x))
       case Err(x) => Err(x))
    case Circuit(a, isAnd, b) =>
      (match Eval(ops, a, st)
       case Ok(v) => if Falsey(v) == isAnd then Ok(v) else Eval(ops, b, st)
       case Err(x) => Err(x))
    case Grouping(a) => Eval(ops, a, st)
    case Condition(c, t, f) =>
      (match Eval(ops, c, st)
       case Ok(v) => if Falsey(v) then Eval(ops, f, st) else Eval(ops, t, st)
       case Err(x) => Err(x))
  }

  datatype Outcome =
    | Normal
    | Broke
    | Continued
    | Returned(v: Value)
    | Raised(err: Value)
    /** The loops were given too few turns to finish. */
    | OutOfTurns
    /** The locals are no longer those the compiler takes to be visible: nothing is promised. */
    | Lost

  datatype Ended = Ended(how: Outcome, st: State)

  function Raises(err: Value, st: State): Ended {
    Ended(Raised(err), st)
  }

  function AssignTo(name: string, v: Value, st: State): Ended
    requires st.Valid()
  {
    var i := Find(st.names, name);
    if i >= 0 then Ended(Normal, st.(vals := st.vals[i := v]))
    else if name in st.globals then Ended(Normal, st.(globals := st.globals[name := v]))
    else Raises(Undefined, st)
  }

  /** `AsWritten` is the language: a handler runs if the body of its `catch` raised, and a
      variable is there if its declaration was reached. `AsEmitted` departs from it where the
      emitted code does: a handler runs if its variable, when the body is over, compares unequal
      to nil; and a branch that declares a variable must be taken for the locals to stay those
      the compiler takes to be visible. */
  datatype Rule = AsWritten | AsEmitted

  /** A statement that leaves a new local in the scope it stands in. */
  predicate Declares(s: Stmt) {
    match s
    case VarDecl(_, _) => true
    case Catch(_, _, binds) => binds.Some?
    case If(_, t, f) => Declares(t) || (f.Some? && Declares(f.value))
    case _ => false
  }

  /** Runs a statement with at most `turns` nested loop turns. Locals only grow while a
      statement runs; an enclosing block drops them. */
  function Exec(ops: Ops, rule: Rule, s: Stmt, st: State, turns: nat): (r: Ended)
    requires st.Valid()
    ensures r.st.Valid() && |st.names| <= |r.st.names| && st.names == r.st.names[..|st.names|]
    decreases turns, s, 1
  {
    match s
    case Expression(e) =>
      (match Eval(ops, e, st)
       case Ok(_) => Ended(Normal, st)
       case Err(x) => Raises(x, st))
    case Assign(name, e) =>
      (match Eval(ops, e, st)
       case Ok(v) => AssignTo(name, v, st)
       case Err(x) => Raises(x, st))
    case Echo(e) =>
      (match Eval(ops, e, st)
       case Ok(v) => Ended(Normal, st.(output := st.output + [v]))
       case Err(x) => Raises(x, st))
    case VarDecl(name, e) =>
      (match Eval(ops, e, st)
       case Ok(v) => Ended(Normal, st.Declare(name, v))
       case Err(x) => Raises(x, st))
    case Block(stmts) =>
      var r := ExecSeq(ops, rule, stmts, st, turns);
      Ended(r.how, r.st.Leave(|st.names|))
    case If(c, t, f) =>
      (match Eval(ops, c, st)
       case Ok(v) =>
         if !Falsey(v) then Missing(rule, Exec(ops, rule, t, st, turns), f.Some? && Declares(f.value))
         else if rule.AsEmitted? && Declares(t) then Ended(Lost, st)
         else if f.Some? then Exec(ops, rule, f.value, st, turns)
         else Ended(Normal, st)
       case Err(x) => Raises(x, st))
    case While(c, body) =>
      if turns == 0 then Ended(OutOfTurns, st)
      else
        (match Eval(ops, c, st)
         case Ok(v) =>
           if Falsey(v) then Ended(Normal, st)
           else
             var r := Exec(ops, rule, body, st, turns - 1);
             (match r.how
              case Normal => Exec(ops, rule, s, r.st, turns - 1)
              case Continued => Exec(ops, rule, s, r.st, turns - 1)
              case Broke => Ended(Normal, r.st)
              case _ => r)
         case Err(x) => Raises(x, st))
    case Break => Ended(Broke, st)
    case Continue => Ended(Continued, st)
    case FixContinue => Ended(Normal, st)
    case Return(e) =>
      (match Eval(ops, e, st)
       case Ok(v) => Ended(Returned(v), st)
       case Err(x) => Raises(x, st))
    case RaiseOf(e) =>
      (match Eval(ops, e, st)
       case Ok(v) => Raises(Thrown(v), st)
       case Err(x) => Raises(x, st))
    case Catch(body, handler, name) =>
      var st0 := if name.Some? then st.Declare(name.value, Nil) else st;
      var n := |st0.names|;
      var r := Exec(ops, rule, body, st0, turns);
      var after := Caught(r, n, name.Some?);
      if after.how != Normal || handler.None? || name.None? then after
      else
        (match HandlerRuns(ops, rule, r, after.st.vals[n - 1])
         case Ok(v) => if Falsey(v) then after else Exec(ops, rule, handler.value, after.st, turns)
         case Err(x) => Raises(x, after.st))
  }

  /** A branch that ended normally without what the other branch declares. */
  function Missing(rule: Rule, r: Ended, more: bool): Ended {
    if rule.AsEmitted? && more && r.how.Normal? then Ended(Lost, r.st) else r
  }

  /** Whether a handler runs after a body that ended with `r` and left `v` in the variable. */
  function HandlerRuns(ops: Ops, rule: Rule, r: Ended, v: Value): Result {
    if rule.AsWritten? then Ok(Bool(r.how.Raised?)) else ops.cmp(Neq, v, Nil)
  }

  /** What a `catch` makes of how its body ended: an error is stored in the variable, if
      there is one, and everything else goes on. `n` locals were visible to the body. */
  function Caught(r: Ended, n: nat, named: bool): Ended
    requires r.st.Valid() && n <= |r.st.names| && (named ==> n > 0)
  {
    if r.how.Raised? then
      var st := r.st.Leave(n);
      Ended(Normal, if named then st.(vals := st.vals[n - 1 := r.how.err]) else st)
    else r
  }

  /** Statements in order. A `FixContinue` turns a `continue` before it into going on. */
  function ExecSeq(ops: Ops, rule: Rule, ss: seq<Stmt>, st: State, turns: nat): (r: Ended)
    requires st.Valid()
    ensures r.st.Valid() && |st.names| <= |r.st.names| && st.names == r.st.names[..|st.names|]
    decreases turns, ss, 0
  {
    if ss == [] then Ended(Normal, st)
    else
      var n := |ss| - 1;
      var r := ExecSeq(ops, rule, ss[..n], st, turns);
      if ss[n].FixContinue? then (if r.how.Continued? then Ended(Normal, r.st) else r)
      else if r.how.Normal? then Exec(ops, rule, ss[n], r.st, turns)
      else r
  }

  /** The programs the compiler is given: the bodies of loops and of `catch` open their own
      scope before they declare anything, `break` and `continue` stand in a loop, only a `catch`
      with a variable has a handler, and a loop's own block (`own`) holds at most one
      `FixContinue`, before which that block declares nothing. */
  predicate Fits(s: Stmt, inLoop: bool, own: bool)
    decreases s, 1
  {
    match s
    case Block(ss) => FitsSeq(ss, inLoop, own)
    case If(_, t, f) => Fits(t, inLoop, false) && (f.Some? ==> Fits(f.value, inLoop, false))
    case While(_, body) => Fits(body, true, true) && !Declares(body)
    case Break => inLoop
    case Continue => inLoop
    case FixContinue => false
    case Catch(body, handler, binds) =>
      FitsIn(body, inLoop) && (handler.Some? ==> binds.Some? && FitsIn(handler.value, inLoop))
    case _ => true
  }

  predicate FitsIn(s: Stmt, inLoop: bool)
    decreases s, 2
  {
    Fits(s, inLoop, false) && !Declares(s)
  }

  predicate Plain(ss: seq<Stmt>) {
    forall i :: 0 <= i < |ss| ==> !Declares(ss[i]) && !ss[i].FixContinue?
  }

  predicate FitsSeq(ss: seq<Stmt>, inLoop: bool, own: bool)
    decreases ss, 0
  {
    ss == []
    || (var n := |ss| - 1;
        if ss[n].FixContinue? then own && Plain(ss[..n]) && FitsSeq(ss[..n], inLoop, false)
        else FitsSeq(ss[..n], inLoop, own) && Fits(ss[n], inLoop, false))
  }
}
