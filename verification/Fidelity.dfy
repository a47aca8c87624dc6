/** When the emitted code's idea of a program is the language's. */
module Fidelity {
  // The code departs from the language in two places. Whether a `catch` body raised is read off
  // its variable, which the body may have changed; and a declaration that is the whole of a
  // branch is taken to have happened. Here is exactly when neither matters.

  import opened Shapes
  import opened Bytecode
  import opened Values
  import opened Core

  /** The test after a `catch` body tells whether the body raised. */
  predicate TestIsRight(ops: Ops, raised: bool, v: Value) {
    var r := ops.cmp(Neq, v, Nil);
    r.Ok? && Falsey(r.v) == !raised
  }

  /** In this run, every such test is right, and every branch that ends makes the declarations
      of its `if`. */
  ghost predicate Faithful(ops: Ops, s: Stmt, st: State, turns: nat)
    requires st.Valid()
    decreases turns, s, 1
  {
    match s
    case Block(ss) => FaithfulSeq(ops, ss, st, turns)
    case If(c, t, f) =>
      var r := Eval(ops, c, st);
      r.Ok? ==>
        if !Falsey(r.v) then
          Faithful(ops, t, st, turns) && (Exec(ops, AsWritten, t, st, turns).how.Normal? ==> f.None? || !Declares(f.value))
        else
          !Declares(t) && (f.Some? ==> Faithful(ops, f.value, st, turns))
    case While(c, body) =>
      var r := Eval(ops, c, st);
      turns > 0 && r.Ok? && !Falsey(r.v) ==>
        && Faithful(ops, body, st, turns - 1)
        && var q := Exec(ops, AsWritten, body, st, turns - 1);
           (q.how.Normal? || q.how.Continued? ==> Faithful(ops, s, q.st, turns - 1))
    case Catch(body, handler, name) =>
      var st0 := if name.Some? then st.Declare(name.value, Nil) else st;
      var n := |st0.names|;
      var r := Exec(ops, AsWritten, body, st0, turns);
      var after := Caught(r, n, name.Some?);
      && Faithful(ops, body, st0, turns)
      && (after.how.Normal? && handler.Some? && name.Some? ==>
            && TestIsRight(ops, r.how.Raised?, after.st.vals[n - 1])
            && (r.how.Raised? ==> Faithful(ops, handler.value, after.st, turns)))
    case _ => true
  }

  ghost predicate FaithfulSeq(ops: Ops, ss: seq<Stmt>, st: State, turns: nat)
    requires st.Valid()
    decreases turns, ss, 0
  {
    ss == []
    || (var n := |ss| - 1;
        var r := ExecSeq(ops, AsWritten, ss[..n], st, turns);
        FaithfulSeq(ops, ss[..n], st, turns) && (r.how.Normal? ==> Faithful(ops, ss[n], r.st, turns)))
  }

  /** A faithful run is the same by the language and by the code. */
  lemma {:induction false} FaithfulIsSame(ops: Ops, s: Stmt, st: State, turns: nat)
    requires st.Valid() && Faithful(ops, s, st, turns)
    ensures Exec(ops, AsEmitted, s, st, turns) == Exec(ops, AsWritten, s, st, turns)
    decreases turns, s, 1
  {
    match s
    case Block(ss) => FaithfulSeqIsSame(ops, ss, st, turns);
    case If(c, t, f) =>
      var r := Eval(ops, c, st);
      if r.Ok? {
        if !Falsey(r.v) { FaithfulIsSame(ops, t, st, turns); }
        else if f.Some? { FaithfulIsSame(ops, f.value, st, turns); }
      }
    case While(c, body) => FaithfulTurn(ops, s, st, turns);
    case Catch(body, handler, name) => FaithfulCatch(ops, s, st, turns);
    case _ =>
  }

  lemma {:induction false} FaithfulTurn(ops: Ops, s: Stmt, st: State, turns: nat)
    requires s.While? && st.Valid() && Faithful(ops, s, st, turns)
    ensures Exec(ops, AsEmitted, s, st, turns) == Exec(ops, AsWritten, s, st, turns)
    decreases turns, s, 0
  {
    var r := Eval(ops, s.cond, st);
    if turns > 0 && r.Ok? && !Falsey(r.v) {
      FaithfulIsSame(ops, s.body, st, turns - 1);
      var q := Exec(ops, AsWritten, s.body, st, turns - 1);
      if q.how.Normal? || q.how.Continued? { FaithfulIsSame(ops, s, q.st, turns - 1); }
    }
  }

  lemma {:induction false} FaithfulCatch(ops: Ops, s: Stmt, st: State, turns: nat)
    requires s.Catch? && st.Valid() && Faithful(ops, s, st, turns)
    ensures Exec(ops, AsEmitted, s, st, turns) == Exec(ops, AsWritten, s, st, turns)
    decreases turns, s, 0
  {
    var st0 := if s.binds.Some? then st.Declare(s.binds.value, Nil) else st;
    FaithfulIsSame(ops, s.body, st0, turns);
    var r := Exec(ops, AsWritten, s.body, st0, turns);
    var after := Caught(r, |st0.names|, s.binds.Some?);
    if after.how.Normal? && s.handler.Some? && s.binds.Some? && r.how.Raised? {
      FaithfulIsSame(ops, s.handler.value, after.st, turns);
    }
  }

  lemma {:induction false} FaithfulSeqIsSame(ops: Ops, ss: seq<Stmt>, st: State, turns: nat)
    requires st.Valid() && FaithfulSeq(ops, ss, st, turns)
    ensures ExecSeq(ops, AsEmitted, ss, st, turns) == ExecSeq(ops, AsWritten, ss, st, turns)
    decreases turns, ss, 0
  {
    if ss != [] {
      var n := |ss| - 1;
      FaithfulSeqIsSame(ops, ss[..n], st, turns);
      var r := ExecSeq(ops, AsWritten, ss[..n], st, turns);
      if r.how.Normal? { FaithfulIsSame(ops, ss[n], r.st, turns); }
    }
  }

  // One `catch`.

  /** What a `catch` with this handler comes to by either rule. */
  function Caughts(ops: Ops, rule: Rule, body: Stmt, name: string, h: Stmt, st: State, turns: nat): Ended
    requires st.Valid()
  {
    Exec(ops, rule, Catch(body, Some(h), Some(name)), st, turns)
  }

  /** How the body of a `catch` ends, as seen after it. */
  function AfterBody(ops: Ops, body: Stmt, name: string, st: State, turns: nat): (r: Ended)
    requires st.Valid()
    ensures r.st.Valid() && |r.st.names| > |st.names|
  {
    Caught(Exec(ops, AsWritten, body, st.Declare(name, Nil), turns), |st.names| + 1, true)
  }

  /** Handlers that mean the same by either rule. */
  ghost predicate Alike(ops: Ops, h: Stmt, st: State, turns: nat)
    requires st.Valid()
  {
    Exec(ops, AsEmitted, h, st, turns) == Exec(ops, AsWritten, h, st, turns)
  }

  /** What a `catch` makes of the answer to whether its body raised. */
  function Answered(ops: Ops, rule: Rule, t: Result, h: Stmt, after: Ended, turns: nat): Ended
    requires after.st.Valid()
  {
    match t
    case Ok(v) => if Falsey(v) then after else Exec(ops, rule, h, after.st, turns)
    case Err(x) => Raises(x, after.st)
  }

  lemma {:induction false} CaughtsIs(ops: Ops, rule: Rule, body: Stmt, name: string, h: Stmt, st: State, turns: nat)
    requires st.Valid() && Faithful(ops, body, st.Declare(name, Nil), turns)
    requires AfterBody(ops, body, name, st, turns).how.Normal?
    ensures
      var after := AfterBody(ops, body, name, st, turns);
      var r := Exec(ops, AsWritten, body, st.Declare(name, Nil), turns);
      Caughts(ops, rule, body, name, h, st, turns) == Answered(ops, rule, HandlerRuns(ops, rule, r, after.st.vals[|st.names|]), h, after, turns)
  {
    FaithfulIsSame(ops, body, st.Declare(name, Nil), turns);
    hide Faithful;
  }

  /** A `catch` means the same by either rule, whatever its handler does, exactly when the test
      is right: when nothing was raised the variable must compare equal to nil, and when an error
      was caught the error must compare unequal to nil. */
  lemma {:induction false} CatchExactly(ops: Ops, body: Stmt, name: string, st: State, turns: nat)
    requires st.Valid() && Faithful(ops, body, st.Declare(name, Nil), turns)
    requires AfterBody(ops, body, name, st, turns).how.Normal?
    ensures
      var after := AfterBody(ops, body, name, st, turns);
      var raised := Exec(ops, AsWritten, body, st.Declare(name, Nil), turns).how.Raised?;
      TestIsRight(ops, raised, after.st.vals[|st.names|]) <==>
        forall h :: Alike(ops, h, after.st, turns) ==>
                      Caughts(ops, AsEmitted, body, name, h, st, turns) == Caughts(ops, AsWritten, body, name, h, st, turns)
  {
    hide Exec, Faithful, AfterBody, Caughts;
    var after := AfterBody(ops, body, name, st, turns);
    var r := Exec(ops, AsWritten, body, st.Declare(name, Nil), turns);
    var v := after.st.vals[|st.names|];
    forall h | Alike(ops, h, after.st, turns) && TestIsRight(ops, r.how.Raised?, v)
      ensures Caughts(ops, AsEmitted, body, name, h, st, turns) == Caughts(ops, AsWritten, body, name, h, st, turns)
    {
      CaughtsIs(ops, AsEmitted, body, name, h, st, turns);
      CaughtsIs(ops, AsWritten, body, name, h, st, turns);
    }
    if !TestIsRight(ops, r.how.Raised?, v) {
      var h := Stmt.Return(Lit(Nil));
      ReturnsNil(ops, h, after.st, turns);
      CaughtsIs(ops, AsEmitted, body, name, h, st, turns);
      CaughtsIs(ops, AsWritten, body, name, h, st, turns);
    }
  }

  lemma {:induction false} ReturnsNil(ops: Ops, h: Stmt, st: State, turns: nat)
    requires h == Stmt.Return(Lit(Nil)) && st.Valid()
    ensures forall rule :: Exec(ops, rule, h, st, turns) == Ended(Returned(Nil), st)
  {
  }

  // Programs for which it never matters.

  /** `s` never assigns to a variable of this name. */
  predicate Spares(s: Stmt, name: string)
    decreases s, 0
  {
    match s
    case Assign(x, _) => x != name
    case Block(ss) => forall i :: 0 <= i < |ss| ==> Spares(ss[i], name)
    case If(_, t, f) => Spares(t, name) && (f.Some? ==> Spares(f.value, name))
    case While(_, body) => Spares(body, name)
    case Catch(body, handler, _) => Spares(body, name) && (handler.Some? ==> Spares(handler.value, name))
    case _ => true
  }

  /** No body of a `catch` with a handler assigns to its variable. */
  predicate Tidy(s: Stmt)
    decreases s, 0
  {
    match s
    case Block(ss) => forall i :: 0 <= i < |ss| ==> Tidy(ss[i])
    case If(_, t, f) => Tidy(t) && (f.Some? ==> Tidy(f.value))
    case While(_, body) => Tidy(body)
    case Catch(body, handler, name) => Tidy(body) && (handler.Some? ==> Tidy(handler.value) && (name.Some? ==> Spares(body, name.value)))
    case _ => true
  }

  /** No branch is a declaration. */
  predicate Braced(s: Stmt)
    decreases s, 0
  {
    match s
    case Block(ss) => forall i :: 0 <= i < |ss| ==> Braced(ss[i])
    case If(_, t, f) => Braced(t) && !Declares(t) && (f.Some? ==> Braced(f.value) && !Declares(f.value))
    case While(_, body) => Braced(body)
    case Catch(body, handler, _) => Braced(body) && (handler.Some? ==> Braced(handler.value))
    case _ => true
  }

  /** Operators raise errors and nothing else, and nil is equal to itself and to no error. */
  ghost predicate Usual(ops: Ops) {
    && (forall op, a, b :: ops.bin(op, a, b).Err? ==> ops.bin(op, a, b).err.Error?)
    && (forall op, a, b :: ops.cmp(op, a, b).Err? ==> ops.cmp(op, a, b).err.Error?)
    && (forall op, a :: ops.un(op, a).Err? ==> ops.un(op, a).err.Error?)
    && TestIsRight(ops, false, Nil)
    && (forall v: Value :: v.Error? ==> TestIsRight(ops, true, v))
  }

  lemma {:induction false} EvalRaisesErrors(ops: Ops, e: Expr, st: State)
    requires Usual(ops) && st.Valid()
    ensures Eval(ops, e, st).Err? ==> Eval(ops, e, st).err.Error?
    decreases e
  {
    match e
    case UnaryOf(_, a) => EvalRaisesErrors(ops, a, st);
    case Binary(a, _, b) => EvalRaisesErrors(ops, a, st); EvalRaisesErrors(ops, b, st);
    case Logical(a, _, b) => EvalRaisesErrors(ops, a, st); EvalRaisesErrors(ops, b, st);
    case Circuit(a, _, b) => EvalRaisesErrors(ops, a, st); EvalRaisesErrors(ops, b, st);
    case Grouping(a) => EvalRaisesErrors(ops, a, st);
    case Condition(c, t, f) => EvalRaisesErrors(ops, c, st); EvalRaisesErrors(ops, t, st); EvalRaisesErrors(ops, f, st);
    case _ =>
  }

  /** In such a program with such operators, only errors are raised. */
  lemma {:induction false} RaisesErrors(ops: Ops, s: Stmt, st: State, turns: nat)
    requires Usual(ops) && st.Valid() && Exec(ops, AsWritten, s, st, turns).how.Raised?
    ensures Exec(ops, AsWritten, s, st, turns).how.err.Error?
    decreases turns, s, 1
  {
    hide Usual;
    match s
    case Block(ss) => SeqRaisesErrors(ops, ss, st, turns);
    case If(c, t, f) =>
      EvalRaisesErrors(ops, c, st);
      var r := Eval(ops, c, st);
      if r.Ok? && !Falsey(r.v) { RaisesErrors(ops, t, st, turns); }
      else if r.Ok? && f.Some? { RaisesErrors(ops, f.value, st, turns); }
    case While(c, body) =>
      EvalRaisesErrors(ops, c, st);
      if Exec(ops, AsWritten, body, st, turns - 1).how.Raised? { RaisesErrors(ops, body, st, turns - 1); }
      else if Eval(ops, c, st).Ok? { RaisesErrors(ops, s, Exec(ops, AsWritten, body, st, turns - 1).st, turns - 1); }
    case Catch(body, handler, name) =>
      RaisesErrors(ops, handler.value, AfterCatchBody(ops, s, st, turns).st, turns);
    case Expression(e) => EvalRaisesErrors(ops, e, st);
    case Assign(_, e) => EvalRaisesErrors(ops, e, st);
    case Echo(e) => EvalRaisesErrors(ops, e, st);
    case VarDecl(_, e) => EvalRaisesErrors(ops, e, st);
    case Return(e) => EvalRaisesErrors(ops, e, st);
    case RaiseOf(e) => EvalRaisesErrors(ops, e, st);
    case _ =>
  }

  function AfterCatchBody(ops: Ops, s: Stmt, st: State, turns: nat): (r: Ended)
    requires s.Catch? && st.Valid()
    ensures r.st.Valid()
  {
    var st0 := if s.binds.Some? then st.Declare(s.binds.value, Nil) else st;
    Caught(Exec(ops, AsWritten, s.body, st0, turns), |st0.names|, s.binds.Some?)
  }

  lemma {:induction false} SeqRaisesErrors(ops: Ops, ss: seq<Stmt>, st: State, turns: nat)
    requires Usual(ops) && st.Valid() && ExecSeq(ops, AsWritten, ss, st, turns).how.Raised?
    ensures ExecSeq(ops, AsWritten, ss, st, turns).how.err.Error?
    decreases turns, ss, 0
  {
    hide Usual;
    var n := |ss| - 1;
    var r := ExecSeq(ops, AsWritten, ss[..n], st, turns);
    if r.how.Raised? { SeqRaisesErrors(ops, ss[..n], st, turns); } else { RaisesErrors(ops, ss[n], r.st, turns); }
  }

  /** A statement that spares a name leaves locals of that name as they were. */
  lemma {:induction false} Spared(ops: Ops, s: Stmt, name: string, st: State, turns: nat, i: nat)
    requires st.Valid() && Spares(s, name) && i < |st.names| && st.names[i] == name
    ensures var r := Exec(ops, AsWritten, s, st, turns); |st.names| <= |r.st.names| && r.st.names[i] == name && r.st.vals[i] == st.vals[i]
    decreases turns, s, 1
  {
    match s
    case Block(ss) => SparedSeq(ops, ss, name, st, turns, i);
    case If(c, t, f) =>
      Spared(ops, t, name, st, turns, i);
      if f.Some? { Spared(ops, f.value, name, st, turns, i); }
    case While(c, body) =>
      SparedWhile(ops, s, name, st, turns, i);
    case Catch(body, handler, _) =>
      SparedCatch(ops, s, name, st, turns, i);
    case _ =>
  }

  lemma {:induction false} SparedWhile(ops: Ops, s: Stmt, name: string, st: State, turns: nat, i: nat)
    requires s.While? && st.Valid() && Spares(s, name) && i < |st.names| && st.names[i] == name
    ensures var r := Exec(ops, AsWritten, s, st, turns); |st.names| <= |r.st.names| && r.st.names[i] == name && r.st.vals[i] == st.vals[i]
    decreases turns, s, 0
  {
    hide Eval, Falsey, ExecSeq;
    if turns > 0 {
      Spared(ops, s.body, name, st, turns - 1, i);
      Spared(ops, s, name, Exec(ops, AsWritten, s.body, st, turns - 1).st, turns - 1, i);
    }
  }

  lemma {:induction false} SparedCatch(ops: Ops, s: Stmt, name: string, st: State, turns: nat, i: nat)
    requires s.Catch? && st.Valid() && Spares(s, name) && i < |st.names| && st.names[i] == name
    ensures var r := Exec(ops, AsWritten, s, st, turns); |st.names| <= |r.st.names| && r.st.names[i] == name && r.st.vals[i] == st.vals[i]
    decreases turns, s, 0
  {
    var st0 := if s.binds.Some? then st.Declare(s.binds.value, Nil) else st;
    Spared(ops, s.body, name, st0, turns, i);
    var after := AfterCatchBody(ops, s, st, turns);
    assert after.st.names[i] == name && after.st.vals[i] == st.vals[i];
    if s.handler.Some? { Spared(ops, s.handler.value, name, after.st, turns, i); }
  }

  lemma {:induction false} SparedSeq(ops: Ops, ss: seq<Stmt>, name: string, st: State, turns: nat, i: nat)
    requires st.Valid() && i < |st.names| && st.names[i] == name
    requires forall k :: 0 <= k < |ss| ==> Spares(ss[k], name)
    ensures var r := ExecSeq(ops, AsWritten, ss, st, turns); |st.names| <= |r.st.names| && r.st.names[i] == name && r.st.vals[i] == st.vals[i]
    decreases turns, ss, 0
  {
    if ss != [] {
      var n := |ss| - 1;
      SparedSeq(ops, ss[..n], name, st, turns, i);
      Spared(ops, ss[n], name, ExecSeq(ops, AsWritten, ss[..n], st, turns).st, turns, i);
    }
  }

  /** In a tidy, braced program, with the usual operators, every run is faithful. */
  lemma {:induction false} TidyIsFaithful(ops: Ops, s: Stmt, st: State, turns: nat)
    requires Usual(ops) && st.Valid() && Tidy(s) && Braced(s)
    ensures Faithful(ops, s, st, turns)
    decreases turns, s, 1
  {
    hide Usual;
    match s
    case Block(ss) => TidySeq(ops, ss, st, turns);
    case If(c, t, f) =>
      TidyIsFaithful(ops, t, st, turns);
      if f.Some? { TidyIsFaithful(ops, f.value, st, turns); }
    case While(c, body) =>
      if turns > 0 {
        TidyIsFaithful(ops, body, st, turns - 1);
        TidyIsFaithful(ops, s, Exec(ops, AsWritten, body, st, turns - 1).st, turns - 1);
      }
    case Catch(body, handler, name) => TidyCatch(ops, s, st, turns);
    case _ =>
  }

  lemma {:induction false} TidySeq(ops: Ops, ss: seq<Stmt>, st: State, turns: nat)
    requires Usual(ops) && st.Valid() && forall i :: 0 <= i < |ss| ==> Tidy(ss[i]) && Braced(ss[i])
    ensures FaithfulSeq(ops, ss, st, turns)
    decreases turns, ss, 0
  {
    hide Usual;
    if ss != [] {
      var n := |ss| - 1;
      TidySeq(ops, ss[..n], st, turns);
      TidyIsFaithful(ops, ss[n], ExecSeq(ops, AsWritten, ss[..n], st, turns).st, turns);
    }
  }

  lemma {:induction false} TidyCatch(ops: Ops, s: Stmt, st: State, turns: nat)
    requires s.Catch? && Usual(ops) && st.Valid() && Tidy(s) && Braced(s)
    ensures Faithful(ops, s, st, turns)
    decreases turns, s, 0
  {
    var st0 := if s.binds.Some? then st.Declare(s.binds.value, Nil) else st;
    var n := |st0.names|;
    TidyIsFaithful(ops, s.body, st0, turns);
    var r := Exec(ops, AsWritten, s.body, st0, turns);
    var after := AfterCatchBody(ops, s, st, turns);
    if after.how.Normal? && s.handler.Some? && s.binds.Some? {
      if r.how.Raised? {
        RaisesErrors(ops, s.body, st0, turns);
        TidyIsFaithful(ops, s.handler.value, after.st, turns);
      } else {
        Spared(ops, s.body, s.binds.value, st0, turns, n - 1);
      }
      TestOf(ops, r.how.Raised?, after.st.vals[n - 1]);
    }
  }

  lemma {:induction false} TestOf(ops: Ops, raised: bool, v: Value)
    requires Usual(ops) && if raised then v.Error? else v.Nil?
    ensures TestIsRight(ops, raised, v)
  {
  }

  /** Without declarations for branches, the locals stay those the compiler takes to be visible.
      By the language's rule there is nothing to lose. */
  lemma {:induction false} BracedKeepsScope(ops: Ops, rule: Rule, s: Stmt, st: State, turns: nat)
    requires st.Valid() && (rule.AsWritten? || Braced(s))
    ensures !Exec(ops, rule, s, st, turns).how.Lost?
    decreases turns, s, 1
  {
    match s
    case Block(ss) => BracedSeqKeepsScope(ops, rule, ss, st, turns);
    case If(c, t, f) =>
      BracedKeepsScope(ops, rule, t, st, turns);
      if f.Some? { BracedKeepsScope(ops, rule, f.value, st, turns); }
    case While(c, body) =>
      if turns > 0 {
        BracedKeepsScope(ops, rule, body, st, turns - 1);
        BracedKeepsScope(ops, rule, s, Exec(ops, rule, body, st, turns - 1).st, turns - 1);
      }
    case Catch(body, handler, name) => BracedCatchKeepsScope(ops, rule, s, st, turns);
    case _ =>
  }

  lemma {:induction false} BracedCatchKeepsScope(ops: Ops, rule: Rule, s: Stmt, st: State, turns: nat)
    requires s.Catch? && st.Valid() && (rule.AsWritten? || Braced(s))
    ensures !Exec(ops, rule, s, st, turns).how.Lost?
    decreases turns, s, 0
  {
    var st0 := if s.binds.Some? then st.Declare(s.binds.value, Nil) else st;
    BracedKeepsScope(ops, rule, s.body, st0, turns);
    var after := Caught(Exec(ops, rule, s.body, st0, turns), |st0.names|, s.binds.Some?);
    if s.handler.Some? { BracedKeepsScope(ops, rule, s.handler.value, after.st, turns); }
  }

  lemma {:induction false} BracedSeqKeepsScope(ops: Ops, rule: Rule, ss: seq<Stmt>, st: State, turns: nat)
    requires st.Valid() && (rule.AsWritten? || forall i :: 0 <= i < |ss| ==> Braced(ss[i]))
    ensures !ExecSeq(ops, rule, ss, st, turns).how.Lost?
    decreases turns, ss, 0
  {
    if ss != [] {
      var n := |ss| - 1;
      BracedSeqKeepsScope(ops, rule, ss[..n], st, turns);
      BracedKeepsScope(ops, rule, ss[n], ExecSeq(ops, rule, ss[..n], st, turns).st, turns);
    }
  }
}
