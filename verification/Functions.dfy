/** A whole function: its parameters, its body, and the `return nil` every function ends with. */
module Functions {
  import opened Shapes
  import opened Bytecode
  import opened Values
  import opened Core
  import opened Machine
  import opened CodeGen
  import opened ExprSim
  import opened StmtSim
  import opened ProgramSim
  import opened Fidelity

  /** Parameters take the first registers. */
  function Entry(params: seq<string>): (x: Ctx)
    ensures x.env.Valid(x.next) && x.env.names == params
  {
    Ctx(Scope(params, seq(|params|, i requires 0 <= i => i as Reg)), |params|, NoLoop)
  }

  function FunctionCode(params: seq<string>, body: Stmt): seq<Instr> {
    var x := Entry(params);
    var nil := After(body, x).next;
    StmtCode(body, x, 0) + [LoadNil(nil), Ret(nil)]
  }

  /** What a call comes to when its body ends in a given way. */
  function Answer(how: Outcome): Outcome {
    if how.Normal? then Returned(Nil) else how
  }

  /** The source of a call ends, with this. */
  ghost predicate SourceEnds(ops: Ops, rule: Rule, body: Stmt, st: State, h: Status)
    requires st.Valid()
  {
    exists turns: nat :: Finishes(Exec(ops, rule, body, st, turns), h)
  }

  ghost predicate Finishes(r: Ended, h: Status) {
    !r.how.OutOfTurns? && h == Halted(Answer(r.how), r.st.globals, r.st.output)
  }

  /** The machine, from configuration `c`, ends with this. */
  ghost predicate MachineEnds(ops: Ops, code: seq<Instr>, c: Config, h: Status) {
    !h.Running? && exists k: nat :: Steps(ops, code, Running(c), k) == h
  }

  /** A configuration at the start of a call whose arguments are the values of `st`. */
  ghost predicate Called(params: seq<string>, st: State, c: Config) {
    c.pc == 0 && c.handlers == [] && Ready(Entry(params).env, Entry(params).next, st, c)
  }

  /** This rule tells what the code does, with this many turns. */
  ghost predicate Tells(ops: Ops, rule: Rule, body: Stmt, st: State, turns: nat)
    requires st.Valid()
  {
    if rule.AsWritten? then Faithful(ops, body, st, turns) else !Exec(ops, AsEmitted, body, st, turns).how.Lost?
  }

  /** For every number of turns, the machine ends as the source does, or it is still running
      after that many steps. */
  lemma {:induction false} FunctionRuns(ops: Ops, rule: Rule, params: seq<string>, body: Stmt, st: State, c: Config, turns: nat) returns (k: nat)
    requires Fits(body, false, false) && Called(params, st, c) && Tells(ops, rule, body, st, turns)
    ensures
      var r := Exec(ops, rule, body, st, turns);
      var m := Steps(ops, FunctionCode(params, body), Running(c), k);
      if r.how.OutOfTurns? then m.Running? && k >= turns else Finishes(r, m)
  {
    hide *;
    CalledParts(params, st, c);
    var x, code := Entry(params), FunctionCode(params, body);
    var nil, end := After(body, x).next, |StmtCode(body, x, 0)|;
    var r := Exec(ops, rule, body, st, turns);
    FunctionPlaces(params, body, c);
    MakeStarts(code, body, x, 0, st, c, false);
    var c1, j := SimStmt(ops, code, body, x, 0, st, c, false, turns);
    TellsCases(ops, rule, body, st, turns);
    BracedKeepsScope(ops, AsWritten, body, st, turns);
    k := LastReturn(ops, code, c, j, c1, r, x, After(body, x), end, turns);
  }

  lemma {:induction false} TellsCases(ops: Ops, rule: Rule, body: Stmt, st: State, turns: nat)
    requires st.Valid() && Tells(ops, rule, body, st, turns)
    ensures rule.AsWritten? ==> Faithful(ops, body, st, turns)
    ensures rule.AsEmitted? ==> !Exec(ops, AsEmitted, body, st, turns).how.Lost?
  {
  }

  /** A body that falls through goes on to `return nil`; otherwise the call is over, since
      outside of a loop there is nothing to break out of and no handler is left. */
  lemma {:induction false} LastReturn(ops: Ops, code: seq<Instr>, c: Config, j: nat, c1: Config, r: Ended, x: Ctx, y: Ctx, end: nat, turns: nat) returns (k: nat)
    requires Ends(ops, code, c, j, c1, r, x, y, end, turns) && x.loop.NoLoop? && c.handlers == [] && !r.how.Lost?
    requires end + 2 == |code| && code[end] == LoadNil(y.next) && code[end + 1] == Ret(y.next)
    ensures
      var m := Steps(ops, code, Running(c), k);
      if r.how.OutOfTurns? then m.Running? && k >= turns else Finishes(r, m)
  {
    k := j;
    if r.how.Normal? {
      hide Steps;
      var c2 := c1.(pc := end + 1, regs := c1.regs[y.next := Nil]);
      OneStep(ops, code, c, j, c1);
      assert Step(ops, code, Running(c1)) == Running(c2);
      OneStep(ops, code, c, j + 1, c2);
      k := j + 2;
    }
  }

  lemma {:induction false} FunctionPlaces(params: seq<string>, body: Stmt, c: Config)
    ensures
      var x, code := Entry(params), FunctionCode(params, body);
      var nil, end := After(body, x).next, |StmtCode(body, x, 0)|;
      && CodeAt(code, 0, StmtCode(body, x, 0)) && end + 2 == |code|
      && code[end] == LoadNil(nil) && code[end + 1] == Ret(nil)
      && Targets(x, c, false) && x.loop.NoLoop?
  {
    hide StmtCode, After;
  }

  /** A call of the compiled function ends exactly when the source does, and with the same
      result, globals and output: by the language's rule, if its runs are faithful, and by the
      code's, if they keep the scope. */
  lemma {:induction false} CompiledFunctionAgrees(ops: Ops, rule: Rule, params: seq<string>, body: Stmt, st: State, c: Config, h: Status)
    requires Fits(body, false, false) && Called(params, st, c)
    requires forall turns: nat :: Tells(ops, rule, body, st, turns)
    ensures SourceEnds(ops, rule, body, st, h) <==> MachineEnds(ops, FunctionCode(params, body), c, h)
  {
    hide Called, FunctionCode, Exec, Steps, Tells;
    CalledParts(params, st, c);
    var code := FunctionCode(params, body);
    if SourceEnds(ops, rule, body, st, h) {
      var turns: nat :| Finishes(Exec(ops, rule, body, st, turns), h);
      var k := FunctionRuns(ops, rule, params, body, st, c, turns);
      assert Steps(ops, code, Running(c), k) == h;
    }
    if MachineEnds(ops, code, c, h) {
      var n: nat :| Steps(ops, code, Running(c), n) == h;
      var k := FunctionRuns(ops, rule, params, body, st, c, n);
      EndsOnce(ops, code, Running(c), n, k);
      assert Finishes(Exec(ops, rule, body, st, n), h);
    }
  }

  /** No body of a `catch` assigns to its variable and no branch is a declaration: then, with
      the usual operators, compiled code means what the source means, without exception. */
  lemma {:induction false} TidyFunctionAgrees(ops: Ops, params: seq<string>, body: Stmt, st: State, c: Config, h: Status)
    requires Fits(body, false, false) && Called(params, st, c)
    requires Usual(ops) && Tidy(body) && Braced(body)
    ensures SourceEnds(ops, AsWritten, body, st, h) <==> MachineEnds(ops, FunctionCode(params, body), c, h)
  {
    hide *;
    CalledParts(params, st, c);
    forall turns: nat ensures Tells(ops, AsWritten, body, st, turns) {
      TidyIsFaithful(ops, body, st, turns);
      FaithfulTells(ops, body, st, turns);
    }
    CompiledFunctionAgrees(ops, AsWritten, params, body, st, c, h);
  }

  lemma {:induction false} FaithfulTells(ops: Ops, body: Stmt, st: State, turns: nat)
    requires st.Valid() && Faithful(ops, body, st, turns)
    ensures Tells(ops, AsWritten, body, st, turns)
  {
  }

  lemma {:induction false} CalledParts(params: seq<string>, st: State, c: Config)
    requires Called(params, st, c)
    ensures |Entry(params).env.names| == |Entry(params).env.regs|
    ensures st.Valid() && c.pc == 0 && c.handlers == [] && Ready(Entry(params).env, Entry(params).next, st, c)
  {
  }

  /** A run that has ended stays ended, so it ends in one way only. */
  lemma {:induction false} EndsOnce(ops: Ops, code: seq<Instr>, m: Status, n: nat, k: nat)
    requires !Steps(ops, code, m, n).Running?
    ensures n <= k ==> Steps(ops, code, m, k) == Steps(ops, code, m, n)
    ensures k <= n && !Steps(ops, code, m, k).Running? ==> Steps(ops, code, m, k) == Steps(ops, code, m, n)
  {
    if n <= k {
      StepsAdd(ops, code, m, n, k - n);
      EndedStays(ops, code, Steps(ops, code, m, n), k - n);
    } else {
      StepsAdd(ops, code, m, k, n - k);
      if !Steps(ops, code, m, k).Running? {
        EndedStays(ops, code, Steps(ops, code, m, k), n - k);
      }
    }
  }

  /** What the machine does never depends on registers above the arguments. */
  lemma {:induction false} CompiledFunctionIgnoresGarbage(ops: Ops, params: seq<string>, body: Stmt, st: State, c: Config, d: Config, h: Status)
    requires Fits(body, false, false) && Called(params, st, c) && Called(params, st, d)
    requires forall turns: nat :: Tells(ops, AsEmitted, body, st, turns)
    ensures MachineEnds(ops, FunctionCode(params, body), c, h) <==> MachineEnds(ops, FunctionCode(params, body), d, h)
  {
    CompiledFunctionAgrees(ops, AsEmitted, params, body, st, c, h);
    CompiledFunctionAgrees(ops, AsEmitted, params, body, st, d, h);
  }
}
