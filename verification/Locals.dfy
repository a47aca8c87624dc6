/** Which locals are visible where, in the source and in the compiler. */
module Locals {
  import opened Shapes
  import opened Bytecode
  import opened Values
  import opened Core
  import opened CodeGen

  /** A statement that declares nothing in its own scope leaves the visible locals alone,
      however it ends. */
  lemma {:induction false} NoNewLocals(ops: Ops, rule: Rule, s: Stmt, st: State, turns: nat, inLoop: bool, own: bool)
    requires st.Valid() && Fits(s, inLoop, own) && !Declares(s)
    ensures Exec(ops, rule, s, st, turns).st.names == st.names
    decreases turns, s, 1
  {
    match s
    case If(c, t, f) =>
      NoNewLocals(ops, rule, t, st, turns, inLoop, false);
      if f.Some? { NoNewLocals(ops, rule, f.value, st, turns, inLoop, false); }
    case While(_, _) => NoNewLocalsInLoop(ops, rule, s, st, turns, inLoop, own);
    case Catch(body, handler, binds) => NoNewLocals(ops, rule, body, st, turns, inLoop, false);
    case _ =>
  }

  lemma {:induction false} NoNewLocalsInLoop(ops: Ops, rule: Rule, s: Stmt, st: State, turns: nat, inLoop: bool, own: bool)
    requires s.While? && st.Valid() && Fits(s, inLoop, own)
    ensures Exec(ops, rule, s, st, turns).st.names == st.names
    decreases turns, s, 0
  {
    if turns > 0 {
      NoNewLocals(ops, rule, s.body, st, turns - 1, true, true);
      NoNewLocals(ops, rule, s, Exec(ops, rule, s.body, st, turns - 1).st, turns - 1, inLoop, own);
    }
  }

  lemma {:induction false} NoNewLocalsInSeq(ops: Ops, rule: Rule, ss: seq<Stmt>, st: State, turns: nat, inLoop: bool, own: bool)
    requires st.Valid() && FitsSeq(ss, inLoop, own) && Plain(ss)
    ensures ExecSeq(ops, rule, ss, st, turns).st.names == st.names
    decreases ss
  {
    if ss != [] {
      var n := |ss| - 1;
      NoNewLocalsInSeq(ops, rule, ss[..n], st, turns, inLoop, own);
      NoNewLocals(ops, rule, ss[n], ExecSeq(ops, rule, ss[..n], st, turns).st, turns, inLoop, false);
    }
  }

  /** The compiler's scope grows at its end, with fresh registers. */
  ghost predicate Extends(x: Ctx, y: Ctx) {
    && x.loop == y.loop && x.next <= y.next
    && |x.env.names| <= |y.env.names| && x.env.names == y.env.names[..|x.env.names|]
    && |x.env.regs| <= |y.env.regs| && x.env.regs == y.env.regs[..|x.env.regs|]
    && (x.env.Valid(x.next) ==> y.env.Valid(y.next))
  }

  lemma {:induction false} ExtendsTwice(x: Ctx, y: Ctx, z: Ctx)
    requires Extends(x, y) && Extends(y, z)
    ensures Extends(x, z)
  {
    assert x.env.names == z.env.names[..|y.env.names|][..|x.env.names|];
    assert x.env.regs == z.env.regs[..|y.env.regs|][..|x.env.regs|];
  }

  lemma {:induction false} AfterExtends(s: Stmt, x: Ctx)
    ensures Extends(x, After(s, x))
    decreases s
  {
    match s
    case If(_, t, f) =>
      AfterExtends(t, x);
      if f.Some? {
        AfterExtends(f.value, After(t, x));
        ExtendsTwice(x, After(t, x), After(f.value, After(t, x)));
      }
    case While(_, body) => AfterExtends(body, x);
    case Catch(body, handler, binds) => CatchExtends(s, x);
    case _ =>
  }

  lemma {:induction false} CatchExtends(s: Stmt, x: Ctx)
    requires s.Catch?
    ensures Extends(x, After(s, x))
    decreases s, 0
  {
    var u := CatchCtx(s.binds, x);
    var v := After(s.body, u);
    assert After(s, x) == if s.handler.Some? then After(s.handler.value, v) else v;
    hide After;
    AfterExtends(s.body, u);
    ExtendsTwice(x, u, v);
    if s.handler.Some? {
      AfterExtends(s.handler.value, v);
      ExtendsTwice(x, v, After(s, x));
    }
  }

  lemma {:induction false} AfterSeqExtends(ss: seq<Stmt>, x: Ctx)
    ensures Extends(x, AfterSeq(ss, x))
    decreases ss
  {
    if ss != [] {
      var y := AfterSeq(ss[..|ss| - 1], x);
      AfterSeqExtends(ss[..|ss| - 1], x);
      AfterExtends(ss[|ss| - 1], y);
      ExtendsTwice(x, y, AfterSeq(ss, x));
    }
  }

  lemma {:induction false} SameScope(s: Stmt, x: Ctx, inLoop: bool, own: bool)
    requires Fits(s, inLoop, own) && !Declares(s)
    ensures After(s, x).env == x.env
    decreases s
  {
    match s
    case If(_, t, f) =>
      SameScope(t, x, inLoop, false);
      if f.Some? { SameScope(f.value, After(t, x), inLoop, false); }
    case While(_, body) => SameScope(body, x, true, true);
    case Catch(body, _, _) => SameScope(body, x, inLoop, false);
    case _ =>
  }

  lemma {:induction false} SameScopeSeq(ss: seq<Stmt>, x: Ctx, inLoop: bool, own: bool)
    requires FitsSeq(ss, inLoop, own) && Plain(ss)
    ensures AfterSeq(ss, x).env == x.env
    decreases ss
  {
    if ss != [] {
      var n := |ss| - 1;
      SameScopeSeq(ss[..n], x, inLoop, own);
      SameScope(ss[n], AfterSeq(ss[..n], x), inLoop, false);
    }
  }
}
