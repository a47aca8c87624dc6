/** The `for` loops: what a turn of the lowered loop does before the body. */
module LowerFor {
  import opened Shapes
  import opened Values
  import opened Surface
  import opened Lower
  import opened Erasure
  import opened LowerExprs
  import opened ExecFacts

  /** Where the lowered loop keeps its own locals: from position `n` on, the iterable, the key
      and the value, with `k` in the key if the loop has no key variable. */
  ghost predicate Scaffold(t: State, n: nat, s: Stmt, it: Value, k: Value)
    requires s.For?
  {
    && |t.locals| == n + 3
    && t.locals[n] == Binding(IterName, it)
    && t.locals[n + 1].name == KeyOf(s.key) && (s.key.None? ==> t.locals[n + 1].val == k)
    && t.locals[n + 2].name == s.value
  }

  /** The loop with its hidden key as a key variable. */
  function Keyed(s: Stmt): Stmt
    requires s.For?
  {
    s.(key := Some(KeyOf(s.key)))
  }

  predicate NamesFine(s: Stmt) {
    s.For? && s.value.User? && (s.key.Some? ==> s.key.value.User?)
  }

  lemma {:induction false} ReadsIterable(t: State, n: nat, s: Stmt, it: Value, k: Value)
    requires NamesFine(s) && Scaffold(t, n, s, it, k)
    ensures Read(IterName, t) == Did(Ok(it), t)
    ensures s.key.None? ==> Read(KeyName, t) == Did(Ok(k), t)
    ensures s.key.None? ==> forall v :: Write(KeyName, v, t) == Did(Ok(v), t.(locals := t.locals[n + 1 := Binding(KeyName, v)]))
  {
    LookupGone(t.locals, IterName, n);
    if s.key.None? { LookupGone(t.locals, KeyName, n + 1); }
  }

  /** Writing a variable of the program leaves the scaffold in place. */
  lemma {:induction false} ScaffoldStays(t: State, t1: State, n: nat, s: Stmt, it: Value, k: Value)
    requires NamesFine(s) && Scaffold(t, n, s, it, k) && KeepsHidden(t.locals, t1.locals) && |t1.locals| == |t.locals|
    ensures Scaffold(t1, n, s, it, k)
  {
  }

  lemma {:induction false} HiddenStoreShows(t: State, st: State, i: nat, v: Value)
    requires Shows(t, st) && i < |t.locals| && t.locals[i].name.Hidden?
    ensures Shows(t.(locals := t.locals[i := Binding(t.locals[i].name, v)]), st)
  {
    EraseUpdate(t.locals, i, v);
  }

  lemma {:induction false} EraseUpdate(locals: seq<Binding>, i: nat, v: Value)
    requires i < |locals| && locals[i].name.Hidden?
    ensures Erase(locals[i := Binding(locals[i].name, v)]) == Erase(locals)
    decreases |locals|
  {
    var n := |locals| - 1;
    var b := Binding(locals[i].name, v);
    assert locals == locals[..n] + [locals[n]];
    if i == n {
      assert locals[i := b] == locals[..n] + [b];
      EraseSnoc(locals[..n], b);
      EraseSnoc(locals[..n], locals[n]);
    } else {
      assert locals[i := b] == locals[..n][i := b] + [locals[n]];
      EraseUpdate(locals[..n], i, v);
      EraseSnoc(locals[..n][i := b], locals[n]);
      EraseSnoc(locals[..n], locals[n]);
    }
  }

  /** The start of a turn, in the program and in the lowered loop. */
  ghost predicate SameFetch(t0: State, n: nat, s: Stmt, it: Value, f: Fetched, f1: Fetched)
    requires s.For?
  {
    && f1.res == f.res && f1.done == f.done
    && Shows(f1.st, f.st) && KeepsHidden(t0.locals, f1.st.locals)
    && (f.res.Ok? ==> Scaffold(f1.st, n, s, it, f.res.v))
  }

  lemma {:induction false} SimNextKey(h: Host, s: Stmt, it: Value, k: Value, t0: State, n: nat, t: State, st: State)
    requires NamesFine(s) && Scaffold(t, n, s, it, k) && Shows(t, st) && KeepsHidden(t0.locals, t.locals) && |t0.locals| == n
    ensures
      var d, d1 := NextKey(h, s, it, k, st), NextKey(h, Keyed(s), it, Nil, t);
      Matches(t0, d, d1) && (d.res.Ok? ==> Scaffold(d1.st, n, s, it, d.res.v) && Read(KeyOf(s.key), d1.st) == Did(Ok(d.res.v), d1.st))
  {
    ReadsIterable(t, n, s, it, k);
    var name := KeyOf(s.key);
    var before, before1 := if s.key.Some? then Read(name, st) else Did(Ok(k), st), Read(name, t);
    if s.key.Some? {
      ReadMatches(name, t, st);
      ReadStays(name, st);
      ReadStays(name, t);
    }
    if before.res.Ok? {
      ApplyMatches(h, Method("@key"), [it, before.res.v], t, st);
      var next, next1 := Apply(h, Method("@key"), [it, before.res.v], st), Apply(h, Method("@key"), [it, before.res.v], t);
      if next.res.Ok? {
        ScaffoldStays(t, next1.st, n, s, it, k);
        KeepKey(h, s, it, k, next.res.v, t0, n, next1.st, next.st);
      }
    }
  }

  lemma {:induction false} KeepKey(h: Host, s: Stmt, it: Value, k: Value, key: Value, t0: State, n: nat, t: State, st: State)
    requires NamesFine(s) && Scaffold(t, n, s, it, k) && Shows(t, st) && KeepsHidden(t0.locals, t.locals) && |t0.locals| == n
    ensures
      var d, d1 := if s.key.Some? then Write(s.key.value, key, st) else Did(Ok(key), st), Write(KeyOf(s.key), key, t);
      Matches(t0, d, d1) && (d.res.Ok? ==> d.res.v == key && Scaffold(d1.st, n, s, it, key) && Read(KeyOf(s.key), d1.st) == Did(Ok(key), d1.st))
  {
    if s.key.Some? {
      KeepNamedKey(h, s, it, k, key, t0, n, t, st);
    } else {
      KeepHiddenKey(h, s, it, k, key, t0, n, t, st);
    }
    hide *;
  }

  lemma {:induction false} KeepHiddenKey(h: Host, s: Stmt, it: Value, k: Value, key: Value, t0: State, n: nat, t: State, st: State)
    requires s.For? && s.key.None? && NamesFine(s) && Scaffold(t, n, s, it, k) && Shows(t, st) && KeepsHidden(t0.locals, t.locals) && |t0.locals| == n
    ensures
      var d, d1 := Did(Ok(key), st), Write(KeyOf(s.key), key, t);
      Matches(t0, d, d1) && Scaffold(d1.st, n, s, it, key) && Read(KeyOf(s.key), d1.st) == Did(Ok(key), d1.st)
  {
    hide Lookup, Erase;
    ReadsIterable(t, n, s, it, k);
    HiddenStoreShows(t, st, n + 1, key);
    var t1 := t.(locals := t.locals[n + 1 := Binding(KeyName, key)]);
    ReadsIterable(t1, n, s, it, key);
  }

  lemma {:induction false} KeepNamedKey(h: Host, s: Stmt, it: Value, k: Value, key: Value, t0: State, n: nat, t: State, st: State)
    requires s.For? && s.key.Some? && NamesFine(s) && Scaffold(t, n, s, it, k) && Shows(t, st) && KeepsHidden(t0.locals, t.locals) && |t0.locals| == n
    ensures
      var d, d1 := Write(s.key.value, key, st), Write(s.key.value, key, t);
      Matches(t0, d, d1) && (d.res.Ok? ==> d.res.v == key && Scaffold(d1.st, n, s, it, key) && Read(s.key.value, d1.st) == Did(Ok(key), d1.st))
  {
    var name := s.key.value;
    WriteMatches(name, key, t, st);
    var d, d1 := Write(name, key, st), Write(name, key, t);
    MatchesFrom(t0, t, d, d1);
    if d.res.Ok? {
      ScaffoldStays(t, d1.st, n, s, it, k);
      WriteReads(name, key, t);
    }
  }

  lemma {:induction false} WriteReads(name: Name, v: Value, t: State)
    requires Write(name, v, t).res.Ok?
    ensures Read(name, Write(name, v, t).st) == Did(Ok(v), Write(name, v, t).st)
  {
    if Lookup(t.locals, name).Some? { StoreLookup(t.locals, name, v); }
  }

  lemma {:induction false} StoreLookup(locals: seq<Binding>, name: Name, v: Value)
    requires Lookup(locals, name).Some?
    ensures Lookup(Store(locals, name, v), name) == Some(v)
    decreases |locals|
  {
    if locals != [] {
      var n := |locals| - 1;
      if locals[n].name != name {
        StoreLookup(locals[..n], name, v);
        assert Store(locals, name, v)[..n] == Store(locals[..n], name, v);
      }
    }
  }

  lemma {:induction false} SimTakeValue(h: Host, s: Stmt, it: Value, key: Value, t0: State, n: nat, t: State, st: State)
    requires NamesFine(s) && Scaffold(t, n, s, it, key) && Shows(t, st) && KeepsHidden(t0.locals, t.locals) && |t0.locals| == n
    ensures SameFetch(t0, n, s, it, TakeValue(h, s, it, key, st), TakeValue(h, Keyed(s), it, key, t))
  {
    ApplyMatches(h, Cmp(Eq), [key, Nil], t, st);
    var over, over1 := Apply(h, Cmp(Eq), [key, Nil], st), Apply(h, Cmp(Eq), [key, Nil], t);
    ScaffoldStays(t, over1.st, n, s, it, key);
    if over.res.Ok? && Falsey(over.res.v) {
      ApplyMatches(h, Method("@value"), [it, key], over1.st, over.st);
      var value, value1 := Apply(h, Method("@value"), [it, key], over.st), Apply(h, Method("@value"), [it, key], over1.st);
      hide Apply;
      if value.res.Ok? {
        WriteMatches(s.value, value.res.v, value1.st, value.st);
        var got, got1 := Write(s.value, value.res.v, value.st), Write(s.value, value.res.v, value1.st);
        MatchesFrom(t0, value1.st, got, got1);
        ScaffoldStays(value1.st, got1.st, n, s, it, key);
      }
    }
  }

  lemma {:induction false} SimFetch(h: Host, s: Stmt, it: Value, k: Value, t0: State, n: nat, t: State, st: State)
    requires NamesFine(s) && Scaffold(t, n, s, it, k) && Shows(t, st) && KeepsHidden(t0.locals, t.locals) && |t0.locals| == n
    ensures SameFetch(t0, n, s, it, Fetch(h, s, it, k, st), Fetch(h, Keyed(s), it, Nil, t))
  {
    hide NextKey, TakeValue, Shows, Scaffold, KeepsHidden;
    SimNextKey(h, s, it, k, t0, n, t, st);
    var d, d1 := NextKey(h, s, it, k, st), NextKey(h, Keyed(s), it, Nil, t);
    if d.res.Ok? { SimTakeValue(h, s, it, d.res.v, t0, n, d1.st, d.st); }
  }

  // The statements a turn starts with.

  lemma {:induction false} IdentIs(h: Host, name: Name, st: State)
    ensures Eval(h, Meant, Ident(name), st) == Read(name, st)
  {
  }

  lemma {:induction false} AdvanceIs(h: Host, s: Stmt, it: Value, t: State, turns: nat)
    requires s.For? && Read(IterName, t) == Did(Ok(it), t)
    ensures
      var d := NextKey(h, Keyed(s), it, Nil, t);
      Exec(h, Meant, Advance(KeyOf(s.key)), t, turns) == if d.res.Ok? then Ended(Normal, d.st) else Failed(d.res, d.st)
  {
    hide Eval, Exec, Read, Write, Apply;
    var k := KeyOf(s.key);
    var call := Op(Method("@key"), [Ident(IterName), Ident(k)]);
    SimpleIs(h, Meant, Advance(k), t, turns);
    AssignVar(h, Meant, k, call, t);
    OpTwo(h, Meant, Method("@key"), Ident(IterName), Ident(k), t);
    IdentIs(h, IterName, t);
    IdentIs(h, k, t);
    ReadStays(k, t);
  }

  lemma {:induction false} StopIs(h: Host, k: Name, key: Value, t: State, turns: nat)
    requires Read(k, t) == Did(Ok(key), t)
    ensures
      var over := Apply(h, Cmp(Eq), [key, Nil], t);
      Exec(h, Meant, Stop(k), t, turns) ==
        if !over.res.Ok? then Failed(over.res, over.st)
        else Ended(if Falsey(over.res.v) then Normal else Broke, over.st)
  {
    assert forall st :: Within(h, Meant, Break, st, turns) == Ended(Broke, st);
    assert Eval(h, Meant, Lit(Nil), t) == Did(Ok(Nil), t);
    hide Eval, Exec, Read, Apply, Within;
    IfIs(h, Meant, Stop(k), t, turns);
    OpTwo(h, Meant, Cmp(Eq), Ident(k), Lit(Nil), t);
    IdentIs(h, k, t);
  }

  lemma {:induction false} FetchToIs(h: Host, k: Name, value: Name, it: Value, key: Value, t: State, turns: nat)
    requires Read(IterName, t) == Did(Ok(it), t) && Read(k, t) == Did(Ok(key), t)
    ensures
      var got := Apply(h, Method("@value"), [it, key], t);
      Exec(h, Meant, FetchTo(k, value), t, turns) ==
        if !got.res.Ok? then Failed(got.res, got.st)
        else
          var w := Write(value, got.res.v, got.st);
          if w.res.Ok? then Ended(Normal, w.st) else Failed(w.res, w.st)
  {
    hide Eval, Exec, Read, Write, Apply;
    var call := Op(Method("@value"), [Ident(IterName), Ident(k)]);
    SimpleIs(h, Meant, FetchTo(k, value), t, turns);
    AssignVar(h, Meant, value, call, t);
    OpTwo(h, Meant, Method("@value"), Ident(IterName), Ident(k), t);
    IdentIs(h, IterName, t);
    IdentIs(h, k, t);
  }

  /** What the start of a turn comes to. */
  function Started(f: Fetched): Ended {
    if !f.res.Ok? then Failed(f.res, f.st) else Ended(if f.done then Broke else Normal, f.st)
  }

  /** The statements a turn of the lowered loop starts with fetch the next key and value. */
  lemma {:induction false} StartIs(h: Host, s: Stmt, it: Value, k: Value, t0: State, n: nat, t: State, st: State, rest: Stmt, turns: nat)
    requires NamesFine(s) && Scaffold(t, n, s, it, k) && Shows(t, st) && KeepsHidden(t0.locals, t.locals) && |t0.locals| == n
    requires !rest.FixContinue?
    ensures
      var kn := KeyOf(s.key);
      var b := Started(Fetch(h, Keyed(s), it, Nil, t));
      ExecSeq(h, Meant, [Advance(kn), Stop(kn), FetchTo(kn, s.value), rest], t, turns) ==
        if b.how.Normal? then Exec(h, Meant, rest, b.st, turns) else b
  {
    var kn := KeyOf(s.key);
    ReadsIterable(t, n, s, it, k);
    SimNextKey(h, s, it, k, t0, n, t, st);
    hide Eval, Exec, ExecSeq, Read, Write, Apply, NextKey, TakeValue, Shows, Scaffold, KeepsHidden, Advance, Stop, FetchTo;
    StartNames(kn, s.value);
    AdvanceIs(h, s, it, t, turns);
    SeqFour(h, Advance(kn), Stop(kn), FetchTo(kn, s.value), rest, t, turns);
    var d, d1 := NextKey(h, s, it, k, st), NextKey(h, Keyed(s), it, Nil, t);
    if d.res.Ok? {
      RestIs(h, s, it, d.res.v, n, d1.st, turns);
    }
  }

  lemma {:induction false} StartNames(k: Name, value: Name)
    ensures !Advance(k).FixContinue? && !Stop(k).FixContinue? && !FetchTo(k, value).FixContinue?
  {
  }

  lemma {:induction false} SeqFour(h: Host, a: Stmt, b: Stmt, c: Stmt, d: Stmt, st: State, turns: nat)
    requires !a.FixContinue? && !b.FixContinue? && !c.FixContinue? && !d.FixContinue?
    ensures
      var ra := Exec(h, Meant, a, st, turns);
      var rb := Exec(h, Meant, b, ra.st, turns);
      var rc := Exec(h, Meant, c, rb.st, turns);
      ExecSeq(h, Meant, [a, b, c, d], st, turns) ==
        if !ra.how.Normal? then ra
        else if !rb.how.Normal? then rb
        else if !rc.how.Normal? then rc
        else Exec(h, Meant, d, rc.st, turns)
  {
    hide Exec, ExecSeq;
    assert [a, b, c, d] == [a] + [b, c, d] && [b, c, d] == [b] + [c, d];
    var ra := Exec(h, Meant, a, st, turns);
    var rb := Exec(h, Meant, b, ra.st, turns);
    SeqFront(h, Meant, a, [b, c, d], st, turns);
    SeqFront(h, Meant, b, [c, d], ra.st, turns);
    SeqTwo(h, Meant, c, d, rb.st, turns);
  }

  /** Stop and fetch, once the key is there. */
  lemma {:induction false} RestIs(h: Host, s: Stmt, it: Value, key: Value, n: nat, t: State, turns: nat)
    requires NamesFine(s) && Scaffold(t, n, s, it, key) && Read(KeyOf(s.key), t) == Did(Ok(key), t)
    ensures
      var kn := KeyOf(s.key);
      var rb := Exec(h, Meant, Stop(kn), t, turns);
      var rc := Exec(h, Meant, FetchTo(kn, s.value), rb.st, turns);
      var b := Started(TakeValue(h, Keyed(s), it, key, t));
      b == if rb.how.Normal? then rc else rb
  {
    hide Exec, Read, Write, Apply, Scaffold, Stop, FetchTo;
    var kn := KeyOf(s.key);
    var over := Apply(h, Cmp(Eq), [key, Nil], t);
    StopIs(h, kn, key, t, turns);
    RestReads(h, s, it, key, n, t);
    if over.res.Ok? && Falsey(over.res.v) {
      FetchToIs(h, kn, s.value, it, key, over.st, turns);
    }
  }

  lemma {:induction false} RestReads(h: Host, s: Stmt, it: Value, key: Value, n: nat, t: State)
    requires NamesFine(s) && Scaffold(t, n, s, it, key) && Read(KeyOf(s.key), t) == Did(Ok(key), t)
    ensures
      var over := Apply(h, Cmp(Eq), [key, Nil], t);
      Read(IterName, over.st) == Did(Ok(it), over.st) && Read(KeyOf(s.key), over.st) == Did(Ok(key), over.st)
  {
    ReadsIterable(t, n, s, it, key);
    assert t.locals[n + 1].name == KeyOf(s.key) && t.locals[n].name == IterName;
    ReadAfter(h, KeyOf(s.key), key, t);
    ReadAfter(h, IterName, it, t);
    hide Read, Apply;
  }

  /** Comparing changes no variable, whatever the runtime does to globals. */
  lemma {:induction false} ReadAfter(h: Host, name: Name, v: Value, t: State)
    requires Read(name, t) == Did(Ok(v), t) && exists i :: 0 <= i < |t.locals| && t.locals[i].name == name
    ensures forall a :: Apply(h, Cmp(Eq), a, t).st.locals == t.locals
    ensures forall st: State :: st.locals == t.locals ==> Read(name, st) == Did(Ok(v), st)
  {
    LookupSome(t.locals, name);
  }

  lemma {:induction false} LookupSome(locals: seq<Binding>, name: Name)
    requires exists i :: 0 <= i < |locals| && locals[i].name == name
    ensures Lookup(locals, name).Some?
    decreases |locals|
  {
    var n := |locals| - 1;
    if locals[n].name != name {
      var i :| 0 <= i < |locals| && locals[i].name == name;
      assert locals[..n][i].name == name;
      LookupSome(locals[..n], name);
    }
  }
}
