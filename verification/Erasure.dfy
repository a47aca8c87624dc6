/** A lowered program keeps locals of its own. */
module Erasure {
  // Seen without them it is in the state of the program it was made from.

  import opened Shapes
  import opened Values
  import opened Surface

  function Erase(locals: seq<Binding>): seq<Binding> {
    if locals == [] then []
    else
      var first, last := Erase(locals[..|locals| - 1]), locals[|locals| - 1];
      if last.name.Hidden? then first else first + [last]
  }

  ghost predicate Shows(t: State, s: State) {
    Erase(t.locals) == s.locals && t.globals == s.globals && t.log == s.log
  }

  /** Hidden locals there before are still there, with their values. */
  ghost predicate KeepsHidden(a: seq<Binding>, b: seq<Binding>) {
    Grows(a, b) && forall i :: 0 <= i < |a| && a[i].name.Hidden? ==> b[i] == a[i]
  }

  lemma {:induction false} KeepsTwice(a: seq<Binding>, b: seq<Binding>, c: seq<Binding>)
    requires KeepsHidden(a, b) && KeepsHidden(b, c)
    ensures KeepsHidden(a, c)
  {
  }

  lemma {:induction false} EraseConcat(a: seq<Binding>, b: seq<Binding>)
    ensures Erase(a + b) == Erase(a) + Erase(b)
    decreases |b|
  {
    if b == [] {
      assert a + b == a;
    } else {
      var n := |b| - 1;
      assert (a + b)[..|a| + n] == a + b[..n];
      EraseConcat(a, b[..n]);
    }
  }

  lemma {:induction false} EraseLen(a: seq<Binding>, b: seq<Binding>)
    requires SameNames(a, b)
    ensures |Erase(a)| == |Erase(b)|
    decreases |a|
  {
    if a != [] {
      EraseLen(a[..|a| - 1], b[..|b| - 1]);
    }
  }

  /** Leaving a scope on both sides. */
  lemma {:induction false} EraseLeave(a: seq<Binding>, b: seq<Binding>)
    requires Grows(a, b)
    ensures |Erase(a)| <= |Erase(b)| && Erase(b[..|a|]) == Erase(b)[..|Erase(a)|]
  {
    EraseConcat(b[..|a|], b[|a|..]);
    assert b == b[..|a|] + b[|a|..];
    EraseLen(a, b[..|a|]);
  }

  lemma {:induction false} LookupErase(locals: seq<Binding>, name: Name)
    requires name.User?
    ensures Lookup(Erase(locals), name) == Lookup(locals, name)
    decreases |locals|
  {
    if locals != [] {
      var n := |locals| - 1;
      LookupErase(locals[..n], name);
      if !locals[n].name.Hidden? {
        assert (Erase(locals[..n]) + [locals[n]])[..|Erase(locals[..n])|] == Erase(locals[..n]);
      }
    }
  }

  lemma {:induction false} EraseSnoc(first: seq<Binding>, last: Binding)
    ensures Erase(first + [last]) == if last.name.Hidden? then Erase(first) else Erase(first) + [last]
  {
    assert (first + [last])[..|first|] == first;
  }

  lemma {:induction false} StoreSnoc(first: seq<Binding>, last: Binding, name: Name, v: Value)
    ensures Store(first + [last], name, v) == if last.name == name then first + [Binding(name, v)] else Store(first, name, v) + [last]
  {
    assert (first + [last])[..|first|] == first;
  }

  lemma {:induction false} StoreErase(locals: seq<Binding>, name: Name, v: Value)
    requires name.User?
    ensures Erase(Store(locals, name, v)) == Store(Erase(locals), name, v)
    decreases |locals|
  {
    if locals != [] {
      var n := |locals| - 1;
      var first, last := locals[..n], locals[n];
      assert locals == first + [last];
      hide Erase, Store;
      StoreErase(first, name, v);
      EraseSnoc(first, last);
      StoreSnoc(first, last, name, v);
      EraseSnoc(first, Binding(name, v));
      EraseSnoc(Store(first, name, v), last);
      StoreSnoc(Erase(first), last, name, v);
    }
  }

  lemma {:induction false} StoreKeeps(locals: seq<Binding>, name: Name, v: Value)
    requires name.User?
    ensures KeepsHidden(locals, Store(locals, name, v))
    decreases |locals|
  {
    if locals != [] { StoreKeeps(locals[..|locals| - 1], name, v); }
  }

  lemma {:induction false} LookupGone(locals: seq<Binding>, name: Name, i: nat)
    requires i < |locals| && locals[i].name == name && forall j :: i < j < |locals| ==> locals[j].name != name
    ensures Lookup(locals, name) == Some(locals[i].val)
    ensures forall v :: Store(locals, name, v) == locals[i := Binding(name, v)]
    decreases |locals|
  {
    var n := |locals| - 1;
    if i < n {
      LookupGone(locals[..n], name, i);
      forall v ensures Store(locals, name, v) == locals[i := Binding(name, v)] {
        assert Store(locals, name, v) == locals[..n][i := Binding(name, v)] + [locals[n]];
      }
    } else {
      forall v ensures Store(locals, name, v) == locals[i := Binding(name, v)] {
        assert locals == locals[..n] + [locals[n]];
      }
    }
  }

  // What it means for a lowered piece to match the original.

  ghost predicate Matches(t: State, d: Did, d1: Did) {
    d1.res == d.res && Shows(d1.st, d.st) && KeepsHidden(t.locals, d1.st.locals)
  }

  ghost predicate MatchesAll(t: State, d: DidAll, d1: DidAll) {
    d1.vals == d.vals && d1.stop == d.stop && Shows(d1.st, d.st) && KeepsHidden(t.locals, d1.st.locals)
  }

  ghost predicate MatchesEnd(t: State, r: Ended, r1: Ended) {
    r1.how == r.how && Shows(r1.st, r.st) && KeepsHidden(t.locals, r1.st.locals)
  }

  lemma {:induction false} ReadMatches(name: Name, t: State, s: State)
    requires Shows(t, s) && name.User?
    ensures Matches(t, Read(name, s), Read(name, t))
  {
    LookupErase(t.locals, name);
  }

  lemma {:induction false} WriteMatches(name: Name, v: Value, t: State, s: State)
    requires Shows(t, s) && name.User?
    ensures Matches(t, Write(name, v, s), Write(name, v, t))
  {
    LookupErase(t.locals, name);
    StoreErase(t.locals, name, v);
    StoreKeeps(t.locals, name, v);
  }

  lemma {:induction false} ApplyMatches(h: Host, kind: Kind, args: seq<Value>, t: State, s: State)
    requires Shows(t, s)
    ensures Matches(t, Apply(h, kind, args, s), Apply(h, kind, args, t)) && Apply(h, kind, args, t).res == Apply(h, kind, args, s).res
    ensures Shows(Apply(h, kind, args, t).st, Apply(h, kind, args, s).st) && Apply(h, kind, args, t).st.locals == t.locals
  {
  }

  /** A match in a later state is a match in the first. */
  lemma {:induction false} MatchesFrom(t: State, t1: State, d: Did, d1: Did)
    requires KeepsHidden(t.locals, t1.locals) && Matches(t1, d, d1)
    ensures Matches(t, d, d1)
  {
    KeepsTwice(t.locals, t1.locals, d1.st.locals);
  }

  lemma {:induction false} MatchesEndFrom(t: State, t1: State, r: Ended, r1: Ended)
    requires KeepsHidden(t.locals, t1.locals) && MatchesEnd(t1, r, r1)
    ensures MatchesEnd(t, r, r1)
  {
    KeepsTwice(t.locals, t1.locals, r1.st.locals);
  }
}
