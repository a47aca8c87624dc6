/** Counting against the `@key`/`@value` protocol of ranges. */
module RangeLoop {
  import opened Shapes
  import opened Values
  import opened Surface
  import opened Lower
  import opened Erasure
  import opened LowerExprs
  import opened ExecFacts

  function Sign(a: int, b: int): int {
    if b >= a then 1 else -1
  }

  /** The value of turn `i`. */
  function ValueAt(a: int, b: int, i: nat): int {
    a + i * Sign(a, b)
  }

  /** The key before turn `i`. */
  function KeyBefore(i: nat): Value {
    if i == 0 then Nil else Num(i - 1)
  }

  /** The range's own protocol: turn `i` has the `i`-th value, and there are as many turns as
      the range is wide. */
  lemma {:induction false} RangeFetch(h: Host, s: Stmt, st: State, m: nat, a: int, b: int, i: nat)
    requires s.For? && s.key.None? && |st.locals| == m + 1 && st.locals[m].name == s.value && i <= Width(a, b)
    ensures
      var f := Fetch(h, s, Span(a, b), KeyBefore(i), st);
      if i < Width(a, b) then f == Fetched(Ok(Num(i)), false, st.(locals := st.locals[m := Binding(s.value, Num(ValueAt(a, b, i)))]))
      else f.res.Ok? && f.done && f.st == st
  {
    LookupGone(st.locals, s.value, m);
    assert RangeKey(a, b, KeyBefore(i)) == Ok(if i < Width(a, b) then Num(i) else Nil);
    if i < Width(a, b) {
      assert RangeValue(a, b, Num(i)) == Ok(Num(ValueAt(a, b, i)));
    }
  }

  /** With numbers for bounds, the counting loop has as many turns as the range is wide, and moves
      towards the upper bound. */
  lemma {:induction false} NumbersCount(h: Host, a: int, b: int, st: State)
    ensures CountOf(h, Num(a), Num(b), st) == Did(Ok(Num(Width(a, b))), st) && StepOf(h, Num(a), Num(b), st) == Did(Ok(Num(Sign(a, b))), st)
    ensures forall i: nat :: Apply(h, Cmp(Lt), [Num(i), Num(Width(a, b))], st) == Did(Ok(Bool(i < Width(a, b))), st)
  {
  }

  /** A turn of the counting loop that began with the `i`-th value and left the variable at `w`
      moves on to just what the range's protocol fetches next if and only if `w` is that value. */
  lemma {:induction false} NextValueExactly(h: Host, s: Stmt, st: State, m: nat, a: int, b: int, i: nat, w: int)
    requires s.For? && s.key.None? && |st.locals| == m + 1 && st.locals[m] == Binding(s.value, Num(w))
    ensures
      var d := MoveOn(h, s.value, Num(Sign(a, b)), st);
      && d.res.Ok? && (w == ValueAt(a, b, i) ==> d.st == st.(locals := st.locals[m := Binding(s.value, Num(ValueAt(a, b, i + 1)))]))
      && (i + 1 < Width(a, b) ==> (Fetch(h, s, Span(a, b), KeyBefore(i + 1), st).st == d.st <==> w == ValueAt(a, b, i)))
  {
    LookupGone(st.locals, s.value, m);
    var d := MoveOn(h, s.value, Num(Sign(a, b)), st);
    assert d == Did(Ok(Num(w + Sign(a, b))), st.(locals := st.locals[m := Binding(s.value, Num(w + Sign(a, b)))]));
    assert ValueAt(a, b, i + 1) == ValueAt(a, b, i) + Sign(a, b);
    if i + 1 < Width(a, b) {
      hide Fetch, MoveOn, Lookup, Store;
      RangeFetch(h, s, st, m, a, b, i + 1);
      var f := st.(locals := st.locals[m := Binding(s.value, Num(ValueAt(a, b, i + 1)))]);
      assert f.locals[m].val == Num(ValueAt(a, b, i + 1)) && d.st.locals[m].val == Num(w + Sign(a, b));
    }
  }
}
