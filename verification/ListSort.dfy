/** `list.sort(comparator)`: a stable merge sort of positions under a comparator that is whatever the program wrote. */
module ListSort {
  // It may answer inconsistently, answer no number, change the list, or raise.

  import opened Shapes

  type Value = int

  /** One question put to the comparator: the positions compared. */
  datatype Call = Asked(left: nat, right: nat)

  datatype Answer = Number(n: int) | NoNumber | Raises(err: Value)

  /** What the comparator answers to two values after the calls before, and what it leaves in
      the list being sorted. */
  datatype Comparator = Comparator(answer: (Value, Value, seq<Call>) -> Answer, list: (seq<Value>, seq<Call>) -> seq<Value>)

  // The order a comparator may stand for.

  ghost predicate TotalPreorder(le: (Value, Value) -> bool) {
    && (forall a, b :: le(a, b) || le(b, a))
    && (forall a, b, c :: le(a, b) && le(b, c) ==> le(a, c))
  }

  ghost predicate AnswersBy(c: Comparator, le: (Value, Value) -> bool) {
    forall a, b, calls :: c.answer(a, b, calls).Number? && (c.answer(a, b, calls).n <= 0 <==> le(a, b))
  }

  lemma {:induction false} AnswersAt(c: Comparator, le: (Value, Value) -> bool, a: Value, b: Value, calls: seq<Call>)
    requires TotalPreorder(le) && AnswersBy(c, le)
    ensures c.answer(a, b, calls).Number? && (c.answer(a, b, calls).n <= 0 <==> le(a, b)) && (!le(a, b) ==> le(b, a))
  {
    var x := c.answer(a, b, calls);
    assert le(a, b) || le(b, a);
  }

  lemma {:induction false} Total(le: (Value, Value) -> bool, a: Value, b: Value)
    requires TotalPreorder(le)
    ensures le(a, b) || le(b, a)
  {
  }

  /** Position `x` comes before position `y`: its value is less, or they are equal and it was
      first. */
  ghost predicate Before(items: seq<Value>, le: (Value, Value) -> bool, x: nat, y: nat) {
    x < |items| && y < |items| && le(items[x], items[y]) && (le(items[y], items[x]) ==> x < y)
  }

  ghost predicate InOrder(items: seq<Value>, le: (Value, Value) -> bool, s: seq<nat>) {
    forall i, j :: 0 <= i < j < |s| ==> Before(items, le, s[i], s[j])
  }

  ghost predicate AllBefore(items: seq<Value>, le: (Value, Value) -> bool, s: seq<nat>, t: seq<nat>) {
    forall i, j :: 0 <= i < |s| && 0 <= j < |t| ==> Before(items, le, s[i], t[j])
  }

  predicate Increasing(s: seq<nat>) {
    forall i, j :: 0 <= i < j < |s| ==> s[i] < s[j]
  }

  lemma {:induction false} BeforeTransitive(items: seq<Value>, le: (Value, Value) -> bool, x: nat, y: nat, z: nat)
    requires TotalPreorder(le) && Before(items, le, x, y) && Before(items, le, y, z)
    ensures Before(items, le, x, z)
  {
    var a, b, c := items[x], items[y], items[z];
    assert le(a, b) && le(b, c);
    if le(c, a) {
      assert le(b, a) && le(c, b);
    }
  }

  /** Elements in order go on being in order when one is added that all the rest come after. */
  lemma {:induction false} PushInOrder(items: seq<Value>, le: (Value, Value) -> bool, s: seq<nat>, x: nat, t: seq<nat>)
    requires InOrder(items, le, s) && AllBefore(items, le, s, [x]) && AllBefore(items, le, s, t) && AllBefore(items, le, [x], t)
    ensures InOrder(items, le, s + [x]) && AllBefore(items, le, s + [x], t)
  {
    forall i, j | 0 <= i < j < |s + [x]| ensures Before(items, le, (s + [x])[i], (s + [x])[j]) {
      if j == |s| { assert Before(items, le, s[i], [x][0]); }
    }
    forall i, j | 0 <= i < |s + [x]| && 0 <= j < |t| ensures Before(items, le, (s + [x])[i], t[j]) {
      if i == |s| { assert Before(items, le, [x][0], t[j]); }
    }
  }

  /** The order leaves no choice: two arrangements of the same positions are the same. */
  lemma {:induction false} OrderIsUnique(items: seq<Value>, le: (Value, Value) -> bool, s: seq<nat>, t: seq<nat>)
    requires InOrder(items, le, s) && InOrder(items, le, t) && multiset(s) == multiset(t)
    ensures s == t
    decreases |s|
  {
    assert |s| == |multiset(s)| == |multiset(t)| == |t|;
    if s != [] {
      SameFirst(items, le, s, t);
      assert s == [s[0]] + s[1..] && t == [t[0]] + t[1..];
      assert multiset(s[1..]) == multiset(s) - multiset{s[0]};
      assert multiset(t[1..]) == multiset(t) - multiset{t[0]};
      OrderIsUnique(items, le, s[1..], t[1..]);
    }
  }

  lemma {:induction false} SameFirst(items: seq<Value>, le: (Value, Value) -> bool, s: seq<nat>, t: seq<nat>)
    requires InOrder(items, le, s) && InOrder(items, le, t) && multiset(s) == multiset(t) && s != [] && t != []
    ensures s[0] == t[0]
  {
    assert s[0] in multiset(t) && t[0] in multiset(s);
    var i :| 0 <= i < |t| && t[i] == s[0];
    var j :| 0 <= j < |s| && s[j] == t[0];
    assert i > 0 ==> Before(items, le, t[0], t[i]);
    assert j > 0 ==> Before(items, le, s[0], s[j]);
  }

  /** A call the comparator did not answer with a number counts as "equal". */
  function Sign(a: Answer): int {
    if a.Number? then a.n else 0
  }

  function AnswerTo(c: Comparator, items: seq<Value>, calls: seq<Call>, k: nat): Answer
    requires k < |calls| && calls[k].left < |items| && calls[k].right < |items|
  {
    c.answer(items[calls[k].left], items[calls[k].right], calls[..k])
  }

  /** Calls are about elements, the last one failed if the sort has, and no call was made after
      one that failed. */
  ghost predicate LogOk(c: Comparator, items: seq<Value>, calls: seq<Call>, failure: Option<Value>) {
    && (forall k :: 0 <= k < |calls| ==> calls[k].left < |items| && calls[k].right < |items|)
    && (forall k :: 0 <= k < |calls| ==> (AnswerTo(c, items, calls, k).Raises? <==> failure.Some? && k == |calls| - 1))
    && (failure.Some? ==> calls != [] && AnswerTo(c, items, calls, |calls| - 1) == Raises(failure.value))
  }

  lemma {:induction false} LogGrows(c: Comparator, items: seq<Value>, calls: seq<Call>, call: Call)
    requires LogOk(c, items, calls, None) && call.left < |items| && call.right < |items|
    ensures
      var a := c.answer(items[call.left], items[call.right], calls);
      LogOk(c, items, calls + [call], if a.Raises? then Some(a.err) else None)
  {
    var more := calls + [call];
    forall k: nat | k < |more| ensures AnswerTo(c, items, more, k) == if k < |calls| then AnswerTo(c, items, calls, k) else c.answer(items[call.left], items[call.right], calls) {
      assert more[..k] == calls[..k];
      assert k == |calls| ==> calls[..k] == calls;
    }
  }

  /** A list being sorted, and what has happened so far. */
  class Sort {
    const comparator: Comparator
    /** The list as it was. */
    var items: seq<Value>
    var list: seq<Value>
    var calls: seq<Call>
    var failure: Option<Value>

    constructor (list: seq<Value>, comparator: Comparator)
      ensures this.list == list && this.comparator == comparator && calls == [] && failure == None
    {
      this.comparator, this.list, items, calls, failure := comparator, list, [], [], None;
    }

    /** The log is in order, and only the comparator has touched the list. */
    ghost predicate Valid()
      reads this
    {
      LogOk(comparator, items, calls, failure) && list == Left(comparator, items, calls)
    }

    /** Asks the comparator, unless it has failed. */
    method CompareThrough(left: nat, right: nat) returns (r: int)
      requires Valid() && left < |items| && right < |items|
      modifies this`calls, this`failure, this`list
      ensures Valid() && old(calls) <= calls
      ensures old(failure).Some? ==> r == 0 && calls == old(calls) && failure == old(failure) && list == old(list)
      ensures old(failure).None? ==>
                var a := comparator.answer(items[left], items[right], old(calls));
                && calls == old(calls) + [Asked(left, right)]
                && r == Sign(a) && failure == if a.Raises? then Some(a.err) else None
    {
      if failure.Some? { return 0; }
      LogGrows(comparator, items, calls, Asked(left, right));
      hide LogOk;
      var a := comparator.answer(items[left], items[right], calls);
      assert (calls + [Asked(left, right)])[..|calls|] == calls;
      list := comparator.list(list, calls);
      calls := calls + [Asked(left, right)];
      if a.Raises? { failure := Some(a.err); }
      r := Sign(a);
    }

    /** Sorts the list in place, or, if the comparator failed, leaves what the comparator left
        in it and answers with the failure. */
    method SortWith(ghost le: (Value, Value) -> bool) returns (result: Option<Value>, ghost sorted: seq<nat>)
      requires calls == [] && failure == None
      modifies this
      ensures |old(list)| < 2 ==> result.None? && list == old(list) && calls == []
      ensures |old(list)| >= 2 ==> items == old(list) && LogOk(comparator, items, calls, failure) && result == failure
      ensures |old(list)| >= 2 && failure.Some? ==> list == Left(comparator, old(list), calls)
      ensures result.None? ==> multiset(list) == multiset(old(list))
      ensures |old(list)| >= 2 && result.None? ==>
                && Arranges(sorted, |old(list)|) && |list| == |sorted|
                && forall k :: 0 <= k < |list| ==> list[k] == old(list)[sorted[k]]
      ensures TotalPreorder(le) && AnswersBy(comparator, le) ==> result.None? && SortedBy(le, list)
      ensures |old(list)| >= 2 && TotalPreorder(le) && AnswersBy(comparator, le) ==> EqualKeepOrder(le, list, sorted)
    {
      sorted := [];
      if |list| < 2 { return None, []; }
      ghost var ordered := TotalPreorder(le) && AnswersBy(comparator, le);
      items := list;
      var order := Positions(|items|);
      assert LogOk(comparator, items, calls, failure);
      hide LogOk, TotalPreorder, AnswersBy, InOrder, SortedBy, EqualKeepOrder;
      var ranks := MergeSort(order, le);
      sorted := ranks;
      ElementsKept(ranks, order, |items|);
      assert |multiset(ranks)| == |multiset(order)|;
      var ranked := Ranked(items, ranks);
      RankedIsPermutation(items, ranks);
      if ordered { RankedInOrder(items, le, ranks); }
      if failure.Some? { return failure, sorted; }
      list := ranked;
      return None, sorted;
    }

    method MergeSort(order: seq<nat>, ghost le: (Value, Value) -> bool) returns (merged: seq<nat>)
      requires Valid() && Within(order, |items|)
      modifies this`calls, this`failure, this`list
      ensures Valid() && old(calls) <= calls
      ensures old(failure).Some? ==> calls == old(calls) && failure == old(failure) && list == old(list)
      ensures multiset(merged) == multiset(order)
      ensures TotalPreorder(le) && AnswersBy(comparator, le) && Increasing(order) && old(failure).None? ==> failure.None? && InOrder(items, le, merged)
      decreases |order|
    {
      if |order| < 2 { return order; }
      hide LogOk;
      var middle := |order| / 2;
      var left := MergeSort(order[..middle], le);
      var right := MergeSort(order[middle..], le);
      assert order == order[..middle] + order[middle..];
      ElementsKept(left, order[..middle], |items|);
      ElementsKept(right, order[middle..], |items|);
      ghost var ordered := TotalPreorder(le) && AnswersBy(comparator, le) && Increasing(order) && old(failure).None?;
      if ordered { HalvesApart(order, middle, left, right); }
      merged := Merge(left, right, le, ordered);
    }

    method Merge(left: seq<nat>, right: seq<nat>, ghost le: (Value, Value) -> bool, ghost ordered: bool) returns (merged: seq<nat>)
      requires Valid() && Within(left, |items|) && Within(right, |items|)
      requires ordered ==>
                 && TotalPreorder(le) && AnswersBy(comparator, le) && failure.None?
                 && InOrder(items, le, left) && InOrder(items, le, right) && Apart(left, right)
      modifies this`calls, this`failure, this`list
      ensures Valid() && old(calls) <= calls
      ensures old(failure).Some? ==> calls == old(calls) && failure == old(failure) && list == old(list)
      ensures multiset(merged) == multiset(left) + multiset(right)
      ensures ordered ==> failure.None? && InOrder(items, le, merged)
    {
      merged := [];
      var a, b := 0, 0;
      MergedNone(left, right);
      hide LogOk, Left, InOrder, AllBefore, TotalPreorder, Apart, Merged;
      if ordered { GoodNone(items, le, left, right); }
      hide Good;
      while a < |left| && b < |right|
        invariant a <= |left| && b <= |right|
        invariant Valid() && old(calls) <= calls
        invariant old(failure).Some? ==> calls == old(calls) && failure == old(failure) && list == old(list)
        invariant Merged(left, right, a, b, merged)
        invariant ordered ==> failure.None? && Good(items, le, left, right, a, b, merged)
      {
        MergedMore(left, right, a, b, merged);
        if ordered { AnswersAt(comparator, le, items[left[a]], items[right[b]], calls); }
        var c := CompareThrough(left[a], right[b]);
        if ordered { Chosen(items, le, left, right, a, b, merged, c <= 0); }
        if c <= 0 {
          merged := merged + [left[a]];
          a := a + 1;
        } else {
          merged := merged + [right[b]];
          b := b + 1;
        }
      }
      MergedAll(left, right, a, b, merged);
      if ordered { TailInOrder(items, le, left, right, a, b, merged); }
      merged := merged + left[a..];
      merged := merged + right[b..];
    }
  }

  predicate Within(s: seq<nat>, n: nat) {
    forall i :: 0 <= i < |s| ==> s[i] < n
  }

  /** Every position below `n`, once. */
  ghost predicate Arranges(s: seq<nat>, n: nat) {
    |s| == n && Within(s, n) && multiset(s) == multiset(Positions(n))
  }

  /** What has been merged of the two halves. */
  ghost predicate Merged(left: seq<nat>, right: seq<nat>, a: nat, b: nat, merged: seq<nat>) {
    a <= |left| && b <= |right| && multiset(merged) == multiset(left[..a]) + multiset(right[..b])
  }

  /** What has been merged is in order, and comes before what is left. */
  ghost predicate Good(items: seq<Value>, le: (Value, Value) -> bool, left: seq<nat>, right: seq<nat>, a: nat, b: nat, merged: seq<nat>) {
    && a <= |left| && b <= |right|
    && InOrder(items, le, merged) && AllBefore(items, le, merged, left[a..]) && AllBefore(items, le, merged, right[b..])
  }

  lemma {:induction false} MergedNone(left: seq<nat>, right: seq<nat>)
    ensures Merged(left, right, 0, 0, [])
  {
  }

  lemma {:induction false} GoodNone(items: seq<Value>, le: (Value, Value) -> bool, left: seq<nat>, right: seq<nat>)
    ensures Good(items, le, left, right, 0, 0, [])
  {
  }

  lemma {:induction false} MergedMore(left: seq<nat>, right: seq<nat>, a: nat, b: nat, merged: seq<nat>)
    requires Merged(left, right, a, b, merged) && a < |left| && b < |right|
    ensures Merged(left, right, a + 1, b, merged + [left[a]]) && Merged(left, right, a, b + 1, merged + [right[b]])
  {
    assert left[..a + 1] == left[..a] + [left[a]] && right[..b + 1] == right[..b] + [right[b]];
  }

  lemma {:induction false} MergedAll(left: seq<nat>, right: seq<nat>, a: nat, b: nat, merged: seq<nat>)
    requires Merged(left, right, a, b, merged)
    ensures multiset(merged + left[a..] + right[b..]) == multiset(left) + multiset(right)
  {
    assert left == left[..a] + left[a..] && right == right[..b] + right[b..];
  }

  function Positions(n: nat): (s: seq<nat>)
    ensures |s| == n && Increasing(s) && forall i :: 0 <= i < n ==> s[i] == i
  {
    seq(n, i requires 0 <= i < n => i as nat)
  }

  /** What the comparator leaves in the list after some calls. */
  function Left(c: Comparator, list: seq<Value>, calls: seq<Call>): seq<Value> {
    if calls == [] then list else c.list(Left(c, list, calls[..|calls| - 1]), calls[..|calls| - 1])
  }

  /** The values at given positions. */
  function Ranked(items: seq<Value>, order: seq<nat>): (r: seq<Value>)
    requires Within(order, |items|)
    ensures |r| == |order| && forall k :: 0 <= k < |order| ==> r[k] == items[order[k]]
  {
    seq(|order|, i requires 0 <= i < |order| => items[order[i]])
  }

  /** No element comes before one that is less. */
  ghost predicate SortedBy(le: (Value, Value) -> bool, list: seq<Value>) {
    forall i, j :: 0 <= i < j < |list| ==> le(list[i], list[j])
  }

  /** Of two equal elements the one that was first, by where they came from, still is. */
  ghost predicate EqualKeepOrder(le: (Value, Value) -> bool, list: seq<Value>, from: seq<nat>) {
    |from| == |list| && forall i, j :: 0 <= i < j < |list| && le(list[j], list[i]) ==> from[i] < from[j]
  }

  lemma {:induction false} RankedInOrder(items: seq<Value>, le: (Value, Value) -> bool, order: seq<nat>)
    requires Within(order, |items|) && InOrder(items, le, order)
    ensures SortedBy(le, Ranked(items, order)) && EqualKeepOrder(le, Ranked(items, order), order)
  {
    var list := Ranked(items, order);
    forall i, j | 0 <= i < j < |list| ensures le(list[i], list[j]) && (le(list[j], list[i]) ==> order[i] < order[j]) {
      assert Before(items, le, order[i], order[j]);
    }
  }

  function Without<T>(s: seq<T>, j: nat): seq<T>
    requires j < |s|
  {
    s[..j] + s[j + 1..]
  }

  lemma {:induction false} WithoutOne<T>(s: seq<T>, j: nat)
    requires j < |s|
    ensures multiset(s) == multiset(Without(s, j)) + multiset{s[j]} && multiset(Without(s, j)) == multiset(s) - multiset{s[j]}
    ensures |Without(s, j)| == |s| - 1
  {
    assert s == s[..j] + [s[j]] + s[j + 1..];
  }

  lemma {:induction false} RankedWithout(items: seq<Value>, order: seq<nat>, j: nat)
    requires Within(order, |items|) && j < |order|
    ensures Within(Without(order, j), |items|) && Ranked(items, Without(order, j)) == Without(Ranked(items, order), j)
  {
  }

  /** The same positions in another order hold the same values. */
  lemma {:induction false} SamePositions(items: seq<Value>, s: seq<nat>, t: seq<nat>)
    requires Within(s, |items|) && Within(t, |items|) && multiset(s) == multiset(t)
    ensures multiset(Ranked(items, s)) == multiset(Ranked(items, t))
    decreases |s|
  {
    assert |s| == |multiset(s)| == |multiset(t)| == |t|;
    if s == [] {
      assert s == t;
    } else {
      hide Ranked;
      assert s[0] in multiset(t);
      var j :| 0 <= j < |t| && t[j] == s[0];
      WithoutOne(s, 0);
      WithoutOne(t, j);
      RankedWithout(items, s, 0);
      RankedWithout(items, t, j);
      hide Without;
      SamePositions(items, Without(s, 0), Without(t, j));
      WithoutOne(Ranked(items, s), 0);
      WithoutOne(Ranked(items, t), j);
    }
  }

  lemma {:induction false} RankedIsPermutation(items: seq<Value>, order: seq<nat>)
    requires Arranges(order, |items|)
    ensures multiset(Ranked(items, order)) == multiset(items)
  {
    var all := Positions(|items|);
    SamePositions(items, order, all);
    assert Ranked(items, all) == items;
  }

  /** Every position of one half is less than every position of the other. */
  predicate Apart(left: seq<nat>, right: seq<nat>) {
    forall i, j :: 0 <= i < |left| && 0 <= j < |right| ==> left[i] < right[j]
  }

  lemma {:induction false} ElementsKept(s: seq<nat>, t: seq<nat>, n: nat)
    requires multiset(s) == multiset(t) && Within(t, n)
    ensures Within(s, n)
  {
    forall i | 0 <= i < |s| ensures s[i] < n {
      assert s[i] in multiset(t);
    }
  }

  lemma {:induction false} HalvesApart(order: seq<nat>, middle: nat, left: seq<nat>, right: seq<nat>)
    requires Increasing(order) && middle <= |order|
    requires multiset(left) == multiset(order[..middle]) && multiset(right) == multiset(order[middle..])
    ensures Apart(left, right)
  {
    forall i, j | 0 <= i < |left| && 0 <= j < |right| ensures left[i] < right[j] {
      assert left[i] in multiset(order[..middle]) && right[j] in multiset(order[middle..]);
    }
  }

  /** Whichever element is taken, everything left comes after it. */
  lemma {:induction false} Chosen(items: seq<Value>, le: (Value, Value) -> bool, left: seq<nat>, right: seq<nat>, a: nat, b: nat, merged: seq<nat>, first: bool)
    requires TotalPreorder(le) && InOrder(items, le, left) && InOrder(items, le, right) && Apart(left, right) && a < |left| && b < |right|
    requires left[a] < |items| && right[b] < |items| && (first <==> le(items[left[a]], items[right[b]]))
    requires Good(items, le, left, right, a, b, merged)
    ensures first ==> Good(items, le, left, right, a + 1, b, merged + [left[a]])
    ensures !first ==> Good(items, le, left, right, a, b + 1, merged + [right[b]])
  {
    var l, r := left[a], right[b];
    assert left[a..] == [l] + left[a + 1..] && right[b..] == [r] + right[b + 1..];
    if first {
      assert Before(items, le, l, r);
      Reaches(items, le, l, left, a, right, b);
      AllBeforeSplit(items, le, merged, l, left[a + 1..]);
      PushInOrder(items, le, merged, l, left[a + 1..]);
      PushInOrder(items, le, merged, l, right[b..]);
    } else {
      Total(le, items[l], items[r]);
      assert Before(items, le, r, l);
      Reaches(items, le, r, right, b, left, a);
      AllBeforeSplit(items, le, merged, r, right[b + 1..]);
      PushInOrder(items, le, merged, r, right[b + 1..]);
      PushInOrder(items, le, merged, r, left[a..]);
    }
  }

  lemma {:induction false} AllBeforeSplit(items: seq<Value>, le: (Value, Value) -> bool, s: seq<nat>, x: nat, t: seq<nat>)
    requires AllBefore(items, le, s, [x] + t)
    ensures AllBefore(items, le, s, [x]) && AllBefore(items, le, s, t)
  {
    forall i, j | 0 <= i < |s| && 0 <= j < |t| ensures Before(items, le, s[i], t[j]) {
      assert Before(items, le, s[i], ([x] + t)[j + 1]);
    }
    forall i, j | 0 <= i < |s| && 0 <= j < 1 ensures Before(items, le, s[i], [x][j]) {
      assert Before(items, le, s[i], ([x] + t)[0]);
    }
  }

  /** The next of one half, if it comes before the next of the other, comes before the rest of
      both. */
  lemma {:induction false} Reaches(items: seq<Value>, le: (Value, Value) -> bool, x: nat, s: seq<nat>, a: nat, t: seq<nat>, b: nat)
    requires TotalPreorder(le) && InOrder(items, le, s) && InOrder(items, le, t) && a < |s| && b < |t| && x == s[a] && Before(items, le, x, t[b])
    ensures AllBefore(items, le, [x], s[a + 1..]) && AllBefore(items, le, [x], t[b..])
  {
    var p, q := s[a + 1..], t[b..];
    forall j | 0 <= j < |p| ensures Before(items, le, x, p[j]) {
      assert p[j] == s[a + 1 + j];
    }
    forall j | 0 <= j < |q| ensures Before(items, le, x, q[j]) {
      assert q[j] == t[b + j];
      if j > 0 { BeforeTransitive(items, le, x, t[b], t[b + j]); }
    }
  }

  lemma {:induction false} TailInOrder(items: seq<Value>, le: (Value, Value) -> bool, left: seq<nat>, right: seq<nat>, a: nat, b: nat, merged: seq<nat>)
    requires InOrder(items, le, left) && InOrder(items, le, right) && Good(items, le, left, right, a, b, merged) && (a == |left| || b == |right|)
    ensures InOrder(items, le, merged + left[a..] + right[b..])
  {
    var rest := if a == |left| then right[b..] else left[a..];
    assert merged + left[a..] + right[b..] == merged + rest;
    var all := merged + rest;
    assert InOrder(items, le, rest) by {
      forall i, j | 0 <= i < j < |rest| ensures Before(items, le, rest[i], rest[j]) {
        assert if a == |left| then Before(items, le, right[b + i], right[b + j]) else Before(items, le, left[a + i], left[a + j]);
      }
    }
    forall i, j | 0 <= i < j < |all| ensures Before(items, le, all[i], all[j]) {
      if i < |merged| && j >= |merged| { assert Before(items, le, merged[i], rest[j - |merged|]); }
      else if i >= |merged| { assert Before(items, le, rest[i - |merged|], rest[j - |merged|]); }
    }
  }
}
