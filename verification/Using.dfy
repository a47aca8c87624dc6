/** `using`: dispatch by a jump table for the labels known at compile time, and by comparing in turn for the rest. */
module Using {
  import opened Shapes

  /** A label: a constant, with its key in the jump table, or an expression. */
  datatype Label = Const(key: nat) | Dynamic(id: nat)

  /** What is dispatched on: a value with a key, if it is of a kind the table holds, or an
      instance whose class defines `@eq`. */
  datatype Subject = Plain(key: Option<nat>) | Instance

  /** How the subject compares with labels. A plain subject equals a constant if it has its
      key; what an expression or `@eq` answers is given. */
  datatype World = World(subject: Subject, says: Label -> bool)

  predicate Matches(w: World, l: Label) {
    if w.subject.Plain? && l.Const? then w.subject.key == Some(l.key) else w.says(l)
  }

  /** A label and the arm it belongs to. */
  datatype Pair = Pair(tag: Label, arm: nat)

  /** The labels of one arm, all of them or only the expressions. */
  function Of(labels: seq<Label>, arm: nat, all: bool): seq<Pair> {
    if labels == [] then []
    else
      var last := labels[|labels| - 1];
      Of(labels[..|labels| - 1], arm, all) + if all || last.Dynamic? then [Pair(last, arm)] else []
  }

  function Pairs(arms: seq<seq<Label>>, all: bool): seq<Pair> {
    if arms == [] then [] else Pairs(arms[..|arms| - 1], all) + Of(arms[|arms| - 1], |arms| - 1, all)
  }

  // The reference: labels in the order they are written, until one matches.

  /** The first matching pair from `i` on, or the number of pairs. */
  function First(w: World, pairs: seq<Pair>, i: nat): (j: nat)
    requires i <= |pairs|
    ensures i <= j <= |pairs| && (j < |pairs| ==> Matches(w, pairs[j].tag))
    ensures forall k :: i <= k < j ==> !Matches(w, pairs[k].tag)
    decreases |pairs| - i
  {
    if i == |pairs| || Matches(w, pairs[i].tag) then i else First(w, pairs, i + 1)
  }

  function Scan(w: World, pairs: seq<Pair>): Option<nat> {
    var j := First(w, pairs, 0);
    if j < |pairs| then Some(pairs[j].arm) else None
  }

  // The code.

  datatype Op =
    /** Goes to the key's place in the table, if it has one, or on. */
    | Lookup(table: map<nat, nat>, eqInstance: Option<nat>)
    | Test(tag: Label, target: nat)
    | Goto(target: nat)
    | RunArm(arm: nat)
    | RunDefault

  /** What a run did: the arm it ran, or the default, and the labels it compared with. */
  datatype Ran = Ran(arm: Option<nat>, compared: seq<Label>) | Fell

  /** Runs code whose jumps go forward; it stops at the first body, after which there is only
      the way to the end. */
  function Run(code: seq<Op>, w: World, pc: nat, compared: seq<Label>): Ran
    decreases |code| - pc
  {
    if pc >= |code| then Fell
    else
      match code[pc]
      case Lookup(table, eqInstance) =>
        var to := if w.subject.Instance? then eqInstance
                  else if w.subject.key.Some? && w.subject.key.value in table then Some(table[w.subject.key.value])
                  else None;
        if to.None? then Run(code, w, pc + 1, compared)
        else if to.value > pc then Run(code, w, to.value, compared)
        else Fell
      case Test(tag, target) =>
        var c := compared + [tag];
        if !Matches(w, tag) then Run(code, w, pc + 1, c)
        else if target > pc then Run(code, w, target, c)
        else Fell
      case Goto(target) => if target > pc then Run(code, w, target, compared) else Fell
      case RunArm(arm) => Ran(Some(arm), compared)
      case RunDefault => Ran(None, compared)
  }

  /** Every jump to arm `g` goes to `Start(base, g)`. */
  function Start(base: nat, g: nat): nat {
    base + 2 * g
  }

  function Tests(pairs: seq<Pair>, base: nat): (r: seq<Op>)
    ensures |r| == |pairs| && forall i :: 0 <= i < |r| ==> r[i] == Test(pairs[i].tag, Start(base, pairs[i].arm))
  {
    seq(|pairs|, i requires 0 <= i < |pairs| => Test(pairs[i].tag, Start(base, pairs[i].arm)))
  }

  function Bodies(n: nat, end: nat): (r: seq<Op>)
    ensures |r| == 2 * n && forall g :: 0 <= g < n ==> r[2 * g] == RunArm(g) && r[2 * g + 1] == Goto(end)
  {
    if n == 0 then [] else Bodies(n - 1, end) + [RunArm(n - 1), Goto(end)]
  }

  predicate HasConst(pairs: seq<Pair>) {
    exists i :: 0 <= i < |pairs| && pairs[i].tag.Const?
  }

  /** The table: the last arm with a constant gets it. */
  function Table(pairs: seq<Pair>, base: nat): map<nat, nat> {
    if pairs == [] then map[]
    else
      var last := pairs[|pairs| - 1];
      var rest := Table(pairs[..|pairs| - 1], base);
      if last.tag.Const? then rest[last.tag.key := Start(base, last.arm)] else rest
  }

  function Base(arms: seq<seq<Label>>): nat {
    1 + |Pairs(arms, false)| + (if HasConst(Pairs(arms, true)) then 1 + |Pairs(arms, true)| else 0) + 2
  }

  /** The code of a `using` statement. */
  function UsingCode(arms: seq<seq<Label>>): seq<Op> {
    var dyn, all, base := Pairs(arms, false), Pairs(arms, true), Base(arms);
    var end := Start(base, |arms|);
    [Lookup(Table(all, base), if HasConst(all) then Some(1 + |dyn| + 1) else None)]
    + Tests(dyn, base) + Section(all, base) + [RunDefault, Goto(end)] + Bodies(|arms|, end)
  }

  /** Where an instance with `@eq` meets every label, if any of them is in the table; the rest
      goes past it. */
  function Section(all: seq<Pair>, base: nat): seq<Op> {
    if HasConst(all) then [Goto(if base >= 2 then base - 2 else 0)] + Tests(all, base) else []
  }

  // What the code does.

  function Labels(pairs: seq<Pair>): (r: seq<Label>)
    ensures |r| == |pairs| && forall i :: 0 <= i < |r| ==> r[i] == pairs[i].tag
  {
    seq(|pairs|, i requires 0 <= i < |pairs| => pairs[i].tag)
  }

  /** The labels a scan compares with: up to and including the first that matches. */
  function Compared(w: World, pairs: seq<Pair>, from: nat): seq<Label>
    requires from <= |pairs|
  {
    var j := First(w, pairs, from);
    Labels(pairs[from..if j < |pairs| then j + 1 else j])
  }

  /** A block of tests: to the arm of the first that matches, or past the block. */
  lemma {:induction false} RunTests(code: seq<Op>, w: World, pairs: seq<Pair>, base: nat, at: nat, i: nat, compared: seq<Label>)
    requires i <= |pairs| && TestsAt(code, at, pairs, base) && at + |pairs| <= base
    ensures
      var j := First(w, pairs, i);
      Run(code, w, at + i, compared) ==
        Run(code, w, if j < |pairs| then Start(base, pairs[j].arm) else at + |pairs|, compared + Compared(w, pairs, i))
    decreases |pairs| - i
  {
    hide Run, First;
    ComparedIs(w, pairs, i, compared);
    if i < |pairs| {
      TestRuns(code, w, at + i, pairs[i].tag, Start(base, pairs[i].arm), compared);
      if !Matches(w, pairs[i].tag) { RunTests(code, w, pairs, base, at, i + 1, compared + [pairs[i].tag]); }
    }
  }

  lemma {:induction false} TestRuns(code: seq<Op>, w: World, pc: nat, tag: Label, target: nat, compared: seq<Label>)
    requires pc < |code| && code[pc] == Test(tag, target) && target > pc
    ensures Run(code, w, pc, compared) == Run(code, w, if Matches(w, tag) then target else pc + 1, compared + [tag])
  {
  }

  /** What a scan from `i` on compares, one label at a time. */
  lemma {:induction false} ComparedStep(w: World, pairs: seq<Pair>, i: nat)
    requires i <= |pairs|
    ensures i == |pairs| ==> First(w, pairs, i) == i && Compared(w, pairs, i) == []
    ensures i < |pairs| && Matches(w, pairs[i].tag) ==> First(w, pairs, i) == i && Compared(w, pairs, i) == [pairs[i].tag]
    ensures i < |pairs| && !Matches(w, pairs[i].tag) ==>
              First(w, pairs, i) == First(w, pairs, i + 1) && Compared(w, pairs, i) == [pairs[i].tag] + Compared(w, pairs, i + 1)
  {
    var j := First(w, pairs, i);
    var e := if j < |pairs| then j + 1 else j;
    if i == |pairs| {
      assert Labels(pairs[i..i]) == [];
    } else if Matches(w, pairs[i].tag) {
      assert Labels(pairs[i..i + 1]) == [pairs[i].tag];
    } else {
      assert Labels(pairs[i..e]) == [pairs[i].tag] + Labels(pairs[i + 1..e]);
    }
  }

  lemma {:induction false} ComparedIs(w: World, pairs: seq<Pair>, i: nat, compared: seq<Label>)
    requires i <= |pairs|
    ensures i == |pairs| ==> First(w, pairs, i) == i && compared + Compared(w, pairs, i) == compared
    ensures i < |pairs| && Matches(w, pairs[i].tag) ==> First(w, pairs, i) == i && compared + Compared(w, pairs, i) == compared + [pairs[i].tag]
    ensures i < |pairs| && !Matches(w, pairs[i].tag) ==>
              First(w, pairs, i) == First(w, pairs, i + 1) && compared + Compared(w, pairs, i) == compared + [pairs[i].tag] + Compared(w, pairs, i + 1)
  {
    hide *;
    ComparedStep(w, pairs, i);
  }

  predicate TestsAt(code: seq<Op>, at: nat, pairs: seq<Pair>, base: nat) {
    at + |pairs| <= |code| && forall k :: 0 <= k < |pairs| ==> code[at + k] == Test(pairs[k].tag, Start(base, pairs[k].arm))
  }

  predicate BodiesAt(code: seq<Op>, base: nat, n: nat) {
    |code| == Start(base, n) && forall g :: 0 <= g < n ==> code[Start(base, g)] == RunArm(g)
  }

  lemma {:induction false} TestsPlaced(pre: seq<Op>, pairs: seq<Pair>, base: nat, post: seq<Op>)
    ensures TestsAt(pre + Tests(pairs, base) + post, |pre|, pairs, base)
  {
  }

  lemma {:induction false} BodiesPlaced(pre: seq<Op>, n: nat, end: nat)
    ensures BodiesAt(pre + Bodies(n, end), |pre|, n)
  {
    var code := pre + Bodies(n, end);
    forall g | 0 <= g < n ensures code[Start(|pre|, g)] == RunArm(g) {
      assert code[|pre| + 2 * g] == Bodies(n, end)[2 * g];
    }
  }

  /** Where everything is. */
  ghost predicate LaidOut(code: seq<Op>, dyn: seq<Pair>, all: seq<Pair>, base: nat, n: nat) {
    && 1 + |dyn| + 2 <= base <= |code|
    && code[0] == Lookup(Table(all, base), if HasConst(all) then Some(2 + |dyn|) else None)
    && TestsAt(code, 1, dyn, base)
    && (if HasConst(all) then 2 + |dyn| + |all| == base - 2 && code[1 + |dyn|] == Goto(base - 2) && TestsAt(code, 2 + |dyn|, all, base) else 1 + |dyn| == base - 2)
    && code[base - 2] == RunDefault
    && BodiesAt(code, base, n)
  }

  lemma {:induction false} Layout(arms: seq<seq<Label>>)
    ensures LaidOut(UsingCode(arms), Pairs(arms, false), Pairs(arms, true), Base(arms), |arms|)
  {
    hide *;
    var dyn, all, base := Pairs(arms, false), Pairs(arms, true), Base(arms);
    var end := Start(base, |arms|);
    var head := [Lookup(Table(all, base), if HasConst(all) then Some(2 + |dyn|) else None)];
    var tail, bodies := [RunDefault, Goto(end)], Bodies(|arms|, end);
    var tests, mid := Tests(dyn, base), Section(all, base);
    CodeIs(arms);
    Regroup(head, tests, mid, tail, bodies);
    SectionIs(all, base);
    TestsPlaced(head, dyn, base, mid + tail + bodies);
    BodiesPlaced(head + tests + mid + tail, |arms|, end);
    if HasConst(all) {
      Regroup(head, tests, [Goto(base - 2)], Tests(all, base), tail + bodies);
      TestsPlaced(head + tests + [Goto(base - 2)], all, base, tail + bodies);
    }
    LaidOutIs(UsingCode(arms), dyn, all, base, |arms|);
  }

  lemma {:induction false} CodeIs(arms: seq<seq<Label>>)
    ensures
      var dyn, all, base := Pairs(arms, false), Pairs(arms, true), Base(arms);
      var end := Start(base, |arms|);
      && UsingCode(arms) ==
           [Lookup(Table(all, base), if HasConst(all) then Some(2 + |dyn|) else None)] + Tests(dyn, base) + Section(all, base) + [RunDefault, Goto(end)] + Bodies(|arms|, end)
      && base == 1 + |dyn| + |Section(all, base)| + 2
  {
    hide Pairs, Table, HasConst, Bodies, Tests;
  }

  lemma {:induction false} Regroup(a: seq<Op>, b: seq<Op>, c: seq<Op>, d: seq<Op>, e: seq<Op>)
    ensures
      var all := a + b + c + d + e;
      && all == a + b + (c + d + e) && a + b + (c + d) + e == all
      && |all| == |a| + |b| + |c| + |d| + |e|
      && (forall k :: 0 <= k < |a| ==> all[k] == a[k])
      && (forall k :: 0 <= k < |c| ==> all[|a| + |b| + k] == c[k])
      && (forall k :: 0 <= k < |d| ==> all[|a| + |b| + |c| + k] == d[k])
  {
    var all := a + b + c + d + e;
    assert all == a + b + (c + d + e);
    assert a + b + (c + d) + e == all;
  }

  lemma {:induction false} LaidOutIs(code: seq<Op>, dyn: seq<Pair>, all: seq<Pair>, base: nat, n: nat)
    requires
      && 1 + |dyn| + 2 <= base <= |code|
      && code[0] == Lookup(Table(all, base), if HasConst(all) then Some(2 + |dyn|) else None)
      && TestsAt(code, 1, dyn, base)
      && (if HasConst(all) then 2 + |dyn| + |all| == base - 2 && code[1 + |dyn|] == Goto(base - 2) && TestsAt(code, 2 + |dyn|, all, base) else 1 + |dyn| == base - 2)
      && code[base - 2] == RunDefault
      && BodiesAt(code, base, n)
    ensures LaidOut(code, dyn, all, base, n)
  {
  }

  lemma {:induction false} SectionIs(all: seq<Pair>, base: nat)
    ensures base >= 2 ==> Section(all, base) == if HasConst(all) then [Goto(base - 2)] + Tests(all, base) else []
  {
    hide HasConst;
  }

  /** Pairs of the first `n` arms, in the order of their arms. */
  predicate Ordered(p: seq<Pair>, n: nat) {
    (forall i :: 0 <= i < |p| ==> p[i].arm < n) && (forall i, j :: 0 <= i < j < |p| ==> p[i].arm <= p[j].arm)
  }

  lemma {:induction false} PairsInOrder(arms: seq<seq<Label>>, all: bool)
    ensures Ordered(Pairs(arms, all), |arms|)
    decreases |arms|
  {
    if arms != [] {
      var n := |arms| - 1;
      PairsInOrder(arms[..n], all);
      OfArm(arms[n], n, all);
      OrderedMore(Pairs(arms[..n], all), Of(arms[n], n, all), n);
    }
  }

  lemma {:induction false} OrderedMore(p: seq<Pair>, q: seq<Pair>, n: nat)
    requires Ordered(p, n) && forall i :: 0 <= i < |q| ==> q[i].arm == n
    ensures Ordered(p + q, n + 1)
  {
  }

  lemma {:induction false} OfArm(labels: seq<Label>, arm: nat, all: bool)
    ensures forall i :: 0 <= i < |Of(labels, arm, all)| ==> Of(labels, arm, all)[i].arm == arm
    decreases |labels|
  {
    if labels != [] {
      OfArm(labels[..|labels| - 1], arm, all);
      var p := Of(labels[..|labels| - 1], arm, all);
      assert forall i :: 0 <= i < |p| ==> p[i].arm == arm;
    }
  }

  /** The last pair with constant `key`, or -1. */
  function LastConst(pairs: seq<Pair>, key: nat): (j: int)
    ensures -1 <= j < |pairs| && (j >= 0 ==> pairs[j].tag == Const(key))
    ensures forall k :: j < k < |pairs| ==> pairs[k].tag != Const(key)
  {
    if pairs == [] then -1
    else if pairs[|pairs| - 1].tag == Const(key) then |pairs| - 1
    else LastConst(pairs[..|pairs| - 1], key)
  }

  lemma {:induction false} TableGives(pairs: seq<Pair>, base: nat, key: nat)
    ensures key in Table(pairs, base) <==> LastConst(pairs, key) >= 0
    ensures LastConst(pairs, key) >= 0 ==> Table(pairs, base)[key] == Start(base, pairs[LastConst(pairs, key)].arm)
    decreases |pairs|
  {
    if pairs != [] { TableGives(pairs[..|pairs| - 1], base, key); }
  }

  /** The arm the jump table has for the subject, if any: the last one with its constant. */
  function Hit(w: World, all: seq<Pair>): int {
    if w.subject.Plain? && w.subject.key.Some? then LastConst(all, w.subject.key.value) else -1
  }

  /** What the code comes to: the table's arm without comparing anything; or the first match
      among the expressions; or, for an instance with `@eq`, among all labels. */
  lemma {:induction false} CodeDispatches(arms: seq<seq<Label>>, w: World)
    ensures
      var dyn, all := Pairs(arms, false), Pairs(arms, true);
      Run(UsingCode(arms), w, 0, []) ==
        if Hit(w, all) >= 0 then Ran(Some(all[Hit(w, all)].arm), [])
        else if w.subject.Instance? && HasConst(all) then Ran(Scan(w, all), Compared(w, all, 0))
        else Ran(Scan(w, dyn), Compared(w, dyn, 0))
  {
    var dyn, all, base, code := Pairs(arms, false), Pairs(arms, true), Base(arms), UsingCode(arms);
    Layout(arms);
    PairsInOrder(arms, true);
    PairsInOrder(arms, false);
    hide Pairs, UsingCode, Table, Run, First, Compared, Base, HasConst, TestsAt;
    LookupRuns(code, w);
    if w.subject.Plain? && w.subject.key.Some? { TableGives(all, base, w.subject.key.value); }
    if Hit(w, all) >= 0 {
      ArmRuns(code, w, Start(base, all[Hit(w, all)].arm), all[Hit(w, all)].arm);
    } else if w.subject.Instance? && HasConst(all) {
      SectionRuns(code, w, all, base, 2 + |dyn|, |arms|);
    } else {
      SectionRuns(code, w, dyn, base, 1, |arms|);
    }
  }

  lemma {:induction false} LookupRuns(code: seq<Op>, w: World)
    requires code != [] && code[0].Lookup?
    ensures
      var l := code[0];
      Run(code, w, 0, []) ==
        if w.subject.Instance? then (if l.eqInstance.None? then Run(code, w, 1, []) else if l.eqInstance.value > 0 then Run(code, w, l.eqInstance.value, []) else Fell)
        else if w.subject.key.Some? && w.subject.key.value in l.table then
          (if l.table[w.subject.key.value] > 0 then Run(code, w, l.table[w.subject.key.value], []) else Fell)
        else Run(code, w, 1, [])
  {
  }

  lemma {:induction false} ArmRuns(code: seq<Op>, w: World, pc: nat, arm: nat)
    requires pc < |code| && code[pc] == RunArm(arm)
    ensures Run(code, w, pc, []) == Ran(Some(arm), [])
  {
  }

  /** A section of tests leads to the arm of the first match, or to the default. */
  lemma {:induction false} SectionRuns(code: seq<Op>, w: World, pairs: seq<Pair>, base: nat, at: nat, n: nat)
    requires at + |pairs| <= base - 2 && BodiesAt(code, base, n) && TestsAt(code, at, pairs, base) && Ordered(pairs, n)
    requires code[base - 2] == RunDefault && (at + |pairs| < base - 2 ==> code[at + |pairs|] == Goto(base - 2))
    ensures Run(code, w, at, []) == Ran(Scan(w, pairs), Compared(w, pairs, 0))
  {
    RunTests(code, w, pairs, base, at, 0, []);
    var j, c := First(w, pairs, 0), Compared(w, pairs, 0);
    assert [] + c == c;
    hide First, Compared;
    if j < |pairs| {
      assert Run(code, w, Start(base, pairs[j].arm), c) == Ran(Some(pairs[j].arm), c);
    } else {
      assert Run(code, w, base - 2, c) == Ran(None, c);
    }
  }

  // Against the reference.

  /** Leaving constants out of the scan makes no difference to a plain subject they do not
      match. */
  lemma {:induction false} ScanWithoutConsts(arms: seq<seq<Label>>, w: World)
    requires forall i :: 0 <= i < |Pairs(arms, true)| && Pairs(arms, true)[i].tag.Const? ==> !Matches(w, Pairs(arms, true)[i].tag)
    ensures Scan(w, Pairs(arms, false)) == Scan(w, Pairs(arms, true))
    decreases |arms|
  {
    if arms != [] {
      var n := |arms| - 1;
      var p, q := Pairs(arms[..n], true), Pairs(arms[..n], false);
      var a, b := Of(arms[n], n, true), Of(arms[n], n, false);
      assert Pairs(arms, true) == p + a;
      assert forall i :: 0 <= i < |p| ==> p[i] == Pairs(arms, true)[i];
      assert forall i :: 0 <= i < |a| ==> a[i] == Pairs(arms, true)[|p| + i];
      ScanWithoutConsts(arms[..n], w);
      OfScan(arms[n], n, w);
      ScanConcat(w, p, a);
      ScanConcat(w, q, b);
    }
  }

  lemma {:induction false} OfScan(labels: seq<Label>, arm: nat, w: World)
    requires forall i :: 0 <= i < |Of(labels, arm, true)| && Of(labels, arm, true)[i].tag.Const? ==> !Matches(w, Of(labels, arm, true)[i].tag)
    ensures Scan(w, Of(labels, arm, false)) == Scan(w, Of(labels, arm, true))
    decreases |labels|
  {
    if labels != [] {
      var n := |labels| - 1;
      var p, q := Of(labels[..n], arm, true), Of(labels[..n], arm, false);
      var last := [Pair(labels[n], arm)];
      assert Of(labels, arm, true) == p + last;
      assert forall i :: 0 <= i < |p| ==> p[i] == Of(labels, arm, true)[i];
      assert last[0] == Of(labels, arm, true)[|p|];
      OfScan(labels[..n], arm, w);
      ScanConcat(w, p, last);
      ScanConcat(w, q, if labels[n].Dynamic? then last else []);
      assert q + [] == q;
    }
  }

  lemma {:induction false} ScanConcat(w: World, p: seq<Pair>, q: seq<Pair>)
    ensures Scan(w, p + q) == if Scan(w, p).Some? then Scan(w, p) else Scan(w, q)
  {
    var all := p + q;
    var j, a, b := First(w, all, 0), First(w, p, 0), First(w, q, 0);
    if a < |p| {
      assert all[a] == p[a];
      assert j <= a;
      assert j < |p| && all[j] == p[j];
    } else {
      assert forall k :: 0 <= k < |p| ==> all[k] == p[k];
      assert forall k :: 0 <= k < b ==> all[|p| + k] == q[k];
      if b < |q| { assert all[|p| + b] == q[b]; }
    }
  }

  lemma {:induction false} MissedConsts(w: World, all: seq<Pair>)
    requires w.subject.Plain? && Hit(w, all) < 0
    ensures forall i :: 0 <= i < |all| && all[i].tag.Const? ==> !Matches(w, all[i].tag)
  {
  }

  lemma {:induction false} NoConsts(arms: seq<seq<Label>>)
    requires !HasConst(Pairs(arms, true))
    ensures Pairs(arms, false) == Pairs(arms, true)
    decreases |arms|
  {
    if arms != [] {
      var n := |arms| - 1;
      var p, a := Pairs(arms[..n], true), Of(arms[n], n, true);
      assert forall i :: 0 <= i < |p| ==> p[i] == Pairs(arms, true)[i];
      assert forall i :: 0 <= i < |a| ==> a[i] == Pairs(arms, true)[|p| + i];
      NoConsts(arms[..n]);
      NoConstsOf(arms[n], n);
    }
  }

  lemma {:induction false} NoConstsOf(labels: seq<Label>, arm: nat)
    requires !HasConst(Of(labels, arm, true))
    ensures Of(labels, arm, false) == Of(labels, arm, true)
    decreases |labels|
  {
    if labels != [] {
      var n := |labels| - 1;
      var p, all := Of(labels[..n], arm, true), Of(labels, arm, true);
      assert all == p + [Pair(labels[n], arm)];
      assert forall i :: 0 <= i < |p| ==> p[i] == all[i];
      assert all[|p|].tag == labels[n];
      NoConstsOf(labels[..n], arm);
    }
  }

  /** The arm that runs is the one a scan of the labels in order would find, exactly when the
      table has nothing for the subject or no label of an arm before the table's matches. */
  lemma {:induction false} DispatchIsScanExactly(arms: seq<seq<Label>>, w: World)
    ensures
      var all, r := Pairs(arms, true), Run(UsingCode(arms), w, 0, []);
      && r.Ran?
      && (r.arm == Scan(w, all) <==>
            Hit(w, all) < 0 || forall k :: 0 <= k < |all| && all[k].arm < all[Hit(w, all)].arm ==> !Matches(w, all[k].tag))
  {
    CodeDispatches(arms, w);
    var all := Pairs(arms, true);
    PairsInOrder(arms, true);
    var h := Hit(w, all);
    if h >= 0 {
      hide Pairs, UsingCode, Run;
      var f := First(w, all, 0);
      assert Matches(w, all[h].tag);
      assert f <= h;
    } else if w.subject.Plain? {
      MissedConsts(w, all);
      ScanWithoutConsts(arms, w);
    } else if !HasConst(all) {
      NoConsts(arms);
    }
  }

  /** With distinct constants, and no expression equal to the subject when a constant is, the
      first match runs. */
  lemma {:induction false} DistinctLabelsDispatch(arms: seq<seq<Label>>, w: World)
    requires forall i, j :: 0 <= i < j < |Pairs(arms, true)| && Pairs(arms, true)[i].tag.Const? ==> Pairs(arms, true)[i].tag != Pairs(arms, true)[j].tag
    requires Hit(w, Pairs(arms, true)) >= 0 ==> forall i :: 0 <= i < |Pairs(arms, true)| && Pairs(arms, true)[i].tag.Dynamic? ==> !Matches(w, Pairs(arms, true)[i].tag)
    ensures var r := Run(UsingCode(arms), w, 0, []); r.Ran? && r.arm == Scan(w, Pairs(arms, true))
  {
    hide Pairs, UsingCode, Run, Scan;
    DispatchIsScanExactly(arms, w);
    PairsInOrder(arms, true);
    var all := Pairs(arms, true);
    var h := Hit(w, all);
    if h >= 0 {
      forall k | 0 <= k < |all| && all[k].arm < all[h].arm ensures !Matches(w, all[k].tag) {
        assert k < h;
      }
    }
  }

  /** An instance whose class defines `@eq` is compared with the labels in the order they are
      written, until the first that matches, and that one's arm runs. */
  lemma {:induction false} InstancesAreScanned(arms: seq<seq<Label>>, w: World)
    requires w.subject.Instance?
    ensures var all := Pairs(arms, true); Run(UsingCode(arms), w, 0, []) == Ran(Scan(w, all), Compared(w, all, 0))
  {
    hide UsingCode, Run, Scan, Compared;
    CodeDispatches(arms, w);
    if !HasConst(Pairs(arms, true)) { NoConsts(arms); }
  }

  /** The same constant twice: the last arm runs, not the first. */
  lemma {:induction false} DuplicateGap(w: World)
    requires w.subject == Plain(Some(1))
    ensures
      var arms := [[Const(1)], [Const(1)]];
      Scan(w, Pairs(arms, true)) == Some(0) && Run(UsingCode(arms), w, 0, []) == Ran(Some(1), [])
  {
    var arms := [[Const(1)], [Const(1)]];
    assert arms[..1] == [[Const(1)]] && arms[..1][..0] == [] && [Const(1)][..0] == [];
    assert Of([Const(1)], 0, true) == [] + [Pair(Const(1), 0)] && Of([Const(1)], 1, true) == [] + [Pair(Const(1), 1)];
    assert Pairs(arms[..1], true) == [] + [Pair(Const(1), 0)];
    var all := [Pair(Const(1), 0), Pair(Const(1), 1)];
    assert Pairs(arms, true) == all;
    CodeDispatches(arms, w);
    assert LastConst(all, 1) == 1;
  }

  // The compiler.

  /** A jump that has been emitted, aimed at `target`. */
  function Aimed(i: Op, target: nat): Op {
    match i
    case Test(tag, _) => Test(tag, target)
    case Goto(_) => Goto(target)
    case _ => i
  }

  /** Tests before they are aimed at their arms. */
  function Raw(pairs: seq<Pair>): (r: seq<Op>)
    ensures |r| == |pairs| && forall i :: 0 <= i < |r| ==> r[i] == Test(pairs[i].tag, 0)
  {
    seq(|pairs|, i requires 0 <= i < |pairs| => Test(pairs[i].tag, 0))
  }

  /** Where the tests of arm `a` are, when the first test is at `at`. */
  function SitesOf(pairs: seq<Pair>, at: nat, a: nat): seq<nat> {
    if pairs == [] then []
    else
      var n := |pairs| - 1;
      SitesOf(pairs[..n], at, a) + if pairs[n].arm == a then [at + n] else []
  }

  lemma {:induction false} SiteIs(pairs: seq<Pair>, at: nat, a: nat, p: nat)
    ensures p in SitesOf(pairs, at, a) <==> at <= p < at + |pairs| && pairs[p - at].arm == a
    decreases |pairs|
  {
    if pairs != [] { SiteIs(pairs[..|pairs| - 1], at, a, p); }
  }

  lemma {:induction false} OneMore(pairs: seq<Pair>, last: Pair, at: nat)
    ensures Raw(pairs + [last]) == Raw(pairs) + [Test(last.tag, 0)]
    ensures forall a :: SitesOf(pairs + [last], at, a) == if last.arm == a then SitesOf(pairs, at, a) + [at + |pairs|] else SitesOf(pairs, at, a)
    ensures forall base :: Table(pairs + [last], base) == if last.tag.Const? then Table(pairs, base)[last.tag.key := Start(base, last.arm)] else Table(pairs, base)
    ensures HasConst(pairs + [last]) <==> HasConst(pairs) || last.tag.Const?
  {
    var all := pairs + [last];
    assert all[..|pairs|] == pairs && all[|pairs|] == last;
    assert forall i :: 0 <= i < |pairs| ==> all[i] == pairs[i];
  }

  /** The pairs of the first `g` arms and of the first `k` labels of the next. */
  function Until(arms: seq<seq<Label>>, g: nat, k: nat, all: bool): seq<Pair>
    requires g < |arms| && k <= |arms[g]|
  {
    Pairs(arms[..g], all) + Of(arms[g][..k], g, all)
  }

  lemma {:induction false} UntilStarts(arms: seq<seq<Label>>, g: nat, all: bool)
    requires g < |arms|
    ensures Until(arms, g, 0, all) == Pairs(arms[..g], all)
    ensures Until(arms, g, |arms[g]|, all) == Pairs(arms[..g + 1], all)
  {
    assert arms[..g + 1][..g] == arms[..g] && arms[g][..|arms[g]|] == arms[g];
    assert Of([], g, all) == [];
  }

  lemma {:induction false} UntilGrows(arms: seq<seq<Label>>, g: nat, k: nat, all: bool)
    requires g < |arms| && k < |arms[g]|
    ensures
      var l := arms[g][k];
      Until(arms, g, k + 1, all) == if all || l.Dynamic? then Until(arms, g, k, all) + [Pair(l, g)] else Until(arms, g, k, all)
  {
    assert arms[g][..k + 1][..k] == arms[g][..k];
    assert Of(arms[g][..k], g, all) + [] == Of(arms[g][..k], g, all);
  }

  /** One comparison for each label, or for each expression, with a jump to be aimed later. */
  method EmitTests(arms: seq<seq<Label>>, all: bool, before: seq<Op>, sites: seq<seq<nat>>) returns (code: seq<Op>, jumps: seq<seq<nat>>)
    requires |sites| == |arms|
    ensures code == before + Raw(Pairs(arms, all))
    ensures |jumps| == |arms| && forall a :: 0 <= a < |arms| ==> jumps[a] == sites[a] + SitesOf(Pairs(arms, all), |before|, a)
  {
    code, jumps := before, sites;
    hide SitesOf, Pairs, Of, Raw, Table, HasConst;
    assert Raw(Pairs(arms[..0], all)) == [] && forall a :: SitesOf(Pairs(arms[..0], all), |before|, a) == [] by { NoPairs(all, |before|); assert arms[..0] == []; }
    for g := 0 to |arms|
      invariant |jumps| == |arms| && code == before + Raw(Pairs(arms[..g], all))
      invariant forall a :: 0 <= a < |arms| ==> jumps[a] == sites[a] + SitesOf(Pairs(arms[..g], all), |before|, a)
    {
      UntilStarts(arms, g, all);
      for k := 0 to |arms[g]|
        invariant |jumps| == |arms| && code == before + Raw(Until(arms, g, k, all))
        invariant forall a :: 0 <= a < |arms| ==> jumps[a] == sites[a] + SitesOf(Until(arms, g, k, all), |before|, a)
      {
        UntilGrows(arms, g, k, all);
        if all || arms[g][k].Dynamic? {
          ghost var pairs := Until(arms, g, k, all);
          OneMore(pairs, Pair(arms[g][k], g), |before|);
          assert |code| == |before| + |pairs|;
          assert sites[g] + SitesOf(pairs, |before|, g) + [|code|] == sites[g] + (SitesOf(pairs, |before|, g) + [|code|]);
          jumps := jumps[g := jumps[g] + [|code|]];
          code := code + [Test(arms[g][k], 0)];
        }
      }
    }
    assert arms[..|arms|] == arms;
  }

  lemma {:induction false} NoPairs(all: bool, at: nat)
    ensures Pairs([], all) == [] && Raw([]) == [] && forall a :: SitesOf([], at, a) == []
    ensures forall base :: Table([], base) == map[]
  {
  }

  /** Aims every jump of a list. */
  method PatchAll(before: seq<Op>, sites: seq<nat>, target: nat) returns (code: seq<Op>)
    requires forall i :: 0 <= i < |sites| ==> sites[i] < |before|
    ensures |code| == |before| && forall p :: 0 <= p < |code| ==> code[p] == if p in sites then Aimed(before[p], target) else before[p]
  {
    code := before;
    for i := 0 to |sites|
      invariant |code| == |before| && forall p :: 0 <= p < |code| ==> code[p] == if p in sites[..i] then Aimed(before[p], target) else before[p]
    {
      assert sites[..i + 1] == sites[..i] + [sites[i]];
      code := code[sites[i] := Aimed(code[sites[i]], target)];
    }
    assert sites[..|sites|] == sites;
  }

  /** Registers an arm's constants. */
  method Register(arms: seq<seq<Label>>, g: nat, before: map<nat, nat>, base: nat) returns (table: map<nat, nat>)
    requires g < |arms| && before == Table(Pairs(arms[..g], true), base)
    ensures table == Table(Pairs(arms[..g + 1], true), base)
  {
    hide SitesOf, Pairs, Of, Raw, Table, HasConst;
    UntilStarts(arms, g, true);
    table := before;
    for k := 0 to |arms[g]|
      invariant table == Table(Until(arms, g, k, true), base)
    {
      UntilGrows(arms, g, k, true);
      OneMore(Until(arms, g, k, true), Pair(arms[g][k], g), 0);
      if arms[g][k].Const? { table := table[arms[g][k].key := Start(base, g)]; }
    }
  }

  method AnyConst(arms: seq<seq<Label>>) returns (any: bool)
    ensures any <==> HasConst(Pairs(arms, true))
  {
    hide SitesOf, Pairs, Of, Raw, Table, HasConst;
    any := false;
    assert !HasConst(Pairs(arms[..0], true)) by { NoPairs(true, 0); NoConst(); assert arms[..0] == []; }
    for g := 0 to |arms|
      invariant any <==> HasConst(Pairs(arms[..g], true))
    {
      UntilStarts(arms, g, true);
      for k := 0 to |arms[g]|
        invariant any <==> HasConst(Until(arms, g, k, true))
      {
        UntilGrows(arms, g, k, true);
        OneMore(Until(arms, g, k, true), Pair(arms[g][k], g), 0);
        any := any || arms[g][k].Const?;
      }
    }
    assert arms[..|arms|] == arms;
  }

  lemma {:induction false} NoConst()
    ensures !HasConst([])
  {
  }

  /** The pair whose test is at `p`, if there is a test. */
  function TestAt(dyn: seq<Pair>, all: seq<Pair>, section: bool, p: nat): Option<Pair> {
    if 1 <= p < 1 + |dyn| then Some(dyn[p - 1])
    else if section && 2 + |dyn| <= p < 2 + |dyn| + |all| then Some(all[p - 2 - |dyn|])
    else None
  }

  /** The part before the arms, with the tests of the first `g` arms aimed. */
  ghost predicate Front(code: seq<Op>, dyn: seq<Pair>, all: seq<Pair>, section: bool, base: nat, g: nat) {
    && base == 1 + |dyn| + (if section then 1 + |all| else 0) + 2 <= |code|
    && code[base - 2] == RunDefault && code[base - 1] == Goto(0) && (section ==> code[1 + |dyn|] == Goto(base - 2))
    && forall p: nat :: p < base && TestAt(dyn, all, section, p).Some? ==>
         var t := TestAt(dyn, all, section, p).value;
         code[p] == Test(t.tag, if t.arm < g then Start(base, t.arm) else 0)
  }

  /** The arms so far, each with a jump to be aimed at the end. */
  ghost predicate Back(code: seq<Op>, base: nat, g: nat) {
    |code| == Start(base, g) && forall k :: 0 <= k < g ==> code[Start(base, k)] == RunArm(k) && code[Start(base, k) + 1] == Goto(0)
  }

  /** The jumps recorded for an arm are the tests of its labels. */
  ghost predicate Recorded(jumps: seq<seq<nat>>, dyn: seq<Pair>, all: seq<Pair>, section: bool, base: nat, n: nat) {
    && |jumps| == n
    && forall a, p: nat :: 0 <= a < n ==>
         (p in jumps[a] <==> p < base && TestAt(dyn, all, section, p).Some? && TestAt(dyn, all, section, p).value.arm == a)
  }

  lemma {:induction false} FrontMoves(was: seq<Op>, code: seq<Op>, jumps: seq<seq<nat>>, dyn: seq<Pair>, all: seq<Pair>, section: bool, base: nat, g: nat, n: nat)
    requires g < n && Front(was, dyn, all, section, base, g) && Back(was, base, g) && Recorded(jumps, dyn, all, section, base, n)
    requires |code| == |was| && forall p :: 0 <= p < |code| ==> code[p] == if p in jumps[g] then Aimed(was[p], |was|) else was[p]
    ensures Front(code, dyn, all, section, base, g + 1) && Back(code, base, g) && code[0] == was[0]
  {
  }

  /** The two jumps to the end `UsingCode` has besides those after its arms. */
  lemma {:induction false} EndJumps(arms: seq<seq<Label>>)
    ensures
      var code, base, end := UsingCode(arms), Base(arms), Start(Base(arms), |arms|);
      && 3 <= base && |code| == end && code[base - 1] == Goto(end)
      && forall g :: 0 <= g < |arms| ==> code[Start(base, g) + 1] == Goto(end)
  {
    hide *;
    var dyn, all, base := Pairs(arms, false), Pairs(arms, true), Base(arms);
    var end := Start(base, |arms|);
    var head := [Lookup(Table(all, base), if HasConst(all) then Some(2 + |dyn|) else None)];
    var tail, bodies := [RunDefault, Goto(end)], Bodies(|arms|, end);
    CodeIs(arms);
    Regroup(head, Tests(dyn, base), Section(all, base), tail, bodies);
    assert UsingCode(arms)[base - 1] == tail[1];
    StartIs(base);
    forall g | 0 <= g < |arms| ensures UsingCode(arms)[Start(base, g) + 1] == Goto(end) {
      assert (head + Tests(dyn, base) + Section(all, base) + tail + bodies)[base + 2 * g + 1] == bodies[2 * g + 1];
    }
  }

  lemma {:induction false} StartIs(base: nat)
    ensures forall g: nat :: Start(base, g) == base + 2 * g
  {
  }

  lemma {:induction false} Finished(was: seq<Op>, code: seq<Op>, arms: seq<seq<Label>>, ends: seq<nat>)
    requires
      var dyn, all, base := Pairs(arms, false), Pairs(arms, true), Base(arms);
      && Front(was, dyn, all, HasConst(all), base, |arms|) && Back(was, base, |arms|)
      && |ends| == |arms| + 1 && (forall k :: 0 <= k <= |arms| ==> ends[k] == Start(base, k) - 1)
      && |was| == Start(base, |arms|) && 0 < base
      && |code| == |was| && code[0] == Lookup(Table(all, base), if HasConst(all) then Some(2 + |dyn|) else None)
      && forall p :: 0 < p < |code| ==> code[p] == if p in ends then Aimed(was[p], |was|) else was[p]
    ensures code == UsingCode(arms)
  {
    var dyn, all, base, whole := Pairs(arms, false), Pairs(arms, true), Base(arms), UsingCode(arms);
    hide Pairs, Table, Base, HasConst, UsingCode, Front, Back, TestAt, LaidOut;
    EndJumps(arms);
    forall p: nat | p < |code| ensures code[p] == whole[p] {
      if p >= base {
        ArmFinished(was, code, arms, ends, p);
      } else if p > 0 {
        FrontFinished(was, code, arms, ends, p);
      } else {
        Layout(arms);
        HeadIs(whole, dyn, all, base, |arms|);
      }
    }
  }

  lemma {:induction false} HeadIs(code: seq<Op>, dyn: seq<Pair>, all: seq<Pair>, base: nat, n: nat)
    requires LaidOut(code, dyn, all, base, n)
    ensures 0 < |code| && code[0] == Lookup(Table(all, base), if HasConst(all) then Some(2 + |dyn|) else None)
  {
  }

  lemma {:induction false} ArmFinished(was: seq<Op>, code: seq<Op>, arms: seq<seq<Label>>, ends: seq<nat>, p: nat)
    requires
      var base := Base(arms);
      && Back(was, base, |arms|) && |code| == |was| && 0 < base <= p < |code|
      && |ends| == |arms| + 1 && (forall k :: 0 <= k <= |arms| ==> ends[k] == Start(base, k) - 1)
      && forall p :: 0 < p < |code| ==> code[p] == if p in ends then Aimed(was[p], |was|) else was[p]
    ensures p < |UsingCode(arms)| && code[p] == UsingCode(arms)[p]
  {
    var dyn, all, base := Pairs(arms, false), Pairs(arms, true), Base(arms);
    hide Pairs, Table, Base, HasConst, UsingCode, TestsAt;
    Layout(arms);
    EndJumps(arms);
    var g := (p - base) / 2;
    if p == Start(base, g) {
      assert p !in ends;
    } else {
      assert p == Start(base, g) + 1 && ends[g + 1] == p;
    }
  }

  lemma {:induction false} FrontFinished(was: seq<Op>, code: seq<Op>, arms: seq<seq<Label>>, ends: seq<nat>, p: nat)
    requires
      var dyn, all, base := Pairs(arms, false), Pairs(arms, true), Base(arms);
      && Front(was, dyn, all, HasConst(all), base, |arms|) && |code| == |was| && 0 < p < base <= |code| && |was| == Start(base, |arms|)
      && |ends| == |arms| + 1 && (forall k :: 0 <= k <= |arms| ==> ends[k] == Start(base, k) - 1)
      && forall p :: 0 < p < |code| ==> code[p] == if p in ends then Aimed(was[p], |was|) else was[p]
    ensures p < |UsingCode(arms)| && code[p] == UsingCode(arms)[p]
  {
    var dyn, all, base := Pairs(arms, false), Pairs(arms, true), Base(arms);
    hide Pairs, Table, Base, HasConst, UsingCode, BodiesAt;
    Layout(arms);
    EndJumps(arms);
    InOrder(arms);
    if p == base - 1 {
      assert ends[0] == p;
    } else {
      assert p !in ends;
    }
  }

  lemma {:induction false} InOrder(arms: seq<seq<Label>>)
    ensures Ordered(Pairs(arms, false), |arms|) && Ordered(Pairs(arms, true), |arms|)
  {
    PairsInOrder(arms, false);
    PairsInOrder(arms, true);
  }

  lemma {:induction false} SitesAreRecorded(jumps: seq<seq<nat>>, dyn: seq<Pair>, all: seq<Pair>, section: bool, base: nat, n: nat)
    requires |jumps| == n && base == 1 + |dyn| + (if section then 1 + |all| else 0) + 2
    requires forall a :: 0 <= a < n ==> jumps[a] == SitesOf(dyn, 1, a) + if section then SitesOf(all, 2 + |dyn|, a) else []
    ensures Recorded(jumps, dyn, all, section, base, n)
  {
    hide SitesOf;
    forall a, p: nat | 0 <= a < n
      ensures p in jumps[a] <==> p < base && TestAt(dyn, all, section, p).Some? && TestAt(dyn, all, section, p).value.arm == a
    {
      SiteIs(dyn, 1, a, p);
      SiteIs(all, 2 + |dyn|, a, p);
    }
  }

  lemma {:induction false} SitesInFront(jumps: seq<seq<nat>>, dyn: seq<Pair>, all: seq<Pair>, section: bool, base: nat, n: nat, g: nat)
    requires Recorded(jumps, dyn, all, section, base, n) && g < n
    ensures forall i :: 0 <= i < |jumps[g]| ==> jumps[g][i] < base
  {
    forall i | 0 <= i < |jumps[g]| ensures jumps[g][i] < base {
      var p := jumps[g][i];
      assert p in jumps[g] && TestAt(dyn, all, section, p).Some?;
    }
  }

  /** The part before the arms: the fallback comparisons, the section for instances and the
      default. */
  method EmitFront(arms: seq<seq<Label>>) returns (code: seq<Op>, jumps: seq<seq<nat>>, section: Option<nat>)
    ensures
      var dyn, all, some := Pairs(arms, false), Pairs(arms, true), HasConst(Pairs(arms, true));
      && |code| == Base(arms) && code[0] == Lookup(map[], None)
      && Front(code, dyn, all, some, Base(arms), 0) && Recorded(jumps, dyn, all, some, Base(arms), |arms|)
      && section == if some then Some(2 + |dyn|) else None
  {
    ghost var dyn, all, some := Pairs(arms, false), Pairs(arms, true), HasConst(Pairs(arms, true));
    hide SitesOf, Pairs, HasConst;
    code, jumps := EmitTests(arms, false, [Lookup(map[], None)], seq(|arms|, _ => []));
    section := None;
    var any := AnyConst(arms);
    if any {
      var skip := |code|;
      code := code + [Goto(0)];
      section := Some(|code|);
      code, jumps := EmitTests(arms, true, code, jumps);
      code := code[skip := Aimed(code[skip], |code|)];
    }
    code := code + [RunDefault, Goto(0)];
    assert forall a :: 0 <= a < |arms| ==> [] + SitesOf(dyn, 1, a) == SitesOf(dyn, 1, a) && SitesOf(dyn, 1, a) + [] == SitesOf(dyn, 1, a);
    SitesAreRecorded(jumps, dyn, all, some, Base(arms), |arms|);
  }

  /** The statement: everything before the arms, then each arm, with every jump to it aimed
      when its place is known. */
  method CompileUsing(arms: seq<seq<Label>>) returns (code: seq<Op>)
    ensures code == UsingCode(arms)
  {
    ghost var dyn, all, some, n := Pairs(arms, false), Pairs(arms, true), HasConst(Pairs(arms, true)), |arms|;
    hide SitesOf, Pairs, HasConst, Table, Base;
    var front, jumps, section := EmitFront(arms);
    code := front;
    var base := |code|;
    var table: map<nat, nat> := map[];
    var ends := [base - 1];
    assert table == Table(Pairs(arms[..0], true), base) by { NoPairs(true, 0); assert arms[..0] == []; }
    for g := 0 to |arms|
      invariant base == Base(arms) <= |code| && code[0] == Lookup(map[], None)
      invariant Front(code, dyn, all, some, base, g) && Back(code, base, g) && table == Table(Pairs(arms[..g], true), base)
      invariant |ends| == g + 1 && forall k :: 0 <= k <= g ==> ends[k] == Start(base, k) - 1
    {
      table := Register(arms, g, table, base);
      ghost var was := code;
      SitesInFront(jumps, dyn, all, some, base, |arms|, g);
      code := PatchAll(code, jumps[g], |code|);
      FrontMoves(was, code, jumps, dyn, all, some, base, g, |arms|);
      code := code + [RunArm(g), Goto(0)];
      ends := ends + [|code| - 1];
    }
    assert arms[..|arms|] == arms;
    ghost var was := code;
    code := PatchAll(code, ends, |code|);
    code := code[0 := Lookup(table, section)];
    Finished(was, code, arms, ends);
  }
}
