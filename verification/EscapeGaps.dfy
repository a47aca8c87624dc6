/** Where the escape analysis cannot be trusted. */
module EscapeGaps {
  // First what each side condition of the soundness theorems buys, exactly. Then, for each, a
  // function that meets all the others, whose first parameter the summary says does not escape,
  // and a run that lets the parameter out.

  import opened Shapes
  import opened Flow
  import opened Spread
  import opened Escape
  import opened Sites
  import opened Runs
  import opened EscapeSound
  import MustFacts

  /** The facts the analysis computes about self-references, for a given summary. */
  ghost function FactsFor(p: Proto, summary: seq<bool>): SiteFacts {
    SiteFacts(seq(|p.code|, ip requires ip >= 0 => set r | r in AllRegs(p) && !MustFacts.Tainted(p, p.name, Node(ip, r))), summary)
  }

  lemma FactsForAreExact(p: Proto, summary: seq<bool>)
    ensures MustFacts.Exact(p, p.name, FactsFor(p, summary).selfRef)
  {
    assert forall r: Reg :: r < p.numRegs ==> InFrame(p, r);
  }

  /** A parameter does not escape if a closed set of nodes holds it and no node of the set
      is an escaping use. */
  lemma NeverEscapes(p: Proto, i: Reg, selfRef: seq<set<Reg>>, guess: seq<bool>, safety: FieldSafety, s: iset<Node>)
    requires 0 < |p.code| == |selfRef|
    requires Node(0, i) in s
    requires forall a, b :: a in s && Edge(p, a, b) && b.ip != 0 ==> b in s
    requires forall n :: n in s && n.ip < |p.code| ==> !ParamEscapesAt(p, selfRef, guess, safety, n)
    ensures !ParamEscapes(p, i, selfRef, guess, safety)
  {
    var start := MayTransfer(p.code[0], {i});
    forall n | n in Origins(p, 0, start)
      ensures n in s
    {
      MayTransferCarries(p.code[0], {i}, n.reg);
      assert Edge(p, Node(0, i), n);
    }
    forall n | Aliased(p, 0, start, n)
      ensures n in s
    {
      ReachIsLeast(p, Origins(p, 0, start), {0}, s, n);
    }
  }

  // ----- exactly when -----

  lemma AliasedElsewhere(p: Proto, f: nat, start: set<Reg>, n: Node)
    requires f < |p.code| && Aliased(p, f, start, n)
    ensures n.ip != f
  {
    var s := iset m: Node | m.ip != f;
    ReachIsLeast(p, Origins(p, f, start), {f}, s, n);
  }

  /** A value in `a` may be in `b` next: the instruction completed, or it raised. */
  predicate Travels(p: Proto, a: Node, b: Node) {
    Edge(p, a, b) || (KeptByRaise(p, a.ip, a.reg) && b == Node(CaughtAt(p, a.ip).value.resume, a.reg))
  }

  ghost predicate IsTrail(p: Proto, w: seq<Node>) {
    var n := |w|;
    n > 0 && (n > 1 ==> Travels(p, w[n - 2], w[n - 1]) && IsTrail(p, w[..n - 1]))
  }

  /** What parameter `i` brings in may come to `n`. */
  ghost predicate Comes(p: Proto, i: Reg, n: Node) {
    exists w :: IsTrail(p, w) && w[0] == Node(0, i) && w[|w| - 1] == n
  }

  lemma {:induction false} WalkIsTrail(p: Proto, w: seq<Node>)
    requires IsWalk(p, {}, w)
    ensures IsTrail(p, w)
    decreases |w|
  {
    if |w| > 1 { WalkIsTrail(p, w[..|w| - 1]); }
  }

  lemma ReachedComes(p: Proto, i: Reg, n: Node)
    requires Reach(p, iset{Node(0, i)}, {}, n)
    ensures Comes(p, i, n)
  {
    var w :| IsWalk(p, {}, w) && w[0] in iset{Node(0, i)} && w[|w| - 1] == n;
    WalkIsTrail(p, w);
  }

  lemma ComesOn(p: Proto, i: Reg, a: Node, b: Node)
    requires Comes(p, i, a) && Travels(p, a, b)
    ensures Comes(p, i, b)
  {
    var w :| IsTrail(p, w) && w[0] == Node(0, i) && w[|w| - 1] == a;
    var more := w + [b];
    assert more[..|w|] == w;
    assert IsTrail(p, more) && more[0] == Node(0, i) && more[|more| - 1] == b;
  }

  lemma {:induction false} TrailIsHeld(p: Proto, i: Reg, w: seq<Node>)
    requires |p.code| > 0 && BackUnmoved(p, i) && forall ip, r :: !ForgottenByRaise(p, i, ip, r)
    requires IsTrail(p, w) && w[0] == Node(0, i)
    ensures ParamHeld(p, i, w[|w| - 1])
    decreases |w|
  {
    var n := |w|;
    if n > 1 {
      TrailIsHeld(p, i, w[..n - 1]);
      hide ParamHeld, BackUnmoved;
      var a := w[n - 2];
      if Edge(p, a, w[n - 1]) { HeldStep(p, i, a, w[n - 1]); } else { assert !ForgottenByRaise(p, i, a.ip, a.reg); }
    }
  }

  /** The analysis follows a parameter along every path, of control or of an error, exactly when
      two things hold: wherever the parameter comes back to the first instruction, it is in its
      own register only, and an instruction that raises does not make the analysis forget it. */
  lemma HeldOnEveryPath(p: Proto, i: Reg)
    requires |p.code| > 0
    ensures BackUnmoved(p, i) && (forall ip, r :: !ForgottenByRaise(p, i, ip, r)) <==>
            forall n :: Comes(p, i, n) ==> ParamHeld(p, i, n)
  {
    var all := iset{Node(0, i)};
    if BackUnmoved(p, i) && forall ip, r :: !ForgottenByRaise(p, i, ip, r) {
      forall n | Comes(p, i, n)
        ensures ParamHeld(p, i, n)
      {
        var w :| IsTrail(p, w) && w[0] == Node(0, i) && w[|w| - 1] == n;
        TrailIsHeld(p, i, w);
      }
    } else if !BackUnmoved(p, i) {
      var r: Reg :| Reach(p, all, {}, Node(0, r)) && r != i;
      ReachedComes(p, i, Node(0, r));
      if ParamHeld(p, i, Node(0, r)) {
        AliasedElsewhere(p, 0, MayTransfer(p.code[0], {i}), Node(0, r));
      }
    } else {
      var ip, r :| ForgottenByRaise(p, i, ip, r);
      HeldIsReached(p, i, Node(ip, r));
      ReachedComes(p, i, Node(ip, r));
      ComesOn(p, i, Node(ip, r), Node(CaughtAt(p, ip).value.resume, r));
    }
  }

  /** With no way back at all there is nothing to come back. */
  lemma NoWayBack(p: Proto, i: Reg)
    requires Preds(p, 0) == {}
    ensures BackUnmoved(p, i)
  {
    var all := iset{Node(0, i)};
    var s := iset m: Node | m.ip == 0 ==> m.reg == i;
    forall a, b | a in s && Edge(p, a, b)
      ensures b in s
    {
      assert a.ip in Preds(p, b.ip);
    }
    forall r: Reg | Reach(p, all, {}, Node(0, r))
      ensures r == i
    {
      ReachIsLeast(p, all, {}, s, Node(0, r));
    }
  }

  /** Whatever a frame lets out the analysis flags, except for exactly one thing: what is
      handed to the collector of a variadic function. And that is always let out. */
  lemma FlaggedExactly(p: Proto, facts: SiteFacts, fields: Fields, f: Frame, r: Reg)
    requires FrameSane(p, facts, f) && |facts.summary| == p.arity
    ensures HandsToCollector(p, facts, Node(f.ip, r)) ==> Leaks(p, fields, f, r)
    ensures Leaks(p, fields, f, r) ==>
              (ParamEscapesAt(p, facts.selfRef, facts.summary, None, Node(f.ip, r)) <==> !HandsToCollector(p, facts, Node(f.ip, r)))
  {
    if !HandsToCollector(p, facts, Node(f.ip, r)) && Leaks(p, fields, f, r) { LeakIsFlagged(p, facts, fields, f, r); }
  }

  /** A step that copies shows an object through an upvalue exactly when it copies the object
      into a register an upvalue is open on. */
  lemma ShownExactly(p: Proto, fields: Fields, st: State, st': State, o: nat)
    requires LocalStep(p, st, st') && LetsOut(p, fields, st, st') && p.code[Top(st).ip].Move?
    requires o < st.next && o !in st'.escaped && !SeenThroughUpvalue(st, o) && p.code[Top(st).ip].dst < |Top(st).regs|
    ensures
      var f, i := Top(st), p.code[Top(st).ip];
      SeenThroughUpvalue(st', o) <==> i.dst in f.open && At(f, i.src) == Ref(o)
  {
    var n, f, i := |st.frames|, Top(st), p.code[Top(st).ip];
    assert Completes(p, st, st');
    var v :| Produces(p, st, st', f, v) && Advances(p, st, st', f, Top(st'), v);
    if i.dst in f.open && At(f, i.src) == Ref(o) {
      assert At(st'.frames[n - 1], i.dst) == Ref(o);
    }
    if SeenThroughUpvalue(st', o) {
      var k: nat, c :| k < n && c in st'.frames[k].open && At(st'.frames[k], c) == Ref(o);
      assert k < n - 1 ==> Waits(st, st', st.frames[k], st'.frames[k]);
      assert At(st.frames[k], c) != Ref(o);
    }
  }

  /** The frame a waiting frame becomes when other code overwrites `c` through an upvalue. */
  function Overwritten(f: Frame, c: Reg): Frame {
    f.(regs := seq(|f.regs|, r requires 0 <= r < |f.regs| => if r == c then Plain else f.regs[r]))
  }

  /** While a frame waits, its proven self-references stay what they are, whatever the code it
      waits for does, exactly when no upvalue is open on one of them. */
  lemma NamesStayExactly(p: Proto, facts: SiteFacts, st: State, st': State, f: Frame)
    requires FrameSane(p, facts, f)
    ensures (forall c :: c in f.open && c < |f.regs| ==> c !in facts.selfRef[f.ip]) <==>
              forall f' :: Waits(st, st', f, f') ==> forall r :: r in facts.selfRef[f.ip] ==> At(f', r) == SelfFn
  {
    if c :| c in f.open && c < |f.regs| && c in facts.selfRef[f.ip] {
      var f' := Overwritten(f, c);
      assert Waits(st, st', f, f') && At(f', c) == Plain;
    }
  }

  // ----- functions without closures -----

  lemma {:induction false} OnlyCaptured(p: Proto, c: Reg, w: seq<nat>)
    requires OpenPath(p, c, w)
    ensures exists k: nat :: k < |p.code| && CapturesReg(p.code[k], c)
  {
    if |w| > 2 { OnlyCaptured(p, c, w[..|w| - 1]); }
  }

  lemma OpenWasCaptured(p: Proto, c: Reg, ip: nat)
    requires MayBeOpen(p, c, ip)
    ensures exists k: nat :: k < |p.code| && CapturesReg(p.code[k], c)
  {
    var w :| OpenPath(p, c, w) && w[|w| - 1] == ip;
    OnlyCaptured(p, c, w);
  }

  ghost predicate NoClosures(p: Proto) {
    forall k: nat :: k < |p.code| ==> !p.code[k].Closure?
  }

  /** All that is asked for besides what a function without closures can get wrong. */
  ghost predicate UpvaluesHarmless(p: Proto, facts: SiteFacts, i: Reg) {
    && (forall c, ip :: !ProvenThoughOpen(p, facts, c, ip))
    && (forall ip :: !MovesUnderUpvalue(p, i, ip))
  }

  lemma NoClosuresNoUpvalues(p: Proto, facts: SiteFacts, i: Reg)
    requires NoClosures(p)
    ensures UpvaluesHarmless(p, facts, i)
  {
    forall c, ip
      ensures !MayBeOpen(p, c, ip)
    {
      if MayBeOpen(p, c, ip) { OpenWasCaptured(p, c, ip); }
    }
  }

  /** Errors are caught where control may go, and make the analysis forget nothing. */
  ghost predicate RaisesHarmless(p: Proto, facts: SiteFacts, i: Reg) {
    && CatchesAreEdges(p)
    && (forall ip :: !ProvenThoughCaught(p, facts, ip))
    && (forall ip, r :: !ForgottenByRaise(p, i, ip, r))
  }

  lemma NothingCaught(p: Proto, facts: SiteFacts, i: Reg)
    requires forall ip: nat :: CaughtAt(p, ip).None?
    ensures RaisesHarmless(p, facts, i)
  {
  }

  /** Nothing is handed to a collector. */
  ghost predicate CollectorHarmless(p: Proto, facts: SiteFacts, i: Reg) {
    forall n :: ParamHeld(p, i, n) ==> !HandsToCollector(p, facts, n)
  }

  // ----- a loop whose head is the first instruction -----

  /** `def f(p, q) { while q { echo q; q = p } }`: the back edge leads to instruction 0. */
  function EntryLoop(): Proto {
    Proto("f",
          [Other(None, {}), Other(None, {1}), Move(1, 0), Other(None, {}), LoadPlain(2), Return(2)],
          [{1, 4}, {2}, {3}, {0}, {5}, {}],
          3, 2, false, false, false, [None, None, None, None, None, None])
  }

  /** The state with `p` and `q` in their registers, about to run `ip`. */
  function LoopState(ip: nat, q: Val, escaped: set<nat>): State {
    State([Frame(ip, [Ref(0), q, Plain], {})], escaped, 1)
  }

  function LoopRun(): seq<State> {
    [LoopState(0, Plain, {}), LoopState(1, Plain, {}), LoopState(2, Plain, {}), LoopState(3, Ref(0), {}),
     LoopState(0, Ref(0), {}), LoopState(1, Ref(0), {}), LoopState(2, Ref(0), {0})]
  }

  lemma LoopStep(fields: Fields, st: State, st': State, ip: nat, ip': nat, q: Val, q': Val, e: set<nat>, e': set<nat>)
    requires st == LoopState(ip, q, e) && st' == LoopState(ip', q', e') && ip < 4
    requires ip' in Successors(EntryLoop(), ip)
    requires q' == if ip == 2 then Ref(0) else q
    requires e' == if ip == 1 && q == Ref(0) then {0} else e
    requires e == {} && (q == Plain || q == Ref(0))
    ensures Step(EntryLoop(), fields, st, st')
  {
    var p := EntryLoop();
    var f, f' := st.frames[0], st'.frames[0];
    assert Leaks(p, fields, f, 1) <==> ip == 1;
    assert forall r: Reg :: r != 1 ==> !Leaks(p, fields, f, r);
    assert Produces(p, st, st', f, Ref(0)) || ip != 2;
    var v := if ip == 2 then Ref(0) else Plain;
    assert Produces(p, st, st', f, v) && Advances(p, st, st', f, f', v);
    assert Completes(p, st, st');
    assert LocalStep(p, st, st');
    assert At(f, 1) == q;
    assert forall id :: LeakedNow(p, fields, st, id) <==> ip == 1 && q == Ref(id);
  }

  lemma LoopStepAt(fields: Fields, k: nat)
    requires k < 6
    ensures StepAt(EntryLoop(), fields, LoopRun(), k)
  {
    var run := LoopRun();
    var q := if k <= 2 then Plain else Ref(0);
    var ip := if k <= 3 then k else k - 4;
    LoopStep(fields, run[k], run[k + 1], ip, if ip == 3 then 0 else ip + 1, q, if k <= 1 then Plain else Ref(0), {}, if k == 5 then {0} else {});
  }

  lemma EntryLoopRuns(fields: Fields)
    ensures IsRun(EntryLoop(), fields, LoopRun())
  {
    forall k: nat | k + 1 < |LoopRun()|
      ensures StepAt(EntryLoop(), fields, LoopRun(), k)
    {
      LoopStepAt(fields, k);
    }
  }

  lemma EntryLoopLooksSafe(selfRef: seq<set<Reg>>)
    requires |selfRef| == |EntryLoop().code|
    ensures !ParamEscapes(EntryLoop(), 0, selfRef, [false, true], None)
  {
    var p := EntryLoop();
    var s := iset n: Node | n.reg == 0 || (n.reg == 1 && n.ip == 3);
    forall a, b | a in s && Edge(p, a, b) && b.ip != 0
      ensures b in s
    {
      assert a.ip < 6;
    }
    NeverEscapes(p, 0, selfRef, [false, true], None, s);
  }

  lemma EntryLoopFacts()
    ensures FactsHold(EntryLoop(), FactsFor(EntryLoop(), [false, true]))
  {
    FactsForAreExact(EntryLoop(), [false, true]);
    EntryLoopLooksSafe(FactsFor(EntryLoop(), [false, true]).selfRef);
  }

  lemma EntryLoopComesBack()
    ensures !BackUnmoved(EntryLoop(), 0)
  {
    hide Reach;
    var p, all := EntryLoop(), iset{Node(0, 0)};
    ReachSeed(p, all, {}, Node(0, 0));
    ReachStep(p, all, {}, Node(0, 0), Node(1, 0));
    ReachStep(p, all, {}, Node(1, 0), Node(2, 0));
    ReachStep(p, all, {}, Node(2, 0), Node(3, 1));
    ReachStep(p, all, {}, Node(3, 1), Node(0, 1));
  }

  /** Every other side condition holds, the summary clears `p`, and the second turn of the
      loop prints it. */
  lemma EntryLoopGap(fields: Fields)
    ensures
      var p := EntryLoop();
      var facts := FactsFor(p, [false, true]);
      && RegsInFrame(p) && FactsHold(p, facts) && UpvaluesHarmless(p, facts, 0) && CollectorHarmless(p, facts, 0)
      && RaisesHarmless(p, facts, 0)
      && !BackUnmoved(p, 0)
      && facts.summary == [false, true]
      && IsRun(p, fields, LoopRun()) && At(LoopRun()[0].frames[0], 0) == Ref(0)
      && 0 !in LoopRun()[0].escaped && 0 in LoopRun()[6].escaped
  {
    var p := EntryLoop();
    hide *;
    EntryLoopFacts();
    EntryLoopRuns(fields);
    EntryLoopComesBack();
    EntryLoopParts();
    NothingCaught(p, FactsFor(p, [false, true]), 0);
    NoClosuresNoUpvalues(p, FactsFor(p, [false, true]), 0);
  }

  lemma EntryLoopParts()
    ensures
      var p := EntryLoop();
      var facts := FactsFor(p, [false, true]);
      && (forall ip: nat :: CaughtAt(p, ip).None?) && RegsInFrame(p) && CollectorHarmless(p, facts, 0) && NoClosures(p) && facts.summary == [false, true]
      && |LoopRun()| == 7 && LoopRun()[0].frames != [] && At(LoopRun()[0].frames[0], 0) == Ref(0)
      && 0 !in LoopRun()[0].escaped && 0 in LoopRun()[6].escaped
  {
    hide ParamHeld, MustFacts.Tainted;
  }

  // ----- a register captured before the parameter is moved into it -----

  /** `def f(p) { var x = nil; var g = || { return x }; x = p; h(g) }` */
  function MovedUnderClosure(): Proto {
    Proto("f",
          [LoadPlain(1), Closure(2, {1}), Move(1, 0), GetGlobal(3, "h"), Move(4, 2), Call(3, 3, 1), LoadPlain(3), Return(3)],
          [{1}, {2}, {3}, {4}, {5}, {6}, {7}, {}],
          5, 1, false, false, false, [])
  }

  function ClosureRun(): (run: seq<State>)
    ensures |run| == 7
  {
    [State([Frame(0, [Ref(0), Plain, Plain, Plain, Plain], {})], {}, 1),
     State([Frame(1, [Ref(0), Plain, Plain, Plain, Plain], {})], {}, 1),
     State([Frame(2, [Ref(0), Plain, Ref(1), Plain, Plain], {1})], {}, 2),
     State([Frame(3, [Ref(0), Ref(0), Ref(1), Plain, Plain], {1})], {}, 2),
     State([Frame(4, [Ref(0), Ref(0), Ref(1), Plain, Plain], {1})], {}, 2),
     State([Frame(5, [Ref(0), Ref(0), Ref(1), Plain, Ref(1)], {1})], {}, 2),
     State([Frame(6, [Ref(0), Ref(0), Ref(1), Plain, Ref(1)], {1})], {0, 1}, 2)]
  }

  lemma ClosureLeaks(fields: Fields, k: nat)
    requires k < 6
    ensures
      var st := ClosureRun()[k];
      && (forall r: Reg :: Leaks(MovedUnderClosure(), fields, st.frames[0], r) ==> (k == 1 && r == 1) || (k == 5 && (r == 3 || r == 4)))
      && (forall id :: LeakedNow(MovedUnderClosure(), fields, st, id) <==> k == 5 && id == 1)
      && (k == 5 ==> SeenThroughUpvalue(st, 0))
  {
    var p, st := MovedUnderClosure(), ClosureRun()[k];
    assert k == 5 ==> Leaks(p, fields, st.frames[0], 4) && At(st.frames[0], 4) == Ref(1);
    assert k == 5 ==> 1 in st.frames[0].open && At(st.frames[0], 1) == Ref(0);
  }

  function ClosureValue(k: nat): Val {
    if k == 1 || k == 4 then Ref(1) else if k == 2 then Ref(0) else Plain
  }

  lemma ClosureAdvances(k: nat)
    requires k < 6
    ensures
      var st, st' := ClosureRun()[k], ClosureRun()[k + 1];
      Advances(MovedUnderClosure(), st, st', st.frames[0], st'.frames[0], ClosureValue(k))
  {
  }

  lemma ClosureProduces(k: nat)
    requires k < 6
    ensures
      var p, st, st' := MovedUnderClosure(), ClosureRun()[k], ClosureRun()[k + 1];
      && |st.frames| == |st'.frames| == 1 && st.frames[0].ip == k < |p.code| && st.escaped == {} && st.next <= st'.next == (if k == 0 then 1 else 2)
      && Produces(p, st, st', st.frames[0], ClosureValue(k)) && !p.code[k].Return? && !IsSelfCallNow(p, st.frames[0])
      && st'.escaped == (if k < 5 then {} else {0, 1})
  {
  }

  lemma ClosureStepAt(fields: Fields, k: nat)
    requires k < 6
    ensures StepAt(MovedUnderClosure(), fields, ClosureRun(), k)
  {
    hide Leaks, LeakedNow, SeenThroughUpvalue, ClosureRun, MovedUnderClosure, ClosureValue, Advances, Produces, IsSelfCallNow;
    var st, st' := ClosureRun()[k], ClosureRun()[k + 1];
    ClosureAdvances(k);
    ClosureProduces(k);
    ClosureLeaks(fields, k);
    assert Completes(MovedUnderClosure(), st, st');
    assert LocalStep(MovedUnderClosure(), st, st');
  }

  lemma ClosureLooksSafe(selfRef: seq<set<Reg>>)
    requires |selfRef| == |MovedUnderClosure().code|
    ensures !ParamEscapes(MovedUnderClosure(), 0, selfRef, [false], None)
  {
    var p := MovedUnderClosure();
    var s := iset n: Node | n.reg == 0 || (n.reg == 1 && n.ip >= 3);
    forall a, b | a in s && Edge(p, a, b) && b.ip != 0
      ensures b in s
    {
      assert a.ip < 8;
    }
    NeverEscapes(p, 0, selfRef, [false], None, s);
  }

  lemma ClosureFacts()
    ensures FactsHold(MovedUnderClosure(), FactsFor(MovedUnderClosure(), [false]))
  {
    FactsForAreExact(MovedUnderClosure(), [false]);
    ClosureLooksSafe(FactsFor(MovedUnderClosure(), [false]).selfRef);
  }

  lemma ClosureRuns(fields: Fields)
    ensures IsRun(MovedUnderClosure(), fields, ClosureRun())
  {
    forall k: nat | k + 1 < |ClosureRun()|
      ensures StepAt(MovedUnderClosure(), fields, ClosureRun(), k)
    {
      ClosureStepAt(fields, k);
    }
  }

  /** Nothing in the function ever holds the function's own name. */
  lemma ClosureTaints(ip: nat, r: Reg)
    requires ip < 8
    ensures MustFacts.Tainted(MovedUnderClosure(), "f", Node(ip, r))
    decreases ip
  {
    hide Reach;
    var p := MovedUnderClosure();
    var seeds := iset t | MustFacts.IsTaint(p, "f", t);
    if ip == 0 {
      ReachSeed(p, seeds, {}, Node(0, r));
    } else if MustFacts.Overwrites(p.code[ip - 1], "f", r) {
      assert ip - 1 in Preds(p, ip);
      ReachSeed(p, seeds, {}, Node(ip, r));
    } else {
      var from := if ip == 3 && r == 1 then 0 else if ip == 5 && r == 4 then 2 else r;
      ClosureTaints(ip - 1, from);
      ReachStep(p, seeds, {}, Node(ip - 1, from), Node(ip, r));
    }
  }

  lemma ClosureMovesUnder()
    ensures MovesUnderUpvalue(MovedUnderClosure(), 0, 2)
  {
    hide Reach, MayBeOpen;
    var p := MovedUnderClosure();
    assert CapturesReg(p.code[1], 1);
    OpensAt(p, 1, 1, 2);
    var seeds := Origins(p, 0, MayTransfer(p.code[0], {0}));
    ReachSeed(p, seeds, {0}, Node(1, 0));
    ReachStep(p, seeds, {0}, Node(1, 0), Node(2, 0));
  }

  /** Every other side condition holds, the summary clears `p`, and the open upvalue shows
      it to whoever holds the closure. */
  lemma MovedUnderClosureGap(fields: Fields)
    ensures
      var p := MovedUnderClosure();
      var facts := FactsFor(p, [false]);
      && RegsInFrame(p) && FactsHold(p, facts) && BackUnmoved(p, 0) && CollectorHarmless(p, facts, 0)
      && RaisesHarmless(p, facts, 0)
      && (forall c, ip :: !ProvenThoughOpen(p, facts, c, ip))
      && MovesUnderUpvalue(p, 0, 2)
      && facts.summary == [false]
      && IsRun(p, fields, ClosureRun()) && At(ClosureRun()[0].frames[0], 0) == Ref(0)
      && 0 !in ClosureRun()[0].escaped && 0 in ClosureRun()[6].escaped
  {
    var p := MovedUnderClosure();
    hide *;
    ClosureFacts();
    ClosureRuns(fields);
    ClosureMovesUnder();
    ClosureProvesNothing();
    ClosureParts();
    NothingCaught(p, FactsFor(p, [false]), 0);
    NoWayBack(p, 0);
  }

  lemma ClosureProvesNothing()
    ensures forall c, ip :: !ProvenThoughOpen(MovedUnderClosure(), FactsFor(MovedUnderClosure(), [false]), c, ip)
  {
    hide MayBeOpen, MustFacts.Tainted;
    forall ip: nat, r: Reg | ip < 8
      ensures r !in FactsFor(MovedUnderClosure(), [false]).selfRef[ip]
    {
      ClosureTaints(ip, r);
    }
  }

  lemma ClosureParts()
    ensures
      var p := MovedUnderClosure();
      var facts := FactsFor(p, [false]);
      && (forall ip: nat :: CaughtAt(p, ip).None?) && RegsInFrame(p) && CollectorHarmless(p, facts, 0) && Preds(p, 0) == {} && facts.summary == [false]
      && ClosureRun()[0].frames != [] && At(ClosureRun()[0].frames[0], 0) == Ref(0)
      && 0 !in ClosureRun()[0].escaped && 0 in ClosureRun()[6].escaped
  {
    hide ParamHeld, MustFacts.Tainted;
    assert forall q: nat :: q < 8 ==> 0 !in Successors(MovedUnderClosure(), q);
  }

  // ----- a closure that replaces what a variable holds -----

  /** `def f(p) { var g = f; var s = || { g = nil }; s(); g(p) }` */
  function OverwrittenName(): Proto {
    Proto("f",
          [GetGlobal(1, "f"), Closure(2, {1}), Move(3, 2), Call(3, 3, 0), Move(3, 1), Move(4, 0), Call(3, 3, 1), LoadPlain(3), Return(3)],
          [{1}, {2}, {3}, {4}, {5}, {6}, {7}, {8}, {}],
          5, 1, false, false, false, [])
  }

  function NameRun(): (run: seq<State>)
    ensures |run| == 8
  {
    [State([Frame(0, [Ref(0), Plain, Plain, Plain, Plain], {})], {}, 1),
     State([Frame(1, [Ref(0), SelfFn, Plain, Plain, Plain], {})], {}, 1),
     State([Frame(2, [Ref(0), SelfFn, Ref(1), Plain, Plain], {1})], {}, 2),
     State([Frame(3, [Ref(0), SelfFn, Ref(1), Ref(1), Plain], {1})], {}, 2),
     State([Frame(4, [Ref(0), Plain, Ref(1), Plain, Plain], {1})], {1}, 2),
     State([Frame(5, [Ref(0), Plain, Ref(1), Plain, Plain], {1})], {1}, 2),
     State([Frame(6, [Ref(0), Plain, Ref(1), Plain, Ref(0)], {1})], {1}, 2),
     State([Frame(7, [Ref(0), Plain, Ref(1), Plain, Ref(0)], {1})], {0, 1}, 2)]
  }

  lemma NameLeaks(fields: Fields, k: nat)
    requires k < 7
    ensures
      var st := NameRun()[k];
      && (forall r: Reg :: Leaks(OverwrittenName(), fields, st.frames[0], r) ==> (k == 1 && r == 1) || (k == 3 && r == 3) || (k == 6 && (r == 3 || r == 4)))
      && (forall id :: LeakedNow(OverwrittenName(), fields, st, id) <==> (k == 3 && id == 1) || (k == 6 && id == 0))
  {
    var p, st := OverwrittenName(), NameRun()[k];
    assert k == 3 ==> Leaks(p, fields, st.frames[0], 3) && At(st.frames[0], 3) == Ref(1);
    assert k == 6 ==> Leaks(p, fields, st.frames[0], 4) && At(st.frames[0], 4) == Ref(0);
  }

  function NameValue(k: nat): Val {
    if k == 0 then SelfFn else if k == 1 || k == 2 then Ref(1) else if k == 5 then Ref(0) else Plain
  }

  lemma NameAdvances(k: nat)
    requires k < 7
    ensures
      var st, st' := NameRun()[k], NameRun()[k + 1];
      Advances(OverwrittenName(), st, st', st.frames[0], st'.frames[0], NameValue(k))
  {
  }

  lemma NameProduces(k: nat)
    requires k < 7
    ensures
      var p, st, st' := OverwrittenName(), NameRun()[k], NameRun()[k + 1];
      && |st.frames| == |st'.frames| == 1 && st.frames[0].ip == k < |p.code| && st.escaped <= st'.escaped && st.next <= st'.next == (if k == 0 then 1 else 2)
      && Produces(p, st, st', st.frames[0], NameValue(k)) && !p.code[k].Return? && !IsSelfCallNow(p, st.frames[0])
      && st'.escaped == (if k < 3 then {} else if k < 6 then {1} else {0, 1}) && (k <= 3 ==> st.escaped == {}) && (k > 3 ==> st.escaped == {1})
  {
  }

  lemma NameStepAt(fields: Fields, k: nat)
    requires k < 7
    ensures StepAt(OverwrittenName(), fields, NameRun(), k)
  {
    hide Leaks, LeakedNow, SeenThroughUpvalue, NameRun, OverwrittenName, NameValue, Advances, Produces, IsSelfCallNow;
    var st, st' := NameRun()[k], NameRun()[k + 1];
    NameAdvances(k);
    NameProduces(k);
    NameLeaks(fields, k);
    assert Completes(OverwrittenName(), st, st');
    assert LocalStep(OverwrittenName(), st, st');
  }

  lemma NameRuns(fields: Fields)
    ensures IsRun(OverwrittenName(), fields, NameRun())
  {
    forall k: nat | k + 1 < |NameRun()|
      ensures StepAt(OverwrittenName(), fields, NameRun(), k)
    {
      NameStepAt(fields, k);
    }
  }

  /** Where the function's own name is taken to be. */
  predicate TakenForName(n: Node) {
    (n.reg == 1 && 1 <= n.ip < 9) || (n.reg == 3 && 5 <= n.ip <= 6)
  }

  lemma NameTaints(n: Node)
    ensures MustFacts.IsTaint(OverwrittenName(), "f", n) ==> !TakenForName(n)
  {
    var p := OverwrittenName();
    forall q | q in Preds(p, n.ip) && TakenForName(n)
      ensures !MustFacts.Overwrites(p.code[q], "f", n.reg)
    {
      assert q == n.ip - 1;
    }
  }

  lemma NameEdges(a: Node, b: Node)
    requires Edge(OverwrittenName(), a, b) && TakenForName(b)
    ensures TakenForName(a)
  {
    assert a.ip < 9 && b.ip == a.ip + 1;
  }

  lemma NameIsProven(n: Node)
    requires TakenForName(n)
    ensures !MustFacts.Tainted(OverwrittenName(), "f", n)
  {
    var p := OverwrittenName();
    var seeds := iset t | MustFacts.IsTaint(p, "f", t);
    var s := iset m: Node | !TakenForName(m);
    forall t
      ensures t in seeds ==> t in s
    {
      NameTaints(t);
    }
    forall a, b | a in s && Edge(p, a, b)
      ensures b in s
    {
      if TakenForName(b) { NameEdges(a, b); }
    }
    hide TakenForName, Edge;
    if MustFacts.Tainted(p, "f", n) { ReachIsLeast(p, seeds, {}, s, n); }
  }

  lemma NameLooksSafe(selfRef: seq<set<Reg>>)
    requires |selfRef| == |OverwrittenName().code| && 3 in selfRef[6]
    ensures !ParamEscapes(OverwrittenName(), 0, selfRef, [false], None)
  {
    var p := OverwrittenName();
    var s := iset n: Node | n.reg == 0 || (n.reg == 4 && n.ip >= 6);
    forall a, b | a in s && Edge(p, a, b) && b.ip != 0
      ensures b in s
    {
      assert a.ip < 9;
    }
    NeverEscapes(p, 0, selfRef, [false], None, s);
  }

  lemma NameFacts()
    ensures FactsHold(OverwrittenName(), FactsFor(OverwrittenName(), [false]))
    ensures var facts := FactsFor(OverwrittenName(), [false]); |facts.selfRef| == 9 && 3 in facts.selfRef[6]
    ensures ProvenThoughOpen(OverwrittenName(), FactsFor(OverwrittenName(), [false]), 1, 2)
  {
    hide MustFacts.Tainted, MustFacts.Exact, MayBeOpen, ParamEscapes;
    var p := OverwrittenName();
    FactsForAreExact(p, [false]);
    NameIsProven(Node(6, 3));
    NameIsProven(Node(2, 1));
    assert 3 in AllRegs(p) && 1 in AllRegs(p) by { assert InFrame(p, 3) && InFrame(p, 1); }
    NameLooksSafe(FactsFor(p, [false]).selfRef);
    assert CapturesReg(p.code[1], 1);
    OpensAt(p, 1, 1, 2);
  }

  lemma NameMovesNothing(ip: nat)
    ensures !MovesUnderUpvalue(OverwrittenName(), 0, ip)
  {
    hide MayBeOpen, Aliased;
    var p := OverwrittenName();
    if MovesUnderUpvalue(p, 0, ip) {
      OpenWasCaptured(p, p.code[ip].dst, ip);
    }
  }

  /** Every other side condition holds, the summary clears `p`, and a closure has replaced the
      callee that was taken for the function itself. */
  lemma OverwrittenNameGap(fields: Fields)
    ensures
      var p := OverwrittenName();
      var facts := FactsFor(p, [false]);
      && RegsInFrame(p) && FactsHold(p, facts) && BackUnmoved(p, 0) && CollectorHarmless(p, facts, 0)
      && RaisesHarmless(p, facts, 0)
      && (forall ip :: !MovesUnderUpvalue(p, 0, ip))
      && ProvenThoughOpen(p, facts, 1, 2)
      && facts.summary == [false]
      && IsRun(p, fields, NameRun()) && At(NameRun()[0].frames[0], 0) == Ref(0)
      && 3 in facts.selfRef[6] && At(NameRun()[6].frames[0], 3) != SelfFn
      && 0 !in NameRun()[0].escaped && 0 in NameRun()[7].escaped
  {
    var p := OverwrittenName();
    hide *;
    NameFacts();
    NameRuns(fields);
    NameParts();
    NothingCaught(p, FactsFor(p, [false]), 0);
    forall ip
      ensures !MovesUnderUpvalue(p, 0, ip)
    {
      NameMovesNothing(ip);
    }
    NoWayBack(p, 0);
  }

  lemma NameParts()
    ensures
      var p := OverwrittenName();
      var facts := FactsFor(p, [false]);
      && (forall ip: nat :: CaughtAt(p, ip).None?) && RegsInFrame(p) && CollectorHarmless(p, facts, 0) && Preds(p, 0) == {} && facts.summary == [false]
      && NameRun()[0].frames != [] && At(NameRun()[0].frames[0], 0) == Ref(0)
      && |facts.selfRef| == 9 && NameRun()[6].frames != [] && At(NameRun()[6].frames[0], 3) != SelfFn
      && 0 !in NameRun()[0].escaped && 0 in NameRun()[7].escaped
  {
    hide ParamHeld, MustFacts.Tainted;
    assert forall q: nat :: q < 9 ==> 0 !in Successors(OverwrittenName(), q);
  }

  // ----- a variadic function -----

  /** `def f(...rest) { f(rest) }`: the collected list is passed on, and collected again. */
  function Collector(): Proto {
    Proto("f",
          [GetGlobal(1, "f"), Move(2, 0), Call(1, 1, 1), LoadPlain(1), Return(1)],
          [{1}, {2}, {3}, {4}, {}],
          3, 1, true, false, false, [])
  }

  function CollectorRun(): seq<State> {
    var caller := Frame(2, [Ref(0), SelfFn, Ref(0)], {});
    [State([Frame(0, [Ref(0), Plain, Plain], {})], {}, 1),
     State([Frame(1, [Ref(0), SelfFn, Plain], {})], {}, 1),
     State([caller], {}, 1),
     State([caller, Frame(0, [Ref(1), Plain, Plain], {})], {0}, 2)]
  }

  lemma CollectorStepAt(fields: Fields, k: nat)
    requires k < 3
    ensures StepAt(Collector(), fields, CollectorRun(), k)
  {
    var p := Collector();
    var st, st' := CollectorRun()[k], CollectorRun()[k + 1];
    var f := st.frames[0];
    if k < 2 {
      var v := if k == 0 then SelfFn else Ref(0);
      assert Produces(p, st, st', f, v) && Advances(p, st, st', f, st'.frames[0], v);
      assert Completes(p, st, st');
      assert LocalStep(p, st, st');
    } else {
      assert Leaks(p, fields, f, 2) && At(f, 2) == Ref(0);
      assert st'.frames[..1] == st.frames;
      assert SelfCallStep(p, st, st');
    }
    assert forall r: Reg :: Leaks(p, fields, f, r) ==> k == 2 && r == 2;
    assert forall id :: LeakedNow(p, fields, st, id) <==> k == 2 && id == 0;
  }

  /** Register 1 at instructions 1 and 2: where the function's own name sits. */
  predicate HoldsOwnName(n: Node) {
    n.reg == 1 && (n.ip == 1 || n.ip == 2)
  }

  lemma CollectorTaints(n: Node)
    ensures MustFacts.IsTaint(Collector(), "f", n) ==> !HoldsOwnName(n)
  {
    var p := Collector();
    assert Preds(p, 1) == {0} && Preds(p, 2) == {1};
    assert !MustFacts.Overwrites(p.code[0], "f", 1) && !MustFacts.Overwrites(p.code[1], "f", 1);
  }

  lemma CollectorEdges(a: Node, b: Node)
    requires Edge(Collector(), a, b) && HoldsOwnName(b)
    ensures HoldsOwnName(a)
  {
    assert a.ip < 5;
  }

  lemma CollectorCallsItself(selfRef: seq<set<Reg>>)
    requires MustFacts.Exact(Collector(), "f", selfRef)
    ensures 1 in selfRef[2]
  {
    var p := Collector();
    var seeds := iset t | MustFacts.IsTaint(p, "f", t);
    var s := iset n: Node | !HoldsOwnName(n);
    forall t
      ensures t in seeds ==> t in s
    {
      CollectorTaints(t);
    }
    forall a, b | a in s && Edge(p, a, b)
      ensures b in s
    {
      if HoldsOwnName(b) {
        CollectorEdges(a, b);
      }
    }
    hide HoldsOwnName, Edge;
    if MustFacts.Tainted(p, "f", Node(2, 1)) {
      ReachIsLeast(p, seeds, {}, s, Node(2, 1));
    }
    assert HoldsOwnName(Node(2, 1)) by {
      CollectorNode();
    }
  }

  lemma CollectorNode()
    ensures HoldsOwnName(Node(2, 1))
  {
  }

  lemma CollectorLooksSafe(selfRef: seq<set<Reg>>)
    requires |selfRef| == |Collector().code| && 1 in selfRef[2]
    ensures !ParamEscapes(Collector(), 0, selfRef, [false], None)
  {
    var p := Collector();
    var s := iset n: Node | n.reg == 0 || (n.reg == 2 && n.ip >= 2);
    forall a, b | a in s && Edge(p, a, b) && b.ip != 0
      ensures b in s
    {
      assert a.ip < 5;
    }
    NeverEscapes(p, 0, selfRef, [false], None, s);
  }

  lemma CollectorFacts()
    ensures FactsHold(Collector(), FactsFor(Collector(), [false]))
  {
    var selfRef := FactsFor(Collector(), [false]).selfRef;
    FactsForAreExact(Collector(), [false]);
    CollectorCallsItself(selfRef);
    CollectorLooksSafe(selfRef);
  }

  lemma CollectorRuns(fields: Fields)
    ensures IsRun(Collector(), fields, CollectorRun())
  {
    forall k: nat | k + 1 < |CollectorRun()|
      ensures StepAt(Collector(), fields, CollectorRun(), k)
    {
      CollectorStepAt(fields, k);
    }
  }

  lemma CollectorHeld()
    ensures ParamHeld(Collector(), 0, Node(2, 2))
  {
    hide Reach;
    var p := Collector();
    var seeds := Origins(p, 0, MayTransfer(p.code[0], {0}));
    ReachSeed(p, seeds, {0}, Node(1, 0));
    ReachStep(p, seeds, {0}, Node(1, 0), Node(2, 2));
  }

  lemma CollectorHands()
    ensures !CollectorHarmless(Collector(), FactsFor(Collector(), [false]), 0)
  {
    hide MustFacts.Exact, MustFacts.Tainted, ParamHeld;
    var p := Collector();
    FactsForAreExact(p, [false]);
    CollectorCallsItself(FactsFor(p, [false]).selfRef);
    CollectorHeld();
    assert HandsToCollector(p, FactsFor(p, [false]), Node(2, 2));
  }

  /** Every other side condition holds, the summary clears the parameter, and the call puts
      what it was passed into a new list. */
  lemma CollectorGap(fields: Fields)
    ensures
      var p := Collector();
      var facts := FactsFor(p, [false]);
      && RegsInFrame(p) && FactsHold(p, facts) && BackUnmoved(p, 0) && UpvaluesHarmless(p, facts, 0)
      && RaisesHarmless(p, facts, 0)
      && !CollectorHarmless(p, facts, 0)
      && facts.summary == [false]
      && IsRun(p, fields, CollectorRun()) && At(CollectorRun()[0].frames[0], 0) == Ref(0)
      && 0 !in CollectorRun()[0].escaped && 0 in CollectorRun()[3].escaped
  {
    var p := Collector();
    hide *;
    CollectorFacts();
    CollectorRuns(fields);
    CollectorHands();
    CollectorParts();
    NothingCaught(p, FactsFor(p, [false]), 0);
    NoClosuresNoUpvalues(p, FactsFor(p, [false]), 0);
    NoWayBack(p, 0);
  }

  lemma CollectorParts()
    ensures
      var p := Collector();
      var facts := FactsFor(p, [false]);
      && (forall ip: nat :: CaughtAt(p, ip).None?) && RegsInFrame(p) && Preds(p, 0) == {} && NoClosures(p) && facts.summary == [false]
      && |CollectorRun()| == 4 && CollectorRun()[0].frames != [] && At(CollectorRun()[0].frames[0], 0) == Ref(0)
      && 0 !in CollectorRun()[0].escaped && 0 in CollectorRun()[3].escaped
  {
    hide ParamHeld, MustFacts.Tainted;
    assert forall q: nat :: q < 5 ==> 0 !in Successors(Collector(), q);
  }
}
