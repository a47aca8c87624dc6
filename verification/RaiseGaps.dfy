/** What an error caught inside the function does to the verdicts of the escape analysis. */
module RaiseGaps {
  // Every edge the analysis follows is taken to come after the instruction: its destination is
  // overwritten, its `catch` variable is not. Where an error is caught, it is the other way round.

  import opened Shapes
  import opened Flow
  import opened Spread
  import opened Escape
  import opened Sites
  import opened Runs
  import opened EscapeSound
  import opened EscapeGaps
  import MustFacts

  /** The frame after an error that has put `nil` in the variable of the `catch`. */
  function Landed(p: Proto, f: Frame, c: Landing): Frame {
    Frame(c.resume, seq(|f.regs|, r requires 0 <= r < |f.regs| => if c.variable == Some(r) then Plain else f.regs[r]), f.open)
  }

  /** Proven names are still there where an error is caught, whatever the error, exactly when the
      variable of the `catch` is not one of them. */
  lemma NamesLandExactly(p: Proto, facts: SiteFacts, st: State, st': State, f: Frame)
    requires Trusted(p, facts) && FrameSane(p, facts, f)
    requires MayRaise(p, p.code[f.ip]) && CaughtAt(p, f.ip).Some? && CaughtAt(p, f.ip).value.resume < |p.code|
    requires forall r :: r in facts.selfRef[CaughtAt(p, f.ip).value.resume] ==> r < p.numRegs
    ensures !ProvenThoughCaught(p, facts, f.ip) <==>
            forall f' :: Lands(p, st, st', f, f') ==> forall r :: r in facts.selfRef[f'.ip] ==> At(f', r) == SelfFn
  {
    assert f.ip < |p.code| == |facts.selfRef| && |f.regs| == p.numRegs;
    hide Trusted, FrameSane;
    var c := CaughtAt(p, f.ip).value;
    if ProvenThoughCaught(p, facts, f.ip) {
      var f' := Landed(p, f, c);
      assert Lands(p, st, st', f, f') && At(f', c.variable.value) == Plain;
    } else {
      forall f', r | Lands(p, st, st', f, f') && r in facts.selfRef[f'.ip]
        ensures At(f', r) == SelfFn
      {
        NameLands(p, facts, st, st', f, f', r);
      }
    }
  }

  /** The facts are exact, errors are caught where control may go, and no upvalue is open on a
      proven name. */
  ghost predicate Trusted(p: Proto, facts: SiteFacts) {
    RegsInFrame(p) && CatchesAreEdges(p) && FactsHold(p, facts) && forall c, ip :: !ProvenThoughOpen(p, facts, c, ip)
  }

  lemma NameLands(p: Proto, facts: SiteFacts, st: State, st': State, f: Frame, f': Frame, r: Reg)
    requires Trusted(p, facts) && FrameSane(p, facts, f) && Lands(p, st, st', f, f') && !ProvenThoughCaught(p, facts, f.ip)
    requires r in facts.selfRef[f'.ip]
    ensures At(f', r) == SelfFn
  {
    SelfRefLands(p, facts, st, st', f, f', r);
  }

  // ----- a `catch` variable taken for the function -----

  /** `def f(p) { var x = f; catch { e = x; g() } as e; e(p) }` */
  function CaughtName(): Proto {
    var c := Some(Landing(7, Some(2)));
    Proto("f",
          [GetGlobal(1, "f"), LoadPlain(2), Other(None, {}), Move(2, 1), GetGlobal(3, "g"), Call(3, 3, 0), Other(None, {}),
           Move(3, 2), Move(4, 0), Call(3, 3, 1), LoadPlain(3), Return(3)],
          [{1}, {2}, {3}, {4, 7}, {5, 7}, {6, 7}, {7}, {8}, {9}, {10}, {11}, {}],
          5, 1, false, false, false,
          [None, None, None, c, c, c, None, None, None, None, None, None])
  }

  /** Reading `g` raises, because there is none. */
  function CaughtRun(): (run: seq<State>)
    ensures |run| == 9
  {
    [CaughtState(0, Plain, Plain, Plain, {}), CaughtState(1, SelfFn, Plain, Plain, {}), CaughtState(2, SelfFn, Plain, Plain, {}),
     CaughtState(3, SelfFn, Plain, Plain, {}), CaughtState(4, SelfFn, SelfFn, Plain, {}), CaughtState(7, SelfFn, Plain, Plain, {}),
     CaughtState(8, SelfFn, Plain, Plain, {}), CaughtState(9, SelfFn, Plain, Ref(0), {}), CaughtState(10, SelfFn, Plain, Ref(0), {0})]
  }

  function CaughtState(ip: nat, x: Val, e: Val, arg: Val, escaped: set<nat>): State {
    State([Frame(ip, [Ref(0), x, e, Plain, arg], {})], escaped, 1)
  }

  lemma CaughtLeaks(fields: Fields, k: nat)
    requires k < 8
    ensures
      var st := CaughtRun()[k];
      && (forall r: Reg :: Leaks(CaughtName(), fields, st.frames[0], r) ==> k == 7 && (r == 3 || r == 4))
      && (forall id :: LeakedNow(CaughtName(), fields, st, id) <==> k == 7 && id == 0)
  {
    var p, st := CaughtName(), CaughtRun()[k];
    assert k == 7 ==> Leaks(p, fields, st.frames[0], 4) && At(st.frames[0], 4) == Ref(0);
  }

  lemma CaughtMoves(k: nat)
    requires k < 8
    ensures
      var p, st, st' := CaughtName(), CaughtRun()[k], CaughtRun()[k + 1];
      && |st.frames| == |st'.frames| == 1 && st.frames[0].ip < |p.code| && !p.code[st.frames[0].ip].Return? && !IsSelfCallNow(p, st.frames[0])
      && (Lands(p, st, st', st.frames[0], st'.frames[0]) || Completes(p, st, st'))
      && st.escaped == {} && st'.escaped == (if k < 7 then {} else {0}) && st.next == st'.next == 1
  {
    var p, st, st' := CaughtName(), CaughtRun()[k], CaughtRun()[k + 1];
    var f, f' := st.frames[0], st'.frames[0];
    if k == 4 {
      assert Lands(p, st, st', f, f');
    } else {
      CaughtCompletes(k, if k == 0 || k == 3 then SelfFn else if k == 6 then Ref(0) else Plain);
    }
  }

  lemma CaughtCompletes(k: nat, v: Val)
    requires k < 8 && k != 4 && v == if k == 0 || k == 3 then SelfFn else if k == 6 then Ref(0) else Plain
    ensures Completes(CaughtName(), CaughtRun()[k], CaughtRun()[k + 1])
  {
    var p, st, st' := CaughtName(), CaughtRun()[k], CaughtRun()[k + 1];
    assert Top(st) == st.frames[0] && Top(st') == st'.frames[0];
    assert Produces(p, st, st', st.frames[0], v);
    assert Advances(p, st, st', st.frames[0], st'.frames[0], v);
  }

  lemma CaughtStepAt(fields: Fields, k: nat)
    requires k < 8
    ensures StepAt(CaughtName(), fields, CaughtRun(), k)
  {
    hide Leaks, LeakedNow, SeenThroughUpvalue, CaughtRun, CaughtName, Lands, Completes, IsSelfCallNow;
    CaughtMoves(k);
    CaughtLeaks(fields, k);
    assert LocalStep(CaughtName(), CaughtRun()[k], CaughtRun()[k + 1]);
  }

  lemma CaughtRuns(fields: Fields)
    ensures IsRun(CaughtName(), fields, CaughtRun())
  {
    forall k: nat | k + 1 < |CaughtRun()|
      ensures StepAt(CaughtName(), fields, CaughtRun(), k)
    {
      CaughtStepAt(fields, k);
    }
  }

  /** Where the function's own name is taken to be. */
  predicate TakenForSelf(n: Node) {
    n.ip >= 12 || (n.reg == 1 && 1 <= n.ip) || (n.reg == 2 && 4 <= n.ip) || (n.reg == 3 && 8 <= n.ip <= 9)
  }

  lemma CaughtTaints(n: Node)
    ensures MustFacts.IsTaint(CaughtName(), "f", n) ==> !TakenForSelf(n) || n.ip >= 12
  {
    var p := CaughtName();
    forall q | q in Preds(p, n.ip) && TakenForSelf(n) && n.ip < 12
      ensures !MustFacts.Overwrites(p.code[q], "f", n.reg)
    {
      CaughtKeeps(q, n);
    }
  }

  lemma CaughtKeeps(q: nat, n: Node)
    requires q in Preds(CaughtName(), n.ip) && TakenForSelf(n) && n.ip < 12
    ensures q < 12 && !MustFacts.Overwrites(CaughtName().code[q], "f", n.reg)
  {
    var p := CaughtName();
    assert q == n.ip - 1 || (n.ip == 7 && 3 <= q <= 5);
    assert n.ip < 12 && n.ip > 0;
    if q == 0 {} else if q == 1 {} else if q == 2 {} else if q == 3 {} else if q == 4 {} else if q == 5 {}
    else if q == 6 {} else if q == 7 {} else if q == 8 {} else if q == 9 {} else {}
  }

  lemma CaughtEdges(a: Node, b: Node)
    requires Edge(CaughtName(), a, b) && TakenForSelf(b)
    ensures TakenForSelf(a)
  {
    assert a.ip < 12 && (b.ip == a.ip + 1 || (b.ip == 7 && 3 <= a.ip <= 5));
  }

  lemma CaughtIsProven(n: Node)
    requires TakenForSelf(n) && n.ip < 12
    ensures !MustFacts.Tainted(CaughtName(), "f", n)
  {
    var p := CaughtName();
    var seeds := iset t | MustFacts.IsTaint(p, "f", t);
    var s := iset m: Node | !TakenForSelf(m) || m.ip >= 12;
    forall t
      ensures t in seeds ==> t in s
    {
      CaughtTaints(t);
    }
    forall a, b | a in s && Edge(p, a, b)
      ensures b in s
    {
      if TakenForSelf(b) && b.ip < 12 { CaughtEdges(a, b); CaughtBefore(a, b); }
    }
    hide TakenForSelf, Edge;
    if MustFacts.Tainted(p, "f", n) { ReachIsLeast(p, seeds, {}, s, n); }
  }

  lemma CaughtBefore(a: Node, b: Node)
    requires Edge(CaughtName(), a, b)
    ensures a.ip < 12
  {
  }

  lemma CaughtLooksSafe(selfRef: seq<set<Reg>>)
    requires |selfRef| == |CaughtName().code| && 3 in selfRef[9]
    ensures !ParamEscapes(CaughtName(), 0, selfRef, [false], None)
  {
    var p := CaughtName();
    var s := iset n: Node | n.reg == 0 || (n.reg == 4 && n.ip >= 9);
    forall a, b | a in s && Edge(p, a, b) && b.ip != 0
      ensures b in s
    {
      assert a.ip < 12;
    }
    NeverEscapes(p, 0, selfRef, [false], None, s);
  }

  lemma CaughtFacts()
    ensures
      var p := CaughtName();
      var facts := FactsFor(p, [false]);
      FactsHold(p, facts) && |facts.selfRef| == 12 && 3 in facts.selfRef[9] && 2 in facts.selfRef[7]
  {
    hide MustFacts.Tainted, MustFacts.Exact, ParamEscapes;
    var p := CaughtName();
    FactsForAreExact(p, [false]);
    CaughtIsProven(Node(9, 3));
    CaughtIsProven(Node(7, 2));
    assert 3 in AllRegs(p) && 2 in AllRegs(p) by { assert InFrame(p, 3) && InFrame(p, 2); }
    CaughtLooksSafe(FactsFor(p, [false]).selfRef);
  }

  lemma CaughtParts()
    ensures
      var p := CaughtName();
      var facts := FactsFor(p, [false]);
      && RegsInFrame(p) && CatchesAreEdges(p) && CollectorHarmless(p, facts, 0) && Preds(p, 0) == {} && NoClosures(p) && facts.summary == [false]
      && CaughtRun()[0].frames != [] && At(CaughtRun()[0].frames[0], 0) == Ref(0)
      && CaughtRun()[7].frames != [] && At(CaughtRun()[7].frames[0], 3) != SelfFn
      && 0 !in CaughtRun()[0].escaped && 0 in CaughtRun()[8].escaped
  {
    hide ParamHeld, MustFacts.Tainted, CaughtRun, RegsInFrame, CatchesAreEdges, NoClosures, Preds;
    CaughtEnds();
    CaughtCode();
    CaughtWires();
  }

  lemma CaughtCode()
    ensures RegsInFrame(CaughtName()) && NoClosures(CaughtName())
  {
  }

  lemma CaughtWires()
    ensures CatchesAreEdges(CaughtName()) && Preds(CaughtName(), 0) == {}
  {
    assert forall q: nat :: q < 12 ==> 0 !in Successors(CaughtName(), q);
  }

  lemma CaughtHolds(n: Node)
    requires ParamHeld(CaughtName(), 0, n)
    ensures n.reg == 0 || n.reg == 4
  {
    hide Reach, ParamHeld;
    var p := CaughtName();
    var s := iset m: Node | m.reg == 0 || (m.reg == 4 && m.ip >= 9);
    forall a, b | a in s && Edge(p, a, b)
      ensures b in s
    {
      assert a.ip < 12;
    }
    HeldIsReached(p, 0, n);
    ReachIsLeast(p, iset{Node(0, 0)}, {}, s, n);
  }

  lemma CaughtOverwrites(ip: nat, r: Reg)
    requires KeptByRaise(CaughtName(), ip, r)
    ensures r == 3
  {
    assert ip == 3 || ip == 4 || ip == 5;
  }

  lemma CaughtForgetsNothing(ip: nat, r: Reg)
    ensures !ForgottenByRaise(CaughtName(), 0, ip, r)
  {
    hide KeptByRaise, ParamHeld, CaughtName;
    if ForgottenByRaise(CaughtName(), 0, ip, r) {
      CaughtOverwrites(ip, r);
      CaughtHolds(Node(ip, r));
    }
  }

  lemma CaughtEnds()
    ensures CaughtRun()[0].frames != [] && At(CaughtRun()[0].frames[0], 0) == Ref(0)
    ensures CaughtRun()[7].frames != [] && At(CaughtRun()[7].frames[0], 3) != SelfFn
    ensures 0 !in CaughtRun()[0].escaped && 0 in CaughtRun()[8].escaped
  {
  }

  /** Every other side condition holds, the summary clears `p`, and the error caught is called
      in place of the function. */
  lemma CaughtNameGap(fields: Fields)
    ensures
      var p := CaughtName();
      var facts := FactsFor(p, [false]);
      && RegsInFrame(p) && CatchesAreEdges(p) && FactsHold(p, facts) && BackUnmoved(p, 0)
      && UpvaluesHarmless(p, facts, 0) && CollectorHarmless(p, facts, 0) && (forall ip, r :: !ForgottenByRaise(p, 0, ip, r))
      && ProvenThoughCaught(p, facts, 4)
      && facts.summary == [false]
      && IsRun(p, fields, CaughtRun()) && At(CaughtRun()[0].frames[0], 0) == Ref(0)
      && 3 in facts.selfRef[9] && At(CaughtRun()[7].frames[0], 3) != SelfFn
      && 0 !in CaughtRun()[0].escaped && 0 in CaughtRun()[8].escaped
  {
    var p := CaughtName();
    hide *;
    CaughtFacts();
    CaughtRuns(fields);
    CaughtParts();
    CaughtAtFour(FactsFor(p, [false]));
    forall ip, r
      ensures !ForgottenByRaise(p, 0, ip, r)
    {
      CaughtForgetsNothing(ip, r);
    }
    NoClosuresNoUpvalues(p, FactsFor(p, [false]), 0);
    NoWayBack(p, 0);
  }

  lemma CaughtAtFour(facts: SiteFacts)
    requires |facts.selfRef| == 12 && 2 in facts.selfRef[7]
    ensures ProvenThoughCaught(CaughtName(), facts, 4)
  {
  }

  // ----- a parameter overwritten by an instruction that raises -----

  /** `PushCatch; GetGlobal 0 "g"; PopCatch; Print 0; ...` on one parameter. */
  function Forgets(): Proto {
    Proto("f",
          [Other(None, {}), GetGlobal(0, "g"), Other(None, {}), Other(None, {0}), LoadPlain(1), Return(1)],
          [{1}, {2, 3}, {3}, {4}, {5}, {}],
          2, 1, false, false, false,
          [None, Some(Landing(3, None)), None, None, None, None])
  }

  function ForgetState(ip: nat, escaped: set<nat>): State {
    State([Frame(ip, [Ref(0), Plain], {})], escaped, 1)
  }

  function ForgetRun(): (run: seq<State>)
    ensures |run| == 4
  {
    [ForgetState(0, {}), ForgetState(1, {}), ForgetState(3, {}), ForgetState(4, {0})]
  }

  lemma ForgetStepAt(fields: Fields, k: nat)
    requires k < 3
    ensures StepAt(Forgets(), fields, ForgetRun(), k)
  {
    var p, st, st' := Forgets(), ForgetRun()[k], ForgetRun()[k + 1];
    var f, f' := st.frames[0], st'.frames[0];
    assert forall r: Reg :: Leaks(p, fields, f, r) <==> k == 2 && r == 0;
    assert At(f, 0) == Ref(0);
    assert forall id :: LeakedNow(p, fields, st, id) <==> k == 2 && id == 0;
    if k == 1 {
      assert Lands(p, st, st', f, f');
    } else {
      assert Produces(p, st, st', f, Plain) && Advances(p, st, st', f, f', Plain);
      assert Completes(p, st, st');
    }
    assert LocalStep(p, st, st');
  }

  lemma ForgetRuns(fields: Fields)
    ensures IsRun(Forgets(), fields, ForgetRun())
  {
    forall k: nat | k + 1 < |ForgetRun()|
      ensures StepAt(Forgets(), fields, ForgetRun(), k)
    {
      ForgetStepAt(fields, k);
    }
  }

  lemma ForgetsHolds(n: Node)
    requires ParamHeld(Forgets(), 0, n)
    ensures n == Node(0, 0) || n == Node(1, 0)
  {
    var p := Forgets();
    var s := iset m: Node | m.reg == 0 && m.ip <= 1;
    forall a, b | a in s && Edge(p, a, b)
      ensures b in s
    {
      assert a.ip < 6;
    }
    HeldIsReached(p, 0, n);
    ReachIsLeast(p, iset{Node(0, 0)}, {}, s, n);
  }

  lemma ForgetsFacts()
    ensures FactsHold(Forgets(), FactsFor(Forgets(), [false])) && CollectorHarmless(Forgets(), FactsFor(Forgets(), [false]), 0)
  {
    hide MustFacts.Tainted, MustFacts.Exact, ParamHeld, ParamEscapes;
    var p := Forgets();
    FactsForAreExact(p, [false]);
    ForgetsLooksSafe(FactsFor(p, [false]).selfRef);
  }

  lemma ForgetsLooksSafe(selfRef: seq<set<Reg>>)
    requires |selfRef| == |Forgets().code|
    ensures !ParamEscapes(Forgets(), 0, selfRef, [false], None)
  {
    var p := Forgets();
    var s := iset n: Node | n.reg == 0 && n.ip <= 1;
    forall a, b | a in s && Edge(p, a, b) && b.ip != 0
      ensures b in s
    {
      assert a.ip < 6;
    }
    NeverEscapes(p, 0, selfRef, [false], None, s);
  }

  lemma ForgetsIt()
    ensures ForgottenByRaise(Forgets(), 0, 1, 0)
  {
    hide ParamHeld;
    var p := Forgets();
    ForgetsHeld();
    if ParamHeld(p, 0, Node(3, 0)) { ForgetsHolds(Node(3, 0)); }
  }

  lemma ForgetsHeld()
    ensures ParamHeld(Forgets(), 0, Node(1, 0))
  {
    hide Reach;
    var p := Forgets();
    ReachSeed(p, Origins(p, 0, MayTransfer(p.code[0], {0})), {0}, Node(1, 0));
  }

  lemma ForgetsParts()
    ensures
      var p := Forgets();
      var facts := FactsFor(p, [false]);
      && RegsInFrame(p) && CatchesAreEdges(p) && Preds(p, 0) == {} && NoClosures(p) && facts.summary == [false]
      && (forall ip :: !ProvenThoughCaught(p, facts, ip))
      && ForgetRun()[0].frames != [] && At(ForgetRun()[0].frames[0], 0) == Ref(0)
      && 0 !in ForgetRun()[0].escaped && 0 in ForgetRun()[3].escaped
  {
    hide ParamHeld, MustFacts.Tainted;
    assert forall q: nat :: q < 6 ==> 0 !in Successors(Forgets(), q);
  }

  /** Every other side condition holds, the summary clears the parameter, and it is printed where
      the error is caught. */
  lemma ForgottenGap(fields: Fields)
    ensures
      var p := Forgets();
      var facts := FactsFor(p, [false]);
      && RegsInFrame(p) && CatchesAreEdges(p) && FactsHold(p, facts) && BackUnmoved(p, 0)
      && UpvaluesHarmless(p, facts, 0) && CollectorHarmless(p, facts, 0) && (forall ip :: !ProvenThoughCaught(p, facts, ip))
      && ForgottenByRaise(p, 0, 1, 0)
      && facts.summary == [false]
      && IsRun(p, fields, ForgetRun()) && At(ForgetRun()[0].frames[0], 0) == Ref(0)
      && 0 !in ForgetRun()[0].escaped && 0 in ForgetRun()[3].escaped
  {
    var p := Forgets();
    hide *;
    ForgetsFacts();
    ForgetRuns(fields);
    ForgetsIt();
    ForgetsParts();
    NoClosuresNoUpvalues(p, FactsFor(p, [false]), 0);
    NoWayBack(p, 0);
  }
}
