/** The analysis tracks and flags no more than it must: where it looks for a parameter the parameter can be, and each use it flags lets some object out in some state the facts describe. */
module EscapeExact {
  import opened Shapes
  import opened Flow
  import opened Escape
  import opened Sites
  import opened Runs
  import opened EscapeSound
  import EscapeGaps
  import S = SiteExact
  import MustFacts

  /** The facts leave open that register `r` holds an object on the way into `ip`. */
  predicate MayHoldObject(p: Proto, facts: SiteFacts, ip: nat, r: Reg)
    requires ip < |p.code| == |facts.selfRef|
  {
    r < p.numRegs && r !in facts.selfRef[ip] && !(p.code[ip].Equality? && ComparesWithPlain(p, ip, r))
  }

  /** The names known to be fields, not methods, of the object in a register: a method's receiver
      is of the method's class, any other object tracked is of the class allocated. */
  function KnownFields(p: Proto, r: Reg, selfSafety: FieldSafety, safety: FieldSafety): set<string> {
    if r == 0 && p.isMethod then (if p.hasOwningClass && selfSafety.Some? then selfSafety.value else {})
    else if safety.Some? then safety.value
    else {}
  }

  /** Some state the facts describe is about to let out object `o`, held at `n`, all of whose
      known names are fields. */
  ghost predicate CanLeak(p: Proto, facts: SiteFacts, known: set<string>, n: Node, o: nat)
    requires n.ip < |p.code|
  {
    exists f: Frame, fields: Fields :: LeaksIn(p, facts, known, n, o, f, fields)
  }

  ghost predicate LeaksIn(p: Proto, facts: SiteFacts, known: set<string>, n: Node, o: nat, f: Frame, fields: Fields)
    requires n.ip < |p.code|
  {
    FrameSane(p, facts, f) && f.ip == n.ip && At(f, n.reg) == Ref(o) && known <= fields(o) && Leaks(p, fields, f, n.reg)
  }

  /** The state at `ip` in which every register holds `o` unless the facts say otherwise. */
  function Everywhere(p: Proto, facts: SiteFacts, ip: nat, o: nat): Frame
    requires ip < |p.code| == |facts.selfRef|
  {
    Frame(ip,
          seq(p.numRegs, r requires 0 <= r < p.numRegs =>
            if r in facts.selfRef[ip] then SelfFn
            else if MayHoldObject(p, facts, ip, r) then Ref(o)
            else Plain),
          {})
  }

  /** A register just loaded with `nil` or a bool is not proven to hold the function's name. */
  lemma {:induction false} PlainIsNoName(p: Proto, facts: SiteFacts, ip: nat, r: Reg)
    requires FactsHold(p, facts) && ip < |p.code| && ComparesWithPlain(p, ip, r)
    ensures r !in facts.selfRef[ip]
  {
    hide Reach, Covers;
    if !p.isMethod {
      var seeds := iset t | MustFacts.IsTaint(p, p.name, t);
      assert ip - 1 in Preds(p, ip) && MustFacts.Overwrites(p.code[ip - 1], p.name, r);
      assert MustFacts.IsTaint(p, p.name, Node(ip, r));
      ReachSeed(p, seeds, {}, Node(ip, r));
    }
  }

  lemma {:induction false} EverywhereIsSane(p: Proto, facts: SiteFacts, ip: nat, o: nat)
    requires FactsHold(p, facts) && ip < |p.code| && forall r :: r in facts.selfRef[ip] ==> r < p.numRegs
    ensures FrameSane(p, facts, Everywhere(p, facts, ip, o))
  {
    hide FactsHold, MustFacts.Exact, Covers, ComparesWithPlain;
    FactsAreFacts(p, facts);
    var f := Everywhere(p, facts, ip, o);
    if p.code[ip].Equality? {
      forall b | ComparesWithPlain(p, ip, b) ensures At(f, b) == Plain {
        PlainIsNoName(p, facts, ip, b);
      }
    }
  }

  lemma {:induction false} FactsAreFacts(p: Proto, facts: SiteFacts)
    requires FactsHold(p, facts)
    ensures |facts.selfRef| == |p.code| && |facts.summary| == p.arity
    ensures forall ip: nat, r :: ip < |p.code| && r in facts.selfRef[ip] ==> r < p.numRegs
  {
    hide Covers, MustFacts.Tainted;
    assert Covers(p, facts.selfRef, None, facts.summary);
    CoversLength(p, facts.selfRef, None, facts.summary);
  }

  lemma {:induction false} CoversLength(p: Proto, selfRef: seq<set<Reg>>, safety: FieldSafety, summary: seq<bool>)
    requires |p.code| == |selfRef| && Covers(p, selfRef, safety, summary)
    ensures |summary| == p.arity
  {
  }

  /** The right operand of a comparison is taken to be nil or a bool exactly when every way into the
      comparison is the step before it, and that step leaves neither an object nor the function
      there, whatever the registers hold. */
  lemma {:induction false} PlainJustLoaded(p: Proto, ip: nat, b: Reg, o: nat)
    requires RegsInFrame(p) && ip < |p.code| && b < p.numRegs && Preds(p, ip) != {}
    ensures ComparesWithPlain(p, ip, b) <==>
            forall f: Frame, f': Frame :: |f.regs| == p.numRegs && S.Passes(p, f, f', o) && f'.ip == ip ==> f.ip + 1 == ip && At(f', b) == Plain
  {
    if ComparesWithPlain(p, ip, b) {
      forall f: Frame, f': Frame | |f.regs| == p.numRegs && S.Passes(p, f, f', o) && f'.ip == ip
        ensures f.ip + 1 == ip && At(f', b) == Plain
      {
        var st, st', v :| S.PassesBy(p, st, st', f, f', v, o);
        assert f.ip in Preds(p, ip);
      }
    }
    if forall f: Frame, f': Frame :: |f.regs| == p.numRegs && S.Passes(p, f, f', o) && f'.ip == ip ==> f.ip + 1 == ip && At(f', b) == Plain {
      forall q | q in Preds(p, ip)
        ensures q + 1 == ip && p.code[q].LoadPlain? && p.code[q].dst == b
      {
        LeavesFunction(p, q, ip, b, o);
        assert S.Passes(p, AllFunction(p, q), Onwards(p, q, ip), o);
      }
      var q :| q in Preds(p, ip);
      assert forall k :: k in Preds(p, ip) ==> k == q;
      assert Preds(p, ip) == {q};
    }
  }

  /** Every register holds the function. */
  function AllFunction(p: Proto, ip: nat): Frame {
    Frame(ip, seq(p.numRegs, _ => SelfFn), {})
  }

  /** And still does after the instruction at `q`, unless that loads nil or a bool. */
  function Onwards(p: Proto, q: nat, ip: nat): Frame
    requires q < |p.code|
  {
    var i := p.code[q];
    Frame(ip, seq(p.numRegs, r => if i.LoadPlain? && i.dst == r then Plain else SelfFn), OpenAfter(i, {}))
  }

  lemma {:induction false} LeavesFunction(p: Proto, q: nat, ip: nat, b: Reg, o: nat)
    requires RegsInFrame(p) && b < p.numRegs && q in Preds(p, ip)
    ensures q < |p.code| && S.Passes(p, AllFunction(p, q), Onwards(p, q, ip), o)
    ensures At(Onwards(p, q, ip), b) == Plain <==> p.code[q].LoadPlain? && p.code[q].dst == b
  {
    var st, f, f' := State([], {}, o + 1), AllFunction(p, q), Onwards(p, q, ip);
    var v := if p.code[q].LoadPlain? then Plain else SelfFn;
    assert Advances(p, st, st, f, f', v) && Produces(p, st, st, f, v);
    assert S.PassesBy(p, st, st, f, f', v, o);
  }

  /** The operands of a comparison are registers of the frame. */
  predicate ComparesInFrame(p: Proto, ip: nat)
    requires ip < |p.code|
  {
    p.code[ip].Equality? ==> p.code[ip].b < p.numRegs
  }

  /** A use other than an argument of a proven self-recursive call is flagged, in a register
      that may hold an object at all, exactly when in some state the facts describe it lets an
      object out. */
  lemma {:induction false} SiteFlagsExactly(p: Proto, facts: SiteFacts, selfSafety: FieldSafety, safety: FieldSafety, n: Node, o: nat)
    requires FactsHold(p, facts) && n.ip < |p.code| == |facts.selfRef| && ComparesInFrame(p, n.ip)
    requires !IsSelfCall(p.code[n.ip], facts.selfRef[n.ip])
    ensures SiteEscapesAt(p, facts.selfRef, facts.summary, selfSafety, safety, n) && MayHoldObject(p, facts, n.ip, n.reg) <==>
            CanLeak(p, facts, KnownFields(p, n.reg, selfSafety, safety), n, o)
  {
    hide FactsHold, FrameSane, SiteEscapesAt, MayHoldObject, Leaks, Everywhere;
    var known := KnownFields(p, n.reg, selfSafety, safety);
    if SiteEscapesAt(p, facts.selfRef, facts.summary, selfSafety, safety, n) && MayHoldObject(p, facts, n.ip, n.reg) {
      FactsAreFacts(p, facts);
      var f := Everywhere(p, facts, n.ip, o);
      EverywhereIsSane(p, facts, n.ip, o);
      FlaggedLeaks(p, facts, selfSafety, safety, n, o);
      assert LeaksIn(p, facts, known, n, o, f, _ => known);
    }
    if f: Frame, fields: Fields :| LeaksIn(p, facts, known, n, o, f, fields) {
      LeakingIsFlagged(p, facts, selfSafety, safety, n, o, f, fields);
    }
  }

  lemma {:induction false} FlaggedLeaks(p: Proto, facts: SiteFacts, selfSafety: FieldSafety, safety: FieldSafety, n: Node, o: nat)
    requires n.ip < |p.code| == |facts.selfRef| && ComparesInFrame(p, n.ip)
    requires !IsSelfCall(p.code[n.ip], facts.selfRef[n.ip]) && MayHoldObject(p, facts, n.ip, n.reg)
    requires SiteEscapesAt(p, facts.selfRef, facts.summary, selfSafety, safety, n)
    ensures
      var f, known := Everywhere(p, facts, n.ip, o), KnownFields(p, n.reg, selfSafety, safety);
      f.ip == n.ip && At(f, n.reg) == Ref(o) && Leaks(p, _ => known, f, n.reg)
  {
  }

  lemma {:induction false} LeakingIsFlagged(p: Proto, facts: SiteFacts, selfSafety: FieldSafety, safety: FieldSafety, n: Node, o: nat, f: Frame, fields: Fields)
    requires n.ip < |p.code| == |facts.selfRef| && !IsSelfCall(p.code[n.ip], facts.selfRef[n.ip])
    requires LeaksIn(p, facts, KnownFields(p, n.reg, selfSafety, safety), n, o, f, fields)
    ensures SiteEscapesAt(p, facts.selfRef, facts.summary, selfSafety, safety, n) && MayHoldObject(p, facts, n.ip, n.reg)
  {
  }

  /** The same for a parameter, of which nothing is known unless it is a method's receiver. */
  lemma {:induction false} ParamFlagsExactly(p: Proto, facts: SiteFacts, safety: FieldSafety, n: Node, o: nat)
    requires FactsHold(p, facts) && n.ip < |p.code| == |facts.selfRef| && ComparesInFrame(p, n.ip)
    requires !IsSelfCall(p.code[n.ip], facts.selfRef[n.ip])
    ensures ParamEscapesAt(p, facts.selfRef, facts.summary, safety, n) && MayHoldObject(p, facts, n.ip, n.reg) <==>
            CanLeak(p, facts, KnownFields(p, n.reg, safety, None), n, o)
  {
    SiteFlagsExactly(p, facts, safety, None, n, o);
    hide FactsHold, FrameSane, MayHoldObject, CanLeak;
    ParamLikeSite(p, facts, safety, n);
  }

  /** A parameter escapes where an object of an unknown class would. */
  lemma {:induction false} ParamLikeSite(p: Proto, facts: SiteFacts, safety: FieldSafety, n: Node)
    requires n.ip < |p.code| == |facts.selfRef|
    ensures ParamEscapesAt(p, facts.selfRef, facts.summary, safety, n) <==> SiteEscapesAt(p, facts.selfRef, facts.summary, safety, None, n)
  {
  }

  /** Parameter `k` exists and the summary says that it does not escape. */
  predicate ClearedAt(p: Proto, facts: SiteFacts, k: nat) {
    k < p.arity && k < |facts.summary| && !facts.summary[k]
  }

  /** Register `r` is argument `k` of a call. */
  predicate IsArgument(i: Shape, r: Reg, k: nat) {
    i.Call? && k < i.numArgs && r == i.func + 1 + k
  }

  /** At a proven self-recursive call exactly those registers are flagged that are arguments no
      parameter cleared by the summary takes. */
  lemma {:induction false} ArgumentsFlaggedExactly(p: Proto, facts: SiteFacts, selfSafety: FieldSafety, safety: FieldSafety, n: Node)
    requires n.ip < |p.code| == |facts.selfRef| && |facts.summary| == p.arity
    requires IsSelfCall(p.code[n.ip], facts.selfRef[n.ip])
    ensures SiteEscapesAt(p, facts.selfRef, facts.summary, selfSafety, safety, n) <==>
            exists k: nat :: IsArgument(p.code[n.ip], n.reg, k) && !ClearedAt(p, facts, k)
    ensures ParamEscapesAt(p, facts.selfRef, facts.summary, safety, n) <==>
            exists k: nat :: IsArgument(p.code[n.ip], n.reg, k) && !ClearedAt(p, facts, k)
  {
    var i := p.code[n.ip];
    if i.func < n.reg <= i.func + i.numArgs {
      var k := n.reg - i.func - 1;
      assert IsArgument(i, n.reg, k);
      assert forall j: nat :: IsArgument(i, n.reg, j) ==> j == k;
    }
  }

  /** And such a call does hand argument `k` to parameter `k`, and to no other, unless it is
      collected. */
  lemma {:induction false} ArgumentsAreTaken(p: Proto, facts: SiteFacts, f: Frame, st: State, st': State, callee: Frame, r: Reg, k: nat)
    requires FrameSane(p, facts, f) && IsSelfCall(p.code[f.ip], facts.selfRef[f.ip]) && p.arity <= p.numRegs
    requires IsArgument(p.code[f.ip], r, k) && Receives(p, st, st', f, callee)
    ensures IsSelfCallNow(p, f)
    ensures k < p.arity && !Collected(p, k) ==> At(callee, k) == At(f, r)
  {
  }

  // ----- what is tracked -----

  /** The frame goes from `f` to `f'`, by its instruction or by an error caught in it, while nothing
      outside the activation can produce object `o`. */
  ghost predicate Goes(p: Proto, f: Frame, f': Frame, o: nat) {
    S.Passes(p, f, f', o) || (f.ip < |p.code| && exists st, st' :: LandsBy(p, st, st', f, f', o))
  }

  ghost predicate LandsBy(p: Proto, st: State, st': State, f: Frame, f': Frame, o: nat)
    requires f.ip < |p.code|
  {
    o < st.next && o !in st'.escaped && Lands(p, st, st', f, f')
  }

  /** An activation that is given `o` as parameter `i` and nothing else. */
  ghost predicate IsActivation(p: Proto, i: Reg, o: nat, frames: seq<Frame>) {
    var n := |frames|;
    && n > 0
    && (if n == 1 then frames[0] == S.Holding(p, 0, i, o)
        else IsActivation(p, i, o, frames[..n - 1]) && Goes(p, frames[n - 2], frames[n - 1], o))
  }

  ghost predicate CanBeAt(p: Proto, i: Reg, o: nat, n: Node) {
    exists frames: seq<Frame> :: IsActivation(p, i, o, frames) && frames[|frames| - 1].ip == n.ip && At(frames[|frames| - 1], n.reg) == Ref(o)
  }

  /** The frame after its instruction raised. */
  function Raised(f: Frame, c: Landing): Frame {
    Frame(c.resume, seq(|f.regs|, r requires 0 <= r < |f.regs| => if c.variable == Some(r) then Plain else f.regs[r]), f.open)
  }

  lemma {:induction false} RaisedGoes(p: Proto, f: Frame, r: Reg, o: nat)
    requires KeptByRaise(p, f.ip, r) && At(f, r) == Ref(o) && |f.regs| == p.numRegs
    ensures
      var f' := Raised(f, CaughtAt(p, f.ip).value);
      Goes(p, f, f', o) && At(f', r) == Ref(o) && |f'.regs| == p.numRegs
  {
    var st, f' := State([], {}, o + 1), Raised(f, CaughtAt(p, f.ip).value);
    assert Lands(p, st, st, f, f');
    assert LandsBy(p, st, st, f, f', o);
  }

  /** Each way the value can travel, some activation takes it. */
  lemma {:induction false} TrailIsTaken(p: Proto, i: Reg, o: nat, w: seq<Node>) returns (frames: seq<Frame>)
    requires RegsInFrame(p) && i < p.numRegs && EscapeGaps.IsTrail(p, w) && w[0] == Node(0, i)
    ensures IsActivation(p, i, o, frames)
    ensures
      var f := frames[|frames| - 1];
      S.IsAt(f, o, w[|w| - 1]) && |f.regs| == p.numRegs
    decreases |w|
  {
    hide Goes, S.Next, Raised, Edge, KeptByRaise, RegsInFrame;
    var k := |w|;
    if k == 1 {
      frames := [S.Holding(p, 0, i, o)];
    } else {
      var before := TrailIsTaken(p, i, o, w[..k - 1]);
      var f, a, b := before[|before| - 1], w[k - 2], w[k - 1];
      assert w[..k - 1][k - 2] == a;
      var f' := if Edge(p, a, b) then S.Next(p, f, b.ip) else Raised(f, OrNone(p, a.ip));
      if Edge(p, a, b) { S.NextPasses(p, f, a, b, o); PassingGoes(p, f, f', o); } else { RaisedIsCaught(p, a.ip, a.reg); RaisedGoes(p, f, a.reg, o); RaisedIp(f, OrNone(p, a.ip)); }
      frames := before + [f'];
      assert frames[..|before|] == before;
    }
  }

  lemma {:induction false} PassingGoes(p: Proto, f: Frame, f': Frame, o: nat)
    requires S.Passes(p, f, f', o)
    ensures Goes(p, f, f', o)
  {
  }

  function OrNone(p: Proto, ip: nat): Landing {
    if CaughtAt(p, ip).Some? then CaughtAt(p, ip).value else Landing(0, None)
  }

  lemma {:induction false} RaisedIsCaught(p: Proto, ip: nat, r: Reg)
    requires KeptByRaise(p, ip, r)
    ensures CaughtAt(p, ip).Some?
  {
  }

  lemma {:induction false} RaisedIp(f: Frame, c: Landing)
    ensures Raised(f, c).ip == c.resume
  {
  }

  /** Whatever way an activation takes the value, it travelled. */
  lemma {:induction false} TakenIsTrail(p: Proto, i: Reg, o: nat, frames: seq<Frame>, r: Reg)
    requires CatchesAreEdges(p) && IsActivation(p, i, o, frames) && At(frames[|frames| - 1], r) == Ref(o)
    ensures EscapeGaps.Comes(p, i, Node(frames[|frames| - 1].ip, r))
    decreases |frames|
  {
    hide Goes, EscapeGaps.Comes, CatchesAreEdges;
    var k := |frames|;
    if k == 1 {
      StartComes(p, i);
    } else {
      var f, f' := frames[k - 2], frames[k - 1];
      var from := CameFrom(p, f, f', o, r);
      assert frames[..k - 1][k - 2] == f;
      TakenIsTrail(p, i, o, frames[..k - 1], from);
      EscapeGaps.ComesOn(p, i, Node(f.ip, from), Node(f'.ip, r));
    }
  }

  lemma {:induction false} StartComes(p: Proto, i: Reg)
    ensures EscapeGaps.Comes(p, i, Node(0, i))
  {
    var w := [Node(0, i)];
    assert EscapeGaps.IsTrail(p, w) && w[0] == Node(0, i) && w[|w| - 1] == Node(0, i);
  }

  lemma {:induction false} CameFrom(p: Proto, f: Frame, f': Frame, o: nat, r: Reg) returns (from: Reg)
    requires CatchesAreEdges(p) && Goes(p, f, f', o) && At(f', r) == Ref(o)
    ensures At(f, from) == Ref(o) && EscapeGaps.Travels(p, Node(f.ip, from), Node(f'.ip, r))
  {
    hide S.Passes, LandsBy;
    if S.Passes(p, f, f', o) {
      from := S.CameFrom(p, f, f', o, r);
    } else {
      from := r;
      LandedFrom(p, f, f', o, r);
    }
  }

  lemma {:induction false} LandedFrom(p: Proto, f: Frame, f': Frame, o: nat, r: Reg)
    requires CatchesAreEdges(p) && f.ip < |p.code| && (exists st, st' :: LandsBy(p, st, st', f, f', o)) && At(f', r) == Ref(o)
    ensures At(f, r) == Ref(o) && EscapeGaps.Travels(p, Node(f.ip, r), Node(f'.ip, r))
  {
    var st, st' :| LandsBy(p, st, st', f, f', o);
  }

  /** A parameter can be wherever the analysis looks for it; and it can be in just those places
      that the paths of control and of errors lead to. */
  lemma {:induction false} TrackedExactly(p: Proto, i: Reg, n: Node, o: nat)
    requires RegsInFrame(p) && CatchesAreEdges(p) && i < p.numRegs
    ensures ParamHeld(p, i, n) ==> CanBeAt(p, i, o, n)
    ensures EscapeGaps.Comes(p, i, n) <==> CanBeAt(p, i, o, n)
  {
    hide RegsInFrame, CatchesAreEdges, ParamHeld, EscapeGaps.Travels, Goes;
    if ParamHeld(p, i, n) {
      HeldIsReached(p, i, n);
      EscapeGaps.ReachedComes(p, i, n);
    }
    if EscapeGaps.Comes(p, i, n) {
      var w :| EscapeGaps.IsTrail(p, w) && w[0] == Node(0, i) && w[|w| - 1] == n;
      var frames := TrailIsTaken(p, i, o, w);
    }
    if CanBeAt(p, i, o, n) {
      var frames: seq<Frame> :| IsActivation(p, i, o, frames) && frames[|frames| - 1].ip == n.ip && At(frames[|frames| - 1], n.reg) == Ref(o);
      TakenIsTrail(p, i, o, frames, n.reg);
    }
  }
}
