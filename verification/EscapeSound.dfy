/** The verdicts of the escape analysis hold in every run. */
module EscapeSound {
  import opened Shapes
  import opened Flow
  import opened Spread
  import opened Escape
  import opened Sites
  import opened Runs
  import MustFacts

  // ----- what the verdicts rest on -----

  /** Where a parameter comes back to the first instruction, it is in its own register only.
      The analysis never looks at what comes back there. */
  ghost predicate BackUnmoved(p: Proto, i: Reg) {
    forall r: Reg :: Reach(p, iset{Node(0, i)}, {}, Node(0, r)) ==> r == i
  }

  /** A self-recursive call passes `n.reg` where a variadic function collects its arguments,
      while the summary speaks of the register the list will be in. */
  predicate HandsToCollector(p: Proto, facts: SiteFacts, n: Node) {
    && n.ip < |p.code| == |facts.selfRef|
    && p.variadic && 0 < p.arity == |facts.summary| && !facts.summary[p.arity - 1]
    && IsSelfCall(p.code[n.ip], facts.selfRef[n.ip])
    && p.arity <= p.code[n.ip].numArgs && n.reg == p.code[n.ip].func + p.arity
  }

  predicate Closes(i: Shape, c: Reg) {
    i.CloseUpvalues? && i.from <= c
  }

  /** From just after a closure captured `c`, without closing it. */
  ghost predicate OpenPath(p: Proto, c: Reg, w: seq<nat>) {
    var n := |w|;
    && n > 1
    && w[n - 2] < |p.code| && w[n - 1] in Successors(p, w[n - 2])
    && (if n == 2 then CapturesReg(p.code[w[0]], c)
        else OpenPath(p, c, w[..n - 1]) && !Closes(p.code[w[n - 2]], c))
  }

  /** An upvalue may be open on `c` at `ip`. */
  ghost predicate MayBeOpen(p: Proto, c: Reg, ip: nat) {
    exists w :: OpenPath(p, c, w) && w[|w| - 1] == ip
  }

  /** A copy puts what a parameter brought in under an open upvalue. */
  ghost predicate MovesUnderUpvalue(p: Proto, i: Reg, ip: nat) {
    && ip < |p.code| && p.code[ip].Move?
    && MayBeOpen(p, p.code[ip].dst, ip) && ParamHeld(p, i, Node(ip, p.code[ip].src))
  }

  /** A register other code may overwrite is taken to hold the function's own name. */
  ghost predicate ProvenThoughOpen(p: Proto, facts: SiteFacts, c: Reg, ip: nat) {
    ip < |facts.selfRef| && MayBeOpen(p, c, ip) && c in facts.selfRef[ip]
  }

  /** A register that an instruction overwrites inside a `catch` body keeps its old value if the
      instruction raises. */
  predicate KeptByRaise(p: Proto, ip: nat, r: Reg) {
    && ip < |p.code| && MayRaise(p, p.code[ip]) && Dst(p.code[ip]) == Some(r)
    && CaughtAt(p, ip).Some? && CaughtAt(p, ip).value.variable != Some(r) && CaughtAt(p, ip).value.resume < |p.code|
  }

  /** Such a register holds the parameter, and the analysis no longer looks for it there where the
      error is caught. */
  ghost predicate ForgottenByRaise(p: Proto, i: Reg, ip: nat, r: Reg) {
    KeptByRaise(p, ip, r) && ParamHeld(p, i, Node(ip, r)) && !ParamHeld(p, i, Node(CaughtAt(p, ip).value.resume, r))
  }

  /** The variable of a `catch` is taken to hold the function's own name where the error put in it
      is caught. */
  predicate ProvenThoughCaught(p: Proto, facts: SiteFacts, ip: nat) {
    && ip < |p.code| && MayRaise(p, p.code[ip]) && CaughtAt(p, ip).Some?
    && var c := CaughtAt(p, ip).value;
       c.variable.Some? && c.resume < |facts.selfRef| && c.variable.value in facts.selfRef[c.resume]
  }

  /** Where an error is caught is a place control may go. */
  predicate CatchesAreEdges(p: Proto) {
    forall ip: nat :: ip < |p.code| && CaughtAt(p, ip).Some? && CaughtAt(p, ip).value.resume < |p.code| ==>
      CaughtAt(p, ip).value.resume in Successors(p, ip)
  }

  /** What the verdict on a parameter needs. */
  ghost predicate ParamTrustworthy(p: Proto, facts: SiteFacts, i: Reg) {
    && BackUnmoved(p, i)
    && (forall n :: ParamHeld(p, i, n) ==> !HandsToCollector(p, facts, n))
    && (forall ip :: !MovesUnderUpvalue(p, i, ip))
    && (forall ip, r :: !ForgottenByRaise(p, i, ip, r))
  }

  /** The side conditions under which the verdicts can be trusted. */
  ghost predicate Trustworthy(p: Proto, facts: SiteFacts) {
    && RegsInFrame(p) && CatchesAreEdges(p)
    && |p.code| > 0
    && FactsHold(p, facts)
    && (forall c, ip :: !ProvenThoughOpen(p, facts, c, ip))
    && (forall ip :: !ProvenThoughCaught(p, facts, ip))
    && (forall i: nat :: i < p.arity && !facts.summary[i] ==> ParamTrustworthy(p, facts, i))
  }

  lemma OpensAt(p: Proto, c: Reg, ip: nat, ip': nat)
    requires ip < |p.code| && CapturesReg(p.code[ip], c) && ip' in Successors(p, ip)
    ensures MayBeOpen(p, c, ip')
  {
    var w := [ip, ip'];
    assert OpenPath(p, c, w) && w[|w| - 1] == ip';
  }

  lemma StaysOpen(p: Proto, c: Reg, ip: nat, ip': nat)
    requires MayBeOpen(p, c, ip) && ip < |p.code| && !Closes(p.code[ip], c) && ip' in Successors(p, ip)
    ensures MayBeOpen(p, c, ip')
  {
    var w :| OpenPath(p, c, w) && w[|w| - 1] == ip;
    var w' := w + [ip'];
    assert w'[..|w'| - 1] == w;
    assert OpenPath(p, c, w') && w'[|w'| - 1] == ip';
  }

  // ----- what every frame keeps, whatever object is being watched -----

  /** Self-references are real, the `nil` of a plain comparison is in place, and upvalues are
      open only where they may be. */
  ghost predicate FrameSane(p: Proto, facts: SiteFacts, f: Frame) {
    && |facts.selfRef| == |p.code|
    && f.ip < |p.code| && |f.regs| == p.numRegs
    && (forall r :: r in facts.selfRef[f.ip] ==> At(f, r) == SelfFn)
    && (p.code[f.ip].Equality? ==> forall b :: ComparesWithPlain(p, f.ip, b) ==> At(f, b) == Plain)
    && (forall c :: c in f.open ==> MayBeOpen(p, c, f.ip))
  }

  ghost predicate IdsBelow(f: Frame, next: nat) {
    forall r: Reg :: At(f, r).Ref? ==> At(f, r).id < next
  }

  ghost predicate Sane(p: Proto, facts: SiteFacts, st: State) {
    && (forall k: nat :: k < |st.frames| ==> FrameSane(p, facts, st.frames[k]) && IdsBelow(st.frames[k], st.next))
    && (forall k: nat :: k + 1 < |st.frames| ==> IsCallAt(p, st.frames[k]))
    && (forall id :: id in st.escaped ==> id < st.next)
  }

  predicate IsCallAt(p: Proto, f: Frame) {
    f.ip < |p.code| && p.code[f.ip].Call?
  }

  /** A value taken along an edge is what the must-analysis says it is. */
  lemma SelfRefAdvances(p: Proto, facts: SiteFacts, st: State, st': State, f: Frame, f': Frame, v: Val, r: Reg)
    requires Trustworthy(p, facts) && FrameSane(p, facts, f)
    requires Advances(p, st, st', f, f', v) && (p.code[f.ip].Call? || Produces(p, st, st', f, v))
    requires r in facts.selfRef[f'.ip]
    ensures At(f', r) == SelfFn
  {
    var i := p.code[f.ip];
    var seeds := iset t | MustFacts.IsTaint(p, p.name, t);
    assert f.ip in Preds(p, f'.ip);
    if MustFacts.Overwrites(i, p.name, r) {
      ReachSeed(p, seeds, {}, Node(f'.ip, r));
    } else if !(Dst(i) == Some(r) && i.GetGlobal?) {
      var from := if i.Move? && i.dst == r then i.src else r;
      assert Edge(p, Node(f.ip, from), Node(f'.ip, r));
      if MustFacts.Tainted(p, p.name, Node(f.ip, from)) {
        ReachStep(p, seeds, {}, Node(f.ip, from), Node(f'.ip, r));
      }
      assert from in facts.selfRef[f.ip];
      assert from in f.open ==> ProvenThoughOpen(p, facts, from, f.ip);
    }
  }

  lemma FrameSaneAdvances(p: Proto, facts: SiteFacts, st: State, st': State, f: Frame, f': Frame, v: Val)
    requires Trustworthy(p, facts) && FrameSane(p, facts, f)
    requires Advances(p, st, st', f, f', v) && (p.code[f.ip].Call? || Produces(p, st, st', f, v))
    ensures FrameSane(p, facts, f')
  {
    hide Reach, MayBeOpen, FactsHold, ParamTrustworthy;
    forall r | r in facts.selfRef[f'.ip]
      ensures At(f', r) == SelfFn
    {
      SelfRefAdvances(p, facts, st, st', f, f', v, r);
    }
    forall b | ComparesWithPlain(p, f'.ip, b)
      ensures At(f', b) == Plain
    {
      assert f.ip in Preds(p, f'.ip);
    }
    forall c | c in f'.open
      ensures MayBeOpen(p, c, f'.ip)
    {
      OpenAdvances(p, facts, f, f', c);
    }
  }

  /** An error caught in the frame leaves proven names what they are. */
  lemma SelfRefLands(p: Proto, facts: SiteFacts, st: State, st': State, f: Frame, f': Frame, r: Reg)
    requires RegsInFrame(p) && CatchesAreEdges(p) && FactsHold(p, facts) && (forall c, ip :: !ProvenThoughOpen(p, facts, c, ip))
    requires FrameSane(p, facts, f) && Lands(p, st, st', f, f') && !ProvenThoughCaught(p, facts, f.ip)
    requires r in facts.selfRef[f'.ip]
    ensures At(f', r) == SelfFn
  {
    var i := p.code[f.ip];
    var seeds := iset t | MustFacts.IsTaint(p, p.name, t);
    assert !ProvenThoughCaught(p, facts, f.ip);
    assert f.ip in Preds(p, f'.ip);
    if MustFacts.Overwrites(i, p.name, r) {
      ReachSeed(p, seeds, {}, Node(f'.ip, r));
    } else {
      assert Edge(p, Node(f.ip, r), Node(f'.ip, r));
      if MustFacts.Tainted(p, p.name, Node(f.ip, r)) {
        ReachStep(p, seeds, {}, Node(f.ip, r), Node(f'.ip, r));
      }
      assert r in facts.selfRef[f.ip];
      assert r in f.open ==> ProvenThoughOpen(p, facts, r, f.ip);
    }
  }

  lemma FrameSaneLands(p: Proto, facts: SiteFacts, st: State, st': State, f: Frame, f': Frame)
    requires Trustworthy(p, facts) && FrameSane(p, facts, f) && Lands(p, st, st', f, f')
    ensures FrameSane(p, facts, f')
  {
    hide Reach, MayBeOpen, FactsHold, ParamTrustworthy;
    assert f.ip in Preds(p, f'.ip);
    forall r | r in facts.selfRef[f'.ip]
      ensures At(f', r) == SelfFn
    {
      SelfRefLands(p, facts, st, st', f, f', r);
    }
    forall c | c in f'.open
      ensures MayBeOpen(p, c, f'.ip)
    {
      StaysOpen(p, c, f.ip, f'.ip);
    }
  }

  lemma IdsLand(p: Proto, st: State, st': State, f: Frame, f': Frame)
    requires f.ip < |p.code| && Lands(p, st, st', f, f') && IdsBelow(f, st.next)
    requires st.next <= st'.next && (forall id :: id in st'.escaped ==> id < st'.next)
    ensures IdsBelow(f', st'.next)
  {
  }

  lemma OpenAdvances(p: Proto, facts: SiteFacts, f: Frame, f': Frame, c: Reg)
    requires FrameSane(p, facts, f) && f'.ip in Successors(p, f.ip) && c in OpenAfter(p.code[f.ip], f.open)
    ensures MayBeOpen(p, c, f'.ip)
  {
    hide MayBeOpen;
    if c in f.open {
      StaysOpen(p, c, f.ip, f'.ip);
    } else {
      OpensAt(p, c, f.ip, f'.ip);
    }
  }

  lemma FrameSaneWaits(p: Proto, facts: SiteFacts, st: State, st': State, f: Frame, f': Frame)
    requires Trustworthy(p, facts) && FrameSane(p, facts, f) && IsCallAt(p, f) && Waits(st, st', f, f')
    ensures FrameSane(p, facts, f')
  {
    forall r | r in facts.selfRef[f'.ip]
      ensures At(f', r) == SelfFn
    {
      assert r in f.open ==> ProvenThoughOpen(p, facts, r, f.ip);
    }
  }

  /** An activation starts sane: nothing is proven at the entry. */
  lemma EntrySane(p: Proto, facts: SiteFacts, f: Frame)
    requires Trustworthy(p, facts) && f.ip == 0 && f.open == {} && |f.regs| == p.numRegs
    ensures FrameSane(p, facts, f)
  {
    forall r: Reg
      ensures MustFacts.Tainted(p, p.name, Node(0, r))
    {
      ReachSeed(p, iset t | MustFacts.IsTaint(p, p.name, t), {}, Node(0, r));
    }
  }

  lemma CalleeSane(p: Proto, facts: SiteFacts, st: State, st': State, f: Frame, callee: Frame)
    requires Trustworthy(p, facts) && IsCallAt(p, f) && Receives(p, st, st', f, callee)
    requires IdsBelow(f, st.next) && st.next <= st'.next && forall id :: id in st'.escaped ==> id < st'.next
    ensures FrameSane(p, facts, callee) && IdsBelow(callee, st'.next)
  {
    hide Trustworthy, FrameSane;
    EntrySane(p, facts, callee);
  }

  lemma IdsAdvance(p: Proto, st: State, st': State, f: Frame, f': Frame, v: Val)
    requires f.ip < |p.code| && Advances(p, st, st', f, f', v) && IdsBelow(f, st.next)
    requires st.next <= st'.next && (forall id :: id in st'.escaped ==> id < st'.next)
    requires v.Ref? ==> v.id < st'.next
    ensures IdsBelow(f', st'.next)
  {
  }

  ghost predicate FrameGood(p: Proto, facts: SiteFacts, f: Frame, next: nat) {
    FrameSane(p, facts, f) && IdsBelow(f, next)
  }

  lemma TopSane(p: Proto, facts: SiteFacts, fields: Fields, st: State, st': State)
    requires Trustworthy(p, facts) && LocalStep(p, st, st') && LetsOut(p, fields, st, st')
    requires FrameGood(p, facts, Top(st), st.next)
    ensures FrameGood(p, facts, Top(st'), st'.next)
  {
    if Lands(p, st, st', Top(st), Top(st')) {
      FrameSaneLands(p, facts, st, st', Top(st), Top(st'));
      IdsLand(p, st, st', Top(st), Top(st'));
    } else {
      assert Completes(p, st, st');
      var v :| Produces(p, st, st', Top(st), v) && Advances(p, st, st', Top(st), Top(st'), v);
      FrameSaneAdvances(p, facts, st, st', Top(st), Top(st'), v);
      IdsAdvance(p, st, st', Top(st), Top(st'), v);
    }
  }

  lemma CallerSane(p: Proto, facts: SiteFacts, fields: Fields, st: State, st': State)
    requires Trustworthy(p, facts) && |st.frames| > 1 && EndStep(p, st, st') && LetsOut(p, fields, st, st')
    requires IsCallAt(p, st.frames[|st.frames| - 2]) && IdsBelow(Top(st), st.next)
    requires FrameGood(p, facts, st.frames[|st.frames| - 2], st.next)
    ensures FrameGood(p, facts, st'.frames[|st.frames| - 2], st'.next)
  {
    var k := |st.frames| - 2;
    if Lands(p, st, st', st.frames[k], st'.frames[k]) {
      FrameSaneLands(p, facts, st, st', st.frames[k], st'.frames[k]);
      IdsLand(p, st, st', st.frames[k], st'.frames[k]);
    } else {
      assert Resumes(p, st, st');
      var v :| HandsBack(p, st, v) && Advances(p, st, st', st.frames[k], st'.frames[k], v);
      FrameSaneAdvances(p, facts, st, st', st.frames[k], st'.frames[k], v);
      IdsAdvance(p, st, st', st.frames[k], st'.frames[k], v);
    }
  }

  lemma WaiterSane(p: Proto, facts: SiteFacts, fields: Fields, st: State, st': State, f: Frame, f': Frame)
    requires Trustworthy(p, facts) && LetsOut(p, fields, st, st') && IsCallAt(p, f) && Waits(st, st', f, f')
    requires FrameGood(p, facts, f, st.next)
    ensures FrameGood(p, facts, f', st'.next)
  {
    FrameSaneWaits(p, facts, st, st', f, f');
  }

  /** One frame after a step. */
  lemma FrameSanePreserved(p: Proto, facts: SiteFacts, fields: Fields, st: State, st': State, k: nat)
    requires Trustworthy(p, facts) && Step(p, fields, st, st') && k < |st.frames| && k < |st'.frames|
    requires k + 1 < |st.frames| ==> IsCallAt(p, st.frames[k])
    requires FrameGood(p, facts, st.frames[k], st.next) && IdsBelow(Top(st), st.next)
    ensures FrameGood(p, facts, st'.frames[k], st'.next)
  {
    assert st.next <= st'.next;
    var n := |st.frames|;
    if SelfCallStep(p, st, st') {
      assert st'.frames[k] == st'.frames[..n][k];
    } else {
      hide Trustworthy, FrameGood, Advances, Lands, LetsOut, Receives, Produces, HandsBack;
      if LocalStep(p, st, st') && k == n - 1 {
        TopSane(p, facts, fields, st, st');
      } else if EndStep(p, st, st') && k == n - 2 {
        CallerSane(p, facts, fields, st, st');
      } else {
        assert Waits(st, st', st.frames[k], st'.frames[k]);
        WaiterSane(p, facts, fields, st, st', st.frames[k], st'.frames[k]);
      }
    }
  }

  /** Every step keeps every frame sane. */
  lemma SanePreserved(p: Proto, facts: SiteFacts, fields: Fields, st: State, st': State)
    requires Trustworthy(p, facts) && Sane(p, facts, st) && Step(p, fields, st, st')
    ensures Sane(p, facts, st')
  {
    var n := |st.frames|;
    forall k: nat | k < |st'.frames|
      ensures FrameGood(p, facts, st'.frames[k], st'.next)
    {
      if k < n {
        FrameSanePreserved(p, facts, fields, st, st', k);
      } else {
        CalleeSane(p, facts, st, st', Top(st), st'.frames[n]);
      }
    }
    forall k: nat | k + 1 < |st'.frames|
      ensures IsCallAt(p, st'.frames[k])
    {
      if SelfCallStep(p, st, st') {
        assert st'.frames[k] == st'.frames[..n][k];
      } else {
        assert Waits(st, st', st.frames[k], st'.frames[k]);
      }
      assert k + 1 < n ==> IsCallAt(p, st.frames[k]);
    }
  }

  // ----- where one watched object may be -----

  /** Why a frame may hold the watched object: it came in through some parameters, or this
      activation allocated it at the site. */
  datatype Tag = Params(ps: set<nat>) | AtSite

  /** The allocation whose objects are being watched. */
  datatype Watch = Watch(o: nat, site: nat, dst: Reg, safety: set<string>)

  ghost predicate Accepted(p: Proto, facts: SiteFacts, fields: Fields, w: Watch) {
    && w.site < |p.code| == |facts.selfRef|
    && Dst(p.code[w.site]) == Some(w.dst)
    && StaysInPlace(p, facts, w.site, w.dst, w.safety)
    && w.safety <= fields(w.o)
    && SiteIgnoresOld(p, w.site, w.dst)
    && (forall ip :: SiteHeld(p, w.site, Node(ip, w.dst)) ==> !HandsToCollector(p, facts, Node(ip, w.dst)))
    && (forall ip :: !SiteForgottenByRaise(p, w.site, w.dst, ip))
  }

  /** The object is in its register when an instruction about to overwrite it raises, and the
      analysis no longer looks for it there where the error is caught. */
  ghost predicate SiteForgottenByRaise(p: Proto, site: nat, dst: Reg, ip: nat)
    requires site < |p.code|
  {
    && ip != site && KeptByRaise(p, ip, dst) && Stays(p, site, dst, ip)
    && var resume := CaughtAt(p, ip).value.resume;
       !(Stays(p, site, dst, resume) && (resume != site ==> SiteHeld(p, site, Node(resume, dst))))
  }

  /** Coming back to the site, it does not let out the object it made before. */
  ghost predicate SiteIgnoresOld(p: Proto, site: nat, dst: Reg)
    requires site < |p.code|
  {
    Stays(p, site, dst, site) ==> !EscapingRead(p.code[site], dst) && !CapturesReg(p.code[site], dst)
  }

  ghost predicate ParamsSafe(p: Proto, facts: SiteFacts, ps: set<nat>) {
    && |facts.summary| == p.arity
    && forall i :: i in ps ==> i < p.arity && !facts.summary[i]
  }

  ghost predicate HeldByParam(p: Proto, ps: set<nat>, n: Node) {
    exists i :: i in ps && ParamHeld(p, i, n)
  }

  ghost predicate SiteHolds(p: Proto, w: Watch, ip: nat, r: Reg)
    requires w.site < |p.code|
  {
    r == w.dst && Stays(p, w.site, w.dst, ip) && (ip != w.site ==> SiteHeld(p, w.site, Node(ip, r)))
  }

  ghost predicate ParamsHold(p: Proto, o: nat, f: Frame, ps: set<nat>) {
    forall r: Reg :: At(f, r) == Ref(o) ==> HeldByParam(p, ps, Node(f.ip, r))
  }

  ghost predicate SiteFrameHolds(p: Proto, w: Watch, f: Frame)
    requires w.site < |p.code|
  {
    forall r: Reg :: At(f, r) == Ref(w.o) ==> SiteHolds(p, w, f.ip, r)
  }

  ghost predicate FrameHolds(p: Proto, facts: SiteFacts, fields: Fields, w: Watch, f: Frame, tag: Tag) {
    && (forall c :: c in f.open ==> At(f, c) != Ref(w.o))
    && (tag.Params? ==> ParamsSafe(p, facts, tag.ps) && ParamsHold(p, w.o, f, tag.ps))
    && (tag.AtSite? ==> Accepted(p, facts, fields, w) && SiteFrameHolds(p, w, f))
  }

  /** The watched object has not been let out, and every frame holds it only where its tag
      allows. */
  ghost predicate Contained(p: Proto, facts: SiteFacts, fields: Fields, w: Watch, st: State, tags: seq<Tag>) {
    && |tags| == |st.frames|
    && w.o < st.next && w.o !in st.escaped
    && forall k: nat :: k < |tags| ==> FrameHolds(p, facts, fields, w, st.frames[k], tags[k])
  }

  /** A register a parameter was traced to is used by nothing that escapes. */
  lemma ParamNodeIsSafe(p: Proto, facts: SiteFacts, ps: set<nat>, n: Node)
    requires Trustworthy(p, facts) && ParamsSafe(p, facts, ps) && n.ip < |p.code| && HeldByParam(p, ps, n)
    ensures !ParamEscapesAt(p, facts.selfRef, facts.summary, None, n) && !HandsToCollector(p, facts, n)
  {
    var i :| i in ps && ParamHeld(p, i, n);
    assert !ParamEscapes(p, i, facts.selfRef, facts.summary, None);
    assert ParamTrustworthy(p, facts, i);
  }

  lemma SiteNodeIsSafe(p: Proto, facts: SiteFacts, fields: Fields, w: Watch, ip: nat)
    requires Trustworthy(p, facts) && Accepted(p, facts, fields, w) && ip < |p.code|
    requires SiteHolds(p, w, ip, w.dst) && ip != w.site
    ensures !SiteEscapesAt(p, facts.selfRef, facts.summary, None, Some(w.safety), Node(ip, w.dst))
  {
    assert SiteHeld(p, w.site, Node(ip, w.dst));
  }

  /** Whatever a frame is about to let out, the analysis of parameters flags. */
  lemma LeakIsFlagged(p: Proto, facts: SiteFacts, fields: Fields, f: Frame, r: Reg)
    requires FrameSane(p, facts, f) && Leaks(p, fields, f, r) && |facts.summary| == p.arity
    requires !HandsToCollector(p, facts, Node(f.ip, r))
    ensures ParamEscapesAt(p, facts.selfRef, facts.summary, None, Node(f.ip, r))
  {
  }

  /** The same for an allocation whose class has the fields `safety` names. */
  lemma LeakIsFlaggedAtSite(p: Proto, facts: SiteFacts, fields: Fields, f: Frame, r: Reg, o: nat, safety: set<string>)
    requires FrameSane(p, facts, f) && Leaks(p, fields, f, r) && |facts.summary| == p.arity
    requires !HandsToCollector(p, facts, Node(f.ip, r))
    requires At(f, r) == Ref(o) && safety <= fields(o)
    ensures SiteEscapesAt(p, facts.selfRef, facts.summary, None, Some(safety), Node(f.ip, r))
  {
  }

  lemma LeakIsRead(p: Proto, fields: Fields, f: Frame, r: Reg)
    requires f.ip < |p.code| && Leaks(p, fields, f, r)
    ensures CapturesReg(p.code[f.ip], r) || EscapingRead(p.code[f.ip], r)
  {
  }

  /** The instruction about to run does not let the watched object out. */
  lemma NothingLeaks(p: Proto, facts: SiteFacts, fields: Fields, w: Watch, f: Frame, tag: Tag, r: Reg)
    requires Trustworthy(p, facts) && FrameSane(p, facts, f) && FrameHolds(p, facts, fields, w, f, tag)
    requires At(f, r) == Ref(w.o)
    ensures !Leaks(p, fields, f, r)
  {
    if tag.Params? {
      ParamNodeIsSafe(p, facts, tag.ps, Node(f.ip, r));
      if Leaks(p, fields, f, r) {
        LeakIsFlagged(p, facts, fields, f, r);
      }
    } else {
      assert SiteHolds(p, w, f.ip, r);
      if f.ip != w.site {
        SiteNodeIsSafe(p, facts, fields, w, f.ip);
        if Leaks(p, fields, f, r) {
          LeakIsFlaggedAtSite(p, facts, fields, f, r, w.o, w.safety);
        }
      } else if Leaks(p, fields, f, r) {
        LeakIsRead(p, fields, f, r);
      }
    }
  }

  /** An argument of a self-recursive call that no safe parameter takes is flagged. */
  lemma ArgumentIsFlagged(p: Proto, facts: SiteFacts, f: Frame, k: nat, safety: FieldSafety)
    requires |facts.selfRef| == |p.code| && |facts.summary| == p.arity
    requires IsSelfCallNow(p, f) && k < p.code[f.ip].numArgs
    requires k < p.arity ==> facts.summary[k]
    ensures
      var n := Node(f.ip, p.code[f.ip].func + 1 + k);
      && ParamEscapesAt(p, facts.selfRef, facts.summary, None, n)
      && SiteEscapesAt(p, facts.selfRef, facts.summary, None, safety, n)
  {
  }

  /** A self-recursive call passes the watched object only to parameters that keep it. */
  lemma ArgumentsAreSafe(p: Proto, facts: SiteFacts, fields: Fields, w: Watch, f: Frame, tag: Tag, k: nat)
    requires Trustworthy(p, facts) && FrameHolds(p, facts, fields, w, f, tag)
    requires IsSelfCallNow(p, f) && k < p.code[f.ip].numArgs && At(f, p.code[f.ip].func + 1 + k) == Ref(w.o)
    ensures k < p.arity && !facts.summary[k]
  {
    var r := p.code[f.ip].func + 1 + k;
    if tag.Params? {
      ParamNodeIsSafe(p, facts, tag.ps, Node(f.ip, r));
    } else {
      assert SiteHolds(p, w, f.ip, r);
      if f.ip != w.site {
        SiteNodeIsSafe(p, facts, fields, w, f.ip);
      }
    }
    if k < p.arity ==> facts.summary[k] {
      ArgumentIsFlagged(p, facts, f, k, Some(w.safety));
    }
  }

  /** The watched object travels along flow edges, so a parameter that explains where it
      was explains where it is. */
  lemma HeldByParamStep(p: Proto, ps: set<nat>, a: Node, b: Node)
    requires |p.code| > 0 && (forall i :: i in ps ==> BackUnmoved(p, i)) && HeldByParam(p, ps, a) && Edge(p, a, b)
    ensures HeldByParam(p, ps, b)
  {
    var i :| i in ps && ParamHeld(p, i, a);
    HeldStep(p, i, a, b);
    assert ParamHeld(p, i, b);
  }

  lemma HeldIsReached(p: Proto, i: Reg, n: Node)
    requires ParamHeld(p, i, n)
    ensures Reach(p, iset{Node(0, i)}, {}, n)
  {
    var all, start := iset{Node(0, i)}, MayTransfer(p.code[0], {i});
    var reached := iset m: Node | Reach(p, all, {}, m);
    ReachSeed(p, all, {}, Node(0, i));
    forall m | m in Origins(p, 0, start)
      ensures m in reached
    {
      MayTransferCarries(p.code[0], {i}, m.reg);
      ReachStep(p, all, {}, Node(0, i), m);
    }
    forall a, b | a in reached && Edge(p, a, b)
      ensures b in reached
    {
      ReachStep(p, all, {}, a, b);
    }
    if n != Node(0, i) {
      ReachIsLeast(p, Origins(p, 0, start), {0}, reached, n);
    }
  }

  lemma HeldStep(p: Proto, i: Reg, a: Node, b: Node)
    requires |p.code| > 0 && BackUnmoved(p, i) && ParamHeld(p, i, a) && Edge(p, a, b)
    ensures ParamHeld(p, i, b)
  {
    var start := MayTransfer(p.code[0], {i});
    if b.ip == 0 {
      HeldIsReached(p, i, a);
      ReachStep(p, iset{Node(0, i)}, {}, a, b);
      assert Reach(p, iset{Node(0, i)}, {}, Node(0, b.reg));
    } else if a == Node(0, i) {
      MayTransferCarries(p.code[0], {i}, b.reg);
      ReachSeed(p, Origins(p, 0, start), {0}, b);
    } else {
      ReachStep(p, Origins(p, 0, start), {0}, a, b);
    }
  }

  lemma SiteHoldsStep(p: Proto, facts: SiteFacts, fields: Fields, w: Watch, a: Node, b: Node)
    requires Accepted(p, facts, fields, w) && SiteHolds(p, w, a.ip, a.reg) && Edge(p, a, b)
    ensures SiteHolds(p, w, b.ip, b.reg)
  {
    var i := p.code[a.ip];
    assert i.Move? && i.src == w.dst ==> CopiesAt(p, w.dst, a.ip);
    StaysStep(p, w.site, w.dst, a.ip, b.ip);
    if b.ip != w.site {
      ReachStep(p, Origins(p, w.site, {w.dst}), {w.site}, a, b);
    }
  }

  /** No copy puts the watched object under an open upvalue. */
  lemma MovedInTheOpen(p: Proto, facts: SiteFacts, fields: Fields, w: Watch, f: Frame, tag: Tag, c: Reg)
    requires Trustworthy(p, facts) && FrameSane(p, facts, f) && FrameHolds(p, facts, fields, w, f, tag)
    requires p.code[f.ip].Move? && p.code[f.ip].dst == c && c in f.open
    ensures At(f, p.code[f.ip].src) != Ref(w.o)
  {
    match tag
    case Params(ps) =>
      assert forall j :: j in ps ==> ParamTrustworthy(p, facts, j) && !MovesUnderUpvalue(p, j, f.ip);
    case AtSite =>
      assert CopiesAt(p, p.code[f.ip].src, f.ip);
  }

  /** Executing an instruction that produces some other value keeps the frame's tag good. */
  lemma FrameHoldsAdvances(p: Proto, facts: SiteFacts, fields: Fields, w: Watch, st: State, st': State, f: Frame, f': Frame, v: Val, tag: Tag)
    requires Trustworthy(p, facts) && FrameSane(p, facts, f) && FrameHolds(p, facts, fields, w, f, tag)
    requires Advances(p, st, st', f, f', v)
    requires if p.code[f.ip].Move? then v == At(f, p.code[f.ip].src) else v != Ref(w.o)
    requires w.o < st.next && w.o !in st'.escaped
    ensures FrameHolds(p, facts, fields, w, f', tag)
  {
    var i := p.code[f.ip];
    forall c | c in f'.open
      ensures At(f', c) != Ref(w.o)
    {
      if c !in f.open {
        assert CapturesReg(i, c);
        if At(f, c) == Ref(w.o) {
          NothingLeaks(p, facts, fields, w, f, tag, c);
        }
      } else if i.Move? && i.dst == c && At(f, i.src) == Ref(w.o) {
        MovedInTheOpen(p, facts, fields, w, f, tag, c);
      }
    }
    forall r: Reg | At(f', r) == Ref(w.o)
      ensures match tag
              case Params(ps) => HeldByParam(p, ps, Node(f'.ip, r))
              case AtSite => SiteHolds(p, w, f'.ip, r)
    {
      var from := if i.Move? && i.dst == r then i.src else r;
      assert At(f, from) == Ref(w.o) && Edge(p, Node(f.ip, from), Node(f'.ip, r));
      match tag
      case Params(ps) =>
        assert forall j :: j in ps ==> ParamTrustworthy(p, facts, j);
        HeldByParamStep(p, ps, Node(f.ip, from), Node(f'.ip, r));
      case AtSite => SiteHoldsStep(p, facts, fields, w, Node(f.ip, from), Node(f'.ip, r));
    }
  }

  /** Where the watched object is after an error caught in the frame. */
  lemma HoldsWhereItLands(p: Proto, facts: SiteFacts, fields: Fields, w: Watch, f: Frame, f': Frame, tag: Tag, r: Reg)
    requires Trustworthy(p, facts) && FrameSane(p, facts, f) && FrameHolds(p, facts, fields, w, f, tag)
    requires CaughtAt(p, f.ip).Some? && f'.ip == CaughtAt(p, f.ip).value.resume < |p.code| && MayRaise(p, p.code[f.ip])
    requires CaughtAt(p, f.ip).value.variable != Some(r) && At(f, r) == Ref(w.o)
    ensures match tag
            case Params(ps) => HeldByParam(p, ps, Node(f'.ip, r))
            case AtSite => SiteHolds(p, w, f'.ip, r)
  {
    var i := p.code[f.ip];
    var a, b := Node(f.ip, r), Node(f'.ip, r);
    match tag
    case Params(ps) =>
      assert forall j :: j in ps ==> ParamTrustworthy(p, facts, j);
      if Dst(i) == Some(r) {
        var j :| j in ps && ParamHeld(p, j, a);
        assert KeptByRaise(p, f.ip, r) && !ForgottenByRaise(p, j, f.ip, r);
      } else {
        HeldByParamStep(p, ps, a, b);
      }
    case AtSite =>
      if Dst(i) == Some(r) && f.ip != w.site {
        assert KeptByRaise(p, f.ip, r) && !SiteForgottenByRaise(p, w.site, w.dst, f.ip);
      } else if Dst(i) == Some(r) {
        StaysFromSite(p, w.site, w.dst, f'.ip);
        if f'.ip != w.site { ReachSeed(p, Origins(p, w.site, {w.dst}), {w.site}, b); }
      } else {
        SiteHoldsStep(p, facts, fields, w, a, b);
      }
  }

  lemma FrameHoldsLands(p: Proto, facts: SiteFacts, fields: Fields, w: Watch, st: State, st': State, f: Frame, f': Frame, tag: Tag)
    requires Trustworthy(p, facts) && FrameSane(p, facts, f) && FrameHolds(p, facts, fields, w, f, tag)
    requires Lands(p, st, st', f, f') && w.o < st.next && w.o !in st'.escaped
    ensures FrameHolds(p, facts, fields, w, f', tag)
  {
    hide Trustworthy, FrameSane, Accepted, ParamsSafe;
    forall r: Reg | At(f', r) == Ref(w.o)
      ensures match tag
              case Params(ps) => HeldByParam(p, ps, Node(f'.ip, r))
              case AtSite => SiteHolds(p, w, f'.ip, r)
    {
      HoldsWhereItLands(p, facts, fields, w, f, f', tag, r);
    }
  }

  lemma FrameHoldsWaits(p: Proto, facts: SiteFacts, fields: Fields, w: Watch, st: State, st': State, f: Frame, f': Frame, tag: Tag)
    requires FrameHolds(p, facts, fields, w, f, tag) && Waits(st, st', f, f')
    requires w.o < st.next && w.o !in st'.escaped
    ensures FrameHolds(p, facts, fields, w, f', tag)
  {
  }

  lemma StaysInside(p: Proto, facts: SiteFacts, fields: Fields, w: Watch, st: State, st': State, tags: seq<Tag>)
    requires Trustworthy(p, facts) && Sane(p, facts, st) && Contained(p, facts, fields, w, st, tags)
    requires LetsOut(p, fields, st, st') && st.frames != []
    ensures w.o !in st'.escaped
  {
    var n := |st.frames|;
    assert FrameSane(p, facts, Top(st)) && FrameHolds(p, facts, fields, w, Top(st), tags[n - 1]);
    hide Trustworthy, FrameSane, Leaks, Accepted;
    forall r: Reg | At(Top(st), r) == Ref(w.o)
      ensures !Leaks(p, fields, Top(st), r)
    {
      NothingLeaks(p, facts, fields, w, Top(st), tags[n - 1], r);
    }
    forall k: nat, c | k < |st.frames| && c in st.frames[k].open
      ensures At(st.frames[k], c) != Ref(w.o)
    {
      assert FrameHolds(p, facts, fields, w, st.frames[k], tags[k]);
    }
  }

  /** The parameters a self-recursive call passes the watched object to. */
  ghost function PassedTo(p: Proto, w: Watch, f: Frame): set<nat>
    requires IsCallAt(p, f)
  {
    set k | k in AllRegs(p) && k < p.code[f.ip].numArgs && !Collected(p, k) && At(f, p.code[f.ip].func + 1 + k) == Ref(w.o)
  }

  lemma CalleeHolds(p: Proto, facts: SiteFacts, fields: Fields, w: Watch, st: State, st': State, f: Frame, callee: Frame)
    requires |p.code| > 0 && IsCallAt(p, f) && Receives(p, st, st', f, callee)
    requires w.o < st.next && w.o !in st'.escaped
    requires ParamsSafe(p, facts, PassedTo(p, w, f))
    ensures FrameHolds(p, facts, fields, w, callee, Params(PassedTo(p, w, f)))
  {
    var ps := PassedTo(p, w, f);
    forall r: Reg | At(callee, r) == Ref(w.o)
      ensures HeldByParam(p, ps, Node(callee.ip, r))
    {
      assert InFrame(p, r);
      assert r in ps && ParamHeld(p, r, Node(0, r));
    }
  }

  lemma PassedToIsSafe(p: Proto, facts: SiteFacts, fields: Fields, w: Watch, f: Frame, tag: Tag)
    requires Trustworthy(p, facts) && FrameHolds(p, facts, fields, w, f, tag) && IsSelfCallNow(p, f)
    requires |facts.summary| == p.arity
    ensures ParamsSafe(p, facts, PassedTo(p, w, f))
  {
    hide Trustworthy, FrameHolds;
    forall k | k in PassedTo(p, w, f)
      ensures k < p.arity && !facts.summary[k]
    {
      ArgumentsAreSafe(p, facts, fields, w, f, tag, k);
    }
  }

  /** After an activation ends, its caller goes on without the watched object in hand. */
  lemma CallerHolds(p: Proto, facts: SiteFacts, fields: Fields, w: Watch, st: State, st': State, tag: Tag)
    requires Trustworthy(p, facts) && |st.frames| > 1 && EndStep(p, st, st') && LetsOut(p, fields, st, st')
    requires w.o < st.next && w.o !in st'.escaped
    requires IsCallAt(p, st.frames[|st.frames| - 2]) && FrameSane(p, facts, st.frames[|st.frames| - 2])
    requires FrameHolds(p, facts, fields, w, st.frames[|st.frames| - 2], tag)
    ensures FrameHolds(p, facts, fields, w, st'.frames[|st.frames| - 2], tag)
  {
    var n := |st.frames|;
    if Lands(p, st, st', st.frames[n - 2], st'.frames[n - 2]) {
      FrameHoldsLands(p, facts, fields, w, st, st', st.frames[n - 2], st'.frames[n - 2], tag);
    } else {
      assert Resumes(p, st, st');
      var v :| HandsBack(p, st, v) && Advances(p, st, st', st.frames[n - 2], st'.frames[n - 2], v);
      var i := p.code[Top(st).ip];
      assert i.Return? ==> Leaks(p, fields, Top(st), i.src);
      FrameHoldsAdvances(p, facts, fields, w, st, st', st.frames[n - 2], st'.frames[n - 2], v, tag);
    }
  }

  lemma TopHolds(p: Proto, facts: SiteFacts, fields: Fields, w: Watch, st: State, st': State, tag: Tag)
    requires Trustworthy(p, facts) && LocalStep(p, st, st') && FrameSane(p, facts, Top(st))
    requires w.o < st.next && w.o !in st'.escaped
    requires FrameHolds(p, facts, fields, w, Top(st), tag)
    ensures FrameHolds(p, facts, fields, w, Top(st'), tag)
  {
    if Lands(p, st, st', Top(st), Top(st')) {
      FrameHoldsLands(p, facts, fields, w, st, st', Top(st), Top(st'), tag);
    } else {
      assert Completes(p, st, st');
      var v :| Produces(p, st, st', Top(st), v) && Advances(p, st, st', Top(st), Top(st'), v);
      FrameHoldsAdvances(p, facts, fields, w, st, st', Top(st), Top(st'), v, tag);
    }
  }

  /** Tags after a step: a self-recursive call adds one, the end of an activation drops one. */
  ghost function TagsAfter(p: Proto, w: Watch, st: State, st': State, tags: seq<Tag>): (tags': seq<Tag>)
    requires |tags| == |st.frames| && st.frames != [] && |st'.frames| <= |st.frames| + 1
    requires |st'.frames| > |st.frames| ==> IsCallAt(p, Top(st))
    ensures |tags'| == |st'.frames|
    ensures forall k: nat :: k < |tags| && k < |tags'| ==> tags'[k] == tags[k]
  {
    if |st'.frames| <= |st.frames| then tags[..|st'.frames|] else tags + [Params(PassedTo(p, w, Top(st)))]
  }

  /** One frame after a step. */
  lemma FramePreserved(p: Proto, facts: SiteFacts, fields: Fields, w: Watch, st: State, st': State, k: nat, tag: Tag)
    requires Trustworthy(p, facts) && Step(p, fields, st, st') && k < |st.frames| && k < |st'.frames|
    requires FrameSane(p, facts, st.frames[k]) && (k + 1 < |st.frames| ==> IsCallAt(p, st.frames[k]))
    requires w.o < st.next && w.o !in st'.escaped
    requires FrameHolds(p, facts, fields, w, st.frames[k], tag)
    ensures FrameHolds(p, facts, fields, w, st'.frames[k], tag)
  {
    hide Trustworthy, FrameSane, FrameHolds, Advances, Lands, Produces, HandsBack, LetsOut, Receives;
    var n := |st.frames|;
    if LocalStep(p, st, st') && k == n - 1 {
      TopHolds(p, facts, fields, w, st, st', tag);
    } else if SelfCallStep(p, st, st') {
      assert st'.frames[k] == st'.frames[..n][k];
    } else if EndStep(p, st, st') && k == n - 2 {
      CallerHolds(p, facts, fields, w, st, st', tag);
    } else {
      assert Waits(st, st', st.frames[k], st'.frames[k]);
      FrameHoldsWaits(p, facts, fields, w, st, st', st.frames[k], st'.frames[k], tag);
    }
  }

  /** Every step keeps the watched object contained, and the tags of surviving frames. */
  lemma ContainedPreserved(p: Proto, facts: SiteFacts, fields: Fields, w: Watch, st: State, st': State, tags: seq<Tag>) returns (tags': seq<Tag>)
    requires Trustworthy(p, facts) && Sane(p, facts, st) && Contained(p, facts, fields, w, st, tags)
    requires Step(p, fields, st, st')
    ensures Contained(p, facts, fields, w, st', tags')
    ensures forall k: nat :: k < |tags| && k < |tags'| ==> tags'[k] == tags[k]
  {
    assert |facts.summary| == p.arity && |p.code| > 0;
    hide Trustworthy, FrameSane, FrameHolds, Advances, Lands, LetsOut, Receives, Produces, HandsBack;
    var n := |st.frames|;
    tags' := TagsAfter(p, w, st, st', tags);
    StaysInside(p, facts, fields, w, st, st', tags);
    forall k: nat | k < |tags'|
      ensures FrameHolds(p, facts, fields, w, st'.frames[k], tags'[k])
    {
      if k < n {
        FramePreserved(p, facts, fields, w, st, st', k, tags[k]);
      } else {
        PassedToIsSafe(p, facts, fields, w, Top(st), tags[n - 1]);
        CalleeHolds(p, facts, fields, w, st, st', Top(st), st'.frames[n]);
      }
    }
  }

  lemma {:induction false} RunIsSane(p: Proto, facts: SiteFacts, fields: Fields, run: seq<State>, k: nat)
    requires Trustworthy(p, facts) && IsRun(p, fields, run) && k < |run|
    ensures Sane(p, facts, run[k])
  {
    hide Trustworthy, FrameSane, Step;
    if k == 0 {
      EntrySane(p, facts, run[0].frames[0]);
    } else {
      RunIsSane(p, facts, fields, run, k - 1);
      assert StepAt(p, fields, run, k - 1);
      SanePreserved(p, facts, fields, run[k - 1], run[k]);
    }
  }

  /** Containment, once established at `t`, lasts, and the activation that was at depth `d`
      keeps its tag for as long as it lives. */
  lemma {:induction false} ContainedFrom(p: Proto, facts: SiteFacts, fields: Fields, w: Watch, run: seq<State>, t: nat, tags: seq<Tag>, d: nat, k: nat) returns (tags': seq<Tag>)
    requires Trustworthy(p, facts) && IsRun(p, fields, run) && t <= k < |run|
    requires Contained(p, facts, fields, w, run[t], tags) && d < |tags|
    ensures Contained(p, facts, fields, w, run[k], tags')
    ensures (forall j :: t <= j <= k ==> d < |run[j].frames|) ==> tags'[d] == tags[d]
    decreases k
  {
    hide Trustworthy, FrameHolds, Sane, Step, Starts;
    if k == t {
      tags' := tags;
    } else {
      var before := ContainedFrom(p, facts, fields, w, run, t, tags, d, k - 1);
      RunIsSane(p, facts, fields, run, k - 1);
      assert StepAt(p, fields, run, k - 1);
      tags' := ContainedPreserved(p, facts, fields, w, run[k - 1], run[k], before);
      if forall j :: t <= j <= k ==> d < |run[j].frames| {
        assert forall j :: t <= j <= k - 1 ==> d < |run[j].frames|;
        assert d < |run[k - 1].frames| && d < |run[k].frames|;
      }
    }
  }

  /** If the summary says that the parameters an object comes in by do not escape, no run,
      at any depth of self-recursion, ever lets the object out. */
  lemma ParamSummaryIsSound(p: Proto, facts: SiteFacts, fields: Fields, run: seq<State>, o: nat, k: nat)
    requires Trustworthy(p, facts) && IsRun(p, fields, run) && k < |run|
    requires o < run[0].next && o !in run[0].escaped
    requires forall r: Reg :: At(run[0].frames[0], r) == Ref(o) ==> r < p.arity && !facts.summary[r]
    ensures o !in run[k].escaped
  {
    var f := run[0].frames[0];
    var ps := set i | i in AllRegs(p) && At(f, i) == Ref(o);
    var w := Watch(o, 0, 0, {});
    var tags := [Params(ps)];
    forall r: Reg | At(f, r) == Ref(o)
      ensures HeldByParam(p, ps, Node(f.ip, r))
    {
      assert InFrame(p, r) && r in ps && ParamHeld(p, r, Node(0, r));
    }
    assert FrameHolds(p, facts, fields, w, f, tags[0]);
    var _ := ContainedFrom(p, facts, fields, w, run, 0, tags, 0, k);
  }

  /** Of all frames only the one at depth `d` holds the object, and only in `dst`. */
  ghost predicate HeldOnlyAt(st: State, o: nat, d: nat, dst: Reg) {
    forall k: nat, r: Reg :: k < |st.frames| && At(st.frames[k], r) == Ref(o) ==> k == d && r == dst
  }

  ghost predicate HoldsOnlyIn(f: Frame, o: nat, dst: Reg) {
    forall r: Reg :: At(f, r) == Ref(o) ==> r == dst
  }

  /** A step in which the activation on top runs the site and gets the new object. No open
      upvalue may point at the destination. */
  ghost predicate Allocates(p: Proto, w: Watch, st: State, st': State) {
    && LocalStep(p, st, st') && Completes(p, st, st')
    && Top(st).ip == w.site
    && st.next <= w.o < st'.next && w.o !in st'.escaped
    && At(Top(st'), w.dst) == Ref(w.o) && HeldOnlyAt(st', w.o, |st.frames| - 1, w.dst)
    && w.dst !in Top(st').open
  }

  lemma NewObjectHolds(p: Proto, facts: SiteFacts, fields: Fields, w: Watch, f: Frame)
    requires Accepted(p, facts, fields, w) && f.ip in Successors(p, w.site)
    requires HoldsOnlyIn(f, w.o, w.dst) && w.dst !in f.open
    ensures FrameHolds(p, facts, fields, w, f, AtSite)
  {
    StaysFromSite(p, w.site, w.dst, f.ip);
    if f.ip != w.site {
      ReachSeed(p, Origins(p, w.site, {w.dst}), {w.site}, Node(f.ip, w.dst));
    }
  }

  lemma AbsentHolds(p: Proto, facts: SiteFacts, fields: Fields, w: Watch, f: Frame)
    requires |facts.summary| == p.arity && forall r: Reg :: At(f, r) != Ref(w.o)
    ensures FrameHolds(p, facts, fields, w, f, Params({}))
  {
  }

  lemma AllocationIsContained(p: Proto, facts: SiteFacts, fields: Fields, w: Watch, st: State, st': State) returns (tags: seq<Tag>)
    requires Trustworthy(p, facts) && Allocates(p, w, st, st') && Accepted(p, facts, fields, w)
    ensures Contained(p, facts, fields, w, st', tags)
    ensures tags[|st.frames| - 1] == AtSite
  {
    var n := |st.frames|;
    tags := seq(n, k => if k == n - 1 then AtSite else Params({}));
    forall k: nat | k < n
      ensures FrameHolds(p, facts, fields, w, st'.frames[k], tags[k])
    {
      if k == n - 1 {
        NewObjectHolds(p, facts, fields, w, Top(st'));
      } else {
        AbsentHolds(p, facts, fields, w, st'.frames[k]);
      }
    }
  }

  /** If the verdict on a site is "in place", no object it ever makes, in any turn of any
      loop, is let out, and while the activation that made it lives the object is in no
      register of that activation but its destination. */
  lemma InPlaceIsSound(p: Proto, facts: SiteFacts, fields: Fields, w: Watch, run: seq<State>, t: nat, k: nat)
    requires Trustworthy(p, facts) && Accepted(p, facts, fields, w)
    requires IsRun(p, fields, run) && t < k < |run| && Allocates(p, w, run[t], run[t + 1])
    ensures w.o !in run[k].escaped
    ensures (forall j :: t < j <= k ==> |run[t].frames| <= |run[j].frames|) ==>
              HoldsOnlyIn(run[k].frames[|run[t].frames| - 1], w.o, w.dst)
  {
    hide Trustworthy, Accepted, Step, Starts;
    var d := |run[t].frames| - 1;
    var tags := AllocationIsContained(p, facts, fields, w, run[t], run[t + 1]);
    var tags' := ContainedFrom(p, facts, fields, w, run, t + 1, tags, d, k);
    if forall j :: t < j <= k ==> |run[t].frames| <= |run[j].frames| {
      assert forall j :: t + 1 <= j <= k ==> d < |run[j].frames|;
      assert FrameHolds(p, facts, fields, w, run[k].frames[d], AtSite);
    }
  }
}
