/** What is tracked of an allocation is where its object can be, and it has a second name exactly when it can be copied. */
module SiteExact {
  import opened Shapes
  import opened Flow
  import opened Spread
  import opened Escape
  import opened Sites
  import opened Runs

  /** The instruction at `f.ip` completes, a call in between included, while nothing outside the
      activation can produce object `o`. */
  ghost predicate Passes(p: Proto, f: Frame, f': Frame, o: nat) {
    f.ip < |p.code| && exists st, st', v :: PassesBy(p, st, st', f, f', v, o)
  }

  ghost predicate PassesBy(p: Proto, st: State, st': State, f: Frame, f': Frame, v: Val, o: nat)
    requires f.ip < |p.code|
  {
    && o < st.next && o !in st'.escaped
    && Advances(p, st, st', f, f', v) && (Produces(p, st, st', f, v) || (p.code[f.ip].Call? && FromOutside(st, st', v)))
  }

  /** A frame on the way into `ip`, holding `o` in register `r` only. */
  function Holding(p: Proto, ip: nat, r: Reg, o: nat): Frame {
    Frame(ip, seq(p.numRegs, q => if q == r then Ref(o) else Plain), {})
  }

  /** An activation in which the site has just put `o` in `dst`, up to where it comes back. */
  ghost predicate AfterSite(p: Proto, site: nat, dst: Reg, o: nat, frames: seq<Frame>) {
    var n := |frames|;
    && n > 0
    && (if n == 1 then frames[0] == Holding(p, frames[0].ip, dst, o) && site < |p.code| && frames[0].ip in Successors(p, site)
        else AfterSite(p, site, dst, o, frames[..n - 1]) && frames[n - 2].ip != site && Passes(p, frames[n - 2], frames[n - 1], o))
  }

  /** The object the site has just made can be in `n.reg` at `n.ip`. */
  ghost predicate CanBeAt(p: Proto, site: nat, dst: Reg, o: nat, n: Node) {
    exists frames: seq<Frame> :: |frames| > 0 && AfterSite(p, site, dst, o, frames) && IsAt(frames[|frames| - 1], o, n)
  }

  predicate IsAt(f: Frame, o: nat, n: Node) {
    f.ip == n.ip && At(f, n.reg) == Ref(o)
  }

  /** What an instruction leaves in its destination if nothing outside matters. */
  function Own(p: Proto, f: Frame): Val
    requires f.ip < |p.code|
  {
    var i := p.code[f.ip];
    if i.Move? then At(f, i.src) else if i.GetGlobal? && i.name == p.name && !p.isMethod then SelfFn else Plain
  }

  /** The frame at `ip` after its instruction. */
  function Next(p: Proto, f: Frame, ip: nat): Frame {
    if f.ip < |p.code| then
      var i := p.code[f.ip];
      Frame(ip, seq(|f.regs|, r requires 0 <= r < |f.regs| => if Dst(i) == Some(r) then Own(p, f) else f.regs[r]), OpenAfter(i, f.open))
    else f
  }

  lemma {:induction false} NextPasses(p: Proto, f: Frame, a: Node, b: Node, o: nat)
    requires RegsInFrame(p) && Edge(p, a, b) && IsAt(f, o, a) && |f.regs| == p.numRegs
    ensures Passes(p, f, Next(p, f, b.ip), o) && IsAt(Next(p, f, b.ip), o, b) && |Next(p, f, b.ip).regs| == p.numRegs
  {
    var st, f' := State([], {}, o + 1), Next(p, f, b.ip);
    assert Advances(p, st, st, f, f', Own(p, f)) && Produces(p, st, st, f, Own(p, f));
    assert PassesBy(p, st, st, f, f', Own(p, f), o);
    hide Produces;
    assert a.reg < |f.regs|;
    if p.code[a.ip].Move? && p.code[a.ip].dst == b.reg {
      assert b.reg < p.numRegs;
    }
  }

  lemma {:induction false} CameFrom(p: Proto, f: Frame, f': Frame, o: nat, r: Reg) returns (from: Reg)
    requires Passes(p, f, f', o) && At(f', r) == Ref(o)
    ensures At(f, from) == Ref(o) && Edge(p, Node(f.ip, from), Node(f'.ip, r))
  {
    var st, st', v :| PassesBy(p, st, st', f, f', v, o);
    var i := p.code[f.ip];
    from := if i.Move? && i.dst == r then i.src else r;
  }

  lemma {:induction false} Grown(p: Proto, site: nat, dst: Reg, o: nat, frames: seq<Frame>, f: Frame)
    requires AfterSite(p, site, dst, o, frames) && frames[|frames| - 1].ip != site && Passes(p, frames[|frames| - 1], f, o)
    ensures AfterSite(p, site, dst, o, frames + [f])
  {
    assert (frames + [f])[..|frames|] == frames;
  }

  lemma {:induction false} Begun(p: Proto, site: nat, dst: Reg, o: nat, ip: nat)
    requires site < |p.code| && ip in Successors(p, site) && dst < p.numRegs
    ensures
      var f := Holding(p, ip, dst, o);
      AfterSite(p, site, dst, o, [f]) && IsAt(f, o, Node(ip, dst)) && |f.regs| == p.numRegs
  {
  }

  /** Each way the object can travel, some activation takes it. */
  lemma {:induction false} WalkIsTaken(p: Proto, site: nat, dst: Reg, o: nat, w: seq<Node>) returns (frames: seq<Frame>)
    requires RegsInFrame(p) && site < |p.code| && dst < p.numRegs && IsWalk(p, {site}, w) && w[0] in Origins(p, site, {dst})
    ensures |frames| > 0 && AfterSite(p, site, dst, o, frames) && IsAt(frames[|frames| - 1], o, w[|w| - 1]) && |frames[|frames| - 1].regs| == p.numRegs
    ensures w[|w| - 1].ip != site
    decreases |w|
  {
    hide AfterSite, Passes, Edge, Next, RegsInFrame, Holding;
    var k := |w|;
    if k == 1 {
      Begun(p, site, dst, o, w[0].ip);
      frames := [Holding(p, w[0].ip, dst, o)];
    } else {
      var before := WalkIsTaken(p, site, dst, o, w[..k - 1]);
      var f, a, b := before[|before| - 1], w[k - 2], w[k - 1];
      assert w[..k - 1][k - 2] == a;
      NextPasses(p, f, a, b, o);
      Grown(p, site, dst, o, before, Next(p, f, b.ip));
      frames := before + [Next(p, f, b.ip)];
    }
  }

  /** Whatever way an activation takes the object, it travelled. */
  lemma {:induction false} TakenIsHeld(p: Proto, site: nat, dst: Reg, o: nat, frames: seq<Frame>, r: Reg)
    requires AfterSite(p, site, dst, o, frames) && At(frames[|frames| - 1], r) == Ref(o) && frames[|frames| - 1].ip != site
    ensures site < |p.code| && Aliased(p, site, {dst}, Node(frames[|frames| - 1].ip, r))
    decreases |frames|
  {
    hide Passes, Reach, Edge;
    var k := |frames|;
    if k == 1 {
      ReachSeed(p, Origins(p, site, {dst}), {site}, Node(frames[0].ip, r));
    } else {
      var f, f' := frames[k - 2], frames[k - 1];
      var from := CameFrom(p, f, f', o, r);
      assert frames[..k - 1][k - 2] == f;
      TakenIsHeld(p, site, dst, o, frames[..k - 1], from);
      ReachStep(p, Origins(p, site, {dst}), {site}, Node(f.ip, from), Node(f'.ip, r));
    }
  }

  /** The analysis of a site looks in exactly the registers the site's newest object can be in
      while no instruction raises. */
  lemma {:induction false} SiteTrackedExactly(p: Proto, site: nat, dst: Reg, o: nat, n: Node)
    requires RegsInFrame(p) && site < |p.code| && Dst(p.code[site]) == Some(dst)
    ensures SiteHeld(p, site, n) <==> n.ip != site && CanBeAt(p, site, dst, o, n)
  {
    assert dst < p.numRegs;
    hide RegsInFrame, AfterSite, Edge, IsAt;
    if SiteHeld(p, site, n) {
      var w :| IsWalk(p, {site}, w) && w[0] in Origins(p, site, {dst}) && w[|w| - 1] == n;
      var frames := WalkIsTaken(p, site, dst, o, w);
    }
    if n.ip != site && CanBeAt(p, site, dst, o, n) {
      var frames: seq<Frame> :| |frames| > 0 && AfterSite(p, site, dst, o, frames) && IsAt(frames[|frames| - 1], o, n);
      IsThere(frames[|frames| - 1], o, n);
      TakenIsHeld(p, site, dst, o, frames, n.reg);
    }
  }

  lemma {:induction false} IsThere(f: Frame, o: nat, n: Node)
    requires IsAt(f, o, n)
    ensures f.ip == n.ip && At(f, n.reg) == Ref(o)
  {
  }

  // ----- second names -----

  /** The instruction about to run copies `o`. */
  predicate Copies(p: Proto, f: Frame, o: nat) {
    f.ip < |p.code| && p.code[f.ip].Move? && At(f, p.code[f.ip].src) == Ref(o)
  }

  lemma {:induction false} StayIsTaken(p: Proto, site: nat, dst: Reg, o: nat, w: seq<nat>) returns (frames: seq<Frame>)
    requires RegsInFrame(p) && site < |p.code| && dst < p.numRegs && StayPath(p, site, dst, w)
    ensures |frames| > 0 && AfterSite(p, site, dst, o, frames) && IsAt(frames[|frames| - 1], o, Node(w[|w| - 1], dst)) && |frames[|frames| - 1].regs| == p.numRegs
    decreases |w|
  {
    hide AfterSite, Passes, Edge, Next, RegsInFrame, Holding;
    var k := |w|;
    if k == 1 || w[k - 2] == site {
      Begun(p, site, dst, o, w[k - 1]);
      frames := [Holding(p, w[k - 1], dst, o)];
    } else {
      var before := StayIsTaken(p, site, dst, o, w[..k - 1]);
      var f, a, b := before[|before| - 1], Node(w[k - 2], dst), Node(w[k - 1], dst);
      assert w[..k - 1][k - 2] == w[k - 2];
      StaysByEdge(p, site, dst, w[k - 2], w[k - 1]);
      NextPasses(p, f, a, b, o);
      IsThere(f, o, a);
      Grown(p, site, dst, o, before, Next(p, f, b.ip));
      frames := before + [Next(p, f, b.ip)];
    }
  }

  lemma {:induction false} StaysByEdge(p: Proto, site: nat, dst: Reg, ip: nat, next: nat)
    requires Survives(p, site, dst, ip) && ip != site && next in Successors(p, ip)
    ensures Edge(p, Node(ip, dst), Node(next, dst))
  {
  }

  ghost predicate OnlyIn(f: Frame, o: nat, dst: Reg) {
    forall r: Reg :: At(f, r) == Ref(o) ==> r == dst
  }

  /** Until it is copied the object is in its destination only, and stays there. */
  lemma {:induction false} UncopiedStays(p: Proto, site: nat, dst: Reg, o: nat, frames: seq<Frame>)
    requires AfterSite(p, site, dst, o, frames) && site < |p.code|
    ensures
      var f := frames[|frames| - 1];
      GetsSecondName(p, site, dst) || (OnlyIn(f, o, dst) && (At(f, dst) == Ref(o) ==> Stays(p, site, dst, f.ip)))
    decreases |frames|
  {
    hide Passes, Stays;
    var k := |frames|;
    if k == 1 {
      StaysFromSite(p, site, dst, frames[0].ip);
    } else {
      var f, f' := frames[k - 2], frames[k - 1];
      assert frames[..k - 1][k - 2] == f;
      UncopiedStays(p, site, dst, o, frames[..k - 1]);
      forall r: Reg | At(f', r) == Ref(o) && !GetsSecondName(p, site, dst)
        ensures r == dst && Stays(p, site, dst, f'.ip)
      {
        UncopiedStep(p, site, dst, o, f, f', r);
      }
    }
  }

  lemma {:induction false} UncopiedStep(p: Proto, site: nat, dst: Reg, o: nat, f: Frame, f': Frame, r: Reg)
    requires site < |p.code| && !GetsSecondName(p, site, dst) && f.ip != site && Passes(p, f, f', o) && At(f', r) == Ref(o)
    requires OnlyIn(f, o, dst) && (At(f, dst) == Ref(o) ==> Stays(p, site, dst, f.ip))
    ensures r == dst && Stays(p, site, dst, f'.ip)
  {
    hide Passes, Stays;
    var from := CameFrom(p, f, f', o, r);
    assert from == dst && !CopiesAt(p, dst, f.ip);
    StaysStep(p, site, dst, f.ip, f'.ip);
  }

  /** The sweep answers yes exactly when some activation copies the object the site made. */
  lemma {:induction false} SecondNameExactly(p: Proto, site: nat, dst: Reg, o: nat)
    requires RegsInFrame(p) && site < |p.code| && dst < p.numRegs
    ensures GetsSecondName(p, site, dst) <==>
            exists frames: seq<Frame> :: |frames| > 0 && AfterSite(p, site, dst, o, frames) && Copies(p, frames[|frames| - 1], o)
  {
    hide RegsInFrame, AfterSite;
    if GetsSecondName(p, site, dst) {
      var k: nat :| CopiesAt(p, dst, k) && Stays(p, site, dst, k);
      var w :| StayPath(p, site, dst, w) && w[|w| - 1] == k;
      var frames := StayIsTaken(p, site, dst, o, w);
      assert Copies(p, frames[|frames| - 1], o);
    }
    if frames: seq<Frame> :| |frames| > 0 && AfterSite(p, site, dst, o, frames) && Copies(p, frames[|frames| - 1], o) {
      UncopiedStays(p, site, dst, o, frames);
      var f := frames[|frames| - 1];
      assert OnlyIn(f, o, dst) ==> CopiesAt(p, dst, f.ip);
    }
  }
}
