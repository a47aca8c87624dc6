/** The escape analysis proper: which uses of a register let its value leave the function, and the worklist loops that ask whether a tracked value can meet such a use. */
module Escape {
  import opened Shapes
  import opened Flow
  import opened Spread

  /** Field names of one class that no method of that class shadows; `None` when nothing
      is known about the class. */
  type FieldSafety = Option<set<string>>

  /** Whether reading `r` at `i` lets the value out. Everything not verified safe does. */
  predicate EscapingRead(i: Shape, r: Reg) {
    match i
    case Equality(_, a, b) => r == a || r == b
    case Call(_, f, n) => f <= r <= f + n
    case Return(s) => r == s
    case GetField(_, o, _) => r == o
    case Other(_, escaping) => r in escaping
    case _ => false
  }

  predicate CapturesReg(i: Shape, r: Reg) {
    i.Closure? && r in i.captures
  }

  /** The right operand of the comparison at `ip` is the `nil` or bool the instruction just
      before loaded, with no other way into the comparison. */
  predicate ComparesWithPlain(p: Proto, ip: nat, b: Reg)
    requires ip < |p.code|
  {
    && ip > 0
    && Preds(p, ip) == {ip - 1}
    && p.code[ip - 1].LoadPlain?
    && p.code[ip - 1].dst == b
  }

  predicate IsSelfCall(i: Shape, selfRefAt: set<Reg>) {
    i.Call? && i.func in selfRefAt
  }

  /** A self-recursive call hands `r` to a parameter that escapes, or to none at all. */
  predicate SelfCallEscapes(i: Shape, escapes: seq<bool>, r: Reg)
    requires i.Call?
  {
    && i.func < r <= i.func + i.numArgs
    && (r - i.func - 1 < |escapes| ==> escapes[r - i.func - 1])
  }

  predicate SelfFieldSafe(p: Proto, name: string, safety: FieldSafety) {
    safety.Some? && p.hasOwningClass && name in safety.value
  }

  predicate TrackedFieldSafe(name: string, safety: FieldSafety) {
    safety.Some? && name in safety.value
  }

  /** Whether a parameter held in `n.reg` escapes at `n.ip`. */
  predicate ParamEscapesAt(p: Proto, selfRef: seq<set<Reg>>, guess: seq<bool>, safety: FieldSafety, n: Node)
    requires n.ip < |p.code| == |selfRef|
  {
    var i := p.code[n.ip];
    || CapturesReg(i, n.reg)
    || (if IsSelfCall(i, selfRef[n.ip]) then SelfCallEscapes(i, guess, n.reg)
        else if i.GetField? && i.obj == 0 && p.isMethod then n.reg == 0 && !SelfFieldSafe(p, i.name, safety)
        else if i.Equality? && ComparesWithPlain(p, n.ip, i.b) then false
        else EscapingRead(i, n.reg))
  }

  /** Whether an allocation held in `n.reg` escapes at `n.ip`. */
  predicate SiteEscapesAt(p: Proto, selfRef: seq<set<Reg>>, summary: seq<bool>, selfSafety: FieldSafety, safety: FieldSafety, n: Node)
    requires n.ip < |p.code| == |selfRef|
  {
    var i := p.code[n.ip];
    || CapturesReg(i, n.reg)
    || (if IsSelfCall(i, selfRef[n.ip]) then SelfCallEscapes(i, summary, n.reg)
        else if i.GetField? then
          && n.reg == i.obj
          && (if i.obj == 0 && p.isMethod then !SelfFieldSafe(p, i.name, selfSafety)
              else !TrackedFieldSafe(i.name, safety))
        else if i.Equality? && ComparesWithPlain(p, n.ip, i.b) then false
        else EscapingRead(i, n.reg))
  }

  /** Where parameter `i` may be, on some control-flow path from the entry that does not
      come back to it. */
  ghost predicate ParamHeld(p: Proto, i: Reg, n: Node) {
    && |p.code| > 0
    && (n == Node(0, i) || Aliased(p, 0, MayTransfer(p.code[0], {i}), n))
  }

  /** Where the value the instruction at `site` left in its destination may be, on some
      path that does not come back to the site. */
  ghost predicate SiteHeld(p: Proto, site: nat, n: Node) {
    && site < |p.code|
    && Dst(p.code[site]).Some?
    && Aliased(p, site, {Dst(p.code[site]).value}, n)
  }

  ghost predicate ParamEscapes(p: Proto, i: Reg, selfRef: seq<set<Reg>>, guess: seq<bool>, safety: FieldSafety)
    requires |p.code| == |selfRef|
  {
    exists n: Node :: n.ip < |p.code| && ParamHeld(p, i, n) && ParamEscapesAt(p, selfRef, guess, safety, n)
  }

  ghost predicate SiteEscapes(p: Proto, site: nat, selfRef: seq<set<Reg>>, summary: seq<bool>, selfSafety: FieldSafety, safety: FieldSafety)
    requires |p.code| == |selfRef|
  {
    exists n: Node :: n.ip < |p.code| && SiteHeld(p, site, n) && SiteEscapesAt(p, selfRef, summary, selfSafety, safety, n)
  }

  /** The source of a loop, once processed, leaves its value behind for its successors. */
  lemma SourceFires(p: Proto, f: nat, start: set<Reg>, entry: seq<set<Reg>>, out: seq<set<Reg>>, worklist: set<nat>)
    requires Growing(p, f, start, entry, out, worklist)
    ensures Growing(p, f, start, entry, out[f := start], worklist - {f} + Successors(p, f))
  {
    WideningKeepsUnions(p, out, out[f := start], f);
  }

  predicate ParamEscapesAmong(p: Proto, selfRef: seq<set<Reg>>, guess: seq<bool>, safety: FieldSafety, ip: nat, regs: set<Reg>)
    requires ip < |p.code| == |selfRef|
  {
    exists r :: r in regs && ParamEscapesAt(p, selfRef, guess, safety, Node(ip, r))
  }

  /** What holds between turns of the loop over one parameter. */
  ghost predicate ParamLoop(p: Proto, param: Reg, selfRef: seq<set<Reg>>, guess: seq<bool>, safety: FieldSafety,
                            entry: seq<set<Reg>>, out: seq<set<Reg>>, worklist: set<nat>, escaped: bool)
    requires |p.code| == |selfRef|
  {
    && |p.code| > 0
    && Growing(p, 0, MayTransfer(p.code[0], {param}), entry, out, worklist)
    && entry[0] == {param}
    && (escaped ==> ParamEscapes(p, param, selfRef, guess, safety))
    && (!escaped ==> forall k: nat :: k < |p.code| && (k != 0 || 0 !in worklist) ==>
                       !ParamEscapesAmong(p, selfRef, guess, safety, k, entry[k]))
  }

  lemma ParamLoopStarts(p: Proto, param: Reg, selfRef: seq<set<Reg>>, guess: seq<bool>, safety: FieldSafety,
                        entry: seq<set<Reg>>, out: seq<set<Reg>>)
    requires RegsInFrame(p) && param < p.numRegs && 0 < |p.code| == |selfRef| == |entry| == |out|
    requires forall k :: 0 <= k < |entry| ==> entry[k] == (if k == 0 then {param} else {}) && out[k] == {}
    ensures ParamLoop(p, param, selfRef, guess, safety, entry, out, {0}, false)
  {
    assert InFrame(p, param) && forall d :: Dst(p.code[0]) == Some(d) ==> InFrame(p, d);
  }

  lemma ParamTurnAtEntry(p: Proto, param: Reg, selfRef: seq<set<Reg>>, guess: seq<bool>, safety: FieldSafety,
                         entry: seq<set<Reg>>, out: seq<set<Reg>>, worklist: set<nat>, escaped: bool)
    requires |p.code| == |selfRef| && ParamLoop(p, param, selfRef, guess, safety, entry, out, worklist, escaped)
    ensures ParamLoop(p, param, selfRef, guess, safety, entry, out[0 := MayTransfer(p.code[0], {param})],
                      worklist - {0} + Successors(p, 0),
                      escaped || ParamEscapesAmong(p, selfRef, guess, safety, 0, entry[0]))
  {
    SourceFires(p, 0, MayTransfer(p.code[0], {param}), entry, out, worklist);
    if ParamEscapesAmong(p, selfRef, guess, safety, 0, entry[0]) {
      assert ParamHeld(p, param, Node(0, param));
    }
  }

  lemma ParamTurn(p: Proto, param: Reg, selfRef: seq<set<Reg>>, guess: seq<bool>, safety: FieldSafety,
                  entry: seq<set<Reg>>, out: seq<set<Reg>>, worklist: set<nat>, escaped: bool, ip: nat, queued: set<nat>)
    requires RegsInFrame(p) && |p.code| == |selfRef| && 0 < ip < |p.code|
    requires ParamLoop(p, param, selfRef, guess, safety, entry, out, worklist, escaped)
    requires queued <= Successors(p, ip)
    requires MayTransfer(p.code[ip], Union(p, out, ip)) == out[ip] || Successors(p, ip) - {0} <= queued
    ensures
      var newIn := Union(p, out, ip);
      && entry[ip] <= newIn <= AllRegs(p)
      && ParamLoop(p, param, selfRef, guess, safety, entry[ip := newIn], out[ip := MayTransfer(p.code[ip], newIn)],
                   worklist - {ip} + queued,
                   escaped || ParamEscapesAmong(p, selfRef, guess, safety, ip, newIn))
  {
    var start := MayTransfer(p.code[0], {param});
    var newIn := Union(p, out, ip);
    GrowOne(p, 0, start, entry, out, worklist, ip, queued);
    if ParamEscapesAmong(p, selfRef, guess, safety, ip, newIn) {
      var r :| r in newIn && ParamEscapesAt(p, selfRef, guess, safety, Node(ip, r));
      UnionIsAliased(p, 0, start, entry, out, worklist, ip, r);
      assert ParamHeld(p, param, Node(ip, r));
    }
  }

  /** A turn that finds its position up to date only takes it off the worklist. */
  lemma ParamTurnIdle(p: Proto, param: Reg, selfRef: seq<set<Reg>>, guess: seq<bool>, safety: FieldSafety,
                      entry: seq<set<Reg>>, out: seq<set<Reg>>, worklist: set<nat>, escaped: bool, ip: nat)
    requires RegsInFrame(p) && |p.code| == |selfRef| && 0 < ip < |p.code|
    requires ParamLoop(p, param, selfRef, guess, safety, entry, out, worklist, escaped)
    requires Union(p, out, ip) == entry[ip]
    ensures ParamLoop(p, param, selfRef, guess, safety, entry, out, worklist - {ip}, escaped)
  {
  }

  lemma ParamLoopEnds(p: Proto, param: Reg, selfRef: seq<set<Reg>>, guess: seq<bool>, safety: FieldSafety,
                      entry: seq<set<Reg>>, out: seq<set<Reg>>, escaped: bool)
    requires |p.code| == |selfRef| && ParamLoop(p, param, selfRef, guess, safety, entry, out, {}, escaped)
    ensures escaped <==> ParamEscapes(p, param, selfRef, guess, safety)
  {
    GrowingEnds(p, 0, MayTransfer(p.code[0], {param}), entry, out);
    if ParamEscapes(p, param, selfRef, guess, safety) {
      var n: Node :| n.ip < |p.code| && ParamHeld(p, param, n) && ParamEscapesAt(p, selfRef, guess, safety, n);
      assert n == Node(n.ip, n.reg) && n.reg in entry[n.ip];
      assert ParamEscapesAmong(p, selfRef, guess, safety, n.ip, entry[n.ip]);
    }
  }

  /** One turn of the loop at a position other than the entry. */
  method ReviseParam(p: Proto, param: Reg, selfRef: seq<set<Reg>>, guess: seq<bool>, safety: FieldSafety,
                     entry: seq<set<Reg>>, out: seq<set<Reg>>, worklist: set<nat>, escaped: bool, ip: nat)
    returns (entry': seq<set<Reg>>, out': seq<set<Reg>>, worklist': set<nat>, escaped': bool)
    requires RegsInFrame(p) && |p.code| == |selfRef| && 0 < ip && ip in worklist
    requires ParamLoop(p, param, selfRef, guess, safety, entry, out, worklist, escaped)
    ensures ParamLoop(p, param, selfRef, guess, safety, entry', out', worklist', escaped')
    ensures Missing(p, entry') < Missing(p, entry) || (entry' == entry && worklist' < worklist)
  {
    var newIn := Union(p, out, ip);
    if newIn == entry[ip] {
      ParamTurnIdle(p, param, selfRef, guess, safety, entry, out, worklist, escaped, ip);
      return entry, out, worklist - {ip}, escaped;
    }
    var newOut := MayTransfer(p.code[ip], newIn);
    var queued := if newOut != out[ip] then Successors(p, ip) else {};
    ParamTurn(p, param, selfRef, guess, safety, entry, out, worklist, escaped, ip, queued);
    GrowthFills(p, entry, ip, newIn);
    escaped' := escaped || ParamEscapesAmong(p, selfRef, guess, safety, ip, newIn);
    entry', out', worklist' := entry[ip := newIn], out[ip := newOut], worklist - {ip} + queued;
  }

  /** Does parameter `param` escape, given a guess for the parameters of self-recursive
      calls? Exactly when some control-flow path brings it to an escaping use. */
  method AnalyzeParamEscape(p: Proto, param: Reg, selfRef: seq<set<Reg>>, guess: seq<bool>, safety: FieldSafety) returns (escaped: bool)
    requires RegsInFrame(p) && param < p.numRegs && |selfRef| == |p.code|
    requires |p.code| > 0 ==> 0 !in Successors(p, 0)
    ensures escaped <==> ParamEscapes(p, param, selfRef, guess, safety)
  {
    escaped := false;
    var n := |p.code|;
    if n == 0 {
      return;
    }
    var entry := seq(n, ip => if ip == 0 then {param} else {});
    var out: seq<set<Reg>> := seq(n, _ => {});
    var worklist: set<nat> := {0};
    ParamLoopStarts(p, param, selfRef, guess, safety, entry, out);

    while worklist != {}
      invariant ParamLoop(p, param, selfRef, guess, safety, entry, out, worklist, escaped)
      decreases Missing(p, entry), 0 in worklist, worklist
    {
      FirstExists(worklist);
      var ip :| ip in worklist && forall k :: k in worklist ==> ip <= k;
      if ip == 0 {
        // The entry keeps its seed, and always passes it on.
        ParamTurnAtEntry(p, param, selfRef, guess, safety, entry, out, worklist, escaped);
        escaped := escaped || ParamEscapesAmong(p, selfRef, guess, safety, 0, entry[0]);
        out := out[0 := MayTransfer(p.code[0], {param})];
        worklist := worklist - {0} + Successors(p, 0);
      } else {
        entry, out, worklist, escaped := ReviseParam(p, param, selfRef, guess, safety, entry, out, worklist, escaped, ip);
      }
    }
    ParamLoopEnds(p, param, selfRef, guess, safety, entry, out, escaped);
  }

  predicate SiteEscapesAmong(p: Proto, selfRef: seq<set<Reg>>, summary: seq<bool>, selfSafety: FieldSafety, safety: FieldSafety,
                             ip: nat, regs: set<Reg>)
    requires ip < |p.code| == |selfRef|
  {
    exists r :: r in regs && SiteEscapesAt(p, selfRef, summary, selfSafety, safety, Node(ip, r))
  }

  /** What holds between turns of the loop over one allocation site. */
  ghost predicate SiteLoop(p: Proto, site: nat, reg: Reg, selfRef: seq<set<Reg>>, summary: seq<bool>, selfSafety: FieldSafety, safety: FieldSafety,
                           entry: seq<set<Reg>>, out: seq<set<Reg>>, worklist: set<nat>, escaped: bool)
    requires |p.code| == |selfRef|
  {
    && Growing(p, site, {reg}, entry, out, worklist)
    && site !in worklist
    && entry[site] == {}
    && (escaped ==> SiteEscapes(p, site, selfRef, summary, selfSafety, safety))
    && (!escaped ==> forall k: nat :: k < |p.code| ==>
                       !SiteEscapesAmong(p, selfRef, summary, selfSafety, safety, k, entry[k]))
  }

  lemma SiteTurn(p: Proto, site: nat, reg: Reg, selfRef: seq<set<Reg>>, summary: seq<bool>, selfSafety: FieldSafety, safety: FieldSafety,
                 entry: seq<set<Reg>>, out: seq<set<Reg>>, worklist: set<nat>, escaped: bool, ip: nat, queued: set<nat>)
    requires RegsInFrame(p) && |p.code| == |selfRef| && ip < |p.code| && ip != site
    requires SiteLoop(p, site, reg, selfRef, summary, selfSafety, safety, entry, out, worklist, escaped)
    requires Dst(p.code[site]) == Some(reg)
    requires queued <= Successors(p, ip) - {site}
    requires MayTransfer(p.code[ip], Union(p, out, ip)) == out[ip] || Successors(p, ip) - {site} <= queued
    ensures
      var newIn := Union(p, out, ip);
      && entry[ip] <= newIn <= AllRegs(p)
      && SiteLoop(p, site, reg, selfRef, summary, selfSafety, safety, entry[ip := newIn], out[ip := MayTransfer(p.code[ip], newIn)],
                  worklist - {ip} + queued,
                  escaped || SiteEscapesAmong(p, selfRef, summary, selfSafety, safety, ip, newIn))
  {
    var newIn := Union(p, out, ip);
    GrowOne(p, site, {reg}, entry, out, worklist, ip, queued);
    if SiteEscapesAmong(p, selfRef, summary, selfSafety, safety, ip, newIn) {
      var r :| r in newIn && SiteEscapesAt(p, selfRef, summary, selfSafety, safety, Node(ip, r));
      UnionIsAliased(p, site, {reg}, entry, out, worklist, ip, r);
      assert SiteHeld(p, site, Node(ip, r));
    }
  }

  lemma SiteTurnIdle(p: Proto, site: nat, reg: Reg, selfRef: seq<set<Reg>>, summary: seq<bool>, selfSafety: FieldSafety, safety: FieldSafety,
                     entry: seq<set<Reg>>, out: seq<set<Reg>>, worklist: set<nat>, escaped: bool, ip: nat)
    requires RegsInFrame(p) && |p.code| == |selfRef| && ip < |p.code| && ip != site
    requires SiteLoop(p, site, reg, selfRef, summary, selfSafety, safety, entry, out, worklist, escaped)
    requires Union(p, out, ip) == entry[ip]
    ensures SiteLoop(p, site, reg, selfRef, summary, selfSafety, safety, entry, out, worklist - {ip}, escaped)
  {
  }

  lemma SiteLoopEnds(p: Proto, site: nat, reg: Reg, selfRef: seq<set<Reg>>, summary: seq<bool>, selfSafety: FieldSafety, safety: FieldSafety,
                     entry: seq<set<Reg>>, out: seq<set<Reg>>, escaped: bool)
    requires |p.code| == |selfRef| && SiteLoop(p, site, reg, selfRef, summary, selfSafety, safety, entry, out, {}, escaped)
    requires Dst(p.code[site]) == Some(reg)
    ensures escaped <==> SiteEscapes(p, site, selfRef, summary, selfSafety, safety)
  {
    GrowingEnds(p, site, {reg}, entry, out);
    if SiteEscapes(p, site, selfRef, summary, selfSafety, safety) {
      var n: Node :| n.ip < |p.code| && SiteHeld(p, site, n) && SiteEscapesAt(p, selfRef, summary, selfSafety, safety, n);
      assert n == Node(n.ip, n.reg) && n.reg in entry[n.ip];
      assert SiteEscapesAmong(p, selfRef, summary, selfSafety, safety, n.ip, entry[n.ip]);
    }
  }

  /** Does the value the instruction at `site` leaves behind escape? Exactly when some
      path that does not come back to the site brings it to an escaping use. */
  method AnalyzeSite(p: Proto, site: nat, selfRef: seq<set<Reg>>, summary: seq<bool>, selfSafety: FieldSafety, safety: FieldSafety) returns (escaped: bool)
    requires RegsInFrame(p) && site < |p.code| == |selfRef|
    ensures escaped <==> Dst(p.code[site]).None? || SiteEscapes(p, site, selfRef, summary, selfSafety, safety)
  {
    if Dst(p.code[site]).None? {
      return true;
    }
    escaped := false;
    var n := |p.code|;
    var reg := Dst(p.code[site]).value;
    var entry: seq<set<Reg>> := seq(n, _ => {});
    // The site is never processed; its slot holds the seed from the start.
    var out: seq<set<Reg>> := seq(n, ip => if ip == site then {reg} else {});
    var worklist := Successors(p, site) - {site};
    assert InFrame(p, reg);
    assert forall k :: 0 <= k < n && k !in Successors(p, site) ==> site !in Preds(p, k);

    while worklist != {}
      invariant SiteLoop(p, site, reg, selfRef, summary, selfSafety, safety, entry, out, worklist, escaped)
      decreases Missing(p, entry), worklist
    {
      FirstExists(worklist);
      var ip :| ip in worklist && forall k :: k in worklist ==> ip <= k;
      var newIn := Union(p, out, ip);
      if newIn == entry[ip] {
        SiteTurnIdle(p, site, reg, selfRef, summary, selfSafety, safety, entry, out, worklist, escaped, ip);
        worklist := worklist - {ip};
      } else {
        var newOut := MayTransfer(p.code[ip], newIn);
        var queued := if newOut != out[ip] then Successors(p, ip) - {site} else {};
        SiteTurn(p, site, reg, selfRef, summary, selfSafety, safety, entry, out, worklist, escaped, ip, queued);
        GrowthFills(p, entry, ip, newIn);
        entry := entry[ip := newIn];
        escaped := escaped || SiteEscapesAmong(p, selfRef, summary, selfSafety, safety, ip, newIn);
        out := out[ip := newOut];
        worklist := worklist - {ip} + queued;
      }
    }
    SiteLoopEnds(p, site, reg, selfRef, summary, selfSafety, safety, entry, out, escaped);
  }
}
