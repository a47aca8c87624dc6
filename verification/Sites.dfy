/** Per-function facts about allocation sites: whether an allocation gets a second name, the parameter-escape summary, and the verdict that lets an object live in the frame. */
module Sites {
  import opened Shapes
  import opened Flow
  import opened Spread
  import opened Escape
  import MustFacts

  /** Positions the value in `dst` survives to, from just after `site`, with no other write
      to `dst` on the way. Passing the site again leaves a new value there. */
  ghost predicate StayPath(p: Proto, site: nat, dst: Reg, w: seq<nat>)
    requires site < |p.code|
  {
    var n := |w|;
    && n > 0
    && w[n - 1] < |p.code|
    && (if n == 1 then w[0] in Successors(p, site)
        else
          && StayPath(p, site, dst, w[..n - 1])
          && Survives(p, site, dst, w[n - 2])
          && w[n - 1] in Successors(p, w[n - 2]))
  }

  predicate Survives(p: Proto, site: nat, dst: Reg, ip: nat) {
    ip < |p.code| && (ip == site || Dst(p.code[ip]) != Some(dst))
  }

  ghost predicate Stays(p: Proto, site: nat, dst: Reg, ip: nat)
    requires site < |p.code|
  {
    exists w :: StayPath(p, site, dst, w) && w[|w| - 1] == ip
  }

  lemma StaysFromSite(p: Proto, site: nat, dst: Reg, ip: nat)
    requires site < |p.code| && ip in Successors(p, site)
    ensures Stays(p, site, dst, ip)
  {
    var w := [ip];
    assert StayPath(p, site, dst, w) && w[|w| - 1] == ip;
  }

  lemma StaysStep(p: Proto, site: nat, dst: Reg, ip: nat, next: nat)
    requires site < |p.code| && Stays(p, site, dst, ip) && Survives(p, site, dst, ip) && next in Successors(p, ip)
    ensures Stays(p, site, dst, next)
  {
    var w :| StayPath(p, site, dst, w) && w[|w| - 1] == ip;
    var w' := w + [next];
    assert w'[..|w'| - 1] == w;
    assert StayPath(p, site, dst, w') && w'[|w'| - 1] == next;
  }

  /** A move may copy the value the site leaves in `dst`, giving it a second name. */
  ghost predicate GetsSecondName(p: Proto, site: nat, dst: Reg)
    requires site < |p.code|
  {
    exists k: nat :: CopiesAt(p, dst, k) && Stays(p, site, dst, k)
  }

  predicate CopiesAt(p: Proto, dst: Reg, k: nat) {
    k < |p.code| && p.code[k].Move? && p.code[k].src == dst
  }

  predicate Enters(p: Proto, out: seq<bool>, ip: nat)
    requires |out| == |p.code|
  {
    exists q :: q in Preds(p, ip) && out[q]
  }

  predicate Leaves(p: Proto, site: nat, dst: Reg, ip: nat, entering: bool)
    requires ip < |p.code|
  {
    if ip == site then true else if Dst(p.code[ip]) == Some(dst) then false else entering
  }

  /** What a sweep keeps: a flag that is up is justified. */
  ghost predicate Justified(p: Proto, site: nat, dst: Reg, entry: seq<bool>, out: seq<bool>) {
    && site < |p.code| && |entry| == |out| == |p.code|
    && (forall k: nat :: k < |entry| && entry[k] ==> Stays(p, site, dst, k) && Enters(p, out, k))
    && (forall k: nat :: k < |out| && out[k] ==> Leaves(p, site, dst, k, entry[k]))
  }

  ghost predicate Settled(p: Proto, site: nat, dst: Reg, entry: seq<bool>, out: seq<bool>, k: nat)
    requires k < |entry| == |out| == |p.code|
  {
    entry[k] == Enters(p, out, k) && out[k] == Leaves(p, site, dst, k, entry[k])
  }

  ghost function Down(flags: seq<bool>): set<nat> {
    set k: nat | k < |flags| && !flags[k]
  }

  lemma FlagRaised(flags: seq<bool>, ip: nat)
    requires ip < |flags| && !flags[ip]
    ensures Down(flags[ip := true]) < Down(flags)
  {
    assert ip in Down(flags) && ip !in Down(flags[ip := true]);
  }

  lemma EntersGrows(p: Proto, out: seq<bool>, ip: nat, k: nat, o: bool)
    requires |out| == |p.code| && ip < |p.code| && (out[ip] ==> o) && Enters(p, out, k)
    ensures Enters(p, out[ip := o], k)
  {
    var q :| q in Preds(p, k) && out[q];
    assert out[ip := o][q];
  }

  /** A flag is only raised where the value stays. */
  lemma EnteringStays(p: Proto, site: nat, dst: Reg, entry: seq<bool>, out: seq<bool>, ip: nat)
    requires Justified(p, site, dst, entry, out) && ip < |p.code| && Enters(p, out, ip)
    ensures Stays(p, site, dst, ip)
  {
    var q :| q in Preds(p, ip) && out[q];
    if q == site {
      StaysFromSite(p, site, dst, ip);
    } else {
      StaysStep(p, site, dst, q, ip);
    }
  }

  lemma RaiseFlags(p: Proto, site: nat, dst: Reg, entry: seq<bool>, out: seq<bool>, ip: nat)
    requires Justified(p, site, dst, entry, out) && ip < |p.code|
    ensures
      var e := Enters(p, out, ip);
      var o := Leaves(p, site, dst, ip, e);
      && (entry[ip] ==> e) && (out[ip] ==> o)
      && Justified(p, site, dst, entry[ip := e], out[ip := o])
  {
    var e := Enters(p, out, ip);
    var o := Leaves(p, site, dst, ip, e);
    if e {
      EnteringStays(p, site, dst, entry, out, ip);
    }
    forall k: nat | k < |p.code| && entry[ip := e][k]
      ensures Stays(p, site, dst, k) && Enters(p, out[ip := o], k)
    {
      EntersGrows(p, out, ip, k, o);
    }
  }

  lemma {:induction false} SettledHoldsPath(p: Proto, site: nat, dst: Reg, entry: seq<bool>, out: seq<bool>, w: seq<nat>)
    requires site < |p.code| && |entry| == |out| == |p.code|
    requires forall k: nat :: k < |p.code| ==> Settled(p, site, dst, entry, out, k)
    requires StayPath(p, site, dst, w)
    ensures entry[w[|w| - 1]]
  {
    var n := |w|;
    var last := w[n - 1];
    assert Settled(p, site, dst, entry, out, last);
    if n == 1 {
      assert Settled(p, site, dst, entry, out, site);
      assert site in Preds(p, last) && out[site];
    } else {
      SettledHoldsPath(p, site, dst, entry, out, w[..n - 1]);
      assert Settled(p, site, dst, entry, out, w[n - 2]);
      assert w[n - 2] in Preds(p, last) && out[w[n - 2]];
    }
  }

  /** One pass over the code in order, raising every flag its neighbours now justify. */
  method Sweep(p: Proto, site: nat, dst: Reg, entry: seq<bool>, out: seq<bool>) returns (entry': seq<bool>, out': seq<bool>, changed: bool)
    requires Justified(p, site, dst, entry, out)
    ensures Justified(p, site, dst, entry', out')
    ensures changed ==> Down(entry') < Down(entry) || (Down(entry') == Down(entry) && Down(out') < Down(out))
    ensures !changed ==> entry' == entry && out' == out && forall k: nat :: k < |p.code| ==> Settled(p, site, dst, entry, out, k)
  {
    entry', out', changed := entry, out, false;
    for ip := 0 to |p.code|
      invariant Justified(p, site, dst, entry', out')
      invariant Down(entry') <= Down(entry) && Down(out') <= Down(out)
      invariant changed ==> Down(entry') < Down(entry) || Down(out') < Down(out)
      invariant !changed ==> entry' == entry && out' == out && forall k: nat :: k < ip ==> Settled(p, site, dst, entry, out, k)
    {
      RaiseFlags(p, site, dst, entry', out', ip);
      var newEntry := Enters(p, out', ip);
      var newOut := Leaves(p, site, dst, ip, newEntry);
      if newEntry != entry'[ip] || newOut != out'[ip] {
        if newEntry != entry'[ip] {
          FlagRaised(entry', ip);
        }
        if newOut != out'[ip] {
          FlagRaised(out', ip);
        }
        entry', out', changed := entry'[ip := newEntry], out'[ip := newOut], true;
      }
    }
  }

  /** Whether the value an allocation leaves in `dst` may be copied to another register. */
  method MovedElsewhere(p: Proto, site: nat, dst: Reg) returns (moved: bool)
    requires site < |p.code|
    ensures moved <==> GetsSecondName(p, site, dst)
  {
    var n := |p.code|;
    var entry, out := seq(n, _ => false), seq(n, _ => false);
    var changed := true;
    while changed
      invariant Justified(p, site, dst, entry, out)
      invariant !changed ==> forall k: nat :: k < n ==> Settled(p, site, dst, entry, out, k)
      decreases changed, Down(entry), Down(out)
    {
      entry, out, changed := Sweep(p, site, dst, entry, out);
    }
    moved := exists k :: 0 <= k < n && CopiesAt(p, dst, k) && entry[k];
    if GetsSecondName(p, site, dst) {
      var k: nat :| CopiesAt(p, dst, k) && Stays(p, site, dst, k);
      var w :| StayPath(p, site, dst, w) && w[|w| - 1] == k;
      SettledHoldsPath(p, site, dst, entry, out, w);
    }
  }

  /** A summary no parameter of which escapes unless it says so. */
  ghost predicate Covers(p: Proto, selfRef: seq<set<Reg>>, safety: FieldSafety, summary: seq<bool>)
    requires |p.code| == |selfRef|
  {
    && |summary| == p.arity
    && forall i: nat :: i < p.arity && ParamEscapes(p, i, selfRef, summary, safety) ==> summary[i]
  }

  ghost predicate Below(a: seq<bool>, b: seq<bool>) {
    |a| == |b| && forall i :: 0 <= i < |a| && a[i] ==> b[i]
  }

  /** A bolder guess never makes a parameter stop escaping. */
  lemma EscapeIsMonotone(p: Proto, i: nat, selfRef: seq<set<Reg>>, safety: FieldSafety, g: seq<bool>, h: seq<bool>)
    requires |p.code| == |selfRef| && Below(g, h)
    requires ParamEscapes(p, i, selfRef, g, safety)
    ensures ParamEscapes(p, i, selfRef, h, safety)
  {
    var n: Node :| n.ip < |p.code| && ParamHeld(p, i, n) && ParamEscapesAt(p, selfRef, g, safety, n);
    assert ParamEscapesAt(p, selfRef, h, safety, n);
  }

  function CountUp(g: seq<bool>): nat {
    if |g| == 0 then 0 else (if g[|g| - 1] then 1 else 0) + CountUp(g[..|g| - 1])
  }

  lemma CountUpBounds(g: seq<bool>)
    ensures CountUp(g) <= |g|
  {
  }

  lemma {:induction false} CountUpGrows(g: seq<bool>, h: seq<bool>)
    requires Below(g, h)
    ensures CountUp(g) <= CountUp(h)
    ensures g != h ==> CountUp(g) < CountUp(h)
  {
    if |g| > 0 {
      var n := |g| - 1;
      CountUpGrows(g[..n], h[..n]);
      assert g == g[..n] + [g[n]] && h == h[..n] + [h[n]];
    }
  }

  /** One round: every parameter not yet known to escape is asked again. */
  method Round(p: Proto, selfRef: seq<set<Reg>>, safety: FieldSafety, guess: seq<bool>) returns (next: seq<bool>)
    requires RegsInFrame(p) && p.arity <= p.numRegs && |selfRef| == |p.code| && |guess| == p.arity
    requires |p.code| > 0 ==> 0 !in Successors(p, 0)
    ensures |next| == p.arity
    ensures forall i: nat :: i < p.arity ==> (next[i] <==> guess[i] || ParamEscapes(p, i, selfRef, guess, safety))
  {
    next := guess;
    for i := 0 to p.arity
      invariant |next| == p.arity
      invariant forall k: nat :: k < i ==> (next[k] <==> guess[k] || ParamEscapes(p, k, selfRef, guess, safety))
      invariant forall k: nat :: i <= k < p.arity ==> next[k] == guess[k]
    {
      if !guess[i] {
        var escaped := AnalyzeParamEscape(p, i, selfRef, guess, safety);
        next := next[i := escaped];
      }
    }
  }

  /** The parameter-escape summary: the least one that covers itself, found from "nothing
      escapes" in at most arity + 1 rounds. */
  method ParamSummary(p: Proto, selfRef: seq<set<Reg>>, safety: FieldSafety) returns (summary: seq<bool>, ghost rounds: nat)
    requires RegsInFrame(p) && p.arity <= p.numRegs && |selfRef| == |p.code|
    requires |p.code| > 0 ==> 0 !in Successors(p, 0)
    ensures |summary| == p.arity
    ensures forall i: nat :: i < p.arity ==> (summary[i] <==> ParamEscapes(p, i, selfRef, summary, safety))
    ensures forall other :: Covers(p, selfRef, safety, other) ==> Below(summary, other)
    ensures rounds <= p.arity + 1
  {
    summary, rounds := seq(p.arity, _ => false), 0;
    var changed := p.arity > 0;
    while changed
      invariant |summary| == p.arity
      invariant forall i: nat :: i < p.arity && summary[i] ==> ParamEscapes(p, i, selfRef, summary, safety)
      invariant forall other :: Covers(p, selfRef, safety, other) ==> Below(summary, other)
      invariant !changed ==> forall i: nat :: i < p.arity && ParamEscapes(p, i, selfRef, summary, safety) ==> summary[i]
      invariant rounds <= CountUp(summary) + (if changed then 0 else 1)
      decreases changed, p.arity - CountUp(summary)
    {
      var next := Round(p, selfRef, safety, summary);
      CountUpGrows(summary, next);
      CountUpBounds(next);
      forall i: nat | i < p.arity && next[i]
        ensures ParamEscapes(p, i, selfRef, next, safety)
      {
        EscapeIsMonotone(p, i, selfRef, safety, summary, next);
      }
      forall other | Covers(p, selfRef, safety, other)
        ensures Below(next, other)
      {
        forall i: nat | i < p.arity && next[i]
          ensures other[i]
        {
          if !summary[i] {
            EscapeIsMonotone(p, i, selfRef, safety, summary, other);
          }
        }
      }
      changed := next != summary;
      summary, rounds := next, rounds + 1;
    }
    CountUpBounds(summary);
  }

  /** Everything the verdict on a site rests on. */
  datatype SiteFacts = SiteFacts(selfRef: seq<set<Reg>>, summary: seq<bool>)

  /** Facts worth acting on: exact self-references, and a summary that covers itself. */
  ghost predicate FactsHold(p: Proto, facts: SiteFacts) {
    && |facts.selfRef| == |p.code|
    && (if p.isMethod then forall ip :: 0 <= ip < |p.code| ==> facts.selfRef[ip] == {}
        else MustFacts.Exact(p, p.name, facts.selfRef))
    && Covers(p, facts.selfRef, None, facts.summary)
  }

  method GatherFacts(p: Proto) returns (facts: SiteFacts)
    requires RegsInFrame(p) && p.arity <= p.numRegs
    requires |p.code| > 0 ==> 0 !in Successors(p, 0)
    ensures FactsHold(p, facts)
    ensures forall other :: Covers(p, facts.selfRef, None, other) ==> Below(facts.summary, other)
  {
    var selfRef := MustFacts.SelfReferenceFacts(p);
    var summary, _ := ParamSummary(p, selfRef, None);
    facts := SiteFacts(selfRef, summary);
  }

  /** The object an allocation at `site` puts in `dst` keeps that one name and never meets
      an escaping use. */
  ghost predicate StaysInPlace(p: Proto, facts: SiteFacts, site: nat, dst: Reg, safety: set<string>)
    requires site < |p.code| == |facts.selfRef|
  {
    && !GetsSecondName(p, site, dst)
    && Dst(p.code[site]).Some?
    && !SiteEscapes(p, site, facts.selfRef, facts.summary, None, Some(safety))
  }

  method InPlace(p: Proto, facts: SiteFacts, site: nat, dst: Reg, safety: set<string>) returns (verdict: bool)
    requires RegsInFrame(p) && site < |p.code| == |facts.selfRef|
    ensures verdict <==> StaysInPlace(p, facts, site, dst, safety)
  {
    var moved := MovedElsewhere(p, site, dst);
    if moved {
      return false;
    }
    var escaped := AnalyzeSite(p, site, facts.selfRef, facts.summary, None, Some(safety));
    verdict := !escaped;
  }
}
