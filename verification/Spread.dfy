/** The "may" half of the escape analysis: the registers one tracked value may have been copied into, grown by union from the instruction that introduces it. */
module Spread {
  import opened Shapes
  import opened Flow

  /** Where a value can turn up, when instruction `f` has just left it in the registers
      `start` and `f` itself is never passed again. */
  ghost predicate Aliased(p: Proto, f: nat, start: set<Reg>, n: Node)
    requires f < |p.code|
  {
    Reach(p, Origins(p, f, start), {f}, n)
  }

  ghost function Origins(p: Proto, f: nat, start: set<Reg>): iset<Node>
    requires f < |p.code|
  {
    iset n: Node | n.ip in Successors(p, f) && n.ip != f && n.reg in start
  }

  /** Union of what the predecessors of `ip` may leave behind. */
  function Union(p: Proto, out: seq<set<Reg>>, ip: nat): set<Reg>
    requires |out| == |p.code|
  {
    set q, r | q in Preds(p, ip) && r in out[q] :: r
  }

  /** Nodes not yet in the table: what is left for the loop to add. */
  ghost function Missing(p: Proto, entry: seq<set<Reg>>): set<Node>
    requires |entry| == |p.code|
  {
    set ip, r | ip in Positions(p) && r in AllRegs(p) && r !in entry[ip] :: Node(ip, r)
  }

  /** What holds between turns of a worklist loop whose source is `f`: the table holds only
      nodes the value reaches, and a position outside the worklist is up to date. */
  ghost predicate Growing(p: Proto, f: nat, start: set<Reg>, entry: seq<set<Reg>>, out: seq<set<Reg>>, worklist: set<nat>) {
    && f < |p.code| && |entry| == |out| == |p.code|
    && (forall ip :: ip in worklist ==> ip < |p.code|)
    && start <= AllRegs(p) && out[f] <= start
    && (f !in worklist ==> out[f] == start)
    && (forall k :: 0 <= k < |out| && k != f ==> out[k] == MayTransfer(p.code[k], entry[k]))
    && (forall k :: 0 <= k < |out| ==> entry[k] <= AllRegs(p) && out[k] <= AllRegs(p))
    && (forall k: nat, x: Reg :: k < |entry| && k != f && x in entry[k] ==> Aliased(p, f, start, Node(k, x)))
    && (forall k :: 0 <= k < |entry| && k != f ==> entry[k] <= Union(p, out, k))
    && (forall k :: 0 <= k < |entry| && k != f && k !in worklist ==> Union(p, out, k) == entry[k])
  }

  /** Whatever a predecessor may leave behind has a walk to it. */
  lemma UnionIsAliased(p: Proto, f: nat, start: set<Reg>, entry: seq<set<Reg>>, out: seq<set<Reg>>, worklist: set<nat>, ip: nat, r: Reg)
    requires Growing(p, f, start, entry, out, worklist) && ip < |p.code| && ip != f
    requires r in Union(p, out, ip)
    ensures Aliased(p, f, start, Node(ip, r))
  {
    var q :| q in Preds(p, ip) && r in out[q];
    if q == f {
      ReachSeed(p, Origins(p, f, start), {f}, Node(ip, r));
    } else {
      MayTransferCarries(p.code[q], entry[q], r);
      var from :| from in entry[q] && Carries(p.code[q], from, r);
      ReachStep(p, Origins(p, f, start), {f}, Node(q, from), Node(ip, r));
    }
  }

  lemma MayTransferGrows(i: Shape, a: set<Reg>, b: set<Reg>)
    requires a <= b
    ensures MayTransfer(i, a) <= MayTransfer(i, b)
  {
  }

  /** Growing one `out` only grows unions, and only those of its successors. */
  lemma WideningKeepsUnions(p: Proto, out: seq<set<Reg>>, out': seq<set<Reg>>, ip: nat)
    requires |out| == |out'| == |p.code| && ip < |p.code|
    requires out[ip] <= out'[ip] && forall k :: 0 <= k < |out| && k != ip ==> out'[k] == out[k]
    ensures forall k :: 0 <= k < |out| ==> Union(p, out, k) <= Union(p, out', k)
    ensures forall k :: 0 <= k < |out| && (k !in Successors(p, ip) || out'[ip] == out[ip]) ==>
              Union(p, out', k) == Union(p, out, k)
  {
    forall k | 0 <= k < |out|
      ensures Union(p, out, k) <= Union(p, out', k)
      ensures k !in Successors(p, ip) || out'[ip] == out[ip] ==> Union(p, out', k) == Union(p, out, k)
    {
      assert ip in Preds(p, k) <==> k in Successors(p, ip);
      forall r | r in Union(p, out, k)
        ensures r in Union(p, out', k)
      {
        var q :| q in Preds(p, k) && r in out[q];
        assert r in out'[q];
      }
    }
  }

  /** Recomputing one position keeps the loop's invariant, as long as its successors are
      queued when it leaves more behind than before. */
  lemma GrowOne(p: Proto, f: nat, start: set<Reg>, entry: seq<set<Reg>>, out: seq<set<Reg>>, worklist: set<nat>, ip: nat, queued: set<nat>)
    requires RegsInFrame(p) && Growing(p, f, start, entry, out, worklist) && ip < |p.code| && ip != f
    requires queued <= Successors(p, ip)
    requires MayTransfer(p.code[ip], Union(p, out, ip)) == out[ip] || Successors(p, ip) - {f} <= queued
    ensures
      var newIn := Union(p, out, ip);
      var newOut := MayTransfer(p.code[ip], newIn);
      Growing(p, f, start, entry[ip := newIn], out[ip := newOut], worklist - {ip} + queued)
  {
    var newIn := Union(p, out, ip);
    var newOut := MayTransfer(p.code[ip], newIn);
    forall r | r in newIn
      ensures Aliased(p, f, start, Node(ip, r))
    {
      UnionIsAliased(p, f, start, entry, out, worklist, ip, r);
    }
    MayTransferGrows(p.code[ip], entry[ip], newIn);
    assert newOut <= AllRegs(p) by {
      assert forall d :: Dst(p.code[ip]) == Some(d) ==> InFrame(p, d);
    }
    WideningKeepsUnions(p, out, out[ip := newOut], ip);
  }

  lemma GrowthFills(p: Proto, entry: seq<set<Reg>>, ip: nat, newIn: set<Reg>)
    requires |entry| == |p.code| && ip < |p.code| && entry[ip] < newIn <= AllRegs(p)
    ensures Missing(p, entry[ip := newIn]) < Missing(p, entry)
  {
    var added :| added in newIn && added !in entry[ip];
    assert InCode(p, ip) && Node(ip, added) in Missing(p, entry);
    assert Node(ip, added) !in Missing(p, entry[ip := newIn]);
    assert Missing(p, entry[ip := newIn]) <= Missing(p, entry);
  }

  /** When the worklist runs dry, the table is exactly where the value can be. */
  lemma GrowingEnds(p: Proto, f: nat, start: set<Reg>, entry: seq<set<Reg>>, out: seq<set<Reg>>)
    requires Growing(p, f, start, entry, out, {})
    ensures forall n: Node :: n.ip < |p.code| && n.ip != f ==> (n.reg in entry[n.ip] <==> Aliased(p, f, start, n))
    ensures forall n: Node :: Aliased(p, f, start, n) ==> n.ip < |p.code| && n.ip != f
  {
    var s := iset n: Node | n.ip < |p.code| && n.ip != f && n.reg in entry[n.ip];
    forall n | n in Origins(p, f, start)
      ensures n in s
    {
      assert f in Preds(p, n.ip);
    }
    forall a, b | a in s && Edge(p, a, b) && b.ip != f
      ensures b in s
    {
      assert a.ip in Preds(p, b.ip);
      MayTransferCarries(p.code[a.ip], entry[a.ip], b.reg);
      assert b.reg in Union(p, out, b.ip);
    }
    forall n | Aliased(p, f, start, n)
      ensures n in s
    {
      ReachIsLeast(p, Origins(p, f, start), {f}, s, n);
    }
  }
}
