/** Which registers definitely still hold an unmodified read of one global. */
module MustFacts {
  // The analysis starts from "everything proven" and narrows by intersection. What it proves is
  // exactly the absence of a tainting walk: no way for a value that did not come from the global
  // to reach the register through copies.

  import opened Shapes
  import opened Flow

  predicate ReadsTarget(i: Shape, target: string) {
    i.GetGlobal? && i.name == target
  }

  /** Registers proven after `i`, given those proven before it. */
  function Transfer(i: Shape, target: string, before: set<Reg>): set<Reg> {
    match i
    case GetGlobal(d, name) => if name == target then before + {d} else before - {d}
    case Move(d, s) => if s in before then before + {d} else before - {d}
    case _ => if Dst(i).Some? then before - {Dst(i).value} else before
  }

  /** `q` leaves in `d` a value that is neither a copy nor a read of the target. */
  predicate Overwrites(i: Shape, target: string, d: Reg) {
    Dst(i) == Some(d) && !i.Move? && !ReadsTarget(i, target)
  }

  /** Where a value other than the target first shows up: anything at entry, and whatever
      an unrelated instruction wrote. */
  ghost predicate IsTaint(p: Proto, target: string, n: Node) {
    || n.ip == 0
    || exists q :: q in Preds(p, n.ip) && Overwrites(p.code[q], target, n.reg)
  }

  ghost predicate Tainted(p: Proto, target: string, n: Node) {
    Reach(p, iset t | IsTaint(p, target, t), {}, n)
  }

  /** What the predecessors of `ip` agree on; nothing is proven at entry. */
  function Merge(p: Proto, out: seq<set<Reg>>, ip: nat): (s: set<Reg>)
    requires |out| == |p.code|
    ensures s <= AllRegs(p)
  {
    if ip == 0 then {} else set r | r in AllRegs(p) && forall q :: q in Preds(p, ip) ==> r in out[q]
  }

  /** The specification of the facts: a register is listed exactly when nothing taints it. */
  ghost predicate Exact(p: Proto, target: string, facts: seq<set<Reg>>) {
    && |facts| == |p.code|
    && forall ip: nat, r: Reg :: ip < |facts| ==>
         (r in facts[ip] <==> r < p.numRegs && !Tainted(p, target, Node(ip, r)))
  }

  /** An assignment the flow equations accept: every listed register is justified by all
      predecessors. */
  ghost predicate Consistent(p: Proto, target: string, facts: seq<set<Reg>>) {
    && |facts| == |p.code|
    && forall ip :: 0 <= ip < |facts| ==>
         facts[ip] <= Merge(p, seq(|facts|, k requires 0 <= k < |facts| => Transfer(p.code[k], target, facts[k])), ip)
  }

  /** A register that misses `out` anywhere among the predecessors is tainted, provided
      the misses recorded so far are. */
  lemma MissIsTainted(p: Proto, target: string, entry: seq<set<Reg>>, out: seq<set<Reg>>, ip: nat, r: Reg)
    requires |entry| == |out| == |p.code| && ip < |p.code| && RegsInFrame(p)
    requires forall k :: 0 <= k < |out| ==> out[k] == Transfer(p.code[k], target, entry[k])
    requires forall k: nat, x: Reg :: k < |entry| && x < p.numRegs && x !in entry[k] ==> Tainted(p, target, Node(k, x))
    requires r < p.numRegs && r !in Merge(p, out, ip)
    ensures Tainted(p, target, Node(ip, r))
  {
    var seeds := iset t | IsTaint(p, target, t);
    if ip == 0 {
      ReachSeed(p, seeds, {}, Node(ip, r));
    } else {
      assert InFrame(p, r) && r in AllRegs(p);
      var q :| q in Preds(p, ip) && r !in out[q];
      var i := p.code[q];
      if Overwrites(i, target, r) {
        ReachSeed(p, seeds, {}, Node(ip, r));
      } else {
        var from := if i.Move? && i.dst == r then i.src else r;
        assert from < p.numRegs && from !in entry[q] && Carries(i, from, r);
        assert Edge(p, Node(q, from), Node(ip, r));
        ReachStep(p, seeds, {}, Node(q, from), Node(ip, r));
      }
    }
  }

  /** Facts the flow equations accept never list a tainted register. */
  lemma ConsistentIsUntainted(p: Proto, target: string, facts: seq<set<Reg>>, ip: nat, r: Reg)
    requires Consistent(p, target, facts) && ip < |facts| && r in facts[ip]
    ensures r < p.numRegs && !Tainted(p, target, Node(ip, r))
  {
    var n := |facts|;
    var out := seq(n, k requires 0 <= k < n => Transfer(p.code[k], target, facts[k]));
    assert facts[ip] <= Merge(p, out, ip) <= AllRegs(p);
    var seeds := iset t | IsTaint(p, target, t);
    var s := iset t: Node | t.ip >= n || t.reg !in facts[t.ip];
    forall t | t in seeds
      ensures t in s
    {
      if t.ip < n {
        assert facts[t.ip] <= Merge(p, out, t.ip);
        if t.ip != 0 {
          var q :| q in Preds(p, t.ip) && Overwrites(p.code[q], target, t.reg);
          assert t.reg !in out[q];
        }
      }
    }
    forall a, b | a in s && Edge(p, a, b)
      ensures b in s
    {
      assert a.ip in Preds(p, b.ip);
      assert b.reg !in out[a.ip];
      assert facts[b.ip] <= Merge(p, out, b.ip);
    }
    if Tainted(p, target, Node(ip, r)) {
      ReachIsLeast(p, seeds, {}, s, Node(ip, r));
    }
  }

  /** The exact facts are the greatest consistent assignment. */
  lemma ExactIsGreatest(p: Proto, target: string, facts: seq<set<Reg>>, other: seq<set<Reg>>)
    requires Exact(p, target, facts) && Consistent(p, target, other)
    ensures forall ip :: 0 <= ip < |facts| ==> other[ip] <= facts[ip]
  {
    forall ip, r | 0 <= ip < |facts| && r in other[ip]
      ensures r in facts[ip]
    {
      ConsistentIsUntainted(p, target, other, ip, r);
    }
  }

  /** Shrinking one `out` only shrinks merges, and only those of its successors. */
  lemma NarrowingKeepsMerges(p: Proto, out: seq<set<Reg>>, out': seq<set<Reg>>, ip: nat)
    requires |out| == |out'| == |p.code| && ip < |p.code|
    requires out'[ip] <= out[ip] && forall k :: 0 <= k < |out| && k != ip ==> out'[k] == out[k]
    ensures forall k :: 0 <= k < |out| ==> Merge(p, out', k) <= Merge(p, out, k)
    ensures forall k :: 0 <= k < |out| && k !in Successors(p, ip) ==> Merge(p, out', k) == Merge(p, out, k)
  {
    forall k | 0 <= k < |out| && k !in Successors(p, ip)
      ensures Merge(p, out', k) == Merge(p, out, k)
    {
      assert ip !in Preds(p, k);
    }
  }

  /** What holds between turns of the worklist loop: the sets only ever lost tainted
      registers, and a position outside the worklist agrees with its predecessors. */
  ghost predicate Narrowing(p: Proto, target: string, entry: seq<set<Reg>>, out: seq<set<Reg>>, worklist: set<nat>) {
    && |entry| == |out| == |p.code|
    && (forall ip :: ip in worklist ==> ip < |p.code|)
    && (forall k :: 0 <= k < |out| ==> out[k] == Transfer(p.code[k], target, entry[k]))
    && (forall k: nat, x: Reg :: k < |entry| && x < p.numRegs && x !in entry[k] ==> Tainted(p, target, Node(k, x)))
    && (forall k :: 0 <= k < |entry| ==> Merge(p, out, k) <= entry[k])
    && (forall k :: 0 <= k < |entry| && k !in worklist ==> Merge(p, out, k) == entry[k])
  }

  /** Recomputing one position and queueing its successors keeps the loop's invariant and
      drops a node. */
  lemma NarrowOne(p: Proto, target: string, entry: seq<set<Reg>>, out: seq<set<Reg>>, worklist: set<nat>, ip: nat)
    requires RegsInFrame(p) && Narrowing(p, target, entry, out, worklist) && ip < |p.code|
    ensures
      var newIn := Merge(p, out, ip);
      var entry' := entry[ip := newIn];
      var out' := out[ip := Transfer(p.code[ip], target, newIn)];
      && (newIn == entry[ip] ==> Narrowing(p, target, entry, out, worklist - {ip}))
      && (newIn != entry[ip] ==>
            && Narrowing(p, target, entry', out', worklist - {ip} + Successors(p, ip))
            && Nodes(entry') < Nodes(entry))
  {
    var newIn := Merge(p, out, ip);
    var entry' := entry[ip := newIn];
    var out' := out[ip := Transfer(p.code[ip], target, newIn)];
    if newIn != entry[ip] {
      forall r: Reg | r < p.numRegs && r !in newIn
        ensures Tainted(p, target, Node(ip, r))
      {
        MissIsTainted(p, target, entry, out, ip, r);
      }
      NarrowingKeepsMerges(p, out, out', ip);
      var gone :| gone in entry[ip] && gone !in newIn;
      assert Node(ip, gone) in Nodes(entry) && Node(ip, gone) !in Nodes(entry');
      assert Nodes(entry') <= Nodes(entry);
    }
  }

  /** Where the loop starts: nothing proven at entry, everything proven elsewhere. */
  lemma NarrowingStarts(p: Proto, target: string, entry: seq<set<Reg>>, out: seq<set<Reg>>)
    requires |entry| == |out| == |p.code|
    requires forall ip :: 0 <= ip < |entry| ==> entry[ip] == if ip == 0 then {} else AllRegs(p)
    requires forall k :: 0 <= k < |out| ==> out[k] == Transfer(p.code[k], target, entry[k])
    ensures Narrowing(p, target, entry, out, Positions(p))
  {
    forall k: nat, x: Reg | k < |entry| && x < p.numRegs && x !in entry[k]
      ensures Tainted(p, target, Node(k, x))
    {
      assert InFrame(p, x);
      ReachSeed(p, iset t | IsTaint(p, target, t), {}, Node(k, x));
    }
    forall k: nat | k < |p.code|
      ensures k in Positions(p)
    {
      assert InCode(p, k);
    }
  }

  /** When the worklist runs dry, the sets are exact and consistent. */
  lemma NarrowingEnds(p: Proto, target: string, entry: seq<set<Reg>>, out: seq<set<Reg>>)
    requires Narrowing(p, target, entry, out, {})
    ensures Exact(p, target, entry) && Consistent(p, target, entry)
  {
    var n := |entry|;
    assert seq(n, k requires 0 <= k < n => Transfer(p.code[k], target, entry[k])) == out;
    forall ip: nat, r: Reg | ip < n
      ensures r in entry[ip] <==> r < p.numRegs && !Tainted(p, target, Node(ip, r))
    {
      if r in entry[ip] {
        ConsistentIsUntainted(p, target, entry, ip, r);
      }
    }
  }

  /** The worklist computation of the facts for one global. */
  method GlobalRefFacts(p: Proto, target: string) returns (entry: seq<set<Reg>>)
    requires RegsInFrame(p)
    ensures Exact(p, target, entry)
    ensures Consistent(p, target, entry)
  {
    var n := |p.code|;
    entry := seq(n, ip => if ip == 0 then {} else AllRegs(p));
    var out := seq(n, ip requires 0 <= ip < n => Transfer(p.code[ip], target, entry[ip]));
    var worklist := Positions(p);
    NarrowingStarts(p, target, entry, out);
    while worklist != {}
      invariant Narrowing(p, target, entry, out, worklist)
      decreases Nodes(entry), worklist
    {
      FirstExists(worklist);
      var ip :| ip in worklist && forall k :: k in worklist ==> ip <= k;
      NarrowOne(p, target, entry, out, worklist, ip);
      worklist := worklist - {ip};
      var newIn := Merge(p, out, ip);
      if newIn != entry[ip] {
        entry := entry[ip := newIn];
        out := out[ip := Transfer(p.code[ip], target, entry[ip])];
        worklist := worklist + Successors(p, ip);
      }
    }
    NarrowingEnds(p, target, entry, out);
  }

  /** Facts about the function's own name. A method is never bound to its name, so it
      proves nothing. */
  method SelfReferenceFacts(p: Proto) returns (facts: seq<set<Reg>>)
    requires RegsInFrame(p)
    ensures |facts| == |p.code|
    ensures p.isMethod ==> forall ip :: 0 <= ip < |facts| ==> facts[ip] == {}
    ensures !p.isMethod ==> Exact(p, p.name, facts)
  {
    if p.isMethod {
      facts := seq(|p.code|, _ => {});
    } else {
      facts := GlobalRefFacts(p, p.name);
    }
  }

  /** A path of instructions the control flow allows, from the entry. */
  ghost predicate IsPath(p: Proto, path: seq<nat>) {
    var n := |path|;
    && n > 0
    && path[n - 1] < |p.code|
    && (if n == 1 then path[0] == 0
        else IsPath(p, path[..n - 1]) && path[n - 1] in Successors(p, path[n - 2]))
  }

  /** On the way into the last instruction of `path`, `r` holds a read of the target made
      on that path and handed on by moves only. */
  ghost predicate FromTarget(p: Proto, target: string, path: seq<nat>, r: Reg)
    requires IsPath(p, path)
  {
    var n := |path|;
    if n == 1 then false
    else
      assert IsPath(p, path[..n - 1]) && path[..n - 1][n - 2] == path[n - 2];
      var i := p.code[path[n - 2]];
      if i.Move? && i.dst == r then FromTarget(p, target, path[..n - 1], i.src)
      else if Dst(i) == Some(r) then ReadsTarget(i, target)
      else FromTarget(p, target, path[..n - 1], r)
  }

  /** Sound on every path: a listed register came from the target through moves only. */
  lemma {:induction false} FactsHoldOnPaths(p: Proto, target: string, facts: seq<set<Reg>>, path: seq<nat>, r: Reg)
    requires RegsInFrame(p) && Exact(p, target, facts) && IsPath(p, path) && r in facts[path[|path| - 1]]
    ensures FromTarget(p, target, path, r)
    decreases |path|
  {
    var n := |path|;
    var seeds := iset t | IsTaint(p, target, t);
    var at := path[n - 1];
    if n == 1 {
      ReachSeed(p, seeds, {}, Node(at, r));
    } else {
      var q := path[n - 2];
      var i := p.code[q];
      assert q in Preds(p, at);
      if Overwrites(i, target, r) {
        ReachSeed(p, seeds, {}, Node(at, r));
      } else if !(Dst(i) == Some(r) && ReadsTarget(i, target)) {
        var from := if i.Move? && i.dst == r then i.src else r;
        assert Edge(p, Node(q, from), Node(at, r));
        if Tainted(p, target, Node(q, from)) {
          ReachStep(p, seeds, {}, Node(q, from), Node(at, r));
        }
        FactsHoldOnPaths(p, target, facts, path[..n - 1], from);
      }
    }
  }

  ghost predicate Live(p: Proto, ip: nat) {
    exists path :: IsPath(p, path) && path[|path| - 1] == ip
  }

  /** Every instruction lies on some path from the entry. */
  ghost predicate NoDeadCode(p: Proto) {
    forall ip: nat :: ip < |p.code| ==> Live(p, ip)
  }

  lemma ExtendPath(p: Proto, path: seq<nat>, next: nat)
    requires IsPath(p, path) && next in Successors(p, path[|path| - 1])
    ensures IsPath(p, path + [next])
  {
    assert (path + [next])[..|path|] == path;
  }

  /** A tainting walk can be followed by a real path on which the register does not hold
      the target. */
  lemma {:induction false} TaintIsOnPath(p: Proto, target: string, w: seq<Node>) returns (path: seq<nat>)
    requires NoDeadCode(p) && IsWalk(p, {}, w) && IsTaint(p, target, w[0])
    requires w[|w| - 1].ip < |p.code|
    ensures IsPath(p, path) && path[|path| - 1] == w[|w| - 1].ip
    ensures !FromTarget(p, target, path, w[|w| - 1].reg)
    decreases |w|
  {
    var last := w[|w| - 1];
    if |w| == 1 && last.ip == 0 {
      path := [0];
    } else {
      var q: nat, before: seq<nat>;
      if |w| == 1 {
        q :| q in Preds(p, last.ip) && Overwrites(p.code[q], target, last.reg);
        assert Live(p, q);
        before :| IsPath(p, before) && before[|before| - 1] == q;
      } else {
        q := w[|w| - 2].ip;
        before := TaintIsOnPath(p, target, w[..|w| - 1]);
      }
      path := before + [last.ip];
      ExtendPath(p, before, last.ip);
      assert path[..|path| - 1] == before;
    }
  }

  /** In code without dead instructions the facts list a register exactly when, on every
      path from the entry, its value came from the target through moves only. */
  lemma FactsAreExactOnPaths(p: Proto, target: string, facts: seq<set<Reg>>, ip: nat, r: Reg)
    requires RegsInFrame(p) && NoDeadCode(p) && Exact(p, target, facts)
    requires ip < |facts| && r < p.numRegs
    ensures r in facts[ip] <==>
            forall path :: IsPath(p, path) && path[|path| - 1] == ip ==> FromTarget(p, target, path, r)
  {
    if r in facts[ip] {
      forall path | IsPath(p, path) && path[|path| - 1] == ip
        ensures FromTarget(p, target, path, r)
      {
        FactsHoldOnPaths(p, target, facts, path, r);
      }
    } else {
      var seeds := iset t | IsTaint(p, target, t);
      var w :| IsWalk(p, {}, w) && w[0] in seeds && w[|w| - 1] == Node(ip, r);
      var path := TaintIsOnPath(p, target, w);
    }
  }
}
