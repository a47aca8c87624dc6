/** How register contents travel along control flow. */
module Flow {
  // A node is a register at an instruction, on the way into it. An edge says the value can still
  // be there, or can have been copied there, on the way into a successor. Every analysis of the
  // JIT's escape module turns out to compute reachability here.

  import opened Shapes

  datatype Node = Node(ip: nat, reg: Reg)

  /** After `i`, register `to` holds what `from` held before it. */
  predicate Carries(i: Shape, from: Reg, to: Reg) {
    match i
    case Move(d, s) => (to == d && from == s) || (to != d && from == to)
    case _ => from == to && Dst(i) != Some(to)
  }

  predicate Edge(p: Proto, a: Node, b: Node) {
    && a.ip < |p.code|
    && b.ip in Successors(p, a.ip)
    && Carries(p.code[a.ip], a.reg, b.reg)
  }

  /** A walk along edges that never enters an instruction in `stop`. */
  ghost predicate IsWalk(p: Proto, stop: set<nat>, w: seq<Node>) {
    var n := |w|;
    && n > 0
    && (n > 1 ==>
          && Edge(p, w[n - 2], w[n - 1])
          && w[n - 1].ip !in stop
          && IsWalk(p, stop, w[..n - 1]))
  }

  ghost predicate Reach(p: Proto, seeds: iset<Node>, stop: set<nat>, n: Node) {
    exists w :: IsWalk(p, stop, w) && w[0] in seeds && w[|w| - 1] == n
  }

  lemma ReachSeed(p: Proto, seeds: iset<Node>, stop: set<nat>, n: Node)
    requires n in seeds
    ensures Reach(p, seeds, stop, n)
  {
    var w := [n];
    assert IsWalk(p, stop, w) && w[0] in seeds && w[|w| - 1] == n;
  }

  lemma ReachStep(p: Proto, seeds: iset<Node>, stop: set<nat>, a: Node, b: Node)
    requires Reach(p, seeds, stop, a) && Edge(p, a, b) && b.ip !in stop
    ensures Reach(p, seeds, stop, b)
  {
    var w :| IsWalk(p, stop, w) && w[0] in seeds && w[|w| - 1] == a;
    var w' := w + [b];
    assert w'[..|w'| - 1] == w;
    assert IsWalk(p, stop, w') && w'[0] in seeds && w'[|w'| - 1] == b;
  }

  /** A set of nodes that holds the seeds and is closed under edges. */
  ghost predicate Closed(p: Proto, seeds: iset<Node>, stop: set<nat>, s: iset<Node>) {
    && seeds <= s
    && forall a, b :: a in s && Edge(p, a, b) && b.ip !in stop ==> b in s
  }

  lemma {:induction false} ClosedHoldsWalk(p: Proto, seeds: iset<Node>, stop: set<nat>, s: iset<Node>, w: seq<Node>)
    requires Closed(p, seeds, stop, s) && IsWalk(p, stop, w) && w[0] in seeds
    ensures w[|w| - 1] in s
  {
    if |w| > 1 {
      ClosedHoldsWalk(p, seeds, stop, s, w[..|w| - 1]);
    }
  }

  /** Reachability is the least closed set. */
  lemma ReachIsLeast(p: Proto, seeds: iset<Node>, stop: set<nat>, s: iset<Node>, n: Node)
    requires Closed(p, seeds, stop, s) && Reach(p, seeds, stop, n)
    ensures n in s
  {
    var w :| IsWalk(p, stop, w) && w[0] in seeds && w[|w| - 1] == n;
    ClosedHoldsWalk(p, seeds, stop, s, w);
  }

  /** The nodes a table of register sets stands for. */
  function Nodes(facts: seq<set<Reg>>): set<Node> {
    set ip, r | 0 <= ip < |facts| && r in facts[ip] :: Node(ip, r)
  }

  predicate InCode(p: Proto, ip: nat) {
    ip < |p.code|
  }

  function Positions(p: Proto): set<nat> {
    set ip: nat | ip < |p.code| && InCode(p, ip)
  }

  predicate InFrame(p: Proto, r: Reg) {
    r < p.numRegs
  }

  function AllRegs(p: Proto): set<Reg> {
    set r: nat | r < p.numRegs && InFrame(p, r)
  }

  /** Every register operand lies inside the frame. */
  predicate RegsInFrame(p: Proto) {
    forall k :: 0 <= k < |p.code| ==>
      && (Dst(p.code[k]).Some? ==> Dst(p.code[k]).value < p.numRegs)
      && (p.code[k].Move? ==> p.code[k].src < p.numRegs)
  }

  /** Registers that may hold the tracked value after `i`, given those that may before it. */
  function MayTransfer(i: Shape, before: set<Reg>): set<Reg> {
    match i
    case Move(d, s) => if s in before then before + {d} else before - {d}
    case _ => if Dst(i).Some? then before - {Dst(i).value} else before
  }

  lemma MayTransferCarries(i: Shape, before: set<Reg>, to: Reg)
    ensures to in MayTransfer(i, before) <==> exists from :: from in before && Carries(i, from, to)
  {
    if to in MayTransfer(i, before) {
      var from := if i.Move? && i.dst == to then i.src else to;
      assert from in before && Carries(i, from, to);
    }
  }

  /** A finite set of instruction positions has a first one. */
  lemma {:induction false} FirstExists(s: set<nat>)
    requires s != {}
    ensures exists m :: m in s && forall k :: k in s ==> m <= k
  {
    var x :| x in s;
    if s - {x} == {} {
      assert s == {x};
    } else {
      FirstExists(s - {x});
      var m :| m in s - {x} && forall k :: k in s - {x} ==> m <= k;
      var first := if m < x then m else x;
      assert forall k :: k in s ==> k == x || k in s - {x};
      assert first in s && forall k :: k in s ==> first <= k;
    }
  }
}
