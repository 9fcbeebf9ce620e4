/** And-inverter graphs, as the folding commands use them: combinational networks, and
    sequential ones with latches, both with topologically ordered nodes. */
module Aig {
  import opened Frames

  /** An edge to node `node`, complemented if `neg`. */
  datatype Edge = Edge(node: nat, neg: bool)

  function Not(e: Edge): Edge {
    Edge(e.node, !e.neg)
  }

  // ----- sequential networks -----

  datatype Node = Const1 | Pi(i: nat) | Lat(l: nat) | And(e0: Edge, e1: Edge)

  /** Latch `l` starts at `init[l]` and is driven by `latchIn[l]`; outputs are `pos`. */
  datatype Net = Net(nodes: seq<Node>, init: seq<bool>, latchIn: seq<Edge>, pos: seq<Edge>)

  ghost predicate Ordered(nodes: seq<Node>) {
    forall n :: 0 <= n < |nodes| && nodes[n].And? ==> nodes[n].e0.node < n && nodes[n].e1.node < n
  }

  ghost predicate GoodNet(net: Net) {
    && Ordered(net.nodes) && |net.init| == |net.latchIn|
    && (forall l :: 0 <= l < |net.latchIn| ==> net.latchIn[l].node < |net.nodes|)
    && (forall i :: 0 <= i < |net.pos| ==> net.pos[i].node < |net.nodes|)
  }

  /** The value of a node when the latches hold `lat` and the pins read `pi`. */
  ghost function Ev(nodes: seq<Node>, lat: seq<bool>, pi: seq<bool>, n: nat): bool
    requires Ordered(nodes) && n < |nodes|
    decreases n
  {
    match nodes[n]
    case Const1 => true
    case Pi(i) => i < |pi| && pi[i]
    case Lat(l) => l < |lat| && lat[l]
    case And(e0, e1) => (Ev(nodes, lat, pi, e0.node) != e0.neg) && (Ev(nodes, lat, pi, e1.node) != e1.neg)
  }

  ghost function EvE(nodes: seq<Node>, lat: seq<bool>, pi: seq<bool>, e: Edge): bool
    requires Ordered(nodes) && e.node < |nodes|
  {
    Ev(nodes, lat, pi, e.node) != e.neg
  }

  /** The pins of frame `t` are slice `t` of the input vector. */
  ghost function Slice(x: seq<bool>, t: nat, nPi: nat): seq<bool> {
    seq(nPi, i requires i >= 0 => Cell(t, nPi) + i < |x| && x[Cell(t, nPi) + i])
  }

  /** The latches at frame `t` of a run from the initial state. */
  ghost function State(net: Net, x: seq<bool>, nPi: nat, t: nat): (lat: seq<bool>)
    requires GoodNet(net)
    ensures |lat| == |net.init|
  {
    if t == 0 then net.init else Next(net, State(net, x, nPi, t - 1), Slice(x, t - 1, nPi))
  }

  ghost function Next(net: Net, lat: seq<bool>, pi: seq<bool>): (lat2: seq<bool>)
    requires GoodNet(net)
    ensures |lat2| == |net.init|
  {
    seq(|net.latchIn|, l requires 0 <= l < |net.latchIn| => EvE(net.nodes, lat, pi, net.latchIn[l]))
  }

  /** Output `i` at frame `t`. */
  ghost function RunOut(net: Net, x: seq<bool>, nPi: nat, t: nat, i: nat): bool
    requires GoodNet(net) && i < |net.pos|
  {
    EvE(net.nodes, State(net, x, nPi, t), Slice(x, t, nPi), net.pos[i])
  }

  /** Nodes that are only appended keep their values. */
  lemma {:induction false} EvPrefix(nodes: seq<Node>, nodes2: seq<Node>, lat: seq<bool>, pi: seq<bool>, n: nat)
    requires Ordered(nodes) && Ordered(nodes2) && nodes <= nodes2 && n < |nodes|
    ensures Ev(nodes2, lat, pi, n) == Ev(nodes, lat, pi, n)
    decreases n
  {
    if nodes[n].And? {
      EvPrefix(nodes, nodes2, lat, pi, nodes[n].e0.node);
      EvPrefix(nodes, nodes2, lat, pi, nodes[n].e1.node);
    }
  }

  /** Values depend only on the latches that exist. */
  lemma {:induction false} EvMoreLatches(nodes: seq<Node>, lat: seq<bool>, lat2: seq<bool>, pi: seq<bool>, n: nat)
    requires Ordered(nodes) && n < |nodes| && lat <= lat2
    requires forall k :: 0 <= k < |nodes| && nodes[k].Lat? ==> nodes[k].l < |lat|
    ensures Ev(nodes, lat2, pi, n) == Ev(nodes, lat, pi, n)
    decreases n
  {
    if nodes[n].And? {
      EvMoreLatches(nodes, lat, lat2, pi, nodes[n].e0.node);
      EvMoreLatches(nodes, lat, lat2, pi, nodes[n].e1.node);
    }
  }

  // ----- building logic -----

  /** Abc_AigAnd, as a plain AND constructor. */
  function MkAnd(nodes: seq<Node>, a: Edge, b: Edge): (seq<Node>, Edge) {
    (nodes + [And(a, b)], Edge(|nodes|, false))
  }

  function MkOr(nodes: seq<Node>, a: Edge, b: Edge): (seq<Node>, Edge) {
    var (nodes2, e) := MkAnd(nodes, Not(a), Not(b));
    (nodes2, Not(e))
  }

  function MkMux(nodes: seq<Node>, c: Edge, a: Edge, b: Edge): (seq<Node>, Edge) {
    var (nodes1, e1) := MkAnd(nodes, c, a);
    var (nodes2, e2) := MkAnd(nodes1, Not(c), b);
    MkOr(nodes2, e1, e2)
  }

  /** What a builder returns: an extension of the nodes and a valid edge. */
  ghost predicate Extends(nodes: seq<Node>, nodes2: seq<Node>) {
    Ordered(nodes2) && nodes <= nodes2 && forall k :: |nodes| <= k < |nodes2| ==> nodes2[k].And?
  }

  lemma ExtendsTrans(a: seq<Node>, b: seq<Node>, c: seq<Node>)
    requires Extends(a, b) && Extends(b, c)
    ensures Extends(a, c)
  {
    forall k | |a| <= k < |c| ensures c[k].And? {
      if k < |b| {
        assert c[k] == b[k];
      }
    }
  }

  lemma MkAndOk(nodes: seq<Node>, a: Edge, b: Edge)
    requires Ordered(nodes) && a.node < |nodes| && b.node < |nodes|
    ensures var (nodes2, e) := MkAnd(nodes, a, b);
            Extends(nodes, nodes2) && e.node < |nodes2| &&
            forall lat, pi :: EvE(nodes2, lat, pi, e) == (EvE(nodes, lat, pi, a) && EvE(nodes, lat, pi, b))
  {
    var (nodes2, e) := MkAnd(nodes, a, b);
    assert Ordered(nodes2);
    forall lat, pi ensures EvE(nodes2, lat, pi, e) == (EvE(nodes, lat, pi, a) && EvE(nodes, lat, pi, b)) {
      EvPrefix(nodes, nodes2, lat, pi, a.node);
      EvPrefix(nodes, nodes2, lat, pi, b.node);
    }
  }

  lemma MkOrOk(nodes: seq<Node>, a: Edge, b: Edge)
    requires Ordered(nodes) && a.node < |nodes| && b.node < |nodes|
    ensures var (nodes2, e) := MkOr(nodes, a, b);
            Extends(nodes, nodes2) && e.node < |nodes2| &&
            forall lat, pi :: EvE(nodes2, lat, pi, e) == (EvE(nodes, lat, pi, a) || EvE(nodes, lat, pi, b))
  {
    MkAndOk(nodes, Not(a), Not(b));
    var (nodes2, e) := MkAnd(nodes, Not(a), Not(b));
    forall lat, pi ensures EvE(nodes2, lat, pi, Not(e)) == (EvE(nodes, lat, pi, a) || EvE(nodes, lat, pi, b)) {
      assert EvE(nodes2, lat, pi, e) == (EvE(nodes, lat, pi, Not(a)) && EvE(nodes, lat, pi, Not(b)));
    }
  }

  lemma EvEPrefix(nodes: seq<Node>, nodes2: seq<Node>, lat: seq<bool>, pi: seq<bool>, e: Edge)
    requires Ordered(nodes) && Ordered(nodes2) && nodes <= nodes2 && e.node < |nodes|
    ensures EvE(nodes2, lat, pi, e) == EvE(nodes, lat, pi, e)
  {
    EvPrefix(nodes, nodes2, lat, pi, e.node);
  }

  lemma MkMuxOk(nodes: seq<Node>, c: Edge, a: Edge, b: Edge)
    requires Ordered(nodes) && c.node < |nodes| && a.node < |nodes| && b.node < |nodes|
    ensures var (nodes2, e) := MkMux(nodes, c, a, b);
            Extends(nodes, nodes2) && e.node < |nodes2| &&
            forall lat, pi :: EvE(nodes2, lat, pi, e) ==
              if EvE(nodes, lat, pi, c) then EvE(nodes, lat, pi, a) else EvE(nodes, lat, pi, b)
  {
    MkAndOk(nodes, c, a);
    var (nodes1, e1) := MkAnd(nodes, c, a);
    MkAndOk(nodes1, Not(c), b);
    var (nodes2, e2) := MkAnd(nodes1, Not(c), b);
    MkOrOk(nodes2, e1, e2);
    var (nodes3, e) := MkOr(nodes2, e1, e2);
    ExtendsTrans(nodes, nodes1, nodes2);
    ExtendsTrans(nodes, nodes2, nodes3);
    forall lat, pi
      ensures EvE(nodes3, lat, pi, e) == if EvE(nodes, lat, pi, c) then EvE(nodes, lat, pi, a) else EvE(nodes, lat, pi, b)
    {
      EvEPrefix(nodes1, nodes2, lat, pi, e1);
      EvEPrefix(nodes, nodes1, lat, pi, Not(c));
      EvEPrefix(nodes, nodes1, lat, pi, b);
    }
  }

  /** Abc_ObjChild0Copy and Abc_ObjChild1Copy: the copy an edge leads to. */
  function ChildCopy(pCopy: seq<Edge>, e: Edge): Edge
    requires e.node < |pCopy|
  {
    Edge(pCopy[e.node].node, pCopy[e.node].neg != e.neg)
  }

  // ----- combinational networks -----

  datatype Gate = Gate(f0: Edge, f1: Edge)

  /** Node 0 is constant true, nodes 1..nCi are the inputs, the rest are AND gates in
      topological order with two different fanins. */
  datatype Comb = Comb(nCi: nat, gates: seq<Gate>, pos: seq<Edge>)

  function Size(c: Comb): nat {
    1 + c.nCi + |c.gates|
  }

  function GateOf(c: Comb, n: nat): Gate
    requires c.nCi < n < Size(c)
  {
    c.gates[n - 1 - c.nCi]
  }

  ghost predicate GoodComb(c: Comb) {
    && (forall n :: c.nCi < n < Size(c) ==>
          GateOf(c, n).f0.node < n && GateOf(c, n).f1.node < n && GateOf(c, n).f0.node != GateOf(c, n).f1.node)
    && (forall k :: 0 <= k < |c.pos| ==> c.pos[k].node < Size(c))
  }

  ghost function CombVal(c: Comb, x: seq<bool>, n: nat): bool
    requires GoodComb(c) && n < Size(c)
    decreases n, 0
  {
    if n == 0 then true
    else if n <= c.nCi then n - 1 < |x| && x[n - 1]
    else CombValE(c, x, GateOf(c, n).f0) && CombValE(c, x, GateOf(c, n).f1)
  }

  ghost function CombValE(c: Comb, x: seq<bool>, e: Edge): bool
    requires GoodComb(c) && e.node < Size(c)
    decreases e.node, 1
  {
    CombVal(c, x, e.node) != e.neg
  }

  ghost function CombOut(c: Comb, x: seq<bool>, k: nat): bool
    requires GoodComb(c) && k < |c.pos|
  {
    CombValE(c, x, c.pos[k])
  }
}
