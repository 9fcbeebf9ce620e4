/** What the frame-by-frame construction of stru_fold maintains (timeMux4/aigMux4.cpp and the
    one-hot timer of timeMux3/aigMux3.cpp). */
module FoldSpec {
  import opened Aig

  // ----- the one-hot timer -----

  /** The latches at frame `u`: among the first `T`, exactly latch `u` is set. */
  ghost predicate OneHot(lat: seq<bool>, u: nat, T: nat) {
    T <= |lat| && forall l :: 0 <= l < T ==> (lat[l] <==> l == u)
  }

  /** Every latch has its output node; the nodes before are constant and pins. */
  ghost predicate Layout(net: Net, bo: seq<nat>, nPi: nat, T: nat) {
    && GoodNet(net) && |bo| == |net.init| && T <= |bo|
    && 1 + nPi <= |net.nodes| && net.nodes[0] == Const1
    && (forall i :: 0 <= i < nPi ==> net.nodes[1 + i] == Pi(i))
    && (forall l :: 0 <= l < |bo| ==> bo[l] < |net.nodes| && net.nodes[bo[l]] == Lat(l))
    && (forall k :: 0 <= k < |net.nodes| && net.nodes[k].Lat? ==> net.nodes[k].l < |net.init| && bo[net.nodes[k].l] == k)
  }

  /** A ring of latches with a single token in latch 0. */
  ghost predicate Timer(net: Net, bo: seq<nat>, T: nat)
    requires GoodNet(net) && |bo| == |net.init| && T <= |bo|
  {
    && T > 0 && net.init[0]
    && (forall l :: 0 < l < T ==> !net.init[l])
    && net.latchIn[0] == Edge(bo[T - 1], false)
    && (forall l :: 0 < l < T ==> net.latchIn[l] == Edge(bo[l - 1], false))
  }

  /** At frame `t` the timer points at `t`. */
  lemma {:induction false} TimerRuns(net: Net, bo: seq<nat>, nPi: nat, T: nat, x: seq<bool>, t: nat)
    requires Layout(net, bo, nPi, T) && Timer(net, bo, T) && t < T
    ensures OneHot(State(net, x, nPi, t), t, T)
  {
    if t > 0 {
      TimerRuns(net, bo, nPi, T, x, t - 1);
      var before, after := State(net, x, nPi, t - 1), State(net, x, nPi, t);
      forall l | 0 <= l < T ensures after[l] <==> l == t {
        var from := if l == 0 then T - 1 else l - 1;
        assert after[l] == Ev(net.nodes, before, Slice(x, t - 1, nPi), bo[from]);
        assert after[l] == before[from];
      }
    }
  }

  // ----- the same network later in the construction -----

  /** `net2` extends `net`; a changed latch input behaves as before except in frame `t`. */
  ghost predicate Evolves(net: Net, net2: Net, t: nat, T: nat) {
    && GoodNet(net) && GoodNet(net2) && net.nodes <= net2.nodes && net.init <= net2.init
    && (forall k :: 0 <= k < |net.nodes| && net.nodes[k].Lat? ==> net.nodes[k].l < |net.init|)
    && (forall l :: 0 <= l < |net.latchIn| ==> SameExceptAt(net, net2, l, t, T))
  }

  ghost predicate SameExceptAt(net: Net, net2: Net, l: nat, t: nat, T: nat)
    requires GoodNet(net) && GoodNet(net2) && net.nodes <= net2.nodes && l < |net.latchIn| <= |net2.latchIn|
  {
    forall lat, pi, u: nat :: u != t && u < T && OneHot(lat, u, T) ==>
      EvE(net2.nodes, lat, pi, net2.latchIn[l]) == EvE(net.nodes, lat, pi, net.latchIn[l])
  }

  /** Up to frame `t` nothing that existed before has changed its value. */
  lemma {:induction false} StatePrefix(net: Net, net2: Net, bo2: seq<nat>, nPi: nat, T: nat, t: nat, x: seq<bool>, u: nat)
    requires Evolves(net, net2, t, T) && Layout(net2, bo2, nPi, T) && Timer(net2, bo2, T) && u <= t < T
    ensures State(net, x, nPi, u) <= State(net2, x, nPi, u)
    decreases u
  {
    hide OneHot, SameExceptAt, Next, Slice, Timer, Ordered;
    if u > 0 {
      StatePrefix(net, net2, bo2, nPi, T, t, x, u - 1);
      TimerRuns(net2, bo2, nPi, T, x, u - 1);
      StatePrefixNext(net, net2, T, t, State(net, x, nPi, u - 1), State(net2, x, nPi, u - 1), Slice(x, u - 1, nPi), u - 1);
    }
  }

  lemma StatePrefixNext(net: Net, net2: Net, T: nat, t: nat, lat: seq<bool>, lat2: seq<bool>, pi: seq<bool>, u: nat)
    requires Evolves(net, net2, t, T) && u < t < T && |lat| == |net.init| && lat <= lat2 && |lat2| == |net2.init| && OneHot(lat2, u, T)
    ensures Next(net, lat, pi) <= Next(net2, lat2, pi)
  {
    forall l | 0 <= l < |net.init| ensures Next(net2, lat2, pi)[l] == Next(net, lat, pi)[l] {
      SameLatch(net, net2, T, t, lat, lat2, pi, u, l);
    }
  }

  /** Before frame `t` a latch takes from the longer state what it takes from the shorter one. */
  lemma SameLatch(net: Net, net2: Net, T: nat, t: nat, lat: seq<bool>, lat2: seq<bool>, pi: seq<bool>, u: nat, l: nat)
    requires Evolves(net, net2, t, T) && GoodNet(net2) && u < t < T && l < |net.init| && |lat| == |net.init| && lat <= lat2
    requires |lat2| == |net2.init| && OneHot(lat2, u, T)
    ensures EvE(net2.nodes, lat2, pi, net2.latchIn[l]) == EvE(net.nodes, lat, pi, net.latchIn[l])
  {
    assert SameExceptAt(net, net2, l, t, T);
    assert EvE(net2.nodes, lat2, pi, net2.latchIn[l]) == EvE(net.nodes, lat2, pi, net.latchIn[l]);
    EvMoreLatches(net.nodes, lat, lat2, pi, net.latchIn[l].node);
  }

  lemma ValueKept(net: Net, net2: Net, bo2: seq<nat>, nPi: nat, T: nat, t: nat, x: seq<bool>, u: nat, e: Edge)
    requires Evolves(net, net2, t, T) && Layout(net2, bo2, nPi, T) && Timer(net2, bo2, T) && u <= t < T && e.node < |net.nodes|
    ensures EvE(net2.nodes, State(net2, x, nPi, u), Slice(x, u, nPi), e) == EvE(net.nodes, State(net, x, nPi, u), Slice(x, u, nPi), e)
  {
    StatePrefix(net, net2, bo2, nPi, T, t, x, u);
    EvEPrefix(net.nodes, net2.nodes, State(net2, x, nPi, u), Slice(x, u, nPi), e);
    EvMoreLatches(net.nodes, State(net, x, nPi, u), State(net2, x, nPi, u), Slice(x, u, nPi), e.node);
  }

  /** Edge `e` of the folded network carries, at frame `u`, the value of edge `f` of the original. */
  ghost predicate Computes(net: Net, nPi: nat, u: nat, e: Edge, c: Comb, f: Edge)
    requires GoodNet(net) && GoodComb(c) && f.node < Size(c)
  {
    && e.node < |net.nodes|
    && forall x :: EvE(net.nodes, State(net, x, nPi, u), Slice(x, u, nPi), e) == CombValE(c, x, f)
  }

  lemma ComputesKept(net: Net, net2: Net, bo2: seq<nat>, nPi: nat, T: nat, t: nat, u: nat, e: Edge, c: Comb, f: Edge)
    requires Evolves(net, net2, t, T) && Layout(net2, bo2, nPi, T) && Timer(net2, bo2, T) && u <= t < T
    requires GoodComb(c) && f.node < Size(c) && Computes(net, nPi, u, e, c, f)
    ensures Computes(net2, nPi, u, e, c, f)
  {
    forall x ensures EvE(net2.nodes, State(net2, x, nPi, u), Slice(x, u, nPi), e) == CombValE(c, x, f) {
      ValueKept(net, net2, bo2, nPi, T, t, x, u, e);
    }
  }

  /** Complementing both sides. */
  lemma ComputesNot(net: Net, nPi: nat, u: nat, e: Edge, c: Comb, f: Edge)
    requires GoodNet(net) && GoodComb(c) && f.node < Size(c) && Computes(net, nPi, u, e, c, f)
    ensures Computes(net, nPi, u, Not(e), c, Not(f))
  {
    forall x ensures EvE(net.nodes, State(net, x, nPi, u), Slice(x, u, nPi), Not(e)) == CombValE(c, x, Not(f)) {
      assert EvE(net.nodes, State(net, x, nPi, u), Slice(x, u, nPi), e) == CombValE(c, x, f);
    }
  }

  // ----- data latches -----

  /** From frame `t` on, the data latch keeps its value (hold-mux latches) or its input is
      false (reused latches). */
  ghost predicate Idle(net: Net, T: nat, l: nat, t: nat, mff: bool)
    requires GoodNet(net) && l < |net.latchIn|
  {
    forall lat, pi, u: nat :: t <= u < T && |lat| == |net.init| && OneHot(lat, u, T) ==>
      EvE(net.nodes, lat, pi, net.latchIn[l]) == (!mff && lat[l])
  }

  /** In frame `u` the data latch keeps its value (hold-mux latches) or its input is false (reused latches). */
  ghost predicate RestsAt(net: Net, T: nat, l: nat, u: nat, mff: bool)
    requires GoodNet(net) && l < |net.latchIn|
  {
    forall lat, pi :: |lat| == |net.init| && OneHot(lat, u, T) ==> EvE(net.nodes, lat, pi, net.latchIn[l]) == (!mff && lat[l])
  }

  /** At the end of frame `t` the data latch takes the value of object `o`. */
  ghost predicate Takes(net: Net, nPi: nat, t: nat, l: nat, c: Comb, o: nat)
    requires GoodNet(net) && GoodComb(c) && l < |net.latchIn| && o < Size(c)
  {
    Computes(net, nPi, t, net.latchIn[l], c, Edge(o, false))
  }

  /** What a latch takes in one frame its output carries in the next. */
  lemma TakenIsHeld(net: Net, bo: seq<nat>, nPi: nat, T: nat, t: nat, l: nat, c: Comb, o: nat)
    requires Layout(net, bo, nPi, T) && GoodComb(c) && l < |bo| && o < Size(c) && Takes(net, nPi, t, l, c, o)
    ensures Computes(net, nPi, t + 1, Edge(bo[l], false), c, Edge(o, false))
  {
    forall x
      ensures EvE(net.nodes, State(net, x, nPi, t + 1), Slice(x, t + 1, nPi), Edge(bo[l], false)) == CombValE(c, x, Edge(o, false))
    {
      assert EvE(net.nodes, State(net, x, nPi, t + 1), Slice(x, t + 1, nPi), Edge(bo[l], false)) == State(net, x, nPi, t + 1)[l];
      assert State(net, x, nPi, t + 1)[l] == EvE(net.nodes, State(net, x, nPi, t), Slice(x, t, nPi), net.latchIn[l]);
    }
  }
}
