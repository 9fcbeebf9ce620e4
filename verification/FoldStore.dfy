/** storeInLats and storeInLats2 (timeMux4/aigMux4.cpp): carrying half-ready fanins into the
    next frame. */
module FoldStore {
  import opened Aig
  import opened FoldSpec
  import opened StruFold

  /** While latches are written at the end of frame `t`: objects in `todo` still have their value
      in this frame, the other waiting objects are taken by a latch of their own. */
  ghost predicate Saving(x: Ctx, f: Fold, t: nat, waiting: set<nat>, todo: set<nat>)
  {
    && GoodFold(x, f) && t < x.T && todo <= waiting
    && (forall n :: n in waiting ==> n < Size(x.c) && StoredWell(x, f, n))
    && (forall n :: n in todo ==> n < Size(x.c) && Live(x, f, t, n))
    && (forall n :: n in waiting - todo ==> n < Size(x.c) && Taken(x, f, t, n))
    && (forall n, m :: n in waiting && m in waiting && Stored(f, n) && Stored(f, m) && LatchOf(f, n) == LatchOf(f, m) ==> n == m)
    && IdleAll(x, f, t + 1)
    && (forall l :: x.T <= l < |f.net.latchIn| && !TakenLatch(x, f, waiting, todo, l) ==> Idle(f.net, x.T, l, t, x.mff))
  }

  ghost predicate Taken(x: Ctx, f: Fold, t: nat, n: nat)
    requires GoodFold(x, f) && n < Size(x.c) && StoredWell(x, f, n)
  {
    Stored(f, n) && Takes(f.net, x.nPi, t, LatchOf(f, n), x.c, n)
  }

  ghost predicate TakenLatch(x: Ctx, f: Fold, waiting: set<nat>, todo: set<nat>, l: nat)
    requires GoodFold(x, f)
  {
    exists n :: n in waiting - todo && n < Size(x.c) && Stored(f, n) && LatchOf(f, n) == l
  }

  /** `f2` writes latch `l` (an old one or the next new one) on behalf of object `n`. */
  ghost predicate Writes(x: Ctx, f: Fold, f2: Fold, t: nat, n: nat, l: nat) {
    && GoodFold(x, f) && GoodFold(x, f2) && n < Size(x.c)
    && Evolves(f.net, f2.net, t, x.T) && f.bo <= f2.bo
    && x.T <= l < |f2.bo| && |f2.bo| == (if l < |f.bo| then |f.bo| else l + 1) && l <= |f.bo|
    && (forall k :: 0 <= k < |f.bo| && k != l ==> f2.net.latchIn[k] == f.net.latchIn[k])
    && f2.pCopy == f.pCopy[n := Edge(f2.bo[l], false)]
  }

  lemma KeptComputes(x: Ctx, f: Fold, f2: Fold, t: nat, u: nat, e: Edge, g: Edge)
    requires GoodFold(x, f) && GoodFold(x, f2) && Evolves(f.net, f2.net, t, x.T) && u <= t < x.T
    requires g.node < Size(x.c) && Computes(f.net, x.nPi, u, e, x.c, g)
    ensures Computes(f2.net, x.nPi, u, e, x.c, g)
  {
    ComputesKept(f.net, f2.net, f2.bo, x.nPi, x.T, t, u, e, x.c, g);
  }

  lemma KeptIdle(x: Ctx, f: Fold, f2: Fold, t: nat, l: nat, v: nat)
    requires GoodFold(x, f) && GoodFold(x, f2) && Evolves(f.net, f2.net, t, x.T)
    requires l < |f.net.latchIn| && f2.net.latchIn[l] == f.net.latchIn[l] && Idle(f.net, x.T, l, v, x.mff)
    ensures Idle(f2.net, x.T, l, v, x.mff)
  {
    forall lat, pi, u: nat | v <= u < x.T && |lat| == |f2.net.init| && OneHot(lat, u, x.T)
      ensures EvE(f2.net.nodes, lat, pi, f2.net.latchIn[l]) == (!x.mff && lat[l])
    {
      var oldLat := lat[..|f.net.init|];
      assert OneHot(oldLat, u, x.T);
      EvEPrefix(f.net.nodes, f2.net.nodes, lat, pi, f.net.latchIn[l]);
      EvMoreLatches(f.net.nodes, oldLat, lat, pi, f.net.latchIn[l].node);
      assert EvE(f.net.nodes, oldLat, pi, f.net.latchIn[l]) == (!x.mff && oldLat[l]);
    }
  }

  lemma OtherObject(x: Ctx, f: Fold, f2: Fold, t: nat, n: nat, l: nat, m: nat)
    requires Writes(x, f, f2, t, n, l) && m < Size(x.c) && m != n
    ensures f2.pCopy[m] == f.pCopy[m]
    ensures f.pCopy[m].node < |f.net.nodes| ==> (Stored(f2, m) <==> Stored(f, m))
    ensures Stored(f, m) ==> LatchOf(f2, m) == LatchOf(f, m)
    ensures StoredWell(x, f, m) && f.pCopy[m].node < |f.net.nodes| ==> StoredWell(x, f2, m)
  {}

  /** Writing one latch for `n` moves `n` from the objects to do to the taken ones. */
  lemma SaveStep(x: Ctx, f: Fold, f2: Fold, t: nat, waiting: set<nat>, todo: set<nat>, n: nat, l: nat)
    requires Saving(x, f, t, waiting, todo) && n in waiting && Writes(x, f, f2, t, n, l)
    requires Takes(f2.net, x.nPi, t, l, x.c, n) && Idle(f2.net, x.T, l, t + 1, x.mff)
    requires forall m :: m in waiting && m != n && m < Size(x.c) && Stored(f, m) ==> LatchOf(f, m) != l
    requires Stored(f, n) ==> LatchOf(f, n) == l
    ensures Saving(x, f2, t, waiting, todo - {n})
  {
    var todo2 := todo - {n};
    forall m | m in waiting && m != n
      ensures m < Size(x.c) && StoredWell(x, f2, m)
      ensures m in todo2 ==> Live(x, f2, t, m)
      ensures m !in todo2 ==> Taken(x, f2, t, m)
      ensures Stored(f2, m) <==> Stored(f, m)
      ensures Stored(f, m) ==> LatchOf(f2, m) == LatchOf(f, m)
    {
      if m in todo {
        KeptComputes(x, f, f2, t, t, f.pCopy[m], Edge(m, false));
        OtherObject(x, f, f2, t, n, l, m);
      } else {
        assert Taken(x, f, t, m);
        var k := LatchOf(f, m);
        OtherObject(x, f, f2, t, n, l, m);
        KeptComputes(x, f, f2, t, t, f.net.latchIn[k], Edge(m, false));
      }
    }
    assert Stored(f2, n) && LatchOf(f2, n) == l;
    SaveIdle(x, f, f2, t, waiting, todo, n, l);
  }

  lemma SaveIdle(x: Ctx, f: Fold, f2: Fold, t: nat, waiting: set<nat>, todo: set<nat>, n: nat, l: nat)
    requires Saving(x, f, t, waiting, todo) && n in waiting && Writes(x, f, f2, t, n, l)
    requires Idle(f2.net, x.T, l, t + 1, x.mff)
    requires Stored(f2, n) && LatchOf(f2, n) == l
    requires forall m :: m in waiting && m != n && m < Size(x.c) ==> Stored(f2, m) == Stored(f, m)
    requires forall m :: m in waiting && m != n && m < Size(x.c) && Stored(f, m) ==> LatchOf(f2, m) == LatchOf(f, m)
    requires Stored(f, n) ==> LatchOf(f, n) == l
    ensures IdleAll(x, f2, t + 1)
    ensures forall k :: x.T <= k < |f2.net.latchIn| && !TakenLatch(x, f2, waiting, todo - {n}, k) ==> Idle(f2.net, x.T, k, t, x.mff)
  {
    var t1 := t + 1;
    forall k | x.T <= k < |f2.net.latchIn| && k != l
      ensures Idle(f2.net, x.T, k, t1, x.mff)
      ensures !TakenLatch(x, f2, waiting, todo - {n}, k) ==> Idle(f2.net, x.T, k, t, x.mff)
    {
      KeptIdle(x, f, f2, t, k, t + 1);
      if !TakenLatch(x, f2, waiting, todo - {n}, k) {
        KeptIdle(x, f, f2, t, k, t);
      }
    }
    assert n in waiting - (todo - {n});
  }

  // ----- the three ways to write a latch -----

  /** The timer output of frame `t`. */
  function Ctrl(f: Fold, t: nat): Edge
    requires t < |f.bo|
  {
    Edge(f.bo[t], false)
  }

  /** A new latch that loads the copy of `n` in frame `t` and holds it otherwise. */
  function StoreHold(f: Fold, t: nat, n: nat): Fold
    requires t < |f.bo| && n < |f.pCopy|
  {
    var lat := Edge(|f.net.nodes|, false);
    var (nodes2, pLatIn) := MkMux(f.net.nodes + [Lat(|f.net.init|)], Ctrl(f, t), f.pCopy[n], lat);
    Fold(Net(nodes2, f.net.init + [false], f.net.latchIn + [pLatIn], f.net.pos), f.bo + [lat.node], f.pCopy[n := lat])
  }

  /** A new latch that loads the copy of `n` in frame `t` and nothing otherwise. */
  function StoreFirst(f: Fold, t: nat, n: nat): Fold
    requires t < |f.bo| && n < |f.pCopy|
  {
    var lat := Edge(|f.net.nodes|, false);
    var (nodes2, pLatIn) := MkAnd(f.net.nodes + [Lat(|f.net.init|)], Ctrl(f, t), f.pCopy[n]);
    Fold(Net(nodes2, f.net.init + [false], f.net.latchIn + [pLatIn], f.net.pos), f.bo + [lat.node], f.pCopy[n := lat])
  }

  /** Existing latch `l` also loads the copy of `n` in frame `t`. */
  function StoreMore(f: Fold, t: nat, n: nat, l: nat): Fold
    requires t < |f.bo| && n < |f.pCopy| && l < |f.net.latchIn| && l < |f.bo|
  {
    var (nodes1, e1) := MkAnd(f.net.nodes, Ctrl(f, t), f.pCopy[n]);
    var (nodes2, pLatIn) := MkOr(nodes1, e1, f.net.latchIn[l]);
    Fold(Net(nodes2, f.net.init, f.net.latchIn[l := pLatIn], f.net.pos), f.bo, f.pCopy[n := Edge(f.bo[l], false)])
  }

  lemma CtrlValue(x: Ctx, f: Fold, t: nat, lat: seq<bool>, pi: seq<bool>, u: nat)
    requires GoodFold(x, f) && t < x.T && u < x.T && OneHot(lat, u, x.T)
    ensures EvE(f.net.nodes, lat, pi, Ctrl(f, t)) == (u == t)
  {}

  /** The layout after one latch node and some logic have been appended. */
  lemma AddedLatch(x: Ctx, f: Fold, f2: Fold)
    requires GoodFold(x, f) && |f2.pCopy| == |f.pCopy|
    requires Extends(f.net.nodes + [Lat(|f.net.init|)], f2.net.nodes)
    requires f2.net.init == f.net.init + [false] && |f2.net.latchIn| == |f.net.latchIn| + 1
    requires f.net.latchIn <= f2.net.latchIn && f2.net.latchIn[|f.net.latchIn|].node < |f2.net.nodes|
    requires f2.net.pos == f.net.pos && f2.bo == f.bo + [|f.net.nodes|]
    ensures GoodFold(x, f2) && forall t: nat :: Evolves(f.net, f2.net, t, x.T)
  {
    var nodes1 := f.net.nodes + [Lat(|f.net.init|)];
    assert f.net.nodes <= f2.net.nodes && f2.net.nodes[|f.net.nodes|] == Lat(|f.net.init|);
    forall l | 0 <= l < |f2.bo| ensures f2.bo[l] < |f2.net.nodes| && f2.net.nodes[f2.bo[l]] == Lat(l) {
      if l < |f.bo| {
        assert f2.net.nodes[f2.bo[l]] == f.net.nodes[f.bo[l]];
      }
    }
    forall k | 0 <= k < |f2.net.nodes| && f2.net.nodes[k].Lat?
      ensures f2.net.nodes[k].l < |f2.net.init| && f2.bo[f2.net.nodes[k].l] == k
    {
      if k < |f.net.nodes| {
        assert f2.net.nodes[k] == f.net.nodes[k];
      } else if k < |nodes1| {
        assert f2.net.nodes[k] == nodes1[k];
      }
    }
    assert Layout(f2.net, f2.bo, x.nPi, x.T);
    forall t: nat ensures Evolves(f.net, f2.net, t, x.T) {
      forall l | 0 <= l < |f.net.latchIn| ensures SameExceptAt(f.net, f2.net, l, t, x.T) {
        forall lat, pi ensures EvE(f2.net.nodes, lat, pi, f2.net.latchIn[l]) == EvE(f.net.nodes, lat, pi, f.net.latchIn[l]) {
          EvEPrefix(f.net.nodes, f2.net.nodes, lat, pi, f.net.latchIn[l]);
        }
      }
    }
  }

  lemma StoreHoldOk(x: Ctx, f: Fold, t: nat, n: nat)
    requires GoodFold(x, f) && !x.mff && t < x.T && n < Size(x.c) && Live(x, f, t, n)
    ensures var f2 := StoreHold(f, t, n); var l := |f.bo|;
            Writes(x, f, f2, t, n, l) && Takes(f2.net, x.nPi, t, l, x.c, n) && Idle(f2.net, x.T, l, t + 1, x.mff) &&
            forall u: nat :: u < x.T && u != t ==> RestsAt(f2.net, x.T, l, u, x.mff)
  {
    var f2, l, latEdge := StoreHold(f, t, n), |f.bo|, Edge(|f.net.nodes|, false);
    var nodes1 := f.net.nodes + [Lat(l)];
    assert Ordered(nodes1);
    MkMuxOk(nodes1, Ctrl(f, t), f.pCopy[n], latEdge);
    AddedLatch(x, f, f2);
    assert Evolves(f.net, f2.net, t, x.T);
    var e := f2.net.latchIn[l];
    forall lat, pi, u: nat | u < x.T && |lat| == |f2.net.init| && OneHot(lat, u, x.T)
      ensures EvE(f2.net.nodes, lat, pi, e) == if u == t then EvE(f.net.nodes, lat, pi, f.pCopy[n]) else lat[l]
    {
      CtrlValue(x, f, t, lat, pi, u);
      EvEPrefix(f.net.nodes, nodes1, lat, pi, Ctrl(f, t));
      EvEPrefix(f.net.nodes, nodes1, lat, pi, f.pCopy[n]);
      assert Ev(nodes1, lat, pi, |f.net.nodes|) == lat[l];
    }
    TakesFromCopy(x, f, f2, t, n, l);
  }

  /** A latch input that reads the copy of `n` in frame `t` takes the value of `n`. */
  lemma TakesFromCopy(x: Ctx, f: Fold, f2: Fold, t: nat, n: nat, l: nat)
    requires GoodFold(x, f) && GoodFold(x, f2) && Evolves(f.net, f2.net, t, x.T) && t < x.T
    requires n < Size(x.c) && Live(x, f, t, n) && l < |f2.net.latchIn|
    requires forall lat, pi :: |lat| == |f2.net.init| && OneHot(lat, t, x.T) ==>
               EvE(f2.net.nodes, lat, pi, f2.net.latchIn[l]) == EvE(f.net.nodes, lat, pi, f.pCopy[n])
    ensures Takes(f2.net, x.nPi, t, l, x.c, n)
  {
    KeptComputes(x, f, f2, t, t, f.pCopy[n], Edge(n, false));
    forall v
      ensures EvE(f2.net.nodes, State(f2.net, v, x.nPi, t), Slice(v, t, x.nPi), f2.net.latchIn[l]) == CombValE(x.c, v, Edge(n, false))
    {
      var lat, pi := State(f2.net, v, x.nPi, t), Slice(v, t, x.nPi);
      TimerRuns(f2.net, f2.bo, x.nPi, x.T, v, t);
      EvEPrefix(f.net.nodes, f2.net.nodes, lat, pi, f.pCopy[n]);
    }
  }

  lemma StoreFirstOk(x: Ctx, f: Fold, t: nat, n: nat)
    requires GoodFold(x, f) && x.mff && t < x.T && n < Size(x.c) && Live(x, f, t, n)
    ensures var f2 := StoreFirst(f, t, n); var l := |f.bo|;
            Writes(x, f, f2, t, n, l) && Takes(f2.net, x.nPi, t, l, x.c, n) && Idle(f2.net, x.T, l, t + 1, x.mff) &&
            forall u: nat :: u < x.T && u != t ==> RestsAt(f2.net, x.T, l, u, x.mff)
  {
    var f2, l := StoreFirst(f, t, n), |f.bo|;
    var nodes1 := f.net.nodes + [Lat(l)];
    assert Ordered(nodes1);
    MkAndOk(nodes1, Ctrl(f, t), f.pCopy[n]);
    AddedLatch(x, f, f2);
    assert Evolves(f.net, f2.net, t, x.T);
    var e := f2.net.latchIn[l];
    forall lat, pi, u: nat | u < x.T && |lat| == |f2.net.init| && OneHot(lat, u, x.T)
      ensures EvE(f2.net.nodes, lat, pi, e) == (u == t && EvE(f.net.nodes, lat, pi, f.pCopy[n]))
    {
      CtrlValue(x, f, t, lat, pi, u);
      EvEPrefix(f.net.nodes, nodes1, lat, pi, Ctrl(f, t));
      EvEPrefix(f.net.nodes, nodes1, lat, pi, f.pCopy[n]);
    }
    TakesFromCopy(x, f, f2, t, n, l);
  }

  /** Rewriting an existing latch input keeps the layout. */
  lemma RewiredLatch(x: Ctx, f: Fold, f2: Fold, l: nat, t: nat)
    requires GoodFold(x, f) && |f2.pCopy| == |f.pCopy| && x.T <= l < |f.net.latchIn|
    requires Extends(f.net.nodes, f2.net.nodes) && f2.net.init == f.net.init && f2.bo == f.bo && f2.net.pos == f.net.pos
    requires |f2.net.latchIn| == |f.net.latchIn| && f2.net.latchIn[l].node < |f2.net.nodes|
    requires forall k :: 0 <= k < |f.net.latchIn| && k != l ==> f2.net.latchIn[k] == f.net.latchIn[k]
    requires forall lat, pi, u: nat :: u != t && u < x.T && OneHot(lat, u, x.T) ==>
               EvE(f2.net.nodes, lat, pi, f2.net.latchIn[l]) == EvE(f.net.nodes, lat, pi, f.net.latchIn[l])
    ensures GoodFold(x, f2) && Evolves(f.net, f2.net, t, x.T)
  {
    forall k | 0 <= k < |f2.bo| ensures f2.net.nodes[f2.bo[k]] == Lat(k) {
      assert f2.net.nodes[f2.bo[k]] == f.net.nodes[f.bo[k]];
    }
    forall k | 0 <= k < |f2.net.nodes| && f2.net.nodes[k].Lat?
      ensures f2.net.nodes[k].l < |f2.net.init| && f2.bo[f2.net.nodes[k].l] == k
    {
      if k < |f.net.nodes| {
        assert f2.net.nodes[k] == f.net.nodes[k];
      }
    }
    assert Layout(f2.net, f2.bo, x.nPi, x.T);
    forall k | 0 <= k < |f.net.latchIn| ensures SameExceptAt(f.net, f2.net, k, t, x.T) {
      if k != l {
        forall lat, pi ensures EvE(f2.net.nodes, lat, pi, f2.net.latchIn[k]) == EvE(f.net.nodes, lat, pi, f.net.latchIn[k]) {
          EvEPrefix(f.net.nodes, f2.net.nodes, lat, pi, f.net.latchIn[k]);
        }
      }
    }
  }

  lemma StoreMoreValue(x: Ctx, f: Fold, t: nat, n: nat, l: nat)
    requires GoodFold(x, f) && t < x.T && n < Size(x.c) && f.pCopy[n].node < |f.net.nodes| && x.T <= l < |f.net.latchIn|
    ensures var f2 := StoreMore(f, t, n, l);
            Extends(f.net.nodes, f2.net.nodes) && f2.net.latchIn[l].node < |f2.net.nodes| &&
            forall lat, pi, u: nat :: u < x.T && OneHot(lat, u, x.T) ==>
              EvE(f2.net.nodes, lat, pi, f2.net.latchIn[l]) ==
              ((u == t && EvE(f.net.nodes, lat, pi, f.pCopy[n])) || EvE(f.net.nodes, lat, pi, f.net.latchIn[l]))
  {
    var (nodes1, e1) := MkAnd(f.net.nodes, Ctrl(f, t), f.pCopy[n]);
    MkAndOk(f.net.nodes, Ctrl(f, t), f.pCopy[n]);
    MkOrOk(nodes1, e1, f.net.latchIn[l]);
    var (nodes2, e2) := MkOr(nodes1, e1, f.net.latchIn[l]);
    ExtendsTrans(f.net.nodes, nodes1, nodes2);
    forall lat, pi, u: nat | u < x.T && OneHot(lat, u, x.T)
      ensures EvE(nodes2, lat, pi, e2) ==
              ((u == t && EvE(f.net.nodes, lat, pi, f.pCopy[n])) || EvE(f.net.nodes, lat, pi, f.net.latchIn[l]))
    {
      CtrlValue(x, f, t, lat, pi, u);
      EvEPrefix(f.net.nodes, nodes1, lat, pi, f.net.latchIn[l]);
    }
  }

  /** An existing latch that is idle, or already takes `n`, also takes the copy of `n`. */
  lemma StoreMoreOk(x: Ctx, f: Fold, t: nat, n: nat, l: nat)
    requires GoodFold(x, f) && x.mff && t < x.T && n < Size(x.c) && Live(x, f, t, n) && x.T <= l < |f.net.latchIn|
    requires Idle(f.net, x.T, l, t + 1, x.mff)
    requires Idle(f.net, x.T, l, t, x.mff) || Takes(f.net, x.nPi, t, l, x.c, n)
    ensures var f2 := StoreMore(f, t, n, l);
            Writes(x, f, f2, t, n, l) && Takes(f2.net, x.nPi, t, l, x.c, n) && Idle(f2.net, x.T, l, t + 1, x.mff)
  {
    var f2 := StoreMore(f, t, n, l);
    StoreMoreValue(x, f, t, n, l);
    RewiredLatch(x, f, f2, l, t);
    KeptComputes(x, f, f2, t, t, f.pCopy[n], Edge(n, false));
    if Takes(f.net, x.nPi, t, l, x.c, n) {
      KeptComputes(x, f, f2, t, t, f.net.latchIn[l], Edge(n, false));
    }
    forall v
      ensures EvE(f2.net.nodes, State(f2.net, v, x.nPi, t), Slice(v, t, x.nPi), f2.net.latchIn[l]) == CombValE(x.c, v, Edge(n, false))
    {
      var lat, pi := State(f2.net, v, x.nPi, t), Slice(v, t, x.nPi);
      TimerRuns(f2.net, f2.bo, x.nPi, x.T, v, t);
      EvEPrefix(f.net.nodes, f2.net.nodes, lat, pi, f.pCopy[n]);
      EvEPrefix(f.net.nodes, f2.net.nodes, lat, pi, f.net.latchIn[l]);
      assert EvE(f2.net.nodes, lat, pi, f.pCopy[n]) == CombValE(x.c, v, Edge(n, false));
    }
  }

  /** A hold-mux latch keeps what it holds. */
  lemma HeldIsTaken(x: Ctx, f: Fold, t: nat, n: nat)
    requires GoodFold(x, f) && !x.mff && t < x.T && n < Size(x.c) && Live(x, f, t, n)
    requires Stored(f, n) && StoredWell(x, f, n) && Idle(f.net, x.T, LatchOf(f, n), t, x.mff)
    ensures Taken(x, f, t, n)
  {
    var l := LatchOf(f, n);
    forall v
      ensures EvE(f.net.nodes, State(f.net, v, x.nPi, t), Slice(v, t, x.nPi), f.net.latchIn[l]) == CombValE(x.c, v, Edge(n, false))
    {
      var lat, pi := State(f.net, v, x.nPi, t), Slice(v, t, x.nPi);
      TimerRuns(f.net, f.bo, x.nPi, x.T, v, t);
      assert EvE(f.net.nodes, lat, pi, f.pCopy[n]) == CombValE(x.c, v, Edge(n, false));
      assert EvE(f.net.nodes, lat, pi, f.pCopy[n]) == lat[l];
    }
  }

  /** Once every waiting object is taken, all of them are live in the next frame. */
  lemma NextFrameLive(x: Ctx, f: Fold, t: nat, waiting: set<nat>)
    requires Saving(x, f, t, waiting, {}) && t + 1 < x.T
    ensures LiveAll(x, f, t + 1, {}, waiting) && IdleAll(x, f, t + 1)
  {
    forall n | n in waiting ensures n < Size(x.c) && Live(x, f, t + 1, n) {
      assert Taken(x, f, t, n);
      TakenIsHeld(f.net, f.bo, x.nPi, x.T, t, LatchOf(f, n), x.c, n);
      assert f.pCopy[n] == Edge(f.bo[LatchOf(f, n)], false);
    }
  }
}
