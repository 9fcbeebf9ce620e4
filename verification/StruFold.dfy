/** stru_fold (timeMux4/aigMux4.cpp): folding a combinational AIG into a sequential one that
    is driven by a one-hot timer and stores half-ready fanins in latches. */
module StruFold {
  import opened Aig
  import opened Frames
  import opened FoldSpec

  // ----- fanouts and readiness in the original network -----

  datatype Fanout = ToPo(k: nat) | ToGate(a: nat)

  ghost predicate IsGate(c: Comb, a: nat) {
    c.nCi < a < Size(c)
  }

  ghost predicate FaninOf(c: Comb, x: nat, a: nat) {
    IsGate(c, a) && (GateOf(c, a).f0.node == x || GateOf(c, a).f1.node == x)
  }

  function OtherFanin(c: Comb, x: nat, a: nat): nat
    requires c.nCi < a < Size(c)
  {
    if GateOf(c, a).f0.node == x then GateOf(c, a).f1.node else GateOf(c, a).f0.node
  }

  /** Each object lists each of its fanouts once. */
  ghost predicate GoodFanouts(c: Comb, fanouts: seq<seq<Fanout>>)
    requires GoodComb(c)
  {
    && |fanouts| == Size(c)
    && (forall x, i, j :: 0 <= x < Size(c) && 0 <= i < j < |fanouts[x]| ==> fanouts[x][i] != fanouts[x][j])
    && (forall x, k: nat :: 0 <= x < Size(c) ==> (ToPo(k) in fanouts[x] <==> k < |c.pos| && c.pos[k].node == x))
    && (forall x, a: nat :: 0 <= x < Size(c) ==> (ToGate(a) in fanouts[x] <==> FaninOf(c, x, a)))
  }

  type Visits = set<(nat, Fanout)>

  /** Which fanouts have been visited, and what follows for the half-ready map and the ready set. */
  ghost predicate Tracking(c: Comb, vis: Visits, vMap: map<nat, nat>, ready: set<nat>)
    requires GoodComb(c)
  {
    && (forall y, a :: (y, ToGate(a)) in vis ==> FaninOf(c, y, a) && y in ready)
    && (forall a :: a in vMap ==> IsGate(c, a) && (vMap[a], ToGate(a)) in vis && (OtherFanin(c, vMap[a], a), ToGate(a)) !in vis)
    && (forall a, y :: IsGate(c, a) && (y, ToGate(a)) in vis && a !in vMap ==> a in ready)
    && (forall a :: IsGate(c, a) && a in ready ==>
          (GateOf(c, a).f0.node, ToGate(a)) in vis && (GateOf(c, a).f1.node, ToGate(a)) in vis && a !in vMap)
    && (forall n :: n in ready ==> n < Size(c))
  }

  // ----- what is known about the folded network in frame t -----

  type Info = (nat, Edge)

  datatype Fold = Fold(net: Net, bo: seq<nat>, pCopy: seq<Edge>)

  datatype Ctx = Ctx(c: Comb, nPi: nat, T: nat, mff: bool)

  ghost predicate GoodFold(x: Ctx, f: Fold) {
    && GoodComb(x.c) && |f.pCopy| == Size(x.c)
    && Layout(f.net, f.bo, x.nPi, x.T) && Timer(f.net, f.bo, x.T)
  }

  /** Object `n`'s copy has the object's value in frame `t`. */
  ghost predicate Live(x: Ctx, f: Fold, t: nat, n: nat)
    requires GoodFold(x, f)
  {
    n < Size(x.c) && Computes(f.net, x.nPi, t, f.pCopy[n], x.c, Edge(n, false))
  }

  /** The copy is the output of a data latch. */
  predicate Stored(f: Fold, n: nat)
    requires n < |f.pCopy|
  {
    f.pCopy[n].node < |f.net.nodes| && f.net.nodes[f.pCopy[n].node].Lat?
  }

  ghost predicate StoredWell(x: Ctx, f: Fold, n: nat)
    requires GoodFold(x, f) && n < Size(x.c)
  {
    Stored(f, n) ==> !f.pCopy[n].neg && x.T <= LatchOf(f, n) < |f.bo|
  }

  function LatchOf(f: Fold, n: nat): nat
    requires n < |f.pCopy| && Stored(f, n)
  {
    f.net.nodes[f.pCopy[n].node].l
  }

  /** Outputs recorded for frame `u` have the value of their original output. */
  ghost predicate InfosOk(x: Ctx, f: Fold, u: nat, infos: seq<Info>)
    requires GoodFold(x, f)
  {
    forall i :: 0 <= i < |infos| ==> InfoOk(x, f, u, infos[i])
  }

  ghost predicate InfoOk(x: Ctx, f: Fold, u: nat, info: Info)
    requires GoodFold(x, f)
  {
    info.0 < |x.c.pos| && Computes(f.net, x.nPi, u, info.1, x.c, x.c.pos[info.0])
  }

  /** `spot` says where each recorded output stands; nothing is recorded twice. */
  ghost predicate Recorded(poInfos: seq<seq<Info>>, spot: map<nat, (nat, nat)>) {
    && (forall u, i :: 0 <= u < |poInfos| && 0 <= i < |poInfos[u]| ==>
          poInfos[u][i].0 in spot && spot[poInfos[u][i].0] == (u, i))
    && (forall k :: k in spot ==> spot[k].0 < |poInfos| && spot[k].1 < |poInfos[spot[k].0]| && poInfos[spot[k].0][spot[k].1].0 == k)
  }

  lemma LiveChild(x: Ctx, f: Fold, t: nat, e: Edge)
    requires GoodFold(x, f) && e.node < Size(x.c) && Live(x, f, t, e.node)
    ensures Computes(f.net, x.nPi, t, ChildCopy(f.pCopy, e), x.c, e)
  {
    if e.neg {
      ComputesNot(f.net, x.nPi, t, f.pCopy[e.node], x.c, Edge(e.node, false));
      assert Not(Edge(e.node, false)) == e && Not(f.pCopy[e.node]) == ChildCopy(f.pCopy, e);
    } else {
      assert Edge(e.node, false) == e && f.pCopy[e.node] == ChildCopy(f.pCopy, e);
    }
  }

  /** Appending logic leaves every edge's value alone. */
  lemma AppendKeeps(x: Ctx, f: Fold, nodes2: seq<Node>)
    requires GoodFold(x, f) && Extends(f.net.nodes, nodes2)
    ensures GoodFold(x, f.(net := f.net.(nodes := nodes2)))
    ensures forall t: nat, e: Edge, g: Edge :: t < x.T && g.node < Size(x.c) && Computes(f.net, x.nPi, t, e, x.c, g) ==>
              Computes(f.net.(nodes := nodes2), x.nPi, t, e, x.c, g)
    ensures forall l, t: nat :: 0 <= l < |f.net.latchIn| && Idle(f.net, x.T, l, t, x.mff) ==>
              Idle(f.net.(nodes := nodes2), x.T, l, t, x.mff)
  {
    var net2 := f.net.(nodes := nodes2);
    assert GoodNet(net2);
    forall l | 0 <= l < |f.bo| ensures f.bo[l] < |nodes2| && nodes2[f.bo[l]] == Lat(l) {
      assert nodes2[f.bo[l]] == f.net.nodes[f.bo[l]];
    }
    forall k | 0 <= k < |nodes2| && nodes2[k].Lat? ensures nodes2[k].l < |f.net.init| && f.bo[nodes2[k].l] == k {
      if k < |f.net.nodes| {
        assert nodes2[k] == f.net.nodes[k];
      }
    }
    assert Layout(net2, f.bo, x.nPi, x.T);
    forall t: nat ensures Evolves(f.net, net2, t, x.T) {
      forall l | 0 <= l < |f.net.latchIn| ensures SameExceptAt(f.net, net2, l, t, x.T) {
        forall lat, pi ensures EvE(nodes2, lat, pi, f.net.latchIn[l]) == EvE(f.net.nodes, lat, pi, f.net.latchIn[l]) {
          EvEPrefix(f.net.nodes, nodes2, lat, pi, f.net.latchIn[l]);
        }
      }
    }
    forall t: nat, e: Edge, g: Edge | t < x.T && g.node < Size(x.c) && Computes(f.net, x.nPi, t, e, x.c, g)
      ensures Computes(net2, x.nPi, t, e, x.c, g)
    {
      ComputesKept(f.net, net2, f.bo, x.nPi, x.T, t, t, e, x.c, g);
    }
    forall l, t: nat | 0 <= l < |f.net.latchIn| && Idle(f.net, x.T, l, t, x.mff) ensures Idle(net2, x.T, l, t, x.mff) {
      forall lat, pi, u: nat | t <= u < x.T && |lat| == |net2.init| && OneHot(lat, u, x.T)
        ensures EvE(nodes2, lat, pi, net2.latchIn[l]) == (!x.mff && lat[l])
      {
        EvEPrefix(f.net.nodes, nodes2, lat, pi, f.net.latchIn[l]);
      }
    }
  }

  /** The gate's copy: a new AND of its fanins' copies. */
  lemma GateCopy(x: Ctx, f: Fold, t: nat, a: nat)
    requires GoodFold(x, f) && t < x.T && IsGate(x.c, a)
    requires Live(x, f, t, GateOf(x.c, a).f0.node) && Live(x, f, t, GateOf(x.c, a).f1.node)
    ensures var (nodes2, e) := MkAnd(f.net.nodes, ChildCopy(f.pCopy, GateOf(x.c, a).f0), ChildCopy(f.pCopy, GateOf(x.c, a).f1));
            Extends(f.net.nodes, nodes2) &&
            GoodFold(x, f.(net := f.net.(nodes := nodes2))) &&
            Computes(f.net.(nodes := nodes2), x.nPi, t, e, x.c, Edge(a, false)) && nodes2[e.node].And?
  {
    var g := GateOf(x.c, a);
    var e0, e1 := ChildCopy(f.pCopy, g.f0), ChildCopy(f.pCopy, g.f1);
    LiveChild(x, f, t, g.f0);
    LiveChild(x, f, t, g.f1);
    MkAndOk(f.net.nodes, e0, e1);
    var (nodes2, e) := MkAnd(f.net.nodes, e0, e1);
    AppendKeeps(x, f, nodes2);
    var net2 := f.net.(nodes := nodes2);
    assert Computes(net2, x.nPi, t, e0, x.c, g.f0) && Computes(net2, x.nPi, t, e1, x.c, g.f1);
    forall v ensures EvE(nodes2, State(net2, v, x.nPi, t), Slice(v, t, x.nPi), e) == CombValE(x.c, v, Edge(a, false)) {
      var lat, pi := State(net2, v, x.nPi, t), Slice(v, t, x.nPi);
      EvEPrefix(f.net.nodes, nodes2, lat, pi, e0);
      EvEPrefix(f.net.nodes, nodes2, lat, pi, e1);
      assert EvE(nodes2, lat, pi, e) == (EvE(f.net.nodes, lat, pi, e0) && EvE(f.net.nodes, lat, pi, e1));
    }
  }

  // ----- one frame of the traversal -----

  ghost function Queued(que: seq<nat>): set<nat> {
    set n | n in que
  }

  /** The work stack holds ready objects that have not been expanded; `bound` inputs are available. */
  ghost predicate Pending(c: Comb, que: seq<nat>, done: set<nat>, cur: set<nat>, bound: nat) {
    && (forall i, j :: 0 <= i < j < |que| ==> que[i] != que[j])
    && (forall i :: 0 <= i < |que| ==> que[i] !in done && que[i] !in cur)
    && done * cur == {}
    && (forall n :: 0 <= n <= c.nCi ==> (n in done + cur + Queued(que) <==> n <= bound))
  }

  /** Objects whose copies may still be read, with fresh copies for the ones not yet half-ready. */
  ghost predicate LiveAll(x: Ctx, f: Fold, t: nat, recent: set<nat>, waiting: set<nat>)
    requires GoodFold(x, f)
  {
    && (forall n :: n in recent + waiting ==> n < Size(x.c) && Live(x, f, t, n))
    && (forall n :: n in recent ==> n < Size(x.c) && !Stored(f, n))
    && (forall n :: n in waiting ==> n < Size(x.c) && StoredWell(x, f, n))
    && (forall n, m :: n in waiting && m in waiting && Stored(f, n) && Stored(f, m) && LatchOf(f, n) == LatchOf(f, m) ==> n == m)
  }

  ghost predicate InfosAll(x: Ctx, f: Fold, t: nat, poInfos: seq<seq<Info>>, spot: map<nat, (nat, nat)>, vis: Visits)
    requires GoodFold(x, f)
  {
    && |poInfos| == x.T
    && (forall u :: 0 <= u < x.T ==> if u <= t then InfosOk(x, f, u, poInfos[u]) else poInfos[u] == [])
    && Recorded(poInfos, spot)
    && (forall k: nat :: k in spot <==> k < |x.c.pos| && (x.c.pos[k].node, ToPo(k)) in vis)
  }

  ghost predicate IdleAll(x: Ctx, f: Fold, t: nat)
    requires GoodFold(x, f)
  {
    forall l :: x.T <= l < |f.net.latchIn| ==> Idle(f.net, x.T, l, t, x.mff)
  }

  lemma SameLive(x: Ctx, f: Fold, f2: Fold, t: nat, n: nat)
    requires GoodFold(x, f) && GoodFold(x, f2) && Live(x, f, t, n) && f2.pCopy[n] == f.pCopy[n] && t < x.T
    requires Extends(f.net.nodes, f2.net.nodes) && f2.net == f.net.(nodes := f2.net.nodes) && f2.bo == f.bo
    ensures Live(x, f2, t, n)
    ensures Stored(f2, n) <==> Stored(f, n)
    ensures Stored(f, n) ==> LatchOf(f2, n) == LatchOf(f, n)
    ensures StoredWell(x, f, n) ==> StoredWell(x, f2, n)
  {
    AppendKeeps(x, f, f2.net.nodes);
    assert Computes(f2.net, x.nPi, t, f.pCopy[n], x.c, Edge(n, false));
  }

  /** A first fanin of gate `a` becomes ready: the gate is half ready. */
  lemma FirstFanin(c: Comb, vis: Visits, vMap: map<nat, nat>, ready: set<nat>, n: nat, a: nat)
    requires GoodComb(c) && Tracking(c, vis, vMap, ready)
    requires FaninOf(c, n, a) && (n, ToGate(a)) !in vis && n in ready && a !in vMap
    ensures Tracking(c, vis + {(n, ToGate(a))}, vMap[a := n], ready)
  {
    assert a !in ready;
    assert (OtherFanin(c, n, a), ToGate(a)) !in vis;
  }

  /** The other fanin becomes ready: the gate is ready. */
  lemma SecondFanin(c: Comb, vis: Visits, vMap: map<nat, nat>, ready: set<nat>, n: nat, a: nat)
    requires GoodComb(c) && Tracking(c, vis, vMap, ready)
    requires FaninOf(c, n, a) && (n, ToGate(a)) !in vis && n in ready && a in vMap
    ensures vMap[a] == OtherFanin(c, n, a) && a !in ready
    ensures Tracking(c, vis + {(n, ToGate(a))}, vMap - {a}, ready + {a})
  {
    var y := vMap[a];
    assert FaninOf(c, y, a) && (y, ToGate(a)) in vis && y != n;
    assert n == OtherFanin(c, y, a) && y == OtherFanin(c, n, a);
    assert a in ready ==> (n, ToGate(a)) in vis;
  }

  lemma TrackingPo(c: Comb, vis: Visits, vMap: map<nat, nat>, ready: set<nat>, n: nat, k: nat)
    requires GoodComb(c) && Tracking(c, vis, vMap, ready)
    ensures Tracking(c, vis + {(n, ToPo(k))}, vMap, ready)
  {}

  /** Recording an output in frame `t`. */
  lemma RecordPo(x: Ctx, f: Fold, t: nat, poInfos: seq<seq<Info>>, spot: map<nat, (nat, nat)>, vis: Visits, k: nat, e: Edge)
    requires GoodFold(x, f) && InfosAll(x, f, t, poInfos, spot, vis) && t < x.T && k < |x.c.pos|
    requires (x.c.pos[k].node, ToPo(k)) !in vis && Computes(f.net, x.nPi, t, e, x.c, x.c.pos[k])
    ensures InfosAll(x, f, t, poInfos[t := poInfos[t] + [(k, e)]], spot[k := (t, |poInfos[t]|)], vis + {(x.c.pos[k].node, ToPo(k))})
  {
    var poInfos2 := poInfos[t := poInfos[t] + [(k, e)]];
    assert InfosOk(x, f, t, poInfos[t]);
    forall i | 0 <= i < |poInfos2[t]| ensures InfoOk(x, f, t, poInfos2[t][i]) {
      if i < |poInfos[t]| {
        assert poInfos2[t][i] == poInfos[t][i];
      }
    }
    forall u | 0 <= u < x.T && u != t ensures poInfos2[u] == poInfos[u] {}
  }

  lemma InfosKept(x: Ctx, f: Fold, f2: Fold, t: nat, poInfos: seq<seq<Info>>, spot: map<nat, (nat, nat)>, vis: Visits)
    requires GoodFold(x, f) && GoodFold(x, f2) && t < x.T && InfosAll(x, f, t, poInfos, spot, vis)
    requires forall u: nat, e: Edge, g: Edge :: u <= t && g.node < Size(x.c) && Computes(f.net, x.nPi, u, e, x.c, g) ==>
               Computes(f2.net, x.nPi, u, e, x.c, g)
    ensures InfosAll(x, f2, t, poInfos, spot, vis)
  {
    forall u | 0 <= u < x.T ensures if u <= t then InfosOk(x, f2, u, poInfos[u]) else poInfos[u] == [] {
      if u <= t {
        assert InfosOk(x, f, u, poInfos[u]);
        forall i | 0 <= i < |poInfos[u]| ensures InfoOk(x, f2, u, poInfos[u][i]) {
          assert InfoOk(x, f, u, poInfos[u][i]);
        }
      }
    }
  }

  lemma VisGateOnly(x: Ctx, f: Fold, t: nat, poInfos: seq<seq<Info>>, spot: map<nat, (nat, nat)>, vis: Visits, n: nat, a: nat)
    requires GoodFold(x, f) && InfosAll(x, f, t, poInfos, spot, vis)
    ensures InfosAll(x, f, t, poInfos, spot, vis + {(n, ToGate(a))})
  {}

  /** Everything a frame maintains while object `cur` (if any) is being expanded. */
  ghost predicate Frame(x: Ctx, f: Fold, t: nat, vMap: map<nat, nat>, que: seq<nat>, poInfos: seq<seq<Info>>,
                        vis: Visits, spot: map<nat, (nat, nat)>, done: set<nat>, cur: set<nat>)
  {
    && GoodFold(x, f) && t < x.T
    && Tracking(x.c, vis, vMap, done + cur + Queued(que))
    && Pending(x.c, que, done, cur, Cell(t + 1, x.nPi))
    && LiveAll(x, f, t, cur + Queued(que), vMap.Values)
    && InfosAll(x, f, t, poInfos, spot, vis)
    && IdleAll(x, f, t)
  }

  /** All fanouts of the expanded objects have been visited, and no others. */
  ghost predicate Expanded(x: Ctx, fanouts: seq<seq<Fanout>>, vis: Visits, done: set<nat>)
    requires GoodComb(x.c) && GoodFanouts(x.c, fanouts)
  {
    forall y, fo :: (y, fo) in vis <==> y in done && y < Size(x.c) && fo in fanouts[y]
  }

  lemma VisitPo(x: Ctx, fanouts: seq<seq<Fanout>>, f: Fold, t: nat, vMap: map<nat, nat>, que: seq<nat>, poInfos: seq<seq<Info>>,
                vis: Visits, spot: map<nat, (nat, nat)>, done: set<nat>, n: nat, k: nat)
    requires GoodComb(x.c) && GoodFanouts(x.c, fanouts)
    requires Frame(x, f, t, vMap, que, poInfos, vis, spot, done, {n})
    requires n < Size(x.c) && ToPo(k) in fanouts[n] && (n, ToPo(k)) !in vis
    ensures k < |x.c.pos| && x.c.pos[k].node < |f.pCopy| && t < |poInfos|
    ensures Frame(x, f, t, vMap, que, poInfos[t := poInfos[t] + [(k, ChildCopy(f.pCopy, x.c.pos[k]))]],
                  vis + {(n, ToPo(k))}, spot[k := (t, |poInfos[t]|)], done, {n})
  {
    LiveChild(x, f, t, x.c.pos[k]);
    RecordPo(x, f, t, poInfos, spot, vis, k, ChildCopy(f.pCopy, x.c.pos[k]));
    TrackingPo(x.c, vis, vMap, done + {n} + Queued(que), n, k);
  }

  lemma VisitHalf(x: Ctx, fanouts: seq<seq<Fanout>>, f: Fold, t: nat, vMap: map<nat, nat>, que: seq<nat>, poInfos: seq<seq<Info>>,
                  vis: Visits, spot: map<nat, (nat, nat)>, done: set<nat>, n: nat, a: nat)
    requires GoodComb(x.c) && GoodFanouts(x.c, fanouts)
    requires Frame(x, f, t, vMap, que, poInfos, vis, spot, done, {n})
    requires n < Size(x.c) && ToGate(a) in fanouts[n] && (n, ToGate(a)) !in vis && a !in vMap
    ensures Frame(x, f, t, vMap[a := n], que, poInfos, vis + {(n, ToGate(a))}, spot, done, {n})
  {
    FirstFanin(x.c, vis, vMap, done + {n} + Queued(que), n, a);
    VisGateOnly(x, f, t, poInfos, spot, vis, n, a);
    LiveMoves(x, f, t, {n} + Queued(que), vMap.Values, vMap[a := n].Values);
  }

  lemma VisitFull(x: Ctx, fanouts: seq<seq<Fanout>>, f: Fold, t: nat, vMap: map<nat, nat>, que: seq<nat>, poInfos: seq<seq<Info>>,
                  vis: Visits, spot: map<nat, (nat, nat)>, done: set<nat>, n: nat, a: nat)
      returns (f2: Fold)
    requires GoodComb(x.c) && GoodFanouts(x.c, fanouts)
    requires Frame(x, f, t, vMap, que, poInfos, vis, spot, done, {n})
    requires n < Size(x.c) && ToGate(a) in fanouts[n] && (n, ToGate(a)) !in vis && a in vMap
    ensures IsGate(x.c, a) && vMap[a] != n && GateOf(x.c, a).f0.node < |f.pCopy| && GateOf(x.c, a).f1.node < |f.pCopy|
    ensures var (nodes2, e) := MkAnd(f.net.nodes, ChildCopy(f.pCopy, GateOf(x.c, a).f0), ChildCopy(f.pCopy, GateOf(x.c, a).f1));
            f2 == f.(net := f.net.(nodes := nodes2), pCopy := f.pCopy[a := e])
    ensures Frame(x, f2, t, vMap - {a}, que + [a], poInfos, vis + {(n, ToGate(a))}, spot, done, {n})
  {
    f2 := FullCopy(x, f, t, vMap, que, poInfos, vis, spot, n, a, done + {n} + Queued(que));
    PushReady(x.c, que, done, n, a, Cell(t + 1, x.nPi), done + {n} + Queued(que));
    VisGateOnly(x, f2, t, poInfos, spot, vis, n, a);
    forall m | m in (vMap - {a}).Values ensures m in vMap.Values {}
    LiveMoves(x, f2, t, {n} + Queued(que + [a]), vMap.Values, (vMap - {a}).Values);
  }

  /** The new copy of a gate whose second fanin is `n`. */
  lemma FullCopy(x: Ctx, f: Fold, t: nat, vMap: map<nat, nat>, que: seq<nat>, poInfos: seq<seq<Info>>,
                 vis: Visits, spot: map<nat, (nat, nat)>, n: nat, a: nat, ready: set<nat>)
      returns (f2: Fold)
    requires GoodFold(x, f) && t < x.T && Tracking(x.c, vis, vMap, ready) && n in ready && Queued(que) <= ready
    requires LiveAll(x, f, t, {n} + Queued(que), vMap.Values) && InfosAll(x, f, t, poInfos, spot, vis) && IdleAll(x, f, t)
    requires FaninOf(x.c, n, a) && (n, ToGate(a)) !in vis && a in vMap
    ensures vMap[a] != n && a !in ready && GateOf(x.c, a).f0.node < |f.pCopy| && GateOf(x.c, a).f1.node < |f.pCopy|
    ensures Tracking(x.c, vis + {(n, ToGate(a))}, vMap - {a}, ready + {a})
    ensures var (nodes2, e) := MkAnd(f.net.nodes, ChildCopy(f.pCopy, GateOf(x.c, a).f0), ChildCopy(f.pCopy, GateOf(x.c, a).f1));
            f2 == f.(net := f.net.(nodes := nodes2), pCopy := f.pCopy[a := e])
    ensures GoodFold(x, f2) && LiveAll(x, f2, t, {n} + Queued(que + [a]), vMap.Values)
    ensures InfosAll(x, f2, t, poInfos, spot, vis) && IdleAll(x, f2, t)
  {
    SecondFanin(x.c, vis, vMap, ready, n, a);
    assert vMap[a] in vMap.Values;
    GateCopy(x, f, t, a);
    var g := GateOf(x.c, a);
    var (nodes2, e) := MkAnd(f.net.nodes, ChildCopy(f.pCopy, g.f0), ChildCopy(f.pCopy, g.f1));
    f2 := f.(net := f.net.(nodes := nodes2), pCopy := f.pCopy[a := e]);
    WaitingReady(x.c, vis, vMap, ready);
    CopyKeeps(x, f, f2, t, poInfos, spot, vis, a, {n} + Queued(que), vMap.Values);
    QueuedSnoc(que, a);
    assert {n} + Queued(que + [a]) == {n} + Queued(que) + {a};
  }

  lemma WaitingReady(c: Comb, vis: Visits, vMap: map<nat, nat>, ready: set<nat>)
    requires GoodComb(c) && Tracking(c, vis, vMap, ready)
    ensures vMap.Values <= ready
  {
    forall m | m in vMap.Values ensures m in ready {
      var b :| b in vMap && vMap[b] == m;
      assert (m, ToGate(b)) in vis;
    }
  }

  lemma PushReady(c: Comb, que: seq<nat>, done: set<nat>, n: nat, a: nat, bound: nat, ready: set<nat>)
    requires Pending(c, que, done, {n}, bound) && ready == done + {n} + Queued(que) && a !in ready && c.nCi < a
    ensures Pending(c, que + [a], done, {n}, bound) && done + {n} + Queued(que + [a]) == ready + {a}
  {
    QueuedSnoc(que, a);
    forall i | 0 <= i < |que| ensures que[i] != a {
      assert que[i] in Queued(que);
    }
  }

  lemma QueuedSnoc(que: seq<nat>, a: nat)
    ensures Queued(que + [a]) == Queued(que) + {a}
  {
    assert (que + [a])[|que|] == a;
    forall m | m in Queued(que) ensures m in que + [a] {}
  }

  /** Giving object `a` a new copy in an extended network keeps everything about the others. */
  lemma CopyKeeps(x: Ctx, f: Fold, f2: Fold, t: nat, poInfos: seq<seq<Info>>, spot: map<nat, (nat, nat)>, vis: Visits,
                  a: nat, recent: set<nat>, waiting: set<nat>)
    requires GoodFold(x, f) && t < x.T && a < |f.pCopy| && a !in recent + waiting
    requires Extends(f.net.nodes, f2.net.nodes) && f2.net == f.net.(nodes := f2.net.nodes) && f2.bo == f.bo
    requires |f2.pCopy| == |f.pCopy| && f2.pCopy == f.pCopy[a := f2.pCopy[a]] && f2.pCopy[a].node < |f2.net.nodes| && f2.net.nodes[f2.pCopy[a].node].And?
    requires GoodFold(x, f2) && Computes(f2.net, x.nPi, t, f2.pCopy[a], x.c, Edge(a, false))
    requires LiveAll(x, f, t, recent, waiting) && InfosAll(x, f, t, poInfos, spot, vis) && IdleAll(x, f, t)
    ensures LiveAll(x, f2, t, recent + {a}, waiting) && InfosAll(x, f2, t, poInfos, spot, vis) && IdleAll(x, f2, t)
  {
    AppendKeeps(x, f, f2.net.nodes);
    InfosKept(x, f, f2, t, poInfos, spot, vis);
    forall m | m in recent + waiting
      ensures m < Size(x.c) && Live(x, f2, t, m)
      ensures Stored(f2, m) <==> Stored(f, m)
      ensures Stored(f, m) ==> LatchOf(f2, m) == LatchOf(f, m)
      ensures StoredWell(x, f, m) ==> StoredWell(x, f2, m)
    {
      SameLive(x, f, f2, t, m);
    }
  }

  /** A fresh object may start to wait, and a waiting one may stop. */
  lemma LiveMoves(x: Ctx, f: Fold, t: nat, recent: set<nat>, waiting: set<nat>, waiting2: set<nat>)
    requires GoodFold(x, f) && LiveAll(x, f, t, recent, waiting) && waiting2 <= waiting + recent
    ensures LiveAll(x, f, t, recent, waiting2)
  {}

  /** Taking the next object off the stack. */
  lemma PopObject(x: Ctx, f: Fold, t: nat, vMap: map<nat, nat>, que: seq<nat>, poInfos: seq<seq<Info>>,
                  vis: Visits, spot: map<nat, (nat, nat)>, done: set<nat>)
    requires Frame(x, f, t, vMap, que, poInfos, vis, spot, done, {}) && que != []
    ensures Frame(x, f, t, vMap, que[..|que| - 1], poInfos, vis, spot, done, {que[|que| - 1]})
    ensures que[|que| - 1] < Size(x.c) && que[|que| - 1] !in done
  {
    var n, que2 := que[|que| - 1], que[..|que| - 1];
    assert que == que2 + [n];
    assert Queued(que) == Queued(que2) + {n};
    assert done + {} + Queued(que) == done + {n} + Queued(que2);
  }

  /** An object whose fanouts have all been visited is done. */
  lemma FinishObject(x: Ctx, f: Fold, t: nat, vMap: map<nat, nat>, que: seq<nat>, poInfos: seq<seq<Info>>,
                     vis: Visits, spot: map<nat, (nat, nat)>, done: set<nat>, n: nat)
    requires Frame(x, f, t, vMap, que, poInfos, vis, spot, done, {n})
    ensures Frame(x, f, t, vMap, que, poInfos, vis, spot, done + {n}, {})
  {
    assert done + {n} + Queued(que) == (done + {n}) + {} + Queued(que);
    assert done * {n} == {};
  }
}
