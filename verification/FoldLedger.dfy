/** Which latches the folded network has, what each of them loads and in which frame
    (timeMux4/aigMux4.cpp). */
module FoldLedger {
  import opened FiniteSets
  import opened Aig
  import opened Frames
  import opened FoldSpec
  import opened StruFold
  import opened FoldStore
  import opened FoldWaits
  import opened FoldOutputs

  // ----- the two kinds of data latches -----

  /** A hold-mux latch: it takes object `n` in the frame in which `n` arrives and keeps it in all others. */
  ghost predicate Holds(c: Comb, nPi: nat, T: nat, net: Net, l: nat, n: nat)
    requires GoodComb(c) && GoodNet(net)
  {
    && n < Size(c) && l < |net.latchIn| && Takes(net, nPi, Arrival(c, nPi, n), l, c, n)
    && forall u: nat :: u < T && u != Arrival(c, nPi, n) ==> RestsAt(net, T, l, u, false)
  }

  ghost predicate HoldsSome(c: Comb, nPi: nat, T: nat, net: Net, l: nat)
    requires GoodComb(c) && GoodNet(net)
  {
    exists n :: n in EverWaiting(c, nPi) && Holds(c, nPi, T, net, l, n)
  }

  /** A reused latch takes, in frame `u`, an object that waits then, or else reads false. */
  ghost predicate LoadsAt(c: Comb, nPi: nat, T: nat, net: Net, l: nat, u: nat)
    requires GoodComb(c) && GoodNet(net)
  {
    && l < |net.latchIn|
    && (RestsAt(net, T, l, u, true) || exists n :: n in Waiting(c, nPi, u) && Takes(net, nPi, u, l, c, n))
  }

  ghost predicate TakenBy(c: Comb, nPi: nat, T: nat, net: Net, u: nat, n: nat)
    requires GoodComb(c) && GoodNet(net) && n < Size(c)
  {
    exists l: nat :: T <= l < |net.latchIn| && Takes(net, nPi, u, l, c, n)
  }

  /** Without reuse every object that ever waits has a latch of its own, and there is no other. */
  ghost predicate HoldLatches(c: Comb, nPi: nat, T: nat, net: Net)
    requires GoodComb(c) && GoodNet(net)
  {
    && |net.init| == T + |EverWaiting(c, nPi)|
    && (forall l: nat :: T <= l < |net.init| ==> HoldsSome(c, nPi, T, net, l))
    && (forall n :: n in EverWaiting(c, nPi) ==> exists l: nat :: T <= l < |net.init| && Holds(c, nPi, T, net, l, n))
  }

  /** With reuse there are as many latches as objects wait in the fullest frame, and every waiting
      object is taken in each frame in which it waits. */
  ghost predicate ReusedLatches(c: Comb, nPi: nat, T: nat, net: Net)
    requires GoodComb(c) && GoodNet(net)
  {
    && (forall u: nat :: u < T ==> T + |Waiting(c, nPi, u)| <= |net.init|)
    && (|net.init| == T || exists u: nat :: u < T && |net.init| == T + |Waiting(c, nPi, u)|)
    && (forall l: nat, u: nat :: T <= l < |net.init| && u < T ==> LoadsAt(c, nPi, T, net, l, u))
    && (forall u: nat, n :: u < T && n in Waiting(c, nPi, u) ==> TakenBy(c, nPi, T, net, u, n))
  }

  /** The timer first, then the data latches, all of which start false. */
  ghost predicate Latched(c: Comb, nPi: nat, T: nat, mff: bool, net: Net)
  {
    && GoodComb(c) && GoodNet(net) && T <= |net.init| && (forall l :: T <= l < |net.init| ==> !net.init[l])
    && (forall x, t: nat :: t < T ==> OneHot(State(net, x, nPi, t), t, T))
    && if mff then ReusedLatches(c, nPi, T, net) else HoldLatches(c, nPi, T, net)
  }

  // ----- what later steps keep -----

  lemma RestsKept(x: Ctx, f: Fold, f2: Fold, t: nat, l: nat, u: nat)
    requires GoodFold(x, f) && GoodFold(x, f2) && Evolves(f.net, f2.net, t, x.T) && u < x.T
    requires l < |f.net.latchIn| && (u != t || f2.net.latchIn[l] == f.net.latchIn[l]) && RestsAt(f.net, x.T, l, u, x.mff)
    ensures RestsAt(f2.net, x.T, l, u, x.mff)
  {
    forall lat, pi | |lat| == |f2.net.init| && OneHot(lat, u, x.T)
      ensures EvE(f2.net.nodes, lat, pi, f2.net.latchIn[l]) == (!x.mff && lat[l])
    {
      var oldLat := lat[..|f.net.init|];
      assert OneHot(oldLat, u, x.T);
      if u != t {
        assert SameExceptAt(f.net, f2.net, l, t, x.T);
      } else {
        EvEPrefix(f.net.nodes, f2.net.nodes, lat, pi, f.net.latchIn[l]);
      }
      EvMoreLatches(f.net.nodes, oldLat, lat, pi, f.net.latchIn[l].node);
      assert EvE(f.net.nodes, oldLat, pi, f.net.latchIn[l]) == (!x.mff && oldLat[l]);
    }
  }

  /** What a latch took in an earlier frame it still takes. */
  lemma TakesKept(x: Ctx, f: Fold, f2: Fold, t: nat, u: nat, l: nat, n: nat)
    requires GoodFold(x, f) && GoodFold(x, f2) && Evolves(f.net, f2.net, t, x.T) && u <= t < x.T && n < Size(x.c)
    requires l < |f.net.latchIn| && (u != t || f2.net.latchIn[l] == f.net.latchIn[l]) && Takes(f.net, x.nPi, u, l, x.c, n)
    ensures Takes(f2.net, x.nPi, u, l, x.c, n)
  {
    KeptComputes(x, f, f2, t, u, f.net.latchIn[l], Edge(n, false));
    forall v
      ensures EvE(f2.net.nodes, State(f2.net, v, x.nPi, u), Slice(v, u, x.nPi), f2.net.latchIn[l]) == CombValE(x.c, v, Edge(n, false))
    {
      TimerRuns(f2.net, f2.bo, x.nPi, x.T, v, u);
      if u != t {
        assert SameExceptAt(f.net, f2.net, l, t, x.T);
        EvEPrefix(f.net.nodes, f2.net.nodes, State(f2.net, v, x.nPi, u), Slice(v, u, x.nPi), f.net.latchIn[l]);
      }
    }
  }

  // ----- hold-mux latches -----

  ghost predicate DataFalse(net: Net, T: nat) {
    forall l :: T <= l < |net.init| ==> !net.init[l]
  }

  ghost predicate HeldObject(x: Ctx, f: Fold, n: nat)
    requires GoodFold(x, f)
  {
    && n < Size(x.c) && Stored(f, n) && StoredWell(x, f, n) && n in EverWaiting(x.c, x.nPi)
    && Arrival(x.c, x.nPi, n) < x.T && Holds(x.c, x.nPi, x.T, f.net, LatchOf(f, n), n)
  }

  ghost predicate OwnsLatch(f: Fold, objs: set<nat>, l: nat) {
    exists n :: n in objs && n < |f.pCopy| && Stored(f, n) && LatchOf(f, n) == l
  }

  ghost predicate SharesNone(f: Fold, objs: set<nat>) {
    forall n, m :: n in objs && m in objs && n < |f.pCopy| && m < |f.pCopy| && Stored(f, n) && Stored(f, m) && LatchOf(f, n) == LatchOf(f, m) ==> n == m
  }

  /** The objects in latches are `objs`; each has one latch, which holds it, and every data latch has its object. */
  ghost predicate Held(x: Ctx, f: Fold, objs: set<nat>) {
    && GoodFold(x, f) && !x.mff && DataFalse(f.net, x.T)
    && (forall n :: 0 <= n < Size(x.c) ==> f.pCopy[n].node < |f.net.nodes|)
    && (forall n: nat :: n in objs <==> n < Size(x.c) && Stored(f, n))
    && (forall n :: n in objs ==> HeldObject(x, f, n))
    && SharesNone(f, objs)
    && (forall l: nat :: x.T <= l < |f.bo| ==> OwnsLatch(f, objs, l))
  }

  lemma HeldKept(x: Ctx, f: Fold, f2: Fold, t: nat, n: nat)
    requires GoodFold(x, f) && GoodFold(x, f2) && Evolves(f.net, f2.net, t, x.T) && t < x.T && !x.mff && HeldObject(x, f, n)
    requires Arrival(x.c, x.nPi, n) <= t && f2.pCopy[n] == f.pCopy[n] && f.bo <= f2.bo
    requires f.net.latchIn <= f2.net.latchIn
    ensures HeldObject(x, f2, n) && LatchOf(f2, n) == LatchOf(f, n)
  {
    var l, u := LatchOf(f, n), Arrival(x.c, x.nPi, n);
    assert f2.net.nodes[f.pCopy[n].node] == f.net.nodes[f.pCopy[n].node];
    TakesKept(x, f, f2, t, u, l, n);
    forall v: nat | v < x.T && v != u ensures RestsAt(f2.net, x.T, l, v, false) {
      RestsKept(x, f, f2, t, l, v);
    }
  }

  /** A new latch for an object that arrives in this frame. */
  lemma HeldNext(x: Ctx, f: Fold, t: nat, objs: set<nat>, n: nat)
    requires Held(x, f, objs) && t < x.T && n < Size(x.c) && Live(x, f, t, n) && n !in objs
    requires n in EverWaiting(x.c, x.nPi) && Arrival(x.c, x.nPi, n) == t && forall m :: m in objs ==> m < Size(x.c) && Arrival(x.c, x.nPi, m) <= t
    ensures Held(x, StoreHold(f, t, n), objs + {n})
  {
    hide Holds, DataFalse, Live, Takes, RestsAt, HeldObject;
    StoreHoldOk(x, f, t, n);
    var f2, l, objs2 := StoreHold(f, t, n), |f.bo|, objs + {n};
    HoldShape(x, f, t, n);
    NewHolds(x, f2, t, n, l);
    HeldOthers(x, f, f2, t, objs, n, l);
    OwnersGrow(x, f, f2, objs, n, l);
  }

  lemma HeldOthers(x: Ctx, f: Fold, f2: Fold, t: nat, objs: set<nat>, n: nat, l: nat)
    requires Held(x, f, objs) && Writes(x, f, f2, t, n, l) && l == |f.bo| && t < x.T && n !in objs
    requires f.net.latchIn <= f2.net.latchIn && forall m :: m in objs ==> m < Size(x.c) && Arrival(x.c, x.nPi, m) <= t
    ensures forall m :: m in objs ==> HeldObject(x, f2, m) && Stored(f, m) && Stored(f2, m) && LatchOf(f2, m) == LatchOf(f, m) < l
    ensures forall m: nat :: m < Size(x.c) && m != n ==> f2.pCopy[m].node < |f2.net.nodes| && (Stored(f2, m) <==> Stored(f, m))
  {
    hide Holds, DataFalse;
    forall m | m in objs ensures HeldObject(x, f2, m) && LatchOf(f2, m) == LatchOf(f, m) < l {
      HeldKept(x, f, f2, t, m);
    }
    forall m: nat | m < Size(x.c) && m != n ensures f2.pCopy[m].node < |f2.net.nodes| && (Stored(f2, m) <==> Stored(f, m)) {
      assert f.pCopy[m].node < |f.net.nodes|;
      OtherObject(x, f, f2, t, n, l, m);
    }
  }

  lemma OwnersGrow(x: Ctx, f: Fold, f2: Fold, objs: set<nat>, n: nat, l: nat)
    requires |f2.pCopy| == |f.pCopy| && n < |f.pCopy| && Stored(f2, n) && LatchOf(f2, n) == l == |f.bo|
    requires SharesNone(f, objs) && forall k: nat :: x.T <= k < l ==> OwnsLatch(f, objs, k)
    requires forall m :: m in objs ==> m < |f.pCopy| && Stored(f, m) && Stored(f2, m) && LatchOf(f2, m) == LatchOf(f, m) < l
    ensures SharesNone(f2, objs + {n}) && forall k: nat :: x.T <= k < l + 1 ==> OwnsLatch(f2, objs + {n}, k)
  {
    hide Stored, LatchOf;
    forall k: nat | x.T <= k < l + 1 ensures OwnsLatch(f2, objs + {n}, k) {
      if k < l {
        assert OwnsLatch(f, objs, k);
        var m :| m in objs && m < |f.pCopy| && Stored(f, m) && LatchOf(f, m) == k;
        assert m in objs + {n};
      } else {
        assert n in objs + {n};
      }
    }
  }

  lemma HoldShape(x: Ctx, f: Fold, t: nat, n: nat)
    requires GoodFold(x, f) && DataFalse(f.net, x.T) && t < x.T && n < Size(x.c)
    ensures var f2 := StoreHold(f, t, n);
            DataFalse(f2.net, x.T) && |f2.bo| == |f.bo| + 1 && f.bo <= f2.bo && f.net.latchIn <= f2.net.latchIn && |f.net.nodes| < |f2.net.nodes| &&
            f2.pCopy == f.pCopy[n := Edge(|f.net.nodes|, false)] && f2.net.nodes[|f.net.nodes|] == Lat(|f.bo|)
  {}

  lemma NewHolds(x: Ctx, f2: Fold, t: nat, n: nat, l: nat)
    requires GoodFold(x, f2) && !x.mff && n < Size(x.c) && x.T <= l < |f2.bo| && t < x.T && Arrival(x.c, x.nPi, n) == t
    requires n in EverWaiting(x.c, x.nPi) && Takes(f2.net, x.nPi, t, l, x.c, n)
    requires forall u: nat :: u < x.T && u != t ==> RestsAt(f2.net, x.T, l, u, false)
    requires Stored(f2, n) && !f2.pCopy[n].neg && LatchOf(f2, n) == l
    ensures HeldObject(x, f2, n)
  {}

  /** Logic is appended, and one object that has not been stored gets an ordinary copy. */
  ghost predicate Appends(x: Ctx, f: Fold, f2: Fold) {
    && GoodFold(x, f) && GoodFold(x, f2) && Extends(f.net.nodes, f2.net.nodes)
    && f2.net == f.net.(nodes := f2.net.nodes) && f2.bo == f.bo
  }

  lemma AppendEvolves(x: Ctx, f: Fold, f2: Fold, t: nat)
    requires Appends(x, f, f2)
    ensures Evolves(f.net, f2.net, t, x.T)
  {
    forall l | 0 <= l < |f.net.latchIn| ensures SameExceptAt(f.net, f2.net, l, t, x.T) {
      forall lat, pi ensures EvE(f2.net.nodes, lat, pi, f2.net.latchIn[l]) == EvE(f.net.nodes, lat, pi, f.net.latchIn[l]) {
        EvEPrefix(f.net.nodes, f2.net.nodes, lat, pi, f.net.latchIn[l]);
      }
    }
  }

  /** Copies of objects in latches stay, the others get copies that are no latches. */
  ghost predicate KeepsStored(x: Ctx, f: Fold, f2: Fold, objs: set<nat>)
    requires |f.pCopy| == |f2.pCopy| == Size(x.c)
  {
    forall n: nat :: n < Size(x.c) ==>
      f2.pCopy[n] == f.pCopy[n] || (n !in objs && f2.pCopy[n].node < |f2.net.nodes| && !f2.net.nodes[f2.pCopy[n].node].Lat?)
  }

  lemma HeldAppend(x: Ctx, f: Fold, f2: Fold, objs: set<nat>)
    requires Held(x, f, objs) && Appends(x, f, f2) && KeepsStored(x, f, f2, objs)
    ensures Held(x, f2, objs)
  {
    hide Holds, DataFalse;
    forall n: nat | n < Size(x.c) && f2.pCopy[n] == f.pCopy[n] ensures Stored(f2, n) <==> Stored(f, n) {
      assert f.pCopy[n].node < |f.net.nodes|;
    }
    forall n | n in objs ensures HeldObject(x, f2, n) && LatchOf(f2, n) == LatchOf(f, n) {
      assert HeldObject(x, f, n) && f2.pCopy[n] == f.pCopy[n];
      AppendEvolves(x, f, f2, Arrival(x.c, x.nPi, n));
      HeldKept(x, f, f2, Arrival(x.c, x.nPi, n), n);
    }
    forall l: nat | x.T <= l < |f2.bo| ensures OwnsLatch(f2, objs, l) {
      assert OwnsLatch(f, objs, l);
      var n :| n in objs && n < |f.pCopy| && Stored(f, n) && LatchOf(f, n) == l;
      assert Stored(f2, n) && LatchOf(f2, n) == l;
    }
    assert DataFalse(f2.net, x.T) by {
      FalseSame(f.net, f2.net, x.T);
    }
  }

  lemma FalseSame(net: Net, net2: Net, T: nat)
    requires DataFalse(net, T) && net2.init == net.init
    ensures DataFalse(net2, T)
  {}

  // ----- counting latches -----

  ghost function Latches(f: Fold, objs: set<nat>): set<nat> {
    set n | n in objs && n < |f.pCopy| && Stored(f, n) :: LatchOf(f, n)
  }

  /** Objects that share no latch are as many as their latches. */
  lemma {:induction false} LatchCount(f: Fold, objs: set<nat>)
    requires SharesNone(f, objs) && forall n :: n in objs ==> n < |f.pCopy| && Stored(f, n)
    ensures |Latches(f, objs)| == |objs|
    decreases |objs|
  {
    if objs == {} {
      assert Latches(f, objs) == {};
    } else {
      var n :| n in objs;
      var rest := objs - {n};
      LatchCount(f, rest);
      assert Latches(f, objs) == Latches(f, rest) + {LatchOf(f, n)};
      assert LatchOf(f, n) !in Latches(f, rest);
    }
  }

  ghost function Range(a: nat, b: nat): (s: set<nat>)
    requires a <= b
    ensures |s| == b - a && forall l: nat :: l in s <==> a <= l < b
  {
    assert Below(b) == Below(a) + (Below(b) - Below(a));
    Below(b) - Below(a)
  }

  /** Objects with latches of their own among the data latches; equally many if every data latch is used. */
  lemma LatchesFit(T: nat, f: Fold, objs: set<nat>)
    requires T <= |f.bo| && SharesNone(f, objs)
    requires forall n :: n in objs ==> n < |f.pCopy| && Stored(f, n) && T <= LatchOf(f, n) < |f.bo|
    ensures T + |objs| <= |f.bo|
    ensures (forall l: nat :: T <= l < |f.bo| ==> OwnsLatch(f, objs, l)) ==> |f.bo| == T + |objs|
  {
    LatchCount(f, objs);
    var s, r := Latches(f, objs), Range(T, |f.bo|);
    assert s <= r;
    SubsetSize(s, r);
    if forall l: nat :: T <= l < |f.bo| ==> OwnsLatch(f, objs, l) {
      forall l | l in r ensures l in s {
        assert OwnsLatch(f, objs, l);
      }
      assert s == r;
    }
  }

  // ----- reused latches -----

  /** The frames before `t` as `ReusedLatches` describes them. */
  ghost predicate Reused(x: Ctx, f: Fold, t: nat) {
    Loads(x, f, t) && Counted(x, |f.bo|, t)
  }

  ghost predicate Loads(x: Ctx, f: Fold, t: nat) {
    && GoodFold(x, f) && x.mff && DataFalse(f.net, x.T)
    && (forall l: nat, u: nat :: x.T <= l < |f.net.init| && u < t ==> LoadsAt(x.c, x.nPi, x.T, f.net, l, u))
    && (forall u: nat, n :: u < t && n in Waiting(x.c, x.nPi, u) ==> TakenBy(x.c, x.nPi, x.T, f.net, u, n))
  }

  ghost predicate Counted(x: Ctx, size: nat, t: nat)
    requires GoodComb(x.c)
  {
    && (forall u: nat :: u < t ==> x.T + |Waiting(x.c, x.nPi, u)| <= size)
    && (size == x.T || exists u: nat :: u < t && size == x.T + |Waiting(x.c, x.nPi, u)|)
  }

  /** What earlier frames load is kept by writing a latch in frame `t`. */
  lemma LoadsKept(x: Ctx, f: Fold, f2: Fold, t: nat)
    requires Loads(x, f, t) && t < x.T && GoodFold(x, f2) && Evolves(f.net, f2.net, t, x.T) && DataFalse(f2.net, x.T)
    requires forall l: nat, u: nat :: |f.net.init| <= l < |f2.net.init| && u < t ==> RestsAt(f2.net, x.T, l, u, true)
    ensures Loads(x, f2, t)
  {
    hide RestsAt, Takes, DataFalse;
    forall l: nat, u: nat | x.T <= l < |f2.net.init| && u < t ensures LoadsAt(x.c, x.nPi, x.T, f2.net, l, u) {
      if l < |f.net.init| {
        assert LoadsAt(x.c, x.nPi, x.T, f.net, l, u);
        LoadKept(x, f, f2, t, l, u);
      }
    }
    forall u: nat, n | u < t && n in Waiting(x.c, x.nPi, u) ensures TakenBy(x.c, x.nPi, x.T, f2.net, u, n) {
      assert TakenBy(x.c, x.nPi, x.T, f.net, u, n);
      var l: nat :| x.T <= l < |f.net.latchIn| && Takes(f.net, x.nPi, u, l, x.c, n);
      TakesKept(x, f, f2, t, u, l, n);
    }
  }

  lemma LoadKept(x: Ctx, f: Fold, f2: Fold, t: nat, l: nat, u: nat)
    requires GoodFold(x, f) && GoodFold(x, f2) && Evolves(f.net, f2.net, t, x.T) && u <= t < x.T && x.mff && l < |f.net.latchIn|
    requires (u != t || f2.net.latchIn[l] == f.net.latchIn[l]) && LoadsAt(x.c, x.nPi, x.T, f.net, l, u)
    ensures LoadsAt(x.c, x.nPi, x.T, f2.net, l, u)
  {
    hide RestsAt, Takes;
    if RestsAt(f.net, x.T, l, u, true) {
      RestsKept(x, f, f2, t, l, u);
    } else {
      var n :| n in Waiting(x.c, x.nPi, u) && Takes(f.net, x.nPi, u, l, x.c, n);
      TakesKept(x, f, f2, t, u, l, n);
    }
  }

  lemma ReusedAppend(x: Ctx, f: Fold, f2: Fold, t: nat)
    requires Reused(x, f, t) && t <= x.T && Appends(x, f, f2)
    ensures Reused(x, f2, t)
  {
    hide RestsAt, Takes;
    forall l: nat, u: nat | x.T <= l < |f2.net.init| && u < t ensures LoadsAt(x.c, x.nPi, x.T, f2.net, l, u) {
      assert LoadsAt(x.c, x.nPi, x.T, f.net, l, u);
      AppendEvolves(x, f, f2, u);
      LoadKept(x, f, f2, u, l, u);
    }
    forall u: nat, n | u < t && n in Waiting(x.c, x.nPi, u) ensures TakenBy(x.c, x.nPi, x.T, f2.net, u, n) {
      assert TakenBy(x.c, x.nPi, x.T, f.net, u, n);
      var l: nat :| x.T <= l < |f.net.latchIn| && Takes(f.net, x.nPi, u, l, x.c, n);
      AppendEvolves(x, f, f2, u);
      TakesKept(x, f, f2, u, u, l, n);
    }
  }

  /** Another object goes to an old latch. */
  lemma LoadsMore(x: Ctx, f: Fold, t: nat, n: nat, l: nat)
    requires Loads(x, f, t) && t < x.T && n < Size(x.c) && x.T <= l < |f.net.latchIn|
    requires Writes(x, f, StoreMore(f, t, n, l), t, n, l)
    ensures Loads(x, StoreMore(f, t, n, l), t)
  {
    FalseSame(f.net, StoreMore(f, t, n, l).net, x.T);
    LoadsKept(x, f, StoreMore(f, t, n, l), t);
  }

  /** Or to a new one. */
  lemma LoadsNew(x: Ctx, f: Fold, t: nat, n: nat)
    requires Loads(x, f, t) && t < x.T && n < Size(x.c) && Live(x, f, t, n)
    ensures Loads(x, StoreFirst(f, t, n), t)
  {
    hide RestsAt;
    StoreFirstOk(x, f, t, n);
    LoadsKept(x, f, StoreFirst(f, t, n), t);
  }

  /** At the end of frame `t` its loads are known too. */
  lemma LoadsNext(x: Ctx, f: Fold, t: nat)
    requires Loads(x, f, t) && Saving(x, f, t, Waiting(x.c, x.nPi, t), {})
    ensures Loads(x, f, t + 1)
  {
    hide Takes, DataFalse;
    var w := Waiting(x.c, x.nPi, t);
    forall l: nat | x.T <= l < |f.net.init| ensures LoadsAt(x.c, x.nPi, x.T, f.net, l, t) {
      if TakenLatch(x, f, w, {}, l) {
        var n :| n in w - {} && n < Size(x.c) && Stored(f, n) && LatchOf(f, n) == l;
        assert Taken(x, f, t, n);
      } else {
        IdleRests(x, f, t, l);
      }
    }
    forall n | n in w ensures TakenBy(x.c, x.nPi, x.T, f.net, t, n) {
      assert Taken(x, f, t, n) && StoredWell(x, f, n);
      assert Takes(f.net, x.nPi, t, LatchOf(f, n), x.c, n);
    }
    var t1 := t + 1;
    forall l: nat, u: nat | x.T <= l < |f.net.init| && u < t1 ensures LoadsAt(x.c, x.nPi, x.T, f.net, l, u) {}
  }

  lemma IdleRests(x: Ctx, f: Fold, t: nat, l: nat)
    requires GoodFold(x, f) && t < x.T && l < |f.net.latchIn| && Idle(f.net, x.T, l, t, x.mff)
    ensures RestsAt(f.net, x.T, l, t, x.mff)
  {}

  /** New latches are made only when every data latch holds a waiting object. */
  lemma CountNext(x: Ctx, f: Fold, t: nat, size: nat)
    requires GoodComb(x.c) && Counted(x, size, t) && Saving(x, f, t, Waiting(x.c, x.nPi, t), {})
    requires |f.bo| == size || forall l: nat :: x.T <= l < |f.bo| ==> TakenLatch(x, f, Waiting(x.c, x.nPi, t), {}, l)
    requires size <= |f.bo|
    ensures Counted(x, |f.bo|, t + 1)
  {
    var w, t1 := Waiting(x.c, x.nPi, t), t + 1;
    WaitingFit(x, f, t, w);
    hide Saving, TakenLatch, Waiting;
    if |f.bo| != size {
      assert t < t1 && |f.bo| == x.T + |w|;
    }
  }

  lemma WaitingFit(x: Ctx, f: Fold, t: nat, w: set<nat>)
    requires Saving(x, f, t, w, {})
    ensures x.T + |w| <= |f.bo|
    ensures (forall l: nat :: x.T <= l < |f.bo| ==> TakenLatch(x, f, w, {}, l)) ==> |f.bo| == x.T + |w|
  {
    forall n | n in w ensures n < |f.pCopy| && Stored(f, n) && x.T <= LatchOf(f, n) < |f.bo| {
      assert Taken(x, f, t, n) && StoredWell(x, f, n);
    }
    LatchesFit(x.T, f, w);
    forall l: nat | TakenLatch(x, f, w, {}, l) ensures OwnsLatch(f, w, l) {
      var n :| n in w - {} && n < Size(x.c) && Stored(f, n) && LatchOf(f, n) == l;
      assert n in w;
    }
  }

  // ----- the whole run -----

  ghost predicate Ledger(x: Ctx, f: Fold, t: nat)
  {
    GoodComb(x.c) && if x.mff then Reused(x, f, t) else Held(x, f, WaitingBefore(x.c, x.nPi, t))
  }

  lemma LedgerAppend(x: Ctx, f: Fold, f2: Fold, t: nat)
    requires Ledger(x, f, t) && t <= x.T && Appends(x, f, f2) && KeepsStored(x, f, f2, WaitingBefore(x.c, x.nPi, t))
    ensures Ledger(x, f2, t)
  {
    hide Reused, Held, Appends, KeepsStored;
    if x.mff {
      ReusedAppend(x, f, f2, t);
    } else {
      HeldAppend(x, f, f2, WaitingBefore(x.c, x.nPi, t));
    }
  }

  lemma LedgerBegins(x: Ctx, f: Fold)
    requires GoodFold(x, f) && |f.bo| == x.T && forall n :: 0 <= n < Size(x.c) ==> f.pCopy[n] == Edge(0, false)
    ensures Ledger(x, f, 0)
  {
    assert WaitingBefore(x.c, x.nPi, 0) == {};
    assert f.net.nodes[0] == Const1;
    forall n: nat | n < Size(x.c) ensures !Stored(f, n) {
      assert f.pCopy[n] == Edge(0, false);
    }
  }

  /** A gate of this frame gets its copy. */
  lemma LedgerGate(x: Ctx, f: Fold, f2: Fold, t: nat, a: nat)
    requires Ledger(x, f, t) && t <= x.T && Appends(x, f, f2) && a < Size(x.c) && Arrival(x.c, x.nPi, a) == t
    requires f2.pCopy[a].node < |f2.net.nodes| && f2.net.nodes[f2.pCopy[a].node].And? && f2.pCopy == f.pCopy[a := f2.pCopy[a]]
    ensures Ledger(x, f2, t)
  {
    LedgerAppend(x, f, f2, t);
  }

  // ----- a frame with hold-mux latches -----

  /** The waiting objects not in latches yet are those that arrived in this frame. */
  lemma NewlyWaiting(x: Ctx, f: Fold, t: nat, vSet: set<nat>)
    requires GoodComb(x.c) && Held(x, f, WaitingBefore(x.c, x.nPi, t))
    requires forall n :: n in vSet <==> n in Waiting(x.c, x.nPi, t) && n < |f.pCopy| && !Stored(f, n)
    ensures forall n :: n in vSet ==> n < Size(x.c) && n in EverWaiting(x.c, x.nPi) && Arrival(x.c, x.nPi, n) == t
    ensures WaitingBefore(x.c, x.nPi, t) + vSet == WaitingBefore(x.c, x.nPi, t + 1)
  {
    hide Holds, DataFalse;
    forall n | n in vSet ensures n in EverWaiting(x.c, x.nPi) && Arrival(x.c, x.nPi, n) == t {
      assert Waits(x.c, x.nPi, t, n) && EverWaits(x.c, x.nPi, n);
      var a: nat :| WaitsFor(x.c, x.nPi, t, n, a);
      assert n !in WaitingBefore(x.c, x.nPi, t);
    }
    forall n | n in EverWaiting(x.c, x.nPi) && Arrival(x.c, x.nPi, n) == t ensures n in vSet {
      FirstWait(x.c, x.nPi, n);
      assert n !in WaitingBefore(x.c, x.nPi, t);
    }
  }

  // ----- a frame with reused latches -----

  /** Latches marked as used, and those below `i`, hold objects that wait in this frame. */
  ghost predicate Filling(x: Ctx, f: Fold, waiting: set<nat>, vSet: set<nat>, used: seq<bool>, i: nat) {
    && GoodFold(x, f) && |used| <= |f.bo| && (|f.bo| == |used| || i == |f.bo|)
    && (forall l: nat :: x.T <= l < |used| && used[l] ==> TakenLatch(x, f, waiting, vSet, l))
    && (forall l: nat :: x.T <= l < i ==> TakenLatch(x, f, waiting, vSet, l))
  }

  lemma FillSkip(x: Ctx, f: Fold, waiting: set<nat>, vSet: set<nat>, used: seq<bool>, i: nat)
    requires Filling(x, f, waiting, vSet, used, i) && i < |used| && used[i] && i < |f.bo|
    ensures Filling(x, f, waiting, vSet, used, i + 1)
  {}

  lemma FillNext(x: Ctx, f: Fold, f2: Fold, t: nat, waiting: set<nat>, vSet: set<nat>, used: seq<bool>, i: nat, n: nat)
    requires Filling(x, f, waiting, vSet, used, i) && Saving(x, f, t, waiting, vSet) && n in vSet && Writes(x, f, f2, t, n, i)
    requires i < |f.bo| ==> |f.bo| == |used|
    ensures Filling(x, f2, waiting, vSet - {n}, used, i + 1)
  {
    assert Stored(f2, n) && LatchOf(f2, n) == i;
    assert n in waiting - (vSet - {n});
    forall l: nat | TakenLatch(x, f, waiting, vSet, l) ensures TakenLatch(x, f2, waiting, vSet - {n}, l) {
      var m :| m in waiting - vSet && m < Size(x.c) && Stored(f, m) && LatchOf(f, m) == l;
      OtherObject(x, f, f2, t, n, i, m);
      assert m in waiting - (vSet - {n}) && Stored(f2, m) && LatchOf(f2, m) == l;
    }
  }

  // ----- the finished network -----

  lemma TakesPos(net: Net, pos2: seq<Edge>, nPi: nat, t: nat, l: nat, c: Comb, o: nat)
    requires GoodNet(net) && GoodNet(net.(pos := pos2)) && GoodComb(c) && l < |net.latchIn| && o < Size(c)
    ensures Takes(net, nPi, t, l, c, o) <==> Takes(net.(pos := pos2), nPi, t, l, c, o)
  {
    forall x ensures State(net.(pos := pos2), x, nPi, t) == State(net, x, nPi, t) {
      StatePos(net, pos2, x, nPi, t);
    }
  }

  lemma HeldFinal(x: Ctx, f: Fold, pos2: seq<Edge>)
    requires x.T > 0 && GoodComb(x.c) && x.c.nCi == Cell(x.T, x.nPi) && Held(x, f, WaitingBefore(x.c, x.nPi, x.T))
    requires GoodNet(f.net.(pos := pos2))
    ensures HoldLatches(x.c, x.nPi, x.T, f.net.(pos := pos2))
  {
    hide Takes, DataFalse, RestsAt;
    var objs, net2 := EverWaiting(x.c, x.nPi), f.net.(pos := pos2);
    forall n | n in objs ensures Arrival(x.c, x.nPi, n) < x.T {
      AllArrive(x.c, x.nPi, x.T, n);
    }
    assert WaitingBefore(x.c, x.nPi, x.T) == objs;
    forall n | n in objs ensures x.T <= LatchOf(f, n) < |net2.init| && Holds(x.c, x.nPi, x.T, net2, LatchOf(f, n), n) {
      assert HeldObject(x, f, n);
      TakesPos(f.net, pos2, x.nPi, Arrival(x.c, x.nPi, n), LatchOf(f, n), x.c, n);
      RestsPos(x.T, f.net, pos2, LatchOf(f, n), false);
    }
    LatchesFit(x.T, f, objs);
    forall l: nat | x.T <= l < |net2.init| ensures HoldsSome(x.c, x.nPi, x.T, net2, l) {
      assert OwnsLatch(f, objs, l);
    }
  }

  lemma RestsPos(T: nat, net: Net, pos2: seq<Edge>, l: nat, mff: bool)
    requires GoodNet(net) && GoodNet(net.(pos := pos2)) && l < |net.latchIn|
    ensures forall u: nat :: RestsAt(net, T, l, u, mff) ==> RestsAt(net.(pos := pos2), T, l, u, mff)
  {}

  lemma ReusedFinal(x: Ctx, f: Fold, pos2: seq<Edge>)
    requires GoodComb(x.c) && Reused(x, f, x.T) && GoodNet(f.net.(pos := pos2))
    ensures ReusedLatches(x.c, x.nPi, x.T, f.net.(pos := pos2))
  {
    hide Takes, DataFalse, RestsAt;
    var net2 := f.net.(pos := pos2);
    forall l: nat, u: nat | x.T <= l < |net2.init| && u < x.T ensures LoadsAt(x.c, x.nPi, x.T, net2, l, u) {
      assert LoadsAt(x.c, x.nPi, x.T, f.net, l, u);
      RestsPos(x.T, f.net, pos2, l, true);
      if !RestsAt(f.net, x.T, l, u, true) {
        var n :| n in Waiting(x.c, x.nPi, u) && Takes(f.net, x.nPi, u, l, x.c, n);
        TakesPos(f.net, pos2, x.nPi, u, l, x.c, n);
      }
    }
    forall u: nat, n | u < x.T && n in Waiting(x.c, x.nPi, u) ensures TakenBy(x.c, x.nPi, x.T, net2, u, n) {
      assert TakenBy(x.c, x.nPi, x.T, f.net, u, n);
      var l: nat :| x.T <= l < |f.net.latchIn| && Takes(f.net, x.nPi, u, l, x.c, n);
      TakesPos(f.net, pos2, x.nPi, u, l, x.c, n);
    }
  }

  lemma LedgerFinal(x: Ctx, f: Fold, pos2: seq<Edge>)
    requires x.T > 0 && x.c.nCi == Cell(x.T, x.nPi) && Ledger(x, f, x.T) && GoodNet(f.net.(pos := pos2))
    ensures Latched(x.c, x.nPi, x.T, x.mff, f.net.(pos := pos2))
  {
    hide HoldLatches, ReusedLatches, Holds, LoadsAt;
    if x.mff {
      ReusedFinal(x, f, pos2);
    } else {
      HeldFinal(x, f, pos2);
    }
    forall v, t: nat | t < x.T ensures OneHot(State(f.net.(pos := pos2), v, x.nPi, t), t, x.T) {
      StatePos(f.net, pos2, v, x.nPi, t);
      TimerRuns(f.net, f.bo, x.nPi, x.T, v, t);
    }
  }

  // ----- the frames and the width of the outputs -----

  ghost function OutputsAt(c: Comb, nPi: nat, u: nat): (s: set<nat>)
    requires GoodComb(c)
    ensures forall k: nat :: k in s <==> k < |c.pos| && Arrival(c, nPi, c.pos[k].node) == u
  {
    set k: nat | k < |c.pos| && Arrival(c, nPi, c.pos[k].node) == u
  }

  /** Every output is shown in the frame in which it arrives, and there are as many pins as outputs arrive in one frame. */
  ghost predicate Punctual(c: Comb, nPi: nat, T: nat, nPo: nat, oPerm: seq<int>)
    requires GoodComb(c)
  {
    && |oPerm| == |c.pos| && (forall k: nat :: k < |c.pos| ==> InFrame(Arrival(c, nPi, c.pos[k].node), nPo, oPerm[k]))
    && WideAs(c, nPi, T, nPo)
  }

  ghost predicate WideAs(c: Comb, nPi: nat, T: nat, nPo: nat)
    requires GoodComb(c)
  {
    && (forall u: nat :: u < T ==> |OutputsAt(c, nPi, u)| <= nPo)
    && (nPo == 0 || exists u: nat :: u < T && |OutputsAt(c, nPi, u)| == nPo)
  }

  ghost function Keys(infos: seq<Info>): set<nat> {
    set i | 0 <= i < |infos| :: infos[i].0
  }

  lemma {:induction false} KeysCount(infos: seq<Info>)
    requires forall i, j :: 0 <= i < j < |infos| ==> infos[i].0 != infos[j].0
    ensures |Keys(infos)| == |infos|
  {
    if infos != [] {
      var front, last := infos[..|infos| - 1], infos[|infos| - 1];
      KeysCount(front);
      assert infos == front + [last];
      assert Keys(infos) == Keys(front) + {last.0};
      assert last.0 !in Keys(front);
    }
  }

  /** As many outputs are recorded for a frame as arrive in it. */
  lemma FrameWidth(x: Ctx, poInfos: seq<seq<Info>>, spot: map<nat, (nat, nat)>, u: nat)
    requires GoodComb(x.c) && u < |poInfos| && Recorded(poInfos, spot) && OnTime(x, spot) && forall k: nat :: k in spot <==> k < |x.c.pos|
    ensures |poInfos[u]| == |OutputsAt(x.c, x.nPi, u)|
  {
    KeysCount(poInfos[u]);
    forall k | k in OutputsAt(x.c, x.nPi, u) ensures k in Keys(poInfos[u]) {
      assert k in spot && poInfos[u][spot[k].1].0 == k;
    }
    assert Keys(poInfos[u]) == OutputsAt(x.c, x.nPi, u);
  }

  lemma PinsNeeded(x: Ctx, f: Fold, poInfos: seq<seq<Info>>, spot: map<nat, (nat, nat)>, vis: Visits, nPo: nat)
    requires GoodFold(x, f) && x.T > 0 && InfosAll(x, f, x.T - 1, poInfos, spot, vis) && OnTime(x, spot) && forall k: nat :: k in spot <==> k < |x.c.pos|
    requires forall u :: 0 <= u < |poInfos| ==> |poInfos[u]| <= nPo
    requires nPo > 0 ==> exists u :: 0 <= u < |poInfos| && |poInfos[u]| == nPo
    ensures WideAs(x.c, x.nPi, x.T, nPo)
  {
    forall u: nat | u < x.T ensures |poInfos[u]| == |OutputsAt(x.c, x.nPi, u)| {
      FrameWidth(x, poInfos, spot, u);
    }
    if nPo > 0 {
      var u :| 0 <= u < |poInfos| && |poInfos[u]| == nPo;
      assert |OutputsAt(x.c, x.nPi, u)| == nPo;
    }
  }

  lemma BuildPunctual(x: Ctx, f: Fold, infos: seq<seq<Info>>, spot: map<nat, (nat, nat)>, poVec: seq<Edge>, perm: seq<int>)
    requires Building(x, f, infos, spot, |poVec|, poVec, perm, x.T, 0, x.T) && GoodComb(x.c) && OnTime(x, spot) && WideAs(x.c, x.nPi, x.T, |poVec|)
    ensures Punctual(x.c, x.nPi, x.T, |poVec|, perm)
  {
    hide WideAs;
    forall k: nat | k < |x.c.pos| ensures InFrame(Arrival(x.c, x.nPi, x.c.pos[k].node), |poVec|, perm[k]) {
      PinPlace(x, f, infos, spot, poVec, perm, k);
    }
  }

  lemma BuildLatched(x: Ctx, f: Fold, infos: seq<seq<Info>>, spot: map<nat, (nat, nat)>, poVec: seq<Edge>, perm: seq<int>)
    requires Building(x, f, infos, spot, |poVec|, poVec, perm, x.T, 0, x.T) && x.T > 0 && x.c.nCi == Cell(x.T, x.nPi) && Ledger(x, f, x.T)
    ensures Latched(x.c, x.nPi, x.T, x.mff, f.net.(pos := poVec))
  {
    hide Ledger, Latched;
    PinsValid(f.net.nodes, infos, poVec, x.T);
    LedgerFinal(x, f, poVec);
  }

  /** Connecting a pin only appends logic. */
  lemma LedgerPin(x: Ctx, f: Fold, t: nat, pin: Edge, ctrl: Edge, e: Edge)
    requires Ledger(x, f, t) && t <= x.T && GoodFold(x, f) && pin.node < |f.net.nodes| && ctrl.node < |f.net.nodes| && e.node < |f.net.nodes|
    ensures Ledger(x, f.(net := f.net.(nodes := AddFrame(f.net.nodes, pin, ctrl, e).0)), t)
  {
    hide Ledger;
    var (nodes1, e1) := MkAnd(f.net.nodes, ctrl, e);
    MkAndOk(f.net.nodes, ctrl, e);
    MkOrOk(nodes1, pin, e1);
    var nodes2 := MkOr(nodes1, pin, e1).0;
    ExtendsTrans(f.net.nodes, nodes1, nodes2);
    AppendKeeps(x, f, nodes2);
    LedgerAppend(x, f, f.(net := f.net.(nodes := nodes2)), t);
  }
}
