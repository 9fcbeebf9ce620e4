/** When the objects of a folded circuit become available, and which of them have to be carried
    from one frame into the next (timeMux4/aigMux4.cpp). */
module FoldWaits {
  import opened FiniteSets
  import opened Aig
  import opened Frames
  import opened FoldSpec
  import opened StruFold

  /** The frame of the last input in the cone of object `n`. */
  ghost function Arrival(c: Comb, nPi: nat, n: nat): nat
    requires GoodComb(c) && n < Size(c)
    decreases n
  {
    if n > c.nCi then
      var t0, t1 := Arrival(c, nPi, GateOf(c, n).f0.node), Arrival(c, nPi, GateOf(c, n).f1.node);
      if t0 < t1 then t1 else t0
    else if n == 0 || nPi == 0 then 0 else (n - 1) / nPi
  }

  lemma InputArrival(c: Comb, nPi: nat, T: nat, n: nat, t: nat)
    requires GoodComb(c) && c.nCi == Cell(T, nPi) && n <= c.nCi
    ensures Arrival(c, nPi, n) <= t <==> n <= Cell(t + 1, nPi)
  {
    if nPi == 0 {
      CellIsProduct(T, nPi);
    } else if n > 0 {
      var d, r := (n - 1) / nPi, (n - 1) % nPi;
      InputPlace(n - 1, nPi);
      if d <= t {
        CellMonotone(d + 1, t + 1, nPi);
      } else {
        CellMonotone(t + 1, d, nPi);
      }
    }
  }

  lemma InputPlace(i: nat, nPi: nat)
    requires nPi > 0
    ensures i == Cell(i / nPi, nPi) + i % nPi && i % nPi < nPi
  {
    CellIsProduct(i / nPi, nPi);
  }

  /** Object `n` waits at frame `t`: it is there, but the other fanin of some gate is not. */
  ghost predicate Waits(c: Comb, nPi: nat, t: nat, n: nat)
    requires GoodComb(c)
  {
    exists a: nat :: WaitsFor(c, nPi, t, n, a)
  }

  ghost predicate WaitsFor(c: Comb, nPi: nat, t: nat, n: nat, a: nat)
    requires GoodComb(c)
  {
    FaninOf(c, n, a) && n < Size(c) && Arrival(c, nPi, n) <= t < Arrival(c, nPi, OtherFanin(c, n, a))
  }

  ghost function Waiting(c: Comb, nPi: nat, t: nat): (s: set<nat>)
    requires GoodComb(c)
    ensures forall n: nat :: n in s <==> n < Size(c) && Waits(c, nPi, t, n)
  {
    set n: nat | n < Size(c) && Waits(c, nPi, t, n)
  }

  ghost predicate EverWaits(c: Comb, nPi: nat, n: nat)
    requires GoodComb(c)
  {
    exists t: nat :: Waits(c, nPi, t, n)
  }

  /** The objects that wait at some frame. */
  ghost function EverWaiting(c: Comb, nPi: nat): (s: set<nat>)
    requires GoodComb(c)
    ensures forall n: nat :: n in s <==> n < Size(c) && EverWaits(c, nPi, n)
  {
    set n: nat | n < Size(c) && EverWaits(c, nPi, n)
  }

  /** An object that waits at all waits from the frame on in which it arrives. */
  lemma FirstWait(c: Comb, nPi: nat, n: nat)
    requires GoodComb(c) && n in EverWaiting(c, nPi)
    ensures n in Waiting(c, nPi, Arrival(c, nPi, n))
  {
    var t: nat :| Waits(c, nPi, t, n);
    var a: nat :| WaitsFor(c, nPi, t, n, a);
    assert WaitsFor(c, nPi, Arrival(c, nPi, n), n, a);
  }

  /** Those of the frames before `t`. */
  ghost function WaitingBefore(c: Comb, nPi: nat, t: nat): (s: set<nat>)
    requires GoodComb(c)
    ensures forall n: nat :: n in s <==> n in EverWaiting(c, nPi) && Arrival(c, nPi, n) < t
  {
    set n | n in EverWaiting(c, nPi) && Arrival(c, nPi, n) < t
  }

  /** At the end of a frame exactly the objects that have arrived are done. */
  lemma {:induction false} DoneIs(x: Ctx, fanouts: seq<seq<Fanout>>, vis: Visits, vMap: map<nat, nat>, done: set<nat>, t: nat, n: nat)
    requires GoodComb(x.c) && GoodFanouts(x.c, fanouts) && x.c.nCi == Cell(x.T, x.nPi) && n < Size(x.c)
    requires Tracking(x.c, vis, vMap, done) && Expanded(x, fanouts, vis, done)
    requires forall i :: 0 <= i <= x.c.nCi ==> (i in done <==> i <= Cell(t + 1, x.nPi))
    ensures n in done <==> Arrival(x.c, x.nPi, n) <= t
    decreases n
  {
    if n <= x.c.nCi {
      InputArrival(x.c, x.nPi, x.T, n, t);
    } else {
      var y, z := GateOf(x.c, n).f0.node, GateOf(x.c, n).f1.node;
      DoneIs(x, fanouts, vis, vMap, done, t, y);
      DoneIs(x, fanouts, vis, vMap, done, t, z);
      GateIs(x, fanouts, vis, vMap, done, n);
    }
  }

  /** A gate is done when both fanins are, and half ready when one is. */
  lemma GateIs(x: Ctx, fanouts: seq<seq<Fanout>>, vis: Visits, vMap: map<nat, nat>, done: set<nat>, a: nat)
    requires GoodComb(x.c) && GoodFanouts(x.c, fanouts) && IsGate(x.c, a)
    requires Tracking(x.c, vis, vMap, done) && Expanded(x, fanouts, vis, done)
    ensures a in done <==> GateOf(x.c, a).f0.node in done && GateOf(x.c, a).f1.node in done
    ensures a in vMap <==> (GateOf(x.c, a).f0.node in done) != (GateOf(x.c, a).f1.node in done)
    ensures a in vMap ==> FaninOf(x.c, vMap[a], a) && vMap[a] in done && OtherFanin(x.c, vMap[a], a) !in done
  {
    var y, z := GateOf(x.c, a).f0.node, GateOf(x.c, a).f1.node;
    assert FaninOf(x.c, y, a) && FaninOf(x.c, z, a);
    assert ToGate(a) in fanouts[y] && ToGate(a) in fanouts[z];
    assert (y, ToGate(a)) in vis <==> y in done;
    assert (z, ToGate(a)) in vis <==> z in done;
  }

  /** At the end of a frame the half-ready map holds exactly the waiting objects. */
  lemma WaitingIs(x: Ctx, fanouts: seq<seq<Fanout>>, vis: Visits, vMap: map<nat, nat>, done: set<nat>, t: nat)
    requires GoodComb(x.c) && GoodFanouts(x.c, fanouts) && x.c.nCi == Cell(x.T, x.nPi)
    requires Tracking(x.c, vis, vMap, done) && Expanded(x, fanouts, vis, done)
    requires forall i :: 0 <= i <= x.c.nCi ==> (i in done <==> i <= Cell(t + 1, x.nPi))
    ensures vMap.Values == Waiting(x.c, x.nPi, t)
  {
    forall n: nat | n < Size(x.c) ensures n in done <==> Arrival(x.c, x.nPi, n) <= t {
      DoneIs(x, fanouts, vis, vMap, done, t, n);
    }
    forall n | n in vMap.Values ensures n in Waiting(x.c, x.nPi, t) {
      var a :| a in vMap && vMap[a] == n;
      GateIs(x, fanouts, vis, vMap, done, a);
      assert WaitsFor(x.c, x.nPi, t, n, a);
    }
    forall n | n in Waiting(x.c, x.nPi, t) ensures n in vMap.Values {
      var a: nat :| WaitsFor(x.c, x.nPi, t, n, a);
      GateIs(x, fanouts, vis, vMap, done, a);
      assert a in vMap && vMap[a] == n;
    }
  }

  /** Nothing waits after the last frame. */
  lemma {:induction false} AllArrive(c: Comb, nPi: nat, T: nat, n: nat)
    requires GoodComb(c) && c.nCi == Cell(T, nPi) && T > 0 && n < Size(c)
    ensures Arrival(c, nPi, n) < T
    decreases n
  {
    if n <= c.nCi {
      InputArrival(c, nPi, T, n, T - 1);
    } else {
      AllArrive(c, nPi, T, GateOf(c, n).f0.node);
      AllArrive(c, nPi, T, GateOf(c, n).f1.node);
    }
  }

  // ----- what arrives while a frame is processed -----

  /** Earlier objects are done, those on the stack arrive in this frame, and every recorded output
      stands in the frame in which its object arrives. */
  ghost predicate Timely(x: Ctx, t: nat, done: set<nat>, cur: set<nat>, spot: map<nat, (nat, nat)>)
    requires GoodComb(x.c)
  {
    && (forall n: nat :: n < Size(x.c) && Arrival(x.c, x.nPi, n) < t ==> n in done)
    && (forall n :: n in done ==> n < Size(x.c) && Arrival(x.c, x.nPi, n) <= t)
    && (forall n :: n in cur ==> n < Size(x.c) && Arrival(x.c, x.nPi, n) == t)
    && OnTime(x, spot)
  }

  ghost predicate OnTime(x: Ctx, spot: map<nat, (nat, nat)>)
    requires GoodComb(x.c)
  {
    forall k :: k in spot ==> k < |x.c.pos| && spot[k].0 == Arrival(x.c, x.nPi, x.c.pos[k].node)
  }

  lemma TimelyBegins(x: Ctx, t: nat, done: set<nat>, que: set<nat>, spot: map<nat, (nat, nat)>)
    requires GoodComb(x.c) && Timely(x, t, done, {}, spot) && x.c.nCi == Cell(x.T, x.nPi)
    requires forall n :: n in que ==> n <= x.c.nCi && ((t == 0 && n == 0) || Cell(t, x.nPi) < n <= Cell(t, x.nPi) + x.nPi)
    ensures Timely(x, t, done, que, spot)
  {
    forall n | n in que ensures Arrival(x.c, x.nPi, n) == t {
      InputArrival(x.c, x.nPi, x.T, n, t);
      if t > 0 {
        InputArrival(x.c, x.nPi, x.T, n, t - 1);
      }
    }
  }

  lemma TimelyPo(x: Ctx, t: nat, done: set<nat>, cur: set<nat>, spot: map<nat, (nat, nat)>, k: nat, i: nat)
    requires GoodComb(x.c) && Timely(x, t, done, cur, spot) && k < |x.c.pos| && x.c.pos[k].node in cur
    ensures Timely(x, t, done, cur, spot[k := (t, i)])
  {}

  /** A gate with one fanin of this frame and none of a later one. */
  lemma TimelyGate(x: Ctx, t: nat, done: set<nat>, cur: set<nat>, spot: map<nat, (nat, nat)>, n: nat, a: nat)
    requires GoodComb(x.c) && Timely(x, t, done, cur, spot) && FaninOf(x.c, n, a) && n in cur && OtherFanin(x.c, n, a) in done + cur
    ensures Timely(x, t, done, cur + {a}, spot)
  {}

  lemma TimelyEnds(x: Ctx, fanouts: seq<seq<Fanout>>, vis: Visits, vMap: map<nat, nat>, done: set<nat>, t: nat, spot: map<nat, (nat, nat)>)
    requires GoodComb(x.c) && GoodFanouts(x.c, fanouts) && x.c.nCi == Cell(x.T, x.nPi)
    requires Tracking(x.c, vis, vMap, done) && Expanded(x, fanouts, vis, done) && Timely(x, t, done, {}, spot)
    requires forall i :: 0 <= i <= x.c.nCi ==> (i in done <==> i <= Cell(t + 1, x.nPi))
    ensures Timely(x, t + 1, done, {}, spot)
  {
    forall n: nat | n < Size(x.c) ensures n in done <==> Arrival(x.c, x.nPi, n) <= t {
      DoneIs(x, fanouts, vis, vMap, done, t, n);
    }
  }
}
