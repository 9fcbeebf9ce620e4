/** The folding run: initQue, processQue, storeInLats, storeInLats2, buildPoFuncs and buildTM of
    timeMux4/aigMux4.cpp. */
module StruFoldRun {
  import opened Aig
  import opened Frames
  import opened FoldSpec
  import opened StruFold
  import opened FoldStore
  import opened FoldOutputs
  import opened FoldWaits
  import opened FoldLedger

  class Folder {
    const x: Ctx
    const fanouts: seq<seq<Fanout>>
    var f: Fold
    var vMap: map<nat, nat>
    var que: seq<nat>
    var poInfos: seq<seq<Info>>
    ghost var vis: Visits
    ghost var spot: map<nat, (nat, nat)>
    ghost var done: set<nat>

    ghost predicate InFrame(t: nat, cur: set<nat>)
      reads this
    {
      && GoodComb(x.c) && GoodFanouts(x.c, fanouts) && Frame(x, f, t, vMap, que, poInfos, vis, spot, done, cur)
      && Ledger(x, f, t) && Timely(x, t, done, cur + Queued(que), spot)
    }

    /** The start of frame `t`: the objects fed by earlier frames are done, the rest untouched. */
    ghost predicate AtStart(t: nat)
      reads this
    {
      && GoodComb(x.c) && GoodFanouts(x.c, fanouts) && GoodFold(x, f) && t < x.T && que == []
      && Tracking(x.c, vis, vMap, done) && Expanded(x, fanouts, vis, done)
      && (forall n :: 0 <= n <= x.c.nCi ==> (n in done <==> t > 0 && n <= Cell(t, x.nPi)))
      && LiveAll(x, f, t, {}, vMap.Values) && InfosAll(x, f, t, poInfos, spot, vis) && IdleAll(x, f, t)
      && (t == 0 ==> f.pCopy[0] == Edge(0, false))
      && Ledger(x, f, t) && Timely(x, t, done, {}, spot) && x.c.nCi == Cell(x.T, x.nPi)
    }

    /** aigInitNtk with the timer of buildLatchTransWithTime, before the first frame. */
    constructor (c: Comb, fanouts: seq<seq<Fanout>>, nPi: nat, nTimeFrame: nat, mff: bool)
      requires GoodComb(c) && GoodFanouts(c, fanouts) && nTimeFrame > 0 && c.nCi == Cell(nTimeFrame, nPi)
      ensures x == Ctx(c, nPi, nTimeFrame, mff) && this.fanouts == fanouts
      ensures AtStart(0)
    {
      x := Ctx(c, nPi, nTimeFrame, mff);
      this.fanouts := fanouts;
      f := InitialFold(Size(c), nPi, nTimeFrame);
      vMap, que, poInfos := map[], [], seq(nTimeFrame, _ => []);
      vis, spot, done := {}, map[], {};
      new;
      InitialFoldOk(x);
      LedgerBegins(x, f);
    }

    /** Pushes the inputs of frame `t` (and, once, the constant) with their copies. */
    method InitQue(t: nat)
      requires AtStart(t)
      modifies this`f, this`que
      ensures InFrame(t, {}) && poInfos == old(poInfos)
      ensures Expanded(x, fanouts, vis, done)
    {
      hide Tracking, Pending, LiveAll, InfosAll, IdleAll, Expanded, Ledger, Timely;
      ghost var f0 := f;
      if t == 0 {
        que := [0];
      }
      CellMonotone(t + 1, x.T, x.nPi);
      for i := 0 to x.nPi
        invariant |f.pCopy| == Size(x.c) && f.net == f0.net && f.bo == f0.bo
        invariant que == InputStack(t, x.nPi, i)
        invariant f.pCopy == CopiesWithInputs(f0.pCopy, t, x.nPi, i)
      {
        var pObj := 1 + Cell(t, x.nPi) + i;
        f := f.(pCopy := f.pCopy[pObj := Edge(1 + i, false)]);
        que := que + [pObj];
      }
      FrameBegins(x, fanouts, f0, f, t, vMap, que, poInfos, vis, spot, done);
      LedgerOfInputs(x, f0, f, t, que, done, spot);
    }

    /** One fanout of the object taken from the stack. */
    method VisitFanout(t: nat, n: nat, fo: Fanout)
      requires InFrame(t, {n}) && n < Size(x.c) && fo in fanouts[n] && (n, fo) !in vis && n !in done
      modifies this`f, this`vMap, this`que, this`poInfos, this`vis, this`spot
      ensures InFrame(t, {n}) && vis == old(vis) + {(n, fo)}
    {
      hide Tracking, Pending, LiveAll, InfosAll, IdleAll, Expanded, Ledger, Timely;
      match fo
      case ToPo(k) =>
        VisitPo(x, fanouts, f, t, vMap, que, poInfos, vis, spot, done, n, k);
        TimelyPo(x, t, done, {n} + Queued(que), spot, k, |poInfos[t]|);
        vis, spot := vis + {(n, fo)}, spot[k := (t, |poInfos[t]|)];
        poInfos := poInfos[t := poInfos[t] + [(k, ChildCopy(f.pCopy, x.c.pos[k]))]];
      case ToGate(a) =>
        if a !in vMap {
          VisitHalf(x, fanouts, f, t, vMap, que, poInfos, vis, spot, done, n, a);
          vMap := vMap[a := n];
          vis := vis + {(n, fo)};
        } else {
          ghost var f2 := VisitFull(x, fanouts, f, t, vMap, que, poInfos, vis, spot, done, n, a);
          LedgerOfGate(x, fanouts, f, f2, t, vMap, que, poInfos, vis, spot, done, n, a);
          assert vMap[a] != n;
          var g := GateOf(x.c, a);
          var (nodes2, e) := MkAnd(f.net.nodes, ChildCopy(f.pCopy, g.f0), ChildCopy(f.pCopy, g.f1));
          f := f.(net := f.net.(nodes := nodes2), pCopy := f.pCopy[a := e]);
          que := que + [a];
          vMap := vMap - {a};
          vis := vis + {(n, fo)};
        }
    }

    method ExpandObject(t: nat)
      requires InFrame(t, {}) && Expanded(x, fanouts, vis, done) && que != []
      modifies this`f, this`vMap, this`que, this`poInfos, this`vis, this`spot, this`done
      ensures InFrame(t, {}) && Expanded(x, fanouts, vis, done)
      ensures done == old(done) + {old(que)[|old(que)| - 1]} && old(que)[|old(que)| - 1] !in old(done)
    {
      hide Tracking, Pending, LiveAll, InfosAll, IdleAll, Expanded, GoodFold, Ledger, Timely;
      var n := que[|que| - 1];
      PopObject(x, f, t, vMap, que, poInfos, vis, spot, done);
      PopQueued(que);
      que := que[..|que| - 1];
      VisitFanouts(t, n);
      FinishObject(x, f, t, vMap, que, poInfos, vis, spot, done, n);
      TimelyFinish(x, t, done, Queued(que), spot, n);
      done := done + {n};
    }

    method VisitFanouts(t: nat, n: nat)
      requires InFrame(t, {n}) && Expanded(x, fanouts, vis, done) && n < Size(x.c) && n !in done
      modifies this`f, this`vMap, this`que, this`poInfos, this`vis, this`spot
      ensures InFrame(t, {n}) && Expanded(x, fanouts, vis, done + {n})
    {
      hide Tracking, Pending, LiveAll, InfosAll, IdleAll, Expanded, GoodFold, Ledger, Timely;
      ghost var vis0 := vis;
      for i := 0 to |fanouts[n]|
        invariant InFrame(t, {n})
        invariant Visited(vis0, vis, n, fanouts[n], i)
      {
        NextUnvisited(x, fanouts, vis0, vis, done, n, i);
        VisitFanout(t, n, fanouts[n][i]);
      }
      AllVisited(x, fanouts, vis0, vis, done, n);
    }

    method ProcessQue(t: nat)
      requires InFrame(t, {}) && Expanded(x, fanouts, vis, done)
      modifies this`f, this`vMap, this`que, this`poInfos, this`vis, this`spot, this`done
      ensures InFrame(t, {}) && Expanded(x, fanouts, vis, done) && que == []
    {
      while que != []
        invariant InFrame(t, {}) && Expanded(x, fanouts, vis, done)
        decreases Objects(Size(x.c)) - done
      {
        assert que[|que| - 1] in Queued(que) && que[|que| - 1] in Objects(Size(x.c));
        ExpandObject(t);
      }
    }

    // ----- carrying half-ready fanins into the next frame -----

    ghost predicate Storing(t: nat, todo: set<nat>)
      reads this
    {
      Saving(x, f, t, vMap.Values, todo) && InfosAll(x, f, t, poInfos, spot, vis)
    }

    /** Hold-mux latches: every half-ready object that is not in a latch yet gets one. The objects
        are taken in the order of a hash set, that is, in any order. */
    method StoreInLats(t: nat)
      requires InFrame(t, {}) && que == [] && !x.mff && vMap.Values == Waiting(x.c, x.nPi, t)
      modifies this`f
      ensures Storing(t, {}) && Ledger(x, f, t + 1)
    {
      hide Held, Saving, InfosAll, Tracking, Pending, LiveAll, IdleAll, Expanded, Timely, AllFresh, GoodComb, Waiting, WaitingBefore, EverWaiting;
      assert forall a :: a in vMap ==> vMap[a] in vMap.Values;
      var vSet := set a | a in vMap && !Stored(f, vMap[a]) :: vMap[a];
      assert {} + Queued(que) == {};
      HoldBegins(x, f, t, vMap, vSet);
      FreshOnes(f, vSet);
      NewlyWaiting(x, f, t, vSet);
      ArrivedBegins(x, t, vSet);
      HoldAll(t, vSet);
    }

    method HoldAll(t: nat, vSet0: set<nat>)
      requires Storing(t, vSet0) && AllFresh(f, vSet0) && Held(x, f, WaitingBefore(x.c, x.nPi, t))
      requires GoodComb(x.c) && !x.mff && Arrived(x, t, WaitingBefore(x.c, x.nPi, t), vSet0)
      modifies this`f
      ensures Storing(t, {}) && Ledger(x, f, t + 1)
    {
      hide Held, Saving, InfosAll, AllFresh, Arrived, Waiting, WaitingBefore, EverWaiting, GoodComb;
      ghost var held := WaitingBefore(x.c, x.nPi, t);
      var vSet := vSet0;
      while vSet != {}
        invariant Storing(t, vSet) && AllFresh(f, vSet) && Held(x, f, held) && Arrived(x, t, held, vSet)
      {
        var n :| n in vSet;
        HoldInNewLat(t, n, vSet, held);
        ArrivedNext(x, t, held, vSet, n);
        vSet := vSet - {n};
        held := held + {n};
      }
      ArrivedAll(x, t, held);
    }

    method HoldInNewLat(t: nat, n: nat, ghost vSet: set<nat>, ghost held: set<nat>)
      requires Storing(t, vSet) && AllFresh(f, vSet) && !x.mff && n in vSet
      requires GoodComb(x.c) && Held(x, f, held) && Arrived(x, t, held, vSet)
      modifies this`f
      ensures Storing(t, vSet - {n}) && AllFresh(f, vSet - {n}) && Held(x, f, held + {n})
    {
      hide Held, Holds;
      HeldNext(x, f, t, held, n);
      StoreHoldOk(x, f, t, n);
      var f2 := StoreHold(f, t, n);
      SaveNew(x, f, f2, t, vMap.Values, vSet, n);
      InfosWritten(x, f, f2, t, poInfos, spot, vis, n, |f.bo|);
      f := f2;
    }

    /** First loop of storeInLats2: latches still in use keep their object; the rest is collected. */
    method HoldUsed(t: nat) returns (vSet: set<nat>, used: seq<bool>)
      requires InFrame(t, {}) && que == [] && x.mff
      modifies this`f
      ensures Placing(x, f, t, vMap.Values, vSet, used, x.T) && InfosAll(x, f, t, poInfos, spot, vis)
      ensures GoodFold(x, f) && Loads(x, f, t) && |used| == |f.bo| == old(|f.bo|) && Filling(x, f, vMap.Values, vSet, used, x.T)
    {
      hide Tracking, Pending, LiveAll, InfosAll, IdleAll, HoldingUsed, Placing, Expanded, Loads, Counted, UsedTaken, Filling, Timely;
      used := seq(|f.bo|, _ => false);
      vSet := {};
      ghost var f0 := f;
      var keys := vMap.Keys;
      assert {} + Queued(que) == {};
      ReuseBegins(x, f, t, vMap);
      UsedBegins(f, vMap);
      while keys != {}
        invariant keys <= vMap.Keys
        invariant Loads(x, f, t) && |f.bo| == |f0.bo| && UsedTaken(f, vMap, keys, used)
        invariant GoodFold(x, f) && HoldingUsed(x, f0, f, t, vMap, keys, vSet, used) && InfosAll(x, f, t, poInfos, spot, vis)
      {
        var a :| a in keys;
        vSet, used := HoldOne(f0, t, keys, vSet, used, a);
        keys := keys - {a};
      }
      HoldingDone(x, f0, f, t, vMap, vSet, used);
      UsedFills(x, f0, f, t, vMap, vSet, used);
    }

    method HoldOne(ghost f0: Fold, t: nat, ghost keys: set<nat>, vSet: set<nat>, used: seq<bool>, a: nat)
        returns (vSet2: set<nat>, used2: seq<bool>)
      requires keys <= vMap.Keys && a in keys
      requires HoldingUsed(x, f0, f, t, vMap, keys, vSet, used) && InfosAll(x, f, t, poInfos, spot, vis)
      requires Loads(x, f, t) && UsedTaken(f, vMap, keys, used)
      modifies this`f
      ensures GoodFold(x, f) && HoldingUsed(x, f0, f, t, vMap, keys - {a}, vSet2, used2) && InfosAll(x, f, t, poInfos, spot, vis)
      ensures Loads(x, f, t) && |f.bo| == old(|f.bo|) && UsedTaken(f, vMap, keys - {a}, used2)
    {
      hide Loads, UsedTaken;
      var n := vMap[a];
      assert n in vMap.Values;
      if !Stored(f, n) {
        CollectFresh(x, f0, f, t, vMap, keys, vSet, used, a);
        UsedMore(f, vMap, keys, used, a);
        vSet2, used2 := vSet + {n}, used;
      } else {
        HoldAgain(x, f0, f, t, vMap, keys, vSet, used, a);
        var l := LatchOf(f, n);
        var f2 := StoreMore(f, t, n, l);
        InfosWritten(x, f, f2, t, poInfos, spot, vis, n, l);
        LoadsMore(x, f, t, n, l);
        UsedNext(x, f0, f, f2, t, vMap, keys, vSet, used, a, l);
        f := f2;
        vSet2, used2 := vSet, used[l := true];
      }
    }

    /** Second loop of storeInLats2: the collected objects go to free latches, then to new ones. */
    method StoreInLats2(t: nat)
      requires InFrame(t, {}) && que == [] && x.mff && vMap.Values == Waiting(x.c, x.nPi, t)
      modifies this`f
      ensures Storing(t, {}) && Ledger(x, f, t + 1)
    {
      hide Loads, Counted, Filling, Ledger, Timely, Placing, Saving, InfosAll, Tracking, Pending, LiveAll, IdleAll, Expanded, Waiting;
      ghost var size := |f.bo|;
      LedgerLoads(x, f, t);
      var vSet, used := HoldUsed(t);
      var i: nat := x.T;
      while vSet != {}
        invariant Placing(x, f, t, vMap.Values, vSet, used, i) && GoodFold(x, f) && InfosAll(x, f, t, poInfos, spot, vis)
        invariant Loads(x, f, t) && Filling(x, f, vMap.Values, vSet, used, i)
      {
        var n :| n in vSet;
        i := FindLat(t, i, n, vSet, used);
        vSet := vSet - {n};
      }
      FrameFilled(x, f, t, vMap.Values, used, i, size);
    }

    /** The inner loop: latches in use are passed over. */
    method FindLat(t: nat, i0: nat, n: nat, ghost vSet: set<nat>, used: seq<bool>) returns (i: nat)
      requires Placing(x, f, t, vMap.Values, vSet, used, i0) && n in vSet && InfosAll(x, f, t, poInfos, spot, vis)
      requires Loads(x, f, t) && Filling(x, f, vMap.Values, vSet, used, i0)
      modifies this`f
      ensures Placing(x, f, t, vMap.Values, vSet - {n}, used, i) && GoodFold(x, f) && InfosAll(x, f, t, poInfos, spot, vis)
      ensures Loads(x, f, t) && Filling(x, f, vMap.Values, vSet - {n}, used, i)
    {
      hide Loads, Filling, Placing, InfosAll;
      i := i0;
      var done := StoreInIthLat(t, i, n, vSet, used);
      i := i + 1;
      while !done
        invariant Placing(x, f, t, vMap.Values, if done then vSet - {n} else vSet, used, i)
        invariant GoodFold(x, f) && InfosAll(x, f, t, poInfos, spot, vis)
        invariant Loads(x, f, t) && Filling(x, f, vMap.Values, if done then vSet - {n} else vSet, used, i)
        decreases !done, |used| - i
      {
        done := StoreInIthLat(t, i, n, vSet, used);
        i := i + 1;
      }
    }

    /** Stores the copy of `n` in latch `i`, unless that latch is in use. */
    method StoreInIthLat(t: nat, i: nat, n: nat, ghost vSet: set<nat>, used: seq<bool>) returns (done: bool)
      requires Placing(x, f, t, vMap.Values, vSet, used, i) && n in vSet && InfosAll(x, f, t, poInfos, spot, vis)
      requires Loads(x, f, t) && Filling(x, f, vMap.Values, vSet, used, i)
      modifies this`f
      ensures GoodFold(x, f) && Loads(x, f, t) && Filling(x, f, vMap.Values, if done then vSet - {n} else vSet, used, i + 1)
      ensures Placing(x, f, t, vMap.Values, if done then vSet - {n} else vSet, used, i + 1) && InfosAll(x, f, t, poInfos, spot, vis)
      ensures done <==> i >= |used| || !used[i]
      ensures !done ==> f == old(f)
    {
      hide Loads, Filling;
      if i < |f.bo| {
        if used[i] {
          FillSkip(x, f, vMap.Values, vSet, used, i);
          return false;
        }
        PlaceInOld(x, f, t, vMap.Values, vSet, used, i, n);
        var f2 := StoreMore(f, t, n, i);
        LoadsMore(x, f, t, n, i);
        FillNext(x, f, f2, t, vMap.Values, vSet, used, i, n);
        InfosWritten(x, f, f2, t, poInfos, spot, vis, n, i);
        f := f2;
      } else {
        PlaceInNew(x, f, t, vMap.Values, vSet, used, i, n);
        var f2 := StoreFirst(f, t, n);
        LoadsNew(x, f, t, n);
        FillNext(x, f, f2, t, vMap.Values, vSet, used, i, n);
        InfosWritten(x, f, f2, t, poInfos, spot, vis, n, i);
        f := f2;
      }
      done := true;
    }

    // ----- the frames and the outputs -----

    /** One frame: the inputs are queued, everything ready is expanded, half-ready fanins are stored. */
    method RunFrame(t: nat)
      requires AtStart(t)
      modifies this
      ensures t + 1 < x.T ==> AtStart(t + 1)
      ensures t + 1 == x.T ==> Finished()
    {
      hide Tracking, Pending, LiveAll, InfosAll, IdleAll, Expanded, Saving, Ledger, Timely;
      InitQue(t);
      ProcessQue(t);
      FrameWaits(t);
      if x.mff {
        StoreInLats2(t);
      } else {
        StoreInLats(t);
      }
      FrameEnds(t);
    }

    /** When the stack is empty the half-ready map holds the objects that wait. */
    lemma FrameWaits(t: nat)
      requires InFrame(t, {}) && que == [] && Expanded(x, fanouts, vis, done) && x.c.nCi == Cell(x.T, x.nPi)
      ensures vMap.Values == Waiting(x.c, x.nPi, t) && Timely(x, t + 1, done, {}, spot)
      ensures Tracking(x.c, vis, vMap, done) && forall n :: 0 <= n <= x.c.nCi ==> (n in done <==> n <= Cell(t + 1, x.nPi))
    {
      hide LiveAll, InfosAll, IdleAll, Expanded, Ledger, Timely, GoodFold;
      assert Queued(que) == {};
      assert done + {} + Queued(que) == done;
      assert {} + Queued(que) == {};
      WaitingIs(x, fanouts, vis, vMap, done, t);
      TimelyEnds(x, fanouts, vis, vMap, done, t, spot);
    }

    lemma FrameEnds(t: nat)
      requires t < x.T && Storing(t, {}) && que == [] && x.c.nCi == Cell(x.T, x.nPi)
      requires GoodComb(x.c) && Ledger(x, f, t + 1) && Timely(x, t + 1, done, {}, spot)
      requires GoodFanouts(x.c, fanouts) && Expanded(x, fanouts, vis, done) && Tracking(x.c, vis, vMap, done)
      requires forall n :: 0 <= n <= x.c.nCi ==> (n in done <==> n <= Cell(t + 1, x.nPi))
      ensures t + 1 < x.T ==> AtStart(t + 1)
      ensures t + 1 == x.T ==> Finished()
    {
      hide Ledger, Timely, Tracking, Expanded, AtStart, Finished, Saving, InfosAll;
      if t + 1 < x.T {
        NextStarts(t);
      } else {
        LastEnds(t);
      }
    }

    lemma NextStarts(t: nat)
      requires t < x.T && Storing(t, {}) && que == [] && x.c.nCi == Cell(x.T, x.nPi)
      requires GoodComb(x.c) && Ledger(x, f, t + 1) && Timely(x, t + 1, done, {}, spot)
      requires GoodFanouts(x.c, fanouts) && Expanded(x, fanouts, vis, done) && Tracking(x.c, vis, vMap, done)
      requires forall n :: 0 <= n <= x.c.nCi ==> (n in done <==> n <= Cell(t + 1, x.nPi))
      requires t + 1 < x.T
      ensures AtStart(t + 1)
    {
      hide Ledger, Timely, Tracking, Expanded;
      NextFrameLive(x, f, t, vMap.Values);
      InfosLater(x, f, t, poInfos, spot, vis);
    }

    lemma LastEnds(t: nat)
      requires t < x.T && Storing(t, {}) && que == [] && x.c.nCi == Cell(x.T, x.nPi)
      requires GoodComb(x.c) && Ledger(x, f, t + 1) && Timely(x, t + 1, done, {}, spot)
      requires GoodFanouts(x.c, fanouts) && Expanded(x, fanouts, vis, done) && Tracking(x.c, vis, vMap, done)
      requires forall n :: 0 <= n <= x.c.nCi ==> (n in done <==> n <= Cell(t + 1, x.nPi))
      requires t + 1 == x.T
      ensures Finished()
    {
      hide Ledger, Tracking, Expanded, Saving, InfosOk;
      EverythingDone(x.c, fanouts, vis, vMap, done, x);
      assert GoodFold(x, f) by {
        SavingShape(x, f, t, vMap.Values, {});
      }
    }

    /** After the last frame every object has been expanded and nothing is half ready. */
    ghost predicate Finished()
      reads this
    {
      && GoodFold(x, f) && x.T > 0 && InfosAll(x, f, x.T - 1, poInfos, spot, vis)
      && vMap == map[] && (forall n: nat :: n in done <==> n < Size(x.c))
      && (forall k: nat :: k in spot <==> k < |x.c.pos|)
      && Ledger(x, f, x.T) && OnTime(x, spot) && x.c.nCi == Cell(x.T, x.nPi)
    }

    /** getPoNum: the largest number of outputs in a frame. */
    method GetPoNum() returns (n: nat)
      ensures forall u :: 0 <= u < |poInfos| ==> |poInfos[u]| <= n
      ensures n > 0 ==> exists u :: 0 <= u < |poInfos| && |poInfos[u]| == n
    {
      n := 0;
      for t := 0 to |poInfos|
        invariant forall u :: 0 <= u < t ==> |poInfos[u]| <= n
        invariant n > 0 ==> exists u :: 0 <= u < t && |poInfos[u]| == n
      {
        if |poInfos[t]| > n {
          n := |poInfos[t]|;
        }
      }
    }

    method BuildPoFuncs(oPerm: array<int>) returns (net: Net)
      requires Finished() && oPerm.Length == |x.c.pos|
      modifies this`f, this`poInfos, this`spot, oPerm
      ensures Folded(x.c, x.nPi, x.T, net, oPerm[..]) && FramesAscend(x.T, |net.pos|, oPerm[..])
      ensures Latched(x.c, x.nPi, x.T, x.mff, net) && Punctual(x.c, x.nPi, x.T, |net.pos|, oPerm[..])
    {
      hide Ledger, Latched, Punctual, Folded, FramesAscend, OnTime, Building, InfosAll, WideAs;
      var nPo := GetPoNum();
      PinsNeeded(x, f, poInfos, spot, vis, nPo);
      var poVec := seq(nPo, _ => Edge(0, true));
      BuildBegins(x, f, poInfos, spot, vis, nPo, oPerm[..]);
      for t := 0 to x.T
        invariant Building(x, f, poInfos, spot, nPo, poVec, oPerm[..], t, 0, t)
        invariant Ledger(x, f, x.T) && OnTime(x, spot) && |poVec| == nPo
      {
        poVec := BuildFrame(t, nPo, poVec, oPerm);
      }
      net := f.net.(pos := poVec);
      BuildLatched(x, f, poInfos, spot, poVec, oPerm[..]);
      BuildPunctual(x, f, poInfos, spot, poVec, oPerm[..]);
      BuildDone(x, f, poInfos, spot, poVec, oPerm[..]);
      BuildAscends(x, f, poInfos, spot, poVec, oPerm[..]);
    }

    /** The outputs of frame `t`, in the order of their indices. */
    method BuildFrame(t: nat, nPo: nat, poVec0: seq<Edge>, oPerm: array<int>) returns (poVec: seq<Edge>)
      requires t < x.T && Building(x, f, poInfos, spot, nPo, poVec0, oPerm[..], t, 0, t)
      requires Ledger(x, f, x.T) && OnTime(x, spot)
      modifies this`f, this`poInfos, this`spot, oPerm
      ensures Building(x, f, poInfos, spot, nPo, poVec, oPerm[..], t + 1, 0, t + 1)
      ensures Ledger(x, f, x.T) && OnTime(x, spot) && |poVec| == nPo
    {
      hide Ledger;
      poVec := poVec0;
      ghost var spot2 := BuildSort(x, f, poInfos, spot, nPo, poVec, oPerm[..], t);
      poInfos, spot := poInfos[t := SortInfos(poInfos[t])], spot2;
      var infoPV := poInfos[t];
      for i := 0 to |infoPV|
        invariant t < |poInfos| && infoPV == poInfos[t]
        invariant Building(x, f, poInfos, spot, nPo, poVec, oPerm[..], t, i, t + 1)
        invariant Ledger(x, f, x.T) && OnTime(x, spot)
      {
        poVec := ConnectOutput(t, nPo, poVec, i, oPerm);
      }
      BuildNextFrame(x, f, poInfos, spot, nPo, poVec, oPerm[..], t);
    }

    /** poVec[i] also shows the `i`-th output of frame `t`. */
    method ConnectOutput(t: nat, nPo: nat, poVec: seq<Edge>, i: nat, oPerm: array<int>) returns (poVec2: seq<Edge>)
      requires t < x.T && t < |poInfos| && i < |poInfos[t]|
      requires Building(x, f, poInfos, spot, nPo, poVec, oPerm[..], t, i, t + 1) && Ledger(x, f, x.T)
      modifies this`f, oPerm
      ensures Building(x, f, poInfos, spot, nPo, poVec2, oPerm[..], t, i + 1, t + 1) && Ledger(x, f, x.T)
    {
      hide Ledger;
      BuildStep(x, f, poInfos, spot, nPo, poVec, oPerm[..], t, i);
      var (k, e) := poInfos[t][i];
      PinEdges(x, f, poInfos, spot, nPo, poVec, oPerm[..], t, i);
      LedgerPin(x, f, x.T, poVec[i], Edge(f.bo[t], false), e);
      var (nodes2, pin2) := AddFrame(f.net.nodes, poVec[i], Edge(f.bo[t], false), e);
      f, poVec2 := f.(net := f.net.(nodes := nodes2)), poVec[i := pin2];
      ghost var perm := oPerm[..];
      oPerm[k] := Cell(t, nPo) + i;
      assert oPerm[..] == perm[k := Cell(t, nPo) + i];
    }

    ghost predicate Before(t: nat)
      reads this
    {
      if t < x.T then AtStart(t) else Finished()
    }

    method BuildTM(oPerm: array<int>) returns (net: Net)
      requires AtStart(0) && x.T > 0 && oPerm.Length == |x.c.pos|
      modifies this, oPerm
      ensures Folded(x.c, x.nPi, x.T, net, oPerm[..]) && FramesAscend(x.T, |net.pos|, oPerm[..])
      ensures Latched(x.c, x.nPi, x.T, x.mff, net) && Punctual(x.c, x.nPi, x.T, |net.pos|, oPerm[..])
    {
      hide AtStart, Finished, Folded, FramesAscend, Latched, Punctual;
      for t := 0 to x.T
        invariant Before(t)
      {
        RunFrame(t);
      }
      net := BuildPoFuncs(oPerm);
    }
  }

  /** aigStrMux with buildTM: the folded network shows every output of the original at the frame
      and pin recorded in oPerm, for both kinds of latches. */
  method AigStrMux(c: Comb, fanouts: seq<seq<Fanout>>, nPi: nat, nTimeFrame: nat, mff: bool, oPerm: array<int>) returns (net: Net)
    requires GoodComb(c) && GoodFanouts(c, fanouts) && nTimeFrame > 0 && c.nCi == Cell(nTimeFrame, nPi)
    requires oPerm.Length == |c.pos|
    modifies oPerm
    ensures Folded(c, nPi, nTimeFrame, net, oPerm[..])
    ensures FramesAscend(nTimeFrame, |net.pos|, oPerm[..])
    ensures Latched(c, nPi, nTimeFrame, mff, net) && Punctual(c, nPi, nTimeFrame, |net.pos|, oPerm[..])
  {
    hide Latched, Punctual, Folded;
    var folder := new Folder(c, fanouts, nPi, nTimeFrame, mff);
    net := folder.BuildTM(oPerm);
  }

  lemma PinEdges(x: Ctx, f: Fold, infos: seq<seq<Info>>, spot: map<nat, (nat, nat)>, nPo: nat, poVec: seq<Edge>, perm: seq<int>, t: nat, i: nat)
    requires Building(x, f, infos, spot, nPo, poVec, perm, t, i, t + 1) && t < x.T && i < |infos[t]|
    ensures i < |poVec| && poVec[i].node < |f.net.nodes| && infos[t][i].1.node < |f.net.nodes| && t < |f.bo| && f.bo[t] < |f.net.nodes|
  {
    InfosInNodes(x, f, infos);
    assert Selects(f.net.nodes, infos, poVec[i], i, t);
  }

  // ----- the steps of a frame, for the record of what the latches hold -----

  lemma LedgerOfInputs(x: Ctx, f0: Fold, f: Fold, t: nat, que: seq<nat>, done: set<nat>, spot: map<nat, (nat, nat)>)
    requires GoodFold(x, f0) && t < x.T && x.c.nCi == Cell(x.T, x.nPi) && Ledger(x, f0, t) && Timely(x, t, done, {}, spot)
    requires f == f0.(pCopy := CopiesWithInputs(f0.pCopy, t, x.nPi, x.nPi)) && que == InputStack(t, x.nPi, x.nPi)
    ensures Ledger(x, f, t) && Timely(x, t, done, {} + Queued(que), spot)
  {
    hide Ledger, Timely;
    InputStackMembers(t, x.nPi);
    CellMonotone(t + 1, x.T, x.nPi);
    assert {} + Queued(que) == Queued(que);
    TimelyBegins(x, t, done, Queued(que), spot);
    forall n: nat | Cell(t, x.nPi) < n <= Cell(t, x.nPi) + x.nPi ensures n !in WaitingBefore(x.c, x.nPi, t) {
      QueuedNow(x, t, done, Queued(que), spot, n);
    }
    InputCopies(x, f0, f, t);
    LedgerAppend(x, f0, f, t);
  }

  lemma QueuedNow(x: Ctx, t: nat, done: set<nat>, que: set<nat>, spot: map<nat, (nat, nat)>, n: nat)
    requires GoodComb(x.c) && Timely(x, t, done, que, spot) && n in que
    ensures n < Size(x.c) && Arrival(x.c, x.nPi, n) == t
  {}

  lemma InputCopies(x: Ctx, f0: Fold, f: Fold, t: nat)
    requires GoodFold(x, f0) && t < x.T && x.c.nCi == Cell(x.T, x.nPi) && Cell(t + 1, x.nPi) <= x.c.nCi
    requires f == f0.(pCopy := CopiesWithInputs(f0.pCopy, t, x.nPi, x.nPi))
    requires forall n: nat :: Cell(t, x.nPi) < n <= Cell(t, x.nPi) + x.nPi ==> n !in WaitingBefore(x.c, x.nPi, t)
    ensures Appends(x, f0, f) && KeepsStored(x, f0, f, WaitingBefore(x.c, x.nPi, t))
  {
    forall n: nat | n < Size(x.c) && Cell(t, x.nPi) < n <= Cell(t, x.nPi) + x.nPi
      ensures f.pCopy[n].node < |f.net.nodes| && !f.net.nodes[f.pCopy[n].node].Lat?
    {
      assert f.pCopy[n] == Edge(n - Cell(t, x.nPi), false);
      assert f.net.nodes[1 + (n - Cell(t, x.nPi) - 1)] == Pi(n - Cell(t, x.nPi) - 1);
    }
  }

  lemma LedgerOfGate(x: Ctx, fanouts: seq<seq<Fanout>>, f: Fold, f2: Fold, t: nat, vMap: map<nat, nat>, que: seq<nat>, poInfos: seq<seq<Info>>,
                     vis: Visits, spot: map<nat, (nat, nat)>, done: set<nat>, n: nat, a: nat)
    requires GoodComb(x.c) && GoodFanouts(x.c, fanouts) && Frame(x, f, t, vMap, que, poInfos, vis, spot, done, {n})
    requires Ledger(x, f, t) && Timely(x, t, done, {n} + Queued(que), spot)
    requires n < Size(x.c) && ToGate(a) in fanouts[n] && (n, ToGate(a)) !in vis && a in vMap && IsGate(x.c, a)
    requires GoodFold(x, f2) && GateOf(x.c, a).f0.node < |f.pCopy| && GateOf(x.c, a).f1.node < |f.pCopy|
    requires var (nodes2, e) := MkAnd(f.net.nodes, ChildCopy(f.pCopy, GateOf(x.c, a).f0), ChildCopy(f.pCopy, GateOf(x.c, a).f1));
             f2 == f.(net := f.net.(nodes := nodes2), pCopy := f.pCopy[a := e])
    ensures Ledger(x, f2, t) && Timely(x, t, done, {n} + Queued(que + [a]), spot)
  {
    hide LiveAll, InfosAll, IdleAll, Pending, Ledger, Timely;
    var cur := {n} + Queued(que);
    var ready := done + {n} + Queued(que);
    SecondFanin(x.c, vis, vMap, ready, n, a);
    WaitingReady(x.c, vis, vMap, ready);
    assert vMap[a] in vMap.Values;
    TimelyGate(x, t, done, cur, spot, n, a);
    QueuedNow(x, t, done, cur + {a}, spot, a);
    QueuedSnoc(que, a);
    assert {n} + Queued(que + [a]) == cur + {a};
    assert Extends(f.net.nodes, f2.net.nodes);
    LedgerGate(x, f, f2, t, a);
  }

  lemma PopQueued(que: seq<nat>)
    requires que != []
    ensures {que[|que| - 1]} + Queued(que[..|que| - 1]) == {} + Queued(que)
  {
    assert que == que[..|que| - 1] + [que[|que| - 1]];
    QueuedSnoc(que[..|que| - 1], que[|que| - 1]);
  }

  lemma TimelyFinish(x: Ctx, t: nat, done: set<nat>, que: set<nat>, spot: map<nat, (nat, nat)>, n: nat)
    requires GoodComb(x.c) && Timely(x, t, done, {n} + que, spot)
    ensures Timely(x, t, done + {n}, {} + que, spot)
  {}

  /** Every latch marked as used holds an object met so far. */
  ghost predicate UsedTaken(f: Fold, vMap: map<nat, nat>, keys: set<nat>, used: seq<bool>) {
    forall l: nat :: l < |used| && used[l] ==> OwnsLatch(f, Met(vMap, keys), l)
  }

  lemma UsedBegins(f: Fold, vMap: map<nat, nat>)
    ensures UsedTaken(f, vMap, vMap.Keys, seq(|f.bo|, _ => false))
  {}

  lemma UsedMore(f: Fold, vMap: map<nat, nat>, keys: set<nat>, used: seq<bool>, a: nat)
    requires UsedTaken(f, vMap, keys, used) && keys <= vMap.Keys && a in keys
    ensures UsedTaken(f, vMap, keys - {a}, used)
  {
    MetNext(vMap, keys, a);
    hide Met;
  }

  lemma UsedNext(x: Ctx, f0: Fold, f: Fold, f2: Fold, t: nat, vMap: map<nat, nat>, keys: set<nat>, vSet: set<nat>, used: seq<bool>, a: nat, l: nat)
    requires HoldingUsed(x, f0, f, t, vMap, keys, vSet, used) && UsedTaken(f, vMap, keys, used) && keys <= vMap.Keys && a in keys
    requires vMap[a] < |f.pCopy| && Stored(f, vMap[a]) && LatchOf(f, vMap[a]) == l < |used|
    requires Writes(x, f, f2, t, vMap[a], l) && f2.pCopy == f.pCopy
    ensures UsedTaken(f2, vMap, keys - {a}, used[l := true])
  {
    hide Saving, Live;
    AllStayUsed(x, f0, f, f2, t, vMap, keys, vSet, used, vMap[a], l);
    MetNext(vMap, keys, a);
    MetInside(vMap, keys);
    assert vMap[a] in vMap.Values;
    hide Met, Stored, LatchOf;
    var used2 := used[l := true];
    forall k: nat | k < |used2| && used2[k] ensures OwnsLatch(f2, Met(vMap, keys - {a}), k) {
      if k == l {
        assert vMap[a] in Met(vMap, keys - {a});
      } else {
        assert OwnsLatch(f, Met(vMap, keys), k);
      }
    }
  }

  lemma AllStayUsed(x: Ctx, f0: Fold, f: Fold, f2: Fold, t: nat, vMap: map<nat, nat>, keys: set<nat>, vSet: set<nat>, used: seq<bool>, n: nat, l: nat)
    requires HoldingUsed(x, f0, f, t, vMap, keys, vSet, used) && Writes(x, f, f2, t, n, l) && f2.pCopy == f.pCopy
    ensures forall m :: m in vMap.Values ==> m < |f.pCopy| && (Stored(f2, m) <==> Stored(f, m)) && (Stored(f, m) ==> LatchOf(f2, m) == LatchOf(f, m))
  {
    AllStay(x, f, f2, t, vMap.Values, n, l);
  }

  lemma UsedFills(x: Ctx, f0: Fold, f: Fold, t: nat, vMap: map<nat, nat>, vSet: set<nat>, used: seq<bool>)
    requires HoldingUsed(x, f0, f, t, vMap, {}, vSet, used) && UsedTaken(f, vMap, {}, used)
    ensures Filling(x, f, vMap.Values, vSet, used, x.T) && |used| == |f.bo|
  {
    assert Met(vMap, {}) == vMap.Values;
    forall l: nat | l < |used| && used[l] ensures TakenLatch(x, f, vMap.Values, vSet, l) {
      assert OwnsLatch(f, Met(vMap, {}), l);
      var n :| n in Met(vMap, {}) && n < |f.pCopy| && Stored(f, n) && LatchOf(f, n) == l;
      assert n in vMap.Values - vSet;
    }
  }

  lemma LedgerLoads(x: Ctx, f: Fold, t: nat)
    requires GoodComb(x.c) && Ledger(x, f, t) && x.mff
    ensures Loads(x, f, t) && Counted(x, |f.bo|, t)
  {}

  lemma FrameFilled(x: Ctx, f: Fold, t: nat, waiting: set<nat>, used: seq<bool>, i: nat, size: nat)
    requires GoodComb(x.c) && waiting == Waiting(x.c, x.nPi, t) && Loads(x, f, t) && Counted(x, size, t) && |used| == size
    requires Placing(x, f, t, waiting, {}, used, i) && Filling(x, f, waiting, {}, used, i)
    ensures Ledger(x, f, t + 1) && Saving(x, f, t, waiting, {})
  {
    hide Loads, Counted;
    LoadsNext(x, f, t);
    CountNext(x, f, t, size);
  }

  lemma InfosLater(x: Ctx, f: Fold, t: nat, poInfos: seq<seq<Info>>, spot: map<nat, (nat, nat)>, vis: Visits)
    requires GoodFold(x, f) && t + 1 < x.T && InfosAll(x, f, t, poInfos, spot, vis)
    ensures InfosAll(x, f, t + 1, poInfos, spot, vis)
  {
    assert InfosOk(x, f, t + 1, poInfos[t + 1]);
  }

  /** When all inputs are done, so is every gate: its fanins have been expanded. */
  lemma {:induction false} GateDone(x: Ctx, fanouts: seq<seq<Fanout>>, vis: Visits, vMap: map<nat, nat>, done: set<nat>, n: nat)
    requires GoodComb(x.c) && GoodFanouts(x.c, fanouts) && Tracking(x.c, vis, vMap, done) && Expanded(x, fanouts, vis, done)
    requires n < Size(x.c) && forall i :: 0 <= i <= x.c.nCi ==> i in done
    ensures n in done && n !in vMap
    decreases n
  {
    if n > x.c.nCi {
      var g := GateOf(x.c, n);
      GateDone(x, fanouts, vis, vMap, done, g.f0.node);
      GateDone(x, fanouts, vis, vMap, done, g.f1.node);
      assert FaninOf(x.c, g.f0.node, n) && FaninOf(x.c, g.f1.node, n);
      assert ToGate(n) in fanouts[g.f0.node] && ToGate(n) in fanouts[g.f1.node];
      assert (g.f0.node, ToGate(n)) in vis && (g.f1.node, ToGate(n)) in vis;
    }
  }

  lemma EverythingDone(c: Comb, fanouts: seq<seq<Fanout>>, vis: Visits, vMap: map<nat, nat>, done: set<nat>, x: Ctx)
    requires x.c == c && GoodComb(c) && GoodFanouts(c, fanouts) && Tracking(c, vis, vMap, done) && Expanded(x, fanouts, vis, done)
    requires forall i :: 0 <= i <= c.nCi ==> i in done
    ensures vMap == map[] && forall n: nat :: n in done <==> n < Size(c)
    ensures forall k: nat :: k < |c.pos| ==> (c.pos[k].node, ToPo(k)) in vis
  {
    forall n: nat | n < Size(c) ensures n in done && n !in vMap {
      GateDone(x, fanouts, vis, vMap, done, n);
    }
    assert vMap.Keys == {};
    forall k: nat | k < |c.pos| ensures (c.pos[k].node, ToPo(k)) in vis {
      assert ToPo(k) in fanouts[c.pos[k].node];
    }
  }

  /** The first `i` fanouts of `n` have been visited since `vis0`. */
  ghost predicate Visited(vis0: Visits, vis: Visits, n: nat, fos: seq<Fanout>, i: nat) {
    i <= |fos| && forall y, fo :: (y, fo) in vis <==> (y, fo) in vis0 || (y == n && fo in fos[..i])
  }

  lemma NextUnvisited(x: Ctx, fanouts: seq<seq<Fanout>>, vis0: Visits, vis: Visits, done: set<nat>, n: nat, i: nat)
    requires GoodComb(x.c) && GoodFanouts(x.c, fanouts) && Expanded(x, fanouts, vis0, done)
    requires n < |fanouts| && n !in done && i < |fanouts[n]| && Visited(vis0, vis, n, fanouts[n], i)
    ensures (n, fanouts[n][i]) !in vis && fanouts[n][i] in fanouts[n]
    ensures Visited(vis0, vis + {(n, fanouts[n][i])}, n, fanouts[n], i + 1)
  {
    var fos := fanouts[n];
    assert fos[i] !in fos[..i];
    assert fos[..i + 1] == fos[..i] + [fos[i]];
  }

  lemma AllVisited(x: Ctx, fanouts: seq<seq<Fanout>>, vis0: Visits, vis: Visits, done: set<nat>, n: nat)
    requires GoodComb(x.c) && GoodFanouts(x.c, fanouts) && Expanded(x, fanouts, vis0, done)
    requires n < |fanouts| && n !in done && Visited(vis0, vis, n, fanouts[n], |fanouts[n]|)
    ensures Expanded(x, fanouts, vis, done + {n})
  {
    assert fanouts[n][..|fanouts[n]|] == fanouts[n];
  }

  predicate AllFresh(f: Fold, todo: set<nat>) {
    forall n :: n in todo ==> n < |f.pCopy| && !Stored(f, n)
  }

  /** The objects in latches and those to be stored, which arrive in frame `t`, are all that wait up to `t`. */
  ghost predicate Arrived(x: Ctx, t: nat, held: set<nat>, vSet: set<nat>)
    requires GoodComb(x.c)
  {
    && held + vSet == WaitingBefore(x.c, x.nPi, t + 1) && held !! vSet
    && forall n :: n in vSet ==> n < Size(x.c) && Arrival(x.c, x.nPi, n) == t
  }

  lemma ArrivedBegins(x: Ctx, t: nat, vSet: set<nat>)
    requires GoodComb(x.c) && WaitingBefore(x.c, x.nPi, t) + vSet == WaitingBefore(x.c, x.nPi, t + 1)
    requires forall n :: n in vSet ==> n < Size(x.c) && Arrival(x.c, x.nPi, n) == t
    ensures Arrived(x, t, WaitingBefore(x.c, x.nPi, t), vSet)
  {}

  lemma ArrivedNext(x: Ctx, t: nat, held: set<nat>, vSet: set<nat>, n: nat)
    requires GoodComb(x.c) && Arrived(x, t, held, vSet) && n in vSet
    ensures Arrived(x, t, held + {n}, vSet - {n})
  {
    assert (held + {n}) + (vSet - {n}) == held + vSet;
  }

  lemma ArrivedAll(x: Ctx, t: nat, held: set<nat>)
    requires GoodComb(x.c) && Arrived(x, t, held, {})
    ensures held == WaitingBefore(x.c, x.nPi, t + 1)
  {
    assert held + {} == held;
  }

  lemma FreshOnes(f: Fold, todo: set<nat>)
    requires forall n :: n in todo ==> n < |f.pCopy| && !Stored(f, n)
    ensures AllFresh(f, todo)
  {}

  /** While reused latches are handed out: latches below `i` have been considered. */
  ghost predicate Placing(x: Ctx, f: Fold, t: nat, waiting: set<nat>, vSet: set<nat>, used: seq<bool>, i: nat) {
    && x.mff && Saving(x, f, t, waiting, vSet) && AllFresh(f, vSet)
    && x.T <= i <= |f.bo| && |used| <= |f.bo| && (i < |f.bo| ==> |f.bo| == |used|)
    && (forall n :: n in waiting && n < Size(x.c) && Stored(f, n) ==> LatchOf(f, n) < i || (LatchOf(f, n) < |used| && used[LatchOf(f, n)]))
    && (forall l :: i <= l < |used| && !used[l] ==> Idle(f.net, x.T, l, t, x.mff))
  }

  lemma PlaceInOld(x: Ctx, f: Fold, t: nat, waiting: set<nat>, vSet: set<nat>, used: seq<bool>, i: nat, n: nat)
    requires Placing(x, f, t, waiting, vSet, used, i) && n in vSet && i < |f.bo| && !used[i]
    ensures var f2 := StoreMore(f, t, n, i);
            Placing(x, f2, t, waiting, vSet - {n}, used, i + 1) && Writes(x, f, f2, t, n, i)
  {
    assert Live(x, f, t, n);
    StoreMoreOk(x, f, t, n, i);
    SaveStep(x, f, StoreMore(f, t, n, i), t, waiting, vSet, n, i);
    PlaceRest(x, f, StoreMore(f, t, n, i), t, waiting, vSet, used, i, n);
  }

  lemma PlaceInNew(x: Ctx, f: Fold, t: nat, waiting: set<nat>, vSet: set<nat>, used: seq<bool>, i: nat, n: nat)
    requires Placing(x, f, t, waiting, vSet, used, i) && n in vSet && i == |f.bo|
    ensures var f2 := StoreFirst(f, t, n);
            Placing(x, f2, t, waiting, vSet - {n}, used, i + 1) && Writes(x, f, f2, t, n, i)
  {
    assert Live(x, f, t, n);
    StoreFirstOk(x, f, t, n);
    SaveNew(x, f, StoreFirst(f, t, n), t, waiting, vSet, n);
    PlaceRest(x, f, StoreFirst(f, t, n), t, waiting, vSet, used, i, n);
  }

  lemma PlaceRest(x: Ctx, f: Fold, f2: Fold, t: nat, waiting: set<nat>, vSet: set<nat>, used: seq<bool>, i: nat, n: nat)
    requires Placing(x, f, t, waiting, vSet, used, i) && n in vSet && Writes(x, f, f2, t, n, i)
    requires Saving(x, f2, t, waiting, vSet - {n})
    ensures Placing(x, f2, t, waiting, vSet - {n}, used, i + 1)
  {
    forall m | m in waiting && m != n
      ensures m < Size(x.c) && (Stored(f2, m) <==> Stored(f, m))
      ensures Stored(f, m) ==> LatchOf(f2, m) == LatchOf(f, m)
    {
      assert m in vSet ==> Live(x, f, t, m);
      OtherObject(x, f, f2, t, n, i, m);
    }
    forall l | i + 1 <= l < |used| && !used[l] ensures Idle(f2.net, x.T, l, t, x.mff) {
      KeptIdle(x, f, f2, t, l, t);
    }
  }

  ghost function Objects(k: nat): (s: set<nat>)
    ensures forall n: nat :: n in s <==> n < k
  {
    if k == 0 then {} else Objects(k - 1) + {k - 1}
  }

  // ----- the start of the run -----

  function InitialNodes(nPi: nat, T: nat): seq<Node> {
    seq(1 + nPi + T, (k: nat) => if k == 0 then Const1 else if k <= nPi then Pi(k - 1) else Lat(k - 1 - nPi))
  }

  function InitialFold(size: nat, nPi: nat, T: nat): Fold
    requires T > 0
  {
    var bo := seq(T, l => 1 + nPi + l);
    Fold(Net(InitialNodes(nPi, T), seq(T, l => l == 0),
             seq(T, l requires 0 <= l < T => if l == 0 then Edge(bo[T - 1], false) else Edge(bo[l - 1], false)), []),
         bo, seq(size, _ => Edge(0, false)))
  }

  lemma InitialLayout(nodes: seq<Node>, bo: seq<nat>, nPi: nat, T: nat)
    requires nodes == InitialNodes(nPi, T) && bo == seq(T, l => 1 + nPi + l)
    ensures Ordered(nodes) && 1 + nPi <= |nodes| && nodes[0] == Const1
    ensures forall i :: 0 <= i < nPi ==> nodes[1 + i] == Pi(i)
    ensures forall l :: 0 <= l < |bo| ==> bo[l] < |nodes| && nodes[bo[l]] == Lat(l)
    ensures forall k :: 0 <= k < |nodes| && nodes[k].Lat? ==> nodes[k].l < T && bo[nodes[k].l] == k
  {
    assert forall k :: 0 <= k < |nodes| ==> !nodes[k].And?;
  }

  lemma InitialFoldOk(x: Ctx)
    requires GoodComb(x.c) && x.T > 0
    ensures GoodFold(x, InitialFold(Size(x.c), x.nPi, x.T))
  {
    hide InitialNodes, Ordered, GoodComb;
    var f := InitialFold(Size(x.c), x.nPi, x.T);
    InitialLayout(f.net.nodes, f.bo, x.nPi, x.T);
  }

  /** The stack after pushing the first `i` inputs of frame `t`. */
  function InputStack(t: nat, nPi: nat, i: nat): seq<nat> {
    (if t == 0 then [0 as nat] else []) + seq(i, (j: nat) => 1 + Cell(t, nPi) + j)
  }

  function CopiesWithInputs(pCopy: seq<Edge>, t: nat, nPi: nat, i: nat): seq<Edge> {
    seq(|pCopy|, n requires n >= 0 =>
      if 1 + Cell(t, nPi) <= n < 1 + Cell(t, nPi) + i then Edge(n - Cell(t, nPi), false)
      else if n < |pCopy| then pCopy[n] else Edge(0, false))
  }

  lemma FrameBegins(x: Ctx, fanouts: seq<seq<Fanout>>, f0: Fold, f: Fold, t: nat, vMap: map<nat, nat>, que: seq<nat>,
                    poInfos: seq<seq<Info>>, vis: Visits, spot: map<nat, (nat, nat)>, done: set<nat>)
    requires GoodComb(x.c) && GoodFanouts(x.c, fanouts) && GoodFold(x, f0) && t < x.T
    requires Tracking(x.c, vis, vMap, done) && Cell(t + 1, x.nPi) <= x.c.nCi
    requires forall n :: 0 <= n <= x.c.nCi ==> (n in done <==> t > 0 && n <= Cell(t, x.nPi))
    requires LiveAll(x, f0, t, {}, vMap.Values) && InfosAll(x, f0, t, poInfos, spot, vis) && IdleAll(x, f0, t)
    requires t == 0 ==> f0.pCopy[0] == Edge(0, false)
    requires f == f0.(pCopy := CopiesWithInputs(f0.pCopy, t, x.nPi, x.nPi)) && que == InputStack(t, x.nPi, x.nPi)
    ensures Frame(x, f, t, vMap, que, poInfos, vis, spot, done, {})
  {
    assert Cell(t + 1, x.nPi) == x.nPi + Cell(t, x.nPi);
    assert GoodFold(x, f);
    InputStackMembers(t, x.nPi);
    forall n | n in Queued(que) ensures n < Size(x.c) && Live(x, f, t, n) && !Stored(f, n) {
      InputLive(x, f, t, n);
    }
    WaitingReady(x.c, vis, vMap, done);
    WaitingUntouched(x, f0, f, t, vMap.Values, done);
    InputsReady(x.c, vis, vMap, done, Queued(que));
    assert done + {} + Queued(que) == done + Queued(que);
    assert LiveAll(x, f, t, {} + Queued(que), vMap.Values);
  }

  lemma InputStackMembers(t: nat, nPi: nat)
    ensures forall n: nat :: n in Queued(InputStack(t, nPi, nPi)) <==> (t == 0 && n == 0) || Cell(t, nPi) < n <= Cell(t, nPi) + nPi
    ensures forall i, j :: 0 <= i < j < |InputStack(t, nPi, nPi)| ==> InputStack(t, nPi, nPi)[i] != InputStack(t, nPi, nPi)[j]
  {
    var que := InputStack(t, nPi, nPi);
    forall n: nat | Cell(t, nPi) < n <= Cell(t, nPi) + nPi ensures n in que {
      assert que[n - 1 - Cell(t, nPi) + if t == 0 then 1 else 0] == n;
    }
    if t == 0 {
      assert que[0] == 0;
    }
  }

  /** Inputs and the constant become ready without any visit. */
  lemma InputsReady(c: Comb, vis: Visits, vMap: map<nat, nat>, ready: set<nat>, more: set<nat>)
    requires GoodComb(c) && Tracking(c, vis, vMap, ready) && forall n :: n in more ==> n <= c.nCi
    ensures Tracking(c, vis, vMap, ready + more)
  {}

  lemma WaitingUntouched(x: Ctx, f0: Fold, f: Fold, t: nat, waiting: set<nat>, done: set<nat>)
    requires GoodFold(x, f0) && GoodFold(x, f) && t < x.T && waiting <= done && LiveAll(x, f0, t, {}, waiting)
    requires forall n :: n in done && n <= x.c.nCi ==> t > 0 && n <= Cell(t, x.nPi)
    requires forall n :: n in done ==> n < Size(x.c)
    requires Cell(t, x.nPi) + x.nPi <= x.c.nCi
    requires f == f0.(pCopy := CopiesWithInputs(f0.pCopy, t, x.nPi, x.nPi))
    ensures LiveAll(x, f, t, {}, waiting)
  {
    forall n | n in waiting ensures f.pCopy[n] == f0.pCopy[n] {
      assert n in done;
    }
  }

  lemma InputLive(x: Ctx, f: Fold, t: nat, n: nat)
    requires GoodFold(x, f) && n <= x.c.nCi && (n == 0 || Cell(t, x.nPi) < n <= Cell(t, x.nPi) + x.nPi)
    requires f.pCopy[n] == Edge(if n == 0 then 0 else n - Cell(t, x.nPi), false)
    ensures Live(x, f, t, n) && !Stored(f, n)
  {
    var e := f.pCopy[n];
    assert f.net.nodes[e.node] == if n == 0 then f.net.nodes[0] else Pi(e.node - 1);
    assert !Stored(f, n);
    forall v
      ensures EvE(f.net.nodes, State(f.net, v, x.nPi, t), Slice(v, t, x.nPi), e) == CombValE(x.c, v, Edge(n, false))
    {
      if n > 0 {
        assert f.net.nodes[e.node] == Pi(e.node - 1);
      }
    }
    assert Computes(f.net, x.nPi, t, e, x.c, Edge(n, false));
  }

  // ----- steps of the storing loops -----

  lemma InfosWritten(x: Ctx, f: Fold, f2: Fold, t: nat, poInfos: seq<seq<Info>>, spot: map<nat, (nat, nat)>, vis: Visits, n: nat, l: nat)
    requires Writes(x, f, f2, t, n, l) && t < x.T && InfosAll(x, f, t, poInfos, spot, vis)
    ensures InfosAll(x, f2, t, poInfos, spot, vis)
  {
    forall u: nat, e: Edge, g: Edge | u <= t && g.node < Size(x.c) && Computes(f.net, x.nPi, u, e, x.c, g)
      ensures Computes(f2.net, x.nPi, u, e, x.c, g)
    {
      KeptComputes(x, f, f2, t, u, e, g);
    }
    InfosKept(x, f, f2, t, poInfos, spot, vis);
  }

  /** A new latch is nobody else's. */
  lemma SaveNew(x: Ctx, f: Fold, f2: Fold, t: nat, waiting: set<nat>, todo: set<nat>, n: nat)
    requires Saving(x, f, t, waiting, todo) && n in todo && !Stored(f, n) && Writes(x, f, f2, t, n, |f.bo|)
    requires Takes(f2.net, x.nPi, t, |f.bo|, x.c, n) && Idle(f2.net, x.T, |f.bo|, t + 1, x.mff)
    ensures Saving(x, f2, t, waiting, todo - {n})
    ensures AllFresh(f, todo) ==> AllFresh(f2, todo - {n})
  {
    forall m | m in waiting && m != n && m < Size(x.c) && Stored(f, m) ensures LatchOf(f, m) != |f.bo| {
      assert StoredWell(x, f, m);
    }
    SaveStep(x, f, f2, t, waiting, todo, n, |f.bo|);
    forall m | m in todo - {n} && m < Size(x.c) && !Stored(f, m) ensures !Stored(f2, m) {
      assert Live(x, f, t, m);
      OtherObject(x, f, f2, t, n, |f.bo|, m);
    }
  }

  lemma HoldBegins(x: Ctx, f: Fold, t: nat, vMap: map<nat, nat>, vSet: set<nat>)
    requires GoodFold(x, f) && t < x.T && !x.mff && LiveAll(x, f, t, {}, vMap.Values) && IdleAll(x, f, t)
    requires forall n :: n in vSet <==> n in vMap.Values && n < |f.pCopy| && !Stored(f, n)
    ensures Saving(x, f, t, vMap.Values, vSet)
  {
    forall n | n in vMap.Values - vSet ensures n < Size(x.c) && Taken(x, f, t, n) {
      assert StoredWell(x, f, n);
      HeldIsTaken(x, f, t, n);
    }
    IdleLater(x, f, t);
  }

  lemma IdleLater(x: Ctx, f: Fold, t: nat)
    requires GoodFold(x, f) && IdleAll(x, f, t)
    ensures IdleAll(x, f, t + 1)
  {
    var t1 := t + 1;
    forall l | x.T <= l < |f.net.latchIn| ensures Idle(f.net, x.T, l, t1, x.mff) {
      assert Idle(f.net, x.T, l, t, x.mff);
    }
  }

  /** The objects met so far by the loop over the half-ready map. */
  ghost function Met(vMap: map<nat, nat>, keys: set<nat>): set<nat> {
    set a | a in vMap && a !in keys :: vMap[a]
  }

  ghost function StillToHold(f: Fold, vMap: map<nat, nat>, keys: set<nat>): set<nat> {
    set n | n in vMap.Values && !(n in Met(vMap, keys) && n < |f.pCopy| && Stored(f, n))
  }

  ghost predicate HoldingUsed(x: Ctx, f0: Fold, f: Fold, t: nat, vMap: map<nat, nat>, keys: set<nat>, vSet: set<nat>, used: seq<bool>) {
    && x.mff && Saving(x, f, t, vMap.Values, StillToHold(f, vMap, keys))
    && f.pCopy == f0.pCopy && f.bo == f0.bo && |used| == |f.bo|
    && (forall n :: n in vMap.Values ==> n < Size(x.c) && Live(x, f, t, n))
    && (forall n :: n in vSet <==> n in Met(vMap, keys) && n < |f.pCopy| && !Stored(f, n))
    && (forall n :: n in Met(vMap, keys) && n < |f.pCopy| && Stored(f, n) ==> LatchOf(f, n) < |used| && used[LatchOf(f, n)])
  }

  lemma ReuseBegins(x: Ctx, f: Fold, t: nat, vMap: map<nat, nat>)
    requires GoodFold(x, f) && t < x.T && x.mff && LiveAll(x, f, t, {}, vMap.Values) && IdleAll(x, f, t)
    ensures HoldingUsed(x, f, f, t, vMap, vMap.Keys, {}, seq(|f.bo|, _ => false))
  {
    IdleLater(x, f, t);
    assert Met(vMap, vMap.Keys) == {};
    assert StillToHold(f, vMap, vMap.Keys) == vMap.Values;
  }

  lemma MetNext(vMap: map<nat, nat>, keys: set<nat>, a: nat)
    requires keys <= vMap.Keys && a in keys
    ensures Met(vMap, keys - {a}) == Met(vMap, keys) + {vMap[a]}
  {
    forall n | n in Met(vMap, keys) + {vMap[a]} ensures n in Met(vMap, keys - {a}) {
      if n == vMap[a] {
        assert a in vMap && a !in keys - {a};
      } else {
        var b :| b in vMap && b !in keys && vMap[b] == n;
        assert b !in keys - {a};
      }
    }
  }

  lemma CollectFresh(x: Ctx, f0: Fold, f: Fold, t: nat, vMap: map<nat, nat>, keys: set<nat>, vSet: set<nat>, used: seq<bool>, a: nat)
    requires HoldingUsed(x, f0, f, t, vMap, keys, vSet, used) && keys <= vMap.Keys && a in keys
    requires vMap[a] < |f.pCopy| && !Stored(f, vMap[a])
    ensures HoldingUsed(x, f0, f, t, vMap, keys - {a}, vSet + {vMap[a]}, used)
  {
    MetNext(vMap, keys, a);
    assert StillToHold(f, vMap, keys - {a}) == StillToHold(f, vMap, keys);
  }

  /** The latch of an object still in use may take it again: it is idle, or took it already. */
  lemma MayTakeAgain(x: Ctx, f: Fold, t: nat, waiting: set<nat>, todo: set<nat>, n: nat)
    requires Saving(x, f, t, waiting, todo) && n in waiting && n < Size(x.c) && n < |f.pCopy| && Stored(f, n)
    ensures x.T <= LatchOf(f, n) < |f.net.latchIn| && |f.bo| == |f.net.latchIn| && t < |f.bo|
    ensures f.pCopy[n] == Edge(f.bo[LatchOf(f, n)], false)
    ensures Idle(f.net, x.T, LatchOf(f, n), t + 1, x.mff)
    ensures Idle(f.net, x.T, LatchOf(f, n), t, x.mff) || Takes(f.net, x.nPi, t, LatchOf(f, n), x.c, n)
    ensures forall m :: m in waiting && m != n && m < Size(x.c) && Stored(f, m) ==> LatchOf(f, m) != LatchOf(f, n)
  {
    assert StoredWell(x, f, n);
    if n in todo {
      assert !TakenLatch(x, f, waiting, todo, LatchOf(f, n));
    } else {
      assert Taken(x, f, t, n);
    }
  }

  /** Rewriting the latch of an object leaves every waiting object where it was. */
  lemma AllStay(x: Ctx, f: Fold, f2: Fold, t: nat, waiting: set<nat>, n: nat, l: nat)
    requires GoodFold(x, f) && t < x.T && Writes(x, f, f2, t, n, l) && f2.pCopy == f.pCopy
    requires forall m :: m in waiting ==> m < Size(x.c) && Live(x, f, t, m)
    ensures forall m :: m in waiting ==> m < Size(x.c) && Live(x, f2, t, m)
    ensures forall m :: m in waiting ==> (Stored(f2, m) <==> Stored(f, m)) && (Stored(f, m) ==> LatchOf(f2, m) == LatchOf(f, m))
  {
    forall m | m in waiting ensures Live(x, f2, t, m) {
      KeptComputes(x, f, f2, t, t, f.pCopy[m], Edge(m, false));
    }
  }

  lemma HoldAgain(x: Ctx, f0: Fold, f: Fold, t: nat, vMap: map<nat, nat>, keys: set<nat>, vSet: set<nat>, used: seq<bool>, a: nat)
    requires HoldingUsed(x, f0, f, t, vMap, keys, vSet, used) && keys <= vMap.Keys && a in keys
    requires vMap[a] < |f.pCopy| && Stored(f, vMap[a])
    ensures x.T <= LatchOf(f, vMap[a]) < |f.net.latchIn| && LatchOf(f, vMap[a]) < |f.bo| && LatchOf(f, vMap[a]) < |used|
    ensures t < |f.bo|
    ensures Writes(x, f, StoreMore(f, t, vMap[a], LatchOf(f, vMap[a])), t, vMap[a], LatchOf(f, vMap[a]))
    ensures HoldingUsed(x, f0, StoreMore(f, t, vMap[a], LatchOf(f, vMap[a])), t, vMap, keys - {a}, vSet, used[LatchOf(f, vMap[a]) := true])
  {
    hide Saving, Idle, Takes, Live, Met, StillToHold;
    var n := vMap[a];
    assert n in vMap.Values;
    var l := LatchOf(f, n);
    var todo := StillToHold(f, vMap, keys);
    SavingShape(x, f, t, vMap.Values, todo);
    MayTakeAgain(x, f, t, vMap.Values, todo, n);
    StoreMoreOk(x, f, t, n, l);
    var f2 := StoreMore(f, t, n, l);
    SaveStep(x, f, f2, t, vMap.Values, todo, n, l);
    assert f2.pCopy == f.pCopy && f2.bo == f.bo;
    AllStay(x, f, f2, t, vMap.Values, n, l);
    MetNext(vMap, keys, a);
    MetInside(vMap, keys);
    StillToHoldNext(f, f2, vMap, keys, a);
  }

  lemma SavingShape(x: Ctx, f: Fold, t: nat, waiting: set<nat>, todo: set<nat>)
    requires Saving(x, f, t, waiting, todo)
    ensures GoodFold(x, f) && t < x.T
  {}

  lemma StillToHoldNext(f: Fold, f2: Fold, vMap: map<nat, nat>, keys: set<nat>, a: nat)
    requires keys <= vMap.Keys && a in keys && |f2.pCopy| == |f.pCopy| && vMap[a] < |f.pCopy| && Stored(f, vMap[a])
    requires forall m :: m in vMap.Values && m < |f.pCopy| ==> (Stored(f2, m) <==> Stored(f, m))
    ensures StillToHold(f2, vMap, keys - {a}) == StillToHold(f, vMap, keys) - {vMap[a]}
  {
    MetNext(vMap, keys, a);
    hide Met, Stored;
  }

  lemma MetInside(vMap: map<nat, nat>, keys: set<nat>)
    ensures Met(vMap, keys) <= vMap.Values
  {}

  lemma HoldingDone(x: Ctx, f0: Fold, f: Fold, t: nat, vMap: map<nat, nat>, vSet: set<nat>, used: seq<bool>)
    requires HoldingUsed(x, f0, f, t, vMap, {}, vSet, used)
    ensures Placing(x, f, t, vMap.Values, vSet, used, x.T)
  {
    assert Met(vMap, {}) == vMap.Values;
    assert StillToHold(f, vMap, {}) == vSet;
    forall l | x.T <= l < |used| && !used[l] ensures !TakenLatch(x, f, vMap.Values, vSet, l) {}
  }
}
