/** The scheduler of func_fold: outputs and inputs are assigned to time-frames so that every output
    sees its inputs in time (timeMux2/reord.cpp). */
module Reord {
  import opened FiniteSets
  import opened Frames

  /** sVecs: the inputs each output depends on. */
  type Supports = seq<set<nat>>

  ghost predicate GoodSupports(sup: Supports, nCi: nat) {
    forall o, j :: 0 <= o < |sup| && j in sup[o] ==> j < nCi
  }

  // ----- sorting by the size of the support -----

  function InsertIdx(sup: Supports, s: seq<nat>, o: nat): seq<nat>
    requires o < |sup| && forall k :: 0 <= k < |s| ==> s[k] < |sup|
  {
    if s == [] || |sup[o]| < |sup[s[0]]| then [o] + s else [s[0]] + InsertIdx(sup, s[1..], o)
  }

  lemma {:induction false} InsertIdxOk(sup: Supports, s: seq<nat>, o: nat)
    requires o < |sup| && (forall k :: 0 <= k < |s| ==> s[k] < |sup| && s[k] != o)
    requires forall k, l :: 0 <= k < l < |s| ==> s[k] != s[l] && |sup[s[k]]| <= |sup[s[l]]|
    ensures var r := InsertIdx(sup, s, o);
            |r| == |s| + 1 && (forall x :: x in r <==> x == o || x in s) && (forall k :: 0 <= k < |r| ==> r[k] < |sup|) &&
            forall k, l :: 0 <= k < l < |r| ==> r[k] != r[l] && |sup[r[k]]| <= |sup[r[l]]|
  {
    if s == [] || |sup[o]| < |sup[s[0]]| {
    } else {
      assert s == [s[0]] + s[1..];
      InsertIdxOk(sup, s[1..], o);
      var r := InsertIdx(sup, s[1..], o);
      forall l | 0 <= l < |r| ensures r[l] != s[0] && |sup[s[0]]| <= |sup[r[l]]| {
        assert r[l] in r;
      }
    }
  }

  /** The outputs in the order in which they are scheduled. */
  ghost predicate SortedIdx(sup: Supports, idx: seq<nat>) {
    && |idx| == |sup|
    && (forall k :: 0 <= k < |idx| ==> idx[k] < |sup|)
    && (forall k, l :: 0 <= k < l < |idx| ==> idx[k] != idx[l] && |sup[idx[k]]| <= |sup[idx[l]]|)
    && (forall o: nat :: o < |sup| ==> o in idx)
  }

  method SortIdx(sup: Supports) returns (idx: seq<nat>)
    ensures SortedIdx(sup, idx)
  {
    idx := [];
    for o := 0 to |sup|
      invariant |idx| == o && forall x: nat :: x in idx <==> x < o
      invariant forall k :: 0 <= k < |idx| ==> idx[k] < |sup|
      invariant forall k, l :: 0 <= k < l < |idx| ==> idx[k] != idx[l] && |sup[idx[k]]| <= |sup[idx[l]]|
    {
      forall k | 0 <= k < |idx| ensures idx[k] != o {
        assert idx[k] in idx;
      }
      InsertIdxOk(sup, idx, o);
      idx := InsertIdx(sup, idx, o);
    }
  }

  // ----- accumulated supports -----

  /** The union of the supports of the first `i` outputs in schedule order. */
  function Acc(sup: Supports, idx: seq<nat>, i: nat): set<nat>
    requires i <= |idx| && forall k :: 0 <= k < |idx| ==> idx[k] < |sup|
  {
    if i == 0 then {} else Acc(sup, idx, i - 1) + sup[idx[i - 1]]
  }

  lemma {:induction false} AccBound(sup: Supports, idx: seq<nat>, i: nat, nCi: nat)
    requires i <= |idx| && (forall k :: 0 <= k < |idx| ==> idx[k] < |sup|) && GoodSupports(sup, nCi)
    ensures |Acc(sup, idx, i)| <= nCi
  {
    AccInside(sup, idx, i, nCi);
    SubsetSize(Acc(sup, idx, i), Below(nCi));
  }

  lemma {:induction false} AccInside(sup: Supports, idx: seq<nat>, i: nat, nCi: nat)
    requires i <= |idx| && (forall k :: 0 <= k < |idx| ==> idx[k] < |sup|) && GoodSupports(sup, nCi)
    ensures Acc(sup, idx, i) <= Below(nCi)
  {
    if i > 0 {
      AccInside(sup, idx, i - 1, nCi);
    }
  }

  /** The union of the supports of the outputs in the first `k` slots. */
  function Needed(sup: Supports, slots: seq<int>, k: nat): set<nat>
    requires k <= |slots| && forall s :: 0 <= s < |slots| ==> -1 <= slots[s] < |sup|
  {
    if k == 0 then {} else Needed(sup, slots, k - 1) + if slots[k - 1] == -1 then {} else sup[slots[k - 1]]
  }

  lemma {:induction false} NeededMember(sup: Supports, slots: seq<int>, k: nat, s: nat)
    requires s < k <= |slots| && (forall s :: 0 <= s < |slots| ==> -1 <= slots[s] < |sup|) && slots[s] != -1
    ensures sup[slots[s]] <= Needed(sup, slots, k)
  {
    if s < k - 1 {
      NeededMember(sup, slots, k - 1, s);
    }
  }

  lemma {:induction false} NeededGrows(sup: Supports, slots: seq<int>, j: nat, k: nat)
    requires j <= k <= |slots| && forall s :: 0 <= s < |slots| ==> -1 <= slots[s] < |sup|
    ensures Needed(sup, slots, j) <= Needed(sup, slots, k)
    ensures (forall s :: j <= s < k ==> slots[s] == -1) ==> Needed(sup, slots, j) == Needed(sup, slots, k)
  {
    if j < k {
      NeededGrows(sup, slots, j, k - 1);
    }
  }

  /** Filling a free slot adds its output's support from there on. */
  lemma {:induction false} NeededUpdate(sup: Supports, slots: seq<int>, k: nat, pos: nat, o: nat)
    requires k <= |slots| && (forall s :: 0 <= s < |slots| ==> -1 <= slots[s] < |sup|) && pos < |slots| && o < |sup| && slots[pos] == -1
    ensures Needed(sup, slots[pos := o], k) == Needed(sup, slots, k) + if pos < k then sup[o] else {}
  {
    if k > 0 {
      NeededUpdate(sup, slots, k - 1, pos, o);
    }
  }

  lemma {:induction false} NeededInside(sup: Supports, slots: seq<int>, k: nat, nCi: nat)
    requires k <= |slots| && (forall s :: 0 <= s < |slots| ==> -1 <= slots[s] < |sup|) && GoodSupports(sup, nCi)
    ensures forall j :: j in Needed(sup, slots, k) ==> j < nCi
  {
    if k > 0 {
      NeededInside(sup, slots, k - 1, nCi);
    }
  }

  // ----- the earliest frame of an output -----

  /** ceil(count / nPi), less one if positive. */
  function FrameFor(count: nat, nPi: nat): nat
    requires nPi > 0
  {
    var t := (count + nPi - 1) / nPi;
    if t > 0 then t - 1 else 0
  }

  lemma CeilBounds(c: nat, n: nat, q: nat)
    requires n > 0 && q == (c + n - 1) / n
    ensures c <= q * n && (q > 0 ==> (q - 1) * n < c)
  {
    assert c + n - 1 == q * n + (c + n - 1) % n;
  }

  /** It is the first frame by whose end `count` inputs have been read. */
  lemma FrameForFits(count: nat, nPi: nat)
    requires nPi > 0
    ensures count <= Cell(FrameFor(count, nPi) + 1, nPi)
    ensures forall T: nat :: T > 0 && count <= Cell(T, nPi) ==> FrameFor(count, nPi) < T
  {
    var q := (count + nPi - 1) / nPi;
    CeilBounds(count, nPi, q);
    if q > 0 {
      CellIsProduct(q, nPi);
      CellIsProduct(q - 1, nPi);
    }
    forall T: nat | T > 0 && count <= Cell(T, nPi) ensures FrameFor(count, nPi) < T {
      if q > 0 && q - 1 >= T {
        CellMonotone(T, q - 1, nPi);
      }
    }
  }

  lemma CellGap(s: nat, t: nat, n: nat)
    requires s <= t
    ensures Cell(t, n) == Cell(s, n) + n * (t - s)
  {
    CellIsProduct(s, n);
    CellIsProduct(t, n);
    assert n * (t - s) == t * n - s * n;
  }

  // ----- schedulePO -----

  datatype Problem = Problem(sup: Supports, T: nat, nPi: nat, nCi: nat)

  ghost predicate GoodProblem(p: Problem) {
    p.T > 0 && p.nPi > 0 && p.nCi == Cell(p.T, p.nPi) && GoodSupports(p.sup, p.nCi)
  }

  ghost predicate GoodSlots(p: Problem, nPo: nat, slots: seq<int>) {
    |slots| == Cell(p.T, nPo) && forall s :: 0 <= s < |slots| ==> -1 <= slots[s] < |p.sup|
  }

  /** By the end of every frame the outputs so far need no more inputs than have been read. */
  ghost predicate InTime(p: Problem, nPo: nat, slots: seq<int>)
    requires GoodSlots(p, nPo, slots)
  {
    forall t: nat :: t < p.T ==> FrameInTime(p, nPo, slots, t)
  }

  ghost predicate FrameInTime(p: Problem, nPo: nat, slots: seq<int>, t: nat)
    requires GoodSlots(p, nPo, slots) && t < p.T
  {
    var t1 := t + 1;
    CellMonotone(t1, p.T, nPo);
    |Needed(p.sup, slots, Cell(t1, nPo))| <= Cell(t1, p.nPi)
  }

  /** `at` says where each output stands. */
  ghost predicate Located(slots: seq<int>, at: map<int, nat>) {
    && (forall o :: o in at ==> o >= 0 && at[o] < |slots| && slots[at[o]] == o)
    && (forall s :: 0 <= s < |slots| && slots[s] >= 0 ==> slots[s] in at && at[slots[s]] == s)
  }

  /** The first `i` outputs stand below slot `pos`, in schedule order. */
  ghost predicate Ranked(idx: seq<nat>, slots: seq<int>, i: nat, pos: nat, at: map<int, nat>) {
    && i <= |idx| && pos <= |slots| && Located(slots, at)
    && (forall s :: pos <= s < |slots| ==> slots[s] == -1)
    && (forall k :: 0 <= k < |idx| ==> (idx[k] in at <==> k < i))
    && (forall k, l :: 0 <= k < l < i ==> at[idx[k]] < at[idx[l]])
    && (forall k :: 0 <= k < i ==> at[idx[k]] < pos)
  }

  ghost predicate Placed(p: Problem, idx: seq<nat>, nPo: nat, slots: seq<int>, i: nat, pos: nat, at: map<int, nat>) {
    && GoodProblem(p) && SortedIdx(p.sup, idx) && GoodSlots(p, nPo, slots) && Ranked(idx, slots, i, pos, at)
    && Needed(p.sup, slots, pos) == Acc(p.sup, idx, i) && InTime(p, nPo, slots)
  }

  /** The loop state of one attempt: `cnt` slots wasted, `i` outputs placed, next slot (ct1, ct2). */
  ghost predicate Placing(p: Problem, idx: seq<nat>, nPo: nat, slots: seq<int>, i: nat, cnt: nat, ct1: nat, ct2: nat, at: map<int, nat>)
  {
    ct2 < nPo && Cell(ct1, nPo) + ct2 == cnt + i && Placed(p, idx, nPo, slots, i, cnt + i, at)
  }

  lemma PlacingBegins(p: Problem, idx: seq<nat>, nPo: nat, slots: seq<int>)
    requires GoodProblem(p) && SortedIdx(p.sup, idx) && nPo > 0 && |slots| == Cell(p.T, nPo)
    requires forall s :: 0 <= s < |slots| ==> slots[s] == -1
    ensures Placing(p, idx, nPo, slots, 0, 0, 0, 0, map[])
  {
    hide SortedIdx;
    forall t: nat | t < p.T ensures FrameInTime(p, nPo, slots, t) {
      CellMonotone(t + 1, p.T, nPo);
      NeededGrows(p.sup, slots, 0, Cell(t + 1, nPo));
    }
  }

  lemma RankNext(sup: Supports, idx: seq<nat>, slots: seq<int>, i: nat, pos0: nat, at: map<int, nat>, pos: nat)
    requires SortedIdx(sup, idx) && Ranked(idx, slots, i, pos0, at) && i < |idx| && pos0 <= pos < |slots|
    ensures Ranked(idx, slots[pos := idx[i]], i + 1, pos + 1, at[idx[i] := pos])
  {}

  lemma FreeFrom(idx: seq<nat>, slots: seq<int>, i: nat, pos: nat, at: map<int, nat>)
    requires Ranked(idx, slots, i, pos, at)
    ensures pos <= |slots| && forall s :: pos <= s < |slots| ==> slots[s] == -1
  {}

  lemma EarlierFrame(p: Problem, nPo: nat, slots: seq<int>, o: nat, pos: nat, t: nat)
    requires GoodSlots(p, nPo, slots) && o < |p.sup| && pos < |slots| && slots[pos] == -1 && t < p.T && FrameInTime(p, nPo, slots, t)
    requires Cell(t + 1, nPo) <= pos
    ensures FrameInTime(p, nPo, slots[pos := o], t)
  {
    CellMonotone(t + 1, p.T, nPo);
    NeededUpdate(p.sup, slots, Cell(t + 1, nPo), pos, o);
  }

  lemma LaterFrame(p: Problem, nPo: nat, slots2: seq<int>, pos: nat, f: nat, t: nat)
    requires GoodSlots(p, nPo, slots2) && pos < |slots2| && f <= t < p.T && pos < Cell(f + 1, nPo)
    requires (forall s :: pos < s < |slots2| ==> slots2[s] == -1) && |Needed(p.sup, slots2, pos + 1)| <= Cell(f + 1, p.nPi)
    ensures FrameInTime(p, nPo, slots2, t)
  {
    CellMonotone(t + 1, p.T, nPo);
    CellMonotone(f + 1, t + 1, nPo);
    CellMonotone(f + 1, t + 1, p.nPi);
    NeededGrows(p.sup, slots2, pos + 1, Cell(t + 1, nPo));
  }

  /** Putting the next output at position `c2` of frame `f`, at or after the next slot. */
  lemma PlaceAt(p: Problem, idx: seq<nat>, nPo: nat, slots: seq<int>, i: nat, pos0: nat, at: map<int, nat>, f: nat, c2: nat)
    requires Placed(p, idx, nPo, slots, i, pos0, at) && i < |idx| && f < p.T && c2 < nPo
    requires Cell(f, nPo) + c2 >= pos0 && |Acc(p.sup, idx, i + 1)| <= Cell(f + 1, p.nPi)
    ensures Cell(f, nPo) + c2 < |slots|
    ensures Placed(p, idx, nPo, slots[Cell(f, nPo) + c2 := idx[i]], i + 1, Cell(f, nPo) + c2 + 1, at[idx[i] := Cell(f, nPo) + c2])
  {
    hide Ranked, FrameInTime, Needed;
    FreeFrom(idx, slots, i, pos0, at);
    CellMonotone(f, p.T, nPo);
    var pos := Cell(f, nPo) + c2;
    var slots2 := slots[pos := idx[i]];
    RankNext(p.sup, idx, slots, i, pos0, at, pos);
    NeededGrows(p.sup, slots, pos0, pos);
    NeededUpdate(p.sup, slots, pos + 1, pos, idx[i]);
    NeededGrows(p.sup, slots, pos, pos + 1);
    forall t: nat | t < p.T ensures FrameInTime(p, nPo, slots2, t) {
      if t < f {
        CellMonotone(t + 1, f, nPo);
        EarlierFrame(p, nPo, slots, idx[i], pos, t);
      } else {
        LaterFrame(p, nPo, slots2, pos, f, t);
      }
    }
  }

  /** Case t <= ct1: the next slot is used. */
  lemma PlaceNext(p: Problem, idx: seq<nat>, nPo: nat, slots: seq<int>, i: nat, cnt: nat, ct1: nat, ct2: nat, at: map<int, nat>)
    requires Placing(p, idx, nPo, slots, i, cnt, ct1, ct2, at) && i < |idx| && ct1 < p.T
    requires FrameFor(|Acc(p.sup, idx, i + 1)|, p.nPi) <= ct1
    ensures cnt + i < |slots|
    ensures Placing(p, idx, nPo, slots[cnt + i := idx[i]], i + 1, cnt, if ct2 + 1 == nPo then ct1 + 1 else ct1,
                    if ct2 + 1 == nPo then 0 else ct2 + 1, at[idx[i] := cnt + i])
  {
    hide Placed;
    NextFits(p, idx, nPo, slots, i, cnt + i, at);
    CellMonotone(FrameFor(|Acc(p.sup, idx, i + 1)|, p.nPi) + 1, ct1 + 1, p.nPi);
    PlaceAt(p, idx, nPo, slots, i, cnt + i, at, ct1, ct2);
  }

  /** Case t > ct1: the rest of the frames up to `t` is wasted. */
  lemma PlaceLater(p: Problem, idx: seq<nat>, nPo: nat, slots: seq<int>, i: nat, cnt: nat, ct1: nat, ct2: nat, at: map<int, nat>, t: nat)
    requires Placing(p, idx, nPo, slots, i, cnt, ct1, ct2, at) && i < |idx| && t > ct1
    requires t == FrameFor(|Acc(p.sup, idx, i + 1)|, p.nPi)
    ensures t < p.T && Cell(t, nPo) < |slots| && Cell(t, nPo) >= cnt + i
    ensures Placing(p, idx, nPo, slots[Cell(t, nPo) := idx[i]], i + 1, Cell(t, nPo) - i, if 1 == nPo then t + 1 else t,
                    if 1 == nPo then 0 else 1, at[idx[i] := Cell(t, nPo)])
  {
    hide Placed;
    NextFits(p, idx, nPo, slots, i, cnt + i, at);
    CellMonotone(ct1 + 1, t, nPo);
    PlaceAt(p, idx, nPo, slots, i, cnt + i, at, t, 0);
  }

  /** The frame computed for the next output exists and has read enough inputs. */
  lemma NextFits(p: Problem, idx: seq<nat>, nPo: nat, slots: seq<int>, i: nat, pos: nat, at: map<int, nat>)
    requires Placed(p, idx, nPo, slots, i, pos, at) && i < |idx|
    ensures p.nPi > 0 && forall k :: 0 <= k < |idx| ==> idx[k] < |p.sup|
    ensures var t := FrameFor(|Acc(p.sup, idx, i + 1)|, p.nPi); t < p.T && |Acc(p.sup, idx, i + 1)| <= Cell(t + 1, p.nPi)
  {
    AccBound(p.sup, idx, i + 1, p.nCi);
    FrameForFits(|Acc(p.sup, idx, i + 1)|, p.nPi);
  }

  /** The slots wasted by jumping to the start of frame `t`. */
  lemma Wasted(nPo: nat, i: nat, cnt: nat, ct1: nat, ct2: nat, t: nat)
    requires ct2 < nPo && Cell(ct1, nPo) + ct2 == cnt + i && t > ct1
    ensures cnt + nPo * (t - ct1) - ct2 == Cell(t, nPo) - i && Cell(t, nPo) >= cnt + i
  {
    CellGap(ct1, t, nPo);
    CellMonotone(ct1 + 1, t, nPo);
  }

  /** The assertion at the head of the loop: there is a next slot. */
  lemma SlotLeft(p: Problem, idx: seq<nat>, nPo: nat, slots: seq<int>, i: nat, cnt: nat, ct1: nat, ct2: nat, at: map<int, nat>)
    requires Placing(p, idx, nPo, slots, i, cnt, ct1, ct2, at) && i < |idx| && cnt <= |slots| - |idx|
    ensures ct1 < p.T
  {
    if ct1 >= p.T {
      CellMonotone(p.T, ct1, nPo);
    }
  }

  /** With as many pins as outputs no attempt is given up. */
  lemma EnoughPins(p: Problem, idx: seq<nat>, nPo: nat, slots: seq<int>, i: nat, cnt: nat, ct1: nat, ct2: nat, at: map<int, nat>, t: nat)
    requires Placing(p, idx, nPo, slots, i, cnt, ct1, ct2, at) && i < |idx| && t > ct1 && nPo >= |p.sup|
    requires t == FrameFor(|Acc(p.sup, idx, i + 1)|, p.nPi)
    ensures Cell(t, nPo) - i <= |slots| - |idx|
  {
    PlaceLater(p, idx, nPo, slots, i, cnt, ct1, ct2, at, t);
    CellMonotone(t + 1, p.T, nPo);
  }

  /** The first slot from `pos` on in a frame by whose end the inputs of the first i + 1 outputs have been read. */
  ghost function NextSlot(p: Problem, idx: seq<nat>, nPo: nat, i: nat, pos: nat): (s: nat)
    requires GoodProblem(p) && SortedIdx(p.sup, idx) && i < |idx|
    ensures s >= pos
  {
    var start := Cell(FrameFor(|Acc(p.sup, idx, i + 1)|, p.nPi), nPo);
    if start <= pos then pos else start
  }

  /** Placing the outputs from `i` on, each in its first slot, never wastes more slots than there are to spare. */
  ghost predicate Legal(p: Problem, idx: seq<nat>, nPo: nat, i: nat, pos: nat)
    requires GoodProblem(p) && SortedIdx(p.sup, idx)
    decreases |idx| - i
  {
    i >= |idx| ||
    (NextSlot(p, idx, nPo, i, pos) - i <= Cell(p.T, nPo) - |idx| && Legal(p, idx, nPo, i + 1, NextSlot(p, idx, nPo, i, pos) + 1))
  }

  /** Where the output scheduled as number `k` goes: its first slot after those of the outputs before it. */
  ghost function SlotOf(p: Problem, idx: seq<nat>, nPo: nat, k: nat): nat
    requires GoodProblem(p) && SortedIdx(p.sup, idx) && k < |idx|
    decreases k, 1
  {
    NextSlot(p, idx, nPo, k, NextFree(p, idx, nPo, k))
  }

  /** The first slot behind the outputs before number `k`. */
  ghost function NextFree(p: Problem, idx: seq<nat>, nPo: nat, k: nat): nat
    requires GoodProblem(p) && SortedIdx(p.sup, idx) && k <= |idx|
    decreases k, 0
  {
    if k == 0 then 0 else SlotOf(p, idx, nPo, k - 1) + 1
  }

  /** The first `i` outputs stand where they belong. */
  ghost predicate AtSlots(p: Problem, idx: seq<nat>, nPo: nat, i: nat, at: map<int, nat>)
    requires GoodProblem(p) && SortedIdx(p.sup, idx)
  {
    i <= |idx| && forall k: nat :: k < i ==> idx[k] in at && at[idx[k]] == SlotOf(p, idx, nPo, k)
  }

  lemma AtSlotsNext(p: Problem, idx: seq<nat>, nPo: nat, i: nat, at: map<int, nat>, pos: nat)
    requires GoodProblem(p) && SortedIdx(p.sup, idx) && i < |idx| && AtSlots(p, idx, nPo, i, at)
    requires pos == NextSlot(p, idx, nPo, i, NextFree(p, idx, nPo, i))
    ensures AtSlots(p, idx, nPo, i + 1, at[idx[i] := pos]) && pos + 1 == NextFree(p, idx, nPo, i + 1)
  {
    hide NextSlot, GoodProblem;
  }

  lemma NextSlotIs(p: Problem, idx: seq<nat>, nPo: nat, i: nat, cnt: nat, ct1: nat, ct2: nat)
    requires GoodProblem(p) && SortedIdx(p.sup, idx) && i < |idx| && ct2 < nPo && Cell(ct1, nPo) + ct2 == cnt + i
    ensures var t := FrameFor(|Acc(p.sup, idx, i + 1)|, p.nPi);
            NextSlot(p, idx, nPo, i, cnt + i) == if t <= ct1 then cnt + i else Cell(t, nPo)
  {
    var t := FrameFor(|Acc(p.sup, idx, i + 1)|, p.nPi);
    if t <= ct1 {
      CellMonotone(t, ct1, nPo);
    } else {
      CellMonotone(ct1, t, nPo);
    }
  }

  lemma PlacingFacts(p: Problem, idx: seq<nat>, nPo: nat, slots: seq<int>, i: nat, cnt: nat, ct1: nat, ct2: nat, at: map<int, nat>)
    requires Placing(p, idx, nPo, slots, i, cnt, ct1, ct2, at)
    ensures GoodProblem(p) && SortedIdx(p.sup, idx) && ct2 < nPo && Cell(ct1, nPo) + ct2 == cnt + i && |slots| == Cell(p.T, nPo)
  {}

  /** One turn of the loop: the output goes to its next slot, unless too many slots would be wasted. */
  method PlaceOutput(p: Problem, idx: seq<nat>, nPo: nat, slots: array<int>, i: nat, sv: set<nat>, cnt: nat, ct1: nat, ct2: nat, ghost at: map<int, nat>)
      returns (placed: bool, cnt2: nat, ct1b: nat, ct2b: nat, ghost at2: map<int, nat>)
    requires Placing(p, idx, nPo, slots[..], i, cnt, ct1, ct2, at) && i < |idx| && cnt <= slots.Length - |idx|
    requires sv == Acc(p.sup, idx, i + 1)
    modifies slots
    ensures placed ==> Placing(p, idx, nPo, slots[..], i + 1, cnt2, ct1b, ct2b, at2) && cnt2 <= slots.Length - |idx|
    ensures GoodProblem(p) && SortedIdx(p.sup, idx)
    ensures placed <==> NextSlot(p, idx, nPo, i, cnt + i) - i <= slots.Length - |idx|
    ensures placed ==> cnt2 + i == NextSlot(p, idx, nPo, i, cnt + i) && at2 == at[idx[i] := cnt2 + i]
    ensures nPo >= |p.sup| ==> placed
  {
    hide Placed, FrameFor, NextSlot, SortedIdx, GoodProblem, Acc;
    PlacingFacts(p, idx, nPo, slots[..], i, cnt, ct1, ct2, at);
    NextSlotIs(p, idx, nPo, i, cnt, ct1, ct2);
    NextFits(p, idx, nPo, slots[..], i, cnt + i, at);
    SlotLeft(p, idx, nPo, slots[..], i, cnt, ct1, ct2, at);
    var t := FrameFor(|sv|, p.nPi);
    ghost var before := slots[..];
    placed, cnt2, ct1b, ct2b, at2 := true, cnt, ct1, ct2, at;
    if t <= ct1 {
      PlaceNext(p, idx, nPo, slots[..], i, cnt, ct1, ct2, at);
      at2 := at[idx[i] := cnt + i];
      slots[Cell(ct1, nPo) + ct2] := idx[i];
      assert slots[..] == before[cnt + i := idx[i]];
      ct2b := ct2 + 1;
      if ct2b == nPo {
        ct1b, ct2b := ct1 + 1, 0;
      }
    } else {
      Wasted(nPo, i, cnt, ct1, ct2, t);
      cnt2 := cnt + nPo * (t - ct1) - ct2;
      if nPo >= |p.sup| {
        EnoughPins(p, idx, nPo, slots[..], i, cnt, ct1, ct2, at, t);
      }
      if cnt2 > slots.Length - |idx| {
        placed := false;
        return;
      }
      PlaceLater(p, idx, nPo, slots[..], i, cnt, ct1, ct2, at, t);
      at2 := at[idx[i] := Cell(t, nPo)];
      slots[Cell(t, nPo)] := idx[i];
      assert slots[..] == before[Cell(t, nPo) := idx[i]];
      ct1b, ct2b := t, 1;
      if ct2b == nPo {
        ct1b, ct2b := t + 1, 0;
      }
    }
  }

  /** What a legal attempt has produced: every output has one slot, in schedule order, in time. */
  ghost predicate Scheduled(p: Problem, idx: seq<nat>, nPo: nat, slots: seq<int>, at: map<int, nat>) {
    && GoodSlots(p, nPo, slots) && InTime(p, nPo, slots) && Located(slots, at) && SortedIdx(p.sup, idx)
    && (forall o: nat :: o in at <==> o < |p.sup|)
    && (forall k, l :: 0 <= k < l < |idx| ==> at[idx[k]] < at[idx[l]])
  }

  lemma PlacedAll(p: Problem, idx: seq<nat>, nPo: nat, slots: seq<int>, cnt: nat, ct1: nat, ct2: nat, at: map<int, nat>)
    requires Placing(p, idx, nPo, slots, |idx|, cnt, ct1, ct2, at)
    ensures Scheduled(p, idx, nPo, slots, at)
  {
    forall o: nat ensures o in at <==> o < |p.sup| {
      if o < |p.sup| {
        assert o in idx;
        var k :| 0 <= k < |idx| && idx[k] == o;
        assert idx[k] in at;
      }
    }
  }

  /** One attempt with `nPo` pins. Without any output no attempt is ever legal: the flag is set only
      when the last output has been placed. */
  method TryPO(p: Problem, idx: seq<nat>, nPo: nat) returns (legal: bool, slots: array<int>, ghost at: map<int, nat>)
    requires GoodProblem(p) && SortedIdx(p.sup, idx) && nPo > 0 && |p.sup| <= Cell(p.T, nPo)
    ensures fresh(slots) && (legal ==> Scheduled(p, idx, nPo, slots[..], at))
    ensures legal <==> p.sup != [] && Legal(p, idx, nPo, 0, 0)
    ensures legal ==> AtSlots(p, idx, nPo, |idx|, at)
    ensures nPo >= |p.sup| > 0 ==> legal
  {
    hide NextSlot, Placed, FrameFor, GoodProblem, Scheduled;
    slots := new int[Cell(p.T, nPo)](_ => -1);
    var sv: set<nat> := {};
    var cnt: nat, ct1: nat, ct2: nat := 0, 0, 0;
    at := map[];
    assert AtSlots(p, idx, nPo, 0, at);
    hide AtSlots;
    PlacingBegins(p, idx, nPo, slots[..]);
    legal := false;
    for i := 0 to |idx|
      invariant Placing(p, idx, nPo, slots[..], i, cnt, ct1, ct2, at) && cnt <= slots.Length - |idx|
      invariant sv == Acc(p.sup, idx, i) && fresh(slots) && slots.Length == Cell(p.T, nPo)
      invariant legal <==> i == |idx| > 0
      invariant Legal(p, idx, nPo, 0, 0) <==> Legal(p, idx, nPo, i, cnt + i)
      invariant cnt + i == NextFree(p, idx, nPo, i) && AtSlots(p, idx, nPo, i, at)
    {
      sv := sv + p.sup[idx[i]];
      var placed;
      ghost var at0 := at;
      placed, cnt, ct1, ct2, at := PlaceOutput(p, idx, nPo, slots, i, sv, cnt, ct1, ct2, at);
      if !placed {
        return;
      }
      AtSlotsNext(p, idx, nPo, i, at0, cnt + i);
      if i == |idx| - 1 {
        legal := true;
      }
    }
    PlacedAll(p, idx, nPo, slots[..], cnt, ct1, ct2, at);
  }

  /** The loop over growing numbers of pins: it stops with at most as many pins as outputs. */
  method SchedulePO(p: Problem, nPo0: nat, oPerm: array<int>) returns (slots: array<int>, nPo: nat, ghost idx: seq<nat>, ghost at: map<int, nat>)
    requires GoodProblem(p) && |p.sup| > 0 && oPerm.Length == |p.sup|
    requires nPo0 == (|p.sup| + p.T - 1) / p.T
    modifies oPerm
    ensures fresh(slots) && Scheduled(p, idx, nPo, slots[..], at)
    ensures AtSlots(p, idx, nPo, |idx|, at)
    ensures nPo0 <= nPo <= |p.sup| && Legal(p, idx, nPo, 0, 0) && forall q: nat :: nPo0 <= q < nPo ==> !Legal(p, idx, q, 0, 0)
    ensures forall o :: 0 <= o < |p.sup| ==> oPerm[o] == at[o]
  {
    CeilBounds(|p.sup|, p.T, nPo0);
    CellIsProduct(p.T, nPo0);
    InitialPins(|p.sup|, p.T, nPo0);
    var sIdx := SortIdx(p.sup);
    idx := sIdx;
    nPo := nPo0;
    var legal;
    legal, slots, at := TryPO(p, sIdx, nPo);
    while !legal
      invariant nPo0 <= nPo <= |p.sup| && fresh(slots) && |p.sup| <= Cell(p.T, nPo)
      invariant legal ==> Scheduled(p, idx, nPo, slots[..], at) && AtSlots(p, idx, nPo, |idx|, at)
      invariant nPo >= |p.sup| ==> legal
      invariant (legal <==> Legal(p, idx, nPo, 0, 0)) && forall q: nat :: nPo0 <= q < nPo ==> !Legal(p, idx, q, 0, 0)
      decreases |p.sup| - nPo, !legal
    {
      nPo := nPo + 1;
      CellWider(p.T, nPo - 1, nPo);
      legal, slots, at := TryPO(p, sIdx, nPo);
    }
    UpdateOPerm(p, slots, oPerm, at);
  }

  lemma InitialPins(n: nat, T: nat, q: nat)
    requires n > 0 && T > 0 && q == (n + T - 1) / T
    ensures 0 < q <= n
  {
    CeilBounds(n, T, q);
    MulAtLeast(q - 1, T);
  }

  lemma MulAtLeast(a: int, T: nat)
    requires T > 0
    ensures a >= 0 ==> a * T >= a
  {
    if a >= 0 {
      assert a * (T - 1) >= 0;
    }
  }

  lemma {:induction false} CellWider(t: nat, n: nat, n2: nat)
    requires n <= n2
    ensures Cell(t, n) <= Cell(t, n2)
  {
    if t > 0 {
      CellWider(t - 1, n, n2);
    }
  }

  method UpdateOPerm(p: Problem, slots: array<int>, oPerm: array<int>, ghost at: map<int, nat>)
    requires Located(slots[..], at) && (forall o: nat :: o in at <==> o < |p.sup|) && oPerm.Length == |p.sup| && slots != oPerm
    requires forall s :: 0 <= s < slots.Length ==> -1 <= slots[s] < |p.sup|
    modifies oPerm
    ensures forall o :: 0 <= o < |p.sup| ==> oPerm[o] == at[o]
  {
    for i := 0 to slots.Length
      invariant forall o: nat :: o < |p.sup| && at[o] < i ==> oPerm[o] == at[o]
      invariant slots[..] == old(slots[..])
    {
      if slots[i] != -1 {
        assert slots[..][i] in at;
        oPerm[slots[i]] := i;
      }
    }
  }
}
