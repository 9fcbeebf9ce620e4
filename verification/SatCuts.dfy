/** What the first unique implication point is: the literals found from a conflict by replacing
    those high on the trail by their reasons (memin/minisat/core/Solver.cpp). */
module SatCuts {
  import opened SatState
  import opened SatTrail
  import opened SatWatch
  import opened SatDb
  import opened SatSteps
  import opened SatAnalyze
  import opened SatWhole
  import opened SatLearn
  import OrderHeap

  // ----- the literals found -----

  /** `t` and after it the literals lits[from..to] above level 0 whose variables are new. */
  ghost function Fresh(a: Asg, t: seq<Lit>, lits: seq<Lit>, from: nat, to: nat): seq<Lit>
    requires |a.level| == |a.assigns| && to <= |lits|
  {
    if to <= from then t
    else
      var t1 := Fresh(a, t, lits, from, to - 1);
      if IsHigh(a, lits[to - 1].v) && !InClause(t1, lits[to - 1].v) then t1 + [lits[to - 1]] else t1
  }

  /** The literals found from a conflict clause when all those found above position `i` of the trail
      have been followed to the literals of their reasons. */
  ghost function Found(x: Snapshot, confl: nat, i: int): seq<Lit>
    requires TrailOk(x.s.a) && confl < |x.s.ca| && -1 <= i
    decreases |x.s.a.trail| - i
  {
    if i >= |x.s.a.trail| - 1 then Fresh(x.s.a, [], x.s.ca[confl].lits, 0, |x.s.ca[confl].lits|)
    else
      var t, v := Found(x, confl, i + 1), x.s.a.trail[i + 1].v;
      if InClause(t, v) && HasLiveReason(x, v)
      then Fresh(x.s.a, t, x.s.ca[x.s.a.reason[v].cr].lits, 1, |x.s.ca[x.s.a.reason[v].cr].lits|)
      else t
  }

  /** Of what is found down to position `i` only the literal there is left of the current level. */
  ghost predicate IsUip(x: Snapshot, confl: nat, i: nat)
    requires TrailOk(x.s.a) && confl < |x.s.ca|
  {
    && i < |x.s.a.trail| && InClause(Found(x, confl, i), x.s.a.trail[i].v) && AtCurrentLevel(x.s.a, x.s.a.trail[i])
    && forall q :: q in Found(x, confl, i) && AtCurrentLevel(x.s.a, q) && x.s.a.pos[q.v] <= i ==> q.v == x.s.a.trail[i].v
  }

  ghost predicate NoUipAbove(x: Snapshot, confl: nat, i: int)
    requires TrailOk(x.s.a) && confl < |x.s.ca|
  {
    forall j: nat :: i < j ==> !IsUip(x, confl, j)
  }

  /** The literals of lower levels. */
  ghost function Lower(a: Asg, t: seq<Lit>): seq<Lit>
    requires |a.level| == |a.assigns|
  {
    if t == [] then []
    else
      var q := t[|t| - 1];
      Lower(a, t[..|t| - 1]) + if VarOk(a, q) && a.level[q.v] < |a.lim| then [q] else []
  }

  lemma LowerSnoc(a: Asg, t: seq<Lit>, q: Lit)
    requires |a.level| == |a.assigns|
    ensures Lower(a, t + [q]) == Lower(a, t) + if VarOk(a, q) && a.level[q.v] < |a.lim| then [q] else []
  {
    assert (t + [q])[..|t|] == t;
  }

  lemma {:induction false} LowerMember(a: Asg, t: seq<Lit>)
    requires |a.level| == |a.assigns|
    ensures forall q :: q in Lower(a, t) <==> q in t && VarOk(a, q) && a.level[q.v] < |a.lim|
  {
    if t != [] {
      LowerMember(a, t[..|t| - 1]);
      assert t == t[..|t| - 1] + [t[|t| - 1]];
    }
  }

  /** What is found stands in the conflict clause or in the reason of something found above `i`, and everything
      of these above level 0 is found. */
  lemma {:induction false} FoundMember(x: Snapshot, confl: nat, i: int, v: nat)
    requires TrailOk(x.s.a) && confl < |x.s.ca| && -1 <= i
    ensures InClause(Found(x, confl, i), v) <==>
            IsHigh(x.s.a, v) && (InClause(x.s.ca[confl].lits, v) || exists j: nat :: i < j && FoundThrough(x, confl, j, v))
    decreases |x.s.a.trail| - i
  {
    if i >= |x.s.a.trail| - 1 {
      FreshMember(x.s.a, [], x.s.ca[confl].lits, 0, |x.s.ca[confl].lits|, v);
    } else {
      var j := i + 1;
      FoundMember(x, confl, j, v);
      FoundStep(x, confl, i, v);
      assert FoundThrough(x, confl, j, v) ==> exists j: nat :: i < j && FoundThrough(x, confl, j, v);
    }
  }

  /** The literal at position `j` is found, and `v` stands in its reason behind the first literal. */
  ghost predicate FoundThrough(x: Snapshot, confl: nat, j: nat, v: nat)
    requires TrailOk(x.s.a) && confl < |x.s.ca|
  {
    && j < |x.s.a.trail| && InClause(Found(x, confl, j), x.s.a.trail[j].v) && HasLiveReason(x, x.s.a.trail[j].v)
    && v in High(x.s.a, x.s.ca[x.s.a.reason[x.s.a.trail[j].v].cr].lits, 1, |x.s.ca[x.s.a.reason[x.s.a.trail[j].v].cr].lits|)
  }

  lemma FoundStep(x: Snapshot, confl: nat, i: int, v: nat)
    requires TrailOk(x.s.a) && confl < |x.s.ca| && -1 <= i < |x.s.a.trail| - 1
    ensures InClause(Found(x, confl, i), v) <==> InClause(Found(x, confl, i + 1), v) || FoundThrough(x, confl, i + 1, v)
  {
    var t, u := Found(x, confl, i + 1), x.s.a.trail[i + 1].v;
    if InClause(t, u) && HasLiveReason(x, u) {
      var lits := x.s.ca[x.s.a.reason[u].cr].lits;
      FreshMember(x.s.a, t, lits, 1, |lits|, v);
    }
  }

  lemma {:induction false} FreshMember(a: Asg, t: seq<Lit>, lits: seq<Lit>, from: nat, to: nat, v: nat)
    requires |a.level| == |a.assigns| && to <= |lits|
    ensures InClause(Fresh(a, t, lits, from, to), v) <==> InClause(t, v) || v in High(a, lits, from, to)
  {
    if from < to {
      FreshMember(a, t, lits, from, to - 1, v);
      HighNext(a, lits, from, to - 1);
      InClauseSnoc(Fresh(a, t, lits, from, to - 1), lits[to - 1], v);
      FreshMember(a, t, lits, from, to - 1, lits[to - 1].v);
    }
  }

  /** The marks and the clause so far hold what has been found, but for the literals above `index`. */
  ghost predicate Gathered(a: Asg, t: seq<Lit>, seen: seq<bool>, out: seq<Lit>, index: int)
    requires |a.level| == |a.pos| == |a.assigns|
  {
    && |seen| == |a.assigns| && out == Lower(a, t)
    && (forall q :: q in t ==> VarOk(a, q) && Value(a.assigns, q) == LFalse)
    && (forall v: nat :: v < |seen| ==> (seen[v] <==> InClause(t, v) && (a.level[v] < |a.lim| || a.pos[v] <= index)))
  }

  lemma GatheredBegins(a: Asg, seen: seq<bool>, index: int)
    requires |a.level| == |a.pos| == |a.assigns| && |seen| == |a.assigns| && forall v :: 0 <= v < |seen| ==> !seen[v]
    ensures Gathered(a, [], seen, [], index)
  {}

  lemma InClauseSnoc(t: seq<Lit>, q: Lit, v: nat)
    ensures InClause(t + [q], v) <==> InClause(t, v) || v == q.v
  {
    var t2 := t + [q];
    assert t2[|t|] == q;
    if InClause(t, v) {
      var k :| 0 <= k < |t| && t[k].v == v;
      assert t2[k].v == v;
    }
  }

  /** What the test on the mark and the level decides. */
  lemma GatherTest(a: Asg, t: seq<Lit>, seen: seq<bool>, out: seq<Lit>, index: int, q: Lit)
    requires |a.level| == |a.pos| == |a.assigns| && Gathered(a, t, seen, out, index)
    requires VarOk(a, q) && a.level[q.v] > 0 ==> a.pos[q.v] <= index
    ensures VarOk(a, q) ==> |seen| == |a.assigns| && (!seen[q.v] && a.level[q.v] > 0 <==> IsHigh(a, q.v) && !InClause(t, q.v))
  {}

  lemma GatherStep(a: Asg, t: seq<Lit>, seen: seq<bool>, out: seq<Lit>, index: int, q: Lit)
    requires |a.level| == |a.pos| == |a.assigns| && Gathered(a, t, seen, out, index)
    requires VarOk(a, q) && Value(a.assigns, q) == LFalse && a.level[q.v] > 0 && a.pos[q.v] <= index
    ensures |seen| == |a.assigns|
    ensures Gathered(a, t + [q], seen[q.v := true], if a.level[q.v] < |a.lim| then out + [q] else out, index)
  {
    LowerSnoc(a, t, q);
    forall v: nat ensures InClause(t + [q], v) <==> InClause(t, v) || v == q.v {
      InClauseSnoc(t, q, v);
    }
  }

  /** A newly found literal is marked, and goes into the clause if it is of a lower level. */
  lemma CollectFound(a: Asg, t: seq<Lit>, seen: seq<bool>, out: seq<Lit>, cur: set<nat>, index: int, q: Lit)
    requires TrailOk(a) && Gathered(a, t, seen, out, index) && Collecting(a, seen, out, cur, index)
    requires VarOk(a, q) && Value(a.assigns, q) == LFalse && a.level[q.v] > 0 && a.pos[q.v] <= index && !seen[q.v]
    ensures var out2, cur2 := if a.level[q.v] < |a.lim| then out + [q] else out, if a.level[q.v] < |a.lim| then cur else cur + {q.v};
            Gathered(a, t + [q], seen[q.v := true], out2, index) && Collecting(a, seen[q.v := true], out2, cur2, index)
    ensures a.level[q.v] >= |a.lim| ==> q.v !in cur
    ensures SeenSet(seen[q.v := true]) == SeenSet(seen) + {q.v}
  {
    hide Collecting, Gathered;
    RootTables(a);
    CollectStep(a, seen, out, cur, index, q);
    GatherStep(a, t, seen, out, index, q);
  }

  /** `t` extends `t0` by what is new in lits[from..to]. */
  ghost predicate Extends(a: Asg, t0: seq<Lit>, t: seq<Lit>, lits: seq<Lit>, from: nat, to: nat)
    requires |a.level| == |a.assigns| && to <= |lits|
  {
    t == Fresh(a, t0, lits, from, to)
  }

  lemma ExtendsSelf(a: Asg, t: seq<Lit>, lits: seq<Lit>, from: nat)
    requires |a.level| == |a.assigns| && from <= |lits|
    ensures Extends(a, t, t, lits, from, from)
  {}

  lemma ExtendsNext(a: Asg, t0: seq<Lit>, t: seq<Lit>, lits: seq<Lit>, from: nat, to: nat, t2: seq<Lit>)
    requires |a.level| == |a.assigns| && from <= to < |lits| && Extends(a, t0, t, lits, from, to)
    requires t2 == if IsHigh(a, lits[to].v) && !InClause(t, lits[to].v) then t + [lits[to]] else t
    ensures Extends(a, t0, t2, lits, from, to + 1)
  {}

  /** Position `i` has not been found: nothing is replaced, and it is no implication point. */
  lemma SkipPosition(x: Snapshot, confl: nat, t: seq<Lit>, seen: seq<bool>, out: seq<Lit>, i: nat)
    requires TrailOk(x.s.a) && confl < |x.s.ca| && t == Found(x, confl, i) && Gathered(x.s.a, t, seen, out, i)
    requires i < |x.s.a.trail| && x.s.a.trail[i].v < |seen| && !seen[x.s.a.trail[i].v] && NoUipAbove(x, confl, i)
    ensures t == Found(x, confl, i - 1) && Gathered(x.s.a, t, seen, out, i - 1) && NoUipAbove(x, confl, i - 1)
  {
    var a := x.s.a;
    assert OnTrail(a, i) && a.pos[a.trail[i].v] == i;
    assert !InClause(t, a.trail[i].v);
    forall v: nat | v < |seen| && InClause(t, v) ensures a.pos[v] != i {
      var k :| 0 <= k < |t| && t[k].v == v;
      assert t[k] in t;
      assert a.trail[a.pos[v]].v == v;
    }
    hide Found;
    forall j: nat | i - 1 < j ensures !IsUip(x, confl, j) {
      if j == i {
        assert !InClause(Found(x, confl, i), a.trail[i].v);
      }
    }
  }

  /** Taking the literal at position `i`: its mark goes. */
  lemma TakePosition(x: Snapshot, t: seq<Lit>, seen: seq<bool>, out: seq<Lit>, i: nat)
    requires TrailOk(x.s.a) && Gathered(x.s.a, t, seen, out, i)
    requires i < |x.s.a.trail| && x.s.a.trail[i].v < |seen| && seen[x.s.a.trail[i].v] && x.s.a.level[x.s.a.trail[i].v] >= |x.s.a.lim|
    ensures Gathered(x.s.a, t, seen[x.s.a.trail[i].v := false], out, i - 1) && InClause(t, x.s.a.trail[i].v)
  {
    var a := x.s.a;
    assert OnTrail(a, i) && a.pos[a.trail[i].v] == i;
    forall v: nat | v < |seen| && a.pos[v] == i && InClause(t, v) ensures v == a.trail[i].v {
      var k :| 0 <= k < |t| && t[k].v == v;
      assert t[k] in t;
      assert a.trail[a.pos[v]].v == v;
    }
  }

  /** Another literal of the current level is left: no implication point yet. */
  lemma NotUip(x: Snapshot, confl: nat, t: seq<Lit>, seen: seq<bool>, out: seq<Lit>, cur: set<nat>, i: nat)
    requires TrailOk(x.s.a) && confl < |x.s.ca| && t == Found(x, confl, i) && Gathered(x.s.a, t, seen, out, i - 1)
    requires Collecting(x.s.a, seen, out, cur, i - 1) && cur != {} && NoUipAbove(x, confl, i)
    ensures NoUipAbove(x, confl, i - 1)
  {
    var a := x.s.a;
    var u :| u in cur;
    assert SeenOk(a, out, cur, i - 1, u);
    assert InClause(t, u);
    var k :| 0 <= k < |t| && t[k].v == u;
    assert t[k] in t && AtCurrentLevel(a, t[k]) && a.pos[t[k].v] < i;
    hide Found;
    forall j: nat | i - 1 < j ensures !IsUip(x, confl, j) {
      if j == i && i < |a.trail| {
        assert OnTrail(a, i) && a.pos[a.trail[i].v] == i;
      }
    }
  }

  lemma NoneLeft(a: Asg, seen: seq<bool>, out: seq<Lit>, index: int)
    requires |a.level| == |a.pos| == |a.assigns| && Collecting(a, seen, out, {}, index)
    ensures |seen| == |a.assigns| && forall v: nat :: v < |seen| && seen[v] ==> a.level[v] != |a.lim|
  {}

  /** None is left: this is the first one. */
  lemma UipReached(x: Snapshot, confl: nat, t: seq<Lit>, seen: seq<bool>, out: seq<Lit>, i: nat)
    requires TrailOk(x.s.a) && confl < |x.s.ca| && t == Found(x, confl, i) && Gathered(x.s.a, t, seen, out, i - 1)
    requires Collecting(x.s.a, seen, out, {}, i - 1) && i < |x.s.a.trail| && InClause(t, x.s.a.trail[i].v)
    requires VarOk(x.s.a, x.s.a.trail[i]) && x.s.a.level[x.s.a.trail[i].v] == |x.s.a.lim|
    ensures IsUip(x, confl, i)
  {
    var a := x.s.a;
    NoneLeft(a, seen, out, i - 1);
    hide Found, Collecting;
    forall q | q in t && AtCurrentLevel(a, q) ensures a.pos[q.v] >= i && a.trail[a.pos[q.v]].v == q.v {
      var k :| 0 <= k < |t| && t[k] == q;
      assert InClause(t, q.v);
      assert !seen[q.v];
    }
  }

  /** Everything above position `i` has been followed; `t` is what is found, `seen` and `out` say so. */
  ghost predicate FoundDown(x: Snapshot, confl: nat, t: seq<Lit>, seen: seq<bool>, out: seq<Lit>, i: int)
    requires TrailOk(x.s.a) && confl < |x.s.ca|
  {
    -1 <= i && t == Found(x, confl, i) && Gathered(x.s.a, t, seen, out, i) && NoUipAbove(x, confl, i)
  }

  /** The literal at position index + 1 has been taken, but not followed. */
  ghost predicate FoundTo(x: Snapshot, confl: nat, t: seq<Lit>, seen: seq<bool>, out: seq<Lit>, index: int)
    requires TrailOk(x.s.a) && confl < |x.s.ca|
  {
    && -1 <= index < |x.s.a.trail| - 1 && t == Found(x, confl, index + 1) && Gathered(x.s.a, t, seen, out, index)
    && InClause(t, x.s.a.trail[index + 1].v) && NoUipAbove(x, confl, index + 1)
  }

  /** The first unique implication point, counted from the conflict. */
  ghost predicate FirstUipAt(x: Snapshot, confl: nat, i: nat)
    requires TrailOk(x.s.a) && confl < |x.s.ca|
  {
    IsUip(x, confl, i) && NoUipAbove(x, confl, i)
  }

  lemma FoundFirst(x: Snapshot, confl: nat, t: seq<Lit>, seen: seq<bool>, out: seq<Lit>)
    requires TrailOk(x.s.a) && confl < |x.s.ca| && t == Fresh(x.s.a, [], x.s.ca[confl].lits, 0, |x.s.ca[confl].lits|)
    requires Gathered(x.s.a, t, seen, out, |x.s.a.trail| - 1)
    ensures FoundDown(x, confl, t, seen, out, |x.s.a.trail| - 1)
  {}

  lemma FoundSkip(x: Snapshot, confl: nat, t: seq<Lit>, seen: seq<bool>, out: seq<Lit>, i: nat)
    requires TrailOk(x.s.a) && confl < |x.s.ca| && FoundDown(x, confl, t, seen, out, i)
    requires i < |x.s.a.trail| && x.s.a.trail[i].v < |seen| && !seen[x.s.a.trail[i].v]
    ensures FoundDown(x, confl, t, seen, out, i - 1)
  {
    SkipPosition(x, confl, t, seen, out, i);
  }

  lemma FoundTake(x: Snapshot, confl: nat, t: seq<Lit>, seen: seq<bool>, out: seq<Lit>, cur: set<nat>, i: nat)
    requires TrailOk(x.s.a) && confl < |x.s.ca| && FoundDown(x, confl, t, seen, out, i) && Collecting(x.s.a, seen, out, cur, i)
    requires i < |x.s.a.trail| && x.s.a.trail[i].v in cur
    ensures x.s.a.trail[i].v < |seen| && FoundTo(x, confl, t, seen[x.s.a.trail[i].v := false], out, i - 1)
  {
    hide Found, NoUipAbove;
    TakePosition(x, t, seen, out, i);
  }

  /** More of the current level is left: the literal taken is followed to its reason. */
  lemma FoundReason(x: Snapshot, bound: nat, confl: nat, t: seq<Lit>, seen: seq<bool>, out: seq<Lit>, cur: set<nat>, index: int, p: Lit)
    requires Whole(x, bound) && confl < |x.s.ca| && AtUip(x.s.a, x.formula, seen, out, cur, index, p) && cur != {}
    requires FoundTo(x, confl, t, seen, out, index)
    ensures Gathered(x.s.a, t, seen, out, index) && HasLiveReason(x, p.v) && NoUipAbove(x, confl, index)
    ensures InClause(t, p.v) && x.s.a.trail[index + 1] == p && t == Found(x, confl, index + 1)
  {
    hide Whole, Found, Gathered;
    NotUip(x, confl, t, seen, out, cur, index + 1);
    NextReason(x, bound, seen, out, cur, index, p);
    UipFacts(x.s.a, x.formula, seen, out, cur, index, p);
    LiveReason(x, bound, p.v);
  }

  lemma FoundFollowed(x: Snapshot, confl: nat, t: seq<Lit>, index: int, t2: seq<Lit>, seen: seq<bool>, out: seq<Lit>)
    requires TrailOk(x.s.a) && confl < |x.s.ca| && -1 <= index < |x.s.a.trail| - 1 && t == Found(x, confl, index + 1)
    requires var v := x.s.a.trail[index + 1].v;
             InClause(t, v) && HasLiveReason(x, v) && t2 == Fresh(x.s.a, t, x.s.ca[x.s.a.reason[v].cr].lits, 1, |x.s.ca[x.s.a.reason[v].cr].lits|)
    requires Gathered(x.s.a, t2, seen, out, index) && NoUipAbove(x, confl, index)
    ensures FoundDown(x, confl, t2, seen, out, index)
  {}

  lemma FoundUip(x: Snapshot, confl: nat, t: seq<Lit>, seen: seq<bool>, out: seq<Lit>, index: int, p: Lit)
    requires TrailOk(x.s.a) && confl < |x.s.ca| && FoundTo(x, confl, t, seen, out, index) && AtUip(x.s.a, x.formula, seen, out, {}, index, p)
    ensures -1 <= index < |x.s.a.trail| - 1 && x.s.a.trail[index + 1] == p && FirstUipAt(x, confl, index + 1)
    ensures t == Found(x, confl, index + 1) && out == Lower(x.s.a, t)
  {
    hide Found;
    UipReached(x, confl, t, seen, out, index + 1);
  }

  // ----- activities -----

  /** The variables of `t` have been raised by the increment once each, up to a common factor. */
  ghost predicate Bumped(act0: seq<real>, inc0: real, act: seq<real>, inc: real, t: seq<Lit>) {
    exists f: real :: f > 0.0 && Scaled(act0, inc0, act, inc, t, f)
  }

  ghost predicate Scaled(act0: seq<real>, inc0: real, act: seq<real>, inc: real, t: seq<Lit>, f: real) {
    && |act| == |act0| && inc == inc0 * f
    && forall v: nat :: v < |act| ==> act[v] == (act0[v] + if InClause(t, v) then inc0 else 0.0) * f
  }

  lemma BumpedBegins(act: seq<real>, inc: real)
    ensures Bumped(act, inc, act, inc, [])
  {
    assert Scaled(act, inc, act, inc, [], 1.0);
  }

  lemma BumpedNext(act0: seq<real>, inc0: real, act: seq<real>, inc: real, t: seq<Lit>, q: Lit, act2: seq<real>, inc2: real)
    requires Bumped(act0, inc0, act, inc, t) && !InClause(t, q.v) && q.v < |act|
    requires var raised := act[q.v := act[q.v] + inc];
             if raised[q.v] > OrderHeap.RESCALE_LIMIT
             then act2 == OrderHeap.Rescaled(raised) && inc2 == inc * OrderHeap.RESCALE_FACTOR
             else act2 == raised && inc2 == inc
    ensures Bumped(act0, inc0, act2, inc2, t + [q])
  {
    var f: real :| f > 0.0 && Scaled(act0, inc0, act, inc, t, f);
    var raised := act[q.v := act[q.v] + inc];
    forall v: nat ensures InClause(t + [q], v) <==> InClause(t, v) || v == q.v {
      InClauseSnoc(t, q, v);
    }
    assert raised[q.v] == (act0[q.v] + inc0) * f;
    assert Scaled(act0, inc0, raised, inc, t + [q], f);
    if raised[q.v] > OrderHeap.RESCALE_LIMIT {
      ScaledMore(act0, inc0, raised, inc, t + [q], f);
    }
  }

  lemma ScaledMore(act0: seq<real>, inc0: real, act: seq<real>, inc: real, t: seq<Lit>, f: real)
    requires Scaled(act0, inc0, act, inc, t, f) && f > 0.0
    ensures Bumped(act0, inc0, OrderHeap.Rescaled(act), inc * OrderHeap.RESCALE_FACTOR, t)
  {
    var f2 := f * OrderHeap.RESCALE_FACTOR;
    forall v: nat | v < |act| ensures OrderHeap.Rescaled(act)[v] == (act0[v] + if InClause(t, v) then inc0 else 0.0) * f2 {}
    assert Scaled(act0, inc0, OrderHeap.Rescaled(act), inc * OrderHeap.RESCALE_FACTOR, t, f2);
  }
}
