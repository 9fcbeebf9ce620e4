/** The steps of conflict analysis and clause minimisation (memin/minisat/core/Solver.cpp). */
module SatLearn {
  import opened FiniteSets
  import opened SatState
  import opened SatTrail
  import opened SatWatch
  import opened SatDb
  import opened SatSteps
  import opened SatAnalyze
  import opened SatWhole
  import OrderHeap

  // ----- resolving back to the first unique implication point -----

  /** The literals of a clause from position `from` on are false, the high ones up to `index` on the trail. */
  ghost predicate ClauseBelow(a: Asg, lits: seq<Lit>, from: nat, index: int)
    requires |a.level| == |a.pos| == |a.assigns|
  {
    forall k :: from <= k < |lits| ==>
      VarOk(a, lits[k]) && Value(a.assigns, lits[k]) == LFalse && (a.level[lits[k].v] > 0 ==> a.pos[lits[k].v] <= index)
  }

  /** After resolving on everything above: `p` stands at index + 1, `out` and `cur` hold the rest. */
  ghost predicate AtUip(a: Asg, f: seq<seq<Lit>>, seen: seq<bool>, out: seq<Lit>, cur: set<nat>, index: int, p: Lit) {
    && TrailOk(a) && -1 <= index < |a.trail| - 1 && a.trail[index + 1] == p && VarOk(a, p) && a.level[p.v] == |a.lim| > 0
    && Collecting(a, seen, out, cur, index) && p.v !in SeenSet(seen)
    && NoGood(a, f, SeenSet(seen) + {p.v})
  }

  lemma StartCollecting(a: Asg, seen: seq<bool>)
    requires TrailOk(a) && |seen| == |a.assigns| && forall v :: 0 <= v < |seen| ==> !seen[v]
    ensures Collecting(a, seen, [], {}, |a.trail| - 1) && SeenSet(seen) == {}
  {}

  lemma WholeTrail(x: Snapshot, bound: nat)
    requires Whole(x, bound)
    ensures TrailOk(x.s.a) && |x.s.a.reason| == |x.s.a.level| == |x.s.a.pos| == NumVars(x)
  {}

  lemma UipIndex(a: Asg, f: seq<seq<Lit>>, seen: seq<bool>, out: seq<Lit>, cur: set<nat>, index: int, p: Lit)
    requires AtUip(a, f, seen, out, cur, index, p)
    ensures -1 <= index && |seen| == |a.assigns|
  {}

  lemma BelowLit(a: Asg, seen: seq<bool>, out: seq<Lit>, cur: set<nat>, lits: seq<Lit>, from: nat, j: nat, index: int)
    requires |a.level| == |a.pos| == |a.assigns| && Collecting(a, seen, out, cur, index)
    requires ClauseBelow(a, lits, from, index) && from <= j < |lits|
    ensures lits[j].v < |a.assigns| == |seen| && Value(a.assigns, lits[j]) == LFalse
    ensures a.level[lits[j].v] > 0 ==> a.pos[lits[j].v] <= index
  {}

  lemma ConflictClause(x: Snapshot, bound: nat, cr: nat)
    requires Whole(x, bound) && |x.s.a.level| == NumVars(x) && IsConflict(x.s.a, x.s.ca, cr)
    ensures |x.s.a.pos| == NumVars(x) && cr < |x.s.ca| && ClauseBelow(x.s.a, x.s.ca[cr].lits, 0, |x.s.a.trail| - 1)
    ensures NoGood(x.s.a, x.formula, High(x.s.a, x.s.ca[cr].lits, 0, |x.s.ca[cr].lits|))
    ensures |x.s.a.lim| > 0 ==> exists v :: v in High(x.s.a, x.s.ca[cr].lits, 0, |x.s.ca[cr].lits|) && x.s.a.level[v] == |x.s.a.lim|
  {
    ConflictNoGood(x.s, x.formula, bound, cr);
    var a, lits := x.s.a, x.s.ca[cr].lits;
    var k :| 0 <= k < |lits| && AtCurrentLevel(a, lits[k]);
    if |a.lim| > 0 {
      assert IsHigh(a, lits[k].v);
      assert lits[k].v in High(a, lits, 0, |lits|);
    }
  }

  /** Something at the current level has been collected. */
  lemma CurrentCollected(a: Asg, seen: seq<bool>, out: seq<Lit>, cur: set<nat>, index: int)
    requires |a.level| == |a.pos| == |a.assigns| && Collecting(a, seen, out, cur, index)
    requires exists v :: v in SeenSet(seen) && v < |a.level| && a.level[v] == |a.lim|
    ensures cur != {}
  {
    var v :| v in SeenSet(seen) && v < |a.level| && a.level[v] == |a.lim|;
    assert SeenOk(a, out, cur, index, v);
  }

  lemma LowerIndex(a: Asg, seen: seq<bool>, out: seq<Lit>, cur: set<nat>, i: nat)
    requires TrailOk(a) && Collecting(a, seen, out, cur, i) && i < |a.trail| && VarOk(a, a.trail[i]) && !seen[a.trail[i].v]
    ensures Collecting(a, seen, out, cur, i - 1)
  {
    forall v: nat | v < |seen| && seen[v] ensures SeenOk(a, out, cur, i - 1, v) {
      assert SeenOk(a, out, cur, i, v);
      assert a.trail[a.pos[v]].v == v;
    }
  }

  /** Looking for the last seen literal ends above the bottom, at the current level. */
  lemma SearchEnds(a: Asg, seen: seq<bool>, out: seq<Lit>, cur: set<nat>, i: int)
    requires TrailOk(a) && Collecting(a, seen, out, cur, i) && cur != {} && i < |a.trail| && |a.lim| > 0
    ensures 0 <= i && VarOk(a, a.trail[i]) && |seen| == |a.assigns|
    ensures seen[a.trail[i].v] ==> a.trail[i].v in cur
  {
    var u :| u in cur;
    assert SeenOk(a, out, cur, i, u);
    assert OnTrail(a, a.pos[u]) && LevelOk(a, a.pos[u]) && OnTrail(a, i) && LevelOk(a, i);
    var d := |a.lim| - 1;
    assert a.level[u] <= d <==> a.pos[u] < a.lim[d];
    assert a.level[a.trail[i].v] <= d <==> i < a.lim[d];
    if seen[a.trail[i].v] {
      assert SeenOk(a, out, cur, i, a.trail[i].v);
    }
  }

  /** `p` is the literal just taken from the trail. */
  lemma TakenAt(a: Asg, f: seq<seq<Lit>>, seen: seq<bool>, out: seq<Lit>, cur: set<nat>, i: nat)
    requires TrailOk(a) && Collecting(a, seen, out, cur, i) && i < |a.trail| && |a.lim| > 0
    requires VarOk(a, a.trail[i]) && a.trail[i].v in cur && NoGood(a, f, SeenSet(seen))
    ensures |seen| == |a.assigns|
    ensures AtUip(a, f, seen[a.trail[i].v := false], out, cur - {a.trail[i].v}, i - 1, a.trail[i])
  {
    var p := a.trail[i];
    TakeLast(a, seen, out, cur, i);
    assert SeenSet(seen[p.v := false]) + {p.v} == SeenSet(seen);
  }

  /** If more of the current level is left, `p` has a reason to resolve with. */
  lemma NextReason(x: Snapshot, bound: nat, seen: seq<bool>, out: seq<Lit>, cur: set<nat>, index: int, p: Lit)
    requires Whole(x, bound) && AtUip(x.s.a, x.formula, seen, out, cur, index, p) && cur != {}
    ensures |x.s.a.reason| == |x.s.a.pos| == NumVars(x) && x.s.a.reason[p.v].Ref? && x.s.a.reason[p.v].cr < |x.s.ca|
    ensures var lits := x.s.ca[x.s.a.reason[p.v].cr].lits;
            |lits| >= 2 && ClauseBelow(x.s.a, lits, 1, index) && NoGood(x.s.a, x.formula, SeenSet(seen) + High(x.s.a, lits, 1, |lits|))
  {
    var a := x.s.a;
    var u :| u in cur;
    assert SeenOk(a, out, cur, index, u);
    HasReason(a, x.s.ca, index + 1, u);
    var cr := a.reason[p.v].cr;
    var lits := x.s.ca[cr].lits;
    Resolve(x.s, x.formula, bound, SeenSet(seen) + {p.v}, index + 1, cr);
    assert (SeenSet(seen) + {p.v}) - {p.v} == SeenSet(seen);
    forall k | 1 <= k < |lits|
      ensures VarOk(a, lits[k]) && Value(a.assigns, lits[k]) == LFalse && a.pos[lits[k].v] <= index
    {
      assert FalseBefore(a, lits[k], index + 1);
    }
  }

  // ----- minimisation -----

  /** `lits` is what is left of the clause without its first literal ~p; every seen variable is one
      of them or explained by seen ones. */
  ghost predicate Minimising(x: Snapshot, p: Lit, seen: seq<bool>, lits: seq<Lit>, toClear: seq<Lit>, allVars: set<nat>) {
    && TrailOk(x.s.a) && |seen| == NumVars(x) && VarOk(x.s.a, p) && p.v !in SeenSet(seen)
    && LitsLeft(x.s.a, SeenSet(seen), lits)
    && Justified(x.s.a, x.s.ca, SeenSet(seen), VarSet(lits), {})
    && SeenSet(seen) <= VarSet(toClear) && AllHigh(x.s.a, SeenSet(seen))
    && NoGood(x.s.a, x.formula, allVars + {p.v}) && allVars <= SeenSet(seen)
  }

  ghost predicate LitsLeft(a: Asg, seen: set<nat>, lits: seq<Lit>)
    requires |a.level| == |a.assigns|
  {
    && (forall k :: 0 <= k < |lits| ==> OutOk(a, lits[k]) && lits[k].v in seen)
    && (forall k, l :: 0 <= k < l < |lits| ==> lits[k].v != lits[l].v)
  }

  ghost predicate AllHigh(a: Asg, vars: set<nat>)
    requires |a.level| == |a.assigns|
  {
    forall v :: v in vars ==> IsHigh(a, v) && a.assigns[v] != LUndef && a.level[v] < |a.lim|
  }

  lemma MinimisingBegins(x: Snapshot, seen: seq<bool>, out: seq<Lit>, index: int, p: Lit)
    requires AtUip(x.s.a, x.formula, seen, out, {}, index, p)
    ensures Minimising(x, p, seen, out, [Not(p)] + out, VarSet(out)) && SeenSet(seen) == VarSet(out)
  {
    CollectDone(x.s.a, seen, out, index);
    CollectedHigh(x.s.a, seen, out, index);
    forall v | v in VarSet(out) ensures v in VarSet([Not(p)] + out) {
      var k :| 0 <= k < |out| && out[k].v == v;
      assert ([Not(p)] + out)[k + 1].v == v;
    }
  }

  lemma CollectedHigh(a: Asg, seen: seq<bool>, out: seq<Lit>, index: int)
    requires TrailOk(a) && Collecting(a, seen, out, {}, index)
    ensures AllHigh(a, SeenSet(seen)) && LitsLeft(a, SeenSet(seen), out)
  {
    forall v | v in SeenSet(seen) ensures IsHigh(a, v) && a.assigns[v] != LUndef && a.level[v] < |a.lim| {
      assert SeenOk(a, out, {}, index, v);
    }
  }

  /** lits[j] is dropped: the seen set (perhaps larger now) no longer needs it. */
  function Without(lits: seq<Lit>, j: nat): seq<Lit>
    requires j < |lits|
  {
    lits[..j] + lits[j + 1..]
  }

  lemma WithoutVars(lits: seq<Lit>, j: nat)
    requires j < |lits|
    ensures VarSet(lits) - {lits[j].v} <= VarSet(Without(lits, j))
  {
    forall v | v in VarSet(lits) - {lits[j].v} ensures v in VarSet(Without(lits, j)) {
      var k :| 0 <= k < |lits| && lits[k].v == v;
      assert Without(lits, j)[if k < j then k else k - 1].v == v;
    }
  }

  lemma WithoutLeft(a: Asg, seen: set<nat>, seen2: set<nat>, lits: seq<Lit>, j: nat)
    requires |a.level| == |a.assigns| && LitsLeft(a, seen, lits) && seen <= seen2 && j < |lits|
    ensures LitsLeft(a, seen2, Without(lits, j))
  {
    var lits2 := Without(lits, j);
    forall k | 0 <= k < |lits2| ensures lits2[k] == lits[if k < j then k else k + 1] {}
  }

  lemma DropLit(x: Snapshot, p: Lit, seen: seq<bool>, seen2: seq<bool>, lits: seq<Lit>, j: nat,
                toClear: seq<Lit>, toClear2: seq<Lit>, allVars: set<nat>)
    requires Minimising(x, p, seen, lits, toClear, allVars) && j < |lits| && |seen2| == |seen|
    requires SeenSet(seen) <= SeenSet(seen2) && SeenSet(seen2) <= VarSet(toClear2) && AllHigh(x.s.a, SeenSet(seen2))
    requires x.s.a.level[p.v] == |x.s.a.lim|
    requires Justified(x.s.a, x.s.ca, SeenSet(seen2), VarSet(lits) - {lits[j].v}, {})
    ensures Minimising(x, p, seen2, Without(lits, j), toClear2, allVars)
  {
    WithoutVars(lits, j);
    WithoutLeft(x.s.a, SeenSet(seen), SeenSet(seen2), lits, j);
    MoreKept(x.s.a, x.s.ca, SeenSet(seen2), VarSet(lits) - {lits[j].v}, VarSet(Without(lits, j)));
  }

  /** The simple test of mode 1: all other literals of the reason are seen or fixed. */
  lemma SimplyRedundant(x: Snapshot, p: Lit, seen: seq<bool>, lits: seq<Lit>, j: nat, toClear: seq<Lit>, allVars: set<nat>, cr: nat)
    requires Minimising(x, p, seen, lits, toClear, allVars) && j < |lits| && lits[j].v < |x.s.a.reason|
    requires x.s.a.reason[lits[j].v] == Ref(cr) && Live(x.s.ca, cr) && x.s.a.level[p.v] == |x.s.a.lim|
    requires High(x.s.a, x.s.ca[cr].lits, 1, |x.s.ca[cr].lits|) <= SeenSet(seen)
    ensures Minimising(x, p, seen, Without(lits, j), toClear, allVars)
  {
    assert Explained(x.s.a, x.s.ca, SeenSet(seen), lits[j].v);
    DropLit(x, p, seen, seen, lits, j, toClear, toClear, allVars);
  }

  // ----- the deep test -----

  /** While litRedundant explores: `marks` are the literals marked so far, `stack` the ones to do. */
  ghost predicate Exploring(x: Snapshot, seen0: seq<bool>, seen: seq<bool>, marks: seq<Lit>, stack: seq<Lit>, keep: set<nat>, cur: set<nat>) {
    && TrailOk(x.s.a) && |seen0| == |seen| == NumVars(x)
    && SeenSet(seen) == SeenSet(seen0) + VarSet(marks) && SeenSet(seen0) !! VarSet(marks)
    && AllHigh(x.s.a, SeenSet(seen))
    && Justified(x.s.a, x.s.ca, SeenSet(seen), keep, VarSet(stack) + cur)
    && (forall k :: 0 <= k < |stack| ==> StackOk(x, seen, stack[k]))
  }

  ghost predicate StackOk(x: Snapshot, seen: seq<bool>, q: Lit)
    requires TrailOk(x.s.a)
  {
    VarOk(x.s.a, q) && q.v in SeenSet(seen) && HasLiveReason(x, q.v)
  }

  ghost predicate HasLiveReason(x: Snapshot, v: nat)
    requires TrailOk(x.s.a)
  {
    v < NumVars(x) && x.s.a.reason[v].Ref? && Live(x.s.ca, x.s.a.reason[v].cr)
  }

  lemma LiveReason(x: Snapshot, bound: nat, v: nat)
    requires Whole(x, bound) && v < NumVars(x) && x.s.a.assigns[v] != LUndef && v < |x.s.a.reason| && x.s.a.reason[v].Ref?
    ensures TrailOk(x.s.a) && HasLiveReason(x, v)
    ensures var lits := x.s.ca[x.s.a.reason[v].cr].lits;
            forall k :: 0 <= k < |lits| ==> lits[k].v < NumVars(x) && x.s.a.assigns[lits[k].v] != LUndef &&
                                             (k > 0 ==> x.s.a.level[lits[k].v] <= x.s.a.level[v])
  {
    var a := x.s.a;
    var i := a.pos[v];
    assert OnTrail(a, i) && LevelOk(a, i) && a.trail[i].v == v;
    var cr := a.reason[v].cr;
    assert IsReason(a, x.s.ca, i, cr);
    var lits := x.s.ca[cr].lits;
    forall k | 1 <= k < |lits| ensures a.level[lits[k].v] <= a.level[v] && a.assigns[lits[k].v] != LUndef {
      assert FalseBefore(a, lits[k], i);
      assert OnTrail(a, a.pos[lits[k].v]) && LevelOk(a, a.pos[lits[k].v]);
      var d := a.level[v];
      assert d < |a.lim| ==> (a.level[lits[k].v] <= d <==> a.pos[lits[k].v] < a.lim[d]);
    }
  }

  lemma ExploringBegins(x: Snapshot, seen: seq<bool>, q: Lit, keep: set<nat>)
    requires TrailOk(x.s.a) && |seen| == NumVars(x) && AllHigh(x.s.a, SeenSet(seen)) && StackOk(x, seen, q)
    requires Justified(x.s.a, x.s.ca, SeenSet(seen), keep + {q.v}, {})
    ensures Exploring(x, seen, seen, [], [q], keep, {})
  {
    assert [q][0].v in VarSet([q]);
  }

  /** The top of the stack is popped; it stays pending until its reason has been scanned. */
  lemma PopStack(x: Snapshot, seen0: seq<bool>, seen: seq<bool>, marks: seq<Lit>, stack: seq<Lit>, keep: set<nat>)
    requires Exploring(x, seen0, seen, marks, stack, keep, {}) && stack != []
    ensures var q := stack[|stack| - 1];
            StackOk(x, seen, q) && Exploring(x, seen0, seen, marks, stack[..|stack| - 1], keep, {q.v})
  {
    var q, stack2 := stack[|stack| - 1], stack[..|stack| - 1];
    assert stack == stack2 + [q];
    forall v | v in VarSet(stack) ensures v in VarSet(stack2) + {q.v} {
      var k :| 0 <= k < |stack| && stack[k].v == v;
      assert k < |stack2| ==> stack2[k].v == v;
    }
  }

  lemma MarkLit(x: Snapshot, seen0: seq<bool>, seen: seq<bool>, marks: seq<Lit>, stack: seq<Lit>, keep: set<nat>, cur: set<nat>, r: Lit)
    requires Exploring(x, seen0, seen, marks, stack, keep, cur) && VarOk(x.s.a, r) && !seen[r.v] && HasLiveReason(x, r.v)
    requires IsHigh(x.s.a, r.v) && x.s.a.assigns[r.v] != LUndef && x.s.a.level[r.v] < |x.s.a.lim|
    ensures Exploring(x, seen0, seen[r.v := true], marks + [r], stack + [r], keep, cur)
    ensures SeenSet(seen[r.v := true]) == SeenSet(seen) + {r.v}
  {
    var seen2, marks2, stack2 := seen[r.v := true], marks + [r], stack + [r];
    VarSetSnoc(marks, r);
    VarSetSnoc(stack, r);
    assert SeenSet(seen2) == SeenSet(seen) + {r.v};
    forall v | v in SeenSet(seen2)
      ensures v < NumVars(x) && x.s.a.assigns[v] != LUndef && (v in keep || v in VarSet(stack2) + cur || Explained(x.s.a, x.s.ca, SeenSet(seen2), v))
    {
      if v != r.v {
        assert v in SeenSet(seen);
      }
    }
  }

  lemma VarSetSnoc(lits: seq<Lit>, r: Lit)
    ensures VarSet(lits + [r]) == VarSet(lits) + {r.v}
  {
    var lits2 := lits + [r];
    assert lits2[|lits|].v == r.v;
    forall v | v in VarSet(lits) ensures v in VarSet(lits2) {
      var k :| 0 <= k < |lits| && lits[k].v == v;
      assert lits2[k].v == v;
    }
  }

  /** The reason of the popped literal has been scanned. */
  lemma ScannedReason(x: Snapshot, seen0: seq<bool>, seen: seq<bool>, marks: seq<Lit>, stack: seq<Lit>, keep: set<nat>, v: nat)
    requires Exploring(x, seen0, seen, marks, stack, keep, {v}) && HasLiveReason(x, v)
    requires var lits := x.s.ca[x.s.a.reason[v].cr].lits; High(x.s.a, lits, 1, |lits|) <= SeenSet(seen)
    ensures Exploring(x, seen0, seen, marks, stack, keep, {})
  {
    assert Explained(x.s.a, x.s.ca, SeenSet(seen), v);
    assert VarSet(stack) + {} == VarSet(stack);
  }

  /** `seen` is `seen0` and the marks, which were not seen before. */
  ghost predicate Marked(seen0: seq<bool>, seen: seq<bool>, marks: seq<Lit>) {
    |seen| == |seen0| && SeenSet(seen) == SeenSet(seen0) + VarSet(marks) && SeenSet(seen0) !! VarSet(marks)
  }

  lemma MarkedLit(seen0: seq<bool>, seen: seq<bool>, marks: seq<Lit>, j: nat)
    requires Marked(seen0, seen, marks) && j < |marks|
    ensures marks[j].v < |seen|
  {
    assert marks[j].v in VarSet(marks);
  }

  lemma UnmarkedAll(seen0: seq<bool>, seen1: seq<bool>, seen: seq<bool>, marks: seq<Lit>)
    requires Marked(seen0, seen1, marks) && |seen| == |seen1|
    requires forall v: nat :: v < |seen| ==> (seen[v] <==> seen1[v] && v !in VarSet(marks))
    ensures seen == seen0
  {
    forall v | 0 <= v < |seen| ensures seen[v] == seen0[v] {
      assert seen1[v] <==> v in SeenSet(seen1);
      assert seen0[v] <==> v in SeenSet(seen0);
    }
  }

  lemma ExploringTables(x: Snapshot, seen0: seq<bool>, seen: seq<bool>, marks: seq<Lit>, stack: seq<Lit>, keep: set<nat>, cur: set<nat>, v: nat)
    requires Exploring(x, seen0, seen, marks, stack, keep, cur)
    ensures |seen| == NumVars(x) == |seen0| && |x.s.a.level| == NumVars(x) && Marked(seen0, seen, marks)
    ensures v in SeenSet(seen) ==> IsHigh(x.s.a, v) && x.s.a.assigns[v] != LUndef && x.s.a.level[v] < |x.s.a.lim|
  {}

  lemma FewerUnseen(n: nat, before: set<nat>, after: set<nat>)
    requires before <= after && forall v :: v in after ==> v < n
    ensures |Below(n) - after| <= |Below(n) - before|
    ensures after != before ==> |Below(n) - after| < |Below(n) - before|
  {
    SubsetSize(Below(n) - after, Below(n) - before);
    if after != before {
      assert !(after <= before);
      var v :| v in after && v !in before;
      assert v in Below(n) - before;
    }
  }

  lemma ExploringEnds(x: Snapshot, seen0: seq<bool>, seen: seq<bool>, marks: seq<Lit>, keep: set<nat>, toClear: seq<Lit>)
    requires Exploring(x, seen0, seen, marks, [], keep, {}) && SeenSet(seen0) <= VarSet(toClear)
    ensures SeenSet(seen0) <= SeenSet(seen) && SeenSet(seen) <= VarSet(toClear + marks) && AllHigh(x.s.a, SeenSet(seen))
    ensures Justified(x.s.a, x.s.ca, SeenSet(seen), keep, {})
  {
    assert VarSet([]) + {} == {};
    forall v | v in SeenSet(seen) ensures v in VarSet(toClear + marks) {
      if v in VarSet(toClear) {
        var k :| 0 <= k < |toClear| && toClear[k].v == v;
        assert (toClear + marks)[k].v == v;
      } else {
        var k :| 0 <= k < |marks| && marks[k].v == v;
        assert (toClear + marks)[|toClear| + k].v == v;
      }
    }
  }

  // ----- the learnt clause -----

  lemma MinimisedEntails(x: Snapshot, bound: nat, p: Lit, seen: seq<bool>, kept: seq<Lit>, toClear: seq<Lit>, allVars: set<nat>)
    requires Whole(x, bound) && Minimising(x, p, seen, kept, toClear, allVars)
    requires Value(x.s.a.assigns, p) == LTrue && x.s.a.level[p.v] == |x.s.a.lim|
    ensures Entails(NumVars(x), x.formula, [Not(p)] + kept)
  {
    var lits := [Not(p)] + kept;
    VarSetCons(Not(p), kept);
    MoreKept(x.s.a, x.s.ca, SeenSet(seen), VarSet(kept), VarSet(lits));
    KeptNoGood(x.s, x.formula, bound, SeenSet(seen), VarSet(lits), p.v, allVars);
    NoGoodEntails(x.s.a, x.formula, lits);
  }

  lemma VarSetCons(q: Lit, lits: seq<Lit>)
    ensures VarSet([q] + lits) == VarSet(lits) + {q.v}
  {
    var lits2 := [q] + lits;
    assert lits2[0].v == q.v;
    forall v | v in VarSet(lits) ensures v in VarSet(lits2) {
      var k :| 0 <= k < |lits| && lits[k].v == v;
      assert lits2[k + 1].v == v;
    }
  }

  lemma MoreKept(a: Asg, ca: seq<Clause>, seen: set<nat>, keep: set<nat>, keep2: set<nat>)
    requires |a.reason| == |a.level| == |a.pos| == |a.assigns| && Justified(a, ca, seen, keep, {}) && keep <= keep2
    ensures Justified(a, ca, seen, keep2, {})
  {}

  /** Swapping a literal of the highest level to index 1. */
  function HighestSecond(lits: seq<Lit>, maxI: nat): seq<Lit>
    requires 1 <= maxI < |lits|
  {
    lits[maxI := lits[1]][1 := lits[maxI]]
  }

  /** kept[m] has the highest level. */
  ghost predicate Highest(a: Asg, kept: seq<Lit>, m: nat)
    requires |a.level| == |a.assigns|
  {
    m < |kept| && forall k :: 0 <= k < |kept| ==> OutOk(a, kept[k]) && OutOk(a, kept[m]) && a.level[kept[k].v] <= a.level[kept[m].v]
  }

  lemma LearntUnit(a: Asg, f: seq<seq<Lit>>, p: Lit)
    requires TrailOk(a) && VarOk(a, p) && Value(a.assigns, p) == LTrue && a.level[p.v] == |a.lim| > 0
    requires Entails(|a.assigns|, f, [Not(p)] + [])
    ensures LearntOk(a, f, [Not(p)], 0)
  {
    assert [Not(p)] + [] == [Not(p)];
  }

  lemma LearntFinal(a: Asg, f: seq<seq<Lit>>, p: Lit, seen: set<nat>, kept: seq<Lit>, m: nat)
    requires TrailOk(a) && VarOk(a, p) && Value(a.assigns, p) == LTrue && a.level[p.v] == |a.lim| > 0
    requires Entails(|a.assigns|, f, [Not(p)] + kept) && LitsLeft(a, seen, kept) && p.v !in seen && Highest(a, kept, m)
    ensures kept[m].v < |a.level| && LearntOk(a, f, HighestSecond([Not(p)] + kept, m + 1), a.level[kept[m].v])
  {
    hide Entails;
    var maxI := m + 1;
    var lits := [Not(p)] + kept;
    assert OutOk(a, kept[m]);
    var lits2, bt := HighestSecond(lits, maxI), a.level[kept[m].v];
    SwapEntails(|a.assigns|, f, lits, maxI);
    forall k | 1 <= k < |lits2| ensures OutOk(a, lits2[k]) && a.level[lits2[k].v] <= bt {
      var j := if k == 1 then maxI else if k == maxI then 1 else k;
      assert lits2[k] == lits[j] && lits[j] == kept[j - 1];
    }
    DistinctSwap(lits, lits2, maxI);
  }

  lemma SwapEntails(n: nat, f: seq<seq<Lit>>, lits: seq<Lit>, maxI: nat)
    requires 1 <= maxI < |lits| && Entails(n, f, lits)
    ensures Entails(n, f, HighestSecond(lits, maxI))
  {
    var lits2 := HighestSecond(lits, maxI);
    forall k | 0 <= k < |lits| ensures lits[k] in lits2 {
      assert lits[k] == lits2[if k == 1 then maxI else if k == maxI then 1 else k];
    }
    forall m | Models(m, n, f) ensures Holds(m, lits2) {
      HoldsIn(m, lits, lits2);
    }
  }

  lemma DistinctSwap(lits: seq<Lit>, lits2: seq<Lit>, maxI: nat)
    requires 1 <= maxI < |lits| && lits2 == HighestSecond(lits, maxI)
    requires forall k, l :: 0 <= k < l < |lits| ==> lits[k].v != lits[l].v
    ensures forall k, l :: 0 <= k < l < |lits2| ==> lits2[k].v != lits2[l].v
  {}

  lemma LeftLit(x: Snapshot, p: Lit, seen: seq<bool>, lits: seq<Lit>, j: nat, toClear: seq<Lit>, allVars: set<nat>)
    requires Minimising(x, p, seen, lits, toClear, allVars) && j < |lits|
    ensures |x.s.a.level| == NumVars(x) && OutOk(x.s.a, lits[j]) && |seen| == NumVars(x) && lits[j].v in SeenSet(seen)
  {}

  /** What litRedundant needs. */
  lemma BeforeRedundant(x: Snapshot, bound: nat, p: Lit, seen: seq<bool>, lits: seq<Lit>, j: nat, toClear: seq<Lit>, allVars: set<nat>)
    requires Whole(x, bound) && Minimising(x, p, seen, lits, toClear, allVars) && j < |lits|
    requires lits[j].v < |x.s.a.reason| && x.s.a.reason[lits[j].v].Ref?
    ensures TrailOk(x.s.a) && |seen| == NumVars(x) && StackOk(x, seen, lits[j])
    ensures AllHigh(x.s.a, SeenSet(seen)) && SeenSet(seen) <= VarSet(toClear)
    ensures Justified(x.s.a, x.s.ca, SeenSet(seen), (VarSet(lits) - {lits[j].v}) + {lits[j].v}, {})
    ensures VarSet(lits) - {lits[j].v} <= SeenSet(seen)
  {
    assert OutOk(x.s.a, lits[j]) && lits[j].v in SeenSet(seen);
    LiveReason(x, bound, lits[j].v);
    assert lits[j].v in VarSet(lits);
    assert (VarSet(lits) - {lits[j].v}) + {lits[j].v} == VarSet(lits);
  }

  lemma UipFacts(a: Asg, f: seq<seq<Lit>>, seen: seq<bool>, out: seq<Lit>, cur: set<nat>, index: int, p: Lit)
    requires AtUip(a, f, seen, out, cur, index, p)
    ensures TrailOk(a) && |a.level| == |a.assigns| && VarOk(a, p) && a.level[p.v] == |a.lim| > 0 && Value(a.assigns, p) == LTrue
  {
    assert OnTrail(a, index + 1);
  }

  lemma MinimisedFacts(x: Snapshot, p: Lit, seen: seq<bool>, kept: seq<Lit>, toClear: seq<Lit>, allVars: set<nat>)
    requires Minimising(x, p, seen, kept, toClear, allVars)
    ensures |seen| == NumVars(x) == |x.s.a.level| && SeenSet(seen) <= VarSet(toClear) && p.v !in SeenSet(seen)
    ensures LitsLeft(x.s.a, SeenSet(seen), kept)
  {}

  lemma WholeOrder(x: Snapshot, bound: nat)
    requires Whole(x, bound)
    ensures OrderOk(x.decision, x.s.a.assigns, x.order)
  {}

  /** Seen flags and heap may change between steps. */
  lemma WholeSeen(x: Snapshot, bound: nat, seen2: seq<bool>, o: Order)
    requires Whole(x, bound) && |seen2| == |x.seen| && OrderOk(x.decision, x.s.a.assigns, o)
    ensures Whole(x.(seen := seen2, order := o), bound)
  {
    assert WholeParts(x.(seen := seen2, order := o), bound);
  }
}
