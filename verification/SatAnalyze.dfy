/** Conflict analysis: first unique implication point, minimisation by litRedundant, and what the
    learnt clause promises (memin/minisat/core/Solver.cpp). */
module SatAnalyze {
  import opened SatState
  import opened SatTrail
  import opened SatWatch
  import opened SatDb

  // ----- sets of assigned variables that no model can agree with -----

  /** The literal of variable `v` that is true. */
  function TrueLit(a: Asg, v: nat): Lit
    requires v < |a.assigns|
  {
    Lit(v, a.assigns[v] == LFalse)
  }

  ghost predicate Agrees(a: Asg, m: seq<bool>, vars: set<nat>) {
    forall v :: v in vars ==> v < |a.assigns| && LitHolds(m, TrueLit(a, v))
  }

  ghost predicate NoGood(a: Asg, f: seq<seq<Lit>>, vars: set<nat>) {
    forall m :: Models(m, |a.assigns|, f) ==> !Agrees(a, m, vars)
  }

  /** Variables of lits[from..to] that were assigned above level 0. */
  ghost function High(a: Asg, lits: seq<Lit>, from: nat, to: nat): (s: set<nat>)
    requires |a.level| == |a.assigns|
  {
    set k | from <= k < to && k < |lits| && IsHigh(a, lits[k].v) :: lits[k].v
  }

  predicate IsHigh(a: Asg, v: nat)
    requires |a.level| == |a.assigns|
  {
    v < |a.assigns| && a.level[v] > 0
  }

  lemma HighNone(a: Asg, lits: seq<Lit>, from: nat)
    requires |a.level| == |a.assigns|
    ensures High(a, lits, from, from) == {}
  {}

  lemma HighNext(a: Asg, lits: seq<Lit>, from: nat, to: nat)
    requires |a.level| == |a.assigns| && from <= to < |lits|
    ensures High(a, lits, from, to + 1) == High(a, lits, from, to) + if IsHigh(a, lits[to].v) then {lits[to].v} else {}
  {}

  /** A false literal fails in every model that agrees, or, at level 0, in every model. */
  lemma FalseFails(s: State, f: seq<seq<Lit>>, bound: nat, m: seq<bool>, vars: set<nat>, q: Lit)
    requires Inv(s, f, bound) && Models(m, |s.a.assigns|, f) && Agrees(s.a, m, vars)
    requires VarOk(s.a, q) && Value(s.a.assigns, q) == LFalse && (s.a.level[q.v] > 0 ==> q.v in vars)
    ensures !LitHolds(m, q)
  {
    if s.a.level[q.v] == 0 {
      assert Fixed(s.a, Not(q));
      assert EntailsLit(|s.a.assigns|, f, Not(q));
    } else {
      assert LitHolds(m, TrueLit(s.a, q.v));
    }
  }

  /** All literals of the conflict clause are false. */
  lemma ConflictNoGood(s: State, f: seq<seq<Lit>>, bound: nat, cr: nat)
    requires Inv(s, f, bound) && Live(s.ca, cr)
    requires forall k :: 0 <= k < |s.ca[cr].lits| ==> VarOk(s.a, s.ca[cr].lits[k]) && Value(s.a.assigns, s.ca[cr].lits[k]) == LFalse
    ensures NoGood(s.a, f, High(s.a, s.ca[cr].lits, 0, |s.ca[cr].lits|))
  {
    var lits := s.ca[cr].lits;
    var vars := High(s.a, lits, 0, |lits|);
    forall m | Models(m, |s.a.assigns|, f) ensures !Agrees(s.a, m, vars) {
      assert Entails(|s.a.assigns|, f, lits);
      var k :| 0 <= k < |lits| && LitHolds(m, lits[k]);
      if Agrees(s.a, m, vars) {
        assert s.a.level[lits[k].v] > 0 ==> IsHigh(s.a, lits[k].v);
        FalseFails(s, f, bound, m, vars, lits[k]);
      }
    }
  }

  /** What a model agrees with on the other literals of a reason it agrees with on the first. */
  lemma ReasonForces(s: State, f: seq<seq<Lit>>, bound: nat, m: seq<bool>, vars: set<nat>, i: nat, cr: nat)
    requires Inv(s, f, bound) && Models(m, |s.a.assigns|, f) && Agrees(s.a, m, vars)
    requires i < |s.a.trail| && IsReason(s.a, s.ca, i, cr) && High(s.a, s.ca[cr].lits, 1, |s.ca[cr].lits|) <= vars
    ensures LitHolds(m, s.a.trail[i])
  {
    var lits := s.ca[cr].lits;
    assert Entails(|s.a.assigns|, f, lits);
    var k :| 0 <= k < |lits| && LitHolds(m, lits[k]);
    if k > 0 {
      assert FalseBefore(s.a, lits[k], i);
      assert s.a.level[lits[k].v] > 0 ==> IsHigh(s.a, lits[k].v);
      FalseFails(s, f, bound, m, vars, lits[k]);
    }
  }

  /** Replacing a variable by the others of its reason clause. */
  lemma Resolve(s: State, f: seq<seq<Lit>>, bound: nat, vars: set<nat>, i: nat, cr: nat)
    requires Inv(s, f, bound) && NoGood(s.a, f, vars) && i < |s.a.trail| && IsReason(s.a, s.ca, i, cr)
    ensures NoGood(s.a, f, (vars - {s.a.trail[i].v}) + High(s.a, s.ca[cr].lits, 1, |s.ca[cr].lits|))
  {
    var v := s.a.trail[i].v;
    var vars2 := (vars - {v}) + High(s.a, s.ca[cr].lits, 1, |s.ca[cr].lits|);
    assert OnTrail(s.a, i);
    forall m | Models(m, |s.a.assigns|, f) ensures !Agrees(s.a, m, vars2) {
      if Agrees(s.a, m, vars2) {
        ReasonForces(s, f, bound, m, vars2, i, cr);
        forall u | u in vars ensures u < |s.a.assigns| && LitHolds(m, TrueLit(s.a, u)) {
          assert u == v || u in vars2;
          assert TrueLit(s.a, v) == s.a.trail[i];
        }
        assert Agrees(s.a, m, vars);
      }
    }
  }

  // ----- collecting the learnt clause -----

  ghost function SeenSet(seen: seq<bool>): (s: set<nat>)
    ensures forall v: nat :: v in s <==> v < |seen| && seen[v]
  {
    set v | 0 <= v < |seen| && seen[v]
  }

  /** `out` holds the seen variables of lower levels, `cur` the seen ones of the current level. */
  ghost predicate Collecting(a: Asg, seen: seq<bool>, out: seq<Lit>, cur: set<nat>, index: int)
    requires |a.level| == |a.pos| == |a.assigns|
  {
    && |seen| == |a.assigns|
    && (forall v: nat :: v < |seen| && seen[v] ==> SeenOk(a, out, cur, index, v))
    && (forall v :: v in cur ==> v < |seen| && seen[v] && a.level[v] == |a.lim|)
    && (forall k :: 0 <= k < |out| ==> OutOk(a, out[k]) && seen[out[k].v])
    && (forall k, l :: 0 <= k < l < |out| ==> out[k].v != out[l].v)
  }

  ghost predicate SeenOk(a: Asg, out: seq<Lit>, cur: set<nat>, index: int, v: nat)
    requires |a.level| == |a.pos| == |a.assigns| && v < |a.assigns|
  {
    && a.assigns[v] != LUndef && 0 < a.level[v] <= |a.lim|
    && (if a.level[v] == |a.lim| then v in cur && a.pos[v] <= index else InClause(out, v))
  }

  ghost predicate InClause(out: seq<Lit>, v: nat) {
    exists k :: 0 <= k < |out| && out[k].v == v
  }

  /** A false literal of a level between 0 and the current one. */
  predicate OutOk(a: Asg, q: Lit)
    requires |a.level| == |a.assigns|
  {
    VarOk(a, q) && Value(a.assigns, q) == LFalse && 0 < a.level[q.v] < |a.lim|
  }

  /** One more literal of the clause being resolved. */
  lemma CollectStep(a: Asg, seen: seq<bool>, out: seq<Lit>, cur: set<nat>, index: int, q: Lit)
    requires TrailOk(a) && Collecting(a, seen, out, cur, index) && VarOk(a, q) && Value(a.assigns, q) == LFalse
    requires !seen[q.v] && a.level[q.v] > 0 && a.pos[q.v] <= index
    ensures a.level[q.v] >= |a.lim| ==> q.v !in cur && Collecting(a, seen[q.v := true], out, cur + {q.v}, index)
    ensures a.level[q.v] < |a.lim| ==> Collecting(a, seen[q.v := true], out + [q], cur, index)
    ensures SeenSet(seen[q.v := true]) == SeenSet(seen) + {q.v}
  {
    assert OnTrail(a, a.pos[q.v]) && LevelOk(a, a.pos[q.v]);
    var seen2 := seen[q.v := true];
    if a.level[q.v] < |a.lim| {
      var out2 := out + [q];
      assert out2[|out|].v == q.v;
      forall v: nat | v < |seen2| && seen2[v] ensures SeenOk(a, out2, cur, index, v) {
        if v != q.v {
          assert SeenOk(a, out, cur, index, v);
          if a.level[v] != |a.lim| {
            var k :| 0 <= k < |out| && out[k].v == v;
            assert out2[k].v == v;
          }
        }
      }
    } else {
      forall v: nat | v < |seen2| && seen2[v] ensures SeenOk(a, out, cur + {q.v}, index, v) {
        if v != q.v {
          assert SeenOk(a, out, cur, index, v);
        }
      }
    }
  }

  /** The next literal to resolve on: the last seen one on the trail. */
  lemma TakeLast(a: Asg, seen: seq<bool>, out: seq<Lit>, cur: set<nat>, i: nat)
    requires TrailOk(a) && Collecting(a, seen, out, cur, i) && i < |a.trail| && VarOk(a, a.trail[i]) && a.trail[i].v in cur
    ensures Collecting(a, seen[a.trail[i].v := false], out, cur - {a.trail[i].v}, i - 1)
    ensures SeenSet(seen[a.trail[i].v := false]) == SeenSet(seen) - {a.trail[i].v}
  {
    var v := a.trail[i].v;
    assert OnTrail(a, i);
    var seen2 := seen[v := false];
    forall u: nat | u < |seen2| && seen2[u] ensures SeenOk(a, out, cur - {v}, i - 1, u) {
      assert SeenOk(a, out, cur, i, u);
      assert a.trail[i].v == v && a.trail[a.pos[u]].v == u;
    }
    forall k | 0 <= k < |out| ensures OutOk(a, out[k]) && out[k].v != v {}
  }

  /** A current-level literal that is not the last one seen has a reason. */
  lemma HasReason(a: Asg, ca: seq<Clause>, i: nat, u: nat)
    requires TrailOk(a) && ReasonsOk(a, ca) && |a.lim| > 0 && i < |a.trail| && VarOk(a, a.trail[i])
    requires a.level[a.trail[i].v] == |a.lim|
    requires u < |a.assigns| && a.assigns[u] != LUndef && a.level[u] == |a.lim| && a.pos[u] < i
    ensures a.reason[a.trail[i].v].Ref? && IsReason(a, ca, i, a.reason[a.trail[i].v].cr)
  {
    assert OnTrail(a, i) && LevelOk(a, i);
    assert OnTrail(a, a.pos[u]) && LevelOk(a, a.pos[u]);
    assert a.level[u] <= |a.lim| - 1 <==> a.pos[u] < a.lim[|a.lim| - 1];
  }

  ghost function VarSet(lits: seq<Lit>): (s: set<nat>)
    ensures forall v :: v in s <==> InClause(lits, v)
  {
    set k | 0 <= k < |lits| :: lits[k].v
  }

  /** When no seen variable of the current level is left, the seen set is the clause. */
  lemma CollectDone(a: Asg, seen: seq<bool>, out: seq<Lit>, index: int)
    requires |a.level| == |a.pos| == |a.assigns| && Collecting(a, seen, out, {}, index)
    ensures SeenSet(seen) == VarSet(out)
  {
    forall v | v in SeenSet(seen) ensures v in VarSet(out) {
      assert SeenOk(a, out, {}, index, v);
    }
    forall v | v in VarSet(out) ensures v in SeenSet(seen) {
      var k :| 0 <= k < |out| && out[k].v == v;
      assert OutOk(a, out[k]);
    }
  }

  // ----- minimisation -----

  /** A seen variable may be dropped if the other literals of its reason are seen or fixed. */
  ghost predicate Explained(a: Asg, ca: seq<Clause>, seen: set<nat>, v: nat)
    requires |a.reason| == |a.level| == |a.pos| == |a.assigns| && v < |a.assigns|
  {
    && a.reason[v].Ref? && Live(ca, a.reason[v].cr)
    && High(a, ca[a.reason[v].cr].lits, 1, |ca[a.reason[v].cr].lits|) <= seen
  }

  /** Every seen variable is in `keep`, still on the stack, or explained by seen ones. */
  ghost predicate Justified(a: Asg, ca: seq<Clause>, seen: set<nat>, keep: set<nat>, stack: set<nat>)
    requires |a.reason| == |a.level| == |a.pos| == |a.assigns|
  {
    forall v :: v in seen ==> v < |a.assigns| && a.assigns[v] != LUndef && (v in keep || v in stack || Explained(a, ca, seen, v))
  }

  /** What the kept variables force: by induction along the trail, every seen variable. */
  lemma {:induction false} KeptForce(s: State, f: seq<seq<Lit>>, bound: nat, m: seq<bool>, seen: set<nat>, keep: set<nat>, v: nat)
    requires Inv(s, f, bound) && Models(m, |s.a.assigns|, f) && Agrees(s.a, m, keep)
    requires Justified(s.a, s.ca, seen, keep, {}) && v in seen
    ensures v < |s.a.assigns| && LitHolds(m, TrueLit(s.a, v))
    decreases if v < |s.a.pos| then s.a.pos[v] else 0
  {
    var a := s.a;
    if v !in keep {
      var i, cr := a.pos[v], a.reason[v].cr;
      assert OnTrail(a, i) && a.trail[i].v == v;
      assert IsReason(a, s.ca, i, cr);
      var others := High(a, s.ca[cr].lits, 1, |s.ca[cr].lits|);
      forall u | u in others ensures u < |a.assigns| && LitHolds(m, TrueLit(a, u)) {
        var k :| 1 <= k < |s.ca[cr].lits| && s.ca[cr].lits[k].v == u;
        assert FalseBefore(a, s.ca[cr].lits[k], i);
        KeptForce(s, f, bound, m, seen, keep, u);
      }
      assert Agrees(a, m, others);
      ReasonForces(s, f, bound, m, others, i, cr);
    }
  }

  lemma KeptAgrees(s: State, f: seq<seq<Lit>>, bound: nat, m: seq<bool>, seen: set<nat>, keep: set<nat>, vars: set<nat>)
    requires Inv(s, f, bound) && Models(m, |s.a.assigns|, f) && Agrees(s.a, m, keep)
    requires Justified(s.a, s.ca, seen, keep, {}) && vars <= seen + keep
    ensures Agrees(s.a, m, vars)
  {
    forall v | v in vars ensures v < |s.a.assigns| && LitHolds(m, TrueLit(s.a, v)) {
      if v in seen {
        KeptForce(s, f, bound, m, seen, keep, v);
      }
    }
  }

  lemma KeptNoGood(s: State, f: seq<seq<Lit>>, bound: nat, seen: set<nat>, keep: set<nat>, uip: nat, allVars: set<nat>)
    requires Inv(s, f, bound) && NoGood(s.a, f, allVars + {uip}) && allVars <= seen && uip in keep
    requires Justified(s.a, s.ca, seen, keep, {})
    ensures NoGood(s.a, f, keep)
  {
    forall m | Models(m, |s.a.assigns|, f) ensures !Agrees(s.a, m, keep) {
      if Agrees(s.a, m, keep) {
        KeptAgrees(s, f, bound, m, seen, keep, allVars + {uip});
      }
    }
  }

  /** A clause of false literals over a no-good set is entailed. */
  lemma NoGoodEntails(a: Asg, f: seq<seq<Lit>>, lits: seq<Lit>)
    requires NoGood(a, f, VarSet(lits))
    requires forall k :: 0 <= k < |lits| ==> VarOk(a, lits[k]) && Value(a.assigns, lits[k]) == LFalse
    ensures Entails(|a.assigns|, f, lits)
  {
    forall m | Models(m, |a.assigns|, f) ensures Holds(m, lits) {
      var v :| v in VarSet(lits) && !(v < |a.assigns| && LitHolds(m, TrueLit(a, v)));
      var k :| 0 <= k < |lits| && lits[k].v == v;
      assert LitHolds(m, lits[k]);
    }
  }

  // ----- the result -----

  /** The learnt clause: entailed, all literals false, exactly the first one of the current level,
      and the second one of the highest level among the others, which is the level to return to. */
  ghost predicate LearntOk(a: Asg, f: seq<seq<Lit>>, lits: seq<Lit>, btlevel: nat)
    requires |a.level| == |a.assigns|
  {
    && |lits| >= 1 && btlevel < |a.lim| && Entails(|a.assigns|, f, lits)
    && VarOk(a, lits[0]) && Value(a.assigns, lits[0]) == LFalse && a.level[lits[0].v] == |a.lim|
    && (forall k :: 1 <= k < |lits| ==> OutOk(a, lits[k]) && a.level[lits[k].v] <= btlevel)
    && (forall k, l :: 0 <= k < l < |lits| ==> lits[k].v != lits[l].v)
    && (if |lits| == 1 then btlevel == 0 else btlevel == a.level[lits[1].v])
  }

  /** After backtracking the learnt clause is unit on its first literal. */
  lemma LearntAsserts(a: Asg, f: seq<seq<Lit>>, lits: seq<Lit>, btlevel: nat)
    requires TrailOk(a) && LearntOk(a, f, lits, btlevel)
    ensures var b := Cancelled(a, btlevel);
            VarOk(b, lits[0]) && Value(b.assigns, lits[0]) == LUndef && TrailOk(b) && |b.lim| == btlevel &&
            (|lits| >= 2 ==> Asserting(b, lits) && btlevel > 0)
  {
    var b := Cancelled(a, btlevel);
    CancelTrail(a, btlevel);
    CancelValue(a, btlevel, lits[0]);
    CutLevel(a, btlevel, lits[0]);
    forall k | 1 <= k < |lits| ensures FalseBefore(b, lits[k], |b.trail|) {
      assert OutOk(a, lits[k]);
      CancelValue(a, btlevel, lits[k]);
      CutLevel(a, btlevel, lits[k]);
    }
    assert |lits| >= 2 ==> OutOk(a, lits[1]);
  }
}
