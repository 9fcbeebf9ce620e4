/** The assignment stack: uncheckedEnqueue, newDecisionLevel and cancelUntil
    (memin/minisat/core/Solver.cpp, Solver.h), and that they keep the solver invariant. */
module SatTrail {
  import opened FiniteSets
  import opened SatState

  // ----- uncheckedEnqueue -----

  function Enqueued(a: Asg, p: Lit, from: Ref): Asg
    requires p.v < |a.assigns| && |a.reason| == |a.level| == |a.pos| == |a.assigns|
  {
    Asg(a.assigns[p.v := if p.sign then LFalse else LTrue], a.reason[p.v := from], a.level[p.v := |a.lim|],
        a.trail + [p], a.lim, a.pos[p.v := |a.trail|])
  }

  lemma EnqueueTrail(a: Asg, p: Lit, from: Ref)
    requires TrailOk(a) && VarOk(a, p) && Value(a.assigns, p) == LUndef
    requires from.NoRef? && |a.lim| > 0 ==> a.lim[|a.lim| - 1] == |a.trail|
    ensures TrailOk(Enqueued(a, p, from))
  {
    var b := Enqueued(a, p, from);
    forall i | 0 <= i < |b.trail| ensures OnTrail(b, i) && LevelOk(b, i) {
      if i < |a.trail| {
        assert OnTrail(a, i) && LevelOk(a, i);
        assert b.trail[i] == a.trail[i];
      }
    }
  }

  /** Old values stay. */
  lemma EnqueueKeeps(a: Asg, p: Lit, from: Ref, q: Lit)
    requires TrailOk(a) && VarOk(a, p) && Value(a.assigns, p) == LUndef && VarOk(a, q)
    ensures var b := Enqueued(a, p, from);
            (Value(a.assigns, q) != LUndef ==> Value(b.assigns, q) == Value(a.assigns, q) && b.level[q.v] == a.level[q.v] && b.pos[q.v] == a.pos[q.v]) &&
            (q.v != p.v ==> Value(b.assigns, q) == Value(a.assigns, q)) &&
            (q == p ==> Value(b.assigns, q) == LTrue) && (q == Not(p) ==> Value(b.assigns, q) == LFalse)
  {}

  lemma EnqueueReasons(a: Asg, ca: seq<Clause>, p: Lit, from: Ref)
    requires TrailOk(a) && ReasonsOk(a, ca) && VarOk(a, p) && Value(a.assigns, p) == LUndef
    requires TrailOk(Enqueued(a, p, from))
    requires from.Ref? ==> Live(ca, from.cr) && |ca[from.cr].lits| >= 2 && ca[from.cr].lits[0] == p
    requires from.Ref? ==> forall k :: 1 <= k < |ca[from.cr].lits| ==> FalseBefore(a, ca[from.cr].lits[k], |a.trail|)
    ensures ReasonsOk(Enqueued(a, p, from), ca)
  {
    var b := Enqueued(a, p, from);
    forall i | 0 <= i < |b.trail|
      ensures OnTrail(b, i) && (b.reason[b.trail[i].v].Ref? ==> IsReason(b, ca, i, b.reason[b.trail[i].v].cr))
    {
      if i < |a.trail| {
        assert OnTrail(a, i) && OnTrail(b, i);
        assert b.trail[i] == a.trail[i] && b.reason[b.trail[i].v] == a.reason[a.trail[i].v];
      }
    }
  }

  lemma EnqueueSat(a: Asg, p: Lit, from: Ref, lits: seq<Lit>, level: nat)
    requires TrailOk(a) && VarOk(a, p) && Value(a.assigns, p) == LUndef && SatAt(a, lits, level)
    ensures SatAt(Enqueued(a, p, from), lits, level)
  {
    var b := Enqueued(a, p, from);
    var k :| 0 <= k < |lits| && VarOk(a, lits[k]) && Value(a.assigns, lits[k]) == LTrue && a.level[lits[k].v] <= level;
    assert VarOk(b, lits[k]) && Value(b.assigns, lits[k]) == LTrue && b.level[lits[k].v] <= level;
  }

  lemma EnqueueWatch(a: Asg, p: Lit, from: Ref, lits: seq<Lit>, q: Lit, bound: nat)
    requires TrailOk(a) && VarOk(a, p) && Value(a.assigns, p) == LUndef && bound <= |a.trail| && WatchKept(a, lits, q, bound)
    ensures WatchKept(Enqueued(a, p, from), lits, q, bound)
  {
    var b := Enqueued(a, p, from);
    if FalseBefore(b, q, bound) {
      assert q.v != p.v;
      EnqueueSat(a, p, from, lits, a.level[q.v]);
    }
  }

  lemma EnqueueProp(a: Asg, ca: seq<Clause>, p: Lit, from: Ref, bound: nat)
    requires TrailOk(a) && VarOk(a, p) && Value(a.assigns, p) == LUndef && bound <= |a.trail| && PropOk(a, ca, bound)
    ensures PropOk(Enqueued(a, p, from), ca, bound)
  {
    var b := Enqueued(a, p, from);
    forall cr: nat | Live(ca, cr) && |ca[cr].lits| >= 2
      ensures WatchKept(b, ca[cr].lits, ca[cr].lits[0], bound) && WatchKept(b, ca[cr].lits, ca[cr].lits[1], bound)
    {
      EnqueueWatch(a, p, from, ca[cr].lits, ca[cr].lits[0], bound);
      EnqueueWatch(a, p, from, ca[cr].lits, ca[cr].lits[1], bound);
    }
  }

  lemma EnqueueFixed(a: Asg, p: Lit, from: Ref, q: Lit)
    requires TrailOk(a) && VarOk(a, p) && Value(a.assigns, p) == LUndef
    ensures Fixed(Enqueued(a, p, from), q) <==> Fixed(a, q) || (q == p && |a.lim| == 0)
  {}

  lemma EnqueueSound(a: Asg, ca: seq<Clause>, f: seq<seq<Lit>>, p: Lit, from: Ref)
    requires TrailOk(a) && VarOk(a, p) && Value(a.assigns, p) == LUndef && Sound(a, ca, f)
    requires |a.lim| == 0 ==> EntailsLit(|a.assigns|, f, p)
    ensures Sound(Enqueued(a, p, from), ca, f)
  {
    var b := Enqueued(a, p, from);
    forall q ensures Fixed(b, q) <==> Fixed(a, q) || (q == p && |a.lim| == 0) {
      EnqueueFixed(a, p, from, q);
    }
  }

  lemma EnqueueCovered(a: Asg, ca: seq<Clause>, f: seq<seq<Lit>>, p: Lit, from: Ref)
    requires TrailOk(a) && VarOk(a, p) && Value(a.assigns, p) == LUndef && AllCovered(a, ca, f)
    ensures AllCovered(Enqueued(a, p, from), ca, f)
  {
    var b := Enqueued(a, p, from);
    forall q ensures Fixed(a, q) ==> Fixed(b, q) {
      EnqueueFixed(a, p, from, q);
    }
    forall i | 0 <= i < |f| ensures Covered(b, ca, f[i]) {
      CoveredMore(a, b, ca, f[i]);
    }
  }

  lemma CoveredMore(a: Asg, b: Asg, ca: seq<Clause>, lits: seq<Lit>)
    requires |a.level| == |a.assigns| && |b.level| == |b.assigns| && forall q :: Fixed(a, q) ==> Fixed(b, q)
    requires Covered(a, ca, lits)
    ensures Covered(b, ca, lits)
  {
    if k :| 0 <= k < |lits| && Fixed(a, lits[k]) {
      assert Fixed(b, lits[k]);
    }
  }

  lemma EnqueueInv(s: State, f: seq<seq<Lit>>, bound: nat, p: Lit, from: Ref)
    requires Inv(s, f, bound) && bound <= |s.a.trail| && VarOk(s.a, p) && Value(s.a.assigns, p) == LUndef
    requires from.NoRef? && |s.a.lim| > 0 ==> s.a.lim[|s.a.lim| - 1] == |s.a.trail|
    requires from.Ref? ==> Live(s.ca, from.cr) && |s.ca[from.cr].lits| >= 2 && s.ca[from.cr].lits[0] == p
    requires from.Ref? ==> forall k :: 1 <= k < |s.ca[from.cr].lits| ==> FalseBefore(s.a, s.ca[from.cr].lits[k], |s.a.trail|)
    requires |s.a.lim| == 0 ==> EntailsLit(|s.a.assigns|, f, p)
    ensures Inv(s.(a := Enqueued(s.a, p, from)), f, bound)
  {
    EnqueueTrail(s.a, p, from);
    EnqueueReasons(s.a, s.ca, p, from);
    EnqueueProp(s.a, s.ca, p, from, bound);
    EnqueueSound(s.a, s.ca, f, p, from);
    EnqueueCovered(s.a, s.ca, f, p, from);
  }

  /** Distinct variables: the trail is no longer than the number of variables. */
  lemma TrailBound(a: Asg)
    requires TrailOk(a)
    ensures |a.trail| <= |a.assigns|
    ensures |a.trail| == |a.assigns| ==> forall v :: 0 <= v < |a.assigns| ==> a.assigns[v] != LUndef
    ensures (exists v :: 0 <= v < |a.assigns| && a.assigns[v] == LUndef) ==> |a.trail| < |a.assigns|
  {
    TrailVars(a, |a.trail|);
    assert a.trail[..|a.trail|] == a.trail;
    var vars := VarsOf(a.trail);
    var allVars := Below(|a.assigns|);
    SubsetSize(vars, allVars);
    if v :| 0 <= v < |a.assigns| && a.assigns[v] == LUndef {
      forall i | 0 <= i < |a.trail| ensures a.trail[i].v != v {
        assert OnTrail(a, i);
      }
      NotInVarsOf(a.trail, v);
      SubsetSize(vars, allVars - {v});
    }
  }

  ghost function VarsOf(trail: seq<Lit>): (s: set<nat>) {
    if trail == [] then {} else VarsOf(trail[..|trail| - 1]) + {trail[|trail| - 1].v}
  }

  lemma {:induction false} NotInVarsOf(trail: seq<Lit>, v: nat)
    requires forall i :: 0 <= i < |trail| ==> trail[i].v != v
    ensures v !in VarsOf(trail)
  {
    if trail != [] {
      NotInVarsOf(trail[..|trail| - 1], v);
    }
  }

  lemma {:induction false} TrailVars(a: Asg, i: nat)
    requires TrailOk(a) && i <= |a.trail|
    ensures |VarsOf(a.trail[..i])| == i && VarsOf(a.trail[..i]) <= Below(|a.assigns|)
  {
    hide TrailOk;
    if i > 0 {
      TrailVars(a, i - 1);
      OncePerVariable(a, i - 1);
      assert a.trail[..i][..i - 1] == a.trail[..i - 1];
    }
  }

  lemma OncePerVariable(a: Asg, i: nat)
    requires TrailOk(a) && i < |a.trail|
    ensures a.trail[i].v < |a.assigns| && a.trail[i].v !in VarsOf(a.trail[..i])
  {
    assert OnTrail(a, i);
    forall j | 0 <= j < i ensures a.trail[j].v != a.trail[i].v {
      assert OnTrail(a, j);
    }
    NotInVarsOf(a.trail[..i], a.trail[i].v);
  }

  // ----- newDecisionLevel -----

  function NewLevel(a: Asg): Asg {
    a.(lim := a.lim + [|a.trail|])
  }

  lemma NewLevelInv(s: State, f: seq<seq<Lit>>, bound: nat)
    requires Inv(s, f, bound)
    ensures Inv(s.(a := NewLevel(s.a)), f, bound)
  {
    var a, b := s.a, NewLevel(s.a);
    forall i | 0 <= i < |b.trail| ensures OnTrail(b, i) && LevelOk(b, i) {
      assert OnTrail(a, i) && LevelOk(a, i);
    }
    assert TrailOk(b);
    forall i | 0 <= i < |b.trail|
      ensures OnTrail(b, i) && (b.reason[b.trail[i].v].Ref? ==> IsReason(b, s.ca, i, b.reason[b.trail[i].v].cr))
    {
      assert OnTrail(a, i);
      if a.reason[a.trail[i].v].Ref? {
        assert IsReason(a, s.ca, i, a.reason[a.trail[i].v].cr);
      }
    }
    SameValues(a, b, s.ca, f, bound);
  }

  /** Only values, levels and positions matter for propagation and soundness. */
  lemma SameValues(a: Asg, b: Asg, ca: seq<Clause>, f: seq<seq<Lit>>, bound: nat)
    requires |a.level| == |a.pos| == |a.assigns| && b.assigns == a.assigns && b.level == a.level && b.pos == a.pos
    requires PropOk(a, ca, bound) && Sound(a, ca, f) && AllCovered(a, ca, f)
    ensures PropOk(b, ca, bound) && Sound(b, ca, f) && AllCovered(b, ca, f)
  {
    forall cr: nat | Live(ca, cr) && |ca[cr].lits| >= 2
      ensures WatchKept(b, ca[cr].lits, ca[cr].lits[0], bound) && WatchKept(b, ca[cr].lits, ca[cr].lits[1], bound)
    {
      SameWatch(a, b, ca[cr].lits, ca[cr].lits[0], bound);
      SameWatch(a, b, ca[cr].lits, ca[cr].lits[1], bound);
    }
    forall q ensures Fixed(a, q) <==> Fixed(b, q) {}
    forall i | 0 <= i < |f| ensures Covered(b, ca, f[i]) {
      CoveredMore(a, b, ca, f[i]);
    }
  }

  lemma SameWatch(a: Asg, b: Asg, lits: seq<Lit>, q: Lit, bound: nat)
    requires |a.level| == |a.pos| == |a.assigns| && b.assigns == a.assigns && b.level == a.level && b.pos == a.pos
    requires WatchKept(a, lits, q, bound)
    ensures WatchKept(b, lits, q, bound)
  {
    if FalseBefore(b, q, bound) {
      var k :| 0 <= k < |lits| && VarOk(a, lits[k]) && Value(a.assigns, lits[k]) == LTrue && a.level[lits[k].v] <= a.level[q.v];
      assert VarOk(b, lits[k]);
    }
  }

  // ----- cancelUntil -----

  /** The variables of trail[from..] are unassigned. */
  function Cleared(assigns: seq<LBool>, trail: seq<Lit>, from: nat): (r: seq<LBool>)
    ensures |r| == |assigns|
    decreases |trail| - from
  {
    if from >= |trail| then assigns
    else
      var rest := Cleared(assigns, trail, from + 1);
      if trail[from].v < |rest| then rest[trail[from].v := LUndef] else rest
  }

  /** phase_saving: the sign of an unassigned literal is remembered, in mode 1 only on the last level. */
  function SavePhase(polarity: seq<bool>, trail: seq<Lit>, lim: seq<nat>, c: nat, mode: int): (r: seq<bool>)
    requires c < |trail|
    ensures |r| == |polarity|
  {
    if trail[c].v < |polarity| && (mode > 1 || (mode == 1 && |lim| > 0 && c > lim[|lim| - 1]))
    then polarity[trail[c].v := trail[c].sign] else polarity
  }

  function Phases(polarity: seq<bool>, trail: seq<Lit>, lim: seq<nat>, from: nat, mode: int): (r: seq<bool>)
    ensures |r| == |polarity|
    decreases |trail| - from
  {
    if from >= |trail| then polarity else SavePhase(Phases(polarity, trail, lim, from + 1, mode), trail, lim, from, mode)
  }

  function Cancelled(a: Asg, level: nat): Asg
    requires level < |a.lim| && a.lim[level] <= |a.trail|
  {
    a.(assigns := Cleared(a.assigns, a.trail, a.lim[level]), trail := a.trail[..a.lim[level]], lim := a.lim[..level])
  }

  lemma {:induction false} ClearedAt(assigns: seq<LBool>, trail: seq<Lit>, from: nat, v: nat)
    requires v < |assigns|
    ensures (exists i :: from <= i < |trail| && trail[i].v == v) ==> Cleared(assigns, trail, from)[v] == LUndef
    ensures (forall i :: from <= i < |trail| ==> trail[i].v != v) ==> Cleared(assigns, trail, from)[v] == assigns[v]
    decreases |trail| - from
  {
    if from < |trail| {
      ClearedAt(assigns, trail, from + 1, v);
    }
  }

  /** A variable keeps its value exactly if it stands before the cut. */
  lemma CancelValue(a: Asg, level: nat, q: Lit)
    requires TrailOk(a) && level < |a.lim| && VarOk(a, q)
    ensures var b := Cancelled(a, level);
            (Value(b.assigns, q) != LUndef <==> Value(a.assigns, q) != LUndef && a.pos[q.v] < a.lim[level]) &&
            (Value(b.assigns, q) != LUndef ==> Value(b.assigns, q) == Value(a.assigns, q))
  {
    var from := a.lim[level];
    ClearedAt(a.assigns, a.trail, from, q.v);
    if a.assigns[q.v] != LUndef {
      assert a.trail[a.pos[q.v]].v == q.v;
      forall i | from <= i < |a.trail| && a.trail[i].v == q.v ensures i == a.pos[q.v] {
        assert OnTrail(a, i);
      }
    } else {
      forall i | from <= i < |a.trail| ensures a.trail[i].v != q.v {
        assert OnTrail(a, i);
      }
    }
  }

  /** Whether backtracking remembers the sign of a literal at position `i`. */
  predicate Remembers(lim: seq<nat>, i: nat, mode: int) {
    mode > 1 || (mode == 1 && |lim| > 0 && i > lim[|lim| - 1])
  }

  /** Of the variables that lose their value from `a` to `b`, exactly those whose mode asks for it have
      their phase set, to the value they had; true stands for the negative phase. */
  ghost predicate PhasesSaved(a: Asg, b: Asg, before: seq<bool>, after: seq<bool>, mode: int) {
    && |a.pos| == |a.assigns| == |b.assigns| == |before| == |after|
    && forall v :: 0 <= v < |after| ==>
         after[v] == if a.assigns[v] != LUndef && b.assigns[v] == LUndef
                        && (mode > 1 || (mode == 1 && |a.lim| > 0 && a.pos[v] > a.lim[|a.lim| - 1]))
                     then a.assigns[v] == LFalse else before[v]
  }

  lemma {:induction false} PhaseKept(polarity: seq<bool>, trail: seq<Lit>, lim: seq<nat>, from: nat, mode: int, v: nat)
    requires v < |polarity| && forall i :: from <= i < |trail| && trail[i].v == v ==> !Remembers(lim, i, mode)
    ensures Phases(polarity, trail, lim, from, mode)[v] == polarity[v]
    decreases |trail| - from
  {
    if from < |trail| {
      PhaseKept(polarity, trail, lim, from + 1, mode, v);
      assert trail[from].v == v ==> !Remembers(lim, from, mode);
    }
  }

  lemma {:induction false} PhaseSet(polarity: seq<bool>, trail: seq<Lit>, lim: seq<nat>, from: nat, mode: int, i: nat)
    requires from <= i < |trail| && trail[i].v < |polarity| && Remembers(lim, i, mode)
    requires forall j :: from <= j < |trail| && trail[j].v == trail[i].v ==> j == i
    ensures Phases(polarity, trail, lim, from, mode)[trail[i].v] == trail[i].sign
    decreases |trail| - from
  {
    if from < i {
      PhaseSet(polarity, trail, lim, from + 1, mode, i);
      assert trail[from].v != trail[i].v;
    }
  }

  lemma CancelPhases(a: Asg, level: nat, polarity: seq<bool>, mode: int)
    requires TrailOk(a) && level < |a.lim| && |polarity| == |a.assigns|
    ensures PhasesSaved(a, Cancelled(a, level), polarity, Phases(polarity, a.trail, a.lim, a.lim[level], mode), mode)
  {
    var b, from := Cancelled(a, level), a.lim[level];
    forall v: nat | v < |polarity|
      ensures Phases(polarity, a.trail, a.lim, from, mode)[v] ==
              if a.assigns[v] != LUndef && b.assigns[v] == LUndef && Remembers(a.lim, a.pos[v], mode)
              then a.assigns[v] == LFalse else polarity[v]
    {
      forall i | 0 <= i < |a.trail| && a.trail[i].v == v ensures a.assigns[v] != LUndef && a.pos[v] == i {
        assert OnTrail(a, i);
      }
      CancelValue(a, level, Lit(v, false));
      if a.assigns[v] != LUndef && b.assigns[v] == LUndef && Remembers(a.lim, a.pos[v], mode) {
        assert OnTrail(a, a.pos[v]);
        PhaseSet(polarity, a.trail, a.lim, from, mode, a.pos[v]);
      } else {
        PhaseKept(polarity, a.trail, a.lim, from, mode, v);
      }
    }
  }

  /** Standing before the cut and having at most the level are the same. */
  lemma CutLevel(a: Asg, level: nat, q: Lit)
    requires TrailOk(a) && level < |a.lim| && VarOk(a, q) && Value(a.assigns, q) != LUndef
    ensures a.pos[q.v] < a.lim[level] <==> a.level[q.v] <= level
  {
    assert OnTrail(a, a.pos[q.v]) && LevelOk(a, a.pos[q.v]);
  }

  lemma CancelTrail(a: Asg, level: nat)
    requires TrailOk(a) && level < |a.lim|
    ensures TrailOk(Cancelled(a, level))
  {
    var b := Cancelled(a, level);
    forall i | 0 <= i < |b.trail| ensures OnTrail(b, i) && LevelOk(b, i) {
      assert OnTrail(a, i) && LevelOk(a, i);
      CancelValue(a, level, a.trail[i]);
      CutLevel(a, level, a.trail[i]);
    }
    forall v | 0 <= v < |b.assigns| && b.assigns[v] != LUndef ensures b.pos[v] < |b.trail| && b.trail[b.pos[v]].v == v {
      CancelValue(a, level, Lit(v, false));
    }
  }

  lemma CancelReasons(a: Asg, ca: seq<Clause>, level: nat)
    requires TrailOk(a) && level < |a.lim| && ReasonsOk(a, ca) && TrailOk(Cancelled(a, level))
    ensures ReasonsOk(Cancelled(a, level), ca)
  {
    var b := Cancelled(a, level);
    forall i | 0 <= i < |b.trail|
      ensures OnTrail(b, i) && (b.reason[b.trail[i].v].Ref? ==> IsReason(b, ca, i, b.reason[b.trail[i].v].cr))
    {
      assert OnTrail(a, i) && OnTrail(b, i);
      if a.reason[a.trail[i].v].Ref? {
        var cr := a.reason[a.trail[i].v].cr;
        assert IsReason(a, ca, i, cr);
        forall k | 1 <= k < |ca[cr].lits| ensures FalseBefore(b, ca[cr].lits[k], i) {
          CancelValue(a, level, ca[cr].lits[k]);
        }
      }
    }
  }

  lemma CancelWatch(a: Asg, level: nat, lits: seq<Lit>, q: Lit, bound: nat)
    requires TrailOk(a) && level < |a.lim| && a.lim[level] <= bound && WatchKept(a, lits, q, bound)
    ensures WatchKept(Cancelled(a, level), lits, q, a.lim[level])
  {
    var b := Cancelled(a, level);
    if FalseBefore(b, q, a.lim[level]) {
      CancelValue(a, level, q);
      CutLevel(a, level, q);
      var k :| 0 <= k < |lits| && VarOk(a, lits[k]) && Value(a.assigns, lits[k]) == LTrue && a.level[lits[k].v] <= a.level[q.v];
      CancelValue(a, level, lits[k]);
      CutLevel(a, level, lits[k]);
      assert VarOk(b, lits[k]);
    }
  }

  lemma CancelProp(a: Asg, ca: seq<Clause>, level: nat, bound: nat)
    requires TrailOk(a) && level < |a.lim| && a.lim[level] <= bound && PropOk(a, ca, bound)
    ensures PropOk(Cancelled(a, level), ca, a.lim[level])
  {
    var b := Cancelled(a, level);
    forall cr: nat | Live(ca, cr) && |ca[cr].lits| >= 2
      ensures WatchKept(b, ca[cr].lits, ca[cr].lits[0], a.lim[level]) && WatchKept(b, ca[cr].lits, ca[cr].lits[1], a.lim[level])
    {
      CancelWatch(a, level, ca[cr].lits, ca[cr].lits[0], bound);
      CancelWatch(a, level, ca[cr].lits, ca[cr].lits[1], bound);
    }
  }

  lemma CancelSound(a: Asg, ca: seq<Clause>, f: seq<seq<Lit>>, level: nat)
    requires TrailOk(a) && level < |a.lim| && Sound(a, ca, f) && AllCovered(a, ca, f)
    ensures Sound(Cancelled(a, level), ca, f) && AllCovered(Cancelled(a, level), ca, f)
  {
    var b := Cancelled(a, level);
    forall q ensures Fixed(b, q) <==> Fixed(a, q) {
      if VarOk(a, q) {
        CancelValue(a, level, q);
        if Value(a.assigns, q) != LUndef {
          CutLevel(a, level, q);
        }
      }
    }
    forall i | 0 <= i < |f| ensures Covered(b, ca, f[i]) {
      CoveredMore(a, b, ca, f[i]);
    }
  }

  /** Backtracking keeps the invariant; everything that is left has been propagated. */
  lemma CancelInv(s: State, f: seq<seq<Lit>>, level: nat, bound: nat)
    requires Inv(s, f, bound) && level < |s.a.lim| && s.a.lim[level] <= bound
    ensures Inv(s.(a := Cancelled(s.a, level)), f, s.a.lim[level])
  {
    CancelTrail(s.a, level);
    CancelReasons(s.a, s.ca, level);
    CancelProp(s.a, s.ca, level, bound);
    CancelSound(s.a, s.ca, f, level);
  }
}
