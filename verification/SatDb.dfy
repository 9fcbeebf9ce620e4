/** Adding, learning and removing clauses, and cleaning the watch lists
    (memin/minisat/core/Solver.cpp, SolverTypes.h). */
module SatDb {
  import opened SatState
  import opened SatTrail
  import opened SatWatch

  // ----- attachClause -----

  function Push(watches: Watches, p: Lit, w: Watcher): Watches
    requires p in watches
  {
    watches[p := watches[p] + [w]]
  }

  /** The clause is allocated and watched by the negations of its first two literals. */
  function Attached(s: State, c: Clause): State
    requires |c.lits| >= 2 && Not(c.lits[0]) in s.watches && Not(c.lits[1]) in s.watches
  {
    s.(ca := s.ca + [c],
       watches := Push(Push(s.watches, Not(c.lits[0]), Watcher(|s.ca|, c.lits[1])), Not(c.lits[1]), Watcher(|s.ca|, c.lits[0])))
  }

  ghost predicate NewClause(n: nat, c: Clause) {
    GoodLits(n, c.lits) && c.mark == 0 && !c.reloced
  }

  lemma PushListOk(ca: seq<Clause>, c: Clause, p: Lit, ws: seq<Watcher>, w: Watcher, dirty: set<Lit>)
    requires ListOk(ca, p, ws, dirty) && w.cref == |ca| && c.mark == 0 && Watching(c, p) && w.blocker in c.lits
    ensures ListOk(ca + [c], p, ws + [w], dirty)
  {
    forall i | 0 <= i < |ws| ensures WatcherOk(ca + [c], p, ws[i], dirty) && ws[i].cref < |ca| {
      assert WatcherOk(ca, p, ws[i], dirty);
    }
  }

  lemma PushLists(watches: Watches, p: Lit, w: Watcher)
    requires p in watches
    ensures forall q, c: nat :: q in watches && Lists(watches[q], c) ==> Lists(Push(watches, p, w)[q], c)
    ensures Lists(Push(watches, p, w)[p], w.cref)
  {
    var watches2: Watches := Push(watches, p, w);
    assert watches2[p][|watches[p]|].cref == w.cref;
    forall q, c: nat | q in watches && Lists(watches[q], c) ensures Lists(watches2[q], c) {
      var i :| 0 <= i < |watches[q]| && watches[q][i].cref == c;
      assert watches2[q][i].cref == c;
    }
  }

  lemma AttachWatches(n: nat, s: State, c: Clause)
    requires WatchesOk(n, s.ca, s.watches, s.dirty) && NewClause(n, c)
    ensures Not(c.lits[0]) in s.watches && Not(c.lits[1]) in s.watches
    ensures WatchesOk(n, Attached(s, c).ca, Attached(s, c).watches, s.dirty)
  {
    var s2 := Attached(s, c);
    var p0, p1, w0, w1 := Not(c.lits[0]), Not(c.lits[1]), Watcher(|s.ca|, c.lits[1]), Watcher(|s.ca|, c.lits[0]);
    assert p0.v != p1.v;
    var mid: Watches := Push(s.watches, p0, w0);
    PushLists(s.watches, p0, w0);
    PushLists(mid, p1, w1);
    forall p | p in s2.watches ensures ListOk(s2.ca, p, s2.watches[p], s.dirty) {
      assert ListOk(s.ca, p, s.watches[p], s.dirty);
      if p == p0 {
        PushListOk(s.ca, c, p, s.watches[p], w0, s.dirty);
      } else if p == p1 {
        PushListOk(s.ca, c, p, s.watches[p], w1, s.dirty);
      } else {
        forall i | 0 <= i < |s.watches[p]| ensures WatcherOk(s2.ca, p, s.watches[p][i], s.dirty) {
          assert WatcherOk(s.ca, p, s.watches[p][i], s.dirty);
        }
      }
    }
    forall cr: nat | Live(s2.ca, cr) ensures Watched(s2.ca, s2.watches, cr) {
      if cr < |s.ca| {
        assert Live(s.ca, cr) && Watched(s.ca, s.watches, cr);
      } else {
        assert Lists(mid[p0], cr) && Lists(s2.watches[p0], cr) && Lists(s2.watches[p1], cr);
      }
    }
  }

  lemma AttachReasons(a: Asg, ca: seq<Clause>, c: Clause)
    requires TrailOk(a) && ReasonsOk(a, ca)
    ensures ReasonsOk(a, ca + [c])
  {
    forall i | 0 <= i < |a.trail|
      ensures OnTrail(a, i) && (a.reason[a.trail[i].v].Ref? ==> IsReason(a, ca + [c], i, a.reason[a.trail[i].v].cr))
    {
      assert OnTrail(a, i);
      if a.reason[a.trail[i].v].Ref? {
        assert IsReason(a, ca, i, a.reason[a.trail[i].v].cr);
      }
    }
  }

  lemma AttachSound(a: Asg, ca: seq<Clause>, f: seq<seq<Lit>>, c: Clause)
    requires |a.level| == |a.assigns| && Sound(a, ca, f) && Entails(|a.assigns|, f, c.lits)
    ensures Sound(a, ca + [c], f)
  {
    var ca2 := ca + [c];
    forall cr: nat | Live(ca2, cr) ensures Entails(|a.assigns|, f, ca2[cr].lits) {
      if cr < |ca| {
        assert Live(ca, cr);
      }
    }
  }

  lemma AttachCovered(a: Asg, ca: seq<Clause>, f: seq<seq<Lit>>, c: Clause)
    requires |a.level| == |a.assigns| && AllCovered(a, ca, f)
    ensures AllCovered(a, ca + [c], f)
  {
    var ca2 := ca + [c];
    forall i | 0 <= i < |f| ensures Covered(a, ca2, f[i]) {
      if cr: nat :| Represents(ca, cr, f[i]) {
        assert Represents(ca2, cr, f[i]);
      }
    }
  }

  /** Everything but propagation survives attaching an entailed clause. */
  lemma AttachInv0(s: State, f: seq<seq<Lit>>, bound: nat, c: Clause)
    requires Inv(s, f, bound) && NewClause(|s.a.assigns|, c) && Entails(|s.a.assigns|, f, c.lits)
    ensures Not(c.lits[0]) in s.watches && Not(c.lits[1]) in s.watches && Inv(Attached(s, c), f, 0)
  {
    hide TrailOk, ReasonsOk, WatchesOk, Sound, AllCovered, Entails, Push;
    RootTables(s.a);
    AttachWatches(|s.a.assigns|, s, c);
    AttachReasons(s.a, s.ca, c);
    AttachSound(s.a, s.ca, f, c);
    AttachCovered(s.a, s.ca, f, c);
    AttachDb(|s.a.assigns|, s.ca, c);
  }

  lemma AttachProp(a: Asg, ca: seq<Clause>, bound: nat, c: Clause)
    requires |a.level| == |a.pos| == |a.assigns| && PropOk(a, ca, bound) && |c.lits| >= 2
    requires WatchKept(a, c.lits, c.lits[0], bound) && WatchKept(a, c.lits, c.lits[1], bound)
    ensures PropOk(a, ca + [c], bound)
  {
    var ca2 := ca + [c];
    forall cr: nat | Live(ca2, cr) && |ca2[cr].lits| >= 2
      ensures WatchKept(a, ca2[cr].lits, ca2[cr].lits[0], bound) && WatchKept(a, ca2[cr].lits, ca2[cr].lits[1], bound)
    {
      if cr < |ca| {
        assert Live(ca, cr);
      }
    }
  }

  /** A learnt clause: its first literal is unassigned, the others are false, the second one at the
      current level; attaching it and enqueueing the first literal restores the invariant. */
  ghost predicate Asserting(a: Asg, lits: seq<Lit>) {
    && |lits| >= 2 && |a.level| == |a.pos| == |a.assigns| && VarOk(a, lits[0]) && Value(a.assigns, lits[0]) == LUndef
    && (forall k :: 1 <= k < |lits| ==> FalseBefore(a, lits[k], |a.trail|))
    && a.level[lits[1].v] == |a.lim|
  }

  lemma LearnInv(s: State, f: seq<seq<Lit>>, bound: nat, c: Clause)
    requires Inv(s, f, bound) && bound <= |s.a.trail| && NewClause(|s.a.assigns|, c) && Entails(|s.a.assigns|, f, c.lits)
    requires Asserting(s.a, c.lits) && |s.a.lim| > 0
    ensures Not(c.lits[0]) in s.watches && Not(c.lits[1]) in s.watches
    ensures Inv(Attached(s, c).(a := Enqueued(s.a, c.lits[0], Ref(|s.ca|))), f, bound)
  {
    AttachInv0(s, f, bound, c);
    var s1, p, from := Attached(s, c), c.lits[0], Ref(|s.ca|);
    EnqueueInv(s1, f, 0, p, from);
    var b := Enqueued(s.a, p, from);
    EnqueueProp(s.a, s.ca, p, from, bound);
    assert VarOk(b, c.lits[0]) && Value(b.assigns, c.lits[0]) == LTrue && b.level[c.lits[0].v] <= |b.lim|;
    EnqueueKeeps(s.a, p, from, c.lits[1]);
    AttachProp(b, s.ca, bound, c);
  }

  // ----- more clauses -----

  /** An added clause that needs nothing: a literal is fixed, or it is trivial. */
  lemma GrowFormula(s: State, f: seq<seq<Lit>>, bound: nat, lits: seq<Lit>)
    requires Inv(s, f, bound) && Covered(s.a, s.ca, lits)
    ensures Inv(s, f + [lits], bound)
  {
    SoundMore(s.a, s.ca, f, lits);
    forall i | 0 <= i < |f + [lits]| ensures Covered(s.a, s.ca, (f + [lits])[i]) {}
  }

  /** What is left of an added clause once literals false at level 0 are dropped. */
  ghost predicate Reduces(a: Asg, lits: seq<Lit>, rest: seq<Lit>)
    requires |a.level| == |a.assigns|
  {
    && (forall k :: 0 <= k < |rest| ==> rest[k] in lits)
    && (forall k :: 0 <= k < |lits| ==> lits[k] in rest || Fixed(a, Not(lits[k])))
  }

  lemma ReducedEntailed(a: Asg, ca: seq<Clause>, f: seq<seq<Lit>>, lits: seq<Lit>, rest: seq<Lit>)
    requires |a.level| == |a.assigns| && Sound(a, ca, f) && Reduces(a, lits, rest)
    ensures Entails(|a.assigns|, f + [lits], rest)
  {
    SoundMore(a, ca, f, lits);
    forall m | Models(m, |a.assigns|, f + [lits]) ensures Holds(m, rest) {
      assert (f + [lits])[|f|] == lits;
      var k :| 0 <= k < |lits| && LitHolds(m, lits[k]);
      var j :| 0 <= j < |rest| && rest[j] == lits[k];
    }
  }

  /** Nothing is left: the clauses are unsatisfiable. */
  lemma AddEmpty(a: Asg, ca: seq<Clause>, f: seq<seq<Lit>>, lits: seq<Lit>)
    requires |a.level| == |a.assigns| && Sound(a, ca, f) && Reduces(a, lits, [])
    ensures forall m :: !Models(m, |a.assigns|, f + [lits])
  {
    ReducedEntailed(a, ca, f, lits, []);
    forall m ensures !Models(m, |a.assigns|, f + [lits]) {
      assert !Holds(m, []);
    }
  }

  /** One literal is left: it is enqueued at level 0. */
  lemma AddUnit(s: State, f: seq<seq<Lit>>, bound: nat, lits: seq<Lit>, p: Lit)
    requires Inv(s, f, bound) && bound <= |s.a.trail| && |s.a.lim| == 0 && Reduces(s.a, lits, [p])
    requires VarOk(s.a, p) && Value(s.a.assigns, p) == LUndef
    ensures Inv(s.(a := Enqueued(s.a, p, NoRef)), f + [lits], bound)
  {
    var f2, n := f + [lits], |s.a.assigns|;
    ReducedEntailed(s.a, s.ca, f, lits, [p]);
    forall m | Models(m, n, f2) ensures LitHolds(m, p) {
      assert Entails(n, f2, [p]);
    }
    SoundMore(s.a, s.ca, f, lits);
    EnqueueTrail(s.a, p, NoRef);
    EnqueueReasons(s.a, s.ca, p, NoRef);
    EnqueueProp(s.a, s.ca, p, NoRef, bound);
    EnqueueSound(s.a, s.ca, f2, p, NoRef);
    EnqueueCovered(s.a, s.ca, f, p, NoRef);
    var b := Enqueued(s.a, p, NoRef);
    assert [p][0] in lits;
    assert Fixed(b, p);
    assert Covered(b, s.ca, lits);
    forall i | 0 <= i < |f2| ensures Covered(b, s.ca, f2[i]) {}
  }

  /** Two or more literals are left: a problem clause is attached. */
  lemma AddAttached(s: State, f: seq<seq<Lit>>, bound: nat, lits: seq<Lit>, c: Clause)
    requires Inv(s, f, bound) && NewClause(|s.a.assigns|, c) && !c.learnt && Reduces(s.a, lits, c.lits)
    requires Value(s.a.assigns, c.lits[0]) != LFalse && Value(s.a.assigns, c.lits[1]) != LFalse
    ensures Not(c.lits[0]) in s.watches && Not(c.lits[1]) in s.watches && Inv(Attached(s, c), f + [lits], bound)
  {
    hide TrailOk, ReasonsOk, WatchesOk, PropOk, Sound, AllCovered, Entails, Reduces, Push;
    RootTables(s.a);
    var f2, n, ca2 := f + [lits], |s.a.assigns|, s.ca + [c];
    ReducedEntailed(s.a, s.ca, f, lits, c.lits);
    SoundMore(s.a, s.ca, f, lits);
    AttachWatches(n, s, c);
    AttachReasons(s.a, s.ca, c);
    AttachSound(s.a, s.ca, f2, c);
    AttachCovered(s.a, s.ca, f, c);
    AttachProp(s.a, s.ca, bound, c);
    AttachDb(n, s.ca, c);
    AddedCovered(s.a, s.ca, f, lits, c);
  }

  lemma AttachDb(n: nat, ca: seq<Clause>, c: Clause)
    requires DbOk(n, ca) && NewClause(n, c)
    ensures DbOk(n, ca + [c])
  {}

  lemma AddedCovered(a: Asg, ca: seq<Clause>, f: seq<seq<Lit>>, lits: seq<Lit>, c: Clause)
    requires |a.level| == |a.assigns| && AllCovered(a, ca + [c], f) && NewClause(|a.assigns|, c) && !c.learnt && Reduces(a, lits, c.lits)
    ensures AllCovered(a, ca + [c], f + [lits])
  {
    var ca2, f2 := ca + [c], f + [lits];
    assert Represents(ca2, |ca|, lits);
    forall i | 0 <= i < |f2| ensures Covered(a, ca2, f2[i]) {}
  }

  lemma SoundMore(a: Asg, ca: seq<Clause>, f: seq<seq<Lit>>, lits: seq<Lit>)
    requires |a.level| == |a.assigns| && Sound(a, ca, f)
    ensures Sound(a, ca, f + [lits])
  {
    forall m | Models(m, |a.assigns|, f + [lits]) ensures Models(m, |a.assigns|, f) {
      forall i | 0 <= i < |f| ensures Holds(m, f[i]) {
        assert Holds(m, (f + [lits])[i]);
      }
    }
    forall cr: nat | Live(ca, cr) ensures Entails(|a.assigns|, f + [lits], ca[cr].lits) {
      assert Entails(|a.assigns|, f, ca[cr].lits);
    }
    forall p | Fixed(a, p) ensures EntailsLit(|a.assigns|, f + [lits], p) {
      assert EntailsLit(|a.assigns|, f, p);
    }
  }

  // ----- removeClause -----

  predicate Locked(a: Asg, ca: seq<Clause>, cr: nat)
    requires cr < |ca| && |ca[cr].lits| >= 1 && ca[cr].lits[0].v < |a.assigns| == |a.reason|
  {
    Value(a.assigns, ca[cr].lits[0]) == LTrue && a.reason[ca[cr].lits[0].v] == Ref(cr)
  }

  function Removed(s: State, cr: nat): State
    requires cr < |s.ca| && |s.ca[cr].lits| >= 2 && s.ca[cr].lits[0].v < |s.a.assigns| == |s.a.reason|
  {
    var lits := s.ca[cr].lits;
    State(if Locked(s.a, s.ca, cr) then s.a.(reason := s.a.reason[lits[0].v := NoRef]) else s.a,
          s.ca[cr := s.ca[cr].(mark := 1)], s.watches, s.dirty + {Not(lits[0]), Not(lits[1])})
  }

  ghost predicate MayRemove(s: State, cr: nat)
    requires TrailOk(s.a)
  {
    && Live(s.ca, cr) && GoodLits(|s.a.assigns|, s.ca[cr].lits)
    && (Locked(s.a, s.ca, cr) ==> |s.a.lim| == 0)
    && (s.ca[cr].learnt || exists k :: 0 <= k < |s.ca[cr].lits| && Fixed(s.a, s.ca[cr].lits[k]))
  }

  lemma RemoveTrail(s: State, cr: nat)
    requires TrailOk(s.a) && MayRemove(s, cr) && ReasonsOk(s.a, s.ca)
    ensures TrailOk(Removed(s, cr).a) && ReasonsOk(Removed(s, cr).a, Removed(s, cr).ca)
  {
    var a, s2 := s.a, Removed(s, cr);
    var b := s2.a;
    forall i | 0 <= i < |b.trail| ensures OnTrail(b, i) && LevelOk(b, i) {
      assert OnTrail(a, i) && LevelOk(a, i);
    }
    forall i | 0 <= i < |b.trail|
      ensures OnTrail(b, i) && (b.reason[b.trail[i].v].Ref? ==> IsReason(b, s2.ca, i, b.reason[b.trail[i].v].cr))
    {
      assert OnTrail(a, i) && OnTrail(b, i);
      if b.reason[b.trail[i].v].Ref? {
        assert IsReason(a, s.ca, i, a.reason[a.trail[i].v].cr);
        assert a.reason[a.trail[i].v].cr != cr;
      }
    }
  }

  lemma RemoveWatches(n: nat, s: State, cr: nat)
    requires WatchesOk(n, s.ca, s.watches, s.dirty) && Live(s.ca, cr) && |s.ca[cr].lits| >= 2
    ensures WatchesOk(n, s.ca[cr := s.ca[cr].(mark := 1)], s.watches, s.dirty + {Not(s.ca[cr].lits[0]), Not(s.ca[cr].lits[1])})
  {
    var ca2, dirty2 := s.ca[cr := s.ca[cr].(mark := 1)], s.dirty + {Not(s.ca[cr].lits[0]), Not(s.ca[cr].lits[1])};
    forall p | p in s.watches ensures ListOk(ca2, p, s.watches[p], dirty2) {
      assert ListOk(s.ca, p, s.watches[p], s.dirty);
      forall i | 0 <= i < |s.watches[p]| ensures WatcherOk(ca2, p, s.watches[p][i], dirty2) {
        assert WatcherOk(s.ca, p, s.watches[p][i], s.dirty);
      }
    }
    forall c: nat | Live(ca2, c) ensures Watched(ca2, s.watches, c) {
      assert Watched(s.ca, s.watches, c);
    }
  }

  lemma RemoveSound(s: State, f: seq<seq<Lit>>, cr: nat)
    requires TrailOk(s.a) && MayRemove(s, cr) && Sound(s.a, s.ca, f) && AllCovered(s.a, s.ca, f)
    ensures Sound(s.a, s.ca[cr := s.ca[cr].(mark := 1)], f) && AllCovered(s.a, s.ca[cr := s.ca[cr].(mark := 1)], f)
  {
    var ca2 := s.ca[cr := s.ca[cr].(mark := 1)];
    forall i | 0 <= i < |f| ensures Covered(s.a, ca2, f[i]) {
      assert Covered(s.a, s.ca, f[i]);
      if c: nat :| Represents(s.ca, c, f[i]) {
        if c == cr {
          var k :| 0 <= k < |s.ca[cr].lits| && Fixed(s.a, s.ca[cr].lits[k]);
          var l :| 0 <= l < |f[i]| && f[i][l] == s.ca[cr].lits[k];
          assert Fixed(s.a, f[i][l]);
        } else {
          assert Represents(ca2, c, f[i]);
        }
      }
    }
  }

  lemma RemoveInv(s: State, f: seq<seq<Lit>>, bound: nat, cr: nat)
    requires Inv(s, f, bound) && MayRemove(s, cr)
    ensures Inv(Removed(s, cr), f, bound)
  {
    var s2 := Removed(s, cr);
    RemoveTrail(s, cr);
    RemoveWatches(|s.a.assigns|, s, cr);
    RemoveSound(s, f, cr);
    var ca2 := s.ca[cr := s.ca[cr].(mark := 1)];
    assert PropOk(s.a, ca2, bound) by {
      forall c: nat | Live(ca2, c) && |ca2[c].lits| >= 2
        ensures WatchKept(s.a, ca2[c].lits, ca2[c].lits[0], bound) && WatchKept(s.a, ca2[c].lits, ca2[c].lits[1], bound)
      {
        assert Live(s.ca, c);
      }
    }
    SameValues(s.a, s2.a, ca2, f, bound);
  }

  // ----- cleaning the watch lists -----

  function LiveOnly(ca: seq<Clause>, ws: seq<Watcher>): seq<Watcher> {
    if ws == [] then [] else
      LiveOnly(ca, ws[..|ws| - 1]) + if Live(ca, ws[|ws| - 1].cref) then [ws[|ws| - 1]] else []
  }

  lemma {:induction false} LiveOnlyOk(ca: seq<Clause>, p: Lit, ws: seq<Watcher>, dirty: set<Lit>, dirty2: set<Lit>)
    requires ListOk(ca, p, ws, dirty)
    ensures ListOk(ca, p, LiveOnly(ca, ws), dirty2)
    ensures forall w :: w in LiveOnly(ca, ws) <==> w in ws && Live(ca, w.cref)
  {
    if ws != [] {
      var front, last := ws[..|ws| - 1], ws[|ws| - 1];
      assert ws == front + [last];
      assert ListOk(ca, p, front, dirty);
      LiveOnlyOk(ca, p, front, dirty, dirty2);
      assert WatcherOk(ca, p, ws[|ws| - 1], dirty);
      forall i | 0 <= i < |LiveOnly(ca, front)| ensures LiveOnly(ca, front)[i].cref != last.cref {
        assert LiveOnly(ca, front)[i] in front;
      }
    }
  }

  /** One list has been cleaned. */
  lemma CleanStep(n: nat, ca: seq<Clause>, watches: Watches, dirty: set<Lit>, p: Lit)
    requires WatchesOk(n, ca, watches, dirty) && p in watches
    ensures WatchesOk(n, ca, watches[p := LiveOnly(ca, watches[p])], dirty - {p})
  {
    var watches2: Watches := watches[p := LiveOnly(ca, watches[p])];
    assert ListOk(ca, p, watches[p], dirty);
    LiveOnlyOk(ca, p, watches[p], dirty, dirty - {p});
    forall q | q in watches2 ensures ListOk(ca, q, watches2[q], dirty - {p}) {
      assert ListOk(ca, q, watches[q], dirty);
      if q != p {
        forall i | 0 <= i < |watches2[q]| ensures WatcherOk(ca, q, watches2[q][i], dirty - {p}) {
          assert WatcherOk(ca, q, watches[q][i], dirty);
        }
      }
    }
    forall c: nat | Live(ca, c) ensures Watched(ca, watches2, c) {
      assert Watched(ca, watches, c);
      CleanedLists(ca, watches, p, c);
    }
  }

  /** The lists that were dirty and no longer are have lost the watchers of removed clauses, no more. */
  ghost predicate AllCleaned(ca: seq<Clause>, before: Watches, dirty0: set<Lit>, dirty: set<Lit>, watches: Watches) {
    forall p :: (p in watches <==> p in before) &&
                (p in watches ==> watches[p] == if p in dirty0 && p !in dirty then LiveOnly(ca, before[p]) else before[p])
  }

  lemma CleanedLists(ca: seq<Clause>, watches: Watches, p: Lit, c: nat)
    requires p in watches && Live(ca, c) && forall w :: w in LiveOnly(ca, watches[p]) <==> w in watches[p] && Live(ca, w.cref)
    ensures forall q :: q in watches && Lists(watches[q], c) ==> Lists(watches[p := LiveOnly(ca, watches[p])][q], c)
  {
    var watches2: Watches := watches[p := LiveOnly(ca, watches[p])];
    forall q | q in watches && Lists(watches[q], c) ensures Lists(watches2[q], c) {
      var i :| 0 <= i < |watches[q]| && watches[q][i].cref == c;
      if q == p {
        assert watches[q][i] in watches2[q];
        var j :| 0 <= j < |watches2[q]| && watches2[q][j] == watches[q][i];
      } else {
        assert watches2[q][i].cref == c;
      }
    }
  }

  // ----- the lists of problem and learnt clauses -----

  ghost predicate Enumerates(ca: seq<Clause>, cs: seq<nat>, learnt: bool) {
    && (forall i, j :: 0 <= i < j < |cs| ==> cs[i] != cs[j])
    && (forall cr: nat :: cr in cs <==> Live(ca, cr) && ca[cr].learnt == learnt)
  }

  /** A conflict at level 0: the added clauses are unsatisfiable. */
  lemma RootConflict(s: State, f: seq<seq<Lit>>, bound: nat, cr: nat)
    requires Inv(s, f, bound) && |s.a.lim| == 0 && Live(s.ca, cr)
    requires forall k :: 0 <= k < |s.ca[cr].lits| ==> VarOk(s.a, s.ca[cr].lits[k]) && Value(s.a.assigns, s.ca[cr].lits[k]) == LFalse
    ensures forall m :: !Models(m, |s.a.assigns|, f)
  {
    var n, lits := |s.a.assigns|, s.ca[cr].lits;
    forall m ensures !Models(m, n, f) {
      if Models(m, n, f) {
        assert Entails(n, f, lits);
        var k :| 0 <= k < |lits| && LitHolds(m, lits[k]);
        assert OnTrail(s.a, s.a.pos[lits[k].v]) && LevelOk(s.a, s.a.pos[lits[k].v]);
        assert Fixed(s.a, Not(lits[k]));
      }
    }
  }

  predicate VarsBelow(lits: seq<Lit>, n: nat) {
    forall k :: 0 <= k < |lits| ==> lits[k].v < n
  }

  /** A full assignment that has been propagated satisfies every added clause. */
  lemma FullModel(s: State, f: seq<seq<Lit>>, m: seq<bool>)
    requires Inv(s, f, |s.a.trail|) && |m| == |s.a.assigns| && forall i :: 0 <= i < |f| ==> VarsBelow(f[i], |m|)
    requires forall v :: 0 <= v < |m| ==> s.a.assigns[v] == if m[v] then LTrue else LFalse
    ensures Models(m, |s.a.assigns|, f)
  {
    forall i | 0 <= i < |f| ensures Holds(m, f[i]) {
      assert Covered(s.a, s.ca, f[i]);
      if k :| 0 <= k < |f[i]| && Fixed(s.a, f[i][k]) {
        assert LitHolds(m, f[i][k]);
      } else if cr: nat :| Represents(s.ca, cr, f[i]) {
        FullClause(s, f, m, cr);
        HoldsIn(m, s.ca[cr].lits, f[i]);
      } else {
        var k, l :| 0 <= k < |f[i]| && 0 <= l < |f[i]| && f[i][l] == Not(f[i][k]);
        assert VarsBelow(f[i], |m|);
        assert LitHolds(m, f[i][k]) || LitHolds(m, f[i][l]);
      }
    }
  }

  lemma FullClause(s: State, f: seq<seq<Lit>>, m: seq<bool>, cr: nat)
    requires Inv(s, f, |s.a.trail|) && |m| == |s.a.assigns| && Live(s.ca, cr)
    requires forall v :: 0 <= v < |m| ==> s.a.assigns[v] == if m[v] then LTrue else LFalse
    ensures Holds(m, s.ca[cr].lits)
  {
    var lits := s.ca[cr].lits;
    assert GoodLits(|s.a.assigns|, lits);
    assert WatchKept(s.a, lits, lits[0], |s.a.trail|);
    if Value(s.a.assigns, lits[0]) == LFalse {
      assert FalseBefore(s.a, lits[0], |s.a.trail|);
      var k :| 0 <= k < |lits| && VarOk(s.a, lits[k]) && Value(s.a.assigns, lits[k]) == LTrue && s.a.level[lits[k].v] <= s.a.level[lits[0].v];
      assert LitHolds(m, lits[k]);
    } else {
      assert LitHolds(m, lits[0]);
    }
  }
}
