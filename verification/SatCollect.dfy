/** The stages of relocAll (memin/minisat/core/Solver.cpp). */
module SatCollect {
  import opened SatState
  import opened SatTrail
  import opened SatWatch
  import opened SatDb
  import opened SatGc
  import opened SatWhole

  /** How far each group of references has been rewritten. */
  datatype Stage = Stage(watches: nat, reasons: nat, learnts: nat, clauses: nat)

  /** `x` is the state before; the fields now. */
  ghost predicate Progress(x: Snapshot, y: Snapshot, to: seq<Clause>, mv: Moves, st: Stage)
  {
    && TrailOk(x.s.a) && y == x.(s := State(x.s.a.(reason := y.s.a.reason), y.s.ca, y.s.watches, x.s.dirty), learnts := y.learnts, clauses := y.clauses)
    && Moving(x.s.ca, y.s.ca, to, mv)
    && WatchesMoved(x.s.watches, y.s.watches, mv, st.watches) && ReasonsMoved(x.s.a, y.s.a.reason, mv, st.reasons)
    && RefsMoved(x.learnts, y.learnts, mv, st.learnts) && RefsMoved(x.clauses, y.clauses, mv, st.clauses)
  }

  lemma ProgressBegins(x: Snapshot, bound: nat)
    requires Whole(x, bound)
    ensures Progress(x, x, [], Moves(map[], []), Stage(0, 0, 0, 0))
  {
    forall i | 0 <= i < |x.s.a.trail| ensures ReasonMoved(x.s.a, x.s.a.reason, Moves(map[], []), i, 0) {
      assert OnTrail(x.s.a, i);
    }
  }

  /** Clauses that a reference may name. */
  ghost predicate Movable(x: Snapshot, cr: nat) {
    Live(x.s.ca, cr) && |x.s.ca[cr].lits| >= 2 && !x.s.ca[cr].reloced
  }

  lemma ProgressBounds(x: Snapshot, y: Snapshot, to: seq<Clause>, mv: Moves, st: Stage, cr: nat)
    requires Progress(x, y, to, mv, st) && Movable(x, cr)
    ensures cr < |y.s.ca| && |y.s.ca[cr].lits| >= 1 && (y.s.ca[cr].reloced ==> cr in mv.fwd && Relocation(y.s.ca[cr]) == mv.fwd[cr])
  {
    assert cr in mv.fwd ==> MovedTo(x.s.ca, y.s.ca, to, mv, cr);
    if y.s.ca[cr].reloced {
      MoveOld(x.s.ca, y.s.ca, to, mv, cr);
    }
  }

  lemma ProgressNew(x: Snapshot, y: Snapshot, to: seq<Clause>, mv: Moves, st: Stage, cr: nat)
    requires Progress(x, y, to, mv, st) && Movable(x, cr) && cr < |y.s.ca| && !y.s.ca[cr].reloced && |y.s.ca[cr].lits| >= 1
    ensures Progress(x, y.(s := y.s.(ca := y.s.ca[cr := Forward(y.s.ca[cr], |to|)])), to + [Copied(y.s.ca[cr])], AddMove(mv, cr, |to|), st)
    ensures Later(mv, AddMove(mv, cr, |to|))
  {
    MoveNew(x.s.ca, y.s.ca, to, mv, cr);
    LaterMoved(mv, AddMove(mv, cr, |to|), x.s.a, y.s.a.reason, st.reasons, x.s.watches, y.s.watches, st.watches);
  }

  lemma ListLater(before: seq<Watcher>, after: seq<Watcher>, mv: Moves, mv2: Moves, j: nat)
    requires ListMoved(before, after, mv, j) && Later(mv, mv2)
    ensures ListMoved(before, after, mv2, j)
  {}

  lemma RefsLater(before: seq<nat>, after: seq<nat>, mv: Moves, mv2: Moves, j: nat)
    requires RefsMoved(before, after, mv, j) && Later(mv, mv2)
    ensures RefsMoved(before, after, mv2, j)
  {}

  /** The watcher to rewrite next. */
  lemma ListRef(x: Snapshot, bound: nat, y: Snapshot, to: seq<Clause>, mv: Moves, st: Stage, p: Lit, ws: seq<Watcher>, j: nat)
    requires Whole(x, bound) && x.s.dirty == {} && Progress(x, y, to, mv, st) && p in x.s.watches
    requires ListMoved(x.s.watches[p], ws, mv, j) && j < |ws|
    ensures ws[j] == x.s.watches[p][j] && Movable(x, ws[j].cref)
  {
    assert ListOk(x.s.ca, p, x.s.watches[p], {});
    assert WatcherOk(x.s.ca, p, x.s.watches[p][j], {});
    assert GoodLits(NumVars(x), x.s.ca[ws[j].cref].lits);
  }

  lemma ListStart(x: Snapshot, y: Snapshot, to: seq<Clause>, mv: Moves, st: Stage, p: Lit)
    requires Progress(x, y, to, mv, st) && p in x.s.watches && ToInt(p) == st.watches
    ensures p in y.s.watches && ListMoved(x.s.watches[p], y.s.watches[p], mv, 0) && |y.s.watches[p]| == |x.s.watches[p]|
  {}

  lemma ListDone(x: Snapshot, y: Snapshot, to: seq<Clause>, mv: Moves, st: Stage, p: Lit, ws: seq<Watcher>)
    requires Progress(x, y, to, mv, st) && p in x.s.watches && ToInt(p) == st.watches && ListMoved(x.s.watches[p], ws, mv, |ws|)
    ensures Progress(x, y.(s := y.s.(watches := y.s.watches[p := ws])), to, mv, st.(watches := st.watches + 1))
  {
    var watches2: Watches := y.s.watches[p := ws];
    forall q | q in x.s.watches
      ensures ListMoved(x.s.watches[q], watches2[q], mv, if ToInt(q) < st.watches + 1 then |x.s.watches[q]| else 0)
    {
      LitEncoding(p, 0);
      LitEncoding(q, 0);
      if q != p {
        assert ToInt(q) != ToInt(p);
        assert ListMoved(x.s.watches[q], y.s.watches[q], mv, if ToInt(q) < st.watches then |x.s.watches[q]| else 0);
      }
    }
  }

  /** The reason to rewrite next: it is locked or was moved before, as relocAll tests. */
  lemma ReasonRef(x: Snapshot, bound: nat, y: Snapshot, to: seq<Clause>, mv: Moves, st: Stage)
    requires Whole(x, bound) && Progress(x, y, to, mv, st) && st.reasons < |x.s.a.trail|
    ensures x.s.a.trail[st.reasons].v < NumVars(x) == |y.s.a.reason|
    ensures var r := y.s.a.reason[x.s.a.trail[st.reasons].v];
            r == x.s.a.reason[x.s.a.trail[st.reasons].v] &&
            (r.Ref? ==> Movable(x, r.cr) && r.cr < |y.s.ca| && |y.s.ca[r.cr].lits| >= 1 &&
                        (y.s.ca[r.cr].reloced || (y.s.ca[r.cr].lits[0].v < NumVars(x) && Locked(y.s.a, y.s.ca, r.cr))))
  {
    var i := st.reasons;
    assert OnTrail(x.s.a, i) && ReasonMoved(x.s.a, y.s.a.reason, mv, i, i);
    var r := y.s.a.reason[x.s.a.trail[i].v];
    if r.Ref? {
      ReasonMovable(x.s.a, x.s.ca, y.s.ca, to, mv, y.s.a.reason, i);
      assert GoodLits(NumVars(x), x.s.ca[r.cr].lits);
    }
  }

  lemma ReasonDone(x: Snapshot, y: Snapshot, to: seq<Clause>, mv: Moves, st: Stage, r: Ref)
    requires Progress(x, y, to, mv, st) && st.reasons < |x.s.a.trail| && x.s.a.trail[st.reasons].v < |x.s.a.reason|
    requires var o := x.s.a.reason[x.s.a.trail[st.reasons].v]; if o.Ref? then o.cr in mv.fwd && r == Ref(mv.fwd[o.cr]) else r == o
    ensures x.s.a.trail[st.reasons].v < |y.s.a.reason|
    ensures Progress(x, y.(s := y.s.(a := y.s.a.(reason := y.s.a.reason[x.s.a.trail[st.reasons].v := r]))), to, mv, st.(reasons := st.reasons + 1))
  {
    assert OnTrail(x.s.a, st.reasons);
    ReasonStep(x.s.a, y.s.a.reason, mv, st.reasons, r);
  }

  /** A listed clause. */
  lemma ListedRef(x: Snapshot, bound: nat, cs: seq<nat>, learnt: bool, j: nat)
    requires Whole(x, bound) && cs == (if learnt then x.learnts else x.clauses) && j < |cs|
    ensures Movable(x, cs[j])
  {
    assert cs[j] in cs;
    assert GoodLits(NumVars(x), x.s.ca[cs[j]].lits);
  }

  /** Every reference has been rewritten by the same renaming; nothing but references has changed. */
  ghost predicate Relocated(x: Snapshot, y: Snapshot, mv: Moves) {
    && TrailOk(x.s.a) && y == x.(s := y.s, learnts := y.learnts, clauses := y.clauses)
    && (exists from :: Collected(x.s, y.s, mv, from))
    && RefsMoved(x.learnts, y.learnts, mv, |x.learnts|) && RefsMoved(x.clauses, y.clauses, mv, |x.clauses|)
  }

  /** The new region holds the live clauses, each once and unchanged, and no others. */
  lemma RelocatedClauses(x: Snapshot, y: Snapshot, mv: Moves)
    requires Relocated(x, y, mv)
    ensures forall cr: nat :: Live(x.s.ca, cr) ==>
              cr in mv.fwd && mv.fwd[cr] < |y.s.ca| && SameClause(x.s.ca[cr], y.s.ca[mv.fwd[cr]])
    ensures forall cr: nat, cr2: nat :: Live(x.s.ca, cr) && Live(x.s.ca, cr2) && cr != cr2 ==> mv.fwd[cr] != mv.fwd[cr2]
    ensures forall t: nat :: t < |y.s.ca| ==> t < |mv.bwd| && Live(x.s.ca, mv.bwd[t]) && mv.fwd[mv.bwd[t]] == t
  {
    var from :| Collected(x.s, y.s, mv, from);
    forall cr: nat, cr2: nat | Live(x.s.ca, cr) && Live(x.s.ca, cr2)
      ensures cr in mv.fwd && cr2 in mv.fwd && (cr != cr2 ==> mv.fwd[cr] != mv.fwd[cr2])
      ensures mv.fwd[cr] < |y.s.ca| && SameClause(x.s.ca[cr], y.s.ca[mv.fwd[cr]])
    {
      GcPreserves(x.s, y.s, mv, from, cr, cr2);
    }
    forall t: nat | t < |y.s.ca| ensures t < |mv.bwd| && Live(x.s.ca, mv.bwd[t]) && mv.bwd[t] in mv.fwd && mv.fwd[mv.bwd[t]] == t {
      NewIsOld(x.s, y.s, mv, from, t);
    }
  }

  lemma GcWhole(x: Snapshot, bound: nat, y: Snapshot, to: seq<Clause>, mv: Moves, st: Stage)
    requires Whole(x, bound) && x.s.dirty == {} && Progress(x, y, to, mv, st)
    requires st.watches == 2 * NumVars(x) && st.reasons == |x.s.a.trail| && st.learnts == |x.learnts| && st.clauses == |x.clauses|
    ensures Whole(y.(s := y.s.(ca := to)), bound) && Relocated(x, y.(s := y.s.(ca := to)), mv)
  {
    var s2 := y.s.(ca := to);
    EveryLiveMoved(x, bound, y, to, mv, st);
    forall p | p in x.s.watches ensures ListMoved(x.s.watches[p], s2.watches[p], mv, |x.s.watches[p]|) {
      assert p.v < NumVars(x);
      assert ToInt(p) < st.watches;
    }
    assert Collected(x.s, s2, mv, y.s.ca);
    GcInv(x.s, s2, mv, y.s.ca, x.formula, bound);
    GcEnumerates(x.s, s2, mv, y.s.ca, x.learnts, y.learnts, true);
    GcEnumerates(x.s, s2, mv, y.s.ca, x.clauses, y.clauses, false);
    assert WholeParts(y.(s := s2), bound);
  }

  lemma EveryLiveMoved(x: Snapshot, bound: nat, y: Snapshot, to: seq<Clause>, mv: Moves, st: Stage)
    requires Whole(x, bound) && Progress(x, y, to, mv, st) && st.learnts == |x.learnts| && st.clauses == |x.clauses|
    ensures forall cr: nat :: Live(x.s.ca, cr) ==> cr in mv.fwd
  {
    forall cr: nat | Live(x.s.ca, cr) ensures cr in mv.fwd {
      if x.s.ca[cr].learnt {
        assert cr in x.learnts;
        var i :| 0 <= i < |x.learnts| && x.learnts[i] == cr;
      } else {
        assert cr in x.clauses;
        var i :| 0 <= i < |x.clauses| && x.clauses[i] == cr;
      }
    }
  }

  lemma ListNext(before: seq<Watcher>, after: seq<Watcher>, mv: Moves, j: nat)
    requires ListMoved(before, after, mv, j) && j < |before| && before[j].cref in mv.fwd
    ensures |after| == |before| && after[j] == before[j]
    ensures ListMoved(before, after[j := Watcher(mv.fwd[before[j].cref], before[j].blocker)], mv, j + 1)
  {}

  lemma RefsNone(cs: seq<nat>, mv: Moves)
    ensures RefsMoved(cs, cs, mv, 0)
  {}

  lemma RefsAt(before: seq<nat>, after: seq<nat>, mv: Moves, j: nat)
    requires RefsMoved(before, after, mv, j) && j < |before|
    ensures |after| == |before| && after[j] == before[j]
  {}

  lemma RefsNext(before: seq<nat>, after: seq<nat>, mv: Moves, j: nat)
    requires RefsMoved(before, after, mv, j) && j < |before| && before[j] in mv.fwd
    ensures |after| == |before| && RefsMoved(before, after[j := mv.fwd[before[j]]], mv, j + 1)
  {}

  lemma InWatches(x: Snapshot, bound: nat, v: nat)
    requires Whole(x, bound) && v < NumVars(x)
    ensures Lit(v, false) in x.s.watches && Lit(v, true) in x.s.watches
  {}

  lemma LearntsDone(x: Snapshot, y: Snapshot, to: seq<Clause>, mv: Moves, st: Stage, cs: seq<nat>)
    requires Progress(x, y, to, mv, st) && RefsMoved(x.learnts, cs, mv, |x.learnts|)
    ensures |cs| == |x.learnts|
    ensures Progress(x, y.(learnts := cs), to, mv, st.(learnts := |x.learnts|))
  {}

  lemma ClausesDone(x: Snapshot, y: Snapshot, to: seq<Clause>, mv: Moves, st: Stage, cs: seq<nat>)
    requires Progress(x, y, to, mv, st) && RefsMoved(x.clauses, cs, mv, |x.clauses|)
    ensures |cs| == |x.clauses|
    ensures Progress(x, y.(clauses := cs), to, mv, st.(clauses := |x.clauses|))
  {}
}
