/** Everything the solver maintains between steps, and how each step keeps it
    (memin/minisat/core/Solver.cpp, Solver.h). */
module SatWhole {
  import opened SatState
  import opened SatTrail
  import opened SatWatch
  import opened SatDb
  import opened SatSteps
  import opened SatAnalyze
  import opened SatGc
  import OrderHeap

  /** The arrays of the order heap. */
  datatype Order = Order(heap: seq<nat>, indices: seq<int>, activity: seq<real>)

  /** The fields of the solver, and the clauses added so far. */
  datatype Snapshot = Snapshot(s: State, clauses: seq<nat>, learnts: seq<nat>, decision: seq<bool>, polarity: seq<bool>,
                               seen: seq<bool>, order: Order, formula: seq<seq<Lit>>)

  function NumVars(x: Snapshot): nat {
    |x.s.a.assigns|
  }

  /** The clause lists enumerate the live clauses. */
  ghost predicate ListsOk(x: Snapshot) {
    Enumerates(x.s.ca, x.clauses, false) && Enumerates(x.s.ca, x.learnts, true)
  }

  ghost predicate HeapOk(o: Order) {
    OrderHeap.Inverse(o.heap, o.indices) && OrderHeap.HeapOrder(o.heap, o.activity)
  }

  /** Every unassigned decision variable is in the heap. */
  ghost predicate OrderOk(decision: seq<bool>, assigns: seq<LBool>, o: Order) {
    && HeapOk(o) && |o.activity| == |decision| == |assigns|
    && (forall v :: 0 <= v < |assigns| && decision[v] ==> v < |o.indices|)
    && (forall v :: 0 <= v < |assigns| && decision[v] && assigns[v] == LUndef ==> v in OrderHeap.Members(o.heap))
  }

  ghost predicate TablesOk(x: Snapshot) {
    && |x.seen| == |x.polarity| == NumVars(x)
    && (forall i :: 0 <= i < |x.formula| ==> VarsBelow(x.formula[i], NumVars(x)))
  }

  ghost predicate RestOk(x: Snapshot) {
    ListsOk(x) && OrderOk(x.decision, x.s.a.assigns, x.order) && TablesOk(x)
  }

  /** The last decision level starts below `bound`. */
  predicate LevelBelow(a: Asg, bound: nat) {
    bound <= |a.trail| && (|a.lim| > 0 ==> a.lim[|a.lim| - 1] <= bound)
  }

  /** The trail is propagated up to `bound`. */
  ghost predicate Whole(x: Snapshot, bound: nat) {
    exists y: Snapshot :: y == x && WholeParts(y, bound)
  }

  ghost predicate WholeParts(x: Snapshot, bound: nat) {
    Inv(x.s, x.formula, bound) && LevelBelow(x.s.a, bound) && RestOk(x)
  }

  /** The added clauses have no model; tables and heap are still in order. */
  ghost predicate Contradictory(x: Snapshot) {
    Sized(x) && forall m :: !Models(m, NumVars(x), x.formula)
  }

  ghost predicate Sized(x: Snapshot) {
    && |x.s.a.reason| == |x.s.a.level| == |x.s.a.pos| == |x.seen| == |x.polarity| == |x.decision| == NumVars(x)
    && HeapOk(x.order) && |x.order.activity| == NumVars(x)
  }

  lemma WholeSized(x: Snapshot, bound: nat)
    requires Whole(x, bound)
    ensures Sized(x)
  {}

  lemma WholeNew()
    ensures Whole(Snapshot(State(Asg([], [], [], [], [], []), [], map[], {}), [], [], [], [], [], Order([], [], []), []), 0)
  {
    hide Inv;
    NothingInv();
    assert WholeParts(Snapshot(State(Asg([], [], [], [], [], []), [], map[], {}), [], [], [], [], [], Order([], [], []), []), 0);
  }

  lemma NothingInv()
    ensures Inv(State(Asg([], [], [], [], [], []), [], map[], {}), [], 0)
  {}

  // ----- newVar -----

  function NewVarSnapshot(x: Snapshot, sign: bool, dvar: bool, o: Order): Snapshot {
    x.(s := WithVar(x.s), decision := x.decision + [dvar], polarity := x.polarity + [sign], seen := x.seen + [false], order := o)
  }

  lemma WholeNewVar(x: Snapshot, bound: nat, sign: bool, dvar: bool, o: Order)
    requires Whole(x, bound) && HeapOk(o) && |o.activity| == NumVars(x) + 1 && |x.order.indices| <= |o.indices|
    requires dvar ==> NumVars(x) < |o.indices|
    requires OrderHeap.Members(o.heap) == OrderHeap.Members(x.order.heap) + if dvar then {NumVars(x)} else {}
    ensures Whole(NewVarSnapshot(x, sign, dvar, o), bound)
  {
    WithVarInv(x.s, x.formula, bound);
    assert WholeParts(NewVarSnapshot(x, sign, dvar, o), bound);
  }

  // ----- steps that keep the clause lists and only assign variables -----

  lemma ContradictoryNewVar(x: Snapshot, sign: bool, dvar: bool, o: Order)
    requires Contradictory(x) && HeapOk(o) && |o.activity| == NumVars(x) + 1
    ensures Contradictory(NewVarSnapshot(x, sign, dvar, o))
  {
    var y := NewVarSnapshot(x, sign, dvar, o);
    forall m ensures !Models(m, NumVars(y), y.formula) {
      assert !Models(m, NumVars(x), x.formula);
    }
  }

  ghost predicate SameKinds(ca: seq<Clause>, ca2: seq<Clause>) {
    |ca| == |ca2| && forall cr :: 0 <= cr < |ca| ==> ca2[cr].mark == ca[cr].mark && ca2[cr].learnt == ca[cr].learnt
  }

  lemma SameEnumerates(ca: seq<Clause>, ca2: seq<Clause>, cs: seq<nat>, learnt: bool)
    requires SameKinds(ca, ca2) && Enumerates(ca, cs, learnt)
    ensures Enumerates(ca2, cs, learnt)
  {
    forall cr: nat ensures cr in cs <==> Live(ca2, cr) && ca2[cr].learnt == learnt {
      assert cr in cs <==> Live(ca, cr) && ca[cr].learnt == learnt;
    }
  }

  /** No variable becomes unassigned. */
  predicate OnlyAssigns(a: Asg, b: Asg) {
    |a.assigns| == |b.assigns| && forall v :: 0 <= v < |a.assigns| && b.assigns[v] == LUndef ==> a.assigns[v] == LUndef
  }

  lemma RestStep(x: Snapshot, s2: State)
    requires RestOk(x) && SameKinds(x.s.ca, s2.ca) && OnlyAssigns(x.s.a, s2.a)
    ensures RestOk(x.(s := s2))
  {
    SameEnumerates(x.s.ca, s2.ca, x.clauses, false);
    SameEnumerates(x.s.ca, s2.ca, x.learnts, true);
  }

  lemma WholeStep(x: Snapshot, bound: nat, s2: State, bound2: nat)
    requires Whole(x, bound) && SameKinds(x.s.ca, s2.ca) && OnlyAssigns(x.s.a, s2.a)
    requires Inv(s2, x.formula, bound2) && LevelBelow(s2.a, bound2)
    ensures Whole(x.(s := s2), bound2)
  {
    RestStep(x, s2);
    assert WholeParts(x.(s := s2), bound2);
  }

  lemma WholeWatches(x: Snapshot, bound: nat, watches2: Watches, dirty2: set<Lit>)
    requires Whole(x, bound) && WatchesOk(NumVars(x), x.s.ca, watches2, dirty2)
    ensures Whole(x.(s := x.s.(watches := watches2, dirty := dirty2)), bound)
  {
    OtherWatches(x.s, x.formula, bound, watches2, dirty2);
    WholeStep(x, bound, x.s.(watches := watches2, dirty := dirty2), bound);
  }

  /** Cleaning one dirty list. */
  lemma WholeClean(x: Snapshot, bound: nat, p: Lit)
    requires Whole(x, bound) && p in x.s.dirty
    ensures p in x.s.watches && WatchesOk(NumVars(x), x.s.ca, x.s.watches, x.s.dirty)
    ensures Whole(x.(s := x.s.(watches := x.s.watches[p := LiveOnly(x.s.ca, x.s.watches[p])], dirty := x.s.dirty - {p})), bound)
  {
    CleanStep(NumVars(x), x.s.ca, x.s.watches, x.s.dirty, p);
    WholeWatches(x, bound, x.s.watches[p := LiveOnly(x.s.ca, x.s.watches[p])], x.s.dirty - {p});
  }

  // ----- propagation -----

  /** While the watchers `ws` of `p` are scanned in place: ws[..j] has been kept, ws[i..] is left. */
  ghost predicate Scans(x: Snapshot, p: Lit, kept: seq<Watcher>, rest: seq<Watcher>) {
    exists y: Snapshot :: y == x && ScansParts(y, p, kept, rest)
  }

  ghost predicate ScansParts(x: Snapshot, p: Lit, kept: seq<Watcher>, rest: seq<Watcher>) {
    && p in x.s.watches && Scanning(Gapless(x.s, p, kept, rest), x.formula, p, kept, rest)
    && RestOk(x) && LevelBelow(x.s.a, |x.s.a.trail|)
  }

  function Gapless(s: State, p: Lit, kept: seq<Watcher>, rest: seq<Watcher>): State {
    s.(watches := s.watches[p := kept + rest])
  }

  lemma ScansBegin(x: Snapshot, qhead: nat)
    requires Whole(x, qhead) && qhead < |x.s.a.trail| && x.s.dirty == {}
    ensures var p := x.s.a.trail[qhead]; p in x.s.watches && Scans(x, p, [], x.s.watches[p])
  {
    ScanBegins(x.s, x.formula, qhead);
    var p := x.s.a.trail[qhead];
    assert Gapless(x.s, p, [], x.s.watches[p]) == x.s;
    assert ScansParts(x, p, [], x.s.watches[p]);
  }

  lemma ScansEnd(x: Snapshot, p: Lit, kept: seq<Watcher>, qhead: nat)
    requires Scans(x, p, kept, []) && qhead < |x.s.a.trail| && x.s.a.trail[qhead] == p
    requires |x.s.a.lim| > 0 ==> x.s.a.lim[|x.s.a.lim| - 1] <= qhead
    ensures Whole(Relisted(x, p, kept), qhead + 1)
  {
    var s2 := Gapless(x.s, p, kept, []);
    assert kept + [] == kept;
    assert OnTrail(s2.a, qhead);
    ScanDone(s2, x.formula, p, kept);
    RestStep(x, s2);
    assert WholeParts(x.(s := s2), qhead + 1);
    assert x.(s := s2) == x.(s := x.s.(watches := x.s.watches[p := kept]));
  }

  /** The clause of the next watcher, with the false literal put second. */
  ghost predicate Facing(x: Snapshot, p: Lit, kept: seq<Watcher>, rest: seq<Watcher>) {
    exists y: Snapshot :: y == x && FacingParts(y, p, kept, rest)
  }

  ghost predicate FacingParts(x: Snapshot, p: Lit, kept: seq<Watcher>, rest: seq<Watcher>) {
    && ScansParts(x, p, kept, rest) && rest != [] && Live(x.s.ca, rest[0].cref)
    && GoodLits(NumVars(x), x.s.ca[rest[0].cref].lits) && x.s.ca[rest[0].cref].lits[1] == Not(p)
  }

  lemma ScansTrail(x: Snapshot, p: Lit, kept: seq<Watcher>, rest: seq<Watcher>)
    requires Scans(x, p, kept, rest)
    ensures TrailOk(x.s.a) && p.v < NumVars(x) && x.s.a.pos[p.v] < |x.s.a.trail| && Value(x.s.a.assigns, Not(p)) == LFalse
    ensures forall i :: 0 <= i < |x.s.a.trail| && x.s.a.trail[i] == p ==> x.s.a.pos[p.v] == i
  {
    forall i | 0 <= i < |x.s.a.trail| && x.s.a.trail[i] == p ensures x.s.a.pos[p.v] == i {
      assert OnTrail(x.s.a, i);
    }
  }

  lemma ScansBlocked(x: Snapshot, p: Lit, kept: seq<Watcher>, rest: seq<Watcher>)
    requires Scans(x, p, kept, rest) && rest != []
    ensures rest[0].blocker.v < NumVars(x)
    ensures Value(x.s.a.assigns, rest[0].blocker) == LTrue ==> Scans(x, p, kept + [rest[0]], rest[1..])
  {
    hide Scanning, RestOk;
    var s := Gapless(x.s, p, kept, rest);
    NextWatcher(s, x.formula, p, kept, rest);
    if Value(x.s.a.assigns, rest[0].blocker) == LTrue {
      BlockerTrue(s, x.formula, p, kept, rest);
      assert s.(watches := s.watches[p := (kept + [rest[0]]) + rest[1..]]) == Gapless(x.s, p, kept + [rest[0]], rest[1..]);
      assert ScansParts(x, p, kept + [rest[0]], rest[1..]);
    }
  }

  lemma ScansSwap(x: Snapshot, p: Lit, kept: seq<Watcher>, rest: seq<Watcher>)
    requires Scans(x, p, kept, rest) && rest != []
    ensures var cr := rest[0].cref;
            cr < |x.s.ca| && |x.s.ca[cr].lits| >= 2 &&
            Facing(if x.s.ca[cr].lits[0] == Not(p) then x.(s := x.s.(ca := Relit(x.s.ca, cr, Swapped(x.s.ca[cr].lits)))) else x, p, kept, rest)
  {
    hide Scanning, RestOk;
    var s, cr := Gapless(x.s, p, kept, rest), rest[0].cref;
    PutSecond(s, x.formula, p, kept, rest);
    if x.s.ca[cr].lits[0] == Not(p) {
      var s2 := x.s.(ca := Relit(x.s.ca, cr, Swapped(x.s.ca[cr].lits)));
      RestStep(x, s2);
      SwapReorders(NumVars(x), x.s.ca[cr].lits);
      assert s.(ca := Relit(s.ca, cr, Swapped(s.ca[cr].lits))) == Gapless(s2, p, kept, rest);
      assert FacingParts(x.(s := s2), p, kept, rest);
    } else {
      assert FacingParts(x, p, kept, rest);
    }
  }

  lemma FacingFirst(x: Snapshot, p: Lit, kept: seq<Watcher>, rest: seq<Watcher>)
    requires Facing(x, p, kept, rest) && Value(x.s.a.assigns, x.s.ca[rest[0].cref].lits[0]) == LTrue
    ensures var w := Watcher(rest[0].cref, x.s.ca[rest[0].cref].lits[0]); Scans(x, p, kept + [w], rest[1..])
  {
    hide Scanning, RestOk;
    var s, w := Gapless(x.s, p, kept, rest), Watcher(rest[0].cref, x.s.ca[rest[0].cref].lits[0]);
    FirstTrue(s, x.formula, p, kept, rest, w);
    assert s.(watches := s.watches[p := (kept + [w]) + rest[1..]]) == Gapless(x.s, p, kept + [w], rest[1..]);
    assert ScansParts(x, p, kept + [w], rest[1..]);
  }

  lemma FacingMove(x: Snapshot, p: Lit, kept: seq<Watcher>, rest: seq<Watcher>, k: nat)
    requires Facing(x, p, kept, rest) && 2 <= k < |x.s.ca[rest[0].cref].lits|
    requires Value(x.s.a.assigns, x.s.ca[rest[0].cref].lits[0]) != LTrue && Value(x.s.a.assigns, x.s.ca[rest[0].cref].lits[k]) != LFalse
    ensures var cr := rest[0].cref; var lits := x.s.ca[cr].lits; var r := Not(lits[k]);
            r in x.s.watches &&
            Scans(x.(s := x.s.(ca := Relit(x.s.ca, cr, Rewatched(lits, k)),
                               watches := x.s.watches[r := x.s.watches[r] + [Watcher(cr, lits[0])]])), p, kept, rest[1..])
  {
    hide Scanning, RestOk;
    var s, cr := Gapless(x.s, p, kept, rest), rest[0].cref;
    var lits := x.s.ca[cr].lits;
    var r, w := Not(lits[k]), Watcher(cr, lits[0]);
    MoveInv(s, x.formula, p, kept, rest, k, w);
    var s2 := x.s.(ca := Relit(x.s.ca, cr, Rewatched(lits, k)), watches := x.s.watches[r := x.s.watches[r] + [w]]);
    RestStep(x, s2);
    assert Moved(s.watches, p, kept, rest[1..], r, w) == s2.watches[p := kept + rest[1..]];
    assert s.(ca := Relit(s.ca, cr, Rewatched(lits, k)), watches := Moved(s.watches, p, kept, rest[1..], r, w)) == Gapless(s2, p, kept, rest[1..]);
    assert ScansParts(x.(s := s2), p, kept, rest[1..]);
  }

  lemma FacingUnit(x: Snapshot, p: Lit, kept: seq<Watcher>, rest: seq<Watcher>)
    requires Facing(x, p, kept, rest) && Value(x.s.a.assigns, x.s.ca[rest[0].cref].lits[0]) == LUndef
    requires forall k :: 2 <= k < |x.s.ca[rest[0].cref].lits| ==> Value(x.s.a.assigns, x.s.ca[rest[0].cref].lits[k]) == LFalse
    ensures var cr := rest[0].cref; var first := x.s.ca[cr].lits[0];
            TrailOk(x.s.a) && VarOk(x.s.a, first) &&
            Scans(x.(s := x.s.(a := Enqueued(x.s.a, first, Ref(cr)))), p, kept + [Watcher(cr, first)], rest[1..])
  {
    hide Scanning, RestOk, TrailOk;
    var s, cr := Gapless(x.s, p, kept, rest), rest[0].cref;
    var w := Watcher(cr, x.s.ca[cr].lits[0]);
    ScansTrail(x, p, kept, rest);
    UnitStep(s, x.formula, p, kept, rest, w);
    var s2 := x.s.(a := Enqueued(x.s.a, w.blocker, Ref(cr)));
    RestStep(x, s2);
    assert s.(a := Enqueued(s.a, w.blocker, Ref(cr)), watches := s.watches[p := (kept + [w]) + rest[1..]]) == Gapless(s2, p, kept + [w], rest[1..]);
    assert ScansParts(x.(s := s2), p, kept + [w], rest[1..]);
  }

  lemma FacingConflict(x: Snapshot, p: Lit, kept: seq<Watcher>, rest: seq<Watcher>, qhead: nat)
    requires Facing(x, p, kept, rest) && Value(x.s.a.assigns, x.s.ca[rest[0].cref].lits[0]) == LFalse
    requires forall k :: 2 <= k < |x.s.ca[rest[0].cref].lits| ==> Value(x.s.a.assigns, x.s.ca[rest[0].cref].lits[k]) == LFalse
    requires qhead < |x.s.a.trail| && x.s.a.trail[qhead] == p
    requires |x.s.a.lim| > 0 ==> x.s.a.lim[|x.s.a.lim| - 1] <= qhead
    ensures var cr := rest[0].cref; var w := Watcher(cr, x.s.ca[cr].lits[0]);
            TrailOk(x.s.a) && IsConflict(x.s.a, x.s.ca, cr) &&
            Whole(x.(s := x.s.(watches := x.s.watches[p := (kept + [w]) + rest[1..]])), qhead)
  {
    hide Scanning, RestOk, Inv, TrailOk, IsConflict;
    var s, cr := Gapless(x.s, p, kept, rest), rest[0].cref;
    var w := Watcher(cr, x.s.ca[cr].lits[0]);
    ScansTrail(x, p, kept, rest);
    ConflictFound(s, x.formula, p, kept, rest, w);
    var s2 := Gapless(x.s, p, kept + [w], rest[1..]);
    RestStep(x, s2);
    assert s.(watches := s.watches[p := (kept + [w]) + rest[1..]]) == s2;
    assert WholeParts(x.(s := s2), qhead);
  }

  /** The list of `p` is replaced. */
  function Relisted(x: Snapshot, p: Lit, ws: seq<Watcher>): Snapshot {
    x.(s := x.s.(watches := x.s.watches[p := ws]))
  }

  /** A conflict leaves the part that was propagated before. */
  lemma WholeLower(x: Snapshot, bound: nat, bound2: nat)
    requires Whole(x, bound) && bound2 <= bound && LevelBelow(x.s.a, bound2)
    ensures Whole(x, bound2)
  {
    LowerBound(x.s, x.formula, bound, bound2);
    assert WholeParts(x, bound2);
  }

  /** At the fixpoint no live clause is false, and none has one unassigned literal and the rest false. */
  lemma Propagated(x: Snapshot, cr: nat, u: nat)
    requires Whole(x, |x.s.a.trail|) && Live(x.s.ca, cr) && u < |x.s.ca[cr].lits|
    ensures GoodLits(NumVars(x), x.s.ca[cr].lits) && |x.s.a.level| == NumVars(x)
    ensures SatAt(x.s.a, x.s.ca[cr].lits, |x.s.a.lim|) || exists k :: 0 <= k < |x.s.ca[cr].lits| && k != u && Value(x.s.a.assigns, x.s.ca[cr].lits[k]) != LFalse
  {
    var a, lits := x.s.a, x.s.ca[cr].lits;
    var k := if u == 0 then 1 else 0;
    assert WatchKept(a, lits, lits[0], |a.trail|) && WatchKept(a, lits, lits[1], |a.trail|);
    if Value(a.assigns, lits[k]) == LFalse {
      assert FalseBefore(a, lits[k], |a.trail|);
      assert OnTrail(a, a.pos[lits[k].v]) && LevelOk(a, a.pos[lits[k].v]);
      var j :| 0 <= j < |lits| && VarOk(a, lits[j]) && Value(a.assigns, lits[j]) == LTrue && a.level[lits[j].v] <= a.level[lits[k].v];
      assert VarOk(a, lits[j]);
    }
  }

  // ----- cancelUntil -----

  function CancelSnapshot(x: Snapshot, level: nat, polarity2: seq<bool>, o: Order): Snapshot
    requires level < |x.s.a.lim| && x.s.a.lim[level] <= |x.s.a.trail|
  {
    x.(s := x.s.(a := Cancelled(x.s.a, level)), polarity := polarity2, order := o)
  }

  lemma WholeCancel(x: Snapshot, bound: nat, level: nat, polarity2: seq<bool>, o: Order)
    requires Whole(x, bound) && level < |x.s.a.lim| && x.s.a.lim[level] <= |x.s.a.trail| && |polarity2| == |x.polarity|
    requires OrderOk(x.decision, Cleared(x.s.a.assigns, x.s.a.trail, x.s.a.lim[level]), o)
    ensures Whole(CancelSnapshot(x, level, polarity2, o), x.s.a.lim[level])
  {
    assert x.s.a.lim[level] <= bound;
    CancelInv(x.s, x.formula, level, bound);
    assert WholeParts(CancelSnapshot(x, level, polarity2, o), x.s.a.lim[level]);
  }

  /** A variable that loses its value is put back into the heap. */
  lemma OrderInsert(decision: seq<bool>, assigns: seq<LBool>, o: Order, o2: Order, v: nat)
    requires OrderOk(decision, assigns, o) && v < |assigns|
    requires HeapOk(o2) && o2.activity == o.activity && |o2.indices| >= |o.indices|
    requires OrderHeap.Members(o.heap) <= OrderHeap.Members(o2.heap)
    requires decision[v] ==> v in OrderHeap.Members(o2.heap)
    ensures OrderOk(decision, assigns[v := LUndef], o2)
  {}

  // ----- addClause_ -----

  lemma WholeAddTrivial(x: Snapshot, bound: nat, ps: seq<Lit>)
    requires Whole(x, bound) && VarsBelow(ps, NumVars(x)) && |x.s.a.level| == NumVars(x) && Covered(x.s.a, x.s.ca, ps)
    ensures Whole(x.(formula := x.formula + [ps]), bound)
  {
    GrowFormula(x.s, x.formula, bound, ps);
    assert WholeParts(x.(formula := x.formula + [ps]), bound);
  }

  lemma WholeAddEmpty(x: Snapshot, bound: nat, ps: seq<Lit>)
    requires Whole(x, bound) && |x.s.a.level| == NumVars(x) && Reduces(x.s.a, ps, [])
    ensures Contradictory(x.(formula := x.formula + [ps]))
  {
    WholeSized(x, bound);
    AddEmpty(x.s.a, x.s.ca, x.formula, ps);
  }

  lemma WholeAddUnit(x: Snapshot, bound: nat, ps: seq<Lit>, p: Lit)
    requires Whole(x, bound) && VarsBelow(ps, NumVars(x)) && x.s.a.lim == [] && |x.s.a.level| == NumVars(x)
    requires Reduces(x.s.a, ps, [p]) && VarOk(x.s.a, p) && Value(x.s.a.assigns, p) == LUndef
    ensures |x.s.a.reason| == |x.s.a.pos| == NumVars(x)
    ensures Whole(x.(s := x.s.(a := Enqueued(x.s.a, p, NoRef)), formula := x.formula + [ps]), bound)
  {
    var s2 := x.s.(a := Enqueued(x.s.a, p, NoRef));
    AddUnit(x.s, x.formula, bound, ps, p);
    RestStep(x, s2);
    assert WholeParts(x.(s := s2, formula := x.formula + [ps]), bound);
  }

  lemma AttachEnumerates(ca: seq<Clause>, c: Clause, cs: seq<nat>, learnt: bool)
    requires Enumerates(ca, cs, learnt) && c.mark == 0
    ensures Enumerates(ca + [c], if c.learnt == learnt then cs + [|ca|] else cs, learnt)
  {
    var ca2, cs2 := ca + [c], if c.learnt == learnt then cs + [|ca|] else cs;
    forall i | 0 <= i < |cs| ensures cs[i] < |ca| {
      assert cs[i] in cs;
    }
    forall cr: nat ensures cr in cs2 <==> Live(ca2, cr) && ca2[cr].learnt == learnt {
      assert cr in cs <==> Live(ca, cr) && ca[cr].learnt == learnt;
    }
  }

  lemma AttachRest(x: Snapshot, c: Clause, s2: State)
    requires RestOk(x) && c.mark == 0 && s2.ca == x.s.ca + [c] && OnlyAssigns(x.s.a, s2.a)
    ensures RestOk(x.(s := s2, clauses := if c.learnt then x.clauses else x.clauses + [|x.s.ca|],
                      learnts := if c.learnt then x.learnts + [|x.s.ca|] else x.learnts))
  {
    AttachEnumerates(x.s.ca, c, x.clauses, false);
    AttachEnumerates(x.s.ca, c, x.learnts, true);
  }

  lemma WholeAddAttached(x: Snapshot, bound: nat, ps: seq<Lit>, c: Clause)
    requires Whole(x, bound) && VarsBelow(ps, NumVars(x)) && |x.s.a.level| == NumVars(x)
    requires NewClause(NumVars(x), c) && !c.learnt && Reduces(x.s.a, ps, c.lits)
    requires Value(x.s.a.assigns, c.lits[0]) != LFalse && Value(x.s.a.assigns, c.lits[1]) != LFalse
    ensures Not(c.lits[0]) in x.s.watches && Not(c.lits[1]) in x.s.watches
    ensures Whole(x.(s := Attached(x.s, c), clauses := x.clauses + [|x.s.ca|], formula := x.formula + [ps]), bound)
  {
    AddAttached(x.s, x.formula, bound, ps, c);
    AttachRest(x, c, Attached(x.s, c));
    assert WholeParts(x.(s := Attached(x.s, c), clauses := x.clauses + [|x.s.ca|], formula := x.formula + [ps]), bound);
  }

  lemma WholeRoot(x: Snapshot, bound: nat, cr: nat)
    requires Whole(x, bound) && x.s.a.lim == [] && |x.s.a.level| == NumVars(x) && IsConflict(x.s.a, x.s.ca, cr)
    ensures Contradictory(x)
  {
    WholeSized(x, bound);
    RootConflict(x.s, x.formula, bound, cr);
  }

  lemma StillContradictory(x: Snapshot, ps: seq<Lit>)
    requires Contradictory(x)
    ensures Contradictory(x.(formula := x.formula + [ps]))
  {
    var y := x.(formula := x.formula + [ps]);
    forall m ensures !Models(m, NumVars(y), y.formula) {
      if Models(m, NumVars(y), y.formula) {
        ModelsFewer(m, NumVars(x), x.formula, ps);
      }
    }
  }

  lemma ModelsFewer(m: seq<bool>, n: nat, f: seq<seq<Lit>>, ps: seq<Lit>)
    requires Models(m, n, f + [ps])
    ensures Models(m, n, f)
  {
    forall i | 0 <= i < |f| ensures Holds(m, f[i]) {
      assert Holds(m, (f + [ps])[i]);
    }
  }

  /** A true literal, or the negation of one that was kept. */
  lemma CoveredNow(a: Asg, ca: seq<Clause>, sorted: seq<Lit>, i: nat, out: seq<Lit>)
    requires TrailOk(a) && a.lim == [] && Filtered(a, sorted, i, out) && i < |sorted| && VarOk(a, sorted[i])
    requires Value(a.assigns, sorted[i]) == LTrue || (out != [] && sorted[i] == Not(out[|out| - 1]))
    ensures Covered(a, ca, sorted)
  {
    if Value(a.assigns, sorted[i]) == LTrue {
      RootFixed(a, sorted[i]);
    } else {
      var p := out[|out| - 1];
      assert p in sorted[..i];
      var k :| 0 <= k < i && sorted[k] == p;
      assert sorted[i] == Not(sorted[k]);
    }
  }

  lemma CoveredSame(a: Asg, ca: seq<Clause>, sorted: seq<Lit>, ps: seq<Lit>)
    requires |a.level| == |a.assigns| && Covered(a, ca, sorted) && forall q :: q in sorted <==> q in ps
    ensures Covered(a, ca, ps)
  {
    if k :| 0 <= k < |sorted| && Fixed(a, sorted[k]) {
      assert sorted[k] in ps;
      var l :| 0 <= l < |ps| && ps[l] == sorted[k];
    } else if cr: nat :| Represents(ca, cr, sorted) {
      assert Represents(ca, cr, ps);
    } else {
      var k, l :| 0 <= k < |sorted| && 0 <= l < |sorted| && sorted[l] == Not(sorted[k]);
      assert sorted[k] in ps && sorted[l] in ps;
      var i :| 0 <= i < |ps| && ps[i] == sorted[k];
      var j :| 0 <= j < |ps| && ps[j] == sorted[l];
      assert ps[j] == Not(ps[i]);
    }
  }
}
