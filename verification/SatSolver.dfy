/** The solver itself: addClause_, propagate, analyze, cancelUntil, reduceDB, simplify, garbage
    collection, search and solve_ (memin/minisat/core/Solver.cpp, Solver.h). */
module SatSolver {
  import opened FiniteSets
  import opened SatState
  import opened SatTrail
  import opened SatWatch
  import opened SatDb
  import opened SatSteps
  import opened SatAnalyze
  import opened SatGc
  import opened SatWhole
  import opened SatLearn
  import opened SatCuts
  import opened SatRedundant
  import opened SatSearch
  import opened SatCollect
  import opened SatRegion
  import OrderHeap
  import SatProgress

  type Positive = r: real | r > 0.0 witness 1.0

  /** The options of the solver. */
  datatype Config = Config(ccminMode: int, phaseSaving: int, rndPol: bool, varDecay: Positive, garbageFrac: Positive,
                           restarts: SatProgress.GoodSchedule)

  class Solver {
    var ok: bool
    var clauses: seq<nat>
    var learnts: seq<nat>
    var watches: Watches
    var dirties: set<Lit>
    var assigns: seq<LBool>
    var polarity: seq<bool>
    var decision: seq<bool>
    var trail: seq<Lit>
    var trailLim: seq<nat>
    var reason: seq<Ref>
    var level: seq<nat>
    var qhead: nat
    var ca: seq<Clause>
    var seen: seq<bool>
    var analyzeStack: seq<Lit>
    var analyzeToClear: seq<Lit>
    var model: seq<LBool>
    var conflicts: nat
    var conflictBudget: int
    var interrupted: bool
    var varInc: Positive
    const orderHeap: OrderHeap.Heap
    const ccminMode: int
    const phaseSaving: int
    const rndPol: bool
    const varDecay: Positive
    const garbageFrac: Positive
    const restarts: SatProgress.GoodSchedule

    /** Where an assigned variable stands on the trail. */
    ghost var pos: seq<nat>
    /** The clauses added so far. */
    ghost var formula: seq<seq<Lit>>

    ghost function A(): Asg
      reads this
    {
      Asg(assigns, reason, level, trail, trailLim, pos)
    }

    ghost function Snap(): Snapshot
      reads this, orderHeap
    {
      Snapshot(State(A(), ca, watches, dirties), clauses, learnts, decision, polarity, seen,
               Order(orderHeap.heap, orderHeap.indices, orderHeap.activity), formula)
    }

    /** Between steps: the trail is propagated up to `bound`. */
    ghost predicate Searching(bound: nat)
      reads this, orderHeap
    {
      Whole(Snap(), bound)
    }

    ghost predicate Unsatisfiable()
      reads this, orderHeap
    {
      Contradictory(Snap())
    }

    /** Between calls: at level 0 and fully propagated, or known to be contradictory. */
    ghost predicate Valid()
      reads this, orderHeap
    {
      if ok then trailLim == [] && qhead == |trail| && NoneSeen() && Searching(qhead) else Unsatisfiable()
    }

    /** Seen flags are used by one method at a time. */
    ghost predicate NoneSeen()
      reads this
    {
      |seen| == |assigns| && forall v :: 0 <= v < |seen| ==> !seen[v]
    }

    constructor (config: Config)
      ensures Valid() && ok && assigns == [] && decision == [] && formula == [] && fresh(orderHeap)
      ensures conflictBudget < 0 && !interrupted
    {
      hide Whole;
      ok := true;
      clauses, learnts, watches, dirties := [], [], map[], {};
      assigns, polarity, decision, trail, trailLim, reason, level, qhead := [], [], [], [], [], [], [], 0;
      ca, seen, analyzeStack, analyzeToClear := [], [], [], [];
      model, conflicts, conflictBudget, interrupted, varInc := [], 0, -1, false, 1.0;
      pos, formula := [], [];
      ccminMode, phaseSaving, rndPol := config.ccminMode, config.phaseSaving, config.rndPol;
      varDecay, garbageFrac, restarts := config.varDecay, config.garbageFrac, config.restarts;
      orderHeap := new OrderHeap.Heap();
      new;
      WholeNew();
    }

    // ----- variables -----

    /** Adds a variable; a decision variable enters the heap. */
    method NewVar(sign: bool, dvar: bool) returns (v: nat)
      requires Valid()
      modifies this, orderHeap
      ensures Valid() && ok == old(ok) && v == |old(assigns)| && |assigns| == v + 1 && formula == old(formula)
      ensures assigns == old(assigns) + [LUndef] && decision == old(decision) + [dvar] && polarity == old(polarity) + [sign]
      ensures orderHeap.activity == old(orderHeap.activity) + [0.0]
      ensures conflictBudget == old(conflictBudget) && interrupted == old(interrupted)
    {
      hide Whole, Contradictory, HeapOk, NewVarSnapshot, OrderHeap.Members;
      v := |assigns|;
      ghost var x := Snap();
      HeapFits();
      ghost var o := Grow(sign, dvar, x);
      if ok {
        WholeNewVar(x, qhead, sign, dvar, o);
      } else {
        ContradictoryNewVar(x, sign, dvar, o);
      }
    }

    method Grow(sign: bool, dvar: bool, ghost x: Snapshot) returns (ghost o: Order)
      requires Snap() == x && orderHeap.Valid() && |orderHeap.activity| == |assigns| && |reason| == |level| == |pos| == |assigns|
      modifies this`assigns, this`reason, this`level, this`pos, this`seen, this`polarity, this`decision, this`watches, orderHeap
      ensures Snap() == NewVarSnapshot(x, sign, dvar, o)
      ensures HeapOk(o) && |o.activity| == |old(assigns)| + 1 && |o.indices| >= |x.order.indices| && (dvar ==> |o.indices| > |old(assigns)|)
      ensures OrderHeap.Members(o.heap) == OrderHeap.Members(x.order.heap) + if dvar then {|old(assigns)|} else {}
      ensures |assigns| == old(|assigns|) + 1 && decision == old(decision) + [dvar] && |seen| == |old(seen)| + 1
      ensures assigns == old(assigns) + [LUndef] && polarity == old(polarity) + [sign] && orderHeap.activity == old(orderHeap.activity) + [0.0]
      ensures forall v :: 0 <= v < |seen| ==> if v < |old(seen)| then seen[v] == old(seen)[v] else !seen[v]
    {
      hide HeapOk, WithVar, OrderHeap.Members;
      GrowHeap(|assigns|, dvar);
      o := Snap().order;
      AddTables(sign, dvar, x);
    }

    /** Everything but the heap. */
    method AddTables(sign: bool, dvar: bool, ghost x: Snapshot)
      requires Snap() == x.(order := Snap().order) && |reason| == |level| == |pos| == |assigns|
      modifies this`assigns, this`reason, this`level, this`pos, this`seen, this`polarity, this`decision, this`watches
      ensures Snap() == NewVarSnapshot(x, sign, dvar, old(Snap()).order)
      ensures |assigns| == old(|assigns|) + 1 && decision == old(decision) + [dvar]
      ensures assigns == old(assigns) + [LUndef] && polarity == old(polarity) + [sign]
      ensures forall v :: 0 <= v < |seen| ==> if v < |old(seen)| then seen[v] == old(seen)[v] else !seen[v]
      ensures |seen| == old(|seen|) + 1
    {
      hide WithLists;
      watches := WithLists(watches, |assigns|);
      GrowTables(sign, dvar);
    }

    method GrowTables(sign: bool, dvar: bool)
      modifies this`assigns, this`reason, this`level, this`pos, this`seen, this`polarity, this`decision
      ensures A() == old(A()).(assigns := old(assigns) + [LUndef], reason := old(reason) + [NoRef], level := old(level) + [0], pos := old(pos) + [0])
      ensures seen == old(seen) + [false] && polarity == old(polarity) + [sign] && decision == old(decision) + [dvar]
    {
      assigns, reason, level, pos := assigns + [LUndef], reason + [NoRef], level + [0], pos + [0];
      seen, polarity, decision := seen + [false], polarity + [sign], decision + [dvar];
    }

    lemma HeapFits()
      requires Valid()
      ensures orderHeap.Valid() && |orderHeap.activity| == |assigns| && |reason| == |level| == |pos| == |assigns|
    {
      if ok {
        WholeSized(Snap(), qhead);
      }
    }

    /** activity.push and, for a decision variable, insertVarOrder. */
    method GrowHeap(v: nat, dvar: bool)
      requires orderHeap.Valid() && v == |orderHeap.activity|
      modifies orderHeap
      ensures HeapOk(Snap().order) && |orderHeap.activity| == v + 1 && orderHeap.activity == old(orderHeap.activity) + [0.0]
      ensures |orderHeap.indices| >= old(|orderHeap.indices|) && (dvar ==> |orderHeap.indices| > v)
      ensures OrderHeap.Members(orderHeap.heap) == old(OrderHeap.Members(orderHeap.heap)) + if dvar then {v} else {}
    {
      orderHeap.AddVar(0.0);
      assert v !in OrderHeap.Members(orderHeap.heap) by {
        assert OrderHeap.InRange(orderHeap.heap, orderHeap.activity[..v]);
      }
      if dvar {
        orderHeap.InHeapIsMember(v);
        orderHeap.Insert(v);
      }
    }

    method UncheckedEnqueue(p: Lit, from: Ref)
      requires VarOk(A(), p) && |reason| == |level| == |pos| == |assigns|
      modifies this`assigns, this`reason, this`level, this`trail, this`pos
      ensures A() == Enqueued(old(A()), p, from) && trail == old(trail) + [p] && |assigns| == old(|assigns|)
    {
      assigns := assigns[p.v := if p.sign then LFalse else LTrue];
      reason, level := reason[p.v := from], level[p.v := |trailLim|];
      pos := pos[p.v := |trail|];
      trail := trail + [p];
    }

    method SetConfBudget(budget: int)
      modifies this`conflictBudget
      ensures conflictBudget == conflicts + budget && (old(Valid()) ==> Valid())
    {
      hide Whole, Contradictory;
      conflictBudget := conflicts + budget;
    }

    /** A negative budget is no limit. */
    predicate WithinBudget()
      reads this
    {
      !interrupted && (conflictBudget < 0 || conflicts < conflictBudget)
    }

    // ----- propagate -----

    /** Drops the watchers of removed clauses from one list. */
    method Clean(p: Lit)
      requires WatchesOk(|assigns|, ca, watches, dirties) && p in dirties && p in watches
      modifies this`watches, this`dirties
      ensures watches == old(watches)[p := LiveOnly(ca, old(watches)[p])] && dirties == old(dirties) - {p}
    {
      var vec := watches[p];
      ghost var vec0 := vec;
      assert ListOk(ca, p, vec, dirties);
      var j: nat := 0;
      for i := 0 to |vec|
        invariant j <= i && |vec| == |vec0| && vec[..j] == LiveOnly(ca, vec0[..i]) && vec[i..] == vec0[i..]
        modifies {}
      {
        NextOf(vec, vec0, i);
        assert WatcherOk(ca, p, vec0[i], dirties);
        if ca[vec[i].cref].mark != 1 {
          KeepFront(vec, i, j);
          vec := vec[j := vec[i]];
          j := j + 1;
        }
      }
      assert vec0[..|vec0|] == vec0;
      watches := watches[p := vec[..j]];
      dirties := dirties - {p};
    }

    lemma NextOf(vec: seq<Watcher>, vec0: seq<Watcher>, i: nat)
      requires i < |vec| == |vec0| && vec[i..] == vec0[i..]
      ensures vec[i] == vec0[i] && vec[i + 1..] == vec0[i + 1..] && vec0[..i + 1] == vec0[..i] + [vec0[i]]
    {
      assert vec[i..][0] == vec0[i..][0] && vec[i..][1..] == vec0[i..][1..];
    }

    lemma KeepFront(vec: seq<Watcher>, i: nat, j: nat)
      requires j <= i < |vec|
      ensures vec[j := vec[i]][..j + 1] == vec[..j] + [vec[i]] && vec[j := vec[i]][i + 1..] == vec[i + 1..]
    {}

    method CleanAll(ghost bound: nat)
      requires Searching(bound)
      modifies this`watches, this`dirties
      ensures Searching(bound) && dirties == {} && AllCleaned(ca, old(watches), old(dirties), {}, watches)
    {
      hide Whole, WatchesOk, LiveOnly;
      while dirties != {}
        invariant Searching(bound) && dirties <= old(dirties) && AllCleaned(ca, old(watches), old(dirties), dirties, watches)
      {
        var p :| p in dirties;
        ghost var x := Snap();
        WholeClean(x, bound, p);
        Clean(p);
        assert Snap() == x.(s := x.s.(watches := x.s.watches[p := LiveOnly(x.s.ca, x.s.watches[p])], dirty := x.s.dirty - {p}));
      }
    }

    /** In the middle of the watch list of `p`. */
    ghost predicate AtWatcher(p: Lit, kept: seq<Watcher>, rest: seq<Watcher>)
      reads this, orderHeap
    {
      Scans(Snap(), p, kept, rest)
    }

    ghost predicate AtClause(p: Lit, kept: seq<Watcher>, rest: seq<Watcher>)
      reads this, orderHeap
    {
      Facing(Snap(), p, kept, rest)
    }

    /** Puts the false literal second. */
    method PutFalseSecond(p: Lit, ghost kept: seq<Watcher>, ghost rest: seq<Watcher>, cr: nat)
      requires AtWatcher(p, kept, rest) && rest != [] && cr == rest[0].cref
      modifies this`ca
      ensures AtClause(p, kept, rest)
    {
      hide Scans, Facing;
      ghost var x := Snap();
      ScansSwap(x, p, kept, rest);
      if ca[cr].lits[0] == Not(p) {
        ca := ca[cr := ca[cr].(lits := ca[cr].lits[0 := ca[cr].lits[1]][1 := Not(p)])];
        assert Snap() == x.(s := x.s.(ca := Relit(x.s.ca, cr, Swapped(x.s.ca[cr].lits))));
      }
    }

    lemma FacingLits(p: Lit, kept: seq<Watcher>, rest: seq<Watcher>)
      requires AtClause(p, kept, rest)
      ensures rest != [] && rest[0].cref < |ca| && |ca[rest[0].cref].lits| >= 2 && ca[rest[0].cref].lits[1] == Not(p)
      ensures forall k :: 0 <= k < |ca[rest[0].cref].lits| ==> ca[rest[0].cref].lits[k].v < |assigns|
      ensures |reason| == |level| == |pos| == |assigns| && p in watches
    {}

    /** Looks for a literal that is not false, from the third one on. */
    method FindWatch(cr: nat) returns (k: nat)
      requires cr < |ca| && |ca[cr].lits| >= 2 && forall k :: 0 <= k < |ca[cr].lits| ==> ca[cr].lits[k].v < |assigns|
      ensures 2 <= k <= |ca[cr].lits|
      ensures k < |ca[cr].lits| ==> Value(assigns, ca[cr].lits[k]) != LFalse
      ensures forall l :: 2 <= l < k ==> Value(assigns, ca[cr].lits[l]) == LFalse
    {
      k := 2;
      while k < |ca[cr].lits| && Value(assigns, ca[cr].lits[k]) == LFalse
        invariant 2 <= k <= |ca[cr].lits|
        invariant forall l :: 2 <= l < k ==> Value(assigns, ca[cr].lits[l]) == LFalse
      {
        k := k + 1;
      }
    }

    /** The clause watches another literal from now on. */
    method MoveWatch(p: Lit, ghost kept: seq<Watcher>, ghost rest: seq<Watcher>, cr: nat, k: nat)
      requires AtClause(p, kept, rest) && rest != [] && cr == rest[0].cref && cr < |ca| && 2 <= k < |ca[cr].lits|
      requires ca[cr].lits[0].v < |assigns| && ca[cr].lits[k].v < |assigns|
      requires Value(assigns, ca[cr].lits[0]) != LTrue && Value(assigns, ca[cr].lits[k]) != LFalse
      requires ca[cr].lits[1] == Not(p)
      modifies this`ca, this`watches
      ensures AtWatcher(p, kept, rest[1..])
    {
      hide Scans, Facing;
      ghost var x := Snap();
      FacingMove(x, p, kept, rest, k);
      var lits := ca[cr].lits;
      var w := Watcher(cr, lits[0]);
      ca := ca[cr := ca[cr].(lits := lits[1 := lits[k]][k := Not(p)])];
      watches := watches[Not(lits[k]) := watches[Not(lits[k])] + [w]];
      assert Snap() == x.(s := x.s.(ca := Relit(x.s.ca, cr, Rewatched(lits, k)),
                                    watches := x.s.watches[Not(lits[k]) := x.s.watches[Not(lits[k])] + [w]]));
    }

    /** The clause is unit: its first literal becomes true. */
    method Imply(p: Lit, ghost kept: seq<Watcher>, ghost rest: seq<Watcher>, cr: nat)
      requires AtClause(p, kept, rest) && rest != [] && cr == rest[0].cref && cr < |ca| && |ca[cr].lits| >= 2
      requires forall k :: 0 <= k < |ca[cr].lits| ==> ca[cr].lits[k].v < |assigns|
      requires Value(assigns, ca[cr].lits[0]) == LUndef
      requires forall k :: 2 <= k < |ca[cr].lits| ==> Value(assigns, ca[cr].lits[k]) == LFalse
      modifies this`assigns, this`reason, this`level, this`trail, this`pos
      ensures AtWatcher(p, kept + [Watcher(cr, ca[cr].lits[0])], rest[1..])
      ensures trail == old(trail) + [ca[cr].lits[0]] && |assigns| == old(|assigns|)
    {
      hide Scans, Facing;
      ghost var x := Snap();
      FacingUnit(x, p, kept, rest);
      UncheckedEnqueue(ca[cr].lits[0], Ref(cr));
      assert Snap() == x.(s := x.s.(a := Enqueued(x.s.a, ca[cr].lits[0], Ref(cr))));
    }

    lemma ScanningParts(p: Lit, kept: seq<Watcher>, rest: seq<Watcher>)
      requires AtWatcher(p, kept, rest)
      ensures p in watches && |reason| == |level| == |pos| == |assigns|
      ensures rest != [] ==> rest[0].blocker.v < |assigns| && rest[0].cref < |ca| && |ca[rest[0].cref].lits| >= 2
    {
      if rest != [] {
        ScansBlocked(Snap(), p, kept, rest);
        ScansSwap(Snap(), p, kept, rest);
      }
    }

    /** The watchers ws[..j] of `p` have been kept and ws[i..] are left; `confl` is what has been found. */
    ghost predicate Compacted(p: Lit, ws: seq<Watcher>, i: nat, j: nat, confl: Ref)
      reads this, orderHeap
    {
      j <= i <= |ws| && 0 < qhead && WatchersLeft(p, ws[..j], ws[i..], confl)
    }

    ghost predicate WatchersLeft(p: Lit, kept: seq<Watcher>, rest: seq<Watcher>, confl: Ref)
      requires 0 < qhead
      reads this, orderHeap
    {
      if confl.NoRef? then AtWatcher(p, kept, rest)
      else p in watches && |level| == |assigns| && IsConflict(A(), ca, confl.cr) && Whole(Relisted(Snap(), p, kept + rest), qhead - 1)
    }

    /** The next watcher of `p`, whose list is compacted in place. */
    method VisitWatcher(p: Lit, ws: seq<Watcher>, i: nat, j: nat) returns (ws2: seq<Watcher>, j2: nat, confl: Ref)
      requires Compacted(p, ws, i, j, NoRef) && i < |ws|
      requires qhead <= |trail| && trail[qhead - 1] == p && (|trailLim| > 0 ==> trailLim[|trailLim| - 1] < qhead)
      modifies this`ca, this`watches, this`assigns, this`reason, this`level, this`trail, this`pos
      ensures |ws2| == |ws| && ws2[i + 1..] == ws[i + 1..] && old(trail) <= trail && |assigns| == old(|assigns|)
      ensures Compacted(p, ws2, i + 1, j2, confl)
    {
      hide Whole, Scans, Facing, IsConflict;
      ghost var kept, rest := ws[..j], ws[i..];
      ScanningParts(p, kept, rest);
      assert rest[0] == ws[i] && rest[1..] == ws[i + 1..];
      if Value(assigns, ws[i].blocker) == LTrue {
        ScansBlocked(Snap(), p, kept, rest);
        ws2, j2 := KeepIn(ws, i, j, ws[i]);
        confl := NoRef;
      } else {
        PutFalseSecond(p, kept, rest, ws[i].cref);
        ws2, j2, confl := VisitClause(p, ws, i, j);
      }
    }

    /** The clause of the watcher, whose second literal is the false one. */
    method VisitClause(p: Lit, ws: seq<Watcher>, i: nat, j: nat) returns (ws2: seq<Watcher>, j2: nat, confl: Ref)
      requires j <= i < |ws| && 0 < qhead && AtClause(p, ws[..j], ws[i..])
      requires ws[i].blocker.v < |assigns| && Value(assigns, ws[i].blocker) != LTrue
      requires qhead <= |trail| && trail[qhead - 1] == p && (|trailLim| > 0 ==> trailLim[|trailLim| - 1] < qhead)
      modifies this`ca, this`watches, this`assigns, this`reason, this`level, this`trail, this`pos
      ensures |ws2| == |ws| && ws2[i + 1..] == ws[i + 1..] && old(trail) <= trail && |assigns| == old(|assigns|)
      ensures Compacted(p, ws2, i + 1, j2, confl)
    {
      hide Whole, Scans, Facing, IsConflict;
      ghost var kept, rest := ws[..j], ws[i..];
      var cr, blocker := ws[i].cref, ws[i].blocker;
      assert rest[0] == ws[i] && rest[1..] == ws[i + 1..];
      FacingLits(p, kept, rest);
      confl := NoRef;
      var first := ca[cr].lits[0];
      var w := Watcher(cr, first);
      if first != blocker && Value(assigns, first) == LTrue {
        FacingFirst(Snap(), p, kept, rest);
        ws2, j2 := KeepIn(ws, i, j, w);
        return;
      }
      var k := FindWatch(cr);
      if k < |ca[cr].lits| {
        MoveWatch(p, kept, rest, cr, k);
        ws2, j2 := ws, j;
      } else {
        ws2, j2 := KeepIn(ws, i, j, w);
        if Value(assigns, first) == LFalse {
          FacingConflict(Snap(), p, kept, rest, qhead - 1);
          confl := Ref(cr);
        } else {
          Imply(p, kept, rest, cr);
        }
      }
    }

    /** Keeps the watcher just read. */
    method KeepIn(ws: seq<Watcher>, i: nat, j: nat, w: Watcher) returns (ws2: seq<Watcher>, j2: nat)
      requires j <= i < |ws|
      ensures j2 == j + 1 && |ws2| == |ws| && ws2[..j2] == ws[..j] + [w] && ws2[i + 1..] == ws[i + 1..]
    {
      ws2, j2 := ws[j := w], j + 1;
    }

    /** All watchers of `p`; on a conflict the remaining ones are copied. */
    method PropagateLit(p: Lit) returns (confl: Ref)
      requires qhead > 0 && qhead <= |trail| && trail[qhead - 1] == p && (|trailLim| > 0 ==> trailLim[|trailLim| - 1] < qhead)
      requires p in watches && AtWatcher(p, [], watches[p])
      modifies this`ca, this`watches, this`assigns, this`reason, this`level, this`trail, this`pos
      ensures old(trail) <= trail && |assigns| == old(|assigns|) && Scanned(confl)
    {
      hide Whole, Scans, IsConflict, Relisted;
      var ws, i, j;
      ws, i, j, confl := ScanList(p);
      if confl.Ref? {
        ws, j := CopyRest(ws, i, j);
      } else {
        assert ws[i..] == [];
        ScanningParts(p, ws[..j], []);
        ScansEnd(Snap(), p, ws[..j], qhead - 1);
      }
      StoreList(p, ws[..j], confl);
    }

    /** The literal before `qhead` has been propagated, or a clause is false. */
    ghost predicate Scanned(confl: Ref)
      reads this, orderHeap
    {
      qhead > 0 && if confl.NoRef? then Searching(qhead)
                   else |level| == |assigns| && IsConflict(A(), ca, confl.cr) && Searching(qhead - 1)
    }

    /** The loop over the watchers: to the end of the list or to the first conflict. */
    method ScanList(p: Lit) returns (ws: seq<Watcher>, i: nat, j: nat, confl: Ref)
      requires qhead > 0 && qhead <= |trail| && trail[qhead - 1] == p && (|trailLim| > 0 ==> trailLim[|trailLim| - 1] < qhead)
      requires p in watches && AtWatcher(p, [], watches[p])
      modifies this`ca, this`watches, this`assigns, this`reason, this`level, this`trail, this`pos
      ensures old(trail) <= trail && |assigns| == old(|assigns|)
      ensures Compacted(p, ws, i, j, confl) && (confl.NoRef? ==> i == |ws|)
    {
      hide AtWatcher, WatchersLeft;
      ws := watches[p];
      i, j, confl := 0, 0, NoRef;
      assert ws[..0] == [] && ws[0..] == ws;
      StartCompacting(p, ws);
      while i < |ws| && confl.NoRef?
        invariant i <= |ws| && old(trail) <= trail && |assigns| == old(|assigns|)
        invariant Compacted(p, ws, i, j, confl)
        decreases |ws| - i
      {
        ws, j, confl := VisitWatcher(p, ws, i, j);
        i := i + 1;
      }
    }

    lemma StartCompacting(p: Lit, ws: seq<Watcher>)
      requires qhead > 0 && AtWatcher(p, [], ws)
      ensures WatchersLeft(p, [], ws, NoRef)
    {}

    method StoreList(p: Lit, ws: seq<Watcher>, confl: Ref)
      requires qhead > 0 && Whole(Relisted(Snap(), p, ws), if confl.NoRef? then qhead else qhead - 1)
      requires confl.Ref? ==> |level| == |assigns| && IsConflict(A(), ca, confl.cr)
      modifies this`watches
      ensures Scanned(confl)
    {
      hide Whole, IsConflict;
      watches := watches[p := ws];
    }

    method CopyRest(ws: seq<Watcher>, i0: nat, j0: nat) returns (ws2: seq<Watcher>, j: nat)
      requires j0 <= i0 <= |ws|
      ensures j <= |ws2| && ws2[..j] == ws[..j0] + ws[i0..]
    {
      var i := i0;
      ws2, j := ws, j0;
      while i < |ws2|
        invariant j <= i <= |ws2| && |ws2| == |ws| && i0 <= i && j == j0 + (i - i0)
        invariant ws2[..j] == ws[..j0] + ws[i0..i] && ws2[i..] == ws[i..]
      {
        assert ws2[i] == ws2[i..][0] && ws[i0..i + 1] == ws[i0..i] + [ws[i]];
        ws2 := ws2[j := ws2[i]];
        i, j := i + 1, j + 1;
      }
      assert ws[i0..i] == ws[i0..];
    }

    /** Clause `cr` is false; the levels below the current one are propagated. */
    ghost predicate Conflicting(cr: nat)
      reads this, orderHeap
    {
      |level| == |assigns| && IsConflict(A(), ca, cr) && Searching(if |trailLim| > 0 then trailLim[|trailLim| - 1] else 0)
    }

    /** Unit propagation of everything on the queue. */
    method Propagate() returns (confl: Ref)
      requires Searching(qhead)
      modifies this`ca, this`watches, this`dirties, this`assigns, this`reason, this`level, this`trail, this`pos, this`qhead
      ensures qhead == |trail| && old(trail) <= trail && |trail| <= |assigns| == old(|assigns|)
      ensures if confl.NoRef? then Searching(qhead) else Conflicting(confl.cr)
    {
      hide Whole, Conflicting;
      confl := NoRef;
      CleanAll(qhead);
      QueueFits(qhead);
      while qhead < |trail|
        invariant qhead <= |trail| && old(trail) <= trail && dirties == {} && |assigns| == old(|assigns|)
        invariant if confl.NoRef? then Searching(qhead) && |trail| <= |assigns| else qhead == |trail| && Conflicting(confl.cr)
        decreases |assigns| - qhead
      {
        confl := PropagateNext();
      }
      if confl.Ref? {
        ConflictFits(confl.cr);
      }
    }

    lemma ConflictFits(cr: nat)
      requires Conflicting(cr)
      ensures |trail| <= |assigns|
    {
      QueueFits(if |trailLim| > 0 then trailLim[|trailLim| - 1] else 0);
    }

    method PropagateNext() returns (confl: Ref)
      requires Searching(qhead) && qhead < |trail| && dirties == {}
      modifies this`ca, this`watches, this`assigns, this`reason, this`level, this`trail, this`pos, this`qhead
      ensures old(qhead) < qhead <= |trail| && old(trail) <= trail && |assigns| == old(|assigns|)
      ensures if confl.NoRef? then Searching(qhead) && |trail| <= |assigns| else qhead == |trail| && Conflicting(confl.cr)
    {
      hide Whole, Scans, IsConflict;
      QueueFits(qhead);
      var p := trail[qhead];
      ScansBegin(Snap(), qhead);
      qhead := qhead + 1;
      confl := PropagateLit(p);
      SettleQueue(confl);
    }

    /** After a conflict the rest of the queue is skipped. */
    method SettleQueue(confl: Ref)
      requires Scanned(confl) && qhead <= |trail| && (|trailLim| > 0 ==> trailLim[|trailLim| - 1] < qhead)
      modifies this`qhead
      ensures old(qhead) <= qhead <= |trail|
      ensures if confl.NoRef? then Searching(qhead) && |trail| <= |assigns| else qhead == |trail| && Conflicting(confl.cr)
    {
      hide Whole, IsConflict;
      if confl.Ref? {
        QueueFits(qhead - 1);
        ConflictBound(qhead - 1);
        qhead := |trail|;
      } else {
        QueueFits(qhead);
      }
    }

    lemma QueueFits(bound: nat)
      requires Searching(bound)
      ensures |trail| <= |assigns| && bound <= |trail| && (|trailLim| > 0 ==> trailLim[|trailLim| - 1] <= bound)
    {
      TrailBound(A());
    }

    lemma ConflictBound(bound: nat)
      requires Searching(bound)
      ensures Searching(if |trailLim| > 0 then trailLim[|trailLim| - 1] else 0)
    {
      WholeLower(Snap(), bound, if |trailLim| > 0 then trailLim[|trailLim| - 1] else 0);
    }

    // ----- cancelUntil -----

    ghost predicate InOrder()
      reads this`decision, this`assigns, orderHeap
    {
      OrderOk(decision, assigns, Order(orderHeap.heap, orderHeap.indices, orderHeap.activity))
    }

    /** trail[c] loses its value and goes back into the heap. */
    method Unassign(c: nat)
      requires c < |trail| && trail[c].v < |assigns| == |polarity| && InOrder()
      modifies this`assigns, this`polarity, orderHeap
      ensures assigns == old(assigns)[trail[c].v := LUndef] && InOrder()
      ensures polarity == SavePhase(old(polarity), trail, trailLim, c, phaseSaving)
    {
      var x := trail[c].v;
      ghost var o := Snap().order;
      if phaseSaving > 1 || (phaseSaving == 1 && |trailLim| > 0 && c > trailLim[|trailLim| - 1]) {
        polarity := polarity[x := trail[c].sign];
      }
      InsertVarOrder(x);
      OrderInsert(decision, assigns, o, Snap().order, x);
      assigns := assigns[x := LUndef];
    }

    method InsertVarOrder(x: nat)
      requires x < |decision| == |orderHeap.activity| && orderHeap.Valid()
      modifies orderHeap
      ensures HeapOk(Snap().order) && orderHeap.activity == old(orderHeap.activity)
      ensures |orderHeap.indices| >= old(|orderHeap.indices|)
      ensures old(OrderHeap.Members(orderHeap.heap)) <= OrderHeap.Members(orderHeap.heap)
      ensures decision[x] ==> x in OrderHeap.Members(orderHeap.heap)
    {
      orderHeap.InHeapIsMember(x);
      if !orderHeap.InHeap(x) && decision[x] {
        orderHeap.Insert(x);
      }
    }

    /** Reverts to the state at `lvl`, keeping all assignments of that level. */
    method CancelUntil(lvl: nat, ghost bound: nat)
      requires Searching(bound) && lvl < |trailLim|
      modifies this`assigns, this`polarity, this`trail, this`trailLim, this`qhead, orderHeap
      ensures trailLim == old(trailLim)[..lvl] && Searching(qhead) && qhead == |trail|
      ensures old(trailLim[lvl] <= |trail|) && A() == Cancelled(old(A()), lvl)
      ensures trail == old(trail)[..old(trailLim)[lvl]]
      ensures PhasesSaved(old(A()), A(), old(polarity), polarity, phaseSaving)
    {
      hide Whole, OrderOk, SavePhase, PhasesSaved;
      ghost var x := Snap();
      BeforeCancel(bound, lvl);
      var from := trailLim[lvl];
      var c := |trail|;
      while c > from
        invariant from <= c <= |trail| && |assigns| == |polarity| && InOrder()
        invariant assigns == Cleared(x.s.a.assigns, trail, c) && polarity == Phases(x.polarity, trail, trailLim, c, phaseSaving)
        modifies this`assigns, this`polarity, orderHeap
        decreases c
      {
        c := c - 1;
        Unassign(c);
      }
      assert c == from && Cleared(x.s.a.assigns, x.s.a.trail, from) == assigns;
      WholeCancel(x, bound, lvl, polarity, Snap().order);
      WholeTrail(x, bound);
      CancelPhases(x.s.a, lvl, x.polarity, phaseSaving);
      qhead := from;
      trail := trail[..from];
      trailLim := trailLim[..lvl];
      assert Snap() == CancelSnapshot(x, lvl, polarity, Snap().order);
    }

    lemma BeforeCancel(bound: nat, lvl: nat)
      requires Searching(bound) && lvl < |trailLim|
      ensures trailLim[lvl] <= |trail| && |assigns| == |polarity| && InOrder()
      ensures forall i :: 0 <= i < |trail| ==> trail[i].v < |assigns|
    {
      forall i | 0 <= i < |trail| ensures trail[i].v < |assigns| {
        assert OnTrail(A(), i);
      }
    }

    // ----- addClause_ -----

    /** Adds a clause. False and repeated literals are dropped at level 0. */
    method AddClause(ps: seq<Lit>) returns (r: bool)
      requires Valid() && VarsBelow(ps, |assigns|)
      modifies this
      ensures Valid() && r == ok && formula == old(formula) + [ps] && |assigns| == old(|assigns|) && decision == old(decision)
      ensures conflictBudget == old(conflictBudget) && interrupted == old(interrupted)
    {
      hide Whole, Contradictory;
      if !ok {
        StillContradictory(Snap(), ps);
        formula := formula + [ps];
        return false;
      }
      RootState(qhead);
      var sorted := SortLits(ps);
      SortLitsOk(ps);
      forall k | 0 <= k < |sorted| ensures sorted[k].v < |assigns| {
        assert sorted[k] in ps;
      }
      var satisfied, out := FilterLits(sorted);
      if satisfied {
        CoveredSame(A(), ca, sorted, ps);
        WholeAddTrivial(Snap(), qhead, ps);
        ghost var x := Snap();
        formula := formula + [ps];
        assert Snap() == x.(formula := x.formula + [ps]);
        return true;
      }
      FilterDone(A(), ps, sorted, out);
      r := AddRest(ps, out);
    }

    /** The filtering loop: true if the clause is satisfied or trivial. */
    method FilterLits(sorted: seq<Lit>) returns (satisfied: bool, out: seq<Lit>)
      requires TrailOk(A()) && trailLim == [] && AscendingLits(sorted)
      requires forall k :: 0 <= k < |sorted| ==> sorted[k].v < |assigns|
      ensures satisfied ==> Covered(A(), ca, sorted)
      ensures !satisfied ==> Filtered(A(), sorted, |sorted|, out)
    {
      hide TrailOk, Covered;
      out := [];
      assert sorted[..0] == [];
      RootTables(A());
      for i := 0 to |sorted|
        invariant Filtered(A(), sorted, i, out)
      {
        var q := sorted[i];
        if Value(assigns, q) == LTrue || (out != [] && q == Not(out[|out| - 1])) {
          CoveredNow(A(), ca, sorted, i, out);
          return true, out;
        }
        if Value(assigns, q) != LFalse && (out == [] || q != out[|out| - 1]) {
          FilterKeep(A(), sorted, i, out);
          out := out + [q];
        } else {
          if Value(assigns, q) == LFalse {
            RootFixed(A(), q);
          }
          FilterDrop(A(), sorted, i, out);
        }
      }
      satisfied := false;
    }

    /** Empty, unit or longer: what is left of the clause. */
    method AddRest(ps: seq<Lit>, out: seq<Lit>) returns (r: bool)
      requires ok && trailLim == [] && qhead == |trail| && NoneSeen() && Searching(qhead) && VarsBelow(ps, |assigns|) && |level| == |assigns|
      requires Reduces(A(), ps, out)
      requires forall k :: 0 <= k < |out| ==> VarOk(A(), out[k]) && Value(assigns, out[k]) == LUndef
      requires forall k, l :: 0 <= k < l < |out| ==> out[k].v < out[l].v
      modifies this
      ensures Valid() && r == ok && formula == old(formula) + [ps] && |assigns| == old(|assigns|) && decision == old(decision)
      ensures conflictBudget == old(conflictBudget) && interrupted == old(interrupted)
    {
      hide Whole, Contradictory, Reduces, VarsBelow;
      ghost var x := Snap();
      if |out| == 0 {
        WholeAddEmpty(x, qhead, ps);
        formula := formula + [ps];
        assert Snap() == x.(formula := x.formula + [ps]);
        ok := false;
        r := false;
      } else if |out| == 1 {
        assert out == [out[0]];
        r := AddUnitClause(ps, out[0]);
      } else {
        AttachNew(ps, out);
        r := true;
      }
    }

    method AddUnitClause(ps: seq<Lit>, p: Lit) returns (r: bool)
      requires ok && trailLim == [] && qhead == |trail| && NoneSeen() && Searching(qhead) && VarsBelow(ps, |assigns|) && |level| == |assigns|
      requires Reduces(A(), ps, [p]) && VarOk(A(), p) && Value(assigns, p) == LUndef
      modifies this
      ensures Valid() && r == ok && formula == old(formula) + [ps] && |assigns| == old(|assigns|) && decision == old(decision)
      ensures conflictBudget == old(conflictBudget) && interrupted == old(interrupted)
    {
      hide Whole, Contradictory, Reduces, VarsBelow;
      EnqueueUnit(ps, p);
      r := PropagateRoot();
    }

    method EnqueueUnit(ps: seq<Lit>, p: Lit)
      requires trailLim == [] && Searching(qhead) && VarsBelow(ps, |assigns|) && |level| == |assigns|
      requires Reduces(A(), ps, [p]) && VarOk(A(), p) && Value(assigns, p) == LUndef
      modifies this`assigns, this`reason, this`level, this`trail, this`pos, this`formula
      ensures Searching(qhead) && formula == old(formula) + [ps] && |assigns| == old(|assigns|)
    {
      hide Whole, Reduces, VarsBelow, Enqueued;
      ghost var x := Snap();
      WholeAddUnit(x, qhead, ps, p);
      UncheckedEnqueue(p, NoRef);
      formula := formula + [ps];
      assert Snap() == x.(s := x.s.(a := Enqueued(x.s.a, p, NoRef)), formula := x.formula + [ps]);
    }

    /** Propagates at level 0; a conflict means that the clauses are contradictory. */
    method PropagateRoot() returns (r: bool)
      requires trailLim == [] && Searching(qhead) && NoneSeen()
      modifies this`ca, this`watches, this`dirties, this`assigns, this`reason, this`level, this`trail, this`pos, this`qhead, this`ok
      ensures Valid() && r == ok && |assigns| == old(|assigns|) && old(trail) <= trail
    {
      hide Whole, Contradictory, IsConflict;
      var confl := Propagate();
      if confl.Ref? {
        WholeRoot(Snap(), 0, confl.cr);
      }
      ok := confl.NoRef?;
      r := ok;
    }

    method AttachNew(ps: seq<Lit>, out: seq<Lit>)
      requires Searching(qhead) && VarsBelow(ps, |assigns|) && |level| == |assigns| && |out| >= 2 && Reduces(A(), ps, out)
      requires forall k :: 0 <= k < |out| ==> VarOk(A(), out[k]) && Value(assigns, out[k]) == LUndef
      requires forall k, l :: 0 <= k < l < |out| ==> out[k].v < out[l].v
      modifies this`ca, this`clauses, this`watches, this`formula
      ensures Searching(qhead) && formula == old(formula) + [ps]
    {
      hide Whole, Reduces, VarsBelow, Attached;
      ghost var x := Snap();
      var c := Clause(out, false, 0, false, 0.0);
      WholeAddAttached(x, qhead, ps, c);
      var cr := AllocProblem(c);
      formula := formula + [ps];
    }

    method AllocProblem(c: Clause) returns (cr: nat)
      requires |c.lits| >= 2 && Not(c.lits[0]) in watches && Not(c.lits[1]) in watches
      modifies this`ca, this`watches, this`clauses
      ensures cr == |old(ca)| && Snap() == old(Snap()).(s := Attached(old(Snap()).s, c), clauses := old(clauses) + [cr])
    {
      hide Push;
      cr := |ca|;
      ca := ca + [c];
      clauses := clauses + [cr];
      AttachClause(cr);
    }

    method AttachClause(cr: nat)
      requires cr < |ca| && |ca[cr].lits| > 1 && Not(ca[cr].lits[0]) in watches && Not(ca[cr].lits[1]) in watches
      modifies this`watches
      ensures watches == Push(Push(old(watches), Not(ca[cr].lits[0]), Watcher(cr, ca[cr].lits[1])), Not(ca[cr].lits[1]), Watcher(cr, ca[cr].lits[0]))
    {
      var c := ca[cr];
      watches := watches[Not(c.lits[0]) := watches[Not(c.lits[0])] + [Watcher(cr, c.lits[1])]];
      watches := watches[Not(c.lits[1]) := watches[Not(c.lits[1])] + [Watcher(cr, c.lits[0])]];
    }

    lemma RootState(bound: nat)
      requires Searching(bound)
      ensures TrailOk(A())
    {}

    // ----- analyze -----

    lemma CardMinus(cur: set<nat>, v: nat)
      requires v in cur
      ensures |cur - {v}| == |cur| - 1
    {}

    /** Raises the activity of `v` by the increment; both are rescaled when the activity becomes too large. */
    method BumpVar(v: nat)
      requires v < |assigns| && InOrder()
      modifies this`varInc, orderHeap
      ensures InOrder() && v < |old(orderHeap.activity)|
      ensures var raised := old(orderHeap.activity)[v := old(orderHeap.activity)[v] + old(varInc)];
              if raised[v] > OrderHeap.RESCALE_LIMIT
              then orderHeap.activity == OrderHeap.Rescaled(raised) && varInc == old(varInc) * OrderHeap.RESCALE_FACTOR
              else orderHeap.activity == raised && varInc == old(varInc)
    {
      var rescaled := orderHeap.Bump(v, varInc);
      if rescaled {
        varInc := varInc * OrderHeap.RESCALE_FACTOR;
      }
    }

    method VarDecayActivity()
      modifies this`varInc
      ensures varInc * varDecay == old(varInc)
    {
      QuotientPositive(varInc, varDecay);
      varInc := varInc / varDecay;
    }

    static lemma QuotientPositive(x: real, y: real)
      requires x > 0.0 && y > 0.0
      ensures x / y > 0.0
    {
      assert x == (x / y) * y;
    }

    /** The variables of `t` have been bumped since the activities were `act0` and the increment `inc0`. */
    ghost predicate Tally(t: seq<Lit>, act0: seq<real>, inc0: real)
      reads this`varInc, orderHeap
    {
      Bumped(act0, inc0, orderHeap.activity, varInc, t)
    }

    /** Marks the variables of ca[cr][from..] and collects the literals of lower levels. */
    method CollectClause(cr: nat, from: nat, out0: seq<Lit>, pathC0: nat, ghost cur0: set<nat>, ghost index: int,
                         ghost t0: seq<Lit>, ghost act0: seq<real>, ghost inc0: real)
        returns (out: seq<Lit>, pathC: nat, ghost cur: set<nat>, ghost t: seq<Lit>)
      requires TrailOk(A()) && Collecting(A(), seen, out0, cur0, index) && |cur0| == pathC0 && InOrder()
      requires cr < |ca| && from <= |ca[cr].lits| && ClauseBelow(A(), ca[cr].lits, from, index)
      requires |level| == |pos| == |assigns| && Gathered(A(), t0, seen, out0, index) && Tally(t0, act0, inc0)
      modifies this`seen, this`varInc, orderHeap
      ensures Collecting(A(), seen, out, cur, index) && |cur| == pathC && InOrder() && |seen| == old(|seen|) && cur0 <= cur
      ensures |level| == |assigns| && SeenSet(seen) == old(SeenSet(seen)) + High(A(), ca[cr].lits, from, |ca[cr].lits|)
      ensures Extends(A(), t0, t, ca[cr].lits, from, |ca[cr].lits|) && Gathered(A(), t, seen, out, index) && Tally(t, act0, inc0)
    {
      hide TrailOk, Collecting, InOrder, ClauseBelow, High, SeenSet, Gathered, Tally, InClause, Extends, IsHigh;
      RootTables(A());
      var c := ca[cr];
      ghost var seen0 := SeenSet(seen);
      out, pathC, cur, t := out0, pathC0, cur0, t0;
      HighNone(A(), c.lits, from);
      ExtendsSelf(A(), t, c.lits, from);
      for j := from to |c.lits|
        invariant Collecting(A(), seen, out, cur, index) && |cur| == pathC && InOrder() && cur0 <= cur
        invariant |seen| == old(|seen|) && SeenSet(seen) == seen0 + High(A(), c.lits, from, j)
        invariant Extends(A(), t0, t, c.lits, from, j) && Gathered(A(), t, seen, out, index) && Tally(t, act0, inc0)
      {
        ghost var t1 := t;
        out, pathC, cur, t := CollectAt(c.lits, from, j, out, pathC, cur, index, seen0, t, act0, inc0);
        ExtendsNext(A(), t0, t1, c.lits, from, j, t);
      }
    }

    method CollectAt(lits: seq<Lit>, ghost from: nat, j: nat, out0: seq<Lit>, pathC0: nat, ghost cur0: set<nat>, ghost index: int,
                     ghost seen0: set<nat>, ghost t0: seq<Lit>, ghost act0: seq<real>, ghost inc0: real)
        returns (out: seq<Lit>, pathC: nat, ghost cur: set<nat>, ghost t: seq<Lit>)
      requires TrailOk(A()) && |level| == |pos| == |assigns| && Collecting(A(), seen, out0, cur0, index) && |cur0| == pathC0 && InOrder()
      requires from <= j < |lits| && ClauseBelow(A(), lits, from, index) && SeenSet(seen) == seen0 + High(A(), lits, from, j)
      requires Gathered(A(), t0, seen, out0, index) && Tally(t0, act0, inc0)
      modifies this`seen, this`varInc, orderHeap
      ensures Collecting(A(), seen, out, cur, index) && |cur| == pathC && InOrder() && |seen| == old(|seen|) && cur0 <= cur
      ensures SeenSet(seen) == seen0 + High(A(), lits, from, j + 1)
      ensures t == if IsHigh(A(), lits[j].v) && !InClause(t0, lits[j].v) then t0 + [lits[j]] else t0
      ensures Gathered(A(), t, seen, out, index) && Tally(t, act0, inc0)
    {
      hide TrailOk, Collecting, InOrder, ClauseBelow, High, Gathered, Tally, InClause;
      BelowLit(A(), seen, out0, cur0, lits, from, j, index);
      HighNext(A(), lits, from, j);
      out, pathC, cur, t := CollectLit(lits[j], out0, pathC0, cur0, index, t0, act0, inc0);
    }

    method BumpFound(q: Lit, ghost t: seq<Lit>, ghost act0: seq<real>, ghost inc0: real)
      requires q.v < |assigns| && InOrder() && Tally(t, act0, inc0) && !InClause(t, q.v)
      modifies this`varInc, orderHeap
      ensures InOrder() && Tally(t + [q], act0, inc0)
    {
      hide OrderOk, Bumped, InClause;
      ghost var act1, inc1 := orderHeap.activity, varInc;
      BumpVar(q.v);
      BumpedNext(act0, inc0, act1, inc1, t, q, orderHeap.activity, varInc);
    }

    /** One literal of the clause being resolved. */
    method CollectLit(q: Lit, out0: seq<Lit>, pathC0: nat, ghost cur0: set<nat>, ghost index: int,
                      ghost t0: seq<Lit>, ghost act0: seq<real>, ghost inc0: real)
        returns (out: seq<Lit>, pathC: nat, ghost cur: set<nat>, ghost t: seq<Lit>)
      requires TrailOk(A()) && |level| == |pos| == |assigns| && Collecting(A(), seen, out0, cur0, index) && |cur0| == pathC0 && InOrder()
      requires q.v < |assigns| == |seen| && Value(assigns, q) == LFalse && (level[q.v] > 0 ==> pos[q.v] <= index)
      requires Gathered(A(), t0, seen, out0, index) && Tally(t0, act0, inc0)
      modifies this`seen, this`varInc, orderHeap
      ensures Collecting(A(), seen, out, cur, index) && |cur| == pathC && InOrder() && |seen| == old(|seen|) && cur0 <= cur
      ensures SeenSet(seen) == old(SeenSet(seen)) + if IsHigh(A(), q.v) then {q.v} else {}
      ensures t == if IsHigh(A(), q.v) && !InClause(t0, q.v) then t0 + [q] else t0
      ensures Gathered(A(), t, seen, out, index) && Tally(t, act0, inc0)
    {
      hide TrailOk, Collecting, InOrder, Gathered, Tally, InClause;
      out, pathC, cur, t := out0, pathC0, cur0, t0;
      GatherTest(A(), t, seen, out, index, q);
      if !seen[q.v] && level[q.v] > 0 {
        out, pathC, cur := MarkFound(q, out0, pathC0, cur0, index, t, act0, inc0);
        t := t + [q];
      }
    }

    /** A literal found for the first time. */
    method MarkFound(q: Lit, out0: seq<Lit>, pathC0: nat, ghost cur0: set<nat>, ghost index: int,
                     ghost t: seq<Lit>, ghost act0: seq<real>, ghost inc0: real)
        returns (out: seq<Lit>, pathC: nat, ghost cur: set<nat>)
      requires TrailOk(A()) && |level| == |pos| == |assigns| && Collecting(A(), seen, out0, cur0, index) && |cur0| == pathC0 && InOrder()
      requires q.v < |assigns| == |seen| && Value(assigns, q) == LFalse && level[q.v] > 0 && pos[q.v] <= index && !seen[q.v]
      requires Gathered(A(), t, seen, out0, index) && Tally(t, act0, inc0) && !InClause(t, q.v)
      modifies this`seen, this`varInc, orderHeap
      ensures Collecting(A(), seen, out, cur, index) && |cur| == pathC && InOrder() && seen == old(seen)[q.v := true] && cur0 <= cur
      ensures SeenSet(seen) == old(SeenSet(seen)) + {q.v}
      ensures Gathered(A(), t + [q], seen, out, index) && Tally(t + [q], act0, inc0)
    {
      hide TrailOk, Collecting, InOrder, Gathered, Tally, InClause, SeenSet;
      out, pathC, cur := out0, pathC0, cur0;
      CollectFound(A(), t, seen, out, cur, index, q);
      BumpFound(q, t, act0, inc0);
      seen := seen[q.v := true];
      if level[q.v] >= |trailLim| {
        pathC := pathC + 1;
        cur := cur + {q.v};
      } else {
        out := out + [q];
      }
    }

    /** Walks down the trail to the last seen literal and unmarks it. */
    method TakeNext(index0: int, ghost out: seq<Lit>, ghost cur: set<nat>, ghost x: Snapshot, ghost confl: nat, ghost t: seq<Lit>)
        returns (p: Lit, index: int)
      requires TrailOk(A()) && index0 < |trail| && |trailLim| > 0
      requires Collecting(A(), seen, out, cur, index0) && cur != {} && NoGood(A(), formula, SeenSet(seen))
      requires Like(x) && confl < |x.s.ca| && FoundDown(x, confl, t, seen, out, index0)
      modifies this`seen
      ensures index < index0 && p.v in cur && AtUip(A(), formula, seen, out, cur - {p.v}, index, p)
      ensures FoundTo(x, confl, t, seen, out, index)
    {
      hide TrailOk, Collecting, NoGood, AtUip, FoundDown, FoundTo;
      var i := index0;
      RootTables(A());
      SearchEnds(A(), seen, out, cur, i);
      while !seen[trail[i].v]
        invariant 0 <= i <= index0 && Collecting(A(), seen, out, cur, i)
        invariant trail[i].v < |assigns| == |seen| && (seen[trail[i].v] ==> trail[i].v in cur)
        invariant FoundDown(x, confl, t, seen, out, i)
        modifies {}
        decreases i
      {
        LowerIndex(A(), seen, out, cur, i);
        FoundSkip(x, confl, t, seen, out, i);
        i := i - 1;
        SearchEnds(A(), seen, out, cur, i);
      }
      p := trail[i];
      TakenAt(A(), formula, seen, out, cur, i);
      FoundTake(x, confl, t, seen, out, cur, i);
      seen := seen[p.v := false];
      index := i - 1;
    }

    /** The solver's state but for seen flags and heap is that of `x`. */
    ghost predicate Like(x: Snapshot)
      reads this
    {
      A() == x.s.a && ca == x.s.ca && formula == x.formula
    }

    /** One round of the resolution loop. */
    method ResolveOnce(out0: seq<Lit>, pathC0: nat, ghost cur0: set<nat>, index0: int, p0: Lit, ghost x: Snapshot, ghost bound: nat,
                       ghost confl: nat, ghost t0: seq<Lit>, ghost act0: seq<real>, ghost inc0: real)
        returns (out: seq<Lit>, pathC: nat, ghost cur: set<nat>, index: int, p: Lit, ghost t: seq<Lit>)
      requires Whole(x, bound) && Like(x) && InOrder()
      requires AtUip(A(), formula, seen, out0, cur0, index0, p0) && |cur0| == pathC0 > 0
      requires TrailOk(x.s.a) && confl < |x.s.ca| && FoundTo(x, confl, t0, seen, out0, index0) && Tally(t0, act0, inc0)
      modifies this`seen, this`varInc, orderHeap
      ensures AtUip(A(), formula, seen, out, cur, index, p) && |cur| == pathC && index < index0 && InOrder()
      ensures FoundTo(x, confl, t, seen, out, index) && Tally(t, act0, inc0)
    {
      hide Whole, Collecting, NoGood, OrderOk, ClauseBelow, TrailOk, High, SeenSet, FoundDown, FoundTo, Gathered, Bumped;
      NextReason(x, bound, seen, out0, cur0, index0, p0);
      FoundReason(x, bound, confl, t0, seen, out0, cur0, index0, p0);
      RootTables(A());
      var cr := reason[p0.v].cr;
      out, pathC, cur, t := CollectClause(cr, 1, out0, pathC0, cur0, index0, t0, act0, inc0);
      FoundFollowed(x, confl, t0, index0, t, seen, out);
      p, index := TakeNext(index0, out, cur, x, confl, t);
      CardMinus(cur, p.v);
      pathC, cur := pathC - 1, cur - {p.v};
    }

    /** The conflict clause itself, and the first literal to resolve on. */
    method FirstRound(confl: nat, ghost x: Snapshot, ghost bound: nat)
        returns (out: seq<Lit>, pathC: nat, ghost cur: set<nat>, index: int, p: Lit, ghost t: seq<Lit>)
      requires Whole(x, bound) && Like(x) && |level| == |assigns| && IsConflict(A(), ca, confl) && |trailLim| > 0 && NoneSeen() && InOrder()
      modifies this`seen, this`varInc, orderHeap
      ensures AtUip(A(), formula, seen, out, cur, index, p) && |cur| == pathC && InOrder()
      ensures TrailOk(x.s.a) && confl < |x.s.ca| && FoundTo(x, confl, t, seen, out, index) && Tally(t, old(orderHeap.activity), old(varInc))
    {
      hide Whole, Collecting, NoGood, AtUip, OrderOk, IsConflict, ClauseBelow, TrailOk, High, SeenSet, FoundDown, FoundTo, Gathered, Bumped;
      WholeTrail(x, bound);
      StartCollecting(A(), seen);
      ConflictClause(x, bound, confl);
      GatheredBegins(A(), seen, |trail| - 1);
      BumpedBegins(orderHeap.activity, varInc);
      out, pathC, cur, t := CollectClause(confl, 0, [], 0, {}, |trail| - 1, [], orderHeap.activity, varInc);
      FoundFirst(x, confl, t, seen, out);
      assert SeenSet(seen) == High(A(), ca[confl].lits, 0, |ca[confl].lits|);
      CurrentCollected(A(), seen, out, cur, |trail| - 1);
      p, index := TakeNext(|trail| - 1, out, cur, x, confl, t);
      CardMinus(cur, p.v);
      pathC, cur := pathC - 1, cur - {p.v};
    }

    /** First unique implication point: resolves back until one literal of the current level is left. */
    method FirstUip(confl: nat, ghost x: Snapshot, ghost bound: nat) returns (out: seq<Lit>, p: Lit, ghost index: int)
      requires Whole(x, bound) && Like(x) && |level| == |assigns| && IsConflict(A(), ca, confl) && |trailLim| > 0 && NoneSeen() && InOrder()
      modifies this`seen, this`varInc, orderHeap
      ensures AtUip(A(), formula, seen, out, {}, index, p) && InOrder() && |seen| == |assigns|
      ensures TrailOk(x.s.a) && confl < |x.s.ca| && -1 <= index < |trail| - 1 && trail[index + 1] == p && FirstUipAt(x, confl, index + 1)
      ensures out == Lower(A(), Found(x, confl, index + 1))
      ensures Tally(Found(x, confl, index + 1), old(orderHeap.activity), old(varInc))
    {
      hide Whole, AtUip, OrderOk, IsConflict, FoundTo, FirstUipAt, Found, Bumped, Lower;
      var pathC: nat;
      ghost var cur: set<nat>;
      var i: int;
      ghost var t: seq<Lit>;
      out, pathC, cur, i, p, t := FirstRound(confl, x, bound);
      UipIndex(A(), formula, seen, out, cur, i, p);
      while pathC > 0
        invariant AtUip(A(), formula, seen, out, cur, i, p) && |cur| == pathC && InOrder() && -1 <= i && |seen| == |assigns|
        invariant FoundTo(x, confl, t, seen, out, i) && Tally(t, old(orderHeap.activity), old(varInc))
        decreases i
      {
        out, pathC, cur, i, p, t := ResolveOnce(out, pathC, cur, i, p, x, bound, confl, t, old(orderHeap.activity), old(varInc));
        UipIndex(A(), formula, seen, out, cur, i, p);
      }
      index := i;
      FoundUip(x, confl, t, seen, out, index, p);
    }

    /** seen[..] is cleared again for the literals marked since `top`. */
    method Unmark(top: nat, ghost seen0: seq<bool>)
      requires top <= |analyzeToClear| && Marked(seen0, seen, analyzeToClear[top..])
      modifies this`seen, this`analyzeToClear
      ensures seen == seen0 && |seen| == old(|seen|) && analyzeToClear == old(analyzeToClear)[..top]
    {
      ghost var seen1, marks := seen, analyzeToClear[top..];
      for j := top to |analyzeToClear|
        invariant analyzeToClear == old(analyzeToClear) && |seen| == |seen1|
        invariant forall v: nat :: v < |seen| ==> (seen[v] <==> seen1[v] && v !in VarSet(marks[..j - top]))
      {
        assert marks[..j + 1 - top] == marks[..j - top] + [analyzeToClear[j]];
        VarSetSnoc(marks[..j - top], analyzeToClear[j]);
        MarkedLit(seen0, seen1, marks, j - top);
        seen := seen[analyzeToClear[j].v := false];
      }
      assert marks[..|analyzeToClear| - top] == marks;
      UnmarkedAll(seen0, seen1, seen, marks);
      analyzeToClear := analyzeToClear[..top];
    }

    /** Scans the reason of the last literal on the stack; false if a literal cannot be removed. */
    method ScanTop(top: nat, abstractLevels: set<nat>, ghost seen0: seq<bool>, ghost keep: set<nat>, ghost q0: nat, ghost x: Snapshot, ghost bound: nat)
        returns (fine: bool)
      requires Whole(x, bound) && Like(x) && top <= |analyzeToClear| && analyzeStack != []
      requires Exploring(x, seen0, seen, analyzeToClear[top..], analyzeStack, keep, {})
      requires Tracing(x, SeenSet(seen0), abstractLevels, q0, analyzeToClear[top..], VarSet(analyzeStack))
      modifies this`seen, this`analyzeStack, this`analyzeToClear
      ensures old(analyzeToClear) <= analyzeToClear && |seen| == old(|seen|) && old(SeenSet(seen)) <= SeenSet(seen)
      ensures fine ==> Exploring(x, seen0, seen, analyzeToClear[top..], analyzeStack, keep, {})
      ensures fine && SeenSet(seen) == old(SeenSet(seen)) ==> |analyzeStack| < old(|analyzeStack|)
      ensures Marked(seen0, seen, analyzeToClear[top..])
      ensures if fine then Tracing(x, SeenSet(seen0), abstractLevels, q0, analyzeToClear[top..], VarSet(analyzeStack))
              else Blocked(x, SeenSet(seen0), abstractLevels, q0)
    {
      hide Whole, Exploring, TrailOk, Marked, Tracing, Blocked;
      var q := analyzeStack[|analyzeStack| - 1];
      WholeTrail(x, bound);
      TracingPop(x, SeenSet(seen0), abstractLevels, q0, analyzeToClear[top..], analyzeStack);
      PopStack(x, seen0, seen, analyzeToClear[top..], analyzeStack, keep);
      analyzeStack := analyzeStack[..|analyzeStack| - 1];
      ExploringTables(x, seen0, seen, analyzeToClear[top..], analyzeStack, keep, {q.v}, q.v);
      LiveReason(x, bound, q.v);
      var c := ca[reason[q.v].cr];
      ghost var stack0, s0 := analyzeStack, SeenSet(seen);
      var i := 1;
      while i < |c.lits|
        invariant 1 <= i && old(analyzeToClear) <= analyzeToClear && |seen| == old(|seen|) && s0 <= SeenSet(seen)
        invariant Exploring(x, seen0, seen, analyzeToClear[top..], analyzeStack, keep, {q.v})
        invariant High(A(), c.lits, 1, i) <= SeenSet(seen)
        invariant SeenSet(seen) == s0 ==> analyzeStack == stack0
        invariant Tracing(x, SeenSet(seen0), abstractLevels, q0, analyzeToClear[top..], VarSet(analyzeStack) + {q.v})
      {
        fine := VisitLit(c.lits, i, top, abstractLevels, seen0, keep, q.v, q0, x, bound);
        if !fine {
          ExploringTables(x, seen0, seen, analyzeToClear[top..], analyzeStack, keep, {q.v}, q.v);
          return;
        }
        i := i + 1;
      }
      assert High(A(), c.lits, 1, |c.lits|) <= High(A(), c.lits, 1, i);
      ScannedReason(x, seen0, seen, analyzeToClear[top..], analyzeStack, keep, q.v);
      ExploringTables(x, seen0, seen, analyzeToClear[top..], analyzeStack, keep, {}, q.v);
      TracingLess(x, SeenSet(seen0), abstractLevels, q0, analyzeToClear[top..], VarSet(analyzeStack) + {q.v}, VarSet(analyzeStack));
      fine := true;
    }

    method VisitLit(lits: seq<Lit>, i: nat, top: nat, abstractLevels: set<nat>, ghost seen0: seq<bool>, ghost keep: set<nat>, ghost v: nat,
                    ghost q0: nat, ghost x: Snapshot, ghost bound: nat)
        returns (fine: bool)
      requires Whole(x, bound) && Like(x) && top <= |analyzeToClear| && 1 <= i < |lits| && lits[i].v < |assigns| == |level|
      requires assigns[lits[i].v] != LUndef && level[lits[i].v] < |trailLim|
      requires Exploring(x, seen0, seen, analyzeToClear[top..], analyzeStack, keep, {v}) && High(A(), lits, 1, i) <= SeenSet(seen)
      requires TrailOk(x.s.a) && HasLiveReason(x, v) && lits == x.s.ca[x.s.a.reason[v].cr].lits
      requires Tracing(x, SeenSet(seen0), abstractLevels, q0, analyzeToClear[top..], VarSet(analyzeStack) + {v})
      modifies this`seen, this`analyzeStack, this`analyzeToClear
      ensures old(analyzeToClear) <= analyzeToClear && |seen| == old(|seen|) && old(SeenSet(seen)) <= SeenSet(seen)
      ensures Exploring(x, seen0, seen, analyzeToClear[top..], analyzeStack, keep, {v})
      ensures fine ==> High(A(), lits, 1, i + 1) <= SeenSet(seen)
      ensures SeenSet(seen) == old(SeenSet(seen)) ==> analyzeStack == old(analyzeStack)
      ensures if fine then Tracing(x, SeenSet(seen0), abstractLevels, q0, analyzeToClear[top..], VarSet(analyzeStack) + {v})
              else Blocked(x, SeenSet(seen0), abstractLevels, q0)
    {
      hide Whole, Exploring, TrailOk, Tracing, Blocked, VarSet, Live;
      var p := lits[i];
      WholeTrail(x, bound);
      ExploringTables(x, seen0, seen, analyzeToClear[top..], analyzeStack, keep, {v}, p.v);
      HighNext(A(), lits, 1, i);
      fine := true;
      if !seen[p.v] && level[p.v] > 0 {
        if reason[p.v].Ref? && level[p.v] % 32 in abstractLevels {
          LiveReason(x, bound, p.v);
          TracingMark(x, SeenSet(seen0), abstractLevels, q0, analyzeToClear[top..], analyzeStack, v, i);
          MarkLit(x, seen0, seen, analyzeToClear[top..], analyzeStack, keep, {v}, p);
          assert (analyzeToClear + [p])[top..] == analyzeToClear[top..] + [p];
          seen := seen[p.v := true];
          analyzeStack := analyzeStack + [p];
          analyzeToClear := analyzeToClear + [p];
        } else {
          TracingStuck(x, SeenSet(seen0), abstractLevels, q0, analyzeToClear[top..], analyzeStack, v, i);
          fine := false;
        }
      }
    }

    /** Checks whether literal `q` can be removed because the rest of the clause implies it. */
    method LitRedundant(q: Lit, abstractLevels: set<nat>, ghost keep: set<nat>, ghost x: Snapshot, ghost bound: nat) returns (r: bool)
      requires Whole(x, bound) && Like(x) && TrailOk(A()) && |seen| == |assigns| && StackOk(x, seen, q)
      requires AllHigh(A(), SeenSet(seen)) && Justified(A(), ca, SeenSet(seen), keep + {q.v}, {}) && SeenSet(seen) <= VarSet(analyzeToClear)
      requires keep <= SeenSet(seen) && q.v !in keep
      modifies this`seen, this`analyzeStack, this`analyzeToClear
      ensures |seen| == |assigns| == |level| == |reason| == |pos|
      ensures TrailOk(x.s.a) && (r <==> !Blocked(x, old(SeenSet(seen)), abstractLevels, q.v))
      ensures r ==> NewFree(x, abstractLevels, old(SeenSet(seen)), SeenSet(seen))
      ensures r ==> old(SeenSet(seen)) <= SeenSet(seen) <= VarSet(analyzeToClear) && AllHigh(A(), SeenSet(seen))
      ensures r ==> Justified(A(), ca, SeenSet(seen), keep, {})
      ensures !r ==> seen == old(seen) && analyzeToClear == old(analyzeToClear)
    {
      hide Whole, Exploring, AllHigh, Justified, StackOk, Tracing, Blocked, NewFree, TrailOk, SeenSet, VarSet;
      ghost var seen0, toClear0 := seen, analyzeToClear;
      analyzeStack := [q];
      var top := |analyzeToClear|;
      TestBegins(x, seen, abstractLevels, q, keep, analyzeToClear);
      RootTables(A());
      r := Explore(top, abstractLevels, seen0, keep, q.v, x, bound);
      if r {
        TestPassed(x, seen0, seen, abstractLevels, q, keep, toClear0, analyzeToClear);
      }
    }

    /** The loop of litRedundant: empties the stack, or gives up and takes all marks back. */
    method Explore(top: nat, abstractLevels: set<nat>, ghost seen0: seq<bool>, ghost keep: set<nat>, ghost q0: nat, ghost x: Snapshot, ghost bound: nat)
        returns (r: bool)
      requires Whole(x, bound) && Like(x) && top <= |analyzeToClear|
      requires Exploring(x, seen0, seen, analyzeToClear[top..], analyzeStack, keep, {})
      requires TrailOk(x.s.a) && Tracing(x, SeenSet(seen0), abstractLevels, q0, analyzeToClear[top..], VarSet(analyzeStack))
      modifies this`seen, this`analyzeStack, this`analyzeToClear
      ensures |seen| == old(|seen|)
      ensures r ==> old(analyzeToClear) <= analyzeToClear && Exploring(x, seen0, seen, analyzeToClear[top..], [], keep, {})
      ensures !r ==> seen == seen0 && analyzeToClear == old(analyzeToClear)[..top]
      ensures if r then Tracing(x, SeenSet(seen0), abstractLevels, q0, analyzeToClear[top..], {}) else Blocked(x, SeenSet(seen0), abstractLevels, q0)
    {
      hide Whole, Exploring, Marked, SeenSet, Tracing, Blocked, TrailOk, VarSet, Below;
      while analyzeStack != []
        invariant old(analyzeToClear) <= analyzeToClear && |seen| == old(|seen|)
        invariant Exploring(x, seen0, seen, analyzeToClear[top..], analyzeStack, keep, {})
        invariant Tracing(x, SeenSet(seen0), abstractLevels, q0, analyzeToClear[top..], VarSet(analyzeStack))
        decreases |Below(|seen|) - SeenSet(seen)|, |analyzeStack|
      {
        ghost var before := SeenSet(seen);
        var fine := ScanTop(top, abstractLevels, seen0, keep, q0, x, bound);
        FewerUnseen(|seen|, before, SeenSet(seen));
        if !fine {
          Unmark(top, seen0);
          return false;
        }
      }
      TracingAll(x, SeenSet(seen0), abstractLevels, q0, analyzeToClear[top..]);
      r := true;
    }

    /** Whether the literal at position `j` goes, by the test of the configured mode. */
    method MinimiseOne(p: Lit, lits: seq<Lit>, j: nat, abstractLevels: set<nat>, ghost out: seq<Lit>, ghost x: Snapshot, ghost bound: nat)
        returns (drop: bool)
      requires Whole(x, bound) && Like(x) && j < |lits| && Minimising(x, p, seen, lits, analyzeToClear, VarSet(out))
      requires TrailOk(x.s.a) && abstractLevels == Residues(x, out) && Testing(x, ccminMode, out, SeenSet(seen))
      requires p.v < |assigns| == |level| && level[p.v] == |trailLim| && (ccminMode == 1 || ccminMode == 2)
      modifies this`seen, this`analyzeStack, this`analyzeToClear
      ensures Minimising(x, p, seen, if drop then Without(lits, j) else lits, analyzeToClear, VarSet(out))
      ensures Testing(x, ccminMode, out, SeenSet(seen)) && (drop <==> !Stays(x, ccminMode, out, lits[j].v))
    {
      hide Whole, Minimising, TrailOk, Justified, AllHigh, LitsLeft, Testing, Stays, Residues, Blocked, NewFree;
      var q := lits[j];
      ghost var allVars := VarSet(out);
      LeftLit(x, p, seen, lits, j, analyzeToClear, allVars);
      WholeTrail(x, bound);
      drop := false;
      if reason[q.v].Ref? {
        LiveReason(x, bound, q.v);
        if ccminMode == 2 {
          ghost var seen0, toClear0 := seen, analyzeToClear;
          BeforeRedundant(x, bound, p, seen, lits, j, analyzeToClear, allVars);
          drop := LitRedundant(q, abstractLevels, VarSet(lits) - {q.v}, x, bound);
          DeepTest(x, out, SeenSet(seen0), q.v, drop, SeenSet(seen));
          if drop {
            DropLit(x, p, seen0, seen, lits, j, toClear0, analyzeToClear, allVars);
          }
        } else {
          drop := SimpleTest(reason[q.v].cr);
          SimpleTestIs(x, out, SeenSet(seen), q.v, drop);
          if drop {
            SimplyRedundant(x, p, seen, lits, j, analyzeToClear, allVars, reason[q.v].cr);
          }
        }
      } else {
        DecisionStays(x, ccminMode, out, q.v);
      }
    }

    method SimpleTest(cr: nat) returns (r: bool)
      requires cr < |ca| && |level| == |seen| == |assigns| && forall k :: 0 <= k < |ca[cr].lits| ==> ca[cr].lits[k].v < |assigns|
      ensures r <==> High(A(), ca[cr].lits, 1, |ca[cr].lits|) <= SeenSet(seen)
    {
      var c := ca[cr];
      var k := 1;
      while k < |c.lits|
        invariant 1 <= k && High(A(), c.lits, 1, k) <= SeenSet(seen)
      {
        HighNext(A(), c.lits, 1, k);
        if !seen[c.lits[k].v] && level[c.lits[k].v] > 0 {
          assert c.lits[k].v in High(A(), c.lits, 1, |c.lits|);
          return false;
        }
        k := k + 1;
      }
      assert High(A(), c.lits, 1, |c.lits|) <= High(A(), c.lits, 1, k);
      r := true;
    }

    /** Simplifies the conflict clause ~p, out. */
    method Minimise(p: Lit, out: seq<Lit>, ghost x: Snapshot, ghost bound: nat, ghost index: int) returns (kept: seq<Lit>)
      requires Whole(x, bound) && Like(x) && AtUip(A(), formula, seen, out, {}, index, p)
      requires p.v < |assigns| == |level| && level[p.v] == |trailLim|
      modifies this`seen, this`analyzeStack, this`analyzeToClear
      ensures Minimising(x, p, seen, kept, analyzeToClear, VarSet(out))
      ensures TrailOk(x.s.a) && Sifted(x, ccminMode, out, |out|, kept)
    {
      WholeTrail(x, bound);
      hide Whole, Minimising, AtUip, Testing, Stays, Residues, TrailOk, VarSet, Sifted, SeenSet;
      analyzeToClear := [Not(p)] + out;
      MinimisingBegins(x, seen, out, index, p);
      TestingBegins(x, ccminMode, out);
      if ccminMode != 1 && ccminMode != 2 {
        AllStay(x, ccminMode, out, |out|);
        assert out[..|out|] == out;
        return out;
      }
      var abstractLevels := AbstractLevels(out, x, p);
      kept := MinimiseAll(p, out, abstractLevels, x, bound);
    }

    method MinimiseAll(p: Lit, out: seq<Lit>, abstractLevels: set<nat>, ghost x: Snapshot, ghost bound: nat) returns (kept: seq<Lit>)
      requires Whole(x, bound) && Like(x) && Minimising(x, p, seen, out, analyzeToClear, VarSet(out))
      requires TrailOk(x.s.a) && abstractLevels == Residues(x, out) && Testing(x, ccminMode, out, SeenSet(seen))
      requires p.v < |assigns| == |level| && level[p.v] == |trailLim| && (ccminMode == 1 || ccminMode == 2)
      modifies this`seen, this`analyzeStack, this`analyzeToClear
      ensures Minimising(x, p, seen, kept, analyzeToClear, VarSet(out)) && Sifted(x, ccminMode, out, |out|, kept)
    {
      hide Whole, Minimising, Testing, Stays, Residues, TrailOk, VarSet, Sifted, SeenSet;
      kept := [];
      SiftedBegins(x, ccminMode, out);
      assert [] + out[0..] == out;
      for i := 0 to |out|
        invariant Minimising(x, p, seen, kept + out[i..], analyzeToClear, VarSet(out))
        invariant Testing(x, ccminMode, out, SeenSet(seen)) && Sifted(x, ccminMode, out, i, kept)
      {
        ghost var kept1 := kept;
        kept := MinimiseNext(p, kept, out, i, abstractLevels, x, bound);
        SiftedNext(x, ccminMode, out, i, kept1, kept);
      }
      assert kept + out[|out|..] == kept;
    }

    method MinimiseNext(p: Lit, kept0: seq<Lit>, out: seq<Lit>, i: nat, abstractLevels: set<nat>, ghost x: Snapshot, ghost bound: nat)
        returns (kept: seq<Lit>)
      requires Whole(x, bound) && Like(x) && i < |out| && Minimising(x, p, seen, kept0 + out[i..], analyzeToClear, VarSet(out))
      requires TrailOk(x.s.a) && abstractLevels == Residues(x, out) && Testing(x, ccminMode, out, SeenSet(seen))
      requires p.v < |assigns| == |level| && level[p.v] == |trailLim| && (ccminMode == 1 || ccminMode == 2)
      modifies this`seen, this`analyzeStack, this`analyzeToClear
      ensures Minimising(x, p, seen, kept + out[i + 1..], analyzeToClear, VarSet(out)) && Testing(x, ccminMode, out, SeenSet(seen))
      ensures kept == if Stays(x, ccminMode, out, out[i].v) then kept0 + [out[i]] else kept0
    {
      hide Whole, Minimising, Testing, Stays, Residues, TrailOk, VarSet, SeenSet;
      kept := kept0;
      var j := |kept|;
      assert (kept + out[i..])[j] == out[i] && Without(kept + out[i..], j) == kept + out[i + 1..];
      var drop := MinimiseOne(p, kept + out[i..], j, abstractLevels, out, x, bound);
      if !drop {
        assert kept + out[i..] == (kept + [out[i]]) + out[i + 1..];
        kept := kept + [out[i]];
      }
    }

    /** The levels of the clause modulo 32: the bits of abstract_level. */
    method AbstractLevels(out: seq<Lit>, ghost x: Snapshot, ghost p: Lit) returns (levels: set<nat>)
      requires Like(x) && |level| == |assigns| && Minimising(x, p, seen, out, analyzeToClear, VarSet(out)) && TrailOk(x.s.a)
      ensures levels == Residues(x, out)
    {
      hide Minimising, TrailOk;
      levels := {};
      for i := 0 to |out|
        invariant levels == set k | 0 <= k < i && out[k].v < |assigns| :: level[out[k].v] % 32
      {
        LeftLit(x, p, seen, out, i, analyzeToClear, VarSet(out));
        levels := levels + {level[out[i].v] % 32};
      }
    }

    /** A literal of the highest level. */
    method FindMax(kept: seq<Lit>) returns (m: nat)
      requires kept != [] && |level| == |assigns| && forall k :: 0 <= k < |kept| ==> OutOk(A(), kept[k])
      ensures Highest(A(), kept, m) && forall k :: 0 <= k < m ==> level[kept[k].v] < level[kept[m].v]
    {
      m := 0;
      for i := 1 to |kept|
        invariant m < i && forall k :: 0 <= k < m ==> level[kept[k].v] < level[kept[m].v]
        invariant m < |kept| && forall k :: 0 <= k < i ==> level[kept[k].v] <= level[kept[m].v]
      {
        if level[kept[i].v] > level[kept[m].v] {
          m := i;
        }
      }
    }

    method ClearSeen()
      requires |seen| == |assigns| && SeenSet(seen) <= VarSet(analyzeToClear)
      modifies this`seen
      ensures NoneSeen()
    {
      for j := 0 to |analyzeToClear|
        invariant |seen| == |assigns|
        invariant forall v: nat :: v < |seen| && seen[v] ==> InClause(analyzeToClear, v)
        invariant forall k :: 0 <= k < j && analyzeToClear[k].v < |seen| ==> !seen[analyzeToClear[k].v]
      {
        if analyzeToClear[j].v < |seen| {
          seen := seen[analyzeToClear[j].v := false];
        }
      }
    }

    /** Produces the learnt clause and the level to return to. */
    method Analyze(confl: nat, ghost bound: nat) returns (learnt: seq<Lit>, btlevel: nat, ghost uip: nat)
      requires Searching(bound) && |level| == |assigns| && IsConflict(A(), ca, confl) && |trailLim| > 0 && NoneSeen()
      modifies this`seen, this`analyzeStack, this`analyzeToClear, this`varInc, orderHeap
      ensures Searching(bound) && NoneSeen() && |level| == |assigns| && LearntOk(A(), formula, learnt, btlevel)
      ensures TrailOk(A()) && confl < |ca| && LearntFrom(old(Snap()), confl, ccminMode, uip, learnt)
      ensures Tally(Found(old(Snap()), confl, uip), old(orderHeap.activity), old(varInc))
    {
      hide Whole, AtUip, OrderOk, IsConflict, Minimising, LearntOk, Highest, SeenSet, VarSet, TrailOk, FirstUipAt, Sifted, SecondHighest, LearntFrom, Tally, LitsLeft, Entails;
      ghost var x := Snap();
      WholeOrder(x, bound);
      ghost var index: int;
      var out, p;
      out, p, index := FirstUip(confl, x, bound);
      uip := index + 1;
      UipFacts(A(), formula, seen, out, {}, index, p);
      var kept := Minimise(p, out, x, bound, index);
      MinimisedEntails(x, bound, p, seen, kept, analyzeToClear, VarSet(out));
      MinimisedFacts(x, p, seen, kept, analyzeToClear, VarSet(out));
      learnt, btlevel := ChooseLevel(p, kept, SeenSet(seen));
      LearntFromUip(x, confl, ccminMode, uip, out, kept, learnt);
      ClearSeen();
      WholeSeen(x, bound, seen, Snap().order);
      assert Snap() == x.(seen := seen, order := Snap().order);
    }

    /** The level to return to: that of the literal that goes second. */
    method ChooseLevel(p: Lit, kept: seq<Lit>, ghost left: set<nat>) returns (learnt: seq<Lit>, btlevel: nat)
      requires TrailOk(A()) && VarOk(A(), p) && Value(assigns, p) == LTrue && |level| == |assigns| && level[p.v] == |trailLim| > 0
      requires Entails(|assigns|, formula, [Not(p)] + kept) && LitsLeft(A(), left, kept) && p.v !in left
      ensures LearntOk(A(), formula, learnt, btlevel) && SecondHighest(A(), p, kept, learnt)
    {
      hide TrailOk, Entails, LearntOk, Highest, SecondHighest;
      if kept == [] {
        learnt, btlevel := [Not(p)], 0;
        LearntUnit(A(), formula, p);
        OnlyUip(A(), p);
      } else {
        var m := FindMax(kept);
        LearntFinal(A(), formula, p, left, kept, m);
        learnt, btlevel := HighestSecond([Not(p)] + kept, m + 1), level[kept[m].v];
        SecondIsHighest(A(), p, kept, m);
      }
    }

    // ----- garbage collection -----

    /** reloc: the new place of clause `cr`, moving it on first sight. */
    method Reloc(cr: nat, to: seq<Clause>, ghost mv: Moves, ghost x: Snapshot, ghost st: Stage)
        returns (cr2: nat, to2: seq<Clause>, ghost mv2: Moves)
      requires Progress(x, Snap(), to, mv, st) && Movable(x, cr)
      modifies this`ca
      ensures Progress(x, Snap(), to2, mv2, st) && Later(mv, mv2) && cr in mv2.fwd && cr2 == mv2.fwd[cr]
    {
      hide Progress, Movable;
      ProgressBounds(x, Snap(), to, mv, st, cr);
      var c := ca[cr];
      if c.reloced {
        return ToInt(c.lits[0]), to, mv;
      }
      ProgressNew(x, Snap(), to, mv, st, cr);
      ghost var y := Snap();
      cr2, to2, mv2 := |to|, to + [Clause(c.lits, c.learnt, c.mark, false, if c.learnt then c.act else 0.0)], AddMove(mv, cr, |to|);
      ca := ca[cr := c.(reloced := true, lits := c.lits[0 := ToLit(cr2)])];
      assert Snap() == y.(s := y.s.(ca := y.s.ca[cr := Forward(y.s.ca[cr], |to|)]));
    }

    method RelocList(p: Lit, to0: seq<Clause>, ghost mv0: Moves, ghost x: Snapshot, ghost bound: nat, ghost st: Stage)
        returns (to: seq<Clause>, ghost mv: Moves)
      requires Whole(x, bound) && x.s.dirty == {} && Progress(x, Snap(), to0, mv0, st) && p in x.s.watches && ToInt(p) == st.watches
      modifies this`ca, this`watches
      ensures Progress(x, Snap(), to, mv, st.(watches := st.watches + 1))
    {
      hide Whole, Progress, ListMoved, Movable, Later;
      to, mv := to0, mv0;
      ListStart(x, Snap(), to, mv, st, p);
      var ws := watches[p];
      for j := 0 to |ws|
        invariant |ws| == |x.s.watches[p]| && Progress(x, Snap(), to, mv, st) && ListMoved(x.s.watches[p], ws, mv, j)
      {
        ListRef(x, bound, Snap(), to, mv, st, p, ws, j);
        ghost var mv1 := mv;
        var cr;
        cr, to, mv := Reloc(ws[j].cref, to, mv, x, st);
        ListLater(x.s.watches[p], ws, mv1, mv, j);
        ListNext(x.s.watches[p], ws, mv, j);
        ws := ws[j := Watcher(cr, ws[j].blocker)];
      }
      ListDone(x, Snap(), to, mv, st, p, ws);
      ghost var y := Snap();
      watches := watches[p := ws];
      assert Snap() == y.(s := y.s.(watches := y.s.watches[p := ws]));
    }

    method RelocWatches(ghost x: Snapshot, ghost bound: nat) returns (to: seq<Clause>, ghost mv: Moves)
      requires Whole(x, bound) && x.s.dirty == {} && x == Snap()
      modifies this`ca, this`watches
      ensures Progress(x, Snap(), to, mv, Stage(2 * |assigns|, 0, 0, 0))
    {
      hide Whole, Progress;
      to, mv := [], Moves(map[], []);
      ProgressBegins(x, bound);
      for v := 0 to |assigns|
        invariant Progress(x, Snap(), to, mv, Stage(2 * v, 0, 0, 0))
      {
        InWatches(x, bound, v);
        to, mv := RelocList(Lit(v, false), to, mv, x, bound, Stage(2 * v, 0, 0, 0));
        to, mv := RelocList(Lit(v, true), to, mv, x, bound, Stage(2 * v + 1, 0, 0, 0));
      }
    }

    method RelocReasons(to0: seq<Clause>, ghost mv0: Moves, ghost x: Snapshot, ghost bound: nat, ghost w: nat) returns (to: seq<Clause>, ghost mv: Moves)
      requires Whole(x, bound) && trail == x.s.a.trail && Progress(x, Snap(), to0, mv0, Stage(w, 0, 0, 0))
      modifies this`ca, this`reason
      ensures Progress(x, Snap(), to, mv, Stage(w, |trail|, 0, 0))
    {
      hide Whole, Progress, Movable, Locked;
      to, mv := to0, mv0;
      for i := 0 to |trail|
        invariant Progress(x, Snap(), to, mv, Stage(w, i, 0, 0))
      {
        to, mv := RelocReason(i, to, mv, x, bound, w);
      }
    }

    method RelocReason(i: nat, to0: seq<Clause>, ghost mv0: Moves, ghost x: Snapshot, ghost bound: nat, ghost w: nat) returns (to: seq<Clause>, ghost mv: Moves)
      requires Whole(x, bound) && trail == x.s.a.trail && i < |trail| && Progress(x, Snap(), to0, mv0, Stage(w, i, 0, 0))
      modifies this`ca, this`reason
      ensures Progress(x, Snap(), to, mv, Stage(w, i + 1, 0, 0))
    {
      hide Whole, Progress, Movable;
      to, mv := to0, mv0;
      ghost var st := Stage(w, i, 0, 0);
      var v := trail[i].v;
      ReasonRef(x, bound, Snap(), to, mv, st);
      SameAssigns(x, to, mv, st);
      var r := reason[v];
      if r.Ref? && (ca[r.cr].reloced || (Value(assigns, ca[r.cr].lits[0]) == LTrue && reason[ca[r.cr].lits[0].v] == r)) {
        var cr;
        cr, to, mv := Reloc(r.cr, to, mv, x, st);
        r := Ref(cr);
      }
      ReasonDone(x, Snap(), to, mv, st, r);
      ghost var y := Snap();
      reason := reason[v := r];
      assert Snap() == y.(s := y.s.(a := y.s.a.(reason := y.s.a.reason[v := r])));
    }

    lemma SameAssigns(x: Snapshot, to: seq<Clause>, mv: Moves, st: Stage)
      requires Progress(x, Snap(), to, mv, st)
      ensures assigns == x.s.a.assigns && |assigns| == |reason| == |x.s.a.reason|
    {}

    method RelocRefs(cs0: seq<nat>, to0: seq<Clause>, ghost mv0: Moves, ghost x: Snapshot, ghost bound: nat, learnt: bool, ghost st: Stage)
        returns (cs: seq<nat>, to: seq<Clause>, ghost mv: Moves)
      requires Whole(x, bound) && Progress(x, Snap(), to0, mv0, st) && cs0 == if learnt then x.learnts else x.clauses
      modifies this`ca
      ensures Progress(x, Snap(), to, mv, st) && RefsMoved(cs0, cs, mv, |cs0|)
    {
      hide Whole, Progress, RefsMoved, Movable, Later;
      cs, to, mv := cs0, to0, mv0;
      RefsNone(cs0, mv);
      for i := 0 to |cs0|
        invariant Progress(x, Snap(), to, mv, st) && RefsMoved(cs0, cs, mv, i)
      {
        ListedRef(x, bound, cs0, learnt, i);
        RefsAt(cs0, cs, mv, i);
        ghost var mv1 := mv;
        var cr;
        cr, to, mv := Reloc(cs[i], to, mv, x, st);
        RefsLater(cs0, cs, mv1, mv, i);
        RefsNext(cs0, cs, mv, i);
        cs := cs[i := cr];
      }
    }

    /** Copies the live clauses to a new region and rewrites every reference. */
    method GarbageCollect(ghost bound: nat) returns (ghost x: Snapshot, ghost mv: Moves)
      requires Searching(bound)
      modifies this`ca, this`watches, this`dirties, this`reason, this`learnts, this`clauses
      ensures Searching(bound)
      ensures x == old(Snap()).(s := old(Snap()).s.(watches := x.s.watches, dirty := {}))
      ensures AllCleaned(old(ca), old(watches), old(dirties), {}, x.s.watches)
      ensures Relocated(x, Snap(), mv)
      ensures Words(ca) == Words(old(ca)) - Wasted(old(ca)) && Wasted(ca) == 0
    {
      hide Whole, Progress, RefsMoved, AllCleaned, Relocated;
      CleanAll(bound);
      x := Snap();
      var to, cs;
      to, mv := RelocWatches(x, bound);
      to, mv := RelocReasons(to, mv, x, bound, 2 * |assigns|);
      ghost var st := Stage(2 * |assigns|, |trail|, 0, 0);
      cs, to, mv := RelocRefs(learnts, to, mv, x, bound, true, st);
      LearntsDone(x, Snap(), to, mv, st, cs);
      learnts := cs;
      st := st.(learnts := |x.learnts|);
      cs, to, mv := RelocRefs(clauses, to, mv, x, bound, false, st);
      ClausesDone(x, Snap(), to, mv, st, cs);
      clauses := cs;
      GcWhole(x, bound, Snap(), to, mv, st.(clauses := |x.clauses|));
      ghost var y := Snap();
      ca := to;
      assert Snap() == y.(s := y.s.(ca := to));
      CollectedSize(x, Snap(), mv);
    }

    // ----- removing clauses -----

    /** The list of learnt (or problem) clauses is being compacted: kept ones, then the rest. */
    ghost predicate Compacting(bound: nat, learnt: bool, kept: seq<nat>, rest: seq<nat>)
      reads this, orderHeap
    {
      Whole(WithList(Snap(), learnt, kept + rest), bound)
    }

    /** Detaches and frees clause `cr`; its watchers are cleaned later. */
    method RemoveClause(cr: nat)
      requires cr < |ca| && |ca[cr].lits| >= 2 && ca[cr].lits[0].v < |assigns| == |reason|
      modifies this`ca, this`dirties, this`reason
      ensures Snap() == old(Snap()).(s := Removed(old(Snap()).s, cr))
    {
      var c := ca[cr];
      dirties := dirties + {Not(c.lits[0]), Not(c.lits[1])};
      if IsLocked(cr) {
        reason := reason[c.lits[0].v := NoRef];
      }
      ca := ca[cr := c.(mark := 1)];
    }

    predicate IsLocked(cr: nat)
      requires cr < |ca| && |ca[cr].lits| >= 1 && ca[cr].lits[0].v < |assigns| == |reason|
      reads this
    {
      Value(assigns, ca[cr].lits[0]) == LTrue && reason[ca[cr].lits[0].v] == Ref(cr)
    }

    method Satisfied(cr: nat) returns (r: bool)
      requires cr < |ca| && forall k :: 0 <= k < |ca[cr].lits| ==> ca[cr].lits[k].v < |assigns|
      ensures r <==> exists k :: 0 <= k < |ca[cr].lits| && Value(assigns, ca[cr].lits[k]) == LTrue
    {
      for i := 0 to |ca[cr].lits|
        invariant forall k :: 0 <= k < i ==> Value(assigns, ca[cr].lits[k]) != LTrue
      {
        if Value(assigns, ca[cr].lits[i]) == LTrue {
          return true;
        }
      }
      r := false;
    }

    /** Removes the clauses of one list that are satisfied at level 0. */
    method RemoveSatisfied(cs: seq<nat>, learnt: bool, ghost bound: nat) returns (kept: seq<nat>)
      requires trailLim == [] && Compacting(bound, learnt, [], cs)
      modifies this`ca, this`dirties, this`reason
      ensures Compacting(bound, learnt, kept, [])
      ensures SameLits(old(ca), ca) && kept == KeptOf(cs, SatisfiedRefs(assigns, old(ca), cs))
    {
      hide Whole, SameLits, Sifting, SatisfiedRefs;
      kept := [];
      assert cs[0..] == cs;
      ghost var ca0 := ca;
      SiftingBegins(assigns, ca, cs);
      for i := 0 to |cs|
        invariant Compacting(bound, learnt, kept, cs[i..]) && SameLits(ca0, ca) && Sifting(assigns, ca0, cs, i, kept)
        modifies this`ca, this`dirties, this`reason
      {
        kept := SiftOne(ca0, cs, i, kept, learnt, bound);
      }
      assert cs[|cs|..] == [];
      SiftingDone(assigns, ca0, cs, kept);
    }

    /** One turn: a satisfied clause is removed, any other is kept. */
    method SiftOne(ghost ca0: seq<Clause>, cs: seq<nat>, i: nat, kept0: seq<nat>, ghost learnt: bool, ghost bound: nat) returns (kept: seq<nat>)
      requires trailLim == [] && i < |cs| && Compacting(bound, learnt, kept0, cs[i..])
      requires SameLits(ca0, ca) && Sifting(assigns, ca0, cs, i, kept0)
      modifies this`ca, this`dirties, this`reason
      ensures Compacting(bound, learnt, kept, cs[i + 1..])
      ensures SameLits(ca0, ca) && Sifting(assigns, ca0, cs, i + 1, kept)
    {
      hide Whole, SameLits, Sifting;
      kept := kept0;
      ghost var ca1, rest := ca, cs[i..];
      assert rest[0] == cs[i] && rest[1..] == cs[i + 1..];
      ListedClause(Snap(), bound, learnt, kept, rest);
      var r := Satisfied(cs[i]);
      SiftStep(assigns, ca0, ca, cs, i, kept, r);
      if r {
        RootRemovable(Snap(), cs[i]);
        RemoveListedClause(learnt, kept, rest, cs[i], bound);
        SameTrans(ca0, ca1, ca);
      } else {
        assert (kept + [cs[i]]) + cs[i + 1..] == kept + rest;
        kept := kept + [cs[i]];
      }
    }

    method RemoveListedClause(ghost learnt: bool, ghost kept: seq<nat>, ghost rest: seq<nat>, cr: nat, ghost bound: nat)
      requires Compacting(bound, learnt, kept, rest) && rest != [] && rest[0] == cr
      requires TrailOk(A()) && MayRemove(Snap().s, cr)
      modifies this`ca, this`dirties, this`reason
      ensures Compacting(bound, learnt, kept, rest[1..])
      ensures SameLits(old(ca), ca) && (old(!Locked(A(), ca, cr)) ==> reason == old(reason))
    {
      hide Whole;
      ghost var x := Snap();
      WholeRemove(x, bound, learnt, kept, rest);
      RootTables(A());
      RemoveClause(cr);
    }

    /** Removes learnt clauses and collects garbage. */
    method ReduceDb(ghost bound: nat)
      requires Searching(bound)
      modifies this`ca, this`dirties, this`reason, this`learnts, this`watches, this`clauses
      ensures Searching(bound)
    {
      ghost var _, _ := ReduceLearnts(bound);
      CheckGarbage(bound);
    }

    /** Sorts the learnt clauses and removes about half of them, but no binary and no locked ones. */
    method ReduceLearnts(ghost bound: nat) returns (ghost cs0: seq<nat>, ghost gone: set<nat>)
      requires Searching(bound)
      modifies this`ca, this`dirties, this`reason, this`learnts
      ensures Searching(bound) && reason == old(reason) && SameLits(old(ca), ca)
      ensures (forall c :: c in cs0 <==> c in old(learnts)) && LowestFirst(old(ca), cs0)
      ensures Thinning(A(), ca, cs0, |cs0|, learnts, gone)
    {
      hide Whole, SameLits, Thinning, LowestFirst, InReduceOrder, LongEnough;
      LearntsDistinct(Snap(), bound);
      SortRefsOk(ca, learnts);
      SortRefsOrdered(ca, learnts);
      var cs := SortRefs(ca, learnts);
      WholePermuted(Snap(), bound, cs);
      assert [] + cs == cs;
      cs0 := cs;
      var kept;
      kept, gone := ThinOut(cs, bound);
      assert kept + [] == kept;
      ghost var x := Snap();
      learnts := kept;
      assert Snap() == WithList(x, true, kept);
    }

    /** One pass over the sorted clauses. */
    method ThinOut(cs: seq<nat>, ghost bound: nat) returns (kept: seq<nat>, ghost gone: set<nat>)
      requires Compacting(bound, true, [], cs) && forall i, j :: 0 <= i < j < |cs| ==> cs[i] != cs[j]
      modifies this`ca, this`dirties, this`reason
      ensures Compacting(bound, true, kept, []) && reason == old(reason) && SameLits(old(ca), ca)
      ensures Thinning(A(), ca, cs, |cs|, kept, gone)
    {
      hide Whole, SameLits, Thinning;
      kept, gone := [], {};
      ghost var ca0, reason0 := ca, reason;
      ThinningBegins(A(), ca, cs);
      SameSelf(ca);
      assert cs[0..] == cs && [] + cs == cs;
      for i := 0 to |cs|
        invariant Compacting(bound, true, kept, cs[i..]) && reason == reason0 && SameLits(ca0, ca)
        invariant Thinning(A(), ca0, cs, i, kept, gone)
        modifies this`ca, this`dirties, this`reason
      {
        ghost var ca1 := ca;
        var stays := ReduceOne(cs, i, kept, bound);
        SameTrans(ca0, ca1, ca);
        ThinningStep(A(), ca0, ca1, cs, i, kept, gone, stays);
        kept, gone := if stays then kept + [cs[i]] else kept, if stays then gone else gone + {cs[i]};
      }
      assert cs[|cs|..] == [];
      ThinningDone(A(), ca0, ca, cs, kept, gone);
    }

    /** Decides about one learnt clause. */
    method ReduceOne(cs: seq<nat>, i: nat, ghost kept: seq<nat>, ghost bound: nat) returns (stays: bool)
      requires i < |cs| && Compacting(bound, true, kept, cs[i..])
      modifies this`ca, this`dirties, this`reason
      ensures Compacting(bound, true, if stays then kept + [cs[i]] else kept, cs[i + 1..])
      ensures SameLits(old(ca), ca) && reason == old(reason)
      ensures !stays ==> Removable(A(), old(ca), cs[i])
      ensures i < |cs| / 2 && Removable(A(), old(ca), cs[i]) ==> !stays
    {
      hide Whole;
      ghost var rest := cs[i..];
      assert rest[0] == cs[i] && rest[1..] == cs[i + 1..];
      ListedClause(Snap(), bound, true, kept, rest);
      // Whether the activity lies below the extra limit is left open.
      var low: bool := *;
      stays := !(|ca[cs[i]].lits| > 2 && !IsLocked(cs[i]) && (i < |cs| / 2 || low));
      if !stays {
        RemoveListedClause(true, kept, rest, cs[i], bound);
      } else {
        assert (kept + [cs[i]]) + cs[i + 1..] == kept + rest;
      }
    }

    /** A collection happens when too much of the region is wasted; afterwards it is not. */
    method CheckGarbage(ghost bound: nat)
      requires Searching(bound)
      modifies this`ca, this`watches, this`dirties, this`reason, this`learnts, this`clauses
      ensures Searching(bound) && !Wasteful(ca, garbageFrac)
      ensures !Wasteful(old(ca), garbageFrac) ==> Snap() == old(Snap())
    {
      hide Whole, Wasteful;
      if Wasteful(ca, garbageFrac) {
        ghost var _, _ := GarbageCollect(bound);
        NotWasteful(ca, garbageFrac);
      }
    }

    method RebuildOrderHeap(ghost bound: nat)
      requires Searching(bound)
      modifies orderHeap
      ensures Searching(bound)
      ensures forall v: nat :: v in OrderHeap.Members(orderHeap.heap) <==> v < |assigns| && v < |decision| && decision[v] && assigns[v] == LUndef
    {
      hide Whole, HeapOk;
      ghost var x := Snap();
      WholeOrder(x, bound);
      var vs := OpenDecisions();
      HeapParts(x.order);
      orderHeap.Build(vs);
      HeapWhole();
      WholeOrdered(x, bound, Snap().order);
    }

    /** The unassigned decision variables. */
    method OpenDecisions() returns (vs: seq<nat>)
      requires |decision| == |assigns|
      ensures forall i, j :: 0 <= i < j < |vs| ==> vs[i] < vs[j]
      ensures forall u: nat :: u in OrderHeap.Members(vs) <==> u < |assigns| && decision[u] && assigns[u] == LUndef
      ensures forall i :: 0 <= i < |vs| ==> vs[i] in OrderHeap.Members(vs)
    {
      hide OrderHeap.Members;
      vs := [];
      NoMembers();
      for v := 0 to |assigns|
        invariant forall i :: 0 <= i < |vs| ==> vs[i] < v && vs[i] in OrderHeap.Members(vs)
        invariant forall i, j :: 0 <= i < j < |vs| ==> vs[i] < vs[j]
        invariant forall u: nat :: u in OrderHeap.Members(vs) <==> u < v && decision[u] && assigns[u] == LUndef
      {
        if decision[v] && assigns[v] == LUndef {
          MembersSnoc(vs, v);
          vs := vs + [v];
        }
      }
    }

    lemma NoMembers()
      ensures OrderHeap.Members([]) == {}
    {}

    lemma MembersSnoc(vs: seq<nat>, v: nat)
      ensures OrderHeap.Members(vs + [v]) == OrderHeap.Members(vs) + {v}
    {
      var vs2 := vs + [v];
      assert vs2[|vs|] == v;
      forall u | u in OrderHeap.Members(vs) ensures u in OrderHeap.Members(vs2) {
        var i :| 0 <= i < |vs| && vs[i] == u;
        assert vs2[i] == u;
      }
    }

    lemma HeapParts(o: Order)
      requires HeapOk(o)
      ensures OrderHeap.Inverse(o.heap, o.indices)
    {}

    lemma HeapWhole()
      requires orderHeap.Valid()
      ensures HeapOk(Snap().order)
    {}

    /** Removes satisfied clauses at level 0, unless there is nothing new to gain. */
    method Simplify() returns (r: bool)
      requires if ok then trailLim == [] && Searching(qhead) && NoneSeen() else Valid()
      modifies this`ca, this`watches, this`dirties, this`assigns, this`reason, this`level, this`trail, this`pos, this`qhead, this`ok,
               this`learnts, this`clauses, orderHeap
      ensures Valid() && r == ok && |assigns| == old(|assigns|) && old(trail) <= trail
    {
      hide Searching, NoneSeen, Unsatisfiable;
      if !ok {
        return false;
      }
      r := PropagateRoot();
      // Whether there is anything new to simplify is left open.
      var nothingNew: bool := *;
      if !r || nothingNew {
        return;
      }
      SimplifyRest();
    }

    /** The part of simplify after propagation. */
    method SimplifyRest()
      requires ok && Valid()
      modifies this`ca, this`dirties, this`reason, this`learnts, this`clauses, this`watches, orderHeap
      ensures ok && Valid()
    {
      hide Whole;
      DropSatisfied();
      CheckGarbage(qhead);
      RebuildOrderHeap(qhead);
    }

    method DropSatisfied()
      requires trailLim == [] && Searching(qhead)
      modifies this`ca, this`dirties, this`reason, this`learnts, this`clauses
      ensures Searching(qhead) && SameLits(old(ca), ca)
      ensures learnts == KeptOf(old(learnts), SatisfiedRefs(assigns, old(ca), old(learnts)))
      ensures clauses == KeptOf(old(clauses), SatisfiedRefs(assigns, old(ca), old(clauses)))
    {
      hide Whole, KeptOf, SameLits, SatisfiedRefs;
      assert [] + learnts == learnts && WithList(Snap(), true, learnts) == Snap();
      var kept := RemoveSatisfied(learnts, true, qhead);
      assert kept + [] == kept;
      ghost var x := Snap();
      learnts := kept;
      assert Snap() == WithList(x, true, kept);
      assert [] + clauses == clauses && WithList(Snap(), false, clauses) == Snap();
      ghost var ca1 := ca;
      kept := RemoveSatisfied(clauses, false, qhead);
      SameSatisfied(assigns, old(ca), ca1, clauses);
      SameTrans(old(ca), ca1, ca);
      assert kept + [] == kept;
      x := Snap();
      clauses := kept;
      assert Snap() == WithList(x, false, kept);
    }

    // ----- search -----

    /** Backtracks, attaches the learnt clause and enqueues its first literal. */
    method Learn(learnt: seq<Lit>, btlevel: nat, ghost bound: nat)
      requires Searching(bound) && |level| == |assigns| && LearntOk(A(), formula, learnt, btlevel)
      modifies this`assigns, this`polarity, this`trail, this`trailLim, this`qhead, this`ca, this`watches, this`learnts,
               this`reason, this`level, this`pos, orderHeap
      ensures Searching(qhead) && |assigns| == old(|assigns|)
      ensures btlevel < |old(trailLim)| && trailLim == old(trailLim)[..btlevel] && old(trailLim)[btlevel] <= |old(trail)| && learnt != []
      ensures trail == old(trail)[..old(trailLim)[btlevel]] + [learnt[0]]
      ensures if |learnt| == 1 then ca == old(ca) && learnts == old(learnts)
              else ca == old(ca) + [Clause(learnt, true, 0, false, 0.0)] && learnts == old(learnts) + [|old(ca)|]
      ensures learnt[0].v < |reason| && reason[learnt[0].v] == if |learnt| == 1 then NoRef else Ref(|old(ca)|)
    {
      hide Whole, LearntOk, GoodLits, Asserting;
      ghost var a := A();
      WholeTrail(Snap(), bound);
      LearntGood(a, formula, learnt, btlevel);
      LearntAsserts(a, formula, learnt, btlevel);
      CancelUntil(btlevel, bound);
      WholeTrail(Snap(), qhead);
      if |learnt| == 1 {
        assert learnt == [learnt[0]];
        WholeLearnUnit(Snap(), qhead, learnt[0]);
        ghost var x := Snap();
        UncheckedEnqueue(learnt[0], NoRef);
        assert Snap() == x.(s := x.s.(a := Enqueued(x.s.a, learnt[0], NoRef)));
      } else {
        AttachLearnt(learnt);
      }
    }

    method AttachLearnt(learnt: seq<Lit>)
      requires Searching(qhead) && |level| == |reason| == |pos| == |assigns| && |trailLim| > 0
      requires GoodLits(|assigns|, learnt) && Asserting(A(), learnt) && Entails(|assigns|, formula, learnt)
      modifies this`assigns, this`trail, this`ca, this`watches, this`learnts, this`reason, this`level, this`pos
      ensures Searching(qhead) && |assigns| == old(|assigns|) && trail == old(trail) + [learnt[0]]
      ensures ca == old(ca) + [Clause(learnt, true, 0, false, 0.0)] && learnts == old(learnts) + [|old(ca)|]
      ensures learnt[0].v < |reason| && reason[learnt[0].v] == Ref(|old(ca)|)
    {
      hide Whole, Asserting, Entails;
      ghost var x := Snap();
      var c := Clause(learnt, true, 0, false, 0.0);
      WholeLearn(x, qhead, c);
      var cr := AllocLearnt(c);
      UncheckedEnqueue(learnt[0], Ref(cr));
      assert Snap() == LearntSnapshot(x, c);
    }

    method AllocLearnt(c: Clause) returns (cr: nat)
      requires |c.lits| >= 2 && Not(c.lits[0]) in watches && Not(c.lits[1]) in watches
      modifies this`ca, this`watches, this`learnts
      ensures cr == |old(ca)| && Snap() == old(Snap()).(s := Attached(old(Snap()).s, c), learnts := old(learnts) + [cr])
    {
      hide Push;
      cr := |ca|;
      ca := ca + [c];
      learnts := learnts + [cr];
      AttachClause(cr);
    }

    /** No unassigned decision variable is more active than `v`. */
    ghost predicate MostActive(v: nat)
      reads this`decision, this`assigns, orderHeap
    {
      && |decision| == |assigns| == |orderHeap.activity| && v < |assigns|
      && forall u :: 0 <= u < |assigns| && decision[u] && assigns[u] == LUndef ==> orderHeap.activity[u] <= orderHeap.activity[v]
    }

    /** The next decision, if a decision variable is left: the most active one, or a lucky random choice. */
    method PickBranchLit() returns (found: bool, p: Lit, ghost lucky: bool)
      requires InOrder() && |polarity| == |assigns|
      modifies orderHeap
      ensures found ==> p.v < |assigns| && assigns[p.v] == LUndef && decision[p.v] && (rndPol || p.sign == polarity[p.v])
      ensures found && !lucky ==> MostActive(p.v)
      ensures found ==> OrderOk(decision, assigns[p.v := if p.sign then LFalse else LTrue], Snap().order)
      ensures !found ==> InOrder() && forall v :: 0 <= v < |assigns| && decision[v] ==> assigns[v] != LUndef
    {
      hide HeapOk;
      p := Lit(0, false);
      lucky := false;
      HeapParts2();
      // Whether this decision is a random one is left open.
      var random: bool := *;
      if random && orderHeap.heap != [] {
        var k: nat :| k < |orderHeap.heap|;
        var next := orderHeap.heap[k];
        if next < |assigns| && assigns[next] == LUndef && decision[next] {
          var sign := PickSign(next);
          p := Lit(next, sign);
          OrderAssigned(decision, assigns, Snap().order, next, if p.sign then LFalse else LTrue);
          return true, p, true;
        }
      }
      while orderHeap.heap != []
        invariant InOrder()
        decreases |orderHeap.heap|
      {
        var taken, next := TakeMin();
        if taken {
          var sign := PickSign(next);
          return true, Lit(next, sign), false;
        }
      }
      EmptyHeap();
      found := false;
    }

    /** The saved phase, or any sign with random polarities. */
    method PickSign(next: nat) returns (sign: bool)
      requires next < |polarity|
      ensures rndPol || sign == polarity[next]
    {
      sign := *;
      if !rndPol {
        sign := polarity[next];
      }
    }

    lemma HeapParts2()
      requires InOrder()
      ensures orderHeap.Valid()
    {}

    lemma EmptyHeap()
      requires InOrder() && orderHeap.heap == []
      ensures forall v :: 0 <= v < |assigns| && decision[v] ==> assigns[v] != LUndef
    {}

    method TakeMin() returns (taken: bool, next: nat)
      requires InOrder() && orderHeap.heap != [] && |polarity| == |assigns|
      modifies orderHeap
      ensures next < |assigns| == |decision| && |orderHeap.heap| < old(|orderHeap.heap|)
      ensures taken <==> assigns[next] == LUndef && decision[next]
      ensures MostActive(next)
      ensures taken ==> OrderOk(decision, assigns[next := LFalse], Snap().order) && OrderOk(decision, assigns[next := LTrue], Snap().order)
      ensures !taken ==> InOrder()
    {
      hide HeapOk;
      ghost var o := Snap().order;
      HeapParts2();
      next := orderHeap.RemoveMin();
      HeapWhole();
      OrderRemove(decision, assigns, o, Snap().order, next, LFalse);
      OrderRemove(decision, assigns, o, Snap().order, next, LTrue);
      taken := assigns[next] == LUndef && decision[next];
    }

    /** newDecisionLevel and uncheckedEnqueue. */
    method Decide(p: Lit, ghost x: Snapshot)
      requires Whole(x, |trail|) && qhead == |trail| && Snap() == x.(order := Snap().order)
      requires p.v < |assigns| && assigns[p.v] == LUndef
      requires OrderOk(decision, assigns[p.v := if p.sign then LFalse else LTrue], Snap().order)
      modifies this`assigns, this`reason, this`level, this`trail, this`pos, this`trailLim
      ensures Searching(qhead) && |trail| == old(|trail|) + 1 <= |assigns| == old(|assigns|)
      ensures trailLim == old(trailLim) + [old(|trail|)]
    {
      hide Whole, OrderOk, Enqueued;
      ghost var o := Snap().order;
      WholeDecide(x, p, o);
      trailLim := trailLim + [|trail|];
      UncheckedEnqueue(p, NoRef);
      assert Snap() == x.(s := x.s.(a := Enqueued(NewLevel(x.s.a), p, NoRef)), order := o);
    }

    /** Every level holds its decision, and every variable stands on the trail at most once. */
    ghost predicate Steady()
      reads this
    {
      SatProgress.Layered(trailLim, |trail|) && |trail| <= |assigns|
    }

    /** How far the search has come since the last restart. */
    ghost function Reached(): nat
      reads this
    {
      SatProgress.Rank(trailLim, |trail|, |assigns|)
    }

    /** A conflict above level 0: the clause learnt from it is added and its first literal enqueued after
        backjumping; what is taken back weighs less than what is learnt. */
    method OnConflict(confl: nat) returns (ghost clause: seq<Lit>, ghost uip: nat)
      requires Conflicting(confl) && |trailLim| > 0 && NoneSeen() && Steady()
      modifies this`assigns, this`polarity, this`trail, this`trailLim, this`qhead, this`ca, this`watches, this`learnts,
               this`reason, this`level, this`pos, this`seen, this`analyzeStack, this`analyzeToClear, this`varInc, orderHeap
      ensures Searching(qhead) && NoneSeen() && Steady() && Reached() > old(Reached()) && |assigns| == old(|assigns|)
      ensures old(TrailOk(A())) && confl < |old(ca)| && LearntFrom(old(Snap()), confl, ccminMode, uip, clause) && clause != []
      ensures |trailLim| < |old(trailLim)| && trailLim <= old(trailLim) && old(trailLim)[|trailLim|] <= |old(trail)|
      ensures trail == old(trail)[..old(trailLim)[|trailLim|]] + [clause[0]]
      ensures if |clause| == 1 then ca == old(ca) else ca == old(ca) + [Clause(clause, true, 0, false, 0.0)]
    {
      hide Whole, IsConflict, LearntOk, LearntFrom, TrailOk, SatProgress.Layered, SatProgress.Rank;
      ghost var bound := trailLim[|trailLim| - 1];
      var learnt, btlevel;
      learnt, btlevel, uip := Analyze(confl, bound);
      clause := learnt;
      Learn(learnt, btlevel, bound);
      QueueFits(qhead);
      SatProgress.ConflictAdvances(old(trailLim), old(|trail|), btlevel, |assigns|);
    }

    /** No conflict: simplify, reduce, then decide. LUndef means that the search goes on. */
    method OnFixpoint() returns (status: LBool)
      requires ok && qhead == |trail| && Searching(qhead) && NoneSeen() && Steady()
      modifies this`ca, this`watches, this`dirties, this`assigns, this`reason, this`level, this`trail, this`pos, this`qhead, this`ok,
               this`learnts, this`clauses, this`trailLim, orderHeap
      ensures |assigns| == old(|assigns|)
      ensures status == LFalse ==> Unsatisfiable()
      ensures status == LTrue ==> ok && Complete()
      ensures status == LUndef ==> ok && Searching(qhead) && NoneSeen() && old(|trail|) < |trail|
      ensures status == LUndef ==> Steady() && Reached() >= old(Reached())
    {
      hide Whole, Contradictory, SatProgress.Layered, SatProgress.Rank;
      if |trailLim| == 0 {
        var fine := Simplify();
        if !fine {
          return LFalse;
        }
      }
      SatProgress.PropagationAdvances(trailLim, old(|trail|), |trail|, |assigns|);
      // Whether there are too many learnt clauses is left open.
      var many: bool := *;
      if many {
        ReduceDb(qhead);
      }
      ghost var lim, k := trailLim, |trail|;
      status := PickAndDecide();
      SatProgress.DecisionAdvances(lim, k, |assigns|);
    }

    /** The next decision; LTrue if there is none. */
    method PickAndDecide() returns (status: LBool)
      requires qhead == |trail| && Searching(qhead) && NoneSeen()
      modifies this`assigns, this`reason, this`level, this`trail, this`pos, this`trailLim, orderHeap
      ensures |assigns| == old(|assigns|) && (status == LTrue || status == LUndef)
      ensures status == LTrue ==> Complete() && old(trail) == trail
      ensures status == LUndef ==> Searching(qhead) && NoneSeen() && |trail| == old(|trail|) + 1 <= |assigns|
      ensures status == LUndef ==> trailLim == old(trailLim) + [old(|trail|)]
    {
      hide Whole, OrderOk;
      ghost var x := Snap();
      WholeOrder(x, qhead);
      WholeFields(x, qhead);
      var found, next, _ := PickBranchLit();
      if !found {
        WholeOrdered(x, qhead, Snap().order);
        return LTrue;
      }
      Decide(next, x);
      status := LUndef;
    }

    /** Everything is propagated and every decision variable has a value. */
    ghost predicate Complete()
      reads this, orderHeap
    {
      && qhead == |trail| && Searching(qhead) && NoneSeen()
      && |decision| == |assigns| && forall v :: 0 <= v < |assigns| && decision[v] ==> assigns[v] != LUndef
    }

    lemma WholeFields(x: Snapshot, bound: nat)
      requires Whole(x, bound)
      ensures |x.polarity| == |x.decision| == NumVars(x)
    {}

    /** Searches until a model or a contradiction is found or enough conflicts have occurred; a negative
        number is no limit. Even without one, the number of conflicts is bounded. */
    method Search(nofConflicts: int) returns (status: LBool)
      requires ok && Valid()
      modifies this`ca, this`watches, this`dirties, this`assigns, this`reason, this`level, this`trail, this`pos, this`qhead, this`ok,
               this`learnts, this`clauses, this`trailLim, this`polarity, this`seen, this`analyzeStack, this`analyzeToClear, this`conflicts,
               this`varInc, orderHeap
      ensures |assigns| == old(|assigns|)
      ensures old(conflicts) <= conflicts <= old(conflicts) + SatProgress.ConflictBound(|assigns|) + 1
      ensures status == LFalse ==> Unsatisfiable()
      ensures status == LTrue ==> ok && Complete()
      ensures status == LUndef ==> ok && Valid()
      ensures status == LUndef ==> !WithinBudget() || 0 <= nofConflicts <= SatProgress.ConflictBound(|assigns|)
    {
      hide Searching, NoneSeen, Unsatisfiable, Complete, Steady, Reached, SatProgress.ConflictBound;
      var conflictC := 0;
      SearchBegins();
      var goesOn := true;
      status := LUndef;
      while goesOn
        invariant |assigns| == old(|assigns|) && conflictC >= 0 && conflicts == old(conflicts) + conflictC
        invariant goesOn ==> ok && Searching(qhead) && NoneSeen() && Steady() && Reached() >= conflictC
        invariant conflictC <= SatProgress.ConflictBound(|assigns|) + if goesOn then 0 else 1
        invariant !goesOn && status == LFalse ==> Unsatisfiable()
        invariant !goesOn && status == LTrue ==> ok && Complete()
        invariant !goesOn && status == LUndef ==> ok && Valid()
        invariant !goesOn && status == LUndef ==> !WithinBudget() || 0 <= nofConflicts <= SatProgress.ConflictBound(|assigns|)
        decreases goesOn, SatProgress.ConflictBound(|assigns|) - conflictC, |assigns| - |trail|
      {
        var before := conflicts;
        status, goesOn := SearchStep(nofConflicts >= 0 && conflictC >= nofConflicts);
        conflictC := conflictC + (conflicts - before);
        if goesOn {
          ReachedFits();
        }
      }
    }

    lemma SearchBegins()
      requires ok && Valid()
      ensures Searching(qhead) && NoneSeen() && Steady()
    {
      QueueFits(qhead);
    }

    lemma ReachedFits()
      requires Steady()
      ensures Reached() <= SatProgress.ConflictBound(|assigns|) && |trail| <= |assigns|
    {
      SatProgress.RankFits(trailLim, |trail|, |assigns|);
    }

    /** One turn of the search loop: a conflict is resolved, or a decision is made. */
    method SearchStep(exhausted: bool) returns (status: LBool, goesOn: bool)
      requires ok && Searching(qhead) && NoneSeen() && Steady()
      modifies this`ca, this`watches, this`dirties, this`assigns, this`reason, this`level, this`trail, this`pos, this`qhead, this`ok,
               this`learnts, this`clauses, this`trailLim, this`polarity, this`seen, this`analyzeStack, this`analyzeToClear, this`conflicts,
               this`varInc, orderHeap
      ensures |assigns| == old(|assigns|) && old(conflicts) <= conflicts <= old(conflicts) + 1
      ensures goesOn ==> ok && Searching(qhead) && NoneSeen()
      ensures goesOn ==> Steady() && Reached() >= old(Reached()) + (conflicts - old(conflicts))
      ensures goesOn && conflicts == old(conflicts) ==> !exhausted && |trail| > |old(trail)|
      ensures !goesOn && status == LFalse ==> Unsatisfiable()
      ensures !goesOn && status == LTrue ==> ok && Complete()
      ensures !goesOn && status != LFalse ==> conflicts == old(conflicts)
      ensures !goesOn && status == LUndef ==> ok && Valid() && (!WithinBudget() || exhausted)
    {
      hide Searching, Unsatisfiable, Complete, Conflicting, SatProgress.Layered, SatProgress.Rank;
      var confl := Propagate();
      SatProgress.PropagationAdvances(trailLim, old(|trail|), |trail|, |assigns|);
      if confl.Ref? {
        goesOn := MeetConflict(confl.cr);
        status := if goesOn then LUndef else LFalse;
      } else if exhausted || !WithinBudget() {
        BackToRoot();
        status, goesOn := LUndef, false;
      } else {
        status := OnFixpoint();
        goesOn := status == LUndef;
      }
    }

    /** A conflict: at level 0 the search ends, above it a clause is learnt. */
    method MeetConflict(confl: nat) returns (goesOn: bool)
      requires ok && Conflicting(confl) && NoneSeen() && Steady()
      modifies this`assigns, this`polarity, this`trail, this`trailLim, this`qhead, this`ca, this`watches, this`learnts,
               this`reason, this`level, this`pos, this`seen, this`analyzeStack, this`analyzeToClear, this`varInc, this`conflicts, orderHeap
      ensures |assigns| == old(|assigns|) && conflicts == old(conflicts) + 1
      ensures goesOn ==> Searching(qhead) && NoneSeen() && Steady() && Reached() > old(Reached())
      ensures !goesOn ==> Unsatisfiable()
    {
      hide Whole, Contradictory, IsConflict, LearntFrom, SatProgress.Layered, SatProgress.Rank;
      CountConflict();
      goesOn := |trailLim| > 0;
      if goesOn {
        var _, _ := OnConflict(confl);
        VarDecayActivity();
      } else {
        ConflictAtRoot(confl);
      }
    }

    /** One conflict more. */
    method CountConflict()
      modifies this`conflicts
      ensures conflicts == old(conflicts) + 1 && Snap() == old(Snap())
    {
      conflicts := conflicts + 1;
    }

    lemma ConflictAtRoot(cr: nat)
      requires Conflicting(cr) && trailLim == []
      ensures Unsatisfiable()
    {
      WholeRoot(Snap(), 0, cr);
    }

    /** Takes back everything above level 0. */
    method BackToRoot()
      requires ok && qhead == |trail| && Searching(qhead) && NoneSeen()
      modifies this`assigns, this`polarity, this`trail, this`trailLim, this`qhead, orderHeap
      ensures Valid() && |assigns| == old(|assigns|)
    {
      hide Whole;
      if |trailLim| > 0 {
        CancelUntil(0, qhead);
      }
    }

    /** l_True: the model satisfies every clause ever added, if all variables are decision variables.
        l_False: the added clauses have no model. l_Undef: the budget is used up, or there was an
        interrupt; without them there is always an answer. */
    method Solve() returns (status: LBool)
      requires Valid()
      modifies this, orderHeap
      ensures Valid() && formula == old(formula) && |assigns| == old(|assigns|) && decision == old(decision)
      ensures conflictBudget == old(conflictBudget) && interrupted == old(interrupted)
      ensures status == LTrue ==> |model| == |assigns| && NoneFalse(model, formula)
      ensures status == LTrue ==> AllDecision() ==> Models(BoolModel(model), |assigns|, formula)
      ensures status == LFalse ==> !ok
      ensures status == LUndef ==> !WithinBudget()
    {
      hide Searching, NoneSeen, Unsatisfiable, Complete, Models, BoolModel, NoneFalse, AllDecision;
      if !ok {
        ClearModel();
        return LFalse;
      }
      ClearModel();
      status := Restarts();
      status := Conclude(status);
    }

    method ClearModel()
      requires Valid()
      modifies this`model
      ensures Valid()
    {
      hide Whole, Contradictory;
      model := [];
    }

    /** Calls search with growing limits until it answers or the budget is used up. */
    method Restarts() returns (status: LBool)
      requires ok && Valid()
      modifies this`ca, this`watches, this`dirties, this`assigns, this`reason, this`level, this`trail, this`pos, this`qhead, this`ok,
               this`learnts, this`clauses, this`trailLim, this`polarity, this`seen, this`analyzeStack, this`analyzeToClear, this`conflicts,
               this`varInc, orderHeap
      ensures |assigns| == old(|assigns|)
      ensures status == LFalse ==> Unsatisfiable()
      ensures status == LTrue ==> ok && Complete()
      ensures status == LUndef ==> ok && Valid() && !WithinBudget()
    {
      hide Searching, NoneSeen, Unsatisfiable, Complete, SatProgress.LimitOf, SatProgress.ConflictBound;
      ghost var bound := SatProgress.ConflictBound(|assigns|);
      ghost var last := SatProgress.LimitsGrow(restarts, bound);
      var currRestarts: nat := 0;
      status := LUndef;
      while status == LUndef
        invariant 0 <= currRestarts && |assigns| == old(|assigns|)
        invariant status == LUndef ==> ok && Valid() && currRestarts <= last
        invariant status == LFalse ==> Unsatisfiable()
        invariant status == LTrue ==> ok && Complete()
        decreases status == LUndef, last - currRestarts
      {
        var limit := SatProgress.Limit(restarts, currRestarts);
        assert currRestarts == last ==> limit > bound;
        status := Search(limit);
        if !WithinBudget() {
          break;
        }
        currRestarts := currRestarts + 1;
      }
    }

    /** Asks the solver to stop at the next fixpoint. */
    method Interrupt()
      modifies this`interrupted
      ensures interrupted && Snap() == old(Snap()) && (old(Valid()) ==> Valid())
    {
      hide Whole, Contradictory;
      interrupted := true;
    }

    ghost predicate AllDecision()
      reads this
    {
      |decision| == |assigns| && forall v :: 0 <= v < |decision| ==> decision[v]
    }

    /** Copies the model, or notes that the clauses are contradictory, and backtracks. */
    method Conclude(status0: LBool) returns (status: LBool)
      requires status0 == LTrue ==> ok && Complete()
      requires status0 == LFalse ==> Unsatisfiable()
      requires status0 == LUndef ==> ok && Valid()
      modifies this`model, this`ok, this`assigns, this`polarity, this`trail, this`trailLim, this`qhead, orderHeap
      ensures status == status0 && Valid() && |assigns| == old(|assigns|)
      ensures status == LTrue ==> |model| == |assigns| && NoneFalse(model, formula)
      ensures status == LTrue ==> AllDecision() ==> Models(BoolModel(model), |assigns|, formula)
      ensures status == LFalse ==> !ok
    {
      hide Whole, Contradictory, Models, NoneFalse, BoolModel;
      status := status0;
      if status == LTrue {
        SaveModel();
        BackToRoot();
      } else if status == LFalse {
        ok := false;
      }
    }

    /** The values of all variables are kept as the model. */
    method SaveModel()
      requires ok && Complete()
      modifies this`model
      ensures ok && Complete() && |model| == |assigns| && NoneFalse(model, formula)
      ensures AllDecision() ==> Models(BoolModel(model), |assigns|, formula)
    {
      hide Whole, Models, NoneFalse;
      WholeConsistent(Snap());
      if |decision| == |assigns| && AllDecision() {
        WholeModel(Snap());
      }
      model := assigns;
    }
  }
}
