/** Literals, clauses and the state of the SAT solver (memin/minisat/core/SolverTypes.h, Solver.h). */
module SatState {

  // ----- literals and lifted booleans -----

  /** `Lit(v, sign)` is variable `v`, negated if `sign`. */
  datatype Lit = Lit(v: nat, sign: bool)

  function Not(p: Lit): Lit {
    Lit(p.v, !p.sign)
  }

  /** The integer that stands for a literal: var + var + sign. */
  function ToInt(p: Lit): nat {
    p.v + p.v + if p.sign then 1 else 0
  }

  function ToLit(x: nat): Lit {
    Lit(x / 2, x % 2 == 1)
  }

  /** The encoding is a bijection; a literal and its negation are neighbours, the plain one first. */
  lemma LitEncoding(p: Lit, x: nat)
    ensures ToLit(ToInt(p)) == p && ToInt(ToLit(x)) == x
    ensures ToInt(Not(p)) == if ToInt(p) % 2 == 0 then ToInt(p) + 1 else ToInt(p) - 1
  {}

  datatype LBool = LTrue | LFalse | LUndef

  function Flip(b: LBool): LBool {
    match b
    case LTrue => LFalse
    case LFalse => LTrue
    case LUndef => LUndef
  }

  /** The value of a literal: that of its variable, flipped if it is negated. */
  function Value(assigns: seq<LBool>, p: Lit): LBool
    requires p.v < |assigns|
  {
    if p.sign then Flip(assigns[p.v]) else assigns[p.v]
  }

  // ----- clauses and references -----

  datatype Ref = NoRef | Ref(cr: nat)

  /** A clause in the region. Once `reloced` is set its first literal holds the forwarding address. */
  datatype Clause = Clause(lits: seq<Lit>, learnt: bool, mark: nat, reloced: bool, act: real)

  datatype Watcher = Watcher(cref: nat, blocker: Lit)

  // ----- models -----

  predicate LitHolds(m: seq<bool>, p: Lit) {
    p.v < |m| && m[p.v] == !p.sign
  }

  ghost predicate Holds(m: seq<bool>, lits: seq<Lit>) {
    exists i :: 0 <= i < |lits| && LitHolds(m, lits[i])
  }

  /** A total assignment of at least `n` variables that satisfies every clause. */
  ghost predicate Models(m: seq<bool>, n: nat, f: seq<seq<Lit>>) {
    |m| >= n && forall i :: 0 <= i < |f| ==> Holds(m, f[i])
  }

  lemma HoldsIn(m: seq<bool>, lits: seq<Lit>, lits2: seq<Lit>)
    requires Holds(m, lits) && forall i :: 0 <= i < |lits| ==> lits[i] in lits2
    ensures Holds(m, lits2)
  {
    var i :| 0 <= i < |lits| && LitHolds(m, lits[i]);
    var j :| 0 <= j < |lits2| && lits2[j] == lits[i];
  }

  // ----- the assignment -----

  /** assigns, vardata, trail and trail_lim; `pos` says where on the trail a variable stands. */
  datatype Asg = Asg(assigns: seq<LBool>, reason: seq<Ref>, level: seq<nat>, trail: seq<Lit>, lim: seq<nat>, pos: seq<nat>)

  predicate VarOk(a: Asg, p: Lit) {
    p.v < |a.assigns|
  }

  ghost predicate OnTrail(a: Asg, i: nat)
    requires i < |a.trail| && |a.pos| == |a.assigns|
  {
    VarOk(a, a.trail[i]) && Value(a.assigns, a.trail[i]) == LTrue && a.pos[a.trail[i].v] == i
  }

  ghost predicate LevelOk(a: Asg, i: nat)
    requires i < |a.trail| && |a.level| == |a.reason| == |a.assigns| && a.trail[i].v < |a.assigns|
  {
    var v := a.trail[i].v;
    && a.level[v] <= |a.lim|
    && (forall d :: 0 <= d < |a.lim| ==> (a.level[v] <= d <==> i < a.lim[d]))
    && (a.level[v] > 0 && a.reason[v].NoRef? ==> a.lim[a.level[v] - 1] == i)
  }

  ghost predicate TrailOk(a: Asg) {
    && |a.reason| == |a.level| == |a.pos| == |a.assigns|
    && (forall i :: 0 <= i < |a.trail| ==> OnTrail(a, i) && LevelOk(a, i))
    && (forall v :: 0 <= v < |a.assigns| && a.assigns[v] != LUndef ==> a.pos[v] < |a.trail| && a.trail[a.pos[v]].v == v)
    && (forall d, e :: 0 <= d < e < |a.lim| ==> a.lim[d] <= a.lim[e])
    && (forall d :: 0 <= d < |a.lim| ==> a.lim[d] <= |a.trail|)
  }

  lemma RootTables(a: Asg)
    requires TrailOk(a)
    ensures |a.reason| == |a.level| == |a.pos| == |a.assigns|
  {}

  /** Literal `q` is false and was so before position `i` of the trail. */
  predicate FalseBefore(a: Asg, q: Lit, i: nat)
    requires |a.pos| == |a.assigns|
  {
    VarOk(a, q) && Value(a.assigns, q) == LFalse && a.pos[q.v] < i
  }

  // ----- the clause database -----

  predicate Live(ca: seq<Clause>, cr: nat) {
    cr < |ca| && ca[cr].mark != 1
  }

  ghost predicate GoodLits(n: nat, lits: seq<Lit>) {
    && |lits| >= 2
    && (forall k :: 0 <= k < |lits| ==> lits[k].v < n)
    && (forall k, l :: 0 <= k < l < |lits| ==> lits[k].v != lits[l].v)
  }

  ghost predicate DbOk(n: nat, ca: seq<Clause>) {
    forall cr: nat :: Live(ca, cr) ==> GoodLits(n, ca[cr].lits) && !ca[cr].reloced
  }

  /** The clause that made trail[i] true: its other literals were false before. */
  ghost predicate IsReason(a: Asg, ca: seq<Clause>, i: nat, cr: nat)
    requires |a.pos| == |a.assigns| && i < |a.trail|
  {
    && Live(ca, cr) && |ca[cr].lits| >= 2 && ca[cr].lits[0] == a.trail[i]
    && forall k :: 1 <= k < |ca[cr].lits| ==> FalseBefore(a, ca[cr].lits[k], i)
  }

  ghost predicate ReasonsOk(a: Asg, ca: seq<Clause>)
    requires TrailOk(a)
  {
    forall i :: 0 <= i < |a.trail| ==>
      OnTrail(a, i) && (a.reason[a.trail[i].v].Ref? ==> IsReason(a, ca, i, a.reason[a.trail[i].v].cr))
  }

  // ----- watches -----

  predicate Watching(c: Clause, p: Lit) {
    |c.lits| >= 2 && (c.lits[0] == Not(p) || c.lits[1] == Not(p))
  }

  ghost predicate Lists(ws: seq<Watcher>, cr: nat) {
    exists i :: 0 <= i < |ws| && ws[i].cref == cr
  }

  /** A watcher in the list of `p` belongs to a clause watching ~p, or the list is dirty. */
  predicate WatcherOk(ca: seq<Clause>, p: Lit, w: Watcher, dirty: set<Lit>) {
    w.cref < |ca| && if Live(ca, w.cref) then Watching(ca[w.cref], p) && w.blocker in ca[w.cref].lits else p in dirty
  }

  ghost predicate ListOk(ca: seq<Clause>, p: Lit, ws: seq<Watcher>, dirty: set<Lit>) {
    && (forall i :: 0 <= i < |ws| ==> WatcherOk(ca, p, ws[i], dirty))
    && (forall i, j :: 0 <= i < j < |ws| ==> ws[i].cref != ws[j].cref)
  }

  type Watches = map<Lit, seq<Watcher>>

  ghost predicate Watched(ca: seq<Clause>, watches: Watches, cr: nat)
    requires cr < |ca|
  {
    var lits := ca[cr].lits;
    && |lits| >= 2 && Not(lits[0]) in watches && Not(lits[1]) in watches
    && Lists(watches[Not(lits[0])], cr) && Lists(watches[Not(lits[1])], cr)
  }

  ghost predicate WatchesOk(n: nat, ca: seq<Clause>, watches: Watches, dirty: set<Lit>) {
    && (forall p: Lit :: p.v < n <==> p in watches) && (forall p :: p in dirty ==> p in watches)
    && (forall p :: p in watches ==> ListOk(ca, p, watches[p], dirty))
    && (forall cr: nat :: Live(ca, cr) ==> Watched(ca, watches, cr))
  }

  // ----- what propagation has achieved -----

  /** The clause has a true literal that was assigned at `level` or below. */
  ghost predicate SatAt(a: Asg, lits: seq<Lit>, level: nat)
    requires |a.level| == |a.assigns|
  {
    exists k :: 0 <= k < |lits| && VarOk(a, lits[k]) && Value(a.assigns, lits[k]) == LTrue && a.level[lits[k].v] <= level
  }

  /** A watched literal that became false before position `bound` leaves the clause satisfied. */
  ghost predicate WatchKept(a: Asg, lits: seq<Lit>, q: Lit, bound: nat)
    requires |a.level| == |a.pos| == |a.assigns|
  {
    FalseBefore(a, q, bound) ==> SatAt(a, lits, a.level[q.v])
  }

  ghost predicate PropOk(a: Asg, ca: seq<Clause>, bound: nat)
    requires |a.level| == |a.pos| == |a.assigns|
  {
    forall cr: nat :: Live(ca, cr) && |ca[cr].lits| >= 2 ==>
      WatchKept(a, ca[cr].lits, ca[cr].lits[0], bound) && WatchKept(a, ca[cr].lits, ca[cr].lits[1], bound)
  }

  // ----- soundness -----

  /** Literals true at level 0. */
  predicate Fixed(a: Asg, p: Lit)
    requires |a.level| == |a.assigns|
  {
    VarOk(a, p) && Value(a.assigns, p) == LTrue && a.level[p.v] == 0
  }

  ghost predicate Entails(n: nat, f: seq<seq<Lit>>, lits: seq<Lit>) {
    forall m :: Models(m, n, f) ==> Holds(m, lits)
  }

  ghost predicate EntailsLit(n: nat, f: seq<seq<Lit>>, p: Lit) {
    forall m :: Models(m, n, f) ==> LitHolds(m, p)
  }

  /** Every live clause and every literal fixed at level 0 follows from the added clauses. */
  ghost predicate Sound(a: Asg, ca: seq<Clause>, f: seq<seq<Lit>>)
    requires |a.level| == |a.assigns|
  {
    && (forall cr: nat :: Live(ca, cr) ==> Entails(|a.assigns|, f, ca[cr].lits))
    && (forall p :: Fixed(a, p) ==> EntailsLit(|a.assigns|, f, p))
  }

  /** An added clause is still represented: by a fixed literal, by a live problem clause, or because it is trivial. */
  ghost predicate Covered(a: Asg, ca: seq<Clause>, lits: seq<Lit>)
    requires |a.level| == |a.assigns|
  {
    || (exists k :: 0 <= k < |lits| && Fixed(a, lits[k]))
    || (exists cr: nat :: Represents(ca, cr, lits))
    || (exists k, l :: 0 <= k < |lits| && 0 <= l < |lits| && lits[l] == Not(lits[k]))
  }

  ghost predicate Represents(ca: seq<Clause>, cr: nat, lits: seq<Lit>) {
    Live(ca, cr) && !ca[cr].learnt && forall k :: 0 <= k < |ca[cr].lits| ==> ca[cr].lits[k] in lits
  }

  ghost predicate AllCovered(a: Asg, ca: seq<Clause>, f: seq<seq<Lit>>)
    requires |a.level| == |a.assigns|
  {
    forall i :: 0 <= i < |f| ==> Covered(a, ca, f[i])
  }

  // ----- everything between two steps -----

  datatype State = State(a: Asg, ca: seq<Clause>, watches: Watches, dirty: set<Lit>)

  /** `bound` is the part of the trail that has been propagated. */
  ghost predicate Inv(s: State, f: seq<seq<Lit>>, bound: nat) {
    && TrailOk(s.a) && DbOk(|s.a.assigns|, s.ca) && ReasonsOk(s.a, s.ca)
    && WatchesOk(|s.a.assigns|, s.ca, s.watches, s.dirty)
    && PropOk(s.a, s.ca, bound)
    && Sound(s.a, s.ca, f) && AllCovered(s.a, s.ca, f)
  }
}
