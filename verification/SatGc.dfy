/** Copying garbage collection of clauses: reloc, relocAll and garbageCollect
    (memin/minisat/core/SolverTypes.h, Solver.cpp). */
module SatGc {
  import opened SatState
  import opened SatTrail
  import opened SatWatch
  import opened SatDb

  /** relocate: the header flag is set and the forwarding address overwrites the first literal. */
  function Forward(c: Clause, to: nat): Clause
    requires |c.lits| >= 1
  {
    c.(reloced := true, lits := c.lits[0 := ToLit(to)])
  }

  /** relocation(): the address that the first literal's bits stand for. */
  function Relocation(c: Clause): nat
    requires |c.lits| >= 1
  {
    ToInt(c.lits[0])
  }

  /** alloc in the new region, with mark and (for learnt clauses) activity copied. */
  function Copied(c: Clause): Clause {
    Clause(c.lits, c.learnt, c.mark, false, if c.learnt then c.act else 0.0)
  }

  /** The same clause: literals, learnt flag, mark and, if learnt, activity. */
  ghost predicate SameClause(c: Clause, d: Clause) {
    c.lits == d.lits && c.learnt == d.learnt && c.mark == d.mark && !d.reloced && (c.learnt ==> c.act == d.act)
  }

  /** `fwd` maps the clauses of region `from0` that have been moved to their place in `to`, `bwd` is its inverse. */
  datatype Moves = Moves(fwd: map<nat, nat>, bwd: seq<nat>)

  ghost predicate MovedTo(from0: seq<Clause>, from: seq<Clause>, to: seq<Clause>, mv: Moves, cr: nat)
    requires cr in mv.fwd && |from| == |from0| && |mv.bwd| == |to|
  {
    && Live(from0, cr) && |from0[cr].lits| >= 1 && !from0[cr].reloced
    && mv.fwd[cr] < |to| && mv.bwd[mv.fwd[cr]] == cr
    && SameClause(from0[cr], to[mv.fwd[cr]]) && from[cr] == Forward(from0[cr], mv.fwd[cr])
  }

  ghost predicate Moving(from0: seq<Clause>, from: seq<Clause>, to: seq<Clause>, mv: Moves) {
    && |from| == |from0| && |mv.bwd| == |to|
    && (forall cr :: cr in mv.fwd ==> MovedTo(from0, from, to, mv, cr))
    && (forall cr: nat :: cr < |from0| && cr !in mv.fwd ==> from[cr] == from0[cr])
    && (forall t :: 0 <= t < |to| ==> mv.bwd[t] in mv.fwd && mv.fwd[mv.bwd[t]] == t)
  }

  ghost predicate Later(mv: Moves, mv2: Moves) {
    forall cr :: cr in mv.fwd ==> cr in mv2.fwd && mv2.fwd[cr] == mv.fwd[cr]
  }

  ghost function AddMove(mv: Moves, cr: nat, to: nat): Moves {
    Moves(mv.fwd[cr := to], mv.bwd + [cr])
  }

  lemma MoveNew(from0: seq<Clause>, from: seq<Clause>, to: seq<Clause>, mv: Moves, cr: nat)
    requires Moving(from0, from, to, mv) && Live(from0, cr) && |from0[cr].lits| >= 1 && !from[cr].reloced && !from0[cr].reloced
    ensures cr !in mv.fwd && from[cr] == from0[cr]
    ensures Moving(from0, from[cr := Forward(from[cr], |to|)], to + [Copied(from[cr])], AddMove(mv, cr, |to|))
    ensures Later(mv, AddMove(mv, cr, |to|))
  {
    assert cr in mv.fwd ==> MovedTo(from0, from, to, mv, cr);
    var from2, to2, mv2 := from[cr := Forward(from[cr], |to|)], to + [Copied(from[cr])], AddMove(mv, cr, |to|);
    forall c | c in mv2.fwd ensures MovedTo(from0, from2, to2, mv2, c) {
      if c != cr {
        assert MovedTo(from0, from, to, mv, c);
      }
    }
    forall t | 0 <= t < |to2| ensures mv2.bwd[t] in mv2.fwd && mv2.fwd[mv2.bwd[t]] == t {
      if t < |to| {
        assert mv2.bwd[t] == mv.bwd[t];
      }
    }
  }

  /** A clause that was moved before: its forwarding address is read back from the first literal. */
  lemma MoveOld(from0: seq<Clause>, from: seq<Clause>, to: seq<Clause>, mv: Moves, cr: nat)
    requires Moving(from0, from, to, mv) && Live(from0, cr) && !from0[cr].reloced && from[cr].reloced
    ensures cr in mv.fwd && |from[cr].lits| >= 1 && Relocation(from[cr]) == mv.fwd[cr]
  {
    assert cr in mv.fwd && MovedTo(from0, from, to, mv, cr);
    LitEncoding(from[cr].lits[0], mv.fwd[cr]);
  }

  // ----- what has been rewritten -----

  ghost predicate RefsMoved(before: seq<nat>, after: seq<nat>, mv: Moves, k: nat) {
    && |before| == |after|
    && (forall i :: 0 <= i < k && i < |before| ==> before[i] in mv.fwd && after[i] == mv.fwd[before[i]])
    && (forall i :: k <= i < |before| ==> after[i] == before[i])
  }

  ghost predicate ListMoved(before: seq<Watcher>, after: seq<Watcher>, mv: Moves, k: nat) {
    && |before| == |after|
    && (forall i :: 0 <= i < k && i < |before| ==> before[i].cref in mv.fwd && after[i] == Watcher(mv.fwd[before[i].cref], before[i].blocker))
    && (forall i :: k <= i < |before| ==> after[i] == before[i])
  }

  /** The first `k` lists, counted by the integer codes of their literals, have been rewritten. */
  ghost predicate WatchesMoved(before: Watches, after: Watches, mv: Moves, k: nat) {
    && (forall p :: p in before <==> p in after)
    && (forall p :: p in before ==> ListMoved(before[p], after[p], mv, if ToInt(p) < k then |before[p]| else 0))
  }

  ghost predicate ReasonMoved(a: Asg, reason2: seq<Ref>, mv: Moves, i: nat, k: nat)
    requires TrailOk(a) && |reason2| == |a.reason| && i < |a.trail|
  {
    && OnTrail(a, i)
    && var r := a.reason[a.trail[i].v];
    if i < k && r.Ref? then r.cr in mv.fwd && reason2[a.trail[i].v] == Ref(mv.fwd[r.cr]) else reason2[a.trail[i].v] == r
  }

  ghost predicate ReasonsMoved(a: Asg, reason2: seq<Ref>, mv: Moves, k: nat)
    requires TrailOk(a)
  {
    && |reason2| == |a.reason|
    && (forall i :: 0 <= i < |a.trail| ==> ReasonMoved(a, reason2, mv, i, k))
  }

  lemma LaterMoved(mv: Moves, mv2: Moves, a: Asg, reason2: seq<Ref>, i: nat, before: Watches, after: Watches, k: nat)
    requires Later(mv, mv2)
    ensures forall o, n, j :: RefsMoved(o, n, mv, j) ==> RefsMoved(o, n, mv2, j)
    ensures forall o, n, j :: ListMoved(o, n, mv, j) ==> ListMoved(o, n, mv2, j)
    ensures WatchesMoved(before, after, mv, k) ==> WatchesMoved(before, after, mv2, k)
    ensures TrailOk(a) && ReasonsMoved(a, reason2, mv, i) ==> ReasonsMoved(a, reason2, mv2, i)
  {
    if TrailOk(a) && ReasonsMoved(a, reason2, mv, i) {
      forall j | 0 <= j < |a.trail| ensures ReasonMoved(a, reason2, mv2, j, i) {
        assert ReasonMoved(a, reason2, mv, j, i);
      }
    }
  }

  /** In relocAll the reason of a trail literal is always moved: it is locked or was moved before. */
  lemma ReasonMovable(a: Asg, from0: seq<Clause>, from: seq<Clause>, to: seq<Clause>, mv: Moves, reason2: seq<Ref>, i: nat)
    requires TrailOk(a) && ReasonsOk(a, from0) && DbOk(|a.assigns|, from0) && Moving(from0, from, to, mv)
    requires ReasonsMoved(a, reason2, mv, i) && i < |a.trail| && OnTrail(a, i) && reason2[a.trail[i].v].Ref?
    ensures reason2[a.trail[i].v] == a.reason[a.trail[i].v]
    ensures var cr := reason2[a.trail[i].v].cr;
            Live(from0, cr) && |from0[cr].lits| >= 1 && !from0[cr].reloced && |from[cr].lits| >= 1 &&
            (from[cr].reloced || (from[cr].lits[0].v < |a.assigns| && Locked(a.(reason := reason2), from, cr)))
  {
    assert ReasonMoved(a, reason2, mv, i, i);
    var cr := reason2[a.trail[i].v].cr;
    assert IsReason(a, from0, i, cr);
    if cr in mv.fwd {
      assert MovedTo(from0, from, to, mv, cr);
    }
  }

  /** One more trail literal has its reason rewritten. */
  lemma ReasonStep(a: Asg, reason2: seq<Ref>, mv: Moves, i: nat, r: Ref)
    requires TrailOk(a) && ReasonsMoved(a, reason2, mv, i) && i < |a.trail| && OnTrail(a, i)
    requires var o := a.reason[a.trail[i].v]; if o.Ref? then o.cr in mv.fwd && r == Ref(mv.fwd[o.cr]) else r == o
    ensures ReasonsMoved(a, reason2[a.trail[i].v := r], mv, i + 1)
  {
    var reason3, i1 := reason2[a.trail[i].v := r], i + 1;
    forall j | 0 <= j < |a.trail| ensures ReasonMoved(a, reason3, mv, j, i1) {
      assert ReasonMoved(a, reason2, mv, j, i);
      assert OnTrail(a, j);
    }
  }

  // ----- the state after the collection -----

  ghost predicate Collected(s: State, s2: State, mv: Moves, from: seq<Clause>)
    requires TrailOk(s.a)
  {
    && Moving(s.ca, from, s2.ca, mv) && (forall cr: nat :: Live(s.ca, cr) ==> cr in mv.fwd)
    && s2.a == s.a.(reason := s2.a.reason) && ReasonsMoved(s.a, s2.a.reason, mv, |s.a.trail|)
    && (forall p :: p in s.watches <==> p in s2.watches)
    && (forall p :: p in s.watches ==> ListMoved(s.watches[p], s2.watches[p], mv, |s.watches[p]|))
    && s.dirty == {} && s2.dirty == {}
  }

  lemma GcTrail(s: State, s2: State, mv: Moves, from: seq<Clause>)
    requires TrailOk(s.a) && ReasonsOk(s.a, s.ca) && Collected(s, s2, mv, from)
    ensures TrailOk(s2.a) && ReasonsOk(s2.a, s2.ca)
  {
    var a, b := s.a, s2.a;
    forall i | 0 <= i < |b.trail| ensures OnTrail(b, i) && LevelOk(b, i) {
      assert OnTrail(a, i) && LevelOk(a, i) && ReasonMoved(a, b.reason, mv, i, |a.trail|);
    }
    forall i | 0 <= i < |b.trail|
      ensures OnTrail(b, i) && (b.reason[b.trail[i].v].Ref? ==> IsReason(b, s2.ca, i, b.reason[b.trail[i].v].cr))
    {
      assert OnTrail(a, i) && OnTrail(b, i) && ReasonMoved(a, b.reason, mv, i, |a.trail|);
      if b.reason[b.trail[i].v].Ref? {
        var cr := a.reason[a.trail[i].v].cr;
        assert IsReason(a, s.ca, i, cr) && MovedTo(s.ca, from, s2.ca, mv, cr);
      }
    }
  }

  /** Every clause of the new region is a live clause of the old one. */
  lemma NewIsOld(s: State, s2: State, mv: Moves, from: seq<Clause>, t: nat)
    requires TrailOk(s.a) && Collected(s, s2, mv, from) && t < |s2.ca|
    ensures mv.bwd[t] in mv.fwd && mv.fwd[mv.bwd[t]] == t && Live(s.ca, mv.bwd[t]) && SameClause(s.ca[mv.bwd[t]], s2.ca[t])
  {
    assert MovedTo(s.ca, from, s2.ca, mv, mv.bwd[t]);
  }

  lemma GcWatches(n: nat, s: State, s2: State, mv: Moves, from: seq<Clause>)
    requires TrailOk(s.a) && WatchesOk(n, s.ca, s.watches, {}) && Collected(s, s2, mv, from)
    ensures WatchesOk(n, s2.ca, s2.watches, {})
  {
    forall p | p in s2.watches ensures ListOk(s2.ca, p, s2.watches[p], {}) {
      GcList(s, s2, mv, from, p);
    }
    forall t: nat | Live(s2.ca, t) ensures Watched(s2.ca, s2.watches, t) {
      NewIsOld(s, s2, mv, from, t);
      var cr := mv.bwd[t];
      assert Watched(s.ca, s.watches, cr);
      GcLists(s, s2, mv, from, Not(s.ca[cr].lits[0]), cr);
      GcLists(s, s2, mv, from, Not(s.ca[cr].lits[1]), cr);
    }
  }

  lemma GcList(s: State, s2: State, mv: Moves, from: seq<Clause>, p: Lit)
    requires TrailOk(s.a) && Collected(s, s2, mv, from) && p in s.watches && ListOk(s.ca, p, s.watches[p], {})
    ensures ListOk(s2.ca, p, s2.watches[p], {})
  {
    var ws, ws2 := s.watches[p], s2.watches[p];
    forall i | 0 <= i < |ws2| ensures WatcherOk(s2.ca, p, ws2[i], {}) {
      assert WatcherOk(s.ca, p, ws[i], {});
      assert MovedTo(s.ca, from, s2.ca, mv, ws[i].cref);
    }
    forall i, j | 0 <= i < j < |ws2| ensures ws2[i].cref != ws2[j].cref {
      assert ws[i].cref != ws[j].cref;
      assert MovedTo(s.ca, from, s2.ca, mv, ws[i].cref) && MovedTo(s.ca, from, s2.ca, mv, ws[j].cref);
    }
  }

  lemma GcLists(s: State, s2: State, mv: Moves, from: seq<Clause>, p: Lit, cr: nat)
    requires TrailOk(s.a) && Collected(s, s2, mv, from) && p in s.watches && Lists(s.watches[p], cr) && cr in mv.fwd
    ensures Lists(s2.watches[p], mv.fwd[cr])
  {
    var i :| 0 <= i < |s.watches[p]| && s.watches[p][i].cref == cr;
    assert s2.watches[p][i].cref == mv.fwd[cr];
  }

  lemma GcProp(s: State, s2: State, mv: Moves, from: seq<Clause>, f: seq<seq<Lit>>, bound: nat)
    requires TrailOk(s.a) && Collected(s, s2, mv, from)
    requires PropOk(s.a, s.ca, bound) && Sound(s.a, s.ca, f) && AllCovered(s.a, s.ca, f)
    ensures PropOk(s.a, s2.ca, bound) && Sound(s.a, s2.ca, f) && AllCovered(s.a, s2.ca, f)
  {
    var a := s.a;
    forall t: nat | Live(s2.ca, t)
      ensures |s2.ca[t].lits| >= 2 ==>
                WatchKept(a, s2.ca[t].lits, s2.ca[t].lits[0], bound) && WatchKept(a, s2.ca[t].lits, s2.ca[t].lits[1], bound)
      ensures Entails(|a.assigns|, f, s2.ca[t].lits)
    {
      NewIsOld(s, s2, mv, from, t);
      assert Live(s.ca, mv.bwd[t]);
    }
    forall i | 0 <= i < |f| ensures Covered(a, s2.ca, f[i]) {
      if cr: nat :| Represents(s.ca, cr, f[i]) {
        assert MovedTo(s.ca, from, s2.ca, mv, cr);
        assert Represents(s2.ca, mv.fwd[cr], f[i]);
      }
    }
  }

  lemma GcInv(s: State, s2: State, mv: Moves, from: seq<Clause>, f: seq<seq<Lit>>, bound: nat)
    requires Inv(s, f, bound) && Collected(s, s2, mv, from)
    ensures Inv(s2, f, bound)
  {
    GcTrail(s, s2, mv, from);
    GcWatches(|s.a.assigns|, s, s2, mv, from);
    GcProp(s, s2, mv, from, f, bound);
    SameValues(s.a, s2.a, s2.ca, f, bound);
    forall t: nat | Live(s2.ca, t) ensures GoodLits(|s.a.assigns|, s2.ca[t].lits) && !s2.ca[t].reloced {
      NewIsOld(s, s2, mv, from, t);
    }
  }

  /** References that named one clause still name one clause, different ones stay different, and the
      clause has the same contents. */
  lemma GcPreserves(s: State, s2: State, mv: Moves, from: seq<Clause>, cr: nat, cr2: nat)
    requires TrailOk(s.a) && Collected(s, s2, mv, from) && Live(s.ca, cr) && Live(s.ca, cr2)
    ensures cr in mv.fwd && cr2 in mv.fwd && (mv.fwd[cr] == mv.fwd[cr2] <==> cr == cr2)
    ensures Live(s2.ca, mv.fwd[cr]) && SameClause(s.ca[cr], s2.ca[mv.fwd[cr]])
  {
    assert MovedTo(s.ca, from, s2.ca, mv, cr) && MovedTo(s.ca, from, s2.ca, mv, cr2);
  }

  lemma GcEnumerates(s: State, s2: State, mv: Moves, from: seq<Clause>, cs: seq<nat>, cs2: seq<nat>, learnt: bool)
    requires TrailOk(s.a) && Collected(s, s2, mv, from) && Enumerates(s.ca, cs, learnt) && RefsMoved(cs, cs2, mv, |cs|)
    ensures Enumerates(s2.ca, cs2, learnt)
  {
    forall i, j | 0 <= i < j < |cs2| ensures cs2[i] != cs2[j] {
      assert cs[i] in cs && cs[j] in cs;
      GcPreserves(s, s2, mv, from, cs[i], cs[j]);
    }
    forall i | 0 <= i < |cs2| ensures Live(s2.ca, cs2[i]) && s2.ca[cs2[i]].learnt == learnt {
      assert cs[i] in cs;
      GcPreserves(s, s2, mv, from, cs[i], cs[i]);
    }
    forall t: nat | Live(s2.ca, t) && s2.ca[t].learnt == learnt ensures t in cs2 {
      NewIsOld(s, s2, mv, from, t);
      var i :| 0 <= i < |cs| && cs[i] == mv.bwd[t];
      assert cs2[i] == t;
    }
  }
}
