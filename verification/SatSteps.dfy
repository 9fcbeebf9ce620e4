/** Steps of addClause_, propagate and newVar, on solver states (memin/minisat/core/Solver.cpp). */
module SatSteps {
  import opened SatState
  import opened SatTrail
  import opened SatWatch
  import opened SatDb

  // ----- newVar -----

  /** watches.init for both literals of variable `v`. */
  function WithLists(watches: Watches, v: nat): Watches {
    watches[Lit(v, false) := []][Lit(v, true) := []]
  }

  function WithVar(s: State): State {
    var n := |s.a.assigns|;
    State(s.a.(assigns := s.a.assigns + [LUndef], reason := s.a.reason + [NoRef], level := s.a.level + [0], pos := s.a.pos + [0]),
          s.ca, WithLists(s.watches, n), s.dirty)
  }

  lemma WithVarTrail(s: State)
    requires TrailOk(s.a) && ReasonsOk(s.a, s.ca)
    ensures TrailOk(WithVar(s).a) && ReasonsOk(WithVar(s).a, s.ca)
  {
    var a, b := s.a, WithVar(s).a;
    forall i | 0 <= i < |b.trail| ensures OnTrail(b, i) && LevelOk(b, i) {
      assert OnTrail(a, i) && LevelOk(a, i);
    }
    forall i | 0 <= i < |b.trail|
      ensures OnTrail(b, i) && (b.reason[b.trail[i].v].Ref? ==> IsReason(b, s.ca, i, b.reason[b.trail[i].v].cr))
    {
      assert OnTrail(a, i) && OnTrail(b, i);
      if a.reason[a.trail[i].v].Ref? {
        var cr := a.reason[a.trail[i].v].cr;
        assert IsReason(a, s.ca, i, cr);
        forall k | 1 <= k < |s.ca[cr].lits| ensures FalseBefore(b, s.ca[cr].lits[k], i) {
          assert FalseBefore(a, s.ca[cr].lits[k], i);
        }
      }
    }
  }

  lemma WithVarWatches(n: nat, s: State)
    requires WatchesOk(n, s.ca, s.watches, s.dirty) && DbOk(n, s.ca) && n == |s.a.assigns|
    ensures WatchesOk(n + 1, s.ca, WithVar(s).watches, s.dirty)
  {
    var watches2 := WithVar(s).watches;
    forall p: Lit ensures p.v < n + 1 <==> p in watches2 {}
    forall p | p in watches2 ensures ListOk(s.ca, p, watches2[p], s.dirty) {
      if p.v < n {
        assert watches2[p] == s.watches[p];
      }
    }
    forall cr: nat | Live(s.ca, cr) ensures Watched(s.ca, watches2, cr) {
      assert Watched(s.ca, s.watches, cr) && GoodLits(n, s.ca[cr].lits);
      assert watches2[Not(s.ca[cr].lits[0])] == s.watches[Not(s.ca[cr].lits[0])];
      assert watches2[Not(s.ca[cr].lits[1])] == s.watches[Not(s.ca[cr].lits[1])];
    }
  }

  lemma WithVarInv(s: State, f: seq<seq<Lit>>, bound: nat)
    requires Inv(s, f, bound)
    ensures Inv(WithVar(s), f, bound)
  {
    var n, a, b := |s.a.assigns|, s.a, WithVar(s).a;
    WithVarTrail(s);
    WithVarWatches(n, s);
    forall cr: nat | Live(s.ca, cr) && |s.ca[cr].lits| >= 2
      ensures WatchKept(b, s.ca[cr].lits, s.ca[cr].lits[0], bound) && WatchKept(b, s.ca[cr].lits, s.ca[cr].lits[1], bound)
    {
      assert GoodLits(n, s.ca[cr].lits);
      WithVarKept(s, s.ca[cr].lits, s.ca[cr].lits[0], bound);
      WithVarKept(s, s.ca[cr].lits, s.ca[cr].lits[1], bound);
    }
    WithVarSound(s, f);
  }

  lemma WithVarKept(s: State, lits: seq<Lit>, q: Lit, bound: nat)
    requires |s.a.level| == |s.a.pos| == |s.a.reason| == |s.a.assigns| && WatchKept(s.a, lits, q, bound) && VarOk(s.a, q)
    ensures WatchKept(WithVar(s).a, lits, q, bound)
  {
    var a, b := s.a, WithVar(s).a;
    if FalseBefore(b, q, bound) {
      assert FalseBefore(a, q, bound);
      var k :| 0 <= k < |lits| && VarOk(a, lits[k]) && Value(a.assigns, lits[k]) == LTrue && a.level[lits[k].v] <= a.level[q.v];
      assert VarOk(b, lits[k]) && Value(b.assigns, lits[k]) == LTrue && b.level[lits[k].v] <= b.level[q.v];
    }
  }

  lemma WithVarSound(s: State, f: seq<seq<Lit>>)
    requires |s.a.level| == |s.a.pos| == |s.a.reason| == |s.a.assigns| && Sound(s.a, s.ca, f) && AllCovered(s.a, s.ca, f)
    ensures Sound(WithVar(s).a, s.ca, f) && AllCovered(WithVar(s).a, s.ca, f)
  {
    var n, a, b := |s.a.assigns|, s.a, WithVar(s).a;
    forall m | Models(m, n + 1, f) ensures Models(m, n, f) {}
    forall cr: nat | Live(s.ca, cr) ensures Entails(n + 1, f, s.ca[cr].lits) {
      assert Entails(n, f, s.ca[cr].lits);
    }
    forall q ensures Fixed(b, q) <==> Fixed(a, q) {}
    forall q | Fixed(b, q) ensures EntailsLit(n + 1, f, q) {
      assert Fixed(a, q) && EntailsLit(n, f, q);
    }
    forall i | 0 <= i < |f| ensures Covered(b, s.ca, f[i]) {
      CoveredMore(a, b, s.ca, f[i]);
    }
  }

  // ----- sorting the literals of a new clause -----

  function InsertLit(s: seq<Lit>, p: Lit): seq<Lit> {
    if s == [] || ToInt(p) <= ToInt(s[0]) then [p] + s else [s[0]] + InsertLit(s[1..], p)
  }

  /** The literals sorted by their integer codes. */
  function SortLits(s: seq<Lit>): seq<Lit> {
    if s == [] then [] else InsertLit(SortLits(s[..|s| - 1]), s[|s| - 1])
  }

  predicate AscendingLits(s: seq<Lit>) {
    forall i, j :: 0 <= i < j < |s| ==> ToInt(s[i]) <= ToInt(s[j])
  }

  lemma {:induction false} InsertLitOk(s: seq<Lit>, p: Lit)
    requires AscendingLits(s)
    ensures AscendingLits(InsertLit(s, p)) && forall q :: q in InsertLit(s, p) <==> q == p || q in s
  {
    if s == [] || ToInt(p) <= ToInt(s[0]) {
    } else {
      InsertLitOk(s[1..], p);
      assert s == [s[0]] + s[1..];
      assert forall q :: q in InsertLit(s[1..], p) ==> ToInt(s[0]) <= ToInt(q);
    }
  }

  lemma {:induction false} SortLitsOk(s: seq<Lit>)
    ensures AscendingLits(SortLits(s)) && forall q :: q in SortLits(s) <==> q in s
  {
    if s != [] {
      SortLitsOk(s[..|s| - 1]);
      InsertLitOk(SortLits(s[..|s| - 1]), s[|s| - 1]);
      assert s == s[..|s| - 1] + [s[|s| - 1]];
    }
  }

  /** The literals kept so far by addClause_: unassigned, of increasing variables; what was dropped
      is a duplicate or false at level 0. */
  ghost predicate Filtered(a: Asg, sorted: seq<Lit>, i: nat, out: seq<Lit>)
    requires |a.level| == |a.assigns|
  {
    && i <= |sorted|
    && (forall k :: 0 <= k < |out| ==> VarOk(a, out[k]) && Value(a.assigns, out[k]) == LUndef)
    && (forall k, l :: 0 <= k < l < |out| ==> out[k].v < out[l].v)
    && Reduces(a, sorted[..i], out)
  }

  lemma FilterKeep(a: Asg, sorted: seq<Lit>, i: nat, out: seq<Lit>)
    requires |a.level| == |a.assigns| && Filtered(a, sorted, i, out) && i < |sorted| && AscendingLits(sorted)
    requires VarOk(a, sorted[i]) && Value(a.assigns, sorted[i]) == LUndef
    requires out == [] || (sorted[i] != out[|out| - 1] && sorted[i] != Not(out[|out| - 1]))
    ensures Filtered(a, sorted, i + 1, out + [sorted[i]])
  {
    var q := sorted[i];
    assert sorted[..i + 1] == sorted[..i] + [q];
    if out != [] {
      var p := out[|out| - 1];
      assert p in sorted[..i];
      assert ToInt(p) <= ToInt(q);
      assert p.v < q.v;
    }
    FilterMore(a, sorted[..i], out, q);
  }

  lemma FilterMore(a: Asg, lits: seq<Lit>, out: seq<Lit>, q: Lit)
    requires |a.level| == |a.assigns| && Reduces(a, lits, out)
    ensures Reduces(a, lits + [q], out + [q])
    ensures q in out || Fixed(a, Not(q)) ==> Reduces(a, lits + [q], out)
  {
    forall k | 0 <= k < |out + [q]| ensures (out + [q])[k] in lits + [q] {
      if k < |out| {
        assert out[k] in lits;
      }
    }
  }

  lemma FilterDrop(a: Asg, sorted: seq<Lit>, i: nat, out: seq<Lit>)
    requires |a.level| == |a.assigns| && Filtered(a, sorted, i, out) && i < |sorted|
    requires Fixed(a, Not(sorted[i])) || (out != [] && sorted[i] == out[|out| - 1])
    ensures Filtered(a, sorted, i + 1, out)
  {
    assert sorted[..i + 1] == sorted[..i] + [sorted[i]];
    FilterMore(a, sorted[..i], out, sorted[i]);
  }

  lemma FilterDone(a: Asg, ps: seq<Lit>, sorted: seq<Lit>, out: seq<Lit>)
    requires |a.level| == |a.assigns| && Filtered(a, sorted, |sorted|, out) && forall q :: q in sorted <==> q in ps
    ensures Reduces(a, ps, out)
  {
    assert sorted[..|sorted|] == sorted;
    forall k | 0 <= k < |ps| ensures ps[k] in out || Fixed(a, Not(ps[k])) {
      assert ps[k] in sorted;
      var l :| 0 <= l < |sorted| && sorted[l] == ps[k];
    }
    forall k | 0 <= k < |out| ensures out[k] in ps {
      assert out[k] in sorted[..|sorted|];
    }
  }

  /** At level 0 every assigned literal is fixed. */
  lemma RootFixed(a: Asg, q: Lit)
    requires TrailOk(a) && |a.lim| == 0 && VarOk(a, q) && Value(a.assigns, q) != LUndef
    ensures Fixed(a, q) || Fixed(a, Not(q))
    ensures Value(a.assigns, q) == LTrue ==> Fixed(a, q)
    ensures Value(a.assigns, q) == LFalse ==> Fixed(a, Not(q))
  {
    assert OnTrail(a, a.pos[q.v]) && LevelOk(a, a.pos[q.v]);
  }

  // ----- one watcher -----

  lemma BlockerTrue(s: State, f: seq<seq<Lit>>, p: Lit, kept: seq<Watcher>, rest: seq<Watcher>)
    requires Scanning(s, f, p, kept, rest) && rest != [] && VarOk(s.a, rest[0].blocker) && Value(s.a.assigns, rest[0].blocker) == LTrue
    ensures Scanning(s.(watches := s.watches[p := (kept + [rest[0]]) + rest[1..]]), f, p, kept + [rest[0]], rest[1..])
  {
    NextWatcher(s, f, p, kept, rest);
    var cr, b := rest[0].cref, rest[0].blocker;
    SatByLit(s.a, s.ca[cr].lits, b);
    KeepWatcher(s, f, p, kept, rest, rest[0]);
  }

  lemma SatByLit(a: Asg, lits: seq<Lit>, b: Lit)
    requires TrailOk(a) && b in lits && VarOk(a, b) && Value(a.assigns, b) == LTrue
    ensures SatAt(a, lits, |a.lim|)
  {
    assert OnTrail(a, a.pos[b.v]) && LevelOk(a, a.pos[b.v]);
    var k :| 0 <= k < |lits| && lits[k] == b;
    assert VarOk(a, lits[k]) && Value(a.assigns, lits[k]) == LTrue && a.level[lits[k].v] <= |a.lim|;
  }

  /** The false literal is put second. */
  lemma PutSecond(s: State, f: seq<seq<Lit>>, p: Lit, kept: seq<Watcher>, rest: seq<Watcher>)
    requires Scanning(s, f, p, kept, rest) && rest != []
    ensures var cr := rest[0].cref;
            Live(s.ca, cr) && GoodLits(|s.a.assigns|, s.ca[cr].lits) &&
            (s.ca[cr].lits[0] == Not(p) ==> Scanning(s.(ca := Relit(s.ca, cr, Swapped(s.ca[cr].lits))), f, p, kept, rest)) &&
            (s.ca[cr].lits[0] != Not(p) ==> s.ca[cr].lits[1] == Not(p))
  {
    NextWatcher(s, f, p, kept, rest);
    var cr := rest[0].cref;
    if s.ca[cr].lits[0] == Not(p) {
      SwapInv(s, f, s.a.pos[p.v], cr);
      assert AllSat(s.a, Relit(s.ca, cr, Swapped(s.ca[cr].lits)), kept);
    }
  }

  lemma FirstTrue(s: State, f: seq<seq<Lit>>, p: Lit, kept: seq<Watcher>, rest: seq<Watcher>, w: Watcher)
    requires Scanning(s, f, p, kept, rest) && rest != [] && w.cref == rest[0].cref && Live(s.ca, w.cref) && |s.ca[w.cref].lits| >= 2
    requires w.blocker == s.ca[w.cref].lits[0] && VarOk(s.a, w.blocker) && Value(s.a.assigns, w.blocker) == LTrue
    ensures Scanning(s.(watches := s.watches[p := (kept + [w]) + rest[1..]]), f, p, kept + [w], rest[1..])
  {
    SatByLit(s.a, s.ca[w.cref].lits, w.blocker);
    KeepWatcher(s, f, p, kept, rest, w);
  }

  ghost predicate AllFalse(a: Asg, lits: seq<Lit>) {
    forall k :: 0 <= k < |lits| ==> VarOk(a, lits[k]) && Value(a.assigns, lits[k]) == LFalse
  }

  /** The conflict clause: all its literals are false, one of them at the current level. */
  ghost predicate IsConflict(a: Asg, ca: seq<Clause>, cr: nat)
    requires |a.level| == |a.assigns|
  {
    && Live(ca, cr) && AllFalse(a, ca[cr].lits)
    && exists k :: 0 <= k < |ca[cr].lits| && AtCurrentLevel(a, ca[cr].lits[k])
  }

  predicate AtCurrentLevel(a: Asg, q: Lit)
    requires |a.level| == |a.assigns|
  {
    VarOk(a, q) && a.level[q.v] == |a.lim|
  }

  lemma ConflictFound(s: State, f: seq<seq<Lit>>, p: Lit, kept: seq<Watcher>, rest: seq<Watcher>, w: Watcher)
    requires Scanning(s, f, p, kept, rest) && rest != [] && w.cref == rest[0].cref && Live(s.ca, w.cref)
    requires GoodLits(|s.a.assigns|, s.ca[w.cref].lits) && w.blocker in s.ca[w.cref].lits && s.ca[w.cref].lits[1] == Not(p)
    requires forall k :: 0 <= k < |s.ca[w.cref].lits| ==> Value(s.a.assigns, s.ca[w.cref].lits[k]) == LFalse
    ensures IsConflict(s.a, s.ca, w.cref)
    ensures Inv(s.(watches := s.watches[p := (kept + [w]) + rest[1..]]), f, s.a.pos[p.v])
  {
    hide PropOk, Sound, AllCovered, ReasonsOk, DbOk, WatchesOk, TrailOk;
    RootTables(s.a);
    KeepList(|s.a.assigns|, s.ca, s.watches, p, kept, rest, w);
    OtherWatches(s, f, s.a.pos[p.v], s.watches[p := (kept + [w]) + rest[1..]], s.dirty);
    assert AtCurrentLevel(s.a, s.ca[w.cref].lits[1]);
  }

  /** Earlier bounds are weaker. */
  lemma LowerBound(s: State, f: seq<seq<Lit>>, bound: nat, bound2: nat)
    requires Inv(s, f, bound) && bound2 <= bound
    ensures Inv(s, f, bound2)
  {
    forall cr: nat | Live(s.ca, cr) && |s.ca[cr].lits| >= 2
      ensures WatchKept(s.a, s.ca[cr].lits, s.ca[cr].lits[0], bound2) && WatchKept(s.a, s.ca[cr].lits, s.ca[cr].lits[1], bound2)
    {
      assert WatchKept(s.a, s.ca[cr].lits, s.ca[cr].lits[0], bound) && WatchKept(s.a, s.ca[cr].lits, s.ca[cr].lits[1], bound);
    }
  }

  /** Starting on the list of the next literal of the queue. */
  lemma ScanBegins(s: State, f: seq<seq<Lit>>, qhead: nat)
    requires Inv(s, f, qhead) && qhead < |s.a.trail| && s.dirty == {}
    requires |s.a.lim| > 0 ==> s.a.lim[|s.a.lim| - 1] <= qhead
    ensures s.a.trail[qhead] in s.watches && Scanning(s, f, s.a.trail[qhead], [], s.watches[s.a.trail[qhead]])
    ensures s.a.pos[s.a.trail[qhead].v] == qhead
  {
    hide PropOk, Sound, AllCovered, ReasonsOk, DbOk;
    assert OnTrail(s.a, qhead) && LevelOk(s.a, qhead);
    var p := s.a.trail[qhead];
    assert [] + s.watches[p] == s.watches[p];
    var d := |s.a.lim|;
    assert d > 0 ==> !(s.a.level[p.v] <= d - 1);
  }
}
