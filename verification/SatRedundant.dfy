/** When litRedundant succeeds: chains of reasons, and the literals of a learnt clause that stay
    (memin/minisat/core/Solver.cpp). */
module SatRedundant {
  import opened SatState
  import opened SatTrail
  import opened SatWatch
  import opened SatDb
  import opened SatSteps
  import opened SatAnalyze
  import opened SatWhole
  import opened SatLearn
  import opened SatCuts

  // ----- chains of reasons -----

  /** Variable `u` occurs in the reason of `v` behind its first literal, is unmarked and above level 0. */
  ghost predicate Next(x: Snapshot, seen: set<nat>, v: nat, u: nat)
    requires TrailOk(x.s.a)
  {
    HasLiveReason(x, v) && u !in seen && u in High(x.s.a, x.s.ca[x.s.a.reason[v].cr].lits, 1, |x.s.ca[x.s.a.reason[v].cr].lits|)
  }

  /** The search cannot go past `u`: it has no reason, or its level modulo 32 is none of `levels`. */
  ghost predicate Stuck(x: Snapshot, levels: set<nat>, u: nat)
    requires TrailOk(x.s.a)
  {
    u < NumVars(x) && (x.s.a.reason[u].NoRef? || x.s.a.level[u] % 32 !in levels)
  }

  ghost predicate Chain(x: Snapshot, seen: set<nat>, chain: seq<nat>)
    requires TrailOk(x.s.a)
  {
    forall i: nat, j: nat :: j == i + 1 && j < |chain| ==> Next(x, seen, chain[i], chain[j])
  }

  ghost predicate ChainTo(x: Snapshot, seen: set<nat>, q: nat, v: nat, chain: seq<nat>)
    requires TrailOk(x.s.a)
  {
    |chain| > 0 && chain[0] == q && chain[|chain| - 1] == v && Chain(x, seen, chain)
  }

  /** A chain of reasons leads from `q` to `v`. */
  ghost predicate Reaches(x: Snapshot, seen: set<nat>, q: nat, v: nat)
    requires TrailOk(x.s.a)
  {
    exists chain: seq<nat> :: ChainTo(x, seen, q, v, chain)
  }

  ghost predicate ChainStuck(x: Snapshot, seen: set<nat>, levels: set<nat>, q: nat, chain: seq<nat>)
    requires TrailOk(x.s.a)
  {
    |chain| >= 2 && chain[0] == q && Chain(x, seen, chain) && Stuck(x, levels, chain[|chain| - 1])
  }

  /** A chain of one step or more leads from `q` to a variable where the search is stuck. */
  ghost predicate Blocked(x: Snapshot, seen: set<nat>, levels: set<nat>, q: nat)
    requires TrailOk(x.s.a)
  {
    exists chain: seq<nat> :: ChainStuck(x, seen, levels, q, chain)
  }

  lemma ReachesSelf(x: Snapshot, seen: set<nat>, q: nat)
    requires TrailOk(x.s.a)
    ensures Reaches(x, seen, q, q)
  {
    assert ChainTo(x, seen, q, q, [q]);
  }

  lemma ChainSnoc(x: Snapshot, seen: set<nat>, q: nat, v: nat, chain: seq<nat>, u: nat)
    requires TrailOk(x.s.a) && ChainTo(x, seen, q, v, chain) && Next(x, seen, v, u)
    ensures ChainTo(x, seen, q, u, chain + [u])
  {
    hide Next;
    var chain2 := chain + [u];
    forall i: nat, j: nat | j == i + 1 && j < |chain2| ensures Next(x, seen, chain2[i], chain2[j]) {
      if j < |chain| {
        assert Next(x, seen, chain[i], chain[j]);
      }
    }
  }

  lemma ReachesNext(x: Snapshot, seen: set<nat>, q: nat, v: nat, u: nat)
    requires TrailOk(x.s.a) && Reaches(x, seen, q, v) && Next(x, seen, v, u)
    ensures Reaches(x, seen, q, u)
  {
    hide Next, ChainTo;
    var chain :| ChainTo(x, seen, q, v, chain);
    ChainSnoc(x, seen, q, v, chain, u);
  }

  lemma StuckBlocks(x: Snapshot, seen: set<nat>, levels: set<nat>, q: nat, v: nat, u: nat)
    requires TrailOk(x.s.a) && Reaches(x, seen, q, v) && Next(x, seen, v, u) && Stuck(x, levels, u)
    ensures Blocked(x, seen, levels, q)
  {
    hide Next, Stuck, Chain;
    var chain :| ChainTo(x, seen, q, v, chain);
    ChainSnoc(x, seen, q, v, chain, u);
    assert ChainStuck(x, seen, levels, q, chain + [u]);
  }

  // ----- what a successful test has shown -----

  /** All steps from `m` stay in it, and are not stuck. */
  ghost predicate Closed(x: Snapshot, seen: set<nat>, levels: set<nat>, m: set<nat>)
    requires TrailOk(x.s.a)
  {
    forall v, u :: v in m && Next(x, seen, v, u) ==> u in m && !Stuck(x, levels, u)
  }

  lemma {:induction false} ChainInside(x: Snapshot, seen: set<nat>, levels: set<nat>, m: set<nat>, chain: seq<nat>, j: nat)
    requires TrailOk(x.s.a) && Closed(x, seen, levels, m) && Chain(x, seen, chain) && j < |chain| && chain[0] in m
    ensures chain[j] in m && (j > 0 ==> !Stuck(x, levels, chain[j]))
  {
    hide Next, Stuck;
    if j > 0 {
      ChainInside(x, seen, levels, m, chain, j - 1);
      assert Next(x, seen, chain[j - 1], chain[j]);
    }
  }

  lemma ClosedFree(x: Snapshot, seen: set<nat>, levels: set<nat>, m: set<nat>)
    requires TrailOk(x.s.a) && Closed(x, seen, levels, m)
    ensures forall v :: v in m ==> !Blocked(x, seen, levels, v)
  {
    hide Next, Stuck, Closed, Chain;
    forall v, chain: seq<nat> | v in m ensures !ChainStuck(x, seen, levels, v, chain) {
      if |chain| >= 2 && chain[0] == v && Chain(x, seen, chain) {
        ChainInside(x, seen, levels, m, chain, |chain| - 1);
      }
    }
  }

  /** Since the test began with the marks `s0` every new mark has turned out not to be blocked. */
  ghost predicate Settled(x: Snapshot, s0: set<nat>, s: set<nat>, levels: set<nat>)
    requires TrailOk(x.s.a)
  {
    s0 <= s && forall v :: v in s && v !in s0 ==> !Stuck(x, levels, v) && !Blocked(x, s0, levels, v)
  }

  /** A chain over unmarked variables does not meet the later marks. */
  lemma ChainAvoids(x: Snapshot, s0: set<nat>, s: set<nat>, levels: set<nat>, q: nat, chain: seq<nat>)
    requires TrailOk(x.s.a) && Settled(x, s0, s, levels) && ChainStuck(x, s0, levels, q, chain)
    ensures ChainStuck(x, s, levels, q, chain)
  {
    hide Stuck;
    forall j: nat | 0 < j < |chain| ensures chain[j] !in s {
      assert Next(x, s0, chain[j - 1], chain[j]);
      var rest := chain[j..];
      forall k: nat, l: nat | l == k + 1 && l < |rest| ensures Next(x, s0, rest[k], rest[l]) {
        assert Next(x, s0, chain[j + k], chain[j + l]);
      }
      assert |rest| >= 2 ==> ChainStuck(x, s0, levels, chain[j], rest);
      if |rest| == 1 {
        assert Stuck(x, levels, chain[j]);
      }
    }
    forall i: nat, j: nat | j == i + 1 && j < |chain| ensures Next(x, s, chain[i], chain[j]) {
      assert Next(x, s0, chain[i], chain[j]);
    }
  }

  /** The later marks do not change which variables are blocked. */
  lemma BlockedSame(x: Snapshot, s0: set<nat>, s: set<nat>, levels: set<nat>, q: nat)
    requires TrailOk(x.s.a) && Settled(x, s0, s, levels)
    ensures Blocked(x, s, levels, q) <==> Blocked(x, s0, levels, q)
  {
    hide Settled, Stuck;
    if Blocked(x, s0, levels, q) {
      var chain :| ChainStuck(x, s0, levels, q, chain);
      ChainAvoids(x, s0, s, levels, q, chain);
    }
    if Blocked(x, s, levels, q) {
      var chain :| ChainStuck(x, s, levels, q, chain);
      FewerMarks(x, s0, s, chain) by {
        assert s0 <= s by {
          SettledMore(x, s0, s, levels);
        }
      }
      assert ChainStuck(x, s0, levels, q, chain);
    }
  }

  lemma SettledMore(x: Snapshot, s0: set<nat>, s: set<nat>, levels: set<nat>)
    requires TrailOk(x.s.a) && Settled(x, s0, s, levels)
    ensures s0 <= s
  {}

  lemma FewerMarks(x: Snapshot, s0: set<nat>, s: set<nat>, chain: seq<nat>)
    requires TrailOk(x.s.a) && s0 <= s && Chain(x, s, chain)
    ensures Chain(x, s0, chain)
  {
    forall i: nat, j: nat | j == i + 1 && j < |chain| ensures Next(x, s0, chain[i], chain[j]) {
      assert Next(x, s, chain[i], chain[j]);
    }
  }

  /** The new marks of one successful test. */
  lemma SettledNext(x: Snapshot, s0: set<nat>, s: set<nat>, levels: set<nat>, s2: set<nat>)
    requires TrailOk(x.s.a) && Settled(x, s0, s, levels) && s <= s2
    requires forall v :: v in s2 && v !in s ==> !Stuck(x, levels, v) && !Blocked(x, s, levels, v)
    ensures Settled(x, s0, s2, levels)
  {
    hide Stuck, Blocked;
    forall v | v in s2 && v !in s0 ensures !Stuck(x, levels, v) && !Blocked(x, s0, levels, v) {
      BlockedSame(x, s0, s, levels, v);
    }
  }

  /** No mark made since `s0` is stuck or blocked. */
  ghost predicate NewFree(x: Snapshot, levels: set<nat>, s0: set<nat>, s: set<nat>)
    requires TrailOk(x.s.a)
  {
    forall v :: v in s && v !in s0 ==> !Stuck(x, levels, v) && !Blocked(x, s0, levels, v)
  }

  // ----- during one test -----

  /** From `q` chains lead to every literal still to be done; no mark is stuck. */
  ghost predicate Tracing(x: Snapshot, seen0: set<nat>, levels: set<nat>, q: nat, marks: seq<Lit>, todo: set<nat>)
    requires TrailOk(x.s.a)
  {
    && (forall v :: v in todo ==> Reaches(x, seen0, q, v))
    && (forall v :: v in VarSet(marks) ==> !Stuck(x, levels, v))
  }

  lemma TracingBegins(x: Snapshot, seen0: set<nat>, levels: set<nat>, q: Lit)
    requires TrailOk(x.s.a)
    ensures Tracing(x, seen0, levels, q.v, [], VarSet([q]))
  {
    hide Reaches, Stuck;
    ReachesSelf(x, seen0, q.v);
  }

  lemma TracingLess(x: Snapshot, seen0: set<nat>, levels: set<nat>, q: nat, marks: seq<Lit>, todo: set<nat>, todo2: set<nat>)
    requires TrailOk(x.s.a) && Tracing(x, seen0, levels, q, marks, todo) && todo2 <= todo
    ensures Tracing(x, seen0, levels, q, marks, todo2)
  {
    hide Reaches, Stuck;
  }

  lemma NextLit(x: Snapshot, seen0: set<nat>, v: nat, k: nat)
    requires TrailOk(x.s.a) && HasLiveReason(x, v) && 1 <= k < |x.s.ca[x.s.a.reason[v].cr].lits|
    requires x.s.ca[x.s.a.reason[v].cr].lits[k].v !in seen0 && IsHigh(x.s.a, x.s.ca[x.s.a.reason[v].cr].lits[k].v)
    ensures Next(x, seen0, v, x.s.ca[x.s.a.reason[v].cr].lits[k].v)
  {}

  /** One more literal of the reason of `v`: it is marked and goes on the stack. */
  lemma TracingMark(x: Snapshot, seen0: set<nat>, levels: set<nat>, q: nat, marks: seq<Lit>, stack: seq<Lit>, v: nat, k: nat)
    requires TrailOk(x.s.a) && Tracing(x, seen0, levels, q, marks, VarSet(stack) + {v}) && HasLiveReason(x, v)
    requires var lits := x.s.ca[x.s.a.reason[v].cr].lits;
             1 <= k < |lits| && lits[k].v !in seen0 && IsHigh(x.s.a, lits[k].v) && !Stuck(x, levels, lits[k].v)
    ensures var r := x.s.ca[x.s.a.reason[v].cr].lits[k]; Tracing(x, seen0, levels, q, marks + [r], VarSet(stack + [r]) + {v})
  {
    hide Reaches, Stuck, Next;
    var r := x.s.ca[x.s.a.reason[v].cr].lits[k];
    NextLit(x, seen0, v, k);
    ReachesNext(x, seen0, q, v, r.v);
    VarSetSnoc(marks, r);
    VarSetSnoc(stack, r);
  }

  /** Or the search is stuck there. */
  lemma TracingStuck(x: Snapshot, seen0: set<nat>, levels: set<nat>, q: nat, marks: seq<Lit>, stack: seq<Lit>, v: nat, k: nat)
    requires TrailOk(x.s.a) && Tracing(x, seen0, levels, q, marks, VarSet(stack) + {v}) && HasLiveReason(x, v)
    requires var lits := x.s.ca[x.s.a.reason[v].cr].lits;
             1 <= k < |lits| && lits[k].v !in seen0 && IsHigh(x.s.a, lits[k].v) && Stuck(x, levels, lits[k].v)
    ensures Blocked(x, seen0, levels, q)
  {
    hide Reaches, Stuck, Next, Blocked;
    NextLit(x, seen0, v, k);
    StuckBlocks(x, seen0, levels, q, v, x.s.ca[x.s.a.reason[v].cr].lits[k].v);
  }

  /** The stack is empty. */
  lemma TracingAll(x: Snapshot, seen0: set<nat>, levels: set<nat>, q: nat, marks: seq<Lit>)
    requires TrailOk(x.s.a) && Tracing(x, seen0, levels, q, marks, VarSet([]))
    ensures Tracing(x, seen0, levels, q, marks, {})
  {
    assert VarSet([]) == {};
  }

  /** The last literal of the stack is the one to be followed now. */
  lemma TracingPop(x: Snapshot, seen0: set<nat>, levels: set<nat>, q: nat, marks: seq<Lit>, stack: seq<Lit>)
    requires TrailOk(x.s.a) && Tracing(x, seen0, levels, q, marks, VarSet(stack)) && stack != []
    ensures Tracing(x, seen0, levels, q, marks, VarSet(stack[..|stack| - 1]) + {stack[|stack| - 1].v})
  {
    var stack2, r := stack[..|stack| - 1], stack[|stack| - 1];
    assert stack == stack2 + [r];
    VarSetSnoc(stack2, r);
  }

  /** The stack is empty: everything reached is explained, so nothing is blocked. */
  lemma TracingEnds(x: Snapshot, seen0: seq<bool>, seen: seq<bool>, levels: set<nat>, q: nat, marks: seq<Lit>, keep: set<nat>)
    requires Exploring(x, seen0, seen, marks, [], keep, {}) && Tracing(x, SeenSet(seen0), levels, q, marks, {})
    requires keep <= SeenSet(seen0) && q in SeenSet(seen0) && q !in keep
    ensures !Blocked(x, SeenSet(seen0), levels, q) && NewFree(x, levels, SeenSet(seen0), SeenSet(seen))
  {
    hide Stuck, Blocked, Live;
    var m := VarSet(marks) + {q};
    assert VarSet([]) + {} == {};
    forall v, u | v in m && Next(x, SeenSet(seen0), v, u) ensures u in m && !Stuck(x, levels, u) {
      assert v in SeenSet(seen) && v !in keep;
      assert Explained(x.s.a, x.s.ca, SeenSet(seen), v);
      assert u in SeenSet(seen);
    }
    ClosedFree(x, SeenSet(seen0), levels, m);
  }

  /** The start of one test. */
  lemma TestBegins(x: Snapshot, seen: seq<bool>, levels: set<nat>, q: Lit, keep: set<nat>, toClear: seq<Lit>)
    requires TrailOk(x.s.a) && |seen| == NumVars(x) && AllHigh(x.s.a, SeenSet(seen)) && StackOk(x, seen, q)
    requires Justified(x.s.a, x.s.ca, SeenSet(seen), keep + {q.v}, {})
    ensures Exploring(x, seen, seen, toClear[|toClear|..], [q], keep, {})
    ensures Tracing(x, SeenSet(seen), levels, q.v, toClear[|toClear|..], VarSet([q]))
  {
    assert toClear[|toClear|..] == [];
    ExploringBegins(x, seen, q, keep);
    TracingBegins(x, SeenSet(seen), levels, q);
  }

  /** The end of a successful one. */
  lemma TestPassed(x: Snapshot, seen0: seq<bool>, seen: seq<bool>, levels: set<nat>, q: Lit, keep: set<nat>, toClear0: seq<Lit>, toClear: seq<Lit>)
    requires toClear0 <= toClear && Exploring(x, seen0, seen, toClear[|toClear0|..], [], keep, {})
    requires Tracing(x, SeenSet(seen0), levels, q.v, toClear[|toClear0|..], {})
    requires keep <= SeenSet(seen0) <= VarSet(toClear0) && StackOk(x, seen0, q) && q.v !in keep
    ensures !Blocked(x, SeenSet(seen0), levels, q.v) && NewFree(x, levels, SeenSet(seen0), SeenSet(seen))
    ensures SeenSet(seen0) <= SeenSet(seen) <= VarSet(toClear) && AllHigh(x.s.a, SeenSet(seen))
    ensures Justified(x.s.a, x.s.ca, SeenSet(seen), keep, {})
  {
    hide Blocked, NewFree, AllHigh, Justified, Tracing, Live;
    assert toClear == toClear0 + toClear[|toClear0|..];
    ExploringEnds(x, seen0, seen, toClear[|toClear0|..], keep, toClear0);
    TracingEnds(x, seen0, seen, levels, q.v, toClear[|toClear0|..], keep);
  }

  // ----- the literals that stay -----

  /** The levels of the clause modulo 32. */
  ghost function Residues(x: Snapshot, out: seq<Lit>): set<nat>
    requires TrailOk(x.s.a)
  {
    set k | 0 <= k < |out| && out[k].v < NumVars(x) :: x.s.a.level[out[k].v] % 32
  }

  /** The literal of variable `v` stays: in mode 2 its chains are blocked, in mode 1 its reason has an unmarked literal. */
  ghost predicate Stays(x: Snapshot, mode: int, out: seq<Lit>, v: nat)
    requires TrailOk(x.s.a)
  {
    (mode == 1 || mode == 2) && v < NumVars(x) && x.s.a.reason[v].Ref? ==>
    if mode == 2 then Blocked(x, VarSet(out), Residues(x, out), v) else exists u :: Next(x, VarSet(out), v, u)
  }

  /** The first `i` literals of the clause but for those that are dropped. */
  ghost function Staying(x: Snapshot, mode: int, out: seq<Lit>, i: nat): seq<Lit>
    requires TrailOk(x.s.a) && i <= |out|
  {
    if i == 0 then [] else Staying(x, mode, out, i - 1) + if Stays(x, mode, out, out[i - 1].v) then [out[i - 1]] else []
  }

  /** The first `i` literals have been tested. */
  ghost predicate Sifted(x: Snapshot, mode: int, out: seq<Lit>, i: nat, kept: seq<Lit>)
    requires TrailOk(x.s.a)
  {
    i <= |out| && kept == Staying(x, mode, out, i)
  }

  lemma SiftedBegins(x: Snapshot, mode: int, out: seq<Lit>)
    requires TrailOk(x.s.a)
    ensures Sifted(x, mode, out, 0, [])
  {}

  lemma SiftedNext(x: Snapshot, mode: int, out: seq<Lit>, i: nat, kept: seq<Lit>, kept2: seq<Lit>)
    requires TrailOk(x.s.a) && i < |out| && Sifted(x, mode, out, i, kept)
    requires kept2 == if Stays(x, mode, out, out[i].v) then kept + [out[i]] else kept
    ensures Sifted(x, mode, out, i + 1, kept2)
  {}

  lemma {:induction false} StayingMember(x: Snapshot, mode: int, out: seq<Lit>, i: nat)
    requires TrailOk(x.s.a) && i <= |out|
    ensures forall q :: q in Staying(x, mode, out, i) <==> q in out[..i] && Stays(x, mode, out, q.v)
  {
    hide Stays;
    if i > 0 {
      StayingMember(x, mode, out, i - 1);
      assert out[..i] == out[..i - 1] + [out[i - 1]];
    }
  }

  /** In other modes nothing is dropped. */
  lemma {:induction false} AllStay(x: Snapshot, mode: int, out: seq<Lit>, i: nat)
    requires TrailOk(x.s.a) && i <= |out| && mode != 1 && mode != 2
    ensures Sifted(x, mode, out, i, out[..i])
  {
    if i > 0 {
      AllStay(x, mode, out, i - 1);
      assert out[..i] == out[..i - 1] + [out[i - 1]];
    }
  }

  /** The marks the tests of each mode work with. */
  ghost predicate Testing(x: Snapshot, mode: int, out: seq<Lit>, seen: set<nat>)
    requires TrailOk(x.s.a)
  {
    if mode == 2 then Settled(x, VarSet(out), seen, Residues(x, out)) else seen == VarSet(out)
  }

  lemma TestingBegins(x: Snapshot, mode: int, out: seq<Lit>)
    requires TrailOk(x.s.a)
    ensures Testing(x, mode, out, VarSet(out))
  {
    hide Stuck, Blocked;
  }

  lemma DeepTest(x: Snapshot, out: seq<Lit>, seen: set<nat>, v: nat, r: bool, seen2: set<nat>)
    requires TrailOk(x.s.a) && Testing(x, 2, out, seen) && v < NumVars(x) && x.s.a.reason[v].Ref?
    requires r <==> !Blocked(x, seen, Residues(x, out), v)
    requires if r then seen <= seen2 else seen2 == seen
    requires r ==> NewFree(x, Residues(x, out), seen, seen2)
    ensures Testing(x, 2, out, seen2) && (r <==> !Stays(x, 2, out, v))
  {
    hide Stuck, Blocked, Settled;
    BlockedSame(x, VarSet(out), seen, Residues(x, out), v);
    if r {
      SettledNext(x, VarSet(out), seen, Residues(x, out), seen2);
    }
  }

  lemma SimpleTestIs(x: Snapshot, out: seq<Lit>, seen: set<nat>, v: nat, r: bool)
    requires TrailOk(x.s.a) && Testing(x, 1, out, seen) && v < NumVars(x) && HasLiveReason(x, v)
    requires var lits := x.s.ca[x.s.a.reason[v].cr].lits; r <==> High(x.s.a, lits, 1, |lits|) <= seen
    ensures r <==> !Stays(x, 1, out, v)
  {
    var lits := x.s.ca[x.s.a.reason[v].cr].lits;
    if !r {
      var u :| u in High(x.s.a, lits, 1, |lits|) && u !in VarSet(out);
      assert Next(x, VarSet(out), v, u);
    }
  }

  lemma DecisionStays(x: Snapshot, mode: int, out: seq<Lit>, v: nat)
    requires TrailOk(x.s.a) && v < NumVars(x) && x.s.a.reason[v].NoRef?
    ensures Stays(x, mode, out, v)
  {}

  // ----- the finished clause -----

  /** ~p and the kept literals, the first of the highest level among them exchanged with the one at index 1. */
  ghost predicate SecondHighest(a: Asg, p: Lit, kept: seq<Lit>, learnt: seq<Lit>)
    requires |a.level| == |a.assigns|
  {
    && |learnt| == |kept| + 1 && learnt[0] == Not(p) && (kept == [] || exists m: nat :: Exchanged(a, kept, learnt, m))
  }

  ghost predicate Exchanged(a: Asg, kept: seq<Lit>, learnt: seq<Lit>, m: nat)
    requires |a.level| == |a.assigns|
  {
    && m < |kept| == |learnt| - 1 && (forall k :: 0 <= k < |kept| ==> kept[k].v < |a.level|)
    && (forall k :: 0 <= k < |kept| ==> a.level[kept[k].v] <= a.level[kept[m].v] && (k < m ==> a.level[kept[k].v] < a.level[kept[m].v]))
    && learnt[1] == kept[m] && learnt[m + 1] == kept[0]
    && forall k :: 1 <= k < |kept| && k != m ==> learnt[k + 1] == kept[k]
  }

  /** The clause learnt from a conflict: the first unique implication point, what was found of lower
      levels but for the literals dropped, and the highest of these second. */
  ghost predicate LearntFrom(x: Snapshot, confl: nat, mode: int, uip: nat, learnt: seq<Lit>)
    requires TrailOk(x.s.a) && confl < |x.s.ca|
  {
    && FirstUipAt(x, confl, uip)
    && var out := Lower(x.s.a, Found(x, confl, uip));
       SecondHighest(x.s.a, x.s.a.trail[uip], Staying(x, mode, out, |out|), learnt)
  }

  lemma LearntFromUip(x: Snapshot, confl: nat, mode: int, uip: nat, out: seq<Lit>, kept: seq<Lit>, learnt: seq<Lit>)
    requires TrailOk(x.s.a) && confl < |x.s.ca| && FirstUipAt(x, confl, uip) && out == Lower(x.s.a, Found(x, confl, uip))
    requires Sifted(x, mode, out, |out|, kept) && SecondHighest(x.s.a, x.s.a.trail[uip], kept, learnt)
    ensures LearntFrom(x, confl, mode, uip, learnt)
  {}

  lemma OnlyUip(a: Asg, p: Lit)
    requires |a.level| == |a.assigns|
    ensures SecondHighest(a, p, [], [Not(p)])
  {}

  lemma SecondIsHighest(a: Asg, p: Lit, kept: seq<Lit>, m: nat)
    requires |a.level| == |a.assigns| && m < |kept| && forall k :: 0 <= k < |kept| ==> kept[k].v < |a.level|
    requires forall k :: 0 <= k < |kept| ==> a.level[kept[k].v] <= a.level[kept[m].v] && (k < m ==> a.level[kept[k].v] < a.level[kept[m].v])
    ensures SecondHighest(a, p, kept, HighestSecond([Not(p)] + kept, m + 1))
  {
    var lits, learnt := [Not(p)] + kept, HighestSecond([Not(p)] + kept, m + 1);
    assert lits[m + 1] == kept[m] && lits[1] == kept[0];
    forall k | 1 <= k < |kept| && k != m ensures learnt[k + 1] == kept[k] {
      assert lits[k + 1] == kept[k];
    }
    assert Exchanged(a, kept, learnt, m);
  }
}
