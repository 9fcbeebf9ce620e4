/** schedulePI, reordPO and checkPerm (timeMux2/reord.cpp): inputs are ordered by the frame that
    first needs them, and every later reordering keeps the schedule causal. */
module ReordPins {
  import opened FiniteSets
  import opened Frames
  import opened Reord

  // ----- permutations -----

  predicate Fits(perm: seq<int>, cap: nat) {
    && (forall i :: 0 <= i < |perm| ==> 0 <= perm[i] < cap)
    && (forall i, j :: 0 <= i < j < |perm| ==> perm[i] != perm[j])
  }

  /** True exactly if all values are in range and none is repeated. */
  method CheckPerm(perm: array<int>, cap: nat) returns (r: bool)
    ensures r <==> Fits(perm[..], cap)
  {
    var sv: set<int> := {};
    for i := 0 to perm.Length
      invariant Fits(perm[..i], cap) && forall x :: x in sv <==> x in perm[..i]
    {
      assert perm[..i + 1] == perm[..i] + [perm[i]];
      if perm[i] < 0 || perm[i] >= cap || perm[i] in sv {
        if perm[i] in sv {
          assert perm[i] in perm[..i];
        }
        assert perm[..][i] == perm[i];
        return false;
      }
      sv := sv + {perm[i]};
    }
    assert perm[..perm.Length] == perm[..];
    r := true;
  }

  ghost function Elements(s: seq<int>): set<int> {
    set i | 0 <= i < |s| :: s[i]
  }

  lemma {:induction false} ElementsCount(s: seq<int>)
    requires forall i, j :: 0 <= i < j < |s| ==> s[i] != s[j]
    ensures |Elements(s)| == |s|
  {
    if s != [] {
      var front, last := s[..|s| - 1], s[|s| - 1];
      ElementsCount(front);
      assert s == front + [last];
      ElementsSnoc(front, last);
      assert last !in Elements(front);
    }
  }

  lemma ElementsSnoc(s: seq<int>, x: int)
    ensures Elements(s + [x]) == Elements(s) + {x}
  {
    var s2 := s + [x];
    assert s2[|s|] == x;
    forall y | y in Elements(s) ensures y in Elements(s2) {
      var i :| 0 <= i < |s| && s[i] == y;
      assert s2[i] == y;
    }
  }

  /** A permutation hits every input. */
  lemma EveryInput(inv: seq<int>, n: nat)
    requires Fits(inv, n) && |inv| == n
    ensures forall j: nat :: j < n ==> j in inv
  {
    ElementsCount(inv);
    assert Elements(inv) <= IntsBelow(n);
    assert IntsBelow(n) == Elements(inv) + (IntsBelow(n) - Elements(inv));
    forall j: nat | j < n ensures j in inv {
      assert j in IntsBelow(n);
    }
  }

  ghost function IntsBelow(n: nat): (s: set<int>)
    ensures |s| == n && forall x :: x in s <==> 0 <= x < n
  {
    if n == 0 then {} else IntsBelow(n - 1) + {n - 1}
  }

  // ----- the order of the inputs -----

  /** The inputs needed by the end of frame `t`. */
  ghost function NeededBy(p: Problem, nPo: nat, slots: seq<int>, t: nat): set<nat>
    requires GoodSlots(p, nPo, slots) && t <= p.T
  {
    CellMonotone(t, p.T, nPo);
    Needed(p.sup, slots, Cell(t, nPo))
  }

  /** For every frame the inputs it needs stand first, as a group. */
  ghost predicate Grouped(p: Problem, nPo: nat, slots: seq<int>, inv: seq<int>)
    requires GoodSlots(p, nPo, slots)
  {
    forall t: nat :: t <= p.T ==> PrefixIs(inv, NeededBy(p, nPo, slots, t))
  }

  ghost predicate PrefixIs(inv: seq<int>, vars: set<nat>) {
    |vars| <= |inv| && forall x: nat :: x in vars <==> x in inv[..|vars|]
  }

  /** An output in frame t depends only on inputs at positions below (t + 1) * nPi. */
  ghost predicate Causal(p: Problem, nPo: nat, slots: seq<int>, inv: seq<int>)
    requires GoodSlots(p, nPo, slots)
  {
    forall t: nat, s: nat :: t < p.T && InFrame(t, nPo, s) && s < |slots| && slots[s] != -1 ==> ReadBefore(p.sup[slots[s]], inv, Cell(t, p.nPi) + p.nPi)
  }

  ghost predicate ReadBefore(vars: set<nat>, inv: seq<int>, bound: nat) {
    forall j :: j in vars ==> exists q :: 0 <= q < |inv| && q < bound && inv[q] == j
  }

  /** Grouped inputs and an in-time schedule make a causal circuit. */
  lemma GroupedIsCausal(p: Problem, nPo: nat, slots: seq<int>, inv: seq<int>)
    requires GoodSlots(p, nPo, slots) && InTime(p, nPo, slots) && Grouped(p, nPo, slots, inv)
    ensures Causal(p, nPo, slots, inv)
  {
    hide ReadBefore, Needed, PrefixIs;
    forall t: nat, s: nat | t < p.T && InFrame(t, nPo, s) && s < |slots| && slots[s] != -1
      ensures ReadBefore(p.sup[slots[s]], inv, Cell(t, p.nPi) + p.nPi)
    {
      var t1 := t + 1;
      CellMonotone(t1, p.T, nPo);
      NeededMember(p.sup, slots, Cell(t1, nPo), s);
      assert FrameInTime(p, nPo, slots, t);
      assert PrefixIs(inv, NeededBy(p, nPo, slots, t1));
      PrefixRead(inv, NeededBy(p, nPo, slots, t1), p.sup[slots[s]], Cell(t, p.nPi) + p.nPi);
    }
  }

  lemma PrefixRead(inv: seq<int>, vars: set<nat>, sup: set<nat>, bound: nat)
    requires PrefixIs(inv, vars) && sup <= vars && |vars| <= bound
    ensures ReadBefore(sup, inv, bound)
  {
    forall j | j in sup ensures exists q :: 0 <= q < |inv| && q < bound && inv[q] == j {
      assert j in inv[..|vars|];
      var q :| 0 <= q < |vars| && inv[q] == j;
    }
  }

  /** The inputs at positions lo to hi - 1 stand in increasing order. */
  ghost predicate RangeSorted(inv: seq<int>, lo: nat, hi: nat) {
    hi <= |inv| && forall a, b :: lo <= a < b < hi ==> inv[a] < inv[b]
  }

  lemma RangeKept(inv: seq<int>, inv2: seq<int>, pos: nat, lo: nat, hi: nat)
    requires RangeSorted(inv, lo, hi) && hi <= pos <= |inv| == |inv2| && inv2[..pos] == inv[..pos]
    ensures RangeSorted(inv2, lo, hi)
  {
    forall a | 0 <= a < hi ensures inv2[a] == inv[a] {
      assert inv2[..pos][a] == inv[..pos][a];
    }
  }

  /** The inputs that frame `u` needs first stand in increasing order. */
  ghost predicate GroupAscending(p: Problem, nPo: nat, slots: seq<int>, inv: seq<int>, u: nat)
    requires GoodSlots(p, nPo, slots) && u < p.T
  {
    RangeSorted(inv, |NeededBy(p, nPo, slots, u)|, |NeededBy(p, nPo, slots, u + 1)|)
  }

  /** The groups one after the other, each in increasing order, as are the unneeded inputs at the end. */
  ghost predicate Ascending(p: Problem, nPo: nat, slots: seq<int>, inv: seq<int>)
    requires GoodSlots(p, nPo, slots)
  {
    && Grouped(p, nPo, slots, inv) && (forall u: nat :: u < p.T ==> GroupAscending(p, nPo, slots, inv, u))
    && RangeSorted(inv, |NeededBy(p, nPo, slots, p.T)|, |inv|)
  }

  // ----- schedulePI -----

  /** Inputs emitted so far: exactly `vars`, each once. */
  ghost predicate Emitted(iPerm: seq<int>, pos: nat, vars: set<nat>) {
    && pos <= |iPerm| && pos == |vars|
    && (forall i, j :: 0 <= i < j < pos ==> iPerm[i] != iPerm[j])
    && (forall i :: 0 <= i < pos ==> iPerm[i] >= 0 && iPerm[i] in vars)
    && (forall x: nat :: x in vars ==> x in iPerm[..pos])
  }

  lemma EmitOne(iPerm: seq<int>, pos: nat, vars: set<nat>, x: nat)
    requires Emitted(iPerm, pos, vars) && x !in vars && pos < |iPerm|
    ensures Emitted(iPerm[pos := x], pos + 1, vars + {x})
  {
    var iPerm2 := iPerm[pos := x];
    assert iPerm2[..pos + 1] == iPerm[..pos] + [x];
  }

  /** The inputs of one frame's outputs. */
  method FrameSupport(p: Problem, nPo: nat, slots: array<int>, t: nat) returns (sv2: set<nat>)
    requires GoodSlots(p, nPo, slots[..]) && t < p.T
    ensures NeededBy(p, nPo, slots[..], t + 1) == NeededBy(p, nPo, slots[..], t) + sv2
  {
    CellMonotone(t + 1, p.T, nPo);
    sv2 := {};
    for i := 0 to nPo
      invariant Cell(t, nPo) + i <= slots.Length
      invariant Needed(p.sup, slots[..], Cell(t, nPo) + i) == NeededBy(p, nPo, slots[..], t) + sv2
    {
      var s := Cell(t, nPo) + i;
      assert slots[..][s] == slots[s];
      if slots[s] != -1 {
        sv2 := sv2 + p.sup[slots[s]];
      }
    }
  }

  lemma VarsBelowCount(vars: set<nat>, x: nat, n: nat)
    requires (forall v :: v in vars ==> v < n) && x < n && x !in vars
    ensures |vars| < n
  {
    assert vars <= Below(n) - {x};
    SubsetSize(vars, Below(n) - {x});
  }

  /** Appends the inputs of `news` in increasing order. */
  method EmitInputs(nCi: nat, iPerm: array<int>, pos0: nat, ghost vars: set<nat>, news: set<nat>) returns (pos: nat)
    requires iPerm.Length == nCi && pos0 <= nCi && Emitted(iPerm[..], pos0, vars) && news !! vars
    requires (forall v :: v in vars ==> v < nCi) && (forall v :: v in news ==> v < nCi)
    modifies iPerm
    ensures Emitted(iPerm[..], pos, vars + news) && pos0 <= pos && pos0 <= iPerm.Length && iPerm[..pos0] == old(iPerm[..pos0])
    ensures RangeSorted(iPerm[..], pos0, pos)
  {
    hide Emitted;
    pos := pos0;
    ghost var allVars := vars;
    for i := 0 to nCi
      invariant vars <= allVars <= vars + news && forall v :: v in news ==> (v in allVars <==> v < i)
      invariant pos0 <= pos <= iPerm.Length && Emitted(iPerm[..], pos, allVars)
      invariant iPerm[..pos0] == old(iPerm[..pos0])
      invariant RangeSorted(iPerm[..], pos0, pos) && forall a :: pos0 <= a < pos ==> iPerm[a] < i
    {
      if i in news {
        EmitInput(nCi, iPerm, pos0, pos, allVars, i);
        pos := pos + 1;
        allVars := allVars + {i};
      }
    }
    assert allVars == vars + news;
  }

  lemma EmittedPrefix(iPerm: seq<int>, pos: nat, vars: set<nat>)
    requires Emitted(iPerm, pos, vars)
    ensures PrefixIs(iPerm, vars) && pos == |vars| <= |iPerm|
  {}

  method EmitInput(nCi: nat, iPerm: array<int>, ghost pos0: nat, pos: nat, ghost vars: set<nat>, i: nat)
    requires iPerm.Length == nCi && pos0 <= pos <= nCi && Emitted(iPerm[..], pos, vars) && i !in vars && i < nCi
    requires forall v :: v in vars ==> v < nCi
    modifies iPerm
    ensures pos < iPerm.Length && Emitted(iPerm[..], pos + 1, vars + {i}) && iPerm[..pos0] == old(iPerm[..pos0])
    ensures iPerm[..] == old(iPerm[..])[pos := i]
  {
    VarsBelowCount(vars, i, nCi);
    EmitOne(iPerm[..], pos, vars, i);
    ghost var before := iPerm[..];
    iPerm[pos] := i;
    assert iPerm[..] == before[pos := i];
    assert iPerm[..pos0] == before[..pos0];
  }

  /** What the loop over the frames has done: the groups up to frame `t` stand first. */
  ghost predicate GroupsDone(p: Problem, nPo: nat, slots: seq<int>, iPerm: seq<int>, pos: nat, t: nat)
    requires GoodSlots(p, nPo, slots)
  {
    && t <= p.T && Emitted(iPerm, pos, NeededBy(p, nPo, slots, t))
    && (forall u: nat :: u <= t ==> PrefixIs(iPerm, NeededBy(p, nPo, slots, u)) && |NeededBy(p, nPo, slots, u)| <= pos)
    && (forall u: nat :: u < t ==> GroupAscending(p, nPo, slots, iPerm, u))
  }

  lemma GroupsNext(p: Problem, nPo: nat, slots: seq<int>, iPerm: seq<int>, pos: nat, t: nat, iPerm2: seq<int>, pos2: nat)
    requires GoodSlots(p, nPo, slots) && t < p.T && GroupsDone(p, nPo, slots, iPerm, pos, t)
    requires pos <= |iPerm2| == |iPerm| && pos <= pos2 && iPerm2[..pos] == iPerm[..pos]
    requires Emitted(iPerm2, pos2, NeededBy(p, nPo, slots, t + 1)) && RangeSorted(iPerm2, pos, pos2)
    ensures GroupsDone(p, nPo, slots, iPerm2, pos2, t + 1)
  {
    hide Emitted, PrefixIs, NeededBy, RangeSorted;
    EmittedPrefix(iPerm, pos, NeededBy(p, nPo, slots, t));
    EmittedPrefix(iPerm2, pos2, NeededBy(p, nPo, slots, t + 1));
    var t1 := t + 1;
    forall u: nat | u <= t1
      ensures PrefixIs(iPerm2, NeededBy(p, nPo, slots, u)) && |NeededBy(p, nPo, slots, u)| <= pos2
    {
      if u <= t {
        PrefixKept(iPerm, iPerm2, pos, NeededBy(p, nPo, slots, u));
      }
    }
    GroupsKept(p, nPo, slots, iPerm, pos, t, iPerm2);
    assert GroupAscending(p, nPo, slots, iPerm2, t);
  }

  /** Groups that stand before `pos` stay in order. */
  lemma GroupsKept(p: Problem, nPo: nat, slots: seq<int>, iPerm: seq<int>, pos: nat, t: nat, iPerm2: seq<int>)
    requires GoodSlots(p, nPo, slots) && GroupsDone(p, nPo, slots, iPerm, pos, t)
    requires pos <= |iPerm2| == |iPerm| && iPerm2[..pos] == iPerm[..pos]
    ensures forall u: nat :: u < t ==> GroupAscending(p, nPo, slots, iPerm2, u)
  {
    hide Emitted, PrefixIs, NeededBy, RangeSorted;
    forall u: nat | u < t ensures GroupAscending(p, nPo, slots, iPerm2, u) {
      var u1 := u + 1;
      assert GroupAscending(p, nPo, slots, iPerm, u) && |NeededBy(p, nPo, slots, u1)| <= pos;
      RangeKept(iPerm, iPerm2, pos, |NeededBy(p, nPo, slots, u)|, |NeededBy(p, nPo, slots, u1)|);
    }
  }

  lemma GroupsEmitted(p: Problem, nPo: nat, slots: seq<int>, iPerm: seq<int>, pos: nat, t: nat)
    requires GoodSlots(p, nPo, slots) && t <= p.T && GroupsDone(p, nPo, slots, iPerm, pos, t)
    ensures Emitted(iPerm, pos, NeededBy(p, nPo, slots, t)) && pos == |NeededBy(p, nPo, slots, t)| <= |iPerm|
  {}

  lemma GroupsBegin(p: Problem, nPo: nat, slots: seq<int>, iPerm: seq<int>)
    requires GoodSlots(p, nPo, slots)
    ensures GroupsDone(p, nPo, slots, iPerm, 0, 0)
  {}

  lemma PrefixKept(iPerm: seq<int>, iPerm2: seq<int>, pos: nat, vars: set<nat>)
    requires PrefixIs(iPerm, vars) && |vars| <= pos <= |iPerm| == |iPerm2| && iPerm2[..pos] == iPerm[..pos]
    ensures PrefixIs(iPerm2, vars)
  {
    assert iPerm2[..|vars|] == iPerm2[..pos][..|vars|] == iPerm[..|vars|];
  }

  /** The sizes of the groups of the first `t` frames. */
  ghost predicate GroupSizes(p: Problem, nPo: nat, slots: seq<int>, sNums: seq<nat>, t: nat)
    requires GoodSlots(p, nPo, slots)
  {
    t == |sNums| <= p.T &&
    forall u :: 0 <= u < t ==> sNums[u] == |NeededBy(p, nPo, slots, u + 1)| - |NeededBy(p, nPo, slots, u)|
  }

  lemma GroupSizesNext(p: Problem, nPo: nat, slots: seq<int>, sNums: seq<nat>, t: nat, size: nat)
    requires GoodSlots(p, nPo, slots) && t < p.T && GroupSizes(p, nPo, slots, sNums, t)
    requires size == |NeededBy(p, nPo, slots, t + 1)| - |NeededBy(p, nPo, slots, t)|
    ensures GroupSizes(p, nPo, slots, sNums + [size], t + 1)
  {
    hide NeededBy;
  }

  /** The inputs in the order of the frames that need them first, the unneeded ones last. */
  method SchedulePI(p: Problem, nPo: nat, slots: array<int>, iPerm: array<int>) returns (sNums: seq<nat>)
    requires GoodProblem(p) && GoodSlots(p, nPo, slots[..]) && iPerm.Length == p.nCi && iPerm != slots
    modifies iPerm
    ensures Fits(iPerm[..], p.nCi) && Ascending(p, nPo, slots[..], iPerm[..])
    ensures GroupSizes(p, nPo, slots[..], sNums, p.T)
  {
    var pos: nat := 0;
    sNums := [];
    var sv1: set<nat> := {};
    ghost var sl := slots[..];
    assert NeededBy(p, nPo, sl, 0) == {};
    GroupsBegin(p, nPo, sl, iPerm[..]);
    assert GroupSizes(p, nPo, sl, sNums, 0);
    hide GroupsDone, NeededBy, GoodProblem, GroupSizes;
    for t := 0 to p.T
      invariant slots[..] == sl && sv1 == NeededBy(p, nPo, sl, t)
      invariant GroupsDone(p, nPo, sl, iPerm[..], pos, t)
      invariant GroupSizes(p, nPo, sl, sNums, t)
    {
      var ppos := pos;
      GroupsEmitted(p, nPo, sl, iPerm[..], pos, t);
      pos, sv1 := EmitFrame(p, nPo, slots, iPerm, t, pos, sv1);
      GroupsEmitted(p, nPo, sl, iPerm[..], pos, t + 1);
      GroupSizesNext(p, nPo, sl, sNums, t, pos - ppos);
      sNums := sNums + [pos - ppos];
    }
    EmitDummies(p, nPo, slots, iPerm, pos, sv1);
  }

  /** The inputs that frame `t` needs first. */
  method EmitFrame(p: Problem, nPo: nat, slots: array<int>, iPerm: array<int>, t: nat, pos0: nat, sv0: set<nat>) returns (pos: nat, sv1: set<nat>)
    requires GoodProblem(p) && GoodSlots(p, nPo, slots[..]) && iPerm.Length == p.nCi && iPerm != slots && t < p.T
    requires GroupsDone(p, nPo, slots[..], iPerm[..], pos0, t) && sv0 == NeededBy(p, nPo, slots[..], t)
    modifies iPerm
    ensures GroupsDone(p, nPo, slots[..], iPerm[..], pos, t + 1) && sv1 == NeededBy(p, nPo, slots[..], t + 1)
    ensures pos0 <= pos
  {
    hide Emitted, GroupsDone, NeededBy, RangeSorted;
    GroupsEmitted(p, nPo, slots[..], iPerm[..], pos0, t);
    ghost var before := iPerm[..];
    var sv2 := FrameSupport(p, nPo, slots, t);
    sv1 := sv0 + sv2;
    var sv3 := sv1 - sv0;
    NeededByInside(p, nPo, slots[..], t);
    NeededByInside(p, nPo, slots[..], t + 1);
    pos := EmitInputs(p.nCi, iPerm, pos0, sv0, sv3);
    assert sv0 + sv3 == sv1;
    GroupsNext(p, nPo, slots[..], before, pos0, t, iPerm[..], pos);
  }

  lemma NeededByInside(p: Problem, nPo: nat, slots: seq<int>, t: nat)
    requires GoodProblem(p) && GoodSlots(p, nPo, slots) && t <= p.T
    ensures forall v :: v in NeededBy(p, nPo, slots, t) ==> v < p.nCi
  {
    CellMonotone(t, p.T, nPo);
    NeededInside(p.sup, slots, Cell(t, nPo), p.nCi);
  }

  /** Inputs that no output needs come last. */
  method EmitDummies(p: Problem, nPo: nat, slots: array<int>, iPerm: array<int>, pos0: nat, sv1: set<nat>)
    requires GoodProblem(p) && GoodSlots(p, nPo, slots[..]) && iPerm.Length == p.nCi && iPerm != slots
    requires GroupsDone(p, nPo, slots[..], iPerm[..], pos0, p.T) && sv1 == NeededBy(p, nPo, slots[..], p.T)
    modifies iPerm
    ensures Fits(iPerm[..], p.nCi) && Ascending(p, nPo, slots[..], iPerm[..])
  {
    hide Emitted, GroupsDone, NeededBy, Grouped, Fits, GoodProblem, RangeSorted, GroupAscending;
    GroupsEmitted(p, nPo, slots[..], iPerm[..], pos0, p.T);
    ghost var before := iPerm[..];
    NeededByInside(p, nPo, slots[..], p.T);
    EmitRest(p.nCi, iPerm, pos0, sv1);
    DummiesLast(p, nPo, slots[..], before, pos0, iPerm[..]);
    GroupsKept(p, nPo, slots[..], before, pos0, p.T, iPerm[..]);
  }

  method EmitRest(nCi: nat, iPerm: array<int>, pos0: nat, sv1: set<nat>)
    requires iPerm.Length == nCi && pos0 <= nCi && Emitted(iPerm[..], pos0, sv1) && forall v :: v in sv1 ==> v < nCi
    modifies iPerm
    ensures Fits(iPerm[..], nCi) && iPerm[..pos0] == old(iPerm[..pos0]) && RangeSorted(iPerm[..], pos0, nCi)
  {
    hide Fits, Emitted;
    ghost var allVars := sv1;
    var pos := pos0;
    if pos0 != nCi {
      var dummies := set i: nat | i < nCi && i !in sv1;
      pos := EmitInputs(nCi, iPerm, pos0, sv1, dummies);
      allVars := sv1 + dummies;
    } else {
      EmittedPrefix(iPerm[..], pos0, sv1);
      FullSet(sv1, nCi);
    }
    AllEmitted(iPerm[..], pos, allVars, nCi);
  }

  lemma FullSet(vars: set<nat>, n: nat)
    requires (forall v :: v in vars ==> v < n) && |vars| == n
    ensures vars == Below(n)
  {
    SubsetSize(vars, Below(n));
  }

  /** When every input has been emitted the array is a permutation. */
  lemma AllEmitted(iPerm: seq<int>, pos: nat, vars: set<nat>, nCi: nat)
    requires Emitted(iPerm, pos, vars) && |iPerm| == nCi && forall v: nat :: v in vars <==> v < nCi
    ensures pos == nCi && Fits(iPerm, nCi)
  {
    assert vars == Below(nCi);
  }

  lemma DummiesLast(p: Problem, nPo: nat, slots: seq<int>, iPerm: seq<int>, pos: nat, iPerm2: seq<int>)
    requires GoodSlots(p, nPo, slots) && GroupsDone(p, nPo, slots, iPerm, pos, p.T)
    requires pos <= |iPerm2| == |iPerm| && iPerm2[..pos] == iPerm[..pos]
    ensures Grouped(p, nPo, slots, iPerm2)
  {
    forall t: nat | t <= p.T ensures PrefixIs(iPerm2, NeededBy(p, nPo, slots, t)) {
      PrefixKept(iPerm, iPerm2, pos, NeededBy(p, nPo, slots, t));
    }
  }

  // ----- reordering the inputs within their groups -----

  /** Another order of the inputs, different at most on `sz` levels from `pos` on. */
  ghost predicate ReordersRange(inv: seq<int>, inv2: seq<int>, pos: nat, sz: nat)
    requires pos + sz <= |inv|
  {
    |inv2| == |inv| && Fits(inv2, |inv2|) && inv2[..pos] == inv[..pos] && inv2[pos + sz..] == inv[pos + sz..]
  }

  /** What bddReordRange promises; which of the orders it finds is up to the BDD package. */
  ghost predicate Reorders(reordRange: (seq<int>, nat, nat) -> seq<int>) {
    forall inv, pos: nat, sz: nat :: Fits(inv, |inv|) && pos + sz <= |inv| ==> ReordersRange(inv, reordRange(inv, pos, sz), pos, sz)
  }

  ghost predicate SamePrefix(inv: seq<int>, inv2: seq<int>, k: nat) {
    k <= |inv| == |inv2| && forall x :: x in inv2[..k] <==> x in inv[..k]
  }

  /** The inputs of every group are the same in both orders. */
  ghost predicate SameGroups(p: Problem, nPo: nat, slots: seq<int>, inv: seq<int>, inv2: seq<int>)
    requires GoodSlots(p, nPo, slots)
  {
    forall t: nat :: t <= p.T ==> SamePrefix(inv, inv2, |NeededBy(p, nPo, slots, t)|)
  }

  /** Reordering inputs within the groups keeps the circuit causal. */
  lemma RangeReordering(p: Problem, nPo: nat, slots: seq<int>, inv: seq<int>, inv2: seq<int>)
    requires GoodSlots(p, nPo, slots) && InTime(p, nPo, slots) && Grouped(p, nPo, slots, inv) && SameGroups(p, nPo, slots, inv, inv2)
    ensures Grouped(p, nPo, slots, inv2) && Causal(p, nPo, slots, inv2)
  {
    hide NeededBy, Causal;
    forall t: nat | t <= p.T ensures PrefixIs(inv2, NeededBy(p, nPo, slots, t)) {
      assert PrefixIs(inv, NeededBy(p, nPo, slots, t));
      assert SamePrefix(inv, inv2, |NeededBy(p, nPo, slots, t)|);
    }
    GroupedIsCausal(p, nPo, slots, inv2);
  }

  /** Two orders that agree from level `k` on have the same inputs before it. */
  lemma SuffixDecides(inv: seq<int>, inv2: seq<int>, k: nat)
    requires |inv| == |inv2| && Fits(inv, |inv|) && Fits(inv2, |inv2|) && k <= |inv| && inv2[k..] == inv[k..]
    ensures SamePrefix(inv, inv2, k)
  {
    forall x ensures x in inv2[..k] <==> x in inv[..k] {
      BeforeLevel(inv, k, x);
      BeforeLevel(inv2, k, x);
    }
  }

  lemma BeforeLevel(inv: seq<int>, k: nat, x: int)
    requires Fits(inv, |inv|) && k <= |inv|
    ensures x in inv[..k] <==> 0 <= x < |inv| && x !in inv[k..]
  {
    EveryInput(inv, |inv|);
    forall i | k <= i < |inv| ensures inv[i] in inv[k..] {
      assert inv[k..][i - k] == inv[i];
    }
    if x in inv[..k] {
      var i :| 0 <= i < k && inv[..k][i] == x;
      forall j | 0 <= j < |inv| - k ensures inv[k..][j] != x {
        assert inv[k..][j] == inv[k + j] != inv[i];
      }
    }
    if 0 <= x < |inv| && x !in inv[k..] {
      assert x in inv;
      var i :| 0 <= i < |inv| && inv[i] == x;
      assert inv[..k][i] == x;
    }
  }

  /** The groups up to frame `t` have been reordered, the levels after them are untouched. */
  ghost predicate Reordered(p: Problem, nPo: nat, slots: seq<int>, inv0: seq<int>, inv: seq<int>, pos: nat, t: nat)
    requires GoodSlots(p, nPo, slots)
  {
    && t <= p.T && pos == |NeededBy(p, nPo, slots, t)| <= |inv| == |inv0| && Fits(inv, |inv|) && inv[pos..] == inv0[pos..]
    && forall u: nat :: u <= t ==> |NeededBy(p, nPo, slots, u)| <= pos && SamePrefix(inv0, inv, |NeededBy(p, nPo, slots, u)|)
  }

  lemma ReorderedBegins(p: Problem, nPo: nat, slots: seq<int>, inv: seq<int>)
    requires GoodSlots(p, nPo, slots) && Fits(inv, |inv|)
    ensures Reordered(p, nPo, slots, inv, inv, 0, 0)
  {}

  lemma ReorderedNext(p: Problem, nPo: nat, slots: seq<int>, inv0: seq<int>, inv: seq<int>, pos: nat, t: nat, inv2: seq<int>, sz: nat)
    requires GoodSlots(p, nPo, slots) && Fits(inv0, |inv0|) && Reordered(p, nPo, slots, inv0, inv, pos, t) && t < p.T
    requires pos + sz == |NeededBy(p, nPo, slots, t + 1)| <= |inv| && ReordersRange(inv, inv2, pos, sz)
    ensures Reordered(p, nPo, slots, inv0, inv2, pos + sz, t + 1)
  {
    hide NeededBy, Fits;
    assert inv2[pos + sz..] == inv[pos..][sz..] == inv0[pos + sz..];
    var t1 := t + 1;
    forall u: nat | u <= t1
      ensures |NeededBy(p, nPo, slots, u)| <= pos + sz && SamePrefix(inv0, inv2, |NeededBy(p, nPo, slots, u)|)
    {
      var k := |NeededBy(p, nPo, slots, u)|;
      if u <= t {
        assert inv2[..k] == inv2[..pos][..k] == inv[..k];
      } else {
        SuffixDecides(inv0, inv2, k);
      }
    }
  }

  /** The orders between the groups: the reordering is called for every group that is not empty, on its levels. */
  ghost predicate Steps(p: Problem, nPo: nat, slots: seq<int>, steps: seq<seq<int>>, reordRange: (seq<int>, nat, nat) -> seq<int>, t: nat)
    requires GoodSlots(p, nPo, slots)
  {
    t <= p.T && |steps| == t + 1 && forall u: nat :: u < t ==> GroupStep(p, nPo, slots, steps[u], steps[u + 1], reordRange, u)
  }

  ghost predicate GroupStep(p: Problem, nPo: nat, slots: seq<int>, inv: seq<int>, inv2: seq<int>, reordRange: (seq<int>, nat, nat) -> seq<int>, u: nat)
    requires GoodSlots(p, nPo, slots) && u < p.T
  {
    var lo, hi := |NeededBy(p, nPo, slots, u)|, |NeededBy(p, nPo, slots, u + 1)|;
    lo <= hi && inv2 == if lo == hi then inv else reordRange(inv, lo, hi - lo)
  }

  lemma StepsNext(p: Problem, nPo: nat, slots: seq<int>, steps: seq<seq<int>>, reordRange: (seq<int>, nat, nat) -> seq<int>, t: nat, inv2: seq<int>)
    requires GoodSlots(p, nPo, slots) && t < p.T && Steps(p, nPo, slots, steps, reordRange, t)
    requires GroupStep(p, nPo, slots, steps[t], inv2, reordRange, t)
    ensures Steps(p, nPo, slots, steps + [inv2], reordRange, t + 1)
  {
    hide GroupStep;
    var steps2 := steps + [inv2];
    forall u: nat | u < t + 1 ensures GroupStep(p, nPo, slots, steps2[u], steps2[u + 1], reordRange, u) {
      if u < t {
        assert GroupStep(p, nPo, slots, steps[u], steps[u + 1], reordRange, u);
      }
    }
  }

  /** Every group is reordered on its own; no input leaves the levels of its group. */
  method ReordGroups(p: Problem, nPo: nat, ghost slots: seq<int>, inv0: seq<int>, sNums: seq<nat>, reordRange: (seq<int>, nat, nat) -> seq<int>)
      returns (inv: seq<int>, ghost steps: seq<seq<int>>)
    requires GoodProblem(p) && GoodSlots(p, nPo, slots) && |inv0| == p.nCi && Fits(inv0, p.nCi)
    requires GroupSizes(p, nPo, slots, sNums, p.T) && Reorders(reordRange)
    ensures |inv| == p.nCi && Fits(inv, p.nCi) && SameGroups(p, nPo, slots, inv0, inv)
    ensures Steps(p, nPo, slots, steps, reordRange, p.T) && |steps| == p.T + 1 && steps[0] == inv0 && steps[p.T] == inv
  {
    hide NeededBy, SamePrefix, Steps;
    inv := inv0;
    steps := [inv];
    StepsBegin(p, nPo, slots, inv, reordRange);
    var pos: nat := 0;
    ReorderedBegins(p, nPo, slots, inv0);
    NoneNeeded(p, nPo, slots);
    for t := 0 to |sNums|
      invariant Reordered(p, nPo, slots, inv0, inv, pos, t)
      invariant Steps(p, nPo, slots, steps, reordRange, t) && |steps| == t + 1 && steps[0] == inv0 && steps[t] == inv
    {
      var sz := sNums[t];
      ghost var inv1 := inv;
      NeededCount(p, nPo, slots, t + 1);
      if sz > 0 {
        var inv2 := reordRange(inv, pos, sz);
        assert ReordersRange(inv, inv2, pos, sz);
        ReorderedNext(p, nPo, slots, inv0, inv, pos, t, inv2, sz);
        StaysInRange(inv0, inv, inv2, pos, sz);
        assert forall i :: pos <= i < pos + sz ==> inv0[i] in inv2[pos..pos + sz];
        inv := inv2;
      } else {
        ReorderedNext(p, nPo, slots, inv0, inv, pos, t, inv, 0);
      }
      pos := pos + sz;
      assert GroupStep(p, nPo, slots, inv1, inv, reordRange, t);
      StepsNext(p, nPo, slots, steps, reordRange, t, inv);
      steps := steps + [inv];
    }
  }

  lemma StepsBegin(p: Problem, nPo: nat, slots: seq<int>, inv: seq<int>, reordRange: (seq<int>, nat, nat) -> seq<int>)
    requires GoodSlots(p, nPo, slots)
    ensures Steps(p, nPo, slots, [inv], reordRange, 0)
  {}

  lemma NoneNeeded(p: Problem, nPo: nat, slots: seq<int>)
    requires GoodSlots(p, nPo, slots)
    ensures NeededBy(p, nPo, slots, 0) == {}
  {}

  lemma NeededCount(p: Problem, nPo: nat, slots: seq<int>, t: nat)
    requires GoodProblem(p) && GoodSlots(p, nPo, slots) && t <= p.T
    ensures |NeededBy(p, nPo, slots, t)| <= p.nCi
  {
    NeededByInside(p, nPo, slots, t);
    SubsetSize(NeededBy(p, nPo, slots, t), Below(p.nCi));
  }

  /** The source's check: the inputs of a range are still on its levels. */
  lemma StaysInRange(inv0: seq<int>, inv: seq<int>, inv2: seq<int>, pos: nat, sz: nat)
    requires |inv0| == |inv| && pos + sz <= |inv| && Fits(inv, |inv|) && inv[pos..] == inv0[pos..] && ReordersRange(inv, inv2, pos, sz)
    ensures forall i :: pos <= i < pos + sz ==> inv0[i] in inv2[pos..pos + sz]
  {
    forall i | pos <= i < pos + sz ensures inv0[i] in inv2[pos..pos + sz] {
      var x := inv0[i];
      assert inv[i] == inv[pos..][i - pos] == x;
      SuffixDecides(inv, inv2, pos + sz);
      assert inv[..pos + sz][i] == x && x in inv[..pos + sz];
      assert x in inv2[..pos + sz];
      forall q | 0 <= q < pos ensures inv2[q] != x {
        assert inv2[q] == inv2[..pos][q] == inv[..pos][q] == inv[q] != inv[i];
      }
      var q :| 0 <= q < pos + sz && inv2[..pos + sz][q] == x;
      assert inv2[pos..pos + sz][q - pos] == x;
    }
  }

  // ----- reordPO -----

  /** Where input `j` stands. */
  ghost predicate Inverse(inv: seq<int>, level: seq<nat>, nCi: nat) {
    && |inv| == nCi && |level| == nCi
    && (forall j :: 0 <= j < nCi ==> level[j] < nCi && inv[level[j]] == j)
    && (forall q :: 0 <= q < nCi ==> 0 <= inv[q] < nCi && level[inv[q]] == q)
  }

  lemma LevelsFit(inv: seq<int>, level: seq<nat>, nCi: nat)
    requires Inverse(inv, level, nCi)
    ensures |level| == nCi
  {}

  type Row = seq<bool>

  /** `row` marks the pins at which output `o` reads, in frame `t`, inputs of that frame. */
  ghost predicate ReadsPins(p: Problem, level: seq<nat>, t: nat, o: int, row: Row)
    requires |level| == p.nCi && o < |p.sup|
  {
    && |row| == p.nPi
    && (o < 0 ==> forall q :: 0 <= q < p.nPi ==> !row[q])
    && (o >= 0 ==> forall q :: 0 <= q < p.nPi ==> (row[q] <==> exists j :: j in p.sup[o] && j < p.nCi && level[j] == Cell(t, p.nPi) + q))
  }

  /** The pins at which an output of frame `t` reads inputs for the first time; `psv` holds the inputs
      of the earlier frames. The asserts are the source's: at most nPi new inputs, on different pins. */
  method NewPins(p: Problem, nPo: nat, slots: array<int>, ghost inv: seq<int>, level: seq<nat>, psv: set<nat>, t: nat, s: nat) returns (row: Row)
    requires GoodProblem(p) && GoodSlots(p, nPo, slots[..]) && Causal(p, nPo, slots[..], inv) && Inverse(inv, level, p.nCi)
    requires t < p.T && InFrame(t, nPo, s) && s < slots.Length && slots[s] != -1 && psv == Earlier(level, p.nCi, Cell(t, p.nPi))
    ensures slots[..][s] == slots[s] && ReadsPins(p, level, t, slots[s], row)
  {
    assert slots[..][s] == slots[s];
    CellMonotone(t + 1, p.T, p.nPi);
    var sv := p.sup[slots[s]] - psv;
    NewInRange(p, nPo, slots[..], inv, level, t, s);
    NewCount(level, inv, p.nCi, Cell(t, p.nPi), p.nPi, sv);
    assert |sv| <= p.nPi;
    row := FillRow(p.nCi, p.nPi, inv, level, t, sv);
    forall q | 0 <= q < p.nPi ensures row[q] <==> exists j :: j in p.sup[slots[s]] && j < p.nCi && level[j] == Cell(t, p.nPi) + q {
      if j :| j in p.sup[slots[s]] && j < p.nCi && level[j] == Cell(t, p.nPi) + q {
        assert j in sv;
      }
    }
  }

  method FillRow(nCi: nat, nPi: nat, ghost inv: seq<int>, level: seq<nat>, t: nat, sv: set<nat>) returns (row: seq<bool>)
    requires nPi > 0 && Inverse(inv, level, nCi) && forall j :: j in sv ==> j < nCi && InFrame(t, nPi, level[j])
    ensures |row| == nPi
    ensures forall q :: 0 <= q < nPi ==> (row[q] <==> exists i :: i in sv && i < nCi && level[i] == Cell(t, nPi) + q)
  {
    row := seq(nPi, _ => false);
    for j := 0 to nCi
      invariant |row| == nPi
      invariant forall q :: 0 <= q < nPi ==> (row[q] <==> exists i :: i in sv && i < j && i < nCi && level[i] == Cell(t, nPi) + q)
    {
      if j in sv {
        PinOf(t, nPi, level[j]);
        var pos := level[j] % nPi;
        forall i | i in sv && i < j ensures level[i] != Cell(t, nPi) + pos {
          assert inv[level[i]] == i;
        }
        assert !row[pos];
        row := row[pos := true];
      }
    }
  }

  lemma PinOf(t: nat, n: nat, level: nat)
    requires n > 0 && Cell(t, n) <= level < Cell(t, n) + n
    ensures level % n == level - Cell(t, n)
  {
    CellDiv(t, n, level - Cell(t, n));
  }

  ghost function Earlier(level: seq<nat>, nCi: nat, k: nat): set<nat>
    requires |level| == nCi
  {
    set j: nat | j < nCi && level[j] < k
  }

  lemma EarlierNext(inv: seq<int>, level: seq<nat>, nCi: nat, k: nat)
    requires Inverse(inv, level, nCi) && k < nCi
    ensures inv[k] >= 0 && inv[k] !in Earlier(level, nCi, k)
    ensures Earlier(level, nCi, k + 1) == Earlier(level, nCi, k) + {inv[k]}
  {}

  /** Exactly `k` inputs stand on the first `k` levels. */
  lemma {:induction false} EarlierCount(inv: seq<int>, level: seq<nat>, nCi: nat, k: nat)
    requires Inverse(inv, level, nCi) && k <= nCi
    ensures |Earlier(level, nCi, k)| == k
  {
    if k == 0 {
      assert Earlier(level, nCi, 0) == {};
    } else {
      EarlierCount(inv, level, nCi, k - 1);
      EarlierNext(inv, level, nCi, k - 1);
    }
  }

  lemma NewInRange(p: Problem, nPo: nat, slots: seq<int>, inv: seq<int>, level: seq<nat>, t: nat, s: nat)
    requires GoodProblem(p) && GoodSlots(p, nPo, slots) && Causal(p, nPo, slots, inv) && Inverse(inv, level, p.nCi)
    requires t < p.T && InFrame(t, nPo, s) && s < |slots| && slots[s] != -1
    ensures forall j :: j in p.sup[slots[s]] ==> j < p.nCi && level[j] < Cell(t, p.nPi) + p.nPi
  {
    assert ReadBefore(p.sup[slots[s]], inv, Cell(t, p.nPi) + p.nPi);
    forall j | j in p.sup[slots[s]] ensures j < p.nCi && level[j] < Cell(t, p.nPi) + p.nPi {
      var q :| 0 <= q < |inv| && q < Cell(t, p.nPi) + p.nPi && inv[q] == j;
    }
  }

  lemma NewCount(level: seq<nat>, inv: seq<int>, nCi: nat, base: nat, n: nat, sv: set<nat>)
    requires Inverse(inv, level, nCi) && base + n <= nCi && forall j :: j in sv ==> j < nCi && base <= level[j] < base + n
    ensures |sv| <= n
  {
    EarlierCount(inv, level, nCi, base + n);
    EarlierCount(inv, level, nCi, base);
    var a, b := Earlier(level, nCi, base + n), Earlier(level, nCi, base);
    assert b <= a && sv <= a - b;
    hide Inverse, Earlier;
    assert a == b + (a - b);
    SubsetSize(sv, a - b);
  }

  /** Exchanging two outputs of one frame keeps the circuit causal. */
  lemma SwapCausal(p: Problem, nPo: nat, slots: seq<int>, inv: seq<int>, t: nat, s: nat, s2: nat)
    requires GoodSlots(p, nPo, slots) && Causal(p, nPo, slots, inv) && t < p.T && InFrame(t, nPo, s) && InFrame(t, nPo, s2)
    requires s < |slots| && s2 < |slots|
    ensures GoodSlots(p, nPo, slots[s := slots[s2]][s2 := slots[s]]) && Causal(p, nPo, slots[s := slots[s2]][s2 := slots[s]], inv)
  {
    var slots2 := slots[s := slots[s2]][s2 := slots[s]];
    forall u: nat, x: nat | u < p.T && InFrame(u, nPo, x) && x < |slots2| && slots2[x] != -1
      ensures ReadBefore(p.sup[slots2[x]], inv, Cell(u, p.nPi) + p.nPi)
    {
      if x == s || x == s2 {
        FrameUnique(u, t, nPo, x);
      }
    }
  }

  /** Row i of frame t describes the output in slot t * nPo + i, for the frames below `upto`. */
  ghost predicate RowsMatch(p: Problem, nPo: nat, slots: seq<int>, level: seq<nat>, rows: seq<seq<Row>>, upto: nat)
    requires GoodSlots(p, nPo, slots) && |level| == p.nCi
  {
    && upto <= |rows| && upto <= p.T && (forall t: nat :: t < upto ==> |rows[t]| == nPo)
    && forall t: nat, i: nat :: t < upto && i < nPo ==> RowMatches(p, nPo, slots, level, rows[t][i], t, i)
  }

  ghost predicate RowMatches(p: Problem, nPo: nat, slots: seq<int>, level: seq<nat>, row: Row, t: nat, i: nat)
    requires GoodSlots(p, nPo, slots) && |level| == p.nCi
  {
    Cell(t, nPo) + i < |slots| && ReadsPins(p, level, t, slots[Cell(t, nPo) + i], row)
  }

  /** The inputs on the levels before frame `t`, counted by the source's assert. */
  method Accumulate(p: Problem, inv: seq<int>, level: seq<nat>, t: nat, psv0: set<nat>) returns (psv: set<nat>)
    requires GoodProblem(p) && Inverse(inv, level, p.nCi) && t < p.T
    requires psv0 == if t == 0 then {} else Earlier(level, p.nCi, Cell(t - 1, p.nPi))
    ensures psv == Earlier(level, p.nCi, Cell(t, p.nPi))
  {
    psv := psv0;
    CellMonotone(t, p.T, p.nPi);
    if t > 0 {
      for i := 0 to p.nPi
        invariant psv == Earlier(level, p.nCi, Cell(t - 1, p.nPi) + i)
      {
        EarlierNext(inv, level, p.nCi, Cell(t - 1, p.nPi) + i);
        psv := psv + {inv[Cell(t - 1, p.nPi) + i]};
      }
    }
    EarlierCount(inv, level, p.nCi, Cell(t, p.nPi));
    assert |psv| == Cell(t, p.nPi);
  }

  /** The first pass of reordPO: which pins each output reads for the first time in its frame. */
  method FirstReads(p: Problem, nPo: nat, slots: array<int>, inv: seq<int>, level: seq<nat>) returns (rows: seq<seq<Row>>)
    requires GoodProblem(p) && GoodSlots(p, nPo, slots[..]) && Causal(p, nPo, slots[..], inv) && Inverse(inv, level, p.nCi)
    ensures |rows| == p.T && RowsMatch(p, nPo, slots[..], level, rows, p.T)
  {
    hide Causal, RowMatches, Earlier, Inverse;
    LevelsFit(inv, level, p.nCi);
    rows := [];
    var psv: set<nat> := {};
    for t := 0 to p.T
      invariant |rows| == t && RowsMatch(p, nPo, slots[..], level, rows, t)
      invariant psv == if t == 0 then {} else Earlier(level, p.nCi, Cell(t - 1, p.nPi))
    {
      psv := Accumulate(p, inv, level, t, psv);
      var frame := FrameReads(p, nPo, slots, inv, level, psv, t);
      rows := rows + [frame];
    }
  }

  method FrameReads(p: Problem, nPo: nat, slots: array<int>, ghost inv: seq<int>, level: seq<nat>, psv: set<nat>, t: nat) returns (frame: seq<Row>)
    requires GoodProblem(p) && GoodSlots(p, nPo, slots[..]) && Causal(p, nPo, slots[..], inv) && Inverse(inv, level, p.nCi)
    requires t < p.T && psv == Earlier(level, p.nCi, Cell(t, p.nPi))
    ensures |frame| == nPo && forall i: nat :: i < nPo ==> RowMatches(p, nPo, slots[..], level, frame[i], t, i)
  {
    hide Causal, Earlier;
    frame := [];
    CellMonotone(t + 1, p.T, nPo);
    for i := 0 to nPo
      invariant |frame| == i && forall k: nat :: k < i ==> RowMatches(p, nPo, slots[..], level, frame[k], t, k)
    {
      var s := Cell(t, nPo) + i;
      var row := seq(p.nPi, _ => false);
      assert slots[..][s] == slots[s];
      if slots[s] != -1 {
        row := NewPins(p, nPo, slots, inv, level, psv, t, s);
      }
      frame := frame + [row];
    }
  }

  /** A schedule of all outputs, causal for the order of the inputs. */
  ghost predicate Arranged(p: Problem, nPo: nat, slots: seq<int>, inv: seq<int>, at: map<int, nat>) {
    && GoodSlots(p, nPo, slots) && Causal(p, nPo, slots, inv)
    && Located(slots, at) && (forall o: nat :: o in at <==> o < |p.sup|)
  }

  /** Every output stays in its frame, and the outputs of frame 0 where they are. */
  ghost predicate SameFrames(p: Problem, nPo: nat, at: map<int, nat>, at2: map<int, nat>) {
    && at2.Keys == at.Keys && (forall o :: o in at && at[o] < nPo ==> at2[o] == at[o])
    && forall o, t: nat :: o in at && t < p.T ==> (InFrame(t, nPo, at2[o]) <==> InFrame(t, nPo, at[o]))
  }

  lemma SameFramesTrans(p: Problem, nPo: nat, at: map<int, nat>, at2: map<int, nat>, at3: map<int, nat>)
    requires SameFrames(p, nPo, at, at2) && SameFrames(p, nPo, at2, at3) && p.T > 0
    ensures SameFrames(p, nPo, at, at3)
  {
    forall o | o in at && at[o] < nPo ensures at3[o] == at[o] {
      assert at2[o] == at[o];
    }
  }

  lemma SwapInFrame(p: Problem, nPo: nat, at: map<int, nat>, t: nat, s: nat, s2: nat, at2: map<int, nat>)
    requires 0 < t < p.T && InFrame(t, nPo, s) && InFrame(t, nPo, s2)
    requires at2.Keys == at.Keys && forall o :: o in at ==> at2[o] == if at[o] == s then s2 else if at[o] == s2 then s else at[o]
    ensures SameFrames(p, nPo, at, at2)
  {
    CellMonotone(1, t, nPo);
    forall o, u: nat | o in at && u < p.T ensures InFrame(u, nPo, at2[o]) <==> InFrame(u, nPo, at[o]) {
      if at2[o] != at[o] {
        if InFrame(u, nPo, at2[o]) {
          FrameUnique(u, t, nPo, at2[o]);
        }
        if InFrame(u, nPo, at[o]) {
          FrameUnique(u, t, nPo, at[o]);
        }
      }
    }
  }

  /** Outputs trade places within each frame, together with their rows, by any score. */
  method ReordPO(p: Problem, nPo: nat, slots: array<int>, inv: seq<int>, level: seq<nat>, oPerm: array<int>, ghost at0: map<int, nat>) returns (ghost at: map<int, nat>)
    requires GoodProblem(p) && Arranged(p, nPo, slots[..], inv, at0) && Inverse(inv, level, p.nCi)
    requires slots != oPerm && oPerm.Length == |p.sup|
    modifies slots, oPerm
    ensures Arranged(p, nPo, slots[..], inv, at) && SameFrames(p, nPo, at0, at)
    ensures forall o :: 0 <= o < |p.sup| ==> oPerm[o] == at[o]
  {
    hide Causal, Located, Inverse, RowsMatch, SameFrames;
    WellPosed(p);
    SameFramesSelf(p, nPo, at0);
    LevelsFit(inv, level, p.nCi);
    var rows := FirstReads(p, nPo, slots, inv, level);
    at := at0;
    for t := 1 to p.T
      invariant Arranged(p, nPo, slots[..], inv, at) && |level| == p.nCi && RowsMatch(p, nPo, slots[..], level, rows, p.T)
      invariant SameFrames(p, nPo, at0, at)
    {
      for i := 0 to nPo
        invariant Arranged(p, nPo, slots[..], inv, at) && |level| == p.nCi && RowsMatch(p, nPo, slots[..], level, rows, p.T)
        invariant SameFrames(p, nPo, at0, at)
      {
        // the j with the best score
        var maxIdx: nat :| i <= maxIdx < nPo;
        if maxIdx != i {
          ghost var at1 := at;
          at, rows := SwapOutputs(p, nPo, slots, inv, level, rows, t, i, maxIdx, at);
          SameFramesTrans(p, nPo, at0, at1, at);
        }
      }
    }
    UpdateOPerm(p, slots, oPerm, at);
  }

  lemma SameFramesSelf(p: Problem, nPo: nat, at: map<int, nat>)
    ensures SameFrames(p, nPo, at, at)
  {}

  method SwapOutputs(p: Problem, nPo: nat, slots: array<int>, ghost inv: seq<int>, ghost level: seq<nat>, rows0: seq<seq<Row>>, t: nat, i: nat, j: nat, ghost at0: map<int, nat>)
      returns (ghost at: map<int, nat>, rows: seq<seq<Row>>)
    requires Arranged(p, nPo, slots[..], inv, at0) && 0 < t < p.T && i < j < nPo
    requires |level| == p.nCi && RowsMatch(p, nPo, slots[..], level, rows0, p.T)
    modifies slots
    ensures Arranged(p, nPo, slots[..], inv, at) && RowsMatch(p, nPo, slots[..], level, rows, p.T)
    ensures SameFrames(p, nPo, at0, at)
  {
    hide Causal, Located, RowMatches, SameFrames;
    CellMonotone(t + 1, p.T, nPo);
    var s, s2 := Cell(t, nPo) + i, Cell(t, nPo) + j;
    ghost var before := slots[..];
    SwapCausal(p, nPo, slots[..], inv, t, s, s2);
    at := SwapLocated(slots[..], at0, s, s2, |p.sup|);
    SwapInFrame(p, nPo, at0, t, s, s2, at);
    SwapRows(p, nPo, slots[..], level, rows0, t, i, j);
    slots[s], slots[s2] := slots[s2], slots[s];
    rows := rows0[t := rows0[t][i := rows0[t][j]][j := rows0[t][i]]];
    assert slots[..] == before[s := before[s2]][s2 := before[s]];
  }

  lemma SwapRows(p: Problem, nPo: nat, slots: seq<int>, level: seq<nat>, rows: seq<seq<Row>>, t: nat, i: nat, j: nat)
    requires GoodSlots(p, nPo, slots) && |level| == p.nCi && RowsMatch(p, nPo, slots, level, rows, p.T)
    requires t < p.T && i < j < nPo && Cell(t, nPo) + j < |slots|
    ensures var s, s2 := Cell(t, nPo) + i, Cell(t, nPo) + j;
            GoodSlots(p, nPo, slots[s := slots[s2]][s2 := slots[s]]) &&
            RowsMatch(p, nPo, slots[s := slots[s2]][s2 := slots[s]], level, rows[t := rows[t][i := rows[t][j]][j := rows[t][i]]], p.T)
  {
    hide ReadsPins;
    var s, s2 := Cell(t, nPo) + i, Cell(t, nPo) + j;
    var slots2, rows2 := slots[s := slots[s2]][s2 := slots[s]], rows[t := rows[t][i := rows[t][j]][j := rows[t][i]]];
    forall u: nat, k: nat | u < p.T && k < nPo ensures RowMatches(p, nPo, slots2, level, rows2[u][k], u, k) {
      assert RowMatches(p, nPo, slots, level, rows[u][k], u, k);
      assert RowMatches(p, nPo, slots, level, rows[t][i], t, i) && RowMatches(p, nPo, slots, level, rows[t][j], t, j);
      if Cell(u, nPo) + k == s || Cell(u, nPo) + k == s2 {
        FrameUnique(u, t, nPo, Cell(u, nPo) + k);
      }
    }
  }

  lemma SwapLocated(slots: seq<int>, at: map<int, nat>, s: nat, s2: nat, n: nat) returns (at2: map<int, nat>)
    requires Located(slots, at) && s < |slots| && s2 < |slots| && s != s2 && (forall o: nat :: o in at <==> o < n)
    requires forall x :: 0 <= x < |slots| ==> slots[x] >= -1
    ensures Located(slots[s := slots[s2]][s2 := slots[s]], at2) && forall o: nat :: o in at2 <==> o < n
    ensures at2.Keys == at.Keys && forall o :: o in at ==> at2[o] == if at[o] == s then s2 else if at[o] == s2 then s else at[o]
  {
    at2 := map o | o in at :: if at[o] == s then s2 else if at[o] == s2 then s else at[o];
  }

  // ----- reordIO -----

  /** Cudd_ShuffleHeap: level[j] is where input j stands. */
  method Levels(inv: seq<int>) returns (level: seq<nat>)
    requires Fits(inv, |inv|)
    ensures Inverse(inv, level, |inv|)
  {
    var n := |inv|;
    level := seq(n, _ => 0);
    for q := 0 to n
      invariant |level| == n && forall x :: 0 <= x < q ==> level[inv[x]] == x
    {
      level := level[inv[q] := q];
    }
    EveryInput(inv, n);
    forall j | 0 <= j < n ensures level[j] < n && inv[level[j]] == j {
      assert j in inv;
    }
  }

  /** Every output stands in a frame by whose end all its inputs have been read. */
  ghost predicate ReadInTime(p: Problem, nPo: nat, iPerm: seq<int>, oPerm: seq<int>) {
    && |oPerm| == |p.sup| && |iPerm| == p.nCi && Fits(iPerm, p.nCi) && Fits(oPerm, Cell(p.T, nPo))
    && forall o, j, t: nat :: 0 <= o < |p.sup| && j in p.sup[o] && j < p.nCi && t < p.T && InFrame(t, nPo, oPerm[o]) ==> iPerm[j] < Cell(t, p.nPi) + p.nPi
  }

  lemma ScheduleIsRead(p: Problem, nPo: nat, slots: seq<int>, inv: seq<int>, level: seq<nat>, at: map<int, nat>, iPerm: seq<int>, oPerm: seq<int>)
    requires GoodSlots(p, nPo, slots) && Causal(p, nPo, slots, inv) && Inverse(inv, level, p.nCi) && Located(slots, at)
    requires (forall o: nat :: o in at <==> o < |p.sup|) && |oPerm| == |p.sup| && |iPerm| == p.nCi
    requires (forall o :: 0 <= o < |p.sup| ==> oPerm[o] == at[o]) && forall j :: 0 <= j < p.nCi ==> iPerm[j] == level[j]
    ensures ReadInTime(p, nPo, iPerm, oPerm)
  {
    forall i, j | 0 <= i < j < p.nCi ensures iPerm[i] != iPerm[j] {
      assert inv[level[i]] == i && inv[level[j]] == j;
    }
    forall i, j | 0 <= i < j < |p.sup| ensures oPerm[i] != oPerm[j] {
      assert i in at && j in at;
    }
    forall o, j, t: nat | 0 <= o < |p.sup| && j in p.sup[o] && j < p.nCi && t < p.T && InFrame(t, nPo, oPerm[o])
      ensures iPerm[j] < Cell(t, p.nPi) + p.nPi
    {
      assert o in at && slots[at[o]] == o;
      assert ReadBefore(p.sup[slots[at[o]]], inv, Cell(t, p.nPi) + p.nPi);
      var q :| 0 <= q < |inv| && q < Cell(t, p.nPi) + p.nPi && inv[q] == j;
    }
  }

  /** Configurations 0 and 2 reorder the ascending groups one after the other, the others leave them ascending. */
  ghost predicate InputsOrdered(p: Problem, nPo: nat, slots: seq<int>, steps: seq<seq<int>>, reordRange: (seq<int>, nat, nat) -> seq<int>, expConfig: nat)
    requires GoodSlots(p, nPo, slots)
  {
    && |steps| > 0 && Ascending(p, nPo, slots, steps[0])
    && if expConfig == 0 || expConfig == 2 then Steps(p, nPo, slots, steps, reordRange, p.T) else |steps| == 1
  }

  /** schedulePI as a whole: the order of the inputs, reordered within the groups if asked for. */
  method OrderInputs(p: Problem, nPo: nat, slots: array<int>, iPerm: array<int>, reordRange: (seq<int>, nat, nat) -> seq<int>, expConfig: nat)
      returns (inv: seq<int>, level: seq<nat>, ghost steps: seq<seq<int>>)
    requires GoodProblem(p) && GoodSlots(p, nPo, slots[..]) && InTime(p, nPo, slots[..]) && Reorders(reordRange)
    requires iPerm.Length == p.nCi && iPerm != slots
    modifies iPerm
    ensures Causal(p, nPo, slots[..], inv) && Inverse(inv, level, p.nCi)
    ensures forall j :: 0 <= j < p.nCi ==> iPerm[j] == level[j]
    ensures InputsOrdered(p, nPo, slots[..], steps, reordRange, expConfig) && inv == steps[|steps| - 1]
  {
    hide Causal, InTime, Grouped, SameGroups, Inverse, GroupSizes, Reorders, GroupAscending, RangeSorted, Steps, Fits;
    ghost var sl := slots[..];
    var sNums := SchedulePI(p, nPo, slots, iPerm);
    inv := iPerm[..];
    steps := [inv];
    if expConfig == 0 || expConfig == 2 {
      var inv2;
      inv2, steps := ReordGroups(p, nPo, sl, inv, sNums, reordRange);
      RangeReordering(p, nPo, sl, inv, inv2);
      inv := inv2;
    } else {
      GroupedIsCausal(p, nPo, sl, inv);
    }
    level := Levels(inv);
    LevelsFit(inv, level, p.nCi);
    UpdateIPerm(iPerm, level);
  }

  /** The whole scheduler: outputs, inputs, the inputs within their groups and the outputs within
      their frames, the last two as the configuration asks. Configurations 4 to 8 are hand-made orders. */
  method ReordIO(p: Problem, iPerm: array<int>, oPerm: array<int>, reordRange: (seq<int>, nat, nat) -> seq<int>, expConfig: nat)
      returns (nPo: nat, ghost idx: seq<nat>, ghost sl: seq<int>, ghost steps: seq<seq<int>>)
    requires GoodProblem(p) && |p.sup| > 0 && oPerm.Length == |p.sup| && iPerm.Length == p.nCi && iPerm != oPerm
    requires Reorders(reordRange) && !(4 <= expConfig <= 8)
    modifies iPerm, oPerm
    ensures ReadInTime(p, nPo, iPerm[..], oPerm[..])
    ensures FewestPins(p, nPo, idx) && GreedySlots(p, idx, nPo, sl)
    ensures InputsOrdered(p, nPo, sl, steps, reordRange, expConfig) && InputsPlaced(steps[|steps| - 1], iPerm[..])
    ensures OutputsPlaced(p, idx, nPo, oPerm[..], expConfig == 0 || expConfig == 1)
  {
    hide GoodProblem, Causal, ReadInTime, InTime, Located, SortedIdx, Inverse, Reorders, Legal, AtSlots, SameFrames, OutputsPlaced, GreedySlots, InputsOrdered;
    WellPosed(p);
    var slots;
    ghost var at;
    slots, nPo, idx, at := SchedulePO(p, (|p.sup| + p.T - 1) / p.T, oPerm);
    assert GoodSlots(p, nPo, slots[..]) && InTime(p, nPo, slots[..]);
    sl := slots[..];
    SlotsAreGreedy(p, idx, nPo, sl, at);
    ghost var at0 := at;
    SameFramesSelf(p, nPo, at);
    var inv, level;
    inv, level, steps := OrderInputs(p, nPo, slots, iPerm, reordRange, expConfig);
    ghost var order := iPerm[..];
    if expConfig == 0 || expConfig == 1 {
      at := ReordPO(p, nPo, slots, inv, level, oPerm, at);
    }
    ScheduleIsRead(p, nPo, slots[..], inv, level, at, iPerm[..], oPerm[..]);
    PlacedOutputs(p, idx, nPo, at0, at, oPerm[..], expConfig == 0 || expConfig == 1);
    LevelsPlace(inv, level, p.nCi, iPerm[..]);
  }

  /** The slots hold the outputs where the greedy placement puts them, and nothing else. */
  ghost predicate GreedySlots(p: Problem, idx: seq<nat>, nPo: nat, sl: seq<int>)
    requires GoodProblem(p) && SortedIdx(p.sup, idx)
  {
    && GoodSlots(p, nPo, sl)
    && (forall k: nat :: k < |idx| ==> SlotOf(p, idx, nPo, k) < |sl| && sl[SlotOf(p, idx, nPo, k)] == idx[k])
    && forall s :: 0 <= s < |sl| && sl[s] != -1 ==> exists k: nat :: k < |idx| && s == SlotOf(p, idx, nPo, k)
  }

  lemma SlotsAreGreedy(p: Problem, idx: seq<nat>, nPo: nat, sl: seq<int>, at: map<int, nat>)
    requires GoodProblem(p) && SortedIdx(p.sup, idx) && GoodSlots(p, nPo, sl) && Located(sl, at) && AtSlots(p, idx, nPo, |idx|, at)
    ensures GreedySlots(p, idx, nPo, sl)
  {
    hide GoodProblem;
    forall s | 0 <= s < |sl| && sl[s] != -1 ensures exists k: nat :: k < |idx| && s == SlotOf(p, idx, nPo, k) {
      var o: nat := sl[s];
      assert o in idx;
      var k: nat :| k < |idx| && idx[k] == o;
      assert s == SlotOf(p, idx, nPo, k);
    }
  }

  /** Every output stands in its slot, or only in the frame of its slot if outputs were exchanged;
      those of frame 0 are never exchanged. */
  ghost predicate OutputsPlaced(p: Problem, idx: seq<nat>, nPo: nat, oPerm: seq<int>, exchanged: bool)
    requires GoodProblem(p) && SortedIdx(p.sup, idx)
  {
    forall k: nat :: k < |idx| ==>
      && idx[k] < |oPerm|
      && (!exchanged || SlotOf(p, idx, nPo, k) < nPo ==> oPerm[idx[k]] == SlotOf(p, idx, nPo, k))
      && forall t: nat :: t < p.T ==> (InFrame(t, nPo, oPerm[idx[k]]) <==> InFrame(t, nPo, SlotOf(p, idx, nPo, k)))
  }

  lemma PlacedOutputs(p: Problem, idx: seq<nat>, nPo: nat, at0: map<int, nat>, at: map<int, nat>, oPerm: seq<int>, exchanged: bool)
    requires GoodProblem(p) && SortedIdx(p.sup, idx) && AtSlots(p, idx, nPo, |idx|, at0)
    requires SameFrames(p, nPo, at0, at) && (!exchanged ==> at == at0)
    requires |oPerm| == |p.sup| && forall o :: 0 <= o < |p.sup| ==> o in at && oPerm[o] == at[o]
    ensures OutputsPlaced(p, idx, nPo, oPerm, exchanged)
  {
    hide GoodProblem, InFrame;
  }

  /** iPerm says where each input stands in the order. */
  ghost predicate InputsPlaced(inv: seq<int>, iPerm: seq<int>) {
    |inv| == |iPerm| && forall q :: 0 <= q < |inv| ==> 0 <= inv[q] < |iPerm| && iPerm[inv[q]] == q
  }

  lemma LevelsPlace(inv: seq<int>, level: seq<nat>, nCi: nat, iPerm: seq<int>)
    requires Inverse(inv, level, nCi) && |iPerm| == nCi && forall j :: 0 <= j < nCi ==> iPerm[j] == level[j]
    ensures InputsPlaced(inv, iPerm)
  {}

  /** From the lower bound on, `nPo` is the first number of pins for which the greedy placement,
      in the order of the support sizes, finds a slot for every output. */
  ghost predicate FewestPins(p: Problem, nPo: nat, idx: seq<nat>)
    requires GoodProblem(p)
  {
    && SortedIdx(p.sup, idx) && (|p.sup| + p.T - 1) / p.T <= nPo <= |p.sup| && Legal(p, idx, nPo, 0, 0)
    && forall q: nat :: (|p.sup| + p.T - 1) / p.T <= q < nPo ==> !Legal(p, idx, q, 0, 0)
  }

  lemma WellPosed(p: Problem)
    requires GoodProblem(p)
    ensures p.T > 0
  {}

  method UpdateIPerm(iPerm: array<int>, level: seq<nat>)
    requires |level| == iPerm.Length
    modifies iPerm
    ensures forall j :: 0 <= j < iPerm.Length ==> iPerm[j] == level[j]
  {
    for i := 0 to iPerm.Length
      invariant forall j :: 0 <= j < i ==> iPerm[j] == level[j]
    {
      iPerm[i] := level[i];
    }
  }
}
