/** Learning, removing clauses, deciding, and answering (memin/minisat/core/Solver.cpp). */
module SatSearch {
  import opened SatState
  import opened SatTrail
  import opened SatWatch
  import opened SatDb
  import opened SatSteps
  import opened SatAnalyze
  import opened SatGc
  import opened SatWhole
  import opened SatLearn
  import OrderHeap

  // ----- learning -----

  lemma WholeLearnUnit(x: Snapshot, bound: nat, p: Lit)
    requires Whole(x, bound) && x.s.a.lim == [] && VarOk(x.s.a, p) && Value(x.s.a.assigns, p) == LUndef
    requires Entails(NumVars(x), x.formula, [p])
    ensures |x.s.a.reason| == |x.s.a.level| == |x.s.a.pos| == NumVars(x)
    ensures Whole(x.(s := x.s.(a := Enqueued(x.s.a, p, NoRef))), bound)
  {
    forall m | Models(m, NumVars(x), x.formula) ensures LitHolds(m, p) {
      assert Holds(m, [p]);
    }
    EnqueueInv(x.s, x.formula, bound, p, NoRef);
    WholeStep(x, bound, x.s.(a := Enqueued(x.s.a, p, NoRef)), bound);
  }

  function LearntSnapshot(x: Snapshot, c: Clause): Snapshot
    requires |c.lits| >= 2 && Not(c.lits[0]) in x.s.watches && Not(c.lits[1]) in x.s.watches
    requires c.lits[0].v < NumVars(x) == |x.s.a.reason| == |x.s.a.level| == |x.s.a.pos|
  {
    x.(s := Attached(x.s, c).(a := Enqueued(x.s.a, c.lits[0], Ref(|x.s.ca|))), learnts := x.learnts + [|x.s.ca|])
  }

  lemma WholeLearn(x: Snapshot, bound: nat, c: Clause)
    requires Whole(x, bound) && NewClause(NumVars(x), c) && c.learnt && Entails(NumVars(x), x.formula, c.lits)
    requires Asserting(x.s.a, c.lits) && |x.s.a.lim| > 0
    ensures Not(c.lits[0]) in x.s.watches && Not(c.lits[1]) in x.s.watches
    ensures |x.s.a.reason| == |x.s.a.level| == |x.s.a.pos| == NumVars(x)
    ensures Whole(LearntSnapshot(x, c), bound)
  {
    hide Inv, RestOk, TrailOk;
    WholeTrail(x, bound);
    LearnInv(x.s, x.formula, bound, c);
    AttachRest(x, c, Attached(x.s, c).(a := Enqueued(x.s.a, c.lits[0], Ref(|x.s.ca|))));
    assert WholeParts(LearntSnapshot(x, c), bound);
  }

  /** The learnt clause is fit to be attached. */
  lemma LearntGood(a: Asg, f: seq<seq<Lit>>, lits: seq<Lit>, btlevel: nat)
    requires |a.level| == |a.assigns| && LearntOk(a, f, lits, btlevel)
    ensures |lits| >= 1 && btlevel < |a.lim| && lits[0].v < |a.assigns| && Entails(|a.assigns|, f, lits)
    ensures |lits| >= 2 ==> GoodLits(|a.assigns|, lits)
    ensures |lits| == 1 ==> btlevel == 0
  {
    forall k | 0 <= k < |lits| ensures lits[k].v < |a.assigns| {
      if k > 0 {
        assert OutOk(a, lits[k]);
      }
    }
  }

  // ----- removing clauses -----

  /** The clause list with `learnt` clauses (or problem clauses) replaced. */
  function WithList(x: Snapshot, learnt: bool, cs: seq<nat>): Snapshot {
    if learnt then x.(learnts := cs) else x.(clauses := cs)
  }

  lemma RemoveOther(ca: seq<Clause>, cs: seq<nat>, learnt: bool, cr: nat)
    requires Enumerates(ca, cs, learnt) && Live(ca, cr) && ca[cr].learnt != learnt
    ensures Enumerates(ca[cr := ca[cr].(mark := 1)], cs, learnt)
  {
    var ca2 := ca[cr := ca[cr].(mark := 1)];
    forall c: nat ensures c in cs <==> Live(ca2, c) && ca2[c].learnt == learnt {
      assert c in cs <==> Live(ca, c) && ca[c].learnt == learnt;
    }
  }

  lemma RemoveListed(ca: seq<Clause>, kept: seq<nat>, rest: seq<nat>, learnt: bool)
    requires Enumerates(ca, kept + rest, learnt) && rest != []
    ensures Live(ca, rest[0]) && ca[rest[0]].learnt == learnt
    ensures Enumerates(ca[rest[0] := ca[rest[0]].(mark := 1)], kept + rest[1..], learnt)
  {
    var cs, cs2, cr := kept + rest, kept + rest[1..], rest[0];
    assert cs[|kept|] == cr;
    assert cr in cs;
    var ca2 := ca[cr := ca[cr].(mark := 1)];
    forall i | 0 <= i < |cs2| ensures cs2[i] == cs[if i < |kept| then i else i + 1] && cs2[i] != cr {}
    forall c: nat ensures c in cs2 <==> Live(ca2, c) && ca2[c].learnt == learnt {
      assert c in cs <==> Live(ca, c) && ca[c].learnt == learnt;
      if c in cs && c != cr {
        var i :| 0 <= i < |cs| && cs[i] == c;
        assert cs2[if i < |kept| then i else i - 1] == c;
      }
      if c in cs2 {
        var i :| 0 <= i < |cs2| && cs2[i] == c;
        assert cs[if i < |kept| then i else i + 1] == c;
      }
    }
  }

  /** The clause at the head of `rest` goes. */
  lemma WholeRemove(x: Snapshot, bound: nat, learnt: bool, kept: seq<nat>, rest: seq<nat>)
    requires Whole(WithList(x, learnt, kept + rest), bound) && rest != []
    requires TrailOk(x.s.a) && MayRemove(x.s, rest[0])
    ensures Whole(WithList(x.(s := Removed(x.s, rest[0])), learnt, kept + rest[1..]), bound)
  {
    var y := WithList(x, learnt, kept + rest);
    RemoveInv(y.s, y.formula, bound, rest[0]);
    RemoveListed(x.s.ca, kept, rest, learnt);
    RemoveOther(x.s.ca, if learnt then y.clauses else y.learnts, !learnt, rest[0]);
    assert WholeParts(WithList(x.(s := Removed(x.s, rest[0])), learnt, kept + rest[1..]), bound);
  }

  /** The references that stay when those in `gone` are dropped, in their order. */
  ghost function KeptOf(cs: seq<nat>, gone: set<nat>): seq<nat> {
    if cs == [] then []
    else KeptOf(cs[..|cs| - 1], gone) + if cs[|cs| - 1] in gone then [] else [cs[|cs| - 1]]
  }

  lemma KeptNext(cs: seq<nat>, i: nat, gone: set<nat>)
    requires i < |cs|
    ensures KeptOf(cs[..i + 1], gone) == if cs[i] in gone then KeptOf(cs[..i], gone) else KeptOf(cs[..i], gone) + [cs[i]]
  {
    assert cs[..i + 1][..i] == cs[..i];
  }

  /** Dropping a reference that comes later. */
  lemma KeptSame(cs: seq<nat>, i: nat, gone: set<nat>)
    requires i < |cs| && forall k, l :: 0 <= k < l < |cs| ==> cs[k] != cs[l]
    ensures KeptOf(cs[..i], gone + {cs[i]}) == KeptOf(cs[..i], gone)
  {
    KeptSameTo(cs, i, i, gone);
  }

  lemma {:induction false} KeptSameTo(cs: seq<nat>, j: nat, i: nat, gone: set<nat>)
    requires j <= i < |cs| && forall k, l :: 0 <= k < l < |cs| ==> cs[k] != cs[l]
    ensures KeptOf(cs[..j], gone + {cs[i]}) == KeptOf(cs[..j], gone)
  {
    if j > 0 {
      KeptSameTo(cs, j - 1, i, gone);
      KeptNext(cs, j - 1, gone);
      KeptNext(cs, j - 1, gone + {cs[i]});
    }
  }

  /** The clauses have the same literals. */
  ghost predicate SameLits(ca: seq<Clause>, ca2: seq<Clause>) {
    |ca2| == |ca| && forall c :: 0 <= c < |ca| ==> ca2[c].lits == ca[c].lits && ca2[c].learnt == ca[c].learnt
  }

  ghost predicate HasTrue(assigns: seq<LBool>, lits: seq<Lit>) {
    exists k :: 0 <= k < |lits| && lits[k].v < |assigns| && Value(assigns, lits[k]) == LTrue
  }

  ghost function SatisfiedRefs(assigns: seq<LBool>, ca: seq<Clause>, cs: seq<nat>): set<nat> {
    set c | c in cs && c < |ca| && HasTrue(assigns, ca[c].lits)
  }

  lemma SameSatisfied(assigns: seq<LBool>, ca: seq<Clause>, ca2: seq<Clause>, cs: seq<nat>)
    requires SameLits(ca, ca2)
    ensures SatisfiedRefs(assigns, ca, cs) == SatisfiedRefs(assigns, ca2, cs)
  {}

  /** The first `i` references have been tested, and the satisfied ones dropped. */
  ghost predicate Sifting(assigns: seq<LBool>, ca: seq<Clause>, cs: seq<nat>, i: nat, kept: seq<nat>) {
    i <= |cs| && kept == KeptOf(cs[..i], SatisfiedRefs(assigns, ca, cs))
  }

  lemma SiftingBegins(assigns: seq<LBool>, ca: seq<Clause>, cs: seq<nat>)
    ensures SameLits(ca, ca) && Sifting(assigns, ca, cs, 0, [])
  {}

  lemma SiftStep(assigns: seq<LBool>, ca: seq<Clause>, ca2: seq<Clause>, cs: seq<nat>, i: nat, kept: seq<nat>, r: bool)
    requires Sifting(assigns, ca, cs, i, kept) && i < |cs| && SameLits(ca, ca2) && cs[i] < |ca2|
    requires forall k :: 0 <= k < |ca2[cs[i]].lits| ==> ca2[cs[i]].lits[k].v < |assigns|
    requires r <==> exists k :: 0 <= k < |ca2[cs[i]].lits| && Value(assigns, ca2[cs[i]].lits[k]) == LTrue
    ensures Sifting(assigns, ca, cs, i + 1, if r then kept else kept + [cs[i]])
  {
    KeptNext(cs, i, SatisfiedRefs(assigns, ca, cs));
    assert r <==> HasTrue(assigns, ca[cs[i]].lits);
  }

  lemma SiftingDone(assigns: seq<LBool>, ca: seq<Clause>, cs: seq<nat>, kept: seq<nat>)
    requires Sifting(assigns, ca, cs, |cs|, kept)
    ensures kept == KeptOf(cs, SatisfiedRefs(assigns, ca, cs))
  {
    assert cs[..|cs|] == cs;
  }

  /** Neither binary nor the reason of an assignment. */
  ghost predicate Removable(a: Asg, ca: seq<Clause>, cr: nat) {
    cr < |ca| && |ca[cr].lits| > 2 && ca[cr].lits[0].v < |a.assigns| == |a.reason| && !Locked(a, ca, cr)
  }

  /** The first `i` of the sorted learnt clauses have been decided about: the lower half goes unless
      binary or locked, nothing binary or locked goes. */
  ghost predicate Thinning(a: Asg, ca: seq<Clause>, cs: seq<nat>, i: nat, kept: seq<nat>, gone: set<nat>) {
    && i <= |cs| && (forall k, l :: 0 <= k < l < |cs| ==> cs[k] != cs[l])
    && kept == KeptOf(cs[..i], gone) && (forall g :: g in gone ==> g in cs[..i])
    && (forall k :: 0 <= k < i && cs[k] in gone ==> Removable(a, ca, cs[k]))
    && (forall k :: 0 <= k < i && k < |cs| / 2 && Removable(a, ca, cs[k]) ==> cs[k] in gone)
  }

  lemma ThinningBegins(a: Asg, ca: seq<Clause>, cs: seq<nat>)
    requires forall k, l :: 0 <= k < l < |cs| ==> cs[k] != cs[l]
    ensures Thinning(a, ca, cs, 0, [], {})
  {}

  lemma ThinningStep(a: Asg, ca: seq<Clause>, ca2: seq<Clause>, cs: seq<nat>, i: nat, kept: seq<nat>, gone: set<nat>, stays: bool)
    requires Thinning(a, ca, cs, i, kept, gone) && i < |cs| && SameLits(ca, ca2)
    requires !stays ==> Removable(a, ca2, cs[i])
    requires i < |cs| / 2 && Removable(a, ca2, cs[i]) ==> !stays
    ensures Thinning(a, ca, cs, i + 1, if stays then kept + [cs[i]] else kept, if stays then gone else gone + {cs[i]})
  {
    hide Removable;
    SameRemovable(a, ca, ca2, cs);
    var gone2 := if stays then gone else gone + {cs[i]};
    KeptSame(cs, i, gone);
    KeptNext(cs, i, gone2);
    assert cs[..i + 1] == cs[..i] + [cs[i]];
    assert cs[i] !in cs[..i];
  }

  lemma ThinningDone(a: Asg, ca: seq<Clause>, ca2: seq<Clause>, cs: seq<nat>, kept: seq<nat>, gone: set<nat>)
    requires Thinning(a, ca, cs, |cs|, kept, gone) && SameLits(ca, ca2)
    ensures Thinning(a, ca2, cs, |cs|, kept, gone)
  {
    hide Removable, KeptOf;
    SameRemovable(a, ca, ca2, cs);
  }

  lemma SameSelf(ca: seq<Clause>)
    ensures SameLits(ca, ca)
  {}

  lemma SameTrans(ca: seq<Clause>, ca2: seq<Clause>, ca3: seq<Clause>)
    requires SameLits(ca, ca2) && SameLits(ca2, ca3)
    ensures SameLits(ca, ca3)
  {}

  lemma SameRemovable(a: Asg, ca: seq<Clause>, ca2: seq<Clause>, cs: seq<nat>)
    requires SameLits(ca, ca2)
    ensures forall i :: 0 <= i < |cs| ==> (Removable(a, ca, cs[i]) <==> Removable(a, ca2, cs[i]))
  {}

  /** What is known of a listed clause. */
  lemma ListedClause(x: Snapshot, bound: nat, learnt: bool, kept: seq<nat>, rest: seq<nat>)
    requires Whole(WithList(x, learnt, kept + rest), bound) && rest != []
    ensures TrailOk(x.s.a) && |x.s.a.reason| == |x.s.a.level| == NumVars(x)
    ensures Live(x.s.ca, rest[0]) && GoodLits(NumVars(x), x.s.ca[rest[0]].lits) && x.s.ca[rest[0]].learnt == learnt
  {
    RemoveListed(x.s.ca, kept, rest, learnt);
  }

  lemma WholePermuted(x: Snapshot, bound: nat, cs: seq<nat>)
    requires Whole(x, bound) && (forall c :: c in cs <==> c in x.learnts) && forall i, j :: 0 <= i < j < |cs| ==> cs[i] != cs[j]
    ensures Whole(WithList(x, true, cs), bound)
  {
    assert Enumerates(x.s.ca, cs, true);
    assert WholeParts(x.(learnts := cs), bound);
  }

  lemma LearntsDistinct(x: Snapshot, bound: nat)
    requires Whole(x, bound)
    ensures LongEnough(x.s.ca, x.learnts)
    ensures forall i, j :: 0 <= i < j < |x.learnts| ==> x.learnts[i] != x.learnts[j]
  {
    var cs := x.learnts;
    forall i | 0 <= i < |cs| ensures cs[i] < |x.s.ca| && |x.s.ca[cs[i]].lits| >= 2 {
      assert cs[i] in cs;
      assert Live(x.s.ca, cs[i]) && GoodLits(NumVars(x), x.s.ca[cs[i]].lits);
    }
  }

  /** Comes before in the order of the thinning: long clauses before binary ones, then by activity. */
  predicate ReduceDbLt(ca: seq<Clause>, x: nat, y: nat) {
    x < |ca| && y < |ca| && |ca[x].lits| > 2 && (|ca[y].lits| == 2 || ca[x].act < ca[y].act)
  }

  function InsertRef(ca: seq<Clause>, cs: seq<nat>, c: nat): seq<nat> {
    if cs == [] || ReduceDbLt(ca, c, cs[0]) then [c] + cs else [cs[0]] + InsertRef(ca, cs[1..], c)
  }

  lemma {:induction false} InsertRefOk(ca: seq<Clause>, cs: seq<nat>, c: nat)
    requires c !in cs && forall i, j :: 0 <= i < j < |cs| ==> cs[i] != cs[j]
    ensures var r := InsertRef(ca, cs, c);
            (forall d :: d in r <==> d == c || d in cs) && forall i, j :: 0 <= i < j < |r| ==> r[i] != r[j]
  {
    if cs == [] || ReduceDbLt(ca, c, cs[0]) {
    } else {
      assert cs == [cs[0]] + cs[1..];
      InsertRefOk(ca, cs[1..], c);
      assert cs[0] !in InsertRef(ca, cs[1..], c);
    }
  }

  /** Binary clauses last, the others by activity. */
  ghost predicate InReduceOrder(ca: seq<Clause>, cs: seq<nat>) {
    forall i, j :: 0 <= i < j < |cs| ==> !ReduceDbLt(ca, cs[j], cs[i])
  }

  /** The order in terms of lengths and activities. */
  ghost predicate LowestFirst(ca: seq<Clause>, cs: seq<nat>) {
    && (forall i :: 0 <= i < |cs| ==> cs[i] < |ca|)
    && forall i, j :: 0 <= i < j < |cs| && |ca[cs[j]].lits| > 2 ==> |ca[cs[i]].lits| > 2 && ca[cs[i]].act <= ca[cs[j]].act
  }

  ghost predicate LongEnough(ca: seq<Clause>, cs: seq<nat>) {
    forall i :: 0 <= i < |cs| ==> cs[i] < |ca| && |ca[cs[i]].lits| >= 2
  }

  lemma {:induction false} InsertRefMembers(ca: seq<Clause>, cs: seq<nat>, c: nat)
    ensures forall d :: d in InsertRef(ca, cs, c) ==> d == c || d in cs
  {
    if cs != [] && !ReduceDbLt(ca, c, cs[0]) {
      InsertRefMembers(ca, cs[1..], c);
    }
  }

  lemma InsertRefLong(ca: seq<Clause>, cs: seq<nat>, c: nat)
    requires c < |ca| && |ca[c].lits| >= 2 && LongEnough(ca, cs)
    ensures LongEnough(ca, InsertRef(ca, cs, c))
  {
    InsertRefMembers(ca, cs, c);
    var r := InsertRef(ca, cs, c);
    forall i | 0 <= i < |r| ensures r[i] < |ca| && |ca[r[i]].lits| >= 2 {
      assert r[i] in r;
    }
  }

  /** What comes first and what is in order behind it. */
  lemma OrderedCons(ca: seq<Clause>, c: nat, cs: seq<nat>)
    requires InReduceOrder(ca, cs) && forall d :: d in cs ==> !ReduceDbLt(ca, d, c)
    ensures InReduceOrder(ca, [c] + cs)
  {
    var r := [c] + cs;
    forall i, j | 0 <= i < j < |r| ensures !ReduceDbLt(ca, r[j], r[i]) {
      assert r[j] == cs[j - 1];
      if i > 0 {
        assert r[i] == cs[i - 1];
      }
    }
  }

  /** Whatever precedes `c` precedes everything that does not precede `c`. */
  lemma ReduceOrderTrans(ca: seq<Clause>, b: nat, c: nat, d: nat)
    requires d < |ca| && b < |ca| && c < |ca| && |ca[d].lits| >= 2 && |ca[b].lits| >= 2 && |ca[c].lits| >= 2
    requires ReduceDbLt(ca, c, b) && !ReduceDbLt(ca, d, b)
    ensures !ReduceDbLt(ca, d, c)
  {}

  lemma {:induction false} InsertRefOrdered(ca: seq<Clause>, cs: seq<nat>, c: nat)
    requires c < |ca| && |ca[c].lits| >= 2 && LongEnough(ca, cs) && InReduceOrder(ca, cs)
    ensures InReduceOrder(ca, InsertRef(ca, cs, c))
  {
    hide ReduceDbLt;
    if cs == [] {
      OrderedCons(ca, c, cs);
    } else if ReduceDbLt(ca, c, cs[0]) {
      forall j | 0 <= j < |cs| ensures !ReduceDbLt(ca, cs[j], c) {
        ReduceOrderSelf(ca, cs[0]);
        ReduceOrderTrans(ca, cs[0], c, cs[j]);
      }
      OrderedCons(ca, c, cs);
    } else {
      InsertRefOrdered(ca, cs[1..], c);
      InsertRefMembers(ca, cs[1..], c);
      OrderedCons(ca, cs[0], InsertRef(ca, cs[1..], c));
    }
  }

  lemma ReduceOrderSelf(ca: seq<Clause>, c: nat)
    requires c < |ca| && |ca[c].lits| >= 2
    ensures !ReduceDbLt(ca, c, c)
  {}

  /** The sorted list is in order: the half to be removed has the lowest activities. */
  lemma {:induction false} SortRefsOrdered(ca: seq<Clause>, cs: seq<nat>)
    requires LongEnough(ca, cs)
    ensures LongEnough(ca, SortRefs(ca, cs)) && InReduceOrder(ca, SortRefs(ca, cs))
    ensures LowestFirst(ca, SortRefs(ca, cs))
  {
    if cs != [] {
      SortRefsOrdered(ca, cs[..|cs| - 1]);
      InsertRefLong(ca, SortRefs(ca, cs[..|cs| - 1]), cs[|cs| - 1]);
      InsertRefOrdered(ca, SortRefs(ca, cs[..|cs| - 1]), cs[|cs| - 1]);
    }
  }

  /** The learnt clauses in the order of the thinning. */
  function SortRefs(ca: seq<Clause>, cs: seq<nat>): seq<nat> {
    if cs == [] then [] else InsertRef(ca, SortRefs(ca, cs[..|cs| - 1]), cs[|cs| - 1])
  }

  lemma {:induction false} SortRefsOk(ca: seq<Clause>, cs: seq<nat>)
    requires forall i, j :: 0 <= i < j < |cs| ==> cs[i] != cs[j]
    ensures forall d :: d in SortRefs(ca, cs) <==> d in cs
    ensures forall i, j :: 0 <= i < j < |SortRefs(ca, cs)| ==> SortRefs(ca, cs)[i] != SortRefs(ca, cs)[j]
  {
    if cs != [] {
      var front, last := cs[..|cs| - 1], cs[|cs| - 1];
      assert cs == front + [last];
      assert last !in front;
      SortRefsOk(ca, front);
      var r := SortRefs(ca, front);
      assert last !in r;
      InsertRefOk(ca, r, last);
    }
  }

  // ----- deciding -----

  lemma WholeDecide(x: Snapshot, p: Lit, o: Order)
    requires Whole(x, |x.s.a.trail|) && VarOk(x.s.a, p) && Value(x.s.a.assigns, p) == LUndef
    requires OrderOk(x.decision, x.s.a.assigns[p.v := if p.sign then LFalse else LTrue], o)
    ensures |x.s.a.reason| == |x.s.a.level| == |x.s.a.pos| == NumVars(x)
    ensures Whole(x.(s := x.s.(a := Enqueued(NewLevel(x.s.a), p, NoRef)), order := o), |x.s.a.trail|)
    ensures |x.s.a.trail| < NumVars(x)
  {
    var bound := |x.s.a.trail|;
    NewLevelInv(x.s, x.formula, bound);
    var s1 := x.s.(a := NewLevel(x.s.a));
    EnqueueInv(s1, x.formula, bound, p, NoRef);
    TrailBound(x.s.a);
    assert x.s.a.assigns[p.v] == LUndef;
    assert WholeParts(x.(s := x.s.(a := Enqueued(NewLevel(x.s.a), p, NoRef)), order := o), bound);
  }

  lemma WholeOrdered(x: Snapshot, bound: nat, o: Order)
    requires Whole(x, bound) && OrderOk(x.decision, x.s.a.assigns, o)
    ensures Whole(x.(order := o), bound)
  {
    assert WholeParts(x.(order := o), bound);
  }

  /** The heap without an assigned or ineligible variable. */
  lemma OrderRemove(decision: seq<bool>, assigns: seq<LBool>, o: Order, o2: Order, v: nat, b: LBool)
    requires OrderOk(decision, assigns, o) && HeapOk(o2) && o2.activity == o.activity && |o2.indices| == |o.indices|
    requires OrderHeap.Members(o2.heap) == OrderHeap.Members(o.heap) - {v} && v < |assigns|
    ensures assigns[v] != LUndef || !decision[v] ==> OrderOk(decision, assigns, o2)
    ensures b != LUndef ==> OrderOk(decision, assigns[v := b], o2)
  {}

  lemma OrderAssigned(decision: seq<bool>, assigns: seq<LBool>, o: Order, v: nat, b: LBool)
    requires OrderOk(decision, assigns, o) && v < |assigns| && b != LUndef
    ensures OrderOk(decision, assigns[v := b], o)
  {}

  // ----- answers -----

  function BoolModel(assigns: seq<LBool>): seq<bool> {
    seq(|assigns|, v requires 0 <= v < |assigns| => assigns[v] == LTrue)
  }

  /** When every variable has a value the assignment is a model of all added clauses. */
  lemma WholeModel(x: Snapshot)
    requires Whole(x, |x.s.a.trail|) && forall v :: 0 <= v < NumVars(x) ==> x.s.a.assigns[v] != LUndef
    ensures Models(BoolModel(x.s.a.assigns), NumVars(x), x.formula)
  {
    FullModel(x.s, x.formula, BoolModel(x.s.a.assigns));
  }

  /** A clause with a true literal may be removed at level 0. */
  lemma RootRemovable(x: Snapshot, cr: nat)
    requires TrailOk(x.s.a) && x.s.a.lim == [] && Live(x.s.ca, cr) && GoodLits(NumVars(x), x.s.ca[cr].lits)
    requires exists k :: 0 <= k < |x.s.ca[cr].lits| && Value(x.s.a.assigns, x.s.ca[cr].lits[k]) == LTrue
    ensures MayRemove(x.s, cr)
  {
    var k :| 0 <= k < |x.s.ca[cr].lits| && Value(x.s.a.assigns, x.s.ca[cr].lits[k]) == LTrue;
    RootFixed(x.s.a, x.s.ca[cr].lits[k]);
  }

  /** Every clause has a literal that is not false in the (perhaps partial) model. */
  ghost predicate NoneFalse(model: seq<LBool>, f: seq<seq<Lit>>) {
    forall i :: 0 <= i < |f| ==> NotFalse(model, f[i])
  }

  ghost predicate NotFalse(model: seq<LBool>, lits: seq<Lit>) {
    exists k :: 0 <= k < |lits| && lits[k].v < |model| && Value(model, lits[k]) != LFalse
  }

  /** A propagated assignment falsifies no added clause. */
  lemma WholeConsistent(x: Snapshot)
    requires Whole(x, |x.s.a.trail|)
    ensures NoneFalse(x.s.a.assigns, x.formula)
  {
    forall i | 0 <= i < |x.formula| ensures NotFalse(x.s.a.assigns, x.formula[i]) {
      ClauseConsistent(x, x.formula[i], i);
    }
  }

  lemma LiveConsistent(x: Snapshot, cr: nat)
    requires Whole(x, |x.s.a.trail|) && Live(x.s.ca, cr)
    ensures NotFalse(x.s.a.assigns, x.s.ca[cr].lits)
  {
    var c := x.s.ca[cr].lits;
    assert GoodLits(NumVars(x), c);
    Propagated(x, cr, 0);
    if SatAt(x.s.a, c, |x.s.a.lim|) {
      var k :| 0 <= k < |c| && VarOk(x.s.a, c[k]) && Value(x.s.a.assigns, c[k]) == LTrue && x.s.a.level[c[k].v] <= |x.s.a.lim|;
    }
  }

  lemma NotFalseIn(model: seq<LBool>, c: seq<Lit>, lits: seq<Lit>)
    requires NotFalse(model, c) && forall k :: 0 <= k < |c| ==> c[k] in lits
    ensures NotFalse(model, lits)
  {
    var k :| 0 <= k < |c| && c[k].v < |model| && Value(model, c[k]) != LFalse;
    var l :| 0 <= l < |lits| && lits[l] == c[k];
  }

  lemma ClauseConsistent(x: Snapshot, lits: seq<Lit>, i: nat)
    requires Whole(x, |x.s.a.trail|) && i < |x.formula| && lits == x.formula[i]
    ensures NotFalse(x.s.a.assigns, lits)
  {
    assert Covered(x.s.a, x.s.ca, lits) && VarsBelow(lits, NumVars(x));
    if k :| 0 <= k < |lits| && Fixed(x.s.a, lits[k]) {
      assert Value(x.s.a.assigns, lits[k]) != LFalse;
    } else if cr: nat :| Represents(x.s.ca, cr, lits) {
      LiveConsistent(x, cr);
      NotFalseIn(x.s.a.assigns, x.s.ca[cr].lits, lits);
    } else {
      var k, l :| 0 <= k < |lits| && 0 <= l < |lits| && lits[l] == Not(lits[k]);
      assert Value(x.s.a.assigns, lits[k]) != LFalse || Value(x.s.a.assigns, lits[l]) != LFalse;
    }
  }
}
