/** getDisjointInputSet (memin/minimizer.cpp): splitting overlapping input cubes into
    a disjoint alphabet. */
module InputAlphabet {
  import opened Cubes
  import opened Options
  import opened Mealy

  function InputsOf(row: Row): set<Cube> {
    set j | 0 <= j < |row| :: row[j].input
  }

  /** The input cubes of the states among the first `k` that `eqClass` selects. */
  ghost function OriginalsBelow(states: Machine, eqClass: seq<bool>, k: nat): set<Cube>
    requires |states| == |eqClass| && k <= |states|
  {
    if k == 0 then {}
    else OriginalsBelow(states, eqClass, k - 1) + if eqClass[k - 1] then InputsOf(states[k - 1]) else {}
  }

  ghost function Originals(states: Machine, eqClass: seq<bool>): set<Cube>
    requires |states| == |eqClass|
  {
    OriginalsBelow(states, eqClass, |states|)
  }

  lemma {:induction false} OriginalsBelowMembers(states: Machine, eqClass: seq<bool>, k: nat, c: Cube)
    requires |states| == |eqClass| && k <= |states|
    ensures c in OriginalsBelow(states, eqClass, k) <==>
            exists s :: 0 <= s < k && eqClass[s] && c in InputsOf(states[s])
  {
    if k > 0 {
      OriginalsBelowMembers(states, eqClass, k - 1, c);
    }
  }

  function SetOf(q: seq<Cube>): set<Cube> {
    set c | c in q
  }

  ghost predicate AllLength(cubes: set<Cube>, n: nat) {
    forall c :: c in cubes ==> |c| == n
  }

  ghost predicate QueueLength(q: seq<Cube>, n: nat) {
    forall i :: 0 <= i < |q| ==> |q[i]| == n
  }

  ghost predicate InSet(cubes: set<Cube>, w: Word) {
    exists d :: d in cubes && Has(d, w)
  }

  ghost predicate PairwiseDisjointSet(cubes: set<Cube>, n: nat)
    requires AllLength(cubes, n)
  {
    forall c, d :: c in cubes && d in cubes && c != d ==> Disjoint(c, d)
  }

  /** What the result promises: disjoint cubes, each inside or outside every original cube,
      such that every original cube is exactly the union of the members inside it. */
  ghost predicate Alphabet(orig: set<Cube>, ds: set<Cube>, n: nat)
    requires AllLength(orig, n)
  {
    && AllLength(ds, n)
    && PairwiseDisjointSet(ds, n)
    && (forall d, c :: d in ds && c in orig ==> Subset(d, c) || Disjoint(d, c))
    && (forall c, w :: c in orig && Has(c, w) ==> exists d :: d in ds && Has(d, w) && Subset(d, c))
    && (forall d :: d in ds ==> exists c :: c in orig && Subset(d, c))
  }

  // ----- the worklist invariant -----

  /** Word `w` of original cube `c` still waits in the queue, inside a piece of `c`. */
  ghost predicate Pending(q: seq<Cube>, n: nat, w: Word, c: Cube)
    requires QueueLength(q, n) && |c| == n
  {
    exists i :: 0 <= i < |q| && Has(q[i], w) && Subset(q[i], c)
  }

  ghost predicate Covered(orig: set<Cube>, ds: set<Cube>, q: seq<Cube>, n: nat)
    requires AllLength(orig, n) && QueueLength(q, n)
  {
    forall c, w :: c in orig && Has(c, w) ==> InSet(ds, w) || Pending(q, n, w, c)
  }

  /** If a member is cut by an original cube, the part inside is still pending. */
  ghost predicate CutsPending(orig: set<Cube>, ds: set<Cube>, q: seq<Cube>, n: nat)
    requires AllLength(orig, n) && QueueLength(q, n)
  {
    forall c, d, u, v ::
      c in orig && d in ds && Has(d, u) && Has(d, v) && Has(c, u) && !Has(c, v) ==> Pending(q, n, u, c)
  }

  ghost predicate Within(orig: set<Cube>, d: Cube, n: nat)
    requires AllLength(orig, n) && |d| == n
  {
    exists c :: c in orig && Subset(d, c)
  }

  ghost predicate Inv(orig: set<Cube>, ds: set<Cube>, q: seq<Cube>, n: nat)
  {
    && AllLength(orig, n) && AllLength(ds, n) && QueueLength(q, n)
    && PairwiseDisjointSet(ds, n)
    && Covered(orig, ds, q, n)
    && CutsPending(orig, ds, q, n)
    && (forall d :: d in ds ==> Within(orig, d, n))
    && (forall i :: 0 <= i < |q| ==> Within(orig, q[i], n))
  }

  lemma PendingPop(q: seq<Cube>, n: nat, w: Word, c: Cube)
    requires QueueLength(q, n) && |c| == n && |q| > 0
    requires Pending(q, n, w, c)
    requires !(Has(q[0], w) && Subset(q[0], c))
    ensures QueueLength(q[1..], n) && Pending(q[1..], n, w, c)
  {
    var i :| 0 <= i < |q| && Has(q[i], w) && Subset(q[i], c);
    assert q[1..][i - 1] == q[i];
  }

  lemma PendingGrows(q: seq<Cube>, more: seq<Cube>, n: nat, w: Word, c: Cube)
    requires QueueLength(q, n) && QueueLength(more, n) && |c| == n
    ensures QueueLength(q + more, n)
    ensures Pending(q, n, w, c) || Pending(more, n, w, c) ==> Pending(q + more, n, w, c)
  {
    if Pending(q, n, w, c) {
      var i :| 0 <= i < |q| && Has(q[i], w) && Subset(q[i], c);
      assert (q + more)[i] == q[i];
    } else if Pending(more, n, w, c) {
      var i :| 0 <= i < |more| && Has(more[i], w) && Subset(more[i], c);
      assert (q + more)[|q| + i] == more[i];
    }
  }

  lemma SubsetTrans(a: Cube, b: Cube, c: Cube)
    requires |a| == |b| == |c| && Subset(a, b) && Subset(b, c)
    ensures Subset(a, c)
  {}

  lemma PieceInside(cur: Cube, d: Cube, i: nat)
    requires |cur| == |d| && !Disjoint(cur, d) && i < |Diff(cur, d)|
    ensures Subset(Diff(cur, d)[i], cur)
    ensures Disjoint(Diff(cur, d)[i], d)
  {
    var p := Diff(cur, d)[i];
    forall w | Has(p, w) ensures Has(cur, w) && !Has(d, w) {
      assert InSome(Diff(cur, d), w);
      DiffWords(cur, d, w);
    }
    SubsetMeansInclusion(p, cur);
    DisjointMeansNoCommonWord(p, d);
  }

  /** The queue after popping `cur` and pushing the part of it outside `d`. */
  function Pushed(q: seq<Cube>, cur: Cube, d: Cube): seq<Cube>
    requires |cur| == |d| && |q| > 0
  {
    q[1..] + Diff(cur, d)
  }

  /** What was pending before the pop is pending after it, except words of the member `d`. */
  lemma PendingPushed(q: seq<Cube>, d: Cube, n: nat, w: Word, c: Cube)
    requires QueueLength(q, n) && |q| > 0 && |d| == n && |c| == n && !Disjoint(q[0], d)
    requires Pending(q, n, w, c) && !Has(d, w)
    ensures QueueLength(Pushed(q, q[0], d), n) && Pending(Pushed(q, q[0], d), n, w, c)
  {
    var pieces := Diff(q[0], d);
    if Has(q[0], w) && Subset(q[0], c) {
      DiffWords(q[0], d, w);
      var i :| 0 <= i < |pieces| && Has(pieces[i], w);
      PieceInside(q[0], d, i);
      SubsetTrans(pieces[i], q[0], c);
      assert Pending(pieces, n, w, c);
    } else {
      PendingPop(q, n, w, c);
    }
    PendingGrows(q[1..], pieces, n, w, c);
  }

  /** No member overlaps `cur`: it becomes a member itself. */
  lemma StepFresh(orig: set<Cube>, ds: set<Cube>, q: seq<Cube>, n: nat)
    requires Inv(orig, ds, q, n) && |q| > 0
    requires forall d :: d in ds ==> Disjoint(d, q[0])
    ensures Inv(orig, ds + {q[0]}, q[1..], n)
  {
    var cur, ds', q' := q[0], ds + {q[0]}, q[1..];
    assert AllLength(ds', n) && QueueLength(q', n);
    forall d | d in ds ensures Disjoint(cur, d) {
      var k :| 0 <= k < n && Clash(d[k], cur[k]);
      assert Clash(cur[k], d[k]);
    }
    forall w | Has(cur, w) ensures !InSet(ds, w) {
      forall d | d in ds ensures !Has(d, w) {
        DisjointMeansNoCommonWord(d, cur);
      }
    }
    forall c, w | c in orig && Has(c, w) ensures InSet(ds', w) || Pending(q', n, w, c) {
      if Has(cur, w) {
        assert cur in ds';
      } else if InSet(ds, w) {
        var d :| d in ds && Has(d, w);
        assert d in ds';
      } else {
        PendingPop(q, n, w, c);
      }
    }
    forall c, d, u, v | c in orig && d in ds' && Has(d, u) && Has(d, v) && Has(c, u) && !Has(c, v)
      ensures Pending(q', n, u, c)
    {
      assert Subset(cur, c) ==> d != cur by {
        SubsetMeansInclusion(cur, c);
      }
      if d == cur {
        assert !InSet(ds, u);
        PendingPop(q, n, u, c);
      } else {
        assert Pending(q, n, u, c);
        assert !Has(cur, u);
        PendingPop(q, n, u, c);
      }
    }
    forall i | 0 <= i < |q'| ensures Within(orig, q'[i], n) {
      assert q'[i] == q[i + 1];
    }
  }

  /** `cur` is already a member, or lies in the queue a second time. */
  lemma StepKnown(orig: set<Cube>, ds: set<Cube>, q: seq<Cube>, n: nat)
    requires Inv(orig, ds, q, n) && |q| > 0 && q[0] in ds
    ensures Inv(orig, ds, q[1..], n)
  {
    var cur := q[0];
    var q' := q[1..];
    assert QueueLength(q', n);
    forall c, w | c in orig && Has(c, w) ensures InSet(ds, w) || Pending(q', n, w, c) {
      if !InSet(ds, w) {
        PendingPop(q, n, w, c);
      }
    }
    forall c, d, u, v | c in orig && d in ds && Has(d, u) && Has(d, v) && Has(c, u) && !Has(c, v)
      ensures Pending(q', n, u, c)
    {
      if Has(cur, u) && Subset(cur, c) {
        SubsetMeansInclusion(cur, c);
        assert d != cur;
        DisjointMeansNoCommonWord(d, cur);
        assert false;
      }
      PendingPop(q, n, u, c);
    }
    forall i | 0 <= i < |q'| ensures Within(orig, q'[i], n) {
      assert q'[i] == q[i + 1];
    }
  }

  /** Member `d` lies inside `cur`: only the rest of `cur` is pushed. */
  lemma StepInside(orig: set<Cube>, ds: set<Cube>, q: seq<Cube>, n: nat, d: Cube)
    requires Inv(orig, ds, q, n) && |q| > 0 && d in ds && !Disjoint(d, q[0])
    requires Subset(d, q[0])
    ensures Inv(orig, ds, Pushed(q, q[0], d), n)
  {
    var cur, q' := q[0], Pushed(q, q[0], d);
    NotDisjointSym(d, cur);
    assert QueueLength(q', n);
    forall c, w | c in orig && Has(c, w) ensures InSet(ds, w) || Pending(q', n, w, c) {
      if !InSet(ds, w) {
        PendingPushed(q, d, n, w, c);
      }
    }
    forall c, e, u, v | c in orig && e in ds && Has(e, u) && Has(e, v) && Has(c, u) && !Has(c, v)
      ensures Pending(q', n, u, c)
    {
      assert Pending(q, n, u, c);
      if e == d {
        if Subset(cur, c) {
          SubsetTrans(d, cur, c);
          SubsetMeansInclusion(d, c);
          assert false;
        }
        PendingPop(q, n, u, c);
        PendingGrows(q[1..], Diff(cur, d), n, u, c);
      } else {
        DisjointMeansNoCommonWord(e, d);
        PendingPushed(q, d, n, u, c);
      }
    }
    PushedWithin(orig, q, n, d);
  }

  lemma PushedWithin(orig: set<Cube>, q: seq<Cube>, n: nat, d: Cube)
    requires AllLength(orig, n) && QueueLength(q, n) && |q| > 0 && |d| == n && !Disjoint(q[0], d)
    requires forall i :: 0 <= i < |q| ==> Within(orig, q[i], n)
    ensures QueueLength(Pushed(q, q[0], d), n)
    ensures forall i :: 0 <= i < |Pushed(q, q[0], d)| ==> Within(orig, Pushed(q, q[0], d)[i], n)
  {
    var q' := Pushed(q, q[0], d);
    assert QueueLength(q', n);
    forall i | 0 <= i < |q'| ensures Within(orig, q'[i], n) {
      if i < |q| - 1 {
        assert q'[i] == q[i + 1];
      } else {
        var k := i - (|q| - 1);
        assert q'[i] == Diff(q[0], d)[k];
        PieceInside(q[0], d, k);
        var c :| c in orig && Subset(q[0], c);
        SubsetTrans(q'[i], q[0], c);
      }
    }
  }

  lemma NotDisjointSym(a: Cube, b: Cube)
    requires |a| == |b|
    ensures Disjoint(a, b) <==> Disjoint(b, a)
  {
    if Disjoint(a, b) {
      var k :| 0 <= k < |a| && Clash(a[k], b[k]);
      assert Clash(b[k], a[k]);
    }
    if Disjoint(b, a) {
      var k :| 0 <= k < |a| && Clash(b[k], a[k]);
      assert Clash(a[k], b[k]);
    }
  }

  /** The members after `d` is replaced by its part inside `cur` and its pieces outside. */
  function SplitMember(ds: set<Cube>, d: Cube, cur: Cube): set<Cube>
    requires |d| == |cur|
  {
    ds - {d} + {Intersect(d, cur)} + (set p | p in Diff(d, cur))
  }

  /** Every new member is an old one, the part of `d` inside `cur`, or a part of `d` outside it. */
  lemma NewMember(ds: set<Cube>, n: nat, d: Cube, cur: Cube, e: Cube)
    requires AllLength(ds, n) && d in ds && |cur| == n && !Disjoint(d, cur)
    requires e in SplitMember(ds, d, cur)
    ensures |e| == n
    ensures (e in ds && e != d)
         || (Subset(e, d) && Subset(e, cur) && e == Intersect(d, cur))
         || (Subset(e, d) && Disjoint(e, cur) && e in Diff(d, cur))
  {
    if e in ds && e != d {
    } else if e == Intersect(d, cur) {
      forall w | Has(e, w) ensures Has(d, w) && Has(cur, w) {
        IntersectMeansBoth(d, cur, w);
      }
      SubsetMeansInclusion(e, d);
      SubsetMeansInclusion(e, cur);
    } else {
      var i :| 0 <= i < |Diff(d, cur)| && Diff(d, cur)[i] == e;
      PieceInside(d, cur, i);
    }
  }

  lemma SplitKeepsWords(ds: set<Cube>, n: nat, d: Cube, cur: Cube, w: Word)
    requires AllLength(ds, n) && d in ds && |cur| == n && !Disjoint(d, cur)
    requires InSet(ds, w)
    ensures InSet(SplitMember(ds, d, cur), w)
  {
    var e :| e in ds && Has(e, w);
    if e != d {
      assert e in SplitMember(ds, d, cur);
    } else {
      IntersectMeansBoth(d, cur, w);
      DiffWords(d, cur, w);
      if Has(cur, w) {
        assert Intersect(d, cur) in SplitMember(ds, d, cur);
      } else {
        var i :| 0 <= i < |Diff(d, cur)| && Has(Diff(d, cur)[i], w);
        assert Diff(d, cur)[i] in SplitMember(ds, d, cur);
      }
    }
  }

  lemma SplitStaysDisjoint(ds: set<Cube>, n: nat, d: Cube, cur: Cube)
    requires AllLength(ds, n) && PairwiseDisjointSet(ds, n) && d in ds && |cur| == n && !Disjoint(d, cur)
    ensures AllLength(SplitMember(ds, d, cur), n) && PairwiseDisjointSet(SplitMember(ds, d, cur), n)
  {
    var ds' := SplitMember(ds, d, cur);
    forall e | e in ds' ensures |e| == n {
      NewMember(ds, n, d, cur, e);
    }
    forall e, f | e in ds' && f in ds' && e != f ensures Disjoint(e, f) {
      NewMember(ds, n, d, cur, e);
      NewMember(ds, n, d, cur, f);
      if e in Diff(d, cur) && f in Diff(d, cur) {
        DiffFromDisjoint(d, cur, 0);
        var i :| 0 <= i < |Diff(d, cur)| && Diff(d, cur)[i] == e;
        var j :| 0 <= j < |Diff(d, cur)| && Diff(d, cur)[j] == f;
        NotDisjointSym(e, f);
      } else {
        DisjointByWords(e, f);
        forall w | Has(e, w) ensures !Has(f, w) {
          SubsetMeansInclusion(e, d);
          SubsetMeansInclusion(f, d);
          SubsetMeansInclusion(e, cur);
          SubsetMeansInclusion(f, cur);
          DisjointMeansNoCommonWord(e, cur);
          DisjointMeansNoCommonWord(f, cur);
          if e in ds && e != d && (f !in ds || f == d) {
            DisjointMeansNoCommonWord(e, d);
          } else if f in ds && f != d && (e !in ds || e == d) {
            DisjointMeansNoCommonWord(f, d);
          } else if e in ds && f in ds {
            DisjointMeansNoCommonWord(e, f);
          }
        }
      }
    }
  }

  lemma DisjointByWords(e: Cube, f: Cube)
    requires |e| == |f|
    ensures (forall w :: Has(e, w) ==> !Has(f, w)) ==> Disjoint(e, f)
  {
    if !Disjoint(e, f) {
      var w := CommonWord(e, f);
    }
  }

  /** A member that `cur` cuts is split; the part of `cur` outside it is pushed. If `cur` lies
      inside the member nothing is left to push. */
  lemma StepSplit(orig: set<Cube>, ds: set<Cube>, q: seq<Cube>, n: nat, d: Cube)
    requires Inv(orig, ds, q, n) && |q| > 0 && d in ds && !Disjoint(d, q[0])
    ensures Inv(orig, SplitMember(ds, d, q[0]), Pushed(q, q[0], d), n)
  {
    var cur, ds', q' := q[0], SplitMember(ds, d, q[0]), Pushed(q, q[0], d);
    NotDisjointSym(d, cur);
    SplitStaysDisjoint(ds, n, d, cur);
    PushedWithin(orig, q, n, d);
    forall c, w | c in orig && Has(c, w) ensures InSet(ds', w) || Pending(q', n, w, c) {
      if InSet(ds, w) {
        SplitKeepsWords(ds, n, d, cur, w);
      } else {
        PendingPushed(q, d, n, w, c);
      }
    }
    forall c, e, u, v | c in orig && e in ds' && Has(e, u) && Has(e, v) && Has(c, u) && !Has(c, v)
      ensures Pending(q', n, u, c)
    {
      SplitCutsPending(orig, ds, q, n, d, c, e, u, v);
    }
    forall e | e in ds' ensures Within(orig, e, n) {
      NewMember(ds, n, d, cur, e);
      if !(e in ds && e != d) {
        var c :| c in orig && Subset(d, c);
        SubsetTrans(e, d, c);
      }
    }
  }

  lemma SplitCutsPending(orig: set<Cube>, ds: set<Cube>, q: seq<Cube>, n: nat, d: Cube, c: Cube, e: Cube, u: Word, v: Word)
    requires Inv(orig, ds, q, n) && |q| > 0 && d in ds && !Disjoint(d, q[0]) && !Disjoint(q[0], d)
    requires c in orig && e in SplitMember(ds, d, q[0])
    requires Has(e, u) && Has(e, v) && Has(c, u) && !Has(c, v)
    ensures QueueLength(Pushed(q, q[0], d), n) && Pending(Pushed(q, q[0], d), n, u, c)
  {
    var cur := q[0];
    NewMember(ds, n, d, cur, e);
    if e in ds && e != d {
      DisjointMeansNoCommonWord(e, d);
      PendingPushed(q, d, n, u, c);
    } else {
      SubsetMeansInclusion(e, d);
      assert Pending(q, n, u, c);
      if Has(cur, u) && Subset(cur, c) {
        DisjointMeansNoCommonWord(e, cur);
        assert Subset(e, cur);
        SubsetTrans(e, cur, c);
        SubsetMeansInclusion(e, c);
        assert false;
      }
      PendingPop(q, n, u, c);
      PendingGrows(q[1..], Diff(cur, d), n, u, c);
    }
  }

  /** When nothing is pending, the members form the alphabet. */
  lemma InvDone(orig: set<Cube>, ds: set<Cube>, n: nat)
    requires Inv(orig, ds, [], n)
    ensures Alphabet(orig, ds, n)
  {
    forall d, c | d in ds && c in orig ensures Subset(d, c) || Disjoint(d, c) {
      if !Disjoint(d, c) {
        var u := CommonWord(d, c);
        forall v | Has(d, v) ensures Has(c, v) {
          assert !Pending([], n, u, c);
        }
        SubsetMeansInclusion(d, c);
      }
    }
    forall c, w | c in orig && Has(c, w) ensures exists d :: d in ds && Has(d, w) && Subset(d, c) {
      assert !Pending([], n, w, c);
      var d :| d in ds && Has(d, w);
      DisjointMeansNoCommonWord(d, c);
      assert Subset(d, c);
    }
    forall d | d in ds ensures exists c :: c in orig && Subset(d, c) {
      assert Within(orig, d, n);
    }
  }

  // ----- the algorithm -----

  /** What is left of `cur` outside a member that contains it is nothing. */
  lemma {:induction false} DiffOfSubset(cur: Cube, d: Cube, k: nat)
    requires |cur| == |d| && k <= |cur| && Subset(cur, d)
    ensures DiffFrom(cur, d, k) == []
    decreases |cur| - k
  {
    if k < |cur| {
      DiffOfSubset(cur, d, k + 1);
    }
  }

  /** The cubes of the first selected row start as members; everything is still queued. */
  lemma InvStart(orig: set<Cube>, ds: set<Cube>, q: seq<Cube>, n: nat)
    requires AllLength(orig, n) && QueueLength(q, n)
    requires ds <= orig && PairwiseDisjointSet(ds, n)
    requires orig == SetOf(q)
    ensures Inv(orig, ds, q, n)
  {
    forall c, w | c in orig && Has(c, w) ensures Pending(q, n, w, c) {
      var i :| 0 <= i < |q| && q[i] == c;
      assert Has(q[i], w) && Subset(q[i], c);
    }
    forall d | d in orig ensures Within(orig, d, n) {
      assert Subset(d, d);
    }
  }

  /** Without don't-care inputs, the set of all inputs is already an alphabet. */
  lemma FullInputsAlphabet(orig: set<Cube>, n: nat)
    requires AllLength(orig, n)
    requires forall c :: c in orig ==> FullySpecified(c)
    ensures Alphabet(orig, orig, n)
  {
    forall c, d | c in orig && d in orig && c != d ensures Disjoint(c, d) {
      FullCubesDisjoint(c, d);
    }
  }

  method CollectInputs(row: Row, queued0: set<Cube>, q0: seq<Cube>, flag0: bool)
      returns (queued: set<Cube>, q: seq<Cube>, flag: bool)
    requires queued0 == SetOf(q0)
    ensures queued == SetOf(q)
    ensures queued == queued0 + InputsOf(row)
    ensures flag <==> flag0 || exists j :: 0 <= j < |row| && !FullySpecified(row[j].input)
  {
    queued, q, flag := queued0, q0, flag0;
    for j := 0 to |row|
      invariant queued == SetOf(q)
      invariant queued == queued0 + set i | 0 <= i < j :: row[i].input
      invariant flag <==> flag0 || exists i :: 0 <= i < j && !FullySpecified(row[i].input)
    {
      var input := row[j].input;
      if !FullySpecified(input) { flag := true; }
      if input !in queued {
        ghost var before := q;
        q := q + [input];
        queued := queued + {input};
        forall c | c in queued ensures exists i :: 0 <= i < |q| && q[i] == c {
          if c == input {
            assert q[|q| - 1] == c;
          } else {
            var i :| 0 <= i < |before| && before[i] == c;
            assert q[i] == c;
          }
        }
      }
    }
  }

  /** Some member that overlaps `cur`, whichever the set iteration meets first. */
  method FindOverlapping(ds: set<Cube>, cur: Cube, ghost n: nat) returns (found: Option<Cube>)
    requires AllLength(ds, n) && |cur| == n
    ensures found.Some? ==> found.value in ds && !Disjoint(found.value, cur)
    ensures found.None? ==> forall d :: d in ds ==> Disjoint(d, cur)
  {
    var todo := ds;
    while todo != {}
      invariant todo <= ds
      invariant forall d :: d in ds - todo ==> Disjoint(d, cur)
    {
      var d :| d in todo;
      if !Disjoint(d, cur) {
        return Some(d);
      }
      todo := todo - {d};
    }
    return None;
  }

  /** The worklist loop. */
  method SplitOverlaps(ghost orig: set<Cube>, ds: set<Cube>, queue: seq<Cube>, ghost n: nat) returns (ret: set<Cube>)
    requires Inv(orig, ds, queue, n)
    ensures Alphabet(orig, ret, n)
  {
    var disjointInputs, remainingInputs := ds, queue;
    while remainingInputs != []
      invariant Inv(orig, disjointInputs, remainingInputs, n)
      decreases TotalWeight(remainingInputs)
    {
      ghost var q := remainingInputs;
      var curInput := remainingInputs[0];
      if curInput in disjointInputs {
        remainingInputs := remainingInputs[1..];
        StepKnown(orig, disjointInputs, q, n);
      } else {
        var found := FindOverlapping(disjointInputs, curInput, n);
        match found
        case None =>
          remainingInputs := remainingInputs[1..];
          StepFresh(orig, disjointInputs, q, n);
          disjointInputs := disjointInputs + {curInput};
        case Some(disjInput) =>
          NotDisjointSym(disjInput, curInput);
          DiffFromLoses(curInput, disjInput, 0);
          TotalWeightConcat(q[1..], Diff(curInput, disjInput));
          if Subset(curInput, disjInput) {
            DiffOfSubset(curInput, disjInput, 0);
            StepSplit(orig, disjointInputs, q, n, disjInput);
            assert Pushed(q, curInput, disjInput) == q[1..];
            remainingInputs := remainingInputs[1..];
            disjointInputs := SplitMember(disjointInputs, disjInput, curInput);
          } else if Subset(disjInput, curInput) {
            StepInside(orig, disjointInputs, q, n, disjInput);
            remainingInputs := remainingInputs[1..] + Diff(curInput, disjInput);
          } else {
            StepSplit(orig, disjointInputs, q, n, disjInput);
            remainingInputs := remainingInputs[1..] + Diff(curInput, disjInput);
            disjointInputs := SplitMember(disjointInputs, disjInput, curInput);
          }
      }
    }
    InvDone(orig, disjointInputs, n);
    ret := disjointInputs;
  }

  /** Queues the inputs of the selected states, each once. */
  method QueueInputs(states: Machine, eqClass: seq<bool>, curS: nat, flag: bool)
      returns (queue: seq<Cube>, nonFullySpecInputFound: bool)
    requires |states| == |eqClass| && curS <= |states|
    requires forall r :: 0 <= r < curS ==> !eqClass[r]
    ensures Originals(states, eqClass) == SetOf(queue)
    ensures !nonFullySpecInputFound ==> forall c :: c in Originals(states, eqClass) ==> FullySpecified(c)
  {
    var alreadyInQueue: set<Cube>;
    alreadyInQueue, queue, nonFullySpecInputFound := {}, [], flag;
    forall c ensures c !in OriginalsBelow(states, eqClass, curS) {
      OriginalsBelowMembers(states, eqClass, curS, c);
    }
    for s := curS to |states|
      invariant alreadyInQueue == SetOf(queue)
      invariant alreadyInQueue == OriginalsBelow(states, eqClass, s)
      invariant !nonFullySpecInputFound ==> forall c :: c in alreadyInQueue ==> FullySpecified(c)
    {
      if eqClass[s] {
        alreadyInQueue, queue, nonFullySpecInputFound :=
          CollectInputs(states[s], alreadyInQueue, queue, nonFullySpecInputFound);
      }
    }
  }

  /** The first state's inputs are taken as members as they are. */
  lemma SeedsDisjoint(row: Row, n: nat)
    requires forall j :: 0 <= j < |row| ==> |row[j].input| == n
    requires Deterministic(row, n)
    ensures AllLength(InputsOf(row), n) && PairwiseDisjointSet(InputsOf(row), n)
  {
    forall c, d | c in InputsOf(row) && d in InputsOf(row) && c != d ensures Disjoint(c, d) {
      var i :| 0 <= i < |row| && row[i].input == c;
      var j :| 0 <= j < |row| && row[j].input == d;
      NotDisjointSym(c, d);
    }
  }

  lemma OriginalsLength(states: Machine, eqClass: seq<bool>, n: nat)
    requires |states| == |eqClass|
    requires forall s, j :: 0 <= s < |states| && 0 <= j < |states[s]| ==> |states[s][j].input| == n
    ensures AllLength(Originals(states, eqClass), n)
  {
    forall c | c in Originals(states, eqClass) ensures |c| == n {
      OriginalsBelowMembers(states, eqClass, |states|, c);
    }
  }

  lemma UnionAbsorbs<T>(a: set<T>, b: set<T>)
    requires a <= b
    ensures a + b == b
  {}

  /** With all inputs full the queue is the alphabet; otherwise overlaps are split. */
  method MembersFrom(ghost orig: set<Cube>, first: Row, remainingInputs: seq<Cube>, nonFullySpecInputFound: bool, ghost n: nat)
      returns (ret: set<Cube>)
    requires AllLength(orig, n) && orig == SetOf(remainingInputs) && InputsOf(first) <= orig
    requires forall j :: 0 <= j < |first| ==> |first[j].input| == n
    requires Deterministic(first, n)
    requires !nonFullySpecInputFound ==> forall c :: c in orig ==> FullySpecified(c)
    ensures Alphabet(orig, ret, n)
  {
    if !nonFullySpecInputFound {
      ret := InputsOf(first) + SetOf(remainingInputs);
      UnionAbsorbs(InputsOf(first), orig);
      FullInputsAlphabet(orig, n);
    } else {
      SeedsDisjoint(first, n);
      InvStart(orig, InputsOf(first), remainingInputs, n);
      ret := SplitOverlaps(orig, InputsOf(first), remainingInputs, n);
    }
  }

  method GetDisjointInputSet(states: Machine, eqClass: seq<bool>, ghost n: nat) returns (ret: set<Cube>)
    requires |states| == |eqClass|
    requires forall s, j :: 0 <= s < |states| && 0 <= j < |states[s]| ==> |states[s][j].input| == n
    requires forall s :: 0 <= s < |states| && eqClass[s] && (forall r :: 0 <= r < s ==> !eqClass[r]) ==>
               Deterministic(states[s], n)
    ensures AllLength(Originals(states, eqClass), n)
    ensures Alphabet(Originals(states, eqClass), ret, n)
  {
    ghost var orig := Originals(states, eqClass);
    OriginalsLength(states, eqClass, n);
    var curS := 0;
    while curS < |states| && !eqClass[curS]
      invariant 0 <= curS <= |states|
      invariant forall r :: 0 <= r < curS ==> !eqClass[r]
    {
      curS := curS + 1;
    }
    if curS >= |states| {
      forall c ensures c !in orig {
        OriginalsBelowMembers(states, eqClass, |states|, c);
      }
      return {};
    }
    var first := states[curS];
    var disjointInputs := InputsOf(first);
    forall c | c in disjointInputs ensures c in orig {
      OriginalsBelowMembers(states, eqClass, |states|, c);
    }
    var flag := exists j :: 0 <= j < |first| && !FullySpecified(first[j].input);
    var remainingInputs, nonFullySpecInputFound := QueueInputs(states, eqClass, curS, flag);
    ret := MembersFrom(orig, first, remainingInputs, nonFullySpecInputFound, n);
  }
}
