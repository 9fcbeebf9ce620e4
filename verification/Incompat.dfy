/** The incompatibility matrix of memin/minimizer.cpp: computePredecessorMap,
    propagateIncompStates and computeIncompMatrix. */
module Incompat {
  import opened Cubes
  import opened Mealy

  // ----- the square matrix, stored row by row -----

  /** `rows` full rows of `n` entries. */
  function Cells(rows: nat, n: nat): nat {
    if rows == 0 then 0 else n + Cells(rows - 1, n)
  }

  function Ai(x: nat, y: nat, n: nat): nat {
    Cells(x, n) + y
  }

  /** The index of memin/DIMACSWriter.h. */
  lemma {:induction false} AiIsRowMajor(x: nat, y: nat, n: nat)
    ensures Ai(x, y, n) == x * n + y
  {
    if x > 0 {
      AiIsRowMajor(x - 1, y, n);
    }
  }

  lemma {:induction false} CellsMonotone(x: nat, z: nat, n: nat)
    requires x <= z
    ensures Cells(x, n) <= Cells(z, n)
    ensures x < z ==> Cells(x, n) + n <= Cells(z, n)
    decreases z
  {
    if x < z {
      CellsMonotone(x, z - 1, n);
    }
  }

  lemma AiInRange(x: nat, y: nat, n: nat)
    requires x < n && y < n
    ensures Ai(x, y, n) < Cells(n, n)
  {
    CellsMonotone(x, n, n);
  }

  lemma AiInjective(x: nat, y: nat, a: nat, b: nat, n: nat)
    requires y < n && b < n && Ai(x, y, n) == Ai(a, b, n)
    ensures x == a && y == b
  {
    if x < a {
      CellsMonotone(x, a, n);
    } else if a < x {
      CellsMonotone(a, x, n);
    }
  }

  lemma {:induction false} AiCovers(i: nat, rows: nat, n: nat) returns (x: nat, y: nat)
    requires i < Cells(rows, n)
    ensures x < rows && y < n && Ai(x, y, n) == i
    decreases rows
  {
    if i < Cells(rows - 1, n) {
      x, y := AiCovers(i, rows - 1, n);
    } else {
      x, y := rows - 1, i - Cells(rows - 1, n);
    }
  }

  predicate Marked(inc: seq<bool>, n: nat, x: nat, y: nat)
    requires |inc| == Cells(n, n) && x < n && y < n
  {
    AiInRange(x, y, n);
    inc[Ai(x, y, n)]
  }

  ghost predicate Symmetric(inc: seq<bool>, n: nat)
    requires |inc| == Cells(n, n)
  {
    forall x, y :: 0 <= x < n && 0 <= y < n && Marked(inc, n, x, y) ==> Marked(inc, n, y, x)
  }

  ghost function Unmarked(inc: seq<bool>): nat {
    if inc == [] then 0 else (if inc[0] then 0 else 1) + Unmarked(inc[1..])
  }

  lemma {:induction false} UnmarkedMonotone(inc0: seq<bool>, inc1: seq<bool>)
    requires |inc0| == |inc1|
    requires forall i :: 0 <= i < |inc0| ==> inc0[i] ==> inc1[i]
    ensures Unmarked(inc1) <= Unmarked(inc0)
    ensures (exists i :: 0 <= i < |inc0| && !inc0[i] && inc1[i]) ==> Unmarked(inc1) < Unmarked(inc0)
  {
    if inc0 != [] {
      UnmarkedMonotone(inc0[1..], inc1[1..]);
      if i :| 0 <= i < |inc0| && !inc0[i] && inc1[i] {
        if i > 0 {
          assert !inc0[1..][i - 1] && inc1[1..][i - 1];
        }
      }
    }
  }

  /** The matrix after marking the pair in both orders. */
  ghost function MarkBoth(inc: seq<bool>, n: nat, x: nat, y: nat): (r: seq<bool>)
    requires |inc| == Cells(n, n) && x < n && y < n
    ensures |r| == |inc|
  {
    AiInRange(x, y, n);
    AiInRange(y, x, n);
    inc[Ai(x, y, n) := true][Ai(y, x, n) := true]
  }

  lemma MarkBothMarks(inc: seq<bool>, n: nat, x: nat, y: nat)
    requires |inc| == Cells(n, n) && x < n && y < n
    ensures forall a, b :: 0 <= a < n && 0 <= b < n ==>
              (Marked(MarkBoth(inc, n, x, y), n, a, b) <==>
               Marked(inc, n, a, b) || (a == x && b == y) || (a == y && b == x))
    ensures Symmetric(inc, n) ==> Symmetric(MarkBoth(inc, n, x, y), n)
  {
    AiInRange(x, y, n);
    AiInRange(y, x, n);
    forall a, b | 0 <= a < n && 0 <= b < n
      ensures Marked(MarkBoth(inc, n, x, y), n, a, b) <==>
              Marked(inc, n, a, b) || (a == x && b == y) || (a == y && b == x)
    {
      AiInRange(a, b, n);
      assert Marked(MarkBoth(inc, n, x, y), n, a, b) == MarkBoth(inc, n, x, y)[Ai(a, b, n)];
      if Ai(a, b, n) == Ai(x, y, n) { AiInjective(a, b, x, y, n); }
      if Ai(a, b, n) == Ai(y, x, n) { AiInjective(a, b, y, x, n); }
    }
  }

  // ----- predecessors -----

  type PredMap = map<Cube, seq<nat>>

  ghost predicate HasTrans(row: Row, c: Cube, t: nat) {
    exists j :: 0 <= j < |row| && row[j].input == c && row[j].next == t
  }

  ghost predicate Pred(pred: seq<PredMap>, t: nat, c: Cube, s: nat)
    requires t < |pred|
  {
    c in pred[t] && s in pred[t][c]
  }

  /** `Pred` by another name: facts about a predecessor map wait until it is mentioned. */
  ghost predicate Listed(pred: seq<PredMap>, t: nat, c: Cube, s: nat)
    requires t < |pred|
  {
    Pred(pred, t, c, s)
  }

  /** `pred[t]` lists, per input cube, exactly the states with such a transition to `t`. */
  ghost predicate IsPredMap(m: Machine, pred: seq<PredMap>) {
    && |pred| == |m|
    && (forall t: nat, c, s: nat {:trigger Listed(pred, t, c, s)} :: t < |m| ==>
          (Listed(pred, t, c, s) <==> s < |m| && HasTrans(m[s], c, t)))
  }

  lemma PredTrans(m: Machine, pred: seq<PredMap>, t: nat, c: Cube, s: nat)
    requires IsPredMap(m, pred) && t < |m| && Pred(pred, t, c, s)
    ensures s < |m| && HasTrans(m[s], c, t)
  {
    assert Listed(pred, t, c, s);
  }

  method ComputePredecessorMap(m: Machine) returns (pred: seq<PredMap>)
    requires forall s, j :: 0 <= s < |m| && 0 <= j < |m[s]| ==> m[s][j].next < |m|
    ensures IsPredMap(m, pred)
  {
    pred := seq(|m|, _ => map[]);
    for s := 0 to |m|
      invariant |pred| == |m|
      invariant forall t: nat, c, r: nat :: 0 <= t < |m| ==>
                  (Pred(pred, t, c, r) <==> r < s && HasTrans(m[r], c, t))
    {
      for j := 0 to |m[s]|
        invariant |pred| == |m|
        invariant forall t: nat, c, r: nat :: 0 <= t < |m| ==>
                    (Pred(pred, t, c, r) <==>
                     (r < s && HasTrans(m[r], c, t)) || (r == s && HasTrans(m[s][..j], c, t)))
      {
        var t := m[s][j].next;
        ghost var before := pred;
        pred := PushPred(pred, t, m[s][j].input, s);
        forall t': nat, c, r: nat | 0 <= t' < |m|
          ensures Pred(pred, t', c, r) <==>
                  (r < s && HasTrans(m[r], c, t')) || (r == s && HasTrans(m[s][..j + 1], c, t'))
        {
          HasTransSnoc(m[s], j, c, t');
          assert Pred(pred, t', c, r) <==> Pred(before, t', c, r) || (t' == t && c == m[s][j].input && r == s);
        }
      }
      assert m[s][..|m[s]|] == m[s];
    }
  }

  lemma HasTransSnoc(row: Row, j: nat, c: Cube, t: nat)
    requires j < |row|
    ensures HasTrans(row[..j + 1], c, t) <==> HasTrans(row[..j], c, t) || (row[j].input == c && row[j].next == t)
  {
    if HasTrans(row[..j], c, t) {
      var i :| 0 <= i < j && row[..j][i].input == c && row[..j][i].next == t;
      assert row[..j + 1][i] == row[..j][i];
    }
    if row[j].input == c && row[j].next == t {
      assert row[..j + 1][j] == row[j];
    }
  }

  function PushPred(pred: seq<PredMap>, t: nat, c: Cube, s: nat): (r: seq<PredMap>)
    requires t < |pred|
    ensures |r| == |pred|
    ensures forall t': nat, c', s': nat :: 0 <= t' < |pred| ==>
              (Pred(r, t', c', s') <==> Pred(pred, t', c', s') || (t' == t && c' == c && s' == s))
  {
    var listed := if c in pred[t] then pred[t][c] else [];
    pred[t := pred[t][c := listed + [s]]]
  }

  // ----- marking -----

  /** All predecessor pairs of (a, b) on overlapping inputs are marked. */
  ghost predicate Closed(m: Machine, pred: seq<PredMap>, inc: seq<bool>, a: nat, b: nat, ni: nat)
    requires Setting(m, pred, ni) && |inc| == Cells(|m|, |m|) && a < |m| && b < |m|
  {
    forall c1, c2, p1, p2 :: Pred(pred, a, c1, p1) && Pred(pred, b, c2, p2) && !Disjoint(c1, c2) ==>
      Marked(inc, |m|, p1, p2)
  }

  ghost predicate Setting(m: Machine, pred: seq<PredMap>, ni: nat) {
    && IsPredMap(m, pred)
    && (forall t: nat, c, s: nat :: 0 <= t < |m| && Pred(pred, t, c, s) ==> s < |m| && |c| == ni)
  }

  ghost predicate Sound(m: Machine, inc: seq<bool>)
    requires |inc| == Cells(|m|, |m|)
  {
    forall a, b {:trigger Incompatible(m, a, b)} :: 0 <= a < |m| && 0 <= b < |m| && Marked(inc, |m|, a, b) ==>
      Incompatible(m, a, b)
  }

  /** `inc1` has all marks of `inc0`, and every further mark has been propagated. */
  ghost predicate Extends(m: Machine, pred: seq<PredMap>, ni: nat, inc0: seq<bool>, inc1: seq<bool>)
    requires Setting(m, pred, ni) && |inc0| == Cells(|m|, |m|) && |inc1| == Cells(|m|, |m|)
  {
    && (forall a, b :: 0 <= a < |m| && 0 <= b < |m| && Marked(inc0, |m|, a, b) ==> Marked(inc1, |m|, a, b))
    && (forall a, b :: 0 <= a < |m| && 0 <= b < |m| && Marked(inc1, |m|, a, b) && !Marked(inc0, |m|, a, b) ==>
          Closed(m, pred, inc1, a, b, ni))
  }

  lemma ExtendsTrans(m: Machine, pred: seq<PredMap>, ni: nat, inc0: seq<bool>, inc1: seq<bool>, inc2: seq<bool>)
    requires Setting(m, pred, ni) && |inc0| == Cells(|m|, |m|) && |inc1| == Cells(|m|, |m|) && |inc2| == Cells(|m|, |m|)
    requires Extends(m, pred, ni, inc0, inc1) && Extends(m, pred, ni, inc1, inc2)
    ensures Extends(m, pred, ni, inc0, inc2)
  {
    forall a, b | 0 <= a < |m| && 0 <= b < |m| && Marked(inc2, |m|, a, b) && !Marked(inc0, |m|, a, b)
      ensures Closed(m, pred, inc2, a, b, ni)
    {
      if Marked(inc1, |m|, a, b) {
        assert Closed(m, pred, inc1, a, b, ni);
      }
    }
  }

  lemma ExtendsShrinks(m: Machine, pred: seq<PredMap>, ni: nat, inc0: seq<bool>, inc1: seq<bool>)
    requires Setting(m, pred, ni) && |inc0| == Cells(|m|, |m|) && |inc1| == Cells(|m|, |m|)
    requires Extends(m, pred, ni, inc0, inc1)
    ensures Unmarked(inc1) <= Unmarked(inc0)
  {
    forall i | 0 <= i < |inc0| && inc0[i] ensures inc1[i] {
      var x, y := AiCovers(i, |m|, |m|);
      assert Marked(inc0, |m|, x, y);
    }
    UnmarkedMonotone(inc0, inc1);
  }

  lemma ClosedSymmetric(m: Machine, pred: seq<PredMap>, ni: nat, inc: seq<bool>, a: nat, b: nat)
    requires Setting(m, pred, ni) && |inc| == Cells(|m|, |m|) && a < |m| && b < |m|
    requires Symmetric(inc, |m|) && Closed(m, pred, inc, a, b, ni)
    ensures Closed(m, pred, inc, b, a, ni)
  {
    forall c1, c2, p1, p2 | Pred(pred, b, c1, p1) && Pred(pred, a, c2, p2) && !Disjoint(c1, c2)
      ensures Marked(inc, |m|, p1, p2)
    {
      assert !Disjoint(c2, c1) by {
        if Disjoint(c2, c1) {
          var k :| 0 <= k < |c2| && Clash(c2[k], c1[k]);
          assert Clash(c1[k], c2[k]);
        }
      }
      assert Marked(inc, |m|, p2, p1);
    }
  }

  /** Predecessors of an incompatible pair on a common input word are incompatible. */
  lemma IncompatibleBackwards(m: Machine, ni: nat, no: nat, p1: nat, p2: nat, c1: Cube, c2: Cube, s1: nat, s2: nat)
    requires WellFormed(m, ni, no) && p1 < |m| && p2 < |m|
    requires HasTrans(m[p1], c1, s1) && HasTrans(m[p2], c2, s2) && |c1| == |c2| && !Disjoint(c1, c2)
    requires Incompatible(m, s1, s2)
    ensures Incompatible(m, p1, p2)
  {
    var w := CommonWord(c1, c2);
    var ws :| Distinguishes(m, s1, s2, ws);
    var j1 :| 0 <= j1 < |m[p1]| && m[p1][j1].input == c1 && m[p1][j1].next == s1;
    var j2 :| 0 <= j2 < |m[p2]| && m[p2][j2].input == c2 && m[p2][j2].next == s2;
    LookupIs(m[p1], ni, j1, w);
    LookupIs(m[p2], ni, j2, w);
    assert ([w] + ws)[1..] == ws;
    assert Distinguishes(m, p1, p2, [w] + ws);
  }

  ghost predicate Ready(m: Machine, pred: seq<PredMap>, ni: nat, no: nat, inc: seq<bool>) {
    && WellFormed(m, ni, no) && Setting(m, pred, ni) && |inc| == Cells(|m|, |m|)
    && Symmetric(inc, |m|) && Sound(m, inc)
  }

  method Mark(m: Machine, x: nat, y: nat, inc: array<bool>)
    requires inc.Length == Cells(|m|, |m|) && x < |m| && y < |m|
    modifies inc
    ensures inc[..] == MarkBoth(old(inc[..]), |m|, x, y)
  {
    AiInRange(x, y, |m|);
    AiInRange(y, x, |m|);
    inc[Ai(x, y, |m|)] := true;
    inc[Ai(y, x, |m|)] := true;
  }

  /** Marks (s1, s2)'s predecessor pairs, and theirs, and so on. */
  method PropagateIncompStates(m: Machine, s1: nat, s2: nat, pred: seq<PredMap>, inc: array<bool>, ghost ni: nat, ghost no: nat)
    requires Ready(m, pred, ni, no, inc[..])
    requires s1 < |m| && s2 < |m| && Incompatible(m, s1, s2)
    modifies inc
    ensures Ready(m, pred, ni, no, inc[..])
    ensures Extends(m, pred, ni, old(inc[..]), inc[..])
    ensures Closed(m, pred, inc[..], s1, s2, ni)
    decreases Unmarked(inc[..]), 2
  {
    var inputs1 := pred[s1].Keys;
    ghost var done: set<Cube> := {};
    while inputs1 != {}
      invariant Ready(m, pred, ni, no, inc[..])
      invariant Extends(m, pred, ni, old(inc[..]), inc[..])
      invariant done == pred[s1].Keys - inputs1
      invariant inputs1 <= pred[s1].Keys
      invariant forall c1, c2, p1, p2 :: c1 in done && Pred(pred, s1, c1, p1) && Pred(pred, s2, c2, p2) && !Disjoint(c1, c2) ==>
                  Marked(inc[..], |m|, p1, p2)
    {
      var input1 :| input1 in inputs1;
      ExtendsShrinks(m, pred, ni, old(inc[..]), inc[..]);
      label L:
      PropagateInput(m, s1, s2, input1, pred, inc, ni, no);
      ExtendsTrans(m, pred, ni, old(inc[..]), old@L(inc[..]), inc[..]);
      inputs1 := inputs1 - {input1};
      done := done + {input1};
    }
  }

  method PropagateInput(m: Machine, s1: nat, s2: nat, input1: Cube, pred: seq<PredMap>, inc: array<bool>, ghost ni: nat, ghost no: nat)
    requires Ready(m, pred, ni, no, inc[..])
    requires s1 < |m| && s2 < |m| && Incompatible(m, s1, s2) && input1 in pred[s1]
    modifies inc
    ensures Ready(m, pred, ni, no, inc[..])
    ensures Extends(m, pred, ni, old(inc[..]), inc[..])
    ensures forall c2, p1, p2 :: Pred(pred, s1, input1, p1) && Pred(pred, s2, c2, p2) && !Disjoint(input1, c2) ==>
              Marked(inc[..], |m|, p1, p2)
    decreases Unmarked(inc[..]), 1
  {
    var inputs2 := pred[s2].Keys;
    ghost var done: set<Cube> := {};
    while inputs2 != {}
      invariant Ready(m, pred, ni, no, inc[..])
      invariant Extends(m, pred, ni, old(inc[..]), inc[..])
      invariant done == pred[s2].Keys - inputs2
      invariant inputs2 <= pred[s2].Keys
      invariant forall c2, p1, p2 :: c2 in done && Pred(pred, s1, input1, p1) && Pred(pred, s2, c2, p2) && !Disjoint(input1, c2) ==>
                  Marked(inc[..], |m|, p1, p2)
    {
      var input2 :| input2 in inputs2;
      var preds1, preds2 := pred[s1][input1], pred[s2][input2];
      if preds1 != [] && preds2 != [] {
        assert Pred(pred, s1, input1, preds1[0]) && Pred(pred, s2, input2, preds2[0]);
        if !Disjoint(input1, input2) {
          ExtendsShrinks(m, pred, ni, old(inc[..]), inc[..]);
          label L:
          PropagatePairs(m, s1, s2, input1, input2, pred, inc, ni, no);
          ExtendsTrans(m, pred, ni, old(inc[..]), old@L(inc[..]), inc[..]);
        }
      }
      inputs2 := inputs2 - {input2};
      done := done + {input2};
    }
  }

  /** Every predecessor of `s` on `c` is marked with `p`. */
  ghost predicate MarkedWith(m: Machine, pred: seq<PredMap>, inc: seq<bool>, p: nat, s: nat, c: Cube)
    requires |inc| == Cells(|m|, |m|) && s < |pred|
  {
    p < |m| && forall q: nat :: Pred(pred, s, c, q) ==> q < |m| && Marked(inc, |m|, p, q)
  }

  lemma MarkedWithKept(m: Machine, pred: seq<PredMap>, ni: nat, inc0: seq<bool>, inc1: seq<bool>, p: nat, s: nat, c: Cube)
    requires Setting(m, pred, ni) && |inc0| == Cells(|m|, |m|) && |inc1| == Cells(|m|, |m|) && s < |pred|
    requires Extends(m, pred, ni, inc0, inc1) && MarkedWith(m, pred, inc0, p, s, c)
    ensures MarkedWith(m, pred, inc1, p, s, c)
  {}

  /** The two innermost loops: every pair of predecessors on two overlapping inputs. */
  method PropagatePairs(m: Machine, s1: nat, s2: nat, input1: Cube, input2: Cube, pred: seq<PredMap>, inc: array<bool>, ghost ni: nat, ghost no: nat)
    requires Ready(m, pred, ni, no, inc[..])
    requires s1 < |m| && s2 < |m| && Incompatible(m, s1, s2)
    requires input1 in pred[s1] && input2 in pred[s2] && |input1| == |input2| && !Disjoint(input1, input2)
    modifies inc
    ensures Ready(m, pred, ni, no, inc[..])
    ensures Extends(m, pred, ni, old(inc[..]), inc[..])
    ensures forall p1 :: Pred(pred, s1, input1, p1) ==> MarkedWith(m, pred, inc[..], p1, s2, input2)
    decreases Unmarked(inc[..]), 0, 3
  {
    hide Extends, MarkedWith, Sound, Symmetric, WellFormed, Incompatible;
    var preds1 := pred[s1][input1];
    ghost var before := inc[..];
    ExtendsSelf(m, pred, ni, before);
    for i1 := 0 to |preds1|
      invariant Ready(m, pred, ni, no, inc[..])
      invariant Extends(m, pred, ni, before, inc[..])
      invariant forall i :: 0 <= i < i1 ==> MarkedWith(m, pred, inc[..], preds1[i], s2, input2)
    {
      ghost var mid := inc[..];
      ExtendsShrinks(m, pred, ni, before, mid);
      assert Pred(pred, s1, input1, preds1[i1]);
      PropagateFrom(m, s1, s2, preds1[i1], input1, input2, pred, inc, ni, no, Unmarked(before));
      ExtendsTrans(m, pred, ni, before, mid, inc[..]);
      forall i | 0 <= i < i1 ensures MarkedWith(m, pred, inc[..], preds1[i], s2, input2) {
        MarkedWithKept(m, pred, ni, mid, inc[..], preds1[i], s2, input2);
      }
    }
  }

  lemma ExtendsSelf(m: Machine, pred: seq<PredMap>, ni: nat, inc: seq<bool>)
    requires Setting(m, pred, ni) && |inc| == Cells(|m|, |m|)
    ensures Extends(m, pred, ni, inc, inc)
  {}

  /** The innermost loop, for one predecessor of s1. */
  method PropagateFrom(m: Machine, s1: nat, s2: nat, p1: nat, input1: Cube, input2: Cube, pred: seq<PredMap>, inc: array<bool>,
                       ghost ni: nat, ghost no: nat, ghost bound: nat)
    requires Ready(m, pred, ni, no, inc[..])
    requires s1 < |m| && s2 < |m| && Incompatible(m, s1, s2) && Pred(pred, s1, input1, p1)
    requires input2 in pred[s2] && |input1| == |input2| && !Disjoint(input1, input2)
    requires Unmarked(inc[..]) <= bound
    modifies inc
    ensures Ready(m, pred, ni, no, inc[..])
    ensures Extends(m, pred, ni, old(inc[..]), inc[..])
    ensures MarkedWith(m, pred, inc[..], p1, s2, input2)
    decreases bound, 0, 2
  {
    hide Extends, Sound, Symmetric, WellFormed, Incompatible;
    var preds2 := pred[s2][input2];
    ghost var before := inc[..];
    ExtendsSelf(m, pred, ni, before);
    assert forall i :: 0 <= i < |preds2| ==> Pred(pred, s2, input2, preds2[i]);
    PredTrans(m, pred, s1, input1, p1);
    for i2 := 0 to |preds2|
      invariant Ready(m, pred, ni, no, inc[..])
      invariant Extends(m, pred, ni, before, inc[..])
      invariant forall j :: 0 <= j < i2 ==> Marked(inc[..], |m|, p1, preds2[j])
    {
      PropagateStep(m, s1, s2, p1, preds2[i2], input1, input2, pred, inc, ni, no, bound, before);
    }
  }

  method PropagateStep(m: Machine, s1: nat, s2: nat, p1: nat, p2: nat, input1: Cube, input2: Cube, pred: seq<PredMap>, inc: array<bool>,
                       ghost ni: nat, ghost no: nat, ghost bound: nat, ghost before: seq<bool>)
    requires Ready(m, pred, ni, no, inc[..]) && |before| == Cells(|m|, |m|) && Extends(m, pred, ni, before, inc[..])
    requires s1 < |m| && s2 < |m| && Incompatible(m, s1, s2) && Pred(pred, s1, input1, p1) && Pred(pred, s2, input2, p2)
    requires |input1| == |input2| && !Disjoint(input1, input2) && Unmarked(before) <= bound
    modifies inc
    ensures Ready(m, pred, ni, no, inc[..]) && Extends(m, pred, ni, before, inc[..])
    ensures p1 < |m| && p2 < |m| && Marked(inc[..], |m|, p1, p2)
    ensures forall a, b :: 0 <= a < |m| && 0 <= b < |m| && Marked(old(inc[..]), |m|, a, b) ==> Marked(inc[..], |m|, a, b)
    decreases bound, 0, 1
  {
    ghost var mid := inc[..];
    ExtendsShrinks(m, pred, ni, before, mid);
    PredTrans(m, pred, s1, input1, p1);
    PredTrans(m, pred, s2, input2, p2);
    IncompatibleBackwards(m, ni, no, p1, p2, input1, input2, s1, s2);
    PropagatePair(m, p1, p2, pred, inc, ni, no, bound);
    ExtendsTrans(m, pred, ni, before, mid, inc[..]);
  }

  /** One predecessor pair: skipped if marked, otherwise marked in both orders and propagated. */
  method PropagatePair(m: Machine, p1: nat, p2: nat, pred: seq<PredMap>, inc: array<bool>, ghost ni: nat, ghost no: nat, ghost bound: nat)
    requires Ready(m, pred, ni, no, inc[..])
    requires p1 < |m| && p2 < |m| && Incompatible(m, p1, p2)
    requires Unmarked(inc[..]) <= bound
    modifies inc
    ensures Ready(m, pred, ni, no, inc[..])
    ensures Extends(m, pred, ni, old(inc[..]), inc[..])
    ensures Marked(inc[..], |m|, p1, p2)
    decreases bound, 0, 0
  {
    AiInRange(p1, p2, |m|);
    if inc[Ai(p1, p2, |m|)] {
      return;
    }
    ghost var before := inc[..];
    Mark(m, p1, p2, inc);
    ghost var marked := inc[..];
    MarkBothMarks(before, |m|, p1, p2);
    IncompatibleSymmetric(m, p1, p2);
    assert !before[Ai(p1, p2, |m|)] && marked[Ai(p1, p2, |m|)];
    UnmarkedMonotone(before, marked);
    PropagateIncompStates(m, p1, p2, pred, inc, ni, no);
    ClosedSymmetric(m, pred, ni, inc[..], p1, p2);
    MarkedThenExtends(m, pred, ni, before, inc[..], p1, p2);
  }

  lemma IncompatibleSymmetric(m: Machine, s1: nat, s2: nat)
    requires Incompatible(m, s1, s2)
    ensures Incompatible(m, s2, s1)
  {
    var ws :| Distinguishes(m, s1, s2, ws);
    var a, b := Out(m, s1, ws).value, Out(m, s2, ws).value;
    var k :| 0 <= k < |a| && Clash(a[k], b[k]);
    assert Clash(b[k], a[k]);
    assert Distinguishes(m, s2, s1, ws);
  }

  lemma MarkedThenExtends(m: Machine, pred: seq<PredMap>, ni: nat, before: seq<bool>, after: seq<bool>, p1: nat, p2: nat)
    requires Setting(m, pred, ni) && |before| == Cells(|m|, |m|) && |after| == Cells(|m|, |m|) && p1 < |m| && p2 < |m|
    requires Extends(m, pred, ni, MarkBoth(before, |m|, p1, p2), after)
    requires Closed(m, pred, after, p1, p2, ni) && Closed(m, pred, after, p2, p1, ni)
    ensures Extends(m, pred, ni, before, after) && Marked(after, |m|, p1, p2)
  {
    var marked := MarkBoth(before, |m|, p1, p2);
    MarkBothMarks(before, |m|, p1, p2);
    assert Marked(marked, |m|, p1, p2);
    forall a, b | 0 <= a < |m| && 0 <= b < |m| && Marked(before, |m|, a, b) ensures Marked(after, |m|, a, b) {
      assert Marked(marked, |m|, a, b);
    }
    forall a, b | 0 <= a < |m| && 0 <= b < |m| && Marked(after, |m|, a, b) && !Marked(before, |m|, a, b)
      ensures Closed(m, pred, after, a, b, ni)
    {
      if Marked(marked, |m|, a, b) {
        assert (a == p1 && b == p2) || (a == p2 && b == p1);
      }
    }
  }

  // ----- the whole matrix -----

  ghost predicate ConflictingOutputs(row1: Row, row2: Row, ni: nat, no: nat)
    requires RowShape(row1, ni, no) && RowShape(row2, ni, no)
  {
    exists j1, j2 :: 0 <= j1 < |row1| && 0 <= j2 < |row2| &&
      !Disjoint(row1[j1].input, row2[j2].input) && Disjoint(row1[j1].output, row2[j2].output)
  }

  ghost predicate RowShape(row: Row, ni: nat, no: nat) {
    forall j :: 0 <= j < |row| ==> |row[j].input| == ni && |row[j].output| == no
  }

  method FindConflict(row1: Row, row2: Row, ghost ni: nat, ghost no: nat) returns (found: bool)
    requires RowShape(row1, ni, no) && RowShape(row2, ni, no)
    ensures found <==> ConflictingOutputs(row1, row2, ni, no)
  {
    for j1 := 0 to |row1|
      invariant forall i1, i2 :: 0 <= i1 < j1 && 0 <= i2 < |row2| ==>
                  Disjoint(row1[i1].input, row2[i2].input) || !Disjoint(row1[i1].output, row2[i2].output)
    {
      for j2 := 0 to |row2|
        invariant forall i2 :: 0 <= i2 < j2 ==>
                    Disjoint(row1[j1].input, row2[i2].input) || !Disjoint(row1[j1].output, row2[i2].output)
      {
        if !Disjoint(row1[j1].input, row2[j2].input) && Disjoint(row1[j1].output, row2[j2].output) {
          return true;
        }
      }
    }
    return false;
  }

  lemma ConflictIncompatible(m: Machine, ni: nat, no: nat, s1: nat, s2: nat)
    requires WellFormed(m, ni, no) && s1 < |m| && s2 < |m|
    requires RowShape(m[s1], ni, no) && RowShape(m[s2], ni, no) && ConflictingOutputs(m[s1], m[s2], ni, no)
    ensures Incompatible(m, s1, s2)
  {
    var j1, j2 :| 0 <= j1 < |m[s1]| && 0 <= j2 < |m[s2]| &&
      !Disjoint(m[s1][j1].input, m[s2][j2].input) && Disjoint(m[s1][j1].output, m[s2][j2].output);
    var w := CommonWord(m[s1][j1].input, m[s2][j2].input);
    LookupIs(m[s1], ni, j1, w);
    LookupIs(m[s2], ni, j2, w);
    assert Distinguishes(m, s1, s2, [w]);
  }

  ghost predicate AllClosed(m: Machine, pred: seq<PredMap>, ni: nat, inc: seq<bool>)
    requires Setting(m, pred, ni) && |inc| == Cells(|m|, |m|)
  {
    forall a, b :: 0 <= a < |m| && 0 <= b < |m| && Marked(inc, |m|, a, b) ==> Closed(m, pred, inc, a, b, ni)
  }

  lemma ExtendsClosed(m: Machine, pred: seq<PredMap>, ni: nat, inc0: seq<bool>, inc1: seq<bool>)
    requires Setting(m, pred, ni) && |inc0| == Cells(|m|, |m|) && |inc1| == Cells(|m|, |m|)
    requires AllClosed(m, pred, ni, inc0) && Extends(m, pred, ni, inc0, inc1)
    ensures AllClosed(m, pred, ni, inc1)
  {
    forall a, b | 0 <= a < |m| && 0 <= b < |m| && Marked(inc1, |m|, a, b)
      ensures Closed(m, pred, inc1, a, b, ni)
    {
      if Marked(inc0, |m|, a, b) {
        assert Closed(m, pred, inc0, a, b, ni);
      }
    }
  }

  /** The initial marks cover direct conflicts of the pairs visited so far. */
  ghost predicate ConflictsMarked(m: Machine, ni: nat, no: nat, inc: seq<bool>, k1: nat, k2: nat)
    requires WellFormed(m, ni, no) && |inc| == Cells(|m|, |m|)
  {
    forall a, b :: (0 <= a <= b < |m| && (a < k1 || (a == k1 && b < k2)) && RowShape(m[a], ni, no)
                    && RowShape(m[b], ni, no) && ConflictingOutputs(m[a], m[b], ni, no)) ==>
      Marked(inc, |m|, a, b)
  }

  lemma LookupOverlap(row1: Row, row2: Row, w: Word, ni: nat, no: nat) returns (j1: nat, j2: nat)
    requires RowShape(row1, ni, no) && RowShape(row2, ni, no)
    requires Lookup(row1, w).Some? && Lookup(row2, w).Some?
    ensures j1 < |row1| && j2 < |row2| && Lookup(row1, w).value == row1[j1] && Lookup(row2, w).value == row2[j2]
    ensures !Disjoint(row1[j1].input, row2[j2].input) && !Disjoint(row2[j2].input, row1[j1].input)
  {
    j1 :| 0 <= j1 < |row1| && row1[j1] == Lookup(row1, w).value;
    j2 :| 0 <= j2 < |row2| && row2[j2] == Lookup(row2, w).value;
    DisjointMeansNoCommonWord(row1[j1].input, row2[j2].input);
    DisjointMeansNoCommonWord(row2[j2].input, row1[j1].input);
  }

  lemma DirectConflictMarked(m: Machine, ni: nat, no: nat, inc: seq<bool>, s1: nat, s2: nat, j1: nat, j2: nat)
    requires WellFormed(m, ni, no) && |inc| == Cells(|m|, |m|) && Symmetric(inc, |m|)
    requires ConflictsMarked(m, ni, no, inc, |m|, 0)
    requires s1 < |m| && s2 < |m| && j1 < |m[s1]| && j2 < |m[s2]|
    requires !Disjoint(m[s1][j1].input, m[s2][j2].input) && !Disjoint(m[s2][j2].input, m[s1][j1].input)
    requires Disjoint(m[s1][j1].output, m[s2][j2].output)
    ensures Marked(inc, |m|, s1, s2)
  {
    var o1, o2 := m[s1][j1].output, m[s2][j2].output;
    assert RowShape(m[s1], ni, no) && RowShape(m[s2], ni, no);
    var k :| 0 <= k < |o1| && Clash(o1[k], o2[k]);
    assert Clash(o2[k], o1[k]);
    if s1 <= s2 {
      assert ConflictingOutputs(m[s1], m[s2], ni, no);
    } else {
      assert ConflictingOutputs(m[s2], m[s1], ni, no);
      assert Marked(inc, |m|, s2, s1);
    }
  }

  /** A run that tells two states apart has marked them: every incompatible pair is found. */
  lemma {:induction false} MarksComplete(m: Machine, pred: seq<PredMap>, ni: nat, no: nat, inc: seq<bool>, s1: nat, s2: nat, ws: seq<Word>)
    requires Ready(m, pred, ni, no, inc)
    requires AllClosed(m, pred, ni, inc) && ConflictsMarked(m, ni, no, inc, |m|, 0)
    requires s1 < |m| && s2 < |m| && Distinguishes(m, s1, s2, ws)
    ensures Marked(inc, |m|, s1, s2)
    decreases ws
  {
    assert RowShape(m[s1], ni, no) && RowShape(m[s2], ni, no);
    var j1, j2 := LookupOverlap(m[s1], m[s2], ws[0], ni, no);
    if |ws| == 1 {
      DirectConflictMarked(m, ni, no, inc, s1, s2, j1, j2);
    } else {
      var t1, t2 := m[s1][j1], m[s2][j2];
      MarksComplete(m, pred, ni, no, inc, t1.next, t2.next, ws[1..]);
      assert HasTrans(m[s1], t1.input, t1.next) && HasTrans(m[s2], t2.input, t2.next);
      assert Listed(pred, t1.next, t1.input, s1) && Listed(pred, t2.next, t2.input, s2);
      assert Closed(m, pred, inc, t1.next, t2.next, ni);
    }
  }

  /** The matrix marks exactly the pairs that some input sequence tells apart. */
  ghost predicate IsIncompMatrix(m: Machine, inc: seq<bool>) {
    |inc| == Cells(|m|, |m|) &&
    forall a, b :: 0 <= a < |m| && 0 <= b < |m| ==> (Marked(inc, |m|, a, b) <==> Incompatible(m, a, b))
  }

  lemma SettingHolds(m: Machine, pred: seq<PredMap>, ni: nat, no: nat)
    requires WellFormed(m, ni, no) && IsPredMap(m, pred)
    ensures Setting(m, pred, ni)
  {
    forall t: nat, c, s: nat | t < |m| && Pred(pred, t, c, s) ensures s < |m| && |c| == ni {
      PredTrans(m, pred, t, c, s);
    }
  }

  method ComputeIncompMatrix(m: Machine, pred: seq<PredMap>, inc: array<bool>, ghost ni: nat, ghost no: nat)
    requires WellFormed(m, ni, no) && IsPredMap(m, pred)
    requires inc.Length == Cells(|m|, |m|) && forall i :: 0 <= i < inc.Length ==> !inc[i]
    modifies inc
    ensures IsIncompMatrix(m, inc[..])
  {
    SettingHolds(m, pred, ni, no);
    forall a, b | 0 <= a < |m| && 0 <= b < |m| ensures !Marked(inc[..], |m|, a, b) {
      AiInRange(a, b, |m|);
    }
    for s1 := 0 to |m|
      invariant Ready(m, pred, ni, no, inc[..])
      invariant AllClosed(m, pred, ni, inc[..])
      invariant ConflictsMarked(m, ni, no, inc[..], s1, 0)
    {
      for s2 := s1 to |m|
        invariant Ready(m, pred, ni, no, inc[..])
        invariant AllClosed(m, pred, ni, inc[..])
        invariant ConflictsMarked(m, ni, no, inc[..], s1, s2)
      {
        VisitPair(m, s1, s2, pred, inc, ni, no);
      }
    }
    forall a, b | 0 <= a < |m| && 0 <= b < |m| && Incompatible(m, a, b) ensures Marked(inc[..], |m|, a, b) {
      var ws :| Distinguishes(m, a, b, ws);
      MarksComplete(m, pred, ni, no, inc[..], a, b, ws);
    }
  }

  method VisitPair(m: Machine, s1: nat, s2: nat, pred: seq<PredMap>, inc: array<bool>, ghost ni: nat, ghost no: nat)
    requires Ready(m, pred, ni, no, inc[..]) && AllClosed(m, pred, ni, inc[..])
    requires s1 <= s2 < |m| && ConflictsMarked(m, ni, no, inc[..], s1, s2)
    modifies inc
    ensures Ready(m, pred, ni, no, inc[..]) && AllClosed(m, pred, ni, inc[..])
    ensures ConflictsMarked(m, ni, no, inc[..], s1, s2 + 1)
  {
    AiInRange(s1, s2, |m|);
    if inc[Ai(s1, s2, |m|)] {
      assert Marked(inc[..], |m|, s1, s2);
      return;
    }
    var found := FindConflict(m[s1], m[s2], ni, no);
    if found {
      ghost var before := inc[..];
      ConflictIncompatible(m, ni, no, s1, s2);
      IncompatibleSymmetric(m, s1, s2);
      MarkBothMarks(before, |m|, s1, s2);
      Mark(m, s1, s2, inc);
      PropagateIncompStates(m, s1, s2, pred, inc, ni, no);
      ClosedSymmetric(m, pred, ni, inc[..], s1, s2);
      MarkedThenExtends(m, pred, ni, before, inc[..], s1, s2);
      ExtendsClosed(m, pred, ni, before, inc[..]);
    }
  }
}
