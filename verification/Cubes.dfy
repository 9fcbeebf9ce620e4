/** Ternary cubes: the meaning of an incompletely specified bit sequence.
    A cube stands for the set of words it contains; `PackedCubes` shows that the
    word-packed representation of memin/IncSpecSeq.h computes these operations. */
module Cubes {

  datatype Trit = Zero | One | Dash

  type Cube = seq<Trit>
  type Word = seq<bool>

  predicate BitIn(t: Trit, b: bool) {
    t.Dash? || (t.One? <==> b)
  }

  /** Word `w` is one of the words of cube `c`. */
  ghost predicate Has(c: Cube, w: Word) {
    |c| == |w| && forall k :: 0 <= k < |c| ==> BitIn(c[k], w[k])
  }

  predicate Clash(a: Trit, b: Trit) {
    (a.One? && b.Zero?) || (a.Zero? && b.One?)
  }

  predicate Disjoint(a: Cube, b: Cube)
    requires |a| == |b|
  {
    exists k :: 0 <= k < |a| && Clash(a[k], b[k])
  }

  predicate Subset(a: Cube, b: Cube)
    requires |a| == |b|
  {
    forall k :: 0 <= k < |a| ==> b[k].Dash? || a[k] == b[k]
  }

  predicate FullySpecified(c: Cube) {
    Dash !in c
  }

  function Meet(a: Trit, b: Trit): Trit {
    if a.Dash? then b else if b.Dash? || a == b then a else One
  }

  function Intersect(a: Cube, b: Cube): Cube
    requires |a| == |b|
  {
    seq(|a|, k requires 0 <= k < |a| => Meet(a[k], b[k]))
  }

  function Flip(t: Trit): Trit {
    match t case Zero => One case One => Zero case Dash => Dash
  }

  /** The pieces that the bit loop of `diff` still emits from bit `k` on, where `last` is
      the receiver with the bits before `k` already narrowed to `other`. */
  function DiffFrom(last: Cube, other: Cube, k: nat): (pieces: seq<Cube>)
    requires |last| == |other| && k <= |last|
    ensures forall i :: 0 <= i < |pieces| ==> |pieces[i]| == |last|
    decreases |last| - k
  {
    if k == |last| then []
    else if last[k].Dash? && !other[k].Dash? then
      [last[k := Flip(other[k])]] + DiffFrom(last[k := other[k]], other, k + 1)
    else DiffFrom(last, other, k + 1)
  }

  function Diff(c: Cube, other: Cube): (pieces: seq<Cube>)
    requires |c| == |other|
    ensures forall i :: 0 <= i < |pieces| ==> |pieces[i]| == |c|
  {
    DiffFrom(c, other, 0)
  }

  ghost predicate InSome(pieces: seq<Cube>, w: Word) {
    exists i :: 0 <= i < |pieces| && Has(pieces[i], w)
  }

  ghost predicate PairwiseDisjoint(pieces: seq<Cube>, n: nat)
    requires forall i :: 0 <= i < |pieces| ==> |pieces[i]| == n
  {
    forall i, j :: 0 <= i < j < |pieces| ==> Disjoint(pieces[i], pieces[j])
  }

  // ----- words decide every query -----

  /** A word of the cube, with the free bits set to `b`. */
  function Sample(c: Cube, b: bool): (w: Word)
    ensures Has(c, w)
  {
    seq(|c|, k requires 0 <= k < |c| => if c[k].Dash? then b else c[k].One?)
  }

  /** `isDisjoint` says exactly that no word lies in both cubes. */
  lemma DisjointMeansNoCommonWord(a: Cube, b: Cube)
    requires |a| == |b|
    ensures Disjoint(a, b) <==> !exists w :: Has(a, w) && Has(b, w)
  {
    if !Disjoint(a, b) {
      var w := Sample(Intersect(a, b), true);
      assert Has(a, w) && Has(b, w);
    }
  }

  lemma CommonWord(a: Cube, b: Cube) returns (w: Word)
    requires |a| == |b| && !Disjoint(a, b)
    ensures Has(a, w) && Has(b, w)
  {
    w := Sample(Intersect(a, b), true);
  }

  /** `isSubset` says exactly that every word of `a` is a word of `b`. */
  lemma SubsetMeansInclusion(a: Cube, b: Cube)
    requires |a| == |b|
    ensures Subset(a, b) <==> forall w :: Has(a, w) ==> Has(b, w)
  {
    if !Subset(a, b) {
      var k :| 0 <= k < |a| && !(b[k].Dash? || a[k] == b[k]);
      var w := Sample(a, b[k].Zero?);
      assert Has(a, w) && !BitIn(b[k], w[k]);
    }
  }

  /** `intersect` of compatible cubes contains exactly the common words. */
  lemma IntersectMeansBoth(a: Cube, b: Cube, w: Word)
    requires |a| == |b| && !Disjoint(a, b)
    ensures Has(Intersect(a, b), w) <==> Has(a, w) && Has(b, w)
  {
    if |w| == |a| {
      forall k | 0 <= k < |a|
        ensures BitIn(Intersect(a, b)[k], w[k]) <==> BitIn(a[k], w[k]) && BitIn(b[k], w[k])
      {
        assert !Clash(a[k], b[k]);
      }
      if Has(Intersect(a, b), w) {
        assert forall k :: 0 <= k < |a| ==> BitIn(Intersect(a, b)[k], w[k]);
      }
    }
  }

  /** Full cubes contain one word, so distinct full cubes are disjoint. */
  lemma FullCubesDisjoint(a: Cube, b: Cube)
    requires |a| == |b| && FullySpecified(a) && FullySpecified(b) && a != b
    ensures Disjoint(a, b)
  {
    var k :| 0 <= k < |a| && a[k] != b[k];
    assert a[k] in a && b[k] in b;
    assert Clash(a[k], b[k]);
  }

  // ----- diff -----

  /** The pieces from bit `k` on are exactly the words of `last` that leave `other` at some bit. */
  lemma {:induction false} DiffFromWords(last: Cube, other: Cube, k: nat, w: Word)
    requires |last| == |other| && k <= |last|
    requires !Disjoint(last, other)
    requires forall i :: 0 <= i < k ==> other[i].Dash? || last[i] == other[i]
    ensures InSome(DiffFrom(last, other, k), w) <==> Has(last, w) && !Has(other, w)
    decreases |last| - k
  {
    if k == |last| {
    } else if last[k].Dash? && !other[k].Dash? {
      var piece, rest := last[k := Flip(other[k])], last[k := other[k]];
      var tail := DiffFrom(rest, other, k + 1);
      forall i | 0 <= i < |last| ensures !Clash(rest[i], other[i]) {
        assert !Clash(last[i], other[i]);
      }
      DiffFromWords(rest, other, k + 1, w);
      assert DiffFrom(last, other, k) == [piece] + tail;
      InSomeCons(piece, tail, w);
      if |w| == |last| {
        assert Has(last, w) <==> Has(piece, w) || Has(rest, w) by {
          SplitAt(last, k, other[k], w);
        }
        assert Has(piece, w) ==> !BitIn(other[k], w[k]) by {
          assert piece[k] == Flip(other[k]);
        }
        if Has(last, w) && !Has(rest, w) {
          assert Has(piece, w);
        }
      }
    } else {
      assert last[k].Dash? || other[k].Dash? || last[k] == other[k] by {
        assert !Clash(last[k], other[k]);
      }
      DiffFromWords(last, other, k + 1, w);
    }
  }

  lemma InSomeCons(p: Cube, rest: seq<Cube>, w: Word)
    ensures InSome([p] + rest, w) <==> Has(p, w) || InSome(rest, w)
  {
    var all := [p] + rest;
    if Has(p, w) {
      assert all[0] == p;
    }
    if InSome(rest, w) {
      var i :| 0 <= i < |rest| && Has(rest[i], w);
      assert all[i + 1] == rest[i];
    }
  }

  /** Fixing free bit `k` to `t` or to its opposite splits a cube in two. */
  lemma SplitAt(c: Cube, k: nat, t: Trit, w: Word)
    requires k < |c| && c[k].Dash? && !t.Dash? && |w| == |c|
    ensures Has(c, w) <==> Has(c[k := t], w) || Has(c[k := Flip(t)], w)
  {
    var c1, c2 := c[k := t], c[k := Flip(t)];
    if Has(c1, w) {
      forall i | 0 <= i < |c| ensures BitIn(c[i], w[i]) {
        assert BitIn(c1[i], w[i]);
      }
    }
    if Has(c2, w) {
      forall i | 0 <= i < |c| ensures BitIn(c[i], w[i]) {
        assert BitIn(c2[i], w[i]);
      }
    }
  }

  /** For overlapping cubes, `diff` is the set difference. */
  lemma DiffWords(c: Cube, other: Cube, w: Word)
    requires |c| == |other| && !Disjoint(c, other)
    ensures InSome(Diff(c, other), w) <==> Has(c, w) && !Has(other, w)
  {
    DiffFromWords(c, other, 0, w);
  }

  lemma {:induction false} DiffFromKeepsFixedBits(last: Cube, other: Cube, k: nat, i: nat, j: nat)
    requires |last| == |other| && k <= |last|
    requires i < |DiffFrom(last, other, k)| && j < |last|
    requires j < k || !last[j].Dash?
    ensures DiffFrom(last, other, k)[i][j] == last[j]
    decreases |last| - k
  {
    if last[k].Dash? && !other[k].Dash? {
      var rest := last[k := other[k]];
      assert DiffFrom(last, other, k) == [last[k := Flip(other[k])]] + DiffFrom(rest, other, k + 1);
      if i > 0 {
        DiffFromKeepsFixedBits(rest, other, k + 1, i - 1, j);
      }
    } else {
      DiffFromKeepsFixedBits(last, other, k + 1, i, j);
    }
  }

  /** The pieces of `diff` never overlap one another. */
  lemma {:induction false} DiffFromDisjoint(last: Cube, other: Cube, k: nat)
    requires |last| == |other| && k <= |last|
    ensures PairwiseDisjoint(DiffFrom(last, other, k), |last|)
    decreases |last| - k
  {
    if k < |last| {
      if last[k].Dash? && !other[k].Dash? {
        var piece, rest := last[k := Flip(other[k])], last[k := other[k]];
        var tail := DiffFrom(rest, other, k + 1);
        assert DiffFrom(last, other, k) == [piece] + tail;
        DiffFromDisjoint(rest, other, k + 1);
        forall j | 0 <= j < |tail| ensures Disjoint(piece, tail[j]) {
          DiffFromKeepsFixedBits(rest, other, k + 1, j, k);
          assert Clash(piece[k], tail[j][k]);
        }
      } else {
        DiffFromDisjoint(last, other, k + 1);
      }
    }
  }

  // ----- weights: the number of words of a cube -----

  ghost function Weight(c: Cube): (n: nat)
    ensures n >= 1
  {
    if c == [] then 1 else (if c[0].Dash? then 2 else 1) * Weight(c[1..])
  }

  ghost function TotalWeight(q: seq<Cube>): nat {
    if q == [] then 0 else Weight(q[0]) + TotalWeight(q[1..])
  }

  lemma {:induction false} WeightSplits(c: Cube, k: nat, t: Trit)
    requires k < |c| && c[k].Dash? && !t.Dash?
    ensures Weight(c) == Weight(c[k := t]) + Weight(c[k := Flip(t)])
  {
    if k == 0 {
      assert c[0 := t][1..] == c[1..] == c[0 := Flip(t)][1..];
    } else {
      WeightSplits(c[1..], k - 1, t);
      assert c[k := t][1..] == c[1..][k - 1 := t];
      assert c[k := Flip(t)][1..] == c[1..][k - 1 := Flip(t)];
    }
  }

  lemma {:induction false} TotalWeightConcat(p: seq<Cube>, q: seq<Cube>)
    ensures TotalWeight(p + q) == TotalWeight(p) + TotalWeight(q)
  {
    if p == [] {
      assert p + q == q;
    } else {
      TotalWeightConcat(p[1..], q);
      assert (p + q)[1..] == p[1..] + q;
    }
  }

  /** `diff` removes at least one word: its pieces weigh strictly less than the cube. */
  lemma {:induction false} DiffFromLoses(last: Cube, other: Cube, k: nat)
    requires |last| == |other| && k <= |last|
    ensures TotalWeight(DiffFrom(last, other, k)) < Weight(last)
    decreases |last| - k
  {
    if k < |last| {
      if last[k].Dash? && !other[k].Dash? {
        var piece, rest := last[k := Flip(other[k])], last[k := other[k]];
        WeightSplits(last, k, other[k]);
        DiffFromLoses(rest, other, k + 1);
        assert DiffFrom(last, other, k) == [piece] + DiffFrom(rest, other, k + 1);
        assert ([piece] + DiffFrom(rest, other, k + 1))[1..] == DiffFrom(rest, other, k + 1);
      } else {
        DiffFromLoses(last, other, k + 1);
      }
    }
  }
}
