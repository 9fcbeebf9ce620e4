/** Why a search ends (memin/minisat/core/Solver.cpp, search and solve_): between two restarts every
    conflict moves the trail forward in one well-founded order, and the limits on the number of
    conflicts grow beyond every bound. */
module SatProgress {

  // ----- the rank of a trail -----

  ghost function Power(b: nat, e: nat): nat {
    if e == 0 then 1 else b * Power(b, e - 1)
  }

  /** The level of trail position `i`: how many decisions stand up to there. */
  ghost function LevelAt(lim: seq<nat>, i: nat): nat {
    if lim == [] then 0 else LevelAt(lim[..|lim| - 1], i) + if lim[|lim| - 1] <= i then 1 else 0
  }

  /** A literal weighs more than all literals of higher levels together, with `n` variables. */
  ghost function Weight(level: nat, n: nat): nat {
    Power(n + 1, if level <= n then n - level else 0)
  }

  /** The weight of the first `k` literals of a trail with the decisions at `lim`. */
  ghost function Rank(lim: seq<nat>, k: nat, n: nat): nat {
    if k == 0 then 0 else Rank(lim, k - 1, n) + Weight(LevelAt(lim, k - 1), n)
  }

  /** More than any search over `n` variables needs. */
  ghost function ConflictBound(n: nat): nat {
    n * Power(n + 1, n)
  }

  /** Every level holds at least its decision. */
  ghost predicate Layered(lim: seq<nat>, k: nat) {
    && |lim| <= k && (forall d :: 0 <= d < |lim| ==> d <= lim[d] <= k)
    && (forall d, e :: 0 <= d < e < |lim| ==> lim[d] <= lim[e])
  }

  lemma {:induction false} PowerGrows(b: nat, e: nat, e2: nat)
    requires b > 0 && e <= e2
    ensures 0 < Power(b, e) <= Power(b, e2)
    decreases e2
  {
    if e < e2 {
      PowerGrows(b, e, e2 - 1);
      TimesAtLeast(b, Power(b, e2 - 1));
    } else if e > 0 {
      PowerGrows(b, e - 1, e2 - 1);
      TimesAtLeast(b, Power(b, e2 - 1));
    }
  }

  lemma TimesAtLeast(b: nat, p: nat)
    requires b > 0
    ensures b * p >= p
  {}

  lemma WeightFalls(level: nat, level2: nat, n: nat)
    requires level <= level2
    ensures 0 < Weight(level2, n) <= Weight(level, n)
  {
    PowerGrows(n + 1, if level2 <= n then n - level2 else 0, if level <= n then n - level else 0);
  }

  lemma {:induction false} LevelPrefix(lim: seq<nat>, b: nat, i: nat)
    requires b <= |lim| && forall d :: b <= d < |lim| ==> i < lim[d]
    ensures LevelAt(lim, i) == LevelAt(lim[..b], i)
    decreases |lim|
  {
    if b == |lim| {
      assert lim[..b] == lim;
    } else {
      LevelPrefix(lim[..|lim| - 1], b, i);
      assert lim[..|lim| - 1][..b] == lim[..b];
    }
  }

  lemma {:induction false} LevelAtLeast(lim: seq<nat>, b: nat, i: nat)
    requires b <= |lim| && forall d :: 0 <= d < b ==> lim[d] <= i
    ensures LevelAt(lim, i) >= b
    decreases |lim|
  {
    if |lim| > 0 {
      LevelAtLeast(lim[..|lim| - 1], if b < |lim| then b else b - 1, i);
    }
  }

  lemma {:induction false} RankPrefix(lim: seq<nat>, b: nat, k: nat, n: nat)
    requires b <= |lim| && forall d :: b <= d < |lim| ==> k <= lim[d]
    ensures Rank(lim, k, n) == Rank(lim[..b], k, n)
  {
    if k > 0 {
      RankPrefix(lim, b, k - 1, n);
      LevelPrefix(lim, b, k - 1);
    }
  }

  lemma {:induction false} RankGrows(lim: seq<nat>, k: nat, k2: nat, n: nat)
    requires k <= k2
    ensures Rank(lim, k, n) <= Rank(lim, k2, n)
    decreases k2
  {
    if k < k2 {
      RankGrows(lim, k, k2 - 1, n);
    }
  }

  /** From the decision of level b + 1 on, no literal weighs more than that level allows. */
  lemma {:induction false} RankTail(lim: seq<nat>, k: nat, b: nat, j: nat, n: nat)
    requires Layered(lim, k) && b < |lim| && lim[b] <= j <= k
    ensures Rank(lim, j, n) <= Rank(lim, lim[b], n) + (j - lim[b]) * Weight(b + 1, n)
    decreases j
  {
    var w := Weight(b + 1, n);
    if j == lim[b] {
      assert 0 * w == 0;
    } else {
      RankTail(lim, k, b, j - 1, n);
      LevelAtLeast(lim, b + 1, j - 1);
      WeightFalls(b + 1, LevelAt(lim, j - 1), n);
      OneMore(j - 1 - lim[b], w);
    }
  }

  lemma OneMore(a: nat, w: nat)
    ensures (a + 1) * w == a * w + w
  {}

  lemma {:induction false} RankBound(lim: seq<nat>, k: nat, n: nat)
    ensures Rank(lim, k, n) <= k * Power(n + 1, n)
  {
    if k > 0 {
      RankBound(lim, k - 1, n);
      WeightFalls(0, LevelAt(lim, k - 1), n);
      OneMore(k - 1, Power(n + 1, n));
    }
  }

  /** No trail over `n` variables has a larger rank. */
  lemma RankFits(lim: seq<nat>, k: nat, n: nat)
    requires k <= n
    ensures Rank(lim, k, n) <= ConflictBound(n)
  {
    RankBound(lim, k, n);
    LessTimes(k, n, Power(n + 1, n));
  }

  lemma LessTimes(a: nat, b: nat, p: nat)
    requires a <= b
    ensures a * p <= b * p
  {}

  /** A decision opens a level and loses nothing. */
  lemma DecisionAdvances(lim: seq<nat>, k: nat, n: nat)
    requires Layered(lim, k)
    ensures Layered(lim + [k], k + 1) && Rank(lim + [k], k + 1, n) >= Rank(lim, k, n)
  {
    RankPrefix(lim + [k], |lim|, k, n);
    assert (lim + [k])[..|lim|] == lim;
  }

  /** Propagation stays on the last level. */
  lemma PropagationAdvances(lim: seq<nat>, k: nat, k2: nat, n: nat)
    requires Layered(lim, k) && k <= k2
    ensures Layered(lim, k2) && Rank(lim, k2, n) >= Rank(lim, k, n)
  {
    RankGrows(lim, k, k2, n);
  }

  /** A conflict: whatever is taken back weighs less than the one literal learnt on level b. */
  lemma ConflictAdvances(lim: seq<nat>, k: nat, b: nat, n: nat)
    requires Layered(lim, k) && b < |lim| && k <= n
    ensures Layered(lim[..b], lim[b] + 1)
    ensures Rank(lim[..b], lim[b] + 1, n) > Rank(lim, k, n)
  {
    var s, w := Rank(lim, lim[b], n), Weight(b + 1, n);
    RankTail(lim, k, b, k, n);
    LessTimes(k - lim[b], n, w);
    RankPrefix(lim, b, lim[b], n);
    LevelBelow(lim[..b], lim[b]);
    assert Rank(lim[..b], lim[b] + 1, n) >= s + Weight(b, n) by {
      WeightFalls(LevelAt(lim[..b], lim[b]), b, n);
    }
    assert Weight(b, n) == (n + 1) * w;
    OneMore(n, w);
    WeightFalls(b + 1, b + 1, n);
  }

  lemma {:induction false} LevelBelow(lim: seq<nat>, i: nat)
    ensures LevelAt(lim, i) <= |lim|
  {
    if lim != [] {
      LevelBelow(lim[..|lim| - 1], i);
    }
  }

  // ----- restarts -----

  function PowReal(y: real, e: nat): real {
    if e == 0 then 1.0 else y * PowReal(y, e - 1)
  }

  /** The length of a finite Luby sequence: 1, 3, 7, ... */
  function Size(k: nat): nat {
    if k == 0 then 1 else 2 * Size(k - 1) + 1
  }

  /** The exponents 0, 0 0 1, 0 0 1 0 0 1 2, ...: each sequence is the one before twice, and one more. */
  ghost function LubySequence(k: nat): (s: seq<nat>)
    ensures |s| == Size(k)
  {
    if k == 0 then [0] else LubySequence(k - 1) + LubySequence(k - 1) + [k]
  }

  lemma {:induction false} LubyPrefix(k: nat, k2: nat)
    requires k <= k2
    ensures Size(k) <= Size(k2) && LubySequence(k) == LubySequence(k2)[..Size(k)]
    decreases k2
  {
    if k < k2 {
      LubyPrefix(k, k2 - 1);
      assert LubySequence(k2)[..Size(k)] == LubySequence(k2 - 1)[..Size(k)];
    }
  }

  /** Restart `x` has exponent `e`, in every finite sequence long enough. */
  ghost predicate LubyAt(x: nat, e: nat) {
    forall k: nat :: x < Size(k) ==> LubySequence(k)[x] == e
  }

  lemma LubyAgrees(k: nat, x: nat)
    requires x < Size(k)
    ensures LubyAt(x, LubySequence(k)[x])
  {
    forall k2: nat | x < Size(k2) ensures LubySequence(k2)[x] == LubySequence(k)[x] {
      if k <= k2 {
        LubyPrefix(k, k2);
      } else {
        LubyPrefix(k2, k);
      }
    }
  }

  lemma ModTwice(x: nat, s: nat)
    requires s > 0 && x < s + s
    ensures x % s == if x < s then x else x - s
  {
    if x >= s {
      assert x == s + (x - s);
    }
  }

  /** An index inside one of the two halves is found in the shorter sequence. */
  lemma LubyInner(k: nat, x: nat)
    requires k > 0 && x < Size(k) - 1
    ensures Size(k - 1) > 0 && x % Size(k - 1) < Size(k - 1)
    ensures LubySequence(k)[x] == LubySequence(k - 1)[x % Size(k - 1)]
  {
    var s, half := Size(k - 1), LubySequence(k - 1);
    SizePositive(k - 1);
    ModTwice(x, s);
    assert LubySequence(k) == half + half + [k];
  }

  lemma SizePositive(k: nat)
    ensures Size(k) > 0
  {}

  /** luby: finds the finite sequence that holds the index, then the sequence that ends with it. */
  method Luby(y: real, x0: nat) returns (r: real)
    ensures exists e: nat :: LubyAt(x0, e) && r == PowReal(y, e)
  {
    hide LubyAt, LubySequence;
    var size: nat, sq: nat, x: nat := 1, 0, x0;
    while size < x + 1
      invariant size == Size(sq) && x == x0
      decreases x + 1 - size
    {
      sq := sq + 1;
      size := 2 * size + 1;
    }
    LubyAgrees(sq, x);
    while size - 1 != x
      invariant size == Size(sq) && x < size && LubyAt(x0, LubySequence(sq)[x])
      decreases size
    {
      LubyInner(sq, x);
      size := (size - 1) / 2;
      sq := sq - 1;
      x := x % size;
    }
    LubyLast(sq);
    r := PowReal(y, sq);
  }

  lemma LubyLast(k: nat)
    ensures Size(k) > 0 && LubySequence(k)[Size(k) - 1] == k
  {}

  /** 1 + e (y - 1), the straight line below the powers of `y`. */
  ghost function Line(y: real, e: nat): real {
    1.0 + e as real * (y - 1.0)
  }

  lemma {:induction false} Bernoulli(y: real, e: nat)
    requires y >= 1.0
    ensures PowReal(y, e) >= Line(y, e)
  {
    if e == 0 {
      assert Line(y, 0) == 1.0;
    } else {
      Bernoulli(y, e - 1);
      TimesMore(y, PowReal(y, e - 1), Line(y, e - 1));
      LineNext(y, e - 1);
    }
  }

  lemma TimesMore(y: real, p: real, q: real)
    requires y >= 0.0 && p >= q
    ensures y * p >= y * q
  {}

  lemma Product(a: real, b: real)
    requires a >= 0.0 && b >= 0.0
    ensures a * b >= 0.0
  {}

  lemma LineNext(y: real, e: nat)
    requires y >= 1.0
    ensures y * Line(y, e) >= Line(y, e + 1)
  {
    var z := y - 1.0;
    var p := e as real * z;
    Product(e as real, z);
    Product(z, p);
    assert Line(y, e) == 1.0 + p && Line(y, e + 1) == 1.0 + p + z;
    Expand(z, p);
  }

  lemma Expand(z: real, p: real)
    ensures (1.0 + z) * (1.0 + p) == 1.0 + p + z + z * p
  {}

  lemma Quotient(a: real, b: real)
    requires a >= 0.0 && b > 0.0
    ensures a / b >= 0.0 && (a / b) * b == a
  {}

  lemma LineReaches(y: real, bound: nat) returns (e: nat)
    requires y > 1.0
    ensures Line(y, e) >= bound as real
  {
    var z := y - 1.0;
    Quotient(bound as real, z);
    var q := bound as real / z;
    e := q.Floor + 1;
    TimesMore(z, e as real, q);
    assert z * e as real == e as real * z && z * q == q * z;
  }

  /** The powers exceed every bound. */
  lemma PowersGrow(y: real, bound: nat) returns (e: nat)
    requires y > 1.0
    ensures PowReal(y, e) >= bound as real
  {
    hide Line;
    e := LineReaches(y, bound);
    Bernoulli(y, e);
  }

  /** The settings of the restarts: the options luby, rfirst and rinc. */
  datatype Schedule = Schedule(luby: bool, first: nat, inc: real)

  type GoodSchedule = c: Schedule | c.first > 0 && c.inc > 1.0 witness Schedule(true, 100, 2.0)

  /** The exponent of the limit of search `i`. */
  ghost predicate Exponent(c: Schedule, i: nat, e: nat) {
    if c.luby then LubyAt(i, e) else e == i
  }

  /** `first` times the power of the base, rounded down. */
  ghost predicate Allows(c: Schedule, e: nat, limit: nat) {
    Rounds(PowReal(c.inc, e), c.first, limit)
  }

  /** `n` is the whole part of `x * m`. */
  ghost predicate Rounds(x: real, m: nat, n: nat) {
    n as real <= x * m as real < n as real + 1.0
  }

  /** The number of conflicts allowed to search `i`. */
  ghost predicate LimitOf(c: Schedule, i: nat, limit: nat) {
    exists e: nat :: Exponent(c, i, e) && Allows(c, e, limit)
  }

  /** Converting to int; the factor is never negative. */
  function ToInt(x: real): nat {
    if x >= 0.0 then x.Floor else 0
  }

  lemma ToIntRounds(x: real, m: nat)
    requires x > 0.0
    ensures Rounds(x, m, ToInt(x * m as real))
  {
    Product(x, m as real);
  }

  lemma {:induction false} PowPositive(y: real, e: nat)
    requires y > 0.0
    ensures PowReal(y, e) > 0.0
  {
    if e > 0 {
      PowPositive(y, e - 1);
      PositiveProduct(y, PowReal(y, e - 1));
    }
  }

  lemma PositiveProduct(a: real, b: real)
    requires a > 0.0 && b > 0.0
    ensures a * b > 0.0
  {}

  method Limit(c: GoodSchedule, i: nat) returns (limit: nat)
    ensures LimitOf(c, i, limit)
  {
    hide LubyAt;
    var base := PowReal(c.inc, i);
    ghost var e: nat := i;
    if c.luby {
      base := Luby(c.inc, i);
      e :| LubyAt(i, e) && base == PowReal(c.inc, e);
    }
    PowPositive(c.inc, e);
    ToIntRounds(base, c.first);
    limit := ToInt(base * c.first as real);
    assert Exponent(c, i, e) && Allows(c, e, limit);
  }

  /** The first search is allowed `first` conflicts. */
  lemma FirstLimit(c: GoodSchedule, limit: nat)
    requires LimitOf(c, 0, limit)
    ensures limit == c.first
  {
    var e: nat :| Exponent(c, 0, e) && Allows(c, e, limit);
    LubyLast(0);
    if c.luby {
      LubyLimit(c, 0, 0, limit);
    }
    assert Rounds(1.0, c.first, limit);
  }

  /** Without the Luby sequence search `i` is allowed `first` conflicts times the i-th power of the base. */
  lemma GeometricLimit(c: GoodSchedule, i: nat, limit: nat)
    requires !c.luby
    ensures LimitOf(c, i, limit) <==> Rounds(PowReal(c.inc, i), c.first, limit)
  {
    assert Exponent(c, i, i);
    assert Allows(c, i, limit) <==> Rounds(PowReal(c.inc, i), c.first, limit);
  }

  /** With it the exponent is the entry of any long enough Luby sequence. */
  lemma LubyLimit(c: GoodSchedule, i: nat, k: nat, limit: nat)
    requires c.luby && i < Size(k)
    ensures LimitOf(c, i, limit) <==> Rounds(PowReal(c.inc, LubySequence(k)[i]), c.first, limit)
  {
    hide LubySequence;
    LubyAgrees(k, i);
    var e := LubySequence(k)[i];
    assert Exponent(c, i, e);
    assert Allows(c, e, limit) <==> Rounds(PowReal(c.inc, e), c.first, limit);
    if LimitOf(c, i, limit) {
      var e2: nat :| Exponent(c, i, e2) && Allows(c, e2, limit);
      assert LubyAt(i, e2) && e2 == e;
    }
  }

  /** Sooner or later a search is allowed more conflicts than any search needs. */
  lemma LimitsGrow(c: GoodSchedule, bound: nat) returns (last: nat)
    ensures forall limit: nat :: LimitOf(c, last, limit) ==> limit > bound
  {
    hide LimitOf, LubySequence;
    var k := PowersGrow(c.inc, bound + 2);
    LubyLast(k);
    last := if c.luby then Size(k) - 1 else k;
    forall limit: nat | LimitOf(c, last, limit) ensures limit > bound {
      if c.luby {
        LubyLimit(c, last, k, limit);
      } else {
        GeometricLimit(c, last, limit);
      }
      RoundsAbove(PowReal(c.inc, k), c.first, limit, bound);
    }
  }

  lemma RoundsAbove(p: real, first: nat, limit: nat, bound: nat)
    requires first > 0 && p >= (bound + 2) as real && Rounds(p, first, limit)
    ensures limit > bound
  {
    TimesMore(p, first as real, 1.0);
    assert p * 1.0 == p;
  }
}
