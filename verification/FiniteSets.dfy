/** Sizes of finite sets of numbers. */
module FiniteSets {

  ghost function Below(n: nat): (s: set<nat>)
    ensures |s| == n && forall v: nat :: v in s <==> v < n
  {
    if n == 0 then {} else Below(n - 1) + {n - 1}
  }

  lemma SubsetSize(s: set<nat>, t: set<nat>)
    requires s <= t
    ensures |s| <= |t| && (s != t ==> |s| < |t|)
  {
    assert t == s + (t - s);
  }
}
