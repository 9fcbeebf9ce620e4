/** Closed covers by compatible classes, and the greedy clique that bounds their size from
    below (findPairwiseIncStates of memin/minimizer.cpp). */
module Cover {
  import opened Incompat

  /** The tabulated minimisation problem: `n` states, `m` input columns, next states (-1 if
      unspecified) and the incompatibility matrix. */
  datatype Problem = Problem(n: nat, m: nat, next: seq<seq<int>>, inc: seq<bool>)

  ghost predicate GoodProblem(p: Problem) {
    && |p.next| == p.n && |p.inc| == Cells(p.n, p.n) && Symmetric(p.inc, p.n)
    && (forall s :: 0 <= s < p.n ==> |p.next[s]| == p.m && !Marked(p.inc, p.n, s, s))
    && (forall s, a :: 0 <= s < p.n && 0 <= a < p.m ==> -1 <= p.next[s][a] < p.n)
  }

  /** Class `d` holds the successors of all members of class `c` on input `a`. */
  ghost predicate Follows(p: Problem, cls: seq<set<nat>>, a: nat, c: nat, d: nat)
    requires GoodProblem(p) && a < p.m && c < |cls| && d < |cls|
  {
    forall s :: s in cls[c] && s < p.n && p.next[s][a] != -1 ==> p.next[s][a] in cls[d]
  }

  ghost predicate HasSucc(p: Problem, cls: seq<set<nat>>, a: nat, c: nat)
    requires GoodProblem(p) && a < p.m && c < |cls|
  {
    exists s :: s in cls[c] && s < p.n && p.next[s][a] != -1
  }

  ghost predicate Closes(p: Problem, cls: seq<set<nat>>, a: nat, c: nat)
    requires GoodProblem(p) && a < p.m && c < |cls|
  {
    exists d :: 0 <= d < |cls| && Follows(p, cls, a, c, d)
  }

  ghost predicate InSome(cls: seq<set<nat>>, s: nat) {
    exists c :: 0 <= c < |cls| && s in cls[c]
  }

  ghost predicate Compatible(p: Problem, c: set<nat>)
    requires GoodProblem(p)
  {
    forall s, t :: s in c && t in c && s < p.n && t < p.n ==> !Marked(p.inc, p.n, s, t)
  }

  /** Every state is in a class, classes are compatible, and the successors of a class on an
      input stay together in some class. */
  ghost predicate ClosedCover(p: Problem, cls: seq<set<nat>>)
    requires GoodProblem(p)
  {
    && (forall c, s :: 0 <= c < |cls| && s in cls[c] ==> s < p.n)
    && (forall s :: 0 <= s < p.n ==> InSome(cls, s))
    && (forall c :: 0 <= c < |cls| ==> Compatible(p, cls[c]))
    && (forall a, c :: 0 <= a < p.m && 0 <= c < |cls| && HasSucc(p, cls, a, c) ==> Closes(p, cls, a, c))
  }

  // ----- the clique -----

  ghost predicate Clique(p: Problem, ps: seq<nat>)
    requires GoodProblem(p)
  {
    && (forall i :: 0 <= i < |ps| ==> ps[i] < p.n)
    && (forall i, j :: 0 <= i < j < |ps| ==> Marked(p.inc, p.n, ps[i], ps[j]))
  }

  /** No further state is incompatible with all of the clique. */
  ghost predicate MaximalClique(p: Problem, ps: seq<nat>)
    requires GoodProblem(p) && Clique(p, ps)
  {
    forall s :: 0 <= s < p.n ==> HasCompatible(p, ps, s)
  }

  ghost predicate HasCompatible(p: Problem, ps: seq<nat>, s: nat)
    requires |p.inc| == Cells(p.n, p.n) && s < p.n && forall i :: 0 <= i < |ps| ==> ps[i] < p.n
  {
    exists i :: 0 <= i < |ps| && !Marked(p.inc, p.n, s, ps[i])
  }

  function CountMarks(inc: seq<bool>, n: nat, s: nat, k: nat): nat
    requires |inc| == Cells(n, n) && s < n && k <= n
  {
    if k == 0 then 0 else CountMarks(inc, n, s, k - 1) + if Marked(inc, n, s, k - 1) then 1 else 0
  }

  ghost predicate AllBelow(states: seq<nat>, k: nat) {
    && (forall i :: 0 <= i < |states| ==> states[i] < k)
    && (forall s :: 0 <= s < k ==> s in states)
  }

  ghost predicate SortedByMarks(inc: seq<bool>, n: nat, states: seq<nat>)
    requires |inc| == Cells(n, n) && forall i :: 0 <= i < |states| ==> states[i] < n
  {
    forall i, j :: 0 <= i < j < |states| ==> CountMarks(inc, n, states[i], n) >= CountMarks(inc, n, states[j], n)
  }

  /** The states in decreasing order of their number of incompatible states. */
  method SortStates(inc: seq<bool>, n: nat) returns (states: seq<nat>)
    requires |inc| == Cells(n, n)
    ensures |states| == n && AllBelow(states, n) && SortedByMarks(inc, n, states)
  {
    hide CountMarks;
    states := [];
    for s := 0 to n
      invariant |states| == s && AllBelow(states, s) && SortedByMarks(inc, n, states)
    {
      var k := 0;
      while k < |states| && CountMarks(inc, n, states[k], n) >= CountMarks(inc, n, s, n)
        invariant 0 <= k <= |states|
        invariant forall i :: 0 <= i < k ==> CountMarks(inc, n, states[i], n) >= CountMarks(inc, n, s, n)
      {
        k := k + 1;
      }
      InsertStays(states, k, s);
      states := states[..k] + [s] + states[k..];
    }
  }

  lemma InsertStays(states: seq<nat>, k: nat, s: nat)
    requires k <= |states| && AllBelow(states, s)
    ensures AllBelow(states[..k] + [s] + states[k..], s + 1)
  {
    var after := states[..k] + [s] + states[k..];
    forall t | 0 <= t < s + 1 ensures t in after {
      if t < s {
        assert t in states;
        var i :| 0 <= i < |states| && states[i] == t;
        assert after[if i < k then i else i + 1] == t;
      } else {
        assert after[k] == s;
      }
    }
  }

  /** The states incompatible with `s`. */
  ghost function Incompatibles(inc: seq<bool>, n: nat, s: nat, k: nat): set<nat>
    requires |inc| == Cells(n, n) && s < n && k <= n
  {
    set u: nat | u < k && Marked(inc, n, s, u)
  }

  lemma {:induction false} CountIsSize(inc: seq<bool>, n: nat, s: nat, k: nat)
    requires |inc| == Cells(n, n) && s < n && k <= n
    ensures CountMarks(inc, n, s, k) == |Incompatibles(inc, n, s, k)|
  {
    if k > 0 {
      CountIsSize(inc, n, s, k - 1);
      if Marked(inc, n, s, k - 1) {
        assert Incompatibles(inc, n, s, k) == Incompatibles(inc, n, s, k - 1) + {k - 1};
      } else {
        assert Incompatibles(inc, n, s, k) == Incompatibles(inc, n, s, k - 1);
      }
    } else {
      assert Incompatibles(inc, n, s, 0) == {};
    }
  }

  /** State `s` may follow the first `i` states of the clique. */
  ghost predicate MayFollow(p: Problem, ps: seq<nat>, i: nat, s: nat)
    requires GoodProblem(p) && Clique(p, ps) && i <= |ps|
  {
    s < p.n && forall j :: 0 <= j < i ==> Marked(p.inc, p.n, s, ps[j])
  }

  /** Each clique state has as many incompatible states as any that could have stood in its place. */
  ghost predicate GreedyClique(p: Problem, ps: seq<nat>)
    requires GoodProblem(p) && Clique(p, ps)
  {
    forall i, s :: 0 <= i < |ps| && MayFollow(p, ps, i, s) ==>
      |Incompatibles(p.inc, p.n, s, p.n)| <= |Incompatibles(p.inc, p.n, ps[i], p.n)|
  }

  /** The first `i` states have been considered. */
  ghost predicate Choosing(p: Problem, states: seq<nat>, ps: seq<nat>, i: nat)
    requires GoodProblem(p)
  {
    && |states| == p.n && AllBelow(states, p.n) && SortedByMarks(p.inc, p.n, states) && i <= |states|
    && Clique(p, ps) && GreedyClique(p, ps)
    && (forall k :: 0 <= k < i ==> HasCompatible(p, ps, states[k]))
  }

  lemma ChooseNext(p: Problem, states: seq<nat>, ps: seq<nat>, i: nat)
    requires GoodProblem(p) && Choosing(p, states, ps, i) && i < |states| && MayFollow(p, ps, |ps|, states[i])
    ensures Choosing(p, states, ps + [states[i]], i + 1)
  {
    var s1, ps2 := states[i], ps + [states[i]];
    assert forall l :: 0 <= l < |ps| ==> ps2[l] == ps[l];
    forall j, s | 0 <= j < |ps2| && MayFollow(p, ps2, j, s)
      ensures |Incompatibles(p.inc, p.n, s, p.n)| <= |Incompatibles(p.inc, p.n, ps2[j], p.n)|
    {
      if j < |ps| {
        assert MayFollow(p, ps, j, s);
      } else {
        LaterCount(p, states, ps, i, s);
      }
    }
    forall k | 0 <= k < i + 1 ensures HasCompatible(p, ps2, states[k]) {
      if k < i {
        var l :| 0 <= l < |ps| && !Marked(p.inc, p.n, states[k], ps[l]);
        assert ps2[l] == ps[l];
      } else {
        assert ps2[|ps|] == s1;
      }
    }
  }

  /** A state that may follow has not been considered, so it stands later in the order. */
  lemma LaterCount(p: Problem, states: seq<nat>, ps: seq<nat>, i: nat, s: nat)
    requires GoodProblem(p) && Choosing(p, states, ps, i) && i < |states| && s < p.n
    requires forall j :: 0 <= j < |ps| ==> Marked(p.inc, p.n, s, ps[j])
    ensures |Incompatibles(p.inc, p.n, s, p.n)| <= |Incompatibles(p.inc, p.n, states[i], p.n)|
  {
    hide CountMarks, Incompatibles;
    forall l | 0 <= l < i ensures states[l] != s {
      assert HasCompatible(p, ps, states[l]);
    }
    assert s in states;
    var k :| 0 <= k < |states| && states[k] == s;
    CountIsSize(p.inc, p.n, s, p.n);
    CountIsSize(p.inc, p.n, states[i], p.n);
  }

  /** The greedy clique: the states with the most incompatible ones come first. */
  method FindPairwiseIncStates(p: Problem) returns (ps: seq<nat>)
    requires GoodProblem(p)
    ensures Clique(p, ps) && MaximalClique(p, ps) && GreedyClique(p, ps)
  {
    hide GreedyClique, SortedByMarks;
    var states := SortStates(p.inc, p.n);
    ps := [];
    NothingChosen(p, states);
    for i := 0 to |states|
      invariant Choosing(p, states, ps, i)
    {
      var s1 := states[i];
      var compStateFound := false;
      for j := 0 to |ps|
        invariant !compStateFound && forall l :: 0 <= l < j ==> Marked(p.inc, p.n, s1, ps[l])
      {
        if !Marked(p.inc, p.n, s1, ps[j]) {
          compStateFound := true;
          assert HasCompatible(p, ps, s1);
          break;
        }
      }
      if !compStateFound {
        ChooseNext(p, states, ps, i);
        ps := ps + [s1];
      }
    }
    forall s | 0 <= s < p.n ensures HasCompatible(p, ps, s) {
      assert s in states;
    }
  }

  lemma NothingChosen(p: Problem, states: seq<nat>)
    requires GoodProblem(p) && |states| == p.n && AllBelow(states, p.n) && SortedByMarks(p.inc, p.n, states)
    ensures Choosing(p, states, [], 0)
  {}

  /** The clique in class order: state `ps[i]` sits in class `i`. */
  ghost predicate Placed(ps: seq<nat>, cls: seq<set<nat>>, k: nat) {
    k <= |ps| && k <= |cls| && forall i :: 0 <= i < k ==> ps[i] in cls[i]
  }

  ghost function Swap(cls: seq<set<nat>>, i: nat, j: nat): seq<set<nat>>
    requires i < |cls| && j < |cls|
  {
    cls[i := cls[j]][j := cls[i]]
  }

  lemma SwapKeepsCover(p: Problem, cls: seq<set<nat>>, i: nat, j: nat)
    requires GoodProblem(p) && ClosedCover(p, cls) && i < |cls| && j < |cls|
    ensures ClosedCover(p, Swap(cls, i, j))
  {
    var cls2 := Swap(cls, i, j);
    forall s | 0 <= s < p.n ensures InSome(cls2, s) {
      assert InSome(cls, s);
      var c :| 0 <= c < |cls| && s in cls[c];
      assert s in cls2[if c == i then j else if c == j then i else c];
    }
    forall a, c | 0 <= a < p.m && 0 <= c < |cls2| && HasSucc(p, cls2, a, c) ensures Closes(p, cls2, a, c) {
      var c1 := if c == i then j else if c == j then i else c;
      assert cls2[c] == cls[c1];
      assert HasSucc(p, cls, a, c1);
      var d :| 0 <= d < |cls| && Follows(p, cls, a, c1, d);
      assert Follows(p, cls2, a, c, if d == i then j else if d == j then i else d);
    }
  }

  /** Renumbering classes puts clique state `i` into class `i`: fixing them loses no cover.
      In particular a cover has at least as many classes as the clique has states. */
  lemma {:induction false} PlaceClique(p: Problem, ps: seq<nat>, cls: seq<set<nat>>, k: nat) returns (cls2: seq<set<nat>>)
    requires GoodProblem(p) && Clique(p, ps) && ClosedCover(p, cls) && k <= |ps|
    ensures |cls2| == |cls| && ClosedCover(p, cls2) && k <= |cls| && Placed(ps, cls2, k)
  {
    if k == 0 {
      cls2 := cls;
    } else {
      var cls1 := PlaceClique(p, ps, cls, k - 1);
      var s := ps[k - 1];
      assert InSome(cls1, s);
      var c :| 0 <= c < |cls1| && s in cls1[c];
      if c < k - 1 {
        assert false;
      }
      SwapKeepsCover(p, cls1, k - 1, c);
      cls2 := Swap(cls1, k - 1, c);
    }
  }

  /** One class per state is a closed cover, so a cover with `n` classes always exists. */
  ghost function Singletons(n: nat): seq<set<nat>> {
    seq(n, s => {s})
  }

  lemma SingletonsCover(p: Problem)
    requires GoodProblem(p)
    ensures ClosedCover(p, Singletons(p.n))
  {
    var cls := Singletons(p.n);
    forall s | 0 <= s < p.n ensures InSome(cls, s) {
      assert s in cls[s];
    }
    forall a, c | 0 <= a < p.m && 0 <= c < |cls| && HasSucc(p, cls, a, c) ensures Closes(p, cls, a, c) {
      assert Follows(p, cls, a, c, p.next[c][a]);
    }
  }
}
