/** The binary heap that orders the decision variables by activity (memin/minisat/mtl/Heap.h). */
module OrderHeap {

  function Left(i: nat): nat { i * 2 + 1 }

  function Right(i: nat): nat { (i + 1) * 2 }

  function Parent(i: nat): nat
    requires i > 0
  {
    (i - 1) / 2
  }

  predicate InRange(h: seq<nat>, act: seq<real>) {
    forall i :: 0 <= i < |h| ==> h[i] < |act|
  }

  /** VarOrderLt: higher activity comes first. */
  predicate Lt(act: seq<real>, x: nat, y: nat)
    requires x < |act| && y < |act|
  {
    act[x] > act[y]
  }

  /** Position `j` is not smaller than its parent. */
  predicate Ordered(h: seq<nat>, act: seq<real>, j: nat)
    requires InRange(h, act) && 0 < j < |h|
  {
    !Lt(act, h[j], h[Parent(j)])
  }

  /** Heap order below and including position `lo`. */
  ghost predicate HeapFrom(h: seq<nat>, act: seq<real>, lo: nat) {
    InRange(h, act) && forall j :: 0 < j < |h| && Parent(j) >= lo ==> Ordered(h, act, j)
  }

  ghost predicate HeapOrder(h: seq<nat>, act: seq<real>) {
    InRange(h, act) && forall j :: 0 < j < |h| ==> Ordered(h, act, j)
  }

  /** `heap` and `indices` are inverse to each other. */
  ghost predicate Inverse(h: seq<nat>, indices: seq<int>) {
    && (forall i :: 0 <= i < |h| ==> h[i] < |indices| && indices[h[i]] == i)
    && (forall x :: 0 <= x < |indices| && indices[x] >= 0 ==> indices[x] < |h| && h[indices[x]] == x)
  }

  ghost function Members(h: seq<nat>): set<nat> {
    set i | 0 <= i < |h| :: h[i]
  }

  /** No element comes before the root. */
  lemma {:induction false} RootFirst(h: seq<nat>, act: seq<real>, j: nat)
    requires HeapOrder(h, act) && j < |h|
    ensures !Lt(act, h[j], h[0])
  {
    if j > 0 {
      RootFirst(h, act, Parent(j));
      assert Ordered(h, act, j);
    }
  }

  // ----- moving one element -----

  function Exchange(h: seq<nat>, i: nat, j: nat): seq<nat>
    requires i < |h| && j < |h|
  {
    h[i := h[j]][j := h[i]]
  }

  lemma ExchangeInverse(h: seq<nat>, indices: seq<int>, i: nat, j: nat)
    requires Inverse(h, indices) && i < |h| && j < |h| && i != j
    ensures h[i] < |indices| && h[j] < |indices|
    ensures Inverse(Exchange(h, i, j), indices[h[j] := i][h[i] := j])
    ensures Members(Exchange(h, i, j)) == Members(h)
  {
    var h2 := Exchange(h, i, j);
    assert h[i] != h[j];
    forall x | x in Members(h) ensures x in Members(h2) {
      var k :| 0 <= k < |h| && h[k] == x;
      assert h2[if k == i then j else if k == j then i else k] == x;
    }
    forall x | x in Members(h2) ensures x in Members(h) {
      var k :| 0 <= k < |h2| && h2[k] == x;
      assert h[if k == i then j else if k == j then i else k] == x;
    }
  }

  /** Heap order except perhaps between `i` and its parent. */
  ghost predicate UpHole(h: seq<nat>, act: seq<real>, i: nat) {
    && InRange(h, act) && i < |h|
    && (forall j :: 0 < j < |h| && j != i ==> Ordered(h, act, j))
    && (forall j :: 0 < j < |h| && i > 0 && Parent(j) == i ==> !Lt(act, h[j], h[Parent(i)]))
  }

  lemma UpStep(h: seq<nat>, act: seq<real>, i: nat)
    requires UpHole(h, act, i) && i > 0 && Lt(act, h[i], h[Parent(i)])
    ensures UpHole(Exchange(h, i, Parent(i)), act, Parent(i))
  {
    var p := Parent(i);
    var h2 := Exchange(h, i, p);
    assert p > 0 ==> Ordered(h, act, p);
    forall j | 0 < j < |h2| && j != p ensures Ordered(h2, act, j) {
      if j != i {
        assert Ordered(h, act, j);
      }
    }
    forall j | 0 < j < |h2| && p > 0 && Parent(j) == p ensures !Lt(act, h2[j], h2[Parent(p)]) {
      if j != i {
        assert Ordered(h, act, j);
      }
    }
  }

  lemma UpDone(h: seq<nat>, act: seq<real>, i: nat)
    requires UpHole(h, act, i) && (i == 0 || !Lt(act, h[i], h[Parent(i)]))
    ensures HeapOrder(h, act)
  {}

  /** Heap order from `lo` on, except perhaps between `i` and its children. */
  ghost predicate DownHole(h: seq<nat>, act: seq<real>, i: nat, lo: nat) {
    && InRange(h, act) && lo <= i < |h|
    && (forall j :: 0 < j < |h| && Parent(j) >= lo && Parent(j) != i ==> Ordered(h, act, j))
    && (forall j :: 0 < j < |h| && i > lo && Parent(j) == i && Parent(i) >= lo ==> !Lt(act, h[j], h[Parent(i)]))
  }

  lemma DownStep(h: seq<nat>, act: seq<real>, i: nat, lo: nat, child: nat)
    requires DownHole(h, act, i, lo) && child < |h| && (child == Left(i) || child == Right(i))
    requires Lt(act, h[child], h[i])
    requires Left(i) < |h| ==> !Lt(act, h[Left(i)], h[child])
    requires Right(i) < |h| ==> !Lt(act, h[Right(i)], h[child])
    ensures DownHole(Exchange(h, i, child), act, child, lo)
  {
    var h2 := Exchange(h, i, child);
    forall j | 0 < j < |h2| && Parent(j) >= lo && Parent(j) != child ensures Ordered(h2, act, j) {
      if Parent(j) == i {
        assert j == Left(i) || j == Right(i);
      } else if j != i {
        assert Ordered(h, act, j);
      }
    }
    forall j | 0 < j < |h2| && child > lo && Parent(j) == child && Parent(child) >= lo ensures !Lt(act, h2[j], h2[Parent(child)]) {
      assert Ordered(h, act, j);
    }
  }

  lemma DownDone(h: seq<nat>, act: seq<real>, i: nat, lo: nat)
    requires DownHole(h, act, i, lo)
    requires Left(i) < |h| ==> !Lt(act, h[Left(i)], h[i])
    requires Right(i) < |h| ==> !Lt(act, h[Right(i)], h[i])
    ensures HeapFrom(h, act, lo)
  {
    forall j | 0 < j < |h| && Parent(j) >= lo ensures Ordered(h, act, j) {
      if Parent(j) == i {
        assert j == Left(i) || j == Right(i);
      }
    }
  }

  /** While `x` is on its way to position `i`, the arrays with `x` put there are in order. */
  ghost predicate Rising(heap: seq<nat>, indices: seq<int>, act: seq<real>, x: nat, i: nat, members: set<nat>) {
    && i < |heap| && x < |act| && x < |indices| && InRange(heap, act)
    && Inverse(heap[i := x], indices[x := i]) && UpHole(heap[i := x], act, i) && Members(heap[i := x]) == members
  }

  /** Moving the hole from `i` to `c` exchanges the two elements. */
  lemma HoleMoves(heap: seq<nat>, indices: seq<int>, x: nat, i: nat, c: nat)
    requires i < |heap| && c < |heap| && c != i && x < |indices| && Inverse(heap[i := x], indices[x := i])
    ensures heap[c] < |indices|
    ensures heap[i := heap[c]][c := x] == Exchange(heap[i := x], i, c)
    ensures Inverse(heap[i := heap[c]][c := x], indices[heap[c] := i][x := c])
    ensures Members(heap[i := heap[c]][c := x]) == Members(heap[i := x])
  {
    var h := heap[i := x];
    ExchangeInverse(h, indices[x := i], i, c);
    assert h[c] == heap[c] && heap[c] != x;
    assert indices[heap[c] := i][x := c] == indices[x := i][h[c] := i][h[i] := c];
  }

  lemma RisingStep(heap: seq<nat>, indices: seq<int>, act: seq<real>, x: nat, i: nat, members: set<nat>)
    requires Rising(heap, indices, act, x, i, members) && i > 0 && Lt(act, x, heap[Parent(i)])
    ensures heap[Parent(i)] < |indices|
    ensures Rising(heap[i := heap[Parent(i)]], indices[heap[Parent(i)] := i], act, x, Parent(i), members)
  {
    HoleMoves(heap, indices, x, i, Parent(i));
    UpStep(heap[i := x], act, i);
  }

  ghost predicate Sinking(heap: seq<nat>, indices: seq<int>, act: seq<real>, x: nat, i: nat, lo: nat, members: set<nat>) {
    && i < |heap| && x < |act| && x < |indices| && InRange(heap, act)
    && Inverse(heap[i := x], indices[x := i]) && DownHole(heap[i := x], act, i, lo) && Members(heap[i := x]) == members
  }

  lemma SinkingStep(heap: seq<nat>, indices: seq<int>, act: seq<real>, x: nat, i: nat, lo: nat, members: set<nat>, child: nat)
    requires Sinking(heap, indices, act, x, i, lo, members) && Left(i) < |heap|
    requires child == if Right(i) < |heap| && Lt(act, heap[Right(i)], heap[Left(i)]) then Right(i) else Left(i)
    requires Lt(act, heap[child], x)
    ensures heap[child] < |indices|
    ensures Sinking(heap[i := heap[child]], indices[heap[child] := i], act, x, child, lo, members)
  {
    HoleMoves(heap, indices, x, i, child);
    DownStep(heap[i := x], act, i, lo, child);
  }

  const RESCALE_LIMIT: real := 1e100
  const RESCALE_FACTOR: real := 1e-100

  function Rescaled(act: seq<real>): (r: seq<real>)
    ensures |r| == |act|
  {
    seq(|act|, i requires 0 <= i < |act| => act[i] * RESCALE_FACTOR)
  }

  /** Rescaling all activities alike keeps the order of the heap. */
  lemma RescaledOrder(h: seq<nat>, act: seq<real>)
    requires HeapOrder(h, act)
    ensures HeapOrder(h, Rescaled(act))
  {
    forall j | 0 < j < |h| ensures Ordered(h, Rescaled(act), j) {
      assert Ordered(h, act, j);
      RescaledLt(act, h[j], h[Parent(j)]);
    }
  }

  lemma RescaledLt(act: seq<real>, x: nat, y: nat)
    requires x < |act| && y < |act|
    ensures Lt(Rescaled(act), x, y) <==> Lt(act, x, y)
  {}

  class Heap {
    var heap: seq<nat>
    var indices: seq<int>
    var activity: seq<real>

    ghost predicate Valid()
      reads this
    {
      Inverse(heap, indices) && HeapOrder(heap, activity)
    }

    predicate InHeap(n: nat)
      reads this
    {
      n < |indices| && indices[n] >= 0
    }

    constructor ()
      ensures Valid() && heap == [] && indices == [] && activity == []
    {
      heap, indices, activity := [], [], [];
    }

    lemma InHeapIsMember(n: nat)
      requires Inverse(heap, indices)
      ensures InHeap(n) <==> n in Members(heap)
    {
      if InHeap(n) {
        assert heap[indices[n]] == n;
      }
    }

    /** Moves the element at `i` towards the root. */
    method PercolateUp(i0: nat)
      requires Inverse(heap, indices) && UpHole(heap, activity, i0)
      modifies this`heap, this`indices
      ensures Valid() && Members(heap) == old(Members(heap)) && |indices| == old(|indices|) && |heap| == old(|heap|)
    {
      var i: nat, x := i0, heap[i0];
      ghost var members := Members(heap);
      assert heap[i := x] == heap && indices[x := i] == indices;
      while i != 0 && Lt(activity, x, heap[Parent(i)])
        invariant Rising(heap, indices, activity, x, i, members) && |indices| == old(|indices|) && |heap| == old(|heap|)
      {
        var p := Parent(i);
        RisingStep(heap, indices, activity, x, i, members);
        heap, indices := heap[i := heap[p]], indices[heap[p] := i];
        i := p;
      }
      UpDone(heap[i := x], activity, i);
      heap, indices := heap[i := x], indices[x := i];
    }

    /** Moves the element at `i` towards the leaves. */
    method PercolateDown(i0: nat, ghost lo: nat)
      requires Inverse(heap, indices) && DownHole(heap, activity, i0, lo)
      modifies this`heap, this`indices
      ensures Inverse(heap, indices) && HeapFrom(heap, activity, lo)
      ensures Members(heap) == old(Members(heap)) && |indices| == old(|indices|) && |heap| == old(|heap|)
    {
      var i: nat, x := i0, heap[i0];
      ghost var members := Members(heap);
      assert heap[i := x] == heap && indices[x := i] == indices;
      while Left(i) < |heap|
        invariant Sinking(heap, indices, activity, x, i, lo, members) && |indices| == old(|indices|) && |heap| == old(|heap|)
        decreases |heap| - i
      {
        var child := if Right(i) < |heap| && Lt(activity, heap[Right(i)], heap[Left(i)]) then Right(i) else Left(i);
        if !Lt(activity, heap[child], x) {
          break;
        }
        SinkingStep(heap, indices, activity, x, i, lo, members, child);
        heap, indices := heap[i := heap[child]], indices[heap[child] := i];
        i := child;
      }
      DownDone(heap[i := x], activity, i, lo);
      heap, indices := heap[i := x], indices[x := i];
    }

    method Insert(n: nat)
      requires Valid() && !InHeap(n) && n < |activity|
      modifies this`heap, this`indices
      ensures Valid() && Members(heap) == old(Members(heap)) + {n}
      ensures |indices| == if n < old(|indices|) then old(|indices|) else n + 1
    {
      if n >= |indices| {
        indices := indices + seq(n + 1 - |indices|, _ => -1);
      }
      indices := indices[n := |heap|];
      ghost var h := heap;
      heap := heap + [n];
      assert Members(heap) == Members(h) + {n} by {
        assert heap[|h|] == n;
        forall x | x in Members(h) ensures x in Members(heap) {
          var k :| 0 <= k < |h| && h[k] == x;
          assert heap[k] == x;
        }
      }
      forall j | 0 < j < |heap| && j != |h| ensures Ordered(heap, activity, j) {
        assert Ordered(h, activity, j);
      }
      PercolateUp(indices[n]);
    }

    /** Takes out a variable that no other one precedes. */
    method RemoveMin() returns (x: nat)
      requires Valid() && heap != []
      modifies this`heap, this`indices
      ensures Valid() && x in old(Members(heap)) && Members(heap) == old(Members(heap)) - {x}
      ensures x < |activity| && forall y :: y in old(Members(heap)) ==> y < |activity| && activity[y] <= activity[x]
      ensures |heap| == old(|heap|) - 1 && |indices| == old(|indices|)
    {
      x := heap[0];
      forall y | y in Members(heap) ensures y < |activity| && activity[y] <= activity[x] {
        var j :| 0 <= j < |heap| && heap[j] == y;
        RootFirst(heap, activity, j);
      }
      ghost var h, ix := heap, indices;
      var last := heap[|heap| - 1];
      heap := heap[0 := last];
      indices := indices[last := 0];
      indices := indices[x := -1];
      heap := heap[..|heap| - 1];
      RemovedRoot(h, ix, activity);
      if |heap| > 1 {
        PercolateDown(0, 0);
      }
    }

    /** Rebuilds the heap from the elements of `ns`. */
    method Build(ns: seq<nat>)
      requires Inverse(heap, indices) && InRange(ns, activity)
      requires forall i, j :: 0 <= i < j < |ns| ==> ns[i] != ns[j]
      requires forall i :: 0 <= i < |ns| ==> ns[i] < |indices|
      modifies this`heap, this`indices
      ensures Valid() && Members(heap) == Members(ns) && |indices| == old(|indices|)
    {
      for i := 0 to |heap|
        invariant |indices| == old(|indices|) && heap == old(heap)
        invariant forall x :: 0 <= x < |indices| ==> indices[x] < 0 || (indices[x] >= i && indices[x] == old(indices)[x])
      {
        indices := indices[heap[i] := -1];
      }
      heap := [];
      assert forall x :: 0 <= x < |indices| ==> indices[x] < 0;
      for i := 0 to |ns|
        invariant heap == ns[..i] && |indices| == old(|indices|) && Inverse(heap, indices)
      {
        indices := indices[ns[i] := i];
        heap := heap + [ns[i]];
      }
      assert heap == ns;
      var i: nat := |heap| / 2;
      while i > 0
        invariant i <= |heap| / 2 && Inverse(heap, indices) && HeapFrom(heap, activity, i) && Members(heap) == Members(ns) && |indices| == old(|indices|)
      {
        i := i - 1;
        PercolateDown(i, i);
      }
    }

    /** The activity of `v` grows, all are rescaled if it has become too large, and the heap is updated. */
    method Bump(v: nat, inc: real) returns (rescaled: bool)
      requires Valid() && v < |activity| && inc >= 0.0
      modifies this
      ensures Valid() && Members(heap) == old(Members(heap)) && |indices| == old(|indices|)
      ensures rescaled <==> old(activity)[v] + inc > RESCALE_LIMIT
      ensures var raised := old(activity)[v := old(activity)[v] + inc];
              activity == if rescaled then Rescaled(raised) else raised
    {
      Raise(v, inc);
      rescaled := activity[v] > RESCALE_LIMIT;
      if rescaled {
        RescaledOrder(heap, activity);
        activity := Rescaled(activity);
      }
    }

    /** The activity of `v` grows and `v` rises in the heap. */
    method Raise(v: nat, inc: real)
      requires Valid() && v < |activity| && inc >= 0.0
      modifies this
      ensures Valid() && Members(heap) == old(Members(heap)) && |indices| == old(|indices|)
      ensures activity == old(activity)[v := old(activity)[v] + inc]
    {
      ghost var act := activity;
      activity := activity[v := activity[v] + inc];
      if InHeap(v) {
        var i := indices[v];
        forall j | 0 < j < |heap| && j != i ensures Ordered(heap, activity, j) {
          assert Ordered(heap, act, j);
        }
        forall j | 0 < j < |heap| && i > 0 && Parent(j) == i ensures !Lt(activity, heap[j], heap[Parent(i)]) {
          assert Ordered(heap, act, j) && Ordered(heap, act, i);
        }
        PercolateUp(i);
      } else {
        forall j | 0 < j < |heap| ensures Ordered(heap, activity, j) {
          assert Ordered(heap, act, j);
          InHeapIsMember(v);
          assert heap[j] in Members(heap) && heap[Parent(j)] in Members(heap);
        }
      }
    }

    method AddVar(act: real)
      requires Valid()
      modifies this`activity
      ensures Valid() && activity == old(activity) + [act]
    {
      activity := activity + [act];
      forall j | 0 < j < |heap| ensures Ordered(heap, activity, j) {
        assert Ordered(heap, activity[..|activity| - 1], j);
      }
    }
  }

  lemma RemovedRoot(h: seq<nat>, indices: seq<int>, act: seq<real>)
    requires Inverse(h, indices) && HeapOrder(h, act) && h != []
    ensures h[0] < |indices| && h[|h| - 1] < |indices|
    ensures var h2, ix2 := h[0 := h[|h| - 1]][..|h| - 1], indices[h[|h| - 1] := 0][h[0] := -1];
            Inverse(h2, ix2) && Members(h2) == Members(h) - {h[0]} && (h2 != [] ==> DownHole(h2, act, 0, 0)) &&
            (|h2| <= 1 ==> HeapOrder(h2, act))
  {
    var h2, ix2 := h[0 := h[|h| - 1]][..|h| - 1], indices[h[|h| - 1] := 0][h[0] := -1];
    forall j | 0 < j < |h2| && Parent(j) != 0 ensures InRange(h2, act) && Ordered(h2, act, j) {
      assert Ordered(h, act, j);
    }
    forall x | x in Members(h2) ensures x in Members(h) - {h[0]} {
      var k :| 0 <= k < |h2| && h2[k] == x;
      assert h[if k == 0 then |h| - 1 else k] == x;
    }
    forall x | x in Members(h) - {h[0]} ensures x in Members(h2) {
      var k :| 0 <= k < |h| && h[k] == x;
      assert h2[if k == |h| - 1 then 0 else k] == x;
    }
  }
}
