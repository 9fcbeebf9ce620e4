/** getTransitivelyCompatibleStates and splitTransitions (memin/minimizer.cpp): tabulating
    the machine over a common disjoint input alphabet. */
module Split {
  import opened Cubes
  import opened Options
  import opened Mealy
  import opened InputAlphabet
  import opened Incompat

  // ----- transitively compatible states -----

  /** A chain of pairwise compatible neighbours. */
  ghost predicate Chain(inc: seq<bool>, n: nat, path: seq<nat>)
    requires |inc| == Cells(n, n)
  {
    && (forall k :: 0 <= k < |path| ==> path[k] < n)
    && (forall k :: 0 < k < |path| ==> !Marked(inc, n, path[k - 1], path[k]))
  }

  ghost predicate Linked(inc: seq<bool>, n: nat, a: nat, b: nat)
    requires |inc| == Cells(n, n)
  {
    exists path :: Chain(inc, n, path) && |path| > 0 && path[0] == a && path[|path| - 1] == b
  }

  ghost predicate ClosedClass(inc: seq<bool>, n: nat, cls: seq<bool>)
    requires |inc| == Cells(n, n) && |cls| == n
  {
    forall x, y :: 0 <= x < n && 0 <= y < n && cls[x] && !Marked(inc, n, x, y) ==> cls[y]
  }

  /** All members of the class hang together. */
  ghost predicate Rooted(inc: seq<bool>, n: nat, cls: seq<bool>)
    requires |inc| == Cells(n, n) && |cls| == n
  {
    exists r :: 0 <= r < n && cls[r] && forall x :: 0 <= x < n && cls[x] ==> Linked(inc, n, r, x)
  }

  ghost predicate InSomeClass(tcs: seq<seq<bool>>, n: nat, x: nat)
    requires x < n && forall i :: 0 <= i < |tcs| ==> |tcs[i]| == n
  {
    exists i :: 0 <= i < |tcs| && tcs[i][x]
  }

  /** Disjoint classes, each closed under compatibility and connected by it. */
  ghost predicate CompatClasses(inc: seq<bool>, n: nat, tcs: seq<seq<bool>>)
    requires |inc| == Cells(n, n)
  {
    && (forall i :: 0 <= i < |tcs| ==> |tcs[i]| == n && ClosedClass(inc, n, tcs[i]) && Rooted(inc, n, tcs[i]))
    && (forall i, j, x :: 0 <= i < j < |tcs| && 0 <= x < n ==> !(tcs[i][x] && tcs[j][x]))
  }

  lemma LinkedExtends(inc: seq<bool>, n: nat, r: nat, a: nat, b: nat)
    requires |inc| == Cells(n, n) && a < n && b < n && Linked(inc, n, r, a) && !Marked(inc, n, a, b)
    ensures Linked(inc, n, r, b)
  {
    var path :| Chain(inc, n, path) && |path| > 0 && path[0] == r && path[|path| - 1] == a;
    var path2 := path + [b];
    assert Chain(inc, n, path2) && path2[0] == r && path2[|path2| - 1] == b;
  }

  ghost predicate Processed(tcs: seq<seq<bool>>, n: nat, processed: seq<bool>)
    requires |processed| == n && forall i :: 0 <= i < |tcs| ==> |tcs[i]| == n
  {
    forall x :: 0 <= x < n ==> (processed[x] <==> InSomeClass(tcs, n, x))
  }

  method GetTransitivelyCompatibleStates(n: nat, inc: seq<bool>) returns (ret: seq<seq<bool>>)
    requires |inc| == Cells(n, n) && Symmetric(inc, n)
    ensures CompatClasses(inc, n, ret)
    ensures forall x :: 0 <= x < n ==> InSomeClass(ret, n, x)
  {
    ret := [];
    var processed := seq(n, _ => false);
    for s := 0 to n
      invariant |processed| == n
      invariant CompatClasses(inc, n, ret)
      invariant Processed(ret, n, processed)
      invariant forall x :: 0 <= x < s ==> processed[x]
    {
      if !processed[s] {
        ghost var before := processed;
        var curSet;
        curSet, processed := CollectClass(n, inc, s, processed, ret);
        AddClass(n, inc, ret, before, curSet, processed);
        ret := ret + [curSet];
      }
    }
  }

  lemma AddClass(n: nat, inc: seq<bool>, ret: seq<seq<bool>>, before: seq<bool>, cur: seq<bool>, after: seq<bool>)
    requires |inc| == Cells(n, n) && |before| == |after| == |cur| == n
    requires CompatClasses(inc, n, ret) && Processed(ret, n, before)
    requires ClosedClass(inc, n, cur) && Rooted(inc, n, cur)
    requires forall x :: 0 <= x < n ==> !(before[x] && cur[x]) && (after[x] <==> before[x] || cur[x])
    ensures CompatClasses(inc, n, ret + [cur]) && Processed(ret + [cur], n, after)
  {
    var ret2 := ret + [cur];
    forall x | 0 <= x < n ensures InSomeClass(ret2, n, x) <==> InSomeClass(ret, n, x) || cur[x] {
      if InSomeClass(ret, n, x) {
        var i :| 0 <= i < |ret| && ret[i][x];
        assert ret2[i][x];
      }
      if cur[x] {
        assert ret2[|ret|][x];
      }
    }
    forall i, j, x | 0 <= i < j < |ret2| && 0 <= x < n ensures !(ret2[i][x] && ret2[j][x]) {
      if j == |ret| && ret2[i][x] {
        assert InSomeClass(ret, n, x);
      }
    }
  }

  /** What the breadth-first search from `s` knows; `open` states still await expansion. */
  ghost predicate Growing(n: nat, inc: seq<bool>, s: nat, before: seq<bool>, cur: seq<bool>, processed: seq<bool>, open: seq<nat>)
    requires |inc| == Cells(n, n) && s < n
  {
    && |before| == |cur| == |processed| == n && cur[s]
    && (forall x :: 0 <= x < n ==> !(before[x] && cur[x]) && (processed[x] <==> before[x] || cur[x]))
    && (forall k :: 0 <= k < |open| ==> open[k] < n && cur[open[k]])
    && (forall x :: 0 <= x < n && cur[x] ==> Linked(inc, n, s, x))
    && (forall x, y :: 0 <= x < n && 0 <= y < n && cur[x] && x !in open && !Marked(inc, n, x, y) ==> cur[y])
  }

  method CollectClass(n: nat, inc: seq<bool>, s: nat, processed0: seq<bool>, ghost tcs: seq<seq<bool>>)
      returns (curSet: seq<bool>, processed: seq<bool>)
    requires |inc| == Cells(n, n) && Symmetric(inc, n) && |processed0| == n
    requires s < n && !processed0[s] && forall x :: 0 <= x < s ==> processed0[x]
    requires CompatClasses(inc, n, tcs) && Processed(tcs, n, processed0)
    ensures |curSet| == |processed| == n && curSet[s]
    ensures ClosedClass(inc, n, curSet) && Rooted(inc, n, curSet)
    ensures forall x :: 0 <= x < n ==> !(processed0[x] && curSet[x]) && (processed[x] <==> processed0[x] || curSet[x])
  {
    processed := processed0[s := true];
    curSet := seq(n, _ => false)[s := true];
    var worklist: seq<nat> := [s];
    assert Linked(inc, n, s, s) by {
      assert Chain(inc, n, [s]) && [s][0] == s;
    }
    while worklist != []
      invariant Growing(n, inc, s, processed0, curSet, processed, worklist)
      decreases Unmarked(processed), |worklist|
    {
      var curS := worklist[0];
      ghost var q, p := worklist, processed;
      curSet, processed, worklist := ExpandClass(n, inc, s, curS, curSet, processed, worklist[1..], processed0, tcs, q);
      UnmarkedMonotone(p, processed);
    }
  }

  /** No state processed earlier is compatible with a state of the new class. */
  lemma NoCrossing(n: nat, inc: seq<bool>, tcs: seq<seq<bool>>, before: seq<bool>, x: nat, y: nat)
    requires |inc| == Cells(n, n) && Symmetric(inc, n) && |before| == n && x < n && y < n
    requires CompatClasses(inc, n, tcs) && Processed(tcs, n, before)
    requires before[y] && !Marked(inc, n, x, y)
    ensures before[x]
  {
    var i :| 0 <= i < |tcs| && tcs[i][y];
    if Marked(inc, n, y, x) {
      assert false;
    }
    assert tcs[i][x];
    assert InSomeClass(tcs, n, x);
  }

  lemma GrowStep(n: nat, inc: seq<bool>, s: nat, before: seq<bool>, cur: seq<bool>, processed: seq<bool>,
                 curS: nat, queue: seq<nat>, i: nat)
    requires |inc| == Cells(n, n) && s < n && i < n && curS < n
    requires Growing(n, inc, s, before, cur, processed, [curS] + queue)
    requires !processed[i] && !Marked(inc, n, curS, i)
    ensures Growing(n, inc, s, before, cur[i := true], processed[i := true], [curS] + (queue + [i]))
  {
    var q, q2 := [curS] + queue, [curS] + (queue + [i]);
    assert q[0] == curS && q2 == q + [i];
    LinkedExtends(inc, n, s, curS, i);
    assert forall x :: x in q || x == i ==> x in q2;
  }

  lemma GrowDone(n: nat, inc: seq<bool>, s: nat, before: seq<bool>, cur: seq<bool>, processed: seq<bool>,
                 curS: nat, queue: seq<nat>, tcs: seq<seq<bool>>)
    requires |inc| == Cells(n, n) && Symmetric(inc, n) && s < n && curS < n && |before| == n
    requires forall x :: 0 <= x < s ==> before[x]
    requires CompatClasses(inc, n, tcs) && Processed(tcs, n, before)
    requires Growing(n, inc, s, before, cur, processed, [curS] + queue)
    requires forall y :: s <= y < n && !Marked(inc, n, curS, y) ==> processed[y]
    ensures Growing(n, inc, s, before, cur, processed, queue)
  {
    var q := [curS] + queue;
    assert q[0] == curS;
    forall y | 0 <= y < n && !Marked(inc, n, curS, y) ensures cur[y] {
      if before[y] {
        NoCrossing(n, inc, tcs, before, curS, y);
      }
    }
    forall k | 0 <= k < |queue| ensures queue[k] < n && cur[queue[k]] {
      assert q[k + 1] == queue[k];
    }
    forall x, y | 0 <= x < n && 0 <= y < n && cur[x] && x !in queue && !Marked(inc, n, x, y) ensures cur[y] {
      assert x != curS ==> x !in q;
    }
  }

  method ExpandClass(n: nat, inc: seq<bool>, s: nat, curS: nat, cur0: seq<bool>, processed0: seq<bool>, queue: seq<nat>,
                     ghost before: seq<bool>, ghost tcs: seq<seq<bool>>, ghost q: seq<nat>)
      returns (cur: seq<bool>, processed: seq<bool>, worklist: seq<nat>)
    requires |inc| == Cells(n, n) && Symmetric(inc, n) && s < n && |before| == n
    requires forall x :: 0 <= x < s ==> before[x]
    requires CompatClasses(inc, n, tcs) && Processed(tcs, n, before)
    requires q == [curS] + queue && Growing(n, inc, s, before, cur0, processed0, q)
    ensures Growing(n, inc, s, before, cur, processed, worklist)
    ensures forall x :: 0 <= x < n ==> processed0[x] ==> processed[x]
    ensures worklist == queue || exists x :: 0 <= x < n && !processed0[x] && processed[x]
  {
    assert q[0] == curS;
    cur, processed, worklist := cur0, processed0, queue;
    for i := s to n
      invariant Growing(n, inc, s, before, cur, processed, [curS] + worklist)
      invariant forall x :: 0 <= x < n ==> processed0[x] ==> processed[x]
      invariant worklist == queue || exists x :: 0 <= x < n && !processed0[x] && processed[x]
      invariant forall y :: s <= y < i && !Marked(inc, n, curS, y) ==> processed[y]
    {
      if !processed[i] && !Marked(inc, n, curS, i) {
        GrowStep(n, inc, s, before, cur, processed, curS, worklist, i);
        assert !processed0[i];
        worklist := worklist + [i];
        processed := processed[i := true];
        cur := cur[i := true];
      }
    }
    GrowDone(n, inc, s, before, cur, processed, curS, worklist, tcs);
  }

  // ----- the transition table over the disjoint alphabet -----

  /** One column per cube of the alphabet; -1 marks an unspecified next state. */
  datatype Table = Table(cols: seq<Cube>, next: seq<seq<int>>, out: seq<seq<Option<Cube>>>)

  ghost predicate TableShape(t: Table, n: nat, ni: nat, no: nat) {
    && (forall j :: 0 <= j < |t.cols| ==> |t.cols[j]| == ni)
    && |t.next| == |t.out| == n
    && (forall s :: 0 <= s < n ==> |t.next[s]| == |t.out[s]| == |t.cols|)
    && (forall s, j :: 0 <= s < n && 0 <= j < |t.cols| ==> -1 <= t.next[s][j] < n)
    && (forall s, j :: 0 <= s < n && 0 <= j < |t.cols| && t.next[s][j] != -1 ==>
          t.out[s][j].Some? && |t.out[s][j].value| == no)
  }

  /** Column `j` of state `s` is the transition `s` takes on every word of the column. */
  ghost predicate ColumnsAgree(m: Machine, t: Table, s: nat, ni: nat, no: nat)
    requires TableShape(t, |m|, ni, no) && s < |m|
  {
    && (forall j, w :: 0 <= j < |t.cols| && t.next[s][j] != -1 && Has(t.cols[j], w) ==>
          Lookup(m[s], w).Some? && Lookup(m[s], w).value.next == t.next[s][j] &&
          Some(Lookup(m[s], w).value.output) == t.out[s][j])
    && (forall w :: Lookup(m[s], w).Some? ==>
          exists j :: 0 <= j < |t.cols| && t.next[s][j] != -1 && Has(t.cols[j], w))
  }

  /** Columns that two states of one class use for a common word are the same column. */
  ghost predicate Aligned(t: Table, n: nat, ni: nat, no: nat, s1: nat, s2: nat)
    requires TableShape(t, n, ni, no) && s1 < n && s2 < n
  {
    forall j1, j2, w ::
      (0 <= j1 < |t.cols| && 0 <= j2 < |t.cols| && t.next[s1][j1] != -1 && t.next[s2][j2] != -1 &&
       Has(t.cols[j1], w) && Has(t.cols[j2], w)) ==> j1 == j2
  }

  ghost predicate IsSplit(m: Machine, inc: seq<bool>, t: Table, ni: nat, no: nat)
    requires |inc| == Cells(|m|, |m|)
  {
    && TableShape(t, |m|, ni, no)
    && (forall s :: 0 <= s < |m| ==> ColumnsAgree(m, t, s, ni, no))
    && (forall s1, s2 :: 0 <= s1 < |m| && 0 <= s2 < |m| && !Marked(inc, |m|, s1, s2) ==> Aligned(t, |m|, ni, no, s1, s2))
  }

  /** The numbering of the alphabet: `ids` inverts `cols`. */
  ghost predicate Numbering(cols: seq<Cube>, ids: map<Cube, nat>) {
    && (forall j :: 0 <= j < |cols| ==> cols[j] in ids && ids[cols[j]] == j)
    && (forall c :: c in ids ==> ids[c] < |cols| && cols[ids[c]] == c)
  }

  method NumberInputs(ds: set<Cube>, cols0: seq<Cube>, ids0: map<Cube, nat>) returns (cols: seq<Cube>, ids: map<Cube, nat>)
    requires Numbering(cols0, ids0)
    ensures Numbering(cols, ids) && cols0 <= cols
    ensures ids.Keys == ids0.Keys + ds
  {
    cols, ids := cols0, ids0;
    var todo := ds;
    while todo != {}
      invariant Numbering(cols, ids) && cols0 <= cols
      invariant todo <= ds && ids.Keys == ids0.Keys + (ds - todo)
    {
      var d :| d in todo;
      if d !in ids {
        ids := ids[d := |cols|];
        cols := cols + [d];
      }
      todo := todo - {d};
    }
  }

  /** Row `s` of the table: column `j` repeats transition `k` iff it lies inside its input. */
  ghost predicate RowTabulated(row: Row, ds: set<Cube>, cols: seq<Cube>, next: seq<int>, out: seq<Option<Cube>>, upto: nat, ni: nat)
    requires RowInputs(row, ni) && upto <= |row| && (forall j :: 0 <= j < |cols| ==> |cols[j]| == ni)
  {
    && |next| == |out| == |cols|
    && (forall j, k :: 0 <= j < |cols| && 0 <= k < upto && cols[j] in ds && Subset(cols[j], row[k].input) ==>
          next[j] == row[k].next && out[j] == Some(row[k].output))
    && (forall j :: 0 <= j < |cols| && next[j] != -1 ==>
          cols[j] in ds && exists k :: 0 <= k < upto && Subset(cols[j], row[k].input))
  }

  ghost predicate RowInputs(row: Row, ni: nat) {
    forall k :: 0 <= k < |row| ==> |row[k].input| == ni
  }

  lemma InsideOne(row: Row, c: Cube, k: nat, l: nat, ni: nat)
    requires RowInputs(row, ni) && Deterministic(row, ni) && |c| == ni
    requires k < |row| && l < |row| && Subset(c, row[k].input) && Subset(c, row[l].input)
    ensures k == l
  {
    var w := Sample(c, false);
    SubsetMeansInclusion(c, row[k].input);
    SubsetMeansInclusion(c, row[l].input);
    LookupIs(row, ni, k, w);
    if k < l {
      DisjointMeansNoCommonWord(row[k].input, row[l].input);
    } else if l < k {
      DisjointMeansNoCommonWord(row[l].input, row[k].input);
    }
  }

  /** The columns that transition `k` fills: its own cube if it is one, else all cubes inside it. */
  method FillColumns(row: Row, k: nat, ds: set<Cube>, ids: map<Cube, nat>, ghost cols: seq<Cube>,
                     next0: seq<int>, out0: seq<Option<Cube>>, ghost ni: nat)
      returns (next: seq<int>, out: seq<Option<Cube>>)
    requires RowInputs(row, ni) && Deterministic(row, ni) && k < |row|
    requires AllLength(ds, ni) && PairwiseDisjointSet(ds, ni) && Numbering(cols, ids) && ds <= ids.Keys
    requires forall j :: 0 <= j < |cols| ==> |cols[j]| == ni
    requires RowTabulated(row, ds, cols, next0, out0, k, ni)
    ensures RowTabulated(row, ds, cols, next, out, k + 1, ni)
  {
    var input := row[k].input;
    next, out := next0, out0;
    var todo := if input in ds then {input} else ds;
    if input in ds {
      forall d | d in ds && d != input && Subset(d, input) ensures false {
        var w := Sample(d, false);
        SubsetMeansInclusion(d, input);
        DisjointMeansNoCommonWord(d, input);
      }
    }
    ghost var all := todo;
    while todo != {}
      invariant todo <= all <= ds && |next| == |out| == |cols|
      invariant forall j :: 0 <= j < |cols| ==>
                  if cols[j] in all - todo && Subset(cols[j], input) then next[j] == row[k].next && out[j] == Some(row[k].output)
                  else next[j] == next0[j] && out[j] == out0[j]
    {
      var d :| d in todo;
      if Subset(d, input) {
        next := next[ids[d] := row[k].next];
        out := out[ids[d] := Some(row[k].output)];
      }
      todo := todo - {d};
    }
    forall j, l | 0 <= j < |cols| && 0 <= l < k + 1 && cols[j] in ds && Subset(cols[j], row[l].input)
      ensures next[j] == row[l].next && out[j] == Some(row[l].output)
    {
      if l < k && Subset(cols[j], input) {
        InsideOne(row, cols[j], l, k, ni);
      }
    }
  }

  method TabulateRow(row: Row, ds: set<Cube>, ids: map<Cube, nat>, cols: seq<Cube>, ghost ni: nat)
      returns (next: seq<int>, out: seq<Option<Cube>>)
    requires RowInputs(row, ni) && Deterministic(row, ni)
    requires AllLength(ds, ni) && PairwiseDisjointSet(ds, ni) && Numbering(cols, ids) && ds <= ids.Keys
    requires forall j :: 0 <= j < |cols| ==> |cols[j]| == ni
    ensures RowTabulated(row, ds, cols, next, out, |row|, ni)
  {
    next := seq(|cols|, _ => -1);
    out := seq(|cols|, _ => None);
    for k := 0 to |row|
      invariant RowTabulated(row, ds, cols, next, out, k, ni)
    {
      next, out := FillColumns(row, k, ds, ids, cols, next, out, ni);
    }
  }

  // ----- all rows -----

  /** Class `i` of the partition uses alphabet `alphabets[i]`. */
  ghost predicate Alphabets(m: Machine, tcs: seq<seq<bool>>, alphabets: seq<set<Cube>>, ni: nat) {
    && |alphabets| <= |tcs| && (forall i :: 0 <= i < |tcs| ==> |tcs[i]| == |m|)
    && (forall i :: 0 <= i < |alphabets| ==>
          AllLength(Originals(m, tcs[i]), ni) && Alphabet(Originals(m, tcs[i]), alphabets[i], ni))
  }

  ghost predicate RowsShaped(m: Machine, ni: nat) {
    forall s :: 0 <= s < |m| ==> RowInputs(m[s], ni) && Deterministic(m[s], ni)
  }

  method ComputeAlphabets(m: Machine, tcs: seq<seq<bool>>, ghost ni: nat)
      returns (alphabets: seq<set<Cube>>, cols: seq<Cube>, ids: map<Cube, nat>)
    requires RowsShaped(m, ni) && forall i :: 0 <= i < |tcs| ==> |tcs[i]| == |m|
    ensures |alphabets| == |tcs| && Alphabets(m, tcs, alphabets, ni)
    ensures Numbering(cols, ids) && forall i :: 0 <= i < |tcs| ==> alphabets[i] <= ids.Keys
    ensures forall j :: 0 <= j < |cols| ==> |cols[j]| == ni
  {
    alphabets, cols, ids := [], [], map[];
    for i := 0 to |tcs|
      invariant |alphabets| == i && Alphabets(m, tcs, alphabets, ni)
      invariant Numbering(cols, ids) && forall k :: 0 <= k < i ==> alphabets[k] <= ids.Keys
      invariant forall c :: c in ids ==> |c| == ni
    {
      var disjInputs := GetDisjointInputSet(m, tcs[i], ni);
      alphabets := alphabets + [disjInputs];
      cols, ids := NumberInputs(disjInputs, cols, ids);
    }
  }

  /** Every row of class `i` among the first `i` classes is tabulated over that class's alphabet. */
  ghost predicate Tabulated(m: Machine, tcs: seq<seq<bool>>, alphabets: seq<set<Cube>>, t: Table, ni: nat, upto: nat, s: nat)
    requires RowsShaped(m, ni) && upto <= |tcs| == |alphabets|
    requires forall i :: 0 <= i < |tcs| ==> |tcs[i]| == |m|
    requires forall j :: 0 <= j < |t.cols| ==> |t.cols[j]| == ni
    requires |t.next| == |t.out| == |m| && s < |m|
  {
    forall i :: 0 <= i < upto && tcs[i][s] ==>
      RowTabulated(m[s], alphabets[i], t.cols, t.next[s], t.out[s], |m[s]|, ni)
  }

  /** State `s` lies in a class over whose alphabet its row is tabulated. */
  ghost predicate TabulatedIn(m: Machine, tcs: seq<seq<bool>>, alphabets: seq<set<Cube>>, t: Table, ni: nat, i: nat, s: nat)
    requires RowsShaped(m, ni) && i < |tcs| == |alphabets| && |tcs[i]| == |m|
    requires forall j :: 0 <= j < |t.cols| ==> |t.cols[j]| == ni
    requires |t.next| == |t.out| == |m| && s < |m|
  {
    tcs[i][s] && RowTabulated(m[s], alphabets[i], t.cols, t.next[s], t.out[s], |m[s]|, ni)
  }

  ghost predicate TabulatedSomewhere(m: Machine, tcs: seq<seq<bool>>, alphabets: seq<set<Cube>>, t: Table, ni: nat, s: nat)
    requires RowsShaped(m, ni) && |tcs| == |alphabets| && forall i :: 0 <= i < |tcs| ==> |tcs[i]| == |m|
    requires forall j :: 0 <= j < |t.cols| ==> |t.cols[j]| == ni
    requires |t.next| == |t.out| == |m| && s < |m|
  {
    exists i :: 0 <= i < |tcs| && TabulatedIn(m, tcs, alphabets, t, ni, i, s)
  }

  method SplitTransitions(m: Machine, inc: seq<bool>, ghost ni: nat, ghost no: nat) returns (t: Table)
    requires WellFormed(m, ni, no) && |inc| == Cells(|m|, |m|) && Symmetric(inc, |m|)
    requires forall s :: 0 <= s < |m| ==> !Marked(inc, |m|, s, s)
    ensures IsSplit(m, inc, t, ni, no)
  {
    var tcs := GetTransitivelyCompatibleStates(|m|, inc);
    var alphabets, cols, ids := ComputeAlphabets(m, tcs, ni);
    t := Tabulate(m, tcs, alphabets, ids, cols, ni);
    forall s | 0 <= s < |m| ensures TabulatedSomewhere(m, tcs, alphabets, t, ni, s) {
      FindClass(m, tcs, alphabets, t, ni, s);
    }
    TabulatedIsSplit(m, inc, tcs, alphabets, t, ids, ni, no);
  }

  lemma FindClass(m: Machine, tcs: seq<seq<bool>>, alphabets: seq<set<Cube>>, t: Table, ni: nat, s: nat)
    requires RowsShaped(m, ni) && |tcs| == |alphabets| && forall i :: 0 <= i < |tcs| ==> |tcs[i]| == |m|
    requires forall j :: 0 <= j < |t.cols| ==> |t.cols[j]| == ni
    requires |t.next| == |t.out| == |m| && s < |m| && InSomeClass(tcs, |m|, s)
    requires Tabulated(m, tcs, alphabets, t, ni, |tcs|, s)
    ensures TabulatedSomewhere(m, tcs, alphabets, t, ni, s)
  {
    var i :| 0 <= i < |tcs| && tcs[i][s];
    assert TabulatedIn(m, tcs, alphabets, t, ni, i, s);
  }

  method Tabulate(m: Machine, tcs: seq<seq<bool>>, alphabets: seq<set<Cube>>, ids: map<Cube, nat>, cols: seq<Cube>, ghost ni: nat)
      returns (t: Table)
    requires RowsShaped(m, ni) && |tcs| == |alphabets| && Alphabets(m, tcs, alphabets, ni)
    requires forall i, j, x :: 0 <= i < j < |tcs| && 0 <= x < |m| ==> !(tcs[i][x] && tcs[j][x])
    requires Numbering(cols, ids) && forall i :: 0 <= i < |tcs| ==> alphabets[i] <= ids.Keys
    requires forall j :: 0 <= j < |cols| ==> |cols[j]| == ni
    ensures t.cols == cols && |t.next| == |t.out| == |m|
    ensures forall s :: 0 <= s < |m| ==> Tabulated(m, tcs, alphabets, t, ni, |tcs|, s)
  {
    t := Table(cols, seq(|m|, _ => []), seq(|m|, _ => []));
    for i := 0 to |tcs|
      invariant t.cols == cols && |t.next| == |t.out| == |m|
      invariant forall s :: 0 <= s < |m| ==> Tabulated(m, tcs, alphabets, t, ni, i, s)
    {
      t := TabulateClass(m, tcs, i, alphabets, ids, t, ni, i + 1);
    }
  }

  /** Filling row `s` leaves the others alone; a state lies in one class only. */
  lemma RowsKept(m: Machine, tcs: seq<seq<bool>>, i: nat, alphabets: seq<set<Cube>>, t0: Table, t1: Table, t: Table, ni: nat, upto: nat, s: nat)
    requires RowsShaped(m, ni) && i < |tcs| == |alphabets| && upto == i + 1 && s < |m|
    requires forall k :: 0 <= k < |tcs| ==> |tcs[k]| == |m|
    requires forall k, j, x :: 0 <= k < j < |tcs| && 0 <= x < |m| ==> !(tcs[k][x] && tcs[j][x])
    requires forall j :: 0 <= j < |t0.cols| ==> |t0.cols[j]| == ni
    requires t.cols == t1.cols == t0.cols && |t.next| == |t.out| == |t1.next| == |t1.out| == |t0.next| == |t0.out| == |m|
    requires t1.next[s] == t0.next[s] && t1.out[s] == t0.out[s] && Tabulated(m, tcs, alphabets, t0, ni, i, s)
    requires forall r :: 0 <= r < |m| && r != s ==> t.next[r] == t1.next[r] && t.out[r] == t1.out[r]
    requires if tcs[i][s] then RowTabulated(m[s], alphabets[i], t.cols, t.next[s], t.out[s], |m[s]|, ni) else t == t1
    requires forall r :: 0 <= r < s ==> Tabulated(m, tcs, alphabets, t1, ni, upto, r)
    ensures forall r :: 0 <= r <= s ==> Tabulated(m, tcs, alphabets, t, ni, upto, r)
  {
    forall r | 0 <= r < s ensures Tabulated(m, tcs, alphabets, t, ni, upto, r) {
      assert Tabulated(m, tcs, alphabets, t1, ni, upto, r);
    }
  }

  method TabulateClass(m: Machine, tcs: seq<seq<bool>>, i: nat, alphabets: seq<set<Cube>>, ids: map<Cube, nat>, t0: Table, ghost ni: nat, ghost upto: nat)
      returns (t: Table)
    requires RowsShaped(m, ni) && i < |tcs| == |alphabets| && Alphabets(m, tcs, alphabets, ni) && upto == i + 1
    requires forall i, j, x :: 0 <= i < j < |tcs| && 0 <= x < |m| ==> !(tcs[i][x] && tcs[j][x])
    requires Numbering(t0.cols, ids) && alphabets[i] <= ids.Keys
    requires forall j :: 0 <= j < |t0.cols| ==> |t0.cols[j]| == ni
    requires |t0.next| == |t0.out| == |m|
    requires forall s :: 0 <= s < |m| ==> Tabulated(m, tcs, alphabets, t0, ni, i, s)
    ensures t.cols == t0.cols && |t.next| == |t.out| == |m|
    ensures forall s :: 0 <= s < |m| ==> Tabulated(m, tcs, alphabets, t, ni, upto, s)
  {
    t := t0;
    for s := 0 to |m|
      invariant t.cols == t0.cols && |t.next| == |t.out| == |m|
      invariant forall r :: s <= r < |m| ==> t.next[r] == t0.next[r] && t.out[r] == t0.out[r]
      invariant forall r :: 0 <= r < s ==> Tabulated(m, tcs, alphabets, t, ni, upto, r)
    {
      assert Tabulated(m, tcs, alphabets, t0, ni, i, s);
      ghost var t1 := t;
      if tcs[i][s] {
        var next, out := TabulateRow(m[s], alphabets[i], ids, t.cols, ni);
        t := t.(next := t.next[s := next], out := t.out[s := out]);
      }
      RowsKept(m, tcs, i, alphabets, t0, t1, t, ni, upto, s);
    }
  }

  // ----- the table meets its specification -----

  lemma RowShapeFollows(m: Machine, s: nat, ds: set<Cube>, t: Table, ni: nat, no: nat)
    requires WellFormed(m, ni, no) && RowsShaped(m, ni) && s < |m| && |t.next| == |t.out| == |m|
    requires forall j :: 0 <= j < |t.cols| ==> |t.cols[j]| == ni
    requires RowTabulated(m[s], ds, t.cols, t.next[s], t.out[s], |m[s]|, ni)
    ensures |t.next[s]| == |t.out[s]| == |t.cols|
    ensures forall j :: 0 <= j < |t.cols| ==> -1 <= t.next[s][j] < |m|
    ensures forall j :: 0 <= j < |t.cols| && t.next[s][j] != -1 ==> t.out[s][j].Some? && |t.out[s][j].value| == no
  {}

  lemma FilledBy(row: Row, ds: set<Cube>, cols: seq<Cube>, next: seq<int>, out: seq<Option<Cube>>, ni: nat, j: nat) returns (k: nat)
    requires RowInputs(row, ni) && forall j :: 0 <= j < |cols| ==> |cols[j]| == ni
    requires RowTabulated(row, ds, cols, next, out, |row|, ni)
    requires j < |cols| && next[j] != -1
    ensures k < |row| && Subset(cols[j], row[k].input) && next[j] == row[k].next && out[j] == Some(row[k].output)
  {
    k :| 0 <= k < |row| && Subset(cols[j], row[k].input);
  }

  lemma LookupInside(row: Row, ni: nat, k: nat, c: Cube, w: Word)
    requires RowInputs(row, ni) && Deterministic(row, ni) && k < |row| && |c| == ni
    requires Subset(c, row[k].input) && Has(c, w)
    ensures Lookup(row, w) == Some(row[k])
  {
    assert Has(row[k].input, w) by {
      SubsetMeansInclusion(c, row[k].input);
    }
    LookupIs(row, ni, k, w);
  }

  /** A filled column repeats the transition taken on its words. */
  lemma ColumnRepeats(row: Row, ds: set<Cube>, cols: seq<Cube>, next: seq<int>, out: seq<Option<Cube>>, ni: nat, j: nat, w: Word)
    requires RowInputs(row, ni) && Deterministic(row, ni) && forall j :: 0 <= j < |cols| ==> |cols[j]| == ni
    requires RowTabulated(row, ds, cols, next, out, |row|, ni)
    requires j < |cols| && next[j] != -1 && Has(cols[j], w)
    ensures Lookup(row, w).Some? && Lookup(row, w).value.next == next[j] && Some(Lookup(row, w).value.output) == out[j]
  {
    var k := FilledBy(row, ds, cols, next, out, ni, j);
    LookupInside(row, ni, k, cols[j], w);
  }

  /** The member of the alphabet that holds a word of a transition. */
  lemma MemberFor(m: Machine, cls: seq<bool>, s: nat, ds: set<Cube>, ni: nat, w: Word) returns (k: nat, d: Cube)
    requires |m| == |cls| && s < |m| && cls[s] && RowInputs(m[s], ni)
    requires AllLength(Originals(m, cls), ni) && Alphabet(Originals(m, cls), ds, ni)
    requires Lookup(m[s], w).Some?
    ensures k < |m[s]| && d in ds && |d| == ni && Has(d, w) && Subset(d, m[s][k].input)
  {
    var tr := Lookup(m[s], w).value;
    k :| 0 <= k < |m[s]| && m[s][k] == tr;
    OriginalsBelowMembers(m, cls, |m|, tr.input);
    assert tr.input in InputsOf(m[s]);
    d :| d in ds && Has(d, w) && Subset(d, tr.input);
  }

  /** Every word of a transition lies in a filled column. */
  lemma ColumnExists(m: Machine, cls: seq<bool>, s: nat, ds: set<Cube>, cols: seq<Cube>, ids: map<Cube, nat>,
                     next: seq<int>, out: seq<Option<Cube>>, ni: nat, w: Word) returns (j: nat)
    requires |m| == |cls| && s < |m| && cls[s] && RowInputs(m[s], ni)
    requires AllLength(Originals(m, cls), ni) && Alphabet(Originals(m, cls), ds, ni)
    requires Numbering(cols, ids) && ds <= ids.Keys && forall j :: 0 <= j < |cols| ==> |cols[j]| == ni
    requires RowTabulated(m[s], ds, cols, next, out, |m[s]|, ni)
    requires Lookup(m[s], w).Some?
    ensures j < |cols| && next[j] != -1 && Has(cols[j], w)
  {
    var k, d := MemberFor(m, cls, s, ds, ni, w);
    j := ids[d];
    assert next[j] == m[s][k].next;
  }

  /** Two rows over the same disjoint alphabet never use different columns for one word. */
  lemma RowsAligned(m: Machine, s1: nat, s2: nat, ds: set<Cube>, t: Table, ids: map<Cube, nat>, ni: nat, no: nat)
    requires RowsShaped(m, ni) && s1 < |m| && s2 < |m| && TableShape(t, |m|, ni, no)
    requires AllLength(ds, ni) && PairwiseDisjointSet(ds, ni) && Numbering(t.cols, ids)
    requires RowTabulated(m[s1], ds, t.cols, t.next[s1], t.out[s1], |m[s1]|, ni)
    requires RowTabulated(m[s2], ds, t.cols, t.next[s2], t.out[s2], |m[s2]|, ni)
    ensures Aligned(t, |m|, ni, no, s1, s2)
  {
    forall j1, j2, w | 0 <= j1 < |t.cols| && 0 <= j2 < |t.cols| && t.next[s1][j1] != -1 && t.next[s2][j2] != -1 &&
      Has(t.cols[j1], w) && Has(t.cols[j2], w)
      ensures j1 == j2
    {
      if t.cols[j1] != t.cols[j2] {
        DisjointMeansNoCommonWord(t.cols[j1], t.cols[j2]);
      }
    }
  }

  lemma TabulatedShape(m: Machine, tcs: seq<seq<bool>>, alphabets: seq<set<Cube>>, t: Table, ni: nat, no: nat)
    requires WellFormed(m, ni, no) && RowsShaped(m, ni)
    requires |tcs| == |alphabets| && forall i :: 0 <= i < |tcs| ==> |tcs[i]| == |m|
    requires |t.next| == |t.out| == |m| && forall j :: 0 <= j < |t.cols| ==> |t.cols[j]| == ni
    requires forall s :: 0 <= s < |m| ==> TabulatedSomewhere(m, tcs, alphabets, t, ni, s)
    ensures TableShape(t, |m|, ni, no)
  {
    forall s | 0 <= s < |m|
      ensures |t.next[s]| == |t.out[s]| == |t.cols|
      ensures forall j :: 0 <= j < |t.cols| ==> -1 <= t.next[s][j] < |m|
      ensures forall j :: 0 <= j < |t.cols| && t.next[s][j] != -1 ==> t.out[s][j].Some? && |t.out[s][j].value| == no
    {
      assert TabulatedSomewhere(m, tcs, alphabets, t, ni, s);
      var i :| 0 <= i < |tcs| && TabulatedIn(m, tcs, alphabets, t, ni, i, s);
      RowShapeFollows(m, s, alphabets[i], t, ni, no);
    }
  }

  lemma TabulatedAgrees(m: Machine, tcs: seq<seq<bool>>, alphabets: seq<set<Cube>>, t: Table, ids: map<Cube, nat>, ni: nat, no: nat, s: nat)
    requires RowsShaped(m, ni) && TableShape(t, |m|, ni, no) && s < |m|
    requires |alphabets| == |tcs| && Alphabets(m, tcs, alphabets, ni)
    requires Numbering(t.cols, ids) && forall i :: 0 <= i < |tcs| ==> alphabets[i] <= ids.Keys
    requires TabulatedSomewhere(m, tcs, alphabets, t, ni, s)
    ensures ColumnsAgree(m, t, s, ni, no)
  {
    var i :| 0 <= i < |tcs| && TabulatedIn(m, tcs, alphabets, t, ni, i, s);
    forall j, w | 0 <= j < |t.cols| && t.next[s][j] != -1 && Has(t.cols[j], w)
      ensures Lookup(m[s], w).Some? && Lookup(m[s], w).value.next == t.next[s][j] &&
              Some(Lookup(m[s], w).value.output) == t.out[s][j]
    {
      ColumnRepeats(m[s], alphabets[i], t.cols, t.next[s], t.out[s], ni, j, w);
    }
    forall w | Lookup(m[s], w).Some?
      ensures exists j :: 0 <= j < |t.cols| && t.next[s][j] != -1 && Has(t.cols[j], w)
    {
      var j := ColumnExists(m, tcs[i], s, alphabets[i], t.cols, ids, t.next[s], t.out[s], ni, w);
    }
  }

  lemma TabulatedAligned(m: Machine, inc: seq<bool>, tcs: seq<seq<bool>>, alphabets: seq<set<Cube>>, t: Table, ids: map<Cube, nat>, ni: nat, no: nat, s1: nat, s2: nat)
    requires RowsShaped(m, ni) && |inc| == Cells(|m|, |m|) && TableShape(t, |m|, ni, no) && s1 < |m| && s2 < |m|
    requires CompatClasses(inc, |m|, tcs) && |alphabets| == |tcs| && Alphabets(m, tcs, alphabets, ni)
    requires Numbering(t.cols, ids)
    requires TabulatedSomewhere(m, tcs, alphabets, t, ni, s1) && TabulatedSomewhere(m, tcs, alphabets, t, ni, s2)
    requires !Marked(inc, |m|, s1, s2)
    ensures Aligned(t, |m|, ni, no, s1, s2)
  {
    var i1 :| 0 <= i1 < |tcs| && TabulatedIn(m, tcs, alphabets, t, ni, i1, s1);
    var i2 :| 0 <= i2 < |tcs| && TabulatedIn(m, tcs, alphabets, t, ni, i2, s2);
    assert ClosedClass(inc, |m|, tcs[i1]);
    assert tcs[i1][s2];
    assert i1 == i2;
    RowsAligned(m, s1, s2, alphabets[i1], t, ids, ni, no);
  }

  lemma TabulatedIsSplit(m: Machine, inc: seq<bool>, tcs: seq<seq<bool>>, alphabets: seq<set<Cube>>, t: Table, ids: map<Cube, nat>, ni: nat, no: nat)
    requires WellFormed(m, ni, no) && RowsShaped(m, ni) && |inc| == Cells(|m|, |m|)
    requires CompatClasses(inc, |m|, tcs) && |alphabets| == |tcs| && Alphabets(m, tcs, alphabets, ni)
    requires |t.next| == |t.out| == |m| && Numbering(t.cols, ids)
    requires forall i :: 0 <= i < |tcs| ==> alphabets[i] <= ids.Keys
    requires forall j :: 0 <= j < |t.cols| ==> |t.cols[j]| == ni
    requires forall s :: 0 <= s < |m| ==> TabulatedSomewhere(m, tcs, alphabets, t, ni, s)
    ensures IsSplit(m, inc, t, ni, no)
  {
    TabulatedShape(m, tcs, alphabets, t, ni, no);
    forall s | 0 <= s < |m| ensures ColumnsAgree(m, t, s, ni, no) {
      TabulatedAgrees(m, tcs, alphabets, t, ids, ni, no, s);
    }
    forall s1, s2 | 0 <= s1 < |m| && 0 <= s2 < |m| && !Marked(inc, |m|, s1, s2) ensures Aligned(t, |m|, ni, no, s1, s2) {
      TabulatedAligned(m, inc, tcs, alphabets, t, ids, ni, no, s1, s2);
    }
  }
}
