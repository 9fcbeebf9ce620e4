/** removeUnreachableStates (memin/minimizer.cpp): keeping the states reachable from reset. */
module Prune {
  import opened Cubes
  import opened Options
  import opened Mealy
  import opened Incompat

  /** Some input sequence leads from `r` to `s`. */
  ghost predicate Reachable(m: Machine, r: nat, s: nat) {
    exists us :: Reach(m, r, us) == Some(s)
  }

  lemma ReachableSelf(m: Machine, r: nat)
    requires r < |m|
    ensures Reachable(m, r, r)
  {
    assert Reach(m, r, []) == Some(r);
  }

  /** Following a transition of a reachable state reaches its target. */
  lemma ReachableStep(m: Machine, ni: nat, no: nat, r: nat, s: nat, j: nat)
    requires WellFormed(m, ni, no) && r < |m| && s < |m| && j < |m[s]|
    requires Reachable(m, r, s)
    ensures Reachable(m, r, m[s][j].next)
  {
    var us :| Reach(m, r, us) == Some(s);
    var w := Sample(m[s][j].input, false);
    LookupIs(m[s], ni, j, w);
    ReachSnoc(m, r, us, w);
  }

  lemma {:induction false} ReachStaysInside(m: Machine, r: nat, us: seq<Word>, inside: seq<bool>)
    requires |inside| == |m| && r < |m| && inside[r]
    requires forall s, j :: 0 <= s < |m| && inside[s] && 0 <= j < |m[s]| ==>
               m[s][j].next < |m| && inside[m[s][j].next]
    ensures Reach(m, r, us).Some? ==> inside[Reach(m, r, us).value]
    decreases us
  {
    if us != [] && Lookup(m[r], us[0]).Some? {
      var t := Lookup(m[r], us[0]).value;
      var j :| 0 <= j < |m[r]| && m[r][j] == t;
      ReachStaysInside(m, t.next, us[1..], inside);
    }
  }

  /** Targets of the states already expanded are marked. */
  ghost predicate Expanded(m: Machine, marks: seq<bool>, queue: seq<nat>)
    requires |marks| == |m|
  {
    forall s, j :: 0 <= s < |m| && marks[s] && s !in queue && 0 <= j < |m[s]| ==>
      m[s][j].next < |m| && marks[m[s][j].next]
  }

  method MarkReachable(m: Machine, reset: nat, ghost ni: nat, ghost no: nat) returns (reachable: array<bool>)
    requires WellFormed(m, ni, no) && reset < |m|
    ensures fresh(reachable) && reachable.Length == |m|
    ensures forall s :: 0 <= s < |m| ==> (reachable[s] <==> Reachable(m, reset, s))
  {
    reachable := new bool[|m|](_ => false);
    reachable[reset] := true;
    var worklist: seq<nat> := [reset];
    ReachableSelf(m, reset);
    while worklist != []
      invariant reachable[reset]
      invariant forall i :: 0 <= i < |worklist| ==> worklist[i] < |m| && reachable[worklist[i]]
      invariant forall s :: 0 <= s < |m| && reachable[s] ==> Reachable(m, reset, s)
      invariant Expanded(m, reachable[..], worklist)
      decreases Unmarked(reachable[..]), |worklist|
    {
      var state := worklist[0];
      ghost var rest := worklist[1..];
      ghost var marks := reachable[..];
      assert worklist == [state] + rest;
      worklist := ExpandState(m, reset, state, worklist[1..], reachable, ni, no);
      UnmarkedMonotone(marks, reachable[..]);
    }
    forall s | 0 <= s < |m| && Reachable(m, reset, s) ensures reachable[s] {
      var us :| Reach(m, reset, us) == Some(s);
      ReachStaysInside(m, reset, us, reachable[..]);
    }
  }

  method ExpandState(m: Machine, reset: nat, state: nat, queue: seq<nat>, reachable: array<bool>, ghost ni: nat, ghost no: nat)
      returns (worklist: seq<nat>)
    requires WellFormed(m, ni, no) && reset < |m| && state < |m| && reachable.Length == |m|
    requires reachable[state]
    requires forall i :: 0 <= i < |queue| ==> queue[i] < |m| && reachable[queue[i]]
    requires forall s :: 0 <= s < |m| && reachable[s] ==> Reachable(m, reset, s)
    requires Expanded(m, reachable[..], [state] + queue)
    modifies reachable
    ensures forall i :: 0 <= i < |worklist| ==> worklist[i] < |m| && reachable[worklist[i]]
    ensures forall s :: 0 <= s < |m| ==> old(reachable[s]) ==> reachable[s]
    ensures forall s :: 0 <= s < |m| && reachable[s] ==> Reachable(m, reset, s)
    ensures Expanded(m, reachable[..], worklist)
    ensures worklist == queue || exists i :: 0 <= i < |m| && !old(reachable[..])[i] && reachable[i]
  {
    hide Reachable, Expanded;
    worklist := queue;
    for j := 0 to |m[state]|
      invariant forall i :: 0 <= i < |worklist| ==> worklist[i] < |m| && reachable[worklist[i]]
      invariant forall s :: 0 <= s < |m| ==> old(reachable[s]) ==> reachable[s]
      invariant forall s :: 0 <= s < |m| && reachable[s] ==> Reachable(m, reset, s)
      invariant Expanded(m, reachable[..], [state] + worklist)
      invariant forall i :: 0 <= i < j ==> reachable[m[state][i].next]
      invariant worklist == queue || exists i :: 0 <= i < |m| && !old(reachable[..])[i] && reachable[i]
    {
      var nextState := m[state][j].next;
      if !reachable[nextState] {
        ReachableStep(m, ni, no, reset, state, j);
        ghost var marks := reachable[..];
        ExpandedIn(m, marks, state, worklist, nextState);
        assert !old(reachable[..])[nextState];
        reachable[nextState] := true;
        worklist := worklist + [nextState];
        assert reachable[..] == marks[nextState := true];
      }
    }
    ExpandedOut(m, reachable[..], state, worklist);
  }

  lemma ExpandedIn(m: Machine, marks: seq<bool>, state: nat, queue: seq<nat>, next: nat)
    requires |marks| == |m| && next < |m| && Expanded(m, marks, [state] + queue)
    ensures Expanded(m, marks[next := true], [state] + (queue + [next]))
  {
    forall s, j | 0 <= s < |m| && marks[next := true][s] && s !in [state] + (queue + [next]) && 0 <= j < |m[s]|
      ensures m[s][j].next < |m| && marks[next := true][m[s][j].next]
    {
      assert s !in [state] + queue by {
        assert forall x :: x in [state] + queue ==> x in [state] + (queue + [next]);
      }
      assert next in queue + [next];
      assert next in [state] + (queue + [next]);
    }
  }

  lemma ExpandedOut(m: Machine, marks: seq<bool>, state: nat, queue: seq<nat>)
    requires |marks| == |m| && state < |m| && Expanded(m, marks, [state] + queue)
    requires forall j :: 0 <= j < |m[state]| ==> m[state][j].next < |m| && marks[m[state][j].next]
    ensures Expanded(m, marks, queue)
  {
    forall s, j | 0 <= s < |m| && marks[s] && s !in queue && 0 <= j < |m[s]|
      ensures m[s][j].next < |m| && marks[m[s][j].next]
    {
      assert s != state ==> s !in [state] + queue;
    }
  }

  // ----- compaction -----

  /** Slot `k` holds original row `who[k]`; the slots below `i` are final. */
  ghost predicate Compacting(m: Machine, rows: Machine, live: seq<bool>, remap: seq<nat>, who: seq<nat>, reset: nat, i: nat) {
    && |live| == |remap| == |m| && |who| == |rows| <= |m| && i <= |rows|
    && (forall k :: 0 <= k < |rows| ==> who[k] < |m| && rows[k] == m[who[k]])
    && (forall k :: 0 <= k < i ==> Settled(m, live, remap, who, reset, i, k))
    && (forall k :: i <= k < |rows| ==> who[k] == k && (live[k] ==> Reachable(m, reset, k)))
    && (forall s :: 0 <= s < |m| && Reachable(m, reset, s) ==> Placed(live, remap, who, i, s))
  }

  /** Slot `k` is final: it keeps a reachable row, and `remap` knows where that row went. */
  ghost predicate Settled(m: Machine, live: seq<bool>, remap: seq<nat>, who: seq<nat>, reset: nat, i: nat, k: nat)
    requires |live| == |remap| == |m| && k < |who| <= |m|
  {
    && who[k] < |m| && live[k] && remap[who[k]] == k && Reachable(m, reset, who[k])
    && (who[k] < i || who[k] >= |who| || !live[who[k]])
  }

  /** Row `s` is in a final slot or still in its own. */
  ghost predicate Placed(live: seq<bool>, remap: seq<nat>, who: seq<nat>, i: nat, s: nat)
    requires |live| == |remap| && s < |live| && i <= |who|
  {
    (remap[s] < i && who[remap[s]] == s) || (i <= s < |who| && live[s])
  }

  lemma KeepSlot(m: Machine, rows: Machine, live: seq<bool>, remap: seq<nat>, who: seq<nat>, reset: nat, i: nat)
    requires Compacting(m, rows, live, remap, who, reset, i) && i < |rows| && live[i]
    ensures Compacting(m, rows, live, remap[i := i], who, reset, i + 1)
  {
    hide Reachable;
    var remap2, i2 := remap[i := i], i + 1;
    forall k | 0 <= k < i2 ensures Settled(m, live, remap2, who, reset, i2, k) {
      assert k < i ==> Settled(m, live, remap, who, reset, i, k);
    }
    forall s | 0 <= s < |m| && Reachable(m, reset, s) ensures Placed(live, remap2, who, i2, s) {
      assert Placed(live, remap, who, i, s);
    }
  }

  /** Filling gap `i` from the last live slot, then dropping one slot from the end. */
  lemma FillSlot(m: Machine, rows: Machine, live: seq<bool>, remap: seq<nat>, who: seq<nat>, reset: nat, i: nat, last: nat)
    requires Compacting(m, rows, live, remap, who, reset, i) && i < last < |rows| && !live[i] && live[last]
    requires forall k :: last < k < |rows| ==> !live[k]
    ensures Compacting(m, rows[i := rows[last]][..|rows| - 1], live[i := true][last := false], remap[last := i],
                       who[i := last][..|who| - 1], reset, i + 1)
  {
    hide Reachable;
    var live2, remap2, who2 := live[i := true][last := false], remap[last := i], who[i := last][..|who| - 1];
    var i2 := i + 1;
    forall k | 0 <= k < i2 ensures Settled(m, live2, remap2, who2, reset, i2, k) {
      assert k < i ==> Settled(m, live, remap, who, reset, i, k);
    }
    forall s | 0 <= s < |m| && Reachable(m, reset, s) ensures Placed(live2, remap2, who2, i2, s) {
      assert Placed(live, remap, who, i, s);
    }
  }

  /** No live slot is left above gap `i`: the machine ends there. */
  lemma CutSlots(m: Machine, rows: Machine, live: seq<bool>, remap: seq<nat>, who: seq<nat>, reset: nat, i: nat, last: nat)
    requires Compacting(m, rows, live, remap, who, reset, i) && i < |rows| && !live[i]
    requires last <= i && last < |rows| && live[last] && forall k :: last < k < |rows| ==> !live[k]
    ensures last + 1 == i && Compacting(m, rows[..last + 1], live, remap, who[..last + 1], reset, i)
  {
    hide Reachable;
    assert i > 0 ==> Settled(m, live, remap, who, reset, i, i - 1);
    var who2 := who[..last + 1];
    forall k | 0 <= k < i ensures Settled(m, live, remap, who2, reset, i, k) {
      assert Settled(m, live, remap, who, reset, i, k);
    }
    forall s | 0 <= s < |m| && Reachable(m, reset, s) ensures Placed(live, remap, who2, i, s) {
      assert Placed(live, remap, who, i, s);
    }
  }

  /** Moves the last live row into each gap, dropping one slot at a time. */
  method Compact(m: Machine, reset: nat, live: array<bool>) returns (rows: Machine, remap: array<nat>, ghost who: seq<nat>)
    requires reset < |m| && live.Length == |m|
    requires forall s :: 0 <= s < |m| ==> (live[s] <==> Reachable(m, reset, s))
    modifies live
    ensures fresh(remap) && remap.Length == |m|
    ensures Compacting(m, rows, live[..], remap[..], who, reset, |rows|)
  {
    rows := m;
    remap := new nat[|m|](_ => 0);
    who := seq(|m|, k => k);
    ReachableSelf(m, reset);
    var i := 0;
    while i < |rows|
      invariant 0 <= i <= |rows| && remap.Length == |m| && live.Length == |m|
      invariant Compacting(m, rows, live[..], remap[..], who, reset, i)
      decreases |rows| - i
    {
      rows, who, i := VisitSlot(m, reset, rows, live, remap, who, i);
    }
  }

  /** One turn of the compaction loop: keep slot `i`, fill it from the end, or cut the machine here. */
  method VisitSlot(m: Machine, reset: nat, rows: Machine, live: array<bool>, remap: array<nat>, ghost who: seq<nat>, i: nat)
      returns (rows2: Machine, ghost who2: seq<nat>, i2: nat)
    requires reset < |m| && live.Length == |m| == remap.Length
    requires Compacting(m, rows, live[..], remap[..], who, reset, i) && i < |rows|
    modifies live, remap
    ensures Compacting(m, rows2, live[..], remap[..], who2, reset, i2)
    ensures |rows2| - i2 < |rows| - i
  {
    hide Reachable, Settled, Placed;
    if live[i] {
      KeepSlot(m, rows, live[..], remap[..], who, reset, i);
      remap[i] := i;
      rows2, who2, i2 := rows, who, i + 1;
    } else {
      SomeLive(m, rows, live[..], remap[..], who, reset, i);
      var last := LastLive(|rows|, live);
      if last > i {
        FillSlot(m, rows, live[..], remap[..], who, reset, i, last);
        rows2, who2, i2 := MoveRow(rows, live, remap, who, i, last);
      } else {
        CutSlots(m, rows, live[..], remap[..], who, reset, i, last);
        rows2, who2, i2 := rows[..last + 1], who[..last + 1], i;
      }
    }
  }

  method MoveRow(rows: Machine, live: array<bool>, remap: array<nat>, ghost who: seq<nat>, i: nat, last: nat)
      returns (rows2: Machine, ghost who2: seq<nat>, i2: nat)
    requires i < last < |rows| == |who| <= live.Length == remap.Length
    modifies live, remap
    ensures rows2 == rows[i := rows[last]][..|rows| - 1]
    ensures live[..] == old(live[..])[i := true][last := false] && remap[..] == old(remap[..])[last := i]
    ensures who2 == who[i := last][..|who| - 1] && i2 == i + 1
  {
    remap[last] := i;
    rows2 := rows[i := rows[last]];
    live[i] := true;
    live[last] := false;
    rows2 := rows2[..|rows2| - 1];
    who2 := who[i := last][..|who| - 1];
    i2 := i + 1;
  }

  lemma SomeLive(m: Machine, rows: Machine, live: seq<bool>, remap: seq<nat>, who: seq<nat>, reset: nat, i: nat)
    requires Compacting(m, rows, live, remap, who, reset, i) && reset < |m|
    ensures exists k :: 0 <= k < |rows| && live[k]
  {
    ReachableSelf(m, reset);
    assert Placed(live, remap, who, i, reset);
    assert remap[reset] < i ==> Settled(m, live, remap, who, reset, i, remap[reset]);
  }

  method LastLive(size: nat, live: array<bool>) returns (last: nat)
    requires size <= live.Length && exists k :: 0 <= k < size && live[k]
    ensures last < size && live[last]
    ensures forall k :: last < k < size ==> !live[k]
  {
    ghost var slot :| 0 <= slot < size && live[slot];
    last := size - 1;
    while !live[last]
      invariant slot <= last < size
      invariant forall k :: last < k < size ==> !live[k]
      decreases last
    {
      last := last - 1;
    }
  }

  /** The pruned machine is the reachable part, renamed by `who` (new state to old state). */
  ghost predicate Renamed(m: Machine, reset: nat, m2: Machine, reset2: nat, who: seq<nat>) {
    && |who| == |m2| && reset2 < |m2| && reset < |m| && who[reset2] == reset
    && (forall k :: 0 <= k < |m2| ==> who[k] < |m| && Reachable(m, reset, who[k]))
    && (forall k, l :: 0 <= k < l < |m2| ==> who[k] != who[l])
    && (forall s :: 0 <= s < |m| && Reachable(m, reset, s) ==> s in who)
    && (forall k :: 0 <= k < |m2| ==> RenamedRow(m, m2, who, k))
  }

  /** Row `k` is the original row with its targets renamed. */
  ghost predicate RenamedRow(m: Machine, m2: Machine, who: seq<nat>, k: nat)
    requires k < |m2| == |who| && who[k] < |m|
  {
    && |m2[k]| == |m[who[k]]|
    && (forall j :: 0 <= j < |m2[k]| ==>
          m2[k][j].input == m[who[k]][j].input && m2[k][j].output == m[who[k]][j].output &&
          m2[k][j].next < |m2| && who[m2[k][j].next] == m[who[k]][j].next)
  }

  method RemoveUnreachableStates(m: Machine, reset: nat, ghost ni: nat, ghost no: nat)
      returns (m2: Machine, reset2: nat, ghost who: seq<nat>)
    requires WellFormed(m, ni, no) && reset < |m|
    ensures Renamed(m, reset, m2, reset2, who)
  {
    var live := MarkReachable(m, reset, ni, no);
    var rows, remap: array<nat>;
    rows, remap, who := Compact(m, reset, live);
    RowsInside(m, reset, rows, live[..], remap[..], who, ni, no);
    ReachableSelf(m, reset);
    m2 := RenameAll(rows, remap);
    reset2 := remap[reset];
    RemapGivesRenamed(m, reset, rows, live[..], remap[..], who, m2, reset2, ni, no);
  }

  method RenameAll(rows: Machine, remap: array<nat>) returns (m2: Machine)
    requires forall k, j :: 0 <= k < |rows| && 0 <= j < |rows[k]| ==> rows[k][j].next < remap.Length
    ensures |m2| == |rows| && forall k :: 0 <= k < |rows| ==> m2[k] == RemapRow(rows[k], remap[..])
  {
    m2 := rows;
    for k := 0 to |rows|
      invariant |m2| == |rows|
      invariant forall l :: k <= l < |rows| ==> m2[l] == rows[l]
      invariant forall l :: 0 <= l < k ==> m2[l] == RemapRow(rows[l], remap[..])
    {
      var row := RenameTargets(m2[k], remap);
      m2 := m2[k := row];
    }
  }

  ghost function RemapRow(row: Row, remap: seq<nat>): Row {
    seq(|row|, j requires 0 <= j < |row| =>
      row[j].(next := if row[j].next < |remap| then remap[row[j].next] else row[j].next))
  }

  method RenameTargets(row: Row, remap: array<nat>) returns (row2: Row)
    requires forall j :: 0 <= j < |row| ==> row[j].next < remap.Length
    ensures row2 == RemapRow(row, remap[..])
  {
    row2 := row;
    for j := 0 to |row|
      invariant |row2| == |row|
      invariant forall l :: j <= l < |row| ==> row2[l] == row[l]
      invariant forall l :: 0 <= l < j ==> row2[l] == RemapRow(row, remap[..])[l]
    {
      row2 := row2[j := row2[j].(next := remap[row2[j].next])];
    }
  }

  lemma RowsInside(m: Machine, reset: nat, rows: Machine, live: seq<bool>, remap: seq<nat>, who: seq<nat>, ni: nat, no: nat)
    requires WellFormed(m, ni, no) && reset < |m| && Compacting(m, rows, live, remap, who, reset, |rows|)
    ensures forall k, j :: 0 <= k < |rows| && 0 <= j < |rows[k]| ==> rows[k][j].next < |m|
  {
    assert forall k :: 0 <= k < |rows| ==> rows[k] == m[who[k]];
  }

  lemma RemapGivesRenamed(m: Machine, reset: nat, rows: Machine, live: seq<bool>, remap: seq<nat>, who: seq<nat>,
                          m2: Machine, reset2: nat, ni: nat, no: nat)
    requires WellFormed(m, ni, no) && reset < |m| && Reachable(m, reset, reset)
    requires Compacting(m, rows, live, remap, who, reset, |rows|)
    requires |m2| == |rows| && forall k :: 0 <= k < |rows| ==> m2[k] == RemapRow(rows[k], remap)
    requires reset2 == remap[reset]
    ensures Renamed(m, reset, m2, reset2, who)
  {
    hide Reachable, WellFormed;
    var i := |rows|;
    assert Placed(live, remap, who, i, reset);
    forall k | 0 <= k < |m2|
      ensures Reachable(m, reset, who[k]) && remap[who[k]] == k && |m2[k]| == |m[who[k]]|
    {
      assert Settled(m, live, remap, who, reset, i, k);
    }
    forall s | 0 <= s < |m| && Reachable(m, reset, s) ensures s in who {
      assert Placed(live, remap, who, i, s);
    }
    forall k | 0 <= k < |m2| ensures RenamedRow(m, m2, who, k) {
      forall j | 0 <= j < |m2[k]| ensures m2[k][j].next < |m2| && who[m2[k][j].next] == m[who[k]][j].next {
        TargetPlaced(m, reset, rows, live, remap, who, k, j, ni, no);
      }
    }
  }

  lemma TargetPlaced(m: Machine, reset: nat, rows: Machine, live: seq<bool>, remap: seq<nat>, who: seq<nat>, k: nat, j: nat, ni: nat, no: nat)
    requires WellFormed(m, ni, no) && reset < |m| && Compacting(m, rows, live, remap, who, reset, |rows|)
    requires k < |rows| && j < |rows[k]|
    ensures rows[k][j].next < |m| && remap[rows[k][j].next] < |rows| && who[remap[rows[k][j].next]] == rows[k][j].next
  {
    assert Settled(m, live, remap, who, reset, |rows|, k);
    ReachableStep(m, ni, no, reset, who[k], j);
    assert Placed(live, remap, who, |rows|, rows[k][j].next);
  }

  lemma RenamedWellFormed(m: Machine, reset: nat, m2: Machine, reset2: nat, who: seq<nat>, ni: nat, no: nat)
    requires WellFormed(m, ni, no) && Renamed(m, reset, m2, reset2, who)
    ensures WellFormed(m2, ni, no)
  {
    forall s, j | 0 <= s < |m2| && 0 <= j < |m2[s]|
      ensures |m2[s][j].input| == ni && |m2[s][j].output| == no && m2[s][j].next < |m2|
    {
      assert RenamedRow(m, m2, who, s);
    }
    forall s | 0 <= s < |m2| ensures Deterministic(m2[s], ni) {
      assert RenamedRow(m, m2, who, s) && Deterministic(m[who[s]], ni);
    }
  }

  /** Rows that differ only in their targets take the same transition. */
  lemma {:induction false} LookupRenamed(row: Row, row2: Row, w: Word)
    requires |row| == |row2|
    requires forall j :: 0 <= j < |row| ==> row2[j].input == row[j].input
    ensures Lookup(row2, w).Some? <==> Lookup(row, w).Some?
    ensures Lookup(row, w).Some? ==>
              exists j :: 0 <= j < |row| && Lookup(row, w).value == row[j] && Lookup(row2, w).value == row2[j]
  {
    if row != [] && !Has(row[0].input, w) {
      LookupRenamed(row[1..], row2[1..], w);
      if Lookup(row[1..], w).Some? {
        var j :| 0 <= j < |row| - 1 && Lookup(row[1..], w).value == row[1..][j] && Lookup(row2[1..], w).value == row2[1..][j];
        assert row[j + 1] == row[1..][j];
      }
    } else if row != [] {
      assert Lookup(row, w).value == row[0] && Lookup(row2, w).value == row2[0];
    }
  }

  /** Every run of the pruned machine is the run of the original from the renamed state. */
  lemma {:induction false} RenamedRuns(m: Machine, reset: nat, m2: Machine, reset2: nat, who: seq<nat>, k: nat, ws: seq<Word>)
    requires Renamed(m, reset, m2, reset2, who) && k < |m2| && |ws| > 0
    ensures Out(m2, k, ws) == Out(m, who[k], ws)
    decreases ws
  {
    assert RenamedRow(m, m2, who, k);
    LookupRenamed(m[who[k]], m2[k], ws[0]);
    if Lookup(m2[k], ws[0]).Some? && |ws| > 1 {
      var j :| 0 <= j < |m2[k]| && Lookup(m[who[k]], ws[0]).value == m[who[k]][j] && Lookup(m2[k], ws[0]).value == m2[k][j];
      RenamedRuns(m, reset, m2, reset2, who, m2[k][j].next, ws[1..]);
    }
  }

  lemma {:induction false} RenamedReach(m: Machine, reset: nat, m2: Machine, reset2: nat, who: seq<nat>, k: nat, us: seq<Word>)
    requires Renamed(m, reset, m2, reset2, who) && k < |m2|
    ensures Reach(m2, k, us).Some? <==> Reach(m, who[k], us).Some?
    ensures Reach(m2, k, us).Some? ==> who[Reach(m2, k, us).value] == Reach(m, who[k], us).value
    decreases us
  {
    if us != [] {
      assert RenamedRow(m, m2, who, k);
      LookupRenamed(m[who[k]], m2[k], us[0]);
      if Lookup(m2[k], us[0]).Some? {
        var j :| 0 <= j < |m2[k]| && Lookup(m[who[k]], us[0]).value == m[who[k]][j] && Lookup(m2[k], us[0]).value == m2[k][j];
        RenamedReach(m, reset, m2, reset2, who, m2[k][j].next, us[1..]);
      }
    }
  }

  /** All states of the pruned machine are reachable in it. */
  lemma RenamedAllReachable(m: Machine, reset: nat, m2: Machine, reset2: nat, who: seq<nat>, k: nat)
    requires Renamed(m, reset, m2, reset2, who) && k < |m2|
    ensures Reachable(m2, reset2, k)
  {
    assert Reachable(m, reset, who[k]);
    var us :| Reach(m, reset, us) == Some(who[k]);
    RenamedReach(m, reset, m2, reset2, who, reset2, us);
    var l := Reach(m2, reset2, us).value;
    assert who[l] == who[k];
  }
}
