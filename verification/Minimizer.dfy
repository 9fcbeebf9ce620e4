/** MeMin_Command (memin/minimizer.cpp): exact minimisation of an incompletely specified
    Mealy machine with the SAT solver. */
module Minimizer {
  import opened Cubes
  import opened Options
  import opened Mealy
  import opened Incompat
  import opened Prune
  import opened Split
  import opened Cover
  import opened Cnf
  import opened Dimacs
  import opened CnfBuilder
  import opened MachineBuilder
  import SatLink
  import SatSolver

  /** Machine `m2` can stand in for `m`: from reset if `m` has a reset state, else from every state. */
  ghost predicate StandsIn(m2: Machine, m: Machine, reset: int)
    requires -1 <= reset < |m|
  {
    if reset != -1 then CoveredBySome(m2, m, reset)
    else forall s :: 0 <= s < |m| ==> CoveredBySome(m2, m, s)
  }

  ghost predicate CoveredBySome(m2: Machine, m: Machine, s: nat) {
    exists q :: 0 <= q < |m2| && CoversState(m2, q, m, s)
  }

  // ----- the class machine -----

  /** The rows that writeKISSFile prints for one class, up to column `upto`. */
  function KissRow(cols: seq<Cube>, next: seq<int>, out: seq<Option<Cube>>, upto: nat): Row
    requires upto <= |cols| == |next| == |out|
    requires forall a :: 0 <= a < |cols| ==> next[a] >= -1 && (next[a] != -1 ==> out[a].Some?)
  {
    if upto == 0 then []
    else KissRow(cols, next, out, upto - 1) +
         if next[upto - 1] == -1 then [] else [Trans(cols[upto - 1], next[upto - 1], out[upto - 1].value)]
  }

  lemma {:induction false} KissRowEntry(cols: seq<Cube>, next: seq<int>, out: seq<Option<Cube>>, upto: nat, j: nat) returns (a: nat)
    requires upto <= |cols| == |next| == |out|
    requires forall a :: 0 <= a < |cols| ==> next[a] >= -1 && (next[a] != -1 ==> out[a].Some?)
    requires j < |KissRow(cols, next, out, upto)|
    ensures a < upto && next[a] != -1 && KissRow(cols, next, out, upto)[j] == Trans(cols[a], next[a], out[a].value)
  {
    if j < |KissRow(cols, next, out, upto - 1)| {
      a := KissRowEntry(cols, next, out, upto - 1, j);
    } else {
      a := upto - 1;
    }
  }

  lemma {:induction false} KissRowOrdered(cols: seq<Cube>, next: seq<int>, out: seq<Option<Cube>>, upto: nat, i: nat, j: nat)
      returns (a: nat, b: nat)
    requires upto <= |cols| == |next| == |out|
    requires forall a :: 0 <= a < |cols| ==> next[a] >= -1 && (next[a] != -1 ==> out[a].Some?)
    requires i < j < |KissRow(cols, next, out, upto)|
    ensures a < b < upto && next[a] != -1 && next[b] != -1
    ensures KissRow(cols, next, out, upto)[i].input == cols[a] && KissRow(cols, next, out, upto)[j].input == cols[b]
  {
    if j < |KissRow(cols, next, out, upto - 1)| {
      a, b := KissRowOrdered(cols, next, out, upto - 1, i, j);
    } else {
      a := KissRowEntry(cols, next, out, upto - 1, i);
      b := upto - 1;
    }
  }

  lemma {:induction false} KissRowHas(cols: seq<Cube>, next: seq<int>, out: seq<Option<Cube>>, upto: nat, a: nat) returns (j: nat)
    requires upto <= |cols| == |next| == |out|
    requires forall a :: 0 <= a < |cols| ==> next[a] >= -1 && (next[a] != -1 ==> out[a].Some?)
    requires a < upto && next[a] != -1
    ensures j < |KissRow(cols, next, out, upto)| && KissRow(cols, next, out, upto)[j] == Trans(cols[a], next[a], out[a].value)
  {
    if a == upto - 1 {
      j := |KissRow(cols, next, out, upto - 1)|;
    } else {
      j := KissRowHas(cols, next, out, upto - 1, a);
    }
  }

  /** Everything known when a model has been decoded. */
  ghost predicate Decoded(m: Machine, ni: nat, no: nat, inc: seq<bool>, t: Table, cls: seq<set<nat>>, next2: seq<seq<int>>, out2: Outputs)
  {
    && WellFormed(m, ni, no) && IsIncompMatrix(m, inc) && IsSplit(m, inc, t, ni, no)
    && GoodProblem(ProblemOf(m, t, inc)) && OutputsFit(ProblemOf(m, t, inc), t.out, no)
    && ClosedCover(ProblemOf(m, t, inc), cls)
    && ClassTable(ProblemOf(m, t, inc), t.out, no, cls, next2, out2)
  }

  function ProblemOf(m: Machine, t: Table, inc: seq<bool>): Problem {
    Problem(|m|, |t.cols|, t.next, inc)
  }

  lemma ProblemIsGood(m: Machine, ni: nat, no: nat, inc: seq<bool>, t: Table)
    requires WellFormed(m, ni, no) && IsIncompMatrix(m, inc) && IsSplit(m, inc, t, ni, no)
    ensures GoodProblem(ProblemOf(m, t, inc)) && OutputsFit(ProblemOf(m, t, inc), t.out, no)
  {
    MatrixShape(m, inc);
  }

  lemma MatrixShape(m: Machine, inc: seq<bool>)
    requires IsIncompMatrix(m, inc)
    ensures Symmetric(inc, |m|) && forall s :: 0 <= s < |m| ==> !Marked(inc, |m|, s, s)
  {
    forall x, y | 0 <= x < |m| && 0 <= y < |m| && Marked(inc, |m|, x, y) ensures Marked(inc, |m|, y, x) {
      IncompatibleSymmetric(m, x, y);
    }
    forall s | 0 <= s < |m| ensures !Marked(inc, |m|, s, s) {
      CompatibleWithItself(m, s);
    }
  }

  /** Compatible states never contradict each other in a common column. */
  lemma ClassOutputsAgree(m: Machine, ni: nat, no: nat, inc: seq<bool>, t: Table, c: set<nat>)
    requires WellFormed(m, ni, no) && IsIncompMatrix(m, inc) && IsSplit(m, inc, t, ni, no)
    requires GoodProblem(ProblemOf(m, t, inc)) && OutputsFit(ProblemOf(m, t, inc), t.out, no)
    requires Compatible(ProblemOf(m, t, inc), c)
    ensures OutputsAgree(ProblemOf(m, t, inc), t.out, no, c)
  {
    hide IsSplit, Incompatible, WellFormed;
    forall s, u, a | s in c && u in c && s < |m| && u < |m| && 0 <= a < |t.cols| && t.next[s][a] != -1 && t.next[u][a] != -1
      ensures !Disjoint(t.out[s][a].value, t.out[u][a].value)
    {
      assert !Marked(inc, |m|, s, u);
      ColumnCompatible(m, ni, no, inc, t, s, u, a);
    }
  }

  /** Two states that no input sequence tells apart have compatible outputs in every column. */
  lemma ColumnCompatible(m: Machine, ni: nat, no: nat, inc: seq<bool>, t: Table, s: nat, u: nat, a: nat)
    requires |inc| == Cells(|m|, |m|) && IsSplit(m, inc, t, ni, no) && s < |m| && u < |m| && !Incompatible(m, s, u)
    requires a < |t.cols| && t.next[s][a] != -1 && t.next[u][a] != -1
    requires t.out[s][a].Some? && t.out[u][a].Some? && |t.out[s][a].value| == |t.out[u][a].value| == no
    ensures !Disjoint(t.out[s][a].value, t.out[u][a].value)
  {
    hide Out, Lookup;
    var w := Sample(t.cols[a], false);
    ColumnOut(m, ni, no, inc, t, s, a, w);
    ColumnOut(m, ni, no, inc, t, u, a, w);
    assert !Distinguishes(m, s, u, [w]);
  }

  lemma ColumnOut(m: Machine, ni: nat, no: nat, inc: seq<bool>, t: Table, s: nat, a: nat, w: Word)
    requires |inc| == Cells(|m|, |m|) && IsSplit(m, inc, t, ni, no) && s < |m| && a < |t.cols| && t.next[s][a] != -1 && Has(t.cols[a], w)
    ensures Lookup(m[s], w).Some? && Lookup(m[s], w).value.next == t.next[s][a] && t.out[s][a] == Some(Lookup(m[s], w).value.output)
    ensures Out(m, s, [w]) == t.out[s][a]
  {
    assert ColumnsAgree(m, t, s, ni, no);
  }

  lemma RowReady(m: Machine, ni: nat, no: nat, inc: seq<bool>, t: Table, cls: seq<set<nat>>, next2: seq<seq<int>>, out2: Outputs, c: nat)
    requires Decoded(m, ni, no, inc, t, cls, next2, out2) && c < |cls|
    ensures |t.cols| == |next2[c]| == |out2[c]|
    ensures forall a :: 0 <= a < |t.cols| ==>
              -1 <= next2[c][a] < |cls| && (next2[c][a] != -1 ==> out2[c][a].Some? && |out2[c][a].value| == no) &&
              (next2[c][a] != -1 <==> HasSucc(ProblemOf(m, t, inc), cls, a, c))
  {
    forall a | 0 <= a < |t.cols|
      ensures -1 <= next2[c][a] < |cls| && (next2[c][a] != -1 ==> out2[c][a].Some? && |out2[c][a].value| == no)
      ensures next2[c][a] != -1 <==> HasSucc(ProblemOf(m, t, inc), cls, a, c)
    {
      assert ClassEntry(ProblemOf(m, t, inc), t.out, no, cls, c, a, next2[c][a], out2[c][a]);
    }
  }

  /** The machine that is written out: one state per class. */
  ghost predicate IsClassMachine(t: Table, k: nat, next2: seq<seq<int>>, out2: Outputs, m2: Machine) {
    |m2| == k && forall c :: 0 <= c < k ==> RowPrinted(t, next2, out2, c, m2[c])
  }

  ghost predicate RowPrinted(t: Table, next2: seq<seq<int>>, out2: Outputs, c: nat, row: Row) {
    && c < |next2| && c < |out2| && |t.cols| == |next2[c]| == |out2[c]|
    && (forall a :: 0 <= a < |t.cols| ==> next2[c][a] >= -1 && (next2[c][a] != -1 ==> out2[c][a].Some?))
    && row == KissRow(t.cols, next2[c], out2[c], |t.cols|)
  }

  /** Two columns used by one class have no word in common. */
  lemma ClassColumnsDisjoint(m: Machine, ni: nat, no: nat, inc: seq<bool>, t: Table, cls: seq<set<nat>>, next2: seq<seq<int>>, out2: Outputs,
                             c: nat, a: nat, b: nat)
    requires Decoded(m, ni, no, inc, t, cls, next2, out2) && c < |cls| && a < |t.cols| && b < |t.cols| && a != b
    requires HasSucc(ProblemOf(m, t, inc), cls, a, c) && HasSucc(ProblemOf(m, t, inc), cls, b, c)
    ensures Disjoint(t.cols[a], t.cols[b])
  {
    var s :| s in cls[c] && s < |m| && t.next[s][a] != -1;
    var u :| u in cls[c] && u < |m| && t.next[u][b] != -1;
    assert Compatible(ProblemOf(m, t, inc), cls[c]);
    assert Aligned(t, |m|, ni, no, s, u);
    if !Disjoint(t.cols[a], t.cols[b]) {
      var w := CommonWord(t.cols[a], t.cols[b]);
    }
  }

  lemma ClassMachineWellFormed(m: Machine, ni: nat, no: nat, inc: seq<bool>, t: Table, cls: seq<set<nat>>, next2: seq<seq<int>>, out2: Outputs, m2: Machine)
    requires Decoded(m, ni, no, inc, t, cls, next2, out2) && IsClassMachine(t, |cls|, next2, out2, m2)
    ensures WellFormed(m2, ni, no)
  {
    forall c, j | 0 <= c < |m2| && 0 <= j < |m2[c]|
      ensures |m2[c][j].input| == ni && |m2[c][j].output| == no && m2[c][j].next < |m2|
    {
      assert RowPrinted(t, next2, out2, c, m2[c]);
      RowReady(m, ni, no, inc, t, cls, next2, out2, c);
      var a := KissRowEntry(t.cols, next2[c], out2[c], |t.cols|, j);
    }
    forall c | 0 <= c < |m2| ensures Deterministic(m2[c], ni) {
      assert RowPrinted(t, next2, out2, c, m2[c]);
      RowReady(m, ni, no, inc, t, cls, next2, out2, c);
      forall i, j | 0 <= i < j < |m2[c]| ensures Disjoint(m2[c][i].input, m2[c][j].input) {
        var a, b := KissRowOrdered(t.cols, next2[c], out2[c], |t.cols|, i, j);
        ClassColumnsDisjoint(m, ni, no, inc, t, cls, next2, out2, c, a, b);
      }
    }
  }

  /** One step: a class follows each member to a class that holds the member's successor. */
  lemma ClassStep(m: Machine, ni: nat, no: nat, inc: seq<bool>, t: Table, cls: seq<set<nat>>, next2: seq<seq<int>>, out2: Outputs, m2: Machine,
                  c: nat, s: nat, w: Word)
    requires Decoded(m, ni, no, inc, t, cls, next2, out2) && IsClassMachine(t, |cls|, next2, out2, m2) && WellFormed(m2, ni, no)
    requires c < |cls| && s in cls[c] && s < |m| && Lookup(m[s], w).Some?
    ensures Lookup(m2[c], w).Some? && Lookup(m2[c], w).value.next < |cls|
    ensures Lookup(m[s], w).value.next in cls[Lookup(m2[c], w).value.next]
    ensures Refines(Lookup(m2[c], w).value.output, Lookup(m[s], w).value.output)
  {
    assert ColumnsAgree(m, t, s, ni, no);
    var a :| 0 <= a < |t.cols| && t.next[s][a] != -1 && Has(t.cols[a], w);
    assert HasSucc(ProblemOf(m, t, inc), cls, a, c);
    assert ClassEntry(ProblemOf(m, t, inc), t.out, no, cls, c, a, next2[c][a], out2[c][a]);
    assert RowPrinted(t, next2, out2, c, m2[c]);
    RowReady(m, ni, no, inc, t, cls, next2, out2, c);
    var j := KissRowHas(t.cols, next2[c], out2[c], |t.cols|, a);
    LookupIs(m2[c], ni, j, w);
    ColumnOut(m, ni, no, inc, t, s, a, w);
  }

  /** By induction over runs, each class reproduces every specified output of every member. */
  lemma {:induction false} ClassCoversMember(m: Machine, ni: nat, no: nat, inc: seq<bool>, t: Table, cls: seq<set<nat>>, next2: seq<seq<int>>, out2: Outputs,
                                             m2: Machine, c: nat, s: nat, ws: seq<Word>)
    requires Decoded(m, ni, no, inc, t, cls, next2, out2) && IsClassMachine(t, |cls|, next2, out2, m2) && WellFormed(m2, ni, no)
    requires c < |cls| && s in cls[c] && s < |m| && |ws| > 0 && Out(m, s, ws).Some?
    ensures Out(m2, c, ws).Some? && Refines(Out(m2, c, ws).value, Out(m, s, ws).value)
    decreases ws
  {
    ClassStep(m, ni, no, inc, t, cls, next2, out2, m2, c, s, ws[0]);
    if |ws| > 1 {
      ClassCoversMember(m, ni, no, inc, t, cls, next2, out2, m2, Lookup(m2[c], ws[0]).value.next, Lookup(m[s], ws[0]).value.next, ws[1..]);
    }
  }

  // ----- any covering machine induces a closed cover -----

  /** The states that state `q` of `m3` covers. */
  ghost function CoveredStates(m3: Machine, m: Machine): (cls: seq<set<nat>>)
    ensures |cls| == |m3|
  {
    seq(|m3|, q requires 0 <= q < |m3| => set s: nat | 0 <= s < |m| && CoversState(m3, q, m, s))
  }

  lemma CoveredStatesMembers(m3: Machine, m: Machine, q: nat, s: nat)
    requires q < |m3|
    ensures s in CoveredStates(m3, m)[q] <==> s < |m| && CoversState(m3, q, m, s)
  {}

  lemma {:induction false} OutThenReach(m: Machine, ni: nat, no: nat, s: nat, ws: seq<Word>)
    requires WellFormed(m, ni, no) && |ws| > 0
    ensures Out(m, s, ws).Some? <==> Reach(m, s, ws).Some?
    decreases ws
  {
    if s < |m| && Lookup(m[s], ws[0]).Some? {
      var tr := Lookup(m[s], ws[0]).value;
      var j :| 0 <= j < |m[s]| && m[s][j] == tr;
      if |ws| == 1 {
        assert ws[1..] == [];
      } else {
        OutThenReach(m, ni, no, tr.next, ws[1..]);
      }
    }
  }

  /** Covering is kept along a common run. */
  lemma CoversAfter(m3: Machine, ni: nat, no: nat, q: nat, m: Machine, s: nat, us: seq<Word>)
    requires WellFormed(m3, ni, no) && WellFormed(m, ni, no) && q < |m3| && s < |m|
    requires CoversState(m3, q, m, s) && Reach(m, s, us).Some?
    ensures Reach(m3, q, us).Some? && CoversState(m3, Reach(m3, q, us).value, m, Reach(m, s, us).value)
  {
    if us != [] {
      OutThenReach(m, ni, no, s, us);
      OutThenReach(m3, ni, no, q, us);
    }
    var q2, s2 := Reach(m3, q, us).value, Reach(m, s, us).value;
    forall ws: seq<Word> | |ws| > 0 && Out(m, s2, ws).Some?
      ensures Out(m3, q2, ws).Some? && Refines(Out(m3, q2, ws).value, Out(m, s2, ws).value)
    {
      OutAfter(m, s, us, ws);
      OutAfter(m3, q, us, ws);
    }
  }

  /** A cube cannot refine two cubes that clash. */
  lemma RefinesBoth(o: Cube, a: Cube, b: Cube)
    requires Refines(o, a) && Refines(o, b)
    ensures !Disjoint(a, b)
  {
    forall k | 0 <= k < |a| ensures !Clash(a[k], b[k]) {
      assert a[k].Dash? || o[k] == a[k];
    }
  }

  lemma CoveredCompatible(m3: Machine, q: nat, m: Machine, ni: nat, no: nat, s: nat, u: nat)
    requires WellFormed(m, ni, no) && CoversState(m3, q, m, s) && CoversState(m3, q, m, u)
    ensures !Incompatible(m, s, u)
  {
    forall ws: seq<Word> | |ws| > 0 && Out(m, s, ws).Some? && Out(m, u, ws).Some? ensures !Distinguishes(m, s, u, ws) {
      RefinesBoth(Out(m3, q, ws).value, Out(m, s, ws).value, Out(m, u, ws).value);
    }
  }

  /** All successors of covered states in a column are covered by one state. */
  lemma CoveredCloses(m3: Machine, m: Machine, ni: nat, no: nat, inc: seq<bool>, t: Table, a: nat, q: nat)
    requires WellFormed(m3, ni, no) && WellFormed(m, ni, no) && IsIncompMatrix(m, inc) && IsSplit(m, inc, t, ni, no)
    requires GoodProblem(ProblemOf(m, t, inc)) && a < |t.cols| && q < |m3|
    requires HasSucc(ProblemOf(m, t, inc), CoveredStates(m3, m), a, q)
    ensures Closes(ProblemOf(m, t, inc), CoveredStates(m3, m), a, q)
  {
    var cls := CoveredStates(m3, m);
    var w := Sample(t.cols[a], false);
    var s0 :| s0 in cls[q] && s0 < |m| && t.next[s0][a] != -1;
    StepReach(m, ni, no, inc, t, s0, a, w);
    CoveredStatesMembers(m3, m, q, s0);
    CoversAfter(m3, ni, no, q, m, s0, [w]);
    var d := Reach(m3, q, [w]).value;
    forall s | s in cls[q] && s < |m| && t.next[s][a] != -1 ensures t.next[s][a] in cls[d] {
      StepReach(m, ni, no, inc, t, s, a, w);
      CoveredStatesMembers(m3, m, q, s);
      CoversAfter(m3, ni, no, q, m, s, [w]);
      CoveredStatesMembers(m3, m, d, t.next[s][a]);
    }
    assert Follows(ProblemOf(m, t, inc), cls, a, q, d);
  }

  lemma StepReach(m: Machine, ni: nat, no: nat, inc: seq<bool>, t: Table, s: nat, a: nat, w: Word)
    requires |inc| == Cells(|m|, |m|) && IsSplit(m, inc, t, ni, no) && s < |m| && a < |t.cols| && t.next[s][a] != -1 && Has(t.cols[a], w)
    ensures t.next[s][a] >= 0 && Reach(m, s, [w]) == Some(t.next[s][a])
  {
    ColumnOut(m, ni, no, inc, t, s, a, w);
    assert [w][1..] == [];
  }

  /** A machine that covers every state of `m` yields a closed cover with one class per state. */
  lemma CoveringMachineIsCover(m3: Machine, m: Machine, ni: nat, no: nat, inc: seq<bool>, t: Table)
    requires WellFormed(m3, ni, no) && WellFormed(m, ni, no) && IsIncompMatrix(m, inc) && IsSplit(m, inc, t, ni, no)
    requires GoodProblem(ProblemOf(m, t, inc))
    requires forall s :: 0 <= s < |m| ==> CoveredBySome(m3, m, s)
    ensures ClosedCover(ProblemOf(m, t, inc), CoveredStates(m3, m))
  {
    var p, cls := ProblemOf(m, t, inc), CoveredStates(m3, m);
    forall s | 0 <= s < |m| ensures Cover.InSome(cls, s) {
      assert CoveredBySome(m3, m, s);
      var q :| 0 <= q < |m3| && CoversState(m3, q, m, s);
      CoveredStatesMembers(m3, m, q, s);
    }
    forall q | 0 <= q < |cls| ensures Compatible(p, cls[q]) {
      forall s, u | s in cls[q] && u in cls[q] ensures !Marked(inc, |m|, s, u) {
        CoveredCompatible(m3, q, m, ni, no, s, u);
      }
    }
    forall a, q | 0 <= a < p.m && 0 <= q < |cls| && HasSucc(p, cls, a, q) ensures Closes(p, cls, a, q) {
      CoveredCloses(m3, m, ni, no, inc, t, a, q);
    }
  }

  /** Covering the reset state covers every state reachable from it. */
  lemma CoveringResetCoversAll(m3: Machine, m: Machine, ni: nat, no: nat, reset: nat)
    requires WellFormed(m3, ni, no) && WellFormed(m, ni, no) && reset < |m| && CoveredBySome(m3, m, reset)
    requires forall s :: 0 <= s < |m| ==> Reachable(m, reset, s)
    ensures forall s :: 0 <= s < |m| ==> CoveredBySome(m3, m, s)
  {
    var q :| 0 <= q < |m3| && CoversState(m3, q, m, reset);
    forall s | 0 <= s < |m| ensures CoveredBySome(m3, m, s) {
      assert Reachable(m, reset, s);
      var us :| Reach(m, reset, us) == Some(s);
      CoversAfter(m3, ni, no, q, m, reset, us);
    }
  }

  // ----- the size loop -----

  /** No closed cover has fewer than `k` classes. */
  ghost predicate NoSmallerCover(p: Problem, k: nat)
    requires GoodProblem(p)
  {
    forall cls :: ClosedCover(p, cls) ==> |cls| >= k
  }

  lemma CliqueBound(p: Problem, ps: seq<nat>)
    requires GoodProblem(p) && Clique(p, ps)
    ensures NoSmallerCover(p, |ps|) && |ps| <= p.n
  {
    forall cls | ClosedCover(p, cls) ensures |cls| >= |ps| {
      var cls2 := PlaceClique(p, ps, cls, |ps|);
    }
    SingletonsCover(p);
  }

  lemma UnsatBound(t: Task, reduced: set<nat>, kinds: seq<Kind>, clauses: Formula, num: Numbers)
    requires GoodTask(t) && ReducedAlphabet(t.p, reduced) && IsEncoding(t, reduced, kinds, clauses, num)
    requires NoSmallerCover(t.p, t.k) && Correct(clauses, Unsatisfiable)
    ensures NoSmallerCover(t.p, t.k + 1) && t.k < t.p.n
  {
    forall cls | ClosedCover(t.p, cls) ensures |cls| >= t.k + 1 {
      if |cls| == t.k {
        var model := CoverIsModel(t, reduced, kinds, clauses, num, cls);
      }
    }
    SingletonsCover(t.p);
  }

  lemma ModelFitsMap(t: Task, kinds: seq<Kind>, clauses: Formula, num: Numbers, litMap: seq<(int, int)>)
    requires GoodTask(t) && Encoded(t, kinds, clauses, num) && GoodNumbers(num) && IsLiteralMap(t, num, litMap) && |litMap| > 0
    ensures NumVars(clauses) < |litMap|
  {
    NumVarsBound(clauses, |litMap| - 1);
  }

  /** The options of the command and of its solver. */
  datatype Config = Config(noPartialSolutionInSat: bool, noLowerBound: bool, solver: SatSolver.Config)

  /** Raises the number of classes from the clique bound until the solver finds the formula satisfiable. */
  method FindMinimalCover(p: Problem, out: Outputs, resetState: int, opts: Config, ghost no: nat)
      returns (next2: seq<seq<int>>, out2: Outputs, newResetState: int, ghost cls: seq<set<nat>>)
    requires GoodProblem(p) && OutputsFit(p, out, no) && -1 <= resetState < p.n
    requires forall c: set<nat> :: Compatible(p, c) ==> OutputsAgree(p, out, no, c)
    ensures ClosedCover(p, cls) && NoSmallerCover(p, |cls|)
    ensures ClassTable(p, out, no, cls, next2, out2)
    ensures resetState == -1 ==> newResetState == -1
    ensures resetState != -1 ==> 0 <= newResetState < |cls| && resetState in cls[newResetState]
  {
    var pairwiseIncStates: seq<nat> := [];
    if !opts.noLowerBound {
      pairwiseIncStates := FindPairwiseIncStates(p);
    }
    CliqueBound(p, pairwiseIncStates);
    var nClasses := |pairwiseIncStates|;
    while true
      invariant Clique(p, pairwiseIncStates) && |pairwiseIncStates| <= nClasses <= p.n
      invariant NoSmallerCover(p, nClasses)
      decreases p.n - nClasses
    {
      if opts.noPartialSolutionInSat {
        pairwiseIncStates := [];
      }
      var t := Task(p, pairwiseIncStates, nClasses);
      ghost var reduced, kinds, num;
      var clauses, literalToStateClass;
      clauses, literalToStateClass, reduced, kinds, num := BuildCNF(t);
      EncodingProper(t, kinds, clauses, num);
      var ret := SatLink.SolveFormula(clauses, opts.solver);
      match ret {
        case Satisfiable(model) =>
          cls := Classes(t, num, model);
          ModelIsCover(t, reduced, kinds, clauses, num, model);
          ModelFitsMap(t, kinds, clauses, num, literalToStateClass);
          next2, out2, newResetState := BuildMachine(t, out, model, literalToStateClass, resetState, num, no);
          return;
        case Unsatisfiable =>
          UnsatBound(t, reduced, kinds, clauses, num);
          nClasses := nClasses + 1;
      }
    }
  }

  method PrintRows(t: Table, next2: seq<seq<int>>, out2: Outputs, ghost k: nat) returns (m2: Machine)
    requires |next2| == |out2| == k && forall c :: 0 <= c < k ==> |t.cols| == |next2[c]| == |out2[c]|
    requires forall c, a :: 0 <= c < k && 0 <= a < |t.cols| ==> next2[c][a] >= -1 && (next2[c][a] != -1 ==> out2[c][a].Some?)
    ensures IsClassMachine(t, k, next2, out2, m2)
  {
    m2 := [];
    for c := 0 to |next2|
      invariant |m2| == c && forall d :: 0 <= d < c ==> RowPrinted(t, next2, out2, d, m2[d])
    {
      m2 := m2 + [KissRow(t.cols, next2[c], out2[c], |t.cols|)];
    }
  }

  /** Minimises a machine all of whose states matter. */
  method MinimizeAll(m: Machine, resetState: int, opts: Config, ghost ni: nat, ghost no: nat)
      returns (m2: Machine, reset2: int)
    requires WellFormed(m, ni, no) && -1 <= resetState < |m|
    ensures WellFormed(m2, ni, no)
    ensures resetState == -1 ==> reset2 == -1
    ensures resetState != -1 ==> 0 <= reset2 < |m2| && CoversState(m2, reset2, m, resetState)
    ensures forall s :: 0 <= s < |m| ==> CoveredBySome(m2, m, s)
    ensures forall m3 :: WellFormed(m3, ni, no) && (forall s :: 0 <= s < |m| ==> CoveredBySome(m3, m, s)) ==> |m3| >= |m2|
  {
    var pred := ComputePredecessorMap(m);
    var incArray := new bool[Cells(|m|, |m|)](_ => false);
    ComputeIncompMatrix(m, pred, incArray, ni, no);
    var inc := incArray[..];
    MatrixShape(m, inc);
    var t := SplitTransitions(m, inc, ni, no);
    ProblemIsGood(m, ni, no, inc, t);
    var p := ProblemOf(m, t, inc);
    forall c: set<nat> | Compatible(p, c) ensures OutputsAgree(p, t.out, no, c) {
      ClassOutputsAgree(m, ni, no, inc, t, c);
    }
    var next2, out2;
    ghost var cls;
    next2, out2, reset2, cls := FindMinimalCover(p, t.out, resetState, opts, no);
    m2 := PrintClasses(m, ni, no, inc, t, cls, next2, out2);
    ClassMachineCovers(m, ni, no, inc, t, cls, next2, out2, m2);
    ClassMachineMinimal(m, ni, no, inc, t, |cls|);
  }

  method PrintClasses(ghost m: Machine, ghost ni: nat, ghost no: nat, ghost inc: seq<bool>, t: Table, ghost cls: seq<set<nat>>,
                      next2: seq<seq<int>>, out2: Outputs) returns (m2: Machine)
    requires Decoded(m, ni, no, inc, t, cls, next2, out2)
    ensures IsClassMachine(t, |cls|, next2, out2, m2) && WellFormed(m2, ni, no)
  {
    forall c | 0 <= c < |cls|
      ensures |t.cols| == |next2[c]| == |out2[c]|
      ensures forall a :: 0 <= a < |t.cols| ==> next2[c][a] >= -1 && (next2[c][a] != -1 ==> out2[c][a].Some?)
    {
      RowReady(m, ni, no, inc, t, cls, next2, out2, c);
    }
    m2 := PrintRows(t, next2, out2, |cls|);
    ClassMachineWellFormed(m, ni, no, inc, t, cls, next2, out2, m2);
  }

  lemma ClassMachineCovers(m: Machine, ni: nat, no: nat, inc: seq<bool>, t: Table, cls: seq<set<nat>>, next2: seq<seq<int>>, out2: Outputs, m2: Machine)
    requires Decoded(m, ni, no, inc, t, cls, next2, out2) && IsClassMachine(t, |cls|, next2, out2, m2) && WellFormed(m2, ni, no)
    ensures forall c, s :: 0 <= c < |cls| && s in cls[c] && s < |m| ==> CoversState(m2, c, m, s)
    ensures forall s :: 0 <= s < |m| ==> CoveredBySome(m2, m, s)
  {
    forall c, s | 0 <= c < |cls| && s in cls[c] && s < |m| ensures CoversState(m2, c, m, s) {
      forall ws: seq<Word> | |ws| > 0 && Out(m, s, ws).Some?
        ensures Out(m2, c, ws).Some? && Refines(Out(m2, c, ws).value, Out(m, s, ws).value)
      {
        ClassCoversMember(m, ni, no, inc, t, cls, next2, out2, m2, c, s, ws);
      }
    }
    forall s | 0 <= s < |m| ensures CoveredBySome(m2, m, s) {
      assert Cover.InSome(cls, s);
      var c :| 0 <= c < |cls| && s in cls[c];
      assert CoversState(m2, c, m, s);
    }
  }

  lemma ClassMachineMinimal(m: Machine, ni: nat, no: nat, inc: seq<bool>, t: Table, k: nat)
    requires WellFormed(m, ni, no) && IsIncompMatrix(m, inc) && IsSplit(m, inc, t, ni, no)
    requires GoodProblem(ProblemOf(m, t, inc)) && NoSmallerCover(ProblemOf(m, t, inc), k)
    ensures forall m3 :: WellFormed(m3, ni, no) && (forall s :: 0 <= s < |m| ==> CoveredBySome(m3, m, s)) ==> |m3| >= k
  {
    forall m3 | WellFormed(m3, ni, no) && forall s :: 0 <= s < |m| ==> CoveredBySome(m3, m, s) ensures |m3| >= k {
      CoveringMachineIsCover(m3, m, ni, no, inc, t);
      assert |CoveredStates(m3, m)| == |m3|;
    }
  }

  /** The command, with its solver: the result stands in for the input machine, and no smaller machine does. */
  method MeMin(m: Machine, resetState: int, opts: Config, ghost ni: nat, ghost no: nat)
      returns (m2: Machine, reset2: int)
    requires WellFormed(m, ni, no) && -1 <= resetState < |m|
    ensures WellFormed(m2, ni, no) && StandsIn(m2, m, resetState)
    ensures resetState == -1 ==> reset2 == -1
    ensures resetState != -1 ==> 0 <= reset2 < |m2| && CoversState(m2, reset2, m, resetState)
    ensures forall m3 :: WellFormed(m3, ni, no) && StandsIn(m3, m, resetState) ==> |m3| >= |m2|
  {
    if resetState == -1 {
      m2, reset2 := MinimizeAll(m, -1, opts, ni, no);
    } else {
      var m1, reset1;
      ghost var who;
      m1, reset1, who := RemoveUnreachableStates(m, resetState, ni, no);
      RenamedWellFormed(m, resetState, m1, reset1, who, ni, no);
      m2, reset2 := MinimizeAll(m1, reset1, opts, ni, no);
      forall m3, q ensures CoversState(m3, q, m1, reset1) <==> CoversState(m3, q, m, resetState) {
        SameRuns(m, resetState, m1, reset1, who, m3, q);
      }
      forall m3 | WellFormed(m3, ni, no) && StandsIn(m3, m, resetState) ensures |m3| >= |m2| {
        assert CoveredBySome(m3, m, resetState);
        var q :| 0 <= q < |m3| && CoversState(m3, q, m, resetState);
        assert CoversState(m3, q, m1, reset1);
        forall s | 0 <= s < |m1| ensures Reachable(m1, reset1, s) {
          RenamedAllReachable(m, resetState, m1, reset1, who, s);
        }
        CoveringResetCoversAll(m3, m1, ni, no, reset1);
      }
    }
  }

  lemma SameRuns(m: Machine, reset: nat, m1: Machine, reset1: nat, who: seq<nat>, m3: Machine, q: nat)
    requires Renamed(m, reset, m1, reset1, who)
    ensures CoversState(m3, q, m1, reset1) <==> CoversState(m3, q, m, reset)
  {
    forall ws: seq<Word> | |ws| > 0 ensures Out(m1, reset1, ws) == Out(m, reset, ws) {
      RenamedRuns(m, reset, m1, reset1, who, reset1, ws);
    }
  }
}
