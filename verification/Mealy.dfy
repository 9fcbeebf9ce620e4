/** Incompletely specified Mealy machines, as memin/KISSParser.cpp builds them:
    one row of transitions per state, each from an input cube. */
module Mealy {
  import opened Cubes
  import opened Options

  datatype Trans = Trans(input: Cube, next: nat, output: Cube)

  type Row = seq<Trans>
  type Machine = seq<Row>

  /** No two transitions of a row share an input word. */
  ghost predicate Deterministic(row: Row, ni: nat)
    requires forall j :: 0 <= j < |row| ==> |row[j].input| == ni
  {
    forall i, j :: 0 <= i < j < |row| ==> Disjoint(row[i].input, row[j].input)
  }

  /** What the algorithm assumes of its input machine: `ni` input bits, `no` output bits,
      targets in range and rows without overlapping inputs. */
  ghost predicate WellFormed(m: Machine, ni: nat, no: nat) {
    && (forall s, j :: 0 <= s < |m| && 0 <= j < |m[s]| ==>
          |m[s][j].input| == ni && |m[s][j].output| == no && m[s][j].next < |m|)
    && (forall s :: 0 <= s < |m| ==> Deterministic(m[s], ni))
  }

  /** The transition a row takes on word `w`. */
  ghost function Lookup(row: Row, w: Word): (t: Option<Trans>)
    ensures t.Some? ==> t.value in row && Has(t.value.input, w)
    ensures t.None? ==> forall j :: 0 <= j < |row| ==> !Has(row[j].input, w)
  {
    if row == [] then None
    else if Has(row[0].input, w) then Some(row[0])
    else Lookup(row[1..], w)
  }

  lemma LookupIs(row: Row, ni: nat, j: nat, w: Word)
    requires forall i :: 0 <= i < |row| ==> |row[i].input| == ni
    requires Deterministic(row, ni) && j < |row| && Has(row[j].input, w)
    ensures Lookup(row, w) == Some(row[j])
  {
    var t := Lookup(row, w).value;
    var i :| 0 <= i < |row| && row[i] == t;
    if i < j {
      DisjointMeansNoCommonWord(row[i].input, row[j].input);
    } else if j < i {
      DisjointMeansNoCommonWord(row[j].input, row[i].input);
    }
  }

  /** The output cube of the last step of a run on `ws`, if the machine defines the whole run. */
  ghost function Out(m: Machine, s: nat, ws: seq<Word>): Option<Cube>
    requires |ws| > 0
    decreases ws
  {
    if s >= |m| then None else
    match Lookup(m[s], ws[0])
    case None => None
    case Some(t) => if |ws| == 1 then Some(t.output) else Out(m, t.next, ws[1..])
  }

  /** The state reached by a run on `ws`. */
  ghost function Reach(m: Machine, s: nat, ws: seq<Word>): (r: Option<nat>)
    ensures r.Some? ==> r.value < |m|
    decreases ws
  {
    if s >= |m| then None
    else if ws == [] then Some(s) else
    match Lookup(m[s], ws[0])
    case None => None
    case Some(t) => Reach(m, t.next, ws[1..])
  }

  /** Every specified output bit of `weak` is produced by `strong`. */
  ghost predicate Refines(strong: Cube, weak: Cube) {
    |strong| == |weak| && forall k :: 0 <= k < |weak| ==> weak[k].Dash? || strong[k] == weak[k]
  }

  /** State `q` of `m2` answers every input sequence that `m` defines from `s`, and answers it
      with the output bits that `m` specifies. */
  ghost predicate CoversState(m2: Machine, q: nat, m: Machine, s: nat) {
    forall ws: seq<Word> :: |ws| > 0 && Out(m, s, ws).Some? ==>
      Out(m2, q, ws).Some? && Refines(Out(m2, q, ws).value, Out(m, s, ws).value)
  }

  /** Both runs on `ws` are defined and some output bit of the last step differs. */
  ghost predicate Distinguishes(m: Machine, s1: nat, s2: nat, ws: seq<Word>) {
    |ws| > 0 && Out(m, s1, ws).Some? && Out(m, s2, ws).Some? &&
    |Out(m, s1, ws).value| == |Out(m, s2, ws).value| &&
    Disjoint(Out(m, s1, ws).value, Out(m, s2, ws).value)
  }

  ghost predicate Incompatible(m: Machine, s1: nat, s2: nat) {
    exists ws :: Distinguishes(m, s1, s2, ws)
  }

  lemma {:induction false} OutInRange(m: Machine, ni: nat, no: nat, s: nat, ws: seq<Word>)
    requires WellFormed(m, ni, no) && |ws| > 0 && Out(m, s, ws).Some?
    ensures |Out(m, s, ws).value| == no
    decreases ws
  {
    var t := Lookup(m[s], ws[0]).value;
    var j :| 0 <= j < |m[s]| && m[s][j] == t;
    if |ws| > 1 {
      OutInRange(m, ni, no, t.next, ws[1..]);
    }
  }

  /** In a well-formed machine the lengths of two outputs always agree: runs from two states tell
      them apart exactly when both are defined and their outputs contradict each other. */
  lemma DistinguishedByOutputs(m: Machine, ni: nat, no: nat, s1: nat, s2: nat, ws: seq<Word>)
    requires WellFormed(m, ni, no) && |ws| > 0 && Out(m, s1, ws).Some? && Out(m, s2, ws).Some?
    ensures |Out(m, s1, ws).value| == |Out(m, s2, ws).value| == no
    ensures Distinguishes(m, s1, s2, ws) <==> Disjoint(Out(m, s1, ws).value, Out(m, s2, ws).value)
  {
    OutInRange(m, ni, no, s1, ws);
    OutInRange(m, ni, no, s2, ws);
  }

  /** A run after a prefix is the run from the state the prefix reaches. */
  lemma {:induction false} OutAfter(m: Machine, s: nat, us: seq<Word>, ws: seq<Word>)
    requires |ws| > 0 && Reach(m, s, us).Some?
    ensures Out(m, s, us + ws) == Out(m, Reach(m, s, us).value, ws)
    decreases us
  {
    if us == [] {
      assert us + ws == ws;
    } else {
      var t := Lookup(m[s], us[0]).value;
      OutAfter(m, t.next, us[1..], ws);
      assert (us + ws)[1..] == us[1..] + ws;
    }
  }

  lemma {:induction false} ReachSnoc(m: Machine, s: nat, us: seq<Word>, w: Word)
    requires Reach(m, s, us).Some? && Lookup(m[Reach(m, s, us).value], w).Some?
    requires Lookup(m[Reach(m, s, us).value], w).value.next < |m|
    ensures Reach(m, s, us + [w]) == Some(Lookup(m[Reach(m, s, us).value], w).value.next)
    decreases us
  {
    if us == [] {
      assert us + [w] == [w] && [w][1..] == [];
    } else {
      var t := Lookup(m[s], us[0]).value;
      ReachSnoc(m, t.next, us[1..], w);
      assert (us + [w])[1..] == us[1..] + [w];
    }
  }

  /** A deterministic machine never contradicts itself. */
  lemma CompatibleWithItself(m: Machine, s: nat)
    ensures !Incompatible(m, s, s)
  {
    forall ws | |ws| > 0 && Out(m, s, ws).Some? ensures !Distinguishes(m, s, s, ws) {}
  }
}
