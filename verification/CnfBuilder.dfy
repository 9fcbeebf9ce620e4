/** The clause writer of memin/DIMACSWriter.cpp: literals are numbered on first use while
    nested loops emit the clauses. */
module CnfBuilder {
  import opened Incompat
  import opened Cover
  import opened Cnf
  import opened Dimacs

  lemma EncodedGrows(t: Task, kinds: seq<Kind>, clauses: Formula, num: Numbers, v: AVar, l: nat)
    requires GoodTask(t) && Encoded(t, kinds, clauses, num) && v !in num
    ensures Encoded(t, kinds, clauses, num[v := l])
  {
    forall i | 0 <= i < |kinds| ensures clauses[i] == EncAll(Lits(t, kinds[i]), num[v := l]) {
      EncAllGrows(Lits(t, kinds[i]), num, v, l);
    }
  }

  lemma EncAllGrows(ls: seq<ALit>, num: Numbers, v: AVar, l: nat)
    requires AllNumbered(ls, num) && v !in num
    ensures AllNumbered(ls, num[v := l]) && EncAll(ls, num[v := l]) == EncAll(ls, num)
  {}

  /** The literal tables agree with the numbering. */
  ghost predicate TablesAgree(t: Task, stateLits: seq<int>, auxLits: seq<int>, num: Numbers, a: nat, c: nat)
    requires GoodTask(t)
  {
    && |stateLits| == Cells(t.p.n, t.k) && |auxLits| == t.k
    && (forall s, d :: 0 <= s < t.p.n && 0 <= d < t.k ==> StateEntry(t, stateLits, s, d) == NumberOf(num, X(s, d)))
    && (forall d :: 0 <= d < t.k ==> auxLits[d] == NumberOf(num, Y(a, c, d)))
  }

  /** The entry of `stateClassToLiteral` for a state and a class. */
  function StateEntry(t: Task, stateLits: seq<int>, s: nat, d: nat): int
    requires |stateLits| == Cells(t.p.n, t.k) && s < t.p.n && d < t.k
  {
    EntryInRange(s, d, t.p.n, t.k);
    stateLits[Ai(s, d, t.k)]
  }

  lemma EntryInRange(s: nat, d: nat, n: nat, k: nat)
    requires s < n && d < k
    ensures Ai(s, d, k) < Cells(n, k)
  {
    CellsMonotone(s, n, k);
  }

  ghost function NumberOf(num: Numbers, v: AVar): int {
    if v in num then num[v] else -1
  }

  ghost predicate FreshAbove(num: Numbers, next: nat) {
    && GoodNumbers(num) && next > 0
    && (forall v :: v in num ==> num[v] < next)
    && (forall l :: 0 < l < next ==> NumberUsed(num, l))
  }

  ghost predicate NumberUsed(num: Numbers, l: nat) {
    exists v :: v in num && num[v] == l
  }

  /** Every number given earlier is still the number of the same variable. */
  ghost predicate Keeps(before: Numbers, after: Numbers) {
    forall v :: v in before ==> v in after && after[v] == before[v]
  }

  /** Variables named so far belong to the states, classes and auxiliary rounds used so far. */
  ghost predicate OnlyRounds(t: Task, num: Numbers, rounds: set<(nat, nat)>) {
    forall v :: v in num ==> if v.X? then v.s < t.p.n && v.c < t.k else (v.a, v.cc) in rounds
  }

  class Writer {
    const t: Task
    var curLiteral: nat
    var stateClassToLiteral: seq<int>
    var auxLiteralsMap: seq<int>
    var clauses: Formula
    var curClause: Clause
    ghost var num: Numbers
    ghost var kinds: seq<Kind>
    ghost var curLits: seq<ALit>
    ghost var a: nat
    ghost var c: nat
    ghost var rounds: set<(nat, nat)>

    ghost predicate Valid()
      reads this
    {
      && GoodTask(t)
      && FreshAbove(num, curLiteral)
      && TablesAgree(t, stateClassToLiteral, auxLiteralsMap, num, a, c)
      && OnlyRounds(t, num, rounds)
      && Encoded(t, kinds, clauses, num)
      && AllNumbered(curLits, num) && curClause == EncAll(curLits, num)
    }

    /** The clauses of kinds in `kinds` are the ones of `before` and those of `more`. */
    constructor (t: Task)
      requires GoodTask(t)
      ensures Valid() && this.t == t
      ensures kinds == [] && curLits == [] && rounds == {}
    {
      this.t := t;
      curLiteral := 1;
      stateClassToLiteral := seq(Cells(t.p.n, t.k), _ => -1);
      auxLiteralsMap := seq(t.k, _ => -1);
      clauses, curClause := [], [];
      num, kinds, curLits, a, c, rounds := map[], [], [], 0, 0, {};
      new;
      forall s, d | 0 <= s < t.p.n && 0 <= d < t.k
        ensures StateEntry(t, stateClassToLiteral, s, d) == NumberOf(num, X(s, d))
      {
        EntryInRange(s, d, t.p.n, t.k);
      }
    }

    /** The number of "state s is in class d", allocated on first use. */
    method GetStateLiteral(s: nat, d: nat) returns (lit: int)
      requires Valid() && s < t.p.n && d < t.k
      modifies this`curLiteral, this`stateClassToLiteral, this`num
      ensures Valid() && X(s, d) in num && lit == num[X(s, d)]
      ensures Keeps(old(num), num)
    {
      EntryInRange(s, d, t.p.n, t.k);
      var key := Ai(s, d, t.k);
      lit := stateClassToLiteral[key];
      assert lit == StateEntry(t, stateClassToLiteral, s, d);
      if lit == -1 {
        lit := curLiteral;
        EncodedGrows(t, kinds, clauses, num, X(s, d), curLiteral);
        EncAllGrows(curLits, num, X(s, d), curLiteral);
        StateTableGrows(t, stateClassToLiteral, auxLiteralsMap, num, a, c, s, d, curLiteral);
        FreshGrows(num, curLiteral, X(s, d));
        stateClassToLiteral := stateClassToLiteral[key := curLiteral];
        num := num[X(s, d) := curLiteral];
        curLiteral := curLiteral + 1;
      }
    }

    /** The number of "class d follows class c on input a" for the current round (a, c). */
    method GetAuxLiteral(d: nat) returns (lit: int)
      requires Valid() && d < t.k && (a, c) in rounds
      modifies this`curLiteral, this`auxLiteralsMap, this`num
      ensures Valid() && Y(a, c, d) in num && lit == num[Y(a, c, d)]
      ensures Keeps(old(num), num)
    {
      lit := auxLiteralsMap[d];
      if lit == -1 {
        lit := curLiteral;
        EncodedGrows(t, kinds, clauses, num, Y(a, c, d), curLiteral);
        EncAllGrows(curLits, num, Y(a, c, d), curLiteral);
        AuxTableGrows(t, stateClassToLiteral, auxLiteralsMap, num, a, c, d, curLiteral);
        FreshGrows(num, curLiteral, Y(a, c, d));
        auxLiteralsMap := auxLiteralsMap[d := curLiteral];
        num := num[Y(a, c, d) := curLiteral];
        curLiteral := curLiteral + 1;
      }
    }

    /** Starts the auxiliary literals of a new (input, class) round; none of them is in use. */
    method ClearAux(newA: nat, newC: nat)
      requires Valid() && (newA, newC) !in rounds
      modifies this`auxLiteralsMap, this`a, this`c, this`rounds
      ensures Valid() && a == newA && c == newC && rounds == old(rounds) + {(newA, newC)}
    {
      auxLiteralsMap := seq(t.k, _ => -1);
      a, c, rounds := newA, newC, rounds + {(newA, newC)};
    }

    method AddStateLit(s: nat, d: nat, pos: bool)
      requires Valid() && s < t.p.n && d < t.k
      modifies this`curLiteral, this`stateClassToLiteral, this`num, this`curClause, this`curLits
      ensures Valid() && curLits == old(curLits) + [ALit(X(s, d), pos)]
    {
      var lit := GetStateLiteral(s, d);
      curClause := curClause + [if pos then lit else -lit];
      curLits := curLits + [ALit(X(s, d), pos)];
      assert curClause == EncAll(curLits, num);
    }

    method AddAuxLit(d: nat, pos: bool)
      requires Valid() && d < t.k && (a, c) in rounds
      modifies this`curLiteral, this`auxLiteralsMap, this`num, this`curClause, this`curLits
      ensures Valid() && curLits == old(curLits) + [ALit(Y(a, c, d), pos)]
    {
      var lit := GetAuxLiteral(d);
      curClause := curClause + [if pos then lit else -lit];
      curLits := curLits + [ALit(Y(a, c, d), pos)];
      assert curClause == EncAll(curLits, num);
    }

    method AddClause(ghost kd: Kind)
      requires Valid() && curLits == Lits(t, kd)
      modifies this`clauses, this`curClause, this`kinds, this`curLits
      ensures Valid() && curLits == [] && kinds == old(kinds) + [kd]
    {
      clauses := clauses + [curClause];
      curClause := [];
      kinds, curLits := kinds + [kd], [];
    }

    /** Puts the pairwise incompatible states into different classes. */
    method EmitFixes()
      requires Valid() && curLits == []
      modifies this`curLiteral, this`stateClassToLiteral, this`num, this`clauses, this`curClause, this`kinds, this`curLits
      ensures Valid() && curLits == []
      ensures forall kd :: kd in kinds <==> kd in old(kinds) || (kd.Fix? && kd.c < |t.ps|)
    {
      assert GoodTask(t);
      hide Valid;
      for i := 0 to |t.ps|
        invariant Valid() && curLits == []
        invariant forall kd :: kd in kinds <==> kd in old(kinds) || (kd.Fix? && kd.c < i)
      {
        AddStateLit(t.ps[i], i, true);
        AddClause(Fix(i));
      }
    }

    /** Each state must be in at least one class: one clause per state, in order. */
    method EmitSomeClass()
      requires Valid() && curLits == []
      modifies this`curLiteral, this`stateClassToLiteral, this`num, this`clauses, this`curClause, this`kinds, this`curLits
      ensures Valid() && curLits == []
      ensures kinds == old(kinds) + SomeClasses(t.p.n)
    {
      hide Valid;
      for s := 0 to t.p.n
        invariant Valid() && curLits == []
        invariant kinds == old(kinds) + SomeClasses(s)
      {
        EmitSomeClassOf(s);
        AddClause(SomeClass(s));
      }
    }

    method EmitSomeClassOf(s: nat)
      requires Valid() && curLits == [] && s < t.p.n
      modifies this`curLiteral, this`stateClassToLiteral, this`num, this`curClause, this`curLits
      ensures Valid() && curLits == SomeClassLits(t, s, t.k)
    {
      assert GoodTask(t);
      hide Valid;
      for i := 0 to t.k
        invariant Valid()
        invariant curLits == SomeClassLits(t, s, i)
      {
        if !Excluded(t, s, i) {
          AddStateLit(s, i, true);
        }
      }
    }

    /** States incompatible with a clique state must not be in its class. */
    method EmitForbids()
      requires Valid() && curLits == []
      modifies this`curLiteral, this`stateClassToLiteral, this`num, this`clauses, this`curClause, this`kinds, this`curLits
      ensures Valid() && curLits == []
      ensures forall kd :: kd in kinds <==> kd in old(kinds) || Forbids(t, kd, |t.ps|)
    {
      assert GoodTask(t);
      hide Valid;
      for i := 0 to |t.ps|
        invariant Valid() && curLits == []
        invariant forall kd :: kd in kinds <==> kd in old(kinds) || Forbids(t, kd, i)
      {
        EmitForbidsOf(i);
      }
    }

    method EmitForbidsOf(i: nat)
      requires Valid() && curLits == [] && i < |t.ps|
      modifies this`curLiteral, this`stateClassToLiteral, this`num, this`clauses, this`curClause, this`kinds, this`curLits
      ensures Valid() && curLits == []
      ensures forall kd :: kd in kinds <==> kd in old(kinds) || (Forbids(t, kd, |t.ps|) && kd.c == i)
    {
      assert GoodTask(t);
      hide Valid;
      for u := 0 to t.p.n
        invariant Valid() && curLits == []
        invariant forall kd :: kd in kinds <==> kd in old(kinds) || (Forbids(t, kd, |t.ps|) && kd.c == i && kd.t < u)
      {
        if Marked(t.p.inc, t.p.n, t.ps[i], u) {
          EmitForbid(i, u);
        }
      }
    }

    method EmitForbid(i: nat, u: nat)
      requires Valid() && curLits == [] && i < t.k && u < t.p.n
      modifies this`curLiteral, this`stateClassToLiteral, this`num, this`clauses, this`curClause, this`kinds, this`curLits
      ensures Valid() && curLits == [] && kinds == old(kinds) + [Forbid(i, u)]
    {
      AddStateLit(u, i, false);
      AddClause(Forbid(i, u));
    }

    /** Incompatible states must not share a class. */
    method EmitExcludes()
      requires Valid() && curLits == []
      modifies this`curLiteral, this`stateClassToLiteral, this`num, this`clauses, this`curClause, this`kinds, this`curLits
      ensures Valid() && curLits == []
      ensures forall kd :: kd in kinds <==> kd in old(kinds) || Excludes(t, kd, t.p.n)
    {
      assert GoodTask(t);
      hide Valid;
      for s := 0 to t.p.n
        invariant Valid() && curLits == []
        invariant forall kd :: kd in kinds <==> kd in old(kinds) || Excludes(t, kd, s)
      {
        ghost var before := kinds;
        for i := 0 to t.k
          invariant Valid() && curLits == []
          invariant forall kd :: kd in kinds <==> kd in before || (Excludes(t, kd, t.p.n) && kd.s == s && kd.c < i)
        {
          if !Excluded(t, s, i) {
            EmitExcludesOf(s, i);
          }
        }
      }
    }

    method EmitExcludesOf(s: nat, i: nat)
      requires Valid() && curLits == [] && s < t.p.n && i < t.k && !Excluded(t, s, i)
      modifies this`curLiteral, this`stateClassToLiteral, this`num, this`clauses, this`curClause, this`kinds, this`curLits
      ensures Valid() && curLits == []
      ensures forall kd :: kd in kinds <==> kd in old(kinds) || (Excludes(t, kd, t.p.n) && kd.s == s && kd.c == i)
    {
      assert GoodTask(t);
      hide Valid;
      for u := s + 1 to t.p.n
        invariant Valid() && curLits == []
        invariant forall kd :: kd in kinds <==> kd in old(kinds) || (Excludes(t, kd, t.p.n) && kd.s == s && kd.c == i && kd.t < u)
      {
        if Marked(t.p.inc, t.p.n, s, u) {
          EmitExclude(s, u, i);
        }
      }
    }

    method EmitExclude(s: nat, u: nat, i: nat)
      requires Valid() && curLits == [] && s < t.p.n && u < t.p.n && i < t.k
      modifies this`curLiteral, this`stateClassToLiteral, this`num, this`clauses, this`curClause, this`kinds, this`curLits
      ensures Valid() && curLits == [] && kinds == old(kinds) + [Exclude(s, u, i)]
    {
      AddStateLit(s, i, false);
      AddStateLit(u, i, false);
      AddClause(Exclude(s, u, i));
    }

    // ----- closure constraints -----

    method StatesThatCanBeIn(i: nat) returns (states: seq<nat>)
      requires GoodTask(t)
      ensures forall s: nat :: s in states <==> s < t.p.n && !Excluded(t, s, i)
    {
      states := [];
      for s := 0 to t.p.n
        invariant forall u: nat :: u in states <==> u < s && !Excluded(t, u, i)
      {
        if !Excluded(t, s, i) {
          states := states + [s];
        }
      }
    }

    /** The classes that can take a successor of class `i` on input `x`, and their range. */
    method PossibleSuccClasses(states: seq<nat>, x: nat, i: nat) returns (possible: seq<bool>, smallest: nat, largest: nat)
      requires GoodTask(t) && x < t.p.m
      requires forall s: nat :: s in states <==> s < t.p.n && !Excluded(t, s, i)
      ensures |possible| == t.k
      ensures forall d :: 0 <= d < t.k ==> (possible[d] <==> Possible(t, x, i, d))
      ensures forall d :: 0 <= d < t.k && possible[d] ==> smallest <= d <= largest
      ensures largest < t.k || smallest > largest
    {
      possible, smallest, largest := seq(t.k, _ => false), t.k + 1, 0;
      for l := 0 to |states|
        invariant |possible| == t.k
        invariant forall d :: 0 <= d < t.k ==> (possible[d] <==> PossibleFrom(t, x, i, d, states[..l]))
        invariant forall d :: 0 <= d < t.k && possible[d] ==> smallest <= d <= largest
        invariant largest < t.k || (t.k == 0 && smallest > largest)
      {
        var s := states[l];
        assert s in states;
        assert states[..l + 1] == states[..l] + [s];
        var succ := t.p.next[s][x];
        if succ != -1 {
          ghost var before := possible;
          for d := 0 to t.k
            invariant |possible| == t.k
            invariant forall e :: 0 <= e < t.k ==> (possible[e] <==> before[e] || (e < d && !Excluded(t, succ, e)))
            invariant forall e :: 0 <= e < t.k && possible[e] ==> smallest <= e <= largest
            invariant largest < t.k || (t.k == 0 && smallest > largest)
          {
            if !Excluded(t, succ, d) {
              possible := possible[d := true];
              if d < smallest { smallest := d; }
              if d > largest { largest := d; }
            }
          }
        }
        forall d | 0 <= d < t.k ensures possible[d] <==> PossibleFrom(t, x, i, d, states[..l + 1]) {
          PossibleFromSnoc(t, x, i, d, states, l);
        }
      }
      assert states[..|states|] == states;
    }

    /** The auxiliary clause: some class takes the successors; omitted when none could. */
    method EmitAuxOr(possible: seq<bool>, smallest: nat, largest: nat) returns (emitted: bool)
      requires Valid() && curLits == [] && (a, c) in rounds && a < t.p.m
      requires |possible| == t.k && forall d :: 0 <= d < t.k ==> (possible[d] <==> Possible(t, a, c, d))
      requires forall d :: 0 <= d < t.k && possible[d] ==> smallest <= d <= largest
      requires largest < t.k || smallest > largest
      modifies this`curLiteral, this`auxLiteralsMap, this`num, this`clauses, this`curClause, this`kinds, this`curLits
      ensures Valid() && curLits == []
      ensures emitted <==> SomePossible(t, a, c)
      ensures kinds == if emitted then old(kinds) + [AuxOr(a, c)] else old(kinds)
    {
      if smallest <= largest {
        AuxOrLitsSkip(t, a, c, 0, smallest);
      }
      var d := smallest;
      while d <= largest
        invariant Valid() && kinds == old(kinds)
        invariant smallest > largest || d <= largest + 1
        invariant smallest <= d
        invariant smallest <= largest ==> curLits == AuxOrLits(t, a, c, d)
        invariant smallest > largest ==> curLits == []
      {
        if possible[d] {
          AddAuxLit(d, true);
        }
        d := d + 1;
      }
      AuxOrLitsSkip(t, a, c, if smallest <= largest then largest + 1 else 0, t.k);
      AuxOrLitsEmpty(t, a, c, t.k);
      if curClause == [] {
        emitted := false;
      } else {
        AddClause(AuxOr(a, c));
        emitted := true;
      }
    }

    method EmitImply(x: nat, i: nat, s: nat, d: nat)
      requires Valid() && curLits == [] && a == x && c == i && (x, i) in rounds && x < t.p.m && i < t.k && d < t.k
      requires s < t.p.n && t.p.next[s][x] != -1
      modifies this`curLiteral, this`stateClassToLiteral, this`auxLiteralsMap, this`num, this`clauses, this`curClause, this`kinds, this`curLits
      ensures Valid() && curLits == [] && kinds == old(kinds) + [Imply(x, i, s, d)]
    {
      AddAuxLit(d, false);
      AddStateLit(s, i, false);
      AddStateLit(t.p.next[s][x], d, true);
      AddClause(Imply(x, i, s, d));
    }

    method EmitImpliesOf(x: nat, i: nat, s: nat, possible: seq<bool>, smallest: nat, largest: nat)
      requires Valid() && curLits == [] && a == x && c == i && (x, i) in rounds && x < t.p.m && i < t.k
      requires s < t.p.n && t.p.next[s][x] != -1 && !Excluded(t, s, i)
      requires |possible| == t.k && forall d :: 0 <= d < t.k ==> (possible[d] <==> Possible(t, x, i, d))
      requires forall d :: 0 <= d < t.k && possible[d] ==> smallest <= d <= largest
      requires largest < t.k || smallest > largest
      modifies this`curLiteral, this`stateClassToLiteral, this`auxLiteralsMap, this`num, this`clauses, this`curClause, this`kinds, this`curLits
      ensures Valid() && curLits == []
      ensures forall kd :: kd in kinds <==> kd in old(kinds) || (ImplyKind(t, kd, x, i) && kd.s == s)
    {
      assert GoodTask(t);
      hide Valid;
      var d := smallest;
      while d <= largest
        invariant Valid() && curLits == []
        invariant smallest <= d
        invariant forall kd :: kd in kinds <==> kd in old(kinds) || (ImplyKind(t, kd, x, i) && kd.s == s && kd.d < d)
      {
        if possible[d] {
          EmitImply(x, i, s, d);
        }
        d := d + 1;
      }
    }

    /** One closure round. */
    method EmitRound(x: nat, i: nat)
      requires Valid() && curLits == [] && x < t.p.m && i < t.k && (x, i) !in rounds
      modifies this
      ensures Valid() && curLits == [] && rounds == old(rounds) + {(x, i)}
      ensures forall kd :: kd in kinds <==> kd in old(kinds) || RoundKind(t, kd, x, i)
    {
      ClearAux(x, i);
      var states := StatesThatCanBeIn(i);
      var possible, smallest, largest := PossibleSuccClasses(states, x, i);
      var emitted := EmitAuxOr(possible, smallest, largest);
      if !emitted {
        NoImplies(t, x, i);
        return;
      }
      EmitImplies(x, i, states, possible, smallest, largest);
    }

    /** If class `i` takes the states' successors into class `d`, every member's successor is there. */
    method EmitImplies(x: nat, i: nat, states: seq<nat>, possible: seq<bool>, smallest: nat, largest: nat)
      requires Valid() && curLits == [] && a == x && c == i && (x, i) in rounds && x < t.p.m && i < t.k
      requires forall s: nat :: s in states <==> s < t.p.n && !Excluded(t, s, i)
      requires |possible| == t.k && forall d :: 0 <= d < t.k ==> (possible[d] <==> Possible(t, x, i, d))
      requires forall d :: 0 <= d < t.k && possible[d] ==> smallest <= d <= largest
      requires largest < t.k || smallest > largest
      modifies this`curLiteral, this`stateClassToLiteral, this`auxLiteralsMap, this`num, this`clauses, this`curClause, this`kinds, this`curLits
      ensures Valid() && curLits == []
      ensures forall kd :: kd in kinds <==> kd in old(kinds) || ImplyKind(t, kd, x, i)
    {
      assert GoodTask(t);
      hide Valid;
      for l := 0 to |states|
        invariant Valid() && curLits == []
        invariant forall kd :: kd in kinds <==> kd in old(kinds) || (ImplyKind(t, kd, x, i) && kd.s in states[..l])
      {
        var s := states[l];
        assert s in states;
        assert states[..l + 1] == states[..l] + [s];
        if t.p.next[s][x] != -1 {
          EmitImpliesOf(x, i, s, possible, smallest, largest);
        }
      }
      assert states[..|states|] == states;
    }

    method EmitClosure(reduced: set<nat>)
      requires Valid() && curLits == [] && rounds == {} && ReducedAlphabet(t.p, reduced)
      modifies this
      ensures Valid() && curLits == []
      ensures forall kd :: kd in kinds <==> kd in old(kinds) || ClosureKind(t, kd, reduced, t.p.m)
    {
      for x := 0 to t.p.m
        invariant Valid() && curLits == []
        invariant forall r :: r in rounds ==> r.0 < x
        invariant forall kd :: kd in kinds <==> kd in old(kinds) || ClosureKind(t, kd, reduced, x)
      {
        if x in reduced {
          ghost var before := kinds;
          for i := 0 to t.k
            invariant Valid() && curLits == []
            invariant forall r :: r in rounds ==> r.0 < x || (r.0 == x && r.1 < i)
            invariant forall kd :: kd in kinds <==> kd in before || (exists j :: 0 <= j < i && RoundKind(t, kd, x, j))
          {
            EmitRound(x, i);
          }
          ClosureStep(t, reduced, x, before, kinds);
        }
      }
    }

    /** All the clauses of the formula. */
    method EmitAll() returns (reduced: set<nat>)
      requires Valid() && curLits == [] && kinds == [] && rounds == {}
      modifies this
      ensures Valid() && ReducedAlphabet(t.p, reduced)
      ensures forall kd :: kd in kinds <==>
                (kd.Fix? && kd.c < |t.ps|) || (kd.SomeClass? && kd.s < t.p.n) || Forbids(t, kd, |t.ps|) ||
                Excludes(t, kd, t.p.n) || ClosureKind(t, kd, reduced, t.p.m)
    {
      assert GoodTask(t);
      hide Valid, Forbids, Excludes, ClosureKind, ReducedAlphabet;
      EmitFixes();
      ghost var fixes := kinds;
      EmitSomeClass();
      SomeClassKinds(fixes, t.p.n);
      EmitForbids();
      EmitExcludes();
      reduced := ComputeReducedInputAlphabet(t.p);
      EmitClosure(reduced);
    }

    /** `literalToStateClass`: which state and class a literal stands for, (-1, -1) for auxiliary ones. */
    method LiteralMap() returns (litMap: seq<(int, int)>)
      requires Valid()
      ensures IsLiteralMap(t, num, litMap)
    {
      litMap := seq(curLiteral, _ => (-1, -1));
      for s := 0 to t.p.n
        invariant |litMap| == curLiteral
        invariant forall l :: 0 <= l < |litMap| ==> litMap[l] == (-1, -1) || NamesState(t, num, litMap, l)
        invariant forall u, d :: 0 <= u < s && 0 <= d < t.k && X(u, d) in num ==> litMap[num[X(u, d)]] == (u, d)
      {
        for d := 0 to t.k
          invariant |litMap| == curLiteral
          invariant forall l :: 0 <= l < |litMap| ==> litMap[l] == (-1, -1) || NamesState(t, num, litMap, l)
          invariant forall u, e :: 0 <= u < s && 0 <= e < t.k && X(u, e) in num ==> litMap[num[X(u, e)]] == (u, e)
          invariant forall e :: 0 <= e < d && X(s, e) in num ==> litMap[num[X(s, e)]] == (s, e)
        {
          var lit := StateEntry(t, stateClassToLiteral, s, d);
          if lit > -1 {
            litMap := litMap[lit := (s, d)];
          }
        }
      }
    }
  }

  ghost function SomeClasses(n: nat): seq<Kind> {
    seq(n, s requires 0 <= s < n => SomeClass(s))
  }

  lemma SomeClassKinds(before: seq<Kind>, n: nat)
    ensures forall kd :: kd in before + SomeClasses(n) <==> kd in before || (kd.SomeClass? && kd.s < n)
  {
    forall kd ensures kd in SomeClasses(n) <==> kd.SomeClass? && kd.s < n {
      if kd.SomeClass? && kd.s < n {
        assert SomeClasses(n)[kd.s] == kd;
      }
    }
  }

  ghost predicate Forbids(t: Task, kd: Kind, upto: nat)
    requires GoodTask(t)
  {
    kd.Forbid? && kd.c < upto && kd.c < |t.ps| && kd.t < t.p.n && Marked(t.p.inc, t.p.n, t.ps[kd.c], kd.t)
  }

  /** The clauses of one closure round: input `a`, class `c`. */
  ghost predicate RoundKind(t: Task, kd: Kind, a: nat, c: nat)
    requires GoodTask(t) && a < t.p.m
  {
    (kd == AuxOr(a, c) && SomePossible(t, a, c)) || ImplyKind(t, kd, a, c)
  }

  ghost predicate ImplyKind(t: Task, kd: Kind, a: nat, c: nat)
    requires GoodTask(t) && a < t.p.m
  {
    kd.Imply? && kd.a == a && kd.c == c && kd.d < t.k && kd.s < t.p.n &&
    !Excluded(t, kd.s, c) && t.p.next[kd.s][a] != -1 && Possible(t, a, c, kd.d)
  }

  ghost predicate Excludes(t: Task, kd: Kind, upto: nat)
    requires GoodTask(t)
  {
    kd.Exclude? && kd.s < upto && kd.s < kd.t < t.p.n && kd.c < t.k && !Excluded(t, kd.s, kd.c) &&
    Marked(t.p.inc, t.p.n, kd.s, kd.t)
  }

  lemma FreshGrows(num: Numbers, next: nat, v: AVar)
    requires FreshAbove(num, next) && v !in num
    ensures FreshAbove(num[v := next], next + 1)
  {
    var num2 := num[v := next];
    forall l | 0 < l < next + 1 ensures NumberUsed(num2, l) {
      if l < next {
        assert NumberUsed(num, l);
        var u :| u in num && num[u] == l;
        assert u in num2 && num2[u] == l;
      } else {
        assert v in num2 && num2[v] == l;
      }
    }
  }

  lemma StateTableGrows(t: Task, stateLits: seq<int>, auxLits: seq<int>, num: Numbers, a: nat, c: nat, s: nat, d: nat, l: nat)
    requires GoodTask(t) && TablesAgree(t, stateLits, auxLits, num, a, c)
    requires s < t.p.n && d < t.k && Ai(s, d, t.k) < |stateLits|
    ensures TablesAgree(t, stateLits[Ai(s, d, t.k) := l], auxLits, num[X(s, d) := l], a, c)
  {
    var stateLits2, num2 := stateLits[Ai(s, d, t.k) := l], num[X(s, d) := l];
    forall s2, d2 | 0 <= s2 < t.p.n && 0 <= d2 < t.k
      ensures StateEntry(t, stateLits2, s2, d2) == NumberOf(num2, X(s2, d2))
    {
      EntryInRange(s2, d2, t.p.n, t.k);
      assert StateEntry(t, stateLits, s2, d2) == NumberOf(num, X(s2, d2));
      if Ai(s2, d2, t.k) == Ai(s, d, t.k) {
        AiInjective(s2, d2, s, d, t.k);
      }
    }
  }

  lemma AuxTableGrows(t: Task, stateLits: seq<int>, auxLits: seq<int>, num: Numbers, a: nat, c: nat, d: nat, l: nat)
    requires GoodTask(t) && TablesAgree(t, stateLits, auxLits, num, a, c) && d < t.k
    ensures TablesAgree(t, stateLits, auxLits[d := l], num[Y(a, c, d) := l], a, c)
  {
    forall s, e | 0 <= s < t.p.n && 0 <= e < t.k
      ensures StateEntry(t, stateLits, s, e) == NumberOf(num[Y(a, c, d) := l], X(s, e))
    {
      assert StateEntry(t, stateLits, s, e) == NumberOf(num, X(s, e));
    }
  }

  ghost predicate NamesState(t: Task, num: Numbers, litMap: seq<(int, int)>, l: nat)
    requires l < |litMap|
  {
    0 <= litMap[l].0 < t.p.n && 0 <= litMap[l].1 < t.k && X(litMap[l].0, litMap[l].1) in num && num[X(litMap[l].0, litMap[l].1)] == l
  }

  ghost predicate IsLiteralMap(t: Task, num: Numbers, litMap: seq<(int, int)>) {
    && |litMap| > 0
    && (forall v :: v in num ==> num[v] < |litMap|)
    && (forall l :: 0 <= l < |litMap| ==> litMap[l] == (-1, -1) || NamesState(t, num, litMap, l))
    && (forall s, d :: 0 <= s < t.p.n && 0 <= d < t.k && X(s, d) in num ==> litMap[num[X(s, d)]] == (s, d))
  }

  ghost predicate ClosureKind(t: Task, kd: Kind, reduced: set<nat>, upto: nat)
    requires GoodTask(t) && upto <= t.p.m
  {
    exists a, c :: a in reduced && a < upto && 0 <= c < t.k && RoundKind(t, kd, a, c)
  }

  lemma ClosureStep(t: Task, reduced: set<nat>, x: nat, before: seq<Kind>, after: seq<Kind>)
    requires GoodTask(t) && x < t.p.m && x in reduced
    requires forall kd :: kd in after <==> kd in before || (exists j :: 0 <= j < t.k && RoundKind(t, kd, x, j))
    ensures forall kd :: kd in after || ClosureKind(t, kd, reduced, x) <==> kd in before || ClosureKind(t, kd, reduced, x + 1)
  {}

  /** Some listed state has a successor on `a` that may be in class `d`. */
  ghost predicate PossibleFrom(t: Task, a: nat, c: nat, d: nat, states: seq<nat>)
    requires GoodTask(t) && a < t.p.m
  {
    exists s :: s in states && s < t.p.n && PossibleVia(t, a, c, d, s)
  }

  lemma PossibleFromSnoc(t: Task, a: nat, c: nat, d: nat, states: seq<nat>, l: nat)
    requires GoodTask(t) && a < t.p.m && l < |states| && states[l] < t.p.n
    ensures PossibleFrom(t, a, c, d, states[..l + 1]) <==>
            PossibleFrom(t, a, c, d, states[..l]) || PossibleVia(t, a, c, d, states[l])
  {
    assert states[..l + 1] == states[..l] + [states[l]];
  }

  lemma {:induction false} AuxOrLitsSkip(t: Task, a: nat, c: nat, lo: nat, k: nat)
    requires GoodTask(t) && a < t.p.m && lo <= k
    requires forall d :: lo <= d < k ==> !Possible(t, a, c, d)
    ensures AuxOrLits(t, a, c, k) == AuxOrLits(t, a, c, lo)
    decreases k
  {
    if lo < k {
      AuxOrLitsSkip(t, a, c, lo, k - 1);
    }
  }

  lemma {:induction false} AuxOrLitsEmpty(t: Task, a: nat, c: nat, k: nat)
    requires GoodTask(t) && a < t.p.m
    ensures AuxOrLits(t, a, c, k) == [] <==> forall d :: 0 <= d < k ==> !Possible(t, a, c, d)
  {
    if k > 0 {
      AuxOrLitsEmpty(t, a, c, k - 1);
    }
  }

  lemma NoImplies(t: Task, a: nat, c: nat)
    requires GoodTask(t) && a < t.p.m && !SomePossible(t, a, c)
    ensures forall kd :: !RoundKind(t, kd, a, c)
  {}

  /** buildCNF: the formula for task `t`, with the numbering that decodes its models. */
  method BuildCNF(t: Task)
      returns (clauses: Formula, literalToStateClass: seq<(int, int)>, ghost reduced: set<nat>, ghost kinds: seq<Kind>, ghost num: Numbers)
    requires GoodTask(t)
    ensures ReducedAlphabet(t.p, reduced) && IsEncoding(t, reduced, kinds, clauses, num)
    ensures IsLiteralMap(t, num, literalToStateClass)
  {
    var w := new Writer(t);
    var alphabet := w.EmitAll();
    literalToStateClass := w.LiteralMap();
    clauses, reduced, kinds, num := w.clauses, alphabet, w.kinds, w.num;
    forall kd ensures kd in kinds <==> Required(t, reduced, kd) {
      AllKinds(t, kd, reduced);
    }
  }

  lemma AllKinds(t: Task, kd: Kind, reduced: set<nat>)
    requires GoodTask(t) && ReducedAlphabet(t.p, reduced)
    ensures Required(t, reduced, kd) <==>
            (kd.Fix? && kd.c < |t.ps|) || (kd.SomeClass? && kd.s < t.p.n) || Forbids(t, kd, |t.ps|) ||
            Excludes(t, kd, t.p.n) || ClosureKind(t, kd, reduced, t.p.m)
  {
    match kd
    case AuxOr(a, c) =>
      if Required(t, reduced, kd) {
        assert RoundKind(t, kd, a, c);
      }
    case Imply(a, c, s, d) =>
      if Required(t, reduced, kd) {
        assert RoundKind(t, kd, a, c);
      }
    case _ =>
  }
}
