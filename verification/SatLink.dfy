/** The solver answers formulas over signed variable numbers correctly: what MeMin relies on
    (memin/DIMACSWriter.cpp and memin/minimizer.cpp add clauses and call solve). */
module SatLink {
  import Cnf
  import opened SatState
  import opened SatDb
  import opened SatSearch
  import SatSolver
  import SatWhole

  /** Variable v of the formula is variable v - 1 of the solver. */
  function ToLiteral(l: int): Lit {
    Lit(if l == 0 then 0 else Cnf.Abs(l) - 1, l < 0)
  }

  function ToLiterals(c: Cnf.Clause): seq<Lit> {
    seq(|c|, i requires 0 <= i < |c| => ToLiteral(c[i]))
  }

  lemma {:induction false} ClauseVarsCover(c: Cnf.Clause, j: nat)
    requires j < |c|
    ensures Cnf.Abs(c[j]) <= Cnf.ClauseVars(c)
  {
    if j < |c| - 1 {
      ClauseVarsCover(c[..|c| - 1], j);
    }
  }

  ghost predicate Translates(f: Cnf.Formula, g: seq<seq<Lit>>) {
    |f| == |g| && forall i :: 0 <= i < |f| ==> g[i] == ToLiterals(f[i])
  }

  lemma SameLiteral(l: int, m: seq<bool>, m2: seq<bool>)
    requires l != 0 && m <= m2
    ensures Cnf.LitTrue(l, m) ==> LitHolds(m2, ToLiteral(l))
    ensures m == m2 && LitHolds(m2, ToLiteral(l)) ==> Cnf.LitTrue(l, m)
  {}

  /** A model of the formula, extended arbitrarily, is a model of the solver's clauses. */
  lemma ModelsFromSat(f: Cnf.Formula, g: seq<seq<Lit>>, m: seq<bool>, m2: seq<bool>, n: nat)
    requires Translates(f, g) && Cnf.Proper(f) && Cnf.Satisfies(m, f) && m <= m2 && n <= |m2|
    ensures Models(m2, n, g)
  {
    forall i | 0 <= i < |g| ensures Holds(m2, g[i]) {
      assert Cnf.ClauseTrue(f[i], m);
      var j :| 0 <= j < |f[i]| && Cnf.LitTrue(f[i][j], m);
      SameLiteral(f[i][j], m, m2);
      assert LitHolds(m2, g[i][j]);
    }
  }

  lemma SatFromModels(f: Cnf.Formula, g: seq<seq<Lit>>, m: seq<bool>, n: nat)
    requires Translates(f, g) && Cnf.Proper(f) && Models(m, n, g)
    ensures Cnf.Satisfies(m, f)
  {
    forall i | 0 <= i < |f| ensures Cnf.ClauseTrue(f[i], m) {
      assert Holds(m, g[i]);
      var j :| 0 <= j < |g[i]| && LitHolds(m, g[i][j]);
      SameLiteral(f[i][j], m, m);
    }
  }

  /** No model of the clauses: no model of the formula, whatever its length. */
  lemma UnsatFromNone(f: Cnf.Formula, g: seq<seq<Lit>>, n: nat)
    requires Translates(f, g) && Cnf.Proper(f) && forall m :: !Models(m, n, g)
    ensures Cnf.Correct(f, Cnf.Unsatisfiable)
  {
    forall m ensures !Cnf.Satisfies(m, f) {
      if Cnf.Satisfies(m, f) {
        ModelsFromSat(f, g, m, m + seq(n, _ => false), n);
      }
    }
  }

  /** Nothing but variables and clauses has been added, those of `f` and `c`, and there is no limit. */
  ghost predicate Filled(s: SatSolver.Solver, f: Cnf.Formula, c: Cnf.Clause)
    reads s, s.orderHeap
  {
    s.Valid() && s.conflictBudget < 0 && !s.interrupted && s.AllDecision() && Translates(f, s.formula) && |s.assigns| == Cnf.Max(Cnf.NumVars(f), Cnf.ClauseVars(c))
  }

  /** addLitToCurrentClause: variables up to that of the literal are created on first use. */
  method AddLiteral(s: SatSolver.Solver, ghost f: Cnf.Formula, ghost c: Cnf.Clause, l: int)
    requires Filled(s, f, c) && l != 0
    modifies s, s.orderHeap
    ensures Filled(s, f, c + [l])
  {
    hide SatWhole.Whole, SatWhole.Contradictory, Translates;
    var v := Cnf.Abs(l) - 1;
    ghost var n := |s.assigns|;
    while v >= |s.assigns|
      invariant s.Valid() && s.AllDecision() && s.formula == old(s.formula)
      invariant s.conflictBudget < 0 && !s.interrupted
      invariant |s.assigns| == n || n < |s.assigns| <= v + 1
      decreases v - |s.assigns|
    {
      var u := s.NewVar(true, true);
    }
    assert (c + [l])[..|c|] == c;
  }

  /** One clause: its literals, then addClause. */
  method AddOne(s: SatSolver.Solver, ghost f: Cnf.Formula, c: Cnf.Clause)
    requires Filled(s, f, []) && forall j :: 0 <= j < |c| ==> c[j] != 0
    modifies s, s.orderHeap
    ensures Filled(s, f + [c], [])
  {
    hide SatWhole.Whole, SatWhole.Contradictory, Translates;
    assert c[..0] == [];
    for j := 0 to |c|
      invariant Filled(s, f, c[..j])
    {
      AddLiteral(s, f, c[..j], c[j]);
      assert c[..j + 1] == c[..j] + [c[j]];
    }
    assert c[..|c|] == c && (f + [c])[..|f|] == f;
    ClauseFits(c);
    TranslatesOneMore(f, s.formula, c);
    var added := s.AddClause(ToLiterals(c));
  }

  lemma TranslatesOneMore(f: Cnf.Formula, g: seq<seq<Lit>>, c: Cnf.Clause)
    requires Translates(f, g)
    ensures Translates(f + [c], g + [ToLiterals(c)])
  {}

  method AddAll(s: SatSolver.Solver, f: Cnf.Formula)
    requires Filled(s, [], []) && Cnf.Proper(f)
    modifies s, s.orderHeap
    ensures Filled(s, f, [])
  {
    hide Filled;
    assert f[..0] == [];
    for i := 0 to |f|
      invariant Filled(s, f[..i], [])
    {
      AddOne(s, f[..i], f[i]);
      assert f[..i + 1] == f[..i] + [f[i]];
    }
    assert f[..|f|] == f;
  }

  lemma ClauseFits(c: Cnf.Clause)
    requires forall j :: 0 <= j < |c| ==> c[j] != 0
    ensures VarsBelow(ToLiterals(c), Cnf.ClauseVars(c))
  {
    forall k | 0 <= k < |c| ensures ToLiterals(c)[k].v < Cnf.ClauseVars(c) {
      ClauseVarsCover(c, k);
    }
  }

  /** What the solver's answer says about the formula. */
  lemma AnswerRight(f: Cnf.Formula, g: seq<seq<Lit>>, m: seq<bool>)
    requires Translates(f, g) && Cnf.Proper(f) && Models(m, Cnf.NumVars(f), g) && |m| == Cnf.NumVars(f)
    ensures Cnf.Correct(f, Cnf.Satisfiable(m))
  {
    SatFromModels(f, g, m, Cnf.NumVars(f));
  }

  lemma ContradictoryIs(x: SatWhole.Snapshot, n: nat)
    requires SatWhole.Contradictory(x) && n == |x.s.a.assigns|
    ensures forall m :: !Models(m, n, x.formula)
  {
    assert SatWhole.NumVars(x) == n;
  }

  /** A fresh solver is given every clause and solves: it answers, and the answer is right for the formula. */
  method SolveFormula(f: Cnf.Formula, config: SatSolver.Config) returns (answer: Cnf.Answer)
    requires Cnf.Proper(f)
    ensures Cnf.Correct(f, answer)
  {
    hide Models, Cnf.Correct, Translates, Cnf.Proper, SatWhole.Whole, SatWhole.Contradictory, NoneFalse;
    var s := new SatSolver.Solver(config);
    NothingAdded(s.formula);
    AddAll(s, f);
    var status := s.Solve();
    if status == LTrue {
      AnswerRight(f, s.formula, BoolModel(s.model));
      answer := Cnf.Satisfiable(BoolModel(s.model));
    } else {
      ContradictoryIs(s.Snap(), Cnf.NumVars(f));
      UnsatFromNone(f, s.formula, Cnf.NumVars(f));
      answer := Cnf.Unsatisfiable;
    }
  }

  lemma NothingAdded(g: seq<seq<Lit>>)
    requires g == []
    ensures Translates([], g) && Cnf.NumVars([]) == 0 && Cnf.ClauseVars([]) == 0
  {}
}
