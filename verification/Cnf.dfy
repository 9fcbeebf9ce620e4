/** Formulas in conjunctive normal form over signed variable numbers, and what a SAT solver owes. */
module Cnf {

  type Clause = seq<int>
  type Formula = seq<Clause>

  function Abs(l: int): nat {
    if l < 0 then -l else l
  }

  /** `model[v - 1]` is the value of variable `v`. */
  predicate LitTrue(l: int, model: seq<bool>) {
    l != 0 && Abs(l) <= |model| && model[Abs(l) - 1] == (l > 0)
  }

  ghost predicate ClauseTrue(c: Clause, model: seq<bool>) {
    exists i :: 0 <= i < |c| && LitTrue(c[i], model)
  }

  ghost predicate Satisfies(model: seq<bool>, f: Formula) {
    forall i :: 0 <= i < |f| ==> ClauseTrue(f[i], model)
  }

  /** 0 is not a literal; in DIMACS it ends a clause. */
  predicate Proper(f: Formula) {
    forall i, j :: 0 <= i < |f| && 0 <= j < |f[i]| ==> f[i][j] != 0
  }

  datatype Answer = Satisfiable(model: seq<bool>) | Unsatisfiable

  /** The number of variables a formula mentions, counting from 1. */
  function NumVars(f: Formula): nat {
    if f == [] then 0 else Max(NumVars(f[..|f| - 1]), ClauseVars(f[|f| - 1]))
  }

  function ClauseVars(c: Clause): nat {
    if c == [] then 0 else Max(ClauseVars(c[..|c| - 1]), Abs(c[|c| - 1]))
  }

  function Max(a: nat, b: nat): nat {
    if a < b then b else a
  }

  lemma {:induction false} ClauseVarsBound(c: Clause, n: nat)
    requires forall i :: 0 <= i < |c| ==> Abs(c[i]) <= n
    ensures ClauseVars(c) <= n
  {
    if c != [] {
      ClauseVarsBound(c[..|c| - 1], n);
    }
  }

  lemma {:induction false} NumVarsBound(f: Formula, n: nat)
    requires forall i, j :: 0 <= i < |f| && 0 <= j < |f[i]| ==> Abs(f[i][j]) <= n
    ensures NumVars(f) <= n
  {
    if f != [] {
      NumVarsBound(f[..|f| - 1], n);
      ClauseVarsBound(f[|f| - 1], n);
    }
  }

  /** The answer is right for the formula. */
  ghost predicate Correct(f: Formula, ans: Answer) {
    match ans
    case Satisfiable(model) => |model| == NumVars(f) && Satisfies(model, f)
    case Unsatisfiable => forall model :: !Satisfies(model, f)
  }
}
