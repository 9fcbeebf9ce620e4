/** memin/DIMACSWriter.cpp: the formula that is satisfiable exactly when a closed cover with
    a given number of classes exists. */
module Dimacs {
  import opened Incompat
  import opened Cover
  import opened Cnf

  // ----- inputs with equal columns are encoded once -----

  function Column(p: Problem, a: nat): seq<int>
    requires |p.next| == p.n && a < p.m && forall s :: 0 <= s < p.n ==> |p.next[s]| == p.m
  {
    seq(p.n, s requires 0 <= s < p.n => p.next[s][a])
  }

  /** The 32-bit polynomial hash of a column; only equality of columns decides. */
  function Hash(column: seq<int>): int {
    if column == [] then 0
    else (31 * Hash(column[..|column| - 1]) + (if column[|column| - 1] == -1 then 0 else column[|column| - 1])) % 0x1_0000_0000
  }

  /** Some reduced input has this column. */
  ghost predicate Represented(p: Problem, reduced: set<nat>, column: seq<int>)
    requires GoodProblem(p)
  {
    exists r :: r in reduced && r < p.m && Column(p, r) == column
  }

  /** Each input has the column of exactly one reduced input. */
  ghost predicate ReducedAlphabet(p: Problem, reduced: set<nat>)
    requires GoodProblem(p)
  {
    && (forall r :: r in reduced ==> r < p.m)
    && (forall a :: 0 <= a < p.m ==> Represented(p, reduced, Column(p, a)))
    && (forall r, q :: r in reduced && q in reduced && r < p.m && q < p.m && Column(p, r) == Column(p, q) ==> r == q)
  }

  type Buckets = map<int, seq<seq<int>>>

  predicate Stored(hashmap: Buckets, column: seq<int>) {
    Hash(column) in hashmap && column in hashmap[Hash(column)]
  }

  /** The hash map holds exactly the columns of the inputs kept so far. */
  ghost predicate Reducing(p: Problem, reduced: set<nat>, hashmap: Buckets, upto: nat)
    requires GoodProblem(p)
  {
    && (forall r :: r in reduced ==> r < upto)
    && (forall a :: 0 <= a < upto && a < p.m ==> Represented(p, reduced, Column(p, a)))
    && (forall r, q :: r in reduced && q in reduced && r < p.m && q < p.m && Column(p, r) == Column(p, q) ==> r == q)
    && (forall column :: Stored(hashmap, column) <==> Represented(p, reduced, column))
  }

  lemma KeepInput(p: Problem, reduced: set<nat>, hashmap: Buckets, input: nat)
    requires GoodProblem(p) && input < p.m && Reducing(p, reduced, hashmap, input)
    requires !Stored(hashmap, Column(p, input))
    ensures Reducing(p, reduced + {input}, Store(hashmap, Column(p, input)), input + 1)
  {
    var reduced2, column := reduced + {input}, Column(p, input);
    forall c ensures Represented(p, reduced2, c) <==> Represented(p, reduced, c) || c == column {
      if Represented(p, reduced, c) {
        var r :| r in reduced && r < p.m && Column(p, r) == c;
        assert r in reduced2;
      }
      if c == column {
        assert input in reduced2;
      }
    }
    forall r | r in reduced && r < p.m ensures Column(p, r) != column {
      if Column(p, r) == column {
        assert Represented(p, reduced, column);
      }
    }
  }

  function Store(hashmap: Buckets, column: seq<int>): (r: Buckets)
    ensures forall c :: Stored(r, c) <==> Stored(hashmap, c) || c == column
  {
    var hash := Hash(column);
    hashmap[hash := (if hash in hashmap then hashmap[hash] else []) + [column]]
  }

  lemma ReducingBegins(p: Problem)
    requires GoodProblem(p)
    ensures Reducing(p, {}, map[], 0)
  {}

  lemma SkipInput(p: Problem, reduced: set<nat>, hashmap: Buckets, input: nat)
    requires GoodProblem(p) && input < p.m && Reducing(p, reduced, hashmap, input) && Stored(hashmap, Column(p, input))
    ensures Reducing(p, reduced, hashmap, input + 1)
  {}

  method ComputeReducedInputAlphabet(p: Problem) returns (reduced: set<nat>)
    requires GoodProblem(p)
    ensures ReducedAlphabet(p, reduced)
  {
    hide Reducing, ReducedAlphabet, GoodProblem;
    ReducingBegins(p);
    reduced := {};
    var hashmap: Buckets := map[];
    for input := 0 to p.m
      invariant Reducing(p, reduced, hashmap, input)
    {
      var nextStatesList, hash := ReadColumn(p, input);
      if hash in hashmap && nextStatesList in hashmap[hash] {
        assert Stored(hashmap, nextStatesList);
        SkipInput(p, reduced, hashmap, input);
      } else {
        KeepInput(p, reduced, hashmap, input);
        hashmap := Store(hashmap, nextStatesList);
        reduced := reduced + {input};
      }
    }
    ReducingDone(p, reduced, hashmap);
  }

  lemma ReducingDone(p: Problem, reduced: set<nat>, hashmap: Buckets)
    requires GoodProblem(p) && Reducing(p, reduced, hashmap, p.m)
    ensures ReducedAlphabet(p, reduced)
  {
    assert forall r :: r in reduced ==> r < p.m;
    assert forall a :: 0 <= a < p.m ==> Represented(p, reduced, Column(p, a));
    assert forall r, q :: r in reduced && q in reduced && r < p.m && q < p.m && Column(p, r) == Column(p, q) ==> r == q;
  }

  method ReadColumn(p: Problem, input: nat) returns (column: seq<int>, hash: int)
    requires GoodProblem(p) && input < p.m
    ensures column == Column(p, input) && hash == Hash(column)
  {
    column, hash := [], 0;
    for i := 0 to p.n
      invariant column == Column(p, input)[..i] && hash == Hash(column)
    {
      var succ := p.next[i][input];
      ghost var prefix := column;
      assert Column(p, input)[..i + 1] == Column(p, input)[..i] + [succ];
      column := column + [succ];
      assert column[..|column| - 1] == prefix;
      hash := (31 * hash + if succ == -1 then 0 else succ) % 0x1_0000_0000;
    }
  }

  // ----- the clauses, over named variables -----

  /** "State s is in class c" and "class d takes the successors of class c on input a". */
  datatype AVar = X(s: nat, c: nat) | Y(a: nat, cc: nat, d: nat)

  datatype ALit = ALit(v: AVar, pos: bool)

  /** One constructor per clause that buildCNF emits. */
  datatype Kind =
    | Fix(c: nat)
    | SomeClass(s: nat)
    | Forbid(c: nat, t: nat)
    | Exclude(s: nat, t: nat, c: nat)
    | AuxOr(a: nat, c: nat)
    | Imply(a: nat, c: nat, s: nat, d: nat)

  /** Encode problem `p` for `k` classes, with clique state `ps[i]` fixed in class `i`. */
  datatype Task = Task(p: Problem, ps: seq<nat>, k: nat)

  ghost predicate GoodTask(t: Task) {
    GoodProblem(t.p) && Clique(t.p, t.ps) && |t.ps| <= t.k
  }

  predicate Excluded(t: Task, s: nat, c: nat)
    requires |t.p.inc| == Cells(t.p.n, t.p.n) && s < t.p.n && forall i :: 0 <= i < |t.ps| ==> t.ps[i] < t.p.n
  {
    c < |t.ps| && Marked(t.p.inc, t.p.n, s, t.ps[c])
  }

  /** Some state that may be in class `c` has a successor on `a` that may be in class `d`. */
  ghost predicate Possible(t: Task, a: nat, c: nat, d: nat)
    requires GoodTask(t) && a < t.p.m
  {
    exists s :: 0 <= s < t.p.n && PossibleVia(t, a, c, d, s)
  }

  ghost predicate PossibleVia(t: Task, a: nat, c: nat, d: nat, s: nat)
    requires GoodTask(t) && a < t.p.m && s < t.p.n
  {
    !Excluded(t, s, c) && t.p.next[s][a] != -1 && !Excluded(t, t.p.next[s][a], d)
  }

  ghost predicate SomePossible(t: Task, a: nat, c: nat)
    requires GoodTask(t) && a < t.p.m
  {
    exists d :: 0 <= d < t.k && Possible(t, a, c, d)
  }

  /** The clauses required for the reduced alphabet. */
  ghost predicate Required(t: Task, reduced: set<nat>, kd: Kind)
    requires GoodTask(t) && forall r :: r in reduced ==> r < t.p.m
  {
    match kd
    case Fix(c) => c < |t.ps|
    case SomeClass(s) => s < t.p.n
    case Forbid(c, u) => c < |t.ps| && u < t.p.n && Marked(t.p.inc, t.p.n, t.ps[c], u)
    case Exclude(s, u, c) => s < u < t.p.n && c < t.k && !Excluded(t, s, c) && Marked(t.p.inc, t.p.n, s, u)
    case AuxOr(a, c) => a in reduced && c < t.k && SomePossible(t, a, c)
    case Imply(a, c, s, d) =>
      a in reduced && c < t.k && d < t.k && s < t.p.n && !Excluded(t, s, c) && t.p.next[s][a] != -1 && Possible(t, a, c, d)
  }

  ghost function SomeClassLits(t: Task, s: nat, upto: nat): seq<ALit>
    requires GoodTask(t) && s < t.p.n
  {
    if upto == 0 then []
    else SomeClassLits(t, s, upto - 1) + if Excluded(t, s, upto - 1) then [] else [ALit(X(s, upto - 1), true)]
  }

  ghost function AuxOrLits(t: Task, a: nat, c: nat, upto: nat): seq<ALit>
    requires GoodTask(t) && a < t.p.m
  {
    if upto == 0 then []
    else AuxOrLits(t, a, c, upto - 1) + if Possible(t, a, c, upto - 1) then [ALit(Y(a, c, upto - 1), true)] else []
  }

  /** The literals of each clause, in the order they are added. */
  ghost function Lits(t: Task, kd: Kind): seq<ALit>
    requires GoodTask(t)
  {
    match kd
    case Fix(c) => if c < |t.ps| then [ALit(X(t.ps[c], c), true)] else []
    case SomeClass(s) => if s < t.p.n then SomeClassLits(t, s, t.k) else []
    case Forbid(c, u) => [ALit(X(u, c), false)]
    case Exclude(s, u, c) => [ALit(X(s, c), false), ALit(X(u, c), false)]
    case AuxOr(a, c) => if a < t.p.m then AuxOrLits(t, a, c, t.k) else []
    case Imply(a, c, s, d) =>
      if s < t.p.n && a < t.p.m && t.p.next[s][a] != -1 then
        [ALit(Y(a, c, d), false), ALit(X(s, c), false), ALit(X(t.p.next[s][a], d), true)]
      else []
  }

  lemma {:induction false} SomeClassLitsMembers(t: Task, s: nat, upto: nat, l: ALit)
    requires GoodTask(t) && s < t.p.n
    ensures l in SomeClassLits(t, s, upto) <==> l.pos && l.v.X? && l.v.s == s && l.v.c < upto && !Excluded(t, s, l.v.c)
  {
    if upto > 0 {
      SomeClassLitsMembers(t, s, upto - 1, l);
    }
  }

  lemma {:induction false} AuxOrLitsMembers(t: Task, a: nat, c: nat, upto: nat, l: ALit)
    requires GoodTask(t) && a < t.p.m
    ensures l in AuxOrLits(t, a, c, upto) <==>
            l.pos && l.v.Y? && l.v.a == a && l.v.cc == c && l.v.d < upto && Possible(t, a, c, l.v.d)
  {
    if upto > 0 {
      AuxOrLitsMembers(t, a, c, upto - 1, l);
    }
  }

  // ----- numbering -----

  type Numbers = map<AVar, nat>

  ghost predicate AllNumbered(ls: seq<ALit>, num: Numbers) {
    forall i :: 0 <= i < |ls| ==> ls[i].v in num
  }

  ghost function Enc(l: ALit, num: Numbers): int
    requires l.v in num
  {
    if l.pos then num[l.v] as int else -(num[l.v] as int)
  }

  ghost function EncAll(ls: seq<ALit>, num: Numbers): seq<int>
    requires AllNumbered(ls, num)
  {
    seq(|ls|, i requires 0 <= i < |ls| => Enc(ls[i], num))
  }

  /** Distinct variables have distinct positive numbers. */
  ghost predicate GoodNumbers(num: Numbers) {
    && (forall v :: v in num ==> num[v] > 0)
    && (forall v, u :: v in num && u in num && num[v] == num[u] ==> v == u)
  }

  ghost predicate Encoded(t: Task, kinds: seq<Kind>, clauses: Formula, num: Numbers)
    requires GoodTask(t)
  {
    && |kinds| == |clauses|
    && forall i :: 0 <= i < |kinds| ==> AllNumbered(Lits(t, kinds[i]), num) && clauses[i] == EncAll(Lits(t, kinds[i]), num)
  }

  /** The formula consists of exactly the required clauses. */
  ghost predicate IsEncoding(t: Task, reduced: set<nat>, kinds: seq<Kind>, clauses: Formula, num: Numbers)
    requires GoodTask(t) && ReducedAlphabet(t.p, reduced)
  {
    && GoodNumbers(num)
    && Encoded(t, kinds, clauses, num)
    && (forall kd :: kd in kinds <==> Required(t, reduced, kd))
  }

  /** Literals are numbered from 1, so the formula is one the solver accepts. */
  lemma EncodingProper(t: Task, kinds: seq<Kind>, clauses: Formula, num: Numbers)
    requires GoodTask(t) && GoodNumbers(num) && Encoded(t, kinds, clauses, num)
    ensures Proper(clauses)
  {
    forall i, j | 0 <= i < |clauses| && 0 <= j < |clauses[i]| ensures clauses[i][j] != 0 {
      assert clauses[i] == EncAll(Lits(t, kinds[i]), num);
    }
  }

  // ----- a satisfying assignment is a closed cover -----

  ghost predicate VarTrue(v: AVar, num: Numbers, model: seq<bool>) {
    v in num && LitTrue(num[v], model)
  }

  /** The classes that a model describes. */
  ghost function Classes(t: Task, num: Numbers, model: seq<bool>): (cls: seq<set<nat>>)
    ensures |cls| == t.k
  {
    seq(t.k, c requires 0 <= c < t.k => set s: nat | 0 <= s < t.p.n && VarTrue(X(s, c), num, model))
  }

  lemma ClassesMembers(t: Task, num: Numbers, model: seq<bool>, c: nat, s: nat)
    requires c < t.k
    ensures s in Classes(t, num, model)[c] <==> s < t.p.n && VarTrue(X(s, c), num, model)
  {}

  lemma TrueLiteral(ls: seq<ALit>, num: Numbers, model: seq<bool>) returns (l: ALit)
    requires AllNumbered(ls, num) && GoodNumbers(num) && ClauseTrue(EncAll(ls, num), model)
    ensures l in ls && l.v in num && LitTrue(Enc(l, num), model)
    ensures VarTrue(l.v, num, model) <==> l.pos
  {
    var j :| 0 <= j < |ls| && LitTrue(EncAll(ls, num)[j], model);
    l := ls[j];
  }

  lemma RequiredTrue(t: Task, reduced: set<nat>, kinds: seq<Kind>, clauses: Formula, num: Numbers, model: seq<bool>, kd: Kind)
      returns (l: ALit)
    requires GoodTask(t) && ReducedAlphabet(t.p, reduced) && IsEncoding(t, reduced, kinds, clauses, num)
    requires Satisfies(model, clauses) && Required(t, reduced, kd)
    ensures l in Lits(t, kd) && l.v in num && LitTrue(Enc(l, num), model)
    ensures VarTrue(l.v, num, model) <==> l.pos
  {
    hide ReducedAlphabet, SomePossible, Possible, Lits;
    assert kd in kinds;
    var i :| 0 <= i < |kinds| && kinds[i] == kd;
    assert ClauseTrue(clauses[i], model);
    l := TrueLiteral(Lits(t, kd), num, model);
  }

  /** In a model every state has a class. */
  lemma ModelCovers(t: Task, reduced: set<nat>, kinds: seq<Kind>, clauses: Formula, num: Numbers, model: seq<bool>, s: nat)
      returns (c: nat)
    requires GoodTask(t) && ReducedAlphabet(t.p, reduced) && IsEncoding(t, reduced, kinds, clauses, num)
    requires Satisfies(model, clauses) && s < t.p.n
    ensures c < t.k && VarTrue(X(s, c), num, model)
  {
    var l := RequiredTrue(t, reduced, kinds, clauses, num, model, SomeClass(s));
    SomeClassLitsMembers(t, s, t.k, l);
    c := l.v.c;
  }

  /** In a model no state sits in a class whose clique state it contradicts. */
  lemma ModelRespectsClique(t: Task, reduced: set<nat>, kinds: seq<Kind>, clauses: Formula, num: Numbers, model: seq<bool>, s: nat, c: nat)
    requires GoodTask(t) && ReducedAlphabet(t.p, reduced) && IsEncoding(t, reduced, kinds, clauses, num)
    requires Satisfies(model, clauses) && s < t.p.n && VarTrue(X(s, c), num, model)
    ensures !Excluded(t, s, c)
  {
    if Excluded(t, s, c) {
      var l := RequiredTrue(t, reduced, kinds, clauses, num, model, Forbid(c, s));
    }
  }

  lemma ModelCompatible(t: Task, reduced: set<nat>, kinds: seq<Kind>, clauses: Formula, num: Numbers, model: seq<bool>, s: nat, u: nat, c: nat)
    requires GoodTask(t) && ReducedAlphabet(t.p, reduced) && IsEncoding(t, reduced, kinds, clauses, num)
    requires Satisfies(model, clauses) && s < u < t.p.n && c < t.k
    requires VarTrue(X(s, c), num, model) && VarTrue(X(u, c), num, model)
    ensures !Marked(t.p.inc, t.p.n, s, u)
  {
    if Marked(t.p.inc, t.p.n, s, u) {
      ModelRespectsClique(t, reduced, kinds, clauses, num, model, s, c);
      var l := RequiredTrue(t, reduced, kinds, clauses, num, model, Exclude(s, u, c));
    }
  }

  /** In a model the successors of a class on a reduced input share a class. */
  lemma ModelCloses(t: Task, reduced: set<nat>, kinds: seq<Kind>, clauses: Formula, num: Numbers, model: seq<bool>, r: nat, c: nat, s: nat)
      returns (d: nat)
    requires GoodTask(t) && ReducedAlphabet(t.p, reduced) && IsEncoding(t, reduced, kinds, clauses, num)
    requires Satisfies(model, clauses) && r in reduced && r < t.p.m && c < t.k
    requires s < t.p.n && VarTrue(X(s, c), num, model) && t.p.next[s][r] != -1
    ensures d < t.k
    ensures forall u :: 0 <= u < t.p.n && VarTrue(X(u, c), num, model) && t.p.next[u][r] != -1 ==>
              VarTrue(X(t.p.next[u][r], d), num, model)
  {
    var succ := t.p.next[s][r];
    ModelRespectsClique(t, reduced, kinds, clauses, num, model, s, c);
    var e := ModelCovers(t, reduced, kinds, clauses, num, model, succ);
    ModelRespectsClique(t, reduced, kinds, clauses, num, model, succ, e);
    assert PossibleVia(t, r, c, e, s);
    assert Possible(t, r, c, e);
    assert SomePossible(t, r, c);
    var l := RequiredTrue(t, reduced, kinds, clauses, num, model, AuxOr(r, c));
    AuxOrLitsMembers(t, r, c, t.k, l);
    d := l.v.d;
    forall u | 0 <= u < t.p.n && VarTrue(X(u, c), num, model) && t.p.next[u][r] != -1
      ensures VarTrue(X(t.p.next[u][r], d), num, model)
    {
      ModelRespectsClique(t, reduced, kinds, clauses, num, model, u, c);
      var l2 := RequiredTrue(t, reduced, kinds, clauses, num, model, Imply(r, c, u, d));
    }
  }

  /** Every input has the successors of a reduced one. */
  lemma ReducedInput(p: Problem, reduced: set<nat>, a: nat) returns (r: nat)
    requires GoodProblem(p) && ReducedAlphabet(p, reduced) && a < p.m
    ensures r in reduced && r < p.m && forall u :: 0 <= u < p.n ==> p.next[u][r] == p.next[u][a]
  {
    assert Represented(p, reduced, Column(p, a));
    r :| r in reduced && r < p.m && Column(p, r) == Column(p, a);
    assert forall u :: 0 <= u < p.n ==> p.next[u][r] == Column(p, r)[u] && p.next[u][a] == Column(p, a)[u];
  }

  lemma ModelClassCloses(t: Task, reduced: set<nat>, kinds: seq<Kind>, clauses: Formula, num: Numbers, model: seq<bool>, a: nat, c: nat)
    requires GoodTask(t) && ReducedAlphabet(t.p, reduced) && IsEncoding(t, reduced, kinds, clauses, num)
    requires Satisfies(model, clauses) && a < t.p.m && c < t.k && HasSucc(t.p, Classes(t, num, model), a, c)
    ensures Closes(t.p, Classes(t, num, model), a, c)
  {
    hide ReducedAlphabet, IsEncoding, Satisfies;
    var cls := Classes(t, num, model);
    var r := ReducedInput(t.p, reduced, a);
    var s :| s in cls[c] && s < t.p.n && t.p.next[s][a] != -1;
    var d := ModelCloses(t, reduced, kinds, clauses, num, model, r, c, s);
    assert Follows(t.p, cls, a, c, d);
  }

  lemma ModelClassCompatible(t: Task, reduced: set<nat>, kinds: seq<Kind>, clauses: Formula, num: Numbers, model: seq<bool>, c: nat)
    requires GoodTask(t) && ReducedAlphabet(t.p, reduced) && IsEncoding(t, reduced, kinds, clauses, num)
    requires Satisfies(model, clauses) && c < t.k
    ensures Compatible(t.p, Classes(t, num, model)[c])
  {
    hide ReducedAlphabet, IsEncoding, Satisfies;
    var members := Classes(t, num, model)[c];
    forall s, u | s in members && u in members ensures !Marked(t.p.inc, t.p.n, s, u) {
      if s < u {
        ModelCompatible(t, reduced, kinds, clauses, num, model, s, u, c);
      } else if u < s {
        ModelCompatible(t, reduced, kinds, clauses, num, model, u, s, c);
      }
    }
  }

  /** Soundness of the encoding: the classes of any model form a closed cover with the clique in place. */
  lemma ModelIsCover(t: Task, reduced: set<nat>, kinds: seq<Kind>, clauses: Formula, num: Numbers, model: seq<bool>)
    requires GoodTask(t) && ReducedAlphabet(t.p, reduced) && IsEncoding(t, reduced, kinds, clauses, num)
    requires Satisfies(model, clauses)
    ensures ClosedCover(t.p, Classes(t, num, model))
  {
    hide ReducedAlphabet, IsEncoding, Satisfies, Compatible, Closes, HasSucc;
    var cls := Classes(t, num, model);
    forall s | 0 <= s < t.p.n ensures InSome(cls, s) {
      var c := ModelCovers(t, reduced, kinds, clauses, num, model, s);
      assert s in cls[c];
    }
    forall c | 0 <= c < |cls| ensures Compatible(t.p, cls[c]) {
      ModelClassCompatible(t, reduced, kinds, clauses, num, model, c);
    }
    forall a, c | 0 <= a < t.p.m && 0 <= c < |cls| && HasSucc(t.p, cls, a, c) ensures Closes(t.p, cls, a, c) {
      ModelClassCloses(t, reduced, kinds, clauses, num, model, a, c);
    }
  }

  // ----- a closed cover is a satisfying assignment -----

  /** What a cover says about a variable. */
  ghost predicate Holds(t: Task, cls: seq<set<nat>>, v: AVar)
    requires GoodTask(t) && |cls| == t.k
  {
    match v
    case X(s, c) => c < t.k && s in cls[c]
    case Y(a, c, d) => a < t.p.m && c < t.k && d < t.k && Follows(t.p, cls, a, c, d)
  }

  ghost function MaxNumber(num: Numbers): (n: nat)
    ensures forall v :: v in num ==> num[v] <= n
    decreases |num|
  {
    if num == map[] then 0 else
    var v :| v in num;
    var rest := MaxNumber(num - {v});
    assert forall u :: u in num && u != v ==> u in num - {v};
    if rest < num[v] then num[v] else rest
  }

  ghost predicate SomeHolds(t: Task, cls: seq<set<nat>>, num: Numbers, l: nat)
    requires GoodTask(t) && |cls| == t.k
  {
    exists v :: v in num && num[v] == l && Holds(t, cls, v)
  }

  /** The assignment that makes a variable true when the cover says so. */
  ghost function ModelOf(t: Task, cls: seq<set<nat>>, num: Numbers): seq<bool>
    requires GoodTask(t) && |cls| == t.k
  {
    seq(MaxNumber(num), i requires i >= 0 => SomeHolds(t, cls, num, i + 1))
  }

  lemma ModelOfTrue(t: Task, cls: seq<set<nat>>, num: Numbers, l: ALit)
    requires GoodTask(t) && |cls| == t.k && GoodNumbers(num) && l.v in num
    requires l.pos <==> Holds(t, cls, l.v)
    ensures LitTrue(Enc(l, num), ModelOf(t, cls, num))
  {
    var model := ModelOf(t, cls, num);
    assert model[num[l.v] - 1] == SomeHolds(t, cls, num, num[l.v]);
  }

  /** Each required clause has a literal that the cover makes true. */
  lemma CoverSatisfies(t: Task, reduced: set<nat>, cls: seq<set<nat>>, kd: Kind) returns (l: ALit)
    requires GoodTask(t) && ReducedAlphabet(t.p, reduced) && |cls| == t.k
    requires ClosedCover(t.p, cls) && Placed(t.ps, cls, |t.ps|)
    requires Required(t, reduced, kd)
    ensures l in Lits(t, kd) && (l.pos <==> Holds(t, cls, l.v))
  {
    assert forall c :: 0 <= c < |cls| ==> Compatible(t.p, cls[c]);
    match kd
    case Fix(c) =>
      l := Lits(t, kd)[0];
    case SomeClass(s) =>
      assert InSome(cls, s);
      var c :| 0 <= c < |cls| && s in cls[c];
      l := ALit(X(s, c), true);
      SomeClassLitsMembers(t, s, t.k, l);
    case Forbid(c, u) =>
      l := Lits(t, kd)[0];
    case Exclude(s, u, c) =>
      l := if s in cls[c] then Lits(t, kd)[1] else Lits(t, kd)[0];
    case AuxOr(a, c) =>
      var d := SuccessorClass(t, cls, a, c);
      l := ALit(Y(a, c, d), true);
      AuxOrLitsMembers(t, a, c, t.k, l);
    case Imply(a, c, s, d) =>
      var ls := Lits(t, kd);
      l := if !Follows(t.p, cls, a, c, d) then ls[0] else if s !in cls[c] then ls[1] else ls[2];
  }

  lemma SuccessorClass(t: Task, cls: seq<set<nat>>, a: nat, c: nat) returns (d: nat)
    requires GoodTask(t) && |cls| == t.k && a < t.p.m && c < t.k
    requires ClosedCover(t.p, cls) && Placed(t.ps, cls, |t.ps|) && SomePossible(t, a, c)
    ensures d < t.k && Possible(t, a, c, d) && Follows(t.p, cls, a, c, d)
  {
    if HasSucc(t.p, cls, a, c) {
      assert Closes(t.p, cls, a, c);
      d :| 0 <= d < |cls| && Follows(t.p, cls, a, c, d);
      var s :| s in cls[c] && s < t.p.n && t.p.next[s][a] != -1;
      assert Compatible(t.p, cls[c]) && Compatible(t.p, cls[d]);
      assert PossibleVia(t, a, c, d, s);
    } else {
      d :| 0 <= d < t.k && Possible(t, a, c, d);
    }
  }

  /** Completeness of the encoding: any closed cover with `k` classes, renumbered to put the
      clique in place, satisfies the formula. */
  lemma CoverIsModel(t: Task, reduced: set<nat>, kinds: seq<Kind>, clauses: Formula, num: Numbers, cls: seq<set<nat>>)
      returns (model: seq<bool>)
    requires GoodTask(t) && ReducedAlphabet(t.p, reduced) && IsEncoding(t, reduced, kinds, clauses, num)
    requires |cls| == t.k && ClosedCover(t.p, cls)
    ensures Satisfies(model, clauses)
  {
    var cls2 := PlaceClique(t.p, t.ps, cls, |t.ps|);
    model := ModelOf(t, cls2, num);
    forall i | 0 <= i < |clauses| ensures ClauseTrue(clauses[i], model) {
      assert kinds[i] in kinds;
      var l := CoverSatisfies(t, reduced, cls2, kinds[i]);
      var j :| 0 <= j < |Lits(t, kinds[i])| && Lits(t, kinds[i])[j] == l;
      ModelOfTrue(t, cls2, num, l);
      assert LitTrue(clauses[i][j], model);
    }
  }

  /** The formula for `k` classes is satisfiable exactly when a closed cover with `k` classes exists. */
  lemma EncodingExact(t: Task, reduced: set<nat>, kinds: seq<Kind>, clauses: Formula, num: Numbers)
    requires GoodTask(t) && ReducedAlphabet(t.p, reduced) && IsEncoding(t, reduced, kinds, clauses, num)
    ensures (exists model :: Satisfies(model, clauses)) <==> (exists cls :: |cls| == t.k && ClosedCover(t.p, cls))
  {
    if model :| Satisfies(model, clauses) {
      ModelIsCover(t, reduced, kinds, clauses, num, model);
      assert |Classes(t, num, model)| == t.k;
    }
    if cls: seq<set<nat>> :| |cls| == t.k && ClosedCover(t.p, cls) {
      var model := CoverIsModel(t, reduced, kinds, clauses, num, cls);
    }
  }
}
