/** The region that holds the clauses (memin/minisat/mtl/Alloc.h, core/SolverTypes.h), counted in
    32-bit words. Elsewhere a reference is the number of its allocation; here it is a word offset. */
module SatRegion {
  import opened SatState
  import opened SatTrail
  import opened SatGc
  import opened SatWhole
  import opened SatCollect

  /** clauseWord32Size: the header, the literals and, for a learnt clause, its activity. */
  function WordSize(c: Clause): nat {
    1 + |c.lits| + if c.learnt then 1 else 0
  }

  /** Where clause `i` begins: each allocation returns the size of the region before it. */
  function Offset(ca: seq<Clause>, i: nat): nat
    requires i <= |ca|
  {
    if i == 0 then 0 else Offset(ca, i - 1) + WordSize(ca[i - 1])
  }

  function Words(ca: seq<Clause>): nat {
    Offset(ca, |ca|)
  }

  /** The words of removed clauses, as free() counts them. */
  function WastedBelow(ca: seq<Clause>, i: nat): nat
    requires i <= |ca|
  {
    if i == 0 then 0 else WastedBelow(ca, i - 1) + if Live(ca, i - 1) then 0 else WordSize(ca[i - 1])
  }

  function Wasted(ca: seq<Clause>): nat {
    WastedBelow(ca, |ca|)
  }

  /** More than the fraction `frac` of the region is wasted. */
  predicate Wasteful(ca: seq<Clause>, frac: real) {
    Wasted(ca) as real > Words(ca) as real * frac
  }

  lemma NotWasteful(ca: seq<Clause>, frac: real)
    requires Wasted(ca) == 0 && frac >= 0.0
    ensures !Wasteful(ca, frac)
  {
    var n := Words(ca) as real;
    assert n >= 0.0;
    assert n * frac >= 0.0;
  }

  // ----- clauses do not overlap -----

  lemma {:induction false} OffsetsAscend(ca: seq<Clause>, i: nat, j: nat)
    requires i < j <= |ca|
    ensures Offset(ca, i) + WordSize(ca[i]) <= Offset(ca, j)
    decreases j
  {
    if i < j - 1 {
      OffsetsAscend(ca, i, j - 1);
    }
  }

  /** Word `w` of the region belongs to clause `i`. */
  predicate HasWord(ca: seq<Clause>, i: nat, w: nat)
    requires i < |ca|
  {
    Offset(ca, i) <= w < Offset(ca, i) + WordSize(ca[i])
  }

  /** Every clause lies inside the region, and no word belongs to two clauses. */
  lemma Apart(ca: seq<Clause>, i: nat, j: nat, w: nat)
    requires i < |ca| && j < |ca| && HasWord(ca, i, w)
    ensures w < Words(ca) && (HasWord(ca, j, w) ==> i == j)
  {
    OffsetsAscend(ca, i, |ca|);
    if i < j {
      OffsetsAscend(ca, i, j);
    } else if j < i {
      OffsetsAscend(ca, j, i);
    }
  }

  /** Every word of the region belongs to some clause: nothing is lost between them. */
  lemma {:induction false} WordOwner(ca: seq<Clause>, w: nat, n: nat) returns (i: nat)
    requires n <= |ca| && w < Offset(ca, n)
    ensures i < n && HasWord(ca, i, w)
    decreases n
  {
    if w < Offset(ca, n - 1) {
      i := WordOwner(ca, w, n - 1);
    } else {
      i := n - 1;
    }
  }

  // ----- allocating, changing and freeing -----

  lemma {:induction false} SameOffsets(ca: seq<Clause>, ca2: seq<Clause>, i: nat)
    requires i <= |ca| && i <= |ca2| && forall j :: 0 <= j < i ==> WordSize(ca2[j]) == WordSize(ca[j])
    ensures Offset(ca2, i) == Offset(ca, i)
  {
    if i > 0 {
      SameOffsets(ca, ca2, i - 1);
    }
  }

  /** A new clause starts where the region ended, and no other clause moves. */
  lemma Allocated(ca: seq<Clause>, c: Clause, i: nat)
    requires i <= |ca|
    ensures Offset(ca + [c], i) == Offset(ca, i) && Offset(ca + [c], |ca|) == Words(ca)
    ensures Words(ca + [c]) == Words(ca) + WordSize(c)
  {
    SameOffsets(ca, ca + [c], i);
    SameOffsets(ca, ca + [c], |ca|);
  }

  /** Forwarding a clause overwrites its first literal and leaves every clause where it is. */
  lemma ForwardedInPlace(ca: seq<Clause>, cr: nat, to: nat, i: nat)
    requires cr < |ca| && |ca[cr].lits| >= 1 && i <= |ca|
    ensures Offset(ca[cr := Forward(ca[cr], to)], i) == Offset(ca, i)
  {
    SameOffsets(ca, ca[cr := Forward(ca[cr], to)], i);
  }

  lemma {:induction false} FreedBelow(ca: seq<Clause>, cr: nat, i: nat)
    requires cr < |ca| && Live(ca, cr) && i <= |ca|
    ensures WastedBelow(ca[cr := ca[cr].(mark := 1)], i) == WastedBelow(ca, i) + if cr < i then WordSize(ca[cr]) else 0
  {
    if i > 0 {
      FreedBelow(ca, cr, i - 1);
    }
  }

  /** Removing a clause wastes exactly its words and leaves every clause where it is. */
  lemma Freed(ca: seq<Clause>, cr: nat, i: nat)
    requires cr < |ca| && Live(ca, cr) && i <= |ca|
    ensures Wasted(ca[cr := ca[cr].(mark := 1)]) == Wasted(ca) + WordSize(ca[cr])
    ensures Offset(ca[cr := ca[cr].(mark := 1)], i) == Offset(ca, i)
  {
    FreedBelow(ca, cr, |ca|);
    SameOffsets(ca, ca[cr := ca[cr].(mark := 1)], i);
  }

  // ----- collecting -----

  /** The words of the clauses of a set. */
  ghost function WordsOf(ca: seq<Clause>, refs: set<nat>, i: nat): nat
    requires i <= |ca|
  {
    if i == 0 then 0 else WordsOf(ca, refs, i - 1) + if i - 1 in refs then WordSize(ca[i - 1]) else 0
  }

  lemma {:induction false} WordsOfNone(ca: seq<Clause>, i: nat)
    requires i <= |ca|
    ensures WordsOf(ca, {}, i) == 0
  {
    if i > 0 {
      WordsOfNone(ca, i - 1);
    }
  }

  lemma {:induction false} WordsOfMore(ca: seq<Clause>, refs: set<nat>, cr: nat, i: nat)
    requires i <= |ca| && cr < |ca| && cr !in refs
    ensures WordsOf(ca, refs + {cr}, i) == WordsOf(ca, refs, i) + if cr < i then WordSize(ca[cr]) else 0
  {
    if i > 0 {
      WordsOfMore(ca, refs, cr, i - 1);
    }
  }

  lemma {:induction false} LiveAndWasted(ca: seq<Clause>, refs: set<nat>, i: nat)
    requires i <= |ca| && forall cr: nat :: cr in refs <==> Live(ca, cr)
    ensures WordsOf(ca, refs, i) + WastedBelow(ca, i) == Offset(ca, i)
  {
    if i > 0 {
      LiveAndWasted(ca, refs, i - 1);
    }
  }

  ghost function Refs(bwd: seq<nat>, k: nat): set<nat>
    requires k <= |bwd|
  {
    if k == 0 then {} else Refs(bwd, k - 1) + {bwd[k - 1]}
  }

  lemma {:induction false} RefsMembers(bwd: seq<nat>, k: nat, cr: nat)
    requires k <= |bwd|
    ensures cr in Refs(bwd, k) <==> exists t :: 0 <= t < k && bwd[t] == cr
  {
    if k > 0 {
      RefsMembers(bwd, k - 1, cr);
    }
  }

  /** `ca2` holds the clauses of `ca` listed in `bwd`, each once. */
  ghost predicate Copies(ca: seq<Clause>, ca2: seq<Clause>, bwd: seq<nat>) {
    && |bwd| == |ca2|
    && (forall t :: 0 <= t < |bwd| ==> bwd[t] < |ca| && SameClause(ca[bwd[t]], ca2[t]))
    && (forall t, u :: 0 <= t < u < |bwd| ==> bwd[t] != bwd[u])
  }

  lemma {:induction false} CopiedWords(ca: seq<Clause>, ca2: seq<Clause>, bwd: seq<nat>, k: nat)
    requires Copies(ca, ca2, bwd) && k <= |bwd|
    ensures Offset(ca2, k) == WordsOf(ca, Refs(bwd, k), |ca|)
  {
    if k == 0 {
      WordsOfNone(ca, |ca|);
    } else {
      CopiedWords(ca, ca2, bwd, k - 1);
      RefsMembers(bwd, k - 1, bwd[k - 1]);
      WordsOfMore(ca, Refs(bwd, k - 1), bwd[k - 1], |ca|);
    }
  }

  lemma {:induction false} NothingWasted(ca: seq<Clause>, i: nat)
    requires i <= |ca| && forall cr: nat :: cr < i ==> Live(ca, cr)
    ensures WastedBelow(ca, i) == 0
  {
    if i > 0 {
      NothingWasted(ca, i - 1);
    }
  }

  lemma RelocatedCopies(x: Snapshot, y: Snapshot, mv: Moves)
    requires Relocated(x, y, mv)
    ensures |mv.bwd| == |y.s.ca| && Copies(x.s.ca, y.s.ca, mv.bwd)
    ensures forall cr: nat :: Live(x.s.ca, cr) <==> cr in Refs(mv.bwd, |mv.bwd|)
    ensures forall t: nat :: t < |y.s.ca| ==> Live(y.s.ca, t)
  {
    var from :| Collected(x.s, y.s, mv, from);
    forall t: nat | t < |mv.bwd| ensures Live(x.s.ca, mv.bwd[t]) && mv.bwd[t] in mv.fwd && mv.fwd[mv.bwd[t]] == t && SameClause(x.s.ca[mv.bwd[t]], y.s.ca[t]) {
      NewIsOld(x.s, y.s, mv, from, t);
    }
    forall cr: nat ensures Live(x.s.ca, cr) <==> cr in Refs(mv.bwd, |mv.bwd|) {
      RefsMembers(mv.bwd, |mv.bwd|, cr);
      if Live(x.s.ca, cr) {
        assert MovedTo(x.s.ca, from, y.s.ca, mv, cr);
      }
    }
  }

  /** The new region is exactly as large as the estimate the collection starts from, the old size
      without the wasted words, and nothing in it is wasted. */
  lemma CollectedSize(x: Snapshot, y: Snapshot, mv: Moves)
    requires Relocated(x, y, mv)
    ensures Words(y.s.ca) == Words(x.s.ca) - Wasted(x.s.ca) && Wasted(y.s.ca) == 0
  {
    hide Relocated;
    RelocatedCopies(x, y, mv);
    CopiedWords(x.s.ca, y.s.ca, mv.bwd, |mv.bwd|);
    LiveAndWasted(x.s.ca, Refs(mv.bwd, |mv.bwd|), |x.s.ca|);
    NothingWasted(y.s.ca, |y.s.ca|);
  }

  /** Two live clauses share no word, neither before the collection nor after it. */
  lemma LiveApart(x: Snapshot, y: Snapshot, mv: Moves, cr: nat, cr2: nat, w: nat)
    requires Relocated(x, y, mv) && Live(x.s.ca, cr) && Live(x.s.ca, cr2) && cr != cr2
    ensures !(HasWord(x.s.ca, cr, w) && HasWord(x.s.ca, cr2, w))
    ensures cr in mv.fwd && cr2 in mv.fwd && mv.fwd[cr] < |y.s.ca| && mv.fwd[cr2] < |y.s.ca|
    ensures WordSize(y.s.ca[mv.fwd[cr]]) == WordSize(x.s.ca[cr])
    ensures !(HasWord(y.s.ca, mv.fwd[cr], w) && HasWord(y.s.ca, mv.fwd[cr2], w))
  {
    RelocatedClauses(x, y, mv);
    if HasWord(x.s.ca, cr, w) {
      Apart(x.s.ca, cr, cr2, w);
    }
    if HasWord(y.s.ca, mv.fwd[cr], w) {
      Apart(y.s.ca, mv.fwd[cr], mv.fwd[cr2], w);
    }
  }
}
