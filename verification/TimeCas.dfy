/** time_cas: adding resets to a time-expanded circuit (timeFold/timeCas.cpp). */
module TimeCas {
  import opened Frames
  import opened Aig

  // ----- what the new circuit is for -----

  /** The new circuit reads `nPi` inputs and a reset each frame. */
  predicate Reset(x: seq<bool>, nPi: nat, f: nat) {
    var i := Cell(f, nPi + 1) + nPi;
    i < |x| && x[i]
  }

  /** The frame after the latest asserted reset before frame `t`, or 0. */
  function LastReset(x: seq<bool>, nPi: nat, t: nat): (s: nat)
    ensures s <= t
  {
    if t == 0 then 0 else if Reset(x, nPi, t - 1) then t else LastReset(x, nPi, t - 1)
  }

  /** No reset lies between it and `t`, and it is 0 or follows a reset. */
  lemma {:induction false} LastResetIs(x: seq<bool>, nPi: nat, t: nat)
    ensures var s := LastReset(x, nPi, t);
            (s > 0 ==> Reset(x, nPi, s - 1)) && forall f: nat :: s <= f < t ==> !Reset(x, nPi, f)
  {
    if t > 0 && !Reset(x, nPi, t - 1) {
      LastResetIs(x, nPi, t - 1);
    }
  }

  /** The inputs of the original circuit when it starts at frame `s`; frames never reached read false. */
  function Restart(x: seq<bool>, nPi: nat, T: nat, s: nat): (r: seq<bool>)
    requires s <= T && nPi > 0
  {
    seq(Cell(T - s, nPi), j requires 0 <= j < Cell(T - s, nPi) => InputAt(x, nPi, s, j))
  }

  /** Input `j` of the original, read `s` frames later. */
  predicate InputAt(x: seq<bool>, nPi: nat, s: nat, j: nat)
    requires nPi > 0
  {
    ReadsPin(x, nPi, s + j / nPi, j % nPi)
  }

  predicate ReadsPin(x: seq<bool>, nPi: nat, f: nat, i: nat) {
    Cell(f, nPi + 1) + i < |x| && x[Cell(f, nPi + 1) + i]
  }

  /** Two input vectors agree on the frames before `f`. */
  predicate Agree(x: seq<bool>, y: seq<bool>, nPi: nat, f: nat) {
    forall j: nat :: j < Cell(f, nPi) ==> At(x, j) == At(y, j)
  }

  predicate At(x: seq<bool>, j: nat) {
    j < |x| && x[j]
  }

  /** Outputs of frame f depend only on inputs up to frame f. */
  ghost predicate CausalFrames(c: Comb, nPi: nat, nPo: nat, T: nat)
    requires GoodComb(c) && |c.pos| == Cell(T, nPo)
  {
    forall f: nat, k: nat :: f < T && k < nPo ==> CausalOutput(c, nPi, nPo, T, f, k)
  }

  ghost predicate CausalOutput(c: Comb, nPi: nat, nPo: nat, T: nat, f: nat, k: nat)
    requires GoodComb(c) && |c.pos| == Cell(T, nPo) && f < T && k < nPo
  {
    CellMonotone(f, T, nPo);
    var f1 := f + 1;
    forall x, y :: Agree(x, y, nPi, f1) ==> CombOut(c, x, Cell(f, nPo) + k) == CombOut(c, y, Cell(f, nPo) + k)
  }

  datatype Ctx = Ctx(c: Comb, T: nat, nPi: nat, nPo: nat)

  ghost predicate GoodCtx(p: Ctx) {
    && GoodComb(p.c) && p.T > 0 && p.nPi > 0 && p.c.nCi == Cell(p.T, p.nPi) && |p.c.pos| == Cell(p.T, p.nPo)
  }

  /** Output `k` of the original's frame `f` when it starts at frame `s`. */
  ghost predicate Shows(p: Ctx, nodes: seq<Node>, e: Edge, s: nat, f: nat, k: nat)
    requires GoodCtx(p) && Ordered(nodes) && s <= p.T && f < p.T && k < p.nPo
  {
    CellMonotone(f, p.T, p.nPo);
    e.node < |nodes| &&
    forall x :: EvE(nodes, [], x, e) == CombOut(p.c, Restart(x, p.nPi, p.T, s), Cell(f, p.nPo) + k)
  }

  // ----- the triangular offset -----

  /** Where the outputs of the copy that starts at frame `j` begin: T + (T - 1) + ... frames before. */
  function Start(T: nat, j: nat): nat
    requires j <= T
  {
    if j == 0 then 0 else Start(T, j - 1) + (T - (j - 1))
  }

  lemma NextTerm(n: int, i: int)
    ensures (n + 1) * i == n * i + i && n * (i + 1) == n * i + n
  {}

  lemma {:induction false} StartTwice(T: nat, j: nat)
    requires j <= T
    ensures 2 * Start(T, j) == (2 * T - j + 1) * j
  {
    if j > 0 {
      var i, n := j - 1, 2 * T - (j - 1);
      StartTwice(T, i);
      NextTerm(n, i);
      assert 2 * T - i + 1 == n + 1 && 2 * T - j + 1 == n && j == i + 1;
    }
  }

  /** (2T - j + 1) * j / 2 is the start of block j. */
  lemma Offset(T: nat, j: nat)
    requires j <= T
    ensures (2 * T - j + 1) * j / 2 == Start(T, j)
  {
    StartTwice(T, j);
  }

  lemma {:induction false} StartGrows(T: nat, i: nat, j: nat)
    requires i < j <= T
    ensures Start(T, i) + (T - i) <= Start(T, j)
  {
    if i < j - 1 {
      StartGrows(T, i, j - 1);
    }
  }

  /** No two outputs of the copies share a place in the vector. */
  lemma BlocksApart(T: nat, nPo: nat, u: nat, f: nat, k: nat, v: nat, g: nat, l: nat)
    requires u < T && f < T - u && k < nPo && v < T && g < T - v && l < nPo
    requires Cell(Start(T, u) + f, nPo) + k == Cell(Start(T, v) + g, nPo) + l
    ensures u == v && f == g && k == l
  {
    FrameUnique(Start(T, u) + f, Start(T, v) + g, nPo, Cell(Start(T, u) + f, nPo) + k);
    if u < v {
      StartGrows(T, u, v);
    } else if v < u {
      StartGrows(T, v, u);
    }
  }

  // ----- one copy of the circuit -----

  /** pCopy maps input j to the new pin ci[j]. */
  ghost predicate InputsAt(p: Ctx, nodes: seq<Node>, pCopy: seq<Edge>, ci: seq<nat>) {
    && |pCopy| == Size(p.c) && |ci| == p.c.nCi && pCopy[0] == Edge(0, false)
    && |nodes| > 0 && nodes[0] == Const1
    && forall j :: 0 <= j < p.c.nCi ==> PinNode(nodes, pCopy[1 + j], ci[j])
  }

  predicate PinNode(nodes: seq<Node>, e: Edge, i: nat) {
    !e.neg && e.node < |nodes| && nodes[e.node] == Pi(i)
  }

  /** What the copy sees as the original's inputs. */
  ghost function Seen(ci: seq<nat>, x: seq<bool>): seq<bool> {
    seq(|ci|, j requires 0 <= j < |ci| => At(x, ci[j]))
  }

  /** Nodes below `upto` have been copied. */
  ghost predicate CopiedTo(p: Ctx, nodes: seq<Node>, pCopy: seq<Edge>, ci: seq<nat>, upto: nat)
    requires GoodCtx(p) && Ordered(nodes)
  {
    && InputsAt(p, nodes, pCopy, ci) && upto <= Size(p.c)
    && forall n: nat :: n < upto ==> NodeCopied(p, nodes, pCopy, ci, n)
  }

  ghost predicate NodeCopied(p: Ctx, nodes: seq<Node>, pCopy: seq<Edge>, ci: seq<nat>, n: nat)
    requires GoodCtx(p) && Ordered(nodes) && n < Size(p.c) == |pCopy|
  {
    pCopy[n].node < |nodes| && forall x :: EvE(nodes, [], x, pCopy[n]) == CombVal(p.c, Seen(ci, x), n)
  }

  lemma InputsCopied(p: Ctx, nodes: seq<Node>, pCopy: seq<Edge>, ci: seq<nat>)
    requires GoodCtx(p) && Ordered(nodes) && InputsAt(p, nodes, pCopy, ci)
    ensures CopiedTo(p, nodes, pCopy, ci, 1 + p.c.nCi)
  {
    forall n: nat | n < 1 + p.c.nCi ensures NodeCopied(p, nodes, pCopy, ci, n) {
      if n > 0 {
        assert PinNode(nodes, pCopy[1 + (n - 1)], ci[n - 1]);
      }
    }
  }

  lemma GateCopied(p: Ctx, nodes: seq<Node>, pCopy: seq<Edge>, ci: seq<nat>, n: nat)
    requires GoodCtx(p) && Ordered(nodes) && CopiedTo(p, nodes, pCopy, ci, n) && p.c.nCi < n < Size(p.c)
    ensures var g := GateOf(p.c, n);
            g.f0.node < |pCopy| && g.f1.node < |pCopy| &&
            var (nodes2, e) := MkAnd(nodes, ChildCopy(pCopy, g.f0), ChildCopy(pCopy, g.f1));
            Extends(nodes, nodes2) && CopiedTo(p, nodes2, pCopy[n := e], ci, n + 1)
  {
    var g := GateOf(p.c, n);
    assert NodeCopied(p, nodes, pCopy, ci, g.f0.node) && NodeCopied(p, nodes, pCopy, ci, g.f1.node);
    var e0, e1 := ChildCopy(pCopy, g.f0), ChildCopy(pCopy, g.f1);
    MkAndOk(nodes, e0, e1);
    var (nodes2, e) := MkAnd(nodes, e0, e1);
    var pCopy2 := pCopy[n := e];
    forall j | 0 <= j < p.c.nCi ensures PinNode(nodes2, pCopy2[1 + j], ci[j]) {
      assert PinNode(nodes, pCopy[1 + j], ci[j]);
    }
    forall m: nat | m < n + 1 ensures NodeCopied(p, nodes2, pCopy2, ci, m) {
      if m < n {
        assert NodeCopied(p, nodes, pCopy, ci, m);
        NodeKept(p, nodes, nodes2, pCopy, pCopy2, ci, m);
      } else {
        forall x ensures EvE(nodes2, [], x, e) == CombVal(p.c, Seen(ci, x), n) {
          assert EvE(nodes, [], x, e0) == CombValE(p.c, Seen(ci, x), g.f0);
          assert EvE(nodes, [], x, e1) == CombValE(p.c, Seen(ci, x), g.f1);
        }
      }
    }
  }

  lemma NodeKept(p: Ctx, nodes: seq<Node>, nodes2: seq<Node>, pCopy: seq<Edge>, pCopy2: seq<Edge>, ci: seq<nat>, m: nat)
    requires GoodCtx(p) && Extends(nodes, nodes2) && Ordered(nodes) && m < Size(p.c) == |pCopy| == |pCopy2| && pCopy2[m] == pCopy[m]
    requires NodeCopied(p, nodes, pCopy, ci, m)
    ensures NodeCopied(p, nodes2, pCopy2, ci, m)
  {
    forall x ensures EvE(nodes2, [], x, pCopy2[m]) == CombVal(p.c, Seen(ci, x), m) {
      EvEPrefix(nodes, nodes2, [], x, pCopy[m]);
    }
  }

  /** Abc_AigForEachAnd: copies all gates over the current inputs. */
  method CopyGates(p: Ctx, nodes0: seq<Node>, pCopy0: seq<Edge>, ghost ci: seq<nat>) returns (nodes: seq<Node>, pCopy: seq<Edge>)
    requires GoodCtx(p) && Ordered(nodes0) && InputsAt(p, nodes0, pCopy0, ci)
    ensures Extends(nodes0, nodes) && CopiedTo(p, nodes, pCopy, ci, Size(p.c))
  {
    nodes, pCopy := nodes0, pCopy0;
    InputsCopied(p, nodes, pCopy, ci);
    for n := 1 + p.c.nCi to Size(p.c)
      invariant Extends(nodes0, nodes) && CopiedTo(p, nodes, pCopy, ci, n)
    {
      GateCopied(p, nodes, pCopy, ci, n);
      var g := GateOf(p.c, n);
      var (nodes2, e) := MkAnd(nodes, ChildCopy(pCopy, g.f0), ChildCopy(pCopy, g.f1));
      ExtendsTrans(nodes0, nodes, nodes2);
      nodes, pCopy := nodes2, pCopy[n := e];
    }
  }

  /** Input j = f * nPi + i of the copy that starts at `s` reads pin i of frame s + f. */
  ghost predicate Shifted(p: Ctx, ci: seq<nat>, s: nat) {
    |ci| == p.c.nCi && s <= p.T && forall f: nat, i: nat :: f < p.T - s && i < p.nPi ==> ShiftedAt(p, ci, s, f, i)
  }

  predicate ShiftedAt(p: Ctx, ci: seq<nat>, s: nat, f: nat, i: nat) {
    Cell(f, p.nPi) + i < |ci| && ci[Cell(f, p.nPi) + i] == Cell(s + f, p.nPi + 1) + i
  }

  /** What a shifted copy sees in the frames it reaches is the restarted input. */
  lemma SeenIsRestart(p: Ctx, ci: seq<nat>, s: nat, f: nat, x: seq<bool>)
    requires GoodCtx(p) && Shifted(p, ci, s) && s < p.T && f < p.T - s
    ensures Agree(Seen(ci, x), Restart(x, p.nPi, p.T, s), p.nPi, f + 1)
  {
    forall j: nat | j < Cell(f + 1, p.nPi) ensures At(Seen(ci, x), j) == At(Restart(x, p.nPi, p.T, s), j) {
      var g, i := j / p.nPi, j % p.nPi;
      InCell(j, p.nPi);
      if g > f {
        CellMonotone(f + 1, g, p.nPi);
      }
      CellMonotone(g, p.T - s, p.nPi);
      assert ShiftedAt(p, ci, s, g, i);
      CellMonotone(f + 1, p.T - s, p.nPi);
    }
  }

  lemma InCell(j: nat, n: nat)
    requires n > 0
    ensures j == Cell(j / n, n) + j % n && j % n < n
  {
    CellIsProduct(j / n, n);
  }

  /** The outputs of the copy that starts at `s`, in the frames it reaches, if the circuit is causal. */
  lemma OutputShows(p: Ctx, nodes: seq<Node>, pCopy: seq<Edge>, ci: seq<nat>, s: nat, f: nat, k: nat)
    requires GoodCtx(p) && Ordered(nodes) && CopiedTo(p, nodes, pCopy, ci, Size(p.c)) && Shifted(p, ci, s)
    requires CausalFrames(p.c, p.nPi, p.nPo, p.T) && s < p.T && f < p.T - s && k < p.nPo
    ensures Cell(f, p.nPo) + k < |p.c.pos| && p.c.pos[Cell(f, p.nPo) + k].node < |pCopy|
    ensures Shows(p, nodes, ChildCopy(pCopy, p.c.pos[Cell(f, p.nPo) + k]), s, f, k)
  {
    CellMonotone(f, p.T, p.nPo);
    var o := Cell(f, p.nPo) + k;
    var e := p.c.pos[o];
    assert NodeCopied(p, nodes, pCopy, ci, e.node);
    assert CausalOutput(p.c, p.nPi, p.nPo, p.T, f, k);
    forall x ensures EvE(nodes, [], x, ChildCopy(pCopy, e)) == CombOut(p.c, Restart(x, p.nPi, p.T, s), o) {
      SeenIsRestart(p, ci, s, f, x);
      assert EvE(nodes, [], x, pCopy[e.node]) == CombVal(p.c, Seen(ci, x), e.node);
    }
  }

  lemma ShowsKept(p: Ctx, nodes: seq<Node>, nodes2: seq<Node>, e: Edge, s: nat, f: nat, k: nat)
    requires GoodCtx(p) && Ordered(nodes) && Extends(nodes, nodes2) && s <= p.T && f < p.T && k < p.nPo && Shows(p, nodes, e, s, f, k)
    ensures Shows(p, nodes2, e, s, f, k)
  {
    CellMonotone(f, p.T, p.nPo);
    forall x ensures EvE(nodes2, [], x, e) == CombOut(p.c, Restart(x, p.nPi, p.T, s), Cell(f, p.nPo) + k) {
      EvEPrefix(nodes, nodes2, [], x, e);
    }
  }

  // ----- all copies -----

  /** yVec holds the outputs of the copies starting before `s`, block after block. */
  ghost predicate Blocks(p: Ctx, nodes: seq<Node>, yVec: seq<Edge>, s: nat)
    requires GoodCtx(p) && Ordered(nodes)
  {
    s <= p.T && |yVec| == Cell(Start(p.T, s), p.nPo) &&
    (forall i :: 0 <= i < |yVec| ==> yVec[i].node < |nodes|) &&
    forall u: nat, f: nat, k: nat :: u < s && f < p.T - u && k < p.nPo ==> BlockEntry(p, nodes, yVec, u, f, k)
  }

  ghost predicate BlockEntry(p: Ctx, nodes: seq<Node>, yVec: seq<Edge>, u: nat, f: nat, k: nat)
    requires GoodCtx(p) && Ordered(nodes) && u < p.T && f < p.T - u && k < p.nPo
  {
    var i := Cell(Start(p.T, u) + f, p.nPo) + k;
    i < |yVec| && (CausalFrames(p.c, p.nPi, p.nPo, p.T) ==> Shows(p, nodes, yVec[i], u, f, k))
  }

  lemma BlocksKept(p: Ctx, nodes: seq<Node>, nodes2: seq<Node>, yVec: seq<Edge>, s: nat)
    requires GoodCtx(p) && Ordered(nodes) && Extends(nodes, nodes2) && Blocks(p, nodes, yVec, s)
    ensures Blocks(p, nodes2, yVec, s)
  {
    forall u: nat, f: nat, k: nat | u < s && f < p.T - u && k < p.nPo ensures BlockEntry(p, nodes2, yVec, u, f, k) {
      assert BlockEntry(p, nodes, yVec, u, f, k);
      if CausalFrames(p.c, p.nPi, p.nPo, p.T) {
        ShowsKept(p, nodes, nodes2, yVec[Cell(Start(p.T, u) + f, p.nPo) + k], u, f, k);
      }
    }
  }

  /** The outputs of one copy, frame by frame. */
  function BlockOutputs(p: Ctx, pCopy: seq<Edge>, n: nat): seq<Edge>
    requires n <= |p.c.pos| && forall k :: 0 <= k < |p.c.pos| ==> p.c.pos[k].node < |pCopy|
  {
    seq(n, o requires 0 <= o < n => ChildCopy(pCopy, p.c.pos[o]))
  }

  lemma {:induction false} CellSplit(a: nat, b: nat, n: nat)
    ensures Cell(a + b, n) == Cell(a, n) + Cell(b, n)
  {
    if b > 0 {
      CellSplit(a, b - 1, n);
    }
  }

  lemma NewEntry(p: Ctx, nodes: seq<Node>, pCopy: seq<Edge>, ci: seq<nat>, yVec: seq<Edge>, s: nat, f: nat, k: nat)
    requires GoodCtx(p) && Ordered(nodes) && s < p.T && f < p.T - s && k < p.nPo && |yVec| == Cell(Start(p.T, s), p.nPo)
    requires CopiedTo(p, nodes, pCopy, ci, Size(p.c)) && Shifted(p, ci, s)
    requires Cell(p.T - s, p.nPo) <= |p.c.pos|
    ensures BlockEntry(p, nodes, yVec + BlockOutputs(p, pCopy, Cell(p.T - s, p.nPo)), s, f, k)
  {
    CellSplit(Start(p.T, s), f, p.nPo);
    CellMonotone(f, p.T - s, p.nPo);
    var outs := BlockOutputs(p, pCopy, Cell(p.T - s, p.nPo));
    var o := Cell(f, p.nPo) + k;
    assert (yVec + outs)[|yVec| + o] == outs[o];
    if CausalFrames(p.c, p.nPi, p.nPo, p.T) {
      OutputShows(p, nodes, pCopy, ci, s, f, k);
    }
  }

  lemma OutputsValid(p: Ctx, nodes: seq<Node>, pCopy: seq<Edge>, ci: seq<nat>, n: nat)
    requires GoodCtx(p) && Ordered(nodes) && CopiedTo(p, nodes, pCopy, ci, Size(p.c)) && n <= |p.c.pos|
    ensures |pCopy| == Size(p.c) && forall o :: 0 <= o < n ==> BlockOutputs(p, pCopy, n)[o].node < |nodes|
  {
    forall o | 0 <= o < n ensures BlockOutputs(p, pCopy, n)[o].node < |nodes| {
      assert NodeCopied(p, nodes, pCopy, ci, p.c.pos[o].node);
    }
  }

  lemma BlockAdded(p: Ctx, nodes: seq<Node>, pCopy: seq<Edge>, ci: seq<nat>, yVec: seq<Edge>, s: nat)
    requires GoodCtx(p) && Ordered(nodes) && Blocks(p, nodes, yVec, s) && s < p.T
    requires CopiedTo(p, nodes, pCopy, ci, Size(p.c)) && Shifted(p, ci, s)
    ensures Cell(p.T - s, p.nPo) <= |p.c.pos|
    ensures Blocks(p, nodes, yVec + BlockOutputs(p, pCopy, Cell(p.T - s, p.nPo)), s + 1)
  {
    hide CopiedTo, Shifted, CausalFrames, Shows;
    CellMonotone(p.T - s, p.T, p.nPo);
    OutputsValid(p, nodes, pCopy, ci, Cell(p.T - s, p.nPo));
    var outs := BlockOutputs(p, pCopy, Cell(p.T - s, p.nPo));
    var yVec2 := yVec + outs;
    CellSplit(Start(p.T, s), p.T - s, p.nPo);
    var s1 := s + 1;
    forall u: nat, f: nat, k: nat | u < s1 && f < p.T - u && k < p.nPo ensures BlockEntry(p, nodes, yVec2, u, f, k) {
      if u < s {
        assert BlockEntry(p, nodes, yVec, u, f, k);
      } else {
        NewEntry(p, nodes, pCopy, ci, yVec, s, f, k);
      }
    }
  }

  /** The first loop over t: remembers the inputs of the copy starting at `t`; later inputs keep
      what an earlier copy read. */
  method AimInputs(p: Ctx, ghost nodes: seq<Node>, pCopy0: seq<Edge>, t: nat, ghost ci0: seq<nat>) returns (pCopy: seq<Edge>, ghost ci: seq<nat>)
    requires GoodCtx(p) && Ordered(nodes) && PinsFirst(p, nodes) && t < p.T
    requires |pCopy0| == Size(p.c) && |ci0| == p.c.nCi && pCopy0[0] == Edge(0, false)
    requires t > 0 ==> InputsAt(p, nodes, pCopy0, ci0)
    ensures InputsAt(p, nodes, pCopy, ci) && Shifted(p, ci, t)
  {
    pCopy, ci := pCopy0, ci0;
    var k: nat := Cell(t, p.nPi + 1);
    ghost var f: nat, i: nat := 0, 0;
    CellMonotone(p.T - t, p.T, p.nPi);
    for j := 0 to Cell(p.T - t, p.nPi)
      invariant Counters(p, t, j, f, i, k) && AimState(p, nodes, pCopy, ci, t, j)
    {
      hide AimState, Counters, PinsFirst, GoodCtx;
      AimRound(p, nodes, pCopy, ci, t, j, f, i, k);
      pCopy, ci := pCopy[1 + j := Edge(1 + k, false)], ci[j := k];
      k := k + 1;
      if (j + 1) % p.nPi == 0 {
        k := k + 1;
        f, i := f + 1, 0;
      } else {
        i := i + 1;
      }
    }
    AimedAll(p, nodes, pCopy, ci, t);
  }

  /** Counter `j` stands at pin `i` of frame `f`, and `k` at the same pin of the new circuit, `t` frames later. */
  predicate Counters(p: Ctx, t: nat, j: nat, f: nat, i: nat, k: nat) {
    j == Cell(f, p.nPi) + i && i < p.nPi && k == Cell(t + f, p.nPi + 1) + i
  }

  ghost predicate AimState(p: Ctx, nodes: seq<Node>, pCopy: seq<Edge>, ci: seq<nat>, t: nat, j: nat) {
    Aimed(p, nodes, pCopy, ci, t, j) && pCopy[0] == Edge(0, false) && (t > 0 ==> InputsAt(p, nodes, pCopy, ci))
  }

  lemma CountersStep(p: Ctx, t: nat, j: nat, f: nat, i: nat, k: nat)
    requires p.nPi > 0 && Counters(p, t, j, f, i, k)
    ensures if (j + 1) % p.nPi == 0 then Counters(p, t, j + 1, f + 1, 0, k + 2) else Counters(p, t, j + 1, f, i + 1, k + 1)
  {
    LastPin(f, p.nPi, i);
  }

  /** One round of the loop. */
  lemma AimRound(p: Ctx, nodes: seq<Node>, pCopy: seq<Edge>, ci: seq<nat>, t: nat, j: nat, f: nat, i: nat, k: nat)
    requires GoodCtx(p) && PinsFirst(p, nodes) && t < p.T && j < Cell(p.T - t, p.nPi)
    requires Counters(p, t, j, f, i, k) && AimState(p, nodes, pCopy, ci, t, j)
    ensures 1 + j < |pCopy| && j < |ci| && p.nPi > 0
    ensures AimState(p, nodes, pCopy[1 + j := Edge(1 + k, false)], ci[j := k], t, j + 1)
    ensures if (j + 1) % p.nPi == 0 then Counters(p, t, j + 1, f + 1, 0, k + 2) else Counters(p, t, j + 1, f, i + 1, k + 1)
  {
    hide InputsAt, ShiftedAt, PinNode, PinsFirst;
    CountersStep(p, t, j, f, i, k);
    AimIndex(p, t, j, f, i);
    AimOne(p, nodes, pCopy, ci, t, j, f, i);
    if t > 0 {
      AimKeepsInputs(p, nodes, pCopy, ci, j, k);
    }
  }

  lemma LastPin(f: nat, n: nat, i: nat)
    requires i < n
    ensures (Cell(f, n) + i + 1) % n == 0 <==> i + 1 == n
  {
    if i + 1 < n {
      CellDiv(f, n, i + 1);
    } else {
      CellDiv(f + 1, n, 0);
    }
  }

  /** The new network starts with the constant and its pins. */
  ghost predicate PinsFirst(p: Ctx, nodes: seq<Node>) {
    && |nodes| >= 1 + Cell(p.T, p.nPi + 1) && nodes[0] == Const1
    && forall i :: 0 <= i < Cell(p.T, p.nPi + 1) ==> nodes[1 + i] == Pi(i)
  }

  /** Inputs below `j` have been aimed at the pins `t` frames later. */
  ghost predicate Aimed(p: Ctx, nodes: seq<Node>, pCopy: seq<Edge>, ci: seq<nat>, t: nat, j: nat) {
    && |pCopy| == Size(p.c) && |ci| == p.c.nCi && j <= p.c.nCi
    && (forall m :: 0 <= m < j ==> PinNode(nodes, pCopy[1 + m], ci[m]))
    && forall f: nat, i: nat :: i < p.nPi && Cell(f, p.nPi) + i < j ==> ShiftedAt(p, ci, t, f, i)
  }

  /** The pin read is one of the new circuit, and the input it aims is one of the original. */
  lemma AimIndex(p: Ctx, t: nat, j: nat, f: nat, i: nat)
    requires GoodCtx(p) && t < p.T && j == Cell(f, p.nPi) + i && i < p.nPi && j < Cell(p.T - t, p.nPi)
    ensures j < p.c.nCi && f < p.T - t && Cell(t + f, p.nPi + 1) + i < Cell(p.T, p.nPi + 1)
  {
    if f >= p.T - t {
      CellMonotone(p.T - t, f, p.nPi);
    }
    CellMonotone(t + f, p.T, p.nPi + 1);
    CellMonotone(p.T - t, p.T, p.nPi);
  }

  lemma AimKeepsInputs(p: Ctx, nodes: seq<Node>, pCopy: seq<Edge>, ci: seq<nat>, j: nat, k: nat)
    requires GoodCtx(p) && PinsFirst(p, nodes) && InputsAt(p, nodes, pCopy, ci) && j < p.c.nCi && k < Cell(p.T, p.nPi + 1)
    ensures InputsAt(p, nodes, pCopy[1 + j := Edge(1 + k, false)], ci[j := k])
  {}

  lemma AimOne(p: Ctx, nodes: seq<Node>, pCopy: seq<Edge>, ci: seq<nat>, t: nat, j: nat, f: nat, i: nat)
    requires GoodCtx(p) && PinsFirst(p, nodes) && Aimed(p, nodes, pCopy, ci, t, j) && t < p.T
    requires j == Cell(f, p.nPi) + i && i < p.nPi && j < Cell(p.T - t, p.nPi)
    ensures 1 + j < |pCopy| && j < |ci|
    ensures var k := Cell(t + f, p.nPi + 1) + i;
            Aimed(p, nodes, pCopy[1 + j := Edge(1 + k, false)], ci[j := k], t, j + 1)
  {
    AimIndex(p, t, j, f, i);
    var k := Cell(t + f, p.nPi + 1) + i;
    var pCopy2, ci2, j1 := pCopy[1 + j := Edge(1 + k, false)], ci[j := k], j + 1;
    forall m | 0 <= m < j1 ensures PinNode(nodes, pCopy2[1 + m], ci2[m]) {
      assert m < j ==> PinNode(nodes, pCopy[1 + m], ci[m]);
    }
    forall g: nat, h: nat | h < p.nPi && Cell(g, p.nPi) + h < j1 ensures ShiftedAt(p, ci2, t, g, h) {
      if Cell(g, p.nPi) + h == j {
        FrameUnique(g, f, p.nPi, j);
      } else {
        assert ShiftedAt(p, ci, t, g, h);
      }
    }
  }

  lemma AimedAll(p: Ctx, nodes: seq<Node>, pCopy: seq<Edge>, ci: seq<nat>, t: nat)
    requires GoodCtx(p) && PinsFirst(p, nodes) && t < p.T && Aimed(p, nodes, pCopy, ci, t, Cell(p.T - t, p.nPi))
    requires pCopy[0] == Edge(0, false) && (t > 0 ==> InputsAt(p, nodes, pCopy, ci))
    ensures InputsAt(p, nodes, pCopy, ci) && Shifted(p, ci, t)
  {
    forall f: nat, i: nat | f < p.T - t && i < p.nPi ensures ShiftedAt(p, ci, t, f, i) {
      CellMonotone(f, p.T - t, p.nPi);
    }
  }

  /** All copies, each with its outputs. */
  method BuildCopies(p: Ctx) returns (nodes: seq<Node>, yVec: seq<Edge>)
    requires GoodCtx(p)
    ensures Ordered(nodes) && PinsFirst(p, nodes) && Blocks(p, nodes, yVec, p.T)
  {
    nodes := [Const1] + seq(Cell(p.T, p.nPi + 1), (i: nat) => Pi(i));
    yVec := [];
    var pCopy := seq(Size(p.c), _ => Edge(0, false));
    ghost var ci := seq(p.c.nCi, _ => 0);
    for t := 0 to p.T
      invariant Ordered(nodes) && PinsFirst(p, nodes) && Blocks(p, nodes, yVec, t)
      invariant |pCopy| == Size(p.c) && |ci| == p.c.nCi && pCopy[0] == Edge(0, false)
      invariant t > 0 ==> InputsAt(p, nodes, pCopy, ci)
    {
      pCopy, ci := AimInputs(p, nodes, pCopy, t, ci);
      ghost var nodes0 := nodes;
      nodes, pCopy := CopyGates(p, nodes, pCopy, ci);
      BlocksKept(p, nodes0, nodes, yVec, t);
      PinsStay(p, nodes0, nodes);
      BlockAdded(p, nodes, pCopy, ci, yVec, t);
      yVec := yVec + BlockOutputs(p, pCopy, Cell(p.T - t, p.nPo));
    }
  }

  lemma PinsStay(p: Ctx, nodes: seq<Node>, nodes2: seq<Node>)
    requires PinsFirst(p, nodes) && Extends(nodes, nodes2)
    ensures PinsFirst(p, nodes2)
  {
    forall i | 0 <= i < Cell(p.T, p.nPi + 1) ensures nodes2[1 + i] == Pi(i) {
      assert nodes2[1 + i] == nodes[1 + i];
    }
  }

  // ----- choosing by the resets -----

  /** Pin `e` shows output `k` of frame `t`, restarted after the latest of the first `j` resets. */
  ghost predicate Chosen(p: Ctx, nodes: seq<Node>, e: Edge, t: nat, j: nat, k: nat)
    requires GoodCtx(p) && Ordered(nodes) && j <= t < p.T && k < p.nPo
  {
    e.node < |nodes| && (CausalFrames(p.c, p.nPi, p.nPo, p.T) ==> forall x :: ChosenFor(p, nodes, e, t, j, k, x))
  }

  ghost predicate ChosenFor(p: Ctx, nodes: seq<Node>, e: Edge, t: nat, j: nat, k: nat, x: seq<bool>)
    requires GoodCtx(p) && Ordered(nodes) && j <= t < p.T && k < p.nPo && e.node < |nodes|
  {
    var s := LastReset(x, p.nPi, j);
    CellMonotone(t - s, p.T, p.nPo);
    EvE(nodes, [], x, e) == CombOut(p.c, Restart(x, p.nPi, p.T, s), Cell(t - s, p.nPo) + k)
  }

  /** The reset pin of frame j. */
  function ResetPin(p: Ctx, j: nat): Edge {
    Edge(1 + Cell(j, p.nPi + 1) + p.nPi, false)
  }

  lemma ResetPinReads(p: Ctx, nodes: seq<Node>, j: nat, x: seq<bool>)
    requires GoodCtx(p) && Ordered(nodes) && PinsFirst(p, nodes) && j < p.T
    ensures ResetPin(p, j).node < |nodes| && EvE(nodes, [], x, ResetPin(p, j)) == Reset(x, p.nPi, j)
  {
    CellMonotone(j, p.T, p.nPi + 1);
    assert nodes[1 + (Cell(j, p.nPi + 1) + p.nPi)] == Pi(Cell(j, p.nPi + 1) + p.nPi);
  }

  /** One multiplexer: reset j selects the copy that starts at frame j + 1. */
  lemma ChooseNext(p: Ctx, nodes: seq<Node>, e: Edge, y: Edge, t: nat, j: nat, k: nat)
    requires GoodCtx(p) && Ordered(nodes) && PinsFirst(p, nodes) && j < t < p.T && k < p.nPo && Chosen(p, nodes, e, t, j, k)
    requires y.node < |nodes| && (CausalFrames(p.c, p.nPi, p.nPo, p.T) ==> Shows(p, nodes, y, j + 1, t - (j + 1), k))
    ensures var (nodes2, o) := MkMux(nodes, ResetPin(p, j), y, e);
            Extends(nodes, nodes2) && Chosen(p, nodes2, o, t, j + 1, k)
  {
    hide PinsFirst, CausalFrames, Restart, CombOut;
    ResetPinReads(p, nodes, j, []);
    MkMuxOk(nodes, ResetPin(p, j), y, e);
    var (nodes2, o) := MkMux(nodes, ResetPin(p, j), y, e);
    if CausalFrames(p.c, p.nPi, p.nPo, p.T) {
      var j1 := j + 1;
      forall x ensures ChosenFor(p, nodes2, o, t, j1, k, x) {
        ResetPinReads(p, nodes, j, x);
        assert ChosenFor(p, nodes, e, t, j, k, x);
        CellMonotone(t - j1, p.T, p.nPo);
        assert EvE(nodes, [], x, y) == CombOut(p.c, Restart(x, p.nPi, p.T, j1), Cell(t - j1, p.nPo) + k);
      }
    }
  }

  lemma ChosenKept(p: Ctx, nodes: seq<Node>, nodes2: seq<Node>, e: Edge, t: nat, j: nat, k: nat)
    requires GoodCtx(p) && Ordered(nodes) && Extends(nodes, nodes2) && j <= t < p.T && k < p.nPo && Chosen(p, nodes, e, t, j, k)
    ensures Chosen(p, nodes2, e, t, j, k)
  {
    if CausalFrames(p.c, p.nPi, p.nPo, p.T) {
      forall x ensures ChosenFor(p, nodes2, e, t, j, k, x) {
        assert ChosenFor(p, nodes, e, t, j, k, x);
        EvEPrefix(nodes, nodes2, [], x, e);
      }
    }
  }

  /** Block 0 is the circuit started at frame 0. */
  lemma FirstChoice(p: Ctx, nodes: seq<Node>, yVec: seq<Edge>, t: nat, k: nat)
    requires GoodCtx(p) && Ordered(nodes) && Blocks(p, nodes, yVec, p.T) && t < p.T && k < p.nPo
    ensures Cell(t, p.nPo) + k < |yVec| && Chosen(p, nodes, yVec[Cell(t, p.nPo) + k], t, 0, k)
  {
    assert BlockEntry(p, nodes, yVec, 0, t, k);
    if CausalFrames(p.c, p.nPi, p.nPo, p.T) {
      var e := yVec[Cell(t, p.nPo) + k];
      forall x ensures ChosenFor(p, nodes, e, t, 0, k, x) {
        CellMonotone(t, p.T, p.nPo);
        assert EvE(nodes, [], x, e) == CombOut(p.c, Restart(x, p.nPi, p.T, 0), Cell(t, p.nPo) + k);
      }
    }
  }

  /** The outputs of frame `t`: multiplexers over all copies that reach it. */
  method ChooseFrame(p: Ctx, nodes0: seq<Node>, yVec: seq<Edge>, t: nat) returns (nodes: seq<Node>, oVec: seq<Edge>)
    requires GoodCtx(p) && Ordered(nodes0) && PinsFirst(p, nodes0) && Blocks(p, nodes0, yVec, p.T) && t < p.T
    ensures Extends(nodes0, nodes) && |oVec| == p.nPo && forall k :: 0 <= k < p.nPo ==> Chosen(p, nodes, oVec[k], t, t, k)
  {
    nodes := nodes0;
    oVec := FirstBlock(p, nodes, yVec, t);
    for j := 0 to t
      invariant Extends(nodes0, nodes) && Blocks(p, nodes, yVec, p.T) && PinsFirst(p, nodes)
      invariant |oVec| == p.nPo && forall k :: 0 <= k < p.nPo ==> Chosen(p, nodes, oVec[k], t, j, k)
    {
      ghost var nodes1 := nodes;
      nodes, oVec := ChooseBlock(p, nodes, yVec, t, j, oVec);
      assert forall k :: 0 <= k < p.nPo ==> PinChosen(p, nodes, oVec[k], t, j, p.nPo, k);
      ExtendsTrans(nodes0, nodes1, nodes);
      BlocksKept(p, nodes1, nodes, yVec, p.T);
      PinsStay(p, nodes1, nodes);
    }
  }

  method FirstBlock(p: Ctx, ghost nodes: seq<Node>, yVec: seq<Edge>, t: nat) returns (oVec: seq<Edge>)
    requires GoodCtx(p) && Ordered(nodes) && Blocks(p, nodes, yVec, p.T) && t < p.T
    ensures |oVec| == p.nPo && forall k :: 0 <= k < p.nPo ==> Chosen(p, nodes, oVec[k], t, 0, k)
  {
    oVec := [];
    for k := 0 to p.nPo
      invariant |oVec| == k && forall l :: 0 <= l < k ==> Chosen(p, nodes, oVec[l], t, 0, l)
    {
      FirstChoice(p, nodes, yVec, t, k);
      oVec := oVec + [yVec[Cell(t, p.nPo) + k]];
    }
  }

  /** The pins below `k` have passed multiplexer `j`. */
  ghost predicate HalfChosen(p: Ctx, nodes: seq<Node>, oVec: seq<Edge>, t: nat, j: nat, k: nat)
    requires GoodCtx(p) && Ordered(nodes) && j < t < p.T
  {
    |oVec| == p.nPo && forall l :: 0 <= l < p.nPo ==> PinChosen(p, nodes, oVec[l], t, j, k, l)
  }

  ghost predicate PinChosen(p: Ctx, nodes: seq<Node>, e: Edge, t: nat, j: nat, k: nat, l: nat)
    requires GoodCtx(p) && Ordered(nodes) && j < t < p.T && l < p.nPo
  {
    Chosen(p, nodes, e, t, if l < k then j + 1 else j, l)
  }

  method ChooseBlock(p: Ctx, nodes0: seq<Node>, yVec: seq<Edge>, t: nat, j: nat, oVec0: seq<Edge>) returns (nodes: seq<Node>, oVec: seq<Edge>)
    requires GoodCtx(p) && Ordered(nodes0) && PinsFirst(p, nodes0) && Blocks(p, nodes0, yVec, p.T) && j < t < p.T
    requires |oVec0| == p.nPo && forall k :: 0 <= k < p.nPo ==> Chosen(p, nodes0, oVec0[k], t, j, k)
    ensures Extends(nodes0, nodes) && HalfChosen(p, nodes, oVec, t, j, p.nPo)
  {
    nodes, oVec := nodes0, oVec0;
    var jj := j + 1;
    var tt := t - jj;
    Offset(p.T, jj);
    var offset := (2 * p.T - jj + 1) * jj / 2;
    for k := 0 to p.nPo
      invariant Extends(nodes0, nodes) && |oVec| == p.nPo && PinsFirst(p, nodes)
      invariant HalfChosen(p, nodes, oVec, t, j, k)
    {
      var i := Cell(offset + tt, p.nPo) + k;
      ChooseOne(p, nodes0, nodes, yVec, oVec, t, j, k);
      var (nodes2, o) := MkMux(nodes, ResetPin(p, j), yVec[i], oVec[k]);
      ExtendsTrans(nodes0, nodes, nodes2);
      PinsStay(p, nodes, nodes2);
      nodes, oVec := nodes2, oVec[k := o];
    }
  }

  lemma ChooseOne(p: Ctx, nodes0: seq<Node>, nodes: seq<Node>, yVec: seq<Edge>, oVec: seq<Edge>, t: nat, j: nat, k: nat)
    requires GoodCtx(p) && Ordered(nodes0) && Extends(nodes0, nodes) && PinsFirst(p, nodes) && Blocks(p, nodes0, yVec, p.T) && j < t < p.T
    requires k < p.nPo && HalfChosen(p, nodes, oVec, t, j, k)
    ensures var i := Cell(Start(p.T, j + 1) + (t - (j + 1)), p.nPo) + k;
            i < |yVec| &&
            var (nodes2, o) := MkMux(nodes, ResetPin(p, j), yVec[i], oVec[k]);
            Extends(nodes, nodes2) && HalfChosen(p, nodes2, oVec[k := o], t, j, k + 1)
  {
    var i := Cell(Start(p.T, j + 1) + (t - (j + 1)), p.nPo) + k;
    BlocksKept(p, nodes0, nodes, yVec, p.T);
    assert BlockEntry(p, nodes, yVec, j + 1, t - (j + 1), k);
    assert PinChosen(p, nodes, oVec[k], t, j, k, k);
    ChooseNext(p, nodes, oVec[k], yVec[i], t, j, k);
    var (nodes2, o) := MkMux(nodes, ResetPin(p, j), yVec[i], oVec[k]);
    var oVec2 := oVec[k := o];
    forall l | 0 <= l < p.nPo ensures PinChosen(p, nodes2, oVec2[l], t, j, k + 1, l) {
      if l != k {
        assert PinChosen(p, nodes, oVec[l], t, j, k, l);
        ChosenKept(p, nodes, nodes2, oVec[l], t, if l < k then j + 1 else j, l);
      }
    }
  }

  // ----- the result -----

  /** Output k of frame t is the original's, restarted after the latest asserted reset before t. */
  ghost predicate Restarted(p: Ctx, nodes: seq<Node>, pos: seq<Edge>)
    requires GoodCtx(p)
  {
    && Ordered(nodes) && |pos| == Cell(p.T, p.nPo)
    && forall t: nat, k: nat :: t < p.T && k < p.nPo ==> OutputChosen(p, nodes, pos, t, k)
  }

  ghost predicate OutputChosen(p: Ctx, nodes: seq<Node>, pos: seq<Edge>, t: nat, k: nat)
    requires GoodCtx(p) && Ordered(nodes) && t < p.T && k < p.nPo
  {
    var o := Cell(t, p.nPo) + k;
    o < |pos| && Chosen(p, nodes, pos[o], t, t, k)
  }

  lemma FrameAdded(p: Ctx, nodes: seq<Node>, nodes2: seq<Node>, pos: seq<Edge>, oVec: seq<Edge>, t: nat)
    requires GoodCtx(p) && Ordered(nodes) && Extends(nodes, nodes2) && t < p.T && |pos| == Cell(t, p.nPo) && |oVec| == p.nPo
    requires forall u: nat, k: nat :: u < t && k < p.nPo ==> OutputChosen(p, nodes, pos, u, k)
    requires forall k :: 0 <= k < p.nPo ==> Chosen(p, nodes2, oVec[k], t, t, k)
    ensures forall u: nat, k: nat :: u < t + 1 && k < p.nPo ==> OutputChosen(p, nodes2, pos + oVec, u, k)
  {
    var t1, pos2 := t + 1, pos + oVec;
    forall u: nat, k: nat | u < t1 && k < p.nPo ensures OutputChosen(p, nodes2, pos2, u, k) {
      if u < t {
        assert OutputChosen(p, nodes, pos, u, k);
        ChosenKept(p, nodes, nodes2, pos[Cell(u, p.nPo) + k], u, u, k);
      }
    }
  }

  method TimeCas(p: Ctx) returns (nodes: seq<Node>, pos: seq<Edge>)
    requires GoodCtx(p)
    ensures PinsFirst(p, nodes) && Restarted(p, nodes, pos)
  {
    var yVec;
    nodes, yVec := BuildCopies(p);
    pos := [];
    for t := 0 to p.T
      invariant Ordered(nodes) && PinsFirst(p, nodes) && Blocks(p, nodes, yVec, p.T) && |pos| == Cell(t, p.nPo)
      invariant forall u: nat, k: nat :: u < t && k < p.nPo ==> OutputChosen(p, nodes, pos, u, k)
    {
      ghost var nodes0 := nodes;
      var oVec;
      nodes, oVec := ChooseFrame(p, nodes, yVec, t);
      BlocksKept(p, nodes0, nodes, yVec, p.T);
      PinsStay(p, nodes0, nodes);
      FrameAdded(p, nodes0, nodes, pos, oVec, t);
      pos := pos + oVec;
    }
  }
}
