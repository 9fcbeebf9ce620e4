/** buildPoFuncs (timeMux4/aigMux4.cpp): each output pin of the folded network selects, by the
    timer, the original output recorded for the current frame. */
module FoldOutputs {
  import opened Aig
  import opened Frames
  import opened FoldSpec
  import opened StruFold

  // ----- sorting the outputs of a frame -----

  function InsertInfo(s: seq<Info>, e: Info): seq<Info> {
    if s == [] || e.0 < s[0].0 then [e] + s else [s[0]] + InsertInfo(s[1..], e)
  }

  /** std::sort on (output index, edge) pairs; the indices of a frame are distinct. */
  function SortInfos(s: seq<Info>): seq<Info> {
    if s == [] then [] else InsertInfo(SortInfos(s[..|s| - 1]), s[|s| - 1])
  }

  predicate Ascending(s: seq<Info>) {
    forall i, j :: 0 <= i < j < |s| ==> s[i].0 < s[j].0
  }

  lemma {:induction false} InsertInfoOk(s: seq<Info>, e: Info)
    requires Ascending(s) && forall i :: 0 <= i < |s| ==> s[i].0 != e.0
    ensures var r := InsertInfo(s, e);
            Ascending(r) && |r| == |s| + 1 && forall d :: d in r <==> d == e || d in s
  {
    var r := InsertInfo(s, e);
    if s == [] || e.0 < s[0].0 {
    } else {
      InsertInfoOk(s[1..], e);
      assert s == [s[0]] + s[1..];
      assert forall d :: d in InsertInfo(s[1..], e) ==> d.0 > s[0].0;
    }
  }

  lemma {:induction false} SortInfosOk(s: seq<Info>)
    requires forall i, j :: 0 <= i < j < |s| ==> s[i].0 != s[j].0
    ensures Ascending(SortInfos(s)) && |SortInfos(s)| == |s| && forall d :: d in SortInfos(s) <==> d in s
  {
    if s != [] {
      var front, last := s[..|s| - 1], s[|s| - 1];
      SortInfosOk(front);
      forall i | 0 <= i < |front| ensures SortInfos(front)[i].0 != last.0 {
        assert SortInfos(front)[i] in front;
      }
      InsertInfoOk(SortInfos(front), last);
      assert s == front + [last];
    }
  }

  function PositionOf(s: seq<Info>, k: nat): (i: nat) {
    if s == [] || s[0].0 == k then 0 else 1 + PositionOf(s[1..], k)
  }

  lemma {:induction false} PositionOfKey(s: seq<Info>, k: nat)
    requires exists d :: d in s && d.0 == k
    ensures PositionOf(s, k) < |s| && s[PositionOf(s, k)].0 == k
  {
    if s[0].0 != k {
      var d :| d in s && d.0 == k;
      assert d in s[1..];
      PositionOfKey(s[1..], k);
    }
  }

  lemma SortFrame(infos: seq<seq<Info>>, spot: map<nat, (nat, nat)>, t: nat)
    requires Recorded(infos, spot) && t < |infos|
    ensures Ascending(SortInfos(infos[t])) && |SortInfos(infos[t])| == |infos[t]|
    ensures forall d :: d in SortInfos(infos[t]) <==> d in infos[t]
  {
    var s := infos[t];
    forall i, j | 0 <= i < j < |s| ensures s[i].0 != s[j].0 {
      assert spot[s[i].0] == (t, i) && spot[s[j].0] == (t, j);
    }
    SortInfosOk(s);
  }

  ghost function Respot(spot: map<nat, (nat, nat)>, t: nat, r: seq<Info>): map<nat, (nat, nat)> {
    map k | k in spot :: if spot[k].0 == t then (t, PositionOf(r, k)) else spot[k]
  }

  lemma SortRecorded(infos: seq<seq<Info>>, spot: map<nat, (nat, nat)>, t: nat, r: seq<Info>)
    requires Recorded(infos, spot) && t < |infos| && Ascending(r)
    requires forall d :: d in r <==> d in infos[t]
    ensures Recorded(infos[t := r], Respot(spot, t, r))
  {
    var spot2 := Respot(spot, t, r);
    forall k | k in spot && spot[k].0 == t ensures PositionOf(r, k) < |r| && r[PositionOf(r, k)].0 == k {
      assert infos[t][spot[k].1] in r;
      PositionOfKey(r, k);
    }
    forall i | 0 <= i < |r| ensures r[i].0 in spot2 && spot2[r[i].0] == (t, i) {
      assert r[i] in infos[t];
      PositionOfKey(r, r[i].0);
    }
  }

  // ----- selecting by the timer -----

  /** In frame `u` pin `i` shows the `i`-th recorded output, if frame `u` is among the first `t`. */
  ghost predicate Shown(nodes: seq<Node>, infos: seq<seq<Info>>, lat: seq<bool>, pi: seq<bool>, i: nat, t: nat, u: nat)
    requires Ordered(nodes) && u < |infos|
  {
    u < t && i < |infos[u]| && infos[u][i].1.node < |nodes| && EvE(nodes, lat, pi, infos[u][i].1)
  }

  ghost predicate Selects(nodes: seq<Node>, infos: seq<seq<Info>>, e: Edge, i: nat, t: nat)
    requires Ordered(nodes)
  {
    e.node < |nodes| &&
    forall lat, pi, u: nat :: u < |infos| && OneHot(lat, u, |infos|) ==> EvE(nodes, lat, pi, e) == Shown(nodes, infos, lat, pi, i, t, u)
  }

  ghost predicate EdgesIn(nodes: seq<Node>, infos: seq<seq<Info>>) {
    forall u, i :: 0 <= u < |infos| && 0 <= i < |infos[u]| ==> infos[u][i].1.node < |nodes|
  }

  lemma SelectsKept(nodes: seq<Node>, nodes2: seq<Node>, infos: seq<seq<Info>>, e: Edge, i: nat, t: nat)
    requires Ordered(nodes) && Extends(nodes, nodes2) && EdgesIn(nodes, infos) && Selects(nodes, infos, e, i, t)
    ensures Selects(nodes2, infos, e, i, t)
  {
    forall lat, pi, u: nat | u < |infos| && OneHot(lat, u, |infos|)
      ensures EvE(nodes2, lat, pi, e) == Shown(nodes2, infos, lat, pi, i, t, u)
    {
      EvEPrefix(nodes, nodes2, lat, pi, e);
      if i < |infos[u]| {
        EvEPrefix(nodes, nodes2, lat, pi, infos[u][i].1);
      }
    }
  }

  /** A pin that also shows `e` while the control is set. */
  function AddFrame(nodes: seq<Node>, pin: Edge, ctrl: Edge, e: Edge): (seq<Node>, Edge) {
    var (nodes1, g) := MkAnd(nodes, ctrl, e);
    MkOr(nodes1, pin, g)
  }

  lemma AddFrameOk(x: Ctx, f: Fold, infos: seq<seq<Info>>, pin: Edge, i: nat, t: nat)
    requires GoodFold(x, f) && |infos| == x.T && t < x.T && i < |infos[t]| && EdgesIn(f.net.nodes, infos)
    requires Selects(f.net.nodes, infos, pin, i, t)
    ensures var (nodes2, pin2) := AddFrame(f.net.nodes, pin, Edge(f.bo[t], false), infos[t][i].1);
            Extends(f.net.nodes, nodes2) && Selects(nodes2, infos, pin2, i, t + 1)
  {
    var nodes, ctrl, e := f.net.nodes, Edge(f.bo[t], false), infos[t][i].1;
    MkAndOk(nodes, ctrl, e);
    var (nodes1, g) := MkAnd(nodes, ctrl, e);
    MkOrOk(nodes1, pin, g);
    var (nodes2, pin2) := MkOr(nodes1, pin, g);
    ExtendsTrans(nodes, nodes1, nodes2);
    forall lat, pi, u: nat | u < |infos| && OneHot(lat, u, |infos|)
      ensures EvE(nodes2, lat, pi, pin2) == Shown(nodes2, infos, lat, pi, i, t + 1, u)
    {
      EvEPrefix(nodes, nodes1, lat, pi, pin);
      assert EvE(nodes, lat, pi, ctrl) == (u == t);
      if i < |infos[u]| {
        EvEPrefix(nodes, nodes2, lat, pi, infos[u][i].1);
      }
    }
  }

  // ----- the whole construction -----

  /** Frames below `t` and the first `j` outputs of frame `t` are connected; frames below `s` are sorted. */
  ghost predicate Building(x: Ctx, f: Fold, infos: seq<seq<Info>>, spot: map<nat, (nat, nat)>, nPo: nat,
                           poVec: seq<Edge>, perm: seq<int>, t: nat, j: nat, s: nat)
  {
    && GoodFold(x, f) && |infos| == x.T && |perm| == |x.c.pos| && |poVec| == nPo
    && (forall u :: 0 <= u < x.T ==> InfosOk(x, f, u, infos[u]) && |infos[u]| <= nPo)
    && Recorded(infos, spot) && (forall k: nat :: k in spot <==> k < |x.c.pos|)
    && (forall i :: 0 <= i < nPo ==> Selects(f.net.nodes, infos, poVec[i], i, if i < j then t + 1 else t))
    && AllPlaced(infos, perm, nPo, t, j)
    && (forall u :: 0 <= u < s && u < x.T ==> Ascending(infos[u]))
  }

  predicate AllPlaced(infos: seq<seq<Info>>, perm: seq<int>, nPo: nat, t: nat, j: nat) {
    forall u: nat, i: nat :: u < |infos| && i < |infos[u]| && Before(u, i, t, j) ==> Placed(infos, perm, nPo, u, i)
  }

  predicate Before(u: nat, i: nat, t: nat, j: nat) {
    u < t || (u == t && i < j)
  }

  /** oPerm records where output `infos[u][i]` went. */
  predicate Placed(infos: seq<seq<Info>>, perm: seq<int>, nPo: nat, u: nat, i: nat)
    requires u < |infos| && i < |infos[u]|
  {
    infos[u][i].0 < |perm| && perm[infos[u][i].0] == Cell(u, nPo) + i
  }

  lemma InfosInNodes(x: Ctx, f: Fold, infos: seq<seq<Info>>)
    requires GoodFold(x, f) && |infos| == x.T && forall u :: 0 <= u < x.T ==> InfosOk(x, f, u, infos[u])
    ensures EdgesIn(f.net.nodes, infos)
  {
    forall u, i | 0 <= u < |infos| && 0 <= i < |infos[u]| ensures infos[u][i].1.node < |f.net.nodes| {
      assert InfosOk(x, f, u, infos[u]);
      assert InfoOk(x, f, u, infos[u][i]);
    }
  }

  lemma InfosOkAppend(x: Ctx, f: Fold, nodes2: seq<Node>, u: nat, infos: seq<Info>)
    requires GoodFold(x, f) && Extends(f.net.nodes, nodes2) && u < x.T && InfosOk(x, f, u, infos)
    ensures GoodFold(x, f.(net := f.net.(nodes := nodes2)))
    ensures InfosOk(x, f.(net := f.net.(nodes := nodes2)), u, infos)
  {
    AppendKeeps(x, f, nodes2);
    forall i | 0 <= i < |infos| ensures InfoOk(x, f.(net := f.net.(nodes := nodes2)), u, infos[i]) {
      assert InfoOk(x, f, u, infos[i]);
    }
  }

  lemma BuildStep(x: Ctx, f: Fold, infos: seq<seq<Info>>, spot: map<nat, (nat, nat)>, nPo: nat,
                  poVec: seq<Edge>, perm: seq<int>, t: nat, j: nat)
    requires Building(x, f, infos, spot, nPo, poVec, perm, t, j, t + 1) && t < x.T && j < |infos[t]|
    ensures j < |poVec| && t < |f.bo| && infos[t][j].0 < |perm|
    ensures var (nodes2, pin2) := AddFrame(f.net.nodes, poVec[j], Edge(f.bo[t], false), infos[t][j].1);
            Building(x, f.(net := f.net.(nodes := nodes2)), infos, spot, nPo, poVec[j := pin2],
                     perm[infos[t][j].0 := Cell(t, nPo) + j], t, j + 1, t + 1)
  {
    InfosInNodes(x, f, infos);
    assert |infos[t]| <= nPo;
    AddFrameOk(x, f, infos, poVec[j], j, t);
    var (nodes2, pin2) := AddFrame(f.net.nodes, poVec[j], Edge(f.bo[t], false), infos[t][j].1);
    var f2, poVec2 := f.(net := f.net.(nodes := nodes2)), poVec[j := pin2];
    AppendKeeps(x, f, nodes2);
    forall u | 0 <= u < x.T ensures InfosOk(x, f2, u, infos[u]) {
      InfosOkAppend(x, f, nodes2, u, infos[u]);
    }
    forall i | 0 <= i < nPo ensures Selects(nodes2, infos, poVec2[i], i, if i < j + 1 then t + 1 else t) {
      if i != j {
        SelectsKept(f.net.nodes, nodes2, infos, poVec[i], i, if i < j then t + 1 else t);
      }
    }
    PlaceOne(x, infos, spot, nPo, perm, t, j);
  }

  lemma PlaceOne(x: Ctx, infos: seq<seq<Info>>, spot: map<nat, (nat, nat)>, nPo: nat, perm: seq<int>, t: nat, j: nat)
    requires |infos| == x.T && t < x.T && j < |infos[t]| && |perm| == |x.c.pos|
    requires Recorded(infos, spot) && (forall k: nat :: k in spot <==> k < |x.c.pos|)
    requires AllPlaced(infos, perm, nPo, t, j)
    ensures infos[t][j].0 < |perm| && AllPlaced(infos, perm[infos[t][j].0 := Cell(t, nPo) + j], nPo, t, j + 1)
  {
    assert spot[infos[t][j].0] == (t, j);
    var j1 := j + 1;
    forall u: nat, i: nat | u < |infos| && i < |infos[u]| && Before(u, i, t, j1)
      ensures Placed(infos, perm[infos[t][j].0 := Cell(t, nPo) + j], nPo, u, i)
    {
      assert spot[infos[u][i].0] == (u, i);
      if Before(u, i, t, j) {
        assert Placed(infos, perm, nPo, u, i);
      }
    }
  }

  lemma BuildNextFrame(x: Ctx, f: Fold, infos: seq<seq<Info>>, spot: map<nat, (nat, nat)>, nPo: nat,
                       poVec: seq<Edge>, perm: seq<int>, t: nat)
    requires t < x.T && |infos| == x.T && Building(x, f, infos, spot, nPo, poVec, perm, t, |infos[t]|, t + 1)
    ensures Building(x, f, infos, spot, nPo, poVec, perm, t + 1, 0, t + 1)
  {
    forall i | 0 <= i < nPo ensures Selects(f.net.nodes, infos, poVec[i], i, t + 1) {
      if i >= |infos[t]| {
        assert Selects(f.net.nodes, infos, poVec[i], i, t);
        forall lat, pi, u: nat | u < |infos| && OneHot(lat, u, |infos|)
          ensures Shown(f.net.nodes, infos, lat, pi, i, t + 1, u) == Shown(f.net.nodes, infos, lat, pi, i, t, u)
        {}
      }
    }
  }

  lemma SortedInfosOk(x: Ctx, f: Fold, t: nat, s: seq<Info>, r: seq<Info>)
    requires GoodFold(x, f) && InfosOk(x, f, t, s) && forall d :: d in r <==> d in s
    ensures InfosOk(x, f, t, r)
  {
    forall i | 0 <= i < |r| ensures InfoOk(x, f, t, r[i]) {
      assert r[i] in s;
    }
  }

  /** Frames from `t` on do not matter yet. */
  lemma SelectsLater(nodes: seq<Node>, infos: seq<seq<Info>>, r: seq<Info>, e: Edge, i: nat, t: nat)
    requires Ordered(nodes) && t < |infos| && Selects(nodes, infos, e, i, t)
    ensures Selects(nodes, infos[t := r], e, i, t)
  {
    var infos2 := infos[t := r];
    forall lat, pi, u: nat | u < |infos2| && OneHot(lat, u, |infos2|)
      ensures EvE(nodes, lat, pi, e) == Shown(nodes, infos2, lat, pi, i, t, u)
    {
      assert Shown(nodes, infos2, lat, pi, i, t, u) == Shown(nodes, infos, lat, pi, i, t, u);
    }
  }

  lemma PlacedLater(infos: seq<seq<Info>>, r: seq<Info>, perm: seq<int>, nPo: nat, t: nat)
    requires t < |infos| && AllPlaced(infos, perm, nPo, t, 0)
    ensures AllPlaced(infos[t := r], perm, nPo, t, 0)
  {
    var infos2 := infos[t := r];
    forall u: nat, i: nat | u < |infos2| && i < |infos2[u]| && Before(u, i, t, 0) ensures Placed(infos2, perm, nPo, u, i) {
      assert Placed(infos, perm, nPo, u, i);
    }
  }

  lemma BuildSort(x: Ctx, f: Fold, infos: seq<seq<Info>>, spot: map<nat, (nat, nat)>, nPo: nat,
                  poVec: seq<Edge>, perm: seq<int>, t: nat)
      returns (spot2: map<nat, (nat, nat)>)
    requires t < x.T && Building(x, f, infos, spot, nPo, poVec, perm, t, 0, t)
    ensures Building(x, f, infos[t := SortInfos(infos[t])], spot2, nPo, poVec, perm, t, 0, t + 1)
    ensures spot2.Keys == spot.Keys && forall k :: k in spot ==> spot2[k].0 == spot[k].0
  {
    var r := SortInfos(infos[t]);
    SortFrame(infos, spot, t);
    SortRecorded(infos, spot, t, r);
    spot2 := Respot(spot, t, r);
    assert InfosOk(x, f, t, infos[t]);
    SortedInfosOk(x, f, t, infos[t], r);
    forall i | 0 <= i < nPo ensures Selects(f.net.nodes, infos[t := r], poVec[i], i, t) {
      SelectsLater(f.net.nodes, infos, r, poVec[i], i, t);
    }
    PlacedLater(infos, r, perm, nPo, t);
  }

  /** Before the first frame every pin is constant false. */
  lemma BuildBegins(x: Ctx, f: Fold, infos: seq<seq<Info>>, spot: map<nat, (nat, nat)>, vis: Visits, nPo: nat, perm: seq<int>)
    requires GoodFold(x, f) && x.T > 0 && InfosAll(x, f, x.T - 1, infos, spot, vis) && |perm| == |x.c.pos|
    requires forall k: nat :: k in spot <==> k < |x.c.pos|
    requires forall u :: 0 <= u < |infos| ==> |infos[u]| <= nPo
    ensures Building(x, f, infos, spot, nPo, seq(nPo, _ => Edge(0, true)), perm, 0, 0, 0)
  {}

  // ----- what the folded network promises -----

  /** Output `k` of the original appears at frame oPerm[k] / nPo on pin oPerm[k] % nPo, for every
      input; different outputs never share a place; places nobody uses are constant false. */
  ghost predicate Folded(c: Comb, nPi: nat, T: nat, net: Net, oPerm: seq<int>)
  {
    && GoodComb(c) && GoodNet(net) && |oPerm| == |c.pos|
    && (forall k: nat :: k < |c.pos| ==> ShownAt(c, nPi, T, net, oPerm, k))
    && (forall k, m :: 0 <= k < m < |c.pos| ==> oPerm[k] != oPerm[m])
    && (forall u: nat, i: nat :: u < T && i < |net.pos| && Cell(u, |net.pos|) + i !in oPerm ==> AlwaysFalse(net, nPi, u, i))
  }

  ghost predicate ShownAt(c: Comb, nPi: nat, T: nat, net: Net, oPerm: seq<int>, k: nat)
    requires GoodComb(c) && GoodNet(net) && k < |c.pos| == |oPerm|
  {
    && |net.pos| > 0 && 0 <= oPerm[k] < Cell(T, |net.pos|)
    && forall x :: RunOut(net, x, nPi, oPerm[k] / |net.pos|, oPerm[k] % |net.pos|) == CombOut(c, x, k)
  }

  ghost predicate AlwaysFalse(net: Net, nPi: nat, u: nat, i: nat)
    requires GoodNet(net) && i < |net.pos|
  {
    forall x :: !RunOut(net, x, nPi, u, i)
  }

  /** Outputs of the same frame keep their original order. */
  ghost predicate FramesAscend(T: nat, nPo: nat, oPerm: seq<int>) {
    forall k, m, u: nat :: 0 <= k < m < |oPerm| && u < T && InFrame(u, nPo, oPerm[k]) && InFrame(u, nPo, oPerm[m]) ==> oPerm[k] < oPerm[m]
  }

  lemma {:induction false} StatePos(net: Net, pos2: seq<Edge>, x: seq<bool>, nPi: nat, t: nat)
    requires GoodNet(net) && GoodNet(net.(pos := pos2))
    ensures State(net.(pos := pos2), x, nPi, t) == State(net, x, nPi, t)
  {
    if t > 0 {
      StatePos(net, pos2, x, nPi, t - 1);
    }
  }

  lemma PinValue(x: Ctx, f: Fold, infos: seq<seq<Info>>, poVec: seq<Edge>, u: nat, i: nat, v: seq<bool>)
    requires GoodFold(x, f) && |infos| == x.T && u < x.T && i < |poVec|
    requires forall l :: 0 <= l < |poVec| ==> Selects(f.net.nodes, infos, poVec[l], l, x.T)
    ensures GoodNet(f.net.(pos := poVec))
    ensures RunOut(f.net.(pos := poVec), v, x.nPi, u, i) ==
            Shown(f.net.nodes, infos, State(f.net, v, x.nPi, u), Slice(v, u, x.nPi), i, x.T, u)
  {
    forall l | 0 <= l < |poVec| ensures poVec[l].node < |f.net.nodes| {
      assert Selects(f.net.nodes, infos, poVec[l], l, x.T);
    }
    StatePos(f.net, poVec, v, x.nPi, u);
    TimerRuns(f.net, f.bo, x.nPi, x.T, v, u);
    assert Selects(f.net.nodes, infos, poVec[i], i, x.T);
  }

  lemma PinPlace(x: Ctx, f: Fold, infos: seq<seq<Info>>, spot: map<nat, (nat, nat)>, poVec: seq<Edge>, perm: seq<int>, k: nat)
    requires Building(x, f, infos, spot, |poVec|, poVec, perm, x.T, 0, x.T) && k < |x.c.pos|
    ensures k in spot && spot[k].0 < x.T && spot[k].1 < |infos[spot[k].0]| <= |poVec|
    ensures perm[k] == Cell(spot[k].0, |poVec|) + spot[k].1
    ensures infos[spot[k].0][spot[k].1].0 == k && InfoOk(x, f, spot[k].0, infos[spot[k].0][spot[k].1])
  {
    var (u, i) := spot[k];
    assert infos[u][i].0 == k && |infos[u]| <= |poVec|;
    assert Before(u, i, x.T, 0);
    assert Placed(infos, perm, |poVec|, u, i);
    assert InfosOk(x, f, u, infos[u]);
  }

  lemma PinRun(x: Ctx, f: Fold, infos: seq<seq<Info>>, poVec: seq<Edge>, u: nat, i: nat)
    requires GoodFold(x, f) && |infos| == x.T && u < x.T && i < |poVec| && i < |infos[u]|
    requires forall l :: 0 <= l < |poVec| ==> Selects(f.net.nodes, infos, poVec[l], l, x.T)
    requires InfoOk(x, f, u, infos[u][i])
    ensures GoodNet(f.net.(pos := poVec))
    ensures forall v :: RunOut(f.net.(pos := poVec), v, x.nPi, u, i) == CombOut(x.c, v, infos[u][i].0)
  {
    PinValue(x, f, infos, poVec, u, i, []);
    forall v ensures RunOut(f.net.(pos := poVec), v, x.nPi, u, i) == CombOut(x.c, v, infos[u][i].0) {
      PinValue(x, f, infos, poVec, u, i, v);
    }
  }

  lemma PinShows(x: Ctx, f: Fold, infos: seq<seq<Info>>, spot: map<nat, (nat, nat)>, poVec: seq<Edge>, perm: seq<int>, k: nat)
    requires Building(x, f, infos, spot, |poVec|, poVec, perm, x.T, 0, x.T) && k < |x.c.pos|
    requires GoodNet(f.net.(pos := poVec))
    ensures ShownAt(x.c, x.nPi, x.T, f.net.(pos := poVec), perm, k)
  {
    PinPlace(x, f, infos, spot, poVec, perm, k);
    PinRun(x, f, infos, poVec, spot[k].0, spot[k].1);
    CellDiv(spot[k].0, |poVec|, spot[k].1);
    CellMonotone(spot[k].0, x.T, |poVec|);
  }

  lemma PinsValid(nodes: seq<Node>, infos: seq<seq<Info>>, poVec: seq<Edge>, t: nat)
    requires Ordered(nodes) && forall l :: 0 <= l < |poVec| ==> Selects(nodes, infos, poVec[l], l, t)
    ensures forall l :: 0 <= l < |poVec| ==> poVec[l].node < |nodes|
  {
    forall l | 0 <= l < |poVec| ensures poVec[l].node < |nodes| {
      assert Selects(nodes, infos, poVec[l], l, t);
    }
  }

  lemma PinsDiffer(x: Ctx, f: Fold, infos: seq<seq<Info>>, spot: map<nat, (nat, nat)>, poVec: seq<Edge>, perm: seq<int>, k: nat, m: nat)
    requires Building(x, f, infos, spot, |poVec|, poVec, perm, x.T, 0, x.T) && k < m < |x.c.pos|
    ensures perm[k] != perm[m]
  {
    PinPlace(x, f, infos, spot, poVec, perm, k);
    PinPlace(x, f, infos, spot, poVec, perm, m);
    CellDiv(spot[k].0, |poVec|, spot[k].1);
    CellDiv(spot[m].0, |poVec|, spot[m].1);
  }

  lemma BuildDone(x: Ctx, f: Fold, infos: seq<seq<Info>>, spot: map<nat, (nat, nat)>, poVec: seq<Edge>, perm: seq<int>)
    requires Building(x, f, infos, spot, |poVec|, poVec, perm, x.T, 0, x.T) && x.T > 0
    ensures Folded(x.c, x.nPi, x.T, f.net.(pos := poVec), perm)
  {
    var net := f.net.(pos := poVec);
    PinsValid(f.net.nodes, infos, poVec, x.T);
    assert GoodNet(net);
    forall k: nat | k < |x.c.pos| ensures ShownAt(x.c, x.nPi, x.T, net, perm, k) {
      PinShows(x, f, infos, spot, poVec, perm, k);
    }
    forall k, m | 0 <= k < m < |x.c.pos| ensures perm[k] != perm[m] {
      PinsDiffer(x, f, infos, spot, poVec, perm, k, m);
    }
    forall u: nat, i: nat | u < x.T && i < |poVec| && Cell(u, |poVec|) + i !in perm ensures AlwaysFalse(net, x.nPi, u, i) {
      UnusedPin(x, f, infos, spot, poVec, perm, u, i);
    }
  }

  lemma BuildAscends(x: Ctx, f: Fold, infos: seq<seq<Info>>, spot: map<nat, (nat, nat)>, poVec: seq<Edge>, perm: seq<int>)
    requires Building(x, f, infos, spot, |poVec|, poVec, perm, x.T, 0, x.T)
    ensures FramesAscend(x.T, |poVec|, perm)
  {
    forall k: nat | k < |perm| ensures spot[k].1 < |poVec| && perm[k] == Cell(spot[k].0, |poVec|) + spot[k].1 {
      PinPlace(x, f, infos, spot, poVec, perm, k);
    }
    Ascends(x, infos, spot, |poVec|, perm);
  }

  lemma UnusedPin(x: Ctx, f: Fold, infos: seq<seq<Info>>, spot: map<nat, (nat, nat)>, poVec: seq<Edge>, perm: seq<int>, u: nat, i: nat)
    requires Building(x, f, infos, spot, |poVec|, poVec, perm, x.T, 0, x.T) && u < x.T && i < |poVec|
    requires Cell(u, |poVec|) + i !in perm
    ensures GoodNet(f.net.(pos := poVec)) && AlwaysFalse(f.net.(pos := poVec), x.nPi, u, i)
  {
    assert i < |infos[u]| ==> Placed(infos, perm, |poVec|, u, i) by {
      assert Before(u, i, x.T, 0);
    }
    forall v ensures GoodNet(f.net.(pos := poVec)) && !RunOut(f.net.(pos := poVec), v, x.nPi, u, i) {
      PinValue(x, f, infos, poVec, u, i, v);
    }
  }

  lemma Ascends(x: Ctx, infos: seq<seq<Info>>, spot: map<nat, (nat, nat)>, nPo: nat, perm: seq<int>)
    requires |infos| == x.T && |perm| == |x.c.pos| && Recorded(infos, spot) && (forall k: nat :: k in spot <==> k < |x.c.pos|)
    requires forall k: nat :: k < |perm| ==> spot[k].1 < nPo && perm[k] == Cell(spot[k].0, nPo) + spot[k].1
    requires forall u :: 0 <= u < x.T ==> Ascending(infos[u])
    ensures FramesAscend(x.T, nPo, perm)
  {
    forall k, m, u: nat | 0 <= k < m < |perm| && u < x.T && InFrame(u, nPo, perm[k]) && InFrame(u, nPo, perm[m]) ensures perm[k] < perm[m] {
      FrameUnique(u, spot[k].0, nPo, perm[k]);
      FrameUnique(u, spot[m].0, nPo, perm[m]);
      assert infos[u][spot[k].1].0 == k && infos[u][spot[m].1].0 == m;
    }
  }
}
