/** The two-watch scheme: what propagate does to one clause (memin/minisat/core/Solver.cpp). */
module SatWatch {
  import opened SatState
  import opened SatTrail

  // ----- reordering the literals of a clause -----

  /** The same literals in another order. */
  ghost predicate Reorders(lits: seq<Lit>, lits2: seq<Lit>) {
    && |lits| == |lits2|
    && (forall k :: 0 <= k < |lits| ==> lits[k] in lits2)
    && (forall k :: 0 <= k < |lits2| ==> lits2[k] in lits)
    && (forall k, l :: 0 <= k < l < |lits2| ==> lits2[k].v != lits2[l].v)
  }

  function Relit(ca: seq<Clause>, cr: nat, lits2: seq<Lit>): seq<Clause>
    requires cr < |ca|
  {
    ca[cr := ca[cr].(lits := lits2)]
  }

  lemma ReorderSat(a: Asg, lits: seq<Lit>, lits2: seq<Lit>, level: nat)
    requires |a.level| == |a.assigns| && Reorders(lits, lits2) && SatAt(a, lits, level)
    ensures SatAt(a, lits2, level)
  {
    var k :| 0 <= k < |lits| && VarOk(a, lits[k]) && Value(a.assigns, lits[k]) == LTrue && a.level[lits[k].v] <= level;
    assert lits[k] in lits2;
    var l :| 0 <= l < |lits2| && lits2[l] == lits[k];
  }

  lemma ReorderDb(n: nat, ca: seq<Clause>, cr: nat, lits2: seq<Lit>)
    requires DbOk(n, ca) && Live(ca, cr) && Reorders(ca[cr].lits, lits2)
    ensures DbOk(n, Relit(ca, cr, lits2))
  {
    forall k | 0 <= k < |lits2| ensures lits2[k].v < n {
      assert lits2[k] in ca[cr].lits;
    }
  }

  /** A clause whose first literal is not true is nobody's reason. */
  lemma ReorderReasons(a: Asg, ca: seq<Clause>, cr: nat, lits2: seq<Lit>)
    requires TrailOk(a) && ReasonsOk(a, ca) && Live(ca, cr) && |ca[cr].lits| >= 2
    requires VarOk(a, ca[cr].lits[0]) && Value(a.assigns, ca[cr].lits[0]) != LTrue
    ensures ReasonsOk(a, Relit(ca, cr, lits2))
  {
    var ca2 := Relit(ca, cr, lits2);
    forall i | 0 <= i < |a.trail|
      ensures OnTrail(a, i) && (a.reason[a.trail[i].v].Ref? ==> IsReason(a, ca2, i, a.reason[a.trail[i].v].cr))
    {
      assert OnTrail(a, i);
      if a.reason[a.trail[i].v].Ref? {
        assert IsReason(a, ca, i, a.reason[a.trail[i].v].cr);
        assert a.reason[a.trail[i].v].cr != cr;
      }
    }
  }

  lemma ReorderSound(a: Asg, ca: seq<Clause>, f: seq<seq<Lit>>, cr: nat, lits2: seq<Lit>)
    requires |a.level| == |a.assigns| && Live(ca, cr) && Reorders(ca[cr].lits, lits2) && Sound(a, ca, f) && AllCovered(a, ca, f)
    ensures Sound(a, Relit(ca, cr, lits2), f) && AllCovered(a, Relit(ca, cr, lits2), f)
  {
    var ca2 := Relit(ca, cr, lits2);
    forall c: nat | Live(ca2, c) ensures Entails(|a.assigns|, f, ca2[c].lits) {
      assert Entails(|a.assigns|, f, ca[c].lits);
      forall m | Models(m, |a.assigns|, f) ensures Holds(m, ca2[c].lits) {
        HoldsIn(m, ca[c].lits, ca2[c].lits);
      }
    }
    forall i | 0 <= i < |f| ensures Covered(a, ca2, f[i]) {
      if c: nat :| Represents(ca, c, f[i]) {
        assert Represents(ca2, c, f[i]) by {
          forall k | 0 <= k < |ca2[c].lits| ensures ca2[c].lits[k] in f[i] {
            assert ca2[c].lits[k] in ca[c].lits;
          }
        }
      }
    }
  }

  // ----- exchanging the two watched literals -----

  function Swapped(lits: seq<Lit>): seq<Lit>
    requires |lits| >= 2
  {
    lits[0 := lits[1]][1 := lits[0]]
  }

  lemma SwapReorders(n: nat, lits: seq<Lit>)
    requires GoodLits(n, lits)
    ensures Reorders(lits, Swapped(lits))
  {
    var s := Swapped(lits);
    forall k | 0 <= k < |lits| ensures lits[k] in s {
      assert lits[k] == s[if k == 0 then 1 else if k == 1 then 0 else k];
    }
  }

  lemma SwapInv(s: State, f: seq<seq<Lit>>, bound: nat, cr: nat)
    requires Inv(s, f, bound) && Live(s.ca, cr) && |s.ca[cr].lits| >= 2
    requires VarOk(s.a, s.ca[cr].lits[0]) && Value(s.a.assigns, s.ca[cr].lits[0]) != LTrue
    ensures Inv(s.(ca := Relit(s.ca, cr, Swapped(s.ca[cr].lits))), f, bound)
  {
    var n, lits := |s.a.assigns|, s.ca[cr].lits;
    var lits2 := Swapped(lits);
    var ca2 := Relit(s.ca, cr, lits2);
    SwapReorders(n, lits);
    ReorderDb(n, s.ca, cr, lits2);
    ReorderReasons(s.a, s.ca, cr, lits2);
    ReorderSound(s.a, s.ca, f, cr, lits2);
    SwapWatches(n, s.ca, s.watches, s.dirty, cr);
    forall c: nat | Live(ca2, c) && |ca2[c].lits| >= 2
      ensures WatchKept(s.a, ca2[c].lits, ca2[c].lits[0], bound) && WatchKept(s.a, ca2[c].lits, ca2[c].lits[1], bound)
    {
      assert WatchKept(s.a, s.ca[c].lits, s.ca[c].lits[0], bound) && WatchKept(s.a, s.ca[c].lits, s.ca[c].lits[1], bound);
      if c == cr {
        ReorderKept(s.a, lits, lits2, lits[0], bound);
        ReorderKept(s.a, lits, lits2, lits[1], bound);
      }
    }
  }

  lemma ReorderKept(a: Asg, lits: seq<Lit>, lits2: seq<Lit>, q: Lit, bound: nat)
    requires |a.level| == |a.pos| == |a.assigns| && Reorders(lits, lits2) && WatchKept(a, lits, q, bound)
    ensures WatchKept(a, lits2, q, bound)
  {
    if FalseBefore(a, q, bound) {
      ReorderSat(a, lits, lits2, a.level[q.v]);
    }
  }

  lemma SwapWatches(n: nat, ca: seq<Clause>, watches: Watches, dirty: set<Lit>, cr: nat)
    requires WatchesOk(n, ca, watches, dirty) && Live(ca, cr) && |ca[cr].lits| >= 2 && Reorders(ca[cr].lits, Swapped(ca[cr].lits))
    ensures WatchesOk(n, Relit(ca, cr, Swapped(ca[cr].lits)), watches, dirty)
  {
    var ca2 := Relit(ca, cr, Swapped(ca[cr].lits));
    forall p | p in watches ensures ListOk(ca2, p, watches[p], dirty) {
      assert ListOk(ca, p, watches[p], dirty);
      forall i | 0 <= i < |watches[p]| ensures WatcherOk(ca2, p, watches[p][i], dirty) {
        var w := watches[p][i];
        assert WatcherOk(ca, p, w, dirty);
        if w.cref == cr {
          assert w.blocker in ca[cr].lits;
          var k :| 0 <= k < |ca[cr].lits| && ca[cr].lits[k] == w.blocker;
          assert ca[cr].lits[k] in Swapped(ca[cr].lits);
        }
      }
    }
    forall c: nat | Live(ca2, c) ensures Watched(ca2, watches, c) {
      assert Watched(ca, watches, c);
    }
  }

  // ----- scanning the watchers of a true literal -----

  /** The watchers of `p` are split into the ones scanned and kept and the rest; the clauses of the
      kept ones are satisfied. */
  ghost predicate Scanning(s: State, f: seq<seq<Lit>>, p: Lit, kept: seq<Watcher>, rest: seq<Watcher>) {
    && p.v < |s.a.assigns| && p in s.watches && s.watches[p] == kept + rest && s.dirty == {}
    && Inv(s, f, if p.v < |s.a.pos| then s.a.pos[p.v] else 0)
    && Value(s.a.assigns, p) == LTrue && s.a.level[p.v] == |s.a.lim|
    && AllSat(s.a, s.ca, kept)
  }

  ghost predicate AllSat(a: Asg, ca: seq<Clause>, ws: seq<Watcher>)
    requires |a.level| == |a.assigns|
  {
    forall i :: 0 <= i < |ws| ==> ws[i].cref < |ca| && SatAt(a, ca[ws[i].cref].lits, |a.lim|)
  }

  /** The clause of the next watcher. */
  lemma NextWatcher(s: State, f: seq<seq<Lit>>, p: Lit, kept: seq<Watcher>, rest: seq<Watcher>)
    requires Scanning(s, f, p, kept, rest) && rest != []
    ensures var cr := rest[0].cref;
            Live(s.ca, cr) && GoodLits(|s.a.assigns|, s.ca[cr].lits) && Watching(s.ca[cr], p) && rest[0].blocker in s.ca[cr].lits &&
            rest[0].blocker.v < |s.a.assigns|
    ensures forall i :: 0 <= i < |kept| ==> kept[i].cref != rest[0].cref
  {
    assert s.watches[p][|kept|] == rest[0];
    assert ListOk(s.ca, p, s.watches[p], s.dirty);
    assert WatcherOk(s.ca, p, s.watches[p][|kept|], s.dirty);
    forall i | 0 <= i < |kept| ensures kept[i].cref != rest[0].cref {
      assert s.watches[p][i] == kept[i];
    }
  }

  /** The watcher stays, perhaps with another blocker of its clause. */
  lemma KeepWatcher(s: State, f: seq<seq<Lit>>, p: Lit, kept: seq<Watcher>, rest: seq<Watcher>, w: Watcher)
    requires Scanning(s, f, p, kept, rest) && rest != [] && w.cref == rest[0].cref && w.cref < |s.ca| && w.blocker in s.ca[w.cref].lits
    requires SatAt(s.a, s.ca[w.cref].lits, |s.a.lim|)
    ensures Scanning(s.(watches := s.watches[p := (kept + [w]) + rest[1..]]), f, p, kept + [w], rest[1..])
  {
    KeepList(|s.a.assigns|, s.ca, s.watches, p, kept, rest, w);
    KeptSat(s.a, s.ca, kept, w);
    OtherWatches(s, f, s.a.pos[p.v], s.watches[p := (kept + [w]) + rest[1..]], s.dirty);
  }

  lemma KeepList(n: nat, ca: seq<Clause>, watches: Watches, p: Lit, kept: seq<Watcher>, rest: seq<Watcher>, w: Watcher)
    requires WatchesOk(n, ca, watches, {}) && p in watches && watches[p] == kept + rest && rest != []
    requires w.cref == rest[0].cref && w.cref < |ca| && w.blocker in ca[w.cref].lits
    ensures WatchesOk(n, ca, watches[p := (kept + [w]) + rest[1..]], {})
  {
    var ws2 := (kept + [w]) + rest[1..];
    forall i | 0 <= i < |ws2| ensures ws2[i] == if i == |kept| then w else (kept + rest)[i] {}
    SameCrefs(n, ca, watches, {}, p, ws2);
  }

  lemma OtherWatches(s: State, f: seq<seq<Lit>>, bound: nat, watches2: Watches, dirty2: set<Lit>)
    requires Inv(s, f, bound) && WatchesOk(|s.a.assigns|, s.ca, watches2, dirty2)
    ensures Inv(s.(watches := watches2, dirty := dirty2), f, bound)
  {}

  lemma KeptSat(a: Asg, ca: seq<Clause>, kept: seq<Watcher>, w: Watcher)
    requires |a.level| == |a.assigns| && AllSat(a, ca, kept) && w.cref < |ca| && SatAt(a, ca[w.cref].lits, |a.lim|)
    ensures AllSat(a, ca, kept + [w])
  {}

  /** Only blockers change in one list. */
  lemma SameCrefs(n: nat, ca: seq<Clause>, watches: Watches, dirty: set<Lit>, p: Lit, ws: seq<Watcher>)
    requires WatchesOk(n, ca, watches, dirty) && p in watches && |ws| == |watches[p]|
    requires forall i :: 0 <= i < |ws| ==> ws[i].cref == watches[p][i].cref
    requires forall i :: 0 <= i < |ws| ==> ws[i] == watches[p][i] || (ws[i].cref < |ca| && ws[i].blocker in ca[ws[i].cref].lits)
    ensures WatchesOk(n, ca, watches[p := ws], dirty)
  {
    var watches2 := watches[p := ws];
    assert ListOk(ca, p, watches[p], dirty);
    forall i | 0 <= i < |ws| ensures WatcherOk(ca, p, ws[i], dirty) {
      assert WatcherOk(ca, p, watches[p][i], dirty);
    }
    assert ListOk(ca, p, ws, dirty);
    forall c: nat | Live(ca, c) ensures Watched(ca, watches2, c) {
      assert Watched(ca, watches, c);
      forall q | q in watches && Lists(watches[q], c) ensures Lists(watches2[q], c) {
        var i :| 0 <= i < |watches[q]| && watches[q][i].cref == c;
        assert watches2[q][i].cref == c;
      }
    }
  }

  // ----- finding a new watch -----

  function Rewatched(lits: seq<Lit>, k: nat): seq<Lit>
    requires 2 <= k < |lits|
  {
    lits[1 := lits[k]][k := lits[1]]
  }

  lemma RewatchReorders(n: nat, lits: seq<Lit>, k: nat)
    requires GoodLits(n, lits) && 2 <= k < |lits|
    ensures Reorders(lits, Rewatched(lits, k))
  {
    var s := Rewatched(lits, k);
    forall l | 0 <= l < |lits| ensures lits[l] in s {
      assert lits[l] == s[if l == 1 then k else if l == k then 1 else l];
    }
  }

  function Moved(watches: Watches, p: Lit, kept: seq<Watcher>, rest: seq<Watcher>, r: Lit, w: Watcher): Watches
    requires r in watches && r != p
  {
    watches[p := kept + rest][r := watches[r] + [w]]
  }

  lemma MoveWatches(n: nat, ca: seq<Clause>, watches: Watches, p: Lit, kept: seq<Watcher>, rest: seq<Watcher>, k: nat, w: Watcher)
    requires WatchesOk(n, ca, watches, {}) && p in watches && watches[p] == kept + rest && rest != []
    requires w.cref == rest[0].cref && Live(ca, w.cref) && GoodLits(n, ca[w.cref].lits) && 2 <= k < |ca[w.cref].lits|
    requires ca[w.cref].lits[1] == Not(p) && w.blocker in ca[w.cref].lits
    ensures Not(ca[w.cref].lits[k]) in watches && Not(ca[w.cref].lits[k]) != p
    ensures WatchesOk(n, Relit(ca, w.cref, Rewatched(ca[w.cref].lits, k)),
                      Moved(watches, p, kept, rest[1..], Not(ca[w.cref].lits[k]), w), {})
  {
    var cr, lits := w.cref, ca[w.cref].lits;
    var r := Not(lits[k]);
    assert lits[k].v != lits[1].v && lits[0].v != lits[1].v;
    assert Watched(ca, watches, cr);
    RewatchReorders(n, lits, k);
    var ca2, watches2 := Relit(ca, cr, Rewatched(lits, k)), Moved(watches, p, kept, rest[1..], r, w);
    hide Watched, ListOk, GoodLits, Reorders, Rewatched;
    forall q | q in watches2 ensures ListOk(ca2, q, watches2[q], {}) {
      MovedListOk(n, ca, watches, p, kept, rest, k, w, q);
    }
    forall c: nat | Live(ca2, c) ensures Watched(ca2, watches2, c) {
      MovedWatched(ca, watches, p, kept, rest, k, w, c);
    }
  }

  lemma MovedWatched(ca: seq<Clause>, watches: Watches, p: Lit, kept: seq<Watcher>, rest: seq<Watcher>, k: nat, w: Watcher, c: nat)
    requires p in watches && watches[p] == kept + rest && rest != [] && c < |ca| && Watched(ca, watches, c)
    requires w.cref == rest[0].cref && w.cref < |ca| && 2 <= k < |ca[w.cref].lits| && ca[w.cref].lits[1] == Not(p)
    requires ca[w.cref].lits[0] != Not(p) && Not(ca[w.cref].lits[k]) in watches && Not(ca[w.cref].lits[k]) != p
    requires Watched(ca, watches, w.cref)
    ensures Watched(Relit(ca, w.cref, Rewatched(ca[w.cref].lits, k)), Moved(watches, p, kept, rest[1..], Not(ca[w.cref].lits[k]), w), c)
  {
    MovedLists(watches, p, kept, rest, Not(ca[w.cref].lits[k]), w, c);
  }

  /** The list of `q` after the watch has been moved. */
  lemma MovedListOk(n: nat, ca: seq<Clause>, watches: Watches, p: Lit, kept: seq<Watcher>, rest: seq<Watcher>, k: nat, w: Watcher, q: Lit)
    requires WatchesOk(n, ca, watches, {}) && p in watches && watches[p] == kept + rest && rest != []
    requires w.cref == rest[0].cref && Live(ca, w.cref) && GoodLits(n, ca[w.cref].lits) && 2 <= k < |ca[w.cref].lits|
    requires ca[w.cref].lits[1] == Not(p) && w.blocker in ca[w.cref].lits && q in watches
    requires Not(ca[w.cref].lits[k]) in watches && Not(ca[w.cref].lits[k]) != p
    requires Reorders(ca[w.cref].lits, Rewatched(ca[w.cref].lits, k))
    ensures ListOk(Relit(ca, w.cref, Rewatched(ca[w.cref].lits, k)), q,
                   Moved(watches, p, kept, rest[1..], Not(ca[w.cref].lits[k]), w)[q], {})
  {
    var cr, r := w.cref, Not(ca[w.cref].lits[k]);
    assert ListOk(ca, p, watches[p], {}) && ListOk(ca, q, watches[q], {});
    MovedAway(ca, watches, p, kept, rest, cr);
    if q == r {
      forall i | 0 <= i < |watches[r]| ensures watches[r][i].cref != cr {
        assert WatcherOk(ca, r, watches[r][i], {});
      }
      GrownListOk(ca, r, watches[r], p, cr, k, w);
    } else {
      RelitListOk(ca, q, if q == p then kept + rest[1..] else watches[q], p, cr, k);
    }
  }

  lemma RelitListOk(ca: seq<Clause>, q: Lit, ws: seq<Watcher>, p: Lit, cr: nat, k: nat)
    requires ListOk(ca, q, ws, {}) && Live(ca, cr) && 2 <= k < |ca[cr].lits| && ca[cr].lits[1] == Not(p)
    requires Reorders(ca[cr].lits, Rewatched(ca[cr].lits, k))
    requires q == p ==> forall i :: 0 <= i < |ws| ==> ws[i].cref != cr
    ensures ListOk(Relit(ca, cr, Rewatched(ca[cr].lits, k)), q, ws, {})
  {
    var ca2 := Relit(ca, cr, Rewatched(ca[cr].lits, k));
    forall i | 0 <= i < |ws| ensures WatcherOk(ca2, q, ws[i], {}) {
      MovedWatcherOk(ca, q, ws[i], p, cr, k);
    }
  }

  lemma GrownListOk(ca: seq<Clause>, r: Lit, ws: seq<Watcher>, p: Lit, cr: nat, k: nat, w: Watcher)
    requires ListOk(ca, r, ws, {}) && Live(ca, cr) && 2 <= k < |ca[cr].lits| && ca[cr].lits[1] == Not(p) && r != p
    requires Reorders(ca[cr].lits, Rewatched(ca[cr].lits, k)) && r == Not(ca[cr].lits[k])
    requires w.cref == cr && w.blocker in ca[cr].lits && forall i :: 0 <= i < |ws| ==> ws[i].cref != cr
    ensures ListOk(Relit(ca, cr, Rewatched(ca[cr].lits, k)), r, ws + [w], {})
  {
    RelitListOk(ca, r, ws, p, cr, k);
    BlockerIn(ca[cr].lits, Rewatched(ca[cr].lits, k), w.blocker);
  }

  lemma BlockerIn(lits: seq<Lit>, lits2: seq<Lit>, b: Lit)
    requires Reorders(lits, lits2) && b in lits
    ensures b in lits2
  {
    var k :| 0 <= k < |lits| && lits[k] == b;
    assert lits[k] in lits2;
  }

  /** After its watcher left the list of `p`, the clause is not listed there. */
  lemma MovedAway(ca: seq<Clause>, watches: Watches, p: Lit, kept: seq<Watcher>, rest: seq<Watcher>, cr: nat)
    requires p in watches && watches[p] == kept + rest && rest != [] && ListOk(ca, p, watches[p], {}) && rest[0].cref == cr
    ensures ListOk(ca, p, kept + rest[1..], {})
    ensures forall i :: 0 <= i < |kept + rest[1..]| ==> (kept + rest[1..])[i].cref != cr && (kept + rest[1..])[i] in watches[p]
  {
    var ws, ws2 := watches[p], kept + rest[1..];
    forall i | 0 <= i < |ws2| ensures ws2[i] == ws[if i < |kept| then i else i + 1] && ws2[i].cref != cr {
      assert ws[|kept|].cref == cr;
    }
    forall i, j | 0 <= i < j < |ws2| ensures ws2[i].cref != ws2[j].cref {
      assert ws2[i] == ws[if i < |kept| then i else i + 1] && ws2[j] == ws[if j < |kept| then j else j + 1];
    }
    forall i | 0 <= i < |ws2| ensures WatcherOk(ca, p, ws2[i], {}) {
      assert ws2[i] == ws[if i < |kept| then i else i + 1];
    }
  }

  lemma MovedWatcherOk(ca: seq<Clause>, q: Lit, u: Watcher, p: Lit, cr: nat, k: nat)
    requires WatcherOk(ca, q, u, {}) && Live(ca, cr) && 2 <= k < |ca[cr].lits| && ca[cr].lits[1] == Not(p)
    requires Reorders(ca[cr].lits, Rewatched(ca[cr].lits, k))
    requires u.cref == cr ==> q != p
    ensures WatcherOk(Relit(ca, cr, Rewatched(ca[cr].lits, k)), q, u, {})
  {
    if u.cref == cr {
      BlockerIn(ca[cr].lits, Rewatched(ca[cr].lits, k), u.blocker);
    }
  }

  lemma MovedLists(watches: Watches, p: Lit, kept: seq<Watcher>, rest: seq<Watcher>, r: Lit, w: Watcher, c: nat)
    requires p in watches && r in watches && r != p && watches[p] == kept + rest && rest != [] && w.cref == rest[0].cref
    ensures var watches2 := Moved(watches, p, kept, rest[1..], r, w);
            (forall q :: q in watches && (q != p || c != w.cref) && Lists(watches[q], c) ==> Lists(watches2[q], c)) &&
            Lists(watches2[r], w.cref)
  {
    var watches2: Watches := Moved(watches, p, kept, rest[1..], r, w);
    assert watches2[r][|watches[r]|].cref == w.cref;
    forall q | q in watches && (q != p || c != w.cref) && Lists(watches[q], c) ensures Lists(watches2[q], c) {
      var i :| 0 <= i < |watches[q]| && watches[q][i].cref == c;
      if q == p {
        var j := if i < |kept| then i else i - 1;
        assert watches2[q][j].cref == c;
      } else {
        assert watches2[q][i].cref == c;
      }
    }
  }

  lemma MoveInv(s: State, f: seq<seq<Lit>>, p: Lit, kept: seq<Watcher>, rest: seq<Watcher>, k: nat, w: Watcher)
    requires Scanning(s, f, p, kept, rest) && rest != [] && w.cref == rest[0].cref && Live(s.ca, w.cref)
    requires GoodLits(|s.a.assigns|, s.ca[w.cref].lits) && 2 <= k < |s.ca[w.cref].lits|
    requires s.ca[w.cref].lits[1] == Not(p) && w.blocker in s.ca[w.cref].lits
    requires Value(s.a.assigns, s.ca[w.cref].lits[0]) != LTrue && Value(s.a.assigns, s.ca[w.cref].lits[k]) != LFalse
    ensures Not(s.ca[w.cref].lits[k]) in s.watches && Not(s.ca[w.cref].lits[k]) != p
    ensures Scanning(s.(ca := Relit(s.ca, w.cref, Rewatched(s.ca[w.cref].lits, k)),
                        watches := Moved(s.watches, p, kept, rest[1..], Not(s.ca[w.cref].lits[k]), w)), f, p, kept, rest[1..])
  {
    hide PropOk, Sound, AllCovered, ReasonsOk, WatchesOk, TrailOk, DbOk, Rewatched, GoodLits;
    RootTables(s.a);
    var n, cr, lits := |s.a.assigns|, w.cref, s.ca[w.cref].lits;
    var lits2, bound := Rewatched(lits, k), s.a.pos[p.v];
    NextWatcher(s, f, p, kept, rest);
    RewatchReorders(n, lits, k);
    MoveWatches(n, s.ca, s.watches, p, kept, rest, k, w);
    ReorderDb(n, s.ca, cr, lits2);
    ReorderReasons(s.a, s.ca, cr, lits2);
    ReorderSound(s.a, s.ca, f, cr, lits2);
    MoveProp(s.a, s.ca, cr, k, bound);
  }

  lemma MoveProp(a: Asg, ca: seq<Clause>, cr: nat, k: nat, bound: nat)
    requires TrailOk(a) && PropOk(a, ca, bound) && Live(ca, cr) && 2 <= k < |ca[cr].lits|
    requires Reorders(ca[cr].lits, Rewatched(ca[cr].lits, k)) && VarOk(a, ca[cr].lits[k]) && Value(a.assigns, ca[cr].lits[k]) != LFalse
    ensures PropOk(a, Relit(ca, cr, Rewatched(ca[cr].lits, k)), bound)
  {
    var lits2 := Rewatched(ca[cr].lits, k);
    var ca2 := Relit(ca, cr, lits2);
    forall c: nat | Live(ca2, c) && |ca2[c].lits| >= 2
      ensures WatchKept(a, ca2[c].lits, ca2[c].lits[0], bound) && WatchKept(a, ca2[c].lits, ca2[c].lits[1], bound)
    {
      assert WatchKept(a, ca[c].lits, ca[c].lits[0], bound);
      if c == cr {
        ReorderKept(a, ca[cr].lits, lits2, ca[cr].lits[0], bound);
      }
    }
  }

  // ----- unit clauses -----

  /** At level 0 a clause whose other literals are false forces its first literal. */
  lemma UnitEntailed(s: State, f: seq<seq<Lit>>, bound: nat, cr: nat)
    requires Inv(s, f, bound) && |s.a.lim| == 0 && Live(s.ca, cr) && |s.ca[cr].lits| >= 2
    requires forall k :: 1 <= k < |s.ca[cr].lits| ==> FalseBefore(s.a, s.ca[cr].lits[k], |s.a.trail|)
    ensures EntailsLit(|s.a.assigns|, f, s.ca[cr].lits[0])
  {
    var n, lits := |s.a.assigns|, s.ca[cr].lits;
    forall m | Models(m, n, f) ensures LitHolds(m, lits[0]) {
      assert Entails(n, f, lits);
      var k :| 0 <= k < |lits| && LitHolds(m, lits[k]);
      if k > 0 {
        assert FalseBefore(s.a, lits[k], |s.a.trail|);
        assert OnTrail(s.a, s.a.pos[lits[k].v]) && LevelOk(s.a, s.a.pos[lits[k].v]);
        assert Fixed(s.a, Not(lits[k]));
      }
    }
  }

  lemma UnitStep(s: State, f: seq<seq<Lit>>, p: Lit, kept: seq<Watcher>, rest: seq<Watcher>, w: Watcher)
    requires Scanning(s, f, p, kept, rest) && rest != [] && w.cref == rest[0].cref && Live(s.ca, w.cref)
    requires GoodLits(|s.a.assigns|, s.ca[w.cref].lits) && w.blocker in s.ca[w.cref].lits
    requires Value(s.a.assigns, s.ca[w.cref].lits[0]) == LUndef
    requires forall k :: 1 <= k < |s.ca[w.cref].lits| ==> Value(s.a.assigns, s.ca[w.cref].lits[k]) == LFalse
    ensures Scanning(s.(a := Enqueued(s.a, s.ca[w.cref].lits[0], Ref(w.cref)), watches := s.watches[p := (kept + [w]) + rest[1..]]),
                     f, p, kept + [w], rest[1..])
  {
    var lits, bound := s.ca[w.cref].lits, s.a.pos[p.v];
    var first, from := lits[0], Ref(w.cref);
    forall k | 1 <= k < |lits| ensures FalseBefore(s.a, lits[k], |s.a.trail|) {
      assert s.a.assigns[lits[k].v] != LUndef;
    }
    if |s.a.lim| == 0 {
      UnitEntailed(s, f, bound, w.cref);
    }
    EnqueueInv(s, f, bound, first, from);
    var b := Enqueued(s.a, first, from);
    EnqueueKeeps(s.a, first, from, p);
    var s2 := s.(a := b);
    assert AllSat(b, s.ca, kept) by {
      forall i | 0 <= i < |kept| ensures kept[i].cref < |s.ca| && SatAt(b, s.ca[kept[i].cref].lits, |b.lim|) {
        EnqueueSat(s.a, first, from, s.ca[kept[i].cref].lits, |s.a.lim|);
      }
    }
    assert VarOk(b, lits[0]) && Value(b.assigns, lits[0]) == LTrue && b.level[lits[0].v] <= |b.lim|;
    assert Scanning(s2, f, p, kept, rest);
    KeepWatcher(s2, f, p, kept, rest, w);
  }

  /** When the list of `p` has been scanned, `p` has been propagated. */
  lemma ScanDone(s: State, f: seq<seq<Lit>>, p: Lit, kept: seq<Watcher>)
    requires Scanning(s, f, p, kept, [])
    ensures Inv(s, f, s.a.pos[p.v] + 1)
  {
    var bound := s.a.pos[p.v];
    assert s.watches[p] == kept;
    forall cr: nat | Live(s.ca, cr) && |s.ca[cr].lits| >= 2
      ensures WatchKept(s.a, s.ca[cr].lits, s.ca[cr].lits[0], bound + 1) && WatchKept(s.a, s.ca[cr].lits, s.ca[cr].lits[1], bound + 1)
    {
      ScannedClause(s, f, p, kept, cr, s.ca[cr].lits[0]);
      ScannedClause(s, f, p, kept, cr, s.ca[cr].lits[1]);
    }
  }

  lemma ScannedClause(s: State, f: seq<seq<Lit>>, p: Lit, kept: seq<Watcher>, cr: nat, q: Lit)
    requires Scanning(s, f, p, kept, []) && Live(s.ca, cr) && |s.ca[cr].lits| >= 2
    requires q == s.ca[cr].lits[0] || q == s.ca[cr].lits[1]
    ensures WatchKept(s.a, s.ca[cr].lits, q, s.a.pos[p.v] + 1)
  {
    var bound := s.a.pos[p.v];
    assert s.watches[p] == kept;
    assert WatchKept(s.a, s.ca[cr].lits, q, bound);
    if FalseBefore(s.a, q, bound + 1) && s.a.pos[q.v] == bound {
      assert s.a.trail[bound].v == q.v && s.a.trail[bound].v == p.v;
      assert q == Not(p);
      assert Watched(s.ca, s.watches, cr);
      var i :| 0 <= i < |kept| && kept[i].cref == cr;
      assert SatAt(s.a, s.ca[kept[i].cref].lits, |s.a.lim|);
    }
  }
}
