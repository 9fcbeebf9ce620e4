/** buildMachine (memin/MachineBuilder.cpp): the machine whose states are the classes of a
    closed cover. */
module MachineBuilder {
  import opened Cubes
  import opened Options
  import opened Mealy
  import opened Cover
  import opened Dimacs
  import opened CnfBuilder

  type Outputs = seq<seq<Option<Cube>>>

  ghost predicate OutputsFit(p: Problem, out: Outputs, no: nat)
    requires GoodProblem(p)
  {
    && |out| == p.n && (forall s :: 0 <= s < p.n ==> |out[s]| == p.m)
    && (forall s, a :: 0 <= s < p.n && 0 <= a < p.m && p.next[s][a] != -1 ==> out[s][a].Some? && |out[s][a].value| == no)
  }

  /** Members of one class never contradict each other on an input both define. */
  ghost predicate OutputsAgree(p: Problem, out: Outputs, no: nat, c: set<nat>)
    requires GoodProblem(p) && OutputsFit(p, out, no)
  {
    forall s, t, a :: s in c && t in c && s < p.n && t < p.n && 0 <= a < p.m && p.next[s][a] != -1 && p.next[t][a] != -1 ==>
      !Disjoint(out[s][a].value, out[t][a].value)
  }

  /** A positive literal list of a model, as MeMin_Command prepares it. */
  function DimacsOutput(model: seq<bool>): seq<int> {
    seq(|model|, i requires 0 <= i < |model| => if model[i] then i + 1 else -(i + 1))
  }

  ghost predicate ListsClasses(t: Task, num: Numbers, model: seq<bool>, upto: nat, members: seq<seq<nat>>, inClass: seq<seq<bool>>) {
    && |members| == t.k && |inClass| == t.p.n && (forall s :: 0 <= s < t.p.n ==> |inClass[s]| == t.k)
    && (forall c, s: nat :: 0 <= c < t.k ==> (s in members[c] <==> s < t.p.n && TrueBelow(num, model, upto, X(s, c))))
    && (forall c, s :: 0 <= c < t.k && 0 <= s < t.p.n ==> (inClass[s][c] <==> TrueBelow(num, model, upto, X(s, c))))
  }

  ghost predicate TrueBelow(num: Numbers, model: seq<bool>, upto: nat, v: AVar) {
    VarTrue(v, num, model) && num[v] <= upto
  }

  /** Reads the classes off a model. */
  method DecodeClasses(t: Task, model: seq<bool>, dimacsOutput: seq<int>, literalToStateClass: seq<(int, int)>, origResetState: int, ghost num: Numbers)
      returns (newStates: seq<seq<nat>>, classesForOrigState: seq<seq<bool>>, newResetState: int)
    requires GoodNumbers(num) && IsLiteralMap(t, num, literalToStateClass) && |model| < |literalToStateClass|
    requires dimacsOutput == DimacsOutput(model)
    requires -1 <= origResetState < t.p.n
    ensures ListsClasses(t, num, model, |model|, newStates, classesForOrigState)
    ensures -1 <= newResetState < t.k
    ensures newResetState != -1 ==> origResetState != -1 && classesForOrigState[origResetState][newResetState]
    ensures newResetState == -1 && origResetState != -1 ==>
              forall c :: 0 <= c < t.k ==> !classesForOrigState[origResetState][c]
  {
    newStates := seq(t.k, _ => []);
    classesForOrigState := seq(t.p.n, _ => seq(t.k, _ => false));
    newResetState := -1;
    for litI := 0 to |dimacsOutput|
      invariant ListsClasses(t, num, model, litI, newStates, classesForOrigState)
      invariant -1 <= newResetState < t.k
      invariant newResetState != -1 ==> origResetState != -1 && classesForOrigState[origResetState][newResetState]
      invariant newResetState == -1 && origResetState != -1 ==>
                  forall c :: 0 <= c < t.k ==> !classesForOrigState[origResetState][c]
    {
      var lit := dimacsOutput[litI];
      var stateClass := if lit > 0 then literalToStateClass[lit] else (-1, -1);
      if stateClass.0 != -1 {
        assert NamesState(t, num, literalToStateClass, lit);
        var s: nat, c: nat := stateClass.0, stateClass.1;
        DecodeStep(t, num, model, litI, newStates, classesForOrigState, s, c);
        newStates := newStates[c := newStates[c] + [s]];
        classesForOrigState := classesForOrigState[s := classesForOrigState[s][c := true]];
        if s == origResetState {
          newResetState := c;
        }
      } else {
        DecodeSkip(t, num, model, litI, literalToStateClass, newStates, classesForOrigState);
      }
    }
  }

  lemma DecodeStep(t: Task, num: Numbers, model: seq<bool>, litI: nat, members: seq<seq<nat>>, inClass: seq<seq<bool>>, s: nat, c: nat)
    requires GoodNumbers(num) && litI < |model| && model[litI]
    requires ListsClasses(t, num, model, litI, members, inClass)
    requires s < t.p.n && c < t.k && X(s, c) in num && num[X(s, c)] == litI + 1
    ensures ListsClasses(t, num, model, litI + 1, members[c := members[c] + [s]], inClass[s := inClass[s][c := true]])
  {
    forall v ensures TrueBelow(num, model, litI + 1, v) <==> TrueBelow(num, model, litI, v) || v == X(s, c) {}
  }

  lemma DecodeSkip(t: Task, num: Numbers, model: seq<bool>, litI: nat, litMap: seq<(int, int)>, members: seq<seq<nat>>, inClass: seq<seq<bool>>)
    requires GoodNumbers(num) && IsLiteralMap(t, num, litMap) && litI < |model| < |litMap|
    requires model[litI] ==> litMap[litI + 1].0 == -1
    requires ListsClasses(t, num, model, litI, members, inClass)
    ensures ListsClasses(t, num, model, litI + 1, members, inClass)
  {
    forall s, c | 0 <= s < t.p.n && 0 <= c < t.k
      ensures TrueBelow(num, model, litI + 1, X(s, c)) <==> TrueBelow(num, model, litI, X(s, c))
    {}
  }

  /** `output` specifies exactly the bits that some listed cube specifies, with that value. */
  ghost predicate IsMeet(output: Cube, cubes: seq<Cube>, no: nat) {
    && |output| == no
    && (forall i :: 0 <= i < |cubes| ==> Refines(output, cubes[i]))
    && (forall k :: 0 <= k < no && !output[k].Dash? ==> SpecifiedBySome(cubes, k, output[k]))
  }

  ghost predicate SpecifiedBySome(cubes: seq<Cube>, k: nat, t: Trit) {
    exists i :: 0 <= i < |cubes| && k < |cubes[i]| && cubes[i][k] == t
  }

  /** Pairwise compatible cubes stay compatible with the meet of any of them. */
  lemma MeetStep(output: Cube, cubes: seq<Cube>, o: Cube, no: nat)
    requires IsMeet(output, cubes, no) && |o| == no
    requires forall i :: 0 <= i < |cubes| ==> |cubes[i]| == no && !Disjoint(cubes[i], o)
    ensures IsMeet(Intersect(output, o), cubes + [o], no)
    ensures output == o ==> IsMeet(output, cubes + [o], no)
  {
    var cubes2, output2 := cubes + [o], Intersect(output, o);
    forall k | 0 <= k < no ensures !Clash(output[k], o[k]) {
      if !output[k].Dash? {
        assert SpecifiedBySome(cubes, k, output[k]);
        var i :| 0 <= i < |cubes| && k < |cubes[i]| && cubes[i][k] == output[k];
        assert !Disjoint(cubes[i], o);
      }
    }
    forall k, t: Trit | 0 <= k < no && !t.Dash? && (SpecifiedBySome(cubes, k, t) || o[k] == t) ensures SpecifiedBySome(cubes2, k, t) {
      if SpecifiedBySome(cubes, k, t) {
        var i :| 0 <= i < |cubes| && k < |cubes[i]| && cubes[i][k] == t;
        assert cubes2[i] == cubes[i];
      } else {
        assert cubes2[|cubes|] == o;
      }
    }
    forall i | 0 <= i < |cubes2| ensures Refines(output2, cubes2[i]) {
      if i < |cubes| {
        assert Refines(output, cubes[i]);
      }
    }
  }

  lemma SingleMeet(o: Cube, no: nat)
    requires |o| == no
    ensures IsMeet(o, [o], no)
  {
    forall k | 0 <= k < no ensures SpecifiedBySome([o], k, o[k]) {
      assert [o][0] == o;
    }
  }

  /** The outputs that the members of a class specify on an input, in member order. */
  ghost function MemberOutputs(p: Problem, out: Outputs, members: seq<nat>, a: nat, no: nat): seq<Cube>
    requires GoodProblem(p) && OutputsFit(p, out, no) && a < p.m && forall i :: 0 <= i < |members| ==> members[i] < p.n
  {
    if members == [] then []
    else
      var s := members[|members| - 1];
      MemberOutputs(p, out, members[..|members| - 1], a, no) + if p.next[s][a] == -1 then [] else [out[s][a].value]
  }

  lemma {:induction false} MemberOutputsHas(p: Problem, out: Outputs, members: seq<nat>, a: nat, no: nat, s: nat)
    requires GoodProblem(p) && OutputsFit(p, out, no) && a < p.m && forall i :: 0 <= i < |members| ==> members[i] < p.n
    requires s in members && p.next[s][a] != -1
    ensures out[s][a].value in MemberOutputs(p, out, members, a, no)
  {
    if s != members[|members| - 1] {
      MemberOutputsHas(p, out, members[..|members| - 1], a, no, s);
    }
  }

  lemma {:induction false} MemberOutputsFrom(p: Problem, out: Outputs, members: seq<nat>, a: nat, no: nat, i: nat) returns (s: nat)
    requires GoodProblem(p) && OutputsFit(p, out, no) && a < p.m && forall i :: 0 <= i < |members| ==> members[i] < p.n
    requires i < |MemberOutputs(p, out, members, a, no)|
    ensures s in members && p.next[s][a] != -1 && MemberOutputs(p, out, members, a, no)[i] == out[s][a].value
  {
    var last := members[|members| - 1];
    var shorter := MemberOutputs(p, out, members[..|members| - 1], a, no);
    if i < |shorter| {
      s := MemberOutputsFrom(p, out, members[..|members| - 1], a, no, i);
    } else {
      s := last;
    }
  }

  /** `succ` and `output` are the successors and the joint output of the listed members. */
  ghost predicate Gathered(p: Problem, out: Outputs, members: seq<nat>, a: nat, no: nat, succ: seq<nat>, output: Option<Cube>)
    requires GoodProblem(p) && OutputsFit(p, out, no) && a < p.m && forall i :: 0 <= i < |members| ==> members[i] < p.n
  {
    && (forall u: nat :: u in succ <==> exists s :: s in members && p.next[s][a] == u)
    && (succ == [] <==> output.None?)
    && (output.None? ==> MemberOutputs(p, out, members, a, no) == [])
    && (output.Some? ==> IsMeet(output.value, MemberOutputs(p, out, members, a, no), no))
  }

  lemma GatherStep(p: Problem, out: Outputs, members: seq<nat>, a: nat, no: nat, succ: seq<nat>, output: Option<Cube>, s: nat)
    requires GoodProblem(p) && OutputsFit(p, out, no) && a < p.m && forall i :: 0 <= i < |members| ==> members[i] < p.n
    requires s < p.n && p.next[s][a] != -1 && Gathered(p, out, members, a, no, succ, output)
    requires OutputsAgree(p, out, no, set u | u in members + [s])
    ensures output.None? ==> Gathered(p, out, members + [s], a, no, succ + [p.next[s][a]], out[s][a])
    ensures output.Some? ==> |output.value| == no
    ensures output.Some? ==>
              Gathered(p, out, members + [s], a, no, succ + [p.next[s][a]], Some(Intersect(output.value, out[s][a].value)))
    ensures output == out[s][a] ==> Gathered(p, out, members + [s], a, no, succ + [p.next[s][a]], output)
  {
    var members2, o := members + [s], out[s][a].value;
    var cubes := MemberOutputs(p, out, members, a, no);
    assert members2[..|members|] == members;
    assert MemberOutputs(p, out, members2, a, no) == cubes + [o];
    forall i | 0 <= i < |cubes| ensures |cubes[i]| == no && !Disjoint(cubes[i], o) {
      var u := MemberOutputsFrom(p, out, members, a, no, i);
      assert u in members2 && s in members2;
    }
    if output.Some? {
      MeetStep(output.value, cubes, o, no);
    } else {
      SingleMeet(o, no);
      assert cubes + [o] == [o];
    }
    forall u: nat ensures u in succ + [p.next[s][a]] <==> exists v :: v in members2 && p.next[v][a] == u {
      if u in succ {
        var v :| v in members && p.next[v][a] == u;
        assert v in members2;
      } else if u == p.next[s][a] {
        assert s in members2;
      }
    }
  }

  lemma GatherStart(p: Problem, out: Outputs, a: nat, no: nat)
    requires GoodProblem(p) && OutputsFit(p, out, no) && a < p.m
    ensures Gathered(p, out, [], a, no, [], None)
  {}

  lemma GatherSkip(p: Problem, out: Outputs, members: seq<nat>, a: nat, no: nat, succ: seq<nat>, output: Option<Cube>, s: nat)
    requires GoodProblem(p) && OutputsFit(p, out, no) && a < p.m && forall i :: 0 <= i < |members| ==> members[i] < p.n
    requires s < p.n && p.next[s][a] == -1 && Gathered(p, out, members, a, no, succ, output)
    ensures Gathered(p, out, members + [s], a, no, succ, output)
  {
    var members2 := members + [s];
    assert members2[..|members|] == members;
    assert MemberOutputs(p, out, members2, a, no) == MemberOutputs(p, out, members, a, no);
    assert forall v :: v in members2 <==> v in members || v == s;
    forall u: nat ensures u in succ <==> exists v :: v in members2 && p.next[v][a] == u {
      if u in succ {
        var v :| v in members && p.next[v][a] == u;
        assert v in members2;
      }
    }
  }

  lemma AgreeOnPrefix(p: Problem, out: Outputs, no: nat, members: seq<nat>, l: nat)
    requires GoodProblem(p) && OutputsFit(p, out, no) && l < |members| && OutputsAgree(p, out, no, set s | s in members)
    ensures OutputsAgree(p, out, no, set s | s in members[..l] + [members[l]])
  {}

  lemma GatheredShape(p: Problem, out: Outputs, members: seq<nat>, a: nat, no: nat, succ: seq<nat>, output: Option<Cube>)
    requires GoodProblem(p) && OutputsFit(p, out, no) && a < p.m && forall i :: 0 <= i < |members| ==> members[i] < p.n
    requires Gathered(p, out, members, a, no, succ, output)
    ensures (succ == [] <==> output.None?) && (output.Some? ==> |output.value| == no)
  {}

  /** The successors and the joint output of a class on one input. */
  method GatherSuccessors(p: Problem, out: Outputs, members: seq<nat>, a: nat, ghost no: nat)
      returns (succ: seq<nat>, output: Option<Cube>)
    requires GoodProblem(p) && OutputsFit(p, out, no) && a < p.m && forall i :: 0 <= i < |members| ==> members[i] < p.n
    requires OutputsAgree(p, out, no, set s | s in members)
    ensures Gathered(p, out, members, a, no, succ, output)
  {
    hide Gathered, OutputsAgree;
    succ, output := [], None;
    GatherStart(p, out, a, no);
    for l := 0 to |members|
      invariant Gathered(p, out, members[..l], a, no, succ, output)
    {
      var oldState := members[l];
      assert members[..l + 1] == members[..l] + [oldState];
      var nextState := p.next[oldState][a];
      if nextState == -1 {
        GatherSkip(p, out, members[..l], a, no, succ, output, oldState);
      } else {
        AgreeOnPrefix(p, out, no, members, l);
        GatheredShape(p, out, members[..l], a, no, succ, output);
        GatherStep(p, out, members[..l], a, no, succ, output, oldState);
        if succ == [] {
          output := out[oldState][a];
        } else if output.value != out[oldState][a].value {
          output := Some(Intersect(output.value, out[oldState][a].value));
        }
        succ := succ + [nextState];
      }
    }
    assert members[..|members|] == members;
  }

  /** The first class that holds all successors. */
  method FindSuccessorClass(t: Task, succ: seq<nat>, classesForOrigState: seq<seq<bool>>, ghost cls: seq<set<nat>>) returns (found: nat)
    requires |classesForOrigState| == t.p.n && |cls| == t.k
    requires forall s :: 0 <= s < t.p.n ==> |classesForOrigState[s]| == t.k
    requires forall c, s :: 0 <= c < t.k && 0 <= s < t.p.n ==> (classesForOrigState[s][c] <==> s in cls[c])
    requires succ != [] && forall i :: 0 <= i < |succ| ==> succ[i] < t.p.n
    requires exists d :: 0 <= d < t.k && HoldsAll(cls, d, succ)
    ensures found < t.k && HoldsAll(cls, found, succ)
    ensures forall d :: 0 <= d < found ==> !HoldsAll(cls, d, succ)
  {
    found := 0;
    var classesForFirstSucc := classesForOrigState[succ[0]];
    for succClass := 0 to t.k
      invariant forall d :: 0 <= d < succClass ==> !HoldsAll(cls, d, succ)
    {
      if classesForFirstSucc[succClass] {
        var classForAllStates := true;
        for succI := 1 to |succ|
          invariant classForAllStates && forall i :: 0 <= i < succI ==> succ[i] in cls[succClass]
        {
          if !classesForOrigState[succ[succI]][succClass] {
            classForAllStates := false;
            break;
          }
        }
        if classForAllStates {
          return succClass;
        }
      }
    }
    assert false;
  }

  ghost predicate HoldsAll(cls: seq<set<nat>>, d: nat, succ: seq<nat>)
    requires d < |cls|
  {
    forall i :: 0 <= i < |succ| ==> succ[i] in cls[d]
  }

  /** The table of the class machine: a class moves to the first class that holds the
      successors of all its members, with exactly the output bits its members specify. */
  ghost predicate ClassTable(p: Problem, out: Outputs, no: nat, cls: seq<set<nat>>, next2: seq<seq<int>>, out2: Outputs)
    requires GoodProblem(p) && OutputsFit(p, out, no)
  {
    && |next2| == |out2| == |cls|
    && (forall c :: 0 <= c < |cls| ==> |next2[c]| == |out2[c]| == p.m)
    && (forall c, a :: 0 <= c < |cls| && 0 <= a < p.m ==> ClassEntry(p, out, no, cls, c, a, next2[c][a], out2[c][a]))
  }

  ghost predicate ClassEntry(p: Problem, out: Outputs, no: nat, cls: seq<set<nat>>, c: nat, a: nat, next: int, output: Option<Cube>)
    requires GoodProblem(p) && OutputsFit(p, out, no) && c < |cls| && a < p.m
  {
    if HasSucc(p, cls, a, c) then
      && 0 <= next < |cls| && Follows(p, cls, a, c, next) && (forall d :: 0 <= d < next ==> !Follows(p, cls, a, c, d))
      && output.Some? && |output.value| == no
      && (forall s :: s in cls[c] && s < p.n && p.next[s][a] != -1 ==> Refines(output.value, out[s][a].value))
      && (forall k :: 0 <= k < no && !output.value[k].Dash? ==>
            exists s :: s in cls[c] && s < p.n && p.next[s][a] != -1 && out[s][a].value[k] == output.value[k])
    else next == -1
  }

  method BuildEntry(t: Task, out: Outputs, members: seq<nat>, classesForOrigState: seq<seq<bool>>, c: nat, a: nat, ghost cls: seq<set<nat>>, ghost no: nat)
      returns (next: int, output: Option<Cube>)
    requires GoodProblem(t.p) && OutputsFit(t.p, out, no) && a < t.p.m && c < t.k == |cls| && |classesForOrigState| == t.p.n
    requires forall s :: 0 <= s < t.p.n ==> |classesForOrigState[s]| == t.k
    requires forall d, s :: 0 <= d < t.k && 0 <= s < t.p.n ==> (classesForOrigState[s][d] <==> s in cls[d])
    requires ClosedCover(t.p, cls) && cls[c] == (set s | s in members) && OutputsAgree(t.p, out, no, cls[c])
    ensures ClassEntry(t.p, out, no, cls, c, a, next, output)
  {
    assert forall i :: 0 <= i < |members| ==> members[i] in cls[c];
    var succ, joint := GatherSuccessors(t.p, out, members, a, no);
    assert forall s :: s in cls[c] && t.p.next[s][a] != -1 ==> t.p.next[s][a] in succ;
    if succ == [] {
      return -1, None;
    }
    assert HasSucc(t.p, cls, a, c) by {
      assert succ[0] in succ;
    }
    forall d | 0 <= d < t.k ensures HoldsAll(cls, d, succ) <==> Follows(t.p, cls, a, c, d) {
      FollowsHoldsAll(t.p, cls, a, c, d, members, succ);
    }
    assert Closes(t.p, cls, a, c);
    forall i | 0 <= i < |succ| ensures succ[i] < t.p.n {
      assert succ[i] in succ;
    }
    next := FindSuccessorClass(t, succ, classesForOrigState, cls);
    output := joint;
    MeetIsEntry(t.p, out, no, cls, c, a, members, joint.value);
  }

  lemma FollowsHoldsAll(p: Problem, cls: seq<set<nat>>, a: nat, c: nat, d: nat, members: seq<nat>, succ: seq<nat>)
    requires GoodProblem(p) && a < p.m && c < |cls| && d < |cls| && cls[c] == (set s | s in members)
    requires forall s :: s in members ==> s < p.n
    requires forall u: nat :: u in succ <==> exists s :: s in members && p.next[s][a] == u
    ensures HoldsAll(cls, d, succ) <==> Follows(p, cls, a, c, d)
  {
    if HoldsAll(cls, d, succ) {
      forall s | s in cls[c] && s < p.n && p.next[s][a] != -1 ensures p.next[s][a] in cls[d] {
        assert p.next[s][a] in succ;
      }
    }
    if Follows(p, cls, a, c, d) {
      forall i | 0 <= i < |succ| ensures succ[i] in cls[d] {
        assert succ[i] in succ;
        var s :| s in members && p.next[s][a] == succ[i];
        assert s in cls[c];
      }
    }
  }

  lemma MeetIsEntry(p: Problem, out: Outputs, no: nat, cls: seq<set<nat>>, c: nat, a: nat, members: seq<nat>, output: Cube)
    requires GoodProblem(p) && OutputsFit(p, out, no) && a < p.m && c < |cls| && cls[c] == (set s | s in members)
    requires forall i :: 0 <= i < |members| ==> members[i] < p.n
    requires IsMeet(output, MemberOutputs(p, out, members, a, no), no)
    ensures forall s :: s in cls[c] && s < p.n && p.next[s][a] != -1 ==> Refines(output, out[s][a].value)
    ensures forall k :: 0 <= k < no && !output[k].Dash? ==>
              exists s :: s in cls[c] && s < p.n && p.next[s][a] != -1 && out[s][a].value[k] == output[k]
  {
    var cubes := MemberOutputs(p, out, members, a, no);
    forall s | s in cls[c] && s < p.n && p.next[s][a] != -1 ensures Refines(output, out[s][a].value) {
      MemberOutputsHas(p, out, members, a, no, s);
    }
    forall k | 0 <= k < no && !output[k].Dash?
      ensures exists s :: s in cls[c] && s < p.n && p.next[s][a] != -1 && out[s][a].value[k] == output[k]
    {
      assert SpecifiedBySome(cubes, k, output[k]);
      var i :| 0 <= i < |cubes| && k < |cubes[i]| && cubes[i][k] == output[k];
      var s := MemberOutputsFrom(p, out, members, a, no, i);
      assert s in cls[c];
    }
  }

  method BuildMachine(t: Task, out: Outputs, model: seq<bool>, literalToStateClass: seq<(int, int)>, origResetState: int,
                      ghost num: Numbers, ghost no: nat)
      returns (next2: seq<seq<int>>, out2: Outputs, newResetState: int)
    requires GoodTask(t) && OutputsFit(t.p, out, no) && -1 <= origResetState < t.p.n
    requires GoodNumbers(num) && IsLiteralMap(t, num, literalToStateClass) && |model| < |literalToStateClass|
    requires ClosedCover(t.p, Classes(t, num, model))
    requires forall c :: 0 <= c < t.k ==> OutputsAgree(t.p, out, no, Classes(t, num, model)[c])
    ensures ClassTable(t.p, out, no, Classes(t, num, model), next2, out2)
    ensures origResetState == -1 ==> newResetState == -1
    ensures origResetState != -1 ==> 0 <= newResetState < t.k && origResetState in Classes(t, num, model)[newResetState]
  {
    ghost var cls := Classes(t, num, model);
    var newStates, classesForOrigState;
    newStates, classesForOrigState, newResetState :=
      DecodeClasses(t, model, DimacsOutput(model), literalToStateClass, origResetState, num);
    DecodedAreClasses(t, num, model, newStates, classesForOrigState);
    if origResetState != -1 {
      assert Cover.InSome(cls, origResetState);
    }
    next2, out2 := [], [];
    for c := 0 to t.k
      invariant |next2| == |out2| == c
      invariant forall d :: 0 <= d < c ==> |next2[d]| == |out2[d]| == t.p.m
      invariant forall d, a :: 0 <= d < c && 0 <= a < t.p.m ==> ClassEntry(t.p, out, no, cls, d, a, next2[d][a], out2[d][a])
    {
      var next, output := BuildRow(t, out, newStates[c], classesForOrigState, c, cls, no);
      next2, out2 := next2 + [next], out2 + [output];
    }
  }

  method BuildRow(t: Task, out: Outputs, members: seq<nat>, classesForOrigState: seq<seq<bool>>, c: nat, ghost cls: seq<set<nat>>, ghost no: nat)
      returns (next: seq<int>, output: seq<Option<Cube>>)
    requires GoodProblem(t.p) && OutputsFit(t.p, out, no) && c < t.k == |cls| && |classesForOrigState| == t.p.n
    requires forall s :: 0 <= s < t.p.n ==> |classesForOrigState[s]| == t.k
    requires forall d, s :: 0 <= d < t.k && 0 <= s < t.p.n ==> (classesForOrigState[s][d] <==> s in cls[d])
    requires ClosedCover(t.p, cls) && cls[c] == (set s | s in members) && OutputsAgree(t.p, out, no, cls[c])
    ensures |next| == |output| == t.p.m
    ensures forall a :: 0 <= a < t.p.m ==> ClassEntry(t.p, out, no, cls, c, a, next[a], output[a])
  {
    next, output := [], [];
    for a := 0 to t.p.m
      invariant |next| == |output| == a
      invariant forall b :: 0 <= b < a ==> ClassEntry(t.p, out, no, cls, c, b, next[b], output[b])
    {
      var n, o := BuildEntry(t, out, members, classesForOrigState, c, a, cls, no);
      next, output := next + [n], output + [o];
    }
  }

  lemma DecodedAreClasses(t: Task, num: Numbers, model: seq<bool>, members: seq<seq<nat>>, inClass: seq<seq<bool>>)
    requires ListsClasses(t, num, model, |model|, members, inClass)
    ensures forall c :: 0 <= c < t.k ==> Classes(t, num, model)[c] == (set s | s in members[c])
    ensures forall c, s :: 0 <= c < t.k && 0 <= s < t.p.n ==> (inClass[s][c] <==> s in Classes(t, num, model)[c])
  {
    forall c | 0 <= c < t.k ensures Classes(t, num, model)[c] == (set s | s in members[c]) {
      forall s: nat ensures s in Classes(t, num, model)[c] <==> s in members[c] {
        ClassesMembers(t, num, model, c, s);
      }
    }
  }
}
