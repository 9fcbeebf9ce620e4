/** memin/IncSpecSeq.h: cubes packed into 32-bit words, one mask for the specified positions
    and one for their values. Each operation computes the ternary operation of `Cubes`. */
module PackedCubes {
  import opened Cubes

  // ----- a machine word is its 32 binary digits, least significant first -----

  type Bits = w: seq<bool> | |w| == 32 witness seq(32, _ => false)

  function And(x: Bits, y: Bits): Bits {
    seq(32, b requires 0 <= b < 32 => x[b] && y[b])
  }

  function Or(x: Bits, y: Bits): Bits {
    seq(32, b requires 0 <= b < 32 => x[b] || y[b])
  }

  /** The word `t << b` for a single bit `t`. */
  function Shifted(t: bool, b: nat): Bits
    requires b < 32
  {
    seq(32, k => k == b && t)
  }

  function Zeros(): Bits {
    seq(32, _ => false)
  }

  // ----- the packed cube -----

  datatype IncSpecSeq = IncSpecSeq(values: seq<Bits>, specifiedBits: seq<Bits>, seqLength: nat)

  function VecLength(n: nat): nat
    requires n > 0
  {
    (n - 1) / 32 + 1
  }

  ghost predicate Valid(c: IncSpecSeq) {
    && c.seqLength > 0 && |c.values| == |c.specifiedBits| == VecLength(c.seqLength)
    && (forall i, b :: 0 <= i < |c.values| && 0 <= b < 32 && c.values[i][b] ==> c.specifiedBits[i][b])
    && (forall i, b :: 0 <= i < |c.values| && 0 <= b < 32 && c.specifiedBits[i][b] ==> 32 * i + b < c.seqLength)
  }

  function TritAt(value: Bits, spec: Bits, b: nat): Trit
    requires b < 32
  {
    if !spec[b] then Dash else if value[b] then One else Zero
  }

  /** The ternary cube that the words stand for. */
  ghost function Abs(c: IncSpecSeq): (r: Cube)
    requires Valid(c)
    ensures |r| == c.seqLength
  {
    seq(c.seqLength, k requires 0 <= k < c.seqLength => TritAt(c.values[k / 32], c.specifiedBits[k / 32], k % 32))
  }

  lemma AbsAt(c: IncSpecSeq, i: nat, b: nat)
    requires Valid(c) && b < 32 && 32 * i + b < c.seqLength
    ensures i < |c.values| && Abs(c)[32 * i + b] == TritAt(c.values[i], c.specifiedBits[i], b)
  {}

  function TritOf(ch: char): Trit {
    if ch == '0' then Zero else if ch == '1' then One else Dash
  }

  function CharOf(t: Trit): char {
    match t case Zero => '0' case One => '1' case Dash => '-'
  }

  /** The words hold the first `k` characters and nothing else. */
  ghost predicate Reading(s: string, words: seq<Bits>, spec: seq<Bits>, k: nat)
    requires k <= |s|
  {
    && |words| == |spec|
    && (forall i, b :: 0 <= i < |words| && 0 <= b < 32 ==>
          (spec[i][b] <==> 32 * i + b < k && !TritOf(s[32 * i + b]).Dash?))
    && (forall i, b :: 0 <= i < |words| && 0 <= b < 32 ==>
          (words[i][b] <==> 32 * i + b < k && TritOf(s[32 * i + b]).One?))
  }

  /** The constructor: reads one character per position; anything but 0 and 1 is a don't-care. */
  method FromString(s: string) returns (c: IncSpecSeq, fullySpecified: bool)
    requires |s| > 0
    ensures Valid(c) && c.seqLength == |s|
    ensures forall k :: 0 <= k < |s| ==> Abs(c)[k] == TritOf(s[k])
    ensures fullySpecified <==> FullySpecified(Abs(c))
  {
    var vecLength := VecLength(|s|);
    var words: seq<Bits>, spec: seq<Bits> := seq(vecLength, _ => Zeros()), seq(vecLength, _ => Zeros());
    fullySpecified := true;
    for k := 0 to |s|
      invariant |words| == vecLength && Reading(s, words, spec, k)
      invariant fullySpecified <==> forall j :: 0 <= j < k ==> !TritOf(s[j]).Dash?
    {
      words, spec, fullySpecified := ReadChar(s, k, words, spec, fullySpecified);
    }
    c := IncSpecSeq(words, spec, |s|);
    ReadAll(s, c);
    if !fullySpecified {
      var j :| 0 <= j < |s| && TritOf(s[j]).Dash?;
      assert Abs(c)[j] in Abs(c);
    }
  }

  /** One turn of the constructor's loop. */
  method ReadChar(s: string, k: nat, words0: seq<Bits>, spec0: seq<Bits>, full0: bool)
      returns (words: seq<Bits>, spec: seq<Bits>, fullySpecified: bool)
    requires k < |s| && |words0| == VecLength(|s|) && Reading(s, words0, spec0, k)
    ensures |words| == |words0| && Reading(s, words, spec, k + 1)
    ensures fullySpecified <==> full0 && !TritOf(s[k]).Dash?
  {
    words, spec, fullySpecified := words0, spec0, full0;
    var i, curPos := k / 32, k % 32;
    if s[k] == '0' || s[k] == '1' {
      spec := spec[i := Or(spec[i], Shifted(true, curPos))];
      if s[k] == '1' {
        words := words[i := Or(words[i], Shifted(true, curPos))];
      }
    } else {
      fullySpecified := false;
    }
  }

  lemma ReadAll(s: string, c: IncSpecSeq)
    requires |s| > 0 && c.seqLength == |s| && |c.values| == VecLength(|s|)
    requires Reading(s, c.values, c.specifiedBits, |s|)
    ensures Valid(c) && forall k :: 0 <= k < |s| ==> Abs(c)[k] == TritOf(s[k])
  {
    forall k | 0 <= k < |s| ensures Valid(c) && Abs(c)[k] == TritOf(s[k]) {
      AbsAt(c, k / 32, k % 32);
    }
  }

  method ToString(c: IncSpecSeq) returns (s: string)
    requires Valid(c)
    ensures |s| == c.seqLength && forall k :: 0 <= k < |s| ==> s[k] == CharOf(Abs(c)[k])
  {
    s := "";
    for i := 0 to c.seqLength
      invariant |s| == i && forall k :: 0 <= k < i ==> s[k] == CharOf(Abs(c)[k])
    {
      var curPos := i % 32;
      AbsAt(c, i / 32, curPos);
      if !c.specifiedBits[i / 32][curPos] {
        s := s + ['-'];
      } else {
        s := s + [if c.values[i / 32][curPos] then '1' else '0'];
      }
    }
  }

  /** Printing a cube and reading it back gives the same packed words. */
  method RoundTrip(c: IncSpecSeq) returns (c2: IncSpecSeq, fullySpecified: bool)
    requires Valid(c)
    ensures c2 == c && (fullySpecified <==> FullySpecified(Abs(c)))
  {
    var s := ToString(c);
    c2, fullySpecified := FromString(s);
    assert Abs(c2) == Abs(c);
    EqualsMeans(c, c2);
  }

  // ----- queries: whole words at a time -----

  predicate SameShape(c: IncSpecSeq, other: IncSpecSeq) {
    |c.values| == |c.specifiedBits| == |other.values| == |other.specifiedBits|
  }

  /** Word `i` restricted to the positions specified in both cubes. */
  function Masked(c: IncSpecSeq, other: IncSpecSeq, i: nat): Bits
    requires SameShape(c, other) && i < |c.values|
  {
    And(c.values[i], And(c.specifiedBits[i], other.specifiedBits[i]))
  }

  predicate IsCompatible(c: IncSpecSeq, other: IncSpecSeq)
    requires SameShape(c, other)
  {
    forall i :: 0 <= i < |c.values| ==> Masked(c, other, i) == Masked(other, c, i)
  }

  predicate IsDisjoint(c: IncSpecSeq, other: IncSpecSeq)
    requires SameShape(c, other)
  {
    exists i :: 0 <= i < |c.values| && Masked(c, other, i) != Masked(other, c, i)
  }

  predicate IsSubset(c: IncSpecSeq, other: IncSpecSeq)
    requires SameShape(c, other)
  {
    && (forall i :: 0 <= i < |c.values| ==> And(other.specifiedBits[i], c.specifiedBits[i]) == other.specifiedBits[i])
    && IsCompatible(c, other)
  }

  predicate Equals(c: IncSpecSeq, other: IncSpecSeq) {
    c.values == other.values && c.specifiedBits == other.specifiedBits
  }

  lemma ClashBit(c: IncSpecSeq, other: IncSpecSeq, i: nat, b: nat)
    requires Valid(c) && Valid(other) && c.seqLength == other.seqLength && i < |c.values| && b < 32
    ensures Masked(c, other, i)[b] != Masked(other, c, i)[b] <==>
            32 * i + b < c.seqLength && Clash(Abs(c)[32 * i + b], Abs(other)[32 * i + b])
  {
    if 32 * i + b < c.seqLength {
      AbsAt(c, i, b);
      AbsAt(other, i, b);
    }
  }

  /** `isCompatible` and `isDisjoint` on words are those of the cubes. */
  lemma IsCompatibleMeans(c: IncSpecSeq, other: IncSpecSeq)
    requires Valid(c) && Valid(other) && c.seqLength == other.seqLength
    ensures IsCompatible(c, other) <==> !Disjoint(Abs(c), Abs(other))
    ensures IsDisjoint(c, other) <==> Disjoint(Abs(c), Abs(other))
  {
    if !IsCompatible(c, other) {
      var i :| 0 <= i < |c.values| && Masked(c, other, i) != Masked(other, c, i);
      var b :| 0 <= b < 32 && Masked(c, other, i)[b] != Masked(other, c, i)[b];
      ClashBit(c, other, i, b);
    }
    if Disjoint(Abs(c), Abs(other)) {
      var k :| 0 <= k < c.seqLength && Clash(Abs(c)[k], Abs(other)[k]);
      ClashBit(c, other, k / 32, k % 32);
    }
  }

  /** `isSubset` on words is inclusion of the cubes. */
  lemma IsSubsetMeans(c: IncSpecSeq, other: IncSpecSeq)
    requires Valid(c) && Valid(other) && c.seqLength == other.seqLength
    ensures IsSubset(c, other) <==> Subset(Abs(c), Abs(other))
  {
    IsCompatibleMeans(c, other);
    if IsSubset(c, other) {
      forall k | 0 <= k < c.seqLength ensures Abs(other)[k].Dash? || Abs(c)[k] == Abs(other)[k] {
        AbsAt(c, k / 32, k % 32);
        AbsAt(other, k / 32, k % 32);
        assert And(other.specifiedBits[k / 32], c.specifiedBits[k / 32])[k % 32] == other.specifiedBits[k / 32][k % 32];
        assert !Clash(Abs(c)[k], Abs(other)[k]);
      }
    }
    if Subset(Abs(c), Abs(other)) {
      forall i | 0 <= i < |c.values| ensures And(other.specifiedBits[i], c.specifiedBits[i]) == other.specifiedBits[i] {
        forall b | 0 <= b < 32 && other.specifiedBits[i][b] ensures c.specifiedBits[i][b] {
          AbsAt(other, i, b);
          AbsAt(c, i, b);
        }
      }
      forall k | 0 <= k < c.seqLength ensures !Clash(Abs(c)[k], Abs(other)[k]) {
        assert Abs(other)[k].Dash? || Abs(c)[k] == Abs(other)[k];
      }
    }
  }

  /** Equal words are equal cubes: the packing is canonical. */
  lemma EqualsMeans(c: IncSpecSeq, other: IncSpecSeq)
    requires Valid(c) && Valid(other) && c.seqLength == other.seqLength
    ensures Equals(c, other) <==> Abs(c) == Abs(other)
  {
    if Abs(c) == Abs(other) {
      forall i | 0 <= i < |c.values| ensures c.values[i] == other.values[i] && c.specifiedBits[i] == other.specifiedBits[i] {
        forall b | 0 <= b < 32 ensures c.values[i][b] == other.values[i][b] && c.specifiedBits[i][b] == other.specifiedBits[i][b] {
          if 32 * i + b < c.seqLength {
            AbsAt(c, i, b);
            AbsAt(other, i, b);
          }
        }
      }
    }
  }

  // ----- intersect and diff -----

  method IntersectWith(c: IncSpecSeq, other: IncSpecSeq) returns (ret: IncSpecSeq)
    requires Valid(c) && Valid(other) && c.seqLength == other.seqLength
    ensures Valid(ret) && ret.seqLength == c.seqLength
    ensures Abs(ret) == Intersect(Abs(c), Abs(other))
  {
    var words: seq<Bits>, spec: seq<Bits> := [], [];
    for i := 0 to |c.values|
      invariant |words| == |spec| == i
      invariant forall j :: 0 <= j < i ==> spec[j] == Or(c.specifiedBits[j], other.specifiedBits[j])
      invariant forall j :: 0 <= j < i ==>
                  words[j] == Or(And(c.values[j], c.specifiedBits[j]), And(other.values[j], other.specifiedBits[j]))
    {
      spec := spec + [Or(c.specifiedBits[i], other.specifiedBits[i])];
      words := words + [Or(And(c.values[i], c.specifiedBits[i]), And(other.values[i], other.specifiedBits[i]))];
    }
    ret := IncSpecSeq(words, spec, c.seqLength);
    OrIsIntersect(c, other, ret);
  }

  lemma OrIsIntersect(c: IncSpecSeq, other: IncSpecSeq, ret: IncSpecSeq)
    requires Valid(c) && Valid(other) && c.seqLength == other.seqLength == ret.seqLength
    requires |ret.values| == |ret.specifiedBits| == |c.values|
    requires forall j :: 0 <= j < |ret.values| ==>
               ret.specifiedBits[j] == Or(c.specifiedBits[j], other.specifiedBits[j]) &&
               ret.values[j] == Or(And(c.values[j], c.specifiedBits[j]), And(other.values[j], other.specifiedBits[j]))
    ensures Valid(ret) && Abs(ret) == Intersect(Abs(c), Abs(other))
  {
    assert Valid(ret);
    forall k | 0 <= k < c.seqLength ensures Abs(ret)[k] == Intersect(Abs(c), Abs(other))[k] {
      AbsAt(c, k / 32, k % 32);
      AbsAt(other, k / 32, k % 32);
      AbsAt(ret, k / 32, k % 32);
    }
  }

  /** Narrows an unspecified position of a cube to the value `t`. */
  function SetPosition(c: IncSpecSeq, i: nat, b: nat, t: bool): IncSpecSeq
    requires i < |c.values| && i < |c.specifiedBits| && b < 32
  {
    c.(specifiedBits := c.specifiedBits[i := Or(c.specifiedBits[i], Shifted(true, b))],
       values := c.values[i := Or(c.values[i], Shifted(t, b))])
  }

  lemma SetPositionValid(c: IncSpecSeq, i: nat, b: nat, t: bool)
    requires Valid(c) && b < 32 && 32 * i + b < c.seqLength
    ensures i < |c.values| && Valid(SetPosition(c, i, b, t))
  {}

  lemma SetPositionIs(c: IncSpecSeq, i: nat, b: nat, t: bool)
    requires Valid(c) && b < 32 && 32 * i + b < c.seqLength && Abs(c)[32 * i + b].Dash?
    ensures i < |c.values| && Valid(SetPosition(c, i, b, t))
    ensures Abs(SetPosition(c, i, b, t)) == Abs(c)[32 * i + b := if t then One else Zero]
  {
    SetPositionValid(c, i, b, t);
    AbsAt(c, i, b);
    var c2 := SetPosition(c, i, b, t);
    forall p | 0 <= p < c.seqLength ensures Abs(c2)[p] == Abs(c)[32 * i + b := if t then One else Zero][p] {
      assert p == 32 * (p / 32) + p % 32;
    }
  }

  /** The packed pieces stand for the ternary pieces. */
  ghost predicate Represents(pieces: seq<IncSpecSeq>, cubes: seq<Cube>) {
    |pieces| == |cubes| && forall i :: 0 <= i < |pieces| ==> Valid(pieces[i]) && Abs(pieces[i]) == cubes[i]
  }

  /** What the bit loop knows before position `p`. */
  ghost predicate Diffing(c: IncSpecSeq, other: IncSpecSeq, last: IncSpecSeq, ret: seq<IncSpecSeq>, done: seq<Cube>, p: nat)
    requires Valid(c) && Valid(other)
  {
    && Valid(last) && c.seqLength == other.seqLength == last.seqLength && p <= c.seqLength
    && Represents(ret, done)
    && (forall k :: p <= k < c.seqLength ==> Abs(last)[k] == Abs(c)[k])
    && Diff(Abs(c), Abs(other)) == done + DiffFrom(Abs(last), Abs(other), p)
  }

  lemma DiffingLast(c: IncSpecSeq, other: IncSpecSeq, last: IncSpecSeq, ret: seq<IncSpecSeq>, done: seq<Cube>, p: nat)
    requires Valid(c) && Valid(other) && Diffing(c, other, last, ret, done, p) && p < c.seqLength
    ensures Valid(last) && c.seqLength == other.seqLength == last.seqLength && Abs(last)[p] == Abs(c)[p]
  {}

  /** Position `p` is free here and fixed in `other`: one piece leaves, the rest narrows. */
  lemma DiffCut(c: IncSpecSeq, other: IncSpecSeq, last: IncSpecSeq, ret: seq<IncSpecSeq>, done: seq<Cube>, i: nat, b: nat, v: bool)
    requires Valid(c) && Valid(other) && b < 32 && 32 * i + b < c.seqLength
    requires Diffing(c, other, last, ret, done, 32 * i + b)
    requires Abs(c)[32 * i + b].Dash? && Abs(other)[32 * i + b] == if v then One else Zero
    ensures i < |last.values| && i < |last.specifiedBits| && Valid(SetPosition(last, i, b, !v))
    ensures Diffing(c, other, SetPosition(last, i, b, v), ret + [SetPosition(last, i, b, !v)],
                    done + [Abs(SetPosition(last, i, b, !v))], 32 * i + b + 1)
  {
    DiffingLast(c, other, last, ret, done, 32 * i + b);
    SetPositionIs(last, i, b, !v);
    SetPositionIs(last, i, b, v);
    DiffNarrow(c, other, last, ret, done, 32 * i + b, SetPosition(last, i, b, !v), SetPosition(last, i, b, v));
  }

  lemma DiffNarrow(c: IncSpecSeq, other: IncSpecSeq, last: IncSpecSeq, ret: seq<IncSpecSeq>, done: seq<Cube>, p: nat,
                   newSeq: IncSpecSeq, last2: IncSpecSeq)
    requires Valid(c) && Valid(other) && Diffing(c, other, last, ret, done, p) && p < c.seqLength
    requires Valid(newSeq) && Valid(last2) && newSeq.seqLength == last2.seqLength == c.seqLength == other.seqLength
    requires Valid(last) && last.seqLength == c.seqLength && Abs(last)[p].Dash? && !Abs(other)[p].Dash?
    requires Abs(newSeq) == Abs(last)[p := Flip(Abs(other)[p])] && Abs(last2) == Abs(last)[p := Abs(other)[p]]
    ensures Diffing(c, other, last2, ret + [newSeq], done + [Abs(newSeq)], p + 1)
  {
    hide Valid, Abs;
    var piece, rest := Abs(newSeq), Abs(last2);
    assert DiffFrom(Abs(last), Abs(other), p) == [piece] + DiffFrom(rest, Abs(other), p + 1);
    assert done + ([piece] + DiffFrom(rest, Abs(other), p + 1)) == (done + [piece]) + DiffFrom(rest, Abs(other), p + 1);
  }

  lemma DiffSkip(c: IncSpecSeq, other: IncSpecSeq, last: IncSpecSeq, ret: seq<IncSpecSeq>, done: seq<Cube>, p: nat)
    requires Valid(c) && Valid(other) && Diffing(c, other, last, ret, done, p) && p < c.seqLength
    requires !Abs(c)[p].Dash? || Abs(other)[p].Dash?
    ensures Diffing(c, other, last, ret, done, p + 1)
  {}

  method DiffBit(c: IncSpecSeq, other: IncSpecSeq, i: nat, b: nat, last0: IncSpecSeq, ret0: seq<IncSpecSeq>, ghost done0: seq<Cube>)
      returns (last: IncSpecSeq, ret: seq<IncSpecSeq>, ghost done: seq<Cube>)
    requires Valid(c) && Valid(other) && b < 32 && 32 * i + b < c.seqLength
    requires Diffing(c, other, last0, ret0, done0, 32 * i + b)
    ensures Diffing(c, other, last, ret, done, 32 * i + b + 1)
  {
    hide Diffing, Represents;
    DiffingLast(c, other, last0, ret0, done0, 32 * i + b);
    AbsAt(c, i, b);
    AbsAt(other, i, b);
    if !c.specifiedBits[i][b] && other.specifiedBits[i][b] {
      var otherBitNew := !other.values[i][b];
      var otherBitLast := other.values[i][b];
      DiffCut(c, other, last0, ret0, done0, i, b, otherBitLast);
      var newSeq := SetPosition(last0, i, b, otherBitNew);
      last := SetPosition(last0, i, b, otherBitLast);
      ret := ret0 + [newSeq];
      done := done0 + [Abs(newSeq)];
    } else {
      DiffSkip(c, other, last0, ret0, done0, 32 * i + b);
      last, ret, done := last0, ret0, done0;
    }
  }

  function Clip(p: nat, n: nat): nat {
    if p < n then p else n
  }

  lemma ClipAtEnd(n: nat)
    requires n > 0
    ensures Clip(32 * VecLength(n), n) == n
  {}

  lemma DiffingStart(c: IncSpecSeq, other: IncSpecSeq)
    requires Valid(c) && Valid(other) && c.seqLength == other.seqLength
    ensures Diffing(c, other, c, [], [], Clip(0, c.seqLength))
  {
    assert [] + DiffFrom(Abs(c), Abs(other), 0) == DiffFrom(Abs(c), Abs(other), 0);
  }

  method DiffWith(c: IncSpecSeq, other: IncSpecSeq) returns (ret: seq<IncSpecSeq>)
    requires Valid(c) && Valid(other) && c.seqLength == other.seqLength
    ensures Represents(ret, Diff(Abs(c), Abs(other)))
  {
    hide Diffing, Represents;
    var last := c;
    ret := [];
    ghost var done: seq<Cube> := [];
    DiffingStart(c, other);
    for i := 0 to |c.values|
      invariant Diffing(c, other, last, ret, done, Clip(32 * i, c.seqLength))
    {
      for b := 0 to 32
        invariant Diffing(c, other, last, ret, done, Clip(32 * i + b, c.seqLength))
      {
        if i * 32 + b >= c.seqLength { break; }
        last, ret, done := DiffBit(c, other, i, b, last, ret, done);
      }
    }
    ClipAtEnd(c.seqLength);
    DiffEnd(c, other, last, ret, done);
  }

  lemma DiffEnd(c: IncSpecSeq, other: IncSpecSeq, last: IncSpecSeq, ret: seq<IncSpecSeq>, done: seq<Cube>)
    requires Valid(c) && Valid(other) && Diffing(c, other, last, ret, done, c.seqLength)
    ensures Represents(ret, Diff(Abs(c), Abs(other)))
  {
    assert DiffFrom(Abs(last), Abs(other), c.seqLength) == [];
    assert done + [] == done;
  }
}
