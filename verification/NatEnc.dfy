/** nat_enc: compiling a state table to latches and sum-of-products covers (misc/natEnc.cpp). */
module NatEnc {
  import opened Options

  // ----- tables -----

  datatype Row = Row(input: string, cur: string, nxt: string, output: string)

  predicate Ternary(s: string) {
    forall i :: 0 <= i < |s| ==> s[i] in "01-"
  }

  /** A state table as the KISS format describes it. */
  predicate GoodTable(table: seq<Row>, nIn: nat, nOut: nat) {
    forall j :: 0 <= j < |table| ==> GoodRow(table[j], nIn, nOut)
  }

  predicate GoodRow(row: Row, nIn: nat, nOut: nat) {
    |row.input| == nIn && |row.output| == nOut && Ternary(row.input) && Ternary(row.output)
  }

  /** A cube covers an input vector. */
  predicate Matches(pat: string, v: seq<bool>) {
    |pat| == |v| && forall i :: 0 <= i < |v| ==> Fits(pat[i], v[i])
  }

  predicate Fits(c: char, b: bool) {
    c == '-' || (c == '1') == b
  }

  predicate Applies(row: Row, s: string, v: seq<bool>) {
    row.cur == s && Matches(row.input, v)
  }

  function FillChar(c: char, dcVal: bool): char {
    if c != '-' then c else if dcVal then '1' else '0'
  }

  function Filled(output: string, dcVal: bool): (r: string)
    ensures |r| == |output|
  {
    seq(|output|, i requires 0 <= i < |output| => FillChar(output[i], dcVal))
  }

  // ----- state names and codes -----

  function AddName(names: seq<string>, s: string): seq<string> {
    if s in names then names else names + [s]
  }

  /** The states, in the order in which the rows first mention them. */
  function Names(table: seq<Row>): seq<string> {
    if table == [] then []
    else var last := table[|table| - 1]; AddName(AddName(Names(table[..|table| - 1]), last.cur), last.nxt)
  }

  predicate NoDup(names: seq<string>) {
    forall i, j :: 0 <= i < j < |names| ==> names[i] != names[j]
  }

  predicate Mentions(table: seq<Row>, s: string) {
    exists j :: 0 <= j < |table| && (table[j].cur == s || table[j].nxt == s)
  }

  lemma MentionsLast(table: seq<Row>, s: string)
    requires table != []
    ensures var last := table[|table| - 1];
            Mentions(table, s) <==> Mentions(table[..|table| - 1], s) || last.cur == s || last.nxt == s
  {
    var rest := table[..|table| - 1];
    if Mentions(rest, s) {
      var j :| 0 <= j < |rest| && (rest[j].cur == s || rest[j].nxt == s);
      assert table[j] == rest[j];
    }
    if Mentions(table, s) {
      var j :| 0 <= j < |table| && (table[j].cur == s || table[j].nxt == s);
      if j < |rest| {
        assert rest[j] == table[j];
      }
    }
  }

  /** Every state mentioned is listed, and nothing else is. */
  lemma {:induction false} NamesListed(table: seq<Row>, s: string)
    ensures s in Names(table) <==> Mentions(table, s)
  {
    if table != [] {
      NamesListed(table[..|table| - 1], s);
      MentionsLast(table, s);
    }
  }

  /** No state is listed twice. */
  lemma {:induction false} NamesOnce(table: seq<Row>)
    ensures NoDup(Names(table))
  {
    if table != [] {
      var rest, last := table[..|table| - 1], table[|table| - 1];
      NamesOnce(rest);
      AddOnce(Names(rest), last.cur);
      AddOnce(AddName(Names(rest), last.cur), last.nxt);
    }
  }

  lemma AddOnce(names: seq<string>, s: string)
    requires NoDup(names)
    ensures NoDup(AddName(names, s))
  {}

  lemma RowListed(table: seq<Row>, j: nat)
    requires j < |table|
    ensures table[j].cur in Names(table) && table[j].nxt in Names(table)
  {
    NamesListed(table, table[j].cur);
    NamesListed(table, table[j].nxt);
  }

  function IndexOf(names: seq<string>, s: string): (k: nat)
    requires s in names
    ensures k < |names| && names[k] == s
  {
    if names[0] == s then 0 else 1 + IndexOf(names[1..], s)
  }

  function Digit(n: nat): char {
    if n % 2 == 0 then '0' else '1'
  }

  /** The low `k` binary digits of n, most significant first. */
  function Binary(n: nat, k: nat): (r: string)
    ensures |r| == k
    decreases k
  {
    if k == 0 then "" else Binary(n / 2, k - 1) + [Digit(n)]
  }

  /** The digits of n without leading zeros; one for 0. */
  function Bits(n: nat): (b: nat)
    ensures b > 0
  {
    if n / 2 == 0 then 1 else 1 + Bits(n / 2)
  }

  lemma {:induction false} BitsMonotone(n: nat, m: nat)
    requires n <= m
    ensures Bits(n) <= Bits(m)
  {
    if n / 2 != 0 {
      BitsMonotone(n / 2, m / 2);
    }
  }

  lemma {:induction false} BinaryInjective(n: nat, m: nat, k: nat)
    requires Bits(n) <= k && Bits(m) <= k && Binary(n, k) == Binary(m, k)
    ensures n == m
    decreases k
  {
    var a, b := Binary(n, k), Binary(m, k);
    assert a[k - 1] == Digit(n) && b[k - 1] == Digit(m);
    assert a[..k - 1] == Binary(n / 2, k - 1) && b[..k - 1] == Binary(m / 2, k - 1);
    if k > 1 {
      BinaryInjective(n / 2, m / 2, k - 1);
    }
  }

  lemma {:induction false} BinaryDigits(n: nat, k: nat)
    ensures forall i :: 0 <= i < k ==> Binary(n, k)[i] in "01"
    decreases k
  {
    if k > 0 {
      BinaryDigits(n / 2, k - 1);
    }
  }

  function Power2(k: nat): nat {
    if k == 0 then 1 else 2 * Power2(k - 1)
  }

  /** The number that a string of digits stands for, most significant first. */
  function ValueOf(s: string): nat {
    if s == "" then 0 else 2 * ValueOf(s[..|s| - 1]) + if s[|s| - 1] == '1' then 1 else 0
  }

  /** Bits(n) digits are enough for n, and fewer are not. */
  lemma {:induction false} BitsAreEnough(n: nat)
    ensures n < Power2(Bits(n)) && (n > 0 ==> Power2(Bits(n) - 1) <= n)
  {
    if n / 2 != 0 {
      BitsAreEnough(n / 2);
    } else {
      assert Power2(0) == 1 && Power2(1) == 2 * Power2(0);
    }
  }

  lemma {:induction false} Power2Grows(k: nat, l: nat)
    requires k <= l
    ensures Power2(k) <= Power2(l)
    decreases l
  {
    if k < l {
      Power2Grows(k, l - 1);
    }
  }

  /** Read back as a number the digits give n. */
  lemma {:induction false} BinaryValue(n: nat, k: nat)
    requires n < Power2(k)
    ensures ValueOf(Binary(n, k)) == n
    decreases k
  {
    if k > 0 {
      BinaryValue(n / 2, k - 1);
      var r := Binary(n, k);
      assert r[..k - 1] == Binary(n / 2, k - 1) && r[k - 1] == Digit(n);
    }
  }

  /** n without its low k digits. */
  function Shift(n: nat, k: nat): nat
    decreases k
  {
    if k == 0 then n else Shift(n / 2, k - 1)
  }

  lemma {:induction false} ShiftNext(n: nat, k: nat)
    ensures Shift(n, k + 1) == Shift(n, k) / 2
    ensures Binary(n, k + 1) == [Digit(Shift(n, k))] + Binary(n, k)
    decreases k
  {
    if k > 0 {
      ShiftNext(n / 2, k - 1);
      calc {
        Binary(n, k + 1);
        Binary(n / 2, k) + [Digit(n)];
        ([Digit(Shift(n / 2, k - 1))] + Binary(n / 2, k - 1)) + [Digit(n)];
        [Digit(Shift(n, k))] + (Binary(n / 2, k - 1) + [Digit(n)]);
      }
    }
  }

  /** The code of a state of the table. */
  function Code(table: seq<Row>, s: string): (r: string)
    requires s in Names(table)
    ensures |r| == Width(table)
  {
    Binary(IndexOf(Names(table), s), Width(table))
  }

  function Width(table: seq<Row>): nat {
    var n := |Names(table)|;
    Bits(if n == 0 then 0 else n - 1)
  }

  function IsOne(s: string): (r: seq<bool>)
    ensures |r| == |s|
  {
    seq(|s|, i requires 0 <= i < |s| => s[i] == '1')
  }

  lemma CodeDigit(table: seq<Row>, s: string, b: nat)
    requires s in Names(table) && b < Width(table)
    ensures Code(table, s)[b] in "01"
  {
    hide Names, IndexOf, Width;
    BinaryDigits(IndexOf(Names(table), s), Width(table));
  }

  lemma IndexFits(table: seq<Row>, s: string)
    requires s in Names(table)
    ensures Bits(IndexOf(Names(table), s)) <= Width(table)
  {
    hide Names, Bits;
    BitsMonotone(IndexOf(Names(table), s), |Names(table)| - 1);
  }

  /** Codes fill the width exactly and differ for different states. */
  lemma CodesDiffer(table: seq<Row>, s: string, u: string)
    requires s in Names(table) && u in Names(table)
    ensures |Code(table, s)| == Width(table) && (Code(table, s) == Code(table, u) <==> s == u)
  {
    hide Names, Bits, Width, Binary;
    if Code(table, s) == Code(table, u) {
      IndexFits(table, s);
      IndexFits(table, u);
      BinaryInjective(IndexOf(Names(table), s), IndexOf(Names(table), u), Width(table));
    }
  }

  /** A code is the position of its state in the list, in binary. */
  lemma CodeIsPosition(table: seq<Row>, s: string)
    requires s in Names(table)
    ensures ValueOf(Code(table, s)) < |Names(table)| && Names(table)[ValueOf(Code(table, s))] == s
  {
    hide Names, Binary, Bits, Power2;
    var k := IndexOf(Names(table), s);
    IndexFits(table, s);
    BitsAreEnough(k);
    Power2Grows(Bits(k), Width(table));
    BinaryValue(k, Width(table));
  }

  /** The width is the least with which all states can be told apart, and at least one. */
  lemma WidthIsLeast(table: seq<Row>)
    ensures Width(table) > 0 && |Names(table)| <= Power2(Width(table))
    ensures |Names(table)| > 1 ==> |Names(table)| > Power2(Width(table) - 1)
  {
    hide Names;
    BitsAreEnough(if |Names(table)| == 0 then 0 else |Names(table)| - 1);
  }

  /** Place `p` of the table, reading each row's state and then its next state. */
  function StateAt(table: seq<Row>, p: nat): string
    requires p < 2 * |table|
  {
    if p % 2 == 0 then table[p / 2].cur else table[p / 2].nxt
  }

  ghost predicate FirstAt(table: seq<Row>, s: string, p: nat) {
    p < 2 * |table| && StateAt(table, p) == s && forall q: nat :: q < p ==> StateAt(table, q) != s
  }

  ghost predicate FirstBefore(table: seq<Row>, s: string, p: nat) {
    exists q: nat :: q < p && FirstAt(table, s, q)
  }

  /** `names` lists the states of the first `p` places by their first places. */
  ghost predicate ByFirstPlace(table: seq<Row>, names: seq<string>, p: nat)
    requires p <= 2 * |table|
  {
    && (forall q: nat :: q < p ==> StateAt(table, q) in names)
    && (forall i :: 0 <= i < |names| ==> FirstBefore(table, names[i], p))
    && (forall i, j, q: nat, r: nat :: 0 <= i < j < |names| && FirstAt(table, names[i], q) && FirstAt(table, names[j], r) ==> q < r)
  }

  lemma PlaceAdded(table: seq<Row>, names: seq<string>, p: nat)
    requires p < 2 * |table| && ByFirstPlace(table, names, p)
    ensures ByFirstPlace(table, AddName(names, StateAt(table, p)), p + 1)
  {
    var s, names2, p1 := StateAt(table, p), AddName(names, StateAt(table, p)), p + 1;
    if s !in names {
      assert FirstAt(table, s, p);
      assert names2[|names|] == s;
    }
    forall i | 0 <= i < |names2| ensures FirstBefore(table, names2[i], p1) {
      if i < |names| {
        assert FirstBefore(table, names[i], p);
      }
    }
    forall i, j, q: nat, r: nat | 0 <= i < j < |names2| && FirstAt(table, names2[i], q) && FirstAt(table, names2[j], r) ensures q < r {
      if j == |names| {
        assert FirstBefore(table, names[i], p);
        var q2: nat :| q2 < p && FirstAt(table, names[i], q2);
        SameFirst(table, names[i], q, q2);
        SameFirst(table, s, r, p);
      }
    }
  }

  lemma SameFirst(table: seq<Row>, s: string, q: nat, r: nat)
    requires FirstAt(table, s, q) && FirstAt(table, s, r)
    ensures q == r
  {}

  lemma RowPlaces(table: seq<Row>, names: seq<string>, j: nat)
    requires j < |table| && ByFirstPlace(table, names, 2 * j)
    ensures ByFirstPlace(table, AddName(AddName(names, table[j].cur), table[j].nxt), 2 * j + 2)
  {
    hide ByFirstPlace, AddName;
    var p := 2 * j;
    PlaceAdded(table, names, p);
    assert StateAt(table, p) == table[j].cur && StateAt(table, p + 1) == table[j].nxt;
    PlaceAdded(table, AddName(names, table[j].cur), p + 1);
  }

  lemma NamesNext(rows: seq<Row>, j: nat)
    requires j < |rows|
    ensures Names(rows[..j + 1]) == AddName(AddName(Names(rows[..j]), rows[j].cur), rows[j].nxt)
  {
    assert rows[..j + 1][..j] == rows[..j];
  }

  lemma {:induction false} NamesPlaced(table: seq<Row>, n: nat)
    requires n <= |table|
    ensures ByFirstPlace(table, Names(table[..n]), 2 * n)
  {
    if n > 0 {
      hide ByFirstPlace, AddName;
      NamesPlaced(table, n - 1);
      NamesNext(table, n - 1);
      RowPlaces(table, Names(table[..n - 1]), n - 1);
    } else {
      assert table[..0] == [] && Names(table[..0]) == [];
    }
  }

  /** The states are listed in the order in which the table first mentions them. */
  lemma NamesInOrder(table: seq<Row>, i: nat, j: nat, q: nat, r: nat)
    requires i < j < |Names(table)| && FirstAt(table, Names(table)[i], q) && FirstAt(table, Names(table)[j], r)
    ensures q < r
  {
    NamesPlaced(table, |table|);
    assert table[..|table|] == table;
  }

  // ----- the circuit -----

  datatype Line = Line(pattern: string, val: char)

  /** Latches start at `init`; `next` and `outs` are covers over the inputs and then the latches. */
  datatype Blif = Blif(init: string, next: seq<seq<Line>>, outs: seq<seq<Line>>)

  /** A BLIF cover lists either the on-set (lines ending in 1) or the off-set. */
  ghost predicate CoverValue(cover: seq<Line>, v: seq<bool>) {
    cover != [] && (cover[0].val == '1') == SomeMatch(cover, v)
  }

  ghost predicate SomeMatch(cover: seq<Line>, v: seq<bool>) {
    exists l :: 0 <= l < |cover| && Matches(cover[l].pattern, v)
  }

  ghost function Latches(c: Blif, w: seq<seq<bool>>, t: nat): (lat: seq<bool>)
    requires t <= |w|
  {
    if t == 0 then IsOne(c.init) else StepFrom(c, w[t - 1], Latches(c, w, t - 1))
  }

  ghost function StepFrom(c: Blif, v: seq<bool>, lat: seq<bool>): seq<bool> {
    seq(|c.next|, b requires 0 <= b < |c.next| => CoverValue(c.next[b], v + lat))
  }

  ghost function Outputs(c: Blif, v: seq<bool>, lat: seq<bool>): seq<bool> {
    seq(|c.outs|, i requires 0 <= i < |c.outs| => CoverValue(c.outs[i], v + lat))
  }

  // ----- what compiling means -----

  /** A don't-care becomes 1 exactly if dcVal is set; every other character stays. */
  lemma FilledIs(output: string, dcVal: bool)
    ensures forall i :: 0 <= i < |output| && output[i] != '-' ==> Filled(output, dcVal)[i] == output[i]
    ensures forall i :: 0 <= i < |output| && output[i] == '-' ==> Filled(output, dcVal)[i] == if dcVal then '1' else '0'
  {}

  /** Some row that applies puts a 1 at bit b of the next state's code. */
  ghost predicate NextBit(table: seq<Row>, s: string, v: seq<bool>, b: nat)
    requires b < Width(table)
  {
    exists j :: 0 <= j < |table| && Applies(table[j], s, v) && table[j].nxt in Names(table) && Code(table, table[j].nxt)[b] == '1'
  }

  ghost predicate OutBit(table: seq<Row>, dcVal: bool, s: string, v: seq<bool>, i: nat) {
    exists j :: 0 <= j < |table| && Applies(table[j], s, v) && i < |table[j].output| &&
      (table[j].output[i] == '1' || (table[j].output[i] == '-' && dcVal))
  }

  /** From the code of any state, each bit is the union over the rows that apply. */
  ghost predicate Compiled(table: seq<Row>, nIn: nat, nOut: nat, dcVal: bool, reset: string, c: Blif) {
    && reset in Names(table) && c.init == Code(table, reset) && |c.next| == Width(table) && |c.outs| == nOut
    && (forall s, v, b: nat :: s in Names(table) && |v| == nIn && b < Width(table) ==>
          (StepFrom(c, v, IsOne(Code(table, s)))[b] <==> NextBit(table, s, v, b)))
    && (forall s, v, i: nat :: s in Names(table) && |v| == nIn && i < nOut ==>
          (Outputs(c, v, IsOne(Code(table, s)))[i] <==> OutBit(table, dcVal, s, v, i)))
  }

  /** Rows that apply together agree. */
  ghost predicate Deterministic(table: seq<Row>, dcVal: bool) {
    forall i, j, v :: 0 <= i < |table| && 0 <= j < |table| && Together(table[i], table[j], v) ==>
      table[i].nxt == table[j].nxt && Filled(table[i].output, dcVal) == Filled(table[j].output, dcVal)
  }

  predicate Together(a: Row, b: Row, v: seq<bool>) {
    a.cur == b.cur && Matches(a.input, v) && Matches(b.input, v)
  }

  lemma NextIs(table: seq<Row>, dcVal: bool, j: nat, v: seq<bool>, b: nat)
    requires Deterministic(table, dcVal) && j < |table| && Matches(table[j].input, v) && b < Width(table)
    ensures table[j].nxt in Names(table)
    ensures NextBit(table, table[j].cur, v, b) <==> Code(table, table[j].nxt)[b] == '1'
  {
    RowListed(table, j);
    var s := table[j].cur;
    assert Applies(table[j], s, v);
    if NextBit(table, s, v, b) {
      var i :| 0 <= i < |table| && Applies(table[i], s, v) && table[i].nxt in Names(table) && Code(table, table[i].nxt)[b] == '1';
      assert Together(table[i], table[j], v);
    }
  }

  lemma OutputIs(table: seq<Row>, dcVal: bool, j: nat, v: seq<bool>, i: nat)
    requires Deterministic(table, dcVal) && j < |table| && Matches(table[j].input, v) && i < |table[j].output|
    ensures OutBit(table, dcVal, table[j].cur, v, i) <==> Filled(table[j].output, dcVal)[i] == '1'
  {
    var s := table[j].cur;
    assert Applies(table[j], s, v);
    if OutBit(table, dcVal, s, v, i) {
      var k :| 0 <= k < |table| && Applies(table[k], s, v) && i < |table[k].output| &&
        (table[k].output[i] == '1' || (table[k].output[i] == '-' && dcVal));
      assert Together(table[k], table[j], v);
      assert Filled(table[k].output, dcVal)[i] == '1';
    }
  }

  /** One frame: the row's next state and outputs. */
  lemma StepFollows(table: seq<Row>, nIn: nat, nOut: nat, dcVal: bool, reset: string, c: Blif, j: nat, v: seq<bool>)
    requires GoodTable(table, nIn, nOut) && Compiled(table, nIn, nOut, dcVal, reset, c) && Deterministic(table, dcVal)
    requires j < |table| && Matches(table[j].input, v)
    ensures table[j].cur in Names(table) && table[j].nxt in Names(table)
    ensures StepFrom(c, v, IsOne(Code(table, table[j].cur))) == IsOne(Code(table, table[j].nxt))
    ensures Outputs(c, v, IsOne(Code(table, table[j].cur))) == IsOne(Filled(table[j].output, dcVal))
  {
    hide Deterministic, Names, NextBit, OutBit, Compiled, Code, Width;
    RowListed(table, j);
    assert GoodRow(table[j], nIn, nOut);
    StepCode(table, nIn, nOut, dcVal, reset, c, j, v);
    StepOutputs(table, nIn, nOut, dcVal, reset, c, j, v);
  }

  lemma StepCode(table: seq<Row>, nIn: nat, nOut: nat, dcVal: bool, reset: string, c: Blif, j: nat, v: seq<bool>)
    requires Compiled(table, nIn, nOut, dcVal, reset, c) && Deterministic(table, dcVal) && |v| == nIn
    requires j < |table| && Matches(table[j].input, v) && table[j].cur in Names(table) && table[j].nxt in Names(table)
    ensures StepFrom(c, v, IsOne(Code(table, table[j].cur))) == IsOne(Code(table, table[j].nxt))
  {
    hide Deterministic, Names, NextBit, OutBit, Outputs, Code, Width, Matches;
    var lat := IsOne(Code(table, table[j].cur));
    var to := StepFrom(c, v, lat);
    forall b: nat | b < Width(table) ensures to[b] == IsOne(Code(table, table[j].nxt))[b] {
      NextIs(table, dcVal, j, v, b);
    }
    assert to == IsOne(Code(table, table[j].nxt));
  }

  lemma StepOutputs(table: seq<Row>, nIn: nat, nOut: nat, dcVal: bool, reset: string, c: Blif, j: nat, v: seq<bool>)
    requires Compiled(table, nIn, nOut, dcVal, reset, c) && Deterministic(table, dcVal) && |v| == nIn
    requires j < |table| && Matches(table[j].input, v) && table[j].cur in Names(table) && |table[j].output| == nOut
    ensures Outputs(c, v, IsOne(Code(table, table[j].cur))) == IsOne(Filled(table[j].output, dcVal))
  {
    hide Deterministic, Names, NextBit, OutBit, StepFrom, Code, Width, Matches;
    var lat := IsOne(Code(table, table[j].cur));
    var out := Outputs(c, v, lat);
    forall i: nat | i < nOut ensures out[i] == IsOne(Filled(table[j].output, dcVal))[i] {
      OutputIs(table, dcVal, j, v, i);
    }
    assert out == IsOne(Filled(table[j].output, dcVal));
  }

  /** A run along specified transitions: row `rows[t]` applies at frame t. */
  predicate Run(table: seq<Row>, reset: string, w: seq<seq<bool>>, rows: seq<nat>) {
    && |rows| == |w|
    && (forall t :: 0 <= t < |w| ==> rows[t] < |table| && Matches(table[rows[t]].input, w[t]))
    && (|w| > 0 ==> table[rows[0]].cur == reset)
    && (forall t :: 0 < t < |w| ==> table[rows[t]].cur == table[rows[t - 1]].nxt)
  }

  /** The state a run is in after t steps. */
  function RunState(table: seq<Row>, reset: string, rows: seq<nat>, t: nat): string
    requires t <= |rows| && forall u :: 0 <= u < |rows| ==> rows[u] < |table|
  {
    if t == 0 then reset else table[rows[t - 1]].nxt
  }

  lemma InitIsReset(table: seq<Row>, nIn: nat, nOut: nat, dcVal: bool, reset: string, c: Blif)
    requires Compiled(table, nIn, nOut, dcVal, reset, c)
    ensures reset in Names(table) && c.init == Code(table, reset)
  {}

  /** Along every specified run of a deterministic table the latches hold the code of the current
      state, and each frame's outputs are those of the row, don't-cares replaced by dcVal. */
  lemma {:induction false} RunFollows(table: seq<Row>, nIn: nat, nOut: nat, dcVal: bool, reset: string, c: Blif,
                                      w: seq<seq<bool>>, rows: seq<nat>, t: nat)
    requires GoodTable(table, nIn, nOut) && Compiled(table, nIn, nOut, dcVal, reset, c) && Deterministic(table, dcVal)
    requires Run(table, reset, w, rows) && t <= |w|
    ensures RunState(table, reset, rows, t) in Names(table)
    ensures Latches(c, w, t) == IsOne(Code(table, RunState(table, reset, rows, t)))
    ensures t < |w| ==> |Outputs(c, w[t], Latches(c, w, t))| == |table[rows[t]].output| == nOut
    ensures t < |w| ==> forall i :: 0 <= i < nOut ==>
              (Outputs(c, w[t], Latches(c, w, t))[i] <==>
               table[rows[t]].output[i] == '1' || (table[rows[t]].output[i] == '-' && dcVal))
  {
    hide Deterministic, Names, Compiled, Code, Matches, GoodTable, StepFrom, Outputs;
    InitIsReset(table, nIn, nOut, dcVal, reset, c);
    if t > 0 {
      RunFollows(table, nIn, nOut, dcVal, reset, c, w, rows, t - 1);
      StepFollows(table, nIn, nOut, dcVal, reset, c, rows[t - 1], w[t - 1]);
    }
    if t < |w| {
      StepFollows(table, nIn, nOut, dcVal, reset, c, rows[t], w[t]);
      FilledIs(table[rows[t]].output, dcVal);
      RowFits(table, nIn, nOut, rows[t]);
    }
  }

  lemma RowFits(table: seq<Row>, nIn: nat, nOut: nat, j: nat)
    requires GoodTable(table, nIn, nOut) && j < |table|
    ensures |table[j].output| == nOut
  {
    assert GoodRow(table[j], nIn, nOut);
  }

  lemma {:induction false} BinaryZero(k: nat)
    ensures forall i :: 0 <= i < k ==> Binary(0, k)[i] == '0'
  {
    if k > 0 {
      BinaryZero(k - 1);
    }
  }

  /** The state listed first has the code 0. */
  lemma FirstCode(table: seq<Row>)
    requires |Names(table)| > 0
    ensures Code(table, Names(table)[0]) == Binary(0, Width(table))
    ensures forall b :: 0 <= b < Width(table) ==> !IsOne(Code(table, Names(table)[0]))[b]
  {
    hide Width;
    BinaryZero(Width(table));
  }

  ghost predicate NoRow(table: seq<Row>, s: string, v: seq<bool>) {
    forall j :: 0 <= j < |table| ==> !Applies(table[j], s, v)
  }

  /** Where no row applies, the outputs are 0 and the circuit goes to the state listed first. */
  lemma Unspecified(table: seq<Row>, nIn: nat, nOut: nat, dcVal: bool, reset: string, c: Blif, s: string, v: seq<bool>)
    requires Compiled(table, nIn, nOut, dcVal, reset, c) && s in Names(table) && |v| == nIn && NoRow(table, s, v)
    ensures StepFrom(c, v, IsOne(Code(table, s))) == IsOne(Code(table, Names(table)[0]))
    ensures forall i :: 0 <= i < nOut ==> !Outputs(c, v, IsOne(Code(table, s)))[i]
  {
    hide Names, Applies, Width, Code, IsOne, CoverValue;
    FirstCode(table);
    var lat, first := IsOne(Code(table, s)), IsOne(Code(table, Names(table)[0]));
    var to := StepFrom(c, v, lat);
    forall b: nat | b < Width(table) ensures to[b] == first[b] {
      assert to[b] <==> NextBit(table, s, v, b);
    }
    assert to == first;
    forall i: nat | i < nOut ensures !Outputs(c, v, lat)[i] {
      assert Outputs(c, v, lat)[i] <==> OutBit(table, dcVal, s, v, i);
    }
  }

  // ----- reading and encoding -----

  /** Adds a state to the list unless it is there. */
  method Insert(names: seq<string>, s: string) returns (r: seq<string>)
    ensures r == AddName(names, s)
  {
    if |names| == 0 {
      return [s];
    }
    for j := 0 to |names|
      invariant j < |names| && s !in names[..j]
    {
      if names[j] == s {
        return names;
      } else if j == |names| - 1 {
        assert names == names[..j] + [names[j]];
        return names + [s];
      }
    }
    assert false;
  }

  method Fill(output: string, dcVal: bool) returns (r: string)
    ensures r == Filled(output, dcVal)
    ensures forall i :: 0 <= i < |output| && output[i] != '-' ==> r[i] == output[i]
    ensures forall i :: 0 <= i < |output| && output[i] == '-' ==> r[i] == if dcVal then '1' else '0'
  {
    r := output;
    for i := 0 to |output|
      invariant |r| == |output| && forall k :: 0 <= k < |r| ==> r[k] == if k < i then FillChar(output[k], dcVal) else output[k]
    {
      if r[i] == '-' {
        r := r[i := if dcVal then '1' else '0'];
      }
    }
  }

  predicate FilledRow(row: Row, row2: Row, dcVal: bool) {
    row2 == row.(output := Filled(row.output, dcVal))
  }

  predicate FilledTable(rows: seq<Row>, table: seq<Row>, dcVal: bool) {
    |table| == |rows| && forall j :: 0 <= j < |rows| ==> FilledRow(rows[j], table[j], dcVal)
  }

  /** Reads the rows, collecting states and replacing don't-care outputs. */
  method ReadTable(rows: seq<Row>, dcVal: bool) returns (names: seq<string>, table: seq<Row>)
    ensures names == Names(rows) && FilledTable(rows, table, dcVal)
  {
    hide AddName, Filled;
    names, table := [], [];
    for j := 0 to |rows|
      invariant names == Names(rows[..j]) && |table| == j
      invariant forall k :: 0 <= k < j ==> FilledRow(rows[k], table[k], dcVal)
    {
      names := Insert(names, rows[j].cur);
      names := Insert(names, rows[j].nxt);
      var output := Fill(rows[j].output, dcVal);
      table := table + [rows[j].(output := output)];
      NamesNext(rows, j);
    }
    assert rows[..|rows|] == rows;
  }

  /** C division by two rounds toward zero. */
  function Half(s: int): int {
    if s >= 0 then s / 2 else -(-s / 2)
  }

  /** How many bits `size` codes need. */
  method CountBits(size: nat) returns (bnum: nat)
    ensures bnum == Bits(if size == 0 then 0 else size - 1)
  {
    var s: int := size - 1;
    ghost var n: nat := if size == 0 then 0 else size - 1;
    bnum := 0;
    while true
      invariant s == -1 ==> size == 0 && bnum == 0
      invariant s >= -1 && bnum + Bits(if s < 0 then 0 else s) == Bits(n)
      decreases if s < 0 then 1 else s
    {
      s := Half(s);
      if s >= 0 {
        bnum := bnum + 1;
        if s == 0 {
          break;
        }
      }
    }
  }

  /** Prepends digits until n is used up, then zeros up to bnum digits. */
  method ToBinary(n0: nat, bnum: nat) returns (r: string)
    ensures r == Binary(n0, |r|) && Shift(n0, |r|) == 0
    ensures Bits(n0) <= bnum ==> |r| == bnum
    ensures ValueOf(r) == n0
  {
    r := "";
    var n := n0;
    while n != 0
      invariant r == Binary(n0, |r|) && n == Shift(n0, |r|)
      invariant if n > 0 then |r| + Bits(n) == Bits(n0) else |r| <= Bits(n0)
    {
      ShiftNext(n0, |r|);
      r := (if n % 2 == 0 then "0" else "1") + r;
      n := n / 2;
    }
    var s := |r|;
    while s < bnum
      invariant s == |r| && r == Binary(n0, s) && Shift(n0, s) == 0 && (s <= Bits(n0) || s <= bnum)
    {
      ShiftNext(n0, s);
      r := "0" + r;
      s := s + 1;
    }
    ShiftedOut(n0, |r|);
    BinaryValue(n0, |r|);
  }

  lemma {:induction false} ShiftedOut(n: nat, k: nat)
    requires Shift(n, k) == 0
    ensures n < Power2(k)
    decreases k
  {
    if k > 0 {
      ShiftedOut(n / 2, k - 1);
    }
  }

  method EncodeAll(table: seq<Row>, names: seq<string>, bnum: nat) returns (codes: seq<string>)
    requires names == Names(table) && bnum == Width(table)
    ensures |codes| == |names| && forall i :: 0 <= i < |names| ==> codes[i] == Binary(i, bnum)
  {
    hide Names, Binary, Bits;
    codes := [];
    for i := 0 to |names|
      invariant |codes| == i && forall k :: 0 <= k < i ==> codes[k] == Binary(k, bnum)
    {
      BitsMonotone(i, |names| - 1);
      var code := ToBinary(i, bnum);
      codes := codes + [code];
    }
  }

  // ----- covers -----

  ghost predicate AllNamed(table: seq<Row>) {
    forall j :: 0 <= j < |table| ==> table[j].cur in Names(table) && table[j].nxt in Names(table)
  }

  lemma TableNamed(table: seq<Row>)
    ensures AllNamed(table)
  {
    forall j | 0 <= j < |table| ensures table[j].cur in Names(table) && table[j].nxt in Names(table) {
      RowListed(table, j);
    }
  }

  /** The inputs and the current state's code, as a cover line lists them. */
  ghost function Pattern(table: seq<Row>, j: nat): string
    requires AllNamed(table) && j < |table|
  {
    table[j].input + Code(table, table[j].cur)
  }

  /** `cover` lists the patterns of the rows below `n` that are on, and no others. */
  ghost predicate Lists(cover: seq<Line>, table: seq<Row>, on: seq<bool>, n: nat)
    requires AllNamed(table)
  {
    && |on| == |table| && n <= |table|
    && (forall l :: 0 <= l < |cover| ==> cover[l].val == '1' && FromRow(cover[l].pattern, table, on, n))
    && (forall j: nat :: j < n && on[j] ==> IsListed(cover, Pattern(table, j)))
  }

  ghost predicate FromRow(pat: string, table: seq<Row>, on: seq<bool>, n: nat)
    requires AllNamed(table) && |on| == |table| && n <= |table|
  {
    exists j: nat :: j < n && on[j] && pat == Pattern(table, j)
  }

  predicate IsListed(cover: seq<Line>, pat: string) {
    exists l :: 0 <= l < |cover| && cover[l].pattern == pat
  }

  lemma ListOne(cover: seq<Line>, table: seq<Row>, on: seq<bool>, n: nat)
    requires AllNamed(table) && Lists(cover, table, on, n) && n < |table|
    ensures !on[n] ==> Lists(cover, table, on, n + 1)
    ensures on[n] ==> Lists(cover + [Line(Pattern(table, n), '1')], table, on, n + 1)
  {
    hide Pattern, AllNamed;
    var cover2 := if on[n] then cover + [Line(Pattern(table, n), '1')] else cover;
    forall l | 0 <= l < |cover2| ensures cover2[l].val == '1' && FromRow(cover2[l].pattern, table, on, n + 1) {
      if l < |cover| {
        assert FromRow(cover[l].pattern, table, on, n);
      }
    }
    forall j: nat | j < n + 1 && on[j] ensures IsListed(cover2, Pattern(table, j)) {
      if j < n {
        assert IsListed(cover, Pattern(table, j));
        var l :| 0 <= l < |cover| && cover[l].pattern == Pattern(table, j);
        assert cover2[l] == cover[l];
      } else {
        assert cover2[|cover|].pattern == Pattern(table, j);
      }
    }
  }

  lemma MatchesSplit(a: string, b: string, x: seq<bool>, y: seq<bool>)
    requires |a| == |x|
    ensures Matches(a + b, x + y) <==> Matches(a, x) && Matches(b, y)
  {
    var ab, xy := a + b, x + y;
    if Matches(ab, xy) {
      assert forall i :: 0 <= i < |a| ==> ab[i] == a[i] && xy[i] == x[i];
      forall i | 0 <= i < |b| ensures Fits(b[i], y[i]) {
        assert Fits(ab[|a| + i], xy[|a| + i]);
      }
    }
  }

  /** A code matches only its own bits. */
  lemma MatchesCode(table: seq<Row>, s: string, u: string)
    requires s in Names(table) && u in Names(table)
    ensures Matches(Code(table, s), IsOne(Code(table, u))) <==> s == u
  {
    hide Names, Width, Code;
    CodesDiffer(table, s, u);
    var a, b := Code(table, s), Code(table, u);
    if Matches(a, IsOne(b)) {
      forall i: nat | i < Width(table) ensures a[i] == b[i] {
        CodeDigit(table, s, i);
        CodeDigit(table, u, i);
        assert Fits(a[i], IsOne(b)[i]);
      }
      assert a == b;
    }
  }

  lemma PatternMatches(table: seq<Row>, j: nat, s: string, v: seq<bool>)
    requires AllNamed(table) && j < |table| && s in Names(table) && |v| == |table[j].input|
    ensures Matches(Pattern(table, j), v + IsOne(Code(table, s))) <==> Applies(table[j], s, v)
  {
    MatchesSplit(table[j].input, Code(table, table[j].cur), v, IsOne(Code(table, s)));
    MatchesCode(table, table[j].cur, s);
  }

  function Dashes(n: nat): string {
    seq(n, _ => '-')
  }

  /** An empty cover becomes one line of dashes ending in 0. */
  function Completed(cover: seq<Line>, n: nat): seq<Line> {
    if cover == [] then [Line(Dashes(n), '0')] else cover
  }

  ghost predicate SomeOn(table: seq<Row>, on: seq<bool>, s: string, v: seq<bool>) {
    exists j :: 0 <= j < |table| && j < |on| && on[j] && Applies(table[j], s, v)
  }

  /** A finished cover is the union of its rows. */
  lemma CoverMeans(cover: seq<Line>, table: seq<Row>, nIn: nat, on: seq<bool>, s: string, v: seq<bool>)
    requires AllNamed(table) && Lists(cover, table, on, |table|) && s in Names(table) && |v| == nIn
    requires forall j :: 0 <= j < |table| ==> |table[j].input| == nIn
    ensures CoverValue(Completed(cover, nIn + Width(table)), v + IsOne(Code(table, s))) <==> SomeOn(table, on, s, v)
  {
    var all := v + IsOne(Code(table, s));
    var done := Completed(cover, nIn + Width(table));
    if SomeOn(table, on, s, v) {
      var j: nat :| j < |table| && j < |on| && on[j] && Applies(table[j], s, v);
      PatternMatches(table, j, s, v);
      assert IsListed(cover, Pattern(table, j));
      var l :| 0 <= l < |cover| && cover[l].pattern == Pattern(table, j);
      assert Matches(cover[l].pattern, all);
    } else if cover == [] {
      assert Matches(done[0].pattern, all);
    } else if SomeMatch(cover, all) {
      var l :| 0 <= l < |cover| && Matches(cover[l].pattern, all);
      assert FromRow(cover[l].pattern, table, on, |table|);
      var j: nat :| j < |table| && on[j] && cover[l].pattern == Pattern(table, j);
      PatternMatches(table, j, s, v);
    }
  }

  /** The names and codes that the table gives. */
  predicate Encoding(table: seq<Row>, names: seq<string>, codes: seq<string>) {
    && names == Names(table) && |codes| == |names|
    && forall i :: 0 <= i < |names| ==> codes[i] == Binary(i, Width(table))
  }

  /** The code of a state, or nothing if it is not listed. */
  method FindCode(ghost table: seq<Row>, names: seq<string>, codes: seq<string>, s: string) returns (r: string)
    requires Encoding(table, names, codes)
    ensures r == if s in Names(table) then Code(table, s) else ""
  {
    hide Names, Bits, Binary;
    NamesOnce(table);
    r := "";
    for i := 0 to |names|
      invariant s !in names[..i] && r == ""
    {
      if names[i] == s {
        return codes[i];
      }
    }
  }

  ghost function NextOn(table: seq<Row>, b: nat): (on: seq<bool>)
    requires AllNamed(table) && b < Width(table)
    ensures |on| == |table|
  {
    seq(|table|, j requires 0 <= j < |table| => Code(table, table[j].nxt)[b] == '1')
  }

  ghost function OutOn(table: seq<Row>, i: nat): (on: seq<bool>)
    requires forall j :: 0 <= j < |table| ==> i < |table[j].output|
    ensures |on| == |table|
  {
    seq(|table|, j requires 0 <= j < |table| => table[j].output[i] == '1')
  }

  lemma NextDigit(table: seq<Row>, b: nat, j: nat)
    requires AllNamed(table) && b < Width(table) && j < |table|
    ensures table[j].nxt in Names(table) && table[j].cur in Names(table)
    ensures Code(table, table[j].nxt)[b] == if NextOn(table, b)[j] then '1' else '0'
  {
    hide Names, Code, Width;
    CodeDigit(table, table[j].nxt, b);
  }

  /** `cover` is a finished cover of the rows that are on. */
  ghost predicate Covers(cover: seq<Line>, table: seq<Row>, nIn: nat, on: seq<bool>)
    requires AllNamed(table)
  {
    exists lines :: Lists(lines, table, on, |table|) && cover == Completed(lines, nIn + Width(table))
  }

  lemma NothingListed(table: seq<Row>, on: seq<bool>)
    requires AllNamed(table) && |on| == |table|
    ensures Lists([], table, on, 0)
  {}

  lemma Finished(cover: seq<Line>, table: seq<Row>, nIn: nat, on: seq<bool>, bnum: nat)
    requires AllNamed(table) && Lists(cover, table, on, |table|) && bnum == Width(table)
    ensures Covers(Completed(cover, nIn + bnum), table, nIn, on)
  {}

  /** The cover of next-state bit b. */
  method NextCover(table: seq<Row>, names: seq<string>, codes: seq<string>, nIn: nat, bnum: nat, b: nat) returns (cover: seq<Line>)
    requires AllNamed(table) && Encoding(table, names, codes) && b < Width(table) == bnum
    ensures Covers(cover, table, nIn, NextOn(table, b))
  {
    hide Lists, AllNamed, Encoding, Names, NextOn, Width, Code, Covers, Completed;
    ghost var on := NextOn(table, b);
    cover := [];
    NothingListed(table, on);
    for j := 0 to |table|
      invariant Lists(cover, table, on, j)
    {
      NextDigit(table, b, j);
      ListOne(cover, table, on, j);
      var nxt := FindCode(table, names, codes, table[j].nxt);
      if nxt[b] != '0' {
        var cur := FindCode(table, names, codes, table[j].cur);
        cover := cover + [Line(table[j].input + cur, nxt[b])];
      }
    }
    Finished(cover, table, nIn, on, bnum);
    cover := Completed(cover, nIn + bnum);
  }

  lemma OutDigit(table: seq<Row>, i: nat, j: nat)
    requires AllNamed(table) && j < |table|
    requires forall j :: 0 <= j < |table| ==> i < |table[j].output| && table[j].output[i] in "01"
    ensures table[j].cur in Names(table) && table[j].output[i] == if OutOn(table, i)[j] then '1' else '0'
  {}

  /** The cover of output i; don't-cares have been replaced. */
  method OutCover(table: seq<Row>, names: seq<string>, codes: seq<string>, nIn: nat, bnum: nat, i: nat) returns (cover: seq<Line>)
    requires AllNamed(table) && Encoding(table, names, codes) && Width(table) == bnum
    requires forall j :: 0 <= j < |table| ==> i < |table[j].output| && table[j].output[i] in "01"
    ensures Covers(cover, table, nIn, OutOn(table, i))
  {
    hide Lists, AllNamed, Encoding, Names, OutOn, Width, Code, Covers, Completed;
    ghost var on := OutOn(table, i);
    cover := [];
    NothingListed(table, on);
    for j := 0 to |table|
      invariant Lists(cover, table, on, j)
    {
      OutDigit(table, i, j);
      ListOne(cover, table, on, j);
      if table[j].output[i] != '0' {
        var cur := FindCode(table, names, codes, table[j].cur);
        cover := cover + [Line(table[j].input + cur, table[j].output[i])];
      }
    }
    Finished(cover, table, nIn, on, bnum);
    cover := Completed(cover, nIn + bnum);
  }

  // ----- the whole command -----

  /** Replacing don't-care outputs renames nothing. */
  lemma {:induction false} SameNames(rows: seq<Row>, table: seq<Row>)
    requires |table| == |rows|
    requires forall j :: 0 <= j < |rows| ==> table[j].cur == rows[j].cur && table[j].nxt == rows[j].nxt
    ensures Names(table) == Names(rows)
  {
    if rows != [] {
      SameNames(rows[..|rows| - 1], table[..|rows| - 1]);
    }
  }

  /** The rows with their don't-care outputs replaced, as the later parts see them. */
  ghost predicate Prepared(rows: seq<Row>, table: seq<Row>, nIn: nat, nOut: nat, dcVal: bool) {
    && GoodTable(rows, nIn, nOut) && FilledTable(rows, table, dcVal) && AllNamed(table) && Names(table) == Names(rows)
    && forall j :: 0 <= j < |table| ==> |table[j].input| == nIn && |table[j].output| == nOut
  }

  lemma IsPrepared(rows: seq<Row>, table: seq<Row>, nIn: nat, nOut: nat, dcVal: bool)
    requires GoodTable(rows, nIn, nOut) && FilledTable(rows, table, dcVal)
    ensures Prepared(rows, table, nIn, nOut, dcVal)
    ensures forall j, i :: 0 <= j < |table| && 0 <= i < nOut ==> table[j].output[i] in "01"
  {
    TableNamed(table);
    forall j | 0 <= j < |rows|
      ensures table[j].cur == rows[j].cur && table[j].nxt == rows[j].nxt && |table[j].input| == nIn && |table[j].output| == nOut
      ensures forall i :: 0 <= i < nOut ==> table[j].output[i] in "01"
    {
      assert GoodRow(rows[j], nIn, nOut) && FilledRow(rows[j], table[j], dcVal);
      assert forall i :: 0 <= i < nOut ==> rows[j].output[i] in "01-";
    }
    SameNames(rows, table);
  }

  lemma NextSame(rows: seq<Row>, table: seq<Row>, dcVal: bool, nIn: nat, nOut: nat, s: string, v: seq<bool>, b: nat)
    requires Prepared(rows, table, nIn, nOut, dcVal) && b < Width(table)
    ensures SomeOn(table, NextOn(table, b), s, v) <==> NextBit(rows, s, v, b)
  {
    hide Names, Code, Matches;
    var on := NextOn(table, b);
    if SomeOn(table, on, s, v) {
      var j: nat :| j < |table| && j < |on| && on[j] && Applies(table[j], s, v);
      assert FilledRow(rows[j], table[j], dcVal);
      SameCode(rows, table, table[j].nxt);
      assert Applies(rows[j], s, v);
    }
    if NextBit(rows, s, v, b) {
      var j: nat :| j < |rows| && Applies(rows[j], s, v) && rows[j].nxt in Names(rows) && Code(rows, rows[j].nxt)[b] == '1';
      assert FilledRow(rows[j], table[j], dcVal);
      SameCode(rows, table, table[j].nxt);
      assert on[j] && Applies(table[j], s, v);
    }
  }

  lemma SameCode(rows: seq<Row>, table: seq<Row>, s: string)
    requires Names(table) == Names(rows) && s in Names(rows)
    ensures Code(table, s) == Code(rows, s) && Width(table) == Width(rows)
  {
    hide Names, Bits, Binary, IndexOf;
  }

  lemma OutSame(rows: seq<Row>, table: seq<Row>, dcVal: bool, nIn: nat, nOut: nat, s: string, v: seq<bool>, i: nat)
    requires Prepared(rows, table, nIn, nOut, dcVal) && i < nOut
    ensures SomeOn(table, OutOn(table, i), s, v) <==> OutBit(rows, dcVal, s, v, i)
  {
    hide Names, Code, Matches;
    var on := OutOn(table, i);
    if SomeOn(table, on, s, v) {
      var j: nat :| j < |table| && j < |on| && on[j] && Applies(table[j], s, v);
      assert FilledRow(rows[j], table[j], dcVal);
      assert Applies(rows[j], s, v);
    }
    if OutBit(rows, dcVal, s, v, i) {
      var j: nat :| j < |rows| && Applies(rows[j], s, v) && i < |rows[j].output| &&
        (rows[j].output[i] == '1' || (rows[j].output[i] == '-' && dcVal));
      assert FilledRow(rows[j], table[j], dcVal);
      assert on[j] && Applies(table[j], s, v);
    }
  }

  lemma CoverIs(table: seq<Row>, cover: seq<Line>, nIn: nat, on: seq<bool>, s: string, v: seq<bool>)
    requires AllNamed(table) && Covers(cover, table, nIn, on) && s in Names(table) && |v| == nIn
    requires forall j :: 0 <= j < |table| ==> |table[j].input| == nIn
    ensures CoverValue(cover, v + IsOne(Code(table, s))) <==> SomeOn(table, on, s, v)
  {
    var lines :| Lists(lines, table, on, |table|) && cover == Completed(lines, nIn + Width(table));
    CoverMeans(lines, table, nIn, on, s, v);
  }

  /** The circuit assembled from the covers does what the table says. */
  lemma Assembled(rows: seq<Row>, table: seq<Row>, nIn: nat, nOut: nat, dcVal: bool, reset: string, c: Blif)
    requires Prepared(rows, table, nIn, nOut, dcVal) && reset in Names(rows) && c.init == Code(rows, reset)
    requires |c.next| == Width(table) && forall k: nat :: k < |c.next| ==> Covers(c.next[k], table, nIn, NextOn(table, k))
    requires |c.outs| == nOut && forall k: nat :: k < nOut ==> Covers(c.outs[k], table, nIn, OutOn(table, k))
    ensures Compiled(rows, nIn, nOut, dcVal, reset, c)
  {
    hide Names, Covers, NextOn, OutOn, NextBit, OutBit, CoverValue, GoodTable, FilledTable, SomeOn;
    SameCode(rows, table, reset);
    forall s, v, b: nat | s in Names(rows) && |v| == nIn && b < Width(rows)
      ensures StepFrom(c, v, IsOne(Code(rows, s)))[b] <==> NextBit(rows, s, v, b)
    {
      SameCode(rows, table, s);
      CoverIs(table, c.next[b], nIn, NextOn(table, b), s, v);
      NextSame(rows, table, dcVal, nIn, nOut, s, v, b);
    }
    forall s, v, i: nat | s in Names(rows) && |v| == nIn && i < nOut
      ensures Outputs(c, v, IsOne(Code(rows, s)))[i] <==> OutBit(rows, dcVal, s, v, i)
    {
      SameCode(rows, table, s);
      CoverIs(table, c.outs[i], nIn, OutOn(table, i), s, v);
      OutSame(rows, table, dcVal, nIn, nOut, s, v, i);
    }
  }

  /** Compiles the table. Without the reset state in the table the latches have no initial values. */
  method NatEnc(rows: seq<Row>, nIn: nat, nOut: nat, reset: string, dcVal: bool) returns (c: Option<Blif>)
    requires GoodTable(rows, nIn, nOut)
    ensures c.None? <==> reset !in Names(rows)
    ensures c.Some? ==> Compiled(rows, nIn, nOut, dcVal, reset, c.value)
  {
    hide Names, Covers, NextOn, OutOn, Compiled, AllNamed;
    var names, table := ReadTable(rows, dcVal);
    IsPrepared(rows, table, nIn, nOut, dcVal);
    var bnum := CountBits(|names|);
    var codes := EncodeAll(table, names, bnum);
    var r := FindCode(table, names, codes, reset);
    if |r| == 0 {
      return None;
    }
    var next := [];
    for b := 0 to bnum
      invariant |next| == b && forall k: nat :: k < b ==> Covers(next[k], table, nIn, NextOn(table, k))
    {
      var cover := NextCover(table, names, codes, nIn, bnum, b);
      next := next + [cover];
    }
    var outs := [];
    for i := 0 to nOut
      invariant |outs| == i && forall k: nat :: k < i ==> Covers(outs[k], table, nIn, OutOn(table, k))
    {
      var cover := OutCover(table, names, codes, nIn, bnum, i);
      outs := outs + [cover];
    }
    SameCode(rows, table, reset);
    Assembled(rows, table, nIn, nOut, dcVal, reset, Blif(r, next, outs));
    c := Some(Blif(r, next, outs));
  }
}
