/** Object identifiers of table cells: variable-length index components carry their length
    in front (section 7.7 of RFC 2578), an address also its type (section 3 of RFC 4001),
    and a walk of a table lists its cells in lexicographic order of identifier. */
module Oid {

  type Oid = seq<nat>

  const IPV4 := 1

  // ---------- index encoding ----------

  function EncodeString(s: Oid): Oid {
    [|s|] + s
  }

  function EncodeIp(ip: Oid): Oid {
    [IPV4] + EncodeString(ip)
  }

  datatype Decoded = Decoded(value: Oid, rest: Oid) | Malformed

  /** Reads one length-prefixed component off the front. */
  function DecodeString(o: Oid): Decoded {
    if o == [] || |o| < 1 + o[0] then Malformed else Decoded(o[1..1 + o[0]], o[1 + o[0]..])
  }

  lemma DecodeEncoded(s: Oid, rest: Oid)
    ensures DecodeString(EncodeString(s) + rest) == Decoded(s, rest)
  {
    var o := EncodeString(s) + rest;
    assert o[0] == |s| && o[1..1 + |s|] == s && o[1 + |s|..] == rest;
  }

  /** No encoded component is the beginning of another one, so what follows it is never
      taken for part of it. */
  lemma EncodingIsPrefixFree(s: Oid, t: Oid, x: Oid, y: Oid)
    requires EncodeString(s) + x == EncodeString(t) + y
    ensures s == t && x == y
  {
    DecodeEncoded(s, x);
    DecodeEncoded(t, y);
  }

  lemma IpEncodingIsPrefixFree(s: Oid, t: Oid, x: Oid, y: Oid)
    requires EncodeIp(s) + x == EncodeIp(t) + y
    ensures s == t && x == y
  {
    assert (EncodeIp(s) + x)[1..] == EncodeString(s) + x;
    assert (EncodeIp(t) + y)[1..] == EncodeString(t) + y;
    EncodingIsPrefixFree(s, t, x, y);
  }

  // ---------- order ----------

  predicate Less(a: Oid, b: Oid) {
    if b == [] then false
    else if a == [] then true
    else a[0] < b[0] || (a[0] == b[0] && Less(a[1..], b[1..]))
  }

  lemma {:induction false} LessTransitive(a: Oid, b: Oid, c: Oid)
    requires Less(a, b) && Less(b, c)
    ensures Less(a, c)
  {
    if a != [] && a[0] == b[0] == c[0] {
      LessTransitive(a[1..], b[1..], c[1..]);
    }
  }

  lemma {:induction false} LessIrreflexive(a: Oid)
    ensures !Less(a, a)
  {
    if a != [] {
      LessIrreflexive(a[1..]);
    }
  }

  /** A common beginning does not matter. */
  lemma {:induction false} LessAfterPrefix(p: Oid, a: Oid, b: Oid)
    ensures Less(p + a, p + b) <==> Less(a, b)
  {
    if p == [] {
      assert p + a == a && p + b == b;
    } else {
      assert (p + a)[1..] == p[1..] + a && (p + b)[1..] == p[1..] + b;
      LessAfterPrefix(p[1..], a, b);
    }
  }

  /** Between identifiers of one length, what follows decides only between equal ones. */
  lemma {:induction false} LessWithSuffix(a: Oid, b: Oid, x: Oid, y: Oid)
    requires |a| == |b| && Less(a, b)
    ensures Less(a + x, b + y)
  {
    if a != [] && a[0] == b[0] {
      assert (a + x)[1..] == a[1..] + x && (b + y)[1..] == b[1..] + y;
      LessWithSuffix(a[1..], b[1..], x, y);
    }
  }

  ghost predicate Increasing(os: seq<Oid>) {
    forall i, j :: 0 <= i < j < |os| ==> Less(os[i], os[j])
  }

  ghost predicate SameElements(xs: seq<Oid>, ys: seq<Oid>) {
    forall o :: o in xs <==> o in ys
  }

  lemma FirstIsLeast(xs: seq<Oid>, ys: seq<Oid>)
    requires Increasing(xs) && Increasing(ys) && SameElements(xs, ys) && xs != [] && ys != []
    ensures xs[0] == ys[0]
  {
    assert ys[0] in ys && xs[0] in xs;
    var i :| 0 <= i < |xs| && xs[i] == ys[0];
    var j :| 0 <= j < |ys| && ys[j] == xs[0];
    if 0 < i && 0 < j {
      LessTransitive(xs[0], ys[0], xs[0]);
      LessIrreflexive(xs[0]);
    }
  }

  lemma {:induction false} LessTotal(a: Oid, b: Oid)
    ensures a == b || Less(a, b) || Less(b, a)
  {
    if a != [] && b != [] && a[0] == b[0] {
      LessTotal(a[1..], b[1..]);
    }
  }

  lemma FirstAgrees(a: Oid, b: Oid)
    requires a != [] && b != []
    ensures forall i :: 0 < i <= |a| && i <= |b| && a[..i] == b[..i] ==> a[0] == b[0]
    ensures |a| <= |b| && b[..|a|] == a ==> a[0] == b[0]
  {
    forall i | 0 < i <= |a| && i <= |b| && a[..i] == b[..i]
      ensures a[0] == b[0]
    {
      assert a[..i][0] == a[0] && b[..i][0] == b[0];
    }
    assert |a| <= |b| ==> b[..|a|][0] == b[0];
  }

  /** What comes first: a beginning before what continues it, and otherwise the smaller
      number where they first differ. */
  lemma {:induction false} LessIsLexicographic(a: Oid, b: Oid)
    ensures Less(a, b) <==>
              (|a| < |b| && b[..|a|] == a)
              || exists i :: 0 <= i < |a| && i < |b| && a[..i] == b[..i] && a[i] < b[i]
  {
    if a != [] && b != [] && a[0] == b[0] {
      var (s, t) := (a[1..], b[1..]);
      LessIsLexicographic(s, t);
      assert a == [a[0]] + s && b == [a[0]] + t;
      if |s| < |t| && t[..|s|] == s {
        assert b[..|a|] == [a[0]] + t[..|s|];
      }
      if |a| < |b| && b[..|a|] == a {
        assert t[..|s|] == b[..|a|][1..];
      }
      forall i | 0 <= i < |s| && i < |t|
        ensures a[..i + 1] == b[..i + 1] <==> s[..i] == t[..i]
      {
        assert a[..i + 1] == [a[0]] + s[..i] && b[..i + 1] == [a[0]] + t[..i];
        assert s[..i] == a[..i + 1][1..] && t[..i] == b[..i + 1][1..];
      }
      if i :| 0 <= i < |s| && i < |t| && s[..i] == t[..i] && s[i] < t[i] {
        assert a[..i + 1] == b[..i + 1] && a[i + 1] < b[i + 1];
      }
      if i :| 0 <= i < |a| && i < |b| && a[..i] == b[..i] && a[i] < b[i] {
        assert 0 < i && s[i - 1] == a[i] && t[i - 1] == b[i];
      }
    } else if a != [] && b != [] {
      if a[0] < b[0] {
        assert a[..0] == b[..0];
      }
      FirstAgrees(a, b);
    }
  }

  lemma {:induction false} Inserted(xs: seq<Oid>, o: Oid) returns (ys: seq<Oid>)
    requires Increasing(xs) && o !in xs
    ensures Increasing(ys) && forall x :: x in ys <==> x in xs || x == o
  {
    if xs == [] {
      ys := [o];
    } else {
      LessTotal(o, xs[0]);
      if Less(o, xs[0]) {
        forall i | 0 <= i < |xs|
          ensures Less(o, xs[i])
        {
          if 0 < i {
            LessTransitive(o, xs[0], xs[i]);
          }
        }
        ys := [o] + xs;
      } else {
        assert xs[0] in xs;
        var rest := Inserted(xs[1..], o);
        forall i | 0 <= i < |rest|
          ensures Less(xs[0], rest[i])
        {
          assert rest[i] in rest;
        }
        ys := [xs[0]] + rest;
      }
    }
  }

  /** Any identifiers can be listed in order. */
  lemma {:induction false} OrderedListing(os: set<Oid>) returns (xs: seq<Oid>)
    ensures Increasing(xs) && forall o :: o in xs <==> o in os
    decreases |os|
  {
    xs := [];
    if o :| o in os {
      var rest := OrderedListing(os - {o});
      xs := Inserted(rest, o);
    }
  }

  /** There is only one way to list a set of identifiers in order. */
  lemma {:induction false} SortedListingIsUnique(xs: seq<Oid>, ys: seq<Oid>)
    requires Increasing(xs) && Increasing(ys) && SameElements(xs, ys)
    ensures xs == ys
  {
    assert xs != [] ==> xs[0] in xs;
    assert ys != [] ==> ys[0] in ys;
    if xs != [] && ys != [] {
      FirstIsLeast(xs, ys);
      TailElements(xs, ys);
      TailElements(ys, xs);
      SortedListingIsUnique(xs[1..], ys[1..]);
    }
  }

  lemma TailElements(xs: seq<Oid>, ys: seq<Oid>)
    requires Increasing(xs) && SameElements(xs, ys) && xs != [] && ys != [] && xs[0] == ys[0]
    ensures forall o :: o in xs[1..] ==> o in ys[1..]
  {
    forall o | o in xs[1..]
      ensures o in ys[1..]
    {
      var i :| 1 <= i < |xs| && xs[i] == o;
      assert o in xs;
      LessIrreflexive(xs[0]);
      var j :| 0 <= j < |ys| && ys[j] == o;
    }
  }

  // ---------- tables ----------

  /** The cell of a table at `root`, in one column and at one row index. */
  function Cell(root: Oid, column: nat, index: Oid): Oid {
    root + ([1, column] + index)
  }

  ghost predicate ColumnsIncrease(columns: seq<nat>) {
    forall i, j :: 0 <= i < j < |columns| ==> columns[i] < columns[j]
  }

  function Column(root: Oid, column: nat, indices: seq<Oid>): seq<Oid> {
    seq(|indices|, r requires 0 <= r < |indices| => Cell(root, column, indices[r]))
  }

  /** All cells, column by column and, within a column, row by row. */
  function Walk(root: Oid, columns: seq<nat>, indices: seq<Oid>): seq<Oid> {
    if columns == [] then [] else Column(root, columns[0], indices) + Walk(root, columns[1..], indices)
  }

  lemma CellOrder(root: Oid, c: nat, d: nat, a: Oid, b: Oid)
    requires c < d || (c == d && Less(a, b))
    ensures Less(Cell(root, c, a), Cell(root, d, b))
  {
    assert ([1, c] + a)[1..] == [c] + a && ([1, d] + b)[1..] == [d] + b;
    assert ([c] + a)[1..] == a && ([d] + b)[1..] == b;
    LessAfterPrefix(root, [1, c] + a, [1, d] + b);
  }

  lemma IncreasingConcat(xs: seq<Oid>, ys: seq<Oid>)
    requires Increasing(xs) && Increasing(ys)
    requires forall i, j :: 0 <= i < |xs| && 0 <= j < |ys| ==> Less(xs[i], ys[j])
    ensures Increasing(xs + ys)
  {
  }

  lemma Position(c: nat, r: nat, rows: nat, columns: nat)
    requires c < columns && r < rows
    ensures c * rows + r < columns * rows
    ensures 0 < c ==> c * rows + r == rows + ((c - 1) * rows + r)
  {
    assert (c + 1) * rows <= columns * rows;
  }

  /** Where each cell is in the walk. */
  lemma {:induction false} WalkAt(root: Oid, columns: seq<nat>, indices: seq<Oid>, c: nat, r: nat)
    requires c < |columns| && r < |indices|
    ensures |Walk(root, columns, indices)| == |columns| * |indices|
    ensures c * |indices| + r < |columns| * |indices|
    ensures Walk(root, columns, indices)[c * |indices| + r] == Cell(root, columns[c], indices[r])
    decreases |columns|
  {
    WalkSize(root, columns, indices);
    Position(c, r, |indices|, |columns|);
    var first := Column(root, columns[0], indices);
    if c == 0 {
      assert Walk(root, columns, indices)[r] == first[r];
    } else {
      var i := (c - 1) * |indices| + r;
      WalkAt(root, columns[1..], indices, c - 1, r);
      assert (first + Walk(root, columns[1..], indices))[|first| + i] == Walk(root, columns[1..], indices)[i];
    }
  }

  lemma {:induction false} WalkSize(root: Oid, columns: seq<nat>, indices: seq<Oid>)
    ensures |Walk(root, columns, indices)| == |columns| * |indices|
  {
    if columns != [] {
      WalkSize(root, columns[1..], indices);
      assert |columns| * |indices| == |indices| + |columns[1..]| * |indices|;
    }
  }

  /** Every member of the walk is a cell of the table. */
  lemma {:induction false} WalkMember(root: Oid, columns: seq<nat>, indices: seq<Oid>, o: Oid) returns (c: nat, r: nat)
    requires o in Walk(root, columns, indices)
    ensures c < |columns| && r < |indices| && o == Cell(root, columns[c], indices[r])
  {
    if o in Column(root, columns[0], indices) {
      c := 0;
      r :| 0 <= r < |indices| && Column(root, columns[0], indices)[r] == o;
    } else {
      c, r := WalkMember(root, columns[1..], indices, o);
      c := c + 1;
    }
  }

  lemma {:induction false} WalkIncreases(root: Oid, columns: seq<nat>, indices: seq<Oid>)
    requires ColumnsIncrease(columns) && Increasing(indices)
    ensures Increasing(Walk(root, columns, indices))
  {
    if columns != [] {
      var (first, rest) := (Column(root, columns[0], indices), Walk(root, columns[1..], indices));
      WalkIncreases(root, columns[1..], indices);
      forall i, j | 0 <= i < j < |first|
        ensures Less(first[i], first[j])
      {
        CellOrder(root, columns[0], columns[0], indices[i], indices[j]);
      }
      forall i, j | 0 <= i < |first| && 0 <= j < |rest|
        ensures Less(first[i], rest[j])
      {
        var c, r := WalkMember(root, columns[1..], indices, rest[j]);
        CellOrder(root, columns[0], columns[1..][c], indices[i], indices[r]);
      }
      IncreasingConcat(first, rest);
    }
  }

  /** A walk, which lists whatever cells there are in order of identifier, gives the table's
      cells column by column and row by row, every one exactly once. */
  lemma WalkOrder(root: Oid, columns: seq<nat>, indices: seq<Oid>, listed: seq<Oid>, c: nat, r: nat)
    requires ColumnsIncrease(columns) && Increasing(indices) && Increasing(listed)
    requires forall o :: o in listed <==>
               exists c, r :: 0 <= c < |columns| && 0 <= r < |indices| && o == Cell(root, columns[c], indices[r])
    requires c < |columns| && r < |indices|
    ensures |listed| == |columns| * |indices|
    ensures c * |indices| + r < |listed| && listed[c * |indices| + r] == Cell(root, columns[c], indices[r])
  {
    var walk := Walk(root, columns, indices);
    WalkIncreases(root, columns, indices);
    forall o
      ensures o in listed <==> o in walk
    {
      if o in listed {
        var c, r :| 0 <= c < |columns| && 0 <= r < |indices| && o == Cell(root, columns[c], indices[r]);
        WalkAt(root, columns, indices, c, r);
      }
      if o in walk {
        var c, r := WalkMember(root, columns, indices, o);
      }
    }
    SortedListingIsUnique(listed, walk);
    WalkAt(root, columns, indices, c, r);
  }

  /** Row indices of a table by address and period: three for each address. */
  function AddressRows(ips: seq<Oid>): seq<Oid> {
    seq(3 * |ips|, i requires 0 <= i < 3 * |ips| => EncodeIp(ips[i / 3]) + [i % 3 + 1])
  }

  /** Addresses of one length in order give their rows in order, periods 1, 2, 3 within each. */
  lemma AddressRowsIncrease(ips: seq<Oid>, length: nat)
    requires Increasing(ips) && forall i :: 0 <= i < |ips| ==> |ips[i]| == length
    ensures Increasing(AddressRows(ips))
  {
    var rows := AddressRows(ips);
    forall i, j | 0 <= i < j < |rows|
      ensures Less(rows[i], rows[j])
    {
      var (a, b) := (ips[i / 3], ips[j / 3]);
      var (x, y) := ([i % 3 + 1], [j % 3 + 1]);
      assert rows[i] == [IPV4, length] + (a + x) && rows[j] == [IPV4, length] + (b + y);
      LessAfterPrefix([IPV4, length], a + x, b + y);
      if i / 3 < j / 3 {
        LessWithSuffix(a, b, x, y);
      } else {
        LessAfterPrefix(a, x, y);
      }
    }
  }

  /** Row indices of a table by period and string, for one period. */
  function StringRowsOf(period: nat, ss: seq<Oid>): seq<Oid> {
    seq(|ss|, i requires 0 <= i < |ss| => [period] + EncodeString(ss[i]))
  }

  function StringRows(ss: seq<Oid>): seq<Oid> {
    StringRowsOf(1, ss) + StringRowsOf(2, ss) + StringRowsOf(3, ss)
  }

  /** In length-prefixed form a shorter string always comes first. */
  lemma EncodedOrder(s: Oid, t: Oid)
    ensures Less(EncodeString(s), EncodeString(t)) <==> |s| < |t| || (|s| == |t| && Less(s, t))
  {
    assert EncodeString(s)[1..] == s && EncodeString(t)[1..] == t;
  }

  /** Different strings, the shorter first and those of one length in order. */
  ghost predicate ShorterFirst(ss: seq<Oid>) {
    forall i, j :: 0 <= i < j < |ss| ==> |ss[i]| < |ss[j]| || (|ss[i]| == |ss[j]| && Less(ss[i], ss[j]))
  }

  /** Such strings give their rows in order: period by period, string by string. */
  lemma StringRowsIncrease(ss: seq<Oid>)
    requires ShorterFirst(ss)
    ensures Increasing(StringRows(ss))
  {
    forall period: nat, later: nat, i, j
      | 0 <= i < |ss| && 0 <= j < |ss| && (period < later || (period == later && i < j))
      ensures Less(StringRowsOf(period, ss)[i], StringRowsOf(later, ss)[j])
    {
      var (a, b) := ([period] + EncodeString(ss[i]), [later] + EncodeString(ss[j]));
      assert a[1..] == EncodeString(ss[i]) && b[1..] == EncodeString(ss[j]);
      EncodedOrder(ss[i], ss[j]);
    }
    IncreasingConcat(StringRowsOf(1, ss), StringRowsOf(2, ss));
    IncreasingConcat(StringRowsOf(1, ss) + StringRowsOf(2, ss), StringRowsOf(3, ss));
  }

  /** The cell of a string, number by number: the table's entry and column, the period, the
      length of the string and its characters. */
  lemma StringCellNumbers(root: Oid, column: nat, period: nat, ss: seq<Oid>, i: nat)
    requires i < |ss|
    ensures Cell(root, column, StringRowsOf(period, ss)[i]) == root + ([1, column, period, |ss[i]|] + ss[i])
  {
    assert [1, column] + ([period] + ([|ss[i]|] + ss[i])) == [1, column, period, |ss[i]|] + ss[i];
  }

  const EVENT_COLUMNS: seq<nat> := [2, 3, 4, 5, 6]
  const EVENT_PERIODS: seq<Oid> := [[1], [2], [3]]

  lemma EventCells(root: Oid, o: Oid)
    ensures (exists column, period :: 2 <= column <= 6 && 1 <= period <= 3 && o == Cell(root, column, [period])) <==>
            exists c, r :: 0 <= c < |EVENT_COLUMNS| && 0 <= r < |EVENT_PERIODS|
                           && o == Cell(root, EVENT_COLUMNS[c], EVENT_PERIODS[r])
  {
    if column, period :| 2 <= column <= 6 && 1 <= period <= 3 && o == Cell(root, column, [period]) {
      assert EVENT_COLUMNS[column - 2] == column && EVENT_PERIODS[period - 1] == [period];
    }
    if c, r :| 0 <= c < |EVENT_COLUMNS| && 0 <= r < |EVENT_PERIODS|
               && o == Cell(root, EVENT_COLUMNS[c], EVENT_PERIODS[r]) {
      assert EVENT_COLUMNS[c] == c + 2 && EVENT_PERIODS[r] == [r + 1];
    }
  }

  /** The walk of a table of event statistics, as TableOrdering has it: five columns from
      number 2 on, each with its three periods. */
  lemma EventTableWalk(root: Oid, listed: seq<Oid>, c: nat, r: nat)
    requires Increasing(listed) && c < 5 && r < 3
    requires forall o :: o in listed <==>
               exists column, period :: 2 <= column <= 6 && 1 <= period <= 3 && o == Cell(root, column, [period])
    ensures |listed| == 15 && listed[3 * c + r] == root + [1, c + 2, r + 1]
  {
    PeriodsIncrease();
    forall o
      ensures o in listed <==> exists c, r :: 0 <= c < |EVENT_COLUMNS| && 0 <= r < |EVENT_PERIODS|
                                              && o == Cell(root, EVENT_COLUMNS[c], EVENT_PERIODS[r])
    {
      EventCells(root, o);
    }
    WalkOrder(root, EVENT_COLUMNS, EVENT_PERIODS, listed, c, r);
    assert EVENT_COLUMNS[c] == c + 2 && EVENT_PERIODS[r] == [r + 1];
    assert [1, c + 2] + [r + 1] == [1, c + 2, r + 1];
  }

  lemma PeriodsIncrease()
    ensures Increasing([[1], [2], [3]])
  {
    var indices: seq<Oid> := [[1], [2], [3]];
    forall i, j | 0 <= i < j < 3
      ensures Less(indices[i], indices[j])
    {
      assert indices[i] == [i + 1] && indices[j] == [j + 1];
    }
  }
}
