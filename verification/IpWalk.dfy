/** What a walk of the table of counters by IP address shows: for every address that has
    rows, in order of address, the counts of its three periods. */
module IpWalk {
  import opened Windows
  import opened IpTable
  import opened Oid

  /** One line of the walk. */
  datatype Line = Line(oid: Oid, value: nat)

  /** The last component of a row's index. */
  function PeriodIndex(period: Period): nat {
    match period
    case Previous5s => 1
    case Current5m => 2
    case Previous5m => 3
  }

  function CellOf(root: Oid, column: nat, ip: Ip, period: Period): Oid {
    Cell(root, column, EncodeIp(ip) + [PeriodIndex(period)])
  }

  /** The line is what the table has at one of its cells. */
  ghost predicate Serves(rows: map<Ip, Row>, root: Oid, column: nat, now: nat, line: Line) {
    exists ip, period ::
      ip in rows && line.oid == CellOf(root, column, ip, period) && line.value == Shown(rows[ip], period, now)
  }

  /** The walk lists whatever the table serves, in order of identifier. */
  ghost predicate Walks(rows: map<Ip, Row>, root: Oid, column: nat, now: nat, lines: seq<Line>) {
    && Increasing(OidsOf(lines))
    && forall line :: line in lines <==> Serves(rows, root, column, now, line)
  }

  function OidsOf(lines: seq<Line>): seq<Oid> {
    seq(|lines|, i requires 0 <= i < |lines| => lines[i].oid)
  }

  /** The addresses are those that have rows, in order, all of one length. */
  ghost predicate Lists(ips: seq<Ip>, rows: map<Ip, Row>, length: nat) {
    && Increasing(ips)
    && (forall ip :: ip in ips <==> ip in rows)
    && (forall i :: 0 <= i < |ips| ==> |ips[i]| == length)
  }

  lemma CellsDiffer(root: Oid, column: nat, ip: Ip, period: Period, other: Ip, later: Period)
    requires CellOf(root, column, ip, period) == CellOf(root, column, other, later)
    ensures ip == other && period == later
  {
    var (a, b) := (EncodeIp(ip) + [PeriodIndex(period)], EncodeIp(other) + [PeriodIndex(later)]);
    assert CellOf(root, column, ip, period)[|root| + 2..] == a;
    assert CellOf(root, column, other, later)[|root| + 2..] == b;
    IpEncodingIsPrefixFree(ip, other, [PeriodIndex(period)], [PeriodIndex(later)]);
    assert [PeriodIndex(period)][0] == [PeriodIndex(later)][0];
  }

  function PeriodNumber(i: nat): Period
    requires i < 3
  {
    if i == 0 then Previous5s else if i == 1 then Current5m else Previous5m
  }

  lemma RowAt(ips: seq<Ip>, i: nat, period: Period)
    requires i < |ips|
    ensures var r := 3 * i + PeriodIndex(period) - 1;
            r < |AddressRows(ips)| && AddressRows(ips)[r] == EncodeIp(ips[i]) + [PeriodIndex(period)]
  {
  }

  /** The walk's identifiers are those of the cells of one column. */
  lemma WalkCells(rows: map<Ip, Row>, root: Oid, column: nat, now: nat, lines: seq<Line>, ips: seq<Ip>, length: nat,
                  o: Oid)
    requires Walks(rows, root, column, now, lines) && Lists(ips, rows, length)
    ensures o in OidsOf(lines) <==>
              exists r :: 0 <= r < |AddressRows(ips)| && o == Cell(root, column, AddressRows(ips)[r])
  {
    var indices := AddressRows(ips);
    if o in OidsOf(lines) {
      var n :| 0 <= n < |lines| && OidsOf(lines)[n] == o;
      assert lines[n] in lines;
      var ip, period :| ip in rows && o == CellOf(root, column, ip, period)
                        && lines[n].value == Shown(rows[ip], period, now);
      var i :| 0 <= i < |ips| && ips[i] == ip;
      RowAt(ips, i, period);
      assert o == Cell(root, column, indices[3 * i + PeriodIndex(period) - 1]);
    }
    if r :| 0 <= r < |indices| && o == Cell(root, column, indices[r]) {
      var (ip, period) := (ips[r / 3], PeriodNumber(r % 3));
      assert ip in ips && o == CellOf(root, column, ip, period);
      var line := Line(o, Shown(rows[ip], period, now));
      assert Serves(rows, root, column, now, line);
      var n :| 0 <= n < |lines| && lines[n] == line;
      assert OidsOf(lines)[n] == o;
    }
  }

  /** A listing in order has every element once. */
  lemma {:induction false} OrderedSize(ips: seq<Ip>, rows: set<Ip>)
    requires Increasing(ips) && forall ip :: ip in ips <==> ip in rows
    ensures |ips| == |rows|
  {
    if ips == [] {
      assert rows == {};
    } else {
      var (last, init) := (ips[|ips| - 1], ips[..|ips| - 1]);
      if last in init {
        var i :| 0 <= i < |init| && init[i] == last;
        LessIrreflexive(last);
        assert false;
      }
      forall ip
        ensures ip in init <==> ip in rows - {last}
      {
        assert ips == init + [last];
      }
      OrderedSize(init, rows - {last});
      assert last in ips;
    }
  }

  /** Where the walk has the cell of an address and period. */
  lemma LineAt(rows: map<Ip, Row>, root: Oid, column: nat, now: nat, lines: seq<Line>, ips: seq<Ip>, length: nat,
               i: nat, period: Period)
    requires Walks(rows, root, column, now, lines) && Lists(ips, rows, length) && i < |ips|
    ensures |lines| == 3 * |ips|
    ensures lines[3 * i + PeriodIndex(period) - 1].oid == CellOf(root, column, ips[i], period)
  {
    var (n, indices) := (3 * i + PeriodIndex(period) - 1, AddressRows(ips));
    AddressRowsIncrease(ips, length);
    RowAt(ips, i, period);
    forall o
      ensures o in OidsOf(lines) <==>
                exists c, r :: 0 <= c < |[column]| && 0 <= r < |indices| && o == Cell(root, [column][c], indices[r])
    {
      WalkCells(rows, root, column, now, lines, ips, length, o);
      if r :| 0 <= r < |indices| && o == Cell(root, column, indices[r]) {
        assert o == Cell(root, [column][0], indices[r]);
      }
    }
    WalkOrder(root, [column], indices, OidsOf(lines), 0, n);
    assert lines[n].oid == OidsOf(lines)[n];
  }

  lemma LineShows(rows: map<Ip, Row>, root: Oid, column: nat, now: nat, line: Line, ip: Ip, period: Period)
    requires Serves(rows, root, column, now, line) && line.oid == CellOf(root, column, ip, period)
    ensures ip in rows && line.value == Shown(rows[ip], period, now)
  {
    var other, p :| other in rows && line.oid == CellOf(root, column, other, p)
                    && line.value == Shown(rows[other], p, now);
    CellsDiffer(root, column, other, p, ip, period);
  }

  /** Over any run, a walk of the table has three lines for each address that holds a
      reference, and no others. */
  lemma WalkHasThreeLinesEach(log: seq<Timed>, root: Oid, column: nat, now: nat, lines: seq<Line>, ips: seq<Ip>,
                              length: nat)
    requires Walks(After(log), root, column, now, lines) && Lists(ips, After(log), length)
    ensures |lines| == 3 * |After(log)|
  {
    OrderedSize(ips, After(log).Keys);
    if ips == [] {
      assert lines != [] ==> lines[0] in lines && Serves(After(log), root, column, now, lines[0]);
    } else {
      LineAt(After(log), root, column, now, lines, ips, length, 0, Previous5s);
    }
  }

  /** They come address by address in order, each with the number of the address's own
      increments in the previous 5s, the current 5m and the previous 5m since it last came
      in. */
  lemma WalkShowsCounts(log: seq<Timed>, root: Oid, column: nat, now: nat, lines: seq<Line>, ips: seq<Ip>, length: nat,
                        i: nat, period: Period)
    requires Chronological(log, now) && Walks(After(log), root, column, now, lines) && Lists(ips, After(log), length)
    requires i < |ips|
    ensures var (n, life) := (3 * i + PeriodIndex(period) - 1, LifeOf(log, ips[i]));
            && n < |lines| && 0 < life.refs
            && lines[n] == Line(CellOf(root, column, ips[i], period), Count(life.events, period, now))
  {
    var (rows, n, ip) := (After(log), 3 * i + PeriodIndex(period) - 1, ips[i]);
    LineAt(rows, root, column, now, lines, ips, length, i, period);
    assert lines[n] in lines && ip in ips;
    LineShows(rows, root, column, now, lines[n], ip, period);
    TableIsExact(log, ip, period, now);
  }

  /** And told from the log alone: the increments of the address in the period since which it
      has at all times been added more often than removed. */
  lemma WalkShowsIncrements(log: seq<Timed>, root: Oid, column: nat, now: nat, lines: seq<Line>, ips: seq<Ip>,
                            length: nat, i: nat, period: Period)
    requires Chronological(log, now) && Walks(After(log), root, column, now, lines) && Lists(ips, After(log), length)
    requires i < |ips| && Balanced(log, ips[i])
    ensures var n := 3 * i + PeriodIndex(period) - 1;
            && n < |lines| && 0 < Net(log, ips[i])
            && lines[n] == Line(CellOf(root, column, ips[i], period), Counting(log, ips[i], period, now, |log|))
  {
    WalkShowsCounts(log, root, column, now, lines, ips, length, i, period);
    CountsAreIncrements(log, ips[i], period, now);
    BalancedTable(log, ips[i]);
  }

  /** The cell of an IPv4 address, number by number: the table's entry and column, the type
      of the address (1) and its length (4), the address, and the period (1 to 3). */
  lemma CellNumbers(root: Oid, column: nat, a: nat, b: nat, c: nat, d: nat)
    ensures CellOf(root, column, [a, b, c, d], Previous5s) == root + [1, column, 1, 4, a, b, c, d, 1]
    ensures CellOf(root, column, [a, b, c, d], Current5m) == root + [1, column, 1, 4, a, b, c, d, 2]
    ensures CellOf(root, column, [a, b, c, d], Previous5m) == root + [1, column, 1, 4, a, b, c, d, 3]
  {
    var ip := [a, b, c, d];
    assert EncodeIp(ip) == [1, 4, a, b, c, d];
  }

  /** The addresses of a table can always be listed in order, and then it can be walked. */
  lemma WalkExists(rows: map<Ip, Row>, root: Oid, column: nat, now: nat, length: nat)
    returns (ips: seq<Ip>, lines: seq<Line>)
    requires forall ip :: ip in rows ==> |ip| == length
    ensures Lists(ips, rows, length) && Walks(rows, root, column, now, lines)
  {
    ips := OrderedListing(rows.Keys);
    assert forall i :: 0 <= i < |ips| ==> ips[i] in ips;
    lines := LinesOf(rows, root, column, now, ips);
    OneColumnIncreases(rows, root, column, now, ips, length);
    forall line
      ensures line in lines <==> Serves(rows, root, column, now, line)
    {
      LinesServe(rows, root, column, now, ips, line);
    }
  }

  function LinesOf(rows: map<Ip, Row>, root: Oid, column: nat, now: nat, ips: seq<Ip>): seq<Line>
    requires forall i :: 0 <= i < |ips| ==> ips[i] in rows
  {
    seq(3 * |ips|, n requires 0 <= n < 3 * |ips| =>
      Line(CellOf(root, column, ips[n / 3], PeriodNumber(n % 3)), Shown(rows[ips[n / 3]], PeriodNumber(n % 3), now)))
  }

  lemma OneColumnIncreases(rows: map<Ip, Row>, root: Oid, column: nat, now: nat, ips: seq<Ip>, length: nat)
    requires Lists(ips, rows, length) && forall i :: 0 <= i < |ips| ==> ips[i] in rows
    ensures Increasing(OidsOf(LinesOf(rows, root, column, now, ips)))
  {
    var (lines, indices) := (LinesOf(rows, root, column, now, ips), AddressRows(ips));
    AddressRowsIncrease(ips, length);
    forall i, j | 0 <= i < j < |lines|
      ensures Less(lines[i].oid, lines[j].oid)
    {
      CellOrder(root, column, column, indices[i], indices[j]);
    }
  }

  lemma LinesServe(rows: map<Ip, Row>, root: Oid, column: nat, now: nat, ips: seq<Ip>, line: Line)
    requires (forall i :: 0 <= i < |ips| ==> ips[i] in rows) && forall ip :: ip in rows ==> ip in ips
    ensures line in LinesOf(rows, root, column, now, ips) <==> Serves(rows, root, column, now, line)
  {
    var lines := LinesOf(rows, root, column, now, ips);
    if line in lines {
      var n :| 0 <= n < |lines| && lines[n] == line;
      assert ips[n / 3] in rows && line.oid == CellOf(root, column, ips[n / 3], PeriodNumber(n % 3));
    }
    if Serves(rows, root, column, now, line) {
      var ip, period :| ip in rows && line.oid == CellOf(root, column, ip, period)
                        && line.value == Shown(rows[ip], period, now);
      var i :| 0 <= i < |ips| && ips[i] == ip;
      var n := 3 * i + PeriodIndex(period) - 1;
      assert n / 3 == i && PeriodNumber(n % 3) == period;
      assert lines[n] == line;
    }
  }
}
