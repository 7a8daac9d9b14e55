/** The table of counters by IP address: an address has rows while it has been added more
    often than removed, and its counts start afresh each time it comes back. */
module IpTable {
  import opened Statistics
  import opened Windows

  type Ip = seq<nat>

  /** The counters of one address, in the two kinds of window, and its reference count. */
  datatype Row = Row(refs: nat, seconds: Window, minutes: Window)

  datatype Op = AddIp(ip: Ip) | RemoveIp(ip: Ip) | Increment(ip: Ip)

  datatype Timed = Timed(time: nat, op: Op)

  function NewRow(now: nat): Row {
    Row(1, Fresh(FIVE_SECONDS, now), Fresh(FIVE_MINUTES, now))
  }

  function Counted(row: Row, e: Event): Row {
    Row(row.refs, Feed(row.seconds, FIVE_SECONDS, e), Feed(row.minutes, FIVE_MINUTES, e))
  }

  function Apply(rows: map<Ip, Row>, e: Timed): map<Ip, Row> {
    var ip := e.op.ip;
    match e.op
    case AddIp(_) =>
      if ip in rows then rows[ip := rows[ip].(refs := rows[ip].refs + 1)] else rows[ip := NewRow(e.time)]
    case RemoveIp(_) =>
      if ip !in rows then rows
      else if rows[ip].refs <= 1 then rows - {ip}
      else rows[ip := rows[ip].(refs := rows[ip].refs - 1)]
    case Increment(_) =>
      if ip !in rows then rows
      else rows[ip := Counted(rows[ip], Event(e.time, 1))]
  }

  function After(log: seq<Timed>): map<Ip, Row> {
    if log == [] then map[] else Apply(After(log[..|log| - 1]), log[|log| - 1])
  }

  // ---------- reference: the story of one address ----------

  /** References held, when the address last came in, and its increments since then. */
  datatype Life = Life(refs: nat, born: nat, events: seq<Event>)

  const ABSENT := Life(0, 0, [])

  function Lived(life: Life, e: Timed): Life {
    match e.op
    case AddIp(_) => if life.refs == 0 then Life(1, e.time, []) else life.(refs := life.refs + 1)
    case RemoveIp(_) => if life.refs <= 1 then ABSENT else life.(refs := life.refs - 1)
    case Increment(_) => if life.refs == 0 then life else life.(events := life.events + [Event(e.time, 1)])
  }

  function LifeOf(log: seq<Timed>, ip: Ip): Life {
    if log == [] then ABSENT
    else
      var (life, e) := (LifeOf(log[..|log| - 1], ip), log[|log| - 1]);
      if e.op.ip == ip then Lived(life, e) else life
  }

  function RowOf(life: Life): Row {
    Row(life.refs, Replay(Fresh(FIVE_SECONDS, life.born), FIVE_SECONDS, life.events),
        Replay(Fresh(FIVE_MINUTES, life.born), FIVE_MINUTES, life.events))
  }

  ghost predicate Matches(rows: map<Ip, Row>, ip: Ip, life: Life) {
    && (ip in rows <==> 0 < life.refs)
    && (ip in rows ==> rows[ip] == RowOf(life))
  }

  lemma ReplaySnoc(w: Window, interval: nat, log: seq<Event>, e: Event)
    requires 0 < interval
    ensures Replay(w, interval, log + [e]) == Feed(Replay(w, interval, log), interval, e)
  {
    assert (log + [e])[..|log + [e]| - 1] == log;
  }

  lemma CountedRow(life: Life, e: Event)
    ensures RowOf(life.(events := life.events + [e])) == Counted(RowOf(life), e)
  {
    ReplaySnoc(Fresh(FIVE_SECONDS, life.born), FIVE_SECONDS, life.events, e);
    ReplaySnoc(Fresh(FIVE_MINUTES, life.born), FIVE_MINUTES, life.events, e);
  }

  lemma StepMatches(rows: map<Ip, Row>, ip: Ip, life: Life, e: Timed)
    requires Matches(rows, ip, life)
    ensures Matches(Apply(rows, e), ip, if e.op.ip == ip then Lived(life, e) else life)
  {
    if e.op.Increment? {
      CountedRow(life, Event(e.time, 1));
    }
  }

  lemma {:induction false} TableMatches(log: seq<Timed>, ip: Ip)
    ensures Matches(After(log), ip, LifeOf(log, ip))
  {
    if log != [] {
      var (init, e) := (log[..|log| - 1], log[|log| - 1]);
      TableMatches(init, ip);
      StepMatches(After(init), ip, LifeOf(init, ip), e);
    }
  }

  predicate Chronological(log: seq<Timed>, now: nat) {
    && (forall i :: 0 <= i < |log| ==> log[i].time <= now)
    && (forall i, j :: 0 <= i < j < |log| ==> log[i].time <= log[j].time)
  }

  lemma {:induction false} LifeInOrder(log: seq<Timed>, ip: Ip, now: nat)
    requires Chronological(log, now)
    ensures InOrder(LifeOf(log, ip).events, LifeOf(log, ip).born, now)
  {
    if log != [] {
      var e := log[|log| - 1];
      LifeInOrder(log[..|log| - 1], ip, e.time);
    }
  }

  function Shown(row: Row, period: Period, now: nat): nat {
    match period
    case Previous5s => Rotate(row.seconds, FIVE_SECONDS, now).previous.count
    case Current5m => Rotate(row.minutes, FIVE_MINUTES, now).current.count
    case Previous5m => Rotate(row.minutes, FIVE_MINUTES, now).previous.count
  }

  lemma WindowCounts(interval: nat, life: Life, now: nat, w: Window)
    requires 0 < interval && InOrder(life.events, life.born, now)
    requires w == Rotate(Replay(Fresh(interval, life.born), interval, life.events), interval, now)
    ensures w.current.count == Fold(InWindow(life.events, interval, now / interval)).count
    ensures w.previous.count == Fold(InWindow(life.events, interval, now / interval - 1)).count
  {
    LazyWindowIsExact(interval, life.events, life.born, now);
  }

  lemma ShownIsCount(life: Life, period: Period, now: nat)
    requires InOrder(life.events, life.born, now)
    ensures Shown(RowOf(life), period, now) == Count(life.events, period, now)
  {
    var interval := if period == Previous5s then FIVE_SECONDS else FIVE_MINUTES;
    WindowCounts(interval, life, now, Rotate(Replay(Fresh(interval, life.born), interval, life.events), interval, now));
  }

  /** Over any run: an address is in the table exactly while it holds a reference, and each
      of its three rows shows the number of its own increments in that period since the
      address last came in. */
  lemma TableIsExact(log: seq<Timed>, ip: Ip, period: Period, now: nat)
    requires Chronological(log, now)
    ensures var life := LifeOf(log, ip);
            && (ip in After(log) <==> 0 < life.refs)
            && (ip in After(log) ==> Shown(After(log)[ip], period, now) == Count(life.events, period, now))
  {
    TableMatches(log, ip);
    LifeInOrder(log, ip, now);
    ShownIsCount(LifeOf(log, ip), period, now);
  }

  /** The operations of a run that name one address. */
  function About(log: seq<Timed>, ip: Ip): seq<Timed> {
    if log == [] then []
    else About(log[..|log| - 1], ip) + if log[|log| - 1].op.ip == ip then [log[|log| - 1]] else []
  }

  /** Operations on other addresses leave no trace: the address fares as if it were alone. */
  lemma {:induction false} AddressesAreIndependent(log: seq<Timed>, ip: Ip)
    ensures LifeOf(About(log, ip), ip) == LifeOf(log, ip)
    ensures ip in After(log) <==> ip in After(About(log, ip))
    ensures ip in After(log) ==> After(log)[ip] == After(About(log, ip))[ip]
  {
    if log != [] {
      var (init, e) := (log[..|log| - 1], log[|log| - 1]);
      AddressesAreIndependent(init, ip);
      if e.op.ip == ip {
        assert About(log, ip)[..|About(log, ip)| - 1] == About(init, ip);
      } else {
        assert About(log, ip) == About(init, ip);
      }
    }
    TableMatches(log, ip);
    TableMatches(About(log, ip), ip);
  }

  /** Adds less removes. */
  function Net(log: seq<Timed>, ip: Ip): int {
    if log == [] then 0
    else
      Net(log[..|log| - 1], ip) +
      var op := log[|log| - 1].op;
      if op.ip != ip then 0 else if op.AddIp? then 1 else if op.RemoveIp? then -1 else 0
  }

  /** Where in the log the operation stands. */
  ghost function Places(log: seq<Timed>, op: Op): set<nat> {
    set i: nat | i < |log| && log[i].op == op
  }

  lemma PlacesSnoc(log: seq<Timed>, e: Timed, op: Op)
    ensures Places([], op) == {}
    ensures |Places(log + [e], op)| == |Places(log, op)| + if e.op == op then 1 else 0
  {
    assert Places(log + [e], op) == Places(log, op) + if e.op == op then {|log|} else {};
  }

  /** The times the address has been added less the times it has been removed. */
  lemma {:induction false} NetIsAddsLessRemoves(log: seq<Timed>, ip: Ip)
    ensures Net(log, ip) == |Places(log, Op.AddIp(ip))| - |Places(log, Op.RemoveIp(ip))|
  {
    if log == [] {
      PlacesSnoc([], Timed(0, Op.AddIp(ip)), Op.AddIp(ip));
      PlacesSnoc([], Timed(0, Op.AddIp(ip)), Op.RemoveIp(ip));
    } else {
      var (init, e) := (log[..|log| - 1], log[|log| - 1]);
      NetIsAddsLessRemoves(init, ip);
      PlacesSnoc(init, e, Op.AddIp(ip));
      PlacesSnoc(init, e, Op.RemoveIp(ip));
      assert log == init + [e];
    }
  }

  /** While no address has been removed more often than added, it has rows exactly when it
      has been added more often than removed. */
  lemma {:induction false} BalancedTable(log: seq<Timed>, ip: Ip)
    requires Balanced(log, ip)
    ensures LifeOf(log, ip).refs == Net(log, ip)
    ensures ip in After(log) <==> 0 < Net(log, ip)
  {
    TableMatches(log, ip);
    assert log[..|log|] == log;
    if log != [] {
      var init := log[..|log| - 1];
      assert forall i :: 0 <= i <= |init| ==> init[..i] == log[..i];
      BalancedTable(init, ip);
    }
  }

  // ---------- counts, told from the log alone ----------

  /** The address has never been removed more often than added. */
  ghost predicate Balanced(log: seq<Timed>, ip: Ip) {
    forall i :: 0 <= i <= |log| ==> 0 <= Net(log[..i], ip)
  }

  /** Operation `i` is an increment of the address, in the period, and the address has been
      in the table ever since. */
  ghost predicate Counts(log: seq<Timed>, ip: Ip, period: Period, now: nat, i: nat)
    requires i < |log|
  {
    && log[i].op == Op.Increment(ip) && InPeriod(log[i].time, period, now)
    && forall j :: i <= j <= |log| ==> 0 < Net(log[..j], ip)
  }

  /** How many of the first `n` operations count. */
  ghost function Counting(log: seq<Timed>, ip: Ip, period: Period, now: nat, n: nat): nat
    requires n <= |log|
  {
    if n == 0 then 0 else Counting(log, ip, period, now, n - 1) + if Counts(log, ip, period, now, n - 1) then 1 else 0
  }

  lemma NetSnoc(log: seq<Timed>, e: Timed, ip: Ip)
    ensures Net(log + [e], ip)
            == Net(log, ip) + if e.op.ip != ip then 0 else if e.op.AddIp? then 1 else if e.op.RemoveIp? then -1 else 0
  {
    assert (log + [e])[..|log + [e]| - 1] == log;
  }

  /** One more operation leaves what counts as it is, as long as the address stays. */
  lemma CountsSnoc(log: seq<Timed>, e: Timed, ip: Ip, period: Period, now: nat, i: nat)
    requires i < |log|
    ensures Counts(log + [e], ip, period, now, i) <==> Counts(log, ip, period, now, i) && 0 < Net(log + [e], ip)
  {
    var more := log + [e];
    assert more[..|more|] == more;
    assert forall j :: i <= j <= |log| ==> more[..j] == log[..j];
  }

  lemma {:induction false} CountingSnoc(log: seq<Timed>, e: Timed, ip: Ip, period: Period, now: nat, n: nat)
    requires n <= |log|
    ensures Counting(log + [e], ip, period, now, n)
            == if 0 < Net(log + [e], ip) then Counting(log, ip, period, now, n) else 0
  {
    if 0 < n {
      CountingSnoc(log, e, ip, period, now, n - 1);
      CountsSnoc(log, e, ip, period, now, n - 1);
    }
  }

  lemma {:induction false} NothingCounts(log: seq<Timed>, ip: Ip, period: Period, now: nat, n: nat)
    requires n <= |log| && Net(log, ip) <= 0
    ensures Counting(log, ip, period, now, n) == 0
  {
    if 0 < n {
      NothingCounts(log, ip, period, now, n - 1);
      assert log[..|log|] == log;
    }
  }

  lemma LastCounts(log: seq<Timed>, e: Timed, ip: Ip, period: Period, now: nat)
    ensures Counts(log + [e], ip, period, now, |log|) <==>
              e.op == Op.Increment(ip) && InPeriod(e.time, period, now) && 0 < Net(log, ip)
  {
    var more := log + [e];
    NetSnoc(log, e, ip);
    assert more[..|log|] == log && more[..|log| + 1] == more;
  }

  lemma CountingMore(log: seq<Timed>, e: Timed, ip: Ip, period: Period, now: nat)
    ensures Counting(log + [e], ip, period, now, |log + [e]|)
            == (if 0 < Net(log + [e], ip) then Counting(log, ip, period, now, |log|) else 0)
               + if e.op == Op.Increment(ip) && InPeriod(e.time, period, now) && 0 < Net(log, ip) then 1 else 0
  {
    CountingSnoc(log, e, ip, period, now, |log|);
    LastCounts(log, e, ip, period, now);
  }

  lemma LifeCounts(life: Life, e: Timed, period: Period, now: nat)
    ensures Count(Lived(life, e).events, period, now) ==
            match e.op
            case AddIp(_) => if life.refs == 0 then 0 else Count(life.events, period, now)
            case RemoveIp(_) => if life.refs <= 1 then 0 else Count(life.events, period, now)
            case Increment(_) =>
              Count(life.events, period, now) + if life.refs != 0 && InPeriod(e.time, period, now) then 1 else 0
  {
    CountSnoc(life.events, Event(e.time, 1), period, now);
  }

  lemma CountOfOneMore(log: seq<Timed>, e: Timed, ip: Ip, period: Period, now: nat, life: Life)
    requires life.refs == Net(log, ip) && 0 <= Net(log + [e], ip)
    requires Count(life.events, period, now) == Counting(log, ip, period, now, |log|)
    ensures Count((if e.op.ip == ip then Lived(life, e) else life).events, period, now)
            == Counting(log + [e], ip, period, now, |log + [e]|)
  {
    NetSnoc(log, e, ip);
    CountingMore(log, e, ip, period, now);
    LifeCounts(life, e, period, now);
    if Net(log, ip) <= 0 {
      NothingCounts(log, ip, period, now, |log|);
    }
  }

  /** What the rows count, told without following the table: the increments of the address
      that fall in the period and since which it has at all times been added more often than
      removed. */
  lemma {:induction false} CountsAreIncrements(log: seq<Timed>, ip: Ip, period: Period, now: nat)
    requires Balanced(log, ip)
    ensures Count(LifeOf(log, ip).events, period, now) == Counting(log, ip, period, now, |log|)
  {
    if log == [] {
      CountSnoc([], Event(0, 0), period, now);
    } else {
      var (init, e) := (log[..|log| - 1], log[|log| - 1]);
      assert forall i :: 0 <= i <= |init| ==> init[..i] == log[..i];
      assert init + [e] == log;
      BalancedTable(init, ip);
      CountsAreIncrements(init, ip, period, now);
      assert log[..|log|] == log;
      CountOfOneMore(init, e, ip, period, now, LifeOf(init, ip));
    }
  }

  /** The table, row by row, from the log alone. */
  lemma TableCounts(log: seq<Timed>, ip: Ip, period: Period, now: nat)
    requires Chronological(log, now) && Balanced(log, ip)
    ensures ip in After(log) <==> 0 < Net(log, ip)
    ensures ip in After(log) ==> Shown(After(log)[ip], period, now) == Counting(log, ip, period, now, |log|)
  {
    BalancedTable(log, ip);
    TableIsExact(log, ip, period, now);
    CountsAreIncrements(log, ip, period, now);
  }

  /** The table object. */
  class IpTimeBasedCounterTable {
    var rows: map<Ip, Row>
    ghost var log: seq<Timed>
    ghost var clock: nat

    ghost predicate Valid()
      reads this
    {
      rows == After(log) && Chronological(log, clock)
    }

    constructor (now: nat)
      ensures Valid() && log == [] && clock == now
    {
      rows, log, clock := map[], [], now;
    }

    ghost method Record(e: Timed, before: map<Ip, Row>)
      requires before == After(log) && rows == Apply(before, e) && Chronological(log, clock) && clock <= e.time
      modifies this`log, this`clock
      ensures Valid() && log == old(log) + [e] && clock == e.time
    {
      assert (log + [e])[..|log + [e]| - 1] == log;
      log, clock := log + [e], e.time;
    }

    method AddIp(ip: Ip, now: nat)
      requires Valid() && clock <= now
      modifies this
      ensures Valid() && log == old(log) + [Timed(now, Op.AddIp(ip))] && clock == now
    {
      if ip in rows {
        rows := rows[ip := rows[ip].(refs := rows[ip].refs + 1)];
      } else {
        rows := rows[ip := NewRow(now)];
      }
      Record(Timed(now, Op.AddIp(ip)), old(rows));
    }

    method RemoveIp(ip: Ip, now: nat)
      requires Valid() && clock <= now
      modifies this
      ensures Valid() && log == old(log) + [Timed(now, Op.RemoveIp(ip))] && clock == now
    {
      if ip in rows {
        if rows[ip].refs <= 1 {
          rows := rows - {ip};
        } else {
          rows := rows[ip := rows[ip].(refs := rows[ip].refs - 1)];
        }
      }
      Record(Timed(now, Op.RemoveIp(ip)), old(rows));
    }

    method Increment(ip: Ip, now: nat)
      requires Valid() && clock <= now
      modifies this
      ensures Valid() && log == old(log) + [Timed(now, Op.Increment(ip))] && clock == now
    {
      if ip in rows {
        rows := rows[ip := Counted(rows[ip], Event(now, 1))];
      }
      Record(Timed(now, Op.Increment(ip)), old(rows));
    }

    /** Whether the address has rows, and what the one for `period` shows. */
    method Get(ip: Ip, period: Period, now: nat) returns (present: bool, count: nat)
      requires Valid() && clock <= now
      ensures present <==> 0 < LifeOf(log, ip).refs
      ensures present ==> count == Count(LifeOf(log, ip).events, period, now)
      ensures Balanced(log, ip) ==>
                (present <==> 0 < Net(log, ip)) && (present ==> count == Counting(log, ip, period, now, |log|))
    {
      TableIsExact(log, ip, period, now);
      if Balanced(log, ip) {
        TableCounts(log, ip, period, now);
      }
      present := ip in rows;
      count := if present then Shown(rows[ip], period, now) else 0;
    }
  }
}
