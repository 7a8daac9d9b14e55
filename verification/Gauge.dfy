/** The continuous accumulator: a value that stays in force until the next one is given,
    averaged over time. The reference takes one sample of the value for every millisecond
    of the window that the table existed, so the row is an event row fed by that clock. */
module Gauge {
  import opened Statistics
  import opened Windows

  /** The window that begins at `start`, its totals and those of the window before, the
      value in force and the moment up to which it has been counted. */
  datatype Gauge = Gauge(start: nat, current: Totals, previous: Totals, value: nat, since: nat)

  /** The beginning of the aligned period that `now` is in. */
  function PeriodStart(now: nat, interval: nat): nat
    requires 0 < interval
  {
    now - now % interval
  }

  function Span(a: int, b: int): nat {
    if a < b then b - a else 0
  }

  function Latest(a: int, b: int): int { if a < b then b else a }

  /** Counts the value in force up to `now`, closing the windows gone by and carrying the
      value into each new one. */
  function Settle(g: Gauge, interval: nat, now: nat): Gauge
    requires 0 < interval
  {
    var end := g.start + interval;
    if now < end then g.(current := Held(g.current, g.value, Span(g.since, now)), since := now)
    else
      Moved(g, interval, PeriodStart(now, interval), now)
  }

  /** Moves on to the later window that begins at `start`. What the one before it starts
      from is nothing if it was skipped. */
  function Moved(g: Gauge, interval: nat, start: nat, now: nat): Gauge {
    var base := if start == g.start + interval then g.current else NONE;
    Gauge(start, Held(NONE, g.value, Span(start, now)),
          Held(base, g.value, Span(Latest(g.since, start - interval), start)), g.value, now)
  }

  /** The same in a number of steps that does not depend on the time gone by. */
  function SettleFast(g: Gauge, interval: nat, now: nat): Gauge
    requires 0 < interval
  {
    var end := g.start + interval;
    if now < end then g.(current := Hold(g.current, g.value, Span(g.since, now)), since := now)
    else
      var start := PeriodStart(now, interval);
      Gauge(start, Hold(NONE, g.value, Span(start, now)),
            Hold(if start == end then g.current else NONE, g.value, Span(Latest(g.since, start - interval), start)),
            g.value, now)
  }

  lemma SettleFastIsSettle(g: Gauge, interval: nat, now: nat)
    requires 0 < interval
    ensures SettleFast(g, interval, now) == Settle(g, interval, now)
  {
    HoldIsHeld(g.current, g.value, Span(g.since, now));
    var start := PeriodStart(now, interval);
    HoldIsHeld(NONE, g.value, Span(start, now));
    HoldIsHeld(if start == g.start + interval then g.current else NONE, g.value,
               Span(Latest(g.since, start - interval), start));
  }

  function Give(g: Gauge, interval: nat, e: Event): Gauge
    requires 0 < interval
  {
    Settle(g, interval, e.time).(value := e.value)
  }

  /** A table created at `now`; until it is told otherwise the value is 0. */
  function Created(interval: nat, now: nat): Gauge
    requires 0 < interval
  {
    Gauge(PeriodStart(now, interval), NONE, NONE, 0, now)
  }

  // ---------- reference ----------

  /** The value in force during the millisecond that starts at `t`. */
  function ValueAt(log: seq<Event>, t: int): nat {
    if log == [] then 0
    else if log[|log| - 1].time <= t then log[|log| - 1].value
    else ValueAt(log[..|log| - 1], t)
  }

  /** One sample per millisecond from `a` up to but not including `b`. */
  function Samples(log: seq<Event>, a: int, b: int): seq<nat>
    decreases b - a
  {
    if b <= a then [] else Samples(log, a, b - 1) + [ValueAt(log, b - 1)]
  }

  lemma {:induction false} SamplesSplit(log: seq<Event>, a: int, b: int, c: int)
    requires a <= b <= c
    ensures Samples(log, a, c) == Samples(log, a, b) + Samples(log, b, c)
    decreases c - b
  {
    if b < c {
      SamplesSplit(log, a, b, c - 1);
      assert Samples(log, a, b) + Samples(log, b, c - 1) + [ValueAt(log, c - 1)]
          == Samples(log, a, b) + (Samples(log, b, c - 1) + [ValueAt(log, c - 1)]);
    } else {
      assert Samples(log, a, b) + [] == Samples(log, a, b);
    }
  }

  lemma {:induction false} SamplesHeld(log: seq<Event>, a: int, b: int, since: int)
    requires since <= a <= b && forall i :: 0 <= i < |log| ==> log[i].time <= since
    ensures Samples(log, a, b) == Repeat(ValueAt(log, since), b - a)
    decreases b - a
  {
    if a < b {
      SamplesHeld(log, a, b - 1, since);
      assert Repeat(ValueAt(log, since), b - 1 - a) + [ValueAt(log, since)] == Repeat(ValueAt(log, since), b - a);
    }
  }

  /** A value given later does not change the samples already taken. */
  lemma {:induction false} SamplesUnchanged(log: seq<Event>, e: Event, a: int, b: int)
    requires b <= e.time
    ensures Samples(log + [e], a, b) == Samples(log, a, b)
    decreases b - a
  {
    if a < b {
      assert (log + [e])[..|log + [e]| - 1] == log;
      SamplesUnchanged(log, e, a, b - 1);
    }
  }

  /** Nothing has been given since `since`. */
  predicate QuietSince(log: seq<Event>, since: int) {
    forall i :: 0 <= i < |log| ==> log[i].time <= since
  }

  /** Holding the value in force from `b` to `c` brings the totals from `a..b` to `a..c`. */
  lemma HeldExtends(log: seq<Event>, a: int, b: int, c: int, since: int)
    requires a <= b <= c && since <= b && QuietSince(log, since)
    ensures Fold(Samples(log, a, c)) == Held(Fold(Samples(log, a, b)), ValueAt(log, since), Span(b, c))
  {
    SamplesSplit(log, a, b, c);
    SamplesHeld(log, b, c, since);
    HeldIsRepeat(Samples(log, a, b), ValueAt(log, since), c - b);
  }

  /** A window that began after the last value was given. */
  lemma CarriedWindow(log: seq<Event>, born: nat, since: nat, a: nat, b: nat)
    requires born <= since <= a <= b && QuietSince(log, since)
    ensures Held(NONE, ValueAt(log, since), Span(a, b)) == Fold(Samples(log, Latest(born, a), b))
  {
    HeldExtends(log, a, a, b, since);
  }

  /** The totals of the window that begins at `start`, counted up to `upto`, and of the
      window before it; neither goes back before `born`. */
  ghost predicate Counts(g: Gauge, interval: int, log: seq<Event>, born: int) {
    && g.current == Fold(Samples(log, Latest(born, g.start), g.since))
    && g.previous == Fold(Samples(log, Latest(born, g.start - interval), Latest(born, g.start)))
  }

  /** The gauge agrees with the reference up to the moment it has counted to. */
  ghost predicate Agrees(g: Gauge, interval: nat, log: seq<Event>, born: nat) {
    && 0 < interval && born <= g.since && QuietSince(log, g.since)
    && g.value == ValueAt(log, g.since)
    && g.start % interval == 0 && g.start <= g.since < g.start + interval
    && Counts(g, interval, log, born)
  }

  lemma PeriodOf(now: nat, interval: nat)
    requires 0 < interval
    ensures PeriodStart(now, interval) % interval == 0
    ensures PeriodStart(now, interval) <= now < PeriodStart(now, interval) + interval
  {
    var q := now / interval;
    assert now == interval * q + now % interval;
    MultipleOf(interval, q);
  }

  lemma MultipleOf(interval: nat, q: nat)
    requires 0 < interval
    ensures (interval * q) % interval == 0
  {
    QuotientIs(interval * q, interval, q);
  }

  /** Two aligned moments are equal or at least an interval apart. */
  lemma AlignedApart(a: nat, b: nat, interval: nat)
    requires 0 < interval && a % interval == 0 && b % interval == 0 && a < b
    ensures a + interval <= b
  {
    var (m, n) := (a / interval, b / interval);
    assert a == interval * m && b == interval * n;
    CancelStrict(interval, m, n);
    MulMonotone(interval, interval, m + 1, n);
    Distribute(interval, m, 1);
  }

  lemma AlignedNext(a: nat, interval: nat)
    requires 0 < interval && a % interval == 0
    ensures (a + interval) % interval == 0
  {
    var m := a / interval;
    assert a == interval * m;
    Distribute(interval, m, 1);
    MultipleOf(interval, m + 1);
  }

  /** Where a window that `now` has left stands to the one `now` is in. */
  lemma LeftBehind(from: nat, now: nat, interval: nat)
    requires 0 < interval && from % interval == 0 && from + interval <= now
    ensures var start := PeriodStart(now, interval);
            start == from + interval || from + interval <= start - interval
  {
    var (start, next) := (PeriodStart(now, interval), from + interval);
    PeriodOf(now, interval);
    AlignedNext(from, interval);
    if next < start {
      AlignedApart(next, start, interval);
    } else if start < next {
      AlignedApart(start, next, interval);
    }
  }

  lemma SettleAgrees(g: Gauge, interval: nat, log: seq<Event>, born: nat, now: nat)
    requires Agrees(g, interval, log, born) && g.since <= now
    ensures Agrees(Settle(g, interval, now), interval, log, born)
  {
    ValueHeld(log, g.since, now);
    if now < g.start + interval {
      HeldExtends(log, Latest(born, g.start), g.since, now, g.since);
    } else {
      SettleAcross(g, interval, log, born, now);
    }
  }

  lemma SettleAcross(g: Gauge, interval: nat, log: seq<Event>, born: nat, now: nat)
    requires Agrees(g, interval, log, born) && g.start + interval <= now
    ensures Agrees(Settle(g, interval, now), interval, log, born)
  {
    var start := PeriodStart(now, interval);
    PeriodOf(now, interval);
    LeftBehind(g.start, now, interval);
    ValueHeld(log, g.since, now);
    MovedCounts(g, interval, log, born, start, now);
  }

  lemma MovedCounts(g: Gauge, interval: nat, log: seq<Event>, born: nat, start: nat, now: nat)
    requires QuietSince(log, g.since) && g.value == ValueAt(log, g.since)
    requires g.current == Fold(Samples(log, Latest(born, g.start), g.since))
    requires born <= g.since && g.start <= g.since < g.start + interval <= start <= now
    requires start == g.start + interval || g.start + interval <= start - interval
    ensures Counts(Moved(g, interval, start, now), interval, log, born)
  {
    var moved := Moved(g, interval, start, now);
    CarriedWindow(log, born, g.since, start, now);
    assert moved.current == Fold(Samples(log, Latest(born, moved.start), moved.since));
    PreviousWindow(g, interval, log, born, start);
  }

  /** The window before the one moved to: the one the gauge was in, or a skipped one. */
  lemma PreviousWindow(g: Gauge, interval: nat, log: seq<Event>, born: nat, start: nat)
    requires QuietSince(log, g.since) && g.value == ValueAt(log, g.since)
    requires g.current == Fold(Samples(log, Latest(born, g.start), g.since))
    requires born <= g.since && g.start <= g.since < g.start + interval
    requires start == g.start + interval || g.start + interval <= start - interval
    ensures Held(if start == g.start + interval then g.current else NONE, g.value,
                 Span(Latest(g.since, start - interval), start))
            == Fold(Samples(log, Latest(born, start - interval), Latest(born, start)))
  {
    var (before, from) := (start - interval, Latest(g.since, start - interval));
    var counted := Samples(log, Latest(born, before), from);
    assert Fold(counted) == if start == g.start + interval then g.current else NONE;
    HeldExtends(log, Latest(born, before), from, start, g.since);
  }

  lemma ValueHeld(log: seq<Event>, since: nat, now: nat)
    requires since <= now && QuietSince(log, since)
    ensures ValueAt(log, now) == ValueAt(log, since)
  {
  }

  lemma GiveAgrees(g: Gauge, interval: nat, log: seq<Event>, born: nat, e: Event)
    requires Agrees(g, interval, log, born) && g.since == e.time
    ensures Agrees(g.(value := e.value), interval, log + [e], born)
  {
    SamplesUnchanged(log, e, Latest(born, g.start), g.since);
    SamplesUnchanged(log, e, Latest(born, g.start - interval), Latest(born, g.start));
  }

  /** Runs the gauge over a log of values given, in order of time. */
  function Replay(g: Gauge, interval: nat, log: seq<Event>): Gauge
    requires 0 < interval
  {
    if log == [] then g
    else Give(Replay(g, interval, log[..|log| - 1]), interval, log[|log| - 1])
  }

  lemma {:induction false} ReplayAgrees(interval: nat, log: seq<Event>, born: nat)
    requires 0 < interval && InOrder(log, born, LastTime(log, born))
    ensures Agrees(Replay(Created(interval, born), interval, log), interval, log, born)
    ensures Replay(Created(interval, born), interval, log).since == LastTime(log, born)
  {
    if log == [] {
      PeriodOf(born, interval);
    } else {
      var (init, e) := (log[..|log| - 1], log[|log| - 1]);
      ReplayAgrees(interval, init, born);
      GiveStep(Replay(Created(interval, born), interval, init), interval, init, born, e);
      assert init + [e] == log;
    }
  }

  lemma GiveStep(g: Gauge, interval: nat, log: seq<Event>, born: nat, e: Event)
    requires Agrees(g, interval, log, born) && g.since <= e.time
    ensures Agrees(Give(g, interval, e), interval, log + [e], born)
  {
    SettleAgrees(g, interval, log, born, e.time);
    GiveAgrees(Settle(g, interval, e.time), interval, log, born, e);
  }

  /** What the row shows at `now` after the values of the log. */
  function RowAt(interval: nat, log: seq<Event>, born: nat, now: nat): Gauge
    requires 0 < interval
  {
    Settle(Replay(Created(interval, born), interval, log), interval, now)
  }

  lemma StartIsPeriodStart(start: nat, now: nat, interval: nat)
    requires 0 < interval && start % interval == 0 && start <= now < start + interval
    ensures start == PeriodStart(now, interval)
  {
    var other := PeriodStart(now, interval);
    PeriodOf(now, interval);
    if start < other {
      AlignedApart(start, other, interval);
    } else if other < start {
      AlignedApart(other, start, interval);
    }
  }

  /** For any values given at any times, and read at any time after, the row's totals are
      those of the value sampled every millisecond: over the current window up to now and
      over the whole of the one before, less the time before the table was created, with
      the value in force carried into each new window however many were skipped. */
  lemma GaugeIsExact(interval: nat, log: seq<Event>, born: nat, now: nat)
    requires 0 < interval && InOrder(log, born, now)
    ensures var g := RowAt(interval, log, born, now);
            && g.value == ValueAt(log, now) && g.since == now && g.start == PeriodStart(now, interval)
            && Counts(g, interval, log, born)
  {
    ReplayAgrees(interval, log, born);
    var before := Replay(Created(interval, born), interval, log);
    SettleAgrees(before, interval, log, born, now);
    StartIsPeriodStart(Settle(before, interval, now).start, now, interval);
  }

  lemma SaneWindow(g: Gauge, interval: int, log: seq<Event>, born: int)
    requires Counts(g, interval, log, born)
    ensures Sane(g.current) && Sane(g.previous)
  {
    SaneTotals(Samples(log, Latest(born, g.start), g.since));
    SaneTotals(Samples(log, Latest(born, g.start - interval), Latest(born, g.start)));
  }

  /** In every window that any value was in force for, at any moment of any run, the mean
      lies between the marks and the variance is not negative. */
  lemma RowsAreSane(interval: nat, log: seq<Event>, born: nat, now: nat)
    requires 0 < interval && InOrder(log, born, now)
    ensures var row := RowAt(interval, log, born, now).current;
            0 < row.count ==> row.lwm <= row.Mean() <= row.hwm && 0 <= row.Variance()
    ensures var row := RowAt(interval, log, born, now).previous;
            0 < row.count ==> row.lwm <= row.Mean() <= row.hwm && 0 <= row.Variance()
  {
    GaugeIsExact(interval, log, born, now);
    SaneWindow(RowAt(interval, log, born, now), interval, log, born);
  }

  lemma ConstantPrevious(g: Gauge, interval: nat, log: seq<Event>, born: nat)
    requires 0 < interval && Counts(g, interval, log, born)
    requires born <= g.start - interval && QuietSince(log, g.start - interval)
    ensures g.previous.count == interval && Constant(g.previous, ValueAt(log, g.start - interval))
  {
    var a := g.start - interval;
    assert Latest(born, a) == a && Latest(born, g.start) == g.start;
    SamplesHeld(log, a, g.start, a);
    ConstantWindow(ValueAt(log, a), interval);
  }

  /** A value nobody changes for a whole window fills it: at any moment of the next window
      the row of the window before shows that value as mean and as both marks, and
      variance 0. */
  lemma UntouchedWindowIsConstant(interval: nat, log: seq<Event>, born: nat, now: nat)
    requires 0 < interval && InOrder(log, born, now)
    requires born <= PeriodStart(now, interval) - interval && QuietSince(log, PeriodStart(now, interval) - interval)
    ensures var g := RowAt(interval, log, born, now);
            g.previous.count == interval && Constant(g.previous, ValueAt(log, now))
  {
    PeriodOf(now, interval);
    GaugeIsExact(interval, log, born, now);
    ValueHeld(log, PeriodStart(now, interval) - interval, now);
    ConstantPrevious(RowAt(interval, log, born, now), interval, log, born);
  }

  // ---------- the test's own figures ----------

  /** The gauge once ContinuousAccumulatorTable has given 100, 200, 150 and 250, the test
      having started at the period that begins at `start`. */
  function After100(start: nat): Gauge {
    SettleFast(Created(FIVE_MINUTES, start + 59000), FIVE_MINUTES, start + 59000).(value := 100)
  }

  function After200(start: nat): Gauge {
    SettleFast(After100(start), FIVE_MINUTES, start + 179000).(value := 200)
  }

  function After150(start: nat): Gauge {
    SettleFast(After200(start), FIVE_MINUTES, start + 450000).(value := 150)
  }

  function After250(start: nat): Gauge {
    SettleFast(After150(start), FIVE_MINUTES, start + 455000).(value := 250)
  }

  lemma FirstPeriod(start: nat)
    requires start % FIVE_MINUTES == 0
    ensures SettleFast(After100(start), FIVE_MINUTES, start + 179000).current
            == Totals(120000, 12000000, 1200000000, 100, 100)
    ensures After200(start) == Gauge(start, Totals(120000, 12000000, 1200000000, 100, 100), NONE, 200, start + 179000)
    ensures SettleFast(After200(start), FIVE_MINUTES, start + 299000).current
            == Totals(240000, 36000000, 6000000000, 200, 100)
  {
    assert PeriodStart(start + 59000, FIVE_MINUTES) == start;
  }

  lemma SecondPeriod(start: nat)
    requires start % FIVE_MINUTES == 0
    ensures SettleFast(After200(start), FIVE_MINUTES, start + 450000)
            == Gauge(start + FIVE_MINUTES, Totals(150000, 30000000, 6000000000, 200, 200),
                     Totals(241000, 36200000, 6040000000, 200, 100), 200, start + 450000)
  {
    FirstPeriod(start);
    AlignedNext(start, FIVE_MINUTES);
    StartIsPeriodStart(start + FIVE_MINUTES, start + 450000, FIVE_MINUTES);
    assert Hold(NONE, 200, 150000) == Totals(150000, 30000000, 6000000000, 200, 200);
    assert Hold(Totals(120000, 12000000, 1200000000, 100, 100), 200, 121000)
        == Totals(241000, 36200000, 6040000000, 200, 100);
  }

  lemma ThirdPeriod(start: nat)
    requires start % FIVE_MINUTES == 0
    ensures After250(start)
            == Gauge(start + FIVE_MINUTES, Totals(155000, 30750000, 6112500000, 200, 150),
                     Totals(241000, 36200000, 6040000000, 200, 100), 250, start + 455000)
  {
    SecondPeriod(start);
    assert Hold(Totals(150000, 30000000, 6000000000, 200, 200), 150, 5000)
        == Totals(155000, 30750000, 6112500000, 200, 150);
  }

  lemma FourthPeriod(start: nat)
    requires start % FIVE_MINUTES == 0
    ensures var g := SettleFast(After250(start), FIVE_MINUTES, start + 460000);
            && g.current == Totals(160000, 32000000, 6425000000, 250, 150)
            && g.previous == Totals(241000, 36200000, 6040000000, 200, 100)
  {
    ThirdPeriod(start);
  }

  lemma Figures()
    ensures Totals(120000, 12000000, 1200000000, 100, 100).Mean() == 100
    ensures Totals(240000, 36000000, 6000000000, 200, 100).Mean() == 150
    ensures Constant(Totals(150000, 30000000, 6000000000, 200, 200), 200)
    ensures Totals(160000, 32000000, 6425000000, 250, 150).Mean() == 200
    ensures Totals(160000, 32000000, 6425000000, 250, 150).Variance() == 156
    ensures Totals(241000, 36200000, 6040000000, 200, 100).Mean() == 150
  {
  }

  /** Every figure the test asserts of its first period, wherever the clock stood before. */
  lemma FirstFigures(clock: nat)
    ensures var start := NextPeriodStart(clock, FIVE_MINUTES);
            && start % FIVE_MINUTES == 0 && NextPeriodStart(start + 299000, FIVE_MINUTES) == start + 300000
            && SettleFast(After100(start), FIVE_MINUTES, start + 179000).current.Mean() == 100
            && SettleFast(After200(start), FIVE_MINUTES, start + 299000).current.Mean() == 150
  {
    var start := NextPeriodStart(clock, FIVE_MINUTES);
    JumpStartsTheNextWindow(Window(clock / FIVE_MINUTES, NONE, NONE), FIVE_MINUTES, clock);
    FirstPeriod(start);
    Figures();
  }

  /** And of the second: the carried value alone, then its last three rows. */
  lemma SecondFigures(start: nat)
    requires start % FIVE_MINUTES == 0
    ensures Constant(SettleFast(After200(start), FIVE_MINUTES, start + 450000).current, 200)
    ensures var g := SettleFast(After250(start), FIVE_MINUTES, start + 460000);
            && g.current.Mean() == 200 && g.current.hwm == 250 && g.current.lwm == 150
            && g.current.Variance() == 156 && g.previous.Mean() == 150
  {
    SecondPeriod(start);
    FourthPeriod(start);
    Figures();
  }

  // ---------- the table ----------

  /** Settles without counting off the time gone by. */
  method Advance(g: Gauge, interval: nat, now: nat) returns (settled: Gauge)
    requires 0 < interval
    ensures settled == Settle(g, interval, now)
  {
    SettleFastIsSettle(g, interval, now);
    settled := SettleFast(g, interval, now);
  }

  /** A table of a continuous value, by five minute periods. */
  class GaugeTable {
    var row: Gauge
    ghost var log: seq<Event>
    ghost const created: nat

    ghost predicate Valid()
      reads this
    {
      InOrder(log, created, row.since) && Agrees(row, FIVE_MINUTES, log, created)
    }

    constructor (now: nat)
      ensures Valid() && log == [] && created == now && row == Created(FIVE_MINUTES, now)
    {
      row := Created(FIVE_MINUTES, now);
      log, created := [], now;
      PeriodOf(now, FIVE_MINUTES);
    }

    method Accumulate(value: nat, now: nat)
      requires Valid() && row.since <= now
      modifies this
      ensures Valid() && log == old(log) + [Event(now, value)]
      ensures row == Give(old(row), FIVE_MINUTES, Event(now, value))
    {
      GiveStep(row, FIVE_MINUTES, log, created, Event(now, value));
      row := Advance(row, FIVE_MINUTES, now);
      row := row.(value := value);
      log := log + [Event(now, value)];
    }

    /** The rows are those of the value sampled every millisecond of their windows since the
        table was created. */
    method Get(now: nat) returns (current: Totals, previous: Totals)
      requires Valid() && row.since <= now
      modifies this
      ensures Valid() && log == old(log) && row.since == now
      ensures row.start == PeriodStart(now, FIVE_MINUTES) && Counts(row, FIVE_MINUTES, log, created)
      ensures current == row.current && previous == row.previous
    {
      var settled := Advance(row, FIVE_MINUTES, now);
      SettleAgrees(row, FIVE_MINUTES, log, created, now);
      StartIsPeriodStart(settled.start, now, FIVE_MINUTES);
      row := settled;
      current, previous := row.current, row.previous;
    }
  }
}
