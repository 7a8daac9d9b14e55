/** Event statistics by time period. A row keeps the totals of the current aligned window
    and of the one before, and moves them along only when it is next touched; the
    reference is the complete log of events, filtered by window. Times are milliseconds. */
module Windows {
  import opened Statistics

  const FIVE_SECONDS := 5000
  const FIVE_MINUTES := 300000

  datatype Event = Event(time: nat, value: nat)

  /** The totals of window number `tick`, and of the window before it. */
  datatype Window = Window(tick: nat, current: Totals, previous: Totals)

  /** Moves the window on to `now`; whatever has gone by unseen was empty. */
  function Rotate(w: Window, interval: nat, now: nat): Window
    requires 0 < interval
  {
    var tick := now / interval;
    if tick == w.tick then w
    else if tick == w.tick + 1 then Window(tick, NONE, w.current)
    else Window(tick, NONE, NONE)
  }

  function Feed(w: Window, interval: nat, e: Event): Window
    requires 0 < interval
  {
    Fed(Rotate(w, interval, e.time), e.value)
  }

  /** One more value in the current window. */
  function Fed(w: Window, value: nat): Window {
    w.(current := Add(w.current, value))
  }

  function Replay(w: Window, interval: nat, log: seq<Event>): Window
    requires 0 < interval
  {
    if log == [] then w else Feed(Replay(w, interval, log[..|log| - 1]), interval, log[|log| - 1])
  }

  function Fresh(interval: nat, now: nat): Window
    requires 0 < interval
  {
    Window(now / interval, NONE, NONE)
  }

  /** The values logged in window number `n`, in order. */
  function InWindow(log: seq<Event>, interval: nat, n: int): seq<nat>
    requires 0 < interval
  {
    if log == [] then []
    else
      var (init, last) := (log[..|log| - 1], log[|log| - 1]);
      InWindow(init, interval, n) + if last.time / interval == n then [last.value] else []
  }

  /** The events come in order of time, from `start` on and none after `now`. */
  predicate InOrder(log: seq<Event>, start: nat, now: nat) {
    && start <= now
    && (forall i :: 0 <= i < |log| ==> start <= log[i].time <= now)
    && (forall i, j :: 0 <= i < j < |log| ==> log[i].time <= log[j].time)
  }

  /** The window holds the totals of the log's events in its own period and the one before. */
  ghost predicate Tracks(w: Window, interval: nat, log: seq<Event>) {
    && 0 < interval
    && w.current == Fold(InWindow(log, interval, w.tick))
    && w.previous == Fold(InWindow(log, interval, w.tick - 1))
  }

  lemma DivMonotone(a: nat, b: nat, interval: nat)
    requires 0 < interval && a <= b
    ensures a / interval <= b / interval
  {
    DivBounds(a, interval);
    QuotientAtLeast(interval, a / interval, b);
  }

  lemma {:induction false} NothingLater(log: seq<Event>, interval: nat, now: nat, n: int)
    requires 0 < interval && (forall i :: 0 <= i < |log| ==> log[i].time <= now) && now / interval < n
    ensures InWindow(log, interval, n) == []
  {
    if log != [] {
      DivMonotone(log[|log| - 1].time, now, interval);
      NothingLater(log[..|log| - 1], interval, now, n);
    }
  }

  lemma RotateTracks(w: Window, interval: nat, log: seq<Event>, last: nat, now: nat)
    requires Tracks(w, interval, log) && (forall i :: 0 <= i < |log| ==> log[i].time <= last)
    requires w.tick == last / interval && last <= now
    ensures Tracks(Rotate(w, interval, now), interval, log) && Rotate(w, interval, now).tick == now / interval
  {
    var tick := now / interval;
    DivMonotone(last, now, interval);
    if w.tick < tick {
      NothingLater(log, interval, last, tick);
      if w.tick < tick - 1 {
        NothingLater(log, interval, last, tick - 1);
      }
    }
  }

  lemma InWindowSnoc(log: seq<Event>, e: Event, interval: nat, n: int)
    requires 0 < interval
    ensures InWindow(log + [e], interval, n) ==
            InWindow(log, interval, n) + if e.time / interval == n then [e.value] else []
  {
    assert (log + [e])[..|log + [e]| - 1] == log;
  }

  lemma FeedTracks(w: Window, interval: nat, log: seq<Event>, e: Event)
    requires Tracks(w, interval, log) && w.tick == e.time / interval
    ensures Tracks(Fed(w, e.value), interval, log + [e])
  {
    InWindowSnoc(log, e, interval, w.tick);
    InWindowSnoc(log, e, interval, w.tick - 1);
    FoldSnoc(InWindow(log, interval, w.tick), e.value);
    assert InWindow(log, interval, w.tick - 1) + [] == InWindow(log, interval, w.tick - 1);
  }

  function LastTime(log: seq<Event>, start: nat): nat {
    if log == [] then start else log[|log| - 1].time
  }

  lemma {:induction false} ReplayTracks(interval: nat, log: seq<Event>, start: nat)
    requires 0 < interval && InOrder(log, start, LastTime(log, start))
    ensures var w := Replay(Fresh(interval, start), interval, log);
            Tracks(w, interval, log) && w.tick == LastTime(log, start) / interval
  {
    if log != [] {
      var (init, e) := (log[..|log| - 1], log[|log| - 1]);
      ReplayTracks(interval, init, start);
      ReplayStep(Replay(Fresh(interval, start), interval, init), interval, init, LastTime(init, start), e);
      assert init + [e] == log;
    }
  }

  lemma ReplayStep(w: Window, interval: nat, log: seq<Event>, last: nat, e: Event)
    requires Tracks(w, interval, log) && w.tick == last / interval
    requires (forall i :: 0 <= i < |log| ==> log[i].time <= last) && last <= e.time
    ensures Tracks(Feed(w, interval, e), interval, log + [e]) && Feed(w, interval, e).tick == e.time / interval
  {
    RotateTracks(w, interval, log, last, e.time);
    FeedTracks(Rotate(w, interval, e.time), interval, log, e);
  }

  /** Whatever the events, the gaps between them and the moment of reading, the row shows
      exactly the statistics of the log's events of the current aligned period and of the
      one before it. */
  lemma LazyWindowIsExact(interval: nat, log: seq<Event>, start: nat, now: nat)
    requires 0 < interval && InOrder(log, start, now)
    ensures var n := now / interval;
            Rotate(Replay(Fresh(interval, start), interval, log), interval, now)
            == Window(n, Fold(InWindow(log, interval, n)), Fold(InWindow(log, interval, n - 1)))
  {
    ReplayTracks(interval, log, start);
    RotateTracks(Replay(Fresh(interval, start), interval, log), interval, log, LastTime(log, start), now);
  }

  /** Once two whole intervals have gone by without an event, both totals are zero. */
  lemma CountsAgeOut(interval: nat, log: seq<Event>, start: nat, last: nat, now: nat)
    requires 0 < interval && InOrder(log, start, last) && last + 2 * interval <= now
    ensures Rotate(Replay(Fresh(interval, start), interval, log), interval, now) == Window(now / interval, NONE, NONE)
  {
    TwoIntervalsLater(last, now, interval);
    LazyWindowIsExact(interval, log, start, now);
    NothingLater(log, interval, last, now / interval);
    NothingLater(log, interval, last, now / interval - 1);
  }

  lemma TwoIntervalsLater(last: nat, now: nat, interval: nat)
    requires 0 < interval && last + 2 * interval <= now
    ensures last / interval < now / interval - 1
  {
    DivMonotone(last + 2 * interval, now, interval);
    DivShift(last, interval, 2);
  }

  lemma {:induction false} DivShift(a: nat, interval: nat, k: nat)
    requires 0 < interval
    ensures (a + k * interval) / interval == a / interval + k
  {
    var b := a + k * interval;
    DivBounds(a, interval);
    DivBounds(b, interval);
    Distribute(interval, a / interval, k);
    var q := a / interval + k;
    assert interval * q <= b < interval * q + interval;
    QuotientIs(b, interval, q);
  }

  lemma QuotientIs(b: nat, interval: nat, q: nat)
    requires 0 < interval && interval * q <= b < interval * q + interval
    ensures b / interval == q
  {
    QuotientAtLeast(interval, q, b);
    DivBounds(b, interval);
    Distribute(interval, q, 1);
    CancelStrict(interval, b / interval, q + 1);
  }

  /** Where the clock stands after the jump to the next start of an interval. */
  function NextPeriodStart(now: nat, interval: nat): nat
    requires 0 < interval
  {
    now + (interval - now % interval)
  }

  /** The jump always moves forward, by at most one interval, and lands on the first moment
      of the next window: what was current is previous from then on. */
  lemma JumpStartsTheNextWindow(w: Window, interval: nat, now: nat)
    requires 0 < interval && w.tick == now / interval
    ensures var next := NextPeriodStart(now, interval);
            && now < next <= now + interval
            && next % interval == 0 && next / interval == now / interval + 1
            && Rotate(w, interval, next) == Window(w.tick + 1, NONE, w.current)
  {
    var (q, next) := (now / interval, NextPeriodStart(now, interval));
    assert now == interval * q + now % interval;
    Distribute(interval, q, 1);
    QuotientIs(next, interval, q + 1);
    assert next == interval * (next / interval) + next % interval;
  }

  // ---------- the table ----------

  datatype Period = Previous5s | Current5m | Previous5m

  /** What the reference says about one row: the logged values it is about. */
  function Reference(log: seq<Event>, period: Period, now: nat): seq<nat> {
    match period
    case Previous5s => InWindow(log, FIVE_SECONDS, now / FIVE_SECONDS - 1)
    case Current5m => InWindow(log, FIVE_MINUTES, now / FIVE_MINUTES)
    case Previous5m => InWindow(log, FIVE_MINUTES, now / FIVE_MINUTES - 1)
  }

  /** At `now`, the moment belongs to the period. */
  predicate InPeriod(time: nat, period: Period, now: nat) {
    match period
    case Previous5s => time / 5000 + 1 == now / 5000
    case Current5m => time / 300000 == now / 300000
    case Previous5m => time / 300000 + 1 == now / 300000
  }

  /** A row is about the values of just the events of its period, in their order. */
  lemma ReferenceSnoc(log: seq<Event>, e: Event, period: Period, now: nat)
    ensures Reference([], period, now) == []
    ensures Reference(log + [e], period, now)
            == Reference(log, period, now) + if InPeriod(e.time, period, now) then [e.value] else []
  {
    match period
    case Previous5s => InWindowSnoc(log, e, FIVE_SECONDS, now / FIVE_SECONDS - 1);
    case Current5m => InWindowSnoc(log, e, FIVE_MINUTES, now / FIVE_MINUTES);
    case Previous5m => InWindowSnoc(log, e, FIVE_MINUTES, now / FIVE_MINUTES - 1);
  }

  lemma CountSnoc(log: seq<Event>, e: Event, period: Period, now: nat)
    ensures Count([], period, now) == 0
    ensures Count(log + [e], period, now) == Count(log, period, now) + if InPeriod(e.time, period, now) then 1 else 0
  {
    ReferenceSnoc(log, e, period, now);
    FoldMarks(Reference(log, period, now));
    FoldMarks(Reference(log + [e], period, now));
  }

  function Count(log: seq<Event>, period: Period, now: nat): nat {
    Fold(Reference(log, period, now)).count
  }

  lemma OneEvent(e: Event, period: Period, now: nat)
    ensures Count([e], period, now) ==
            match period
            case Previous5s => if now / FIVE_SECONDS == e.time / FIVE_SECONDS + 1 then 1 else 0
            case Current5m => if now / FIVE_MINUTES == e.time / FIVE_MINUTES then 1 else 0
            case Previous5m => if now / FIVE_MINUTES == e.time / FIVE_MINUTES + 1 then 1 else 0
  {
    FoldMarks(Reference([e], period, now));
    assert [] + [e] == [e];
    InWindowSnoc([], e, FIVE_SECONDS, now / FIVE_SECONDS - 1);
    InWindowSnoc([], e, FIVE_MINUTES, now / FIVE_MINUTES);
    InWindowSnoc([], e, FIVE_MINUTES, now / FIVE_MINUTES - 1);
  }

  /** Two events: each is counted as if it were alone. */
  lemma TwoEvents(d: Event, e: Event, period: Period, now: nat)
    ensures Count([d, e], period, now) == Count([d], period, now) + Count([e], period, now)
  {
    var interval := if period == Previous5s then FIVE_SECONDS else FIVE_MINUTES;
    var n := if period == Current5m then now / interval else now / interval - 1;
    assert [d, e] == [d] + [e];
    InWindowJoin([d], e, interval, n);
  }

  lemma InWindowJoin(log: seq<Event>, e: Event, interval: nat, n: int)
    requires 0 < interval
    ensures Fold(InWindow(log + [e], interval, n)).count
            == Fold(InWindow(log, interval, n)).count + Fold(InWindow([e], interval, n)).count
  {
    InWindowSnoc(log, e, interval, n);
    InWindowSnoc([], e, interval, n);
    assert [] + [e] == [e];
    FoldMarks(InWindow(log + [e], interval, n));
    FoldMarks(InWindow(log, interval, n));
    FoldMarks(InWindow([e], interval, n));
  }

  /** What CounterTimePeriods asserts before its first increment. */
  predicate NothingShows(t: nat) {
    Count([], Previous5s, t) == 0 && Count([], Current5m, t) == 0 && Count([], Previous5m, t) == 0
  }

  lemma NoIncrement(t: nat)
    ensures NothingShows(t)
  {
  }

  /** What it asserts up to its second increment, having made one at `t`. */
  predicate FirstIncrementShows(t: nat) {
    var log := [Event(t, 1)];
    && Count(log, Previous5s, t) == 0 && Count(log, Current5m, t) == 1 && Count(log, Previous5m, t) == 0
    && Count(log, Previous5s, t + 5000) == 1 && Count(log, Current5m, t + 5000) == 1
    && Count(log, Previous5m, t + 5000) == 0
    && Count(log, Previous5s, t + 10000) == 0 && Count(log, Current5m, t + 10000) == 1
    && Count(log, Previous5m, t + 10000) == 0
    && Count(log, Previous5s, t + 310000) == 0 && Count(log, Current5m, t + 310000) == 0
    && Count(log, Previous5m, t + 310000) == 1
  }

  /** What it asserts ten seconds after the second. */
  predicate SecondIncrementIsGone(t: nat) {
    Count([Event(t, 1), Event(t + 310000, 1)], Previous5s, t + 320000) == 0
  }

  lemma FirstIncrement(t: nat)
    ensures FirstIncrementShows(t) <==> t % FIVE_MINUTES < 290000
  {
    forall now, period {
      OneEvent(Event(t, 1), period, now);
    }
  }

  lemma SecondIncrement(t: nat)
    ensures SecondIncrementIsGone(t)
  {
    TwoEvents(Event(t, 1), Event(t + 310000, 1), Previous5s, t + 320000);
    OneEvent(Event(t, 1), Previous5s, t + 320000);
    OneEvent(Event(t + 310000, 1), Previous5s, t + 320000);
  }

  /** The increments of CounterTimePeriods followed through all that it asserts about them:
      nothing before the first, then that, then the second. The windows are aligned to the
      clock, not to the increments, so the assertions all hold exactly when the test starts
      in the first 4m50s of a five minute period. */
  lemma CounterTimePeriodsVerdict(t: nat)
    ensures NothingShows(t) && FirstIncrementShows(t) && SecondIncrementIsGone(t) <==> t % FIVE_MINUTES < 290000
  {
    NoIncrement(t);
    FirstIncrement(t);
    SecondIncrement(t);
  }

  /** What the ageing test asserts in the first ten seconds after its increment. */
  predicate SampleShows(t: nat) {
    var log := [Event(t, 1)];
    && Count(log, Previous5s, t) == 0 && Count(log, Current5m, t) == 1 && Count(log, Previous5m, t) == 0
    && Count(log, Previous5s, t + 5000) == 1 && Count(log, Previous5s, t + 10000) == 0
  }

  /** And 5m5s and 10m5s after it. */
  predicate SampleAges(t: nat) {
    var log := [Event(t, 1)];
    && Count(log, Previous5s, t + 305000) == 0 && Count(log, Current5m, t + 305000) == 0
    && Count(log, Previous5m, t + 305000) == 1
    && Count(log, Previous5s, t + 605000) == 0 && Count(log, Current5m, t + 605000) == 0
    && Count(log, Previous5m, t + 605000) == 0
  }

  lemma SampleShown(t: nat)
    ensures SampleShows(t)
  {
    forall now, period {
      OneEvent(Event(t, 1), period, now);
    }
  }

  lemma SampleAged(t: nat)
    ensures SampleAges(t) <==> t % FIVE_MINUTES < 295000
  {
    forall now, period {
      OneEvent(Event(t, 1), period, now);
    }
  }

  /** The ageing test's assertions hold exactly when it starts in the first 4m55s of a
      period. */
  lemma CountsAgeOutVerdict(t: nat)
    ensures SampleShows(t) && SampleAges(t) <==> t % FIVE_MINUTES < 295000
  {
    SampleShown(t);
    SampleAged(t);
  }

  function Row(log: seq<Event>, period: Period, now: nat): Totals {
    Fold(Reference(log, period, now))
  }

  lemma RowOfTwo(d: Event, e: Event, period: Period, now: nat)
    ensures Row([d, e], period, now)
            == Fold((if InPeriod(d.time, period, now) then [d.value] else [])
                    + if InPeriod(e.time, period, now) then [e.value] else [])
  {
    assert [d] == [] + [d] && [d, e] == [d] + [e];
    ReferenceSnoc([], d, period, now);
    ReferenceSnoc([d], e, period, now);
    assert [] + (if InPeriod(d.time, period, now) then [d.value] else [])
        == if InPeriod(d.time, period, now) then [d.value] else [];
  }

  lemma RowFigures()
    ensures Fold([100] + [200]) == Totals(2, 300, 50000, 200, 100)
    ensures Fold([100] + []) == Totals(1, 100, 10000, 100, 100) && Fold([] + [200]) == Totals(1, 200, 40000, 200, 200)
    ensures Fold([] + []) == NONE
  {
    assert ([100] + [200])[..1] == [100] && [100][..0] == [];
    assert Fold([100]) == Add(Fold([]), 100);
    assert [100] + [] == [100];
    assert [] + [200] == [200] && [200][..0] == [];
  }

  /** What StringBasedEventStats asserts of the rows of its first string five seconds on,
      with 100 given at `t` and 200 now. */
  predicate StringRowsShow(t: nat) {
    var (now, log) := (t + 5000, [Event(t, 100), Event(t + 5000, 200)]);
    var (current, seconds) := (Row(log, Current5m, now), Row(log, Previous5s, now));
    && current.count == 2 && current.Mean() == 150 && current.Variance() == 2500
    && current.lwm == 100 && current.hwm == 200
    && seconds.count == 1 && seconds.Mean() == 100 && seconds.Variance() == 0
    && seconds.lwm == 100 && seconds.hwm == 100
    && Row(log, Previous5m, now).count == 0
  }

  /** Those figures hold exactly when the test starts in the first 4m55s of a period. */
  lemma StringRowsVerdict(t: nat)
    ensures StringRowsShow(t) <==> t % FIVE_MINUTES < 295000
  {
    var (d, e, now) := (Event(t, 100), Event(t + 5000, 200), t + 5000);
    RowFigures();
    RowOfTwo(d, e, Current5m, now);
    RowOfTwo(d, e, Previous5s, now);
    RowOfTwo(d, e, Previous5m, now);
  }

  /** Ten minutes later everything is zero again, whenever the test started. */
  lemma StringRowsAge(t: nat, period: Period)
    ensures Row([Event(t, 100), Event(t + 5000, 200)], period, t + 605000) == NONE
  {
    RowFigures();
    RowOfTwo(Event(t, 100), Event(t + 5000, 200), period, t + 605000);
  }

  method TurnTo(w: Window, interval: nat, now: nat) returns (turned: Window)
    requires 0 < interval
    ensures turned == Rotate(w, interval, now)
  {
    turned := w;
    if now / interval != w.tick {
      var moved := now / interval == w.tick + 1;
      turned := Window(now / interval, NONE, if moved then w.current else NONE);
    }
  }

  /** The two windows stand for the log at `clock`. */
  ghost predicate Stands(seconds: Window, minutes: Window, log: seq<Event>, created: nat, clock: nat) {
    && InOrder(log, created, clock)
    && seconds.tick == clock / FIVE_SECONDS && Tracks(seconds, FIVE_SECONDS, log)
    && minutes.tick == clock / FIVE_MINUTES && Tracks(minutes, FIVE_MINUTES, log)
  }

  lemma OrderedSnoc(log: seq<Event>, created: nat, e: Event)
    requires InOrder(log, created, e.time)
    ensures InOrder(log + [e], created, e.time)
  {
  }

  lemma BothFeed(seconds: Window, minutes: Window, log: seq<Event>, created: nat, e: Event)
    requires Stands(seconds, minutes, log, created, e.time)
    ensures Stands(Fed(seconds, e.value), Fed(minutes, e.value), log + [e], created, e.time)
  {
    OrderedSnoc(log, created, e);
    FeedTracks(seconds, FIVE_SECONDS, log, e);
    FeedTracks(minutes, FIVE_MINUTES, log, e);
  }

  lemma BothRotate(seconds: Window, minutes: Window, log: seq<Event>, created: nat, clock: nat, now: nat)
    requires Stands(seconds, minutes, log, created, clock) && clock <= now
    ensures Stands(Rotate(seconds, FIVE_SECONDS, now), Rotate(minutes, FIVE_MINUTES, now), log, created, now)
  {
    RotateTracks(seconds, FIVE_SECONDS, log, clock, now);
    RotateTracks(minutes, FIVE_MINUTES, log, clock, now);
  }

  /** A table of event statistics with its three rows. */
  class EventTable {
    var seconds: Window
    var minutes: Window
    ghost var log: seq<Event>
    ghost const created: nat
    ghost var clock: nat

    ghost predicate Valid()
      reads this
    {
      Stands(seconds, minutes, log, created, clock)
    }

    constructor (now: nat)
      ensures Valid() && log == [] && clock == now
    {
      seconds, minutes := Fresh(FIVE_SECONDS, now), Fresh(FIVE_MINUTES, now);
      log, created, clock := [], now, now;
    }

    /** Brings both windows up to the present. */
    method Refresh(now: nat)
      requires Valid() && clock <= now
      modifies this
      ensures Valid() && clock == now && log == old(log)
    {
      BothRotate(seconds, minutes, log, created, clock, now);
      seconds := TurnTo(seconds, FIVE_SECONDS, now);
      minutes := TurnTo(minutes, FIVE_MINUTES, now);
      clock := now;
    }

    /** Puts the value in the windows of the present. */
    method Feed(value: nat)
      requires Valid()
      modifies this
      ensures Valid() && clock == old(clock) && log == old(log) + [Event(clock, value)]
    {
      var (s, m) := (Fed(seconds, value), Fed(minutes, value));
      ghost var more := log + [Event(clock, value)];
      BothFeed(seconds, minutes, log, created, Event(clock, value));
      assert Stands(s, m, more, created, clock);
      seconds, minutes, log := s, m, more;
    }

    method Accumulate(value: nat, now: nat)
      requires Valid() && clock <= now
      modifies this
      ensures Valid() && clock == now && log == old(log) + [Event(now, value)]
    {
      Refresh(now);
      Feed(value);
    }

    /** A row shows the statistics of the logged events of its period. */
    method Get(period: Period, now: nat) returns (row: Totals)
      requires Valid() && clock <= now
      modifies this
      ensures Valid() && clock == now && log == old(log)
      ensures row == Fold(Reference(log, period, now))
      ensures 0 < row.count ==> row.lwm <= row.Mean() <= row.hwm && 0 <= row.Variance()
    {
      SaneTotals(Reference(log, period, now));
      Refresh(now);
      match period
      case Previous5s => row := seconds.previous;
      case Current5m => row := minutes.current;
      case Previous5m => row := minutes.previous;
    }
  }
}
