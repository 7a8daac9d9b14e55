/** How long the thrash test can take. The retry loop has no bound of its own; these
    lemmas charge every retry to somebody else's success, which bounds the whole run. */
module ThrashBounds {
  import opened Sums
  import opened VersionedStore
  import opened Thrash

  /** A read is answered by the store itself, not by an out-of-date replica. */
  predicate FreshStep(p: Plan, w: World, a: Action)
    requires Enabled(p, w, a)
  {
    a.Read? ==> a.seen == GetData(w.store, p.keys[w.threads[a.t].k])
  }

  function Staleness(p: Plan, w: World, a: Action): nat
    requires Enabled(p, w, a)
  {
    if FreshStep(p, w, a) then 0 else 1
  }

  /** The reads of the run that are answered by an out-of-date replica. */
  function StaleReads(p: Plan, w: World, acts: seq<Action>): nat
    requires ValidRun(p, w, acts)
    decreases |acts|
  {
    if acts == [] then 0
    else Staleness(p, w, acts[0]) + StaleReads(p, Apply(p, w, acts[0]), acts[1..])
  }

  function Requests(acts: seq<Action>): nat {
    if acts == [] then 0 else (if acts[0].Tick? then 0 else 1) + Requests(acts[1..])
  }

  function TickCount(acts: seq<Action>): nat {
    if acts == [] then 0 else (if acts[0].Tick? then 1 else 0) + TickCount(acts[1..])
  }

  /** Every action is a request or the passing of time. */
  lemma {:induction false} RequestsAndTicks(acts: seq<Action>)
    ensures Requests(acts) + TickCount(acts) == |acts|
    ensures forall i :: 0 <= i < |acts| && acts[i].Tick? ==> 0 < TickCount(acts)
  {
    if acts != [] {
      RequestsAndTicks(acts[1..]);
      assert forall i :: 1 <= i < |acts| ==> acts[i] == acts[1..][i - 1];
    }
  }

  /** The writes of the run that are refused. */
  function Contentions(p: Plan, w: World, acts: seq<Action>): nat
    requires ValidRun(p, w, acts)
    decreases |acts|
  {
    if acts == [] then 0
    else (if acts[0].Write? && !Taken(p, w, acts[0].t) then 1 else 0)
         + Contentions(p, Apply(p, w, acts[0]), acts[1..])
  }

  // ---------- potentials ----------

  /** Thread `t` holds a token that its write would be refused for. */
  predicate Stale(p: Plan, w: World, t: nat)
    requires t < |w.threads|
  {
    Busy(p, w.threads[t]) && w.threads[t].phase.Writing? && !Taken(p, w, t)
  }

  /** Increments the thread still has to make. */
  function Left(p: Plan, th: Thread): int {
    p.n * |p.keys| - (th.i * |p.keys| + th.k)
  }

  function LeftByAll(p: Plan, w: World): int {
    Sum(seq(|w.threads|, t requires 0 <= t < |w.threads| => Left(p, w.threads[t])))
  }

  function Debt(p: Plan, w: World, t: nat): int
    requires t < |w.threads|
  {
    if w.threads[t].phase.Reading? then 1 else if Stale(p, w, t) then 2 else 0
  }

  function Debts(p: Plan, w: World): seq<int> {
    seq(|w.threads|, t requires 0 <= t < |w.threads| => Debt(p, w, t))
  }

  function Stales(p: Plan, w: World): seq<int> {
    seq(|w.threads|, t requires 0 <= t < |w.threads| => if Stale(p, w, t) then 1 else 0)
  }

  /** Bounds the requests still to come. */
  function Fuel(p: Plan, w: World): int {
    2 * |w.threads| * LeftByAll(p, w) + Sum(Debts(p, w))
  }

  /** Bounds the refusals still to come. */
  function Grudge(p: Plan, w: World): int {
    (|w.threads| - 1) * LeftByAll(p, w) + Sum(Stales(p, w))
  }

  lemma LeftAfterAdvance(p: Plan, th: Thread)
    requires Busy(p, th)
    ensures Left(p, Advance(p, th)) == Left(p, th) - 1
  {
    assert (th.i + 1) * |p.keys| == th.i * |p.keys| + |p.keys|;
  }

  lemma LeftIsPositive(p: Plan, th: Thread)
    requires AtLoop(p, th)
    ensures 0 <= Left(p, th)
    ensures Busy(p, th) ==> 1 <= Left(p, th)
  {
    if th.i < p.n {
      assert (th.i + 1) * |p.keys| <= p.n * |p.keys|;
      assert (th.i + 1) * |p.keys| == th.i * |p.keys| + |p.keys|;
    }
  }

  lemma LeftByAllStep(p: Plan, w: World, a: Action)
    requires Inv(p, w) && Enabled(p, w, a)
    ensures LeftByAll(p, Apply(p, w, a)) ==
            LeftByAll(p, w) - if MakesProgress(p, w, a) then 1 else 0
  {
    var w' := Apply(p, w, a);
    var before := seq(|w.threads|, t requires 0 <= t < |w.threads| => Left(p, w.threads[t]));
    var after := seq(|w'.threads|, t requires 0 <= t < |w'.threads| => Left(p, w'.threads[t]));
    if a.Tick? {
      assert before == after;
    } else {
      assert after == before[a.t := Left(p, w'.threads[a.t])];
      SumUpdate(before, a.t, Left(p, w'.threads[a.t]));
      LeftAfterAdvance(p, w.threads[a.t]);
    }
  }

  lemma LeftByAllIsPositive(p: Plan, w: World)
    requires Inv(p, w)
    ensures 0 <= LeftByAll(p, w)
    ensures !Finished(p, w) ==> 1 <= LeftByAll(p, w)
  {
    var lefts := seq(|w.threads|, t requires 0 <= t < |w.threads| => Left(p, w.threads[t]));
    forall t | 0 <= t < |w.threads|
      ensures 0 <= lefts[t] && (Busy(p, w.threads[t]) ==> 1 <= lefts[t])
    {
      LeftIsPositive(p, w.threads[t]);
    }
    var zeros := seq(|w.threads|, _ => 0);
    SumConstant(zeros, 0);
    if !Finished(p, w) {
      var t :| 0 <= t < |w.threads| && Busy(p, w.threads[t]);
      SumAtMostBut(lefts, zeros, t, 0);
    } else {
      SumAtMost(lefts, zeros, 0);
    }
  }

  predicate MakesProgress(p: Plan, w: World, a: Action)
    requires Enabled(p, w, a)
  {
    a.WriteError? || (a.Write? && Taken(p, w, a.t))
  }

  /** Without progress nobody else's token is touched, and the thread itself gives up a bad
      token or comes to hold one, a good one if the answer is fresh. */
  lemma OthersAreAsBefore(p: Plan, w: World, a: Action, u: nat)
    requires Inv(p, w) && Enabled(p, w, a) && !a.Tick? && u < |w.threads|
    requires u == a.t || !MakesProgress(p, w, a)
    ensures var w' := Apply(p, w, a);
            && |w'.threads| == |w.threads|
            && (u != a.t ==> Debt(p, w', u) == Debt(p, w, u) && Stale(p, w', u) == Stale(p, w, u))
            && (u == a.t && MakesProgress(p, w, a) ==> Debt(p, w', u) <= Debt(p, w, u) + 1)
            && (u == a.t && !MakesProgress(p, w, a) ==>
                  Debt(p, w', u) <= Debt(p, w, u) - 1 + 2 * Staleness(p, w, a))
            && (u == a.t && FreshStep(p, w, a) ==> !Stale(p, w', u))
            && (u == a.t && a.Write? && !Taken(p, w, u) ==> Stale(p, w, u))
  {
  }

  /** How one request changes what the threads owe. */
  lemma DebtStep(p: Plan, w: World, a: Action)
    requires Inv(p, w) && Enabled(p, w, a)
    ensures var (w', t) := (Apply(p, w, a), |w.threads|);
            var (owed, owed') := (Sum(Debts(p, w)), Sum(Debts(p, w')));
            if a.Tick? then owed' <= owed + 2 * t
            else if MakesProgress(p, w, a) then owed' <= owed + 1 + 2 * (t - 1)
            else owed' <= owed - 1 + 2 * Staleness(p, w, a)
  {
    var (before, after) := (Debts(p, w), Debts(p, Apply(p, w, a)));
    if a.Tick? {
      SumAtMost(before, after, 2);
    } else {
      OthersAreAsBefore(p, w, a, a.t);
      if MakesProgress(p, w, a) {
        SumAtMostBut(before, after, a.t, 2);
      } else {
        forall u | 0 <= u < |before| && u != a.t
          ensures after[u] == before[u]
        {
          OthersAreAsBefore(p, w, a, u);
        }
        SumAtMostBut(before, after, a.t, 0);
      }
    }
  }

  /** How one request changes the number of threads whose write will be refused. */
  lemma StaleStep(p: Plan, w: World, a: Action)
    requires Inv(p, w) && Enabled(p, w, a)
    ensures var (w', t) := (Apply(p, w, a), |w.threads|);
            var (stale, stale') := (Sum(Stales(p, w)), Sum(Stales(p, w')));
            if a.Tick? then stale' <= stale + t
            else if MakesProgress(p, w, a) then stale' <= stale + (t - 1)
            else stale' <= stale - (if a.Write? then 1 else 0) + Staleness(p, w, a)
  {
    var (before, after) := (Stales(p, w), Stales(p, Apply(p, w, a)));
    if a.Tick? {
      SumAtMost(before, after, 1);
    } else {
      OthersAreAsBefore(p, w, a, a.t);
      if MakesProgress(p, w, a) {
        SumAtMostBut(before, after, a.t, 1);
      } else {
        forall u | 0 <= u < |before| && u != a.t
          ensures after[u] == before[u]
        {
          OthersAreAsBefore(p, w, a, u);
        }
        SumAtMostBut(before, after, a.t, 0);
      }
    }
  }

  lemma OneLess(c: int, left: int)
    ensures c * (left - 1) == c * left - c
  {
  }

  /** Every request burns fuel, refused or not; only time and stale answers add any. */
  lemma RequestBurnsFuel(p: Plan, w: World, a: Action)
    requires Inv(p, w) && Enabled(p, w, a)
    ensures var gain := if a.Tick? then 2 * |w.threads| else -1 + 2 * Staleness(p, w, a);
            Fuel(p, Apply(p, w, a)) <= Fuel(p, w) + gain
  {
    StepKeepsInv(p, w, a);
    DebtStep(p, w, a);
    LeftByAllStep(p, w, a);
    OneLess(2 * |w.threads|, LeftByAll(p, w));
  }

  /** Every refusal is charged; only time and stale answers add to what can be. */
  lemma RefusalIsCharged(p: Plan, w: World, a: Action)
    requires Inv(p, w) && Enabled(p, w, a)
    ensures var gain := if a.Tick? then |w.threads|
                        else if a.Write? && !Taken(p, w, a.t) then -1 else Staleness(p, w, a);
            Grudge(p, Apply(p, w, a)) <= Grudge(p, w) + gain
  {
    StepKeepsInv(p, w, a);
    StaleStep(p, w, a);
    LeftByAllStep(p, w, a);
    OneLess(|w.threads| - 1, LeftByAll(p, w));
  }

  /** The passing of time, charged at `c` a tick. */
  function TickCost(acts: seq<Action>, c: int): int {
    if acts == [] then 0 else (if acts[0].Tick? then c else 0) + TickCost(acts[1..], c)
  }

  lemma {:induction false} TickCostIsProduct(acts: seq<Action>, c: int)
    ensures TickCost(acts, c) == c * TickCount(acts)
  {
    if acts != [] {
      TickCostIsProduct(acts[1..], c);
      OneLess(c, TickCount(acts));
    }
  }

  lemma {:induction false} RunBurnsFuel(p: Plan, w: World, acts: seq<Action>)
    requires Inv(p, w) && ValidRun(p, w, acts)
    ensures var w' := End(p, w, acts);
            Inv(p, w') && |w'.threads| == |w.threads| &&
            Requests(acts) <= Fuel(p, w) - Fuel(p, w') + TickCost(acts, 2 * |w.threads|) + 2 * StaleReads(p, w, acts)
    decreases |acts|
  {
    if acts != [] {
      StepKeepsInv(p, w, acts[0]);
      RequestBurnsFuel(p, w, acts[0]);
      RunBurnsFuel(p, Apply(p, w, acts[0]), acts[1..]);
    }
  }

  lemma {:induction false} RunIsCharged(p: Plan, w: World, acts: seq<Action>)
    requires Inv(p, w) && ValidRun(p, w, acts)
    ensures var w' := End(p, w, acts);
            Inv(p, w') && |w'.threads| == |w.threads| &&
            Contentions(p, w, acts)
            <= Grudge(p, w) - Grudge(p, w') + TickCost(acts, |w.threads|) + StaleReads(p, w, acts)
    decreases |acts|
  {
    if acts != [] {
      StepKeepsInv(p, w, acts[0]);
      RefusalIsCharged(p, w, acts[0]);
      RunIsCharged(p, Apply(p, w, acts[0]), acts[1..]);
    }
  }

  lemma StartPotentials(p: Plan, s: Store, threads: nat)
    ensures var w := Start(p, s, threads);
            var work := threads * (p.n * |p.keys|);
            Fuel(p, w) == 2 * threads * work + threads && Grudge(p, w) == (threads - 1) * work
  {
    var w := Start(p, s, threads);
    SumConstant(seq(|w.threads|, t requires 0 <= t < |w.threads| => Left(p, w.threads[t])), p.n * |p.keys|);
    SumConstant(Debts(p, w), 1);
    SumConstant(Stales(p, w), 0);
  }

  lemma ProductGrows(c: nat, left: nat)
    ensures 0 <= c * left
    ensures 1 <= left ==> c <= c * left
  {
  }

  lemma EndPotentials(p: Plan, w: World)
    requires Inv(p, w)
    ensures |w.threads| <= Fuel(p, w)
    ensures 0 < |w.threads| ==> 0 <= Grudge(p, w)
  {
    LeftByAllIsPositive(p, w);
    SumBounds(Stales(p, w), 0, 1);
    SumBounds(Debts(p, w), 0, 2);
    ProductGrows(2 * |w.threads|, LeftByAll(p, w));
    if Finished(p, w) {
      SumConstant(Debts(p, w), 1);
    }
    if 0 < |w.threads| {
      ProductGrows(|w.threads| - 1, LeftByAll(p, w));
    }
  }

  /** Every run of `t` threads over `k` keys for `n` rounds makes at most `2*t*t*k*n`
      requests, of which at most `(t-1)*t*k*n` are refused writes, whatever the schedule.
      Each moment at which time passes (and keys may expire) can spoil one more attempt
      of each thread, and each answer from an out-of-date replica one more attempt of the
      thread that gets it. */
  lemma RetriesAreBounded(p: Plan, s: Store, threads: nat, acts: seq<Action>)
    requires s.Valid() && p.Distinct() && forall i :: 0 <= i < |p.keys| ==> !s.Live(p.keys[i])
    requires ValidRun(p, Start(p, s, threads), acts)
    ensures var (work, stale) := (threads * (p.n * |p.keys|), StaleReads(p, Start(p, s, threads), acts));
            && Requests(acts) <= 2 * threads * work + 2 * threads * TickCount(acts) + 2 * stale
            && (0 < threads ==>
                  Contentions(p, Start(p, s, threads), acts)
                  <= (threads - 1) * work + threads * TickCount(acts) + stale)
  {
    var w := Start(p, s, threads);
    StartIsGood(p, s, threads);
    StartPotentials(p, s, threads);
    RunBurnsFuel(p, w, acts);
    RunIsCharged(p, w, acts);
    EndPotentials(p, End(p, w, acts));
    TickCostIsProduct(acts, 2 * threads);
    TickCostIsProduct(acts, threads);
  }

  // ---------- who is to blame for a refusal ----------

  /** What the store has under `k` is what it had, or `cas` can never be its token again. */
  lemma RivalStep(p: Plan, w: World, a: Action, t: nat)
    requires Inv(p, w) && Enabled(p, w, a) && t < |w.threads| && (a.Tick? || a.t != t)
    requires Busy(p, w.threads[t])
    ensures var (w', k, e) := (Apply(p, w, a), p.keys[w.threads[t].k], Effect(p, w, a, w.threads[t].k));
            && |w'.threads| == |w.threads| && w'.threads[t] == w.threads[t] && w.store.now <= w'.store.now
            && (e.wins == 0 ==> SameUnder(w.store, w'.store, k))
            && (e.wins != 0 ==> forall cas: nat :: cas < w.store.nextCas ==> Spent(w'.store, k, cas))
            && (forall cas: nat :: Spent(w.store, k, cas) ==> Spent(w'.store, k, cas))
            && w.store.nextCas <= w'.store.nextCas
  {
    if a.Write? && w.threads[a.t].k != w.threads[t].k {
      assert p.keys[w.threads[a.t].k] != p.keys[w.threads[t].k];
    }
  }

  predicate SameUnder(s: Store, s': Store, k: string) {
    (k in s.items <==> k in s'.items) && (k in s.items ==> s'.items[k] == s.items[k])
  }

  lemma {:induction false} RivalRun(p: Plan, w: World, acts: seq<Action>, t: nat)
    requires Inv(p, w) && ValidRun(p, w, acts) && t < |w.threads| && Busy(p, w.threads[t])
    requires forall i :: 0 <= i < |acts| ==> acts[i].Tick? || acts[i].t != t
    ensures var (w', k, wins) := (End(p, w, acts), p.keys[w.threads[t].k], Total(p, w, acts, w.threads[t].k).wins);
            && |w'.threads| == |w.threads| && w'.threads[t] == w.threads[t] && w.store.now <= w'.store.now
            && 0 <= wins
            && (wins == 0 ==> SameUnder(w.store, w'.store, k))
            && (wins != 0 ==> forall cas: nat :: cas < w.store.nextCas ==> Spent(w'.store, k, cas))
            && (forall cas: nat :: Spent(w.store, k, cas) ==> Spent(w'.store, k, cas))
    decreases |acts|
  {
    if acts != [] {
      StepKeepsInv(p, w, acts[0]);
      RivalStep(p, w, acts[0], t);
      RivalRun(p, Apply(p, w, acts[0]), acts[1..], t);
      StepBalances(p, w, acts[0], w.threads[t].k);
    }
  }

  /** A refusal needs a culprit. Whatever happens while thread `t` sits between its get and
      its set, if the set would have been taken at once it comes to be refused exactly when
      some other thread has a write of the same key taken in the meantime or the value
      read has expired by then; after a get that found nothing, exactly when some other
      thread's write of the key is taken and has not expired. */
  lemma RefusedOnlyForARivalsWin(p: Plan, w: World, acts: seq<Action>, t: nat)
    requires Inv(p, w) && ValidRun(p, w, acts) && t < |w.threads|
    requires Busy(p, w.threads[t]) && w.threads[t].phase.Writing? && Taken(p, w, t)
    requires forall i :: 0 <= i < |acts| ==> acts[i].Tick? || acts[i].t != t
    ensures t < |End(p, w, acts).threads|
    ensures var (w', k, wins) := (End(p, w, acts), p.keys[w.threads[t].k], Total(p, w, acts, w.threads[t].k).wins);
            Stale(p, w', t) <==>
              if w.threads[t].phase.cas == 0 then 0 < wins && w'.store.Live(k)
              else 0 < wins || w.store.items[k].expires <= w'.store.now
  {
    RivalRun(p, w, acts, t);
    var (th, wins) := (w.threads[t], Total(p, w, acts, w.threads[t].k).wins);
    assert wins != 0 ==> Spent(End(p, w, acts).store, p.keys[th.k], th.phase.cas);
  }
}
