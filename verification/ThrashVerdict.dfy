/** What the thrash test's last loop finds, how high the counters go, and whose increments
    they are, over any run of the threads. */
module ThrashVerdict {
  import opened Decimal
  import opened Sums
  import opened VersionedStore
  import opened Thrash
  import opened ThrashBounds

  // ---------- lifetimes ----------

  /** Keys of a test that began at `born`: either never incremented and as old as the test,
      or rewritten since with the longer lifetime. */
  ghost predicate Kept(p: Plan, s: Store, born: nat) {
    forall j :: 0 <= j < |p.keys| ==>
      var k := p.keys[j];
      && k in s.items
      && (|| (Atoi(s.items[k].data) == 0 && s.items[k].expires == born + SETUP_TTL)
          || (0 < Atoi(s.items[k].data) && born + INCREMENT_TTL <= s.items[k].expires))
  }

  lemma StepKeeps(p: Plan, w: World, a: Action, born: nat)
    requires Inv(p, w) && Enabled(p, w, a) && Kept(p, w.store, born)
    requires born <= w.store.now && Apply(p, w, a).store.now < born + SETUP_TTL
    ensures Kept(p, Apply(p, w, a).store, born) && w.store.now <= Apply(p, w, a).store.now
    ensures forall j :: 0 <= j < |p.keys| ==> Effect(p, w, a, j).expired == 0
  {
    if a.Write? {
      AtoiOfPrinted(w.threads[a.t].phase.value);
    }
  }

  lemma {:induction false} TimeOnlyPasses(p: Plan, w: World, acts: seq<Action>)
    requires ValidRun(p, w, acts)
    ensures w.store.now <= End(p, w, acts).store.now
    decreases |acts|
  {
    if acts != [] {
      TimeOnlyPasses(p, Apply(p, w, acts[0]), acts[1..]);
    }
  }

  lemma {:induction false} ShortRunKeeps(p: Plan, w: World, acts: seq<Action>, born: nat)
    requires Inv(p, w) && ValidRun(p, w, acts) && Kept(p, w.store, born)
    requires born <= w.store.now && End(p, w, acts).store.now < born + SETUP_TTL
    ensures Kept(p, End(p, w, acts).store, born)
    ensures forall j :: 0 <= j < |p.keys| ==> Total(p, w, acts, j).expired == 0
    decreases |acts|
  {
    if acts != [] {
      TimeOnlyPasses(p, Apply(p, w, acts[0]), acts[1..]);
      StepKeepsInv(p, w, acts[0]);
      StepKeeps(p, w, acts[0], born);
      ShortRunKeeps(p, Apply(p, w, acts[0]), acts[1..], born);
    }
  }

  lemma StartIsKept(p: Plan, s: Store, threads: nat)
    requires s.Valid() && p.Distinct() && forall i :: 0 <= i < |p.keys| ==> !s.Live(p.keys[i])
    ensures Kept(p, Start(p, s, threads).store, s.now) && Start(p, s, threads).store.now == s.now
  {
    SetupStores(s, p.keys);
    AtoiOfPrinted(0);
    assert PrintInt(0) == "0";
  }

  /** The sets that are answered with ERROR. */
  function Errors(acts: seq<Action>): nat {
    if acts == [] then 0 else (if acts[0].WriteError? then 1 else 0) + Errors(acts[1..])
  }

  /** The sets asked for, whatever the answer. */
  function Sets(acts: seq<Action>): nat {
    if acts == [] then 0 else (if acts[0].Write? || acts[0].WriteError? then 1 else 0) + Sets(acts[1..])
  }

  lemma ErrorStep(p: Plan, w: World, a: Action, j: nat)
    requires Enabled(p, w, a) && j < |p.keys|
    ensures 0 <= Effect(p, w, a, j).errors <= if a.WriteError? then 1 else 0
    ensures a.WriteError? ==> w.threads[a.t].k < |p.keys| && Effect(p, w, a, w.threads[a.t].k).errors == 1
  {
  }

  /** Each of them is an increment given up on some key. */
  lemma {:induction false} ErrorsOnKey(p: Plan, w: World, acts: seq<Action>, j: nat)
    requires ValidRun(p, w, acts) && j < |p.keys|
    ensures 0 <= Total(p, w, acts, j).errors <= Errors(acts)
    decreases |acts|
  {
    if acts != [] {
      var (a, rest) := (acts[0], acts[1..]);
      ErrorStep(p, w, a, j);
      ErrorsOnKey(p, Apply(p, w, a), rest, j);
      assert Errors(acts) == (if a.WriteError? then 1 else 0) + Errors(rest);
      assert Total(p, w, acts, j).errors == Effect(p, w, a, j).errors + Total(p, Apply(p, w, a), rest, j).errors;
    }
  }

  lemma {:induction false} KeyWithErrors(p: Plan, w: World, acts: seq<Action>) returns (j: nat)
    requires ValidRun(p, w, acts) && 0 < Errors(acts)
    ensures j < |p.keys| && 0 < Total(p, w, acts, j).errors
    decreases |acts|
  {
    var w' := Apply(p, w, acts[0]);
    if acts[0].WriteError? {
      j := w.threads[acts[0].t].k;
      ErrorsOnKey(p, w', acts[1..], j);
    } else {
      j := KeyWithErrors(p, w', acts[1..]);
    }
  }

  /** What the test's last loop expects of key number `j`. */
  predicate Passes(p: Plan, s: Store, threads: nat, j: nat)
    requires j < |p.keys|
  {
    var a := GetData(s, p.keys[j]);
    a.status == OK && Atoi(a.data) == p.n * threads
  }

  /** The test's verdict, for any interleaving of any number of threads that takes less
      than the 60 seconds the untouched keys live: after the final sleep a key still exists
      and holds the full count exactly if there was at least one increment to make and none
      was given up on an ERROR. With none to make, the keys have expired by then. */
  lemma ThrashTestVerdict(p: Plan, s: Store, threads: nat, acts: seq<Action>, j: nat)
    requires s.Valid() && p.Distinct() && forall i :: 0 <= i < |p.keys| ==> !s.Live(p.keys[i])
    requires ValidRun(p, Start(p, s, threads), acts)
    requires Finished(p, End(p, Start(p, s, threads), acts))
    requires End(p, Start(p, s, threads), acts).store.now < s.now + 60
    requires j < |p.keys|
    ensures var (w, e) := (End(p, Start(p, s, threads), acts), Total(p, Start(p, s, threads), acts, j));
            Passes(p, Elapse(w.store, 61), threads, j) <==> 0 < p.n * threads && e.errors == 0
  {
    var w := Start(p, s, threads);
    StartIsKept(p, s, threads);
    StartIsGood(p, s, threads);
    NoUpdateLost(p, s, threads, acts, j);
    ShortRunKeeps(p, w, acts, s.now);
    TimeOnlyPasses(p, w, acts);
    RunBalances(p, w, acts, j);
    assert p.n * threads == threads * p.n;
  }

  // ---------- runs of any length ----------

  /** When the key will expire: the lifetime of its last taken write, or else `from`. */
  function LastExpiry(p: Plan, w: World, acts: seq<Action>, j: nat, from: nat): nat
    requires ValidRun(p, w, acts) && j < |p.keys|
    decreases |acts|
  {
    if acts == [] then from
    else
      LastExpiry(p, Apply(p, w, acts[0]), acts[1..], j,
                 if Effect(p, w, acts[0], j).wins == 1 then w.store.now + 300 else from)
  }

  /** The key's item, live or not, is of that expiry. */
  ghost predicate ExpiresAt(s: Store, k: string, at: nat) {
    k in s.items && s.items[k].expires == at
  }

  lemma ExpiryStep(p: Plan, w: World, a: Action, j: nat, from: nat)
    requires Inv(p, w) && Enabled(p, w, a) && j < |p.keys| && ExpiresAt(w.store, p.keys[j], from)
    ensures ExpiresAt(Apply(p, w, a).store, p.keys[j],
                      if Effect(p, w, a, j).wins == 1 then w.store.now + INCREMENT_TTL else from)
  {
    if a.Write? && w.threads[a.t].k != j {
      assert p.keys[w.threads[a.t].k] != p.keys[j];
    }
  }

  lemma {:induction false} LastExpiryHolds(p: Plan, w: World, acts: seq<Action>, j: nat, from: nat)
    requires Inv(p, w) && ValidRun(p, w, acts) && j < |p.keys| && ExpiresAt(w.store, p.keys[j], from)
    ensures ExpiresAt(End(p, w, acts).store, p.keys[j], LastExpiry(p, w, acts, j, from))
    decreases |acts|
  {
    if acts != [] {
      StepKeepsInv(p, w, acts[0]);
      ExpiryStep(p, w, acts[0], j, from);
      LastExpiryHolds(p, Apply(p, w, acts[0]), acts[1..], j,
                      if Effect(p, w, acts[0], j).wins == 1 then w.store.now + INCREMENT_TTL else from);
    }
  }

  /** The verdict however long the run takes: after the final sleep a key passes exactly if
      no increment of it was given up on an ERROR, no count of it expired on the way, and
      its last taken write (or, without one, its setup) lives past the sleep. */
  lemma VerdictOfAnyLength(p: Plan, s: Store, threads: nat, acts: seq<Action>, j: nat)
    requires s.Valid() && p.Distinct() && forall i :: 0 <= i < |p.keys| ==> !s.Live(p.keys[i])
    requires ValidRun(p, Start(p, s, threads), acts)
    requires Finished(p, End(p, Start(p, s, threads), acts)) && j < |p.keys|
    ensures var (w0, w) := (Start(p, s, threads), End(p, Start(p, s, threads), acts));
            var e := Total(p, w0, acts, j);
            Passes(p, Elapse(w.store, 61), threads, j) <==>
              && e.errors == 0 && e.expired == 0
              && w.store.now + 61 < LastExpiry(p, w0, acts, j, s.now + 60)
  {
    var w0 := Start(p, s, threads);
    SetupStores(s, p.keys);
    StartIsGood(p, s, threads);
    NoUpdateLost(p, s, threads, acts, j);
    RunBalances(p, w0, acts, j);
    LastExpiryHolds(p, w0, acts, j, s.now + SETUP_TTL);
    assert p.n * threads == threads * p.n;
  }

  // ---------- counters stay small ----------

  /** No counter about to be written exceeds the increments made so far plus this one. */
  ghost predicate Modest(p: Plan, w: World) {
    && (forall j :: 0 <= j < |p.keys| ==> Value(w.store, p.keys[j]) <= DoneByAll(w, j))
    && (forall t :: 0 <= t < |w.threads| && w.threads[t].phase.Writing? && w.threads[t].k < |p.keys| ==>
          w.threads[t].phase.value <= DoneByAll(w, w.threads[t].k) + 1)
  }

  /** The answer shows a count no higher than the increments made so far. */
  predicate PlausibleStep(p: Plan, w: World, a: Action)
    requires Enabled(p, w, a)
  {
    a.Read? ==> Atoi(a.seen.data) <= DoneByAll(w, w.threads[a.t].k)
  }

  predicate Plausible(p: Plan, w: World, acts: seq<Action>)
    requires ValidRun(p, w, acts)
    decreases |acts|
  {
    acts == [] || (PlausibleStep(p, w, acts[0]) && Plausible(p, Apply(p, w, acts[0]), acts[1..]))
  }

  lemma StepStaysModest(p: Plan, w: World, a: Action)
    requires Inv(p, w) && Modest(p, w) && Enabled(p, w, a) && PlausibleStep(p, w, a)
    ensures Modest(p, Apply(p, w, a))
  {
    forall j | 0 <= j < |p.keys|
      ensures Value(Apply(p, w, a).store, p.keys[j]) <= DoneByAll(Apply(p, w, a), j)
      ensures DoneByAll(w, j) <= DoneByAll(Apply(p, w, a), j)
    {
      StepBalances(p, w, a, j);
    }
  }

  lemma {:induction false} RunStaysModest(p: Plan, w: World, acts: seq<Action>)
    requires Inv(p, w) && Modest(p, w) && ValidRun(p, w, acts) && Plausible(p, w, acts)
    ensures Modest(p, End(p, w, acts)) && Inv(p, End(p, w, acts))
    ensures |End(p, w, acts).threads| == |w.threads|
    decreases |acts|
  {
    if acts != [] {
      StepKeepsInv(p, w, acts[0]);
      StepStaysModest(p, w, acts[0]);
      RunStaysModest(p, Apply(p, w, acts[0]), acts[1..]);
    }
  }

  /** What the store itself answers is plausible. */
  lemma {:induction false} FreshIsPlausible(p: Plan, w: World, acts: seq<Action>)
    requires Inv(p, w) && Modest(p, w) && ValidRun(p, w, acts) && StaleReads(p, w, acts) == 0
    ensures Plausible(p, w, acts)
    decreases |acts|
  {
    if acts != [] {
      StepKeepsInv(p, w, acts[0]);
      StepStaysModest(p, w, acts[0]);
      FreshIsPlausible(p, Apply(p, w, acts[0]), acts[1..]);
    }
  }

  /** A thread that still has an increment to make leaves room for one. */
  lemma OneMoreFits(p: Plan, w: World, t: nat)
    requires Inv(p, w) && t < |w.threads| && Busy(p, w.threads[t])
    ensures DoneByAll(w, w.threads[t].k) + 1 <= |w.threads| * p.n
  {
    var j := w.threads[t].k;
    var all := seq(|w.threads|, u requires 0 <= u < |w.threads| => Done(w.threads[u], j));
    var most := all[t := p.n];
    SumUpdate(all, t, p.n);
    assert forall u :: 0 <= u < |most| ==> 0 <= most[u] <= p.n;
    SumBounds(most, 0, p.n);
  }

  /** Whatever the schedule, no thread ever computes a counter beyond `threads * n`, so a C
      `int` holds every one of them as long as it holds that product. */
  lemma CountersFit(p: Plan, s: Store, threads: nat, acts: seq<Action>, t: nat)
    requires s.Valid() && p.Distinct() && forall i :: 0 <= i < |p.keys| ==> !s.Live(p.keys[i])
    requires ValidRun(p, Start(p, s, threads), acts) && Plausible(p, Start(p, s, threads), acts)
    requires t < threads == |End(p, Start(p, s, threads), acts).threads|
    requires End(p, Start(p, s, threads), acts).threads[t].phase.Writing?
    ensures End(p, Start(p, s, threads), acts).threads[t].phase.value <= threads * p.n
  {
    var w := End(p, Start(p, s, threads), acts);
    StartIsGood(p, s, threads);
    RunStaysModest(p, Start(p, s, threads), acts);
    OneMoreFits(p, w, t);
  }

  // ---------- whose increments they are ----------

  /** What one request of thread `t` does to key number `j`. */
  function EffectOf(p: Plan, w: World, a: Action, t: nat, j: nat): Tally
    requires Enabled(p, w, a) && j < |p.keys|
  {
    if a.Tick? || a.t != t then Tally(0, 0, 0) else Effect(p, w, a, j)
  }

  /** What thread `t` did to key number `j`. */
  function TallyOf(p: Plan, w: World, acts: seq<Action>, t: nat, j: nat): Tally
    requires ValidRun(p, w, acts) && j < |p.keys|
    decreases |acts|
  {
    if acts == [] then Tally(0, 0, 0)
    else EffectOf(p, w, acts[0], t, j).Plus(TallyOf(p, Apply(p, w, acts[0]), acts[1..], t, j))
  }

  lemma PositionStep(p: Plan, w: World, a: Action, t: nat, j: nat)
    requires Enabled(p, w, a) && t < |w.threads| && j < |p.keys|
    ensures |Apply(p, w, a).threads| == |w.threads|
    ensures var e := EffectOf(p, w, a, t, j);
            Done(Apply(p, w, a).threads[t], j) == Done(w.threads[t], j) + e.wins + e.errors
  {
  }

  /** A thread's position tells what it did: each increment it is past was either taken or
      given up on an ERROR, and none twice. */
  lemma {:induction false} PositionTells(p: Plan, w: World, acts: seq<Action>, t: nat, j: nat)
    requires ValidRun(p, w, acts) && t < |w.threads| && j < |p.keys|
    ensures t < |End(p, w, acts).threads|
    ensures var e := TallyOf(p, w, acts, t, j);
            Done(End(p, w, acts).threads[t], j) == Done(w.threads[t], j) + e.wins + e.errors
    decreases |acts|
  {
    if acts != [] {
      PositionStep(p, w, acts[0], t, j);
      PositionTells(p, Apply(p, w, acts[0]), acts[1..], t, j);
    }
  }

  lemma OwnEffect(p: Plan, w: World, a: Action, t: nat, j: nat)
    requires Enabled(p, w, a) && j < |p.keys|
    ensures 0 <= EffectOf(p, w, a, t, j).wins <= Effect(p, w, a, j).wins
    ensures 0 <= EffectOf(p, w, a, t, j).errors <= Effect(p, w, a, j).errors
  {
  }

  /** And it is part of the key's count, as its errors are of the key's errors. */
  lemma {:induction false} OwnWinsCount(p: Plan, w: World, acts: seq<Action>, t: nat, j: nat)
    requires ValidRun(p, w, acts) && j < |p.keys|
    ensures 0 <= TallyOf(p, w, acts, t, j).wins <= Total(p, w, acts, j).wins
    ensures 0 <= TallyOf(p, w, acts, t, j).errors <= Total(p, w, acts, j).errors
    decreases |acts|
  {
    if acts != [] {
      var (a, w', later) := (acts[0], Apply(p, w, acts[0]), acts[1..]);
      OwnEffect(p, w, a, t, j);
      OwnWinsCount(p, w', later, t, j);
      assert TallyOf(p, w, acts, t, j) == EffectOf(p, w, a, t, j).Plus(TallyOf(p, w', later, t, j));
      assert Total(p, w, acts, j) == Effect(p, w, a, j).Plus(Total(p, w', later, j));
    }
  }
}
