/** The thrash test itself: the threads' loops, a scheduler that interleaves them in any
    order, the 61 second sleep and the final check of every key. Time may go by between any
    two requests, in all less than the 60 seconds the untouched keys live, and any set may
    be answered with ERROR. */
module ThrashTest {
  import opened Decimal
  import opened VersionedStore
  import opened Thrash
  import opened ThrashBounds
  import opened ThrashVerdict

  lemma {:induction false} RunSnoc(p: Plan, w: World, acts: seq<Action>, a: Action)
    requires ValidRun(p, w, acts) && Enabled(p, End(p, w, acts), a)
    ensures ValidRun(p, w, acts + [a]) && End(p, w, acts + [a]) == Apply(p, End(p, w, acts), a)
    ensures StaleReads(p, w, acts + [a]) == StaleReads(p, w, acts) + Staleness(p, End(p, w, acts), a)
    ensures Errors(acts + [a]) == Errors(acts) + if a.WriteError? then 1 else 0
    ensures Sets(acts + [a]) == Sets(acts) + if a.Write? || a.WriteError? then 1 else 0
    decreases |acts|
  {
    if acts != [] {
      assert (acts + [a])[1..] == acts[1..] + [a];
      RunSnoc(p, Apply(p, w, acts[0]), acts[1..], a);
    }
  }

  /** A get answered by the store itself is a step of the model. */
  lemma GetIsAStep(p: Plan, w: World, t: nat)
    requires Inv(p, w) && t < |w.threads| && Busy(p, w.threads[t]) && w.threads[t].phase.Reading?
    ensures var a := Read(t, GetData(w.store, p.keys[w.threads[t].k]));
            Enabled(p, w, a) && FreshStep(p, w, a)
  {
  }

  /** In a run of less than 60 seconds every get finds its key. */
  lemma EveryGetFinds(p: Plan, w: World, acts: seq<Action>, j: nat)
    requires Inv(p, w) && Kept(p, w.store, w.store.now) && ValidRun(p, w, acts) && j < |p.keys|
    requires End(p, w, acts).store.now < w.store.now + SETUP_TTL
    ensures GetData(End(p, w, acts).store, p.keys[j]).status == OK
  {
    ShortRunKeeps(p, w, acts, w.store.now);
  }

  /** How many of the first `n` sets fail. */
  function Failures(failing: nat -> bool, n: nat): nat {
    if n == 0 then 0 else Failures(failing, n - 1) + if failing(n - 1) then 1 else 0
  }

  lemma {:induction false} NoFailures(failing: nat -> bool, n: nat)
    requires forall i :: !failing(i)
    ensures Failures(failing, n) == 0
  {
    if 0 < n {
      NoFailures(failing, n - 1);
    }
  }

  /** Threads sharing one store, with the record of what they have asked of it. */
  class Harness {
    const plan: Plan
    const store: MemcachedStore
    const deadline: nat
    const failing: nat -> bool
    var threads: seq<Thread>
    var sets: nat
    var errors: nat
    ghost const start: World
    ghost var trace: seq<Action>

    ghost function Now(): World
      reads this, store
    {
      World(store.State(), threads)
    }

    /** The record is a run of the model that has led here. */
    ghost predicate Recorded(w: World)
      reads this
    {
      && Inv(plan, start) && Kept(plan, start.store, start.store.now)
      && ValidRun(plan, start, trace) && StaleReads(plan, start, trace) == 0
      && w == End(plan, start, trace) && Inv(plan, w) && |w.threads| == |start.threads|
    }

    ghost predicate Valid()
      reads this, store
    {
      && store.resolves && deadline == start.store.now + SETUP_TTL && store.now < deadline
      && Recorded(Now())
      && errors == Errors(trace) == Failures(failing, sets) && sets == Sets(trace)
    }

    /** Less time is left than `time`, or as much and less fuel than `fuel`. */
    ghost predicate Nearer(time: int, fuel: int)
      reads this, store
    {
      && 0 <= Fuel(plan, Now())
      && (deadline - store.now < time || (deadline - store.now == time && Fuel(plan, Now()) < fuel))
    }

    /** What a thread has done to a key. */
    ghost function Did(t: nat, j: nat): Tally
      requires ValidRun(plan, start, trace) && j < |plan.keys|
      reads this
    {
      TallyOf(plan, start, trace, t, j)
    }

    /** The sets that `failing` says are answered with ERROR. */
    constructor (plan: Plan, store: MemcachedStore, threads: nat, failing: nat -> bool, ghost before: Store)
      requires store.resolves && before.Valid() && plan.Distinct()
      requires forall i :: 0 <= i < |plan.keys| ==> !before.Live(plan.keys[i])
      requires store.State() == Setup(before, plan.keys)
      ensures Valid() && this.plan == plan && this.store == store && this.failing == failing
      ensures start == Now() == Start(plan, before, threads)
    {
      this.plan, this.store, this.failing := plan, store, failing;
      this.threads, sets, errors := seq(threads, _ => Thread(0, 0, Reading)), 0, 0;
      deadline := store.now + SETUP_TTL;
      start, trace := Start(plan, before, threads), [];
      StartIsGood(plan, before, threads);
      StartIsKept(plan, before, threads);
    }

    ghost method Record(a: Action, before: World)
      requires Recorded(before) && Enabled(plan, before, a) && FreshStep(plan, before, a)
      requires Now() == Apply(plan, before, a)
      modifies this`trace
      ensures Recorded(Now()) && trace == old(trace) + [a] && Now() == old(Now())
      ensures Errors(trace) == old(Errors(trace)) + if a.WriteError? then 1 else 0
      ensures Sets(trace) == old(Sets(trace)) + if a.Write? || a.WriteError? then 1 else 0
      ensures 0 <= Fuel(plan, Now()) && (!a.Tick? ==> Fuel(plan, Now()) < Fuel(plan, before))
    {
      RunSnoc(plan, start, trace, a);
      StepKeepsInv(plan, before, a);
      RequestBurnsFuel(plan, before, a);
      trace := trace + [a];
      EndPotentials(plan, Now());
    }

    /** Thread `t` gets the value of the key it is at, which is expected to be OK and is. */
    method GetData(t: nat) returns (answer: Answer)
      requires Valid() && t < |threads| && Busy(plan, threads[t]) && threads[t].phase.Reading?
      modifies this
      ensures Valid() && answer == VersionedStore.GetData(store.State(), plan.keys[old(threads[t].k)])
      ensures answer.status == OK && trace == old(trace) + [Read(t, answer)]
      ensures threads == old(threads)[t := old(threads[t]).(phase := Writing(Atoi(answer.data) + 1, answer.cas))]
      ensures Nearer(old(deadline - store.now), old(Fuel(plan, Now())))
    {
      GetIsAStep(plan, Now(), t);
      EveryGetFinds(plan, start, trace, threads[t].k);
      answer := store.Get(plan.keys[threads[t].k]);
      assert answer == VersionedStore.GetData(Now().store, plan.keys[threads[t].k]);
      threads := threads[t := threads[t].(phase := Writing(Atoi(answer.data) + 1, answer.cas))];
      Record(Read(t, answer), old(Now()));
    }

    /** Thread `t` writes back the value it has computed, under the token it holds. If this
        is a set that fails the answer is ERROR and nothing has been written. */
    method SetData(t: nat, data: string, cas: nat) returns (rc: Status)
      requires Valid() && t < |threads| && Busy(plan, threads[t])
      requires threads[t].phase.Writing? && data == PrintInt(threads[t].phase.value) && cas == threads[t].phase.cas
      modifies this, store
      ensures Valid() && sets == old(sets) + 1
      ensures rc == if failing(old(sets)) then ERROR
                    else if old(Taken(plan, Now(), t)) then OK else DATA_CONTENTION
      ensures trace == old(trace) + [if rc == ERROR then WriteError(t) else Write(t)]
      ensures threads == old(threads)[t := if rc == DATA_CONTENTION then old(threads[t]).(phase := Reading)
                                           else Advance(plan, old(threads[t]))]
      ensures Nearer(old(deadline - store.now), old(Fuel(plan, Now())))
    {
      var fails := failing(sets);
      sets := sets + 1;
      if fails {
        rc, errors := ERROR, errors + 1;
      } else {
        rc := store.Set(plan.keys[threads[t].k], data, cas, INCREMENT_TTL);
      }
      var th := threads[t];
      threads := threads[t := if rc == DATA_CONTENTION then th.(phase := Reading) else Advance(plan, th)];
      Record(if fails then WriteError(t) else Write(t), old(Now()));
    }

    /** Time goes by. */
    method Pause(d: nat)
      requires Valid() && 0 < d && store.now + d < deadline
      modifies this, store
      ensures Valid() && threads == old(threads) && trace == old(trace) + [Tick(d)]
      ensures Nearer(old(deadline - store.now), old(Fuel(plan, Now())))
    {
      store.Sleep(d);
      Record(Tick(d), old(Now()));
    }

    /** Thread `t` makes its next request. */
    method Step(t: nat)
      requires Valid() && t < |threads| && Busy(plan, threads[t])
      modifies this, store
      ensures Valid() && |threads| == old(|threads|)
      ensures forall u :: 0 <= u < |threads| && u != t ==> threads[u] == old(threads[u])
      ensures old(trace) < trace && !trace[|old(trace)|].Tick? && trace[|old(trace)|].t == t
      ensures Nearer(old(deadline - store.now), old(Fuel(plan, Now())))
    {
      if threads[t].phase.Reading? {
        var _ := GetData(t);
      } else {
        var _ := SetData(t, PrintInt(threads[t].phase.value), threads[t].phase.cas);
      }
    }

    /** The other threads make any number of requests, in any order and at any time. */
    method Others(me: nat)
      requires Valid() && me < |threads|
      modifies this, store
      ensures Valid() && |threads| == old(|threads|) && threads[me] == old(threads[me]) && old(trace) <= trace
      ensures Nearer(old(deadline - store.now), old(Fuel(plan, Now())) + 1)
    {
      EndPotentials(plan, Now());
      var more: bool := *;
      while more && exists t :: 0 <= t < |threads| && t != me && Busy(plan, threads[t])
        invariant Valid() && |threads| == old(|threads|) && threads[me] == old(threads[me]) && old(trace) <= trace
        invariant Nearer(old(deadline - store.now), old(Fuel(plan, Now())) + 1)
        decreases deadline - store.now, Fuel(plan, Now())
      {
        var d: nat := *;
        if 0 < d && store.now + d < deadline {
          Pause(d);
        } else {
          var t :| 0 <= t < |threads| && t != me && Busy(plan, threads[t]);
          Step(t);
        }
        more := *;
      }
    }

    /** One pass of the retry loop: get, add one and set, with the other threads' requests
        coming in between. */
    method Attempt(me: nat) returns (rc: Status)
      requires Valid() && me < |threads| && Busy(plan, threads[me]) && threads[me].phase.Reading?
      modifies this, store
      ensures Valid() && old(trace) < trace && |threads| == old(|threads|)
      ensures rc == OK || rc == DATA_CONTENTION || rc == ERROR
      ensures threads[me] == if rc == DATA_CONTENTION then old(threads[me]) else Advance(plan, old(threads[me]))
      ensures Nearer(old(deadline - store.now), old(Fuel(plan, Now())))
    {
      var answer := GetData(me);
      var value := Atoi(answer.data);
      value := value + 1;
      Others(me);
      rc := SetData(me, PrintInt(value), answer.cas);
    }

    /** The same once the others have gone on for a while. */
    method AttemptLater(me: nat) returns (rc: Status)
      requires Valid() && me < |threads| && Busy(plan, threads[me]) && threads[me].phase.Reading?
      modifies this, store
      ensures Valid() && old(trace) < trace && |threads| == old(|threads|)
      ensures rc == OK || rc == DATA_CONTENTION || rc == ERROR
      ensures threads[me] == if rc == DATA_CONTENTION then old(threads[me]) else Advance(plan, old(threads[me]))
      ensures Nearer(old(deadline - store.now), old(Fuel(plan, Now())))
    {
      Others(me);
      rc := Attempt(me);
    }

    /** The retry loop. It ends although nothing in it counts attempts. */
    method Increment(me: nat)
      requires Valid() && me < |threads| && Busy(plan, threads[me]) && threads[me].phase.Reading?
      modifies this, store
      ensures Valid() && old(trace) < trace && |threads| == old(|threads|)
      ensures threads[me] == Advance(plan, old(threads[me]))
    {
      var rc := AttemptLater(me);
      while rc == DATA_CONTENTION
        invariant Valid() && old(trace) < trace && |threads| == old(|threads|)
        invariant threads[me] == if rc == DATA_CONTENTION then old(threads[me]) else Advance(plan, old(threads[me]))
        invariant 0 <= Fuel(plan, Now())
        decreases deadline - store.now, Fuel(plan, Now())
      {
        rc := AttemptLater(me);
      }
    }

    /** One thread's loops over the rounds and the keys. By their end it has made every one
        of its increments of every key, but for those given up on an ERROR. */
    method ThrashThreadFn(me: nat)
      requires Valid() && me < |threads| && threads[me] == Thread(0, 0, Reading)
      modifies this, store
      ensures Valid() && old(trace) <= trace && |threads| == old(|threads|)
      ensures forall j :: 0 <= j < |plan.keys| ==>
                Did(me, j).wins + Did(me, j).errors == old(Did(me, j).wins + Did(me, j).errors) + plan.n
    {
      ghost var before := threads[me];
      forall j | 0 <= j < |plan.keys|
        ensures Done(before, j) == Done(start.threads[me], j) + Did(me, j).wins + Did(me, j).errors
      {
        PositionTells(plan, start, trace, me, j);
      }
      var i := 0;
      while i < plan.n
        invariant 0 <= i <= plan.n && Valid() && old(trace) <= trace && |threads| == old(|threads|)
        invariant threads[me] == Thread(if plan.keys == [] then 0 else i, 0, Reading)
      {
        var key := 0;
        while key < |plan.keys|
          invariant 0 <= key <= |plan.keys| && Valid() && old(trace) <= trace && |threads| == old(|threads|)
          invariant threads[me] == if plan.keys == [] then Thread(0, 0, Reading)
                                   else if key < |plan.keys| then Thread(i, key, Reading)
                                   else Thread(i + 1, 0, Reading)
        {
          Increment(me);
          key := key + 1;
        }
        i := i + 1;
      }
      forall j | 0 <= j < |plan.keys|
        ensures Done(threads[me], j) == Done(start.threads[me], j) + Did(me, j).wins + Did(me, j).errors
      {
        PositionTells(plan, start, trace, me, j);
      }
    }

    /** All the threads run to their end, the scheduler picking whose request comes next. */
    method RunToEnd()
      requires Valid()
      modifies this, store
      ensures Valid() && Finished(plan, Now()) && old(trace) <= trace
    {
      EndPotentials(plan, Now());
      while exists t :: 0 <= t < |threads| && Busy(plan, threads[t])
        invariant Valid() && old(trace) <= trace && 0 <= Fuel(plan, Now())
        decreases deadline - store.now, Fuel(plan, Now())
      {
        var d: nat := *;
        if 0 < d && store.now + d < deadline {
          Pause(d);
        } else {
          var t :| 0 <= t < |threads| && Busy(plan, threads[t]);
          Step(t);
        }
      }
    }
  }

  /** The test's first loop; every add is expected to be taken. */
  method AddKeys(store: MemcachedStore, keys: seq<string>) returns (ok: bool)
    requires store.resolves && store.State().Valid()
    requires forall i, j :: 0 <= i < j < |keys| ==> keys[i] != keys[j]
    requires forall i :: 0 <= i < |keys| ==> !store.State().Live(keys[i])
    modifies store
    ensures ok && store.State() == Setup(old(store.State()), keys)
  {
    ok := true;
    var i := 0;
    while i < |keys|
      invariant 0 <= i <= |keys| && store.State().Valid() && ok
      invariant Setup(old(store.State()), keys) == Setup(store.State(), keys[i..])
      invariant forall j :: i <= j < |keys| ==> !store.State().Live(keys[j])
    {
      assert keys[i..][0] == keys[i] && keys[i..][1..] == keys[i + 1..];
      var rc := store.Set(keys[i], "0", 0, SETUP_TTL);
      ok := ok && rc == OK;
      i := i + 1;
    }
  }

  predicate AllPass(p: Plan, s: Store, threads: nat) {
    forall j :: 0 <= j < |p.keys| ==> Passes(p, s, threads, j)
  }

  /** The test's last loop. */
  method CheckKeys(store: MemcachedStore, plan: Plan, threads: nat) returns (ok: bool)
    requires store.resolves
    ensures ok <==> AllPass(plan, store.State(), threads)
  {
    ok := true;
    for i := 0 to |plan.keys|
      invariant ok <==> forall j :: 0 <= j < i ==> Passes(plan, store.State(), threads, j)
    {
      var answer := store.Get(plan.keys[i]);
      var right := answer.status == OK && Atoi(answer.data) == plan.n * threads;
      assert right == Passes(plan, store.State(), threads, i);
      ok := ok && right;
    }
  }

  /** The run takes all the threads from the store as it was, with the keys added, to their
      end in less than 60 seconds, and leaves the store as it is 61 seconds later. */
  ghost predicate Tested(p: Plan, before: Store, threads: nat, acts: seq<Action>, after: Store) {
    var start := Start(p, before, threads);
    && ValidRun(p, start, acts) && StaleReads(p, start, acts) == 0
    && Finished(p, End(p, start, acts)) && |End(p, start, acts).threads| == threads
    && End(p, start, acts).store.now < before.now + 60
    && after == Elapse(End(p, start, acts).store, 61)
  }

  /** Over all the keys, the final check passes exactly if there was an increment to make,
      or no key, and no set was answered with ERROR. */
  lemma EveryKeyPasses(p: Plan, s: Store, threads: nat, acts: seq<Action>)
    requires s.Valid() && p.Distinct() && forall i :: 0 <= i < |p.keys| ==> !s.Live(p.keys[i])
    requires ValidRun(p, Start(p, s, threads), acts)
    requires Finished(p, End(p, Start(p, s, threads), acts))
    requires End(p, Start(p, s, threads), acts).store.now < s.now + 60
    ensures var later := Elapse(End(p, Start(p, s, threads), acts).store, 61);
            AllPass(p, later, threads) <==> Errors(acts) == 0 && (p.keys == [] || 0 < p.n * threads)
  {
    var (w, later) := (Start(p, s, threads), Elapse(End(p, Start(p, s, threads), acts).store, FINAL_SLEEP));
    forall j | 0 <= j < |p.keys|
      ensures Errors(acts) == 0 && 0 < p.n * threads ==> Passes(p, later, threads, j)
      ensures Passes(p, later, threads, j) ==> 0 < p.n * threads && Total(p, w, acts, j).errors == 0
    {
      ThrashTestVerdict(p, s, threads, acts, j);
      ErrorsOnKey(p, w, acts, j);
    }
    if 0 < Errors(acts) {
      var j := KeyWithErrors(p, w, acts);
      assert !Passes(p, later, threads, j);
    } else if p.keys != [] {
      assert Passes(p, later, threads, 0) ==> 0 < p.n * threads;
    }
  }

  /** The whole test, on any store and any distinct fresh keys, for any number of threads
      and rounds, under every schedule and whichever sets fail: the threads come to their
      end by a run of the model that begins with the adds, nothing but the final sleep
      follows it, and the final check passes exactly when every key then holds the full
      count, which is when there is an increment to make (or no key to check) and no set
      was answered with ERROR. */
  method RunThrashTest(store: MemcachedStore, keys: seq<string>, threads: nat, n: nat, failing: nat -> bool)
    returns (passed: bool, errors: nat, ghost trace: seq<Action>)
    requires store.resolves && store.State().Valid()
    requires Plan(keys, n).Distinct() && forall i :: 0 <= i < |keys| ==> !store.State().Live(keys[i])
    modifies store
    ensures Tested(Plan(keys, n), old(store.State()), threads, trace, store.State())
    ensures errors == Errors(trace) == Failures(failing, Sets(trace))
    ensures passed <==> AllPass(Plan(keys, n), store.State(), threads)
    ensures passed <==> errors == 0 && (keys == [] || 0 < n * threads)
    ensures (forall i :: !failing(i)) ==> errors == 0
  {
    var plan := Plan(keys, n);
    ghost var before := store.State();
    var added := AddKeys(store, keys);
    var harness := new Harness(plan, store, threads, failing, before);
    harness.RunToEnd();
    errors, trace := harness.errors, harness.trace;
    SetupStores(before, keys);
    EveryKeyPasses(plan, before, threads, trace);
    ghost var later := Elapse(store.State(), FINAL_SLEEP);
    assert later == Elapse(End(plan, Start(plan, before, threads), trace).store, FINAL_SLEEP);
    store.Sleep(FINAL_SLEEP);
    assert store.State() == later;
    var counted := CheckKeys(store, plan, threads);
    passed := added && counted;
    if forall i :: !failing(i) {
      NoFailures(failing, harness.sets);
    }
  }
}
