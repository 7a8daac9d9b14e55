/** The thrash test as a step system. Every thread goes through the keys `n` times and,
    for each key, reads the counter, adds one and writes it back under the token it read,
    starting over while it is told of contention. A step is one request by one thread, so
    a run is any interleaving of the threads' separate gets and sets. */
module Thrash {
  import opened Decimal
  import opened Sums
  import opened VersionedStore

  const INCREMENT_TTL := 300
  const SETUP_TTL := 60
  const FINAL_SLEEP := 61

  datatype Plan = Plan(keys: seq<string>, n: nat) {
    ghost predicate Distinct() {
      forall i, j :: 0 <= i < j < |keys| ==> keys[i] != keys[j]
    }
  }

  datatype Phase = Reading | Writing(value: int, cas: nat)

  /** A thread about to make request `phase` of its `i`-th increment of key number `k`. */
  datatype Thread = Thread(i: nat, k: nat, phase: Phase)

  datatype World = World(store: Store, threads: seq<Thread>)

  /** `WriteError` is a set that the store answers with ERROR without taking it. */
  datatype Action =
    | Read(t: nat, seen: Answer)
    | Write(t: nat)
    | WriteError(t: nat)
    | Tick(d: nat)

  predicate Busy(p: Plan, th: Thread) {
    th.i < p.n && th.k < |p.keys|
  }

  predicate Finished(p: Plan, w: World) {
    forall t :: 0 <= t < |w.threads| ==> !Busy(p, w.threads[t])
  }

  function Advance(p: Plan, th: Thread): Thread {
    if th.k + 1 < |p.keys| then Thread(th.i, th.k + 1, Reading) else Thread(th.i + 1, 0, Reading)
  }

  /** An answer that may come from an out-of-date replica: a miss carries token 0, and a
      token that is still current comes with the current value. */
  predicate Admissible(s: Store, k: string, a: Answer) {
    && (a.status == OK || (a.status == NOT_FOUND && a.data == "" && a.cas == 0))
    && (a.status == OK ==> 0 < a.cas < s.nextCas)
    && (a.status == OK && k in s.items && s.items[k].cas == a.cas ==> s.items[k].data == a.data)
  }

  predicate Enabled(p: Plan, w: World, a: Action) {
    a.Tick? ||
    (a.t < |w.threads| && Busy(p, w.threads[a.t]) &&
     (if a.Read?
      then w.threads[a.t].phase.Reading? && Admissible(w.store, p.keys[w.threads[a.t].k], a.seen)
      else w.threads[a.t].phase.Writing?))
  }

  /** Thread `t` is about to write key number `j` and the write would be taken. */
  predicate Taken(p: Plan, w: World, t: nat)
    requires t < |w.threads| && Busy(p, w.threads[t]) && w.threads[t].phase.Writing?
  {
    w.store.Accepts(p.keys[w.threads[t].k], w.threads[t].phase.cas)
  }

  function Apply(p: Plan, w: World, a: Action): World
    requires Enabled(p, w, a)
  {
    match a
    case Tick(d) => w.(store := Elapse(w.store, d))
    case Read(t, seen) =>
      w.(threads := w.threads[t := w.threads[t].(phase := Writing(Atoi(seen.data) + 1, seen.cas))])
    case WriteError(t) => w.(threads := w.threads[t := Advance(p, w.threads[t])])
    case Write(t) =>
      var th := w.threads[t];
      var (store, status) := SetData(w.store, p.keys[th.k], PrintInt(th.phase.value), th.phase.cas, INCREMENT_TTL);
      World(store, w.threads[t := if status == DATA_CONTENTION then th.(phase := Reading) else Advance(p, th)])
  }

  predicate ValidRun(p: Plan, w: World, acts: seq<Action>)
    decreases |acts|
  {
    acts == [] || (Enabled(p, w, acts[0]) && ValidRun(p, Apply(p, w, acts[0]), acts[1..]))
  }

  function End(p: Plan, w: World, acts: seq<Action>): World
    requires ValidRun(p, w, acts)
    decreases |acts|
  {
    if acts == [] then w else End(p, Apply(p, w, acts[0]), acts[1..])
  }

  // ---------- what a run does to one key ----------

  /** The count stored under a key; an absent key counts as 0. */
  function Value(s: Store, k: string): int {
    if s.Live(k) then Atoi(s.items[k].data) else 0
  }

  /** For one key: writes taken, increments given up after an ERROR, counts lost by expiry. */
  datatype Tally = Tally(wins: int, errors: int, expired: int) {
    function Plus(other: Tally): Tally {
      Tally(wins + other.wins, errors + other.errors, expired + other.expired)
    }
  }

  function Effect(p: Plan, w: World, a: Action, j: nat): Tally
    requires Enabled(p, w, a) && j < |p.keys|
  {
    match a
    case Read(_, _) => Tally(0, 0, 0)
    case Write(t) => Tally(if w.threads[t].k == j && Taken(p, w, t) then 1 else 0, 0, 0)
    case WriteError(t) => Tally(0, if w.threads[t].k == j then 1 else 0, 0)
    case Tick(d) =>
      Tally(0, 0, if Elapse(w.store, d).Live(p.keys[j]) then 0 else Value(w.store, p.keys[j]))
  }

  function Total(p: Plan, w: World, acts: seq<Action>, j: nat): Tally
    requires ValidRun(p, w, acts) && j < |p.keys|
    decreases |acts|
  {
    if acts == [] then Tally(0, 0, 0)
    else Effect(p, w, acts[0], j).Plus(Total(p, Apply(p, w, acts[0]), acts[1..], j))
  }

  /** How often the thread has dealt with key number `j`, as its position tells. */
  function Done(th: Thread, j: nat): int {
    th.i + if j < th.k then 1 else 0
  }

  function DoneByAll(w: World, j: nat): int {
    Sum(seq(|w.threads|, t requires 0 <= t < |w.threads| => Done(w.threads[t], j)))
  }

  // ---------- invariant ----------

  /** A thread at a position its loops can be in. */
  ghost predicate AtLoop(p: Plan, th: Thread) {
    && th.i <= p.n
    && (th.k < |p.keys| || (th.k == 0 && |p.keys| == 0))
    && (th.i == p.n ==> th.k == 0)
    && (th.phase.Writing? ==> Busy(p, th))
  }

  /** The value a thread is about to write is one more than the value its token stands for. */
  ghost predicate Honest(p: Plan, s: Store, th: Thread) {
    th.phase.Writing? && Busy(p, th) ==>
      var k := p.keys[th.k];
      && th.phase.cas < s.nextCas
      && (th.phase.cas == 0 ==> th.phase.value == 1)
      && (th.phase.cas != 0 && k in s.items && s.items[k].cas == th.phase.cas ==>
            th.phase.value == Atoi(s.items[k].data) + 1)
  }

  ghost predicate Inv(p: Plan, w: World) {
    && p.Distinct()
    && w.store.Valid()
    && (forall t :: 0 <= t < |w.threads| ==> AtLoop(p, w.threads[t]) && Honest(p, w.store, w.threads[t]))
    && (forall j :: 0 <= j < |p.keys| ==> 0 <= Value(w.store, p.keys[j]))
  }

  lemma StepKeepsInv(p: Plan, w: World, a: Action)
    requires Inv(p, w) && Enabled(p, w, a)
    ensures Inv(p, Apply(p, w, a))
    ensures |Apply(p, w, a).threads| == |w.threads|
  {
    if a.Write? {
      AtoiOfPrinted(w.threads[a.t].phase.value);
    }
  }

  /** The books balance at every step: a key's value moves by the writes taken and the
      counts expired, and the threads' progress by the writes taken and the errors. */
  lemma StepBalances(p: Plan, w: World, a: Action, j: nat)
    requires Inv(p, w) && Enabled(p, w, a) && j < |p.keys|
    ensures var (w', e) := (Apply(p, w, a), Effect(p, w, a, j));
            && Value(w'.store, p.keys[j]) == Value(w.store, p.keys[j]) + e.wins - e.expired
            && DoneByAll(w', j) == DoneByAll(w, j) + e.wins + e.errors
            && 0 <= e.wins && 0 <= e.errors && 0 <= e.expired
  {
    var w' := Apply(p, w, a);
    var before := seq(|w.threads|, t requires 0 <= t < |w.threads| => Done(w.threads[t], j));
    var after := seq(|w'.threads|, t requires 0 <= t < |w'.threads| => Done(w'.threads[t], j));
    if a.Tick? {
      assert after == before;
    } else {
      assert after == before[a.t := Done(w'.threads[a.t], j)];
      SumUpdate(before, a.t, Done(w'.threads[a.t], j));
      if a.Write? {
        AtoiOfPrinted(w.threads[a.t].phase.value);
      }
    }
  }

  lemma {:induction false} RunBalances(p: Plan, w: World, acts: seq<Action>, j: nat)
    requires Inv(p, w) && ValidRun(p, w, acts) && j < |p.keys|
    ensures var (w', e) := (End(p, w, acts), Total(p, w, acts, j));
            && Inv(p, w') && |w'.threads| == |w.threads|
            && Value(w'.store, p.keys[j]) == Value(w.store, p.keys[j]) + e.wins - e.expired
            && DoneByAll(w', j) == DoneByAll(w, j) + e.wins + e.errors
            && 0 <= e.wins && 0 <= e.errors && 0 <= e.expired
    decreases |acts|
  {
    if acts != [] {
      StepKeepsInv(p, w, acts[0]);
      StepBalances(p, w, acts[0], j);
      RunBalances(p, Apply(p, w, acts[0]), acts[1..], j);
    }
  }

  // ---------- the test ----------

  /** The test's first loop: every key is added with the value "0". */
  function Setup(s: Store, keys: seq<string>): Store
    decreases |keys|
  {
    if keys == [] then s else Setup(SetData(s, keys[0], "0", 0, SETUP_TTL).0, keys[1..])
  }

  function Start(p: Plan, s: Store, threads: nat): World {
    World(Setup(s, p.keys), seq(threads, _ => Thread(0, 0, Reading)))
  }

  lemma {:induction false} SetupStores(s: Store, keys: seq<string>)
    requires s.Valid()
    requires forall i, j :: 0 <= i < j < |keys| ==> keys[i] != keys[j]
    requires forall i :: 0 <= i < |keys| ==> !s.Live(keys[i])
    ensures var s' := Setup(s, keys);
            && s'.Valid() && s'.now == s.now
            && (forall k :: k !in keys ==>
                  (k in s'.items <==> k in s.items) && (k in s.items ==> s'.items[k] == s.items[k]))
            && (forall i :: 0 <= i < |keys| ==>
                  && keys[i] in s'.items && s'.items[keys[i]].data == "0"
                  && s'.items[keys[i]].expires == s.now + 60)
    decreases |keys|
  {
    if keys != [] {
      var next := SetData(s, keys[0], "0", 0, SETUP_TTL).0;
      SetupStores(next, keys[1..]);
      assert keys[0] !in keys[1..];
      assert forall k :: k !in keys ==> k !in keys[1..];
    }
  }

  lemma StartIsGood(p: Plan, s: Store, threads: nat)
    requires s.Valid() && p.Distinct() && forall i :: 0 <= i < |p.keys| ==> !s.Live(p.keys[i])
    ensures var w := Start(p, s, threads);
            && Inv(p, w)
            && forall j :: 0 <= j < |p.keys| ==> Value(w.store, p.keys[j]) == 0 && DoneByAll(w, j) == 0
  {
    SetupStores(s, p.keys);
    AtoiOfPrinted(0);
    var w := Start(p, s, threads);
    forall j | 0 <= j < |p.keys|
      ensures Value(w.store, p.keys[j]) == 0 && DoneByAll(w, j) == 0
    {
      assert PrintInt(0) == "0";
      SumConstant(seq(threads, t requires 0 <= t < threads => Done(w.threads[t], j)), 0);
      assert seq(|w.threads|, t requires 0 <= t < |w.threads| => Done(w.threads[t], j))
          == seq(threads, t requires 0 <= t < threads => Done(w.threads[t], j));
    }
  }

  lemma FinishedCount(p: Plan, w: World, j: nat)
    requires Inv(p, w) && Finished(p, w) && j < |p.keys|
    ensures DoneByAll(w, j) == |w.threads| * p.n
  {
    SumConstant(seq(|w.threads|, t requires 0 <= t < |w.threads| => Done(w.threads[t], j)), p.n);
  }

  /** No update is lost or counted twice, in any interleaving and at any moment: the count
      under a key is the number of writes taken, less what expired. When all the threads
      are through, it is one increment per thread and round less exactly the increments
      given up on an ERROR and the counts that expired. */
  lemma NoUpdateLost(p: Plan, s: Store, threads: nat, acts: seq<Action>, j: nat)
    requires s.Valid() && p.Distinct() && forall i :: 0 <= i < |p.keys| ==> !s.Live(p.keys[i])
    requires ValidRun(p, Start(p, s, threads), acts) && j < |p.keys|
    ensures var (w, e) := (End(p, Start(p, s, threads), acts), Total(p, Start(p, s, threads), acts, j));
            && Value(w.store, p.keys[j]) == e.wins - e.expired
            && (Finished(p, w) ==> Value(w.store, p.keys[j]) == threads * p.n - e.errors - e.expired)
            && (Finished(p, w) ==> (Value(w.store, p.keys[j]) == threads * p.n <==> e.errors == 0 && e.expired == 0))
  {
    StartIsGood(p, s, threads);
    RunBalances(p, Start(p, s, threads), acts, j);
    if Finished(p, End(p, Start(p, s, threads), acts)) {
      FinishedCount(p, End(p, Start(p, s, threads), acts), j);
    }
  }
}
