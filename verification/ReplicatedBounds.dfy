/** How long the thrash test can take on the replicated store. Only a get that is answered
    while the key's updates are still on their way can cost more than on a single store,
    and as long as they are it can cost any number of attempts. */
module ReplicatedBounds {
  import opened Decimal
  import opened VersionedStore
  import opened Thrash
  import opened ThrashBounds
  import opened Replication
  import opened Durability
  import opened ReplicatedThrash

  /** A get of a key of which some backup has not taken in everything. */
  predicate LateStep(p: Plan, w: RWorld, a: RAction)
    requires REnabled(p, w, a)
  {
    a.Client? && a.action.Read? && !Drained(w.cluster, p.keys[w.threads[a.action.t].k])
  }

  function LateReads(p: Plan, w: RWorld, acts: seq<RAction>): nat
    requires RValidRun(p, w, acts)
    decreases |acts|
  {
    if acts == [] then 0
    else (if LateStep(p, w, acts[0]) then 1 else 0) + LateReads(p, RApply(p, w, acts[0]), acts[1..])
  }

  lemma {:induction false} PrefixRuns(p: Plan, w: RWorld, acts: seq<RAction>, i: nat)
    requires RValidRun(p, w, acts) && i <= |acts|
    ensures RValidRun(p, w, acts[..i])
    decreases |acts|
  {
    if 0 < i {
      assert acts[..i][0] == acts[0] && acts[..i][1..] == acts[1..][..i - 1];
      PrefixRuns(p, RApply(p, w, acts[0]), acts[1..], i - 1);
    }
  }

  /** Where the run is before its `i`-th action. */
  function Before(p: Plan, w: RWorld, acts: seq<RAction>, i: nat): RWorld
    requires RValidRun(p, w, acts) && i <= |acts|
  {
    PrefixRuns(p, w, acts, i);
    REnd(p, w, acts[..i])
  }

  lemma BeforeLater(p: Plan, w: RWorld, acts: seq<RAction>, i: nat)
    requires RValidRun(p, w, acts) && i < |acts|
    ensures Before(p, w, acts, 0) == w
    ensures Before(p, w, acts, i + 1) == Before(p, RApply(p, w, acts[0]), acts[1..], i)
  {
    PrefixRuns(p, w, acts, i + 1);
    PrefixRuns(p, RApply(p, w, acts[0]), acts[1..], i);
    assert acts[..i + 1][0] == acts[0] && acts[..i + 1][1..] == acts[1..][..i];
  }

  /** A run has late gets exactly if at some get of it an update of the key is on its way. */
  lemma {:induction false} LateReadsAreLate(p: Plan, w: RWorld, acts: seq<RAction>)
    requires RValidRun(p, w, acts)
    ensures 0 < LateReads(p, w, acts) <==>
              exists i :: && 0 <= i < |acts| && acts[i].Client? && acts[i].action.Read?
                          && var (was, t) := (Before(p, w, acts, i), acts[i].action.t);
                             && t < |was.threads| && was.threads[t].k < |p.keys|
                             && !Drained(was.cluster, p.keys[was.threads[t].k])
    decreases |acts|
  {
    if acts != [] {
      var (w', rest) := (RApply(p, w, acts[0]), acts[1..]);
      LateReadsAreLate(p, w', rest);
      BeforeLater(p, w, acts, 0);
      if i :| && 0 <= i < |rest| && rest[i].Client? && rest[i].action.Read?
              && var (was, t) := (Before(p, w', rest, i), rest[i].action.t);
                 && t < |was.threads| && was.threads[t].k < |p.keys|
                 && !Drained(was.cluster, p.keys[was.threads[t].k])
      {
        BeforeLater(p, w, acts, i);
        assert acts[i + 1] == rest[i];
      }
      if i :| && 0 <= i < |acts| && acts[i].Client? && acts[i].action.Read?
              && var (was, t) := (Before(p, w, acts, i), acts[i].action.t);
                 && t < |was.threads| && was.threads[t].k < |p.keys|
                 && !Drained(was.cluster, p.keys[was.threads[t].k])
      {
        if 0 < i {
          BeforeLater(p, w, acts, i - 1);
          assert rest[i - 1] == acts[i];
        }
      }
    }
  }

  /** A get that is not late is answered as by the primary. */
  lemma OnTimeIsFresh(p: Plan, w: RWorld, a: RAction)
    requires RInv(w) && REnabled(p, w, a) && a.Client? && Enabled(p, Seen(w), a.action) && !LateStep(p, w, a)
    ensures FreshStep(p, Seen(w), a.action)
  {
    if a.action.Read? {
      DrainedAnswer(w.cluster, p.keys[w.threads[a.action.t].k], 0, a.action.seen);
    }
  }

  lemma {:induction false} StaleReadsAreLate(p: Plan, w: RWorld, acts: seq<RAction>)
    requires RInv(w) && RValidRun(p, w, acts)
    ensures ValidRun(p, Seen(w), Erase(acts)) && StaleReads(p, Seen(w), Erase(acts)) <= LateReads(p, w, acts)
    decreases |acts|
  {
    if acts != [] {
      var (a, rest) := (acts[0], acts[1..]);
      RStepRefines(p, w, a);
      StaleReadsAreLate(p, RApply(p, w, a), rest);
      RunRefines(p, w, acts);
      if a.Client? {
        assert Erase(acts)[0] == a.action && Erase(acts)[1..] == Erase(rest);
        if !LateStep(p, w, a) {
          OnTimeIsFresh(p, w, a);
        }
      } else {
        assert Erase(acts) == Erase(rest);
      }
    }
  }

  /** The bounds of the single store hold, with a surcharge for the late gets only. */
  lemma RetriesAreBoundedOnReplicas(p: Plan, c: Cluster, threads: nat, acts: seq<RAction>)
    requires Settled(c) && p.Distinct() && forall i :: 0 <= i < |p.keys| ==> !c.primary.Live(p.keys[i])
    requires RValidRun(p, RStart(p, c, threads), acts)
    ensures ValidRun(p, Start(p, c.primary, threads), Erase(acts))
    ensures var (work, seen) := (threads * (p.n * |p.keys|), Erase(acts));
            var late := LateReads(p, RStart(p, c, threads), acts);
            && ThrashBounds.Requests(seen) <= 2 * threads * work + 2 * threads * TickCount(seen) + 2 * late
            && (0 < threads ==>
                  Contentions(p, Start(p, c.primary, threads), seen)
                  <= (threads - 1) * work + threads * TickCount(seen) + late)
  {
    SettledIsAuthentic(c);
    SetupRefines(c, p.keys);
    var w := RStart(p, c, threads);
    assert Seen(w) == Start(p, c.primary, threads);
    StaleReadsAreLate(p, w, acts);
    RetriesAreBounded(p, c.primary, threads, Erase(acts));
  }

  // ---------- a backup that lags ----------

  predicate RefusedStep(p: Plan, w: RWorld, a: RAction)
    requires REnabled(p, w, a)
  {
    a.Client? && a.action.Write? && !Taken(p, Seen(w), a.action.t)
  }

  /** Any number of refusals, without time passing. */
  ghost predicate Refusals(p: Plan, w: RWorld, acts: seq<RAction>, m: nat) {
    && RInv(w) && RValidRun(p, w, acts) && ValidRun(p, Seen(w), Erase(acts))
    && TickCount(Erase(acts)) == 0 && Contentions(p, Seen(w), Erase(acts)) == m
  }

  lemma OneMoreStep(p: Plan, w: RWorld, a: RAction, rest: seq<RAction>, m: nat)
    requires RInv(w) && REnabled(p, w, a) && !(a.Client? && a.action.Tick?) && Refusals(p, RApply(p, w, a), rest, m)
    ensures Refusals(p, w, [a] + rest, m + if RefusedStep(p, w, a) then 1 else 0)
  {
    var acts := [a] + rest;
    assert acts[0] == a && acts[1..] == rest;
    RStepRefines(p, w, a);
    RunRefines(p, w, acts);
    if a.Client? {
      assert Erase(acts)[0] == a.action && Erase(acts)[1..] == Erase(rest);
    } else {
      assert Erase(acts) == Erase(rest);
    }
  }

  /** Thread 1 has its increment of key `k` to make, some replica still gives the old answer,
      and the primary does not take its token any more. */
  ghost predicate Lags(p: Plan, w: RWorld, k: string, stale: Answer) {
    && p.keys == [k] && 0 < p.n && |w.threads| == 2 && w.threads[1] == Thread(0, 0, Reading)
    && stale.status == OK && MayAnswer(Views(w.cluster), w.cluster.primary.now, k, stale)
    && !w.cluster.primary.Accepts(k, stale.cas)
  }

  lemma RefusedPutChangesNothing(c: Cluster, k: string, data: string, cas: nat, ttl: nat)
    requires !c.primary.Accepts(k, cas)
    ensures Handle(c, Request(Put(k, data, cas, ttl))) == c
  {
    var c' := Handle(c, Request(Put(k, data, cas, ttl)));
    forall b | 0 <= b < |c.backups|
      ensures c'.backups[b] == c.backups[b]
    {
      assert c.backups[b].queue + [] == c.backups[b].queue;
    }
    assert c'.backups == c.backups;
  }

  lemma AttemptInVain(p: Plan, w: RWorld, k: string, stale: Answer)
    requires RInv(w) && Lags(p, w, k, stale)
    ensures var (fetch, write) := (Client(Read(1, stale)), Client(Write(1)));
            && REnabled(p, w, fetch) && REnabled(p, RApply(p, w, fetch), write)
            && RefusedStep(p, RApply(p, w, fetch), write) && RApply(p, RApply(p, w, fetch), write) == w
  {
    var w1 := RApply(p, w, Client(Read(1, stale)));
    var th := w1.threads[1];
    RefusedPutChangesNothing(w.cluster, k, PrintInt(th.phase.value), stale.cas, INCREMENT_TTL);
    var w2 := RApply(p, w1, Client(Write(1)));
    assert w2.threads == w.threads;
  }

  lemma {:induction false} AttemptsInVain(p: Plan, w: RWorld, k: string, stale: Answer, m: nat)
    returns (acts: seq<RAction>)
    requires RInv(w) && Lags(p, w, k, stale)
    ensures Refusals(p, w, acts, m)
  {
    acts := [];
    if 0 < m {
      var (fetch, write) := (Client(Read(1, stale)), Client(Write(1)));
      var rest := AttemptsInVain(p, w, k, stale, m - 1);
      AttemptInVain(p, w, k, stale);
      RStepRefines(p, w, fetch);
      OneMoreStep(p, RApply(p, w, fetch), write, rest, m - 1);
      OneMoreStep(p, w, fetch, [write] + rest, m);
      acts := [fetch] + ([write] + rest);
    }
  }

  /** The test's only key as its setup writes it. */
  function SetupItem(c: Cluster): Item {
    Item("0", c.primary.nextCas, c.primary.now + SETUP_TTL)
  }

  /** After the setup, one backup has taken it in. */
  lemma SetupArrives(k: string, n: nat, c: Cluster)
    requires Settled(c) && c.backups != [] && !c.primary.Live(k)
    ensures var w := RApply(Plan([k], n), RStart(Plan([k], n), c, 2), Delivery(0));
            && w.threads == [Thread(0, 0, Reading), Thread(0, 0, Reading)]
            && w.cluster.primary == Setup(c.primary, [k])
            && |w.cluster.backups| == |c.backups|
            && w.cluster.backups[0].items == c.primary.items[k := SetupItem(c)]
  {
    var (put, item) := (Put(k, "0", 0, SETUP_TTL), SetupItem(c));
    assert SetupEvents([k])[0] == Request(put) && SetupEvents([k])[1..] == [] && [k][1..] == [];
    var c1 := Handle(c, Request(put));
    assert HandleAll(c, SetupEvents([k])) == HandleAll(c1, []) == c1;
    assert c1.backups[0].queue == [Stored(k, item)];
    assert RStart(Plan([k], n), c, 2).threads == [Thread(0, 0, Reading), Thread(0, 0, Reading)];
  }

  /** Then the first thread makes its increment, of which that backup does not hear. */
  lemma FirstThreadWins(k: string, n: nat, c: Cluster, w: RWorld)
    requires Settled(c) && c.backups != [] && !c.primary.Live(k) && 0 < n
    requires w.threads == [Thread(0, 0, Reading), Thread(0, 0, Reading)] && w.cluster.primary == Setup(c.primary, [k])
    requires |w.cluster.backups| == |c.backups| && w.cluster.backups[0].items == c.primary.items[k := SetupItem(c)]
    ensures var (p, seen) := (Plan([k], n), Answer(OK, "0", c.primary.nextCas));
            var (fetch, write) := (Client(Read(0, seen)), Client(Write(0)));
            && REnabled(p, w, fetch) && REnabled(p, RApply(p, w, fetch), write)
            && !RefusedStep(p, RApply(p, w, fetch), write)
            && Lags(p, RApply(p, RApply(p, w, fetch), write), k, seen)
  {
    var (p, seen, s) := (Plan([k], n), Answer(OK, "0", c.primary.nextCas), w.cluster.primary);
    assert Setup(c.primary, [k]) == SetData(c.primary, k, "0", 0, SETUP_TTL).0;
    assert s.items[k] == SetupItem(c);
    assert Lookup(Views(w.cluster)[0], s.now, k) == seen;
    var w1 := RApply(p, w, Client(Read(0, seen)));
    var w2 := RApply(p, w1, Client(Write(0)));
    assert w2.cluster.backups[0].items == w.cluster.backups[0].items;
    assert Lookup(Views(w2.cluster)[1], w2.cluster.primary.now, k) == seen;
    assert w2.threads[1] == Thread(0, 0, Reading);
  }

  /** While a backup lags there is no bound: two threads and one key are enough for a run
      with any number of refusals, in which no time passes and no rival wins in between. */
  lemma LaggingBackupRefusesForEver(k: string, n: nat, c: Cluster, m: nat) returns (acts: seq<RAction>)
    requires Settled(c) && c.backups != [] && !c.primary.Live(k) && 0 < n
    ensures Refusals(Plan([k], n), RStart(Plan([k], n), c, 2), acts, m)
  {
    var (p, seen) := (Plan([k], n), Answer(OK, "0", c.primary.nextCas));
    var (fetch, write) := (Client(Read(0, seen)), Client(Write(0)));
    var w0 := RStart(p, c, 2);
    var w1 := RApply(p, w0, Delivery(0));
    SettledIsAuthentic(c);
    SetupRefines(c, p.keys);
    RStepRefines(p, w0, Delivery(0));
    SetupArrives(k, n, c);
    FirstThreadWins(k, n, c, w1);
    var w2 := RApply(p, w1, fetch);
    RStepRefines(p, w1, fetch);
    RStepRefines(p, w2, write);
    var rest := AttemptsInVain(p, RApply(p, w2, write), k, seen, m);
    OneMoreStep(p, w2, write, rest, m);
    OneMoreStep(p, w1, fetch, [write] + rest, m);
    OneMoreStep(p, w0, Delivery(0), [fetch] + ([write] + rest), m);
    acts := [Delivery(0)] + ([fetch] + ([write] + rest));
  }
}
