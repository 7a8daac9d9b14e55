/** The thrash test against the replicated store: writes are decided at one primary and
    reach the backups later, and any replica may answer a get, so a thread may read an old
    value. It still loses no update. */
module ReplicatedThrash {
  import opened Decimal
  import opened VersionedStore
  import opened Thrash
  import opened ThrashVerdict
  import opened Replication
  import opened Durability

  // ---------- where a backup's items come from ----------

  /** The backup holds the item under the key, or has it coming. */
  ghost predicate Has(backup: Backup, k: string, item: Item) {
    (k in backup.items && backup.items[k] == item) || Stored(k, item) in backup.queue
  }

  lemma {:induction false} LandAllBrings(items: Contents, us: seq<Update>, k: string)
    requires k in LandAll(items, us)
    ensures (k in items && items[k] == LandAll(items, us)[k]) || Stored(k, LandAll(items, us)[k]) in us
    decreases |us|
  {
    if us != [] {
      LandAllBrings(Land(items, us[0]), us[1..], k);
    }
  }

  lemma {:induction false} PartsOf(us: seq<Update>, k: string, u: Update)
    ensures u in Only(us, k) || u in Without(us, k) ==> u in us
  {
    if us != [] {
      PartsOf(us[1..], k, u);
    }
  }

  lemma DrainBringsNothing(backup: Backup, key: string, k: string, item: Item)
    requires Has(Drain(backup, key), k, item)
    ensures Has(backup, k, item)
  {
    PartsOf(backup.queue, key, Stored(k, item));
    if Stored(k, item) !in Without(backup.queue, key) {
      LandAllBrings(backup.items, Only(backup.queue, key), k);
    }
  }

  /** Whatever a backup has after an event, it had before or was sent by it. */
  lemma HandleBrings(c: Cluster, e: Event, b: nat, k: string, item: Item)
    requires b < |c.backups| == |Handle(c, e).backups| && Has(Handle(c, e).backups[b], k, item)
    ensures Has(c.backups[b], k, item) || Stored(k, item) in Forwarded(c, e)
  {
    if e.Request? {
      var queued := Enqueue(c.backups[b], Sent(c.primary, e.op));
      if e.op.Remove? {
        DrainBringsNothing(queued, e.op.key, k, item);
      }
      assert Has(queued, k, item);
    }
  }

  // ---------- every answer of the cluster is admissible ----------

  /** The item was written by the primary, and is the current one if its token is current. */
  ghost predicate Genuine(s: Store, k: string, item: Item) {
    0 < item.cas < s.nextCas && (k in s.items && s.items[k].cas == item.cas ==> s.items[k] == item)
  }

  ghost predicate Authentic(c: Cluster) {
    && c.primary.Valid()
    && forall b, k, item :: 0 <= b < |c.backups| && Has(c.backups[b], k, item) ==> Genuine(c.primary, k, item)
  }

  lemma StillGenuine(s: Store, op: Op, k: string, item: Item)
    requires s.Valid() && (Genuine(s, k, item) || Stored(k, item) in Sent(s, op))
    ensures Genuine(Do(s, op), k, item)
  {
  }

  lemma HandleStaysAuthentic(c: Cluster, e: Event)
    requires Authentic(c)
    ensures Authentic(Handle(c, e))
  {
    var c' := Handle(c, e);
    forall b, k, item | 0 <= b < |c'.backups| && Has(c'.backups[b], k, item)
      ensures Genuine(c'.primary, k, item)
    {
      HandleBrings(c, e, b, k, item);
      if e.Request? {
        StillGenuine(c.primary, e.op, k, item);
      }
    }
  }

  lemma AnswersAreAdmissible(c: Cluster, k: string, a: Answer)
    requires Authentic(c) && MayAnswer(Views(c), c.primary.now, k, a)
    ensures Admissible(c.primary, k, a)
  {
    if a.status == OK {
      var r :| 0 <= r < |Views(c)| && Lookup(Views(c)[r], c.primary.now, k) == a;
      if 0 < r {
        var (b, item) := (r - 1, c.backups[r - 1].items[k]);
        assert Has(c.backups[b], k, item) && Genuine(c.primary, k, item);
      }
    }
  }

  // ---------- threads and cluster together ----------

  datatype RWorld = RWorld(cluster: Cluster, threads: seq<Thread>)

  datatype RAction = Client(action: Action) | Delivery(b: nat)

  function Seen(w: RWorld): World {
    World(w.cluster.primary, w.threads)
  }

  /** A thread may be answered by any replica; all else is as against a single store. */
  predicate REnabled(p: Plan, w: RWorld, a: RAction) {
    a.Client? ==>
      if a.action.Read?
      then && a.action.t < |w.threads| && Busy(p, w.threads[a.action.t]) && w.threads[a.action.t].phase.Reading?
           && MayAnswer(Views(w.cluster), w.cluster.primary.now, p.keys[w.threads[a.action.t].k], a.action.seen)
      else Enabled(p, Seen(w), a.action)
  }

  function NextThread(p: Plan, w: RWorld, a: Action): Thread
    requires !a.Tick? && REnabled(p, w, Client(a))
  {
    var th := w.threads[a.t];
    match a
    case Read(_, seen) => th.(phase := Writing(Atoi(seen.data) + 1, seen.cas))
    case Write(t) => if Taken(p, Seen(w), t) then Advance(p, th) else th.(phase := Reading)
    case WriteError(_) => Advance(p, th)
  }

  function RApply(p: Plan, w: RWorld, a: RAction): RWorld
    requires REnabled(p, w, a)
  {
    match a
    case Delivery(b) => w.(cluster := Handle(w.cluster, Deliver(b)))
    case Client(action) =>
      match action
      case Tick(d) => w.(cluster := Handle(w.cluster, Request(Sleep(d))))
      case Read(t, _) => w.(threads := w.threads[t := NextThread(p, w, action)])
      case WriteError(t) => w.(threads := w.threads[t := NextThread(p, w, action)])
      case Write(t) =>
        var th := w.threads[t];
        var put := Put(p.keys[th.k], PrintInt(th.phase.value), th.phase.cas, INCREMENT_TTL);
        RWorld(Handle(w.cluster, Request(put)), w.threads[t := NextThread(p, w, action)])
  }

  predicate RValidRun(p: Plan, w: RWorld, acts: seq<RAction>)
    decreases |acts|
  {
    acts == [] || (REnabled(p, w, acts[0]) && RValidRun(p, RApply(p, w, acts[0]), acts[1..]))
  }

  function REnd(p: Plan, w: RWorld, acts: seq<RAction>): RWorld
    requires RValidRun(p, w, acts)
    decreases |acts|
  {
    if acts == [] then w else REnd(p, RApply(p, w, acts[0]), acts[1..])
  }

  /** The run as the primary alone sees it. */
  function Erase(acts: seq<RAction>): seq<Action> {
    if acts == [] then [] else (if acts[0].Client? then [acts[0].action] else []) + Erase(acts[1..])
  }

  ghost predicate RInv(w: RWorld) {
    InStep(w.cluster) && Authentic(w.cluster)
  }

  lemma RStepRefines(p: Plan, w: RWorld, a: RAction)
    requires RInv(w) && REnabled(p, w, a)
    ensures RInv(RApply(p, w, a))
    ensures a.Client? ==> Enabled(p, Seen(w), a.action) && Seen(RApply(p, w, a)) == Apply(p, Seen(w), a.action)
    ensures a.Delivery? ==> Seen(RApply(p, w, a)) == Seen(w)
  {
    match a
    case Delivery(b) =>
      HandleStaysInStep(w.cluster, Deliver(b));
      HandleStaysAuthentic(w.cluster, Deliver(b));
    case Client(action) =>
      match action
      case Read(t, seen) => AnswersAreAdmissible(w.cluster, p.keys[w.threads[t].k], seen);
      case WriteError(_) =>
      case Tick(d) =>
        HandleStaysInStep(w.cluster, Request(Sleep(d)));
        HandleStaysAuthentic(w.cluster, Request(Sleep(d)));
      case Write(t) =>
        var th := w.threads[t];
        var put := Put(p.keys[th.k], PrintInt(th.phase.value), th.phase.cas, INCREMENT_TTL);
        HandleStaysInStep(w.cluster, Request(put));
        HandleStaysAuthentic(w.cluster, Request(put));
  }

  /** Every run against the cluster is, seen from its primary, a run against one map. */
  lemma {:induction false} RunRefines(p: Plan, w: RWorld, acts: seq<RAction>)
    requires RInv(w) && RValidRun(p, w, acts)
    ensures RInv(REnd(p, w, acts))
    ensures ValidRun(p, Seen(w), Erase(acts)) && Seen(REnd(p, w, acts)) == End(p, Seen(w), Erase(acts))
    decreases |acts|
  {
    if acts != [] {
      RStepRefines(p, w, acts[0]);
      RunRefines(p, RApply(p, w, acts[0]), acts[1..]);
      if acts[0].Client? {
        assert Erase(acts)[1..] == Erase(acts[1..]);
      } else {
        assert Erase(acts) == Erase(acts[1..]);
      }
    }
  }

  /** The setup requests of the test, sent to the cluster. */
  function SetupEvents(keys: seq<string>): seq<Event> {
    if keys == [] then [] else [Request(Put(keys[0], "0", 0, SETUP_TTL))] + SetupEvents(keys[1..])
  }

  function RStart(p: Plan, c: Cluster, threads: nat): RWorld {
    RWorld(HandleAll(c, SetupEvents(p.keys)), seq(threads, _ => Thread(0, 0, Reading)))
  }

  lemma {:induction false} SetupRefines(c: Cluster, keys: seq<string>)
    requires InStep(c) && Authentic(c)
    ensures var c' := HandleAll(c, SetupEvents(keys));
            InStep(c') && Authentic(c') && c'.primary == Setup(c.primary, keys)
    decreases |keys|
  {
    if keys != [] {
      var e := Request(Put(keys[0], "0", 0, SETUP_TTL));
      HandleStaysInStep(c, e);
      HandleStaysAuthentic(c, e);
      assert SetupEvents(keys)[1..] == SetupEvents(keys[1..]);
      SetupRefines(Handle(c, e), keys[1..]);
    }
  }

  /** The thrash test on the replicated store, with reads from any replica and deliveries
      at any time: when all threads are through, the primary's count under each key is one
      per thread and round less what ERRORs and expiry cost, and once the key's updates
      have been delivered every replica that answers a get gives that count. */
  lemma NoUpdateLostOnReplicas(p: Plan, c: Cluster, threads: nat, acts: seq<RAction>, j: nat, a: Answer)
    requires Settled(c) && p.Distinct() && forall i :: 0 <= i < |p.keys| ==> !c.primary.Live(p.keys[i])
    requires RValidRun(p, RStart(p, c, threads), acts) && j < |p.keys|
    requires Finished(p, Seen(REnd(p, RStart(p, c, threads), acts)))
    ensures ValidRun(p, Start(p, c.primary, threads), Erase(acts))
    ensures var w := REnd(p, RStart(p, c, threads), acts);
            var e := Total(p, Start(p, c.primary, threads), Erase(acts), j);
            && Value(w.cluster.primary, p.keys[j]) == threads * p.n - e.errors - e.expired
            && (Drained(w.cluster, p.keys[j]) && MayAnswer(Views(w.cluster), w.cluster.primary.now, p.keys[j], a)
                ==> Atoi(a.data) == threads * p.n - e.errors - e.expired)
  {
    SettledIsAuthentic(c);
    SetupRefines(c, p.keys);
    var w0 := RStart(p, c, threads);
    assert Seen(w0) == Start(p, c.primary, threads);
    RunRefines(p, w0, acts);
    NoUpdateLost(p, c.primary, threads, Erase(acts), j);
    var w := REnd(p, w0, acts);
    if Drained(w.cluster, p.keys[j]) && MayAnswer(Views(w.cluster), w.cluster.primary.now, p.keys[j], a) {
      DrainedAnswer(w.cluster, p.keys[j], 0, a);
    }
  }

  lemma SettledIsAuthentic(c: Cluster)
    requires Settled(c)
    ensures Authentic(c) && InStep(c)
  {
  }

  /** Every replica gives a drained key's value, now and later. */
  lemma DrainedAnswer(c: Cluster, k: string, d: nat, a: Answer)
    requires InStep(c) && Drained(c, k) && MayAnswer(Views(c), c.primary.now + d, k, a)
    ensures a == GetData(Elapse(c.primary, d), k)
  {
    DrainedViewsAgree(c, k);
    assert forall r :: 0 <= r < |Views(c)| ==> SameItem(Views(c)[r], c.primary.items, k);
    assert Lookup(Views(c)[0], c.primary.now + d, k) == GetData(Elapse(c.primary, d), k);
  }

  /** The test's verdict on the replicated store. When all threads are through in less than
      60 seconds and a key's updates have been delivered, whichever replica answers the
      final get, it is OK with the full count exactly if there was an increment to make
      and none was given up on an ERROR. */
  lemma ThrashTestVerdictOnReplicas(p: Plan, c: Cluster, threads: nat, acts: seq<RAction>, j: nat, a: Answer)
    requires Settled(c) && p.Distinct() && forall i :: 0 <= i < |p.keys| ==> !c.primary.Live(p.keys[i])
    requires RValidRun(p, RStart(p, c, threads), acts) && j < |p.keys|
    requires Finished(p, Seen(REnd(p, RStart(p, c, threads), acts)))
    requires var c' := REnd(p, RStart(p, c, threads), acts).cluster;
             && c'.primary.now < c.primary.now + SETUP_TTL && Drained(c', p.keys[j])
             && MayAnswer(Views(c'), c'.primary.now + FINAL_SLEEP, p.keys[j], a)
    ensures ValidRun(p, Start(p, c.primary, threads), Erase(acts))
    ensures a.status == OK && Atoi(a.data) == p.n * threads <==>
              0 < p.n * threads && Total(p, Start(p, c.primary, threads), Erase(acts), j).errors == 0
  {
    SettledIsAuthentic(c);
    SetupRefines(c, p.keys);
    var w0 := RStart(p, c, threads);
    assert Seen(w0) == Start(p, c.primary, threads);
    RunRefines(p, w0, acts);
    DrainedAnswer(REnd(p, w0, acts).cluster, p.keys[j], FINAL_SLEEP, a);
    ThrashTestVerdict(p, c.primary, threads, Erase(acts), j);
  }

  // ---------- counters stay small here as well ----------

  /** The item has expired or shows no more than the increments made so far. */
  ghost predicate LowItem(p: Plan, w: World, k: string, item: Item) {
    forall j :: 0 <= j < |p.keys| && p.keys[j] == k && w.store.now < item.expires ==>
      Atoi(item.data) <= DoneByAll(w, j)
  }

  ghost predicate Low(p: Plan, w: RWorld) {
    && Inv(p, Seen(w)) && Modest(p, Seen(w))
    && forall b, k, item :: 0 <= b < |w.cluster.backups| && Has(w.cluster.backups[b], k, item) ==>
         LowItem(p, Seen(w), k, item)
  }

  /** An answer of any replica is plausible. */
  lemma ReadIsPlausible(p: Plan, w: RWorld, a: RAction)
    requires RInv(w) && Low(p, w) && REnabled(p, w, a) && a.Client? && Enabled(p, Seen(w), a.action)
    ensures PlausibleStep(p, Seen(w), a.action)
  {
    if a.action.Read? {
      var (k, seen) := (w.threads[a.action.t].k, a.action.seen);
      assert 0 <= Value(w.cluster.primary, p.keys[k]) <= DoneByAll(Seen(w), k);
      if seen.status == OK {
        var r :| 0 <= r < |Views(w.cluster)| && Lookup(Views(w.cluster)[r], w.cluster.primary.now, p.keys[k]) == seen;
        if 0 < r {
          var (b, item) := (r - 1, w.cluster.backups[r - 1].items[p.keys[k]]);
          assert Has(w.cluster.backups[b], p.keys[k], item) && LowItem(p, Seen(w), p.keys[k], item);
        }
      }
    }
  }

  lemma StillLow(p: Plan, w: World, a: Action, k: string, item: Item)
    requires Inv(p, w) && Enabled(p, w, a) && LowItem(p, w, k, item)
    ensures LowItem(p, Apply(p, w, a), k, item)
  {
    forall j | 0 <= j < |p.keys|
      ensures DoneByAll(w, j) <= DoneByAll(Apply(p, w, a), j)
    {
      StepBalances(p, w, a, j);
    }
  }

  /** What a taken write sends is as low as what it leaves at the primary. */
  lemma SentIsLow(p: Plan, w: World, k: string, item: Item)
    requires Modest(p, w) && k in w.store.items && w.store.items[k] == item
    ensures LowItem(p, w, k, item)
  {
  }

  lemma ClientStepStaysLow(p: Plan, w: RWorld, a: Action)
    requires RInv(w) && Low(p, w) && REnabled(p, w, Client(a)) && Enabled(p, Seen(w), a)
    requires Seen(RApply(p, w, Client(a))) == Apply(p, Seen(w), a)
    ensures Low(p, RApply(p, w, Client(a)))
  {
    var w' := RApply(p, w, Client(a));
    ReadIsPlausible(p, w, Client(a));
    StepKeepsInv(p, Seen(w), a);
    StepStaysModest(p, Seen(w), a);
    forall b, k, item | 0 <= b < |w'.cluster.backups| && Has(w'.cluster.backups[b], k, item)
      ensures LowItem(p, Seen(w'), k, item)
    {
      if Has(w.cluster.backups[b], k, item) {
        StillLow(p, Seen(w), a, k, item);
      } else {
        NewItemIsAtPrimary(p, w, a, b, k, item);
        SentIsLow(p, Seen(w'), k, item);
      }
    }
  }

  lemma NewItemIsAtPrimary(p: Plan, w: RWorld, a: Action, b: nat, k: string, item: Item)
    requires REnabled(p, w, Client(a)) && b < |w.cluster.backups|
    requires var w' := RApply(p, w, Client(a));
             |w'.cluster.backups| == |w.cluster.backups| && Has(w'.cluster.backups[b], k, item)
    requires !Has(w.cluster.backups[b], k, item)
    ensures var s := RApply(p, w, Client(a)).cluster.primary; k in s.items && s.items[k] == item
  {
    if a.Tick? {
      HandleBrings(w.cluster, Request(Sleep(a.d)), b, k, item);
    } else if a.Write? {
      var th := w.threads[a.t];
      var put := Put(p.keys[th.k], PrintInt(th.phase.value), th.phase.cas, INCREMENT_TTL);
      HandleBrings(w.cluster, Request(put), b, k, item);
    }
  }

  lemma RStepStaysLow(p: Plan, w: RWorld, a: RAction)
    requires RInv(w) && Low(p, w) && REnabled(p, w, a)
    ensures Low(p, RApply(p, w, a))
    ensures a.Client? ==> Enabled(p, Seen(w), a.action) && PlausibleStep(p, Seen(w), a.action)
  {
    RStepRefines(p, w, a);
    match a
    case Client(action) =>
      ReadIsPlausible(p, w, a);
      ClientStepStaysLow(p, w, action);
    case Delivery(d) =>
      var w' := RApply(p, w, a);
      forall b, k, item | 0 <= b < |w'.cluster.backups| && Has(w'.cluster.backups[b], k, item)
        ensures LowItem(p, Seen(w'), k, item)
      {
        HandleBrings(w.cluster, Deliver(d), b, k, item);
      }
  }

  lemma {:induction false} RunIsPlausible(p: Plan, w: RWorld, acts: seq<RAction>)
    requires RInv(w) && Low(p, w) && RValidRun(p, w, acts)
    ensures ValidRun(p, Seen(w), Erase(acts)) && Plausible(p, Seen(w), Erase(acts))
    decreases |acts|
  {
    if acts != [] {
      RStepRefines(p, w, acts[0]);
      RStepStaysLow(p, w, acts[0]);
      RunIsPlausible(p, RApply(p, w, acts[0]), acts[1..]);
      if acts[0].Client? {
        assert Erase(acts)[1..] == Erase(acts[1..]);
      } else {
        assert Erase(acts) == Erase(acts[1..]);
      }
    }
  }

  /** What the backups have of the test's keys has expired, or is the test's own "0". */
  ghost predicate Blank(c: Cluster, keys: seq<string>) {
    forall b, k, item :: 0 <= b < |c.backups| && Has(c.backups[b], k, item) && k in keys && c.primary.now < item.expires
      ==> Atoi(item.data) == 0
  }

  lemma {:induction false} SetupIsBlank(c: Cluster, keys: seq<string>, all: seq<string>)
    requires Blank(c, all)
    ensures Blank(HandleAll(c, SetupEvents(keys)), all)
    decreases |keys|
  {
    if keys != [] {
      var e := Request(Put(keys[0], "0", 0, SETUP_TTL));
      var c' := Handle(c, e);
      AtoiOfPrinted(0);
      assert PrintInt(0) == "0";
      forall b, k, item
        | 0 <= b < |c'.backups| && Has(c'.backups[b], k, item) && k in all && c'.primary.now < item.expires
        ensures Atoi(item.data) == 0
      {
        HandleBrings(c, e, b, k, item);
      }
      assert SetupEvents(keys)[0] == e && SetupEvents(keys)[1..] == SetupEvents(keys[1..]);
      SetupIsBlank(c', keys[1..], all);
    }
  }

  lemma StartIsLow(p: Plan, c: Cluster, threads: nat)
    requires Settled(c) && p.Distinct() && forall i :: 0 <= i < |p.keys| ==> !c.primary.Live(p.keys[i])
    ensures Low(p, RStart(p, c, threads)) && RInv(RStart(p, c, threads))
    ensures Seen(RStart(p, c, threads)) == Start(p, c.primary, threads)
  {
    SettledIsAuthentic(c);
    SetupRefines(c, p.keys);
    StartIsGood(p, c.primary, threads);
    assert Blank(c, p.keys);
    SetupIsBlank(c, p.keys, p.keys);
    var w := RStart(p, c, threads);
    forall b, k, item | 0 <= b < |w.cluster.backups| && Has(w.cluster.backups[b], k, item)
      ensures LowItem(p, Seen(w), k, item)
    {
      forall j | 0 <= j < |p.keys| && p.keys[j] == k && Seen(w).store.now < item.expires
        ensures Atoi(item.data) <= DoneByAll(Seen(w), j)
      {
        assert k in p.keys && DoneByAll(Seen(w), j) == 0;
      }
    }
  }

  /** However old the answers it gets, no thread ever computes a counter beyond
      `threads * n`. */
  lemma CountersFitOnReplicas(p: Plan, c: Cluster, threads: nat, acts: seq<RAction>, t: nat)
    requires Settled(c) && p.Distinct() && forall i :: 0 <= i < |p.keys| ==> !c.primary.Live(p.keys[i])
    requires RValidRun(p, RStart(p, c, threads), acts)
    requires t < threads == |REnd(p, RStart(p, c, threads), acts).threads|
    requires REnd(p, RStart(p, c, threads), acts).threads[t].phase.Writing?
    ensures REnd(p, RStart(p, c, threads), acts).threads[t].phase.value <= threads * p.n
  {
    var w := RStart(p, c, threads);
    StartIsLow(p, c, threads);
    RunRefines(p, w, acts);
    RunIsPlausible(p, w, acts);
    CountersFit(p, c.primary, threads, Erase(acts), t);
  }
}
