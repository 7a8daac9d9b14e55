/** What is left of the replicated store's data when one replica is killed, or restarted
    with nothing in it. */
module Durability {
  import opened VersionedStore
  import opened Replication

  datatype Loss = Killed(r: nat) | Restarted(r: nat)

  function After(views: seq<Contents>, loss: Loss): seq<Contents>
    requires loss.r < |views|
  {
    match loss
    case Killed(r) => views[..r] + views[r + 1..]
    case Restarted(r) => views[r := map[]]
  }

  /** A killed replica is gone; a restarted one is there again and misses every key at any
      time; the others are as they were. */
  lemma AfterALoss(views: seq<Contents>, loss: Loss, now: nat, k: string)
    requires loss.r < |views|
    ensures loss.Killed? ==> |After(views, loss)| == |views| - 1
    ensures loss.Restarted? ==> |After(views, loss)| == |views|
                                && Lookup(After(views, loss)[loss.r], now, k) == Answer(NOT_FOUND, "", 0)
    ensures forall r :: 0 <= r < |views| && r != loss.r ==>
              After(views, loss)[if loss.Killed? && loss.r < r then r - 1 else r] == views[r]
  {
  }

  /** So either way a get is answered as by the others alone: by one that holds the key, and
      with a miss only if none of them does. Nothing of the lost replica shows. */
  lemma OnlyTheOthersAnswer(views: seq<Contents>, loss: Loss, now: nat, k: string, a: Answer)
    requires loss.r < |views|
    ensures MayAnswer(After(views, loss), now, k, a) <==>
              if a.status == OK then exists r :: 0 <= r < |views| && r != loss.r && Lookup(views[r], now, k) == a
              else a == Answer(NOT_FOUND, "", 0)
                   && forall r :: 0 <= r < |views| && r != loss.r ==> Lookup(views[r], now, k) == a
  {
    var after := After(views, loss);
    AfterALoss(views, loss, now, k);
    forall r | 0 <= r < |views| && r != loss.r
      ensures exists i :: 0 <= i < |after| && after[i] == views[r]
    {
      assert after[if loss.Killed? && loss.r < r then r - 1 else r] == views[r];
    }
    forall i | 0 <= i < |after|
      ensures Lookup(after[i], now, k) == Answer(NOT_FOUND, "", 0)
              || exists r :: 0 <= r < |views| && r != loss.r && after[i] == views[r]
    {
      var r := if loss.Killed? && loss.r <= i then i + 1 else i;
      assert r != loss.r ==> after[i] == views[r];
    }
  }

  predicate Same(a: Answer, b: Answer) {
    a.status == b.status && a.data == b.data
  }

  /** After the loss of any one replica, a get can only give what the primary (replica 0)
      would have given before it. */
  ghost predicate Survives(views: seq<Contents>, now: nat, k: string)
    requires views != []
  {
    forall loss: Loss, a: Answer ::
      loss.r < |views| && MayAnswer(After(views, loss), now, k, a) ==> Same(a, Lookup(views[0], now, k))
  }

  /** No replica holds anything but the acknowledged value, and two hold that. */
  predicate Redundant(views: seq<Contents>, now: nat, k: string)
    requires views != []
  {
    var acknowledged := Lookup(views[0], now, k);
    && (forall r :: 0 <= r < |views| && Lookup(views[r], now, k).status == OK ==>
          Same(Lookup(views[r], now, k), acknowledged))
    && (acknowledged.status == OK ==> exists r :: 1 <= r < |views| && Lookup(views[r], now, k).status == OK)
  }

  /** Where a replica that is not lost stands afterwards. */
  lemma AfterAt(views: seq<Contents>, loss: Loss, r: nat)
    requires loss.r < |views| && r < |views| && r != loss.r
    ensures var i := if loss.Killed? && loss.r < r then r - 1 else r;
            i < |After(views, loss)| && After(views, loss)[i] == views[r]
  {
  }

  lemma SomebodyStillHolds(views: seq<Contents>, now: nat, k: string, loss: Loss) returns (i: nat)
    requires 2 <= |views| && Redundant(views, now, k) && loss.r < |views|
    requires Lookup(views[0], now, k).status == OK
    ensures i < |After(views, loss)| && Lookup(After(views, loss)[i], now, k).status == OK
  {
    var r :| 1 <= r < |views| && Lookup(views[r], now, k).status == OK;
    var survivor := if loss.r == 0 then r else 0;
    AfterAt(views, loss, survivor);
    i := if loss.Killed? && loss.r < survivor then survivor - 1 else survivor;
  }

  lemma RedundantSurvives(views: seq<Contents>, now: nat, k: string, loss: Loss, a: Answer)
    requires 2 <= |views| && Redundant(views, now, k)
    requires loss.r < |views| && MayAnswer(After(views, loss), now, k, a)
    ensures Same(a, Lookup(views[0], now, k))
  {
    var after := After(views, loss);
    assert forall i :: 0 <= i < |after| ==> after[i] in views || after[i] == map[];
    if Lookup(views[0], now, k).status == OK {
      var i := SomebodyStillHolds(views, now, k, loss);
    }
  }

  /** One replica can be lost without any reader noticing exactly when the key is held
      redundantly; otherwise some loss shows a stale value or loses an acknowledged one. */
  lemma SurvivesIffRedundant(views: seq<Contents>, now: nat, k: string)
    requires 2 <= |views|
    ensures Survives(views, now, k) <==> Redundant(views, now, k)
  {
    var acknowledged := Lookup(views[0], now, k);
    if Redundant(views, now, k) {
      forall loss: Loss, a: Answer | loss.r < |views| && MayAnswer(After(views, loss), now, k, a)
        ensures Same(a, acknowledged)
      {
        RedundantSurvives(views, now, k, loss, a);
      }
    } else {
      var loss := Killed(0);
      var after := After(views, loss);
      assert loss.r == 0 && forall i :: 0 <= i < |after| ==> after[i] == views[i + 1];
      if r :| 0 <= r < |views| && Lookup(views[r], now, k).status == OK
              && !Same(Lookup(views[r], now, k), acknowledged) {
        assert after[r - 1] == views[r];
        assert MayAnswer(after, now, k, Lookup(views[r], now, k));
      } else {
        var miss := Answer(NOT_FOUND, "", 0);
        forall i | 0 <= i < |after|
          ensures Lookup(after[i], now, k) == miss
        {
          assert Lookup(views[i + 1], now, k).status != OK;
        }
        assert MayAnswer(after, now, k, miss);
        assert acknowledged.status == OK;
        assert !Same(miss, acknowledged);
      }
    }
  }

  // ---------- drained keys ----------

  predicate Drained(c: Cluster, k: string) {
    forall b, i :: 0 <= b < |c.backups| && 0 <= i < |c.backups[b].queue| ==> c.backups[b].queue[i].key != k
  }

  predicate SameItem(a: Contents, b: Contents, k: string) {
    (k in a <==> k in b) && (k in a ==> a[k] == b[k])
  }

  lemma {:induction false} OtherKeysLand(items: Contents, us: seq<Update>, k: string)
    requires forall i :: 0 <= i < |us| ==> us[i].key != k
    ensures SameItem(LandAll(items, us), items, k)
    decreases |us|
  {
    if us != [] {
      OtherKeysLand(Land(items, us[0]), us[1..], k);
    }
  }

  lemma DrainedViewsAgree(c: Cluster, k: string)
    requires InStep(c) && Drained(c, k)
    ensures forall r :: 0 <= r < |Views(c)| ==> SameItem(Views(c)[r], c.primary.items, k)
  {
    forall r | 0 <= r < |Views(c)|
      ensures SameItem(Views(c)[r], c.primary.items, k)
    {
      if 0 < r {
        OtherKeysLand(c.backups[r - 1].items, c.backups[r - 1].queue, k);
      }
    }
  }

  /** After the loss of one replica every other one still holds the acknowledged value, so
      any of them can decide the next write. */
  lemma SurvivorsHoldTheKey(c: Cluster, es: seq<Event>, k: string, loss: Loss, i: nat)
    requires Settled(c) && Drained(HandleAll(c, es), k)
    requires loss.r < |Views(HandleAll(c, es))| && i < |After(Views(HandleAll(c, es)), loss)|
    ensures loss.Killed? || i != loss.r ==>
              Lookup(After(Views(HandleAll(c, es)), loss)[i], HandleAll(c, es).primary.now, k)
              == GetData(Exec(c.primary, Requests(es)), k)
  {
    var c' := HandleAll(c, es);
    PrimaryIsTheSingleMap(c, es);
    DrainedViewsAgree(c', k);
    if loss.Killed? || i != loss.r {
      var was := if loss.Killed? && loss.r <= i then i + 1 else i;
      assert After(Views(c'), loss)[i] == Views(c')[was];
    }
  }

  /** Over any run of requests and deliveries: once the last acknowledged write or delete of
      a key has reached the backups, then now and at any later time, losing any one replica
      or restarting it empty leaves every get answering what the single map answers. An
      acknowledged value is not lost and a deleted one does not come back. */
  lemma DrainedKeySurvivesLoss(c: Cluster, es: seq<Event>, k: string, d: nat, loss: Loss, a: Answer)
    requires Settled(c) && c.backups != [] && Drained(HandleAll(c, es), k)
    requires loss.r < |Views(HandleAll(c, es))|
    requires MayAnswer(After(Views(HandleAll(c, es)), loss), HandleAll(c, es).primary.now + d, k, a)
    ensures Same(a, GetData(Elapse(Exec(c.primary, Requests(es)), d), k))
  {
    var c' := HandleAll(c, es);
    var (views, now) := (Views(c'), c'.primary.now + d);
    PrimaryIsTheSingleMap(c, es);
    DrainedViewsAgree(c', k);
    assert views[0] == c'.primary.items;
    assert forall r :: 0 <= r < |views| ==> Lookup(views[r], now, k) == Lookup(views[0], now, k);
    assert SameItem(views[1], c'.primary.items, k);
    assert Lookup(views[1], now, k) == Lookup(views[0], now, k);
    RedundantSurvives(views, now, k, loss, a);
  }

  lemma {:induction false} NoneLeftWithout(us: seq<Update>, k: string)
    ensures forall i :: 0 <= i < |Without(us, k)| ==> Without(us, k)[i].key != k
  {
    if us != [] {
      NoneLeftWithout(us[1..], k);
    }
  }

  /** A delete is visible at once, whatever of the key was still on its way: no replica can
      give it any more. */
  lemma DeleteIsVisibleAtOnce(c: Cluster, k: string, a: Answer)
    requires InStep(c)
    requires var c' := Handle(c, Request(Remove(k))); MayAnswer(Views(c'), c'.primary.now, k, a)
    ensures a.status == NOT_FOUND
  {
    var c' := Handle(c, Request(Remove(k)));
    HandleStaysInStep(c, Request(Remove(k)));
    forall b | 0 <= b < |c.backups|
      ensures forall i :: 0 <= i < |c'.backups[b].queue| ==> c'.backups[b].queue[i].key != k
    {
      NoneLeftWithout(c.backups[b].queue + [Deleted(k)], k);
    }
    assert Drained(c', k);
    DrainedViewsAgree(c', k);
    assert k !in c'.primary.items;
  }

  /** Every backup either still has the update to come or has taken it in. */
  ghost predicate OneUpdateAway(backups: seq<Backup>, items: Contents, u: Update) {
    forall b :: 0 <= b < |backups| ==> backups[b] == Backup(items, [u]) || backups[b] == Backup(Land(items, u), [])
  }

  lemma {:induction false} DeliveriesArrive(c: Cluster, es: seq<Event>, items: Contents, u: Update)
    requires OneUpdateAway(c.backups, items, u) && forall i :: 0 <= i < |es| ==> es[i].Deliver?
    ensures var c' := HandleAll(c, es);
            OneUpdateAway(c'.backups, items, u) && |c'.backups| == |c.backups| && c'.primary == c.primary
    decreases |es|
  {
    if es != [] {
      DeliveriesArrive(Handle(c, es[0]), es[1..], items, u);
    }
  }

  lemma OldOrGone(c: Cluster, items: Contents, u: Update, before: Answer)
    requires OneUpdateAway(c.backups, items, u) && c.primary.items == Land(items, u)
    requires before.status == OK && Lookup(items, c.primary.now, u.key) == before
    requires Lookup(Land(items, u), c.primary.now, u.key) == Answer(NOT_FOUND, "", 0)
    ensures MayAnswer(Views(c), c.primary.now, u.key, before) <==> !Drained(c, u.key)
    ensures MayAnswer(Views(c), c.primary.now, u.key, Answer(NOT_FOUND, "", 0)) <==> Drained(c, u.key)
  {
    var (views, now) := (Views(c), c.primary.now);
    assert forall b :: 0 <= b < |c.backups| ==> views[b + 1] == c.backups[b].items;
    if b :| 0 <= b < |c.backups| && c.backups[b] == Backup(items, [u]) {
      assert c.backups[b].queue[0].key == u.key;
      assert Lookup(views[b + 1], now, u.key) == before;
    } else {
      assert forall r :: 0 <= r < |views| ==> views[r] == Land(items, u);
    }
  }

  /** The write of the next lemma, at the primary and on its way. */
  lemma TtlZeroIsSent(c: Cluster, k: string, data: string, u: Update)
    requires Settled(c) && c.primary.Live(k)
    requires u == Stored(k, Item(data, c.primary.nextCas, c.primary.now))
    ensures var c1 := Handle(c, Request(Put(k, data, GetData(c.primary, k).cas, 0)));
            && OneUpdateAway(c1.backups, c.primary.items, u)
            && c1.primary.items == Land(c.primary.items, u) && c1.primary.now == c.primary.now
  {
  }

  /** A write with lifetime 0 is not: whatever has been delivered since, a get can still give
      the old value exactly as long as some backup has not heard of the write, and can miss
      exactly when all of them have. */
  lemma TtlZeroIsNotVisibleAtOnce(c: Cluster, k: string, data: string, es: seq<Event>)
    requires Settled(c) && c.primary.Live(k) && forall i :: 0 <= i < |es| ==> es[i].Deliver?
    ensures var before := GetData(c.primary, k);
            var c' := HandleAll(Handle(c, Request(Put(k, data, before.cas, 0))), es);
            && GetData(c'.primary, k).status == NOT_FOUND
            && (MayAnswer(Views(c'), c'.primary.now, k, before) <==> !Drained(c', k))
            && (MayAnswer(Views(c'), c'.primary.now, k, Answer(NOT_FOUND, "", 0)) <==> Drained(c', k))
  {
    var before := GetData(c.primary, k);
    var c1 := Handle(c, Request(Put(k, data, before.cas, 0)));
    var u := Stored(k, Item(data, c.primary.nextCas, c.primary.now));
    TtlZeroIsSent(c, k, data, u);
    DeliveriesArrive(c1, es, c.primary.items, u);
    OldOrGone(HandleAll(c1, es), c.primary.items, u, before);
  }
}
