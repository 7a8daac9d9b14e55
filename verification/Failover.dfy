/** The replicated store after one replica has been lost and another one decides: the
    survivors go on as the single map that begins with what had been acknowledged. */
module Failover {
  import opened Sums
  import opened VersionedStore
  import opened Replication
  import opened Durability

  /** With all that is on its way taken in, a backup holds of the key what the primary holds,
      or nothing, as one does that came back empty and has not been written to since. */
  ghost predicate OneKey(c: Cluster, k: string) {
    && c.primary.Valid()
    && forall b :: 0 <= b < |c.backups| ==>
         AlikeOrGone(LandAll(c.backups[b].items, c.backups[b].queue), c.primary.items, k)
  }

  predicate AlikeOrGone(held: Contents, items: Contents, k: string) {
    SameItem(held, items, k) || k !in held
  }

  lemma SentKeepsAlike(s: Store, op: Op, held: Contents, k: string)
    requires AlikeOrGone(held, s.items, k)
    ensures AlikeOrGone(LandAll(held, Sent(s, op)), Do(s, op).items, k)
  {
  }

  lemma HandleKeepsOneKey(c: Cluster, e: Event, k: string)
    requires OneKey(c, k)
    ensures OneKey(Handle(c, e), k)
    ensures e.Request? ==> Handle(c, e).primary == Do(c.primary, e.op)
    ensures e.Deliver? ==> Handle(c, e).primary == c.primary
  {
    if e.Request? {
      forall b | 0 <= b < |c.backups|
        ensures var backup := Handle(c, e).backups[b];
                AlikeOrGone(LandAll(backup.items, backup.queue), Do(c.primary, e.op).items, k)
      {
        var (backup, sent) := (c.backups[b], Sent(c.primary, e.op));
        LandAllSplit(backup.items, backup.queue, sent);
        DrainLandsTheSame(Enqueue(backup, sent), if e.op.Remove? then e.op.key else "");
        SentKeepsAlike(c.primary, e.op, LandAll(backup.items, backup.queue), k);
      }
    }
  }

  lemma {:induction false} RunKeepsOneKey(c: Cluster, es: seq<Event>, k: string)
    requires OneKey(c, k)
    ensures OneKey(HandleAll(c, es), k) && HandleAll(c, es).primary == Exec(c.primary, Requests(es))
    decreases |es|
  {
    if es != [] {
      HandleKeepsOneKey(c, es[0], k);
      RunKeepsOneKey(Handle(c, es[0]), es[1..], k);
      if es[0].Request? {
        assert Requests(es)[0] == es[0].op && Requests(es)[1..] == Requests(es[1..]);
      } else {
        assert Requests(es) == Requests(es[1..]);
      }
    }
  }

  /** Once drained, whichever replica answers gives what the primary gives. */
  lemma OneKeyAnswer(c: Cluster, k: string, d: nat, a: Answer)
    requires OneKey(c, k) && Drained(c, k)
    ensures MayAnswer(Views(c), c.primary.now + d, k, a) <==> a == GetData(Elapse(c.primary, d), k)
  {
    var (views, now) := (Views(c), c.primary.now + d);
    forall r | 0 <= r < |views|
      ensures AlikeOrGone(views[r], c.primary.items, k)
    {
      if 0 < r {
        OtherKeysLand(c.backups[r - 1].items, c.backups[r - 1].queue, k);
      }
    }
    assert views[0] == c.primary.items;
    assert Lookup(views[0], now, k) == GetData(Elapse(c.primary, d), k);
  }

  /** What is left after the loss, with the survivor number `i` promoted: replicas that hold
      what they held, with nothing of the key on its way. */
  ghost predicate Promoted(c: Cluster, loss: Loss, i: nat, k: string, survivors: Cluster)
    requires loss.r < |Views(c)|
  {
    var left := After(Views(c), loss);
    && i < |left| && (loss.Killed? || i != loss.r)
    && survivors.primary.Valid() && survivors.primary.items == left[i] && survivors.primary.now == c.primary.now
    && (forall b :: 0 <= b < |survivors.backups| ==> survivors.backups[b].items in left)
    && Drained(survivors, k)
  }

  lemma {:induction false} TokensBelow(items: Contents, keys: set<string>) returns (top: nat)
    requires keys <= items.Keys
    ensures 0 < top && forall k :: k in keys ==> items[k].cas < top
    decreases |keys|
  {
    top := 1;
    if k :| k in keys {
      top := TokensBelow(items, keys - {k});
      top := if top <= items[k].cas then items[k].cas + 1 else top;
      forall j | j in keys
        ensures items[j].cas < top
      {
        assert j == k || j in keys - {k};
      }
    }
  }

  /** Any survivor can be promoted, with all the others behind it. */
  lemma AnySurvivorCanDecide(c: Cluster, loss: Loss, i: nat, k: string) returns (survivors: Cluster)
    requires c.primary.Valid() && loss.r < |Views(c)| && i < |After(Views(c), loss)| && (loss.Killed? || i != loss.r)
    requires forall key :: key in After(Views(c), loss)[i] ==> 0 < After(Views(c), loss)[i][key].cas
    ensures Promoted(c, loss, i, k, survivors) && |survivors.backups| == |After(Views(c), loss)| - 1
  {
    var left := After(Views(c), loss);
    var top := TokensBelow(left[i], left[i].Keys);
    var others := left[..i] + left[i + 1..];
    survivors := Cluster(Store(left[i], top, c.primary.now),
                         seq(|others|, b requires 0 <= b < |others| => Backup(others[b], [])));
  }

  lemma SurvivorsAgree(c: Cluster, es: seq<Event>, k: string, loss: Loss, i: nat, survivors: Cluster)
    requires Settled(c) && Drained(HandleAll(c, es), k) && loss.r < |Views(HandleAll(c, es))|
    requires Promoted(HandleAll(c, es), loss, i, k, survivors)
    ensures OneKey(survivors, k)
    ensures SameItem(survivors.primary.items, Exec(c.primary, Requests(es)).items, k)
    ensures survivors.primary.now == Exec(c.primary, Requests(es)).now
  {
    var c' := HandleAll(c, es);
    var (views, left) := (Views(c'), After(Views(c'), loss));
    PrimaryIsTheSingleMap(c, es);
    DrainedViewsAgree(c', k);
    assert forall j :: 0 <= j < |left| ==> left[j] in views || left[j] == map[];
    assert forall v :: v in views ==> SameItem(v, c'.primary.items, k);
    if loss.Killed? || i != loss.r {
      assert left[i] in views;
    }
    forall b | 0 <= b < |survivors.backups|
      ensures AlikeOrGone(LandAll(survivors.backups[b].items, survivors.backups[b].queue), left[i], k)
    {
      OtherKeysLand(survivors.backups[b].items, survivors.backups[b].queue, k);
    }
  }

  /** The survivors begin with the acknowledged value, whichever of them decides, and then
      over any run of requests and deliveries, once the key's updates have been delivered,
      any of them answers as the single map of those requests does, now and later. That
      holds too if the lost replica has come back empty and nobody has filled it. */
  lemma SurvivorsAnswerAsTheSingleMap(c: Cluster, es: seq<Event>, k: string, loss: Loss, i: nat, survivors: Cluster,
                                      fs: seq<Event>, d: nat, a: Answer)
    requires Settled(c) && Drained(HandleAll(c, es), k) && loss.r < |Views(HandleAll(c, es))|
    requires Promoted(HandleAll(c, es), loss, i, k, survivors) && Drained(HandleAll(survivors, fs), k)
    ensures GetData(survivors.primary, k) == GetData(Exec(c.primary, Requests(es)), k)
    ensures MayAnswer(Views(HandleAll(survivors, fs)), HandleAll(survivors, fs).primary.now + d, k, a) <==>
              a == GetData(Elapse(Exec(survivors.primary, Requests(fs)), d), k)
  {
    SurvivorsAgree(c, es, k, loss, i, survivors);
    SurvivorsRun(survivors, k, fs, d, a);
  }

  lemma SurvivorsRun(survivors: Cluster, k: string, fs: seq<Event>, d: nat, a: Answer)
    requires OneKey(survivors, k) && Drained(HandleAll(survivors, fs), k)
    ensures var end := HandleAll(survivors, fs);
            MayAnswer(Views(end), end.primary.now + d, k, a) <==>
              a == GetData(Elapse(Exec(survivors.primary, Requests(fs)), d), k)
  {
    RunKeepsOneKey(survivors, fs, k);
    OneKeyAnswer(HandleAll(survivors, fs), k, d, a);
  }

  /** The requests are about one key, or let time pass. */
  predicate About(ops: seq<Op>, k: string) {
    forall i :: 0 <= i < |ops| ==> ops[i].Sleep? || ops[i].key == k
  }

  lemma {:induction false} SameKeyRun(s: Store, t: Store, ops: seq<Op>, k: string)
    requires SameItem(s.items, t.items, k) && s.now == t.now && s.nextCas == t.nextCas && About(ops, k)
    ensures GetData(Exec(s, ops), k) == GetData(Exec(t, ops), k)
    decreases |ops|
  {
    if ops != [] {
      SameKeyRun(Do(s, ops[0]), Do(t, ops[0]), ops[1..], k);
    }
  }

  /** To the clients of a key the failover is invisible, tokens included, if the one that
      decides goes on issuing tokens where the lost one stopped. */
  lemma FailoverIsInvisible(c: Cluster, es: seq<Event>, k: string, loss: Loss, i: nat, survivors: Cluster,
                            fs: seq<Event>, a: Answer)
    requires Settled(c) && Drained(HandleAll(c, es), k) && loss.r < |Views(HandleAll(c, es))|
    requires Promoted(HandleAll(c, es), loss, i, k, survivors) && Drained(HandleAll(survivors, fs), k)
    requires survivors.primary.nextCas == HandleAll(c, es).primary.nextCas && About(Requests(fs), k)
    ensures MayAnswer(Views(HandleAll(survivors, fs)), HandleAll(survivors, fs).primary.now, k, a) <==>
              a == GetData(Exec(c.primary, Requests(es) + Requests(fs)), k)
  {
    SurvivorsAgree(c, es, k, loss, i, survivors);
    PrimaryIsTheSingleMap(c, es);
    RunKeepsOneKey(survivors, fs, k);
    OneKeyAnswer(HandleAll(survivors, fs), k, 0, a);
    SameKeyRun(survivors.primary, Exec(c.primary, Requests(es)), Requests(fs), k);
    ExecSplit(c.primary, Requests(es), Requests(fs));
  }

  // ---------- what the failure test does next ----------

  function Queued(c: Cluster): int {
    Sum(Lengths(c))
  }

  function Lengths(c: Cluster): seq<int> {
    seq(|c.backups|, b requires 0 <= b < |c.backups| => |c.backups[b].queue|)
  }

  lemma DeliveryShortens(c: Cluster, b: nat)
    requires b < |c.backups| && c.backups[b].queue != []
    ensures 0 <= Queued(Handle(c, Deliver(b))) < Queued(c)
  {
    var c' := Handle(c, Deliver(b));
    assert Lengths(c') == Lengths(c)[b := |c.backups[b].queue| - 1];
    SumUpdate(Lengths(c), b, |c.backups[b].queue| - 1);
    SumAtMost(Lengths(c'), seq(|c'.backups|, _ => 0), 0);
    SumConstant(seq(|c'.backups|, _ => 0), 0);
  }

  lemma {:induction false} RequestsSplit(es: seq<Event>, fs: seq<Event>)
    ensures Requests(es + fs) == Requests(es) + Requests(fs)
  {
    var all := es + fs;
    if es == [] {
      assert all == fs && Requests(es) == [];
    } else {
      var (first, rest) := (if es[0].Request? then [es[0].op] else [], es[1..]);
      RequestsSplit(rest, fs);
      assert all[0] == es[0] && all[1..] == rest + fs;
      assert Requests(all) == first + Requests(rest + fs);
      Assoc(first, Requests(rest), Requests(fs));
    }
  }

  /** The events have led from one state of the cluster to the other. */
  ghost predicate Leads(c: Cluster, es: seq<Event>, c': Cluster, ops: seq<Op>) {
    c' == HandleAll(c, es) && Requests(es) == ops
  }

  lemma LeadsOn(c: Cluster, es: seq<Event>, c': Cluster, ops: seq<Op>, fs: seq<Event>, c'': Cluster, more: seq<Op>)
    requires Leads(c, es, c', ops) && Leads(c', fs, c'', more)
    ensures Leads(c, es + fs, c'', ops + more)
  {
    RunSplit(c, es, fs);
    RequestsSplit(es, fs);
  }

  lemma OneEvent(c: Cluster, e: Event)
    ensures Leads(c, [e], Handle(c, e), if e.Request? then [e.op] else [])
  {
    assert [e][1..] == [];
    assert HandleAll(c, [e]) == HandleAll(Handle(c, e), []);
  }

  /** Updates arrive, at any backups and in any order among them, at least until those of
      the key all have. */
  method Arrivals(c: Cluster, k: string) returns (c': Cluster, ghost es: seq<Event>)
    requires OneKey(c, k)
    ensures OneKey(c', k) && Drained(c', k) && c'.primary == c.primary && Leads(c, es, c', [])
  {
    c', es := c, [];
    var more: bool := *;
    while (more || !Drained(c', k)) && exists b :: 0 <= b < |c'.backups| && c'.backups[b].queue != []
      invariant OneKey(c', k) && c'.primary == c.primary && Leads(c, es, c', [])
      decreases Queued(c')
    {
      var b :| 0 <= b < |c'.backups| && c'.backups[b].queue != [];
      DeliveryShortens(c', b);
      HandleKeepsOneKey(c', Deliver(b), k);
      OneEvent(c', Deliver(b));
      LeadsOn(c, es, c', [], [Deliver(b)], Handle(c', Deliver(b)), []);
      c', es := Handle(c', Deliver(b)), es + [Deliver(b)];
      more := *;
    }
  }

  /** A set is decided by the primary and in time reaches the others. */
  method ClusterSet(c: Cluster, k: string, data: string, cas: nat, ttl: nat)
    returns (c': Cluster, rc: Status, ghost es: seq<Event>)
    requires OneKey(c, k)
    ensures OneKey(c', k) && Drained(c', k) && Leads(c, es, c', [Put(k, data, cas, ttl)])
    ensures (c'.primary, rc) == SetData(c.primary, k, data, cas, ttl)
  {
    rc := if c.primary.Accepts(k, cas) then OK else DATA_CONTENTION;
    ghost var put := Request(Put(k, data, cas, ttl));
    HandleKeepsOneKey(c, put, k);
    OneEvent(c, put);
    var sent := Handle(c, Request(Put(k, data, cas, ttl)));
    c', es := Arrivals(sent, k);
    LeadsOn(c, [put], sent, [put.op], es, c', []);
    assert [put.op] + [] == [put.op];
    es := [put] + es;
  }

  /** Any replica may answer. */
  method ClusterGet(c: Cluster, k: string) returns (a: Answer)
    requires OneKey(c, k) && Drained(c, k)
    ensures a == GetData(c.primary, k)
  {
    OneKeyAnswer(c, k, 0, GetData(c.primary, k));
    a :| MayAnswer(Views(c), c.primary.now, k, a);
    OneKeyAnswer(c, k, 0, a);
  }

  /** The sets the test makes of key `k`, which holds the token `held`, when `token` is what
      it got before the failure: it reads the token again if that is refused, tries the one
      it has used once more, and updates with the one it reads at the end. */
  function TestSets(k: string, token: nat, held: nat, next: nat, new1: string, new2: string): seq<Op> {
    (if token == held then [] else [Put(k, new1, token, 60)])
    + [Put(k, new1, held, 60), Put(k, "FAIL", held, 60), Put(k, new2, next, 60)]
  }

  /** What the failure test goes on to do once a replica has gone: update with the token it
      got before the failure, read again and retry if that is refused, then check that the
      used token is spent, and update once more. Whichever replica decides now, whichever
      answer, and whether or not the old token is still known, every expectation of the
      test is met, as long as the one that decides still has the old value. */
  method UpdateAfterFailure(survivors: Cluster, k: string, before: string, token: nat, new1: string, new2: string)
    returns (passed: bool, rcs: seq<Status>, answers: seq<Answer>, end: Cluster, ghost es: seq<Event>)
    requires OneKey(survivors, k) && token != 0 && before != new1
    requires survivors.primary.Live(k) && survivors.primary.items[k].data == before
    ensures var (s, held) := (survivors.primary, survivors.primary.items[k].cas);
            && Leads(survivors, es, end, TestSets(k, token, held, s.nextCas, new1, new2))
            && rcs == (if token == held then [] else [DATA_CONTENTION]) + [OK, DATA_CONTENTION, OK]
            && answers == (if token == held then [] else [Answer(OK, before, held)])
                          + [Answer(OK, new1, s.nextCas), Answer(OK, new2, s.nextCas + 1)]
    ensures passed && OneKey(end, k) && Drained(end, k)
  {
    ghost var s := survivors.primary;
    var cas := token;
    var c, rc;
    c, rc, es := ClusterSet(survivors, k, new1, cas, 60);
    ghost var ops, fs := [Put(k, new1, cas, 60)], [];
    passed, rcs, answers := rc == DATA_CONTENTION || rc == OK, [rc], [];
    if rc == DATA_CONTENTION {
      var stale := ClusterGet(c, k);
      cas := stale.cas;
      passed := passed && stale.status == OK && stale.data != new1;
      ghost var was := c;
      c, rc, fs := ClusterSet(c, k, new1, cas, 60);
      LeadsOn(survivors, es, was, ops, fs, c, [Put(k, new1, cas, 60)]);
      es, ops := es + fs, ops + [Put(k, new1, cas, 60)];
      passed, rcs, answers := passed && rc == OK, rcs + [rc], [stale];
    }
    assert cas == s.items[k].cas && GetData(c.primary, k) == Answer(OK, new1, s.nextCas);
    ghost var used := c;
    c, rc, fs := ClusterSet(c, k, "FAIL", cas, 60);
    LeadsOn(survivors, es, used, ops, fs, c, [Put(k, "FAIL", cas, 60)]);
    es, ops := es + fs, ops + [Put(k, "FAIL", cas, 60)];
    passed, rcs := passed && rc == DATA_CONTENTION, rcs + [rc];
    var answer := ClusterGet(c, k);
    passed, answers := passed && answer.status == OK && answer.data == new1, answers + [answer];
    ghost var read := c;
    c, rc, fs := ClusterSet(c, k, new2, answer.cas, 60);
    LeadsOn(survivors, es, read, ops, fs, c, [Put(k, new2, answer.cas, 60)]);
    es, ops := es + fs, ops + [Put(k, new2, answer.cas, 60)];
    assert ops == TestSets(k, token, s.items[k].cas, s.nextCas, new1, new2);
    passed, rcs := passed && rc == OK, rcs + [rc];
    answer := ClusterGet(c, k);
    passed, answers := passed && answer.status == OK && answer.data == new2, answers + [answer];
    end := c;
  }
}
