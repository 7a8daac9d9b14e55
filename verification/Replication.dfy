/** The replicated store, reconstructed from what the tests and their comments say: one
    primary decides every set, each backup receives the outcome later and in order, a
    delete is not acknowledged before every backup is done with the key, a get may be
    answered by any replica that holds the key, and one replica may die or come back empty. */
module Replication {
  import opened VersionedStore

  type Contents = map<string, Item>

  datatype Update = Stored(key: string, item: Item) | Deleted(key: string)

  /** A backup and the updates on their way to it, oldest first. */
  datatype Backup = Backup(items: Contents, queue: seq<Update>)

  datatype Cluster = Cluster(primary: Store, backups: seq<Backup>)

  datatype Event =
    | Request(op: Op)
    | Deliver(b: nat)

  function Land(items: Contents, u: Update): Contents {
    match u
    case Stored(k, item) => items[k := item]
    case Deleted(k) => items - {k}
  }

  function LandAll(items: Contents, us: seq<Update>): Contents
    decreases |us|
  {
    if us == [] then items else LandAll(Land(items, us[0]), us[1..])
  }

  /** The update a request sends to the backups, if it changes anything. */
  function Sent(s: Store, op: Op): seq<Update> {
    match op
    case Put(k, data, cas, ttl) =>
      if s.Accepts(k, cas) then [Stored(k, Item(data, s.nextCas, s.now + ttl))] else []
    case Remove(k) => [Deleted(k)]
    case Sleep(_) => []
  }

  function Enqueue(backup: Backup, us: seq<Update>): Backup {
    backup.(queue := backup.queue + us)
  }

  /** The updates of one key. */
  function Only(us: seq<Update>, k: string): seq<Update> {
    if us == [] then [] else (if us[0].key == k then [us[0]] else []) + Only(us[1..], k)
  }

  function Without(us: seq<Update>, k: string): seq<Update> {
    if us == [] then [] else (if us[0].key == k then [] else [us[0]]) + Without(us[1..], k)
  }

  /** Takes in all that is queued for one key, ahead of what is queued for others. */
  function Drain(backup: Backup, k: string): Backup {
    Backup(LandAll(backup.items, Only(backup.queue, k)), Without(backup.queue, k))
  }

  /** A request is decided at the primary and forwarded; a delete waits until the backups
      are done with its key. */
  function Handle(c: Cluster, e: Event): Cluster {
    match e
    case Request(op) =>
      Cluster(Do(c.primary, op),
              seq(|c.backups|, b requires 0 <= b < |c.backups| =>
                var queued := Enqueue(c.backups[b], Sent(c.primary, op));
                if op.Remove? then Drain(queued, op.key) else queued))
    case Deliver(b) =>
      if b < |c.backups| && c.backups[b].queue != [] then
        var backup := c.backups[b];
        c.(backups := c.backups[b := Backup(Land(backup.items, backup.queue[0]), backup.queue[1..])])
      else c
  }

  function HandleAll(c: Cluster, es: seq<Event>): Cluster
    decreases |es|
  {
    if es == [] then c else HandleAll(Handle(c, es[0]), es[1..])
  }

  /** What each replica holds, the primary first. */
  function Views(c: Cluster): seq<Contents> {
    [c.primary.items] + seq(|c.backups|, b requires 0 <= b < |c.backups| => c.backups[b].items)
  }

  /** A get is answered by some replica that has the key; it misses only if all of them do. */
  predicate MayAnswer(views: seq<Contents>, now: nat, k: string, a: Answer) {
    if a.status == OK then exists r :: 0 <= r < |views| && Lookup(views[r], now, k) == a
    else a == Answer(NOT_FOUND, "", 0) && forall r :: 0 <= r < |views| ==> Lookup(views[r], now, k) == a
  }

  // ---------- every replica trails the primary ----------

  ghost predicate InStep(c: Cluster) {
    && c.primary.Valid()
    && forall b :: 0 <= b < |c.backups| ==> LandAll(c.backups[b].items, c.backups[b].queue) == c.primary.items
  }

  lemma {:induction false} LandAllSplit(items: Contents, us: seq<Update>, vs: seq<Update>)
    ensures LandAll(items, us + vs) == LandAll(LandAll(items, us), vs)
    decreases |us|
  {
    if us == [] {
      assert us + vs == vs;
    } else {
      assert (us + vs)[1..] == us[1..] + vs;
      LandAllSplit(Land(items, us[0]), us[1..], vs);
    }
  }

  lemma SentLands(s: Store, op: Op)
    ensures LandAll(s.items, Sent(s, op)) == Do(s, op).items
  {
  }

  lemma Assoc<T>(a: seq<T>, b: seq<T>, c: seq<T>)
    ensures a + (b + c) == (a + b) + c
  {
  }

  lemma {:induction false} OnlySplit(us: seq<Update>, vs: seq<Update>, k: string)
    ensures Only(us + vs, k) == Only(us, k) + Only(vs, k)
  {
    var all := us + vs;
    if us == [] {
      assert all == vs && Only(us, k) == [];
    } else {
      var (first, rest) := (if us[0].key == k then [us[0]] else [], us[1..]);
      OnlySplit(rest, vs, k);
      assert all[0] == us[0] && all[1..] == rest + vs;
      assert Only(all, k) == first + Only(rest + vs, k);
      Assoc(first, Only(rest, k), Only(vs, k));
    }
  }

  lemma {:induction false} OnlyOfWithout(us: seq<Update>, k: string, other: string)
    ensures Only(Without(us, k), other) == if other == k then [] else Only(us, other)
  {
    if us != [] {
      OnlyOfWithout(us[1..], k, other);
      OnlySplit(if us[0].key == k then [] else [us[0]], Without(us[1..], k), other);
    }
  }

  lemma {:induction false} OnlyOfOnly(us: seq<Update>, k: string, other: string)
    ensures Only(Only(us, k), other) == if other == k then Only(us, k) else []
  {
    if us != [] {
      OnlyOfOnly(us[1..], k, other);
      OnlySplit(if us[0].key == k then [us[0]] else [], Only(us[1..], k), other);
    }
  }

  /** What is held under one key. */
  function Restrict(items: Contents, k: string): Contents {
    if k in items then map[k := items[k]] else map[]
  }

  /** Only the updates of a key matter to it. */
  lemma {:induction false} RestrictLands(items: Contents, us: seq<Update>, k: string)
    ensures Restrict(LandAll(items, us), k) == LandAll(Restrict(items, k), Only(us, k))
    decreases |us|
  {
    if us != [] {
      RestrictLands(Land(items, us[0]), us[1..], k);
      if us[0].key == k {
        assert Only(us, k)[1..] == Only(us[1..], k);
        assert Land(Restrict(items, k), us[0]) == Restrict(Land(items, us[0]), k);
      } else {
        assert Only(us, k) == Only(us[1..], k);
      }
    }
  }

  lemma SameByKey(a: Contents, b: Contents)
    requires forall k :: Restrict(a, k) == Restrict(b, k)
    ensures a == b
  {
    forall k
      ensures (k in a <==> k in b) && (k in a ==> a[k] == b[k])
    {
      assert k in a <==> k in Restrict(a, k);
      assert k in b <==> k in Restrict(b, k);
      assert k in a ==> Restrict(a, k)[k] == Restrict(b, k)[k];
    }
  }

  /** Taking a key's updates in ahead of the others' ends in the same place. */
  lemma DrainLandsTheSame(backup: Backup, k: string)
    ensures LandAll(Drain(backup, k).items, Drain(backup, k).queue) == LandAll(backup.items, backup.queue)
  {
    var (items, us) := (backup.items, backup.queue);
    var (first, rest) := (Only(us, k), Without(us, k));
    LandAllSplit(items, first, rest);
    forall j
      ensures Restrict(LandAll(items, first + rest), j) == Restrict(LandAll(items, us), j)
    {
      RestrictLands(items, first + rest, j);
      RestrictLands(items, us, j);
      OnlySplit(first, rest, j);
      OnlyOfOnly(us, k, j);
      OnlyOfWithout(us, k, j);
      assert Only(first + rest, j) == Only(us, j);
    }
    SameByKey(LandAll(items, first + rest), LandAll(items, us));
  }

  lemma HandleStaysInStep(c: Cluster, e: Event)
    requires InStep(c)
    ensures InStep(Handle(c, e)) && |Handle(c, e).backups| == |c.backups|
  {
    if e.Request? {
      SentLands(c.primary, e.op);
      forall b | 0 <= b < |c.backups|
        ensures var backup := Handle(c, e).backups[b];
                LandAll(backup.items, backup.queue) == Handle(c, e).primary.items
      {
        LandAllSplit(c.backups[b].items, c.backups[b].queue, Sent(c.primary, e.op));
        DrainLandsTheSame(Enqueue(c.backups[b], Sent(c.primary, e.op)), if e.op.Remove? then e.op.key else "");
      }
    }
  }

  /** The updates committed by a run, in the order the primary took them. */
  function Log(c: Cluster, es: seq<Event>): seq<Update>
    decreases |es|
  {
    if es == [] then []
    else (if es[0].Request? then Sent(c.primary, es[0].op) else []) + Log(Handle(c, es[0]), es[1..])
  }

  lemma {:induction false} RunSplit(c: Cluster, es: seq<Event>, fs: seq<Event>)
    ensures HandleAll(c, es + fs) == HandleAll(HandleAll(c, es), fs)
    ensures Log(c, es + fs) == Log(c, es) + Log(HandleAll(c, es), fs)
    decreases |es|
  {
    if es == [] {
      assert es + fs == fs;
    } else {
      assert (es + fs)[1..] == es[1..] + fs;
      RunSplit(Handle(c, es[0]), es[1..], fs);
    }
  }

  /** The primary is the single map of the same requests: deliveries do not show in it. */
  function Requests(es: seq<Event>): seq<Op> {
    if es == [] then [] else (if es[0].Request? then [es[0].op] else []) + Requests(es[1..])
  }

  lemma {:induction false} PrimaryIsTheSingleMap(c: Cluster, es: seq<Event>)
    requires InStep(c)
    ensures HandleAll(c, es).primary == Exec(c.primary, Requests(es))
    ensures HandleAll(c, es).primary.items == LandAll(c.primary.items, Log(c, es))
    ensures InStep(HandleAll(c, es)) && |HandleAll(c, es).backups| == |c.backups|
    decreases |es|
  {
    if es != [] {
      HandleStaysInStep(c, es[0]);
      PrimaryIsTheSingleMap(Handle(c, es[0]), es[1..]);
      if es[0].Deliver? {
        assert Requests(es) == Requests(es[1..]) && Log(c, es) == Log(Handle(c, es[0]), es[1..]);
      } else {
        assert Requests(es)[1..] == Requests(es[1..]);
        SentLands(c.primary, es[0].op);
        LandAllSplit(c.primary.items, Sent(c.primary, es[0].op), Log(Handle(c, es[0]), es[1..]));
      }
    }
  }

  /** What a backup has of one key, and has coming. */
  function KeyView(backup: Backup, k: string): Backup {
    Backup(Restrict(backup.items, k), Only(backup.queue, k))
  }

  /** All the updates of one key that have ever been on their way to backup `b`. */
  function Bound(c: Cluster, es: seq<Event>, b: nat, k: string): seq<Update>
    requires b < |c.backups|
  {
    Only(c.backups[b].queue, k) + Only(Log(c, es), k)
  }

  /** How many of them backup `b` has taken in by the end of the run. */
  function Delivered(c: Cluster, es: seq<Event>, b: nat, k: string): int
    requires b < |c.backups| == |HandleAll(c, es).backups|
  {
    |Bound(c, es, b, k)| - |Only(HandleAll(c, es).backups[b].queue, k)|
  }

  /** What one event sends to every backup. */
  function Forwarded(c: Cluster, e: Event): seq<Update> {
    if e.Request? then Sent(c.primary, e.op) else []
  }

  /** What one event makes backup `b` take in of one key. */
  function Landing(c: Cluster, e: Event, b: nat, k: string): seq<Update>
    requires b < |c.backups|
  {
    var queue := c.backups[b].queue;
    if e.Request? then if e.op.Remove? && e.op.key == k then Only(queue, k) + Sent(c.primary, e.op) else []
    else if e.b == b && queue != [] && queue[0].key == k then [queue[0]] else []
  }

  lemma DrainedView(backup: Backup, key: string, k: string)
    ensures KeyView(Drain(backup, key), k)
            == if key == k then Backup(LandAll(Restrict(backup.items, k), Only(backup.queue, k)), [])
               else KeyView(backup, k)
  {
    RestrictLands(backup.items, Only(backup.queue, key), k);
    OnlyOfOnly(backup.queue, key, k);
    OnlyOfWithout(backup.queue, key, k);
  }

  lemma RequestLands(c: Cluster, op: Op, b: nat, k: string)
    requires b < |c.backups|
    ensures var (backup, c', head) := (c.backups[b], Handle(c, Request(op)), Landing(c, Request(op), b, k));
            && |c'.backups| == |c.backups|
            && KeyView(c'.backups[b], k).items == LandAll(Restrict(backup.items, k), head)
            && Only(backup.queue, k) + Only(Sent(c.primary, op), k) == head + Only(c'.backups[b].queue, k)
  {
    var (queue, sent) := (c.backups[b].queue, Sent(c.primary, op));
    OnlySplit(queue, sent, k);
    if op.Remove? {
      DrainedView(Enqueue(c.backups[b], sent), op.key, k);
      assert Only(sent, k) == if op.key == k then sent else [];
    }
  }

  lemma HandleLands(c: Cluster, e: Event, b: nat, k: string)
    requires b < |c.backups|
    ensures |Handle(c, e).backups| == |c.backups|
    ensures var (backup, backup', head) := (c.backups[b], Handle(c, e).backups[b], Landing(c, e, b, k));
            && KeyView(backup', k).items == LandAll(Restrict(backup.items, k), head)
            && Only(backup.queue, k) + Only(Forwarded(c, e), k) == head + Only(backup'.queue, k)
  {
    if e.Request? {
      RequestLands(c, e.op, b, k);
    } else if e.b == b && c.backups[b].queue != [] {
      var (items, first) := (c.backups[b].items, c.backups[b].queue[..1]);
      assert first[1..] == [] && LandAll(items, first) == LandAll(Land(items, first[0]), first[1..]);
      RestrictLands(items, first, k);
    }
  }

  lemma SliceAfter<T>(head: seq<T>, rest: seq<T>, d: nat)
    requires d <= |rest|
    ensures (head + rest)[..|head| + d] == head + rest[..d]
    ensures (head + rest)[|head| + d..] == rest[d..]
  {
  }

  lemma Regroup<T>(a: seq<T>, b: seq<T>, x: seq<T>, y: seq<T>, c: seq<T>)
    requires a + b == x + y
    ensures a + (b + c) == x + (y + c)
  {
    assert a + (b + c) == (a + b) + c;
    assert x + (y + c) == (x + y) + c;
  }

  /** Taking in `head` and then a prefix of the rest is taking in a longer prefix. */
  lemma PrefixExtends(from: Backup, now: seq<Update>, head: seq<Update>, next: Backup, later: seq<Update>, d: nat,
                      end: Backup)
    requires next.items == LandAll(from.items, head) && from.queue + now == head + next.queue
    requires d <= |next.queue + later|
    requires end == Backup(LandAll(next.items, (next.queue + later)[..d]), (next.queue + later)[d..])
    ensures var sent := from.queue + (now + later);
            && |head| + d <= |sent|
            && end == Backup(LandAll(from.items, sent[..|head| + d]), sent[|head| + d..])
  {
    Regroup(from.queue, now, head, next.queue, later);
    SliceAfter(head, next.queue + later, d);
    LandAllSplit(from.items, head, (next.queue + later)[..d]);
  }

  lemma {:induction false} BackupTakesSome(c: Cluster, es: seq<Event>, b: nat, k: string) returns (d: nat)
    requires b < |c.backups|
    ensures |HandleAll(c, es).backups| == |c.backups|
    ensures var sent := Bound(c, es, b, k);
            && d <= |sent|
            && KeyView(HandleAll(c, es).backups[b], k)
               == Backup(LandAll(Restrict(c.backups[b].items, k), sent[..d]), sent[d..])
    decreases |es|
  {
    if es == [] {
      assert Only(c.backups[b].queue, k) + [] == Only(c.backups[b].queue, k);
      d := 0;
    } else {
      var (c', head) := (Handle(c, es[0]), Landing(c, es[0], b, k));
      HandleLands(c, es[0], b, k);
      var d' := BackupTakesSome(c', es[1..], b, k);
      OnlySplit(Forwarded(c, es[0]), Log(c', es[1..]), k);
      PrefixExtends(KeyView(c.backups[b], k), Only(Forwarded(c, es[0]), k), head, KeyView(c'.backups[b], k),
                    Only(Log(c', es[1..]), k), d', KeyView(HandleAll(c, es).backups[b], k));
      d := |head| + d';
    }
  }

  /** Key by key, a backup has taken in a prefix of the committed updates, and the rest is
      queued. */
  lemma BackupTakesAPrefix(c: Cluster, es: seq<Event>, b: nat, k: string)
    requires b < |c.backups|
    ensures |HandleAll(c, es).backups| == |c.backups|
    ensures var (sent, d) := (Bound(c, es, b, k), Delivered(c, es, b, k));
            && 0 <= d <= |sent|
            && KeyView(HandleAll(c, es).backups[b], k)
               == Backup(LandAll(Restrict(c.backups[b].items, k), sent[..d]), sent[d..])
  {
    var d := BackupTakesSome(c, es, b, k);
  }

  /** The moment of the run by which `d` updates of the key had been committed. */
  function Moment(c: Cluster, es: seq<Event>, k: string, d: int): nat
    decreases |es|
  {
    if d <= 0 || es == [] then 0
    else 1 + Moment(Handle(c, es[0]), es[1..], k, d - |Only(Forwarded(c, es[0]), k)|)
  }

  lemma AtMostOneForwarded(c: Cluster, e: Event, k: string)
    ensures |Only(Forwarded(c, e), k)| <= 1
  {
  }

  lemma LogTail(c: Cluster, es: seq<Event>, k: string, m: nat)
    requires 0 < m <= |es|
    ensures Only(Log(c, es[..m]), k)
            == Only(Forwarded(c, es[0]), k) + Only(Log(Handle(c, es[0]), es[1..][..m - 1]), k)
  {
    assert es[..m][1..] == es[1..][..m - 1];
    OnlySplit(Forwarded(c, es[0]), Log(Handle(c, es[0]), es[1..][..m - 1]), k);
  }

  lemma LogWhole(c: Cluster, es: seq<Event>, k: string)
    requires es != []
    ensures Only(Log(c, es), k) == Only(Forwarded(c, es[0]), k) + Only(Log(Handle(c, es[0]), es[1..]), k)
  {
    assert es[..|es|] == es && es[1..][..|es| - 1] == es[1..];
    LogTail(c, es, k, |es|);
  }

  lemma {:induction false} MomentLog(c: Cluster, es: seq<Event>, k: string, d: int)
    requires 0 <= d <= |Only(Log(c, es), k)|
    ensures Moment(c, es, k, d) <= |es|
    ensures Only(Log(c, es[..Moment(c, es, k, d)]), k) == Only(Log(c, es), k)[..d]
    decreases |es|
  {
    if 0 < d {
      var (c', rest, sent) := (Handle(c, es[0]), es[1..], Only(Forwarded(c, es[0]), k));
      var m := Moment(c', rest, k, d - |sent|);
      AtMostOneForwarded(c, es[0], k);
      LogWhole(c, es, k);
      MomentLog(c', rest, k, d - |sent|);
      LogTail(c, es, k, 1 + m);
      SliceAfter(sent, Only(Log(c', rest), k), d - |sent|);
    } else {
      assert es[..0] == [];
    }
  }

  lemma {:induction false} MomentMonotone(c: Cluster, es: seq<Event>, k: string, d: int, d': int)
    requires d <= d'
    ensures Moment(c, es, k, d) <= Moment(c, es, k, d')
    decreases |es|
  {
    if 0 < d && es != [] {
      var sent := |Only(Forwarded(c, es[0]), k)|;
      MomentMonotone(Handle(c, es[0]), es[1..], k, d - sent, d' - sent);
    }
  }

  /** Nothing is on its way and every backup holds what the primary holds. */
  ghost predicate Settled(c: Cluster) {
    && c.primary.Valid()
    && forall b :: 0 <= b < |c.backups| ==> c.backups[b] == Backup(c.primary.items, [])
  }

  lemma BackupIsAtMoment(c: Cluster, es: seq<Event>, fs: seq<Event>, b: nat, k: string)
    requires Settled(c) && b < |c.backups|
    ensures |HandleAll(c, es).backups| == |c.backups|
    ensures var (d, run) := (Delivered(c, es, b, k), es + fs);
            && 0 <= d <= |Only(Log(c, run), k)| && Moment(c, run, k, d) <= |run|
            && Restrict(HandleAll(c, es).backups[b].items, k)
               == Restrict(HandleAll(c, run[..Moment(c, run, k, d)]).primary.items, k)
  {
    BackupTakesAPrefix(c, es, b, k);
    RunSplit(c, es, fs);
    var (d, run) := (Delivered(c, es, b, k), es + fs);
    OnlySplit(Log(c, es), Log(HandleAll(c, es), fs), k);
    assert Bound(c, es, b, k) == Only(Log(c, es), k);
    assert Only(Log(c, run), k)[..d] == Only(Log(c, es), k)[..d];
    MomentLog(c, run, k, d);
    var past := run[..Moment(c, run, k, d)];
    PrimaryIsTheSingleMap(c, past);
    RestrictLands(c.primary.items, Log(c, past), k);
  }

  /** Under every key, a backup always holds exactly what the primary held at some earlier
      moment of the run, and as the run goes on that moment never moves back: a reader that
      stays with one backup never sees an older value after a newer one. */
  lemma BackupsTrailThePrimary(c: Cluster, es: seq<Event>, fs: seq<Event>, b: nat, k: string)
    requires Settled(c) && b < |c.backups|
    ensures |HandleAll(c, es).backups| == |HandleAll(c, es + fs).backups| == |c.backups|
    ensures var run := es + fs;
            exists i, j ::
              && 0 <= i <= j <= |run|
              && Restrict(HandleAll(c, es).backups[b].items, k) == Restrict(HandleAll(c, run[..i]).primary.items, k)
              && Restrict(HandleAll(c, run).backups[b].items, k) == Restrict(HandleAll(c, run[..j]).primary.items, k)
  {
    var run := es + fs;
    RunSplit(c, es, fs);
    BackupTakesAPrefix(c, es, b, k);
    BackupTakesAPrefix(c, run, b, k);
    BackupTakesAPrefix(HandleAll(c, es), fs, b, k);
    OnlySplit(Log(c, es), Log(HandleAll(c, es), fs), k);
    assert Delivered(c, es, b, k) <= Delivered(c, run, b, k);
    BackupIsAtMoment(c, es, fs, b, k);
    BackupIsAtMoment(c, run, [], b, k);
    assert run + [] == run;
    MomentMonotone(c, run, k, Delivered(c, es, b, k), Delivered(c, run, b, k));
  }
}
