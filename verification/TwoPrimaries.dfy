/** Why the thrash test's threads must agree which replica is the primary. Here they do not:
    there are two nodes, each thread has its writes decided at the one it takes for the
    primary, and each node forwards what it has taken to the other. */
module TwoPrimaries {
  import opened Decimal
  import opened VersionedStore
  import opened Thrash
  import opened Replication

  /** A node and the updates on their way to it from the other. */
  datatype Node = Node(store: Store, inbox: seq<Update>)

  datatype SplitWorld = SplitWorld(nodes: seq<Node>, threads: seq<Thread>)

  datatype SplitAction = Get(t: nat, seen: Answer) | Set(t: nat) | Arrive(n: nat)

  /** The node a thread takes for the primary. */
  function PrimaryOf(t: nat): nat {
    t % 2
  }

  function Holdings(w: SplitWorld): seq<Contents> {
    seq(|w.nodes|, n requires 0 <= n < |w.nodes| => w.nodes[n].store.items)
  }

  predicate SplitEnabled(p: Plan, w: SplitWorld, a: SplitAction) {
    && |w.nodes| == 2
    && match a
       case Get(t, seen) =>
         && t < |w.threads| && Busy(p, w.threads[t]) && w.threads[t].phase.Reading?
         && MayAnswer(Holdings(w), w.nodes[0].store.now, p.keys[w.threads[t].k], seen)
       case Set(t) => t < |w.threads| && Busy(p, w.threads[t]) && w.threads[t].phase.Writing?
       case Arrive(n) => n < 2 && w.nodes[n].inbox != []
  }

  /** The same loop as against a single store: a refused thread starts over. */
  function SplitApply(p: Plan, w: SplitWorld, a: SplitAction): SplitWorld
    requires SplitEnabled(p, w, a)
  {
    match a
    case Get(t, seen) =>
      w.(threads := w.threads[t := w.threads[t].(phase := Writing(Atoi(seen.data) + 1, seen.cas))])
    case Set(t) =>
      var (th, n) := (w.threads[t], PrimaryOf(t));
      var (here, there) := (w.nodes[n], w.nodes[1 - n]);
      var put := Put(p.keys[th.k], PrintInt(th.phase.value), th.phase.cas, INCREMENT_TTL);
      SplitWorld(w.nodes[n := here.(store := Do(here.store, put))]
                   [1 - n := there.(inbox := there.inbox + Sent(here.store, put))],
                 w.threads[t := if here.store.Accepts(put.key, put.cas) then Advance(p, th) else th.(phase := Reading)])
    case Arrive(n) =>
      var (store, inbox) := (w.nodes[n].store, w.nodes[n].inbox);
      w.(nodes := w.nodes[n := Node(store.(items := Land(store.items, inbox[0])), inbox[1..])])
  }

  predicate SplitRun(p: Plan, w: SplitWorld, acts: seq<SplitAction>)
    decreases |acts|
  {
    acts == [] || (SplitEnabled(p, w, acts[0]) && SplitRun(p, SplitApply(p, w, acts[0]), acts[1..]))
  }

  function SplitEnd(p: Plan, w: SplitWorld, acts: seq<SplitAction>): SplitWorld
    requires SplitRun(p, w, acts)
    decreases |acts|
  {
    if acts == [] then w else SplitEnd(p, SplitApply(p, w, acts[0]), acts[1..])
  }

  lemma {:induction false} SplitRunsJoin(p: Plan, w: SplitWorld, acts: seq<SplitAction>, more: seq<SplitAction>)
    requires SplitRun(p, w, acts) && SplitRun(p, SplitEnd(p, w, acts), more)
    ensures SplitRun(p, w, acts + more) && SplitEnd(p, w, acts + more) == SplitEnd(p, SplitEnd(p, w, acts), more)
    decreases |acts|
  {
    if acts == [] {
      assert acts + more == more;
    } else {
      assert (acts + more)[1..] == acts[1..] + more;
      SplitRunsJoin(p, SplitApply(p, w, acts[0]), acts[1..], more);
    }
  }

  // ---------- two threads in lockstep ----------

  /** Both nodes hold the same and both threads are about to make increment `i`. */
  function Even(s: Store, i: nat): SplitWorld {
    SplitWorld([Node(s, []), Node(s, [])], [Thread(i, 0, Reading), Thread(i, 0, Reading)])
  }

  function OneUp(s: Store, k: string): Op {
    var read := GetData(s, k);
    Put(k, PrintInt(Atoi(read.data) + 1), read.cas, INCREMENT_TTL)
  }

  /** Both threads have read the same and are about to write. */
  function BothRead(s: Store, k: string, i: nat): SplitWorld {
    var th := Thread(i, 0, Writing(Atoi(GetData(s, k).data) + 1, GetData(s, k).cas));
    SplitWorld(Even(s, i).nodes, [th, th])
  }

  /** Each has had its write taken at its own node, and the other's is on its way there. */
  function BothWritten(s: Store, k: string, i: nat): SplitWorld {
    var node := Node(Do(s, OneUp(s, k)), Sent(s, OneUp(s, k)));
    SplitWorld([node, node], Even(s, i + 1).threads)
  }

  lemma RunOfTwo(p: Plan, w: SplitWorld, a: SplitAction, b: SplitAction)
    requires SplitEnabled(p, w, a) && SplitEnabled(p, SplitApply(p, w, a), b)
    ensures SplitRun(p, w, [a, b]) && SplitEnd(p, w, [a, b]) == SplitApply(p, SplitApply(p, w, a), b)
  {
    var w1 := SplitApply(p, w, a);
    var w2 := SplitApply(p, w1, b);
    assert [a, b][1..] == [b] && [b][1..] == [];
    assert SplitRun(p, w2, []) && SplitEnd(p, w2, []) == w2;
    assert SplitRun(p, w1, [b]);
    assert SplitEnd(p, w1, [b]) == w2;
  }

  lemma BothGet(k: string, n: nat, s: Store, i: nat)
    requires s.Live(k) && i < n
    ensures var (p, gets) := (Plan([k], n), [Get(0, GetData(s, k)), Get(1, GetData(s, k))]);
            SplitRun(p, Even(s, i), gets) && SplitEnd(p, Even(s, i), gets) == BothRead(s, k, i)
  {
    var (p, read, w) := (Plan([k], n), GetData(s, k), Even(s, i));
    assert Lookup(Holdings(w)[0], s.now, k) == read;
    var w1 := SplitApply(p, w, Get(0, read));
    assert Lookup(Holdings(w1)[0], s.now, k) == read;
    RunOfTwo(p, w, Get(0, read), Get(1, read));
  }

  /** One thread's write, at a node that still holds what the thread read. */
  lemma OneSet(k: string, n: nat, s: Store, i: nat, w: SplitWorld, t: nat)
    requires s.Live(k) && s.Valid() && i < n && t < 2 && |w.nodes| == 2 && |w.threads| == 2
    requires w.nodes[t].store == s && w.threads[t] == BothRead(s, k, i).threads[0]
    ensures var (p, node) := (Plan([k], n), w.nodes[1 - t]);
            && SplitEnabled(p, w, Set(t))
            && SplitApply(p, w, Set(t))
               == SplitWorld(w.nodes[t := Node(Do(s, OneUp(s, k)), w.nodes[t].inbox)]
                               [1 - t := Node(node.store, node.inbox + Sent(s, OneUp(s, k)))],
                             w.threads[t := Thread(i + 1, 0, Reading)])
  {
  }

  lemma BothSet(k: string, n: nat, s: Store, i: nat)
    requires s.Live(k) && s.Valid() && i < n
    ensures var p := Plan([k], n);
            && SplitRun(p, BothRead(s, k, i), [Set(0), Set(1)])
            && SplitEnd(p, BothRead(s, k, i), [Set(0), Set(1)]) == BothWritten(s, k, i)
  {
    var (p, w) := (Plan([k], n), BothRead(s, k, i));
    OneSet(k, n, s, i, w, 0);
    var w1 := SplitApply(p, w, Set(0));
    OneSet(k, n, s, i, w1, 1);
    RunOfTwo(p, w, Set(0), Set(1));
    var (w2, sent) := (SplitApply(p, w1, Set(1)), Sent(s, OneUp(s, k)));
    assert [] + sent == sent;
    assert w2.nodes == BothWritten(s, k, i).nodes;
    assert w2.threads == BothWritten(s, k, i).threads;
  }

  lemma BothArrive(k: string, n: nat, s: Store, i: nat)
    requires s.Live(k) && s.Valid()
    ensures var p := Plan([k], n);
            && SplitRun(p, BothWritten(s, k, i), [Arrive(0), Arrive(1)])
            && SplitEnd(p, BothWritten(s, k, i), [Arrive(0), Arrive(1)]) == Even(Do(s, OneUp(s, k)), i + 1)
  {
    var (p, w, up) := (Plan([k], n), BothWritten(s, k, i), OneUp(s, k));
    var node := Node(Do(s, up), Sent(s, up));
    assert Land(Do(s, up).items, Sent(s, up)[0]) == Do(s, up).items && Sent(s, up)[1..] == [];
    var w1 := SplitApply(p, w, Arrive(0));
    assert w1 == SplitWorld([Node(Do(s, up), []), node], w.threads);
    assert SplitApply(p, w1, Arrive(1)).nodes == Even(Do(s, up), i).nodes;
    RunOfTwo(p, w, Arrive(0), Arrive(1));
  }

  lemma OneUpCounts(s: Store, k: string)
    requires s.Live(k) && s.Valid()
    ensures var s' := Do(s, OneUp(s, k)); s'.Live(k) && s'.Valid() && Value(s', k) == Value(s, k) + 1
  {
    AtoiOfPrinted(Atoi(GetData(s, k).data) + 1);
  }

  /** One round of both threads leaves both nodes one increment up, not two. */
  lemma RoundLosesOne(k: string, n: nat, s: Store, i: nat) returns (acts: seq<SplitAction>)
    requires s.Live(k) && s.Valid() && i < n
    ensures SplitRun(Plan([k], n), Even(s, i), acts)
    ensures SplitEnd(Plan([k], n), Even(s, i), acts) == Even(Do(s, OneUp(s, k)), i + 1)
  {
    var (p, read) := (Plan([k], n), GetData(s, k));
    var (gets, sets, arrivals) := ([Get(0, read), Get(1, read)], [Set(0), Set(1)], [Arrive(0), Arrive(1)]);
    BothGet(k, n, s, i);
    BothSet(k, n, s, i);
    BothArrive(k, n, s, i);
    ThreeRuns(p, Even(s, i), gets, BothRead(s, k, i), sets, BothWritten(s, k, i), arrivals);
    acts := gets + sets + arrivals;
  }

  lemma ThreeRuns(p: Plan, w: SplitWorld, a: seq<SplitAction>, w1: SplitWorld, b: seq<SplitAction>, w2: SplitWorld,
                  c: seq<SplitAction>)
    requires SplitRun(p, w, a) && SplitEnd(p, w, a) == w1
    requires SplitRun(p, w1, b) && SplitEnd(p, w1, b) == w2
    requires SplitRun(p, w2, c)
    ensures SplitRun(p, w, a + b + c) && SplitEnd(p, w, a + b + c) == SplitEnd(p, w2, c)
  {
    SplitRunsJoin(p, w, a, b);
    SplitRunsJoin(p, w, a + b, c);
  }

  lemma {:induction false} RoundsLoseOneEach(k: string, n: nat, s: Store, i: nat)
    returns (acts: seq<SplitAction>, end: Store)
    requires s.Live(k) && s.Valid() && i <= n
    ensures SplitRun(Plan([k], n), Even(s, i), acts) && SplitEnd(Plan([k], n), Even(s, i), acts) == Even(end, n)
    ensures end.Live(k) && Value(end, k) == Value(s, k) + n - i
    decreases n - i
  {
    if i == n {
      acts, end := [], s;
    } else {
      var round := RoundLosesOne(k, n, s, i);
      OneUpCounts(s, k);
      var next := Do(s, OneUp(s, k));
      var rest;
      rest, end := RoundsLoseOneEach(k, n, next, i + 1);
      assert SplitEnd(Plan([k], n), Even(s, i), round) == Even(next, i + 1);
      SplitRunsJoin(Plan([k], n), Even(s, i), round, rest);
      acts := round + rest;
    }
  }

  /** The thrash test with two threads that disagree about the primary: for any number of
      rounds there is a run in which every write is acknowledged and forwarded and both
      threads come to their end, with no ERROR and no expiry, and yet both nodes hold half
      the count that two agreed threads could not have missed. */
  lemma TwoPrimariesLoseUpdates(k: string, n: nat, s: Store) returns (acts: seq<SplitAction>, end: SplitWorld)
    requires s.Valid() && !s.Live(k)
    ensures var (p, start) := (Plan([k], n), Even(Setup(s, [k]), 0));
            && start.threads == Start(p, s, 2).threads
            && SplitRun(p, start, acts) && end == SplitEnd(p, start, acts)
            && |end.nodes| == 2 && |end.threads| == 2
            && (forall t :: 0 <= t < 2 ==> !Busy(p, end.threads[t]))
            && (forall b :: 0 <= b < 2 ==> end.nodes[b].inbox == [] && end.nodes[b].store.Live(k)
                                           && Value(end.nodes[b].store, k) == n)
  {
    var start := Setup(s, [k]);
    SetupStores(s, [k]);
    AtoiOfPrinted(0);
    assert PrintInt(0) == "0" && k == [k][0];
    var last;
    acts, last := RoundsLoseOneEach(k, n, start, 0);
    end := Even(last, n);
  }
}
