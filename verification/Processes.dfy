/** Starting, killing and restarting child processes. The operating system is a set of
    unreaped children, live or zombie, each with the number of its birth; a reaped pid is
    free to be given out again. */
module Processes {

  /** The two members a ProcessInstance remembers its child by. */
  datatype Instance = Instance(pid: int, running: bool)

  datatype System = System(live: map<int, nat>, zombies: map<int, nat>, births: nat, instances: seq<Instance>) {
    function Unreaped(): set<int> {
      live.Keys + zombies.Keys
    }

    predicate Free(pid: int) {
      0 < pid && pid !in Unreaped()
    }
  }

  const FORK_FAILED := -1

  /** `fork` gives `pid`, or fails. There is no check that the instance is not running. */
  function StartInstance(s: System, i: nat, pid: int): System
    requires i < |s.instances|
  {
    if pid == FORK_FAILED then s
    else s.(live := s.live[pid := s.births], births := s.births + 1, instances := s.instances[i := Instance(pid, true)])
  }

  /** A running instance sends SIGTERM to the pid it remembers, which fails if there is no
      such child, and otherwise waits for the child and reaps it. */
  function KillInstance(s: System, i: nat): (System, bool)
    requires i < |s.instances|
  {
    var inst := s.instances[i];
    if !inst.running then (s, true)
    else if inst.pid !in s.Unreaped() then (s, false)
    else (s.(live := s.live - {inst.pid}, zombies := s.zombies - {inst.pid},
             instances := s.instances[i := Instance(inst.pid, false)]), true)
  }

  function RestartInstance(s: System, i: nat, pid: int): System
    requires i < |s.instances|
  {
    var (killed, ok) := KillInstance(s, i);
    if ok then StartInstance(killed, i, pid) else killed
  }

  function ExitChild(s: System, pid: int): System {
    if pid in s.live then s.(live := s.live - {pid}, zombies := s.zombies[pid := s.live[pid]]) else s
  }

  /** What each operation does when there is nothing it can do, and what an exit leaves. */
  lemma EdgeCases(s: System, i: nat, pid: int)
    requires i < |s.instances|
    ensures !s.instances[i].running ==> KillInstance(s, i) == (s, true)
    ensures s.instances[i].running && s.instances[i].pid !in s.Unreaped() ==>
              KillInstance(s, i) == (s, false) && RestartInstance(s, i, pid) == s
    ensures StartInstance(s, i, -1) == s
    ensures pid in s.live ==> var t := ExitChild(s, pid);
              pid !in t.live && pid in t.zombies && t.zombies[pid] == s.live[pid] && t.Unreaped() == s.Unreaped()
              && t.instances == s.instances
    ensures pid !in s.live ==> ExitChild(s, pid) == s
  {
    if pid in s.live {
      assert ExitChild(s, pid).Unreaped() == s.Unreaped();
    }
  }

  // ---------- runs ----------

  datatype Event =
    | Start(i: nat, pid: int)
    | Kill(i: nat)
    | Restart(i: nat, pid: int)
    | Exit(pid: int)

  /** The pid `fork` may give at this point. */
  predicate Forks(s: System, pid: int) {
    pid == FORK_FAILED || s.Free(pid)
  }

  predicate Possible(s: System, e: Event) {
    match e
    case Start(i, pid) => i < |s.instances| && Forks(s, pid)
    case Kill(i) => i < |s.instances|
    case Restart(i, pid) => i < |s.instances| && Forks(KillInstance(s, i).0, pid)
    case Exit(_) => true
  }

  function Next(s: System, e: Event): System
    requires Possible(s, e)
  {
    match e
    case Start(i, pid) => StartInstance(s, i, pid)
    case Kill(i) => KillInstance(s, i).0
    case Restart(i, pid) => RestartInstance(s, i, pid)
    case Exit(pid) => ExitChild(s, pid)
  }

  predicate PossibleRun(s: System, es: seq<Event>)
    decreases |es|
  {
    es == [] || (Possible(s, es[0]) && PossibleRun(Next(s, es[0]), es[1..]))
  }

  /** Only an instance that is not running is started, as the harness does. */
  predicate Guarded(s: System, e: Event)
    requires Possible(s, e)
  {
    e.Start? ==> !s.instances[e.i].running
  }

  predicate GuardedRun(s: System, es: seq<Event>)
    requires PossibleRun(s, es)
    decreases |es|
  {
    es == [] || (Guarded(s, es[0]) && GuardedRun(Next(s, es[0]), es[1..]))
  }

  function Final(s: System, es: seq<Event>): System
    requires PossibleRun(s, es)
    decreases |es|
  {
    if es == [] then s else Final(Next(s, es[0]), es[1..])
  }

  /** Instance `i` runs the child `pid`. */
  predicate Owns(s: System, i: nat, pid: int)
    requires i < |s.instances|
  {
    IsOf(s.instances[i], pid)
  }

  /** Every running instance has its own unreaped child, and every unreaped child is some
      running instance's. */
  ghost predicate Ordered(s: System) {
    && s.live.Keys !! s.zombies.Keys
    && (forall pid :: pid in s.live ==> 0 < pid && s.live[pid] < s.births)
    && (forall pid :: pid in s.zombies ==> 0 < pid && s.zombies[pid] < s.births)
    && (forall i :: 0 <= i < |s.instances| && s.instances[i].running ==> s.instances[i].pid in s.Unreaped())
    && (forall i, j :: 0 <= i < j < |s.instances| && s.instances[i].running && s.instances[j].running ==>
          s.instances[i].pid != s.instances[j].pid)
    && Sheltered(s.Unreaped(), s.instances)
  }

  /** Every one of the pids is some running instance's. */
  ghost predicate Sheltered(pids: set<int>, instances: seq<Instance>) {
    forall pid :: pid in pids ==> exists i :: 0 <= i < |instances| && IsOf(instances[i], pid)
  }

  predicate IsOf(inst: Instance, pid: int) {
    inst.running && inst.pid == pid
  }

  lemma KillStaysOrdered(s: System, i: nat)
    requires Ordered(s) && i < |s.instances|
    ensures var (s', ok) := KillInstance(s, i);
            && Ordered(s') && ok && |s'.instances| == |s.instances| && !s'.instances[i].running
            && s'.births == s.births
            && forall j :: 0 <= j < |s.instances| && j != i ==> s'.instances[j] == s.instances[j]
  {
    var s' := KillInstance(s, i).0;
    forall pid | pid in s'.Unreaped()
      ensures exists j :: 0 <= j < |s'.instances| && IsOf(s'.instances[j], pid)
    {
      var j :| 0 <= j < |s.instances| && IsOf(s.instances[j], pid);
      assert IsOf(s'.instances[j], pid);
    }
  }

  lemma StartStaysOrdered(s: System, i: nat, pid: int)
    requires Ordered(s) && i < |s.instances| && !s.instances[i].running && Forks(s, pid)
    ensures Ordered(StartInstance(s, i, pid))
  {
    var s' := StartInstance(s, i, pid);
    forall p | p in s'.Unreaped()
      ensures exists j :: 0 <= j < |s'.instances| && IsOf(s'.instances[j], p)
    {
      if p in s.Unreaped() {
        var j :| 0 <= j < |s.instances| && IsOf(s.instances[j], p);
        assert IsOf(s'.instances[j], p);
      } else {
        assert IsOf(s'.instances[i], p);
      }
    }
  }

  lemma ExitStaysOrdered(s: System, pid: int)
    requires Ordered(s)
    ensures Ordered(ExitChild(s, pid))
  {
    var s' := ExitChild(s, pid);
    assert s'.Unreaped() == s.Unreaped();
  }

  lemma NextStaysOrdered(s: System, e: Event)
    requires Ordered(s) && Possible(s, e) && Guarded(s, e)
    ensures Ordered(Next(s, e)) && |Next(s, e).instances| == |s.instances|
  {
    match e
    case Start(i, pid) => StartStaysOrdered(s, i, pid);
    case Kill(i) => KillStaysOrdered(s, i);
    case Restart(i, pid) =>
      KillStaysOrdered(s, i);
      StartStaysOrdered(KillInstance(s, i).0, i, pid);
    case Exit(pid) => ExitStaysOrdered(s, pid);
  }

  /** Over any guarded run, with the system free to give out reaped pids again: each
      instance has at most one unreaped child, no two share one, none is forgotten, and
      whenever a running instance is killed the pid it signals is its own child's and
      nobody else's, so the kill succeeds. */
  lemma {:induction false} EveryChildHasOneOwner(s: System, es: seq<Event>)
    requires Ordered(s) && PossibleRun(s, es) && GuardedRun(s, es)
    ensures var s' := Final(s, es);
            && Ordered(s') && |s'.instances| == |s.instances|
            && (forall i :: 0 <= i < |s'.instances| && s'.instances[i].running ==>
                  var pid := s'.instances[i].pid;
                  && pid in s'.Unreaped() && KillInstance(s', i).1
                  && forall j :: 0 <= j < |s'.instances| && j != i ==> !Owns(s', j, pid))
    decreases |es|
  {
    if es != [] {
      NextStaysOrdered(s, es[0]);
      EveryChildHasOneOwner(Next(s, es[0]), es[1..]);
    }
  }

  function RunningCount(instances: seq<Instance>): nat {
    if instances == [] then 0
    else RunningCount(instances[..|instances| - 1]) + if instances[|instances| - 1].running then 1 else 0
  }

  function PidsOf(instances: seq<Instance>): set<int> {
    set i: nat | i < |instances| && instances[i].running :: instances[i].pid
  }

  lemma {:induction false} DistinctPids(instances: seq<Instance>)
    requires forall i, j :: 0 <= i < j < |instances| && instances[i].running && instances[j].running ==>
               instances[i].pid != instances[j].pid
    ensures |PidsOf(instances)| == RunningCount(instances)
  {
    if instances == [] {
      assert PidsOf(instances) == {};
    } else {
      var (n, init) := (|instances| - 1, instances[..|instances| - 1]);
      DistinctPids(init);
      assert PidsOf(instances) == PidsOf(init) + if instances[n].running then {instances[n].pid} else {};
    }
  }

  lemma ChildrenAreOwned(s: System)
    requires Ordered(s)
    ensures s.Unreaped() == PidsOf(s.instances)
  {
    forall pid | pid in s.Unreaped()
      ensures pid in PidsOf(s.instances)
    {
      var i :| 0 <= i < |s.instances| && IsOf(s.instances[i], pid);
    }
  }

  /** There are exactly as many unreaped children as running instances. */
  lemma OneChildPerRunningInstance(s: System)
    requires Ordered(s)
    ensures |s.Unreaped()| == RunningCount(s.instances)
  {
    ChildrenAreOwned(s);
    DistinctPids(s.instances);
  }

  /** A child that nobody will ever wait for. */
  ghost predicate Orphan(s: System, pid: int) {
    pid in s.Unreaped() && forall i :: 0 <= i < |s.instances| ==> !Owns(s, i, pid)
  }

  /** The guard is what it takes: starting an instance leaves every child with an owner
      exactly when the instance was not running or the fork failed. */
  lemma StartNeedsTheGuard(s: System, i: nat, pid: int)
    requires Ordered(s) && i < |s.instances| && Forks(s, pid)
    ensures Ordered(StartInstance(s, i, pid)) <==> !s.instances[i].running || pid == FORK_FAILED
    ensures s.instances[i].running && pid != FORK_FAILED ==>
              Orphan(StartInstance(s, i, pid), s.instances[i].pid)
  {
    var s' := StartInstance(s, i, pid);
    if !s.instances[i].running {
      StartStaysOrdered(s, i, pid);
    } else if pid != FORK_FAILED {
      var lost := s.instances[i].pid;
      assert lost in s'.Unreaped();
      forall j | 0 <= j < |s'.instances|
        ensures !Owns(s', j, lost)
      {
      }
    }
  }

  lemma OrphanStep(s: System, e: Event, pid: int)
    requires Possible(s, e) && Orphan(s, pid)
    ensures Orphan(Next(s, e), pid)
  {
    forall i | 0 <= i < |s.instances|
      ensures !IsOf(s.instances[i], pid)
    {
      assert !Owns(s, i, pid);
    }
  }

  /** An orphan stays one for good, whatever is started, killed or restarted later, with or
      without the guard: no instance can signal it or reap it. */
  lemma {:induction false} OrphanForGood(s: System, es: seq<Event>, pid: int)
    requires PossibleRun(s, es) && Orphan(s, pid)
    ensures Orphan(Final(s, es), pid)
    decreases |es|
  {
    if es != [] {
      OrphanStep(s, es[0], pid);
      OrphanForGood(Next(s, es[0]), es[1..], pid);
    }
  }

  // ---------- whole sites ----------

  function KillAll(s: System, n: nat): System
    requires n <= |s.instances|
    ensures |KillAll(s, n).instances| == |s.instances|
  {
    if n == 0 then s else KillInstance(KillAll(s, n - 1), n - 1).0
  }

  function StartAll(s: System, pids: seq<int>): System
    requires |pids| <= |s.instances|
    ensures |StartAll(s, pids).instances| == |s.instances|
  {
    if pids == [] then s
    else StartInstance(StartAll(s, pids[..|pids| - 1]), |pids| - 1, pids[|pids| - 1])
  }

  function RestartAll(s: System, pids: seq<int>): System
    requires |pids| <= |s.instances|
    ensures |RestartAll(s, pids).instances| == |s.instances|
  {
    if pids == [] then s
    else RestartInstance(RestartAll(s, pids[..|pids| - 1]), |pids| - 1, pids[|pids| - 1])
  }

  predicate Stopped(s: System, n: nat)
    requires n <= |s.instances|
  {
    forall i :: 0 <= i < n ==> !s.instances[i].running
  }

  /** The child, live or zombie, is as it was. */
  predicate SameChild(s: System, s': System, pid: int) {
    && (pid in s'.live <==> pid in s.live) && (pid in s.live ==> s'.live[pid] == s.live[pid])
    && (pid in s'.zombies <==> pid in s.zombies) && (pid in s.zombies ==> s'.zombies[pid] == s.zombies[pid])
  }

  /** Instance `j` and its child are as they were. */
  predicate SparesOne(s: System, s': System, j: nat)
    requires j < |s.instances| == |s'.instances|
  {
    s'.instances[j] == s.instances[j] && (s.instances[j].running ==> SameChild(s, s', s.instances[j].pid))
  }

  /** So are all the instances from number `n` on. */
  ghost predicate Spares(s: System, s': System, n: nat) {
    |s'.instances| == |s.instances| && forall j :: n <= j < |s.instances| ==> SparesOne(s, s', j)
  }

  lemma SparesChain(s: System, t: System, u: System, n: nat)
    requires Spares(s, t, n) && Spares(t, u, n + 1)
    ensures Spares(s, u, n + 1)
  {
    forall j | n + 1 <= j < |s.instances|
      ensures SparesOne(s, u, j)
    {
      assert SparesOne(s, t, j) && SparesOne(t, u, j);
    }
  }

  /** The instances from `n` on, when the ones before are stopped, have all the children. */
  lemma PidsOfTheRest(instances: seq<Instance>, n: nat)
    requires n <= |instances|
    ensures forall pid :: pid in PidsOf(instances) <==> pid in PidsOf(instances[..n]) || pid in PidsOf(instances[n..])
  {
    forall pid | pid in PidsOf(instances)
      ensures pid in PidsOf(instances[..n]) || pid in PidsOf(instances[n..])
    {
      var i: nat :| i < |instances| && instances[i].running && instances[i].pid == pid;
      if n <= i {
        assert instances[n..][i - n] == instances[i];
      } else {
        assert instances[..n][i] == instances[i];
      }
    }
    forall pid | pid in PidsOf(instances[n..])
      ensures pid in PidsOf(instances)
    {
      var i: nat :| i < |instances[n..]| && instances[n..][i].running && instances[n..][i].pid == pid;
      assert instances[n + i] == instances[n..][i];
    }
  }

  lemma SparedInstances(s: System, s': System, n: nat)
    requires Spares(s, s', n) && n <= |s.instances|
    ensures s'.instances[n..] == s.instances[n..]
  {
    forall j | n <= j < |s.instances|
      ensures s'.instances[j] == s.instances[j]
    {
      assert SparesOne(s, s', j);
    }
  }

  lemma KillStep(s: System, n: nat)
    requires Ordered(s) && n < |s.instances| && Stopped(s, n)
    ensures var s' := KillInstance(s, n).0;
            && |s'.instances| == |s.instances| && Ordered(s') && Stopped(s', n + 1)
            && Spares(s, s', n + 1) && s'.births == s.births
  {
    KillStaysOrdered(s, n);
  }

  lemma {:induction false} KillAllStops(s: System, n: nat)
    requires Ordered(s) && n <= |s.instances|
    ensures Ordered(KillAll(s, n)) && Stopped(KillAll(s, n), n)
    ensures Spares(s, KillAll(s, n), n) && KillAll(s, n).births == s.births
  {
    if 0 < n {
      var before := KillAll(s, n - 1);
      var after := KillInstance(before, n - 1).0;
      KillAllStops(s, n - 1);
      KillStep(before, n - 1);
      SparesChain(s, before, after, n - 1);
      assert KillAll(s, n) == after;
    }
  }

  /** After a kill of a site, or once its instances are destroyed, all of them are stopped
      and every child left, live or zombie, is somebody else's: the others and their
      children are as they were. The site's instances are the first `n`. */
  lemma KillLeavesOnlyOthers(s: System, n: nat)
    requires Ordered(s) && n <= |s.instances|
    ensures var s' := KillAll(s, n);
            && Ordered(s') && Stopped(s', n) && Spares(s, s', n) && s'.births == s.births
            && s'.Unreaped() == PidsOf(s.instances[n..])
  {
    var s' := KillAll(s, n);
    KillAllStops(s, n);
    ChildrenAreOwned(s');
    PidsOfTheRest(s'.instances, n);
    SparedInstances(s, s', n);
    assert PidsOf(s'.instances[..n]) == {};
  }

  /** If the program has no other instances there is no child left. */
  lemma KillLeavesNoChild(s: System)
    requires Ordered(s)
    ensures KillAll(s, |s.instances|).Unreaped() == {}
  {
    KillLeavesOnlyOthers(s, |s.instances|);
  }

  /** Each `fork` of the sequence gives a pid that is free when it is called. */
  predicate RestartForks(s: System, pids: seq<int>)
    requires |pids| <= |s.instances|
  {
    pids == [] ||
    var (init, n) := (pids[..|pids| - 1], |pids| - 1);
    RestartForks(s, init) && Forks(KillInstance(RestartAll(s, init), n).0, pids[n])
  }

  /** Instance `i` runs the live child `pid`, born no earlier than birth number `since`. */
  predicate RunsFresh(s: System, i: nat, pid: int, since: nat)
    requires i < |s.instances|
  {
    Owns(s, i, pid) && pid in s.live && since <= s.live[pid]
  }

  /** The first instances each run their own of the pids. */
  ghost predicate AllFresh(s: System, pids: seq<int>, since: nat) {
    |pids| <= |s.instances| && forall i :: 0 <= i < |pids| ==> RunsFresh(s, i, pids[i], since)
  }

  lemma RestartStep(s: System, i: nat, pid: int)
    requires Ordered(s) && i < |s.instances| && pid != FORK_FAILED && Forks(KillInstance(s, i).0, pid)
    ensures var s' := RestartInstance(s, i, pid);
            && Ordered(s') && |s'.instances| == |s.instances| && s'.births == s.births + 1
            && RunsFresh(s', i, pid, s.births)
  {
    KillStaysOrdered(s, i);
    StartStaysOrdered(KillInstance(s, i).0, i, pid);
  }

  lemma RestartSpares(s: System, i: nat, pid: int, j: nat)
    requires Ordered(s) && i < j < |s.instances| && pid != FORK_FAILED && Forks(KillInstance(s, i).0, pid)
    ensures |RestartInstance(s, i, pid).instances| == |s.instances|
    ensures SparesOne(s, RestartInstance(s, i, pid), j)
  {
    KillStaysOrdered(s, i);
  }

  lemma RestartSparesOthers(s: System, i: nat, pid: int, j: nat, other: int, since: nat)
    requires Ordered(s) && i < |s.instances| && j < |s.instances| && i != j
    requires pid != FORK_FAILED && Forks(KillInstance(s, i).0, pid) && RunsFresh(s, j, other, since)
    ensures |RestartInstance(s, i, pid).instances| == |s.instances|
    ensures RunsFresh(RestartInstance(s, i, pid), j, other, since)
  {
    KillStaysOrdered(s, i);
  }

  lemma RestartOneMore(s: System, pids: seq<int>, pid: int, since: nat)
    requires Ordered(s) && |pids| < |s.instances| && AllFresh(s, pids, since) && since <= s.births
    requires pid != FORK_FAILED && Forks(KillInstance(s, |pids|).0, pid)
    ensures AllFresh(RestartInstance(s, |pids|, pid), pids + [pid], since)
  {
    var after := RestartInstance(s, |pids|, pid);
    RestartStep(s, |pids|, pid);
    forall i | 0 <= i < |pids + [pid]|
      ensures RunsFresh(after, i, (pids + [pid])[i], since)
    {
      if i < |pids| {
        assert RunsFresh(s, i, pids[i], since);
        RestartSparesOthers(s, |pids|, pid, i, pids[i], since);
      }
    }
  }

  lemma {:induction false} RestartAllSteps(s: System, pids: seq<int>)
    requires Ordered(s) && |pids| <= |s.instances| && RestartForks(s, pids) && FORK_FAILED !in pids
    ensures var s' := RestartAll(s, pids);
            && Ordered(s') && s'.births == s.births + |pids|
            && AllFresh(s', pids, s.births) && Spares(s, s', |pids|)
  {
    if pids != [] {
      var (init, n) := (pids[..|pids| - 1], |pids| - 1);
      var before := RestartAll(s, init);
      var after := RestartInstance(before, n, pids[n]);
      RestartAllSteps(s, init);
      RestartStep(before, n, pids[n]);
      forall j | n < j < |before.instances|
        ensures SparesOne(before, after, j)
      {
        RestartSpares(before, n, pids[n], j);
      }
      RestartOneMore(before, init, pids[n], s.births);
      assert pids == init + [pids[n]];
      SparesChain(s, before, after, n);
      assert RestartAll(s, pids) == after;
    }
  }

  lemma FreshPids(instances: seq<Instance>, pids: seq<int>)
    requires |pids| <= |instances| && forall i :: 0 <= i < |pids| ==> IsOf(instances[i], pids[i])
    ensures forall pid :: pid in PidsOf(instances[..|pids|]) <==> pid in pids
  {
    var mine := instances[..|pids|];
    forall pid | pid in pids
      ensures pid in PidsOf(mine)
    {
      var i: nat :| i < |pids| && pids[i] == pid;
      assert IsOf(mine[i], pid);
    }
    forall pid | pid in PidsOf(mine)
      ensures pid in pids
    {
      var i: nat :| i < |mine| && mine[i].running && mine[i].pid == pid;
      assert IsOf(instances[i], pids[i]);
    }
  }

  /** If the forks succeed, a restart of a site leaves each of its instances running one live
      child of its own, born during the restart; every other child is somebody else's, and
      the others and their children are as they were. The site's instances are the first. */
  lemma RestartGivesFreshChildren(s: System, pids: seq<int>)
    requires Ordered(s) && |pids| <= |s.instances| && RestartForks(s, pids) && FORK_FAILED !in pids
    ensures var s' := RestartAll(s, pids);
            && Ordered(s') && AllFresh(s', pids, s.births) && Spares(s, s', |pids|)
            && s'.births == s.births + |pids|
            && forall pid :: pid in s'.Unreaped() <==> pid in pids || pid in PidsOf(s.instances[|pids|..])
  {
    var s' := RestartAll(s, pids);
    RestartAllSteps(s, pids);
    ChildrenAreOwned(s');
    PidsOfTheRest(s'.instances, |pids|);
    SparedInstances(s, s', |pids|);
    forall i | 0 <= i < |pids|
      ensures IsOf(s'.instances[i], pids[i])
    {
      assert RunsFresh(s', i, pids[i], s.births);
    }
    FreshPids(s'.instances, pids);
  }

  lemma {:induction false} AllRunning(instances: seq<Instance>)
    requires forall i :: 0 <= i < |instances| ==> instances[i].running
    ensures RunningCount(instances) == |instances|
  {
    if instances != [] {
      AllRunning(instances[..|instances| - 1]);
    }
  }

  /** If the program has no other instances, the fresh children are all there are. */
  lemma AllFreshIsAll(s: System, pids: seq<int>, since: nat)
    requires Ordered(s) && |pids| == |s.instances| && AllFresh(s, pids, since)
    ensures s.zombies.Keys == {} && |s.live.Keys| == |s.instances|
  {
    forall i | 0 <= i < |s.instances|
      ensures s.instances[i].running && s.instances[i].pid in s.live
    {
      assert RunsFresh(s, i, pids[i], since);
    }
    ChildrenAreOwned(s);
    AllLive(s);
  }

  lemma AllLive(s: System)
    requires Ordered(s) && s.Unreaped() == PidsOf(s.instances)
    requires forall i :: 0 <= i < |s.instances| ==> s.instances[i].running && s.instances[i].pid in s.live
    ensures s.zombies.Keys == {} && |s.live.Keys| == |s.instances|
  {
    DistinctPids(s.instances);
    AllRunning(s.instances);
    assert PidsOf(s.instances) <= s.live.Keys;
    assert s.Unreaped() == s.live.Keys;
  }

  lemma {:induction false} StartAllLeavesTheRest(s: System, pids: seq<int>, i: nat)
    requires |pids| <= i < |s.instances|
    ensures StartAll(s, pids).instances[i] == s.instances[i]
  {
    if pids != [] {
      StartAllLeavesTheRest(s, pids[..|pids| - 1], i);
    }
  }

  /** Each `fork` of the sequence gives a pid that is free when it is called. */
  predicate StartForks(s: System, pids: seq<int>)
    requires |pids| <= |s.instances|
  {
    pids == [] ||
    var (init, n) := (pids[..|pids| - 1], |pids| - 1);
    StartForks(s, init) && Forks(StartAll(s, init), pids[n])
  }

  /** From rest, a start is a restart: there is nothing to kill. */
  lemma {:induction false} StartFromRest(s: System, pids: seq<int>)
    requires |pids| <= |s.instances| && Stopped(s, |pids|) && StartForks(s, pids)
    ensures StartAll(s, pids) == RestartAll(s, pids) && RestartForks(s, pids)
  {
    if pids != [] {
      var (init, n) := (pids[..|pids| - 1], |pids| - 1);
      StartFromRest(s, init);
      StartAllLeavesTheRest(s, init, n);
    }
  }

  /** The same for a start of a site that is at rest, whatever else is running. */
  lemma StartGivesFreshChildren(s: System, pids: seq<int>)
    requires Ordered(s) && |pids| <= |s.instances| && Stopped(s, |pids|) && StartForks(s, pids) && FORK_FAILED !in pids
    ensures var s' := StartAll(s, pids);
            && Ordered(s') && AllFresh(s', pids, s.births) && Spares(s, s', |pids|)
            && s'.births == s.births + |pids|
            && forall pid :: pid in s'.Unreaped() <==> pid in pids || pid in PidsOf(s.instances[|pids|..])
  {
    StartFromRest(s, pids);
    RestartGivesFreshChildren(s, pids);
  }

  lemma StartSnoc(s: System, pids: seq<int>, pid: int)
    requires |pids| < |s.instances| && StartForks(s, pids) && Forks(StartAll(s, pids), pid)
    ensures StartForks(s, pids + [pid])
    ensures StartAll(s, pids + [pid]) == StartInstance(StartAll(s, pids), |pids|, pid)
  {
    var more := pids + [pid];
    assert more[..|more| - 1] == pids && more[|more| - 1] == pid;
  }

  lemma RestartSnoc(s: System, pids: seq<int>, pid: int)
    requires |pids| < |s.instances| && RestartForks(s, pids)
    requires Forks(KillInstance(RestartAll(s, pids), |pids|).0, pid)
    ensures RestartForks(s, pids + [pid])
    ensures RestartAll(s, pids + [pid]) == RestartInstance(RestartAll(s, pids), |pids|, pid)
  {
    var more := pids + [pid];
    assert more[..|more| - 1] == pids && more[|more| - 1] == pid;
  }

  /** The forks from number `first` on were refused as `refuses` says. */
  ghost predicate Answered(pids: seq<int>, refuses: nat -> bool, first: nat) {
    forall i :: 0 <= i < |pids| ==> (pids[i] == FORK_FAILED <==> refuses(first + i))
  }

  lemma AnsweredSnoc(pids: seq<int>, refuses: nat -> bool, first: nat, pid: int)
    requires Answered(pids, refuses, first) && (pid == FORK_FAILED <==> refuses(first + |pids|))
    ensures Answered(pids + [pid], refuses, first)
  {
  }

  // ---------- one site among other instances ----------

  /** The same system with more instances behind these. */
  function Beside(s: System, others: seq<Instance>): System {
    s.(instances := s.instances + others)
  }

  lemma StepBeside(s: System, others: seq<Instance>, i: nat, pid: int)
    requires i < |s.instances|
    ensures KillInstance(Beside(s, others), i) == (Beside(KillInstance(s, i).0, others), KillInstance(s, i).1)
    ensures StartInstance(Beside(s, others), i, pid) == Beside(StartInstance(s, i, pid), others)
    ensures RestartInstance(Beside(s, others), i, pid) == Beside(RestartInstance(s, i, pid), others)
  {
    var (killed, ok) := KillInstance(s, i);
    KillBeside(s, others, i);
    StartBeside(s, others, i, pid);
    if ok {
      StartBeside(killed, others, i, pid);
    }
  }

  lemma KillBeside(s: System, others: seq<Instance>, i: nat)
    requires i < |s.instances|
    ensures KillInstance(Beside(s, others), i) == (Beside(KillInstance(s, i).0, others), KillInstance(s, i).1)
    ensures |KillInstance(s, i).0.instances| == |s.instances|
  {
    var stopped := Instance(s.instances[i].pid, false);
    assert (s.instances + others)[i := stopped] == s.instances[i := stopped] + others;
  }

  lemma StartBeside(s: System, others: seq<Instance>, i: nat, pid: int)
    requires i < |s.instances|
    ensures StartInstance(Beside(s, others), i, pid) == Beside(StartInstance(s, i, pid), others)
  {
    assert (s.instances + others)[i := Instance(pid, true)] == s.instances[i := Instance(pid, true)] + others;
  }

  lemma {:induction false} KillAllBeside(s: System, others: seq<Instance>, n: nat)
    requires n <= |s.instances|
    ensures KillAll(Beside(s, others), n) == Beside(KillAll(s, n), others)
  {
    if 0 < n {
      KillAllBeside(s, others, n - 1);
      StepBeside(KillAll(s, n - 1), others, n - 1, FORK_FAILED);
    }
  }

  lemma {:induction false} StartAllBeside(s: System, others: seq<Instance>, pids: seq<int>)
    requires |pids| <= |s.instances|
    ensures StartAll(Beside(s, others), pids) == Beside(StartAll(s, pids), others)
    ensures StartForks(Beside(s, others), pids) == StartForks(s, pids)
  {
    if pids != [] {
      var (init, n) := (pids[..|pids| - 1], |pids| - 1);
      StartAllBeside(s, others, init);
      StepBeside(StartAll(s, init), others, n, pids[n]);
    }
  }

  lemma {:induction false} RestartAllBeside(s: System, others: seq<Instance>, pids: seq<int>)
    requires |pids| <= |s.instances|
    ensures RestartAll(Beside(s, others), pids) == Beside(RestartAll(s, pids), others)
    ensures RestartForks(Beside(s, others), pids) == RestartForks(s, pids)
  {
    if pids != [] {
      var (init, n) := (pids[..|pids| - 1], |pids| - 1);
      RestartAllBeside(s, others, init);
      StepBeside(RestartAll(s, init), others, n, pids[n]);
    }
  }

  lemma StoppedBeside(t: System, others: seq<Instance>)
    requires Stopped(Beside(t, others), |t.instances|)
    ensures Stopped(t, |t.instances|)
  {
    assert forall i :: 0 <= i < |t.instances| ==> Beside(t, others).instances[i] == t.instances[i];
  }

  lemma KillAmongOthers(s: System, others: seq<Instance>)
    requires Ordered(Beside(s, others))
    ensures var (t, n) := (KillAll(s, |s.instances|), |s.instances|);
            && Ordered(Beside(t, others)) && Stopped(t, n) && Spares(Beside(s, others), Beside(t, others), n)
            && t.Unreaped() == PidsOf(others) && t.births == s.births
  {
    var n := |s.instances|;
    var t := KillAll(s, n);
    KillAllBeside(s, others, n);
    KillLeavesOnlyOthers(Beside(s, others), n);
    assert (s.instances + others)[n..] == others;
    StoppedBeside(t, others);
  }

  /** Where the instances stand that come behind others. */
  lemma BesideAt(t: System, others: seq<Instance>, i: nat)
    requires i < |others|
    ensures Beside(t, others).instances[|t.instances| + i] == others[i]
  {
  }

  lemma OthersShelter(t: System, others: seq<Instance>, pid: int)
    requires Ordered(Beside(t, others)) && Stopped(t, |t.instances|) && pid in t.Unreaped()
    ensures exists i :: 0 <= i < |others| && IsOf(others[i], pid)
  {
    var (n, all) := (|t.instances|, Beside(t, others));
    assert pid in all.Unreaped();
    var j :| 0 <= j < |all.instances| && IsOf(all.instances[j], pid);
    BesideAt(t, others, j - n);
    assert IsOf(others[j - n], pid);
  }

  lemma OthersDiffer(t: System, others: seq<Instance>, i: nat, j: nat)
    requires Ordered(Beside(t, others)) && i < j < |others| && others[i].running && others[j].running
    ensures others[i].pid != others[j].pid
  {
    BesideAt(t, others, i);
    BesideAt(t, others, j);
  }

  lemma OthersHaveTheirs(t: System, others: seq<Instance>, i: nat)
    requires Ordered(Beside(t, others)) && i < |others| && others[i].running
    ensures others[i].pid in t.Unreaped()
  {
    BesideAt(t, others, i);
  }

  /** Stopped instances can go: everything stays in order. */
  lemma StoppedCanGo(t: System, others: seq<Instance>)
    requires Ordered(Beside(t, others)) && Stopped(t, |t.instances|)
    ensures Ordered(t.(instances := others))
  {
    forall pid | pid in t.Unreaped()
      ensures exists i :: 0 <= i < |others| && IsOf(others[i], pid)
    {
      OthersShelter(t, others, pid);
    }
    forall i, j | 0 <= i < j < |others| && others[i].running && others[j].running
      ensures others[i].pid != others[j].pid
    {
      OthersDiffer(t, others, i, j);
    }
    forall i | 0 <= i < |others| && others[i].running
      ensures others[i].pid in t.Unreaped()
    {
      OthersHaveTheirs(t, others, i);
    }
  }

  lemma SparedChildren(s: System, t: System, others: seq<Instance>)
    requires |s.instances| == |t.instances| && Spares(Beside(s, others), Beside(t, others), |t.instances|)
    ensures forall pid :: pid in PidsOf(others) ==> SameChild(s, t, pid)
  {
    forall pid | pid in PidsOf(others)
      ensures SameChild(s, t, pid)
    {
      var i: nat :| i < |others| && others[i].running && others[i].pid == pid;
      BesideAt(s, others, i);
      assert SparesOne(Beside(s, others), Beside(t, others), |t.instances| + i);
    }
  }

  /** What a restart of a site leaves, when its instances are all of `t`'s. */
  lemma FreshAmongOthers(s: System, others: seq<Instance>, t: System, pids: seq<int>)
    requires |pids| == |s.instances| == |t.instances| && AllFresh(Beside(t, others), pids, s.births)
    ensures AllFresh(t, pids, s.births) && Beside(s, others).instances[|pids|..] == others
  {
    forall i | 0 <= i < |pids|
      ensures RunsFresh(t, i, pids[i], s.births)
    {
      assert RunsFresh(Beside(t, others), i, pids[i], s.births);
    }
  }

  lemma RestartAmongOthers(s: System, others: seq<Instance>, pids: seq<int>)
    requires Ordered(Beside(s, others)) && |pids| == |s.instances| && RestartForks(s, pids) && FORK_FAILED !in pids
    ensures var t := RestartAll(s, pids);
            && Ordered(Beside(t, others)) && AllFresh(t, pids, s.births)
            && Spares(Beside(s, others), Beside(t, others), |pids|)
            && forall pid :: pid in t.Unreaped() <==> pid in pids || pid in PidsOf(others)
  {
    RestartAllBeside(s, others, pids);
    RestartGivesFreshChildren(Beside(s, others), pids);
    FreshAmongOthers(s, others, RestartAll(s, pids), pids);
  }

  /** On the way through a restart every kill succeeds. */
  lemma RestartKills(s: System, others: seq<Instance>, pids: seq<int>)
    requires Ordered(Beside(s, others)) && |pids| < |s.instances| && RestartForks(s, pids) && FORK_FAILED !in pids
    ensures KillInstance(RestartAll(s, pids), |pids|).1
  {
    var t := RestartAll(s, pids);
    RestartAllBeside(s, others, pids);
    RestartAllSteps(Beside(s, others), pids);
    KillStaysOrdered(Beside(t, others), |pids|);
    StepBeside(t, others, |pids|, FORK_FAILED);
  }

  lemma StartAmongOthers(s: System, others: seq<Instance>, pids: seq<int>)
    requires Ordered(Beside(s, others)) && |pids| == |s.instances| && Stopped(s, |pids|)
    requires StartForks(s, pids) && FORK_FAILED !in pids
    ensures var t := StartAll(s, pids);
            && Ordered(Beside(t, others)) && AllFresh(t, pids, s.births)
            && Spares(Beside(s, others), Beside(t, others), |pids|)
            && forall pid :: pid in t.Unreaped() <==> pid in pids || pid in PidsOf(others)
  {
    StartFromRest(s, pids);
    RestartAmongOthers(s, others, pids);
  }

  // ---------- operations on a site are runs ----------

  function Kills(n: nat): seq<Event> {
    seq(n, i requires 0 <= i < n => Kill(i))
  }

  function Starts(pids: seq<int>): seq<Event> {
    seq(|pids|, i requires 0 <= i < |pids| => Start(i, pids[i]))
  }

  function Restarts(pids: seq<int>): seq<Event> {
    seq(|pids|, i requires 0 <= i < |pids| => Restart(i, pids[i]))
  }

  lemma {:induction false} RunSnoc(s: System, es: seq<Event>, e: Event)
    requires PossibleRun(s, es) && GuardedRun(s, es) && Possible(Final(s, es), e) && Guarded(Final(s, es), e)
    ensures PossibleRun(s, es + [e]) && GuardedRun(s, es + [e])
    ensures Final(s, es + [e]) == Next(Final(s, es), e)
    decreases |es|
  {
    if es == [] {
      assert [e][1..] == [] && es + [e] == [e];
      assert PossibleRun(Next(s, e), []) && GuardedRun(Next(s, e), []);
    } else {
      assert (es + [e])[1..] == es[1..] + [e];
      RunSnoc(Next(s, es[0]), es[1..], e);
    }
  }

  /** What a site does to its instances is a guarded run of single operations, so that all
      that is proved over runs holds of it. */
  lemma {:induction false} KillAllIsARun(s: System, n: nat)
    requires n <= |s.instances|
    ensures PossibleRun(s, Kills(n)) && GuardedRun(s, Kills(n)) && Final(s, Kills(n)) == KillAll(s, n)
  {
    if n == 0 {
      assert Kills(0) == [];
    } else {
      KillAllIsARun(s, n - 1);
      RunSnoc(s, Kills(n - 1), Kill(n - 1));
      assert Kills(n - 1) + [Kill(n - 1)] == Kills(n);
    }
  }

  lemma {:induction false} StartAllIsARun(s: System, pids: seq<int>)
    requires |pids| <= |s.instances| && Stopped(s, |pids|) && StartForks(s, pids)
    ensures PossibleRun(s, Starts(pids)) && GuardedRun(s, Starts(pids)) && Final(s, Starts(pids)) == StartAll(s, pids)
  {
    if pids == [] {
      assert Starts(pids) == [];
    } else {
      var (init, n) := (pids[..|pids| - 1], |pids| - 1);
      StartAllIsARun(s, init);
      StartAllLeavesTheRest(s, init, n);
      RunSnoc(s, Starts(init), Start(n, pids[n]));
      assert Starts(init) + [Start(n, pids[n])] == Starts(pids);
    }
  }

  lemma {:induction false} RestartAllIsARun(s: System, pids: seq<int>)
    requires |pids| <= |s.instances| && RestartForks(s, pids)
    ensures PossibleRun(s, Restarts(pids)) && GuardedRun(s, Restarts(pids))
    ensures Final(s, Restarts(pids)) == RestartAll(s, pids)
  {
    if pids == [] {
      assert Restarts(pids) == [];
    } else {
      var (init, n) := (pids[..|pids| - 1], |pids| - 1);
      RestartAllIsARun(s, init);
      RunSnoc(s, Restarts(init), Restart(n, pids[n]));
      assert Restarts(init) + [Restart(n, pids[n])] == Restarts(pids);
    }
  }
}
