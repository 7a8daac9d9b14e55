/** A site's processes as objects: each instance remembers its own child, and the site goes
    through all its instances in order. */
module SiteControl {
  import opened Decimal
  import opened Config
  import opened Processes

  /** The operating system's table of this program's children. `refuses` says which of the
      forks it refuses. */
  class Os {
    const refuses: nat -> bool
    var live: map<int, nat>
    var zombies: map<int, nat>
    var births: nat
    var forks: nat

    constructor (refuses: nat -> bool)
      ensures this.refuses == refuses && live == map[] && zombies == map[] && births == 0 && forks == 0
    {
      this.refuses := refuses;
      live, zombies, births, forks := map[], map[], 0, 0;
    }

    /** Gives any free pid, unless this is a fork it refuses. */
    method Fork() returns (pid: int)
      modifies this
      ensures zombies == old(zombies) && forks == old(forks) + 1
      ensures pid == -1 <==> refuses(old(forks))
      ensures pid != -1 ==> 0 < pid && pid !in old(live) && pid !in old(zombies)
      ensures live == if pid == -1 then old(live) else old(live)[pid := old(births)]
      ensures births == old(births) + if pid == -1 then 0 else 1
    {
      forks := forks + 1;
      if refuses(forks - 1) {
        return FORK_FAILED;
      }
      FreePidExists(live.Keys + zombies.Keys);
      pid :| 0 < pid && pid !in live.Keys + zombies.Keys;
      live := live[pid := births];
      births := births + 1;
    }

    /** SIGTERM and the wait for it to work, as one: 0 if there is such a child. */
    method KillAndReap(pid: int) returns (rc: int)
      modifies this
      ensures rc == if pid in old(live) || pid in old(zombies) then 0 else -1
      ensures live == old(live) - {pid} && zombies == old(zombies) - {pid} && births == old(births)
      ensures forks == old(forks)
    {
      rc := if pid in live || pid in zombies then 0 else -1;
      live, zombies := live - {pid}, zombies - {pid};
    }
  }

  lemma {:induction false} UpperBound(pids: set<int>) returns (top: int)
    ensures 0 < top && forall p :: p in pids ==> p < top
    decreases |pids|
  {
    top := 1;
    if q: int :| q in pids {
      top := UpperBound(pids - {q});
      top := if top <= q then q + 1 else top;
      forall p | p in pids
        ensures p < top
      {
        assert p == q || p in pids - {q};
      }
    }
  }

  lemma FreePidExists(pids: set<int>)
    ensures exists p :: 0 < p && p !in pids
  {
    var top := UpperBound(pids);
    assert top !in pids;
  }

  /** What `connect` will answer, attempt by attempt, and whether there is a socket at all. */
  datatype Network = Network(socket: bool, accepts: nat -> bool) {
    /** One of the first five attempts gets through. */
    ghost predicate ComesUp() {
      socket && exists a: nat :: a < 5 && accepts(a)
    }

    /** How many of the attempts from number `a` to the fifth fail before one gets through. */
    function Refusals(a: nat): nat
      requires a <= 5
      decreases 5 - a
    {
      if a == 5 || accepts(a) then 0 else 1 + Refusals(a + 1)
    }

    /** How many attempts fail. */
    function Tries(): nat {
      if socket then Refusals(0) else 0
    }
  }

  const MAX_ATTEMPTS: nat := 5

  class ProcessInstance {
    const ip: string
    const port: nat
    var pid: int
    var running: bool

    constructor (ip: string, port: nat)
      ensures this.ip == ip && this.port == port && !running
    {
      this.ip, this.port, running := ip, port, false;
    }

    /** The system as far as this instance can see it. */
    ghost function One(os: Os): System
      reads this, os
    {
      System(os.live, os.zombies, os.births, [Instance(pid, running)])
    }

    method StartInstance(os: Os) returns (success: bool, ghost forked: int)
      modifies this, os
      ensures Forks(old(One(os)), forked) && success == (forked != FORK_FAILED)
      ensures os.forks == old(os.forks) + 1 && (success <==> !os.refuses(old(os.forks)))
      ensures One(os) == Processes.StartInstance(old(One(os)), 0, forked)
    {
      var child := os.Fork();
      forked := child;
      if child == FORK_FAILED {
        success := false;
      } else {
        pid := child;
        running := true;
        success := true;
      }
    }

    method KillInstance(os: Os) returns (ok: bool)
      modifies this, os
      ensures (One(os), ok) == Processes.KillInstance(old(One(os)), 0) && os.forks == old(os.forks)
    {
      if !running {
        return true;
      }
      var rc := os.KillAndReap(pid);
      if rc == 0 {
        running := false;
        assert old(One(os)).instances[0 := Instance(pid, false)] == [Instance(pid, false)];
        return true;
      }
      assert os.live == old(os.live) && os.zombies == old(os.zombies);
      return false;
    }

    method RestartInstance(os: Os) returns (success: bool, ghost forked: int)
      modifies this, os
      ensures Forks(Processes.KillInstance(old(One(os)), 0).0, forked)
      ensures One(os) == Processes.RestartInstance(old(One(os)), 0, forked)
      ensures success == (Processes.KillInstance(old(One(os)), 0).1 && forked != FORK_FAILED)
      ensures Processes.KillInstance(old(One(os)), 0).1 ==>
                os.forks == old(os.forks) + 1 && (success <==> !os.refuses(old(os.forks)))
      ensures !Processes.KillInstance(old(One(os)), 0).1 ==> os.forks == old(os.forks)
    {
      success := KillInstance(os);
      forked := FORK_FAILED;
      if success {
        success, forked := StartInstance(os);
      }
    }

    /** Tries the port until it answers, five times at most. */
    method WaitForInstance(net: Network) returns (connected: bool, attempts: nat)
      ensures connected <==> net.ComesUp()
      ensures attempts == net.Tries() && attempts <= 5
    {
      connected, attempts := false, 0;
      if !net.socket {
        return;
      }
      while !connected && attempts < MAX_ATTEMPTS
        invariant attempts <= 5 && forall a: nat :: a < attempts ==> !net.accepts(a)
        invariant connected ==> attempts < 5 && net.accepts(attempts)
        invariant net.Tries() == attempts + net.Refusals(attempts)
        decreases !connected, 5 - attempts
      {
        if net.accepts(attempts) {
          connected := true;
        } else {
          attempts := attempts + 1;
        }
      }
    }
  }

  // ---------- one instance among many ----------

  function Project(s: System, i: nat): System
    requires i < |s.instances|
  {
    s.(instances := [s.instances[i]])
  }

  function Embed(s: System, i: nat, one: System): System
    requires i < |s.instances| && |one.instances| == 1
  {
    one.(instances := s.instances[i := one.instances[0]])
  }

  lemma OneAmongMany(s: System, i: nat, pid: int)
    requires i < |s.instances|
    ensures Processes.KillInstance(s, i).1 == Processes.KillInstance(Project(s, i), 0).1
    ensures Processes.KillInstance(s, i).0 == Embed(s, i, Processes.KillInstance(Project(s, i), 0).0)
    ensures Processes.StartInstance(s, i, pid) == Embed(s, i, Processes.StartInstance(Project(s, i), 0, pid))
    ensures |Processes.RestartInstance(Project(s, i), 0, pid).instances| == 1
    ensures Processes.RestartInstance(s, i, pid) == Embed(s, i, Processes.RestartInstance(Project(s, i), 0, pid))
  {
    assert s.instances[i := s.instances[i]] == s.instances;
  }

  function EndpointsOf(prefix: string, kind: Kind, count: nat): seq<Endpoint> {
    seq(count, i requires 0 <= i < count => Endpoint(SiteIp(prefix, i + 1), kind.Port()))
  }

  /** The instances listen at the site's first addresses, on their kind's port. */
  ghost predicate Listen(instances: seq<ProcessInstance>, prefix: string, kind: Kind) {
    forall i :: 0 <= i < |instances| ==>
      instances[i].ip == SiteIp(prefix, i + 1) && instances[i].port == kind.Port()
  }

  /** Different instances, none of them started. */
  ghost predicate Idle(instances: seq<ProcessInstance>)
    reads instances
  {
    && (forall i :: 0 <= i < |instances| ==> !instances[i].running)
    && (forall i, j :: 0 <= i < j < |instances| ==> instances[i] != instances[j])
  }

  lemma OneMoreInstance(instances: seq<ProcessInstance>, instance: ProcessInstance, prefix: string, kind: Kind)
    requires Listen(instances, prefix, kind) && Idle(instances)
    requires instance !in instances && !instance.running
    requires instance.ip == SiteIp(prefix, |instances| + 1) && instance.port == kind.Port()
    ensures Listen(instances + [instance], prefix, kind) && Idle(instances + [instance])
  {
  }

  lemma JoinedIdle(some: seq<ProcessInstance>, more: seq<ProcessInstance>)
    requires Idle(some) && Idle(more) && forall instance :: instance in more ==> instance !in some
    ensures Idle(some + more)
  {
    forall i, j | 0 <= i < j < |some + more|
      ensures (some + more)[i] != (some + more)[j]
    {
      if i < |some| <= j {
        assert more[j - |some|] in more;
      }
    }
  }

  function Times(count: int): nat {
    if count < 0 then 0 else count
  }

  /** What each of the instances remembers of its child. */
  ghost function Remembered(instances: seq<ProcessInstance>): seq<Instance>
    reads instances
  {
    seq(|instances|, i requires 0 <= i < |instances| reads instances =>
      Instance(instances[i].pid, instances[i].running))
  }

  lemma OneMoreEndpoint(prefix: string, kind: Kind, n: nat)
    ensures EndpointsOf(prefix, kind, n + 1)
            == EndpointsOf(prefix, kind, n) + [Endpoint(SiteIp(prefix, n + 1), kind.Port())]
  {
  }

  lemma ListedMore(heading: string, es: seq<Endpoint>, e: Endpoint)
    ensures Listed(heading, es + [e]) == Listed(heading, es) + (if es == [] then heading else ",") + PrintEndpoint(e)
  {
    assert (es + [e])[..|es + [e]| - 1] == es;
  }

  /** Writes one more endpoint, after the heading or a comma. */
  method ListEndpoint(text: string, first: bool, ghost es: seq<Endpoint>, e: Endpoint)
    returns (longer: string, ghost all: seq<Endpoint>)
    requires text == ClusterSettings(es) && (first <==> es == [])
    ensures all == es + [e] && longer == ClusterSettings(all)
  {
    ListedMore(SERVERS, es, e);
    longer := text + (if first then SERVERS else ",") + (e.ip + ":" + Print(e.port));
    all := es + [e];
  }

  lemma ClusterLinesMore(es: seq<Endpoint>, e: Endpoint)
    ensures ClusterLines(es + [e]) == ClusterLines(es) + [NODE + PrintEndpoint(e)]
  {
    var (heading, node) := (CLUSTER, NODE);
    var lines := ClusterLines(es + [e]);
    assert forall i :: 1 <= i < |lines| ==> lines[i] == node + PrintEndpoint((es + [e])[i - 1]);
  }

  /** Where the deployment has the name, or past the end if it has not. */
  method Find(deployment: seq<Entry>, name: string) returns (i: nat)
    ensures i <= |deployment| && forall j :: 0 <= j < i ==> deployment[j].name != name
    ensures i < |deployment| ==> deployment[i].name == name
  {
    i := 0;
    while i < |deployment| && deployment[i].name != name
      invariant i <= |deployment| && forall j :: 0 <= j < i ==> deployment[j].name != name
    {
      i := i + 1;
    }
  }

  lemma OneMoreNode(prefix: string, n: nat)
    ensures ClusterLines(EndpointsOf(prefix, Chronos, n + 1))
            == ClusterLines(EndpointsOf(prefix, Chronos, n))
               + [NODE + PrintEndpoint(Endpoint(SiteIp(prefix, n + 1), Chronos.Port()))]
  {
    OneMoreEndpoint(prefix, Chronos, n);
    ClusterLinesMore(EndpointsOf(prefix, Chronos, n), Endpoint(SiteIp(prefix, n + 1), Chronos.Port()));
  }

  class Site {
    const prefix: string
    const os: Os
    var memcached: seq<ProcessInstance>
    var rogers: seq<ProcessInstance>
    var chronos: seq<ProcessInstance>
    var clusterSettings: string
    var sharedConf: string
    var clusterConf: string

    ghost function All(): seq<ProcessInstance>
      reads this
    {
      memcached + rogers + chronos
    }

    ghost predicate Valid()
      reads this
    {
      forall i, j :: 0 <= i < j < |All()| ==> All()[i] != All()[j]
    }

    ghost function State(): System
      reads this, os, All()
    {
      System(os.live, os.zombies, os.births, Remembered(All()))
    }

    /** The same with everybody else's instances: other sites', the name server. */
    ghost function StateBeside(others: seq<Instance>): System
      reads this, os, All()
    {
      Beside(State(), others)
    }

    /** Only for Create. */
    constructor Empty(prefix: string, os: Os)
      ensures this.prefix == prefix && this.os == os && All() == []
    {
      this.prefix, this.os := prefix, os;
      memcached, rogers, chronos := [], [], [];
      clusterSettings, sharedConf, clusterConf := "", "", "";
    }

    method CreateMemcachedInstances(count: int)
      requires memcached == []
      modifies this`memcached, this`clusterSettings
      ensures |memcached| == Times(count) && Listen(memcached, prefix, Memcached)
      ensures Idle(memcached) && forall i :: 0 <= i < |memcached| ==> fresh(memcached[i])
      ensures clusterSettings == ClusterSettings(EndpointsOf(prefix, Memcached, |memcached|))
    {
      var text := "";
      ghost var es: seq<Endpoint> := [];
      var ii := 0;
      while ii < count
        invariant 0 <= ii && (ii <= count || ii == 0) && |memcached| == ii && Listen(memcached, prefix, Memcached)
        invariant Idle(memcached) && forall i :: 0 <= i < |memcached| ==> fresh(memcached[i])
        invariant es == EndpointsOf(prefix, Memcached, ii) && text == ClusterSettings(es)
      {
        OneMoreEndpoint(prefix, Memcached, ii);
        var instance := new ProcessInstance(SiteIp(prefix, ii + 1), Memcached.Port());
        OneMoreInstance(memcached, instance, prefix, Memcached);
        memcached := memcached + [instance];
        text, es := ListEndpoint(text, ii == 0, es, Endpoint(instance.ip, instance.port));
        ii := ii + 1;
      }
      clusterSettings := text;
    }

    method CreateRogersInstances(count: int)
      requires rogers == []
      modifies this`rogers
      ensures |rogers| == Times(count) && Listen(rogers, prefix, Rogers)
      ensures Idle(rogers) && forall i :: 0 <= i < |rogers| ==> fresh(rogers[i])
    {
      var ii := 0;
      while ii < count
        invariant 0 <= ii && (ii <= count || ii == 0) && |rogers| == ii && Listen(rogers, prefix, Rogers)
        invariant Idle(rogers) && forall i :: 0 <= i < |rogers| ==> fresh(rogers[i])
      {
        var instance := new ProcessInstance(SiteIp(prefix, ii + 1), Rogers.Port());
        OneMoreInstance(rogers, instance, prefix, Rogers);
        rogers := rogers + [instance];
        ii := ii + 1;
      }
    }

    method CreateChronosInstances(count: int, deployment: seq<Entry>, own: string)
      requires chronos == []
      modifies this`chronos, this`sharedConf, this`clusterConf
      ensures |chronos| == Times(count) && Listen(chronos, prefix, Chronos)
      ensures Idle(chronos) && forall i :: 0 <= i < |chronos| ==> fresh(chronos[i])
      ensures sharedConf == SharedConf(deployment, own)
      ensures clusterConf == ClusterConf(EndpointsOf(prefix, Chronos, |chronos|))
    {
      var shared := WriteSharedConf(deployment, own);
      var lines := [CLUSTER];
      var ii := 0;
      while ii < count
        invariant 0 <= ii && (ii <= count || ii == 0) && |chronos| == ii && Listen(chronos, prefix, Chronos)
        invariant Idle(chronos) && forall i :: 0 <= i < |chronos| ==> fresh(chronos[i])
        invariant lines == ClusterLines(EndpointsOf(prefix, Chronos, ii))
      {
        OneMoreNode(prefix, ii);
        var instance := new ProcessInstance(SiteIp(prefix, ii + 1), Chronos.Port());
        lines := lines + [NODE + PrintEndpoint(Endpoint(instance.ip, instance.port))];
        OneMoreInstance(chronos, instance, prefix, Chronos);
        chronos := chronos + [instance];
        ii := ii + 1;
      }
      clusterConf := Terminate(lines, '\n');
      sharedConf := shared;
    }

    /** The site of the given name, or nothing if the deployment has no such name. */
    static method Create(name: string, deployment: seq<Entry>, os: Os, memcacheds: int, rogerses: int, chronoses: int)
      returns (site: Site?)
      requires DistinctNames(deployment)
      ensures site == null <==> forall i :: 0 <= i < |deployment| ==> deployment[i].name != name
      ensures site != null ==>
                && fresh(site) && site.Valid() && site.os == os
                && (exists i :: 0 <= i < |deployment| && deployment[i].name == name
                                && site.prefix == deployment[i].topology.prefix)
                && |site.memcached| == Times(memcacheds) && Listen(site.memcached, site.prefix, Memcached)
                && |site.rogers| == Times(rogerses) && Listen(site.rogers, site.prefix, Rogers)
                && |site.chronos| == Times(chronoses) && Listen(site.chronos, site.prefix, Chronos)
                && Idle(site.All()) && (forall i :: 0 <= i < |site.All()| ==> fresh(site.All()[i]))
                && site.clusterSettings == ClusterSettings(EndpointsOf(site.prefix, Memcached, |site.memcached|))
                && site.clusterConf == ClusterConf(EndpointsOf(site.prefix, Chronos, |site.chronos|))
                && site.sharedConf == SharedConf(deployment, name)
    {
      var i := Find(deployment, name);
      if i == |deployment| {
        return null;
      }
      var made := new Site.Empty(deployment[i].topology.prefix, os);
      made.CreateMemcachedInstances(memcacheds);
      made.CreateRogersInstances(rogerses);
      JoinedIdle(made.memcached, made.rogers);
      made.CreateChronosInstances(chronoses, deployment, name);
      JoinedIdle(made.memcached + made.rogers, made.chronos);
      return made;
    }

    /** Applies to instance number `i` what it does to itself. */
    method StartAt(i: nat) returns (ghost forked: int)
      requires Valid() && i < |All()|
      modifies os, All()
      ensures Forks(old(State()), forked) && State() == Processes.StartInstance(old(State()), i, forked)
      ensures os.forks == old(os.forks) + 1 && (forked == FORK_FAILED <==> os.refuses(old(os.forks)))
    {
      ghost var before := State();
      var instance := (memcached + rogers + chronos)[i];
      var _, child := instance.StartInstance(os);
      forked := child;
      OneAmongMany(before, i, forked);
      assert Project(before, i) == old(instance.One(os));
      assert State().instances == before.instances[i := Instance(instance.pid, instance.running)];
    }

    method KillAt(i: nat)
      requires Valid() && i < |All()|
      modifies os, All()
      ensures State() == Processes.KillInstance(old(State()), i).0 && os.forks == old(os.forks)
    {
      ghost var before := State();
      var instance := (memcached + rogers + chronos)[i];
      var _ := instance.KillInstance(os);
      OneAmongMany(before, i, FORK_FAILED);
      assert Project(before, i) == old(instance.One(os));
      assert State().instances == before.instances[i := Instance(instance.pid, instance.running)];
    }

    method RestartAt(i: nat) returns (ghost forked: int)
      requires Valid() && i < |All()|
      modifies os, All()
      ensures Forks(Processes.KillInstance(old(State()), i).0, forked)
      ensures State() == Processes.RestartInstance(old(State()), i, forked)
      ensures Processes.KillInstance(old(State()), i).1 && forked == FORK_FAILED ==> exists n :: os.refuses(n)
    {
      ghost var before := State();
      var instance := (memcached + rogers + chronos)[i];
      var _, child := instance.RestartInstance(os);
      forked := child;
      OneAmongMany(before, i, forked);
      assert Project(before, i) == old(instance.One(os));
      assert State().instances == before.instances[i := Instance(instance.pid, instance.running)];
    }

    /** Goes through the instances starting each. */
    method StartEach() returns (ghost pids: seq<int>)
      requires Valid()
      modifies os, All()
      ensures |pids| == |All()| && StartForks(old(State()), pids) && State() == StartAll(old(State()), pids)
      ensures Answered(pids, os.refuses, old(os.forks))
    {
      pids := [];
      for i := 0 to |memcached + rogers + chronos|
        invariant |pids| == i && StartForks(old(State()), pids) && State() == StartAll(old(State()), pids)
        invariant os.forks == old(os.forks) + i && Answered(pids, os.refuses, old(os.forks))
      {
        var forked := StartAt(i);
        StartSnoc(old(State()), pids, forked);
        AnsweredSnoc(pids, os.refuses, old(os.forks), forked);
        pids := pids + [forked];
      }
    }

    /** Starts every instance. From rest and if the forks succeed each has one fresh live
        child of its own, and all other children are the others' and as they were. */
    method Start(ghost others: seq<Instance>) returns (ghost pids: seq<int>)
      requires Valid()
      modifies os, All()
      ensures |pids| == |All()| && StartForks(old(State()), pids) && State() == StartAll(old(State()), pids)
      ensures Answered(pids, os.refuses, old(os.forks))
      ensures old(Ordered(StateBeside(others)) && Stopped(State(), |All()|)) && FORK_FAILED !in pids ==>
                && Ordered(StateBeside(others)) && AllFresh(State(), pids, old(os.births))
                && Spares(old(StateBeside(others)), StateBeside(others), |All()|)
                && forall pid :: pid in os.live.Keys + os.zombies.Keys <==> pid in pids || pid in PidsOf(others)
    {
      pids := StartEach();
      if old(Ordered(StateBeside(others)) && Stopped(State(), |All()|)) && FORK_FAILED !in pids {
        StartAmongOthers(old(State()), others, pids);
      }
    }

    /** Kills every instance. Whatever else the program runs, all the children left are the
        others', and as they were. */
    method Kill(ghost others: seq<Instance>)
      requires Valid()
      modifies os, All()
      ensures State() == KillAll(old(State()), |All()|)
      ensures old(Ordered(StateBeside(others))) ==>
                && Ordered(StateBeside(others)) && Stopped(State(), |All()|)
                && Spares(old(StateBeside(others)), StateBeside(others), |All()|)
                && os.live.Keys + os.zombies.Keys == PidsOf(others) && os.births == old(os.births)
    {
      for i := 0 to |memcached + rogers + chronos|
        invariant State() == KillAll(old(State()), i)
      {
        KillAt(i);
      }
      if old(Ordered(StateBeside(others))) {
        KillAmongOthers(old(State()), others);
      }
    }

    /** Goes through the instances restarting each. */
    method RestartEach(ghost others: seq<Instance>) returns (ghost pids: seq<int>)
      requires Valid()
      modifies os, All()
      ensures |pids| == |All()| && RestartForks(old(State()), pids) && State() == RestartAll(old(State()), pids)
      ensures old(Ordered(StateBeside(others))) && (forall n :: !os.refuses(n)) ==> FORK_FAILED !in pids
    {
      pids := [];
      for i := 0 to |memcached + rogers + chronos|
        invariant |pids| == i && RestartForks(old(State()), pids) && State() == RestartAll(old(State()), pids)
        invariant old(Ordered(StateBeside(others))) && (forall n :: !os.refuses(n)) ==> FORK_FAILED !in pids
      {
        if old(Ordered(StateBeside(others))) && FORK_FAILED !in pids {
          RestartKills(old(State()), others, pids);
        }
        var forked := RestartAt(i);
        RestartSnoc(old(State()), pids, forked);
        pids := pids + [forked];
      }
    }

    /** Restarts every instance. If the forks succeed each has one fresh live child, and all
        other children are the others' and as they were. */
    method Restart(ghost others: seq<Instance>) returns (ghost pids: seq<int>)
      requires Valid()
      modifies os, All()
      ensures |pids| == |All()| && RestartForks(old(State()), pids) && State() == RestartAll(old(State()), pids)
      ensures old(Ordered(StateBeside(others))) && (forall n :: !os.refuses(n)) ==> FORK_FAILED !in pids
      ensures old(Ordered(StateBeside(others))) && FORK_FAILED !in pids ==>
                && Ordered(StateBeside(others)) && AllFresh(State(), pids, old(os.births))
                && Spares(old(StateBeside(others)), StateBeside(others), |All()|)
                && forall pid :: pid in os.live.Keys + os.zombies.Keys <==> pid in pids || pid in PidsOf(others)
    {
      pids := RestartEach(others);
      if old(Ordered(StateBeside(others))) && FORK_FAILED !in pids {
        RestartAmongOthers(old(State()), others, pids);
      }
    }

    /** What the destructor does: every instance is destroyed, and so killed. */
    method Destroy(ghost others: seq<Instance>)
      requires Valid()
      modifies this, os, All()
      ensures All() == []
      ensures old(Ordered(StateBeside(others))) ==>
                && Ordered(StateBeside(others))
                && (forall pid :: pid in PidsOf(others) ==> SameChild(old(State()), State(), pid))
                && os.live.Keys + os.zombies.Keys == PidsOf(others) && os.births == old(os.births)
    {
      Kill(others);
      ghost var stopped := State();
      memcached, rogers, chronos := [], [], [];
      if old(Ordered(StateBeside(others))) {
        assert StateBeside(others) == stopped.(instances := others);
        StoppedCanGo(stopped, others);
        SparedChildren(old(State()), stopped, others);
      }
    }

    /** Waits for every instance, whether or not the ones before came up, and says whether
        they all did. `nets` is what each of them meets, in order. */
    method WaitForInstances(nets: seq<Network>) returns (ok: bool, attempts: seq<nat>)
      requires |nets| == |All()|
      ensures ok <==> forall i :: 0 <= i < |nets| ==> nets[i].ComesUp()
      ensures |attempts| == |All()| && forall i :: 0 <= i < |nets| ==> attempts[i] == nets[i].Tries()
    {
      var all := memcached + rogers + chronos;
      ok, attempts := true, [];
      for i := 0 to |all|
        invariant |attempts| == i && (ok <==> forall j :: 0 <= j < i ==> nets[j].ComesUp())
        invariant forall j :: 0 <= j < i ==> attempts[j] == nets[j].Tries()
      {
        var connected, tries := all[i].WaitForInstance(nets[i]);
        if !connected {
          ok := false;
        }
        attempts := attempts + [tries];
      }
    }

    /** The last instance, although its name and comment promise the first; the two agree
        exactly when there is only one. */
    method GetFirstMemcached() returns (instance: ProcessInstance)
      requires Valid() && memcached != []
      ensures instance == memcached[|memcached| - 1]
      ensures instance == memcached[0] <==> |memcached| == 1
    {
      assert All()[0] == memcached[0] && All()[|memcached| - 1] == memcached[|memcached| - 1];
      instance := memcached[|memcached| - 1];
    }
  }

  /** One site is killed while another one and the name server run on: they keep their
      children, and no others are left. */
  method KillOneOfTwo(site1: Site, site2: Site, dnsmasq: ProcessInstance)
    requires site1.Valid() && site1.os == site2.os
    requires forall instance :: instance in site1.All() ==> instance !in site2.All() + [dnsmasq]
    requires Ordered(site1.StateBeside(Remembered(site2.All() + [dnsmasq])))
    modifies site1.os, site1.All()
    ensures Remembered(site2.All() + [dnsmasq]) == old(Remembered(site2.All() + [dnsmasq]))
    ensures forall i :: 0 <= i < |site1.All()| ==> !site1.All()[i].running
    ensures site1.os.live.Keys + site1.os.zombies.Keys == PidsOf(Remembered(site2.All() + [dnsmasq]))
    ensures Ordered(site1.StateBeside(Remembered(site2.All() + [dnsmasq])))
    ensures var os := site1.os;
            && (forall pid :: pid in os.live ==> pid in old(os.live) && os.live[pid] == old(os.live[pid]))
            && (forall pid :: pid in os.zombies ==> pid in old(os.zombies) && os.zombies[pid] == old(os.zombies[pid]))
  {
    ghost var rest := site2.All() + [dnsmasq];
    ghost var others := Remembered(rest);
    site1.Kill(others);
    forall i | 0 <= i < |rest|
      ensures rest[i].pid == old(rest[i].pid) && rest[i].running == old(rest[i].running)
    {
      assert rest[i] in rest;
    }
    assert Remembered(rest) == others;
    SparedChildren(old(site1.State()), site1.State(), others);
    assert forall pid :: pid in site1.os.live.Keys + site1.os.zombies.Keys ==> pid in PidsOf(others);
    assert forall i :: 0 <= i < |site1.All()| ==> site1.State().instances[i].running == site1.All()[i].running;
  }

  lemma SiteLinesMore(deployment: seq<Entry>, i: nat, own: string)
    requires i < |deployment|
    ensures PrintLines(SiteLines(deployment[..i + 1], own))
            == PrintLines(SiteLines(deployment[..i], own)) + [PrintLine(LineOf(deployment[i], own))]
  {
  }

  /** Goes through the deployment writing one line for each site. */
  method WriteSharedConf(deployment: seq<Entry>, own: string) returns (text: string)
    ensures text == SharedConf(deployment, own)
  {
    text := "";
    if deployment != [] {
      var lines := [SITES];
      for i := 0 to |deployment|
        invariant lines == [SITES] + PrintLines(SiteLines(deployment[..i], own))
      {
        var item := deployment[i];
        SiteLinesMore(deployment, i, own);
        if item.name == own {
          lines := lines + [LOCAL + item.name];
        } else {
          lines := lines + [REMOTE + item.name + "=" + item.topology.chronosDomain];
        }
      }
      assert deployment[..|deployment|] == deployment;
      text := Terminate(lines, '\n');
    }
  }
}
