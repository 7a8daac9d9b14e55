/** The addresses a site hands out and the three configuration files it writes, with the
    readers those files are meant for. */
module Config {
  import opened Decimal

  const MEMCACHED_PORT := 33333
  const ROGERS_PORT := 11311
  const CHRONOS_PORT := 7253

  datatype Kind = Memcached | Rogers | Chronos {
    function Port(): nat {
      match this
      case Memcached => MEMCACHED_PORT
      case Rogers => ROGERS_PORT
      case Chronos => CHRONOS_PORT
    }
  }

  datatype Endpoint = Endpoint(ip: string, port: nat)

  // ---------- addresses ----------

  function SiteIp(prefix: string, index: nat): string {
    prefix + Print(index)
  }

  /** A prefix of the form "x.y.z.": what matters is the dot at the end. */
  predicate Dotted(prefix: string) {
    prefix != "" && prefix[|prefix| - 1] == '.'
  }

  /** The part of an address up to and including its last dot. */
  function UpToLastDot(s: string): string {
    if s == "" || s[|s| - 1] == '.' then s else UpToLastDot(s[..|s| - 1])
  }

  lemma {:induction false} PrefixIsUpToLastDot(prefix: string, digits: string)
    requires Dotted(prefix) && AllDigits(digits)
    ensures UpToLastDot(prefix + digits) == prefix
    decreases |digits|
  {
    if digits == "" {
      assert prefix + digits == prefix;
    } else {
      var all := prefix + digits;
      assert all[..|all| - 1] == prefix + digits[..|digits| - 1];
      assert IsDigit(all[|all| - 1]);
      PrefixIsUpToLastDot(prefix, digits[..|digits| - 1]);
    }
  }

  /** An address is the site's prefix and, after the last dot, the digits of the index, with
      no 0 in front. */
  lemma AddressShowsIndex(prefix: string, index: nat)
    requires Dotted(prefix)
    ensures var (ip, n) := (SiteIp(prefix, index), |prefix|);
            && UpToLastDot(ip) == prefix && ip[..n] == prefix
            && Canonical(ip[n..]) && Number(ip[n..]) == index
  {
    PrefixIsUpToLastDot(prefix, Print(index));
    PrintIsCanonical(index);
    PrintedNumber(index);
    assert SiteIp(prefix, index)[|prefix|..] == Print(index);
  }

  /** The ports as they are written: no two kinds share one. */
  lemma PortsAsWritten()
    ensures Number("33333") == Memcached.Port() && Number("11311") == Rogers.Port() && Number("7253") == Chronos.Port()
  {
    assert "33333"[..4] == "3333" && "3333"[..3] == "333" && "333"[..2] == "33" && "33"[..1] == "3" && "3"[..0] == "";
    assert "11311"[..4] == "1131" && "1131"[..3] == "113" && "113"[..2] == "11" && "11"[..1] == "1" && "1"[..0] == "";
    assert "7253"[..3] == "725" && "725"[..2] == "72" && "72"[..1] == "7" && "7"[..0] == "";
  }

  /** Addresses never coincide, across sites or within one. */
  lemma AddressesAreDistinct(p: string, q: string, i: nat, j: nat)
    requires Dotted(p) && Dotted(q) && SiteIp(p, i) == SiteIp(q, j)
    ensures p == q && i == j
  {
    PrefixIsUpToLastDot(p, Print(i));
    PrefixIsUpToLastDot(q, Print(j));
    assert Print(i) == SiteIp(p, i)[|p|..] == SiteIp(q, j)[|q|..] == Print(j);
    PrintInjective(i, j);
  }

  /** Two processes listen at one endpoint only if they are one process: of one site, of one
      kind and with one index. */
  lemma EndpointsAreDistinct(p: string, q: string, k: Kind, l: Kind, i: nat, j: nat)
    requires Dotted(p) && Dotted(q)
    requires Endpoint(SiteIp(p, i), k.Port()) == Endpoint(SiteIp(q, j), l.Port())
    ensures p == q && k == l && i == j
  {
    AddressesAreDistinct(p, q, i, j);
  }

  // ---------- text ----------

  /** Where `c` first occurs, or the length if it does not. */
  function Index(s: string, c: char): (i: nat)
    ensures i <= |s|
    ensures i < |s| ==> s[i] == c
    ensures forall j :: 0 <= j < i ==> s[j] != c
  {
    if s == "" || s[0] == c then 0 else 1 + Index(s[1..], c)
  }

  /** Each part followed by `c`. */
  function Terminate(parts: seq<string>, c: char): string {
    if parts == [] then "" else parts[0] + [c] + Terminate(parts[1..], c)
  }

  function Unterminate(text: string, c: char): seq<string>
    decreases |text|
  {
    if text == "" then []
    else
      var i := Index(text, c);
      [text[..i]] + if i < |text| then Unterminate(text[i + 1..], c) else []
  }

  lemma IndexOf(s: string, c: char, rest: string)
    requires c !in s
    ensures Index(s + [c] + rest, c) == |s|
  {
    var all := s + [c] + rest;
    assert all[|s|] == c && forall j :: 0 <= j < |s| ==> all[j] == s[j];
  }

  lemma {:induction false} UnterminateTerminated(parts: seq<string>, c: char)
    requires forall i :: 0 <= i < |parts| ==> c !in parts[i]
    ensures Unterminate(Terminate(parts, c), c) == parts
  {
    if parts != [] {
      var rest := Terminate(parts[1..], c);
      IndexOf(parts[0], c, rest);
      UnterminateTerminated(parts[1..], c);
      assert (parts[0] + [c] + rest)[|parts[0]| + 1..] == rest;
      assert (parts[0] + [c] + rest)[..|parts[0]|] == parts[0];
    }
  }

  lemma HeadedRoundTrip(heading: string, lines: seq<string>)
    requires '\n' !in heading && forall i :: 0 <= i < |lines| ==> '\n' !in lines[i]
    ensures Unterminate(Terminate([heading] + lines, '\n'), '\n') == [heading] + lines
    ensures ([heading] + lines)[1..] == lines
  {
    var all := [heading] + lines;
    forall i | 0 <= i < |all|
      ensures '\n' !in all[i]
    {
      if 0 < i {
        assert all[i] == lines[i - 1];
      }
    }
    UnterminateTerminated(all, '\n');
  }

  /** What a reader makes of a text. */
  datatype Read<T> = Read(value: T) | Malformed

  function PrintEndpoint(e: Endpoint): string {
    e.ip + ":" + Print(e.port)
  }

  /** An address, a colon and a number, and nothing else. */
  function ParseEndpoint(s: string): Read<Endpoint> {
    var i := Index(s, ':');
    if i + 1 < |s| && AllDigits(s[i + 1..]) then Read(Endpoint(s[..i], Number(s[i + 1..]))) else Malformed
  }

  lemma EndpointRoundTrip(e: Endpoint)
    requires ':' !in e.ip
    ensures ParseEndpoint(PrintEndpoint(e)) == Read(e)
  {
    var s := PrintEndpoint(e);
    IndexOf(e.ip, ':', Print(e.port));
    assert s == e.ip + [':'] + Print(e.port);
    assert s[|e.ip| + 1..] == Print(e.port) && s[..|e.ip|] == e.ip;
    PrintedNumber(e.port);
  }

  /** An endpoint without characters that separate it from its neighbours in a file. */
  predicate Plain(e: Endpoint) {
    ':' !in e.ip && ',' !in e.ip && '\n' !in e.ip
  }

  lemma PrintedIsPlain(e: Endpoint, c: char)
    requires Plain(e) && (c == ',' || c == '\n')
    ensures c !in PrintEndpoint(e)
  {
    forall i | 0 <= i < |PrintEndpoint(e)|
      ensures PrintEndpoint(e)[i] != c
    {
      if |e.ip| + 1 <= i {
        assert IsDigit(Print(e.port)[i - |e.ip| - 1]);
      }
    }
  }

  function PrintAll(es: seq<Endpoint>): seq<string> {
    seq(|es|, i requires 0 <= i < |es| => PrintEndpoint(es[i]))
  }

  function ParseAll(ss: seq<string>): Read<seq<Endpoint>> {
    if forall i :: 0 <= i < |ss| ==> ParseEndpoint(ss[i]).Read?
    then Read(seq(|ss|, i requires 0 <= i < |ss| && ParseEndpoint(ss[i]).Read? => ParseEndpoint(ss[i]).value))
    else Malformed
  }

  lemma AllRoundTrip(es: seq<Endpoint>)
    requires forall i :: 0 <= i < |es| ==> Plain(es[i])
    ensures ParseAll(PrintAll(es)) == Read(es)
    ensures forall i, c :: 0 <= i < |es| && (c == ',' || c == '\n') ==> c !in PrintAll(es)[i]
  {
    forall i | 0 <= i < |es|
      ensures ParseEndpoint(PrintAll(es)[i]) == Read(es[i])
    {
      EndpointRoundTrip(es[i]);
    }
    assert ParseAll(PrintAll(es)).value == es;
    forall i, c | 0 <= i < |es| && (c == ',' || c == '\n')
      ensures c !in PrintAll(es)[i]
    {
      PrintedIsPlain(es[i], c);
    }
  }

  // ---------- cluster_settings ----------

  const SERVERS := "servers="

  /** The text as the loop writes it: a heading before the first endpoint, a comma before
      every other, nothing at all for no endpoints. */
  function Listed(heading: string, es: seq<Endpoint>): string {
    if es == [] then ""
    else Listed(heading, es[..|es| - 1]) + (if |es| == 1 then heading else ",") + PrintEndpoint(es[|es| - 1])
  }

  function ClusterSettings(es: seq<Endpoint>): string {
    Listed(SERVERS, es)
  }

  /** Nothing at all, or "servers=" and endpoints with commas between them. */
  function ParseClusterSettings(text: string): Read<seq<Endpoint>> {
    if text == "" then Read([])
    else if "servers=" <= text then ParseAll(Unterminate(text[8..] + ",", ','))
    else Malformed
  }

  lemma {:induction false} TerminateSnoc(parts: seq<string>, last: string, c: char)
    ensures Terminate(parts + [last], c) == Terminate(parts, c) + last + [c]
  {
    if parts == [] {
      assert Terminate([last], c) == last + [c] + "";
    } else {
      assert (parts + [last])[1..] == parts[1..] + [last];
      TerminateSnoc(parts[1..], last, c);
    }
  }

  lemma {:induction false} ListedText(heading: string, es: seq<Endpoint>)
    requires es != []
    ensures Listed(heading, es) + "," == heading + Terminate(PrintAll(es), ',')
  {
    var (init, last) := (es[..|es| - 1], es[|es| - 1]);
    var endpoint := PrintEndpoint(last);
    assert PrintAll(es) == PrintAll(init) + [endpoint];
    TerminateSnoc(PrintAll(init), endpoint, ',');
    var before := Terminate(PrintAll(init), ',');
    if init == [] {
      assert before == "" && Listed(heading, init) == "";
      assert heading + "" == "" + heading;
    } else {
      ListedText(heading, init);
    }
    assert Listed(heading, es) == (heading + before) + endpoint;
    Regroup(heading, before, endpoint, ",");
  }

  lemma Regroup(a: string, b: string, c: string, d: string)
    ensures ((a + b) + c) + d == a + (b + c + d)
  {
  }

  lemma DropHeading(heading: string, text: string, body: string)
    requires text + "," == heading + body && body != ""
    ensures |heading| <= |text| && text[|heading|..] + "," == body
  {
    assert (text + ",")[|heading|..] == (heading + body)[|heading|..] == body;
  }

  /** Reading cluster_settings gives exactly the endpoints written, in order, however many. */
  lemma ClusterSettingsRoundTrip(es: seq<Endpoint>)
    requires forall i :: 0 <= i < |es| ==> Plain(es[i])
    ensures ParseClusterSettings(ClusterSettings(es)) == Read(es)
  {
    if es != [] {
      var (text, body) := (ClusterSettings(es), Terminate(PrintAll(es), ','));
      ListedText(SERVERS, es);
      AllRoundTrip(es);
      assert body != "";
      DropHeading(SERVERS, text, body);
      StartsWith(SERVERS, text, body);
      UnterminateTerminated(PrintAll(es), ',');
    }
  }

  lemma StartsWith(heading: string, text: string, body: string)
    requires text + "," == heading + body && |heading| <= |text|
    ensures heading <= text
  {
    assert (text + ",")[..|heading|] == text[..|heading|];
    assert (heading + body)[..|heading|] == heading;
  }

  // ---------- chronos_cluster.conf ----------

  const CLUSTER := "[cluster]"
  const NODE := "node = "

  function ClusterLines(es: seq<Endpoint>): seq<string> {
    [CLUSTER] + seq(|es|, i requires 0 <= i < |es| => NODE + PrintEndpoint(es[i]))
  }

  function ClusterConf(es: seq<Endpoint>): string {
    Terminate(ClusterLines(es), '\n')
  }

  predicate AreNodes(lines: seq<string>) {
    forall i :: 0 <= i < |lines| ==> "node = " <= lines[i]
  }

  function NodesOf(lines: seq<string>): seq<string>
    requires AreNodes(lines)
  {
    seq(|lines|, i requires 0 <= i < |lines| => lines[i][7..])
  }

  /** The line "[cluster]", and then lines of the form "node = " and an endpoint. */
  function ParseClusterConf(text: string): Read<seq<Endpoint>> {
    var lines := Unterminate(text, '\n');
    if lines == [] || lines[0] != "[cluster]" || !AreNodes(lines[1..]) then Malformed
    else ParseAll(NodesOf(lines[1..]))
  }

  lemma NodeLines(es: seq<Endpoint>)
    requires forall i :: 0 <= i < |es| ==> Plain(es[i])
    ensures var nodes := ClusterLines(es)[1..];
            && ClusterLines(es) == [CLUSTER] + nodes && AreNodes(nodes) && NodesOf(nodes) == PrintAll(es)
            && forall i :: 0 <= i < |nodes| ==> '\n' !in nodes[i]
  {
    var nodes := ClusterLines(es)[1..];
    forall i | 0 <= i < |nodes|
      ensures "node = " <= nodes[i] && nodes[i][7..] == PrintAll(es)[i] && '\n' !in nodes[i]
    {
      assert nodes[i] == NODE + PrintEndpoint(es[i]);
      PrintedIsPlain(es[i], '\n');
    }
  }

  lemma ClusterConfRoundTrip(es: seq<Endpoint>)
    requires forall i :: 0 <= i < |es| ==> Plain(es[i])
    ensures ParseClusterConf(ClusterConf(es)) == Read(es)
  {
    AllRoundTrip(es);
    NodeLines(es);
    HeadedRoundTrip(CLUSTER, ClusterLines(es)[1..]);
  }

  // ---------- chronos_shared.conf ----------

  datatype Topology = Topology(prefix: string, chronosDomain: string)

  /** A site of the deployment, in the order the map is gone through. */
  datatype Entry = Entry(name: string, topology: Topology)

  datatype SiteLine = LocalSite(name: string) | RemoteSite(name: string, domain: string)

  const SITES := "[sites]"
  const LOCAL := "local_site = "
  const REMOTE := "remote_site = "

  function LineOf(e: Entry, own: string): SiteLine {
    if e.name == own then LocalSite(e.name) else RemoteSite(e.name, e.topology.chronosDomain)
  }

  function PrintLine(l: SiteLine): string {
    match l
    case LocalSite(name) => LOCAL + name
    case RemoteSite(name, domain) => REMOTE + name + "=" + domain
  }

  /** "local_site = " and a name, or "remote_site = ", a name, "=" and a domain. */
  function ParseLine(s: string): Read<SiteLine> {
    if "local_site = " <= s then Read(LocalSite(s[13..]))
    else if "remote_site = " <= s then
      var i := Index(s[14..], '=');
      if i < |s[14..]| then Read(RemoteSite(s[14..][..i], s[14..][i + 1..])) else Malformed
    else Malformed
  }

  function SiteLines(deployment: seq<Entry>, own: string): seq<SiteLine> {
    seq(|deployment|, i requires 0 <= i < |deployment| => LineOf(deployment[i], own))
  }

  function PrintLines(ls: seq<SiteLine>): seq<string> {
    seq(|ls|, i requires 0 <= i < |ls| => PrintLine(ls[i]))
  }

  /** Empty if no deployment was given. */
  function SharedConf(deployment: seq<Entry>, own: string): string {
    if deployment == [] then "" else Terminate([SITES] + PrintLines(SiteLines(deployment, own)), '\n')
  }

  function ParseLines(lines: seq<string>): Read<seq<SiteLine>> {
    if forall i :: 0 <= i < |lines| ==> ParseLine(lines[i]).Read?
    then Read(seq(|lines|, i requires 0 <= i < |lines| && ParseLine(lines[i]).Read? => ParseLine(lines[i]).value))
    else Malformed
  }

  /** Nothing at all, or the line "[sites]" and then lines for the sites. */
  function ParseSharedConf(text: string): Read<seq<SiteLine>> {
    var lines := Unterminate(text, '\n');
    if lines == [] then Read([])
    else if lines[0] == "[sites]" then ParseLines(lines[1..])
    else Malformed
  }

  /** Names and domains that do not contain what separates them in the file. */
  predicate Separable(e: Entry) {
    '\n' !in e.name && '=' !in e.name && '\n' !in e.topology.chronosDomain
  }

  lemma LineRoundTrip(e: Entry, own: string)
    requires Separable(e)
    ensures ParseLine(PrintLine(LineOf(e, own))) == Read(LineOf(e, own))
    ensures '\n' !in PrintLine(LineOf(e, own))
  {
    var l := LineOf(e, own);
    if l.RemoteSite? {
      RemoteRoundTrip(l.name, l.domain);
    } else {
      assert PrintLine(l)[13..] == l.name;
    }
  }

  lemma RemoteRoundTrip(name: string, domain: string)
    requires '=' !in name
    ensures ParseLine(PrintLine(RemoteSite(name, domain))) == Read(RemoteSite(name, domain))
  {
    var (s, rest) := (PrintLine(RemoteSite(name, domain)), name + ['='] + domain);
    IndexOf(name, '=', domain);
    assert s == REMOTE + rest && s[0] == 'r' && s[14..] == rest;
    assert rest[|name| + 1..] == domain && rest[..|name|] == name;
  }

  lemma LinesRoundTrip(deployment: seq<Entry>, own: string)
    requires forall i :: 0 <= i < |deployment| ==> Separable(deployment[i])
    ensures var lines := PrintLines(SiteLines(deployment, own));
            && ParseLines(lines) == Read(SiteLines(deployment, own))
            && forall i :: 0 <= i < |lines| ==> '\n' !in lines[i]
  {
    var ls := SiteLines(deployment, own);
    var lines := PrintLines(ls);
    forall i | 0 <= i < |ls|
      ensures ParseLine(lines[i]) == Read(ls[i]) && '\n' !in lines[i]
    {
      LineRoundTrip(deployment[i], own);
    }
    assert ParseLines(lines).value == ls;
  }

  /** Reading the shared file gives, site by site, the local one and the others with their
      domains. */
  lemma SharedConfRoundTrip(deployment: seq<Entry>, own: string)
    requires forall i :: 0 <= i < |deployment| ==> Separable(deployment[i])
    ensures ParseSharedConf(SharedConf(deployment, own)) == Read(SiteLines(deployment, own))
  {
    if deployment != [] {
      LinesRoundTrip(deployment, own);
      HeadedRoundTrip(SITES, PrintLines(SiteLines(deployment, own)));
    }
  }

  ghost predicate DistinctNames(deployment: seq<Entry>) {
    forall i, j :: 0 <= i < j < |deployment| ==> deployment[i].name != deployment[j].name
  }

  /** The reader of `own`'s file finds `other` among the remote sites. */
  ghost predicate ListsRemote(deployment: seq<Entry>, own: string, other: string) {
    var read := ParseSharedConf(SharedConf(deployment, own));
    read.Read? && exists l :: l in read.value && l.RemoteSite? && l.name == other
  }

  /** Each site's file lists as remote exactly the other sites of the deployment. */
  lemma SharedConfNamesTheOthers(deployment: seq<Entry>, own: string, other: string)
    requires forall i :: 0 <= i < |deployment| ==> Separable(deployment[i])
    ensures ListsRemote(deployment, own, other) <==>
              other != own && exists i :: 0 <= i < |deployment| && deployment[i].name == other
  {
    SharedConfRoundTrip(deployment, own);
    LinesNameTheOthers(deployment, own, other);
  }

  lemma LinesNameTheOthers(deployment: seq<Entry>, own: string, other: string)
    ensures (exists l :: l in SiteLines(deployment, own) && l.RemoteSite? && l.name == other) <==>
            other != own && exists i :: 0 <= i < |deployment| && deployment[i].name == other
  {
    var lines := SiteLines(deployment, own);
    if i :| 0 <= i < |deployment| && deployment[i].name == other {
      assert lines[i] in lines;
    }
    if l :| l in lines && l.RemoteSite? && l.name == other {
      var i :| 0 <= i < |lines| && lines[i] == l;
      assert deployment[i].name == other;
    }
  }

  /** And, since names are distinct, it has exactly one local line if the site is in the
      deployment, which names the site itself; the others give each site's name and domain. */
  lemma OneLocalSite(deployment: seq<Entry>, own: string, at: nat)
    requires forall i :: 0 <= i < |deployment| ==> Separable(deployment[i])
    requires DistinctNames(deployment) && at < |deployment| && deployment[at].name == own
    ensures ParseSharedConf(SharedConf(deployment, own)).Read?
    ensures var lines := ParseSharedConf(SharedConf(deployment, own)).value;
            && |lines| == |deployment| && lines[at] == LocalSite(own)
            && forall i :: 0 <= i < |lines| && i != at ==>
                 lines[i] == RemoteSite(deployment[i].name, deployment[i].topology.chronosDomain)
  {
    SharedConfRoundTrip(deployment, own);
  }

  /** Two sites of one deployment agree about each other. */
  lemma RemoteIsMutual(deployment: seq<Entry>, a: string, b: string)
    requires forall i :: 0 <= i < |deployment| ==> Separable(deployment[i])
    requires exists i :: 0 <= i < |deployment| && deployment[i].name == a
    requires exists i :: 0 <= i < |deployment| && deployment[i].name == b
    ensures ListsRemote(deployment, a, b) <==> ListsRemote(deployment, b, a)
    ensures ListsRemote(deployment, a, b) <==> a != b
  {
    SharedConfNamesTheOthers(deployment, a, b);
    SharedConfNamesTheOthers(deployment, b, a);
  }

  // ---------- a site's own files ----------

  lemma SiteEndpointIsPlain(prefix: string, index: nat, port: nat)
    requires ':' !in prefix && ',' !in prefix && '\n' !in prefix
    ensures Plain(Endpoint(SiteIp(prefix, index), port))
  {
    forall i | 0 <= i < |SiteIp(prefix, index)|
      ensures SiteIp(prefix, index)[i] !in ":,\n"
    {
      if |prefix| <= i {
        assert IsDigit(Print(index)[i - |prefix|]);
      }
    }
  }

  /** The two shared files of a deployment of two sites, word for word. */
  lemma TwoSitesAsWritten(a: Entry, b: Entry)
    requires a.name != b.name
    ensures SharedConf([a, b], a.name)
            == "[sites]" + "\n" + ("local_site = " + a.name) + "\n"
               + ("remote_site = " + b.name + "=" + b.topology.chronosDomain) + "\n"
    ensures SharedConf([a, b], b.name)
            == "[sites]" + "\n" + ("remote_site = " + a.name + "=" + a.topology.chronosDomain) + "\n"
               + ("local_site = " + b.name) + "\n"
  {
    var (here, there) := ("local_site = " + a.name, "remote_site = " + b.name + "=" + b.topology.chronosDomain);
    assert PrintLines(SiteLines([a, b], a.name)) == [here, there];
    assert [SITES] + [here, there] == [SITES, here, there];
    ThreeLines(SITES, here, there);
    here, there := "local_site = " + b.name, "remote_site = " + a.name + "=" + a.topology.chronosDomain;
    assert PrintLines(SiteLines([a, b], b.name)) == [there, here];
    assert [SITES] + [there, here] == [SITES, there, here];
    ThreeLines(SITES, there, here);
  }

  lemma ThreeLines(a: string, b: string, c: string)
    ensures Terminate([a, b, c], '\n') == a + "\n" + b + "\n" + c + "\n"
  {
    assert [a, b, c][1..] == [b, c] && [b, c][1..] == [c] && [c][1..] == [];
    assert Terminate([c], '\n') == c + "\n" + "";
    assert Terminate([b, c], '\n') == b + "\n" + (c + "\n");
    assert Terminate([a, b, c], '\n') == a + "\n" + (b + "\n" + (c + "\n"));
  }
}
