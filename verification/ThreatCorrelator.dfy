/** The security monitor's correlator: network and Falco events joined with recent Docker events of the same node. */
module ThreatCorrelator {
  import opened Common
  import opened SlidingWindow

  const WINDOW := 10.0

  datatype Source = Docker | Suricata | Zeek | Falco | Other

  /** Empty strings stand for absent addresses; None for an absent key. */
  datatype Event = Event(
    source: Source,
    node: string,
    nodeId: Option<string>,
    srcIp: string,
    destIp: string,
    threatType: Option<string>,
    severity: Option<string>,
    description: string)

  datatype Evidence = OfDocker(event: Event) | OfNetwork(alert: Event, dockerEvents: seq<Event>)

  datatype Threat = Threat(nodeId: string, threatType: string, severity: string, description: string, correlated: bool,
                           evidence: Evidence)

  type History = map<string, seq<Stamped<Event>>>

  /** The address map as the container listing gives it. */
  type AddressMap = map<string, string>

  predicate Tenant(name: string) {
    name in {"node1", "node2", "node3", "node4"}
  }

  predicate Direct(threatType: string) {
    threatType in {"CONTAINER_EXEC", "UNEXPECTED_EXEC", "SUSPICIOUS_RESTART_PATTERN",
                   "UNEXPECTED_NETWORK_ATTACH", "CONTAINER_RENAME"}
  }

  function Resolve(addresses: AddressMap, name: string): string {
    if name == "" then "unknown"
    else if Tenant(name) then name
    else Lookup(addresses, name, "unknown")
  }

  /** Falco names a container; the others give addresses.  What stays unknown is blamed on the monitor. */
  function Target(addresses: AddressMap, e: Event): string {
    var nodeId := if e.nodeId.Some? then e.nodeId.value else "";
    var src := if e.srcIp != "" then e.srcIp else nodeId;
    var found :=
      if e.source == Falco then
        var named := if e.nodeId.Some? then e.nodeId.value else "unknown";
        if Tenant(named) || named == "security-monitor" then named else Resolve(addresses, src)
      else
        var bySource := Resolve(addresses, src);
        if bySource == "unknown" then Resolve(addresses, e.destIp) else bySource;
    if found == "unknown" then "security-monitor" else found
  }

  function ItemsOf(q: seq<Stamped<Event>>): (r: seq<Event>)
    ensures |r| == |q| && forall i :: 0 <= i < |q| ==> r[i] == q[i].item
  {
    if q == [] then [] else ItemsOf(q[..|q|-1]) + [q[|q|-1].item]
  }

  /** The record a network or Falco event becomes, given the Docker events found beside it. */
  function Joined(e: Event, node: string, docker: seq<Event>): Threat {
    Threat(
      node,
      if e.threatType.Some? then e.threatType.value else "NETWORK_THREAT",
      if docker != [] then "CRITICAL" else if e.severity.Some? then e.severity.value else "MEDIUM",
      if docker != [] then "Correlated activity: " + e.description + " combined with Docker event(s)"
      else e.description,
      docker != [],
      OfNetwork(e, docker))
  }

  function DirectThreat(e: Event): seq<Threat> {
    if e.threatType.Some? && Direct(e.threatType.value) then
      [Threat(e.node, e.threatType.value, "HIGH",
              "Docker behavioural threat detected: " + e.threatType.value + " on " + e.node, false, OfDocker(e))]
    else []
  }

  /** One event: the new history and what goes to the policy stage. */
  function Step(h: History, addresses: AddressMap, e: Event, now: real): (History, seq<Threat>) {
    match e.source
    case Docker =>
      (h[e.node := Evict(Lookup(h, e.node, []), now - WINDOW) + [Stamped(now, e)]], DirectThreat(e))
    case Other => (h, [])
    case _ =>
      var node := Target(addresses, e);
      var q := Evict(Lookup(h, node, []), now - WINDOW);
      (if node in h then h[node := q] else h, [Joined(e, node, ItemsOf(q))])
  }

  class ThreatCorrelator {
    var history: History
    var output: seq<Threat>

    constructor ()
      ensures history == map[] && output == []
    {
      history, output := map[], [];
    }

    method Take(addresses: AddressMap, e: Event, now: real)
      modifies this
      ensures
        var (h, threats) := Step(old(history), addresses, e, now);
        history == h && output == old(output) + threats
    {
      hide Target, Direct, Joined;
      if e.source == Docker {
        var q := PopExpired(Lookup(history, e.node, []), now - WINDOW);
        history := history[e.node := q + [Stamped(now, e)]];
        var direct := DirectThreat(e);
        output := output + direct;
      } else if e.source != Other {
        var node := Target(addresses, e);
        var evidence: seq<Event> := [];
        if node in history {
          var q := PopExpired(history[node], now - WINDOW);
          history := history[node := q];
          for i := 0 to |q|
            invariant evidence == ItemsOf(q[..i])
          {
            assert q[..i + 1][..i] == q[..i];
            evidence := evidence + [q[i].item];
          }
          assert q[..|q|] == q;
        }
        output := output + [Joined(e, node, evidence)];
      }
    }
  }

  // ---- The join over whole streams ----

  /** An event with the address map in force when it was taken. */
  datatype Taken = Taken(addresses: AddressMap, event: Event)

  type Stream = seq<Stamped<Taken>>

  ghost function After(stream: Stream): History {
    if stream == [] then map[]
    else
      var last := stream[|stream|-1];
      Step(After(stream[..|stream|-1]), last.item.addresses, last.item.event, last.at).0
  }

  /** Every Docker event of the node, in order. */
  ghost function DockerHistory(stream: Stream, node: string): seq<Stamped<Event>> {
    if stream == [] then []
    else
      var before := DockerHistory(stream[..|stream|-1], node);
      var last := stream[|stream|-1];
      if last.item.event.source == Docker && last.item.event.node == node then
        before + [Stamped(last.at, last.item.event)]
      else before
  }

  lemma {:induction false} StepAgrees(h: History, full: seq<Stamped<Event>>, t: Taken, now: real, node: string)
    requires Agrees(Lookup(h, node, []), full, WINDOW, now)
    ensures
      var h' := Step(h, t.addresses, t.event, now).0;
      Agrees(Lookup(h', node, []),
             if t.event.source == Docker && t.event.node == node then full + [Stamped(now, t.event)] else full,
             WINDOW, now)
  {
    var q := Lookup(h, node, []);
    AgreesEvict(q, full, WINDOW, now);
    AgreesAppend(Evict(q, now - WINDOW), full, WINDOW, now, t.event);
    hide Agrees, Target, DirectThreat, Joined;
  }

  lemma {:induction false} HistoryAgrees(stream: Stream, node: string, now: real)
    requires Ordered(stream) && UpTo(stream, now)
    ensures Agrees(Lookup(After(stream), node, []), DockerHistory(stream, node), WINDOW, now)
  {
    if stream != [] {
      var before, last := stream[..|stream|-1], stream[|stream|-1];
      HistoryAgrees(before, node, last.at);
      hide Step, Agrees;
      StepAgrees(After(before), DockerHistory(before, node), last.item, last.at, node);
      AgreesLater(Lookup(After(stream), node, []), DockerHistory(stream, node), WINDOW, last.at, now);
    }
  }

  /** A Docker event of the node was taken in the closed ten seconds before now. */
  ghost predicate DockerNearby(stream: Stream, node: string, now: real) {
    exists i :: 0 <= i < |stream| && NearbyAt(stream[i], node, now)
  }

  ghost predicate NearbyAt(t: Stamped<Taken>, node: string, now: real) {
    t.item.event.source == Docker && t.item.event.node == node && t.at >= now - 10.0
  }

  lemma {:induction false} NearbyIsNonempty(stream: Stream, node: string, now: real)
    ensures DockerNearby(stream, node, now) <==> Since(DockerHistory(stream, node), now - 10.0) != []
  {
    if stream != [] {
      var before, last := stream[..|stream|-1], stream[|stream|-1];
      NearbyIsNonempty(before, node, now);
      var h := DockerHistory(before, node);
      assert (h + [Stamped(last.at, last.item.event)])[..|h|] == h;
      assert forall i :: 0 <= i < |before| ==> before[i] == stream[i];
      if DockerNearby(before, node, now) {
        var i :| 0 <= i < |before| && NearbyAt(before[i], node, now);
        assert NearbyAt(stream[i], node, now);
      }
      if DockerNearby(stream, node, now) {
        var i :| 0 <= i < |stream| && NearbyAt(stream[i], node, now);
        assert i < |before| ==> NearbyAt(before[i], node, now);
      }
    }
  }

  /**
    The join.  After any stream, a network or Falco event becomes exactly one record: it is
    correlated, and critical by correlation, iff a Docker event of its node was taken within ten
    seconds; its evidence is all those Docker events, in order.
  */
  lemma {:induction false} JoinIsFullHistory(stream: Stream, addresses: AddressMap, e: Event, now: real)
    requires Ordered(stream) && UpTo(stream, now) && e.source in {Suricata, Zeek, Falco}
    ensures
      var out := Step(After(stream), addresses, e, now).1;
      var node := Target(addresses, e);
      && |out| == 1 && out[0].nodeId == node
      && (out[0].correlated <==> DockerNearby(stream, node, now))
      && out[0].evidence == OfNetwork(e, ItemsOf(Since(DockerHistory(stream, node), now - 10.0)))
      && (out[0].correlated ==> out[0].severity == "CRITICAL")
      && (!out[0].correlated ==> out[0].severity == if e.severity.Some? then e.severity.value else "MEDIUM")
  {
    var node := Target(addresses, e);
    HistoryAgrees(stream, node, now);
    AgreesQuery(Lookup(After(stream), node, []), DockerHistory(stream, node), WINDOW, now);
    NearbyIsNonempty(stream, node, now);
    hide Target, Agrees, DirectThreat, DockerNearby;
  }

  // ---- Whom an event is blamed on ----

  lemma {:induction false} TenantIff(name: string)
    ensures Tenant(name) <==> name == "node1" || name == "node2" || name == "node3" || name == "node4"
  {
  }

  /** The name is that tenant's, or an address the container listing gives for it. */
  ghost predicate MapsTo(addresses: AddressMap, name: string, tenant: string) {
    && Tenant(tenant)
    && (name == tenant || (name != "" && !Tenant(name) && name in addresses && addresses[name] == tenant))
  }

  /** No tenant is known by this name or address. */
  ghost predicate Unmapped(addresses: AddressMap, name: string) {
    name == "" || (!Tenant(name) && name !in addresses)
  }

  /** The listing names tenants only, so every name maps to one tenant or to none. */
  lemma {:induction false} MappedOrNot(addresses: AddressMap, name: string)
    requires forall x <- addresses :: Tenant(addresses[x])
    ensures Unmapped(addresses, name) <==> forall tenant :: !MapsTo(addresses, name, tenant)
  {
    if Tenant(name) { assert MapsTo(addresses, name, name); }
    else if name != "" && name in addresses { assert MapsTo(addresses, name, addresses[name]); }
  }

  /** What an event gives as its source: an address, or failing that a name. */
  ghost function SourceOf(e: Event): string {
    if e.srcIp != "" then e.srcIp else if e.nodeId.Some? then e.nodeId.value else ""
  }

  /**
    Whom a record blames.  A Suricata or Zeek event is its source's, whatever its destination; its destination's if
    no tenant is known by the source; and the monitor's if none is known by either.  A Falco event is that of
    the container it names, if that is a tenant or the monitor, and otherwise goes by its source alone.
  */
  lemma {:induction false} BlamedNode(h: History, addresses: AddressMap, e: Event, now: real)
    requires e.source in {Suricata, Zeek, Falco}
    ensures
      var out := Step(h, addresses, e, now).1;
      && |out| == 1
      && (e.source != Falco ==>
            && (forall tenant :: MapsTo(addresses, SourceOf(e), tenant) ==> out[0].nodeId == tenant)
            && (Unmapped(addresses, SourceOf(e)) ==>
                  && (forall tenant :: MapsTo(addresses, e.destIp, tenant) ==> out[0].nodeId == tenant)
                  && (Unmapped(addresses, e.destIp) ==> out[0].nodeId == "security-monitor")))
      && (e.source == Falco ==>
            var named := if e.nodeId.Some? then e.nodeId.value else "";
            if Tenant(named) || named == "security-monitor" then out[0].nodeId == named
            else
              && (forall tenant :: MapsTo(addresses, SourceOf(e), tenant) ==> out[0].nodeId == tenant)
              && (Unmapped(addresses, SourceOf(e)) ==> out[0].nodeId == "security-monitor"))
  {
    forall name, tenant | MapsTo(addresses, name, tenant) ensures Resolve(addresses, name) == tenant != "unknown" {
      TenantIff(tenant);
      TenantIff(name);
      TenantIff("");
    }
    TenantIff("unknown");
    TenantIff("");
    forall name | Unmapped(addresses, name) ensures Resolve(addresses, name) == "unknown" {
    }
    hide Tenant, Resolve, MapsTo, Unmapped, Evict, Joined, DirectThreat;
  }

  /**
    What a record says about its event, beyond the node: defaults for what the event leaves out, and the
    escalation.
  */
  lemma {:induction false} RecordSays(h: History, addresses: AddressMap, e: Event, now: real)
    requires e.source in {Suricata, Zeek, Falco}
    ensures
      var out := Step(h, addresses, e, now).1;
      && |out| == 1
      && out[0].threatType == (match e.threatType case Some(t) => t case None => "NETWORK_THREAT")
      && out[0].description == (if out[0].correlated then
                                  "Correlated activity: " + e.description + " combined with Docker event(s)"
                                else e.description)
      && out[0].severity == (if out[0].correlated then "CRITICAL"
                             else match e.severity case Some(s) => s case None => "MEDIUM")
  {
    hide Target, DirectThreat, Evict;
  }

  /**
    A Docker event is passed on at once exactly for five threat types, as HIGH and uncorrelated, under its own
    node.
  */
  lemma {:induction false} DirectIff(h: History, addresses: AddressMap, e: Event, now: real, t: Threat)
    requires e.source == Docker
    ensures t in Step(h, addresses, e, now).1 <==>
            && e.threatType.Some?
            && (var x := e.threatType.value;
                || x == "CONTAINER_EXEC" || x == "UNEXPECTED_EXEC" || x == "SUSPICIOUS_RESTART_PATTERN"
                || x == "UNEXPECTED_NETWORK_ATTACH" || x == "CONTAINER_RENAME")
            && t == Threat(e.node, e.threatType.value, "HIGH",
                           "Docker behavioural threat detected: " + e.threatType.value + " on " + e.node, false,
                           OfDocker(e))
  {
    hide Target, Evict, Joined;
  }

  /** Only Docker, Suricata, Zeek and Falco events become records, only Docker events are remembered. */
  lemma {:induction false} OthersIgnored(h: History, addresses: AddressMap, e: Event, now: real)
    ensures
      var (h', out) := Step(h, addresses, e, now);
      && (e.source == Other ==> h' == h && out == [])
      && (e.source != Docker ==> forall node, t :: t in Lookup(h', node, []) ==> t in Lookup(h, node, []))
  {
    var node := Target(addresses, e);
    var k := EvictIsSuffix(Lookup(h, node, []), now - WINDOW);
    hide Target, Joined, DirectThreat, Evict;
  }
}
