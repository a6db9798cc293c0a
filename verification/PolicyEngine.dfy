/** The security monitor's policy stage: first matching policy wins, every record is passed on. */
module PolicyEngine {
  import opened Common
  import opened SlidingWindow
  import opened ThreatCorrelator

  datatype Action = Quarantine | Pause | NetworkIsolate

  /** A field that is None matches anything. */
  datatype Policy = Policy(threatType: Option<string>, severity: Option<string>, action: Action)

  predicate Matches(p: Policy, threatType: string, severity: string) {
    && (p.threatType.Some? ==> p.threatType.value == threatType)
    && (p.severity.Some? ==> p.severity.value == severity)
  }

  /** The action of the first matching policy. */
  function Select(policies: seq<Policy>, threatType: string, severity: string): Option<Action> {
    if policies == [] then None
    else if Matches(policies[0], threatType, severity) then Some(policies[0].action)
    else Select(policies[1..], threatType, severity)
  }

  datatype Enforcement = Enforcement(node: string, action: Action)

  /** No action is taken against the monitor itself or an unknown node. */
  predicate Exempt(node: string) {
    node in {"security-monitor", "unknown"}
  }

  function Enforced(policies: seq<Policy>, t: Threat): seq<Enforcement> {
    match Select(policies, t.threatType, t.severity)
    case None => []
    case Some(a) => if Exempt(t.nodeId) then [] else [Enforcement(t.nodeId, a)]
  }

  function AllEnforced(policies: seq<Policy>, threats: seq<Threat>): seq<Enforcement> {
    if threats == [] then []
    else AllEnforced(policies, threats[..|threats|-1]) + Enforced(policies, threats[|threats|-1])
  }

  /** The stage between its two queues; `enforcements` are the actions requested of Docker. */
  class PolicyEngine {
    const policies: seq<Policy>
    var input: seq<Threat>
    var output: seq<Threat>
    var enforcements: seq<Enforcement>

    constructor (policies: seq<Policy>, input: seq<Threat>)
      ensures this.policies == policies && this.input == input && output == [] && enforcements == []
    {
      this.policies, this.input := policies, input;
      output, enforcements := [], [];
    }

    /** The policy loop. */
    method Evaluate(threatType: string, severity: string) returns (action: Option<Action>)
      ensures action == Select(policies, threatType, severity)
    {
      for i := 0 to |policies|
        invariant Select(policies, threatType, severity) == Select(policies[i..], threatType, severity)
      {
        var matching := true;
        if policies[i].threatType.Some? && policies[i].threatType.value != threatType {
          matching := false;
        }
        if policies[i].severity.Some? && policies[i].severity.value != severity {
          matching := false;
        }
        if matching {
          return Some(policies[i].action);
        }
      }
      return None;
    }

    /** Process everything waiting: each record passes on once, in order, whatever was enforced. */
    method Drain()
      modifies this
      ensures input == [] && output == old(output) + old(input)
      ensures enforcements == old(enforcements) + AllEnforced(policies, old(input))
    {
      ghost var done: seq<Threat> := [];
      while input != []
        invariant done + input == old(input)
        invariant output == old(output) + done
        invariant enforcements == old(enforcements) + AllEnforced(policies, done)
        decreases |input|
      {
        var t := input[0];
        input := input[1..];
        output := output + [t];
        ghost var next := done + [t];
        assert next + input == old(input) && output == old(output) + next;
        EnforcedNext(policies, done, t);
        var action := Evaluate(t.threatType, t.severity);
        assert Enforced(policies, t) ==
               if action.None? || Exempt(t.nodeId) then [] else [Enforcement(t.nodeId, action.value)];
        hide Select, Exempt, Enforced, AllEnforced;
        ConcatAssociates(old(enforcements), AllEnforced(policies, done), Enforced(policies, t));
        if action.Some? && !Exempt(t.nodeId) {
          enforcements := enforcements + [Enforcement(t.nodeId, action.value)];
        }
        done := next;
      }
      assert done + [] == done;
    }
  }

  lemma {:induction false} EnforcedNext(policies: seq<Policy>, done: seq<Threat>, t: Threat)
    ensures AllEnforced(policies, done + [t]) == AllEnforced(policies, done) + Enforced(policies, t)
  {
    assert (done + [t])[..|done|] == done;
  }

  // ---- The shipped tables ----

  function Shipped(): seq<Policy> {
    [ Policy(Some("ROGUE_NODE"), None, Quarantine),
      Policy(Some("TELEMETRY_TAMPER"), None, Quarantine),
      Policy(Some("POLICY_TAMPER"), Some("CRITICAL"), Quarantine),
      Policy(None, Some("CRITICAL"), Quarantine),
      Policy(Some("LATERAL_MOVEMENT"), None, Pause),
      Policy(Some("Fanout_Excess"), None, NetworkIsolate),
      Policy(Some("REVERSE_SHELL"), None, Quarantine),
      Policy(Some("CONTAINER_ESCAPE_ATTEMPT"), None, Quarantine),
      Policy(Some("PRIV_ESC_ATTEMPT"), None, Pause),
      Policy(Some("POLICY_TAMPER"), None, NetworkIsolate),
      Policy(Some("ALLOWLIST_TAMPER"), None, NetworkIsolate) ]
  }

  /** Used when the policy file cannot be read. */
  function Fallback(): seq<Policy> {
    [ Policy(Some("ROGUE_NODE"), None, Quarantine),
      Policy(Some("NODE_IMPERSONATION"), None, Quarantine),
      Policy(Some("CONFIG_TAMPER"), None, Quarantine),
      Policy(None, Some("CRITICAL"), Quarantine),
      Policy(Some("Lateral_Movement"), None, Pause),
      Policy(Some("Fanout_Excess"), None, NetworkIsolate) ]
  }

  /** Select answers with the first row that matches, and with nothing when no row does. */
  lemma {:induction false} SelectIsFirst(policies: seq<Policy>, k: nat, threatType: string, severity: string)
    requires k <= |policies|
    requires forall i :: 0 <= i < k ==> !Matches(policies[i], threatType, severity)
    requires k < |policies| ==> Matches(policies[k], threatType, severity)
    ensures Select(policies, threatType, severity) == if k < |policies| then Some(policies[k].action) else None
  {
    if k > 0 {
      SelectIsFirst(policies[1..], k - 1, threatType, severity);
    }
  }

  /** In a table where only quarantine stands above a rule for every critical record, critical means quarantine. */
  lemma {:induction false} CriticalFirst(policies: seq<Policy>, k: nat, threatType: string)
    requires k < |policies| && policies[k].threatType.None? && policies[k].severity == Some("CRITICAL")
    requires forall i :: 0 <= i <= k ==> policies[i].action == Quarantine
    ensures Select(policies, threatType, "CRITICAL") == Some(Quarantine)
  {
    if k > 0 {
      CriticalFirst(policies[1..], k - 1, threatType);
    }
  }

  /** Both tables quarantine every critical record, whatever its threat type. */
  lemma {:induction false} CriticalQuarantines(threatType: string)
    ensures Select(Shipped(), threatType, "CRITICAL") == Some(Quarantine)
    ensures Select(Fallback(), threatType, "CRITICAL") == Some(Quarantine)
  {
    CriticalFirst(Shipped(), 3, threatType);
    CriticalFirst(Fallback(), 3, threatType);
  }

  /**
    From the join to the action.  A network or Falco event with a Docker event of its node within
    ten seconds before it is quarantined, unless its node resolves to the monitor itself.
  */
  lemma {:induction false} CorrelatedIsQuarantined(stream: Stream, addresses: AddressMap, e: Event, now: real)
    requires Ordered(stream) && UpTo(stream, now) && e.source in {Suricata, Zeek, Falco}
    requires DockerNearby(stream, Target(addresses, e), now)
    ensures
      var out := Step(After(stream), addresses, e, now).1;
      |out| == 1 &&
      Enforced(Shipped(), out[0]) ==
        if Exempt(Target(addresses, e)) then [] else [Enforcement(Target(addresses, e), Quarantine)]
  {
    JoinIsFullHistory(stream, addresses, e, now);
    hide Step, Target, DockerNearby, Shipped, Exempt;
    var out := Step(After(stream), addresses, e, now).1;
    CriticalQuarantines(out[0].threatType);
  }

  /** An attack between tenants: the network event's source is blamed and stopped, not the tenant it is aimed at. */
  lemma {:induction false} AttackerIsQuarantined(stream: Stream, addresses: AddressMap, e: Event, now: real,
                                                 attacker: string)
    requires Ordered(stream) && UpTo(stream, now) && e.source in {Suricata, Zeek}
    requires MapsTo(addresses, SourceOf(e), attacker) && DockerNearby(stream, attacker, now)
    ensures
      var out := Step(After(stream), addresses, e, now).1;
      |out| == 1 && Enforced(Shipped(), out[0]) == [Enforcement(attacker, Quarantine)]
  {
    BlamedNode(After(stream), addresses, e, now);
    JoinIsFullHistory(stream, addresses, e, now);
    TenantIff(attacker);
    assert Tenant(attacker);
    CorrelatedIsQuarantined(stream, addresses, e, now);
    assert !Exempt(attacker);
    hide Step, Target, DockerNearby, Shipped, Exempt, MapsTo, Enforced, Tenant;
  }

  predicate QuarantinedType(threatType: string) {
    || threatType == "ROGUE_NODE" || threatType == "TELEMETRY_TAMPER"
    || threatType == "REVERSE_SHELL" || threatType == "CONTAINER_ESCAPE_ATTEMPT"
  }

  /** The row of the shipped table that decides a record below critical severity; 11 when none does. */
  function Deciding(threatType: string): (k: nat) {
    if threatType == "ROGUE_NODE" then 0
    else if threatType == "TELEMETRY_TAMPER" then 1
    else if threatType == "LATERAL_MOVEMENT" then 4
    else if threatType == "Fanout_Excess" then 5
    else if threatType == "REVERSE_SHELL" then 6
    else if threatType == "CONTAINER_ESCAPE_ATTEMPT" then 7
    else if threatType == "PRIV_ESC_ATTEMPT" then 8
    else if threatType == "POLICY_TAMPER" then 9
    else if threatType == "ALLOWLIST_TAMPER" then 10
    else 11
  }

  /** The shipped table selects quarantine for critical records and for four threat types, and for nothing else. */
  lemma {:induction false} QuarantineSelectedIff(threatType: string, severity: string)
    ensures Select(Shipped(), threatType, severity) == Some(Quarantine) <==>
            severity == "CRITICAL" || QuarantinedType(threatType)
  {
    if severity == "CRITICAL" {
      CriticalQuarantines(threatType);
    } else {
      SelectIsFirst(Shipped(), Deciding(threatType), threatType, severity);
    }
  }

  /** What the shipped table selects below critical severity, in full. */
  lemma {:induction false} ShippedSelects(threatType: string, severity: string)
    requires severity != "CRITICAL"
    ensures Select(Shipped(), threatType, severity) == Some(Pause) <==>
            threatType == "LATERAL_MOVEMENT" || threatType == "PRIV_ESC_ATTEMPT"
    ensures Select(Shipped(), threatType, severity) == Some(NetworkIsolate) <==>
            threatType == "Fanout_Excess" || threatType == "POLICY_TAMPER" || threatType == "ALLOWLIST_TAMPER"
  {
    SelectIsFirst(Shipped(), Deciding(threatType), threatType, severity);
  }

  /** What the built-in table selects below critical severity. */
  lemma {:induction false} FallbackSelects(threatType: string, severity: string)
    requires severity != "CRITICAL"
    ensures Select(Fallback(), threatType, severity) ==
            if threatType == "ROGUE_NODE" || threatType == "NODE_IMPERSONATION" || threatType == "CONFIG_TAMPER" then
              Some(Quarantine)
            else if threatType == "Lateral_Movement" then Some(Pause)
            else if threatType == "Fanout_Excess" then Some(NetworkIsolate)
            else None
  {
    var k :=
      if threatType == "ROGUE_NODE" then 0
      else if threatType == "NODE_IMPERSONATION" then 1
      else if threatType == "CONFIG_TAMPER" then 2
      else if threatType == "Lateral_Movement" then 4
      else if threatType == "Fanout_Excess" then 5
      else 6;
    SelectIsFirst(Fallback(), k, threatType, severity);
  }

  /**
    An action is requested for a record exactly if a row matches and it is about a node other than the monitor
    or an unknown one.
  */
  lemma {:induction false} EnforcedIff(policies: seq<Policy>, t: Threat, x: Enforcement)
    ensures x in Enforced(policies, t) <==>
            && Select(policies, t.threatType, t.severity) == Some(x.action)
            && x.node == t.nodeId && t.nodeId != "security-monitor" && t.nodeId != "unknown"
  {
    hide Select;
  }
}
