/**
  Runs of the engine from an empty database, under the shipped configuration and rules, in which a
  review, a quarantine or the latch is lost.
*/
module LatchRuns {
  import opened Common
  import opened SlidingWindow
  import opened Scoring
  import opened Store
  import opened RiskEngine
  import Rules
  import Correlator
  import Pipeline

  /** The shipped criticality; nodes not listed have 4. */
  const CRITICALITY: map<string, int> := map["node1" := 3, "node2" := 3, "node3" := 5, "node4" := 100]

  /** Buckets, decay, criticality and correlation as shipped. */
  ghost predicate Shipped(cfg: Pipeline.Config) {
    && cfg.score == ScoreConfig(SHIPPED_BOUNDS, CRITICALITY, 4, SHIPPED_DECAY)
    && cfg.cross == Correlator.Cross(600.0, 3, 1.5) && cfg.multiRules == Correlator.ShippedRules()
    && cfg.multiRules != []
  }

  lemma {:induction false} ShippedUsable(cfg: Pipeline.Config)
    requires Shipped(cfg)
    ensures cfg.multiRules != [] && Sound(cfg)
    ensures cfg.score.bounds == SHIPPED_BOUNDS && cfg.score.decayRate == SHIPPED_DECAY
    ensures cfg.score.AssetCriticality("node1") == 3 && cfg.score.AssetCriticality("node4") == 100
    ensures cfg.cross == Correlator.Cross(600.0, 3, 1.5)
  {
    hide Correlator.ShippedRules;
    assert "node1"[4] != "node2"[4] && "node1"[4] != "node3"[4] && "node1"[4] != "node4"[4];
    assert CRITICALITY["node1"] == 3 && CRITICALITY["node4"] == 100;
  }

  // ---- A replay alert under the shipped rules ----

  const REPLAY := "Replay attack"

  /** The reason the controller gives for a stale message sent under a node's name. */
  function ReplayReason(node: string): string {
    REPLAY + (" detected from node=" + node + (": Stale timestamp" + ": 31.0s old (max 30s)"))
  }

  predicate Named(node: string) {
    node == "node1" || node == "node2" || node == "node3" || node == "node4"
  }

  /** Characters such a reason does not contain. */
  predicate Foreign(c: char) {
    c == 'F' || c == 'H' || c == 'I' || c == 'L' || c == 'N' || c == '_' || c == 'g' || c == 'u'
  }

  predicate Plain(s: string) {
    forall i | 0 <= i < |s| :: !Foreign(s[i])
  }

  lemma {:induction false} PlainConcat(a: string, b: string)
    requires Plain(a) && Plain(b)
    ensures Plain(a + b)
  {
  }

  lemma {:induction false} PlainPieces(node: string)
    requires Named(node)
    ensures Plain(REPLAY) && Plain(" detected from node=") && Plain(node)
    ensures Plain(": Stale timestamp") && Plain(": 31.0s old (max 30s)")
  {
  }

  lemma {:induction false} NothingForeign(node: string)
    requires Named(node)
    ensures Plain(ReplayReason(node))
  {
    PlainPieces(node);
    hide Plain;
    var where := " detected from node=" + node;
    PlainConcat(" detected from node=", node);
    PlainConcat(": Stale timestamp", ": 31.0s old (max 30s)");
    PlainConcat(where, ": Stale timestamp" + ": 31.0s old (max 30s)");
    PlainConcat(REPLAY, where + (": Stale timestamp" + ": 31.0s old (max 30s)"));
  }

  lemma {:induction false} LacksForeign(node: string, sub: string, i: nat)
    requires Named(node) && i < |sub| && Foreign(sub[i])
    ensures !Rules.Contains(ReplayReason(node), sub)
  {
    var text := ReplayReason(node);
    NothingForeign(node);
    hide ReplayReason, Foreign, Named;
    forall k | 0 <= k <= |text| ensures !Rules.OccursAt(text, sub, k) {
      if k + |sub| <= |text| {
        assert text[k..k + |sub|][i] == text[k + i];
      }
    }
  }

  function Product(r: Rules.Rule): int {
    r.severity * r.blastRadius
  }

  /** A rule heavier than the replay rule that asks for something the reason does not hold. */
  ghost predicate Harmless(node: string, r: Rules.Rule) {
    r.severity >= 0 && r.blastRadius >= 0 && (Product(r) > 1125 ==> !Rules.Matches(r, ReplayReason(node)))
  }

  lemma {:induction false} ProtocolHarmless(node: string, r: Rules.Rule)
    requires Named(node) && r in Rules.ProtocolRules()
    ensures Harmless(node, r)
  {
    LacksForeign(node, "Rogue node", 2);
    LacksForeign(node, "machine_id", 7);
    LacksForeign(node, "HMAC", 0);
    hide Rules.Contains, ReplayReason, Named;
  }

  lemma {:induction false} NetworkHarmless(node: string, r: Rules.Rule)
    requires Named(node) && r in Rules.NetworkRules()
    ensures Harmless(node, r)
  {
    LacksForeign(node, "Network threat", 0);
    LacksForeign(node, "Lateral movement", 0);
    hide Rules.Contains, ReplayReason, Named;
  }

  lemma {:induction false} ImageHarmless(node: string, r: Rules.Rule)
    requires Named(node) && r in Rules.ImageRules()
    ensures Harmless(node, r)
  {
    LacksForeign(node, "Image digest mismatch", 0);
    LacksForeign(node, "no approved image digest", 15);
    LacksForeign(node, "Image drift", 0);
    hide Rules.Contains, ReplayReason, Named;
  }

  lemma {:induction false} DriftHarmless(node: string, r: Rules.Rule)
    requires Named(node) && r in Rules.DriftRules()
    ensures Harmless(node, r)
  {
    LacksForeign(node, "Infrastructure config modified", 0);
    LacksForeign(node, "rules.yaml", 1);
    LacksForeign(node, "master_config.yaml", 6);
    hide Rules.Contains, ReplayReason, Named;
  }

  lemma {:induction false} FalcoHarmless(node: string, r: Rules.Rule)
    requires Named(node) && r in Rules.FalcoRules()
    ensures Harmless(node, r)
  {
    LacksForeign(node, "Falco alert", 0);
    LacksForeign(node, "REVERSE_SHELL", 7);
    LacksForeign(node, "PRIV_ESC_ATTEMPT", 4);
    LacksForeign(node, "CONTAINER_ESCAPE_ATTEMPT", 9);
    hide Rules.Contains, ReplayReason, Named;
  }

  lemma {:induction false} DockerHarmless(node: string, r: Rules.Rule)
    requires r in Rules.DockerRules()
    ensures Harmless(node, r)
  {
    hide Rules.Contains, ReplayReason;
  }

  /** Every shipped rule heavier than the replay rule asks for something the reason does not hold. */
  lemma {:induction false} ShippedHarmless(node: string, r: Rules.Rule)
    requires Named(node) && r in Rules.Shipped()
    ensures Harmless(node, r)
  {
    hide Harmless, Named, Rules.ProtocolRules, Rules.NetworkRules, Rules.ImageRules, Rules.DriftRules,
         Rules.DockerRules, Rules.FalcoRules;
    if r in Rules.ProtocolRules() { ProtocolHarmless(node, r); }
    else if r in Rules.NetworkRules() { NetworkHarmless(node, r); }
    else if r in Rules.ImageRules() { ImageHarmless(node, r); }
    else if r in Rules.DriftRules() { DriftHarmless(node, r); }
    else if r in Rules.DockerRules() { DockerHarmless(node, r); }
    else { FalcoHarmless(node, r); }
  }

  function ReplayRule(): Rules.Rule {
    Rules.ProtocolRules()[2]
  }

  lemma {:induction false} ReplayMatches(node: string)
    ensures Rules.MatchOf(ReplayRule()) in Rules.MatchAll(Rules.Shipped(), ReplayReason(node))
    ensures Rules.MatchOf(ReplayRule()) == Match("REPLAY_ATTACK", 45, 25)
  {
    var text := ReplayReason(node);
    assert text[0..0 + |REPLAY|] == REPLAY;
    assert Rules.OccursAt(text, REPLAY, 0);
    hide ReplayReason, Rules.NetworkRules, Rules.ImageRules, Rules.DriftRules, Rules.DockerRules, Rules.FalcoRules;
    assert Rules.Shipped()[2] == ReplayRule();
    assert Rules.Matches(Rules.Shipped()[2], text);
    Rules.MatchedIff(Rules.Shipped(), text, Rules.MatchOf(ReplayRule()));
  }

  /** Whatever else of the shipped rules matches, the replay rule's weight is the one that counts. */
  lemma {:induction false} ReplayWeighs(node: string, criticality: int)
    requires Named(node) && criticality >= 0
    ensures
      var matches := Rules.MatchAll(Rules.Shipped(), ReplayReason(node));
      matches != [] && MaxWeight(matches, criticality) == (1125 * criticality) as real / 1000.0
  {
    var matches := Rules.MatchAll(Rules.Shipped(), ReplayReason(node));
    ReplayMatches(node);
    MaxWeightBounds(matches, criticality);
    forall i | 0 <= i < |matches| ensures Weight(matches[i], criticality) <= (1125 * criticality) as real / 1000.0 {
      Rules.MatchedIff(Rules.Shipped(), ReplayReason(node), matches[i]);
      assert matches[i] in matches;
      LightEnough(node, matches[i]);
      WeightAtMost(matches[i], criticality);
    }
    var i :| 0 <= i < |matches| && matches[i] == Match("REPLAY_ATTACK", 45, 25);
    assert Weight(matches[i], criticality) == (1125 * criticality) as real / 1000.0;
    hide Rules.Shipped, Rules.MatchAll, Weight, MaxWeight, ReplayReason;
  }

  lemma {:induction false} LightEnough(node: string, m: Match)
    requires Named(node) && m in Rules.MatchAll(Rules.Shipped(), ReplayReason(node))
    ensures m.severity * m.blastRadius <= 1125
  {
    Rules.MatchedIff(Rules.Shipped(), ReplayReason(node), m);
    hide Rules.MatchAll, Rules.Matches, ReplayReason, Named, Rules.Shipped;
    var rules := Rules.Shipped();
    var k :| 0 <= k < |rules| && Rules.Matches(rules[k], ReplayReason(node)) && Rules.MatchOf(rules[k]) == m;
    ShippedHarmless(node, rules[k]);
  }

  lemma {:induction false} WeightAtMost(m: Match, criticality: int)
    requires m.severity * m.blastRadius <= 1125 && criticality >= 0
    ensures Weight(m, criticality) <= (1125 * criticality) as real / 1000.0
  {
    assert m.severity * m.blastRadius * criticality <= 1125 * criticality;
  }

  // ---- One node alone ----

  /** The type of every event the controller makes up for an alert. */
  const ALERT := "SECURITY_ALERT"

  /** So far only this node has fired rules, and it has sent nothing but telemetry and controller alerts. */
  ghost predicate Alone(s: State, node: string) {
    && (forall e <- Lookup(s.tables.signals, node, []) :: e.item == ALERT)
    && forall rule :: Correlator.ItemsOf(Lookup(s.tables.windows, rule, [])) <= {node}
  }

  lemma {:induction false} OneTypeFindsNothing(q: seq<Correlator.Named>, now: real)
    requires forall e <- q :: e.item == ALERT
    ensures Correlator.Evaluate(Correlator.ShippedRules(), q, now) == Correlator.Finding(false, 1.0, "")
  {
    var rules := Correlator.ShippedRules();
    Correlator.EvaluateIsFinding(rules, q, now);
    forall i | 0 <= i < |rules| ensures !Correlator.Fires(rules[i], q, now) {
      assert Correlator.Recent(q, now - rules[i].window) <= {ALERT};
      Correlator.NeedsTwo(i, ALERT);
    }
    hide Correlator.Evaluate, Correlator.Fires;
  }

  /** The check of the only node that ever fired a rule does not correlate. */
  lemma {:induction false} CheckAlone(c: Correlator.Cross, w: Correlator.Windows, rule: string, node: string, now: real)
    requires c.threshold >= 2 && forall r :: Correlator.ItemsOf(Lookup(w, r, [])) <= {node}
    ensures
      var (w', hit) := Correlator.Check(c, w, rule, node, now);
      !hit && forall r :: Correlator.ItemsOf(Lookup(w', r, [])) <= {node}
  {
    var q := Lookup(w, rule, []);
    var k := EvictIsSuffix(q, now - c.window);
    var kept := Evict(q, now - c.window);
    assert Correlator.ItemsOf(kept) <= Correlator.ItemsOf(q);
    Correlator.ItemsAppend(kept, Stamped(now, node));
    assert Correlator.ItemsOf(kept + [Stamped(now, node)]) == {node};
    var w' := Correlator.Check(c, w, rule, node, now).0;
    assert Lookup(w', rule, []) == kept + [Stamped(now, node)];
    hide Correlator.ItemsOf, Evict;
    forall r ensures Correlator.ItemsOf(Lookup(w', r, [])) <= {node} {
      assert r != rule ==> Lookup(w', r, []) == Lookup(w, r, []);
    }
  }

  lemma {:induction false} ChecksAlone(c: Correlator.Cross, w: Correlator.Windows, matches: seq<Match>, node: string,
                                       now: real)
    requires c.threshold >= 2 && forall r :: Correlator.ItemsOf(Lookup(w, r, [])) <= {node}
    ensures
      var (w', hit, multiplier) := Pipeline.CheckAll(c, w, matches, node, now);
      !hit && multiplier == 1.0 && forall r :: Correlator.ItemsOf(Lookup(w', r, [])) <= {node}
  {
    hide Correlator.Check, Correlator.ItemsOf;
    if matches != [] {
      ChecksAlone(c, w, matches[..|matches|-1], node, now);
      var before := Pipeline.CheckAll(c, w, matches[..|matches|-1], node, now).0;
      CheckAlone(c, before, matches[|matches|-1].ruleId, node, now);
    }
  }

  lemma {:induction false} EvictKeepsType(q: seq<Correlator.Named>, cutoff: real)
    requires forall e <- q :: e.item == ALERT
    ensures forall e <- Evict(q, cutoff) :: e.item == ALERT
  {
    var k := EvictIsSuffix(q, cutoff);
  }

  /** The controller's replay alert on a node, and telemetry that gives no reason. */
  function ReplayAlert(node: string, offset: int, at: real): Incoming {
    Incoming(Pipeline.Event(node, offset, [ReplayReason(node)], ALERT), true, false, false, at)
  }

  function Telemetry(node: string, offset: int, at: real): Incoming {
    Incoming(Pipeline.Event(node, offset, [], "NORMAL"), true, false, false, at)
  }

  function OnReplay(node: string, offset: int, at: real, fault: Fault): Action {
    OnEvent(Rules.Shipped(), ReplayAlert(node, offset, at), at, false, fault)
  }

  function OnTelemetry(node: string, offset: int, at: real): Action {
    OnEvent(Rules.Shipped(), Telemetry(node, offset, at), at, false, NoFault)
  }

  ghost function ReplayScore(cfg: Pipeline.Config, node: string): real {
    (1125 * cfg.score.AssetCriticality(node)) as real / 1000.0
  }

  lemma {:induction false} ReplayMultiplier(cfg: Pipeline.Config, s: State, node: string, offset: int, at: real)
    requires Shipped(cfg) && Alone(s, node)
    ensures Pipeline.MultiplierOf(cfg, Rules.Shipped(), s.tables, ReplayAlert(node, offset, at).event, at) == 1.0
  {
    hide Rules.Shipped, Rules.MatchAll, ReplayReason, Pipeline.CheckAll, Correlator.Evaluate, Correlator.ShippedRules;
    hide Rules.Join, Correlator.ItemsOf;
    ChecksAlone(cfg.cross, s.tables.windows, Rules.MatchAll(Rules.Shipped(), Rules.Join([ReplayReason(node)])), node,
                at);
    OneTypeFindsNothing(Lookup(s.tables.signals, node, []) + [Stamped(at, ALERT)], at);
  }

  lemma {:induction false} ReplayTables(cfg: Pipeline.Config, s: State, node: string, offset: int, at: real)
    requires Shipped(cfg) && Alone(s, node)
    ensures
      var tables := Decide(cfg, Rules.Shipped(), s, ReplayAlert(node, offset, at), at).0;
      && (forall e <- Lookup(tables.signals, node, []) :: e.item == ALERT)
      && forall r :: Correlator.ItemsOf(Lookup(tables.windows, r, [])) <= {node}
  {
    hide Rules.Shipped, Rules.MatchAll, ReplayReason, Pipeline.CheckAll, Correlator.Evaluate, Correlator.ShippedRules;
    hide Score, Rules.Join, Correlator.MaxWindow, Evict, Correlator.ItemsOf;
    ShippedUsable(cfg);
    ChecksAlone(cfg.cross, s.tables.windows, Rules.MatchAll(Rules.Shipped(), Rules.Join([ReplayReason(node)])), node,
                at);
    var q := Lookup(s.tables.signals, node, []) + [Stamped(at, ALERT)];
    EvictKeepsType(q, at - Correlator.MaxWindow(cfg.multiRules));
  }

  /** What one replay alert on a lone node leads to. */
  lemma {:induction false} ReplayExact(cfg: Pipeline.Config, s: State, node: string, offset: int, at: real)
    requires Shipped(cfg) && Alone(s, node) && Named(node) && cfg.score.AssetCriticality(node) >= 0
    ensures ExactScore(cfg, Rules.Shipped(), s, ReplayAlert(node, offset, at), at) ==
            ScoreOf(s.db, node) + ReplayScore(cfg, node)
  {
    ReplayWeighs(node, cfg.score.AssetCriticality(node));
    ReplayMultiplier(cfg, s, node, offset, at);
    assert Rules.Join([ReplayReason(node)]) == ReplayReason(node);
    hide Rules.Shipped, Rules.MatchAll, ReplayReason, Pipeline.MultiplierOf, MaxWeight, Rules.Join, Named, Decide,
         Shipped, Alone;
  }

  lemma {:induction false} OnGridAt(k: int)
    ensures OnGrid(Grid(k))
  {
  }

  lemma {:induction false} ReplayAlone(cfg: Pipeline.Config, s: State, node: string, offset: int, at: real)
    requires Shipped(cfg) && Alone(s, node) && Named(node) && offset > s.lastOffset
    ensures Alone(Next(cfg, s, OnReplay(node, offset, at, NoFault)), node)
  {
    ReplayTables(cfg, s, node, offset, at);
    HandledChanges(cfg, s, OnReplay(node, offset, at, NoFault), node);
    hide Next, Decide, Rules.Shipped, ReplayReason, Named, Correlator.ItemsOf, Shipped, Correlator.ShippedRules;
  }

  /** ... and leaves, when the score it leads to is on the grid. */
  lemma {:induction false} ReplayHandled(cfg: Pipeline.Config, s: State, node: string, offset: int, at: real, k: int)
    requires Shipped(cfg) && Alone(s, node) && Named(node) && cfg.score.AssetCriticality(node) >= 0
    requires offset > s.lastOffset
    requires ScoreOf(s.db, node) + ReplayScore(cfg, node) == Grid(k)
    ensures
      var s' := Next(cfg, s, OnReplay(node, offset, at, NoFault));
      && Alone(s', node) && s'.lastOffset == offset && ScoreOf(s'.db, node) == Grid(k)
      && StatusOf(s'.db, node) == StatusFor(BucketOf(SHIPPED_BOUNDS, Grid(k)), false)
  {
    hide Correlator.ShippedRules, Next, Decide, ExactScore, Grid, OnGrid, Round4, BucketOf, Rules.Shipped, ReplayReason;
    hide ReplayScore, Named, Alone;
    var m := ReplayAlert(node, offset, at);
    var a := OnReplay(node, offset, at, NoFault);
    ReplayAlone(cfg, s, node, offset, at);
    ReplayExact(cfg, s, node, offset, at);
    CommittedScore(cfg, Rules.Shipped(), s, m, at);
    DecidedBucket(cfg, Rules.Shipped(), s, m, at);
    OnGridAt(k);
    RoundFixesGrid(Grid(k));
    HandledChanges(cfg, s, a, node);
    HandledStatus(cfg, s, a);
  }

  /** The bucket is that of the unrounded score. */
  lemma {:induction false} DecidedBucket(cfg: Pipeline.Config, rules: seq<Rules.Rule>, s: State, m: Incoming, now: real)
    requires cfg.multiRules != []
    ensures Decide(cfg, rules, s, m, now).1.scored.bucket ==
            BucketOf(cfg.score.bounds, ExactScore(cfg, rules, s, m, now))
  {
    Pipeline.ProcessScores(cfg, rules, s.tables, m.event, ScoreOf(s.db, m.event.node), now);
    hide Pipeline.Process, Pipeline.MultiplierOf, EventScore, Round4, Decayed, BucketOf, Rules.MatchAll;
  }

  lemma {:induction false} HandledStatus(cfg: Pipeline.Config, s: State, a: Action)
    requires cfg.multiRules != [] && a.OnEvent? && Commits(s, a) && a.fault == NoFault && !a.stops
    ensures StatusOf(Next(cfg, s, a).db, a.m.event.node) ==
            StatusFor(Decide(cfg, a.rules, s, a.m, a.now).1.scored.bucket, a.m.busy)
  {
    CommittedChanges(cfg, a.rules, s, a.m, a.now);
    hide Committed, Decide;
  }

  // ---- A review that ends by itself ----

  /** n replay alerts on node1, a second apart. */
  function Replays(n: nat): seq<Action> {
    if n == 0 then [] else Replays(n - 1) + [OnReplay("node1", n, n as real, NoFault)]
  }

  /** The engine after n of them: a lone node1 with n times 3.375. */
  ghost predicate Replayed(s: State, n: nat) {
    && Alone(s, "node1") && s.lastOffset == n && ScoreOf(s.db, "node1") == Grid(33750 * n)
    && (n > 0 ==> StatusOf(s.db, "node1") == StatusFor(BucketOf(SHIPPED_BOUNDS, Grid(33750 * n)), false))
  }

  lemma {:induction false} ReplayedNext(cfg: Pipeline.Config, s: State, n: nat)
    requires Shipped(cfg) && Replayed(s, n)
    ensures Replayed(Next(cfg, s, OnReplay("node1", n + 1, (n + 1) as real, NoFault)), n + 1)
  {
    hide Next, OnReplay, Alone, BucketOf, Shipped, Correlator.ShippedRules;
    ShippedUsable(cfg);
    assert ReplayScore(cfg, "node1") == 3.375;
    assert Grid(33750 * n) + 3.375 == Grid(33750 * (n + 1));
    hide Grid, ReplayScore;
    ReplayHandled(cfg, s, "node1", n + 1, (n + 1) as real, 33750 * (n + 1));
  }

  lemma {:induction false} NoReplays(cfg: Pipeline.Config)
    requires cfg.multiRules != []
    ensures Replayed(RunAll(cfg, FRESH, Replays(0)), 0)
  {
  }

  lemma {:induction false} OneMore(n: nat)
    requires n > 0
    ensures Replays(n) == Replays(n - 1) + [OnReplay("node1", n, n as real, NoFault)]
  {
    hide OnReplay;
  }

  lemma {:induction false} ReplaysScore(cfg: Pipeline.Config, n: nat)
    requires Shipped(cfg)
    ensures Replayed(RunAll(cfg, FRESH, Replays(n)), n)
  {
    hide *;
    ShippedUsable(cfg);
    if n == 0 {
      NoReplays(cfg);
    } else {
      OneMore(n);
      ReplaysScore(cfg, n - 1);
      RunLast(cfg, Replays(n - 1), OnReplay("node1", n, n as real, NoFault));
      ReplayedNext(cfg, RunAll(cfg, FRESH, Replays(n - 1)), n - 1);
    }
  }

  lemma {:induction false} RunLast(cfg: Pipeline.Config, actions: seq<Action>, a: Action)
    requires cfg.multiRules != []
    ensures RunAll(cfg, FRESH, actions + [a]) == Next(cfg, RunAll(cfg, FRESH, actions), a)
  {
    RunAppend(cfg, FRESH, actions, [a]);
    var s := RunAll(cfg, FRESH, actions);
    assert [a][1..] == [];
    assert RunAll(cfg, s, [a]) == RunAll(cfg, Next(cfg, s, a), []);
    hide Next;
  }

  /** Telemetry without a reason, from a score below the latch. */
  lemma {:induction false} TelemetryHandled(cfg: Pipeline.Config, s: State, node: string, offset: int, at: real)
    requires Shipped(cfg) && offset > s.lastOffset && ScoreInv(s.db, node) && ScoreOf(s.db, node) < LATCH
    ensures
      var s' := Next(cfg, s, OnTelemetry(node, offset, at));
      && ScoreOf(s'.db, node) == RiskEngine.Max(ScoreOf(s.db, node) - SHIPPED_DECAY, 0.0)
      && StatusOf(s'.db, node) == Idle && s'.lastOffset == offset && node in s'.lastSeen && s'.lastSeen[node] == at
  {
    SilenceMatchesNothing();
    ShippedSane();
    ShippedUsable(cfg);
    hide Shipped, Sound, Rules.Shipped, Rules.MatchAll, Rules.Join;
    CleanEvent(cfg, Rules.Shipped(), s, Telemetry(node, offset, at), at, false);
    EventHeard(cfg, Rules.Shipped(), s, Telemetry(node, offset, at), at);
    hide Handle, OnGrid;
  }

  lemma {:induction false} EventHeard(cfg: Pipeline.Config, rules: seq<Rules.Rule>, s: State, m: Incoming, at: real)
    requires cfg.multiRules != [] && Accepts(s, m)
    ensures
      var s' := Handle(cfg, rules, s, m, at, false, NoFault);
      s'.lastOffset == m.event.offset && m.event.node in s'.lastSeen && s'.lastSeen[m.event.node] == at
  {
    hide Decide, Settled, RowOf;
  }

  lemma {:induction false} ShippedSane()
    ensures Pipeline.SaneRules(Rules.Shipped())
  {
    hide Rules.Shipped;
    forall r <- Rules.Shipped() ensures r.severity >= 0 && r.blastRadius >= 0 {
      ShippedHarmless("node1", r);
    }
  }

  lemma {:induction false} SilenceMatchesNothing()
    ensures Rules.MatchAll(Rules.Shipped(), Rules.Join([])) == []
  {
    var matches := Rules.MatchAll(Rules.Shipped(), "");
    hide Rules.MatchAll, Rules.Shipped;
    if matches != [] {
      Rules.MatchedIff(Rules.Shipped(), "", matches[0]);
    }
  }

  /**
    Somebody replays one old message of node1: the twenty-first alert brings it to 70.875 and up for review,
    and the node's next telemetry ends the review without an operator.
  */
  lemma {:induction false} ReviewLostRun(cfg: Pipeline.Config)
    requires Shipped(cfg)
    ensures
      var s := RunAll(cfg, FRESH, Replays(21));
      var s' := Next(cfg, s, OnTelemetry("node1", 22, 22.0));
      && ScoreOf(s.db, "node1") == 70.875 && StatusOf(s.db, "node1") == AwaitingApproval
      && ScoreOf(s'.db, "node1") == 65.875 && StatusOf(s'.db, "node1") == Idle
  {
    hide *;
    ShippedUsable(cfg);
    ReplaysScore(cfg, 21);
    ReviewEnds(cfg, RunAll(cfg, FRESH, Replays(21)));
  }

  lemma {:induction false} ReviewEnds(cfg: Pipeline.Config, s: State)
    requires Shipped(cfg) && Replayed(s, 21)
    ensures
      var s' := Next(cfg, s, OnTelemetry("node1", 22, 22.0));
      && ScoreOf(s.db, "node1") == 70.875 && StatusOf(s.db, "node1") == AwaitingApproval
      && ScoreOf(s'.db, "node1") == 65.875 && StatusOf(s'.db, "node1") == Idle
  {
    assert Grid(33750 * 21) == 70.875;
    OnGridAt(33750 * 21);
    ShippedBuckets(70.875);
    hide Next, OnTelemetry, Grid, OnGrid, BucketOf, Shipped, Alone;
    TelemetryHandled(cfg, s, "node1", 22, 22.0);
  }

  // ---- A quarantine that ends by itself ----

  lemma {:induction false} SilentOrDenied(cfg: Pipeline.Config, s: State)
    requires cfg.multiRules != [] && StatusOf(s.db, "node1") == Idle && "node1" in s.lastSeen
    requires s.lastSeen["node1"] == 0.0
    ensures
      var silent, denied := Next(cfg, s, OnHeartbeat("node1", 91.0, Done)), Next(cfg, s, OnDeny("node1", true));
      && StatusOf(silent.db, "node1") == StatusOf(denied.db, "node1") == Quarantined
      && silent.db.scores == denied.db.scores == s.db.scores && silent.lastOffset == denied.lastOffset == s.lastOffset
  {
  }

  lemma {:induction false} RunTwo(cfg: Pipeline.Config, a: Action, b: Action)
    requires cfg.multiRules != []
    ensures RunAll(cfg, FRESH, [a]) == Next(cfg, FRESH, a)
    ensures RunAll(cfg, FRESH, [a, b]) == Next(cfg, Next(cfg, FRESH, a), b)
  {
    assert [] + [a] == [a] && [a] + [b] == [a, b];
    RunLast(cfg, [], a);
    RunLast(cfg, [a], b);
    hide Next;
  }

  /**
    A node silent for more than 90 seconds, or denied by the operator, is quarantined, and idle again after
    one clean event.
  */
  lemma {:induction false} QuarantineLostRun(cfg: Pipeline.Config)
    requires Shipped(cfg)
    ensures
      var silent := RunAll(cfg, FRESH, [OnTelemetry("node1", 1, 0.0), OnHeartbeat("node1", 91.0, Done)]);
      && StatusOf(silent.db, "node1") == Quarantined
      && StatusOf(Next(cfg, silent, OnTelemetry("node1", 2, 92.0)).db, "node1") == Idle
    ensures
      var denied := RunAll(cfg, FRESH, [OnTelemetry("node1", 1, 0.0), OnDeny("node1", true)]);
      && StatusOf(denied.db, "node1") == Quarantined
      && StatusOf(Next(cfg, denied, OnTelemetry("node1", 2, 92.0)).db, "node1") == Idle
  {
    var a, b, d := OnTelemetry("node1", 1, 0.0), OnHeartbeat("node1", 91.0, Done), OnDeny("node1", true);
    var s := Next(cfg, FRESH, a);
    RunTwo(cfg, a, b);
    RunTwo(cfg, a, d);
    assert Grid(0) == 0.0 == ScoreOf(FRESH.db, "node1");
    OnGridAt(0);
    TelemetryHandled(cfg, FRESH, "node1", 1, 0.0);
    SilentOrDenied(cfg, s);
    hide Next, OnGrid, RunAll, OnTelemetry, Grid, Shipped;
    TelemetryHandled(cfg, Next(cfg, s, b), "node1", 2, 92.0);
    TelemetryHandled(cfg, Next(cfg, s, d), "node1", 2, 92.0);
  }

  // ---- The latch broken by a lost status write ----

  lemma {:induction false} FreshReplay(cfg: Pipeline.Config)
    requires Shipped(cfg)
    ensures
      var m := ReplayAlert("node4", 1, 0.0);
      && ExactScore(cfg, Rules.Shipped(), FRESH, m, 0.0) == 112.5
      && Decide(cfg, Rules.Shipped(), FRESH, m, 0.0).1.scored.cumulative == 112.5
  {
    assert ReplayScore(cfg, "node4") == 112.5 == Grid(1125000);
    ReplayExact(cfg, FRESH, "node4", 1, 0.0);
    CommittedScore(cfg, Rules.Shipped(), FRESH, ReplayAlert("node4", 1, 0.0), 0.0);
    OnGridAt(1125000);
    RoundFixesGrid(112.5);
    hide Decide, ExactScore, Round4, OnGrid, Rules.Shipped, ReplayReason;
  }

  /**
    A replay alert brings node4 to 112.5.  If the status write after the commit fails, or the engine dies before
    it and restarts, the node stays idle; and the restarted engine's watermark is past the event.
  */
  lemma {:induction false} StatusLossRun(cfg: Pipeline.Config)
    requires Shipped(cfg)
    ensures
      var s := RunAll(cfg, FRESH, [OnReplay("node4", 1, 0.0, StatusFails)]);
      ScoreOf(s.db, "node4") == 112.5 && StatusOf(s.db, "node4") == Idle && !Held(s.db, "node4")
    ensures
      var s := RunAll(cfg, FRESH, [OnCrashMidway(Rules.Shipped(), ReplayAlert("node4", 1, 0.0), 0.0, 1.0)]);
      && ScoreOf(s.db, "node4") == 112.5 && StatusOf(s.db, "node4") == Idle && !Held(s.db, "node4")
      && s.lastOffset == 1
  {
    var m := ReplayAlert("node4", 1, 0.0);
    var a, b := OnReplay("node4", 1, 0.0, StatusFails), OnCrashMidway(Rules.Shipped(), m, 0.0, 1.0);
    assert cfg.multiRules != [];
    FreshReplay(cfg);
    hide RunAll, Next, Decide, ExactScore, Rules.Shipped, ReplayReason, Shipped, Started;
    RunTwo(cfg, a, b);
    RunTwo(cfg, b, a);
    LossChanges(cfg, a);
    LossChanges(cfg, b);
  }

  lemma {:induction false} LossChanges(cfg: Pipeline.Config, a: Action)
    requires cfg.multiRules != [] && LosesStatus(a, "node4") && Commits(FRESH, a)
    requires Decide(cfg, a.rules, FRESH, a.m, a.now).1.scored.cumulative == 112.5
    ensures
      var s := Next(cfg, FRESH, a);
      && ScoreOf(s.db, "node4") == 112.5 && StatusOf(s.db, "node4") == Idle && !Held(s.db, "node4")
      && s.lastOffset == a.m.event.offset
  {
    HandledChanges(cfg, FRESH, a, "node4");
    EventStatuses(cfg, FRESH, a);
    hide Next, Decide;
  }

  /** Without the status write the statuses are the old ones. */
  lemma {:induction false} EventStatuses(cfg: Pipeline.Config, s: State, a: Action)
    requires cfg.multiRules != [] && Handles(a) && LosesStatus(a, a.m.event.node)
    ensures Next(cfg, s, a).db.statuses == s.db.statuses
  {
    CommittedChanges(cfg, a.rules, s, a.m, a.now);
    hide Committed, Decide, WarmRows;
  }
}
