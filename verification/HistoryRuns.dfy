/** Runs of the engine from an empty database, under the shipped configuration: a finding, and an unlisted node. */
module HistoryRuns {
  import opened Common
  import opened SlidingWindow
  import opened Scoring
  import opened Store
  import opened RiskEngine
  import opened PipelineHistory
  import opened EngineHistory
  import EngineRestart
  import Rules
  import Correlator
  import Pipeline
  import LatchRuns
  import NodeLife

  // ---- One node is not enough for a cross-node finding ----

  lemma {:induction false} LoneNodeIsTooFew(c: Correlator.Cross, feed: Feed, rule: string, node: string, now: real)
    requires c.threshold >= 2 && forall x <- feed :: x.item.event.node == node
    ensures !Enough(c, feed, rule, node, now)
  {
    hide Fired;
    var nodes := NodesFiring(feed, rule, now - c.window);
    forall i | 0 <= i < |feed| ensures feed[i].item.event.node == node {
      assert feed[i] in feed;
    }
    assert nodes <= {node};
    assert nodes + {node} == {node};
  }

  lemma {:induction false} LoneNodeCrossesNothing(cfg: Pipeline.Config, feed: Feed, g: Given, now: real)
    requires cfg.cross.threshold >= 2 && forall c <- feed :: c.item.event.node == g.event.node
    ensures !Crossed(cfg.cross, feed, g, now)
  {
    hide Enough, MatchesOf;
    forall m | m in MatchesOf(g) ensures !Enough(cfg.cross, feed, m.ruleId, g.event.node, now) {
      LoneNodeIsTooFew(cfg.cross, feed, m.ruleId, g.event.node, now);
    }
  }

  // ---- A finding: the shipped deployment rule ----

  function Observed(node: string, offset: int, eventType: string, reasons: seq<string>, at: real): Incoming {
    Incoming(Pipeline.Event(node, offset, reasons, eventType), true, false, false, at)
  }

  function TwoTypes(): set<string> {
    {"IMAGE_MISMATCH", "RUNTIME_DRIFT"}
  }

  /** Of the shipped rules these two types complete exactly the fourth. */
  lemma {:induction false} TwoTypesComplete(k: nat)
    requires k < 7
    ensures Correlator.ShippedRules()[k].types <= TwoTypes() <==> k == 3
  {
    var r := Correlator.ShippedRules()[k];
    if k == 0 { assert "REVERSE_SHELL" in r.types && "REVERSE_SHELL"[1] != "RUNTIME_DRIFT"[1]; }
    else if k == 1 { assert "FALCO_ALERT" in r.types; }
    else if k == 2 { assert "CONTAINER_EXEC" in r.types && "CONTAINER_EXEC"[0] == 'C'; }
    else if k == 4 { assert "ALLOWLIST_TAMPER" in r.types; }
    else if k == 5 { assert "PRIV_ESC_ATTEMPT" in r.types; }
    else if k == 6 { assert "UNEXPECTED_EXEC" in r.types; }
  }

  lemma {:induction false} TwoSeen(rules: seq<Rules.Rule>, first: Event, second: Event, from: real)
    requires first.node == second.node == "node1" && from <= 0.0
    requires first.eventType == "IMAGE_MISMATCH" && second.eventType == "RUNTIME_DRIFT"
    ensures
      var feed := [Stamped(0.0, Given(rules, first))] + [Stamped(1.0, Given(rules, second))];
      TypesSince(feed, "node1", from) == TwoTypes()
  {
    var feed := [Stamped(0.0, Given(rules, first))] + [Stamped(1.0, Given(rules, second))];
    assert first.eventType[0] == 'I' && second.eventType[0] == 'R' && "NORMAL"[0] == 'N';
    assert feed[0].item.event == first && feed[1].item.event == second;
    forall x ensures x in TypesSince(feed, "node1", from) <==> x == first.eventType || x == second.eventType {
    }
  }

  type Event = Pipeline.Event

  lemma {:induction false} FourthFound(rules: seq<Rules.Rule>, first: Event, second: Event)
    requires first.node == second.node == "node1"
    requires first.eventType == "IMAGE_MISMATCH" && second.eventType == "RUNTIME_DRIFT"
    ensures
      var feed := [Stamped(0.0, Given(rules, first))] + [Stamped(1.0, Given(rules, second))];
      forall i :: i in Found(Correlator.ShippedRules(), feed, "node1", 1.0) <==> i == 3
  {
    var feed := [Stamped(0.0, Given(rules, first))] + [Stamped(1.0, Given(rules, second))];
    var multi := Correlator.ShippedRules();
    forall i | 0 <= i < 7 ensures i in Found(multi, feed, "node1", 1.0) <==> i == 3 {
      TwoSeen(rules, first, second, 1.0 - multi[i].window);
      TwoTypesComplete(i);
      hide TypesSince, TwoTypes;
    }
  }

  lemma {:induction false} OneFed(cfg: Pipeline.Config, rules: seq<Rules.Rule>, m: Incoming, at: real)
    requires cfg.multiRules != [] && m.valid && m.event.offset > 0
    ensures FeedOf(cfg, [OnEvent(rules, m, at, false, NoFault)]) == [Stamped(at, Given(rules, m.event))]
  {
    var actions := [OnEvent(rules, m, at, false, NoFault)];
    assert actions[..0] == [] && FeedOf(cfg, []) == [] && RunAll(cfg, FRESH, []) == FRESH;
    hide Next;
  }

  /**
    An image that does not match its digest and a second later a drift of the same node: whatever rules are loaded and
    whatever else the events say, the second is scored with the shipped 2.0 and labelled as a deployment tamper.
  */
  lemma {:induction false} DeploymentTamperRun(cfg: Pipeline.Config, rules: seq<Rules.Rule>, why: seq<string>,
                                               drift: seq<string>)
    requires LatchRuns.Shipped(cfg)
    ensures
      var first := Observed("node1", 1, "IMAGE_MISMATCH", why, 0.0);
      var s := RunAll(cfg, FRESH, [OnEvent(rules, first, 0.0, false, NoFault)]);
      var m := Observed("node1", 2, "RUNTIME_DRIFT", drift, 1.0);
      var d := Decide(cfg, rules, s, m, 1.0).1;
      && d.correlated && d.reasons == drift + ["Multi-signal: Deployment Tamper"]
      && Pipeline.MultiplierOf(cfg, rules, s.tables, m.event, 1.0) == 2.0
  {
    assert cfg.multiRules != [];
    hide *;
    var first, m := Observed("node1", 1, "IMAGE_MISMATCH", why, 0.0), Observed("node1", 2, "RUNTIME_DRIFT", drift, 1.0);
    var s := RunAll(cfg, FRESH, [OnEvent(rules, first, 0.0, false, NoFault)]);
    var g, feed := Given(rules, m.event), [Stamped(0.0, Given(rules, first.event))];
    TamperStart(cfg, rules, first, m);
    DecisionIsHistory(cfg, feed, g, ScoreOf(s.db, "node1"), 1.0);
    FourthFound(rules, first.event, m.event);
    LoneNodeCrossesNothing(cfg, feed, g, 1.0);
    FourthAlone(cfg, Found(cfg.multiRules, feed + [Stamped(1.0, g)], "node1", 1.0), drift,
                Decide(cfg, rules, s, m, 1.0).1.reasons, Pipeline.MultiplierOf(cfg, rules, s.tables, m.event, 1.0));
  }

  lemma {:induction false} TamperStart(cfg: Pipeline.Config, rules: seq<Rules.Rule>, first: Incoming, m: Incoming)
    requires LatchRuns.Shipped(cfg) && first.valid && first.event.offset == 1
    requires first.event.node == m.event.node == "node1"
    ensures cfg.Usable() && cfg.multiRules == Correlator.ShippedRules() != [] && cfg.cross.threshold >= 2
    ensures
      var s := RunAll(cfg, FRESH, [OnEvent(rules, first, 0.0, false, NoFault)]);
      var feed := [Stamped(0.0, Given(rules, first.event))];
      && s.tables == TablesAfter(cfg, feed) && Ordered(feed) && UpTo(feed, 1.0)
      && (forall c <- feed :: c.item.event.node == "node1")
      && Decide(cfg, rules, s, m, 1.0).1 ==
         Pipeline.Process(cfg, rules, s.tables, m.event, ScoreOf(s.db, "node1"), 1.0).1
  {
    ShippedMulti(cfg);
    var s := RunAll(cfg, FRESH, [OnEvent(rules, first, 0.0, false, NoFault)]);
    hide *;
    OneStands(cfg, rules, first, 0.0);
    OneInTime(Stamped(0.0, Given(rules, first.event)), 1.0);
    DecideIs(cfg, rules, s, m, 1.0);
  }

  lemma {:induction false} ShippedMulti(cfg: Pipeline.Config)
    requires LatchRuns.Shipped(cfg)
    ensures cfg.Usable() && cfg.multiRules == Correlator.ShippedRules() != [] && cfg.cross.threshold >= 2
  {
    LatchRuns.ShippedUsable(cfg);
    hide Correlator.ShippedRules;
  }

  lemma {:induction false} OneStands(cfg: Pipeline.Config, rules: seq<Rules.Rule>, m: Incoming, at: real)
    requires cfg.multiRules != [] && m.valid && m.event.offset > 0
    ensures RunAll(cfg, FRESH, [OnEvent(rules, m, at, false, NoFault)]).tables ==
            TablesAfter(cfg, [Stamped(at, Given(rules, m.event))])
  {
    var actions := [OnEvent(rules, m, at, false, NoFault)];
    OneFed(cfg, rules, m, at);
    EngineFeeds(cfg, actions);
    assert forall a <- actions :: EngineRestart.Lives(a);
    hide RunAll, TablesAfter, FeedOf, OpsOf, Correlator.SignalsAfter;
  }

  lemma {:induction false} OneInTime(c: Stamped<Given>, now: real)
    requires c.at <= now
    ensures Ordered([c]) && UpTo([c], now) && forall x <- [c] :: x == c
  {
  }

  lemma {:induction false} DecideIs(cfg: Pipeline.Config, rules: seq<Rules.Rule>, s: State, m: Incoming, at: real)
    requires cfg.multiRules != []
    ensures Decide(cfg, rules, s, m, at) ==
            Pipeline.Process(cfg, rules, s.tables, m.event, ScoreOf(s.db, m.event.node), at)
  {
    hide Pipeline.Process, ScoreOf;
  }

  lemma {:induction false} FourthRule()
    ensures |Correlator.ShippedRules()| == 7 && Correlator.ShippedRules()[3].multiplier == 2.0
    ensures Correlator.ShippedRules()[3].title != ""
    ensures "Multi-signal: " + Correlator.ShippedRules()[3].title == "Multi-signal: Deployment Tamper"
  {
  }

  lemma {:induction false} FourthAlone(cfg: Pipeline.Config, found: set<int>, reasons: seq<string>,
                                       labelled: seq<string>, x: real)
    requires cfg.multiRules == Correlator.ShippedRules() && forall i :: i in found <==> i == 3
    requires Labels(cfg.multiRules, found, reasons, labelled) && Multiplies(cfg, found, false, x)
    ensures labelled == reasons + ["Multi-signal: Deployment Tamper"] && x == 2.0
  {
    FourthRule();
    hide Correlator.ShippedRules;
    assert 3 in found && forall j <- found :: j <= 3;
  }

  // ---- A node that is not listed ----

  const OBSERVER := "host-observer"
  const MODIFIED := "Infrastructure config modified"

  function ConfigReason(): string {
    MODIFIED + ": approved_images.yaml"
  }

  /** Characters the reason does not contain. */
  predicate Absent(c: char) {
    c == 'h' || c == 'C' || c == 'R' || c == 'E'
  }

  lemma {:induction false} AbsentNowhere(sub: string, i: nat)
    requires i < |sub| && Absent(sub[i])
    ensures !Rules.Contains(ConfigReason(), sub)
  {
    var text := ConfigReason();
    assert forall k :: 0 <= k < |text| ==> !Absent(text[k]);
    hide ConfigReason, Absent;
    forall k | 0 <= k <= |text| ensures !Rules.OccursAt(text, sub, k) {
      if k + |sub| <= |text| { assert text[k..k + |sub|][i] == text[k + i]; }
    }
  }

  /** The one dot of the reason stands after an "images". */
  lemma {:induction false} ReasonDot()
    ensures |ConfigReason()| == 52 && ConfigReason()[41..47] == "images"
    ensures forall k :: 0 <= k < 52 && ConfigReason()[k] == '.' ==> k == 47
  {
  }

  lemma {:induction false} OtherFile(sub: string, dot: nat, back: nat)
    requires back <= dot < |sub| && sub[dot] == '.' && 1 <= back <= 6 && sub[dot - back] != "images"[6 - back]
    ensures !Rules.Contains(ConfigReason(), sub)
  {
    var text := ConfigReason();
    ReasonDot();
    hide ConfigReason;
    forall k | 0 <= k <= |text| ensures !Rules.OccursAt(text, sub, k) {
      if k + |sub| <= |text| {
        assert text[k..k + |sub|][dot] == text[k + dot] && text[k..k + |sub|][dot - back] == text[k + dot - back];
        assert text[41..47][6 - back] == text[47 - back];
      }
    }
  }

  /** The rule is no heavier than the configuration rule, or does not match the reason. */
  ghost predicate Lighter(r: Rules.Rule) {
    r.severity * r.blastRadius > 1925 ==> !Rules.Matches(r, ConfigReason())
  }

  lemma {:induction false} ProtocolLighter(r: Rules.Rule)
    requires r in Rules.ProtocolRules() || r in Rules.NetworkRules()
    ensures Lighter(r)
  {
    AbsentNowhere("machine_id", 3);
    hide Rules.Contains, ConfigReason;
  }

  lemma {:induction false} ImageLighter(r: Rules.Rule)
    requires r in Rules.ImageRules() || r in Rules.DockerRules()
    ensures Lighter(r)
  {
    AbsentNowhere("Image digest mismatch", 20);
    hide Rules.Contains, ConfigReason;
  }

  lemma {:induction false} DriftLighter(r: Rules.Rule)
    requires r in Rules.DriftRules()
    ensures Lighter(r)
  {
    OtherFile("rules.yaml", 5, 3);
    OtherFile("master_config.yaml", 13, 1);
    hide Rules.Contains, ConfigReason;
  }

  lemma {:induction false} FalcoLighter(r: Rules.Rule)
    requires r in Rules.FalcoRules()
    ensures Lighter(r)
  {
    AbsentNowhere("REVERSE_SHELL", 0);
    AbsentNowhere("PRIV_ESC_ATTEMPT", 1);
    AbsentNowhere("CONTAINER_ESCAPE_ATTEMPT", 0);
    hide Rules.Contains, ConfigReason;
  }

  /** No shipped rule that matches the reason is heavier than the configuration rule. */
  lemma {:induction false} ReasonWeighs(r: Rules.Rule)
    requires r in Rules.Shipped() && Rules.Matches(r, ConfigReason())
    ensures r.severity * r.blastRadius <= 1925
  {
    assert Lighter(r) by {
      hide Lighter, Rules.Matches, Rules.ProtocolRules, Rules.NetworkRules, Rules.ImageRules, Rules.DriftRules,
           Rules.DockerRules, Rules.FalcoRules;
      if r in Rules.ProtocolRules() || r in Rules.NetworkRules() { ProtocolLighter(r); }
      else if r in Rules.ImageRules() || r in Rules.DockerRules() { ImageLighter(r); }
      else if r in Rules.DriftRules() { DriftLighter(r); }
      else { FalcoLighter(r); }
    }
    hide Rules.Shipped, Rules.Matches, ConfigReason;
  }

  lemma {:induction false} ConfigMatches()
    ensures Rules.Join([ConfigReason()]) == ConfigReason()
    ensures Match("CONFIG_DRIFT", 55, 35) in Rules.MatchAll(Rules.Shipped(), ConfigReason())
  {
    var text := ConfigReason();
    assert text[0..0 + |MODIFIED|] == MODIFIED;
    assert Rules.OccursAt(text, MODIFIED, 0);
    hide ConfigReason;
    assert Rules.Shipped()[12] == Rules.Rule("CONFIG_DRIFT", MODIFIED, 55, 35);
    assert Rules.Matches(Rules.Shipped()[12], text);
    Rules.MatchedIff(Rules.Shipped(), text, Match("CONFIG_DRIFT", 55, 35));
  }

  lemma {:induction false} ConfigWeight(cfg: ScoreConfig, w: real)
    requires OBSERVER !in cfg.criticality && cfg.defaultCriticality == 4
    requires Heaviest(cfg, Rules.MatchAll(Rules.Shipped(), ConfigReason()), OBSERVER, w)
    ensures w == 7.7
  {
    var matches := Rules.MatchAll(Rules.Shipped(), ConfigReason());
    ConfigMatches();
    assert (55 * 35 * 4) as real / 1000.0 == 7.7;
    hide Rules.MatchAll, Rules.Shipped, ConfigReason;
    var m :| m in matches && w == (m.severity * m.blastRadius * 4) as real / 1000.0;
    Rules.MatchedIff(Rules.Shipped(), ConfigReason(), m);
    hide Rules.Matches;
    var i :| 0 <= i < |Rules.Shipped()| && Rules.Matches(Rules.Shipped()[i], ConfigReason())
             && Rules.MatchOf(Rules.Shipped()[i]) == m;
    ReasonWeighs(Rules.Shipped()[i]);
  }

  lemma {:induction false} OneTypeFound(feed: Feed, node: string, only: string, now: real)
    requires forall c <- feed :: c.item.event.eventType == only
    ensures forall i :: i !in Found(Correlator.ShippedRules(), feed, node, now)
  {
    var rules := Correlator.ShippedRules();
    forall i | 0 <= i < |rules| ensures i !in Found(rules, feed, node, now) {
      Correlator.NeedsTwo(i, only);
      OneTypeSeen(feed, node, only, now - rules[i].window);
      hide TypesSince, Correlator.ShippedRules;
    }
  }

  lemma {:induction false} OneTypeSeen(feed: Feed, node: string, only: string, from: real)
    requires forall c <- feed :: c.item.event.eventType == only
    ensures TypesSince(feed, node, from) <= {only}
  {
    forall k | 0 <= k < |feed| ensures feed[k].item.event.eventType == only {
      assert feed[k] in feed;
    }
  }

  /**
    The host observer reports a changed configuration file; it is not in the criticality table and is scored
    with the default.
  */
  lemma {:induction false} UnlistedNodeRun(cfg: Pipeline.Config)
    requires LatchRuns.Shipped(cfg)
    ensures
      var m := Observed(OBSERVER, 1, "CONFIG_DRIFT", [ConfigReason()], 0.0);
      ScoreOf(Next(cfg, FRESH, OnEvent(Rules.Shipped(), m, 0.0, false, NoFault)).db, OBSERVER) == 7.7
  {
    assert cfg.multiRules != [];
    hide *;
    var m := Observed(OBSERVER, 1, "CONFIG_DRIFT", [ConfigReason()], 0.0);
    var g := Given(Rules.Shipped(), m.event);
    UnlistedStart(cfg, m);
    RowIsHistory(cfg, [], Rules.Shipped(), m, 0.0, false);
    LoneNodeCrossesNothing(cfg, [], g, 0.0);
    OneTypeFound([] + [Stamped(0.0, g)], OBSERVER, "CONFIG_DRIFT", 0.0);
    var db := Next(cfg, FRESH, OnEvent(Rules.Shipped(), m, 0.0, false, NoFault)).db;
    var found := Found(cfg.multiRules, [] + [Stamped(0.0, g)], OBSERVER, 0.0);
    var crossed := Crossed(cfg.cross, [], g, 0.0);
    var x :| Multiplies(cfg, found, crossed, x) && Weighed(cfg.score, MatchesOf(g), OBSERVER, 0.0, x, db.events[0]);
    NothingMultiplies(cfg, found, x);
    ConfigMatches();
    WeighedOnce(cfg.score, MatchesOf(g), OBSERVER, db.events[0]);
    var w :| Heaviest(cfg.score, MatchesOf(g), OBSERVER, w) && db.events[0].risk == Round4(w);
    ConfigWeight(cfg.score, w);
    SevenSeven();
  }

  lemma {:induction false} UnlistedStart(cfg: Pipeline.Config, m: Incoming)
    requires LatchRuns.Shipped(cfg) && m == Observed(OBSERVER, 1, "CONFIG_DRIFT", [ConfigReason()], 0.0)
    ensures cfg.Usable() && cfg.multiRules == Correlator.ShippedRules() != [] && cfg.cross.threshold >= 2
    ensures OBSERVER !in cfg.score.criticality && cfg.score.defaultCriticality == 4
    ensures FeedOf(cfg, []) == [] && Ordered(FeedOf(cfg, [])) && UpTo(FeedOf(cfg, []), 0.0)
    ensures RunAll(cfg, FRESH, []) == FRESH && FRESH.db.events == [] && ScoreOf(FRESH.db, OBSERVER) == 0.0
    ensures m.valid && m.event.offset > FRESH.lastOffset
    ensures m.event.node == OBSERVER && m.event.eventType == "CONFIG_DRIFT"
    ensures MatchesOf(Given(Rules.Shipped(), m.event)) == Rules.MatchAll(Rules.Shipped(), ConfigReason())
  {
    LatchRuns.ShippedUsable(cfg);
    assert OBSERVER[0] == 'h';
    ConfigMatches();
    hide Correlator.ShippedRules, Rules.MatchAll, Rules.Shipped, Rules.Join, ConfigReason;
  }

  lemma {:induction false} SevenSeven()
    ensures Round4(7.7) == 7.7
  {
    LatchRuns.OnGridAt(77000);
    assert 7.7 == Grid(77000);
    RoundFixesGrid(7.7);
  }

  lemma {:induction false} NothingMultiplies(cfg: Pipeline.Config, found: set<int>, x: real)
    requires (forall i :: i !in found) && Multiplies(cfg, found, false, x)
    ensures x == 1.0
  {
  }

  /** A first row with multiplier one: its score is the heaviest match, rounded. */
  lemma {:induction false} WeighedOnce(cfg: ScoreConfig, matches: seq<Match>, node: string, row: EventRow)
    ensures matches != [] && Weighed(cfg, matches, node, 0.0, 1.0, row) ==>
            exists w :: Heaviest(cfg, matches, node, w) && row.risk == Round4(w)
  {
    hide Heaviest, Round4, BucketOf;
    if matches != [] && Weighed(cfg, matches, node, 0.0, 1.0, row) {
      var w :| Heaviest(cfg, matches, node, w) && row.risk == Round4(0.0 + 1.0 * w);
      assert 0.0 + 1.0 * w == w;
    }
  }
}
