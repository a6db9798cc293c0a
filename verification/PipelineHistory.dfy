/** The pipeline's decisions in terms of every event it has processed. */
module PipelineHistory {
  import opened Common
  import opened SlidingWindow
  import opened Scoring
  import opened Pipeline
  import Rules
  import Store
  import Correlator
  import EngineRestart

  /** An event with the rules in force when it was processed. */
  datatype Given = Given(rules: seq<Rules.Rule>, event: Event)

  type Feed = seq<Stamped<Given>>

  function MatchesOf(g: Given): seq<Match> {
    Rules.MatchAll(g.rules, Rules.Join(g.event.reasons))
  }

  /** The correlator's tables after a feed; stored scores play no part in them. */
  ghost function TablesAfter(cfg: Config, feed: Feed): Tables
    requires cfg.multiRules != []
  {
    if feed == [] then Tables(map[], map[])
    else
      var last := feed[|feed|-1];
      Process(cfg, last.item.rules, TablesAfter(cfg, feed[..|feed|-1]), last.item.event, 0.0, last.at).0
  }

  // ---- What the pipeline tells the correlator ----

  /** A threat is recorded for an event that is not plain telemetry, and every event has its node evaluated. */
  ghost function Told(e: Event, at: real): seq<Stamped<Correlator.Op>> {
    (if e.eventType != "NORMAL" then [Stamped(at, Correlator.Record(e.node, e.eventType))] else [])
    + [Stamped(at, Correlator.Ask(e.node))]
  }

  ghost function OpsOf(feed: Feed): seq<Stamped<Correlator.Op>> {
    if feed == [] then [] else OpsOf(feed[..|feed|-1]) + Told(feed[|feed|-1].item.event, feed[|feed|-1].at)
  }

  /** One cross-node check for every match of every event. */
  ghost function ChecksOf(feed: Feed): seq<Correlator.Call> {
    if feed == [] then []
    else
      var last := feed[|feed|-1];
      ChecksOf(feed[..|feed|-1])
      + Correlator.FiringsOf(Store.RuleIds(MatchesOf(last.item)), last.item.event.node, last.at)
  }

  lemma {:induction false} RecordThenAsk(rules: seq<Correlator.MultiRule>, ops: seq<Stamped<Correlator.Op>>, e: Event,
                                         at: real, before: Correlator.Windows)
    requires rules != [] && before == Correlator.SignalsAfter(rules, ops)
    ensures
      var signals := Recorded(before, e, at);
      Correlator.SignalsAfter(rules, ops + Told(e, at)) ==
        signals[e.node := Evict(Lookup(signals, e.node, []), at - Correlator.MaxWindow(rules))]
  {
    var ask := Stamped(at, Correlator.Ask(e.node));
    var record := Stamped(at, Correlator.Record(e.node, e.eventType));
    var extra := if e.eventType != "NORMAL" then [record] else [];
    assert ops + Told(e, at) == ops + extra + [ask];
    assert (ops + extra + [ask])[..|ops + extra|] == ops + extra && ops + [] == ops;
    assert (ops + [record])[..|ops|] == ops;
    hide Evict, Correlator.MaxWindow;
  }

  lemma {:induction false} TablesNext(cfg: Config, feed: Feed)
    requires cfg.multiRules != [] && feed != []
    ensures
      var t, last := TablesAfter(cfg, feed[..|feed|-1]), feed[|feed|-1];
      TablesAfter(cfg, feed) == Process(cfg, last.item.rules, t, last.item.event, 0.0, last.at).0
  {
    hide Process;
  }

  lemma {:induction false} OpsNext(feed: Feed)
    requires feed != []
    ensures OpsOf(feed) == OpsOf(feed[..|feed|-1]) + Told(feed[|feed|-1].item.event, feed[|feed|-1].at)
  {
  }

  lemma {:induction false} SignalsNext(cfg: Config, feed: Feed)
    requires cfg.multiRules != [] && feed != []
    requires
      var before := feed[..|feed|-1];
      TablesAfter(cfg, before).signals == Correlator.SignalsAfter(cfg.multiRules, OpsOf(before))
    ensures TablesAfter(cfg, feed).signals == Correlator.SignalsAfter(cfg.multiRules, OpsOf(feed))
  {
    hide *;
    var before, last := feed[..|feed|-1], feed[|feed|-1];
    var t := TablesAfter(cfg, before);
    OpsNext(feed);
    TablesNext(cfg, feed);
    ProcessTables(cfg, last.item, t, last.at);
    RecordThenAsk(cfg.multiRules, OpsOf(before), last.item.event, last.at, t.signals);
  }

  lemma {:induction false} SignalsAreHistory(cfg: Config, feed: Feed)
    requires cfg.multiRules != []
    ensures TablesAfter(cfg, feed).signals == Correlator.SignalsAfter(cfg.multiRules, OpsOf(feed))
  {
    hide Process, Told;
    if feed != [] {
      SignalsAreHistory(cfg, feed[..|feed|-1]);
      hide TablesAfter, OpsOf, Correlator.SignalsAfter;
      SignalsNext(cfg, feed);
    }
  }

  lemma {:induction false} WindowsAreHistory(cfg: Config, feed: Feed)
    requires cfg.multiRules != []
    ensures TablesAfter(cfg, feed).windows == Correlator.After(cfg.cross, map[], ChecksOf(feed))
  {
    if feed != [] {
      var before, last := feed[..|feed|-1], feed[|feed|-1];
      var t, node := TablesAfter(cfg, before), last.item.event.node;
      var mine := Correlator.FiringsOf(Store.RuleIds(MatchesOf(last.item)), node, last.at);
      WindowsAreHistory(cfg, before);
      TablesNext(cfg, feed);
      ProcessTables(cfg, last.item, t, last.at);
      EngineRestart.ChecksAreFirings(cfg.cross, t.windows, MatchesOf(last.item), node, last.at);
      EngineRestart.AfterConcat(cfg.cross, map[], ChecksOf(before), mine);
      assert ChecksOf(feed) == ChecksOf(before) + mine;
      hide *;
    } else {
      hide Process;
    }
  }

  /** The tables are the correlator's after exactly these operations and checks. */
  lemma {:induction false} TablesAreHistory(cfg: Config, feed: Feed)
    requires cfg.multiRules != []
    ensures TablesAfter(cfg, feed).signals == Correlator.SignalsAfter(cfg.multiRules, OpsOf(feed))
    ensures TablesAfter(cfg, feed).windows == Correlator.After(cfg.cross, map[], ChecksOf(feed))
  {
    SignalsAreHistory(cfg, feed);
    WindowsAreHistory(cfg, feed);
  }

  lemma {:induction false} ProcessTables(cfg: Config, g: Given, t: Tables, at: real)
    requires cfg.multiRules != []
    ensures
      var signals := Recorded(t.signals, g.event, at);
      Process(cfg, g.rules, t, g.event, 0.0, at).0 ==
        Tables(CheckAll(cfg.cross, t.windows, MatchesOf(g), g.event.node, at).0,
               signals[g.event.node := Evict(Lookup(signals, g.event.node, []),
                                             at - Correlator.MaxWindow(cfg.multiRules))])
  {
    hide CheckAll, Recorded, Score, Correlator.Evaluate, Evict, Correlator.MaxWindow, Rules.MatchAll, Rules.Join;
  }

  // ---- What has been processed ----

  /** The types of the node's events processed at or after `from`, plain telemetry apart. */
  ghost function TypesSince(feed: Feed, node: string, from: real): set<string> {
    set i | 0 <= i < |feed| && feed[i].item.event.node == node && feed[i].item.event.eventType != "NORMAL"
            && feed[i].at >= from :: feed[i].item.event.eventType
  }

  /** The event's reasons match a rule of this id. */
  ghost predicate Fired(g: Given, rule: string) {
    exists m :: m in MatchesOf(g) && m.ruleId == rule
  }

  /** The nodes with an event processed at or after `from` that matches the rule. */
  ghost function NodesFiring(feed: Feed, rule: string, from: real): set<string> {
    set i | 0 <= i < |feed| && Fired(feed[i].item, rule) && feed[i].at >= from :: feed[i].item.event.node
  }

  lemma {:induction false} TypesAreSeen(feed: Feed, node: string, from: real)
    ensures Correlator.SeenSince(OpsOf(feed), node, from) == TypesSince(feed, node, from)
  {
    if feed == [] {
      assert Correlator.ThreatHistory([], node) == [];
    } else {
      var before, last := feed[..|feed|-1], feed[|feed|-1];
      TypesAreSeen(before, node, from);
      OpsThreats(feed, node);
      TypesNext(feed, node, from);
      var e := last.item.event;
      if e.eventType != "NORMAL" && e.node == node {
        Correlator.RecentConcat(Correlator.ThreatHistory(OpsOf(before), node), [Stamped(last.at, e.eventType)], from);
        var mine := [Stamped(last.at, e.eventType)];
        assert Correlator.Recent(mine, from) == if last.at >= from then {e.eventType} else {};
      }
      hide OpsOf, TypesSince, Correlator.ThreatHistory, Correlator.Recent;
    }
  }

  lemma {:induction false} OpsThreats(feed: Feed, node: string)
    requires feed != []
    ensures
      var last := feed[|feed|-1];
      var e := last.item.event;
      Correlator.ThreatHistory(OpsOf(feed), node) ==
        if e.eventType != "NORMAL" && e.node == node then
          Correlator.ThreatHistory(OpsOf(feed[..|feed|-1]), node) + [Stamped(last.at, e.eventType)]
        else Correlator.ThreatHistory(OpsOf(feed[..|feed|-1]), node)
  {
    var last := feed[|feed|-1];
    Correlator.ThreatsConcat(OpsOf(feed[..|feed|-1]), Told(last.item.event, last.at), node);
    ToldThreat(last.item.event, last.at, node);
  }

  lemma {:induction false} ToldThreat(e: Event, at: real, node: string)
    ensures Correlator.ThreatHistory(Told(e, at), node) ==
            if e.eventType != "NORMAL" && e.node == node then [Stamped(at, e.eventType)] else []
  {
    var ask := Stamped(at, Correlator.Ask(e.node));
    var record := Stamped(at, Correlator.Record(e.node, e.eventType));
    assert [record, ask][..1] == [record] && [record][..0] == [] && [ask][..0] == [];
    assert Correlator.ThreatHistory([ask], node) == [];
    assert Correlator.ThreatHistory([record], node) == if e.node == node then [Stamped(at, e.eventType)] else [];
    assert [record] + [ask] == [record, ask] && [] + [ask] == [ask];
  }

  lemma {:induction false} TypesNext(feed: Feed, node: string, from: real)
    requires feed != []
    ensures
      var last := feed[|feed|-1];
      var e := last.item.event;
      TypesSince(feed, node, from) == TypesSince(feed[..|feed|-1], node, from) +
        if e.node == node && e.eventType != "NORMAL" && last.at >= from then {e.eventType} else {}
  {
    var before, last := feed[..|feed|-1], feed[|feed|-1];
    assert feed == before + [last];
    var e := last.item.event;
    var extra := if e.node == node && e.eventType != "NORMAL" && last.at >= from then {e.eventType} else {};
    forall x | x in TypesSince(feed, node, from) ensures x in TypesSince(before, node, from) + extra {
      var i :| 0 <= i < |feed| && feed[i].item.event.node == node && feed[i].item.event.eventType != "NORMAL"
               && feed[i].at >= from && feed[i].item.event.eventType == x;
      if i < |before| { assert before[i] == feed[i]; }
    }
    forall x | x in TypesSince(before, node, from) ensures x in TypesSince(feed, node, from) {
      var i :| 0 <= i < |before| && before[i].item.event.node == node && before[i].item.event.eventType != "NORMAL"
               && before[i].at >= from && before[i].item.event.eventType == x;
      assert feed[i] == before[i];
    }
  }

  lemma {:induction false} FiringsNodes(matches: seq<Match>, node: string, at: real, rule: string, from: real)
    ensures Correlator.NodesSince(Correlator.FiringsOf(Store.RuleIds(matches), node, at), rule, from) ==
            if at >= from && (exists m :: m in matches && m.ruleId == rule) then {node} else {}
  {
    if matches != [] {
      var before, last := matches[..|matches|-1], matches[|matches|-1];
      assert matches == before + [last];
      FiringsNodes(before, node, at, rule, from);
      var ids := Store.RuleIds(matches);
      assert ids[..|ids|-1] == Store.RuleIds(before);
      var calls := Correlator.FiringsOf(ids, node, at);
      assert calls[..|calls|-1] == Correlator.FiringsOf(Store.RuleIds(before), node, at);
      Correlator.NodesSinceLast(calls, rule, from);
      assert (exists m :: m in matches && m.ruleId == rule)
             <==> (exists m :: m in before && m.ruleId == rule) || last.ruleId == rule by {
        assert last in matches;
        forall m | m in matches ensures m in before || m == last {}
      }
      hide Correlator.NodesSince, Correlator.FiringsOf, Store.RuleIds;
    }
  }

  lemma {:induction false} NodesConcat(a: seq<Correlator.Call>, b: seq<Correlator.Call>, rule: string, from: real)
    ensures Correlator.NodesSince(a + b, rule, from) ==
            Correlator.NodesSince(a, rule, from) + Correlator.NodesSince(b, rule, from)
  {
    if b == [] {
      assert a + b == a;
    } else {
      NodesConcat(a, b[..|b|-1], rule, from);
      assert (a + b)[..|a + b|-1] == a + b[..|b|-1];
      Correlator.NodesSinceLast(a + b, rule, from);
      Correlator.NodesSinceLast(b, rule, from);
      hide Correlator.NodesSince;
    }
  }

  lemma {:induction false} NodesAreFiring(feed: Feed, rule: string, from: real)
    ensures Correlator.NodesSince(ChecksOf(feed), rule, from) == NodesFiring(feed, rule, from)
  {
    if feed == [] {
      assert ChecksOf(feed) == [];
    } else {
      var before, last := feed[..|feed|-1], feed[|feed|-1];
      NodesAreFiring(before, rule, from);
      var mine := Correlator.FiringsOf(Store.RuleIds(MatchesOf(last.item)), last.item.event.node, last.at);
      NodesConcat(ChecksOf(before), mine, rule, from);
      FiringsNodes(MatchesOf(last.item), last.item.event.node, last.at, rule, from);
      FiringNext(feed, rule, from);
      hide Correlator.NodesSince, Correlator.FiringsOf, Store.RuleIds, MatchesOf, NodesFiring;
    }
  }

  lemma {:induction false} FiringNext(feed: Feed, rule: string, from: real)
    requires feed != []
    ensures
      var last := feed[|feed|-1];
      NodesFiring(feed, rule, from) == NodesFiring(feed[..|feed|-1], rule, from) +
        if Fired(last.item, rule) && last.at >= from then {last.item.event.node} else {}
  {
    hide Fired;
    var before, last := feed[..|feed|-1], feed[|feed|-1];
    assert feed == before + [last];
    var extra := if Fired(last.item, rule) && last.at >= from then {last.item.event.node} else {};
    forall x | x in NodesFiring(feed, rule, from) ensures x in NodesFiring(before, rule, from) + extra {
      var i :| 0 <= i < |feed| && Fired(feed[i].item, rule) && feed[i].at >= from && feed[i].item.event.node == x;
      if i < |before| { assert before[i] == feed[i]; }
    }
    forall x | x in NodesFiring(before, rule, from) ensures x in NodesFiring(feed, rule, from) {
      var i :| 0 <= i < |before| && Fired(before[i].item, rule) && before[i].at >= from
               && before[i].item.event.node == x;
      assert feed[i] == before[i];
    }
  }

  // ---- A decision, by what has been processed ----

  lemma {:induction false} ToldInTime(e: Event, at: real, ops: seq<Stamped<Correlator.Op>>)
    requires Ordered(ops) && UpTo(ops, at)
    ensures Ordered(ops + Told(e, at)) && UpTo(ops + Told(e, at), at)
  {
  }

  lemma {:induction false} FiringsAt(ids: seq<string>, node: string, at: real, calls: seq<Correlator.Call>)
    requires Ordered(calls) && UpTo(calls, at)
    ensures Ordered(calls + Correlator.FiringsOf(ids, node, at))
    ensures UpTo(calls + Correlator.FiringsOf(ids, node, at), at)
  {
    if ids == [] {
      assert calls + [] == calls;
    } else {
      var before := Correlator.FiringsOf(ids[..|ids|-1], node, at);
      FiringsAt(ids[..|ids|-1], node, at, calls);
      ConcatAssociates(calls, before, [Stamped(at, Correlator.Firing(ids[|ids|-1], node))]);
    }
  }

  lemma {:induction false} FeedInTime(feed: Feed, now: real)
    requires Ordered(feed) && UpTo(feed, now)
    ensures Ordered(OpsOf(feed)) && UpTo(OpsOf(feed), now)
    ensures Ordered(ChecksOf(feed)) && UpTo(ChecksOf(feed), now)
  {
    if feed != [] {
      var last := feed[|feed|-1];
      FeedInTime(feed[..|feed|-1], last.at);
      ToldInTime(last.item.event, last.at, OpsOf(feed[..|feed|-1]));
      FiringsAt(Store.RuleIds(MatchesOf(last.item)), last.item.event.node, last.at, ChecksOf(feed[..|feed|-1]));
      hide Told, MatchesOf, Store.RuleIds, Correlator.FiringsOf;
    }
  }

  /** The multi-signal rules all of whose types are among those of the node's events in their window. */
  ghost function Found(rules: seq<Correlator.MultiRule>, feed: Feed, node: string, now: real): set<int> {
    set i | 0 <= i < |rules| && rules[i].types <= TypesSince(feed, node, now - rules[i].window)
  }

  /** Some rule the event matches has fired on enough nodes in the window, this one included. */
  ghost predicate Crossed(c: Correlator.Cross, feed: Feed, g: Given, now: real) {
    exists m :: m in MatchesOf(g) && Enough(c, feed, m.ruleId, g.event.node, now)
  }

  ghost predicate Enough(c: Correlator.Cross, feed: Feed, rule: string, node: string, now: real) {
    |NodesFiring(feed, rule, now - c.window) + {node}| >= c.threshold
  }

  /** x is the largest of 1, the cross-node multiplier if it applies, and those of the rules found. */
  ghost predicate Multiplies(cfg: Config, found: set<int>, crossed: bool, x: real)
    requires forall i <- found :: 0 <= i < |cfg.multiRules|
  {
    && 1.0 <= x && (crossed ==> cfg.cross.multiplier <= x) && (forall i <- found :: cfg.multiRules[i].multiplier <= x)
    && (x == 1.0 || (crossed && x == cfg.cross.multiplier) || exists i <- found :: x == cfg.multiRules[i].multiplier)
  }

  /** The reason that names the last rule found, if it has a title. */
  ghost predicate Labels(rules: seq<Correlator.MultiRule>, found: set<int>, reasons: seq<string>, labelled: seq<string>)
    requires forall i <- found :: 0 <= i < |rules|
  {
    && ((forall i :: i !in found) ==> labelled == reasons)
    && (forall i <- found :: (forall j <- found :: j <= i) ==>
          labelled == if rules[i].title == "" then reasons else reasons + ["Multi-signal: " + rules[i].title])
  }

  lemma {:induction false} CheckIsHistory(cfg: Config, feed: Feed, rule: string, node: string, now: real)
    requires cfg.Usable() && Ordered(feed) && UpTo(feed, now)
    ensures Correlates(cfg.cross, TablesAfter(cfg, feed).windows, rule, node, now)
            <==> Enough(cfg.cross, feed, rule, node, now)
  {
    hide TablesAfter, Correlator.Check, Correlator.After, ChecksOf, OpsOf, NodesFiring;
    TablesAreHistory(cfg, feed);
    FeedInTime(feed, now);
    Correlator.CheckIsFullHistory(cfg.cross, ChecksOf(feed), rule, node, now);
    NodesAreFiring(feed, rule, now - cfg.cross.window);
  }

  lemma {:induction false} CrossIsHistory(cfg: Config, feed: Feed, g: Given, now: real)
    requires cfg.Usable() && Ordered(feed) && UpTo(feed, now)
    ensures
      var (_, crossed, x) := CheckAll(cfg.cross, TablesAfter(cfg, feed).windows, MatchesOf(g), g.event.node, now);
      && (crossed <==> Crossed(cfg.cross, feed, g, now))
      && x == if crossed then Max(1.0, cfg.cross.multiplier) else 1.0
  {
    var c, w, node, matches := cfg.cross, TablesAfter(cfg, feed).windows, g.event.node, MatchesOf(g);
    CheckAllIsAny(c, w, matches, node, now);
    var (_, any, x) := CheckAll(c, w, matches, node, now);
    assert any <==> AnyCorrelates(c, w, matches, node, now);
    assert x == if any then Max(1.0, c.multiplier) else 1.0;
    hide TablesAfter, CheckAll, Enough, MatchesOf, Correlates, Ordered, UpTo, Max;
    if Crossed(c, feed, g, now) {
      var m :| m in matches && Enough(c, feed, m.ruleId, node, now);
      var i :| 0 <= i < |matches| && matches[i] == m;
      CheckIsHistory(cfg, feed, m.ruleId, node, now);
      assert Correlates(c, w, matches[i].ruleId, node, now);
    }
    if i :| 0 <= i < |matches| && Correlates(c, w, matches[i].ruleId, node, now) {
      CheckIsHistory(cfg, feed, matches[i].ruleId, node, now);
      assert matches[i] in matches;
    }
  }

  /** The queue the pipeline evaluates is the one the correlator holds once the event's type is recorded. */
  lemma {:induction false} FindingIsHistory(cfg: Config, feed: Feed, g: Given, now: real)
    requires cfg.Usable() && Ordered(feed) && UpTo(feed, now)
    ensures
      var rules, node := cfg.multiRules, g.event.node;
      var f := Correlator.Evaluate(rules, Lookup(Recorded(TablesAfter(cfg, feed).signals, g.event, now), node, []),
                                   now);
      var h := Correlator.ThreatHistory(OpsOf(feed + [Stamped(now, g)]), node);
      Correlator.IsFinding(rules, h, now, f)
  {
    var e, ops, rules := g.event, OpsOf(feed), cfg.multiRules;
    TablesAreHistory(cfg, feed);
    FeedInTime(feed, now);
    var record := Stamped(now, Correlator.Record(e.node, e.eventType));
    var told := if e.eventType != "NORMAL" then ops + [record] else ops;
    ToldInTime(e, now, ops);
    assert Ordered(told) && UpTo(told, now);
    assert (ops + [record])[..|ops|] == ops;
    assert Recorded(TablesAfter(cfg, feed).signals, e, now) == Correlator.SignalsAfter(rules, told);
    assert (feed + [Stamped(now, g)])[..|feed|] == feed;
    OpsThreats(feed + [Stamped(now, g)], e.node);
    assert Correlator.ThreatHistory(told, e.node) ==
           Correlator.ThreatHistory(OpsOf(feed + [Stamped(now, g)]), e.node);
    Correlator.MultiSignalIsFullHistory(rules, told, e.node, now);
    hide *;
  }

  /**
    A decision by everything processed before it.  After any feed in order, an event is correlated iff some rule
    it matches has fired on enough nodes in the window, or the types of its node's events, its own included, complete a
    multi-signal rule; its multiplier is the largest that applies; and the last completed rule is named in its reasons.
  */
  lemma {:induction false} DecisionIsHistory(cfg: Config, feed: Feed, g: Given, current: real, now: real)
    requires cfg.Usable() && Ordered(feed) && UpTo(feed, now)
    ensures
      var t := TablesAfter(cfg, feed);
      var d, x := Process(cfg, g.rules, t, g.event, current, now).1, MultiplierOf(cfg, g.rules, t, g.event, now);
      var found := Found(cfg.multiRules, feed + [Stamped(now, g)], g.event.node, now);
      var crossed := Crossed(cfg.cross, feed, g, now);
      && (d.correlated <==> crossed || exists i :: i in found)
      && Multiplies(cfg, found, crossed, x)
      && Labels(cfg.multiRules, found, g.event.reasons, d.reasons)
      && d.scored == Score(cfg.score, MatchesOf(g), g.event.node, current, x)
  {
    var t, e, rules := TablesAfter(cfg, feed), g.event, cfg.multiRules;
    var all := feed + [Stamped(now, g)];
    var h := Correlator.ThreatHistory(OpsOf(all), e.node);
    CrossIsHistory(cfg, feed, g, now);
    FindingIsHistory(cfg, feed, g, now);
    ProcessScores(cfg, g.rules, t, e, current, now);
    DecisionParts(cfg, g, t, current, now);
    FoundFires(rules, all, e.node, now);
    hide Process, Score, MultiplierOf, Rules.MatchAll, Rules.Join, Correlator.Fires, Found, OpsOf, TablesAfter;
    var f := Correlator.Evaluate(rules, Lookup(Recorded(t.signals, e, now), e.node, []), now);
    var (_, crossed, x) := CheckAll(cfg.cross, t.windows, MatchesOf(g), e.node, now);
    var found, d := Found(rules, all, e.node, now), Process(cfg, g.rules, t, e, current, now).1;
    assert d.matches == MatchesOf(g);
    hide *;
    FindingLabels(rules, h, now, f, found, e.reasons, d.reasons);
    FindingMultiplies(cfg, h, now, f, found, crossed, x);
  }

  lemma {:induction false} FindingMultiplies(cfg: Config, h: seq<Correlator.Named>, now: real, f: Correlator.Finding,
                                             found: set<int>, crossed: bool, x: real)
    requires forall i <- found :: 0 <= i < |cfg.multiRules|
    requires Correlator.IsFinding(cfg.multiRules, h, now, f)
    requires x == if crossed then Max(1.0, cfg.cross.multiplier) else 1.0
    requires forall i :: 0 <= i < |cfg.multiRules| ==> (Correlator.Fires(cfg.multiRules[i], h, now) <==> i in found)
    ensures Multiplies(cfg, found, crossed, if f.matched then Max(x, f.multiplier) else x)
  {
    hide Correlator.Fires;
    forall i | i in found ensures f.matched && cfg.multiRules[i].multiplier <= f.multiplier {
      assert Correlator.Fires(cfg.multiRules[i], h, now);
    }
    if f.multiplier != 1.0 {
      var i :| 0 <= i < |cfg.multiRules| && Correlator.Fires(cfg.multiRules[i], h, now)
               && cfg.multiRules[i].multiplier == f.multiplier;
      assert i in found;
    }
  }

  lemma {:induction false} FoundFires(rules: seq<Correlator.MultiRule>, feed: Feed, node: string, now: real)
    ensures
      var h := Correlator.ThreatHistory(OpsOf(feed), node);
      forall i :: 0 <= i < |rules| ==> (Correlator.Fires(rules[i], h, now) <==> i in Found(rules, feed, node, now))
  {
    forall i | 0 <= i < |rules|
      ensures Correlator.Fires(rules[i], Correlator.ThreatHistory(OpsOf(feed), node), now)
              <==> i in Found(rules, feed, node, now)
    {
      TypesAreSeen(feed, node, now - rules[i].window);
    }
  }

  lemma {:induction false} DecisionParts(cfg: Config, g: Given, t: Tables, current: real, now: real)
    requires cfg.multiRules != []
    ensures
      var d := Process(cfg, g.rules, t, g.event, current, now).1;
      var (_, crossed, x) := CheckAll(cfg.cross, t.windows, MatchesOf(g), g.event.node, now);
      var f := Correlator.Evaluate(cfg.multiRules, Lookup(Recorded(t.signals, g.event, now), g.event.node, []), now);
      && d.correlated == (crossed || f.matched)
      && d.reasons ==
         (if f.matched && f.title != "" then g.event.reasons + ["Multi-signal: " + f.title] else g.event.reasons)
      && MultiplierOf(cfg, g.rules, t, g.event, now) == if f.matched then Max(x, f.multiplier) else x
  {
    hide Score, CheckAll, Recorded, Correlator.Evaluate, Rules.MatchAll, Rules.Join;
  }

  lemma {:induction false} FindingLabels(rules: seq<Correlator.MultiRule>, h: seq<Correlator.Named>, now: real,
                                         f: Correlator.Finding, found: set<int>, reasons: seq<string>,
                                         labelled: seq<string>)
    requires Correlator.IsFinding(rules, h, now, f) && forall i <- found :: 0 <= i < |rules|
    requires forall i :: 0 <= i < |rules| ==> (Correlator.Fires(rules[i], h, now) <==> i in found)
    requires labelled == if f.matched && f.title != "" then reasons + ["Multi-signal: " + f.title] else reasons
    ensures Labels(rules, found, reasons, labelled) && (f.matched <==> exists i :: i in found)
  {
    hide Correlator.Fires;
    forall i | i in found && forall j <- found :: j <= i ensures f.matched && f.title == rules[i].title {
      assert Correlator.Fires(rules[i], h, now);
      var k :| 0 <= k < |rules| && Correlator.LastFires(rules, h, now, k) && f.title == rules[k].title;
      assert k in found;
    }
    if i :| i in found {
      assert Correlator.Fires(rules[i], h, now);
    }
    if f.matched {
      var i :| 0 <= i < |rules| && Correlator.Fires(rules[i], h, now);
      assert i in found;
    }
  }
}
