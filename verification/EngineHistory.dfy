/** The engine's decisions and rows in terms of the events it has processed since it started. */
module EngineHistory {
  import opened Common
  import opened SlidingWindow
  import opened Scoring
  import opened Store
  import opened RiskEngine
  import opened PipelineHistory
  import opened EngineRestart
  import Rules
  import Correlator
  import Pipeline
  import LatchRuns
  import NodeLife

  /** The events processed since the engine last started; a failing commit or status write takes none out of them. */
  ghost function FeedOf(cfg: Pipeline.Config, actions: seq<Action>): Feed
    requires cfg.multiRules != []
  {
    if actions == [] then []
    else
      var before, a := actions[..|actions|-1], actions[|actions|-1];
      if !Lives(a) then []
      else if a.OnEvent? && a.fault != PipelineFails && Accepts(RunAll(cfg, FRESH, before), a.m) then
        FeedOf(cfg, before) + [Stamped(a.now, Given(a.rules, a.m.event))]
      else FeedOf(cfg, before)
  }

  lemma {:induction false} StepTables(cfg: Pipeline.Config, s: State, a: Action)
    requires cfg.multiRules != []
    ensures
      var t := Next(cfg, s, a).tables;
      if !Lives(a) then t.signals == map[]
      else if a.OnEvent? && a.fault != PipelineFails && Accepts(s, a.m) then
        t == Pipeline.Process(cfg, a.rules, s.tables, a.m.event, ScoreOf(s.db, a.m.event.node), a.now).0
      else t == s.tables
  {
    if Handles(a) {
      CommittedChanges(cfg, a.rules, s, a.m, a.now);
    }
    hide Pipeline.Process, Committed, RowOf, WarmRows, Correlator.Load;
  }

  /** What the stored score is does not matter to the tables. */
  lemma {:induction false} TablesIgnoreScore(cfg: Pipeline.Config, g: Given, t: Pipeline.Tables, current: real,
                                             at: real)
    requires cfg.multiRules != []
    ensures Pipeline.Process(cfg, g.rules, t, g.event, current, at).0 ==
            Pipeline.Process(cfg, g.rules, t, g.event, 0.0, at).0
  {
    hide Score, Pipeline.CheckAll, Pipeline.Recorded, Correlator.Evaluate, Rules.MatchAll, Rules.Join, Evict;
  }

  /** The tables stand for the feed: signals always, cross-node windows as long as the process lives. */
  ghost predicate FeedStands(cfg: Pipeline.Config, t: Pipeline.Tables, feed: Feed, lives: bool)
    requires cfg.multiRules != []
  {
    && t.signals == Correlator.SignalsAfter(cfg.multiRules, OpsOf(feed))
    && (lives ==> t == TablesAfter(cfg, feed))
  }

  lemma {:induction false} ProcessStands(cfg: Pipeline.Config, t: Pipeline.Tables, feed: Feed, lives: bool, g: Given,
                                         current: real, at: real)
    requires cfg.multiRules != [] && FeedStands(cfg, t, feed, lives)
    ensures FeedStands(cfg, Pipeline.Process(cfg, g.rules, t, g.event, current, at).0, feed + [Stamped(at, g)], lives)
  {
    var next := feed + [Stamped(at, g)];
    assert next[..|feed|] == feed;
    OpsNext(next);
    TablesNext(cfg, next);
    TablesIgnoreScore(cfg, g, t, current, at);
    ProcessTables(cfg, g, t, at);
    RecordThenAsk(cfg.multiRules, OpsOf(feed), g.event, at, t.signals);
    hide Pipeline.Process, TablesAfter, OpsOf, Told, Pipeline.Recorded, Pipeline.CheckAll, Correlator.SignalsAfter,
         Evict, Correlator.MaxWindow, MatchesOf;
  }

  lemma {:induction false} NothingStands(cfg: Pipeline.Config)
    requires cfg.multiRules != []
    ensures OpsOf([]) == [] && Correlator.SignalsAfter(cfg.multiRules, []) == map[]
    ensures TablesAfter(cfg, []) == Pipeline.Tables(map[], map[])
  {
  }

  /**
    The engine's correlation tables are those of the events it has processed since it started: the multi-signal
    table over any run, crashes included, and both tables over a run without a crash.
  */
  lemma {:induction false} EngineFeeds(cfg: Pipeline.Config, actions: seq<Action>)
    requires cfg.multiRules != []
    ensures FeedStands(cfg, RunAll(cfg, FRESH, actions).tables, FeedOf(cfg, actions), forall a <- actions :: Lives(a))
  {
    NothingStands(cfg);
    if actions != [] {
      var before, a := actions[..|actions|-1], actions[|actions|-1];
      var s := RunAll(cfg, FRESH, before);
      EngineFeeds(cfg, before);
      NodeLife.RunSplit(cfg, actions);
      StepTables(cfg, s, a);
      assert a in actions && forall x <- before :: x in actions;
      assert forall x <- actions :: x in before || x == a;
      var lives := forall x <- before :: Lives(x);
      if a.OnEvent? && a.fault != PipelineFails && Accepts(s, a.m) {
        ProcessStands(cfg, s.tables, FeedOf(cfg, before), lives, Given(a.rules, a.m.event),
                      ScoreOf(s.db, a.m.event.node), a.now);
      }
      hide RunAll, Next, Pipeline.Process, TablesAfter, OpsOf, Correlator.SignalsAfter, ScoreOf;
    }
  }

  // ---- The row an event leaves ----

  /** The numbers of a row: recorded score, stored score and bucket, by what matched and by the multiplier x. */
  ghost predicate Weighed(cfg: ScoreConfig, matches: seq<Match>, node: string, stored: real, x: real, row: EventRow) {
    && row.scored.Some?
    && var c := row.scored.value;
    if matches == [] then
      var rested := Rested(cfg, stored);
      c.weighted == 0.0 && row.risk == Round4(rested) && c.bucket == BucketOf(cfg.bounds, rested)
    else
      exists w ::
        && Heaviest(cfg, matches, node, w)
        && c.weighted == Round4(x * w) && row.risk == Round4(stored + x * w)
        && c.bucket == BucketOf(cfg.bounds, stored + x * w)
  }

  lemma {:induction false} RowWeighed(cfg: ScoreConfig, matches: seq<Match>, node: string, stored: real, x: real,
                                      row: EventRow)
    requires row.scored.Some?
    requires
      var r, c := Score(cfg, matches, node, stored, x), row.scored.value;
      c.weighted == r.event && row.risk == r.cumulative && c.bucket == r.bucket
    ensures Weighed(cfg, matches, node, stored, x, row)
  {
    ScoredBy(cfg, matches, node, stored, x);
    hide Score, Heaviest, Round4, BucketOf, Rested;
  }

  /** The rules column lists the rules that matched, and nothing else. */
  lemma {:induction false} IdsAreMatches(matches: seq<Match>, id: string)
    ensures id in RuleIds(matches) <==> exists m :: m in matches && m.ruleId == id
  {
    if matches != [] {
      var before, last := matches[..|matches|-1], matches[|matches|-1];
      IdsAreMatches(before, id);
      assert matches == before + [last];
      assert last in matches;
    }
  }

  /**
    A row by what the engine has processed.  After any run without a crash, an accepted event is written with its node
    and receipt time; its correlation flag and multiplier are those of the whole history; recorded score, stored score
    and bucket are that multiplier times the heaviest match, on the old score; and its rules are those that matched.
  */
  lemma {:induction false} RowIsHistory(cfg: Pipeline.Config, actions: seq<Action>, rules: seq<Rules.Rule>, m: Incoming,
                                        now: real, stops: bool)
    requires cfg.Usable() && forall a <- actions :: Lives(a)
    requires Ordered(FeedOf(cfg, actions)) && UpTo(FeedOf(cfg, actions), now)
    requires m.valid && m.event.offset > RunAll(cfg, FRESH, actions).lastOffset
    ensures
      var s, feed, g, node := RunAll(cfg, FRESH, actions), FeedOf(cfg, actions), Given(rules, m.event), m.event.node;
      var db := Next(cfg, s, OnEvent(rules, m, now, stops, NoFault)).db;
      var found := Found(cfg.multiRules, feed + [Stamped(now, g)], node, now);
      var crossed := Crossed(cfg.cross, feed, g, now);
      && |db.events| == |s.db.events| + 1 && db.events[..|s.db.events|] == s.db.events
      && var row := db.events[|s.db.events|];
      && row.node == node && row.at == m.receivedAt && row.scored.Some? && ScoreOf(db, node) == row.risk
      && (row.scored.value.correlated <==> crossed || exists i :: i in found)
      && (exists x ::
            Multiplies(cfg, found, crossed, x) && Weighed(cfg.score, MatchesOf(g), node, ScoreOf(s.db, node), x, row))
      && (forall id :: id in row.scored.value.rules <==> Fired(g, id))
  {
    var s, feed, g, node := RunAll(cfg, FRESH, actions), FeedOf(cfg, actions), Given(rules, m.event), m.event.node;
    var a := OnEvent(rules, m, now, stops, NoFault);
    var d := Decide(cfg, rules, s, m, now).1;
    EngineFeeds(cfg, actions);
    assert s.tables == TablesAfter(cfg, feed);
    DecisionIsHistory(cfg, feed, g, ScoreOf(s.db, node), now);
    HandledChanges(cfg, s, a, node);
    Pipeline.ProcessScores(cfg, rules, s.tables, m.event, ScoreOf(s.db, node), now);
    var row := RowOf(d, m.receivedAt);
    var x := Pipeline.MultiplierOf(cfg, rules, s.tables, m.event, now);
    RowWeighed(cfg.score, MatchesOf(g), node, ScoreOf(s.db, node), x, row);
    forall id ensures id in RuleIds(d.matches) <==> Fired(g, id) {
      IdsAreMatches(MatchesOf(g), id);
    }
    hide RunAll, Next, FeedOf, TablesAfter, Pipeline.Process, Pipeline.MultiplierOf, Score, Weighed, Multiplies, Found,
         Crossed, Fired, Rules.MatchAll, Rules.Join, RuleIds, ScoreOf, Ordered, UpTo, Labels;
  }
}
