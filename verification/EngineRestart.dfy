/** The engine restarted on its own database, against the engine that ran on. */
module EngineRestart {
  import opened Common
  import opened SlidingWindow
  import opened Scoring
  import opened Store
  import opened RiskEngine
  import Rules
  import Correlator
  import Pipeline

  // ---- The running engine's windows are those of its log ----

  lemma {:induction false} AfterConcat(c: Correlator.Cross, w: Correlator.Windows, a: seq<Correlator.Call>,
                                       b: seq<Correlator.Call>)
    ensures Correlator.After(c, w, a + b) == Correlator.After(c, Correlator.After(c, w, a), b)
  {
    if b == [] {
      assert a + b == a;
    } else {
      AfterConcat(c, w, a, b[..|b|-1]);
      assert (a + b)[..|a + b|-1] == a + b[..|b|-1];
      hide Correlator.Check;
    }
  }

  /** The pipeline's checks of one event are the firings its row records. */
  lemma {:induction false} ChecksAreFirings(c: Correlator.Cross, w: Correlator.Windows, matches: seq<Match>,
                                            node: string, now: real)
    ensures Pipeline.CheckAll(c, w, matches, node, now).0 ==
            Correlator.After(c, w, Correlator.FiringsOf(RuleIds(matches), node, now))
  {
    if matches != [] {
      ChecksAreFirings(c, w, matches[..|matches|-1], node, now);
      var ids, before := RuleIds(matches), RuleIds(matches[..|matches|-1]);
      assert ids == before + [matches[|matches|-1].ruleId] && ids[..|ids|-1] == before;
      var calls := Correlator.FiringsOf(ids, node, now);
      assert calls[..|calls|-1] == Correlator.FiringsOf(before, node, now);
      hide Correlator.Check;
    }
  }

  lemma {:induction false} RowAdded(events: seq<EventRow>, r: EventRow)
    requires Correlator.Readable(AllRows(events))
    ensures
      var rows := AllRows(events + [r]);
      && Correlator.Readable(rows)
      && Correlator.Firings(rows) == Correlator.Firings(AllRows(events)) +
           (if r.scored.Some? then Correlator.FiringsOf(r.scored.value.rules, r.node, r.at) else [])
  {
    var before := AllRows(events);
    assert (events + [r])[..|events|] == events;
    if r.scored.Some? {
      var row := Correlator.Row(r.node, Some(r.scored.value.rules), Some(r.at));
      assert AllRows(events + [r]) == before + [row];
      assert (before + [row])[..|before|] == before;
    }
  }

  lemma {:induction false} DecidedWindows(cfg: Pipeline.Config, rules: seq<Rules.Rule>, s: State, m: Incoming,
                                          now: real)
    requires cfg.multiRules != []
    ensures
      var (tables, d) := Decide(cfg, rules, s, m, now);
      && d.node == m.event.node
      && tables.windows ==
         Correlator.After(cfg.cross, s.tables.windows, Correlator.FiringsOf(RuleIds(d.matches), d.node, now))
  {
    ChecksAreFirings(cfg.cross, s.tables.windows, Rules.MatchAll(rules, Rules.Join(m.event.reasons)), m.event.node,
                     now);
    hide Pipeline.CheckAll, Correlator.After, Score, Correlator.Evaluate, Rules.MatchAll, Rules.Join;
  }

  // ---- Rows in time order ----

  /** Events, heartbeats and restarts take their times from one clock that does not run backwards. */
  ghost predicate Timed(actions: seq<Action>, clock: real, until: real)
    decreases |actions|
  {
    if actions == [] then clock <= until
    else
      && clock <= TimeOf(actions[0], clock) && InStep(actions[0])
      && Timed(actions[1..], LastTime(actions[0], clock), until)
  }

  ghost function TimeOf(a: Action, clock: real): real {
    match a
    case OnEvent(_, _, now, _, _) => now
    case OnHeartbeat(_, now, _) => now
    case OnCrash(now) => now
    case OnCrashMidway(_, _, now, _) => now
    case _ => clock
  }

  ghost function LastTime(a: Action, clock: real): real {
    if a.OnCrashMidway? then a.restart else TimeOf(a, clock)
  }

  ghost predicate InStep(a: Action) {
    a.OnCrashMidway? ==> a.now <= a.restart
  }

  /** The event was received and checked at one time. */
  ghost predicate Dated(a: Action) {
    Handles(a) ==> a.m.receivedAt == a.now
  }

  /** A log in time order, as the running engine writes it. */
  ghost predicate TimedLog(events: seq<EventRow>, now: real) {
    InOrder(events, now) && Correlator.Readable(AllRows(events))
  }

  lemma {:induction false} RowInTime(events: seq<EventRow>, r: EventRow, clock: real)
    requires TimedLog(events, clock) && clock <= r.at
    ensures TimedLog(events + [r], r.at)
  {
    RowAdded(events, r);
    hide Correlator.Readable, AllRows;
  }

  lemma {:induction false} LogLater(events: seq<EventRow>, clock: real, later: real)
    requires TimedLog(events, clock) && clock <= later
    ensures TimedLog(events, later)
  {
    hide Correlator.Readable, AllRows;
  }

  /** What one action does to the log: a scored row, a heartbeat row, nothing, or its end. */
  lemma {:induction false} NextEvents(cfg: Pipeline.Config, s: State, a: Action)
    requires cfg.multiRules != []
    ensures
      var events := Next(cfg, s, a).db.events;
      if Commits(s, a) then events == s.db.events + [RowOf(Decide(cfg, a.rules, s, a.m, a.now).1, a.m.receivedAt)]
      else if a.OnReset? then events == []
      else events == s.db.events || (a.OnHeartbeat? && events == s.db.events + [EventRow(a.now, a.node, 100.0, None)])
  {
    if Commits(s, a) {
      HandledChanges(cfg, s, a, a.m.event.node);
    }
    hide Committed, Decide, Finished, WarmRows;
  }

  lemma {:induction false} NextInTime(cfg: Pipeline.Config, s: State, a: Action, clock: real)
    requires cfg.multiRules != [] && TimedLog(s.db.events, clock) && clock <= TimeOf(a, clock) && InStep(a) && Dated(a)
    ensures TimedLog(Next(cfg, s, a).db.events, LastTime(a, clock))
  {
    NextEvents(cfg, s, a);
    LogLater(s.db.events, clock, LastTime(a, clock));
    if Commits(s, a) {
      var row := RowOf(Decide(cfg, a.rules, s, a.m, a.now).1, a.m.receivedAt);
      RowInTime(s.db.events, row, clock);
      LogLater(s.db.events + [row], a.now, LastTime(a, clock));
    } else if a.OnHeartbeat? {
      RowInTime(s.db.events, EventRow(a.now, a.node, 100.0, None), clock);
    } else if a.OnReset? {
      EmptyInTime(clock);
    }
    hide Next, Decide, TimedLog;
  }

  lemma {:induction false} EmptyInTime(clock: real)
    ensures TimedLog([], clock)
  {
  }

  /** Over any actions the log is in time order. */
  lemma {:induction false} RunInTime(cfg: Pipeline.Config, s: State, actions: seq<Action>, clock: real, until: real)
    requires cfg.multiRules != [] && TimedLog(s.db.events, clock)
    requires Timed(actions, clock, until) && forall a <- actions :: Dated(a)
    ensures TimedLog(RunAll(cfg, s, actions).db.events, until)
    decreases |actions|
  {
    if actions != [] {
      var a := actions[0];
      assert a in actions;
      NextInTime(cfg, s, a, clock);
      hide Next, Dated, TimedLog;
      RunInTime(cfg, Next(cfg, s, a), actions[1..], LastTime(a, clock), until);
    } else {
      hide Correlator.Readable;
    }
  }

  // ---- The running engine correlates by its log, restarts included ----

  ghost function LoggedBy(events: seq<EventRow>, rule: string): seq<Correlator.Named>
    requires Correlator.Readable(AllRows(events))
  {
    Correlator.RuleHistory(Correlator.Firings(AllRows(events)), rule)
  }

  /** The rule's window stands for everything the log records of the rule. */
  ghost predicate Stands(c: Correlator.Cross, w: Correlator.Windows, events: seq<EventRow>, rule: string, clock: real)
    requires Correlator.Readable(AllRows(events))
  {
    Agrees(Lookup(w, rule, []), LoggedBy(events, rule), c.window, clock)
  }

  /** ... for every rule. */
  ghost predicate LogStands(c: Correlator.Cross, s: State, clock: real) {
    TimedLog(s.db.events, clock) && forall rule :: Stands(c, s.tables.windows, s.db.events, rule, clock)
  }

  /** Nothing the engine remembers is kept out of its log: no reset and no failing commit. */
  ghost predicate Logged(a: Action) {
    Dated(a) && !a.OnReset? && (a.OnEvent? ==> a.fault != CommitFails)
  }

  /** A started engine's windows stand for the log it reloads: the query, text comparison and all, covers them. */
  lemma {:induction false} StartedStands(c: Correlator.Cross, db: Database, restart: real)
    requires 0.0 <= c.window <= RESTART_WINDOW && TimedLog(db.events, restart)
    ensures LogStands(c, Started(db, restart), restart)
  {
    var events := db.events;
    var dropped := QueryIsSuffix(events, RESTART_WINDOW, restart);
    var kept := WarmRows(events, RESTART_WINDOW, restart);
    Correlator.FiringsConcat(dropped, kept);
    RowsInOrder(events, restart);
    FiringsInOrder(AllRows(events), restart);
    SuffixInTime(Correlator.Firings(dropped), Correlator.Firings(kept), restart);
    FiringsOlder(dropped, restart - c.window);
    hide Correlator.Load, Correlator.Firings, WarmRows, AllRows, Agrees;
    forall rule ensures Stands(c, Started(db, restart).tables.windows, events, rule, restart) {
      Correlator.ReloadAgrees(c, dropped, kept, restart, rule);
    }
  }

  lemma {:induction false} StandsLater(c: Correlator.Cross, s: State, clock: real, later: real)
    requires LogStands(c, s, clock) && clock <= later
    ensures LogStands(c, s, later)
  {
    hide Correlator.Readable, Agrees;
    forall rule ensures Stands(c, s.tables.windows, s.db.events, rule, later) {
      assert Stands(c, s.tables.windows, s.db.events, rule, clock);
      AgreesLater(Lookup(s.tables.windows, rule, []), LoggedBy(s.db.events, rule), c.window, clock, later);
    }
  }

  /** A commit adds to the windows what it adds to the log. */
  lemma {:induction false} CommitStands(c: Correlator.Cross, w: Correlator.Windows, events: seq<EventRow>, r: EventRow,
                                        rule: string, clock: real)
    requires Correlator.Readable(AllRows(events)) && Stands(c, w, events, rule, clock) && clock <= r.at
    requires r.scored.Some?
    ensures Correlator.Readable(AllRows(events + [r]))
    ensures Stands(c, Correlator.After(c, w, Correlator.FiringsOf(r.scored.value.rules, r.node, r.at)), events + [r],
                   rule, r.at)
  {
    var calls := Correlator.FiringsOf(r.scored.value.rules, r.node, r.at);
    RowAdded(events, r);
    SameTime(r.scored.value.rules, r.node, r.at);
    Correlator.RuleHistoryConcat(Correlator.Firings(AllRows(events)), calls, rule);
    hide Agrees, Correlator.After, Correlator.Firings, AllRows, Correlator.FiringsOf, Correlator.RuleHistory;
    Correlator.WindowAgrees(c, w, LoggedBy(events, rule), clock, calls, rule, r.at);
  }

  lemma {:induction false} EventStands(cfg: Pipeline.Config, s: State, a: Action, clock: real)
    requires cfg.multiRules != [] && LogStands(cfg.cross, s, clock)
    requires a.OnEvent? && Commits(s, a) && clock <= a.now && Dated(a)
    ensures LogStands(cfg.cross, Next(cfg, s, a), a.now)
  {
    var m := a.m;
    var d := Decide(cfg, a.rules, s, m, a.now).1;
    var s' := Next(cfg, s, a);
    HandledChanges(cfg, s, a, m.event.node);
    DecidedWindows(cfg, a.rules, s, m, a.now);
    NextInTime(cfg, s, a, clock);
    hide Next, Decide, Correlator.After, AllRows, Correlator.Readable;
    forall rule ensures Stands(cfg.cross, s'.tables.windows, s'.db.events, rule, a.now) {
      assert Stands(cfg.cross, s.tables.windows, s.db.events, rule, clock);
      CommitStands(cfg.cross, s.tables.windows, s.db.events, RowOf(d, m.receivedAt), rule, clock);
    }
  }

  /** A row without scoring columns changes nothing the log records of any rule. */
  lemma {:induction false} UnscoredStands(c: Correlator.Cross, s: State, s': State, r: EventRow, clock: real)
    requires LogStands(c, s, clock) && r.scored.None? && clock <= r.at
    requires s'.db.events == s.db.events + [r] && s'.tables == s.tables
    ensures LogStands(c, s', r.at)
  {
    StandsLater(c, s, clock, r.at);
    RowInTime(s.db.events, r, clock);
    RowAdded(s.db.events, r);
    hide Agrees, Correlator.Firings, AllRows, Correlator.RuleHistory, Correlator.Readable;
    var fs := Correlator.Firings(AllRows(s.db.events));
    assert fs + [] == fs;
    forall rule ensures Stands(c, s'.tables.windows, s'.db.events, rule, r.at) {
      assert Stands(c, s.tables.windows, s.db.events, rule, r.at);
    }
  }

  lemma {:induction false} SameStands(c: Correlator.Cross, s: State, s': State, clock: real)
    requires LogStands(c, s, clock) && s'.db.events == s.db.events && s'.tables == s.tables
    ensures LogStands(c, s', clock)
  {
    hide Correlator.Readable, Stands;
    forall rule ensures Stands(c, s'.tables.windows, s'.db.events, rule, clock) {
      assert Stands(c, s.tables.windows, s.db.events, rule, clock);
    }
  }

  lemma {:induction false} NextStands(cfg: Pipeline.Config, s: State, a: Action, clock: real)
    requires cfg.Usable() && cfg.cross.window <= RESTART_WINDOW && LogStands(cfg.cross, s, clock)
    requires clock <= TimeOf(a, clock) && InStep(a) && Logged(a)
    ensures LogStands(cfg.cross, Next(cfg, s, a), LastTime(a, clock))
  {
    var s' := Next(cfg, s, a);
    if a.OnCrash? || a.OnCrashMidway? {
      NextInTime(cfg, s, a, clock);
      hide Committed, Started, LogStands, TimedLog;
      StartedStands(cfg.cross, s'.db, LastTime(a, clock));
      assert s' == Started(s'.db, LastTime(a, clock)) by { CrashStarts(cfg, s, a); }
    } else if Commits(s, a) {
      EventStands(cfg, s, a, clock);
    } else if a.OnHeartbeat? && s'.db.events != s.db.events {
      hide LogStands;
      UnscoredStands(cfg.cross, s, s', EventRow(a.now, a.node, 100.0, None), clock);
    } else {
      hide LogStands, Committed, Decide, Finished;
      StandsLater(cfg.cross, s, clock, TimeOf(a, clock));
      SameStands(cfg.cross, s, s', TimeOf(a, clock));
    }
  }

  lemma {:induction false} CrashStarts(cfg: Pipeline.Config, s: State, a: Action)
    requires cfg.multiRules != [] && (a.OnCrash? || a.OnCrashMidway?)
    ensures Next(cfg, s, a) == Started(Next(cfg, s, a).db, LastTime(a, 0.0))
  {
    hide Committed;
  }

  /**
    However often the engine crashes, in a run without a reset and without a failing commit its windows
    stand for its whole log.
  */
  lemma {:induction false} RunStands(cfg: Pipeline.Config, s: State, actions: seq<Action>, clock: real, until: real)
    requires cfg.Usable() && cfg.cross.window <= RESTART_WINDOW && LogStands(cfg.cross, s, clock)
    requires Timed(actions, clock, until) && forall a <- actions :: Logged(a)
    ensures LogStands(cfg.cross, RunAll(cfg, s, actions), until)
    decreases |actions|
  {
    if actions == [] {
      StandsLater(cfg.cross, s, clock, until);
    } else {
      var a := actions[0];
      assert a in actions;
      NextStands(cfg, s, a, clock);
      hide Next, LogStands, Logged;
      RunStands(cfg, Next(cfg, s, a), actions[1..], LastTime(a, clock), until);
    }
  }

  lemma {:induction false} FreshStands(c: Correlator.Cross, clock: real)
    ensures LogStands(c, FRESH, clock)
  {
    assert forall rule :: Stands(c, FRESH.tables.windows, FRESH.db.events, rule, clock);
  }

  /** A check whose window stands for the log answers by the distinct nodes the log records in the closed window. */
  lemma {:induction false} AnswersByLog(c: Correlator.Cross, s: State, rule: string, node: string, clock: real,
                                        now: real)
    requires LogStands(c, s, clock) && clock <= now
    ensures
      Correlator.Check(c, s.tables.windows, rule, node, now).1 <==>
      |Correlator.NodesSince(Correlator.Firings(AllRows(s.db.events)), rule, now - c.window) + {node}| >= c.threshold
  {
    StandsLater(c, s, clock, now);
    var w, events := s.tables.windows, s.db.events;
    assert Stands(c, w, events, rule, now);
    assert Correlator.Readable(AllRows(events));
    var logged := Correlator.Firings(AllRows(events));
    assert Agrees(Lookup(w, rule, []), Correlator.RuleHistory(logged, rule), c.window, now);
    hide *;
    Correlator.AnswerIsQuery(c, w, Correlator.RuleHistory(logged, rule), rule, node, now);
    Correlator.NodesAreItems(logged, rule, now - c.window);
  }

  lemma {:induction false} WarmIff(events: seq<EventRow>, window: real, now: real, r: Correlator.Row)
    ensures r in WarmRows(events, window, now) <==>
            exists x :: x in events && x.scored.Some? && DayOf(x.at) >= DayOf(now - window)
              && r == Correlator.Row(x.node, Some(x.scored.value.rules), Some(x.at))
  {
    if events != [] {
      var before, last := events[..|events|-1], events[|events|-1];
      assert events == before + [last];
      assert last in events;
      WarmIff(before, window, now, r);
    }
  }

  /**
    What a start reloads: for each scored row of the log from the day ten minutes before now on, each of its rules with
    its node and time; of older days nothing, and of the last sightings and multi-signal history nothing at all.
  */
  lemma {:induction false} StartedHolds(db: Database, now: real, rule: string, e: Correlator.Named)
    ensures
      var s := Started(db, now);
      && (e in Lookup(s.tables.windows, rule, []) <==>
            exists x :: x in db.events && x.scored.Some? && rule in x.scored.value.rules && e == Stamped(x.at, x.node)
              && (x.at / 86400.0).Floor >= ((now - 600.0) / 86400.0).Floor)
      && s.tables.signals == map[] && s.lastSeen == map[] && s.db == db && s.lastOffset == db.watermark
  {
    var rows := WarmRows(db.events, 600.0, now);
    Correlator.LoadedIff(rows, now, rule, e);
    hide Correlator.Load, WarmRows;
    if e in Lookup(Correlator.Load(rows, now), rule, []) {
      var r :| r in rows && r.rules.Some? && rule in r.rules.value && e.item == r.node
               && e.at == (if r.at.Some? then r.at.value else now);
      WarmIff(db.events, 600.0, now, r);
    }
    if x :| x in db.events && x.scored.Some? && rule in x.scored.value.rules && e == Stamped(x.at, x.node)
            && DayOf(x.at) >= DayOf(now - 600.0) {
      var r := Correlator.Row(x.node, Some(x.scored.value.rules), Some(x.at));
      WarmIff(db.events, 600.0, now, r);
      assert r in rows;
    }
  }

  /** The same for an engine that has just been started on the log. */
  lemma {:induction false} StartedAnswer(cfg: Pipeline.Config, db: Database, restart: real, rule: string, node: string,
                                         now: real)
    requires cfg.Usable() && cfg.cross.window <= RESTART_WINDOW && restart <= now && TimedLog(db.events, restart)
    ensures
      Correlator.Check(cfg.cross, Started(db, restart).tables.windows, rule, node, now).1 <==>
      |Correlator.NodesSince(Correlator.Firings(AllRows(db.events)), rule, now - cfg.cross.window) + {node}|
        >= cfg.cross.threshold
  {
    hide Correlator.Check, Correlator.NodesSince, Correlator.Firings, AllRows, LogStands, TimedLog, Correlator.Load,
         WarmRows;
    StartedStands(cfg.cross, db, restart);
    var s := Started(db, restart);
    AnswersByLog(cfg.cross, s, rule, node, restart, now);
  }

  /** Windows that stand for one log answer alike, after any further checks. */
  lemma {:induction false} StandAlike(c: Correlator.Cross, v: State, w: State, clock: real, later: seq<Correlator.Call>,
                                      rule: string, node: string, now: real)
    requires LogStands(c, v, clock) && LogStands(c, w, clock) && v.db.events == w.db.events
    requires Ordered(later) && UpTo(later, now) && clock <= now
    requires forall i :: 0 <= i < |later| ==> clock <= later[i].at
    ensures
      Correlator.Check(c, Correlator.After(c, v.tables.windows, later), rule, node, now).1 <==>
      Correlator.Check(c, Correlator.After(c, w.tables.windows, later), rule, node, now).1
  {
    assert Stands(c, v.tables.windows, v.db.events, rule, clock) &&
           Stands(c, w.tables.windows, w.db.events, rule, clock);
    hide Agrees, Correlator.Check, Correlator.After, LogStands;
    var h := LoggedBy(v.db.events, rule);
    Correlator.WindowAgrees(c, v.tables.windows, h, clock, later, rule, now);
    Correlator.WindowAgrees(c, w.tables.windows, h, clock, later, rule, now);
    hide Ordered, UpTo, LoggedBy;
    var all := h + Correlator.RuleHistory(later, rule);
    Correlator.AnswerIsQuery(c, Correlator.After(c, v.tables.windows, later), all, rule, node, now);
    Correlator.AnswerIsQuery(c, Correlator.After(c, w.tables.windows, later), all, rule, node, now);
  }

  /**
    Restarting the engine after any run from an empty database without a reset and without a failing
    commit, however often it crashed in that run, changes no later cross-node check: an engine started on
    the database it left answers, after any further checks, as the engine that ran on.
  */
  lemma {:induction false} EngineRestartAgrees(cfg: Pipeline.Config, actions: seq<Action>, start: real, restart: real,
                                               later: seq<Correlator.Call>, rule: string, node: string, now: real)
    requires cfg.Usable() && cfg.cross.window <= RESTART_WINDOW
    requires Timed(actions, start, restart) && forall a <- actions :: Logged(a)
    requires Ordered(later) && UpTo(later, now) && restart <= now
    requires forall i :: 0 <= i < |later| ==> restart <= later[i].at
    ensures
      var c, ran := cfg.cross, RunAll(cfg, FRESH, actions);
      Correlator.Check(c, Correlator.After(c, Started(ran.db, restart).tables.windows, later), rule, node, now).1 <==>
      Correlator.Check(c, Correlator.After(c, ran.tables.windows, later), rule, node, now).1
  {
    var ran := RunAll(cfg, FRESH, actions);
    FreshStands(cfg.cross, start);
    RunStands(cfg, FRESH, actions, start, restart);
    StartedStands(cfg.cross, ran.db, restart);
    var started := Started(ran.db, restart);
    assert started.db == ran.db;
    hide RunAll, Started, LogStands, Correlator.Check, Correlator.After;
    StandAlike(cfg.cross, started, ran, restart, later, rule, node, now);
  }

  // ---- What the running engine answers, failing commits and resets included ----

  /** The process lives on. */
  ghost predicate Lives(a: Action) {
    !a.OnCrash? && !a.OnCrashMidway?
  }

  /** The cross-node checks one action makes; a failing commit leaves them made but not logged. */
  ghost function Made(cfg: Pipeline.Config, s: State, a: Action): seq<Correlator.Call>
    requires cfg.multiRules != []
  {
    if Handles(a) && Accepts(s, a.m) && (a.OnEvent? ==> a.fault != PipelineFails) then
      var d := Decide(cfg, a.rules, s, a.m, a.now).1;
      Correlator.FiringsOf(RuleIds(d.matches), d.node, a.now)
    else []
  }

  ghost function ChecksOf(cfg: Pipeline.Config, s: State, actions: seq<Action>): seq<Correlator.Call>
    requires cfg.multiRules != []
    decreases |actions|
  {
    if actions == [] then [] else Made(cfg, s, actions[0]) + ChecksOf(cfg, Next(cfg, s, actions[0]), actions[1..])
  }

  lemma {:induction false} NextChecks(cfg: Pipeline.Config, s: State, a: Action)
    requires cfg.multiRules != [] && Lives(a)
    ensures Next(cfg, s, a).tables.windows == Correlator.After(cfg.cross, s.tables.windows, Made(cfg, s, a))
  {
    if Handles(a) && Accepts(s, a.m) {
      DecidedWindows(cfg, a.rules, s, a.m, a.now);
    }
    hide Decide, Correlator.FiringsOf;
  }

  lemma {:induction false} RunChecks(cfg: Pipeline.Config, s: State, actions: seq<Action>)
    requires cfg.multiRules != [] && forall a <- actions :: Lives(a)
    ensures RunAll(cfg, s, actions).tables.windows ==
            Correlator.After(cfg.cross, s.tables.windows, ChecksOf(cfg, s, actions))
    decreases |actions|
  {
    if actions != [] {
      var a := actions[0];
      assert a in actions;
      NextChecks(cfg, s, a);
      hide Next, Made;
      RunChecks(cfg, Next(cfg, s, a), actions[1..]);
      AfterConcat(cfg.cross, s.tables.windows, Made(cfg, s, a), ChecksOf(cfg, Next(cfg, s, a), actions[1..]));
    }
  }

  lemma {:induction false} MadeInTime(cfg: Pipeline.Config, s: State, a: Action, clock: real)
    requires cfg.multiRules != []
    ensures forall i :: 0 <= i < |Made(cfg, s, a)| ==> Made(cfg, s, a)[i].at == TimeOf(a, clock)
  {
    if Made(cfg, s, a) != [] {
      var d := Decide(cfg, a.rules, s, a.m, a.now).1;
      SameTime(RuleIds(d.matches), d.node, a.now);
    }
    hide Decide, Correlator.FiringsOf;
  }

  lemma {:induction false} ChecksInTime(cfg: Pipeline.Config, s: State, actions: seq<Action>, clock: real, until: real)
    requires cfg.multiRules != [] && Timed(actions, clock, until)
    ensures
      var checks := ChecksOf(cfg, s, actions);
      && Ordered(checks) && UpTo(checks, until) && clock <= until
      && forall i :: 0 <= i < |checks| ==> clock <= checks[i].at
    decreases |actions|
  {
    if actions != [] {
      var a := actions[0];
      var made, rest := Made(cfg, s, a), ChecksOf(cfg, Next(cfg, s, a), actions[1..]);
      MadeInTime(cfg, s, a, clock);
      assert clock <= TimeOf(a, clock) <= LastTime(a, clock) && Timed(actions[1..], LastTime(a, clock), until);
      assert ChecksOf(cfg, s, actions) == made + rest;
      hide Next, Made, ChecksOf, Timed, TimeOf, LastTime, InStep;
      ChecksInTime(cfg, Next(cfg, s, a), actions[1..], LastTime(a, clock), until);
      JoinedInTime(made, rest, TimeOf(a, clock), LastTime(a, clock), until);
    }
  }

  /** Checks of one moment, followed by checks in order from a later one. */
  lemma {:induction false} JoinedInTime(made: seq<Correlator.Call>, rest: seq<Correlator.Call>, at: real, later: real,
                                        until: real)
    requires at <= later <= until && Ordered(rest) && UpTo(rest, until)
    requires forall i :: 0 <= i < |made| ==> made[i].at == at
    requires forall i :: 0 <= i < |rest| ==> later <= rest[i].at
    ensures Ordered(made + rest) && UpTo(made + rest, until)
    ensures forall i :: 0 <= i < |made + rest| ==> at <= (made + rest)[i].at
  {
  }

  /**
    Until it crashes the running engine correlates by all the checks it ever made: distinct nodes of the
    rule in the closed window, this one included.  A failed commit and a reset take nothing out of it.
  */
  lemma {:induction false} RunningAnswer(cfg: Pipeline.Config, actions: seq<Action>, clock: real, rule: string,
                                         node: string, now: real)
    requires cfg.multiRules != [] && Timed(actions, clock, now) && forall a <- actions :: Lives(a)
    ensures
      Correlator.Check(cfg.cross, RunAll(cfg, FRESH, actions).tables.windows, rule, node, now).1 <==>
      |Correlator.NodesSince(ChecksOf(cfg, FRESH, actions), rule, now - cfg.cross.window) + {node}|
        >= cfg.cross.threshold
  {
    hide RunAll, ChecksOf, Correlator.Check, Correlator.After, Correlator.NodesSince, Ordered, UpTo, Timed;
    var checks, ran := ChecksOf(cfg, FRESH, actions), RunAll(cfg, FRESH, actions).tables.windows;
    RunChecks(cfg, FRESH, actions);
    assert ran == Correlator.After(cfg.cross, map[], checks);
    ChecksInTime(cfg, FRESH, actions, clock, now);
    Correlator.CheckIsFullHistory(cfg.cross, checks, rule, node, now);
  }

  /**
    Exactly when a restart changes an answer.  In one lifetime, resets and failing commits included, the engine
    that runs on and one started on its database disagree about a check iff the nodes it has checked reach the
    threshold with this one and those in its log do not, or the other way round.
  */
  lemma {:induction false} RestartChangesIff(cfg: Pipeline.Config, actions: seq<Action>, clock: real, restart: real,
                                             rule: string, node: string, now: real)
    requires cfg.Usable() && cfg.cross.window <= RESTART_WINDOW
    requires Timed(actions, clock, restart) && restart <= now && forall a <- actions :: Lives(a) && Dated(a)
    ensures
      var c, ran := cfg.cross, RunAll(cfg, FRESH, actions);
      Correlator.Readable(AllRows(ran.db.events)) &&
      var made := Correlator.NodesSince(ChecksOf(cfg, FRESH, actions), rule, now - c.window) + {node};
      var kept := Correlator.NodesSince(Correlator.Firings(AllRows(ran.db.events)), rule, now - c.window) + {node};
      (Correlator.Check(c, ran.tables.windows, rule, node, now).1
         == Correlator.Check(c, Started(ran.db, restart).tables.windows, rule, node, now).1)
      <==> (|made| >= c.threshold <==> |kept| >= c.threshold)
  {
    EmptyInTime(clock);
    RunInTime(cfg, FRESH, actions, clock, restart);
    TimedLater(actions, clock, restart, now);
    hide RunAll, ChecksOf, Started, Correlator.Check, Correlator.NodesSince, Correlator.Firings, AllRows;
    RunningAnswer(cfg, actions, clock, rule, node, now);
    StartedAnswer(cfg, RunAll(cfg, FRESH, actions).db, restart, rule, node, now);
  }

  lemma {:induction false} TimedLater(actions: seq<Action>, clock: real, until: real, later: real)
    requires Timed(actions, clock, until) && until <= later
    ensures Timed(actions, clock, later)
    decreases |actions|
  {
    if actions != [] {
      TimedLater(actions[1..], LastTime(actions[0], clock), until, later);
    }
  }

  // ---- Times of rows and firings ----

  ghost predicate RowsOrdered(rows: seq<Correlator.Row>, now: real) {
    && (forall i :: 0 <= i < |rows| ==> rows[i].at.Some? && rows[i].at.value <= now)
    && (forall i, j :: 0 <= i < j < |rows| ==> rows[i].at.value <= rows[j].at.value)
  }

  lemma {:induction false} RowsInOrder(events: seq<EventRow>, now: real)
    requires InOrder(events, now)
    ensures RowsOrdered(AllRows(events), now)
  {
    if events != [] {
      RowsInOrder(events[..|events|-1], events[|events|-1].at);
    }
  }

  lemma {:induction false} SameTime(rules: seq<string>, node: string, at: real)
    ensures forall i :: 0 <= i < |Correlator.FiringsOf(rules, node, at)| ==>
            Correlator.FiringsOf(rules, node, at)[i].at == at
  {
    if rules != [] {
      SameTime(rules[..|rules|-1], node, at);
    }
  }

  lemma {:induction false} FiringsInOrder(rows: seq<Correlator.Row>, now: real)
    requires Correlator.Readable(rows) && RowsOrdered(rows, now)
    ensures Ordered(Correlator.Firings(rows)) && UpTo(Correlator.Firings(rows), now)
  {
    if rows != [] {
      var before, r := rows[..|rows|-1], rows[|rows|-1];
      assert r in rows;
      FiringsInOrder(before, r.at.value);
      SameTime(r.rules.value, r.node, r.at.value);
    }
  }

  lemma {:induction false} FiringsOlder(rows: seq<Correlator.Row>, cutoff: real)
    requires Correlator.Readable(rows)
    requires forall i :: 0 <= i < |rows| ==> rows[i].at.Some? && rows[i].at.value < cutoff
    ensures forall i :: 0 <= i < |Correlator.Firings(rows)| ==> Correlator.Firings(rows)[i].at < cutoff
  {
    if rows != [] {
      var r := rows[|rows|-1];
      assert r in rows;
      FiringsOlder(rows[..|rows|-1], cutoff);
      SameTime(r.rules.value, r.node, r.at.value);
    }
  }
}
