/** The risk engine: event loop, heartbeat pass and operator commands as steps on one state. */
module RiskEngine {
  import opened Common
  import opened SlidingWindow
  import opened Scoring
  import opened Store
  import Rules
  import Correlator
  import Pipeline

  /**
    A received event.  `valid` is whether the required fields are present, `critical` whether some
    threat detector raises a CRITICAL alert on it.
  */
  datatype Incoming = Incoming(event: Pipeline.Event, valid: bool, busy: bool, critical: bool, receivedAt: real)

  datatype State = State(db: Database, tables: Pipeline.Tables, lastOffset: int, lastSeen: map<string, real>)

  const HEARTBEAT_TIMEOUT := 90.0

  function StatusFor(bucket: Bucket, busy: bool): Status {
    match bucket
    case Critical => Quarantined
    case High => AwaitingApproval
    case _ => if busy then Busy else Idle
  }

  /** Quarantine takes effect in the store if the container can be stopped, is stopped, or does not exist. */
  function Quarantine(db: Database, node: string, stops: bool): Database {
    if stops then WithStatus(db, node, Quarantined, 0.0) else db
  }

  /**
    Where handling an event can raise.  On fields of the expected types a pipeline that raises does so
    before it touches the correlator; an exception from dispatch on leaves what a container that
    does not stop leaves.
  */
  datatype Fault = NoFault | PipelineFails | CommitFails | StatusFails

  predicate Accepts(s: State, m: Incoming) {
    m.valid && m.event.offset > s.lastOffset
  }

  /** What follows the commit in the store: status from the bucket, dispatch, critical alerts. */
  function Settled(db: Database, d: Pipeline.Decision, m: Incoming, stops: bool): Database {
    Quarantine(WithStatus(db, d.node, StatusFor(d.scored.bucket, m.busy), d.scored.cumulative),
               d.node, stops && (d.scored.bucket == Critical || m.critical))
  }

  function Decide(cfg: Pipeline.Config, rules: seq<Rules.Rule>, s: State, m: Incoming,
                  now: real): (Pipeline.Tables, Pipeline.Decision)
    requires cfg.multiRules != []
  {
    Pipeline.Process(cfg, rules, s.tables, m.event, ScoreOf(s.db, m.event.node), now)
  }

  /** Up to and including the commit; the watermark in memory has not moved yet. */
  function Committed(cfg: Pipeline.Config, rules: seq<Rules.Rule>, s: State, m: Incoming, now: real): State
    requires cfg.multiRules != []
  {
    var (tables, d) := Decide(cfg, rules, s, m, now);
    State(Written(s.db, d, m.receivedAt), tables, s.lastOffset, s.lastSeen[m.event.node := now])
  }

  /** The rest of the step. */
  function Finished(s: State, d: Pipeline.Decision, m: Incoming, stops: bool, fault: Fault): State {
    s.(lastOffset := m.event.offset, db := if fault == StatusFails then s.db else Settled(s.db, d, m, stops))
  }

  function Handle(cfg: Pipeline.Config, rules: seq<Rules.Rule>, s: State, m: Incoming, now: real, stops: bool,
                  fault: Fault): State
    requires cfg.multiRules != []
  {
    if !Accepts(s, m) then s
    else if fault == PipelineFails then s.(lastSeen := s.lastSeen[m.event.node := now])
    else
      var (tables, d) := Decide(cfg, rules, s, m, now);
      if fault == CommitFails then s.(lastSeen := s.lastSeen[m.event.node := now], tables := tables)
      else Finished(Committed(cfg, rules, s, m, now), d, m, stops, fault)
  }

  predicate HeartbeatDue(s: State, node: string, now: real) {
    && StatusOf(s.db, node) !in {AwaitingApproval, Quarantined, Unresponsive}
    && node in s.lastSeen && now - s.lastSeen[node] > HEARTBEAT_TIMEOUT
  }

  datatype HeartbeatOutcome = Done | WriteFails | AlertFails

  /** If alerting raises, the node stays unresponsive. */
  function Heartbeat(s: State, node: string, now: real, outcome: HeartbeatOutcome): State {
    if !HeartbeatDue(s, node, now) || outcome == WriteFails then s
    else
      var silent := HeartbeatWritten(s.db, node, now);
      s.(db := if outcome == AlertFails then silent else WithStatus(silent, node, Quarantined, 0.0))
  }

  datatype ReleaseOutcome = Completes | ContainerFails | StatusLost

  /**
    Back to idle with a zero score, unless the container call raises first or the status write after the reset
    does.
  */
  function Released(s: State, node: string, outcome: ReleaseOutcome): State {
    match outcome
    case Completes => s.(db := WithStatus(ScoreReset(s.db, node), node, Idle, 0.0))
    case ContainerFails => s
    case StatusLost => s.(db := ScoreReset(s.db, node))
  }

  function Approve(s: State, node: string, outcome: ReleaseOutcome): State {
    if StatusOf(s.db, node) == AwaitingApproval then Released(s, node, outcome) else s
  }

  function Restart(s: State, node: string, outcome: ReleaseOutcome): State {
    if StatusOf(s.db, node) in {Quarantined, Unresponsive} then Released(s, node, outcome) else s
  }

  function Deny(s: State, node: string, proceeds: bool): State {
    if StatusOf(s.db, node) in {AwaitingApproval, Idle, Busy} && proceeds then
      s.(db := WithStatus(s.db, node, Quarantined, ScoreOf(s.db, node)))
    else s
  }

  function Reset(s: State): State {
    s.(db := EMPTY, lastOffset := 0, lastSeen := map[])
  }

  const RESTART_WINDOW := 600.0

  /** A start on an existing database: correlation windows reloaded, watermark read back, nothing else remembered. */
  function Started(db: Database, now: real): State {
    State(db, Pipeline.Tables(Correlator.Load(WarmRows(db.events, RESTART_WINDOW, now), now), map[]), db.watermark,
          map[])
  }

  class Engine {
    const pipeline: Pipeline.Pipeline
    const correlator: Correlator.Correlator
    const store: Store
    var lastOffset: int
    var lastSeen: map<string, real>

    ghost predicate Valid() {
      pipeline.Valid() && pipeline.correlator == correlator
    }

    ghost function View(): State
      reads this, store, correlator
    {
      State(store.View(), Pipeline.Tables(correlator.windows, correlator.signals), lastOffset, lastSeen)
    }

    /** The pipeline is given a correlator that has just been made. */
    constructor (pipeline: Pipeline.Pipeline, store: Store, now: real)
      requires pipeline.Valid() && pipeline.correlator.signals == map[]
      modifies pipeline.correlator
      ensures Valid() && this.pipeline == pipeline && this.store == store
      ensures View() == Started(store.View(), now)
    {
      this.pipeline, this.store := pipeline, store;
      correlator := pipeline.correlator;
      lastOffset, lastSeen := store.watermark, map[];
      new;
      correlator.WarmRestart(WarmRows(store.events, RESTART_WINDOW, now), now);
    }

    method QuarantineNode(node: string, stops: bool)
      modifies store
      ensures store.View() == Quarantine(old(store.View()), node, stops)
    {
      if stops {
        store.UpdateNodeStatus(node, Quarantined, 0.0);
      }
    }

    /** What follows the commit: status from the bucket, quarantine by bucket, quarantine by critical alert. */
    method SettleStatus(d: Pipeline.Decision, m: Incoming, stops: bool)
      modifies store
      ensures store.View() == Settled(old(store.View()), d, m, stops)
    {
      var status := if m.busy then Busy else Idle;
      if d.scored.bucket == Critical {
        status := Quarantined;
      } else if d.scored.bucket == High {
        status := AwaitingApproval;
      }
      store.UpdateNodeStatus(d.node, status, d.scored.cumulative);
      ghost var updated := store.View();
      if d.scored.bucket == Critical {
        QuarantineNode(d.node, stops);
      }
      if m.critical {
        QuarantineNode(d.node, stops);
      }
      assert store.View() == Quarantine(updated, d.node, stops && (d.scored.bucket == Critical || m.critical));
    }

    method Receive(m: Incoming, now: real, stops: bool, fault: Fault)
      requires Valid()
      modifies this, store, correlator
      ensures Valid()
      ensures View() == Handle(pipeline.cfg, old(pipeline.rules.rules), old(View()), m, now, stops, fault)
    {
      hide Pipeline.Process, RowOf, Settled;
      if !m.valid || m.event.offset <= lastOffset {
        return;
      }
      lastSeen := lastSeen[m.event.node := now];
      if fault == PipelineFails {
        return;
      }
      var current := store.GetNodeScore(m.event.node);
      var d := pipeline.Run(m.event, current, now);
      if fault == CommitFails {
        return;
      }
      store.WriteEvent(d, m.receivedAt);
      lastOffset := m.event.offset;
      if fault == StatusFails {
        return;
      }
      SettleStatus(d, m, stops);
    }

    method CheckHeartbeat(node: string, now: real, stops: bool, outcome: HeartbeatOutcome)
      modifies store
      ensures View() == Heartbeat(old(View()), node, now, outcome)
    {
      var status := store.GetNodeStatus(node);
      if status == AwaitingApproval || status == Quarantined || status == Unresponsive || node !in lastSeen {
        return;
      }
      if now - lastSeen[node] > HEARTBEAT_TIMEOUT && outcome != WriteFails {
        store.WriteHeartbeatEvent(node, now);
        ghost var silent := store.View();
        if outcome != AlertFails {
          QuarantineNode(node, stops);
          store.UpdateNodeStatus(node, Quarantined, 0.0);
          assert store.View() == WithStatus(silent, node, Quarantined, 0.0);
        }
      }
    }

    method Release(node: string, outcome: ReleaseOutcome)
      modifies store
      ensures View() == Released(old(View()), node, outcome)
    {
      if outcome == ContainerFails {
        return;
      }
      store.ResetNodeScore(node);
      if outcome == StatusLost {
        return;
      }
      store.UpdateNodeStatus(node, Idle, 0.0);
    }

    method ApproveNode(node: string, outcome: ReleaseOutcome) returns (ok: bool)
      modifies store
      ensures View() == Approve(old(View()), node, outcome)
      ensures ok <==> StatusOf(old(store.View()), node) == AwaitingApproval
    {
      var status := store.GetNodeStatus(node);
      if status != AwaitingApproval {
        return false;
      }
      Release(node, outcome);
      return true;
    }

    method RestartNode(node: string, outcome: ReleaseOutcome) returns (ok: bool)
      modifies store
      ensures View() == Restart(old(View()), node, outcome)
      ensures ok <==> StatusOf(old(store.View()), node) in {Quarantined, Unresponsive}
    {
      var status := store.GetNodeStatus(node);
      if status != Quarantined && status != Unresponsive {
        return false;
      }
      Release(node, outcome);
      return true;
    }

    method DenyNode(node: string, proceeds: bool) returns (ok: bool)
      modifies store
      ensures View() == Deny(old(View()), node, proceeds)
      ensures ok <==> StatusOf(old(store.View()), node) in {AwaitingApproval, Idle, Busy}
    {
      var status := store.GetNodeStatus(node);
      if status != AwaitingApproval && status != Idle && status != Busy {
        return false;
      }
      if proceeds {
        var score := store.GetNodeScore(node);
        store.UpdateNodeStatus(node, Quarantined, score);
      }
      return true;
    }

    method ResetSystem()
      modifies this, store
      ensures View() == Reset(old(View()))
    {
      store.ResetAllTables();
      lastOffset := 0;
      lastSeen := map[];
    }
  }

  // ---- Whole runs ----

  /**
    Rules can be reloaded between any two events, so each event comes with those in force.  The
    engine can die between two actions, or between the commit of an event and what follows it.
  */
  datatype Action =
    | OnEvent(rules: seq<Rules.Rule>, m: Incoming, now: real, stops: bool, fault: Fault)
    | OnHeartbeat(node: string, now: real, outcome: HeartbeatOutcome)
    | OnApprove(node: string, release: ReleaseOutcome)
    | OnRestart(node: string, release: ReleaseOutcome)
    | OnDeny(node: string, proceeds: bool)
    | OnReset
    | OnCrash(now: real)
    | OnCrashMidway(rules: seq<Rules.Rule>, m: Incoming, now: real, restart: real)

  function Next(cfg: Pipeline.Config, s: State, a: Action): State
    requires cfg.multiRules != []
  {
    match a
    case OnEvent(rules, m, now, stops, fault) => Handle(cfg, rules, s, m, now, stops, fault)
    case OnHeartbeat(node, now, outcome) => Heartbeat(s, node, now, outcome)
    case OnApprove(node, release) => Approve(s, node, release)
    case OnRestart(node, release) => Restart(s, node, release)
    case OnDeny(node, proceeds) => Deny(s, node, proceeds)
    case OnReset => Reset(s)
    case OnCrash(now) => Started(s.db, now)
    case OnCrashMidway(rules, m, now, restart) =>
      Started(if Accepts(s, m) then Committed(cfg, rules, s, m, now).db else s.db, restart)
  }

  function RunAll(cfg: Pipeline.Config, s: State, actions: seq<Action>): State
    requires cfg.multiRules != []
    decreases |actions|
  {
    if actions == [] then s else RunAll(cfg, Next(cfg, s, actions[0]), actions[1..])
  }

  lemma {:induction false} RunAppend(cfg: Pipeline.Config, s: State, a: seq<Action>, b: seq<Action>)
    requires cfg.multiRules != []
    ensures RunAll(cfg, s, a + b) == RunAll(cfg, RunAll(cfg, s, a), b)
    decreases |a|
  {
    hide Next;
    if a == [] {
      assert a + b == b;
    } else {
      RunAppend(cfg, Next(cfg, s, a[0]), a[1..], b);
      assert (a + b)[1..] == a[1..] + b;
    }
  }

  const FRESH := State(EMPTY, Pipeline.Tables(map[], map[]), 0, map[])

  const MAX_HIGH := 100.0

  /** No bucket but critical above 100, as shipped. */
  ghost predicate Sound(cfg: Pipeline.Config) {
    && cfg.Usable() && Sane(cfg.score)
    && forall b <- cfg.score.bounds :: b.upper <= MAX_HIGH
  }

  /** The action handles an event, to its end or to its commit. */
  predicate Handles(a: Action) {
    a.OnEvent? || a.OnCrashMidway?
  }

  /** ... and commits it. */
  predicate Commits(s: State, a: Action) {
    Handles(a) && Accepts(s, a.m) && (a.OnEvent? ==> a.fault == NoFault || a.fault == StatusFails)
  }

  /** The rules in force have nonnegative weights. */
  ghost predicate SaneAction(a: Action) {
    Handles(a) ==> Pipeline.SaneRules(a.rules)
  }

  /** The node's event is committed and its status is not written: the write raises, or the engine dies before it. */
  predicate LosesStatus(a: Action, node: string) {
    Handles(a) && a.m.event.node == node && (a.OnEvent? ==> a.fault == StatusFails)
  }

  /** Stored scores are nonnegative multiples of 0.0001. */
  ghost predicate ScoreInv(db: Database, node: string) {
    ScoreOf(db, node) >= 0.0 && OnGrid(ScoreOf(db, node))
  }

  ghost predicate ScoresInv(db: Database) {
    forall node :: ScoreInv(db, node)
  }

  /** A score above 100 means quarantined. */
  ghost predicate Held(db: Database, node: string) {
    ScoreOf(db, node) > MAX_HIGH ==> StatusOf(db, node) == Quarantined
  }

  lemma {:induction false} AboveMaxIsCritical(bounds: seq<Bound>, score: real)
    requires score > MAX_HIGH && forall b <- bounds :: b.upper <= MAX_HIGH
    ensures BucketOf(bounds, score) == Critical
  {
    if bounds != [] {
      assert bounds[0] in bounds;
      AboveMaxIsCritical(bounds[1..], score);
    }
  }

  /** What scoring does to one stored score. */
  lemma {:induction false} ScoreFacts(cfg: ScoreConfig, matches: seq<Match>, node: string, current: real,
                                      multiplier: real)
    requires Sane(cfg) && NonNegative(matches) && multiplier >= 0.0 && current >= 0.0 && OnGrid(current)
    requires forall b <- cfg.bounds :: b.upper <= MAX_HIGH
    ensures
      var r := Score(cfg, matches, node, current, multiplier);
      && r.cumulative >= 0.0 && OnGrid(r.cumulative)
      && (r.cumulative > MAX_HIGH ==> r.bucket == Critical)
      && (current >= LATCH ==> r.cumulative >= current)
      && (matches != [] ==> r.cumulative >= current)
  {
    var exact := if matches == [] then Decayed(cfg, current) else current + EventScore(cfg, matches, node, multiplier);
    if matches != [] {
      EventScoreNonNegative(cfg, matches, node, multiplier);
    }
    hide EventScore, Round4, OnGrid;
    RoundNear(exact);
    RoundFixesGrid(0.0);
    RoundFixesGrid(current);
    RoundFixesGrid(MAX_HIGH);
    GridHasWholes();
    RoundMonotone(0.0, exact);
    if current <= exact { RoundMonotone(current, exact); }
    if exact <= MAX_HIGH { RoundMonotone(exact, MAX_HIGH); } else { AboveMaxIsCritical(cfg.bounds, exact); }
  }

  lemma {:induction false} GridHasWholes()
    ensures OnGrid(0.0) && OnGrid(MAX_HIGH)
  {
    assert 0.0 == Grid(0) && MAX_HIGH == Grid(1000000);
  }

  /** The decision on an event, against the score stored before. */
  lemma {:induction false} DecisionFacts(cfg: Pipeline.Config, rules: seq<Rules.Rule>, s: State, m: Incoming, now: real)
    requires Sound(cfg) && Pipeline.SaneRules(rules) && ScoreInv(s.db, m.event.node)
    ensures
      var d := Decide(cfg, rules, s, m, now).1;
      && d.node == m.event.node && d.offset == m.event.offset
      && d.scored.cumulative >= 0.0 && OnGrid(d.scored.cumulative)
      && (d.scored.cumulative > MAX_HIGH ==> d.scored.bucket == Critical)
      && (ScoreOf(s.db, m.event.node) >= LATCH ==> d.scored.cumulative >= ScoreOf(s.db, m.event.node))
  {
    var current := ScoreOf(s.db, m.event.node);
    Pipeline.ProcessScores(cfg, rules, s.tables, m.event, current, now);
    Pipeline.MatchesNonNegative(rules, Rules.Join(m.event.reasons));
    Pipeline.MultiplierMonotone(cfg, rules, s.tables, m.event, [], now);
    hide Pipeline.Process, Pipeline.MultiplierOf, Score, OnGrid, Rules.MatchAll;
    ScoreFacts(cfg.score, Rules.MatchAll(rules, Rules.Join(m.event.reasons)), m.event.node, current,
               Pipeline.MultiplierOf(cfg, rules, s.tables, m.event, now));
  }

  /** What a commit leaves of log, scores and statuses. */
  lemma {:induction false} CommittedChanges(cfg: Pipeline.Config, rules: seq<Rules.Rule>, s: State, m: Incoming,
                                            now: real)
    requires cfg.multiRules != []
    ensures
      var (tables, d) := Decide(cfg, rules, s, m, now);
      var s' := Committed(cfg, rules, s, m, now);
      && s'.db.events == s.db.events + [RowOf(d, m.receivedAt)]
      && s'.db.scores == s.db.scores[m.event.node := d.scored.cumulative]
      && s'.db.statuses == s.db.statuses && s'.db.watermark == m.event.offset && s'.tables == tables
      && d.node == m.event.node
  {
    Pipeline.ProcessIdentifies(cfg, rules, s.tables, m.event, ScoreOf(s.db, m.event.node), now);
    hide Pipeline.Process, RowOf;
  }

  /** A commit keeps the scores in order and lowers none from the latch up. */
  lemma {:induction false} CommitKeeps(cfg: Pipeline.Config, rules: seq<Rules.Rule>, s: State, m: Incoming, now: real)
    requires Sound(cfg) && Pipeline.SaneRules(rules) && ScoresInv(s.db)
    ensures
      var db := Committed(cfg, rules, s, m, now).db;
      && ScoresInv(db)
      && (forall node :: ScoreOf(s.db, node) >= LATCH ==> ScoreOf(db, node) >= ScoreOf(s.db, node))
      && (forall node :: node != m.event.node ==> ScoreOf(db, node) == ScoreOf(s.db, node))
      && (ScoreOf(db, m.event.node) > MAX_HIGH ==> Decide(cfg, rules, s, m, now).1.scored.bucket == Critical)
  {
    assert ScoreInv(s.db, m.event.node);
    CommittedChanges(cfg, rules, s, m, now);
    DecisionFacts(cfg, rules, s, m, now);
    hide Committed, Decide, OnGrid, RowOf;
    var db := Committed(cfg, rules, s, m, now).db;
    forall node
      ensures ScoreInv(db, node) && (ScoreOf(s.db, node) >= LATCH ==> ScoreOf(db, node) >= ScoreOf(s.db, node))
    {
      assert ScoreInv(s.db, node);
    }
  }

  /** The rest of a step writes statuses only: the event's node is quarantined if its bucket is critical. */
  lemma {:induction false} FinishedChanges(s: State, d: Pipeline.Decision, m: Incoming, stops: bool, fault: Fault,
                                           node: string)
    requires d.node == m.event.node
    ensures
      var s' := Finished(s, d, m, stops, fault);
      && s'.db.scores == s.db.scores && s'.db.events == s.db.events && s'.db.watermark == s.db.watermark
      && s'.lastOffset == m.event.offset && s'.tables == s.tables
      && (node != m.event.node || fault == StatusFails ==> StatusOf(s'.db, node) == StatusOf(s.db, node))
      && (fault != StatusFails && d.scored.bucket == Critical ==> StatusOf(s'.db, m.event.node) == Quarantined)
  {
  }

  ghost predicate Releases(a: Action, node: string) {
    match a
    case OnApprove(n, _) => n == node
    case OnRestart(n, _) => n == node
    case OnReset => true
    case _ => false
  }

  /** An event changes the scores as its commit does, or not at all; only a whole step changes its node's status. */
  lemma {:induction false} EventScores(cfg: Pipeline.Config, s: State, a: Action)
    requires cfg.multiRules != [] && Handles(a)
    ensures Next(cfg, s, a).db.scores ==
            if Commits(s, a) then Committed(cfg, a.rules, s, a.m, a.now).db.scores else s.db.scores
    ensures !Commits(s, a) ==> Next(cfg, s, a).db == s.db
    ensures forall node :: node != a.m.event.node ==> StatusOf(Next(cfg, s, a).db, node) == StatusOf(s.db, node)
    ensures Commits(s, a) && a.OnEvent? && a.fault == NoFault
            && Decide(cfg, a.rules, s, a.m, a.now).1.scored.bucket == Critical
            ==> StatusOf(Next(cfg, s, a).db, a.m.event.node) == Quarantined
  {
    var committed, d := Committed(cfg, a.rules, s, a.m, a.now), Decide(cfg, a.rules, s, a.m, a.now).1;
    CommittedChanges(cfg, a.rules, s, a.m, a.now);
    assert d.node == a.m.event.node && committed.db.statuses == s.db.statuses;
    hide Committed, Decide, Finished, WarmRows, RowOf;
    if Commits(s, a) && a.OnEvent? {
      assert Next(cfg, s, a) == Finished(committed, d, a.m, a.stops, a.fault);
      hide Next, Commits;
      forall node {
        FinishedChanges(committed, d, a.m, a.stops, a.fault, node);
      }
    }
  }

  lemma {:induction false} SameScores(a: Database, b: Database)
    requires a.scores == b.scores
    ensures ScoresInv(a) <==> ScoresInv(b)
    ensures forall node :: ScoreOf(a, node) == ScoreOf(b, node)
  {
    hide OnGrid;
    forall node ensures ScoreInv(a, node) <==> ScoreInv(b, node) {
    }
  }

  lemma {:induction false} EventKeeps(cfg: Pipeline.Config, s: State, a: Action, node: string)
    requires Sound(cfg) && SaneAction(a) && ScoresInv(s.db) && Handles(a)
    ensures ScoresInv(Next(cfg, s, a).db)
    ensures Held(s.db, node) && !LosesStatus(a, node) ==> Held(Next(cfg, s, a).db, node)
    ensures ScoreOf(s.db, node) >= LATCH ==> ScoreOf(Next(cfg, s, a).db, node) >= ScoreOf(s.db, node)
  {
    EventScores(cfg, s, a);
    if Commits(s, a) {
      CommitKeeps(cfg, a.rules, s, a.m, a.now);
      SameScores(Next(cfg, s, a).db, Committed(cfg, a.rules, s, a.m, a.now).db);
    }
    hide Next, Committed, Decide, ScoresInv, ScoreOf, StatusOf;
  }

  lemma {:induction false} NextKeeps(cfg: Pipeline.Config, s: State, a: Action, node: string)
    requires Sound(cfg) && SaneAction(a) && ScoresInv(s.db)
    ensures ScoresInv(Next(cfg, s, a).db)
    ensures Held(s.db, node) && !LosesStatus(a, node) ==> Held(Next(cfg, s, a).db, node)
    ensures ScoreOf(s.db, node) >= LATCH && !Releases(a, node) ==>
              ScoreOf(Next(cfg, s, a).db, node) >= ScoreOf(s.db, node)
  {
    if Handles(a) {
      EventKeeps(cfg, s, a, node);
    } else {
      GridHasWholes();
      hide Handle, OnGrid, WarmRows;
      var s' := Next(cfg, s, a);
      forall n ensures ScoreInv(s'.db, n) {
        assert ScoreInv(s.db, n);
      }
    }
  }

  lemma {:induction false} RunKeeps(cfg: Pipeline.Config, s: State, actions: seq<Action>, node: string)
    requires Sound(cfg) && ScoresInv(s.db) && forall a <- actions :: SaneAction(a)
    ensures ScoresInv(RunAll(cfg, s, actions).db)
    ensures Held(s.db, node) && (forall a <- actions :: !LosesStatus(a, node)) ==>
            Held(RunAll(cfg, s, actions).db, node)
    decreases |actions|
  {
    if actions != [] {
      assert actions[0] in actions;
      NextKeeps(cfg, s, actions[0], node);
      hide Next, ScoresInv, Held;
      RunKeeps(cfg, Next(cfg, s, actions[0]), actions[1..], node);
    }
  }

  lemma {:induction false} FreshInv(node: string)
    ensures ScoresInv(FRESH.db) && Held(FRESH.db, node)
  {
    GridHasWholes();
    hide OnGrid;
    assert forall n :: ScoreOf(FRESH.db, n) == 0.0;
  }

  /** Between releases of a node, a stored score at or above 71 never falls. */
  lemma {:induction false} ScoreLatches(cfg: Pipeline.Config, s: State, actions: seq<Action>, node: string)
    requires Sound(cfg) && ScoresInv(s.db) && ScoreOf(s.db, node) >= LATCH
    requires forall a <- actions :: SaneAction(a) && !Releases(a, node)
    ensures ScoreOf(RunAll(cfg, s, actions).db, node) >= ScoreOf(s.db, node)
    decreases |actions|
  {
    if actions != [] {
      assert actions[0] in actions;
      NextKeeps(cfg, s, actions[0], node);
      hide Next, ScoresInv;
      ScoreLatches(cfg, Next(cfg, s, actions[0]), actions[1..], node);
    }
  }

  /**
    The quarantine latch over whole runs, engine crashes included.  In every state reachable from an
    empty database without a lost status write of this node, a score above 100 means the node is
    quarantined; approve and deny are refused; and it leaves only by a restart of that node or a
    reset, which leave a zero score.
  */
  lemma {:induction false} QuarantineLatch(cfg: Pipeline.Config, actions: seq<Action>, node: string, a: Action)
    requires Sound(cfg) && forall x <- actions + [a] :: SaneAction(x) && !LosesStatus(x, node)
    requires ScoreOf(RunAll(cfg, FRESH, actions).db, node) > MAX_HIGH
    ensures
      var s := RunAll(cfg, FRESH, actions);
      var s' := Next(cfg, s, a);
      && StatusOf(s.db, node) == Quarantined
      && (forall release :: Approve(s, node, release) == s) && (forall proceeds :: Deny(s, node, proceeds) == s)
      && (StatusOf(s'.db, node) != Quarantined || ScoreOf(s'.db, node) <= MAX_HIGH ==>
            && (a.OnReset? || (a.OnRestart? && a.node == node && a.release != ContainerFails))
            && ScoreOf(s'.db, node) == 0.0)
  {
    assert a in actions + [a] && forall x <- actions :: x in actions + [a];
    FreshInv(node);
    RunKeeps(cfg, FRESH, actions, node);
    var s := RunAll(cfg, FRESH, actions);
    NextKeeps(cfg, s, a, node);
    hide RunAll;
    LeavesByRelease(cfg, s, a, node);
    hide Next;
  }

  /** Of a quarantined node, approve and deny change nothing and a restart that goes ahead zeroes the score. */
  lemma {:induction false} LeavesByRelease(cfg: Pipeline.Config, s: State, a: Action, node: string)
    requires cfg.multiRules != [] && StatusOf(s.db, node) == Quarantined
    ensures (forall release :: Approve(s, node, release) == s) && (forall proceeds :: Deny(s, node, proceeds) == s)
    ensures Releases(a, node) ==>
              || Next(cfg, s, a) == s
              || (ScoreOf(Next(cfg, s, a).db, node) == 0.0
                  && (a.OnReset? || (a.OnRestart? && a.node == node && a.release != ContainerFails)))
  {
  }

  // ---- The latch without the status write ----

  /** The unrounded score an event leads to: decay without a match, accumulation with one. */
  ghost function ExactScore(cfg: Pipeline.Config, rules: seq<Rules.Rule>, s: State, m: Incoming, now: real): real
    requires cfg.multiRules != []
  {
    var stored, matches := ScoreOf(s.db, m.event.node), Rules.MatchAll(rules, Rules.Join(m.event.reasons));
    if matches == [] then Decayed(cfg.score, stored)
    else
      var multiplier := Pipeline.MultiplierOf(cfg, rules, s.tables, m.event, now);
      stored + EventScore(cfg.score, matches, m.event.node, multiplier)
  }

  lemma {:induction false} CommittedScore(cfg: Pipeline.Config, rules: seq<Rules.Rule>, s: State, m: Incoming,
                                          now: real)
    requires cfg.multiRules != []
    ensures Decide(cfg, rules, s, m, now).1.scored.cumulative == Round4(ExactScore(cfg, rules, s, m, now))
  {
    Pipeline.ProcessScores(cfg, rules, s.tables, m.event, ScoreOf(s.db, m.event.node), now);
    hide Pipeline.Process, Pipeline.MultiplierOf, EventScore, Round4, Decayed, BucketOf, Rules.MatchAll;
  }

  /**
    When a lost status write breaks the latch.  Whether the write after the commit raises or the engine dies
    before it, the node's latch holds afterwards exactly if it was already quarantined or the score its
    event leads to does not round above 100.
  */
  lemma {:induction false} StatusLossHoldsIff(cfg: Pipeline.Config, rules: seq<Rules.Rule>, s: State, m: Incoming,
                                              now: real, stops: bool, restart: real)
    requires cfg.multiRules != [] && Accepts(s, m)
    ensures
      var holds := ExactScore(cfg, rules, s, m, now) <= 100.00005 || StatusOf(s.db, m.event.node) == Quarantined;
      && (Held(Next(cfg, s, OnEvent(rules, m, now, stops, StatusFails)).db, m.event.node) <==> holds)
      && (Held(Next(cfg, s, OnCrashMidway(rules, m, now, restart)).db, m.event.node) <==> holds)
  {
    var d := Decide(cfg, rules, s, m, now).1;
    CommittedChanges(cfg, rules, s, m, now);
    CommittedScore(cfg, rules, s, m, now);
    RoundAbove(ExactScore(cfg, rules, s, m, now));
    FinishedChanges(Committed(cfg, rules, s, m, now), d, m, stops, StatusFails, m.event.node);
    hide Decide, Committed, Finished, ExactScore, Round4, RowOf, WarmRows;
  }

  // ---- The audit trail ----

  /** The sum of the recorded event scores of a node, and how many rows record one. */
  ghost function WeightedSum(events: seq<EventRow>, node: string): real {
    if events == [] then 0.0
    else
      var r := events[|events|-1];
      WeightedSum(events[..|events|-1], node)
      + if r.node == node && r.scored.Some? then r.scored.value.weighted else 0.0
  }

  ghost function ScoredRows(events: seq<EventRow>, node: string): nat {
    if events == [] then 0
    else
      var r := events[|events|-1];
      ScoredRows(events[..|events|-1], node) + if r.node == node && r.scored.Some? then 1 else 0
  }

  /** Nothing releases the node, and every event of it that is processed matches some rule. */
  ghost predicate Accumulates(a: Action, node: string) {
    && !Releases(a, node)
    && (Handles(a) && a.m.event.node == node ==> Rules.MatchAll(a.rules, Rules.Join(a.m.event.reasons)) != [])
  }

  lemma {:induction false} RowAppended(events: seq<EventRow>, r: EventRow, node: string)
    ensures
      var counts := r.node == node && r.scored.Some?;
      && WeightedSum(events + [r], node) ==
         WeightedSum(events, node) + (if counts then r.scored.value.weighted else 0.0)
      && ScoredRows(events + [r], node) == ScoredRows(events, node) + (if counts then 1 else 0)
  {
    assert (events + [r])[..|events|] == events;
  }

  /** What handling an event that is committed leaves of the log and the scores. */
  lemma {:induction false} HandledChanges(cfg: Pipeline.Config, s: State, a: Action, node: string)
    requires cfg.multiRules != [] && Commits(s, a)
    ensures
      var (tables, d) := Decide(cfg, a.rules, s, a.m, a.now);
      var s' := Next(cfg, s, a);
      && d.node == a.m.event.node
      && s'.db.events == s.db.events + [RowOf(d, a.m.receivedAt)]
      && s'.db.watermark == a.m.event.offset == s'.lastOffset
      && (a.OnEvent? ==> s'.tables == tables)
      && ScoreOf(s'.db, node) == if node == a.m.event.node then d.scored.cumulative else ScoreOf(s.db, node)
  {
    CommittedChanges(cfg, a.rules, s, a.m, a.now);
    if a.OnEvent? {
      var d := Decide(cfg, a.rules, s, a.m, a.now).1;
      FinishedChanges(Committed(cfg, a.rules, s, a.m, a.now), d, a.m, a.stops, a.fault, node);
    }
    hide Committed, Decide, Finished, RowOf, WarmRows;
  }

  /** A step that commits no event and is no release leaves the node's score and its scored rows alone. */
  lemma {:induction false} NextUnscored(cfg: Pipeline.Config, s: State, a: Action, node: string)
    requires cfg.multiRules != [] && !Commits(s, a) && !Releases(a, node)
    ensures
      var db := Next(cfg, s, a).db;
      && ScoreOf(db, node) == ScoreOf(s.db, node)
      && WeightedSum(db.events, node) == WeightedSum(s.db.events, node)
      && ScoredRows(db.events, node) == ScoredRows(s.db.events, node)
  {
    if Handles(a) {
      EventScores(cfg, s, a);
      hide Next, WeightedSum, ScoredRows;
    } else {
      if a.OnHeartbeat? {
        RowAppended(s.db.events, EventRow(a.now, a.node, 100.0, None), node);
      }
      hide Handle, WeightedSum, ScoredRows, WarmRows;
    }
  }

  /** The change of the node's score, of its recorded event scores and of its scored rows between two databases. */
  ghost function ScoreChange(before: Database, after: Database, node: string): real {
    ScoreOf(after, node) - ScoreOf(before, node)
  }

  ghost function RecordedChange(before: Database, after: Database, node: string): real {
    WeightedSum(after.events, node) - WeightedSum(before.events, node)
  }

  ghost function RowChange(before: Database, after: Database, node: string): int {
    ScoredRows(after.events, node) - ScoredRows(before.events, node)
  }

  /** The unrounded event score of the node's event, if this action commits one. */
  ghost function ExactPart(cfg: Pipeline.Config, s: State, a: Action, node: string): real
    requires cfg.multiRules != []
  {
    if Commits(s, a) && a.m.event.node == node then
      ExactScore(cfg, a.rules, s, a.m, a.now) - ScoreOf(s.db, node)
    else 0.0
  }

  /** The sum of the node's unrounded event scores over a run. */
  ghost function ExactTotal(cfg: Pipeline.Config, s: State, actions: seq<Action>, node: string): real
    requires cfg.multiRules != []
    decreases |actions|
  {
    if actions == [] then 0.0
    else ExactPart(cfg, s, actions[0], node) + ExactTotal(cfg, Next(cfg, s, actions[0]), actions[1..], node)
  }

  lemma {:induction false} ExactPartIsEventScore(cfg: Pipeline.Config, s: State, a: Action, node: string)
    requires cfg.multiRules != [] && Accumulates(a, node) && Commits(s, a) && a.m.event.node == node
    ensures
      ExactPart(cfg, s, a, node) ==
        EventScore(cfg.score, Rules.MatchAll(a.rules, Rules.Join(a.m.event.reasons)), node,
                   Pipeline.MultiplierOf(cfg, a.rules, s.tables, a.m.event, a.now))
  {
    hide EventScore, Pipeline.MultiplierOf;
  }

  /** Two audits at once: within 0.0001 a row of what is recorded, and 0.00005 a row of what is exact. */
  ghost predicate Audited(change: real, recorded: real, exact: real, rows: int) {
    rows >= 0 && Within(change, recorded, rows as real * 0.0001) && Within(change, exact, rows as real * 0.00005)
  }

  lemma {:induction false} HitAudited(cfg: ScoreConfig, matches: seq<Match>, node: string, current: real,
                                      multiplier: real)
    requires matches != []
    ensures
      var r := Score(cfg, matches, node, current, multiplier);
      Audited(r.cumulative - current, r.event, EventScore(cfg, matches, node, multiplier), 1)
  {
    var event := EventScore(cfg, matches, node, multiplier);
    RoundNear(event);
    RoundNear(current + event);
    hide EventScore, Round4;
  }

  lemma {:induction false} CommitAudited(cfg: Pipeline.Config, s: State, a: Action, node: string)
    requires cfg.multiRules != [] && Accumulates(a, node) && Commits(s, a)
    ensures
      var db := Next(cfg, s, a).db;
      Audited(ScoreChange(s.db, db, node), RecordedChange(s.db, db, node), ExactPart(cfg, s, a, node),
              RowChange(s.db, db, node))
  {
    var current := ScoreOf(s.db, a.m.event.node);
    var d := Decide(cfg, a.rules, s, a.m, a.now).1;
    Pipeline.ProcessScores(cfg, a.rules, s.tables, a.m.event, current, a.now);
    HandledChanges(cfg, s, a, node);
    RowAppended(s.db.events, RowOf(d, a.m.receivedAt), node);
    if a.m.event.node == node {
      ExactPartIsEventScore(cfg, s, a, node);
      HitAudited(cfg.score, d.matches, node, current, Pipeline.MultiplierOf(cfg, a.rules, s.tables, a.m.event, a.now));
    }
    hide Pipeline.Process, Pipeline.MultiplierOf, Score, EventScore, ExactScore, Rules.MatchAll;
    hide Next, Decide, ScoreOf, Accepts, WeightedSum, ScoredRows;
  }

  lemma {:induction false} AuditAdds(c: real, r: real, e: real, n: int, c': real, r': real, e': real, n': int)
    requires Audited(c, r, e, n) && Audited(c', r', e', n')
    ensures Audited(c + c', r + r', e + e', n + n')
  {
  }

  /** One step of a run in which the node only accumulates. */
  lemma {:induction false} NextAudited(cfg: Pipeline.Config, s: State, a: Action, node: string)
    requires cfg.multiRules != [] && Accumulates(a, node)
    ensures
      var db := Next(cfg, s, a).db;
      Audited(ScoreChange(s.db, db, node), RecordedChange(s.db, db, node), ExactPart(cfg, s, a, node),
              RowChange(s.db, db, node))
  {
    if Commits(s, a) {
      CommitAudited(cfg, s, a, node);
    } else {
      NextUnscored(cfg, s, a, node);
      hide Next, WeightedSum, ScoredRows, ScoreOf, ExactScore;
    }
  }

  /**
    The audit bound over whole runs.  While the node is not released and its processed events
    match rules, its stored score has changed by the sum of its recorded event scores, within
    0.0001 per recorded row, and by the sum of its unrounded ones, within 0.00005, whatever happens to
    other nodes, whatever fails and however often the engine crashes in between.
  */
  lemma {:induction false} ScoreIsAudited(cfg: Pipeline.Config, s: State, actions: seq<Action>, node: string)
    requires cfg.multiRules != [] && forall a <- actions :: Accumulates(a, node)
    ensures
      var db := RunAll(cfg, s, actions).db;
      Audited(ScoreChange(s.db, db, node), RecordedChange(s.db, db, node), ExactTotal(cfg, s, actions, node),
              RowChange(s.db, db, node))
    decreases |actions|
  {
    if actions != [] {
      assert actions[0] in actions;
      var next := Next(cfg, s, actions[0]);
      NextAudited(cfg, s, actions[0], node);
      ScoreIsAudited(cfg, next, actions[1..], node);
      hide Next, Accumulates, WeightedSum, ScoredRows, ScoreOf, ExactPart, Audited, Within;
      var db := RunAll(cfg, next, actions[1..]).db;
      AuditAdds(ScoreChange(s.db, next.db, node), RecordedChange(s.db, next.db, node),
                ExactPart(cfg, s, actions[0], node),
                RowChange(s.db, next.db, node),
                ScoreChange(next.db, db, node), RecordedChange(next.db, db, node),
                ExactTotal(cfg, next, actions[1..], node),
                RowChange(next.db, db, node));
    } else {
      hide WeightedSum, ScoredRows, ScoreOf;
    }
  }

  /** Nothing releases the node, and no event of it that is processed matches a rule. */
  ghost predicate Quiets(a: Action, node: string) {
    && !Releases(a, node)
    && (Handles(a) && a.m.event.node == node ==> Rules.MatchAll(a.rules, Rules.Join(a.m.event.reasons)) == [])
  }

  lemma {:induction false} NextQuiet(cfg: Pipeline.Config, s: State, a: Action, node: string)
    requires cfg.multiRules != [] && Quiets(a, node)
    ensures
      var db := Next(cfg, s, a).db;
      && RowChange(s.db, db, node) >= 0
      && ScoreOf(db, node) == AfterClean(cfg.score, node, ScoreOf(s.db, node), RowChange(s.db, db, node))
  {
    var stored := ScoreOf(s.db, node);
    assert AfterClean(cfg.score, node, stored, 0) == stored;
    if Commits(s, a) {
      var d := Decide(cfg, a.rules, s, a.m, a.now).1;
      Pipeline.ProcessScores(cfg, a.rules, s.tables, a.m.event, ScoreOf(s.db, a.m.event.node), a.now);
      HandledChanges(cfg, s, a, node);
      RowAppended(s.db.events, RowOf(d, a.m.receivedAt), node);
      assert AfterClean(cfg.score, node, stored, 1) == Score(cfg.score, [], node, stored, 1.0).cumulative;
      hide Pipeline.Process, Pipeline.MultiplierOf, Round4, Rules.MatchAll, AfterClean, Decayed;
      hide Next, Decide, ScoreOf, Accepts, WeightedSum, ScoredRows;
    } else {
      NextUnscored(cfg, s, a, node);
      hide Next, WeightedSum, ScoredRows, ScoreOf, AfterClean;
    }
  }

  /** Over any run in which the node's processed events match nothing, its score is that of as many clean events. */
  lemma {:induction false} QuietRun(cfg: Pipeline.Config, s: State, actions: seq<Action>, node: string)
    requires cfg.multiRules != [] && forall a <- actions :: Quiets(a, node)
    ensures
      var db := RunAll(cfg, s, actions).db;
      && RowChange(s.db, db, node) >= 0
      && ScoreOf(db, node) == AfterClean(cfg.score, node, ScoreOf(s.db, node), RowChange(s.db, db, node))
    decreases |actions|
  {
    hide Next, Quiets, WeightedSum, ScoredRows, ScoreOf, AfterClean;
    var stored := ScoreOf(s.db, node);
    if actions == [] {
      AfterCleanNone(cfg.score, node, stored);
    } else {
      assert actions[0] in actions;
      var next := Next(cfg, s, actions[0]);
      NextQuiet(cfg, s, actions[0], node);
      QuietRun(cfg, next, actions[1..], node);
      var db := RunAll(cfg, next, actions[1..]).db;
      var m, n := RowChange(s.db, next.db, node), RowChange(next.db, db, node);
      assert RunAll(cfg, s, actions).db == db && RowChange(s.db, db, node) == m + n;
      hide RunAll, RowChange;
      AfterCleanAppends(cfg.score, node, stored, m, n);
    }
  }

  /** From below 71, with n clean events recorded, the stored score is max(0, s - n * decay). */
  lemma {:induction false} QuietRunDecays(cfg: Pipeline.Config, s: State, actions: seq<Action>, node: string)
    requires cfg.multiRules != [] && forall a <- actions :: Quiets(a, node)
    requires ScoreInv(s.db, node) && ScoreOf(s.db, node) < LATCH
    requires cfg.score.decayRate >= 0.0 && OnGrid(cfg.score.decayRate)
    ensures
      var db := RunAll(cfg, s, actions).db;
      RowChange(s.db, db, node) >= 0 &&
      var left := ScoreOf(s.db, node) - Decays(RowChange(s.db, db, node), cfg.score.decayRate);
      ScoreOf(db, node) == if left > 0.0 then left else 0.0
  {
    QuietRun(cfg, s, actions, node);
    hide RunAll, ScoreOf, WeightedSum, ScoredRows, OnGrid, Decays, AfterClean;
    CleanRun(cfg.score, node, ScoreOf(s.db, node), RowChange(s.db, RunAll(cfg, s, actions).db, node));
  }

  // ---- Where a quarantine or a pending review is not a latch ----

  /**
    Handling an event leaves its node quarantined exactly if it lands in critical or a critical alert stops
    the container.
  */
  lemma {:induction false} EventQuarantinesIff(cfg: Pipeline.Config, rules: seq<Rules.Rule>, s: State, m: Incoming,
                                               now: real, stops: bool)
    requires cfg.multiRules != [] && Accepts(s, m)
    ensures
      var d := Decide(cfg, rules, s, m, now).1;
      StatusOf(Handle(cfg, rules, s, m, now, stops, NoFault).db, m.event.node) == Quarantined
      <==> d.scored.bucket == Critical || (m.critical && stops)
  {
    Pipeline.ProcessScores(cfg, rules, s.tables, m.event, ScoreOf(s.db, m.event.node), now);
    hide Pipeline.Process;
  }

  /** An event without a match, as most telemetry is. */
  ghost predicate Clean(rules: seq<Rules.Rule>, s: State, m: Incoming) {
    Accepts(s, m) && !m.busy && !m.critical && Rules.MatchAll(rules, Rules.Join(m.event.reasons)) == []
  }

  /** The status and score a clean event leaves, under the shipped buckets and decay. */
  lemma {:induction false} CleanEvent(cfg: Pipeline.Config, rules: seq<Rules.Rule>, s: State, m: Incoming, now: real,
                                      stops: bool)
    requires Sound(cfg) && Pipeline.SaneRules(rules) && ScoreInv(s.db, m.event.node) && Clean(rules, s, m)
    requires cfg.score.bounds == SHIPPED_BOUNDS && cfg.score.decayRate == SHIPPED_DECAY
    ensures
      var x, s' := ScoreOf(s.db, m.event.node), Handle(cfg, rules, s, m, now, stops, NoFault);
      if x > 100.0 then ScoreOf(s'.db, m.event.node) == x && StatusOf(s'.db, m.event.node) == Quarantined
      else if x >= LATCH then ScoreOf(s'.db, m.event.node) == x && StatusOf(s'.db, m.event.node) == AwaitingApproval
      else ScoreOf(s'.db, m.event.node) == Max(x - SHIPPED_DECAY, 0.0) && StatusOf(s'.db, m.event.node) == Idle
  {
    var x := ScoreOf(s.db, m.event.node);
    Pipeline.ProcessScores(cfg, rules, s.tables, m.event, x, now);
    ShippedClean(cfg.score, m.event.node, x, Pipeline.MultiplierOf(cfg, rules, s.tables, m.event, now));
    hide Pipeline.Process, Pipeline.MultiplierOf, Score, OnGrid, RowOf;
  }

  function Max(x: real, y: real): real {
    if x >= y then x else y
  }

  lemma {:induction false} ShippedClean(cfg: ScoreConfig, node: string, x: real, multiplier: real)
    requires x >= 0.0 && OnGrid(x) && cfg.bounds == SHIPPED_BOUNDS && cfg.decayRate == SHIPPED_DECAY
    ensures
      var r := Score(cfg, [], node, x, multiplier);
      if x > 100.0 then r.cumulative == x && r.bucket == Critical
      else if x >= LATCH then r.cumulative == x && r.bucket == High
      else r.cumulative == Max(x - SHIPPED_DECAY, 0.0) && r.bucket.Rank() < High.Rank()
  {
    assert SHIPPED_DECAY == Grid(50000) && 0.0 == Grid(0);
    RoundFixesGrid(x);
    RoundFixesGrid(0.0);
    GridDifference(x, SHIPPED_DECAY);
    RoundFixesGrid(x - SHIPPED_DECAY);
    hide Round4, OnGrid;
    ShippedBuckets(Decayed(cfg, x));
  }

  lemma {:induction false} ShippedBuckets(x: real)
    ensures BucketOf(SHIPPED_BOUNDS, x) ==
            if x <= 20.0 then Info else if x <= 40.0 then Low else if x <= 70.0 then Medium
            else if x <= 100.0 then High else Critical
  {
    var b := SHIPPED_BOUNDS;
    assert b[1..] == [Bound(Low, 40.0), Bound(Medium, 70.0), Bound(High, 100.0)];
    assert b[1..][1..] == [Bound(Medium, 70.0), Bound(High, 100.0)];
    assert b[1..][1..][1..] == [Bound(High, 100.0)] && b[1..][1..][1..][1..] == [];
    assert BucketOf(b[1..][1..][1..], x) == if x <= 100.0 then High else Critical;
    assert BucketOf(b[1..][1..], x) == if x <= 70.0 then Medium else BucketOf(b[1..][1..][1..], x);
  }

  /**
    A pending review is lost exactly below the latch: after a clean event a node awaiting
    approval still awaits it, or is quarantined, iff its stored score is at least 71.
  */
  lemma {:induction false} ReviewSurvivesIff(cfg: Pipeline.Config, rules: seq<Rules.Rule>, s: State, m: Incoming,
                                             now: real, stops: bool)
    requires Sound(cfg) && Pipeline.SaneRules(rules) && ScoreInv(s.db, m.event.node) && Clean(rules, s, m)
    requires cfg.score.bounds == SHIPPED_BOUNDS && cfg.score.decayRate == SHIPPED_DECAY
    requires StatusOf(s.db, m.event.node) == AwaitingApproval
    ensures StatusOf(Handle(cfg, rules, s, m, now, stops, NoFault).db, m.event.node) in {AwaitingApproval, Quarantined}
            <==> ScoreOf(s.db, m.event.node) >= LATCH
  {
    CleanEvent(cfg, rules, s, m, now, stops);
    hide Handle;
  }

  /** The high bucket starts below the latch: a score of 70.5 is put up for review and decays out of it. */
  lemma {:induction false} ReviewLostBelowLatch(cfg: ScoreConfig, node: string, multiplier: real)
    requires cfg.bounds == SHIPPED_BOUNDS && cfg.decayRate == SHIPPED_DECAY
    ensures BucketOf(cfg.bounds, 70.5) == High
    ensures
      var r := Score(cfg, [], node, 70.5, multiplier);
      r.cumulative == 65.5 && r.bucket == Medium
  {
    assert 70.5 == Grid(705000);
    ShippedClean(cfg, node, 70.5, multiplier);
    ShippedBuckets(70.5);
    ShippedBuckets(65.5);
    hide Round4;
  }

  /** A quarantine by heartbeat or by an operator's deny lasts, against a clean event, exactly above 100. */
  lemma {:induction false} QuarantineSurvivesIff(cfg: Pipeline.Config, rules: seq<Rules.Rule>, s: State, m: Incoming,
                                                 now: real, stops: bool)
    requires Sound(cfg) && Pipeline.SaneRules(rules) && ScoreInv(s.db, m.event.node) && Clean(rules, s, m)
    requires cfg.score.bounds == SHIPPED_BOUNDS && cfg.score.decayRate == SHIPPED_DECAY
    requires StatusOf(s.db, m.event.node) == Quarantined
    ensures StatusOf(Handle(cfg, rules, s, m, now, stops, NoFault).db, m.event.node) == Quarantined
            <==> ScoreOf(s.db, m.event.node) > 100.0
  {
    CleanEvent(cfg, rules, s, m, now, stops);
    hide Handle;
  }
}
