/** The life of a node in the engine: which step may change its status, and to what. */
module NodeLife {
  import opened Common
  import opened SlidingWindow
  import opened Scoring
  import opened Store
  import opened RiskEngine
  import Rules
  import Pipeline
  import LatchRuns

  // ---- When a node was last heard of ----

  /** The process of the engine, or its memory of who was heard, starts over. */
  ghost predicate Forgets(a: Action) {
    a.OnReset? || a.OnCrash? || a.OnCrashMidway?
  }

  /**
    The time of the node's last accepted event since the engine last started or was reset, whatever became
    of that event after it was accepted.
  */
  ghost function LastHeard(cfg: Pipeline.Config, actions: seq<Action>, node: string): Option<real>
    requires cfg.multiRules != []
  {
    if actions == [] then None
    else
      var before, a := actions[..|actions|-1], actions[|actions|-1];
      if Forgets(a) then None
      else if a.OnEvent? && a.m.event.node == node && a.m.valid
              && a.m.event.offset > RunAll(cfg, FRESH, before).lastOffset then Some(a.now)
      else LastHeard(cfg, before, node)
  }

  lemma {:induction false} RunSplit(cfg: Pipeline.Config, actions: seq<Action>)
    requires cfg.multiRules != [] && actions != []
    ensures RunAll(cfg, FRESH, actions) == Next(cfg, RunAll(cfg, FRESH, actions[..|actions|-1]), actions[|actions|-1])
  {
    assert actions[..|actions|-1] + [actions[|actions|-1]] == actions;
    LatchRuns.RunLast(cfg, actions[..|actions|-1], actions[|actions|-1]);
    hide RunAll, Next;
  }

  lemma {:induction false} StepHears(cfg: Pipeline.Config, s: State, a: Action)
    requires cfg.multiRules != []
    ensures
      Next(cfg, s, a).lastSeen ==
        if Forgets(a) then map[]
        else if a.OnEvent? && a.m.valid && a.m.event.offset > s.lastOffset then s.lastSeen[a.m.event.node := a.now]
        else s.lastSeen
  {
    hide Decide, Settled, WarmRows;
  }

  /** The table of last-seen times holds exactly that. */
  lemma {:induction false} HeardIsSeen(cfg: Pipeline.Config, actions: seq<Action>, node: string)
    requires cfg.multiRules != []
    ensures
      var seen := RunAll(cfg, FRESH, actions).lastSeen;
      LastHeard(cfg, actions, node) == if node in seen then Some(seen[node]) else None
  {
    if actions != [] {
      var before, a := actions[..|actions|-1], actions[|actions|-1];
      HeardIsSeen(cfg, before, node);
      RunSplit(cfg, actions);
      StepHears(cfg, RunAll(cfg, FRESH, before), a);
      hide RunAll, Next;
    }
  }

  /** The node was heard of in this lifetime, and last more than 90 seconds ago. */
  ghost predicate Silent(cfg: Pipeline.Config, actions: seq<Action>, node: string, now: real)
    requires cfg.multiRules != []
  {
    var heard := LastHeard(cfg, actions, node);
    heard.Some? && now - heard.value > 90.0
  }

  ghost predicate Working(db: Database, node: string) {
    StatusOf(db, node) == Idle || StatusOf(db, node) == Busy
  }

  /** The node's row and status after an unanswered heartbeat. */
  ghost function Unanswered(db: Database, node: string, now: real, row: NodeStatus): Database {
    db.(events := db.events + [EventRow(now, node, 100.0, None)], statuses := db.statuses[node := row])
  }

  /**
    Which nodes a heartbeat pass touches.  After any run it changes the database exactly if the node is idle or
    busy, was heard of in this lifetime, and not in the last 90 seconds; it then writes one unscored row and
    quarantines the node, or leaves it unresponsive if alerting fails.
  */
  lemma {:induction false} HeartbeatActsIff(cfg: Pipeline.Config, actions: seq<Action>, node: string, now: real)
    requires cfg.multiRules != []
    ensures
      var s := RunAll(cfg, FRESH, actions);
      var done := Next(cfg, s, OnHeartbeat(node, now, Done));
      var stuck := Next(cfg, s, OnHeartbeat(node, now, AlertFails));
      var acts := Working(s.db, node) && Silent(cfg, actions, node, now);
      && (done.db != s.db <==> acts) && (stuck.db != s.db <==> acts)
      && (acts ==> done == s.(db := Unanswered(s.db, node, now, NodeStatus(Quarantined, 0.0))))
      && (acts ==> stuck == s.(db := Unanswered(s.db, node, now, NodeStatus(Unresponsive, 100.0))))
      && Next(cfg, s, OnHeartbeat(node, now, WriteFails)) == s
  {
    HeardIsSeen(cfg, actions, node);
    HeartbeatStep(cfg, RunAll(cfg, FRESH, actions), node, now);
    hide RunAll, Next, LastHeard, Unanswered;
  }

  lemma {:induction false} HeartbeatStep(cfg: Pipeline.Config, s: State, node: string, now: real)
    requires cfg.multiRules != []
    ensures
      var done := Next(cfg, s, OnHeartbeat(node, now, Done));
      var stuck := Next(cfg, s, OnHeartbeat(node, now, AlertFails));
      var acts := Working(s.db, node) && node in s.lastSeen && now - s.lastSeen[node] > 90.0;
      && (done.db != s.db <==> acts) && (stuck.db != s.db <==> acts)
      && (acts ==> done == s.(db := Unanswered(s.db, node, now, NodeStatus(Quarantined, 0.0))))
      && (acts ==> stuck == s.(db := Unanswered(s.db, node, now, NodeStatus(Unresponsive, 100.0))))
      && Next(cfg, s, OnHeartbeat(node, now, WriteFails)) == s
  {
    var silent, row := NodeStatus(Unresponsive, 100.0), NodeStatus(Quarantined, 0.0);
    assert s.db.statuses[node := silent][node := row] == s.db.statuses[node := row];
    assert |Unanswered(s.db, node, now, row).events| == |s.db.events| + 1;
    assert |Unanswered(s.db, node, now, silent).events| == |s.db.events| + 1;
  }

  /** Over heartbeats alone, of any nodes at any times, a node that is neither idle nor busy keeps its status. */
  lemma {:induction false} HeartbeatsSpare(cfg: Pipeline.Config, s: State, actions: seq<Action>, node: string)
    requires cfg.multiRules != [] && forall a <- actions :: a.OnHeartbeat?
    requires StatusOf(s.db, node) in {AwaitingApproval, Quarantined, Unresponsive}
    ensures StatusOf(RunAll(cfg, s, actions).db, node) == StatusOf(s.db, node)
    decreases |actions|
  {
    if actions != [] {
      var a := actions[0];
      assert a in actions;
      HeartbeatStep(cfg, s, a.node, a.now);
      assert StatusOf(Next(cfg, s, a).db, node) == StatusOf(s.db, node);
      hide Next;
      HeartbeatsSpare(cfg, Next(cfg, s, a), actions[1..], node);
    }
  }

  /** The node put up for review by twenty-one replay alerts: paused and silent since, it is left to the operator. */
  lemma {:induction false} SilentReviewRun(cfg: Pipeline.Config)
    requires LatchRuns.Shipped(cfg)
    ensures
      var s := RunAll(cfg, FRESH, LatchRuns.Replays(21));
      var waited := Next(cfg, s, OnHeartbeat("node1", 112.0, Done));
      && StatusOf(waited.db, "node1") == AwaitingApproval
      && StatusOf(Next(cfg, waited, OnApprove("node1", Completes)).db, "node1") == Idle
  {
    LatchRuns.ReviewLostRun(cfg);
    var s := RunAll(cfg, FRESH, LatchRuns.Replays(21));
    assert cfg.multiRules != [];
    hide RunAll, LatchRuns.Shipped, LatchRuns.Replays, Next;
    HeartbeatStep(cfg, s, "node1", 112.0);
    CommandsActIff(cfg, s, "node1");
  }

  // ---- What the operator's commands do ----

  ghost function Freed(s: State, node: string): State {
    s.(db := s.db.(scores := s.db.scores[node := 0.0], statuses := s.db.statuses[node := NodeStatus(Idle, 0.0)]))
  }

  /**
    Which nodes a command touches.  Approve changes the database exactly for a node that awaits approval, restart
    for one that is quarantined or unresponsive, deny for any other; the first two free the node with
    a zero score, or stop after the score if the status write is lost; deny quarantines it and keeps its score.
  */
  lemma {:induction false} CommandsActIff(cfg: Pipeline.Config, s: State, node: string)
    requires cfg.multiRules != []
    ensures
      var status, approve, restart, deny := StatusOf(s.db, node), Next(cfg, s, OnApprove(node, Completes)),
                                            Next(cfg, s, OnRestart(node, Completes)), Next(cfg, s, OnDeny(node, true));
      && (approve.db != s.db <==> status == AwaitingApproval) && (approve.db != s.db ==> approve == Freed(s, node))
      && (restart.db != s.db <==> status == Quarantined || status == Unresponsive)
      && (restart.db != s.db ==> restart == Freed(s, node))
      && (deny.db != s.db <==> status == AwaitingApproval || status == Idle || status == Busy)
      && (deny.db != s.db ==>
            deny == s.(db := s.db.(statuses := s.db.statuses[node := NodeStatus(Quarantined, ScoreOf(s.db, node))])))
  {
    assert StatusOf(s.db, node) != Idle ==> Freed(s, node).db.statuses[node] != s.db.statuses[node];
    var denied := s.db.statuses[node := NodeStatus(Quarantined, ScoreOf(s.db, node))];
    assert denied[node].status == Quarantined;
  }

  /** A command whose container call or status write fails. */
  lemma {:induction false} FailedCommands(cfg: Pipeline.Config, s: State, node: string)
    requires cfg.multiRules != []
    ensures
      var status := StatusOf(s.db, node);
      var zeroed := s.(db := s.db.(scores := s.db.scores[node := 0.0]));
      && Next(cfg, s, OnApprove(node, ContainerFails)) == Next(cfg, s, OnRestart(node, ContainerFails)) == s
      && Next(cfg, s, OnDeny(node, false)) == s
      && Next(cfg, s, OnApprove(node, StatusLost)) == (if status == AwaitingApproval then zeroed else s)
      && Next(cfg, s, OnRestart(node, StatusLost)) ==
         (if status == Quarantined || status == Unresponsive then zeroed else s)
  {
  }

  // ---- What an event does to its node's status ----

  /** The shipped buckets, in numbers. */
  ghost function StatusAt(exact: real, busy: bool): Status {
    if exact > 100.0 then Quarantined
    else if exact > 70.0 then AwaitingApproval
    else if busy then Busy
    else Idle
  }

  /**
    The status an event leaves, by the unrounded score it leads to: quarantined above 100, up for review
    above 70, otherwise what the message says; a critical alert, or a score above 100, stops the container, and
    if that succeeds the node is quarantined with a zero in its status row.
  */
  lemma {:induction false} EventStatus(cfg: Pipeline.Config, rules: seq<Rules.Rule>, s: State, m: Incoming, now: real,
                                       stops: bool)
    requires cfg.multiRules != [] && cfg.score.bounds == SHIPPED_BOUNDS && m.valid && m.event.offset > s.lastOffset
    ensures
      var exact := ExactScore(cfg, rules, s, m, now);
      var row :=
        if stops && (exact > 100.0 || m.critical) then NodeStatus(Quarantined, 0.0)
        else NodeStatus(StatusAt(exact, m.busy), Round4(exact));
      Next(cfg, s, OnEvent(rules, m, now, stops, NoFault)).db.statuses == s.db.statuses[m.event.node := row]
  {
    var exact := ExactScore(cfg, rules, s, m, now);
    var d := Decide(cfg, rules, s, m, now).1;
    CommittedChanges(cfg, rules, s, m, now);
    CommittedScore(cfg, rules, s, m, now);
    LatchRuns.DecidedBucket(cfg, rules, s, m, now);
    ShippedBuckets(exact);
    hide ExactScore, Decide, Committed, BucketOf, Round4;
    var first := NodeStatus(StatusAt(exact, m.busy), Round4(exact));
    var last := NodeStatus(Quarantined, 0.0);
    assert s.db.statuses[m.event.node := first][m.event.node := last] == s.db.statuses[m.event.node := last];
  }

  /**
    An event whose processing or commit fails leaves database and watermarks as they were, so the same message is
    still accepted when it comes again; one that is committed is not, even if its status write fails.
  */
  lemma {:induction false} AcceptedAgainIff(cfg: Pipeline.Config, rules: seq<Rules.Rule>, s: State, m: Incoming,
                                            now: real, stops: bool, fault: Fault)
    requires cfg.multiRules != [] && m.valid && m.event.offset > s.lastOffset
    ensures
      var s' := Next(cfg, s, OnEvent(rules, m, now, stops, fault));
      && (Accepts(s', m) <==> fault == PipelineFails || fault == CommitFails)
      && (Accepts(s', m) ==> s'.db == s.db && s'.lastOffset == s.lastOffset)
      && (!Accepts(s', m) ==> s'.lastOffset == s'.db.watermark == m.event.offset && |s'.db.events| == |s.db.events| + 1)
  {
    CommittedChanges(cfg, rules, s, m, now);
    hide Decide, Committed, Settled;
    if fault == NoFault {
      FinishedChanges(Committed(cfg, rules, s, m, now), Decide(cfg, rules, s, m, now).1, m, stops, fault, m.event.node);
    }
  }

  /** The node the action is about; none for a reset or a crash. */
  ghost predicate About(a: Action, node: string) {
    match a
    case OnEvent(_, m, _, _, _) => m.event.node == node
    case OnHeartbeat(n, _, _) => n == node
    case OnApprove(n, _) => n == node
    case OnRestart(n, _) => n == node
    case OnDeny(n, _) => n == node
    case _ => false
  }

  /**
    Whatever is done to other nodes, and however often the engine dies, leaves a node's status row alone until
    a reset.
  */
  lemma {:induction false} StatusIsItsOwn(cfg: Pipeline.Config, s: State, actions: seq<Action>, node: string)
    requires cfg.multiRules != [] && forall a <- actions :: !a.OnReset? && !About(a, node)
    ensures
      var statuses := RunAll(cfg, s, actions).db.statuses;
      Lookup(statuses, node, NodeStatus(Idle, 0.0)) == Lookup(s.db.statuses, node, NodeStatus(Idle, 0.0))
    decreases |actions|
  {
    if actions != [] {
      var a := actions[0];
      assert a in actions;
      OtherStep(cfg, s, a, node);
      hide Next, About;
      StatusIsItsOwn(cfg, Next(cfg, s, a), actions[1..], node);
    }
  }

  lemma {:induction false} OtherStep(cfg: Pipeline.Config, s: State, a: Action, node: string)
    requires cfg.multiRules != [] && !a.OnReset? && !About(a, node)
    ensures
      var statuses := Next(cfg, s, a).db.statuses;
      Lookup(statuses, node, NodeStatus(Idle, 0.0)) == Lookup(s.db.statuses, node, NodeStatus(Idle, 0.0))
  {
    if Handles(a) {
      CommittedChanges(cfg, a.rules, s, a.m, a.now);
    }
    hide Committed, Decide, WarmRows, HeartbeatDue;
  }
}
