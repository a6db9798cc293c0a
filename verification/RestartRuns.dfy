/** Runs after which a restarted engine answers a cross-node check differently from the engine that ran on. */
module RestartRuns {
  import opened Common
  import opened SlidingWindow
  import opened Store
  import opened RiskEngine
  import opened LatchRuns
  import opened EngineRestart
  import Rules
  import Correlator
  import Pipeline
  import Scoring

  const RULE := "REPLAY_ATTACK"

  /** A replay alert on a node is among the checks its event makes. */
  lemma {:induction false} AlertChecks(cfg: Pipeline.Config, s: State, node: string, offset: int, at: real,
                                       fault: Fault)
    requires Shipped(cfg) && offset > s.lastOffset && fault != PipelineFails
    ensures Stamped(at, Correlator.Firing(RULE, node)) in Made(cfg, s, OnReplay(node, offset, at, fault))
  {
    ShippedUsable(cfg);
    ReplayMatches(node);
    var m := ReplayAlert(node, offset, at);
    assert Rules.Join([ReplayReason(node)]) == ReplayReason(node);
    Pipeline.ProcessScores(cfg, Rules.Shipped(), s.tables, m.event, ScoreOf(s.db, node), at);
    var d := Decide(cfg, Rules.Shipped(), s, m, at).1;
    hide Shipped, Rules.Shipped, Rules.MatchAll, ReplayReason, Pipeline.Process, Rules.Join;
    IdFires(d.matches, node, at);
  }

  lemma {:induction false} IdFires(matches: seq<Scoring.Match>, node: string, at: real)
    requires Scoring.Match(RULE, 45, 25) in matches
    ensures Stamped(at, Correlator.Firing(RULE, node)) in Correlator.FiringsOf(RuleIds(matches), node, at)
  {
    var front, last := matches[..|matches|-1], matches[|matches|-1];
    assert matches == front + [last];
    assert RuleIds(matches)[..|front|] == RuleIds(front) by { IdCount(front); }
    if last != Scoring.Match(RULE, 45, 25) {
      IdFires(front, node, at);
    } else {
      IdCount(front);
    }
  }

  lemma {:induction false} IdCount(matches: seq<Scoring.Match>)
    ensures |RuleIds(matches)| == |matches|
  {
    if matches != [] {
      IdCount(matches[..|matches|-1]);
    }
  }

  lemma {:induction false} SubsetSize(a: set<string>, b: set<string>)
    requires a <= b
    ensures |a| <= |b|
  {
    assert b == a + (b - a);
  }

  lemma {:induction false} ThreeNodes(nodes: set<string>)
    requires "node1" in nodes && "node2" in nodes
    ensures |nodes + {"node3"}| >= 3
  {
    var three := {"node1", "node2", "node3"};
    assert "node1"[4] != "node2"[4] && "node2"[4] != "node3"[4] && "node1"[4] != "node3"[4];
    assert |three| == 3;
    SubsetSize(three, nodes + {"node3"});
  }

  lemma {:induction false} TwoNodes(nodes: set<string>)
    requires nodes <= {"node1"}
    ensures |nodes + {"node3"}| <= 2
  {
    SubsetSize(nodes + {"node3"}, {"node1"} + {"node3"});
    assert |{"node1"} + {"node3"}| <= 2;
  }

  lemma {:induction false} FiredSince(calls: seq<Correlator.Call>, node: string, at: real, from: real)
    requires Stamped(at, Correlator.Firing(RULE, node)) in calls && at >= from
    ensures node in Correlator.NodesSince(calls, RULE, from)
  {
  }

  /** Two replay alerts, on node1 and on node2, and then one more action. */
  function Two(fault: Fault, last: Action): seq<Action> {
    [OnReplay("node1", 1, 0.0, NoFault), OnReplay("node2", 2, 1.0, fault), last]
  }

  lemma {:induction false} BothChecked(cfg: Pipeline.Config, fault: Fault, last: Action)
    requires Shipped(cfg) && fault != PipelineFails
    ensures
      var checks := ChecksOf(cfg, FRESH, Two(fault, last));
      && Stamped(0.0, Correlator.Firing(RULE, "node1")) in checks
      && Stamped(1.0, Correlator.Firing(RULE, "node2")) in checks
  {
    hide Shipped, Next, Made, ChecksOf, ReplayReason, Rules.Shipped;
    ShippedUsable(cfg);
    var a, b := OnReplay("node1", 1, 0.0, NoFault), OnReplay("node2", 2, 1.0, fault);
    AlertChecks(cfg, FRESH, "node1", 1, 0.0, NoFault);
    HandledChanges(cfg, FRESH, a, "node1");
    AlertChecks(cfg, Next(cfg, FRESH, a), "node2", 2, 1.0, fault);
    TwoChecks(cfg, a, b, last);
  }

  lemma {:induction false} TwoLive(fault: Fault, last: Action)
    requires last.OnReset? || last.OnDeny?
    ensures forall a <- Two(fault, last) :: Lives(a)
  {
    hide ReplayReason, Rules.Shipped;
  }

  /** The running engine has checked both, however the second commit and the last action end. */
  lemma {:induction false} RunningRemembers(cfg: Pipeline.Config, fault: Fault, last: Action)
    requires Shipped(cfg) && fault != PipelineFails && (last.OnReset? || last.OnDeny?)
    ensures Correlator.Check(cfg.cross, RunAll(cfg, FRESH, Two(fault, last)).tables.windows, RULE, "node3", 2.0).1
  {
    hide *;
    ShippedUsable(cfg);
    var actions := Two(fault, last);
    var checks := ChecksOf(cfg, FRESH, actions);
    BothChecked(cfg, fault, last);
    TwoTimed(fault, last);
    TwoLive(fault, last);
    RunningAnswer(cfg, actions, 0.0, RULE, "node3", 2.0);
    FiredSince(checks, "node1", 0.0, -598.0);
    FiredSince(checks, "node2", 1.0, -598.0);
    ThreeNodes(Correlator.NodesSince(checks, RULE, -598.0));
  }

  lemma {:induction false} TwoTimed(fault: Fault, last: Action)
    requires last.OnReset? || last.OnDeny?
    ensures Timed(Two(fault, last), 0.0, 2.0)
  {
    var actions := Two(fault, last);
    hide ReplayReason, Rules.Shipped;
    assert actions[1..] == [actions[1], last] && actions[1..][1..] == [last] && [last][1..] == [];
    assert Timed([last], 1.0, 2.0);
    assert Timed([actions[1], last], 0.0, 2.0);
  }

  lemma {:induction false} TwoChecks(cfg: Pipeline.Config, a: Action, b: Action, c: Action)
    requires cfg.multiRules != []
    ensures
      var checks := ChecksOf(cfg, FRESH, [a, b, c]);
      (forall x <- Made(cfg, FRESH, a) :: x in checks) && (forall x <- Made(cfg, Next(cfg, FRESH, a), b) :: x in checks)
  {
    hide Made, Next;
    var s := Next(cfg, FRESH, a);
    assert [a, b, c][1..] == [b, c] && [b, c][1..] == [c];
    assert ChecksOf(cfg, s, [b, c]) == Made(cfg, s, b) + ChecksOf(cfg, Next(cfg, s, b), [c]);
  }

  lemma {:induction false} RunThree(cfg: Pipeline.Config, a: Action, b: Action, c: Action)
    requires cfg.multiRules != []
    ensures RunAll(cfg, FRESH, [a, b, c]) == Next(cfg, Next(cfg, Next(cfg, FRESH, a), b), c)
  {
    assert [a, b] + [c] == [a, b, c];
    RunTwo(cfg, a, b);
    RunLast(cfg, [a, b], c);
    hide Next;
  }

  /** A log that records at most node1 does not bring node3 to the threshold. */
  lemma {:induction false} LogForgets(cfg: Pipeline.Config, db: Database)
    requires Shipped(cfg) && TimedLog(db.events, 2.0)
    requires forall c <- Correlator.Firings(AllRows(db.events)) :: c.item.node == "node1"
    ensures !Correlator.Check(cfg.cross, Started(db, 2.0).tables.windows, RULE, "node3", 2.0).1
  {
    ShippedUsable(cfg);
    var logged := Correlator.Firings(AllRows(db.events));
    var nodes := Correlator.NodesSince(logged, RULE, -598.0);
    forall n | n in nodes ensures n == "node1" {
      var i :| 0 <= i < |logged| && logged[i].item.node == n;
      assert logged[i] in logged;
    }
    assert cfg.Usable() && cfg.cross == Correlator.Cross(600.0, 3, 1.5);
    hide Shipped, Started, Correlator.Check, Correlator.NodesSince, Correlator.Firings, AllRows, TimedLog;
    StartedAnswer(cfg, db, 2.0, RULE, "node3", 2.0);
    TwoNodes(nodes);
  }

  lemma {:induction false} ResetEmpties(cfg: Pipeline.Config, a: Action, b: Action)
    requires cfg.multiRules != []
    ensures RunAll(cfg, FRESH, [a, b, OnReset]).db == EMPTY
  {
    RunThree(cfg, a, b, OnReset);
    hide RunAll, Handle, Heartbeat, Approve, Restart, Deny, Started;
  }

  lemma {:induction false} EmptyLog()
    ensures TimedLog(EMPTY.events, 2.0)
    ensures forall c <- Correlator.Firings(AllRows(EMPTY.events)) :: c.item.node == "node1"
  {
    EmptyInTime(2.0);
    assert AllRows([]) == [];
  }

  /**
    Two nodes fire a rule, the operator resets, a third fires: correlated by the running engine, not by a
    restarted one.
  */
  lemma {:induction false} ResetForgetsRun(cfg: Pipeline.Config)
    requires Shipped(cfg)
    ensures
      var ran := RunAll(cfg, FRESH, Two(NoFault, OnReset));
      && Correlator.Check(cfg.cross, ran.tables.windows, RULE, "node3", 2.0).1
      && !Correlator.Check(cfg.cross, Started(ran.db, 2.0).tables.windows, RULE, "node3", 2.0).1
  {
    hide Shipped, RunAll, Correlator.Check, Started, OnReplay, TimedLog, Correlator.Firings, AllRows,
         Correlator.ShippedRules;
    ShippedUsable(cfg);
    RunningRemembers(cfg, NoFault, OnReset);
    ResetEmpties(cfg, OnReplay("node1", 1, 0.0, NoFault), OnReplay("node2", 2, 1.0, NoFault));
    EmptyLog();
    LogForgets(cfg, RunAll(cfg, FRESH, Two(NoFault, OnReset)).db);
  }

  /** When the second commit fails, the log holds the first row alone. */
  lemma {:induction false} FirstRowOnly(cfg: Pipeline.Config) returns (row: EventRow)
    requires Shipped(cfg)
    ensures RunAll(cfg, FRESH, Two(CommitFails, OnDeny("node4", false))).db.events == [row]
    ensures row.scored.Some? && row.at == 0.0 && row.node == "node1"
  {
    ShippedUsable(cfg);
    hide Shipped, Next, Decide, Rules.Shipped, ReplayReason, RunAll;
    var last := OnDeny("node4", false);
    var actions := Two(CommitFails, last);
    var a, b := actions[0], actions[1];
    RunThree(cfg, a, b, last);
    var s := Next(cfg, FRESH, a);
    HandledChanges(cfg, FRESH, a, "node1");
    NextEvents(cfg, s, b);
    NextEvents(cfg, Next(cfg, s, b), last);
    row := RowOf(Decide(cfg, Rules.Shipped(), FRESH, a.m, 0.0).1, 0.0);
  }

  /** The same without a reset, when the second node's commit fails. */
  lemma {:induction false} FailedCommitForgetsRun(cfg: Pipeline.Config)
    requires Shipped(cfg)
    ensures
      var ran := RunAll(cfg, FRESH, Two(CommitFails, OnDeny("node4", false)));
      && Correlator.Check(cfg.cross, ran.tables.windows, RULE, "node3", 2.0).1
      && !Correlator.Check(cfg.cross, Started(ran.db, 2.0).tables.windows, RULE, "node3", 2.0).1
  {
    hide *;
    ShippedUsable(cfg);
    var last := OnDeny("node4", false);
    RunningRemembers(cfg, CommitFails, last);
    var row := FirstRowOnly(cfg);
    OneRow(row);
    LogForgets(cfg, RunAll(cfg, FRESH, Two(CommitFails, last)).db);
  }

  lemma {:induction false} OneRow(r: EventRow)
    requires r.scored.Some? && r.at == 0.0 && r.node == "node1"
    ensures TimedLog([r], 2.0)
    ensures forall c <- Correlator.Firings(AllRows([r])) :: c.item.node == "node1"
  {
    EmptyInTime(0.0);
    assert [] + [r] == [r];
    RowInTime([], r, 0.0);
    LogLater([r], 0.0, 2.0);
    RowAdded([], r);
    var fs := Correlator.FiringsOf(r.scored.value.rules, r.node, r.at);
    assert Correlator.Firings(AllRows([])) == [] by { assert AllRows([]) == []; }
    assert [] + fs == fs;
    SameNode(r.scored.value.rules, r.node, r.at);
  }

  lemma {:induction false} SameNode(rules: seq<string>, node: string, at: real)
    ensures forall c <- Correlator.FiringsOf(rules, node, at) :: c.item.node == node
  {
    if rules != [] {
      SameNode(rules[..|rules|-1], node, at);
    }
  }
}
