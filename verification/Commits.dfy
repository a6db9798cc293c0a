/**
  What the engine commits over a faulty channel: between resets each offset at most once, and scored as one
  engine would.
*/
module Commits {
  import opened Common
  import opened SecureMessenger
  import opened Controller
  import opened Delivery
  import EngineIntake
  import Store
  import Rules
  import Pipeline
  import RiskEngine
  import Scoring

  /** What an entry of the log writes to scores and events. */
  ghost function Logged(p: Plant, db: Store.Database, x: Entry): Store.Database {
    match x
    case Commit(r) => Store.Written(db, r.d, p.read(r.output).receivedAt)
    case Operated(OnApprove(node, _), ScoreZeroed) => Store.ScoreReset(db, node)
    case Operated(OnRestart(node, _), ScoreZeroed) => Store.ScoreReset(db, node)
    case Operated(OnHeartbeat(node, now, _), RowAdded) => Store.HeartbeatWritten(db, node, now)
    case _ => db
  }

  /** What these entries write to an empty database. */
  ghost function Folded(p: Plant, log: seq<Entry>): Store.Database {
    if log == [] then Store.EMPTY else Logged(p, Folded(p, log[..|log|-1]), log[|log|-1])
  }

  /** The record's decision is the pipeline's, on the score left by the entries before it. */
  ghost predicate Decided(p: Plant, r: Record, before: seq<Entry>)
    requires p.Usable()
  {
    var m := p.read(r.output);
    r.d == Pipeline.Process(p.scoring, r.rules, r.tables, m.event, Store.ScoreOf(Folded(p, before), m.event.node),
                            r.now).1
  }

  /** Log, scores and watermark; statuses are written beside them. */
  ghost predicate SameLog(a: Store.Database, b: Store.Database) {
    a.events == b.events && a.scores == b.scores && a.watermark == b.watermark
  }

  ghost predicate Rises(log: seq<Entry>) {
    forall i, j :: 0 <= i < j < |log| && log[i].Commit? && log[j].Commit? ==>
      log[i].record.output.offset < log[j].record.output.offset
  }

  /** The log of one epoch: committed offsets strictly rise, and each commit was decided on what stood before it. */
  ghost predicate Epoch(p: Plant, log: seq<Entry>)
    requires p.Usable()
  {
    && Rises(log)
    && forall k :: 0 <= k < |log| && log[k].Commit? ==> Decided(p, log[k].record, log[..k])
  }

  ghost predicate WasSent(sent: seq<Sent>, o: Output) {
    exists i :: 0 <= i < |sent| && sent[i].output == o
  }

  ghost predicate Genuine(sent: seq<Sent>, r: Record) {
    WasSent(sent, r.output) && EngineIntake.Validate(r.output) && r.output.offset > 0
  }

  ghost predicate AllGenuine(sent: seq<Sent>, log: seq<Entry>) {
    forall x <- log :: x.Commit? ==> Genuine(sent, x.record)
  }

  /** The epoch's log, and the database it makes. */
  ghost predicate EpochInv(p: Plant, log: seq<Entry>, db: Store.Database)
    requires p.Usable()
  {
    && Epoch(p, log) && SameLog(db, Folded(p, log))
    && forall x <- log :: x.Commit? ==> x.record.output.offset <= db.watermark
  }

  /** The watermark in memory against the one in the database. */
  ghost predicate MarkInv(p: Plant, h: Half) {
    && h.engine.lastOffset >= 0 && h.engine.db.watermark >= 0
    && (h.owed.None? ==> h.engine.lastOffset >= h.engine.db.watermark)
    && (h.owed.Some? ==> p.read(h.owed.value.output).event.offset >= h.engine.db.watermark
                         && Commit(h.owed.value) in h.log)
  }

  /** n is the length of the log at the last reset. */
  ghost predicate CommitInv(p: Plant, s: System, n: nat)
    requires p.Usable()
  {
    n <= |s.log| && EpochInv(p, s.log[n..], s.engine.db) && AllGenuine(s.sent, s.log) && MarkInv(p, HalfOf(s))
  }

  /** The log's length at the last reset of a run that starts with n. */
  ghost function ResetAt(p: Plant, s: System, actions: seq<Action>, n: nat): nat
    requires p.Usable()
    decreases |actions|
  {
    if actions == [] then n
    else ResetAt(p, Next(p, s, actions[0]), actions[1..], if actions[0].Reset? then |s.log| else n)
  }

  // ---- Each offset is committed at most once between resets ----

  /**
    An entry that may follow this log: a commit above the watermark, decided on it; an operation keeps the
    watermark.
  */
  ghost predicate Follows(p: Plant, log: seq<Entry>, before: Store.Database, x: Entry, after: Store.Database)
    requires p.Usable()
  {
    && SameLog(after, Folded(p, log + [x]))
    && match x
       case Commit(r) => Decided(p, r, log) && after.watermark == r.output.offset > before.watermark
       case Operated(_, _) => after.watermark == before.watermark
  }

  lemma {:induction false} EpochAppend(p: Plant, log: seq<Entry>, db: Store.Database, x: Entry, after: Store.Database)
    requires p.Usable() && EpochInv(p, log, db) && Follows(p, log, db, x, after)
    ensures EpochInv(p, log + [x], after)
  {
    hide Folded, SameLog, Decided;
    var all := log + [x];
    forall y | y in all && y.Commit? ensures y.record.output.offset <= after.watermark {
      assert y in log || y == x;
    }
    forall i, j | 0 <= i < j < |all| && all[i].Commit? && all[j].Commit?
      ensures all[i].record.output.offset < all[j].record.output.offset
    {
      assert all[i] in log;
    }
    forall k | 0 <= k < |all| && all[k].Commit? ensures Decided(p, all[k].record, all[..k]) {
      assert all[..k] == log[..k];
      assert log[..|log|] == log;
    }
  }

  /** What a commit does to the engine's half, and what it was decided on. */
  lemma {:induction false} CommitFacts(p: Plant, h: Half, o: Output, rules: seq<Rules.Rule>, now: real, stops: bool,
                                       fault: RiskEngine.Fault)
    requires p.Usable() && Reads(p.read) && h.owed.None? && RiskEngine.Accepts(h.engine, p.read(o)) && !Aborts(fault)
    ensures
      var h' := Received(p, h, o, rules, now, stops, fault);
      var r := RecordOf(p, h.engine, o, rules, now, stops, fault);
      && h'.log == h.log + [Commit(r)] && h'.owed == Some(r) && r.output == o
      && h'.engine.lastOffset == h.engine.lastOffset < o.offset
      && h'.engine.db == Store.Written(h.engine.db, r.d, p.read(o).receivedAt) && h'.engine.db.watermark == o.offset
      && r.d.node == EngineIntake.NodeOf(o) && EngineIntake.Validate(o)
  {
    var m := p.read(o);
    Pipeline.ProcessIdentifies(p.scoring, rules, h.engine.tables, m.event, Store.ScoreOf(h.engine.db, m.event.node),
                               now);
    hide Pipeline.Process, Store.RowOf, Store.ScoreOf, EngineIntake.Validate;
  }

  lemma {:induction false} DecidedOnFold(p: Plant, e: RiskEngine.State, o: Output, rules: seq<Rules.Rule>, now: real,
                                         stops: bool, fault: RiskEngine.Fault, log: seq<Entry>)
    requires p.Usable() && SameLog(e.db, Folded(p, log))
    ensures Decided(p, RecordOf(p, e, o, rules, now, stops, fault), log)
  {
    hide Pipeline.Process, Folded;
  }

  lemma {:induction false} FoldedNext(p: Plant, log: seq<Entry>, db: Store.Database, x: Entry)
    requires SameLog(db, Folded(p, log))
    ensures SameLog(Logged(p, db, x), Folded(p, log + [x]))
  {
    assert (log + [x])[..|log|] == log;
    hide Store.RowOf;
  }

  lemma {:induction false} InvAppend(p: Plant, s: System, s': System, n: nat, x: Entry)
    requires p.Usable() && CommitInv(p, s, n) && Follows(p, s.log[n..], s.engine.db, x, s'.engine.db)
    requires s'.log == s.log + [x] && s'.sent == s.sent && (x.Commit? ==> Genuine(s.sent, x.record))
    requires MarkInv(p, HalfOf(s'))
    ensures CommitInv(p, s', n)
  {
    hide Follows, Genuine, EpochInv, MarkInv;
    assert s'.log[n..] == s.log[n..] + [x];
    EpochAppend(p, s.log[n..], s.engine.db, x, s'.engine.db);
    assert AllGenuine(s'.sent, s'.log) by {
      assert forall y <- s'.log :: y in s.log || y == x;
    }
  }

  /** Committing one more output above the watermark. */
  lemma {:induction false} CommitKeeps(p: Plant, s: System, n: nat, i: nat, rules: seq<Rules.Rule>, now: real,
                                       stops: bool, fault: RiskEngine.Fault)
    requires p.Usable() && Reads(p.read) && CommitInv(p, s, n)
    requires i < |s.sent| && s.owed.None? && RiskEngine.Accepts(s.engine, p.read(s.sent[i].output)) && !Aborts(fault)
    ensures CommitInv(p, Next(p, s, Deliver(i, rules, now, stops, fault)), n)
  {
    hide Received, RecordOf, Decided, Folded, Epoch, EngineIntake.Validate, Store.Written, RiskEngine.Accepts, Step;
    var o := s.sent[i].output;
    var r := RecordOf(p, s.engine, o, rules, now, stops, fault);
    CommitFacts(p, HalfOf(s), o, rules, now, stops, fault);
    DecidedOnFold(p, s.engine, o, rules, now, stops, fault, s.log[n..]);
    FoldedNext(p, s.log[n..], s.engine.db, Commit(r));
    assert WasSent(s.sent, o);
    assert p.read(o).event.offset == o.offset;
    InvAppend(p, s, Next(p, s, Deliver(i, rules, now, stops, fault)), n, Commit(r));
  }

  /** An operation moves neither watermark, and its trace is all it does to scores and events. */
  lemma {:induction false} OperationLogged(p: Plant, e: RiskEngine.State, a: RiskEngine.Action)
    requires p.Usable() && Operation(a)
    ensures
      var e' := RiskEngine.Next(p.scoring, e, a);
      && SameLog(e'.db, Logged(p, e.db, Operated(a, TraceOf(e, a))))
      && e'.db.watermark == e.db.watermark && e'.lastOffset == e.lastOffset
      && (forall node :: node != a.node ==> Store.ScoreOf(e'.db, node) == Store.ScoreOf(e.db, node))
  {
  }

  lemma {:induction false} OperateKeeps(p: Plant, s: System, n: nat, a: RiskEngine.Action)
    requires p.Usable() && CommitInv(p, s, n) && Operation(a)
    ensures CommitInv(p, Next(p, s, Operate(a)), n)
  {
    hide Decided, Epoch, Genuine, RiskEngine.Next, TraceOf, Logged, Folded, Step;
    var x := Operated(a, TraceOf(s.engine, a));
    OperationLogged(p, s.engine, a);
    FoldedNext(p, s.log[n..], s.engine.db, x);
    InvAppend(p, s, Next(p, s, Operate(a)), n, x);
  }

  /** Nothing else the engine does touches log, scores or database watermark. */
  lemma {:induction false} EngineOthers(p: Plant, h: Half, sent: seq<Sent>, a: Action)
    requires p.Usable() && !a.Reset? && EngineMove(p, h, sent, a).log == h.log
    ensures
      var h' := EngineMove(p, h, sent, a);
      && SameLog(h'.engine.db, h.engine.db)
      && h'.engine.lastOffset in {h.engine.lastOffset, h.engine.db.watermark} + OwedOffset(p, h)
      && (h'.owed == h.owed || h'.owed.None?)
      && (h'.owed.None? ==> (h.owed.None? && h'.engine.lastOffset == h.engine.lastOffset)
                            || h'.engine.lastOffset in {h.engine.db.watermark} + OwedOffset(p, h))
  {
    hide RiskEngine.Decide, RiskEngine.Committed, RiskEngine.Next, Store.WarmRows;
  }

  ghost function OwedOffset(p: Plant, h: Half): set<int> {
    if h.owed.Some? then {p.read(h.owed.value.output).event.offset} else {}
  }

  lemma {:induction false} GenuineStays(sent: seq<Sent>, more: seq<Sent>, log: seq<Entry>)
    requires sent <= more && AllGenuine(sent, log)
    ensures AllGenuine(more, log)
  {
    forall x | x in log && x.Commit? ensures WasSent(more, x.record.output) {
      assert Genuine(sent, x.record);
      var i :| 0 <= i < |sent| && sent[i].output == x.record.output;
      assert more[i] == sent[i];
    }
  }

  lemma {:induction false} OthersKeep(p: Plant, s: System, n: nat, a: Action)
    requires p.Usable() && Reads(p.read) && CommitInv(p, s, n) && !a.Reset?
    requires Next(p, s, a).log == s.log
    ensures CommitInv(p, Next(p, s, a), n)
  {
    var s' := Next(p, s, a);
    MoveOf(p, s, a);
    EngineOthers(p, HalfOf(s), s.sent, a);
    assert s.sent <= s'.sent by { hide EngineMove, Step; }
    GenuineStays(s.sent, s'.sent, s.log);
    assert s.owed.Some? ==> Commit(s.owed.value) in s.log && Genuine(s.sent, s.owed.value);
    hide Next, EngineMove, Epoch, Folded, EngineIntake.Validate;
  }

  lemma {:induction false} ResetKeeps(p: Plant, s: System, n: nat)
    requires p.Usable() && Reads(p.read) && CommitInv(p, s, n)
    ensures CommitInv(p, Next(p, s, Reset), |s.log|)
  {
    var s' := Next(p, s, Reset);
    assert s'.log[|s.log|..] == [];
    assert s.owed.Some? ==> Commit(s.owed.value) in s.log && Genuine(s.sent, s.owed.value);
    hide EngineIntake.Validate;
  }

  lemma {:induction false} NextKeepsCommits(p: Plant, s: System, n: nat, a: Action)
    requires p.Usable() && Reads(p.read) && CommitInv(p, s, n)
    ensures CommitInv(p, Next(p, s, a), if a.Reset? then |s.log| else n)
  {
    if a.Reset? {
      ResetKeeps(p, s, n);
    } else if a.Deliver? && a.i < |s.sent| && s.owed.None?
              && RiskEngine.Accepts(s.engine, p.read(s.sent[a.i].output)) && !Aborts(a.fault) {
      CommitKeeps(p, s, n, a.i, a.rules, a.now, a.stops, a.fault);
    } else if a.Operate? && Operation(a.operation) {
      OperateKeeps(p, s, n, a.operation);
    } else {
      hide Step, CommitInv, RiskEngine.Handle, RiskEngine.Next, RiskEngine.Finished, RiskEngine.Started;
      OthersKeep(p, s, n, a);
    }
  }

  lemma {:induction false} RunKeepsCommits(p: Plant, s: System, actions: seq<Action>, n: nat)
    requires p.Usable() && Reads(p.read) && CommitInv(p, s, n)
    ensures CommitInv(p, RunAll(p, s, actions), ResetAt(p, s, actions, n))
    ensures ResetFree(actions) ==> ResetAt(p, s, actions, n) == n
    decreases |actions|
  {
    if actions != [] {
      var a := actions[0];
      assert a in actions;
      NextKeepsCommits(p, s, n, a);
      hide Next, CommitInv;
      RunKeepsCommits(p, Next(p, s, a), actions[1..], if a.Reset? then |s.log| else n);
    }
  }

  lemma {:induction false} BootKeeps(p: Plant, savedOffset: int, savedBlacklist: set<string>)
    requires p.Usable()
    ensures CommitInv(p, Boot(savedOffset, savedBlacklist), 0)
  {
  }

  /**
    At-most-once commit, over any crashes, losses, duplicates, reorderings, resets, heartbeats and operator
    commands.  The offsets committed since the last reset strictly increase; every committed message was
    sent and is valid; each was decided by the pipeline on the score left before it; and events, scores and
    watermark of the database are what these commits and operations write to an empty one, so no offset
    changes a score twice.
  */
  lemma {:induction false} CommitsAtMostOnce(p: Plant, savedOffset: int, savedBlacklist: set<string>,
                                             actions: seq<Action>)
    requires p.Usable() && Reads(p.read)
    ensures
      var boot := Boot(savedOffset, savedBlacklist);
      var s, n := RunAll(p, boot, actions), ResetAt(p, boot, actions, 0);
      && n <= |s.log| && (ResetFree(actions) ==> n == 0)
      && Rises(s.log[n..]) && AllGenuine(s.sent, s.log)
      && (forall k :: 0 <= k < |s.log[n..]| && s.log[n..][k].Commit? ==>
          Decided(p, s.log[n..][k].record, s.log[n..][..k]))
      && SameLog(s.engine.db, Folded(p, s.log[n..]))
  {
    BootKeeps(p, savedOffset, savedBlacklist);
    RunKeepsCommits(p, Boot(savedOffset, savedBlacklist), actions, 0);
    hide RunAll, Decided, Folded, Genuine;
  }

  /** The action commits the output, whose offset is above all committed since the last reset, to its node's score. */
  ghost predicate ScoresByCommit(s: System, n: nat, a: Action, s': System)
    requires n <= |s.log|
  {
    && a.Deliver? && a.i < |s.sent| && s.log < s'.log && |s'.log| == |s.log| + 1 && s'.log[|s.log|].Commit?
    && var r := s'.log[|s.log|].record;
    && r.output == s.sent[a.i].output
    && (forall x <- s.log[n..] :: x.Commit? ==> x.record.output.offset < r.output.offset)
    && s'.engine.db.scores == s.engine.db.scores[EngineIntake.NodeOf(r.output) := r.d.scored.cumulative]
  }

  /** The action is an approve or a restart that goes ahead, and it zeroes the score of its node. */
  ghost predicate ScoresByRelease(s: System, a: Action, s': System) {
    && a.Operate? && (a.operation.OnApprove? || a.operation.OnRestart?)
    && a.operation.release != RiskEngine.ContainerFails
    && Store.StatusOf(s.engine.db, a.operation.node) !in {Store.Idle, Store.Busy}
    && s'.engine.db.scores == s.engine.db.scores[a.operation.node := 0.0]
  }

  /**
    Scores change only in a reset, in a commit above all since, or in a release; each of the last two changes
    one score.
  */
  lemma {:induction false} ScoreChangeCauses(p: Plant, s: System, n: nat, a: Action)
    requires p.Usable() && Reads(p.read) && CommitInv(p, s, n)
    ensures
      var s' := Next(p, s, a);
      s'.engine.db.scores != s.engine.db.scores ==> a.Reset? || ScoresByCommit(s, n, a, s') || ScoresByRelease(s, a, s')
  {
    var h, h' := HalfOf(s), EngineMove(p, HalfOf(s), s.sent, a);
    MoveOf(p, s, a);
    if a.Deliver? && a.i < |s.sent| && s.owed.None?
       && RiskEngine.Accepts(s.engine, p.read(s.sent[a.i].output)) && !Aborts(a.fault) {
      CommitScores(p, s, n, a);
      hide *;
    } else if a.Operate? && Operation(a.operation) {
      ReleaseScores(p, h.engine, a.operation);
      hide Next, CommitInv, RiskEngine.Next, TraceOf;
    } else if !a.Reset? {
      assert h'.log == h.log by { hide RiskEngine.Next, RiskEngine.Handle, RiskEngine.Finished, RiskEngine.Started; }
      EngineOthers(p, h, s.sent, a);
      hide Next, EngineMove, CommitInv, ScoresByCommit, ScoresByRelease;
    }
  }

  lemma {:induction false} CommitScores(p: Plant, s: System, n: nat, a: Action)
    requires p.Usable() && Reads(p.read) && CommitInv(p, s, n) && a.Deliver? && a.i < |s.sent| && s.owed.None?
    requires RiskEngine.Accepts(s.engine, p.read(s.sent[a.i].output)) && !Aborts(a.fault)
    ensures ScoresByCommit(s, n, a, Next(p, s, a))
  {
    MoveOf(p, s, a);
    CommitFacts(p, HalfOf(s), s.sent[a.i].output, a.rules, a.now, a.stops, a.fault);
    hide Next, Received, RecordOf, Epoch, Folded, AllGenuine, EngineIntake.Validate, EngineIntake.NodeOf,
         RiskEngine.Accepts, Reads;
  }

  lemma {:induction false} ReleaseScores(p: Plant, e: RiskEngine.State, a: RiskEngine.Action)
    requires p.Usable() && Operation(a)
    ensures
      var scores := RiskEngine.Next(p.scoring, e, a).db.scores;
      scores != e.db.scores ==>
        && (a.OnApprove? || a.OnRestart?) && a.release != RiskEngine.ContainerFails
        && Store.StatusOf(e.db, a.node) !in {Store.Idle, Store.Busy}
        && scores == e.db.scores[a.node := 0.0]
  {
  }

  // ---- What a reset gives up ----

  ghost predicate CommittedLast(log: seq<Entry>, log': seq<Entry>, o: Output) {
    |log'| == |log| + 1 && log'[|log|].Commit? && log'[|log|].record.output == o
  }

  /**
    In an idle engine that has just been reset, a delivery commits iff the message is valid and its offset
    positive.
  */
  lemma {:induction false} CommitsAfterResetIff(p: Plant, s: System, i: nat, rules: seq<Rules.Rule>, now: real,
                                                stops: bool, fault: RiskEngine.Fault)
    requires p.Usable() && Reads(p.read) && i < |s.sent| && s.owed.None? && !Aborts(fault)
    ensures
      var s' := Next(p, Next(p, s, Reset), Deliver(i, rules, now, stops, fault));
      var o := s.sent[i].output;
      if EngineIntake.Validate(o) && o.offset > 0 then CommittedLast(s.log, s'.log, o)
      else s'.log == s.log
  {
    hide EngineIntake.Validate, RiskEngine.Committed, RiskEngine.Decide;
  }

  /** So every message ever committed is committed again if a copy of it is still on the channel. */
  lemma {:induction false} RecommittedAfterReset(p: Plant, savedOffset: int, savedBlacklist: set<string>,
                                                 actions: seq<Action>, k: nat, i: nat, rules: seq<Rules.Rule>,
                                                 now: real, stops: bool)
    requires p.Usable() && Reads(p.read)
    requires
      var s := RunAll(p, Boot(savedOffset, savedBlacklist), actions);
      s.owed.None? && k < |s.log| && s.log[k].Commit? && i < |s.sent| && s.sent[i].output == s.log[k].record.output
    ensures
      var s := RunAll(p, Boot(savedOffset, savedBlacklist), actions);
      var s' := Next(p, Next(p, s, Reset), Deliver(i, rules, now, stops, RiskEngine.NoFault));
      CommittedLast(s.log, s'.log, s.log[k].record.output)
  {
    BootKeeps(p, savedOffset, savedBlacklist);
    RunKeepsCommits(p, Boot(savedOffset, savedBlacklist), actions, 0);
    var s := RunAll(p, Boot(savedOffset, savedBlacklist), actions);
    assert s.log[k] in s.log && Genuine(s.sent, s.log[k].record);
    hide RunAll, Next, CommitInv, EngineIntake.Validate;
    CommitsAfterResetIff(p, s, i, rules, now, stops, RiskEngine.NoFault);
  }

  /** One alert, committed; a reset; the duplicate left on the channel, committed a second time. */
  lemma {:induction false} ResetAllowsSecondCommit(p: Plant, m: Message, rules: seq<Rules.Rule>)
    requires p.Usable() && Reads(p.read) && !p.gate.verify(m)
    ensures
      var deliver := Deliver(0, rules, 1.0, true, RiskEngine.NoFault);
      var s := RunAll(p, Boot(0, {}), [Receive(m, 0.0), Perform, Perform, Perform]);
      var t := RunAll(p, s, [deliver, Finish, Reset, deliver]);
      |t.log| == 2 && t.log[0].Commit? && t.log[1].Commit? && t.log[0].record.output == t.log[1].record.output
  {
    var s := RunAll(p, Boot(0, {}), [Receive(m, 0.0), Perform, Perform, Perform]);
    AlertRun(p, Boot(0, {}), m);
    hide RunAll;
    AlertCommitted(p, s, Output(1, 0.0, Tamper(m.node, m.msgId)), rules);
  }

  lemma {:induction false} AlertCommitted(p: Plant, s: System, o: Output, rules: seq<Rules.Rule>)
    requires p.Usable() && Reads(p.read) && HalfOf(s) == HalfOf(Boot(0, {})) && |s.sent| == 1 && s.sent[0].output == o
    requires !o.notice.Forwarded? && o.offset == 1
    ensures
      var deliver := Deliver(0, rules, 1.0, true, RiskEngine.NoFault);
      var t := RunAll(p, s, [deliver, Finish, Reset, deliver]);
      |t.log| == 2 && t.log[0].Commit? && t.log[1].Commit? && t.log[0].record.output == t.log[1].record.output == o
  {
    var deliver := Deliver(0, rules, 1.0, true, RiskEngine.NoFault);
    RunFour(p, s, deliver, Finish, Reset, deliver);
    FirstCommit(p, s, o, rules, 1.0, true);
    var s1 := Next(p, s, deliver);
    var s2 := Next(p, s1, Finish);
    assert s2.sent == s1.sent by { hide Step, EngineMove; }
    MoveOf(p, s1, Finish);
    assert EngineIntake.Validate(o);
    hide RunAll, Next, Received, EngineIntake.Validate, RiskEngine.Finished;
    CommitsAfterResetIff(p, s2, 0, rules, 1.0, true, RiskEngine.NoFault);
  }

  /** The first delivery of an alert to a fresh engine commits it. */
  lemma {:induction false} FirstCommit(p: Plant, s: System, o: Output, rules: seq<Rules.Rule>, now: real, stops: bool)
    requires p.Usable() && Reads(p.read) && HalfOf(s) == HalfOf(Boot(0, {})) && |s.sent| == 1 && s.sent[0].output == o
    requires !o.notice.Forwarded? && o.offset == 1
    ensures
      var s1 := Next(p, s, Deliver(0, rules, now, stops, RiskEngine.NoFault));
      var r := RecordOf(p, RiskEngine.FRESH, o, rules, now, stops, RiskEngine.NoFault);
      && s1.log == [Commit(r)] && s1.owed == Some(r) && r.output == o && s1.sent == s.sent
      && s1.engine.db == Store.Written(Store.EMPTY, r.d, p.read(o).receivedAt) && r.d.node == EngineIntake.NodeOf(o)
  {
    assert p.read(o).event.offset == o.offset && EngineIntake.Validate(o);
    CommitFacts(p, HalfOf(s), o, rules, now, stops, RiskEngine.NoFault);
    hide Received, RecordOf, Store.Written, EngineIntake.Validate;
  }

  // ---- An engine that does not crash is the engine of the event loop ----

  /** No engine crash, no reset, and no event lost before its commit. */
  ghost predicate Calm(a: Action) {
    && !a.EngineCrash? && !a.Reset?
    && (a.Deliver? ==> !Aborts(a.fault))
  }

  /** The entry as an action of the engine. */
  function ActionOf(p: Plant, x: Entry): RiskEngine.Action {
    match x
    case Commit(r) => RiskEngine.OnEvent(r.rules, p.read(r.output), r.now, r.stops, r.fault)
    case Operated(a, _) => a
  }

  /** The committed messages and the operations as actions of the engine, in order. */
  function ActionsOf(p: Plant, log: seq<Entry>): seq<RiskEngine.Action> {
    if log == [] then [] else ActionsOf(p, log[..|log|-1]) + [ActionOf(p, log[|log|-1])]
  }

  /** The operation falls between a commit and its status write, on the node of that commit. */
  predicate Races(h: Half, a: Action) {
    a.Operate? && Operation(a.operation) && h.owed.Some? && a.operation.node == h.owed.value.d.node
  }

  /** A run in which every action is calm and none races with the step in hand. */
  ghost predicate CalmRun(p: Plant, s: System, actions: seq<Action>)
    requires p.Usable()
    decreases |actions|
  {
    actions == []
    || (Calm(actions[0]) && !Races(HalfOf(s), actions[0]) && CalmRun(p, Next(p, s, actions[0]), actions[1..]))
  }

  /** Once its last step is finished, the engine is where acting on its log takes it. */
  ghost predicate FollowsLog(p: Plant, start: RiskEngine.State, h: Half)
    requires p.Usable()
  {
    Settled(p, h).engine == RiskEngine.RunAll(p.scoring, start, ActionsOf(p, h.log))
  }

  /** One more entry is one more action of the engine. */
  lemma {:induction false} LogNext(p: Plant, start: RiskEngine.State, h: Half, x: Entry)
    requires p.Usable() && FollowsLog(p, start, h)
    ensures RiskEngine.RunAll(p.scoring, start, ActionsOf(p, h.log + [x])) ==
            RiskEngine.Next(p.scoring, Settled(p, h).engine, ActionOf(p, x))
  {
    var e := ActionOf(p, x);
    assert (h.log + [x])[..|h.log|] == h.log;
    assert ActionsOf(p, h.log + [x]) == ActionsOf(p, h.log) + [e];
    RiskEngine.RunAppend(p.scoring, start, ActionsOf(p, h.log), [e]);
    hide ActionsOf, ActionOf, Settled, RiskEngine.Next;
    var settled := Settled(p, h).engine;
    assert [e][1..] == [];
    assert RiskEngine.RunAll(p.scoring, RiskEngine.Next(p.scoring, settled, e), []) ==
           RiskEngine.Next(p.scoring, settled, e);
    assert RiskEngine.RunAll(p.scoring, settled, [e]) == RiskEngine.Next(p.scoring, settled, e);
  }

  /** The one status row that the rest of a step writes. */
  ghost function FinalRow(d: Pipeline.Decision, m: RiskEngine.Incoming, stops: bool): Store.NodeStatus {
    if stops && (d.scored.bucket.Critical? || m.critical) then Store.NodeStatus(Store.Quarantined, 0.0)
    else Store.NodeStatus(RiskEngine.StatusFor(d.scored.bucket, m.busy), d.scored.cumulative)
  }

  ghost function WithRow(e: RiskEngine.State, node: string, row: Store.NodeStatus): RiskEngine.State {
    e.(db := e.db.(statuses := e.db.statuses[node := row]))
  }

  lemma {:induction false} FinishedWrites(e: RiskEngine.State, d: Pipeline.Decision, m: RiskEngine.Incoming,
                                          stops: bool, fault: RiskEngine.Fault)
    ensures RiskEngine.Finished(e, d, m, stops, fault) ==
            var marked := e.(lastOffset := m.event.offset);
            if fault == RiskEngine.StatusFails then marked else WithRow(marked, d.node, FinalRow(d, m, stops))
  {
    var updated := Store.WithStatus(e.db, d.node, RiskEngine.StatusFor(d.scored.bucket, m.busy), d.scored.cumulative);
    assert updated.statuses[d.node := Store.NodeStatus(Store.Quarantined, 0.0)] ==
           e.db.statuses[d.node := Store.NodeStatus(Store.Quarantined, 0.0)];
    hide RiskEngine.StatusFor;
  }

  /** The status row an operation writes, if any. */
  ghost function RowAfter(e: RiskEngine.State, a: RiskEngine.Action): Option<Store.NodeStatus> {
    match a
    case OnHeartbeat(_, _, outcome) =>
      if TraceOf(e, a).Untraced? then None
      else if outcome.AlertFails? then Some(Store.NodeStatus(Store.Unresponsive, 100.0))
      else Some(Store.NodeStatus(Store.Quarantined, 0.0))
    case OnDeny(node, proceeds) =>
      if proceeds && Store.StatusOf(e.db, node) in {Store.AwaitingApproval, Store.Idle, Store.Busy} then
        Some(Store.NodeStatus(Store.Quarantined, Store.ScoreOf(e.db, node)))
      else None
    case OnApprove(_, release) =>
      if TraceOf(e, a).ScoreZeroed? && release.Completes? then Some(Store.NodeStatus(Store.Idle, 0.0)) else None
    case OnRestart(_, release) =>
      if TraceOf(e, a).ScoreZeroed? && release.Completes? then Some(Store.NodeStatus(Store.Idle, 0.0)) else None
    case _ => None
  }

  ghost function Upsert(statuses: map<string, Store.NodeStatus>, node: string,
                        row: Option<Store.NodeStatus>): map<string, Store.NodeStatus> {
    if row.Some? then statuses[node := row.value] else statuses
  }

  /** An operation in two parts: its trace in events and scores, and one status row. */
  lemma {:induction false} OperationWrites(p: Plant, e: RiskEngine.State, a: RiskEngine.Action)
    requires p.Usable() && Operation(a)
    ensures
      var db := Logged(p, e.db, Operated(a, TraceOf(e, a)));
      RiskEngine.Next(p.scoring, e, a) == e.(db := db.(statuses := Upsert(e.db.statuses, a.node, RowAfter(e, a))))
  {
    if a.OnHeartbeat? && RowAfter(e, a).Some? {
      var silent := Store.NodeStatus(Store.Unresponsive, 100.0);
      var row := RowAfter(e, a).value;
      assert e.db.statuses[a.node := silent][a.node := row] == e.db.statuses[a.node := row];
    }
  }

  lemma {:induction false} UpsertsCommute(statuses: map<string, Store.NodeStatus>, n: string,
                                          x: Option<Store.NodeStatus>, m: string, y: Option<Store.NodeStatus>)
    requires n != m
    ensures Upsert(Upsert(statuses, n, x), m, y) == Upsert(Upsert(statuses, m, y), n, x)
  {
  }

  /** An operation looks at its own node's row only. */
  lemma {:induction false} RowIsOther(p: Plant, e: RiskEngine.State, node: string, row: Store.NodeStatus,
                                      a: RiskEngine.Action)
    requires Operation(a) && a.node != node
    ensures
      var e' := WithRow(e, node, row);
      && TraceOf(e', a) == TraceOf(e, a) && RowAfter(e', a) == RowAfter(e, a)
      && (var x := Operated(a, TraceOf(e, a));
          Logged(p, e'.db, x).(statuses := map[]) == Logged(p, e.db, x).(statuses := map[]))
  {
  }

  /** Status rows of different nodes can be written in either order. */
  lemma {:induction false} RowCommutes(p: Plant, e: RiskEngine.State, node: string, row: Store.NodeStatus,
                                       a: RiskEngine.Action)
    requires p.Usable() && Operation(a) && a.node != node
    ensures RiskEngine.Next(p.scoring, WithRow(e, node, row), a) == WithRow(RiskEngine.Next(p.scoring, e, a), node, row)
  {
    OperationWrites(p, e, a);
    OperationWrites(p, WithRow(e, node, row), a);
    RowIsOther(p, e, node, row, a);
    UpsertsCommute(e.db.statuses, node, Some(row), a.node, RowAfter(e, a));
    hide RiskEngine.Next, TraceOf, RowAfter, Logged;
  }

  lemma {:induction false} MarkCommutes(cfg: Pipeline.Config, e: RiskEngine.State, mark: int, a: RiskEngine.Action)
    requires cfg.multiRules != [] && Operation(a)
    ensures RiskEngine.Next(cfg, e.(lastOffset := mark), a) == RiskEngine.Next(cfg, e, a).(lastOffset := mark)
  {
  }

  /** Off the node of the step in hand, an operation and the rest of that step change places. */
  lemma {:induction false} OperationCommutes(p: Plant, e: RiskEngine.State, d: Pipeline.Decision,
                                             m: RiskEngine.Incoming, stops: bool, fault: RiskEngine.Fault,
                                             a: RiskEngine.Action)
    requires p.Usable() && Operation(a) && a.node != d.node
    ensures RiskEngine.Finished(RiskEngine.Next(p.scoring, e, a), d, m, stops, fault) ==
            RiskEngine.Next(p.scoring, RiskEngine.Finished(e, d, m, stops, fault), a)
  {
    FinishedWrites(e, d, m, stops, fault);
    FinishedWrites(RiskEngine.Next(p.scoring, e, a), d, m, stops, fault);
    MarkCommutes(p.scoring, e, m.event.offset, a);
    RowCommutes(p, e.(lastOffset := m.event.offset), d.node, FinalRow(d, m, stops), a);
    hide RiskEngine.Next, RiskEngine.Finished, FinalRow;
  }

  lemma {:induction false} CommitFollows(p: Plant, start: RiskEngine.State, h: Half, o: Output, a: Action)
    requires p.Usable() && FollowsLog(p, start, h) && h.owed.None?
    requires a.Deliver? && RiskEngine.Accepts(h.engine, p.read(o)) && !Aborts(a.fault)
    ensures FollowsLog(p, start, Received(p, h, o, a.rules, a.now, a.stops, a.fault))
  {
    LogNext(p, start, h, Commit(RecordOf(p, h.engine, o, a.rules, a.now, a.stops, a.fault)));
    hide RiskEngine.RunAll, ActionsOf, RiskEngine.Decide, RiskEngine.Committed, RiskEngine.Finished, RiskEngine.Accepts;
  }

  lemma {:induction false} OperateFollows(p: Plant, start: RiskEngine.State, h: Half, a: RiskEngine.Action)
    requires p.Usable() && FollowsLog(p, start, h) && Operation(a) && !Races(h, Operate(a))
    ensures FollowsLog(p, start, OperateOn(p, h, a))
  {
    LogNext(p, start, h, Operated(a, TraceOf(h.engine, a)));
    if h.owed.Some? {
      var r := h.owed.value;
      OperationCommutes(p, h.engine, r.d, p.read(r.output), r.stops, r.fault, a);
    }
    hide RiskEngine.RunAll, ActionsOf, RiskEngine.Next, RiskEngine.Finished, TraceOf;
  }

  lemma {:induction false} HalfFollows(p: Plant, start: RiskEngine.State, h: Half, sent: seq<Sent>, a: Action)
    requires p.Usable() && FollowsLog(p, start, h) && Calm(a) && !Races(h, a)
    ensures FollowsLog(p, start, EngineMove(p, h, sent, a))
  {
    if a.Deliver? && a.i < |sent| && h.owed.None? && RiskEngine.Accepts(h.engine, p.read(sent[a.i].output)) {
      CommitFollows(p, start, h, sent[a.i].output, a);
      hide Received, FollowsLog;
    } else if a.Operate? && Operation(a.operation) {
      OperateFollows(p, start, h, a.operation);
      hide OperateOn, FollowsLog;
    } else {
      hide RiskEngine.RunAll, RiskEngine.Next, ActionsOf, RiskEngine.Handle, RiskEngine.Committed, RiskEngine.Finished;
    }
  }

  lemma {:induction false} RunFollows(p: Plant, start: RiskEngine.State, s: System, actions: seq<Action>)
    requires p.Usable() && FollowsLog(p, start, HalfOf(s)) && CalmRun(p, s, actions)
    ensures FollowsLog(p, start, HalfOf(RunAll(p, s, actions)))
    decreases |actions|
  {
    if actions != [] {
      HalfFollows(p, start, HalfOf(s), s.sent, actions[0]);
      MoveOf(p, s, actions[0]);
      hide Next, FollowsLog, EngineMove, Races, Calm;
      RunFollows(p, start, Next(p, s, actions[0]), actions[1..]);
    }
  }

  lemma {:induction false} MoveOf(p: Plant, s: System, a: Action)
    requires p.Usable()
    ensures HalfOf(Next(p, s, a)) == EngineMove(p, HalfOf(s), s.sent, a)
  {
    hide Step;
  }

  /**
    The engine behind the channel is the engine of the event loop.  Whatever the channel, the controller
    and the operator do, as long as the engine itself neither crashes nor is reset nor loses an event before
    its commit, and no operation falls between a commit and the status write of the same node, its state is the
    one reached by acting on exactly the committed messages and the operations, in order.
  */
  lemma {:induction false} EngineFollowsLog(p: Plant, savedOffset: int, savedBlacklist: set<string>,
                                            actions: seq<Action>)
    requires p.Usable() && CalmRun(p, Boot(savedOffset, savedBlacklist), actions)
    ensures
      var s := RunAll(p, Boot(savedOffset, savedBlacklist), actions);
      Settled(p, HalfOf(s)).engine == RiskEngine.RunAll(p.scoring, RiskEngine.FRESH, ActionsOf(p, s.log))
  {
    RunFollows(p, RiskEngine.FRESH, Boot(savedOffset, savedBlacklist), actions);
  }

  // ---- A command between a commit and its status write ----

  /** Whatever an operation on the node does between a commit and its status write, the write overwrites its status. */
  lemma {:induction false} StatusWriteWins(p: Plant, h: Half, a: RiskEngine.Action)
    requires p.Usable() && Operation(a) && Races(h, Operate(a)) && h.owed.value.fault != RiskEngine.StatusFails
    ensures Settled(p, OperateOn(p, h, a)).engine.db.statuses == Settled(p, h).engine.db.statuses
  {
    var r := h.owed.value;
    OperationWrites(p, h.engine, a);
    var e := RiskEngine.Next(p.scoring, h.engine, a);
    FinishedWrites(h.engine, r.d, p.read(r.output), r.stops, r.fault);
    FinishedWrites(e, r.d, p.read(r.output), r.stops, r.fault);
    hide RiskEngine.Next, RiskEngine.Finished, FinalRow, TraceOf, RowAfter, Logged;
    var row := FinalRow(r.d, p.read(r.output), r.stops);
    assert e.db.statuses[r.d.node := row] == h.engine.db.statuses[r.d.node := row];
  }

  /**
    When a deny is lost.  A deny that goes ahead between a commit of its node and the status write leaves the
    engine as the same deny after the step would exactly if the step itself quarantines the node.
  */
  lemma {:induction false} DenyInStepIff(p: Plant, start: RiskEngine.State, h: Half)
    requires p.Usable() && FollowsLog(p, start, h) && h.owed.Some? && h.owed.value.fault != RiskEngine.StatusFails
    ensures
      var r := h.owed.value;
      FollowsLog(p, start, OperateOn(p, h, RiskEngine.OnDeny(r.d.node, true)))
      <==> r.d.scored.bucket.Critical? || (p.read(r.output).critical && r.stops)
  {
    var r := h.owed.value;
    var m := p.read(r.output);
    var a := RiskEngine.OnDeny(r.d.node, true);
    var h' := OperateOn(p, h, a);
    LogNext(p, start, h, Operated(a, TraceOf(h.engine, a)));
    FinishedWrites(h.engine, r.d, m, r.stops, r.fault);
    FinishedWrites(h'.engine, r.d, m, r.stops, r.fault);
    StatusWriteWins(p, h, a);
    hide RiskEngine.RunAll, ActionsOf, RiskEngine.Finished, TraceOf;
    var e := Settled(p, h).engine;
    assert Settled(p, h').engine == e;
    assert Store.StatusOf(e.db, r.d.node) == FinalRow(r.d, m, r.stops).status;
    assert Store.StatusOf(e.db, r.d.node) == Store.Quarantined ==> RiskEngine.Next(p.scoring, e, a) == e;
    assert RiskEngine.Next(p.scoring, e, a) == e ==> Store.StatusOf(e.db, r.d.node) == Store.Quarantined;
  }

  /** What the engine reads out of the output matches no rule and raises no critical alert. */
  ghost predicate Uneventful(p: Plant, o: Output, rules: seq<Rules.Rule>) {
    var m := p.read(o);
    !m.critical && !m.busy && Rules.MatchAll(rules, Rules.Join(m.event.reasons)) == []
  }

  /** A deny that was answered and is gone: the alert's node is idle after the step, and was to be quarantined. */
  lemma {:induction false} DenyLostRun(p: Plant, m: Message, rules: seq<Rules.Rule>)
    requires p.Usable() && Reads(p.read) && !p.gate.verify(m) && p.scoring.score.bounds == Scoring.SHIPPED_BOUNDS
    requires p.scoring.score.decayRate >= 0.0
    requires Uneventful(p, Output(1, 0.0, Tamper(m.node, m.msgId)), rules)
    ensures
      var node := EngineIntake.NodeOf(Output(1, 0.0, Tamper(m.node, m.msgId)));
      var s := RunAll(p, Boot(0, {}), [Receive(m, 0.0), Perform, Perform, Perform]);
      var deliver := Deliver(0, rules, 1.0, true, RiskEngine.NoFault);
      var deny := Operate(RiskEngine.OnDeny(node, true));
      && Store.StatusOf(RunAll(p, s, [deliver, deny, Finish, Finish]).engine.db, node) == Store.Idle
      && Store.StatusOf(RunAll(p, s, [deliver, Finish, deny, Finish]).engine.db, node) == Store.Quarantined
  {
    var o := Output(1, 0.0, Tamper(m.node, m.msgId));
    var s := RunAll(p, Boot(0, {}), [Receive(m, 0.0), Perform, Perform, Perform]);
    AlertRun(p, Boot(0, {}), m);
    hide RunAll;
    DenyRaces(p, s, o, rules);
  }

  lemma {:induction false} DenyRaces(p: Plant, s: System, o: Output, rules: seq<Rules.Rule>)
    requires p.Usable() && Reads(p.read) && HalfOf(s) == HalfOf(Boot(0, {})) && |s.sent| == 1 && s.sent[0].output == o
    requires !o.notice.Forwarded? && o.offset == 1 && p.scoring.score.bounds == Scoring.SHIPPED_BOUNDS
    requires p.scoring.score.decayRate >= 0.0
    requires Uneventful(p, o, rules)
    ensures
      var node := EngineIntake.NodeOf(o);
      var deliver := Deliver(0, rules, 1.0, true, RiskEngine.NoFault);
      var deny := Operate(RiskEngine.OnDeny(node, true));
      && Store.StatusOf(RunAll(p, s, [deliver, deny, Finish, Finish]).engine.db, node) == Store.Idle
      && Store.StatusOf(RunAll(p, s, [deliver, Finish, deny, Finish]).engine.db, node) == Store.Quarantined
  {
    var node := EngineIntake.NodeOf(o);
    var deliver := Deliver(0, rules, 1.0, true, RiskEngine.NoFault);
    var deny := Operate(RiskEngine.OnDeny(node, true));
    RunFour(p, s, deliver, deny, Finish, Finish);
    RunFour(p, s, deliver, Finish, deny, Finish);
    FirstCommit(p, s, o, rules, 1.0, true);
    FirstIsInfo(p, o, rules);
    var s1 := Next(p, s, deliver);
    hide RunAll, Next, Received, RecordOf, EngineIntake.NodeOf;
    Faultless(p, o, rules);
    DenyEitherWay(p, HalfOf(s1));
    var a2, b2 := Next(p, s1, deny), Next(p, s1, Finish);
    MoveOf(p, s1, deny);
    MoveOf(p, a2, Finish);
    MoveOf(p, Next(p, a2, Finish), Finish);
    MoveOf(p, s1, Finish);
    MoveOf(p, b2, deny);
    MoveOf(p, Next(p, b2, deny), Finish);
  }

  lemma {:induction false} Faultless(p: Plant, o: Output, rules: seq<Rules.Rule>)
    requires p.Usable()
    ensures RecordOf(p, RiskEngine.FRESH, o, rules, 1.0, true, RiskEngine.NoFault).fault == RiskEngine.NoFault
  {
  }

  /** A deny before the status write of a step that ends in idle is overwritten; after it, it lasts. */
  lemma {:induction false} DenyEitherWay(p: Plant, h: Half)
    requires p.Usable() && h.owed.Some? && h.owed.value.fault == RiskEngine.NoFault
    requires
      var r := h.owed.value;
      r.d.scored.bucket == Scoring.Info && !p.read(r.output).critical && !p.read(r.output).busy
    requires Store.StatusOf(h.engine.db, h.owed.value.d.node) == Store.Idle
    ensures
      var node := h.owed.value.d.node;
      var deny := RiskEngine.OnDeny(node, true);
      && Store.StatusOf(Settled(p, OperateOn(p, h, deny)).engine.db, node) == Store.Idle
      && Settled(p, OperateOn(p, h, deny)).owed == OperateOn(p, Settled(p, h), deny).owed == None
      && Store.StatusOf(OperateOn(p, Settled(p, h), deny).engine.db, node) == Store.Quarantined
  {
    hide TraceOf;
  }

  /** An alert that matches no rule leaves a fresh node's score at zero. */
  lemma {:induction false} FirstIsInfo(p: Plant, o: Output, rules: seq<Rules.Rule>)
    requires p.Usable() && Reads(p.read) && p.scoring.score.bounds == Scoring.SHIPPED_BOUNDS
    requires p.scoring.score.decayRate >= 0.0 && Uneventful(p, o, rules)
    ensures
      var r := RecordOf(p, RiskEngine.FRESH, o, rules, 1.0, true, RiskEngine.NoFault);
      r.d.scored.bucket == Scoring.Info
  {
    var e := p.read(o).event;
    Pipeline.ProcessScores(p.scoring, rules, RiskEngine.FRESH.tables, e, 0.0, 1.0);
    hide Pipeline.Process, Pipeline.MultiplierOf, Rules.MatchAll;
  }
}
