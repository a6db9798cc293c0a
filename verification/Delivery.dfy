/**
  The controller and the risk engine as one system: either side may crash between any two
  writes or sends, and the channel may lose, duplicate and reorder what was sent.
*/
module Delivery {
  import opened Common
  import opened SlidingWindow
  import opened SecureMessenger
  import opened Controller
  import ReplayGuard
  import FloodGuard
  import EngineIntake
  import Store
  import Rules
  import Pipeline
  import RiskEngine

  /** An output on the channel, with the controller lifetime and the step that sent it. */
  datatype Sent = Sent(life: nat, step: nat, output: Output)

  /** How the engine reads what it receives: the fields the scoring looks at. */
  type Reader = Output -> RiskEngine.Incoming

  ghost predicate Reads(read: Reader) {
    forall o :: var m := read(o);
      && (m.valid <==> EngineIntake.Validate(o))
      && m.event.offset == o.offset && m.event.node == EngineIntake.NodeOf(o)
  }

  /** Both sides' configurations. */
  datatype Plant = Plant(gate: Config, scoring: Pipeline.Config, read: Reader) {
    predicate Usable() { gate.Usable() && scoring.multiRules != [] }
  }

  /** One committed transaction: what was received, under which rules, tables and clock, and what was decided. */
  datatype Record = Record(
    output: Output, rules: seq<Rules.Rule>, tables: Pipeline.Tables, now: real,
    stops: bool, fault: RiskEngine.Fault, d: Pipeline.Decision)

  /** What an operation leaves in log and scores: nothing, a zero score of its node, or an unscored row. */
  datatype Trace = Untraced | ScoreZeroed | RowAdded

  datatype Entry = Commit(record: Record) | Operated(operation: RiskEngine.Action, trace: Trace)

  datatype System = System(
    savedOffset: int, savedBlacklist: set<string>,          // the controller's files
    gate: Gate, pending: seq<Effect>,                       // its memory, and what is left of the step in hand
    life: nat, step: nat,
    sent: seq<Sent>,                                        // everything ever sent
    engine: RiskEngine.State,                               // the engine's memory and database
    owed: Option<Record>,                                   // a commit whose step is not finished
    log: seq<Entry>)                                        // every commit ever made, and every operation

  datatype Action =
    | Receive(m: Message, now: real)     // the controller takes a message and computes its step
    | Perform                            // ... and carries out the next effect of it
    | ControllerCrash                    // ... or dies and restarts from its files
    | Deliver(i: nat, rules: seq<Rules.Rule>, now: real, stops: bool, fault: RiskEngine.Fault)
                                         // the engine receives sent[i], again or for the first time, up to its commit
    | Finish                             // ... and does what follows a commit: watermark in memory, status, quarantine
    | Operate(operation: RiskEngine.Action) // a heartbeat check, or an operator's approve, deny or restart
    | EngineCrash(now: real)             // the engine dies and restarts from its database
    | Reset                              // the operator's reset: tables, both watermarks, the offset file

  function Boot(savedOffset: int, savedBlacklist: set<string>): System {
    System(savedOffset, savedBlacklist, Booted(savedOffset, savedBlacklist), [], 0, 0, [], RiskEngine.FRESH, None, [])
  }

  function PerformEffect(s: System): System
    requires s.pending != []
  {
    var rest := s.(pending := s.pending[1..]);
    match s.pending[0]
    case SaveOffset(o) => rest.(savedOffset := o)
    case SaveBlacklist(b) => rest.(savedBlacklist := b)
    case Send(out) => rest.(sent := s.sent + [Sent(s.life, s.step, out)])
  }

  predicate Aborts(fault: RiskEngine.Fault) {
    fault == RiskEngine.PipelineFails || fault == RiskEngine.CommitFails
  }

  /** What the engine would commit on receiving this output now. */
  function RecordOf(p: Plant, e: RiskEngine.State, o: Output, rules: seq<Rules.Rule>, now: real, stops: bool,
                    fault: RiskEngine.Fault): Record
    requires p.Usable()
  {
    Record(o, rules, e.tables, now, stops, fault, RiskEngine.Decide(p.scoring, rules, e, p.read(o), now).1)
  }

  /** The engine's half of the system: memory and database, the unfinished commit, the log. */
  datatype Half = Half(engine: RiskEngine.State, owed: Option<Record>, log: seq<Entry>)

  /** One message is handled up to its commit; the next is not taken before the step is finished. */
  function Received(p: Plant, h: Half, o: Output, rules: seq<Rules.Rule>, now: real, stops: bool,
                    fault: RiskEngine.Fault): Half
    requires p.Usable()
  {
    var m := p.read(o);
    if h.owed.Some? || !RiskEngine.Accepts(h.engine, m) then h
    else if Aborts(fault) then h.(engine := RiskEngine.Handle(p.scoring, rules, h.engine, m, now, stops, fault))
    else
      var r := RecordOf(p, h.engine, o, rules, now, stops, fault);
      Half(RiskEngine.Committed(p.scoring, rules, h.engine, m, now), Some(r), h.log + [Commit(r)])
  }

  function Settled(p: Plant, h: Half): Half {
    match h.owed
    case None => h
    case Some(r) => h.(engine := RiskEngine.Finished(h.engine, r.d, p.read(r.output), r.stops, r.fault), owed := None)
  }

  predicate Operation(a: RiskEngine.Action) {
    a.OnHeartbeat? || a.OnApprove? || a.OnRestart? || a.OnDeny?
  }

  /**
    An approve or restart that gets past the container call zeroes the score; a due heartbeat that is written
    adds a row.
  */
  function TraceOf(e: RiskEngine.State, a: RiskEngine.Action): Trace {
    match a
    case OnHeartbeat(node, now, outcome) =>
      if RiskEngine.HeartbeatDue(e, node, now) && outcome != RiskEngine.WriteFails then RowAdded else Untraced
    case OnApprove(node, release) =>
      if Store.StatusOf(e.db, node) == Store.AwaitingApproval && release != RiskEngine.ContainerFails then
        ScoreZeroed
      else Untraced
    case OnRestart(node, release) =>
      if Store.StatusOf(e.db, node) in {Store.Quarantined, Store.Unresponsive}
         && release != RiskEngine.ContainerFails then
        ScoreZeroed
      else Untraced
    case _ => Untraced
  }

  function OperateOn(p: Plant, h: Half, a: RiskEngine.Action): Half
    requires p.Usable()
  {
    if !Operation(a) then h
    else h.(engine := RiskEngine.Next(p.scoring, h.engine, a), log := h.log + [Operated(a, TraceOf(h.engine, a))])
  }

  /** Heartbeats and commands run on threads of their own: they can fall between a commit and what follows it. */
  function EngineMove(p: Plant, h: Half, sent: seq<Sent>, a: Action): Half
    requires p.Usable()
  {
    match a
    case Deliver(i, rules, now, stops, fault) =>
      if i < |sent| then Received(p, h, sent[i].output, rules, now, stops, fault) else h
    case Finish => Settled(p, h)
    case Operate(operation) => OperateOn(p, h, operation)
    case EngineCrash(now) => Half(RiskEngine.Started(h.engine.db, now), None, h.log)
    case Reset => h.(engine := RiskEngine.Reset(h.engine))
    case _ => h
  }

  function HalfOf(s: System): Half {
    Half(s.engine, s.owed, s.log)
  }

  function Next(p: Plant, s: System, a: Action): System
    requires p.Usable()
  {
    match a
    case Receive(m, now) =>
      if s.pending != [] then s
      else
        var r := Step(p.gate, s.gate, m, now);
        s.(gate := r.gate, pending := r.effects, step := s.step + 1)
    case Perform =>
      if s.pending == [] then s else PerformEffect(s)
    case ControllerCrash =>
      s.(gate := Booted(s.savedOffset, s.savedBlacklist), pending := [], life := s.life + 1)
    case _ =>
      var h := EngineMove(p, HalfOf(s), s.sent, a);
      s.(engine := h.engine, owed := h.owed, log := h.log, savedOffset := if a.Reset? then 0 else s.savedOffset)
  }

  function RunAll(p: Plant, s: System, actions: seq<Action>): System
    requires p.Usable()
    decreases |actions|
  {
    if actions == [] then s else RunAll(p, Next(p, s, actions[0]), actions[1..])
  }

  // ---- Write-ahead discipline of a step ----

  ghost predicate SendsAtLeast(effects: seq<Effect>, low: int) {
    forall i :: 0 <= i < |effects| && effects[i].Send? ==> effects[i].output.offset >= low
  }

  /** Every send is preceded by a save of an offset at least as large; sends do not fall. */
  ghost predicate WriteAhead(effects: seq<Effect>, saved: int, high: int) {
    if effects == [] then saved <= high
    else match effects[0]
      case SaveOffset(o) => saved <= o && WriteAhead(effects[1..], o, high)
      case SaveBlacklist(_) => WriteAhead(effects[1..], saved, high)
      case Send(out) =>
        out.offset <= saved && SendsAtLeast(effects[1..], out.offset) && WriteAhead(effects[1..], saved, high)
  }

  lemma {:induction false} WriteAheadSaved(effects: seq<Effect>, saved: int, high: int)
    requires WriteAhead(effects, saved, high)
    ensures saved <= high
  {
    if effects != [] {
      match effects[0]
      case SaveOffset(o) => WriteAheadSaved(effects[1..], o, high);
      case SaveBlacklist(_) => WriteAheadSaved(effects[1..], saved, high);
      case Send(_) => WriteAheadSaved(effects[1..], saved, high);
    }
  }

  /** A save followed by a send, in front of effects that are themselves disciplined. */
  lemma {:induction false} PairAhead(saved: int, o: int, out: Output, rest: seq<Effect>, high: int)
    requires saved <= o && out.offset <= o && WriteAhead(rest, o, high) && SendsAtLeast(rest, out.offset)
    ensures WriteAhead([SaveOffset(o), Send(out)] + rest, saved, high)
  {
    var all := [SaveOffset(o), Send(out)] + rest;
    assert all[1..] == [Send(out)] + rest && all[1..][1..] == rest;
    assert WriteAhead(all[1..], o, high);
  }

  /** What an admitted message sends: the forward, after an impersonation alert that shares the old offset. */
  lemma {:induction false} IdentityAhead(saved: int, o: int, last: int, alert: Output, forward: Output)
    requires saved <= last && o <= last && alert.offset == o && forward.offset == last
    ensures
      var c := [SaveOffset(last), Send(forward)];
      var bc := [SaveOffset(last), Send(alert)] + c;
      && WriteAhead(c, saved, last) && SendsAtLeast(c, o) && WriteAhead(bc, saved, last) && SendsAtLeast(bc, o)
  {
    var c := [SaveOffset(last), Send(forward)];
    assert c + [] == c;
    PairAhead(saved, last, forward, [], last);
    PairAhead(last, last, forward, [], last);
    PairAhead(saved, last, alert, c, last);
  }

  lemma {:induction false} AdmitAhead(cfg: Config, g: Gate, m: Message, now: real, saved: int)
    requires saved < g.offset
    ensures
      var r := Admit(cfg, g, m, now);
      && WriteAhead(r.effects, saved, r.gate.offset) && SendsAtLeast(r.effects, g.offset) && g.offset <= r.gate.offset
  {
    var r := Admit(cfg, g, m, now);
    var (_, flooding, count) := FloodGuard.Check(cfg.floodMax, g.flood, m.node, now);
    var last := r.gate.offset;
    var forward := Output(last, now, Forwarded(m.(hmac := "")));
    var c := [SaveOffset(last), Send(forward)];
    var claim := if IdentityChanged(g, m) then
        Output(g.offset, now, Impersonation(m.node, g.machineIds[m.node], m.machineId))
      else Output(g.offset, now, forward.notice);
    var bc := if IdentityChanged(g, m) then [SaveOffset(last), Send(claim)] + c else c;
    var alert := Output(g.offset, now, Flood(m.node, count));
    hide FloodGuard.Check;
    var alarm := flooding && FloodAlertDue(g, m.node, now);
    assert r.effects == if alarm then [SaveOffset(g.offset), Send(alert)] + bc else bc;
    hide Admit, WriteAhead, SendsAtLeast, FloodAlertDue;
    IdentityAhead(saved, g.offset, last, claim, forward);
    IdentityAhead(g.offset, g.offset, last, claim, forward);
    PairAhead(saved, g.offset, alert, bc, last);
    AlertFirst(g.offset, alert, bc);
  }

  lemma {:induction false} AlertFirst(o: int, alert: Output, rest: seq<Effect>)
    requires SendsAtLeast(rest, o) && alert.offset == o
    ensures SendsAtLeast([SaveOffset(o), Send(alert)] + rest, o)
  {
  }

  lemma {:induction false} AnnounceAhead(saved: int, o: int, now: real, notice: Notice, blacklist: set<string>)
    requires saved < o
    ensures
      var pair := Announce(o, now, notice);
      && WriteAhead(pair, saved, o) && SendsAtLeast(pair, o)
      && WriteAhead([SaveBlacklist(blacklist)] + pair, saved, o) && SendsAtLeast([SaveBlacklist(blacklist)] + pair, o)
  {
    var pair := Announce(o, now, notice);
    PairAhead(saved, o, Output(o, now, notice), [], o);
    assert pair + [] == pair;
    assert ([SaveBlacklist(blacklist)] + pair)[1..] == pair;
  }

  lemma {:induction false} StepAhead(cfg: Config, g: Gate, m: Message, now: real, saved: int)
    requires cfg.Usable() && saved <= g.offset
    ensures
      var r := Step(cfg, g, m, now);
      && WriteAhead(r.effects, saved, r.gate.offset) && SendsAtLeast(r.effects, g.offset + 1)
  {
    var o := g.offset + 1;
    hide Judge;
    match Judge(cfg, g, m, now)
    case Ignored =>
    case Tampered => AnnounceAhead(saved, o, now, Tamper(m.node, m.msgId), {});
    case Disallowed => AnnounceAhead(saved, o, now, Rogue(m.node, m.machineId, m.msgId), g.blacklist + {m.node});
    case Replayed(_, reason) => AnnounceAhead(saved, o, now, Replay(m.node, m.msgId, m.seqNo, reason), {});
    case Admitted(replay) =>
      hide Admit;
      AdmitAhead(cfg, g.(offset := o, replay := replay), m, now, saved);
  }

  // ---- Offsets are never reused ----

  ghost predicate SentInOrder(sent: seq<Sent>) {
    forall i, j :: 0 <= i < j < |sent| ==>
      && sent[i].output.offset <= sent[j].output.offset
      && sent[i].step <= sent[j].step
      && (sent[i].output.offset == sent[j].output.offset ==> sent[i].step == sent[j].step)
      && (sent[i].step == sent[j].step ==> sent[i].life == sent[j].life)
  }

  /** What was sent against the controller's current state. */
  ghost predicate SentBelow(s: System, x: Sent) {
    && x.output.offset <= s.savedOffset
    && x.step <= s.step
    && (x.step == s.step && s.pending != [] ==> x.life == s.life)
    && (x.step < s.step ==> SendsAtLeast(s.pending, x.output.offset + 1))
    && SendsAtLeast(s.pending, x.output.offset)
  }

  ghost predicate OffsetInv(s: System) {
    && s.savedOffset <= s.gate.offset
    && WriteAhead(s.pending, s.savedOffset, s.gate.offset)
    && SentInOrder(s.sent)
    && forall i :: 0 <= i < |s.sent| ==> SentBelow(s, s.sent[i])
  }

  lemma {:induction false} ReceiveKeepsOffsets(p: Plant, s: System, m: Message, now: real)
    requires p.Usable() && OffsetInv(s) && s.pending == []
    ensures OffsetInv(Next(p, s, Receive(m, now)))
  {
    var s' := Next(p, s, Receive(m, now));
    StepAhead(p.gate, s.gate, m, now, s.savedOffset);
    hide Step;
    WriteAheadSaved(s'.pending, s'.savedOffset, s'.gate.offset);
    forall i | 0 <= i < |s.sent| ensures SentBelow(s', s.sent[i]) {
      assert SentBelow(s, s.sent[i]);
    }
  }

  lemma {:induction false} PerformKeepsOffsets(s: System)
    requires OffsetInv(s) && s.pending != []
    ensures OffsetInv(PerformEffect(s))
  {
    var s' := PerformEffect(s);
    WriteAheadSaved(s'.pending, s'.savedOffset, s'.gate.offset);
    assert forall i :: 0 <= i < |s'.pending| ==> s'.pending[i] == s.pending[i + 1];
    forall i | 0 <= i < |s'.sent| ensures SentBelow(s', s'.sent[i]) {
      if i < |s.sent| { assert SentBelow(s, s.sent[i]); }
    }
    if s.pending[0].Send? {
      forall i | 0 <= i < |s.sent| ensures
          var x, y := s.sent[i], s'.sent[|s.sent|];
          && x.output.offset <= y.output.offset && x.step <= y.step
          && (x.output.offset == y.output.offset ==> x.step == y.step) && (x.step == y.step ==> x.life == y.life)
      {
        assert SentBelow(s, s.sent[i]);
        assert s.pending[0].Send?;
      }
    }
  }

  lemma {:induction false} NextKeepsOffsets(p: Plant, s: System, a: Action)
    requires p.Usable() && OffsetInv(s) && !a.Reset?
    ensures OffsetInv(Next(p, s, a))
  {
    if a.Receive? && s.pending == [] {
      ReceiveKeepsOffsets(p, s, a.m, a.now);
    } else if a.Perform? && s.pending != [] {
      PerformKeepsOffsets(s);
    } else {
      hide Step, EngineMove;
      var s' := Next(p, s, a);
      forall i | 0 <= i < |s'.sent| ensures SentBelow(s', s'.sent[i]) {
        assert SentBelow(s, s.sent[i]);
      }
    }
  }

  ghost predicate ResetFree(actions: seq<Action>) {
    forall a <- actions :: !a.Reset?
  }

  lemma {:induction false} RunKeepsOffsets(p: Plant, s: System, actions: seq<Action>)
    requires p.Usable() && OffsetInv(s) && ResetFree(actions)
    ensures OffsetInv(RunAll(p, s, actions))
    decreases |actions|
  {
    if actions != [] {
      assert actions[0] in actions;
      NextKeepsOffsets(p, s, actions[0]);
      hide Next, OffsetInv;
      RunKeepsOffsets(p, Next(p, s, actions[0]), actions[1..]);
    }
  }

  /**
    Crash-safe offsets.  In any run without an operator reset, offsets on the channel never
    fall; equal offsets come from one step of one lifetime, so a restarted controller uses
    only offsets above everything sent before it.
  */
  lemma {:induction false} OffsetsNeverReused(p: Plant, savedOffset: int, savedBlacklist: set<string>,
                                              actions: seq<Action>)
    requires p.Usable() && ResetFree(actions)
    ensures
      var sent := RunAll(p, Boot(savedOffset, savedBlacklist), actions).sent;
      forall i, j :: 0 <= i < j < |sent| ==>
        && sent[i].output.offset <= sent[j].output.offset
        && (sent[i].output.offset == sent[j].output.offset ==>
            sent[i].step == sent[j].step && sent[i].life == sent[j].life)
  {
    RunKeepsOffsets(p, Boot(savedOffset, savedBlacklist), actions);
  }

  // ---- When a restarted controller is safe, resets included ----

  /** The offset file is not behind what was sent. */
  ghost predicate Covers(s: System) {
    forall x <- s.sent :: x.output.offset <= s.savedOffset
  }

  /** Everything sent since s is above everything sent before. */
  ghost predicate SentAbove(s: System, t: System) {
    && s.sent <= t.sent
    && forall i, j :: 0 <= i < |s.sent| <= j < |t.sent| ==> s.sent[i].output.offset < t.sent[j].output.offset
  }

  /** The controller works above k, and what it has sent since s is above k. */
  ghost predicate Above(s: System, t: System, k: int) {
    && s.sent <= t.sent && k <= t.savedOffset <= t.gate.offset
    && SendsAtLeast(t.pending, k + 1) && WriteAhead(t.pending, t.savedOffset, t.gate.offset)
    && forall j :: |s.sent| <= j < |t.sent| ==> t.sent[j].output.offset > k
  }

  lemma {:induction false} NextAbove(p: Plant, s: System, t: System, a: Action, k: int)
    requires p.Usable() && Above(s, t, k) && !a.Reset?
    ensures Above(s, Next(p, t, a), k)
  {
    if a.Receive? && t.pending == [] {
      StepAhead(p.gate, t.gate, a.m, a.now, t.savedOffset);
      var t' := Next(p, t, a);
      hide Step;
      WriteAheadSaved(t'.pending, t'.savedOffset, t'.gate.offset);
    } else if a.Perform? && t.pending != [] {
      var t' := PerformEffect(t);
      WriteAheadSaved(t'.pending, t'.savedOffset, t'.gate.offset);
      assert forall i :: 0 <= i < |t'.pending| ==> t'.pending[i] == t.pending[i + 1];
      assert t.pending[0].Send? ==> t.pending[0].output.offset >= k + 1;
    } else {
      hide Step, EngineMove;
    }
  }

  lemma {:induction false} RunAbove(p: Plant, s: System, t: System, actions: seq<Action>, k: int)
    requires p.Usable() && Above(s, t, k) && ResetFree(actions)
    ensures Above(s, RunAll(p, t, actions), k)
    decreases |actions|
  {
    if actions != [] {
      assert actions[0] in actions;
      NextAbove(p, s, t, actions[0], k);
      hide Next, Above;
      RunAbove(p, s, Next(p, t, actions[0]), actions[1..], k);
    }
  }

  /** A message whose name is not listed makes the controller send, as its first output, the next offset. */
  lemma {:induction false} FirstSend(cfg: Config, g: Gate, m: Message, now: real)
    requires cfg.Usable() && m.node !in g.blacklist
    ensures
      var effects := Step(cfg, g, m, now).effects;
      && |effects| >= 2 && !effects[0].Send?
      && (if effects[1].Send? then effects[1].output.offset == g.offset + 1
          else |effects| >= 3 && effects[2].Send? && effects[2].output.offset == g.offset + 1)
  {
    hide ReplayGuard.Check, FloodGuard.Check;
  }

  lemma {:induction false} RunStep(p: Plant, s: System, actions: seq<Action>)
    requires p.Usable() && actions != []
    ensures RunAll(p, s, actions) == RunAll(p, Next(p, s, actions[0]), actions[1..])
  {
  }

  lemma {:induction false} RunFour(p: Plant, s: System, a: Action, b: Action, c: Action, d: Action)
    requires p.Usable()
    ensures RunAll(p, s, [a, b, c, d]) == Next(p, Next(p, Next(p, Next(p, s, a), b), c), d)
  {
    hide Next;
    var s1 := Next(p, s, a);
    var s2 := Next(p, s1, b);
    var s3 := Next(p, s2, c);
    RunStep(p, s, [a, b, c, d]);
    RunStep(p, s1, [b, c, d]);
    RunStep(p, s2, [c, d]);
    RunStep(p, s3, [d]);
    assert RunAll(p, Next(p, s3, d), []) == Next(p, s3, d);
  }

  /** A restarted controller sends the offset after the saved one first. */
  lemma {:induction false} FirstAfterRestart(p: Plant, s: System, m: Message, now: real)
    requires p.Usable() && m.node !in s.savedBlacklist
    ensures
      var t := RunAll(p, Next(p, s, ControllerCrash), [Receive(m, now), Perform, Perform, Perform]);
      s.sent <= t.sent && |s.sent| < |t.sent| && t.sent[|s.sent|].output.offset == s.savedOffset + 1
  {
    var r := Next(p, s, ControllerCrash);
    FirstSend(p.gate, r.gate, m, now);
    RunFour(p, r, Receive(m, now), Perform, Perform, Perform);
    var s1 := Next(p, r, Receive(m, now));
    hide Step, RunAll;
    var e := s1.pending;
    var s2 := Next(p, s1, Perform);
    assert s2.pending == e[1..] && s2.sent == s.sent;
    var s3 := Next(p, s2, Perform);
    assert s3.pending == e[2..];
    var s4 := Next(p, s3, Perform);
    assert e[1].Send? ==> s3.sent == s.sent + [Sent(s1.life, s1.step, e[1].output)];
    assert !e[1].Send? ==> s4.sent == s.sent + [Sent(s1.life, s1.step, e[2].output)];
    assert s3.sent <= s4.sent;
  }

  /**
    Exactly when a restart is safe.  Whatever happened before, resets included: a controller that restarts
    now sends only offsets above all sent so far, whatever happens until the next reset, iff the
    offset file is not behind them.
  */
  lemma {:induction false} FreshAfterRestartIff(p: Plant, s: System, m: Message, now: real)
    requires p.Usable() && m.node !in s.savedBlacklist
    ensures (forall after :: ResetFree(after) ==> SentAbove(s, RunAll(p, Next(p, s, ControllerCrash), after))) <==>
            Covers(s)
  {
    var r := Next(p, s, ControllerCrash);
    if Covers(s) {
      forall after | ResetFree(after) ensures SentAbove(s, RunAll(p, r, after)) {
        RunAbove(p, s, r, after, s.savedOffset);
        assert forall i :: 0 <= i < |s.sent| ==> s.sent[i] in s.sent;
      }
    } else {
      var i :| 0 <= i < |s.sent| && s.sent[i].output.offset > s.savedOffset;
      var after := [Receive(m, now), Perform, Perform, Perform];
      FirstAfterRestart(p, s, m, now);
      assert ResetFree(after) && !SentAbove(s, RunAll(p, r, after));
    }
  }

  /**
    A reset deletes the offset file: a restart after it is safe exactly if nothing with a positive offset was
    ever sent.
  */
  lemma {:induction false} ResetThenRestartFreshIff(p: Plant, s: System, m: Message, now: real)
    requires p.Usable() && m.node !in s.savedBlacklist
    ensures (forall after :: ResetFree(after) ==>
               SentAbove(s, RunAll(p, Next(p, Next(p, s, Reset), ControllerCrash), after)))
            <==> forall x <- s.sent :: x.output.offset <= 0
  {
    var s' := Next(p, s, Reset);
    FreshAfterRestartIff(p, s', m, now);
    assert s'.sent == s.sent && s'.savedOffset == 0;
    hide Next, RunAll;
    assert forall t :: SentAbove(s, t) <==> SentAbove(s', t);
  }

  /** An offset used again: one alert, a reset that restarts the controller, one more alert. */
  lemma {:induction false} ResetReusesOffset(p: Plant, m: Message)
    requires p.Usable() && !p.gate.verify(m)
    ensures
      var before := [Receive(m, 0.0), Perform, Perform, Perform];
      var s := RunAll(p, Boot(0, {}), before);
      var t := RunAll(p, Next(p, Next(p, s, Reset), ControllerCrash), before);
      && |t.sent| == 2 && t.sent[0].output.offset == t.sent[1].output.offset == 1
      && t.sent[0].life != t.sent[1].life && t.sent[0].step != t.sent[1].step
  {
    var boot := Boot(0, {});
    AlertRun(p, boot, m);
    var before := [Receive(m, 0.0), Perform, Perform, Perform];
    var s := RunAll(p, boot, before);
    var r := Next(p, Next(p, s, Reset), ControllerCrash);
    AlertRun(p, r, m);
    hide RunAll;
  }

  /** An unverifiable message in an idle controller: one alert with the next offset, saved first. */
  lemma {:induction false} AlertRun(p: Plant, s: System, m: Message)
    requires p.Usable() && !p.gate.verify(m) && s.pending == [] && m.node !in s.gate.blacklist
    ensures
      var t := RunAll(p, s, [Receive(m, 0.0), Perform, Perform, Perform]);
      var o := Output(s.gate.offset + 1, 0.0, Tamper(m.node, m.msgId));
      && t.sent == s.sent + [Sent(s.life, s.step + 1, o)] && t.savedOffset == t.gate.offset == s.gate.offset + 1
      && t.gate.blacklist == s.gate.blacklist && t.savedBlacklist == s.savedBlacklist
      && t.pending == [] && t.life == s.life && t.step == s.step + 1 && HalfOf(t) == HalfOf(s)
  {
    RunFour(p, s, Receive(m, 0.0), Perform, Perform, Perform);
    hide RunAll;
    var o := Output(s.gate.offset + 1, 0.0, Tamper(m.node, m.msgId));
    var s1 := Next(p, s, Receive(m, 0.0));
    assert s1.pending == [SaveOffset(o.offset), Send(o)];
    var s2 := Next(p, s1, Perform);
    assert s2.pending == [Send(o)];
    var s3 := Next(p, s2, Perform);
    assert s3.pending == [];
  }
}
