/** Whom the controller's outputs are about: the message that caused them, and what its node said before. */
module ControllerAlerts {
  import opened Common
  import opened SlidingWindow
  import opened SecureMessenger
  import opened Controller
  import opened ControllerRuns
  import EngineIntake
  import ReplayGuard
  import FloodGuard

  /** Everything the notice says about a message is true of this one. */
  ghost predicate Names(n: Notice, m: Message) {
    match n
    case Tamper(node, msgId) => node == m.node && msgId == m.msgId
    case Rogue(node, machineId, msgId) => node == m.node && machineId == m.machineId && msgId == m.msgId
    case Replay(node, msgId, seqNo, _) => node == m.node && msgId == m.msgId && seqNo == m.seqNo
    case Flood(node, _) => node == m.node
    case Impersonation(node, _, claimed) => node == m.node && claimed == m.machineId
    case Forwarded(x) => x == m.(hmac := "")
  }

  /** What the three rejecting checks and the forward send, one notice at a time. */
  lemma {:induction false} RejectNames(cfg: Config, g: Gate, m: Message, now: real)
    requires cfg.Usable() && !Step(cfg, g, m, now).passed
    ensures forall o <- Outputs(cfg, g, m, now) :: Names(o.notice, m) && o.at == now
  {
    hide ReplayGuard.Check, FloodGuard.Check;
    var o := g.offset + 1;
    match Judge(cfg, g, m, now)
    case Ignored =>
    case Tampered => SentPair(o, Output(o, now, Tamper(m.node, m.msgId)));
    case Disallowed =>
      var notice := Rogue(m.node, m.machineId, m.msgId);
      var effects := Step(cfg, g, m, now).effects;
      assert effects[1..] == Announce(o, now, notice);
      SentPair(o, Output(o, now, notice));
    case Replayed(_, reason) => SentPair(o, Output(o, now, Replay(m.node, m.msgId, m.seqNo, reason)));
    case Admitted(_) =>
  }

  /** Every output of a step is about the message the step was given: its node, and whatever else it names. */
  lemma {:induction false} OutputsName(cfg: Config, g: Gate, m: Message, now: real)
    requires cfg.Usable()
    ensures forall o <- Outputs(cfg, g, m, now) :: Names(o.notice, m) && o.at == now && EngineIntake.NodeOf(o) == m.node
  {
    if Step(cfg, g, m, now).passed {
      SentByPass(cfg, g, m, now);
    } else {
      RejectNames(cfg, g, m, now);
    }
    hide Step, Outputs, FloodGuard.Check;
  }

  /** cause[i] is the arrival that caused outs[i]: outputs keep the order of arrivals and are about nothing else. */
  ghost predicate Attributed(outs: seq<Output>, arrivals: seq<Arrival>, cause: seq<nat>) {
    && |cause| == |outs|
    && (forall i, j :: 0 <= i < j < |cause| ==> cause[i] <= cause[j])
    && forall i :: 0 <= i < |cause| ==> cause[i] < |arrivals| && Caused(outs[i], arrivals[cause[i]])
  }

  ghost predicate Caused(o: Output, a: Arrival) {
    Names(o.notice, a.item) && o.at == a.at && EngineIntake.NodeOf(o) == a.item.node
  }

  lemma {:induction false} AttributedNext(outs: seq<Output>, arrivals: seq<Arrival>, cause: seq<nat>, mine: seq<Output>,
                                          a: Arrival)
    returns (all: seq<nat>)
    requires Attributed(outs, arrivals, cause) && forall o <- mine :: Caused(o, a)
    ensures Attributed(mine + outs, [a] + arrivals, all)
  {
    hide Caused;
    all := seq(|mine| + |outs|, i requires 0 <= i < |mine| + |outs| => if i < |mine| then 0 else cause[i - |mine|] + 1);
    var sent := mine + outs;
    forall i | 0 <= i < |all| ensures all[i] < |arrivals| + 1 && Caused(sent[i], ([a] + arrivals)[all[i]]) {
      if i < |mine| {
        assert sent[i] in mine;
      } else {
        assert sent[i] == outs[i - |mine|] && ([a] + arrivals)[all[i]] == arrivals[cause[i - |mine|]];
      }
    }
  }

  /**
    Over a whole run every output is about one arrival, at its time, and the outputs come in the order of the
    arrivals.
  */
  lemma {:induction false} RunNames(cfg: Config, g: Gate, arrivals: seq<Arrival>)
    requires cfg.Usable()
    ensures exists cause :: Attributed(Run(cfg, g, arrivals).1, arrivals, cause)
    decreases |arrivals|
  {
    if arrivals == [] {
      assert Attributed(Run(cfg, g, arrivals).1, arrivals, []);
    } else {
      var a := arrivals[0];
      var g' := Step(cfg, g, a.item, a.at).gate;
      RunNames(cfg, g', arrivals[1..]);
      OutputsName(cfg, g, a.item, a.at);
      var outs, mine := Run(cfg, g', arrivals[1..]).1, Outputs(cfg, g, a.item, a.at);
      assert Run(cfg, g, arrivals).1 == mine + outs;
      assert forall o <- mine :: Caused(o, a);
      hide *;
      var cause :| Attributed(outs, arrivals[1..], cause);
      var all := AttributedNext(outs, arrivals[1..], cause, mine, a);
      assert [a] + arrivals[1..] == arrivals;
    }
  }

  // ---- Which machine id a node is known by ----

  /** The last machine id any of these messages gave for the node, if one gave any. */
  ghost function LastId(passed: seq<Arrival>, node: string): Option<string> {
    if passed == [] then None
    else
      var m := passed[|passed|-1].item;
      if m.node == node && m.machineId != "" then Some(m.machineId) else LastId(passed[..|passed|-1], node)
  }

  ghost predicate KnowsIds(g: Gate, passed: seq<Arrival>) {
    forall node :: LastId(passed, node) == if node in g.machineIds then Some(g.machineIds[node]) else None
  }

  lemma {:induction false} StepIds(cfg: Config, g: Gate, m: Message, now: real)
    requires cfg.Usable()
    ensures
      var r := Step(cfg, g, m, now);
      r.gate.machineIds == if r.passed && m.machineId != "" then g.machineIds[m.node := m.machineId] else g.machineIds
  {
    hide ReplayGuard.Check, FloodGuard.Check, FloodAlertDue, IdentityChanged;
  }

  lemma {:induction false} KnowsNext(cfg: Config, g: Gate, passed: seq<Arrival>, a: Arrival)
    requires cfg.Usable() && KnowsIds(g, passed)
    ensures
      var r := Step(cfg, g, a.item, a.at);
      KnowsIds(r.gate, passed + if r.passed then [a] else [])
  {
    StepIds(cfg, g, a.item, a.at);
    var r := Step(cfg, g, a.item, a.at);
    assert (passed + [a])[..|passed|] == passed && passed + [] == passed;
    hide Step;
    forall node
      ensures LastId(passed + if r.passed then [a] else [], node)
              == if node in r.gate.machineIds then Some(r.gate.machineIds[node]) else None
    {
      assert LastId(passed, node) == if node in g.machineIds then Some(g.machineIds[node]) else None;
    }
  }

  lemma {:induction false} RunKnows(cfg: Config, g: Gate, passed: seq<Arrival>, arrivals: seq<Arrival>)
    requires cfg.Usable() && KnowsIds(g, passed)
    ensures KnowsIds(Run(cfg, g, arrivals).0, passed + Kept(cfg, g, arrivals))
    decreases |arrivals|
  {
    if arrivals == [] {
      assert passed + Kept(cfg, g, arrivals) == passed;
    } else {
      var r := Step(cfg, g, arrivals[0].item, arrivals[0].at);
      var here := if r.passed then [arrivals[0]] else [];
      KnowsNext(cfg, g, passed, arrivals[0]);
      hide Step, Outputs, KnowsIds;
      RunKnows(cfg, r.gate, passed + here, arrivals[1..]);
      ConcatAssociates(passed, here, Kept(cfg, r.gate, arrivals[1..]));
    }
  }

  /**
    When an impersonation alert is raised.  After any arrivals, a message raises one iff it passes, gives a machine
    id, and the last message of its node that passed with a machine id gave another one; the alert names
    both.  Messages that were rejected, and messages without a machine id, play no part.
  */
  lemma {:induction false} ImpersonationIff(cfg: Config, offset: int, blacklist: set<string>, arrivals: seq<Arrival>,
                                            m: Message, now: real, known: string)
    requires cfg.Usable()
    ensures
      var start := Booted(offset, blacklist);
      var g := Run(cfg, start, arrivals).0;
      (exists o :: o in Outputs(cfg, g, m, now) && o.notice == Impersonation(m.node, known, m.machineId))
      <==> Step(cfg, g, m, now).passed && m.machineId != "" && known != m.machineId
           && LastId(Kept(cfg, start, arrivals), m.node) == Some(known)
  {
    var start := Booted(offset, blacklist);
    var g := Run(cfg, start, arrivals).0;
    var kept := Kept(cfg, start, arrivals);
    RunKnows(cfg, start, [], arrivals);
    assert [] + kept == kept;
    assert LastId(kept, m.node) == if m.node in g.machineIds then Some(g.machineIds[m.node]) else None;
    ImpersonationInStep(cfg, g, m, now, known);
    hide Step, Outputs, Run, Kept, KnowsIds, LastId;
  }

  lemma {:induction false} ImpersonationInStep(cfg: Config, g: Gate, m: Message, now: real, known: string)
    requires cfg.Usable()
    ensures
      (exists o :: o in Outputs(cfg, g, m, now) && o.notice == Impersonation(m.node, known, m.machineId))
      <==> Step(cfg, g, m, now).passed && IdentityChanged(g, m) && known == g.machineIds[m.node]
  {
    if Step(cfg, g, m, now).passed {
      SentByPass(cfg, g, m, now);
      hide Step, Outputs, FloodGuard.Check;
      if IdentityChanged(g, m) { assert IdentityOutput(g, m, now)[0] in Outputs(cfg, g, m, now); }
    } else {
      SentByReject(cfg, g, m, now);
      hide Step, Outputs;
    }
  }
}
