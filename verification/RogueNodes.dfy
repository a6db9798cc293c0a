/** The persisted blacklist: what a name outside the allowlist can still cause, across crashes and resets. */
module RogueNodes {
  import opened Common
  import opened SecureMessenger
  import opened Controller
  import opened Delivery
  import ReplayGuard

  predicate Denounces(o: Output, node: string) {
    o.notice.Rogue? && o.notice.node == node
  }

  /** The blacklist on disk only grows, stays within the one in memory, and is written before the alert. */
  ghost predicate ListedFirst(effects: seq<Effect>, saved: set<string>, known: set<string>) {
    if effects == [] then saved <= known
    else match effects[0]
      case SaveOffset(_) => ListedFirst(effects[1..], saved, known)
      case SaveBlacklist(b) => saved <= b && ListedFirst(effects[1..], b, known)
      case Send(out) => (out.notice.Rogue? ==> out.notice.node in saved) && ListedFirst(effects[1..], saved, known)
  }

  /** Pending effects hold at most one rogue alert, for a name none was sent for. */
  ghost predicate FreshAlerts(effects: seq<Effect>, sent: seq<Sent>) {
    && (forall i, j :: 0 <= i < j < |effects| && effects[i].Send? && effects[j].Send? ==>
          !(effects[i].output.notice.Rogue? && effects[j].output.notice.Rogue?))
    && (forall i, j :: 0 <= i < |effects| && effects[i].Send? && effects[i].output.notice.Rogue? && 0 <= j < |sent| ==>
          !Denounces(sent[j].output, effects[i].output.notice.node))
  }

  ghost predicate Once(sent: seq<Sent>) {
    forall i, j :: 0 <= i < j < |sent| && sent[i].output.notice.Rogue? ==>
      !Denounces(sent[j].output, sent[i].output.notice.node)
  }

  ghost predicate RogueInv(s: System) {
    && s.savedBlacklist <= s.gate.blacklist
    && ListedFirst(s.pending, s.savedBlacklist, s.gate.blacklist)
    && (forall i :: 0 <= i < |s.sent| && s.sent[i].output.notice.Rogue? ==>
        s.sent[i].output.notice.node in s.savedBlacklist)
    && FreshAlerts(s.pending, s.sent)
    && Once(s.sent)
  }

  lemma {:induction false} ListedWithin(effects: seq<Effect>, saved: set<string>, known: set<string>)
    requires ListedFirst(effects, saved, known)
    ensures saved <= known
  {
    if effects != [] {
      match effects[0]
      case SaveOffset(_) => ListedWithin(effects[1..], saved, known);
      case SaveBlacklist(b) => ListedWithin(effects[1..], b, known);
      case Send(_) => ListedWithin(effects[1..], saved, known);
    }
  }

  lemma {:induction false} PlainEffectsListed(effects: seq<Effect>, saved: set<string>, known: set<string>)
    requires saved <= known
    requires Plain(effects)
    ensures ListedFirst(effects, saved, known)
  {
    if effects != [] {
      PlainEffectsListed(effects[1..], saved, known);
    }
  }

  ghost predicate Plain(effects: seq<Effect>) {
    forall i :: 0 <= i < |effects| ==> effects[i].SaveOffset? || (effects[i].Send? && !effects[i].output.notice.Rogue?)
  }

  lemma {:induction false} AdmitIsPlain(cfg: Config, g: Gate, m: Message, now: real)
    ensures Plain(Admit(cfg, g, m, now).effects) && Admit(cfg, g, m, now).gate.blacklist == g.blacklist
  {
    hide FloodGuard.Check;
  }

  /**
    Only a disallowed name that is not yet listed changes the blacklist or raises a rogue alert, as the last
    effect.
  */
  ghost predicate Announces(cfg: Config, g: Gate, m: Message, r: Result) {
    if |r.effects| > 0 && r.effects[0].SaveBlacklist? then
      && cfg.Disallows(m.node) && m.node !in g.blacklist
      && r.gate.blacklist == g.blacklist + {m.node}
      && |r.effects| == 3 && r.effects[0].blacklist == r.gate.blacklist && r.effects[1].SaveOffset?
      && r.effects[2].Send?
      && Denounces(r.effects[2].output, m.node)
    else
      Plain(r.effects) && r.gate.blacklist == g.blacklist
  }

  lemma {:induction false} PlainAnnounces(cfg: Config, g: Gate, m: Message, r: Result)
    requires Plain(r.effects) && r.gate.blacklist == g.blacklist
    ensures Announces(cfg, g, m, r)
  {
    assert |r.effects| > 0 ==> !r.effects[0].SaveBlacklist?;
  }

  /** An alert that is not a rogue alert, with its offset saved first. */
  lemma {:induction false} AlertIsPlain(offset: int, now: real, notice: Notice)
    requires !notice.Rogue?
    ensures Plain(Announce(offset, now, notice))
  {
  }

  lemma {:induction false} RogueAnnounces(cfg: Config, g: Gate, m: Message, now: real)
    requires cfg.Disallows(m.node) && m.node !in g.blacklist
    ensures
      var known := g.blacklist + {m.node};
      var effects := [SaveBlacklist(known)] + Announce(g.offset + 1, now, Rogue(m.node, m.machineId, m.msgId));
      Announces(cfg, g, m, Result(g.(offset := g.offset + 1, blacklist := known), effects, false))
  {
    hide Plain;
  }

  lemma {:induction false} JudgedDisallowed(cfg: Config, g: Gate, m: Message, now: real)
    requires cfg.Usable()
    ensures Judge(cfg, g, m, now).Disallowed? ==> cfg.Disallows(m.node) && m.node !in g.blacklist
  {
    hide ReplayGuard.Check;
  }

  lemma {:induction false} StepAnnounces(cfg: Config, g: Gate, m: Message, now: real)
    requires cfg.Usable()
    ensures Announces(cfg, g, m, Step(cfg, g, m, now))
  {
    JudgedDisallowed(cfg, g, m, now);
    hide Judge, Admit, Announces, Announce, Plain;
    var o, r := g.offset + 1, Step(cfg, g, m, now);
    match Judge(cfg, g, m, now)
    case Ignored =>
      NothingIsPlain();
      PlainAnnounces(cfg, g, m, r);
    case Tampered =>
      AlertIsPlain(o, now, Tamper(m.node, m.msgId));
      PlainAnnounces(cfg, g, m, r);
    case Disallowed => RogueAnnounces(cfg, g, m, now);
    case Replayed(_, reason) =>
      AlertIsPlain(o, now, Replay(m.node, m.msgId, m.seqNo, reason));
      PlainAnnounces(cfg, g, m, r);
    case Admitted(replay) =>
      AdmitIsPlain(cfg, g.(offset := o, replay := replay), m, now);
      PlainAnnounces(cfg, g, m, r);
  }

  lemma {:induction false} NothingIsPlain()
    ensures Plain([])
  {
  }

  lemma {:induction false} AnnouncedIsListed(cfg: Config, g: Gate, m: Message, r: Result, saved: set<string>)
    requires Announces(cfg, g, m, r) && saved <= g.blacklist
    ensures ListedFirst(r.effects, saved, r.gate.blacklist)
  {
    if |r.effects| > 0 && r.effects[0].SaveBlacklist? {
      var tail := r.effects[1..];
      assert tail[1..][1..] == [];
      assert ListedFirst(tail[1..], r.gate.blacklist, r.gate.blacklist);
    } else {
      PlainEffectsListed(r.effects, saved, r.gate.blacklist);
    }
  }

  lemma {:induction false} ReceiveKeeps(p: Plant, s: System, m: Message, now: real)
    requires p.Usable() && RogueInv(s) && s.pending == []
    ensures RogueInv(Next(p, s, Receive(m, now)))
  {
    StepAnnounces(p.gate, s.gate, m, now);
    hide Step;
    AnnouncedIsListed(p.gate, s.gate, m, Step(p.gate, s.gate, m, now), s.savedBlacklist);
  }

  lemma {:induction false} PerformKeeps(s: System)
    requires RogueInv(s) && s.pending != []
    ensures RogueInv(PerformEffect(s))
  {
    var s' := PerformEffect(s);
    ListedWithin(s'.pending, s'.savedBlacklist, s'.gate.blacklist);
    assert forall i :: 0 <= i < |s'.pending| ==> s'.pending[i] == s.pending[i + 1];
  }

  lemma {:induction false} NextKeeps(p: Plant, s: System, a: Action)
    requires p.Usable() && RogueInv(s)
    ensures RogueInv(Next(p, s, a))
    ensures s.savedBlacklist <= Next(p, s, a).savedBlacklist
  {
    if a.Receive? && s.pending == [] {
      ReceiveKeeps(p, s, a.m, a.now);
      hide Step;
    } else if a.Perform? && s.pending != [] {
      PerformKeeps(s);
    } else {
      hide Step, EngineMove;
    }
  }

  lemma {:induction false} RunKeeps(p: Plant, s: System, actions: seq<Action>)
    requires p.Usable() && RogueInv(s)
    ensures RogueInv(RunAll(p, s, actions))
    ensures s.savedBlacklist <= RunAll(p, s, actions).savedBlacklist
    decreases |actions|
  {
    if actions != [] {
      NextKeeps(p, s, actions[0]);
      hide Next, RogueInv;
      RunKeeps(p, Next(p, s, actions[0]), actions[1..]);
    }
  }

  /** Each disallowed name gets at most one rogue alert, ever: over any crashes and resets. */
  lemma {:induction false} RogueAlertsOnce(p: Plant, savedOffset: int, savedBlacklist: set<string>,
                                           actions: seq<Action>)
    requires p.Usable()
    ensures Once(RunAll(p, Boot(savedOffset, savedBlacklist), actions).sent)
  {
    RunKeeps(p, Boot(savedOffset, savedBlacklist), actions);
  }

  /** Once the alert for a name is out, no later message of that name yields an output or an offset. */
  lemma {:induction false} SilentAfterAlert(p: Plant, savedOffset: int, savedBlacklist: set<string>,
                                            before: seq<Action>, i: nat, after: seq<Action>, m: Message, now: real)
    requires p.Usable()
    requires
      var s := RunAll(p, Boot(savedOffset, savedBlacklist), before);
      i < |s.sent| && Denounces(s.sent[i].output, m.node)
    ensures
      var s := RunAll(p, RunAll(p, Boot(savedOffset, savedBlacklist), before), after);
      var s' := Next(p, s, Receive(m, now));
      s.pending == [] ==> s'.gate == s.gate && s'.pending == []
  {
    var start := Boot(savedOffset, savedBlacklist);
    RunKeeps(p, start, before);
    RunKeeps(p, RunAll(p, start, before), after);
  }

  ghost predicate Apart(p: Plant, s: System) {
    s.gate.blacklist !! p.gate.allowed && RogueInv(s)
  }

  lemma {:induction false} NextKeepsApart(p: Plant, s: System, a: Action)
    requires p.Usable() && Apart(p, s)
    ensures Apart(p, Next(p, s, a))
  {
    NextKeeps(p, s, a);
    if a.Receive? {
      StepAnnounces(p.gate, s.gate, a.m, a.now);
    }
    hide Step, RogueInv, EngineMove;
    assert s.savedBlacklist <= s.gate.blacklist by { assert RogueInv(s); SavedWithin(s); }
  }

  lemma {:induction false} SavedWithin(s: System)
    requires RogueInv(s)
    ensures s.savedBlacklist <= s.gate.blacklist
  {
  }

  /** Blacklist and allowlist stay disjoint if they start so. */
  lemma {:induction false} ListsStayDisjoint(p: Plant, s: System, actions: seq<Action>)
    requires p.Usable() && Apart(p, s)
    ensures Apart(p, RunAll(p, s, actions))
    decreases |actions|
  {
    if actions != [] {
      NextKeepsApart(p, s, actions[0]);
      hide Next, Apart;
      ListsStayDisjoint(p, Next(p, s, actions[0]), actions[1..]);
    }
  }
}
