/** The controller: one gate step per received message, with its effects in order. */
module Controller {
  import opened Common
  import opened SlidingWindow
  import opened SecureMessenger
  import ReplayGuard
  import FloodGuard

  datatype Notice =
    | Tamper(node: string, msgId: string)
    | Rogue(node: string, machineId: string, msgId: string)
    | Replay(node: string, msgId: string, seqNo: int, reason: ReplayGuard.Verdict)
    | Flood(node: string, count: nat)
    | Impersonation(node: string, known: string, claimed: string)
    | Forwarded(message: Message)

  /** What goes to the risk engine: an alert or a validated message, with its offset. */
  datatype Output = Output(offset: int, at: real, notice: Notice)

  /** What a step does to the outside world; a crash can fall between any two of these. */
  datatype Effect =
    | SaveOffset(offset: int)
    | SaveBlacklist(blacklist: set<string>)
    | Send(output: Output)

  /** An empty allowlist allows every node. */
  datatype Config = Config(
    allowed: set<string>,
    floodMax: int,
    limits: ReplayGuard.Limits,
    verify: Message -> bool)
  {
    predicate Usable() { limits.Usable() }
    predicate Disallows(node: string) { allowed != {} && node !in allowed }
  }

  /** The controller's memory. */
  datatype Gate = Gate(
    offset: int,
    blacklist: set<string>,
    replay: ReplayGuard.Memory,
    flood: FloodGuard.Times,
    floodAlerted: map<string, real>,
    machineIds: map<string, string>)

  function Booted(offset: int, blacklist: set<string>): Gate {
    Gate(offset, blacklist, ReplayGuard.BLANK, map[], map[], map[])
  }

  datatype Result = Result(gate: Gate, effects: seq<Effect>, passed: bool)

  function EnvelopeOf(m: Message): ReplayGuard.Envelope {
    ReplayGuard.Envelope(m.node, m.msgId, m.seqNo, m.sentAt)
  }

  function Announce(offset: int, now: real, notice: Notice): seq<Effect> {
    [SaveOffset(offset), Send(Output(offset, now, notice))]
  }

  const FLOOD_SILENCE := 60.0

  predicate FloodAlertDue(g: Gate, node: string, now: real) {
    now - Lookup(g.floodAlerted, node, 0.0) >= FLOOD_SILENCE
  }

  predicate IdentityChanged(g: Gate, m: Message) {
    m.machineId != "" && m.node in g.machineIds && g.machineIds[m.node] != m.machineId
  }

  /** What follows the three rejecting checks; the offset has been advanced. */
  function Admit(cfg: Config, g: Gate, m: Message, now: real): Result {
    var (flood, flooding, count) := FloodGuard.Check(cfg.floodMax, g.flood, m.node, now);
    var alarm := flooding && FloodAlertDue(g, m.node, now);
    var changed := IdentityChanged(g, m);
    var last := if changed then g.offset + 1 else g.offset;
    var floodEffects := if alarm then Announce(g.offset, now, Flood(m.node, count)) else [];
    var identityEffects :=
      if changed then
        [SaveOffset(last), Send(Output(g.offset, now, Impersonation(m.node, g.machineIds[m.node], m.machineId)))]
      else [];
    Result(
      g.(offset := last,
         flood := flood,
         floodAlerted := if alarm then g.floodAlerted[m.node := now] else g.floodAlerted,
         machineIds := if m.machineId != "" then g.machineIds[m.node := m.machineId] else g.machineIds),
      floodEffects + identityEffects + Announce(last, now, Forwarded(m.(hmac := ""))),
      true)
  }

  /** The outcome of the rejecting checks, in their order, with what the replay guard then remembers. */
  datatype Judgement =
    | Ignored
    | Tampered
    | Disallowed
    | Replayed(replay: ReplayGuard.Memory, reason: ReplayGuard.Verdict)
    | Admitted(replay: ReplayGuard.Memory)

  function Judge(cfg: Config, g: Gate, m: Message, now: real): Judgement
    requires cfg.Usable()
  {
    if m.node in g.blacklist then Ignored
    else if !cfg.verify(m) then Tampered
    else if cfg.Disallows(m.node) then Disallowed
    else
      var (replay, verdict) := ReplayGuard.Check(cfg.limits, g.replay, EnvelopeOf(m), now);
      if verdict.Accepted? then Admitted(replay) else Replayed(replay, verdict)
  }

  /** One received message. */
  function Step(cfg: Config, g: Gate, m: Message, now: real): Result
    requires cfg.Usable()
  {
    var o := g.offset + 1;
    match Judge(cfg, g, m, now)
    case Ignored => Result(g, [], false)
    case Tampered => Result(g.(offset := o), Announce(o, now, Tamper(m.node, m.msgId)), false)
    case Disallowed =>
      Result(g.(offset := o, blacklist := g.blacklist + {m.node}),
             [SaveBlacklist(g.blacklist + {m.node})] + Announce(o, now, Rogue(m.node, m.machineId, m.msgId)), false)
    case Replayed(replay, reason) =>
      Result(g.(offset := o, replay := replay), Announce(o, now, Replay(m.node, m.msgId, m.seqNo, reason)), false)
    case Admitted(replay) => Admit(cfg, g.(offset := o, replay := replay), m, now)
  }

  /** The running controller; `effects` is everything it has done to the outside world. */
  class Controller {
    const cfg: Config
    const replayGuard: ReplayGuard.Guard
    const floodGuard: FloodGuard.Guard
    var offset: int
    var blacklist: set<string>
    var floodAlerted: map<string, real>
    var machineIds: map<string, string>
    var effects: seq<Effect>

    ghost predicate Valid()
      reads this
    {
      cfg.Usable() && replayGuard.limits == cfg.limits && floodGuard.maximum == cfg.floodMax
    }

    ghost function View(): Gate
      reads this, replayGuard, floodGuard
    {
      Gate(offset, blacklist, replayGuard.View(), floodGuard.times, floodAlerted, machineIds)
    }

    /** A start, or a restart from what was persisted. */
    constructor (cfg: Config, savedOffset: int, savedBlacklist: set<string>)
      requires cfg.Usable()
      ensures Valid() && View() == Booted(savedOffset, savedBlacklist)
      ensures this.cfg == cfg && effects == [] && fresh(replayGuard) && fresh(floodGuard)
    {
      this.cfg := cfg;
      replayGuard := new ReplayGuard.Guard(cfg.limits);
      floodGuard := new FloodGuard.Guard(cfg.floodMax);
      offset, blacklist := savedOffset, savedBlacklist;
      floodAlerted, machineIds, effects := map[], map[], [];
    }

    method Emit(savedOffset: int, output: Output)
      modifies this`effects
      ensures effects == old(effects) + [SaveOffset(savedOffset), Send(output)]
    {
      effects := effects + [SaveOffset(savedOffset)];
      effects := effects + [Send(output)];
    }

    method Handle(m: Message, now: real) returns (passed: bool)
      requires Valid()
      modifies this, replayGuard, floodGuard
      ensures Valid()
      ensures
        var r := Step(cfg, old(View()), m, now);
        View() == r.gate && effects == old(effects) + r.effects && passed == r.passed
    {
      if m.node in blacklist {
        return false;
      }
      offset := offset + 1;
      if !cfg.verify(m) {
        Emit(offset, Output(offset, now, Tamper(m.node, m.msgId)));
        return false;
      }
      if cfg.Disallows(m.node) {
        blacklist := blacklist + {m.node};
        effects := effects + [SaveBlacklist(blacklist)];
        Emit(offset, Output(offset, now, Rogue(m.node, m.machineId, m.msgId)));
        return false;
      }
      var verdict := replayGuard.Inspect(EnvelopeOf(m), now);
      if !verdict.Accepted? {
        Emit(offset, Output(offset, now, Replay(m.node, m.msgId, m.seqNo, verdict)));
        return false;
      }
      AdmitMessage(m, now);
      return true;
    }

    method AdmitMessage(m: Message, now: real)
      requires Valid()
      modifies this, floodGuard
      ensures Valid()
      ensures
        var r := Admit(cfg, old(View()), m, now);
        View() == r.gate && effects == old(effects) + r.effects
    {
      hide FloodGuard.Check;
      var flooding, count := floodGuard.Inspect(m.node, now);
      AlertFlood(m.node, flooding, count, now);
      TrackIdentity(m, now);
      Emit(offset, Output(offset, now, Forwarded(m.(hmac := ""))));
    }

    /** At most one flood alert a minute for a node. */
    method AlertFlood(node: string, flooding: bool, count: nat, now: real)
      modifies this`floodAlerted, this`effects
      ensures
        if flooding && now - Lookup(old(floodAlerted), node, 0.0) >= FLOOD_SILENCE then
          && floodAlerted == old(floodAlerted)[node := now]
          && effects == old(effects) + Announce(offset, now, Flood(node, count))
        else floodAlerted == old(floodAlerted) && effects == old(effects)
    {
      if flooding && now - Lookup(floodAlerted, node, 0.0) >= FLOOD_SILENCE {
        floodAlerted := floodAlerted[node := now];
        Emit(offset, Output(offset, now, Flood(node, count)));
      }
    }

    /** Remember the machine id; a change raises an alert and takes an offset of its own. */
    method TrackIdentity(m: Message, now: real)
      modifies this`offset, this`machineIds, this`effects
      ensures machineIds == if m.machineId != "" then old(machineIds)[m.node := m.machineId] else old(machineIds)
      ensures
        if m.machineId != "" && m.node in old(machineIds) && old(machineIds)[m.node] != m.machineId then
          && offset == old(offset) + 1
          && effects == old(effects) + [SaveOffset(offset),
               Send(Output(old(offset), now, Impersonation(m.node, old(machineIds)[m.node], m.machineId)))]
        else
          offset == old(offset) && effects == old(effects)
    {
      if m.machineId != "" {
        if m.node !in machineIds {
          machineIds := machineIds[m.node := m.machineId];
        } else if machineIds[m.node] != m.machineId {
          var alert := Output(offset, now, Impersonation(m.node, machineIds[m.node], m.machineId));
          machineIds := machineIds[m.node := m.machineId];
          offset := offset + 1;
          Emit(offset, alert);
        } else {
          assert machineIds == machineIds[m.node := m.machineId];
        }
      }
    }
  }
}
