/** Whole runs of the controller, and pairs of runs. */
module ControllerRuns {
  import opened Common
  import opened SlidingWindow
  import opened SecureMessenger
  import opened Controller
  import ReplayGuard
  import FloodGuard

  type Arrival = Stamped<Message>

  function Sent(effects: seq<Effect>): seq<Output> {
    if effects == [] then []
    else (if effects[0].Send? then [effects[0].output] else []) + Sent(effects[1..])
  }

  /** What one step sends. */
  function Outputs(cfg: Config, g: Gate, m: Message, now: real): seq<Output>
    requires cfg.Usable()
  {
    Sent(Step(cfg, g, m, now).effects)
  }

  /** The final memory and everything sent, for one controller lifetime without a crash. */
  function Run(cfg: Config, g: Gate, arrivals: seq<Arrival>): (Gate, seq<Output>)
    requires cfg.Usable()
    decreases |arrivals|
  {
    if arrivals == [] then (g, [])
    else
      var a := arrivals[0];
      var (last, outputs) := Run(cfg, Step(cfg, g, a.item, a.at).gate, arrivals[1..]);
      (last, Outputs(cfg, g, a.item, a.at) + outputs)
  }

  /** The arrivals that no check rejects. */
  function Kept(cfg: Config, g: Gate, arrivals: seq<Arrival>): seq<Arrival>
    requires cfg.Usable()
    decreases |arrivals|
  {
    if arrivals == [] then []
    else
      var r := Step(cfg, g, arrivals[0].item, arrivals[0].at);
      (if r.passed then [arrivals[0]] else []) + Kept(cfg, r.gate, arrivals[1..])
  }

  predicate Passing(o: Output) {
    o.notice.Forwarded? || o.notice.Flood? || o.notice.Impersonation?
  }

  /** Forwarded messages, flood alerts and impersonation alerts, without their offsets. */
  function Contents(outputs: seq<Output>): seq<(real, Notice)> {
    if outputs == [] then []
    else (if Passing(outputs[0]) then [(outputs[0].at, outputs[0].notice)] else []) + Contents(outputs[1..])
  }

  lemma {:induction false} ContentsConcat(a: seq<Output>, b: seq<Output>)
    ensures Contents(a + b) == Contents(a) + Contents(b)
  {
    hide Passing;
    if a == [] {
      assert a + b == b;
    } else {
      ContentsConcat(a[1..], b);
      assert (a + b)[1..] == a[1..] + b;
    }
  }

  lemma {:induction false} SentConcat(a: seq<Effect>, b: seq<Effect>)
    ensures Sent(a + b) == Sent(a) + Sent(b)
  {
    if a == [] {
      assert a + b == b;
    } else {
      var s := a + b;
      assert s[0] == a[0] && s[1..] == a[1..] + b;
      SentConcat(a[1..], b);
    }
  }

  lemma {:induction false} SentPair(saved: int, out: Output)
    ensures Sent([SaveOffset(saved), Send(out)]) == [out]
  {
    var pair := [SaveOffset(saved), Send(out)];
    assert pair[1..] == [Send(out)] && pair[1..][1..] == [];
    assert Sent(pair[1..]) == [out] + Sent(pair[1..][1..]);
  }

  /** The flood alert of an admitted message, if one is due. */
  function FloodOutput(cfg: Config, g: Gate, m: Message, now: real): seq<Output> {
    var (_, flooding, count) := FloodGuard.Check(cfg.floodMax, g.flood, m.node, now);
    if flooding && FloodAlertDue(g, m.node, now) then [Output(g.offset + 1, now, Flood(m.node, count))] else []
  }

  function IdentityOutput(g: Gate, m: Message, now: real): seq<Output> {
    if IdentityChanged(g, m) then
      [Output(g.offset + 1, now, Impersonation(m.node, g.machineIds[m.node], m.machineId))]
    else []
  }

  function ForwardOutput(g: Gate, m: Message, now: real): Output {
    Output(if IdentityChanged(g, m) then g.offset + 2 else g.offset + 1, now, Forwarded(m.(hmac := "")))
  }

  /** Everything a passing step sends, and what it remembers. */
  lemma {:induction false} SentByPass(cfg: Config, g: Gate, m: Message, now: real)
    requires cfg.Usable() && Step(cfg, g, m, now).passed
    ensures
      var r := Step(cfg, g, m, now);
      && Outputs(cfg, g, m, now) == FloodOutput(cfg, g, m, now) + IdentityOutput(g, m, now) + [ForwardOutput(g, m, now)]
      && r.gate.offset == ForwardOutput(g, m, now).offset
      && r.gate.floodAlerted ==
         (if FloodOutput(cfg, g, m, now) != [] then g.floodAlerted[m.node := now] else g.floodAlerted)
      && r.gate.replay == ReplayGuard.Check(cfg.limits, g.replay, EnvelopeOf(m), now).0
      && ReplayGuard.Check(cfg.limits, g.replay, EnvelopeOf(m), now).1.Accepted?
  {
    var replay := ReplayGuard.Check(cfg.limits, g.replay, EnvelopeOf(m), now).0;
    var r := Step(cfg, g, m, now);
    assert r == Admit(cfg, g.(offset := g.offset + 1, replay := replay), m, now);
    hide Step, ReplayGuard.Check, FloodGuard.Check;
    var (_, flooding, count) := FloodGuard.Check(cfg.floodMax, g.flood, m.node, now);
    var o, last := g.offset + 1, r.gate.offset;
    var flood := Output(o, now, Flood(m.node, count));
    var claim :=
      if IdentityChanged(g, m) then Impersonation(m.node, g.machineIds[m.node], m.machineId) else flood.notice;
    var identity := Output(o, now, claim);
    var a := if flooding && FloodAlertDue(g, m.node, now) then [SaveOffset(o), Send(flood)] else [];
    var b := if IdentityChanged(g, m) then [SaveOffset(last), Send(identity)] else [];
    var c := [SaveOffset(last), Send(ForwardOutput(g, m, now))];
    assert r.effects == a + b + c;
    SentConcat(a + b, c);
    SentConcat(a, b);
    SentPair(o, flood);
    SentPair(last, identity);
    SentPair(last, ForwardOutput(g, m, now));
  }

  /** A rejected message costs one alert, which names the first check it failed, or none if its name is blacklisted. */
  lemma {:induction false} SentByReject(cfg: Config, g: Gate, m: Message, now: real)
    requires cfg.Usable() && !Step(cfg, g, m, now).passed
    ensures
      var out := Outputs(cfg, g, m, now);
      if m.node in g.blacklist then out == []
      else
        && |out| == 1 && out[0].offset == g.offset + 1 == Step(cfg, g, m, now).gate.offset
        && out[0].at == now && !Passing(out[0])
        && (out[0].notice.Tamper? <==> !cfg.verify(m))
        && (out[0].notice.Rogue? <==> cfg.verify(m) && cfg.Disallows(m.node))
        && (out[0].notice.Rogue? ==> out[0].notice.node == m.node)
        && (out[0].notice.Replay? ==>
            out[0].notice.reason == ReplayGuard.Check(cfg.limits, g.replay, EnvelopeOf(m), now).1)
    ensures Step(cfg, g, m, now).gate.floodAlerted == g.floodAlerted
    ensures g.offset <= Step(cfg, g, m, now).gate.offset
  {
    var o := g.offset + 1;
    var effects := Step(cfg, g, m, now).effects;
    var notice :=
      if !cfg.verify(m) then Tamper(m.node, m.msgId)
      else if cfg.Disallows(m.node) then Rogue(m.node, m.machineId, m.msgId)
      else Replay(m.node, m.msgId, m.seqNo, ReplayGuard.Check(cfg.limits, g.replay, EnvelopeOf(m), now).1);
    SentPair(o, Output(o, now, notice));
    if m.node !in g.blacklist && cfg.verify(m) && cfg.Disallows(m.node) {
      assert effects[1..] == Announce(o, now, notice);
    }
  }

  // ---- Rejection erasure ----

  /** Two queues of recently seen ids that no later check can tell apart. */
  ghost predicate Alike(q: seq<Stamped<ReplayGuard.Seen>>, p: seq<Stamped<ReplayGuard.Seen>>, maxAge: real,
                        clock: real) {
    Agrees(q, p, maxAge, clock) && Ordered(p)
  }

  ghost predicate QueuesAlike(s: ReplayGuard.Memory, e: ReplayGuard.Memory, node: string, maxAge: real, clock: real) {
    Alike(Lookup(s.seen, node, []), Lookup(e.seen, node, []), maxAge, clock)
  }

  ghost predicate MemoriesAlike(s: ReplayGuard.Memory, e: ReplayGuard.Memory, maxAge: real, clock: real) {
    s.lastSeq == e.lastSeq && forall node :: QueuesAlike(s, e, node, maxAge, clock)
  }

  /** s has seen the rejected messages, e has not. */
  ghost predicate Simulates(cfg: Config, s: Gate, e: Gate, clock: real) {
    && e.blacklist <= s.blacklist
    && MemoriesAlike(s.replay, e.replay, cfg.limits.maxAge, clock)
    && s.flood == e.flood && s.floodAlerted == e.floodAlerted && s.machineIds == e.machineIds
  }

  lemma {:induction false} AlikeEvicted(q: seq<Stamped<ReplayGuard.Seen>>, p: seq<Stamped<ReplayGuard.Seen>>,
                                        maxAge: real, now: real)
    requires Alike(q, p, maxAge, now)
    ensures Evict(q, now - maxAge) == Evict(p, now - maxAge)
    ensures Alike(Evict(q, now - maxAge), p, maxAge, now)
  {
    AgreesQuery(q, p, maxAge, now);
    AgreesEvict(q, p, maxAge, now);
    var k := EvictIsSince(p, now - maxAge);
  }

  lemma {:induction false} SimulatesLater(cfg: Config, s: Gate, e: Gate, clock: real, later: real)
    requires Simulates(cfg, s, e, clock) && clock <= later
    ensures Simulates(cfg, s, e, later)
  {
    var a := cfg.limits.maxAge;
    forall node ensures QueuesAlike(s.replay, e.replay, node, a, later) {
      assert QueuesAlike(s.replay, e.replay, node, a, clock);
      AgreesLater(Lookup(s.replay.seen, node, []), Lookup(e.replay.seen, node, []), a, clock, later);
    }
  }

  /** The erased run's memory after a check: only an accepted envelope reaches it. */
  ghost function Mirrored(l: ReplayGuard.Limits, e: ReplayGuard.Memory, v: ReplayGuard.Envelope, now: real,
                          accepted: bool): ReplayGuard.Memory
    requires l.Usable()
  {
    if accepted then ReplayGuard.Check(l, e, v, now).0 else e
  }

  lemma {:induction false} DeduplicateAlike(l: ReplayGuard.Limits, q: seq<Stamped<ReplayGuard.Seen>>,
                                            p: seq<Stamped<ReplayGuard.Seen>>, v: ReplayGuard.Envelope, now: real)
    requires l.Usable() && Alike(q, p, l.maxAge, now)
    ensures
      var (q', unseen) := ReplayGuard.Deduplicate(l, q, v, now);
      var (p', unseen') := ReplayGuard.Deduplicate(l, p, v, now);
      unseen == unseen' && Alike(q', if unseen then p' else p, l.maxAge, now)
  {
    AlikeEvicted(q, p, l.maxAge, now);
    if ReplayGuard.Deduplicate(l, q, v, now).1 {
      AppendedAlike(Evict(q, now - l.maxAge), l, v, now);
    }
  }

  lemma {:induction false} CheckAlikeNode(l: ReplayGuard.Limits, s: ReplayGuard.Memory, e: ReplayGuard.Memory,
                                          v: ReplayGuard.Envelope, now: real)
    requires l.Usable() && s.lastSeq == e.lastSeq && QueuesAlike(s, e, v.node, l.maxAge, now)
    ensures ReplayGuard.Check(l, s, v, now).1 == ReplayGuard.Check(l, e, v, now).1
    ensures
      var (s', verdict) := ReplayGuard.Check(l, s, v, now);
      QueuesAlike(s', Mirrored(l, e, v, now, verdict.Accepted?), v.node, l.maxAge, now)
  {
    hide Alike, ReplayGuard.Deduplicate, ReplayGuard.Exempt;
    if ReplayGuard.Fresh(v.sentAt, now, l.maxAge) {
      if ReplayGuard.Exempt(v.node) || v.seqNo > Lookup(s.lastSeq, v.node, -1) {
        DeduplicateAlike(l, Lookup(s.seen, v.node, []), Lookup(e.seen, v.node, []), v, now);
      }
    }
  }

  lemma {:induction false} CheckFrame(l: ReplayGuard.Limits, m: ReplayGuard.Memory, v: ReplayGuard.Envelope, now: real,
                                      node: string)
    requires l.Usable() && node != v.node
    ensures Lookup(ReplayGuard.Check(l, m, v, now).0.seen, node, []) == Lookup(m.seen, node, [])
  {
    hide ReplayGuard.Deduplicate, ReplayGuard.Exempt;
  }

  /** The replay guard answers alike on both sides, and leaves both sides alike. */
  lemma {:induction false} CheckAlike(l: ReplayGuard.Limits, s: ReplayGuard.Memory, e: ReplayGuard.Memory,
                                      v: ReplayGuard.Envelope, now: real)
    requires l.Usable() && MemoriesAlike(s, e, l.maxAge, now)
    ensures ReplayGuard.Check(l, s, v, now).1 == ReplayGuard.Check(l, e, v, now).1
    ensures
      var (s', verdict) := ReplayGuard.Check(l, s, v, now);
      MemoriesAlike(s', Mirrored(l, e, v, now, verdict.Accepted?), l.maxAge, now)
  {
    var (s', verdict) := ReplayGuard.Check(l, s, v, now);
    var e' := Mirrored(l, e, v, now, verdict.Accepted?);
    hide Alike, ReplayGuard.Deduplicate, ReplayGuard.Exempt;
    assert QueuesAlike(s, e, v.node, l.maxAge, now);
    CheckAlikeNode(l, s, e, v, now);
    assert s'.lastSeq == e'.lastSeq;
    hide ReplayGuard.Check;
    forall node ensures QueuesAlike(s', e', node, l.maxAge, now) {
      assert QueuesAlike(s, e, node, l.maxAge, now);
      if node != v.node {
        CheckFrame(l, s, v, now, node);
        CheckFrame(l, e, v, now, node);
      }
    }
  }

  lemma {:induction false} AppendedAlike(kept: seq<Stamped<ReplayGuard.Seen>>, l: ReplayGuard.Limits,
                                         v: ReplayGuard.Envelope, now: real)
    requires l.Usable() && Ordered(kept) && UpTo(kept, now)
    ensures
      var room := if |kept| >= l.window then kept[1..] else kept;
      var q := room + [Stamped(now, ReplayGuard.Seen(v.msgId, v.seqNo))];
      Alike(q, q, l.maxAge, now)
  {
  }

  lemma {:induction false} RejectSimulates(cfg: Config, s: Gate, e: Gate, m: Message, now: real)
    requires cfg.Usable() && Simulates(cfg, s, e, now) && !Step(cfg, s, m, now).passed
    ensures Simulates(cfg, Step(cfg, s, m, now).gate, e, now)
    ensures Contents(Outputs(cfg, s, m, now)) == []
  {
    CheckAlike(cfg.limits, s.replay, e.replay, EnvelopeOf(m), now);
    SentByReject(cfg, s, m, now);
    hide ReplayGuard.Check;
    assert Simulates(cfg, Step(cfg, s, m, now).gate, e, now);
    var out := Outputs(cfg, s, m, now);
    hide Step, Outputs, ReplayGuard.Exempt;
    assert out != [] ==> out[1..] == [];
  }

  lemma {:induction false} PassSimulates(cfg: Config, s: Gate, e: Gate, m: Message, now: real)
    requires cfg.Usable() && Simulates(cfg, s, e, now) && Step(cfg, s, m, now).passed
    ensures Step(cfg, e, m, now).passed
    ensures Simulates(cfg, Step(cfg, s, m, now).gate, Step(cfg, e, m, now).gate, now)
  {
    CheckAlike(cfg.limits, s.replay, e.replay, EnvelopeOf(m), now);
    hide ReplayGuard.Check, FloodGuard.Check, Announce, MemoriesAlike;
  }

  /** The contents of a passing step's outputs depend on nothing but the compared fields. */
  lemma {:induction false} PassContents(cfg: Config, g: Gate, m: Message, now: real)
    requires cfg.Usable() && Step(cfg, g, m, now).passed
    ensures Contents(Outputs(cfg, g, m, now)) ==
            Contents(FloodOutput(cfg, g, m, now)) + Contents(IdentityOutput(g, m, now))
            + [(now, Forwarded(m.(hmac := "")))]
  {
    SentByPass(cfg, g, m, now);
    hide Step, Outputs, FloodGuard.Check, FloodOutput, IdentityOutput;
    var f, i, last := FloodOutput(cfg, g, m, now), IdentityOutput(g, m, now), [ForwardOutput(g, m, now)];
    ContentsConcat(f + i, last);
    ContentsConcat(f, i);
    assert last[1..] == [];
  }

  lemma {:induction false} PassSendsAlike(cfg: Config, s: Gate, e: Gate, m: Message, now: real)
    requires cfg.Usable() && Simulates(cfg, s, e, now)
    requires Step(cfg, s, m, now).passed && Step(cfg, e, m, now).passed
    ensures Contents(Outputs(cfg, s, m, now)) == Contents(Outputs(cfg, e, m, now))
  {
    PassContents(cfg, s, m, now);
    PassContents(cfg, e, m, now);
    hide Step, Outputs, FloodGuard.Check, MemoriesAlike;
    SameContents(FloodOutput(cfg, s, m, now), FloodOutput(cfg, e, m, now));
    SameContents(IdentityOutput(s, m, now), IdentityOutput(e, m, now));
  }

  lemma {:induction false} SameContents(a: seq<Output>, b: seq<Output>)
    requires |a| == |b| && forall i :: 0 <= i < |a| ==> a[i].at == b[i].at && a[i].notice == b[i].notice
    ensures Contents(a) == Contents(b)
  {
    if a != [] {
      SameContents(a[1..], b[1..]);
    }
  }

  /** Arrivals in order, none before the clock. */
  ghost predicate Upcoming<T>(arrivals: seq<Stamped<T>>, clock: real) {
    Ordered(arrivals) && forall i :: 0 <= i < |arrivals| ==> clock <= arrivals[i].at
  }

  lemma {:induction false} ErasureFrom(cfg: Config, s: Gate, e: Gate, arrivals: seq<Arrival>, clock: real)
    requires cfg.Usable() && Simulates(cfg, s, e, clock) && Upcoming(arrivals, clock)
    ensures Contents(Run(cfg, s, arrivals).1) == Contents(Run(cfg, e, Kept(cfg, s, arrivals)).1)
    ensures Kept(cfg, e, Kept(cfg, s, arrivals)) == Kept(cfg, s, arrivals)
    decreases |arrivals|
  {
    hide Step, Outputs, ReplayGuard.Exempt;
    if arrivals != [] {
      var a := arrivals[0];
      var r := Step(cfg, s, a.item, a.at);
      SimulatesLater(cfg, s, e, clock, a.at);
      ContentsConcat(Outputs(cfg, s, a.item, a.at), Run(cfg, r.gate, arrivals[1..]).1);
      if r.passed {
        var r' := Step(cfg, e, a.item, a.at);
        PassSimulates(cfg, s, e, a.item, a.at);
        PassSendsAlike(cfg, s, e, a.item, a.at);
        ErasureFrom(cfg, r.gate, r'.gate, arrivals[1..], a.at);
        ContentsConcat(Outputs(cfg, e, a.item, a.at), Run(cfg, r'.gate, Kept(cfg, r.gate, arrivals[1..])).1);
        assert Kept(cfg, s, arrivals)[1..] == Kept(cfg, r.gate, arrivals[1..]);
      } else {
        RejectSimulates(cfg, s, e, a.item, a.at);
        ErasureFrom(cfg, r.gate, e, arrivals[1..], a.at);
        assert Kept(cfg, s, arrivals) == Kept(cfg, r.gate, arrivals[1..]);
      }
    }
  }

  /**
    Rejection erasure.  Deleting every message the controller rejects changes nothing in
    what it forwards, which flood and impersonation alerts it raises, when, and in which
    order; only offsets differ, and the remaining stream is rejected nowhere.
  */
  lemma {:induction false} RejectionErasure(cfg: Config, offset: int, offset': int, blacklist: set<string>,
                                            arrivals: seq<Arrival>)
    requires cfg.Usable() && Ordered(arrivals)
    ensures
      var kept := Kept(cfg, Booted(offset, blacklist), arrivals);
      && Contents(Run(cfg, Booted(offset, blacklist), arrivals).1)
         == Contents(Run(cfg, Booted(offset', blacklist), kept).1)
      && Kept(cfg, Booted(offset', blacklist), kept) == kept
  {
    var clock := if arrivals == [] then 0.0 else arrivals[0].at;
    var s, e := Booted(offset, blacklist), Booted(offset', blacklist);
    forall node ensures QueuesAlike(s.replay, e.replay, node, cfg.limits.maxAge, clock) {}
    ErasureFrom(cfg, s, e, arrivals, clock);
  }

  // ---- Offsets along a run ----

  /** Offsets do not fall along a run, and stay between the first new one and the last assigned one. */
  ghost predicate Ascending(outputs: seq<Output>, from: int, to: int) {
    && (forall i, j :: 0 <= i < j < |outputs| ==> outputs[i].offset <= outputs[j].offset)
    && (forall i :: 0 <= i < |outputs| ==> from < outputs[i].offset <= to)
  }

  lemma {:induction false} StepAscends(cfg: Config, g: Gate, m: Message, now: real)
    requires cfg.Usable()
    ensures
      var r := Step(cfg, g, m, now);
      Ascending(Outputs(cfg, g, m, now), g.offset, r.gate.offset) && g.offset <= r.gate.offset
  {
    var r := Step(cfg, g, m, now);
    if r.passed {
      SentByPass(cfg, g, m, now);
    } else {
      SentByReject(cfg, g, m, now);
    }
    hide Step, Outputs, ReplayGuard.Check, FloodGuard.Check;
  }

  /** Offsets never fall, and any offset of a later step is above every offset of an earlier one. */
  lemma {:induction false} RunAscends(cfg: Config, g: Gate, arrivals: seq<Arrival>)
    requires cfg.Usable()
    ensures Ascending(Run(cfg, g, arrivals).1, g.offset, Run(cfg, g, arrivals).0.offset)
    ensures g.offset <= Run(cfg, g, arrivals).0.offset
    decreases |arrivals|
  {
    hide Step, Outputs, ReplayGuard.Exempt;
    if arrivals != [] {
      var r := Step(cfg, g, arrivals[0].item, arrivals[0].at);
      StepAscends(cfg, g, arrivals[0].item, arrivals[0].at);
      RunAscends(cfg, r.gate, arrivals[1..]);
    }
  }

  // ---- Accepted sequence numbers ----

  /** The sequence numbers a tenant gets through the whole controller strictly increase. */
  lemma {:induction false} ForwardedSeqsIncrease(cfg: Config, g: Gate, arrivals: seq<Arrival>, i: nat, j: nat)
    requires cfg.Usable()
    requires i < j < |Run(cfg, g, arrivals).1|
    requires
      var outs := Run(cfg, g, arrivals).1;
      && outs[i].notice.Forwarded? && outs[j].notice.Forwarded?
      && outs[i].notice.message.node == outs[j].notice.message.node
      && !ReplayGuard.Exempt(outs[i].notice.message.node)
    ensures
      var outs := Run(cfg, g, arrivals).1;
      outs[i].notice.message.seqNo < outs[j].notice.message.seqNo
    decreases |arrivals|
  {
    hide Step, Outputs, ReplayGuard.Exempt;
    var outs := Run(cfg, g, arrivals).1;
    var a := arrivals[0];
    var r := Step(cfg, g, a.item, a.at);
    var first := Outputs(cfg, g, a.item, a.at);
    ForwardedIsLast(cfg, g, a.item, a.at);
    if i >= |first| {
      ForwardedSeqsIncrease(cfg, r.gate, arrivals[1..], i - |first|, j - |first|);
    } else {
      assert outs[i] == first[i];
      ForwardedAboveLast(cfg, r.gate, arrivals[1..], j - |first|);
    }
  }

  /** A step forwards at most one message, the one it received, as its last output. */
  lemma {:induction false} ForwardedIsLast(cfg: Config, g: Gate, m: Message, now: real)
    requires cfg.Usable()
    ensures
      var r := Step(cfg, g, m, now);
      var out := Outputs(cfg, g, m, now);
      forall i :: 0 <= i < |out| && out[i].notice.Forwarded? ==>
        && i == |out| - 1 && out[i].notice.message == m.(hmac := "")
        && Lookup(r.gate.replay.lastSeq, m.node, -1) == m.seqNo
        && (!ReplayGuard.Exempt(m.node) ==> m.seqNo > Lookup(g.replay.lastSeq, m.node, -1))
  {
    var r := Step(cfg, g, m, now);
    if r.passed {
      SentByPass(cfg, g, m, now);
    } else {
      SentByReject(cfg, g, m, now);
    }
    hide Step, Outputs, ReplayGuard.Exempt, FloodGuard.Check;
  }

  lemma {:induction false} LastSeqRises(cfg: Config, g: Gate, m: Message, now: real, node: string)
    requires cfg.Usable() && !ReplayGuard.Exempt(node)
    ensures Lookup(g.replay.lastSeq, node, -1) <= Lookup(Step(cfg, g, m, now).gate.replay.lastSeq, node, -1)
  {
  }

  lemma {:induction false} ForwardedAboveLast(cfg: Config, g: Gate, arrivals: seq<Arrival>, j: nat)
    requires cfg.Usable()
    requires j < |Run(cfg, g, arrivals).1| && Run(cfg, g, arrivals).1[j].notice.Forwarded?
    requires !ReplayGuard.Exempt(Run(cfg, g, arrivals).1[j].notice.message.node)
    ensures
      var m := Run(cfg, g, arrivals).1[j].notice.message;
      m.seqNo > Lookup(g.replay.lastSeq, m.node, -1)
    decreases |arrivals|
  {
    hide Step, Outputs, ReplayGuard.Exempt;
    var a := arrivals[0];
    var r := Step(cfg, g, a.item, a.at);
    var first := Outputs(cfg, g, a.item, a.at);
    ForwardedIsLast(cfg, g, a.item, a.at);
    assert j < |first| ==> Run(cfg, g, arrivals).1[j] == first[j];
    if j >= |first| {
      ForwardedAboveLast(cfg, r.gate, arrivals[1..], j - |first|);
      LastSeqRises(cfg, g, a.item, a.at, Run(cfg, g, arrivals).1[j].notice.message.node);
    }
  }

  // ---- Flood alerts ----

  predicate IsFlood(o: Output, node: string) {
    o.notice.Flood? && o.notice.node == node
  }

  /** A flood alert is at least the silence after the last one remembered, and is itself remembered. */
  lemma {:induction false} FloodAlertStep(cfg: Config, g: Gate, m: Message, now: real, node: string)
    requires cfg.Usable()
    ensures
      var r := Step(cfg, g, m, now);
      var out := Outputs(cfg, g, m, now);
      && (forall i :: 0 <= i < |out| && IsFlood(out[i], node) ==>
            i == 0 && out[0].at == now && Lookup(r.gate.floodAlerted, node, 0.0) == now
            && now - Lookup(g.floodAlerted, node, 0.0) >= 60.0)
      && (Lookup(r.gate.floodAlerted, node, 0.0) != Lookup(g.floodAlerted, node, 0.0) ==>
          |out| > 0 && IsFlood(out[0], node))
  {
    var r := Step(cfg, g, m, now);
    if r.passed {
      SentByPass(cfg, g, m, now);
    } else {
      SentByReject(cfg, g, m, now);
    }
    hide Step, Outputs, ReplayGuard.Exempt, FloodGuard.Check;
  }

  lemma {:induction false} FloodAfterRemembered(cfg: Config, g: Gate, arrivals: seq<Arrival>, node: string, j: nat)
    requires cfg.Usable() && Ordered(arrivals)
    requires j < |Run(cfg, g, arrivals).1| && IsFlood(Run(cfg, g, arrivals).1[j], node)
    ensures Run(cfg, g, arrivals).1[j].at - Lookup(g.floodAlerted, node, 0.0) >= 60.0
    decreases |arrivals|
  {
    hide Step, Outputs, ReplayGuard.Exempt;
    var a := arrivals[0];
    var r := Step(cfg, g, a.item, a.at);
    var first := Outputs(cfg, g, a.item, a.at);
    FloodAlertStep(cfg, g, a.item, a.at, node);
    assert j < |first| ==> IsFlood(first[j], node);
    if j >= |first| {
      FloodAfterRemembered(cfg, r.gate, arrivals[1..], node, j - |first|);
    }
  }

  /** Any two flood alerts for one node are at least 60 seconds apart. */
  lemma {:induction false} FloodAlertsSpaced(cfg: Config, g: Gate, arrivals: seq<Arrival>, node: string, i: nat, j: nat)
    requires cfg.Usable() && Ordered(arrivals) && i < j < |Run(cfg, g, arrivals).1|
    requires IsFlood(Run(cfg, g, arrivals).1[i], node) && IsFlood(Run(cfg, g, arrivals).1[j], node)
    ensures Run(cfg, g, arrivals).1[j].at - Run(cfg, g, arrivals).1[i].at >= 60.0
    decreases |arrivals|
  {
    hide Step, Outputs, ReplayGuard.Exempt;
    var a := arrivals[0];
    var r := Step(cfg, g, a.item, a.at);
    var first := Outputs(cfg, g, a.item, a.at);
    FloodAlertStep(cfg, g, a.item, a.at, node);
    if i >= |first| {
      FloodAlertsSpaced(cfg, r.gate, arrivals[1..], node, i - |first|, j - |first|);
    } else {
      assert IsFlood(first[i], node);
      assert forall k :: i < k < |first| ==> !IsFlood(first[k], node);
      FloodAfterRemembered(cfg, r.gate, arrivals[1..], node, j - |first|);
    }
  }

  /** The remembered time is that of an alert really sent, or nothing was ever sent. */
  lemma {:induction false} RememberedWasSent(cfg: Config, g: Gate, arrivals: seq<Arrival>, node: string)
    requires cfg.Usable()
    ensures
      var (last, outs) := Run(cfg, g, arrivals);
      || Lookup(last.floodAlerted, node, 0.0) == Lookup(g.floodAlerted, node, 0.0)
      || exists i :: 0 <= i < |outs| && IsFlood(outs[i], node) && outs[i].at == Lookup(last.floodAlerted, node, 0.0)
    decreases |arrivals|
  {
    hide Step, Outputs, ReplayGuard.Exempt;
    if arrivals != [] {
      var a := arrivals[0];
      var r := Step(cfg, g, a.item, a.at);
      var first := Outputs(cfg, g, a.item, a.at);
      var (last, outs) := Run(cfg, g, arrivals);
      var rest := Run(cfg, r.gate, arrivals[1..]).1;
      FloodAlertStep(cfg, g, a.item, a.at, node);
      RememberedWasSent(cfg, r.gate, arrivals[1..], node);
      if Lookup(last.floodAlerted, node, 0.0) != Lookup(r.gate.floodAlerted, node, 0.0) {
        var i :| 0 <= i < |rest| && IsFlood(rest[i], node) && rest[i].at == Lookup(last.floodAlerted, node, 0.0);
        assert outs[|first| + i] == rest[i];
      } else if Lookup(last.floodAlerted, node, 0.0) != Lookup(g.floodAlerted, node, 0.0) {
        assert outs[0] == first[0];
      }
    }
  }

  /**
    A passing message that finds its node flooding raises an alert, unless one was sent
    for the node less than 60 seconds ago or the clock itself still reads less than 60.
  */
  lemma {:induction false} FloodAlertRaised(cfg: Config, offset: int, blacklist: set<string>, arrivals: seq<Arrival>,
                                            m: Message, now: real)
    requires cfg.Usable()
    requires
      var g := Run(cfg, Booted(offset, blacklist), arrivals).0;
      Step(cfg, g, m, now).passed && FloodGuard.Check(cfg.floodMax, g.flood, m.node, now).1
    requires now >= 60.0
    requires
      var outs := Run(cfg, Booted(offset, blacklist), arrivals).1;
      forall i :: 0 <= i < |outs| && IsFlood(outs[i], m.node) ==> now - outs[i].at >= 60.0
    ensures
      var g := Run(cfg, Booted(offset, blacklist), arrivals).0;
      var out := Outputs(cfg, g, m, now);
      |out| > 0 && IsFlood(out[0], m.node)
  {
    var g0 := Booted(offset, blacklist);
    var g := Run(cfg, g0, arrivals).0;
    RememberedWasSent(cfg, g0, arrivals, m.node);
    SentByPass(cfg, g, m, now);
    hide Step, Outputs, ReplayGuard.Exempt, FloodGuard.Check;
  }

  // ---- The guards inside a run see exactly these calls ----

  /** The arrivals that reach the replay guard. */
  ghost function ReplayCalls(cfg: Config, g: Gate, arrivals: seq<Arrival>): seq<ReplayGuard.Call>
    requires cfg.Usable()
    decreases |arrivals|
  {
    if arrivals == [] then []
    else
      var a := arrivals[0];
      (if ReachesReplay(cfg, g, a.item) then [Stamped(a.at, EnvelopeOf(a.item))] else [])
      + ReplayCalls(cfg, Step(cfg, g, a.item, a.at).gate, arrivals[1..])
  }

  ghost function FloodCall(cfg: Config, g: Gate, a: Arrival): seq<FloodGuard.Call>
    requires cfg.Usable()
  {
    if Step(cfg, g, a.item, a.at).passed then [Stamped(a.at, a.item.node)] else []
  }

  /** The arrivals that reach the flood guard: those that pass. */
  ghost function FloodCalls(cfg: Config, g: Gate, arrivals: seq<Arrival>): seq<FloodGuard.Call>
    requires cfg.Usable()
    decreases |arrivals|
  {
    if arrivals == [] then []
    else
      var a := arrivals[0];
      FloodCall(cfg, g, a) + FloodCalls(cfg, Step(cfg, g, a.item, a.at).gate, arrivals[1..])
  }

  ghost predicate ReachesReplay(cfg: Config, g: Gate, m: Message) {
    m.node !in g.blacklist && cfg.verify(m) && !cfg.Disallows(m.node)
  }

  lemma {:induction false} ReplayFromCalls(cfg: Config, g: Gate, arrivals: seq<Arrival>, calls: seq<ReplayGuard.Call>)
    requires cfg.Usable() && g.replay == ReplayGuard.After(cfg.limits, calls)
    ensures Run(cfg, g, arrivals).0.replay == ReplayGuard.After(cfg.limits, calls + ReplayCalls(cfg, g, arrivals))
    decreases |arrivals|
  {
    if arrivals == [] {
      assert calls + ReplayCalls(cfg, g, arrivals) == calls;
    } else {
      var a := arrivals[0];
      var r := Step(cfg, g, a.item, a.at);
      var here := if ReachesReplay(cfg, g, a.item) then [Stamped(a.at, EnvelopeOf(a.item))] else [];
      ReplayStep(cfg, g, a, calls);
      hide Step, Outputs, ReplayGuard.After, EnvelopeOf, ReachesReplay;
      assert calls + [] == calls;
      ReplayFromCalls(cfg, r.gate, arrivals[1..], calls + here);
      var rest := ReplayCalls(cfg, r.gate, arrivals[1..]);
      ConcatAssociates(calls, here, rest);
    }
  }

  ghost predicate FloodMatches(g: Gate, calls: seq<FloodGuard.Call>) {
    g.flood == FloodGuard.After(calls)
  }

  lemma {:induction false} FloodFromCalls(cfg: Config, g: Gate, arrivals: seq<Arrival>, calls: seq<FloodGuard.Call>)
    requires cfg.Usable() && FloodMatches(g, calls)
    ensures FloodMatches(Run(cfg, g, arrivals).0, calls + FloodCalls(cfg, g, arrivals))
    decreases |arrivals|
  {
    if arrivals == [] {
      assert calls + FloodCalls(cfg, g, arrivals) == calls;
    } else {
      var a := arrivals[0];
      var r := Step(cfg, g, a.item, a.at);
      var here := FloodCall(cfg, g, a);
      FloodStep(cfg, g, a, calls);
      hide Step, Outputs, FloodMatches, FloodCall;
      FloodFromCalls(cfg, r.gate, arrivals[1..], calls + here);
      var rest := FloodCalls(cfg, r.gate, arrivals[1..]);
      ConcatAssociates(calls, here, rest);
    }
  }

  lemma {:induction false} ReplayStep(cfg: Config, g: Gate, a: Arrival, calls: seq<ReplayGuard.Call>)
    requires cfg.Usable() && g.replay == ReplayGuard.After(cfg.limits, calls)
    ensures Step(cfg, g, a.item, a.at).gate.replay ==
            ReplayGuard.After(
              cfg.limits, if ReachesReplay(cfg, g, a.item) then calls + [Stamped(a.at, EnvelopeOf(a.item))] else calls)
  {
    var c := Stamped(a.at, EnvelopeOf(a.item));
    assert (calls + [c])[..|calls|] == calls;
    assert ReplayGuard.After(cfg.limits, calls + [c]) == ReplayGuard.Check(cfg.limits, g.replay, c.item, c.at).0;
    hide ReplayGuard.Check, ReplayGuard.After, FloodGuard.Check;
  }

  lemma {:induction false} FloodStep(cfg: Config, g: Gate, a: Arrival, calls: seq<FloodGuard.Call>)
    requires cfg.Usable() && FloodMatches(g, calls)
    ensures FloodMatches(Step(cfg, g, a.item, a.at).gate, calls + FloodCall(cfg, g, a))
  {
    var f := Stamped(a.at, a.item.node);
    assert (calls + [f])[..|calls|] == calls && calls + [] == calls;
    assert FloodGuard.After(calls + [f]) == FloodGuard.Check(0, g.flood, f.item, f.at).0;
    assert FloodGuard.Check(0, g.flood, f.item, f.at).0 == FloodGuard.Check(cfg.floodMax, g.flood, f.item, f.at).0;
    StepCounts(cfg, g, a.item, a.at);
    hide Step, FloodGuard.After, FloodGuard.Check;
  }

  /** A step that passes counts its message, no other touches the flood guard. */
  lemma {:induction false} StepCounts(cfg: Config, g: Gate, m: Message, now: real)
    requires cfg.Usable()
    ensures
      var r := Step(cfg, g, m, now);
      r.gate.flood == if r.passed then FloodGuard.Check(cfg.floodMax, g.flood, m.node, now).0 else g.flood
  {
    hide ReplayGuard.Check, FloodGuard.Check, FloodAlertDue, IdentityChanged;
  }

  /** After any run from a start, both guards hold what their full call histories produce. */
  lemma {:induction false} RunFeedsGuards(cfg: Config, offset: int, blacklist: set<string>, arrivals: seq<Arrival>)
    requires cfg.Usable()
    ensures
      var g := Booted(offset, blacklist);
      var last := Run(cfg, g, arrivals).0;
      && last.replay == ReplayGuard.After(cfg.limits, ReplayCalls(cfg, g, arrivals))
      && last.flood == FloodGuard.After(FloodCalls(cfg, g, arrivals))
  {
    var g := Booted(offset, blacklist);
    ReplayFromCalls(cfg, g, arrivals, []);
    FloodFromCalls(cfg, g, arrivals, []);
    assert [] + ReplayCalls(cfg, g, arrivals) == ReplayCalls(cfg, g, arrivals);
    assert [] + FloodCalls(cfg, g, arrivals) == FloodCalls(cfg, g, arrivals);
  }
}
