/** An honest node behind the controller: its messenger, restarted at will, against the replay guard. */
module HonestSender {
  import opened Common
  import opened SlidingWindow
  import opened SecureMessenger
  import opened Controller
  import opened ControllerRuns
  import ReplayGuard

  /** What happens at the sender: a messenger is (re-)created, or the live one signs; `arrives` is the delivery time. */
  datatype Event =
    | Created(at: real)
    | Signs(payload: Message, msgId: string, at: real, arrives: real)

  datatype Sender = Sender(mac: Mac, secret: string, node: string, machineId: string)

  /** Everything the sender delivers, given the live messenger's counter. */
  function Deliveries(s: Sender, seqNo: int, events: seq<Event>): seq<Arrival>
    decreases |events|
  {
    if events == [] then []
    else match events[0]
      case Created(at) => Deliveries(s, Millis(at), events[1..])
      case Signs(payload, msgId, at, arrives) =>
        [Stamped(arrives, Sealed(s.mac, s.secret, s.node, s.machineId, payload, msgId, seqNo + 1, at))]
        + Deliveries(s, seqNo + 1, events[1..])
  }

  /** The sender's clock does not run backwards. */
  ghost predicate Clocked(clock: real, events: seq<Event>)
    decreases |events|
  {
    events == [] || (clock <= events[0].at && Clocked(events[0].at, events[1..]))
  }

  /**
    Every number signed is above every number signed before: a creation seeds the counter from the
    clock, so what the sender must see to is that it is not re-created while the clock reads less
    than its last number.
  */
  ghost predicate Seeded(seqNo: int, last: int, events: seq<Event>)
    decreases |events|
  {
    events == [] ||
    match events[0]
    case Created(at) => Seeded(Millis(at), last, events[1..])
    case Signs(_, _, _, _) => seqNo + 1 > last && Seeded(seqNo + 1, seqNo + 1, events[1..])
  }

  /** No incarnation has ever signed more messages than whole milliseconds passed since its creation. */
  ghost predicate Paced(seqNo: int, events: seq<Event>)
    decreases |events|
  {
    events == [] ||
    match events[0]
    case Created(at) => Paced(Millis(at), events[1..])
    case Signs(_, _, at, _) => seqNo + 1 <= Millis(at) && Paced(seqNo + 1, events[1..])
  }

  /** Each message arrives within the age limit and carries an identifier of its own. */
  ghost predicate TimelyUnique(maxAge: real, used: set<string>, events: seq<Event>)
    decreases |events|
  {
    events == [] ||
    match events[0]
    case Created(_) => TimelyUnique(maxAge, used, events[1..])
    case Signs(_, msgId, at, arrives) =>
      msgId !in used && ReplayGuard.Age(at, arrives) <= maxAge && TimelyUnique(maxAge, used + {msgId}, events[1..])
  }

  /** What the guard needs of a node's stream: new ids, fresh timestamps, rising numbers unless it is exempt. */
  ghost predicate Acceptable(exempt: bool, maxAge: real, mine: seq<Arrival>, last: int, used: set<string>)
    decreases |mine|
  {
    mine == [] ||
    var m := mine[0].item;
    && (exempt || m.seqNo > last) && m.msgId !in used && ReplayGuard.Fresh(m.sentAt, mine[0].at, maxAge)
    && Acceptable(exempt, maxAge, mine[1..], m.seqNo, used + {m.msgId})
  }

  /** A paced sender is never behind itself, however often it is re-created. */
  lemma {:induction false} PacedIsSeeded(seqNo: int, last: int, clock: real, events: seq<Event>)
    requires Paced(seqNo, events) && Clocked(clock, events)
    requires last <= seqNo && last <= Millis(clock)
    ensures Seeded(seqNo, last, events)
    decreases |events|
  {
    if events != [] {
      match events[0]
      case Created(at) => PacedIsSeeded(Millis(at), last, at, events[1..]);
      case Signs(_, _, at, _) => PacedIsSeeded(seqNo + 1, seqNo + 1, at, events[1..]);
    }
  }

  lemma {:induction false} SeededIsAcceptable(s: Sender, exempt: bool, maxAge: real, seqNo: int, last: int,
                                              used: set<string>, events: seq<Event>)
    requires (exempt || Seeded(seqNo, last, events)) && TimelyUnique(maxAge, used, events)
    ensures Acceptable(exempt, maxAge, Deliveries(s, seqNo, events), last, used)
    decreases |events|
  {
    if events != [] {
      match events[0]
      case Created(at) =>
        SeededIsAcceptable(s, exempt, maxAge, Millis(at), last, used, events[1..]);
      case Signs(payload, msgId, at, arrives) =>
        SeededIsAcceptable(s, exempt, maxAge, seqNo + 1, seqNo + 1, used + {msgId}, events[1..]);
        var all := Deliveries(s, seqNo, events);
        assert all[1..] == Deliveries(s, seqNo + 1, events[1..]);
    }
  }

  /** The numbers of these messages rise strictly, from above `last`. */
  ghost predicate Rising(last: int, mine: seq<Arrival>)
    decreases |mine|
  {
    mine == [] || (mine[0].item.seqNo > last && Rising(mine[0].item.seqNo, mine[1..]))
  }

  lemma {:induction false} RisingIsSeeded(s: Sender, seqNo: int, last: int, events: seq<Event>)
    requires Rising(last, Deliveries(s, seqNo, events))
    ensures Seeded(seqNo, last, events)
    decreases |events|
  {
    if events != [] {
      match events[0]
      case Created(at) => RisingIsSeeded(s, Millis(at), last, events[1..]);
      case Signs(_, _, _, _) =>
        assert Deliveries(s, seqNo, events)[1..] == Deliveries(s, seqNo + 1, events[1..]);
        RisingIsSeeded(s, seqNo + 1, seqNo + 1, events[1..]);
    }
  }

  /** The arrivals under the node's name that verify. */
  ghost function Mine(cfg: Config, node: string, arrivals: seq<Arrival>): seq<Arrival> {
    if arrivals == [] then []
    else
      (if arrivals[0].item.node == node && cfg.verify(arrivals[0].item) then [arrivals[0]] else [])
      + Mine(cfg, node, arrivals[1..])
  }

  /** The gate lets the node through; what it remembers of it is its last number and used ids. */
  ghost predicate Open(cfg: Config, g: Gate, node: string, last: int, used: set<string>) {
    && node !in g.blacklist && !cfg.Disallows(node)
    && Lookup(g.replay.lastSeq, node, -1) == last
    && forall i :: 0 <= i < |Lookup(g.replay.seen, node, [])| ==> Lookup(g.replay.seen, node, [])[i].item.msgId in used
  }

  lemma {:induction false} GuardAccepts(l: ReplayGuard.Limits, m: ReplayGuard.Memory, e: ReplayGuard.Envelope,
                                        now: real, used: set<string>)
    requires l.Usable() && ReplayGuard.Fresh(e.sentAt, now, l.maxAge)
    requires (ReplayGuard.Exempt(e.node) || e.seqNo > Lookup(m.lastSeq, e.node, -1)) && e.msgId !in used
    requires forall i :: 0 <= i < |Lookup(m.seen, e.node, [])| ==> Lookup(m.seen, e.node, [])[i].item.msgId in used
    ensures
      var (m', v) := ReplayGuard.Check(l, m, e, now);
      && v.Accepted? && Lookup(m'.lastSeq, e.node, -1) == e.seqNo
      && forall i :: 0 <= i < |Lookup(m'.seen, e.node, [])| ==>
           Lookup(m'.seen, e.node, [])[i].item.msgId in used + {e.msgId}
  {
    var q := Lookup(m.seen, e.node, []);
    var k := EvictIsSuffix(q, now - l.maxAge);
    var kept := Evict(q, now - l.maxAge);
    assert forall i :: 0 <= i < |kept| ==> kept[i] == q[k + i];
    hide ReplayGuard.Exempt;
  }

  lemma {:induction false} OpenToMine(cfg: Config, g: Gate, m: Message, now: real, last: int, used: set<string>)
    requires cfg.Usable() && Open(cfg, g, m.node, last, used) && cfg.verify(m)
    requires (ReplayGuard.Exempt(m.node) || m.seqNo > last) && m.msgId !in used
    requires ReplayGuard.Fresh(m.sentAt, now, cfg.limits.maxAge)
    ensures Step(cfg, g, m, now).passed
    ensures Open(cfg, Step(cfg, g, m, now).gate, m.node, m.seqNo, used + {m.msgId})
  {
    GuardAccepts(cfg.limits, g.replay, EnvelopeOf(m), now, used);
    hide ReplayGuard.Check, FloodGuard.Check;
  }

  lemma {:induction false} OpenAfterOthers(cfg: Config, g: Gate, m: Message, now: real, node: string, last: int,
                                           used: set<string>)
    requires cfg.Usable() && Open(cfg, g, node, last, used) && !(m.node == node && cfg.verify(m))
    ensures Open(cfg, Step(cfg, g, m, now).gate, node, last, used)
  {
    if m.node != node {
      CheckFrame(cfg.limits, g.replay, EnvelopeOf(m), now, node);
      LastSeqFrame(cfg.limits, g.replay, EnvelopeOf(m), now, node);
    }
    hide ReplayGuard.Check, FloodGuard.Check;
  }

  lemma {:induction false} LastSeqFrame(l: ReplayGuard.Limits, m: ReplayGuard.Memory, e: ReplayGuard.Envelope,
                                        now: real, node: string)
    requires l.Usable() && node != e.node
    ensures Lookup(ReplayGuard.Check(l, m, e, now).0.lastSeq, node, -1) == Lookup(m.lastSeq, node, -1)
  {
    hide ReplayGuard.Deduplicate, ReplayGuard.Exempt;
  }

  lemma {:induction false} AcceptablePasses(cfg: Config, g: Gate, node: string, arrivals: seq<Arrival>, last: int,
                                            used: set<string>)
    requires cfg.Usable() && Open(cfg, g, node, last, used)
    requires Acceptable(ReplayGuard.Exempt(node), cfg.limits.maxAge, Mine(cfg, node, arrivals), last, used)
    ensures Mine(cfg, node, Kept(cfg, g, arrivals)) == Mine(cfg, node, arrivals)
    decreases |arrivals|
  {
    if arrivals != [] {
      var a := arrivals[0];
      var r := Step(cfg, g, a.item, a.at);
      var rest := Mine(cfg, node, arrivals[1..]);
      if a.item.node == node && cfg.verify(a.item) {
        assert Mine(cfg, node, arrivals) == [a] + rest;
        assert ([a] + rest)[1..] == rest;
        OpenToMine(cfg, g, a.item, a.at, last, used);
        hide Step, Open, ReplayGuard.Fresh;
        AcceptablePasses(cfg, r.gate, node, arrivals[1..], a.item.seqNo, used + {a.item.msgId});
        assert Kept(cfg, g, arrivals)[1..] == Kept(cfg, r.gate, arrivals[1..]);
      } else {
        assert Mine(cfg, node, arrivals) == rest;
        OpenAfterOthers(cfg, g, a.item, a.at, node, last, used);
        hide Step, Open, ReplayGuard.Fresh;
        AcceptablePasses(cfg, r.gate, node, arrivals[1..], last, used);
        var kept := Kept(cfg, r.gate, arrivals[1..]);
        if r.passed {
          assert Kept(cfg, g, arrivals) == [a] + kept && ([a] + kept)[1..] == kept;
        } else {
          assert Kept(cfg, g, arrivals) == kept;
        }
      }
    }
  }

  lemma {:induction false} NoMoreThanMine(cfg: Config, g: Gate, node: string, arrivals: seq<Arrival>)
    requires cfg.Usable()
    ensures |Mine(cfg, node, Kept(cfg, g, arrivals))| <= |Mine(cfg, node, arrivals)|
    decreases |arrivals|
  {
    hide Step;
    if arrivals != [] {
      var a := arrivals[0];
      var r := Step(cfg, g, a.item, a.at);
      NoMoreThanMine(cfg, r.gate, node, arrivals[1..]);
      MineOfKept(cfg, g, node, arrivals);
    }
  }

  /** What the first arrival contributes to the node's passed messages. */
  lemma {:induction false} MineOfKept(cfg: Config, g: Gate, node: string, arrivals: seq<Arrival>)
    requires cfg.Usable() && arrivals != []
    ensures
      var a := arrivals[0];
      var r := Step(cfg, g, a.item, a.at);
      Mine(cfg, node, Kept(cfg, g, arrivals)) ==
      (if r.passed && a.item.node == node && cfg.verify(a.item) then [a] else [])
      + Mine(cfg, node, Kept(cfg, r.gate, arrivals[1..]))
  {
    hide Step;
    var a := arrivals[0];
    var r := Step(cfg, g, a.item, a.at);
    var kept := Kept(cfg, r.gate, arrivals[1..]);
    if r.passed {
      assert Kept(cfg, g, arrivals) == [a] + kept;
      MineOfFirst(cfg, node, a, kept);
    } else {
      assert Kept(cfg, g, arrivals) == kept;
    }
  }

  lemma {:induction false} MineOfFirst(cfg: Config, node: string, a: Arrival, rest: seq<Arrival>)
    ensures Mine(cfg, node, [a] + rest) ==
            (if a.item.node == node && cfg.verify(a.item) then [a] else []) + Mine(cfg, node, rest)
  {
    assert ([a] + rest)[1..] == rest;
  }

  /** If all of a tenant's messages pass, their numbers rise strictly above the last one remembered. */
  lemma {:induction false} PassedRises(cfg: Config, g: Gate, node: string, arrivals: seq<Arrival>)
    requires cfg.Usable() && !ReplayGuard.Exempt(node)
    requires Mine(cfg, node, Kept(cfg, g, arrivals)) == Mine(cfg, node, arrivals)
    ensures Rising(Lookup(g.replay.lastSeq, node, -1), Mine(cfg, node, arrivals))
    decreases |arrivals|
  {
    if arrivals != [] {
      var a := arrivals[0];
      var r := Step(cfg, g, a.item, a.at);
      var rest := Mine(cfg, node, arrivals[1..]);
      var kept := Kept(cfg, r.gate, arrivals[1..]);
      NoMoreThanMine(cfg, r.gate, node, arrivals[1..]);
      MineOfKept(cfg, g, node, arrivals);
      LastSeqStep(cfg, g, a.item, a.at, node);
      hide Step, ReplayGuard.Exempt;
      var later := Mine(cfg, node, kept);
      assert [] + later == later;
      if a.item.node == node && cfg.verify(a.item) {
        assert Mine(cfg, node, arrivals) == [a] + rest && ([a] + rest)[1..] == rest;
        assert ([a] + later)[1..] == later;
      } else {
        assert Mine(cfg, node, arrivals) == [] + rest == rest;
      }
      PassedRises(cfg, r.gate, node, arrivals[1..]);
    }
  }

  /** The last number of a tenant changes only by a message of it that passes, which is above it. */
  lemma {:induction false} LastSeqStep(cfg: Config, g: Gate, m: Message, now: real, node: string)
    requires cfg.Usable() && !ReplayGuard.Exempt(node)
    ensures
      var r := Step(cfg, g, m, now);
      var before, after := Lookup(g.replay.lastSeq, node, -1), Lookup(r.gate.replay.lastSeq, node, -1);
      if m.node == node && r.passed then m.seqNo > before && after == m.seqNo else after == before
    ensures Step(cfg, g, m, now).passed ==> cfg.verify(m)
  {
    if m.node != node {
      LastSeqFrame(cfg.limits, g.replay, EnvelopeOf(m), now, node);
      hide ReplayGuard.Check;
    }
    hide ReplayGuard.Deduplicate, FloodGuard.Check, ReplayGuard.Exempt;
  }

  /** The sender's messages are what arrives under its name and verifies, and nothing bars the name. */
  ghost predicate Delivered(cfg: Config, s: Sender, events: seq<Event>, blacklist: set<string>,
                            arrivals: seq<Arrival>) {
    && cfg.Usable() && s.node !in blacklist && !cfg.Disallows(s.node)
    && TimelyUnique(cfg.limits.maxAge, {}, events)
    && Mine(cfg, s.node, arrivals) == Deliveries(s, 0, events)
  }

  /**
    Exactly when an honest sender is never rejected.  One live messenger per node, re-created any
    number of times, with unique ids, delivered in order within the age limit: every one of its
    messages passes the controller, whatever else arrives in between and whatever unsigned messages are
    sent under its name, iff the node is exempt or each number signed is above the one before.
  */
  lemma {:induction false} HonestPassesIff(cfg: Config, s: Sender, events: seq<Event>, offset: int,
                                           blacklist: set<string>, arrivals: seq<Arrival>)
    requires Delivered(cfg, s, events, blacklist, arrivals)
    ensures Mine(cfg, s.node, Kept(cfg, Booted(offset, blacklist), arrivals)) == Deliveries(s, 0, events)
            <==> ReplayGuard.Exempt(s.node) || Seeded(0, -1, events)
  {
    var g := Booted(offset, blacklist);
    if ReplayGuard.Exempt(s.node) || Seeded(0, -1, events) {
      SeededIsAcceptable(s, ReplayGuard.Exempt(s.node), cfg.limits.maxAge, 0, -1, {}, events);
      AcceptablePasses(cfg, g, s.node, arrivals, -1, {});
    } else if Mine(cfg, s.node, Kept(cfg, g, arrivals)) == Deliveries(s, 0, events) {
      PassedRises(cfg, g, s.node, arrivals);
      RisingIsSeeded(s, 0, -1, events);
    }
  }

  /** In particular a sender that never signs more messages than milliseconds pass is never rejected. */
  lemma {:induction false} HonestNeverRejected(cfg: Config, s: Sender, events: seq<Event>, offset: int,
                                               blacklist: set<string>, arrivals: seq<Arrival>)
    requires Delivered(cfg, s, events, blacklist, arrivals)
    requires forall m :: cfg.verify(m) <==> Verify(s.mac, s.secret, m)
    requires forall k, m :: s.mac(k, m) != ""
    requires Clocked(0.0, events) && Paced(0, events)
    ensures Mine(cfg, s.node, Kept(cfg, Booted(offset, blacklist), arrivals)) == Deliveries(s, 0, events)
    ensures forall a <- Deliveries(s, 0, events) :: Verify(s.mac, s.secret, a.item)
  {
    PacedIsSeeded(0, -1, 0.0, events);
    HonestPassesIff(cfg, s, events, offset, blacklist, arrivals);
    DeliveriesVerify(s, 0, events);
  }

  lemma {:induction false} DeliveriesVerify(s: Sender, seqNo: int, events: seq<Event>)
    requires forall k, m :: s.mac(k, m) != ""
    ensures forall a <- Deliveries(s, seqNo, events) :: Verify(s.mac, s.secret, a.item)
    decreases |events|
  {
    if events != [] {
      match events[0]
      case Created(at) => DeliveriesVerify(s, Millis(at), events[1..]);
      case Signs(payload, msgId, at, arrives) =>
        SealedVerifies(s.mac, s.secret, s.node, s.machineId, payload, msgId, seqNo + 1, at);
        DeliveriesVerify(s, seqNo + 1, events[1..]);
    }
  }

  /**
    Pacing has to count from each creation.  Re-created within the millisecond it was created
    in, a messenger repeats a sequence number although no two messages share a millisecond,
    and the guard turns the second one away.
  */
  lemma {:induction false} SameMillisecondRestart(s: Sender, payload: Message, l: ReplayGuard.Limits)
    requires l.Usable() && l.maxAge >= 1.0 && !ReplayGuard.Exempt(s.node)
    ensures
      var events := [Created(0.0), Signs(payload, "a", 0.0, 0.0), Created(0.0), Signs(payload, "b", 0.001, 0.001)];
      var sent := Deliveries(s, 0, events);
      && Clocked(0.0, events) && Millis(0.0) != Millis(0.001) && |sent| == 2
      && var first := ReplayGuard.Check(l, ReplayGuard.BLANK, EnvelopeOf(sent[0].item), sent[0].at);
         first.1.Accepted? && ReplayGuard.Check(l, first.0, EnvelopeOf(sent[1].item), sent[1].at).1.NonMonotonic?
  {
    var e1, e2, e3, e4 := Created(0.0), Signs(payload, "a", 0.0, 0.0), Created(0.0), Signs(payload, "b", 0.001, 0.001);
    var events := [e1, e2, e3, e4];
    assert events[1..] == [e2, e3, e4] && [e2, e3, e4][1..] == [e3, e4] && [e3, e4][1..] == [e4] && [e4][1..] == [];
    assert Millis(0.0) == 0 && Millis(0.001) == 1;
    assert Clocked(0.001, []) && Clocked(0.0, [e4]) && Clocked(0.0, [e3, e4]);
    var m2 := Stamped(0.001, Sealed(s.mac, s.secret, s.node, s.machineId, payload, "b", 1, 0.001));
    var m1 := Stamped(0.0, Sealed(s.mac, s.secret, s.node, s.machineId, payload, "a", 1, 0.0));
    assert Deliveries(s, 0, [e4]) == [m2];
    assert Deliveries(s, 1, [e3, e4]) == [m2];
    assert Deliveries(s, 0, [e2, e3, e4]) == [m1] + [m2];
    assert Deliveries(s, 0, events) == [m1, m2];
    hide ReplayGuard.Exempt;
    assert Evict<ReplayGuard.Seen>([], 0.0 - l.maxAge) == [];
  }

  /** The number of the last message signed, or `last` if there is none. */
  ghost function LastSigned(seqNo: int, last: int, events: seq<Event>): int
    decreases |events|
  {
    if events == [] then last
    else match events[0]
      case Created(at) => LastSigned(Millis(at), last, events[1..])
      case Signs(_, _, _, _) => LastSigned(seqNo + 1, seqNo + 1, events[1..])
  }

  lemma {:induction false} SeededOnce(seqNo: int, last: int, before: seq<Event>, created: Event, signs: Event)
    requires created.Created? && signs.Signs?
    ensures Seeded(seqNo, last, before + [created, signs]) <==>
            Seeded(seqNo, last, before) && Millis(created.at) >= LastSigned(seqNo, last, before)
    decreases |before|
  {
    var all := before + [created, signs];
    if before == [] {
      assert all == [created, signs] && all[1..] == [signs] && [signs][1..] == [];
      assert Seeded(Millis(created.at), last, [signs]) <==> Millis(created.at) + 1 > last;
    } else {
      assert all[1..] == before[1..] + [created, signs];
      match before[0]
      case Created(at) => SeededOnce(Millis(at), last, before[1..], created, signs);
      case Signs(_, _, _, _) => SeededOnce(seqNo + 1, seqNo + 1, before[1..], created, signs);
    }
  }

  /**
    When one more re-creation is safe.  A tenant whose messages so far were all admissible and that is
    re-created and signs once more has all its messages passed exactly if the millisecond of
    the creation is not below its last number.
  */
  lemma {:induction false} RecreatedPassesIff(cfg: Config, s: Sender, before: seq<Event>, created: Event, signs: Event,
                                              offset: int, blacklist: set<string>, arrivals: seq<Arrival>)
    requires created.Created? && signs.Signs? && !ReplayGuard.Exempt(s.node)
    requires Delivered(cfg, s, before + [created, signs], blacklist, arrivals) && Seeded(0, -1, before)
    ensures Mine(cfg, s.node, Kept(cfg, Booted(offset, blacklist), arrivals)) == Mine(cfg, s.node, arrivals)
            <==> Millis(created.at) >= LastSigned(0, -1, before)
  {
    HonestPassesIff(cfg, s, before + [created, signs], offset, blacklist, arrivals);
    SeededOnce(0, -1, before, created, signs);
  }
}
