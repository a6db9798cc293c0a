/** The controller's verdicts in terms of everything that has arrived since it started. */
module ControllerHistory {
  import opened Common
  import opened SlidingWindow
  import opened SecureMessenger
  import opened Controller
  import opened ControllerRuns
  import ReplayGuard
  import FloodGuard

  /** Only disallowed names are ever added to the blacklist, and none is removed. */
  lemma {:induction false} ListGrowsByDisallowed(cfg: Config, g: Gate, arrivals: seq<Arrival>)
    requires cfg.Usable()
    ensures
      var last := Run(cfg, g, arrivals).0;
      g.blacklist <= last.blacklist && forall n <- last.blacklist :: n in g.blacklist || cfg.Disallows(n)
    decreases |arrivals|
  {
    if arrivals != [] {
      var a := arrivals[0];
      ListGrowsInStep(cfg, g, a.item, a.at);
      hide Step, Outputs;
      ListGrowsByDisallowed(cfg, Step(cfg, g, a.item, a.at).gate, arrivals[1..]);
    }
  }

  lemma {:induction false} ListGrowsInStep(cfg: Config, g: Gate, m: Message, now: real)
    requires cfg.Usable()
    ensures
      var b := Step(cfg, g, m, now).gate.blacklist;
      g.blacklist <= b && forall n <- b :: n in g.blacklist || cfg.Disallows(n)
  {
    hide ReplayGuard.Check, FloodGuard.Check;
  }

  lemma {:induction false} CallsInOrder(cfg: Config, g: Gate, arrivals: seq<Arrival>, clock: real, now: real)
    requires cfg.Usable() && Upcoming(arrivals, clock) && UpTo(arrivals, now)
    ensures Upcoming(ReplayCalls(cfg, g, arrivals), clock) && UpTo(ReplayCalls(cfg, g, arrivals), now)
    ensures Upcoming(FloodCalls(cfg, g, arrivals), clock) && UpTo(FloodCalls(cfg, g, arrivals), now)
    decreases |arrivals|
  {
    hide Step, ReachesReplay, EnvelopeOf;
    if arrivals != [] {
      var a := arrivals[0];
      CallsInOrder(cfg, Step(cfg, g, a.item, a.at).gate, arrivals[1..], a.at, now);
    }
  }

  lemma {:induction false} RunCallsInOrder(cfg: Config, g: Gate, arrivals: seq<Arrival>, now: real)
    requires cfg.Usable() && Ordered(arrivals) && UpTo(arrivals, now)
    ensures Ordered(ReplayCalls(cfg, g, arrivals)) && UpTo(ReplayCalls(cfg, g, arrivals), now)
    ensures Ordered(FloodCalls(cfg, g, arrivals)) && UpTo(FloodCalls(cfg, g, arrivals), now)
  {
    CallsInOrder(cfg, g, arrivals, if arrivals == [] then now else arrivals[0].at, now);
  }

  lemma {:induction false} PassesIff(cfg: Config, g: Gate, m: Message, now: real)
    requires cfg.Usable()
    ensures Step(cfg, g, m, now).passed <==>
            && m.node !in g.blacklist && cfg.verify(m) && !cfg.Disallows(m.node)
            && ReplayGuard.Check(cfg.limits, g.replay, EnvelopeOf(m), now).1.Accepted?
  {
    hide ReplayGuard.Check, FloodGuard.Check, EnvelopeOf;
  }

  /**
    The gate in one sentence.  After any arrivals in order, a message passes iff its name was not
    blacklisted at the start, its signature verifies, its name is allowed, and the full acceptance
    history admits it: fresh, above the last accepted number unless exempt, and with an id
    not accepted within the age limit among the node's last `window` acceptances.
  */
  lemma {:induction false} AdmittedIff(cfg: Config, offset: int, blacklist: set<string>, arrivals: seq<Arrival>,
                                       m: Message, now: real)
    requires cfg.Usable() && Ordered(arrivals) && UpTo(arrivals, now)
    ensures
      var start := Booted(offset, blacklist);
      var accepted := ReplayGuard.Accepting(cfg.limits, ReplayCalls(cfg, start, arrivals));
      Step(cfg, Run(cfg, start, arrivals).0, m, now).passed <==>
        && m.node !in blacklist && cfg.verify(m) && !cfg.Disallows(m.node)
        && ReplayGuard.HistoryAccepts(cfg.limits, Lookup(accepted, m.node, []), EnvelopeOf(m), now)
  {
    hide Step, Run, ReplayCalls, ReplayGuard.Check, ReplayGuard.HistoryAccepts, ReplayGuard.After,
         ReplayGuard.Accepting;
    var start := Booted(offset, blacklist);
    var g := Run(cfg, start, arrivals).0;
    var calls := ReplayCalls(cfg, start, arrivals);
    RunCallsInOrder(cfg, start, arrivals, now);
    RunFeedsGuards(cfg, offset, blacklist, arrivals);
    ReplayGuard.GuardRefinesHistory(cfg.limits, calls, now);
    var e := EnvelopeOf(m);
    assert e.node == m.node;
    assert ReplayGuard.Check(cfg.limits, ReplayGuard.After(cfg.limits, calls), e, now).1.Accepted? <==>
           ReplayGuard.HistoryAccepts(cfg.limits, Lookup(ReplayGuard.Accepting(cfg.limits, calls), e.node, []), e, now);
    ListGrowsByDisallowed(cfg, start, arrivals);
    PassesIff(cfg, g, m, now);
  }

  ghost predicate SameTimes(calls: seq<FloodGuard.Call>, passed: seq<Arrival>) {
    |calls| == |passed| && forall i :: 0 <= i < |calls| ==> calls[i] == Stamped(passed[i].at, passed[i].item.node)
  }

  /** The messages the flood guard has counted are those that passed. */
  lemma {:induction false} FloodCallsAreKept(cfg: Config, g: Gate, arrivals: seq<Arrival>)
    requires cfg.Usable()
    ensures SameTimes(FloodCalls(cfg, g, arrivals), Kept(cfg, g, arrivals))
    decreases |arrivals|
  {
    hide Step;
    if arrivals != [] {
      var a := arrivals[0];
      FloodCallsAreKept(cfg, Step(cfg, g, a.item, a.at).gate, arrivals[1..]);
    }
  }

  /** How many of these messages are the node's and arrived in the closed interval. */
  ghost function PassedIn(passed: seq<Arrival>, node: string, from: real, to: real): nat {
    if passed == [] then 0
    else
      var last := passed[|passed|-1];
      PassedIn(passed[..|passed|-1], node, from, to) + if last.item.node == node && from <= last.at <= to then 1 else 0
  }

  lemma {:induction false} CountIsPassed(calls: seq<FloodGuard.Call>, passed: seq<Arrival>, node: string, from: real,
                                         to: real)
    requires SameTimes(calls, passed)
    ensures Count(FloodGuard.ChecksOf(calls, node), from, to) == PassedIn(passed, node, from, to)
  {
    if calls != [] {
      CountIsPassed(calls[..|calls|-1], passed[..|passed|-1], node, from, to);
      var before, c := FloodGuard.ChecksOf(calls[..|calls|-1], node), calls[|calls|-1];
      CountAppend(before, Stamped(c.at, ()), from, to);
    }
  }

  lemma {:induction false} SameTimesNext(calls: seq<FloodGuard.Call>, passed: seq<Arrival>, m: Message, now: real)
    requires SameTimes(calls, passed)
    ensures SameTimes(calls + [Stamped(now, m.node)], passed + [Stamped(now, m)])
  {
  }

  /** What the flood guard would count for a message is what passed, this message included. */
  lemma {:induction false} FloodGuardCountsPassed(cfg: Config, calls: seq<FloodGuard.Call>, passed: seq<Arrival>,
                                                  m: Message, now: real)
    requires SameTimes(calls, passed) && Ordered(calls) && UpTo(calls, now)
    ensures
      var (_, flooding, count) := FloodGuard.Check(cfg.floodMax, FloodGuard.After(calls), m.node, now);
      && count == PassedIn(passed + [Stamped(now, m)], m.node, now - 60.0, now)
      && (flooding <==> count > cfg.floodMax)
  {
    hide FloodGuard.Check, FloodGuard.After, PassedIn;
    FloodGuard.FloodCountIsExact(cfg.floodMax, calls, m.node, now);
    SameTimesNext(calls, passed, m, now);
    hide Ordered, UpTo;
    CountIsPassed(calls + [Stamped(now, m.node)], passed + [Stamped(now, m)], m.node, now - 60.0, now);
  }

  /**
    A flood alert tells the truth.  Its count is the number of the node's messages that passed in
    the closed last minute, this one included, and it exceeds the maximum; rejected messages, however
    many, never count.
  */
  lemma {:induction false} FloodAlertCountsPassed(cfg: Config, offset: int, blacklist: set<string>,
                                                  arrivals: seq<Arrival>, m: Message, now: real, o: Output)
    requires cfg.Usable() && Ordered(arrivals) && UpTo(arrivals, now)
    requires o in Outputs(cfg, Run(cfg, Booted(offset, blacklist), arrivals).0, m, now) && o.notice.Flood?
    ensures
      var passed := Kept(cfg, Booted(offset, blacklist), arrivals) + [Stamped(now, m)];
      && o.notice.node == m.node
      && o.notice.count == PassedIn(passed, m.node, now - 60.0, now)
      && o.notice.count > cfg.floodMax
  {
    hide *;
    var start := Booted(offset, blacklist);
    FloodCallsAreKept(cfg, start, arrivals);
    RunCallsInOrder(cfg, start, arrivals, now);
    RunFeedsGuards(cfg, offset, blacklist, arrivals);
    FloodOutputIs(cfg, Run(cfg, start, arrivals).0, m, now, o);
    FloodGuardCountsPassed(cfg, FloodCalls(cfg, start, arrivals), Kept(cfg, start, arrivals), m, now);
  }

  lemma {:induction false} FloodOutputIs(cfg: Config, g: Gate, m: Message, now: real, o: Output)
    requires cfg.Usable() && o in Outputs(cfg, g, m, now) && o.notice.Flood?
    ensures
      var (_, flooding, count) := FloodGuard.Check(cfg.floodMax, g.flood, m.node, now);
      flooding && o.notice == Flood(m.node, count)
  {
    if Step(cfg, g, m, now).passed {
      SentByPass(cfg, g, m, now);
    } else {
      SentByReject(cfg, g, m, now);
    }
    hide Step, FloodGuard.Check, Outputs;
  }
}
