/**
  The security monitor's event forwarder: a rate limiter per node name, in front of a
  messenger that signs everything as one identity.
*/
module EventForwarder {
  import opened Common
  import opened SlidingWindow
  import FloodGuard

  const RATE_MAX := 15
  const RATE_WINDOW := 60.0

  /** The identity under which every forwarded event reaches the controller. */
  const SIGNER := "security-monitor"

  /** The controller's flood threshold. */
  const FLOOD_MAX := 20

  type Rates = map<string, seq<Tick>>

  function RateOk(rates: Rates, name: string, now: real): (Rates, bool) {
    var q := Evict(Lookup(rates, name, []), now - RATE_WINDOW);
    if |q| >= RATE_MAX then (rates[name := q], false)
    else (rates[name := q + [Stamped(now, ())]], true)
  }

  /** The name an event is limited under; empty strings count as absent. */
  function NameOf(nodeId: string, node: string): string {
    if nodeId != "" then nodeId else if node != "" then node else "unknown"
  }

  class Forwarder {
    var rates: Rates

    constructor ()
      ensures rates == map[]
    {
      rates := map[];
    }

    /** Admit an event or drop it; only admitted events are signed and sent. */
    method Offer(nodeId: string, node: string, now: real) returns (admitted: bool)
      modifies this
      ensures (rates, admitted) == RateOk(old(rates), NameOf(nodeId, node), now)
    {
      var name := NameOf(nodeId, node);
      var q := PopExpired(Lookup(rates, name, []), now - RATE_WINDOW);
      if |q| >= RATE_MAX {
        rates := rates[name := q];
        return false;
      }
      rates := rates[name := q + [Stamped(now, ())]];
      return true;
    }
  }

  // ---- Whole streams of offered events ----

  type Event = Stamped<string>

  ghost function After(events: seq<Event>): Rates {
    if events == [] then map[]
    else RateOk(After(events[..|events|-1]), events[|events|-1].item, events[|events|-1].at).0
  }

  ghost predicate LastAdmitted(events: seq<Event>)
    requires events != []
  {
    RateOk(After(events[..|events|-1]), events[|events|-1].item, events[|events|-1].at).1
  }

  /** The admitted subsequence. */
  ghost function Passed(events: seq<Event>): seq<Event> {
    if events == [] then []
    else
      var before := Passed(events[..|events|-1]);
      if LastAdmitted(events) then before + [events[|events|-1]] else before
  }

  /** How many events of one name fall in the closed interval. */
  ghost function CountOf(h: seq<Event>, name: string, from: real, to: real): nat {
    Count(FloodGuard.ChecksOf(h, name), from, to)
  }

  /** How many entries up to the i-th fall in the minute that ends with it. */
  ghost function Crowd(h: seq<Tick>, i: nat): nat
    requires i < |h|
  {
    Count(h[..i + 1], h[i].at - RATE_WINDOW, h[i].at)
  }

  /** Every admission finds at most 15, itself included, in the minute that ends with it. */
  ghost predicate Limited(h: seq<Tick>) {
    forall i {:trigger Crowd(h, i)} :: 0 <= i < |h| ==> Crowd(h, i) <= RATE_MAX
  }

  /** The limiter's queue q for a name against all its admissions h. */
  ghost predicate Governs(q: seq<Tick>, h: seq<Tick>, now: real) {
    Agrees(q, h, RATE_WINDOW, now) && Ordered(h) && Limited(h)
  }

  lemma {:induction false} LimiterGoverns(events: seq<Event>, name: string, now: real)
    requires Ordered(events) && UpTo(events, now)
    ensures Governs(Lookup(After(events), name, []), FloodGuard.ChecksOf(Passed(events), name), now)
  {
    if events != [] {
      var before, e := events[..|events|-1], events[|events|-1];
      LimiterGoverns(before, name, e.at);
      var q, h := Lookup(After(before), name, []), FloodGuard.ChecksOf(Passed(before), name);
      var q', h' := Lookup(After(events), name, []), FloodGuard.ChecksOf(Passed(events), name);
      assert (Passed(before) + [e])[..|Passed(before)|] == Passed(before);
      if e.item == name {
        LimiterStep(q, h, e.at);
      }
      AgreesLater(q', h', RATE_WINDOW, e.at, now);
    }
  }

  lemma {:induction false} LimiterStep(q: seq<Tick>, h: seq<Tick>, now: real)
    requires Governs(q, h, now)
    ensures
      var kept := Evict(q, now - RATE_WINDOW);
      var tick := Stamped(now, ());
      if |kept| >= RATE_MAX then Governs(kept, h, now) else Governs(kept + [tick], h + [tick], now)
  {
    var kept := Evict(q, now - RATE_WINDOW);
    AgreesEvict(q, h, RATE_WINDOW, now);
    if |kept| < RATE_MAX {
      AgreesAppend(kept, h, RATE_WINDOW, now, ());
      AgreesCount(q, h, RATE_WINDOW, now);
      CountAppend(h, Stamped(now, ()), now - RATE_WINDOW, now);
      LimitedExtends(h, now);
    }
  }

  lemma {:induction false} LimitedExtends(h: seq<Tick>, now: real)
    requires Limited(h)
    requires Count(h + [Stamped(now, ())], now - RATE_WINDOW, now) <= RATE_MAX
    ensures Limited(h + [Stamped(now, ())])
  {
    var h' := h + [Stamped(now, ())];
    forall i | 0 <= i < |h'| ensures Crowd(h', i) <= RATE_MAX {
      if i < |h| {
        assert h'[..i + 1] == h[..i + 1];
        assert Crowd(h', i) == Crowd(h, i);
      } else {
        assert h'[..i + 1] == h';
      }
    }
  }

  lemma {:induction false} CountWidens<T>(h: seq<Stamped<T>>, from: real, to: real, from': real, to': real)
    requires from' <= from && (to <= to' || UpTo(h, to'))
    ensures Count(h, from, to) <= Count(h, from', to')
  {
    if h != [] {
      CountWidens(h[..|h|-1], from, to, from', to');
    }
  }

  lemma {:induction false} CountSplits<T>(h: seq<Stamped<T>>, from: real, mid: real, to: real)
    ensures Count(h, from, to) <= Count(h, from, mid) + Count(h, mid, to)
  {
    if h != [] {
      CountSplits(h[..|h|-1], from, mid, to);
    }
  }

  lemma {:induction false} LimitedInterval(h: seq<Tick>, from: real)
    requires Ordered(h) && Limited(h)
    ensures Count(h, from, from + RATE_WINDOW) <= RATE_MAX
  {
    if h != [] {
      var before, last := h[..|h|-1], h[|h|-1].at;
      forall i | 0 <= i < |before| ensures Crowd(before, i) <= RATE_MAX {
        assert before[..i + 1] == h[..i + 1];
        assert Crowd(before, i) == Crowd(h, i);
      }
      LimitedInterval(before, from);
      if from <= last <= from + RATE_WINDOW {
        assert h[..|before| + 1] == h;
        assert Crowd(h, |before|) <= RATE_MAX;
        CountWidens(h, from, from + RATE_WINDOW, last - RATE_WINDOW, last);
      }
    }
  }

  /** At most 15 admitted per name in any closed minute, 15m in any closed m minutes. */
  lemma {:induction false} RateBound(events: seq<Event>, name: string, from: real, m: nat)
    requires Ordered(events) && m >= 1
    ensures CountOf(Passed(events), name, from, from + 60.0 * m as real) <= 15 * m
  {
    var h := FloodGuard.ChecksOf(Passed(events), name);
    LimiterGoverns(events, name, if events == [] then 0.0 else events[|events|-1].at);
    if m == 1 {
      LimitedInterval(h, from);
    } else {
      var mid := from + RATE_WINDOW * (m - 1) as real;
      RateBound(events, name, from, m - 1);
      LimitedInterval(h, mid);
      CountSplits(h, from, mid, from + RATE_WINDOW * m as real);
    }
  }

  /**
    What the limiter drops.  After any stream in order, an event is admitted exactly if fewer than 15 events of its name
    were admitted in the closed minute before it; its name is its node id, or failing that its node.
  */
  lemma {:induction false} AdmittedIff(events: seq<Event>, nodeId: string, node: string, now: real)
    requires Ordered(events) && UpTo(events, now)
    ensures
      var admitted := RateOk(After(events), NameOf(nodeId, node), now).1;
      && (nodeId != "" ==> (admitted <==> CountOf(Passed(events), nodeId, now - 60.0, now) < 15))
      && (nodeId == "" && node != "" ==> (admitted <==> CountOf(Passed(events), node, now - 60.0, now) < 15))
      && (nodeId == node == "" ==> (admitted <==> CountOf(Passed(events), "unknown", now - 60.0, now) < 15))
  {
    var name := NameOf(nodeId, node);
    LimiterGoverns(events, name, now);
    AgreesCount(Lookup(After(events), name, []), FloodGuard.ChecksOf(Passed(events), name), 60.0, now);
    hide Limited, Agrees, Passed, After;
  }

  // ---- Composition with the controller's flood guard ----

  ghost predicate NamesWithin(events: seq<Event>, names: set<string>) {
    forall e <- events :: e.item in names
  }

  /** The admitted events as the controller sees them: one identity, same times. */
  ghost function Signed(events: seq<Event>): seq<Event> {
    seq(|events|, i requires 0 <= i < |events| => Stamped(events[i].at, SIGNER))
  }

  /** The flood guard flags the last of these calls. */
  ghost predicate Flags(calls: seq<Event>) {
    calls != [] && FloodGuard.Check(FLOOD_MAX, FloodGuard.After(calls[..|calls|-1]),
                                    calls[|calls|-1].item, calls[|calls|-1].at).1
  }

  ghost function Without(h: seq<Event>, name: string): seq<Event> {
    if h == [] then []
    else
      var before := Without(h[..|h|-1], name);
      if h[|h|-1].item == name then before else before + [h[|h|-1]]
  }

  lemma {:induction false} WithoutSplits(h: seq<Event>, name: string, from: real, to: real)
    ensures Count(h, from, to) == CountOf(h, name, from, to) + Count(Without(h, name), from, to)
  {
    if h != [] {
      WithoutSplits(h[..|h|-1], name, from, to);
      CountAppend(Without(h[..|h|-1], name), h[|h|-1], from, to);
      CountAppend(FloodGuard.ChecksOf(h[..|h|-1], name), Stamped(h[|h|-1].at, ()), from, to);
    }
  }

  lemma {:induction false} WithoutOthers(h: seq<Event>, name: string, other: string)
    ensures FloodGuard.ChecksOf(Without(h, name), other) == if other == name then [] else FloodGuard.ChecksOf(h, other)
  {
    if h != [] {
      WithoutOthers(h[..|h|-1], name, other);
      var before := Without(h[..|h|-1], name);
      assert (before + [h[|h|-1]])[..|before|] == before;
    }
  }

  lemma {:induction false} WithoutNames(h: seq<Event>, name: string, names: set<string>)
    requires NamesWithin(h, names)
    ensures NamesWithin(Without(h, name), names - {name})
  {
    if h != [] {
      assert h[|h|-1] in h;
      WithoutNames(h[..|h|-1], name, names);
    }
  }

  /** A bound per name gives a bound for all names together. */
  lemma {:induction false} WithoutCounts(h: seq<Event>, name: string, other: string, from: real, to: real)
    ensures CountOf(Without(h, name), other, from, to) <= CountOf(h, other, from, to)
  {
    WithoutOthers(h, name, other);
    hide Without;
  }

  lemma {:induction false} SumOverNames(h: seq<Event>, names: set<string>, from: real, to: real, bound: nat)
    requires NamesWithin(h, names)
    requires forall n :: CountOf(h, n, from, to) <= bound
    ensures Count(h, from, to) <= bound * |names|
    decreases names
  {
    hide CountOf, Without;
    if h != [] {
      assert h[0] in h;
      var n := h[0].item;
      var h', rest := Without(h, n), names - {n};
      WithoutSplits(h, n, from, to);
      WithoutNames(h, n, names);
      forall x ensures CountOf(h', x, from, to) <= bound {
        WithoutCounts(h, n, x, from, to);
        assert CountOf(h, x, from, to) <= bound;
      }
      SumOverNames(h', rest, from, to, bound);
      assert names == rest + {n} && |names| == |rest| + 1;
      OneMoreTimes(bound, |rest|);
      assert CountOf(h, n, from, to) <= bound;
    } else {
      OneMoreTimes(bound, |names|);
    }
  }

  lemma {:induction false} OneMoreTimes(bound: nat, n: nat)
    ensures bound * (n + 1) == bound * n + bound && bound * n >= 0
  {
  }

  lemma {:induction false} SignedCount(h: seq<Event>, from: real, to: real)
    ensures CountOf(Signed(h), SIGNER, from, to) == Count(h, from, to)
  {
    if h != [] {
      SignedCount(h[..|h|-1], from, to);
      assert Signed(h)[..|h|-1] == Signed(h[..|h|-1]);
    }
  }

  lemma {:induction false} PassedIsPart(events: seq<Event>, now: real, names: set<string>)
    requires Ordered(events) && UpTo(events, now) && NamesWithin(events, names)
    ensures Ordered(Passed(events)) && UpTo(Passed(events), now) && NamesWithin(Passed(events), names)
  {
    if events != [] {
      var e := events[|events|-1];
      assert e in events;
      PassedIsPart(events[..|events|-1], e.at, names);
    }
  }

  /** At most 15k admissions of k names in any closed minute. */
  lemma {:induction false} SharedBound(events: seq<Event>, names: set<string>, now: real)
    requires Ordered(events) && NamesWithin(events, names)
    ensures Count(Passed(events), now - RATE_WINDOW, now) <= RATE_MAX * |names|
  {
    var p := Passed(events);
    var from := now - RATE_WINDOW;
    forall n ensures CountOf(p, n, from, now) <= RATE_MAX {
      RateBound(events, n, from, 1);
    }
    PassedIsPart(events, if events == [] then 0.0 else events[|events|-1].at, names);
    SumOverNames(p, names, from, now, RATE_MAX);
  }

  /** The flood guard's count for a call that is the last of an ordered stream of one identity. */
  lemma {:induction false} SignerCount(admitted: seq<Event>, now: real)
    requires admitted != [] && Ordered(admitted) && admitted[|admitted|-1].at == now
    ensures
      var calls := Signed(admitted);
      FloodGuard.Check(FLOOD_MAX, FloodGuard.After(calls[..|calls|-1]), SIGNER, now).2
      == Count(admitted, now - FloodGuard.WINDOW, now)
  {
    var calls := Signed(admitted);
    FloodGuard.FloodCountIsExact(FLOOD_MAX, calls[..|calls|-1], SIGNER, now);
    assert calls[..|calls|-1] + [Stamped(now, SIGNER)] == calls;
    SignedCount(admitted, now - FloodGuard.WINDOW, now);
  }

  /** The flood guard's count over the admitted stream of k names never exceeds 15k. */
  lemma {:induction false} SharedIdentityBound(events: seq<Event>, names: set<string>, now: real)
    requires Ordered(events) && NamesWithin(events, names)
    requires Passed(events) != [] && Passed(events)[|Passed(events)|-1].at == now
    ensures
      var calls := Signed(Passed(events));
      FloodGuard.Check(FLOOD_MAX, FloodGuard.After(calls[..|calls|-1]), SIGNER, now).2 <= RATE_MAX * |names|
  {
    PassedIsPart(events, if events == [] then 0.0 else events[|events|-1].at, names);
    SignerCount(Passed(events), now);
    SharedBound(events, names, now);
  }

  /** One name's admitted stream is never flagged. */
  lemma {:induction false} OneNameNeverFlagged(events: seq<Event>, names: set<string>)
    requires Ordered(events) && NamesWithin(events, names) && |names| <= 1
    ensures !Flags(Signed(Passed(events)))
  {
    var p := Passed(events);
    if p != [] {
      SharedIdentityBound(events, names, p[|p|-1].at);
    }
  }

  ghost function Burst(name: string, n: nat): seq<Event> {
    seq(n, i => Stamped(0.0, name))
  }

  lemma {:induction false} BurstChecks(a: string, n: nat, b: string, m: nat, name: string)
    requires a != b
    ensures |FloodGuard.ChecksOf(Burst(a, n) + Burst(b, m), name)| ==
            if name == a then n else if name == b then m else 0
    decreases n + m
  {
    var all := Burst(a, n) + Burst(b, m);
    if m > 0 {
      assert all[..|all|-1] == Burst(a, n) + Burst(b, m - 1);
      BurstChecks(a, n, b, m - 1, name);
    } else if n > 0 {
      assert all[..|all|-1] == Burst(a, n - 1) + Burst(b, 0);
      BurstChecks(a, n - 1, b, 0, name);
    }
  }

  lemma {:induction false} CountAtZero<T>(h: seq<Stamped<T>>)
    requires forall i :: 0 <= i < |h| ==> h[i].at == 0.0
    ensures Count(h, -RATE_WINDOW, 0.0) == |h|
  {
    if h != [] {
      CountAtZero(h[..|h|-1]);
    }
  }

  lemma {:induction false} ChecksAtZero(h: seq<Event>, name: string)
    requires forall i :: 0 <= i < |h| ==> h[i].at == 0.0
    ensures forall i :: 0 <= i < |FloodGuard.ChecksOf(h, name)| ==> FloodGuard.ChecksOf(h, name)[i].at == 0.0
  {
    if h != [] {
      ChecksAtZero(h[..|h|-1], name);
    }
  }

  /** Simultaneous events with at most 15 of any name are all admitted. */
  lemma {:induction false} SimultaneousPass(events: seq<Event>)
    requires forall i :: 0 <= i < |events| ==> events[i].at == 0.0
    requires forall name :: |FloodGuard.ChecksOf(events, name)| <= RATE_MAX
    ensures Passed(events) == events
  {
    if events != [] {
      var before, name := events[..|events|-1], events[|events|-1].item;
      forall x ensures |FloodGuard.ChecksOf(before, x)| <= RATE_MAX {
        assert |FloodGuard.ChecksOf(events, x)| <= RATE_MAX;
      }
      SimultaneousPass(before);
      LimiterGoverns(before, name, 0.0);
      AgreesCount(Lookup(After(before), name, []), FloodGuard.ChecksOf(before, name), RATE_WINDOW, 0.0);
      ChecksAtZero(before, name);
      CountAtZero(FloodGuard.ChecksOf(before, name));
      assert |FloodGuard.ChecksOf(events, name)| <= RATE_MAX;
    }
  }

  /** Eleven admitted events each from two names are flagged. */
  lemma {:induction false} TwoNamesFlagged(a: string, b: string)
    requires a != b
    ensures Flags(Signed(Passed(Burst(a, 11) + Burst(b, 11))))
  {
    var events := Burst(a, 11) + Burst(b, 11);
    forall name ensures |FloodGuard.ChecksOf(events, name)| <= RATE_MAX {
      BurstChecks(a, 11, b, 11, name);
    }
    SimultaneousPass(events);
    SignerCount(events, 0.0);
    CountAtZero(events);
  }

  /**
    The limiter keeps the signer under the flood threshold exactly when it serves
    fewer than two names.
  */
  lemma {:induction false} FloodFreeIffOneName(names: set<string>)
    ensures (exists events :: Ordered(events) && NamesWithin(events, names) && Flags(Signed(Passed(events))))
            <==> |names| >= 2
  {
    if |names| >= 2 {
      var a :| a in names;
      assert |names - {a}| >= 1;
      var b :| b in names - {a};
      TwoNamesFlagged(a, b);
      assert NamesWithin(Burst(a, 11) + Burst(b, 11), names);
    } else {
      forall events | Ordered(events) && NamesWithin(events, names) ensures !Flags(Signed(Passed(events))) {
        OneNameNeverFlagged(events, names);
      }
    }
  }
}
