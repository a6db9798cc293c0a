/**
  A flood alert shares its offset with the next output of its step: which of a passing step's outputs the
  engine commits.
*/
module SharedOffsets {
  import opened Common
  import opened SlidingWindow
  import opened SecureMessenger
  import opened Controller
  import opened ControllerRuns
  import opened EngineIntake
  import FloodGuard
  import ReplayGuard

  lemma {:induction false} CommittedConcat(mark: int, a: seq<Output>, b: seq<Output>)
    ensures Committed(mark, a + b) == Committed(mark, a) + Committed(MarkAfter(mark, a), b)
    ensures MarkAfter(mark, a + b) == MarkAfter(MarkAfter(mark, a), b)
    decreases |a|
  {
    hide Commits;
    if a == [] {
      assert a + b == b;
    } else {
      CommittedConcat(if Commits(mark, a[0]) then a[0].offset else mark, a[1..], b);
      assert (a + b)[1..] == a[1..] + b;
    }
  }

  /** Only what was received is committed, and the watermark stays within it. */
  lemma {:induction false} CommittedWithin(mark: int, stream: seq<Output>, high: int)
    requires mark <= high && forall o <- stream :: o.offset <= high
    ensures MarkAfter(mark, stream) <= high && forall o <- Committed(mark, stream) :: o in stream
    decreases |stream|
  {
    hide Validate;
    if stream != [] {
      assert stream[0] in stream;
      CommittedWithin(if Commits(mark, stream[0]) then stream[0].offset else mark, stream[1..], high);
    }
  }

  lemma {:induction false} AlertIsValid(o: Output)
    requires !o.notice.Forwarded?
    ensures Validate(o)
  {
  }

  /** The outputs of one passing step against the watermark: a flood alert shadows what shares its offset. */
  lemma {:induction false} PassedStepCommits(cfg: Config, g: Gate, m: Message, now: real, mark: int)
    requires cfg.Usable() && mark <= g.offset && Step(cfg, g, m, now).passed
    ensures
      var flood, identity, forward := FloodOutput(cfg, g, m, now), IdentityOutput(g, m, now), ForwardOutput(g, m, now);
      Committed(mark, Outputs(cfg, g, m, now)) ==
        (if flood != [] then flood else identity)
        + (if Validate(forward) && (flood == [] || IdentityChanged(g, m)) then [forward] else [])
  {
    SentByPass(cfg, g, m, now);
    var flood, identity, forward := FloodOutput(cfg, g, m, now), IdentityOutput(g, m, now), ForwardOutput(g, m, now);
    if flood != [] { AlertIsValid(flood[0]); }
    if identity != [] { AlertIsValid(identity[0]); }
    hide Step, Outputs, Validate, FloodGuard.Check;
    var first := if flood != [] then flood else identity;
    CommittedConcat(mark, flood + identity, [forward]);
    CommittedConcat(mark, flood, identity);
    assert flood == [] || (flood == [flood[0]] && flood[1..] == []);
    assert identity == [] || (identity == [identity[0]] && identity[1..] == []);
    assert [forward][1..] == [];
    assert Committed(mark, flood + identity) == first;
    assert MarkAfter(mark, flood + identity) == if first == [] then mark else g.offset + 1;
  }

  /** A message in a stream: what arrived before it, itself, and what arrived after it. */
  datatype Place = Place(front: seq<Arrival>, arrival: Arrival, back: seq<Arrival>) {
    function Stream(): seq<Arrival> { front + [arrival] + back }
  }

  /** An output of one step is committed from the whole run as it is from that step's outputs alone. */
  lemma {:induction false} CommittedInRun(cfg: Config, g: Gate, p: Place, mark: int, x: Output)
    requires cfg.Usable() && mark <= g.offset
    requires x in Outputs(cfg, Run(cfg, g, p.front).0, p.arrival.item, p.arrival.at)
    ensures
      var (mid, outs) := Run(cfg, g, p.front);
      && MarkAfter(mark, outs) <= mid.offset
      && (x in Committed(mark, Run(cfg, g, p.Stream()).1) <==>
          x in Committed(MarkAfter(mark, outs), Outputs(cfg, mid, p.arrival.item, p.arrival.at)))
  {
    var (mid, outs) := Run(cfg, g, p.front);
    var a := p.arrival;
    var mine := Outputs(cfg, mid, a.item, a.at);
    var next := Step(cfg, mid, a.item, a.at).gate;
    var rest := Run(cfg, next, p.back).1;
    RunAscends(cfg, g, p.front);
    StepAscends(cfg, mid, a.item, a.at);
    RunAscends(cfg, next, p.back);
    assert p.Stream() == p.front + ([a] + p.back);
    RunConcat(cfg, g, p.front, [a] + p.back);
    assert ([a] + p.back)[1..] == p.back;
    assert Run(cfg, mid, [a] + p.back).1 == mine + rest;
    hide Run, Step, Outputs, Validate;
    var mark1 := MarkAfter(mark, outs);
    CommittedConcat(mark, outs, mine + rest);
    CommittedConcat(mark1, mine, rest);
    CommittedWithin(mark, outs, mid.offset);
    CommittedWithin(mark1, mine, next.offset);
    CommittedWithin(MarkAfter(mark1, mine), rest, MaxOffset(rest, next.offset));
    hide Committed, MarkAfter;
    assert x !in outs;
    assert x !in rest;
  }

  ghost function MaxOffset(outputs: seq<Output>, least: int): (r: int)
    ensures r >= least && forall o <- outputs :: o.offset <= r
  {
    if outputs == [] then least
    else
      var rest := MaxOffset(outputs[1..], least);
      if outputs[0].offset > rest then outputs[0].offset else rest
  }

  /**
    What reaches the database.  Wherever a passing message stands in a run, the engine commits it iff
    it is valid and either no flood alert is due with it or its machine id has changed; and it
    commits the impersonation alert iff no flood alert is due.  A flood alert is always committed.
  */
  lemma {:induction false} PassedReachesDatabaseIff(cfg: Config, g: Gate, p: Place, mark: int)
    requires cfg.Usable() && mark <= g.offset
    requires Step(cfg, Run(cfg, g, p.front).0, p.arrival.item, p.arrival.at).passed
    ensures
      var mid := Run(cfg, g, p.front).0;
      var (m, now) := (p.arrival.item, p.arrival.at);
      var flood, forward := FloodOutput(cfg, mid, m, now), ForwardOutput(mid, m, now);
      var committed := Committed(mark, Run(cfg, g, p.Stream()).1);
      && (forward in committed <==> Validate(forward) && (flood == [] || IdentityChanged(mid, m)))
      && (IdentityChanged(mid, m) ==> (IdentityOutput(mid, m, now)[0] in committed <==> flood == []))
      && (flood != [] ==> flood[0] in committed)
  {
    var (mid, outs) := Run(cfg, g, p.front);
    var (m, now) := (p.arrival.item, p.arrival.at);
    var flood, identity := FloodOutput(cfg, mid, m, now), IdentityOutput(mid, m, now);
    var forward := ForwardOutput(mid, m, now);
    SentByPass(cfg, mid, m, now);
    hide Run, Step, Outputs, Validate, FloodGuard.Check;
    CommittedInRun(cfg, g, p, mark, forward);
    if flood != [] { CommittedInRun(cfg, g, p, mark, flood[0]); }
    if identity != [] { CommittedInRun(cfg, g, p, mark, identity[0]); }
    PassedStepCommits(cfg, mid, m, now, MarkAfter(mark, outs));
  }

  // ---- Both losses, under the shipped threshold ----

  const NODE := "node1"
  const NOON := 43200.0

  function Id(k: nat): string {
    seq(k, _ => 'x')
  }

  /** Who signs the burst. */
  datatype Signer = Signer(mac: Mac, secret: string) {
    /** The k-th message of a burst, all at one moment. */
    function Signs(k: nat, machineId: string): Message {
      Sealed(mac, secret, NODE, machineId, PAYLOAD, Id(k), k, NOON)
    }
  }

  const PAYLOAD := Message("", "", "", 0, None, REQUIRED, false, "", "")

  function Burst(signer: Signer, n: nat): seq<Arrival> {
    if n == 0 then [] else Burst(signer, n - 1) + [Stamped(NOON, signer.Signs(n, "m"))]
  }

  ghost function BurstSeen(n: nat): seq<Stamped<ReplayGuard.Seen>> {
    seq(n, i requires 0 <= i => Stamped(NOON, ReplayGuard.Seen(Id(i + 1), i + 1)))
  }

  ghost function BurstTicks(n: nat): seq<Tick> {
    seq(n, i => Stamped(NOON, ()))
  }

  /** The shipped limits, the node allowed, and the controller's own verification with the signer's secret. */
  ghost predicate Shipped(cfg: Config, signer: Signer) {
    && cfg.limits == ReplayGuard.Limits(30.0, 1000) && cfg.floodMax == 20 && !cfg.Disallows(NODE)
    && (forall m :: cfg.verify(m) <==> Verify(signer.mac, signer.secret, m))
    && forall secret, m :: signer.mac(secret, m) != ""
  }

  lemma {:induction false} BurstVerifies(cfg: Config, signer: Signer, k: nat, machineId: string)
    requires Shipped(cfg, signer)
    ensures cfg.verify(signer.Signs(k, machineId))
  {
    SealedVerifies(signer.mac, signer.secret, NODE, machineId, PAYLOAD, Id(k), k, NOON);
  }

  /** The gate after n messages of the burst. */
  ghost predicate Bursting(g: Gate, n: nat) {
    && g.offset == n && g.blacklist == {} && g.floodAlerted == map[]
    && Lookup(g.replay.seen, NODE, []) == BurstSeen(n) && Lookup(g.replay.lastSeq, NODE, -1) <= n
    && Lookup(g.flood, NODE, []) == BurstTicks(n)
    && Lookup(g.machineIds, NODE, "m") == "m" && (n > 0 ==> NODE in g.machineIds)
  }

  lemma {:induction false} BurstChecked(cfg: Config, signer: Signer, g: Gate, n: nat, machineId: string)
    requires Shipped(cfg, signer) && Bursting(g, n) && n < 1000
    ensures
      var m := signer.Signs(n + 1, machineId);
      var (replay, verdict) := ReplayGuard.Check(cfg.limits, g.replay, EnvelopeOf(m), NOON);
      verdict.Accepted? && Lookup(replay.seen, NODE, []) == BurstSeen(n + 1) &&
        Lookup(replay.lastSeq, NODE, -1) == n + 1
    ensures
      var (flood, flooding, count) := FloodGuard.Check(cfg.floodMax, g.flood, NODE, NOON);
      Lookup(flood, NODE, []) == BurstTicks(n + 1) && count == n + 1 && (flooding <==> n + 1 > 20)
  {
    var q := BurstSeen(n);
    assert Evict(q, NOON - 30.0) == q && Evict(BurstTicks(n), NOON - FloodGuard.WINDOW) == BurstTicks(n);
    var id := Id(n + 1);
    forall i | 0 <= i < n ensures q[i].item.msgId != id {
      assert |q[i].item.msgId| == i + 1;
    }
    assert BurstSeen(n + 1) == q + [Stamped(NOON, ReplayGuard.Seen(id, n + 1))];
    assert BurstTicks(n + 1) == BurstTicks(n) + [Stamped(NOON, ())];
    hide ReplayGuard.Exempt;
  }

  lemma {:induction false} BurstStep(cfg: Config, signer: Signer, g: Gate, n: nat, machineId: string)
    requires Shipped(cfg, signer) && Bursting(g, n) && n < 1000
    ensures
      var m := signer.Signs(n + 1, machineId);
      && Step(cfg, g, m, NOON).passed
      && (FloodOutput(cfg, g, m, NOON) != [] <==> n + 1 > 20)
      && (n + 1 <= 20 && machineId == "m" ==> Bursting(Step(cfg, g, m, NOON).gate, n + 1))
  {
    BurstChecked(cfg, signer, g, n, machineId);
    BurstVerifies(cfg, signer, n + 1, machineId);
    hide ReplayGuard.Check, FloodGuard.Check, BurstSeen, BurstTicks;
  }

  lemma {:induction false} RunOne(cfg: Config, g: Gate, a: Arrival)
    requires cfg.Usable()
    ensures Run(cfg, g, [a]).0 == Step(cfg, g, a.item, a.at).gate
  {
    hide Step, Outputs;
    assert [a][1..] == [];
    assert Run(cfg, Step(cfg, g, a.item, a.at).gate, []).0 == Step(cfg, g, a.item, a.at).gate;
  }

  lemma {:induction false} BurstNone()
    ensures Bursting(Booted(0, {}), 0)
  {
    assert BurstSeen(0) == [] && BurstTicks(0) == [];
  }

  /** One more message of the burst. */
  lemma {:induction false} BurstNext(cfg: Config, signer: Signer, g: Gate, n: nat)
    requires Shipped(cfg, signer) && Bursting(g, n) && n < 20
    ensures Bursting(Run(cfg, g, [Stamped(NOON, signer.Signs(n + 1, "m"))]).0, n + 1)
  {
    BurstStep(cfg, signer, g, n, "m");
    RunOne(cfg, g, Stamped(NOON, signer.Signs(n + 1, "m")));
    hide Step, Run, Signer.Signs, Bursting;
  }

  lemma {:induction false} BurstRun(cfg: Config, signer: Signer, n: nat)
    requires Shipped(cfg, signer) && n <= 20
    ensures Bursting(Run(cfg, Booted(0, {}), Burst(signer, n)).0, n)
  {
    var start := Booted(0, {});
    if n == 0 {
      BurstNone();
      hide Bursting;
    } else {
      assert cfg.Usable();
      hide Shipped, Run, Bursting, Signer.Signs, Booted;
      BurstRun(cfg, signer, n - 1);
      BurstNext(cfg, signer, Run(cfg, start, Burst(signer, n - 1)).0, n - 1);
      RunConcat(cfg, start, Burst(signer, n - 1), [Stamped(NOON, signer.Signs(n, "m"))]);
    }
  }

  /** The message that trips the flood guard is forwarded and never committed. */
  lemma {:induction false} FloodingMessageLost(cfg: Config, signer: Signer)
    requires Shipped(cfg, signer)
    ensures
      var p := Place(Burst(signer, 20), Stamped(NOON, signer.Signs(21, "m")), []);
      var outs := Run(cfg, Booted(0, {}), p.Stream()).1;
      exists o :: o in outs && o.notice == Forwarded(p.arrival.item.(hmac := "")) && Validate(o) &&
        o !in Committed(0, outs)
  {
    var start := Booted(0, {});
    var m := signer.Signs(21, "m");
    var p := Place(Burst(signer, 20), Stamped(NOON, m), []);
    var g := Run(cfg, start, Burst(signer, 20)).0;
    BurstRun(cfg, signer, 20);
    BurstStep(cfg, signer, g, 20, "m");
    assert !IdentityChanged(g, m);
    var o := ForwardOutput(g, m, NOON);
    BurstIsValid(signer, o, 21, "m");
    SentByPass(cfg, g, m, NOON);
    InRun(cfg, start, p, o);
    hide Step, Run, Outputs, Committed, FloodOutput, Burst, Validate;
    PassedReachesDatabaseIff(cfg, start, p, 0);
  }

  /** With a changed machine id the message survives and the impersonation alert is the one lost. */
  lemma {:induction false} ImpersonationAlertLost(cfg: Config, signer: Signer)
    requires Shipped(cfg, signer)
    ensures
      var p := Place(Burst(signer, 20), Stamped(NOON, signer.Signs(21, "other")), []);
      var outs := Run(cfg, Booted(0, {}), p.Stream()).1;
      exists o :: o in outs && o.notice == Impersonation(NODE, "m", "other") && o !in Committed(0, outs)
  {
    var start := Booted(0, {});
    var m := signer.Signs(21, "other");
    var p := Place(Burst(signer, 20), Stamped(NOON, m), []);
    var g := Run(cfg, start, Burst(signer, 20)).0;
    BurstRun(cfg, signer, 20);
    BurstStep(cfg, signer, g, 20, "other");
    assert "m" != "other" && IdentityChanged(g, m);
    var o := IdentityOutput(g, m, NOON)[0];
    SentByPass(cfg, g, m, NOON);
    InRun(cfg, start, p, o);
    hide Step, Run, Outputs, Committed, FloodOutput, Burst;
    PassedReachesDatabaseIff(cfg, start, p, 0);
  }

  lemma {:induction false} BurstIsValid(signer: Signer, o: Output, k: nat, machineId: string)
    requires o.notice == Forwarded(signer.Signs(k, machineId).(hmac := ""))
    ensures Validate(o)
  {
  }

  lemma {:induction false} InRun(cfg: Config, g: Gate, p: Place, o: Output)
    requires cfg.Usable() && o in Outputs(cfg, Run(cfg, g, p.front).0, p.arrival.item, p.arrival.at)
    ensures o in Run(cfg, g, p.Stream()).1
  {
    var mid := Run(cfg, g, p.front).0;
    assert p.Stream() == p.front + ([p.arrival] + p.back);
    RunConcat(cfg, g, p.front, [p.arrival] + p.back);
    assert ([p.arrival] + p.back)[1..] == p.back;
    hide Step, Outputs;
  }
}
