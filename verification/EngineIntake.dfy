/** How the risk engine decides which received messages to commit: validation and the offset watermark. */
module EngineIntake {
  import opened Common
  import opened SlidingWindow
  import opened Controller
  import opened ControllerRuns

  const REQUIRED: set<string> :=
    {"node", "cpu_usage", "memory_usage", "process_count", "event_type", "reasons", "_offset"}

  /** The keys of a message as the engine receives it. */
  function KeysOf(o: Output): set<string> {
    match o.notice
    case Forwarded(m) => m.keys + {"_offset", "_received_at"}
    case _ => REQUIRED + {"_received_at", "security_alert"}
  }

  predicate SecurityAlert(o: Output) {
    match o.notice
    case Forwarded(m) => m.securityAlert
    case _ => true
  }

  predicate Validate(o: Output) {
    if SecurityAlert(o) then {"node", "_offset"} <= KeysOf(o) else REQUIRED <= KeysOf(o)
  }

  function NodeOf(o: Output): string {
    match o.notice
    case Tamper(node, _) => node
    case Rogue(node, _, _) => node
    case Replay(node, _, _, _) => node
    case Flood(node, _) => node
    case Impersonation(node, _, _) => node
    case Forwarded(m) => m.node
  }

  /**
    A forwarded message is accepted as it is: seven fields present, or for one that says it is an alert its
    node alone.
  */
  lemma {:induction false} ForwardedValidIff(o: Output)
    requires o.notice.Forwarded?
    ensures
      var m := o.notice.message;
      Validate(o) <==>
        && "node" in m.keys
        && (m.securityAlert ||
            {"cpu_usage", "memory_usage", "process_count", "event_type", "reasons"} <= m.keys)
  {
  }

  predicate Commits(mark: int, o: Output) {
    Validate(o) && o.offset > mark
  }

  /** The watermark after a stream in which no commit fails. */
  function MarkAfter(mark: int, stream: seq<Output>): int
    decreases |stream|
  {
    if stream == [] then mark
    else MarkAfter(if Commits(mark, stream[0]) then stream[0].offset else mark, stream[1..])
  }

  /** The messages committed from a stream in which no commit fails. */
  function Committed(mark: int, stream: seq<Output>): seq<Output>
    decreases |stream|
  {
    if stream == [] then []
    else if Commits(mark, stream[0]) then [stream[0]] + Committed(stream[0].offset, stream[1..])
    else Committed(mark, stream[1..])
  }

  /** Full deduplication: remember every committed offset, commit a valid message iff its offset is new. */
  ghost function Firsts(known: set<int>, stream: seq<Output>): seq<Output>
    decreases |stream|
  {
    if stream == [] then []
    else if Validate(stream[0]) && stream[0].offset !in known then
      [stream[0]] + Firsts(known + {stream[0].offset}, stream[1..])
    else Firsts(known, stream[1..])
  }

  lemma {:induction false} MarkIsFullDedup(mark: int, known: set<int>, stream: seq<Output>)
    requires forall i, j :: 0 <= i < j < |stream| ==> stream[i].offset <= stream[j].offset
    requires forall o <- known :: o <= mark
    requires forall i :: 0 <= i < |stream| ==> mark <= stream[i].offset && (stream[i].offset == mark ==> mark in known)
    ensures Committed(mark, stream) == Firsts(known, stream)
    decreases |stream|
  {
    hide Validate;
    if stream != [] {
      var o := stream[0];
      if Commits(mark, o) {
        MarkIsFullDedup(o.offset, known + {o.offset}, stream[1..]);
      } else {
        MarkIsFullDedup(mark, known, stream[1..]);
      }
    }
  }

  /**
    One integer does the work of a set of all offsets: on everything a controller run
    sends, the engine commits exactly the first valid message of each offset.
  */
  lemma {:induction false} WatermarkIsFullDedup(cfg: Config, g: Gate, arrivals: seq<Arrival>, mark: int)
    requires cfg.Usable() && mark <= g.offset
    ensures Committed(mark, Run(cfg, g, arrivals).1) == Firsts({}, Run(cfg, g, arrivals).1)
  {
    RunAscends(cfg, g, arrivals);
    MarkIsFullDedup(mark, {}, Run(cfg, g, arrivals).1);
  }

  lemma {:induction false} RunConcat(cfg: Config, g: Gate, front: seq<Arrival>, back: seq<Arrival>)
    requires cfg.Usable()
    ensures
      var (mid, outs) := Run(cfg, g, front);
      Run(cfg, g, front + back) == (Run(cfg, mid, back).0, outs + Run(cfg, mid, back).1)
    decreases |front|
  {
    hide Step, Outputs;
    if front == [] {
      assert front + back == back;
      assert [] + Run(cfg, g, back).1 == Run(cfg, g, back).1;
    } else {
      var a := front[0];
      var g' := Step(cfg, g, a.item, a.at).gate;
      RunConcat(cfg, g', front[1..], back);
      assert (front + back)[1..] == front[1..] + back;
      ConcatAssociates(Outputs(cfg, g, a.item, a.at), Run(cfg, g', front[1..]).1,
                       Run(cfg, Run(cfg, g, front).0, back).1);
    }
  }

  /** Equal offsets arise only within one step: wherever a run is cut between two messages, offsets rise strictly. */
  lemma {:induction false} OffsetsRiseAcrossSteps(cfg: Config, g: Gate, front: seq<Arrival>, back: seq<Arrival>, i: nat,
                                                  j: nat)
    requires cfg.Usable()
    requires i < |Run(cfg, g, front).1| <= j < |Run(cfg, g, front + back).1|
    ensures Run(cfg, g, front + back).1[i].offset < Run(cfg, g, front + back).1[j].offset
  {
    var (mid, outs) := Run(cfg, g, front);
    RunConcat(cfg, g, front, back);
    RunAscends(cfg, g, front);
    RunAscends(cfg, mid, back);
  }

  /** A message that is invalid or not above the watermark changes nothing, wherever it is inserted. */
  lemma {:induction false} InsertedBelowMark(mark: int, front: seq<Output>, o: Output, back: seq<Output>)
    requires !Validate(o) || o.offset <= MarkAfter(mark, front)
    ensures Committed(mark, front + [o] + back) == Committed(mark, front + back)
    ensures MarkAfter(mark, front + [o] + back) == MarkAfter(mark, front + back)
    decreases |front|
  {
    hide Validate;
    if front == [] {
      assert front + [o] + back == [o] + back && front + back == back;
      assert ([o] + back)[1..] == back;
    } else {
      InsertedBelowMark(if Commits(mark, front[0]) then front[0].offset else mark, front[1..], o, back);
      assert (front + [o] + back)[1..] == front[1..] + [o] + back;
      assert (front + back)[1..] == front[1..] + back;
    }
  }
}
