/** The event loop over a stream of received outputs: the watermark on the engine's whole state. */
module EngineStream {
  import opened Common
  import opened SlidingWindow
  import opened Controller
  import opened ControllerRuns
  import opened ControllerAlerts
  import opened Delivery
  import EngineIntake
  import Store
  import Rules
  import Pipeline
  import RiskEngine

  /** One receipt: an output, with the rules in force, the clock, and whether its container stops. */
  datatype Receipt = Receipt(output: Output, rules: seq<Rules.Rule>, now: real, stops: bool)

  function OutputsOf(receipts: seq<Receipt>): seq<Output> {
    if receipts == [] then [] else [receipts[0].output] + OutputsOf(receipts[1..])
  }

  function EventOf(p: Plant, r: Receipt): RiskEngine.Action {
    RiskEngine.OnEvent(r.rules, p.read(r.output), r.now, r.stops, RiskEngine.NoFault)
  }

  /** The engine after handling the receipts in order. */
  function HandleAll(p: Plant, s: RiskEngine.State, receipts: seq<Receipt>): RiskEngine.State
    requires p.Usable()
    decreases |receipts|
  {
    if receipts == [] then s else HandleAll(p, RiskEngine.Next(p.scoring, s, EventOf(p, receipts[0])), receipts[1..])
  }

  /** The receipts above the watermark of their moment. */
  function Effective(mark: int, receipts: seq<Receipt>): seq<Receipt>
    decreases |receipts|
  {
    if receipts == [] then []
    else if EngineIntake.Commits(mark, receipts[0].output) then
      [receipts[0]] + Effective(receipts[0].output.offset, receipts[1..])
    else Effective(mark, receipts[1..])
  }

  lemma {:induction false} EffectiveIsCommitted(mark: int, receipts: seq<Receipt>)
    ensures OutputsOf(Effective(mark, receipts)) == EngineIntake.Committed(mark, OutputsOf(receipts))
    decreases |receipts|
  {
    hide EngineIntake.Commits;
    if receipts != [] {
      var o := receipts[0].output;
      var outs := OutputsOf(receipts);
      assert outs[1..] == OutputsOf(receipts[1..]);
      if EngineIntake.Commits(mark, o) {
        EffectiveIsCommitted(o.offset, receipts[1..]);
        var e := Effective(mark, receipts);
        assert e[1..] == Effective(o.offset, receipts[1..]);
      } else {
        EffectiveIsCommitted(mark, receipts[1..]);
      }
    }
  }

  /** One receipt in the engine: nothing at all, or exactly one row, of that node and time, and the new watermark. */
  lemma {:induction false} ReceiptHandled(p: Plant, s: RiskEngine.State, r: Receipt)
    requires p.Usable() && Reads(p.read)
    ensures
      var s' := RiskEngine.Next(p.scoring, s, EventOf(p, r));
      if EngineIntake.Commits(s.lastOffset, r.output) then
        && s'.lastOffset == s'.db.watermark == r.output.offset
        && |s'.db.events| == |s.db.events| + 1 && s'.db.events[..|s.db.events|] == s.db.events
        && var row := s'.db.events[|s.db.events|];
           row.node == EngineIntake.NodeOf(r.output) && row.at == p.read(r.output).receivedAt && row.scored.Some?
      else s' == s
  {
    var m := p.read(r.output);
    if EngineIntake.Commits(s.lastOffset, r.output) {
      hide EngineIntake.Validate;
      RiskEngine.HandledChanges(p.scoring, s, EventOf(p, r), m.event.node);
      Pipeline.ProcessIdentifies(p.scoring, r.rules, s.tables, m.event, Store.ScoreOf(s.db, m.event.node), r.now);
      hide RiskEngine.Next, Pipeline.Process, EngineIntake.NodeOf, Store.RuleIds;
    }
  }

  /** The rows belong to these outputs, one each, in order. */
  ghost predicate RowsOf(p: Plant, rows: seq<Store.EventRow>, outputs: seq<Output>) {
    |rows| == |outputs| &&
    forall i :: 0 <= i < |rows| ==>
      rows[i].node == EngineIntake.NodeOf(outputs[i]) && rows[i].at == p.read(outputs[i]).receivedAt &&
        rows[i].scored.Some?
  }

  lemma {:induction false} RowsCons(p: Plant, row: Store.EventRow, rows: seq<Store.EventRow>, o: Output,
                                    outputs: seq<Output>)
    requires RowsOf(p, [row], [o]) && RowsOf(p, rows, outputs)
    ensures RowsOf(p, [row] + rows, [o] + outputs)
  {
    hide EngineIntake.NodeOf;
    var all, outs := [row] + rows, [o] + outputs;
    forall i | 0 <= i < |all|
      ensures all[i].node == EngineIntake.NodeOf(outs[i]) && all[i].at == p.read(outs[i]).receivedAt
      ensures all[i].scored.Some?
    {
      assert [row][0] == row && [o][0] == o;
      if i > 0 { assert all[i] == rows[i - 1] && outs[i] == outputs[i - 1]; }
    }
  }

  /**
    The event loop commits what the watermark rule says.  Over any stream the engine appends exactly one row
    for each committed output, in order, its watermark ends where the rule's does, and its whole state is
    that of an engine which was sent the committed outputs alone.
  */
  lemma {:induction false} LoopCommits(p: Plant, s: RiskEngine.State, receipts: seq<Receipt>)
    requires p.Usable() && Reads(p.read)
    ensures
      var s' := HandleAll(p, s, receipts);
      && s'.lastOffset == EngineIntake.MarkAfter(s.lastOffset, OutputsOf(receipts))
      && s.db.events <= s'.db.events
      && RowsOf(p, s'.db.events[|s.db.events|..], EngineIntake.Committed(s.lastOffset, OutputsOf(receipts)))
      && s' == HandleAll(p, s, Effective(s.lastOffset, receipts))
    decreases |receipts|
  {
    hide RiskEngine.Next, EventOf, EngineIntake.Commits, EngineIntake.NodeOf, Reads;
    if receipts != [] {
      var r := receipts[0];
      var next := RiskEngine.Next(p.scoring, s, EventOf(p, r));
      var outs := OutputsOf(receipts);
      assert outs[0] == r.output && outs[1..] == OutputsOf(receipts[1..]);
      ReceiptHandled(p, s, r);
      LoopCommits(p, next, receipts[1..]);
      if EngineIntake.Commits(s.lastOffset, r.output) {
        var s' := HandleAll(p, s, receipts);
        var n := |s.db.events|;
        assert s'.db.events[n..] == [next.db.events[n]] + s'.db.events[n + 1..];
        RowsCons(p, next.db.events[n], s'.db.events[n + 1..], r.output,
                 EngineIntake.Committed(r.output.offset, outs[1..]));
        var e := Effective(s.lastOffset, receipts);
        assert e[0] == r && e[1..] == Effective(r.output.offset, receipts[1..]);
      }
    }
  }

  /**
    One integer does the work of a set of all offsets, on the engine itself: on everything a controller
    sends, the engine's state and rows are those of the first valid message of each offset.
  */
  lemma {:induction false} LoopIsFullDedup(p: Plant, g: Gate, arrivals: seq<Arrival>, s: RiskEngine.State,
                                           receipts: seq<Receipt>)
    requires p.Usable() && Reads(p.read) && s.lastOffset <= g.offset
    requires OutputsOf(receipts) == Run(p.gate, g, arrivals).1
    ensures
      var s' := HandleAll(p, s, receipts);
      var firsts := Effective(s.lastOffset, receipts);
      && OutputsOf(firsts) == EngineIntake.Firsts({}, Run(p.gate, g, arrivals).1)
      && s' == HandleAll(p, s, firsts)
      && s.db.events <= s'.db.events && RowsOf(p, s'.db.events[|s.db.events|..], OutputsOf(firsts))
  {
    LoopCommits(p, s, receipts);
    EffectiveIsCommitted(s.lastOffset, receipts);
    EngineIntake.WatermarkIsFullDedup(p.gate, g, arrivals, s.lastOffset);
    hide Run, HandleAll, Effective, OutputsOf, RowsOf, Reads;
  }

  lemma {:induction false} HandleAppend(p: Plant, s: RiskEngine.State, a: seq<Receipt>, b: seq<Receipt>)
    requires p.Usable()
    ensures HandleAll(p, s, a + b) == HandleAll(p, HandleAll(p, s, a), b)
    decreases |a|
  {
    hide RiskEngine.Next, EventOf;
    if a == [] {
      assert a + b == b;
    } else {
      HandleAppend(p, RiskEngine.Next(p.scoring, s, EventOf(p, a[0])), a[1..], b);
      assert (a + b)[1..] == a[1..] + b;
    }
  }

  /**
    A message that is malformed or not above the engine's watermark changes nothing of its state, wherever it
    is inserted.
  */
  lemma {:induction false} InsertedChangesNothing(p: Plant, s: RiskEngine.State, front: seq<Receipt>, r: Receipt,
                                                  back: seq<Receipt>)
    requires p.Usable() && Reads(p.read)
    requires !EngineIntake.Validate(r.output) || r.output.offset <= HandleAll(p, s, front).lastOffset
    ensures HandleAll(p, s, front + [r] + back) == HandleAll(p, s, front + back)
  {
    var mid := HandleAll(p, s, front);
    ReceiptHandled(p, mid, r);
    HandleAppend(p, s, front + [r], back);
    HandleAppend(p, s, front, [r]);
    HandleAppend(p, s, front, back);
    assert [r][1..] == [];
    hide RiskEngine.Next, EventOf, EngineIntake.Validate, Reads;
    assert HandleAll(p, RiskEngine.Next(p.scoring, mid, EventOf(p, r)), []) == mid;
    assert HandleAll(p, mid, [r]) == mid;
  }

  lemma {:induction false} CommittedAmong(mark: int, stream: seq<Output>)
    ensures forall o <- EngineIntake.Committed(mark, stream) :: o in stream
    decreases |stream|
  {
    hide EngineIntake.Commits;
    if stream != [] {
      var o := stream[0];
      CommittedAmong(o.offset, stream[1..]);
      CommittedAmong(mark, stream[1..]);
      assert stream == [o] + stream[1..];
    }
  }

  /** Some message that arrived gave this node. */
  ghost predicate Arrived(arrivals: seq<Arrival>, node: string) {
    exists a :: a in arrivals && a.item.node == node
  }

  /**
    From the wire to the row.  On everything a controller sends, every row the engine writes is scored under the name of
    the node of some message that arrived: no alert, and no forwarded message, is put on another node.
  */
  lemma {:induction false} RowsNameArrivals(p: Plant, g: Gate, arrivals: seq<Arrival>, s: RiskEngine.State,
                                            receipts: seq<Receipt>)
    requires p.Usable() && Reads(p.read) && OutputsOf(receipts) == Run(p.gate, g, arrivals).1
    ensures
      var rows := HandleAll(p, s, receipts).db.events;
      && s.db.events <= rows
      && forall i :: |s.db.events| <= i < |rows| ==> Arrived(arrivals, rows[i].node)
  {
    assert p.gate.Usable();
    hide *;
    var outs := OutputsOf(receipts);
    LoopCommits(p, s, receipts);
    CommittedAmong(s.lastOffset, outs);
    RunNames(p.gate, g, arrivals);
    var all, n := HandleAll(p, s, receipts).db.events, |s.db.events|;
    RowsArrived(p, all[n..], EngineIntake.Committed(s.lastOffset, outs), outs, arrivals);
    ArrivedFrom(all, n, arrivals);
  }

  lemma {:induction false} ArrivedFrom(all: seq<Store.EventRow>, n: nat, arrivals: seq<Arrival>)
    requires n <= |all| && forall i :: 0 <= i < |all[n..]| ==> Arrived(arrivals, all[n..][i].node)
    ensures forall i :: n <= i < |all| ==> Arrived(arrivals, all[i].node)
  {
    hide Arrived;
    assert forall i :: n <= i < |all| ==> all[i] == all[n..][i - n];
  }

  lemma {:induction false} RowsArrived(p: Plant, rows: seq<Store.EventRow>, committed: seq<Output>, outs: seq<Output>,
                                       arrivals: seq<Arrival>)
    requires RowsOf(p, rows, committed) && (forall o <- committed :: o in outs)
    requires exists cause :: Attributed(outs, arrivals, cause)
    ensures forall i :: 0 <= i < |rows| ==> Arrived(arrivals, rows[i].node)
  {
    hide *;
    var cause :| Attributed(outs, arrivals, cause);
    forall i | 0 <= i < |rows| ensures Arrived(arrivals, rows[i].node) {
      RowOfOutput(p, rows, committed, i);
      OutputNames(outs, arrivals, cause, committed[i]);
    }
  }

  lemma {:induction false} RowOfOutput(p: Plant, rows: seq<Store.EventRow>, outputs: seq<Output>, i: nat)
    requires RowsOf(p, rows, outputs) && i < |rows|
    ensures |rows| == |outputs| && rows[i].node == EngineIntake.NodeOf(outputs[i]) && outputs[i] in outputs
  {
  }

  lemma {:induction false} OutputNames(outs: seq<Output>, arrivals: seq<Arrival>, cause: seq<nat>, o: Output)
    requires Attributed(outs, arrivals, cause) && o in outs
    ensures Arrived(arrivals, EngineIntake.NodeOf(o))
  {
    hide Names, EngineIntake.NodeOf;
    var k :| 0 <= k < |outs| && outs[k] == o;
    assert Caused(outs[k], arrivals[cause[k]]) && arrivals[cause[k]] in arrivals;
  }
}
