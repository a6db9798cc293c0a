/** The risk engine's database; each method is one committed transaction. */
module Store {
  import opened Common
  import opened SlidingWindow
  import opened Scoring
  import Correlator
  import Pipeline

  datatype Status = Idle | Busy | AwaitingApproval | Quarantined | Unresponsive

  /** risk_score in this table is not the cumulative score. */
  datatype NodeStatus = NodeStatus(status: Status, risk: real)

  /** An event row; heartbeat rows carry no scoring columns. */
  datatype EventRow = EventRow(at: real, node: string, risk: real, scored: Option<ScoredColumns>)
  datatype ScoredColumns = ScoredColumns(weighted: real, bucket: Bucket, correlated: bool, rules: seq<string>)

  datatype Database = Database(
    events: seq<EventRow>,
    scores: map<string, real>,
    statuses: map<string, NodeStatus>,
    watermark: int)

  const EMPTY := Database([], map[], map[], 0)

  function ScoreOf(s: Database, node: string): real {
    Lookup(s.scores, node, 0.0)
  }

  function StatusOf(s: Database, node: string): Status {
    if node in s.statuses then s.statuses[node].status else Idle
  }

  function RuleIds(matches: seq<Match>): seq<string> {
    if matches == [] then [] else RuleIds(matches[..|matches|-1]) + [matches[|matches|-1].ruleId]
  }

  function RowOf(d: Pipeline.Decision, at: real): EventRow {
    EventRow(at, d.node, d.scored.cumulative,
             Some(ScoredColumns(d.scored.event, d.scored.bucket, d.correlated, RuleIds(d.matches))))
  }

  function Written(s: Database, d: Pipeline.Decision, at: real): Database {
    s.(events := s.events + [RowOf(d, at)], scores := s.scores[d.node := d.scored.cumulative], watermark := d.offset)
  }

  function WithStatus(s: Database, node: string, status: Status, risk: real): Database {
    s.(statuses := s.statuses[node := NodeStatus(status, risk)])
  }

  function HeartbeatWritten(s: Database, node: string, at: real): Database {
    WithStatus(s.(events := s.events + [EventRow(at, node, 100.0, None)]), node, Unresponsive, 100.0)
  }

  function ScoreReset(s: Database, node: string): Database {
    s.(scores := s.scores[node := 0.0])
  }

  // ---- Warm restart rows ----

  const DAY := 86400.0

  function DayOf(at: real): int {
    (at / DAY).Floor
  }

  /**
    The rows the restart query returns, oldest first.  Stored timestamps have a "T" where the
    query's cutoff has a space, so within the cutoff's day the text comparison admits every row.
  */
  function WarmRows(events: seq<EventRow>, window: real, now: real): seq<Correlator.Row> {
    if events == [] then []
    else
      var before := WarmRows(events[..|events|-1], window, now);
      var r := events[|events|-1];
      if r.scored.Some? && DayOf(r.at) >= DayOf(now - window) then
        before + [Correlator.Row(r.node, Some(r.scored.value.rules), Some(r.at))]
      else before
  }

  class Store {
    var events: seq<EventRow>
    var scores: map<string, real>
    var statuses: map<string, NodeStatus>
    var watermark: int

    function View(): Database
      reads this
    {
      Database(events, scores, statuses, watermark)
    }

    constructor ()
      ensures View() == EMPTY
    {
      events, scores, statuses, watermark := [], map[], map[], 0;
    }

    method GetNodeScore(node: string) returns (r: real)
      ensures r == ScoreOf(View(), node)
    {
      r := if node in scores then scores[node] else 0.0;
    }

    method GetNodeStatus(node: string) returns (r: Status)
      ensures r == StatusOf(View(), node)
    {
      r := if node in statuses then statuses[node].status else Idle;
    }

    method WriteEvent(d: Pipeline.Decision, at: real)
      modifies this
      ensures View() == Written(old(View()), d, at)
    {
      events := events + [RowOf(d, at)];
      scores := scores[d.node := d.scored.cumulative];
      watermark := d.offset;
    }

    method UpdateNodeStatus(node: string, status: Status, risk: real)
      modifies this`statuses
      ensures View() == WithStatus(old(View()), node, status, risk)
    {
      statuses := statuses[node := NodeStatus(status, risk)];
    }

    method WriteHeartbeatEvent(node: string, at: real)
      modifies this
      ensures View() == HeartbeatWritten(old(View()), node, at)
    {
      events := events + [EventRow(at, node, 100.0, None)];
      statuses := statuses[node := NodeStatus(Unresponsive, 100.0)];
    }

    method ResetNodeScore(node: string)
      modifies this`scores
      ensures View() == ScoreReset(old(View()), node)
    {
      scores := scores[node := 0.0];
    }

    method ResetAllTables()
      modifies this
      ensures View() == EMPTY
    {
      events, scores, statuses, watermark := [], map[], map[], 0;
    }
  }

  // ---- The restart query covers the window ----

  ghost predicate InOrder(events: seq<EventRow>, now: real) {
    && (forall i, j :: 0 <= i < j < |events| ==> events[i].at <= events[j].at)
    && (forall i :: 0 <= i < |events| ==> events[i].at <= now)
  }

  /** Every scored row, as the correlator reads it. */
  ghost function AllRows(events: seq<EventRow>): seq<Correlator.Row> {
    if events == [] then []
    else
      var before := AllRows(events[..|events|-1]);
      var r := events[|events|-1];
      if r.scored.Some? then before + [Correlator.Row(r.node, Some(r.scored.value.rules), Some(r.at))] else before
  }

  lemma {:induction false} DayMonotone(x: real, y: real)
    requires x <= y
    ensures DayOf(x) <= DayOf(y)
  {
    assert x / DAY <= y / DAY;
  }

  lemma {:induction false} AllRowsReadable(events: seq<EventRow>)
    ensures Correlator.Readable(AllRows(events))
  {
    if events != [] {
      AllRowsReadable(events[..|events|-1]);
    }
  }

  /** On rows in time order the query cuts the log once, and everything it leaves out is older than the window. */
  lemma {:induction false} QueryIsSuffix(events: seq<EventRow>, window: real, now: real)
    returns (dropped: seq<Correlator.Row>)
    requires InOrder(events, now)
    ensures dropped + WarmRows(events, window, now) == AllRows(events)
    ensures Correlator.Readable(dropped) && Correlator.Readable(WarmRows(events, window, now))
    ensures forall i :: 0 <= i < |dropped| ==> dropped[i].at.Some? && dropped[i].at.value < now - window
    ensures (forall i :: 0 <= i < |events| ==> DayOf(events[i].at) < DayOf(now - window)) ==>
            WarmRows(events, window, now) == []
  {
    if events == [] {
      dropped := [];
    } else {
      var before, r := events[..|events|-1], events[|events|-1];
      dropped := QueryIsSuffix(before, window, now);
      if DayOf(r.at) < DayOf(now - window) {
        forall i | 0 <= i < |before| ensures DayOf(before[i].at) < DayOf(now - window) {
          DayMonotone(before[i].at, r.at);
        }
        if r.at >= now - window { DayMonotone(now - window, r.at); }
        if r.scored.Some? {
          dropped := dropped + [Correlator.Row(r.node, Some(r.scored.value.rules), Some(r.at))];
        }
      } else {
        assert events[|events|-1].at == r.at;
      }
    }
  }
}
