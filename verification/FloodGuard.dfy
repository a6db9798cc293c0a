/** The controller's flood guard: a message count per node over the last minute. */
module FloodGuard {
  import opened Common
  import opened SlidingWindow

  const WINDOW := 60.0

  type Times = map<string, seq<Tick>>

  /** The new state, whether the node is flooding, and its count. */
  function Check(maximum: int, times: Times, node: string, now: real): (Times, bool, nat) {
    var q := Evict(Lookup(times, node, []), now - WINDOW) + [Stamped(now, ())];
    (times[node := q], |q| > maximum, |q|)
  }

  class Guard {
    const maximum: int
    var times: Times

    constructor (maximum: int)
      ensures this.maximum == maximum && times == map[]
    {
      this.maximum := maximum;
      times := map[];
    }

    method Inspect(node: string, now: real) returns (flooding: bool, count: nat)
      modifies this
      ensures (times, flooding, count) == Check(maximum, old(times), node, now)
    {
      var q := PopExpired(Lookup(times, node, []), now - WINDOW);
      q := q + [Stamped(now, ())];
      times := times[node := q];
      count := |q|;
      flooding := count > maximum;
    }
  }

  // ---- The full history of checks ----

  type Call = Stamped<string>

  ghost function ChecksOf(calls: seq<Call>, node: string): seq<Tick> {
    if calls == [] then []
    else
      var before := ChecksOf(calls[..|calls|-1], node);
      var c := calls[|calls|-1];
      if c.item == node then before + [Stamped(c.at, ())] else before
  }

  ghost function After(calls: seq<Call>): Times {
    if calls == [] then map[]
    else
      var c := calls[|calls|-1];
      Check(0, After(calls[..|calls|-1]), c.item, c.at).0
  }

  lemma {:induction false} QueueAgrees(calls: seq<Call>, node: string, now: real)
    requires Ordered(calls) && UpTo(calls, now)
    ensures Agrees(Lookup(After(calls), node, []), ChecksOf(calls, node), WINDOW, now)
  {
    if calls != [] {
      var before, c := calls[..|calls|-1], calls[|calls|-1];
      QueueAgrees(before, node, c.at);
      var q, h := Lookup(After(before), node, []), ChecksOf(before, node);
      if c.item == node {
        AgreesEvict(q, h, WINDOW, c.at);
        AgreesAppend(Evict(q, c.at - WINDOW), h, WINDOW, c.at, ());
      }
      AgreesLater(Lookup(After(calls), node, []), ChecksOf(calls, node), WINDOW, c.at, now);
    }
  }

  /**
    The count is exact: it is the number of the node's checks, this one included, in
    the closed last minute of the whole history.
  */
  lemma {:induction false} FloodCountIsExact(maximum: int, calls: seq<Call>, node: string, now: real)
    requires Ordered(calls) && UpTo(calls, now)
    ensures
      var (_, flooding, count) := Check(maximum, After(calls), node, now);
      && count == Count(ChecksOf(calls + [Stamped(now, node)], node), now - 60.0, now)
      && (flooding <==> count > maximum)
  {
    QueueAgrees(calls, node, now);
    var q, h := Lookup(After(calls), node, []), ChecksOf(calls, node);
    AgreesCount(q, h, WINDOW, now);
    CountAppend(h, Stamped(now, ()), now - WINDOW, now);
    var all := calls + [Stamped(now, node)];
    assert all[..|all|-1] == calls;
  }
}
