/** The controller's replay guard: freshness, sequence numbers, recently seen message ids. */
module ReplayGuard {
  import opened Common
  import opened SlidingWindow

  /** What the guard is asked about.  sentAt is None when the timestamp is missing or unreadable. */
  datatype Envelope = Envelope(node: string, msgId: string, seqNo: int, sentAt: Option<real>)

  /** What the guard remembers of an accepted envelope. */
  datatype Seen = Seen(msgId: string, seqNo: int)

  datatype Verdict =
    | Accepted
    | BadTimestamp
    | Stale(age: real)
    | NonMonotonic(seqNo: int, last: int)
    | Duplicate(msgId: string)

  datatype Limits = Limits(maxAge: real, window: nat) {
    /** A window of zero entries makes the guard pop from an empty queue. */
    predicate Usable() { window >= 1 }
  }

  datatype Memory = Memory(seen: map<string, seq<Stamped<Seen>>>, lastSeq: map<string, int>)

  const BLANK := Memory(map[], map[])

  /** Infrastructure nodes are exempt from the sequence check. */
  predicate Exempt(node: string) {
    node in {"host-observer", "security-monitor", "alert-ingestor", "remediation-engine"}
  }

  function Age(sentAt: real, now: real): real {
    if now >= sentAt then now - sentAt else sentAt - now
  }

  predicate Fresh(sentAt: Option<real>, now: real, maxAge: real) {
    sentAt.Some? && Age(sentAt.value, now) <= maxAge
  }

  predicate Holds(q: seq<Stamped<Seen>>, msgId: string) {
    exists i | 0 <= i < |q| :: q[i].item.msgId == msgId
  }

  /** The queue after pruning and, for an id it does not hold, making room and recording it. */
  function Deduplicate(l: Limits, q: seq<Stamped<Seen>>, e: Envelope, now: real): (r: (seq<Stamped<Seen>>, bool))
    requires l.Usable()
  {
    var kept := Evict(q, now - l.maxAge);
    if Holds(kept, e.msgId) then (kept, false)
    else ((if |kept| >= l.window then kept[1..] else kept) + [Stamped(now, Seen(e.msgId, e.seqNo))], true)
  }

  /** One check, on values. */
  function Check(l: Limits, m: Memory, e: Envelope, now: real): (r: (Memory, Verdict))
    requires l.Usable()
  {
    if e.sentAt.None? then (m, BadTimestamp)
    else if Age(e.sentAt.value, now) > l.maxAge then (m, Stale(Age(e.sentAt.value, now)))
    else
      var last := Lookup(m.lastSeq, e.node, -1);
      if !Exempt(e.node) && e.seqNo <= last then (m, NonMonotonic(e.seqNo, last))
      else
        var (q, unseen) := Deduplicate(l, Lookup(m.seen, e.node, []), e, now);
        if unseen then (Memory(m.seen[e.node := q], m.lastSeq[e.node := e.seqNo]), Accepted)
        else (m.(seen := m.seen[e.node := q]), Duplicate(e.msgId))
  }

  /** The guard as the controller holds it: its two dictionaries change in place. */
  class Guard {
    const limits: Limits
    var seen: map<string, seq<Stamped<Seen>>>
    var lastSeq: map<string, int>

    function View(): Memory
      reads this
    {
      Memory(seen, lastSeq)
    }

    constructor (limits: Limits)
      ensures this.limits == limits && View() == BLANK
    {
      this.limits := limits;
      seen, lastSeq := map[], map[];
    }

    method Inspect(e: Envelope, now: real) returns (verdict: Verdict)
      requires limits.Usable()
      modifies this
      ensures (View(), verdict) == Check(limits, old(View()), e, now)
    {
      if e.sentAt.None? {
        return BadTimestamp;
      }
      var age := Age(e.sentAt.value, now);
      if age > limits.maxAge {
        return Stale(age);
      }
      if !Exempt(e.node) {
        var last := Lookup(lastSeq, e.node, -1);
        if e.seqNo <= last {
          return NonMonotonic(e.seqNo, last);
        }
      }
      var kept := PopExpired(Lookup(seen, e.node, []), now - limits.maxAge);
      seen := seen[e.node := kept];
      if Holds(kept, e.msgId) {
        return Duplicate(e.msgId);
      }
      if |kept| >= limits.window {
        kept := kept[1..];
      }
      seen := seen[e.node := kept + [Stamped(now, Seen(e.msgId, e.seqNo))]];
      assert seen == old(seen)[e.node := seen[e.node]];
      lastSeq := lastSeq[e.node := e.seqNo];
      return Accepted;
    }
  }

  // ---- The specification: keep every accepted envelope, forget nothing ----

  type Call = Stamped<Envelope>
  type History = map<string, seq<Call>>

  ghost function LastSeqOf(h: seq<Call>): int {
    if h == [] then -1 else h[|h|-1].item.seqNo
  }

  /** The id was accepted within the age limit and among the node's last `window` acceptances. */
  ghost predicate RecentlyAccepted(l: Limits, h: seq<Call>, msgId: string, now: real) {
    exists i :: 0 <= i < |h| && |h| - i <= l.window && h[i].at >= now - l.maxAge && h[i].item.msgId == msgId
  }

  ghost predicate HistoryAccepts(l: Limits, h: seq<Call>, e: Envelope, now: real) {
    && Fresh(e.sentAt, now, l.maxAge)
    && (Exempt(e.node) || e.seqNo > LastSeqOf(h))
    && !RecentlyAccepted(l, h, e.msgId, now)
  }

  ghost function Accepting(l: Limits, calls: seq<Call>): History {
    if calls == [] then map[]
    else
      var hist := Accepting(l, calls[..|calls|-1]);
      var c := calls[|calls|-1];
      var h := Lookup(hist, c.item.node, []);
      if HistoryAccepts(l, h, c.item, c.at) then hist[c.item.node := h + [c]] else hist
  }

  /** The guard's memory after a sequence of calls. */
  ghost function After(l: Limits, calls: seq<Call>): Memory
    requires l.Usable()
  {
    if calls == [] then BLANK
    else Check(l, After(l, calls[..|calls|-1]), calls[|calls|-1].item, calls[|calls|-1].at).0
  }

  // ---- The refinement relation ----

  ghost predicate SameEntry(s: Stamped<Seen>, c: Call) {
    s.at == c.at && s.item == Seen(c.item.msgId, c.item.seqNo)
  }

  /** q is h from position k on; what is skipped is too old or beyond the last `window`. */
  ghost predicate SuffixFrom(l: Limits, q: seq<Stamped<Seen>>, h: seq<Call>, k: nat, cutoff: real) {
    && k + |q| == |h| && |q| <= l.window
    && (forall i :: 0 <= i < |q| ==> SameEntry(q[i], h[k + i]))
    && (forall i :: 0 <= i < k ==> h[i].at < cutoff || |h| - i > l.window)
  }

  ghost predicate IsSuffix(l: Limits, q: seq<Stamped<Seen>>, h: seq<Call>, cutoff: real) {
    exists k: nat :: SuffixFrom(l, q, h, k, cutoff)
  }

  ghost predicate NodeRefines(l: Limits, m: Memory, hist: History, node: string, clock: real) {
    var h := Lookup(hist, node, []);
    && Ordered(h) && UpTo(h, clock)
    && Lookup(m.lastSeq, node, -1) == LastSeqOf(h)
    && IsSuffix(l, Lookup(m.seen, node, []), h, clock - l.maxAge)
  }

  ghost predicate Refines(l: Limits, m: Memory, hist: History, clock: real) {
    forall node :: NodeRefines(l, m, hist, node, clock)
  }

  lemma {:induction false} RefinesLater(l: Limits, m: Memory, hist: History, clock: real, later: real)
    requires Refines(l, m, hist, clock) && clock <= later
    ensures Refines(l, m, hist, later)
  {
    forall node ensures NodeRefines(l, m, hist, node, later) {
      assert NodeRefines(l, m, hist, node, clock);
      var q, h := Lookup(m.seen, node, []), Lookup(hist, node, []);
      var k: nat :| SuffixFrom(l, q, h, k, clock - l.maxAge);
      assert SuffixFrom(l, q, h, k, later - l.maxAge);
    }
  }

  /** Eviction leaves a suffix. */
  lemma {:induction false} EvictedSuffix(l: Limits, q: seq<Stamped<Seen>>, h: seq<Call>, k: nat, now: real)
    returns (k': nat)
    requires SuffixFrom(l, q, h, k, now - l.maxAge) && Ordered(h)
    ensures SuffixFrom(l, Evict(q, now - l.maxAge), h, k', now - l.maxAge)
    ensures forall i :: k' <= i < |h| ==> h[i].at >= now - l.maxAge
  {
    var c := now - l.maxAge;
    var d := EvictIsSuffix(q, c);
    k' := k + d;
    var r := Evict(q, c);
    hide Evict;
    forall i | 0 <= i < k' ensures h[i].at < c || |h| - i > l.window {
      if i >= k { assert SameEntry(q[i - k], h[k + (i - k)]); }
    }
    forall i | 0 <= i < |r| ensures SameEntry(r[i], h[k' + i]) && h[k' + i].at >= c {
      assert SameEntry(q[d + i], h[k + (d + i)]) && SameEntry(q[d], h[k + d]);
    }
    forall i | k' <= i < |h| ensures h[i].at >= c {
      assert SameEntry(r[i - k'], h[k' + (i - k')]);
    }
  }

  /** A suffix without expired entries holds exactly the recently accepted ids. */
  lemma {:induction false} SuffixHolds(l: Limits, r: seq<Stamped<Seen>>, h: seq<Call>, k: nat, now: real)
    requires SuffixFrom(l, r, h, k, now - l.maxAge) && forall i :: k <= i < |h| ==> h[i].at >= now - l.maxAge
    ensures forall id :: Holds(r, id) <==> RecentlyAccepted(l, h, id, now)
  {
    var c := now - l.maxAge;
    forall id ensures Holds(r, id) <==> RecentlyAccepted(l, h, id, now) {
      if Holds(r, id) {
        var i :| 0 <= i < |r| && r[i].item.msgId == id;
        assert h[k + i].item.msgId == id;
      }
      if RecentlyAccepted(l, h, id, now) {
        var i :| 0 <= i < |h| && |h| - i <= l.window && h[i].at >= c && h[i].item.msgId == id;
        assert SameEntry(r[i - k], h[k + (i - k)]);
      }
    }
  }

  lemma {:induction false} CheckAgrees(l: Limits, m: Memory, hist: History, e: Envelope, now: real)
    requires l.Usable() && NodeRefines(l, m, hist, e.node, now)
    ensures Check(l, m, e, now).1.Accepted? <==> HistoryAccepts(l, Lookup(hist, e.node, []), e, now)
  {
    var q, h := Lookup(m.seen, e.node, []), Lookup(hist, e.node, []);
    var k: nat :| SuffixFrom(l, q, h, k, now - l.maxAge);
    var k' := EvictedSuffix(l, q, h, k, now);
    SuffixHolds(l, Evict(q, now - l.maxAge), h, k', now);
    hide SuffixFrom, Evict, Holds, RecentlyAccepted;
  }

  /** The history after a check. */
  ghost function Recorded(l: Limits, m: Memory, hist: History, e: Envelope, now: real): History
    requires l.Usable()
  {
    if Check(l, m, e, now).1.Accepted? then hist[e.node := Lookup(hist, e.node, []) + [Stamped(now, e)]] else hist
  }

  /** What a check leaves of its node's queue and last number. */
  lemma {:induction false} CheckShape(l: Limits, m: Memory, e: Envelope, now: real)
    requires l.Usable()
    ensures
      var (m', v) := Check(l, m, e, now);
      var q, kept := Lookup(m'.seen, e.node, []), Evict(Lookup(m.seen, e.node, []), now - l.maxAge);
      var last, last' := Lookup(m.lastSeq, e.node, -1), Lookup(m'.lastSeq, e.node, -1);
      match v
      case Accepted =>
        q == (if |kept| >= l.window then kept[1..] else kept) + [Stamped(now, Seen(e.msgId, e.seqNo))] &&
          last' == e.seqNo
      case Duplicate(_) => q == kept && last' == last
      case _ => m' == m
  {
    hide Exempt, Holds, Evict;
  }

  lemma {:induction false} CheckRefinesNode(l: Limits, m: Memory, hist: History, e: Envelope, now: real)
    requires l.Usable() && NodeRefines(l, m, hist, e.node, now)
    ensures NodeRefines(l, Check(l, m, e, now).0, Recorded(l, m, hist, e, now), e.node, now)
  {
    var (m', v) := Check(l, m, e, now);
    var q, h := Lookup(m.seen, e.node, []), Lookup(hist, e.node, []);
    var k: nat :| SuffixFrom(l, q, h, k, now - l.maxAge);
    var k' := EvictedSuffix(l, q, h, k, now);
    CheckShape(l, m, e, now);
    hide SuffixFrom, Check, Evict;
    if v.Accepted? {
      AcceptedSuffix(l, Evict(q, now - l.maxAge), h, k', e, now);
    }
  }

  /** One check keeps the refinement, whatever its verdict. */
  lemma {:induction false} CheckRefines(l: Limits, m: Memory, hist: History, e: Envelope, now: real)
    requires l.Usable() && Refines(l, m, hist, now)
    ensures Refines(l, Check(l, m, e, now).0, Recorded(l, m, hist, e, now), now)
  {
    var m', hist' := Check(l, m, e, now).0, Recorded(l, m, hist, e, now);
    forall node ensures NodeRefines(l, m', hist', node, now) {
      assert NodeRefines(l, m, hist, node, now);
      if node == e.node {
        CheckRefinesNode(l, m, hist, e, now);
      } else {
        assert Lookup(m'.seen, node, []) == Lookup(m.seen, node, []);
        assert Lookup(m'.lastSeq, node, -1) == Lookup(m.lastSeq, node, -1);
        assert Lookup(hist', node, []) == Lookup(hist, node, []);
      }
    }
  }

  lemma {:induction false} AcceptedSuffix(l: Limits, kept: seq<Stamped<Seen>>, h: seq<Call>, k: nat, e: Envelope,
                                          now: real)
    requires l.Usable() && SuffixFrom(l, kept, h, k, now - l.maxAge)
    ensures
      var room := if |kept| >= l.window then kept[1..] else kept;
      var q := room + [Stamped(now, Seen(e.msgId, e.seqNo))];
      var h' := h + [Stamped(now, e)];
      SuffixFrom(l, q, h', |h'| - |q|, now - l.maxAge)
  {
    var room := if |kept| >= l.window then kept[1..] else kept;
    var q := room + [Stamped(now, Seen(e.msgId, e.seqNo))];
    var h' := h + [Stamped(now, e)];
    var k' := |h'| - |q|;
    forall i | 0 <= i < |q| ensures SameEntry(q[i], h'[k' + i]) {
      if i < |room| {
        var j := i + (|kept| - |room|);
        assert room[i] == kept[j] && SameEntry(kept[j], h[k + j]);
      }
    }
  }

  ghost predicate Timely(calls: seq<Call>, now: real) {
    Ordered(calls) && UpTo(calls, now)
  }

  /**
    Refinement over whole call streams.  With a clock that does not run backwards
    the guard accepts exactly what the full-history specification accepts.
  */
  lemma {:induction false} GuardRefinesHistory(l: Limits, calls: seq<Call>, now: real)
    requires l.Usable() && Timely(calls, now)
    ensures Refines(l, After(l, calls), Accepting(l, calls), now)
    ensures forall e :: Check(l, After(l, calls), e, now).1.Accepted? <==>
                        HistoryAccepts(l, Lookup(Accepting(l, calls), e.node, []), e, now)
  {
    if calls == [] {
      forall node ensures NodeRefines(l, BLANK, map[], node, now) {
        assert Lookup(BLANK.seen, node, []) == [];
        assert SuffixFrom(l, Lookup(BLANK.seen, node, []), [], 0, now - l.maxAge);
      }
    } else {
      var c := calls[|calls|-1];
      var before := calls[..|calls|-1];
      GuardRefinesHistory(l, before, c.at);
      CheckRefines(l, After(l, before), Accepting(l, before), c.item, c.at);
      RefinesLater(l, After(l, calls), Accepting(l, calls), c.at, now);
    }
    forall e ensures Check(l, After(l, calls), e, now).1.Accepted? <==>
                     HistoryAccepts(l, Lookup(Accepting(l, calls), e.node, []), e, now)
    {
      assert NodeRefines(l, After(l, calls), Accepting(l, calls), e.node, now);
      CheckAgrees(l, After(l, calls), Accepting(l, calls), e, now);
    }
  }

  /** A rejected call, wherever it happens, is invisible to every later call. */
  lemma {:induction false} RejectedCallIsInvisible(l: Limits, before: seq<Call>, c: Call, after: seq<Call>, now: real)
    requires l.Usable() && Timely(before + [c] + after, now)
    requires !Check(l, After(l, before), c.item, c.at).1.Accepted?
    ensures forall e :: Check(l, After(l, before + [c] + after), e, now).1.Accepted? <==>
                        Check(l, After(l, before + after), e, now).1.Accepted?
  {
    OrderedWithout(before, c, after, now);
    GuardRefinesHistory(l, before, c.at);
    SkipRejected(l, before, c, after);
    GuardRefinesHistory(l, before + [c] + after, now);
    GuardRefinesHistory(l, before + after, now);
  }

  lemma {:induction false} SkipRejected(l: Limits, before: seq<Call>, c: Call, after: seq<Call>)
    requires !HistoryAccepts(l, Lookup(Accepting(l, before), c.item.node, []), c.item, c.at)
    ensures Accepting(l, before + [c] + after) == Accepting(l, before + after)
  {
    var all, cut := before + [c] + after, before + after;
    if after == [] {
      assert all[..|all|-1] == before && cut == before;
    } else {
      SkipRejected(l, before, c, after[..|after|-1]);
      assert all[..|all|-1] == before + [c] + after[..|after|-1];
      assert cut[..|cut|-1] == before + after[..|after|-1];
    }
  }

  // ---- At most once ----

  /**
    Why an envelope could be in the log at both i and j: its node is exempt, and it was
    dated ahead of its first acceptance or a whole window of acceptances came between.
  */
  ghost predicate Excused(l: Limits, h: seq<Call>, i: nat, j: nat)
    requires i < j < |h|
  {
    && Exempt(h[i].item.node)
    && ((h[i].item.sentAt.Some? && h[i].item.sentAt.value > h[i].at) || j - i - 1 >= l.window)
  }

  ghost predicate AtMostOnce(l: Limits, h: seq<Call>, node: string) {
    && (forall i, j :: 0 <= i < j < |h| && !Exempt(node) ==> h[i].item.seqNo < h[j].item.seqNo)
    && (forall i, j :: 0 <= i < j < |h| && h[i].item == h[j].item ==> Excused(l, h, i, j))
  }

  /**
    At most once per controller lifetime: a tenant node's accepted sequence numbers
    strictly increase, and no envelope is accepted twice unless it is excused.
  */
  lemma {:induction false} ReplayAtMostOnce(l: Limits, calls: seq<Call>, node: string)
    requires Ordered(calls)
    ensures AtMostOnce(l, Lookup(Accepting(l, calls), node, []), node)
    ensures forall c <- Lookup(Accepting(l, calls), node, []) :: c.item.node == node && c.item.sentAt.Some?
  {
    if calls != [] {
      var before, c := calls[..|calls|-1], calls[|calls|-1];
      ReplayAtMostOnce(l, before, node);
      var h := Lookup(Accepting(l, before), node, []);
      if c.item.node == node && HistoryAccepts(l, h, c.item, c.at) {
        ExtendAtMostOnce(l, h, c, node);
      }
    }
  }

  lemma {:induction false} ExtendAtMostOnce(l: Limits, h: seq<Call>, c: Call, node: string)
    requires AtMostOnce(l, h, node) && c.item.node == node && HistoryAccepts(l, h, c.item, c.at)
    requires forall x <- h :: x.item.node == node && x.item.sentAt.Some?
    ensures AtMostOnce(l, h + [c], node)
  {
    var h' := h + [c];
    var n := |h|;
    forall i, j | 0 <= i < j < |h'| && !Exempt(node) ensures h'[i].item.seqNo < h'[j].item.seqNo {
      if j == n && i < n - 1 { assert h[i].item.seqNo < h[n-1].item.seqNo; }
    }
    forall i, j | 0 <= i < j < |h'| && h'[i].item == h'[j].item ensures Excused(l, h', i, j) {
      if j < n {
        assert Excused(l, h, i, j);
      } else {
        assert h[i] in h;
        assert h'[i] == h[i];
      }
    }
  }

  /**
    Which reason a rejection gives.  After any calls the verdict is decided by the full history of its node's
    acceptances, and the first of these that applies is named: no timestamp, too far from the clock, not above
    the last accepted number, an id accepted recently.
  */
  lemma {:induction false} VerdictByHistory(l: Limits, calls: seq<Call>, e: Envelope, now: real)
    requires l.Usable() && Timely(calls, now)
    ensures
      var h := Lookup(Accepting(l, calls), e.node, []);
      var v := Check(l, After(l, calls), e, now).1;
      if e.sentAt.None? then v == BadTimestamp
      else if now - e.sentAt.value > l.maxAge || e.sentAt.value - now > l.maxAge then
        v == Stale(if now >= e.sentAt.value then now - e.sentAt.value else e.sentAt.value - now)
      else if !Exempt(e.node) && e.seqNo <= LastSeqOf(h) then v == NonMonotonic(e.seqNo, LastSeqOf(h))
      else if RecentlyAccepted(l, h, e.msgId, now) then v == Duplicate(e.msgId)
      else v == Accepted
  {
    var m, hist := After(l, calls), Accepting(l, calls);
    var h := Lookup(hist, e.node, []);
    GuardRefinesHistory(l, calls, now);
    assert NodeRefines(l, m, hist, e.node, now);
    hide Exempt, After, Accepting, RecentlyAccepted, Deduplicate, NodeRefines;
    assert Lookup(m.lastSeq, e.node, -1) == LastSeqOf(h) by { RefinesLast(l, m, hist, e.node, now); }
  }

  lemma {:induction false} RefinesLast(l: Limits, m: Memory, hist: History, node: string, now: real)
    requires NodeRefines(l, m, hist, node, now)
    ensures Lookup(m.lastSeq, node, -1) == LastSeqOf(Lookup(hist, node, []))
  {
  }

  /** The four names that need no rising numbers. */
  lemma {:induction false} ExemptIff(node: string)
    ensures Exempt(node) <==> node == "host-observer" || node == "security-monitor" || node == "alert-ingestor"
                              || node == "remediation-engine"
  {
  }

  /** The excuse is needed: dated ahead of its arrival, an exempt envelope is accepted twice. */
  lemma {:induction false} FutureDatedReplay()
    ensures
      var l := Limits(30.0, 1000);
      var e := Envelope("security-monitor", "m", 7, Some(30.0));
      var once := [Stamped(0.0, e)];
      && Timely(once, 60.0)
      && Check(l, BLANK, e, 0.0).1.Accepted?
      && Check(l, After(l, once), e, 60.0).1.Accepted?
  {
    var l := Limits(30.0, 1000);
    var e := Envelope("security-monitor", "m", 7, Some(30.0));
    var once := [Stamped(0.0, e)];
    var q := [Stamped(0.0, Seen("m", 7))];
    assert once[..0] == [] && Evict<Seen>([], -30.0) == [];
    assert After(l, once) == Check(l, BLANK, e, 0.0).0;
    assert After(l, once).seen["security-monitor"] == q;
    assert Evict(q, 30.0) == Evict(q[1..], 30.0) == [];
  }

  /**
    Exactly when one more delivery of an accepted, exempt, still fresh envelope gets through, however
    often it was accepted before: its last acceptance is too old, or a whole window came after it.
  */
  lemma {:induction false} RepeatVerdict(l: Limits, h: seq<Call>, i: nat, now: real)
    requires i < |h| && Exempt(h[i].item.node) && Fresh(h[i].item.sentAt, now, l.maxAge) && Ordered(h)
    requires forall j :: i < j < |h| ==> h[j].item.msgId != h[i].item.msgId
    ensures HistoryAccepts(l, h, h[i].item, now) <==> h[i].at < now - l.maxAge || |h| - i - 1 >= l.window
  {
    hide Exempt;
    var id := h[i].item.msgId;
    if RecentlyAccepted(l, h, id, now) {
      var j :| 0 <= j < |h| && |h| - j <= l.window && h[j].at >= now - l.maxAge && h[j].item.msgId == id;
      assert j <= i;
    }
  }

  /**
    Which accepted envelopes can still be replayed.  After any calls, an exempt node's envelope that was
    accepted before can be accepted by the guard again at some later time exactly if it has not gone
    stale yet and it was dated ahead of its last acceptance, or a whole window of acceptances
    has come since.
  */
  lemma {:induction false} StillReplayableIff(l: Limits, calls: seq<Call>, node: string, i: nat, clock: real)
    requires l.Usable() && Timely(calls, clock) && Exempt(node)
    requires i < |Lookup(Accepting(l, calls), node, [])|
    requires
      var h := Lookup(Accepting(l, calls), node, []);
      forall j :: i < j < |h| ==> h[j].item.msgId != h[i].item.msgId
    ensures
      var h := Lookup(Accepting(l, calls), node, []);
      var e := h[i].item;
      && e.node == node && e.sentAt.Some?
      && ((exists now :: clock <= now && Check(l, After(l, calls), e, now).1.Accepted?)
          <==> clock <= e.sentAt.value + l.maxAge && (e.sentAt.value > h[i].at || |h| - i - 1 >= l.window))
  {
    var h := Lookup(Accepting(l, calls), node, []);
    var e := h[i].item;
    GuardRefinesHistory(l, calls, clock);
    ReplayAtMostOnce(l, calls, node);
    AcceptedFresh(l, calls, node);
    assert NodeRefines(l, After(l, calls), Accepting(l, calls), node, clock);
    assert h[i] in h;
    var sent := e.sentAt.value;
    hide Exempt, Check, HistoryAccepts, After, Accepting;
    if now :| clock <= now && Check(l, After(l, calls), e, now).1.Accepted? {
      AcceptedLater(l, calls, h, i, clock, now);
    }
    if clock <= sent + l.maxAge && (sent > h[i].at || |h| - i - 1 >= l.window) {
      var now := sent + l.maxAge;
      AcceptedLater(l, calls, h, i, clock, now);
      assert clock <= now && Check(l, After(l, calls), e, now).1.Accepted?;
    }
  }

  /** The guard's verdict on one more delivery at a given time. */
  lemma {:induction false} AcceptedLater(l: Limits, calls: seq<Call>, h: seq<Call>, i: nat, clock: real, now: real)
    requires l.Usable() && Timely(calls, clock) && clock <= now && i < |h|
    requires h == Lookup(Accepting(l, calls), h[i].item.node, []) && Exempt(h[i].item.node) && Ordered(h)
    requires h[i].item.sentAt.Some? && l.maxAge >= 0.0
    requires forall j :: i < j < |h| ==> h[j].item.msgId != h[i].item.msgId
    ensures
      var sent := h[i].item.sentAt.value;
      Check(l, After(l, calls), h[i].item, now).1.Accepted? <==>
        sent - l.maxAge <= now <= sent + l.maxAge && (h[i].at < now - l.maxAge || |h| - i - 1 >= l.window)
  {
    var e := h[i].item;
    GuardRefinesHistory(l, calls, now);
    hide Exempt, Check, After, Accepting;
    if Fresh(e.sentAt, now, l.maxAge) {
      RepeatVerdict(l, h, i, now);
    }
  }

  /** Whatever was accepted was fresh, so the age limit is not negative. */
  lemma {:induction false} AcceptedFresh(l: Limits, calls: seq<Call>, node: string)
    requires Ordered(calls)
    ensures forall c <- Lookup(Accepting(l, calls), node, []) :: Fresh(c.item.sentAt, c.at, l.maxAge)
    ensures Lookup(Accepting(l, calls), node, []) != [] ==> l.maxAge >= 0.0
  {
    hide Exempt, RecentlyAccepted;
    if calls != [] {
      AcceptedFresh(l, calls[..|calls|-1], node);
    }
  }
}
