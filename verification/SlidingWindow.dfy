/**
  Time-stamped queues that are pruned from the front.  Five components keep such a
  queue; each must answer as if it had kept everything and asked for the entries
  that are not older than a cutoff.
*/
module SlidingWindow {

  datatype Stamped<+T> = Stamped(at: real, item: T)

  /** An entry that carries nothing but its time. */
  type Tick = Stamped<()>

  ghost predicate Ordered<T>(h: seq<Stamped<T>>) {
    forall i, j :: 0 <= i < j < |h| ==> h[i].at <= h[j].at
  }

  ghost predicate UpTo<T>(h: seq<Stamped<T>>, now: real) {
    forall i :: 0 <= i < |h| ==> h[i].at <= now
  }

  /** The query over the full history: every entry stamped at or after the cutoff. */
  function Since<T>(h: seq<Stamped<T>>, cutoff: real): seq<Stamped<T>> {
    if h == [] then []
    else
      var older := Since(h[..|h|-1], cutoff);
      if h[|h|-1].at >= cutoff then older + [h[|h|-1]] else older
  }

  /** What the pruning loops leave behind: the queue without its expired front. */
  function Evict<T>(q: seq<Stamped<T>>, cutoff: real): seq<Stamped<T>> {
    if q != [] && q[0].at < cutoff then Evict(q[1..], cutoff) else q
  }

  /** How many entries fall in the closed interval [from, to]. */
  function Count<T>(h: seq<Stamped<T>>, from: real, to: real): nat {
    if h == [] then 0
    else Count(h[..|h|-1], from, to) + if from <= h[|h|-1].at <= to then 1 else 0
  }

  /** The pruning loop itself. */
  method PopExpired<T>(q: seq<Stamped<T>>, cutoff: real) returns (r: seq<Stamped<T>>)
    ensures r == Evict(q, cutoff)
  {
    r := q;
    while r != [] && r[0].at < cutoff
      invariant Evict(r, cutoff) == Evict(q, cutoff)
    {
      r := r[1..];
    }
  }

  /** Eviction removes exactly a prefix of expired entries. */
  lemma {:induction false} EvictIsSuffix<T>(q: seq<Stamped<T>>, cutoff: real) returns (k: nat)
    ensures k <= |q| && Evict(q, cutoff) == q[k..]
    ensures forall i :: 0 <= i < k ==> q[i].at < cutoff
    ensures k < |q| ==> q[k].at >= cutoff
  {
    if q != [] && q[0].at < cutoff {
      var k' := EvictIsSuffix(q[1..], cutoff);
      k := k' + 1;
      assert q[1..][k'..] == q[k..];
      forall i | 0 <= i < k ensures q[i].at < cutoff {
        if i > 0 { assert q[i] == q[1..][i-1]; }
      }
    } else {
      k := 0;
    }
  }

  lemma {:induction false} SinceConcat<T>(a: seq<Stamped<T>>, b: seq<Stamped<T>>, cutoff: real)
    ensures Since(a + b, cutoff) == Since(a, cutoff) + Since(b, cutoff)
  {
    if b == [] {
      assert a + b == a;
    } else {
      SinceConcat(a, b[..|b|-1], cutoff);
      assert (a + b)[..|a + b|-1] == a + b[..|b|-1];
    }
  }

  lemma {:induction false} SinceKeepsAll<T>(h: seq<Stamped<T>>, cutoff: real)
    requires forall i :: 0 <= i < |h| ==> h[i].at >= cutoff
    ensures Since(h, cutoff) == h
  {
    if h != [] {
      SinceKeepsAll(h[..|h|-1], cutoff);
    }
  }

  lemma {:induction false} SinceDropsAll<T>(h: seq<Stamped<T>>, cutoff: real)
    requires forall i :: 0 <= i < |h| ==> h[i].at < cutoff
    ensures Since(h, cutoff) == []
  {
    if h != [] {
      SinceDropsAll(h[..|h|-1], cutoff);
    }
  }

  lemma {:induction false} SinceSplit<T>(q: seq<Stamped<T>>, k: nat, cutoff: real)
    requires k <= |q|
    requires forall i :: 0 <= i < k ==> q[i].at < cutoff
    requires forall i :: k <= i < |q| ==> q[i].at >= cutoff
    ensures Since(q, cutoff) == q[k..]
  {
    var front, young := q[..k], q[k..];
    assert q == front + young;
    SinceDropsAll(front, cutoff);
    SinceKeepsAll(young, cutoff);
    SinceConcat(front, young, cutoff);
  }

  /** On an ordered queue the pruning loop computes the full-history query. */
  lemma {:induction false} EvictIsSince<T>(q: seq<Stamped<T>>, cutoff: real) returns (k: nat)
    requires Ordered(q)
    ensures k <= |q| && Evict(q, cutoff) == q[k..] == Since(q, cutoff)
    ensures forall i :: 0 <= i < k ==> q[i].at < cutoff
    ensures forall i :: k <= i < |q| ==> q[i].at >= cutoff
  {
    k := EvictIsSuffix(q, cutoff);
    SinceSplit(q, k, cutoff);
  }

  /** A later cutoff forgets what an earlier cutoff did. */
  lemma {:induction false} SinceSince<T>(h: seq<Stamped<T>>, early: real, late: real)
    requires early <= late
    ensures Since(Since(h, early), late) == Since(h, late)
  {
    if h != [] {
      SinceSince(h[..|h|-1], early, late);
      SinceConcat(Since(h[..|h|-1], early), [h[|h|-1]], late);
    }
  }

  /** Entries at or after a cutoff and not later than now are those in the closed interval. */
  lemma {:induction false} CountIsSince<T>(h: seq<Stamped<T>>, from: real, now: real)
    requires UpTo(h, now)
    ensures |Since(h, from)| == Count(h, from, now)
  {
    if h != [] {
      CountIsSince(h[..|h|-1], from, now);
    }
  }

  /**
    The pruned queue q stands for the full history h: over the last `window` before
    the clock, and hence over any later such window, they hold the same entries.
  */
  ghost predicate Agrees<T>(q: seq<Stamped<T>>, h: seq<Stamped<T>>, window: real, clock: real) {
    && Ordered(q) && UpTo(q, clock) && UpTo(h, clock)
    && Since(q, clock - window) == Since(h, clock - window)
  }

  lemma {:induction false} AgreesLater<T>(q: seq<Stamped<T>>, h: seq<Stamped<T>>, window: real, clock: real,
                                          later: real)
    requires Agrees(q, h, window, clock) && clock <= later
    ensures Agrees(q, h, window, later)
  {
    SinceSince(q, clock - window, later - window);
    SinceSince(h, clock - window, later - window);
  }

  /** Pruning yields the query over the full history. */
  lemma {:induction false} AgreesQuery<T>(q: seq<Stamped<T>>, h: seq<Stamped<T>>, window: real, now: real)
    requires Agrees(q, h, window, now)
    ensures Evict(q, now - window) == Since(h, now - window)
  {
    var k := EvictIsSince(q, now - window);
  }

  /** Pruning keeps the agreement. */
  lemma {:induction false} AgreesEvict<T>(q: seq<Stamped<T>>, h: seq<Stamped<T>>, window: real, now: real)
    requires Agrees(q, h, window, now)
    ensures Agrees(Evict(q, now - window), h, window, now)
  {
    var c := now - window;
    var k := EvictIsSince(q, c);
    assert Ordered(q[k..]) && UpTo(q[k..], now);
    SinceKeepsAll(q[k..], c);
  }

  lemma {:induction false} OrderedNext<T>(q: seq<Stamped<T>>, e: Stamped<T>)
    requires Ordered(q) && UpTo(q, e.at)
    ensures Ordered(q + [e]) && UpTo(q + [e], e.at)
  {
  }

  lemma {:induction false} UpToNext<T>(q: seq<Stamped<T>>, e: Stamped<T>)
    requires UpTo(q, e.at)
    ensures UpTo(q + [e], e.at)
  {
  }

  /** Appending the newest entry on both sides keeps the agreement. */
  lemma {:induction false} AgreesAppend<T>(q: seq<Stamped<T>>, h: seq<Stamped<T>>, window: real, now: real, item: T)
    requires Agrees(q, h, window, now)
    ensures Agrees(q + [Stamped(now, item)], h + [Stamped(now, item)], window, now)
  {
    var e := Stamped(now, item);
    OrderedNext(q, e);
    UpToNext(h, e);
    hide Ordered, UpTo;
    SinceConcat(q, [e], now - window);
    SinceConcat(h, [e], now - window);
  }

  /** What pruning leaves is as long as the number of entries in the closed window. */
  lemma {:induction false} AgreesCount<T>(q: seq<Stamped<T>>, h: seq<Stamped<T>>, window: real, now: real)
    requires Agrees(q, h, window, now)
    ensures |Evict(q, now - window)| == Count(h, now - window, now)
  {
    AgreesQuery(q, h, window, now);
    CountIsSince(h, now - window, now);
  }

  lemma {:induction false} CountAppend<T>(h: seq<Stamped<T>>, e: Stamped<T>, from: real, to: real)
    ensures Count(h + [e], from, to) == Count(h, from, to) + if from <= e.at <= to then 1 else 0
  {
    assert (h + [e])[..|h|] == h;
  }

  lemma {:induction false} SuffixInTime<T>(front: seq<Stamped<T>>, back: seq<Stamped<T>>, now: real)
    requires Ordered(front + back) && UpTo(front + back, now)
    ensures Ordered(back) && UpTo(back, now)
  {
    assert forall i :: 0 <= i < |back| ==> back[i] == (front + back)[|front| + i];
  }

  /** Deleting an entry from an ordered stream leaves it ordered. */
  lemma {:induction false} OrderedWithout<T>(front: seq<Stamped<T>>, e: Stamped<T>, back: seq<Stamped<T>>, now: real)
    requires Ordered(front + [e] + back) && UpTo(front + [e] + back, now)
    ensures Ordered(front) && UpTo(front, e.at)
    ensures Ordered(front + back) && UpTo(front + back, now)
  {
    var all, cut := front + [e] + back, front + back;
    forall i | 0 <= i < |cut| ensures cut[i] == all[if i < |front| then i else i + 1] {}
    forall i | 0 <= i < |front| ensures front[i] == all[i] {}
    assert all[|front|] == e;
  }
}
