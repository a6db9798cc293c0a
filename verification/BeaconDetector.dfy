/**
  The offline beacon detector: connections grouped by source and destination, and an alert for each
  pair whose arrival gaps have a population deviation below five seconds.
*/
module BeaconDetector {
  import opened Common

  datatype Pair = Pair(source: string, destination: string)

  /** One connection after its fields have been read. */
  datatype Record = Record(pair: Pair, at: real, bytes: real)

  /** `variance` is the square of the reported deviation. */
  datatype Alert = Alert(pair: Pair, connections: nat, variance: real, meanBytes: real, lowBandwidth: bool)

  // ---- Grouping ----

  datatype Column = At | Bytes

  function Value(r: Record, column: Column): real {
    match column
    case At => r.at
    case Bytes => r.bytes
  }

  /** One column of one pair's records, in input order. */
  function Project(records: seq<Record>, pair: Pair, column: Column): seq<real> {
    if records == [] then []
    else
      var last := records[|records|-1];
      Project(records[..|records|-1], pair, column) + (if last.pair == pair then [Value(last, column)] else [])
  }

  /** The pairs in order of first appearance. */
  function Pairs(records: seq<Record>): seq<Pair> {
    if records == [] then []
    else
      var before := Pairs(records[..|records|-1]);
      var pair := records[|records|-1].pair;
      if pair in before then before else before + [pair]
  }

  // ---- Order and moments ----

  predicate Ascending(s: seq<real>) {
    |s| < 2 || (s[0] <= s[1] && Ascending(s[1..]))
  }

  function Insert(x: real, s: seq<real>): (r: seq<real>)
    requires Ascending(s)
    ensures Ascending(r) && multiset(r) == multiset(s) + multiset{x}
    ensures r != [] && r[0] == if s == [] || x <= s[0] then x else s[0]
  {
    if s == [] || x <= s[0] then
      assert ([x] + s)[1..] == s;
      [x] + s
    else
      assert s == [s[0]] + s[1..];
      var rest := Insert(x, s[1..]);
      assert ([s[0]] + rest)[1..] == rest;
      [s[0]] + rest
  }

  function Sort(s: seq<real>): (r: seq<real>)
    ensures Ascending(r) && multiset(r) == multiset(s)
  {
    if s == [] then []
    else
      assert s == [s[0]] + s[1..];
      Insert(s[0], Sort(s[1..]))
  }

  /** Differences of neighbours, keeping those that do not go back. */
  function Gaps(s: seq<real>): seq<real> {
    if |s| < 2 then []
    else (if s[0] <= s[1] then [s[1] - s[0]] else []) + Gaps(s[1..])
  }

  function Sum(s: seq<real>): real {
    if s == [] then 0.0 else s[0] + Sum(s[1..])
  }

  function Square(x: real): real {
    x * x
  }

  /** The sum of squared distances from c. */
  function Spread(s: seq<real>, c: real): real {
    if s == [] then 0.0 else Square(s[0] - c) + Spread(s[1..], c)
  }

  function Mean(s: seq<real>): real {
    Sum(s) / (if s == [] then 1 else |s|) as real
  }

  /** Population variance. */
  function Variance(s: seq<real>): real
    requires s != []
  {
    Spread(s, Mean(s)) / |s| as real
  }

  // ---- Detection ----

  /** The verdict on one pair from its arrival times and byte counts. */
  function Verdict(pair: Pair, stamps: seq<real>, bytes: seq<real>): Option<Alert> {
    if |stamps| <= 10 then None
    else
      var gaps := Gaps(Sort(stamps));
      if |gaps| < 5 then None
      else if Variance(gaps) < 25.0 then
        Some(Alert(pair, |stamps|, Variance(gaps), Mean(bytes), Mean(bytes) < 1024.0))
      else None
  }

  function AlertFor(records: seq<Record>, pair: Pair): Option<Alert> {
    Verdict(pair, Project(records, pair, At), Project(records, pair, Bytes))
  }

  function Reported(records: seq<Record>, pairs: seq<Pair>): seq<Alert> {
    if pairs == [] then []
    else
      Reported(records, pairs[..|pairs|-1]) +
      match AlertFor(records, pairs[|pairs|-1]) { case None => [] case Some(a) => [a] }
  }

  /** What the two dictionaries hold after some records. */
  ghost predicate Grouped(records: seq<Record>, order: seq<Pair>, times: map<Pair, seq<real>>,
                          bytes: map<Pair, seq<real>>) {
    && order == Pairs(records)
    && (forall p ::
          Lookup(times, p, []) == Project(records, p, At) && Lookup(bytes, p, []) == Project(records, p, Bytes))
    && (forall p :: p in order <==> p in times)
    && (forall p :: p in order <==> p in bytes)
  }

  lemma {:induction false} GroupedNext(records: seq<Record>, r: Record, order: seq<Pair>, times: map<Pair, seq<real>>,
                                       bytes: map<Pair, seq<real>>)
    requires Grouped(records, order, times, bytes)
    ensures Grouped(records + [r], if r.pair in times then order else order + [r.pair],
                    times[r.pair := Lookup(times, r.pair, []) + [r.at]],
                    bytes[r.pair := Lookup(bytes, r.pair, []) + [r.bytes]])
  {
    var more := records + [r];
    assert more[..|records|] == records && more[|records|] == r;
    forall p
      ensures Project(more, p, At) == Project(records, p, At) + (if r.pair == p then [r.at] else [])
      ensures Project(more, p, Bytes) == Project(records, p, Bytes) + (if r.pair == p then [r.bytes] else [])
    {
    }
    assert Pairs(more) == if r.pair in order then order else order + [r.pair];
    hide Project, Pairs;
  }

  lemma {:induction false} GroupedAt(records: seq<Record>, order: seq<Pair>, times: map<Pair, seq<real>>,
                                     bytes: map<Pair, seq<real>>, pair: Pair)
    requires Grouped(records, order, times, bytes) && pair in order
    ensures pair in times && times[pair] == Project(records, pair, At)
    ensures pair in bytes && bytes[pair] == Project(records, pair, Bytes)
  {
    assert Lookup(times, pair, []) == Project(records, pair, At);
  }

  lemma {:induction false} ReportedNext(records: seq<Record>, pairs: seq<Pair>, i: nat)
    requires i < |pairs|
    ensures Reported(records, pairs[..i+1]) ==
            Reported(records, pairs[..i]) +
            match AlertFor(records, pairs[i]) { case None => [] case Some(a) => [a] }
  {
    assert pairs[..i+1][..i] == pairs[..i];
  }

  lemma {:induction false} GroupedNone()
    ensures Grouped([], [], map[], map[])
  {
  }

  /** The grouping loop: pairs by first appearance, and each pair's times and byte counts in input order. */
  method GroupByPair(records: seq<Record>)
    returns (order: seq<Pair>, times: map<Pair, seq<real>>, bytes: map<Pair, seq<real>>)
    ensures Grouped(records, order, times, bytes)
  {
    hide *;
    order, times, bytes := [], map[], map[];
    GroupedNone();
    for i := 0 to |records|
      invariant Grouped(records[..i], order, times, bytes)
    {
      var r := records[i];
      GroupedNext(records[..i], r, order, times, bytes);
      assert records[..i+1] == records[..i] + [r];
      if r.pair !in times {
        order := order + [r.pair];
      }
      times := times[r.pair := Lookup(times, r.pair, []) + [r.at]];
      bytes := bytes[r.pair := Lookup(bytes, r.pair, []) + [r.bytes]];
    }
    assert records[..|records|] == records;
  }

  method DetectBeaconing(records: seq<Record>) returns (alerts: seq<Alert>)
    ensures alerts == Reported(records, Pairs(records))
    ensures forall a :: a in alerts <==> AlertFor(records, a.pair) == Some(a)
  {
    hide Sort, Gaps, Variance, Mean, Project;
    var order, times, bytes := GroupByPair(records);
    assert order == Pairs(records);
    assert Reported(records, order[..0]) == [];
    hide Grouped, Pairs, Reported;
    alerts := [];
    for i := 0 to |order|
      invariant alerts == Reported(records, order[..i])
    {
      var pair := order[i];
      GroupedAt(records, order, times, bytes, pair);
      ReportedNext(records, order, i);
      var stamps, sizes := times[pair], bytes[pair];
      if |stamps| <= 10 {
        continue;
      }
      var gaps := Gaps(Sort(stamps));
      if |gaps| < 5 {
        continue;
      }
      var variance, meanBytes := Variance(gaps), Mean(sizes);
      if variance < 25.0 && |stamps| > 10 {
        alerts := alerts + [Alert(pair, |stamps|, variance, meanBytes, meanBytes < 1024.0)];
      }
    }
    assert order[..|order|] == order;
    ReportedExactly(records);
  }

  // ---- Who is reported ----

  lemma {:induction false} PairsComplete(records: seq<Record>, pair: Pair)
    ensures pair in Pairs(records) <==> Project(records, pair, At) != []
  {
    if records != [] {
      PairsComplete(records[..|records|-1], pair);
    }
  }

  lemma {:induction false} AlertNamesPair(records: seq<Record>, pair: Pair)
    ensures AlertFor(records, pair).Some? ==> AlertFor(records, pair).value.pair == pair
  {
    hide Sort, Gaps, Variance, Mean, Project;
  }

  lemma {:induction false} ReportedOver(records: seq<Record>, pairs: seq<Pair>, a: Alert)
    ensures a in Reported(records, pairs) <==> a.pair in pairs && AlertFor(records, a.pair) == Some(a)
  {
    hide AlertFor;
    if pairs != [] {
      var front, last := pairs[..|pairs|-1], pairs[|pairs|-1];
      ReportedOver(records, front, a);
      AlertNamesPair(records, last);
      assert a.pair in pairs <==> a.pair in front || a.pair == last by {
        assert pairs == front + [last];
      }
    }
  }

  /** The alerts are exactly the pairs' own verdicts: nothing is missed and nothing else appears. */
  lemma {:induction false} ReportedExactly(records: seq<Record>)
    ensures forall a :: a in Reported(records, Pairs(records)) <==> AlertFor(records, a.pair) == Some(a)
  {
    forall a: Alert
      ensures a in Reported(records, Pairs(records)) <==> AlertFor(records, a.pair) == Some(a)
    {
      ReportedOver(records, Pairs(records), a);
      PairsComplete(records, a.pair);
      hide Sort, Gaps, Variance, Mean, Project, Pairs, Reported;
    }
  }

  lemma {:induction false} GapCount(s: seq<real>)
    requires Ascending(s) && s != []
    ensures |Gaps(s)| == |s| - 1
  {
    if |s| > 1 {
      GapCount(s[1..]);
    }
  }

  /** The guards on going back in time and on fewer than five gaps never decide anything. */
  lemma {:induction false} ReportedIff(records: seq<Record>, pair: Pair)
    ensures
      var stamps := Project(records, pair, At);
      var gaps := Gaps(Sort(stamps));
      && (stamps != [] ==> |gaps| == |stamps| - 1)
      && (AlertFor(records, pair).Some? <==> |stamps| > 10 && gaps != [] && Variance(gaps) < 25.0)
  {
    var stamps := Project(records, pair, At);
    assert |Sort(stamps)| == |multiset(Sort(stamps))| == |multiset(stamps)| == |stamps|;
    hide Sort, Gaps, Variance, Mean, Project;
    if stamps != [] {
      GapCount(Sort(stamps));
    }
  }

  // ---- Only the multiset of records matters ----

  lemma {:induction false} ProjectConcat(a: seq<Record>, b: seq<Record>, pair: Pair, column: Column)
    ensures Project(a + b, pair, column) == Project(a, pair, column) + Project(b, pair, column)
  {
    if b == [] {
      assert a + b == a;
    } else {
      ProjectConcat(a, b[..|b|-1], pair, column);
      assert (a + b)[..|a + b|-1] == a + b[..|b|-1];
    }
  }

  lemma {:induction false} SameLength<T>(a: seq<T>, b: seq<T>)
    requires multiset(a) == multiset(b)
    ensures |a| == |b|
  {
    assert |multiset(a)| == |a| && |multiset(b)| == |b|;
  }

  lemma {:induction false} HeadFirst<T>(s: seq<T>)
    requires s != []
    ensures s == [s[0]] + s[1..] && multiset(s) == multiset{s[0]} + multiset(s[1..])
  {
    assert s == [s[0]] + s[1..];
  }

  lemma {:induction false} Cancel<T>(x: T, a: multiset<T>, b: multiset<T>)
    requires multiset{x} + a == multiset{x} + b
    ensures a == b
  {
    assert a == (multiset{x} + a) - multiset{x};
    assert b == (multiset{x} + b) - multiset{x};
  }

  /** Where the head of one sequence stands in a permutation of it. */
  lemma {:induction false} HeadIn<T>(a: seq<T>, b: seq<T>) returns (before: seq<T>, after: seq<T>)
    requires multiset(a) == multiset(b) && a != []
    ensures b == before + ([a[0]] + after) && multiset(a[1..]) == multiset(before + after)
  {
    assert a[0] in multiset(b);
    var j :| 0 <= j < |b| && b[j] == a[0];
    before, after := b[..j], b[j+1..];
    assert b == before + ([a[0]] + after);
    HeadFirst(a);
    assert multiset(b) == multiset(before) + (multiset{a[0]} + multiset(after));
    Cancel(a[0], multiset(a[1..]), multiset(before + after));
  }

  lemma {:induction false} ProjectPermutes(a: seq<Record>, b: seq<Record>, pair: Pair, column: Column)
    requires multiset(a) == multiset(b)
    ensures multiset(Project(a, pair, column)) == multiset(Project(b, pair, column))
    decreases |a|
  {
    SameLength(a, b);
    if a != [] {
      hide Project;
      var before, after := HeadIn(a, b);
      HeadFirst(a);
      ProjectPermutes(a[1..], before + after, pair, column);
      ProjectConcat([a[0]], a[1..], pair, column);
      ProjectConcat(before, after, pair, column);
      ProjectConcat(before, [a[0]] + after, pair, column);
      ProjectConcat([a[0]], after, pair, column);
    }
  }

  lemma {:induction false} SumConcat(a: seq<real>, b: seq<real>)
    ensures Sum(a + b) == Sum(a) + Sum(b)
  {
    if a == [] {
      assert a + b == b;
    } else {
      SumConcat(a[1..], b);
      assert (a + b)[1..] == a[1..] + b;
    }
  }

  lemma {:induction false} SumPermutes(a: seq<real>, b: seq<real>)
    requires multiset(a) == multiset(b)
    ensures Sum(a) == Sum(b)
    decreases |a|
  {
    SameLength(a, b);
    if a != [] {
      hide Sum;
      var before, after := HeadIn(a, b);
      HeadFirst(a);
      SumPermutes(a[1..], before + after);
      SumConcat([a[0]], a[1..]);
      SumConcat(before, after);
      SumConcat(before, [a[0]] + after);
      SumConcat([a[0]], after);
    }
  }

  lemma {:induction false} HeadIsLeast(s: seq<real>, x: real)
    requires Ascending(s) && x in s
    ensures s[0] <= x
  {
    if x != s[0] {
      assert x in s[1..];
      HeadIsLeast(s[1..], x);
    }
  }

  lemma {:induction false} SortedUnique(a: seq<real>, b: seq<real>)
    requires Ascending(a) && Ascending(b) && multiset(a) == multiset(b)
    ensures a == b
  {
    SameLength(a, b);
    if a != [] {
      HeadFirst(a);
      HeadFirst(b);
      assert a[0] in multiset(b) && b[0] in multiset(a);
      HeadIsLeast(b, a[0]);
      HeadIsLeast(a, b[0]);
      assert Ascending(a[1..]) && Ascending(b[1..]);
      hide Ascending;
      Cancel(a[0], multiset(a[1..]), multiset(b[1..]));
      SortedUnique(a[1..], b[1..]);
    }
  }

  /** Reordering the export changes no pair's verdict, hence neither the set of alerts. */
  lemma {:induction false} OrderIrrelevant(a: seq<Record>, b: seq<Record>, pair: Pair)
    requires multiset(a) == multiset(b)
    ensures AlertFor(a, pair) == AlertFor(b, pair)
    ensures forall x: Alert :: x.pair == pair ==>
              (x in Reported(a, Pairs(a)) <==> x in Reported(b, Pairs(b)))
  {
    hide Project, Reported, Pairs;
    VerdictPermutes(a, b, pair);
    ReportedExactly(a);
    ReportedExactly(b);
    hide AlertFor;
  }

  lemma {:induction false} VerdictPermutes(a: seq<Record>, b: seq<Record>, pair: Pair)
    requires multiset(a) == multiset(b)
    ensures AlertFor(a, pair) == AlertFor(b, pair)
  {
    ProjectPermutes(a, b, pair, At);
    ProjectPermutes(a, b, pair, Bytes);
    var s, t := Project(a, pair, At), Project(b, pair, At);
    var u, v := Project(a, pair, Bytes), Project(b, pair, Bytes);
    SortedUnique(Sort(s), Sort(t));
    SameLength(s, t);
    SameLength(u, v);
    SumPermutes(u, v);
    assert Mean(u) == Mean(v);
    hide Project, Sort, Gaps, Variance, Mean, Sum;
  }

  // ---- The guarantee ----

  predicate Within(s: seq<real>, lo: real, hi: real) {
    forall i :: 0 <= i < |s| ==> lo <= s[i] <= hi
  }

  lemma {:induction false} ProductNonnegative(a: real, b: real)
    requires a >= 0.0 && b >= 0.0
    ensures a * b >= 0.0
  {
  }

  lemma {:induction false} SquareBound(x: real, h: real)
    requires -h <= x <= h
    ensures Square(x) <= Square(h)
  {
    ProductNonnegative(h - x, h + x);
    assert (h - x) * (h + x) == h * h - x * x;
  }

  lemma {:induction false} SpreadBound(s: seq<real>, lo: real, hi: real)
    requires lo <= hi && Within(s, lo, hi)
    ensures Spread(s, (lo + hi) / 2.0) <= |s| as real * Square((hi - lo) / 2.0)
  {
    if s != [] {
      SpreadBound(s[1..], lo, hi);
      SquareBound(s[0] - (lo + hi) / 2.0, (hi - lo) / 2.0);
      hide Square;
      Distribute((|s| - 1) as real, Square((hi - lo) / 2.0));
    }
  }

  lemma {:induction false} Distribute(n: real, h: real)
    ensures (n + 1.0) * h == n * h + h
  {
  }

  lemma {:induction false} SquareShift(x: real, c: real, d: real)
    ensures Square(x - c) == Square(x - d) + 2.0 * (d - c) * (x - d) + Square(d - c)
  {
  }

  /** The spread around c, from the spread around d, the sum and the count. */
  ghost function Moved(spread: real, sum: real, n: real, c: real, d: real): real {
    spread + 2.0 * (d - c) * (sum - n * d) + n * Square(d - c)
  }

  lemma {:induction false} MovedOne(x: real, spread: real, sum: real, n: real, c: real, d: real)
    ensures Square(x - c) + Moved(spread, sum, n, c, d) == Moved(Square(x - d) + spread, x + sum, n + 1.0, c, d)
  {
    SquareShift(x, c, d);
    Distribute(n, Square(d - c));
    Collect(2.0 * (d - c), x, sum, n + 1.0, d);
    hide Square;
  }

  lemma {:induction false} MovedNone(c: real, d: real)
    ensures Moved(0.0, 0.0, 0.0, c, d) == 0.0
  {
  }

  lemma {:induction false} SpreadShift(s: seq<real>, c: real, d: real)
    ensures Spread(s, c) == Moved(Spread(s, d), Sum(s), |s| as real, c, d)
  {
    hide Square, Moved;
    if s == [] {
      MovedNone(c, d);
    } else {
      SpreadShift(s[1..], c, d);
      MovedOne(s[0], Spread(s[1..], d), Sum(s[1..]), |s[1..]| as real, c, d);
      assert |s| as real == |s[1..]| as real + 1.0;
    }
  }

  lemma {:induction false} Collect(k: real, x: real, rest: real, n: real, d: real)
    ensures k * (x - d) + k * (rest - (n - 1.0) * d) == k * (x + rest - n * d)
  {
    assert (x - d) + (rest - (n - 1.0) * d) == x + rest - n * d;
  }

  lemma {:induction false} MeanTimesCount(s: seq<real>)
    requires s != []
    ensures |s| as real * Mean(s) == Sum(s)
  {
    hide Sum;
  }

  lemma {:induction false} SquareNonnegative(x: real)
    ensures Square(x) >= 0.0
  {
  }

  /** No point is closer to the sample, in squares, than its mean. */
  lemma {:induction false} MeanMinimises(s: seq<real>, c: real)
    requires s != []
    ensures Spread(s, Mean(s)) <= Spread(s, c)
  {
    hide Square, Spread, Sum, Mean;
    var d := Mean(s);
    SpreadShift(s, c, d);
    MeanTimesCount(s);
    SquareNonnegative(d - c);
    ProductNonnegative(|s| as real, Square(d - c));
  }

  lemma {:induction false} Quotient(x: real, n: real, h: real)
    requires n > 0.0 && x <= n * h
    ensures x / n <= h
  {
    var q := x / n;
    assert q * n == x;
    calc ==> {
      q > h;
      { ProductPositive(q - h, n); }
      (q - h) * n > 0.0;
      q * n > h * n;
    }
  }

  lemma {:induction false} ProductPositive(a: real, b: real)
    ensures a > 0.0 && b > 0.0 ==> a * b > 0.0
  {
  }

  /** The deviation of a sample is at most half its range. */
  lemma {:induction false} VarianceBound(s: seq<real>, lo: real, hi: real)
    requires s != [] && lo <= hi && Within(s, lo, hi)
    ensures Variance(s) <= Square((hi - lo) / 2.0)
  {
    hide Square, Mean, Within, Spread;
    MeanMinimises(s, (lo + hi) / 2.0);
    SpreadBound(s, lo, hi);
    Quotient(Spread(s, Mean(s)), |s| as real, Square((hi - lo) / 2.0));
  }

  lemma {:induction false} SquareGrows(x: real, h: real)
    requires 0.0 <= x < h
    ensures Square(x) < Square(h)
  {
    ProductPositive(h - x, h + x);
    assert (h - x) * (h + x) == h * h - x * x;
  }

  /** Any pair with more than ten connections whose gaps lie in an interval narrower than ten seconds is reported. */
  lemma {:induction false} BeaconReported(records: seq<Record>, pair: Pair, lo: real, hi: real)
    requires |Project(records, pair, At)| > 10 && hi - lo < 10.0
    requires Within(Gaps(Sort(Project(records, pair, At))), lo, hi)
    ensures exists a :: a in Reported(records, Pairs(records)) && a.pair == pair &&
                        a.connections == |Project(records, pair, At)|
  {
    ReportedIff(records, pair);
    AlertNamesPair(records, pair);
    ReportedExactly(records);
    hide Sort, Gaps, Variance, Mean, Project, Pairs, Reported;
    var gaps := Gaps(Sort(Project(records, pair, At)));
    assert lo <= gaps[0] <= hi;
    VarianceBound(gaps, lo, hi);
    SquareGrows((hi - lo) / 2.0, 5.0);
    assert AlertFor(records, pair).value in Reported(records, Pairs(records));
  }

  // ---- What an alert says ----

  /** The pair's records, in input order. */
  ghost function Of(records: seq<Record>, pair: Pair): seq<Record> {
    if records == [] then []
    else
      var last := records[|records|-1];
      Of(records[..|records|-1], pair) + (if last.pair == pair then [last] else [])
  }

  ghost function TotalBytes(records: seq<Record>): real {
    if records == [] then 0.0 else TotalBytes(records[..|records|-1]) + records[|records|-1].bytes
  }

  lemma {:induction false} ColumnsOf(records: seq<Record>, pair: Pair)
    ensures
      var mine, stamps, bytes := Of(records, pair), Project(records, pair, At), Project(records, pair, Bytes);
      && |mine| == |stamps| == |bytes|
      && forall i :: 0 <= i < |mine| ==> mine[i].pair == pair && stamps[i] == mine[i].at && bytes[i] == mine[i].bytes
  {
    if records != [] {
      ColumnsOf(records[..|records|-1], pair);
    }
  }

  lemma {:induction false} SumIsTotal(bytes: seq<real>, records: seq<Record>)
    requires |bytes| == |records| && forall i :: 0 <= i < |bytes| ==> bytes[i] == records[i].bytes
    ensures Sum(bytes) == TotalBytes(records)
  {
    if bytes != [] {
      var n := |bytes| - 1;
      SumIsTotal(bytes[..n], records[..n]);
      assert bytes == bytes[..n] + [bytes[n]] && [bytes[n]][1..] == [];
      SumConcat(bytes[..n], [bytes[n]]);
    }
  }

  /** Each gap is the difference of two neighbouring arrival times in ascending order. */
  lemma {:induction false} GapAt(s: seq<real>, i: nat)
    requires Ascending(s) && i + 1 < |s|
    ensures |Gaps(s)| == |s| - 1 && Gaps(s)[i] == s[i + 1] - s[i] >= 0.0
  {
    GapCount(s);
    if i > 0 {
      GapAt(s[1..], i - 1);
    }
  }

  /**
    The numbers of an alert: as many connections as the pair has records, the variance of their gaps, the mean of their
    byte counts, and the low-bandwidth flag exactly below 1024 bytes.
  */
  lemma {:induction false} AlertSays(records: seq<Record>, pair: Pair, a: Alert)
    requires a in Reported(records, Pairs(records)) && a.pair == pair
    ensures
      var mine := Of(records, pair);
      && a.connections == |mine| > 10 && a.meanBytes == TotalBytes(mine) / |mine| as real
      && (a.lowBandwidth <==> a.meanBytes < 1024.0)
      && var gaps := Gaps(Sort(Project(records, pair, At)));
         gaps != [] && a.variance == Spread(gaps, Mean(gaps)) / |gaps| as real
  {
    hide *;
    ReportedExactly(records);
    ColumnsOf(records, pair);
    ReportedIff(records, pair);
    VerdictSays(records, pair, a);
    SumIsTotal(Project(records, pair, Bytes), Of(records, pair));
    MeanSays(Project(records, pair, Bytes));
    VarianceSays(Gaps(Sort(Project(records, pair, At))));
  }

  lemma {:induction false} VerdictSays(records: seq<Record>, pair: Pair, a: Alert)
    requires AlertFor(records, pair) == Some(a)
    ensures
      var stamps, bytes := Project(records, pair, At), Project(records, pair, Bytes);
      var gaps := Gaps(Sort(stamps));
      && gaps != [] && a.variance == Variance(gaps) && a.meanBytes == Mean(bytes) && a.connections == |stamps| > 10
      && (a.lowBandwidth <==> Mean(bytes) < 1024.0)
  {
    hide Sort, Gaps, Mean, Variance, Project;
  }

  lemma {:induction false} MeanSays(s: seq<real>)
    requires s != []
    ensures Mean(s) == Sum(s) / |s| as real
  {
    hide Sum;
  }

  lemma {:induction false} VarianceSays(s: seq<real>)
    requires s != []
    ensures Variance(s) == Spread(s, Mean(s)) / |s| as real
  {
    hide Spread, Mean;
  }
}
