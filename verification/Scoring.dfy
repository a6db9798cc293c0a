/** Weighted scoring: accumulation on matches, decay without, a latch at 71, and buckets. */
module Scoring {
  import opened Common

  // ---- Rounding to four decimals, ties to even ----

  function HalfEven(y: real): int {
    var low := y.Floor;
    var rest := y - low as real;
    if rest < 0.5 || (rest == 0.5 && low % 2 == 0) then low else low + 1
  }

  function Round4(x: real): real {
    Grid(HalfEven(x * 10000.0))
  }

  function Grid(k: int): real {
    k as real / 10000.0
  }

  /** Multiples of 0.0001: what a stored score can be. */
  ghost predicate OnGrid(x: real) {
    exists k: int :: x == Grid(k)
  }

  lemma {:induction false} HalfEvenNear(y: real)
    ensures -0.5 <= HalfEven(y) as real - y <= 0.5
  {
  }

  lemma {:induction false} HalfEvenMonotone(x: real, y: real)
    requires x <= y
    ensures HalfEven(x) <= HalfEven(y)
  {
    assert x.Floor <= y.Floor;
  }

  lemma {:induction false} RoundNear(x: real)
    ensures -0.00005 <= Round4(x) - x <= 0.00005
    ensures OnGrid(Round4(x))
  {
    HalfEvenNear(x * 10000.0);
    hide HalfEven;
    assert Round4(x) == Grid(HalfEven(x * 10000.0));
  }

  /** Exactly when rounding ends above 100: at the midpoint it goes to the even 100. */
  lemma {:induction false} RoundAbove(x: real)
    ensures Round4(x) > 100.0 <==> x > 100.00005
  {
    var y := x * 10000.0;
    assert Round4(x) > 100.0 <==> HalfEven(y) > 1000000;
  }

  lemma {:induction false} RoundMonotone(x: real, y: real)
    requires x <= y
    ensures Round4(x) <= Round4(y)
  {
    HalfEvenMonotone(x * 10000.0, y * 10000.0);
    hide HalfEven;
  }

  lemma {:induction false} RoundFixesGrid(x: real)
    ensures Round4(x) == x <==> OnGrid(x)
  {
    if OnGrid(x) {
      var k: int :| x == Grid(k);
      assert x * 10000.0 == k as real;
    } else {
      RoundNear(x);
    }
  }

  /** Halfway between two grid points the even one is taken. */
  lemma {:induction false} RoundTies(k: int)
    ensures Round4(Grid(2 * k) + 0.00005) == Grid(2 * k) == Round4(Grid(2 * k) - 0.00005)
  {
    HalfEvenTies(k);
    assert (Grid(2 * k) + 0.00005) * 10000.0 == (2 * k) as real + 0.5;
    assert (Grid(2 * k) - 0.00005) * 10000.0 == (2 * k - 1) as real + 0.5;
    hide HalfEven, Grid;
  }

  lemma {:induction false} HalfEvenTies(k: int)
    ensures HalfEven((2 * k) as real + 0.5) == 2 * k == HalfEven((2 * k - 1) as real + 0.5)
  {
    assert ((2 * k) as real + 0.5).Floor == 2 * k && ((2 * k - 1) as real + 0.5).Floor == 2 * k - 1;
  }

  // ---- Buckets ----

  datatype Bucket = Info | Low | Medium | High | Critical {
    function Rank(): nat {
      match this
      case Info => 0
      case Low => 1
      case Medium => 2
      case High => 3
      case Critical => 4
    }
  }

  datatype Bound = Bound(bucket: Bucket, upper: real)

  /** The first bucket whose upper bound is not below the score; past all of them, critical. */
  function BucketOf(bounds: seq<Bound>, score: real): Bucket {
    if bounds == [] then Critical
    else if score <= bounds[0].upper then bounds[0].bucket
    else BucketOf(bounds[1..], score)
  }

  ghost predicate Increasing(bounds: seq<Bound>) {
    && (forall i, j :: 0 <= i < j < |bounds| ==> bounds[i].upper <= bounds[j].upper)
    && (forall i, j :: 0 <= i < j < |bounds| ==> bounds[i].bucket.Rank() < bounds[j].bucket.Rank())
    && (forall i :: 0 <= i < |bounds| ==> bounds[i].bucket != Critical)
  }

  lemma {:induction false} BucketMonotone(bounds: seq<Bound>, low: real, high: real)
    requires Increasing(bounds) && low <= high
    ensures BucketOf(bounds, low).Rank() <= BucketOf(bounds, high).Rank()
  {
    if bounds != [] {
      BucketMonotone(bounds[1..], low, high);
      if low <= bounds[0].upper < high {
        BucketWithin(bounds[1..], high);
      }
    }
  }

  lemma {:induction false} BucketWithin(bounds: seq<Bound>, score: real)
    ensures BucketOf(bounds, score) == Critical ||
            exists i :: 0 <= i < |bounds| && BucketOf(bounds, score) == bounds[i].bucket
  {
    if bounds != [] {
      BucketWithin(bounds[1..], score);
      if score > bounds[0].upper && BucketOf(bounds[1..], score) != Critical {
        var i :| 0 <= i < |bounds| - 1 && BucketOf(bounds[1..], score) == bounds[1..][i].bucket;
        assert bounds[i + 1] == bounds[1..][i];
      }
    }
  }

  // ---- Scores ----

  datatype Match = Match(ruleId: string, severity: int, blastRadius: int)

  datatype ScoreConfig = ScoreConfig(
    bounds: seq<Bound>,
    criticality: map<string, int>,
    defaultCriticality: int,
    decayRate: real)
  {
    function AssetCriticality(node: string): int {
      Lookup(criticality, node, defaultCriticality)
    }
  }

  /** The shipped buckets and decay. */
  const SHIPPED_BOUNDS := [Bound(Info, 20.0), Bound(Low, 40.0), Bound(Medium, 70.0), Bound(High, 100.0)]
  const SHIPPED_DECAY := 5.0

  const LATCH := 71.0

  function Weight(m: Match, criticality: int): real {
    (m.severity * m.blastRadius * criticality) as real / 1000.0
  }

  /** The highest-scoring rule counts, not the sum. */
  function MaxWeight(matches: seq<Match>, criticality: int): real
    requires matches != []
  {
    if |matches| == 1 then Weight(matches[0], criticality)
    else
      var rest := MaxWeight(matches[1..], criticality);
      if Weight(matches[0], criticality) >= rest then Weight(matches[0], criticality) else rest
  }

  function Scaled(weight: real, multiplier: real): real {
    weight * multiplier
  }

  /** The unrounded score of an event with matches. */
  function EventScore(cfg: ScoreConfig, matches: seq<Match>, node: string, multiplier: real): real
    requires matches != []
  {
    Scaled(MaxWeight(matches, cfg.AssetCriticality(node)), multiplier)
  }

  function Decayed(cfg: ScoreConfig, current: real): real {
    if current >= LATCH then current
    else if current - cfg.decayRate > 0.0 then current - cfg.decayRate
    else 0.0
  }

  /** Event score and cumulative score are rounded, the bucket is not taken from the rounded value. */
  datatype Scored = Scored(event: real, cumulative: real, bucket: Bucket)

  function Score(cfg: ScoreConfig, matches: seq<Match>, node: string, current: real, multiplier: real): Scored {
    if matches == [] then
      var next := Decayed(cfg, current);
      Scored(0.0, Round4(next), BucketOf(cfg.bounds, next))
    else
      var event := EventScore(cfg, matches, node, multiplier);
      Scored(Round4(event), Round4(current + event), BucketOf(cfg.bounds, current + event))
  }

  /** Nonnegative weights and decay, increasing bounds. */
  ghost predicate Sane(cfg: ScoreConfig) {
    && Increasing(cfg.bounds) && cfg.decayRate >= 0.0
    && cfg.defaultCriticality >= 0 && forall n <- cfg.criticality :: cfg.criticality[n] >= 0
  }

  ghost predicate NonNegative(matches: seq<Match>) {
    forall m <- matches :: m.severity >= 0 && m.blastRadius >= 0
  }

  lemma {:induction false} WeightNonNegative(m: Match, criticality: int)
    requires m.severity >= 0 && m.blastRadius >= 0 && criticality >= 0
    ensures Weight(m, criticality) >= 0.0
  {
    assert m.severity * m.blastRadius >= 0;
    assert m.severity * m.blastRadius * criticality >= 0;
  }

  lemma {:induction false} MaxWeightBounds(matches: seq<Match>, criticality: int)
    requires matches != []
    ensures forall i :: 0 <= i < |matches| ==> Weight(matches[i], criticality) <= MaxWeight(matches, criticality)
    ensures exists i :: 0 <= i < |matches| && Weight(matches[i], criticality) == MaxWeight(matches, criticality)
  {
    hide Weight;
    if |matches| == 1 {
      assert Weight(matches[0], criticality) == MaxWeight(matches, criticality);
    } else {
      MaxWeightBounds(matches[1..], criticality);
      var j :| 0 <= j < |matches[1..]| && Weight(matches[1..][j], criticality) == MaxWeight(matches[1..], criticality);
      assert Weight(matches[j + 1], criticality) == MaxWeight(matches[1..], criticality);
      assert Weight(matches[0], criticality) <= MaxWeight(matches, criticality);
      forall i | 0 <= i < |matches| ensures Weight(matches[i], criticality) <= MaxWeight(matches, criticality) {
        if i > 0 { assert matches[i] == matches[1..][i - 1]; }
      }
    }
  }

  /**
    w is the largest severity * blast radius * criticality / 1000; a node that is not listed has the default
    criticality.
  */
  ghost predicate Heaviest(cfg: ScoreConfig, matches: seq<Match>, node: string, w: real) {
    var c := if node in cfg.criticality then cfg.criticality[node] else cfg.defaultCriticality;
    && (exists m :: m in matches && w == (m.severity * m.blastRadius * c) as real / 1000.0)
    && forall m <- matches :: (m.severity * m.blastRadius * c) as real / 1000.0 <= w
  }

  /** What an event with no match leads to: no decay from 71 up, and never below zero. */
  ghost function Rested(cfg: ScoreConfig, stored: real): real {
    if stored >= 71.0 then stored
    else if stored > cfg.decayRate then stored - cfg.decayRate
    else 0.0
  }

  /**
    The three numbers of a score.  With a match: the recorded score is the multiplier times the heaviest match,
    the stored one the old score plus that, both rounded, and the bucket is that of the unrounded sum.
    Without one: nothing is recorded and the stored score decays.
  */
  lemma {:induction false} ScoredBy(cfg: ScoreConfig, matches: seq<Match>, node: string, current: real,
                                    multiplier: real)
    ensures
      var r := Score(cfg, matches, node, current, multiplier);
      if matches == [] then
        r == Scored(0.0, Round4(Rested(cfg, current)), BucketOf(cfg.bounds, Rested(cfg, current)))
      else
        exists w :: Heaviest(cfg, matches, node, w) &&
          r == Scored(Round4(multiplier * w), Round4(current + multiplier * w),
                      BucketOf(cfg.bounds, current + multiplier * w))
  {
    if matches != [] {
      var ac := cfg.AssetCriticality(node);
      var w := MaxWeight(matches, ac);
      MaxWeightBounds(matches, ac);
      HeaviestIsMax(cfg, matches, node, w);
      hide Round4, BucketOf, MaxWeight, Heaviest;
      assert EventScore(cfg, matches, node, multiplier) == multiplier * w;
    }
  }

  lemma {:induction false} HeaviestIsMax(cfg: ScoreConfig, matches: seq<Match>, node: string, w: real)
    requires forall i :: 0 <= i < |matches| ==> Weight(matches[i], cfg.AssetCriticality(node)) <= w
    requires exists i :: 0 <= i < |matches| && Weight(matches[i], cfg.AssetCriticality(node)) == w
    ensures Heaviest(cfg, matches, node, w)
  {
    var i :| 0 <= i < |matches| && Weight(matches[i], cfg.AssetCriticality(node)) == w;
    var m := matches[i];
    assert m in matches && w == Weight(m, cfg.AssetCriticality(node));
  }

  lemma {:induction false} ScaledMonotone(x: real, y: real, m: real, n: real)
    requires 0.0 <= x <= y && 0.0 <= m <= n
    ensures 0.0 <= Scaled(x, m) <= Scaled(y, n)
  {
    assert x * m <= y * m;
    assert y * m <= y * n;
  }

  lemma {:induction false} EventScoreNonNegative(cfg: ScoreConfig, matches: seq<Match>, node: string, multiplier: real)
    requires Sane(cfg) && NonNegative(matches) && matches != [] && multiplier >= 0.0
    ensures EventScore(cfg, matches, node, multiplier) >= 0.0
  {
    var ac := cfg.AssetCriticality(node);
    MaxWeightBounds(matches, ac);
    assert matches[0] in matches;
    WeightNonNegative(matches[0], ac);
    hide Weight, Scaled;
    ScaledMonotone(MaxWeight(matches, ac), MaxWeight(matches, ac), multiplier, multiplier);
  }

  lemma {:induction false} MaxWeightMonotone(fewer: seq<Match>, more: seq<Match>, criticality: int)
    requires NonNegative(more) && criticality >= 0 && fewer != [] && more != []
    requires forall m <- fewer :: m in more
    ensures 0.0 <= MaxWeight(fewer, criticality) <= MaxWeight(more, criticality)
  {
    MaxWeightBounds(fewer, criticality);
    MaxWeightBounds(more, criticality);
    var i :| 0 <= i < |fewer| && Weight(fewer[i], criticality) == MaxWeight(fewer, criticality);
    assert fewer[i] in fewer;
    var j :| 0 <= j < |more| && more[j] == fewer[i];
    WeightNonNegative(fewer[i], criticality);
    hide Weight, MaxWeight;
    assert Weight(more[j], criticality) <= MaxWeight(more, criticality);
  }

  /** More matches and a larger multiplier never lower an event score. */
  lemma {:induction false} EventScoreMonotone(cfg: ScoreConfig, fewer: seq<Match>, more: seq<Match>, node: string,
                                              low: real, high: real)
    requires Sane(cfg) && NonNegative(more) && fewer != [] && more != [] && 0.0 <= low <= high
    requires forall m <- fewer :: m in more
    ensures EventScore(cfg, fewer, node, low) <= EventScore(cfg, more, node, high)
  {
    var ac := cfg.AssetCriticality(node);
    MaxWeightMonotone(fewer, more, ac);
    hide MaxWeight, Scaled;
    ScaledMonotone(MaxWeight(fewer, ac), MaxWeight(more, ac), low, high);
  }

  /** More matches and a larger multiplier never lower what is recorded, stored, or the bucket. */
  lemma {:induction false} ScoreMonotone(cfg: ScoreConfig, fewer: seq<Match>, more: seq<Match>, node: string,
                                         current: real, low: real, high: real)
    requires Sane(cfg) && NonNegative(more) && 0.0 <= low <= high && current >= 0.0
    requires forall m <- fewer :: m in more
    ensures
      var a, b := Score(cfg, fewer, node, current, low), Score(cfg, more, node, current, high);
      a.event <= b.event && a.cumulative <= b.cumulative && a.bucket.Rank() <= b.bucket.Rank()
  {
    assert forall i :: 0 <= i < |fewer| ==> fewer[i] in more;
    if more != [] {
      var event := EventScore(cfg, more, node, high);
      EventScoreNonNegative(cfg, more, node, high);
      RoundMonotone(0.0, event);
      RoundFixesGrid(0.0);
      assert 0.0 == Grid(0);
      var before :=
        if fewer == [] then Decayed(cfg, current) else current + EventScore(cfg, fewer, node, low);
      if fewer != [] {
        EventScoreMonotone(cfg, fewer, more, node, low, high);
        RoundMonotone(EventScore(cfg, fewer, node, low), event);
      }
      hide Round4, EventScore;
      RoundMonotone(before, current + event);
      BucketMonotone(cfg.bounds, before, current + event);
    }
  }

  // ---- The audit bound ----

  /** One rule-matching event of a node, as the scorer sees it. */
  datatype Hit = Hit(matches: seq<Match>, multiplier: real)

  ghost predicate Matching(hits: seq<Hit>) {
    forall h <- hits :: h.matches != []
  }

  /** The stored score after a run; each step starts from the score stored by the one before. */
  ghost function Stored(cfg: ScoreConfig, node: string, start: real, hits: seq<Hit>): real {
    if hits == [] then start
    else
      var h := hits[|hits|-1];
      Score(cfg, h.matches, node, Stored(cfg, node, start, hits[..|hits|-1]), h.multiplier).cumulative
  }

  ghost function RecordedSum(cfg: ScoreConfig, node: string, hits: seq<Hit>): real
    requires Matching(hits)
  {
    if hits == [] then 0.0
    else
      var h := hits[|hits|-1];
      RecordedSum(cfg, node, hits[..|hits|-1]) + Score(cfg, h.matches, node, 0.0, h.multiplier).event
  }

  ghost function ExactSum(cfg: ScoreConfig, node: string, hits: seq<Hit>): real
    requires Matching(hits)
  {
    if hits == [] then 0.0
    else
      var h := hits[|hits|-1];
      assert h in hits;
      ExactSum(cfg, node, hits[..|hits|-1]) + EventScore(cfg, h.matches, node, h.multiplier)
  }

  ghost predicate Within(x: real, y: real, slack: real) {
    -slack <= x - y <= slack
  }

  /** The stored change stays within n * 0.0001 of the recorded sum and n * 0.00005 of the exact one. */
  lemma {:induction false} AuditBound(cfg: ScoreConfig, node: string, start: real, hits: seq<Hit>)
    requires Matching(hits)
    ensures Within(Stored(cfg, node, start, hits) - start, RecordedSum(cfg, node, hits), |hits| as real * 0.0001)
    ensures Within(Stored(cfg, node, start, hits) - start, ExactSum(cfg, node, hits), |hits| as real * 0.00005)
  {
    if hits != [] {
      var before, h := hits[..|hits|-1], hits[|hits|-1];
      assert h in hits;
      AuditBound(cfg, node, start, before);
      var event := EventScore(cfg, h.matches, node, h.multiplier);
      RoundNear(event);
      RoundNear(Stored(cfg, node, start, before) + event);
      hide Round4, EventScore;
    }
  }

  // ---- Clean events ----

  /** The stored score after n events without a match. */
  ghost function AfterClean(cfg: ScoreConfig, node: string, start: real, n: nat): real {
    if n == 0 then start else Score(cfg, [], node, AfterClean(cfg, node, start, n - 1), 1.0).cumulative
  }

  lemma {:induction false} AfterCleanNone(cfg: ScoreConfig, node: string, start: real)
    ensures AfterClean(cfg, node, start, 0) == start
  {
  }

  lemma {:induction false} AfterCleanAppends(cfg: ScoreConfig, node: string, start: real, m: nat, n: nat)
    ensures AfterClean(cfg, node, AfterClean(cfg, node, start, m), n) == AfterClean(cfg, node, start, m + n)
  {
    if n > 0 {
      AfterCleanAppends(cfg, node, start, m, n - 1);
    }
    hide Score;
  }

  lemma {:induction false} GridDifference(x: real, d: real)
    requires OnGrid(x) && OnGrid(d)
    ensures OnGrid(x - d)
  {
    var j: int :| x == Grid(j);
    var k: int :| d == Grid(k);
    assert x - d == Grid(j - k);
  }

  /** What n decays take away. */
  ghost function Decays(n: nat, rate: real): real {
    n as real * rate
  }

  lemma {:induction false} DecaysStep(n: nat, rate: real)
    requires n > 0
    ensures Decays(n, rate) == Decays(n - 1, rate) + rate
  {
  }

  lemma {:induction false} DecaysReach(n: nat, rate: real, start: real)
    requires rate > 0.0
    ensures Decays(n, rate) >= start <==> n as real >= start / rate
  {
    assert start / rate * rate == start;
    if n as real >= start / rate {
      assert n as real * rate >= start / rate * rate;
    } else {
      assert n as real * rate < start / rate * rate;
    }
  }

  lemma {:induction false} CleanStep(cfg: ScoreConfig, node: string, current: real)
    requires 0.0 <= current < LATCH && OnGrid(current) && OnGrid(cfg.decayRate)
    ensures
      var next := Score(cfg, [], node, current, 1.0).cumulative;
      next == (if current - cfg.decayRate > 0.0 then current - cfg.decayRate else 0.0) && OnGrid(next)
  {
    GridDifference(current, cfg.decayRate);
    RoundFixesGrid(current - cfg.decayRate);
    RoundFixesGrid(0.0);
    assert 0.0 == Grid(0);
    hide Round4;
  }

  /** From below the latch, n clean events subtract n decays, stopping at zero. */
  lemma {:induction false} CleanRun(cfg: ScoreConfig, node: string, start: real, n: nat)
    requires 0.0 <= start < LATCH && OnGrid(start)
    requires cfg.decayRate >= 0.0 && OnGrid(cfg.decayRate)
    ensures
      var left := start - Decays(n, cfg.decayRate);
      AfterClean(cfg, node, start, n) == if left > 0.0 then left else 0.0
    ensures OnGrid(AfterClean(cfg, node, start, n)) && 0.0 <= AfterClean(cfg, node, start, n) <= start
  {
    if n > 0 {
      CleanRun(cfg, node, start, n - 1);
      CleanStep(cfg, node, AfterClean(cfg, node, start, n - 1));
      DecaysStep(n, cfg.decayRate);
      hide Decays, Score, OnGrid;
    }
  }

  /** The score reaches zero after exactly ceil(start / decay) clean events. */
  lemma {:induction false} CleanRunReachesZero(cfg: ScoreConfig, node: string, start: real, n: nat)
    requires 0.0 < start < LATCH && OnGrid(start)
    requires cfg.decayRate > 0.0 && OnGrid(cfg.decayRate)
    ensures AfterClean(cfg, node, start, n) == 0.0 <==> n as real >= start / cfg.decayRate
  {
    CleanRun(cfg, node, start, n);
    hide AfterClean, OnGrid, Decays;
    DecaysReach(n, cfg.decayRate, start);
  }

  /** A full decay takes effect exactly if the rate is a multiple of 0.0001; rounding distorts any other. */
  lemma {:induction false} DecayExactIff(cfg: ScoreConfig, node: string, start: real)
    requires cfg.decayRate >= 0.0 && cfg.decayRate <= start < LATCH && OnGrid(start)
    ensures AfterClean(cfg, node, start, 1) == start - cfg.decayRate <==> OnGrid(cfg.decayRate)
  {
    var d := cfg.decayRate;
    assert AfterClean(cfg, node, start, 0) == start;
    assert AfterClean(cfg, node, start, 1) == Round4(start - d);
    RoundFixesGrid(start - d);
    if OnGrid(d) {
      GridDifference(start, d);
    }
    if OnGrid(start - d) {
      GridDifference(start, start - d);
    }
  }

  /** A rate under half a grid step never decays anything: rounding restores what each event takes away. */
  lemma {:induction false} TinyRateNeverDecays(cfg: ScoreConfig, node: string, start: real, n: nat)
    requires 0.0 <= cfg.decayRate < 0.00005 && start >= 0.0 && OnGrid(start)
    ensures AfterClean(cfg, node, start, n) == start
  {
    if n > 0 {
      TinyRateNeverDecays(cfg, node, start, n - 1);
      TinyRateRestored(cfg, start);
      hide Decayed, Round4, OnGrid;
    }
  }

  lemma {:induction false} TinyRateRestored(cfg: ScoreConfig, start: real)
    requires 0.0 <= cfg.decayRate < 0.00005 && start >= 0.0 && OnGrid(start)
    ensures Round4(Decayed(cfg, start)) == start
  {
    var k: int :| start == Grid(k);
    if k == 0 {
      assert Decayed(cfg, start) == 0.0;
      assert 0.0 == Grid(0);
      RoundFixesGrid(0.0);
    } else if start >= LATCH {
      RoundFixesGrid(start);
    } else {
      var y := Decayed(cfg, start) * 10000.0;
      HalfEvenExact(y, k);
    }
  }

  lemma {:induction false} HalfEvenExact(y: real, k: int)
    requires k as real - 0.5 < y <= k as real
    ensures HalfEven(y) == k
  {
    if y < k as real {
      assert y.Floor == k - 1;
    }
  }

  /** A clean event leaves a stored score alone exactly at zero and from the latch up. */
  lemma {:induction false} CleanKeepsIff(cfg: ScoreConfig, node: string, current: real)
    requires current >= 0.0 && OnGrid(current) && cfg.decayRate > 0.0 && OnGrid(cfg.decayRate)
    ensures Score(cfg, [], node, current, 1.0).cumulative == current <==> current >= LATCH || current == 0.0
  {
    RoundFixesGrid(current);
    RoundFixesGrid(0.0);
    assert 0.0 == Grid(0);
    GridDifference(current, cfg.decayRate);
    RoundFixesGrid(current - cfg.decayRate);
    hide Round4, OnGrid;
  }
}
