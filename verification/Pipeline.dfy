/** The pipeline: rule matching, both correlations, scoring. */
module Pipeline {
  import opened Common
  import opened SlidingWindow
  import opened Scoring
  import Rules
  import Correlator

  datatype Event = Event(node: string, offset: int, reasons: seq<string>, eventType: string)

  datatype Config = Config(cross: Correlator.Cross, multiRules: seq<Correlator.MultiRule>, score: ScoreConfig) {
    ghost predicate Usable() {
      multiRules != [] && cross.window >= 0.0
    }
  }

  /** The correlator's two tables. */
  datatype Tables = Tables(windows: Correlator.Windows, signals: Correlator.Windows)

  datatype Decision = Decision(
    node: string,
    offset: int,
    scored: Scored,
    matches: seq<Match>,
    correlated: bool,
    reasons: seq<string>)

  function Max(x: real, y: real): real {
    if x >= y then x else y
  }

  /** One cross-node check per match, in order, at one reading of the clock. */
  function CheckAll(c: Correlator.Cross, w: Correlator.Windows, matches: seq<Match>, node: string,
                    now: real): (Correlator.Windows, bool, real) {
    if matches == [] then (w, false, 1.0)
    else
      var (before, correlated, multiplier) := CheckAll(c, w, matches[..|matches|-1], node, now);
      var (after, hit) := Correlator.Check(c, before, matches[|matches|-1].ruleId, node, now);
      (after, correlated || hit, if hit then Max(multiplier, c.multiplier) else multiplier)
  }

  function Recorded(signals: Correlator.Windows, e: Event, now: real): Correlator.Windows {
    if e.eventType == "NORMAL" then signals
    else Correlator.Append(signals, e.node, Stamped(now, e.eventType))
  }

  function Process(cfg: Config, rules: seq<Rules.Rule>, t: Tables, e: Event, current: real,
                   now: real): (Tables, Decision)
    requires cfg.multiRules != []
  {
    var matches := Rules.MatchAll(rules, Rules.Join(e.reasons));
    var (windows, crossed, multiplier) := CheckAll(cfg.cross, t.windows, matches, e.node, now);
    var signals := Recorded(t.signals, e, now);
    var q := Lookup(signals, e.node, []);
    var f := Correlator.Evaluate(cfg.multiRules, q, now);
    (Tables(windows, signals[e.node := Evict(q, now - Correlator.MaxWindow(cfg.multiRules))]),
     Decision(e.node, e.offset,
              Score(cfg.score, matches, e.node, current,
                    if f.matched then Max(multiplier, f.multiplier) else multiplier),
              matches, crossed || f.matched,
              if f.matched && f.title != "" then e.reasons + ["Multi-signal: " + f.title] else e.reasons))
  }

  class Pipeline {
    const cfg: Config
    const rules: Rules.RuleEngine
    const correlator: Correlator.Correlator

    ghost predicate Valid() {
      cfg.multiRules != [] && correlator.cross == cfg.cross && correlator.rules == cfg.multiRules
    }

    ghost function View(): Tables
      reads correlator
    {
      Tables(correlator.windows, correlator.signals)
    }

    constructor (cfg: Config, rules: Rules.RuleEngine, correlator: Correlator.Correlator)
      requires cfg.multiRules != [] && correlator.cross == cfg.cross && correlator.rules == cfg.multiRules
      ensures Valid() && this.cfg == cfg && this.rules == rules && this.correlator == correlator
    {
      this.cfg, this.rules, this.correlator := cfg, rules, correlator;
    }

    /** `current` is the stored score the enricher put into the event. */
    method Run(e: Event, current: real, now: real) returns (d: Decision)
      requires Valid()
      modifies correlator
      ensures (View(), d) == Process(cfg, rules.rules, old(View()), e, current, now)
    {
      hide Score, Correlator.Evaluate, Correlator.Check, Rules.MatchAll, Rules.Join, Correlator.MaxWindow, Max;
      var matches := rules.Match(e.reasons);
      var correlated, multiplier := false, 1.0;
      ghost var start := correlator.windows;
      for i := 0 to |matches|
        invariant (correlator.windows, correlated, multiplier) == CheckAll(cfg.cross, start, matches[..i], e.node, now)
        invariant correlator.signals == old(correlator.signals)
      {
        assert matches[..i + 1][..i] == matches[..i];
        var hit, factor := correlator.Inspect(matches[i].ruleId, e.node, now);
        if hit {
          correlated, multiplier := true, Max(multiplier, factor);
        }
      }
      assert matches[..|matches|] == matches;
      if e.eventType != "NORMAL" {
        correlator.RecordThreat(e.node, e.eventType, now);
      }
      var f := correlator.CheckMultiSignal(e.node, now);
      var reasons := e.reasons;
      if f.matched {
        correlated, multiplier := true, Max(multiplier, f.multiplier);
        if f.title != "" {
          reasons := reasons + ["Multi-signal: " + f.title];
        }
      }
      d := Decision(e.node, e.offset, Score(cfg.score, matches, e.node, current, multiplier), matches, correlated,
                    reasons);
    }
  }

  // ---- Reason monotonicity ----

  /** Whether a check of this rule, made now on these windows, correlates. */
  ghost predicate Correlates(c: Correlator.Cross, w: Correlator.Windows, rule: string, node: string, now: real) {
    Correlator.Check(c, w, rule, node, now).1
  }

  /** A check at the same moment and node changes no later answer, not even its own rule's. */
  lemma {:induction false} CheckRepeats(c: Correlator.Cross, w: Correlator.Windows, rule: string, other: string,
                                        node: string, now: real)
    requires c.window >= 0.0
    ensures Correlates(c, Correlator.Check(c, w, other, node, now).0, rule, node, now) <==>
            Correlates(c, w, rule, node, now)
  {
    if rule == other {
      var q := Lookup(w, rule, []);
      var kept := Evict(q, now - c.window);
      var k := EvictIsSuffix(q, now - c.window);
      var e := Stamped(now, node);
      assert (kept + [e])[0].at >= now - c.window;
      assert Evict(kept + [e], now - c.window) == kept + [e];
      Correlator.ItemsAppend(kept, e);
      Correlator.ItemsAppend(kept + [e], e);
      assert Correlator.ItemsOf(kept + [e] + [e]) == Correlator.ItemsOf(kept + [e]);
    }
  }

  ghost predicate AnyCorrelates(c: Correlator.Cross, w: Correlator.Windows, matches: seq<Match>, node: string,
                                now: real) {
    exists i :: 0 <= i < |matches| && Correlates(c, w, matches[i].ruleId, node, now)
  }

  /** The scan's outcome depends on the windows before it only: the order and repetition of matches do not matter. */
  lemma {:induction false} CheckAllIsAny(c: Correlator.Cross, w: Correlator.Windows, matches: seq<Match>, node: string,
                                         now: real)
    requires c.window >= 0.0
    ensures CheckAll(c, w, matches, node, now).1 <==> AnyCorrelates(c, w, matches, node, now)
    ensures CheckAll(c, w, matches, node, now).2 ==
            if AnyCorrelates(c, w, matches, node, now) then Max(1.0, c.multiplier) else 1.0
    ensures forall rule :: Correlates(c, CheckAll(c, w, matches, node, now).0, rule, node, now) <==>
            Correlates(c, w, rule, node, now)
  {
    if matches != [] {
      var before, last := matches[..|matches|-1], matches[|matches|-1];
      CheckAllIsAny(c, w, before, node, now);
      var w' := CheckAll(c, w, before, node, now).0;
      AnyOfLast(c, w, matches, node, now);
      assert Correlator.Check(c, w', last.ruleId, node, now).1 <==> Correlates(c, w', last.ruleId, node, now);
      var w'' := CheckAll(c, w, matches, node, now).0;
      assert w'' == Correlator.Check(c, w', last.ruleId, node, now).0;
      hide Correlates, Correlator.Check, AnyCorrelates;
      forall rule ensures Correlates(c, w'', rule, node, now) <==> Correlates(c, w, rule, node, now) {
        CheckRepeats(c, w', rule, last.ruleId, node, now);
      }
    }
  }

  lemma {:induction false} AnyOfLast(c: Correlator.Cross, w: Correlator.Windows, matches: seq<Match>, node: string,
                                     now: real)
    requires matches != []
    ensures AnyCorrelates(c, w, matches, node, now) <==>
            AnyCorrelates(c, w, matches[..|matches|-1], node, now) ||
              Correlates(c, w, matches[|matches|-1].ruleId, node, now)
  {
    hide Correlates;
    var before := matches[..|matches|-1];
    assert forall i :: 0 <= i < |before| ==> before[i] == matches[i];
    if i :| 0 <= i < |before| && Correlates(c, w, before[i].ruleId, node, now) {
      assert Correlates(c, w, matches[i].ruleId, node, now);
    }
    if i :| 0 <= i < |matches| && Correlates(c, w, matches[i].ruleId, node, now) {
      if i < |before| { assert Correlates(c, w, before[i].ruleId, node, now); }
    }
  }

  ghost predicate SaneRules(rules: seq<Rules.Rule>) {
    forall r <- rules :: r.severity >= 0 && r.blastRadius >= 0
  }

  lemma {:induction false} MatchesNonNegative(rules: seq<Rules.Rule>, text: string)
    requires SaneRules(rules)
    ensures NonNegative(Rules.MatchAll(rules, text))
  {
    if rules != [] {
      var r := rules[|rules|-1];
      assert r in rules;
      MatchesNonNegative(rules[..|rules|-1], text);
    }
  }

  /** The multiplier a decision was scored with. */
  ghost function MultiplierOf(cfg: Config, rules: seq<Rules.Rule>, t: Tables, e: Event, now: real): real
    requires cfg.multiRules != []
  {
    var multiplier := CheckAll(cfg.cross, t.windows, Rules.MatchAll(rules, Rules.Join(e.reasons)), e.node, now).2;
    var f := Correlator.Evaluate(cfg.multiRules, Lookup(Recorded(t.signals, e, now), e.node, []), now);
    if f.matched then Max(multiplier, f.multiplier) else multiplier
  }

  lemma {:induction false} ProcessIdentifies(cfg: Config, rules: seq<Rules.Rule>, t: Tables, e: Event, current: real,
                                             now: real)
    requires cfg.multiRules != []
    ensures Process(cfg, rules, t, e, current, now).1.node == e.node
    ensures Process(cfg, rules, t, e, current, now).1.offset == e.offset
  {
  }

  lemma {:induction false} ProcessScores(cfg: Config, rules: seq<Rules.Rule>, t: Tables, e: Event, current: real,
                                         now: real)
    requires cfg.multiRules != []
    ensures
      var d := Process(cfg, rules, t, e, current, now).1;
      && d.node == e.node && d.offset == e.offset
      && d.matches == Rules.MatchAll(rules, Rules.Join(e.reasons))
      && d.scored == Score(cfg.score, d.matches, e.node, current, MultiplierOf(cfg, rules, t, e, now))
  {
  }

  lemma {:induction false} CrossMonotone(c: Correlator.Cross, w: Correlator.Windows, fewer: seq<Match>,
                                         more: seq<Match>, node: string, now: real)
    requires c.window >= 0.0 && forall m <- fewer :: m in more
    ensures 1.0 <= CheckAll(c, w, fewer, node, now).2 <= CheckAll(c, w, more, node, now).2
  {
    CheckAllIsAny(c, w, fewer, node, now);
    CheckAllIsAny(c, w, more, node, now);
    hide Correlates, CheckAll;
    if i :| 0 <= i < |fewer| && Correlates(c, w, fewer[i].ruleId, node, now) {
      assert fewer[i] in fewer;
      var j :| 0 <= j < |more| && more[j] == fewer[i];
      assert Correlates(c, w, more[j].ruleId, node, now);
    }
  }

  lemma {:induction false} MultiplierMonotone(cfg: Config, rules: seq<Rules.Rule>, t: Tables, e: Event,
                                              extra: seq<string>, now: real)
    requires cfg.Usable()
    ensures 1.0 <= MultiplierOf(cfg, rules, t, e, now)
            <= MultiplierOf(cfg, rules, t, e.(reasons := e.reasons + extra), now)
  {
    hide CheckAll, Rules.MatchAll, Rules.Join, Correlator.Evaluate;
    Rules.MoreReasonsMoreMatches(rules, e.reasons, extra);
    CrossMonotone(cfg.cross, t.windows, Rules.MatchAll(rules, Rules.Join(e.reasons)),
                  Rules.MatchAll(rules, Rules.Join(e.reasons + extra)), e.node, now);
  }

  /**
    Reason monotonicity.  From one state, appending reasons to an event never lowers its
    matches, its multiplier, its event score, the node's cumulative score or the bucket.
  */
  lemma {:induction false} ReasonMonotonicity(cfg: Config, rules: seq<Rules.Rule>, t: Tables, e: Event,
                                              extra: seq<string>, current: real, now: real)
    requires cfg.Usable() && Sane(cfg.score) && SaneRules(rules) && current >= 0.0
    ensures
      var a := Process(cfg, rules, t, e, current, now).1;
      var b := Process(cfg, rules, t, e.(reasons := e.reasons + extra), current, now).1;
      && (forall m <- a.matches :: m in b.matches)
      && MultiplierOf(cfg, rules, t, e, now) <= MultiplierOf(cfg, rules, t, e.(reasons := e.reasons + extra), now)
      && a.scored.event <= b.scored.event
      && a.scored.cumulative <= b.scored.cumulative
      && a.scored.bucket.Rank() <= b.scored.bucket.Rank()
  {
    var e' := e.(reasons := e.reasons + extra);
    ProcessScores(cfg, rules, t, e, current, now);
    ProcessScores(cfg, rules, t, e', current, now);
    hide Process, MultiplierOf, Score;
    Rules.MoreReasonsMoreMatches(rules, e.reasons, extra);
    MatchesNonNegative(rules, Rules.Join(e'.reasons));
    MultiplierMonotone(cfg, rules, t, e, extra, now);
    ScoreMonotone(cfg.score, Rules.MatchAll(rules, Rules.Join(e.reasons)),
                  Rules.MatchAll(rules, Rules.Join(e'.reasons)),
                  e.node, current, MultiplierOf(cfg, rules, t, e, now), MultiplierOf(cfg, rules, t, e', now));
  }
}
