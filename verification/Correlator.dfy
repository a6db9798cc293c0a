/** The risk engine's correlator: cross-node windows per rule, multi-signal windows per node, warm restart. */
module Correlator {
  import opened Common
  import opened SlidingWindow

  type Named = Stamped<string>
  type Windows = map<string, seq<Named>>

  /** A rule that fired, and on which node. */
  datatype Firing = Firing(rule: string, node: string)

  datatype Cross = Cross(window: real, threshold: int, multiplier: real)

  /** Threat types that together, on one node within the window, are a finding. */
  datatype MultiRule = MultiRule(types: set<string>, window: real, multiplier: real, title: string)

  datatype Finding = Finding(matched: bool, multiplier: real, title: string)

  function ShippedRules(): seq<MultiRule> {
    [ MultiRule({"REVERSE_SHELL", "NETWORK_THREAT"}, 120.0, 2.5, "High Confidence Compromise"),
      MultiRule({"FALCO_ALERT", "RUNTIME_DRIFT", "NETWORK_THREAT"}, 300.0, 3.0, "Critical Multi-Signal Risk"),
      MultiRule({"CONTAINER_EXEC", "PRIV_ESC_ATTEMPT"}, 180.0, 2.5, "Active Attack Chain"),
      MultiRule({"IMAGE_MISMATCH", "RUNTIME_DRIFT"}, 600.0, 2.0, "Deployment Tamper"),
      MultiRule({"ALLOWLIST_TAMPER", "ROGUE_NODE"}, 600.0, 3.0, "Coordinated Intrusion"),
      MultiRule({"CONTAINER_ESCAPE_ATTEMPT", "PRIV_ESC_ATTEMPT"}, 120.0, 3.0, "Container Escape Attempt"),
      MultiRule({"UNEXPECTED_EXEC", "UNEXPECTED_NETWORK_ATTACH"}, 180.0, 2.5, "APT Lateral Movement") ]
  }

  function ItemsOf(q: seq<Named>): set<string> {
    set e | e in q :: e.item
  }

  /** The items not older than the cutoff, wherever they stand in the queue. */
  function Recent(q: seq<Named>, from: real): set<string> {
    set e | e in q && e.at >= from :: e.item
  }

  // ---- Operations, on values ----

  /** The new windows, and whether enough distinct nodes fired the rule within the window. */
  function Check(c: Cross, w: Windows, rule: string, node: string, now: real): (Windows, bool) {
    var q := Evict(Lookup(w, rule, []), now - c.window) + [Stamped(now, node)];
    (w[rule := q], |ItemsOf(q)| >= c.threshold)
  }

  function Factor(c: Cross, correlated: bool): real {
    if correlated then c.multiplier else 1.0
  }

  predicate Fires(r: MultiRule, q: seq<Named>, now: real) {
    r.types <= Recent(q, now - r.window)
  }

  /** The table is scanned in order; the best multiplier is kept, the label is overwritten. */
  function Evaluate(rules: seq<MultiRule>, q: seq<Named>, now: real): Finding {
    if rules == [] then Finding(false, 1.0, "")
    else
      var before := Evaluate(rules[..|rules|-1], q, now);
      var r := rules[|rules|-1];
      if Fires(r, q, now) then
        Finding(true, if r.multiplier > before.multiplier then r.multiplier else before.multiplier, r.title)
      else before
  }

  function MaxWindow(rules: seq<MultiRule>): real
    requires rules != []
  {
    if |rules| == 1 then rules[0].window
    else
      var rest := MaxWindow(rules[1..]);
      if rules[0].window >= rest then rules[0].window else rest
  }

  /** A stored event row; rules is None when the column does not parse, at is None for an unreadable timestamp. */
  datatype Row = Row(node: string, rules: Option<seq<string>>, at: Option<real>)

  function Append(w: Windows, rule: string, e: Named): Windows {
    w[rule := Lookup(w, rule, []) + [e]]
  }

  function AppendAll(w: Windows, rules: seq<string>, e: Named): Windows {
    if rules == [] then w else Append(AppendAll(w, rules[..|rules|-1], e), rules[|rules|-1], e)
  }

  /** Reloading starts from nothing; a row without a readable timestamp counts as new. */
  function Load(rows: seq<Row>, now: real): Windows {
    if rows == [] then map[]
    else
      var before := Load(rows[..|rows|-1], now);
      var r := rows[|rows|-1];
      if r.rules.None? then before
      else AppendAll(before, r.rules.value, Stamped(if r.at.Some? then r.at.value else now, r.node))
  }

  class Correlator {
    const cross: Cross
    const rules: seq<MultiRule>
    var windows: Windows
    var signals: Windows

    constructor (cross: Cross, rules: seq<MultiRule>)
      ensures this.cross == cross && this.rules == rules && windows == map[] && signals == map[]
    {
      this.cross, this.rules := cross, rules;
      windows, signals := map[], map[];
    }

    method Inspect(rule: string, node: string, now: real) returns (correlated: bool, factor: real)
      modifies this`windows
      ensures (windows, correlated) == Check(cross, old(windows), rule, node, now)
      ensures factor == Factor(cross, correlated)
    {
      var q := PopExpired(Lookup(windows, rule, []), now - cross.window);
      q := q + [Stamped(now, node)];
      windows := windows[rule := q];
      correlated := |ItemsOf(q)| >= cross.threshold;
      factor := if correlated then cross.multiplier else 1.0;
    }

    method RecordThreat(node: string, threatType: string, now: real)
      modifies this`signals
      ensures signals == Append(old(signals), node, Stamped(now, threatType))
    {
      signals := signals[node := Lookup(signals, node, []) + [Stamped(now, threatType)]];
    }

    method CheckMultiSignal(node: string, now: real) returns (f: Finding)
      requires rules != []
      modifies this`signals
      ensures f == Evaluate(rules, Lookup(old(signals), node, []), now)
      ensures signals == old(signals)[node := Evict(Lookup(old(signals), node, []), now - MaxWindow(rules))]
    {
      var q := Lookup(signals, node, []);
      var matched, best, title := false, 1.0, "";
      var widest := rules[0].window;
      for i := 0 to |rules|
        invariant Finding(matched, best, title) == Evaluate(rules[..i], q, now)
      {
        var r := rules[i];
        assert rules[..i + 1][..i] == rules[..i];
        if r.types <= Recent(q, now - r.window) {
          matched, title := true, r.title;
          if r.multiplier > best {
            best := r.multiplier;
          }
        }
      }
      assert rules[..|rules|] == rules;
      var kept := PopExpired(q, now - MaxWindow(rules));
      signals := signals[node := kept];
      return Finding(matched, best, title);
    }

    method WarmRestart(rows: seq<Row>, now: real)
      modifies this`windows
      ensures windows == Load(rows, now)
    {
      windows := map[];
      for i := 0 to |rows|
        invariant windows == Load(rows[..i], now)
      {
        var r := rows[i];
        assert rows[..i + 1][..i] == rows[..i];
        if r.rules.Some? {
          var e := Stamped(if r.at.Some? then r.at.value else now, r.node);
          ghost var before := windows;
          for j := 0 to |r.rules.value|
            invariant windows == AppendAll(before, r.rules.value[..j], e)
          {
            assert r.rules.value[..j + 1][..j] == r.rules.value[..j];
            windows := windows[r.rules.value[j] := Lookup(windows, r.rules.value[j], []) + [e]];
          }
          assert r.rules.value[..|r.rules.value|] == r.rules.value;
        }
      }
      assert rows[..|rows|] == rows;
    }
  }

  // ---- Cross-node checks against the full history ----

  type Call = Stamped<Firing>

  ghost function RuleHistory(calls: seq<Call>, rule: string): seq<Named> {
    if calls == [] then []
    else
      var before := RuleHistory(calls[..|calls|-1], rule);
      var c := calls[|calls|-1];
      if c.item.rule == rule then before + [Stamped(c.at, c.item.node)] else before
  }

  /** The windows after a sequence of checks, starting from w. */
  ghost function After(c: Cross, w: Windows, calls: seq<Call>): Windows {
    if calls == [] then w
    else
      var last := calls[|calls|-1];
      Check(c, After(c, w, calls[..|calls|-1]), last.item.rule, last.item.node, last.at).0
  }

  lemma {:induction false} RuleHistoryConcat(a: seq<Call>, b: seq<Call>, rule: string)
    ensures RuleHistory(a + b, rule) == RuleHistory(a, rule) + RuleHistory(b, rule)
  {
    if b == [] {
      assert a + b == a;
    } else {
      RuleHistoryConcat(a, b[..|b|-1], rule);
      assert (a + b)[..|a + b|-1] == a + b[..|b|-1];
    }
  }

  /** If w stands for the history so far, what the checks leave stands for the extended history. */
  lemma {:induction false} WindowAgrees(c: Cross, w: Windows, h: seq<Named>, start: real, calls: seq<Call>,
                                        rule: string, now: real)
    requires Agrees(Lookup(w, rule, []), h, c.window, start) && start <= now
    requires Ordered(calls) && UpTo(calls, now) && forall i :: 0 <= i < |calls| ==> start <= calls[i].at
    ensures Agrees(Lookup(After(c, w, calls), rule, []), h + RuleHistory(calls, rule), c.window, now)
  {
    if calls == [] {
      assert h + RuleHistory(calls, rule) == h;
      AgreesLater(Lookup(w, rule, []), h, c.window, start, now);
    } else {
      var before, last := calls[..|calls|-1], calls[|calls|-1];
      WindowAgrees(c, w, h, start, before, rule, last.at);
      hide Check, Agrees;
      WindowStep(c, After(c, w, before), h + RuleHistory(before, rule), last, rule);
      ConcatAssociates(h, RuleHistory(before, rule), [Stamped(last.at, last.item.node)]);
      AgreesLater(Lookup(After(c, w, calls), rule, []), h + RuleHistory(calls, rule), c.window, last.at, now);
    }
  }

  lemma {:induction false} WindowStep(c: Cross, w: Windows, h: seq<Named>, call: Call, rule: string)
    requires Agrees(Lookup(w, rule, []), h, c.window, call.at)
    ensures
      var w' := Check(c, w, call.item.rule, call.item.node, call.at).0;
      Agrees(Lookup(w', rule, []), if call.item.rule == rule then h + [Stamped(call.at, call.item.node)] else h,
             c.window, call.at)
  {
    if call.item.rule == rule {
      var q := Lookup(w, rule, []);
      AgreesEvict(q, h, c.window, call.at);
      AgreesAppend(Evict(q, call.at - c.window), h, c.window, call.at, call.item.node);
    }
    hide Agrees;
  }

  /** The nodes on which the rule fired at or after `from`. */
  ghost function NodesSince(calls: seq<Call>, rule: string, from: real): set<string> {
    set i | 0 <= i < |calls| && calls[i].item.rule == rule && calls[i].at >= from :: calls[i].item.node
  }

  lemma {:induction false} NodesAreItems(calls: seq<Call>, rule: string, from: real)
    ensures ItemsOf(Since(RuleHistory(calls, rule), from)) == NodesSince(calls, rule, from)
  {
    if calls != [] {
      var before, last := calls[..|calls|-1], calls[|calls|-1];
      NodesAreItems(before, rule, from);
      var h := RuleHistory(before, rule);
      var e := Stamped(last.at, last.item.node);
      assert (h + [e])[..|h|] == h;
      assert NodesSince(calls, rule, from) == NodesSince(before, rule, from) +
        if last.item.rule == rule && last.at >= from then {last.item.node} else {} by {
        NodesSinceLast(calls, rule, from);
      }
    }
  }

  lemma {:induction false} NodesSinceLast(calls: seq<Call>, rule: string, from: real)
    requires calls != []
    ensures
      var last := calls[|calls|-1];
      NodesSince(calls, rule, from) == NodesSince(calls[..|calls|-1], rule, from) +
        if last.item.rule == rule && last.at >= from then {last.item.node} else {}
  {
    var before, last := calls[..|calls|-1], calls[|calls|-1];
    var extra := if last.item.rule == rule && last.at >= from then {last.item.node} else {};
    forall n | n in NodesSince(calls, rule, from) ensures n in NodesSince(before, rule, from) + extra {
      var i :| 0 <= i < |calls| && calls[i].item.rule == rule && calls[i].at >= from && calls[i].item.node == n;
      if i < |before| { assert before[i] == calls[i]; }
    }
    forall n | n in NodesSince(before, rule, from) + extra ensures n in NodesSince(calls, rule, from) {
      if n in NodesSince(before, rule, from) {
        var i :| 0 <= i < |before| && before[i].item.rule == rule && before[i].at >= from && before[i].item.node == n;
        assert calls[i] == before[i];
      }
    }
  }

  /** The check answers for the full history: distinct nodes of the rule in the closed window, this one included. */
  lemma {:induction false} CheckIsFullHistory(c: Cross, calls: seq<Call>, rule: string, node: string, now: real)
    requires Ordered(calls) && UpTo(calls, now)
    ensures Check(c, After(c, map[], calls), rule, node, now).1 <==>
            |NodesSince(calls, rule, now - c.window) + {node}| >= c.threshold
  {
    var start := if calls == [] then now else calls[0].at;
    assert Agrees<string>([], [], c.window, start);
    WindowAgrees(c, map[], [], start, calls, rule, now);
    var h := RuleHistory(calls, rule);
    assert [] + h == h;
    hide Check, Agrees;
    AnswerIsQuery(c, After(c, map[], calls), h, rule, node, now);
    NodesAreItems(calls, rule, now - c.window);
  }

  /** A check whose window stands for h answers by the query over h. */
  lemma {:induction false} AnswerIsQuery(c: Cross, w: Windows, h: seq<Named>, rule: string, node: string, now: real)
    requires Agrees(Lookup(w, rule, []), h, c.window, now)
    ensures Check(c, w, rule, node, now).1 <==> |ItemsOf(Since(h, now - c.window)) + {node}| >= c.threshold
  {
    AgreesQuery(Lookup(w, rule, []), h, c.window, now);
    var q := Since(h, now - c.window);
    assert ItemsOf(q + [Stamped(now, node)]) == ItemsOf(q) + {node} by {
      ItemsAppend(q, Stamped(now, node));
    }
  }

  lemma {:induction false} ItemsAppend(q: seq<Named>, e: Named)
    ensures ItemsOf(q + [e]) == ItemsOf(q) + {e.item}
  {
    assert forall x :: x in q + [e] <==> x in q || x == e;
  }

  // ---- Warm restart ----

  /** Rows as write_event stores them: rule ids and timestamp readable. */
  ghost predicate Readable(rows: seq<Row>) {
    forall r <- rows :: r.rules.Some? && r.at.Some?
  }

  ghost function FiringsOf(rules: seq<string>, node: string, at: real): seq<Call> {
    if rules == [] then [] else FiringsOf(rules[..|rules|-1], node, at) + [Stamped(at, Firing(rules[|rules|-1], node))]
  }

  /** The checks the engine made when it processed these rows, with the stored times as check times. */
  ghost function Firings(rows: seq<Row>): seq<Call>
    requires Readable(rows)
  {
    if rows == [] then []
    else
      var r := rows[|rows|-1];
      assert r in rows;
      Firings(rows[..|rows|-1]) + FiringsOf(r.rules.value, r.node, r.at.value)
  }

  lemma {:induction false} AppendAllIsHistory(w: Windows, h: seq<Named>, rules: seq<string>, e: Named, rule: string)
    requires Lookup(w, rule, []) == h
    ensures Lookup(AppendAll(w, rules, e), rule, []) == h + RuleHistory(FiringsOf(rules, e.item, e.at), rule)
  {
    if rules != [] {
      AppendAllIsHistory(w, h, rules[..|rules|-1], e, rule);
      var fs := FiringsOf(rules[..|rules|-1], e.item, e.at);
      assert (fs + [Stamped(e.at, Firing(rules[|rules|-1], e.item))])[..|fs|] == fs;
    }
  }

  lemma {:induction false} AppendedIff(w: Windows, rules: seq<string>, x: Named, rule: string, e: Named)
    ensures e in Lookup(AppendAll(w, rules, x), rule, []) <==> e in Lookup(w, rule, []) || (rule in rules && e == x)
  {
    if rules != [] {
      var before, last := rules[..|rules|-1], rules[|rules|-1];
      assert rules == before + [last];
      AppendedIff(w, before, x, rule, e);
    }
  }

  /**
    What a reload takes in, unreadable rows included: an entry for each rule of each row whose rule column
    parses, at the row's time, or as new if that cannot be read.
  */
  lemma {:induction false} LoadedIff(rows: seq<Row>, now: real, rule: string, e: Named)
    ensures e in Lookup(Load(rows, now), rule, []) <==>
            exists r :: r in rows && r.rules.Some? && rule in r.rules.value && e.item == r.node
              && e.at == (if r.at.Some? then r.at.value else now)
  {
    if rows != [] {
      var before, last := rows[..|rows|-1], rows[|rows|-1];
      assert rows == before + [last];
      assert last in rows;
      LoadedIff(before, now, rule, e);
      if last.rules.Some? {
        AppendedIff(Load(before, now), last.rules.value,
                    Stamped(if last.at.Some? then last.at.value else now, last.node), rule, e);
      }
      hide AppendAll;
    }
  }

  lemma {:induction false} LoadIsHistory(rows: seq<Row>, now: real, rule: string)
    requires Readable(rows)
    ensures Lookup(Load(rows, now), rule, []) == RuleHistory(Firings(rows), rule)
  {
    if rows != [] {
      var before, r := rows[..|rows|-1], rows[|rows|-1];
      assert r in rows;
      LoadIsHistory(before, now, rule);
      AppendAllIsHistory(Load(before, now), RuleHistory(Firings(before), rule), r.rules.value,
                         Stamped(r.at.value, r.node), rule);
      RuleHistoryConcat(Firings(before), FiringsOf(r.rules.value, r.node, r.at.value), rule);
    }
  }

  lemma {:induction false} FiringsConcat(a: seq<Row>, b: seq<Row>)
    requires Readable(a) && Readable(b)
    ensures Readable(a + b) && Firings(a + b) == Firings(a) + Firings(b)
  {
    if b == [] {
      assert a + b == a;
    } else {
      var r := b[|b|-1];
      assert r in b;
      FiringsConcat(a, b[..|b|-1]);
      assert (a + b)[..|a + b|-1] == a + b[..|b|-1];
      hide FiringsOf;
      ConcatAssociates(Firings(a), Firings(b[..|b|-1]), FiringsOf(r.rules.value, r.node, r.at.value));
    }
  }

  lemma {:induction false} RuleHistoryTimes(calls: seq<Call>, rule: string, now: real)
    requires Ordered(calls) && UpTo(calls, now)
    ensures Ordered(RuleHistory(calls, rule)) && UpTo(RuleHistory(calls, rule), now)
  {
    if calls != [] {
      RuleHistoryTimes(calls[..|calls|-1], rule, calls[|calls|-1].at);
    }
  }

  /** A window that is its own history, kept in order, agrees with any longer history of older entries. */
  lemma {:induction false} SuffixAgrees(older: seq<Named>, kept: seq<Named>, window: real, clock: real)
    requires Ordered(kept) && UpTo(kept, clock) && UpTo(older, clock)
    requires forall i :: 0 <= i < |older| ==> older[i].at < clock - window
    ensures Agrees(kept, older + kept, window, clock)
  {
    SinceConcat(older, kept, clock - window);
    SinceDropsAll(older, clock - window);
  }

  lemma {:induction false} OlderThan(calls: seq<Call>, rule: string, cutoff: real)
    requires forall i :: 0 <= i < |calls| ==> calls[i].at < cutoff
    ensures forall i :: 0 <= i < |RuleHistory(calls, rule)| ==> RuleHistory(calls, rule)[i].at < cutoff
  {
    if calls != [] {
      OlderThan(calls[..|calls|-1], rule, cutoff);
    }
  }

  /** The reloaded window stands for the whole log when the rows left out are older than the window. */
  lemma {:induction false} ReloadAgrees(c: Cross, dropped: seq<Row>, kept: seq<Row>, restart: real, rule: string)
    requires Readable(dropped) && Readable(kept) && c.window >= 0.0
    requires Ordered(Firings(kept)) && UpTo(Firings(kept), restart)
    requires forall i :: 0 <= i < |Firings(dropped)| ==> Firings(dropped)[i].at < restart - c.window
    ensures Readable(dropped + kept)
    ensures Agrees(Lookup(Load(kept, restart), rule, []), RuleHistory(Firings(dropped + kept), rule), c.window, restart)
  {
    FiringsConcat(dropped, kept);
    RuleHistoryConcat(Firings(dropped), Firings(kept), rule);
    LoadIsHistory(kept, restart, rule);
    RuleHistoryTimes(Firings(kept), rule, restart);
    OlderThan(Firings(dropped), rule, restart - c.window);
    SuffixAgrees(RuleHistory(Firings(dropped), rule), RuleHistory(Firings(kept), rule), c.window, restart);
  }

  /**
    Warm restart equals no restart.  The log is `dropped + kept`; an engine that reloads `kept` at
    `restart` answers every later cross-node check as the engine that ran on, whatever else
    was checked in between, as long as the rows left out are older than the window.
  */
  lemma {:induction false} WarmRestartEqualsNoRestart(c: Cross, dropped: seq<Row>, kept: seq<Row>, restart: real,
                                                      later: seq<Call>, rule: string, node: string, now: real)
    requires Readable(dropped) && Readable(kept) && Readable(dropped + kept) && c.window >= 0.0
    requires Ordered(Firings(dropped + kept)) && UpTo(Firings(dropped + kept), restart)
    requires Ordered(Firings(kept)) && UpTo(Firings(kept), restart)
    requires forall i :: 0 <= i < |Firings(dropped)| ==> Firings(dropped)[i].at < restart - c.window
    requires Ordered(later) && UpTo(later, now) && restart <= now
    requires forall i :: 0 <= i < |later| ==> restart <= later[i].at
    ensures Check(c, After(c, Load(kept, restart), later), rule, node, now).1 <==>
            Check(c, After(c, After(c, map[], Firings(dropped + kept)), later), rule, node, now).1
  {
    var log := Firings(dropped + kept);
    var h := RuleHistory(log, rule);
    var start := if log == [] then restart else log[0].at;
    assert Agrees<string>([], [], c.window, start);
    WindowAgrees(c, map[], [], start, log, rule, restart);
    assert [] + h == h;
    ReloadAgrees(c, dropped, kept, restart, rule);
    var ran, reloaded := After(c, map[], log), Load(kept, restart);
    hide Check, Agrees, Load;
    WindowAgrees(c, ran, h, restart, later, rule, now);
    WindowAgrees(c, reloaded, h, restart, later, rule, now);
    AnswerIsQuery(c, After(c, ran, later), h + RuleHistory(later, rule), rule, node, now);
    AnswerIsQuery(c, After(c, reloaded, later), h + RuleHistory(later, rule), rule, node, now);
  }

  // ---- Multi-signal checks against the full history ----

  ghost predicate SomeFires(rules: seq<MultiRule>, q: seq<Named>, now: real) {
    exists i :: 0 <= i < |rules| && Fires(rules[i], q, now)
  }

  /** The largest multiplier among the firing rules, and at least 1. */
  ghost predicate Largest(rules: seq<MultiRule>, q: seq<Named>, now: real, x: real) {
    && x >= 1.0
    && (forall i :: 0 <= i < |rules| && Fires(rules[i], q, now) ==> rules[i].multiplier <= x)
    && (x == 1.0 || exists i :: 0 <= i < |rules| && Fires(rules[i], q, now) && rules[i].multiplier == x)
  }

  ghost predicate LastFires(rules: seq<MultiRule>, q: seq<Named>, now: real, i: nat)
    requires i < |rules|
  {
    Fires(rules[i], q, now) && forall j :: i < j < |rules| ==> !Fires(rules[j], q, now)
  }

  /** The label of the last firing rule in table order. */
  ghost predicate LastLabel(rules: seq<MultiRule>, q: seq<Named>, now: real, title: string) {
    exists i :: 0 <= i < |rules| && LastFires(rules, q, now, i) && title == rules[i].title
  }

  /** What a finding has to say about a table and a queue. */
  ghost predicate IsFinding(rules: seq<MultiRule>, q: seq<Named>, now: real, f: Finding) {
    && (f.matched <==> SomeFires(rules, q, now))
    && Largest(rules, q, now, f.multiplier)
    && (if f.matched then LastLabel(rules, q, now, f.title) else f.title == "")
  }

  lemma {:induction false} SomeNext(rules: seq<MultiRule>, r: MultiRule, q: seq<Named>, now: real)
    ensures SomeFires(rules + [r], q, now) <==> SomeFires(rules, q, now) || Fires(r, q, now)
  {
    hide Fires;
    var all := rules + [r];
    assert all[|rules|] == r && forall i :: 0 <= i < |rules| ==> all[i] == rules[i];
    if SomeFires(rules, q, now) {
      var i :| 0 <= i < |rules| && Fires(rules[i], q, now);
      assert Fires(all[i], q, now);
    }
  }

  lemma {:induction false} LargestNext(rules: seq<MultiRule>, r: MultiRule, q: seq<Named>, now: real, x: real)
    requires Largest(rules, q, now, x)
    ensures Largest(rules + [r], q, now, if Fires(r, q, now) && r.multiplier > x then r.multiplier else x)
  {
    hide Fires;
    var all := rules + [r];
    assert all[|rules|] == r && forall i :: 0 <= i < |rules| ==> all[i] == rules[i];
    if x != 1.0 && !(Fires(r, q, now) && r.multiplier > x) {
      var i :| 0 <= i < |rules| && Fires(rules[i], q, now) && rules[i].multiplier == x;
      assert Fires(all[i], q, now) && all[i].multiplier == x;
    }
  }

  lemma {:induction false} LabelNext(rules: seq<MultiRule>, r: MultiRule, q: seq<Named>, now: real, title: string)
    requires Fires(r, q, now) || LastLabel(rules, q, now, title)
    ensures LastLabel(rules + [r], q, now, if Fires(r, q, now) then r.title else title)
  {
    hide Fires;
    var all := rules + [r];
    assert all[|rules|] == r && forall i :: 0 <= i < |rules| ==> all[i] == rules[i];
    if Fires(r, q, now) {
      assert LastFires(all, q, now, |rules|);
    } else {
      var i :| 0 <= i < |rules| && LastFires(rules, q, now, i) && title == rules[i].title;
      assert LastFires(all, q, now, i) && title == all[i].title;
    }
  }

  /** The scan flags iff some rule fires, returns the largest multiplier and the last firing rule's label. */
  lemma {:induction false} EvaluateIsFinding(rules: seq<MultiRule>, q: seq<Named>, now: real)
    ensures IsFinding(rules, q, now, Evaluate(rules, q, now))
  {
    if rules != [] {
      var before, r := rules[..|rules|-1], rules[|rules|-1];
      EvaluateIsFinding(before, q, now);
      hide Fires, SomeFires, Largest, LastLabel;
      var f := Evaluate(before, q, now);
      assert rules == before + [r];
      SomeNext(before, r, q, now);
      LargestNext(before, r, q, now, f.multiplier);
      if f.matched || Fires(r, q, now) {
        LabelNext(before, r, q, now, f.title);
      }
    }
  }

  /** One operation on the multi-signal side: a threat is recorded, or the node is evaluated. */
  datatype Op = Record(node: string, threatType: string) | Ask(node: string)

  ghost function SignalsAfter(rules: seq<MultiRule>, ops: seq<Stamped<Op>>): Windows
    requires rules != []
  {
    if ops == [] then map[]
    else
      var s := SignalsAfter(rules, ops[..|ops|-1]);
      var op := ops[|ops|-1];
      match op.item
      case Record(node, threatType) => Append(s, node, Stamped(op.at, threatType))
      case Ask(node) => s[node := Evict(Lookup(s, node, []), op.at - MaxWindow(rules))]
  }

  /** Every threat ever recorded for the node. */
  ghost function ThreatHistory(ops: seq<Stamped<Op>>, node: string): seq<Named> {
    if ops == [] then []
    else
      var before := ThreatHistory(ops[..|ops|-1], node);
      var op := ops[|ops|-1];
      if op.item.Record? && op.item.node == node then before + [Stamped(op.at, op.item.threatType)] else before
  }

  lemma {:induction false} SignalsAgree(rules: seq<MultiRule>, ops: seq<Stamped<Op>>, node: string, now: real)
    requires rules != [] && Ordered(ops) && UpTo(ops, now)
    ensures Agrees(Lookup(SignalsAfter(rules, ops), node, []), ThreatHistory(ops, node), MaxWindow(rules), now)
  {
    hide MaxWindow;
    var w := MaxWindow(rules);
    if ops != [] {
      var before, op := ops[..|ops|-1], ops[|ops|-1];
      SignalsAgree(rules, before, node, op.at);
      var q, h := Lookup(SignalsAfter(rules, before), node, []), ThreatHistory(before, node);
      if op.item.node == node {
        match op.item
        case Record(_, threatType) => AgreesAppend(q, h, w, op.at, threatType);
        case Ask(_) => AgreesEvict(q, h, w, op.at);
      }
      hide Agrees;
      AgreesLater(Lookup(SignalsAfter(rules, ops), node, []), ThreatHistory(ops, node), w, op.at, now);
    }
  }

  lemma {:induction false} WindowAtMostMax(rules: seq<MultiRule>, i: nat)
    requires i < |rules|
    ensures rules[i].window <= MaxWindow(rules)
  {
    if |rules| > 1 && i > 0 {
      WindowAtMostMax(rules[1..], i - 1);
    }
  }

  lemma {:induction false} RecentIsSince(q: seq<Named>, from: real)
    ensures Recent(q, from) == ItemsOf(Since(q, from))
  {
    if q != [] {
      var before, e := q[..|q|-1], q[|q|-1];
      RecentIsSince(before, from);
      assert q == before + [e];
      assert forall x :: x in q <==> x in before || x == e;
      ItemsAppend(Since(before, from), e);
    }
  }

  lemma {:induction false} EvaluateAlike(rules: seq<MultiRule>, q: seq<Named>, h: seq<Named>, now: real)
    requires forall i :: 0 <= i < |rules| ==> (Fires(rules[i], q, now) <==> Fires(rules[i], h, now))
    ensures Evaluate(rules, q, now) == Evaluate(rules, h, now)
  {
    hide Fires;
    if rules != [] {
      assert forall i :: 0 <= i < |rules| - 1 ==> rules[..|rules|-1][i] == rules[i];
      EvaluateAlike(rules[..|rules|-1], q, h, now);
    }
  }

  /** Eviction at the largest window never changes an answer: the finding is that of the full history. */
  lemma {:induction false} MultiSignalIsFullHistory(rules: seq<MultiRule>, ops: seq<Stamped<Op>>, node: string,
                                                    now: real)
    requires rules != [] && Ordered(ops) && UpTo(ops, now)
    ensures
      var f := Evaluate(rules, Lookup(SignalsAfter(rules, ops), node, []), now);
      f == Evaluate(rules, ThreatHistory(ops, node), now) && IsFinding(rules, ThreatHistory(ops, node), now, f)
  {
    var q, h, w := Lookup(SignalsAfter(rules, ops), node, []), ThreatHistory(ops, node), MaxWindow(rules);
    SignalsAgree(rules, ops, node, now);
    forall i | 0 <= i < |rules| ensures Fires(rules[i], q, now) <==> Fires(rules[i], h, now) {
      var from := now - rules[i].window;
      WindowAtMostMax(rules, i);
      SinceSince(q, now - w, from);
      SinceSince(h, now - w, from);
      RecentIsSince(q, from);
      RecentIsSince(h, from);
    }
    EvaluateAlike(rules, q, h, now);
    EvaluateIsFinding(rules, h, now);
  }

  // ---- Whose label is reported ----

  ghost predicate DistinctTitles(rules: seq<MultiRule>) {
    forall i, j :: 0 <= i < j < |rules| ==> rules[i].title != rules[j].title
  }

  lemma {:induction false} ShippedTitles()
    ensures DistinctTitles(ShippedRules())
  {
    assert "High Confidence Compromise"[0] != "Critical Multi-Signal Risk"[0];
  }

  /** Some firing rule has both the reported label and the reported multiplier. */
  ghost predicate LabelFits(rules: seq<MultiRule>, q: seq<Named>, now: real, f: Finding) {
    exists i :: 0 <= i < |rules| && Fires(rules[i], q, now) && rules[i].title == f.title &&
                rules[i].multiplier == f.multiplier
  }

  /**
    The label is that of a rule with the reported multiplier exactly if no firing rule has a larger
    multiplier than the last one that fires.
  */
  lemma {:induction false} LabelFitsIff(rules: seq<MultiRule>, q: seq<Named>, now: real, last: nat)
    requires DistinctTitles(rules) && last < |rules| && LastFires(rules, q, now, last) && rules[last].multiplier >= 1.0
    ensures LabelFits(rules, q, now, Evaluate(rules, q, now)) <==>
            forall i :: 0 <= i < |rules| && Fires(rules[i], q, now) ==> rules[i].multiplier <= rules[last].multiplier
  {
    var f := Evaluate(rules, q, now);
    EvaluateIsFinding(rules, q, now);
    hide Fires, Evaluate;
    assert SomeFires(rules, q, now);
    var k :| 0 <= k < |rules| && LastFires(rules, q, now, k) && f.title == rules[k].title;
    assert k == last;
    if LabelFits(rules, q, now, f) {
      var i :| 0 <= i < |rules| && Fires(rules[i], q, now) && rules[i].title == f.title &&
        rules[i].multiplier == f.multiplier;
      assert i == last;
    }
    if forall i :: 0 <= i < |rules| && Fires(rules[i], q, now) ==> rules[i].multiplier <= rules[last].multiplier {
      assert rules[last].multiplier == f.multiplier;
    }
  }

  function FourSignals(): seq<Named> {
    [ Stamped(0.0, "FALCO_ALERT"), Stamped(1.0, "NETWORK_THREAT"),
      Stamped(2.0, "IMAGE_MISMATCH"), Stamped(3.0, "RUNTIME_DRIFT") ]
  }

  /** Of the shipped rules, these signals complete the second and the fourth. */
  lemma {:induction false} FourSignalsFire(k: nat)
    requires k < 7
    ensures Fires(ShippedRules()[k], FourSignals(), 3.0) <==> k == 1 || k == 3
  {
    var q, r := FourSignals(), ShippedRules()[k];
    var seen := Recent(q, 3.0 - r.window);
    assert q[0] in q && q[1] in q && q[2] in q && q[3] in q;
    assert seen == {"FALCO_ALERT", "NETWORK_THREAT", "IMAGE_MISMATCH", "RUNTIME_DRIFT"};
    if k == 0 { assert "REVERSE_SHELL" in r.types && "REVERSE_SHELL"[1] != "RUNTIME_DRIFT"[1]; }
    else if k == 2 { assert "CONTAINER_EXEC" in r.types && "CONTAINER_EXEC"[0] == 'C'; }
    else if k == 4 { assert "ALLOWLIST_TAMPER" in r.types; }
    else if k == 5 { assert "PRIV_ESC_ATTEMPT" in r.types; }
    else if k == 6 { assert "UNEXPECTED_EXEC" in r.types; }
  }

  lemma {:induction false} EvaluateUpTo(rules: seq<MultiRule>, n: nat, q: seq<Named>, now: real)
    requires n < |rules|
    ensures
      var before := Evaluate(rules[..n], q, now);
      Evaluate(rules[..n + 1], q, now) ==
      if Fires(rules[n], q, now) then
        Finding(true, if rules[n].multiplier > before.multiplier then rules[n].multiplier else before.multiplier,
                rules[n].title)
      else before
  {
    assert rules[..n + 1][..n] == rules[..n];
  }

  /**
    On the shipped table the label need not fit: a runtime drift that completes both the critical
    three-signal rule and the deployment rule is reported with the first one's multiplier under
    the second one's name.
  */
  lemma {:induction false} LabelOfAnotherRule()
    ensures Evaluate(ShippedRules(), FourSignals(), 3.0) == Finding(true, 3.0, "Deployment Tamper")
    ensures !LabelFits(ShippedRules(), FourSignals(), 3.0, Evaluate(ShippedRules(), FourSignals(), 3.0))
  {
    var rules, q := ShippedRules(), FourSignals();
    for k := 0 to 7
      invariant Evaluate(rules[..k], q, 3.0) ==
        if k < 2 then Finding(false, 1.0, "")
        else if k < 4 then Finding(true, 3.0, "Critical Multi-Signal Risk")
        else Finding(true, 3.0, "Deployment Tamper")
    {
      FourSignalsFire(k);
      EvaluateUpTo(rules, k, q, 3.0);
      hide Fires, Evaluate, FourSignals;
    }
    assert rules[..7] == rules;
    forall k | 0 <= k < 7 ensures Fires(rules[k], q, 3.0) <==> k == 1 || k == 3 {
      FourSignalsFire(k);
    }
    ShippedTitles();
    hide Fires, Evaluate, FourSignals;
    LabelFitsIff(rules, q, 3.0, 3);
  }

  // ---- A restart in the middle of a multi-signal history ----

  lemma {:induction false} ThreatsConcat(a: seq<Stamped<Op>>, b: seq<Stamped<Op>>, node: string)
    ensures ThreatHistory(a + b, node) == ThreatHistory(a, node) + ThreatHistory(b, node)
  {
    if b == [] {
      assert a + b == a;
    } else {
      ThreatsConcat(a, b[..|b|-1], node);
      assert (a + b)[..|a + b|-1] == a + b[..|b|-1];
    }
  }

  lemma {:induction false} ThreatTimes(ops: seq<Stamped<Op>>, node: string, cutoff: real)
    requires forall i :: 0 <= i < |ops| ==> ops[i].at < cutoff
    ensures forall i :: 0 <= i < |ThreatHistory(ops, node)| ==> ThreatHistory(ops, node)[i].at < cutoff
  {
    if ops != [] {
      ThreatTimes(ops[..|ops|-1], node, cutoff);
    }
  }

  lemma {:induction false} RecentConcat(a: seq<Named>, b: seq<Named>, from: real)
    ensures Recent(a + b, from) == Recent(a, from) + Recent(b, from)
  {
    assert forall e :: e in a + b <==> e in a || e in b;
  }

  /** The threat types of the node recorded by these operations at or after `from`. */
  ghost function SeenSince(ops: seq<Stamped<Op>>, node: string, from: real): set<string> {
    Recent(ThreatHistory(ops, node), from)
  }

  /** The finding for a node after these operations, by a process that started before the first. */
  ghost function FindingAfter(rules: seq<MultiRule>, ops: seq<Stamped<Op>>, node: string, now: real): Finding
    requires rules != []
  {
    Evaluate(rules, Lookup(SignalsAfter(rules, ops), node, []), now)
  }

  /**
    A restart loses the recorded signals.  The process that kept on has a finding iff some rule's types
    were all recorded in that rule's window, before or after the restart; the restarted one iff they
    were all recorded after it.  So a finding is lost exactly if the first holds of some rule
    and the second of none, and none is ever gained.
  */
  lemma {:induction false} RestartLosesIff(rules: seq<MultiRule>, before: seq<Stamped<Op>>, later: seq<Stamped<Op>>,
                                           node: string, now: real)
    requires rules != [] && Ordered(before + later) && UpTo(before + later, now)
    ensures FindingAfter(rules, before + later, node, now).matched <==>
            exists i :: 0 <= i < |rules| && rules[i].types <=
              SeenSince(before, node, now - rules[i].window) + SeenSince(later, node, now - rules[i].window)
    ensures FindingAfter(rules, later, node, now).matched <==>
            exists i :: 0 <= i < |rules| && rules[i].types <= SeenSince(later, node, now - rules[i].window)
    ensures FindingAfter(rules, later, node, now).multiplier <=
            FindingAfter(rules, before + later, node, now).multiplier
  {
    SuffixInTime(before, later, now);
    MultiSignalIsFullHistory(rules, before + later, node, now);
    MultiSignalIsFullHistory(rules, later, node, now);
    ThreatsConcat(before, later, node);
    var joint, alone := ThreatHistory(before + later, node), ThreatHistory(later, node);
    forall i | 0 <= i < |rules|
      ensures
        Fires(rules[i], joint, now) <==>
        rules[i].types <= SeenSince(before, node, now - rules[i].window) + SeenSince(later, node, now - rules[i].window)
      ensures Fires(rules[i], alone, now) <==> rules[i].types <= SeenSince(later, node, now - rules[i].window)
    {
      RecentConcat(ThreatHistory(before, node), alone, now - rules[i].window);
    }
    hide Fires, Evaluate, SignalsAfter, ThreatHistory, SeenSince;
  }

  /** Once everything from before the restart is older than the widest window, the two processes agree. */
  lemma {:induction false} RestartConverges(rules: seq<MultiRule>, before: seq<Stamped<Op>>, later: seq<Stamped<Op>>,
                                            node: string, now: real)
    requires rules != [] && Ordered(before + later) && UpTo(before + later, now)
    requires forall i :: 0 <= i < |before| ==> before[i].at < now - MaxWindow(rules)
    ensures FindingAfter(rules, later, node, now) == FindingAfter(rules, before + later, node, now)
  {
    SuffixInTime(before, later, now);
    MultiSignalIsFullHistory(rules, before + later, node, now);
    MultiSignalIsFullHistory(rules, later, node, now);
    ThreatsConcat(before, later, node);
    ThreatTimes(before, node, now - MaxWindow(rules));
    var past, alone := ThreatHistory(before, node), ThreatHistory(later, node);
    forall i | 0 <= i < |rules| ensures Fires(rules[i], past + alone, now) <==> Fires(rules[i], alone, now) {
      WindowAtMostMax(rules, i);
      RecentConcat(past, alone, now - rules[i].window);
      assert Recent(past, now - rules[i].window) == {};
    }
    hide Fires, Evaluate, SignalsAfter, ThreatHistory, MaxWindow;
    EvaluateAlike(rules, past + alone, alone, now);
  }

  /** A reverse shell before the restart and a network threat after it: a shipped finding is lost. */
  lemma {:induction false} RestartForgetsSignals()
    ensures
      var before := [Stamped(0.0, Record("node1", "REVERSE_SHELL"))];
      var later := [Stamped(1.0, Record("node1", "NETWORK_THREAT"))];
      && FindingAfter(ShippedRules(), before + later, "node1", 1.0).matched
      && !FindingAfter(ShippedRules(), later, "node1", 1.0).matched
  {
    var rules := ShippedRules();
    var before := [Stamped(0.0, Record("node1", "REVERSE_SHELL"))];
    var later := [Stamped(1.0, Record("node1", "NETWORK_THREAT"))];
    var a, b := Stamped(0.0, "REVERSE_SHELL"), Stamped(1.0, "NETWORK_THREAT");
    assert ThreatHistory(before, "node1") == [a] by { assert before[..0] == []; }
    assert ThreatHistory(later, "node1") == [b] by { assert later[..0] == []; }
    forall i | 0 <= i < |rules|
      ensures SeenSince(before, "node1", 1.0 - rules[i].window) == {"REVERSE_SHELL"}
      ensures SeenSince(later, "node1", 1.0 - rules[i].window) == {"NETWORK_THREAT"}
    {
      assert a in [a] && b in [b];
    }
    RestartLosesIff(rules, before, later, "node1", 1.0);
    hide FindingAfter, SeenSince;
    assert rules[0].types <= SeenSince(before, "node1", 1.0 - rules[0].window) +
           SeenSince(later, "node1", 1.0 - rules[0].window);
    forall i | 0 <= i < |rules| ensures !(rules[i].types <= {"NETWORK_THREAT"}) {
      NeedsTwo(i, "NETWORK_THREAT");
    }
  }

  /** No shipped rule is completed by signals of one type. */
  lemma {:induction false} NeedsTwo(k: nat, only: string)
    requires k < 7
    ensures !(ShippedRules()[k].types <= {only})
  {
    var types := ShippedRules()[k].types;
    if k == 0 {
      assert "REVERSE_SHELL" in types && "NETWORK_THREAT" in types && |"REVERSE_SHELL"| != |"NETWORK_THREAT"|;
    } else if k == 1 {
      assert "FALCO_ALERT" in types && "RUNTIME_DRIFT" in types && |"FALCO_ALERT"| != |"RUNTIME_DRIFT"|;
    } else if k == 2 {
      assert "CONTAINER_EXEC" in types && "PRIV_ESC_ATTEMPT" in types && |"CONTAINER_EXEC"| != |"PRIV_ESC_ATTEMPT"|;
    } else if k == 3 {
      assert "IMAGE_MISMATCH" in types && "RUNTIME_DRIFT" in types && |"IMAGE_MISMATCH"| != |"RUNTIME_DRIFT"|;
    } else if k == 4 {
      assert "ALLOWLIST_TAMPER" in types && "ROGUE_NODE" in types && |"ALLOWLIST_TAMPER"| != |"ROGUE_NODE"|;
    } else if k == 5 {
      assert "CONTAINER_ESCAPE_ATTEMPT" in types && "PRIV_ESC_ATTEMPT" in types && "CONTAINER_ESCAPE_ATTEMPT"[0] == 'C';
    } else {
      assert "UNEXPECTED_EXEC" in types && "UNEXPECTED_NETWORK_ATTACH" in types && |"UNEXPECTED_EXEC"| == 15;
    }
  }
}
