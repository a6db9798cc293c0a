/** Substring rules over the joined reasons of an event. */
module Rules {
  import opened Common
  import opened Scoring

  /** A rule whose substring is empty never matches. */
  datatype Rule = Rule(id: string, substring: string, severity: int, blastRadius: int)

  // ---- The shipped table, section by section ----

  function ProtocolRules(): seq<Rule> {
    [ Rule("ROGUE_NODE", "Rogue node", 50, 30),
      Rule("NODE_IMPERSONATION", "machine_id", 60, 40),
      Rule("REPLAY_ATTACK", "Replay attack", 45, 25),
      Rule("FLOOD_ATTACK", "flooding", 30, 15),
      Rule("TELEMETRY_TAMPER", "HMAC", 50, 30),
      Rule("SILENT_NODE", "not reported", 40, 20) ]
  }

  function NetworkRules(): seq<Rule> {
    [ Rule("NETWORK_THREAT", "Network threat", 55, 35),
      Rule("LATERAL_MOVEMENT", "Lateral movement", 55, 35) ]
  }

  function ImageRules(): seq<Rule> {
    [ Rule("IMAGE_MISMATCH", "Image digest mismatch", 65, 40),
      Rule("UNAPPROVED_IMAGE", "no approved image digest", 55, 35),
      Rule("IMAGE_DRIFT", "Image drift", 55, 35) ]
  }

  function DriftRules(): seq<Rule> {
    [ Rule("RUNTIME_DRIFT", "Runtime drift", 40, 20),
      Rule("CONFIG_DRIFT", "Infrastructure config modified", 55, 35),
      Rule("POLICY_TAMPER", "rules.yaml", 65, 45),
      Rule("ALLOWLIST_TAMPER", "master_config.yaml", 70, 50) ]
  }

  function DockerRules(): seq<Rule> {
    [ Rule("CONTAINER_EXEC", "exec", 45, 25),
      Rule("UNEXPECTED_EXEC", "UNEXPECTED_EXEC", 40, 25),
      Rule("SUSPICIOUS_RESTART_PATTERN", "SUSPICIOUS_RESTART_PATTERN", 40, 20),
      Rule("UNEXPECTED_NETWORK_ATTACH", "UNEXPECTED_NETWORK_ATTACH", 40, 25) ]
  }

  function FalcoRules(): seq<Rule> {
    [ Rule("FALCO_ALERT", "Falco alert", 50, 30),
      Rule("REVERSE_SHELL", "REVERSE_SHELL", 80, 60),
      Rule("PRIV_ESC_ATTEMPT", "PRIV_ESC_ATTEMPT", 70, 50),
      Rule("CONTAINER_ESCAPE_ATTEMPT", "CONTAINER_ESCAPE_ATTEMPT", 90, 70) ]
  }

  function Shipped(): seq<Rule> {
    ProtocolRules() + NetworkRules() + ImageRules() + DriftRules() + DockerRules() + FalcoRules()
  }

  function Join(reasons: seq<string>): string {
    if reasons == [] then ""
    else if |reasons| == 1 then reasons[0]
    else Join(reasons[..|reasons|-1]) + " " + reasons[|reasons|-1]
  }

  predicate OccursAt(s: string, sub: string, i: nat) {
    i + |sub| <= |s| && s[i..i + |sub|] == sub
  }

  predicate Contains(s: string, sub: string) {
    exists i | 0 <= i <= |s| :: OccursAt(s, sub, i)
  }

  predicate Matches(r: Rule, text: string) {
    r.substring != "" && Contains(text, r.substring)
  }

  function MatchOf(r: Rule): Match {
    Match(r.id, r.severity, r.blastRadius)
  }

  function MatchAll(rules: seq<Rule>, text: string): seq<Match> {
    if rules == [] then []
    else
      var before := MatchAll(rules[..|rules|-1], text);
      if Matches(rules[|rules|-1], text) then before + [MatchOf(rules[|rules|-1])] else before
  }

  class RuleEngine {
    var rules: seq<Rule>

    constructor ()
      ensures rules == []
    {
      rules := [];
    }

    /** A file that does not load leaves the current rules in place. */
    method Load(file: Option<seq<Rule>>)
      modifies this
      ensures rules == if file.Some? then file.value else old(rules)
    {
      if file.Some? {
        rules := file.value;
      }
    }

    method Match(reasons: seq<string>) returns (matches: seq<Match>)
      ensures matches == MatchAll(rules, Join(reasons))
    {
      var text := Join(reasons);
      matches := [];
      for i := 0 to |rules|
        invariant matches == MatchAll(rules[..i], text)
      {
        assert rules[..i + 1][..i] == rules[..i];
        if Matches(rules[i], text) {
          matches := matches + [MatchOf(rules[i])];
        }
      }
      assert rules[..|rules|] == rules;
    }
  }

  lemma {:induction false} JoinIsPrefix(reasons: seq<string>, extra: seq<string>)
    ensures Join(reasons) <= Join(reasons + extra)
  {
    if extra == [] {
      assert reasons + extra == reasons;
    } else {
      JoinIsPrefix(reasons, extra[..|extra|-1]);
      assert (reasons + extra)[..|reasons + extra|-1] == reasons + extra[..|extra|-1];
      assert reasons != [] ==> |reasons + extra| > 1;
    }
  }

  lemma {:induction false} ContainsInPrefix(s: string, longer: string, sub: string)
    requires s <= longer && Contains(s, sub)
    ensures Contains(longer, sub)
  {
    var i :| 0 <= i <= |s| && OccursAt(s, sub, i);
    assert longer[i..i + |sub|] == s[i..i + |sub|];
    assert OccursAt(longer, sub, i);
  }

  lemma {:induction false} ContainsInSuffix(s: string, front: string, sub: string)
    requires Contains(s, sub)
    ensures Contains(front + s, sub)
  {
    var i :| 0 <= i <= |s| && OccursAt(s, sub, i);
    assert (front + s)[|front| + i..|front| + i + |sub|] == s[i..i + |sub|];
    assert OccursAt(front + s, sub, |front| + i);
  }

  /** A text without a blank does not reach across a blank. */
  lemma {:induction false} ContainsAcross(a: string, b: string, sub: string)
    requires ' ' !in sub && Contains(a + " " + b, sub) && !Contains(a, sub)
    ensures Contains(b, sub)
  {
    var text := a + " " + b;
    var i :| 0 <= i <= |text| && OccursAt(text, sub, i);
    if i > |a| {
      assert text[i..i + |sub|] == b[i - |a| - 1..i - |a| - 1 + |sub|];
      assert OccursAt(b, sub, i - |a| - 1);
    } else if i + |sub| <= |a| {
      assert text[i..i + |sub|] == a[i..i + |sub|];
      assert OccursAt(a, sub, i);
    } else {
      BlankInside(a, b, sub, i);
    }
  }

  lemma {:induction false} BlankInside(a: string, b: string, sub: string, i: nat)
    requires OccursAt(a + " " + b, sub, i) && i <= |a| < i + |sub|
    ensures ' ' in sub
  {
    var text := a + " " + b;
    assert text[i..i + |sub|][|a| - i] == text[|a|] == ' ';
  }

  /**
    What a rule looks at.  A substring without a blank occurs in the joined reasons exactly if it occurs in one of
    them; and two reasons meet at a single blank, so a substring with one can span them.
  */
  lemma {:induction false} JoinedIff(reasons: seq<string>, sub: string)
    requires sub != "" && ' ' !in sub
    ensures Contains(Join(reasons), sub) <==> exists i :: 0 <= i < |reasons| && Contains(reasons[i], sub)
    ensures |reasons| == 2 ==> Join(reasons) == reasons[0] + " " + reasons[1]
  {
    if |reasons| > 1 {
      var before, last := reasons[..|reasons|-1], reasons[|reasons|-1];
      JoinedIff(before, sub);
      assert forall i :: 0 <= i < |before| ==> before[i] == reasons[i];
      assert Join(reasons) == Join(before) + " " + last;
      hide Contains, Join;
      if Contains(Join(before), sub) {
        JoinIsPrefix(before, [last]);
        assert before + [last] == reasons;
        ContainsInPrefix(Join(before), Join(reasons), sub);
        var i :| 0 <= i < |before| && Contains(before[i], sub);
        assert Contains(reasons[i], sub);
      } else if Contains(last, sub) {
        ContainsInSuffix(last, Join(before) + " ", sub);
        assert Contains(reasons[|before|], sub);
      } else if Contains(Join(reasons), sub) {
        ContainsAcross(Join(before), last, sub);
      }
    }
  }

  lemma {:induction false} MoreTextMoreMatches(rules: seq<Rule>, text: string, longer: string)
    requires text <= longer
    ensures forall m <- MatchAll(rules, text) :: m in MatchAll(rules, longer)
  {
    if rules != [] {
      MoreTextMoreMatches(rules[..|rules|-1], text, longer);
      var r := rules[|rules|-1];
      if Matches(r, text) {
        ContainsInPrefix(text, longer, r.substring);
      }
    }
  }

  /** Appending reasons to an event never loses a match. */
  lemma {:induction false} MoreReasonsMoreMatches(rules: seq<Rule>, reasons: seq<string>, extra: seq<string>)
    ensures forall m <- MatchAll(rules, Join(reasons)) :: m in MatchAll(rules, Join(reasons + extra))
  {
    JoinIsPrefix(reasons, extra);
    MoreTextMoreMatches(rules, Join(reasons), Join(reasons + extra));
  }

  /** A match names a rule whose substring occurs in the joined reasons, and every such rule is matched. */
  lemma {:induction false} MatchedIff(rules: seq<Rule>, text: string, m: Match)
    ensures m in MatchAll(rules, text) <==>
            exists i :: 0 <= i < |rules| && Matches(rules[i], text) && MatchOf(rules[i]) == m
  {
    if rules != [] {
      var n := |rules| - 1;
      MatchedIff(rules[..n], text, m);
      hide Matches;
      assert forall i :: 0 <= i < n ==> rules[..n][i] == rules[i];
      if m in MatchAll(rules[..n], text) {
        var i :| 0 <= i < n && Matches(rules[..n][i], text) && MatchOf(rules[..n][i]) == m;
        assert Matches(rules[i], text);
      }
      if i :| 0 <= i < |rules| && Matches(rules[i], text) && MatchOf(rules[i]) == m {
        if i < n { assert Matches(rules[..n][i], text); }
      }
    }
  }

  /** The text is something, then sub, then something. */
  ghost predicate Around(text: string, sub: string) {
    exists front, back :: text == front + sub + back
  }

  lemma {:induction false} ContainsIsAround(text: string, sub: string)
    ensures Contains(text, sub) <==> Around(text, sub)
  {
    if Contains(text, sub) {
      var i :| 0 <= i <= |text| && OccursAt(text, sub, i);
      assert text == text[..i] + sub + text[i + |sub|..];
    }
    if Around(text, sub) {
      var front, back :| text == front + sub + back;
      assert text[|front|..|front| + |sub|] == sub;
      assert OccursAt(text, sub, |front|);
    }
  }

  /**
    What is reported.  A match is that of a rule, with its id, severity and blast radius, whose substring is not
    empty and stands somewhere in the text.
  */
  lemma {:induction false} ReportedIff(rules: seq<Rule>, text: string, id: string, severity: int, blastRadius: int)
    ensures Match(id, severity, blastRadius) in MatchAll(rules, text) <==>
            exists r :: r in rules && r.substring != "" && Around(text, r.substring)
              && r.id == id && r.severity == severity && r.blastRadius == blastRadius
  {
    var m := Match(id, severity, blastRadius);
    MatchedIff(rules, text, m);
    if m in MatchAll(rules, text) {
      var i :| 0 <= i < |rules| && Matches(rules[i], text) && MatchOf(rules[i]) == m;
      ContainsIsAround(text, rules[i].substring);
      assert rules[i] in rules;
    }
    if r :| r in rules && r.substring != "" && Around(text, r.substring)
            && r.id == id && r.severity == severity && r.blastRadius == blastRadius {
      ContainsIsAround(text, r.substring);
      var i :| 0 <= i < |rules| && rules[i] == r;
      assert Matches(rules[i], text) && MatchOf(rules[i]) == m;
    }
  }
}
