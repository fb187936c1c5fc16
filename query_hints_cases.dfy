/**
 * The cases of packages/grafana-prometheus/src/query_hints.test.ts, stated as lemmas about
 * the model. Queries are written as concatenations around the rule name so that each
 * proof only has to look at a few short pieces of text. The rule names and queries are
 * parameters fixed by `requires` for the same reason: the solver then treats them as
 * opaque names and unfolds the literals only where a proof step asks for it.
 */
module QueryHintsCases {
  import opened Wrappers
  import opened QueryHints

  // ---------------------------------------------------------------------------------------
  // isRuleInQuery
  // ---------------------------------------------------------------------------------------

  /** `rate(http_requests_total{job="api"}[5m])` contains the rule. */
  lemma RuleInsideRate(query: string, rule: string)
    requires rule == "http_requests_total"
    requires query == "rate(" + rule + "{job=\"api\"}[5m])"
    ensures IsRuleInQuery(query, rule)
  {
    AbsentCharNoOccurrence("{job=\"api\"}[5m])", rule, 0);
    BareTokenAccepted("rate(", rule, "{job=\"api\"}[5m])");
  }

  /** `rate(cpu_usage{instance="localhost"}[5m])` does not. */
  lemma RuleAbsent(query: string, rule: string)
    requires rule == "http_requests_total"
    requires query == "rate(cpu_usage{instance=\"localhost\"}[5m])"
    ensures !IsRuleInQuery(query, rule)
  {
    AbsentCharNoOccurrence(query, rule, 7);
  }

  /** The rule at the start of the query. */
  lemma RuleAtStart(query: string, rule: string)
    requires rule == "http_requests_total"
    requires query == rule + "{job=\"api\"}"
    ensures IsRuleInQuery(query, rule)
  {
    AbsentCharNoOccurrence("{job=\"api\"}", rule, 0);
    BareTokenAccepted("", rule, "{job=\"api\"}");
    assert query == "" + rule + "{job=\"api\"}";
  }

  /** The rule at the end of the query, and as the whole query. */
  lemma RuleAtEnd(rule: string)
    requires rule == "http_requests_total"
    ensures IsRuleInQuery("sum by (instance) (" + rule + ")", rule)
    ensures IsRuleInQuery("sum(" + rule + ")", rule)
    ensures IsRuleInQuery(rule, rule)
  {
    BareTokenAccepted("sum by (instance) (", rule, ")");
    BareTokenAccepted("sum(", rule, ")");
    BareTokenAccepted("", rule, "");
    assert "" + rule + "" == rule;
  }

  /** The rule followed by spaces. */
  lemma RuleBeforeSpaces(query: string, rule: string)
    requires rule == "http_requests_total"
    requires query == rule + " { job=\"api\" }"
    ensures IsRuleInQuery(query, rule)
  {
    AbsentCharNoOccurrence(" { job=\"api\" }", rule, 0);
    BareTokenAccepted("", rule, " { job=\"api\" }");
    assert query == "" + rule + " { job=\"api\" }";
  }

  /** A prefix of the longer metric `http_requests_total_new` is not the rule. */
  lemma LongerMetricRejected(query: string, rule: string)
    requires rule == "http_requests_total"
    requires query == "rate(" + rule + "_new{job=\"api\"}[5m])"
    ensures !IsRuleInQuery(query, rule)
  {
    SoleOccurrence("rate(", rule, "_new{job=\"api\"}[5m])", 7);
    OccursAtIsSlice(query, rule, 5);
    assert query[5..5 + |rule|] == rule;
    SoleOccurrenceDecides(query, rule, 5);
    assert query[5 + |rule|] == '_';
  }

  /** The rule written as a quoted string is not the rule. */
  lemma QuotedRuleRejected(query: string, rule: string)
    requires rule == "http_requests_total"
    requires query == "rate(\"" + rule + "\"{job=\"api\"}[5m])"
    ensures !IsRuleInQuery(query, rule)
  {
    QuoteFreeOutside("rate(", 5);
    LiteralAfterPiece("rate(", "\"");
    assert "rate(" + "\"" == "rate(\"";
    QuotedOccurrenceRejects("rate(\"", rule, "\"{job=\"api\"}[5m])");
  }

  /** An empty query or an empty rule name never matches. */
  lemma EmptyNeverMatches(rule: string, query: string)
    ensures !IsRuleInQuery("", rule)
    ensures !IsRuleInQuery(query, "")
  {
  }

  /** Rules with colons, as operands of a binary operation with or without spaces. */
  lemma RuleInBinaryOperation(rule: string, left: string)
    requires rule == "my:rule"
    requires left == "rate(http_requests_total{job=" + "\"api\"" + "}[5m])"
    ensures IsRuleInQuery(left + " + " + rule, rule)
    ensures IsRuleInQuery(left + "+" + rule, rule)
  {
    OperandAfterLeft(left, " + ", rule);
    OperandAfterLeft(left, "+", rule);
  }

  lemma OperandAfterLeft(left: string, op: string, rule: string)
    requires rule == "my:rule" && (op == " + " || op == "+")
    requires left == "rate(http_requests_total{job=" + "\"api\"" + "}[5m])"
    ensures IsRuleInQuery(left + op + rule, rule)
  {
    var before := left + op;
    var query := before + rule;
    assert query == before + rule + "";
    SoleOccurrence(before, rule, "", 2);
    OccursAtIsSlice(query, rule, |before|);
    assert query[|before|..|before| + |rule|] == rule;
    QuotesOfLeft(left);
    LiteralAfterPiece(left, op);
    LiteralInPrefix(before, rule, |before|);
    assert query[|before| - 1] == op[|op| - 1];
    SoleOccurrenceDecides(query, rule, |before|);
  }

  lemma QuotesOfLeft(left: string)
    requires left == "rate(http_requests_total{job=" + "\"api\"" + "}[5m])"
    ensures !InStringLiteral(left, |left|)
  {
    var a := "rate(http_requests_total{job=";
    QuoteFreeOutside(a, |a|);
    LiteralAfterPiece(a, "\"");
    LiteralAfterPiece(a + "\"", "api");
    LiteralAfterPiece(a + "\"" + "api", "\"");
    LiteralAfterPiece(a + "\"" + "api" + "\"", "}[5m])");
    assert left == a + "\"" + "api" + "\"" + "}[5m])";
  }

  /** The rule inside nested function calls. */
  lemma RuleInNestedCalls(rule: string)
    requires rule == "http_requests_total"
    ensures IsRuleInQuery("sum(rate(" + rule + "[5m]))", rule)
  {
    BareTokenAccepted("sum(rate(", rule, "[5m]))");
  }

  /** The rule as a label value, after a metric it prefixes, is not the rule. */
  lemma RuleAsLabelValueRejected(query: string, rule: string)
    requires rule == "http_requests_total"
    requires query == rule + "_bytes{rule=\"" + rule + "\"}"
    ensures !IsRuleInQuery(query, rule)
  {
    var before := rule + "_bytes{rule=";
    QuoteFreeOutside(before, |before|);
    LiteralAfterPiece(before, "\"");
    QuotedOccurrenceRejects(before + "\"", rule, "\"}");
    assert query == before + "\"" + rule + "\"}";
  }

  /** A rule name containing a colon matches as a whole token. */
  lemma ColonRuleName(rule: string)
    requires rule == "my_namespace:http_requests_total"
    ensures IsRuleInQuery("rate(" + rule + "[5m])", rule)
  {
    BareTokenAccepted("rate(", rule, "[5m])");
  }

  /** A bare occurrence does not help when the rule also appears inside a string argument. */
  lemma RuleInStringArgumentRejected(query: string, rule: string)
    requires rule == "http_requests_total"
    requires query == "label_replace(" + rule + ", " + "\"label\"" + ", " + "\"value\"" + ", "
                      + "\"instance\"" + ", " + "\"" + rule + "\")"
    ensures !IsRuleInQuery(query, rule)
  {
    var a := "label_replace(" + rule + ", ";
    QuoteFreeOutside(a, |a|);
    var b := a + "\"label\"" + ", " + "\"value\"" + ", " + "\"instance\"" + ", ";
    ClosedStrings(a, "label", "value", "instance");
    LiteralAfterPiece(b, "\"");
    QuotedOccurrenceRejects(b + "\"", rule, "\")");
  }

  lemma ClosedStrings(a: string, x: string, y: string, z: string)
    requires !InStringLiteral(a, |a|)
    requires x == "label" && y == "value" && z == "instance"
    ensures var b := a + "\"label\"" + ", " + "\"value\"" + ", " + "\"instance\"" + ", ";
      !InStringLiteral(b, |b|)
  {
    var a1 := a + "\"label\"";
    assert a1 == a + "\"" + x + "\"";
    ClosedString(a, x);
    var a2 := a1 + ", ";
    ClosedString(a1, ", ");
    var a3 := a2 + "\"value\"";
    assert a3 == a2 + "\"" + y + "\"";
    ClosedString(a2, y);
    var a4 := a3 + ", ";
    ClosedString(a3, ", ");
    var a5 := a4 + "\"instance\"";
    assert a5 == a4 + "\"" + z + "\"";
    ClosedString(a4, z);
    ClosedString(a5, ", ");
  }

  /** Appending a closed string `"x"` (or, for `x` itself quote-free, plain `x`) keeps the parity. */
  lemma ClosedString(a: string, x: string)
    requires '"' !in x
    ensures InStringLiteral(a + "\"" + x + "\"", |a + "\"" + x + "\""|) == InStringLiteral(a, |a|)
    ensures InStringLiteral(a + x, |a + x|) == InStringLiteral(a, |a|)
  {
    LiteralAfterPiece(a, "\"");
    LiteralAfterPiece(a + "\"", x);
    LiteralAfterPiece(a + "\"" + x, "\"");
    LiteralAfterPiece(a, x);
  }
}

module QueryHintsResolverCases {
  import opened Wrappers
  import opened QueryHints

  // ---------------------------------------------------------------------------------------
  // getQueryLabelsForRuleName
  // ---------------------------------------------------------------------------------------

  function Uuid(value: string): LabelFilter {
    LabelFilter("uuid", "=", value)
  }

  /** `metric_5m{uuid="111"}`: the selector's own filters. */
  lemma LabelsOfOnlySelector()
    ensures GetQueryLabelsForRuleName("metric_5m", [Selector("metric_5m", [Uuid("111")])]) == [Uuid("111")]
  {
  }

  /**
   * `metric_55m{uuid="222"} + metric_33m{uuid="333"} + metric_5m{uuid="111"}`, with or
   * without parentheses around the first two terms: the parser flattens both to the same
   * selectors, and `metric_55m` is not `metric_5m`.
   */
  lemma LabelsAfterBinaryOperations()
    ensures GetQueryLabelsForRuleName("metric_5m",
      [Selector("metric_55m", [Uuid("222")]), Selector("metric_33m", [Uuid("333")]),
       Selector("metric_5m", [Uuid("111")])]) == [Uuid("111")]
  {
  }

  /** `... + metric_5m{uuid="999"} + metric_5m{uuid="555"}`: the first selector wins. */
  lemma LabelsOfFirstMatch()
    ensures GetQueryLabelsForRuleName("metric_5m",
      [Selector("metric_55m", [Uuid("222")]), Selector("metric_33m", [Uuid("333")]),
       Selector("metric_5m", [Uuid("999")]), Selector("metric_5m", [Uuid("555")])]) == [Uuid("999")]
  {
  }

  // ---------------------------------------------------------------------------------------
  // getRecordingRuleIdentifierIdx
  // ---------------------------------------------------------------------------------------

  function Candidates(): seq<Candidate> {
    [Candidate("expanded_metric_query_111[5m]", [("uuid", "111")]),
     Candidate("expanded_metric_query_222[5m]", [("uuid", "222")])]
  }

  /** `metric_5m{uuid="111"}` picks the first candidate, identified by `uuid="111"`. */
  lemma IdentifierMatches()
    ensures GetRecordingRuleIdentifierIdx([Selector("metric_5m", [Uuid("111")])], "metric_5m", Candidates())
      == Resolved(0, "expanded_metric_query_111[5m]", Some(("uuid", "111")))
  {
  }

  /** `metric_5m{uuid="999"}` matches no candidate. */
  lemma NoIdentifierMatches()
    ensures Idx(GetRecordingRuleIdentifierIdx([Selector("metric_5m", [Uuid("999")])], "metric_5m", Candidates())) == -1
  {
  }

  /** `metric_5m{uuid="111"} + metric_55m{uuid="222"}` for `metric_55m`: the second candidate. */
  lemma IdentifierOfSecondSelector()
    ensures GetRecordingRuleIdentifierIdx(
      [Selector("metric_5m", [Uuid("111")]), Selector("metric_55m", [Uuid("222")])], "metric_55m", Candidates())
      == Resolved(1, "expanded_metric_query_222[5m]", Some(("uuid", "222")))
  {
  }

  /** `metric_7n{} + (metric_5m{uuid="333"} + metric_55m{uuid="222"})`: the third candidate. */
  lemma IdentifierAmongBinaryOperators()
    ensures GetRecordingRuleIdentifierIdx(
      [Selector("metric_7n", []), Selector("metric_5m", [Uuid("333")]), Selector("metric_55m", [Uuid("222")])],
      "metric_5m",
      [Candidate("expanded_metric_query_111[5m]", [("uuid", "111")]),
       Candidate("expanded_metric_query_222[5m]", [("uuid", "222")]),
       Candidate("expanded_metric_query_333[5m]", [("uuid", "333")])])
      == Resolved(2, "expanded_metric_query_333[5m]", Some(("uuid", "333")))
  {
  }
}

module ExpandRulesHintsCases {
  import opened Wrappers
  import opened QueryHints

  function Uuid(value: string): LabelFilter {
    LabelFilter("uuid", "=", value)
  }

  /** An empty mapping gives no hint. */
  lemma EmptyMappingNoHint(query: string, selectors: seq<Selector>)
    ensures GetExpandRulesHints(query, selectors, []) == []
  {
  }

  /** `metric_5m` with two single label-less rules: one hint, expanding `metric_5m` only. */
  lemma SingleRulesHint(query: string, first: RuleEntry, second: RuleEntry)
    requires query == "metric_5m"
    requires first == RuleEntry("metric_5m", [Candidate("expanded_metric_query[5m]", [])])
    requires second == RuleEntry("metric_15m", [Candidate("expanded_metric_query[15m]", [])])
    ensures CandidatesPresent(query, [first, second])
    ensures GetExpandRulesHints(query, [Selector("metric_5m", [])], [first, second])
      == [ExpandRulesHint(query, [("metric_5m", ExpandOption("expanded_metric_query[5m]", None))])]
  {
    BareTokenAccepted("", first.name, "");
    assert "" + first.name + "" == query;
    var selectors := [Selector("metric_5m", [])];
    assert RuleOutcome(query, selectors, first) == Expands(ExpandOption("expanded_metric_query[5m]", None));
    assert RuleOutcome(query, selectors, second) == NotInQuery;
    HintsOfTwoRules(query, selectors, first, second);
    assert OptionOf(first.name, RuleOutcome(query, selectors, first)) + OptionOf(second.name, RuleOutcome(query, selectors, second))
      == [("metric_5m", ExpandOption("expanded_metric_query[5m]", None))];
  }

  /** Only the first of two rules expands. */
  lemma OnlyFirstExpands(query: string, selectors: seq<Selector>, first: RuleEntry, second: RuleEntry, option: ExpandOption)
    requires CandidatesPresent(query, [first, second])
    requires RuleOutcome(query, selectors, first) == Expands(option)
    requires RuleOutcome(query, selectors, second) == NotInQuery
    ensures GetExpandRulesHints(query, selectors, [first, second]) == [ExpandRulesHint(query, [(first.name, option)])]
  {
    HintsOfTwoRules(query, selectors, first, second);
    assert OptionOf(first.name, Expands(option)) + OptionOf(second.name, NotInQuery) == [(first.name, option)];
  }

  /** Only the second of two rules expands. */
  lemma OnlySecondExpands(query: string, selectors: seq<Selector>, first: RuleEntry, second: RuleEntry, option: ExpandOption)
    requires CandidatesPresent(query, [first, second])
    requires RuleOutcome(query, selectors, first) == NotInQuery
    requires RuleOutcome(query, selectors, second) == Expands(option)
    ensures GetExpandRulesHints(query, selectors, [first, second]) == [ExpandRulesHint(query, [(second.name, option)])]
  {
    HintsOfTwoRules(query, selectors, first, second);
    assert OptionOf(first.name, NotInQuery) + OptionOf(second.name, Expands(option)) == [(second.name, option)];
  }

  /** The first of two rules is ambiguous and the second is absent. */
  lemma OnlyFirstAmbiguous(query: string, selectors: seq<Selector>, first: RuleEntry, second: RuleEntry)
    requires CandidatesPresent(query, [first, second])
    requires RuleOutcome(query, selectors, first) == Ambiguous
    requires RuleOutcome(query, selectors, second) == NotInQuery
    ensures GetExpandRulesHints(query, selectors, [first, second]) == [Hint(ExpandRulesWarning, ExpandRulesWarningLabel, None)]
  {
    HintsOfTwoRules(query, selectors, first, second);
    assert OptionOf(first.name, Ambiguous) + OptionOf(second.name, NotInQuery) == [];
  }

  /** The two labelled candidates of `metric_5m`. */
  function LabelledCandidates(): seq<Candidate> {
    [Candidate("expanded_metric_query_111[5m]", [("uuid", "111")]),
     Candidate("expanded_metric_query_222[5m]", [("uuid", "222")])]
  }

  /** `sum(metric_5m{uuid="5m"} + metric_10m{uuid="10m"}) + metric_66m{uuid="66m"}`: a warning. */
  lemma UnmatchedLabelWarns(query: string, rest: string, first: RuleEntry, second: RuleEntry)
    requires rest == "metric_10m{uuid=\"10m\"}) + " + "metric_66m{uuid=\"66m\"}"
    requires query == "sum(metric_5m{uuid=\"5m\"} + " + rest
    requires first == RuleEntry("metric_5m", LabelledCandidates())
    requires second == RuleEntry("metric_15m", [Candidate("expanded_metric_query[15m]", [])])
    ensures CandidatesPresent(query, [first, second])
    ensures GetExpandRulesHints(query,
      [Selector("metric_5m", [Uuid("5m")]), Selector("metric_10m", [Uuid("10m")]), Selector("metric_66m", [Uuid("66m")])],
      [first, second])
      == [Hint(ExpandRulesWarning, ExpandRulesWarningLabel, None)]
  {
    UnmatchedLabelRules(query, rest, first.name, second.name);
    UnmatchedLabelHints(query, first, second);
  }

  lemma UnmatchedLabelRules(query: string, rest: string, rule: string, other: string)
    requires rest == "metric_10m{uuid=\"10m\"}) + " + "metric_66m{uuid=\"66m\"}"
    requires query == "sum(metric_5m{uuid=\"5m\"} + " + rest
    requires rule == "metric_5m" && other == "metric_15m"
    ensures IsRuleInQuery(query, rule) && !IsRuleInQuery(query, other)
  {
    UnmatchedRulePresent(query, rest, rule);
    SplitCharsNoOccurrence("sum(metric_5m{uuid=\"5m\"} + ", rest, other, 7);
  }

  lemma UnmatchedRulePresent(query: string, rest: string, rule: string)
    requires rest == "metric_10m{uuid=\"10m\"}) + " + "metric_66m{uuid=\"66m\"}"
    requires query == "sum(metric_5m{uuid=\"5m\"} + " + rest
    requires rule == "metric_5m"
    ensures IsRuleInQuery(query, rule)
  {
    var tail := "m\"} + " + rest;
    assert '5' !in "metric_10m{uuid=\"10m\"}) + " && '5' !in "metric_66m{uuid=\"66m\"}" && '5' !in "m\"} + ";
    QueryAroundRule(query, rest, rule, tail);
    RuleBeforeFive(rule, tail);
  }

  lemma QueryAroundRule(query: string, rest: string, rule: string, tail: string)
    requires query == "sum(metric_5m{uuid=\"5m\"} + " + rest
    requires rule == "metric_5m" && tail == "m\"} + " + rest
    ensures query == "sum(" + rule + ("{uuid=\"" + ['5'] + tail)
  {
  }

  lemma RuleBeforeFive(rule: string, tail: string)
    requires rule == "metric_5m" && '5' !in tail
    ensures IsRuleInQuery("sum(" + rule + ("{uuid=\"" + ['5'] + tail), rule)
  {
    var after := "{uuid=\"" + ['5'] + tail;
    CharPinsOccurrence("{uuid=\"", '5', tail, rule, 7);
    BareTokenAccepted("sum(", rule, after);
  }

  lemma UnmatchedLabelHints(query: string, first: RuleEntry, second: RuleEntry)
    requires first == RuleEntry("metric_5m", LabelledCandidates())
    requires second == RuleEntry("metric_15m", [Candidate("expanded_metric_query[15m]", [])])
    requires IsRuleInQuery(query, first.name) && !IsRuleInQuery(query, second.name)
    ensures CandidatesPresent(query, [first, second])
    ensures GetExpandRulesHints(query,
      [Selector("metric_5m", [Uuid("5m")]), Selector("metric_10m", [Uuid("10m")]), Selector("metric_66m", [Uuid("66m")])],
      [first, second])
      == [Hint(ExpandRulesWarning, ExpandRulesWarningLabel, None)]
  {
    var selectors := [Selector("metric_5m", [Uuid("5m")]), Selector("metric_10m", [Uuid("10m")]), Selector("metric_66m", [Uuid("66m")])];
    assert GetRecordingRuleIdentifierIdx(selectors, first.name, first.candidates) == Unresolved;
    OnlyFirstAmbiguous(query, selectors, first, second);
  }

  /** `metric_5m{uuid="111"}`: the label picks the first candidate and names it. */
  lemma MatchedLabelExpands(query: string, first: RuleEntry, second: RuleEntry)
    requires query == "metric_5m{uuid=\"" + "111\"}"
    requires first == RuleEntry("metric_5m", LabelledCandidates())
    requires second == RuleEntry("metric_15m", [Candidate("expanded_metric_query[15m]", [])])
    ensures CandidatesPresent(query, [first, second])
    ensures GetExpandRulesHints(query, [Selector("metric_5m", [Uuid("111")])], [first, second])
      == [ExpandRulesHint(query, [("metric_5m", ExpandOption("expanded_metric_query_111[5m]", Some(("uuid", "111"))))])]
  {
    MatchedLabelRules(query, first.name, second.name);
    var selectors := [Selector("metric_5m", [Uuid("111")])];
    var option := ExpandOption("expanded_metric_query_111[5m]", Some(("uuid", "111")));
    MatchedLabelResolves(selectors, first);
    OnlyFirstExpands(query, selectors, first, second, option);
  }

  lemma MatchedLabelRules(query: string, rule: string, other: string)
    requires query == "metric_5m{uuid=\"" + "111\"}"
    requires rule == "metric_5m" && other == "metric_15m"
    ensures IsRuleInQuery(query, rule) && !IsRuleInQuery(query, other)
  {
    var after := "{uuid=\"111\"}";
    assert query == "" + rule + after;
    AbsentCharNoOccurrence(after, rule, 0);
    BareTokenAccepted("", rule, after);
    SplitCharsNoOccurrence("metric_5m{uuid=\"", "111\"}", other, 7);
  }

  lemma MatchedLabelResolves(selectors: seq<Selector>, first: RuleEntry)
    requires selectors == [Selector("metric_5m", [Uuid("111")])]
    requires first == RuleEntry("metric_5m", LabelledCandidates())
    ensures GetRecordingRuleIdentifierIdx(selectors, first.name, first.candidates)
      == Resolved(0, "expanded_metric_query_111[5m]", Some(("uuid", "111")))
  {
  }

  /** The two candidates of `duration:p95`. */
  function DurationCandidates(): seq<Candidate> {
    [Candidate("expanded_duration_p95{}", []),
     Candidate("expanded_duration_p95_aggregated{}", [("span_name", "__aggregated__")])]
  }

  /** The hints of the two tests below, once it is known which rule the query mentions. */
  lemma DurationHints(query: string, rule: string, first: RuleEntry, second: RuleEntry)
    requires first == RuleEntry("duration:p95", DurationCandidates())
    requires second == RuleEntry(rule, [Candidate("expanded_duration_p95_upper_threshold{}", [])])
    requires !IsRuleInQuery(query, first.name) && IsRuleInQuery(query, rule)
    ensures CandidatesPresent(query, [first, second])
    ensures GetExpandRulesHints(query, [Selector(rule, [LabelFilter("label", "=", "foo")])], [first, second])
      == [ExpandRulesHint(query, [(rule, ExpandOption("expanded_duration_p95_upper_threshold{}", None))])]
  {
    OnlySecondExpands(query, [Selector(rule, [LabelFilter("label", "=", "foo")])], first, second,
      ExpandOption("expanded_duration_p95_upper_threshold{}", None));
  }

  /** `duration:p95` inside `duration:p95:upper_threshold` is not a rule of the query. */
  lemma LongerRuleNameFirst(query: string, rule: string, first: RuleEntry, second: RuleEntry)
    requires rule == "duration:p95:upper_threshold"
    requires query == "sum(rate(" + rule + "{label=\"foo\"}[5m])) by(bar)"
    requires first == RuleEntry("duration:p95", DurationCandidates())
    requires second == RuleEntry(rule, [Candidate("expanded_duration_p95_upper_threshold{}", [])])
    ensures CandidatesPresent(query, [first, second])
    ensures GetExpandRulesHints(query, [Selector(rule, [LabelFilter("label", "=", "foo")])], [first, second])
      == [ExpandRulesHint(query, [(rule, ExpandOption("expanded_duration_p95_upper_threshold{}", None))])]
  {
    BareTokenAccepted("sum(rate(", rule, "{label=\"foo\"}[5m])) by(bar)");
    ShortNameBeforeColon(query, rule, first.name);
    DurationHints(query, rule, first, second);
  }

  lemma ShortNameBeforeColon(query: string, rule: string, short: string)
    requires rule == "duration:p95:upper_threshold" && short == "duration:p95"
    requires query == "sum(rate(" + rule + "{label=\"foo\"}[5m])) by(bar)"
    ensures !IsRuleInQuery(query, short)
  {
    var after := ":upper_threshold" + "{label=\"foo\"}[5m])) by(bar)";
    assert rule == short + ":upper_threshold";
    assert query == "sum(rate(" + short + after;
    SoleOccurrence("sum(rate(", short, after, 10);
    OccursAtIsSlice(query, short, 9);
    assert query[9..9 + |short|] == short;
    SoleOccurrenceDecides(query, short, 9);
    assert query[9 + |short|] == ':';
  }

  /** `duration:p95` at the end of `upper_threshold:duration:p95` is not a rule of the query. */
  lemma LongerRuleNameLast(query: string, rule: string, first: RuleEntry, second: RuleEntry)
    requires rule == "upper_threshold:duration:p95"
    requires query == "sum(rate(" + rule + "{label=\"foo\"}[5m])) by(bar)"
    requires first == RuleEntry("duration:p95", DurationCandidates())
    requires second == RuleEntry(rule, [Candidate("expanded_duration_p95_upper_threshold{}", [])])
    ensures CandidatesPresent(query, [first, second])
    ensures GetExpandRulesHints(query, [Selector(rule, [LabelFilter("label", "=", "foo")])], [first, second])
      == [ExpandRulesHint(query, [(rule, ExpandOption("expanded_duration_p95_upper_threshold{}", None))])]
  {
    var tail := "{label=\"foo\"}[5m])) by(bar)";
    BareTokenAccepted("sum(rate(", rule, tail);
    ShortNameAfterColon(query, rule, first.name);
    DurationHints(query, rule, first, second);
  }

  lemma ShortNameAfterColon(query: string, rule: string, short: string)
    requires rule == "upper_threshold:duration:p95" && short == "duration:p95"
    requires query == "sum(rate(" + rule + "{label=\"foo\"}[5m])) by(bar)"
    ensures !IsRuleInQuery(query, short)
  {
    var before := "sum(rate(" + "upper_threshold:";
    var tail := "{label=\"foo\"}[5m])) by(bar)";
    assert rule == "upper_threshold:" + short;
    assert query == before + short + tail;
    SoleOccurrence(before, short, tail, 10);
    OccursAtIsSlice(query, short, |before|);
    assert query[|before|..|before| + |short|] == short;
    SoleOccurrenceDecides(query, short, |before|);
    assert query[|before| - 1] == ':';
  }
}
