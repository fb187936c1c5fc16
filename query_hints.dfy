/**
 * The recording-rule helpers of the Prometheus query-hint advisor, as pinned down by
 * packages/grafana-prometheus/src/query_hints.test.ts: the whole-token matcher
 * `isRuleInQuery`, the selector lookup `getQueryLabelsForRuleName`, the candidate resolver
 * `getRecordingRuleIdentifierIdx` and the hint builder `getExpandRulesHints`.
 *
 * The PromQL parser is an outside collaborator: the resolver and the hint builder take the
 * query's metric selectors already flattened, left to right.
 */
module QueryHints {
  import opened Wrappers

  // ---------------------------------------------------------------------------------------
  // isRuleInQuery
  // ---------------------------------------------------------------------------------------

  /** Characters that extend a metric or rule name: letters, digits, `_` and `:`. */
  predicate IsIdentChar(c: char) {
    'a' <= c <= 'z' || 'A' <= c <= 'Z' || '0' <= c <= '9' || c == '_' || c == ':'
  }

  /** The characters of `name` from index `k` on sit in `query` from `i + k` on. */
  predicate CharsMatch(query: string, name: string, i: nat, k: nat)
    requires i + |name| <= |query| && k <= |name|
    decreases |name| - k
  {
    k == |name| || (query[i + k] == name[k] && CharsMatch(query, name, i, k + 1))
  }

  /** `name` occurs in `query` starting at index `i`. */
  predicate OccursAt(query: string, name: string, i: nat) {
    i + |name| <= |query| && CharsMatch(query, name, i, 0)
  }

  /** The character-by-character test is the slice comparison. */
  lemma OccursAtIsSlice(query: string, name: string, i: nat)
    ensures OccursAt(query, name, i) <==> i + |name| <= |query| && query[i..i + |name|] == name
  {
    if i + |name| <= |query| {
      CharsMatchFrom(query, name, i, 0);
    }
  }

  lemma {:induction false} CharsMatchFrom(query: string, name: string, i: nat, k: nat)
    requires i + |name| <= |query| && k <= |name|
    ensures CharsMatch(query, name, i, k) <==> forall m :: k <= m < |name| ==> query[i + m] == name[m]
    decreases |name| - k
  {
    if k < |name| {
      CharsMatchFrom(query, name, i, k + 1);
    }
  }

  /** An occurrence at `i` that is a whole token: no identifier character right before or after it. */
  predicate IsTokenAt(query: string, name: string, i: nat) {
    OccursAt(query, name, i)
    && (i == 0 || !IsIdentChar(query[i - 1]))
    && (i + |name| == |query| || !IsIdentChar(query[i + |name|]))
  }

  /** Position `i` lies inside a double-quoted string: an odd number of `"` comes before it. */
  predicate InStringLiteral(query: string, i: nat)
    requires i <= |query|
    decreases i
  {
    if i == 0 then false else InStringLiteral(query, i - 1) != (query[i - 1] == '"')
  }

  /**
   * The rule the tests pin down: both strings non-empty, `ruleName` occurs as a whole token,
   * and it does not occur inside a string literal anywhere in the query.
   */
  ghost predicate RuleOccursInQuery(query: string, ruleName: string) {
    |query| > 0 && |ruleName| > 0
    && (exists i: nat :: i <= |query| && IsTokenAt(query, ruleName, i))
    && !(exists i: nat :: i <= |query| && OccursAt(query, ruleName, i) && InStringLiteral(query, i))
  }

  /**
   * One left-to-right pass from index `i`: `inLiteral` is whether `i` lies inside a string,
   * `found` whether a whole-token occurrence was seen before `i`. An occurrence inside a
   * string ends the pass with `false`.
   */
  function ScanFrom(query: string, ruleName: string, i: nat, inLiteral: bool, found: bool): bool
    requires i <= |query|
    decreases |query| - i
  {
    if i == |query| then found
    else if OccursAt(query, ruleName, i) && inLiteral then false
    else ScanFrom(query, ruleName, i + 1, inLiteral != (query[i] == '"'), found || IsTokenAt(query, ruleName, i))
  }

  /** `isRuleInQuery(query, ruleName)`: one pass that decides exactly the rule the tests pin down. */
  function IsRuleInQuery(query: string, ruleName: string): (r: bool)
    ensures r <==> RuleOccursInQuery(query, ruleName)
  {
    if |query| == 0 || |ruleName| == 0 then false
    else
      ScanCorrect(query, ruleName, 0, false, false);
      ScanFrom(query, ruleName, 0, false, false)
  }

  /** What the pass from `i` decides, in terms of the occurrences at or after `i`. */
  lemma {:induction false} ScanCorrect(query: string, ruleName: string, i: nat, inLiteral: bool, found: bool)
    requires |ruleName| > 0 && i <= |query| && inLiteral == InStringLiteral(query, i)
    ensures ScanFrom(query, ruleName, i, inLiteral, found) <==>
      (found || exists j: nat :: i <= j <= |query| && IsTokenAt(query, ruleName, j))
      && !(exists j: nat :: i <= j <= |query| && OccursAt(query, ruleName, j) && InStringLiteral(query, j))
    decreases |query| - i
  {
    if i < |query| {
      if !(OccursAt(query, ruleName, i) && inLiteral) {
        ScanCorrect(query, ruleName, i + 1, inLiteral != (query[i] == '"'), found || IsTokenAt(query, ruleName, i));
      }
    } else {
      assert forall j: nat :: i <= j <= |query| ==> !OccursAt(query, ruleName, j);
    }
  }

  // Properties of the matcher that decide a query from a few local facts.

  /** Parity of quotes composes: the quotes of `a` and of the first `k` characters of `b`. */
  lemma {:induction false} LiteralAfter(a: string, b: string, k: nat)
    requires k <= |b|
    ensures InStringLiteral(a + b, |a| + k) == (InStringLiteral(a, |a|) != InStringLiteral(b, k))
    decreases k
  {
    if k == 0 {
      LiteralInPrefix(a, b, |a|);
    } else {
      LiteralAfter(a, b, k - 1);
      assert (a + b)[|a| + k - 1] == b[k - 1];
    }
  }

  /** Whether a position is inside a string depends only on what comes before it. */
  lemma {:induction false} LiteralInPrefix(a: string, b: string, i: nat)
    requires i <= |a|
    ensures InStringLiteral(a + b, i) == InStringLiteral(a, i)
    decreases i
  {
    if i > 0 {
      LiteralInPrefix(a, b, i - 1);
      assert (a + b)[i - 1] == a[i - 1];
    }
  }

  /** A text without double quotes has no position inside a string. */
  lemma {:induction false} QuoteFreeOutside(s: string, k: nat)
    requires '"' !in s && k <= |s|
    ensures !InStringLiteral(s, k)
    decreases k
  {
    if k > 0 {
      assert s[k - 1] in s;
      QuoteFreeOutside(s, k - 1);
    }
  }

  /** Text without quotes leaves the parity as it was; one quote flips it. */
  lemma LiteralAfterPiece(a: string, b: string)
    requires '"' !in b || b == "\""
    ensures InStringLiteral(a + b, |a| + |b|) == (InStringLiteral(a, |a|) != (b == "\""))
  {
    LiteralAfter(a, b, |b|);
    if '"' !in b {
      QuoteFreeOutside(b, |b|);
    }
  }

  /** Where the name occurs, each of its characters sits at its offset. */
  lemma OccurrenceHasChar(query: string, name: string, j: nat, d: nat)
    requires OccursAt(query, name, j) && d < |name|
    ensures j + d < |query| && query[j + d] == name[d]
  {
    OccursAtIsSlice(query, name, j);
    assert query[j..j + |name|][d] == name[d];
  }

  /** An occurrence past a prefix is an occurrence in the rest. */
  lemma OccurrenceInSuffix(a: string, b: string, name: string, k: nat)
    requires OccursAt(a + b, name, |a| + k)
    ensures OccursAt(b, name, k)
  {
    OccursAtIsSlice(a + b, name, |a| + k);
    OccursAtIsSlice(b, name, k);
    assert (a + b)[|a| + k..|a| + k + |name|] == b[k..k + |name|];
  }

  /** A name character missing from the text rules out every occurrence. */
  lemma AbsentCharNoOccurrence(s: string, name: string, d: nat)
    requires d < |name| && name[d] !in s
    ensures forall k: nat :: !OccursAt(s, name, k)
  {
    forall k: nat | OccursAt(s, name, k) ensures false {
      OccurrenceHasChar(s, name, k, d);
    }
  }

  /** One copy of a name character in the text fixes where any occurrence must start. */
  lemma CharPinsOccurrence(x: string, c: char, y: string, name: string, d: nat)
    requires d < |name| && name[d] == c && c !in x && c !in y
    ensures forall k: nat :: OccursAt(x + [c] + y, name, k) ==> k + d == |x|
  {
    var s := x + [c] + y;
    forall k: nat | OccursAt(s, name, k) ensures k + d == |x| {
      OccurrenceHasChar(s, name, k, d);
    }
  }

  /** Two consecutive name characters kept on opposite sides of a cut rule out every occurrence. */
  lemma SplitCharsNoOccurrence(x: string, y: string, name: string, d: nat)
    requires d + 1 < |name| && name[d] !in x && name[d + 1] !in y
    ensures forall k: nat :: !OccursAt(x + y, name, k)
  {
    forall k: nat | OccursAt(x + y, name, k) ensures false {
      OccurrenceHasChar(x + y, name, k, d);
      OccurrenceHasChar(x + y, name, k, d + 1);
    }
  }

  /** A character the name holds once and the surrounding text lacks pins the name to one place. */
  lemma SoleOccurrence(before: string, name: string, after: string, d: nat)
    requires d < |name| && name[d] !in before && name[d] !in after
    requires name[d] !in name[..d] && name[d] !in name[d + 1..]
    ensures forall j: nat :: OccursAt(before + name + after, name, j) ==> j == |before|
  {
    assert name == name[..d] + [name[d]] + name[d + 1..];
    assert before + name + after == (before + name[..d]) + [name[d]] + (name[d + 1..] + after);
    CharPinsOccurrence(before + name[..d], name[d], name[d + 1..] + after, name, d);
  }

  /** When the name occurs at `i` only, it is in the query iff that is a whole token outside strings. */
  lemma SoleOccurrenceDecides(query: string, ruleName: string, i: nat)
    requires |ruleName| > 0 && OccursAt(query, ruleName, i)
    requires forall j: nat :: OccursAt(query, ruleName, j) ==> j == i
    ensures IsRuleInQuery(query, ruleName) <==> IsTokenAt(query, ruleName, i) && !InStringLiteral(query, i)
  {
  }

  /** An occurrence inside a string literal rejects the query, whatever the rest holds. */
  lemma QuotedOccurrenceRejects(before: string, ruleName: string, after: string)
    requires InStringLiteral(before, |before|)
    ensures !IsRuleInQuery(before + ruleName + after, ruleName)
  {
    var q := before + ruleName + after;
    assert q == before + (ruleName + after);
    LiteralInPrefix(before, ruleName + after, |before|);
    OccursAtIsSlice(q, ruleName, |before|);
    assert q[|before|..|before| + |ruleName|] == ruleName;
  }

  /**
   * A whole token with no quote before it, followed by text in which the name does not
   * occur inside a string, puts the rule in the query.
   */
  lemma BareTokenAccepted(before: string, ruleName: string, after: string)
    requires |ruleName| > 0 && '"' !in before && '"' !in ruleName
    requires before == [] || !IsIdentChar(before[|before| - 1])
    requires after == [] || !IsIdentChar(after[0])
    requires forall k: nat :: k <= |after| && OccursAt(after, ruleName, k) ==> !InStringLiteral(after, k)
    ensures IsRuleInQuery(before + ruleName + after, ruleName)
  {
    var head := before + ruleName;
    var q := head + after;
    OccursAtIsSlice(q, ruleName, |before|);
    assert q[|before|..|before| + |ruleName|] == ruleName;
    assert IsTokenAt(q, ruleName, |before|);
    forall j: nat | j <= |q| && OccursAt(q, ruleName, j) ensures !InStringLiteral(q, j) {
      if j <= |head| {
        LiteralInPrefix(head, after, j);
        QuoteFreeOutside(head, j);
      } else {
        var k := j - |head|;
        OccurrenceInSuffix(head, after, ruleName, k);
        LiteralAfter(head, after, k);
        QuoteFreeOutside(head, |head|);
      }
    }
  }

  // ---------------------------------------------------------------------------------------
  // getQueryLabelsForRuleName
  // ---------------------------------------------------------------------------------------

  /** A label filter of a selector, as `{ label, op, value }`. */
  datatype LabelFilter = LabelFilter(labelName: string, op: string, value: string)

  /** A metric selector of the parsed query: the metric name and its label filters. */
  datatype Selector = Selector(metric: string, labels: seq<LabelFilter>)

  /** The index of the first selector for `ruleName`, or `|selectors|` when there is none. */
  function FirstSelectorFor(ruleName: string, selectors: seq<Selector>): (k: nat)
    ensures k <= |selectors|
    ensures k < |selectors| ==> selectors[k].metric == ruleName
    ensures forall j :: 0 <= j < k ==> selectors[j].metric != ruleName
  {
    if |selectors| == 0 || selectors[0].metric == ruleName then 0
    else 1 + FirstSelectorFor(ruleName, selectors[1..])
  }

  /**
   * `getQueryLabelsForRuleName(ruleName, query)`: the label filters of the first selector,
   * left to right, whose metric is exactly `ruleName`; none when no selector has that name.
   */
  function GetQueryLabelsForRuleName(ruleName: string, selectors: seq<Selector>): (r: seq<LabelFilter>)
    ensures (forall j :: 0 <= j < |selectors| ==> selectors[j].metric != ruleName) ==> r == []
    ensures forall k :: 0 <= k < |selectors| && selectors[k].metric == ruleName
                        && (forall j :: 0 <= j < k ==> selectors[j].metric != ruleName)
                        ==> r == selectors[k].labels
  {
    var k := FirstSelectorFor(ruleName, selectors);
    if k < |selectors| then
      assert forall k' :: 0 <= k' < |selectors| && selectors[k'].metric == ruleName
                          && (forall j :: 0 <= j < k' ==> selectors[j].metric != ruleName)
                          ==> k' == k;
      selectors[k].labels
    else []
  }

  // ---------------------------------------------------------------------------------------
  // getRecordingRuleIdentifierIdx
  // ---------------------------------------------------------------------------------------

  /** One expansion of a recording rule: the query it stands for and its identifying labels. */
  datatype Candidate = Candidate(query: string, labels: seq<(string, string)>)

  /** The resolver's answer: `idx = -1`, or the chosen candidate with its expansion and identifier. */
  datatype Resolution =
    | Unresolved
    | Resolved(idx: nat, expandedQuery: string, identifier: Option<(string, string)>)

  /** The `idx` field of the answer. */
  function Idx(r: Resolution): int {
    if r.Unresolved? then -1 else r.idx
  }

  /** Every label of the candidate is set to its value by an `=` filter of the query's selector. */
  predicate CandidateMatches(candidate: Candidate, queryLabels: seq<LabelFilter>) {
    |candidate.labels| > 0
    && forall l :: l in candidate.labels ==> LabelFilter(l.0, "=", l.1) in queryLabels
  }

  /** The index of the first candidate, from `from` on, that matches, or `|candidates|`. */
  function FirstMatchFrom(candidates: seq<Candidate>, queryLabels: seq<LabelFilter>, from: nat): (k: nat)
    requires from <= |candidates|
    ensures from <= k <= |candidates|
    ensures k < |candidates| ==> CandidateMatches(candidates[k], queryLabels)
    ensures forall j :: from <= j < k ==> !CandidateMatches(candidates[j], queryLabels)
    decreases |candidates| - from
  {
    if from == |candidates| || CandidateMatches(candidates[from], queryLabels) then from
    else FirstMatchFrom(candidates, queryLabels, from + 1)
  }

  /**
   * `getRecordingRuleIdentifierIdx(query, ruleName, mapping)`: a lone label-less candidate is
   * taken as it is; otherwise the first candidate whose labels are all matched by the
   * selector for `ruleName` is taken, identified by its first label.
   */
  function GetRecordingRuleIdentifierIdx(selectors: seq<Selector>, ruleName: string, candidates: seq<Candidate>): (r: Resolution)
    ensures r.Resolved? ==> r.idx < |candidates| && r.expandedQuery == candidates[r.idx].query
    ensures r.Resolved? && r.identifier.Some? ==>
      |candidates[r.idx].labels| > 0
      && r.identifier.value == candidates[r.idx].labels[0]
      && LabelFilter(r.identifier.value.0, "=", r.identifier.value.1) in GetQueryLabelsForRuleName(ruleName, selectors)
  {
    if |candidates| == 1 && |candidates[0].labels| == 0 then Resolved(0, candidates[0].query, None)
    else
      var queryLabels := GetQueryLabelsForRuleName(ruleName, selectors);
      var k := FirstMatchFrom(candidates, queryLabels, 0);
      if k == |candidates| then Unresolved
      else
        assert candidates[k].labels[0] in candidates[k].labels;
        Resolved(k, candidates[k].query, Some(candidates[k].labels[0]))
  }

  /**
   * The resolver's choice is the first candidate that matches the selector's labels, and
   * it answers -1 exactly when none does.
   */
  lemma ResolverPicksFirstMatch(selectors: seq<Selector>, ruleName: string, candidates: seq<Candidate>)
    requires !(|candidates| == 1 && |candidates[0].labels| == 0)
    ensures var r := GetRecordingRuleIdentifierIdx(selectors, ruleName, candidates);
      var queryLabels := GetQueryLabelsForRuleName(ruleName, selectors);
      (Idx(r) == -1 <==> forall j :: 0 <= j < |candidates| ==> !CandidateMatches(candidates[j], queryLabels))
      && (r.Resolved? ==>
            CandidateMatches(candidates[r.idx], queryLabels)
            && r.identifier == Some(candidates[r.idx].labels[0])
            && forall j :: 0 <= j < r.idx ==> !CandidateMatches(candidates[j], queryLabels))
  {
  }

  // ---------------------------------------------------------------------------------------
  // getExpandRulesHints
  // ---------------------------------------------------------------------------------------

  /** A recording rule and its expansion candidates: one entry of the rule/query mapping. */
  datatype RuleEntry = RuleEntry(name: string, candidates: seq<Candidate>)

  /** The per-rule options of the fix: the expansion, plus the identifier when one decided it. */
  datatype ExpandOption = ExpandOption(expandedQuery: string, identifier: Option<(string, string)>)

  datatype HintKind = ExpandRules | ExpandRulesWarning

  datatype FixAction = FixAction(kind: HintKind, query: string, options: seq<(string, ExpandOption)>)

  datatype HintFix = HintFix(title: string, action: FixAction)

  datatype Hint = Hint(kind: HintKind, title: string, fix: Option<HintFix>)

  const ExpandRulesLabel := "Query contains recording rules."
  const ExpandRulesFixLabel := "Expand rules"
  const ExpandRulesWarningLabel :=
    "We found multiple recording rule that match in this query. To expand the recording rule, add an identifier label/value."

  /** Candidate `k` is the first one whose labels the query's selector matches. */
  predicate FirstMatchIs(candidates: seq<Candidate>, queryLabels: seq<LabelFilter>, k: int) {
    0 <= k < |candidates| && CandidateMatches(candidates[k], queryLabels)
    && forall j :: 0 <= j < k ==> !CandidateMatches(candidates[j], queryLabels)
  }

  /** What one rule of the mapping contributes. */
  datatype Outcome = NotInQuery | Ambiguous | Expands(option: ExpandOption)

  /** Rules the query mentions have at least one candidate: `mapping[ruleName][0]` exists. */
  predicate CandidatesPresent(query: string, mapping: seq<RuleEntry>) {
    forall e :: e in mapping && IsRuleInQuery(query, e.name) ==> |e.candidates| > 0
  }

  /**
   * A rule absent from the query contributes nothing; a rule with one candidate expands
   * to it whatever its labels; one with several candidates expands to the first candidate
   * the query's selector matches, naming that candidate's first label, and is ambiguous
   * exactly when no candidate matches.
   */
  function RuleOutcome(query: string, selectors: seq<Selector>, entry: RuleEntry): (r: Outcome)
    requires IsRuleInQuery(query, entry.name) ==> |entry.candidates| > 0
    ensures r == NotInQuery <==> !IsRuleInQuery(query, entry.name)
    ensures IsRuleInQuery(query, entry.name) && |entry.candidates| == 1
            ==> r == Expands(ExpandOption(entry.candidates[0].query, None))
    ensures r == Ambiguous <==>
      IsRuleInQuery(query, entry.name) && |entry.candidates| > 1
      && forall j :: 0 <= j < |entry.candidates| ==>
           !CandidateMatches(entry.candidates[j], GetQueryLabelsForRuleName(entry.name, selectors))
    ensures r.Expands? && |entry.candidates| > 1 ==>
      exists k :: FirstMatchIs(entry.candidates, GetQueryLabelsForRuleName(entry.name, selectors), k)
                  && r.option == ExpandOption(entry.candidates[k].query, Some(entry.candidates[k].labels[0]))
  {
    if !IsRuleInQuery(query, entry.name) then NotInQuery
    else if |entry.candidates| > 1 then
      ResolverPicksFirstMatch(selectors, entry.name, entry.candidates);
      match GetRecordingRuleIdentifierIdx(selectors, entry.name, entry.candidates)
      case Unresolved => Ambiguous
      case Resolved(_, expandedQuery, identifier) => Expands(ExpandOption(expandedQuery, identifier))
    else Expands(ExpandOption(entry.candidates[0].query, None))
  }

  /** The warnings pushed while reducing over the mapping, in mapping order. */
  function Warnings(query: string, selectors: seq<Selector>, mapping: seq<RuleEntry>): (r: seq<Hint>)
    requires CandidatesPresent(query, mapping)
    ensures forall h :: h in r ==> h == Hint(ExpandRulesWarning, ExpandRulesWarningLabel, None)
  {
    if |mapping| == 0 then []
    else
      assert mapping[0] in mapping;
      var rest := Warnings(query, selectors, mapping[1..]);
      if RuleOutcome(query, selectors, mapping[0]) == Ambiguous
      then [Hint(ExpandRulesWarning, ExpandRulesWarningLabel, None)] + rest
      else rest
  }

  /** The options object the reduce builds: one entry per rule that expands, in mapping order. */
  function Options(query: string, selectors: seq<Selector>, mapping: seq<RuleEntry>): seq<(string, ExpandOption)>
    requires CandidatesPresent(query, mapping)
  {
    if |mapping| == 0 then []
    else
      assert mapping[0] in mapping;
      var rest := Options(query, selectors, mapping[1..]);
      match RuleOutcome(query, selectors, mapping[0])
      case Expands(option) => [(mapping[0].name, option)] + rest
      case _ => rest
  }

  /**
   * `getExpandRulesHints(query, mapping)`: a warning for each ambiguous rule, then one
   * EXPAND_RULES hint carrying the options of every rule that expands, if there is any.
   */
  function GetExpandRulesHints(query: string, selectors: seq<Selector>, mapping: seq<RuleEntry>): (r: seq<Hint>)
    requires CandidatesPresent(query, mapping)
    ensures forall i :: 0 <= i < |r| - 1 ==> r[i] == Hint(ExpandRulesWarning, ExpandRulesWarningLabel, None)
    ensures |r| > 0 && r[|r| - 1].kind == ExpandRules ==>
      r[|r| - 1].fix.Some? && r[|r| - 1].fix.value.action.query == query
      && r[|r| - 1].fix.value.action.options == Options(query, selectors, mapping)
  {
    var options := Options(query, selectors, mapping);
    var warnings := Warnings(query, selectors, mapping);
    assert forall i :: 0 <= i < |warnings| ==> warnings[i] in warnings;
    warnings + if |options| > 0 then [ExpandRulesHint(query, options)] else []
  }

  /** The EXPAND_RULES hint: its label, and a fix that expands the rules of `options` in `query`. */
  function ExpandRulesHint(query: string, options: seq<(string, ExpandOption)>): Hint {
    Hint(ExpandRules, ExpandRulesLabel, Some(HintFix(ExpandRulesFixLabel, FixAction(ExpandRules, query, options))))
  }

  /** The warning a rule's outcome contributes. */
  function WarningOf(outcome: Outcome): seq<Hint> {
    if outcome == Ambiguous then [Hint(ExpandRulesWarning, ExpandRulesWarningLabel, None)] else []
  }

  /** The options entry a rule's outcome contributes. */
  function OptionOf(name: string, outcome: Outcome): seq<(string, ExpandOption)> {
    if outcome.Expands? then [(name, outcome.option)] else []
  }

  /** The hints for a mapping of two rules, from the two outcomes. */
  lemma HintsOfTwoRules(query: string, selectors: seq<Selector>, first: RuleEntry, second: RuleEntry)
    requires CandidatesPresent(query, [first, second])
    ensures var o1 := RuleOutcome(query, selectors, first);
      var o2 := RuleOutcome(query, selectors, second);
      var options := OptionOf(first.name, o1) + OptionOf(second.name, o2);
      GetExpandRulesHints(query, selectors, [first, second])
      == WarningOf(o1) + WarningOf(o2) + if |options| > 0 then [ExpandRulesHint(query, options)] else []
  {
    var mapping := [first, second];
    assert mapping[1..] == [second] && mapping[1..][1..] == [];
    assert first in mapping && second in mapping;
    var o1 := RuleOutcome(query, selectors, first);
    var o2 := RuleOutcome(query, selectors, second);
    assert Options(query, selectors, [second]) == OptionOf(second.name, o2);
    assert Warnings(query, selectors, [second]) == WarningOf(o2);
    assert Options(query, selectors, mapping) == OptionOf(first.name, o1) + OptionOf(second.name, o2);
    assert Warnings(query, selectors, mapping) == WarningOf(o1) + WarningOf(o2);
  }

  /** The options list exactly the rules that expand, each with its own expansion. */
  lemma {:induction false} OptionsAreExpandingRules(query: string, selectors: seq<Selector>, mapping: seq<RuleEntry>)
    requires CandidatesPresent(query, mapping)
    ensures forall name, option :: (name, option) in Options(query, selectors, mapping) <==>
      exists e :: e in mapping && e.name == name && RuleOutcome(query, selectors, e) == Expands(option)
  {
    if |mapping| > 0 {
      assert mapping[0] in mapping;
      assert forall e :: e in mapping[1..] ==> e in mapping;
      OptionsAreExpandingRules(query, selectors, mapping[1..]);
      assert forall e :: e in mapping ==> e == mapping[0] || e in mapping[1..];
    }
  }

  /** The number of rules that are ambiguous. */
  function AmbiguousCount(query: string, selectors: seq<Selector>, mapping: seq<RuleEntry>): nat
    requires CandidatesPresent(query, mapping)
  {
    if |mapping| == 0 then 0
    else
      assert mapping[0] in mapping;
      (if RuleOutcome(query, selectors, mapping[0]) == Ambiguous then 1 else 0)
      + AmbiguousCount(query, selectors, mapping[1..])
  }

  lemma {:induction false} WarningsCount(query: string, selectors: seq<Selector>, mapping: seq<RuleEntry>)
    requires CandidatesPresent(query, mapping)
    ensures |Warnings(query, selectors, mapping)| == AmbiguousCount(query, selectors, mapping)
  {
    if |mapping| > 0 {
      assert mapping[0] in mapping;
      WarningsCount(query, selectors, mapping[1..]);
    }
  }

  /** A mapping none of whose rules the query mentions gives no hint at all. */
  lemma {:induction false} NoRuleNoHint(query: string, selectors: seq<Selector>, mapping: seq<RuleEntry>)
    requires forall e :: e in mapping ==> !IsRuleInQuery(query, e.name)
    ensures CandidatesPresent(query, mapping)
    ensures GetExpandRulesHints(query, selectors, mapping) == []
  {
    if |mapping| > 0 {
      assert mapping[0] in mapping;
      assert forall e :: e in mapping[1..] ==> e in mapping;
      NoRuleNoHint(query, selectors, mapping[1..]);
    }
  }

  /**
   * The shape of the hint list: one warning per ambiguous rule, followed by a single
   * EXPAND_RULES hint, present exactly when some rule expands, that echoes the query.
   */
  lemma HintsShape(query: string, selectors: seq<Selector>, mapping: seq<RuleEntry>)
    requires CandidatesPresent(query, mapping)
    ensures var hints := GetExpandRulesHints(query, selectors, mapping);
      var warnings := AmbiguousCount(query, selectors, mapping);
      var expands := exists e :: e in mapping && RuleOutcome(query, selectors, e).Expands?;
      |hints| == warnings + (if expands then 1 else 0)
      && (forall i :: 0 <= i < warnings ==> hints[i].kind == ExpandRulesWarning && hints[i].fix == None)
      && (expands ==> hints[|hints| - 1].kind == ExpandRules && hints[|hints| - 1].fix.Some?
                      && hints[|hints| - 1].fix.value.action.query == query)
  {
    WarningsCount(query, selectors, mapping);
    OptionsAreExpandingRules(query, selectors, mapping);
    var options := Options(query, selectors, mapping);
    var warnings := Warnings(query, selectors, mapping);
    assert forall i :: 0 <= i < |warnings| ==> warnings[i] in warnings;
    if exists e :: e in mapping && RuleOutcome(query, selectors, e).Expands? {
      var e :| e in mapping && RuleOutcome(query, selectors, e).Expands?;
      assert (e.name, RuleOutcome(query, selectors, e).option) in options;
    } else if |options| > 0 {
      assert options[0] in options;
    }
  }
}
