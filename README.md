# Grafana helpers: OpenAPI rewriter, recording-rule hints, contact points, footer links

This project models four small pieces of the Grafana repository and proves properties of them.

- **OpenAPI rewriter** (`scripts/process-specs.ts`). `processOpenAPISpec` removes Kubernetes metadata from an OpenAPI document:
  - it strips the leading `/apis/<group>/<version>/namespaces/{namespace}` from every path key;
  - it skips falsy path items and drops ForAllNamespaces operations;
  - it filters `namespace` out of parameter lists;
  - it rewrites every string `$ref` under `#/components/schemas/` (`updateRefs`);
  - it renames schemas with `simplifySchemaName`.

  The document is a JSON value (module `JsonValue`). Its objects are ordered field lists. `obj[key] = value` keeps a key's place and otherwise appends the key, as JavaScript objects do for keys that are not integer-like (see `JsonValue.Put` under "## Left out"). The loops of `processOpenAPISpec` and the walk of `updateRefs` are methods. Each method is proved equal to a function, and the properties are lemmas about those functions. A TypeError the script would throw is the `Failure` of a `Result`. There are four such errors: reading a property of `null`, `Object.entries` of `null`, `'name' in` a primitive, and `.includes` on a value that has none.
- **Recording-rule hints** of the Prometheus query editor (`packages/grafana-prometheus/src/query_hints.test.ts`). The implementation is not part of this model. Its tests fix the behaviour of four functions, and the model follows them:
  - `isRuleInQuery`, the whole-token rule matcher;
  - `getQueryLabelsForRuleName`;
  - the candidate resolver `getRecordingRuleIdentifierIdx`;
  - the hint builder `getExpandRulesHints`.

  Every test case of these four is a lemma (modules `QueryHintsCases`, `QueryHintsResolverCases` and `ExpandRulesHintsCases`).
- **Contact-point descriptions** of the alerting UI (`contact-points/utils.test.ts`). The implementation is again not part of this model. The model covers three functions, and every test case is a lemma (module `ContactPointsCases`):
  - `summarizeEmailAddresses`;
  - `getReceiverDescription`;
  - `isAutoGeneratedPolicy`.
- **Footer links** (`public/app/core/components/Footer/Footer.tsx`). The model covers `getVersionMeta`, the default `getFooterLinks`, and `getVersionLinks`. `getVersionLinks` is a method that pushes the links one by one, and its contract gives the whole list it builds.

Modules: `Wrappers` (Option, Result), `Strings` (split, join, substring search, decimal digits), `JsonValue`, `SchemaNames`, `ProcessSpecs`, `QueryHints` and its case modules, `ContactPoints`, `ContactPointsCases`, `Footer`.

Decisions where the source text leaves room:

- **The `/watch/` paths.** The doc comment of `processOpenAPISpec` says that paths containing `/watch/` are removed. The code does not do this, and the model follows the code: such paths are kept.
- **`updateRefs` works on values, not in place.** It mutates a deep copy. The tree has no sharing, so each in-place overwrite is the replacement of one field in a value. `ProcessSpecs.RewriteRefs` performs the walk step by step and is proved equal to `ProcessSpecs.UpdateRefs`.
- **The `[^\/]+` segments of the path regex** are matched greedily. Backtracking cannot succeed, because a shorter run is never followed by the `/` the pattern needs.
- **The `isRuleInQuery` rule.** One test, at query_hints.test.ts:656-663, has the rule both bare, as an argument, and inside a double-quoted string, and it expects `false`. The model's rule is therefore:
  - there must be a whole-token occurrence of the rule;
  - no occurrence of the rule may lie inside a double-quoted literal.

  Identifier characters are letters, digits, `_` and `:`. A position is inside a literal when an odd number of `"` come before it. Single quotes and escapes are not modelled. This rule agrees with every case at query_hints.test.ts:597-663.
- **The resolver.**
  - A lone candidate without labels is taken as it is.
  - Otherwise the resolver takes the first candidate with a non-empty label list whose labels are all matched by `=` filters of the first selector named after the rule.
  - The identifier is that candidate's first label.
  - A candidate without labels among several candidates never matches. It is not read as an unconditional default expansion: the tests never put one among several, and such a candidate would have no first label to report as the identifier.
  - The PromQL parser stays outside: the resolver takes the query's selectors already parsed, left to right.
- **The hint builder.**
  - The rule/query mapping is the entry list of a JavaScript object.
  - A rule with one candidate expands to it without a label check.
  - An unresolved rule with several candidates pushes one EXPAND_RULES_WARNING. One EXPAND_RULES hint follows for all rules that expand, if any do.
  - The tests check only the warning's type, so its label text is this model's own.
- **Splitting e-mail address lists.** Addresses split on `,`, `;` or a run of newlines, after `trim`, and each address is then trimmed. A space alone does not separate addresses. Every test case agrees with the separators modelled. `trim` removes JavaScript's white-space and line-terminator characters.
- **Slack descriptions.** A Slack recipient that already starts with `#` is shown unchanged. Any other non-empty recipient gets a `#` in front. An empty or missing recipient gives no description.
- **Receivers and policies.** Receiver settings are string maps. The simplified-routing feature toggle of `isAutoGeneratedPolicy` is a parameter. A route is modelled by its `object_matchers` only.
- **The footer.** The `config` global of the footer becomes the parameters `buildInfo` and `licenseInfo`.

## Model

| member | source | states |
|---|---|---|
| SchemaNames.VersionSegmentIsRegex | scripts/process-specs.ts:121-122 | the computed version-segment test accepts exactly the strings `^v\d+[a-zA-Z0-9]*$` matches |
| SchemaNames.FirstVersionIndex | scripts/process-specs.ts:123 | `findIndex`: -1 or the index of a version segment with none before it; -1 only when no part is one |
| SchemaNames.SimplifySchemaName | scripts/process-specs.ts:118-130 | the result is always a suffix of the name |
| SchemaNames.SimplifyDropsVersionPrefix | scripts/process-specs.ts:118-130 | dot-free parts ending in the first version segment, a dot, and a rest simplify to exactly that rest |
| SchemaNames.SimplifyUnchangedIff | scripts/process-specs.ts:125-129 | a name is left unchanged exactly when no part but the last is a version segment |
| SchemaNames.SimplifyShortens | scripts/process-specs.ts:125-126 | when a version segment comes before the last part, the name gets strictly shorter |
| SchemaNames.SimplifySkipsPart | scripts/process-specs.ts:123-126 | a leading non-version part does not move the cut: the name simplifies as its rest does |
| SchemaNames.SimplifyKubernetesTime | scripts/process-specs.ts:114-116 | `io.k8s.apimachinery.pkg.apis.meta.v1.Time` simplifies to `Time` |
| SchemaNames.SimplifyCutsAtFirstVersion | scripts/process-specs.ts:123-126 | for every name whose parts hold a first version segment and a later one, the result is exactly the parts after the first, so the later version segment stays in it |
| ProcessSpecs.FilterNamespaceParameters | scripts/process-specs.ts:86-88 | fails exactly when some parameter is a primitive; otherwise keeps, in order and with multiplicity, exactly the parameters that have a `name` other than `namespace` |
| ProcessSpecs.StripNamespacePrefix | scripts/process-specs.ts:26 | the new path key is never longer than the path; StripNamespacedPath and StripOnlyNamespacedPrefix pin down exactly when and what it removes |
| ProcessSpecs.StripNamespacedPath | scripts/process-specs.ts:26 | a path that starts with `/apis/<group>/<version>/namespaces/{namespace}` loses exactly that prefix |
| ProcessSpecs.StripOnlyNamespacedPrefix | scripts/process-specs.ts:26 | a path that is changed at all was such a prefix followed by the result |
| ProcessSpecs.RewriteRef | scripts/process-specs.ts:100-103 | a rewritten reference always points into `#/components/schemas/`; RewriteRefOfLastSegment gives the rest |
| ProcessSpecs.RewriteRefOfLastSegment | scripts/process-specs.ts:100-103 | a reference whose last `/`-segment is `name` (with or without segments before it) becomes `#/components/schemas/` followed by `simplifySchemaName(name)` |
| ProcessSpecs.UpdateRefs | scripts/process-specs.ts:93-112 | the walk keeps a value's kind, an array's length and an object's keys in order, and leaves every other value alone; UpdateRefsKeepsShape and UpdateRefsRewritesRefs characterize what changes |
| ProcessSpecs.RewriteRefs | scripts/process-specs.ts:93-112 | the in-place walk gives exactly the tree `UpdateRefs` describes |
| ProcessSpecs.UpdateRefsKeepsShape | scripts/process-specs.ts:93-112 | with the string `$ref` values blanked out, the tree is unchanged by `updateRefs` |
| ProcessSpecs.UpdateRefsRewritesRefs | scripts/process-specs.ts:94-110 | the string `$ref` values after the walk are those before it, each rewritten, in the same order |
| ProcessSpecs.RefsAfterUpdateAreLocal | scripts/process-specs.ts:99-104 | after `updateRefs`, every string `$ref` starts with `#/components/schemas/` |
| ProcessSpecs.RewriteAllAppend | scripts/process-specs.ts:94-97 | rewriting the references of two lists is rewriting each list's |
| ProcessSpecs.IncludesMarker | scripts/process-specs.ts:44 | `operationId?.includes('ForAllNamespaces')` throws exactly for booleans, numbers and objects; it is true exactly for a string with the substring or an array holding the string |
| ProcessSpecs.IncludesMarkerAfterUpdate | scripts/process-specs.ts:40-59 | rewriting references never changes how the ForAllNamespaces test answers for an `operationId` |
| ProcessSpecs.FilterParametersField | scripts/process-specs.ts:50-57 | only `parameters` may change, and a value that is not an object is left alone; keys keep their order |
| ProcessSpecs.ProcessedPathItem | scripts/process-specs.ts:29-62 | a processed path item holds each key once (its entries are stated by ProcessedPathItemKeepsOperations) |
| ProcessSpecs.ProcessedPathItemKeepsOperations | scripts/process-specs.ts:29-62 | for a path item object whose keys are distinct, the processed item is exactly the entries the ForAllNamespaces test keeps, in order and under their own keys, each with parameters filtered and refs rewritten |
| ProcessSpecs.KeptDistinct | scripts/process-specs.ts:40-47 | leaving out the ForAllNamespaces operations keeps the keys of a path item distinct |
| ProcessSpecs.ProcessPathItem | scripts/process-specs.ts:32-62 | the loop over one path item equals the function `ProcessedPathItem` |
| ProcessSpecs.OperationPairsAreKept | scripts/process-specs.ts:36-62 | the assignments a processed path item is built from are exactly the entries the ForAllNamespaces test keeps, in order and under their own keys, each with parameters filtered and refs rewritten |
| ProcessSpecs.ProcessedPathItemHasNoAllNamespaces | scripts/process-specs.ts:40-47 | no entry of a processed path item is a ForAllNamespaces operation |
| ProcessSpecs.ProcessPaths | scripts/process-specs.ts:19-65 | the paths loop fails exactly when the assignments fail, and otherwise builds the object the assignments describe |
| ProcessSpecs.PathPairsFailIff | scripts/process-specs.ts:20-65 | processing the paths fails exactly when one truthy path item fails |
| ProcessSpecs.PathPairsAreTruthyEntries | scripts/process-specs.ts:20-65 | one assignment per truthy path item, in order: the stripped key and the processed item |
| ProcessSpecs.PathKeyPresence | scripts/process-specs.ts:20-64 | a key is in the new paths exactly when some truthy path item's key strips to it |
| ProcessSpecs.PathLastWins | scripts/process-specs.ts:64 | under each new path key sits the last truthy item whose key strips to it, processed |
| ProcessSpecs.ProcessSchemas | scripts/process-specs.ts:69-78 | the schemas loop builds the object of the `newSchemas[newKey] = schemaObject` assignments |
| ProcessSpecs.SchemaPairs | scripts/process-specs.ts:70-76 | one assignment per schema, in order: the simplified name and the schema with refs rewritten |
| ProcessSpecs.SchemaKeyPresence | scripts/process-specs.ts:70-76 | a key is among the new schemas exactly when some schema name simplifies to it |
| ProcessSpecs.SchemaLastWins | scripts/process-specs.ts:70-76 | when two names simplify to the same key, the later schema wins |
| ProcessSpecs.ProcessedSpec | scripts/process-specs.ts:14-81 | a processed document is an object with the input's keys in their order, and a `null` document throws the TypeError of reading `null.paths`; ProcessedSpecKeepsOtherKeys, the path lemmas and the schema lemmas give its contents |
| ProcessSpecs.ProcessOpenApiSpec | scripts/process-specs.ts:14-81 | the method equals the function `ProcessedSpec` on every document, including its TypeErrors |
| ProcessSpecs.ProcessedSpecKeepsOtherKeys | scripts/process-specs.ts:14-81 | every key of the document other than `paths` and `components`, and every key of `components` other than `schemas`, keeps its value |
| ProcessSpecs.WellTypedDocumentSucceeds | scripts/process-specs.ts:14-81 | a document with `paths` and `components.schemas`, object or array parameters, and string, array or null operation ids is processed without a TypeError |
| JsonValue.Put | scripts/process-specs.ts:61-76 | after `obj[key] = value` the key holds the value; a present key keeps its place and a new one is appended |
| JsonValue.PutOther | scripts/process-specs.ts:61-76 | an assignment leaves every other key's value alone |
| JsonValue.GetPutAll | scripts/process-specs.ts:19-64 | in an object built by assignments, each key holds the value of its last assignment |
| JsonValue.PutAllDistinct | scripts/process-specs.ts:19-64 | a built object holds no key twice |
| JsonValue.PutAbsent | scripts/process-specs.ts:61-76 | assigning a key the object lacks appends the entry at the end |
| JsonValue.PutAllOfDistinct | scripts/process-specs.ts:19-64 | assignments to distinct keys build the object that lists exactly those entries, in order |
| JsonValue.Entries | scripts/process-specs.ts:20-36 | `Object.entries`/`Object.keys`: an object's fields, an array's or a string's elements under their index, nothing for a number or a boolean |
| QueryHints.IsRuleInQuery | packages/grafana-prometheus/src/query_hints.test.ts:595-664 | the single left-to-right pass answers true exactly when both strings are non-empty, the rule has a whole-token occurrence and no occurrence of it lies inside a double-quoted string |
| QueryHints.ScanCorrect | packages/grafana-prometheus/src/query_hints.test.ts:595-664 | the left-to-right scan from any position decides the same property for the remaining occurrences |
| QueryHints.QuotedOccurrenceRejects | packages/grafana-prometheus/src/query_hints.test.ts:623-663 | a rule occurring inside an open string literal is never in the query |
| QueryHints.BareTokenAccepted | packages/grafana-prometheus/src/query_hints.test.ts:597-617 | a whole-token occurrence outside strings, with no quoted one after it, is in the query |
| QueryHints.SoleOccurrenceDecides | packages/grafana-prometheus/src/query_hints.test.ts:597-625 | when a rule occurs once, that occurrence alone decides |
| QueryHints.GetQueryLabelsForRuleName | packages/grafana-prometheus/src/query_hints.test.ts:557-593 | the label filters of the first selector named after the rule, or none when no selector is |
| QueryHints.GetRecordingRuleIdentifierIdx | packages/grafana-prometheus/src/query_hints.test.ts:457-555 | a resolved index holds the expanded query, and its identifier is the candidate's first label, matched by an `=` filter of the rule's selector |
| QueryHints.ResolverPicksFirstMatch | packages/grafana-prometheus/src/query_hints.test.ts:457-555 | the index is -1 exactly when no candidate matches; otherwise it is the first candidate that matches |
| QueryHints.RuleOutcome | packages/grafana-prometheus/src/query_hints.test.ts:245-455 | a rule contributes nothing exactly when it is absent from the query; a rule with one candidate expands to it with no identifier; a rule with several candidates is ambiguous exactly when no candidate matches its selector's labels, and otherwise expands to the first candidate that does, identified by that candidate's first label |
| QueryHints.GetExpandRulesHints | packages/grafana-prometheus/src/query_hints.test.ts:245-455 | every hint but the last is a warning without a fix; a final EXPAND_RULES hint echoes the query and carries the options of the expanding rules; HintsShape and OptionsAreExpandingRules complete the picture |
| QueryHints.OptionsAreExpandingRules | packages/grafana-prometheus/src/query_hints.test.ts:253-368 | the options list exactly the rules that expand, each with its own expansion |
| QueryHints.WarningsCount | packages/grafana-prometheus/src/query_hints.test.ts:292-321 | there is one warning per ambiguous rule |
| QueryHints.HintsShape | packages/grafana-prometheus/src/query_hints.test.ts:245-455 | the warnings come first; then one EXPAND_RULES hint echoing the query, present exactly when some rule expands |
| QueryHints.NoRuleNoHint | packages/grafana-prometheus/src/query_hints.test.ts:246-251 | a mapping none of whose rules the query mentions gives no hint |
| QueryHints.HintsOfTwoRules | packages/grafana-prometheus/src/query_hints.test.ts:253-454 | the hints of a two-rule mapping follow from the two rules' outcomes, in mapping order |
| QueryHintsCases.RuleInsideRate | packages/grafana-prometheus/src/query_hints.test.ts:597-599 | `rate(http_requests_total{job="api"}[5m])` contains the rule |
| QueryHintsCases.RuleAbsent | packages/grafana-prometheus/src/query_hints.test.ts:601-603 | a query with another metric does not |
| QueryHintsCases.RuleAtStart | packages/grafana-prometheus/src/query_hints.test.ts:605-607 | the rule at the start of the query |
| QueryHintsCases.RuleAtEnd | packages/grafana-prometheus/src/query_hints.test.ts:609-613 | the rule at the end of the query |
| QueryHintsCases.RuleBeforeSpaces | packages/grafana-prometheus/src/query_hints.test.ts:615-617 | the rule followed by spaces |
| QueryHintsCases.LongerMetricRejected | packages/grafana-prometheus/src/query_hints.test.ts:619-621 | a prefix of `http_requests_total_new` is not the rule |
| QueryHintsCases.QuotedRuleRejected | packages/grafana-prometheus/src/query_hints.test.ts:623-625 | the rule written as a quoted string is not the rule |
| QueryHintsCases.EmptyNeverMatches | packages/grafana-prometheus/src/query_hints.test.ts:627-637 | an empty query or an empty rule name never matches |
| QueryHintsCases.RuleInBinaryOperation | packages/grafana-prometheus/src/query_hints.test.ts:639-642 | `my:rule` after `+`, with or without spaces |
| QueryHintsCases.RuleInNestedCalls | packages/grafana-prometheus/src/query_hints.test.ts:644-646 | the rule inside nested function calls |
| QueryHintsCases.RuleAsLabelValueRejected | packages/grafana-prometheus/src/query_hints.test.ts:648-650 | the rule as a label value, after a metric it prefixes, is not the rule |
| QueryHintsCases.ColonRuleName | packages/grafana-prometheus/src/query_hints.test.ts:652-654 | `my_namespace:http_requests_total` matches as a whole token |
| QueryHintsCases.RuleInStringArgumentRejected | packages/grafana-prometheus/src/query_hints.test.ts:656-663 | a bare occurrence does not count when the rule also occurs inside a string argument |
| QueryHintsResolverCases.LabelsOfOnlySelector | packages/grafana-prometheus/src/query_hints.test.ts:559-566 | the labels of the only selector |
| QueryHintsResolverCases.LabelsAfterBinaryOperations | packages/grafana-prometheus/src/query_hints.test.ts:568-584 | the labels of the rule's selector among binary operations, with or without parentheses |
| QueryHintsResolverCases.LabelsOfFirstMatch | packages/grafana-prometheus/src/query_hints.test.ts:586-593 | the first selector for the rule wins |
| QueryHintsResolverCases.IdentifierMatches | packages/grafana-prometheus/src/query_hints.test.ts:458-480 | `uuid="111"` picks the first candidate and names it |
| QueryHintsResolverCases.NoIdentifierMatches | packages/grafana-prometheus/src/query_hints.test.ts:482-501 | `uuid="999"` matches no candidate: -1 |
| QueryHintsResolverCases.IdentifierOfSecondSelector | packages/grafana-prometheus/src/query_hints.test.ts:503-525 | `metric_55m` is resolved by its own selector, not by `metric_5m` |
| QueryHintsResolverCases.IdentifierAmongBinaryOperators | packages/grafana-prometheus/src/query_hints.test.ts:527-555 | the third candidate among nested binary operators |
| ExpandRulesHintsCases.EmptyMappingNoHint | packages/grafana-prometheus/src/query_hints.test.ts:246-251 | an empty mapping gives no hint |
| ExpandRulesHintsCases.SingleRulesHint | packages/grafana-prometheus/src/query_hints.test.ts:253-290 | one EXPAND_RULES hint echoing the query, with `metric_5m`'s expansion as the only option |
| ExpandRulesHintsCases.UnmatchedLabelWarns | packages/grafana-prometheus/src/query_hints.test.ts:292-321 | a label that matches no candidate gives an EXPAND_RULES_WARNING |
| ExpandRulesHintsCases.MatchedLabelExpands | packages/grafana-prometheus/src/query_hints.test.ts:323-368 | `uuid="111"` expands `metric_5m` to its first candidate, with identifier `uuid` and value `111` |
| ExpandRulesHintsCases.LongerRuleNameFirst | packages/grafana-prometheus/src/query_hints.test.ts:370-411 | `duration:p95:upper_threshold` expands alone; `duration:p95` is not in the query |
| ExpandRulesHintsCases.LongerRuleNameLast | packages/grafana-prometheus/src/query_hints.test.ts:413-454 | `upper_threshold:duration:p95` expands alone; `duration:p95` is not in the query |
| ContactPoints.Trim | public/app/features/alerting/unified/components/contact-points/utils.test.ts:123-129 | the result has no white space at either end |
| ContactPoints.TrimIsSlice | public/app/features/alerting/unified/components/contact-points/utils.test.ts:123-129 | the result is a slice of the input, and only white space is removed around it |
| ContactPoints.TrimPadded | public/app/features/alerting/unified/components/contact-points/utils.test.ts:123-129 | trimming white space around a trimmed string gives that string |
| ContactPoints.TrimIdempotent | public/app/features/alerting/unified/components/contact-points/utils.test.ts:123-129 | trimming twice is trimming once |
| ContactPoints.SplitAddressList | public/app/features/alerting/unified/components/contact-points/utils.test.ts:123-129 | at least one piece, and no piece holds a separator |
| ContactPoints.SplitSinglePiece | public/app/features/alerting/unified/components/contact-points/utils.test.ts:119-121 | a string without separators is a single piece |
| ContactPoints.SplitAfterNewlines | public/app/features/alerting/unified/components/contact-points/utils.test.ts:128 | a whole run of newlines ends one piece |
| ContactPoints.SplitJoinPunctuation | public/app/features/alerting/unified/components/contact-points/utils.test.ts:18-32 | splitting separator-free pieces joined by `,` or `;` gives the pieces back |
| ContactPoints.EmailAddresses | public/app/features/alerting/unified/components/contact-points/utils.test.ts:119-129 | one address per piece of the trimmed list, each the trimmed piece |
| ContactPoints.SummarizeEmailAddresses | public/app/features/alerting/unified/components/contact-points/utils.test.ts:18-32 | up to three addresses are all listed, joined by `, `; with more, the first three are listed and then `+N more` for the N others |
| ContactPoints.FewAddressesListed | public/app/features/alerting/unified/components/contact-points/utils.test.ts:119-129 | up to three addresses are all listed, joined by `, ` |
| ContactPoints.ManyAddressesCounted | public/app/features/alerting/unified/components/contact-points/utils.test.ts:18-32 | with more than three, the first three are listed and the others counted as `+N more` |
| ContactPoints.SingleAddressUnchanged | public/app/features/alerting/unified/components/contact-points/utils.test.ts:119-121 | a single plain address is its own summary |
| ContactPoints.TwoAddresses | public/app/features/alerting/unified/components/contact-points/utils.test.ts:123-129 | two addresses with white space around them and any separator between summarize to `a, b` |
| ContactPoints.FourAddresses | public/app/features/alerting/unified/components/contact-points/utils.test.ts:18-32 | four comma-separated addresses: three listed and `+1 more` |
| ContactPoints.SlackChannel | public/app/features/alerting/unified/components/contact-points/utils.test.ts:34-62 | a channel exactly for a non-empty recipient, and it always starts with `#` |
| ContactPoints.SlackHashAddedOnce | public/app/features/alerting/unified/components/contact-points/utils.test.ts:34-62 | `#channel` and `channel` give the same channel; the `#` is never doubled |
| ContactPoints.SlackChannelNormalForm | public/app/features/alerting/unified/components/contact-points/utils.test.ts:34-62 | the channel is `#` and the recipient without its own `#`, and describing it again changes nothing |
| ContactPoints.GetReceiverDescription | public/app/features/alerting/unified/components/contact-points/utils.test.ts:17-116 | e-mail: the summary of the addresses; Slack: `#` and the channel name, exactly for a non-empty recipient; OnCall: the plugin metadata's description; any other type: the metadata's description |
| ContactPoints.DescriptionSources | public/app/features/alerting/unified/components/contact-points/utils.test.ts:17-116 | the description depends only on the settings for e-mail and Slack, on the plugin metadata for OnCall, and on the metadata otherwise |
| ContactPoints.EmailReceiverSummarizes | public/app/features/alerting/unified/components/contact-points/utils.test.ts:18-32 | an e-mail receiver is described by the summary of its addresses |
| ContactPoints.SlackReceiverChannel | public/app/features/alerting/unified/components/contact-points/utils.test.ts:34-62 | a Slack receiver shows `#channel` whether its recipient is `#channel` or `channel` |
| ContactPoints.OnCallReceiverUsesPlugin | public/app/features/alerting/unified/components/contact-points/utils.test.ts:64-83 | an OnCall receiver shows its plugin metadata's description |
| ContactPoints.OtherReceiverUsesMeta | public/app/features/alerting/unified/components/contact-points/utils.test.ts:85-115 | any other receiver shows its metadata's description, and nothing exactly when there is none |
| ContactPoints.SomeMatcherIs | public/app/features/alerting/unified/components/contact-points/utils.test.ts:11-15 | the scan finds the matcher exactly when it is in the list |
| ContactPoints.IsAutoGeneratedPolicy | public/app/features/alerting/unified/components/contact-points/utils.test.ts:11-15 | true exactly when simplified routing is on and the object matchers include `__grafana_autogenerated__=true` |
| ContactPoints.EmptyRouteNotAutoGenerated | public/app/features/alerting/unified/components/contact-points/utils.test.ts:11-15 | an empty policy is never generated |
| ContactPointsCases.OneAddress | public/app/features/alerting/unified/components/contact-points/utils.test.ts:119-121 | `test@test.com` is its own summary |
| ContactPointsCases.CommaAndSpaces | public/app/features/alerting/unified/components/contact-points/utils.test.ts:126 | `foo@foo.com,   bar@bar.com` becomes `foo@foo.com, bar@bar.com` |
| ContactPointsCases.LeadingSpaceAndSemicolon | public/app/features/alerting/unified/components/contact-points/utils.test.ts:127 | ` foo@foo.com;  bar@bar.com` becomes `foo@foo.com, bar@bar.com` |
| ContactPointsCases.NewlineAndTrailingSpaces | public/app/features/alerting/unified/components/contact-points/utils.test.ts:128 | `foo@foo.com\n bar@bar.com  ` becomes `foo@foo.com, bar@bar.com` |
| ContactPointsCases.FourEmailAddresses | public/app/features/alerting/unified/components/contact-points/utils.test.ts:18-32 | the e-mail receiver of the test shows three addresses and `+1 more` |
| ContactPointsCases.SlackWithAndWithoutHash | public/app/features/alerting/unified/components/contact-points/utils.test.ts:34-62 | both Slack receivers show `#channel` |
| ContactPointsCases.OnCallDescription | public/app/features/alerting/unified/components/contact-points/utils.test.ts:64-83 | the OnCall receiver shows `The OnCall receiver` |
| ContactPointsCases.AnyTypeDescription | public/app/features/alerting/unified/components/contact-points/utils.test.ts:85-115 | a receiver of type `some` shows its metadata's description, or nothing without one |
| Footer.DefaultFooterLinks | public/app/core/components/Footer/Footer.tsx:15 | the default footer has no links |
| Footer.GetVersionMeta | public/app/core/components/Footer/Footer.tsx:17-24 | there are always release notes, and a version is a beta exactly when it contains `-beta` |
| Footer.BetaTagMakesBeta | public/app/core/components/Footer/Footer.tsx:18 | a `-beta` tag anywhere makes a beta |
| Footer.DashlessIsNoBeta | public/app/core/components/Footer/Footer.tsx:18 | a version without a dash is no beta |
| Footer.LicenseLink | public/app/core/components/Footer/Footer.tsx:29-36 | the `license` link points at the license URL; its text is the edition, followed by ` (state)` only for a non-empty state |
| Footer.VersionLink | public/app/core/components/Footer/Footer.tsx:42-49 | the `version` link reads `v<version> (<commit>)` and points at the changelog |
| Footer.UpdateLink | public/app/core/components/Footer/Footer.tsx:51-59 | the `updateVersion` link with its text, icon and download URL |
| Footer.GetVersionLinks | public/app/core/components/Footer/Footer.tsx:26-62 | the license link always comes first; it is the only link exactly when the version is hidden; then comes the version link; an update link comes third exactly when the version is shown and there is an update |
| Footer.LinkIdsDistinct | public/app/core/components/Footer/Footer.tsx:26-62 | the three links have different ids |

## Left out

- `processDirectory` and the top-level loop of `scripts/process-specs.ts` (lines 132-179). They do file-system I/O, JSON parsing and logging.
- `JSON.parse(JSON.stringify(spec))` is left out as an operation: the model's documents are values, so the copy is the value itself. Values that JSON cannot carry, such as `undefined` or functions, are not modelled.
- ProcessSpecs.ProcessedPathItem: its own contract states only that keys are distinct. The exact entries are stated by ProcessedPathItemKeepsOperations, for path items that are objects with distinct keys, as every path item of a parsed document is.
- JsonValue.Put: appends every new key at the end. JavaScript lists integer-like keys (array-index strings such as `10`) before all other keys, in ascending numeric order, so a schema whose simplified name is integer-like (`x.v1.10` becomes `10`) would be placed differently. Key order for such keys is not modelled; the values stored under each key are.
- Numbers are kept as JSON numbers (`real`). Their text form and floating-point behaviour are not modelled.
- `getQueryHints` and the other hint producers of the Prometheus query editor. The tests for `getExpandRulesHints` do not cover them.
- The PromQL parser that turns a query into selectors. The resolver and the hint builder take the selectors already parsed.
- QueryHints.GetExpandRulesHints: requires every rule the query mentions to have at least one candidate. For an empty candidate list the implementation would read a property of a missing first candidate and throw a TypeError; that error path is not modelled, as the implementation is not part of this model.
- QueryHints.IsRuleInQuery: handles double-quoted strings only. Single quotes, backticks and escaped quotes inside strings are not modelled.
- ContactPoints.GetReceiverDescription: models only the receiver types the tests name (`email`, `slack`, `oncall`) and the metadata fallback. Other per-type descriptions the real implementation may have are not modelled.
- ContactPoints.IsAutoGeneratedPolicy: reads the feature toggle as a parameter instead of the runtime configuration. The label `__grafana_autogenerated__`, the operator `=` and the value `true` of the generated-policy matcher do not come from the tests, which check only that an empty policy is not generated; they are this model's reading of the simplified-routing convention.
- `setFooterLinksFn` (Footer.tsx:64-66) reassigns a module-level function variable; the model has only the default `getFooterLinks`.
- The `Footer` React component and its props (Footer.tsx:68-75) are rendering, not logic.
