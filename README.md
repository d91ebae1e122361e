# fMBT end conditions, modelled in Dafny

fMBT is a model-based test generator. After every test step it asks each
configured *end condition* whether the run must stop, and with which verdict.
This project models how those conditions are built and how the ones defined in
`src/end_condition.cc` decide. The model covers:

- **Construction.** `new_end_condition` reads a specification in the
  `name(option)` syntax first. Only when the factory refuses that name does it
  try the deprecated `name:option` syntax. The factory is a table of nine
  names; `tag`/`statetag` and `noprogress`/`no_progress` are synonyms.
- **Predicates.** The match functions of the `tag`/`statetag`, `duration`,
  status-error and `failing_tag` (tag verification) conditions.
- **Tag filter.** `evaluate_filter` turns `include(...)` or `exclude(...)`
  into the tag indices that tag verification ignores.
- **Coverage and placeholder.** How the `coverage` condition's constructor
  sets its status, error message and explanation. Which diagnostic the
  placeholder ("dummy") condition gives.

Files and modules:

- `types.dfy` (`Types`): the collaborators a condition reads. The heuristic,
  the model and the coverage are plain records (status flag, error message,
  active tags, tag names). The adapter clock is a `Time(sec, usec)` value.
  Verdicts are a datatype.
- `helper.dfy` (`Helper`): stand-ins for the string helpers of `helper.hh`
  (`param_cut`, `split`, `commalist`, `strlist`, `find`). Their bodies are not
  part of this model. The definitions here are plausible ones. The
  construction and filter properties (`SyntaxEquivalence`,
  `NoticeFormIsModern`, the `include`/`exclude` examples) rest on the round
  trips `ParamCutModernForm` and `SplitLegacyForm`. These assume that the real
  `param_cut` cuts at the first `(` and drops a final `)`, and that `split` cuts
  at the first `:`.
- `factory.dfy` (`Factory`): the name table and `new_end_condition`.
- `predicates.dfy` (`Predicates`): the tag, duration and status-error
  predicates.
- `tag_verify.dfy` (`TagVerify`): the `failing_tag` condition. It holds the
  `filter` field, the `match` that builds `er` step by step, and both
  `evaluate_filter` overloads.
- `coverage_condition.dfy` (`CoverageCondition`): the coverage constructor and
  the placeholder's `stringify`.

Each object that the source updates in place is a class with the source's
fields. `filter` and `er` of the tag-verification condition, `er` of the
status-error condition, and the fields the coverage constructor sets all
follow this rule. Their methods state the new state exactly. Read-only
predicates either change nothing (tag match) or are Dafny predicates (duration).

Points where the code may surprise a reader; the model follows the code:

- An empty filter specification leaves `filter` as it was. A natural reading
  would reset `filter` to empty; the code does not touch it. The same goes for
  an unknown filter name.
- `include(...)` adds to `filter` with `push_back`; it does not replace it.
  `exclude(...)` hands `filter` to `find` as its output list. Whether `find`
  appends to that list or clears it first is decided outside this file; the
  model assumes it appends.
- A duration condition matches at the threshold second only from the threshold
  microsecond on. It never matches in the following second, and always
  matches from two seconds after on. So a matching clock reading can be
  followed by a later one that does not match (`DurationNotMonotone`). The
  source's comparison is kept as written.

## Model

| member | source | states |
|---|---|---|
| Helper.FirstIndex | src/end_condition.cc:142 | the first position of an element, or the length when absent; every earlier element differs |
| Helper.ParamCut | src/end_condition.cc:46 | a specification without `(` is all name with an empty option; with `(` the name has no `(` |
| Helper.ParamCutModernForm | src/end_condition.cc:46 | `name(option)` splits back into `name` and `option` when the name has no `(` |
| Helper.Split | src/end_condition.cc:55 | a specification without `:` is all name; otherwise name, `:` and option make up the whole string |
| Helper.SplitLegacyForm | src/end_condition.cc:55 | `name:option` splits back into `name` and `option` when the name has no `:` |
| Helper.Pieces | src/end_condition.cc:177 | at least one piece, and no piece contains a comma |
| Helper.PiecesJoin | src/end_condition.cc:177 | joining the pieces with commas gives back the original string |
| Helper.CommaList | src/end_condition.cc:177 | the empty option is the empty list; otherwise the comma-free pieces join back to the option |
| Helper.Unquote | src/end_condition.cc:181 | a name without enclosing quotes is kept, and no name grows |
| Helper.StrList | src/end_condition.cc:181 | the list keeps its length and each name is unquoted |
| Helper.Find | src/end_condition.cc:182 | every index found is a valid tag index whose name was asked for; every asked name that is a tag has its index found |
| Helper.FindDistinct | src/end_condition.cc:182 | with distinct tag names, an index is found exactly when its tag was asked for |
| Factory.Create | src/end_condition.cc:218-226 | a condition is built exactly for registered names, with the caller's verdict and option |
| Factory.CreateAcceptsRegisteredNames | src/end_condition.cc:218-226 | the accepted names are exactly steps, coverage, tag, statetag, duration, noprogress, no_progress, deadlock, failing_tag |
| Factory.CreateSynonyms | src/end_condition.cc:218-226 | tag and statetag build the same condition, and so do noprogress and no_progress; no other name builds those variants; every other registered name has a variant of its own |
| Factory.RegisteredNamesArePlain | src/end_condition.cc:218-226 | no registered name contains `(` or `:` |
| Factory.NewEndCondition | src/end_condition.cc:42-66 | the modern split wins whenever the factory accepts its name (not deprecated); otherwise the legacy split (deprecated); nothing only when both are refused |
| Factory.SyntaxEquivalence | src/end_condition.cc:42-66 | for every registered name and every option, parentheses included, `name:option` and `name(option)` build the same condition; only the former is flagged deprecated |
| Factory.NoticeFormIsModern | src/end_condition.cc:58-61 | the modern form that the deprecation notice prints re-parses, through the modern path alone, to the condition the legacy path built |
| Predicates.TagCondition.Match | src/end_condition.cc:99-106 | true exactly when the resolved tag is among the model's current properties; nothing changes |
| Predicates.DurationReached | src/end_condition.cc:108-115 | the duration test of `DurationCondition.Match`: a match only from the threshold second on, and never in the second after it |
| Predicates.DurationFalseBefore | src/end_condition.cc:108-115 | no match in any second before the threshold second |
| Predicates.DurationAtThresholdSecond | src/end_condition.cc:108-115 | in the threshold second, match exactly when the microseconds reach the threshold microseconds |
| Predicates.DurationFalseInGraceSecond | src/end_condition.cc:108-115 | no match in the second after the threshold second, whatever the microseconds |
| Predicates.DurationTrueAfterGrace | src/end_condition.cc:108-115 | a match from two seconds after the threshold second on |
| Predicates.DurationNotMonotone | src/end_condition.cc:108-115 | the threshold instant matches while the same instant one second later does not |
| Predicates.FirstFailure | src/end_condition.cc:117-133 | no failure exactly when heuristic, model and coverage all report success; otherwise the first failing one in the order heuristic, model, coverage |
| Predicates.ErrorTextIdentifiesCollaborator | src/end_condition.cc:120-131 | the three prefixes keep explanations apart: equal explanations come from the same collaborator with the same message |
| Predicates.StatusErrorCondition.Match | src/end_condition.cc:117-133 | true exactly when some status is false; then `er` is the first failure's prefix and message; otherwise `er` is unchanged |
| TagVerify.Offending | src/end_condition.cc:141-146 | the offending tags are no more than the mismatching ones |
| TagVerify.OffendingMembers | src/end_condition.cc:141-146 | a tag offends exactly when it mismatches and is not in the filter |
| TagVerify.OffendingNonEmpty | src/end_condition.cc:139-148 | some tag offends exactly when some mismatching tag is outside the filter |
| TagVerify.OffendingEmptyFilter | src/end_condition.cc:141-146 | with an empty filter, every mismatching tag offends, in mismatch-list order |
| TagVerify.Quoted | src/end_condition.cc:143 | the quoted list is empty exactly when there is no tag to quote |
| TagVerify.ExplanationWhenAllIgnored | src/end_condition.cc:140-148 | when every mismatching tag is filtered, no tag offends and `er` is "verifying tags failed." |
| TagVerify.TagVerifyCondition.Match | src/end_condition.cc:135-149 | true exactly when some mismatching tag is not in `filter`; `er` is "verifying tags ", then each such tag's name quoted, in mismatch-list order, then "failed." |
| TagVerify.Complement | src/end_condition.cc:183-187 | no more indices than tags |
| TagVerify.ComplementAscending | src/end_condition.cc:183-187 | the indices are below the tag count and strictly ascending |
| TagVerify.ComplementMembers | src/end_condition.cc:183-187 | an index is in the complement exactly when it is a tag index that was not resolved |
| TagVerify.Resolved | src/end_condition.cc:176-182 | every resolved index is a valid tag index |
| TagVerify.FilterMeaning | src/end_condition.cc:179-195 | with distinct tag names, include ignores exactly the unnamed tags and exclude exactly the named ones |
| TagVerify.TagVerifyCondition.EvaluateFilter | src/end_condition.cc:169-197 | an empty spec succeeds with `filter` unchanged; include appends the ascending complement of the named indices; exclude appends the named indices; any other name fails with `filter` unchanged |
| TagVerify.TagVerifyCondition.AppendUnresolved | src/end_condition.cc:183-187 | the include loop appends to `filter` exactly the ascending indices below the tag count that were not resolved |
| TagVerify.TagVerifyCondition.EvaluateOwnFilter | src/end_condition.cc:151-154 | the same four outcomes for the condition's own option |
| TagVerify.IncludeAResolves | src/end_condition.cc:179-188 | `include(a)` over tags a, b, c ignores b and c |
| TagVerify.ExcludeABResolves | src/end_condition.cc:191-194 | `exclude(a,b)` over tags a, b, c resolves to indices 0 and 1 |
| TagVerify.ExcludeABExplanation | src/end_condition.cc:135-149 | with a and b ignored, a mismatch of b and c gives `verifying tags "c" failed.` |
| TagVerify.IncludeExample | src/end_condition.cc:169-188 | evaluating `include(a)` over tags a, b, c on an empty filter succeeds and gives the filter [1, 2] |
| CoverageCondition.ReachedText | src/end_condition.cc:71-75 | the explanation starts with "coverage " and ends with "reached" |
| CoverageCondition.ReachedTextRoundTrip | src/end_condition.cc:71-75 | the coverage specification can be read back from the explanation |
| CoverageCondition.CoverageCondition.constructor | src/end_condition.cc:68-97 | `er` names the option. No coverage gives status false and "<param> not valid coverage". A failing coverage gives status false and copies its message. A working constant coverage sets `cconst`; any other working coverage is registered |
| CoverageCondition.Diagnostic | src/end_condition.cc:157-164 | the diagnostic of a condition that failed to build is never empty |
| CoverageCondition.DiagnosticIdentifiesCause | src/end_condition.cc:157-164 | equal diagnostics have the same cause: missing coverage with the same option, or failing coverage with the same message |
| CoverageCondition.DummyCondition.Stringify | src/end_condition.cc:156-167 | a valid placeholder reports its error message; an invalid one a non-empty diagnostic |

## Left out

- The `steps`, `noprogress` and `deadlock` conditions: their constructors and match bodies are in other files, so the factory only names their variants.
- The option parsing in the constructors of the tag, duration, steps and tag-verification conditions (tag-name resolution, seconds and microseconds) is in other files. The classes here hold the parsed fields.
- The base `End_condition` constructor and destructor (src/end_condition.cc:30-40), which set `param_float`, `param_long`, `param_time` and `notify_step` to -1. The classes keep only the fields their own members use.
- The deprecation message printed to stderr (src/end_condition.cc:59-61) is I/O. It is modelled as the `deprecated` flag of the result.
- `new_coverage`, the `dynamic_cast` to the constant-threshold coverage and `strtod` into `param_float` (src/end_condition.cc:78-87) call code outside this file or use floating point. The built coverage is a parameter `Option<BuiltCoverage>` carrying `isConst`, and `param_float` is not modelled. Neither is the log reference `l.ref()` or `counter = COVERAGE`.
- Registering the coverage with the run configuration (`_conf->set_model(c)`) is a side effect on shared state. It is recorded as the ghost field `registered`.
- The global `Adapter::current_time` is the `now` parameter of the duration predicate.
- The helpers `param_cut`, `split`, `commalist`, `strlist` and `find` are defined outside this file. Their Dafny versions are stand-ins. In particular, `Find` skips names that are not tags, and `exclude` appends `Find`'s result to `filter`. `EvaluateFilter`'s exclude clause (`filter == old(filter) + Resolved(tags, s)`) depends on the second choice: a `find` that cleared its output list first would leave only the resolved indices. Its contract is stated over `Find`'s result, so it does not depend on how unknown names are treated. `FilterMeaning` does: it rests on `Find` returning only valid indices of named tags, which a `find` that mapped unknown names to some default index would break.
- The FACTORY_* macro machinery (src/end_condition.cc:199-216) is replaced by a map from names to variants.
- The match parameters that a predicate does not read (step count, state, action, coverage growth) are left off its signature. The model's property array from `getprops` is a sequence.
- Integers are unbounded: `param_time + 1` overflowing a C `int`, and the unsigned loop index compared with `int` tag indices, are not modelled.
- TagVerify.TagVerifyCondition.Match: requires every mismatching tag outside the filter to be a valid index into the tag names. The source indexes `getSPNames()` without a check, and an invalid index is undefined behaviour there.
- CoverageCondition.DummyCondition.Stringify: its contract states only that an invalid placeholder's diagnostic is non-empty. The exact text is `Diagnostic`'s, and `DiagnosticIdentifiesCause` is stated about that.
- Idempotence of repeated matches is not stated as a lemma. It follows from the contracts: the tag and duration predicates change nothing, and repeated status-error or tag-verification matches with the same inputs and the same `filter` return the same result and leave the same `er`.
