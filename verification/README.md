# Unit-conversion knowledge base, modelled in Dafny

This project models the self-checking core of a unit-conversion knowledge base.
A question names two units. The agent looks the pair up in a graph of
`CONVERTS_TO` edges. On a miss, it asks a language model for a formula
`output = expression(input)`, scores that formula on generated test cases, and
stores the first formula that scores at least 0.8. Storing also writes the
inverse formula on the reverse edge. A bulk path stores a whole dictionary of
records, skipping the bad ones.

The modules follow the source files:

- `Text` (`text.dfy`): the Python string built-ins the core relies on: `strip`,
  `lower`, `split` on one character and `replace` of one character.
- `Engine` (`engine.dfy`, for `engine.py`): `parse_formula`, `evaluate_formula` and
  `invert_formula`. The algebra system (sympy) is a `Cas` record of three
  functions (`sympify`, `solve`, `show`). It works over a small expression
  datatype with rational literals, named symbols, `+ - * /` and integer powers.
  Free symbols and values are computed over that datatype.
- `TestRunner` (`test_runner.dfy`, for `test_runner.py`): `run_formula_tests`, with `math.isclose` as an
  abstract closeness relation.
- `Neo` (`neo.dfy`, for `neo.py`): `ConversionRelation`, `lookup_conversion` and
  `store_conversion`. The graph is a map from (from unit, to unit) to the edge's
  property map, held in the `edges` field of a `ConversionStore` object. A
  session that raises is a `Fault` parameter: the forward write, the reverse
  lookup or the inverse write.
- `UserQuery` (`user_query.dfy`, for `user_query.py`): `KGAgent.forward`. The
  language-model components are `Oracles`, given as functions that return
  `None` where the component raises. The formula writer and the test-case
  generator also take the round number, so that they may answer differently
  in different rounds. The unit extractor and the validator take only their
  input. Whether the first lookup session raises is a parameter.
- `MassEdgeStorage` (`mass_edge_storage.dfy`, for `mass_edge_storage.py`): the synchronous `save_all_conversions`.
  Which session raises for each entry is a function of the entry's key.

Notes on the code as written, which the model follows:

- `lookup_conversion` lower-cases the unit names and does not strip them.
  `Neo.UntrimmedLookupMisses` shows that a pair is never found among normalized
  names when either unit name starts or ends with white space.
- `parse_formula` passes white space inside the right-hand side to `sympify`
  unchanged; it only strips the ends and rewrites `×`/`÷`.
- The agent's feedback is replaced after each rejected round.
- `run_formula_tests` returns a number, and an empty list of cases divides by
  zero. That division is modelled as the error `DivisionByZero`.
- `user_query.py` reads the scorer's answer as a record holding a score and a
  list of failed cases, and imports that record type and a Markdown helper from
  `test_runner.py`, which defines neither. In `UserQuery` the scorer is an
  oracle that returns that record.
- `user_query.py:2` imports `ConversionValidator` and `FormulaTestCaseGenerator`
  from `extract.py`, and `test_runner.py:4` imports `TestCase` from it; the file
  defines none of the three. Here they are the validator and case-generator
  oracles and the `TestRunner.TestCase` datatype, shaped by how they are used.
- `user_query.py:44` passes the feedback to the formula writer, whose
  `forward` in `extract.py` takes no feedback parameter. The model follows the
  call site: the formula oracle receives the feedback.

## Model

| member | source | states |
|---|---|---|
| Text.TrimStart | engine.py:12-13 | `lstrip()` gives a string no longer than the input that does not start with white space |
| Text.TrimStartSlice | engine.py:12-13 | `lstrip()` keeps a suffix of the input, and what it drops is all white space |
| Text.TrimEnd | engine.py:12-13 | `rstrip()` gives a prefix of the input that does not end with white space |
| Text.TrimEndSlice | engine.py:12-13 | what `rstrip()` drops is all white space |
| Text.StripSlice | engine.py:12-13 | `strip()` removes the white space at both ends and nothing else: the result is a slice of the input, and everything outside the slice is white space |
| Text.Lower | neo.py:24 | `lower()` keeps the length, maps each character by itself, and leaves no upper-case letter |
| Text.ReplaceChar | engine.py:17 | `replace(a, b)` keeps the length, puts `b` where `a` was, and leaves every other character |
| Text.Split | engine.py:11 | `split("=")` gives one more piece than there are separators, and no piece contains the separator |
| Text.JoinSplit | engine.py:11 | splitting loses nothing: joining the pieces with the separator gives the text back |
| Text.SplitTwo | engine.py:11 | text with exactly one separator splits into exactly the part before it and the part after it |
| Text.Strip | engine.py:12-13 | `strip()` gives a string with no white space at either end, no longer than the input; `Text.StripSlice` says that only the end white space is removed |
| Text.StripIdempotent | engine.py:12-13 | stripping twice is stripping once |
| Text.StripAbsent | engine.py:12 | `strip()` adds no character, so a left side without `=` stays without `=` |
| Text.TrimStartEmpty | engine.py:12-13 | `lstrip()` gives the empty string exactly when the text is all white space |
| Text.LowerStrip | neo.py:21-24 | `lower()` and `strip()` commute, since lower-casing never creates or removes white space |
| Text.LowerIdempotent | neo.py:24 | lower-casing twice is lower-casing once |
| Engine.Dealias | engine.py:17 | the rewritten text has the same length and contains no `×` or `÷`; each `×` became `*`, each `÷` became `/`, and every other character is unchanged |
| Engine.DealiasKeeps | engine.py:17 | text without the aliases is passed on unchanged |
| Engine.FreeSymbols | engine.py:55 | `expr.free_symbols`: the names of the symbols that occur in the expression. Its properties are stated by `Engine.InputSymbol` and `Engine.Eval` |
| Engine.Eval | engine.py:39-41 | `float(rhs_expr.subs(subs))`: a value is only obtained when every free symbol of the expression is bound |
| Engine.ParseFormula | engine.py:4-20 | a formula whose `=` count is not one fails with the unpacking error, with the number of pieces; on success the left-hand name is not empty, is trimmed and contains no `=` |
| Engine.ParseEquation | engine.py:11-20 | `a=b` reads as the name `a.strip()` and whatever `sympify` makes of `b.strip()` with the aliases rewritten. An empty name is refused by `symbols` before `sympify` is called, and it is an error if `sympify` rejects the text |
| Engine.BlankNameRejected | engine.py:11-15 | a left side that is empty or all white space makes parsing, evaluation and inversion fail with the no-symbols error, whatever the right side |
| Engine.EvaluateFormula | engine.py:23-41 | a parse error is passed on unchanged; a value is only produced when every free symbol of the right side has been given a value |
| Engine.EvaluateParsed | engine.py:32-41 | once parsing succeeds, the result is the value of the right-hand expression under the given inputs, or the not-a-real-number error |
| Engine.EvalIgnoresOtherInputs | engine.py:35-39 | inputs for names that are not free symbols of the expression play no part in its value |
| Engine.EvaluateIgnoresLhs | engine.py:32-41 | two formulas that differ only left of `=`, both with a non-blank name there, evaluate alike on all inputs |
| Engine.EvaluateExample | engine.py:26-29 | `centimeters=250` on `meters = centimeters / 100` gives 2.5 |
| Engine.CentimetersAt250 | engine.py:26-29 | the expression `centimeters / 100` has the value 2.5 at `centimeters = 250` |
| Engine.CentimetersOnly | engine.py:55-58 | the only free symbol of `centimeters / 100` is `centimeters`, so the documented formula passes the shape check |
| Engine.InputSymbol | engine.py:55-61 | it succeeds exactly when the expression has one free symbol, and then returns that symbol; otherwise it fails with the shape error and the symbol count |
| Engine.InvertFormula | engine.py:44-72 | a parse error is passed on; success needs exactly one free symbol on the right; a formula that inverts contains `=` and so does its inverse |
| Engine.InvertChecksShapeFirst | engine.py:55-58 | with zero or several free symbols the result is the shape error, whatever the solver would answer |
| Engine.InvertOutcome | engine.py:60-71 | once the shape check passes: no solution is an error, otherwise the result is `<input symbol> = <first solution as printed>` |
| Engine.ParsePrintedFormula | engine.py:11-20 | a formula written as `x = text`, with a plain name and printed text, parses back to that name and expression |
| Engine.InverseUndoesFormula | engine.py:44-72 | with an algebra system that prints faithfully and solves correctly, the inverse parses with the input symbol on its left, and evaluating the original formula at the inverse's value returns the starting value |
| Engine.ParseExample | engine.py:4-10 | the documented formula `meters = centimeters / 100` reads as the name `meters` and the expression `centimeters / 100` |
| Engine.InvertExample | engine.py:46-50 | the documented formula inverts to `centimeters = <printed solution>`, and the solution `meters * 100` undoes the formula for every value |
| Engine.TimesHundredUndoes | engine.py:46-50 | `meters * 100` undoes `centimeters / 100` for every real value |
| TestRunner.EvaluateAt | test_runner.py:37-40 | each case binds the single input symbol to its input value; a symbol called `formula` clashes with the function's own parameter and raises |
| TestRunner.Passes | test_runner.py:37-48 | a case passes when its evaluation succeeds and the output is close to the expected value. `TestRunner.ErrorCaseFails` and `TestRunner.PassCount` state its use |
| TestRunner.PassCount | test_runner.py:33-52 | the number of passing cases never exceeds the number of cases |
| TestRunner.Score | test_runner.py:6-54 | a parse error or a shape error (checked before any case) is passed on; no cases at all is the division-by-zero error, and that happens in no other situation; otherwise the score lies in [0, 1] |
| TestRunner.ScoreIsPassFraction | test_runner.py:33-54 | with a usable formula and some cases, the score is the number of passing cases over the number of cases |
| TestRunner.RunFormulaTests | test_runner.py:6-54 | the counting loop returns exactly `Score`: the same errors, and the same fraction of passing cases |
| TestRunner.PassCountAppend | test_runner.py:35-52 | counting two runs of cases one after the other adds their counts |
| TestRunner.ErrorCaseFails | test_runner.py:50-52 | a case whose evaluation raises adds nothing, and the cases after it are still counted |
| TestRunner.PassCountPermutation | test_runner.py:33-54 | the count depends only on the multiset of cases, so reordering the cases does not change the score |
| TestRunner.ClashingNameFailsAll | test_runner.py:37-40 | a formula whose input symbol is called `formula` passes no case |
| Neo.Normalize | neo.py:21-24 | a normalized unit name has no upper-case letter and no white space at either end, and equals `lower(strip(v))` |
| Neo.NormalizeKeeps | neo.py:21-24 | a name that is already normalized is unchanged |
| Neo.NormalizeIdempotent | neo.py:21-24 | normalizing twice is normalizing once |
| Neo.MakeRelation | neo.py:14-24 | validation succeeds exactly when `from_unit`, `to_unit` and `formula` are present; the unit names are normalized, the formula is kept, and exactly the other fields are kept as extras, with their values |
| Neo.Extras | neo.py:19 | the extras are exactly the fields other than the three declared ones, with their values |
| Neo.MakeRelationFields | neo.py:14-24 | rebuilding a valid relation from its own fields gives it back |
| Neo.EdgeProps | neo.py:47-48 | the forward edge receives `formula` and every extra field, and nothing else |
| Neo.LookupIn | neo.py:27-39 | the result is the `formula` of the edge between the lower-cased names, and it is None exactly when there is no such edge or it has no formula |
| Neo.LookupNormalized | neo.py:27-39 | names that are already normalized are looked up as they are |
| Neo.UntrimmedLookupMisses | neo.py:34-35 | in a graph of normalized names, a pair is never found when either unit name starts or ends with white space |
| Neo.LowerKeepsUntrimmed | neo.py:34-35 | `lower()` keeps white space at either end where it was |
| Neo.MergeEdge | neo.py:50-55 | `MERGE ... SET r += props` creates the edge if it is missing and overwrites the given properties; the edge's other properties and every other edge are kept |
| Neo.MergeAgain | neo.py:50-55 | merging properties that the edge already holds changes nothing |
| Neo.StoreEffect | neo.py:43-90 | the graph after `store_conversion` and whether it raised. Its cases are stated by `Neo.StoreOutcome`, and `Neo.ConversionStore.Store` is proved against it |
| Neo.StoreOutcome | neo.py:43-90 | the store by cases, each read on the graph before the call: a failed forward session changes nothing; a failed lookup session leaves the forward merge; a known reverse formula or a failed inversion stops after the forward merge; otherwise the reverse formula is written unless its session fails |
| Neo.StoreKeepsNormalized | neo.py:43-90 | storing a valid relation adds edges only between normalized names |
| Neo.StoreForwardEdge | neo.py:47-60 | once the forward session has run, the forward edge carries the relation's formula and every extra, and keeps its other properties |
| Neo.StoreStopsWhenReverseExists | neo.py:63-70 | if the reverse edge already has a formula (or the relation goes from a unit to itself), only the forward edge is merged and nothing is raised |
| Neo.StoreInversionFailure | neo.py:72-76 | if inversion raises, only the forward edge has changed and no exception escapes |
| Neo.StoreWritesInverse | neo.py:79-88 | otherwise the reverse edge's `formula` becomes the inverse and its other properties are kept |
| Neo.StoreFrame | neo.py:50-88 | only the forward and the reverse edge can change, and no edge is removed |
| Neo.StoreIdempotent | neo.py:43-90 | storing the same relation twice leaves the graph as one store left it, and the second store does not raise |
| Neo.ForwardSettled | neo.py:50-55 | after one store, merging the forward properties again changes nothing |
| Neo.ReverseKnownAfterStore | neo.py:63-88 | after a store whose inversion succeeds, the reverse lookup finds a formula |
| Neo.LookupAfterStore | neo.py:27-60 | once the forward session has run, any spelling that lower-cases to the stored names finds the relation's formula |
| Neo.InvertFormulaPlausible | neo.py:73 | what the store relies on from `invert_formula`: an inverse exists only for a formula with `=`, and it contains `=` |
| Neo.ConversionStore.constructor | neo.py:9-12 | the store starts empty and valid |
| Neo.ConversionStore.Store | neo.py:43-90 | the new graph and whether the call raised are exactly `StoreEffect` of the old graph; a store of valid edges stays valid |
| UserQuery.FeedbackFrom | user_query.py:76-92 | the feedback names the rejected formula and its failed cases, and the passed count is 10 minus the number of failed cases |
| UserQuery.PlayRound | user_query.py:44-58 | one round: ask for a formula with the current feedback, generate its cases, score it. The first exception ends the round. Stated through `UserQuery.RoundsChain` and `UserQuery.PlayRounds` |
| UserQuery.Scored | user_query.py:55-58 | the scorer's report is passed on, and its exception becomes the scorer failure that escapes `forward` |
| UserQuery.Rounds | user_query.py:40-94 | at most three rounds are played, and at least one |
| UserQuery.RoundsStep | user_query.py:40-94 | a round is played; only if it was rejected does the next round follow |
| UserQuery.RoundsChain | user_query.py:28-94 | the first round starts from empty feedback, and each round is what the oracles answer for its round number and feedback |
| UserQuery.RoundsLinked | user_query.py:76-94 | every round but the last was rejected, and its feedback replaces the previous one and starts the next round |
| UserQuery.RoundsEnd | user_query.py:40-94 | fewer than three rounds are played only when the last one was not rejected |
| UserQuery.AcceptedIsLast | user_query.py:63-73 | an accepted round is the last one played |
| UserQuery.LearnedRelation | user_query.py:64-71 | the relation built for an accepted formula is valid |
| UserQuery.AuthorIsExtra | user_query.py:64-71 | `author` is not a declared field, so validation keeps it as an extra |
| UserQuery.LearnedRelationValidates | user_query.py:64-71 | `model_validate` accepts the four fields and builds the relation with normalized names and `author = "Reevan"` |
| UserQuery.Forward | user_query.py:16-98 | an exception from the unit extractor, the first lookup or the validator escapes with no round played and the graph unchanged; on a lookup hit the stored formula is returned with no round played and the graph unchanged; an inconvertible pair gives None with the graph unchanged; otherwise the rounds are played and end as `LearnOutcome` says; a graph of normalized names stays so |
| UserQuery.PlayRounds | user_query.py:40-94 | the bounded loop plays exactly `Rounds` from round 0 with empty feedback |
| UserQuery.LearnOutcome | user_query.py:63-98 | how the rounds end, read from the last round. `UserQuery.ChangesOnlyWhenAccepted` and `UserQuery.LearnedIsFound` state its properties |
| UserQuery.Ending | user_query.py:63-98 | a round that was not rejected ends the rounds: its exception escapes with the graph unchanged, or its accepted formula is settled; a rejected last round gives None with the graph unchanged |
| UserQuery.Settle | user_query.py:64-73 | an accepted formula is stored as the learned relation, and answered unless the store raised |
| UserQuery.Learn | user_query.py:40-98 | the rounds played and the answer and graph they end in: an exception from the formula writer, the case generator or the scorer escapes with the graph unchanged; an accepted formula is stored and answered unless the store raised; three rejections give None with the graph unchanged; a graph of normalized names stays so |
| UserQuery.Conclude | user_query.py:63-73 | a round that was not rejected ends the agent: its exception escapes; an accepted formula is stored and answered unless the store raised; a graph of normalized names stays so |
| UserQuery.ThresholdOutOfTen | user_query.py:63 | the threshold is inclusive: out of ten cases, eight passing is accepted and seven is not |
| UserQuery.ChangesOnlyWhenAccepted | user_query.py:63-98 | the graph changes only when the last round was accepted |
| UserQuery.LearnedIsFound | user_query.py:64-73 | after a formula is learned, the graph holds it under the normalized unit names |
| UserQuery.AskAgainFinds | user_query.py:18-25 | a later question whose extracted names lower-case to the stored ones looks up the learned formula, and that lookup is a hit (so `forward` answers it with no round played) exactly when the formula is not empty |
| MassEdgeStorage.StoreConversion | mass_edge_storage.py:19-25 | `store_conversion` for one entry, with the session that raises chosen by the entry's key; `MassEdgeStorage.SaveAllConversions` is proved against it |
| MassEdgeStorage.Step | mass_edge_storage.py:11-25 | an entry is logged as invalid exactly when it does not validate, and then the graph is unchanged |
| MassEdgeStorage.Bulk | mass_edge_storage.py:8-25 | one log line per entry |
| MassEdgeStorage.SaveAllConversions | mass_edge_storage.py:3-27 | the loop never raises; the new graph and the log are exactly `Bulk` over the entries in order; a store of valid edges stays valid |
| MassEdgeStorage.BulkLogsInvalid | mass_edge_storage.py:11-17 | the entry at position i is logged as invalid exactly when it does not validate |
| MassEdgeStorage.BulkAppend | mass_edge_storage.py:8 | entries are processed in order: two runs are the first, then the second from the graph the first left |
| MassEdgeStorage.BulkSkipsInvalid | mass_edge_storage.py:11-17 | an invalid entry leaves the graph unchanged, and the entries after it are processed as if it were not there |
| MassEdgeStorage.BulkContinuesAfterFailure | mass_edge_storage.py:19-25 | a store that raises is logged and the batch goes on from the graph the failed store left |
| MassEdgeStorage.ValidRelations | mass_edge_storage.py:11-17 | the relations of the entries that validate, in order. `MassEdgeStorage.BulkIsFoldOverValid` states that these are exactly the relations that get stored |
| MassEdgeStorage.BulkIsFoldOverValid | mass_edge_storage.py:8-25 | the final graph is the store folded over the relations of the valid entries, in order |
| MassEdgeStorage.BulkKeepsNormalized | mass_edge_storage.py:8-25 | bulk storage adds edges only between normalized names |
| MassEdgeStorage.BulkKeepsEdges | mass_edge_storage.py:8-25 | bulk storage never removes an edge |
| MassEdgeStorage.SavedEntryIsFound | mass_edge_storage.py:11-25 | a valid entry whose forward session succeeds is found afterwards under its normalized unit names, with its formula |

## Left out

- The Neo4j driver, its sessions and Cypher: only the effect of `MERGE`/`SET` on a map is modelled. The `Unit` nodes are not modelled separately from the edges they join.
- sympy: `sympify`, `solve` and printing are the fields of a `Cas` record. Free symbols and substitution are computed over a small expression datatype with rational literals and integer exponents only.
- Floating point: values are exact reals, `float()` is a value or the `NotReal` error, and `math.isclose` with its tolerances is an abstract relation.
- Unicode case mapping: `lower()` is modelled for ASCII letters only. `isspace()` follows Python's set of white-space characters.
- `symbols(lhs_str)` is kept as the left-hand name; a left side that names several symbols is not modelled, nor are left sides that `symbols()` rejects because of its comma syntax (such as `,` or `a,,b`). Only an empty stripped left side is rejected.
- Edge property values and record fields are strings only; the other value types pydantic and Neo4j accept are not modelled.
- `ConversionRelation` validation: a record that lacks a declared field is rejected. Type errors in field values and entries that are not dictionaries are not modelled.
- The language-model components (`ExtractUnits`, `ConversionValidator`, `AskFormula`, `FormulaTestCaseGenerator`) are oracles: their answers and whether they raise are given, not computed. Which exception a component raised is not kept, only which component raised it.
- The scorer the agent calls is an oracle returning a score and the failed cases. `run_formula_tests` as written returns only the score.
- UserQuery.Learn: the store that follows an accepted round is taken after the loop. This is equivalent, because the source returns right after storing.
- The text of the feedback (Markdown), `console.print` and `print` logging: only the replaced feedback and its pass count are kept. The bulk log is one `Processed` value per entry.
- `save_all_conversions_async`: its concurrency is not modelled.
- The other files (`classification_agent.py`, `extract.py`, `generate_questions.py`, `training.py`, `timing.py`, `utils.py` and `cli.py`) are not part of this model.
