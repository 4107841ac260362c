# askalot_qml core, modelled in Dafny

askalot_qml reads a QML questionnaire: blocks of items, each with an
optional precondition, postconditions, a Python code block and an input
control. It turns the questionnaire into SMT constraints (z3) and reasons
about them, and at run time it steps a respondent through the items. This
project models the parts of that pipeline that decide outcomes, and proves
what each promises:

- **Expression compilers.** `PragmaticZ3Compiler` compiles a Python code
  block statement by statement into z3 equalities in static single
  assignment form: variables are named `item_target_gen`, `if` is compiled
  per branch and merged, and `for` loops are unrolled. `StaticBuilder`
  builds the questionnaire-wide SSA version map, the domain constraints B
  and the item dependency graph from preconditions. It also provides the
  `compile_conditions` that all the validators use.
- **Dependency topology.** `QMLTopology` builds the forward and reverse
  graphs, checks for cycles with an ordering formula handed to the solver,
  and records a cycle found by depth-first search. It computes Kahn's
  order with a min-heap on declaration index, undirected components,
  dependency layers and reachability.
- **Validation hierarchy.**
  - `ItemClassifier` labels each item's precondition ALWAYS, CONDITIONAL or
    NEVER, and its postcondition NONE, TAUTOLOGICAL, CONSTRAINING or
    INFEASIBLE.
  - `GlobalFormula` checks F = B ∧ ⋀ (P_i ⇒ Q_i) and localizes conflicts.
  - `PathBasedValidator` finds dead code under the accumulated path
    constraint of each item's predecessors.
- **Runtime navigation.** `FlowProcessor` and `QuestionnaireState` handle
  the navigation path, forward and backward moves, the visited, disabled
  and isLast flags, the history, and item processing with its
  postcondition check, code block and variable propagation. The model
  includes the exceptions raised while the item proxies are built and
  while `to_outcome()` writes their outcomes back, and compares stored
  outcomes with Python's `==`.
- **Outcome codecs and grids.**
  - `ItemProxy` decodes and encodes the stored outcome formats `{'_': v}`,
    `{'_i': v}` and `{'_r_c': v}`.
  - `Table` is the bounds-checked grid of a matrix question.
- **Small transformations.** `QMLLoader._flatten_questionnaire_structure`
  flattens blocks into one item list. `QMLDiagram` provides text helpers,
  the splice of a colouring section between markers, and the colouring
  tables.

The solver is a parameter `check: BoolTerm -> Answer` that answers
`Sat(model)`, `Unsat` or `Unknown`. Two predicates describe it:

- `Smt.SoundSolver`: `Unsat` means the formula has no model, and
  `Sat(m)` gives a model of it.
- `Conditions.DecidingSolver`: a sound solver that never answers
  `Unknown`.

Every property that depends on the solver says which of the two it
assumes. Satisfiability is a ghost existential over total models
(`Smt.Satisfiable`).

Where code that changes state in place is modelled, it is a class. Its
fields are the source object's fields, and its methods are proved to
produce exactly what a specification function computes from the old
state. The properties the source promises are lemmas about those
functions:

- compiler: `Pragmatic.Compiler`;
- builder: `Builder.StaticBuilder`;
- topology: `Topology.QMLTopology`;
- state and flow: `QuestionnaireStates.QuestionnaireState` and
  `Flows.FlowProcessor`;
- codecs and grid: `ItemProxies.ItemProxy` and `Tables.Table`.

Where the documentation of the source and its code disagree, the model
follows the code. For example, a solver `unknown` in the topology's cycle
check does not leave `has_cycles` false for good. Kahn's algorithm still
runs afterwards and sets it when it cannot schedule every item, so
`Topology.QMLTopology.constructor` proves `has_cycles` exact for every
sound solver. Likewise the compiler's `//` and `%` (and `//=`, `%=`) are
z3's `div` and `mod` as the code emits them (`Pragmatic.ArithAsWritten`).
They differ from Python's operators when the divisor is negative, which
"## Findings" records. The corrected arithmetic `Pragmatic.Arith` is
stated and proved beside it, but the compiler does not use it.

Files, one module each (`compiler_faithful.dfy` holds two):

| file | module | models |
|---|---|---|
| wrappers.dfy | Wrappers | `Option` and `Result` |
| smt.dfy | Smt | z3 terms, models, evaluation, the solver's answers |
| pyast.dfy | PyAst | the Python syntax QML code and conditions use, and `ast.walk` |
| json.dfy | Json | stored values; dictionaries as insertion-ordered key/value lists |
| strings.dfy | Strings | `str(n)`, `int(s)` and `_`-separated numbered names |
| compiler.dfy | Pragmatic | `PragmaticZ3Compiler`, as functions and as the class `Compiler` |
| compiler_props.dfy | PragmaticProps | properties of each statement and expression kind |
| compiler_faithful.dfy | PragmaticFaithful, PragmaticExamples | a reference Python interpreter, the value-faithfulness theorem, and worked examples from the unit tests |
| builder_terms.dfy | BuilderTerms | `_get_current_z3_var`, `_ast_to_z3`, `_ast_to_z3_bool` |
| builder_spec.dfy | BuilderSpec | the passes of `_build_internal` as functions |
| builder_props.dfy | BuilderProps | the invariant of the build and what it produces |
| builder_links.dfy | BuilderLinks | what the builder hands to the topology and the validators |
| builder.dfy | Builder | the class `StaticBuilder` |
| graph.dfy | Graphs | dependency graphs, walks, orderability |
| topology_order.dfy | TopologyOrder | the ordering formula, the heap, Kahn's algorithm |
| search.dfy | TopologySearch | the cycle DFS, BFS reachability, components |
| layers.dfy | TopologyLayers | dependency layers |
| topology.dfy | Topology | the class `QMLTopology` |
| conditions.dfy | Conditions | the compiled conditions the validators read |
| classifier.dfy | Classifier | `ItemClassifier` |
| global_formula.dfy | GlobalFormula | `GlobalFormula` |
| path_validation.dfy | PathValidation | `PathBasedValidator` |
| table.dfy | Tables | `Table` |
| item_proxy.dfy | ItemProxies | `ItemProxy` |
| questionnaire_state.dfy | QuestionnaireStates | `QuestionnaireState` |
| flow.dfy | Flows | `FlowProcessor` |
| loader.dfy | Loader | `_flatten_questionnaire_structure` |
| diagram.dfy | Diagram | the `QMLDiagram` helpers and colouring tables |

## Model

| member | source | states |
|---|---|---|
| Tables.Table.constructor | askalot_qml/models/table.py:9-14 | a new table has `rows` x `cols` cells (none for a negative size), every cell the default value, each row its own fresh list |
| Tables.Table.Get | askalot_qml/models/table.py:16-27 | `t[r, c]` is the cell exactly when both are in bounds, `t[i]` is the stored row itself exactly when `i` is a row index, anything else raises `IndexError` or `TypeError` as the source does |
| Tables.Table.Set | askalot_qml/models/table.py:29-37 | `t[r, c] = v` succeeds exactly for a pair in bounds and then changes that one cell; a single index raises `TypeError`, an out-of-range pair `IndexError`, and the cells stay as they were |
| Tables.Table.Row | askalot_qml/models/table.py:39-43 | `row(i)` is the stored row (the same list, not a copy) exactly when `i` is a row index, otherwise `IndexError` |
| Tables.Table.Column | askalot_qml/models/table.py:45-49 | `column(j)` holds, for every row, that row's cell `j`, exactly when `j` is a column index, otherwise `IndexError` |
| Tables.Table.Equals | askalot_qml/models/table.py:54-59 | `t == other` exactly when `other` is a table with the same row count, column count and cells |
| Tables.WriteThroughRow | askalot_qml/models/table.py:39-43 | a write into the row `row(i)` hands out changes cell `(i, j)` of the table and nothing else |
| Tables.SetThenGet | askalot_qml/models/table.py:29-37 | a cell written with `t[r, c] = v` reads back `v` through `t[r, c]`, and every other cell keeps its value |
| Tables.NewTableEquality | askalot_qml/models/table.py:54-59 | two tables built with the same shape and default compare equal |
| ItemProxies.GroupKeyParses | askalot_qml/models/item_proxy.py:72-82 | the key `_<i>` written for entry `i` is read back as index `i` |
| ItemProxies.GroupIndices | askalot_qml/models/item_proxy.py:72 | a number is listed exactly when some key is `_` followed by a digit string denoting it |
| ItemProxies.Max | askalot_qml/models/item_proxy.py:76 | `max(indices)` is one of the indices and no index exceeds it |
| ItemProxies.DecodeGroup | askalot_qml/models/item_proxy.py:71-84 | a group outcome without any `_<digits>` key raises `ValueError`; otherwise the list is one longer than the largest index (so the key of its last entry is present and no index falls outside it) and entry `i` is the value under `_<i>` or `None` |
| ItemProxies.GroupList | askalot_qml/models/item_proxy.py:77-83 | the fill loop produces, for each `i < size`, the value under `_<i>` when the key is present and `None` otherwise |
| ItemProxies.GroupIndicesOf | askalot_qml/models/item_proxy.py:72-76 | the index list is empty exactly when no key is a group key; otherwise its maximum is the index of some key and bounds every key's index |
| ItemProxies.EncodeGroupEntries | askalot_qml/models/item_proxy.py:162-166 | every entry of a stored group is an answered entry of the list under its own key `_<i>` |
| ItemProxies.EncodeGroupHas | askalot_qml/models/item_proxy.py:162-166 | every answered entry of the list is stored under its key |
| ItemProxies.EncodeGroupFreshKey | askalot_qml/models/item_proxy.py:163-165 | the key of an entry past the end of the list is not yet stored, so each write of the loop adds a new key |
| ItemProxies.GroupLookup | askalot_qml/models/item_proxy.py:162-166 | reading entry `i` of a stored group gives back the list's entry `i`, an unanswered one as `None` |
| ItemProxies.CellNameParses | askalot_qml/models/item_proxy.py:101-109 | the key `_<r>_<c>` written for a cell is read back as row `r` and column `c` |
| ItemProxies.Dims | askalot_qml/models/item_proxy.py:94-111 | the dimensions bound the row and column of every valid cell key, and each is 0 or the row (column) of some key |
| ItemProxies.LastForMeaning | askalot_qml/models/item_proxy.py:123-136 | a cell gets a value exactly when some entry names it, and then the value of an entry after which no entry names it (the last write wins) |
| ItemProxies.LastForFound | askalot_qml/models/item_proxy.py:123-136 | a cell is written exactly when some entry's key names it |
| ItemProxies.LastForAt | askalot_qml/models/item_proxy.py:123-136 | the value a cell ends with is that of an entry naming it with no later entry naming it |
| ItemProxies.DecodeMatrix | askalot_qml/models/item_proxy.py:93-138 | the table has one row past the largest row and one column past the largest column found (at least 1 x 1), every valid key lies inside it, and each cell holds the last value written to it or `None` |
| ItemProxies.EncodeRowEntries | askalot_qml/models/item_proxy.py:173-178 | every entry written for a row is an answered cell of that row under its key |
| ItemProxies.EncodeRowHas | askalot_qml/models/item_proxy.py:173-178 | every answered cell of a row is written under its key |
| ItemProxies.EncodeGridEntries | askalot_qml/models/item_proxy.py:171-179 | every entry of a stored grid is an answered cell under its key `_<r>_<c>` |
| ItemProxies.EncodeGridHas | askalot_qml/models/item_proxy.py:171-179 | every answered cell is stored under its key |
| ItemProxies.GridLookup | askalot_qml/models/item_proxy.py:171-179 | reading a cell of a stored grid gives back that cell, an unanswered one as `None` |
| ItemProxies.EncodeGridFreshKey | askalot_qml/models/item_proxy.py:172-178 | the key of the cell the loop visits next is not yet stored, so each write adds a new key |
| ItemProxies.Decode | askalot_qml/models/item_proxy.py:39-142 | per kind: a blank outcome of a question, group or matrix becomes `None`; a question takes `outcome['_']` or the value itself; a non-dictionary group or matrix outcome raises `AttributeError`; a group decodes as `DecodeGroup` says, a matrix as `DecodeMatrix`; any other kind stores a blank outcome as it is and leaves the attribute untouched otherwise |
| ItemProxies.EncodeQuestion | askalot_qml/models/item_proxy.py:154-157 | a question's stored form is `None` exactly when its answer is `None` |
| ItemProxies.Iterated | askalot_qml/models/item_proxy.py:163 | `enumerate` walks a list's elements, a string's characters or a dictionary's keys, and fails on anything else |
| ItemProxies.QuestionRoundTrip | askalot_qml/models/item_proxy.py:154-157 | a question's answer stored by `to_outcome` decodes back to the same answer |
| ItemProxies.EncodedGroupIndex | askalot_qml/models/item_proxy.py:162-166 | every key of a stored group is a group key naming an entry of the list |
| ItemProxies.GroupLength | askalot_qml/models/item_proxy.py:72-76 | a stored group whose last entry is answered decodes to a list of the same length |
| ItemProxies.DecodeEncodedGroup | askalot_qml/models/item_proxy.py:71-84 | decoding a stored group whose last entry is answered gives back the list |
| ItemProxies.GroupRoundTrip | askalot_qml/models/item_proxy.py:159-166 | a group list whose last entry is answered survives `to_outcome` followed by `from_outcome` |
| ItemProxies.GroupTrailingUnanswered | askalot_qml/models/item_proxy.py:163-165 | an unanswered entry at the end of a list is not stored |
| ItemProxies.GroupUnanswered | askalot_qml/models/item_proxy.py:67-69 | a list without an answered entry stores `{}`, which decodes to `None` |
| ItemProxies.NonCanonicalGroupKey | askalot_qml/models/item_proxy.py:72-82 | a key spelled with a leading zero (`_01`) makes the list two long but its value is not read |
| ItemProxies.EncodedCellKey | askalot_qml/models/item_proxy.py:171-178 | every key of a stored grid names a cell inside the grid |
| ItemProxies.GridShape | askalot_qml/models/item_proxy.py:94-119 | a stored grid whose last row and last column each hold an answer decodes to a table of the same shape |
| ItemProxies.DimsLower | askalot_qml/models/item_proxy.py:110-111 | every answered cell lies within the dimensions read from the stored grid |
| ItemProxies.DimsUpper | askalot_qml/models/item_proxy.py:94-111 | the dimensions read from a stored grid lie within the grid |
| ItemProxies.DecodeEncodedGrid | askalot_qml/models/item_proxy.py:93-138 | decoding a stored grid whose last row and last column each hold an answer gives back its shape and cells |
| ItemProxies.GridRoundTrip | askalot_qml/models/item_proxy.py:168-179 | such a grid survives `to_outcome` followed by `from_outcome` as a table of the same shape and cells |
| ItemProxies.MatrixWithoutCellKeys | askalot_qml/models/item_proxy.py:113-120 | a non-empty matrix outcome without a single `_<r>_<c>` key becomes a 1 x 1 table holding `None` (the `not outcome` test never fires there) |
| ItemProxies.ExampleCellKeys | askalot_qml/models/item_proxy.py:101-109 | `_1_0` and `_01_0` both name cell `(1, 0)` |
| ItemProxies.LaterSpellingWins | askalot_qml/models/item_proxy.py:123-136 | of two spellings of one cell, the later entry in dictionary order decides its value |
| ItemProxies.CopyProps | askalot_qml/models/item_proxy.py:21-23 | a property is copied exactly when it is listed and the configuration has it, with the configuration's value |
| ItemProxies.InputProps | askalot_qml/models/item_proxy.py:16-34 | the input properties are exactly the listed settings, `labels` and `control` that the configuration has, with their values |
| ItemProxies.ItemProxy.Init | askalot_qml/models/item_proxy.py:11-13 | `id`, `raw_outcome` and `kind` are read from the item, nothing decoded yet |
| ItemProxies.ItemProxy.FromOutcome | askalot_qml/models/item_proxy.py:39-142 | `outcome` becomes what `Decode` gives, or stays as it was when the kind keeps it; an error is raised exactly when `Decode` fails, with its exception, and leaves `outcome` unchanged; a matrix outcome becomes a fresh table with `Decode`'s shape and cells |
| ItemProxies.ItemProxy.ExtractInput | askalot_qml/models/item_proxy.py:16-34 | the input properties become `InputProps` of the configuration; a configuration that is not a dictionary fails with `TypeError` and changes nothing |
| ItemProxies.ItemProxy.ToOutcome | askalot_qml/models/item_proxy.py:146-181 | per kind: a question stores `{'_': v}` or `None`; a group stores its answered entries under `_<i>`, `None` for `None`, and fails on a value `enumerate` rejects; a matrix stores its answered cells or `None` when the outcome is no table; any other kind returns its outcome |
| ItemProxies.MatrixShape | askalot_qml/models/item_proxy.py:94-111 | the first loop finds the dimensions `Dims` describes |
| ItemProxies.CopyEach | askalot_qml/models/item_proxy.py:21-23 | the loop copies exactly the listed properties the configuration has |
| ItemProxies.CollectProps | askalot_qml/models/item_proxy.py:20-34 | the constructor's copying yields `InputProps` of the configuration |
| ItemProxies.PlaceEntry | askalot_qml/models/item_proxy.py:127-136 | `table[row, col] = value` for a valid key changes that cell only; any other key changes nothing |
| ItemProxies.MatrixFromDict | askalot_qml/models/item_proxy.py:117-138 | the matrix branch builds a fresh table whose shape and cells are those of `DecodeMatrix` |
| ItemProxies.FillCells | askalot_qml/models/item_proxy.py:123-136 | after the second loop every cell holds the last value written to it, or still `None` |
| ItemProxies.MatrixToDict | askalot_qml/models/item_proxy.py:171-179 | the matrix branch of `to_outcome` produces the stored grid of the table's cells |
| ItemProxies.RowToDict | askalot_qml/models/item_proxy.py:173-178 | the inner loop appends the answered cells of one row under their keys |
| ItemProxies.RowStep | askalot_qml/models/item_proxy.py:174-178 | writing an answered cell appends its key last, so the loop's dictionary stays the stored grid so far |
| ItemProxies.NewProxy | askalot_qml/models/item_proxy.py:10-34 | building a proxy fails exactly when decoding the stored outcome fails or reading the input configuration raises, with the error of the decoding first; otherwise its attributes are read from the item, its outcome is the decoded stored outcome (unset, a value, or a fresh table of the decoded cells) and its input properties are `InputProps` |
| ItemProxies.StoredOutcome | askalot_qml/models/item_proxy.py:146-181 | `to_outcome()` of the proxy built from an item, after `from_outcome` of the submitted value if any: a question stores `{'_': answer}`, a group the `_i` dictionary of its list or `None`, a matrix the cell dictionary or `None`, any other kind its blank outcome, the kept blank stored one, or `AttributeError` when no outcome was ever set |
| ItemProxies.StoredQuestionDecodesBack | askalot_qml/models/item_proxy.py:39-181 | a question's stored outcome decodes back to the value it was built from |
| ItemProxies.StoredGroupDecodesBack | askalot_qml/models/item_proxy.py:39-181 | a question group's stored outcome decodes back to its list when the list is non-empty and does not end in `None` |
| ItemProxies.Hold | askalot_qml/models/item_proxy.py:39-140 | no contract of its own beyond this: only a matrix question or an earlier grid yields a grid; what `from_outcome` leaves in the proxy's outcome |
| ItemProxies.Storage | askalot_qml/models/item_proxy.py:146-181 | no contract of its own: the storage form of what a proxy holds; its meaning is stated by `ItemProxies.StoredOutcome` |
| ItemProxies.InputConfig | askalot_qml/models/item_proxy.py:18-34 | a missing `input` gives no properties and a dictionary is used as it is; a string raises `TypeError` exactly when some property name is a substring of it, a list exactly when some property name is an element of it, and any other value always raises `TypeError` |
| ItemProxies.StringInputConfig | askalot_qml/models/item_proxy.py:21-34 | the setting `"x"` gives no properties, while `"minimal"` contains `min` and raises `TypeError` |
| QuestionnaireStates.ItemIndex | askalot_qml/models/questionnaire_state.py:156-159 | the item found has the id and no earlier item has it; nothing is found exactly when no item has it |
| QuestionnaireStates.StripRuntime | askalot_qml/models/questionnaire_state.py:247-250 | an item loses `outcome`, `visited`, `disabled` and `context` and keeps every other field |
| QuestionnaireStates.StripItems | askalot_qml/models/questionnaire_state.py:245-250 | the loop strips the runtime fields of every item and keeps their number and order |
| QuestionnaireStates.Visit | askalot_qml/models/questionnaire_state.py:204-207 | the visited list afterwards holds the old ids and the new one, extends the old list, and stays free of duplicates |
| QuestionnaireStates.VisitIdempotent | askalot_qml/models/questionnaire_state.py:206-207 | visiting an id twice leaves the list as visiting it once |
| QuestionnaireStates.QuestionnaireState.constructor | askalot_qml/models/questionnaire_state.py:81-96 | every required key the saved state lacks gets its default (empty lists, empty variables, no diagram) and every key it has keeps its value |
| QuestionnaireStates.QuestionnaireState.GetItem | askalot_qml/models/questionnaire_state.py:146-159 | the search returns the first item with the id, or nothing |
| QuestionnaireStates.QuestionnaireState.AddToHistory | askalot_qml/models/questionnaire_state.py:180-189 | the id is appended to the history, duplicates included, and nothing else changes |
| QuestionnaireStates.QuestionnaireState.AddToVisited | askalot_qml/models/questionnaire_state.py:196-207 | the visited list becomes `Visit` of the old one (appended only when new) and nothing else changes |
| QuestionnaireStates.QuestionnaireState.Reset | askalot_qml/models/questionnaire_state.py:217-250 | history, visited items and warnings are emptied, the navigation path and cached diagram removed, every item stripped of its runtime fields, and blocks, variables, current item and init code kept |
| QuestionnaireStates.QuestionnaireState.SetCurrentItem | askalot_qml/models/questionnaire_state.py:252-259 | the current item becomes the id and nothing else changes |
| QuestionnaireStates.QuestionnaireState.SetNavigationPath | askalot_qml/models/questionnaire_state.py:266-277 | `get_navigation_path()` returns the path afterwards and nothing else changes |
| QuestionnaireStates.QuestionnaireState.AddWarning | askalot_qml/models/questionnaire_state.py:280-307 | exactly one warning record with the item, type and message is appended, `has_warnings()` then holds, and nothing else changes |
| QuestionnaireStates.QuestionnaireState.SetItemField | askalot_qml/models/questionnaire_state.py:146-159 | writing a field of the item found by `get_item` changes that field of that item only |
| QuestionnaireStates.ItemIndexFirst | askalot_qml/models/questionnaire_state.py:156-158 | an item with the id and none before it is the one found |
| QuestionnaireStates.ItemIndexNone | askalot_qml/models/questionnaire_state.py:159 | without an item with the id nothing is found |
| Flows.EvalWarnings | askalot_qml/core/flow_processor.py:125-143 | at most one warning, recorded exactly when the expression is non-empty, its evaluation raised and an item id was given |
| Flows.FirstFailing | askalot_qml/core/flow_processor.py:261-268 | the condition found is the first whose predicate does not hold, all before it hold, and nothing is found only when every condition holds |
| Flows.Warned | askalot_qml/core/flow_processor.py:261-268 | evaluating conditions records at most one warning per condition |
| Flows.WarnedStep | askalot_qml/core/flow_processor.py:261-268 | one more evaluated condition appends its own warnings to those recorded so far |
| Flows.PreconditionCheckMeaning | askalot_qml/core/flow_processor.py:249-270 | an item may be shown exactly when it has no precondition list or no predicate in it is non-empty and evaluates to false (raising counts as true) |
| Flows.ScanStep | askalot_qml/core/flow_processor.py:352-374 | the scan from path position `k` is one entry's step followed, unless it stopped, by the scan of the rest |
| Flows.ResumesStep | askalot_qml/core/flow_processor.py:352-374 | one pass of the forward loop either stops where the whole scan stops or leaves the rest of the scan to go |
| Flows.ResumesEnd | askalot_qml/core/flow_processor.py:352-376 | a scan that reaches the end of the path finds nothing and changes nothing more |
| Flows.DisableKeeps | askalot_qml/core/flow_processor.py:374 | disabling an item sets `disabled` and keeps every other field |
| Flows.ScanFacts | askalot_qml/core/flow_processor.py:352-374 | the scan only disables items that were neither disabled nor visited, never changes `visited`; the item it finds has an id on the path, was open and has its preconditions satisfied; and when it raises, the error is that of the precondition check of an open item |
| Flows.OneFacts | askalot_qml/core/flow_processor.py:353-374 | one path entry disables at most an open item and stops only at an open item, with that id and satisfied preconditions, changing nothing |
| Flows.ScanKeepsFlags | askalot_qml/core/flow_processor.py:352-374 | the scan never clears `disabled` and never changes `visited` |
| Flows.LastDone | askalot_qml/core/flow_processor.py:344-349 | the item chosen when every path item is done is visited and not disabled |
| Flows.LastVisited | askalot_qml/core/flow_processor.py:377-383 | the fallback item is the last visited item in declaration order; nothing is chosen only when no item is visited |
| Flows.Backward | askalot_qml/core/flow_processor.py:303-328 | an empty history returns nothing and changes nothing; otherwise the last history entry is popped |
| Flows.MarkLastKeepsDisabled | askalot_qml/core/flow_processor.py:347 | setting `isLast` never changes a `disabled` flag |
| Flows.BackwardNeverEnables | askalot_qml/core/flow_processor.py:303-328 | going back never clears a `disabled` flag |
| Flows.ForwardNeverEnables | askalot_qml/core/flow_processor.py:331-383 | going forward never clears a `disabled` flag |
| Flows.NavigationNeverEnables | askalot_qml/core/flow_processor.py:272-383 | no navigation, forward or backward, clears a `disabled` flag |
| Flows.ForwardFinds | askalot_qml/core/flow_processor.py:351-371 | when some path item is still open and the scan stops, the item returned is on the path, was neither disabled nor visited, has satisfied preconditions, and its id is added to the history exactly when absent |
| Flows.ForwardRaises | askalot_qml/core/flow_processor.py:351-374 | going forward raises only from the precondition check of an open item; it then returns no item and leaves the history alone |
| Flows.NonProxy | askalot_qml/core/flow_processor.py:470 | the variables kept from a context never carry the id of an item |
| Json.PyEq | askalot_qml/core/flow_processor.py:461 | no contract of its own: Python `==` on outcomes, comparing dictionaries by key regardless of order and with `1 == True`, `0 == False`; its properties are stated by `Json.PyEqReflexive`, `Json.PyEqSymmetric` and `Json.PyEqIgnoresOrder` |
| Json.PyEqReflexive | askalot_qml/core/flow_processor.py:461 | every outcome whose dictionaries have distinct keys is equal to itself |
| Json.PyEqSymmetric | askalot_qml/core/flow_processor.py:461 | the equality is symmetric on outcomes whose dictionaries have distinct keys |
| Json.PyEqIgnoresOrder | askalot_qml/core/flow_processor.py:461 | `{"_1": 2, "_0": 1}` and `{"_0": 1, "_1": 2}` are different values and equal outcomes |
| Flows.Outcomes | askalot_qml/core/flow_processor.py:455-464 | the items before the first whose proxy's `to_outcome()` raises go through the outcome update with what it returns, compared with the stored outcome by Python's `==`; that item and the later ones are left as they are and its exception is reported; order and number kept |
| Flows.WriteBack | askalot_qml/core/flow_processor.py:455-464 | an item loop writing each proxy's `to_outcome()` into its item stops at the first one that raises: the items before it are written, it and the later ones are kept, and its exception is reported |
| Flows.FirstRaising | askalot_qml/core/flow_processor.py:455-459 | the position of the first item whose `to_outcome()` raises, or the number of items: every earlier one returns a value |
| Flows.OutcomesStop | askalot_qml/core/flow_processor.py:455-464 | the outcome loop stopping at the first raising `to_outcome()`, or at the end, leaves the items and the exception that `Outcomes` gives |
| Flows.WriteOutcomes | askalot_qml/core/flow_processor.py:455-464 | the outcome loop over the items gives exactly the items and the exception of `Outcomes` |
| Flows.StoredOf | askalot_qml/core/flow_processor.py:418-459 | no contract of its own: `to_outcome()` of the proxy built from an item, with the submitted outcome decoded by the proxy of the processed id; its meaning is stated by `ItemProxies.StoredOutcome` |
| Flows.Propagation | askalot_qml/core/flow_processor.py:471-479 | every item goes through the propagation step at its position, order and number kept |
| Flows.ApplyAt | askalot_qml/core/flow_processor.py:456-479 | each item keeps `disabled`; an item before the first whose `to_outcome()` raises stores its proxy's outcome unless that is equal by Python's `==` to the old one, and an item from there on keeps its outcome; the processed item becomes visited, a changed non-`None` outcome comes with `visited`, and items up to the processed one keep their context |
| Flows.UpdatedFacts | askalot_qml/core/flow_processor.py:461-464 | an outcome equal to the stored one by Python's `==` leaves the item as it is; any other is stored and, unless `None`, marks the item visited; `disabled` and `context` are kept |
| Flows.UpdatedSameOutcome | askalot_qml/core/flow_processor.py:456-464 | writing back the outcome an item already stores changes nothing, whatever the key order |
| Flows.MarkVisitedFacts | askalot_qml/core/flow_processor.py:467 | marking visited keeps `disabled`, `context` and `outcome` |
| Flows.PropagatedFacts | askalot_qml/core/flow_processor.py:478-479 | propagation keeps `disabled`, `visited` and `outcome` |
| Flows.ProcessRejected | askalot_qml/core/flow_processor.py:430-442 | a failing postcondition ends processing with its hint and the items unchanged |
| Flows.ProcessDone | askalot_qml/core/flow_processor.py:444-486 | past the postconditions, processing either is aborted with the first exception a `to_outcome()` raises, keeping the items as the outcome loop left them, or reports the captured output and applies the code block's outcomes and variables |
| Flows.PostCheck | askalot_qml/core/flow_processor.py:430-442 | skipping records nothing and rejects nothing; otherwise a hint is returned exactly when some postcondition fails |
| Flows.ProcessRejects | askalot_qml/core/flow_processor.py:409-442 | an unknown id, an exception while the context is built or a failing postcondition changes no item; "not found" is reported exactly when no item has the id, and the exception exactly when the id is known and building the context raises, with no warning |
| Flows.ProcessFacts | askalot_qml/core/flow_processor.py:456-479 | after processing, no `disabled` flag has changed; on success the item is visited and items up to it keep their context; on success or an abort every changed non-`None` outcome is visited |
| Flows.ProcessStores | askalot_qml/core/flow_processor.py:444-467 | a known item without a code block whose postconditions pass: when some item's `to_outcome()` raises, processing is aborted with the first such exception; otherwise it is done and the item is visited |
| Flows.ProcessStoresOutcome | askalot_qml/core/flow_processor.py:444-464 | in that case every item before the first raising `to_outcome()` stores what its proxy stores, the processed item's proxy having decoded the submitted value, unless that equals the old outcome by Python's `==` |
| Flows.ProcessStoresAnswer | askalot_qml/core/flow_processor.py:444-467 | a question answered with a plain value, without a code block and with no `to_outcome()` raising: processing is done, the item is visited and stores `{'_': value}` unless that equals the old outcome by Python's `==`, and that stored form decodes back to the value |
| Flows.InitPath | askalot_qml/core/flow_processor.py:189-197 | without a usable topological order the stored path has one entry per item |
| Flows.InitItems | askalot_qml/core/flow_processor.py:219-232 | the items before the first whose proxy's `to_outcome()` raises take what it returns as their outcome, are not visited and get the variables as their context; that item and the later ones are left as they are and its exception is reported; order and number kept |
| Flows.InitItem | askalot_qml/core/flow_processor.py:222-232 | no contract of its own: one item after initialization; its meaning is stated by `Flows.InitItemFacts` |
| Flows.InitItemFacts | askalot_qml/core/flow_processor.py:222-232 | an initialized item has its outcome, is not visited, has the variables as its context, and keeps every other field |
| Flows.InitItemsStop | askalot_qml/core/flow_processor.py:218-232 | the initialization loop stopping at the first raising `to_outcome()`, or at the end, leaves the items and the exception that `InitItems` gives |
| Flows.WriteInitItems | askalot_qml/core/flow_processor.py:218-232 | the initialization loop over the items gives exactly the items and the exception of `InitItems` |
| Flows.InitRun | askalot_qml/core/flow_processor.py:213-232 | no contract of its own: the init code's variables and outcomes, or none and what the proxies built from the items store; its effect is stated by `Flows.InitStores` and `Flows.FlowProcessor.Initialize` |
| Flows.InitStores | askalot_qml/core/flow_processor.py:205-232 | without init code there are no variables; each item before the first whose `to_outcome()` raises gets the storage form of its own outcome, is not visited and gets an empty context, and the first exception is reported; a question's stored outcome decodes to the same answer as before |
| Flows.ProxyFailure | askalot_qml/models/item_proxy.py:10-34 | a proxy is built without raising exactly when the stored outcome decodes and the input configuration can be read |
| Flows.ProxiesFailure | askalot_qml/core/flow_processor.py:421-425 | a proxy loop raises nothing exactly when no pass of it raises |
| Flows.FirstFailure | askalot_qml/core/flow_processor.py:421-425 | the loop raises the error of its first failing pass |
| Flows.ContextFailure | askalot_qml/core/flow_processor.py:254-257 | storing the proxies into a dictionary raises what the proxy loop raises; into anything else, the first proxy's error or else `TypeError`; no items, no error |
| Flows.PreconditionFailure | askalot_qml/core/flow_processor.py:249-257 | the precondition check raises only for an item with a precondition list, and then what building its context raises |
| Flows.ProcessFailure | askalot_qml/core/flow_processor.py:418-425 | processing raises `KeyError` when the item has no `context`, else what storing the proxies, with the submitted outcome decoded by the processed item's proxy, into a copy of it raises |
| Flows.GroupWithoutIndicesCrashes | askalot_qml/core/flow_processor.py:421-424 | submitting `{"x": 1}` for a question group raises `ValueError` and leaves the items as they were |
| Flows.BuildProxies | askalot_qml/core/flow_processor.py:421-425 | the proxy loop raises exactly what `ProxiesFailure` says |
| Flows.BuildContext | askalot_qml/core/flow_processor.py:254-257 | storing the proxies into the context copy raises exactly what `ContextFailure` says |
| Flows.FlowPath | askalot_qml/core/flow_processor.py:495-500 | with cycles the path is the item list; without, it is the topological order when that is non-empty |
| Flows.FlowProcessor.constructor | askalot_qml/core/flow_processor.py:70-94 | a stored navigation path leaves the items alone; without it the path is initialized and the items too, keeping the error of the proxy loop, which leaves the items alone, or else that of the first raising `to_outcome()`, which leaves the items before it initialized; history and warnings are kept |
| Flows.FlowProcessor.EvaluateCondition | askalot_qml/core/flow_processor.py:96-143 | the verdict is `Holds` (empty or raising means true) and only its warning is appended |
| Flows.FlowProcessor.EvaluateAll | askalot_qml/core/flow_processor.py:261-268 | the loop stops at the first failing condition and appends the warnings of the conditions it evaluated |
| Flows.FlowProcessor.CheckPreconditions | askalot_qml/core/flow_processor.py:234-270 | the result is the error of building the context (`PreconditionFailure`) or else the verdict of `PreconditionCheck`, whose warnings are appended; no item changes |
| Flows.FlowProcessor.MarkLastDone | askalot_qml/core/flow_processor.py:344-349 | the reverse loop picks `LastDone` and only that item gets `isLast` |
| Flows.FlowProcessor.ScanEntry | askalot_qml/core/flow_processor.py:353-374 | one pass of the forward loop does what `ScanOne` says |
| Flows.FlowProcessor.ScanForward | askalot_qml/core/flow_processor.py:352-374 | the forward loop does what `ScanPath` says |
| Flows.FlowProcessor.GetCurrentItem | askalot_qml/core/flow_processor.py:272-383 | the item returned, the exception raised and the new items, history and warnings are those of `Backward` or `Forward` |
| Flows.FlowProcessor.GoBack | askalot_qml/core/flow_processor.py:303-328 | the backward branch does what `Backward` says |
| Flows.FlowProcessor.ProcessItem | askalot_qml/core/flow_processor.py:385-486 | the result, the new items and the appended warnings are those of `Process`, including the exception it raises and the abort on a raising `to_outcome()` |
| Flows.FlowProcessor.FinishItem | askalot_qml/core/flow_processor.py:444-486 | the code block runs; when a `to_outcome()` raises its exception is returned and the items are those the outcome loop left, and otherwise the items become `Apply` of its context and outcomes |
| Flows.FlowProcessor.CheckPostconditions | askalot_qml/core/flow_processor.py:430-442 | the rejection and the warnings are those of `PostCheck`, and no item changes |
| Flows.FlowProcessor.ExecuteCodeBlock | askalot_qml/core/flow_processor.py:145-178 | the context and outcomes are the runner's, or the unchanged context and what the proxies store when there is no code or it raised, with a warning only in that case |
| Flows.FlowProcessor.ApplyProcessing | askalot_qml/core/flow_processor.py:456-479 | the first exception a `to_outcome()` raises is returned with the items the outcome loop left; otherwise the items become `Apply` of the old ones |
| Flows.FlowProcessor.UpdateOutcomes | askalot_qml/core/flow_processor.py:456-464 | the items and the exception returned are those of `Outcomes` of the old items |
| Flows.FlowProcessor.PropagateVariables | askalot_qml/core/flow_processor.py:470-479 | the items become `Propagation` of the old ones |
| Flows.FlowProcessor.Initialize | askalot_qml/core/flow_processor.py:180-232 | the navigation path becomes `InitPath`; the proxy loop's error is returned and leaves the items alone; without one, the items and the error are those of `InitItems` of the init code's run |
| Flows.FlowProcessor.StoreInitPath | askalot_qml/core/flow_processor.py:188-197 | the navigation path becomes `InitPath` and nothing else changes |
| Flows.FlowProcessor.InitializeItems | askalot_qml/core/flow_processor.py:219-232 | the items and the exception returned are those of `InitItems` of the old items |
| Flows.PropagateInto | askalot_qml/core/flow_processor.py:478-479 | the context gets every variable written into it in order |
| Flows.PropagateAt | askalot_qml/core/flow_processor.py:472-479 | one pass of the loop does what `PropagatedAt` says |
| Flows.PutAllMeaning | askalot_qml/core/flow_processor.py:478-479 | after the writes, a variable's name holds its last written value and every other key its old value |
| Flows.FirstFailingNone | askalot_qml/core/flow_processor.py:261-270 | when every condition holds none is reported failing |
| Flows.AllHoldStep | askalot_qml/core/flow_processor.py:261-268 | a holding condition extends the prefix of holding ones |
| Flows.FirstFailingAt | askalot_qml/core/flow_processor.py:261-268 | the first condition that fails after a holding prefix is the one reported |
| Flows.Holds | askalot_qml/core/flow_processor.py:96-143 | no contract of its own: the truth of one condition, an empty or raising one counting as true; its meaning is stated by `Flows.FlowProcessor.EvaluateCondition` and `Flows.PreconditionCheckMeaning` |
| Flows.PreconditionCheck | askalot_qml/core/flow_processor.py:234-270 | no contract of its own: the verdict and warnings of `_check_preconditions`; its meaning is stated by `Flows.PreconditionCheckMeaning` and `Flows.FlowProcessor.CheckPreconditions` |
| Flows.ScanOne | askalot_qml/core/flow_processor.py:353-374 | keeps the number of items, and a raising precondition check stops nothing, changes nothing and warns nothing; the rest is stated by `Flows.OneFacts` |
| Flows.ScanPath | askalot_qml/core/flow_processor.py:352-374 | keeps the number of items and finds nothing when the scan raises; the rest is stated by `Flows.ScanFacts`, `Flows.ScanStep` and `Flows.ScanKeepsFlags` |
| Flows.Forward | askalot_qml/core/flow_processor.py:331-383 | keeps the number of items; what it returns is stated by `Flows.ForwardFinds`, `Flows.ForwardRaises`, `Flows.ForwardNeverEnables`, `Flows.LastDone` and `Flows.LastVisited` |
| Flows.Submitted | askalot_qml/core/flow_processor.py:421-425 | keeps the number of items; no contract of its own beyond that, the submitted outcome being what the processed item's proxy decodes in `Flows.ProcessFailure` |
| Flows.Updated | askalot_qml/core/flow_processor.py:456-464 | no contract of its own: the outcome update of one item; its meaning is stated by `Flows.UpdatedFacts` and `Flows.UpdatedSameOutcome` |
| Flows.AfterCode | askalot_qml/core/flow_processor.py:444-455 | no contract of its own: the context and outcomes after the code block, or the context and what the proxies store when there is no code or it raised; its meaning is stated by `Flows.FlowProcessor.ExecuteCodeBlock`, `Flows.FlowProcessor.FinishItem` and `Flows.ProcessStores` |
| Flows.Apply | askalot_qml/core/flow_processor.py:456-479 | keeps the number of items; what happens to each is stated by `Flows.ApplyAt` |
| Flows.Process | askalot_qml/core/flow_processor.py:385-486 | keeps the number of items; the outcomes are stated by `Flows.ProcessRejects`, `Flows.ProcessRejected`, `Flows.ProcessDone`, `Flows.ProcessFacts`, `Flows.ProcessStores` and `Flows.ProcessStoresOutcome` |
| Loader.Elements | askalot_qml/core/qml_loader.py:227 | a list iterates as its elements, a string as one entry per character, a dictionary as one per key; iterating `None`, a number or a boolean fails |
| Loader.ItemCopy | askalot_qml/core/qml_loader.py:235 | a dictionary is copied as it is; only an empty string or an empty list also give a (blank) copy, everything else fails |
| Loader.TaggedAllSnoc | askalot_qml/core/qml_loader.py:233-237 | one more tagged item extends the tagged list of the items so far |
| Loader.TagItemsFacts | askalot_qml/core/qml_loader.py:233-237 | a successful inner loop copies every item of the block, in order, each tagged with the block's id, and a non-empty block must have an id |
| Loader.TaggedFields | askalot_qml/core/qml_loader.py:235-236 | a flattened item carries `blockId` and every other field of the original item |
| Loader.MetadataSnoc | askalot_qml/core/qml_loader.py:229-230 | one more block's metadata extends the metadata of the blocks so far |
| Loader.BlockEntriesCount | askalot_qml/core/qml_loader.py:233-237 | a block contributes one flat item per item it holds |
| Loader.FlattenBlocksShape | askalot_qml/core/qml_loader.py:227-237 | every block keeps its place and loses only `items`, and the flat list is as long as all blocks' items together |
| Loader.FlattenBlocksPrefix | askalot_qml/core/qml_loader.py:227-237 | flattening a prefix of the blocks succeeds and yields prefixes of the whole's two lists |
| Loader.BlockSlice | askalot_qml/core/qml_loader.py:227-237 | the items of block `k`, tagged in their order, sit in the flat list right after those of the blocks before it |
| Loader.FlattenKeeps | askalot_qml/core/qml_loader.py:221-247 | the result's `blocks` and `items` are the flattened lists and every other top-level key keeps its value |
| Loader.FlattenNoBlocks | askalot_qml/core/qml_loader.py:227-241 | a questionnaire without `blocks` gets empty `blocks` and `items` |
| Loader.TagItemsSticky | askalot_qml/core/qml_loader.py:233-237 | once an item fails, the later items do not change the error |
| Loader.FlattenBlocksSticky | askalot_qml/core/qml_loader.py:227-237 | once a block fails, the later blocks do not change the error |
| Loader.FlattenQuestionnaireStructure | askalot_qml/core/qml_loader.py:203-247 | the two nested loops compute `Flatten`, the error cases included |
| Loader.BlockItems | askalot_qml/core/qml_loader.py:233-237 | one block's inner loop computes its tagged entries, a missing `items` counting as empty |
| Loader.TagBlockItems | askalot_qml/core/qml_loader.py:233-237 | the inner loop computes `TagItems` of the block's items and id |
| Conditions.DecidingUnsat | askalot_qml/z3/item_classifier.py:73-79 | for a solver that never answers unknown, `unsat` means exactly that the formula has no model |
| Conditions.UnsatNegEntails | askalot_qml/z3/item_classifier.py:68 | an unsatisfiable B ∧ ¬P means every model of B satisfies P |
| Conditions.UnsatWithMore | askalot_qml/z3/item_classifier.py:118-120 | an unsatisfiable B ∧ P stays unsatisfiable with a third conjunct, which is why a vacuous item is tautological |
| Classifier.ClassifyItem | askalot_qml/z3/item_classifier.py:39-151 | an unknown id gets the UNKNOWN record; otherwise `vacuous` holds exactly for NEVER, an item without postconditions gets NONE and no global flags, and a vacuous item with postconditions is TAUTOLOGICAL |
| Classifier.ClassifyAll | askalot_qml/z3/item_classifier.py:153-159 | the result has an entry exactly for each id of the item order, each the item's own classification |
| Classifier.PreStatusOf | askalot_qml/z3/item_classifier.py:66-86 | never UNKNOWN; with a sound solver ALWAYS means B entails P and NEVER that B ∧ P has no model; with a deciding solver CONDITIONAL holds exactly when B ∧ P and B ∧ ¬P both have models |
| Classifier.PostInvariantOf | askalot_qml/z3/item_classifier.py:88-120 | never UNKNOWN; NONE exactly without postconditions; a vacuous item is TAUTOLOGICAL; with a sound solver a non-vacuous TAUTOLOGICAL means B ∧ P ∧ ¬Q has no model and INFEASIBLE that B ∧ P ∧ Q has none; with a deciding solver CONSTRAINING holds exactly when both have models |
| Classifier.StatusSound | askalot_qml/z3/item_classifier.py:66-86 | ALWAYS means B entails P and NEVER means B ∧ P has no model |
| Classifier.StatusExact | askalot_qml/z3/item_classifier.py:66-86 | with a solver that never answers unknown, each of ALWAYS, NEVER and CONDITIONAL holds exactly when its semantic condition does |
| Classifier.NoPreconditionAlways | askalot_qml/z3/item_classifier.py:59-86 | an item whose precondition compiles to `True` is ALWAYS |
| Classifier.TautologicalSound | askalot_qml/z3/item_classifier.py:95-120 | TAUTOLOGICAL, by the solver or by vacuity, means B ∧ P ∧ ¬Q has no model |
| Classifier.InfeasibleSound | askalot_qml/z3/item_classifier.py:101-117 | INFEASIBLE comes only for an item not NEVER and means B ∧ P ∧ Q has no model |
| Classifier.ConstrainingExact | askalot_qml/z3/item_classifier.py:88-117 | with a deciding solver, a reachable item with postconditions is CONSTRAINING exactly when both B ∧ P ∧ ¬Q and B ∧ P ∧ Q have models |
| Classifier.GlobalFlagsSound | askalot_qml/z3/item_classifier.py:122-139 | `q_globally_false` means B ∧ Q has no model and `q_globally_true` means B entails Q |
| GlobalFormula.ImplicationsMeaning | askalot_qml/z3/global_formula.py:76-90 | the collected implications all hold in a model exactly when every item with details that satisfies its precondition satisfies its postcondition |
| GlobalFormula.Implications | askalot_qml/z3/global_formula.py:76-90 | no contract of its own; its meaning is stated by `GlobalFormula.ImplicationsMeaning` and `GlobalFormula.CollectImplications` |
| GlobalFormula.Formula | askalot_qml/z3/global_formula.py:69-95 | no contract of its own; its meaning is stated by `GlobalFormula.FormulaMeaning` |
| GlobalFormula.FormulaMeaning | askalot_qml/z3/global_formula.py:69-95 | F holds exactly in the models of B in which every item's precondition implies its postcondition |
| GlobalFormula.OutcomeKeyInjective | askalot_qml/z3/global_formula.py:138 | distinct item ids give distinct `"{id}.outcome"` keys |
| GlobalFormula.WitnessUnique | askalot_qml/z3/global_formula.py:132-150 | the witness is fully determined by the item ids, the SSA names and the model |
| GlobalFormula.WitnessOf | askalot_qml/z3/global_formula.py:132-150 | no contract of its own: what a witness is; `GlobalFormula.WitnessUnique` shows it determines the witness and `GlobalFormula.ExtractWitness` builds it |
| GlobalFormula.ExtractWitness | askalot_qml/z3/global_formula.py:122-150 | the witness has one `"{id}.outcome"` key per item with the item variable's value and one key per SSA name with its value, an SSA name overriding a coinciding item key |
| GlobalFormula.CollectImplications | askalot_qml/z3/global_formula.py:76-90 | the loop collects `Implies(P_i, Q_i)` for each id of the item order that has details, in that order |
| GlobalFormula.Check | askalot_qml/z3/global_formula.py:62-120 | SAT, UNSAT and UNKNOWN follow the solver's answer on F, a witness comes exactly with SAT, and with a sound solver SAT means F has a model and UNSAT that it has none |
| GlobalFormula.PerItemEntailsFormula | askalot_qml/z3/global_formula.py:48 | when every W_i = B ∧ P_i ∧ ¬Q_i is unsatisfiable, every model of B satisfies F |
| GlobalFormula.PerItemSound | askalot_qml/z3/global_formula.py:48 | when every item's postcondition is TAUTOLOGICAL or NONE and B has a model, F has a model |
| GlobalFormula.ConflictUnsat | askalot_qml/z3/global_formula.py:49 | for two items requiring rating > 50 and rating < 30, F is unsatisfiable |
| GlobalFormula.ConflictItemHolds | askalot_qml/z3/global_formula.py:49 | each item of that example is satisfiable on its own with a suitable rating |
| GlobalFormula.ConflictItemsSatisfiable | askalot_qml/z3/global_formula.py:49 | B ∧ P_i ∧ Q_i has a model for each item of the example |
| GlobalFormula.ConflictNotInfeasible | askalot_qml/z3/global_formula.py:49 | yet no sound solver labels either item INFEASIBLE: UNSAT(F) occurs without an INFEASIBLE item |
| GlobalFormula.GetConflictingItems | askalot_qml/z3/global_formula.py:152-190 | the push/add/check/pop loop computes `ConflictingItems`, and a satisfiable F reports nothing |
| GlobalFormula.SubsequenceExtend | askalot_qml/z3/global_formula.py:172-188 | appending the same id to both lists keeps the subsequence relation |
| GlobalFormula.ScanShape | askalot_qml/z3/global_formula.py:172-188 | the reported ids are a subsequence of the item order, all with details, and every other item with details had its implication retained |
| GlobalFormula.ScanKeepsSatisfiable | askalot_qml/z3/global_formula.py:180-188 | with a deciding solver, a satisfiable retained set stays satisfiable |
| GlobalFormula.ScanNothingReported | askalot_qml/z3/global_formula.py:172-188 | when nothing is reported, every implication was retained |
| GlobalFormula.ConflictsExact | askalot_qml/z3/global_formula.py:152-190 | with a deciding solver and a satisfiable B, nothing is reported exactly when F is satisfiable |
| GlobalFormula.ScanAllReported | askalot_qml/z3/global_formula.py:168-188 | when B is unsatisfiable a deciding solver reports every item with details and retains nothing more |
| GlobalFormula.Scan | askalot_qml/z3/global_formula.py:168-188 | no contract of its own; its meaning is stated by `GlobalFormula.ScanShape`, `GlobalFormula.ScanKeepsSatisfiable`, `GlobalFormula.ScanNothingReported` and `GlobalFormula.ScanAllReported` |
| GlobalFormula.ConflictingItems | askalot_qml/z3/global_formula.py:152-190 | no contract of its own; its meaning is stated by `GlobalFormula.ConflictsExact`, `GlobalFormula.BaseUnsatAllConflicting` and `GlobalFormula.GetConflictingItems` |
| GlobalFormula.BaseUnsatAllConflicting | askalot_qml/z3/global_formula.py:152-190 | with an unsatisfiable B every item with details is reported |
| PathValidation.PlusReaches | askalot_qml/z3/path_based_validation.py:165-174 | a dependency reached along one edge or more is reachable |
| PathValidation.PlusTarget | askalot_qml/z3/path_based_validation.py:165-174 | a transitive dependency is the target of some edge |
| PathValidation.ListOf | askalot_qml/z3/path_based_validation.py:166 | `list(s)` holds exactly the elements of the set |
| PathValidation.SuccTargets | askalot_qml/z3/path_based_validation.py:166 | direct dependencies are edge targets |
| PathValidation.TransitiveDependencies | askalot_qml/z3/path_based_validation.py:155-174 | the worklist loop terminates with exactly the items reachable from the item along one edge or more |
| PathValidation.TransitiveDeps | askalot_qml/z3/path_based_validation.py:155-174 | no contract of its own: the items reachable along one dependency edge or more; `PathValidation.PlusReaches` and `PathValidation.PlusTarget` characterise it and `PathValidation.TransitiveDependencies` computes it |
| PathValidation.Filter | askalot_qml/z3/path_based_validation.py:148-151 | the filtered list holds exactly the elements that lie in the kept set |
| PathValidation.FilterSubsequence | askalot_qml/z3/path_based_validation.py:148-151 | filtering keeps the elements in their order |
| PathValidation.PredMeaning | askalot_qml/z3/path_based_validation.py:144-151 | Pred(i) holds exactly the transitive dependencies of i placed before it in the order, in that order |
| PathValidation.Pred | askalot_qml/z3/path_based_validation.py:144-151 | no contract of its own; its meaning is stated by `PathValidation.PredMeaning` |
| PathValidation.PredsUpToMeaning | askalot_qml/z3/path_based_validation.py:141-153 | after the first `k` items the map has an entry exactly for those items, each its Pred |
| PathValidation.PredsOfMeaning | askalot_qml/z3/path_based_validation.py:128-153 | every item of the order has an entry, its Pred, and nothing else has one |
| PathValidation.BuildPredecessorsMap | askalot_qml/z3/path_based_validation.py:128-153 | the loop computes the predecessors map |
| PathValidation.PredecessorsOf | askalot_qml/z3/path_based_validation.py:145-151 | one entry of the loop is Pred of the item |
| PathValidation.CheckItem | askalot_qml/z3/path_based_validation.py:176-288 | an item without details is UNKNOWN, reachable and not dead; dead code is exactly CONDITIONAL and not accumulated-reachable; NEVER is never accumulated-reachable; ALWAYS with no predecessors is |
| PathValidation.PathStatus | askalot_qml/z3/path_based_validation.py:208-222 | never UNKNOWN; with a sound solver, anything but NEVER means B ∧ P has a model and ALWAYS means B entails P; NEVER exactly when the solver does not answer `sat` on B ∧ P, so `unknown` counts as NEVER |
| PathValidation.Accumulated | askalot_qml/z3/path_based_validation.py:247-262 | no contract of its own; its meaning is stated by `PathValidation.FormulaGivesAccumulated` |
| PathValidation.CheckItemExact | askalot_qml/z3/path_based_validation.py:208-265 | with a deciding solver, NEVER, ALWAYS and dead code hold exactly when their semantic conditions on B, P_i and A_i ∧ P_i do |
| PathValidation.FormulaGivesAccumulated | askalot_qml/z3/path_based_validation.py:247-262 | a model of the global formula that satisfies P_i satisfies A_i ∧ P_i |
| PathValidation.DeadCodeNeverCompleted | askalot_qml/z3/path_based_validation.py:264-265 | a dead item's precondition is false in every model of the global formula, so it is never shown in a valid completion |
| PathValidation.CheckAll | askalot_qml/z3/path_based_validation.py:107-112 | the loop records one result per item of the order and lists the dead items in order |
| PathValidation.Validate | askalot_qml/z3/path_based_validation.py:87-126 | `validate()` has one result per item of the topological order (none without one), lists the dead items, and reports dead code exactly when that list is non-empty |
| PathValidation.DeadItemsShape | askalot_qml/z3/path_based_validation.py:107-112 | the dead list is a subsequence of the order holding exactly the items checked dead |
| PathValidation.DeadItems | askalot_qml/z3/path_based_validation.py:107-112 | no contract of its own; its meaning is stated by `PathValidation.DeadItemsShape` and `PathValidation.CheckAll` |
| PathValidation.AlwaysNotDead | askalot_qml/z3/path_based_validation.py:235-265 | an ALWAYS item is never dead code, whatever the solver answers |
| PathValidation.DeadPreds | askalot_qml/z3/path_based_validation.py:144-151 | in the example, Pred(feedback) is [rating] |
| PathValidation.BaseHolds | askalot_qml/z3/path_based_validation.py:206 | in the example, a rating between 1 and 100 satisfies B |
| PathValidation.ExampleModelsHold | askalot_qml/z3/path_based_validation.py:208-222 | in the example, rating 10 meets feedback's precondition and rating 90 does not |
| PathValidation.FeedbackConditional | askalot_qml/z3/path_based_validation.py:208-222 | on its own, feedback's precondition is CONDITIONAL |
| PathValidation.DeadImplications | askalot_qml/z3/path_based_validation.py:253-258 | the example's accumulated implication is rating's postcondition rating > 80 |
| PathValidation.DeadAccumulatedUnsat | askalot_qml/z3/path_based_validation.py:260-262 | A_feedback ∧ P_feedback has no model |
| PathValidation.DeadFormulaSatisfiable | askalot_qml/z3/path_based_validation.py:91-95 | the example questionnaire as a whole is satisfiable |
| PathValidation.DeadExampleReported | askalot_qml/z3/path_based_validation.py:264-265 | with a deciding solver, feedback is reported as dead code although the global formula is satisfiable |
| Diagram.PrefixSlice | askalot_qml/core/qml_diagram.py:411 | Python's `t[:n]`: a prefix for `0 <= n <= len`, the whole text past the end, and counted from the end for a negative `n` |
| Diagram.TruncateMeaning | askalot_qml/core/qml_diagram.py:407-411 | text that fits is returned as it is; longer text, for a limit of at least 3, becomes exactly `max_length` characters: its first `max_length - 3` then "..." |
| Diagram.TruncateShortLimit | askalot_qml/core/qml_diagram.py:411 | below a limit of 3 the slice counts from the end, so `Truncate("abcde", 2)` is "abcd..." |
| Diagram.ReplaceChar | askalot_qml/core/qml_diagram.py:403-405 | a replaced character no longer occurs unless the replacement holds it, and nothing new appears |
| Diagram.ReplaceCharConcat | askalot_qml/core/qml_diagram.py:403-405 | replacing distributes over concatenation |
| Diagram.ReplaceAbsent | askalot_qml/core/qml_diagram.py:403-405 | replacing an absent character changes nothing |
| Diagram.PassesConcat | askalot_qml/core/qml_diagram.py:403-405 | the three passes distribute over concatenation |
| Diagram.ReplaceOne | askalot_qml/core/qml_diagram.py:403-405 | one character is replaced exactly when it is the pattern |
| Diagram.PassesChar | askalot_qml/core/qml_diagram.py:403-405 | no pass touches what an earlier one produced: one character becomes its own entity |
| Diagram.EscapeIsEach | askalot_qml/core/qml_diagram.py:398-405 | the three passes in sequence equal replacing every character by its entity at once |
| Diagram.EscapeMeaning | askalot_qml/core/qml_diagram.py:398-405 | the escaped text has no `<`, `>` or `"`, the empty text stays empty, and text without them is unchanged |
| Diagram.EachNoSpecial | askalot_qml/core/qml_diagram.py:403-405 | the per-character escape leaves none of the three characters |
| Diagram.PlainEach | askalot_qml/core/qml_diagram.py:403-405 | text without the three characters is its own escape |
| Diagram.IndexOfChar | askalot_qml/core/qml_diagram.py:293 | the first occurrence of a character, or the length when absent |
| Diagram.Split | askalot_qml/core/qml_diagram.py:293 | `split('\n')` gives at least one line and no line holds a line break |
| Diagram.JoinSplit | askalot_qml/core/qml_diagram.py:293-396 | joining the split lines gives the text back |
| Diagram.SplitJoin | askalot_qml/core/qml_diagram.py:293-396 | splitting a join of break-free lines gives the lines back |
| Diagram.EndIndex | askalot_qml/core/qml_diagram.py:378-383 | the first end-marker line (one that is not a begin-marker line), or -1 when there is none |
| Diagram.LastBegin | askalot_qml/core/qml_diagram.py:378-380 | the last begin-marker line before the limit, or -1 when there is none |
| Diagram.ScanMarkers | askalot_qml/core/qml_diagram.py:375-383 | the scan finds the last begin marker before the first end marker, and that end marker |
| Diagram.InsertColoringLines | askalot_qml/core/qml_diagram.py:385-394 | the splice is the one of the three cases that applies: between both markers, after the begin marker alone, or appended at the end |
| Diagram.InsertColoring | askalot_qml/core/qml_diagram.py:373-396 | `_insert_coloring` splits, splices and joins |
| Diagram.SpliceMarkers | askalot_qml/core/qml_diagram.py:375-387 | lines built as prefix, marker-free block and end marker have their markers where the block says |
| Diagram.BlockPlain | askalot_qml/core/qml_diagram.py:387 | the inserted block has no marker when the colouring has none |
| Diagram.BothMarkersSplice | askalot_qml/core/qml_diagram.py:385-387 | with both markers, the result is the lines up to the begin marker, the block, then the lines from the end marker on |
| Diagram.ColoringBetweenMarkers | askalot_qml/core/qml_diagram.py:385-387 | with both markers and a marker-free colouring, the result again has both markers, with exactly the colouring between them |
| Diagram.Recolour | askalot_qml/core/qml_diagram.py:385-387 | colouring twice is the same as colouring once with the second colouring |
| Diagram.FlowStyleMeaning | askalot_qml/core/qml_diagram.py:301-307 | `current` exactly for the non-empty current id, `visited` exactly for other visited items, `pending` for the rest |
| Diagram.StyleLineSuffix | askalot_qml/core/qml_diagram.py:303-307 | each colouring line ends with its style |
| Diagram.CurrentLineUnique | askalot_qml/core/qml_diagram.py:301-307 | with distinct items at most one line is `current`, and one is exactly when the current id is an item |
| Diagram.FlowColoring | askalot_qml/core/qml_diagram.py:301-307 | the loop builds one styled line per item, in the topology's order |
| Diagram.VisitedIds | askalot_qml/core/qml_diagram.py:296-298 | an id is visited exactly when some item with that id has a truthy `visited` flag |
| Diagram.ApplyFlowColoring | askalot_qml/core/qml_diagram.py:281-310 | the base diagram with the flow colouring spliced in, the visited items being those the state's items flag as visited |
| Diagram.AnalysisStyleOfItem | askalot_qml/core/qml_diagram.py:330-365 | an unknown item is `pending`; a known item is never `visited` or `pending`, `never` iff NEVER, `tautological`/`infeasible` iff reachable with that postcondition label, else its precondition status |
| Diagram.AnalysisStyleSound | askalot_qml/core/qml_diagram.py:340-365 | with a sound solver an `always` item's precondition follows from B, a `never` item's cannot hold, a `tautological` item's postcondition follows from its precondition, an `infeasible` item's cannot hold with it |
| Diagram.AnalysisColoring | askalot_qml/core/qml_diagram.py:328-369 | the loops build one styled line per item, all `pending` without a classifier |
| Diagram.ApplyAnalysisColoring | askalot_qml/core/qml_diagram.py:312-371 | the base diagram with the analysis colouring spliced in |
| Diagram.CycleNodes | askalot_qml/core/qml_diagram.py:224-226 | the cycle nodes are exactly the nodes of the recorded cycles without their closing repeat |
| Diagram.DropLastClosed | askalot_qml/core/qml_diagram.py:226 | dropping the closing node of a cycle loses no node |
| Diagram.CycleNodesOfTopology | askalot_qml/core/qml_diagram.py:224-239 | for a topology's recorded cycles, the styled nodes are exactly the cycles' nodes, all of them items |
| Topology.ItemIds | askalot_qml/core/qml_topology.py:41 | the item list holds exactly the non-empty ids, and no more entries than there are items |
| Topology.BuiltGraphsReverse | askalot_qml/core/qml_topology.py:62-82 | the built reverse graph lists `b` under `a` exactly when `a` is an item and `b` depends on it |
| Topology.BuildGraphs | askalot_qml/core/qml_topology.py:62-82 | the dependency graph copies each item's dependencies and the reverse graph inverts it over the items |
| Topology.OrderConstraints | askalot_qml/core/qml_topology.py:89-109 | the constraints handed to the solver are exactly the bounds, the pairwise distinctness and the dependency ordering of the order variables |
| Topology.ScheduleIncomplete | askalot_qml/core/qml_topology.py:200-207 | when Kahn's algorithm leaves an item unscheduled the items admit no topological numbering |
| Topology.ScheduleOutcome | askalot_qml/core/qml_topology.py:162-207 | Kahn's algorithm schedules every item exactly when the items can be ordered, and a complete schedule is the Kahn order |
| Topology.QMLTopology.BuildDependencyGraph | askalot_qml/core/qml_topology.py:62-82 | the object's dependency graph is the builder's graph and its reverse graph is the inverse over the items |
| Topology.QMLTopology.FindCyclesDfs | askalot_qml/core/qml_topology.py:127-160 | at most one cycle is recorded, and a recorded cycle is a closed walk through items |
| Topology.QMLTopology.DetectCycles | askalot_qml/core/qml_topology.py:84-125 | cycles are reported exactly when there are items and the solver answers unsat; on sat no cycle is kept; with a sound solver, reported cycles mean no ordering exists and sat means one does |
| Topology.QMLTopology.ComputeTopologicalOrder | askalot_qml/core/qml_topology.py:162-207 | afterwards the cycle flag agrees with whether the items can be ordered, and a stored order is the Kahn order |
| Topology.QMLTopology.constructor | askalot_qml/core/qml_topology.py:28-60 | the items are the present ids, the dependencies the builder's; with a sound solver the cycle flag is exact, and no cycle flag means the items can be ordered |
| Topology.QMLTopology.GetTopologicalOrder | askalot_qml/core/qml_topology.py:209-213 | an order is returned exactly when no cycle was found; it is the Kahn order and puts each item after all of its dependencies; none is returned exactly when no ordering exists |
| Topology.QMLTopology.GetCycles | askalot_qml/core/qml_topology.py:215-217 | at most one cycle, each a closed walk through items, and any recorded cycle means the cycle flag is set and no ordering exists |
| Topology.QMLTopology.GetComponents | askalot_qml/core/qml_topology.py:226-266 | the components cover the items, are pairwise disjoint, and each is the undirected component of its first declared member |
| Topology.QMLTopology.GetDependencyLayers | askalot_qml/core/qml_topology.py:304-339 | with cycles, one layer of all items; otherwise a partition of the items into layers where each item's dependencies lie in earlier layers, each item sits in the earliest layer possible, and no layer has an internal dependency |
| Topology.QMLTopology.CanReach | askalot_qml/core/qml_topology.py:341-365 | true exactly when `to` is reachable from `from` along dependency edges |
| TopologyOrder.IndexOf | askalot_qml/core/qml_topology.py:174 | the first position of the id, or the length when absent |
| TopologyOrder.ConstraintMeaning | askalot_qml/core/qml_topology.py:93-109 | each kind of constraint holds in a model exactly when the numbering it gives satisfies the corresponding bound, distinctness or ordering |
| TopologyOrder.OrderSetToOrdering | askalot_qml/core/qml_topology.py:91-109 | a model of the constraints gives a valid topological numbering of the items |
| TopologyOrder.OrderingToOrderSet | askalot_qml/core/qml_topology.py:91-109 | a valid numbering satisfies every constraint |
| TopologyOrder.OrderFormulaMeaning | askalot_qml/core/qml_topology.py:89-114 | the solver's formula is satisfiable exactly when the items can be ordered |
| TopologyOrder.KahnOrderOrderable | askalot_qml/core/qml_topology.py:186-207 | a Kahn order puts each item after all its dependencies, so the items can be ordered |
| TopologyOrder.KahnOrderUnique | askalot_qml/core/qml_topology.py:182-198 | the declaration index breaks every tie, so there is only one Kahn order |
| TopologyOrder.HeapPush | askalot_qml/core/qml_topology.py:185 | pushing adds the index to the heap's contents |
| TopologyOrder.HeapPushAscending | askalot_qml/core/qml_topology.py:185 | pushing a new index keeps the heap ordered |
| TopologyOrder.HeapPop | askalot_qml/core/qml_topology.py:190 | popping yields the least index and leaves an ordered heap of the others |
| TopologyOrder.ItemIndex | askalot_qml/core/qml_topology.py:174 | every item maps to its declaration index |
| TopologyOrder.WaitingStart | askalot_qml/core/qml_topology.py:190-198 | before any dependent is released the heap holds the earlier ready items less the one popped |
| TopologyOrder.DegreeStep | askalot_qml/core/qml_topology.py:194-196 | decrementing a dependent's in-degree keeps the degree invariant, and it reaches zero exactly when all its dependencies are scheduled |
| TopologyOrder.ReleaseOne | askalot_qml/core/qml_topology.py:194-198 | releasing one dependent keeps the release invariant |
| TopologyOrder.ReleaseDependents | askalot_qml/core/qml_topology.py:194-198 | after the release loop the in-degrees count the unscheduled dependencies and the heap is exactly the ready set |
| TopologyOrder.ScheduleNext | askalot_qml/core/qml_topology.py:190-193 | scheduling the ready item declared first extends a greedy schedule |
| TopologyOrder.ScheduledBound | askalot_qml/core/qml_topology.py:201 | no more items are scheduled than there are |
| TopologyOrder.KahnStartDegrees | askalot_qml/core/qml_topology.py:177-178 | the initial in-degrees count all dependencies |
| TopologyOrder.KahnStartHeap | askalot_qml/core/qml_topology.py:182-185 | the initial heap holds exactly the items without dependencies |
| TopologyOrder.InitialHeap | askalot_qml/core/qml_topology.py:182-185 | the heap built holds, in order, exactly the items without dependencies |
| TopologyOrder.KahnStep | askalot_qml/core/qml_topology.py:189-198 | one round schedules the item of least index and keeps the scheduling invariant |
| TopologyOrder.KahnSchedule | askalot_qml/core/qml_topology.py:182-198 | the schedule is greedy, duplicate-free, and leaves no item ready |
| TopologySearch.CycleFromStack | askalot_qml/core/qml_topology.py:142-147 | the recorded slice of the stack closed by the back edge is a cycle through stack nodes |
| TopologySearch.Dfs | askalot_qml/core/qml_topology.py:132-150 | the node and everything explored become visited; a reported cycle is a closed walk through items; otherwise the recursion stack is restored |
| TopologySearch.FindCycles | askalot_qml/core/qml_topology.py:152-156 | at most one cycle is recorded, each a closed walk through items |
| TopologySearch.EnqueueUnvisited | askalot_qml/core/qml_topology.py:361-363 | every successor not yet visited is queued |
| TopologySearch.FrontierVisit | askalot_qml/core/qml_topology.py:350-363 | visiting a node keeps the breadth-first invariant |
| TopologySearch.Reachable | askalot_qml/core/qml_topology.py:341-365 | true exactly when `to` is reachable from `from` |
| TopologySearch.UndirectedSymmetric | askalot_qml/core/qml_topology.py:247-255 | the walked graph has every edge in both directions |
| TopologySearch.ExploreDone | askalot_qml/core/qml_topology.py:239-257 | a component found from the start, outside a closed set, is the whole undirected component |
| TopologySearch.ExploreComponent | askalot_qml/core/qml_topology.py:234-257 | the component returned is the undirected component of the start, disjoint from what was visited before, and the visited set grows by exactly it |
| TopologySearch.CoveredNext | askalot_qml/core/qml_topology.py:259-263 | adding a component keeps the coverage invariant |
| TopologySearch.DisjointNext | askalot_qml/core/qml_topology.py:259-263 | adding a component outside the visited set keeps the components disjoint |
| TopologySearch.Components | askalot_qml/core/qml_topology.py:226-266 | the components cover the items, are disjoint, and each is rooted at its first declared member |
| TopologyLayers.LayersPartition | askalot_qml/core/qml_topology.py:318-337 | the layers split the remaining items into disjoint non-empty sets |
| TopologyLayers.LayersDepsEarlier | askalot_qml/core/qml_topology.py:318-337 | every dependency of a layer's item lies in an earlier layer |
| TopologyLayers.LayersEarliest | askalot_qml/core/qml_topology.py:318-337 | each item is in the earliest layer whose predecessors hold all its dependencies |
| TopologyLayers.LayerIndependent | askalot_qml/core/qml_topology.py:318-337 | no item of a layer depends on another item of the same layer |
| TopologyLayers.StuckLayersNotOrderable | askalot_qml/core/qml_topology.py:328-333 | reaching the stuck branch means no ordering exists |
| TopologyLayers.ReadyLayerOf | askalot_qml/core/qml_topology.py:320-326 | the inner loop collects exactly the remaining items whose dependencies are processed |
| TopologyLayers.Layers | askalot_qml/core/qml_topology.py:314-339 | the loop computes the layers of the items from nothing processed |
| Graphs.StuckNotOrderable | askalot_qml/core/qml_topology.py:200-207 | a non-empty set of items each depending on another member admits no numbering |
| Graphs.CycleNotOrderable | askalot_qml/core/qml_topology.py:112-117 | a cycle through items admits no numbering |
| Topology.EmptyGraphs | askalot_qml/core/qml_topology.py:65-67 | both graphs start with an empty entry for every item |
| Topology.AddDependents | askalot_qml/core/qml_topology.py:75-77 | the entry's item is added as a dependent of each of its dependencies that is an item |
| Topology.BoundConstraints | askalot_qml/core/qml_topology.py:93-97 | the constraints collected are exactly both bounds of every order variable |
| Topology.ApartConstraints | askalot_qml/core/qml_topology.py:100-102 | the constraints collected are exactly the distinctness of every pair of items |
| Topology.DepConstraints | askalot_qml/core/qml_topology.py:106-109 | the constraints collected are exactly one ordering per dependency that is an item |
| Topology.DepSetIsAfterSet | askalot_qml/core/qml_topology.py:106-109 | iterating over the dependency dictionary gives the same constraints as iterating over the items |
| Topology.ScheduleComplete | askalot_qml/core/qml_topology.py:201-202 | a schedule of every item is the Kahn order |
| Pragmatic.ToBool | askalot_qml/z3/pragmatic_compiler.py:29-36 | a term becomes a formula that holds exactly when its number is non-zero; a list or `None` becomes True |
| Pragmatic.ToInt | askalot_qml/z3/pragmatic_compiler.py:38-45 | a term becomes an integer term with the same number; anything else is returned unchanged |
| Pragmatic.ConstValue | askalot_qml/z3/pragmatic_compiler.py:55-67 | booleans and integers become the matching z3 constants, a string a constant in [0, 1000000), any other constant 0 |
| Pragmatic.Lookup | askalot_qml/z3/pragmatic_compiler.py:47-53 | a bound name returns its binding and leaves the environment alone; an unbound one is bound to a new `z3var_func` variable |
| Pragmatic.IntCast | askalot_qml/z3/pragmatic_compiler.py:87-97 | `int(x)` gives an integer term with x's number, or 0 when x is not a term |
| Pragmatic.BoolCast | askalot_qml/z3/pragmatic_compiler.py:98-108 | `bool(x)` gives a formula that holds exactly when x's number is non-zero, or False when x is not a term |
| Pragmatic.EqValues | askalot_qml/z3/pragmatic_compiler.py:153-154 | two terms give a formula true exactly when their numbers are equal; `None` on either side gives the constant for whether both are `None`; a list against a term raises |
| Pragmatic.NeValues | askalot_qml/z3/pragmatic_compiler.py:155-156 | accepted exactly when the equality is, and then holds exactly when the equality does not |
| Pragmatic.OrderValues | askalot_qml/z3/pragmatic_compiler.py:145-152 | accepted exactly for two terms that are not both booleans, and then holds exactly when the numbers compare as the operator says |
| Pragmatic.EqualitiesWith | askalot_qml/z3/pragmatic_compiler.py:172 | one equality per list element, in order, accepted exactly when each one is |
| Pragmatic.InValues | askalot_qml/z3/pragmatic_compiler.py:162-178 | `None` or an empty list gives False, a single term the equality with it, and a list of terms a formula true exactly when the left side equals one element |
| Pragmatic.CompareValues | askalot_qml/z3/pragmatic_compiler.py:139-178 | no contract of its own: one comparison of two values; its meaning is stated by `PragmaticFaithful.CompareFaithful`, `PragmaticProps.CompileIn` and `PragmaticProps.InListIsDisjunction` |
| Pragmatic.PyFloorDivIsFloor | askalot_qml/z3/pragmatic_compiler.py:132-133 | the model's Python floor division rounds towards minus infinity for either sign of the divisor |
| Pragmatic.PyModRange | askalot_qml/z3/pragmatic_compiler.py:134-135 | the model's Python remainder takes the sign of the divisor and is smaller than it |
| Pragmatic.ArithAsWritten | askalot_qml/z3/pragmatic_compiler.py:117-135 | the arithmetic the compiler uses, as written: `+`, `-`, `*` are exact, and `//` and `%` (z3 `div` and `mod`) have Python's value whenever the divisor is positive |
| Pragmatic.ArithAsWrittenNegativeDivisor | askalot_qml/z3/pragmatic_compiler.py:132-135 | as written, `7 // -2` compiles to -3 and `7 % -2` to 1, where Python gives -4 and -1 |
| Pragmatic.Arith | askalot_qml/z3/pragmatic_compiler.py:117-135 | the corrected arithmetic, not used by the compiler: `+`, `-`, `*` are exact and `//`, `%` have Python's value for every non-zero divisor |
| Pragmatic.ArithAgreesOnPositiveDivisor | askalot_qml/z3/pragmatic_compiler.py:132-135 | for a positive divisor the arithmetic as written and the corrected one have the same value |
| Pragmatic.ArithValues | askalot_qml/z3/pragmatic_compiler.py:111-137 | two integer terms combine with the operator as written (`//` and `%` as z3 `div` and `mod`), two lists concatenate under `+`, and nothing else is accepted |
| Pragmatic.UnaryValue | askalot_qml/z3/pragmatic_compiler.py:192-205 | `not` negates the operand's truth, `-` negates an integer term and refuses anything else, `+` returns the operand, `~` raises |
| Pragmatic.MapToBool | askalot_qml/z3/pragmatic_compiler.py:183 | each operand of `and`/`or` passed through the boolean conversion, in order |
| Pragmatic.CompileExpr | askalot_qml/z3/pragmatic_compiler.py:25-205 | compiling an expression keeps every existing binding; the environment can only grow |
| Pragmatic.CompileExprs | askalot_qml/z3/pragmatic_compiler.py:421-431 | one value per expression, the environment only growing |
| Pragmatic.ExecAssign | askalot_qml/z3/pragmatic_compiler.py:207-254 | an assignment keeps the earlier constraints as a prefix, adds at most one constraint and advances the generation by at most one |
| Pragmatic.ExecAugAssign | askalot_qml/z3/pragmatic_compiler.py:256-318 | an augmented assignment adds exactly one constraint and advances the generation by exactly one |
| Pragmatic.AugUpdate | askalot_qml/z3/pragmatic_compiler.py:279-318 | once the target's value is known, exactly one constraint and one generation are added |
| Pragmatic.Merge | askalot_qml/z3/pragmatic_compiler.py:337-373 | the merge loop only extends the state |
| Pragmatic.MergeStep | askalot_qml/z3/pragmatic_compiler.py:358-373 | only adds to the state; what it binds and constrains is stated by `PragmaticProps.MergeStepMeaning` |
| Pragmatic.ExecIf | askalot_qml/z3/pragmatic_compiler.py:320-375 | an `if` only extends the state |
| Pragmatic.RangeValues | askalot_qml/z3/pragmatic_compiler.py:391-392 | `range(k)` binds 0, 1, .., k - 1 in turn |
| Pragmatic.LoopValues | askalot_qml/z3/pragmatic_compiler.py:381-411 | a loop binds at most 20 values |
| Pragmatic.Unroll | askalot_qml/z3/pragmatic_compiler.py:391-394 | unrolling only extends the state |
| Pragmatic.ExecFor | askalot_qml/z3/pragmatic_compiler.py:377-419 | a `for` only extends the state |
| Pragmatic.ExecStmt | askalot_qml/z3/pragmatic_compiler.py:320-438 | every statement only extends the state: the earlier constraints stay a prefix, the generation never goes back and the item id is kept |
| Pragmatic.ExecStmts | askalot_qml/z3/pragmatic_compiler.py:433-435 | a statement list only extends the state |
| Pragmatic.CompileCode | askalot_qml/z3/pragmatic_compiler.py:433-435 | no contract of its own; its meaning is stated by `PragmaticFaithful.CompileCodeFaithful` and the examples `PragmaticExamples.ChainOfSelfReferences`, `ConditionalAssignment` and `RangeLoopSum` |
| Pragmatic.Compiler.constructor | askalot_qml/z3/pragmatic_compiler.py:17-23 | a new compiler holds the predefined bindings, no constraint, generation 0 and the given item id |
| Pragmatic.Compiler.Eval | askalot_qml/z3/pragmatic_compiler.py:25-27 | evaluating returns the specified value and environment, leaving constraints and generation alone |
| Pragmatic.Compiler.Visit | askalot_qml/z3/pragmatic_compiler.py:207-438 | the state and any raised error are exactly those the statement's specification gives |
| Pragmatic.Compiler.VisitAll | askalot_qml/z3/pragmatic_compiler.py:433-435 | the statements in order, stopping at the first error, as specified |
| Pragmatic.Compiler.VisitAssign | askalot_qml/z3/pragmatic_compiler.py:207-254 | the assignment's state or error as specified |
| Pragmatic.Compiler.VisitAugAssign | askalot_qml/z3/pragmatic_compiler.py:256-318 | the augmented assignment's state or error as specified |
| Pragmatic.Compiler.AugAssignTo | askalot_qml/z3/pragmatic_compiler.py:260-318 | the state once the target's current value is fetched, as specified |
| Pragmatic.Compiler.AugAssignUpdate | askalot_qml/z3/pragmatic_compiler.py:279-318 | the state after the right-hand side and the new SSA variable, as specified |
| Pragmatic.Compiler.VisitIf | askalot_qml/z3/pragmatic_compiler.py:320-375 | the `if`'s state or error as specified |
| Pragmatic.Compiler.MergeBranches | askalot_qml/z3/pragmatic_compiler.py:337-373 | the state after the merge loop, as specified |
| Pragmatic.Compiler.VisitFor | askalot_qml/z3/pragmatic_compiler.py:377-419 | the loop's state or error as specified |
| Pragmatic.Compiler.LoopValuesOf | askalot_qml/z3/pragmatic_compiler.py:381-411 | the values the loop binds, as specified, leaving constraints and generation alone |
| Pragmatic.Compiler.ContainerLoop | askalot_qml/z3/pragmatic_compiler.py:398-411 | the elements of a container literal are those of `ContainerValues`: bool constants as 0/1, int constants themselves, numeral strings as their integer, other expressions compiled and cast to an integer; any other constant raises |
| Pragmatic.NumeralValueMeaning | askalot_qml/z3/pragmatic_compiler.py:399-405 | z3's `IntVal` reads `str(n)` and `'-' + str(n)` back as the integer, and refuses a string holding a character that is neither a digit nor a leading `-` |
| Pragmatic.Compiler.RunUnrolled | askalot_qml/z3/pragmatic_compiler.py:413-416 | the body once per value, as specified |
| PragmaticFaithful.ExprFaithful | askalot_qml/z3/pragmatic_compiler.py:25-205 | an expression Python evaluates compiles without creating variables, and its term has Python's value in every model of the environment |
| PragmaticFaithful.BinOpFaithful | askalot_qml/z3/pragmatic_compiler.py:111-137 | arithmetic compiles to a term with Python's value, for `//` and `%` when the divisor is positive |
| PragmaticFaithful.CompareFaithful | askalot_qml/z3/pragmatic_compiler.py:139-178 | a comparison compiles to a formula true exactly when Python's comparison is |
| PragmaticFaithful.BoolOpFaithful | askalot_qml/z3/pragmatic_compiler.py:180-190 | `and`/`or` compile to formulas with Python's truth value |
| PragmaticFaithful.UnaryFaithful | askalot_qml/z3/pragmatic_compiler.py:192-205 | unary operators compile to terms with Python's value |
| PragmaticFaithful.StmtFaithful | askalot_qml/z3/pragmatic_compiler.py:207-419 | a statement Python runs compiles; its new constraints can be satisfied by giving the new variables fresh values, and in every model of them the environment has Python's values after the statement |
| PragmaticFaithful.StmtsFaithful | askalot_qml/z3/pragmatic_compiler.py:433-435 | the same for a statement list |
| PragmaticFaithful.AssignFaithful | askalot_qml/z3/pragmatic_compiler.py:207-254 | the same for an assignment |
| PragmaticFaithful.AugAssignFaithful | askalot_qml/z3/pragmatic_compiler.py:256-318 | the same for an augmented assignment |
| PragmaticFaithful.IfFaithful | askalot_qml/z3/pragmatic_compiler.py:320-375 | the same for an `if`: the merge variables take the value of the branch the condition chooses |
| PragmaticFaithful.JoinRep | askalot_qml/z3/pragmatic_compiler.py:337-373 | in a model of the merge constraints the merged environment has the values of the branch the condition chooses |
| PragmaticFaithful.MergeWitness | askalot_qml/z3/pragmatic_compiler.py:358-373 | the merge constraints are satisfied by giving each merge variable the chosen branch's value |
| PragmaticFaithful.ForFaithful | askalot_qml/z3/pragmatic_compiler.py:377-395 | the same for a `range` loop |
| PragmaticFaithful.UnrollFaithful | askalot_qml/z3/pragmatic_compiler.py:391-394 | the same for the unrolled body |
| PragmaticFaithful.CompileCodeFaithful | askalot_qml/z3/pragmatic_compiler.py:433-435 | a code block Python runs to the end, with positive divisors under `//`, `%`, `//=` and `%=`, compiles, its constraints have a model, and every model gives the final variables exactly Python's final values |
| PragmaticExamples.ChainOfSelfReferences | tests/unit/z3/test_z3_ssa.py:125-137 | `x = 1; x = x + 1; x = x * 2; x = x - 1; result = x` compiles to satisfiable constraints under which `result` is 3 |
| PragmaticExamples.ConditionalAssignment | tests/unit/z3/test_z3_ssa.py:165-179 | the conditional doubling example compiles to satisfiable constraints under which `result` is 10 |
| PragmaticExamples.RangeLoopSum | askalot_qml/z3/pragmatic_compiler.py:386-395 | `total = 0; for i in range(4): total += i` compiles to satisfiable constraints under which `total` is 6 |
| PragmaticProps.AssignBindsFreshVariable | askalot_qml/z3/pragmatic_compiler.py:235-254 | `x = e` binds x to a fresh `{item}_{x}_{gen}` variable of e's sort, adds exactly `var == e` and advances the generation by one |
| PragmaticProps.AssignListStoresList | askalot_qml/z3/pragmatic_compiler.py:228-233 | a list on the right is stored as is: no variable, no constraint, the generation unchanged |
| PragmaticProps.AssignNeedsOneTarget | askalot_qml/z3/pragmatic_compiler.py:209 | several targets raise before anything is compiled |
| PragmaticProps.AssignOutcome | askalot_qml/z3/pragmatic_compiler.py:214-223 | `x.outcome = e` binds `S_x` and adds `S_x == int(e)`, leaving the generation alone |
| PragmaticProps.AugAssignUnboundStartsAtZero | askalot_qml/z3/pragmatic_compiler.py:261-266 | an unbound name starts from 0 |
| PragmaticProps.AugAssignBound | askalot_qml/z3/pragmatic_compiler.py:283-307 | a bound number is combined with the right-hand side as integers, by the arithmetic as written, into a fresh variable |
| PragmaticProps.AugAssignRejectsOtherOperators | askalot_qml/z3/pragmatic_compiler.py:297-298 | only `+=`, `-=`, `*=`, `//=` and `%=` are accepted |
| PragmaticProps.AugAssignRejectsOtherTargets | askalot_qml/z3/pragmatic_compiler.py:276-277 | any target but a name or `x.outcome` raises |
| PragmaticProps.UnknownCallIsZero | askalot_qml/z3/pragmatic_compiler.py:80-109 | a call of anything but `range`, `int` and `bool` compiles to 0 without visiting its arguments |
| PragmaticProps.EmptyCasts | askalot_qml/z3/pragmatic_compiler.py:86-108 | `range()` and `int()` are 0, `bool()` is False |
| PragmaticProps.OtherAttributeRaises | askalot_qml/z3/pragmatic_compiler.py:69-78 | an attribute other than `.outcome` raises |
| PragmaticProps.OutcomeReadsCachedVariable | askalot_qml/z3/pragmatic_compiler.py:69-77 | `x.outcome` reads the cached `S_x`, creating it on first use |
| PragmaticProps.OtherBinOpRaises | askalot_qml/z3/pragmatic_compiler.py:136-137 | other binary operators raise once both operands are compiled |
| PragmaticProps.ArithmeticOnNumbers | askalot_qml/z3/pragmatic_compiler.py:117-135 | in arithmetic a boolean counts as 0 or 1; the result is the operator applied to the numbers, `/` and `//` being Euclidean division and `%` its non-negative remainder for a non-zero divisor |
| PragmaticProps.CompileListLit | askalot_qml/z3/pragmatic_compiler.py:421-431 | a list literal compiles to its elements' values |
| PragmaticProps.CompileIn | askalot_qml/z3/pragmatic_compiler.py:157-158 | `l in r` compiles to the membership formula of the two values |
| PragmaticProps.InEmptyListIsFalse | askalot_qml/z3/pragmatic_compiler.py:168-170 | `x in []` is False |
| PragmaticProps.InListIsDisjunction | askalot_qml/z3/pragmatic_compiler.py:168-172 | `x in [e1, .., en]` holds exactly when x equals one of the elements |
| PragmaticProps.InTerms | askalot_qml/z3/pragmatic_compiler.py:172 | on a list of terms the membership formula holds exactly when some element has the left side's number |
| PragmaticProps.MergeStepMeaning | askalot_qml/z3/pragmatic_compiler.py:339-373 | a merge step binds only its own name, to `{item}_{n}_{gen}`, and its constraint makes that variable the chosen branch's value |
| PragmaticProps.MergeMeaning | askalot_qml/z3/pragmatic_compiler.py:337-373 | over distinct names every listed name is merged that way and every other binding is kept |
| PragmaticProps.IfMeaning | askalot_qml/z3/pragmatic_compiler.py:320-375 | both branches' constraints hold beside the merge; the generation runs from the parent through the then- and else-branch to the merge, and every name bound in a branch is merged |
| PragmaticProps.ForRangeUnrolls | askalot_qml/z3/pragmatic_compiler.py:386-395 | `range(k)` with a literal 0 <= k <= 20 unrolls the body k times with the variable bound to 0..k-1 |
| PragmaticProps.ForRangeOutOfBounds | askalot_qml/z3/pragmatic_compiler.py:388-389 | a literal bound outside 0..20 raises |
| PragmaticProps.ForRangeNeedsLiteral | askalot_qml/z3/pragmatic_compiler.py:382-419 | `range(n)` without a literal bound is an unsupported iterable |
| PragmaticProps.ForContainerLimit | askalot_qml/z3/pragmatic_compiler.py:410-411 | a container literal of more than 20 elements raises |
| PragmaticProps.ForOtherIterableRaises | askalot_qml/z3/pragmatic_compiler.py:419 | any other iterable raises |
| PragmaticProps.ForConstantsUnroll | askalot_qml/z3/pragmatic_compiler.py:398-417 | at most 20 constants run the body once per element, the variable bound to each |
| BuilderTerms.GrowsLookup | askalot_qml/z3/static_builder.py:232-246 | once a name denotes a variable, later growth of the SSA state never changes which one |
| BuilderTerms.CurrentVar | askalot_qml/z3/static_builder.py:232-246 | an item id denotes its item variable; a known name its current version; an unknown name gets version 0 recorded; in a coherent state a variable is always found and the state stays coherent |
| BuilderTerms.IntFacts | askalot_qml/z3/static_builder.py:278-328 | translating an expression keeps the state coherent, only records version 0 for names that are not item ids, and mentions only the variables of the names the expression reads |
| BuilderTerms.BoolFacts | askalot_qml/z3/static_builder.py:330-378 | the same for a condition |
| BuilderTerms.IntAlike | askalot_qml/z3/static_builder.py:278-328 | in two states where every name denotes the same variable an expression translates to the same term |
| BuilderTerms.BoolAlike | askalot_qml/z3/static_builder.py:330-378 | the same for a condition |
| BuilderTerms.TranslationOrderFree | askalot_qml/z3/static_builder.py:330-378 | translating one condition first leaves the translation of another unchanged |
| BuilderTerms.ToBoolAllEach | askalot_qml/z3/static_builder.py:353-359 | translating the operands of `and`/`or` left to right gives what translating each alone gives |
| BuilderTerms.ClausesMeaning | askalot_qml/z3/static_builder.py:353-359 | no clause gives nothing; one clause is itself; several give their conjunction or disjunction |
| BuilderTerms.BoolOpTranslates | askalot_qml/z3/static_builder.py:351-359 | an `and`/`or` fails to translate exactly when none of its operands translates |
| BuilderTerms.BoolOpMeaning | askalot_qml/z3/static_builder.py:351-359 | an `and`/`or` holds exactly when all (some) of the operands that translate hold; the others are dropped |
| BuilderTerms.ItemReference | askalot_qml/z3/static_builder.py:288-295 | an item id, bare or as `id.outcome`, denotes the item's variable and leaves the state alone |
| BuilderTerms.NameTruthy | askalot_qml/z3/static_builder.py:370-376 | a name that is no item id denotes its current version and is true in a condition exactly when that version is non-zero |
| BuilderTerms.IntTranslatesExactly | askalot_qml/z3/static_builder.py:278-328 | an expression translates exactly when it is built from the supported constants, names, outcomes and operators |
| BuilderTerms.BoolTranslatesExactly | askalot_qml/z3/static_builder.py:330-378 | a condition translates exactly when it has one of the supported shapes |
| BuilderSpec.OptionValues | askalot_qml/z3/static_builder.py:105-108 | the listed values are exactly the options' values, and none exists only when no option has a value |
| BuilderSpec.ChoiceMeaning | askalot_qml/z3/static_builder.py:101-114 | the enumeration constraint holds exactly when the item's variable is one of the options' values |
| BuilderSpec.DomainMeaning | askalot_qml/z3/static_builder.py:77-114 | an item's domain constraints hold exactly when its variable takes a value its control admits |
| BuilderProps.FirstPassFacts | askalot_qml/z3/static_builder.py:124-141 | after the first pass there is one variable, one empty dependency set and one details entry per id, the ids in order, and the domains of all items |
| BuilderProps.HistoryBelow | askalot_qml/z3/static_builder.py:205-230 | every recorded version is at most the current one, and versions are handed out without gaps |
| BuilderProps.InvProcessCode | askalot_qml/z3/static_builder.py:185-225 | a code block changes neither the items nor their dependencies, and keeps the SSA state well formed |
| BuilderProps.InvAddPostcondition | askalot_qml/z3/static_builder.py:172-183 | a postcondition never adds a dependency |
| BuilderProps.InvAddPrecondition | askalot_qml/z3/static_builder.py:154-166 | a precondition adds to its item exactly the items it mentions, when it translates |
| BuilderProps.InvProcessItem | askalot_qml/z3/static_builder.py:149-183 | an item without id changes nothing; otherwise only its own dependencies grow, by those its preconditions mention |
| BuilderProps.InvSecondPass | askalot_qml/z3/static_builder.py:148-183 | the second pass adds to each item the dependencies its preconditions declare |
| BuilderProps.InvInitPass | askalot_qml/z3/static_builder.py:143-146 | the initialisation code changes neither items nor dependencies |
| BuilderProps.BuildFacts | askalot_qml/z3/static_builder.py:121-183 | after building: one variable per id in declaration order, the domains of all items, and for each item exactly the items its translating preconditions mention |
| BuilderProps.DomainsMeaning | askalot_qml/z3/static_builder.py:58-61 | the domain constraints hold exactly when every item's variable lies in its control's domain |
| BuilderProps.BaseMeaning | askalot_qml/z3/static_builder.py:394-412 | B holds exactly when every item's variable lies in its control's domain |
| BuilderProps.SelfReference | askalot_qml/z3/static_builder.py:196-222 | `x = x + 1` records `x_v == x_v + 1`, which in an item's block holds exactly when the item is not visited and in the initialisation code never |
| BuilderProps.CompileConditionsMeaning | askalot_qml/z3/static_builder.py:414-433 | the compiled conditions hold exactly when every predicate that compiles holds |
| BuilderProps.CompileNothing | askalot_qml/z3/static_builder.py:428-429 | when no predicate compiles the result is True |
| BuilderProps.CompileOrderFree | askalot_qml/z3/static_builder.py:414-442 | the result does not depend on what was compiled before |
| BuilderLinks.IdsOf | askalot_qml/z3/static_builder.py:125 | one id per item, a missing one as the empty string |
| BuilderLinks.OrderIsItemIds | askalot_qml/z3/static_builder.py:124-141 | the builder's item order is exactly the topology's item list |
| BuilderLinks.BuildFeedsTopology | askalot_qml/z3/static_builder.py:384-386 | the built item order is the topology's item list, and the built dependencies have one entry per item and name items only |
| BuilderLinks.CompiledWellFormed | askalot_qml/z3/static_builder.py:414-417 | the compiled view of every item is well formed: items without postconditions compile to True |
| BuilderLinks.CompiledOrderFree | askalot_qml/z3/static_builder.py:414-442 | the compiled view does not depend on the order in which validators compile conditions |
| Builder.StaticBuilder.constructor | askalot_qml/z3/static_builder.py:41-75 | the fields are those the build specification gives, with every property of a built state |
| Builder.StaticBuilder.BuildInternal | askalot_qml/z3/static_builder.py:121-183 | the fields become those the build specification gives |
| Builder.StaticBuilder.AddItemVariable | askalot_qml/z3/static_builder.py:125-141 | the first-pass step for one item, as specified |
| Builder.StaticBuilder.ExtractDomainConstraints | askalot_qml/z3/static_builder.py:77-114 | exactly the item's domain constraints are appended, nothing else changes |
| Builder.StaticBuilder.GetNextVersion | askalot_qml/z3/static_builder.py:227-230 | the next version is above every version recorded for the name |
| Builder.StaticBuilder.GetCurrentZ3Var | askalot_qml/z3/static_builder.py:232-246 | the variable found and the new SSA state as specified, nothing else changes |
| Builder.StaticBuilder.AstToZ3 | askalot_qml/z3/static_builder.py:278-328 | the translation and the new SSA state as specified |
| Builder.StaticBuilder.AstToZ3Bool | askalot_qml/z3/static_builder.py:330-378 | the translation and the new SSA state as specified |
| Builder.StaticBuilder.ProcessCodeBlock | askalot_qml/z3/static_builder.py:185-225 | the code block's effect as specified |
| Builder.StaticBuilder.AssignTarget | askalot_qml/z3/static_builder.py:194-222 | one assignment target, the version recorded before the value is translated |
| Builder.StaticBuilder.BuildPreconditionConstraint | askalot_qml/z3/static_builder.py:248-265 | the translated predicate, the items it mentions, and the new state as specified |
| Builder.StaticBuilder.BuildPostconditionConstraint | askalot_qml/z3/static_builder.py:267-276 | the translated predicate with no dependencies |
| Builder.StaticBuilder.ProcessOneItem | askalot_qml/z3/static_builder.py:149-183 | the second-pass step for one item, as specified |
| Builder.StaticBuilder.GetDomainBase | askalot_qml/z3/static_builder.py:394-412 | B holds exactly when every domain constraint holds, and is True when there is none |
| Builder.StaticBuilder.CompileConditions | askalot_qml/z3/static_builder.py:414-442 | the compiled conditions and the new SSA state as specified |
| Strings.ParseRender | askalot_qml/models/item_proxy.py:72-80 | rendering a number and parsing it back gives the number: `int(str(i)) == i` for the group keys `_<i>` |
| Strings.CanonicalSpelling | askalot_qml/models/item_proxy.py:72 | a digit string without a superfluous leading zero is the rendering of the number it denotes |
| Strings.NumberedNamesDistinct | askalot_qml/z3/pragmatic_compiler.py:236 | names `prefix_<n>` with different numbers are different, whatever the prefixes |
| Strings.NumberSuffixOf | askalot_qml/z3/pragmatic_compiler.py:236 | the number of a name `prefix_<n>` can be read back from the text after its last underscore |
| Strings.ContainsBounds | askalot_qml/models/item_proxy.py:21-34 | substring search, as `prop in input_config` on a string: a prefix is contained and a longer string never is |
| Json.Get | askalot_qml/models/item_proxy.py:60 | `d.get(k)` finds a value exactly when the key is present, and the value is that key's entry |
| Json.Put | askalot_qml/models/item_proxy.py:165 | `d[k] = v`: afterwards k maps to v, every other key is unchanged, keys stay unique, and a new key adds one entry |
| Smt.AndAll | askalot_qml/z3/static_builder.py:407-412 | the conjunction of a constraint list holds exactly when every constraint does |
| Smt.OrAll | askalot_qml/z3/static_builder.py:112-114 | the disjunction holds exactly when some operand does |
| PyAst.AssignsInWalk | askalot_qml/z3/static_builder.py:190-191 | only `Assign` nodes are collected from the walk |
| Json.Remove | askalot_qml/core/flow_processor.py:452 | `d.pop(k, None)`: afterwards k is absent, every other key is unchanged, keys stay unique, and every remaining entry comes from the original |

## Left out

- z3 itself (solver objects, incremental push/pop state, `model.eval`) is the oracle `check: BoolTerm -> Answer`. Properties assume `Smt.SoundSolver` or `Conditions.DecidingSolver`, and the solver's search and the causes of `unknown` are not modelled.
- `get_conflicting_items` runs push/add/check/pop on one incremental solver. It is modelled as a fresh `check` of the retained conjunction at each step, which is what an incremental solver decides.
- Python's `hash()` of a string literal is salted per process, so it is a parameter (`Ctx.hash`, and the `hash` argument of the builder translators), reduced `% 1000000` as in the source.
- Python set iteration order is a parameter or an arbitrary choice. It covers the names merged after an `if`, the DFS neighbour order, and the members of components and layers. No particular cycle is pinned.
- The sandboxed Python runner (`python_runner.py`) is not part of this model. Its effect on the flow is the oracle `Flows.Runner`: an evaluation gives a truth value or an exception, a run gives a failure or the resulting context and, for each item position, what `to_outcome()` of its proxy returns or raises. Where there is no code or it raised, the outcomes are `ItemProxies.StoredOutcome` of the proxies built from the items, with the submitted value decoded by the processed item's proxy.
- The Flask blueprints, repository persistence, audit callbacks, environment-variable lookups, and the file, YAML and schema parts of `QMLLoader` are transport and I/O and are not modelled. So are the `qml_engine.py` and `analysis_processor.py` wrappers.
- Mermaid text assembly is not modelled: `generate_base_diagram`, the `_add_*` string builders, `generate_analysis_report` and `FlowProcessor.generate_flow_diagram`. The node-selection part of `_add_cycle_highlighting` is modelled (`Diagram.CycleNodes`).
- Logging, `profile_block`, the profiling tags, every `debug_dump`, `__str__`/`__repr__`, and the `get_statistics` methods of the topology and the flow are reporting only.
- Plain getters that return a field or a copy carry no contract of their own and no row. These are `get_history`, `get_visited_items`, `get_warnings`, `get_blocks`, `get_block`, `get_items_by_block`, `get_code_init`, `get_current_item_id`, `get_dependency_chains`, `get_item_dependencies`, `get_constraints` and `get_all_z3_vars`. `PathBasedValidator.get_dead_code_items` returns `validate()`'s `dead_code_items` and is covered by `PathValidation.Validate`.
- `copy.deepcopy` of contexts, the dynamic `setattr` on `ItemProxy` and the package re-export files are object mechanics. Values are immutable in the model, so a copy is the value itself.
- A missing item `id` is the empty string: `item.get('id')` is falsy for both.
- Floating point, `None` in arithmetic, and strings other than through `hash` are outside the integer and boolean term language. In an expression such constants compile to 0, as `visit_Constant` does (pragmatic_compiler.py:55-67).
- Pragmatic.ElemValue: in a `for` container the source passes a float constant to z3's `IntVal`, which truncates it (2.7 gives 2). The syntax tree does not carry float values, so the model rejects a float element with `ForContainerElement`, as it does `None`, on which `IntVal` raises. A string element is modelled: a decimal numeral, optionally signed, gives its integer (`"12"` gives 12), and any other string raises. Other numeral forms z3 may accept, such as `"1.0"`, are treated as raising.
- Pragmatic.Compiler.ContainerLoop: same as `Pragmatic.ElemValue` for float elements.
- The builder reads items through a projection of the stored item: the id, control, input bounds, option values, condition predicates and code block. `min`, `max` and option `value`s are integers in that projection, and other kinds of value are not modelled.
- The builder's `except` clauses are modelled for a failed parse: the `parse` and `parseCode` parameters return `None`. The translators are total and return `None` where the source does. An exception raised inside z3 while translating is not modelled.
- Topology.QMLTopology.constructor: needs the ids to be distinct and the dependency map to have one entry per item that names only items. Item ids are unique by the data model, and `BuilderLinks.BuildFeedsTopology` proves the builder produces such a map.
- Topology.QMLTopology.FindCyclesDfs: proves only that a recorded cycle is a closed walk through items. That the DFS records a cycle whenever the graph has one is not proved. `has_cycles` is exact regardless, because of the ordering formula and Kahn's algorithm.
- TopologySearch.FindCycles: same as above.
- The min-heap of Kahn's algorithm is an ascending list of declaration indices. The order it pops in is the same, but the binary-heap layout of `heapq` is not modelled.
- PragmaticFaithful.CompileCodeFaithful: is stated for the integer-and-boolean fragment only, in which every divisor of `//`, `%`, `//=` and `%=` is positive. The compiled z3 `div` and `mod` differ from Python for a negative divisor (see "## Findings"), and Python raises for a zero one.
  - Every fresh variable is an integer (the default `z3var_func`), and set enumeration lists each name once.
  - Statements are single-name assignments, augmented assignments to a bound name, `if`/`else` in which both branches run in Python, `range(k)` loops with a literal `0 <= k <= 20`, and expression statements.
  - Expressions are int/bool literals, names, arithmetic, comparisons except ordering two booleans, `and`/`or`/`not`, and unary minus.
  - Lists, `in`, calls and `.outcome` are covered only by the per-construct lemmas in `PragmaticProps`.
- PragmaticFaithful.ExprFaithful: holds in the fragment of `CompileCodeFaithful`, so only for positive divisors of `//` and `%`.
- PragmaticFaithful.BinOpFaithful: holds only for positive divisors of `//` and `%`, as above.
- PragmaticFaithful.CompareFaithful: its operands are in that fragment, so only positive divisors of `//` and `%` occur in them.
- PragmaticFaithful.BoolOpFaithful: the same fragment as `ExprFaithful`.
- PragmaticFaithful.UnaryFaithful: the same fragment as `ExprFaithful`.
- PragmaticFaithful.StmtFaithful: the same fragment as `CompileCodeFaithful`.
- PragmaticFaithful.StmtsFaithful: the same fragment as `CompileCodeFaithful`.
- PragmaticFaithful.AssignFaithful: the same fragment as `CompileCodeFaithful`.
- PragmaticFaithful.AugAssignFaithful: the same fragment, so `//=` and `%=` only with a positive divisor.
- PragmaticFaithful.IfFaithful: the same fragment as `CompileCodeFaithful`.
- PragmaticFaithful.ForFaithful: the same fragment as `CompileCodeFaithful`.
- PragmaticFaithful.UnrollFaithful: the same fragment as `CompileCodeFaithful`.
- Pragmatic.CompileExpr: its own contract states only that compiling keeps the environment's bindings. What a compiled expression means is stated by `PragmaticFaithful.ExprFaithful` and, construct by construct, by `PragmaticProps.ArithmeticOnNumbers`, `PragmaticProps.CompileIn`, `PragmaticProps.InListIsDisjunction` and `PragmaticProps.OutcomeReadsCachedVariable`.
- Pragmatic.CompileExprs: its own contract states only the number of values and the kept bindings. Their meaning is stated by `PragmaticFaithful.ExprsFaithful` and `PragmaticProps.CompileListLit`.
- Pragmatic.ExecAssign: its own contract states only that the state grows. The binding it makes is stated by `PragmaticFaithful.AssignFaithful`, `PragmaticProps.AssignBindsFreshVariable` and `PragmaticProps.AssignOutcome`.
- Pragmatic.ExecAugAssign: its own contract states only the one added constraint and generation. The value is stated by `PragmaticFaithful.AugAssignFaithful`, `PragmaticProps.AugAssignBound` and `PragmaticProps.AugAssignUnboundStartsAtZero`.
- Pragmatic.AugUpdate: its own contract states only the one added constraint and generation. The value is stated by `PragmaticProps.AugAssignBound` and `PragmaticFaithful.AugAssignFaithful`.
- Pragmatic.Merge: its own contract states only that the state grows. What the merge binds is stated by `PragmaticProps.MergeMeaning`, `PragmaticFaithful.JoinRep` and `PragmaticFaithful.MergeWitness`.
- Pragmatic.MergeStep: its own contract states only that the state grows. Its binding and constraint are stated by `PragmaticProps.MergeStepMeaning`.
- Pragmatic.ExecIf: its own contract states only that the state grows. Its meaning is stated by `PragmaticFaithful.IfFaithful` and `PragmaticProps.IfMeaning`.
- Pragmatic.LoopValues: its own contract states only that at most 20 values are bound. Which values are bound is stated by `PragmaticProps.ForRangeUnrolls`, `PragmaticProps.ForConstantsUnroll`, `PragmaticProps.ForContainerLimit` and `PragmaticProps.ForRangeOutOfBounds`.
- Pragmatic.Unroll: its own contract states only that the state grows. Its meaning is stated by `PragmaticFaithful.UnrollFaithful`.
- Pragmatic.ExecFor: its own contract states only that the state grows. Its meaning is stated by `PragmaticFaithful.ForFaithful`, `PragmaticProps.ForRangeUnrolls` and `PragmaticProps.ForOtherIterableRaises`.
- Pragmatic.ExecStmt: its own contract states only that the state grows. Its meaning is stated by `PragmaticFaithful.StmtFaithful`.
- Pragmatic.ExecStmts: its own contract states only that the state grows. Its meaning is stated by `PragmaticFaithful.StmtsFaithful` and `PragmaticFaithful.CompileCodeFaithful`.
- An SSA name `item_target_gen` can coincide with a variable the code itself uses or an item id. The model keeps the source's plain string names. It proves only that two names built with different counters differ (`Strings.NumberedNamesDistinct`).
- ItemProxies.GroupIndices: item keys are read with ASCII digits only. `str.isdigit` also accepts other Unicode digits, so a key such as `_٣` is index 3 in Python and ignored here.
- ItemProxies.DecodeGroup: ASCII digits only, as above. With `_٣` as its only key Python builds a list of four entries where the model raises `ValueError`. A key such as `_²` passes `isdigit` but makes `int()` raise in Python, and the model ignores it.
- ItemProxies.DecodeMatrix: ASCII digits only, as above, so a cell key such as `_٣_0` is skipped where Python fills row 3.
- Loader.ItemCopy: `dict(item)` of a non-empty list of pairs, such as `[["id", "q1"]]`, builds a dictionary in Python. The model rejects every list but the empty one with `ItemNotADict`.
- Diagram.TruncateMeaning: guarantees the length `max_length` only for `max_length >= 3`. Below that, Python's negative slice applies, and `Diagram.TruncateShortLimit` shows what the source then produces.
- Flows.Forward: its own contract states only that the number of items is kept. What it returns is stated by `Flows.ForwardFinds`, `Flows.ForwardRaises`, `Flows.ForwardNeverEnables`, `Flows.LastDone` and `Flows.LastVisited`.
- Flows.ScanOne: its own contract states only the number of items and what a raising step leaves. The rest is stated by `Flows.OneFacts`.
- Flows.ScanPath: its own contract states only the number of items and that a raising scan finds nothing. The rest is stated by `Flows.ScanFacts`, `Flows.ScanStep` and `Flows.ScanKeepsFlags`.
- Flows.Process: its own contract states only that the number of items is kept. The outcomes are stated by `Flows.ProcessRejects`, `Flows.ProcessRejected`, `Flows.ProcessDone`, `Flows.ProcessFacts`, `Flows.ProcessStores` and `Flows.ProcessStoresOutcome`.
- Flows.Apply: its own contract states only that the number of items is kept. What each item goes through is stated by `Flows.ApplyAt`.
- Flows.Submitted: its own contract states only that the number of items is kept. The submitted outcome is decoded only in `Flows.ProcessFailure`, which is where the source's `from_outcome` can raise.
- Flows.Outcomes: a code block that deletes an item's proxy from the context makes `new_context[item['id']]` at flow_processor.py:457 raise `KeyError`. That is not modelled, because the runner's result has an outcome, or the exception of `to_outcome()`, for every item position.
- Flows.StoredOf: each item's outcome comes from a proxy built from that item. With two items sharing an id, the source's `new_context[item['id']]` gives both the proxy of the last one; the model does not follow that.
- ItemProxies.StoredOutcome: `to_outcome()` of a `Question`, `QuestionGroup` or `MatrixQuestion` proxy reads the `outcome` attribute; for those kinds `from_outcome` always sets it, so its `AttributeError` arises only for the other kinds.
- Flows.Propagated: a later item without a `context` dictionary makes flow_processor.py:479 raise after the outcomes were written. The model gives that item a fresh context. Items initialized by `_initialize_questionnaire` always carry one.
- Flows.FlowProcessor.constructor: the exception `_initialize_questionnaire` raises is kept in `initError` rather than raised. When the proxy loop raises, the items are left as they were. When a `to_outcome()` raises, the items before it are already initialized. The navigation path has already been stored in both cases, as in the source.
- Flows.FlowProcessor.constructor: requires every item to have a string `id` (`QuestionnaireStates.QuestionnaireState.HasIds`). An item without one makes `item['id']` at flow_processor.py:195 or :212 raise `KeyError`, and that is not modelled.
- Flows.FlowProcessor.Initialize: requires every item to have a string `id`, for the same `KeyError` as the constructor.
- Flows.FlowProcessor.StoreInitPath: requires every item to have a string `id`, for the `KeyError` of `item['id']` at flow_processor.py:195.
- Diagram.VisitedIds: a visited item without a string `id` is skipped. In the source, `item['id']` at qml_diagram.py:297 raises `KeyError` for a visited item with no `id`, and a non-string id goes into the set.
- Flows.PredicateOf: a condition that is not a dictionary gives the empty predicate, where `condition.get` raises `AttributeError`.
- Flows.HintOf: a condition that is not a dictionary gives the default hint, where `condition.get` raises `AttributeError`.
- Members whose contracts relate the new state to the old one with `old(...)` state the whole new state. These are the class methods and constructors of `Tables`, `ItemProxies`, `QuestionnaireStates`, `Flows`, `Pragmatic.Compiler`, `Builder` and `Topology`.

## Findings

| source | as written | input that shows it | evidently intended | confidence | as-written member | corrected member |
|---|---|---|---|---|---|---|
| askalot_qml/z3/pragmatic_compiler.py:132-135 | `//` compiles to z3 `div` and `%` to z3 `mod`, which round so that the remainder is never negative; the same mapping is used for `//=` and `%=` (lines 293-296) | `7 // -2` compiles to a term worth -3 and `7 % -2` to 1, where Python gives -4 and -1; for a positive divisor, such as `-10 // 3`, the two agree | Python's floor division and its remainder, whose sign follows the divisor, which the arithmetic unit tests describe as rounding toward negative infinity (tests/unit/z3/test_z3_arithmetic.py:239-246) | not executed | Pragmatic.ArithAsWrittenNegativeDivisor | Pragmatic.Arith |
