# Zix in Dafny

A verification project for Zix, a C++ implementation of the Nix language and its tools. It models the core of the
language and the stateful parts around it, and proves properties that hold for every input, every run or every
reachable state.

- **Scope resolution and evaluation** (`Syntax` to `Evaluator`). A static pass gives every variable the level and
  slot of its value; a lazy evaluator over a mutable heap then trusts these numbers. `Reference` is an independent,
  name-based semantics without heap, slots or sharing. `RunIsMeaning` and `MeaningIsRun` say that the evaluator
  computes exactly that semantics; `Runs` says what every evaluation keeps, black holes and errors included;
  `Entries` and `ProgramTrace` follow every forcing and every call inside a run and say exactly when a program ends
  with infinite recursion or stack overflow; `Evaluator` is the evaluator in imperative form, proved equal to the
  model step by step.
- **The parser's tree surgery** (`AttrTrees`, `AttrMerge`, `FormalsCheck`, `StripIndentation`).
- **Calls, attribute sets and equality** (`Calls`, `AttrSets`, `EqValues`), for the parts of the evaluator that the
  first group leaves abstract: batches of arguments, sorted arrays, `__overrides`, computed names, comparison.
- **The remote build hook** (`BuildHook`, `SlotProtocol`, `HookRuns`): one hook's decisions, the locks of any number of
  hooks as a transition system, and the former as steps of the latter.
- **The evaluation cache** (`EvalCache`): cursors over a table whose rows are replaced while old ids are in use.
- **The interactive scope, JSON and source positions** (`ReplScope`, `JsonSax`, `PosTable`).

Five promises turned out to hold only under a condition. Each has the exact condition and a counterexample:

- Merging sets keeps the sources of `inherit (e) ...` attributes if and only if no inherit-from node that moves to a
  set with sources is shared by two attributes (`SharedNodeCounterexample`, `MergeSetsDenotes`, `MergeListDenotes`).
- Indenting a `''` literal further gives the same string if and only if no line after an escaped newline starts with
  more spaces than are removed (`EscapedNewlineCounterexample`, `IndentationIrrelevantIff`).
- A source position resolves to its own file and offset if and only if no empty file was added before, the file does
  not start at the last two 32-bit numbers, and the offset is inside the file, or at its end while no other file is
  stored there (`EndOfFileCounterexample`, `NoRoomCounterexample`, `PositionResolvesIff`). The comment in
  `pos-table.hh` says that every origin can point to its end; the model follows the code.
- An integer that one session of the evaluation cache stores is read back by the next if and only if it fits 32 bits
  (`LargeIntegerIsLost`, `IntegerSessions`).
- A source path, asked for as a string through the evaluation cache, is answered alike every time if and only if its
  accessor shows it as its absolute path (`ShownPathDiffers`, `PathSessions`).

`dafny verify dfyconfig.toml` checks the project.

## Model

| member | source | states |
|---|---|---|
| `Scoping.Find` | src/libexpr/nixexpr.hh:510-516 | binary search in a static frame sorted by name finds the slot of the first entry with the name, and nothing exactly when there is none |
| `Scoping.FindSorted` | src/libexpr/nixexpr.hh:493-497 | stable sorting of a static frame never changes which slot a name is found in |
| `Scoping.BindVar` | src/libexpr/nixexpr.cc:301-337 | the loop up the static environments gives a variable the level and slot of its innermost lexical binding, else the innermost enclosing `with`, else the undefined-variable error |
| `Scoping.BindWith` | src/libexpr/nixexpr.cc:497-521 | the loop of a `with` finds how many environments separate it from the enclosing `with` and links to that one |
| `ScopeCheck.ResolvesIffScoped` | src/libexpr/nixexpr.cc:272-531 | for every expression and scope, resolution succeeds if and only if every variable is bound lexically or stands under a `with` (an independent definition of being in scope) |
| `ScopeCheck.ReportsFirstUnbound` | src/libexpr/nixexpr.cc:272-531 | for every expression and scope, resolution fails exactly when some variable is unbound, and the undefined-variable error names the first such variable in the order in which names are resolved |
| `Fuel.MoreFuel` | src/libexpr/eval.cc:1176-1836 | the reference semantics is deterministic in its budget: an outcome other than running out stays the same for every larger budget |
| `Runs.EvalKeeps` | src/libexpr/eval.cc:1176-1836 | every evaluation, ended by a value or an error, leaves the same cells black, changes no value and no filled slot, restores failed thunks and the call depth |
| `Runs.ForceKeeps` | src/libexpr/eval-inline.hh:85-107 | the same for forcing one cell, at any moment of any run |
| `Runs.ForceRestores` | src/libexpr/eval-inline.hh:85-107 | after forcing a cell the black cells and the call depth are exactly those from before; on an error the cell is again the thunk it was; on success forcing again gives the same value at once |
| `Entries.ReentryIsInfiniteRecursion` | src/libexpr/eval-inline.hh:85-107 | at every moment of every run at which a cell is forced, the black cells are exactly those being computed; so forcing is at once the infinite-recursion error if and only if the cell is being computed, however many others are too |
| `Entries.ThunkNeededByItself` | src/libexpr/eval-inline.hh:85-107 | a thunk that is forced again anywhere inside its own computation is the infinite-recursion error |
| `Entries.InfiniteRecursionIsReentry` | src/libexpr/eval-inline.hh:85-107 | a run ends with infinite recursion if and only if it forces, at any depth, a cell that is being computed |
| `Entries.OverflowIsTooDeep` | src/libexpr/eval-inline.hh:146-152 | a run ends with the stack-overflow error if and only if it enters a call, at any depth of nesting, while more calls are open than the limit allows; open calls are counted along the run, not read from the counter |
| `ProgramTrace.HowProgramsFail` | src/libexpr/eval-inline.hh:85-152 | for a whole program, printing included: stack overflow is reported if and only if its calls nest deeper than the limit, infinite recursion if and only if a cell is needed by its own computation |
| `ProgramTrace.MeaningUnlessTooDeep` | src/libexpr/eval.cc:1176-1836 | with enough fuel, a program that has a meaning gives stack overflow if its calls nest deeper than the limit and its meaning otherwise, nothing else |
| `Entries.MutualRecursion` | src/libexpr/eval-inline.hh:85-107 | two thunks that need each other: the first is forced again while both are black |
| `Runs.SlotsAndValuesAreFinal` | src/libexpr/eval.cc:1032-1072 | a filled environment slot keeps its cell and a computed value stays, over any evaluation |
| `Runs.DelayShares` | src/libexpr/eval.cc:1032-1072 | delaying a variable whose slot is filled gives the cell of that slot, so that it is computed once for all who share it; literals and the empty list are values at once, everything else is one new thunk |
| `Runs.BlackHolesKept` | src/libexpr/value.hh:490-498 | a run that keeps the state has exactly the black cells it started with |
| `Runs.CallFunctionKeeps` | src/libexpr/eval-inline.hh:146-152 | the call depth is back at its entry value when a call ends, also by an error |
| `Meaning.LexicalIsSlot` | src/libexpr/nixexpr.cc:301-337 | for every scope, the level and slot given to a variable lead to the slot of the run-time frame that holds the closure bound to that name |
| `Frames.MaybeThunkMeans` | src/libexpr/eval.cc:1032-1072 | the cell used for a delayed expression means that expression, also when a variable cell is shared early, a literal is stored directly or an empty list is built |
| `Frames.BuildInheritMeans` | src/libexpr/eval.cc:1205-1215 | the frame of the `inherit (e)` sources is filled completely and each slot means its source |
| `Frames.FillAttrsMeans` | src/libexpr/eval.cc:1237-1247 | while a recursive frame is only partly filled, each cell made for an attribute already means its definition, whichever kind it has |
| `Frames.BuildRecMeans` | src/libexpr/eval.cc:1309-1326 | the frame of a `rec` set or `let` ends up completely filled, each slot meaning the attribute of the same number |
| `FormalsMatch.CountIsExact` | src/libexpr/eval.cc:1573-1595 | for distinct formals without ellipsis, the counter equals the size of the set if and only if every attribute is a formal; otherwise the search for an unexpected attribute succeeds |
| `FormalsMatch.FillFormalsOutcome` | src/libexpr/eval.cc:1551-1572 | filling the formals fails exactly on the first formal that has neither an attribute nor a default, and otherwise counts the attributes used |
| `Soundness.SoundEval` | src/libexpr/eval.cc:1176-1836 | for every resolved expression, environment, heap and fuel, the value or genuine error of the heap evaluator is that of the name-based semantics, and the heap keeps its meaning, after an error too |
| `Soundness.SoundForce` | src/libexpr/eval-inline.hh:85-107 | forcing a cell gives the outcome of the closure it stands for, with cells shared, updated and black |
| `Soundness.SoundLookupWith` | src/libexpr/eval.cc:889-912 | walking from `with` to `with` finds the binding of the innermost enclosing `with` whose set has the name, landing on `with` frames only |
| `Soundness.SoundVarWith` | src/libexpr/eval.cc:1363-1368 | a variable without lexical binding has the value that its innermost providing `with` gives |
| `Soundness.SoundSelect` | src/libexpr/eval.cc:1390-1451 | selecting along a path, with or without a default, means the same as in the name-based semantics |
| `Soundness.SoundHasAttr` | src/libexpr/eval.cc:1470-1492 | the `?` operator means the same as in the name-based semantics |
| `Soundness.SoundCall` | src/libexpr/eval.cc:1733-1761 | a call with delayed arguments means the application of the function to the closures of its arguments |
| `Soundness.SoundCallFunctor` | src/libexpr/eval.cc:1705-1719 | calling a set with a functor means calling the functor with the set and then with the argument |
| `Soundness.SoundCallFormals` | src/libexpr/eval.cc:1527-1595 | calling a lambda with formals matches, defaults and fails as the name-based semantics does |
| `Soundness.SoundLet` | src/libexpr/eval.cc:1309-1326 | `let` means its body in the scope of its attributes |
| `Soundness.SoundWith` | src/libexpr/eval.cc:1822-1830 | `with` means its body under the delayed set |
| `Soundness.SoundAttrs` | src/libexpr/eval.cc:1217-1306 | an attribute set, recursive or not, means the closures of its definitions, each in the scope of its kind |
| `Progress.ProgressEval` | src/libexpr/eval.cc:1176-1836 | if the name-based semantics has an outcome within a budget, the evaluator reaches one with that fuel, never reports infinite recursion, and only the depth limit can stop it |
| `Progress.ProgressForce` | src/libexpr/eval-inline.hh:85-107 | the same for forcing a cell: a cell that is black has no outcome within the budget of what waits for it |
| `Adequacy.RunIsMeaning` | src/libexpr/eval.cc:1176-1836 | for every program that resolves, what the evaluator prints and every genuine error it reports is the meaning of the program; it never reads outside a frame or an empty slot |
| `Adequacy.MeaningIsRun` | src/libexpr/eval.cc:1176-1836 | every program that has a meaning is evaluated to it, unless the depth limit stops it, and is never said to recurse infinitely; a limit not below the length of the computation never stops it |
| `Adequacy.InfiniteRecursionIsReal` | src/libexpr/eval-inline.hh:85-107 | infinite recursion is reported only for programs that have no meaning |
| `Adequacy.RetryGivesTheSameError` | src/libexpr/eval-inline.hh:85-107 | forcing a cell again after a genuine error, on the heap the error left, gives the same error unless a limit stops it |
| `Adequacy.RunLeavesNoBlackHole` | src/libexpr/eval-inline.hh:85-107 | however a program ends, no cell is black and the call depth is zero |
| `Adequacy.InheritFromMeansSelect` | src/libexpr/nixexpr.cc:368-387 | `inherit (e) x` has the outcomes of `x = (e).x` |
| `Evaluator.EvalState.AllocEnv` | src/libexpr/eval-inline.hh:55-81 | a new environment with empty slots, everything else unchanged |
| `Evaluator.EvalState.WalkUp` | src/libexpr/eval.cc:889-893 | the loop over levels ends at the environment that many steps up |
| `Evaluator.EvalState.Delay` | src/libexpr/eval.cc:1032-1072 | the cell and heap that the model of delaying an expression gives |
| `Evaluator.EvalState.MakeInheritEnv` | src/libexpr/eval.cc:1205-1215 | the source environment built slot by slot |
| `Evaluator.EvalState.FillSet` | src/libexpr/eval.cc:1237-1247 | the attribute loop makes the bindings and fills the slots of the model |
| `Evaluator.EvalState.FillArgs` | src/libexpr/eval.cc:1551-1572 | the loop over the formals, with its counter and its error |
| `Evaluator.EvalState.ForceValue` | src/libexpr/eval-inline.hh:85-107 | marking, evaluating, storing the value or putting the thunk back, on the heap in place |
| `Evaluator.EvalState.SearchWiths` | src/libexpr/eval.cc:900-912 | the `with` search loop of `lookupVar`, forcing each set |
| `Evaluator.EvalState.SelectPath` | src/libexpr/eval.cc:1402-1451 | the selection loop with its default |
| `Evaluator.EvalState.HasPath` | src/libexpr/eval.cc:1477-1492 | the loop of the `?` operator |
| `Evaluator.EvalState.Eval` | src/libexpr/eval.cc:1176-1836 | evaluating in place computes exactly the modelled heap and outcome |
| `Evaluator.EvalState.CallFunction` | src/libexpr/eval.cc:1500-1504 | entering and leaving the call depth around the argument loop, refused when the depth is beyond the limit (`OverflowIsTooDeep`) |
| `Evaluator.EvalState.ApplyArgs` | src/libexpr/eval.cc:1522-1730 | the argument loop of a call |
| `Evaluator.EvalState.ApplyFormals` | src/libexpr/eval.cc:1527-1595 | matching the argument, counting, and the unexpected-argument error |
| `FormalsCheck.ValidateFormals` | src/libexpr/parser-state.hh:212-239 | accepts if and only if all names are distinct and differ from the argument name; accepted formals are sorted as the argument count of a call needs them; a repetition is reported by its smallest name, at the second of its positions |
| `FormalsCheck.SortSorts` | src/libexpr/parser-state.hh:214-217 | sorting rearranges the formals by name, and those of one name by position |
| `FormalsCheck.SortKeepsDistinct` | src/libexpr/parser-state.hh:214-217 | sorting keeps which names occur and whether they are distinct |
| `FormalsCheck.SortedDistinctIff` | src/libexpr/parser-state.hh:219-226 | in sorted order, comparing neighbours decides distinctness |
| `FormalsCheck.FindName` | src/libexpr/nixexpr.hh:312-317 | binary search says exactly whether a formal has the name |
| `AttrTrees.MergeDefinedIff` | src/libexpr/parser-state.hh:162-210 | two trees merge if and only if no path is defined in both and a leaf in one of them |
| `AttrTrees.MergeAt` | src/libexpr/parser-state.hh:162-210 | the merged tree has at every path what the first tree has there, else what the second has |
| `AttrTrees.MergeCommutesIff` | src/libexpr/parser-state.hh:173-177 | whether a merge succeeds never depends on its order; the two results are equal if and only if the `rec` markers of common sets agree |
| `AttrTrees.MergeAssociates` | src/libexpr/parser-state.hh:162-210 | merging is associative as a partial operation, markers included |
| `AttrTrees.AddAttrIsMerge` | src/libexpr/parser-state.hh:115-149 | adding a binding by its path is merging with the nested sets the path abbreviates |
| `AttrTrees.BuildIsOrderIndependent` | src/libexpr-tests/trivial.cc:180-228 | any two orders of the same non-recursive bindings build the same tree or are both rejected |
| `AttrTrees.BuildDefinedIff` | src/libexpr/parser-state.hh:115-210 | a list of bindings is accepted if and only if no two of them conflict, and the tree then has at each path what the first binding defining it has |
| `AttrTrees.BracesAreShorthand` | src/libexpr-tests/trivial.cc:180-228 | however a list of bindings mixes collapsed paths and nested braces, to any depth, it builds what the fully collapsed list builds, or both are rejected |
| `AttrTrees.SpellingIsIrrelevant` | src/libexpr-tests/trivial.cc:180-228 | two sources that collapse to the same non-recursive bindings in any order build the same tree or are both rejected |
| `AttrTrees.SixteenSpellings` | src/libexpr-tests/trivial.cc:200-228 | the sixteen spellings of two bindings below one path, in both orders: all build the same tree, all are rejected when the names are equal |
| `AttrTrees.MergeAllThen` | src/libexpr/parser-state.hh:162-210 | merging one list of trees after another is merging what the two lists give |
| `AttrMerge.AddDef` | src/libexpr/parser-state.hh:162-210 | binding one name in place, with the loop that moves the attributes of a merged set and shifts their source indices |
| `AttrMerge.MoveAll` | src/libexpr/parser-state.hh:178-201 | moving all attributes of a set into another, in whatever order, gives the merged set or the duplicate error |
| `AttrMerge.AddAttribute` | src/libexpr/parser-state.hh:115-149 | binding a path, with sets made for missing and for computed names; what the computed ones are is stated by `AddPathIsMerge` and `AddAllDynamics` |
| `AttrMerge.AddPathIsMerge` | src/libexpr/parser-state.hh:115-149 | binding any path, of static and computed names, is merging the nested set it abbreviates, sources, indices and computed attributes included |
| `AttrMerge.MergedDynamics` | src/libexpr/parser-state.hh:162-210 | merging puts the computed attributes of the second set after those of the first, in every nested set |
| `AttrMerge.NestedDynamics` | src/libexpr/parser-state.hh:115-149 | the set that a path abbreviates has, at the static names before its first computed name, exactly that name bound to what the rest of the path abbreviates |
| `AttrMerge.AddAllDynamics` | src/libexpr/parser-state.hh:115-210 | for every list of bindings and every static path, the computed attributes of the set there are those of the bindings whose paths go through a computed name there, in the order of the text |
| `AttrMerge.NestSetDenotes` | src/libexpr/parser-state.hh:115-149 | the set that a path abbreviates denotes the tree of its static names, which ends at a computed name |
| `AttrMerge.MergeSetsDefined` | src/libexpr/parser-state.hh:162-210 | the code refuses a merge exactly when the trees cannot be merged |
| `AttrMerge.MergeSetsDenotes` | src/libexpr/parser-state.hh:181-201 | the merged set denotes the merge of the two trees if and only if, wherever sets meet, the receiving one has no sources or no inherit-from node of the other is shared |
| `AttrMerge.MovedAttribute` | src/libexpr/parser-state.hh:181-190 | a moved `inherit (e) x` still selects from its source if and only if its node was shifted once or the receiving set has no sources |
| `AttrMerge.MergeListDenotes` | src/libexpr/parser-state.hh:178-201 | any sequence of merges of separate sets denotes the merged tree if and only if every single merge keeps the sources; otherwise some inherited attribute selects from a wrong source in the end |
| `AttrMerge.WrongStays` | src/libexpr/parser-state.hh:178-201 | an inherited attribute that lost its source never gets it back by later merges |
| `AttrMerge.UnsharedSteps` | src/libexpr/parser-state.hh:178-201 | if no inherit-from clause names two attributes, every merge of any sequence keeps the sources |
| `AttrMerge.MergeListDefined` | src/libexpr/parser-state.hh:162-210 | a sequence of merges is refused if and only if the trees cannot be merged, whatever happened to sources on the way |
| `AttrMerge.AddBindings` | src/libexpr/parser.y:393-432 | the bindings of a set added one after the other, up to the first that is refused |
| `AttrMerge.AddAllDenotes` | src/libexpr/parser-state.hh:115-210 | adding bindings with any paths to a set is refused if and only if the trees of their static names cannot be merged, and the set denotes the merged tree if and only if every merge on the way keeps the sources |
| `AttrMerge.StaticIsBuild` | src/libexpr/parser-state.hh:115-210 | for bindings of static paths the merged tree is the one that adding the bindings to a tree builds |
| `AttrMerge.AddAllIsOrderIndependent` | src/libexpr/parser-state.hh:115-210 | two orders of the same bindings that keep the sources give sets that denote the same tree of static names, or both are refused |
| `AttrMerge.BindingsAreSeparate` | src/libexpr/parser-state.hh:115-210 | expressions from different places of the text make bindings that satisfy what the results about sequences ask for |
| `AttrMerge.SharedNodeCounterexample` | src/libexpr/parser.y:415-432 | `{ inherit (x) p; }` merged with `{ inherit (y) q r; }` shifts the shared node twice, so `q` and `r` have no source |
| `StripIndentation.FindIndent` | src/libexpr/parser-state.hh:246-279 | the first pass finds the smallest indentation of a non-blank line, at most 1000000, where lines end at plain newlines |
| `StripIndentation.ScanFindsCommonIndent` | src/libexpr/parser-state.hh:246-279 | the character automaton of the first pass computes the line-based minimum |
| `StripIndentation.StripRemovesIndent` | src/libexpr/parser-state.hh:292-312 | the character automaton of the second pass removes from each line the smaller of its leading spaces and the indentation, and nothing else |
| `StripIndentation.StripText` | src/libexpr/parser-state.hh:292-312 | one text token of the second pass, with the state carried over |
| `StripIndentation.TrimLastLine` | src/libexpr/parser-state.hh:314-320 | exactly a last line of spaces after a newline is dropped |
| `StripIndentation.StripTokens` | src/libexpr/parser-state.hh:281-329 | interpolations keep their places between the stripped lines, and empty pieces are left out |
| `StripIndentation.StripIndent` | src/libexpr/parser-state.hh:241-346 | the whole function: stripped lines, last token trimmed, a plain string when there is nothing else |
| `StripIndentation.LinesAgreeIff` | src/libexpr/parser-state.hh:246-312 | the two passes agree on what the lines are if and only if no newline is escaped |
| `StripIndentation.IndentationIrrelevantIff` | src/libexpr/parser-state.hh:241-346 | for the returned string: indenting every line by more spaces, below the cap, gives the same result if and only if no line after an escaped newline starts with more spaces than are removed |
| `StripIndentation.StrippedIs` | src/libexpr/parser-state.hh:281-329 | the result is what the second pass makes of the literal without a blank last line of its last token |
| `StripIndentation.EscapedLeadOfTrimmed` | src/libexpr/lexer.l:196-219 | with escapes as the lexer makes them, a blank last line has no part in the condition |
| `StripIndentation.EscapedNewlineCounterexample` | src/libexpr/parser-state.hh:246-312 | the strings returned for a literal with an escaped newline followed by two spaces: indenting it by one removes one more space |
| `Calls.RunIsCurried` | src/libexpr/eval.cc:1500-1730 | a call with several arguments is the application to one argument after the other, for lambdas, primitive operations, partial applications and functors |
| `Calls.CallsBatch` | src/libexpr/eval.cc:1500-1730 | applying to `xs + ys` is applying to `xs` and the result to `ys`, errors and state included |
| `Calls.ChainsStayShort` | src/libexpr/eval.cc:1630-1690 | every value a call returns is no partial application or one that still waits for an argument, so missing-argument counts never underflow |
| `Calls.HonestParts` | src/libexpr/eval.cc:1500-1730 | if bodies, primitive operations and forcing make no complete chain except out of what their own calls return, no call at any depth makes one |
| `Calls.CallFunction` | src/libexpr/eval.cc:1522-1730 | the argument loop; all writes to the argument buffer of eight entries are in bounds |
| `Calls.CallPointer` | src/libexpr/eval.cc:1500-1510 | forcing the function within the depth limit before the loop |
| `Calls.WalkChain` | src/libexpr/eval.cc:1657-1665 | the walk to the primitive operation counts the collected arguments |
| `Calls.FillBuffer` | src/libexpr/eval.cc:1677-1683 | the buffer holds the collected arguments, oldest first, then the new ones |
| `Calls.MakeAppChain` | src/libexpr/eval.cc:1512-1520 | too few arguments extend the chain by one link each |
| `AttrSets.Bindings.constructor` | src/libexpr/attr-set.cc:14-23 | an empty array of the given capacity |
| `AttrSets.Bindings.PushBack` | src/libexpr/attr-set.hh:69-73 | one attribute more; there must be room |
| `AttrSets.Bindings.Get` | src/libexpr/attr-set.hh:83-89 | binary search finds exactly what the sorted attributes map the name to |
| `AttrSets.Bindings.Sort` | src/libexpr/attr-set.cc:40-43 | the attributes in name order |
| `AttrSets.Bindings.Assign` | src/libexpr/attr-set.hh:97-100 | one attribute replaced |
| `AttrSets.Grow` | src/libexpr/attr-set.hh:184-189 | a larger array with the same attributes |
| `AttrSets.SortKeeps` | src/libexpr/attr-set.cc:40-43 | sorting distinct names gives a strictly sorted sequence with the same map |
| `AttrSets.SortedIsUnique` | src/libexpr/attr-set.cc:40-43 | a map has only one strictly sorted sequence |
| `AttrSets.InsertStatics` | src/libexpr/eval.cc:1237-1247 | static attributes and their slots, in order |
| `AttrSets.ApplyOverrides` | src/libexpr/eval.cc:1257-1270 | overrides replace static attributes and their slots in place and append the others, within capacity |
| `AttrSets.InsertDynamics` | src/libexpr/eval.cc:1282-1301 | dynamic names are added one by one, sorting before each lookup; fails exactly as the map-based definition |
| `AttrSets.DynamicsIff` | src/libexpr/eval.cc:1282-1301 | dynamic attributes succeed if and only if all names evaluate, are distinct and new; the result is then the union |
| `AttrSets.DynamicsStop` | src/libexpr/eval.cc:1282-1301 | adding dynamic attributes stops at the first whose name fails to evaluate or is taken, the error is about that one, and the earlier ones are in the set |
| `AttrSets.DynamicsFail` | src/libexpr/eval.cc:1282-1301 | adding dynamic attributes fails if and only if there is such a place |
| `AttrSets.SetMeaningIff` | src/libexpr/eval.cc:1217-1306 | a set expression has a value if and only if its overrides and computed names evaluate and no computed name is taken by a static attribute, an override or another computed name |
| `AttrSets.SetMeaningAt` | src/libexpr/eval.cc:1217-1306 | each name is bound by a computed name, else by an override, else by a static attribute, and by nothing else |
| `AttrSets.EvalAttrs` | src/libexpr/eval.cc:1217-1306 | the result is strictly sorted, within capacity, and denotes statics overridden by `__overrides` plus the dynamic names; slots of a recursive set equal its bound values |
| `AttrSets.Update` | src/libexpr/eval.cc:1903-1938 | the one-pass merge of two sorted sets denotes their union preferring the second, strictly sorted |
| `EqValues.CompareValues` | src/libexpr/eval.cc:2730-2811 | the comparison loops compute the declarative equality, whose cases `SetsEqualIff`, `CopyIsEqualIff` and `EqualIsAlike` state |
| `EqValues.AssertEqual` | src/libexpr/eval.cc:2526-2727 | passes if and only if the values are equal, and a failure gives a reason that is true of the values; the dead end after a name mismatch is never reached |
| `EqValues.AssertLists` | src/libexpr/eval.cc:2607-2625 | lists pass if and only if they have equal length and equal elements, and a failure gives a true reason |
| `EqValues.AssertSets` | src/libexpr/eval.cc:2643-2696 | sets pass if and only if they are equal by position, and a name mismatch always names a missing attribute |
| `EqValues.FirstMismatch` | src/libexpr/eval.cc:2657-2676 | at the first difference in names of two sorted sets, the smaller name is missing in the other |
| `EqValues.SetsEqualByName` | src/libexpr/eval.cc:2785-2793 | comparing sorted sets by position is comparing them name by name |
| `EqValues.SetsEqualIff` | src/libexpr/eval.cc:2774-2795 | two sets are equal if and only if either both bind `type` to the string `derivation` and both bind `outPath`, and their `outPath`s are equal, or one does not and they bind the same names to equal values |
| `EqValues.CopyIsEqualIff` | src/libexpr/eval.cc:2730-2811 | a value equals a copy of itself in other cells if and only if it has no function and no not-a-number in the parts that are compared, which for a derivation is its `outPath` alone |
| `EqValues.EqualIsAlike` | src/libexpr/eval.cc:2730-2811 | equal values in different cells have one type and, if they have no parts, the same contents, or are an integer and its floating-point form; functions are never equal |
| `EqValues.EqualSymmetric` | src/libexpr/eval.cc:2730-2811 | equality is symmetric, derivations, pointers and mixed numbers included |
| `BuildHook.SelectMachine` | src/build-remote/build-remote.cc:135-183 | the selection loop returns the first machine that is as good as every other among the enabled machines that fit and have a free slot, its first free slot, and whether any machine fits; what fits and what is good is stated on systems, features, speeds and numbers of locked slots |
| `BuildHook.ProbeSlots` | src/build-remote/build-remote.cc:148-159 | probing counts the locked slots and keeps the first free one |
| `BuildHook.KeepBest` | src/build-remote/build-remote.cc:163-181 | the chain of comparisons keeps a best machine of those seen so far |
| `BuildHook.BetterTransitive` | src/build-remote/build-remote.cc:166-176 | the comparison of machines is transitive |
| `BuildHook.BetterIff` | src/build-remote/build-remote.cc:163-177 | one machine displaces another if and only if the other is not as good: by load in proportion to speed, then by speed, then by load, stated without division |
| `BuildHook.LoadIsCount` | src/build-remote/build-remote.cc:148-159 | the load is the number of locked slots |
| `BuildHook.Hook.HandleRequest` | src/build-remote/build-remote.cc:130-253 | one reply per request; accept, postpone and decline each exactly when stated; every failed attempt was on the best machine then and disables it for good |
| `BuildHook.DisableOne` | src/build-remote/build-remote.cc:248-249 | disabling a machine leaves one enabled machine less |
| `BuildHook.Hook.Serve` | src/build-remote/build-remote.cc:98-254 | without machines the permanent refusal and nothing read; otherwise each request is answered rightly for the machines that earlier requests left, up to the first that is accepted |
| `HookRuns.GuidedStepTracks` | src/build-remote/build-remote.cc:135-183 | each lock step that the selection loop makes keeps what the hook remembers equal to the state of that loop |
| `HookRuns.ChoosesTheBest` | src/build-remote/build-remote.cc:130-234 | among any steps of any number of other hooks, the slot a hook commits to is the first free one of the machine the selection loop returns |
| `HookRuns.GivesUpWhenNoneFree` | src/build-remote/build-remote.cc:185-227 | a hook that postpones or declines found no usable machine with a free slot |
| `SlotProtocol.StepKeepsInv` | src/build-remote/build-remote.cc:106-254 | every lock step of any hook keeps: the lock table is what the hooks hold, and only the holder of the main lock probes |
| `SlotProtocol.ReachableInv` | src/build-remote/build-remote.cc:106-254 | the invariant holds in every state of every run of any number of hooks |
| `SlotProtocol.AtMostMaxJobs` | src/build-remote/build-remote.cc:150-159 | at most `maxJobs` hooks use a machine at once |
| `SlotProtocol.SlotsAreExclusive` | src/build-remote/build-remote.cc:150-159 | no slot is held by two hooks |
| `SlotProtocol.LoadIsRealUse` | src/build-remote/build-remote.cc:156-158 | a slot counted as load is held by another hook that has committed to it, never by a probe |
| `SlotProtocol.FullMeansAllLocked` | src/build-remote/build-remote.cc:150-162 | a machine skipped as full had every slot locked |
| `SlotProtocol.WaitingHoldsNothing` | src/build-remote/build-remote.cc:106-133 | a hook that waits for a request or for the main lock holds no lock |
| `SlotProtocol.MainLockIsGivenBack` | src/build-remote/build-remote.cc:132-234 | every own step of the main-lock holder releases the lock or leaves less to probe |
| `SlotProtocol.MainHolderIsNeverStuck` | src/build-remote/build-remote.cc:132-234 | the main-lock holder can always take a step by itself |
| `EvalCache.InsertOk` | src/libexpr/eval-cache.cc:121-298 | inserting or replacing a row under a fresh id keeps: every id ever issued has one path and one type, and every row is true of its path |
| `EvalCache.IntegerSessions` | src/libexpr/eval-cache.cc:200-216 | an integer at any path, evaluated in one session and read in the next: the second answer is what 32 bits hold of it, so it is the integer if and only if it fits |
| `EvalCache.LargeIntegerIsLost` | src/libexpr/eval-cache.cc:200-216 | the integer 2^31 comes back negative |
| `EvalCache.PathSessions` | src/libexpr/eval-cache.cc:467-469 | a source path at any path, asked for as a string: first as its accessor shows it, from then on and in later sessions as the absolute path |
| `EvalCache.ShownPathDiffers` | src/libexpr/eval-cache.cc:467-469 | a path that its accessor shows with a prefix is answered in two ways |
| `EvalCache.FirstForce` | src/libexpr/eval-cache.cc:448-482 | the exact rows that walking to a leaf and forcing it leave in an empty table |
| `EvalCache.SecondRead` | src/libexpr/eval-cache.cc:494-530 | in a later session the cursor at that path knows exactly what was written |
| `EvalCache.LeafIsRemembered` | src/libexpr/eval-cache.cc:463-482 | a leaf that has been evaluated is not evaluated again: its row and cursor are true of it, and questions are answered from them whatever another evaluation would give |
| `EvalCache.Cache.Reopen` | src/libexpr/eval-cache.cc:346-367 | a later session on the same rows is valid |
| `EvalCache.Cache.GetRoot` | src/libexpr/eval-cache.cc:378-381 | a cursor at the root |
| `EvalCache.Cache.GetKey` | src/libexpr/eval-cache.cc:394-403 | the key of a cursor belongs to its path, also when the row of its parent was replaced meanwhile |
| `EvalCache.Cache.QueryAttr` | src/libexpr/eval-cache.cc:300-343 | what a row says is true of its path |
| `EvalCache.Cache.Write` | src/libexpr/eval-cache.cc:149-298 | a leaf row replaces the old one under a new id |
| `EvalCache.Cache.SetAttrs` | src/libexpr/eval-cache.cc:121-147 | a full set row with one placeholder per attribute, every other row as before |
| `EvalCache.Cache.Lookup` | src/libexpr/eval-cache.cc:497-498 | a cursor that knows nothing reads its row |
| `EvalCache.Cache.ForceValue` | src/libexpr/eval-cache.cc:448-482 | the value of plain evaluation, stored when it is a leaf; the exact new table and cursors |
| `EvalCache.Cache.MaybeGetAttr` | src/libexpr/eval-cache.cc:494-551 | a child exists exactly as in plain evaluation, in any interleaving of cursors; the exact new table and cursors |
| `EvalCache.Cache.FindAlongAttrPath` | src/libexpr/eval-cache.cc:571-583 | a path is found if and only if it exists |
| `EvalCache.Cache.GetBool` | src/libexpr/eval-cache.cc:654-674 | the boolean, or the type error, of plain evaluation, and exactly the row that remembers it |
| `EvalCache.Cache.GetString` | src/libexpr/eval-cache.cc:585-605 | the string, or the type error, of plain evaluation; for a source path possibly its absolute path; the exact new table and cursors |
| `EvalCache.Cache.GetInt` | src/libexpr/eval-cache.cc:676-696 | the integer that the cursor or its row knows, else that of plain evaluation; the exact new table and cursors |
| `EvalCache.Cache.GetAttrs` | src/libexpr/eval-cache.cc:731-762 | the attribute names of plain evaluation, and exactly the rows that list them |
| `ReplScope.LatestBindingWins` | src/libcmd/repl.cc:783-810 | after any session every name has the value of its latest accepted binding since the last reset, and slots stay below 32768 |
| `ReplScope.FilledSlotsStay` | src/libcmd/repl.cc:783-810 | until a reset, operations fill new slots only, so slots resolved earlier keep their values |
| `ReplScope.RunFollowsLog` | src/libcmd/repl.cc:745-810 | after any session the static frame is strictly sorted and finds the slot of the latest binding of each name |
| `ReplScope.Deduplicate` | src/libexpr/nixexpr.hh:499-508 | the two-index loop keeps the last of each run of equal names |
| `ReplScope.DedupFindsLast` | src/libexpr/nixexpr.hh:493-508 | sorting stably and removing duplicates finds the last entry of a name |
| `ReplScope.Repl.InitEnv` | src/libcmd/repl.cc:745-755 | an empty scope over a new frame |
| `ReplScope.Repl.AddAttrsToScope` | src/libcmd/repl.cc:783-797 | all attributes in new slots, or no change when the frame would be full |
| `ReplScope.Repl.AddVarToScope` | src/libcmd/repl.cc:800-810 | one variable in a new slot, replacing the entry of its name, or no change when the frame is full |
| `JsonSax.FeedReads` | src/libexpr/json-to-value.cc:15-172 | from any state, the events of a text are accepted if and only if its integers fit and no text has a null byte; they then build exactly its value, restore the state stack and change no other cell |
| `JsonSax.ParseReads` | src/libexpr/json-to-value.cc:174-180 | a whole text is read into the given cell with the last duplicate member winning |
| `JsonSax.HoldsKept` | src/libexpr/json-to-value.cc:28-34 | what a cell holds depends only on the cells made for it |
| `JsonSax.Parser.Value` | src/libexpr/json-to-value.cc:28-34 | the cell of the next value, made on first use |
| `JsonSax.Parser.Store` | src/libexpr/json-to-value.cc:85-130 | a value stored and added to the innermost state |
| `JsonSax.Parser.Handle` | src/libexpr/json-to-value.cc:85-167 | each event handler does the modelled step or reports the modelled error |
| `JsonSax.PrintsBackIff` | src/libexpr/value-to-json.cc:13-106 | printing a value that was read gives it back if and only if no set in it has `outPath` or `__toString` |
| `JsonSax.OutPathIsPrinted` | src/libexpr/value-to-json.cc:48-57 | a set with `outPath` and without `__toString` prints as its `outPath` does, through any number of such sets |
| `JsonSax.PrintFailsIff` | src/libexpr/value-to-json.cc:48-57 | printing fails if and only if it comes to a set with `__toString` |
| `JsonSax.PrintCellPrints` | src/libexpr/value-to-json.cc:13-106 | printing a cell of the heap prints the value it holds |
| `JsonSax.ReadThenPrintIff` | src/libexpr/value-to-json.cc:13-106 | reading a text and printing the cell it was read into gives the value of the text if and only if no object in it has such a member |
| `PosTable.PositionResolvesIff` | src/libexpr/pos-table.hh:41-73 | for any sequence of origins below 2^32 in all, a position resolves to its own origin and offset, also later, if and only if no empty origin came before, the origin starts before the last two numbers, and the offset is inside, or at the end while nothing is stored there |
| `PosTable.AfterShape` | src/libexpr/pos-table.hh:55-66 | origins lie side by side up to the first empty one or the last two numbers, after which the table never changes |
| `PosTable.LostOrigin` | src/libexpr/pos-table.hh:55-66 | an origin added after an empty one, or at the last two numbers, is lost: its positions belong to another |
| `PosTable.EndOfFileCounterexample` | src/libexpr/pos-table.hh:68-73 | the end position of the first of two files resolves to the second |
| `PosTable.NoRoomCounterexample` | src/libexpr/pos-table.hh:60-66 | an empty origin right after one of 2^32 - 2 bytes is not stored and its position is not its own |
| `PosTable.OverflowCheckIff` | src/libexpr/pos-table.hh:60-64 | exactly when the overflow check triggers: below the last two 32-bit offsets only for sizes just below 2^64, at these two, where adding two wraps around, for sizes below them |
| `PosTable.Table.Add` | src/libexpr/pos-table.hh:55-66 | adding an origin to the ordered table |
| `PosTable.Table.ResolveIndex` | src/libexpr/pos-table.hh:41-51 | the entry before the first one that starts later |

## Left out

- Evaluator.EvalState.Eval: covers literals, variables, lambdas, calls, `let`, sets, `inherit`, selection, `?`, `with`, `if` and lists; operators, strings, paths, assertions and primitive operations are not in this language (partial application of primitive operations is modelled in `Calls`).
- Soundness.SoundAttrs: without `__overrides` and computed attribute names, which the language of the evaluator excludes; both are modelled in `AttrSets.EvalAttrs` on already delayed values.
- Evaluator.EvalState.ApplyArgs: primitive operations, which this language does not have, are not among the functions applied; `Calls.CallFunction` covers them.
- Soundness.SoundCallFormals: the frame of the call is made after the argument has been forced, not before; nothing can reach the frame in between, only the numbering of environments differs.
- Frames.MaybeThunkMeans: a literal gets a new cell at each visit, where the program shares the cell of the syntax node; the identity of that cell is not observed in the modelled language.
- Scoping.BindVar: resolution returns an annotated tree instead of writing into the nodes; the nodes of a syntax tree have one parent each.
- Fuel.MoreFuel: a budget stands for the length of a computation; a computation that never ends has no outcome for any budget.
- AttrMerge.AddDef: nested sets are values owned by one parent, so updating one in place is returning a new tree; inherit-from nodes are shared by name within a set.
- AttrMerge.AddAllDenotes: the tree is that of static names; what is below a computed name is stated by `AddAllDynamics` instead, in the order of the text.
- AttrMerge.MoveAll: the positions and the text of the duplicate error are not modelled.
- AttrTrees.BracesAreShorthand: braces are without `rec`; a `rec` set is a value here, since its marker depends on which binding came first (`MergeCommutesIff`).
- StripIndentation.StripIndent: tokens from escapes are taken to be non-empty, as the lexer makes them.
- StripIndentation.IndentationIrrelevantIff: nothing is claimed for indentations that reach the cap of 1000000; the equivalence with all lines, blank last line included, is for escapes as the lexer makes them.
- Calls.CallFunction: what primitive operations and function bodies do is a parameter; they are taken to return forced values and to make complete chains only out of what their calls return. Partial applications are values, since their links are never updated or compared.
- AttrSets.EvalAttrs: names of dynamic attributes come as already evaluated; the limit of 2^32 attributes and positions are not modelled.
- AttrSets.Bindings.Sort: a sorted copy is computed by insertion and written back; how the library sorts is not modelled, only its unique result.
- EqValues.CompareValues: values are forced and finite; how an integer compares to a floating-point number is a parameter, external values compare by identity.
- BuildHook.SelectMachine: speed factors are real numbers, so rounding of load ratios is not modelled.
- BuildHook.Hook.HandleRequest: locks and connections are answered by a given world, which `HookRuns` ties to the shared locks; parsing requests and the upload phase after the reply are not modelled.
- SlotProtocol.StepKeepsInv: operating-system failures of lock operations are not modelled; machines have distinct lock file names.
- EvalCache.Cache.MaybeGetAttr: evaluation never fails on the paths used; failed rows, database failures and the memory of forced values are not modelled.
- EvalCache.Cache.GetString: strings with context and lists of strings are not modelled; how an accessor shows a path is given with the path.
- EvalCache.Cache.FindAlongAttrPath: the suggestions for a missing attribute are not computed, only the attributes are read for them.
- JsonSax.FeedReads: the text is given as a tree with its events; splitting characters into events is the library's. Negative integers below 64 bits and floating-point digits are left to it too.
- JsonSax.PrintsBackIff: covers values that were read from JSON; paths, functions, external values and string contexts are not modelled.
- PosTable.PositionResolvesIff: for sizes that add up to 2^32 or more nothing is claimed; line and column numbers are not modelled.
- ReplScope.LatestBindingWins: loading files and flakes is taken as the bindings they add; the set of names for completion is not modelled.
- The store, fetchers, flakes, the command line, the C interface and all user-interface code are not modelled: they would only add easy members or need input and output.
- Garbage collection, statistics, traces, positions in messages and the debugger are not modelled: they do not change results.
