# Verified models of the configuration engine and the chat gateways

This project models four parts of the repository and proves what they are relied on for.

**The Kconfig engine** (`tools/kconfiglib/kconfiglib.py`). Symbols and choices are numbered items; their
visibilities, values and selections are the one solution of an equation per item (`kconfig_model.dfy`).
The class `Kconfig` (`kconfig_engine.dfy`) evaluates lazily with caches and invalidates recursively; its
invariant is that every cached field can be recomputed from other cached fields by the same
short-circuiting evaluation, which makes every cached value equal to the from-scratch one
(`kconfig_cache.dfy`, `kconfig_support.dfy`, `kconfig_coherence.dfy`). On top of it are exclusivity of
choices and exactness of `assignable` (`kconfig_props.dfy`, `kconfig_assign.dfy`), what every value means in
terms of prompts, defaults, selects and user values (`kconfig_meaning.dfy`), the `.config` reader and writers and their
round trips (`config_*.dfy`), the expression parser and printer (`expr_text.dfy`), the dependency-loop
check and what passing it is worth (`loop_check*.dfy`), macro expansion (`macros.dfy`,
`macro_calls.dfy`), and the menu tree: finalizing by rewriting links, the walk, nesting, and dependency propagation (`menu_*.dfy`).

**The gateway wire code** (`apps/mimiclaw/channels`). WebSocket framing over a partially filled receive
buffer (sections 5.2 and 5.3 of RFC 6455; one model with the capacity as a parameter, as both bots use
the same code), the Protocol Buffers frame codec ("Base 128 Varints" and "Message Structure" in the
Protocol Buffers Encoding guide), and reassembly of fragmented messages. The `*_format.dfy` files say what
the bytes are without the encoders.

**At-most-once intake** (`seen_ring.dfy`, `feishu_intake.dfy`, `telegram_intake.dfy`): the rings of seen
keys and the stored update offset.

**The cron job table** (`apps/mimiclaw/cron/cron_service.c`): a pass that deletes while it scans, and
what holds over whole runs.

Main results, hardest first:

- the minimal and the full configuration lose nothing, but for comments that read as assignments:
  `ConfigRoundTrip.MinConfigRoundTrip`, `ConfigFull.FullConfigRoundTrip`, and in place
  `ConfigIO.SaveMinAndReload`, `ConfigIO.SaveAndReload`; and the minimal one is minimal:
  `ConfigMinimal.MinimalPlain`, `ConfigMinimal.MinimalChoice`;
- caches are coherent after any sequence of reads, sets and unsets: every method of
  `KconfigEngine.Kconfig` keeps `Valid()`, which by `KconfigCoherence.SupportedCoherent` makes every
  cached field equal to the from-scratch evaluation;
- finalizing the menu tree by rewriting links keeps definition order and nests as it should:
  `MenuWalk.FinalizeMenu`, `MenuNesting.FinalNesting`;
- dependency propagation preserves meaning: `MenuDeps.PropagateMenu`;
- streams of frames are reassembled whatever the reads: `WebSocketStream.AllDelivered`;
- codec and framing round trips: `Protobuf.FrameRoundTrip`, `WebSocket.DecodeWire`;
- the loop check is sound and complete without choices, and a configuration can be ranked, so that its
  values are determined, exactly if there is no loop through MODULES either: `LoopCheckRanks.CheckConfig`,
  `LoopCheckRanks.Stratify`;
- printing and parsing expressions: `ExprText.PrintParse`; macro expansion: `Macros.WholeAppend`;
- fragments, duplicates, offsets and cron over all runs: `Fragments.SlotHoldsSession`,
  `FeishuIntake.AtMostOnce`, `TelegramIntake.StoredIsClose`, `CronRuns.AnyRun`,
  `CronPromises.FiringsKeepPromises`.

Some expected properties do not hold of the code as it stands. Each is stated with the exact condition
under which it does, and with an input that breaks it:

- `assignable` is not exact when visibility and select are both m and the symbol is implied to y
  (`KconfigProps.AssignableExact`, `KconfigProps.AssignableNotExact`);
- loading the full configuration back switches off a visible, unselected bool that is y when a menu or
  comment behind it is titled like its "is not set" line (`ConfigFull.FullConfigRoundTrip`,
  `ConfigFull.FullConfigNotFixed`); a header can do the same to a symbol that the minimal configuration
  leaves out (`ConfigRoundTrip.MinConfigRoundTrip`, `ConfigFull.MinConfigNotFixed`);
- the minimal configuration writes an int or hex although nothing is set when its default lies outside its
  range (`ConfigMinimal.MinimalPlain`, `ConfigMinimal.ClampedIsWritten`);
- fragments of different messages are mixed when an id of more than 95 bytes is followed by its own
  95-byte prefix (`Fragments.NoMixing`, `Fragments.LongIdsMix`);
- the loop check passes although no order of evaluation exists when MODULES depends on a tristate symbol
  (`LoopCheckRanks.Stratify`, `LoopCheckRanks.ModulesLoopMissed`).

How the models are set up: user values, times, random masks, read outcomes and the success of a save are
parameters. `WellFormed` stands for a passed loop check and for the choice rules the engine warns about;
without choices `LoopCheckRanks` derives the ranking from the check itself. Menu nodes are numbers with
`next`, `list` and `parent` fields. An `m-free` state (`ConfigRoundTrip.State`) has no tristates and no
literal m, no optional choices and no `option env` or `defconfig_list` symbols; that prompts carry the
dependencies of their symbol, and those of choice symbols their choice, is what
`MenuDirect.PropagatedWithinDeps` and `MenuDirect.PropagatedGuarded` derive from propagation.

## Model

| member | source | states |
|---|---|---|
| `KconfigModel.StepSettles` | tools/kconfiglib/kconfiglib.py:4306-4573 | two environments that agree on all values settled before a level agree, after one application of every item's equation, on the next level: visibility, mode, selection and values depend only on lower levels |
| `KconfigModel.SolutionUnique` | tools/kconfiglib/kconfiglib.py:4306-4525 | in a configuration that passed the loop check, visibility, value and selection of every item are determined by the user values alone |
| `KconfigModel.Values` | tools/kconfiglib/kconfiglib.py:4306-4544 | a from-scratch evaluation exists: the result satisfies the equation of every symbol and choice |
| `KconfigModel.SolutionIs` | tools/kconfiglib/kconfiglib.py:4306-4525 | whatever satisfies all equations is the from-scratch evaluation |
| `KconfigModel.ExprAgree` | tools/kconfiglib/kconfiglib.py:6012-6069 | the value of an expression depends only on the items it mentions |
| `KconfigModel.VisAgree` | tools/kconfiglib/kconfiglib.py:6314-6341 | visibility depends only on prompt conditions, MODULES and the mode of the own choice |
| `KconfigModel.TriAgree` | tools/kconfiglib/kconfiglib.py:4447-4525 | a tristate value (or choice mode) depends only on items of lower rank, the own visibility and the selection of the own choice |
| `KconfigModel.SelAgree` | tools/kconfiglib/kconfiglib.py:5449-5478 | the selection depends only on the mode and on the visibilities of the choice's symbols |
| `KconfigModel.StrAgree` | tools/kconfiglib/kconfiglib.py:4306-4445 | a text value depends only on the own visibility and tristate value and on items of lower rank |
| `KconfigCoherence.SupportedCoherent` | tools/kconfiglib/kconfiglib.py:4884-4941 | when every cached field follows from the other cached fields by the partial, short-circuiting evaluation, every cached visibility, value, assignable set and selection equals the from-scratch evaluation |
| `KconfigCoherence.ExprSound` | tools/kconfiglib/kconfiglib.py:6024-6069 | a short-circuit evaluation over a partial cache that gives a result gives the full value |
| `KconfigSupport.SupportKept` | tools/kconfiglib/kconfiglib.py:3486-3559 | the cached fields of an item stay supported when the items in its dependency sets keep their caches |
| `KconfigSupport.PrunedSupported` | tools/kconfiglib/kconfiglib.py:4884-4941 | clearing the changed item and, through the dependents, everything cached above it leaves every remaining cached field supported, although clearing stops at items without a cached visibility |
| `KconfigSupport.VisibleDependsOnChoice` | tools/kconfiglib/kconfiglib.py:3537-3559 | a choice symbol with a cached non-n visibility is among the dependents of its choice |
| `KconfigSupport.CacheVis` | tools/kconfiglib/kconfiglib.py:4536-4544 | storing a visibility computed from supported caches keeps all caches supported |
| `KconfigSupport.CacheTri` | tools/kconfiglib/kconfiglib.py:4447-4525 | the same for a tristate value |
| `KconfigSupport.CacheStr` | tools/kconfiglib/kconfiglib.py:4306-4445 | the same for a text value |
| `KconfigSupport.CacheAsg` | tools/kconfiglib/kconfiglib.py:4527-4533 | the same for an assignable set |
| `KconfigSupport.CacheSel` | tools/kconfiglib/kconfiglib.py:5260-5267 | the same for a selection |
| `KconfigEngine.Kconfig.RecInvalidate` | tools/kconfiglib/kconfiglib.py:4890-4919 | clears the item and everything cached that depends on it, only clears, and ends, on cyclic choice/symbol dependents too |
| `KconfigEngine.Kconfig.SetValue` | tools/kconfiglib/kconfiglib.py:4582-4670 | user values, was-set marks and the return value as the assignment rules say; all caches stay coherent |
| `KconfigEngine.Kconfig.UnsetValue` | tools/kconfiglib/kconfiglib.py:4672-4680 | removes exactly the symbol's user value; all caches stay coherent |
| `KconfigEngine.Kconfig.SetChoiceMode` | tools/kconfiglib/kconfiglib.py:5269-5308 | sets the mode when the type admits it; all caches stay coherent |
| `KconfigEngine.Kconfig.UnsetChoice` | tools/kconfiglib/kconfiglib.py:5310-5318 | removes mode and user selection; all caches stay coherent |
| `KconfigEngine.Kconfig.InvalidateIfPrompt` | tools/kconfiglib/kconfiglib.py:4921-4941 | after a change to one symbol's user value, invalidating it only if it has a prompt is enough for coherence |
| `KconfigEngine.Kconfig.EvalExpr` | tools/kconfiglib/kconfiglib.py:6012-6069 | the cached, short-circuiting evaluation returns the from-scratch value of the expression and only adds to the caches |
| `KconfigEngine.Kconfig.VisibilityOf` | tools/kconfiglib/kconfiglib.py:4536-4544 | returns and caches the from-scratch visibility |
| `KconfigEngine.Kconfig.ChoiceMode` | tools/kconfiglib/kconfiglib.py:5214-5232 | returns the from-scratch mode of a choice |
| `KconfigEngine.Kconfig.SelectionOf` | tools/kconfiglib/kconfiglib.py:5449-5463 | returns and caches the from-scratch selection |
| `KconfigEngine.Kconfig.SelectionFromDefaultsOf` | tools/kconfiglib/kconfiglib.py:5465-5478 | returns the selection that defaults and visibility give |
| `KconfigEngine.Kconfig.TriValueOf` | tools/kconfiglib/kconfiglib.py:4447-4525 | returns and caches the from-scratch tristate value |
| `KconfigEngine.Kconfig.StrValueOf` | tools/kconfiglib/kconfiglib.py:4306-4445 | returns and caches the from-scratch text value, with range clamping |
| `KconfigEngine.Kconfig.AssignableOf` | tools/kconfiglib/kconfiglib.py:4527-4533 | returns and caches the from-scratch assignable set of a symbol or choice |
| `KconfigEngine.SetUserValid` | tools/kconfiglib/kconfiglib.py:4582-4670 | an assignment keeps user values typed and user selections inside their choices |
| `KconfigProps.SelectionIs` | tools/kconfiglib/kconfiglib.py:5449-5478 | a selection exists only in y mode, is a visible symbol of the choice, and exists if any symbol of the choice is visible in y mode |
| `KconfigProps.ChoiceSymValue` | tools/kconfiglib/kconfiglib.py:4514-4522 | no choice symbol exceeds the mode; in y mode a symbol is y exactly when it is the selection |
| `KconfigProps.ChoiceExclusive` | tools/kconfiglib/kconfiglib.py:4514-4522 | in every reachable state, tristates included: in y mode at most one symbol is y, the others n, and one is y exactly if one is visible; in m mode nothing exceeds m; in n mode all are n |
| `KconfigProps.SetKeepsOwnBounds` | tools/kconfiglib/kconfiglib.py:4473-4512 | setting a symbol leaves its own visibility, select and imply values unchanged |
| `KconfigProps.ValueAfterSetIs` | tools/kconfiglib/kconfiglib.py:4473-4512 | the value a symbol takes when set, in terms of visibility, select and imply before the call |
| `KconfigProps.ReachableIs` | tools/kconfiglib/kconfiglib.py:4473-4512 | which values setting a visible bool or tristate can reach |
| `KconfigProps.AssignableExact` | tools/kconfiglib/kconfiglib.py:4838-4882 | `assignable` is exactly the set of reachable values if and only if it is not the case that visibility and select are m and imply is y |
| `KconfigProps.AssignableNotExact` | tools/kconfiglib/kconfiglib.py:4882-4882 | a concrete configuration of the exceptional kind: `assignable` is (m), the symbol is y |
| `Numbers.DigitsRoundTrip` | tools/kconfiglib/kconfiglib.py:4340-4445 | digits written in base 10 or 16 read back as the number |
| `Numbers.FormatRoundTrip` | tools/kconfiglib/kconfiglib.py:4402-4424 | a clamped default written by str() or hex() reads back in its base as the same number |
| `ConfigText.EscapeStep` | tools/kconfiglib/kconfiglib.py:6204-6212 | replacing backslashes and then quotes acts on each character once |
| `ConfigText.UnescapeEscape` | tools/kconfiglib/kconfiglib.py:6204-6222 | unescape(escape(s)) = s for every string |
| `ConfigText.StringRoundTrip` | tools/kconfiglib/kconfiglib.py:1310-1330 | the loader reads a written string value back as the same string |
| `ConfigText.KeyRoundTrip` | tools/kconfiglib/kconfiglib.py:1310-1340 | the loader reads a written key value back |
| `ConfigText.SetLineMatches` | tools/kconfiglib/kconfiglib.py:1269-1290 | a written assignment line is read as that name and value, for every such name |
| `ConfigText.UnsetLineMatches` | tools/kconfiglib/kconfiglib.py:1269-1350 | a written "is not set" line is read as such, and not as an assignment, for every name without "=", blanks and line breaks |
| `ConfigText.EndUnsetsNothing` | tools/kconfiglib/kconfiglib.py:1629-1636 | an end-of-menu comment never reads as an "is not set" line |
| `ConfigText.CommentSetsNoName` | tools/kconfiglib/kconfiglib.py:1273-1279 | what a comment line assigns by the first pattern is no symbol |
| `ConfigFile.OutTextConcat` | tools/kconfiglib/kconfiglib.py:1598-1671 | text is written piece by piece |
| `ConfigFile.MinOutsAre` | tools/kconfiglib/kconfiglib.py:1710-1745 | the minimal configuration has one entry for exactly the symbols that can be changed and are not at their default (`ConfigMinimal` says which these are) |
| `ConfigFile.LoadEntry` | tools/kconfiglib/kconfiglib.py:1269-1377 | reading a written entry assigns the symbol the value it was written with |
| `ConfigFile.LoadNote` | tools/kconfiglib/kconfiglib.py:1336-1357 | a comment line changes nothing, or sets to n the bool it reads as "is not set" of |
| `ConfigFile.UnsetTitleSwitchesOff` | tools/kconfiglib/kconfiglib.py:1336-1357 | a comment called like an "is not set" line switches its symbol off |
| `ConfigFile.LoadOutText` | tools/kconfiglib/kconfiglib.py:1247-1377 | loading written text amounts to assigning its entries, and switching off the symbols that its comments name, in order |
| `ConfigRoundTrip.LoadWritten` | tools/kconfiglib/kconfiglib.py:1247-1377 | the user values after loading written entries and comments in place of the old ones, choices included |
| `ConfigRoundTrip.ReloadKeepsExactly` | tools/kconfiglib/kconfiglib.py:4306-4525 | if every symbol left out is invisible, selected or at its default, and every choice keeps its selection, all values are as before exactly if no plain, visible, unselected bool that is y was switched off |
| `ConfigRoundTrip.SwitchedSymbol` | tools/kconfiglib/kconfiglib.py:4473-4512 | switching a bool off leaves its value exactly if it is invisible, in a choice, n, or selected |
| `ConfigRoundTrip.MinSufficient` | tools/kconfiglib/kconfiglib.py:1710-1745 | what the minimal configuration leaves out is not needed: defaults, selects, implies, ranges and choice selection bring it back |
| `ConfigRoundTrip.MinConfigRoundTrip` | tools/kconfiglib/kconfiglib.py:1710-1745 | in every m-free state, loading the minimal configuration gives every symbol and choice the same values as before, exactly unless a header line reads as "is not set" of a symbol left out because it is y by default |
| `ConfigRoundTrip.MinConfigLosesNothing` | tools/kconfiglib/kconfiglib.py:1717-1745 | without a header, loading the minimal configuration never changes a value |
| `ConfigFull.FullOutsAre` | tools/kconfiglib/kconfiglib.py:1598-1671 | the full configuration has one entry for each symbol that is written, however often it is defined |
| `ConfigFull.FullConfigRoundTrip` | tools/kconfiglib/kconfiglib.py:1598-1671 | in every m-free state, writing the configuration and loading it back changes no value, exactly if no heading written behind a symbol reads as "is not set" of it while it is a plain bool that is visible, y and not selected |
| `ConfigFull.FullOff` | tools/kconfiglib/kconfiglib.py:1618-1671 | a written symbol is off after loading exactly if a heading behind its first node switches it off |
| `ConfigFull.FullConfigNotFixed` | tools/kconfiglib/kconfiglib.py:1665-1671 | a concrete configuration with a comment behind a symbol for which writing and loading back changes a value |
| `ConfigFull.MinConfigNotFixed` | tools/kconfiglib/kconfiglib.py:1714-1717 | a concrete configuration and header for which the minimal configuration changes a value |
| `ConfigIO.LoadConfig` | tools/kconfiglib/kconfiglib.py:1247-1377 | the loader: lines are applied in order; when replacing, everything not assigned is then unset; caches stay coherent |
| `ConfigIO.LoadOneLine` | tools/kconfiglib/kconfiglib.py:1269-1360 | the effect of one line on user values and marks |
| `ConfigIO.ConfigStringOf` | tools/kconfiglib/kconfiglib.py:4546-4573 | the entry of a symbol, empty if it is not written |
| `ConfigIO.StrDefaultOf` | tools/kconfiglib/kconfiglib.py:4943-4976 | the value the symbol would have without a user value |
| `ConfigIO.IsInMinConfig` | tools/kconfiglib/kconfiglib.py:1710-1745 | the decision whether a symbol goes into the minimal configuration |
| `ConfigIO.MinConfigContents` | tools/kconfiglib/kconfiglib.py:1710-1745 | the header and the text of the minimal configuration |
| `ConfigIO.ConfigContents` | tools/kconfiglib/kconfiglib.py:1598-1671 | the header and the text of the full configuration over a walk of the menu tree |
| `ConfigIO.SaveMinAndReload` | tools/kconfiglib/kconfiglib.py:1247-1377 | writing the minimal configuration and loading it in place leaves every value as it was, exactly unless the header overrules a symbol |
| `ConfigIO.SaveAndReload` | tools/kconfiglib/kconfiglib.py:1247-1377 | writing the full configuration and loading it in place leaves every value as it was, exactly unless a heading overrules a symbol |
| `ExprText.DisjSound` | tools/kconfiglib/kconfiglib.py:3396-3480 | the tokens the parser consumes are those of the derivation it finds |
| `ExprText.DisjComplete` | tools/kconfiglib/kconfiglib.py:3396-3480 | every expression of the grammar that the next token does not continue is found |
| `ExprText.LineParses` | tools/kconfiglib/kconfiglib.py:2599-2605 | a line is accepted exactly when the grammar derives it, with one derivation |
| `ExprText.RightNestedValue` | tools/kconfiglib/kconfiglib.py:3431-3445 | nesting chains of && and || to the right changes no value |
| `ExprText.PrintParse` | tools/kconfiglib/kconfiglib.py:6088-6129 | printing and parsing gives the right-nested form, with the same value in every environment, exactly for expressions without choices; otherwise parsing fails |
| `ExprText.Parser.ParseExpr` | tools/kconfiglib/kconfiglib.py:3396-3435 | returns what the grammar gives at the current token; never reads past the terminator |
| `ExprText.Parser.ParseAndExpr` | tools/kconfiglib/kconfiglib.py:3437-3445 | the same for conjunctions |
| `ExprText.Parser.ParseFactor` | tools/kconfiglib/kconfiglib.py:3446-3480 | the same for factors, with m rewritten to m && MODULES on request |
| `ExprText.Parser.CheckToken` | tools/kconfiglib/kconfiglib.py:2607-2613 | moves on exactly if the token is there |
| `ExprText.ParseExprAndEol` | tools/kconfiglib/kconfiglib.py:2599-2605 | a whole line, or an error on trailing tokens |
| `LoopCheck.Search.CheckSym` | tools/kconfiglib/kconfiglib.py:6587-6659 | marks, path and finishing order stay consistent; a partial result is a path back to a symbol on the way, a reported one a loop without repetitions |
| `LoopCheck.NoLoop` | tools/kconfiglib/kconfiglib.py:6587-6659 | if every symbol finishes after its dependents there is no loop |
| `LoopCheck.CheckDepLoops` | tools/kconfiglib/kconfiglib.py:1115-1122 | no loop is reported if and only if there is none; a reported one is genuine |
| `LoopCheckRanks.FinishedStratifies` | tools/kconfiglib/kconfiglib.py:6587-6659 | the finishing order of a search over the dependents, with tristates counted as dependents of MODULES, ranks the configuration so that all values are determined |
| `LoopCheckRanks.StratifiedHasNoLoop` | tools/kconfiglib/kconfiglib.py:6587-6659 | a configuration that can be ranked has no loop among these dependents |
| `LoopCheckRanks.CheckConfig` | tools/kconfiglib/kconfiglib.py:1115-1122 | without choices, a loop is reported if and only if there is one; where MODULES is undefined or nothing is tristate the check passes exactly when a ranking exists |
| `LoopCheckRanks.Stratify` | tools/kconfiglib/kconfiglib.py:6587-6659 | without choices, a ranking exists exactly if the dependents, with tristates counted as dependents of MODULES, have no loop |
| `LoopCheckRanks.ModulesLoopMissed` | tools/kconfiglib/kconfiglib.py:3486-3535 | a concrete configuration in which MODULES depends on a tristate: the check passes, and no ranking exists |
| `Macros.AllowanceSpent` | tools/kconfiglib/kconfiglib.py:2831-2848 | each expansion under way uses up one unit of the variables' allowance |
| `Macros.CallAppend` | tools/kconfiglib/kconfiglib.py:2762-2822 | text behind a macro call neither changes its value nor is touched by it |
| `Macros.WholeAppend` | tools/kconfiglib/kconfiglib.py:2680-2693 | text is expanded piece by piece: what one piece expanded to is never looked at again |
| `Macros.Expander.ExpandWhole` | tools/kconfiglib/kconfiglib.py:2680-2693 | ends with a result or an error; the result is the index-free expansion; expansion counts are restored |
| `Macros.Expander.ExpandMacro` | tools/kconfiglib/kconfiglib.py:2762-2822 | ends; splices the value of the call in place and returns the position behind it |
| `Macros.Expander.FnVal` | tools/kconfiglib/kconfiglib.py:2824-2879 | variables (refused when plain and already being expanded, or past 100 nested calls), functions with argument limits, environment |
| `MenuTree.FlattenOrder` | tools/kconfiglib/kconfiglib.py:6504-6531 | moving children of promptless entries up changes no order |
| `MenuTree.LevelOrder` | tools/kconfiglib/kconfiglib.py:6504-6556 | flattening and removing ifs keeps the order of all other nodes |
| `MenuTree.HeadOrder` | tools/kconfiglib/kconfiglib.py:3601-3644 | finalizing an entry, with its implicit submenu, keeps the order |
| `MenuTree.AllTidy` | tools/kconfiglib/kconfiglib.py:3601-3644 | afterwards there are no ifs, and only choices and entries with a prompt have children |
| `MenuTree.FinalOrder` | tools/kconfiglib/kconfiglib.py:1937-1941 | the final tree lists exactly the parsed nodes without ifs, in definition order, and all symbol nodes |
| `MenuFinalize.Menu.FlattenLevel` | tools/kconfiglib/kconfiglib.py:6504-6531 | rewriting the links yields the flattened level and touches nothing else |
| `MenuFinalize.Menu.MoveUp` | tools/kconfiglib/kconfiglib.py:6517-6529 | children are spliced behind their parent |
| `MenuFinalize.Menu.RemoveIfEntries` | tools/kconfiglib/kconfiglib.py:6533-6556 | rewriting the links removes exactly the ifs of the level |
| `MenuFinalize.Menu.AbsorbEntries` | tools/kconfiglib/kconfiglib.py:3607-3620 | the implicit submenu is tilted up under its symbol |
| `MenuFinalize.Menu.FinalizeKids` | tools/kconfiglib/kconfiglib.py:3634-3638 | each child is finalized once, whatever earlier ones absorbed |
| `MenuFinalize.Menu.FinalizeNode` | tools/kconfiglib/kconfiglib.py:3601-3644 | the links afterwards form the finalized tree; nodes outside are untouched |
| `MenuWalk.NodeIter` | tools/kconfiglib/kconfiglib.py:1954-1976 | the walk ends, visits every node below the top once, in order, and yields all of them or only the first node of each symbol |
| `MenuWalk.YieldedSymbols` | tools/kconfiglib/kconfiglib.py:1970-1976 | the symbols yielded are the visited ones, or their first occurrences |
| `MenuWalk.FinalizeMenu` | tools/kconfiglib/kconfiglib.py:1937-1941 | after finalizing, the tree is nested as `MenuNesting` says and the walk gives the parsed nodes without ifs in definition order; its symbols are the defined symbols, or the unique defined symbols |
| `MenuDeps.MakeAndValue` | tools/kconfiglib/kconfiglib.py:2883-2895 | the simplified conjunction has the minimum as its value |
| `MenuDeps.MakeOrValue` | tools/kconfiglib/kconfiglib.py:2897-2909 | the simplified disjunction has the maximum as its value |
| `MenuDeps.UpdatedSettles` | tools/kconfiglib/kconfiglib.py:3657-3705 | one step of propagation gives an entry's conditions their full meaning |
| `MenuDeps.Propagation.PropagateDeps` | tools/kconfiglib/kconfiglib.py:3657-3705 | each child gets its parent's dependencies (or the choice itself) and the visible-if conditions; other nodes are untouched |
| `MenuDeps.Propagation.Propagate` | tools/kconfiglib/kconfiglib.py:3622-3638 | every entry below a node gets what its parent hands down |
| `MenuDeps.UpdatedMeans` | tools/kconfiglib/kconfiglib.py:3657-3705 | once everything is handed down, all conditions mean what they should |
| `MenuDeps.PropagateMenu` | tools/kconfiglib/kconfiglib.py:3622-3707 | in every environment, a prompt condition is the minimum of its own condition, the entry's dependencies, those around it up to the nearest choice, whose mode stands for what is above, and all enclosing visible-ifs |
| `MenuDirect.PropagatedWithinDeps` | tools/kconfiglib/kconfiglib.py:3709-3722 | a symbol with a visible prompt has its direct dependencies met |
| `MenuDirect.ChoiceGuardsEntries` | tools/kconfiglib/kconfiglib.py:3657-3672 | after propagation the mode of a choice bounds the dependencies and prompts of everything below it, down to the next choice |
| `MenuDirect.PropagatedGuarded` | tools/kconfiglib/kconfiglib.py:3657-3672 | so the prompts of choice symbols are guarded by their choice, as the cache argument needs |
| `KconfigMeaning.StrCmpOrders` | tools/kconfiglib/kconfiglib.py:6389-6392 | two texts compare as their first differing characters, a proper prefix being less |
| `KconfigMeaning.RelationMeaning` | tools/kconfiglib/kconfiglib.py:6047-6069 | a relation is y exactly if the relation it names holds: between the numbers if both operands read as numbers and are not both texts, otherwise in the lexicographic order |
| `KconfigMeaning.NumberMeaning` | tools/kconfiglib/kconfiglib.py:6395-6403 | bools and tristates count as 0, 1 and 2, written int and hex values as the number they stand for |
| `KconfigMeaning.ExprMeaning` | tools/kconfiglib/kconfiglib.py:6012-6069 | the value of an expression is at least n, m or y exactly as the reading of &&, ||, ! and the relations says |
| `KconfigMeaning.VisibilityMeaning` | tools/kconfiglib/kconfiglib.py:6314-6341 | outside choices, visibility is what the best prompt gives, and m only for a tristate while modules are enabled |
| `KconfigMeaning.ChoiceSymVisibilityMeaning` | tools/kconfiglib/kconfiglib.py:6314-6341 | a choice symbol is visible as its prompts and the mode and type of the choice allow |
| `KconfigMeaning.DefaultMeaning` | tools/kconfiglib/kconfiglib.py:4484-4490 | the default in effect is the first whose condition is not n |
| `KconfigMeaning.RangeMeaning` | tools/kconfiglib/kconfiglib.py:4342-4355 | the range in effect is the first whose condition is not n |
| `KconfigMeaning.PlainValueMeaning` | tools/kconfiglib/kconfiglib.py:4473-4512 | a plain symbol is at least t exactly if the visible user value, or else the first default or an imply with met dependencies, or a select asks for it; an m that cannot stay becomes y |
| `KconfigMeaning.ChoiceSymValueMeaning` | tools/kconfiglib/kconfiglib.py:4514-4522 | a choice symbol is y exactly if it is selected, and m exactly if it is visible to m and set by the user |
| `KconfigMeaning.ModeMeaning` | tools/kconfiglib/kconfiglib.py:5214-5232 | the mode is what the user set, within visibility, at least m unless the choice is optional, and not m where it cannot be |
| `KconfigMeaning.SelectionMeaning` | tools/kconfiglib/kconfiglib.py:5449-5478 | in y mode a visible user selection wins, then the first default that holds and is visible, then the first visible symbol |
| `KconfigMeaning.TextMeaning` | tools/kconfiglib/kconfiglib.py:4424-4434 | a string has its user value while it is visible, otherwise its first default that holds |
| `KconfigMeaning.IntHexMeaning` | tools/kconfiglib/kconfiglib.py:4333-4422 | an int or hex has its user value while that is visible and within the first range that holds, otherwise its default, or the end of the range that the default misses |
| `KconfigMeaning.WrittenMeaning` | tools/kconfiglib/kconfiglib.py:4306-4525 | a bool or tristate outside choices is written exactly if it is visible or not n, a choice symbol exactly if visible; others exactly if visible or given a default, unless they come from the environment |
| `KconfigAssign.SetStoresTri` | tools/kconfiglib/kconfiglib.py:4622-4668 | "n", "m" and "y" are stored as these values, m for tristates only, and a choice symbol set to y becomes the user selection; nothing else changes |
| `KconfigAssign.SetStoresText` | tools/kconfiglib/kconfiglib.py:4622-4656 | text is stored as it is if the type accepts it: any for strings, decimal for ints, non-negative hexadecimal for hexes |
| `KconfigAssign.ModeAfterSetIs` | tools/kconfiglib/kconfiglib.py:5269-5308 | the mode a choice takes when set, in terms of visibility and type |
| `KconfigAssign.ChoiceAssignableExact` | tools/kconfiglib/kconfiglib.py:5430-5447 | `assignable` of a visible choice is exactly the set of modes that setting it can give |
| `KconfigAssign.SettingSelects` | tools/kconfiglib/kconfiglib.py:4656-4668 | setting a choice symbol that is visible in y mode to y makes it y and all others of the choice n |
| `Numbers.DigitsAre` | tools/kconfiglib/kconfiglib.py:4340-4445 | the sixteen digits in both cases, and nothing else |
| `Numbers.ParseDigitsMeaning` | tools/kconfiglib/kconfiglib.py:4340-4445 | positional notation, digit by digit |
| `ConfigMinimal.MinimalPlain` | tools/kconfiglib/kconfiglib.py:1719-1731 | in every m-free state, a symbol outside choices has an entry in the minimal configuration exactly if taking back its user value would change its value, or its default is clamped to the value it has |
| `ConfigMinimal.MinimalChoice` | tools/kconfiglib/kconfiglib.py:1733-1743 | a choice symbol has one exactly if it is selected and would not be without the user selection |
| `ConfigMinimal.ClampedIsWritten` | tools/kconfiglib/kconfiglib.py:1729-1731 | a concrete int with a default below its range: nothing is set, and it is written all the same |
| `ConfigLoading.LoadTri` | tools/kconfiglib/kconfiglib.py:1281-1311 | a line that assigns a bool or tristate stores what its first letter says, sets the mode and selection of its choice, and changes nothing else; other texts change nothing |
| `ConfigLoading.LoadUnset` | tools/kconfiglib/kconfiglib.py:1336-1359 | an "is not set" line stores n for a bool or tristate and has no effect on other symbols |
| `ConfigLoading.LoadUnknown` | tools/kconfiglib/kconfiglib.py:1275-1279 | lines about names that are no symbols change nothing |
| `ConfigFull.ExampleText` | tools/kconfiglib/kconfiglib.py:1618-1671 | the text of a file with a visible menu, its end, a symbol behind it on two nodes, and a hidden menu |
| `ExprText.Precedence` | tools/kconfiglib/kconfiglib.py:3396-3480 | relations bind more tightly than !, ! than &&, && than ||; parentheses group |
| `MenuNesting.FinalNesting` | tools/kconfiglib/kconfiglib.py:3601-3644 | which nodes are below each node of the final tree: below a choice or a menu with a prompt exactly those parsed below it that are not ifs, below a symbol with a prompt its implicit submenu, below anything else none |
| `MenuNesting.LevelSettles` | tools/kconfiglib/kconfiglib.py:6504-6556 | flattening and removing ifs leaves children exactly to choices and entries with a prompt |
| `MenuNesting.AllNested` | tools/kconfiglib/kconfiglib.py:3634-3638 | the same nesting for every list of parsed entries |
| `MacroCalls.ArgumentsAreNumbered` | tools/kconfiglib/kconfiglib.py:2824-2848 | `$(k)` in a variable stands for argument k of the call that expands it, `$(0)` for its name |
| `MacroCalls.VariableExpands` | tools/kconfiglib/kconfiglib.py:2831-2848 | a variable stands for its text, and is an error inside itself |
| `MacroCalls.FunctionExpands` | tools/kconfiglib/kconfiglib.py:2850-2870 | a function is called with its name and arguments if their number fits, and is an error otherwise |
| `MacroCalls.EnvironmentExpands` | tools/kconfiglib/kconfiglib.py:2873-2877 | other names come from the environment and are empty if they are not there |
| `MacroCalls.ParensKeepCommas` | tools/kconfiglib/kconfiglib.py:2783-2818 | commas inside parentheses do not separate arguments |
| `MacroCalls.ArgumentsExpandFirst` | tools/kconfiglib/kconfiglib.py:2820-2822 | macros in an argument are expanded before the call |
| `MacroCalls.DepthLimit` | tools/kconfiglib/kconfiglib.py:2839-2848 | with arguments, a variable is refused exactly if it is being expanded more than 100 times already |
| `MacroCalls.RunawayRefused` | tools/kconfiglib/kconfiglib.py:2834-2848 | a variable that only calls itself ends in an error |
| `WebSocket.XorTwice` | apps/mimiclaw/channels/discord_bot.c:376-382 | masking with a byte twice gives the byte back |
| `WebSocket.BigEndianRoundTrip` | apps/mimiclaw/channels/discord_bot.c:355-366 | length bytes read back as the length |
| `WebSocket.DecodeWire` | apps/mimiclaw/channels/discord_bot.c:464-540 | for every opcode, mask and payload up to the capacity less 16, and whatever follows: the decoder returns low-nibble opcode, payload and frame length, and reports every proper prefix as not ready |
| `WebSocket.SentFrameDecodes` | apps/mimiclaw/channels/discord_bot.c:334-386 | what the sender puts on the wire is decoded as the low four bits of the opcode and the payload |
| `WebSocket.BuildHeader` | apps/mimiclaw/channels/discord_bot.c:340-370 | the two, four or ten header bytes of a masked frame |
| `WebSocket.SendFrame` | apps/mimiclaw/channels/discord_bot.c:334-386 | the bytes sent are those of the frame with FIN, the opcode, the mask and the masked payload |
| `WebSocket.Connection.DecodeOne` | apps/mimiclaw/channels/discord_bot.c:464-540 | decodes the first buffered frame; error when it exceeds the limit; the buffer is left alone |
| `WebSocket.Connection.ConsumeRx` | apps/mimiclaw/channels/discord_bot.c:542-552 | drops the first bytes of the buffer by shifting |
| `WebSocket.Connection.PollFrame` | apps/mimiclaw/channels/discord_bot.c:554-601 | decode, else read and decode again; outcome and new buffer contents |
| `WebSocketStream.ReceiveInStep` | apps/mimiclaw/channels/discord_bot.c:554-601 | each poll hands over the next frame or waits: no overflow, no over-long frame, and there is progress |
| `WebSocketStream.RunInStep` | apps/mimiclaw/channels/discord_bot.c:554-601 | over any run of polls and any split into reads, the delivered frames are a prefix and the buffer is the undelivered rest |
| `WebSocketStream.AllDelivered` | apps/mimiclaw/channels/feishu_bot.c:1172-1301 | for any stream of frames of at most the capacity less 1024 bytes, split into reads of at most 1024 bytes, the polls deliver exactly the frames in order |
| `WebSocketFormat.XorIsExclusiveOr` | apps/mimiclaw/channels/discord_bot.c:376-382 | a bit of a masked byte is set exactly if the bits of byte and mask differ |
| `WebSocketFormat.MaskedIs` | apps/mimiclaw/channels/discord_bot.c:376-382 | byte i is masked, bit by bit, with byte i mod 4 of the mask; a zero mask changes nothing |
| `WebSocketFormat.HeadIs` | apps/mimiclaw/channels/discord_bot.c:340-370 | the header bytes of a masked frame: the shortest length form, most significant byte first |
| `WebSocketFormat.SentBytes` | apps/mimiclaw/channels/discord_bot.c:334-386 | the bytes of a short frame: FIN and opcode, mask bit and length, the mask with its low byte first, the masked payload |
| `WebSocketFormat.AnyLengthForm` | apps/mimiclaw/channels/discord_bot.c:464-540 | the decoder takes any of the three length forms that the length fits in |
| `WebSocketFormat.TooLong` | apps/mimiclaw/channels/discord_bot.c:464-540 | a frame over the limit is refused exactly as soon as its header and mask are buffered |
| `WebSocketStream.PollConserves` | apps/mimiclaw/channels/discord_bot.c:554-601 | a closed link is reported exactly if no frame is waiting, a full buffer exactly if the read does not fit; a poll drops nothing but the frame it hands over |
| `ProtobufFormat.VarintIs` | apps/mimiclaw/channels/feishu_bot.c:1615-1629 | byte k of a varint is digit k to the base 128, with the top bit on all but the last |
| `ProtobufFormat.VarintIsShortest` | apps/mimiclaw/channels/feishu_bot.c:1615-1629 | no varint ends in a zero byte but that of 0 |
| `ProtobufFormat.FieldIs` | apps/mimiclaw/channels/feishu_bot.c:1631-1653 | a field is its number and kind in one byte, then the number, or the length and the bytes |
| `ProtobufFormat.HeaderBytesAre` | apps/mimiclaw/channels/feishu_bot.c:1655-1705 | a header with key "a" and value "b" is 0a 01 61 12 01 62 |
| `ProtobufFormat.FrameBytesAre` | apps/mimiclaw/channels/feishu_bot.c:1655-1705 | all bytes of one frame, with a negative service id, a header and a payload |
| `ProtobufFormat.LongHeadersAreCut` | apps/mimiclaw/channels/feishu_bot.c:1416-1468 | keys are cut to 63 bytes and values to 255 |
| `ProtobufFormat.WrongKindRefused` | apps/mimiclaw/channels/feishu_bot.c:1470-1573 | a known field of the wrong kind makes the frame invalid |
| `ProtobufFormat.CutOffRefused` | apps/mimiclaw/channels/feishu_bot.c:1470-1573 | so does a field that is cut off |
| `Protobuf.VarintRoundTrip` | apps/mimiclaw/channels/feishu_bot.c:1359-1378 | every 64-bit number written as a varint is read back, whatever follows |
| `Protobuf.NarrowWiden` | apps/mimiclaw/channels/feishu_bot.c:1655-1705 | int32 values survive widening to uint64 and narrowing |
| `Protobuf.HeaderRoundTrip` | apps/mimiclaw/channels/feishu_bot.c:1416-1468 | a header is read back with key and value |
| `Protobuf.ParseFieldsRead` | apps/mimiclaw/channels/feishu_bot.c:1470-1573 | parsing written fields applies them in order |
| `Protobuf.FrameRoundTrip` | apps/mimiclaw/channels/feishu_bot.c:1655-1705 | parsing the encoding of any valid frame returns it |
| `Protobuf.UnknownFieldsIgnored` | apps/mimiclaw/channels/feishu_bot.c:1380-1414 | an unknown field between the fields changes nothing |
| `ProtobufCodec.ReadVarintAt` | apps/mimiclaw/channels/feishu_bot.c:1359-1378 | the reading loop: value and next offset, or failure, as the format says |
| `ProtobufCodec.ReadBodyAt` | apps/mimiclaw/channels/feishu_bot.c:1380-1414 | skips or reads a field body, never past the end |
| `ProtobufCodec.ParseHeaderBytes` | apps/mimiclaw/channels/feishu_bot.c:1416-1468 | the header parser, with truncation to 63 and 255 bytes |
| `ProtobufCodec.ParseFrame` | apps/mimiclaw/channels/feishu_bot.c:1470-1573 | the frame parser over an advancing offset |
| `ProtobufCodec.Buffer.Append` | apps/mimiclaw/channels/feishu_bot.c:1575-1613 | the growing buffer keeps its contents and gets the new bytes at the end |
| `ProtobufCodec.Buffer.WriteVarint` | apps/mimiclaw/channels/feishu_bot.c:1615-1629 | appends the varint of the number |
| `ProtobufCodec.EncodeFrame` | apps/mimiclaw/channels/feishu_bot.c:1655-1705 | the bytes of the frame |
| `Fragments.Reassembler.Clear` | apps/mimiclaw/channels/feishu_bot.c:1735-1747 | empties the slot |
| `Fragments.Reassembler.Receive` | apps/mimiclaw/channels/feishu_bot.c:1749-1826 | new slot and answer for any packet: single parts, invalid ones, restarts, duplicates, completion |
| `Fragments.SlotHoldsSession` | apps/mimiclaw/channels/feishu_bot.c:1749-1826 | over any history of packets, the slot holds the first copy of every part received since the last restart |
| `Fragments.AnswerIs` | apps/mimiclaw/channels/feishu_bot.c:1798-1826 | a packet is answered with the message, in part order, exactly when it completes the parts since the restart |
| `Fragments.ExpiresAfter` | apps/mimiclaw/channels/feishu_bot.c:1776-1777 | with the 32-bit clock, a part is late exactly from 5 seconds after the last one until the signed difference wraps, nearly 25 days later |
| `Fragments.AnyOrder` | apps/mimiclaw/channels/feishu_bot.c:1749-1826 | parts of one message in any order with repetitions: not ready until the last missing one, then the concatenation, then the slot is empty; what came before does not matter |
| `Fragments.LongIdsNeverArrive` | apps/mimiclaw/channels/feishu_bot.c:1776-1782 | a packet whose id has more than 95 bytes never completes a message |
| `Fragments.NoMixing` | apps/mimiclaw/channels/feishu_bot.c:1776-1782 | every message delivered consists of the first copies of its parts from packets with one part count and without an expiry between them; they carry one id exactly if the first id fits the 96-byte buffer |
| `Fragments.LongIdsMix` | apps/mimiclaw/channels/feishu_bot.c:1776-1782 | an id of more than 95 bytes is mixed with its own 95-byte prefix |
| `Fragments.PiecesJoin` | apps/mimiclaw/channels/feishu_bot.c:1798-1826 | if the parts are the pieces of a text, the message is the text |
| `Fragments.InvalidExactly` | apps/mimiclaw/channels/feishu_bot.c:1749-1775 | a packet is refused exactly if it has several parts and no id, more than 8 parts, or a part number out of range |
| `SeenRing.WindowSeen` | apps/mimiclaw/channels/feishu_bot.c:214-233 | what the ring holds: the last keys inserted, and 0 while it is not full |
| `SeenRing.Ring.Contains` | apps/mimiclaw/channels/feishu_bot.c:219-227 | found exactly if the key is among the last ones inserted, or 0 in a ring not yet full |
| `SeenRing.Ring.Insert` | apps/mimiclaw/channels/feishu_bot.c:229-233 | the key becomes the newest one |
| `SeenRing.SpreadStep` | apps/mimiclaw/channels/telegram_bot.c:85-99 | inserting only unseen keys keeps repetitions more than a ring apart |
| `FeishuIntake.Intake.HandleEvent` | apps/mimiclaw/channels/feishu_bot.c:2327-2404 | which events are published, and what both rings remember |
| `FeishuIntake.RunInv` | apps/mimiclaw/channels/feishu_bot.c:2327-2404 | over all runs, neither ring has a key repeated within 512 insertions |
| `FeishuIntake.AtMostOnce` | apps/mimiclaw/channels/feishu_bot.c:2386-2399 | between two publications of a message at least 512 keys of other messages were inserted |
| `FeishuIntake.FirstIsPublished` | apps/mimiclaw/channels/feishu_bot.c:2327-2404 | an event whose ids did not occur before is published exactly if it is admitted and presentable |
| `FeishuIntake.NextIsDropped` | apps/mimiclaw/channels/feishu_bot.c:2327-2404 | an event with the id of an admitted one, or with the message of a published one, is dropped right after it |
| `TelegramIntake.Poller.SaveOffsetIfNeeded` | apps/mimiclaw/channels/telegram_bot.c:101-129 | when the offset is stored, and what happens if storing fails |
| `TelegramIntake.Poller.ProcessUpdates` | apps/mimiclaw/channels/telegram_bot.c:380-474 | offset, store, ring and published messages after a batch of updates |
| `TelegramIntake.Poller.constructor` | apps/mimiclaw/channels/telegram_bot.c:545-552 | start-up takes the stored offset |
| `TelegramIntake.IdsIncrease` | apps/mimiclaw/channels/telegram_bot.c:397-408 | the ids of accepted updates strictly increase between restarts |
| `TelegramIntake.StoredIsClose` | apps/mimiclaw/channels/telegram_bot.c:101-129 | when saves succeed the stored offset is less than 10 behind, so that a restart can only repeat the last ones |
| `TelegramIntake.AtMostOnce` | apps/mimiclaw/channels/telegram_bot.c:380-474 | between two publications of a message without a restart, at least 64 other messages came in |
| `TelegramIntake.FirstIsPublished` | apps/mimiclaw/channels/telegram_bot.c:380-474 | whatever restarts came before, an update with a new message and a new id is published exactly if it has a chat and a text |
| `TelegramIntake.FewWrites` | apps/mimiclaw/channels/telegram_bot.c:101-129 | while the save interval has not passed, all writes of the offset but the first are at least 10 updates apart |
| `Cron.SanitizedIsAddressed` | apps/mimiclaw/cron/cron_service.c:28-55 | a sanitized job has a channel and a chat, and never targets telegram without a real chat id; proper jobs are unchanged |
| `Cron.ScanStep` | apps/mimiclaw/cron/cron_service.c:245-296 | one step of the scan, deletion with stepping back included |
| `Cron.Table.Delete` | apps/mimiclaw/cron/cron_service.c:279-285 | removes one entry by shifting the later ones |
| `Cron.Table.ProcessDueJobs` | apps/mimiclaw/cron/cron_service.c:245-296 | the pass pushes for the jobs due at its start and leaves the survivors in order |
| `Cron.PushesInOrder` | apps/mimiclaw/cron/cron_service.c:245-296 | one push for exactly the due positions, in table order |
| `Cron.SurvivorsInOrder` | apps/mimiclaw/cron/cron_service.c:245-296 | dropped are exactly the due one-shot jobs marked for deletion; the others keep their order |
| `Cron.Table.AddJob` | apps/mimiclaw/cron/cron_service.c:374-400 | adds the prepared job at the end unless there are 16 |
| `Cron.Table.RemoveJob` | apps/mimiclaw/cron/cron_service.c:402-420 | removes the first job with the id, and says whether there was one |
| `Cron.Table.Start` | apps/mimiclaw/cron/cron_service.c:329-346 | jobs without a next run get one |
| `CronRuns.StepForgets` | apps/mimiclaw/cron/cron_service.c:245-420 | the numbered steps used for whole runs are the steps of the table |
| `CronRuns.StepInv` | apps/mimiclaw/cron/cron_service.c:245-420 | every pass, add, remove and start keeps the run invariant |
| `CronRuns.AnyRun` | apps/mimiclaw/cron/cron_service.c:245-420 | over every run: at most 16 jobs, all deliverable; a one-shot job fires at most once; firings of a recurring job are at least its interval apart |
| `CronPromises.SanitizeDelivers` | apps/mimiclaw/cron/cron_service.c:28-55 | where a job is sent: its own channel and chat, or the fallbacks "system" and "cron" where these name nobody; nothing else of the job changes |
| `CronPromises.FiringsKeepPromises` | apps/mimiclaw/cron/cron_service.c:245-322 | over every run: a one-shot job never fires before its time, and not at all if that had passed when it was added; a recurring job first fires a full interval after it was added; each firing pushes the job's own text to its own destination |
| `CronPromises.DueJobsHaveFired` | apps/mimiclaw/cron/cron_service.c:245-322 | over every run: after a pass, every job in the table whose first run has come has fired |
| `CronPromises.FiringsArePushes` | apps/mimiclaw/cron/cron_service.c:245-296 | the firings of a pass are the messages it pushes, in order |

## Left out

- Tristates in the two configuration round trips: a default is not bounded by visibility but a user value is, so a default of y under m visibility is not a fixed point.
- Optional choices in the round trips: y mode without a visible symbol is never written out.
- `option env` and `defconfig_list` symbols in the round trips: their values come from outside.
- ConfigFull.FullConfigRoundTrip: titles and header lines are without line breaks, and the header consists of comment lines.
- ConfigIO.ConfigContents: the walk over the menu tree is given as the sequence of nodes it passes.
- ConfigIO.LoadConfig: warnings, the file name and the encoding are not modelled; lines end at the line breaks Python's text mode recognises.
- Numbers.FormatRoundTrip: int() on text with underscores or surrounding whitespace is not modelled.
- LoopCheckRanks.CheckConfig: graphs with choices, where the search has extra rules for entering and leaving a choice, are not modelled.
- MenuDeps.PropagateMenu: runs over the parsed tree on its own; that finalizing visits every parsed node once is `MenuFinalize.Menu.FinalizeNode`. Which entries go into an implicit submenu is a given relation there.
- MenuFinalize.Menu.FinalizeNode: copying properties to symbols and `_finalize_choice` are not modelled.
- ExprText.Parser.ParseFactor: works on tokens; the tokenizer and the text of symbol names are not modelled.
- Macros.Expander.ExpandMacro: argument numbers with underscores or with digits other than 0 to 9, which int() also reads, are taken as names.
- Macros.Expander.ExpandWhole: built-in and user functions are total functions of their arguments; assignments to variables, `$(shell)` and quoting inside names and strings are not modelled.
- WebSocket.DecodeWire: continuation frames and FIN handling (section 5.4 of RFC 6455) are not in the decoder; handshake, TLS, proxies and timeouts are foreign code.
- ProtobufCodec.ParseFrame: lengths are natural numbers; wrap-around of `off + length` in `size_t` is not modelled, and neither are failing allocations.
- Fragments.Reassembler.Receive: part lengths are those of the stored parts; failing allocations are not modelled.
- FeishuIntake.Intake.HandleEvent: JSON access, the sender allow list and text extraction are two flags of the event; keys are 64-bit hashes, so equal keys of different ids count as the same message.
- TelegramIntake.Poller.ProcessUpdates: JSON access, the text form of the stored offset and changing the bot token are not modelled.
- CronRuns.AnyRun: passes, adds, removes and starts are atomic steps, as the code takes no lock; saving and loading the table and generating ids are not modelled.
- `sync_deps`, autoconf output, `eval_string`, globbing, and the menuconfig and other user interfaces.
- Agent loop, tools, memory and the remaining applications.
