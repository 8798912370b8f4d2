# CST shape analysis and per-class cache of chevrotain, in Dafny

This project models two parts of the chevrotain parser toolkit.

**The CST child-shape analysis and CST node building** (`src/parse/cst/cst.ts`).
`buildChildDictionaryDef` walks one grammar rule's definition. For each terminal
and non-terminal name it decides the shape of that name's slot in the concrete
syntax tree (CST): a single value (`NONE`), an array (`COLLECTION`) or an
optional value (`OPTIONAL`).
- First, an init visitor seeds every visited name with `NONE`.
- Then a LIFO worklist of path states `{def, inIteration, inOption, currResult}` is
  explored. The two string sentinels `EXIT_ITERATION` and `EXIT_OPTION` are spliced
  into the definitions.
- Every classified item is written into one shared result table.

`buildChildrenDictionaryDefTopRules` runs the analysis on every rule of a grammar.
At parse time:
- `initChildrenDictionary` seeds a node's children dictionary from the analysis.
- `addTerminalToCst` and `addNoneTerminalToCst` then append to or assign the slots
  of that node in place.

**The per-parser-class cache** (`src/parse/cache.ts`). This is a set of module-level
hash tables keyed by parser class name, with:
- a get-or-create accessor and six getters built on it;
- an overwriting setter for the resynchronisation follow sets;
- `clearCache`, which empties every table.

Files:
- `gast.dfy` (module `Gast`): the grammar as a datatype, with two marker constructors
  that stand in for the sentinels. It also holds the structural functions (names,
  occurrence counts, a weight).
- `cst.dfy` (module `Cst`): the analysis as the source runs it.
  - `BuildChildDictionaryDef` is a `while` loop over the worklist. `ExplorePath` is
    its body, and `PushAlternatives` is the alternation loop.
  - The loop is verified against `DictionaryDef`, a ghost function. That function
    runs the same worklist (`RunStack`) and terminates on a measure: the number of
    pops left in the exploration tree.
  - The file also holds the CST node class and the operations that build nodes.
- `cst_theory.dfy` (module `CstTheory`): what `DictionaryDef` computes. It covers
  key coverage, flat rules, names inside repetitions and separators, options,
  multi-branch and single-branch alternations, and single names at the top level.
- `cst_scenarios.dfy` (module `CstScenarios`): the rules of the toolkit's CST test
  suite, each with its full classification. It also exhibits the places where the
  analysis as written departs from the intuitive reading of the grammar.
- `cache.dfy` (module `Cache`): the cache as an object with one map field per
  table.

The analysis is modelled as the code does it, including these consequences:
- **The last write wins.** `result.put` overwrites the entry. In `OR(A A | A)`, the
  second alternative's path is explored last, so `A` ends up `Optional` even though
  the first alternative holds it twice (`CstScenarios.LastWriteWins`). A monotonic
  merge (`Collection` over `Optional` over `None`) would be the natural reading of
  the classification. The model follows the code, which overwrites.
- **Option layers come from the iteration stack.** `Option` and a multi-branch
  `Alternation` build the new option stack from a copy of the iteration stack
  plus one layer.
  - Inside `MANY`, an option leaves one layer behind when it closes. So in
    `MANY(OPTION(A)) B`, `B` is `Optional` (`CstScenarios.OptionLeaksOutOfRepetition`).
  - A nested option closes its parent's layer. So in `OPTION(OPTION(A) B)`, `B`
    stays `None` (`CstScenarios.NestedOptionClosesOuterOption`).
  - The general "once inside an option means `Optional`" statements are therefore
    proved for the shapes where they hold (see "## Left out").
- **Separated repetitions are rewritten.** `X (SEP X)*` is explored as the single
  repetition `(SEP X)*` inside one more iteration layer, rather than as a mandatory
  `X` followed by a repetition. Every name in it, and the separator, becomes a
  `Collection` either way.
- **An alternation without alternatives ends the path.** It pushes no path, so
  nothing after it is analysed (`CstScenarios.EmptyAlternationEndsPath`).

## Model

| member | source | states |
|---|---|---|
| Cst.ChildDictionaryDefInitVisitor.constructor | src/parse/cst/cst.ts:48-51 | the visitor starts with an empty result table |
| Cst.ChildDictionaryDefInitVisitor.VisitNonTerminal | src/parse/cst/cst.ts:53-56 | a non-terminal's rule name is recorded as `None`; no other entry changes |
| Cst.ChildDictionaryDefInitVisitor.VisitTerminal | src/parse/cst/cst.ts:58-61 | a terminal's token name is recorded as `None`; no other entry changes |
| Cst.Accept | src/parse/cst/cst.ts:66-68 | the walk of a definition adds `None` for exactly the terminal and non-terminal names it contains, at every depth, and keeps earlier entries for other names |
| Cst.AcceptProduction | src/parse/cst/cst.ts:66-68 | the same for one production, separators excluded |
| Cst.AcceptAlternatives | src/parse/cst/cst.ts:66-68 | the same for every alternative of an alternation |
| Cst.DropRight | src/parse/cst/cst.ts:120-137 | dropping the last context layer gives a prefix one shorter, and the empty stack stays empty |
| Cst.Counted | src/parse/cst/cst.ts:81-84 | the per-path count of the item goes up by one, and every other name's count is unchanged |
| Cst.Classify | src/parse/cst/cst.ts:86-92 | `Collection` exactly when the item was met before on the path or the innermost iteration layer is set; otherwise `Optional` exactly when the innermost option layer is set; otherwise no write; it never writes `None` |
| Cst.Written | src/parse/cst/cst.ts:80-92 | reference definition of the write one pop performs: the classification of a popped terminal or non-terminal, counted once more; stated by `Cst.WrittenByItems` |
| Cst.WrittenByItems | src/parse/cst/cst.ts:80-92 | a pop writes exactly when it pops a terminal or non-terminal that was met before on the path or sits under an innermost iteration or option layer; it writes that item's name and never `None` |
| Cst.AlternativePath | src/parse/cst/cst.ts:192-210 | reference definition of the path pushed for one alternative; its shape is stated by `Cst.AlternativePathsShape` |
| Cst.AlternativePaths | src/parse/cst/cst.ts:186-212 | one path per alternative, pushed last alternative first; with several alternatives each path gets `EXIT_OPTION` and one option layer on top of the iteration stack, and with one alternative neither is added |
| Cst.AlternativePathsShape | src/parse/cst/cst.ts:186-212 | every alternative path keeps the popped path's iteration stack and counts; with several alternatives, path `j` holds alternative `n-1-j`, then `EXIT_OPTION`, then the rest, under the iteration stack plus one option layer; a single alternative gives the one path of the alternative then the rest, under a copy of the iteration stack |
| Cst.Successors | src/parse/cst/cst.ts:112-213 | reference definition of the paths one pop pushes, for each production kind and sentinel; `Cst.ExplorePath` is proved to push exactly these, and `Cst.SuccessorsLighter` proves them lighter |
| Cst.SeparatedRewrite | src/parse/cst/cst.ts:172-175 | reference definition of the rewrite of `X (SEP X)*` into `(SEP X)*` followed by `EXIT_ITERATION`; `Cst.SeparatedRewriteWeight` bounds its weight and `CstTheory.SeparatorIsCollection` its effect |
| Cst.RunStack | src/parse/cst/cst.ts:103-217 | reference definition of the worklist loop: pop the last path, apply its write, push its successors, until empty; terminates on `StackCost`; the invariant of `Cst.BuildChildDictionaryDef` |
| Cst.DictionaryDef | src/parse/cst/cst.ts:64-219 | reference definition of the analysis: the seeding of every visited name with `None`, then `RunStack` from the whole definition; `Cst.BuildChildDictionaryDef` is proved to return it, and the `CstTheory` theorems state what it is |
| Cst.SuccessorsLighter | src/parse/cst/cst.ts:103-217 | every path pushed for a popped path is strictly lighter than it, so the exploration is finite |
| Cst.SeparatedRewriteWeight | src/parse/cst/cst.ts:171-185 | the rewrite of a separated repetition weighs less than the construct it replaces |
| Cst.StackCostStep | src/parse/cst/cst.ts:103-110 | one pop and its pushes use up exactly one unit of the worklist's remaining work, which is why the loop ends |
| Cst.AddSingleItemToResult | src/parse/cst/cst.ts:80-101 | the table gets the classification of the item, and the continuation path (rest of the definition, counts plus one) is pushed |
| Cst.ExplorePath | src/parse/cst/cst.ts:104-216 | one pop: the popped path's write is applied and exactly its successor paths are pushed, for every production kind and the two sentinels |
| Cst.PushAlternatives | src/parse/cst/cst.ts:186-213 | the loop from the last alternative down to the first pushes exactly the alternative paths, in that order |
| Cst.BuildChildDictionaryDef | src/parse/cst/cst.ts:64-219 | the worklist loop terminates and returns the classification `DictionaryDef` of the definition |
| Cst.TopRulesDef | src/parse/cst/cst.ts:31-40 | reference definition of the rule table: each rule name mapped to `DictionaryDef` of the last rule carrying it; `Cst.BuildChildrenDictionaryDefTopRules` is proved to build it |
| Cst.TopRulesDefKeys | src/parse/cst/cst.ts:31-40 | the table of a rule list has exactly the rule names as keys |
| Cst.TopRulesDefValue | src/parse/cst/cst.ts:31-40 | a rule name maps to the analysis of the last rule in the list that carries it |
| Cst.BuildChildrenDictionaryDefTopRules | src/parse/cst/cst.ts:31-40 | the loop over the rules builds that table |
| Cst.CstNode.constructor | src/parse/cst/cst_public.ts:6-11 | a node holds its rule name and its children dictionary |
| Cst.WithChild | src/parse/cst/cst.ts:12-29 | a `Collection` child is appended at the end of the array under its key, and a `Collection` slot that holds no array raises a `TypeError`; any other child replaces the key's value; no other key changes, and only that key can be added |
| Cst.AddTerminalToCst | src/parse/cst/cst.ts:12-20 | the node's dictionary becomes that update under the token's class name, or stays as it was on a `TypeError` |
| Cst.AddNoneTerminalToCst | src/parse/cst/cst.ts:22-29 | the same for a sub-rule's node under the sub-rule's name |
| Cst.InitChildrenDictionary | src/parse/cst/cst.ts:221-235 | keys are exactly the `Collection` and `Optional` names; a `Collection` name maps to an empty array and an `Optional` name to `undefined`; `None` names are absent |
| Cst.InitializedIsShaped | src/parse/cst/cst.ts:221-235 | a fresh dictionary agrees with the classification: arrays for collections, no array for the others, no unknown key |
| Cst.AddKeepsShape | src/parse/cst/cst.ts:12-29 | adding a child under its own classification never throws on a dictionary that agrees with the classification, and it keeps agreeing |
| Cst.UnknownNameBreaksShape | src/parse/cst/cst.ts:12-29 | adding under a name the classification does not know throws for `Collection` and otherwise adds a key the classification does not have |
| Cst.InitializedThenAdd | src/parse/cst/cst.ts:12-29 | on a fresh dictionary, one add to a `Collection` slot gives a one-element array and one add to an `Optional` slot holds that child |
| CstTheory.DictionaryDefKeys | src/parse/cst/cst.ts:64-92 | every visited name is a key of the result, and only names of the definition (separators included) are |
| CstTheory.DictionaryDefKeysExact | src/parse/cst/cst.ts:171-185 | for a grammar without empty alternations, the keys are exactly the visited names plus the separators |
| CstTheory.FlatDefinition | src/parse/cst/cst.ts:80-92 | in a plain sequence of terminals and non-terminals, a name met more than once is `Collection` and a name met once is `None` |
| CstTheory.CollectionInsideIteration | src/parse/cst/cst.ts:159-185 | a name whose every occurrence lies inside a repetition (of any kind) is `Collection` |
| CstTheory.SeparatorIsCollection | src/parse/cst/cst.ts:171-185 | a separator that is not also used as an item is `Collection` |
| CstTheory.OptionalInTopLevelOption | src/parse/cst/cst.ts:146-157 | a name met once, inside a top-level `OPTION` after other items only, and nowhere else, is `Optional` |
| CstTheory.OptionalInTopLevelAlternation | src/parse/cst/cst.ts:186-212 | a name of a top-level multi-branch `OR`, met once in each alternative that mentions it, after other items only, and nowhere else in the rule, is `Optional`; each alternative's path has its own count |
| CstTheory.NoneInSingleAlternative | src/parse/cst/cst.ts:200-202 | a name met once in the only alternative of a top-level single-branch `OR`, and nowhere else, stays `None` |
| CstTheory.NoneAtTopLevel | src/parse/cst/cst.ts:80-92 | a name used once as a top-level item, after productions that keep options outside repetitions, stays `None` |
| CstScenarios.FlatRule | test/parse/cst_spec.ts:21-49 | `A B bamba` classifies all three as `None` |
| CstScenarios.AlternationRule | test/parse/cst_spec.ts:51-87 | `OR(A \| B bamba)` classifies all three as `Optional` |
| CstScenarios.SingleAlternativeRule | test/parse/cst_spec.ts:89-118 | `OR(A B)` classifies both as `None` |
| CstScenarios.RepeatedTerminalRule | test/parse/cst_spec.ts:120-144 | `A B A` classifies `A` as `Collection` and `B` as `None` |
| CstScenarios.ManyRule | test/parse/cst_spec.ts:146-181 | `MANY(A bamba) B` classifies `A` and `bamba` as `Collection` and `B` as `None` |
| CstScenarios.OptionRule | test/parse/cst_spec.ts:183-226 | `OPTION(A bamba) B` classifies `A` and `bamba` as `Optional` and `B` as `None` |
| CstScenarios.OptionRulePathNotTaken | test/parse/cst_spec.ts:216-225 | when the option is not taken, the node has keys `A`, `B` and `bamba`, with `A` and `bamba` undefined and `B` the consumed token |
| CstScenarios.AtLeastOneRule | test/parse/cst_spec.ts:228-254 | `AT_LEAST_ONE(A) B` classifies `A` as `Collection` and `B` as `None` |
| CstScenarios.ManySepRule | test/parse/cst_spec.ts:256-286 | `MANY_SEP(A, C) B` classifies `A` and the separator `C` as `Collection` and `B` as `None` |
| CstScenarios.AtLeastOneSepRule | test/parse/cst_spec.ts:288-318 | `AT_LEAST_ONE_SEP(A, C) B` classifies `A` and `C` as `Collection` and `B` as `None` |
| CstScenarios.NestedOptionClosesOuterOption | src/parse/cst/cst.ts:129-157 | in `OPTION(OPTION(A) B)`, `A` is `Optional` and `B` stays `None` |
| CstScenarios.OptionLeaksOutOfRepetition | src/parse/cst/cst.ts:146-170 | in `MANY(OPTION(A)) B`, `A` is `Collection` and `B` is `Optional` |
| CstScenarios.LastWriteWins | src/parse/cst/cst.ts:186-212 | in `OR(A A \| A)`, `A` is `Optional`: the second alternative's write comes last |
| CstScenarios.EmptyAlternationEndsPath | src/parse/cst/cst.ts:186-213 | in `OR() MANY_SEP(A, C)`, `A` keeps `None` and `C` gets no entry |
| Cache.Lookup | src/parse/cache.ts:60-67 | the stored nested table on a hit, and an empty one on a miss |
| Cache.Ensured | src/parse/cache.ts:60-67 | afterwards the class is present with the table the lookup returned; only that key can be added, and every stored table is kept |
| Cache.GetFromNestedHashTable | src/parse/cache.ts:60-67 | returns the lookup and leaves the outer table as `Ensured` says |
| Cache.HitChangesNothing | src/parse/cache.ts:60-61 | a hit leaves the outer table unchanged |
| Cache.LookupIdempotent | src/parse/cache.ts:60-67 | a second lookup of the same class returns the same table and changes nothing |
| Cache.LookupsCommute | src/parse/cache.ts:60-67 | lookups of two classes leave the same table in either order |
| Cache.SetThenLookup | src/parse/cache.ts:29-31 | after the setter, a lookup returns exactly the stored follow sets and adds nothing |
| Cache.LookupAfterClear | src/parse/cache.ts:69-72 | after clearing, a lookup returns a new empty table |
| Cache.AnalysisCache.constructor | src/parse/cache.ts:13-51 | every table starts empty |
| Cache.AnalysisCache.GetProductionsForClass | src/parse/cache.ts:19-21 | get-or-create on the grammar productions table only |
| Cache.AnalysisCache.GetResyncFollowsForClass | src/parse/cache.ts:25-27 | get-or-create on the resynchronisation follow sets table only |
| Cache.AnalysisCache.SetResyncFollowsForClass | src/parse/cache.ts:29-31 | the class's follow sets are replaced; other classes and tables are unchanged |
| Cache.AnalysisCache.GetLookaheadFuncsForClass | src/parse/cache.ts:35-37 | get-or-create on the lookahead functions table only |
| Cache.AnalysisCache.GetFirstAfterRepForClass | src/parse/cache.ts:41-43 | get-or-create on the first-after-repetition table only |
| Cache.AnalysisCache.GetProductionOverriddenForClass | src/parse/cache.ts:47-49 | get-or-create on the production-overridden table only |
| Cache.AnalysisCache.GetIsCollectionPerRuleForClass | src/parse/cache.ts:53-55 | get-or-create on the per-rule CST classification table only |
| Cache.AnalysisCache.ClearCache | src/parse/cache.ts:69-72 | every table is empty afterwards, including the definition errors and the self-analysis flags |

## Left out

- Token classes and `tokenName(getTokenConstructor(token))` are not modelled: a token carries its class name as a field.
- The `GAstVisitor` protocol is modelled as a recursive walk over the grammar datatype. The visitor methods are called on exactly the terminals and non-terminals.
- A separated repetition's `occurrenceInParent` is not modelled, because the analysis never reads it.
- The "non exhaustive match" error cannot happen, because the match over the production datatype is exhaustive.
- The `TypeError` of `push` on a `Collection` slot that holds no array is returned as an outcome (`ok` false, dictionary unchanged). It is not an exception.
- Hash tables are values (`map`). A nested table returned by a cache getter is a copy: later changes the caller makes to it are not seen in the cache, whereas the source shares the object.
- `clearCache` finds its tables by reflection over the module's exports. The model clears each table field explicitly.
- The definition errors table and the self-analysis flags table have no accessor in the cache module. They are fields that `ClearCache` empties.
- The per-rule CST classification table is declared in the source with boolean leaves, but its getter returns CST subtypes. The model types it with CST subtypes.
- Stored cache values (rules, lookahead functions, follow sets, first-after-repetition records, errors) are type parameters with no behaviour.
- `MAX_OCCURRENCE_INDEX` is the constant 5. No operation of the modelled core reads it.
- CstTheory.OptionalInTopLevelOption: proved only for an option at the top level of the rule whose body reaches the name through plain items. As written, a nested option closes its parent's option layer (`CstScenarios.NestedOptionClosesOuterOption`), so a general "once inside an option" statement does not hold. Before the name, the body may hold only terminals and non-terminals; repetitions are excluded too, although the code restores the iteration stack when one ends, so `OPTION(MANY(C) A)` also makes `A` `Optional`. The lemma also requires that the whole rule has no empty alternation, where only the productions before the option need it.
- CstTheory.OptionalInTopLevelAlternation: proved only for a top-level alternation whose alternatives reach the name through plain items, for the same reason. Before the name, an alternative may hold only terminals and non-terminals; repetitions are excluded too, although the code restores the iteration stack when one ends, so `OR(MANY(C) A | B)` also makes `A` `Optional`. The lemma also requires that the whole rule has no empty alternation, where only the productions before the alternation need it.
- CstTheory.NoneInSingleAlternative: proved only for a top-level single-branch alternation whose body reaches the name through plain items. Repetitions before the name are excluded as well. The lemma also requires that the whole rule has no empty alternation, which the statement does not need. The same reset applies when the alternation sits inside an option; that case is not stated.
- CstTheory.NoneAtTopLevel: requires that no option or alternation sit inside a repetition before the name. Such a construct leaves an option layer behind (`CstScenarios.OptionLeaksOutOfRepetition`).
- CstTheory.CollectionInsideIteration: requires a grammar without empty alternations, because an empty alternation ends the path before later names are met (`CstScenarios.EmptyAlternationEndsPath`).
- CstTheory.DictionaryDefKeysExact: requires a grammar without empty alternations, for the same reason. `CstTheory.DictionaryDefKeys` gives the bounds in general.
- CstTheory.FlatDefinition: covers sequences of terminals and non-terminals only. Names inside constructs are covered by the other theorems.
