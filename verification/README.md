# Verified model of MilterGuard's content analysis

MilterGuard is a mail filter. Before it judges a message it extracts what a reader would see: it
unpacks MIME parts and archives, works out which styles apply to each element of an HTML part, decides
which text is concealed, and prepares an annotated body for the classifier. This project models the
logic of that pipeline whose correctness is hardest to see from the code, and proves it for every input:

- **Selector matching and the cascade.** Rules are filed in seven kinds of bucket, an element's candidates
  are the union of the buckets its own and its ancestors' keys select, descendant/child chains are matched by
  a memoised bit-vector program, and winners are decided in discovery order without sorting. `Inspection`
  ties this together: every element gets exactly the winners of trying every branch of every rule in source
  order, each of which ranks highest among all that claim its slot. (`Documents`, `Selectors`, `SelectorKeys`, `ActiveAncestors`, `AncestorChains`, `Cascade`,
  `CascadeOrder`, `Stylesheets`, `SelectorIndex`, `Gathering`, `AttributeBuckets`, `Candidates`, `SheetCaches`,
  `PathActivation`, `ViewingWalk`, `Inspection`)
- **Media conditions.** Three-valued evaluation without knowing the environment, and the finite set of
  widths that stands in for all widths. `Viewings` joins this with the cascade: one pass per case, over one
  index and one set of caches, gives the winners at every width. (`Media`, `ViewingCases`, `Viewings`)
- **Colours.** Folding a colour through the stack of paint layers, the memo of the last answer, and the
  answers over a whole document. (`PaintColours`, `ColourMemo`, `PaintWalk`)
- **Custom properties.** Collecting the references of token lists, marking dependency cycles, and
  substituting references through a one-pass block index. `VariableScopes` joins them: from the token lists
  of the definitions to their one solution. (`CustomProperties`, `ValueBlocks`, `ComponentValues`,
  `VariableSubstitution`, `VariableReferences`, `VariableScopes`)
- **Math functions, numbers and conditional comments.** Parsers proved against their grammars.
  (`Calculations`, `CalcGrammar`, `MathParser`, `CssNumbers`, `CssDoubles`, `MsoConditions`, `MsoText`,
  `MsoParser`, `MsoSpelling`)
- **Domain registration.** The cache that lets many concurrent callers share one lookup per domain, as a
  state machine over its atomic steps. (`Registration`)
- **Restartable extraction.** Nested operations that share one move to fallback resources, and what the log of
  a complete or incomplete message tells. (`Extraction`)
- **Archives.** Admission of ZIP directories and scanning of nested archives within shared budgets.
  (`ZipDirectories`, `ArchiveScanner`, `ZipLayout`)
- **Provenance of text.** Boundaries around attachments that survive wrapping, joining and cutting, and
  visibility annotations rendered as tags. (`AttachmentSpans`, `AttachmentContents`, `AttachmentSampling`,
  `Annotations`, `AnnotatedRuns`, `AnnotatedOutput`)

Code that computes values is modelled by functions; objects updated in place are classes whose methods are
proved against a specification over their abstract state. Storage that may be refused, cancellation, the
clock, lookups and the unpacking library are nondeterministic choices or parameters, so that the theorems
hold whatever they do.

Conditions that the theorems state and that the code relies on:

- The colour memo is exact where no step is harmful. A step is harmful when an outermost element that changes
  no paint follows another outermost element that looks different, or when a body inside an element that
  changes no paint passes its background to that element. It is proved exactly when answers are stale for
  two outermost elements in turn and for a body with an opaque background. A document with one
  outermost element, the only one called html, has neither kind.
- Custom properties are given up on beyond 256 levels. All of them are, when the search for cycles meets a
  chain of 256 definitions, so never with fewer definitions. One of them can be, when something it depends on
  can be asked for that deeply; with few definitions and few nested fallbacks, none is.
- The shortcut for numbers of 309 digits or more is not the border of infinity: numbers from 2^1024 - 2^970 on
  are infinite too, and numbers up to 2^-1075 are zero. The conversion itself is a parameter that rounds as
  IEEE 754 does.
- The registration cache reads a clock that never steps back.
- The failure map of the registration cache holds at most its configured number of entries, or one entry
  when that number is less than one.
- A sampled body can exceed its limit only when it is the notice alone, or when it has no attachment
  sections, where the notice is added to a full-length cut.
- The widths of media conditions are at most the greatest width that is viewed.

## Model

| member | source | states |
|---|---|---|
| `Selectors.MatchesPlaced` | internal/fork/cascadia/selector.go:364-450 | a selector matches an element exactly when all its compounds can be given places, the last of them that element, each standing to the next as the combinator asks: on the path of parents, first element on it, element sibling just before, or sibling before |
| `SelectorKeys.CompoundKeySupplied` | internal/htmlextract/selector_plan.go:250-263 | the key of a compound is supplied by every element the compound matches |
| `SelectorKeys.EarlierCompoundAbove` | internal/htmlextract/selector_plan.go:378-391 | in a descendant/child selector each earlier compound matches some proper ancestor of the match |
| `SelectorKeys.MatchIsEligible` | internal/htmlextract/selector_plan.go:367-392 | index completeness: whatever a selector matches is eligible for the bucket the selector is filed in, by its own key or by an ancestor's |
| `ActiveAncestors.Active.AddedRepresents` | internal/htmlextract/selector_plan.go:77-87 | adding a bucket to a list that represents a multiset of contributors gives the list with one contributor more |
| `ActiveAncestors.Active.RemovedRepresents` | internal/htmlextract/selector_plan.go:89-111 | removing gives one contributor less, with positions consistent through swap-removal |
| `ActiveAncestors.Active.ListIsSupport` | internal/htmlextract/selector_plan.go:51-111 | the listed buckets are exactly those with a contributor, each once |
| `ActiveAncestors.Active.InactiveIsEmpty` | internal/htmlextract/selector_plan.go:51-111 | with no contributor left the list is empty |
| `ActiveAncestors.ActiveBuckets.Reset` | internal/htmlextract/selector_plan.go:63-75 | a reset list represents no contributors and has room for every selector |
| `ActiveAncestors.ActiveBuckets.Add` | internal/htmlextract/selector_plan.go:77-87 | the in-place update is the specified addition |
| `ActiveAncestors.ActiveBuckets.Remove` | internal/htmlextract/selector_plan.go:89-111 | the in-place swap-removal is the specified removal |
| `AncestorChains.CompileAncestorChain` | internal/htmlextract/selector_plan.go:217-244 | a prepared chain is the whole selector, made of descendants and children only, and only where attributes matter or descendants repeat |
| `AncestorChains.ChainMatcher.MatchAncestorChain` | internal/htmlextract/selector_runtime.go:34-140 | for every call sequence and every refusal of cache storage, the answer is the recursive meaning of the chain at the nearest element at or above the node |
| `AncestorChains.ChainMatcher.Climb` | internal/htmlextract/selector_runtime.go:58-82 | the climb stops at a node whose cached masks are exact and lists the uncached elements below it |
| `AncestorChains.ChainMatcher.StepState` | internal/htmlextract/selector_runtime.go:89-111 | one step turns the exact masks of the parent into the exact masks of the node |
| `AncestorChains.ChainMatcher.Remember` | internal/htmlextract/selector_runtime.go:112-136 | cached entries stay the true prefix states of their nodes |
| `Cascade.BeatsTotal` | internal/htmlextract/resolver.go:101-115 | any two candidates are comparable |
| `Cascade.BeatsTransitive` | internal/htmlextract/resolver.go:101-115 | the comparison is transitive |
| `Cascade.TakeAllMaximal` | internal/htmlextract/resolver.go:294-475 | taking offers one by one leaves in every slot an offer that beats all others; what it means to beat is stated by CascadeOrder.WinnerRanksHighest |
| `Cascade.OrderIrrelevant` | internal/htmlextract/resolver.go:294-475 | the same set of offers gives the same winners in any order and with any repetition when equal ranks are the same candidate |
| `CascadeOrder.WinnerRanksHighest` | internal/htmlextract/resolver.go:101-115 | a slot is won exactly when something is offered for it, and the winner is an offer that no other outranks: importance first, then inline, then the three specificity counts in turn, then later order |
| `CascadeOrder.DeclarationBids` | internal/htmlextract/resolver.go:307-408 | which slots a declaration contends for and with what rank: its property or custom name, every property for the all shorthand, the alternate slots under a colour scheme |
| `CascadeOrder.WinnersAreRight` | internal/htmlextract/resolver.go:294-475 | for every sheet and element, a slot is won exactly when some hint, declaration of a matching branch of an active rule, or inline declaration claims it, by a claim that ranks highest |
| `Cascade.ApplyProperty` | internal/htmlextract/resolver.go:313-350 | one declaration for one property updates the winners as its offers do, margins and layout included |
| `Cascade.Broadcast` | internal/htmlextract/resolver.go:399-402 | the all shorthand offers its value to every property |
| `Cascade.Apply` | internal/htmlextract/resolver.go:307-408 | applying a list of declarations is taking its offers in turn |
| `Cascade.ApplyScheme` | internal/htmlextract/resolver.go:366-386 | a declaration that depends on the colour scheme is noted and takes part in the alternate slots |
| `Cascade.ApplyAlternate` | internal/htmlextract/resolver.go:368-385 | a declaration's alternate part reaches its custom name, its property, every property for the all shorthand, or the recorded effects |
| `Cascade.ApplyRetained` | internal/htmlextract/resolver.go:387-405 | a retained declaration offers itself to its custom name, to its property, or to every property for the all shorthand |
| `Stylesheets.AllRefsNames` | internal/htmlextract/selector_runtime.go:157-163 | source order reaches every branch of every rule |
| `Stylesheets.NumberedTiesAgree` | internal/htmlextract/resolver.go:101-115 | with declarations numbered as parsed, candidates of equal rank for a slot are the same declaration |
| `Stylesheets.ScanEqualsTryEverything` | internal/htmlextract/resolver.go:294-475 | a scan that meets at least every matching branch, in any order, decides the winners of trying every branch in source order |
| `SelectorIndex.BuildSelectorIndex` | internal/htmlextract/selector_runtime.go:142-204 | every branch of every kept rule is filed once, under its key, in source order, and every chain plan has its own cache slot |
| `SelectorIndex.KeepRules` | internal/htmlextract/selector_runtime.go:146-154 | the kept rules are those with declarations, in order |
| `SelectorIndex.File` | internal/htmlextract/selector_runtime.go:159-193 | filing one branch extends exactly the filing done so far |
| `SelectorIndex.BucketMembers` | internal/htmlextract/selector_runtime.go:169-193 | a branch is in the bucket of its own key and in no other |
| `SelectorIndex.IdentityFixesKey` | internal/htmlextract/selector_runtime.go:254-257 | the first reference of a bucket identifies its key, so marks on it never confuse two buckets |
| `Gathering.AppendBucket` | internal/htmlextract/selector_runtime.go:253-262 | a bucket is listed exactly when it is not empty and its key was not taken before |
| `Gathering.AppendReferences` | internal/htmlextract/selector_runtime.go:396-414 | the references gathered are those of the taken keys, each once |
| `AttributeBuckets.NextWord` | internal/htmlextract/selector_runtime.go:293-311 | each word of a class attribute is found once, whatever the spaces |
| `AttributeBuckets.ScanClasses` | internal/htmlextract/selector_runtime.go:293-311 | every class token contributes its direct and its ancestor bucket |
| `AttributeBuckets.SelectBuckets` | internal/htmlextract/selector_runtime.go:244-311 | one pass lists exactly the non-empty buckets of the element's id and classes, each once |
| `Candidates.CollectCandidates` | internal/htmlextract/selector_runtime.go:382-443 | the candidates are exactly the branches filed under the element's own keys, its ancestors' keys or no key, each once |
| `Candidates.CandidatesComplete` | internal/htmlextract/selector_runtime.go:382-443 | every branch that matches the element is a candidate |
| `SheetCaches.Sheet.AttributeCandidateBuckets` | internal/htmlextract/selector_runtime.go:230-321 | the cached listing of an element's attribute buckets is the one a fresh pass gives |
| `SheetCaches.Sheet.CacheMatch` | internal/htmlextract/resolver.go:70-91 | a cached match is the true one, and the tables together hold as many results as are counted, never more than the limit |
| `SheetCaches.Sheet.MatchBranch` | internal/htmlextract/resolver.go:423-444 | cache, chain matcher and plain matcher agree with the meaning of the selector |
| `SheetCaches.Sheet.CollectCascade` | internal/htmlextract/resolver.go:294-475 | the winners are those of the hints, then the matching candidates, then the inline declarations |
| `SheetCaches.Sheet.ElementWinners` | internal/htmlextract/resolver.go:477-560 | with the ancestors' buckets active, the indexed winners equal the exhaustive ones |
| `PathActivation.InStepLists` | internal/htmlextract/selector_runtime.go:346-376 | an active list in step with a path lists exactly that path's ancestor buckets |
| `PathActivation.ActivateAncestorBuckets` | internal/htmlextract/selector_runtime.go:346-366 | entering an element adds one contributor to each of its ancestor buckets |
| `PathActivation.DeactivateAncestorBuckets` | internal/htmlextract/selector_runtime.go:368-376 | leaving takes the same contributors off again |
| `ViewingWalk.PathKeyed` | internal/htmlextract/analyze.go:328-332 | the activations on the walk's stack are exactly the keys of the current element's proper ancestors |
| `ViewingWalk.TracedOk` | internal/htmlextract/analyze.go:389-483 | every state of every walk keeps the path, the visited nodes and the activations consistent |
| `ViewingWalk.AllVisited` | internal/htmlextract/analyze.go:389-483 | when the walk ends every node outside inert content was visited |
| `ViewingWalk.InertInherits` | internal/htmlextract/document.go:88-109 | inert content stays inert below |
| `ViewingWalk.Walker.Run` | internal/htmlextract/analyze.go:389-483 | the walk evaluates each element outside inert content once, with the exhaustive winners, and the active list ends empty |
| `ViewingWalk.Walker.Step` | internal/htmlextract/analyze.go:407-476 | each turn keeps the counts of the active list equal to the path's contributors and makes progress |
| `ViewingWalk.Walker.EnterElement` | internal/htmlextract/analyze.go:229-335 | evaluation happens before the element's own buckets are activated, so only proper ancestors count |
| `ViewingWalk.Walker.Leave` | internal/htmlextract/analyze.go:383-387 | leaving restores the counts of the parent's path |
| `Inspection.PlanBranch` | internal/htmlextract/selector_plan.go:367-407 | a planned branch has the key of its selector and a chain no longer than the mask, or the chain is too long to be matched exactly |
| `Inspection.DroppedRulesAreSilent` | internal/htmlextract/selector_runtime.go:143-154 | dropping rules without declarations changes no winner |
| `Inspection.InspectElements` | internal/htmlextract/analyze.go:389-483 | planning, indexing and walking together give every element outside inert content, and no other, the winners of trying every branch of every original rule in source order; each winner is a claim of a hint, a matching branch or an inline declaration that no other claim outranks |
| `Media.YesIsAlways` | internal/htmlextract/media.go:123-212 | a chain of conditions evaluates to yes exactly when every resolution of the unknown features at that width and scheme activates it, bounds and schemes taken by their meaning |
| `Media.NoIsNever` | internal/htmlextract/media.go:123-212 | it evaluates to no exactly when no resolution activates it |
| `Media.FallbackIsSound` | internal/htmlextract/media.go:123-166 | without a known width, yes and no still hold at every width |
| `Media.CombinedMeaning` | internal/htmlextract/media.go:188-202 | what each combined light/dark state says about all environments of a width |
| `ViewingCases.States` | internal/htmlextract/media.go:123-166 | the loop over alternatives computes the three-valued state of a condition in both schemes |
| `ViewingCases.EvaluateConditionFrame` | internal/htmlextract/media.go:167-187 | the frame-cached evaluation equals the uncached fold over the chain |
| `ViewingCases.EvaluateGroups` | internal/htmlextract/media.go:255-270 | all groups evaluated with one shared cache have the states of fresh evaluations |
| `ViewingCases.SameSideStates` | internal/htmlextract/media.go:219-315 | widths on the same side of every collected bound have the same state in every group |
| `ViewingCases.CollectBounds` | internal/htmlextract/media.go:227-254 | stopping a climb at the first frame met before still collects every bound, each once |
| `ViewingCases.CandidateWidths` | internal/htmlextract/media.go:278-291 | the candidates include a width for every open interval and every single-point interval between bounds |
| `ViewingCases.KeepDistinct` | internal/htmlextract/media.go:293-314 | every candidate keeps a stand-in and the kept widths all differ in state |
| `ViewingCases.MediaRuntime.PrepareMediaGroups` | internal/htmlextract/media.go:319-345 | each rule's condition gets the group of its frame, and preparing twice changes nothing |
| `ViewingCases.MediaRuntime.MediaStates` | internal/htmlextract/resolver.go:21-64 | the cached state vector is the fresh one |
| `ViewingCases.MediaRuntime.ViewingCases` | internal/htmlextract/media.go:219-315 | for every width from zero to the largest some returned width has the same state in every group, and no two returned widths agree |
| `Viewings.Regrouped` | internal/htmlextract/media.go:319-345 | how rules share media groups changes no winner, only the state that each rule gets |
| `Viewings.Styled.GroupedWinners` | internal/htmlextract/media.go:255-345 | kept rules in shared groups give the winners of every rule judged by its own condition chain |
| `Viewings.Styled.WinnersAreRight` | internal/htmlextract/analyze.go:548-581 | at every width the winners are the claims that rank highest among those of rules whose own condition chain is active there |
| `Viewings.View` | internal/htmlextract/analyze.go:573-581 | one viewing case gives every element outside inert content, and no other, the winners at its width, and leaves the shared caches exact for the next |
| `Viewings.InspectViewings` | internal/htmlextract/analyze.go:548-581 | every case gives the styles of trying every rule at its width, unresolved where an element's own declarations are unread; for every width up to the largest some case gives exactly the styles at that width; a sheet that was not all read is seen once, with nothing resolved |
| `PaintColours.PaintThrough` | internal/htmlextract/colour.go:451-483 | one layer takes ink and ground over its background and through its group opacity, or loses them to what is not understood; what that comes to on a canvas is stated by PaintColours.GroupOrder |
| `PaintColours.EvaluateColour` | internal/htmlextract/colour.go:435-494 | the loop from the innermost layer out computes the specified colour result; on understood layers of any opacity it is what painting groups from the white canvas in shows with and without the text |
| `PaintColours.NeutralInsertion` | internal/htmlextract/colour.go:347-360 | inserting a colour-neutral layer anywhere leaves every evaluated colour unchanged, transparent ink included |
| `PaintColours.PainterOrder` | internal/htmlextract/colour.go:435-494 | on plain layers folding outwards agrees with painting from the canvas in: the ink lies over the painting and the ground is the painting |
| `PaintColours.GroupOrder` | internal/htmlextract/colour.go:430-494 | for understood layers of any opacity, folding outwards gives the two pixels of painting from the canvas in, where a group is its background with all inside painted on and shows over what is outside by its opacity |
| `PaintColours.ClearGroupHides` | internal/htmlextract/colour.go:481-482 | a group of opacity zero anywhere makes final ink and ground equal |
| `PaintColours.FadedInk` | internal/htmlextract/colour.go:481-485 | opaque ink in one clear group over white shows by the group's opacity, channel by channel |
| `PaintColours.ResolvedExactly` | internal/htmlextract/colour.go:438-494 | a resolved colour means that text, glyphs, groups and every background that still shows are known, and a concealed one that no unknown effect could set the text off; where all is known it is resolved |
| `PaintColours.PropagationInvisible` | internal/htmlextract/colour.go:361-376 | moving the body's background to the root changes no colour where the body is opaque and both groups are understood |
| `ColourMemo.InheritedColour` | internal/htmlextract/analyze.go:158-175 | entering a layer that changes nothing leaves every fresh colour as it was |
| `ColourMemo.ExchangedColour` | internal/htmlextract/analyze.go:158-182 | a lone neutral layer can be exchanged for another that looks like it |
| `ColourMemo.EnteredSound` | internal/htmlextract/analyze.go:158-175 | a harmless entry keeps a remembered answer fresh |
| `ColourMemo.DepartedSound` | internal/htmlextract/analyze.go:177-182 | leaving always keeps it fresh |
| `ColourMemo.RememberedIsFresh` | internal/htmlextract/analyze.go:135-182 | from any sound state, the remembered answers of a harmless walk are the fresh ones |
| `ColourMemo.OneRootIsHarmless` | internal/htmlextract/analyze.go:135-182 | a walk with one outermost element whose body is its child is harmless |
| `ColourMemo.SecondOutermost` | internal/htmlextract/analyze.go:135-182 | two neutral outermost elements in turn are answered freshly for every colour exactly when they look alike |
| `ColourMemo.DeeperBody` | internal/htmlextract/analyze.go:158-175 | a body with an opaque background below the second level is answered freshly for every colour exactly when that background is white |
| `ColourMemo.DeeperBodyIsStale` | internal/htmlextract/analyze.go:158-175 | so a body below the second level can give a stale answer |
| `ColourMemo.PaintStack.Begin` | internal/htmlextract/analyze.go:389-398 | a viewing case starts with no layers and a sound memo |
| `ColourMemo.PaintStack.EvaluateColour` | internal/htmlextract/analyze.go:135-156 | with an element open and a sound memo, the answer is the fresh evaluation on the current layers, hit or miss |
| `ColourMemo.PaintStack.EnterPaintLayer` | internal/htmlextract/analyze.go:158-175 | entering pushes the layer and propagates a body background, and a harmless entry keeps the memo sound |
| `ColourMemo.PaintStack.LeavePaintLayer` | internal/htmlextract/analyze.go:177-182 | leaving pops the layer and keeps the memo sound |
| `ColourMemo.PaintStack.Run` | internal/htmlextract/analyze.go:135-182 | over every walk the answers are the memo's, and where every step is harmless they are the fresh ones |
| `PaintWalk.Viewing.DocumentIsFresh` | internal/htmlextract/analyze.go:135-182 | in every document with one outermost element, the only one called html, the memo answers every colour at every node as a fresh evaluation would |
| `CustomProperties.BackEdge` | internal/htmlextract/variables.go:428-437 | a reference back into the path puts the rest of the path on a cycle |
| `CustomProperties.CycleIsMarked` | internal/htmlextract/variables.go:419-460 | a cycle among finished names has a marked name |
| `CustomProperties.CycleFinder.VisitName` | internal/htmlextract/variables.go:420-460 | a visit restores the path, only adds marks, finishes the name or marks both ends of the back edge, and gives up only on a chain of 256 names |
| `CustomProperties.CycleFinder.MarkCycle` | internal/htmlextract/variables.go:428-437 | marking the rest of the path marks names on cycles only |
| `CustomProperties.CycleFinder.MarkCycles` | internal/htmlextract/variables.go:405-466 | every marked name lies on a dependency cycle; unless the search gave up every cycle has a marked name, and it gives up only where 256 definitions are chained |
| `ValueBlocks.Closing` | internal/htmlextract/variables.go:128-147 | the scan returns where the block opened at a token ends, mismatched and missing closers included |
| `ValueBlocks.BlockEnds` | internal/htmlextract/variables.go:86-147 | an opener, a balanced stretch and the closer of its own kind form a block that ends there whatever follows, and its first comma is the first that no block inside it holds |
| `ValueBlocks.IndexBlocks` | internal/htmlextract/variables.go:589-612 | one pass gives every opener the end and the first comma that a scan of its own would find |
| `ValueBlocks.IndexToken` | internal/htmlextract/variables.go:593-612 | one token moves the pending blocks on as the scans would |
| `ComponentValues.BlockInside` | internal/htmlextract/variables.go:111-147 | a block ends inside the block around it or with the input |
| `ComponentValues.ParsedReadsBack` | internal/htmlextract/variables.go:128-147 | the tree of component values reads back as the tokens |
| `ComponentValues.FirstComma` | internal/htmlextract/variables.go:601-610 | the recorded comma is the first one directly inside the block |
| `VariableSubstitution.FlatIsNested` | internal/htmlextract/variables.go:644-696 | the flat loop over a range that cuts no block is the recursive substitution of its components, where a reference means the name's value between spaces, the trimmed fallback of a name that has none, or what could not be understood |
| `VariableSubstitution.IndexValueBlocks` | internal/htmlextract/variables.go:589-642 | the index holds each reference's name, comma and end |
| `VariableSubstitution.ReadName` | internal/htmlextract/variables.go:613-639 | a reference's name is the only significant token before the comma |
| `VariableSubstitution.Expand` | internal/htmlextract/variables.go:653-694 | the loop with its jumps computes the flat substitution, and gives up exactly where it would enter fallbacks beyond the limit |
| `VariableSubstitution.Replace` | internal/htmlextract/variables.go:670-689 | a reference is replaced by its value, or its fallback, or makes the whole invalid |
| `VariableSubstitution.SubstituteIndexedTokens` | internal/htmlextract/variables.go:644-696 | for every token list and depth the indexed substitution equals recursive substitution over nested blocks, with or without a kept index, exactly as long as the fallbacks it enters stay below the limit |
| `VariableSubstitution.EnteredWithin` | internal/htmlextract/variables.go:653-689 | whatever the values, no more fallbacks are entered than are nested in the tokens |
| `VariableReferences.VariableRefs` | internal/htmlextract/variables.go:239-257 | the loop lists, in order, the first significant token after every reference function |
| `VariableReferences.NameIsRef` | internal/htmlextract/variables.go:239-257 | every name that substitution can look up is among the listed references |
| `VariableReferences.FlatDepends` | internal/htmlextract/variables.go:239-257 | substitution depends on the values of the listed references alone |
| `VariableScopes.Scope.NoReentry` | internal/htmlextract/variables.go:467-504 | a name without a value is not being evaluated already, because every cycle has a marked name |
| `VariableScopes.Scope.SolutionSolves` | internal/htmlextract/variables.go:467-504 | they have a solution: it does not matter at the end of which chain a name is asked for |
| `VariableScopes.Scope.UniqueSolution` | internal/htmlextract/variables.go:467-504 | the definitions with marked names invalid have no solution but the one defined, whatever the order of evaluation |
| `VariableScopes.Scope.SolutionMeans` | internal/htmlextract/variables.go:467-504 | in a solution an unusable definition is unsupported, a marked name is invalid, a keyword gives the outer or a fixed value, and any other definition has the recursive substitution of its nested blocks over the solution itself |
| `VariableScopes.Resolver.ResolveName` | internal/htmlextract/variables.go:470-501 | a name gets the value of the solution, or is given up on where something it can depend on can be asked for beyond the limit |
| `VariableScopes.Resolver.ResolveNew` | internal/htmlextract/variables.go:480-500 | a name is evaluated once, rightly, with the path restored |
| `VariableScopes.Resolver.Expand` | internal/htmlextract/variables.go:653-694 | the substitution that resolves names on the way gives the value that substitution has under the solution, or gives up; it does not where names are safe and fallbacks stay below the limit |
| `VariableScopes.Resolver.Replace` | internal/htmlextract/variables.go:670-689 | likewise for one reference and its fallback |
| `VariableScopes.Resolver.ResolveAll` | internal/htmlextract/variables.go:502-504 | every definition ends with the value of the solution, except that one which is not safe may be given up on |
| `VariableScopes.CollectGraph` | internal/htmlextract/variables.go:410-418 | the graph is that of the references of the usable definitions; the others are unsupported |
| `VariableScopes.LiteralAcyclic` | internal/htmlextract/variables.go:315-374 | definitions without references form no cycle |
| `VariableScopes.LiteralSolves` | internal/htmlextract/variables.go:315-374 | their trimmed texts solve the definitions |
| `VariableScopes.BuildLiteralVariables` | internal/htmlextract/variables.go:315-374 | the fast path applies exactly when no definition is unusable or has a reference, and gives the solution that the graph would give |
| `VariableScopes.BuildGraphVariables` | internal/htmlextract/variables.go:377-504 | the graph, its marked cycles and the evaluation together give the solution, names that are not safe excepted; it gives up on all only where 256 definitions are chained |
| `VariableScopes.BuildVariables` | internal/htmlextract/variables.go:377-504 | from the token lists of the definitions to their one solution, by either path, where marked names lie on cycles and every cycle has one; only names that are not safe may be given up on; all are given up on only where 256 definitions are chained, so never with fewer definitions or with literal ones |
| `VariableScopes.FewAreSolved` | internal/htmlextract/variables.go:467-504 | with as many usable definitions and nested fallbacks as fit the limit together, the values built are exactly the solution |
| `VariableScopes.FewAreNotDeep` | internal/htmlextract/variables.go:419-466 | fewer definitions than the limit have no chain that stops the search |
| `Calculations.RoundTrip` | internal/htmlextract/arithmetic.go:138-338 | every well-typed expression tree within the nesting limit, printed, evaluates to its direct value; printing places parentheses by priority, which CalcGrammar.WalkIsGrammar does without |
| `Calculations.AcceptsExactly` | internal/htmlextract/arithmetic.go:138-338 | a token list evaluates to a quantity exactly when it prints a well-typed expression with that value |
| `CalcGrammar.WalkIsGrammar` | internal/htmlextract/arithmetic.go:138-338 | the walk by precedence accepts exactly the token lists of sums of products of operands, both taken from the left, with their value, as sections 10.1 and 10.2 of CSS Values and Units Level 4 have it |
| `CalcGrammar.LeastAndGreatest` | internal/htmlextract/arithmetic.go:226-249 | the least argument is an argument that none is below, the greatest one that none exceeds |
| `MathParser.Noted` | internal/htmlextract/arithmetic.go:226-249 | the running minimum and maximum are those of the arguments so far |
| `MathParser.Concluded` | internal/htmlextract/arithmetic.go:265-282 | a call's value and status follow from its arguments, argument counts and mixed kinds included |
| `MathParser.Parser.Expr` | internal/htmlextract/arithmetic.go:138-193 | the cursor parser reaches what the grammar walk reaches, status included |
| `MathParser.Parser.Atom` | internal/htmlextract/arithmetic.go:199-338 | signs, groups, literals and calls are read as the grammar walk reads them |
| `MathParser.Parser.Arguments` | internal/htmlextract/arithmetic.go:211-283 | a call is read to its closing parenthesis with the depth restored |
| `MathParser.CheckSigns` | internal/htmlextract/arithmetic.go:102-110 | accepted exactly when every plus and every minus has space on both sides |
| `MathParser.EvalExpression` | internal/htmlextract/arithmetic.go:112-120 | resolved exactly when all tokens are those of one well-typed sum, with its value |
| `MathParser.EvalMathTokens` | internal/htmlextract/arithmetic.go:92-136 | a property takes a value exactly when the signs are spaced and the tokens are those of a sum of an acceptable kind; the value is that sum's, limited to the property's range; a failure is invalid or unsupported exactly as the walk of the grammar says |
| `MathParser.UnsupportedStays` | internal/htmlextract/arithmetic.go:138-193 | an unsupported operand leaves an expression unsupported exactly when it is not added to or taken from a quantity of another kind |
| `MathParser.UnknownOperandIsInvalid` | internal/htmlextract/arithmetic.go:160-165 | a length plus something unknown is invalid, although the unknown alone is unsupported |
| `CssNumbers.PartsForced` | internal/htmlextract/numbers.go:12-89 | a text is read as a number in one way only |
| `CssNumbers.OrderBrackets` | internal/htmlextract/numbers.go:28-88 | the decimal order brackets the magnitude between powers of ten |
| `CssNumbers.SaturationHarmless` | internal/htmlextract/numbers.go:57-88 | the saturated exponent gives order 309 or more exactly when the magnitude is at least 10^309, and the exact order whenever nothing was saturated |
| `CssNumbers.ScanDigits` | internal/htmlextract/numbers.go:28-49 | digits are counted and the first nonzero one is noted |
| `CssNumbers.ScanExponent` | internal/htmlextract/numbers.go:57-84 | an exponent is accumulated up to its cap and never beyond |
| `CssNumbers.ScanCssNumber` | internal/htmlextract/numbers.go:12-89 | accepted exactly when the text has the grammar of section 4.3.13 of CSS Syntax Level 3, with sign, zero and order as it reads |
| `CssDoubles.ZeroExactly` | internal/htmlextract/numbers.go:93-113 | the nearest double to a magnitude is zero exactly up to half the smallest positive double |
| `CssDoubles.InfiniteOrderOverflows` | internal/htmlextract/numbers.go:93-113 | order 309 is beyond the largest double, so the shortcut to infinity is right |
| `CssDoubles.ConvertedSize` | internal/htmlextract/numbers.go:93-113 | a conversion that rounds as IEEE 754 does is infinite exactly from 2^1024 - 2^970 on, zero exactly up to 2^-1075, and signed as written |
| `CssDoubles.ParseCssNumber` | internal/htmlextract/numbers.go:93-113 | rejected exactly when it is no number, and otherwise, by either shortcut or by conversion, the correctly rounded double |
| `CssDoubles.NumberOf` | internal/htmlextract/numbers.go:115-118 | accepted exactly when it is a number whose double is finite |
| `CssDoubles.OverflowBelowTheShortcut` | internal/htmlextract/numbers.go:93-113 | 1.8e308 is infinite although its order is below the shortcut |
| `CssDoubles.UnderflowBesideTheShortcut` | internal/htmlextract/numbers.go:93-113 | 1e-400 is zero although it is not written as zero |
| `MsoConditions.AcceptsExactly` | internal/htmlextract/conditional_styles.go:212-289 | a token list is accepted as an expression exactly when it spells it within the depth limit |
| `MsoConditions.BitsAreEnvironments` | internal/htmlextract/conditional_styles.go:387-393 | the sixteen bits and the sixteen supported environments correspond one to one |
| `MsoConditions.InvertedMask` | internal/htmlextract/conditional_styles.go:233-235 | complement against the universe is the mask of the negation and stays inside the universe |
| `MsoConditions.JoinedMasks` | internal/htmlextract/conditional_styles.go:212-226 | intersection and union are the masks of conjunction and disjunction |
| `MsoConditions.FullMask` | internal/htmlextract/conditional_styles.go:202-210 | the full mask means true in every supported environment |
| `MsoConditions.IEMask` | internal/htmlextract/conditional_styles.go:355-361 | the browser mask holds exactly the environments of that browser |
| `MsoConditions.VersionMask` | internal/htmlextract/conditional_styles.go:363-385 | a version mask holds exactly the environments whose version compares as asked |
| `MsoText.SpacesSkipped` | internal/htmlextract/conditional_styles.go:344-353 | skipping spaces changes neither the tokens ahead nor, a second time, the place |
| `MsoText.ScanNumber` | internal/htmlextract/conditional_styles.go:325-342 | a numeral is read exactly when its value is at most 2^31 - 1, leading zeros included |
| `MsoSpelling.ReadsBack` | internal/htmlextract/conditional_styles.go:246-353 | every list of words, signs and numbers, spelled out with spaces, is read back as that list |
| `MsoSpelling.ConditionReadsBack` | internal/htmlextract/conditional_styles.go:196-289 | every condition within the depth limit, written down, is read as that condition |
| `MsoParser.Parser.Take` | internal/htmlextract/conditional_styles.go:290-297 | a sign is taken exactly when it is the next token |
| `MsoParser.Parser.ReadWord` | internal/htmlextract/conditional_styles.go:299-315 | a word is read exactly when the next token is one, and is that token in any case of letters |
| `MsoParser.Parser.ReadNumber` | internal/htmlextract/conditional_styles.go:325-342 | a number is read exactly when the next token is one that fits, and one that does not fit fails the parse |
| `MsoParser.Parser.ParseOr` | internal/htmlextract/conditional_styles.go:212-218 | the parser's mask is that of the expression the grammar walk reads, and failure agrees |
| `MsoParser.Parser.ParseAnd` | internal/htmlextract/conditional_styles.go:220-226 | likewise for conjunctions |
| `MsoParser.Parser.ParseUnary` | internal/htmlextract/conditional_styles.go:228-244 | likewise for negations and groups, progress included |
| `MsoParser.Parser.ParseGroup` | internal/htmlextract/conditional_styles.go:236-242 | a group is read to its closing parenthesis |
| `MsoParser.Parser.ParseAtom` | internal/htmlextract/conditional_styles.go:246-289 | likewise for products, versions and comparisons |
| `MsoParser.ConditionAlwaysTrue` | internal/htmlextract/conditional_styles.go:196-210 | of a text: always true exactly when its size is acceptable and it reads as an expression that holds in all sixteen environments |
| `Registration.RunKeeps` | internal/milter/domain_registration.go:81-191 | every state of every interleaving satisfies the invariant |
| `Registration.OneLookupPerDomain` | internal/milter/domain_registration.go:95-143 | at most one lookup per domain runs |
| `Registration.NoLookupWhileFresh` | internal/milter/domain_registration.go:120-139 | no lookup starts for a domain whose stored record is unexpired |
| `Registration.ChannelFate` | internal/milter/domain_registration.go:158-191 | every pending channel is open with exactly one live owner, or was closed exactly once and has none |
| `Registration.LimitsHold` | internal/milter/domain_registration.go:137-143 | running lookups never exceed the slots and the failure map never exceeds its maximum size |
| `Registration.EvidenceIsGood` | internal/milter/domain_registration.go:144-154 | returned evidence is a registration that began, not in the future, before it ends |
| `Registration.FailureSuppresses` | internal/milter/domain_registration.go:95-99 | in every run a failed lookup turns later callers away until five minutes, or one after a deadline, have passed since its caller began, unless another outcome replaced it or it was dropped for room |
| `Registration.TurnedAwayForFailure` | internal/milter/domain_registration.go:95-99 | a caller is turned away at the lock only for a failure that an earlier step noted and whose retry time it has not reached |
| `Registration.PruneFailures` | internal/milter/domain_registration.go:219-231 | expired failures go first, others only while one more would not fit |
| `Registration.LockedMaps.Enter` | internal/milter/domain_registration.go:95-118 | the locked maps take the first step as the state machine does: suppressed, waiting, or owner of a new channel |
| `Registration.LockedMaps.Conclude` | internal/milter/domain_registration.go:158-173 | the concluding step removes the domain, notes the outcome and closes the channel as the state machine does |
| `Registration.LockedMaps.NoteOutcome` | internal/milter/domain_registration.go:160-171 | a failure is noted with its retry time unless the caller was cancelled; a success is forgotten |
| `Registration.LockedMaps.FinishInflight` | internal/milter/domain_registration.go:184-191 | an early return closes the channel only if it is still the domain's own |
| `Extraction.RanGood` | internal/message/termination.go:10-30 | for every nesting of operations the log stays orderly and counts the uses made, fallback is never left, a terminal failure is never cleared, and an incomplete operation leaves one that fallback could not avoid |
| `Extraction.RanTraced` | internal/message/termination.go:10-30 | told by the log alone: a complete operation did its work in full with every own use answered, at the first attempt or, that having failed before fallback, at the one replay with its entry-time allowances; an incomplete one has the terminal failure of its last attempt |
| `Extraction.PerformedTraced` | internal/message/termination.go:67-73 | work without failure was carried out in full, and work with one up to the use that failed and no further |
| `Extraction.ReplayDecides` | internal/message/termination.go:24-29 | after a granted replay the uses that the replay starts with follow in the log; complete means that none of them failed, and the first that failed is the terminal failure |
| `Extraction.RanReported` | internal/message/termination.go:32-49 | the CPU flag is set exactly when some use met the CPU limit, the fallback memory flag exactly when a fallback use met the memory limit, and the primary one whenever a primary use did |
| `Extraction.RetriedGood` | internal/message/termination.go:15-29 | likewise from the first failure of an operation on |
| `Extraction.PerformedGood` | internal/message/termination.go:67-73 | likewise for the work inside an operation, whose cancellation is one that was signalled during it |
| `Extraction.RequestedGood` | internal/message/fallback_resources.go:37-49 | a granted request puts the move to fallback in the log, once; a refusal has a reason |
| `Extraction.OneReplay` | internal/message/termination.go:24-29 | an orderly log has at most one replay |
| `Extraction.ExtractionBudget.UseStage` | internal/message/termination.go:51-59 | each checkpoint uses the active stage's allowance and is logged so: never the primary one after fallback begins |
| `Extraction.ExtractionBudget.BeginFallback` | internal/message/fallback_resources.go:37-49 | fallback begins at most once, is then logged, and never begins after a terminal failure |
| `Extraction.ExtractionBudget.RecordTermination` | internal/message/termination.go:32-49 | the limit flags and the terminal failure are set as specified |
| `Extraction.ExtractionBudget.RunExtraction` | internal/message/termination.go:10-30 | one restartable operation does what the recursive specification says, log included; Extraction.RanTraced says what that means |
| `Extraction.ExtractionBudget.Retry` | internal/message/mime.go:231-243 | a failed operation is given up, or replayed with its entry-time allowances and judged by the replay |
| `Extraction.ExtractionBudget.Perform` | internal/message/html_tree.go:240-345 | work stops at its first failure, nested operations, memory accounting on the way out and direct moves to fallback included |
| `Extraction.ExtractMessage` | internal/message/termination.go:10-59 | for any work, any other on a replay, and any pattern of CPU, memory and cancel failures: one move to fallback at most, none after a terminal failure, no primary use after it, one replay at most, all read off a log whose events are the uses counted; an incomplete message has a terminal failure that was cancelled, refused or met in fallback; a complete message's log is that of work done in full, an incomplete one's ends in the failure of its last attempt; the flags report the limits that were met |
| `ZipDirectories.ScanState.ZipDirectoryEnd` | internal/attachment/zip_limits.go:134-156 | the two-window search finds the specified end record, with every read in bounds |
| `ZipDirectories.ScanState.SearchWindow` | internal/attachment/zip_limits.go:136-150 | a window yields its last end signature unless that record's comment is cut short |
| `ZipDirectories.ScanState.CountDirectory` | internal/attachment/zip_limits.go:108-130 | the count and bytes are those of the successive headers within the limits, or the first header in the way decides the failure |
| `ZipDirectories.ScanState.CountHeader` | internal/attachment/zip_limits.go:110-128 | one more header is counted exactly when entries, metadata and data leave room for it, and else the first of these fails |
| `ZipDirectories.ScanState.MeasureDirectory` | internal/attachment/zip_limits.go:70-85 | the reservation covers the directory at both places it may be read from |
| `ZipDirectories.ScanState.AdmitZIPDirectory` | internal/attachment/zip_limits.go:24-94 | unless the caller went away, admitted exactly when what the directory needs fits what is left, and then exactly that is reserved; a refusal changes nothing and has the first reason there is; totals never exceed their limits (sections 4.3.12 to 4.3.16 of the PKWARE APPNOTE) |
| `ZipDirectories.ScanState.AdmitAdvertised` | internal/attachment/zip_limits.go:55-94 | likewise for an end record that was found |
| `ZipDirectories.CountedExactly` | internal/attachment/zip_limits.go:108-130 | counting within limits succeeds exactly when the directory is well formed and fits, and then counts all of it |
| `ZipDirectories.AdmissionExactly` | internal/attachment/zip_limits.go:24-94 | admission succeeds exactly when the directory is well formed and fits what is left, and then takes what it holds |
| `ZipDirectories.NearIsFar` | internal/attachment/zip_limits.go:132-139 | what the near window shows is what the far window shows |
| `ArchiveScanner.Scanner.ReadArchiveEntry` | internal/attachment/scanner.go:491-517 | unless cancelled on the way, exactly as much of an entry is unpacked as the entry limit and the shared byte budget allow, and it succeeds exactly when that is all of a readable entry; the bytes charged are the bytes returned |
| `ArchiveScanner.Scanner.CheckArchiveFileSize` | internal/attachment/scanner.go:533-542 | a declared size passes exactly when it fits both limits |
| `ArchiveScanner.Scanner.BeginArchiveFile` | internal/attachment/scanner.go:522-531 | an entry is counted exactly when count and size fit |
| `ArchiveScanner.Scanner.ScanFile` | internal/attachment/scanner.go:254-316 | for every nesting of archives scanning terminates and all budgets hold; unless interrupted, a blocked name or a prohibited signature is a finding, and the verdict and the counters are exactly those of the first thing in scan order that is prohibited, cannot be looked into or does not fit, or clean; a finding means something prohibited is inside |
| `ArchiveScanner.Scanner.ScanAttachment` | internal/attachment/scanner.go:219-226 | likewise; unless interrupted, clean exactly when every file inside at every depth is allowed, unencrypted and readable and all of it fits the budgets in turn, and a finding exactly when something prohibited at some depth comes before anything that is not clean or does not fit |
| `ArchiveScanner.Scanner.ScannedExactly` | internal/attachment/scanner.go:254-316 | the outcome in scan order is clean exactly when everything is clean and fits, with just the counters of unpacking it all |
| `ArchiveScanner.Scanner.ScannedCatches` | internal/attachment/scanner.go:254-489 | the outcome is a finding exactly when the file is blocked or prohibited or, as an archive, catches: a listed entry or member after clean ones that fit, a compressed file that fits, or an entry behind a local header, prohibited itself or catching inside |
| `ArchiveScanner.Scanner.LocalCatches` | internal/attachment/scanner.go:391-443 | an entry behind a local header is a finding exactly when its name is blocked or the part that could be unpacked is prohibited or catches, and is passed over exactly when it is none and was whole, readable and in budget |
| `ArchiveScanner.Scanner.FirstProhibited` | internal/attachment/scanner.go:339-375 | a blocked or prohibited entry of a listed ZIP after entries that are clean and fit is a finding, whatever follows |
| `ArchiveScanner.Scanner.FirstProhibitedMember` | internal/attachment/scanner.go:449-489 | likewise for a TAR member |
| `ArchiveScanner.Scanner.ScanCompressed` | internal/attachment/scanner.go:281-312 | likewise exact for a compressed file, scanned as an archive of one entry; it catches what ArchiveScanner.Scanner.AloneCatches states |
| `ArchiveScanner.Scanner.AloneCatches` | internal/attachment/scanner.go:281-312 | a compressed file is a finding exactly when it was counted, read whole and in budget, and what it holds is blocked, prohibited or catches |
| `ArchiveScanner.Scanner.ScanZIP` | internal/attachment/scanner.go:318-376 | likewise exact for a ZIP archive, its admission and the reading of local headers included |
| `ArchiveScanner.Scanner.AdmitZIP` | internal/attachment/scanner.go:318-338 | admission takes exactly what the directory needs and leaves room for as many entries as the library then lists, or changes nothing and fails for the first reason |
| `ArchiveScanner.Scanner.ScanUnreadableZIP` | internal/attachment/scanner.go:324-337 | an archive whose directory cannot be used is never clean; findings and errors are exactly those of its local headers |
| `ArchiveScanner.Scanner.ScanZIPFiles` | internal/attachment/scanner.go:339-375 | the first listed entry that is not clean decides, entries reserved at admission not being counted again |
| `ArchiveScanner.Scanner.ScanZIPFile` | internal/attachment/scanner.go:339-375 | one listed entry: directories pass, encrypted, oversized and unopenable ones are errors, a blocked name is a finding |
| `ArchiveScanner.Scanner.ScanEntry` | internal/attachment/scanner.go:356-373 | one counted entry is unpacked and scanned: prohibited content in what came out is a finding even where the rest does not fit |
| `ArchiveScanner.Scanner.ScanTAR` | internal/attachment/scanner.go:449-489 | likewise exact for a TAR archive: the first member that is not clean decides, and an unreadable end is an error |
| `ArchiveScanner.Scanner.ScanTAREntry` | internal/attachment/scanner.go:462-487 | one member: special members pass, a negative size or one that does not fit is an error, a blocked name is a finding |
| `ArchiveScanner.Scanner.ScanPartialZIP` | internal/attachment/scanner.go:378-447 | reading local headers one after another keeps the budgets and terminates; unless interrupted, clean exactly when the file does not start with a local header, and otherwise the first header that is encrypted, cut short, prohibited or not whole decides (section 4.3.7 of the PKWARE APPNOTE) |
| `ArchiveScanner.Scanner.ScanHeader` | internal/attachment/scanner.go:388-445 | one local header decides, or scanning goes on exactly behind its entry |
| `ArchiveScanner.Scanner.ScanLocalEntry` | internal/attachment/scanner.go:391-443 | an entry behind a local header is passed over exactly when it holds nothing found, was whole and readable; a blocked name is a finding |
| `ArchiveScanner.Scanner.ScanPartialEntry` | internal/attachment/scanner.go:426-437 | a finding exactly when what could be unpacked is prohibited or, as an archive, holds a finding; errors inside it do not matter |
| `ZipLayout.LocalReadsBack` | internal/attachment/scanner.go:386-415 | a local header written field by field (section 4.3.7 of the PKWARE APPNOTE) is read back: name, flags, compression, size and content, and scanning goes on right behind it |
| `ZipLayout.DirectoryReadsBack` | internal/attachment/zip_limits.go:108-130 | a written central directory (section 4.3.12) is counted with all its headers and all their bytes |
| `ZipLayout.EndReadsBack` | internal/attachment/zip_limits.go:25-32 | a written end record without comment (section 4.3.16) is found and read back |
| `ZipLayout.ArchiveReadsBack` | internal/attachment/zip_limits.go:24-94 | an archive written as files, directory and end record reserves exactly its entries and the bytes of its directory and end record |
| `AttachmentSpans.AppendSpans` | internal/message/attachment_context.go:95-104 | appended spans are the source's, shifted by the offset |
| `AttachmentSpans.Wrap` | internal/message/attachment_context.go:120-125 | wrapping puts one new section around the text and keeps all sections nested, in order and on their tags |
| `AttachmentSpans.WrappedNested` | internal/message/attachment_context.go:120-125 | the wrapped text's sections are properly nested |
| `AttachmentSpans.JoinedNested` | internal/message/mime.go:433-503 | the joined text's sections are properly nested, each where its part's text went |
| `AttachmentSpans.JoinNext` | internal/message/mime.go:450-459 | tracking offsets part by part gives the joined text and its sections |
| `AttachmentContents.WrapAttachment` | internal/message/attachment_context.go:113-161 | every view of an attachment is wrapped, shared text and stripped text included, and an exhausted budget leaves only a marker section in every view |
| `AttachmentContents.AddPart` | internal/message/mime.go:435-479 | one more part extends the three views with their own offsets |
| `AttachmentContents.Assemble` | internal/message/mime.go:425-503 | each view of the assembled message is the join of the parts present in it, with consistent sections |
| `AttachmentSampling.ClearCut` | internal/message/attachment_context.go:188-197 | the cut is the furthest one within the allowance that tears no opening and no closing tag |
| `AttachmentSampling.WriteClosings` | internal/message/attachment_context.go:198-204 | the closing tags of exactly the sections left open are written, innermost first |
| `AttachmentSampling.KeptNested` | internal/message/attachment_context.go:189-205 | after the cut, the kept sections with their written closings are again properly nested and on their tags |
| `AttachmentSampling.SameTries` | internal/message/attachment_context.go:186-214 | the cuts tried are forced: each is the furthest clear one within what the notice and closings of the one before leave |
| `AttachmentSampling.FitLeavesRoom` | internal/message/attachment_context.go:205-213 | once a try fits, no try leaves no room |
| `AttachmentSampling.RoomEverywhere` | internal/message/attachment_context.go:186-214 | where the notice and the closings of every place up to the limit are shorter than the limit, the notice never stands alone |
| `AttachmentSampling.SampleAttachmentBody` | internal/message/attachment_context.go:178-215 | the loop terminates; the notice stands alone exactly when a cut that is tried leaves no room for text, and otherwise the text is the body cut at the first try that fits, balanced and within the limit |
| `Annotations.MarkupReadsBack` | internal/message/html_tree.go:160-193 | the markup of any items is balanced and unnested, and a reader gets back exactly the items |
| `Annotations.MarkupIsShortest` | internal/message/html_tree.go:222-232 | no balanced markup with the same reading has fewer tags |
| `Annotations.TagTells` | internal/message/html_tree.go:174-193 | an opening tag tells the kind of its annotation, and the reason and value of concealed content where neither holds a quote |
| `Annotations.TagsPair` | internal/message/html_tree.go:160-193 | a closing tag closes the element that the opening tags of its kind open |
| `AnnotatedRuns.ItemsKeepText` | internal/message/html_tree.go:195-236 | all written text is shown in order, except non-blank stripped content |
| `AnnotatedRuns.BlankStretch` | internal/message/html_tree.go:199-203 | blank chunks show as one stretch under the annotation around them or none |
| `AnnotatedRuns.OneStretch` | internal/message/html_tree.go:222-233 | equal annotations separated only by blank chunks show as one stretch |
| `AnnotatedOutput.WhitespaceOnly` | internal/message/html_tree.go:961-981 | blank exactly when not empty and all padding |
| `AnnotatedOutput.ShowStripped` | internal/message/html_tree.go:204-213 | stripped content closes the open tag and leaves one omission for each stretch |
| `AnnotatedOutput.ShowUnmarked` | internal/message/html_tree.go:214-221 | unannotated content is written outside all tags |
| `AnnotatedOutput.ShowTagged` | internal/message/html_tree.go:222-233 | annotated content continues an equal open pair or opens its own |
| `AnnotatedOutput.RunsAreData` | internal/message/html_tree.go:112-131 | the chunks partition the data: their texts in order are the data |
| `AnnotatedOutput.Output.Write` | internal/message/html_tree.go:90-123 | a write appends its characters under its annotation, and the chunks stay maximal runs without gap or overlap |
| `AnnotatedOutput.Output.ExtendChunk` | internal/message/html_tree.go:112-123 | a write that carries on the last annotation joins its run and any other starts a run, with the chunks still a partition of the data |
| `AnnotatedOutput.Output.UniformAnnotation` | internal/message/html_tree.go:133-153 | found exactly when there is content and all of it is under one annotation |
| `AnnotatedOutput.Output.RenderAnnotations` | internal/message/html_tree.go:155-239 | the rendered text is the spelled markup of exactly what the runs show |
| `AnnotatedOutput.RenderedFaithfully` | internal/message/html_tree.go:155-239 | that markup is balanced and unnested, reads back as the items, and removing its tags gives the written text without its non-blank stripped content |

## Left out

- ArchiveScanner.Scanner.ScanFile: takes for granted that the unpacking library lists the directory that was admitted; decompression itself is a parameter.
- Registration.FailureSuppresses: a noted failure can be dropped early to keep the failure map within its size; which one goes is the map's own choice.
- ZipLayout.LocalReadsBack: is about headers that give the compressed size; the scanner treats others as cut short.
- PaintColours.PropagationInvisible: states a sufficient condition only; whether a translucent body shows a difference depends on the colours themselves.
- CssDoubles.ParseCssNumber: takes as a parameter the library conversion, required to round to the nearest double as IEEE 754 does.
- MathParser.EvalMathTokens: computes over reals, so NaN, infinity and rounding do not occur; units are scaled before the tokens are given.
- ColourMemo.PaintStack.Run: counts generations without the wrap-around of a 64-bit counter.
- ColourMemo.DeeperBody: states the condition for opaque backgrounds; a translucent one depends on the colours themselves.
- VariableScopes.Resolver.ResolveName: does not say which of the names that are not safe are given up on, which depends on the order of evaluation.
- VariableScopes.BuildVariables: an unusable definition starts no search of its own references, so the depth at which the search gives up can differ by one where such a definition refers into a chain of 255 names.
- VariableScopes.BuildLiteralVariables: takes the text of a definition to be that of its tokens.
- AttachmentSampling.SampleAttachmentBody: offsets count characters instead of UTF-8 bytes; the notice is a parameter.
- AttachmentContents.Assemble: does not model the links, images, comment counts and incompleteness flags gathered beside the text, or the plain alternative used when no part is left.
- AnnotatedOutput.Output.Write: works on characters, so that blankness is decided without decoding UTF-8.
- Cascade.Apply: takes the validity of a declaration on an element as given, because resolving property values is not modelled.
- ViewingWalk.Walker.EnterElement: leaves out the presentation state; that unread inline declarations leave an element unresolved is stated by Viewings.InspectViewings.
- Inspection.PlanBranch: leaves out uncertain and foreign-case plans, which fall back to wider scopes decided by the selector library.
- SheetCaches.Sheet.CollectCascade: leaves out the comparison of alternate and primary winners after the scan, which only reads the winners.
- SheetCaches.Sheet.MatchBranch: leaves out uncertain and foreign-case plans, which fall back to wider scopes decided by the selector library.
- SheetCaches.Sheet.ElementWinners: stops at the winners; resolving them into a style is not modelled.
- SelectorIndex.BuildSelectorIndex: leaves out the plans of generated pseudo-elements, which the code skips or treats as uncertain.
- SelectorIndex.KeepRules: likewise does not drop a rule for having only such plans that are skipped.
- Parsing of HTML, CSS, selectors and media queries into the tokens and trees used here, and finding conditional comments in a document.
- Presentation state and visibility labels recorded for elements and text, and merging them over viewing cases.
- Colour-scheme dependency flags of custom properties, and the state of downlevel-revealed conditional comments.
- The colour distance itself, which is a parameter, and floating-point rounding in blending and widths.
- Memory and CPU ledgers, except that any storage or work may be refused where the code can go on.
- MIME parsing, transfer decoding, character sets, and which partial content is kept after a terminal failure.
- Public-suffix lookup, the registration protocol on the network, and the store's own maintenance.
- The mail session, policies, prompts, administration, configuration and storage: easy members, or input and output.
