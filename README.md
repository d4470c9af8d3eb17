# intro.js tour core in Dafny

This project models the step engine of the intro.js product tour. It covers three things:

- how the tour's steps are built, either from the `steps` option or from the `data-intro` markup of the page (`fetchSteps`);
- how the tour moves forward and backward over those steps, skipping steps whose `skipIf` resolves to true and running the `onComplete` hooks (`nextStep`, `previousStep`);
- how a step is shown (`showElement`, `setShowElement`, `removeShowElement`). Showing re-queries the step's element from its selector, writes the rebinding back into the steps array, and moves the `introjs-showElement` / `introjs-relativePosition` marker classes onto the anchor.

Files:

- `optional.dfy`: the `Option` datatype.
- `steps.dfy` (module `Steps`): the `TourStep` record, the inputs of both modes, and `fetchSteps`.
  - Programmatic mode is a loop proved against a per-step relation.
  - Markup mode is a loop proved equal to a function over a sparse slot table. Lemmas state what that table yields: strictly increasing orders, explicit orders kept, unordered items filling the holes in order, nothing lost, and the final sort being the identity.
- `display.dfy` (module `Display`): the page as data, with selector lookups, class names and computed positions per element. It holds the re-query, the steps-array write-back and the marker-class update as functions, with lemmas about them.
- `navigation.dfy` (module `Navigation`): the tour as a class `Tour`. Its fields are the steps array, the current index, the exit flag, the page, its class table and the refresh counter. `nextStep`, `previousStep`, `showElement`, `setShowElement` and `removeShowElement` are methods that update those fields in place. Two things are ghost logs: the hooks and callbacks a navigation fires, and the events a display produces. The `skipIf` predicates are a parameter `skip: nat -> bool`, the answer step `i`'s predicate gives during the call.
- `scenarios.dfy` (module `Scenarios`): small tours driven through the public methods. What each ends in is proved from the contracts alone.

The tour object itself lives in tour.ts, which is not part of this model. Its members are modelled as follows:

- `getCurrentStep` / `setCurrentStep` are the field `current`, with `None` for undefined.
- `incrementCurrentStep` maps undefined to 0 and `n` to `n + 1`.
- `isEnd` holds when the current index is at or past the number of steps.
- `exit` sets the exit flag.
- `appendFloatingElement` returns one fixed placeholder element.

## Model

| member | source | states |
|---|---|---|
| Steps.Found | src/packages/tour/steps.ts:257-262 | The element a programmatic step resolves to at build time: a node itself, or what its selector finds now |
| Steps.BuiltFrom | src/packages/tour/steps.ts:249-275 | How one built step relates to its input: title, selector, placeholder with "floating", and the option defaults |
| Steps.Eligible | src/packages/tour/steps.ts:295-306 | An element passes when no group is requested or its group attribute matches, and it is not hidden by `display: none` |
| Steps.MarkupStep | src/packages/tour/steps.ts:309-332 | The step an element declares: its parsed `data-step`, its attributes with the tour defaults, and itself as element |
| Steps.Candidates | src/packages/tour/steps.ts:293-332 | The steps of the elements that pass the filters, in document order |
| Steps.Explicit | src/packages/tour/steps.ts:334-335 | The slot table after every step with a positive order is written to slot order - 1, later writes winning |
| Steps.Unordered | src/packages/tour/steps.ts:336-338 | The steps without a positive order, in document order |
| Steps.Fill | src/packages/tour/steps.ts:342-350 | The fill loop: each free slot from `i` upward takes the next unordered step, numbered slot + 1 |
| Steps.Compact | src/packages/tour/steps.ts:354 | The table without its holes, in slot order |
| Steps.MarkupResult | src/packages/tour/steps.ts:282-357 | What markup mode returns: the compacted table after both passes |
| Steps.BuildStep | src/packages/tour/steps.ts:249-275 | One input becomes a step numbered `n` with an element, related to the input as `Steps.BuiltFrom` states |
| Steps.FetchProgrammatic | src/packages/tour/steps.ts:246-280 | One step per input, numbered 1, 2, … in input order. Each step is related to its input: the title defaults to ""; a string element is kept as `elementSelector`, and otherwise the caller's own `elementSelector` is kept; an unresolved element is replaced by the floating placeholder with position "floating"; position and scrollTo fall back to the tour options, and disableInteraction does when undefined |
| Steps.FetchMarkup | src/packages/tour/steps.ts:282-357 | The result equals the slot-table specification `MarkupResult`: the group/hidden filter, the explicit writes with the last write winning, the fill pass, and the removal of holes. It is strictly increasing by order and every order is >= 1 |
| Steps.FetchSteps | src/packages/tour/steps.ts:243-360 | Programmatic mode when the `steps` option is non-empty, markup mode otherwise. The result is strictly increasing by order, every order is >= 1, and every step has an element. In programmatic mode the result has one step per input, numbered 1, 2, …, each built from its input as `Steps.BuiltFrom` states. In markup mode it equals `MarkupResult` |
| Steps.Put | src/packages/tour/steps.ts:335 | Assignment into a sparse JavaScript array: slot `i` holds the step, other slots are kept, and writing past the end grows the table with holes |
| Steps.FreeFrom | src/packages/tour/steps.ts:342-343 | The slot the fill loop picks is a hole or past the end, and with `n = 0` it is the first such slot at or after `i` |
| Steps.ExplicitNumbered | src/packages/tour/steps.ts:334-335 | Every slot written by an explicit order `k` holds a step of order `k` at index `k - 1` |
| Steps.ExplicitLastWins | src/packages/tour/steps.ts:334-335 | When two elements declare the same order, the later one in document order occupies the slot |
| Steps.ExplicitHole | src/packages/tour/steps.ts:334-335 | A hole left after the explicit writes is an order no element declared |
| Steps.UnorderedNonPositive | src/packages/tour/steps.ts:334-338 | Every step queued as unordered has order <= 0 (an absent or non-positive `data-step`) |
| Steps.FreeFromAgree | src/packages/tour/steps.ts:342-343 | The search for a free slot depends only on slots at or after its start |
| Steps.FreeFromNext | src/packages/tour/steps.ts:342-350 | The fill loop visits free slots in increasing order: the `(n+1)`-th free slot is the first free slot after the `n`-th |
| Steps.FillKeeps | src/packages/tour/steps.ts:342-350 | The fill pass never overwrites a slot an explicit order filled |
| Steps.FillPlaces | src/packages/tour/steps.ts:342-350 | Unordered item `t` lands in the `t`-th free slot, and its order becomes slot + 1 |
| Steps.FillNumbered | src/packages/tour/steps.ts:342-350 | After the fill pass every filled slot still holds a step whose order is its index + 1 |
| Steps.FillCount | src/packages/tour/steps.ts:342-350 | The fill pass adds exactly one step per unordered item, so none is lost |
| Steps.CompactAppend | src/packages/tour/steps.ts:354 | Dropping holes distributes over concatenation |
| Steps.CompactHoles | src/packages/tour/steps.ts:354 | A run of holes compacts to nothing |
| Steps.CompactPut | src/packages/tour/steps.ts:348-354 | Writing a step into a hole adds exactly one step to the compacted table |
| Steps.CompactIncreasing | src/packages/tour/steps.ts:354-357 | A table whose slots are numbered by index compacts to steps of strictly increasing order |
| Steps.CompactContains | src/packages/tour/steps.ts:354 | Every filled slot survives the removal of holes |
| Steps.TailIncreasing | src/packages/tour/steps.ts:357 | A strictly increasing sequence stays so without its first step |
| Steps.TailAscending | src/packages/tour/steps.ts:357 | An ascending sequence stays so without its first step |
| Steps.SameHead | src/packages/tour/steps.ts:357 | An ascending permutation of a strictly increasing sequence starts with the same step |
| Steps.SortKeepsIncreasing | src/packages/tour/steps.ts:357 | Sorting a strictly increasing sequence by order gives it back unchanged: any ascending permutation of it equals it |
| Steps.MarkupOrdered | src/packages/tour/steps.ts:282-357 | The markup result is strictly increasing by order, every order is >= 1, and its length is the number of explicit slots plus the number of unordered items |
| Steps.MarkupExplicitKept | src/packages/tour/steps.ts:334-335 | The last element declaring order `k >= 1` appears in the result with order `k` |
| Steps.MarkupUnorderedPlaced | src/packages/tour/steps.ts:336-350 | Unordered element `t` appears in the result with order p + 1, where p is the `t`-th free slot after the explicit writes, and no element declared that order |
| Steps.OrdersKeepGaps | src/packages/tour/steps.ts:334-357 | Explicit orders 1 and 3 alone give the steps [1, 3]: a gap is kept, not renumbered |
| Steps.UnorderedFillHoles | src/packages/tour/steps.ts:334-357 | Explicit orders 3 then 1 plus two unordered elements give orders 1, 2, 3, 4, the unordered ones taking 2 and 4 in document order |
| Steps.MarkupAnchored | src/packages/tour/steps.ts:293-332 | Every markup step is anchored on an element that passed the group and visibility filters, so a hidden element or one outside the requested group yields no step |
| Steps.DeclaredIds | src/packages/tour/steps.ts:293-306 | An element is in the set exactly when some element of the page passes the group and visibility filters with that identity |
| Steps.CandidatesAnchored | src/packages/tour/steps.ts:319-332 | Every candidate step is anchored on an element that passed the filters |
| Steps.UnorderedAnchored | src/packages/tour/steps.ts:336-338 | Queuing keeps every unordered step on an element that passed the filters |
| Steps.ExplicitAnchored | src/packages/tour/steps.ts:334-335 | Every explicitly written slot holds a step on an element that passed the filters |
| Steps.FillAnchored | src/packages/tour/steps.ts:342-350 | Every slot after the fill pass carries its element |
| Steps.CompactAnchored | src/packages/tour/steps.ts:354 | Removing holes keeps every step anchored |
| Display.MarkersAreIntroClasses | src/packages/tour/showElement.ts:103-109 | Both marker classes that lines 16 and 26 add match the pattern `introjs-[a-zA-Z]+` that removal strips, and they differ |
| Display.StripIntro | src/packages/tour/showElement.ts:107 | A class survives removal exactly when it is not an `introjs-*` class, and nothing is added |
| Display.FreshElement | src/packages/tour/showElement.ts:38-45 | What a non-empty stored selector finds now, unless it is the floating placeholder |
| Display.ClearOne | src/packages/tour/showElement.ts:104-108 | One element after removal: a marker holder loses every `introjs-*` class, any other element is untouched |
| Display.Requery | src/packages/tour/showElement.ts:38-54 | Only element and position can change. Nothing changes when the selector finds nothing or finds the floating placeholder. Otherwise the step is bound to the fresh element, and the position changes only from "floating" to `tooltipPosition` or "bottom" |
| Display.Sync | src/packages/tour/showElement.ts:55-65 | Only the entry at the current index is written: its element always, and its position unless the rebound position is "floating". Nothing is written without a fresh element, a current index or an entry at it |
| Display.Cleared | src/packages/tour/showElement.ts:103-109 | The class table keeps its length; what removal does to each element is stated by `Display.ClearedRemovesMarkers` |
| Display.Marked | src/packages/tour/showElement.ts:15-28 | The class table keeps its length; what marking does to the anchor is stated by `Display.DisplayMarksOnlyAnchor` |
| Display.AfterDisplay | src/packages/tour/showElement.ts:78-80 | The class table keeps its length; the effect of a whole display is stated by `Display.DisplayMarksOnlyAnchor` |
| Display.ClearedRemovesMarkers | src/packages/tour/showElement.ts:103-109 | After removal no element holds `introjs-showElement`. Former holders carry no `introjs-*` class. Other elements are untouched |
| Display.DisplayMarksOnlyAnchor | src/packages/tour/showElement.ts:77-80 | After a display the anchor is the only marker holder. Former holders lose every `introjs-*` class and all other elements are untouched. The anchor gets `introjs-relativePosition` exactly when its computed position is not absolute, relative, sticky or fixed |
| Display.DisplayIdempotent | src/packages/tour/showElement.ts:77-80 | Showing the same anchor twice leaves the classes as one display did |
| Display.RequeryIdempotent | src/packages/tour/showElement.ts:38-54 | Re-querying an already re-queried step against the same page changes nothing |
| Display.FloatingClassUntouched | src/packages/tour/showElement.ts:43 | The placeholder class `introjsFloatingElement` is neither an `introjs-*` class nor a marker |
| Display.FreshElementAfterDisplay | src/packages/tour/showElement.ts:38-45 | A display does not change what a re-query finds, because it never adds or removes the placeholder class |
| Display.ShownClasses | src/packages/tour/showElement.ts:71-80 | The class table keeps its length; a step with an element moves the markers onto it, a step without one leaves the table |
| Display.DisplayTwice | src/packages/tour/showElement.ts:35-96 | Showing the same step twice against an unchanged page gives the same rebound step, the same steps array and the same classes as showing it once |
| Display.RequeryRebinds | src/packages/tour/showElement.ts:38-54 | A step built floating because its selector found nothing is bound to the selector's element once it exists. Its position becomes `tooltipPosition` or "bottom", which is not "floating" unless that option is |
| Navigation.FirstShown | src/packages/tour/steps.ts:92-128 | The first step at or after `from` that is not skipped, with every step between skipped; `None` exactly when all remaining steps are skipped |
| Navigation.LastShownBelow | src/packages/tour/steps.ts:185-208 | The last step below `n` that is not skipped, with every step between skipped; `None` exactly when all steps below `n` are skipped |
| Navigation.FirstShownIs | src/packages/tour/steps.ts:92-128 | Any index that is not skipped and has only skipped steps before it is the one `FirstShown` returns |
| Navigation.LastShownBelowIs | src/packages/tour/steps.ts:185-208 | Any index below `n` that is not skipped and has only skipped steps after it is the one `LastShownBelow` returns |
| Navigation.Inc | src/packages/tour/steps.ts:55 | The index `incrementCurrentStep` moves to: 0 from undefined, n + 1 from n |
| Navigation.LeaveHook | src/packages/tour/steps.ts:161-166 | The entry step's `onComplete`, when there was an entry step and it has one |
| Navigation.SetupHook | src/packages/tour/steps.ts:217-223 | The `onComplete` of the step before the target, when there is one and it has one |
| Navigation.SkipForward | src/packages/tour/steps.ts:111-128 | The forward scan stops at the first step not skipped, or at the number of steps when there is none |
| Navigation.SkipBackward | src/packages/tour/steps.ts:185-208 | The backward scan stops at the last earlier step not skipped, or at -1 when there is none |
| Navigation.Tour.constructor | src/packages/tour/steps.ts:40-41 | A tour starts with no current step, not exited, with empty logs and the given steps, page and classes |
| Navigation.Tour.IsEnd | src/packages/tour/steps.ts:43 | The current index is at or past the number of steps |
| Navigation.Tour.NothingShown | src/packages/tour/steps.ts:62-73 | Steps, classes, refresh counter and display log are as in the given earlier state |
| Navigation.Tour.Displayed | src/packages/tour/showElement.ts:35-96 | What one `showElement` did from the given earlier state: the re-query, the write-back to entry `idx` only, and unless the step has no element, the marker move, the refresh bump and "change", marker move, "afterChange" in that order |
| Navigation.Tour.IncrementCurrentStep | src/packages/tour/steps.ts:55 | The index moves from undefined to 0, or from n to n + 1 |
| Navigation.Tour.SetCurrentStep | src/packages/tour/steps.ts:226 | The index becomes the given step (the same call is at line 145) |
| Navigation.Tour.CompleteAndExit | src/packages/tour/steps.ts:43-47 | The "complete" callback with the given index and reason "end", then exit (the same pair is at lines 70-71, 104-105 and 139-140) |
| Navigation.Tour.LeaveStep | src/packages/tour/steps.ts:159-166 | The entry step's `onComplete` runs, and only when there was an entry step and it has one (the same guard is at lines 64-69, 98-103 and 133-138) |
| Navigation.Tour.RemoveShowElement | src/packages/tour/showElement.ts:103-109 | The class table becomes `Cleared` of the old one: each marker holder loses every `introjs-*` class |
| Navigation.Tour.SetShowElement | src/packages/tour/showElement.ts:15-28 | The anchor gains `introjs-showElement`, and `introjs-relativePosition` when its computed position is not absolute, relative, sticky or fixed |
| Navigation.Tour.Rebind | src/packages/tour/showElement.ts:36-68 | The shown step is the re-queried step. The steps array becomes the synchronised one. A new element is an element of the page |
| Navigation.Tour.WriteBack | src/packages/tour/showElement.ts:55-65 | The steps array becomes `Sync` of the old one: only the current entry takes the fresh element and, unless floating, the rebound position |
| Navigation.Tour.ShowElement | src/packages/tour/showElement.ts:35-96 | After re-query and write-back, nothing else happens when the step has no element. Otherwise listeners see "change", the marker move and "afterChange" in that order; the classes become `AfterDisplay` on the anchor; and a defined refresh counter rises by one |
| Navigation.Tour.NextStep | src/packages/tour/steps.ts:40-171 | At the end the tour completes with the current index and exits. Otherwise the index moves to the first step at or after the next one that is not skipped: the entry step's `onComplete` runs, that step is shown, and the call returns true. When every remaining step is skipped, the tour completes and exits and the call returns false |
| Navigation.Tour.PreviousStep | src/packages/tour/steps.ts:178-236 | The call fails and changes nothing without a current index above 0, or when every earlier step is skipped. Otherwise it moves to the last earlier step not skipped, runs the `onComplete` of the step before that one (never the current step's), shows the step and returns true |
| Scenarios.Forward | src/packages/tour/steps.ts:159-170 | A `nextStep` onto a step without `skipIf` lands on it, keeps the steps array, and logs only the leaving hook and the display |
| Scenarios.Backward | src/packages/tour/steps.ts:185-235 | A `previousStep` from step k + 1 onto a step k without `skipIf` lands on it, keeps the steps array, and logs only step k - 1's hook and the display |
| Scenarios.ThreeStepsForward | src/packages/tour/steps.ts:40-171 | Over three plain steps, four `nextStep` calls return true, true, true, false. Every `onComplete` runs once, and "complete" receives index 3 |
| Scenarios.SkipMiddle | src/packages/tour/steps.ts:92-168 | With the middle step skipped, `nextStep` from step 0 reaches step 2, and the skipped step's hook never runs |
| Scenarios.BackFromFirst | src/packages/tour/steps.ts:179-182 | `previousStep` on step 0 returns false and changes nothing |
| Scenarios.BackRunsSetupHook | src/packages/tour/steps.ts:215-235 | Going back from step 2 to step 1 runs step 0's `onComplete` and not step 2's |
| Scenarios.LateElement | src/packages/tour/steps.ts:257-268 | A step whose selector first found nothing is built floating. Once the element exists, showing the step binds it to the element, un-floats it and puts the marker on it |

## Left out

- src/packages/hint/components/HintIcon.ts is not part of this model: it belongs to hints, not to the tour engine.
- Asynchrony is not modelled. Every `await` is taken as completing in order before the next statement, and exceptions thrown by hooks or callbacks are left out.
- The double `requestAnimationFrame` around the refresh bump is modelled as an immediate bump at the end of the display. The display log records the callbacks in source order and leaves the bump's timing out.
- The DOM helpers are not part of this model, apart from the effects listed here: `queryElement` (a selector-to-element map), `getPropValue` (a computed-position table), `addClass`/`removeClass`, `cloneObject`, `appendFloatingElement` (one fixed placeholder element) and `parseInt` (the `data-step` attribute arrives already parsed to an integer).
- tour.ts is not part of this model. Its index, end and exit members are modelled by the contracts stated above, and callbacks appear only as events in a ghost log.
- Negative current indices are not modelled: the current index is undefined or a natural number.
- Navigation.Tour.ShowElement: the step is passed as a value, so writes to the `step` object do not alias `steps[current]`. The write-back of showElement.ts lines 55-65 is modelled explicitly, which covers that alias for the current step.
- Display.StripIntro: removal is matched against whole class names. The source's regular expression also rewrites a class that merely contains `introjs-` followed by letters, such as `my-introjs-x`, and that partial rewrite is not modelled.
- Display.DisplayIdempotent: requires the anchor to hold `introjs-showElement` already or to carry no stray `introjs-*` class. A stray one on a new anchor survives the first display (only former marker holders are stripped) and is removed by the second, so idempotence without this condition does not hold for the code.
- Steps.MarkupOrdered: states strict increase, not consecutive numbering. The code keeps gaps between explicit orders (orders 1 and 3 give [1, 3]; see `Steps.OrdersKeepGaps`), so a "no gaps" property would not hold for the code.
- Display.DisplayTwice: carries the same condition on the anchor as `Display.DisplayIdempotent`, for the same reason.
- Steps.Put: `data-step` values are unbounded integers. In JavaScript an order above 2^32 - 1 does not name an array index, so line 335 sets a plain property and the `filter` at line 354 drops that step. The model keeps such a step.
- Navigation.Tour.NextStep: the guards of steps.ts lines 76-89 and 148-153 and the `!nextStep` break at line 114 cannot fire on a steps array without holes. They are not modelled separately.
- Navigation.Tour.PreviousStep: the missing-step branch of steps.ts lines 190-194 fires when the current index lies past the last step. `Navigation.SkipBackward` models it by passing every index past the end. The null check of lines 228-231 cannot fire, because the target index found is always in range, and it is not modelled separately.
- Scenarios.ThreeStepsForward: "complete" receives index 3, the index after the final increment (line 70), not the index 2 of the last step shown.
