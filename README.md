# Level 2, part two: the toolbar click handlers

This project models the two "part two" pages of level 2 of the contract-drafting game. On each page the player selects text in an
employment agreement and presses a toolbar button:

- "Edit PlaceHolder" records a `[...]` placeholder.
- "Small Condition" records a `{...}` condition.
- "Big Condition" records a `(...)` clause.

Each page's `handleIconClick` does the following:

1. It classifies the selection: the bracket pair, or a `placeholder-` class on the anchor's parent element.
2. It rejects a button that does not fit the selection.
3. It appends the extracted text to the shared `highlightedTexts` list.

A big condition is recorded with its leading heading stripped. Its clause test compares the inner text before the
heading is stripped, and ignores whitespace. When that text equals one of two canned clauses, the clause's question is
recorded as well.

The two pages differ:

- **The demo page** (`LevelTwoPart_Two_Demo.tsx`) keeps `selectedTypes` in step with one "Text" per recorded text. It moves a
  string-named scripted tour on from a few steps. It also has a "Loop" button path.
- **The scored page** (`Level2_PartTwo.tsx`) keeps a score. A button that fits the selection earns 3 points the first time
  its text is found in that category. A button that does not fit the selection is stopped by the guard and changes nothing.
  The handler also has a branch that takes 2 points, never going below 0. Only a label outside the three buttons reaches it,
  and the toolbar never shows such a label. On this page a small condition is recorded only when it is new, and only when
  its overtime opposite has not been recorded. The page also has a numbered tour with Next, Skip
  and Finish, a `mouseup` listener that unlocks tour step 2, and a toolbar that shows the buttons of the selected level.

Both pages render the de-duplicated list `[...new Set(highlightedTexts)]`, and its length is the "Total Placeholders" count.

The files:

- `strings.dfy`: JavaScript's whitespace set, `replace(/\s+/g, "")` and `trim()`.
- `selection.dfy`: the classification, the label guard, the heading strip and the clause test.
- `highlight.dfy`: the recursive `applyHighlight` copy of the selected fragment.
- `display.dfy`: the de-duplicated list.
- `demo.dfy` and `part_two.dfy`: one module per page.

Each page module has two parts:

- A pure `Click` function over a snapshot of the page state. The handler's promises are stated about it.
- A class whose fields are the page's state. Its `HandleIconClick` method runs the handler's statements step by step and is
  proved to produce `Click` of the old state.

## Model

| member | source | states |
|---|---|---|
| Strings.NormalizeText | src/Pages/LevelTwoPart_Two_Demo.tsx:214 | the normal form holds no whitespace and is no longer than the text |
| Strings.NormalizeTextKeeps | src/Pages/LevelTwoPart_Two_Demo.tsx:214 | a character survives normalization exactly when it occurs in the text and is not whitespace |
| Strings.NormalizeTextConcat | src/Pages/Level2_PartTwo.tsx:384 | normalizing a concatenation is concatenating the normal forms |
| Strings.NormalizeTextFixesNoWhitespace | src/Pages/Level2_PartTwo.tsx:384 | a text without whitespace is its own normal form |
| Strings.NormalizeTextIdempotent | src/Pages/Level2_PartTwo.tsx:384 | normalizing twice is normalizing once |
| Strings.NormalizeTextOfWhitespace | src/Pages/LevelTwoPart_Two_Demo.tsx:214 | a run of whitespace normalizes to the empty text |
| Strings.NormalizeTextIgnoresInsertedWhitespace | src/Pages/LevelTwoPart_Two_Demo.tsx:214-217 | inserting whitespace anywhere does not change the normal form, so line breaks in a selection do not stop a clause match |
| Strings.NormalizeTextTellsApart | src/Pages/LevelTwoPart_Two_Demo.tsx:214-217 | two texts that differ in one non-whitespace character keep different normal forms |
| Strings.TrimStart | src/Pages/Level2_PartTwo.tsx:342 | the result is a suffix of the text that does not start with whitespace |
| Strings.TrimEnd | src/Pages/Level2_PartTwo.tsx:342 | the result is a prefix of the text that does not end with whitespace |
| Strings.Trim | src/Pages/Level2_PartTwo.tsx:342 | `trim()` gives a text that neither starts nor ends with whitespace |
| Strings.TrimStartDropsWhitespace | src/Pages/Level2_PartTwo.tsx:342 | only whitespace is removed at the front |
| Strings.TrimEndDropsWhitespace | src/Pages/Level2_PartTwo.tsx:342 | only whitespace is removed at the back |
| Strings.NormalizeTextTrimStart | src/Pages/Level2_PartTwo.tsx:342 | removing leading whitespace keeps the normal form |
| Strings.NormalizeTextTrimEnd | src/Pages/Level2_PartTwo.tsx:342 | removing trailing whitespace keeps the normal form |
| Strings.NormalizeTextTrim | src/Pages/LevelTwoPart_Two_Demo.tsx:163-222 | trimming the stripped clause does not change its normal form |
| Strings.Repeat | src/Pages/LevelTwoPart_Two_Demo.tsx:41 | `highlightedTexts.map(() => "Text")` is a list of the same length that holds only "Text" |
| Strings.RepeatAdd | src/Pages/LevelTwoPart_Two_Demo.tsx:105-107 | appending "Text" types in two rounds is appending them in one |
| Selections.WrappedIsLong | src/Pages/LevelTwoPart_Two_Demo.tsx:64-72 | a bracketed selection has two characters at least, so `slice(1, -1)` is well defined |
| Selections.BracketOf | src/Pages/LevelTwoPart_Two_Demo.tsx:64-72 | the pair found is the one the selection is wrapped in, tried `[]`, `{}`, `()`; no pair exactly when none wraps it |
| Selections.Inner | src/Pages/LevelTwoPart_Two_Demo.tsx:65 | `slice(1, -1)` is the text between the first and last characters, two shorter |
| Selections.WrapRoundTrip | src/Pages/LevelTwoPart_Two_Demo.tsx:64-72 | wrapping a text and stripping the pair gives the text back, with the pair recognised |
| Selections.UnwrapRoundTrip | src/Pages/LevelTwoPart_Two_Demo.tsx:64-72 | a recognised selection is its inner text re-wrapped in its pair |
| Selections.FindPlaceholderClass | src/Pages/LevelTwoPart_Two_Demo.tsx:79 | `find` returns the first class that starts with `placeholder-`, and nothing exactly when no class does |
| Selections.Classify | src/Pages/LevelTwoPart_Two_Demo.tsx:63-86 | the bracket flag is set exactly for a wrapped selection, whose inner text is extracted; the span flag is set for `[...]` or for a `placeholder-` parent, whose non-empty text content is extracted |
| Selections.ClassifySelection | src/Pages/Level2_PartTwo.tsx:234-262 | the if-chain over the three mutable locals computes `Classify` |
| Selections.Rejected | src/Pages/Level2_PartTwo.tsx:263-269 | the guard that returns before any change rejects only the three toolbar labels: Edit PlaceHolder without the span flag, a condition button without the bracket flag |
| Selections.IsCorrectButton | src/Pages/Level2_PartTwo.tsx:271-274 | `isCorrectButton` holds only for one of the three toolbar labels |
| Selections.CorrectButtonAfterGuard | src/Pages/Level2_PartTwo.tsx:264-274 | past the guard, `isCorrectButton` holds exactly for the three toolbar labels |
| Selections.StripFirstHeading | src/Pages/LevelTwoPart_Two_Demo.tsx:159-167 | the text after the first heading that starts it, trimmed, is never longer than the text |
| Selections.StripFirstHeadingCases | src/Pages/LevelTwoPart_Two_Demo.tsx:159-167 | "PROBATIONARY PERIOD" is stripped first, else "PENSION", else nothing; the rest is trimmed |
| Selections.StripHeading | src/Pages/Level2_PartTwo.tsx:338-346 | the `for` loop with its `break` strips the first heading that starts the text |
| Selections.ClausesStartWithT | src/Pages/LevelTwoPart_Two_Demo.tsx:211-212 | both canned clauses start with "T" |
| Selections.ApostropheTellsClausesApart | src/Pages/LevelTwoPart_Two_Demo.tsx:211-217 | a clause written with one apostrophe never matches the same clause written with another |
| Selections.HeadingBlocksClauseMatch | src/Pages/LevelTwoPart_Two_Demo.tsx:159-222 | the clause test runs on the unstripped text, so a selection that starts with a heading never matches a clause starting with "T" |
| Highlight.ApplyHighlight | src/Pages/LevelTwoPart_Two_Demo.tsx:179-200 | a text node becomes a highlight span of the same text, an element keeps its tag and attributes, and every other node is dropped |
| Highlight.ApplyHighlightAll | src/Pages/Level2_PartTwo.tsx:372-378 | the copied list has no more nodes than the original |
| Highlight.ApplyHighlightPreservesText | src/Pages/LevelTwoPart_Two_Demo.tsx:179-200 | the highlighted copy of a node has the node's text content |
| Highlight.ApplyHighlightAllPreservesText | src/Pages/LevelTwoPart_Two_Demo.tsx:201-206 | the copied fragment has the selected fragment's text content |
| Highlight.UnwrapApplyHighlight | src/Pages/Level2_PartTwo.tsx:352-372 | removing the highlight spans from the copy gives the original node without its comments and other dropped nodes, with tags, attributes and child order kept |
| Highlight.UnwrapApplyHighlightAll | src/Pages/Level2_PartTwo.tsx:352-378 | the same, for a list of nodes |
| Highlight.ApplyHighlightAllHasNoText | src/Pages/Level2_PartTwo.tsx:352-372 | a copied list holds elements only; no bare text node is left |
| Highlight.ApplyHighlightIsFull | src/Pages/LevelTwoPart_Two_Demo.tsx:179-200 | every text in the copy sits directly inside a highlight span |
| Highlight.ApplyHighlightAllIsFull | src/Pages/LevelTwoPart_Two_Demo.tsx:179-206 | the same, for every node of the copied fragment |
| Display.Dedup | src/Pages/LevelTwoPart_Two_Demo.tsx:875 | `[...new Set(s)]` holds the same texts as `s`, with no repeats and no more entries |
| Display.DedupOfDistinct | src/Pages/LevelTwoPart_Two_Demo.tsx:875 | a list without repeats is shown as it is |
| Display.DedupPrefix | src/Pages/Level2_PartTwo.tsx:549 | the rows for a prefix of the list are a prefix of the rows, so new texts only add rows at the end |
| Display.DedupAppend | src/Pages/Level2_PartTwo.tsx:549 | appending a text adds a row exactly when the text is new |
| Display.DistinctCardinality | src/Pages/Level2_PartTwo.tsx:602 | a list without repeats has as many entries as distinct texts |
| Display.TotalPlaceholdersIsDistinctCount | src/Pages/LevelTwoPart_Two_Demo.tsx:939 | "Total Placeholders" is the number of distinct recorded texts |
| Display.TypeAt | src/Pages/LevelTwoPart_Two_Demo.tsx:877 | a row's type is never empty: the stored type at that index when there is a non-empty one, else "Text" |
| Display.DisplayRows | src/Pages/LevelTwoPart_Two_Demo.tsx:875-877 | row i holds the i-th distinct text in order of first appearance with the type at position i of `selectedTypes` (or "Text"); one row per distinct text, none repeated |
| Demo.ExtendsTransitive | src/Pages/LevelTwoPart_Two_Demo.tsx:103-108 | appending texts with their "Text" types in two steps is appending them in one |
| Demo.Record | src/Pages/LevelTwoPart_Two_Demo.tsx:245-251 | a recorded text is appended with one "Text" type, and the tour is unchanged |
| Demo.PlaceholderTourStep | src/Pages/LevelTwoPart_Two_Demo.tsx:118-127 | a new placeholder moves the tour exactly for the pairs Employer Name at "select-employer-name", Employee Name at "introduce-employee-name" and Agreement Date at "introduce-agreement-date", each to its successor |
| Demo.EditStep | src/Pages/LevelTwoPart_Two_Demo.tsx:96-131 | a known placeholder changes nothing; a new one is appended with its type and moves the tour by `PlaceholderTourStep` |
| Demo.SmallStep | src/Pages/LevelTwoPart_Two_Demo.tsx:133-154 | a small condition is appended exactly when the selection is `{...}` of 35 to 450 characters; the tour moves, to "selected-small-condition", exactly when one is recorded at "introduce-small-condition" |
| Demo.BigConditionStep | src/Pages/LevelTwoPart_Two_Demo.tsx:155-244 | the heading-stripped text is appended first; a second text exactly when the unstripped text matches a canned clause, the probation question when it matches that clause and the pension question otherwise; the tour moves to "selected-big-condition" exactly on a probation match at "introduce-big-condition" |
| Demo.Click | src/Pages/LevelTwoPart_Two_Demo.tsx:54-259 | no selection or a failed guard changes nothing; otherwise at most two texts are appended, each with one "Text" type; a new placeholder, a `{...}` of 35 to 450 characters, a `(...)` (heading-stripped) and any Loop selection are recorded, and nothing else is; each button moves the tour only from its own steps, and Loop and unknown labels never move it |
| Demo.ClickAdvancesTour | src/Pages/LevelTwoPart_Two_Demo.tsx:118-234 | each button moves the tour whenever its own step is reached: a new placeholder by `PlaceholderTourStep`, a recorded small condition from "introduce-small-condition", a probation clause from "introduce-big-condition" |
| Demo.EditPlaceholderIdempotent | src/Pages/LevelTwoPart_Two_Demo.tsx:96-101 | pressing "Edit PlaceHolder" twice on the same selection does what pressing it once does |
| Demo.HeadedBigConditionAddsNoQuestion | src/Pages/LevelTwoPart_Two_Demo.tsx:159-222 | a big condition selected with its heading is recorded stripped, with no question |
| Demo.RunKeepsTypesInStep | src/Pages/LevelTwoPart_Two_Demo.tsx:103-108 | over any sequence of clicks the texts are only appended to, and `selectedTypes` grows by one "Text" per recorded text |
| Demo.DemoPage.constructor | src/Pages/LevelTwoPart_Two_Demo.tsx:38-52 | the types start as one "Text" per recorded text when none were saved, and the tour starts at the stored step or "welcome" |
| Demo.DemoPage.AddHighlightedText | src/Pages/LevelTwoPart_Two_Demo.tsx:103 | the context's `addHighlightedText` appends |
| Demo.DemoPage.RecordPlaceholder | src/Pages/LevelTwoPart_Two_Demo.tsx:96-131 | the new state is `EditStep` of the old one |
| Demo.DemoPage.RecordSmallCondition | src/Pages/LevelTwoPart_Two_Demo.tsx:133-154 | the new state is `SmallStep` of the old one |
| Demo.DemoPage.RecordBigCondition | src/Pages/LevelTwoPart_Two_Demo.tsx:155-244 | the new state is `BigConditionStep` of the old one for a `(...)` selection, and the old state otherwise |
| Demo.DemoPage.HandleIconClick | src/Pages/LevelTwoPart_Two_Demo.tsx:54-259 | the handler's statements leave the page in `Click` of its old state |
| PartTwo.Penalized | src/Pages/Level2_PartTwo.tsx:297 | `Math.max(0, score - 2)`: never negative, and two less whenever the score is at least 2 |
| PartTwo.Award | src/Pages/Level2_PartTwo.tsx:276-295 | a text new to the button's found list earns 3, shows +3 and joins that list; the other lists stay the same; a known text changes nothing; a new placeholder moves the tour from 3 to 4 |
| PartTwo.BigConditionTexts | src/Pages/Level2_PartTwo.tsx:338-397 | the stripped text comes first; a question second exactly when the unstripped text matches a canned clause, the probation question when it matches that clause and the pension question otherwise |
| PartTwo.SmallConditionAllowed | src/Pages/Level2_PartTwo.tsx:323-325 | a text that passes the small-condition test never makes both overtime clauses recorded |
| PartTwo.Recorded | src/Pages/Level2_PartTwo.tsx:306-406 | at most two texts are appended; a placeholder exactly when new; a small condition exactly from `{...}` of 35 to 450 characters that is new and not opposite a recorded overtime clause; a big condition's texts exactly from `(...)` |
| PartTwo.ClickAccepted | src/Pages/Level2_PartTwo.tsx:271-406 | past the guard, a toolbar button scores 3 exactly for a new text; any other label is penalized and changes neither texts, found lists nor tour |
| PartTwo.Click | src/Pages/Level2_PartTwo.tsx:228-406 | no selection or a failed guard changes nothing; any other label is penalized and records nothing; a toolbar button earns 3 exactly for a text new to its category and records what `Recorded` gives; other categories and the selection flag are unchanged |
| PartTwo.ClickKeepsScoreNonNegative | src/Pages/Level2_PartTwo.tsx:276-303 | a non-negative score stays non-negative |
| PartTwo.ClickAppendsTexts | src/Pages/Level2_PartTwo.tsx:306-406 | a click appends at most two texts and removes none |
| PartTwo.ClickRecordsSmallCondition | src/Pages/Level2_PartTwo.tsx:319-333 | the Small Condition button appends exactly when the selection is `{...}` of 35 to 450 characters whose inner text is new and allowed, and then appends that inner text |
| PartTwo.ClickMovesTourOnlyOnPlaceholder | src/Pages/Level2_PartTwo.tsx:277-284 | a click changes the tour only from step 3 to 4, for a placeholder not found before |
| PartTwo.SquareSelectionScoresAsSmallCondition | src/Pages/Level2_PartTwo.tsx:239-289 | a `[...]` selection passes the Small Condition guard and earns 3, yet records nothing |
| PartTwo.RecordingTwiceAddsNothing | src/Pages/Level2_PartTwo.tsx:306-333 | running the placeholder or small-condition recording block again adds nothing |
| PartTwo.RepeatedClickChangesNothing | src/Pages/Level2_PartTwo.tsx:276-333 | a second press of Edit PlaceHolder or Small Condition on the same selection changes nothing |
| PartTwo.RepeatedBigConditionRecordsAgain | src/Pages/Level2_PartTwo.tsx:290-397 | a second press of Big Condition earns nothing but appends its texts again |
| PartTwo.OvertimeClausesDiffer | src/Pages/Level2_PartTwo.tsx:324-325 | the two overtime clauses are different texts |
| PartTwo.SmallConditionKeepsOvertimeConsistent | src/Pages/Level2_PartTwo.tsx:323-328 | the Small Condition button never records both overtime clauses |
| PartTwo.AppendNewKeepsDistinct | src/Pages/Level2_PartTwo.tsx:281 | appending a text not yet found keeps a found list free of repeats |
| PartTwo.ClickKeepsInvariant | src/Pages/Level2_PartTwo.tsx:228-406 | one click keeps the score non-negative, the found lists free of repeats and the tour within 0 to 4 |
| PartTwo.RunKeepsInvariant | src/Pages/Level2_PartTwo.tsx:168-172 | the same holds after any sequence of clicks from the initial state |
| PartTwo.PagesMatchDifferentClauses | src/Pages/Level2_PartTwo.tsx:381-387 | this page's clauses use a straight apostrophe and the demo's a curly one, so no selection matches the same clause on both pages |
| PartTwo.ShouldRender | src/Pages/Level2_PartTwo.tsx:489-493 | a button is shown only for a level from 1 to 4 |
| PartTwo.Visible | src/Pages/Level2_PartTwo.tsx:488-495 | a label is shown exactly when it is in the toolbar and `shouldRender` holds |
| PartTwo.ToolbarForPart | src/Pages/Level2_PartTwo.tsx:488-495 | level 4 shows all three buttons, levels 1 to 3 their own button, any other level none |
| PartTwo.ShownButtonNeverPenalizes | src/Pages/Level2_PartTwo.tsx:488-495 | a shown button is a toolbar label, so pressing it never lowers the score |
| PartTwo.TourStart | src/Pages/Level2_PartTwo.tsx:203-208 | the tour starts at step 1 for levels 1 and 4, and is off (0) otherwise |
| PartTwo.TourNext | src/Pages/Level2_PartTwo.tsx:408-414 | Next stays at step 2 exactly until the placeholder was selected, and otherwise moves on by one |
| PartTwo.SelectionSeen | src/Pages/Level2_PartTwo.tsx:211-219 | the flag is set once a trimmed selection reads `[Employer Name]` at step 2, and is never cleared |
| PartTwo.TourWaitsForPlaceholder | src/Pages/Level2_PartTwo.tsx:408-414 | any number of Next presses from step 1 or 2 without the placeholder stays at step 2 or below |
| PartTwo.PartTwoPage.constructor | src/Pages/Level2_PartTwo.tsx:163-208 | the page starts with the level-two score, no score change, empty found lists, the flag off and the tour at `TourStart` |
| PartTwo.PartTwoPage.AddHighlightedText | src/Pages/Level2_PartTwo.tsx:313 | the context's `addHighlightedText` appends |
| PartTwo.PartTwoPage.AwardPoints | src/Pages/Level2_PartTwo.tsx:276-295 | the new state is `Award` of the old one |
| PartTwo.PartTwoPage.Penalize | src/Pages/Level2_PartTwo.tsx:296-303 | the score becomes `Penalized` of the old score, and -2 is shown only if the old score was positive |
| PartTwo.PartTwoPage.RecordPlaceholder | src/Pages/Level2_PartTwo.tsx:306-318 | the texts become `Recorded` of the old texts for "Edit PlaceHolder" |
| PartTwo.PartTwoPage.RecordSmallCondition | src/Pages/Level2_PartTwo.tsx:319-333 | the texts become `Recorded` of the old texts for "Small Condition" |
| PartTwo.PartTwoPage.RecordBigCondition | src/Pages/Level2_PartTwo.tsx:334-397 | the texts become `Recorded` of the old texts for "Big Condition" |
| PartTwo.PartTwoPage.ScoreAndRecord | src/Pages/Level2_PartTwo.tsx:271-406 | past the guard, a toolbar button is scored and then recorded, and any other label is penalized |
| PartTwo.PartTwoPage.HandleIconClick | src/Pages/Level2_PartTwo.tsx:228-406 | the handler's statements leave the page in `Click` of its old state, with the tour still in 0 to 4 |
| PartTwo.PartTwoPage.HandleTourNext | src/Pages/Level2_PartTwo.tsx:408-414 | the step becomes `TourNext` of the old step and stays within 0 to 4 |
| PartTwo.PartTwoPage.HandleTourSkip | src/Pages/Level2_PartTwo.tsx:416-418 | Skip turns the tour off |
| PartTwo.PartTwoPage.HandleTourComplete | src/Pages/Level2_PartTwo.tsx:420-423 | Finish turns the tour off |
| PartTwo.PartTwoPage.HandleSelection | src/Pages/Level2_PartTwo.tsx:211-222 | the `mouseup` listener sets the flag to `SelectionSeen` |

## Left out

- DOM range surgery is not modelled: `deleteContents`, `insertNode`, `cloneContents` and the fragment. `applyHighlight` is
  modelled on its own as a tree copy. The highlight span's background colour and the dark-mode switch are left out, so a span
  is an element "span" with no attributes and one text child.
- `sessionStorage`, `localStorage` and `parseInt` are not modelled. Their values are constructor parameters: the selected
  level, the stored tour step, and whether the types were saved. Writes to storage are left out.
- The `setTimeout` that clears the score change after two seconds is left out, and so are `alert`, `console.log` and `navigate`.
  `HandleTourComplete` turns the tour off but does not move to the questionnaire.
- The model does not capture React's scheduling or stale closures. Each handler call is one atomic step over a snapshot of the
  state, and the functional updaters (`prev => ...`) read that same snapshot.
- `addHighlightedText` and `setSelectedTypes` belong to context providers that are not part of this model. `addHighlightedText` is
  taken to be an append.
- `determineQuestionType` and the rest of the page markup are not part of this model, nor is the Shepherd tour script of the demo
  page. The demo page's `tourRef.current.show` call is left out.
- Lengths are counted in code points. JavaScript counts UTF-16 code units, so a selection with characters outside the Basic
  Multilingual Plane has a different length there.
- The scored page's "Loop" branch is unreachable, because any label other than the three buttons is penalized and returns first.
  The model includes that penalty and proves that a shown button never reaches it. The "Loop" label is not on that page's toolbar.
- PartTwo.PartTwoPage.HandleTourNext requires a step from 1 to 3, because the Next button is shown only at those steps.
- PartTwo.PartTwoPage.constructor folds the mount-time effect that starts the tour into construction.
- Demo.DemoPage.constructor folds the mount-time effect that fills in one "Text" type per recorded text, when no types were
  saved, into construction. It also reads the stored tour step there.
- The canned clauses are written as concatenations of shorter pieces. The texts are the same.
