/** The scored page's `handleIconClick`, its tour counter and its toolbar.
    Past the same selection guard as the demo page, a click on one of the
    three toolbar buttons first earns 3 points the first time its text is
    found in that category, and only then records the text, under the
    placeholder, small-condition and big-condition rules of this page. */
module PartTwo {
  import opened Strings
  import opened Selections
  import Display
  import Demo

  // The canned clauses, written with a straight apostrophe.
  const ProbationClause := ProbationClauseWith('\'')
  const PensionClause := PensionClauseWith('\'')

  // Each page writes its own questions and length bounds; they agree with
  // the demo page's, but are kept here as this page's own literals.
  const ProbationQuestion := "Is the clause of probationary period applicable?"
  const PensionQuestion := "Is the Pension clause applicable?"

  // The two overtime small conditions, of which at most one is recorded.
  const OvertimePaid :=
    "The Employee is entitled to " + ("overtime pay for authorized " + "overtime work")
  const OvertimeUnpaid :=
    "The Employee shall not receive " + ("additional payment for " + "overtime worked")

  const MinSmallConditionLength := 35
  const MaxSmallConditionLength := 450

  const Reward := 3
  const Penalty := 2

  datatype PartTwoState = PartTwoState(
    highlightedTexts: seq<string>,
    score: int,
    scoreChange: Option<int>,
    foundPlaceholders: seq<string>,
    foundSmallConditions: seq<string>,
    foundBigConditions: seq<string>,
    tourStep: int,
    hasSelectedPlaceholder: bool)

  /** The found list a toolbar button scores against. */
  function Found(st: PartTwoState, buttonLabel: string): seq<string>
    requires IsToolbarLabel(buttonLabel)
  {
    if buttonLabel == EditPlaceholder then st.foundPlaceholders
    else if buttonLabel == SmallCondition then st.foundSmallConditions
    else st.foundBigConditions
  }

  /** `Math.max(0, score - 2)` */
  function Penalized(score: int): (r: int)
    ensures r >= 0
    ensures score >= Penalty ==> r == score - Penalty
    ensures score < Penalty ==> r == 0
  {
    if score - Penalty > 0 then score - Penalty else 0
  }

  /** The scoring block: a text not yet found in the button's category earns
      3 points and joins that category's found list; a found one changes
      nothing. A new placeholder also moves the tour from step 3 to 4. */
  function Award(st: PartTwoState, buttonLabel: string, text: string): (r: PartTwoState)
    requires IsToolbarLabel(buttonLabel)
    ensures r.highlightedTexts == st.highlightedTexts && r.hasSelectedPlaceholder == st.hasSelectedPlaceholder
    ensures text in Found(st, buttonLabel) ==> r == st
    ensures text !in Found(st, buttonLabel) ==>
              r.score == st.score + Reward && r.scoreChange == Some(Reward) &&
              Found(r, buttonLabel) == Found(st, buttonLabel) + [text]
    ensures buttonLabel != EditPlaceholder ==> r.foundPlaceholders == st.foundPlaceholders
    ensures buttonLabel != SmallCondition ==> r.foundSmallConditions == st.foundSmallConditions
    ensures buttonLabel != BigCondition ==> r.foundBigConditions == st.foundBigConditions
    ensures r.tourStep ==
              if buttonLabel == EditPlaceholder && text !in st.foundPlaceholders && st.tourStep == 3 then 4
              else st.tourStep
  {
    if text in Found(st, buttonLabel) then st
    else
      var scored := st.(score := st.score + Reward, scoreChange := Some(Reward));
      if buttonLabel == EditPlaceholder then
        scored.(foundPlaceholders := st.foundPlaceholders + [text],
                tourStep := if st.tourStep == 3 then 4 else st.tourStep)
      else if buttonLabel == SmallCondition then
        scored.(foundSmallConditions := st.foundSmallConditions + [text])
      else
        scored.(foundBigConditions := st.foundBigConditions + [text])
  }

  /** The small-condition guard: neither already recorded nor the opposite
      of an overtime clause that is. */
  predicate SmallConditionAllowed(highlightedTexts: seq<string>, text: string)
    ensures SmallConditionAllowed(highlightedTexts, text) && OvertimeConsistent(highlightedTexts) ==>
              OvertimeConsistent(highlightedTexts + [text])
  {
    OvertimeClausesDiffer();
    text !in highlightedTexts &&
    !(OvertimeUnpaid in highlightedTexts && text == OvertimePaid) &&
    !(OvertimePaid in highlightedTexts && text == OvertimeUnpaid)
  }

  /** What a big condition appends: its heading-stripped text, then a
      question when its unstripped inner text matches a canned clause. */
  function BigConditionTexts(textWithoutBrackets: string): (r: seq<string>)
    ensures 1 <= |r| <= 2 && r[0] == StripFirstHeading(textWithoutBrackets, Headings)
    ensures |r| == 2 <==>
              MatchesClause(textWithoutBrackets, ProbationClause) || MatchesClause(textWithoutBrackets, PensionClause)
    // the probation question takes precedence over the pension question
    ensures |r| == 2 ==>
              r[1] == if MatchesClause(textWithoutBrackets, ProbationClause) then ProbationQuestion else PensionQuestion
  {
    var clauseContent := StripFirstHeading(textWithoutBrackets, Headings);
    if MatchesClause(textWithoutBrackets, ProbationClause) then [clauseContent, ProbationQuestion]
    else if MatchesClause(textWithoutBrackets, PensionClause) then [clauseContent, PensionQuestion]
    else [clauseContent]
  }

  /** The recording block that runs after scoring, for a toolbar button. */
  function Recorded(highlightedTexts: seq<string>, buttonLabel: string, selectedText: string,
                    text: string): (r: seq<string>)
    ensures |highlightedTexts| <= |r| <= |highlightedTexts| + 2
    ensures r[..|highlightedTexts|] == highlightedTexts
    ensures buttonLabel == EditPlaceholder ==>
              r == if text in highlightedTexts then highlightedTexts else highlightedTexts + [text]
    ensures buttonLabel == SmallCondition && r != highlightedTexts ==>
              WrappedIn(selectedText, Curly) &&
              MinSmallConditionLength <= |selectedText| <= MaxSmallConditionLength &&
              SmallConditionAllowed(highlightedTexts, text) && r == highlightedTexts + [text]
    ensures buttonLabel == BigCondition && r != highlightedTexts ==>
              WrappedIn(selectedText, Round) && r == highlightedTexts + BigConditionTexts(text)
    // conversely, what the rules allow is recorded
    ensures buttonLabel == SmallCondition && WrappedIn(selectedText, Curly) &&
            MinSmallConditionLength <= |selectedText| <= MaxSmallConditionLength &&
            SmallConditionAllowed(highlightedTexts, text) ==>
              r == highlightedTexts + [text]
    ensures buttonLabel == BigCondition && WrappedIn(selectedText, Round) ==>
              r == highlightedTexts + BigConditionTexts(text)
  {
    assert highlightedTexts[..|highlightedTexts|] == highlightedTexts;
    if buttonLabel == EditPlaceholder then
      if text in highlightedTexts then highlightedTexts else highlightedTexts + [text]
    else if buttonLabel == SmallCondition then
      if !WrappedIn(selectedText, Curly) || |selectedText| < MinSmallConditionLength ||
         |selectedText| > MaxSmallConditionLength then highlightedTexts
      else if SmallConditionAllowed(highlightedTexts, text) then highlightedTexts + [text]
      else highlightedTexts
    else if buttonLabel == BigCondition then
      if !WrappedIn(selectedText, Round) then highlightedTexts
      else
        var added := BigConditionTexts(text);
        assert (highlightedTexts + added)[..|highlightedTexts|] == highlightedTexts;
        highlightedTexts + added
    else highlightedTexts
  }

  /** A click past the guard: a toolbar button scores and then records, any
      other label is penalized. */
  function ClickAccepted(st: PartTwoState, buttonLabel: string, selectedText: string, text: string): (r: PartTwoState)
    ensures !IsToolbarLabel(buttonLabel) ==>
              r.score == Penalized(st.score) && r.highlightedTexts == st.highlightedTexts &&
              r.foundPlaceholders == st.foundPlaceholders && r.foundSmallConditions == st.foundSmallConditions &&
              r.foundBigConditions == st.foundBigConditions && r.tourStep == st.tourStep
    ensures IsToolbarLabel(buttonLabel) ==> r.score == st.score + (if text in Found(st, buttonLabel) then 0 else Reward)
  {
    if IsToolbarLabel(buttonLabel) then
      Award(st, buttonLabel, text).(highlightedTexts := Recorded(st.highlightedTexts, buttonLabel, selectedText, text))
    else
      st.(score := Penalized(st.score), scoreChange := if st.score > 0 then Some(-Penalty) else st.scoreChange)
  }

  /** One click on a toolbar button, over a snapshot of the page state. */
  function Click(st: PartTwoState, buttonLabel: string, selection: Option<Selection>): (r: PartTwoState)
    // no selection, or a failed guard: nothing changes, the score included
    ensures selection.None? || Rejected(buttonLabel, Classify(selection.value)) ==> r == st
    // a label other than the three toolbar buttons ("Loop" among them)
    // passes the guard and is penalized; nothing is recorded
    ensures selection.Some? && !IsToolbarLabel(buttonLabel) ==>
              r.score == Penalized(st.score) &&
              r.highlightedTexts == st.highlightedTexts &&
              r.scoreChange == (if st.score > 0 then Some(-Penalty) else st.scoreChange)
    // a toolbar button past the guard scores 3 exactly for a text new to
    // its category, whatever is recorded afterwards
    ensures selection.Some? && IsToolbarLabel(buttonLabel) && !Rejected(buttonLabel, Classify(selection.value)) ==>
              var text := Classify(selection.value).textWithoutBrackets;
              r.score == st.score + (if text in Found(st, buttonLabel) then 0 else Reward) &&
              Found(r, buttonLabel) == (if text in Found(st, buttonLabel) then Found(st, buttonLabel)
                                        else Found(st, buttonLabel) + [text])
    // the other categories' found lists stay as they were
    ensures buttonLabel != EditPlaceholder ==> r.foundPlaceholders == st.foundPlaceholders
    ensures buttonLabel != SmallCondition ==> r.foundSmallConditions == st.foundSmallConditions
    ensures buttonLabel != BigCondition ==> r.foundBigConditions == st.foundBigConditions
    ensures r.hasSelectedPlaceholder == st.hasSelectedPlaceholder
    // what a toolbar button past the guard records is `Recorded`
    ensures selection.Some? && IsToolbarLabel(buttonLabel) && !Rejected(buttonLabel, Classify(selection.value)) ==>
              r.highlightedTexts ==
                Recorded(st.highlightedTexts, buttonLabel, selection.value.text,
                         Classify(selection.value).textWithoutBrackets)
  {
    if selection.None? then st
    else
      var c := Classify(selection.value);
      if Rejected(buttonLabel, c) then st
      else
        CorrectButtonAfterGuard(buttonLabel, c);
        ClickAccepted(st, buttonLabel, selection.value.text, c.textWithoutBrackets)
  }


  // ----------------------------------------------------------- properties

  /** The score never drops below zero from a non-negative start. */
  lemma ClickKeepsScoreNonNegative(st: PartTwoState, buttonLabel: string, selection: Option<Selection>)
    requires st.score >= 0
    ensures Click(st, buttonLabel, selection).score >= 0
  {
    if selection.Some? && !Rejected(buttonLabel, Classify(selection.value)) {
      CorrectButtonAfterGuard(buttonLabel, Classify(selection.value));
    }
  }

  /** Texts are only appended, at most two at a time. */
  lemma ClickAppendsTexts(st: PartTwoState, buttonLabel: string, selection: Option<Selection>)
    ensures var r := Click(st, buttonLabel, selection);
            |st.highlightedTexts| <= |r.highlightedTexts| <= |st.highlightedTexts| + 2 &&
            r.highlightedTexts[..|st.highlightedTexts|] == st.highlightedTexts
  {
    assert st.highlightedTexts[..|st.highlightedTexts|] == st.highlightedTexts;
    if selection.Some? && !Rejected(buttonLabel, Classify(selection.value)) {
      CorrectButtonAfterGuard(buttonLabel, Classify(selection.value));
    }
  }

  /** A small condition is appended exactly from `{...}` of 35 to 450
      characters, when it is new and its overtime opposite is not recorded. */
  lemma ClickRecordsSmallCondition(st: PartTwoState, selection: Option<Selection>)
    ensures var r := Click(st, SmallCondition, selection);
            r.highlightedTexts != st.highlightedTexts <==>
              selection.Some? &&
              var s := selection.value.text;
              WrappedIn(s, Curly) && MinSmallConditionLength <= |s| <= MaxSmallConditionLength &&
              SmallConditionAllowed(st.highlightedTexts, Inner(s))
    ensures var r := Click(st, SmallCondition, selection);
            r.highlightedTexts != st.highlightedTexts ==>
              r.highlightedTexts == st.highlightedTexts + [Inner(selection.value.text)]
  {
    if selection.Some? && !Rejected(SmallCondition, Classify(selection.value)) {
      CorrectButtonAfterGuard(SmallCondition, Classify(selection.value));
    }
  }

  /** The click moves the tour only from step 3 to 4, on a new placeholder. */
  lemma ClickMovesTourOnlyOnPlaceholder(st: PartTwoState, buttonLabel: string, selection: Option<Selection>)
    ensures var r := Click(st, buttonLabel, selection);
            r.tourStep != st.tourStep ==>
              st.tourStep == 3 && r.tourStep == 4 && buttonLabel == EditPlaceholder &&
              Classify(selection.value).textWithoutBrackets !in st.foundPlaceholders
  {
    if selection.Some? && !Rejected(buttonLabel, Classify(selection.value)) {
      CorrectButtonAfterGuard(buttonLabel, Classify(selection.value));
    }
  }

  /** A `[...]` selection has brackets, so it also passes the guard of the
      Small Condition button: it earns 3 points as a new small condition,
      although the recording block then asks for `{...}` and records
      nothing. */
  lemma SquareSelectionScoresAsSmallCondition(st: PartTwoState, inner: string,
                                              anchorParent: Option<ParentElement>)
    requires inner !in st.foundSmallConditions
    ensures var r := Click(st, SmallCondition, Some(Selection(Wrap(Square, inner), anchorParent)));
            r.score == st.score + Reward &&
            r.foundSmallConditions == st.foundSmallConditions + [inner] &&
            r.highlightedTexts == st.highlightedTexts
  {
    var s := Wrap(Square, inner);
    WrapRoundTrip(Square, inner);
    assert s[0] == '[';
    assert !WrappedIn(s, Curly);
  }

  /** The placeholder and small-condition recording blocks record a text
      at most once: running either again on the same selection adds nothing. */
  lemma RecordingTwiceAddsNothing(highlightedTexts: seq<string>, buttonLabel: string,
                                  selectedText: string, text: string)
    requires buttonLabel == EditPlaceholder || buttonLabel == SmallCondition
    ensures var once := Recorded(highlightedTexts, buttonLabel, selectedText, text);
            Recorded(once, buttonLabel, selectedText, text) == once
  {
    var once := Recorded(highlightedTexts, buttonLabel, selectedText, text);
    if once != highlightedTexts {
      assert once == highlightedTexts + [text];
      assert text in once;
    }
  }

  /** Pressing Edit PlaceHolder or Small Condition twice on the same
      selection does no more than pressing it once: the text is found and
      recorded already, so it earns nothing and is not recorded again. */
  lemma RepeatedClickChangesNothing(st: PartTwoState, buttonLabel: string, selection: Option<Selection>)
    requires buttonLabel == EditPlaceholder || buttonLabel == SmallCondition
    ensures var r := Click(st, buttonLabel, selection);
            Click(r, buttonLabel, selection) == r
  {
    if selection.Some? && !Rejected(buttonLabel, Classify(selection.value)) {
      var sel := selection.value;
      var text := Classify(sel).textWithoutBrackets;
      CorrectButtonAfterGuard(buttonLabel, Classify(sel));
      var r := Click(st, buttonLabel, selection);
      assert r.highlightedTexts == Recorded(st.highlightedTexts, buttonLabel, sel.text, text);
      RecordingTwiceAddsNothing(st.highlightedTexts, buttonLabel, sel.text, text);
      assert Award(r, buttonLabel, text) == r;
    }
  }

  /** A big condition is not de-duplicated: pressing Big Condition again on
      the same selection scores nothing but records its texts once more. */
  lemma RepeatedBigConditionRecordsAgain(st: PartTwoState, selection: Option<Selection>)
    requires selection.Some? && WrappedIn(selection.value.text, Round)
    ensures var r := Click(st, BigCondition, selection);
            var r2 := Click(r, BigCondition, selection);
            r2.score == r.score &&
            r2.highlightedTexts ==
              r.highlightedTexts + BigConditionTexts(Classify(selection.value).textWithoutBrackets)
  {
    var c := Classify(selection.value);
    WrappedIsLong(selection.value.text, Round);
    assert BracketOf(selection.value.text).Some?;
    CorrectButtonAfterGuard(BigCondition, c);
  }

  /** At most one of the two overtime clauses is recorded. */
  predicate OvertimeConsistent(highlightedTexts: seq<string>) {
    !(OvertimePaid in highlightedTexts && OvertimeUnpaid in highlightedTexts)
  }

  lemma OvertimeClausesDiffer()
    ensures OvertimePaid != OvertimeUnpaid
  {
    assert OvertimePaid[13] == 'i' && OvertimeUnpaid[13] == 's';
  }

  /** The Small Condition button never records the second overtime clause
      next to the first. */
  lemma SmallConditionKeepsOvertimeConsistent(st: PartTwoState, selection: Option<Selection>)
    requires OvertimeConsistent(st.highlightedTexts)
    ensures OvertimeConsistent(Click(st, SmallCondition, selection).highlightedTexts)
  {
    OvertimeClausesDiffer();
  }

  /** What holds of the page between any two clicks: a non-negative score,
      no text found twice in a category, and a tour step from 0 to 4. */
  predicate SessionInvariant(st: PartTwoState) {
    st.score >= 0 &&
    Display.NoDuplicates(st.foundPlaceholders) &&
    Display.NoDuplicates(st.foundSmallConditions) &&
    Display.NoDuplicates(st.foundBigConditions) &&
    0 <= st.tourStep <= 4
  }

  lemma AppendNewKeepsDistinct(s: seq<string>, x: string)
    requires Display.NoDuplicates(s) && x !in s
    ensures Display.NoDuplicates(s + [x])
  {
    assert forall i :: 0 <= i < |s| ==> (s + [x])[i] == s[i];
  }

  lemma ClickKeepsInvariant(st: PartTwoState, buttonLabel: string, selection: Option<Selection>)
    requires SessionInvariant(st)
    ensures SessionInvariant(Click(st, buttonLabel, selection))
  {
    ClickKeepsScoreNonNegative(st, buttonLabel, selection);
    ClickMovesTourOnlyOnPlaceholder(st, buttonLabel, selection);
    if selection.Some? && IsToolbarLabel(buttonLabel) && !Rejected(buttonLabel, Classify(selection.value)) {
      var text := Classify(selection.value).textWithoutBrackets;
      if text !in Found(st, buttonLabel) {
        AppendNewKeepsDistinct(Found(st, buttonLabel), text);
      }
      var r := Click(st, buttonLabel, selection);
      assert Found(r, EditPlaceholder) == r.foundPlaceholders;
      assert Found(r, SmallCondition) == r.foundSmallConditions;
      assert Found(r, BigCondition) == r.foundBigConditions;
    }
  }

  /** The state after a session of clicks, one after another (this page's
      counterpart of `Demo.Run`, over this page's state). */
  function Run(st: PartTwoState, actions: seq<Action>): PartTwoState
    decreases |actions|
  {
    if actions == [] then st
    else Run(Click(st, actions[0].buttonLabel, actions[0].selection), actions[1..])
  }

  /** However long the session, the score stays non-negative, every text is
      scored at most once per category, and the tour stays within its steps. */
  lemma {:induction false} RunKeepsInvariant(st: PartTwoState, actions: seq<Action>)
    requires SessionInvariant(st)
    ensures SessionInvariant(Run(st, actions))
    decreases |actions|
  {
    if actions != [] {
      ClickKeepsInvariant(st, actions[0].buttonLabel, actions[0].selection);
      RunKeepsInvariant(Click(st, actions[0].buttonLabel, actions[0].selection), actions[1..]);
    }
  }

  /** The demo page's canned clauses are written with a typographic
      apostrophe and this page's with a straight one, so no selection
      matches the same clause on both pages. */
  lemma PagesMatchDifferentClauses(text: string)
    ensures !(MatchesClause(text, Demo.ProbationClause) && MatchesClause(text, ProbationClause))
    ensures !(MatchesClause(text, Demo.PensionClause) && MatchesClause(text, PensionClause))
  {
    ApostropheTellsClausesApart('\U{2019}', '\'');
  }

  // ---------------------------------------------------------------- toolbar

  /** The buttons of the toolbar, in order. */
  const Icons := [EditPlaceholder, SmallCondition, BigCondition]

  /** A button is shown for its own level (1, 2 or 3) and every button for
      level 4. */
  predicate ShouldRender(buttonLabel: string, selectedPart: int)
    ensures ShouldRender(buttonLabel, selectedPart) ==> 1 <= selectedPart <= 4
  {
    (buttonLabel == EditPlaceholder && selectedPart == 1) ||
    (buttonLabel == SmallCondition && selectedPart == 2) ||
    (buttonLabel == BigCondition && selectedPart == 3) ||
    selectedPart == 4
  }

  /** The labels among `labels` that are shown, in their order. */
  function Visible(labels: seq<string>, selectedPart: int): (r: seq<string>)
    ensures forall l :: l in r <==> l in labels && ShouldRender(l, selectedPart)
    ensures |r| <= |labels|
  {
    if labels == [] then []
    else
      var rest := Visible(labels[1..], selectedPart);
      assert forall l :: l in labels <==> l == labels[0] || l in labels[1..];
      if ShouldRender(labels[0], selectedPart) then [labels[0]] + rest else rest
  }

  /** Level 4 shows the whole toolbar, levels 1 to 3 the one button of
      their level, and any other level none. */
  lemma ToolbarForPart(selectedPart: int)
    ensures selectedPart == 4 ==> Visible(Icons, selectedPart) == Icons
    ensures 1 <= selectedPart <= 3 ==> Visible(Icons, selectedPart) == [Icons[selectedPart - 1]]
    ensures !(1 <= selectedPart <= 4) ==> Visible(Icons, selectedPart) == []
  {
    var big := if ShouldRender(BigCondition, selectedPart) then [BigCondition] else [];
    var small := if ShouldRender(SmallCondition, selectedPart) then [SmallCondition] else [];
    var edit := if ShouldRender(EditPlaceholder, selectedPart) then [EditPlaceholder] else [];
    assert [BigCondition][1..] == [];
    assert Visible([BigCondition], selectedPart) == big;
    assert [SmallCondition, BigCondition][1..] == [BigCondition];
    assert Visible([SmallCondition, BigCondition], selectedPart) == small + big;
    assert Icons[1..] == [SmallCondition, BigCondition];
    assert Visible(Icons, selectedPart) == edit + small + big;
  }

  /** Only toolbar buttons can be pressed, so the penalty branch of the
      handler (and its unreachable "Loop" branch) never runs: a click on a
      shown button never lowers the score. */
  lemma ShownButtonNeverPenalizes(st: PartTwoState, selectedPart: int, buttonLabel: string,
                                  selection: Option<Selection>)
    requires buttonLabel in Visible(Icons, selectedPart)
    ensures IsToolbarLabel(buttonLabel)
    ensures Click(st, buttonLabel, selection).score >= st.score
  {
  }

  // ------------------------------------------------------------------- tour

  /** The tour starts at step 1 on levels 1 and 4, and is off otherwise. */
  function TourStart(selectedPart: int): (step: int)
    ensures step == 1 <==> selectedPart == 1 || selectedPart == 4
    ensures step == 0 <==> !(selectedPart == 1 || selectedPart == 4)
  {
    if selectedPart == 1 || selectedPart == 4 then 1 else 0
  }

  /** The Next button: step 2 waits until `[Employer Name]` has been
      selected; every other step moves on by one. */
  function TourNext(tourStep: int, hasSelectedPlaceholder: bool): (next: int)
    ensures next == tourStep <==> tourStep == 2 && !hasSelectedPlaceholder
    ensures next != tourStep ==> next == tourStep + 1
  {
    if tourStep == 2 && !hasSelectedPlaceholder then tourStep else tourStep + 1
  }

  /** The `mouseup` listener: a trimmed selection reading `[Employer Name]`
      while the tour is at step 2 unlocks that step. */
  function SelectionSeen(tourStep: int, hasSelectedPlaceholder: bool, selectedText: Option<string>): (r: bool)
    ensures r <==> hasSelectedPlaceholder ||
                   (selectedText.Some? && Trim(selectedText.value) == "[Employer Name]" && tourStep == 2)
  {
    if selectedText.Some? && Trim(selectedText.value) == "[Employer Name]" && tourStep == 2 then true
    else hasSelectedPlaceholder
  }

  /** Pressing Next from step 1 cannot get past step 2 until the
      placeholder has been selected. */
  lemma {:induction false} TourWaitsForPlaceholder(tourStep: int, presses: nat)
    requires 1 <= tourStep <= 2
    ensures Iterate(tourStep, false, presses) <= 2
    decreases presses
  {
    if presses > 0 {
      TourWaitsForPlaceholder(TourNext(tourStep, false), presses - 1);
    }
  }

  /** `presses` presses of Next with the placeholder flag fixed. */
  function Iterate(tourStep: int, hasSelectedPlaceholder: bool, presses: nat): int
    decreases presses
  {
    if presses == 0 then tourStep
    else Iterate(TourNext(tourStep, hasSelectedPlaceholder), hasSelectedPlaceholder, presses - 1)
  }

  // ------------------------------------------------------------------ page

  class PartTwoPage {
    var highlightedTexts: seq<string>
    var score: int
    var scoreChange: Option<int>
    var foundPlaceholders: seq<string>
    var foundSmallConditions: seq<string>
    var foundBigConditions: seq<string>
    var tourStep: int
    var hasSelectedPlaceholder: bool

    function State(): PartTwoState
      reads this
    {
      PartTwoState(highlightedTexts, score, scoreChange, foundPlaceholders, foundSmallConditions,
                   foundBigConditions, tourStep, hasSelectedPlaceholder)
    }

    /** The tour is off (0) or at one of its four steps. */
    predicate Valid()
      reads this
    {
      0 <= tourStep <= 4
    }

    /** The page as it mounts: the score carried over from the first part,
        nothing found yet, and the tour started for levels 1 and 4. */
    constructor (levelTwoScore: int, selectedPart: int, contextTexts: seq<string>)
      ensures Valid()
      ensures State() == PartTwoState(contextTexts, levelTwoScore, None, [], [], [],
                                      TourStart(selectedPart), false)
    {
      highlightedTexts := contextTexts;
      score := levelTwoScore;
      scoreChange := None;
      foundPlaceholders := [];
      foundSmallConditions := [];
      foundBigConditions := [];
      tourStep := 0;
      hasSelectedPlaceholder := false;
      if selectedPart == 1 || selectedPart == 4 {
        tourStep := 1;
      }
    }

    /** The shared context's `addHighlightedText`: an append. */
    method AddHighlightedText(text: string)
      modifies this`highlightedTexts
      ensures highlightedTexts == old(highlightedTexts) + [text]
    {
      highlightedTexts := highlightedTexts + [text];
    }

    /** The scoring block, for a toolbar button past the guard. */
    method AwardPoints(buttonLabel: string, textWithoutBrackets: string)
      requires IsToolbarLabel(buttonLabel)
      modifies this
      ensures State() == Award(old(State()), buttonLabel, textWithoutBrackets)
    {
      if buttonLabel == EditPlaceholder && textWithoutBrackets !in foundPlaceholders {
        score := score + Reward;
        scoreChange := Some(Reward);
        foundPlaceholders := foundPlaceholders + [textWithoutBrackets];
        if tourStep == 3 {
          tourStep := 4;
        }
      } else if buttonLabel == SmallCondition && textWithoutBrackets !in foundSmallConditions {
        score := score + Reward;
        scoreChange := Some(Reward);
        foundSmallConditions := foundSmallConditions + [textWithoutBrackets];
      } else if buttonLabel == BigCondition && textWithoutBrackets !in foundBigConditions {
        score := score + Reward;
        scoreChange := Some(Reward);
        foundBigConditions := foundBigConditions + [textWithoutBrackets];
      }
    }

    /** The "Edit PlaceHolder" recording block. */
    method RecordPlaceholder(textWithoutBrackets: string)
      modifies this`highlightedTexts
      ensures highlightedTexts == Recorded(old(highlightedTexts), EditPlaceholder, "", textWithoutBrackets)
    {
      if textWithoutBrackets in highlightedTexts {
        return;
      }
      AddHighlightedText(textWithoutBrackets);
    }

    /** The "Small Condition" recording block. */
    method RecordSmallCondition(selectedText: string, textWithoutBrackets: string)
      modifies this`highlightedTexts
      ensures highlightedTexts == Recorded(old(highlightedTexts), SmallCondition, selectedText, textWithoutBrackets)
    {
      assert [Open(Curly)] == "{" && [Close(Curly)] == "}";
      if !(StartsWith(selectedText, "{") && EndsWith(selectedText, "}")) ||
         |selectedText| < MinSmallConditionLength || |selectedText| > MaxSmallConditionLength {
        return;
      }
      if textWithoutBrackets !in highlightedTexts &&
         !(OvertimeUnpaid in highlightedTexts && textWithoutBrackets == OvertimePaid) &&
         !(OvertimePaid in highlightedTexts && textWithoutBrackets == OvertimeUnpaid) {
        AddHighlightedText(textWithoutBrackets);
      }
    }

    /** The "Big Condition" recording block. */
    method RecordBigCondition(selectedText: string, textWithoutBrackets: string)
      modifies this`highlightedTexts
      ensures highlightedTexts == Recorded(old(highlightedTexts), BigCondition, selectedText, textWithoutBrackets)
    {
      assert [Open(Round)] == "(" && [Close(Round)] == ")";
      if !(StartsWith(selectedText, "(") && EndsWith(selectedText, ")")) {
        return;
      }
      var clauseContent := StripHeading(textWithoutBrackets);
      AddHighlightedText(clauseContent);

      var normalizedSelectedText := NormalizeText(textWithoutBrackets);
      if normalizedSelectedText == NormalizeText(ProbationClause) {
        AddHighlightedText(ProbationQuestion);
      } else if normalizedSelectedText == NormalizeText(PensionClause) {
        AddHighlightedText(PensionQuestion);
      }
    }

    /** The branch for a button that does not fit the selection:
        `Math.max(0, score - 2)`, with the -2 shown only if there was a
        score to lose. */
    method Penalize()
      modifies this`score, this`scoreChange
      ensures score == Penalized(old(score))
      ensures scoreChange == if old(score) > 0 then Some(-Penalty) else old(scoreChange)
    {
      var newScore := if score - Penalty > 0 then score - Penalty else 0;
      var previous := score;
      score := newScore;
      if previous > 0 {
        scoreChange := Some(-Penalty);
      }
    }

    method HandleIconClick(buttonLabel: string, selection: Option<Selection>)
      requires Valid()
      modifies this
      ensures Valid()
      ensures State() == Click(old(State()), buttonLabel, selection)
    {
      if selection.None? {
        return;
      }
      var sel := selection.value;
      var textWithoutBrackets, hasValidBrackets, hasValidSpanClass := ClassifySelection(sel);

      if (buttonLabel == EditPlaceholder && !hasValidSpanClass) ||
         ((buttonLabel == SmallCondition || buttonLabel == BigCondition) && !hasValidBrackets) {
        return;
      }
      CorrectButtonAfterGuard(buttonLabel, Classify(sel));
      ScoreAndRecord(buttonLabel, sel.text, textWithoutBrackets, hasValidBrackets, hasValidSpanClass);
    }

    /** The rest of the handler once the guard has let the click through. */
    method ScoreAndRecord(buttonLabel: string, selectedText: string, textWithoutBrackets: string,
                          hasValidBrackets: bool, hasValidSpanClass: bool)
      requires Valid()
      requires !Rejected(buttonLabel, Classification(textWithoutBrackets, hasValidBrackets, hasValidSpanClass))
      modifies this
      ensures Valid()
      ensures State() == ClickAccepted(old(State()), buttonLabel, selectedText, textWithoutBrackets)
    {
      var isCorrectButton :=
        (buttonLabel == EditPlaceholder && hasValidSpanClass) ||
        (buttonLabel == SmallCondition && hasValidBrackets) ||
        (buttonLabel == BigCondition && hasValidBrackets);

      if isCorrectButton {
        AwardPoints(buttonLabel, textWithoutBrackets);
      } else {
        Penalize();
        return;
      }

      if buttonLabel == EditPlaceholder {
        RecordPlaceholder(textWithoutBrackets);
      } else if buttonLabel == SmallCondition {
        RecordSmallCondition(selectedText, textWithoutBrackets);
      } else if buttonLabel == BigCondition {
        RecordBigCondition(selectedText, textWithoutBrackets);
      }
    }

    /** The Next button, shown at steps 1 to 3 (step 4 shows Finish). */
    method HandleTourNext()
      requires Valid() && 1 <= tourStep <= 3
      modifies this`tourStep
      ensures Valid()
      ensures tourStep == TourNext(old(tourStep), hasSelectedPlaceholder)
    {
      if tourStep == 2 && !hasSelectedPlaceholder {
        return;
      }
      tourStep := tourStep + 1;
    }

    /** Skip, at any step, ends the tour. */
    method HandleTourSkip()
      modifies this`tourStep
      ensures Valid() && tourStep == 0
    {
      tourStep := 0;
    }

    /** Finish ends the tour; the move to the questionnaire is not modelled. */
    method HandleTourComplete()
      modifies this`tourStep
      ensures Valid() && tourStep == 0
    {
      tourStep := 0;
    }

    /** The `mouseup` listener; `None` is a missing selection. */
    method HandleSelection(selectedText: Option<string>)
      modifies this`hasSelectedPlaceholder
      ensures hasSelectedPlaceholder == SelectionSeen(tourStep, old(hasSelectedPlaceholder), selectedText)
    {
      if selectedText.Some? {
        var trimmed := Trim(selectedText.value);
        if trimmed == "[Employer Name]" && tourStep == 2 {
          hasSelectedPlaceholder := true;
        }
      }
    }
  }
}
