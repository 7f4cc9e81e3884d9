/** The demo page's `handleIconClick`: it classifies the selection, checks
    the label against it, records the extracted text in `highlightedTexts`,
    keeps `selectedTypes` in step with one "Text" per recorded text, and
    moves the scripted tour on from a few named steps. */
module Demo {
  import opened Strings
  import opened Selections

  // The canned clauses, written with a curly apostrophe (U+2019).
  const ProbationClause := ProbationClauseWith('\U{2019}')
  const PensionClause := PensionClauseWith('\U{2019}')

  const ProbationQuestion := "Is the clause of probationary period applicable?"
  const PensionQuestion := "Is the Pension clause applicable?"

  const DefaultType := "Text"

  /** A small condition is recorded only when the whole selection, braces
      included, is this long. */
  const MinSmallConditionLength := 35
  const MaxSmallConditionLength := 450

  /** The tour steps the handler moves on from, each with its successor. */
  predicate TourAdvance(from: string, to: string) {
    (from == "select-employer-name" && to == "selected-placeholder-employer-name") ||
    (from == "introduce-employee-name" && to == "selected-placeholder-employee-name") ||
    (from == "introduce-agreement-date" && to == "selected-placeholder-agreement-date") ||
    (from == "introduce-small-condition" && to == "selected-small-condition") ||
    (from == "introduce-big-condition" && to == "selected-big-condition")
  }

  datatype DemoState = DemoState(highlightedTexts: seq<string>, selectedTypes: seq<string>, tourStep: string)

  /** The selection passes the label guard. */
  predicate Accepted(buttonLabel: string, selection: Option<Selection>) {
    selection.Some? && !Rejected(buttonLabel, Classify(selection.value))
  }

  function Extracted(selection: Selection): string {
    Classify(selection).textWithoutBrackets
  }

  /** The tour step after a new placeholder `text` is recorded. */
  function PlaceholderTourStep(tourStep: string, text: string): (r: string)
    ensures r != tourStep ==> TourAdvance(tourStep, r)
    ensures r != tourStep <==>
              (text == "Employer Name" && tourStep == "select-employer-name") ||
              (text == "Employee Name" && tourStep == "introduce-employee-name") ||
              (text == "Agreement Date" && tourStep == "introduce-agreement-date")
  {
    if text == "Employer Name" && tourStep == "select-employer-name" then "selected-placeholder-employer-name"
    else if text == "Employee Name" && tourStep == "introduce-employee-name" then "selected-placeholder-employee-name"
    else if text == "Agreement Date" && tourStep == "introduce-agreement-date" then "selected-placeholder-agreement-date"
    else tourStep
  }

  /** `r` is `st` with texts appended, each with one "Text" type. */
  predicate Extends(st: DemoState, r: DemoState) {
    |st.highlightedTexts| <= |r.highlightedTexts| &&
    r.highlightedTexts[..|st.highlightedTexts|] == st.highlightedTexts &&
    r.selectedTypes == st.selectedTypes + Repeat(DefaultType, |r.highlightedTexts| - |st.highlightedTexts|)
  }

  /** `r` is `st` with texts appended, at most two, each with one "Text"
      type, and the tour step moved on at most along `TourAdvance`. */
  predicate AppendedInStep(st: DemoState, r: DemoState) {
    Extends(st, r) && |r.highlightedTexts| <= |st.highlightedTexts| + 2 &&
    (r.tourStep != st.tourStep ==> TourAdvance(st.tourStep, r.tourStep))
  }

  /** Appending in two rounds is appending. */
  lemma ExtendsTransitive(a: DemoState, b: DemoState, c: DemoState)
    requires Extends(a, b) && Extends(b, c)
    ensures Extends(a, c)
  {
    var m, n := |b.highlightedTexts| - |a.highlightedTexts|, |c.highlightedTexts| - |b.highlightedTexts|;
    RepeatAdd(DefaultType, m, n);
    assert c.highlightedTexts[..|a.highlightedTexts|] ==
           c.highlightedTexts[..|b.highlightedTexts|][..|a.highlightedTexts|];
  }

  lemma UnchangedInStep(st: DemoState)
    ensures AppendedInStep(st, st)
  {
    assert st.highlightedTexts[..|st.highlightedTexts|] == st.highlightedTexts;
    assert st.selectedTypes + Repeat(DefaultType, 0) == st.selectedTypes;
  }

  /** Records `text` with the default type. */
  function Record(st: DemoState, text: string): (r: DemoState)
    ensures r.highlightedTexts == st.highlightedTexts + [text]
    ensures r.selectedTypes == st.selectedTypes + [DefaultType]
    ensures r.tourStep == st.tourStep
    ensures AppendedInStep(st, r)
  {
    assert (st.highlightedTexts + [text])[..|st.highlightedTexts|] == st.highlightedTexts;
    assert Repeat(DefaultType, 1) == [DefaultType];
    st.(highlightedTexts := st.highlightedTexts + [text], selectedTypes := st.selectedTypes + [DefaultType])
  }

  /** "Edit PlaceHolder" past the guard: a new placeholder is recorded and may
      move the tour on; a known one changes nothing. */
  function EditStep(st: DemoState, text: string): (r: DemoState)
    ensures AppendedInStep(st, r)
    ensures text in st.highlightedTexts ==> r == st
    ensures text !in st.highlightedTexts ==> r.highlightedTexts == st.highlightedTexts + [text]
    ensures r.tourStep == if text in st.highlightedTexts then st.tourStep else PlaceholderTourStep(st.tourStep, text)
  {
    UnchangedInStep(st);
    if text in st.highlightedTexts then st
    else Record(st, text).(tourStep := PlaceholderTourStep(st.tourStep, text))
  }

  /** "Small Condition" past the guard: only a brace-wrapped selection of
      35 to 450 characters is recorded. */
  function SmallStep(st: DemoState, selectedText: string, text: string): (r: DemoState)
    ensures AppendedInStep(st, r)
    ensures r != st ==> WrappedIn(selectedText, Curly) &&
                        MinSmallConditionLength <= |selectedText| <= MaxSmallConditionLength &&
                        r.highlightedTexts == st.highlightedTexts + [text]
    ensures WrappedIn(selectedText, Curly) &&
            MinSmallConditionLength <= |selectedText| <= MaxSmallConditionLength ==>
              r.highlightedTexts == st.highlightedTexts + [text]
    // the tour moves from its small-condition step exactly when one is recorded
    ensures r.tourStep != st.tourStep <==> r != st && st.tourStep == "introduce-small-condition"
    ensures r.tourStep != st.tourStep ==> r.tourStep == "selected-small-condition"
  {
    UnchangedInStep(st);
    if !WrappedIn(selectedText, Curly) || |selectedText| < MinSmallConditionLength ||
       |selectedText| > MaxSmallConditionLength then st
    else
      var recorded := Record(st, text);
      recorded.(tourStep := if st.tourStep == "introduce-small-condition" then "selected-small-condition" else st.tourStep)
  }

  /** "Big Condition" on a round-bracketed selection: its text with a leading
      heading stripped is recorded, and a text equal to a canned clause adds
      the clause's question as well. */
  function BigConditionStep(st: DemoState, textWithoutBrackets: string): (r: DemoState)
    ensures AppendedInStep(st, r)
    ensures |r.highlightedTexts| > |st.highlightedTexts|
    ensures r.highlightedTexts[|st.highlightedTexts|] == StripFirstHeading(textWithoutBrackets, Headings)
    ensures |r.highlightedTexts| == |st.highlightedTexts| + 2 <==>
              MatchesClause(textWithoutBrackets, ProbationClause) || MatchesClause(textWithoutBrackets, PensionClause)
    // the probation question takes precedence over the pension question
    ensures |r.highlightedTexts| == |st.highlightedTexts| + 2 ==>
              r.highlightedTexts[|st.highlightedTexts| + 1] ==
                if MatchesClause(textWithoutBrackets, ProbationClause) then ProbationQuestion else PensionQuestion
    // only a probation match moves the tour, and only from its own step
    ensures r.tourStep != st.tourStep <==>
              MatchesClause(textWithoutBrackets, ProbationClause) && st.tourStep == "introduce-big-condition"
    ensures r.tourStep != st.tourStep ==> r.tourStep == "selected-big-condition"
  {
    var recorded := Record(st, StripFirstHeading(textWithoutBrackets, Headings));
    if MatchesClause(textWithoutBrackets, ProbationClause) then
      var withQuestion := Record(recorded, ProbationQuestion);
      assert Repeat(DefaultType, 2) == [DefaultType, DefaultType];
      withQuestion.(tourStep := if st.tourStep == "introduce-big-condition" then "selected-big-condition" else st.tourStep)
    else if MatchesClause(textWithoutBrackets, PensionClause) then
      assert Repeat(DefaultType, 2) == [DefaultType, DefaultType];
      Record(recorded, PensionQuestion)
    else recorded
  }

  /** One click on a toolbar button, over a snapshot of the page state. */
  function Click(st: DemoState, buttonLabel: string, selection: Option<Selection>): (r: DemoState)
    // a missing selection or a failed guard changes nothing
    ensures selection.None? ==> r == st
    ensures !Accepted(buttonLabel, selection) && buttonLabel != Loop ==> r == st
    // texts are only ever appended, at most two per click, every appended
    // text gets exactly one "Text" type, and the tour moves only from a
    // named step to its successor
    ensures AppendedInStep(st, r)
    // a placeholder is recorded once, and only if it is new
    ensures buttonLabel == EditPlaceholder && Accepted(buttonLabel, selection) ==>
              var text := Extracted(selection.value);
              if text in st.highlightedTexts then r == st
              else r.highlightedTexts == st.highlightedTexts + [text]
    // a small condition is recorded only from `{...}` of 35 to 450 characters
    ensures buttonLabel == SmallCondition && r != st ==>
              var s := selection.value.text;
              WrappedIn(s, Curly) && MinSmallConditionLength <= |s| <= MaxSmallConditionLength &&
              r.highlightedTexts == st.highlightedTexts + [Inner(s)]
    // a big condition records its heading-stripped text, and one question
    // exactly when its unstripped inner text matches a canned clause
    ensures buttonLabel == BigCondition && r != st ==>
              var s := selection.value.text;
              WrappedIn(s, Round) && |r.highlightedTexts| > |st.highlightedTexts| &&
              r.highlightedTexts[|st.highlightedTexts|] == StripFirstHeading(Inner(s), Headings) &&
              (|r.highlightedTexts| == |st.highlightedTexts| + 2 <==>
                 MatchesClause(Inner(s), ProbationClause) || MatchesClause(Inner(s), PensionClause))
    // conversely, a brace-wrapped selection of 35 to 450 characters is
    // recorded, a round-bracketed one is recorded heading-stripped, and
    // "Loop" records whatever the guard extracted
    ensures buttonLabel == SmallCondition && selection.Some? &&
            WrappedIn(selection.value.text, Curly) &&
            MinSmallConditionLength <= |selection.value.text| <= MaxSmallConditionLength ==>
              r.highlightedTexts == st.highlightedTexts + [Inner(selection.value.text)]
    ensures buttonLabel == BigCondition && selection.Some? && WrappedIn(selection.value.text, Round) ==>
              |r.highlightedTexts| > |st.highlightedTexts| &&
              r.highlightedTexts[|st.highlightedTexts|] == StripFirstHeading(Inner(selection.value.text), Headings)
    ensures buttonLabel == Loop && selection.Some? ==>
              r.highlightedTexts == st.highlightedTexts + [Extracted(selection.value)]
    // each button moves the tour only from its own steps, and "Loop" never
    ensures r.tourStep != st.tourStep ==>
              (buttonLabel == EditPlaceholder &&
                 (st.tourStep == "select-employer-name" || st.tourStep == "introduce-employee-name" ||
                  st.tourStep == "introduce-agreement-date")) ||
              (buttonLabel == SmallCondition && st.tourStep == "introduce-small-condition") ||
              (buttonLabel == BigCondition && st.tourStep == "introduce-big-condition")
    ensures buttonLabel == Loop ==> r.tourStep == st.tourStep
    // labels other than the four do nothing
    ensures !IsToolbarLabel(buttonLabel) && buttonLabel != Loop ==> r == st
  {
    UnchangedInStep(st);
    if selection.None? then st
    else
      var sel := selection.value;
      var c := Classify(sel);
      var text := c.textWithoutBrackets;
      if Rejected(buttonLabel, c) then st
      else if buttonLabel == EditPlaceholder then EditStep(st, text)
      else if buttonLabel == SmallCondition then SmallStep(st, sel.text, text)
      else if buttonLabel == BigCondition then
        if !WrappedIn(sel.text, Round) then st
        else BigConditionStep(st, text)
      else if buttonLabel == Loop then Record(st, text)
      else st
  }

  /** Each button moves the tour whenever its own step is reached: a new
      placeholder along `PlaceholderTourStep`, a recorded small condition from
      "introduce-small-condition", a probation clause from
      "introduce-big-condition". */
  lemma ClickAdvancesTour(st: DemoState, buttonLabel: string, selection: Option<Selection>)
    ensures buttonLabel == EditPlaceholder && Accepted(buttonLabel, selection) &&
            Extracted(selection.value) !in st.highlightedTexts ==>
              Click(st, buttonLabel, selection).tourStep == PlaceholderTourStep(st.tourStep, Extracted(selection.value))
    ensures buttonLabel == SmallCondition && selection.Some? && WrappedIn(selection.value.text, Curly) &&
            MinSmallConditionLength <= |selection.value.text| <= MaxSmallConditionLength &&
            st.tourStep == "introduce-small-condition" ==>
              Click(st, buttonLabel, selection).tourStep == "selected-small-condition"
    ensures buttonLabel == BigCondition && selection.Some? && WrappedIn(selection.value.text, Round) &&
            MatchesClause(Extracted(selection.value), ProbationClause) &&
            st.tourStep == "introduce-big-condition" ==>
              Click(st, buttonLabel, selection).tourStep == "selected-big-condition"
  {
    if selection.Some? {
      var sel := selection.value;
      if buttonLabel == SmallCondition && WrappedIn(sel.text, Curly) {
        WrappedIsLong(sel.text, Curly);
      } else if buttonLabel == BigCondition && WrappedIn(sel.text, Round) {
        WrappedIsLong(sel.text, Round);
      }
    }
  }

  /** Clicking "Edit PlaceHolder" twice on the same selection records the
      placeholder once. */
  lemma EditPlaceholderIdempotent(st: DemoState, selection: Option<Selection>)
    ensures Click(Click(st, EditPlaceholder, selection), EditPlaceholder, selection) ==
            Click(st, EditPlaceholder, selection)
  {
  }

  /** A big condition selected together with its heading is recorded with
      the heading stripped, but adds no question: the clause test sees the
      heading. */
  lemma HeadedBigConditionAddsNoQuestion(st: DemoState, heading: string, rest: string,
                                         anchorParent: Option<ParentElement>)
    requires heading in Headings
    ensures Click(st, BigCondition, Some(Selection(Wrap(Round, heading + rest), anchorParent))).highlightedTexts ==
            st.highlightedTexts + [StripFirstHeading(heading + rest, Headings)]
  {
    WrapRoundTrip(Round, heading + rest);
    ClausesStartWithT('\U{2019}');
    HeadingBlocksClauseMatch(heading, rest, ProbationClause);
    HeadingBlocksClauseMatch(heading, rest, PensionClause);
  }

  /** The state after a session of clicks, one after another. */
  function Run(st: DemoState, actions: seq<Action>): DemoState
    decreases |actions|
  {
    if actions == [] then st
    else Run(Click(st, actions[0].buttonLabel, actions[0].selection), actions[1..])
  }

  /** Over a whole session the recorded texts are only appended to, and
      `selectedTypes` grows by one "Text" per recorded text, so a page whose
      two lists start aligned keeps them aligned. */
  lemma {:induction false} RunKeepsTypesInStep(st: DemoState, actions: seq<Action>)
    ensures Extends(st, Run(st, actions))
    decreases |actions|
  {
    if actions == [] {
      UnchangedInStep(st);
    } else {
      var mid := Click(st, actions[0].buttonLabel, actions[0].selection);
      RunKeepsTypesInStep(mid, actions[1..]);
      ExtendsTransitive(st, mid, Run(mid, actions[1..]));
    }
  }

  /** The page state: the shared list of recorded texts, the parallel list of
      question types and the tour step. */
  class DemoPage {
    var highlightedTexts: seq<string>
    var selectedTypes: seq<string>
    var tourStep: string

    function State(): DemoState
      reads this
    {
      DemoState(highlightedTexts, selectedTypes, tourStep)
    }

    /** The page as it mounts: the tour step restored from storage or
        "welcome", and one "Text" type per already recorded text when no
        types were saved. */
    constructor (contextTexts: seq<string>, contextTypes: seq<string>, typesSaved: bool,
                 storedTourStep: Option<string>)
      ensures highlightedTexts == contextTexts
      ensures selectedTypes ==
                if !typesSaved && |contextTexts| > 0 then Repeat(DefaultType, |contextTexts|) else contextTypes
      ensures tourStep ==
                if storedTourStep.Some? && storedTourStep.value != "" then storedTourStep.value else "welcome"
    {
      highlightedTexts := contextTexts;
      tourStep := if storedTourStep.Some? && storedTourStep.value != "" then storedTourStep.value else "welcome";
      if !typesSaved && |contextTexts| > 0 {
        selectedTypes := Repeat(DefaultType, |contextTexts|);
      } else {
        selectedTypes := contextTypes;
      }
    }

    /** The shared context's `addHighlightedText`: an append. */
    method AddHighlightedText(text: string)
      modifies this`highlightedTexts
      ensures highlightedTexts == old(highlightedTexts) + [text]
    {
      highlightedTexts := highlightedTexts + [text];
    }

    /** The "Edit PlaceHolder" block, past the guard. */
    method RecordPlaceholder(textWithoutBrackets: string)
      modifies this
      ensures State() == EditStep(old(State()), textWithoutBrackets)
    {
      if textWithoutBrackets in highlightedTexts {
        return;
      }
      AddHighlightedText(textWithoutBrackets);
      selectedTypes := selectedTypes + [DefaultType];
      if textWithoutBrackets == "Employer Name" && tourStep == "select-employer-name" {
        tourStep := "selected-placeholder-employer-name";
      } else if textWithoutBrackets == "Employee Name" && tourStep == "introduce-employee-name" {
        tourStep := "selected-placeholder-employee-name";
      } else if textWithoutBrackets == "Agreement Date" && tourStep == "introduce-agreement-date" {
        tourStep := "selected-placeholder-agreement-date";
      }
    }

    /** The "Small Condition" block, past the guard. */
    method RecordSmallCondition(selectedText: string, textWithoutBrackets: string)
      modifies this
      ensures State() == SmallStep(old(State()), selectedText, textWithoutBrackets)
    {
      assert [Open(Curly)] == "{" && [Close(Curly)] == "}";
      if !(StartsWith(selectedText, "{") && EndsWith(selectedText, "}")) ||
         |selectedText| < MinSmallConditionLength || |selectedText| > MaxSmallConditionLength {
        return;
      }
      AddHighlightedText(textWithoutBrackets);
      selectedTypes := selectedTypes + [DefaultType];
      if tourStep == "introduce-small-condition" {
        tourStep := "selected-small-condition";
      }
    }

    /** The "Big Condition" block, past the guard. */
    method RecordBigCondition(selectedText: string, textWithoutBrackets: string)
      modifies this
      ensures State() == if WrappedIn(selectedText, Round) then BigConditionStep(old(State()), textWithoutBrackets)
                         else old(State())
    {
      assert [Open(Round)] == "(" && [Close(Round)] == ")";
      if !(StartsWith(selectedText, "(") && EndsWith(selectedText, ")")) {
        return;
      }
      var clauseContent := StripHeading(textWithoutBrackets);
      AddHighlightedText(clauseContent);
      var newTypes := selectedTypes + [DefaultType];
      selectedTypes := newTypes;

      var normalizedSelectedText := NormalizeText(textWithoutBrackets);
      if normalizedSelectedText == NormalizeText(ProbationClause) {
        AddHighlightedText(ProbationQuestion);
        selectedTypes := newTypes + [DefaultType];
        if tourStep == "introduce-big-condition" {
          tourStep := "selected-big-condition";
        }
      } else if normalizedSelectedText == NormalizeText(PensionClause) {
        AddHighlightedText(PensionQuestion);
        selectedTypes := newTypes + [DefaultType];
      }
    }

    method HandleIconClick(buttonLabel: string, selection: Option<Selection>)
      modifies this
      ensures State() == Click(old(State()), buttonLabel, selection)
    {
      if selection.None? {
        return;
      }
      var sel := selection.value;
      var textWithoutBrackets, hasValidBrackets, hasValidSpanClass := ClassifySelection(sel);

      if (buttonLabel == EditPlaceholder && !hasValidSpanClass) ||
         ((buttonLabel == SmallCondition || buttonLabel == BigCondition) && !hasValidBrackets) {
        return;
      }

      if buttonLabel == EditPlaceholder {
        RecordPlaceholder(textWithoutBrackets);
      } else if buttonLabel == SmallCondition {
        RecordSmallCondition(sel.text, textWithoutBrackets);
      } else if buttonLabel == BigCondition {
        RecordBigCondition(sel.text, textWithoutBrackets);
      } else if buttonLabel == Loop {
        AddHighlightedText(textWithoutBrackets);
        selectedTypes := selectedTypes + [DefaultType];
      }
    }
  }
}
