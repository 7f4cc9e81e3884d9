/** The selection-classification steps that both page variants run at the
    start of `handleIconClick`: the bracket test, the `placeholder-` class
    fallback, the label guard, and the heading strip of a big condition. */
module Selections {
  import opened Strings

  // The toolbar labels.
  const EditPlaceholder := "Edit PlaceHolder"
  const SmallCondition := "Small Condition"
  const BigCondition := "Big Condition"
  const Loop := "Loop"

  /** The three buttons both pages share and that the guard and the score
      know about. The demo page's toolbar has a fourth, "Loop", which is not
      one of them. */
  predicate IsToolbarLabel(buttonLabel: string) {
    buttonLabel == EditPlaceholder || buttonLabel == SmallCondition || buttonLabel == BigCondition
  }

  /** The parent element of the selection's anchor node: its class list and
      its `textContent`. */
  datatype ParentElement = ParentElement(classList: seq<string>, textContent: string)

  /** A selection that has a range: the range's text and the parent element
      of its anchor node, if that node has one. */
  datatype Selection = Selection(text: string, anchorParent: Option<ParentElement>)

  /** One press of a toolbar button, with the selection at that moment. */
  datatype Action = Action(buttonLabel: string, selection: Option<Selection>)

  /** The three locals the handler computes before it looks at the label. */
  datatype Classification =
    Classification(textWithoutBrackets: string, hasValidBrackets: bool, hasValidSpanClass: bool)

  // ---------------------------------------------------------------- brackets

  /** `[...]` marks a placeholder, `{...}` a small condition, `(...)` a big
      condition. */
  datatype Bracket = Square | Curly | Round

  function Open(b: Bracket): char {
    match b
    case Square => '['
    case Curly => '{'
    case Round => '('
  }

  function Close(b: Bracket): char {
    match b
    case Square => ']'
    case Curly => '}'
    case Round => ')'
  }

  predicate WrappedIn(s: string, b: Bracket) {
    StartsWith(s, [Open(b)]) && EndsWith(s, [Close(b)])
  }

  function Wrap(b: Bracket, inner: string): string {
    [Open(b)] + inner + [Close(b)]
  }

  /** No bracket closes itself, so a wrapped text has two characters at least. */
  lemma WrappedIsLong(s: string, b: Bracket)
    requires WrappedIn(s, b)
    ensures |s| >= 2
  {
    assert Open(b) != Close(b);
    assert s[0] == s[..1][0] == Open(b);
    assert s[|s| - 1] == s[|s| - 1..][0] == Close(b);
  }

  /** The pair the selection is wrapped in, tried in the order `[]`, `{}`,
      `()`. A wrapped text has at least two characters, since no bracket
      closes itself. */
  function BracketOf(s: string): (r: Option<Bracket>)
    ensures r.Some? ==> WrappedIn(s, r.value) && |s| >= 2
    ensures r.None? <==> forall b: Bracket :: !WrappedIn(s, b)
  {
    if WrappedIn(s, Square) then WrappedIsLong(s, Square); Some(Square)
    else if WrappedIn(s, Curly) then WrappedIsLong(s, Curly); Some(Curly)
    else if WrappedIn(s, Round) then WrappedIsLong(s, Round); Some(Round)
    else None
  }

  /** `s.slice(1, -1)` */
  function Inner(s: string): (r: string)
    requires |s| >= 2
    ensures |r| == |s| - 2 && s == [s[0]] + r + [s[|s| - 1]]
  {
    s[1..|s| - 1]
  }

  /** Wrapping a text in a pair and stripping the pair again gives the text
      back, and the pair is recognised. */
  lemma WrapRoundTrip(b: Bracket, inner: string)
    ensures BracketOf(Wrap(b, inner)) == Some(b)
    ensures Inner(Wrap(b, inner)) == inner
  {
    var s := Wrap(b, inner);
    assert s[..1] == [Open(b)] && s[|s| - 1..] == [Close(b)];
    assert s[1..|s| - 1] == inner;
  }

  /** Conversely, a recognised selection is its inner text re-wrapped. */
  lemma UnwrapRoundTrip(s: string)
    requires BracketOf(s).Some?
    ensures s == Wrap(BracketOf(s).value, Inner(s))
  {
    var b := BracketOf(s).value;
    assert s[..1] == [Open(b)] && s[|s| - 1..] == [Close(b)];
    assert s == s[..1] + s[1..|s| - 1] + s[|s| - 1..];
  }

  // ------------------------------------------------------ placeholder class

  const PlaceholderClassPrefix := "placeholder-"

  /** `classList.find(cls => cls.startsWith("placeholder-"))`: the first
      class with the prefix, if any. */
  function FindPlaceholderClass(classes: seq<string>): (r: Option<string>)
    ensures r.None? <==> forall i :: 0 <= i < |classes| ==> !StartsWith(classes[i], PlaceholderClassPrefix)
    ensures r.Some? ==> exists i :: 0 <= i < |classes| && classes[i] == r.value &&
                                    StartsWith(classes[i], PlaceholderClassPrefix) &&
                                    forall j :: 0 <= j < i ==> !StartsWith(classes[j], PlaceholderClassPrefix)
  {
    if classes == [] then None
    else if StartsWith(classes[0], PlaceholderClassPrefix) then Some(classes[0])
    else
      var r := FindPlaceholderClass(classes[1..]);
      assert r.Some? ==> exists i :: 0 < i < |classes| && classes[i] == r.value &&
                                     StartsWith(classes[i], PlaceholderClassPrefix) &&
                                     forall j :: 0 <= j < i ==> !StartsWith(classes[j], PlaceholderClassPrefix)
      by {
        if r.Some? {
          var k :| 0 <= k < |classes[1..]| && classes[1..][k] == r.value &&
                   StartsWith(classes[1..][k], PlaceholderClassPrefix) &&
                   forall j :: 0 <= j < k ==> !StartsWith(classes[1..][j], PlaceholderClassPrefix);
          assert forall j :: 1 <= j < k + 1 ==> classes[j] == classes[1..][j - 1];
        }
      }
      r
  }

  predicate HasPlaceholderClass(p: Option<ParentElement>) {
    p.Some? && FindPlaceholderClass(p.value.classList).Some?
  }

  // ----------------------------------------------------------- classifying

  /** What the handler's if-chain computes, by cases on the bracket pair. A
      bracketed selection loses its first and last characters and sets the
      bracket flag; only `[...]` sets the span-class flag too. Otherwise the
      span-class flag comes from a `placeholder-` class on the anchor's
      parent, whose non-empty text content then replaces the selection. */
  function Classify(sel: Selection): (c: Classification)
    ensures c.hasValidBrackets <==> BracketOf(sel.text).Some?
    ensures c.hasValidBrackets ==> sel.text == Wrap(BracketOf(sel.text).value, c.textWithoutBrackets)
    ensures c.hasValidSpanClass <==>
              BracketOf(sel.text) == Some(Square) ||
              (BracketOf(sel.text).None? && HasPlaceholderClass(sel.anchorParent))
    ensures !c.hasValidBrackets && !c.hasValidSpanClass ==> c.textWithoutBrackets == sel.text
    ensures !c.hasValidBrackets && c.hasValidSpanClass ==>
              var parentText := sel.anchorParent.value.textContent;
              c.textWithoutBrackets == if parentText != "" then parentText else sel.text
  {
    match BracketOf(sel.text)
    case Some(b) =>
      UnwrapRoundTrip(sel.text);
      Classification(Inner(sel.text), true, b == Square)
    case None =>
      if HasPlaceholderClass(sel.anchorParent) then
        var parentText := sel.anchorParent.value.textContent;
        Classification(if parentText != "" then parentText else sel.text, false, true)
      else
        Classification(sel.text, false, false)
  }

  /** The handler's if-chain over the mutable locals `textWithoutBrackets`,
      `hasValidBrackets` and `hasValidSpanClass`. */
  method ClassifySelection(sel: Selection)
    returns (textWithoutBrackets: string, hasValidBrackets: bool, hasValidSpanClass: bool)
    ensures Classification(textWithoutBrackets, hasValidBrackets, hasValidSpanClass) == Classify(sel)
  {
    var selectedText := sel.text;
    textWithoutBrackets := selectedText;
    hasValidBrackets := false;
    hasValidSpanClass := false;
    assert "[" == [Open(Square)] && "]" == [Close(Square)];
    assert "{" == [Open(Curly)] && "}" == [Close(Curly)];
    assert "(" == [Open(Round)] && ")" == [Close(Round)];

    if StartsWith(selectedText, "[") && EndsWith(selectedText, "]") {
      WrappedIsLong(selectedText, Square);
      textWithoutBrackets := selectedText[1..|selectedText| - 1];
      hasValidBrackets := true;
      hasValidSpanClass := true;
    } else if StartsWith(selectedText, "{") && EndsWith(selectedText, "}") {
      WrappedIsLong(selectedText, Curly);
      textWithoutBrackets := selectedText[1..|selectedText| - 1];
      hasValidBrackets := true;
    } else if StartsWith(selectedText, "(") && EndsWith(selectedText, ")") {
      WrappedIsLong(selectedText, Round);
      textWithoutBrackets := selectedText[1..|selectedText| - 1];
      hasValidBrackets := true;
    } else {
      match sel.anchorParent
      case Some(parent) =>
        var placeholderClass := FindPlaceholderClass(parent.classList);
        if placeholderClass.Some? {
          hasValidSpanClass := true;
          textWithoutBrackets := if parent.textContent != "" then parent.textContent else selectedText;
        }
      case None =>
    }
  }

  // ------------------------------------------------------------ label guard

  /** The guard that returns before anything changes: an "Edit PlaceHolder"
      without the span-class flag, or a condition label without the bracket
      flag. */
  predicate Rejected(buttonLabel: string, c: Classification)
    ensures Rejected(buttonLabel, c) ==> IsToolbarLabel(buttonLabel)
  {
    (buttonLabel == EditPlaceholder && !c.hasValidSpanClass) ||
    ((buttonLabel == SmallCondition || buttonLabel == BigCondition) && !c.hasValidBrackets)
  }

  predicate IsCorrectButton(buttonLabel: string, c: Classification)
    ensures IsCorrectButton(buttonLabel, c) ==> IsToolbarLabel(buttonLabel)
  {
    (buttonLabel == EditPlaceholder && c.hasValidSpanClass) ||
    (buttonLabel == SmallCondition && c.hasValidBrackets) ||
    (buttonLabel == BigCondition && c.hasValidBrackets)
  }

  /** Past the guard, the correctness test holds exactly for the three
      toolbar labels; any other label ("Loop" among them) passes the guard
      and fails the test. */
  lemma CorrectButtonAfterGuard(buttonLabel: string, c: Classification)
    ensures IsCorrectButton(buttonLabel, c) <==> IsToolbarLabel(buttonLabel) && !Rejected(buttonLabel, c)
    ensures !IsToolbarLabel(buttonLabel) ==> !Rejected(buttonLabel, c)
  {
  }

  // ------------------------------------------------------- big-condition heading

  const ProbationHeading := "PROBATIONARY PERIOD"
  const PensionHeading := "PENSION"
  const Headings: seq<string> := [ProbationHeading, PensionHeading]

  /** The text after the first heading of `headings` that starts `text`,
      trimmed; `text` itself when none does. */
  function StripFirstHeading(text: string, headings: seq<string>): (r: string)
    ensures |r| <= |text|
  {
    if headings == [] then text
    else if StartsWith(text, headings[0]) then Trim(text[|headings[0]|..])
    else StripFirstHeading(text, headings[1..])
  }

  /** At most one heading is removed: "PROBATIONARY PERIOD" when the text
      starts with it, otherwise "PENSION" when it starts with that, otherwise
      nothing; what follows the heading is trimmed. */
  lemma StripFirstHeadingCases(text: string)
    ensures StartsWith(text, ProbationHeading) ==>
              StripFirstHeading(text, Headings) == Trim(text[|ProbationHeading|..])
    ensures StartsWith(text, PensionHeading) ==>
              StripFirstHeading(text, Headings) == Trim(text[|PensionHeading|..])
    ensures (!StartsWith(text, ProbationHeading) && !StartsWith(text, PensionHeading)) ==>
              StripFirstHeading(text, Headings) == text
  {
    assert Headings[0] == ProbationHeading && Headings[1..] == [PensionHeading];
    assert [PensionHeading][1..] == [];
    assert StripFirstHeading(text, []) == text;
    if !StartsWith(text, PensionHeading) {
      assert StripFirstHeading(text, [PensionHeading]) == text;
    }
    if StartsWith(text, PensionHeading) {
      assert text[1] == PensionHeading[1] == 'E';
      assert ProbationHeading[1] == 'R';
    }
  }

  /** The `for ... of headingsToStrip` loop with its `break`. */
  method StripHeading(textWithoutBrackets: string) returns (clauseContent: string)
    ensures clauseContent == StripFirstHeading(textWithoutBrackets, Headings)
  {
    clauseContent := textWithoutBrackets;
    var i := 0;
    while i < |Headings|
      invariant 0 <= i <= |Headings|
      invariant clauseContent == textWithoutBrackets
      invariant StripFirstHeading(textWithoutBrackets, Headings) ==
                StripFirstHeading(textWithoutBrackets, Headings[i..])
    {
      var heading := Headings[i];
      if StartsWith(textWithoutBrackets, heading) {
        clauseContent := Trim(textWithoutBrackets[|heading|..]);
        break;
      }
      assert Headings[i..][1..] == Headings[i + 1..];
      i := i + 1;
    }
  }

  // ------------------------------------------------------------ clause match

  // The two canned clauses of the clause test, each with one apostrophe that
  // the two pages write differently. The text around it is split into pieces
  // of under forty characters so that the verifier can see their characters.
  const ProbationBeforeApostrophe :=
    "The first [Probation Period Length] of " + ("employment will be a probationary " +
    ("period. The Company shall assess the " + "Employee"))
  const ProbationAfterApostrophe :=
    "s performance and suitability " + ("during this time. Upon successful " +
    ("completion, the Employee will be " + "confirmed in their role."))
  const PensionBeforeApostrophe := "The Employee will be enrolled in the " + "Company"
  const PensionAfterApostrophe := "s pension scheme in accordance " + "with auto-enrolment legislation."

  function ProbationClauseWith(apostrophe: char): string {
    ProbationBeforeApostrophe + [apostrophe] + ProbationAfterApostrophe
  }

  function PensionClauseWith(apostrophe: char): string {
    PensionBeforeApostrophe + [apostrophe] + PensionAfterApostrophe
  }

  /** Both clauses start with "T", whatever their apostrophe. */
  lemma ClausesStartWithT(apostrophe: char)
    ensures ProbationClauseWith(apostrophe)[0] == 'T' && PensionClauseWith(apostrophe)[0] == 'T'
  {
    assert ProbationClauseWith(apostrophe)[0] == ProbationBeforeApostrophe[0];
    assert PensionClauseWith(apostrophe)[0] == PensionBeforeApostrophe[0];
  }

  /** The apostrophe is not whitespace, so a clause written with one
      apostrophe never matches the same clause written with another. */
  lemma ApostropheTellsClausesApart(a: char, b: char)
    requires a != b && !IsWhitespace(a) && !IsWhitespace(b)
    ensures NormalizeText(ProbationClauseWith(a)) != NormalizeText(ProbationClauseWith(b))
    ensures NormalizeText(PensionClauseWith(a)) != NormalizeText(PensionClauseWith(b))
  {
    NormalizeTextTellsApart(ProbationBeforeApostrophe, a, b, ProbationAfterApostrophe);
    NormalizeTextTellsApart(PensionBeforeApostrophe, a, b, PensionAfterApostrophe);
  }

  /** The clause test of a big condition: equal once all whitespace is
      removed. */
  predicate MatchesClause(text: string, clause: string) {
    NormalizeText(text) == NormalizeText(clause)
  }

  /** The test is made on the text before its heading is stripped, so a
      selection that still carries a heading never matches a clause that
      starts with "T", as both canned clauses do: such a selection is
      recorded but adds no question. */
  lemma {:induction false} HeadingBlocksClauseMatch(heading: string, rest: string, clause: string)
    requires heading in Headings
    requires clause != [] && clause[0] == 'T'
    ensures !MatchesClause(heading + rest, clause)
  {
    NormalizeTextConcat(heading, rest);
    assert heading[0] == 'P';
    assert NormalizeText(heading)[0] == 'P';
    assert NormalizeText(clause)[0] == 'T';
  }
}
