/** The "Selected Placeholders" list both pages render from
    `[...new Set(highlightedTexts)]`: one row per distinct recorded text, in
    the order of first appearance, each paired with `selectedTypes[index]`
    (or "Text") and counted as "Total Placeholders". */
module Display {

  predicate NoDuplicates(s: seq<string>) {
    forall i, j :: 0 <= i < j < |s| ==> s[i] != s[j]
  }

  /** `[...new Set(s)]`: a `Set` keeps its elements in insertion order and
      ignores an element it already holds. */
  function Dedup(s: seq<string>): (r: seq<string>)
    ensures |r| <= |s|
    ensures forall x :: x in r <==> x in s
    ensures NoDuplicates(r)
  {
    if s == [] then []
    else
      var d := Dedup(s[..|s| - 1]);
      var x := s[|s| - 1];
      assert forall y :: y in s <==> y in s[..|s| - 1] || y == x by {
        assert s == s[..|s| - 1] + [x];
      }
      if x in d then d else d + [x]
  }

  /** A list that already has no repeats is shown as it is. */
  lemma {:induction false} DedupOfDistinct(s: seq<string>)
    requires NoDuplicates(s)
    ensures Dedup(s) == s
  {
    if s != [] {
      var p := s[..|s| - 1];
      DedupOfDistinct(p);
      assert s[|s| - 1] !in p;
      assert s == p + [s[|s| - 1]];
    }
  }

  /** Order of first appearance: the rows shown for a prefix of the list are
      a prefix of the rows shown for the whole list, so recording more texts
      only ever adds rows at the end. */
  lemma {:induction false} DedupPrefix(s: seq<string>, k: nat)
    requires k <= |s|
    ensures Dedup(s[..k]) <= Dedup(s)
    decreases |s| - k
  {
    if k < |s| {
      DedupPrefix(s, k + 1);
      assert s[..k + 1][..k] == s[..k];
    } else {
      assert s[..k] == s;
    }
  }

  /** Appending a text adds a row exactly when the text is new. */
  lemma DedupAppend(s: seq<string>, x: string)
    ensures Dedup(s + [x]) == if x in s then Dedup(s) else Dedup(s) + [x]
  {
    assert (s + [x])[..|s + [x]| - 1] == s;
  }

  lemma {:induction false} DistinctCardinality(s: seq<string>)
    requires NoDuplicates(s)
    ensures |set x | x in s| == |s|
  {
    if s != [] {
      var p := s[..|s| - 1];
      var x := s[|s| - 1];
      DistinctCardinality(p);
      assert s == p + [x];
      assert (set y | y in s) == (set y | y in p) + {x};
      assert x !in (set y | y in p);
    }
  }

  /** "Total Placeholders" is the number of distinct recorded texts. */
  lemma TotalPlaceholdersIsDistinctCount(s: seq<string>)
    ensures |Dedup(s)| == |set x | x in s|
  {
    DistinctCardinality(Dedup(s));
    assert (set x | x in Dedup(s)) == (set x | x in s);
  }

  /** One displayed row: the text and its question type. */
  datatype Row = Row(text: string, questionType: string)

  /** `selectedTypes[index] || "Text"`: a missing or empty type reads "Text". */
  function TypeAt(selectedTypes: seq<string>, index: nat): (t: string)
    ensures t != ""
    ensures index < |selectedTypes| && selectedTypes[index] != "" ==> t == selectedTypes[index]
    ensures !(index < |selectedTypes| && selectedTypes[index] != "") ==> t == "Text"
  {
    if index < |selectedTypes| && selectedTypes[index] != "" then selectedTypes[index] else "Text"
  }

  /** The rows of the list: the distinct texts, each paired with the type at
      its own position in the de-duplicated list. */
  function DisplayRows(highlightedTexts: seq<string>, selectedTypes: seq<string>): (rows: seq<Row>)
    ensures |rows| == |set x | x in highlightedTexts|
    ensures forall i :: 0 <= i < |rows| ==> rows[i].text in highlightedTexts && rows[i].questionType != ""
    ensures forall i, j :: 0 <= i < j < |rows| ==> rows[i].text != rows[j].text
    // row i holds the i-th distinct text in order of first appearance, with
    // the type at position i of `selectedTypes`, not at that text's own
    // position in `highlightedTexts`
    ensures |rows| == |Dedup(highlightedTexts)|
    ensures forall i :: 0 <= i < |rows| ==>
              rows[i].text == Dedup(highlightedTexts)[i] && rows[i].questionType == TypeAt(selectedTypes, i)
  {
    var texts := Dedup(highlightedTexts);
    TotalPlaceholdersIsDistinctCount(highlightedTexts);
    seq(|texts|, i requires 0 <= i < |texts| => Row(texts[i], TypeAt(selectedTypes, i)))
  }
}
