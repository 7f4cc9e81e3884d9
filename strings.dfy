/** Text helpers shared by both page variants: the optional value, JavaScript's
    whitespace set, prefix/suffix tests, `text.replace(/\s+/g, "")` and
    `String.prototype.trim`. */
module Strings {

  datatype Option<+T> = None | Some(value: T)

  /** The code points that JavaScript's `\s` and `trim()` treat as whitespace:
      the WhiteSpace set (TAB, VT, FF, SP, NBSP, ZWNBSP and the Zs category)
      together with the LineTerminator set (LF, CR, LS, PS). */
  predicate IsWhitespace(c: char) {
    c == '\t' || c == '\U{000B}' || c == '\U{000C}' || c == ' ' || c == '\U{00A0}' ||
    c == '\U{FEFF}' || c == '\U{1680}' || ('\U{2000}' <= c <= '\U{200A}') ||
    c == '\U{202F}' || c == '\U{205F}' || c == '\U{3000}' ||
    c == '\n' || c == '\r' || c == '\U{2028}' || c == '\U{2029}'
  }

  predicate NoWhitespace(s: string) {
    forall i :: 0 <= i < |s| ==> !IsWhitespace(s[i])
  }

  predicate AllWhitespace(s: string) {
    forall i :: 0 <= i < |s| ==> IsWhitespace(s[i])
  }

  /** `s.startsWith(p)` */
  predicate StartsWith(s: string, p: string) {
    |p| <= |s| && s[..|p|] == p
  }

  /** `s.endsWith(p)` */
  predicate EndsWith(s: string, p: string) {
    |p| <= |s| && s[|s| - |p|..] == p
  }

  /** `text.replace(/\s+/g, "")`: every run of whitespace is deleted, every
      other character is kept in order. */
  function NormalizeText(s: string): (r: string)
    ensures |r| <= |s|
    ensures NoWhitespace(r)
  {
    if s == [] then []
    else if IsWhitespace(s[0]) then NormalizeText(s[1..])
    else [s[0]] + NormalizeText(s[1..])
  }

  /** Nothing but whitespace is lost: a character survives normalization
      exactly when it occurs in the text and is not whitespace. */
  lemma {:induction false} NormalizeTextKeeps(s: string, c: char)
    ensures c in NormalizeText(s) <==> c in s && !IsWhitespace(c)
  {
    if s != [] {
      NormalizeTextKeeps(s[1..], c);
      assert c in s <==> c == s[0] || c in s[1..];
    }
  }

  /** Removing whitespace works piecewise: it commutes with concatenation. */
  lemma {:induction false} NormalizeTextConcat(a: string, b: string)
    ensures NormalizeText(a + b) == NormalizeText(a) + NormalizeText(b)
  {
    if a == [] {
      assert a + b == b;
    } else {
      assert (a + b)[1..] == a[1..] + b;
      NormalizeTextConcat(a[1..], b);
    }
  }

  /** A text without whitespace is its own normal form, so normalizing twice
      is normalizing once. */
  lemma {:induction false} NormalizeTextFixesNoWhitespace(s: string)
    requires NoWhitespace(s)
    ensures NormalizeText(s) == s
  {
    if s != [] {
      NormalizeTextFixesNoWhitespace(s[1..]);
    }
  }

  lemma NormalizeTextIdempotent(s: string)
    ensures NormalizeText(NormalizeText(s)) == NormalizeText(s)
  {
    NormalizeTextFixesNoWhitespace(NormalizeText(s));
  }

  /** Whitespace alone normalizes to nothing: inserting whitespace anywhere
      leaves the normal form unchanged. */
  lemma {:induction false} NormalizeTextOfWhitespace(w: string)
    requires AllWhitespace(w)
    ensures NormalizeText(w) == []
  {
    if w != [] {
      NormalizeTextOfWhitespace(w[1..]);
    }
  }

  lemma NormalizeTextIgnoresInsertedWhitespace(a: string, w: string, b: string)
    requires AllWhitespace(w)
    ensures NormalizeText(a + w + b) == NormalizeText(a + b)
  {
    NormalizeTextConcat(a + w, b);
    NormalizeTextConcat(a, w);
    NormalizeTextOfWhitespace(w);
    NormalizeTextConcat(a, b);
  }

  /** Texts that differ only in one non-whitespace character still differ
      once whitespace is removed. */
  lemma NormalizeTextTellsApart(before: string, a: char, b: char, after: string)
    requires a != b && !IsWhitespace(a) && !IsWhitespace(b)
    ensures NormalizeText(before + [a] + after) != NormalizeText(before + [b] + after)
  {
    NormalizeTextConcat(before + [a], after);
    NormalizeTextConcat(before, [a]);
    NormalizeTextConcat(before + [b], after);
    NormalizeTextConcat(before, [b]);
    var k := |NormalizeText(before)|;
    assert NormalizeText([a]) == [a] && NormalizeText([b]) == [b];
    assert NormalizeText(before + [a] + after)[k] == a;
    assert NormalizeText(before + [b] + after)[k] == b;
  }

  /** `s` with its leading whitespace removed: a suffix of `s` that does not
      start with whitespace. */
  function TrimStart(s: string): (r: string)
    ensures |r| <= |s| && r == s[|s| - |r|..]
    ensures r == [] || !IsWhitespace(r[0])
  {
    if s != [] && IsWhitespace(s[0]) then TrimStart(s[1..]) else s
  }

  /** `s` with its trailing whitespace removed: a prefix of `s` that does not
      end with whitespace. */
  function TrimEnd(s: string): (r: string)
    ensures |r| <= |s| && r == s[..|r|]
    ensures r == [] || !IsWhitespace(r[|r| - 1])
  {
    if s != [] && IsWhitespace(s[|s| - 1]) then TrimEnd(s[..|s| - 1]) else s
  }

  /** `s.trim()`: leading and trailing whitespace removed. */
  function Trim(s: string): (r: string)
    ensures |r| <= |s|
    ensures r == [] || (!IsWhitespace(r[0]) && !IsWhitespace(r[|r| - 1]))
  {
    var t := TrimStart(s);
    var r := TrimEnd(t);
    assert r != [] ==> r[0] == t[0];
    r
  }

  /** Only whitespace is dropped at the front. */
  lemma {:induction false} TrimStartDropsWhitespace(s: string)
    ensures AllWhitespace(s[..|s| - |TrimStart(s)|])
  {
    if s != [] && IsWhitespace(s[0]) {
      TrimStartDropsWhitespace(s[1..]);
      var k := |s| - |TrimStart(s)|;
      assert forall i :: 1 <= i < k ==> s[..k][i] == s[1..][..k - 1][i - 1];
    }
  }

  /** Only whitespace is dropped at the back. */
  lemma {:induction false} TrimEndDropsWhitespace(s: string)
    ensures AllWhitespace(s[|TrimEnd(s)|..])
  {
    if s != [] && IsWhitespace(s[|s| - 1]) {
      var p := s[..|s| - 1];
      TrimEndDropsWhitespace(p);
      assert s[|TrimEnd(s)|..] == p[|TrimEnd(p)|..] + [s[|s| - 1]];
    }
  }

  lemma {:induction false} NormalizeTextTrimStart(s: string)
    ensures NormalizeText(TrimStart(s)) == NormalizeText(s)
  {
    if s != [] && IsWhitespace(s[0]) {
      NormalizeTextTrimStart(s[1..]);
    }
  }

  lemma {:induction false} NormalizeTextTrimEnd(s: string)
    ensures NormalizeText(TrimEnd(s)) == NormalizeText(s)
  {
    if s != [] && IsWhitespace(s[|s| - 1]) {
      var p := s[..|s| - 1];
      NormalizeTextTrimEnd(p);
      assert s == p + [s[|s| - 1]];
      NormalizeTextConcat(p, [s[|s| - 1]]);
      assert NormalizeText([s[|s| - 1]]) == [];
    }
  }

  /** Trimming only drops whitespace, so it does not change the normal form. */
  lemma NormalizeTextTrim(s: string)
    ensures NormalizeText(Trim(s)) == NormalizeText(s)
  {
    NormalizeTextTrimStart(s);
    NormalizeTextTrimEnd(TrimStart(s));
  }

  /** `n` copies of `x`. */
  function Repeat<T>(x: T, n: nat): (r: seq<T>)
    ensures |r| == n
    ensures forall i :: 0 <= i < n ==> r[i] == x
  {
    if n == 0 then [] else [x] + Repeat(x, n - 1)
  }

  lemma {:induction false} RepeatAdd<T>(x: T, m: nat, n: nat)
    ensures Repeat(x, m) + Repeat(x, n) == Repeat(x, m + n)
  {
    if m > 0 {
      RepeatAdd(x, m - 1, n);
      assert Repeat(x, m) + Repeat(x, n) == [x] + (Repeat(x, m - 1) + Repeat(x, n));
    }
  }
}
