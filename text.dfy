/**
 * The pieces of Python's `str` that the chat analyser relies on: which
 * characters are whitespace and line boundaries, `splitlines`, `strip`,
 * `replace(c, '')`, `split()`, `lower`, the substring test `w in text`
 * and `str(n)` for a natural number.
 */
module Text {

  /** Python's `str.isspace`, which is also what `\s`, `strip()` and `split()` use on text. */
  predicate IsSpace(c: char) {
    c == ' ' || '\t' <= c <= '\r' || '\U{1C}' <= c <= '\U{1F}' ||
    c == '\U{85}' || c == '\U{A0}' || c == '\U{1680}' || '\U{2000}' <= c <= '\U{200A}' ||
    c == '\U{2028}' || c == '\U{2029}' || c == '\U{202F}' || c == '\U{205F}' || c == '\U{3000}'
  }

  /** The characters at which `str.splitlines` ends a line (`\r\n` counts as one boundary). */
  predicate IsLineBreak(c: char) {
    '\n' <= c <= '\r' || '\U{1C}' <= c <= '\U{1E}' || c == '\U{85}' || c == '\U{2028}' || c == '\U{2029}'
  }

  predicate IsDigit(c: char) { '0' <= c <= '9' }

  function DigitValue(c: char): (v: nat)
    requires IsDigit(c)
    ensures v < 10
  {
    (c as int - '0' as int) as nat
  }

  function DigitChar(v: nat): (c: char)
    requires v < 10
    ensures IsDigit(c) && DigitValue(c) == v
  {
    (v + '0' as int) as char
  }

  predicate AllDigits(s: string) {
    forall k :: 0 <= k < |s| ==> IsDigit(s[k])
  }

  predicate NoSpace(s: string) {
    forall k :: 0 <= k < |s| ==> !IsSpace(s[k])
  }

  predicate NoLineBreak(s: string) {
    forall k :: 0 <= k < |s| ==> !IsLineBreak(s[k])
  }

  // ---------------------------------------------------------------------------
  // splitlines

  /** Index of the first line boundary of `s`, or `|s|` when it has none. */
  function BreakIndex(s: string): (i: nat)
    ensures i <= |s|
    ensures NoLineBreak(s[..i])
    ensures i < |s| ==> IsLineBreak(s[i])
  {
    if s == [] || IsLineBreak(s[0]) then 0 else 1 + BreakIndex(s[1..])
  }

  /** Python's `str.splitlines()`: no line keeps its boundary, and a final boundary opens no empty line. */
  function SplitLines(s: string): (lines: seq<string>)
    ensures forall k :: 0 <= k < |lines| ==> NoLineBreak(lines[k])
    decreases |s|
  {
    if s == [] then []
    else
      var i := BreakIndex(s);
      if i == |s| then [s]
      else
        var next := if s[i] == '\r' && i + 1 < |s| && s[i + 1] == '\n' then i + 2 else i + 1;
        [s[..i]] + SplitLines(s[next..])
  }

  /** The text of `lines`, each one followed by `"\n"`. */
  function Terminated(lines: seq<string>): string {
    if lines == [] then [] else lines[0] + "\n" + Terminated(lines[1..])
  }

  /** A non-empty text without line breaks is one line. */
  lemma SplitLinesOne(l: string)
    requires l != [] && NoLineBreak(l)
    ensures SplitLines(l) == [l]
  {
    BreakIndexNone(l);
  }

  lemma {:induction false} BreakIndexNone(l: string)
    requires NoLineBreak(l)
    ensures BreakIndex(l) == |l|
  {
    if l != [] {
      BreakIndexNone(l[1..]);
    }
  }

  /** A last line without a newline after it is still a line. */
  lemma {:induction false} SplitLinesUnterminated(lines: seq<string>, last: string)
    requires forall k :: 0 <= k < |lines| ==> NoLineBreak(lines[k])
    requires last != [] && NoLineBreak(last)
    ensures SplitLines(Terminated(lines) + last) == lines + [last]
  {
    if lines == [] {
      assert Terminated(lines) + last == last;
      SplitLinesOne(last);
    } else {
      var rest := Terminated(lines[1..]) + last;
      assert [lines[0]] + (lines[1..] + [last]) == lines + [last] by {
        assert lines == [lines[0]] + lines[1..];
      }
      calc {
        SplitLines(Terminated(lines) + last);
        { TerminatedThen(lines, last); }
        SplitLines(lines[0] + "\n" + rest);
        { SplitLinesCons(lines[0], rest); }
        [lines[0]] + SplitLines(rest);
        { SplitLinesUnterminated(lines[1..], last); }
        [lines[0]] + (lines[1..] + [last]);
      }
    }
  }

  lemma TerminatedThen(lines: seq<string>, last: string)
    requires lines != []
    ensures Terminated(lines) + last == lines[0] + "\n" + (Terminated(lines[1..]) + last)
  {
  }

  /** Splitting a newline-terminated text gives back its lines, empty lines included. */
  lemma {:induction false} SplitLinesTerminated(lines: seq<string>)
    requires forall k :: 0 <= k < |lines| ==> NoLineBreak(lines[k])
    ensures SplitLines(Terminated(lines)) == lines
  {
    if lines != [] {
      SplitLinesCons(lines[0], Terminated(lines[1..]));
      SplitLinesTerminated(lines[1..]);
      assert lines == [lines[0]] + lines[1..];
    }
  }

  /** A line without boundaries followed by `"\n"` is split off as the first line. */
  lemma SplitLinesCons(l: string, rest: string)
    requires NoLineBreak(l)
    ensures SplitLines(l + "\n" + rest) == [l] + SplitLines(rest)
  {
    var s := l + "\n" + rest;
    BreakIndexOfLine(l, "\n" + rest);
    assert s == l + ("\n" + rest);
    SplitLinesAtNewline(s, |l|);
    assert s[..|l|] == l;
    assert s[|l| + 1..] == rest;
  }

  lemma SplitLinesAtNewline(s: string, i: nat)
    requires i < |s| && BreakIndex(s) == i && s[i] == '\n'
    ensures SplitLines(s) == [s[..i]] + SplitLines(s[i + 1..])
  {
  }

  lemma {:induction false} BreakIndexOfLine(l: string, rest: string)
    requires NoLineBreak(l)
    requires rest != [] && IsLineBreak(rest[0])
    ensures BreakIndex(l + rest) == |l|
  {
    if l != [] {
      assert (l + rest)[1..] == l[1..] + rest;
      BreakIndexOfLine(l[1..], rest);
    } else {
      assert l + rest == rest;
    }
  }

  // ---------------------------------------------------------------------------
  // strip and replace

  /** `lstrip()`: the suffix of `s` left after its leading whitespace. */
  function StripLeft(s: string): (r: string)
    ensures |r| <= |s| && r == s[|s| - |r|..]
    ensures forall k :: 0 <= k < |s| - |r| ==> IsSpace(s[k])
    ensures r == [] || !IsSpace(r[0])
  {
    if s != [] && IsSpace(s[0]) then StripLeft(s[1..]) else s
  }

  /** `rstrip()`: the prefix of `s` left before its trailing whitespace. */
  function StripRight(s: string): (r: string)
    ensures |r| <= |s| && r == s[..|r|]
    ensures forall k :: |r| <= k < |s| ==> IsSpace(s[k])
    ensures r == [] || !IsSpace(r[|r| - 1])
  {
    if s != [] && IsSpace(s[|s| - 1]) then StripRight(s[..|s| - 1]) else s
  }

  /** Everything before index `i` and from index `j` on is whitespace. */
  predicate SpaceOutside(s: string, i: int, j: int) {
    (forall k :: 0 <= k < i && k < |s| ==> IsSpace(s[k])) && (forall k :: 0 <= j <= k < |s| ==> IsSpace(s[k]))
  }

  /**
   * `strip()`: the slice of `s` between its leading and its trailing
   * whitespace, which neither begins nor ends with whitespace.
   */
  function Strip(s: string): (r: string)
    ensures r == [] || (!IsSpace(r[0]) && !IsSpace(r[|r| - 1]))
    ensures |r| <= |s|
    ensures exists i, j :: 0 <= i <= j <= |s| && r == s[i..j] && SpaceOutside(s, i, j)
  {
    var left := StripLeft(s);
    var r := StripRight(left);
    TrimmedSlice(s, left, r);
    r
  }

  /** A prefix `r` of a suffix `left` of `s`, with whitespace cut on both sides, is a slice of `s`. */
  lemma TrimmedSlice(s: string, left: string, r: string)
    requires |left| <= |s| && left == s[|s| - |left|..]
    requires forall k :: 0 <= k < |s| - |left| ==> IsSpace(s[k])
    requires |r| <= |left| && r == left[..|r|]
    requires forall k :: |r| <= k < |left| ==> IsSpace(left[k])
    ensures var i := |s| - |left|; r == s[i..i + |r|] && SpaceOutside(s, i, i + |r|)
  {
    var i := |s| - |left|;
    forall k | i + |r| <= k < |s| ensures IsSpace(s[k]) {
      assert s[k] == left[k - i];
    }
  }

  /** `s.replace(c, '')`: every occurrence of `c` removed, the other characters kept in order. */
  function DeleteChar(s: string, c: char): (r: string)
    ensures forall k :: 0 <= k < |r| ==> r[k] != c
    ensures |s| == 1 ==> r == (if s[0] == c then [] else s)
  {
    if s == [] then []
    else (if s[0] == c then [] else [s[0]]) + DeleteChar(s[1..], c)
  }

  /** Every other character keeps its number of occurrences. */
  lemma {:induction false} DeleteCharCounts(s: string, c: char)
    ensures multiset(DeleteChar(s, c)) == multiset(s)[c := 0]
  {
    if s != [] {
      assert s == [s[0]] + s[1..];
      DeleteCharCounts(s[1..], c);
    }
  }

  /** Deletion works piece by piece, so the characters that stay keep their order. */
  lemma {:induction false} DeleteCharAppend(a: string, b: string, c: char)
    ensures DeleteChar(a + b, c) == DeleteChar(a, c) + DeleteChar(b, c)
  {
    if a == [] {
      assert a + b == b;
    } else {
      var head := if a[0] == c then [] else [a[0]];
      DeleteCharFirst(a, b, c);
      DeleteCharAppend(a[1..], b, c);
      var rest, tail := DeleteChar(a[1..], c), DeleteChar(b, c);
      assert head + (rest + tail) == (head + rest) + tail;
    }
  }

  /** One step of the deletion: the first character of `a` is kept or dropped, before the rest. */
  lemma DeleteCharFirst(a: string, b: string, c: char)
    requires a != []
    ensures var head := if a[0] == c then [] else [a[0]];
      && DeleteChar(a + b, c) == head + DeleteChar(a[1..] + b, c)
      && DeleteChar(a, c) == head + DeleteChar(a[1..], c)
  {
    assert (a + b)[0] == a[0] && (a + b)[1..] == a[1..] + b;
  }

  /** Removing a character that is no longer there changes nothing. */
  lemma {:induction false} DeleteCharAbsent(s: string, c: char)
    requires forall k :: 0 <= k < |s| ==> s[k] != c
    ensures DeleteChar(s, c) == s
  {
    if s != [] {
      DeleteCharAbsent(s[1..], c);
    }
  }

  // ---------------------------------------------------------------------------
  // split()

  /** Length of the run of non-whitespace characters that starts `s`. */
  function SpanWord(s: string): (k: nat)
    ensures k <= |s| && NoSpace(s[..k])
    ensures k < |s| ==> IsSpace(s[k])
  {
    if s == [] || IsSpace(s[0]) then 0 else 1 + SpanWord(s[1..])
  }

  /** Python's `str.split()` with no separator: the maximal runs of non-whitespace, in order. */
  function Words(s: string): (ws: seq<string>)
    ensures forall k :: 0 <= k < |ws| ==> ws[k] != [] && NoSpace(ws[k])
    decreases |s|
  {
    if s == [] then []
    else if IsSpace(s[0]) then Words(s[1..])
    else
      var k := SpanWord(s);
      [s[..k]] + Words(s[k..])
  }

  /** The words joined with single spaces: the text that `split()` takes apart again. */
  function Unwords(ws: seq<string>): string {
    if ws == [] then [] else if |ws| == 1 then ws[0] else ws[0] + " " + Unwords(ws[1..])
  }

  /** A run without whitespace, followed by whitespace or nothing, is the first word's span. */
  lemma {:induction false} SpanWordOf(w: string, rest: string)
    requires NoSpace(w)
    requires rest == [] || IsSpace(rest[0])
    ensures SpanWord(w + rest) == |w|
  {
    if w != [] {
      assert (w + rest)[1..] == w[1..] + rest;
      SpanWordOf(w[1..], rest);
    } else {
      assert w + rest == rest;
    }
  }

  /** `split()` cuts a space-joined text back into exactly the words it was joined from. */
  lemma {:induction false} WordsUnwords(ws: seq<string>)
    requires forall k :: 0 <= k < |ws| ==> ws[k] != [] && NoSpace(ws[k])
    ensures Words(Unwords(ws)) == ws
  {
    if ws != [] {
      var w := ws[0];
      var rest := if |ws| == 1 then [] else " " + Unwords(ws[1..]);
      assert Unwords(ws) == w + rest;
      SpanWordOf(w, rest);
      var s := w + rest;
      assert s[..|w|] == w && s[|w|..] == rest;
      assert Words(s) == [w] + Words(rest);
      if |ws| > 1 {
        WordsUnwords(ws[1..]);
        assert rest[1..] == Unwords(ws[1..]);
        assert Words(rest) == Words(rest[1..]);
        assert ws == [w] + ws[1..];
      }
    }
  }

  /**
   * Reference count of words: a character scan that counts every
   * non-whitespace character that begins the text or follows whitespace.
   */
  function WordStarts(s: string, inWord: bool): nat {
    if s == [] then 0
    else (if !IsSpace(s[0]) && !inWord then 1 else 0) + WordStarts(s[1..], !IsSpace(s[0]))
  }

  /** `len(s.split())` agrees with the character scan. */
  lemma {:induction false} WordsCount(s: string)
    ensures |Words(s)| == WordStarts(s, false)
    decreases |s|
  {
    if s != [] {
      if IsSpace(s[0]) {
        WordsCount(s[1..]);
      } else {
        var k := SpanWord(s);
        WordsCount(s[k..]);
        WordStartsInWord(s, k);
      }
    }
  }

  /** Inside a word of length `k`, the scan counts one start and then continues after it. */
  lemma {:induction false} WordStartsInWord(s: string, k: nat)
    requires 1 <= k <= |s| && NoSpace(s[..k])
    requires k < |s| ==> IsSpace(s[k])
    ensures WordStarts(s, false) == 1 + WordStarts(s[k..], false)
  {
    WordStartsTail(s[1..], k - 1);
  }

  lemma {:induction false} WordStartsTail(s: string, k: nat)
    requires k <= |s| && NoSpace(s[..k])
    requires k < |s| ==> IsSpace(s[k])
    ensures WordStarts(s, true) == WordStarts(s[k..], false)
    decreases k
  {
    if k > 0 {
      WordStartsTail(s[1..], k - 1);
      assert s[1..][k - 1..] == s[k..];
    }
  }

  function Concat(ws: seq<string>): string {
    if ws == [] then [] else ws[0] + Concat(ws[1..])
  }

  function RemoveSpaces(s: string): string {
    if s == [] then [] else (if IsSpace(s[0]) then [] else [s[0]]) + RemoveSpaces(s[1..])
  }

  /** The words of `s`, put back together, are exactly its non-whitespace characters. */
  lemma {:induction false} WordsConcat(s: string)
    ensures Concat(Words(s)) == RemoveSpaces(s)
    decreases |s|
  {
    if s != [] {
      if IsSpace(s[0]) {
        WordsConcat(s[1..]);
      } else {
        var k := SpanWord(s);
        WordsConcat(s[k..]);
        assert s == s[..k] + s[k..];
        RemoveSpacesAppend(s[..k], s[k..]);
        RemoveSpacesNone(s[..k]);
        assert Words(s)[1..] == Words(s[k..]);
      }
    }
  }

  lemma {:induction false} RemoveSpacesAppend(a: string, b: string)
    ensures RemoveSpaces(a + b) == RemoveSpaces(a) + RemoveSpaces(b)
  {
    if a != [] {
      assert (a + b)[1..] == a[1..] + b;
      RemoveSpacesAppend(a[1..], b);
    } else {
      assert a + b == b;
    }
  }

  lemma {:induction false} RemoveSpacesNone(a: string)
    requires NoSpace(a)
    ensures RemoveSpaces(a) == a
  {
    if a != [] {
      RemoveSpacesNone(a[1..]);
    }
  }

  // ---------------------------------------------------------------------------
  // lower() and substring tests

  /** `str.lower()` on one character, restricted to the ASCII letters. */
  function LowerChar(c: char): char {
    if 'A' <= c <= 'Z' then (c as int + 32) as char else c
  }

  function Lower(s: string): (r: string)
    ensures |r| == |s| && forall k :: 0 <= k < |s| ==> r[k] == LowerChar(s[k])
  {
    seq(|s|, k requires 0 <= k < |s| => LowerChar(s[k]))
  }

  predicate StartsWith(s: string, prefix: string) {
    |prefix| <= |s| && s[..|prefix|] == prefix
  }

  /** Python's `w in text` on two strings, scanning `text` from the left. */
  predicate Contains(text: string, w: string) {
    StartsWith(text, w) || (text != [] && Contains(text[1..], w))
  }

  /** `w` occurs in `text` at offset `i`. */
  predicate OccursAt(text: string, w: string, i: int) {
    0 <= i <= |text| - |w| && text[i..i + |w|] == w
  }

  /** The scan finds `w` exactly when `w` occurs at some offset of `text`. */
  lemma {:induction false} ContainsAt(text: string, w: string)
    ensures Contains(text, w) <==> exists i :: OccursAt(text, w, i)
  {
    if StartsWith(text, w) {
      assert OccursAt(text, w, 0);
    } else if text != [] {
      ContainsAt(text[1..], w);
      if Contains(text[1..], w) {
        var i :| OccursAt(text[1..], w, i);
        assert text[i + 1..i + 1 + |w|] == text[1..][i..i + |w|];
        assert OccursAt(text, w, i + 1);
      }
      if i :| OccursAt(text, w, i) && i > 0 {
        assert text[1..][i - 1..i - 1 + |w|] == text[i..i + |w|];
        assert OccursAt(text[1..], w, i - 1);
      }
    }
  }

  // ---------------------------------------------------------------------------
  // str(n)

  /** `str(n)` for a natural number: decimal digits, most significant first. */
  function NatToString(n: nat): (s: string)
    ensures s != [] && AllDigits(s)
    ensures s[0] == '0' ==> n == 0
  {
    if n < 10 then [DigitChar(n)] else NatToString(n / 10) + [DigitChar(n % 10)]
  }

  /** The value of a string of decimal digits, as `int(s)` reads it. */
  function DigitsValue(s: string): nat
    requires AllDigits(s)
  {
    if s == [] then 0 else 10 * DigitsValue(s[..|s| - 1]) + DigitValue(s[|s| - 1])
  }

  /** Reading back `str(n)` gives `n`. */
  lemma {:induction false} NatToStringValue(n: nat)
    ensures DigitsValue(NatToString(n)) == n
  {
    if n >= 10 {
      NatToStringValue(n / 10);
      var s := NatToString(n);
      assert s[..|s| - 1] == NatToString(n / 10);
    }
  }

  /** Different numbers are printed differently. */
  lemma NatToStringInjective(a: nat, b: nat)
    requires a != b
    ensures NatToString(a) != NatToString(b)
  {
    NatToStringValue(a);
    NatToStringValue(b);
  }
}
