/**
 * The string operations the modelled code calls: ASCII `toLowerCase`, `replace` with a global
 * `[...]+` pattern, `trim`, `split`, and the decimal rendering of integers in template literals.
 */
module Text {
  import opened Wrappers

  /**
   * The characters JavaScript's `\s` and `String.prototype.trim` treat as white space: the
   * ECMAScript WhiteSpace (tab, vertical tab, form feed, the byte order mark and the Unicode
   * space separators) and LineTerminator characters.
   */
  predicate IsJsSpace(c: char) {
    c == ' ' || c == '\t' || c == '\n' || c == '\r' || c == '\U{000B}' || c == '\U{000C}' ||
    c == '\U{00A0}' || c == '\U{1680}' || ('\U{2000}' <= c <= '\U{200A}') ||
    c == '\U{2028}' || c == '\U{2029}' || c == '\U{202F}' || c == '\U{205F}' ||
    c == '\U{3000}' || c == '\U{FEFF}'
  }

  /** `toLowerCase` on one character, restricted to ASCII: `A`-`Z` become `a`-`z`, all else is kept. */
  function LowerChar(c: char): char {
    if 'A' <= c <= 'Z' then (c as int + 32) as char else c
  }

  /** `toLowerCase` on a string (ASCII letters only). */
  function Lower(s: string): string {
    seq(|s|, i requires 0 <= i < |s| => LowerChar(s[i]))
  }

  /** `s` without its leading characters that satisfy `p`. */
  function DropWhile(s: string, p: char -> bool): (r: string)
    ensures |r| <= |s| && r == s[|s| - |r|..]
    ensures |r| == 0 || !p(r[0])
    ensures forall i :: 0 <= i < |s| - |r| ==> p(s[i])
    ensures |s| > 0 && p(s[0]) ==> |r| < |s|
  {
    if |s| > 0 && p(s[0]) then DropWhile(s[1..], p) else s
  }

  /**
   * Every maximal run of characters satisfying `inRun` replaced by the one character `sub`:
   * `s.replace(/[...]+/g, sub)` where `[...]` is the class `inRun`.
   */
  function ReplaceRuns(s: string, inRun: char -> bool, sub: char): string
    decreases |s|
  {
    if |s| == 0 then []
    else if inRun(s[0]) then [sub] + ReplaceRuns(DropWhile(s, inRun), inRun, sub)
    else [s[0]] + ReplaceRuns(s[1..], inRun, sub)
  }

  /** The replacement starts with `sub` exactly when the input starts with a run. */
  lemma ReplaceRunsHead(s: string, inRun: char -> bool, sub: char)
    requires |s| > 0
    ensures |ReplaceRuns(s, inRun, sub)| > 0
    ensures ReplaceRuns(s, inRun, sub)[0] == if inRun(s[0]) then sub else s[0]
  {
  }

  /** Every character of `r` is `sub` or a character of `s` outside the class. */
  predicate FromAlphabet(r: string, s: string, inRun: char -> bool, sub: char) {
    forall i :: 0 <= i < |r| ==> r[i] == sub || (!inRun(r[i]) && r[i] in s)
  }

  /** The alphabet of a suffix is part of the alphabet of the whole string. */
  lemma FromAlphabetCons(head: char, r: string, rest: string, s: string, inRun: char -> bool, sub: char)
    requires |rest| <= |s| && rest == s[|s| - |rest|..]
    requires FromAlphabet(r, rest, inRun, sub)
    requires head == sub || (!inRun(head) && head in s)
    ensures FromAlphabet([head] + r, s, inRun, sub)
  {
    forall i | 0 <= i < |[head] + r|
      ensures ([head] + r)[i] == sub || (!inRun(([head] + r)[i]) && ([head] + r)[i] in s)
    {
      if i > 0 {
        var c := r[i - 1];
        assert ([head] + r)[i] == c;
        if c != sub {
          var j :| 0 <= j < |rest| && rest[j] == c;
          assert s[|s| - |rest| + j] == c;
        }
      }
    }
  }

  /** Every output character is `sub` or a character of the input outside the class. */
  lemma {:induction false} ReplaceRunsAlphabet(s: string, inRun: char -> bool, sub: char)
    ensures FromAlphabet(ReplaceRuns(s, inRun, sub), s, inRun, sub)
    decreases |s|
  {
    if |s| > 0 {
      var rest := if inRun(s[0]) then DropWhile(s, inRun) else s[1..];
      var head := if inRun(s[0]) then sub else s[0];
      assert ReplaceRuns(s, inRun, sub) == [head] + ReplaceRuns(rest, inRun, sub);
      ReplaceRunsAlphabet(rest, inRun, sub);
      FromAlphabetCons(head, ReplaceRuns(rest, inRun, sub), rest, s, inRun, sub);
    }
  }

  /** When `sub` itself belongs to the class, the output never holds two `sub` in a row. */
  lemma {:induction false} ReplaceRunsNoRepeat(s: string, inRun: char -> bool, sub: char)
    requires inRun(sub)
    ensures forall i :: 0 <= i < |ReplaceRuns(s, inRun, sub)| - 1 ==>
      !(ReplaceRuns(s, inRun, sub)[i] == sub && ReplaceRuns(s, inRun, sub)[i + 1] == sub)
    decreases |s|
  {
    if |s| > 0 {
      if inRun(s[0]) {
        var rest := DropWhile(s, inRun);
        ReplaceRunsNoRepeat(rest, inRun, sub);
        if |rest| > 0 {
          ReplaceRunsHead(rest, inRun, sub);
        }
      } else {
        ReplaceRunsNoRepeat(s[1..], inRun, sub);
      }
    }
  }

  /**
   * An input whose only class characters are single, non-adjacent occurrences of `sub` is left
   * unchanged.
   */
  lemma {:induction false} ReplaceRunsFixpoint(s: string, inRun: char -> bool, sub: char)
    requires forall i :: 0 <= i < |s| && inRun(s[i]) ==> s[i] == sub
    requires forall i :: 0 <= i < |s| - 1 ==> !(s[i] == sub && s[i + 1] == sub)
    ensures ReplaceRuns(s, inRun, sub) == s
    decreases |s|
  {
    if |s| > 0 {
      ReplaceRunsFixpoint(s[1..], inRun, sub);
      if inRun(s[0]) {
        assert |s| > 1 ==> !inRun(s[1]);
        assert DropWhile(s, inRun) == s[1..];
      }
    }
  }

  /** Splitting off the first element of the left operand of a concatenation. */
  lemma ConsAppend<T>(s: seq<T>, u: seq<T>)
    requires |s| > 0
    ensures [s[0]] + (s[1..] + u) == s + u
  {
    assert s == [s[0]] + s[1..];
  }

  /** A character outside the class is copied through. */
  lemma ReplaceRunsCons(c: char, w: string, inRun: char -> bool, sub: char)
    requires !inRun(c)
    ensures ReplaceRuns([c] + w, inRun, sub) == [c] + ReplaceRuns(w, inRun, sub)
  {
    assert ([c] + w)[1..] == w;
  }

  /** A stretch without class characters is copied through. */
  lemma {:induction false} ReplaceRunsKeep(s: string, t: string, inRun: char -> bool, sub: char)
    requires forall i :: 0 <= i < |s| ==> !inRun(s[i])
    ensures ReplaceRuns(s + t, inRun, sub) == s + ReplaceRuns(t, inRun, sub)
  {
    if |s| > 0 {
      var tail := s[1..];
      ConsAppend(s, t);
      ReplaceRunsCons(s[0], tail + t, inRun, sub);
      ReplaceRunsKeep(tail, t, inRun, sub);
      ConsAppend(s, ReplaceRuns(t, inRun, sub));
    } else {
      assert s + t == t;
    }
  }

  /** A single class character before a non-class character (or the end) becomes `sub`. */
  lemma ReplaceRunsSingle(c: char, t: string, inRun: char -> bool, sub: char)
    requires inRun(c)
    requires |t| == 0 || !inRun(t[0])
    ensures ReplaceRuns([c] + t, inRun, sub) == [sub] + ReplaceRuns(t, inRun, sub)
  {
    assert ([c] + t)[1..] == t;
    assert DropWhile([c] + t, inRun) == t;
  }

  /** A word, one class character, then text that does not start with a class character. */
  lemma ReplaceRunsJoin(a: string, c: char, b: string, inRun: char -> bool, sub: char)
    requires forall i :: 0 <= i < |a| ==> !inRun(a[i])
    requires inRun(c)
    requires |b| == 0 || !inRun(b[0])
    ensures ReplaceRuns(a + ([c] + b), inRun, sub) == a + ([sub] + ReplaceRuns(b, inRun, sub))
  {
    ReplaceRunsKeep(a, [c] + b, inRun, sub);
    ReplaceRunsSingle(c, b, inRun, sub);
  }

  /** A word without class characters is left as it is. */
  lemma ReplaceRunsWord(a: string, inRun: char -> bool, sub: char)
    requires forall i :: 0 <= i < |a| ==> !inRun(a[i])
    ensures ReplaceRuns(a, inRun, sub) == a
  {
    ReplaceRunsKeep(a, "", inRun, sub);
    assert a + "" == a;
  }

  /** `s` without its trailing characters that satisfy `p`. */
  function DropWhileEnd(s: string, p: char -> bool): (r: string)
    ensures |r| <= |s| && r == s[..|r|]
    ensures |r| == 0 || !p(r[|r| - 1])
    ensures forall i :: |r| <= i < |s| ==> p(s[i])
  {
    if |s| > 0 && p(s[|s| - 1]) then DropWhileEnd(s[..|s| - 1], p) else s
  }

  /** `String.prototype.trim`. */
  function Trim(s: string): string {
    DropWhileEnd(DropWhile(s, IsJsSpace), IsJsSpace)
  }

  /** `s` consists of white space only (the empty string included). */
  ghost predicate IsBlank(s: string) {
    forall i :: 0 <= i < |s| ==> IsJsSpace(s[i])
  }

  /** Trimming leaves nothing exactly when the string is blank. */
  lemma TrimEmptyIffBlank(s: string)
    ensures |Trim(s)| == 0 <==> IsBlank(s)
  {
    var t := DropWhile(s, IsJsSpace);
    if |t| > 0 {
      assert !IsJsSpace(t[0]) && t[0] == s[|s| - |t|];
      assert DropWhileEnd(t, IsJsSpace)[0] == t[0];
    }
  }

  /** `t` occurs in `s` starting at position `i`. */
  predicate OccursAt(s: string, t: string, i: nat) {
    i + |t| <= |s| && s[i..i + |t|] == t
  }

  /** An occurrence stays one when text is added on either side. */
  lemma OccursWithin(a: string, s: string, b: string, t: string, i: nat)
    requires OccursAt(s, t, i)
    ensures OccursAt(a + s + b, t, |a| + i)
  {
    assert (a + s + b)[|a| + i..|a| + i + |t|] == s[i..i + |t|];
  }

  /** `t` is a substring of `s` (`s.includes(t)`). */
  ghost predicate Contains(s: string, t: string) {
    exists i: nat :: OccursAt(s, t, i)
  }

  /** The first position at or after `from` where `t` occurs in `s` (`s.indexOf(t, from)`). */
  function IndexOf(s: string, t: string, from: nat): (r: Option<nat>)
    ensures r.Some? ==>
      from <= r.value && OccursAt(s, t, r.value) &&
      forall j: nat :: from <= j < r.value ==> !OccursAt(s, t, j)
    ensures r.None? ==> forall j: nat :: from <= j ==> !OccursAt(s, t, j)
    decreases |s| - from
  {
    if from + |t| > |s| then None
    else if OccursAt(s, t, from) then Some(from)
    else IndexOf(s, t, from + 1)
  }

  /** `s.split(sep)` for a non-empty separator: the pieces between leftmost non-overlapping occurrences. */
  function Split(s: string, sep: string): (r: seq<string>)
    requires |sep| > 0
    ensures |r| > 0
    decreases |s|
  {
    match IndexOf(s, sep, 0)
    case None => [s]
    case Some(i) => [s[..i]] + Split(s[i + |sep|..], sep)
  }

  /** `parts.join(sep)`. */
  function Join(parts: seq<string>, sep: string): string {
    if |parts| == 0 then []
    else if |parts| == 1 then parts[0]
    else parts[0] + sep + Join(parts[1..], sep)
  }

  /** Joining the pieces with the separator gives back the string. */
  lemma {:induction false} JoinSplit(s: string, sep: string)
    requires |sep| > 0
    ensures Join(Split(s, sep), sep) == s
    decreases |s|
  {
    match IndexOf(s, sep, 0)
    case None =>
    case Some(i) =>
      var rest := s[i + |sep|..];
      JoinSplit(rest, sep);
      assert s[i..i + |sep|] == sep;
      assert s == s[..i] + sep + rest;
  }

  /** No piece contains the separator. */
  lemma {:induction false} SplitPiecesFree(s: string, sep: string)
    requires |sep| > 0
    ensures forall k :: 0 <= k < |Split(s, sep)| ==> !Contains(Split(s, sep)[k], sep)
    decreases |s|
  {
    match IndexOf(s, sep, 0)
    case None =>
      assert forall j: nat :: !OccursAt(s, sep, j);
    case Some(i) =>
      SplitPiecesFree(s[i + |sep|..], sep);
      var piece := s[..i];
      forall j: nat | OccursAt(piece, sep, j)
        ensures false
      {
        assert piece[j..j + |sep|] == s[j..j + |sep|];
        assert OccursAt(s, sep, j);
      }
  }

  /** The pieces of a blank string are blank. */
  lemma {:induction false} SplitBlank(s: string, sep: string)
    requires |sep| > 0
    requires IsBlank(s)
    ensures forall k :: 0 <= k < |Split(s, sep)| ==> IsBlank(Split(s, sep)[k])
    decreases |s|
  {
    match IndexOf(s, sep, 0)
    case None =>
    case Some(i) =>
      var rest := s[i + |sep|..];
      assert forall j :: 0 <= j < |rest| ==> rest[j] == s[i + |sep| + j];
      SplitBlank(rest, sep);
      assert forall j :: 0 <= j < i ==> s[..i][j] == s[j];
      assert Split(s, sep) == [s[..i]] + Split(rest, sep);
  }

  /** A string without the separator is one piece. */
  lemma SplitWithoutSeparator(s: string, sep: string)
    requires |sep| > 0
    requires !Contains(s, sep)
    ensures Split(s, sep) == [s]
  {
  }

  /** The digit character for `d`. */
  function DigitChar(d: nat): char
    requires d < 10
  {
    (d + '0' as int) as char
  }

  /** The decimal rendering of a natural number, without leading zeros (as `${n}`). */
  function NatToDecimal(n: nat): (r: string)
    ensures |r| > 0
    ensures forall i :: 0 <= i < |r| ==> '0' <= r[i] <= '9'
    ensures |r| > 1 ==> r[0] != '0'
    decreases n
  {
    if n < 10 then [DigitChar(n)] else NatToDecimal(n / 10) + [DigitChar(n % 10)]
  }

  /** The value of a string of decimal digits. */
  function DecimalValue(s: string): nat
    requires forall i :: 0 <= i < |s| ==> '0' <= s[i] <= '9'
  {
    if |s| == 0 then 0
    else DecimalValue(s[..|s| - 1]) * 10 + (s[|s| - 1] as int - '0' as int)
  }

  /** Reading the rendering back gives the number. */
  lemma {:induction false} DecimalRoundTrip(n: nat)
    ensures DecimalValue(NatToDecimal(n)) == n
    decreases n
  {
    if n >= 10 {
      DecimalRoundTrip(n / 10);
      var r := NatToDecimal(n);
      assert r[..|r| - 1] == NatToDecimal(n / 10);
    }
  }

  /** The decimal rendering of an integer, with a leading `-` when negative. */
  function IntToDecimal(i: int): string {
    if i < 0 then "-" + NatToDecimal(-i) else NatToDecimal(i)
  }
}
