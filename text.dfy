/**
 * Character classes, scanners and string helpers shared by the recognizers
 * and the annotator.
 *
 * The character classes follow java.util.regex without
 * UNICODE_CHARACTER_CLASS: `\s`, `\d` and `\w` are ASCII sets, `.` stops at
 * the five line terminators, and `$` (without MULTILINE) also matches just
 * before a final line terminator.  The Kotlin helpers (`trim`, `split`,
 * `indexOf`, `startsWith`, `contains`) follow the Kotlin standard library on
 * the JVM.
 *
 * Every scanner `SkipX(s, i)` returns the end of the longest run of class-X
 * characters starting at `i`.  Its own contract only bounds the result; the
 * facts about the run are the lemmas in this module, so that the scanners
 * still evaluate on literal strings.
 */
module Text {

  datatype Option<T> = None | Some(value: T)

  // ---------------------------------------------------------------------
  // Character classes

  /** `\s`: space, tab, newline, vertical tab, form feed, carriage return. */
  predicate IsSpace(c: char) {
    c == ' ' || c == '\t' || c == '\n' || c == '\U{000B}' || c == '\U{000C}' || c == '\r'
  }

  /** `\d` */
  predicate IsDigit(c: char) { '0' <= c <= '9' }

  predicate IsUpper(c: char) { 'A' <= c <= 'Z' }

  /** `[A-Za-z]` */
  predicate IsLetter(c: char) { 'a' <= c <= 'z' || 'A' <= c <= 'Z' }

  /** `\w`, and the characters `\b` treats as word characters. */
  predicate IsWordChar(c: char) { IsLetter(c) || IsDigit(c) || c == '_' }

  /** `[A-Za-z0-9_,]`, the characters of a URI query variable list. */
  predicate IsQueryChar(c: char) { IsWordChar(c) || c == ',' }

  /** The characters `.` does not match and before which `$` may match. */
  predicate IsLineTerminator(c: char) {
    c == '\n' || c == '\r' || c == '\U{0085}' || c == '\U{2028}' || c == '\U{2029}'
  }

  /** Kotlin's `Char.isWhitespace` on the JVM: `Character.isWhitespace` or `Character.isSpaceChar`. */
  predicate IsKotlinWhitespace(c: char) {
    c == '\t' || c == '\n' || c == '\U{000B}' || c == '\U{000C}' || c == '\r'
    || ('\U{001C}' <= c <= '\U{001F}')
    || c == ' ' || c == '\U{00A0}' || c == '\U{1680}'
    || ('\U{2000}' <= c <= '\U{200A}')
    || c == '\U{2028}' || c == '\U{2029}' || c == '\U{202F}' || c == '\U{205F}' || c == '\U{3000}'
  }

  /** ASCII case folding, the only folding this model gives IGNORE_CASE. */
  function Lower(c: char): (d: char)
    ensures IsUpper(c) ==> IsLetter(d) && !IsUpper(d)
    ensures !IsUpper(c) ==> d == c
  {
    if 'A' <= c <= 'Z' then (c as int + 32) as char else c
  }

  // ---------------------------------------------------------------------
  // Scanners (greedy runs)

  function SkipWs(s: string, i: nat): (j: nat)
    requires i <= |s|
    ensures i <= j <= |s|
    decreases |s| - i
  {
    if i == |s| || !IsSpace(s[i]) then i else SkipWs(s, i + 1)
  }

  /** `\S+`'s run. */
  function SkipNonWs(s: string, i: nat): (j: nat)
    requires i <= |s|
    ensures i <= j <= |s|
    decreases |s| - i
  {
    if i == |s| || IsSpace(s[i]) then i else SkipNonWs(s, i + 1)
  }

  function SkipDigits(s: string, i: nat): (j: nat)
    requires i <= |s|
    ensures i <= j <= |s|
    decreases |s| - i
  {
    if i == |s| || !IsDigit(s[i]) then i else SkipDigits(s, i + 1)
  }

  function SkipWord(s: string, i: nat): (j: nat)
    requires i <= |s|
    ensures i <= j <= |s|
    decreases |s| - i
  {
    if i == |s| || !IsWordChar(s[i]) then i else SkipWord(s, i + 1)
  }

  function SkipUpper(s: string, i: nat): (j: nat)
    requires i <= |s|
    ensures i <= j <= |s|
    decreases |s| - i
  {
    if i == |s| || !IsUpper(s[i]) then i else SkipUpper(s, i + 1)
  }

  function SkipQuery(s: string, i: nat): (j: nat)
    requires i <= |s|
    ensures i <= j <= |s|
    decreases |s| - i
  {
    if i == |s| || !IsQueryChar(s[i]) then i else SkipQuery(s, i + 1)
  }

  function SkipHashes(s: string, i: nat): (j: nat)
    requires i <= |s|
    ensures i <= j <= |s|
    decreases |s| - i
  {
    if i == |s| || s[i] != '#' then i else SkipHashes(s, i + 1)
  }

  /** The run `.*` can cover: every character up to the next line terminator. */
  function SkipLine(s: string, i: nat): (j: nat)
    requires i <= |s|
    ensures i <= j <= |s|
    decreases |s| - i
  {
    if i == |s| || IsLineTerminator(s[i]) then i else SkipLine(s, i + 1)
  }

  /** The run of `[^c]`: the first `c` at or after `i`, or `|s|`. */
  function SkipTo(s: string, i: nat, c: char): (j: nat)
    requires i <= |s|
    ensures i <= j <= |s|
    decreases |s| - i
  {
    if i == |s| || s[i] == c then i else SkipTo(s, i + 1, c)
  }

  /** The run of `[^ab]`. */
  function SkipToEither(s: string, i: nat, a: char, b: char): (j: nat)
    requires i <= |s|
    ensures i <= j <= |s|
    decreases |s| - i
  {
    if i == |s| || s[i] == a || s[i] == b then i else SkipToEither(s, i + 1, a, b)
  }

  function SkipKotlinWs(s: string, i: nat): (j: nat)
    requires i <= |s|
    ensures i <= j <= |s|
    decreases |s| - i
  {
    if i == |s| || !IsKotlinWhitespace(s[i]) then i else SkipKotlinWs(s, i + 1)
  }

  // ---------------------------------------------------------------------
  // What the scanners promise

  lemma {:induction false} SkipWsRun(s: string, i: nat)
    requires i <= |s|
    ensures forall t :: i <= t < SkipWs(s, i) ==> IsSpace(s[t])
    ensures SkipWs(s, i) == |s| || !IsSpace(s[SkipWs(s, i)])
    decreases |s| - i
  {
    if i < |s| && IsSpace(s[i]) { SkipWsRun(s, i + 1); }
  }

  /** A run of whitespace ends where the run starting inside it ends. */
  lemma {:induction false} SkipWsInside(s: string, i: nat, k: nat)
    requires i <= |s| && i <= k <= SkipWs(s, i)
    ensures SkipWs(s, k) == SkipWs(s, i)
    decreases k - i
  {
    if i < k { SkipWsInside(s, i + 1, k); }
  }

  lemma {:induction false} SkipLineRun(s: string, i: nat)
    requires i <= |s|
    ensures forall t :: i <= t < SkipLine(s, i) ==> !IsLineTerminator(s[t])
    ensures SkipLine(s, i) == |s| || IsLineTerminator(s[SkipLine(s, i)])
    decreases |s| - i
  {
    if i < |s| && !IsLineTerminator(s[i]) { SkipLineRun(s, i + 1); }
  }

  lemma {:induction false} SkipToRun(s: string, i: nat, c: char)
    requires i <= |s|
    ensures forall t :: i <= t < SkipTo(s, i, c) ==> s[t] != c
    ensures SkipTo(s, i, c) == |s| || s[SkipTo(s, i, c)] == c
    decreases |s| - i
  {
    if i < |s| && s[i] != c { SkipToRun(s, i + 1, c); }
  }

  lemma {:induction false} SkipWordRun(s: string, i: nat)
    requires i <= |s|
    ensures forall t :: i <= t < SkipWord(s, i) ==> IsWordChar(s[t])
    ensures SkipWord(s, i) == |s| || !IsWordChar(s[SkipWord(s, i)])
    decreases |s| - i
  {
    if i < |s| && IsWordChar(s[i]) { SkipWordRun(s, i + 1); }
  }

  lemma {:induction false} SkipUpperRun(s: string, i: nat)
    requires i <= |s|
    ensures forall t :: i <= t < SkipUpper(s, i) ==> IsUpper(s[t])
    ensures SkipUpper(s, i) == |s| || !IsUpper(s[SkipUpper(s, i)])
    decreases |s| - i
  {
    if i < |s| && IsUpper(s[i]) { SkipUpperRun(s, i + 1); }
  }

  lemma {:induction false} SkipQueryRun(s: string, i: nat)
    requires i <= |s|
    ensures forall t :: i <= t < SkipQuery(s, i) ==> IsQueryChar(s[t])
    ensures SkipQuery(s, i) == |s| || !IsQueryChar(s[SkipQuery(s, i)])
    decreases |s| - i
  {
    if i < |s| && IsQueryChar(s[i]) { SkipQueryRun(s, i + 1); }
  }

  lemma {:induction false} SkipDigitsRun(s: string, i: nat)
    requires i <= |s|
    ensures forall t :: i <= t < SkipDigits(s, i) ==> IsDigit(s[t])
    ensures SkipDigits(s, i) == |s| || !IsDigit(s[SkipDigits(s, i)])
    decreases |s| - i
  {
    if i < |s| && IsDigit(s[i]) { SkipDigitsRun(s, i + 1); }
  }

  lemma {:induction false} SkipKotlinWsRun(s: string, i: nat)
    requires i <= |s|
    ensures forall t :: i <= t < SkipKotlinWs(s, i) ==> IsKotlinWhitespace(s[t])
    ensures SkipKotlinWs(s, i) == |s| || !IsKotlinWhitespace(s[SkipKotlinWs(s, i)])
    decreases |s| - i
  {
    if i < |s| && IsKotlinWhitespace(s[i]) { SkipKotlinWsRun(s, i + 1); }
  }

  // ---------------------------------------------------------------------
  // Literals, word boundaries and line ends

  /** Case-insensitive literal: `kw` (written in lower case) occurs at `i`. */
  predicate KeywordAt(s: string, i: nat, kw: string) {
    i + |kw| <= |s| && forall k :: 0 <= k < |kw| ==> Lower(s[i + k]) == kw[k]
  }

  /** Case-sensitive literal. */
  predicate LiteralAt(s: string, i: nat, lit: string) {
    i + |lit| <= |s| && s[i..i + |lit|] == lit
  }

  predicate CharAt(s: string, i: nat, c: char) { i < |s| && s[i] == c }

  predicate IsWordAt(s: string, i: int) { 0 <= i < |s| && IsWordChar(s[i]) }

  /** `\b` at position `i`: exactly one side of `i` is a word character. */
  predicate BoundaryAt(s: string, i: nat) { IsWordAt(s, i - 1) != IsWordAt(s, i) }

  /** `$` without MULTILINE at position `i`. */
  predicate AtLineEnd(s: string, i: nat) {
    i == |s|
    || (i + 1 == |s| && IsLineTerminator(s[i]) && !(s[i] == '\n' && i > 0 && s[i - 1] == '\r'))
    || (i + 2 == |s| && s[i] == '\r' && s[i + 1] == '\n')
  }

  /**
   * `\s*$` matches at `i`.  `$` can only hold within two characters of the
   * end, so only the last three stopping points of the greedy `\s*` need
   * to be tried.
   */
  predicate WsToLineEnd(s: string, i: nat)
    requires i <= |s|
  {
    var w := SkipWs(s, i);
    AtLineEnd(s, w) || (i < w && AtLineEnd(s, w - 1)) || (i + 1 < w && AtLineEnd(s, w - 2))
  }

  lemma WsToLineEndExists(s: string, i: nat)
    requires i <= |s|
    ensures WsToLineEnd(s, i) <==> exists k :: i <= k <= SkipWs(s, i) && AtLineEnd(s, k)
  {
    var w := SkipWs(s, i);
    if k :| i <= k <= w && AtLineEnd(s, k) {
      assert k == w || k == w - 1 || k == w - 2;
    }
  }

  // ---------------------------------------------------------------------
  // Kotlin string functions

  predicate ContainsChar(s: string, c: char) { exists k :: 0 <= k < |s| && s[k] == c }

  predicate StartsWith(s: string, prefix: string) { |prefix| <= |s| && s[..|prefix|] == prefix }

  /** The end of `s[lo..j]` once trailing Kotlin whitespace is dropped. */
  function TrimEndFrom(s: string, lo: nat, j: nat): (b: nat)
    requires lo <= j <= |s|
    ensures lo <= b <= j
    decreases j
  {
    if j > lo && IsKotlinWhitespace(s[j - 1]) then TrimEndFrom(s, lo, j - 1) else j
  }

  /** Kotlin `String.trim()`. */
  function Trim(s: string): (r: string)
    ensures |r| <= |s|
  {
    var a := SkipKotlinWs(s, 0);
    s[a..TrimEndFrom(s, a, |s|)]
  }

  /** Kotlin `s.trim().isEmpty()`. */
  predicate IsBlank(s: string) { Trim(s) == [] }

  lemma {:induction false} TrimEndFromRun(s: string, lo: nat, j: nat)
    requires lo <= j <= |s|
    ensures forall t :: TrimEndFrom(s, lo, j) <= t < j ==> IsKotlinWhitespace(s[t])
    ensures TrimEndFrom(s, lo, j) == lo || !IsKotlinWhitespace(s[TrimEndFrom(s, lo, j) - 1])
    decreases j
  {
    if j > lo && IsKotlinWhitespace(s[j - 1]) { TrimEndFromRun(s, lo, j - 1); }
  }

  /**
   * `trim` removes exactly the leading and trailing whitespace: the result
   * is a slice of `s`, everything outside it is whitespace, and the result
   * neither starts nor ends with whitespace.
   */
  lemma TrimSpec(s: string)
    ensures exists a: nat, b: nat ::
              && a <= b <= |s| && Trim(s) == s[a..b]
              && (forall t :: 0 <= t < a ==> IsKotlinWhitespace(s[t]))
              && (forall t :: b <= t < |s| ==> IsKotlinWhitespace(s[t]))
    ensures Trim(s) != [] ==> !IsKotlinWhitespace(Trim(s)[0]) && !IsKotlinWhitespace(Trim(s)[|Trim(s)| - 1])
  {
    var a := SkipKotlinWs(s, 0);
    var b := TrimEndFrom(s, a, |s|);
    SkipKotlinWsRun(s, 0);
    TrimEndFromRun(s, a, |s|);
    assert Trim(s) == s[a..b];
  }

  /** A string is blank exactly when every character is whitespace. */
  lemma {:induction false} BlankIffAllWhitespace(s: string)
    ensures IsBlank(s) <==> forall t :: 0 <= t < |s| ==> IsKotlinWhitespace(s[t])
  {
    var a := SkipKotlinWs(s, 0);
    SkipKotlinWsRun(s, 0);
    TrimEndFromRun(s, a, |s|);
    if a < |s| {
      assert !IsKotlinWhitespace(s[a]);
    }
  }

  /** Kotlin `String.split(sep)` with a one-character delimiter and no limit: empty pieces are kept. */
  function Split(s: string, sep: char): (pieces: seq<string>)
    ensures |pieces| >= 1
    decreases |s|
  {
    var k := SkipTo(s, 0, sep);
    if k == |s| then [s] else [s[..k]] + Split(s[k + 1..], sep)
  }

  /** `joinToString(sep)`, the inverse of `Split`. */
  function Join(pieces: seq<string>, sep: char): string
    decreases |pieces|
  {
    if |pieces| == 0 then [] else if |pieces| == 1 then pieces[0] else pieces[0] + [sep] + Join(pieces[1..], sep)
  }

  /** Splitting and joining again restores the text. */
  lemma {:induction false} JoinSplit(s: string, sep: char)
    ensures Join(Split(s, sep), sep) == s
    decreases |s|
  {
    var k := SkipTo(s, 0, sep);
    SkipToRun(s, 0, sep);
    if k < |s| {
      JoinSplit(s[k + 1..], sep);
      var rest := Split(s[k + 1..], sep);
      assert Split(s, sep) == [s[..k]] + rest;
      assert (Split(s, sep))[1..] == rest;
      assert s == s[..k] + [sep] + s[k + 1..];
    }
  }

  /** No piece of a split contains the delimiter. */
  lemma {:induction false} SplitPiecesFree(s: string, sep: char)
    ensures forall p :: 0 <= p < |Split(s, sep)| ==> !ContainsChar(Split(s, sep)[p], sep)
    decreases |s|
  {
    var k := SkipTo(s, 0, sep);
    SkipToRun(s, 0, sep);
    if k < |s| {
      SplitPiecesFree(s[k + 1..], sep);
      var pieces := Split(s, sep);
      assert pieces == [s[..k]] + Split(s[k + 1..], sep);
      forall p | 0 <= p < |pieces| ensures !ContainsChar(pieces[p], sep) {
        if p > 0 { assert pieces[p] == Split(s[k + 1..], sep)[p - 1]; }
      }
    }
  }

  /** Joining pieces free of the delimiter and splitting again gives the pieces back. */
  lemma {:induction false} SplitJoin(pieces: seq<string>, sep: char)
    requires |pieces| >= 1
    requires forall p :: 0 <= p < |pieces| ==> !ContainsChar(pieces[p], sep)
    ensures Split(Join(pieces, sep), sep) == pieces
    decreases |pieces|
  {
    var s := Join(pieces, sep);
    var head := pieces[0];
    SkipToUpTo(s, head, sep);
    if |pieces| == 1 {
      assert s == head;
    } else {
      SplitJoin(pieces[1..], sep);
      assert s == head + [sep] + Join(pieces[1..], sep);
      assert s[|head|] == sep;
      assert s[..|head|] == head;
      assert s[|head| + 1..] == Join(pieces[1..], sep);
    }
  }

  /** Scanning for `sep` in `p + rest` stops at the end of `p` when `p` is free of it. */
  lemma {:induction false} SkipToUpTo(s: string, p: string, sep: char)
    requires |p| <= |s| && s[..|p|] == p && !ContainsChar(p, sep)
    requires |p| < |s| ==> s[|p|] == sep
    ensures SkipTo(s, 0, sep) == |p|
  {
    SkipToFrom(s, 0, |p|, sep);
  }

  lemma {:induction false} SkipToFrom(s: string, i: nat, e: nat, c: char)
    requires i <= e <= |s|
    requires forall t :: i <= t < e ==> s[t] != c
    requires e < |s| ==> s[e] == c
    ensures SkipTo(s, i, c) == e
    decreases e - i
  {
    if i < e { SkipToFrom(s, i + 1, e, c); }
  }

  lemma {:induction false} SkipWordStops(s: string, i: nat, e: nat)
    requires i <= e <= |s|
    requires forall t :: i <= t < e ==> IsWordChar(s[t])
    requires e == |s| || !IsWordChar(s[e])
    ensures SkipWord(s, i) == e
    decreases e - i
  {
    if i < e { SkipWordStops(s, i + 1, e); }
  }

  lemma {:induction false} SkipQueryStops(s: string, i: nat, e: nat)
    requires i <= e <= |s|
    requires forall t :: i <= t < e ==> IsQueryChar(s[t])
    requires e == |s| || !IsQueryChar(s[e])
    ensures SkipQuery(s, i) == e
    decreases e - i
  {
    if i < e { SkipQueryStops(s, i + 1, e); }
  }

  lemma {:induction false} SkipWsStops(s: string, i: nat, e: nat)
    requires i <= e <= |s|
    requires forall t :: i <= t < e ==> IsSpace(s[t])
    requires e == |s| || !IsSpace(s[e])
    ensures SkipWs(s, i) == e
    decreases e - i
  {
    if i < e { SkipWsStops(s, i + 1, e); }
  }

  lemma {:induction false} SkipNonWsStops(s: string, i: nat, e: nat)
    requires i <= e <= |s|
    requires forall t :: i <= t < e ==> !IsSpace(s[t])
    requires e == |s| || IsSpace(s[e])
    ensures SkipNonWs(s, i) == e
    decreases e - i
  {
    if i < e { SkipNonWsStops(s, i + 1, e); }
  }

  lemma {:induction false} SkipLineStops(s: string, i: nat, e: nat)
    requires i <= e <= |s|
    requires forall t :: i <= t < e ==> !IsLineTerminator(s[t])
    requires e == |s| || IsLineTerminator(s[e])
    ensures SkipLine(s, i) == e
    decreases e - i
  {
    if i < e { SkipLineStops(s, i + 1, e); }
  }

  /**
   * Java `String.indexOf(String, fromIndex)`: the first index at or after
   * `from` where `needle` occurs, or -1.  An empty needle is found at
   * `min(from, |hay|)`.
   */
  function IndexOf(hay: string, needle: string, from: nat): (r: int)
    ensures r == -1 || (r + |needle| <= |hay| && (from <= r || (needle == [] && r == |hay|)))
    decreases |hay| - from
  {
    if from + |needle| > |hay| then (if needle == [] then |hay| else -1)
    else if hay[from..from + |needle|] == needle then from
    else IndexOf(hay, needle, from + 1)
  }

  predicate OccursAt(hay: string, needle: string, k: nat) {
    k + |needle| <= |hay| && hay[k..k + |needle|] == needle
  }

  /**
   * `IndexOf` finds the first occurrence at or after `from`; it returns -1
   * only when there is none, and then every known occurrence lies before
   * `from`.
   */
  lemma {:induction false} IndexOfSpec(hay: string, needle: string, from: nat)
    requires from <= |hay|
    ensures var r := IndexOf(hay, needle, from);
      (r >= 0 ==> from <= r && OccursAt(hay, needle, r)
                  && forall k :: from <= k < r ==> !OccursAt(hay, needle, k))
      && (r == -1 <==> forall k :: from <= k <= |hay| ==> !OccursAt(hay, needle, k))
    decreases |hay| - from
  {
    if from + |needle| <= |hay| && hay[from..from + |needle|] != needle {
      IndexOfSpec(hay, needle, from + 1);
    }
  }

  /** Kotlin `CharSequence.contains(other)`: `indexOf(other) >= 0`. */
  predicate Contains(s: string, t: string) { IndexOf(s, t, 0) >= 0 }

  /** Java `String.indexOf(char, fromIndex)`. */
  function IndexOfChar(s: string, c: char, from: nat): (r: int)
    ensures r == -1 || (from <= r < |s| && s[r] == c)
  {
    if from >= |s| then -1
    else var k := SkipTo(s, from, c); if k == |s| then -1 else (SkipToRun(s, from, c); k)
  }

  lemma IndexOfCharNone(s: string, c: char, from: nat)
    ensures IndexOfChar(s, c, from) == -1 <==> forall k :: from <= k < |s| ==> s[k] != c
  {
    if from < |s| { SkipToRun(s, from, c); }
  }
}
