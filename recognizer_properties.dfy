/**
 * What the heading recognizers (API name, resource, action), the
 * Default and Relation lines and the scanned patterns capture: the text
 * around each group and what the group may and may not hold.
 */
module ApiBlueprintRecognizerProperties {
  import opened Text
  import opened ApiBlueprintRegexUtils
  import opened ApiBlueprintRegexProperties

  /** Every character of `[lo, hi)` is white space. */
  predicate Spaces(s: string, lo: nat, hi: nat)
    requires lo <= hi <= |s|
  {
    forall t :: lo <= t < hi ==> IsSpace(s[t])
  }

  /** `sp` is non-empty and holds no line terminator. */
  predicate OneLine(s: string, sp: Span)
    requires SpanIn(s, sp)
  {
    sp.start < sp.end && forall t :: sp.start <= t < sp.end ==> !IsLineTerminator(s[t])
  }

  /** `sp` holds no `c`. */
  predicate Lacks(s: string, sp: Span, c: char)
    requires SpanIn(s, sp)
  {
    forall t :: sp.start <= t < sp.end ==> s[t] != c
  }

  /** The text before `x` ends with a `:` and white space. */
  predicate AfterColon(s: string, x: nat)
    requires x <= |s|
  {
    exists b :: 0 <= b < x && s[b] == ':' && Spaces(s, b + 1, x)
  }

  /** The start `LastLineFrom` reports is one from which the rest of the line matches. */
  lemma {:induction false} LastLineFromSpec(s: string, lo: nat, hi: nat, nonEmpty: bool, wsEnd: bool)
    requires hi <= |s|
    ensures LastLineFrom(s, lo, hi, nonEmpty, wsEnd).Some? ==> LineFrom(s, LastLineFrom(s, lo, hi, nonEmpty, wsEnd).value, nonEmpty, wsEnd)
    decreases hi
  {
    if lo < hi && !LineFrom(s, hi, nonEmpty, wsEnd) {
      LastLineFromSpec(s, lo, hi - 1, nonEmpty, wsEnd);
    }
  }

  // ---------------------------------------------------------------------
  // Headings

  /**
   * API_NAME: the line starts with `#` and white space, and the name is
   * the rest of the line after (some of) that white space.  A second `#`
   * in place of the white space, as in a resource heading, is no API name.
   */
  lemma ApiNameSpec(s: string)
    ensures ApiName(s).Some? ==>
      var gs := ApiName(s).value;
      |gs| == 1 && gs[0].Some?
      && var name := gs[0].value;
      s[0] == '#' && 1 < name.start && Spaces(s, 1, name.start)
      && OneLine(s, name) && AtLineEnd(s, name.end)
    ensures (|s| < 2 || s[0] != '#' || !IsSpace(s[1])) ==> ApiName(s) == None
  {
    if ApiName(s).Some? {
      var w := SkipWs(s, 1);
      var x := LastLineFrom(s, 2, w, true, false).value;
      LastLineFromSpec(s, 2, w, true, false);
      SkipWsRun(s, 1);
      SkipLineRun(s, x);
    }
  }

  /**
   * RESOURCE: after `##` and white space comes the one-line name, then
   * white space and the bracket `[/path]`, which ends the line up to
   * trailing white space.  Group 2 is the bracket, group 3 the path
   * inside it, which starts with `/` and holds no `]`.
   */
  predicate ResourceGroupsShaped(s: string, gs: Groups) {
    GroupsIn(s, gs) && |gs| == 3 && gs[0].Some? && gs[1].Some? && gs[2].Some?
    && var name := gs[0].value; var br := gs[1].value; var path := gs[2].value;
    var p := SkipWs(s, 0);
    LiteralAt(s, p, "##") && p + 2 < name.start && Spaces(s, p + 2, name.start)
    && OneLine(s, name) && name.end < br.start && Spaces(s, name.end, br.start)
    && br.start < br.end && s[br.start] == '[' && s[br.end - 1] == ']' && path == Span(br.start + 1, br.end - 1)
    && path.start + 1 < path.end && s[path.start] == '/' && Lacks(s, path, ']')
    && WsToLineEnd(s, br.end)
  }

  /** The bracket of a resource heading: what `ResourcePathAt` found after `e`. */
  predicate ResourcePathShaped(s: string, e: nat, f: nat, b: nat) {
    e < f && f + 2 < b < |s| && Spaces(s, e, f) && s[f] == '[' && s[f + 1] == '/'
    && (forall t :: f + 2 <= t < b ==> s[t] != ']') && s[b] == ']' && WsToLineEnd(s, b + 1)
  }

  lemma ResourcePathSpec(s: string, e: nat)
    requires e <= |s| && ResourcePathAt(s, e).Some?
    ensures var (f, b) := ResourcePathAt(s, e).value; ResourcePathShaped(s, e, f, b)
  {
    SkipWsRun(s, e);
    SkipToRun(s, SkipWs(s, e) + 2, ']');
  }

  lemma ResourceGroupsAt(s: string, p: nat, x: nat, e: nat, f: nat, b: nat)
    requires p + 2 <= |s| && LiteralAt(s, p, "##") && p == SkipWs(s, 0)
    requires p + 3 <= x <= SkipWs(s, p + 2) && x < e <= SkipLine(s, x) && ResourcePathShaped(s, e, f, b)
    ensures ResourceGroupsShaped(s, [Some(Span(x, e)), Some(Span(f, b + 1)), Some(Span(f + 1, b))])
  {
    SkipWsRun(s, p + 2);
    SkipLineRun(s, x);
  }

  lemma ResourceSpec(s: string)
    ensures Resource(s).Some? ==> ResourceGroupsShaped(s, Resource(s).value)
  {
    if Resource(s).Some? {
      var p := SkipWs(s, 0);
      var u := SkipWs(s, p + 2);
      var (x, e) := LastStartFirstEnd(ResourcePath, s, p + 3, u, 1).value;
      var (f, b) := ResourcePathAt(s, e).value;
      var gs := [Some(Span(x, e)), Some(Span(f, b + 1)), Some(Span(f + 1, b))];
      ResourcePathSpec(s, e);
      ResourceGroupsAt(s, p, x, e, f, b);
      assert Resource(s) == Some(gs);
    }
  }

  /** The bracket of an action heading: what `ActionBracketAt` found between `e` and the line end. */
  predicate ActionBracketShaped(s: string, e: nat, f: nat, g: nat, h: nat, b: nat) {
    e <= f < g <= h <= b < |s| && Spaces(s, e, f) && s[f] == '['
    && f + 1 < g && (forall t :: f + 1 <= t < g ==> IsUpper(s[t]))
    && h == SkipWs(s, g) && (forall t :: h <= t < b ==> s[t] != ']') && s[b] == ']' && WsToLineEnd(s, b + 1)
  }

  lemma ActionBracketSpec(s: string, e: nat)
    requires e <= |s| && ActionBracketAt(s, e).Some?
    ensures var (f, g, h, b) := ActionBracketAt(s, e).value; ActionBracketShaped(s, e, f, g, h, b)
  {
    var f := SkipWs(s, e);
    SkipWsRun(s, e);
    SkipUpperRun(s, f + 1);
    SkipToRun(s, SkipWs(s, SkipUpper(s, f + 1)), ']');
  }

  /**
   * ACTION_NAME: after `###` and white space comes the one-line name,
   * then `[`, the method (upper-case letters only), white space and the
   * optional rest, which holds no `]` and is closed by the `]` that ends
   * the line up to trailing white space.
   */
  predicate ActionGroupsShaped(s: string, gs: Groups) {
    GroupsIn(s, gs) && |gs| == 3 && gs[0].Some? && gs[1].Some?
    && var name := gs[0].value; var m := gs[1].value;
    var p := SkipWs(s, 0);
    LiteralAt(s, p, "###") && p + 3 < name.start && Spaces(s, p + 3, name.start)
    && OneLine(s, name) && name.end < m.start && Spaces(s, name.end, m.start - 1) && s[m.start - 1] == '['
    && m.start < m.end && (forall t :: m.start <= t < m.end ==> IsUpper(s[t]))
    && var h := SkipWs(s, m.end);
    match gs[2]
    case Some(rest) =>
      rest.start == h < rest.end < |s| && Lacks(s, rest, ']') && s[rest.end] == ']' && WsToLineEnd(s, rest.end + 1)
    case None => h < |s| && s[h] == ']' && WsToLineEnd(s, h + 1)
  }

  lemma ActionGroupsAt(s: string, p: nat, x: nat, e: nat, f: nat, g: nat, h: nat, b: nat)
    requires p + 3 <= |s| && LiteralAt(s, p, "###") && p == SkipWs(s, 0)
    requires p + 4 <= x <= SkipWs(s, p + 3) && x < e <= SkipLine(s, x) && ActionBracketShaped(s, e, f, g, h, b)
    ensures ActionGroupsShaped(s, [Some(Span(x, e)), Some(Span(f + 1, g)), if h < b then Some(Span(h, b)) else None])
  {
    SkipWsRun(s, p + 3);
    SkipLineRun(s, x);
  }

  lemma ActionNameSpec(s: string)
    ensures ActionName(s).Some? ==> ActionGroupsShaped(s, ActionName(s).value)
  {
    if ActionName(s).Some? {
      var p := SkipWs(s, 0);
      var u := SkipWs(s, p + 3);
      var (x, e) := LastStartFirstEnd(ActionBracket, s, p + 4, u, 1).value;
      var (f, g, h, b) := ActionBracketAt(s, e).value;
      var gs := [Some(Span(x, e)), Some(Span(f + 1, g)), if h < b then Some(Span(h, b)) else None];
      ActionBracketSpec(s, e);
      ActionGroupsAt(s, p, x, e, f, g, h, b);
      assert ActionName(s) == Some(gs);
    }
  }

  // ---------------------------------------------------------------------
  // Default values and relations

  /**
   * DEFAULT_VALUE: the line is a list item whose word is `Default` (any
   * case); the value lies between two backticks and holds none, it
   * follows the `:` and white space, and only white space follows it.
   */
  lemma DefaultValueSpec(s: string)
    ensures DefaultValue(s).Some? ==>
      var gs := DefaultValue(s).value;
      |gs| == 1 && gs[0].Some?
      && var v := gs[0].value;
      var p := SkipWs(s, 0);
      CharAt(s, p, '+') && KeywordAt(s, SkipWs(s, p + 1), "default")
      && 0 < v.start < v.end < |s| && s[v.start - 1] == '`' && s[v.end] == '`' && Lacks(s, v, '`')
      && AfterColon(s, v.start - 1) && WsToLineEnd(s, v.end + 1)
    ensures (forall t :: 0 <= t < |s| ==> s[t] != '`') ==> DefaultValue(s) == None
  {
    if DefaultValue(s).Some? {
      var p := SkipWs(s, 0);
      var a := SkipWs(s, p + 1);
      var b := SkipWs(s, a + 7);
      var c := SkipWs(s, b + 1);
      SkipWsRun(s, b + 1);
      SkipToRun(s, c + 1, '`');
      assert s[b] == ':' && Spaces(s, b + 1, c);
    }
  }

  /**
   * RELATION: the line is a list item whose word is `Relation` (any
   * case); the value is the non-empty rest of the line after the `:` and
   * white space, trailing white space included.
   */
  lemma RelationSpec(s: string)
    ensures Relation(s).Some? ==>
      var gs := Relation(s).value;
      |gs| == 1 && gs[0].Some?
      && var v := gs[0].value;
      var p := SkipWs(s, 0);
      CharAt(s, p, '+') && KeywordAt(s, SkipWs(s, p + 1), "relation")
      && OneLine(s, v) && AfterColon(s, v.start) && WsToLineEnd(s, v.end)
  {
    if Relation(s).Some? {
      var p := SkipWs(s, 0);
      var a := SkipWs(s, p + 1);
      var b := SkipWs(s, a + 8);
      var x := LastLineFrom(s, b + 1, SkipWs(s, b + 1), true, true).value;
      LastLineFromSpec(s, b + 1, SkipWs(s, b + 1), true, true);
      SkipWsRun(s, b + 1);
      SkipLineRun(s, x);
      assert s[b] == ':' && Spaces(s, b + 1, x);
    }
  }

  // ---------------------------------------------------------------------
  // Scanned patterns

  /** `{name}` at `i` with the `}` at `b`: a letter or `_` and then word characters. */
  predicate UriVarShaped(s: string, i: nat, b: nat) {
    i + 1 < b < |s| && s[i] == '{' && s[b] == '}' && (IsLetter(s[i + 1]) || s[i + 1] == '_')
    && forall t :: i + 1 < t < b ==> IsWordChar(s[t])
  }

  /** URI_VAR matches at `i` exactly when a braced identifier starts there; the group is the identifier. */
  lemma UriVarSpec(s: string, i: nat, b: nat)
    ensures MatchAt(UriVar, s, i) == Some(Match(Span(i, b + 1), [Some(Span(i + 1, b))])) <==> UriVarShaped(s, i, b)
    ensures MatchAt(UriVar, s, i).Some? ==> UriVarShaped(s, i, MatchAt(UriVar, s, i).value.range.end - 1)
  {
    if CharAt(s, i, '{') && i + 1 < |s| {
      SkipWordRun(s, i + 2);
      if UriVarShaped(s, i, b) {
        SkipWordStops(s, i + 2, b);
      }
    }
  }

  /** `{?names}` at `i` with the `}` at `b`: one or more word characters and commas. */
  predicate UriQueryShaped(s: string, i: nat, b: nat) {
    i + 2 < b < |s| && s[i] == '{' && s[i + 1] == '?' && s[b] == '}'
    && forall t :: i + 2 <= t < b ==> IsQueryChar(s[t])
  }

  /** URI_QUERY matches at `i` exactly when a braced query list starts there; the group is the list. */
  lemma UriQuerySpec(s: string, i: nat, b: nat)
    ensures MatchAt(UriQuery, s, i) == Some(Match(Span(i, b + 1), [Some(Span(i + 2, b))])) <==> UriQueryShaped(s, i, b)
    ensures MatchAt(UriQuery, s, i).Some? ==> UriQueryShaped(s, i, MatchAt(UriQuery, s, i).value.range.end - 1)
  {
    if CharAt(s, i, '{') && CharAt(s, i + 1, '?') {
      SkipQueryRun(s, i + 2);
      if UriQueryShaped(s, i, b) {
        SkipQueryStops(s, i + 2, b);
      }
    }
  }

  /** `q...q` at `i` with the closing quote at `b` and no quote between. */
  predicate QuotedShaped(s: string, i: nat, b: nat, q: char) {
    i < b < |s| && s[i] == q && s[b] == q && forall t :: i < t < b ==> s[t] != q
  }

  lemma QuotedSpec(s: string, i: nat, b: nat, q: char)
    ensures QuotedAt(s, i, q) == Some(b) <==> QuotedShaped(s, i, b, q)
  {
    if CharAt(s, i, q) {
      SkipToRun(s, i + 1, q);
    }
  }

  /** `(text)` at `i` with the first `)` after it at `b` and at least one character between. */
  predicate ParenShaped(s: string, i: nat, b: nat) {
    i + 1 < b < |s| && s[i] == '(' && s[b] == ')' && forall t :: i < t < b ==> s[t] != ')'
  }

  /** MIME matches at `i` exactly when a non-empty parenthesised text starts there; the group is the text. */
  lemma MimeSpec(s: string, i: nat, b: nat)
    ensures MatchAt(Mime, s, i) == Some(Match(Span(i, b + 1), [Some(Span(i + 1, b))])) <==> ParenShaped(s, i, b)
    ensures MatchAt(Mime, s, i).Some? ==> ParenShaped(s, i, MatchAt(Mime, s, i).value.range.end - 1)
  {
    if CharAt(s, i, '(') {
      SkipToRun(s, i + 1, ')');
    }
  }

  /**
   * STRING_LITERAL: a double-quoted text at `i` fills group 1; otherwise a
   * backtick-quoted one fills group 2.
   */
  lemma StringLiteralSpec(s: string, i: nat, b: nat)
    ensures MatchAt(StringLiteral, s, i) == Some(Match(Span(i, b + 1), [Some(Span(i + 1, b)), None]))
      <==> QuotedShaped(s, i, b, '"')
    ensures MatchAt(StringLiteral, s, i) == Some(Match(Span(i, b + 1), [None, Some(Span(i + 1, b))]))
      <==> QuotedShaped(s, i, b, '`')
    ensures MatchAt(StringLiteral, s, i).None? <==> QuotedAt(s, i, '"').None? && QuotedAt(s, i, '`').None?
  {
    QuotedSpec(s, i, b, '"');
    QuotedSpec(s, i, b, '`');
  }

  /** One of the alternatives `kws` occurs (in any case) at `j` and ends at `e`. */
  predicate KeywordEnds(s: string, j: nat, kws: seq<string>, e: nat) {
    exists k :: 0 <= k < |kws| && KeywordAt(s, j, kws[k]) && e == j + |kws[k]|
  }

  /** For a prefix-free alternation, the alternative that occurs is the one `FirstKeyword` reports. */
  lemma KeywordEndsFirst(s: string, j: nat, kws: seq<string>, e: nat)
    requires PrefixFree(kws)
    ensures KeywordEnds(s, j, kws, e) <==> FirstKeyword(s, j, kws).Some? && e == j + |FirstKeyword(s, j, kws).value|
  {
    FirstKeywordSpec(s, j, kws);
    match FirstKeyword(s, j, kws)
    case Some(kw) =>
      var k :| 0 <= k < |kws| && kws[k] == kw;
      assert KeywordAt(s, j, kws[k]);
    case None =>
  }

  /** `\b(kw1|kw2|...)\b` matches from `i` to `e`: a whole word of the alternation. */
  predicate BoundedShaped(s: string, i: nat, kws: seq<string>, e: nat) {
    BoundaryAt(s, i) && KeywordEnds(s, i, kws, e) && BoundaryAt(s, e)
  }

  lemma BoundedKeywordSpec(s: string, i: nat, kws: seq<string>, e: nat)
    requires PrefixFree(kws)
    ensures BoundedKeywordAt(s, i, kws) == Some(Match(Span(i, e), [Some(Span(i, e))])) <==> BoundedShaped(s, i, kws, e)
    ensures BoundedKeywordAt(s, i, kws).Some? ==> BoundedShaped(s, i, kws, BoundedKeywordAt(s, i, kws).value.range.end)
  {
    KeywordEndsFirst(s, i, kws, e);
    if BoundedKeywordAt(s, i, kws).Some? {
      KeywordEndsFirst(s, i, kws, BoundedKeywordAt(s, i, kws).value.range.end);
    }
  }

  /** HTTP_METHOD matches exactly the methods that stand as whole words, in any case. */
  lemma HttpMethodSpec(s: string, i: nat, e: nat)
    ensures MatchAt(HttpMethod, s, i) == Some(Match(Span(i, e), [Some(Span(i, e))])) <==> BoundedShaped(s, i, HttpMethods, e)
    ensures MatchAt(HttpMethod, s, i).Some? ==> BoundedShaped(s, i, HttpMethods, MatchAt(HttpMethod, s, i).value.range.end)
  {
    AlternativesExclusive();
    BoundedKeywordSpec(s, i, HttpMethods, e);
  }

  /** MSON_FLAG matches exactly the flags that stand as whole words, in any case. */
  lemma MsonFlagSpec(s: string, i: nat, e: nat)
    ensures MatchAt(MsonFlag, s, i) == Some(Match(Span(i, e), [Some(Span(i, e))])) <==> BoundedShaped(s, i, FlagKeywords, e)
    ensures MatchAt(MsonFlag, s, i).Some? ==> BoundedShaped(s, i, FlagKeywords, MatchAt(MsonFlag, s, i).value.range.end)
  {
    AlternativesExclusive();
    BoundedKeywordSpec(s, i, FlagKeywords, e);
  }

  /**
   * `(kw ...)` at `i`: a keyword of `kws` that ends at a word boundary
   * `e`, then anything but `)` up to the `)` at `b`.
   */
  predicate KeywordParenShaped(s: string, i: nat, kws: seq<string>, e: nat, b: nat) {
    CharAt(s, i, '(') && KeywordEnds(s, i + 1, kws, e) && BoundaryAt(s, e)
    && e <= b < |s| && s[b] == ')' && forall t :: e <= t < b ==> s[t] != ')'
  }

  lemma KeywordParenSpec(s: string, i: nat, kws: seq<string>, e: nat, b: nat)
    requires PrefixFree(kws)
    ensures KeywordParenAt(s, i, kws) == Some(Match(Span(i, b + 1), [Some(Span(i + 1, e))])) <==> KeywordParenShaped(s, i, kws, e, b)
  {
    KeywordEndsFirst(s, i + 1, kws, e);
    if CharAt(s, i, '(') && FirstKeyword(s, i + 1, kws).Some? {
      var e' := i + 1 + |FirstKeyword(s, i + 1, kws).value|;
      if e' <= |s| {
        SkipToRun(s, e', ')');
      }
    }
  }

  lemma TypeKeywordsPrefixFree() ensures PrefixFree(TypeKeywords) {
    TypeKeywordsChecked();
    SeparatedPrefixFree(TypeKeywords);
  }

  /** TYPE_ANNOTATION matches at `i` exactly when a parenthesis opens with a type keyword; the group is the keyword. */
  lemma TypeAnnotationSpec(s: string, i: nat, e: nat, b: nat)
    ensures MatchAt(TypeAnnotation, s, i) == Some(Match(Span(i, b + 1), [Some(Span(i + 1, e))]))
      <==> KeywordParenShaped(s, i, TypeKeywords, e, b)
  {
    TypeKeywordsPrefixFree();
    KeywordParenSpec(s, i, TypeKeywords, e, b);
  }

  /** Every character of `[lo, hi)` is a digit. */
  predicate Digits(s: string, lo: nat, hi: nat)
    requires lo <= hi <= |s|
  {
    forall t :: lo <= t < hi ==> IsDigit(s[t])
  }

  /** `\b\d+(?:\.\d+)?\b` can match `[i, j)`: digits, optionally a `.` and more digits, between word boundaries. */
  predicate DecimalShaped(s: string, i: nat, j: nat) {
    i < j <= |s| && BoundaryAt(s, i) && BoundaryAt(s, j)
    && (Digits(s, i, j) || exists d :: i < d < j - 1 && s[d] == '.' && Digits(s, i, d) && Digits(s, d + 1, j))
  }

  /** A run of digits that a word boundary ends is the whole run. */
  lemma DigitsEnd(s: string, i: nat, j: nat)
    requires i < j <= |s| && Digits(s, i, j) && BoundaryAt(s, j)
    ensures SkipDigits(s, i) == j
  {
    SkipDigitsRun(s, i);
    assert IsWordAt(s, j - 1);
  }

  /** Every match of NUMBER is a decimal between word boundaries. */
  lemma NumberMatchShaped(s: string, i: nat)
    ensures MatchAt(Number, s, i).Some? ==>
      var m := MatchAt(Number, s, i).value; m.range.start == i && m.groups == [] && DecimalShaped(s, i, m.range.end)
  {
    if i < |s| && IsDigit(s[i]) && BoundaryAt(s, i) {
      var d := SkipDigits(s, i);
      SkipDigitsRun(s, i);
      if d + 1 < |s| && s[d] == '.' && IsDigit(s[d + 1]) {
        SkipDigitsRun(s, d + 1);
        assert IsWordAt(s, d - 1) && !IsWordAt(s, d);
      }
    }
  }

  /** NUMBER takes every decimal that can match at `i`, or a longer one. */
  lemma NumberLongest(s: string, i: nat, j: nat)
    requires DecimalShaped(s, i, j)
    ensures MatchAt(Number, s, i).Some? && j <= MatchAt(Number, s, i).value.range.end
  {
    if Digits(s, i, j) {
      DigitsEnd(s, i, j);
    } else {
      var d :| i < d < j - 1 && s[d] == '.' && Digits(s, i, d) && Digits(s, d + 1, j);
      assert BoundaryAt(s, d) by { assert IsWordAt(s, d - 1) && !IsWordAt(s, d); }
      DigitsEnd(s, i, d);
      DigitsEnd(s, d + 1, j);
    }
  }

  /**
   * NUMBER matches at `i` exactly when a decimal can match there, and it
   * takes the longest one.
   */
  lemma NumberSpec(s: string, i: nat, j: nat)
    ensures MatchAt(Number, s, i).Some? ==>
      var m := MatchAt(Number, s, i).value; m.range.start == i && m.groups == [] && DecimalShaped(s, i, m.range.end)
    ensures DecimalShaped(s, i, j) ==> MatchAt(Number, s, i).Some? && j <= MatchAt(Number, s, i).value.range.end
  {
    NumberMatchShaped(s, i);
    if DecimalShaped(s, i, j) {
      NumberLongest(s, i, j);
    }
  }

  lemma HttpMethodsPrefixFree() ensures PrefixFree(HttpMethods) {
    HttpMethodsChecked();
    SeparatedPrefixFree(HttpMethods);
  }

  /** After a method ending at `e`: white space and at least one more character before the first `]`, at `b`. */
  predicate ActionTailShaped(s: string, e: nat, b: nat) {
    e + 2 <= b < |s| && IsSpace(s[e]) && s[b] == ']' && forall t :: e <= t < b ==> s[t] != ']'
  }

  /** `[method rest]` at `i`, a method of `methods` ending at `e` and the `]` at `b`. */
  predicate BracketShaped(s: string, i: nat, methods: seq<string>, e: nat, b: nat) {
    CharAt(s, i, '[') && KeywordEnds(s, i + 1, methods, e) && ActionTailShaped(s, e, b)
  }

  /** The group after the method: from the end of the white space, or its last character when nothing else is left. */
  predicate ActionRestShaped(s: string, e: nat, b: nat, rest: Span) {
    e < rest.start < rest.end == b <= |s| && Spaces(s, e, rest.start)
    && (rest.start + 1 == b || !IsSpace(s[rest.start]))
  }

  /**
   * The bracket after the method: a match exactly when white space and
   * more follow up to a `]`; group 1 is the method and group 2 the rest.
   */
  lemma ActionRestSpec(s: string, i: nat, e: nat, b: nat)
    ensures match ActionRest(s, i, e)
      case Some(m) =>
        m.range.start == i && |m.groups| == 2 && m.groups[0] == Some(Span(i + 1, e)) && m.groups[1].Some?
        && ActionTailShaped(s, e, m.range.end - 1) && ActionRestShaped(s, e, m.range.end - 1, m.groups[1].value)
      case None => true
    ensures ActionTailShaped(s, e, b) ==> ActionRest(s, i, e).Some? && ActionRest(s, i, e).value.range.end == b + 1
  {
    if e <= |s| {
      var w := SkipWs(s, e);
      SkipWsRun(s, e);
      if w < |s| && s[w] != ']' {
        SkipToRun(s, w, ']');
      }
      if ActionTailShaped(s, e, b) {
        assert w <= b;
        if s[w] != ']' {
          SkipToFrom(s, w, b, ']');
        }
      }
    }
  }

  /**
   * ACTION_PATTERN with the alternation of methods as a parameter, so
   * that what is proved about the bracket does not depend on the list.
   */
  function BracketAt(s: string, i: nat, methods: seq<string>): Option<Match>
  {
    if CharAt(s, i, '[') then
      match FirstKeyword(s, i + 1, methods)
      case Some(kw) => ActionRest(s, i, i + 1 + |kw|)
      case None => None
    else None
  }

  lemma ActionAtBracket(s: string, i: nat)
    ensures ActionAt(s, i) == BracketAt(s, i, HttpMethods)
  {
  }

  /** The bracket at `i` once the method has been found. */
  lemma BracketAtMethod(s: string, i: nat, methods: seq<string>, kw: string)
    requires CharAt(s, i, '[') && FirstKeyword(s, i + 1, methods) == Some(kw)
    ensures BracketAt(s, i, methods) == ActionRest(s, i, i + 1 + |kw|)
  {
  }

  /** A bracket of a prefix-free list of methods matches exactly when it is shaped so; group 2 is the rest of the bracket. */
  lemma BracketSpec(s: string, i: nat, methods: seq<string>, e: nat, b: nat)
    requires PrefixFree(methods)
    ensures (BracketAt(s, i, methods).Some? && BracketAt(s, i, methods).value.range == Span(i, b + 1)
             && Group(BracketAt(s, i, methods).value.groups, 1) == Some(Span(i + 1, e))) <==> BracketShaped(s, i, methods, e, b)
    ensures match BracketAt(s, i, methods)
      case Some(m) => |m.groups| == 2 && m.groups[1].Some? && m.groups[0].Some?
        && ActionRestShaped(s, m.groups[0].value.end, m.range.end - 1, m.groups[1].value)
      case None => true
  {
    KeywordEndsFirst(s, i + 1, methods, e);
    if CharAt(s, i, '[') && FirstKeyword(s, i + 1, methods).Some? {
      var kw := FirstKeyword(s, i + 1, methods).value;
      var e' := i + 1 + |kw|;
      BracketAtMethod(s, i, methods, kw);
      ActionRestSpec(s, i, e', b);
      if ActionRest(s, i, e').Some? {
        var m := ActionRest(s, i, e').value;
        assert Group(m.groups, 1) == Some(Span(i + 1, e'));
        if BracketShaped(s, i, methods, e, b) {
          assert e == e' && m.range == Span(i, b + 1);
        }
      }
    }
  }

  /**
   * ACTION matches `[GET /path]` at `i` exactly when the bracket holds an
   * HTTP method, white space and more; group 1 is the method and group 2
   * the rest of the bracket.
   */
  lemma ActionSpec(s: string, i: nat, e: nat, b: nat)
    ensures (ActionAt(s, i).Some? && ActionAt(s, i).value.range == Span(i, b + 1)
             && Group(ActionAt(s, i).value.groups, 1) == Some(Span(i + 1, e))) <==> BracketShaped(s, i, HttpMethods, e, b)
    ensures match ActionAt(s, i)
      case Some(m) => |m.groups| == 2 && m.groups[1].Some? && m.groups[0].Some?
        && ActionRestShaped(s, m.groups[0].value.end, m.range.end - 1, m.groups[1].value)
      case None => true
  {
    ActionAtBracket(s, i);
    HttpMethodsPrefixFree();
    BracketSpec(s, i, HttpMethods, e, b);
  }
}
