/**
 * Properties of the recognizers: what each alternation of keywords finds,
 * how the reserved words keep section headers out of MSON_ATTRIBUTE, why
 * the three forms of an Attributes line exclude one another, what a
 * response status is, and what `findAll` reports.
 */
module ApiBlueprintRegexProperties {
  import opened Text
  import opened ApiBlueprintRegexUtils

  // ---------------------------------------------------------------------
  // Alternations of keywords

  /** `w` is a prefix of `v`. */
  predicate IsPrefix(w: string, v: string) { |w| <= |v| && v[..|w|] == w }

  /** No alternative is a prefix of another, so at most one of them occurs at any position. */
  predicate PrefixFree(kws: seq<string>) {
    forall a, b :: 0 <= a < |kws| && 0 <= b < |kws| && a != b ==> !IsPrefix(kws[a], kws[b])
  }

  /** Every alternative is a non-empty lower-case word. */
  predicate LowerWords(kws: seq<string>) {
    forall a :: 0 <= a < |kws| ==> |kws[a]| > 0 && forall k :: 0 <= k < |kws[a]| ==> 'a' <= kws[a][k] <= 'z'
  }

  /** `w` and `v` differ within their first three characters. */
  predicate Distinguished(w: string, v: string) {
    |w| >= 3 && |v| >= 3 && (w[0] != v[0] || w[1] != v[1] || w[2] != v[2])
  }

  /** Every two words of `kws` are distinguished. */
  predicate Separated(kws: seq<string>) {
    forall a, b :: 0 <= a < b < |kws| ==> Distinguished(kws[a], kws[b])
  }

  lemma PrefixHead(w: string, v: string)
    requires |w| >= 3 && |v| >= 3
    ensures IsPrefix(w, v) ==> w[0] == v[0] && w[1] == v[1] && w[2] == v[2]
  {
    if IsPrefix(w, v) {
      assert v[..|w|][0] == v[0] && v[..|w|][1] == v[1] && v[..|w|][2] == v[2];
    }
  }

  lemma SeparatedPrefixFree(kws: seq<string>)
    requires Separated(kws)
    ensures PrefixFree(kws)
  {
    forall a, b | 0 <= a < |kws| && 0 <= b < |kws| && a != b
      ensures !IsPrefix(kws[a], kws[b])
    {
      if a < b {
        assert Distinguished(kws[a], kws[b]);
      } else {
        assert Distinguished(kws[b], kws[a]);
      }
      PrefixHead(kws[a], kws[b]);
    }
  }

  /** A list of alternatives no two of which can occur at one position. */
  predicate Exclusive(kws: seq<string>) { PrefixFree(kws) && LowerWords(kws) }

  lemma ExclusiveWhenChecked(kws: seq<string>)
    requires Separated(kws) && LowerWords(kws)
    ensures Exclusive(kws)
  {
    SeparatedPrefixFree(kws);
  }

  // The alternatives compared character by character: each check evaluates on the literal list.
  lemma HttpMethodsSeparated() ensures Separated(HttpMethods) {}
  lemma SectionKeywordsSeparated() ensures Separated(SectionKeywords) {}
  lemma TypeKeywordsSeparated() ensures Separated(TypeKeywords) {}
  lemma FlagKeywordsSeparated() ensures Separated(FlagKeywords) {}
  lemma ReservedNamesSeparated() ensures Separated(ReservedNames) {}

  lemma HttpMethodsChecked() ensures Separated(HttpMethods) && LowerWords(HttpMethods) { HttpMethodsSeparated(); }
  lemma SectionKeywordsChecked() ensures Separated(SectionKeywords) && LowerWords(SectionKeywords) { SectionKeywordsSeparated(); }
  lemma TypeKeywordsChecked() ensures Separated(TypeKeywords) && LowerWords(TypeKeywords) { TypeKeywordsSeparated(); }
  lemma FlagKeywordsChecked() ensures Separated(FlagKeywords) && LowerWords(FlagKeywords) { FlagKeywordsSeparated(); }
  lemma ReservedNamesChecked() ensures Separated(ReservedNames) && LowerWords(ReservedNames) { ReservedNamesSeparated(); }

  lemma ReservedNamesExclusive() ensures Exclusive(ReservedNames) {
    ReservedNamesChecked();
    ExclusiveWhenChecked(ReservedNames);
  }

  /**
   * The alternations the recognizers use are prefix-free lists of
   * lower-case words, so trying the alternatives in order and committing
   * to the first that occurs loses no match.
   */
  lemma AlternativesExclusive()
    ensures Exclusive(HttpMethods) && Exclusive(SectionKeywords) && Exclusive(TypeKeywords)
    ensures Exclusive(FlagKeywords) && Exclusive(ReservedNames)
  {
    HttpMethodsChecked();
    SectionKeywordsChecked();
    TypeKeywordsChecked();
    FlagKeywordsChecked();
    ReservedNamesChecked();
    ExclusiveWhenChecked(HttpMethods);
    ExclusiveWhenChecked(SectionKeywords);
    ExclusiveWhenChecked(TypeKeywords);
    ExclusiveWhenChecked(FlagKeywords);
    ExclusiveWhenChecked(ReservedNames);
  }

  /** Two keywords that both occur at `i` agree on the shorter one's length. */
  lemma KeywordsAgree(s: string, i: nat, a: string, b: string)
    requires KeywordAt(s, i, a) && KeywordAt(s, i, b) && |a| <= |b|
    ensures IsPrefix(a, b)
  {
    assert forall k :: 0 <= k < |a| ==> b[k] == Lower(s[i + k]) == a[k];
    assert b[..|a|] == a;
  }

  /**
   * `FirstKeyword` reports an alternative that occurs at `i`, reports
   * nothing only when none does, and, for a prefix-free alternation, the
   * alternative it reports is the only one that occurs there.
   */
  lemma {:induction false} FirstKeywordSpec(s: string, i: nat, kws: seq<string>)
    ensures match FirstKeyword(s, i, kws)
      case Some(kw) =>
        kw in kws && KeywordAt(s, i, kw)
        && (PrefixFree(kws) ==> forall a :: 0 <= a < |kws| && KeywordAt(s, i, kws[a]) ==> kws[a] == kw)
      case None => forall a :: 0 <= a < |kws| ==> !KeywordAt(s, i, kws[a])
    decreases |kws|
  {
    if |kws| > 0 {
      FirstKeywordSpec(s, i, kws[1..]);
      if KeywordAt(s, i, kws[0]) {
        if PrefixFree(kws) {
          forall a | 0 <= a < |kws| && KeywordAt(s, i, kws[a])
            ensures kws[a] == kws[0]
          {
            if a != 0 {
              if |kws[0]| <= |kws[a]| {
                KeywordsAgree(s, i, kws[0], kws[a]);
              } else {
                KeywordsAgree(s, i, kws[a], kws[0]);
              }
            }
          }
        }
      } else {
        assert forall a :: 1 <= a < |kws| ==> kws[a] == kws[1..][a - 1];
        if PrefixFree(kws) {
          assert PrefixFree(kws[1..]) by {
            forall a, b | 0 <= a < |kws[1..]| && 0 <= b < |kws[1..]| && a != b
              ensures !IsPrefix(kws[1..][a], kws[1..][b])
            {
              assert kws[1..][a] == kws[a + 1] && kws[1..][b] == kws[b + 1];
            }
          }
        }
      }
    }
  }

  // ---------------------------------------------------------------------
  // Reserved names (the negative lookahead of MSON_ATTRIBUTE)

  /** ASCII lower-casing of a whole string. */
  function LowerAll(w: string): (r: string)
    ensures |r| == |w|
    ensures forall k :: 0 <= k < |w| ==> r[k] == Lower(w[k])
  {
    if w == [] then [] else [Lower(w[0])] + LowerAll(w[1..])
  }

  /** The word that follows the `+` marker of a list item. */
  function ItemWord(s: string, p1: nat): string
    requires p1 <= |s|
  {
    s[p1..SkipWord(s, p1)]
  }

  /** A character whose lower-case form is a lower-case letter is a letter. */
  lemma LowerLetter(c: char)
    requires 'a' <= Lower(c) <= 'z'
    ensures IsWordChar(c)
  {
  }

  /** A keyword of an exclusive alternation found before a word boundary is the whole word at `p1`. */
  lemma {:induction false} WordFromIsWhole(s: string, p1: nat, kws: seq<string>)
    requires p1 <= |s| && Exclusive(kws) && WordFrom(s, p1, kws)
    ensures LowerAll(ItemWord(s, p1)) == FirstKeyword(s, p1, kws).value
  {
    FirstKeywordSpec(s, p1, kws);
    var kw := FirstKeyword(s, p1, kws).value;
    var a :| 0 <= a < |kws| && kws[a] == kw;
    assert |kw| > 0 && forall k :: 0 <= k < |kw| ==> 'a' <= kw[k] <= 'z';
    var e := p1 + |kw|;
    forall t | p1 <= t < e ensures IsWordChar(s[t]) {
      var k := t - p1;
      assert Lower(s[p1 + k]) == kw[k];
      LowerLetter(s[t]);
    }
    assert IsWordAt(s, e - 1);
    SkipWordStops(s, p1, e);
    var w := ItemWord(s, p1);
    assert |w| == |kw|;
    forall k | 0 <= k < |kw| ensures LowerAll(w)[k] == kw[k] {
      assert w[k] == s[p1 + k];
    }
  }

  /** A whole word that is, ignoring case, one of an exclusive alternation is found before a boundary. */
  lemma {:induction false} WholeWordFrom(s: string, p1: nat, kws: seq<string>)
    requires p1 <= |s| && Exclusive(kws) && LowerAll(ItemWord(s, p1)) in kws
    ensures WordFrom(s, p1, kws)
  {
    var m := SkipWord(s, p1);
    var kw := LowerAll(ItemWord(s, p1));
    assert KeywordAt(s, p1, kw);
    FirstKeywordSpec(s, p1, kws);
    var a :| 0 <= a < |kws| && kws[a] == kw;
    assert FirstKeyword(s, p1, kws) == Some(kw);
    SkipWordRun(s, p1);
    assert IsWordAt(s, m - 1);
  }

  /** Whole-word matching of an exclusive alternation, in both directions. */
  lemma WordFromIffWholeWord(s: string, p1: nat, kws: seq<string>)
    requires p1 <= |s| && Exclusive(kws)
    ensures WordFrom(s, p1, kws) <==> LowerAll(ItemWord(s, p1)) in kws
  {
    if WordFrom(s, p1, kws) {
      WordFromIsWhole(s, p1, kws);
      FirstKeywordSpec(s, p1, kws);
    }
    if LowerAll(ItemWord(s, p1)) in kws {
      WholeWordFrom(s, p1, kws);
    }
  }

  /**
   * The lookahead `(?!(?:Attributes|...|Relation)\b)` fails exactly when
   * the whole word after the marker is a reserved name, ignoring case: a
   * name that only starts with one (`attribute_name`, `header_data`) passes.
   */
  lemma ReservedIffWholeWord(s: string, p1: nat)
    requires p1 <= |s|
    ensures WordFrom(s, p1, ReservedNames) <==> LowerAll(ItemWord(s, p1)) in ReservedNames
  {
    ReservedNamesExclusive();
    WordFromIffWholeWord(s, p1, ReservedNames);
  }

  /** MSON_ATTRIBUTE matches a list item unless its name is a reserved word, ignoring case; groups are PARAMETER_PATTERN's. */
  lemma MsonAttributeReserved(s: string)
    ensures MsonAttribute(s) ==
      match ListItemStart(s)
      case Some(p1) => if LowerAll(ItemWord(s, p1)) in ReservedNames then None else AttributeShape(s)
      case None => None
  {
    match ListItemStart(s)
    case Some(p1) => ReservedIffWholeWord(s, p1);
    case None =>
  }

  // ---------------------------------------------------------------------
  // The three forms of a section line

  /** `$` can only hold within two characters of the end. */
  lemma AtLineEndNearEnd(s: string, k: nat)
    ensures AtLineEnd(s, k) ==> |s| <= k + 2
  {
  }

  /** A typed `+ Attributes (T)` line is not a bare `+ Attributes` line. */
  lemma TypedAttributesNotSimple(s: string)
    ensures AttributesSection(s).Some? ==> SimpleAttributes(s).None?
  {
    if AttributesSection(s).Some? {
      var p1 := ListItemStart(s).value;
      var q := SkipWs(s, p1 + 10);
      var b := ParenAt(s, q).value;
      AtLineEndNearEnd(s, q);
      AtLineEndNearEnd(s, q - 1);
      AtLineEndNearEnd(s, q - 2);
    }
  }

  lemma KeywordHead(s: string, i: nat, kw: string)
    requires KeywordAt(s, i, kw) && |kw| > 0
    ensures Lower(s[i]) == kw[0]
  {
    assert Lower(s[i + 0]) == kw[0];
  }

  /**
   * ATTRIBUTES_SECTION's groups: the keyword `Attributes` after the list
   * marker, and everything between the parentheses, which holds no `)`.
   */
  lemma AttributesSectionSpec(s: string)
    ensures AttributesSection(s).Some? ==>
      var gs := AttributesSection(s).value;
      |gs| == 2 && gs[0].Some? && gs[1].Some? && ListItemStart(s) == Some(gs[0].value.start)
      && KeywordAt(s, gs[0].value.start, "attributes") && gs[0].value.end == gs[0].value.start + 10
      && 0 < gs[1].value.start < gs[1].value.end < |s|
      && s[gs[1].value.start - 1] == '(' && s[gs[1].value.end] == ')'
      && forall t :: gs[1].value.start <= t < gs[1].value.end ==> s[t] != ')'
  {
    if AttributesSection(s).Some? {
      var p1 := ListItemStart(s).value;
      var q := SkipWs(s, p1 + 10);
      SkipToRun(s, q + 1, ')');
    }
  }

  /**
   * A list item line (`+` after white space) is no FORMAT, HOST or group
   * header line and no resource header: each of those opens with another
   * character.
   */
  lemma ListItemNotHeader(s: string)
    ensures ListItemStart(s).Some? ==> !FormatLine(s) && !HostLine(s) && !GroupHeader(s) && Resource(s).None?
  {
    if ListItemStart(s).Some? {
      var p0 := SkipWs(s, 0);
      SkipWsRun(s, 0);
      assert s[0] == '+' || IsSpace(s[0]);
      if KeywordAt(s, 0, "format:") {
        KeywordHead(s, 0, "format:");
      }
      if KeywordAt(s, 0, "host:") {
        KeywordHead(s, 0, "host:");
      }
    }
  }

  /** An Attributes line, typed or bare, is not a SECTION line: no section keyword starts with `a`. */
  lemma AttributesNotSection(s: string)
    ensures AttributesSection(s).Some? || SimpleAttributes(s).Some? ==> Section(s).None?
  {
    if AttributesSection(s).Some? || SimpleAttributes(s).Some? {
      var p1 := ListItemStart(s).value;
      if AttributesSection(s).Some? {
        KeywordHead(s, p1, "attributes");
      } else {
        KeywordHead(s, p1, "attributes");
      }
      FirstKeywordSpec(s, p1, SectionKeywords);
      forall a | 0 <= a < |SectionKeywords| ensures !KeywordAt(s, p1, SectionKeywords[a]) {
        assert SectionKeywords[a][0] != 'a';
      }
    }
  }

  // ---------------------------------------------------------------------
  // Request and response lines

  /**
   * The parenthesised media type of a request or response line: group 4
   * lies strictly inside the parentheses of group 3 and holds no `)`.
   */
  predicate MediaGroupsShaped(s: string, gs: Groups)
    requires |gs| == 4
  {
    (gs[2].Some? <==> gs[3].Some?)
    && (gs[3].Some? ==>
          var g3 := gs[2].value; var g4 := gs[3].value;
          g3.start + 1 == g4.start < g4.end && g4.end + 1 == g3.end <= |s|
          && s[g3.start] == '(' && s[g4.end] == ')'
          && forall t :: g4.start <= t < g4.end ==> s[t] != ')')
  }

  lemma MediaGroupsSpec(s: string, e: nat)
    requires e <= |s| && MediaTail(s, e).Some?
    ensures |MediaGroups(s, e, MediaTail(s, e).value)| == 2
    ensures MediaGroupsShaped(s, [None, None] + MediaGroups(s, e, MediaTail(s, e).value))
  {
    var w := SkipWs(s, e);
    if MediaTail(s, e).value.Some? {
      SkipToRun(s, w + 1, ')');
    }
  }

  /** A status code is `\d{3}` between white space and a byte that is not a digit. */
  predicate StatusShaped(s: string, st: Span) {
    st.end == st.start + 3 && 0 < st.start && st.end <= |s|
    && (forall t :: st.start <= t < st.end ==> IsDigit(s[t]))
    && IsSpace(s[st.start - 1]) && (st.end == |s| || !IsDigit(s[st.end]))
  }

  /**
   * RESPONSE: group 1 is the keyword `Response` (any case), group 2 is
   * exactly three digits that no digit follows, and the media type, when
   * present, lies inside its parentheses.
   */
  lemma ResponseSpec(s: string)
    ensures Response(s).Some? ==>
      var gs := Response(s).value;
      |gs| == 4 && gs[0].Some? && gs[1].Some?
      && KeywordAt(s, gs[0].value.start, "response") && gs[0].value.end == gs[0].value.start + 8
      && StatusShaped(s, gs[1].value) && MediaGroupsShaped(s, gs)
  {
    if Response(s).Some? {
      var p1 := ListItemStart(s).value;
      var d := SkipWs(s, p1 + 8);
      SkipWsRun(s, p1 + 8);
      MediaGroupsSpec(s, d + 3);
      assert IsSpace(s[d - 1]);
    }
  }

  /**
   * REQUEST: group 1 is the keyword `Request` (any case) and the media
   * type, when present, lies inside its parentheses.
   */
  lemma RequestSpec(s: string)
    ensures Request(s).Some? ==>
      var gs := Request(s).value;
      |gs| == 4 && gs[0].Some?
      && KeywordAt(s, gs[0].value.start, "request") && gs[0].value.end == gs[0].value.start + 7
      && MediaGroupsShaped(s, gs)
  {
    if Request(s).Some? {
      var p1 := ListItemStart(s).value;
      var k := p1 + 7;
      var (x, e) := LastStartFirstEnd(MediaType, s, k, SkipWs(s, k), 0).value;
      MediaGroupsSpec(s, e);
    }
  }

  // ---------------------------------------------------------------------
  // What findAll reports

  /** No match of `p` starts in `[lo, hi)`. */
  predicate NoMatchIn(p: ScanPattern, s: string, lo: nat, hi: nat) {
    forall j :: lo <= j < hi ==> MatchAt(p, s, j).None?
  }

  /** `find` reports the leftmost match at or after `i`, and nothing only when there is none. */
  lemma {:induction false} SearchSpec(p: ScanPattern, s: string, i: nat)
    requires i <= |s|
    ensures match Search(p, s, i)
      case Some(m) => i <= m.range.start && MatchAt(p, s, m.range.start) == Some(m) && NoMatchIn(p, s, i, m.range.start)
      case None => NoMatchIn(p, s, i, |s| + 1)
    decreases |s| - i
  {
    MatchAtIn(p, s, i);
    if MatchAt(p, s, i).None? && i < |s| {
      SearchSpec(p, s, i + 1);
    }
  }

  /** A match at `m.range.start` with none before it from `lo` on is what `find` reports. */
  lemma SearchFinds(p: ScanPattern, s: string, lo: nat, m: Match)
    requires lo <= m.range.start <= |s| && MatchAt(p, s, m.range.start) == Some(m) && NoMatchIn(p, s, lo, m.range.start)
    ensures Search(p, s, lo) == Some(m)
  {
    SearchSpec(p, s, lo);
    match Search(p, s, lo)
    case Some(m') =>
      assert m'.range.start == m.range.start;
    case None =>
  }

  /** With no match from `lo` to the end, `findAll` reports nothing. */
  lemma FindAllNone(p: ScanPattern, s: string, lo: nat)
    requires lo <= |s| && MatchAt(p, s, lo).None?
    requires forall k :: lo < k <= |s| ==> MatchAt(p, s, k).None?
    ensures FindAll(p, s, lo) == []
  {
    SearchSpec(p, s, lo);
  }

  /** One step of `findAll`: the leftmost match, then the matches from its end on. */
  lemma FindAllCons(p: ScanPattern, s: string, i: nat)
    requires i <= |s| && Search(p, s, i).Some?
    ensures var m := Search(p, s, i).value;
      i < m.range.end <= |s| && FindAll(p, s, i) == [m] + FindAll(p, s, m.range.end)
  {
    SearchIn(p, s, i);
  }

  /** Every match `findAll` reports is a match of `p` at its own start. */
  lemma {:induction false} FindAllMatches(p: ScanPattern, s: string, i: nat)
    requires i <= |s|
    ensures var ms := FindAll(p, s, i);
      forall k :: 0 <= k < |ms| ==> MatchAt(p, s, ms[k].range.start) == Some(ms[k])
    decreases |s| - i
  {
    SearchSpec(p, s, i);
    if Search(p, s, i).Some? {
      var m := Search(p, s, i).value;
      FindAllCons(p, s, i);
      FindAllMatches(p, s, m.range.end);
      ConsAll((x: Match) => MatchAt(p, s, x.range.start) == Some(x), m, FindAll(p, s, m.range.end));
    }
  }

  /** A property of every element survives putting one more element that has it in front. */
  lemma ConsAll(ok: Match -> bool, m: Match, rest: seq<Match>)
    requires ok(m) && forall k :: 0 <= k < |rest| ==> ok(rest[k])
    ensures var ms := [m] + rest; forall k :: 0 <= k < |ms| ==> ok(ms[k])
  {
    var ms := [m] + rest;
    assert forall k :: 1 <= k < |ms| ==> ms[k] == rest[k - 1];
  }

  lemma ConsOrdered(m: Match, rest: seq<Match>)
    requires forall k :: 0 <= k < |rest| ==> m.range.end <= rest[k].range.start
    requires forall k :: 0 <= k < |rest| - 1 ==> rest[k].range.end <= rest[k + 1].range.start
    ensures var ms := [m] + rest; forall k :: 0 <= k < |ms| - 1 ==> ms[k].range.end <= ms[k + 1].range.start
  {
    var ms := [m] + rest;
    assert forall k :: 1 <= k < |ms| ==> ms[k] == rest[k - 1];
  }

  lemma ConsBetween(p: ScanPattern, s: string, m: Match, rest: seq<Match>)
    requires |rest| > 0 ==> NoMatchIn(p, s, m.range.end, rest[0].range.start)
    requires forall k :: 0 <= k < |rest| - 1 ==> NoMatchIn(p, s, rest[k].range.end, rest[k + 1].range.start)
    ensures var ms := [m] + rest;
      forall k :: 0 <= k < |ms| - 1 ==> NoMatchIn(p, s, ms[k].range.end, ms[k + 1].range.start)
  {
    var ms := [m] + rest;
    assert forall k :: 1 <= k < |ms| ==> ms[k] == rest[k - 1];
  }

  /** No match starts before the first match of `findAll`. */
  lemma FindAllFirst(p: ScanPattern, s: string, i: nat)
    requires i <= |s|
    ensures var ms := FindAll(p, s, i); |ms| > 0 ==> NoMatchIn(p, s, i, ms[0].range.start)
  {
    SearchSpec(p, s, i);
    if Search(p, s, i).Some? {
      FindAllCons(p, s, i);
    }
  }

  /** Consecutive matches of `findAll` do not overlap. */
  lemma {:induction false} FindAllOrdered(p: ScanPattern, s: string, i: nat)
    requires i <= |s|
    ensures var ms := FindAll(p, s, i); forall k :: 0 <= k < |ms| - 1 ==> ms[k].range.end <= ms[k + 1].range.start
    decreases |s| - i
  {
    if Search(p, s, i).Some? {
      var m := Search(p, s, i).value;
      FindAllCons(p, s, i);
      var rest := FindAll(p, s, m.range.end);
      FindAllOrdered(p, s, m.range.end);
      FindAllIn(p, s, m.range.end);
      ConsOrdered(m, rest);
    }
  }

  /** No match starts between two consecutive matches of `findAll`. */
  lemma {:induction false} FindAllBetween(p: ScanPattern, s: string, i: nat)
    requires i <= |s|
    ensures var ms := FindAll(p, s, i);
      forall k :: 0 <= k < |ms| - 1 ==> NoMatchIn(p, s, ms[k].range.end, ms[k + 1].range.start)
    decreases |s| - i
  {
    if Search(p, s, i).Some? {
      var m := Search(p, s, i).value;
      FindAllCons(p, s, i);
      var rest := FindAll(p, s, m.range.end);
      FindAllBetween(p, s, m.range.end);
      FindAllFirst(p, s, m.range.end);
      ConsBetween(p, s, m, rest);
    }
  }

  /** No match starts after the last match of `findAll`, nor anywhere when it reports none. */
  lemma {:induction false} FindAllLast(p: ScanPattern, s: string, i: nat)
    requires i <= |s|
    ensures var ms := FindAll(p, s, i);
      && (|ms| == 0 ==> NoMatchIn(p, s, i, |s| + 1))
      && (|ms| > 0 ==> NoMatchIn(p, s, ms[|ms| - 1].range.end, |s| + 1))
    decreases |s| - i
  {
    SearchSpec(p, s, i);
    if Search(p, s, i).Some? {
      var m := Search(p, s, i).value;
      FindAllCons(p, s, i);
      FindAllLast(p, s, m.range.end);
    }
  }

  /**
   * `findAll` reports, left to right, every match that the scan meets:
   * each one is a match at its start, consecutive matches do not overlap,
   * and no match starts before the first, between two of them, or after
   * the last.
   */
  lemma FindAllSpec(p: ScanPattern, s: string, i: nat)
    requires i <= |s|
    ensures var ms := FindAll(p, s, i);
      && (forall k :: 0 <= k < |ms| ==> MatchAt(p, s, ms[k].range.start) == Some(ms[k]))
      && (forall k :: 0 <= k < |ms| - 1 ==> ms[k].range.end <= ms[k + 1].range.start)
      && (forall k :: 0 <= k < |ms| - 1 ==> NoMatchIn(p, s, ms[k].range.end, ms[k + 1].range.start))
      && (|ms| == 0 ==> NoMatchIn(p, s, i, |s| + 1))
      && (|ms| > 0 ==> NoMatchIn(p, s, i, ms[0].range.start) && NoMatchIn(p, s, ms[|ms| - 1].range.end, |s| + 1))
  {
    FindAllMatches(p, s, i);
    FindAllFirst(p, s, i);
    FindAllOrdered(p, s, i);
    FindAllBetween(p, s, i);
    FindAllLast(p, s, i);
  }
}
