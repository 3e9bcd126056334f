/**
 * Section, request and response lines and the scanned patterns on the
 * example lines of the plugin's own tests.
 */
module ApiBlueprintScanExamples {
  import opened Text
  import opened ApiBlueprintRegexUtils
  import opened ApiBlueprintRegexProperties
  import opened ApiBlueprintRegexExamples

  /** The list marker `+ ` at the start of `s`, with a non-space character after it. */
  lemma MarkerAt(s: string)
    requires |s| > 2 && s[0] == '+' && s[1] == ' ' && !IsSpace(s[2])
    ensures ListItemStart(s) == Some(2)
  {
    assert SkipWs(s, 2) == 2;
    assert SkipWs(s, 1) == 2;
  }

  /** A keyword cannot occur where its first letter does not. */
  lemma NotKeyword(s: string, i: nat, kw: string)
    requires |kw| > 0 && (i < |s| ==> Lower(s[i]) != kw[0])
    ensures !KeywordAt(s, i, kw)
  {
    if i < |s| {
      assert Lower(s[i + 0]) != kw[0];
    }
  }

  /** A word at `[2, |s|)` that ends the line. */
  lemma SectionWord(s: string, kw: string)
    requires |s| == 2 + |kw| && |kw| > 0 && s[0] == '+' && s[1] == ' ' && !IsSpace(s[2])
    requires IsWordChar(s[|s| - 1]) && FirstKeyword(s, 2, SectionKeywords) == Some(kw)
    ensures Section(s) == Some([Some(Span(2, |s|))])
  {
    MarkerAt(s);
    assert SkipLine(s, |s|) == |s|;
  }

  /** SECTION takes each of the four section keywords after the list marker. */
  lemma SectionTakesParameters()
    ensures Section("+ Parameters") == Some([Some(Span(2, 12))])
  {
    var p := "+ Parameters";
    assert KeywordAt(p, 2, "parameters");
    SectionWord(p, "parameters");
  }

  lemma SectionTakesHeaders()
    ensures Section("+ Headers") == Some([Some(Span(2, 9))])
  {
    var h := "+ Headers";
    assert KeywordAt(h, 2, "headers");
    SectionWord(h, "headers");
  }

  lemma SectionTakesBody()
    ensures Section("+ Body") == Some([Some(Span(2, 6))])
  {
    var b := "+ Body";
    assert KeywordAt(b, 2, "body");
    SectionWord(b, "body");
  }

  lemma SectionTakesSchema()
    ensures Section("+ Schema") == Some([Some(Span(2, 8))])
  {
    var c := "+ Schema";
    NotKeyword(c, 2, "body");
    assert KeywordAt(c, 2, "schema");
    SectionWord(c, "schema");
  }

  /** SECTION refuses a list item that starts with another word. */
  lemma SectionRefuses()
    ensures Section("+ Random text") == None
  {
    var r := "+ Random text";
    MarkerAt(r);
    NotKeyword(r, 2, "parameters");
    NotKeyword(r, 2, "headers");
    NotKeyword(r, 2, "body");
    NotKeyword(r, 2, "schema");
  }

  /** A bare `+ Attributes` line is SIMPLE_ATTRIBUTES and not ATTRIBUTES_SECTION. */
  lemma SimpleAttributesExample()
    ensures SimpleAttributes("+ Attributes") == Some([Some(Span(2, 12))])
    ensures AttributesSection("+ Attributes") == None
  {
  }

  /** A media type: non-empty, with no `)` in it. */
  predicate MediaText(mime: string) { |mime| > 0 && forall t :: 0 <= t < |mime| ==> mime[t] != ')' }

  /** Where the characters of `+ Response C (M)` sit. */
  lemma ResponseLineLayout(code: string, mime: string)
    requires |code| == 3 && MediaText(mime)
    ensures var s := "+ Response " + code + " (" + mime + ")";
      |s| == 17 + |mime| && s[0] == '+' && s[1] == ' ' && s[2] == 'R' && KeywordAt(s, 2, "response")
      && s[10] == ' ' && s[11..14] == code && s[14] == ' ' && s[15] == '(' && s[|s| - 1] == ')'
      && forall t :: 16 <= t < |s| - 1 ==> s[t] != ')'
  {
    var s := "+ Response " + code + " (" + mime + ")";
    assert forall t :: 0 <= t < 11 ==> s[t] == "+ Response "[t];
    assert s[11..14] == code;
    assert forall t :: 0 <= t < 2 ==> s[14 + t] == " ("[t];
    assert forall t :: 16 <= t < |s| - 1 ==> s[t] == mime[t - 16];
  }

  /**
   * RESPONSE on `+ Response C (M)` for a three-digit code `C`: the
   * keyword, the code, the parenthesised media type and the media type.
   */
  lemma ResponseAt(code: string, mime: string)
    requires |code| == 3 && IsDigit(code[0]) && IsDigit(code[1]) && IsDigit(code[2]) && MediaText(mime)
    ensures var s := "+ Response " + code + " (" + mime + ")";
      Response(s) == Some([Some(Span(2, 10)), Some(Span(11, 14)), Some(Span(15, |s|)), Some(Span(16, |s| - 1))])
  {
    var s := "+ Response " + code + " (" + mime + ")";
    ResponseLineLayout(code, mime);
    assert s[11] == code[0] && s[12] == code[1] && s[13] == code[2];
    ListItemAt(s, 0);
    SkipWsStops(s, 10, 11);
    SkipWsStops(s, 14, 15);
    ParenAtClose(s, 15, |s| - 1);
    assert SkipWs(s, |s|) == |s|;
    assert ListItemStart(s) == Some(2);
    assert SkipWs(s, 10) == 11;
    assert IsDigit(s[11]) && IsDigit(s[12]) && IsDigit(s[13]);
    assert WsToLineEnd(s, |s|);
    assert MediaTail(s, 14) == Some(Some(|s| - 1));
    assert [Some(Span(2, 10)), Some(Span(11, 14))] + MediaGroups(s, 14, Some(|s| - 1))
      == [Some(Span(2, 10)), Some(Span(11, 14)), Some(Span(15, |s|)), Some(Span(16, |s| - 1))];
  }

  /** `+ Response 200` without a media type: groups 3 and 4 are absent. */
  lemma ResponseWithoutMedia()
    ensures Response("+ Response 200") == Some([Some(Span(2, 10)), Some(Span(11, 14)), None, None])
  {
    var s := "+ Response 200";
    ListItemAt(s, 0);
    assert KeywordAt(s, 2, "response");
    SkipWsStops(s, 10, 11);
    assert SkipWs(s, 14) == 14;
    assert ParenAt(s, 14) == None;
    assert MediaTail(s, 14) == Some(None);
    assert [Some(Span(2, 10)), Some(Span(11, 14))] + MediaGroups(s, 14, None)
      == [Some(Span(2, 10)), Some(Span(11, 14)), None, None];
  }

  /** The test lines `+ Response 200 (application/json)`. */
  lemma ResponseExample()
    ensures Response("+ Response " + "200" + " (" + "application/json" + ")")
      == Some([Some(Span(2, 10)), Some(Span(11, 14)), Some(Span(15, 33)), Some(Span(16, 32))])
  {
    ResponseAt("200", "application/json");
  }

  /** Where the characters of `+ Request (M)` sit. */
  lemma RequestLineLayout(mime: string)
    requires MediaText(mime)
    ensures var s := "+ Request (" + mime + ")";
      |s| == 12 + |mime| && s[0] == '+' && s[1] == ' ' && s[2] == 'R' && KeywordAt(s, 2, "request")
      && s[9] == ' ' && s[10] == '(' && s[|s| - 1] == ')'
      && forall t :: 11 <= t < |s| - 1 ==> s[t] != ')'
  {
    var s := "+ Request (" + mime + ")";
    assert forall t :: 0 <= t < 11 ==> s[t] == "+ Request ("[t];
    assert forall t :: 11 <= t < |s| - 1 ==> s[t] == mime[t - 11];
  }

  /**
   * REQUEST on `+ Request (M)`: the keyword, an empty name after the
   * white space, the parenthesised media type and the media type.
   */
  lemma RequestAt(mime: string)
    requires MediaText(mime)
    ensures var s := "+ Request (" + mime + ")";
      Request(s) == Some([Some(Span(2, 9)), Some(Span(10, 10)), Some(Span(10, |s|)), Some(Span(11, |s| - 1))])
  {
    var s := "+ Request (" + mime + ")";
    RequestLineLayout(mime);
    ListItemAt(s, 0);
    SkipWsStops(s, 9, 10);
    ParenAtClose(s, 10, |s| - 1);
    assert SkipWs(s, |s|) == |s|;
    assert MediaTail(s, 10) == Some(Some(|s| - 1));
    assert FirstLazyEnd(MediaType, s, 10, 10) == Some(10);
    assert LastStartFirstEnd(MediaType, s, 9, 10, 0) == Some((10, 10));
    assert [Some(Span(2, 9)), Some(Span(10, 10))] + MediaGroups(s, 10, Some(|s| - 1))
      == [Some(Span(2, 9)), Some(Span(10, 10)), Some(Span(10, |s|)), Some(Span(11, |s| - 1))];
  }

  /** The test line `+ Request (application/json)`. */
  lemma RequestExample()
    ensures Request("+ Request (" + "application/json" + ")")
      == Some([Some(Span(2, 9)), Some(Span(10, 10)), Some(Span(10, 28)), Some(Span(11, 27))])
  {
    RequestAt("application/json");
  }

  /** URI_VAR finds `id` in `/coupons/{id}`; the match includes the braces. */
  lemma UriVarExample()
    ensures Search(UriVar, "/coupons/{id}", 0) == Some(Match(Span(9, 13), [Some(Span(10, 12))]))
  {
    var s := "/coupons/{id}";
    assert SkipWord(s, 12) == 12;
    assert MatchAt(UriVar, s, 9) == Some(Match(Span(9, 13), [Some(Span(10, 12))]));
    forall k | 0 <= k < 9 ensures MatchAt(UriVar, s, k).None? {
      assert s[k] != '{';
    }
    SearchSpec(UriVar, s, 0);
  }

  /** The first `{` of `s` opens `{?`, followed by query characters up to a `}`. */
  lemma QueryFirst(s: string, i: nat, e: nat)
    requires i + 2 < e < |s| && s[i] == '{' && s[i + 1] == '?' && s[e] == '}'
    requires forall t :: i + 2 <= t < e ==> IsQueryChar(s[t])
    requires forall k :: 0 <= k < i ==> s[k] != '{'
    ensures Search(UriQuery, s, 0) == Some(Match(Span(i, e + 1), [Some(Span(i + 2, e))]))
  {
    QueryAt(s, i, e);
    forall k | 0 <= k < i ensures MatchAt(UriQuery, s, k).None? {
      QueryNot(s, k);
    }
    SearchSpec(UriQuery, s, 0);
  }

  lemma QueryAt(s: string, i: nat, e: nat)
    requires i + 2 < e < |s| && s[i] == '{' && s[i + 1] == '?' && s[e] == '}'
    requires forall t :: i + 2 <= t < e ==> IsQueryChar(s[t])
    ensures MatchAt(UriQuery, s, i) == Some(Match(Span(i, e + 1), [Some(Span(i + 2, e))]))
  {
    SkipQueryStops(s, i + 2, e);
  }

  lemma QueryNot(s: string, k: nat)
    requires k < |s| && s[k] != '{'
    ensures MatchAt(UriQuery, s, k).None?
  {
  }

  /** URI_QUERY takes the name after `{?` in a URI template. */
  lemma UriQueryTakesName()
    ensures Search(UriQuery, "/coupons{?limit}", 0) == Some(Match(Span(8, 16), [Some(Span(10, 15))]))
  {
    QueryFirst("/coupons{?limit}", 8, 15);
  }

  /** URI_QUERY takes the whole comma list after `{?` as one group. */
  lemma UriQueryTakesList()
    ensures Search(UriQuery, "/users{?page,size,sort}", 0) == Some(Match(Span(6, 23), [Some(Span(8, 22))]))
  {
    QueryFirst("/users{?page,size,sort}", 6, 22);
  }

  /** A type keyword in parentheses, ending at a word boundary, with the `)` found from there. */
  lemma TypeKeywordParen(s: string, e: nat)
    requires 1 < e < |s| && s[0] == '(' && s[|s| - 1] == ')' && IsWordChar(s[e - 1]) && !IsWordChar(s[e])
    requires FirstKeyword(s, 1, TypeKeywords) == Some(s[1..e])
    requires SkipTo(s, e, ')') == |s| - 1
    ensures Search(TypeAnnotation, s, 0) == Some(Match(Span(0, |s|), [Some(Span(1, e))]))
  {
    assert BoundaryAt(s, 1 + |s[1..e]|);
    assert MatchAt(TypeAnnotation, s, 0) == Some(Match(Span(0, |s|), [Some(Span(1, e))]));
  }

  /** A type keyword alone in parentheses. */
  lemma TypeWordParen(s: string)
    requires |s| > 2 && s[0] == '(' && s[|s| - 1] == ')' && IsWordChar(s[|s| - 2])
    requires FirstKeyword(s, 1, TypeKeywords) == Some(s[1..|s| - 1])
    ensures Search(TypeAnnotation, s, 0) == Some(Match(Span(0, |s|), [Some(Span(1, |s| - 1))]))
  {
    SkipToFrom(s, |s| - 1, |s| - 1, ')');
    TypeKeywordParen(s, |s| - 1);
  }

  /** TYPE_ANNOTATION finds each type keyword in parentheses. */
  lemma TypeAnnotationTakesNumber()
    ensures Search(TypeAnnotation, "(number)", 0) == Some(Match(Span(0, 8), [Some(Span(1, 7))]))
  {
    var s := "(number)";
    assert KeywordAt(s, 1, "number");
    assert s[1..7] == "number";
    TypeWordParen(s);
  }

  lemma TypeAnnotationTakesObject()
    ensures Search(TypeAnnotation, "(object)", 0) == Some(Match(Span(0, 8), [Some(Span(1, 7))]))
  {
    var s := "(object)";
    NotKeyword(s, 1, "number");
    assert KeywordAt(s, 1, "object");
    assert s[1..7] == "object";
    TypeWordParen(s);
  }

  lemma TypeAnnotationTakesString()
    ensures Search(TypeAnnotation, "(string)", 0) == Some(Match(Span(0, 8), [Some(Span(1, 7))]))
  {
    var s := "(string)";
    NotKeyword(s, 1, "number");
    NotKeyword(s, 1, "object");
    assert KeywordAt(s, 1, "string");
    assert s[1..7] == "string";
    TypeWordParen(s);
  }

  lemma TypeAnnotationTakesBoolean()
    ensures Search(TypeAnnotation, "(boolean)", 0) == Some(Match(Span(0, 9), [Some(Span(1, 8))]))
  {
    var s := "(boolean)";
    NotKeyword(s, 1, "number");
    NotKeyword(s, 1, "object");
    NotKeyword(s, 1, "string");
    assert KeywordAt(s, 1, "boolean");
    assert s[1..8] == "boolean";
    TypeWordParen(s);
  }

  lemma TypeAnnotationTakesArray()
    ensures Search(TypeAnnotation, "(array)", 0) == Some(Match(Span(0, 7), [Some(Span(1, 6))]))
  {
    var s := "(array)";
    NotKeyword(s, 1, "number");
    NotKeyword(s, 1, "object");
    NotKeyword(s, 1, "string");
    NotKeyword(s, 1, "boolean");
    assert KeywordAt(s, 1, "array");
    assert s[1..6] == "array";
    TypeWordParen(s);
  }

  lemma TypeAnnotationTakesEnum()
    ensures Search(TypeAnnotation, "(enum)", 0) == Some(Match(Span(0, 6), [Some(Span(1, 5))]))
  {
    var s := "(enum)";
    NotKeyword(s, 1, "number");
    NotKeyword(s, 1, "object");
    NotKeyword(s, 1, "string");
    NotKeyword(s, 1, "boolean");
    NotKeyword(s, 1, "array");
    assert KeywordAt(s, 1, "enum");
    assert s[1..5] == "enum";
    TypeWordParen(s);
  }

  /** After the keyword and a word boundary, anything up to the `)` belongs to the match. */
  lemma TypeAnnotationWithFlags()
    ensures Search(TypeAnnotation, "(string, required)", 0) == Some(Match(Span(0, 18), [Some(Span(1, 7))]))
  {
    var s := "(string, required)";
    FlagsKeyword();
    FlagsParen();
    assert s[1..7] == "string";
    TypeKeywordParen(s, 7);
  }

  lemma FlagsKeyword()
    ensures FirstKeyword("(string, required)", 1, TypeKeywords) == Some("string")
  {
    var s := "(string, required)";
    NotKeyword(s, 1, "number");
    NotKeyword(s, 1, "object");
    assert KeywordAt(s, 1, "string");
  }

  lemma FlagsParen()
    ensures SkipTo("(string, required)", 7, ')') == 17
  {
    var s := "(string, required)";
    assert SkipTo(s, 17, ')') == 17;
    assert SkipTo(s, 15, ')') == 17;
    assert SkipTo(s, 13, ')') == 17;
    assert SkipTo(s, 11, ')') == 17;
    assert SkipTo(s, 9, ')') == 17;
  }

  /** `(invalid)` opens with no type keyword, so TYPE_ANNOTATION finds nothing in it. */
  lemma TypeAnnotationRefusesInvalid()
    ensures Search(TypeAnnotation, "(invalid)", 0) == None
  {
    var s := "(invalid)";
    InvalidKeyword();
    forall k | 0 <= k <= |s| ensures MatchAt(TypeAnnotation, s, k).None? {
      if 0 < k < |s| {
        assert s[k] != '(';
      }
    }
    SearchSpec(TypeAnnotation, s, 0);
  }

  lemma InvalidKeyword()
    ensures FirstKeyword("(invalid)", 1, TypeKeywords) == None
  {
    var s := "(invalid)";
    NotKeyword(s, 1, "number");
    NotKeyword(s, 1, "object");
    NotKeyword(s, 1, "string");
    NotKeyword(s, 1, "boolean");
    NotKeyword(s, 1, "array");
    NotKeyword(s, 1, "enum");
  }

  // MSON_FLAG's findAll on a sentence

  /** Each flag word on its own is one MSON_FLAG match over the whole word. */
  lemma FlagWordFound(kw: string)
    requires kw in FlagKeywords
    ensures Search(MsonFlag, kw, 0) == Some(Match(Span(0, |kw|), [Some(Span(0, |kw|))]))
  {
    FlagWordMatch(kw);
  }

  lemma FlagWordMatch(kw: string)
    requires kw in FlagKeywords
    ensures MatchAt(MsonFlag, kw, 0) == Some(Match(Span(0, |kw|), [Some(Span(0, |kw|))]))
  {
    FlagWordKeyword(kw);
  }

  lemma FlagWordKeyword(kw: string)
    requires kw in FlagKeywords
    ensures FirstKeyword(kw, 0, FlagKeywords) == Some(kw)
  {
    FirstKeywordSpec(kw, 0, FlagKeywords);
    FlagKeywordsChecked();
    SeparatedPrefixFree(FlagKeywords);
    LowerWordAt(kw, 0, kw);
  }

  /** No flag keyword can start at `k`: its letter opens none of them, or it is inside a word. */
  predicate NoFlagStart(s: string, k: nat) {
    k < |s| &&
    ((Lower(s[k]) != 'r' && Lower(s[k]) != 'o' && Lower(s[k]) != 'n' && Lower(s[k]) != 'd' && Lower(s[k]) != 's')
     || (0 < k && IsWordChar(s[k - 1]) && IsWordChar(s[k])))
  }

  lemma NoFlagAt(s: string, k: nat)
    requires NoFlagStart(s, k)
    ensures MatchAt(MsonFlag, s, k).None?
  {
    if !BoundaryAt(s, k) {
    } else {
      NotKeyword(s, k, "required");
      NotKeyword(s, k, "optional");
      NotKeyword(s, k, "nullable");
      NotKeyword(s, k, "default");
      NotKeyword(s, k, "sample");
    }
  }

  lemma NoFlagIn(s: string, lo: nat, hi: nat)
    requires forall k :: lo <= k < hi ==> NoFlagStart(s, k)
    ensures NoMatchIn(MsonFlag, s, lo, hi)
  {
    forall k | lo <= k < hi ensures MatchAt(MsonFlag, s, k).None? {
      NoFlagAt(s, k);
    }
  }

  lemma FlagSentenceGaps()
    ensures var s := "This field is " + "required" + " and " + "optional";
      |s| == 35 && (forall k :: 0 <= k < 14 ==> NoFlagStart(s, k)) && (forall k :: 22 <= k < 27 ==> NoFlagStart(s, k))
  {
  }

  lemma FlagSentenceWords()
    ensures var s := "This field is " + "required" + " and " + "optional";
      s[13] == ' ' && s[14..22] == "required" && s[22] == ' ' && s[26] == ' ' && s[27..35] == "optional"
  {
  }

  /** The flag `kw`, the first alternative that fits, as a whole word at `[i, i + |kw|)`. */
  lemma FlagAt(s: string, i: nat, kw: string)
    requires 0 < i && i + |kw| <= |s| && s[i..i + |kw|] == kw && kw in FlagKeywords
    requires !IsWordChar(s[i - 1]) && (i + |kw| == |s| || !IsWordChar(s[i + |kw|]))
    requires FirstKeyword(s, i, FlagKeywords) == Some(kw)
    ensures MatchAt(MsonFlag, s, i) == Some(Match(Span(i, i + |kw|), [Some(Span(i, i + |kw|))]))
  {
    assert IsWordChar(s[i]) by { assert s[i] == kw[0]; }
    assert IsWordChar(s[i + |kw| - 1]) by { assert s[i + |kw| - 1] == kw[|kw| - 1]; }
  }

  /** A lower-case word written out at `i` occurs there case-insensitively. */
  lemma LowerWordAt(s: string, i: nat, kw: string)
    requires i + |kw| <= |s| && s[i..i + |kw|] == kw
    requires forall k :: 0 <= k < |kw| ==> 'a' <= kw[k] <= 'z'
    ensures KeywordAt(s, i, kw)
  {
    forall k | 0 <= k < |kw| ensures Lower(s[i + k]) == kw[k] {
      assert s[i + k] == kw[k];
    }
  }

  lemma FlagSentenceRequired()
    ensures FirstKeyword("This field is " + "required" + " and " + "optional", 14, FlagKeywords) == Some("required")
  {
    FlagSentenceWords();
    LowerWordAt("This field is " + "required" + " and " + "optional", 14, "required");
  }

  lemma FlagSentenceOptional()
    ensures FirstKeyword("This field is " + "required" + " and " + "optional", 27, FlagKeywords) == Some("optional")
  {
    var s := "This field is " + "required" + " and " + "optional";
    FlagSentenceWords();
    NotKeyword(s, 27, "required");
    LowerWordAt(s, 27, "optional");
  }

  /** Two flag matches, with no match before or between them, the second at the end: findAll reports exactly these two. */
  lemma TwoFlagsFound(s: string, i: nat, a: nat, j: nat)
    requires i < a <= j < |s|
    requires MatchAt(MsonFlag, s, i) == Some(Match(Span(i, a), [Some(Span(i, a))]))
    requires MatchAt(MsonFlag, s, j) == Some(Match(Span(j, |s|), [Some(Span(j, |s|))]))
    requires NoMatchIn(MsonFlag, s, 0, i) && NoMatchIn(MsonFlag, s, a, j)
    ensures FindAll(MsonFlag, s, 0) == [Match(Span(i, a), [Some(Span(i, a))]), Match(Span(j, |s|), [Some(Span(j, |s|))])]
  {
    var m1 := Match(Span(i, a), [Some(Span(i, a))]);
    var m2 := Match(Span(j, |s|), [Some(Span(j, |s|))]);
    SearchFinds(MsonFlag, s, 0, m1);
    FindAllCons(MsonFlag, s, 0);
    SearchFinds(MsonFlag, s, a, m2);
    FindAllCons(MsonFlag, s, a);
    assert MatchAt(MsonFlag, s, |s|).None?;
    FindAllNone(MsonFlag, s, |s|);
  }

  /** MSON_FLAG's findAll on the sentence of the tests: `required`, then `optional`, and nothing else. */
  lemma FlagFindAllExample()
    ensures FindAll(MsonFlag, "This field is " + "required" + " and " + "optional", 0)
      == [Match(Span(14, 22), [Some(Span(14, 22))]), Match(Span(27, 35), [Some(Span(27, 35))])]
  {
    var s := "This field is " + "required" + " and " + "optional";
    FlagSentenceGaps();
    FlagSentenceWords();
    FlagSentenceRequired();
    FlagSentenceOptional();
    FlagAt(s, 14, "required");
    FlagAt(s, 27, "optional");
    NoFlagIn(s, 0, 14);
    NoFlagIn(s, 22, 27);
    TwoFlagsFound(s, 14, 22, 27);
  }
}
