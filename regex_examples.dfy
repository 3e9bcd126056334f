/**
 * The recognizers on the example lines of the plugin's own tests: for each
 * line, whether the pattern matches and which spans its groups capture.
 */
module ApiBlueprintRegexExamples {
  import opened Text
  import opened ApiBlueprintRegexUtils
  import opened ApiBlueprintRegexProperties

  /** FORMAT accepts `FORMAT: 1A` and refuses another version. */
  lemma FormatExamples()
    ensures FormatLine("FORMAT: 1A")
    ensures !FormatLine("FORMAT: 2B")
  {
    var ok := "FORMAT: 1A";
    assert SkipWs(ok, 7) == 8;
    assert KeywordAt(ok, 0, "format:");
    assert KeywordAt(ok, 8, "1a");
    var bad := "FORMAT: 2B";
    assert SkipWs(bad, 7) == 8;
    assert Lower(bad[8 + 0]) != "1a"[0];
  }

  /** HOST accepts `HOST: https://` followed by any non-empty run of non-space characters. */
  lemma HostAcceptsUrl(url: string)
    requires |url| > 0 && forall t :: 0 <= t < |url| ==> !IsSpace(url[t])
    ensures HostLine("HOST: https://" + url)
  {
    var s := "HOST: https://" + url;
    assert s[..14] == "HOST: https://";
    assert forall t :: 0 <= t < 14 ==> s[t] == "HOST: https://"[t];
    assert SkipWs(s, 6) == 6;
    assert SkipWs(s, 5) == 6;
    assert KeywordAt(s, 0, "host:");
    assert KeywordAt(s, 6, "http");
    assert Lower(s[10]) == 's';
    assert s[11..14] == "://";
    SkipNonWsStops(s, 14, |s|);
  }

  /** The test line `HOST: https://api.example.com`. */
  lemma HostAccepts()
    ensures HostLine("HOST: https://" + "api.example.com")
  {
    HostAcceptsUrl("api.example.com");
  }

  /** HOST refuses text that is not a URL. */
  lemma HostRefuses()
    ensures !HostLine("HOST: not-a-url")
  {
    var bad := "HOST: not-a-url";
    assert SkipWs(bad, 5) == 6;
    assert Lower(bad[6 + 0]) != "http"[0];
  }

  /** White space that may indent a list item. */
  predicate Indent(w: string) { forall t :: 0 <= t < |w| ==> IsSpace(w[t]) }

  /** A list item whose marker `+ ` follows `n` white-space characters. */
  lemma ListItemAt(s: string, n: nat)
    requires n + 2 < |s| && s[n] == '+' && s[n + 1] == ' ' && !IsSpace(s[n + 2])
    requires forall t :: 0 <= t < n ==> IsSpace(s[t])
    ensures ListItemStart(s) == Some(n + 2)
  {
    SkipWsStops(s, 0, n);
    SkipWsStops(s, n + 1, n + 2);
  }

  /** `\(([^)]+)\)` at `i` when the `)` at `b` is the first one after `i + 1`. */
  lemma ParenAtClose(s: string, i: nat, b: nat)
    requires i + 1 < b < |s| && s[i] == '(' && s[b] == ')'
    requires forall t :: i + 1 <= t < b ==> s[t] != ')'
    ensures ParenAt(s, i) == Some(b)
  {
    SkipToFrom(s, i + 1, b, ')');
  }

  /** Where the characters of `+ Attributes (T)` sit after the indentation. */
  lemma AttributesLineLayout(indent: string, ty: string)
    requires Indent(indent) && |ty| > 0 && forall t :: 0 <= t < |ty| ==> ty[t] != ')'
    ensures var n := |indent|; var s := indent + "+ Attributes (" + ty + ")";
      |s| == n + 15 + |ty| && (forall t :: 0 <= t < n ==> IsSpace(s[t]))
      && s[n] == '+' && s[n + 1] == ' ' && s[n + 2] == 'A' && KeywordAt(s, n + 2, "attributes")
      && s[n + 12] == ' ' && s[n + 13] == '(' && s[|s| - 1] == ')'
      && forall t :: n + 14 <= t < |s| - 1 ==> s[t] != ')'
  {
    var n := |indent|;
    var s := indent + "+ Attributes (" + ty + ")";
    assert forall t :: 0 <= t < n ==> s[t] == indent[t];
    AttributesKeyword(indent, ty);
    assert forall t :: n + 14 <= t < |s| - 1 ==> s[t] == ty[t - n - 14];
  }

  lemma AttributesKeyword(indent: string, ty: string)
    ensures var n := |indent|; var s := indent + "+ Attributes (" + ty + ")";
      forall t :: 0 <= t < 14 ==> s[n + t] == "+ Attributes ("[t]
  {
    var n := |indent|;
    var s := indent + "+ Attributes (" + ty + ")";
    assert s == indent + ("+ Attributes (" + ty + ")");
  }

  /**
   * ATTRIBUTES_SECTION on `+ Attributes (T)` after any indentation: group 1
   * is the keyword, starting two characters after the indentation, and
   * group 2 is the whole of `T`, whatever it holds besides `)`.
   */
  lemma AttributesSectionAt(indent: string, ty: string)
    requires Indent(indent) && |ty| > 0 && forall t :: 0 <= t < |ty| ==> ty[t] != ')'
    ensures var n := |indent|;
      AttributesSection(indent + "+ Attributes (" + ty + ")")
        == Some([Some(Span(n + 2, n + 12)), Some(Span(n + 14, n + 14 + |ty|))])
  {
    var n := |indent|;
    var s := indent + "+ Attributes (" + ty + ")";
    AttributesLineLayout(indent, ty);
    ListItemAt(s, n);
    SkipWsStops(s, n + 12, n + 13);
    ParenAtClose(s, n + 13, |s| - 1);
  }

  /** The positions the tests expect with no indentation. */
  lemma AttributesSectionUnindented()
    ensures AttributesSection("" + "+ Attributes (" + "Coupon" + ")") == Some([Some(Span(2, 12)), Some(Span(14, 20))])
  {
    AttributesSectionAt("", "Coupon");
  }

  /** The positions the tests expect after four spaces. */
  lemma AttributesSectionFourSpaces()
    ensures AttributesSection("    " + "+ Attributes (" + "Coupon" + ")") == Some([Some(Span(6, 16)), Some(Span(18, 24))])
  {
    AttributesSectionAt("    ", "Coupon");
  }

  /** The positions the tests expect after a tab. */
  lemma AttributesSectionTab()
    ensures AttributesSection("\t" + "+ Attributes (" + "Coupon" + ")") == Some([Some(Span(3, 13)), Some(Span(15, 21))])
  {
    AttributesSectionAt("\t", "Coupon");
  }

  /** The positions the tests expect after two spaces. */
  lemma AttributesSectionTwoSpaces()
    ensures AttributesSection("  " + "+ Attributes (" + "Product" + ")") == Some([Some(Span(4, 14)), Some(Span(16, 23))])
  {
    AttributesSectionAt("  ", "Product");
  }
}
