/**
 * MSON_ATTRIBUTE on the attribute lines of the plugin's own tests: the
 * name, the sample value, the type and flags, and the description, each
 * as the span its group captures.
 */
module ApiBlueprintMsonExamples {
  import opened Text
  import opened ApiBlueprintRegexUtils
  import opened ApiBlueprintRegexProperties
  import opened ApiBlueprintRegexExamples
  import opened ApiBlueprintScanExamples

  /** An attribute name: a letter or `_`, then word characters. */
  predicate NameText(name: string) {
    |name| > 0 && (IsLetter(name[0]) || name[0] == '_') && forall t :: 0 <= t < |name| ==> IsWordChar(name[t])
  }

  /** A sample value made of word characters only, such as `250FF` or `1415203908`. */
  predicate ValueText(value: string) {
    |value| > 0 && forall t :: 0 <= t < |value| ==> IsWordChar(value[t])
  }

  /** The text inside the type parentheses: non-empty, with no `)` in it. */
  predicate TypeText(ty: string) { |ty| > 0 && forall t :: 0 <= t < |ty| ==> ty[t] != ')' }

  /** Text without a line terminator. */
  predicate OneLine(d: string) { forall t :: 0 <= t < |d| ==> !IsLineTerminator(d[t]) }

  /** A description: it starts with a non-space character and stays on one line. */
  predicate DescriptionText(desc: string) { |desc| > 0 && !IsSpace(desc[0]) && OneLine(desc) }

  // ---------------------------------------------------------------------
  // The pieces of the pattern

  /** `[^(\-]+?` can grow past word characters. */
  lemma {:induction false} SkipToEitherPast(s: string, i: nat, f: nat, a: char, b: char)
    requires i <= f <= |s|
    requires forall t :: i <= t < f ==> s[t] != a && s[t] != b
    ensures f <= SkipToEither(s, i, a, b)
    decreases f - i
  {
    if i < f { SkipToEitherPast(s, i + 1, f, a, b); }
  }

  /** The value cannot end just before a word character: nothing after it could match there. */
  lemma NotValueEnd(s: string, e: nat)
    requires e < |s| && IsWordChar(s[e])
    ensures !TailAt(AttributeValue, s, e)
  {
    SkipWsStops(s, e, e);
    assert ParenAt(s, e) == None;
    SkipWsStops(s, e, e);
    assert !WsToLineEnd(s, e);
  }

  /** The lazy group ends at the first end `f` from `e` on after which the rest matches. */
  lemma {:induction false} FirstLazyEndAt(t: LazyTail, s: string, x: nat, e: nat, f: nat)
    requires x <= e <= f <= |s| && f <= LazyLimit(t, s, x)
    requires forall j :: e <= j < f ==> !TailAt(t, s, j)
    requires TailAt(t, s, f)
    ensures FirstLazyEnd(t, s, x, e) == Some(f)
    decreases f - e
  {
    if e < f { FirstLazyEndAt(t, s, x, e + 1, f); }
  }

  /** A value of word characters at `[x, f)`, followed by ` ` and a type part that matches. */
  lemma ValueLazy(s: string, lo: nat, x: nat, f: nat)
    requires lo <= x < f && f + 1 < |s|
    requires forall t :: x <= t < f ==> IsWordChar(s[t])
    requires s[f] == ' ' && s[f + 1] == '(' && AttributeTail(s, f + 1).Some?
    ensures LastStartFirstEnd(AttributeValue, s, lo, x, 1) == Some((x, f))
  {
    SkipToEitherPast(s, x, f + 1, '(', '-');
    forall j | x + 1 <= j < f ensures !TailAt(AttributeValue, s, j) {
      NotValueEnd(s, j);
    }
    SkipWsStops(s, f, f + 1);
    FirstLazyEndAt(AttributeValue, s, x, x + 1, f);
  }

  /** `(T)` with the type and flags at `[o + 1, c)`. */
  predicate TypeAt(s: string, o: nat, c: nat) {
    o + 1 < c < |s| && s[o] == '(' && s[c] == ')' && forall t :: o + 1 <= t < c ==> s[t] != ')'
  }

  /** ` - D` after position `c`, the description `D` running to the end of the line. */
  predicate DescriptionAt(s: string, c: nat) {
    c + 4 < |s| && s[c + 1] == ' ' && s[c + 2] == '-' && s[c + 3] == ' ' && !IsSpace(s[c + 4])
    && forall t :: c + 4 <= t < |s| ==> !IsLineTerminator(s[t])
  }

  /** `(T)` closing the line: the type group, and no description. */
  lemma TypeTail(s: string, o: nat, c: nat)
    requires TypeAt(s, o, c) && c + 1 == |s|
    ensures AttributeTail(s, o) == Some((Some(Span(o + 1, c)), None))
  {
    ParenAtClose(s, o, c);
    SkipWsStops(s, c + 1, c + 1);
    assert DescriptionTail(s, c + 1) == Some(None);
  }

  /** `(T) - D` closing the line: the type group and the description group. */
  lemma TypeDescriptionTail(s: string, o: nat, c: nat)
    requires TypeAt(s, o, c) && DescriptionAt(s, c)
    ensures AttributeTail(s, o) == Some((Some(Span(o + 1, c)), Some(Span(c + 4, |s|))))
  {
    ParenAtClose(s, o, c);
    SkipWsStops(s, c + 1, c + 2);
    SkipWsStops(s, c + 3, c + 4);
    SkipLineStops(s, c + 4, |s|);
    assert LineFrom(s, c + 4, false, false);
    assert LastLineFrom(s, c + 3, c + 4, false, false) == Some(c + 4);
    assert DescriptionTail(s, c + 1) == Some(Some(Span(c + 4, |s|)));
  }

  /** The name at `[p1, p1 + |name|)` is the whole item word. */
  lemma NameAt(s: string, p1: nat, name: string)
    requires p1 + |name| < |s| && s[p1..p1 + |name|] == name && NameText(name) && !IsWordChar(s[p1 + |name|])
    ensures SkipWord(s, p1 + 1) == p1 + |name| && ItemWord(s, p1) == name
  {
    forall t | p1 + 1 <= t < p1 + |name| ensures IsWordChar(s[t]) {
      assert s[t] == name[t - p1];
    }
    SkipWordStops(s, p1 + 1, p1 + |name|);
    SkipWordStops(s, p1, p1 + |name|);
  }

  // ---------------------------------------------------------------------
  // Attribute lines

  /**
   * `s` starts as `I+ N`: white space up to `n`, the marker, and a name
   * that is not reserved at `[n + 2, a)`, followed by a character that
   * cannot continue it.
   */
  predicate ItemName(s: string, n: nat, a: nat) {
    n + 2 < a < |s| && (forall t :: 0 <= t < n ==> IsSpace(s[t]))
    && s[n] == '+' && s[n + 1] == ' ' && NameText(s[n + 2..a]) && LowerAll(s[n + 2..a]) !in ReservedNames
    && !IsWordChar(s[a])
  }

  /** Past the lookahead: on such a line MSON_ATTRIBUTE is PARAMETER_PATTERN, and the name is the whole word. */
  lemma ItemNameShape(s: string, n: nat, a: nat)
    requires ItemName(s, n, a)
    ensures MsonAttribute(s) == AttributeAfterName(s, n + 2, a)
  {
    var name := s[n + 2..a];
    assert s[n + 2] == name[0];
    ListItemAt(s, n);
    NameAt(s, n + 2, name);
    ReservedIffWholeWord(s, n + 2);
    assert !WordFrom(s, n + 2, ReservedNames);
    assert SkipWord(s, n + 2 + 1) == a && (IsLetter(s[n + 2]) || s[n + 2] == '_');
  }

  /** `: V ` at `a`, the value `V` of word characters at `[a + 2, f)`. */
  predicate ValueAt(s: string, a: nat, f: nat) {
    a + 2 < f < |s| && s[a] == ':' && s[a + 1] == ' ' && s[f] == ' '
    && forall t :: a + 2 <= t < f ==> IsWordChar(s[t])
  }

  /** `: V ` before a type part that matches: the value group is exactly `V`, and the type part follows it. */
  lemma ValueGroup(s: string, a: nat, f: nat)
    requires ValueAt(s, a, f) && f + 1 < |s| && s[f + 1] == '(' && AttributeTail(s, f + 1).Some?
    ensures SkipWs(s, a) == a && SkipWs(s, a + 1) == a + 2 && SkipWs(s, f) == f + 1
    ensures LastStartFirstEnd(AttributeValue, s, a + 1, a + 2, 1) == Some((a + 2, f))
  {
    SkipWsStops(s, a, a);
    SkipWsStops(s, a + 1, a + 2);
    ValueLazy(s, a + 1, a + 2, f);
    SkipWsStops(s, f, f + 1);
  }

  /**
   * A list item whose name ends at `a`, followed by `: `, a value of word
   * characters at `[a + 2, f)`, a space and a type part that matches: the
   * name and value groups, and the groups of that type part.
   */
  lemma ValuedShape(s: string, p1: nat, a: nat, f: nat, ty: Option<Span>, desc: Option<Span>)
    requires p1 <= a && ValueAt(s, a, f) && f + 1 < |s| && s[f + 1] == '(' && AttributeTail(s, f + 1) == Some((ty, desc))
    ensures AttributeAfterName(s, p1, a) == Some([Some(Span(p1, a)), Some(Span(a + 2, f)), ty, desc])
  {
    ValueGroup(s, a, f);
  }

  /**
   * A list item whose name ends at `a`, followed by ` ` and a type part
   * that matches: the name group, no value group, and the groups of the
   * type part.
   */
  lemma UnvaluedShape(s: string, p1: nat, a: nat, ty: Option<Span>, desc: Option<Span>)
    requires p1 <= a && a + 1 < |s| && s[a] == ' ' && s[a + 1] == '(' && AttributeTail(s, a + 1) == Some((ty, desc))
    ensures AttributeAfterName(s, p1, a) == Some([Some(Span(p1, a)), None, ty, desc])
  {
    SkipWsStops(s, a, a + 1);
  }

  /** `I+ N: V (T)`: the name, the value and the type and flags; no description. */
  lemma ValueTypeAt(s: string, n: nat, a: nat, f: nat)
    requires ItemName(s, n, a) && ValueAt(s, a, f) && TypeAt(s, f + 1, |s| - 1)
    ensures MsonAttribute(s) == Some([Some(Span(n + 2, a)), Some(Span(a + 2, f)), Some(Span(f + 2, |s| - 1)), None])
  {
    TypeTail(s, f + 1, |s| - 1);
    ValuedShape(s, n + 2, a, f, Some(Span(f + 2, |s| - 1)), None);
    ItemNameShape(s, n, a);
  }

  /** `I+ N: V (T) - D`: the name, the value, the type and flags, and the description to the line end. */
  lemma ValueTypeDescriptionAt(s: string, n: nat, a: nat, f: nat, c: nat)
    requires ItemName(s, n, a) && ValueAt(s, a, f) && TypeAt(s, f + 1, c) && DescriptionAt(s, c)
    ensures MsonAttribute(s) == Some([Some(Span(n + 2, a)), Some(Span(a + 2, f)), Some(Span(f + 2, c)), Some(Span(c + 4, |s|))])
  {
    TypeDescriptionTail(s, f + 1, c);
    ValuedShape(s, n + 2, a, f, Some(Span(f + 2, c)), Some(Span(c + 4, |s|)));
    ItemNameShape(s, n, a);
  }

  /** `I+ N (T) - D`: the name, no value, the type and flags, and the description to the line end. */
  lemma TypeDescriptionAt(s: string, n: nat, a: nat, c: nat)
    requires ItemName(s, n, a) && s[a] == ' ' && TypeAt(s, a + 1, c) && DescriptionAt(s, c)
    ensures MsonAttribute(s) == Some([Some(Span(n + 2, a)), None, Some(Span(a + 2, c)), Some(Span(c + 4, |s|))])
  {
    TypeDescriptionTail(s, a + 1, c);
    UnvaluedShape(s, n + 2, a, Some(Span(a + 2, c)), Some(Span(c + 4, |s|)));
    ItemNameShape(s, n, a);
  }

  /** `I+ N (T)`: the name, no value, the type and flags, and no description. */
  lemma NameTypeAt(s: string, n: nat, a: nat)
    requires ItemName(s, n, a) && s[a] == ' ' && TypeAt(s, a + 1, |s| - 1)
    ensures MsonAttribute(s) == Some([Some(Span(n + 2, a)), None, Some(Span(a + 2, |s| - 1)), None])
  {
    TypeTail(s, a + 1, |s| - 1);
    UnvaluedShape(s, n + 2, a, Some(Span(a + 2, |s| - 1)), None);
    ItemNameShape(s, n, a);
  }

  /**
   * A list item `+ W...` whose word starts with the first reserved word
   * that occurs there (in any case) and ends where that word ends: the
   * lookahead refuses it, whatever follows.
   */
  lemma ReservedItemRejected(s: string, kw: string)
    requires |s| > 2 && s[0] == '+' && s[1] == ' ' && !IsSpace(s[2])
    requires FirstKeyword(s, 2, ReservedNames) == Some(kw) && BoundaryAt(s, 2 + |kw|)
    ensures MsonAttribute(s) == None
  {
    MarkerAt(s);
    assert WordFrom(s, 2, ReservedNames);
  }

  // ---------------------------------------------------------------------
  // Lines built from their parts

  /** `w` cannot be `kw` in any case: the two differ in length or in their first letter. */
  predicate Unlike(w: string, kw: string) { |kw| != |w| || (|w| > 0 && Lower(w[0]) != kw[0]) }

  /** A name that cannot be any reserved word, whatever its case. */
  predicate Unreserved(w: string) { forall j :: 0 <= j < |ReservedNames| ==> Unlike(w, ReservedNames[j]) }

  lemma NotReserved(w: string)
    requires Unreserved(w)
    ensures LowerAll(w) !in ReservedNames
  {
    forall j | 0 <= j < |ReservedNames| ensures LowerAll(w) != ReservedNames[j] {
      if |ReservedNames[j]| == |w| { assert LowerAll(w)[0] == Lower(w[0]); }
    }
  }

  lemma OneLineAppend(a: string, b: string)
    requires OneLine(a) && OneLine(b)
    ensures OneLine(a + b)
  {
    assert forall t :: |a| <= t < |a + b| ==> (a + b)[t] == b[t - |a|];
  }

  /** Where the parts of `I+ N` sit at the start of a line. */
  lemma ItemNameLayout(indent: string, name: string, rest: string)
    requires Indent(indent) && NameText(name) && LowerAll(name) !in ReservedNames
    requires |rest| > 0 && !IsWordChar(rest[0])
    ensures ItemName(indent + "+ " + name + rest, |indent|, |indent| + 2 + |name|)
  {
    var s := indent + "+ " + name + rest;
    var n := |indent|;
    assert forall t :: 0 <= t < n ==> s[t] == indent[t];
    assert s[n] == '+' && s[n + 1] == ' ';
    assert s[n + 2..n + 2 + |name|] == name;
    assert s[n + 2 + |name|] == rest[0];
  }

  lemma ValueAtShift(p: string, r: string, a: nat, f: nat)
    requires ValueAt(r, a, f)
    ensures ValueAt(p + r, |p| + a, |p| + f)
  {
    assert forall t :: |p| <= t < |p + r| ==> (p + r)[t] == r[t - |p|];
  }

  lemma TypeAtShift(p: string, r: string, o: nat, c: nat)
    requires TypeAt(r, o, c)
    ensures TypeAt(p + r, |p| + o, |p| + c)
  {
    assert forall t :: |p| <= t < |p + r| ==> (p + r)[t] == r[t - |p|];
  }

  lemma DescriptionAtShift(p: string, r: string, c: nat)
    requires DescriptionAt(r, c)
    ensures DescriptionAt(p + r, |p| + c)
  {
    assert forall t :: |p| <= t < |p + r| ==> (p + r)[t] == r[t - |p|];
  }

  /** ` (T)` after the name. */
  lemma TypeRest(ty: string)
    requires TypeText(ty)
    ensures var r := " (" + ty + ")"; r[0] == ' ' && TypeAt(r, 1, |r| - 1)
  {
    var r := " (" + ty + ")";
    assert forall t :: 2 <= t < |r| - 1 ==> r[t] == ty[t - 2];
  }

  /** `: V (T)` after the name. */
  lemma ValueTypeRest(value: string, ty: string)
    requires ValueText(value) && TypeText(ty)
    ensures var r := ": " + value + " (" + ty + ")";
      ValueAt(r, 0, 2 + |value|) && TypeAt(r, 3 + |value|, |r| - 1)
  {
    var r := ": " + value + " (" + ty + ")";
    assert forall t :: 2 <= t < 2 + |value| ==> r[t] == value[t - 2];
    assert forall t :: 4 + |value| <= t < |r| - 1 ==> r[t] == ty[t - 4 - |value|];
  }

  /** `: V (T) - D` after the name. */
  lemma ValueTypeDescriptionRest(value: string, ty: string, desc: string)
    requires ValueText(value) && TypeText(ty) && DescriptionText(desc)
    ensures var r := ": " + value + " (" + ty + ") - " + desc; var c := 4 + |value| + |ty|;
      ValueAt(r, 0, 2 + |value|) && TypeAt(r, 3 + |value|, c) && DescriptionAt(r, c)
  {
    var r := ": " + value + " (" + ty + ") - " + desc;
    var c := 4 + |value| + |ty|;
    assert forall t :: 2 <= t < 2 + |value| ==> r[t] == value[t - 2];
    assert forall t :: 4 + |value| <= t < c ==> r[t] == ty[t - 4 - |value|];
    assert forall t :: c + 4 <= t < |r| ==> r[t] == desc[t - c - 4];
  }

  /** ` (T) - D` after the name. */
  lemma TypeDescriptionRest(ty: string, desc: string)
    requires TypeText(ty) && DescriptionText(desc)
    ensures var r := " (" + ty + ") - " + desc; var c := 2 + |ty|;
      r[0] == ' ' && TypeAt(r, 1, c) && DescriptionAt(r, c)
  {
    var r := " (" + ty + ") - " + desc;
    var c := 2 + |ty|;
    assert forall t :: 2 <= t < c ==> r[t] == ty[t - 2];
    assert forall t :: c + 4 <= t < |r| ==> r[t] == desc[t - c - 4];
  }

  // ---------------------------------------------------------------------
  // The attribute lines of the tests

  lemma IdName() ensures NameText("id") && LowerAll("id") !in ReservedNames { NotReserved("id"); }

  lemma IdParts() ensures Indent("    ") && ValueText("250FF") && TypeText("string, required") { }

  /**
   * `    + id: 250FF (string, required)`: the name `id`, the value `250FF`,
   * the type and flags `string, required`, and no description.
   */
  lemma IdAttributeExample()
    ensures MsonAttribute("    + id" + (": " + "250FF" + " (" + "string, required" + ")"))
      == Some([Some(Span(6, 8)), Some(Span(10, 15)), Some(Span(17, 33)), None])
  {
    var p, rest := "    + id", ": " + "250FF" + " (" + "string, required" + ")";
    assert p == "    " + "+ " + "id";
    IdName();
    IdParts();
    ItemNameLayout("    ", "id", rest);
    ValueTypeRest("250FF", "string, required");
    ValueAtShift(p, rest, 0, 7);
    TypeAtShift(p, rest, 8, |rest| - 1);
    ValueTypeAt(p + rest, 4, 8, 15);
  }

  lemma CreatedName() ensures NameText("created") && LowerAll("created") !in ReservedNames { NotReserved("created"); }

  lemma CreatedParts()
    ensures Indent("    ") && ValueText("1415203908") && TypeText("number") && DescriptionText("Time stamp")
  {
  }

  /**
   * `    + created: 1415203908 (number) - Time stamp`: the name, the value,
   * the type, and the description `Time stamp`.
   */
  lemma CreatedAttributeExample()
    ensures MsonAttribute("    + created" + (": " + "1415203908" + " (" + "number" + ") - " + "Time stamp"))
      == Some([Some(Span(6, 13)), Some(Span(15, 25)), Some(Span(27, 33)), Some(Span(37, 47))])
  {
    var p, rest := "    + created", ": " + "1415203908" + " (" + "number" + ") - " + "Time stamp";
    assert p == "    " + "+ " + "created";
    CreatedName();
    CreatedParts();
    ItemNameLayout("    ", "created", rest);
    ValueTypeDescriptionRest("1415203908", "number", "Time stamp");
    ValueAtShift(p, rest, 0, 12);
    TypeAtShift(p, rest, 13, 20);
    DescriptionAtShift(p, rest, 20);
    ValueTypeDescriptionAt(p + rest, 4, 13, 25, 33);
  }

  lemma RedeemByName() ensures NameText("redeem_by") && LowerAll("redeem_by") !in ReservedNames { NotReserved("redeem_by"); }

  lemma RedeemByParts() ensures Indent("    ") && TypeText("number") { }

  lemma RedeemByChunks()
    ensures OneLine("Date after which ") && OneLine("the coupon can ") && OneLine("no longer be redeemed")
  {
  }

  lemma RedeemByDescription()
    ensures DescriptionText("Date after which " + "the coupon can " + "no longer be redeemed")
  {
    RedeemByChunks();
    OneLineAppend("Date after which ", "the coupon can ");
    OneLineAppend("Date after which " + "the coupon can ", "no longer be redeemed");
    assert ("Date after which " + "the coupon can " + "no longer be redeemed")[0] == 'D';
  }

  /**
   * `    + redeem_by (number) - Date after which the coupon can no longer be
   * redeemed`: the name, no value, the type, and the whole description.
   */
  lemma RedeemByAttributeExample()
    ensures MsonAttribute("    + redeem_by" + (" (" + "number" + ") - " + ("Date after which " + "the coupon can " + "no longer be redeemed")))
      == Some([Some(Span(6, 15)), None, Some(Span(17, 23)), Some(Span(27, 80))])
  {
    var desc := "Date after which " + "the coupon can " + "no longer be redeemed";
    var p, rest := "    + redeem_by", " (" + "number" + ") - " + desc;
    assert p == "    " + "+ " + "redeem_by";
    RedeemByName();
    RedeemByParts();
    RedeemByDescription();
    ItemNameLayout("    ", "redeem_by", rest);
    TypeDescriptionRest("number", desc);
    TypeAtShift(p, rest, 1, 8);
    DescriptionAtShift(p, rest, 8);
    TypeDescriptionAt(p + rest, 4, 15, 23);
  }

  // ---------------------------------------------------------------------
  // Names and reserved words

  /** A name followed by more word characters is a name. */
  lemma NameAppend(a: string, b: string)
    requires NameText(a) && forall t :: 0 <= t < |b| ==> IsWordChar(b[t])
    ensures NameText(a + b) && (a + b)[0] == a[0]
  {
    assert forall t :: |a| <= t < |a + b| ==> (a + b)[t] == b[t - |a|];
  }

  lemma AttributeNameParts()
    ensures NameText("attribute" + "_name") && LowerAll("attribute" + "_name") !in ReservedNames && TypeText("string")
  {
    assert NameText("attribute");
    NameAppend("attribute", "_name");
    NotReserved("attribute" + "_name");
  }

  /** `+ attribute_name (string)`: a name that only starts like a reserved word is an attribute name. */
  lemma AttributeNameExample(s: string)
    requires s == "+ attribute_name" + (" (" + "string" + ")")
    ensures MsonAttribute(s) == Some([Some(Span(2, 16)), None, Some(Span(18, 24)), None])
  {
    var p, rest := "+ attribute_name", " (" + "string" + ")";
    assert p == "" + "+ " + ("attribute" + "_name");
    AttributeNameParts();
    ItemNameLayout("", "attribute" + "_name", rest);
    TypeRest("string");
    TypeAtShift(p, rest, 1, |rest| - 1);
    assert s == p + rest;
    NameTypeAt(s, 0, 16);
  }

  lemma HeaderDataParts()
    ensures NameText("header" + "_data") && LowerAll("header" + "_data") !in ReservedNames && TypeText("object")
  {
    assert NameText("header");
    NameAppend("header", "_data");
    NotReserved("header" + "_data");
  }

  /** `+ header_data (object)`: `header` followed by more word characters is no reserved word. */
  lemma HeaderDataExample(s: string)
    requires s == "+ header_data" + (" (" + "object" + ")")
    ensures MsonAttribute(s) == Some([Some(Span(2, 13)), None, Some(Span(15, 21)), None])
  {
    var p, rest := "+ header_data", " (" + "object" + ")";
    assert p == "" + "+ " + ("header" + "_data");
    HeaderDataParts();
    ItemNameLayout("", "header" + "_data", rest);
    TypeRest("object");
    TypeAtShift(p, rest, 1, |rest| - 1);
    assert s == p + rest;
    NameTypeAt(s, 0, 13);
  }

  /** `+ attributes (User)`: the lookahead ignores case. */
  lemma LowerAttributesRejected(s: string)
    requires s == "+ attributes (User)"
    ensures MsonAttribute(s) == None
  {
    assert KeywordAt(s, 2, "attributes");
    ReservedItemRejected(s, "attributes");
  }

  /** `+ ATTRIBUTES (User)`. */
  lemma UpperAttributesRejected(s: string)
    requires s == "+ ATTRIBUTES (User)"
    ensures MsonAttribute(s) == None
  {
    assert KeywordAt(s, 2, "attributes");
    ReservedItemRejected(s, "attributes");
  }

  /** `+ Attributes (User)`. */
  lemma AttributesRejected(s: string)
    requires s == "+ Attributes (User)"
    ensures MsonAttribute(s) == None
  {
    assert KeywordAt(s, 2, "attributes");
    ReservedItemRejected(s, "attributes");
  }

  /** `+ Attributes` on its own. */
  lemma BareAttributesRejected(s: string)
    requires s == "+ Attributes"
    ensures MsonAttribute(s) == None
  {
    assert KeywordAt(s, 2, "attributes");
    ReservedItemRejected(s, "attributes");
  }

  /** `+ parameters`. */
  lemma LowerParametersRejected(s: string)
    requires s == "+ parameters"
    ensures MsonAttribute(s) == None
  {
    NotKeyword(s, 2, "attributes");
    assert KeywordAt(s, 2, "parameters");
    ReservedItemRejected(s, "parameters");
  }

  /** `+ PARAMETERS`. */
  lemma UpperParametersRejected(s: string)
    requires s == "+ PARAMETERS"
    ensures MsonAttribute(s) == None
  {
    NotKeyword(s, 2, "attributes");
    assert KeywordAt(s, 2, "parameters");
    ReservedItemRejected(s, "parameters");
  }

  /** `+ Parameters`. */
  lemma ParametersRejected(s: string)
    requires s == "+ Parameters"
    ensures MsonAttribute(s) == None
  {
    NotKeyword(s, 2, "attributes");
    assert KeywordAt(s, 2, "parameters");
    ReservedItemRejected(s, "parameters");
  }

  /** `+ Headers`. */
  lemma HeadersRejected(s: string)
    requires s == "+ Headers"
    ensures MsonAttribute(s) == None
  {
    NotKeyword(s, 2, "attributes");
    NotKeyword(s, 2, "parameters");
    assert KeywordAt(s, 2, "headers");
    ReservedItemRejected(s, "headers");
  }
}
