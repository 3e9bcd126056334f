/**
 * What the annotator's output means: where its annotations lie, which
 * categories can appear on which lines, and declarative forms of its two
 * small algorithms (the component cursor and the number suppression)
 * and of its value tests.
 */
module ApiBlueprintAnnotatorProperties {
  import opened Text
  import opened ApiBlueprintHighlighterKeys
  import R = ApiBlueprintRegexUtils
  import P = ApiBlueprintRegexProperties
  import opened ApiBlueprintAnnotator

  // ---------------------------------------------------------------------
  // Type components

  /** Each annotation ends at or before the next one starts. */
  predicate Ordered(r: seq<Annotation>) {
    forall a, b :: 0 <= a < b < |r| ==> r[a].end <= r[b].start
  }

  /** Every annotation lies inside `[lo, hi]`. */
  predicate Within(r: seq<Annotation>, lo: nat, hi: nat) {
    forall k :: 0 <= k < |r| ==> lo <= r[k].start <= r[k].end <= hi
  }

  lemma OrderedConcat(a: seq<Annotation>, b: seq<Annotation>, mid: nat)
    requires Ordered(a) && Ordered(b)
    requires forall k :: 0 <= k < |a| ==> a[k].end <= mid
    requires forall k :: 0 <= k < |b| ==> mid <= b[k].start
    ensures Ordered(a + b)
  {
    forall x, y | 0 <= x < y < |a + b| ensures (a + b)[x].end <= (a + b)[y].start {
      if y < |a| {
        assert (a + b)[x] == a[x] && (a + b)[y] == a[y];
      } else if x >= |a| {
        assert (a + b)[x] == b[x - |a|] && (a + b)[y] == b[y - |a|];
      } else {
        assert (a + b)[x] == a[x] && (a + b)[y] == b[y - |a|];
      }
    }
  }

  /** Annotation `a` lies inside the blob found at `base`, over text to which `classify` gives its category. */
  predicate MarkedAt(content: string, base: nat, a: Annotation, classify: string -> Option<Category>) {
    base <= a.start <= a.end <= base + |content|
    && classify(content[a.start - base..a.end - base]) == Some(a.category)
  }

  /**
   * `r` marks components of the blob `content` found at `base`: in order,
   * from offset `lo` of the blob on, each over text to which `classify`
   * gives its category.
   */
  predicate Marks(content: string, base: nat, lo: nat, r: seq<Annotation>, classify: string -> Option<Category>) {
    Ordered(r) && forall k :: 0 <= k < |r| ==> base + lo <= r[k].start && MarkedAt(content, base, r[k], classify)
  }

  lemma MarksConcat(content: string, base: nat, lo: nat, mid: nat, a: seq<Annotation>, b: seq<Annotation>,
                    classify: string -> Option<Category>)
    requires Marks(content, base, lo, a, classify) && Marks(content, base, mid, b, classify)
    requires forall k :: 0 <= k < |a| ==> a[k].end <= base + mid
    requires lo <= mid
    ensures Marks(content, base, lo, a + b, classify)
  {
    OrderedConcat(a, b, base + mid);
    var r := a + b;
    forall k | 0 <= k < |r|
      ensures base + lo <= r[k].start && MarkedAt(content, base, r[k], classify)
    {
      if k >= |a| {
        assert r[k] == b[k - |a|];
      } else {
        assert r[k] == a[k];
      }
    }
  }

  /** A component found at `start` of the blob is marked there, or not at all. */
  lemma ComponentAtMarks(content: string, base: nat, start: nat, c: string)
    requires OccursAt(content, c, start)
    ensures var here := ComponentAt(base + start, c);
      Marks(content, base, start, here, ComponentCategory)
      && forall k :: 0 <= k < |here| ==> here[k].end <= base + start + |c|
  {
    assert content[start..start + |c|] == c;
    var here := ComponentAt(base + start, c);
    match ComponentCategory(c)
    case Some(cat) =>
      assert here == [Annotation(base + start, base + start + |c|, cat)];
      assert MarkedAt(content, base, here[0], ComponentCategory);
    case None =>
      assert here == [];
  }

  lemma IndexOfFound(hay: string, needle: string, from: nat)
    requires from <= |hay|
    ensures IndexOf(hay, needle, from) >= 0 ==>
      from <= IndexOf(hay, needle, from) && OccursAt(hay, needle, IndexOf(hay, needle, from))
  {
    IndexOfSpec(hay, needle, from);
  }

  /** One turn of the component loop that finds its component. */
  lemma ComponentFound(content: string, base: nat, comps: seq<string>, cursor: nat)
    requires cursor <= |content| && comps != [] && IndexOf(content, comps[0], cursor) >= cursor
    ensures var start := IndexOf(content, comps[0], cursor);
      start + |comps[0]| <= |content|
      && ComponentAnnotations(content, base, comps, cursor)
         == ComponentAt(base + start, comps[0]) + ComponentAnnotations(content, base, comps[1..], start + |comps[0]|)
  {
  }

  /**
   * The component loop: the annotations come in document order without
   * overlapping, each lies between the cursor and the end of the blob, and
   * each covers text whose classification is its category.  So every
   * annotation marks an occurrence of a component in the blob, found at or
   * after the end of the one before.
   */
  lemma {:induction false} ComponentAnnotationsSpec(content: string, base: nat, comps: seq<string>, cursor: nat)
    requires cursor <= |content|
    ensures Marks(content, base, cursor, ComponentAnnotations(content, base, comps, cursor), ComponentCategory)
    decreases |comps|
  {
    if comps != [] {
      var start := IndexOf(content, comps[0], cursor);
      if start >= 0 {
        FoundStep(content, base, comps, cursor);
        ComponentAnnotationsSpec(content, base, comps[1..], start + |comps[0]|);
      } else {
        MissedStep(content, base, comps, cursor);
        ComponentAnnotationsSpec(content, base, comps[1..], cursor);
      }
    }
  }

  /** A turn that finds its component keeps the marks of the turns after it. */
  lemma FoundStep(content: string, base: nat, comps: seq<string>, cursor: nat)
    requires cursor <= |content| && comps != [] && IndexOf(content, comps[0], cursor) >= 0
    ensures var start := IndexOf(content, comps[0], cursor);
      start + |comps[0]| <= |content|
      && (Marks(content, base, start + |comps[0]|, ComponentAnnotations(content, base, comps[1..], start + |comps[0]|), ComponentCategory)
          ==> Marks(content, base, cursor, ComponentAnnotations(content, base, comps, cursor), ComponentCategory))
  {
    var start := IndexOf(content, comps[0], cursor);
    IndexOfFound(content, comps[0], cursor);
    ComponentFound(content, base, comps, cursor);
    var rest := ComponentAnnotations(content, base, comps[1..], start + |comps[0]|);
    if Marks(content, base, start + |comps[0]|, rest, ComponentCategory) {
      FoundMarks(content, base, cursor, start, comps[0], rest);
      MarksSame(content, base, cursor, ComponentAnnotations(content, base, comps, cursor),
        ComponentAt(base + start, comps[0]) + rest, ComponentCategory);
    }
  }

  /** A turn that does not find its component adds nothing. */
  lemma MissedStep(content: string, base: nat, comps: seq<string>, cursor: nat)
    requires cursor <= |content| && comps != [] && IndexOf(content, comps[0], cursor) < 0
    ensures Marks(content, base, cursor, ComponentAnnotations(content, base, comps[1..], cursor), ComponentCategory)
      ==> Marks(content, base, cursor, ComponentAnnotations(content, base, comps, cursor), ComponentCategory)
  {
    assert ComponentAnnotations(content, base, comps, cursor) == ComponentAnnotations(content, base, comps[1..], cursor);
  }

  /** A component found at `start` followed by the marks of the turns after it. */
  lemma FoundMarks(content: string, base: nat, cursor: nat, start: nat, c: string, rest: seq<Annotation>)
    requires cursor <= start && OccursAt(content, c, start)
    requires Marks(content, base, start + |c|, rest, ComponentCategory)
    ensures Marks(content, base, cursor, ComponentAt(base + start, c) + rest, ComponentCategory)
  {
    ComponentAtMarks(content, base, start, c);
    MarksConcat(content, base, cursor, start + |c|, ComponentAt(base + start, c), rest, ComponentCategory);
  }

  lemma MarksSame(content: string, base: nat, lo: nat, r: seq<Annotation>, r': seq<Annotation>,
                  classify: string -> Option<Category>)
    requires r == r' && Marks(content, base, lo, r', classify)
    ensures Marks(content, base, lo, r, classify)
  {
  }

  /** The annotations of a whole type blob found at `base` lie inside it, in order, each over a classified component. */
  lemma TypeComponentsSpec(content: string, base: nat)
    ensures Marks(content, base, 0, TypeComponents(content, base), ComponentCategory)
  {
    ComponentAnnotationsSpec(content, base, Components(content), 0);
  }

  /** ComponentCategory picks TYPE_ANNOTATION, FLAG or MSON_TYPE, in that priority. */
  lemma ComponentCategoryCases(c: string)
    ensures ComponentCategory(c) == Some(TypeAnnotation) <==> IsKeyword(c, ComponentTypes)
    ensures ComponentCategory(c) == Some(Flag) <==> !IsKeyword(c, ComponentTypes) && IsKeyword(c, R.FlagKeywords)
    ensures ComponentCategory(c) == Some(MsonType) <==>
      !IsKeyword(c, ComponentTypes) && !IsKeyword(c, R.FlagKeywords) && IsTypeName(c)
    ensures ComponentCategory(c).None? <==>
      !IsKeyword(c, ComponentTypes) && !IsKeyword(c, R.FlagKeywords) && !IsTypeName(c)
  {
  }

  /** IsKeyword: the component is, ignoring case, one of the keywords and nothing more. */
  lemma IsKeywordSpec(c: string, kws: seq<string>)
    requires P.LowerWords(kws)
    ensures IsKeyword(c, kws) <==> exists k :: 0 <= k < |kws| && P.LowerAll(c) == kws[k]
  {
    forall k | 0 <= k < |kws| ensures (|c| == |kws[k]| && KeywordAt(c, 0, kws[k])) <==> P.LowerAll(c) == kws[k] {
      KeywordWhole(c, kws[k]);
    }
  }

  lemma KeywordWhole(c: string, kw: string)
    requires forall t :: 0 <= t < |kw| ==> 'a' <= kw[t] <= 'z'
    ensures (|c| == |kw| && KeywordAt(c, 0, kw)) <==> P.LowerAll(c) == kw
  {
    if P.LowerAll(c) == kw {
      assert |c| == |kw|;
      forall t | 0 <= t < |kw| ensures Lower(c[0 + t]) == kw[t] {
        assert P.LowerAll(c)[t] == Lower(c[t]);
      }
    }
  }

  // ---------------------------------------------------------------------
  // Numbers inside parentheses

  /** The `(` at `j` is still open at `k`: no `(` or `)` lies between them. */
  predicate Unclosed(text: string, j: nat, k: nat)
    requires j < k <= |text|
  {
    text[j] == '(' && forall t :: j < t < k ==> text[t] != '(' && text[t] != ')'
  }

  /**
   * The loop that tracks `parenStart` ends with the one `(` before `k`
   * that is still open there, and with -1 when there is none.
   */
  lemma {:induction false} OpenParenBeforeSpec(text: string, k: nat)
    requires k <= |text|
    ensures forall j :: 0 <= j < k ==> (OpenParenBefore(text, k) == j <==> Unclosed(text, j, k))
  {
    if k > 0 && text[k - 1] != '(' && text[k - 1] != ')' {
      OpenParenBeforeSpec(text, k - 1);
      forall j | 0 <= j < k - 1 ensures Unclosed(text, j, k) <==> Unclosed(text, j, k - 1) {
      }
    }
  }

  /** A type word starts at `j`, the last place the search from `i` tries being the end of `c`. */
  lemma {:induction false} TypeWordFromSpec(c: string, i: nat)
    requires i <= |c|
    ensures TypeWordFrom(c, i) <==> exists j :: i <= j <= |c| && TypeWordAt(c, j)
    decreases |c| - i
  {
    if i < |c| {
      TypeWordFromSpec(c, i + 1);
    }
  }

  /** `.*\b(number|...|enum)\b.*`: a line with a type word somewhere in it. */
  lemma MentionsTypeSpec(c: string)
    ensures MentionsType(c) <==>
      (forall t :: 0 <= t < |c| ==> !IsLineTerminator(c[t])) && exists j :: 0 <= j <= |c| && TypeWordAt(c, j)
  {
    TypeWordFromSpec(c, 0);
    SkipLineRun(c, 0);
  }

  /** `contains("/")`. */
  lemma ContainsSlash(s: string)
    ensures Contains(s, "/") <==> ContainsChar(s, '/')
  {
    IndexOfSpec(s, "/", 0);
    if Contains(s, "/") {
      var r := IndexOf(s, "/", 0);
      assert s[r..r + 1] == "/";
      assert s[r] == s[r..r + 1][0];
    }
    if ContainsChar(s, '/') {
      var k :| 0 <= k < |s| && s[k] == '/';
      assert s[k..k + 1] == "/";
      assert OccursAt(s, "/", k);
    }
  }

  /**
   * The parentheses whose content suppresses a number at `sp`: `(` at `o`
   * still open at the number, `)` at `c` the first one at or after its
   * end, and between them a `/` or a type word on a single line.
   */
  predicate SuppressedBy(text: string, sp: R.Span, o: nat, c: nat)
    requires sp.start <= sp.end <= |text|
  {
    o < sp.start && Unclosed(text, o, sp.start)
    && sp.end <= c < |text| && text[c] == ')' && (forall t :: sp.end <= t < c ==> text[t] != ')')
    && (ContainsChar(text[o + 1..c], '/') || MentionsType(text[o + 1..c]))
  }

  /**
   * Number suppression: a number is dropped exactly when it sits inside a
   * parenthesised type annotation or media type.
   */
  lemma InsideTypeParensSpec(text: string, sp: R.Span)
    requires sp.start <= sp.end <= |text|
    ensures InsideTypeParens(text, sp) <==> exists o, c :: SuppressedBy(text, sp, o, c)
  {
    OpenParenBeforeSpec(text, sp.start);
    var open := OpenParenBefore(text, sp.start);
    var close := IndexOfChar(text, ')', sp.end);
    IndexOfCharNone(text, ')', sp.end);
    if close != -1 {
      IndexOfCharFirst(text, ')', sp.end);
    }
    if open != -1 && close != -1 {
      ContainsSlash(text[open + 1..close]);
      if InsideTypeParens(text, sp) {
        assert SuppressedBy(text, sp, open, close);
      }
    }
    if exists o, c :: SuppressedBy(text, sp, o, c) {
      var o: nat, c: nat :| SuppressedBy(text, sp, o, c);
      assert open == o;
      IndexOfCharAt(text, ')', sp.end, c);
      ContainsSlash(text[o + 1..c]);
    }
  }

  lemma IndexOfCharFirst(s: string, ch: char, from: nat)
    requires IndexOfChar(s, ch, from) != -1
    ensures forall t :: from <= t < IndexOfChar(s, ch, from) ==> s[t] != ch
  {
    SkipToRun(s, from, ch);
  }

  lemma IndexOfCharAt(s: string, ch: char, from: nat, c: nat)
    requires from <= c < |s| && s[c] == ch && forall t :: from <= t < c ==> s[t] != ch
    ensures IndexOfChar(s, ch, from) == c
  {
    SkipToFrom(s, from, c, ch);
  }

  // ---------------------------------------------------------------------
  // Media types and sample values

  /** The seven top-level media types `isMimeType` accepts. */
  const MediaTypePrefixes: seq<string> := ["application/", "text/", "image/", "audio/", "video/", "multipart/", "message/"]

  /** `isMimeType` holds exactly for the text that starts with one of the prefixes; its `contains("/")` test never decides. */
  lemma IsMimeTypeSpec(t: string)
    ensures IsMimeType(t) <==> exists k :: 0 <= k < |MediaTypePrefixes| && StartsWith(t, MediaTypePrefixes[k])
  {
    ContainsSlash(t);
    if exists k :: 0 <= k < |MediaTypePrefixes| && StartsWith(t, MediaTypePrefixes[k]) {
      var k :| 0 <= k < |MediaTypePrefixes| && StartsWith(t, MediaTypePrefixes[k]);
      var p := MediaTypePrefixes[k];
      assert p[|p| - 1] == '/';
      assert t[|p| - 1] == t[..|p|][|p| - 1];
    }
    if IsMimeType(t) {
      if StartsWith(t, "application/") { assert MediaTypePrefixes[0] == "application/"; }
      else if StartsWith(t, "text/") { assert MediaTypePrefixes[1] == "text/"; }
      else if StartsWith(t, "image/") { assert MediaTypePrefixes[2] == "image/"; }
      else if StartsWith(t, "audio/") { assert MediaTypePrefixes[3] == "audio/"; }
      else if StartsWith(t, "video/") { assert MediaTypePrefixes[4] == "video/"; }
      else if StartsWith(t, "multipart/") { assert MediaTypePrefixes[5] == "multipart/"; }
      else { assert MediaTypePrefixes[6] == "message/"; }
    }
  }

  predicate AllDigits(t: string) { forall k :: 0 <= k < |t| ==> IsDigit(t[k]) }

  lemma AllDigitsSlice(t: string, lo: nat, hi: nat)
    requires lo <= hi <= |t|
    ensures AllDigits(t[lo..hi]) <==> forall k :: lo <= k < hi ==> IsDigit(t[k])
  {
    assert forall k :: lo <= k < hi ==> t[lo..hi][k - lo] == t[k];
  }

  /** `\d+(\.\d+)?`: digits, or digits, a dot and digits. */
  lemma IsDecimalSpec(t: string)
    ensures IsDecimal(t) <==>
      (|t| > 0 && AllDigits(t))
      || exists d :: 0 < d < |t| - 1 && t[d] == '.' && AllDigits(t[..d]) && AllDigits(t[d + 1..])
  {
    var d := SkipDigits(t, 0);
    SkipDigitsRun(t, 0);
    AllDigitsSlice(t, 0, d);
    if d + 1 <= |t| {
      SkipDigitsRun(t, d + 1);
      AllDigitsSlice(t, d + 1, |t|);
    }
    if exists d' :: 0 < d' < |t| - 1 && t[d'] == '.' && AllDigits(t[..d']) && AllDigits(t[d' + 1..]) {
      var d' :| 0 < d' < |t| - 1 && t[d'] == '.' && AllDigits(t[..d']) && AllDigits(t[d' + 1..]);
      AllDigitsSlice(t, 0, d');
      AllDigitsSlice(t, d' + 1, |t|);
      assert d == d';
    }
  }

  /** The tests' sample values: `25` and `1415203908` are numbers, `250FF` and `30.` are not. */
  lemma ValueCategoryExamples()
    ensures ValueCategory("25") == Number
    ensures ValueCategory("1415203908") == Number
    ensures ValueCategory("123.45") == Number
    ensures ValueCategory("250FF") == StringValue
    ensures ValueCategory("30.") == StringValue
  {
    IsDecimalSpec("25");
    IsDecimalSpec("1415203908");
    IsDecimalSpec("123.45");
    assert AllDigits("123.45"[..3]) && AllDigits("123.45"[4..]);
    IsDecimalSpec("250FF");
    assert !IsDigit("250FF"[3]);
    IsDecimalSpec("30.");
    assert !IsDigit("30."[2]);
  }

  /** `(Coupon)` holds no media type; `(application/json)` does. */
  lemma IsMimeTypeExamples()
    ensures IsMimeType("application/json")
    ensures !IsMimeType("Coupon")
  {
    IsMimeTypeSpec("application/json");
    assert StartsWith("application/json", MediaTypePrefixes[0]);
    ContainsSlash("Coupon");
    assert forall k :: 0 <= k < 6 ==> "Coupon"[k] != '/';
  }

  // ---------------------------------------------------------------------
  // Where the annotations of a line lie

  /**
   * An annotation of the recognizers that run after the header tests, for
   * a line spanning `[lo, hi]` of element `elem`: never META or GROUP; a
   * DATA_STRUCTURES annotation covers the element, any other lies inside
   * the line.
   */
  predicate LocalAt(a: Annotation, lo: nat, hi: nat, elem: R.Span) {
    a.category != Meta && a.category != Group
    && if a.category == DataStructures then a.start == elem.start && a.end == elem.end
       else lo <= a.start <= a.end <= hi
  }

  predicate Local(r: seq<Annotation>, lo: nat, hi: nat, elem: R.Span) {
    forall k :: 0 <= k < |r| ==> LocalAt(r[k], lo, hi, elem)
  }

  lemma LocalConcat(a: seq<Annotation>, b: seq<Annotation>, lo: nat, hi: nat, elem: R.Span)
    requires Local(a, lo, hi, elem) && Local(b, lo, hi, elem)
    ensures Local(a + b, lo, hi, elem)
  {
    forall k | 0 <= k < |a + b| ensures LocalAt((a + b)[k], lo, hi, elem) {
      if k < |a| { assert (a + b)[k] == a[k]; } else { assert (a + b)[k] == b[k - |a|]; }
    }
  }

  /** The categories a line annotates with its own offsets. */
  predicate LineCategory(c: Category) { c != Meta && c != Group && c != DataStructures }

  lemma ForGroupLocal(s: string, base: nat, gs: R.Groups, k: nat, c: Category, elem: R.Span)
    requires R.GroupsIn(s, gs) && LineCategory(c)
    ensures Local(ForGroup(base, gs, k, c), base, base + |s|, elem)
  {
  }

  lemma OnMatchLocal(s: string, found: Option<R.Groups>, base: nat, k: nat, c: Category, elem: R.Span)
    requires found.Some? ==> R.GroupsIn(s, found.value)
    requires LineCategory(c)
    ensures Local(OnMatch(found, base, k, c), base, base + |s|, elem)
  {
  }

  lemma MatchLocal(p: R.ScanPattern, s: string, base: nat, m: R.Match, elem: R.Span)
    requires R.MatchIn(s, m)
    ensures Local(MatchAnnotations(p, s, base, m), base, base + |s|, elem)
  {
  }

  lemma {:induction false} ScanLocal(p: R.ScanPattern, s: string, base: nat, ms: seq<R.Match>, elem: R.Span)
    requires forall k :: 0 <= k < |ms| ==> R.MatchIn(s, ms[k])
    ensures Local(ScanAnnotations(p, s, base, ms), base, base + |s|, elem)
    decreases |ms|
  {
    if ms != [] {
      ScanLocal(p, s, base, ms[..|ms| - 1], elem);
      MatchLocal(p, s, base, ms[|ms| - 1], elem);
      LocalConcat(ScanAnnotations(p, s, base, ms[..|ms| - 1]), MatchAnnotations(p, s, base, ms[|ms| - 1]), base, base + |s|, elem);
    }
  }

  /** Every match of a findAll pattern is annotated inside the line. */
  lemma PatternLocal(p: R.ScanPattern, s: string, base: nat, elem: R.Span)
    ensures Local(PatternAnnotations(p, s, base), base, base + |s|, elem)
  {
    R.FindAllIn(p, s, 0);
    ScanLocal(p, s, base, R.FindAll(p, s, 0), elem);
  }

  lemma ComponentCategoryLine(c: string)
    ensures ComponentCategory(c).Some? ==> LineCategory(ComponentCategory(c).value)
  {
  }

  /** The type components of a blob at `[lo, hi]` of the line stay inside the line. */
  lemma TypeComponentsLocal(content: string, base: nat, lo: nat, hi: nat, elem: R.Span)
    requires lo <= base && base + |content| <= hi
    ensures Local(TypeComponents(content, base), lo, hi, elem)
  {
    TypeComponentsSpec(content, base);
    var r := TypeComponents(content, base);
    forall k | 0 <= k < |r| ensures LocalAt(r[k], lo, hi, elem) {
      assert MarkedAt(content, base, r[k], ComponentCategory);
      ComponentCategoryLine(content[r[k].start - base..r[k].end - base]);
    }
  }

  lemma AttributeComponentsLocal(s: string, base: nat, gs: R.Groups, elem: R.Span)
    requires R.GroupsIn(s, gs)
    ensures Local(AttributeComponents(s, base, gs), base, base + |s|, elem)
  {
    ForGroupLocal(s, base, gs, 1, ParameterName, elem);
    AttributeTypesLocal(s, base, gs, elem);
    Local3(ForGroup(base, gs, 1, ParameterName), AttributeValue(s, base, gs), AttributeTypes(s, base, gs),
      base, base + |s|, elem);
  }

  lemma AttributeTypesLocal(s: string, base: nat, gs: R.Groups, elem: R.Span)
    requires R.GroupsIn(s, gs)
    ensures Local(AttributeTypes(s, base, gs), base, base + |s|, elem)
  {
    if R.Group(gs, 3).Some? {
      var ty := R.Group(gs, 3).value;
      TypeComponentsLocal(R.Value(s, ty), base + ty.start, base, base + |s|, elem);
    }
  }

  lemma Local3(a: seq<Annotation>, b: seq<Annotation>, c: seq<Annotation>, lo: nat, hi: nat, elem: R.Span)
    requires Local(a, lo, hi, elem) && Local(b, lo, hi, elem) && Local(c, lo, hi, elem)
    ensures Local(a + b + c, lo, hi, elem)
  {
    LocalConcat(a, b, lo, hi, elem);
    LocalConcat(a + b, c, lo, hi, elem);
  }

  lemma ApiNameLocal(s: string, base: nat, elem: R.Span)
    ensures Local(ApiNameAnnotations(s, base), base, base + |s|, elem)
  {
    OnMatchLocal(s, R.ApiName(s), base, 1, ApiName, elem);
  }

  lemma MsonAttributeLocal(s: string, base: nat, elem: R.Span)
    ensures Local(MsonAttributeAnnotations(s, base), base, base + |s|, elem)
  {
    if R.MsonAttribute(s).Some? {
      AttributeComponentsLocal(s, base, R.MsonAttribute(s).value, elem);
    }
  }

  lemma ActionNameLocal(s: string, base: nat, elem: R.Span)
    ensures Local(ActionNameAnnotations(s, base), base, base + |s|, elem)
  {
    if R.ActionName(s).Some? {
      var gs := R.ActionName(s).value;
      ForGroupLocal(s, base, gs, 1, ActionName, elem);
      ForGroupLocal(s, base, gs, 2, Method, elem);
      LocalConcat(ForGroup(base, gs, 1, ActionName), ForGroup(base, gs, 2, Method), base, base + |s|, elem);
    }
  }

  lemma Local4(r: seq<Annotation>, a: seq<Annotation>, b: seq<Annotation>, c: seq<Annotation>, d: seq<Annotation>,
               lo: nat, hi: nat, elem: R.Span)
    ensures (r == a + b + c + d && Local(a, lo, hi, elem) && Local(b, lo, hi, elem) && Local(c, lo, hi, elem)
      && Local(d, lo, hi, elem)) ==> Local(r, lo, hi, elem)
  {
    if Local(a, lo, hi, elem) && Local(b, lo, hi, elem) && Local(c, lo, hi, elem) && Local(d, lo, hi, elem) {
      Local3(a, b, c, lo, hi, elem);
      LocalConcat(a + b + c, d, lo, hi, elem);
    }
  }

  lemma AdvancedLocal(s: string, base: nat, elem: R.Span)
    ensures Local(AdvancedAnnotations(s, base, elem), base, base + |s|, elem)
  {
    HeadingLocal(s, base, elem);
    ValueLocal(s, base, elem);
    LocalConcat(HeadingAnnotations(s, base, elem), ValueAnnotations(s, base), base, base + |s|, elem);
  }

  lemma HeadingLocal(s: string, base: nat, elem: R.Span)
    ensures Local(HeadingAnnotations(s, base, elem), base, base + |s|, elem)
  {
    ApiNameLocal(s, base, elem);
    MsonAttributeLocal(s, base, elem);
    ActionNameLocal(s, base, elem);
    Local4(HeadingAnnotations(s, base, elem), ApiNameAnnotations(s, base), DataStructuresAnnotations(s, elem),
      MsonAttributeAnnotations(s, base), ActionNameAnnotations(s, base), base, base + |s|, elem);
  }

  lemma ValueLocal(s: string, base: nat, elem: R.Span)
    ensures Local(ValueAnnotations(s, base), base, base + |s|, elem)
  {
    OnMatchLocal(s, R.Relation(s), base, 1, Relation, elem);
    OnMatchLocal(s, R.DefaultValue(s), base, 1, StringValue, elem);
    PatternLocal(R.StringLiteral, s, base, elem);
    Local3(OnMatch(R.Relation(s), base, 1, Relation), OnMatch(R.DefaultValue(s), base, 1, StringValue),
      PatternAnnotations(R.StringLiteral, s, base), base, base + |s|, elem);
  }

  lemma SectionLocal(s: string, base: nat, elem: R.Span)
    ensures Local(SectionAnnotations(s, base), base, base + |s|, elem)
  {
    if R.SimpleAttributes(s).Some? {
      ForGroupLocal(s, base, R.SimpleAttributes(s).value, 1, Section, elem);
    } else {
      OnMatchLocal(s, R.Section(s), base, 1, Section, elem);
    }
  }

  lemma RequestLocal(s: string, base: nat, elem: R.Span)
    ensures Local(RequestAnnotations(s, base), base, base + |s|, elem)
  {
    if R.Request(s).Some? {
      var gs := R.Request(s).value;
      ForGroupLocal(s, base, gs, 1, Section, elem);
      ForGroupLocal(s, base, gs, 4, Mime, elem);
      LocalConcat(ForGroup(base, gs, 1, Section), ForGroup(base, gs, 4, Mime), base, base + |s|, elem);
    }
  }

  lemma ResponseLocal(s: string, base: nat, elem: R.Span)
    ensures Local(ResponseAnnotations(s, base), base, base + |s|, elem)
  {
    if R.Response(s).Some? {
      var gs := R.Response(s).value;
      ForGroupLocal(s, base, gs, 1, Section, elem);
      ForGroupLocal(s, base, gs, 2, Status, elem);
      ForGroupLocal(s, base, gs, 4, Mime, elem);
      Local3(ForGroup(base, gs, 1, Section), ForGroup(base, gs, 2, Status), ForGroup(base, gs, 4, Mime), base, base + |s|, elem);
    }
  }

  lemma HttpMethodAndUriLocal(s: string, base: nat, elem: R.Span)
    ensures Local(HttpMethodAndUriAnnotations(s, base), base, base + |s|, elem)
  {
    var hi := base + |s|;
    PatternLocal(R.HttpMethod, s, base, elem);
    PatternLocal(R.Action, s, base, elem);
    PatternLocal(R.UriVar, s, base, elem);
    PatternLocal(R.UriQuery, s, base, elem);
    PatternLocal(R.Mime, s, base, elem);
    Local3(PatternAnnotations(R.UriVar, s, base), PatternAnnotations(R.UriQuery, s, base), PatternAnnotations(R.Mime, s, base), base, hi, elem);
    Local3(PatternAnnotations(R.HttpMethod, s, base), PatternAnnotations(R.Action, s, base), UriVariableAnnotations(s, base), base, hi, elem);
  }

  lemma MsonElementLocal(s: string, base: nat, elem: R.Span)
    ensures Local(MsonElementAnnotations(s, base), base, base + |s|, elem)
  {
    PatternLocal(R.TypeAnnotation, s, base, elem);
    PatternLocal(R.Number, s, base, elem);
    PatternLocal(R.MsonFlag, s, base, elem);
    Local3(PatternAnnotations(R.TypeAnnotation, s, base), PatternAnnotations(R.Number, s, base), PatternAnnotations(R.MsonFlag, s, base), base, base + |s|, elem);
  }

  lemma Local6(r: seq<Annotation>, a: seq<Annotation>, b: seq<Annotation>, c: seq<Annotation>, d: seq<Annotation>,
               e: seq<Annotation>, f: seq<Annotation>, lo: nat, hi: nat, elem: R.Span)
    ensures r == a + b + c + d + e + f && Local(a, lo, hi, elem) && Local(b, lo, hi, elem) && Local(c, lo, hi, elem)
      && Local(d, lo, hi, elem) && Local(e, lo, hi, elem) && Local(f, lo, hi, elem)
      ==> Local(r, lo, hi, elem)
  {
    if Local(a, lo, hi, elem) && Local(b, lo, hi, elem) && Local(c, lo, hi, elem)
      && Local(d, lo, hi, elem) && Local(e, lo, hi, elem) && Local(f, lo, hi, elem) {
      Local3(a, b, c, lo, hi, elem);
      Local3(a + b + c, d, e, lo, hi, elem);
      LocalConcat(a + b + c + d + e, f, lo, hi, elem);
    }
  }

  lemma RecognizerLocal(s: string, base: nat, elem: R.Span)
    ensures Local(RecognizerAnnotations(s, base, elem), base, base + |s|, elem)
  {
    var hi := base + |s|;
    var a, b, c := SectionAnnotations(s, base), RequestAnnotations(s, base), ResponseAnnotations(s, base);
    var d, e, f := HttpMethodAndUriAnnotations(s, base), MsonElementAnnotations(s, base), AdvancedAnnotations(s, base, elem);
    SectionLocal(s, base, elem);
    RequestLocal(s, base, elem);
    ResponseLocal(s, base, elem);
    HttpMethodAndUriLocal(s, base, elem);
    MsonElementLocal(s, base, elem);
    AdvancedLocal(s, base, elem);
    Local6(a + b + c + d + e + f, a, b, c, d, e, f, base, hi, elem);
    assert RecognizerAnnotations(s, base, elem) == a + b + c + d + e + f;
  }

  lemma BodyLocal(s: string, base: nat, elem: R.Span)
    ensures Local(BodyAnnotations(s, base, elem), base, base + |s|, elem)
  {
    match R.AttributesSection(s)
    case Some(gs) =>
      ForGroupLocal(s, base, gs, 1, Section, elem);
      ForGroupLocal(s, base, gs, 2, MsonType, elem);
      LocalConcat(ForGroup(base, gs, 1, Section), ForGroup(base, gs, 2, MsonType), base, base + |s|, elem);
    case None =>
      RecognizerLocal(s, base, elem);
  }

  /** Everything after the header tests: the annotations of a line that is neither metadata nor a group header. */
  lemma LineLocal(s: string, base: nat, elem: R.Span)
    requires !R.FormatLine(s) && !R.HostLine(s) && !R.GroupHeader(s)
    ensures Local(LineAnnotations(s, base, elem), base, base + |s|, elem)
  {
    OnMatchLocal(s, R.Resource(s), base, 2, Resource, elem);
    BodyLocal(s, base, elem);
    LocalConcat(OnMatch(R.Resource(s), base, 2, Resource), BodyAnnotations(s, base, elem), base, base + |s|, elem);
  }

  /** Where annotation `a` of a line spanning `[lo, hi]` of element `elem` lies. */
  predicate Placed(a: Annotation, lo: nat, hi: nat, elem: R.Span) {
    if LineCategory(a.category) then lo <= a.start <= a.end <= hi
    else a.start == elem.start && a.end == elem.end
  }

  /**
   * One line: a META annotation appears exactly on a FORMAT or HOST line
   * and a GROUP annotation exactly on another line that is a group
   * header, each alone and over the whole element; DATA_STRUCTURES covers
   * the element too, and every other annotation lies inside the line.
   */
  lemma LineAnnotationsSpec(s: string, base: nat, elem: R.Span)
    ensures var r := LineAnnotations(s, base, elem);
      (forall k :: 0 <= k < |r| ==> Placed(r[k], base, base + |s|, elem))
      && ((exists k :: 0 <= k < |r| && r[k].category == Meta) <==> R.FormatLine(s) || R.HostLine(s))
      && ((exists k :: 0 <= k < |r| && r[k].category == Group) <==> !R.FormatLine(s) && !R.HostLine(s) && R.GroupHeader(s))
      && (R.FormatLine(s) || R.HostLine(s) || R.GroupHeader(s) ==> |r| == 1)
  {
    var r := LineAnnotations(s, base, elem);
    if R.FormatLine(s) || R.HostLine(s) {
      assert r[0].category == Meta;
    } else if R.GroupHeader(s) {
      assert r[0].category == Group;
    } else {
      LineLocal(s, base, elem);
      forall k | 0 <= k < |r| ensures Placed(r[k], base, base + |s|, elem) {
        assert LocalAt(r[k], base, base + |s|, elem);
      }
    }
  }

  /**
   * A typed `+ Attributes (T)` line: SECTION over the keyword and MSON_TYPE
   * over the type, and nothing else; none of the later recognizers runs.
   */
  lemma TypedAttributesLine(s: string, base: nat, elem: R.Span)
    ensures R.AttributesSection(s).Some? ==>
      var gs := R.AttributesSection(s).value;
      |gs| == 2 && gs[0].Some? && gs[1].Some?
      && LineAnnotations(s, base, elem) == [At(base, gs[0].value, Section), At(base, gs[1].value, MsonType)]
  {
    if R.AttributesSection(s).Some? {
      P.AttributesSectionSpec(s);
      P.ListItemNotHeader(s);
    }
  }
}
