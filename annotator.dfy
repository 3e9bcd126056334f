/**
 * The annotator: for one PSI element of an API Blueprint file it splits the
 * element's text into lines and, for each line that is not blank, asks the
 * recognizers which parts to highlight.  Every highlight is a silent
 * INFORMATION annotation with one text-attributes key; the model records it
 * as an `Annotation` appended to the holder, in the order the annotator
 * creates them.
 *
 * The functions below state, for each step of the annotator, the
 * annotations it adds; the methods are the annotator's own procedures,
 * loops included, each proved to add exactly what its function states.
 */
module ApiBlueprintAnnotator {
  import opened Text
  import opened ApiBlueprintHighlighterKeys
  import R = ApiBlueprintRegexUtils

  /** One annotation: the document range `[start, end)` and its text attributes. */
  datatype Annotation = Annotation(start: nat, end: nat, category: Category)

  /** `TextRange(baseOffset + g.range.first, baseOffset + g.range.last + 1)` for a group or match span `g`. */
  function At(base: nat, sp: R.Span, c: Category): Annotation {
    Annotation(base + sp.start, base + sp.end, c)
  }

  /** The annotation for group `k`, when that group took part in the match. */
  function ForGroup(base: nat, gs: R.Groups, k: nat, c: Category): seq<Annotation> {
    match R.Group(gs, k)
    case Some(sp) => [At(base, sp, c)]
    case None => []
  }

  /** The annotation for group `k` of an anchored pattern, when the pattern is found. */
  function OnMatch(found: Option<R.Groups>, base: nat, k: nat, c: Category): seq<Annotation> {
    match found
    case Some(gs) => ForGroup(base, gs, k, c)
    case None => []
  }

  // ---------------------------------------------------------------------
  // Classifying values and type components

  /** `isMimeType`: contains `/` and starts with one of the seven top-level media types. */
  predicate IsMimeType(t: string) {
    Contains(t, "/")
    && (StartsWith(t, "application/") || StartsWith(t, "text/") || StartsWith(t, "image/")
        || StartsWith(t, "audio/") || StartsWith(t, "video/") || StartsWith(t, "multipart/")
        || StartsWith(t, "message/"))
  }

  /** `t.matches(Regex("\\d+(\\.\\d+)?"))`. */
  predicate IsDecimal(t: string) {
    var d := SkipDigits(t, 0);
    d > 0
    && (d == |t|
        || (t[d] == '.' && var f := SkipDigits(t, d + 1); f > d + 1 && f == |t|))
  }

  /** A sample value is a NUMBER when its trimmed text is a decimal, otherwise a STRING_VALUE. */
  function ValueCategory(trimmed: string): Category {
    if IsDecimal(trimmed) then Number else StringValue
  }

  /** The alternatives of `\b(number|string|boolean|object|array|enum)\b` in the type components. */
  const ComponentTypes: seq<string> := ["number", "string", "boolean", "object", "array", "enum"]

  /**
   * `c.matches(Regex("\\b(kw1|...)\\b", IGNORE_CASE))`: `c` is one of the
   * keywords, ignoring case.  The boundaries hold at both ends because every
   * keyword starts and ends with a letter.
   */
  predicate IsKeyword(c: string, kws: seq<string>) {
    exists k :: 0 <= k < |kws| && |c| == |kws[k]| && KeywordAt(c, 0, kws[k])
  }

  /** `c.matches(Regex("\\b[A-Z][A-Za-z0-9_]*\\b"))`: a capitalised identifier. */
  predicate IsTypeName(c: string) {
    |c| > 0 && IsUpper(c[0]) && SkipWord(c, 1) == |c|
  }

  /** The `when` of `annotateTypeComponents`: the first test that holds picks the key. */
  function ComponentCategory(c: string): Option<Category> {
    if IsKeyword(c, ComponentTypes) then Some(TypeAnnotation)
    else if IsKeyword(c, R.FlagKeywords) then Some(Flag)
    else if IsTypeName(c) then Some(MsonType)
    else None
  }

  /** The annotation, if any, of component `c` found at offset `at`. */
  function ComponentAt(at: nat, c: string): seq<Annotation> {
    match ComponentCategory(c)
    case Some(cat) => [Annotation(at, at + |c|, cat)]
    case None => []
  }

  /** `map { it.trim() }`. */
  function TrimAll(pieces: seq<string>): (r: seq<string>)
    ensures |r| == |pieces| && forall k :: 0 <= k < |r| ==> r[k] == Trim(pieces[k])
  {
    if pieces == [] then [] else [Trim(pieces[0])] + TrimAll(pieces[1..])
  }

  /** `typeContent.split(",").map { it.trim() }`. */
  function Components(content: string): seq<string> {
    TrimAll(Split(content, ','))
  }

  /**
   * The annotations that the loop of `annotateTypeComponents` adds for the
   * components `comps`, when the search cursor is at `cursor`: each
   * component is looked up with `indexOf` from the cursor, and the cursor
   * then moves past it.
   */
  function ComponentAnnotations(content: string, base: nat, comps: seq<string>, cursor: nat): seq<Annotation>
    requires cursor <= |content|
    decreases |comps|
  {
    if comps == [] then []
    else
      var c := comps[0];
      var start := IndexOf(content, c, cursor);
      if start >= 0 then
        ComponentAt(base + start, c) + ComponentAnnotations(content, base, comps[1..], start + |c|)
      else ComponentAnnotations(content, base, comps[1..], cursor)
  }

  /** `annotateTypeComponents(typeContent, base)`. */
  function TypeComponents(content: string, base: nat): seq<Annotation> {
    ComponentAnnotations(content, base, Components(content), 0)
  }

  // ---------------------------------------------------------------------
  // Numbers inside parentheses

  /**
   * The value of `parenStart` after the loop over `text[..k]`: the last
   * `(` before `k` when no `)` follows it before `k`, and -1 otherwise.
   */
  function OpenParenBefore(text: string, k: nat): (r: int)
    requires k <= |text|
    ensures -1 <= r < k
    ensures r >= 0 ==> text[r] == '('
  {
    if k == 0 then -1
    else if text[k - 1] == '(' then k - 1
    else if text[k - 1] == ')' then -1
    else OpenParenBefore(text, k - 1)
  }

  /** `\b(number|object|string|boolean|array|enum)\b` at `i`. */
  predicate TypeWordAt(c: string, i: nat) {
    R.BoundedKeywordAt(c, i, R.TypeKeywords).Some?
  }

  /** A type word starting at or after `i`. */
  predicate TypeWordFrom(c: string, i: nat)
    requires i <= |c|
    decreases |c| - i
  {
    TypeWordAt(c, i) || (i < |c| && TypeWordFrom(c, i + 1))
  }

  /**
   * `c.matches(Regex(".*\\b(number|...|enum)\\b.*", IGNORE_CASE))`: no line
   * terminator (`.` matches none) and a type word somewhere.
   */
  predicate MentionsType(c: string) {
    SkipLine(c, 0) == |c| && TypeWordFrom(c, 0)
  }

  /**
   * `insideParens` for a number matched at `sp`: an unclosed `(` before the
   * number, a `)` at or after its end, and between them a `/` or a type word.
   */
  predicate InsideTypeParens(text: string, sp: R.Span)
    requires sp.start <= sp.end <= |text|
  {
    var open := OpenParenBefore(text, sp.start);
    open != -1
    && var close := IndexOfChar(text, ')', sp.end);
    close != -1
    && var content := text[open + 1..close];
    Contains(content, "/") || MentionsType(content)
  }

  // ---------------------------------------------------------------------
  // The patterns used with findAll

  /** The annotations the `forEach` body of pattern `p` adds for one match `m`. */
  function MatchAnnotations(p: R.ScanPattern, s: string, base: nat, m: R.Match): seq<Annotation>
    requires R.MatchIn(s, m)
  {
    match p
    case HttpMethod => [At(base, m.range, Method)]
    case Action => [At(base, m.range, Resource)] + ForGroup(base, m.groups, 1, Method)
    case UriVar => [At(base, m.range, UriVar)]
    case UriQuery => [At(base, m.range, UriVar)]
    case Mime =>
      (match R.Group(m.groups, 1)
       case Some(g) => if IsMimeType(R.Value(s, g)) then [At(base, g, Mime)] else []
       case None => [])
    case TypeAnnotation => [At(base, m.range, TypeAnnotation)]
    case Number => if InsideTypeParens(s, m.range) then [] else [At(base, m.range, Number)]
    case MsonFlag => [At(base, m.range, Flag)]
    case StringLiteral =>
      var g := if R.Group(m.groups, 1).Some? then R.Group(m.groups, 1) else R.Group(m.groups, 2);
      match g
      case Some(sp) => [At(base, sp, StringValue)]
      case None => []
  }

  /** The annotations for the matches `ms`, in order. */
  function ScanAnnotations(p: R.ScanPattern, s: string, base: nat, ms: seq<R.Match>): seq<Annotation>
    requires forall k :: 0 <= k < |ms| ==> R.MatchIn(s, ms[k])
    decreases |ms|
  {
    if ms == [] then []
    else ScanAnnotations(p, s, base, ms[..|ms| - 1]) + MatchAnnotations(p, s, base, ms[|ms| - 1])
  }

  /** `p.findAll(s).forEach { ... }`. */
  function PatternAnnotations(p: R.ScanPattern, s: string, base: nat): seq<Annotation> {
    R.FindAllIn(p, s, 0);
    ScanAnnotations(p, s, base, R.FindAll(p, s, 0))
  }

  // ---------------------------------------------------------------------
  // One line

  /** `annotateUriVariables`. */
  function UriVariableAnnotations(s: string, base: nat): seq<Annotation> {
    PatternAnnotations(R.UriVar, s, base) + PatternAnnotations(R.UriQuery, s, base)
    + PatternAnnotations(R.Mime, s, base)
  }

  /** `annotateHttpMethodsAndUriVars`. */
  function HttpMethodAndUriAnnotations(s: string, base: nat): seq<Annotation> {
    PatternAnnotations(R.HttpMethod, s, base) + PatternAnnotations(R.Action, s, base)
    + UriVariableAnnotations(s, base)
  }

  /** `annotateMsonElements`. */
  function MsonElementAnnotations(s: string, base: nat): seq<Annotation> {
    PatternAnnotations(R.TypeAnnotation, s, base) + PatternAnnotations(R.Number, s, base)
    + PatternAnnotations(R.MsonFlag, s, base)
  }

  /** `annotateAttributeComponents`: the name, the sample value and the type components. */
  function AttributeComponents(s: string, base: nat, gs: R.Groups): seq<Annotation>
    requires R.GroupsIn(s, gs)
  {
    ForGroup(base, gs, 1, ParameterName) + AttributeValue(s, base, gs) + AttributeTypes(s, base, gs)
  }

  /** A sample value that is not blank: a number or a string. */
  function AttributeValue(s: string, base: nat, gs: R.Groups): seq<Annotation>
    requires R.GroupsIn(s, gs)
  {
    match R.Group(gs, 2)
    case Some(v) =>
      var t := Trim(R.Value(s, v));
      if t != [] then [At(base, v, ValueCategory(t))] else []
    case None => []
  }

  /** The components of the type annotation, if there is one. */
  function AttributeTypes(s: string, base: nat, gs: R.Groups): seq<Annotation>
    requires R.GroupsIn(s, gs)
  {
    match R.Group(gs, 3)
    case Some(ty) => TypeComponents(R.Value(s, ty), base + ty.start)
    case None => []
  }

  /** The API name of a `# Name` heading that mentions neither `Group` nor `Data Structures`. */
  function ApiNameAnnotations(s: string, base: nat): seq<Annotation> {
    if !Contains(s, "Group") && !Contains(s, "Data Structures") then OnMatch(R.ApiName(s), base, 1, ApiName) else []
  }

  /** A `Data Structures` heading colours the whole element. */
  function DataStructuresAnnotations(s: string, elem: R.Span): seq<Annotation> {
    if R.DataStructuresHeader(s) then [Annotation(elem.start, elem.end, DataStructures)] else []
  }

  /** The parts of an MSON attribute line. */
  function MsonAttributeAnnotations(s: string, base: nat): seq<Annotation> {
    match R.MsonAttribute(s)
    case Some(gs) => AttributeComponents(s, base, gs)
    case None => []
  }

  /** The name and the method of an action heading. */
  function ActionNameAnnotations(s: string, base: nat): seq<Annotation> {
    match R.ActionName(s)
    case Some(gs) => ForGroup(base, gs, 1, ActionName) + ForGroup(base, gs, 2, Method)
    case None => []
  }

  /** `annotateAdvancedElements`. */
  function AdvancedAnnotations(s: string, base: nat, elem: R.Span): seq<Annotation> {
    HeadingAnnotations(s, base, elem) + ValueAnnotations(s, base)
  }

  /** API name, data structures, MSON attribute and action name, in that order. */
  function HeadingAnnotations(s: string, base: nat, elem: R.Span): seq<Annotation> {
    ApiNameAnnotations(s, base) + DataStructuresAnnotations(s, elem) + MsonAttributeAnnotations(s, base)
    + ActionNameAnnotations(s, base)
  }

  /** Relation, default value and string literals, in that order. */
  function ValueAnnotations(s: string, base: nat): seq<Annotation> {
    OnMatch(R.Relation(s), base, 1, Relation)
    + OnMatch(R.DefaultValue(s), base, 1, StringValue)
    + PatternAnnotations(R.StringLiteral, s, base)
  }

  /** The section keyword: a simple `+ Attributes` line, or another section header. */
  function SectionAnnotations(s: string, base: nat): seq<Annotation> {
    match R.SimpleAttributes(s)
    case Some(gs) => ForGroup(base, gs, 1, Section)
    case None => OnMatch(R.Section(s), base, 1, Section)
  }

  /** A request line: the keyword and the media type. */
  function RequestAnnotations(s: string, base: nat): seq<Annotation> {
    match R.Request(s)
    case Some(gs) => ForGroup(base, gs, 1, Section) + ForGroup(base, gs, 4, Mime)
    case None => []
  }

  /** A response line: the keyword, the status code and the media type. */
  function ResponseAnnotations(s: string, base: nat): seq<Annotation> {
    match R.Response(s)
    case Some(gs) => ForGroup(base, gs, 1, Section) + ForGroup(base, gs, 2, Status) + ForGroup(base, gs, 4, Mime)
    case None => []
  }

  /** The recognizers that run on a line that is no header and no typed `+ Attributes (T)` line, in the annotator's order. */
  function RecognizerAnnotations(s: string, base: nat, elem: R.Span): seq<Annotation> {
    SectionAnnotations(s, base) + RequestAnnotations(s, base) + ResponseAnnotations(s, base)
    + HttpMethodAndUriAnnotations(s, base) + MsonElementAnnotations(s, base)
    + AdvancedAnnotations(s, base, elem)
  }

  /** After the resource: a typed `+ Attributes (T)` line stops after its two annotations; any other line runs all the recognizers. */
  function BodyAnnotations(s: string, base: nat, elem: R.Span): seq<Annotation> {
    match R.AttributesSection(s)
    case Some(gs) => ForGroup(base, gs, 1, Section) + ForGroup(base, gs, 2, MsonType)
    case None => RecognizerAnnotations(s, base, elem)
  }

  /**
   * `annotateApiBlueprint` for line `s` starting at document offset `base`
   * inside the element whose range is `elem`.  Metadata and group headers
   * colour the whole element and stop; every other line gets its resource
   * bracket and then the rest of its annotations.
   */
  function LineAnnotations(s: string, base: nat, elem: R.Span): seq<Annotation> {
    if R.FormatLine(s) || R.HostLine(s) then [Annotation(elem.start, elem.end, Meta)]
    else if R.GroupHeader(s) then [Annotation(elem.start, elem.end, Group)]
    else OnMatch(R.Resource(s), base, 2, Resource) + BodyAnnotations(s, base, elem)
  }

  // ---------------------------------------------------------------------
  // One element

  /** The lines `lines`, the first starting at `offset`; each line is followed by one `\n`. */
  function ForEachLine(lines: seq<string>, offset: nat, annotate: (string, nat) -> seq<Annotation>): seq<Annotation>
    decreases |lines|
  {
    if lines == [] then []
    else annotate(lines[0], offset) + ForEachLine(lines[1..], offset + |lines[0]| + 1, annotate)
  }

  function LinesAnnotations(lines: seq<string>, offset: nat, elem: R.Span): seq<Annotation> {
    ForEachLine(lines, offset, LineFn(elem))
  }

  /** What the loop over the lines of element `elem` does to each line. */
  function LineFn(elem: R.Span): (string, nat) -> seq<Annotation> {
    (line: string, o: nat) => LineOrBlank(line, o, elem)
  }

  /** A blank line of an element is skipped. */
  function LineOrBlank(line: string, offset: nat, elem: R.Span): seq<Annotation> {
    if IsBlank(line) then [] else LineAnnotations(line, offset, elem)
  }

  /** `annotate` for an element of an API Blueprint file whose text is `text` and which starts at `start`. */
  function ElementAnnotations(text: string, start: nat): seq<Annotation> {
    if IsBlank(text) then []
    else LinesAnnotations(Split(text, '\n'), start, R.Span(start, start + |text|))
  }

  // ---------------------------------------------------------------------
  // The annotator's procedures.  Each returns the annotations it creates,
  // in the order it creates them; the caller appends them to its own.

  lemma ForEachLineStep(holder: seq<Annotation>, here: seq<Annotation>, lines: seq<string>, offset: nat,
                         annotate: (string, nat) -> seq<Annotation>)
    requires lines != [] && here == annotate(lines[0], offset)
    ensures holder + here + ForEachLine(lines[1..], offset + |lines[0]| + 1, annotate)
      == holder + ForEachLine(lines, offset, annotate)
  {
    assert holder + here + ForEachLine(lines[1..], offset + |lines[0]| + 1, annotate)
      == holder + (here + ForEachLine(lines[1..], offset + |lines[0]| + 1, annotate));
  }

  lemma Appended(h: seq<Annotation>, a: seq<Annotation>, b: seq<Annotation>)
    ensures h + a + b == h + (a + b)
  {
  }

  lemma ScanAnnotationsStep(p: R.ScanPattern, s: string, base: nat, ms: seq<R.Match>, k: nat)
    requires k < |ms| && forall j :: 0 <= j < |ms| ==> R.MatchIn(s, ms[j])
    ensures ScanAnnotations(p, s, base, ms[..k + 1]) == ScanAnnotations(p, s, base, ms[..k]) + MatchAnnotations(p, s, base, ms[k])
  {
    assert ms[..k + 1][..k] == ms[..k];
  }

  /** The annotation for group `k`, when that group took part. */
  method HighlightGroup(base: nat, gs: R.Groups, k: nat, c: Category) returns (found: seq<Annotation>)
    ensures found == ForGroup(base, gs, k, c)
  {
    var g := R.Group(gs, k);
    if g.Some? {
      found := [At(base, g.value, c)];
    } else {
      found := [];
    }
  }

  /** `annotate`: a blank element gets nothing; otherwise its lines are annotated one by one. */
  method Annotate(text: string, start: nat) returns (holder: seq<Annotation>)
    ensures holder == ElementAnnotations(text, start)
  {
    if IsBlank(text) {
      return [];
    }
    var lines := Split(text, '\n');
    holder := AnnotateLines(lines, start, R.Span(start, start + |text|));
  }

  /** The `lines.forEach` loop of `annotate`: each line starts one past the end of the one before. */
  method AnnotateLines(lines: seq<string>, start: nat, elem: R.Span) returns (holder: seq<Annotation>)
    ensures holder == LinesAnnotations(lines, start, elem)
  {
    holder := [];
    var currentOffset: nat := start;
    var rest := lines;
    ghost var annotate := LineFn(elem);
    while rest != []
      invariant holder + ForEachLine(rest, currentOffset, annotate) == ForEachLine(lines, start, annotate)
      decreases |rest|
    {
      var here := AnnotateLine(elem, rest[0], currentOffset, annotate);
      holder, rest, currentOffset := LineStep(holder, here, rest, currentOffset, annotate);
    }
  }

  /** One turn of the loop over the lines: the offset moves past the line and its newline. */
  method LineStep(holder: seq<Annotation>, here: seq<Annotation>, rest: seq<string>, currentOffset: nat,
                  ghost annotate: (string, nat) -> seq<Annotation>)
    returns (holder': seq<Annotation>, rest': seq<string>, nextOffset: nat)
    requires rest != [] && here == annotate(rest[0], currentOffset)
    ensures |rest'| < |rest|
    ensures holder' + ForEachLine(rest', nextOffset, annotate) == holder + ForEachLine(rest, currentOffset, annotate)
  {
    rest' := rest[1..];
    nextOffset := currentOffset + |rest[0]| + 1;
    holder' := holder + here;
    ForEachLineStep(holder, here, rest, currentOffset, annotate);
  }

  /** The body of the loop over the lines: a blank line adds nothing. */
  method AnnotateLine(elem: R.Span, line: string, offset: nat, ghost annotate: (string, nat) -> seq<Annotation>)
    returns (here: seq<Annotation>)
    requires annotate == LineFn(elem)
    ensures here == annotate(line, offset)
    ensures IsBlank(line) ==> here == []
  {
    here := [];
    if !IsBlank(line) {
      here := AnnotateApiBlueprint(elem, line, offset);
    }
  }

  /** `annotateApiBlueprint`. */
  method AnnotateApiBlueprint(elem: R.Span, text: string, baseOffset: nat) returns (found: seq<Annotation>)
    ensures found == LineAnnotations(text, baseOffset, elem)
  {
    if R.FormatLine(text) || R.HostLine(text) {
      return [Annotation(elem.start, elem.end, Meta)];
    }
    if R.GroupHeader(text) {
      return [Annotation(elem.start, elem.end, Group)];
    }
    found := [];
    var resourceMatch := R.Resource(text);
    if resourceMatch.Some? {
      found := HighlightGroup(baseOffset, resourceMatch.value, 2, Resource);
    }
    var body := AnnotateBody(elem, text, baseOffset);
    found := found + body;
  }

  /** The part of `annotateApiBlueprint` after the resource: a typed `+ Attributes (T)` line returns early. */
  method AnnotateBody(elem: R.Span, text: string, baseOffset: nat) returns (found: seq<Annotation>)
    ensures found == BodyAnnotations(text, baseOffset, elem)
  {
    var attributesSectionMatch := R.AttributesSection(text);
    if attributesSectionMatch.Some? {
      var keyword := HighlightGroup(baseOffset, attributesSectionMatch.value, 1, Section);
      var typeName := HighlightGroup(baseOffset, attributesSectionMatch.value, 2, MsonType);
      return keyword + typeName;
    }
    found := AnnotateRecognizers(elem, text, baseOffset);
  }

  /** The recognizers `annotateApiBlueprint` runs, in order, on a line that did not return early. */
  method AnnotateRecognizers(elem: R.Span, text: string, baseOffset: nat) returns (found: seq<Annotation>)
    ensures found == RecognizerAnnotations(text, baseOffset, elem)
  {
    found := AnnotateSection(text, baseOffset);
    var request := AnnotateRequest(text, baseOffset);
    found := found + request;
    var response := AnnotateResponse(text, baseOffset);
    found := found + response;
    var methodsAndUris := AnnotateHttpMethodsAndUriVars(text, baseOffset);
    found := found + methodsAndUris;
    var msonElements := AnnotateMsonElements(text, baseOffset);
    found := found + msonElements;
    var advanced := AnnotateAdvancedElements(text, baseOffset, elem);
    found := found + advanced;
  }

  /** A plain `+ Attributes` line, or else any other section keyword. */
  method AnnotateSection(text: string, baseOffset: nat) returns (found: seq<Annotation>)
    ensures found == SectionAnnotations(text, baseOffset)
  {
    found := [];
    var simpleAttributesMatch := R.SimpleAttributes(text);
    if simpleAttributesMatch.Some? {
      found := HighlightGroup(baseOffset, simpleAttributesMatch.value, 1, Section);
    } else {
      var sectionMatch := R.Section(text);
      if sectionMatch.Some? {
        found := HighlightGroup(baseOffset, sectionMatch.value, 1, Section);
      }
    }
  }

  /** A `+ Request` line: its keyword and its media type. */
  method AnnotateRequest(text: string, baseOffset: nat) returns (found: seq<Annotation>)
    ensures found == RequestAnnotations(text, baseOffset)
  {
    found := [];
    var requestMatch := R.Request(text);
    if requestMatch.Some? {
      var keyword := HighlightGroup(baseOffset, requestMatch.value, 1, Section);
      var mime := HighlightGroup(baseOffset, requestMatch.value, 4, Mime);
      found := keyword + mime;
    }
  }

  /** A `+ Response` line: its keyword, its status code and its media type. */
  method AnnotateResponse(text: string, baseOffset: nat) returns (found: seq<Annotation>)
    ensures found == ResponseAnnotations(text, baseOffset)
  {
    found := [];
    var responseMatch := R.Response(text);
    if responseMatch.Some? {
      var keyword := HighlightGroup(baseOffset, responseMatch.value, 1, Section);
      var status := HighlightGroup(baseOffset, responseMatch.value, 2, Status);
      var mime := HighlightGroup(baseOffset, responseMatch.value, 4, Mime);
      found := keyword + status + mime;
    }
  }

  /** `annotateHttpMethodsAndUriVars`. */
  method AnnotateHttpMethodsAndUriVars(text: string, baseOffset: nat) returns (found: seq<Annotation>)
    ensures found == HttpMethodAndUriAnnotations(text, baseOffset)
  {
    var methods := ForEachMatch(R.HttpMethod, text, baseOffset);
    var actions := ForEachMatch(R.Action, text, baseOffset);
    var uris := AnnotateUriVariables(text, baseOffset);
    found := methods + actions + uris;
  }

  /** `annotateUriVariables`. */
  method AnnotateUriVariables(text: string, baseOffset: nat) returns (found: seq<Annotation>)
    ensures found == UriVariableAnnotations(text, baseOffset)
  {
    var variables := ForEachMatch(R.UriVar, text, baseOffset);
    var queries := ForEachMatch(R.UriQuery, text, baseOffset);
    var mimeTypes := ForEachMatch(R.Mime, text, baseOffset);
    found := variables + queries + mimeTypes;
  }

  /** `annotateMsonElements`. */
  method AnnotateMsonElements(text: string, baseOffset: nat) returns (found: seq<Annotation>)
    ensures found == MsonElementAnnotations(text, baseOffset)
  {
    var types := ForEachMatch(R.TypeAnnotation, text, baseOffset);
    var numbers := ForEachMatch(R.Number, text, baseOffset);
    var flags := ForEachMatch(R.MsonFlag, text, baseOffset);
    found := types + numbers + flags;
  }

  /** `p.findAll(text).forEach { ... }`: the annotations for every match, in order. */
  method ForEachMatch(p: R.ScanPattern, text: string, baseOffset: nat) returns (found: seq<Annotation>)
    ensures found == PatternAnnotations(p, text, baseOffset)
  {
    R.FindAllIn(p, text, 0);
    var matches := R.FindAll(p, text, 0);
    found := [];
    var k := 0;
    while k < |matches|
      invariant k <= |matches|
      invariant found == ScanAnnotations(p, text, baseOffset, matches[..k])
    {
      ScanAnnotationsStep(p, text, baseOffset, matches, k);
      var annotations := AnnotateMatch(p, text, baseOffset, matches[k]);
      found := found + annotations;
      k := k + 1;
    }
    assert matches[..k] == matches;
  }

  /** The `forEach` body of pattern `p` for one match. */
  method AnnotateMatch(p: R.ScanPattern, text: string, baseOffset: nat, m: R.Match) returns (found: seq<Annotation>)
    requires R.MatchIn(text, m)
    ensures found == MatchAnnotations(p, text, baseOffset, m)
  {
    match p
    case HttpMethod => found := [At(baseOffset, m.range, Method)];
    case Action =>
      var httpMethod := HighlightGroup(baseOffset, m.groups, 1, Method);
      found := [At(baseOffset, m.range, Resource)] + httpMethod;
    case UriVar => found := [At(baseOffset, m.range, UriVar)];
    case UriQuery => found := [At(baseOffset, m.range, UriVar)];
    case Mime =>
      var mimeGroup := R.Group(m.groups, 1);
      if mimeGroup.Some? && IsMimeType(R.Value(text, mimeGroup.value)) {
        found := [At(baseOffset, mimeGroup.value, Mime)];
      } else {
        found := [];
      }
    case TypeAnnotation => found := [At(baseOffset, m.range, TypeAnnotation)];
    case Number =>
      var insideParens := NumberInsideParens(text, m.range.start, m.range.end);
      if !insideParens {
        found := [At(baseOffset, m.range, Number)];
      } else {
        found := [];
      }
    case MsonFlag => found := [At(baseOffset, m.range, Flag)];
    case StringLiteral =>
      var valueGroup := if R.Group(m.groups, 1).Some? then R.Group(m.groups, 1) else R.Group(m.groups, 2);
      if valueGroup.Some? {
        found := [At(baseOffset, valueGroup.value, StringValue)];
      } else {
        found := [];
      }
  }

  /** The `insideParens` test of `annotateMsonElements`, with its loop over the text before the number. */
  method NumberInsideParens(text: string, matchStart: nat, matchEnd: nat) returns (insideParens: bool)
    requires matchStart <= matchEnd <= |text|
    ensures insideParens == InsideTypeParens(text, R.Span(matchStart, matchEnd))
  {
    insideParens := false;
    var parenStart := -1;
    for i := 0 to matchStart
      invariant parenStart == OpenParenBefore(text, i)
    {
      if text[i] == '(' {
        parenStart := i;
      } else if text[i] == ')' {
        parenStart := -1;
      }
    }
    if parenStart != -1 {
      var closeParen := IndexOfChar(text, ')', matchEnd);
      if closeParen != -1 {
        var parenContent := text[parenStart + 1..closeParen];
        if Contains(parenContent, "/") || MentionsType(parenContent) {
          insideParens := true;
        }
      }
    }
  }

  /** `annotateAdvancedElements`. */
  method AnnotateAdvancedElements(text: string, baseOffset: nat, elem: R.Span) returns (found: seq<Annotation>)
    ensures found == AdvancedAnnotations(text, baseOffset, elem)
  {
    var headings := AnnotateHeadings(text, baseOffset, elem);
    var values := AnnotateValues(text, baseOffset);
    found := headings + values;
  }

  /** The first half of `annotateAdvancedElements`: API name, data structures, MSON attribute, action name. */
  method AnnotateHeadings(text: string, baseOffset: nat, elem: R.Span) returns (found: seq<Annotation>)
    ensures found == HeadingAnnotations(text, baseOffset, elem)
  {
    found := [];
    var apiNameMatch := R.ApiName(text);
    if apiNameMatch.Some? && !Contains(text, "Group") && !Contains(text, "Data Structures") {
      found := HighlightGroup(baseOffset, apiNameMatch.value, 1, ApiName);
    }
    var dataStructures: seq<Annotation> := [];
    if R.DataStructuresHeader(text) {
      dataStructures := [Annotation(elem.start, elem.end, DataStructures)];
    }
    found := found + dataStructures;
    var attribute: seq<Annotation> := [];
    var attributeMatch := R.MsonAttribute(text);
    if attributeMatch.Some? {
      attribute := AnnotateAttributeComponents(text, attributeMatch.value, baseOffset);
    }
    found := found + attribute;
    var action: seq<Annotation> := [];
    var actionNameMatch := R.ActionName(text);
    if actionNameMatch.Some? {
      var name := HighlightGroup(baseOffset, actionNameMatch.value, 1, ActionName);
      var httpMethod := HighlightGroup(baseOffset, actionNameMatch.value, 2, Method);
      action := name + httpMethod;
    }
    found := found + action;
  }

  /** The second half of `annotateAdvancedElements`: relation, default value, string literals. */
  method AnnotateValues(text: string, baseOffset: nat) returns (found: seq<Annotation>)
    ensures found == ValueAnnotations(text, baseOffset)
  {
    found := [];
    var relationMatch := R.Relation(text);
    if relationMatch.Some? {
      found := HighlightGroup(baseOffset, relationMatch.value, 1, Relation);
    }
    var defaultValue: seq<Annotation> := [];
    var defaultMatch := R.DefaultValue(text);
    if defaultMatch.Some? {
      defaultValue := HighlightGroup(baseOffset, defaultMatch.value, 1, StringValue);
    }
    found := found + defaultValue;
    var strings := ForEachMatch(R.StringLiteral, text, baseOffset);
    found := found + strings;
  }

  /** `annotateAttributeComponents`. */
  method AnnotateAttributeComponents(text: string, gs: R.Groups, baseOffset: nat) returns (found: seq<Annotation>)
    requires R.GroupsIn(text, gs)
    ensures found == AttributeComponents(text, baseOffset, gs)
  {
    found := HighlightGroup(baseOffset, gs, 1, ParameterName);
    var value: seq<Annotation> := [];
    var valueGroup := R.Group(gs, 2);
    if valueGroup.Some? && Trim(R.Value(text, valueGroup.value)) != [] {
      var valueRange := valueGroup.value;
      if IsDecimal(Trim(R.Value(text, valueRange))) {
        value := [At(baseOffset, valueRange, Number)];
      } else {
        value := [At(baseOffset, valueRange, StringValue)];
      }
    }
    found := found + value;
    var typeGroup := R.Group(gs, 3);
    if typeGroup.Some? {
      var typeContent := R.Value(text, typeGroup.value);
      var components := AnnotateTypeComponents(typeContent, baseOffset + typeGroup.value.start);
      found := found + components;
    }
  }

  /** The `when` on one component of a type annotation. */
  method HighlightComponent(component: string, at: nat) returns (here: seq<Annotation>)
    ensures here == ComponentAt(at, component)
  {
    here := [];
    if IsKeyword(component, ComponentTypes) {
      here := [Annotation(at, at + |component|, TypeAnnotation)];
    } else if IsKeyword(component, R.FlagKeywords) {
      here := [Annotation(at, at + |component|, Flag)];
    } else if IsTypeName(component) {
      here := [Annotation(at, at + |component|, MsonType)];
    }
  }

  /** One turn of the loop over the components: locate, classify, move the cursor. */
  method ComponentStep(typeContent: string, baseOffset: nat, rest: seq<string>, currentOffset: nat)
    returns (here: seq<Annotation>, nextOffset: nat)
    requires currentOffset <= |typeContent| && rest != []
    ensures nextOffset <= |typeContent|
    ensures ComponentAnnotations(typeContent, baseOffset, rest, currentOffset)
      == here + ComponentAnnotations(typeContent, baseOffset, rest[1..], nextOffset)
  {
    var component := rest[0];
    var componentStart := IndexOf(typeContent, component, currentOffset);
    if componentStart >= 0 {
      here := HighlightComponent(component, baseOffset + componentStart);
      nextOffset := componentStart + |component|;
    } else {
      here := [];
      nextOffset := currentOffset;
    }
  }

  /** `annotateTypeComponents`: each trimmed component is looked up from the cursor and classified. */
  method AnnotateTypeComponents(typeContent: string, baseOffset: nat) returns (found: seq<Annotation>)
    ensures found == TypeComponents(typeContent, baseOffset)
  {
    var components := Components(typeContent);
    var currentOffset: nat := 0;
    found := [];
    var rest := components;
    ghost var total := TypeComponents(typeContent, baseOffset);
    while rest != []
      invariant currentOffset <= |typeContent|
      invariant found + ComponentAnnotations(typeContent, baseOffset, rest, currentOffset) == total
      decreases |rest|
    {
      ghost var before := found;
      var here, nextOffset := ComponentStep(typeContent, baseOffset, rest, currentOffset);
      found := found + here;
      Appended(before, here, ComponentAnnotations(typeContent, baseOffset, rest[1..], nextOffset));
      currentOffset := nextOffset;
      rest := rest[1..];
    }
  }
}
