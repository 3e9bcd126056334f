/**
 * The single-line recognizers of the API Blueprint highlighter, one per
 * precompiled pattern the annotator uses.
 *
 * Each pattern is a hand-written recognizer rather than a general regex
 * engine.  Where the pattern backtracks (a greedy run that may give back
 * characters, a lazy group that grows), the recognizer tries the candidate
 * positions in the order java.util.regex does, so the captured groups are
 * the ones the engine reports.  Anchored patterns (`^...`) are tried at
 * position 0 only, as `find` and `matches` do for them; they return the
 * spans of their capture groups.  The patterns the annotator runs with
 * `findAll` are `ScanPattern`s: `MatchAt` tries one start position and
 * `FindAll` repeats the leftmost search after each match, as Kotlin's
 * `Regex.findAll` does.
 *
 * IGNORE_CASE is modelled by ASCII case folding (`Text.KeywordAt` compares
 * against a lower-case keyword).
 */
module ApiBlueprintRegexUtils {
  import opened Text

  /** A half-open range `[start, end)` of character offsets. */
  datatype Span = Span(start: nat, end: nat)

  /** Capture groups of an anchored match: index `k - 1` holds group `k` (None: did not take part). */
  type Groups = seq<Option<Span>>

  /** One match of a scan pattern: the whole match and its groups. */
  datatype Match = Match(range: Span, groups: Groups)

  /** Kotlin `match.groups[k]` for `k >= 1`. */
  function Group(gs: Groups, k: nat): Option<Span> {
    if 1 <= k <= |gs| then gs[k - 1] else None
  }

  predicate SpanIn(s: string, sp: Span) { sp.start <= sp.end <= |s| }

  /** Every group that took part lies inside `s`. */
  predicate GroupsIn(s: string, gs: Groups) {
    forall k :: 0 <= k < |gs| && gs[k].Some? ==> SpanIn(s, gs[k].value)
  }

  /** Kotlin `group.value`. */
  function Value(s: string, sp: Span): string
    requires SpanIn(s, sp)
  {
    s[sp.start..sp.end]
  }

  // ---------------------------------------------------------------------
  // Alternations of keywords

  const HttpMethods: seq<string> := ["get", "post", "put", "patch", "delete", "head", "options", "trace", "connect"]
  const SectionKeywords: seq<string> := ["parameters", "headers", "body", "schema"]
  const TypeKeywords: seq<string> := ["number", "object", "string", "boolean", "array", "enum"]
  const FlagKeywords: seq<string> := ["required", "optional", "nullable", "default", "sample"]
  const ReservedNames: seq<string> := ["attributes", "parameters", "headers", "body", "schema", "request", "response", "default", "relation"]

  /**
   * The first alternative of `kws` that occurs (case-insensitively) at `i`.
   * In every alternation used here no two alternatives can both occur at
   * one position (`ApiBlueprintRegexProperties.AlternativesExclusive`), so
   * backtracking into the alternation never picks another one.
   */
  function FirstKeyword(s: string, i: nat, kws: seq<string>): Option<string>
    decreases |kws|
  {
    if |kws| == 0 then None
    else if KeywordAt(s, i, kws[0]) then Some(kws[0])
    else FirstKeyword(s, i, kws[1..])
  }

  /** A keyword of `kws` at `i` that ends at a word boundary: `(?:a|b|...)\b`. */
  predicate WordFrom(s: string, i: nat, kws: seq<string>) {
    var k := FirstKeyword(s, i, kws);
    k.Some? && BoundaryAt(s, i + |k.value|)
  }

  // ---------------------------------------------------------------------
  // Shared pieces

  /** `^\s*\+\s+`: the position after the white space following the list marker. */
  function ListItemStart(s: string): (p: Option<nat>)
    ensures p.Some? ==> 2 <= p.value <= |s|
  {
    var p0 := SkipWs(s, 0);
    if CharAt(s, p0, '+') then
      var p1 := SkipWs(s, p0 + 1);
      if p1 > p0 + 1 then Some(p1) else None
    else None
  }

  /**
   * `.*$` (or `.+$` when `nonEmpty`) from `x`; with `wsEnd`, `.+\s*$`.
   * The greedy `.*` runs to the next line terminator; giving characters
   * back cannot help, because `$` only holds before a terminator or at
   * the end.
   */
  predicate LineFrom(s: string, x: nat, nonEmpty: bool, wsEnd: bool)
    requires x <= |s|
  {
    var n := SkipLine(s, x);
    (!nonEmpty || n > x) && (if wsEnd then WsToLineEnd(s, n) else AtLineEnd(s, n))
  }

  /**
   * The start of a group that follows greedy white space: the largest `x`
   * in `[lo, hi]` from which `LineFrom` holds.
   */
  function LastLineFrom(s: string, lo: nat, hi: nat, nonEmpty: bool, wsEnd: bool): (r: Option<nat>)
    requires hi <= |s|
    ensures r.Some? ==> lo <= r.value <= hi
    decreases hi
  {
    if hi < lo then None
    else if LineFrom(s, hi, nonEmpty, wsEnd) then Some(hi)
    else if hi == lo then None
    else LastLineFrom(s, lo, hi - 1, nonEmpty, wsEnd)
  }

  /** `\(([^)]+)\)` at `i`: the position of the closing parenthesis. */
  function ParenAt(s: string, i: nat): (r: Option<nat>)
    ensures r.Some? ==> i + 1 < r.value < |s|
  {
    if CharAt(s, i, '(') then
      var r := SkipTo(s, i + 1, ')');
      if i + 1 < r < |s| then Some(r) else None
    else None
  }

  // ---------------------------------------------------------------------
  // Lazy groups

  /** The lazy groups, each named by what follows it. */
  datatype LazyTail =
    | ResourcePath    // RESOURCE:    (.+?)  \s+(\[(/[^\]]+)\])\s*$
    | ActionBracket   // ACTION_NAME: (.+?)  \s*\[([A-Z]+)\s*([^\]]+)?\]\s*$
    | MediaType       // REQUEST:     (.*?)  \s*(\(([^)]+)\))?\s*$
    | AttributeValue  // MSON:        ([^(\-]+?)  \s*(?:\(([^)]+)\))?\s*(?:-\s*(.*))?$

  /** How far the lazy group can grow from `x`: `.` stops at a line terminator, `[^(\-]` at `(` or `-`. */
  function LazyLimit(t: LazyTail, s: string, x: nat): (n: nat)
    requires x <= |s|
    ensures x <= n <= |s|
  {
    if t == AttributeValue then SkipToEither(s, x, '(', '-') else SkipLine(s, x)
  }

  predicate TailAt(t: LazyTail, s: string, e: nat)
    requires e <= |s|
  {
    match t
    case ResourcePath => ResourcePathAt(s, e).Some?
    case ActionBracket => ActionBracketAt(s, e).Some?
    case MediaType => MediaTail(s, e).Some?
    case AttributeValue => AttributeTail(s, SkipWs(s, e)).Some?
  }

  /** The shortest lazy group from `x` ending at or after `e` after which the rest matches. */
  function FirstLazyEnd(t: LazyTail, s: string, x: nat, e: nat): (r: Option<nat>)
    requires x <= e <= |s|
    ensures r.Some? ==> e <= r.value <= LazyLimit(t, s, x) && TailAt(t, s, r.value)
    decreases |s| - e
  {
    if e > LazyLimit(t, s, x) then None
    else if TailAt(t, s, e) then Some(e)
    else if e < |s| then FirstLazyEnd(t, s, x, e + 1)
    else None
  }

  /**
   * Greedy white space followed by a lazy group of at least `minLen`
   * characters: the start is tried from `x` down to `lo`, and for each
   * start the end is tried upwards.
   */
  function LastStartFirstEnd(t: LazyTail, s: string, lo: nat, x: nat, minLen: nat): (r: Option<(nat, nat)>)
    requires x <= |s|
    ensures r.Some? ==> var (x', e) := r.value;
      lo <= x' <= x && x' + minLen <= e <= LazyLimit(t, s, x') && TailAt(t, s, e)
    decreases x
  {
    if x < lo then None
    else
      var found := if x + minLen <= |s| then FirstLazyEnd(t, s, x, x + minLen) else None;
      if found.Some? then Some((x, found.value))
      else if x == lo || x == 0 then None
      else LastStartFirstEnd(t, s, lo, x - 1, minLen)
  }

  // ---------------------------------------------------------------------
  // Metadata, groups and resources

  /** FORMAT_PATTERN `^FORMAT:\s*1A\s*$` (ignore case), used with `matches`. */
  predicate FormatLine(s: string) {
    KeywordAt(s, 0, "format:")
    && var a := SkipWs(s, 7);
    KeywordAt(s, a, "1a") && SkipWs(s, a + 2) == |s|
  }

  /** HOST_PATTERN `^HOST:\s*(https?://\S+)\s*$` (ignore case), used with `matches`. */
  predicate HostLine(s: string) {
    KeywordAt(s, 0, "host:")
    && var a := SkipWs(s, 5);
    KeywordAt(s, a, "http")
    && var c := if a + 4 < |s| && Lower(s[a + 4]) == 's' then a + 5 else a + 4;
    LiteralAt(s, c, "://")
    && var e := SkipNonWs(s, c + 3);
    e > c + 3 && SkipWs(s, e) == |s|
  }

  /** `(Group)\s+(.+)\s*$` after the hashes and white space, which end at `t`. */
  predicate GroupFirst(s: string, t: nat)
    requires t <= |s|
  {
    KeywordAt(s, t, "group")
    && var u := SkipWs(s, t + 5);
    u > t + 5 && LastLineFrom(s, t + 6, u, true, true).Some?
  }

  /** `\s+(Group)\s*$` after a lazy group ending at `e`. */
  predicate GroupLastAt(s: string, e: nat)
    requires e <= |s|
  {
    var g := SkipWs(s, e);
    g > e && KeywordAt(s, g, "group") && WsToLineEnd(s, g + 5)
  }

  /** Some end `e` in `[lo, hi]` at which `GroupLastAt` holds. */
  predicate SomeGroupLast(s: string, lo: nat, hi: nat)
    requires hi <= |s|
    decreases hi
  {
    lo <= hi && (GroupLastAt(s, hi) || (lo < hi && SomeGroupLast(s, lo, hi - 1)))
  }

  /**
   * GROUP_PATTERN `^#+\s*(?:(Group)\s+(.+)|(.*?)\s+(Group))\s*$` (ignore
   * case), used with `find`; the annotator only asks whether it matches.
   * In the second branch the lazy `(.*?)` may start anywhere after the
   * first `#` (the hashes and white space can give characters back), so its
   * end ranges over `[1, SkipLine(s, t)]`.
   */
  predicate GroupHeader(s: string) {
    CharAt(s, 0, '#')
    && var t := SkipWs(s, SkipHashes(s, 0));
    GroupFirst(s, t) || SomeGroupLast(s, 1, SkipLine(s, t))
  }

  /** `\s+(\[(/[^\]]+)\])\s*$` after a lazy group ending at `e`: the positions of `[` and `]`. */
  function ResourcePathAt(s: string, e: nat): (r: Option<(nat, nat)>)
    requires e <= |s|
    ensures r.Some? ==> e < r.value.0 && r.value.0 + 2 < r.value.1 < |s|
  {
    var f := SkipWs(s, e);
    if f > e && CharAt(s, f, '[') && CharAt(s, f + 1, '/') then
      var r := SkipTo(s, f + 2, ']');
      if f + 2 < r < |s| && WsToLineEnd(s, r + 1) then Some((f, r)) else None
    else None
  }

  /**
   * RESOURCE_PATTERN `^\s*##\s+(.+?)\s+(\[(/[^\]]+)\])\s*$`, used with
   * `find`.  Groups: 1 the name, 2 the bracket with `[` and `]`, 3 the path.
   */
  function Resource(s: string): (r: Option<Groups>)
    ensures r.Some? ==> GroupsIn(s, r.value)
  {
    var p := SkipWs(s, 0);
    if LiteralAt(s, p, "##") then
      var u := SkipWs(s, p + 2);
      if u > p + 2 then
        match LastStartFirstEnd(ResourcePath, s, p + 3, u, 1)
        case Some((x, e)) =>
          var (f, b) := ResourcePathAt(s, e).value;
          Some([Some(Span(x, e)), Some(Span(f, b + 1)), Some(Span(f + 1, b))])
        case None => None
      else None
    else None
  }

  /** DATA_STRUCTURES_HEADER_PATTERN `^#+\s*Data\s+Structures\s*$` (ignore case), used with `matches`. */
  predicate DataStructuresHeader(s: string) {
    CharAt(s, 0, '#')
    && var a := SkipWs(s, SkipHashes(s, 0));
    KeywordAt(s, a, "data")
    && var b := SkipWs(s, a + 4);
    b > a + 4 && KeywordAt(s, b, "structures") && SkipWs(s, b + 10) == |s|
  }

  /** API_NAME_PATTERN `^#\s+(.+)$`, used with `find`.  Group 1: the name. */
  function ApiName(s: string): (r: Option<Groups>)
    ensures r.Some? ==> GroupsIn(s, r.value)
  {
    if CharAt(s, 0, '#') then
      var w := SkipWs(s, 1);
      if w > 1 then
        match LastLineFrom(s, 2, w, true, false)
        case Some(x) => Some([Some(Span(x, SkipLine(s, x)))])
        case None => None
      else None
    else None
  }

  /** `\s*\[([A-Z]+)\s*([^\]]+)?\]\s*$` after a lazy group ending at `e`: the positions of `[`, the end of the method, the start of the rest and `]`. */
  function ActionBracketAt(s: string, e: nat): (r: Option<(nat, nat, nat, nat)>)
    requires e <= |s|
    ensures r.Some? ==> var (f, g, h, b) := r.value; e <= f && f + 1 < g <= h <= b < |s|
  {
    var f := SkipWs(s, e);
    if CharAt(s, f, '[') then
      var g := SkipUpper(s, f + 1);
      if g > f + 1 then
        var h := SkipWs(s, g);
        var b := SkipTo(s, h, ']');
        if b < |s| && WsToLineEnd(s, b + 1) then Some((f, g, h, b)) else None
      else None
    else None
  }

  /**
   * ACTION_NAME_PATTERN `^\s*###\s+(.+?)\s*\[([A-Z]+)\s*([^\]]+)?\]\s*$`,
   * used with `find`.  Groups: 1 the action name, 2 the method, 3 the rest
   * of the bracket (absent when empty).
   */
  function ActionName(s: string): (r: Option<Groups>)
    ensures r.Some? ==> GroupsIn(s, r.value)
  {
    var p := SkipWs(s, 0);
    if LiteralAt(s, p, "###") then
      var u := SkipWs(s, p + 3);
      if u > p + 3 then
        match LastStartFirstEnd(ActionBracket, s, p + 4, u, 1)
        case Some((x, e)) =>
          var (f, g, h, b) := ActionBracketAt(s, e).value;
          Some([Some(Span(x, e)), Some(Span(f + 1, g)), if h < b then Some(Span(h, b)) else None])
        case None => None
      else None
    else None
  }

  // ---------------------------------------------------------------------
  // Sections

  /** SECTION_PATTERN `^\s*\+\s+(Parameters|Headers|Body|Schema)\b.*$` (ignore case), used with `find`.  Group 1: the keyword. */
  function Section(s: string): (r: Option<Groups>)
    ensures r.Some? ==> GroupsIn(s, r.value)
  {
    match ListItemStart(s)
    case Some(p1) =>
      var k := FirstKeyword(s, p1, SectionKeywords);
      if k.Some? && p1 + |k.value| <= |s| && BoundaryAt(s, p1 + |k.value|)
        && AtLineEnd(s, SkipLine(s, p1 + |k.value|))
      then Some([Some(Span(p1, p1 + |k.value|))])
      else None
    case None => None
  }

  /** ATTRIBUTES_SECTION_PATTERN `^\s*\+\s+(Attributes)\s*\(([^)]+)\)\s*$` (ignore case), used with `find`.  Groups: 1 the keyword, 2 the type. */
  function AttributesSection(s: string): (r: Option<Groups>)
    ensures r.Some? ==> GroupsIn(s, r.value)
  {
    match ListItemStart(s)
    case Some(p1) =>
      if KeywordAt(s, p1, "attributes") then
        var q := SkipWs(s, p1 + 10);
        match ParenAt(s, q)
        case Some(b) =>
          if WsToLineEnd(s, b + 1) then Some([Some(Span(p1, p1 + 10)), Some(Span(q + 1, b))]) else None
        case None => None
      else None
    case None => None
  }

  /** SIMPLE_ATTRIBUTES_PATTERN `^\s*\+\s+(Attributes)\s*$` (ignore case), used with `find`.  Group 1: the keyword. */
  function SimpleAttributes(s: string): (r: Option<Groups>)
    ensures r.Some? ==> GroupsIn(s, r.value)
  {
    match ListItemStart(s)
    case Some(p1) =>
      if KeywordAt(s, p1, "attributes") && WsToLineEnd(s, p1 + 10)
      then Some([Some(Span(p1, p1 + 10))])
      else None
    case None => None
  }

  /**
   * `\s*(\(([^)]+)\))?\s*$` from `e`.  Some(Some(b)): the parenthesised
   * part is taken and ends with `)` at `b`; Some(None): it is left out.
   */
  function MediaTail(s: string, e: nat): (r: Option<Option<nat>>)
    requires e <= |s|
    ensures r.Some? && r.value.Some? ==> e < r.value.value < |s|
  {
    var w := SkipWs(s, e);
    var paren := ParenAt(s, w);
    if paren.Some? && WsToLineEnd(s, paren.value + 1) then Some(Some(paren.value))
    else if WsToLineEnd(s, e) then Some(None)
    else None
  }

  /** The groups 3 and 4 of a request or response line whose tail starts at `e`. */
  function MediaGroups(s: string, e: nat, tail: Option<nat>): Groups
    requires e <= |s|
  {
    match tail
    case Some(b) => var w := SkipWs(s, e); [Some(Span(w, b + 1)), Some(Span(w + 1, b))]
    case None => [None, None]
  }

  /**
   * REQUEST_PATTERN `^\s*\+\s+(Request)\s*(.*?)\s*(\(([^)]+)\))?\s*$`
   * (ignore case), used with `find`.  Groups: 1 the keyword, 2 the name,
   * 3 the parenthesised media type, 4 the media type.
   */
  function Request(s: string): (r: Option<Groups>)
    ensures r.Some? ==> GroupsIn(s, r.value)
  {
    match ListItemStart(s)
    case Some(p1) =>
      if KeywordAt(s, p1, "request") then
        var k := p1 + 7;
        match LastStartFirstEnd(MediaType, s, k, SkipWs(s, k), 0)
        case Some((x, e)) =>
          Some([Some(Span(p1, k)), Some(Span(x, e))] + MediaGroups(s, e, MediaTail(s, e).value))
        case None => None
      else None
    case None => None
  }

  /**
   * RESPONSE_PATTERN `^\s*\+\s+(Response)\s+(\d{3})\s*(\(([^)]+)\))?\s*$`
   * (ignore case), used with `find`.  Groups: 1 the keyword, 2 the status
   * code, 3 the parenthesised media type, 4 the media type.
   */
  function Response(s: string): (r: Option<Groups>)
    ensures r.Some? ==> GroupsIn(s, r.value)
  {
    match ListItemStart(s)
    case Some(p1) =>
      if KeywordAt(s, p1, "response") then
        var d := SkipWs(s, p1 + 8);
        if d > p1 + 8 && d + 3 <= |s| && IsDigit(s[d]) && IsDigit(s[d + 1]) && IsDigit(s[d + 2]) then
          match MediaTail(s, d + 3)
          case Some(tail) => Some([Some(Span(p1, p1 + 8)), Some(Span(d, d + 3))] + MediaGroups(s, d + 3, tail))
          case None => None
        else None
      else None
    case None => None
  }

  // ---------------------------------------------------------------------
  // MSON attributes

  /**
   * `\s*(?:-\s*(.*))?$` from `i`.  Some(Some(d)): a description `d` after
   * a dash; Some(None): the line ends without one.
   */
  function DescriptionTail(s: string, i: nat): (r: Option<Option<Span>>)
    requires i <= |s|
    ensures r.Some? && r.value.Some? ==> i < r.value.value.start <= r.value.value.end <= |s|
  {
    var w := SkipWs(s, i);
    var dash := if CharAt(s, w, '-') then LastLineFrom(s, w + 1, SkipWs(s, w + 1), false, false) else None;
    if dash.Some? then Some(Some(Span(dash.value, SkipLine(s, dash.value))))
    else if WsToLineEnd(s, i) then Some(None)
    else None
  }

  /**
   * `(?:\(([^)]+)\))?\s*(?:-\s*(.*))?$` from `i`: the type group and the
   * description group.
   */
  function AttributeTail(s: string, i: nat): (r: Option<(Option<Span>, Option<Span>)>)
    requires i <= |s|
    ensures r.Some? && r.value.0.Some? ==> i < r.value.0.value.start <= r.value.0.value.end < |s|
    ensures r.Some? && r.value.1.Some? ==> i < r.value.1.value.start <= r.value.1.value.end <= |s|
  {
    var paren := ParenAt(s, i);
    var afterParen := if paren.Some? then DescriptionTail(s, paren.value + 1) else None;
    if afterParen.Some? then Some((Some(Span(i + 1, paren.value)), afterParen.value))
    else match DescriptionTail(s, i)
      case Some(d) => Some((None, d))
      case None => None
  }

  /**
   * PARAMETER_PATTERN
   * `^\s*\+\s+([A-Za-z_][A-Za-z0-9_]*)\s*(?::\s*([^(\-]+?)\s*)?(?:\(([^)]+)\))?\s*(?:-\s*(.*))?$`,
   * used with `find`.  Groups: 1 the name, 2 the value, 3 the type and
   * flags, 4 the description.
   *
   * The name is the whole word after the marker: a shorter name would leave
   * a word character where every later part needs white space, `:`, `(`,
   * `-` or the line end.  For the same reason the white space after the
   * name is taken whole.
   */
  function AttributeShape(s: string): (r: Option<Groups>)
    ensures r.Some? ==> GroupsIn(s, r.value)
  {
    match ListItemStart(s)
    case Some(p1) =>
      if p1 < |s| && (IsLetter(s[p1]) || s[p1] == '_') then AttributeAfterName(s, p1, SkipWord(s, p1 + 1))
      else None
    case None => None
  }

  /**
   * PARAMETER_PATTERN once the name is `[p1, m)`:
   * `\s*(?::\s*([^(\-]+?)\s*)?(?:\(([^)]+)\))?\s*(?:-\s*(.*))?$`.  The optional
   * value is tried first; without it the type part must follow the name.
   */
  function AttributeAfterName(s: string, p1: nat, m: nat): (r: Option<Groups>)
    requires p1 <= m <= |s|
    ensures r.Some? ==> GroupsIn(s, r.value)
  {
    var w1 := SkipWs(s, m);
    var valued := if CharAt(s, w1, ':') then LastStartFirstEnd(AttributeValue, s, w1 + 1, SkipWs(s, w1 + 1), 1) else None;
    if valued.Some? then
      var (x, e) := valued.value;
      var (ty, desc) := AttributeTail(s, SkipWs(s, e)).value;
      Some([Some(Span(p1, m)), Some(Span(x, e)), ty, desc])
    else
      match AttributeTail(s, w1)
      case Some((ty, desc)) => Some([Some(Span(p1, m)), None, ty, desc])
      case None => None
  }

  /**
   * MSON_ATTRIBUTE_PATTERN: PARAMETER_PATTERN (ignore case) behind the
   * negative lookahead `(?!(?:Attributes|Parameters|Headers|Body|Schema|Request|Response|Default|Relation)\b)`.
   */
  function MsonAttribute(s: string): (r: Option<Groups>)
    ensures r.Some? ==> GroupsIn(s, r.value)
  {
    match ListItemStart(s)
    case Some(p1) => if WordFrom(s, p1, ReservedNames) then None else AttributeShape(s)
    case None => None
  }

  // ---------------------------------------------------------------------
  // Default values and relations

  /** DEFAULT_VALUE_PATTERN ``^\s*\+\s*Default\s*:\s*`([^`]+)`\s*$`` (ignore case), used with `find`.  Group 1: the value between the backticks. */
  function DefaultValue(s: string): (r: Option<Groups>)
    ensures r.Some? ==> GroupsIn(s, r.value)
  {
    var p0 := SkipWs(s, 0);
    if CharAt(s, p0, '+') then
      var a := SkipWs(s, p0 + 1);
      if KeywordAt(s, a, "default") then
        var b := SkipWs(s, a + 7);
        if CharAt(s, b, ':') then
          var c := SkipWs(s, b + 1);
          if CharAt(s, c, '`') then
            var q := SkipTo(s, c + 1, '`');
            if c + 1 < q < |s| && WsToLineEnd(s, q + 1) then Some([Some(Span(c + 1, q))]) else None
          else None
        else None
      else None
    else None
  }

  /**
   * RELATION_PATTERN `^\s*\+\s*Relation\s*:\s*(.+)\s*$` (ignore case),
   * used with `find`.  Group 1: the rest of the line; the greedy `(.+)`
   * keeps trailing white space.
   */
  function Relation(s: string): (r: Option<Groups>)
    ensures r.Some? ==> GroupsIn(s, r.value)
  {
    var p0 := SkipWs(s, 0);
    if CharAt(s, p0, '+') then
      var a := SkipWs(s, p0 + 1);
      if KeywordAt(s, a, "relation") then
        var b := SkipWs(s, a + 8);
        if CharAt(s, b, ':') then
          match LastLineFrom(s, b + 1, SkipWs(s, b + 1), true, true)
          case Some(x) => Some([Some(Span(x, SkipLine(s, x)))])
          case None => None
        else None
      else None
    else None
  }

  // ---------------------------------------------------------------------
  // Scan patterns (used with findAll)

  datatype ScanPattern =
    | HttpMethod      // HTTP_METHOD_PATTERN     \b(GET|POST|...|CONNECT)\b            ignore case
    | Action          // ACTION_PATTERN          \[(GET|...|CONNECT)\s+([^\]]+)\]      ignore case
    | UriVar          // URI_VAR_PATTERN         \{([A-Za-z_][A-Za-z0-9_]*)\}
    | UriQuery        // URI_QUERY_PATTERN       \{\?([A-Za-z0-9_,]+)\}
    | Mime            // MIME_PATTERN            \(([^)]+)\)
    | TypeAnnotation  // TYPE_ANNOTATION_PATTERN \((number|...|enum)\b[^)]*\)          ignore case
    | Number          // NUMBER_PATTERN          \b\d+(?:\.\d+)?\b
    | MsonFlag        // MSON_FLAG_PATTERN       \b(required|...|sample)\b             ignore case
    | StringLiteral   // STRING_LITERAL_PATTERN  "([^"]*)"|`([^`]*)`

  /** `\b(kw1|kw2|...)\b` at `i`. */
  function BoundedKeywordAt(s: string, i: nat, kws: seq<string>): Option<Match>
  {
    var k := FirstKeyword(s, i, kws);
    if BoundaryAt(s, i) && k.Some? && BoundaryAt(s, i + |k.value|) then
      Some(Match(Span(i, i + |k.value|), [Some(Span(i, i + |k.value|))]))
    else None
  }

  /**
   * `\[(method)\s+([^\]]+)\]` at `i`, once the method has been found to
   * end at `e`.  When the white space runs up to the `]`, the greedy `\s+`
   * gives back one character for `[^\]]+`.
   */
  function ActionRest(s: string, i: nat, e: nat): Option<Match>
  {
    if e <= |s| then
      var w := SkipWs(s, e);
      if w == e then None
      else if CharAt(s, w, ']') then
        if w >= e + 2 then Some(Match(Span(i, w + 1), [Some(Span(i + 1, e)), Some(Span(w - 1, w))])) else None
      else
        var b := SkipTo(s, w, ']');
        if b < |s| then Some(Match(Span(i, b + 1), [Some(Span(i + 1, e)), Some(Span(w, b))])) else None
    else None
  }

  /** ACTION_PATTERN at `i`: `[`, an HTTP method, and the rest of the bracket. */
  function ActionAt(s: string, i: nat): Option<Match>
  {
    if CharAt(s, i, '[') then
      match FirstKeyword(s, i + 1, HttpMethods)
      case Some(kw) => ActionRest(s, i, i + 1 + |kw|)
      case None => None
    else None
  }

  /**
   * `\b\d+(?:\.\d+)?\b` at `i`.  A fraction is taken only when a word
   * boundary follows it; otherwise the match falls back to the integer
   * part, which a `.` always bounds.
   */
  function NumberAt(s: string, i: nat): Option<Match>
  {
    if i < |s| && IsDigit(s[i]) && BoundaryAt(s, i) then
      var d := SkipDigits(s, i);
      if d + 1 < |s| && s[d] == '.' && IsDigit(s[d + 1]) then
        var f := SkipDigits(s, d + 1);
        if BoundaryAt(s, f) then Some(Match(Span(i, f), [])) else Some(Match(Span(i, d), []))
      else if BoundaryAt(s, d) then Some(Match(Span(i, d), []))
      else None
    else None
  }

  /** `\((kw1|kw2|...)\b[^)]*\)` at `i`. */
  function KeywordParenAt(s: string, i: nat, kws: seq<string>): Option<Match>
  {
    if CharAt(s, i, '(') then
      match FirstKeyword(s, i + 1, kws)
      case Some(kw) =>
        var e := i + 1 + |kw|;
        if e <= |s| && BoundaryAt(s, e) then
          var b := SkipTo(s, e, ')');
          if b < |s| then Some(Match(Span(i, b + 1), [Some(Span(i + 1, e))])) else None
        else None
      case None => None
    else None
  }

  /** `q([^q]*)q` at `i` for the quote character `q`: the position of the closing quote. */
  function QuotedAt(s: string, i: nat, q: char): (r: Option<nat>)
    ensures r.Some? ==> i < r.value < |s|
  {
    if CharAt(s, i, q) then
      var b := SkipTo(s, i + 1, q);
      if b < |s| then Some(b) else None
    else None
  }

  /** A match of `p` starting exactly at `i`. */
  function MatchAt(p: ScanPattern, s: string, i: nat): (r: Option<Match>)
  {
    match p
    case HttpMethod => BoundedKeywordAt(s, i, HttpMethods)
    case Action => ActionAt(s, i)
    case UriVar =>
      if CharAt(s, i, '{') && i + 1 < |s| && (IsLetter(s[i + 1]) || s[i + 1] == '_') then
        var b := SkipWord(s, i + 2);
        if CharAt(s, b, '}') then Some(Match(Span(i, b + 1), [Some(Span(i + 1, b))])) else None
      else None
    case UriQuery =>
      if CharAt(s, i, '{') && CharAt(s, i + 1, '?') then
        var b := SkipQuery(s, i + 2);
        if b > i + 2 && CharAt(s, b, '}') then Some(Match(Span(i, b + 1), [Some(Span(i + 2, b))])) else None
      else None
    case Mime =>
      (match ParenAt(s, i)
       case Some(b) => Some(Match(Span(i, b + 1), [Some(Span(i + 1, b))]))
       case None => None)
    case TypeAnnotation => KeywordParenAt(s, i, TypeKeywords)
    case Number => NumberAt(s, i)
    case MsonFlag => BoundedKeywordAt(s, i, FlagKeywords)
    case StringLiteral =>
      match QuotedAt(s, i, '"')
      case Some(b) => Some(Match(Span(i, b + 1), [Some(Span(i + 1, b)), None]))
      case None =>
        match QuotedAt(s, i, '`')
        case Some(b) => Some(Match(Span(i, b + 1), [None, Some(Span(i + 1, b))]))
        case None => None
  }

  /** A non-empty match inside `s` whose groups lie inside `s`. */
  predicate MatchIn(s: string, m: Match) {
    m.range.start < m.range.end <= |s| && GroupsIn(s, m.groups)
  }

  lemma MatchAtIn(p: ScanPattern, s: string, i: nat)
    ensures MatchAt(p, s, i).Some? ==> MatchIn(s, MatchAt(p, s, i).value) && MatchAt(p, s, i).value.range.start == i
  {
    match p
    case Action => ActionAtIn(s, i);
    case TypeAnnotation =>
      if CharAt(s, i, '(') && FirstKeyword(s, i + 1, TypeKeywords).Some? {
        FirstKeywordFound(s, i + 1, TypeKeywords);
      }
    case HttpMethod => FirstKeywordFound(s, i, HttpMethods);
    case MsonFlag => FirstKeywordFound(s, i, FlagKeywords);
    case _ =>
  }

  lemma ActionAtIn(s: string, i: nat)
    ensures ActionAt(s, i).Some? ==> MatchIn(s, ActionAt(s, i).value) && ActionAt(s, i).value.range.start == i
  {
    if CharAt(s, i, '[') && FirstKeyword(s, i + 1, HttpMethods).Some? {
      FirstKeywordFound(s, i + 1, HttpMethods);
    }
  }

  /** The keyword found is one of the alternatives, and it is not empty. */
  lemma {:induction false} FirstKeywordFound(s: string, i: nat, kws: seq<string>)
    requires forall k :: 0 <= k < |kws| ==> |kws[k]| > 0
    ensures FirstKeyword(s, i, kws).Some? ==> FirstKeyword(s, i, kws).value in kws && i + |FirstKeyword(s, i, kws).value| <= |s|
    decreases |kws|
  {
    if |kws| > 0 && !KeywordAt(s, i, kws[0]) {
      FirstKeywordFound(s, i, kws[1..]);
    }
  }

  /** `find(s, i)`: the leftmost match of `p` starting at or after `i`. */
  function Search(p: ScanPattern, s: string, i: nat): Option<Match>
    requires i <= |s|
    decreases |s| - i
  {
    match MatchAt(p, s, i)
    case Some(m) => Some(m)
    case None => if i < |s| then Search(p, s, i + 1) else None
  }

  /**
   * `findAll(s, i)`: the leftmost match, then the matches from its end on
   * (one position further for an empty match, which no pattern here has).
   */
  function FindAll(p: ScanPattern, s: string, i: nat): seq<Match>
    requires i <= |s|
    decreases |s| - i
  {
    match Search(p, s, i)
    case Some(m) =>
      var next := if m.range.end == m.range.start then m.range.end + 1 else m.range.end;
      if i < next <= |s| then [m] + FindAll(p, s, next) else [m]
    case None => []
  }

  lemma {:induction false} SearchIn(p: ScanPattern, s: string, i: nat)
    requires i <= |s|
    ensures Search(p, s, i).Some? ==> MatchIn(s, Search(p, s, i).value) && i <= Search(p, s, i).value.range.start
    decreases |s| - i
  {
    MatchAtIn(p, s, i);
    if MatchAt(p, s, i).None? && i < |s| {
      SearchIn(p, s, i + 1);
    }
  }

  /** Every match `findAll` reports lies inside `s`, at or after `i`. */
  lemma {:induction false} FindAllIn(p: ScanPattern, s: string, i: nat)
    requires i <= |s|
    ensures forall k :: 0 <= k < |FindAll(p, s, i)| ==>
      MatchIn(s, FindAll(p, s, i)[k]) && i <= FindAll(p, s, i)[k].range.start
    decreases |s| - i
  {
    SearchIn(p, s, i);
    match Search(p, s, i)
    case Some(m) =>
      var next := if m.range.end == m.range.start then m.range.end + 1 else m.range.end;
      if i < next <= |s| {
        FindAllIn(p, s, next);
      }
    case None =>
  }
}
