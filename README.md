# API Blueprint annotator — a Dafny model

This project models the syntax highlighter of the API Blueprint IntelliJ plugin.
`ApiBlueprintAnnotator.annotate` receives one PSI element of a `.apib` file. It splits the
element's text on `'\n'` and tracks each line's offset inside the element. Every line that is
not blank is passed to `annotateApiBlueprint`. That function tests the line against the regular
expressions of `ApiBlueprintRegexUtils` in a fixed order:

1. metadata (`FORMAT: 1A`, `HOST: …`);
2. group headers;
3. resource headers;
4. typed and untyped `+ Attributes` sections, and the other section headers;
5. `+ Request` and `+ Response` lines;
6. the scanning passes for HTTP methods, actions, URI variables, MIME types, MSON type
   annotations, numbers and flags;
7. the "advanced" elements: API name, Data Structures, MSON attributes, action names,
   relations, default values and string literals.

Each match becomes one or more annotations: a text range plus a highlighter key
(`ApiBlueprintHighlighterKeys`).

The model is built in layers.

* `Text` (text.dfy) holds the character classes and string helpers the regular expressions and
  the annotator rely on:
  - `\s`, `\d`, `\w`, `\b`, line terminators and Kotlin's `isWhitespace`;
  - `trim`, `isBlank`, `split`/`joinToString` on a separator, `indexOf`.
* `ApiBlueprintHighlighterKeys` (highlighter_keys.dfy) is the set of highlighter keys, as a
  datatype.
* `ApiBlueprintRegexUtils` (regex_utils.dfy) has one recognizer per pattern the annotator uses.
  - Patterns that are anchored (`^…$`) return the spans of their capture groups, or `None`.
  - Patterns that are scanned (`findAll`) are described by `MatchAt`, which matches at one
    position. `Search` finds the leftmost match and `FindAll` finds the successive
    non-overlapping matches, as `Regex.findAll` does.
  - Lazy and greedy quantifiers are resolved by explicit searches over the candidate positions,
    following java.util.regex's backtracking order.
* `ApiBlueprintAnnotator` (annotator.dfy) models the holder as a sequence of `Annotation(start,
  end, category)`.
  - Every branch of the Kotlin code is a specification function, such as `LineAnnotations`,
    `MsonElementAnnotations` or `TypeComponents`.
  - Beside it sits the imperative method that mirrors the Kotlin function, such as
    `AnnotateApiBlueprint`, `AnnotateMsonElements` or `AnnotateTypeComponents`. The method has
    the same loops: the line loop with `currentOffset`, the `forEach` over matches, the
    parenthesis scan for numbers, and the component loop with its cursor. Each method is proved
    to emit exactly what its specification function describes.
* The property modules state what the specification functions guarantee:
  - `ApiBlueprintAnnotatorProperties`, `ApiBlueprintElementProperties`,
    `ApiBlueprintComponentProperties`, `ApiBlueprintRegexProperties` and
    `ApiBlueprintRecognizerProperties` hold all-inputs lemmas.
  - `ApiBlueprintRegexExamples`, `ApiBlueprintScanExamples` and `ApiBlueprintMsonExamples`
    prove, on the concrete lines of the plugin's unit tests, the groups and offsets those tests
    expect.

Offsets are character indices into the element text.

### Behaviour worth noting

* META and GROUP annotate the whole element range (ApiBlueprintAnnotator.kt:42-59).
* DATA_STRUCTURES also annotates the whole element range (ApiBlueprintAnnotator.kt:405-410).
* A resource header annotates group 2 of RESOURCE_PATTERN, brackets included
  (ApiBlueprintAnnotator.kt:62-75).
* A URI variable is annotated over the whole match, braces included
  (ApiBlueprintAnnotator.kt:270-292).
* `isMimeType` tests `contains("/")`, but that test never decides the result: every accepted
  prefix already contains `/` (`IsMimeTypeSpec`).

## Model

Source paths are relative to the repository root.

| member | source | states |
|---|---|---|
| ApiBlueprintAnnotator.Annotate | src/main/kotlin/co/anbora/labs/apiblueprint/ide/highlighting/ApiBlueprintAnnotator.kt:16-38 | The holder after `annotate` is exactly `ElementAnnotations` of the element text at its start offset. That value is the per-line annotations of every non-blank line of `text.split('\n')`, with the offset advancing by line length + 1. |
| ApiBlueprintAnnotator.AnnotateLines | src/main/kotlin/co/anbora/labs/apiblueprint/ide/highlighting/ApiBlueprintAnnotator.kt:28-37 | The `forEach` over lines with `currentOffset += line.length + 1` emits exactly `LinesAnnotations` (loop invariant: emitted so far + annotations of the rest == total). |
| ApiBlueprintAnnotator.AnnotateLine | src/main/kotlin/co/anbora/labs/apiblueprint/ide/highlighting/ApiBlueprintAnnotator.kt:31-35 | One line of the loop: a blank line (`line.isNotBlank()` false) yields nothing. Otherwise the line yields the annotations of `annotateApiBlueprint` at its offset. |
| ApiBlueprintElementProperties.ElementPlaced | src/main/kotlin/co/anbora/labs/apiblueprint/ide/highlighting/ApiBlueprintAnnotator.kt:16-38 | Every annotation `annotate` produces either lies inside one line of the element at that line's offset, or is the element range carrying META, GROUP or DATA_STRUCTURES. |
| ApiBlueprintElementProperties.LinesPlaced | src/main/kotlin/co/anbora/labs/apiblueprint/ide/highlighting/ApiBlueprintAnnotator.kt:28-37 | The same placement, for any list of lines at any start offset. |
| ApiBlueprintElementProperties.LineInText | src/main/kotlin/co/anbora/labs/apiblueprint/ide/highlighting/ApiBlueprintAnnotator.kt:28-37 | The offset the loop computes for line k is where line k really sits in the element text. The line is followed by `'\n'`, or it is the last line and ends the text. So the `+1` of the offset update is right. |
| ApiBlueprintElementProperties.ElementLine | src/main/kotlin/co/anbora/labs/apiblueprint/ide/highlighting/ApiBlueprintAnnotator.kt:28-37 | The element's annotations split at any line k: those of the lines before k, then line k's annotations at its offset, then those of the lines after it. |
| ApiBlueprintElementProperties.BlankSkipped | src/main/kotlin/co/anbora/labs/apiblueprint/ide/highlighting/ApiBlueprintAnnotator.kt:22-33 | An element whose text is all whitespace, or a line that is all whitespace, yields no annotation. |
| ApiBlueprintElementProperties.ForEachLineAt | src/main/kotlin/co/anbora/labs/apiblueprint/ide/highlighting/ApiBlueprintAnnotator.kt:28-37 | The per-line fold decomposes at any index k into prefix, line k at its cumulative offset, and suffix. |
| ApiBlueprintElementProperties.ForEachLinePlaced | src/main/kotlin/co/anbora/labs/apiblueprint/ide/highlighting/ApiBlueprintAnnotator.kt:28-37 | If each line's annotations are placed on that line, the whole fold's annotations each lie on some line of the list. |
| ApiBlueprintAnnotator.AnnotateApiBlueprint | src/main/kotlin/co/anbora/labs/apiblueprint/ide/highlighting/ApiBlueprintAnnotator.kt:40-224 | Emits exactly `LineAnnotations`: metadata first, then group header, then resource, typed Attributes (with early return), simple Attributes or other section, request, response, then the three scanning passes. |
| ApiBlueprintAnnotatorProperties.LineAnnotationsSpec | src/main/kotlin/co/anbora/labs/apiblueprint/ide/highlighting/ApiBlueprintAnnotator.kt:40-224 | Each annotation of a line is within the line, or is the element range. META appears iff the line matches FORMAT or HOST. GROUP appears iff the line is a group header and not metadata. A metadata or group-header line yields exactly one annotation, because the function returns there. |
| ApiBlueprintAnnotatorProperties.TypedAttributesLine | src/main/kotlin/co/anbora/labs/apiblueprint/ide/highlighting/ApiBlueprintAnnotator.kt:78-106 | A `+ Attributes (Type)` line yields exactly two annotations: SECTION over `Attributes`, then MSON_TYPE over the type. No other pattern runs on that line. |
| ApiBlueprintAnnotatorProperties.LineLocal | src/main/kotlin/co/anbora/labs/apiblueprint/ide/highlighting/ApiBlueprintAnnotator.kt:62-222 | On a line that is neither metadata nor a group header, no annotation is META or GROUP. DATA_STRUCTURES covers the element range, and every other annotation lies inside the line. |
| ApiBlueprintAnnotator.AnnotateBody | src/main/kotlin/co/anbora/labs/apiblueprint/ide/highlighting/ApiBlueprintAnnotator.kt:62-222 | The part after metadata and group header emits exactly `BodyAnnotations`. |
| ApiBlueprintAnnotator.AnnotateRecognizers | src/main/kotlin/co/anbora/labs/apiblueprint/ide/highlighting/ApiBlueprintAnnotator.kt:108-222 | The part after the typed-Attributes return emits exactly `RecognizerAnnotations`. |
| ApiBlueprintAnnotator.AnnotateSection | src/main/kotlin/co/anbora/labs/apiblueprint/ide/highlighting/ApiBlueprintAnnotator.kt:108-140 | A simple `+ Attributes` line gets SECTION on group 1. Otherwise a SECTION_PATTERN line gets SECTION on its keyword. Otherwise nothing. Emits exactly `SectionAnnotations`. |
| ApiBlueprintAnnotator.AnnotateRequest | src/main/kotlin/co/anbora/labs/apiblueprint/ide/highlighting/ApiBlueprintAnnotator.kt:143-170 | SECTION on `Request`, MIME on group 4 when present. Emits exactly `RequestAnnotations`. |
| ApiBlueprintAnnotator.AnnotateResponse | src/main/kotlin/co/anbora/labs/apiblueprint/ide/highlighting/ApiBlueprintAnnotator.kt:173-213 | SECTION on `Response`, STATUS on the three digits, MIME on group 4 when present. Emits exactly `ResponseAnnotations`. |
| ApiBlueprintAnnotator.HighlightGroup | src/main/kotlin/co/anbora/labs/apiblueprint/ide/highlighting/ApiBlueprintAnnotator.kt:63-74 | A capture group that took part yields one annotation over its range shifted by the base offset; a missing group yields nothing. |
| ApiBlueprintAnnotator.AnnotateHttpMethodsAndUriVars | src/main/kotlin/co/anbora/labs/apiblueprint/ide/highlighting/ApiBlueprintAnnotator.kt:226-267 | HTTP_METHOD over every method word, then over every `[METHOD path]` the whole action and again the method inside it, then the URI variables. Emits exactly `HttpMethodAndUriAnnotations`. |
| ApiBlueprintAnnotator.AnnotateUriVariables | src/main/kotlin/co/anbora/labs/apiblueprint/ide/highlighting/ApiBlueprintAnnotator.kt:269-308 | URI_VARIABLE over each `{name}` and each `{?list}` match. MIME over the content of each parenthesised text that `isMimeType` accepts. Emits exactly `UriVariableAnnotations`. |
| ApiBlueprintAnnotator.AnnotateMsonElements | src/main/kotlin/co/anbora/labs/apiblueprint/ide/highlighting/ApiBlueprintAnnotator.kt:322-385 | TYPE_ANNOTATION over each type annotation match, NUMBER over each number not suppressed by an enclosing type or MIME parenthesis, FLAG over each flag word. Emits exactly `MsonElementAnnotations`. |
| ApiBlueprintAnnotator.ForEachMatch | src/main/kotlin/co/anbora/labs/apiblueprint/ide/highlighting/ApiBlueprintAnnotator.kt:324-384 | `findAll(text).forEach` of one pattern, as a loop over the successive matches, emits exactly `PatternAnnotations` (invariant: annotations of the matches handled so far). |
| ApiBlueprintAnnotator.NumberInsideParens | src/main/kotlin/co/anbora/labs/apiblueprint/ide/highlighting/ApiBlueprintAnnotator.kt:337-360 | The `for (i in 0 until matchStart)` scan keeps `parenStart == OpenParenBefore(text, i)`. The result is `InsideTypeParens` of the match. |
| ApiBlueprintAnnotator.OpenParenBefore | src/main/kotlin/co/anbora/labs/apiblueprint/ide/highlighting/ApiBlueprintAnnotator.kt:342-348 | The last `(` before position k not followed by a `)` before k, or -1; the result is below k and, when not -1, indexes a `(`. |
| ApiBlueprintAnnotatorProperties.OpenParenBeforeSpec | src/main/kotlin/co/anbora/labs/apiblueprint/ide/highlighting/ApiBlueprintAnnotator.kt:342-348 | For every j < k, `parenStart` ends as j iff `text[j] == '('` and no `(` or `)` follows it before k. |
| ApiBlueprintAnnotatorProperties.InsideTypeParensSpec | src/main/kotlin/co/anbora/labs/apiblueprint/ide/highlighting/ApiBlueprintAnnotator.kt:336-372 | A number is suppressed iff there is an unclosed `(` at o before it and a first `)` at c at or after its end, such that the text between them contains `/` or mentions a type word (number, object, string, boolean, array, enum) as a whole word on one line. |
| ApiBlueprintAnnotatorProperties.MentionsTypeSpec | src/main/kotlin/co/anbora/labs/apiblueprint/ide/highlighting/ApiBlueprintAnnotator.kt:354-356 | The regex `.*\b(number, …, enum)\b.*` matches the whole text iff the text has no line terminator and a type word occurs at some position, bounded on both sides. |
| ApiBlueprintAnnotatorProperties.TypeWordFromSpec | src/main/kotlin/co/anbora/labs/apiblueprint/ide/highlighting/ApiBlueprintAnnotator.kt:354-356 | The left-to-right search for a bounded type word from i succeeds iff some position j ≥ i holds one. |
| ApiBlueprintAnnotatorProperties.ContainsSlash | src/main/kotlin/co/anbora/labs/apiblueprint/ide/highlighting/ApiBlueprintAnnotator.kt:354 | `contains("/")` on a string holds iff some character of it is `/`. |
| ApiBlueprintAnnotatorProperties.IsMimeTypeSpec | src/main/kotlin/co/anbora/labs/apiblueprint/ide/highlighting/ApiBlueprintAnnotator.kt:310-320 | `isMimeType` holds iff the text starts with one of application/, text/, image/, audio/, video/, multipart/, message/. |
| ApiBlueprintAnnotatorProperties.IsMimeTypeExamples | src/main/kotlin/co/anbora/labs/apiblueprint/ide/highlighting/ApiBlueprintAnnotator.kt:310-320 | `application/json` is a MIME type and `Coupon` is not. |
| ApiBlueprintAnnotatorProperties.IsDecimalSpec | src/main/kotlin/co/anbora/labs/apiblueprint/ide/highlighting/ApiBlueprintAnnotator.kt:518 | `\d+(\.\d+)?` matches the whole text iff the text is a non-empty digit run, or two non-empty digit runs around one dot. |
| ApiBlueprintAnnotatorProperties.ValueCategoryExamples | src/main/kotlin/co/anbora/labs/apiblueprint/ide/highlighting/ApiBlueprintAnnotator.kt:510-529 | The values of the unit tests are classified as the tests expect. 25, 1415203908 and 123.45 become NUMBER. 250FF and `30.` become STRING_VALUE. |
| ApiBlueprintAnnotator.AnnotateAdvancedElements | src/main/kotlin/co/anbora/labs/apiblueprint/ide/highlighting/ApiBlueprintAnnotator.kt:387-494 | API name, Data Structures header, MSON attribute components, action name and method, relation, default value and every string literal, in source order. Emits exactly `AdvancedAnnotations`. |
| ApiBlueprintAnnotator.AnnotateHeadings | src/main/kotlin/co/anbora/labs/apiblueprint/ide/highlighting/ApiBlueprintAnnotator.kt:389-446 | API_NAME on the H1 name, DATA_STRUCTURES over the element, the MSON attribute's components, ACTION_NAME and HTTP_METHOD of an action header. Emits exactly `HeadingAnnotations`. |
| ApiBlueprintAnnotator.AnnotateValues | src/main/kotlin/co/anbora/labs/apiblueprint/ide/highlighting/ApiBlueprintAnnotator.kt:449-493 | RELATION on a relation's target, STRING_VALUE on a default's backquoted value and on the content of each quoted or backquoted literal. Emits exactly `ValueAnnotations`. |
| ApiBlueprintAnnotator.AnnotateAttributeComponents | src/main/kotlin/co/anbora/labs/apiblueprint/ide/highlighting/ApiBlueprintAnnotator.kt:496-543 | PARAMETER_NAME on group 1. On group 2, when its trimmed value is not empty: NUMBER if that value is decimal, else STRING_VALUE. Then the type components of group 3. Emits exactly `AttributeComponents`. |
| ApiBlueprintAnnotator.AnnotateTypeComponents | src/main/kotlin/co/anbora/labs/apiblueprint/ide/highlighting/ApiBlueprintAnnotator.kt:545-583 | The loop over the trimmed comma-separated components, with `indexOf(component, currentOffset)` as cursor, emits exactly `TypeComponents` (invariant: emitted so far + annotations of the rest from the cursor == total). |
| ApiBlueprintAnnotator.ComponentStep | src/main/kotlin/co/anbora/labs/apiblueprint/ide/highlighting/ApiBlueprintAnnotator.kt:550-581 | One component. If `indexOf` finds it, the component is annotated there and the cursor moves past it. Otherwise nothing is emitted and the cursor stays. The rest of the result is unchanged. |
| ApiBlueprintAnnotator.HighlightComponent | src/main/kotlin/co/anbora/labs/apiblueprint/ide/highlighting/ApiBlueprintAnnotator.kt:558-577 | A found component gets the key its `when` picks, or nothing. |
| ApiBlueprintAnnotatorProperties.TypeComponentsSpec | src/main/kotlin/co/anbora/labs/apiblueprint/ide/highlighting/ApiBlueprintAnnotator.kt:545-583 | Soundness: the component annotations are in increasing, non-overlapping order and lie inside the type text. The `when` classifies the text each one covers with that annotation's key. Completeness is `TypeComponentsExact`. |
| ApiBlueprintAnnotatorProperties.ComponentAnnotationsSpec | src/main/kotlin/co/anbora/labs/apiblueprint/ide/highlighting/ApiBlueprintAnnotator.kt:550-581 | The same, for the components that remain after any cursor position: every annotation starts at or after the cursor. |
| ApiBlueprintComponentProperties.TypeComponentsExact | src/main/kotlin/co/anbora/labs/apiblueprint/ide/highlighting/ApiBlueprintAnnotator.kt:545-583 | The annotations come in order without overlap. The texts they cover, in order, are exactly the trimmed comma-separated components that the `when` gives a key to. Each annotation carries the key that the `when` gives its text. |
| ApiBlueprintComponentProperties.ComponentAnnotationsComplete | src/main/kotlin/co/anbora/labs/apiblueprint/ide/highlighting/ApiBlueprintAnnotator.kt:550-581 | When `indexOf` finds every component in turn from the cursor, the texts the loop annotates are, in order, exactly the components that the `when` gives a key to. |
| ApiBlueprintComponentProperties.PiecesFound | src/main/kotlin/co/anbora/labs/apiblueprint/ide/highlighting/ApiBlueprintAnnotator.kt:547-580 | Each trimmed piece of `split(",")`, searched with `indexOf` from the cursor left by the piece before it, is found. It is found no later than its own place, so the cursor never passes the next piece. |
| ApiBlueprintComponentProperties.KeptSpec | src/main/kotlin/co/anbora/labs/apiblueprint/ide/highlighting/ApiBlueprintAnnotator.kt:558-579 | A component is kept exactly when it is one of the components and the `when` gives it a key. |
| ApiBlueprintComponentProperties.TrimmedFound | src/main/kotlin/co/anbora/labs/apiblueprint/ide/highlighting/ApiBlueprintAnnotator.kt:547-551 | Searching from any cursor before a piece finds the piece's trimmed text, ending inside the piece. |
| ApiBlueprintAnnotatorProperties.ComponentCategoryCases | src/main/kotlin/co/anbora/labs/apiblueprint/ide/highlighting/ApiBlueprintAnnotator.kt:558-577 | The keys are decided in priority order, each case as an iff. TYPE_ANNOTATION goes to a type keyword. FLAG goes to a flag keyword that is not a type. MSON_TYPE goes to a capitalised identifier that is neither. Any other component gets no annotation. |
| ApiBlueprintAnnotatorProperties.IsKeywordSpec | src/main/kotlin/co/anbora/labs/apiblueprint/ide/highlighting/ApiBlueprintAnnotator.kt:560-566 | `component.matches` of a keyword alternation under IGNORE_CASE holds iff the component, lower-cased, equals one of the keywords. |
| ApiBlueprintRegexProperties.FindAllSpec | src/main/kotlin/co/anbora/labs/apiblueprint/ide/highlighting/ApiBlueprintAnnotator.kt:228-237 | `findAll` returns matches that are each a match of the pattern at their start. They are in increasing, non-overlapping order, and no match of the pattern starts in any gap before, between or after them. |
| ApiBlueprintRegexProperties.SearchSpec | src/main/kotlin/co/anbora/labs/apiblueprint/ide/highlighting/ApiBlueprintAnnotator.kt:228-237 | `find` from i returns the leftmost match at or after i; `None` means no position matches. |
| ApiBlueprintRegexProperties.AlternativesExclusive | src/main/kotlin/co/anbora/labs/apiblueprint/ide/highlighting/ApiBlueprintRegexUtils.kt:27-75 | In each keyword alternation no keyword is a prefix of another: HTTP methods, section names, type keywords, flags and reserved names. So the first alternative that matches is the only one. |
| ApiBlueprintRegexProperties.FirstKeywordSpec | src/main/kotlin/co/anbora/labs/apiblueprint/ide/highlighting/ApiBlueprintRegexUtils.kt:46 | Trying the alternatives in order finds a keyword present at i (case-insensitively). In a prefix-free list it is the only one, and `None` means no keyword is present. |
| ApiBlueprintRegexProperties.WordFromIffWholeWord | src/main/kotlin/co/anbora/labs/apiblueprint/ide/highlighting/ApiBlueprintRegexUtils.kt:75 | A keyword alternation followed by `\b`, as in the negative lookahead, holds right after `+ ` iff the whole identifier there is, lower-cased, one of the keywords. |
| ApiBlueprintRegexProperties.MsonAttributeReserved | src/main/kotlin/co/anbora/labs/apiblueprint/ide/highlighting/ApiBlueprintRegexUtils.kt:75-78 | MSON_ATTRIBUTE_PATTERN returns nothing iff the list item's word, lower-cased, is a reserved name (Attributes, Parameters, Headers, Body, Schema, Request, Response, Default, Relation). Otherwise it returns exactly what PARAMETER_PATTERN returns. |
| ApiBlueprintRegexProperties.TypedAttributesNotSimple | src/main/kotlin/co/anbora/labs/apiblueprint/ide/highlighting/ApiBlueprintRegexUtils.kt:30-33 | A typed Attributes line is never a simple Attributes line. |
| ApiBlueprintRegexProperties.AttributesSectionSpec | src/main/kotlin/co/anbora/labs/apiblueprint/ide/highlighting/ApiBlueprintRegexUtils.kt:30 | A typed Attributes match puts group 1 on the word `attributes` (any case, 10 characters) right after `+ `. Group 2 lies strictly between `(` and `)` with no `)` inside it. |
| ApiBlueprintRegexProperties.ListItemNotHeader | src/main/kotlin/co/anbora/labs/apiblueprint/ide/highlighting/ApiBlueprintRegexUtils.kt:10-17 | A list item line (`+ …`) is never FORMAT, HOST, a group header or a resource header. |
| ApiBlueprintRegexProperties.AttributesNotSection | src/main/kotlin/co/anbora/labs/apiblueprint/ide/highlighting/ApiBlueprintRegexUtils.kt:27-33 | An Attributes line, typed or simple, never matches SECTION_PATTERN. |
| ApiBlueprintRegexProperties.MediaGroupsSpec | src/main/kotlin/co/anbora/labs/apiblueprint/ide/highlighting/ApiBlueprintRegexUtils.kt:36-37 | The optional `(\(([^)]+)\))?` tail gives group 3 over the parentheses and group 4 strictly inside them with no `)`, or neither. |
| ApiBlueprintRegexProperties.ResponseSpec | src/main/kotlin/co/anbora/labs/apiblueprint/ide/highlighting/ApiBlueprintRegexUtils.kt:37 | A response match has group 1 on `response` (any case), group 2 on exactly three digits, and the media groups as above. |
| ApiBlueprintRegexProperties.RequestSpec | src/main/kotlin/co/anbora/labs/apiblueprint/ide/highlighting/ApiBlueprintRegexUtils.kt:36 | A request match has group 1 on `request` (any case) and the media groups as above. |
| ApiBlueprintRecognizerProperties.ApiNameSpec | src/main/kotlin/co/anbora/labs/apiblueprint/ide/highlighting/ApiBlueprintRegexUtils.kt:68 | API_NAME needs `#` then whitespace. Group 1 is the rest of the line after that whitespace, up to the end of the line. A line not starting `#`+space never matches. |
| ApiBlueprintRecognizerProperties.ResourceSpec | src/main/kotlin/co/anbora/labs/apiblueprint/ide/highlighting/ApiBlueprintRegexUtils.kt:17 | Group 1 is the name, group 2 is `[/path]` with its brackets, and group 3 is the path, which starts with `/`, is longer than `/` alone and has no `]`. The name is one line, set off by whitespace from `##` and from the bracket. Only whitespace follows the bracket. |
| ApiBlueprintRecognizerProperties.ActionNameSpec | src/main/kotlin/co/anbora/labs/apiblueprint/ide/highlighting/ApiBlueprintRegexUtils.kt:84 | ACTION_NAME: group 1 is the action name, group 2 is the upper-case method, and group 3 is the optional rest inside the brackets. The bracket closes the line. |
| ApiBlueprintRecognizerProperties.DefaultValueSpec | src/main/kotlin/co/anbora/labs/apiblueprint/ide/highlighting/ApiBlueprintRegexUtils.kt:81 | A default value is the text between two backquotes after `+ Default:`, with no backquote inside and only whitespace after it. A line without a backquote never matches, as in the test with `Default: 10`. |
| ApiBlueprintRecognizerProperties.RelationSpec | src/main/kotlin/co/anbora/labs/apiblueprint/ide/highlighting/ApiBlueprintRegexUtils.kt:90 | A relation's target is the one-line text after `+ Relation:` and whitespace. |
| ApiBlueprintRecognizerProperties.UriVarSpec | src/main/kotlin/co/anbora/labs/apiblueprint/ide/highlighting/ApiBlueprintRegexUtils.kt:23 | URI_VAR matches at i, ending at b, iff `{` is at i, then an identifier starting with a letter or `_`, then `}` at b. Group 1 is the identifier. |
| ApiBlueprintRecognizerProperties.UriQuerySpec | src/main/kotlin/co/anbora/labs/apiblueprint/ide/highlighting/ApiBlueprintRegexUtils.kt:24 | URI_QUERY matches iff the text reads `{?`, one or more of `[A-Za-z0-9_,]`, then `}`. |
| ApiBlueprintRecognizerProperties.MimeSpec | src/main/kotlin/co/anbora/labs/apiblueprint/ide/highlighting/ApiBlueprintRegexUtils.kt:40 | MIME_PATTERN matches iff the text is `(`, a non-empty run without `)`, then `)`. |
| ApiBlueprintRecognizerProperties.StringLiteralSpec | src/main/kotlin/co/anbora/labs/apiblueprint/ide/highlighting/ApiBlueprintRegexUtils.kt:93 | A double-quoted literal fills group 1 and a backquoted one fills group 2, each iff the closing quote is the first after the opening one. No literal starts at i iff neither form does. |
| ApiBlueprintRecognizerProperties.HttpMethodSpec | src/main/kotlin/co/anbora/labs/apiblueprint/ide/highlighting/ApiBlueprintRegexUtils.kt:46 | HTTP_METHOD matches `[i, e)` iff an HTTP method, in any case, sits there with a word boundary on both sides. |
| ApiBlueprintRecognizerProperties.MsonFlagSpec | src/main/kotlin/co/anbora/labs/apiblueprint/ide/highlighting/ApiBlueprintRegexUtils.kt:65 | The same iff, for the flags required, optional, nullable, default and sample. |
| ApiBlueprintRecognizerProperties.TypeAnnotationSpec | src/main/kotlin/co/anbora/labs/apiblueprint/ide/highlighting/ApiBlueprintRegexUtils.kt:59 | TYPE_ANNOTATION matches iff the text reads `(`, a type keyword followed by a word boundary, text without `)`, then `)`. Group 1 is the keyword. |
| ApiBlueprintRecognizerProperties.NumberSpec | src/main/kotlin/co/anbora/labs/apiblueprint/ide/highlighting/ApiBlueprintRegexUtils.kt:62 | A NUMBER match starts at a word boundary, is digits or digits.digits, and ends at a word boundary. Every such decimal at i is covered by the match at i, so the match is the longest. |
| ApiBlueprintRecognizerProperties.ActionSpec | src/main/kotlin/co/anbora/labs/apiblueprint/ide/highlighting/ApiBlueprintRegexUtils.kt:20 | ACTION matches `[i, b]` with group 1 on `[i+1, e)` iff the text reads `[`, an HTTP method in any case, whitespace, a non-empty rest without `]`, then `]`. |
| ApiBlueprintRecognizerProperties.LastLineFromSpec | src/main/kotlin/co/anbora/labs/apiblueprint/ide/highlighting/ApiBlueprintRegexUtils.kt:68 | The backtracking search for the end of `(.+)$` returns a position from which the line really ends as required. |
| ApiBlueprintRegexExamples.FormatExamples | src/test/kotlin/co/anbora/labs/apiblueprint/highlighting/ApiBlueprintHighlightingTest.kt:16-20 | `FORMAT: 1A` is metadata and `FORMAT: 2B` is not. |
| ApiBlueprintRegexExamples.HostAcceptsUrl | src/main/kotlin/co/anbora/labs/apiblueprint/ide/highlighting/ApiBlueprintRegexUtils.kt:11 | `HOST: https://` followed by any non-empty run of non-space characters is a HOST line. |
| ApiBlueprintRegexExamples.HostAccepts | src/test/kotlin/co/anbora/labs/apiblueprint/highlighting/ApiBlueprintHighlightingTest.kt:23-24 | `HOST: https://api.example.com` is a HOST line. |
| ApiBlueprintRegexExamples.HostRefuses | src/test/kotlin/co/anbora/labs/apiblueprint/highlighting/ApiBlueprintHighlightingTest.kt:26-27 | `HOST: not-a-url` is not. |
| ApiBlueprintRegexExamples.AttributesSectionAt | src/main/kotlin/co/anbora/labs/apiblueprint/ide/highlighting/ApiBlueprintRegexUtils.kt:30 | For any indentation of spaces and tabs and any type text without `)`: `Attributes` is at indent+2 to indent+12 and the type at indent+14 onward. |
| ApiBlueprintRegexExamples.AttributesSectionUnindented | src/test/kotlin/co/anbora/labs/apiblueprint/highlighting/ApiBlueprintFinalValidationTest.kt:53 | `+ Attributes (Coupon)` puts `Attributes` at 2 and the type at 14. |
| ApiBlueprintRegexExamples.AttributesSectionFourSpaces | src/test/kotlin/co/anbora/labs/apiblueprint/highlighting/ApiBlueprintFinalValidationTest.kt:54 | With four spaces of indentation: 6 and 18. |
| ApiBlueprintRegexExamples.AttributesSectionTab | src/test/kotlin/co/anbora/labs/apiblueprint/highlighting/ApiBlueprintFinalValidationTest.kt:55 | With a tab: 3 and 15. |
| ApiBlueprintRegexExamples.AttributesSectionTwoSpaces | src/test/kotlin/co/anbora/labs/apiblueprint/highlighting/ApiBlueprintFinalValidationTest.kt:56 | With two spaces and `Product`: 4 and 16. |
| ApiBlueprintScanExamples.SectionTakesParameters | src/test/kotlin/co/anbora/labs/apiblueprint/highlighting/ApiBlueprintHighlightingTest.kt:82-93 | `+ Parameters` is a section with its keyword at 2..12. |
| ApiBlueprintScanExamples.SectionTakesHeaders | src/test/kotlin/co/anbora/labs/apiblueprint/highlighting/ApiBlueprintHighlightingTest.kt:82-93 | `+ Headers` is a section. |
| ApiBlueprintScanExamples.SectionTakesBody | src/test/kotlin/co/anbora/labs/apiblueprint/highlighting/ApiBlueprintHighlightingTest.kt:82-93 | `+ Body` is a section. |
| ApiBlueprintScanExamples.SectionTakesSchema | src/test/kotlin/co/anbora/labs/apiblueprint/highlighting/ApiBlueprintHighlightingTest.kt:82-93 | `+ Schema` is a section. |
| ApiBlueprintScanExamples.SectionRefuses | src/test/kotlin/co/anbora/labs/apiblueprint/highlighting/ApiBlueprintHighlightingTest.kt:107-109 | `+ Random text` is not a section. |
| ApiBlueprintScanExamples.SimpleAttributesExample | src/test/kotlin/co/anbora/labs/apiblueprint/highlighting/ApiBlueprintHighlightingTest.kt:102-105 | `+ Attributes` is a simple Attributes line with group 1 at 2..12, and not a typed one. |
| ApiBlueprintScanExamples.ResponseAt | src/main/kotlin/co/anbora/labs/apiblueprint/ide/highlighting/ApiBlueprintRegexUtils.kt:37 | For any three-digit code and MIME text, the response line has its groups at the expected offsets, with group 4 on the MIME text. |
| ApiBlueprintScanExamples.ResponseExample | src/test/kotlin/co/anbora/labs/apiblueprint/highlighting/ApiBlueprintHighlightingTest.kt:171-176 | `+ Response 200 (application/json)` has group 4 on `application/json`. |
| ApiBlueprintScanExamples.ResponseWithoutMedia | src/test/kotlin/co/anbora/labs/apiblueprint/highlighting/ApiBlueprintHighlightingTest.kt:178-180 | `+ Response 200` matches, with no media groups. |
| ApiBlueprintScanExamples.RequestAt | src/main/kotlin/co/anbora/labs/apiblueprint/ide/highlighting/ApiBlueprintRegexUtils.kt:36 | For any MIME text, `+ Request (mime)` has group 4 on the MIME text. |
| ApiBlueprintScanExamples.RequestExample | src/test/kotlin/co/anbora/labs/apiblueprint/highlighting/ApiBlueprintHighlightingTest.kt:186-190 | `+ Request (application/json)` has group 4 on `application/json`. |
| ApiBlueprintScanExamples.UriVarExample | src/test/kotlin/co/anbora/labs/apiblueprint/highlighting/ApiBlueprintHighlightingTest.kt:265-268 | In `/coupons/{id}` the variable match is `{id}` with group 1 `id`. |
| ApiBlueprintScanExamples.UriQueryTakesName | src/test/kotlin/co/anbora/labs/apiblueprint/highlighting/ApiBlueprintHighlightingTest.kt:271-275 | In `/coupons{?limit}` the query match is `{?limit}`. |
| ApiBlueprintScanExamples.UriQueryTakesList | src/test/kotlin/co/anbora/labs/apiblueprint/highlighting/ApiBlueprintHighlightingTest.kt:277-280 | In `/users{?page,size,sort}` the query match covers the whole list. |
| ApiBlueprintScanExamples.TypeAnnotationTakesNumber | src/test/kotlin/co/anbora/labs/apiblueprint/highlighting/ApiBlueprintHighlightingTest.kt:195-200 | `(number)` is a type annotation. |
| ApiBlueprintScanExamples.TypeAnnotationTakesObject | src/test/kotlin/co/anbora/labs/apiblueprint/highlighting/ApiBlueprintHighlightingTest.kt:195-200 | `(object)` is a type annotation. |
| ApiBlueprintScanExamples.TypeAnnotationTakesString | src/test/kotlin/co/anbora/labs/apiblueprint/highlighting/ApiBlueprintHighlightingTest.kt:195-200 | `(string)` is a type annotation. |
| ApiBlueprintScanExamples.TypeAnnotationTakesBoolean | src/test/kotlin/co/anbora/labs/apiblueprint/highlighting/ApiBlueprintHighlightingTest.kt:195-200 | `(boolean)` is a type annotation. |
| ApiBlueprintScanExamples.TypeAnnotationTakesArray | src/test/kotlin/co/anbora/labs/apiblueprint/highlighting/ApiBlueprintHighlightingTest.kt:195-200 | `(array)` is a type annotation. |
| ApiBlueprintScanExamples.TypeAnnotationTakesEnum | src/test/kotlin/co/anbora/labs/apiblueprint/highlighting/ApiBlueprintHighlightingTest.kt:195-200 | `(enum)` is a type annotation. |
| ApiBlueprintScanExamples.TypeAnnotationWithFlags | src/test/kotlin/co/anbora/labs/apiblueprint/highlighting/ApiBlueprintHighlightingTest.kt:202-204 | `(string, required)` is one type annotation over the whole parenthesis, with group 1 `string`. |
| ApiBlueprintScanExamples.TypeAnnotationRefusesInvalid | src/test/kotlin/co/anbora/labs/apiblueprint/highlighting/ApiBlueprintHighlightingTest.kt:206-208 | `(invalid)` holds no type annotation. |
| ApiBlueprintScanExamples.FlagWordFound | src/test/kotlin/co/anbora/labs/apiblueprint/highlighting/ApiBlueprintHighlightingTest.kt:235-240 | Each flag word on its own is found as a flag. |
| ApiBlueprintScanExamples.TwoFlagsFound | src/main/kotlin/co/anbora/labs/apiblueprint/ide/highlighting/ApiBlueprintAnnotator.kt:375-384 | For a text whose only flag matches are one at i and one at j that ends the text, `findAll` yields exactly those two matches, in order. |
| ApiBlueprintScanExamples.FlagFindAllExample | src/test/kotlin/co/anbora/labs/apiblueprint/highlighting/ApiBlueprintHighlightingTest.kt:242-246 | In `This field is required and optional`, `findAll` yields exactly `required` and then `optional`. |
| ApiBlueprintMsonExamples.ValueTypeAt | src/main/kotlin/co/anbora/labs/apiblueprint/ide/highlighting/ApiBlueprintRegexUtils.kt:75 | For any unreserved name, value and type, `+ name: value (type)` has groups name, value and type at their offsets, and no description. |
| ApiBlueprintMsonExamples.ValueTypeDescriptionAt | src/main/kotlin/co/anbora/labs/apiblueprint/ide/highlighting/ApiBlueprintRegexUtils.kt:75 | The same with a `- description`, which becomes group 4. |
| ApiBlueprintMsonExamples.TypeDescriptionAt | src/main/kotlin/co/anbora/labs/apiblueprint/ide/highlighting/ApiBlueprintRegexUtils.kt:75 | Without a value, group 2 is absent. |
| ApiBlueprintMsonExamples.NameTypeAt | src/main/kotlin/co/anbora/labs/apiblueprint/ide/highlighting/ApiBlueprintRegexUtils.kt:75 | Name and type only. |
| ApiBlueprintMsonExamples.ReservedItemRejected | src/main/kotlin/co/anbora/labs/apiblueprint/ide/highlighting/ApiBlueprintRegexUtils.kt:75 | A list item whose word is a reserved name followed by a word boundary never matches. |
| ApiBlueprintMsonExamples.NotReserved | src/main/kotlin/co/anbora/labs/apiblueprint/ide/highlighting/ApiBlueprintRegexUtils.kt:75 | A word that differs from every reserved name in some letter or in length, ignoring case, is not reserved. |
| ApiBlueprintMsonExamples.IdAttributeExample | src/test/kotlin/co/anbora/labs/apiblueprint/highlighting/ApiBlueprintHighlightingTest.kt:115-120 | `    + id: 250FF (string, required)` gives groups `id`, `250FF`, `string, required` and no description. |
| ApiBlueprintMsonExamples.CreatedAttributeExample | src/test/kotlin/co/anbora/labs/apiblueprint/highlighting/ApiBlueprintHighlightingTest.kt:123-129 | `    + created: 1415203908 (number) - Time stamp` gives the four groups, with the description `Time stamp`. |
| ApiBlueprintMsonExamples.RedeemByAttributeExample | src/test/kotlin/co/anbora/labs/apiblueprint/highlighting/ApiBlueprintHighlightingTest.kt:132-137 | `redeem_by` without a value has no group 2, type `number` and its description. |
| ApiBlueprintMsonExamples.AttributeNameExample | src/test/kotlin/co/anbora/labs/apiblueprint/highlighting/ApiBlueprintPatternConflictTest.kt:132 | `+ attribute_name (string)` is an attribute, although it starts with `attribute`. |
| ApiBlueprintMsonExamples.HeaderDataExample | src/test/kotlin/co/anbora/labs/apiblueprint/highlighting/ApiBlueprintPatternConflictTest.kt:135 | `+ header_data (object)` is an attribute, although it starts with `header`. |
| ApiBlueprintMsonExamples.LowerAttributesRejected | src/test/kotlin/co/anbora/labs/apiblueprint/highlighting/ApiBlueprintPatternConflictTest.kt:101-116 | `+ attributes (User)` is not an attribute. |
| ApiBlueprintMsonExamples.UpperAttributesRejected | src/test/kotlin/co/anbora/labs/apiblueprint/highlighting/ApiBlueprintPatternConflictTest.kt:101-116 | `+ ATTRIBUTES (User)` is not an attribute. |
| ApiBlueprintMsonExamples.AttributesRejected | src/test/kotlin/co/anbora/labs/apiblueprint/highlighting/ApiBlueprintPatternConflictTest.kt:12-27 | `+ Attributes (User)` is not an attribute. |
| ApiBlueprintMsonExamples.BareAttributesRejected | src/test/kotlin/co/anbora/labs/apiblueprint/highlighting/ApiBlueprintPatternConflictTest.kt:126 | `+ Attributes` is not an attribute. |
| ApiBlueprintMsonExamples.LowerParametersRejected | src/test/kotlin/co/anbora/labs/apiblueprint/highlighting/ApiBlueprintPatternConflictTest.kt:101-116 | `+ parameters` is not an attribute. |
| ApiBlueprintMsonExamples.UpperParametersRejected | src/test/kotlin/co/anbora/labs/apiblueprint/highlighting/ApiBlueprintPatternConflictTest.kt:101-116 | `+ PARAMETERS` is not an attribute. |
| ApiBlueprintMsonExamples.ParametersRejected | src/test/kotlin/co/anbora/labs/apiblueprint/highlighting/ApiBlueprintPatternConflictTest.kt:128 | `+ Parameters` is not an attribute. |
| ApiBlueprintMsonExamples.HeadersRejected | src/test/kotlin/co/anbora/labs/apiblueprint/highlighting/ApiBlueprintPatternConflictTest.kt:32-46 | `+ Headers` is not an attribute. |
| Text.TrimSpec | src/main/kotlin/co/anbora/labs/apiblueprint/ide/highlighting/ApiBlueprintAnnotator.kt:512 | `trim` returns a slice of the input and strips all leading and trailing whitespace. What remains neither starts nor ends with whitespace. |
| Text.BlankIffAllWhitespace | src/main/kotlin/co/anbora/labs/apiblueprint/ide/highlighting/ApiBlueprintAnnotator.kt:33 | `isBlank` holds iff every character is whitespace. |
| Text.JoinSplit | src/main/kotlin/co/anbora/labs/apiblueprint/ide/highlighting/ApiBlueprintAnnotator.kt:28 | Joining the pieces of `split('\n')` with `'\n'` gives back the text, so no character is lost by the line loop. |
| Text.SplitJoin | src/main/kotlin/co/anbora/labs/apiblueprint/ide/highlighting/ApiBlueprintAnnotator.kt:28 | Splitting a join of separator-free pieces gives back the pieces. |
| Text.IndexOfSpec | src/main/kotlin/co/anbora/labs/apiblueprint/ide/highlighting/ApiBlueprintAnnotator.kt:551 | For `from` within the text, `indexOf(needle, from)` is the first occurrence at or after `from`, or -1 exactly when there is none. |
| Text.IndexOfCharNone | src/main/kotlin/co/anbora/labs/apiblueprint/ide/highlighting/ApiBlueprintAnnotator.kt:351 | `indexOf(')', from)` is -1 iff no `)` occurs from `from` on. |

## Left out

- Offsets are counted in Unicode scalar values, while IntelliJ counts UTF-16 code units. On
  text outside the Basic Multilingual Plane the two differ.
- `RegexOption.IGNORE_CASE` is modelled as ASCII case folding. Java's Unicode-aware folding of
  non-ASCII letters (such as the Kelvin sign) is not modelled.
- `\b` and `\w` are modelled with ASCII word characters (`Text.IsWordChar`: ASCII letters, digits
  and `_`). From JDK 19 on, java.util.regex agrees with this. On earlier JDKs, `\b` also treats
  Unicode letters and digits as word characters, so a keyword next to a non-ASCII letter can
  match differently. This affects the recognizers `WordFrom`, `FirstKeyword` and
  `BoundedKeywordAt` (HTTP_METHOD, MSON_FLAG), `KeywordParenAt` (TYPE_ANNOTATION), `NumberAt`
  (NUMBER), the `.*\b(types)\b.*` test behind `MentionsType` and `TypeWordAt`, and the
  component tests `IsKeyword` and `IsTypeName`.
- The IntelliJ platform is not part of this model:
  - the `PsiElement`, `element.containingFile.virtualFile` and the `isBluePrintFile` test are
    left out, and the model starts from the element's text and start offset;
  - `AnnotationHolder` and the `newSilentAnnotation(…).range(…).textAttributes(…).create()`
    chain are modelled as appending `Annotation(start, end, key)` to a sequence;
  - severity and the colours behind each key are not modelled.
- Patterns defined in `ApiBlueprintRegexUtils.kt` but never called by the annotator are not
  modelled: STATUS_CODE, DATA_STRUCTURES, MSON_TYPE, MSON_PROPERTY, RESOURCE_ACTION,
  ARRAY_TYPE and COMPLEX_TYPE.
- The regular expressions are not interpreted generically. Each pattern is a hand-written
  recognizer that follows java.util.regex's backtracking order for that pattern. The
  correspondence is stated by the shape lemmas (`ResourceSpec`, `ActionSpec`,
  `TypeAnnotationSpec`, …) and by the examples taken from the unit tests.
- ApiBlueprintRegexUtils.Resource: the recognizer's own contract says only that its groups lie inside the line; what each group covers is stated by the lemmas in the table.
- ApiBlueprintRegexUtils.ApiName: the recognizer's own contract says only that its groups lie inside the line; what each group covers is stated by the lemmas in the table.
- ApiBlueprintRegexUtils.ActionName: the recognizer's own contract says only that its groups lie inside the line; what each group covers is stated by the lemmas in the table.
- ApiBlueprintRegexUtils.Section: the recognizer's own contract says only that its groups lie inside the line; what each group covers is stated by the lemmas in the table.
- ApiBlueprintRegexUtils.AttributesSection: the recognizer's own contract says only that its groups lie inside the line; what each group covers is stated by the lemmas in the table.
- ApiBlueprintRegexUtils.SimpleAttributes: the recognizer's own contract says only that its groups lie inside the line; what each group covers is stated by the lemmas in the table.
- ApiBlueprintRegexUtils.Request: the recognizer's own contract says only that its groups lie inside the line; what each group covers is stated by the lemmas in the table.
- ApiBlueprintRegexUtils.Response: the recognizer's own contract says only that its groups lie inside the line; what each group covers is stated by the lemmas in the table.
- ApiBlueprintRegexUtils.MsonAttribute: the recognizer's own contract says only that its groups lie inside the line; what each group covers is stated by the lemmas in the table.
- ApiBlueprintRegexUtils.DefaultValue: the recognizer's own contract says only that its groups lie inside the line; what each group covers is stated by the lemmas in the table.
- ApiBlueprintRegexUtils.Relation: the recognizer's own contract says only that its groups lie inside the line; what each group covers is stated by the lemmas in the table.
- Calling `annotate` twice on the same element adds the same annotations twice to the holder.
  The model is a function of the element text, so repeating the call yields the same sequence
  again. IntelliJ's removal of duplicate annotations is not modelled.
- Thread-safety and the platform's cancellation of annotators are not modelled.
