/**
 * The component loop of `annotateTypeComponents` misses nothing: every
 * trimmed comma-separated piece of the type text is found by `indexOf`
 * from the cursor, never past its own place, so the annotations are
 * exactly the components the `when` classifies, in order, each over its
 * own text.
 */
module ApiBlueprintComponentProperties {
  import opened Text
  import opened ApiBlueprintHighlighterKeys
  import opened ApiBlueprintAnnotator
  import AP = ApiBlueprintAnnotatorProperties
  import E = ApiBlueprintElementProperties

  /** The components that the `when` gives a key to, in order. */
  function Kept(comps: seq<string>): seq<string> {
    if comps == [] then [] else KeptHead(comps[0]) + Kept(comps[1..])
  }

  /** `[c]` when the `when` gives `c` a key, else nothing. */
  function KeptHead(c: string): seq<string> {
    if ComponentCategory(c).Some? then [c] else []
  }

  /** A component is kept exactly when it is one of the components and the `when` gives it a key. */
  lemma {:induction false} KeptSpec(comps: seq<string>)
    ensures forall c :: c in Kept(comps) <==> c in comps && ComponentCategory(c).Some?
  {
    if comps != [] {
      KeptSpec(comps[1..]);
      assert comps == [comps[0]] + comps[1..];
    }
  }

  /** Each component, looked up in turn with `indexOf` from the cursor, is found. */
  predicate AllFound(content: string, comps: seq<string>, cursor: nat)
    requires cursor <= |content|
    decreases |comps|
  {
    comps == []
    || (var start := IndexOf(content, comps[0], cursor);
        start >= 0 && AllFound(content, comps[1..], start + |comps[0]|))
  }

  /** A turn that finds its component leaves the search of the rest to start past it. */
  lemma AllFoundTail(content: string, comps: seq<string>, cursor: nat)
    requires cursor <= |content| && AllFound(content, comps, cursor) && comps != []
    ensures var start := IndexOf(content, comps[0], cursor);
      cursor <= start && OccursAt(content, comps[0], start) && AllFound(content, comps[1..], start + |comps[0]|)
  {
    AP.IndexOfFound(content, comps[0], cursor);
  }

  /** The text of the blob found at `base` that annotation `a` covers (empty when it lies outside). */
  function CoveredText(content: string, base: nat, a: Annotation): string {
    if base <= a.start <= a.end <= base + |content| then content[a.start - base..a.end - base] else []
  }

  /** The covered texts of `r`, in order. */
  function Texts(content: string, base: nat, r: seq<Annotation>): (t: seq<string>)
    ensures |t| == |r|
  {
    if r == [] then [] else [CoveredText(content, base, r[0])] + Texts(content, base, r[1..])
  }

  lemma {:induction false} TextsConcat(content: string, base: nat, a: seq<Annotation>, b: seq<Annotation>)
    ensures Texts(content, base, a + b) == Texts(content, base, a) + Texts(content, base, b)
    decreases |a|
  {
    if a != [] {
      TextsConcat(content, base, a[1..], b);
      assert (a + b)[0] == a[0] && (a + b)[1..] == a[1..] + b;
      calc {
        Texts(content, base, a + b);
        [CoveredText(content, base, a[0])] + Texts(content, base, a[1..] + b);
        [CoveredText(content, base, a[0])] + (Texts(content, base, a[1..]) + Texts(content, base, b));
        ([CoveredText(content, base, a[0])] + Texts(content, base, a[1..])) + Texts(content, base, b);
      }
    } else {
      assert a + b == b;
    }
  }

  /** A found component's annotation, if any, covers that component. */
  lemma HeadTexts(content: string, base: nat, c: string, start: nat)
    requires OccursAt(content, c, start)
    ensures Texts(content, base, ComponentAt(base + start, c)) == KeptHead(c)
  {
    assert content[start..start + |c|] == c;
  }

  /**
   * When every component is found, the texts the loop annotates are, in
   * order, exactly the components the `when` gives a key to.
   */
  lemma {:induction false} ComponentAnnotationsComplete(content: string, base: nat, comps: seq<string>, cursor: nat)
    requires cursor <= |content| && AllFound(content, comps, cursor)
    ensures Texts(content, base, ComponentAnnotations(content, base, comps, cursor)) == Kept(comps)
    decreases |comps|
  {
    if comps != [] {
      var start := IndexOf(content, comps[0], cursor);
      AllFoundTail(content, comps, cursor);
      ComponentAnnotationsComplete(content, base, comps[1..], start + |comps[0]|);
      TextsStep(content, base, comps, cursor);
    }
  }

  /** One turn that finds its component: the texts of the turns after it, with the component's own in front when it is kept. */
  lemma TextsStep(content: string, base: nat, comps: seq<string>, cursor: nat)
    requires cursor <= |content| && AllFound(content, comps, cursor) && comps != []
    ensures var c := comps[0]; var start := IndexOf(content, c, cursor);
      start + |c| <= |content|
      && (Texts(content, base, ComponentAnnotations(content, base, comps[1..], start + |c|)) == Kept(comps[1..])
          ==> Texts(content, base, ComponentAnnotations(content, base, comps, cursor)) == Kept(comps))
  {
    var c := comps[0];
    var start := IndexOf(content, c, cursor);
    AllFoundTail(content, comps, cursor);
    AP.ComponentFound(content, base, comps, cursor);
    HeadTexts(content, base, c, start);
    TextsConcat(content, base, ComponentAt(base + start, c), ComponentAnnotations(content, base, comps[1..], start + |c|));
  }

  /**
   * A piece sitting at `p` of the text, with the cursor at or before `p`:
   * the first occurrence of its trimmed form from the cursor is at or
   * before the trimmed form's own place, so it ends inside the piece.
   */
  lemma TrimmedFound(content: string, piece: string, p: nat, cursor: nat)
    requires cursor <= p && p + |piece| <= |content| && content[p..p + |piece|] == piece
    ensures var c := Trim(piece); var start := IndexOf(content, c, cursor);
      start >= 0 && start + |c| <= p + |piece|
  {
    var a := TrimmedOccurs(content, piece, p);
    FoundBefore(content, Trim(piece), cursor, p + a);
  }

  /** The trimmed piece occurs inside the piece, at an offset returned as `a`. */
  lemma TrimmedOccurs(content: string, piece: string, p: nat) returns (a: nat)
    requires p + |piece| <= |content| && content[p..p + |piece|] == piece
    ensures a + |Trim(piece)| <= |piece| && OccursAt(content, Trim(piece), p + a)
  {
    a := SkipKotlinWs(piece, 0);
    var b := TrimEndFrom(piece, a, |piece|);
    assert Trim(piece) == piece[a..b];
    forall t | 0 <= t < b - a
      ensures content[p + a..p + b][t] == piece[a..b][t]
    {
      assert content[p + a + t] == content[p..p + |piece|][a + t];
    }
    assert content[p + a..p + b] == piece[a..b];
  }

  /** `indexOf` from `cursor` finds the needle at or before any occurrence `q` past the cursor. */
  lemma FoundBefore(hay: string, needle: string, cursor: nat, q: nat)
    requires cursor <= q && OccursAt(hay, needle, q)
    ensures 0 <= IndexOf(hay, needle, cursor) <= q
  {
    IndexOfSpec(hay, needle, cursor);
  }

  /** Piece `j` of `content.split(",")` sits at `LineStart`, and the next one starts past it and its comma. */
  lemma PieceAt(content: string, j: nat)
    requires j < |Split(content, ',')|
    ensures var pieces := Split(content, ','); var p := E.LineStart(pieces, 0, j);
      p + |pieces[j]| <= |content| && content[p..p + |pieces[j]|] == pieces[j]
      && (j + 1 < |pieces| ==> E.LineStart(pieces, 0, j + 1) == p + |pieces[j]| + 1)
  {
    JoinSplit(content, ',');
    E.JoinPiece(Split(content, ','), ',', j);
  }

  /**
   * From piece `j` of `content.split(",")` on, with the cursor no further
   * than where piece `j` starts, every trimmed piece is found: its first
   * occurrence from the cursor ends inside piece `j`, so the cursor moved
   * past it is still before piece `j + 1`.
   */
  lemma {:induction false} PiecesFound(content: string, j: nat, cursor: nat)
    requires j <= |Split(content, ',')| && cursor <= |content|
    requires j < |Split(content, ',')| ==> cursor <= E.LineStart(Split(content, ','), 0, j)
    ensures AllFound(content, Components(content)[j..], cursor)
    decreases |Split(content, ',')| - j
  {
    var pieces := Split(content, ',');
    var comps := Components(content);
    if j < |pieces| {
      PieceAt(content, j);
      var p := E.LineStart(pieces, 0, j);
      TrimmedFound(content, pieces[j], p, cursor);
      var c := comps[j];
      var start := IndexOf(content, c, cursor);
      PiecesFound(content, j + 1, start + |c|);
      assert comps[j..][0] == c && comps[j..][1..] == comps[j + 1..];
    } else {
      assert comps[j..] == [];
    }
  }

  /**
   * `annotateTypeComponents` annotates exactly the classifiable trimmed
   * components of the type text: the texts its annotations cover are, in
   * order and without overlap, the components the `when` gives a key to,
   * and each annotation carries the key of its text.
   */
  lemma TypeComponentsExact(content: string, base: nat)
    ensures var r := TypeComponents(content, base);
      AP.Ordered(r) && Texts(content, base, r) == Kept(Components(content))
      && forall k :: 0 <= k < |r| ==> AP.MarkedAt(content, base, r[k], ComponentCategory)
  {
    PiecesFound(content, 0, 0);
    assert Components(content)[0..] == Components(content);
    ComponentAnnotationsComplete(content, base, Components(content), 0);
    AP.TypeComponentsSpec(content, base);
  }
}
