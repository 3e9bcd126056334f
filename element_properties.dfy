/**
 * What `annotate` does with one element: its text is split on `\n`, every
 * line is classified at the offset where it sits in the element, blank
 * lines and blank elements get nothing, and every annotation lies on the
 * line that produced it (or, for META, GROUP and DATA_STRUCTURES, over the
 * whole element).
 */
module ApiBlueprintElementProperties {
  import opened Text
  import opened ApiBlueprintHighlighterKeys
  import R = ApiBlueprintRegexUtils
  import opened ApiBlueprintAnnotator
  import AP = ApiBlueprintAnnotatorProperties

  /**
   * Where line `k` starts when the first line starts at `start` and every
   * line is followed by one `\n`: `start` plus, for each earlier line, its
   * length and one.
   */
  function LineStart(lines: seq<string>, start: nat, k: nat): nat
    requires k <= |lines|
  {
    if k == 0 then start else LineStart(lines, start, k - 1) + |lines[k - 1]| + 1
  }

  lemma {:induction false} LineStartBase(lines: seq<string>, start: nat, k: nat)
    requires k <= |lines|
    ensures LineStart(lines, start, k) == start + LineStart(lines, 0, k)
  {
    if k > 0 { LineStartBase(lines, start, k - 1); }
  }

  /** Dropping the first line moves the start past it and its `\n`. */
  lemma {:induction false} LineStartShift(lines: seq<string>, start: nat, k: nat)
    requires 1 <= k <= |lines|
    ensures LineStart(lines, start, k) == LineStart(lines[1..], start + |lines[0]| + 1, k - 1)
  {
    if k > 1 {
      LineStartShift(lines, start, k - 1);
      assert lines[1..][k - 2] == lines[k - 1];
    }
  }

  /** Piece `k` of a joined text is found at `LineStart`. */
  lemma {:induction false} JoinPiece(pieces: seq<string>, sep: char, k: nat)
    requires k < |pieces|
    ensures var p := LineStart(pieces, 0, k); var j := Join(pieces, sep);
      p + |pieces[k]| <= |j| && j[p..p + |pieces[k]|] == pieces[k]
  {
    if |pieces| > 1 {
      var j := Join(pieces, sep);
      var t := Join(pieces[1..], sep);
      var h := |pieces[0]| + 1;
      assert j == pieces[0] + [sep] + t;
      if k > 0 {
        var p' := LineStart(pieces[1..], 0, k - 1);
        var n := |pieces[k]|;
        JoinPiece(pieces[1..], sep, k - 1);
        LineStartShift(pieces, 0, k);
        LineStartBase(pieces[1..], h, k - 1);
        assert pieces[1..][k - 1] == pieces[k];
        assert j[h + p'..h + p' + n] == t[p'..p' + n];
      } else {
        assert j[..|pieces[0]|] == pieces[0];
      }
    }
  }

  /** The separator follows piece `k` of a joined text, unless it is the last, which ends the text. */
  lemma {:induction false} JoinAfterPiece(pieces: seq<string>, sep: char, k: nat)
    requires k < |pieces|
    ensures var p := LineStart(pieces, 0, k); var j := Join(pieces, sep);
      (k + 1 < |pieces| ==> p + |pieces[k]| < |j| && j[p + |pieces[k]|] == sep)
      && (k + 1 == |pieces| ==> p + |pieces[k]| == |j|)
  {
    if |pieces| > 1 {
      var j := Join(pieces, sep);
      var t := Join(pieces[1..], sep);
      var h := |pieces[0]| + 1;
      assert j == pieces[0] + [sep] + t;
      if k > 0 {
        JoinAfterPiece(pieces[1..], sep, k - 1);
        LineStartShift(pieces, 0, k);
        LineStartBase(pieces[1..], h, k - 1);
        assert pieces[1..][k - 1] == pieces[k];
      }
    }
  }

  /** Line `k` of a text split on `\n` is the text at `LineStart`, ended by a `\n` unless it is the last. */
  lemma LineInText(text: string, start: nat, k: nat)
    requires k < |Split(text, '\n')|
    ensures var lines := Split(text, '\n'); var o := LineStart(lines, start, k);
      start <= o && o + |lines[k]| <= start + |text| && text[o - start..o - start + |lines[k]|] == lines[k]
      && (k + 1 < |lines| ==> o + |lines[k]| < start + |text| && text[o - start + |lines[k]|] == '\n')
      && (k + 1 == |lines| ==> o + |lines[k]| == start + |text|)
  {
    var lines := Split(text, '\n');
    JoinSplit(text, '\n');
    JoinPiece(lines, '\n', k);
    JoinAfterPiece(lines, '\n', k);
    LineStartBase(lines, start, k);
  }

  /** The annotations of line `k` are what `annotate` gives it at `LineStart`, after the earlier lines' and before the later lines'. */
  lemma {:induction false} ForEachLineAt(lines: seq<string>, offset: nat, annotate: (string, nat) -> seq<Annotation>, k: nat)
    requires k < |lines|
    ensures ForEachLine(lines, offset, annotate)
      == ForEachLine(lines[..k], offset, annotate) + annotate(lines[k], LineStart(lines, offset, k))
         + ForEachLine(lines[k + 1..], LineStart(lines, offset, k + 1), annotate)
  {
    if k > 0 {
      var o1 := offset + |lines[0]| + 1;
      ForEachLineAt(lines[1..], o1, annotate, k - 1);
      LineStartShift(lines, offset, k);
      LineStartShift(lines, offset, k + 1);
      assert lines[1..][k - 1] == lines[k];
      assert lines[1..][k..] == lines[k + 1..];
      ForEachLineHead(lines, offset, annotate, k);
    } else {
      assert lines[..0] == [];
    }
  }

  /** The first `k` lines' annotations are the first line's, then the next `k - 1` lines'. */
  lemma ForEachLineHead(lines: seq<string>, offset: nat, annotate: (string, nat) -> seq<Annotation>, k: nat)
    requires 0 < k <= |lines|
    ensures ForEachLine(lines[..k], offset, annotate)
      == annotate(lines[0], offset) + ForEachLine(lines[1..][..k - 1], offset + |lines[0]| + 1, annotate)
  {
    assert lines[..k][0] == lines[0];
    assert lines[..k][1..] == lines[1..][..k - 1];
  }

  /**
   * Element level: a text that is not blank is split on `\n`, and line `k`
   * is classified (or skipped when blank) at `LineStart`, the offset where
   * it sits in the text, between the annotations of the earlier and of the
   * later lines.
   */
  lemma ElementLine(text: string, start: nat, k: nat)
    requires !IsBlank(text) && k < |Split(text, '\n')|
    ensures var lines := Split(text, '\n'); var elem := R.Span(start, start + |text|);
      ElementAnnotations(text, start)
      == LinesAnnotations(lines[..k], start, elem) + LineOrBlank(lines[k], LineStart(lines, start, k), elem)
         + LinesAnnotations(lines[k + 1..], LineStart(lines, start, k + 1), elem)
  {
    var lines := Split(text, '\n');
    var elem := R.Span(start, start + |text|);
    ForEachLineAt(lines, start, LineFn(elem), k);
  }

  /** A whitespace-only element, and a whitespace-only line, get no annotation. */
  lemma BlankSkipped(text: string, start: nat, line: string, offset: nat, elem: R.Span)
    ensures (forall t :: 0 <= t < |text| ==> IsKotlinWhitespace(text[t])) ==> ElementAnnotations(text, start) == []
    ensures (forall t :: 0 <= t < |line| ==> IsKotlinWhitespace(line[t])) ==> LineOrBlank(line, offset, elem) == []
  {
    BlankIffAllWhitespace(text);
    BlankIffAllWhitespace(line);
  }

  /** Annotation `x` is placed on line `k` of `lines`, the first starting at `start`. */
  predicate PlacedOn(x: Annotation, lines: seq<string>, start: nat, k: nat, elem: R.Span)
    requires k < |lines|
  {
    AP.Placed(x, LineStart(lines, start, k), LineStart(lines, start, k) + |lines[k]|, elem)
  }

  /** Annotation `x` is placed on one of `lines`. */
  predicate OnLine(x: Annotation, lines: seq<string>, start: nat, elem: R.Span) {
    exists k :: 0 <= k < |lines| && PlacedOn(x, lines, start, k, elem)
  }

  /** Every annotation of `r` lies within `lo..hi`, or over the element for META, GROUP and DATA_STRUCTURES. */
  predicate AllPlaced(r: seq<Annotation>, lo: nat, hi: nat, elem: R.Span) {
    forall a :: 0 <= a < |r| ==> AP.Placed(r[a], lo, hi, elem)
  }

  /** Every annotation of `r` is placed on one of `lines`. */
  predicate AllOnLine(r: seq<Annotation>, lines: seq<string>, start: nat, elem: R.Span) {
    forall a :: 0 <= a < |r| ==> OnLine(r[a], lines, start, elem)
  }

  /** The first line's annotations, placed on it, and the later lines', each placed on one of them, are all placed on one of the lines. */
  lemma ConsPlaced(here: seq<Annotation>, rest: seq<Annotation>, lines: seq<string>, offset: nat, elem: R.Span)
    requires lines != []
    requires AllPlaced(here, offset, offset + |lines[0]|, elem)
    requires AllOnLine(rest, lines[1..], offset + |lines[0]| + 1, elem)
    ensures AllOnLine(here + rest, lines, offset, elem)
  {
    var r := here + rest;
    forall a | 0 <= a < |r| ensures OnLine(r[a], lines, offset, elem) {
      if a < |here| {
        assert r[a] == here[a];
        OnFirstLine(here[a], lines, offset, elem);
      } else {
        assert r[a] == rest[a - |here|];
        OnLaterLine(rest[a - |here|], lines, offset, elem);
      }
    }
  }

  lemma OnFirstLine(x: Annotation, lines: seq<string>, offset: nat, elem: R.Span)
    requires lines != []
    ensures AP.Placed(x, offset, offset + |lines[0]|, elem) ==> OnLine(x, lines, offset, elem)
  {
    assert AP.Placed(x, offset, offset + |lines[0]|, elem) ==> PlacedOn(x, lines, offset, 0, elem);
  }

  /** An annotation on one of the lines after the first is on one of all the lines. */
  lemma OnLaterLine(x: Annotation, lines: seq<string>, offset: nat, elem: R.Span)
    requires lines != []
    ensures OnLine(x, lines[1..], offset + |lines[0]| + 1, elem) ==> OnLine(x, lines, offset, elem)
  {
    var later, o1 := lines[1..], offset + |lines[0]| + 1;
    forall k | 0 <= k < |later|
      ensures PlacedOn(x, later, o1, k, elem) ==> PlacedOn(x, lines, offset, k + 1, elem)
    {
      assert lines[1..][k] == lines[k + 1];
      LineStartShift(lines, offset, k + 1);
    }
  }

  /**
   * The loop over the lines places every annotation on one of them, for any
   * per-line classifier whose annotations stay on the line it is given.
   */
  lemma {:induction false} ForEachLinePlaced(lines: seq<string>, offset: nat, annotate: (string, nat) -> seq<Annotation>, elem: R.Span)
    requires forall line: string, o: nat :: AllPlaced(annotate(line, o), o, o + |line|, elem)
    ensures AllOnLine(ForEachLine(lines, offset, annotate), lines, offset, elem)
  {
    if lines != [] {
      var o1 := offset + |lines[0]| + 1;
      ForEachLinePlaced(lines[1..], o1, annotate, elem);
      ConsPlaced(annotate(lines[0], offset), ForEachLine(lines[1..], o1, annotate), lines, offset, elem);
    }
  }

  /** What one line may emit: line categories inside the line, META, GROUP and DATA_STRUCTURES over the element. */
  lemma LinePlaced(line: string, o: nat, elem: R.Span)
    ensures AllPlaced(LineOrBlank(line, o, elem), o, o + |line|, elem)
  {
    if !IsBlank(line) {
      AP.LineAnnotationsSpec(line, o, elem);
    }
  }

  /** The classifier `annotate` applies to each line keeps its annotations on that line. */
  lemma LineFnPlaced(elem: R.Span)
    ensures forall line: string, o: nat :: AllPlaced(LineFn(elem)(line, o), o, o + |line|, elem)
  {
    forall line: string, o: nat ensures AllPlaced(LineFn(elem)(line, o), o, o + |line|, elem) {
      LinePlaced(line, o, elem);
    }
  }

  /**
   * Every annotation of an element lies on one of its lines, at the offset
   * that line has in the element, unless it is a META, GROUP or
   * DATA_STRUCTURES annotation, which covers the whole element.
   */
  lemma ElementPlaced(text: string, start: nat)
    ensures var r := ElementAnnotations(text, start);
      forall a :: 0 <= a < |r| ==> OnLine(r[a], Split(text, '\n'), start, R.Span(start, start + |text|))
  {
    if !IsBlank(text) {
      LinesPlaced(Split(text, '\n'), start, R.Span(start, start + |text|));
    }
  }

  lemma LinesPlaced(lines: seq<string>, start: nat, elem: R.Span)
    ensures var r := LinesAnnotations(lines, start, elem);
      forall a :: 0 <= a < |r| ==> OnLine(r[a], lines, start, elem)
  {
    LineFnPlaced(elem);
    ForEachLinePlaced(lines, start, LineFn(elem), elem);
  }
}
