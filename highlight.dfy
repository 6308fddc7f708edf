/**
 * The highlight projector: turns the resolver's bounds into at most three
 * marked ranges over the line, the active sentence and the dimmed rest of
 * the paragraph on either side of it.
 */
module Highlight {
  import opened Wrappers
  import opened Boundary

  datatype Role = ActiveSentence | ActiveParagraph

  /** One decoration: the range `[from, to)` marked with a role's class. */
  datatype Span = Span(from: int, to: int, role: Role)

  /**
   * The bounds the projector works with: when the end is open and the cursor
   * is not at the line start, the resolver is asked again one position to
   * the left.
   */
  ghost function ProjectedBounds(cfg: Config, line: Line, pos: int): Bounds
    requires ValidCursor(line, pos)
  {
    var b := SentenceBounds(cfg, line, pos);
    if b.end.None? && pos > line.from then SentenceBounds(cfg, line, pos - 1) else b
  }

  /** The active range: the projected start, and the projected end or else the line end. */
  ghost function ActiveRange(cfg: Config, line: Line, pos: int): (int, int)
    requires ValidCursor(line, pos)
  {
    var b := ProjectedBounds(cfg, line, pos);
    (b.start, match b.end case None => line.To() case Some(e) => e)
  }

  /** The spans pushed for an active range `[start, end)`, in the order they are pushed. */
  function SpansFor(line: Line, start: int, end: int): seq<Span>
  {
    if start != end then
      [Span(start, end, ActiveSentence)]
      + (if line.from != start then [Span(line.from, start, ActiveParagraph)] else [])
      + (if end != line.To() then [Span(end, line.To(), ActiveParagraph)] else [])
    else if line.from != line.To() then [Span(line.from, line.To(), ActiveParagraph)]
    else []
  }

  /** The spans the projector emits for a cursor. */
  ghost function Project(cfg: Config, line: Line, pos: int): seq<Span>
    requires ValidCursor(line, pos)
  {
    var (start, end) := ActiveRange(cfg, line, pos);
    SpansFor(line, start, end)
  }

  /** Offset `x` lies in one of the spans. */
  ghost predicate Covered(spans: seq<Span>, x: int)
  {
    exists k :: 0 <= k < |spans| && spans[k].from <= x < spans[k].to
  }

  /**
   * The spans are non-empty ranges inside `[lo, hi)`, no two of them overlap,
   * and together they cover every offset of `[lo, hi)`.
   */
  ghost predicate Tiles(spans: seq<Span>, lo: int, hi: int)
  {
    && (forall k :: 0 <= k < |spans| ==> lo <= spans[k].from < spans[k].to <= hi)
    && (forall k, l :: 0 <= k < l < |spans| ==> spans[k].to <= spans[l].from || spans[l].to <= spans[k].from)
    && (forall x :: lo <= x < hi ==> Covered(spans, x))
  }

  /**
   * The end stays open after the retry exactly when no unsuppressed
   * delimiter lies at or after the cursor, nor just before it; a closed end
   * lies at or after the cursor.
   */
  lemma ProjectedEndIff(cfg: Config, line: Line, pos: int)
    requires ValidCursor(line, pos)
    ensures var b := ProjectedBounds(cfg, line, pos);
      && (b.end.None? <==> forall j :: Max(pos - line.from - 1, 0) <= j < |line.text| ==> !IsBreak(cfg, line.text, j))
      && (b.end.Some? ==> pos <= b.end.value <= line.To())
  {
    OpenEndIff(cfg, line, pos);
    BoundsWithinLine(cfg, line, pos);
    if pos > line.from {
      OpenEndIff(cfg, line, pos - 1);
      BoundsWithinLine(cfg, line, pos - 1);
    }
  }

  /** For every configuration the active range is ordered and inside the line. */
  lemma ActiveRangeOrdered(cfg: Config, line: Line, pos: int)
    requires ValidCursor(line, pos)
    ensures var (start, end) := ActiveRange(cfg, line, pos);
      line.from <= start <= end <= line.To()
  {
    var b := SentenceBounds(cfg, line, pos);
    var q := if b.end.None? && pos > line.from then pos - 1 else pos;
    assert ProjectedBounds(cfg, line, pos) == SentenceBounds(cfg, line, q);
    BoundsWithinLine(cfg, line, q);
    StartNotAfterClosedEnd(cfg, line, q);
  }

  /**
   * The span rules tile the line for any ordered active range inside it:
   * the sentence span is `[start, end)` when that is non-empty, the dimmed
   * spans cover the rest, and an empty line gets no span.
   */
  lemma SpansTileLine(line: Line, start: int, end: int)
    requires line.from <= start <= end <= line.To()
    ensures var spans := SpansFor(line, start, end);
      && Tiles(spans, line.from, line.To())
      && (start < end <==> Span(start, end, ActiveSentence) in spans)
      && (forall k :: 0 <= k < |spans| && spans[k].role == ActiveSentence ==> spans[k] == Span(start, end, ActiveSentence))
      && (line.text == [] <==> spans == [])
  {
    var spans := SpansFor(line, start, end);
    forall x | line.from <= x < line.To()
      ensures Covered(spans, x)
    {
      var k :| 0 <= k < |spans| && spans[k].from <= x < spans[k].to by {
        if start == end {
          assert spans[0].from <= x < spans[0].to;
        } else if x < start {
          assert spans[1].from <= x < spans[1].to;
        } else if x < end {
          assert spans[0].from <= x < spans[0].to;
        } else {
          assert spans[|spans| - 1].from <= x < spans[|spans| - 1].to;
        }
      }
    }
  }

  /**
   * Whatever the configuration, the emitted spans tile the line without
   * overlap, and the one active-sentence span, if any, is the active range.
   */
  lemma ProjectTilesLine(cfg: Config, line: Line, pos: int)
    requires ValidCursor(line, pos)
    ensures var spans := Project(cfg, line, pos);
      var (start, end) := ActiveRange(cfg, line, pos);
      && Tiles(spans, line.from, line.To())
      && (start != end <==> Span(start, end, ActiveSentence) in spans)
      && (forall k :: 0 <= k < |spans| && spans[k].role == ActiveSentence ==> spans[k] == Span(start, end, ActiveSentence))
  {
    ActiveRangeOrdered(cfg, line, pos);
    var (start, end) := ActiveRange(cfg, line, pos);
    SpansTileLine(line, start, end);
  }
}
