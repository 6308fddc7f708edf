/**
 * The older resolver and projector, which know no titles. The backward and
 * forward scans are the same loops as the newer ones without the title
 * check, so each is proved to compute the resolver specification at the
 * empty title list. The plugin's global settings lookup is replaced by a
 * `Settings` parameter and the editor view by the line and the cursor.
 */
module MainPlugin {
  import opened Wrappers
  import JsString
  import Titles
  import opened Boundary
  import opened Highlight
  import EditorExtension

  /** The two settings strings the older resolver reads. */
  datatype Settings = Settings(sentenceDelimiters: string, extraCharacters: string)

  /**
   * `DEFAULT_SETTINGS`: the sentence-ending marks, and the markdown emphasis
   * mark and the curly quotes that may follow them. No character is both a
   * delimiter and an extra, and neither set holds a space.
   */
  function DefaultSettings(): (s: Settings)
    ensures forall c :: c in s.sentenceDelimiters ==> c !in s.extraCharacters
    ensures ' ' !in s.sentenceDelimiters && ' ' !in s.extraCharacters
    ensures |s.sentenceDelimiters| == 3 && |s.extraCharacters| == 5
  {
    Settings(".!?", "*“”‘’")
  }

  /** The configuration the older resolver works with: no titles at all. */
  function ConfigOf(settings: Settings): Config
  {
    Config(settings.sentenceDelimiters, settings.extraCharacters, [])
  }

  /** Without titles, the breaks strictly between `lo` and `hi` are the delimiters there. */
  lemma NoTitleBreaks(cfg: Config, text: string, lo: int, hi: int)
    requires cfg.titles == []
    ensures forall j :: lo < j < hi ==> (IsBreak(cfg, text, j) <==> CharIn(cfg.delimiters, text, j))
  {
    forall j | lo < j < hi
      ensures IsBreak(cfg, text, j) <==> CharIn(cfg.delimiters, text, j)
    {
      Titles.NoTitlesNoMatch(text, j);
    }
  }

  /**
   * `getActiveSentenceBounds` without titles: the start after the nearest
   * delimiter before the cursor and the end after the first delimiter from
   * the cursor on, or the open end.
   */
  method ActiveSentenceBounds(settings: Settings, line: Line, pos: int) returns (bounds: Bounds)
    requires ValidCursor(line, pos)
    ensures bounds == SentenceBounds(ConfigOf(settings), line, pos)
  {
    var sentenceDelimiters := settings.sentenceDelimiters;
    var extraCharacters := settings.extraCharacters;

    var lineStart := line.from;
    var lineText := line.text;

    var start := ScanBackward(sentenceDelimiters, extraCharacters, lineText, pos - lineStart);
    var end := ScanForward(sentenceDelimiters, extraCharacters, lineText, pos - lineStart);

    if end != -1 {
      return Bounds(start + lineStart, Some(end + lineStart));
    } else {
      return Bounds(start + lineStart, None);
    }
  }

  /**
   * The backward scan from cursor index `p`: the first delimiter met going
   * left, then the spaces and the extras after it; 0 when there is none.
   */
  method ScanBackward(sentenceDelimiters: string, extraCharacters: string, lineText: string, p: int)
    returns (start: int)
    requires 0 <= p <= |lineText|
    ensures start == StartRel(Config(sentenceDelimiters, extraCharacters, []), lineText, p)
  {
    ghost var cfg := Config(sentenceDelimiters, extraCharacters, []);
    start := -1;

    for i := p downto 0
      invariant start == -1
      invariant forall j :: i <= j < p ==> !CharIn(sentenceDelimiters, lineText, j)
    {
      if CharIn(sentenceDelimiters, lineText, i) {
        var offset := 1;

        while i + offset < |lineText| && lineText[i + offset] == ' ' && offset < p - 1
          invariant 1 <= offset
          invariant Run(" ", lineText, i, offset, p - 1) == Run(" ", lineText, i, 1, p - 1)
          decreases p - 1 - offset
        {
          offset := offset + 1;
        }

        while CharIn(extraCharacters, lineText, i + offset) && CharIn(sentenceDelimiters, lineText, i + offset - 1)
          && offset < p - 1
          invariant 1 <= offset
          invariant RunAfterDelimiter(extraCharacters, sentenceDelimiters, lineText, i, offset, p - 1)
                 == StartAfter(cfg, lineText, i, p) - i
          decreases p - 1 - offset
        {
          offset := offset + 1;
        }

        start := i + offset;
        NoTitleBreaks(cfg, lineText, i, p);
        LastBreakIs(cfg, lineText, p, i);
        break;
      }
    }
    if start == -1 {
      start := 0;
      NoTitleBreaks(cfg, lineText, -1, p);
      NoBreakBefore(cfg, lineText, p);
    }
  }

  /**
   * The forward scan from cursor index `p`: the first delimiter met going
   * right, then the delimiters and the extras after it; -1 when there is none.
   */
  method ScanForward(sentenceDelimiters: string, extraCharacters: string, lineText: string, p: int)
    returns (end: int)
    requires 0 <= p <= |lineText|
    ensures end == match EndRel(Config(sentenceDelimiters, extraCharacters, []), lineText, p)
      case None => -1
      case Some(e) => e
  {
    ghost var cfg := Config(sentenceDelimiters, extraCharacters, []);
    end := -1;

    for i := p to |lineText|
      invariant end == -1
      invariant forall j :: p <= j < i ==> !CharIn(sentenceDelimiters, lineText, j)
    {
      if CharIn(sentenceDelimiters, lineText, i) {
        var offset := 1;

        while CharIn(sentenceDelimiters, lineText, i + offset) && offset < |lineText|
          invariant 1 <= offset
          invariant Run(sentenceDelimiters, lineText, i, offset, |lineText|) == Run(sentenceDelimiters, lineText, i, 1, |lineText|)
          decreases |lineText| - offset
        {
          offset := offset + 1;
        }

        while CharIn(extraCharacters, lineText, i + offset) && offset < |lineText|
          invariant 1 <= offset
          invariant Run(extraCharacters, lineText, i, offset, |lineText|) == EndAfter(cfg, lineText, i) - i
          decreases |lineText| - offset
        {
          offset := offset + 1;
        }

        end := i + offset;
        NoTitleBreaks(cfg, lineText, p - 1, i + 1);
        FirstBreakIs(cfg, lineText, p, i);
        break;
      }
    }
    if end == -1 {
      NoTitleBreaks(cfg, lineText, p - 1, |lineText|);
      NoBreakFrom(cfg, lineText, p);
    }
  }

  /**
   * `getActiveSentenceDeco`: the same retry one position to the left, the
   * same line-end fallback and the same span rules as the newer projector.
   */
  method ActiveSentenceDeco(settings: Settings, line: Line, pos: int) returns (widgets: seq<Span>)
    requires ValidCursor(line, pos)
    ensures widgets == Project(ConfigOf(settings), line, pos)
  {
    widgets := [];

    var activeSentenceBounds := ActiveSentenceBounds(settings, line, pos);

    if activeSentenceBounds.end == None {
      if pos > line.from {
        activeSentenceBounds := ActiveSentenceBounds(settings, line, pos - 1);
      }
    }

    ghost var cfg := ConfigOf(settings);
    assert activeSentenceBounds == ProjectedBounds(cfg, line, pos);

    var start := activeSentenceBounds.start;
    var end := if activeSentenceBounds.end == None then line.To() else activeSentenceBounds.end.value;
    assert (start, end) == ActiveRange(cfg, line, pos);

    ghost var sentence := [Span(start, end, ActiveSentence)];
    ghost var before := if line.from != start then [Span(line.from, start, ActiveParagraph)] else [];
    ghost var after := if end != line.To() then [Span(end, line.To(), ActiveParagraph)] else [];

    if start != end {
      widgets := widgets + [Span(start, end, ActiveSentence)];
      assert widgets == sentence;

      if line.from != start {
        widgets := widgets + [Span(line.from, start, ActiveParagraph)];
      }
      assert widgets == sentence + before;

      if end != line.To() {
        widgets := widgets + [Span(end, line.To(), ActiveParagraph)];
      }
      assert widgets == sentence + before + after;
    } else {
      if line.from != line.To() {
        widgets := widgets + [Span(line.from, line.To(), ActiveParagraph)];
      }
    }
    assert widgets == SpansFor(line, start, end);
  }

  /**
   * The two resolvers agree whenever no configured title ends at any index
   * of the line: the title-aware resolver, given the same delimiters and
   * extras, then breaks exactly where the older one does.
   */
  lemma AgreesWhenNoTitleMatches(settings: Settings, titles: string, line: Line, pos: int)
    requires ValidCursor(line, pos)
    requires forall i :: 0 <= i < |line.text| ==> !Titles.TitleEndsAt(line.text, JsString.Split(titles, '\n'), i)
    ensures var newer := EditorExtension.Settings(settings.sentenceDelimiters, settings.extraCharacters, titles);
      SentenceBounds(ConfigOf(settings), line, pos) == SentenceBounds(EditorExtension.ConfigOf(newer), line, pos)
  {
    var newer := EditorExtension.Settings(settings.sentenceDelimiters, settings.extraCharacters, titles);
    NoTitleBreaks(ConfigOf(settings), line.text, -1, |line.text|);
    SameBreaksSameBounds(ConfigOf(settings), EditorExtension.ConfigOf(newer), line, pos);
  }

  /** The same holds for the spans the two projectors emit. */
  lemma ProjectorsAgreeWhenNoTitleMatches(settings: Settings, titles: string, line: Line, pos: int)
    requires ValidCursor(line, pos)
    requires forall i :: 0 <= i < |line.text| ==> !Titles.TitleEndsAt(line.text, JsString.Split(titles, '\n'), i)
    ensures var newer := EditorExtension.Settings(settings.sentenceDelimiters, settings.extraCharacters, titles);
      Project(ConfigOf(settings), line, pos) == Project(EditorExtension.ConfigOf(newer), line, pos)
  {
    var older := ConfigOf(settings);
    var newer := EditorExtension.ConfigOf(EditorExtension.Settings(settings.sentenceDelimiters, settings.extraCharacters, titles));
    AgreesWhenNoTitleMatches(settings, titles, line, pos);
    if pos > line.from {
      AgreesWhenNoTitleMatches(settings, titles, line, pos - 1);
    }
    assert ProjectedBounds(older, line, pos) == ProjectedBounds(newer, line, pos);
  }

  /** With an empty delimiter string every cursor gets the line start and the open end. */
  lemma EmptyDelimitersWholeLine(extraCharacters: string, line: Line, pos: int)
    requires ValidCursor(line, pos)
    ensures SentenceBounds(ConfigOf(Settings("", extraCharacters)), line, pos) == Bounds(line.from, None)
  {
    NoDelimitersWholeLine(extraCharacters, [], line, pos);
  }
}
