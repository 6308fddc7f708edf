/**
 * The newer resolver and projector, with title suppression, written as the
 * loops they are: a flag set inside a loop over the titles, a backward and
 * a forward scan with `continue` and `break` and the `offset` loops inside
 * them, and a projector that pushes onto a widget list. The plugin's global
 * settings lookup is replaced by a `Settings` parameter and the editor view
 * by the line and the cursor.
 */
module EditorExtension {
  import opened Wrappers
  import JsString
  import Titles
  import opened Boundary
  import opened Highlight

  /** The three settings strings the newer resolver reads; titles are one per line. */
  datatype Settings = Settings(sentenceDelimiters: string, extraCharacters: string, titles: string)

  /** The configuration the resolver derives from the settings: titles split on newlines. */
  function ConfigOf(settings: Settings): Config
  {
    Config(settings.sentenceDelimiters, settings.extraCharacters, JsString.Split(settings.titles, '\n'))
  }

  /**
   * The titles setting always yields at least one title, and an empty
   * setting yields the blank title, which suppresses every delimiter: the
   * whole line is then one sentence with an open end.
   */
  lemma EmptyTitlesSettingWholeLine(sentenceDelimiters: string, extraCharacters: string, line: Line, pos: int)
    requires ValidCursor(line, pos)
    ensures ConfigOf(Settings(sentenceDelimiters, extraCharacters, "")).titles == [""]
    ensures SentenceBounds(ConfigOf(Settings(sentenceDelimiters, extraCharacters, "")), line, pos)
         == Bounds(line.from, None)
  {
    JsString.SplitEmpty('\n');
    BlankTitleWholeLine(ConfigOf(Settings(sentenceDelimiters, extraCharacters, "")), line, pos);
  }

  /** `textStartsWithTitle`: does some title equal the slice of the line ending after index `i`? */
  method TextStartsWithTitle(lineText: string, titles: seq<string>, i: int) returns (foundTitle: bool)
    ensures foundTitle == Titles.TitleEndsAt(lineText, titles, i)
  {
    foundTitle := false;
    for k := 0 to |titles|
      invariant forall m :: 0 <= m < k ==> !Titles.SliceIsTitle(lineText, titles[m], i)
    {
      var title := titles[k];
      if JsString.Slice(lineText, i + 1 - |title|, i + 1) == title {
        foundTitle := true;
        break;
      }
    }
  }

  /**
   * `getActiveSentenceBounds`: the start after the nearest unsuppressed
   * delimiter before the cursor, and the end after the first one from the
   * cursor on, or the open end. The two scans are the methods below.
   */
  method ActiveSentenceBounds(settings: Settings, line: Line, pos: int) returns (bounds: Bounds)
    requires ValidCursor(line, pos)
    ensures bounds == SentenceBounds(ConfigOf(settings), line, pos)
  {
    var sentenceDelimiters := settings.sentenceDelimiters;
    var extraCharacters := settings.extraCharacters;
    var titles := JsString.Split(settings.titles, '\n');

    var lineStart := line.from;
    var lineText := line.text;

    var start := ScanBackward(sentenceDelimiters, extraCharacters, titles, lineText, pos - lineStart);
    var end := ScanForward(sentenceDelimiters, extraCharacters, titles, lineText, pos - lineStart);

    if end != -1 {
      return Bounds(start + lineStart, Some(end + lineStart));
    } else {
      return Bounds(start + lineStart, None);
    }
  }

  /**
   * The backward scan from cursor index `p`: the first unsuppressed
   * delimiter met going left, then the spaces and the extras after it;
   * 0 when there is none.
   */
  method ScanBackward(sentenceDelimiters: string, extraCharacters: string, titles: seq<string>, lineText: string, p: int)
    returns (start: int)
    requires 0 <= p <= |lineText|
    ensures start == StartRel(Config(sentenceDelimiters, extraCharacters, titles), lineText, p)
  {
    ghost var cfg := Config(sentenceDelimiters, extraCharacters, titles);
    start := -1;

    for i := p downto 0
      invariant start == -1
      invariant forall j :: i <= j < p ==> !IsBreak(cfg, lineText, j)
    {
      if CharIn(sentenceDelimiters, lineText, i) {
        var isTitle := TextStartsWithTitle(lineText, titles, i);
        if isTitle {
          continue;
        }

        var offset := SkipAfterBreak(sentenceDelimiters, extraCharacters, lineText, i, p);

        start := i + offset;
        LastBreakIs(cfg, lineText, p, i);
        break;
      }
    }
    if start == -1 {
      NoBreakBefore(cfg, lineText, p);
      start := 0;
    }
  }

  /**
   * The two `offset` loops of the backward scan after a delimiter at `i`:
   * skip spaces, then extras that directly follow a delimiter, both while
   * the offset stays below `p - 1`. Titles play no part here, so the
   * start is stated for a configuration without them.
   */
  method SkipAfterBreak(sentenceDelimiters: string, extraCharacters: string, lineText: string, i: nat, p: int)
    returns (offset: int)
    ensures i + offset == StartAfter(Config(sentenceDelimiters, extraCharacters, []), lineText, i, p)
  {
    offset := 1;

    while i + offset < |lineText| && lineText[i + offset] == ' ' && offset < p - 1
      invariant 1 <= offset
      invariant Run(" ", lineText, i, offset, p - 1) == Run(" ", lineText, i, 1, p - 1)
      decreases p - 1 - offset
    {
      offset := offset + 1;
    }

    while CharIn(extraCharacters, lineText, i + offset) && CharIn(sentenceDelimiters, lineText, i + offset - 1)
      && offset < p - 1
      invariant 1 <= offset
      invariant RunAfterDelimiter(extraCharacters, sentenceDelimiters, lineText, i, offset, p - 1)
             == RunAfterDelimiter(extraCharacters, sentenceDelimiters, lineText, i, Run(" ", lineText, i, 1, p - 1), p - 1)
      decreases p - 1 - offset
    {
      offset := offset + 1;
    }
  }

  /**
   * The forward scan from cursor index `p`: the first unsuppressed
   * delimiter met going right, then the delimiters and the extras after it;
   * -1 when there is none.
   */
  method ScanForward(sentenceDelimiters: string, extraCharacters: string, titles: seq<string>, lineText: string, p: int)
    returns (end: int)
    requires 0 <= p <= |lineText|
    ensures end == match EndRel(Config(sentenceDelimiters, extraCharacters, titles), lineText, p)
      case None => -1
      case Some(e) => e
  {
    ghost var cfg := Config(sentenceDelimiters, extraCharacters, titles);
    end := -1;

    for i := p to |lineText|
      invariant end == -1
      invariant forall j :: p <= j < i ==> !IsBreak(cfg, lineText, j)
    {
      if CharIn(sentenceDelimiters, lineText, i) {
        var isTitle := TextStartsWithTitle(lineText, titles, i);
        if isTitle {
          continue;
        }

        var offset := 1;

        while CharIn(sentenceDelimiters, lineText, i + offset) && offset < |lineText|
          invariant 1 <= offset
          invariant Run(sentenceDelimiters, lineText, i, offset, |lineText|) == Run(sentenceDelimiters, lineText, i, 1, |lineText|)
          decreases |lineText| - offset
        {
          offset := offset + 1;
        }

        while CharIn(extraCharacters, lineText, i + offset) && offset < |lineText|
          invariant 1 <= offset
          invariant Run(extraCharacters, lineText, i, offset, |lineText|) == EndAfter(cfg, lineText, i) - i
          decreases |lineText| - offset
        {
          offset := offset + 1;
        }

        end := i + offset;
        FirstBreakIs(cfg, lineText, p, i);
        assert EndRel(cfg, lineText, p) == Some(end);
        break;
      }
    }
    if end == -1 {
      NoBreakFrom(cfg, lineText, p);
    }
  }

  /**
   * `getActiveSentenceDecos`: bounds at the cursor, retried one position to
   * the left when the end is open, the line end for a still open end, and
   * the spans pushed by the three-span or whole-line rule.
   */
  method ActiveSentenceDecos(settings: Settings, line: Line, pos: int) returns (widgets: seq<Span>)
    requires ValidCursor(line, pos)
    ensures widgets == Project(ConfigOf(settings), line, pos)
  {
    widgets := [];

    var activeSentenceBounds := ActiveSentenceBounds(settings, line, pos);

    if activeSentenceBounds.end == None {
      if pos > line.from {
        activeSentenceBounds := ActiveSentenceBounds(settings, line, pos - 1);
      }
    }

    ghost var cfg := ConfigOf(settings);
    assert activeSentenceBounds == ProjectedBounds(cfg, line, pos);

    var start := activeSentenceBounds.start;
    var end := if activeSentenceBounds.end == None then line.To() else activeSentenceBounds.end.value;
    assert (start, end) == ActiveRange(cfg, line, pos);

    ghost var sentence := [Span(start, end, ActiveSentence)];
    ghost var before := if line.from != start then [Span(line.from, start, ActiveParagraph)] else [];
    ghost var after := if end != line.To() then [Span(end, line.To(), ActiveParagraph)] else [];

    if start != end {
      widgets := widgets + [Span(start, end, ActiveSentence)];
      assert widgets == sentence;

      if line.from != start {
        widgets := widgets + [Span(line.from, start, ActiveParagraph)];
      }
      assert widgets == sentence + before;

      if end != line.To() {
        widgets := widgets + [Span(end, line.To(), ActiveParagraph)];
      }
      assert widgets == sentence + before + after;
    } else {
      if line.from != line.To() {
        widgets := widgets + [Span(line.from, line.To(), ActiveParagraph)];
      }
    }
    assert widgets == SpansFor(line, start, end);
  }
}
