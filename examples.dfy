/**
 * Worked examples of the resolver and the projector on concrete lines,
 * including the behaviours that are easy to get wrong: a start that lies
 * past the cursor, a title that hides its delimiter from the backward scan,
 * and the retry one position to the left at the end of a line.
 */
module Examples {
  import opened Wrappers
  import JsString
  import Titles
  import opened Boundary
  import opened Highlight
  import EditorExtension
  import MainPlugin

  /** The default delimiters and extras, with no titles. */
  function Defaults(): Config
  {
    MainPlugin.ConfigOf(MainPlugin.DefaultSettings())
  }

  /** The default delimiters and extras with the single title "Mr.". */
  function WithMister(): Config
  {
    var d := MainPlugin.DefaultSettings();
    EditorExtension.ConfigOf(EditorExtension.Settings(d.sentenceDelimiters, d.extraCharacters, "Mr."))
  }

  /**
   * The backward space skip is bounded by the cursor's index minus one, not
   * by the cursor: with the cursor just after the first full stop the start
   * jumps over the five spaces to the "b", past the cursor.
   */
  lemma StartPassesCursor()
    ensures SentenceBounds(Defaults(), Line(0, "aaaaaaaaa.     b."), 10) == Bounds(15, Some(17))
  {
    var cfg, t := Defaults(), "aaaaaaaaa.     b.";
    assert IsBreak(cfg, t, 9);
    assert LastBreakBefore(cfg, t, 10) == Some(9);
    assert Run(" ", t, 9, 6, 9) == 6;
    assert Run(" ", t, 9, 1, 9) == 6;
    assert RunAfterDelimiter(cfg.extras, cfg.delimiters, t, 9, 6, 9) == 6;
    assert IsBreak(cfg, t, 16);
    assert FirstBreakFrom(cfg, t, 16) == Some(16);
    assert FirstBreakFrom(cfg, t, 10) == Some(16);
    assert EndAfter(cfg, t, 16) == 17;
  }

  /** "Mr." as the titles setting gives the one-title list. */
  lemma MisterConfig()
    ensures WithMister() == Config(".!?", "*“”‘’", ["Mr."])
  {
    JsString.SplitNoSep("Mr.", '\n');
  }

  /**
   * A title hides its full stop from both scans: inside "Jo" the start is
   * the line start, not the "J" after "Mr. ".
   */
  lemma TitleKeepsSentence()
    ensures SentenceBounds(WithMister(), Line(0, "Mr. Jo ran. Go."), 5) == Bounds(0, Some(11))
  {
    MisterConfig();
    TitleHidesStop();
    StopAfterTitle();
  }

  /** The full stop of "Mr." completes a title, so it breaks no sentence. */
  lemma TitleStopIsNoBreak()
    ensures !IsBreak(Config(".!?", "*“”‘’", ["Mr."]), "Mr. Jo ran. Go.", 2)
  {
    var t := "Mr. Jo ran. Go.";
    Titles.SliceIsTitleIff(t, "Mr.", 2);
    assert t[0..3] == "Mr.";
    assert Titles.SliceIsTitle(t, ["Mr."][0], 2);
  }

  /** The backward scan passes over the full stop of "Mr.". */
  lemma TitleHidesStop()
    ensures StartRel(Config(".!?", "*“”‘’", ["Mr."]), "Mr. Jo ran. Go.", 5) == 0
  {
    var cfg, t := Config(".!?", "*“”‘’", ["Mr."]), "Mr. Jo ran. Go.";
    forall j | 0 <= j < 5
      ensures !IsBreak(cfg, t, j)
    {
      if j == 2 {
        TitleStopIsNoBreak();
      }
    }
    NoBreakBefore(cfg, t, 5);
  }

  /** The forward scan stops at the full stop after "ran", which ends no title. */
  lemma StopAfterTitle()
    ensures EndRel(Config(".!?", "*“”‘’", ["Mr."]), "Mr. Jo ran. Go.", 5) == Some(11)
  {
    var cfg, t := Config(".!?", "*“”‘’", ["Mr."]), "Mr. Jo ran. Go.";
    Titles.SliceIsTitleIff(t, "Mr.", 10);
    assert t[8] != 'M';
    assert IsBreak(cfg, t, 10);
    FirstBreakIs(cfg, t, 5, 10);
    assert EndAfter(cfg, t, 10) == 11;
  }

  /** Without titles the same cursor starts after "Mr. ". */
  lemma NoTitlesSplitAtTitle()
    ensures SentenceBounds(Defaults(), Line(0, "Mr. Jo ran. Go."), 5) == Bounds(4, Some(11))
  {
    var cfg, t := Defaults(), "Mr. Jo ran. Go.";
    assert IsBreak(cfg, t, 2);
    assert LastBreakBefore(cfg, t, 5) == Some(2);
    assert Run(" ", t, 2, 1, 4) == 2;
    assert StartRel(cfg, t, 5) == 4;
    assert IsBreak(cfg, t, 10);
    assert FirstBreakFrom(cfg, t, 5) == Some(10);
    assert EndAfter(cfg, t, 10) == 11;
    assert EndRel(cfg, t, 5) == Some(11);
  }

  /** An ellipsis ends a sentence as a whole. */
  lemma EllipsisIsOneBreak()
    ensures SentenceBounds(Defaults(), Line(0, "Oh... no? Yes."), 1) == Bounds(0, Some(5))
  {
    var cfg, t := Defaults(), "Oh... no? Yes.";
    assert LastBreakBefore(cfg, t, 1) == None;
    assert IsBreak(cfg, t, 2);
    assert FirstBreakFrom(cfg, t, 1) == Some(2);
    assert Run(cfg.delimiters, t, 2, 1, |t|) == 3;
    assert EndAfter(cfg, t, 2) == 5;
    assert EndRel(cfg, t, 1) == Some(5);
  }

  /** The sentence after an ellipsis starts after the space that follows it. */
  lemma SentenceAfterEllipsis()
    ensures SentenceBounds(Defaults(), Line(0, "Oh... no? Yes."), 7) == Bounds(6, Some(9))
  {
    var cfg, t := Defaults(), "Oh... no? Yes.";
    assert IsBreak(cfg, t, 4);
    assert LastBreakBefore(cfg, t, 7) == Some(4);
    assert Run(" ", t, 4, 1, 6) == 2;
    assert StartRel(cfg, t, 7) == 6;
    assert IsBreak(cfg, t, 8);
    assert FirstBreakFrom(cfg, t, 7) == Some(8);
    assert EndAfter(cfg, t, 8) == 9;
    assert EndRel(cfg, t, 7) == Some(9);
  }

  /**
   * At the end of "abc." the open end triggers the retry one position to
   * the left, which marks the whole line as the active sentence.
   */
  lemma RetryAtLineEnd()
    ensures SentenceBounds(Defaults(), Line(0, "abc."), 4) == Bounds(4, None)
    ensures SentenceBounds(Defaults(), Line(0, "abc."), 3) == Bounds(0, Some(4))
    ensures Project(Defaults(), Line(0, "abc."), 4) == [Span(0, 4, ActiveSentence)]
  {
    var cfg, t := Defaults(), "abc.";
    assert LastBreakBefore(cfg, t, 4) == Some(3);
    assert Run(" ", t, 3, 1, 3) == 1;
    assert LastBreakBefore(cfg, t, 3) == None;
    assert FirstBreakFrom(cfg, t, 3) == Some(3);
    assert EndAfter(cfg, t, 3) == 4;
  }

  /**
   * After the last full stop of a line the retry finds the last sentence:
   * it is active and the first sentence is dimmed.
   */
  lemma RetryFindsLastSentence()
    ensures Project(Defaults(), Line(0, "Hello. World."), 13)
         == [Span(7, 13, ActiveSentence), Span(0, 7, ActiveParagraph)]
  {
    var cfg, t := Defaults(), "Hello. World.";
    assert IsBreak(cfg, t, 12);
    assert LastBreakBefore(cfg, t, 13) == Some(12);
    assert FirstBreakFrom(cfg, t, 13) == None;
    assert IsBreak(cfg, t, 5);
    assert LastBreakBefore(cfg, t, 9) == Some(5);
    assert LastBreakBefore(cfg, t, 12) == Some(5);
    assert Run(" ", t, 5, 1, 11) == 2;
    assert FirstBreakFrom(cfg, t, 12) == Some(12);
    assert EndAfter(cfg, t, 12) == 13;
  }
}
