/**
 * Title suppression: a delimiter that completes a configured title such as
 * "Mr." does not end a sentence. `textStartsWithTitle(lineText, titles, i)`
 * compares, for each title, the slice of the line ending just after index
 * `i` with the title.
 */
module Titles {
  import JsString

  /** The comparison made for one title: `lineText.slice(i+1 - title.length, i+1) === title`. */
  predicate SliceIsTitle(text: string, title: string, i: int)
  {
    JsString.Slice(text, i + 1 - |title|, i + 1) == title
  }

  /** What `textStartsWithTitle` reports: some title passes the comparison. */
  ghost predicate TitleEndsAt(text: string, titles: seq<string>, i: int)
  {
    exists k :: 0 <= k < |titles| && SliceIsTitle(text, titles[k], i)
  }

  /** The plain reading: `title` is the part of the line that ends at index `i`. */
  ghost predicate EndsWithAt(text: string, title: string, i: int)
  {
    0 <= i < |text| && |title| <= i + 1 && text[i + 1 - |title|..i + 1] == title
  }

  /**
   * For an index inside the line, the slice comparison is exactly the plain
   * reading: a title longer than `i + 1` makes the slice start negative, and
   * the clamped slice is then shorter than the title.
   */
  lemma SliceIsTitleIff(text: string, title: string, i: int)
    requires 0 <= i < |text|
    ensures SliceIsTitle(text, title, i) <==> EndsWithAt(text, title, i)
  {
    if |title| > i + 1 {
      assert |JsString.Slice(text, i + 1 - |title|, i + 1)| < |title|;
    }
  }

  /** Title match rule: the line ends at `i` with one of the titles. */
  lemma TitleMatchRule(text: string, titles: seq<string>, i: int)
    requires 0 <= i < |text|
    ensures TitleEndsAt(text, titles, i) <==> exists t :: t in titles && EndsWithAt(text, t, i)
  {
    if TitleEndsAt(text, titles, i) {
      var k :| 0 <= k < |titles| && SliceIsTitle(text, titles[k], i);
      SliceIsTitleIff(text, titles[k], i);
    }
    if t :| t in titles && EndsWithAt(text, t, i) {
      var k :| 0 <= k < |titles| && titles[k] == t;
      SliceIsTitleIff(text, t, i);
    }
  }

  /** With no titles nothing is suppressed. */
  lemma NoTitlesNoMatch(text: string, i: int)
    ensures !TitleEndsAt(text, [], i)
  {
  }

  /** A blank title matches at every index of the line. */
  lemma BlankTitleMatchesEverywhere(text: string, titles: seq<string>, i: int)
    requires "" in titles
    requires 0 <= i < |text|
    ensures TitleEndsAt(text, titles, i)
  {
    var k :| 0 <= k < |titles| && titles[k] == "";
    assert SliceIsTitle(text, titles[k], i);
  }
}
