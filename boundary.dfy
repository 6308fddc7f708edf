/**
 * The sentence-boundary resolver, as a specification.
 *
 * Given one line of the document, a cursor offset inside it and the
 * configured characters, the resolver scans left from the cursor for the
 * delimiter that ended the previous sentence and right from the cursor for
 * the delimiter that ends this one. These functions describe the result of
 * `getActiveSentenceBounds` index by index, and the lemmas below say what
 * that result means. The imperative scans in EditorExtension and MainPlugin
 * are proved to compute exactly these values.
 */
module Boundary {
  import opened Wrappers
  import Titles

  /**
   * The resolver's configuration after splitting the settings strings:
   * `delimiters` and `extras` are the characters of the two settings (a
   * character belongs to `s.split("")` exactly when it is in `s`) and
   * `titles` is the list of title strings.
   */
  datatype Config = Config(delimiters: string, extras: string, titles: seq<string>)

  /** One line of the document: its absolute start offset and its text. */
  datatype Line = Line(from: nat, text: string)
  {
    /** The absolute offset just past the last character of the line. */
    function To(): nat { from + |text| }
  }

  /** `{start, end}` with absolute offsets; `end == None` is the open end (`null`). */
  datatype Bounds = Bounds(start: int, end: Option<int>)

  /** The editor always places the cursor on its own line. */
  predicate ValidCursor(line: Line, pos: int)
  {
    line.from <= pos <= line.To()
  }

  /**
   * `chars.split("").contains(text[k])`: reading a string past its end gives
   * `undefined`, which is in no list of characters.
   */
  predicate CharIn(chars: string, text: string, k: int)
  {
    0 <= k < |text| && text[k] in chars
  }

  /**
   * The backward scan absorbs an extra character at `k` only when the
   * character before it is a delimiter.
   */
  predicate ExtraAfterDelimiter(extras: string, delimiters: string, text: string, k: int)
  {
    CharIn(extras, text, k) && CharIn(delimiters, text, k - 1)
  }

  /** A delimiter at `i` that does not complete a title ends a sentence. */
  ghost predicate IsBreak(cfg: Config, text: string, i: int)
  {
    CharIn(cfg.delimiters, text, i) && !Titles.TitleEndsAt(text, cfg.titles, i)
  }

  /** The nearest sentence break at an index below `p`, if any. */
  ghost function LastBreakBefore(cfg: Config, text: string, p: int): (r: Option<nat>)
    ensures r.Some? ==> r.value < p
    decreases p
  {
    if p <= 0 then None
    else if IsBreak(cfg, text, p - 1) then Some(p - 1)
    else LastBreakBefore(cfg, text, p - 1)
  }

  /** The break found is the nearest one below `p`; none is found only when there is none. */
  lemma {:induction false} LastBreakBeforeSpec(cfg: Config, text: string, p: int)
    ensures var r := LastBreakBefore(cfg, text, p);
      && (r.Some? ==> IsBreak(cfg, text, r.value))
      && (r.Some? ==> forall j :: r.value < j < p ==> !IsBreak(cfg, text, j))
      && (r.None? ==> forall j :: 0 <= j < p ==> !IsBreak(cfg, text, j))
    decreases p
  {
    if p > 0 && !IsBreak(cfg, text, p - 1) {
      LastBreakBeforeSpec(cfg, text, p - 1);
    }
  }

  /** The first sentence break at an index from `i` on, if any. */
  ghost function FirstBreakFrom(cfg: Config, text: string, i: int): (r: Option<nat>)
    requires 0 <= i
    ensures r.Some? ==> i <= r.value < |text|
    decreases |text| - i
  {
    if i >= |text| then None
    else if IsBreak(cfg, text, i) then Some(i)
    else FirstBreakFrom(cfg, text, i + 1)
  }

  /** The break found is the first one from `i` on; none is found only when there is none. */
  lemma {:induction false} FirstBreakFromSpec(cfg: Config, text: string, i: int)
    requires 0 <= i
    ensures var r := FirstBreakFrom(cfg, text, i);
      && (r.Some? ==> IsBreak(cfg, text, r.value))
      && (r.Some? ==> forall j :: i <= j < r.value ==> !IsBreak(cfg, text, j))
      && (r.None? ==> forall j :: i <= j < |text| ==> !IsBreak(cfg, text, j))
    decreases |text| - i
  {
    if i < |text| && !IsBreak(cfg, text, i) {
      FirstBreakFromSpec(cfg, text, i + 1);
    }
  }

  /**
   * Where `while (chars.contains(text[i + offset]) && offset < bound) offset++`
   * leaves `offset`.
   */
  function Run(chars: string, text: string, i: int, offset: int, bound: int): (r: int)
    ensures offset <= r
    decreases |text| - (i + offset)
  {
    if CharIn(chars, text, i + offset) && offset < bound then Run(chars, text, i, offset + 1, bound)
    else offset
  }

  /**
   * Every character the loop passes is one of `chars`, and it stops at the
   * first character that is not, or at the bound.
   */
  lemma {:induction false} RunStops(chars: string, text: string, i: int, offset: int, bound: int)
    ensures var r := Run(chars, text, i, offset, bound);
      && (r == offset || r <= bound)
      && (forall k :: i + offset <= k < i + r ==> CharIn(chars, text, k))
      && !(CharIn(chars, text, i + r) && r < bound)
    decreases |text| - (i + offset)
  {
    if CharIn(chars, text, i + offset) && offset < bound {
      RunStops(chars, text, i, offset + 1, bound);
    }
  }

  /**
   * The same for the backward extras loop, which also asks that the
   * character before each absorbed one is a delimiter.
   */
  function RunAfterDelimiter(extras: string, delimiters: string, text: string, i: int, offset: int, bound: int): (r: int)
    ensures offset <= r
    decreases |text| - (i + offset)
  {
    if ExtraAfterDelimiter(extras, delimiters, text, i + offset) && offset < bound then
      RunAfterDelimiter(extras, delimiters, text, i, offset + 1, bound)
    else offset
  }

  /** Every character absorbed is an extra after a delimiter; the loop stops at the first that is not, or at the bound. */
  lemma {:induction false} RunAfterDelimiterStops(extras: string, delimiters: string, text: string, i: int, offset: int, bound: int)
    ensures var r := RunAfterDelimiter(extras, delimiters, text, i, offset, bound);
      && (r == offset || r <= bound)
      && (forall k :: i + offset <= k < i + r ==> ExtraAfterDelimiter(extras, delimiters, text, k))
      && !(ExtraAfterDelimiter(extras, delimiters, text, i + r) && r < bound)
    decreases |text| - (i + offset)
  {
    if ExtraAfterDelimiter(extras, delimiters, text, i + offset) && offset < bound {
      RunAfterDelimiterStops(extras, delimiters, text, i, offset + 1, bound);
    }
  }

  /**
   * The relative start when the previous sentence ended at `i`: skip spaces,
   * then extras that follow a delimiter, both while the offset stays below
   * `p - 1`.
   */
  ghost function StartAfter(cfg: Config, text: string, i: nat, p: int): nat
  {
    var spaces := Run(" ", text, i, 1, p - 1);
    i + RunAfterDelimiter(cfg.extras, cfg.delimiters, text, i, spaces, p - 1)
  }

  /** The relative start found by the backward scan from cursor index `p`. */
  ghost function StartRel(cfg: Config, text: string, p: int): nat
  {
    match LastBreakBefore(cfg, text, p)
    case None => 0
    case Some(i) => StartAfter(cfg, text, i, p)
  }

  /**
   * The relative end when the sentence break is at `j`: absorb following
   * delimiters, then following extras.
   */
  ghost function EndAfter(cfg: Config, text: string, j: nat): nat
  {
    var delimiters := Run(cfg.delimiters, text, j, 1, |text|);
    j + Run(cfg.extras, text, j, delimiters, |text|)
  }

  /** The relative end found by the forward scan from cursor index `p`, or the open end. */
  ghost function EndRel(cfg: Config, text: string, p: nat): Option<nat>
  {
    match FirstBreakFrom(cfg, text, p)
    case None => None
    case Some(j) => Some(EndAfter(cfg, text, j))
  }

  /** `getActiveSentenceBounds(line, pos)`: relative results shifted by `line.from`. */
  ghost function SentenceBounds(cfg: Config, line: Line, pos: int): Bounds
    requires ValidCursor(line, pos)
  {
    var p := pos - line.from;
    Bounds(line.from + StartRel(cfg, line.text, p),
           match EndRel(cfg, line.text, p)
           case None => None
           case Some(e) => Some(line.from + e))
  }

  function Max(a: int, b: int): int { if a < b then b else a }

  /** The start is the line start exactly when no unsuppressed delimiter lies before the cursor. */
  lemma StartAtLineStartIff(cfg: Config, line: Line, pos: int)
    requires ValidCursor(line, pos)
    ensures SentenceBounds(cfg, line, pos).start == line.from
        <==> forall j :: 0 <= j < pos - line.from ==> !IsBreak(cfg, line.text, j)
  {
    var p := pos - line.from;
    LastBreakBeforeSpec(cfg, line.text, p);
    match LastBreakBefore(cfg, line.text, p)
    case None =>
    case Some(i) =>
      assert StartRel(cfg, line.text, p) >= i + 1;
  }

  /** Under these conditions `i` is the nearest break below `p`. */
  lemma LastBreakIs(cfg: Config, text: string, p: int, i: nat)
    requires i < p && IsBreak(cfg, text, i)
    requires forall j :: i < j < p ==> !IsBreak(cfg, text, j)
    ensures LastBreakBefore(cfg, text, p) == Some(i)
  {
    LastBreakBeforeSpec(cfg, text, p);
  }

  /** With no break below `p` the backward scan finds none. */
  lemma NoBreakBefore(cfg: Config, text: string, p: int)
    requires forall j :: 0 <= j < p ==> !IsBreak(cfg, text, j)
    ensures LastBreakBefore(cfg, text, p) == None
  {
    LastBreakBeforeSpec(cfg, text, p);
  }

  /** What the two backward skipping loops pass over after a break at `i`. */
  lemma StartAfterShape(cfg: Config, text: string, i: nat, p: int)
    requires i < p <= |text|
    ensures var s := StartAfter(cfg, text, i, p);
      var m := i + Run(" ", text, i, 1, p - 1);
      && i < m <= s <= |text|
      && s - i <= Max(1, p - 1)
      && (forall k :: i < k < m ==> CharIn(" ", text, k))
      && !(CharIn(" ", text, m) && m - i < p - 1)
      && (forall k :: m <= k < s ==> ExtraAfterDelimiter(cfg.extras, cfg.delimiters, text, k))
      && !(ExtraAfterDelimiter(cfg.extras, cfg.delimiters, text, s) && s - i < p - 1)
  {
    var spaces := Run(" ", text, i, 1, p - 1);
    var m := i + spaces;
    var s := StartAfter(cfg, text, i, p);
    RunStops(" ", text, i, 1, p - 1);
    RunAfterDelimiterStops(cfg.extras, cfg.delimiters, text, i, spaces, p - 1);
    if s > m {
      assert ExtraAfterDelimiter(cfg.extras, cfg.delimiters, text, s - 1);
    } else if m > i + 1 {
      assert CharIn(" ", text, m - 1);
    }
  }

  /**
   * Start after the nearest break `i`: the start lies in `(i, |text|]`, at
   * most `max(1, p - 1)` positions past `i`; between them lie a run of spaces
   * up to some `m` and then a run of extras each directly after a delimiter,
   * and each run stopped at the first character that did not qualify or at
   * the offset bound `p - 1`.
   */
  lemma StartAfterNearestBreak(cfg: Config, line: Line, pos: int, i: nat) returns (m: nat)
    requires ValidCursor(line, pos)
    requires i < pos - line.from && IsBreak(cfg, line.text, i)
    requires forall j :: i < j < pos - line.from ==> !IsBreak(cfg, line.text, j)
    ensures var s := SentenceBounds(cfg, line, pos).start - line.from;
      && i < m <= s <= |line.text|
      && s - i <= Max(1, pos - line.from - 1)
      && (forall k :: i < k < m ==> CharIn(" ", line.text, k))
      && !(CharIn(" ", line.text, m) && m - i < pos - line.from - 1)
      && (forall k :: m <= k < s ==> ExtraAfterDelimiter(cfg.extras, cfg.delimiters, line.text, k))
      && !(ExtraAfterDelimiter(cfg.extras, cfg.delimiters, line.text, s) && s - i < pos - line.from - 1)
  {
    var text, p := line.text, pos - line.from;
    LastBreakIs(cfg, text, p, i);
    StartAfterShape(cfg, text, i, p);
    m := i + Run(" ", text, i, 1, p - 1);
    assert StartRel(cfg, text, p) == StartAfter(cfg, text, i, p);
  }

  /**
   * Limited absorption on the left: once a space has been skipped after the
   * break, no extra character is absorbed unless the space is itself a
   * delimiter.
   */
  lemma NoExtrasAfterSpaces(cfg: Config, line: Line, pos: int, i: nat)
    requires ValidCursor(line, pos)
    requires i < pos - line.from && IsBreak(cfg, line.text, i)
    requires forall j :: i < j < pos - line.from ==> !IsBreak(cfg, line.text, j)
    requires ' ' !in cfg.delimiters
    requires CharIn(" ", line.text, i + 1)
    ensures forall k :: i < k < SentenceBounds(cfg, line, pos).start - line.from ==> CharIn(" ", line.text, k)
  {
    var text, p := line.text, pos - line.from;
    LastBreakIs(cfg, text, p, i);
    StartAfterShape(cfg, text, i, p);
    var m := i + Run(" ", text, i, 1, p - 1);
    var s := StartAfter(cfg, text, i, p);
    assert SentenceBounds(cfg, line, pos).start - line.from == s;
    if p > 2 {
      assert m > i + 1;
      assert CharIn(" ", text, m - 1);
      assert !ExtraAfterDelimiter(cfg.extras, cfg.delimiters, text, m);
    }
  }

  /** The end is open exactly when no unsuppressed delimiter lies at or after the cursor. */
  lemma OpenEndIff(cfg: Config, line: Line, pos: int)
    requires ValidCursor(line, pos)
    ensures SentenceBounds(cfg, line, pos).end.None?
        <==> forall j :: pos - line.from <= j < |line.text| ==> !IsBreak(cfg, line.text, j)
  {
    FirstBreakFromSpec(cfg, line.text, pos - line.from);
  }

  /** Under these conditions `j` is the first break from `p` on. */
  lemma FirstBreakIs(cfg: Config, text: string, p: nat, j: nat)
    requires p <= j < |text| && IsBreak(cfg, text, j)
    requires forall q :: p <= q < j ==> !IsBreak(cfg, text, q)
    ensures FirstBreakFrom(cfg, text, p) == Some(j)
  {
    FirstBreakFromSpec(cfg, text, p);
  }

  /** With no break from `p` on the forward scan finds none. */
  lemma NoBreakFrom(cfg: Config, text: string, p: nat)
    requires forall j :: p <= j < |text| ==> !IsBreak(cfg, text, j)
    ensures FirstBreakFrom(cfg, text, p) == None
  {
    FirstBreakFromSpec(cfg, text, p);
  }

  /** What the two forward absorbing loops pass over after a break at `j`. */
  lemma EndAfterShape(cfg: Config, text: string, j: nat)
    requires j < |text| && CharIn(cfg.delimiters, text, j)
    ensures var e := EndAfter(cfg, text, j);
      var k := j + Run(cfg.delimiters, text, j, 1, |text|);
      && j < k <= e <= |text|
      && (forall q :: j <= q < k ==> CharIn(cfg.delimiters, text, q))
      && !CharIn(cfg.delimiters, text, k)
      && (forall q :: k <= q < e ==> CharIn(cfg.extras, text, q))
      && !CharIn(cfg.extras, text, e)
  {
    var k := j + Run(cfg.delimiters, text, j, 1, |text|);
    var e := EndAfter(cfg, text, j);
    RunStops(cfg.delimiters, text, j, 1, |text|);
    RunStops(cfg.extras, text, j, k - j, |text|);
    if k > j + 1 {
      assert CharIn(cfg.delimiters, text, k - 1);
    }
    if e > k {
      assert CharIn(cfg.extras, text, e - 1);
    }
  }

  /**
   * End structure: with `j` the first break at or after the cursor, the end
   * closes a maximal run of delimiters starting at `j` followed by a maximal
   * run of extras.
   */
  lemma EndAfterFirstBreak(cfg: Config, line: Line, pos: int, j: nat) returns (k: nat)
    requires ValidCursor(line, pos)
    requires pos - line.from <= j < |line.text| && IsBreak(cfg, line.text, j)
    requires forall q :: pos - line.from <= q < j ==> !IsBreak(cfg, line.text, q)
    ensures SentenceBounds(cfg, line, pos).end.Some?
    ensures var e := SentenceBounds(cfg, line, pos).end.value - line.from;
      && j < k <= e <= |line.text|
      && (forall q :: j <= q < k ==> CharIn(cfg.delimiters, line.text, q))
      && !CharIn(cfg.delimiters, line.text, k)
      && (forall q :: k <= q < e ==> CharIn(cfg.extras, line.text, q))
      && !CharIn(cfg.extras, line.text, e)
  {
    var text, p := line.text, pos - line.from;
    FirstBreakIs(cfg, text, p, j);
    EndAfterShape(cfg, text, j);
    k := j + Run(cfg.delimiters, text, j, 1, |text|);
    assert SentenceBounds(cfg, line, pos).end == Some(line.from + EndAfter(cfg, text, j));
  }

  /** Both offsets lie on the line, and a closed end lies after the cursor. */
  lemma BoundsWithinLine(cfg: Config, line: Line, pos: int)
    requires ValidCursor(line, pos)
    ensures var b := SentenceBounds(cfg, line, pos);
      && line.from <= b.start <= line.To()
      && (b.end.Some? ==> pos < b.end.value <= line.To())
  {
    var text, p := line.text, pos - line.from;
    var before, after := LastBreakBefore(cfg, text, p), FirstBreakFrom(cfg, text, p);
    if before.Some? {
      StartAfterShape(cfg, text, before.value, p);
    }
    if after.Some? {
      FirstBreakFromSpec(cfg, text, p);
      EndAfterShape(cfg, text, after.value);
    }
  }

  /** With no delimiters every cursor gets the line start and the open end. */
  lemma NoDelimitersWholeLine(extras: string, titles: seq<string>, line: Line, pos: int)
    requires ValidCursor(line, pos)
    ensures SentenceBounds(Config("", extras, titles), line, pos) == Bounds(line.from, None)
  {
    var cfg, p := Config("", extras, titles), pos - line.from;
    NoBreakBefore(cfg, line.text, p);
    NoBreakFrom(cfg, line.text, p);
  }

  /** A blank title suppresses every delimiter: the whole line is one sentence. */
  lemma BlankTitleWholeLine(cfg: Config, line: Line, pos: int)
    requires ValidCursor(line, pos)
    requires "" in cfg.titles
    ensures SentenceBounds(cfg, line, pos) == Bounds(line.from, None)
  {
    forall j | 0 <= j < |line.text|
      ensures !IsBreak(cfg, line.text, j)
    {
      Titles.BlankTitleMatchesEverywhere(line.text, cfg.titles, j);
    }
    StartAtLineStartIff(cfg, line, pos);
    OpenEndIff(cfg, line, pos);
  }

  /**
   * The start found from `p` never lies past the end closed by a delimiter
   * at or after `p`, whatever the configuration: the backward loops skip only
   * spaces and extras; if such a delimiter sat among them, a space would be a
   * delimiter, and the forward loops, which absorb delimiters and then extras
   * with no condition on the character before, run at least as far.
   */
  lemma StartNotPastEnd(cfg: Config, text: string, p: nat, j: nat)
    requires p <= j < |text| && CharIn(cfg.delimiters, text, j)
    ensures StartRel(cfg, text, p) <= EndAfter(cfg, text, j)
  {
    EndAfterShape(cfg, text, j);
    var k := j + Run(cfg.delimiters, text, j, 1, |text|);
    var e := EndAfter(cfg, text, j);
    match LastBreakBefore(cfg, text, p)
    case None =>
    case Some(i) =>
      StartAfterShape(cfg, text, i, p);
      var m := i + Run(" ", text, i, 1, p - 1);
      var s := StartAfter(cfg, text, i, p);
      if j < m {
        assert CharIn(" ", text, j);
        assert k < m ==> CharIn(" ", text, k) && CharIn(cfg.delimiters, text, k);
      }
      assert e >= m;
      assert e < s ==> ExtraAfterDelimiter(cfg.extras, cfg.delimiters, text, e);
  }

  /** A closed end never lies before the start. */
  lemma StartNotAfterClosedEnd(cfg: Config, line: Line, pos: int)
    requires ValidCursor(line, pos)
    ensures var b := SentenceBounds(cfg, line, pos);
      b.end.Some? ==> b.start <= b.end.value
  {
    var text, p := line.text, pos - line.from;
    var after := FirstBreakFrom(cfg, text, p);
    if after.Some? {
      FirstBreakFromSpec(cfg, text, p);
      StartNotPastEnd(cfg, text, p, after.value);
    }
  }

  /** Configurations that break alike below `p` find the same nearest break. */
  lemma {:induction false} SameBreaksSameLast(cfg1: Config, cfg2: Config, text: string, p: int)
    requires forall j :: 0 <= j < p ==> (IsBreak(cfg1, text, j) <==> IsBreak(cfg2, text, j))
    ensures LastBreakBefore(cfg1, text, p) == LastBreakBefore(cfg2, text, p)
    decreases p
  {
    if p > 0 && !IsBreak(cfg1, text, p - 1) {
      SameBreaksSameLast(cfg1, cfg2, text, p - 1);
    }
  }

  /** Configurations that break alike from `i` on find the same first break. */
  lemma {:induction false} SameBreaksSameFirst(cfg1: Config, cfg2: Config, text: string, i: nat)
    requires forall j :: i <= j < |text| ==> (IsBreak(cfg1, text, j) <==> IsBreak(cfg2, text, j))
    ensures FirstBreakFrom(cfg1, text, i) == FirstBreakFrom(cfg2, text, i)
    decreases |text| - i
  {
    if i < |text| && !IsBreak(cfg1, text, i) {
      SameBreaksSameFirst(cfg1, cfg2, text, i + 1);
    }
  }

  /**
   * Two configurations with the same delimiters and extras that break the
   * line at the same places give the same bounds: titles matter only through
   * the breaks they suppress.
   */
  lemma SameBreaksSameBounds(cfg1: Config, cfg2: Config, line: Line, pos: int)
    requires ValidCursor(line, pos)
    requires cfg1.delimiters == cfg2.delimiters && cfg1.extras == cfg2.extras
    requires forall j :: 0 <= j < |line.text| ==> (IsBreak(cfg1, line.text, j) <==> IsBreak(cfg2, line.text, j))
    ensures SentenceBounds(cfg1, line, pos) == SentenceBounds(cfg2, line, pos)
  {
    var text, p := line.text, pos - line.from;
    SameBreaksSameLast(cfg1, cfg2, text, p);
    SameBreaksSameFirst(cfg1, cfg2, text, p);
  }
}
