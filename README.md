# Focus Active Sentence: the sentence-boundary resolver and span projector

This project models the core of an editor plugin. The plugin highlights the
sentence under the cursor and dims the rest of the paragraph. For the line
under the cursor, the **resolver** (`getActiveSentenceBounds`) finds where the
active sentence starts and ends:

- It scans left from the cursor for the delimiter that ended the previous
  sentence.
- It scans right from the cursor for the delimiter that ends this one.

The **projector** (`getActiveSentenceDecos` / `getActiveSentenceDeco`)
turns those bounds into at most three marked ranges over the line. The
`active-sentence` role marks the sentence and the `active-paragraph` role
marks the rest.

The resolver and projector exist twice:

- `editorExtension.ts` is the newer copy. It skips delimiters that complete
  a configured title such as "Mr.". Titles are given one per line.
- `main.ts` is the older copy. It has no titles and holds the default
  settings.

Modules:

- `Wrappers`: `Option`.
- `JsString`: the JavaScript string operations the code relies on.
  `slice` clamps a negative start to `max(length + start, 0)`. `split("\n")` turns
  `""` into `[""]`. The module proves the split/join round trips.
- `Titles`: the title-match rule.
- `Boundary`: the resolver as a specification, with its lemmas:
  - `Config`, `Line` and `Bounds`;
  - the nearest break before the cursor and the first break from it;
  - the runs each `offset` loop passes over;
  - the resulting bounds.
- `Highlight`: the projector as a specification. It covers the retry one
  position to the left, the line-end fallback and the span rules. It proves
  that the spans tile the line.
- `EditorExtension`: the newer code, written as the loops it is. It has a
  flag set inside a loop over the titles, a backward and a forward scan
  with `continue`/`break` and the inner `offset` loops, and a projector
  that pushes onto a widget list. Each method is proved to compute the
  specification.
- `MainPlugin`: the older code, `DEFAULT_SETTINGS` and the agreement
  lemmas between the two resolvers.
- `Examples`: worked lines, including the behaviours that are easy to
  misread.

Some behaviours of the code are easy to misread:

- **The start can lie past the cursor.** The backward space skip stops at
  offset `pos - line.from - 1`, an offset counted from the delimiter. It is
  not a bound on the index. On `"aaaaaaaaa.     b."` with the cursor at 10
  the bounds are `{15, 17}`. See `Examples.StartPassesCursor`.
- **A title hides its delimiter from the backward scan entirely.** The scan
  goes on past it to an earlier delimiter or to the line start. Inside "Jo"
  in `"Mr. Jo ran. Go."` the start is 0, not the "J". The older resolver
  gives 4. See `Examples.TitleKeepsSentence` and
  `Examples.NoTitlesSplitAtTitle`.
- **An empty titles setting suppresses every delimiter.** Splitting `""`
  on newlines yields one blank title, and a blank title matches at every
  index. The whole line is then one open-ended sentence. See
  `EditorExtension.EmptyTitlesSettingWholeLine`.
- **The older resolver is the newer one with an empty title list.** No
  titles setting yields that list, because a split always has at least one
  piece. The two agree whenever no configured title ends anywhere on the
  line.
- **A closed end never lies before the start**, whatever the delimiters and
  extras: start <= end holds for every configuration. A space or an extra
  that the backward scan skips and that is also a delimiter is absorbed at
  least as far by the forward scan. The spans therefore tile the line
  without overlap for every configuration, not only for disjoint delimiter
  and extra sets without a space.
- **At the last full stop of a line** the end is open and the start lies
  at the line end. The retry at the previous position then finds the last
  sentence: on `"Hello. World."` at 13 the active range is `[7, 13)`.

## Model

| member | source | states |
|---|---|---|
| EditorExtension.TextStartsWithTitle | editorExtension.ts:5-17 | the flag is set exactly when some title equals the slice of the line ending just after index `i` |
| Titles.SliceIsTitle | editorExtension.ts:10 | the comparison made for one title: the slice of the line from `i + 1 - title.length` to `i + 1`, clamped as `slice` clamps, equals the title |
| Titles.TitleEndsAt | editorExtension.ts:5-17 | what `textStartsWithTitle` returns: some title in the list passes that comparison at `i` |
| Titles.SliceIsTitleIff | editorExtension.ts:10 | the slice comparison, including JavaScript's clamping of a negative start, holds exactly when the title fits before `i + 1` and the characters of the line that end at `i` spell it |
| Titles.TitleMatchRule | editorExtension.ts:5-17 | a title ends at `i` exactly when some title in the list ends there in the plain sense |
| Titles.NoTitlesNoMatch | editorExtension.ts:9-16 | with an empty list no title matches anywhere |
| Titles.BlankTitleMatchesEverywhere | editorExtension.ts:10 | a blank title matches at every index of the line |
| JsString.Slice | editorExtension.ts:10 | with both indices clamped by the slice index rule (an index past the length becomes the length, a negative one counts from the end and stops at 0): an in-range slice is the subsequence, no slice is longer than the string, and a slice with a negative start is shorter than the requested span |
| JsString.Split | editorExtension.ts:25 | splitting yields at least one piece and no piece contains the separator |
| JsString.JoinSplit | editorExtension.ts:25 | joining the pieces of a split with the separator gives back the string |
| JsString.SplitJoin | editorExtension.ts:25 | splitting a join of separator-free pieces gives back the pieces |
| JsString.SplitPieceThenSep | editorExtension.ts:25 | a separator-free piece followed by the separator splits off as the first piece |
| JsString.SplitNoSep | editorExtension.ts:25 | a string without the separator splits into itself alone |
| JsString.SplitEmpty | editorExtension.ts:25 | the empty string splits into one blank piece |
| EditorExtension.EmptyTitlesSettingWholeLine | editorExtension.ts:25 | an empty titles setting gives the one blank title, and every cursor then gets the line start and the open end |
| EditorExtension.ActiveSentenceBounds | editorExtension.ts:20-95 | the bounds are the specification's bounds for the split settings: the start after the nearest unsuppressed delimiter before the cursor, the end after the first one from the cursor on, or the open end |
| EditorExtension.ScanBackward | editorExtension.ts:30-57 | the backward scan, with `continue` on a title, both `offset` loops and the `-1` fallback to 0, returns the specified relative start |
| EditorExtension.SkipAfterBreak | editorExtension.ts:40-50 | the space loop and the extras-after-delimiter loop leave the offset at the specified start after the break |
| EditorExtension.ScanForward | editorExtension.ts:60-86 | the forward scan, with `continue` on a title and both `offset` loops, returns the specified relative end, or -1 when there is no unsuppressed delimiter from the cursor on |
| EditorExtension.ActiveSentenceDecos | editorExtension.ts:98-141 | the pushed widgets are the specified spans for the bounds after the retry and the line-end fallback, in push order |
| EditorExtension.ConfigOf | editorExtension.ts:23-25 | the resolver's configuration: the characters of the two settings strings, and the titles setting split on newlines |
| MainPlugin.ConfigOf | main.ts:87-88 | the older resolver's configuration: the characters of the two settings strings and no titles |
| Boundary.CharIn | editorExtension.ts:34 | `chars.contains(lineText[k])`: the index lies on the line and its character is one of `chars`; a read past the line end gives `undefined`, which is in no list |
| Boundary.ExtraAfterDelimiter | editorExtension.ts:48 | the backward extras condition: the character at `k` is an extra and the one before it is a delimiter |
| Boundary.IsBreak | editorExtension.ts:34-37 | a delimiter ends a sentence unless a title ends at it |
| Boundary.LastBreakBefore | editorExtension.ts:32-37 | the backward scan's stopping index, found below the cursor index, or none |
| Boundary.FirstBreakFrom | editorExtension.ts:62-67 | the forward scan's stopping index, found from the cursor index on and on the line, or none |
| Boundary.StartAfter | editorExtension.ts:40-52 | the relative start after a break at `i`: the break plus the space run and then the extras run, both bounded by `p - 1` |
| Boundary.StartRel | editorExtension.ts:30-57 | the backward scan's relative start: after the nearest break, else 0 |
| Boundary.EndAfter | editorExtension.ts:70-82 | the relative end after a break at `j`: the break plus the delimiter run and then the extras run, both bounded by the line length |
| Boundary.EndRel | editorExtension.ts:60-86 | the forward scan's relative end after the first break, else the open end |
| Boundary.SentenceBounds | editorExtension.ts:89-94 | the resolver's result: both relative offsets shifted by `line.from`, with the open end kept open |
| Highlight.ProjectedBounds | editorExtension.ts:105-112 | the projector asks again one position to the left only when the end is open and the cursor is not at the line start |
| Highlight.ActiveRange | editorExtension.ts:114-116 | the active range is the projected start and the projected end, or the line end when the end is still open |
| Highlight.SpansFor | editorExtension.ts:129-141 | the spans pushed for a range, in push order: the sentence then the non-empty dimmed parts before and after it, or the whole non-empty line dimmed when the range is empty |
| Highlight.Project | editorExtension.ts:98-141 | the spans the projector emits for a cursor |
| Boundary.LastBreakBeforeSpec | editorExtension.ts:32-37 | the break the backward scan stops at is an unsuppressed delimiter below the cursor index with none between it and the cursor; none is found only when there is none below the cursor |
| Boundary.FirstBreakFromSpec | editorExtension.ts:62-67 | the break the forward scan stops at is the first unsuppressed delimiter from the cursor index on; none is found only when there is none |
| Boundary.LastBreakIs | editorExtension.ts:32-37 | a break below the cursor with no break between it and the cursor is the one the backward scan stops at |
| Boundary.NoBreakBefore | editorExtension.ts:32-57 | with no break below the cursor the backward scan finds none |
| Boundary.FirstBreakIs | editorExtension.ts:62-67 | a break from the cursor on with no break before it is the one the forward scan stops at |
| Boundary.NoBreakFrom | editorExtension.ts:62-86 | with no break from the cursor on the forward scan finds none |
| Boundary.Run | editorExtension.ts:43-45 | an `offset` loop never moves the offset backwards |
| Boundary.RunStops | editorExtension.ts:43-45 | every character an `offset` loop passes qualifies, and it stops at the first one that does not or at the bound |
| Boundary.RunAfterDelimiter | editorExtension.ts:48-50 | the backward extras loop never moves the offset backwards |
| Boundary.RunAfterDelimiterStops | editorExtension.ts:48-50 | every character the backward extras loop absorbs is an extra directly after a delimiter, and it stops at the first that is not or at the bound |
| Boundary.StartAtLineStartIff | editorExtension.ts:32-57 | the start is the line start exactly when no unsuppressed delimiter lies before the cursor |
| Boundary.StartAfterShape | editorExtension.ts:40-52 | after a break at `i` the start lies after `i` and no later than the line end, at most `max(1, p - 1)` past `i`, over a maximal run of spaces and then a maximal run of extras each after a delimiter |
| Boundary.StartAfterNearestBreak | editorExtension.ts:32-57 | with `i` the nearest unsuppressed delimiter before the cursor, the start is `i` plus the space run plus the extras run, as above |
| Boundary.NoExtrasAfterSpaces | editorExtension.ts:43-50 | once a space follows the break, and a space is no delimiter, only spaces lie between the break and the start |
| Boundary.OpenEndIff | editorExtension.ts:60-93 | the end is open exactly when no unsuppressed delimiter lies at or after the cursor |
| Boundary.EndAfterShape | editorExtension.ts:70-82 | after a break at `j` the end closes a maximal run of delimiters starting at `j` and then a maximal run of extras |
| Boundary.EndAfterFirstBreak | editorExtension.ts:60-94 | with `j` the first unsuppressed delimiter from the cursor on, the end is closed and is the end of that run of delimiters and extras |
| Boundary.BoundsWithinLine | editorExtension.ts:89-94 | both offsets lie on the line, and a closed end lies after the cursor |
| Boundary.StartNotPastEnd | editorExtension.ts:40-82 | for every configuration the start found from the cursor does not lie past the end closed by a delimiter at or after the cursor |
| Boundary.StartNotAfterClosedEnd | editorExtension.ts:20-95 | a closed end never lies before the start |
| Boundary.NoDelimitersWholeLine | editorExtension.ts:34 | with no delimiters every cursor gets the line start and the open end |
| Boundary.BlankTitleWholeLine | editorExtension.ts:37 | a blank title suppresses every delimiter, so the whole line is one open-ended sentence |
| Boundary.SameBreaksSameLast | editorExtension.ts:32-37 | configurations that break alike below the cursor find the same nearest break |
| Boundary.SameBreaksSameFirst | editorExtension.ts:62-67 | configurations that break alike from the cursor on find the same first break |
| Boundary.SameBreaksSameBounds | editorExtension.ts:37 | titles matter only through the delimiters they suppress: configurations with the same delimiters and extras that break alike give the same bounds |
| Highlight.ProjectedEndIff | editorExtension.ts:105-116 | after the retry the end stays open exactly when no unsuppressed delimiter lies at or after the position before the cursor, and a closed end lies at or after the cursor |
| Highlight.ActiveRangeOrdered | editorExtension.ts:105-116 | for every configuration the active range is ordered and inside the line |
| Highlight.SpansTileLine | editorExtension.ts:129-141 | the span rules tile the line for any ordered range: the sentence span is present exactly when the range is non-empty, it is the only span with that role, and an empty line gets no span |
| Highlight.ProjectTilesLine | editorExtension.ts:98-141 | whatever the configuration, the emitted spans tile the line without overlap, and the one active-sentence span, if any, is the active range |
| MainPlugin.DefaultSettings | main.ts:12-15 | the defaults are three delimiters and five extras, no character is both, and neither holds a space |
| MainPlugin.NoTitleBreaks | main.ts:97 | without titles every delimiter breaks a sentence |
| MainPlugin.ActiveSentenceBounds | main.ts:84-149 | the older resolver computes the specification's bounds with no titles |
| MainPlugin.ScanBackward | main.ts:93-115 | the older backward scan returns the specified relative start with no titles |
| MainPlugin.ScanForward | main.ts:118-140 | the older forward scan returns the specified relative end with no titles, or -1 |
| MainPlugin.ActiveSentenceDeco | main.ts:152-195 | the older projector pushes the specified spans with no titles |
| MainPlugin.AgreesWhenNoTitleMatches | main.ts:84-149 | the two resolvers give the same bounds whenever no configured title ends anywhere on the line |
| MainPlugin.ProjectorsAgreeWhenNoTitleMatches | main.ts:152-195 | the two projectors emit the same spans whenever no configured title ends anywhere on the line |
| MainPlugin.EmptyDelimitersWholeLine | main.ts:87 | with an empty delimiter string every cursor gets the line start and the open end |
| Examples.StartPassesCursor | editorExtension.ts:43 | on `"aaaaaaaaa.     b."` at 10 the bounds are `{15, 17}`: the start lies past the cursor |
| Examples.MisterConfig | editorExtension.ts:25 | the titles setting "Mr." gives the one-title list |
| Examples.TitleStopIsNoBreak | editorExtension.ts:34-37 | the full stop of "Mr." completes a title and so breaks no sentence |
| Examples.TitleHidesStop | editorExtension.ts:37 | the backward scan passes over the full stop of "Mr." to the line start |
| Examples.StopAfterTitle | editorExtension.ts:67-82 | the forward scan stops at a full stop that ends no title |
| Examples.TitleKeepsSentence | editorExtension.ts:20-95 | with the title "Mr.", inside "Jo" in `"Mr. Jo ran. Go."` the bounds are `{0, 11}` |
| Examples.NoTitlesSplitAtTitle | main.ts:84-149 | without titles the same cursor gets `{4, 11}` |
| Examples.EllipsisIsOneBreak | editorExtension.ts:72-75 | an ellipsis ends a sentence as a whole: `"Oh... no? Yes."` at 1 gives `{0, 5}` |
| Examples.SentenceAfterEllipsis | editorExtension.ts:42-45 | the next sentence starts after the following space: at 7 the bounds are `{6, 9}` |
| Examples.RetryAtLineEnd | editorExtension.ts:105-116 | at the end of `"abc."` the end is open, and the retry marks `[0, 4)` as the only span |
| Examples.RetryFindsLastSentence | editorExtension.ts:105-141 | after the last full stop of `"Hello. World."` the retry makes `[7, 13)` active and dims `[0, 7)` |

## Left out

- Plugin plumbing is left out: the lifecycle, `loadSettings`/`saveSettings` and the settings tab (main.ts:17-77). It is host I/O and user interface.
- The global plugin lookup (editorExtension.ts:22, main.ts:86) becomes a `Settings` parameter. The editor view becomes the line and the cursor offset. The editor guarantees that the cursor lies on its line, which is the precondition `ValidCursor`.
- The CodeMirror integration is left out: the view plugin classes, `Decoration.mark`, `view.state.selection.main` and `doc.lineAt`. A decoration is a `(from, to, role)` span.
- `Decoration.set(widgets, true)` sorts the ranges. The projectors return the spans in the order they are pushed, so sorting is not modelled.
- Toggling the DOM class on scroll (editorExtension.ts:170-178) is a user-interface side effect and is left out.
- Characters are Dafny `char`s, which are Unicode scalar values. JavaScript strings are UTF-16 code units, and a lone surrogate half (which `split("")` and `lineText[i]` give for a character outside the Basic Multilingual Plane) has no counterpart in the model, so lines are taken to hold only characters of that plane.
- The settings interface shown in main.ts has no `titles` field, and no default for it appears. The titles string is therefore an input to the newer resolver.
