# Storyboard segmenter — a Dafny model

The application turns a narration script into a storyboard for short
generated videos. The user pastes a script, picks a narration language and a
visual style, and presses "process". The script is cut into consecutive
windows of words, one scene per window. Each window is 22 words for
Vietnamese and 28 for any other language, which is about eight seconds of
speech. Each scene carries:

- a 1-based id;
- an `MM:SS - MM:SS` time label for its eight seconds;
- its narration, which is the window's words joined with single spaces;
- a video prompt built from a fixed template. The template is the style's
  description fragment, then `. Visual description: `, then the narration,
  then `. ` and a constant list of quality keywords.

The user can edit a scene's prompt in place. Either column can be exported as
a text file with one trimmed line per scene and CRLF between lines.

This project models that deterministic core in Dafny and proves what it
promises.

- **Maybe** (`maybe.dfy`): the `Option` type.
- **Text** (`text.dfy`): JavaScript's `trim()`, `split(/\s+/)` and
  `join`, over the ECMAScript whitespace class. `split` is modelled as
  JavaScript evaluates it: an empty first piece for leading whitespace and
  `[""]` for `""`. Text also holds a reference tokenisation, `Words`, which
  gives the maximal non-whitespace runs. The two are proved to agree on a
  non-empty trimmed script. On `""` the split gives one empty piece and
  `Words` none, which is why the word count and the process handler test
  the trimmed script before splitting it.
- **Types** (`types.dfy`): the `Scene` record, the `VideoStyle` union and
  the style option table.
- **Prompt** (`prompt.dfy`): the style table and the prompt template.
  `Unframe` is its inverse. Each fragment is written as its list of
  comma-separated keywords (`KeywordList`), and the quality suffix as its
  keywords and separators. The strings are the same as the source's.
- **TimeFormat** (`time_format.dfy`): `formatTime`, `toString` and
  `padStart`. `ParseClock` and `ParseRange` read labels back.
- **Segmenter** (`segmenter.dfy`): the windows and the scene-building loop
  of `handleProcess`. There is a functional reference `Scenes` and a
  loop method `BuildScenes` proved equal to it.
- **Export** (`export.dfy`): the content of the exported file. `SplitCrlf`
  reads the file back into lines.
- **App** (`app.dfy`): the component state, the word count,
  `handleProcess` as a state transition, and the prompt edit.

The style table is modelled as the code has it, not as its type claims.

- It is typed as total over the style union, but its keys are
  `vector_motion`, `motion_graphics`, `cinematic`, `3d_animation`,
  `realistic`, `anime` and `cyberpunk`. Four union members (`3d`, `vintage`,
  `documentary`, `handdrawn`) have no entry.
- There is no fallback. A key that is neither an own nor an inherited
  property of the table is interpolated by the template literal as the word
  `undefined`, so the prompt literally starts with `undefined`.
  A generic default fragment for unknown styles would be the robust
  behaviour, but the code has none, and the model follows the code.
- The initial style `vector_motion` has an entry, but it is not a member of
  the union, and no option of the style selector can bring it back.

## Model

| member | source | states |
|---|---|---|
| Types.StyleValueInjective | types.ts:9-17 | the eight union members are eight different strings |
| Types.StyleOptionsCoverStyles | types.ts:25-34 | the option table has eight entries; entry `i` holds the `i`-th union member in declaration order; every member appears; and no two entries share a value |
| Prompt.FrameShape | App.tsx:27 | a prompt has the length of its parts, starts with the fragment and ends with the quality keywords, and `Unframe` gives the narration back unchanged |
| Prompt.PromptShape | App.tsx:15-28 | the prompt for a style starts with that style's fragment and ends with the keywords, and the narration can be read back out of it |
| Prompt.FrameInjective | App.tsx:27 | around one fragment, and so under one style, different narrations never produce the same prompt |
| Prompt.StyleTableDomain | App.tsx:17-25 | of the eight union members, exactly `motion_graphics`, `cinematic`, `anime` and `cyberpunk` have a table entry |
| Prompt.StyleTableHas | App.tsx:19-24 | `motion_graphics`, `cinematic`, `anime` and `cyberpunk` have an entry |
| Prompt.StyleTableLacks | App.tsx:17-25 | `3d`, `vintage`, `documentary` and `handdrawn` have no entry |
| Prompt.MissingStyleFragment | App.tsx:27 | for the four members without an entry, the prompt is the template with the word `undefined` where the fragment belongs |
| Prompt.FirstOptionHasEntry | types.ts:26 | the selector's first option is `motion_graphics`, and it has an entry |
| Prompt.StyleFragmentClean | App.tsx:17-27 | every fragment the template can interpolate, `undefined` included, is non-empty, has no surrounding whitespace and holds no carriage return |
| Prompt.BaseKeywordsClean | App.tsx:16 | the quality keywords are non-empty, have no surrounding whitespace and hold no carriage return |
| Prompt.FrameClean | App.tsx:27 | a prompt framed around such a fragment and a narration without carriage returns has no surrounding whitespace and no carriage return, so exporting it keeps it as it is |
| TimeFormat.NatToStringSpec | App.tsx:48-49 | `toString` gives decimal digits with no leading zero, denoting `n`; one digit exactly when `n < 10`, at most two below 100 |
| TimeFormat.PadSpec | App.tsx:48-49 | `padStart(2, '0')` puts zeros in front up to width 2 and never truncates: the input is kept as a suffix |
| TimeFormat.PadKeepsValue | App.tsx:48-49 | padding a numeral keeps it a numeral with the same value |
| TimeFormat.ClockRoundTrip | App.tsx:48-50 | `mins:secs` with `secs < 60` reads back as `60 * mins + secs` seconds |
| TimeFormat.FormatTimeRoundTrip | App.tsx:47-51 | `formatTime(s)` reads back as exactly `s`, for every `s`: floor and remainder lose nothing, the seconds field is below 60, and long minute fields are kept whole |
| TimeFormat.FormatTimeShape | App.tsx:47-51 | a label is at least five characters of digits with exactly one colon, third from the end, before a two-digit seconds field; below 100 minutes it is exactly `MM:SS` |
| TimeFormat.TimeRangeRoundTrip | App.tsx:45-55 | scene `k`'s label reads back as the window from second `8k` to second `8k + 8` |
| TimeFormat.LabelRoundTrip | App.tsx:55 | `start - end` labels read back as `(start, end)` |
| TimeFormat.FirstRange | App.tsx:45-55 | scene 0 is labelled `00:00 - 00:08` |
| TimeFormat.SecondRange | App.tsx:45-55 | scene 1 is labelled `00:08 - 00:16` |
| TimeFormat.ThirdRange | App.tsx:45-55 | scene 2 is labelled `00:16 - 00:24` |
| TimeFormat.EighthRange | App.tsx:45-55 | scene 7 crosses the minute: `00:56 - 01:04` |
| Segmenter.WordsPerSegmentCases | App.tsx:38 | the pace is 22 words exactly for the language string `Vietnamese` and 28 for every other string, so it is never zero |
| Segmenter.Slice | App.tsx:43 | `slice(start, end)` has the clamped length, and its elements are those of the input from `start` on |
| Segmenter.ChunksShape | App.tsx:42-43 | the windows laid end to end are the words again; each holds 1 to `n` words, and all but the last hold exactly `n` |
| Segmenter.ChunkCount | App.tsx:42 | there are `ceil(words.length / n)` windows |
| Segmenter.ChunkIsSlice | App.tsx:42-43 | window `k` is the clamped slice the loop takes at `i = k * n` |
| Segmenter.JoinOfJoins | App.tsx:43 | joining the joined windows with a space is joining all the words with a space |
| Segmenter.ScenesOfAt | App.tsx:53-58 | the scene at position `j` has id `j + 1`, the label of window `j`, narration `j`, and the prompt framed around it |
| Segmenter.LoopStep | App.tsx:42-59 | one turn of the loop keeps its invariant: the scenes pushed so far are those of the windows consumed so far |
| Segmenter.BuildScenes | App.tsx:39-59 | the loop builds exactly the reference storyboard `Scenes` |
| Segmenter.SceneAt | App.tsx:42-58 | scene `k` has id `k + 1`, the label of seconds `8k` to `8k + 8`, the words `k * n` to `k * n + n` joined with spaces, and the prompt framed around that narration |
| Segmenter.SceneOfWindow | App.tsx:43-58 | scene `k` is made from window `k` |
| Segmenter.SceneCount | App.tsx:42 | there are `ceil(words.length / n)` scenes |
| Segmenter.NoScenesIff | App.tsx:42 | there are no scenes exactly when there are no words |
| Segmenter.VoiceTextsAreWindows | App.tsx:43-56 | the narration column is the list of joined windows, in order |
| Segmenter.NarrationCoversScript | App.tsx:37-56 | the narrations joined with single spaces are the words joined with single spaces: no word is dropped, repeated or moved |
| Segmenter.SceneWordsAreWindow | App.tsx:43 | for a list of words, scene `k`'s narration splits back into exactly the words of its window |
| Segmenter.SceneWords | App.tsx:42-43 | each narration holds `n` words except the last, which holds 1 to `n`; none is empty, and none has surrounding whitespace or a carriage return |
| Segmenter.SceneTimeline | App.tsx:45-55 | scene `k`'s label reads back as seconds `8k` to `8(k + 1)` |
| Segmenter.ScenesContiguous | App.tsx:45-46 | the first scene of any non-empty storyboard starts at second 0, and each later scene starts where the previous one ends |
| Segmenter.ScenePrompt | App.tsx:57 | each prompt starts with the style fragment and ends with the keywords, and unframing it gives the scene's own narration |
| Text.Trim | App.tsx:12 | the trimmed text neither starts nor ends with whitespace |
| Text.TrimEmptyIff | App.tsx:31 | trimming leaves nothing exactly when the script is all whitespace |
| Text.TrimIsSlice | App.tsx:37 | the trimmed text is the part of the script after its leading whitespace |
| Text.TrimRemovesWhitespace | App.tsx:37 | what trimming removes, on either side, is whitespace only |
| Text.TrimOfTrimmed | App.tsx:67 | trimming text that is already trimmed changes nothing |
| Text.SplitOnWhitespace | App.tsx:37 | `split(/\s+/)` always gives at least one piece, even for `""` |
| Text.WordsAreWords | App.tsx:37 | every token is non-empty and holds no whitespace |
| Text.WordsOfTrim | App.tsx:37 | trimming does not change the tokens |
| Text.WordsEmptyIff | App.tsx:12 | a script has no tokens exactly when it is all whitespace |
| Text.WordsCoverContent | App.tsx:37 | the tokens laid end to end are the script's non-whitespace characters in order |
| Text.SplitTrimmedIsWords | App.tsx:37 | on a non-empty trimmed text, `split(/\s+/)` gives exactly the maximal non-whitespace runs |
| Text.SplitOfTrimIsWords | App.tsx:12 | for a script that is not blank, `trim().split(/\s+/)` gives its maximal non-whitespace runs |
| Text.WordsOfJoin | App.tsx:43 | words joined with single spaces split back into the same words |
| Text.JoinOfWords | App.tsx:43 | words joined with spaces give a non-empty trimmed text with no carriage return |
| Export.ExportContent | App.tsx:64-68 | no file is produced exactly when there are no scenes |
| Export.ExportOfSameField | App.tsx:66-68 | the file depends only on the exported column |
| Export.SplitOfJoin | App.tsx:67-68 | lines joined with CRLF read back as the same lines, when none holds a carriage return |
| Export.ExportRoundTrip | App.tsx:64-68 | when no exported field holds a carriage return, `N` scenes give `N` lines, so `N - 1` separators, and line `k` is scene `k`'s trimmed field |
| Export.TrimNoCarriageReturn | App.tsx:67 | trimming adds no carriage return |
| App.WordCountIsWords | App.tsx:12 | the word count is the number of maximal non-whitespace runs, and it is 0 exactly when the script is blank |
| App.Process | App.tsx:30-62 | a blank script leaves the state unchanged; otherwise the error is cleared, the storyboard is that of the script's words at the language's pace in the selected style, and nothing else changes |
| App.HandleProcess | App.tsx:30-62 | the handler with its loop computes the same state as `Process` |
| App.ProcessedCount | App.tsx:37-42 | processing gives `ceil(wordCount / wordsPerSegment)` scenes |
| App.ProcessedId | App.tsx:54 | after processing, scene `k` has id `k + 1`, so the ids are exactly 1 to `N` |
| App.ProcessedPrompt | App.tsx:57 | after processing, each prompt is the template for that scene's narration in the selected style |
| App.ProcessedNarration | App.tsx:37-43 | after processing, the narrations joined with spaces are the script's words joined with spaces, and each window has the full number of words except the last, which has at least one |
| App.VoiceExportOfScenes | App.tsx:64-68 | the voice file of a storyboard cut from words reads back, line by line, as its narrations |
| App.ProcessedVoiceExport | App.tsx:61-68 | after processing, the voice file reads back line by line as the narrations in scene order |
| App.PromptExportOfScenes | App.tsx:64-68 | the prompt file of a storyboard cut from words around a clean fragment reads back, line by line, as its prompts |
| App.ProcessedPromptExport | App.tsx:57-68 | after processing, in any style, the prompt file reads back line by line as the prompts in scene order |
| App.InitialStyleEntry | App.tsx:7 | the initial state's style `vector_motion` has an entry but equals no union member |
| App.NothingToExportInitially | App.tsx:9 | before any processing there is nothing to export |
| App.EditPrompt | App.tsx:187-190 | an edit applies exactly when `1 <= id <= N`; it sets that scene's prompt and keeps its other fields and every other scene |
| App.EditTargetsItsScene | App.tsx:186-190 | after processing, the handler of scene `k`, which passes that scene's id, edits scene `k` |
| App.EditKeepsVoiceExport | App.tsx:187-190 | a prompt edit leaves the voice file unchanged |
| App.EditLastWins | App.tsx:187-190 | two edits of the same scene leave the later value |
| App.EditSameValue | App.tsx:187-190 | writing back a scene's own prompt changes nothing |

## Left out

- `services/geminiService.ts` is not part of this model. It is a network client for a hosted generative model, and this component does not import it.
- React state hooks, JSX rendering, `alert` and `toLocaleString` are user interface. The alert on a blank script is modelled as "the state is unchanged".
- `Blob`, `URL.createObjectURL`, the anchor click and the file names are browser I/O. Only the file's content is modelled (`ExportContent`).
- Whitespace is a character predicate listing the ECMAScript WhiteSpace and LineTerminator code points, the Unicode `Zs` category as of Unicode 15 included. A code point that a later Unicode version adds to `Zs` would not be covered.
- Ids and seconds are JavaScript numbers in the source and unbounded integers here. They are exact below 2^53, far beyond any script's length.
- The style fragment is looked up once before the loop, not once per scene. The lookup does not depend on the window, so the results are identical.
- App.EditPrompt: an id outside `1..N` gives `None`. The source has no such case: it would fail on a missing element, so this branch models a crash as a refusal.
- App.EditPrompt: the source copies the array shallowly and then mutates the scene object it shares with the previous state. The model returns a new sequence with a new scene value, so it does not model that aliasing.
- Prompt.StyleFragment: a style name that is an inherited property of a JavaScript object (`toString`, `valueOf`, `constructor`, `__proto__` and the like) would interpolate that inherited value, not `undefined`. This is not modelled. The page can only set the style to an option value or to the initial `vector_motion`, and none of those is such a name.
- `selectedStyle` is kept as a string, because its initial value `vector_motion` is not a member of the union the source types it with.
