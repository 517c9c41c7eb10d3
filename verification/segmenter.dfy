/** `handleProcess`'s scene builder: the script's words cut into windows of
    a fixed number of words, one scene per window. */
module Segmenter {
  import opened Maybe
  import opened Text
  import opened Types
  import opened TimeFormat
  import opened Prompt

  /** Words per 8-second window: the narration pace of the script's
      language. Only the exact string "Vietnamese" selects the slower pace. */
  function WordsPerSegment(language: string): nat
  {
    if language == "Vietnamese" then 22 else 28
  }

  /** The pace is 22 words for Vietnamese and 28 for every other language
      string, so a window is never empty. */
  lemma WordsPerSegmentCases(language: string)
    ensures WordsPerSegment(language) > 0
    ensures WordsPerSegment(language) == 22 <==> language == "Vietnamese"
    ensures WordsPerSegment(language) == 28 <==> language != "Vietnamese"
  {
  }

  /** `c` is `Math.ceil(a / n)`: the least number of `n`-sized windows that
      covers `a` items. */
  predicate IsCeiling(c: nat, a: nat, n: nat)
  {
    (c - 1) * n < a <= c * n
  }

  /** `Array.prototype.slice(start, end)` for non-negative bounds: both are
      clamped to the length, and a start past the end gives nothing. */
  function Slice<T>(xs: seq<T>, start: nat, end: nat): (r: seq<T>)
    ensures |r| == if start < end && start < |xs| then (if end < |xs| then end else |xs|) - start else 0
    ensures forall j :: 0 <= j < |r| ==> r[j] == xs[start + j]
  {
    var e := if end < |xs| then end else |xs|;
    var s := if start < e then start else e;
    xs[s..e]
  }

  // ---------------------------------------------------------------------
  // Windows

  /** The reference cut of `xs` into consecutive windows of `n`. */
  function Chunks<T>(xs: seq<T>, n: nat): seq<seq<T>>
    requires n > 0
    decreases |xs|
  {
    if |xs| == 0 then []
    else if |xs| <= n then [xs]
    else [xs[..n]] + Chunks(xs[n..], n)
  }

  /** Every window holds `n` elements except the last, which holds between
      1 and `n`; laid end to end the windows are `xs` again. */
  lemma {:induction false} ChunksShape<T>(xs: seq<T>, n: nat)
    requires n > 0
    ensures var cs := Chunks(xs, n);
      && Concat(cs) == xs
      && (forall k :: 0 <= k < |cs| ==> 0 < |cs[k]| <= n)
      && (forall k :: 0 <= k < |cs| - 1 ==> |cs[k]| == n)
    decreases |xs|
  {
    if 0 < |xs| <= n {
      assert Concat([xs]) == xs + Concat<T>([]);
    } else if |xs| > n {
      var rest := Chunks(xs[n..], n);
      ChunksShape(xs[n..], n);
      assert ([xs[..n]] + rest)[1..] == rest;
      assert xs == xs[..n] + xs[n..];
    }
  }

  /** There are `ceil(|xs| / n)` windows. */
  lemma {:induction false} ChunkCount<T>(xs: seq<T>, n: nat)
    requires n > 0
    ensures IsCeiling(|Chunks(xs, n)|, |xs|, n)
    decreases |xs|
  {
    if |xs| > n {
      var c := |Chunks(xs[n..], n)|;
      ChunkCount(xs[n..], n);
      assert (c + 1) * n == c * n + n;
    }
  }

  /** Window `k` is the slice the loop takes at `i = k * n`. */
  lemma {:induction false} ChunkIsSlice<T>(xs: seq<T>, n: nat, k: nat)
    requires n > 0 && k < |Chunks(xs, n)|
    ensures Chunks(xs, n)[k] == Slice(xs, k * n, k * n + n)
    decreases k
  {
    if k > 0 {
      assert |xs| > n;
      ChunkIsSlice(xs[n..], n, k - 1);
      assert (k - 1) * n + n == k * n;
      assert Chunks(xs, n)[k] == Chunks(xs[n..], n)[k - 1];
      var a := Slice(xs[n..], (k - 1) * n, (k - 1) * n + n);
      var b := Slice(xs, k * n, k * n + n);
      assert |a| == |b|;
      assert forall j :: 0 <= j < |a| ==> a[j] == b[j];
    }
  }

  /** One turn of the loop: when the windows of the words from `i` are the
      windows `cs` from `j`, window `j` is the clamped slice at `i` and the
      windows from `j + 1` are those of the words from `i + n`. */
  lemma ChunksStep<T>(xs: seq<T>, n: nat, i: nat, cs: seq<seq<T>>, j: nat)
    requires n > 0 && i < |xs| && j <= |cs|
    requires Chunks(xs[i..], n) == cs[j..]
    ensures j < |cs| && cs[j] == Slice(xs, i, i + n)
    ensures i + n <= |xs| ==> Chunks(xs[i + n..], n) == cs[j + 1..]
    ensures i + n >= |xs| ==> j + 1 == |cs|
  {
    var rest := xs[i..];
    assert cs[j + 1..] == cs[j..][1..];
    if |rest| > n {
      assert rest[n..] == xs[i + n..];
      assert Slice(xs, i, i + n) == rest[..n];
    } else {
      assert Slice(xs, i, i + n) == rest;
      if i + n == |xs| {
        assert xs[i + n..] == [];
      }
    }
  }

  lemma TakeSnoc<T>(s: seq<T>, j: nat)
    requires j < |s|
    ensures s[..j + 1] == s[..j] + [s[j]]
  {
  }

  /** Each window's words joined with `sep`. */
  function JoinEach(cs: seq<seq<string>>, sep: string): (r: seq<string>)
    ensures |r| == |cs|
    decreases |cs|
  {
    if |cs| == 0 then [] else [Join(cs[0], sep)] + JoinEach(cs[1..], sep)
  }

  lemma {:induction false} JoinEachAt(cs: seq<seq<string>>, sep: string, k: nat)
    requires k < |cs|
    ensures JoinEach(cs, sep)[k] == Join(cs[k], sep)
    decreases k
  {
    if k > 0 {
      JoinEachAt(cs[1..], sep, k - 1);
    }
  }

  /** Joining the joined windows is joining their concatenation: a window
      boundary becomes one separator, like any other gap between words. */
  lemma {:induction false} JoinOfJoins(cs: seq<seq<string>>, sep: string)
    requires forall k :: 0 <= k < |cs| ==> |cs[k]| > 0
    ensures Join(JoinEach(cs, sep), sep) == Join(Concat(cs), sep)
    decreases |cs|
  {
    if |cs| == 1 {
      assert Concat(cs) == cs[0] + Concat(cs[1..]);
      assert cs[0] + [] == cs[0];
    } else if |cs| > 1 {
      JoinOfJoins(cs[1..], sep);
      var rest := Concat(cs[1..]);
      assert Concat(cs) == cs[0] + rest;
      assert rest == cs[1] + Concat(cs[2..]) by {
        assert cs[1..][1..] == cs[2..];
      }
      JoinAppend(cs[0], rest, sep);
      assert JoinEach(cs, sep)[1..] == JoinEach(cs[1..], sep);
    }
  }

  /** The narration of every window: its words joined with single spaces. */
  function SegmentTexts(words: seq<string>, n: nat): seq<string>
    requires n > 0
  {
    JoinEach(Chunks(words, n), " ")
  }

  // ---------------------------------------------------------------------
  // Scenes

  /** Scene `k` (0-based) for the window narration `text`: 1-based id, the
      window's time label, the narration, and its visual prompt framed
      around the selected style's `fragment`. The style lookup does not
      depend on the window, so it is done once by the caller. */
  function MakeScene(k: nat, text: string, fragment: string): Scene
  {
    Scene(k + 1, TimeRange(k), text, Frame(fragment, text))
  }

  /** The scenes of `texts`, one per narration, numbered by position:
      each is appended after the scenes of the narrations before it. */
  function ScenesOf(texts: seq<string>, fragment: string): (r: seq<Scene>)
    ensures |r| == |texts|
    decreases |texts|
  {
    if |texts| == 0 then []
    else ScenesOf(texts[..|texts| - 1], fragment) + [MakeScene(|texts| - 1, texts[|texts| - 1], fragment)]
  }

  lemma {:induction false} ScenesOfAt(texts: seq<string>, fragment: string, j: nat)
    requires j < |texts|
    ensures ScenesOf(texts, fragment)[j] == MakeScene(j, texts[j], fragment)
    decreases |texts|
  {
    var m := |texts| - 1;
    if j < m {
      ScenesOfAt(texts[..m], fragment, j);
      assert texts[..m][j] == texts[j];
    }
  }

  /** Appending a narration appends its scene, numbered after the others. */
  lemma ScenesOfSnoc(texts: seq<string>, text: string, fragment: string)
    ensures ScenesOf(texts + [text], fragment) == ScenesOf(texts, fragment) + [MakeScene(|texts|, text, fragment)]
  {
    assert (texts + [text])[..|texts|] == texts;
  }

  /** The storyboard for a word list: one scene per window. */
  function Scenes(words: seq<string>, n: nat, fragment: string): seq<Scene>
    requires n > 0
  {
    ScenesOf(SegmentTexts(words, n), fragment)
  }

  /** What the scene-building loop knows before a turn: the scenes built so
      far are those of the first `j` windows, and the windows of the words
      still to cut are the remaining ones. */
  ghost predicate LoopState(words: seq<string>, n: nat, fragment: string, i: nat, j: nat, results: seq<Scene>)
    requires n > 0
  {
    var cs := Chunks(words, n);
    && j <= |cs|
    && results == ScenesOf(SegmentTexts(words, n)[..j], fragment)
    && (i <= |words| ==> Chunks(words[i..], n) == cs[j..])
    && (i >= |words| ==> j == |cs|)
  }

  /** One turn of the loop keeps `LoopState`: the slice at `i` is window
      `j`, and its scene is the next one. */
  lemma LoopStep(words: seq<string>, n: nat, fragment: string, i: nat, j: nat, results: seq<Scene>)
    requires n > 0 && i < |words|
    requires LoopState(words, n, fragment, i, j, results)
    ensures LoopState(words, n, fragment, i + n, j + 1,
                      results + [MakeScene(j, Join(Slice(words, i, i + n), " "), fragment)])
  {
    var cs := Chunks(words, n);
    var texts := SegmentTexts(words, n);
    var text := Join(Slice(words, i, i + n), " ");
    ChunksStep(words, n, i, cs, j);
    assert texts[j] == text by {
      JoinEachAt(cs, " ", j);
    }
    assert results + [MakeScene(j, text, fragment)] == ScenesOf(texts[..j + 1], fragment) by {
      TakeSnoc(texts, j);
      ScenesOfSnoc(texts[..j], text, fragment);
    }
  }

  /** The scene-building loop of `handleProcess`: `i` steps through the
      words `n` at a time, `sceneIdx` counts the scenes, and each scene's
      narration is the clamped slice from `i` joined with single spaces. */
  method BuildScenes(words: seq<string>, n: nat, fragment: string) returns (results: seq<Scene>)
    requires n > 0
    ensures results == Scenes(words, n, fragment)
  {
    results := [];
    var i: nat := 0;
    var sceneIdx: nat := 0;
    while i < |words|
      invariant LoopState(words, n, fragment, i, sceneIdx, results)
      decreases |words| - i
    {
      var segmentText := Join(Slice(words, i, i + n), " ");
      LoopStep(words, n, fragment, i, sceneIdx, results);
      results := results + [MakeScene(sceneIdx, segmentText, fragment)];
      i := i + n;
      sceneIdx := sceneIdx + 1;
    }
    assert SegmentTexts(words, n)[..sceneIdx] == SegmentTexts(words, n);
  }

  // ---------------------------------------------------------------------
  // Properties of the storyboard

  /** Scene `k` is numbered `k + 1`, covers seconds `8k` to `8(k + 1)`,
      narrates the words `k * n` up to `k * n + n` (clamped) joined with
      single spaces, and carries the prompt framed around that narration. */
  lemma SceneAt(words: seq<string>, n: nat, fragment: string, k: nat)
    requires n > 0 && k < |Scenes(words, n, fragment)|
    ensures var sc := Scenes(words, n, fragment)[k];
      && sc.id == k + 1
      && sc.timeRange == TimeRange(k)
      && sc.voiceText == Join(Slice(words, k * n, k * n + n), " ")
      && sc.videoPrompt == Frame(fragment, sc.voiceText)
  {
    SceneOfWindow(words, n, fragment, k);
    ChunkIsSlice(words, n, k);
  }

  /** Scene `k` is made from window `k`. */
  lemma SceneOfWindow(words: seq<string>, n: nat, fragment: string, k: nat)
    requires n > 0 && k < |Scenes(words, n, fragment)|
    ensures Scenes(words, n, fragment)[k] == MakeScene(k, Join(Chunks(words, n)[k], " "), fragment)
  {
    ScenesOfAt(SegmentTexts(words, n), fragment, k);
    JoinEachAt(Chunks(words, n), " ", k);
  }

  /** There are `ceil(|words| / n)` scenes. */
  lemma SceneCount(words: seq<string>, n: nat, fragment: string)
    requires n > 0
    ensures IsCeiling(|Scenes(words, n, fragment)|, |words|, n)
  {
    ChunkCount(words, n);
  }

  /** There are no scenes exactly when there are no words. */
  lemma NoScenesIff(words: seq<string>, n: nat, fragment: string)
    requires n > 0
    ensures |Scenes(words, n, fragment)| == 0 <==> |words| == 0
  {
    var c := |Scenes(words, n, fragment)|;
    SceneCount(words, n, fragment);
    if c > 0 {
      assert c * n >= n;
    }
  }

  /** The storyboard's narrations, in scene order, are exactly its windows
      joined with spaces. */
  lemma {:induction false} VoiceTextsAreWindows(words: seq<string>, n: nat, fragment: string)
    requires n > 0
    ensures VoiceTexts(Scenes(words, n, fragment)) == SegmentTexts(words, n)
  {
    var scenes := Scenes(words, n, fragment);
    var texts := SegmentTexts(words, n);
    forall k | 0 <= k < |texts|
      ensures VoiceTexts(scenes)[k] == texts[k]
    {
      ScenesOfAt(texts, fragment, k);
    }
  }

  /** Reading the narrations back to back, separated by single spaces,
      gives the whole script again: no word is lost, repeated or moved. */
  lemma NarrationCoversScript(words: seq<string>, n: nat, fragment: string)
    requires n > 0 && forall k :: 0 <= k < |words| ==> |words[k]| > 0
    ensures Join(VoiceTexts(Scenes(words, n, fragment)), " ") == Join(words, " ")
  {
    var cs := Chunks(words, n);
    VoiceTextsAreWindows(words, n, fragment);
    ChunksShape(words, n);
    JoinOfJoins(cs, " ");
  }

  /** The words of window `k` are all words, when the script's are. */
  lemma WindowOfWords(words: seq<string>, n: nat, k: nat)
    requires n > 0 && AllWords(words) && k < |Chunks(words, n)|
    ensures AllWords(Chunks(words, n)[k])
  {
    ChunkIsSlice(words, n, k);
  }

  /** Scene `k`'s narration reads back, word for word, as the window of
      the script's words it was cut from. */
  lemma SceneWordsAreWindow(words: seq<string>, n: nat, fragment: string, k: nat)
    requires n > 0 && AllWords(words) && k < |Scenes(words, n, fragment)|
    ensures Words(Scenes(words, n, fragment)[k].voiceText) == Slice(words, k * n, k * n + n)
  {
    var cs := Chunks(words, n);
    SceneOfWindow(words, n, fragment, k);
    ChunkIsSlice(words, n, k);
    WindowOfWords(words, n, k);
    WordsOfJoin(cs[k]);
  }

  /** Scene `k`'s narration holds `n` words in every scene but the last,
      and between 1 and `n` for the last. It is never empty and has no
      surrounding whitespace and no carriage return. */
  lemma SceneWords(words: seq<string>, n: nat, fragment: string, k: nat)
    requires n > 0 && AllWords(words) && k < |Scenes(words, n, fragment)|
    ensures var scenes := Scenes(words, n, fragment);
      var ws := Words(scenes[k].voiceText);
      && 0 < |ws| <= n
      && (k < |scenes| - 1 ==> |ws| == n)
      && scenes[k].voiceText != []
      && IsTrimmed(scenes[k].voiceText)
      && NoCarriageReturn(scenes[k].voiceText)
  {
    var cs := Chunks(words, n);
    SceneOfWindow(words, n, fragment, k);
    ChunksShape(words, n);
    WindowOfWords(words, n, k);
    WordsOfJoin(cs[k]);
    JoinOfWords(cs[k]);
  }

  /** Scene `k`'s label reads back as seconds `8k` to `8(k + 1)`. */
  lemma SceneTimeline(words: seq<string>, n: nat, fragment: string, k: nat)
    requires n > 0 && k < |Scenes(words, n, fragment)|
    ensures ParseRange(Scenes(words, n, fragment)[k].timeRange) == Some((k * SceneSeconds, (k + 1) * SceneSeconds))
  {
    SceneAt(words, n, fragment, k);
    TimeRangeRoundTrip(k);
  }

  /** The storyboard starts at second 0 and each scene starts where the one
      before it ends. */
  lemma ScenesContiguous(words: seq<string>, n: nat, fragment: string, k: nat)
    requires n > 0 && 0 < |Scenes(words, n, fragment)|
    ensures var scenes := Scenes(words, n, fragment);
      && ParseRange(scenes[0].timeRange) == Some((0, SceneSeconds))
      && (k + 1 < |scenes| ==>
            && ParseRange(scenes[k].timeRange).Some?
            && ParseRange(scenes[k + 1].timeRange).Some?
            && ParseRange(scenes[k].timeRange).value.1 == ParseRange(scenes[k + 1].timeRange).value.0)
  {
    SceneTimeline(words, n, fragment, 0);
    if k + 1 < |Scenes(words, n, fragment)| {
      SceneTimeline(words, n, fragment, k);
      SceneTimeline(words, n, fragment, k + 1);
    }
  }

  /** Every scene's prompt opens with the style fragment, closes with the
      quality keywords, and gives back its own narration when unframed. */
  lemma ScenePrompt(words: seq<string>, n: nat, fragment: string, k: nat)
    requires n > 0 && k < |Scenes(words, n, fragment)|
    ensures var sc := Scenes(words, n, fragment)[k];
      && |sc.videoPrompt| == |fragment| + |DescriptionMarker| + |sc.voiceText| + |KeywordSeparator| + |BaseKeywords|
      && sc.videoPrompt[..|fragment|] == fragment
      && sc.videoPrompt[|sc.videoPrompt| - |BaseKeywords|..] == BaseKeywords
      && Unframe(sc.videoPrompt, fragment) == Some(sc.voiceText)
  {
    var sc := Scenes(words, n, fragment)[k];
    SceneAt(words, n, fragment, k);
    FrameShape(fragment, sc.voiceText);
  }
}
