/** The component's state and the operations that change it: processing the
    script into a storyboard, the live word count, the prompt edit, and the
    export of a column. */
module App {
  import opened Maybe
  import opened Text
  import opened Types
  import opened Prompt
  import opened Segmenter
  import opened Export

  /** The component's state. `selectedStyle` is typed as a `VideoStyle`
      in the source but starts as `vector_motion`, which is not one, so it
      is kept as the string it holds. */
  datatype Session = Session(
    inputScript: string,
    selectedStyle: string,
    language: string,
    scenes: seq<Scene>,
    error: Option<string>)

  /** The state on first render. */
  const InitialSession := Session("", "vector_motion", "Vietnamese", [], None)

  /** The live word count: 0 for a blank script, otherwise the number of
      pieces `split(/\s+/)` cuts the trimmed script into. */
  function WordCount(script: string): nat
  {
    var t := Trim(script);
    if t == [] then 0 else |SplitOnWhitespace(t)|
  }

  /** The word count is the number of maximal non-whitespace runs of the
      script, and it is 0 exactly when the script is blank. */
  lemma WordCountIsWords(script: string)
    ensures WordCount(script) == |Words(script)|
    ensures WordCount(script) == 0 <==> AllWhitespace(script)
  {
    WordsEmptyIff(script);
    TrimEmptyIff(script);
    if !AllWhitespace(script) {
      SplitOfTrimIsWords(script);
    }
  }

  /** `handleProcess`: a blank script leaves the state as it is (the user is
      alerted); otherwise the error is cleared and the storyboard is the
      script's words cut into windows at the language's pace, prompted in
      the selected style. Nothing else in the state changes. */
  function Process(st: Session): (r: Session)
    ensures AllWhitespace(st.inputScript) ==> r == st
    ensures !AllWhitespace(st.inputScript) ==>
      r == st.(error := None,
               scenes := Scenes(Words(st.inputScript), WordsPerSegment(st.language),
                                StyleFragment(st.selectedStyle)))
  {
    var t := Trim(st.inputScript);
    TrimEmptyIff(st.inputScript);
    if t == [] then st
    else
      SplitOfTrimIsWords(st.inputScript);
      var words := SplitOnWhitespace(t);
      st.(error := None,
          scenes := Scenes(words, WordsPerSegment(st.language), StyleFragment(st.selectedStyle)))
  }

  /** `handleProcess` as the source runs it, with the scene-building loop.
      The style's fragment does not depend on the window, so it is looked up
      once before the loop. */
  method HandleProcess(st: Session) returns (r: Session)
    ensures r == Process(st)
  {
    var t := Trim(st.inputScript);
    if t == [] {
      return st;
    }
    var words := SplitOnWhitespace(t);
    var wordsPerSegment := WordsPerSegment(st.language);
    var results := BuildScenes(words, wordsPerSegment, StyleFragment(st.selectedStyle));
    r := st.(error := None, scenes := results);
  }

  /** After processing a script that has words, there are
      `ceil(wordCount / wordsPerSegment)` scenes. */
  lemma ProcessedCount(st: Session)
    requires !AllWhitespace(st.inputScript)
    ensures IsCeiling(|Process(st).scenes|, WordCount(st.inputScript), WordsPerSegment(st.language))
  {
    WordCountIsWords(st.inputScript);
    SceneCount(Words(st.inputScript), WordsPerSegment(st.language), StyleFragment(st.selectedStyle));
  }

  /** After processing a script that has words, scene `k` has id `k + 1`. */
  lemma ProcessedId(st: Session, k: nat)
    requires !AllWhitespace(st.inputScript)
    requires k < |Process(st).scenes|
    ensures Process(st).scenes[k].id == k + 1
  {
    SceneAt(Words(st.inputScript), WordsPerSegment(st.language), StyleFragment(st.selectedStyle), k);
  }

  /** After processing a script that has words, scene `k`'s prompt is the
      template for its own narration in the selected style. */
  lemma ProcessedPrompt(st: Session, k: nat)
    requires !AllWhitespace(st.inputScript)
    requires k < |Process(st).scenes|
    ensures var sc := Process(st).scenes[k];
      sc.videoPrompt == PromptTemplate(sc.voiceText, st.selectedStyle)
  {
    SceneAt(Words(st.inputScript), WordsPerSegment(st.language), StyleFragment(st.selectedStyle), k);
  }

  /** After processing, the narrations read back to back are the script's
      words separated by single spaces, and each narration is a run of
      `wordsPerSegment` words (fewer, but at least one, for the last). */
  lemma ProcessedNarration(st: Session, k: nat)
    requires !AllWhitespace(st.inputScript)
    requires k < |Process(st).scenes|
    ensures var scenes := Process(st).scenes;
      && Join(VoiceTexts(scenes), " ") == Join(Words(st.inputScript), " ")
      && 0 < |Words(scenes[k].voiceText)| <= WordsPerSegment(st.language)
      && (k < |scenes| - 1 ==> |Words(scenes[k].voiceText)| == WordsPerSegment(st.language))
  {
    var words := Words(st.inputScript);
    var n := WordsPerSegment(st.language);
    var fragment := StyleFragment(st.selectedStyle);
    WordsAreWords(st.inputScript);
    NarrationCoversScript(words, n, fragment);
    SceneWords(words, n, fragment, k);
  }

  /** The voice file of a storyboard cut from a non-empty list of words
      reads back, line by line, as exactly the narrations in scene order. */
  lemma VoiceExportOfScenes(words: seq<string>, n: nat, fragment: string)
    requires n > 0 && |words| > 0 && AllWords(words)
    ensures var scenes := Scenes(words, n, fragment);
      && ExportContent(scenes, Voice).Some?
      && SplitCrlf(ExportContent(scenes, Voice).value) == VoiceTexts(scenes)
  {
    var scenes := Scenes(words, n, fragment);
    NoScenesIff(words, n, fragment);
    forall k | 0 <= k < |scenes|
      ensures NoCarriageReturn(Field(scenes[k], Voice))
      ensures Trim(Field(scenes[k], Voice)) == scenes[k].voiceText
    {
      SceneWords(words, n, fragment, k);
      TrimOfTrimmed(scenes[k].voiceText);
    }
    ExportRoundTrip(scenes, Voice);
  }

  /** The voice file of a processed storyboard reads back, line by line, as
      exactly the narrations in scene order. */
  lemma ProcessedVoiceExport(st: Session)
    requires !AllWhitespace(st.inputScript)
    ensures var scenes := Process(st).scenes;
      && ExportContent(scenes, Voice).Some?
      && SplitCrlf(ExportContent(scenes, Voice).value) == VoiceTexts(scenes)
  {
    WordsEmptyIff(st.inputScript);
    WordsAreWords(st.inputScript);
    VoiceExportOfScenes(Words(st.inputScript), WordsPerSegment(st.language), StyleFragment(st.selectedStyle));
  }

  /** The prompt file of a storyboard cut from a non-empty list of words,
      around a fragment that is a clean line, reads back, line by line, as
      exactly the prompts in scene order. */
  lemma PromptExportOfScenes(words: seq<string>, n: nat, fragment: string)
    requires n > 0 && |words| > 0 && AllWords(words)
    requires IsCleanLine(fragment)
    ensures var scenes := Scenes(words, n, fragment);
      && ExportContent(scenes, PromptText).Some?
      && SplitCrlf(ExportContent(scenes, PromptText).value) == VideoPrompts(scenes)
  {
    var scenes := Scenes(words, n, fragment);
    NoScenesIff(words, n, fragment);
    forall k | 0 <= k < |scenes|
      ensures NoCarriageReturn(Field(scenes[k], PromptText))
      ensures Trim(Field(scenes[k], PromptText)) == scenes[k].videoPrompt
    {
      SceneWords(words, n, fragment, k);
      SceneOfWindow(words, n, fragment, k);
      FrameClean(fragment, scenes[k].voiceText);
      TrimOfTrimmed(scenes[k].videoPrompt);
    }
    ExportRoundTrip(scenes, PromptText);
  }

  /** The prompt file of a processed storyboard reads back, line by line,
      as exactly the prompts in scene order, whatever the selected style. */
  lemma ProcessedPromptExport(st: Session)
    requires !AllWhitespace(st.inputScript)
    ensures var scenes := Process(st).scenes;
      && ExportContent(scenes, PromptText).Some?
      && SplitCrlf(ExportContent(scenes, PromptText).value) == VideoPrompts(scenes)
  {
    WordsEmptyIff(st.inputScript);
    WordsAreWords(st.inputScript);
    StyleFragmentClean(st.selectedStyle);
    PromptExportOfScenes(Words(st.inputScript), WordsPerSegment(st.language), StyleFragment(st.selectedStyle));
  }

  /** The initial style `vector_motion` has an entry in the style table but
      is not a member of the style union, so no selector option can bring it
      back once another style is picked. */
  lemma InitialStyleEntry(v: VideoStyle)
    ensures StyleEntry(InitialSession.selectedStyle).Some?
    ensures v.Value() != InitialSession.selectedStyle
  {
    assert |InitialSession.selectedStyle| == 13;
    match v
    case MotionGraphics => assert |v.Value()| == 15;
    case Cinematic => assert |v.Value()| == 9;
    case Anime => assert |v.Value()| == 5;
    case ThreeD => assert |v.Value()| == 2;
    case Cyberpunk => assert |v.Value()| == 9;
    case Vintage => assert |v.Value()| == 7;
    case Documentary => assert |v.Value()| == 11;
    case Handdrawn => assert |v.Value()| == 9;
  }

  /** Before any processing there is nothing to export. */
  lemma NothingToExportInitially(kind: ExportKind)
    ensures ExportContent(InitialSession.scenes, kind) == None
  {
  }

  // ---------------------------------------------------------------------
  // Editing a prompt

  /** The textarea's change handler for the scene with id `id`: the scene at
      position `id - 1` gets `value` as its prompt. A position outside the
      storyboard gives None, where the source would fail on a missing
      element. */
  function EditPrompt(scenes: seq<Scene>, id: int, value: string): (r: Option<seq<Scene>>)
    ensures r.Some? <==> 1 <= id <= |scenes|
    ensures r.Some? ==>
      && |r.value| == |scenes|
      && r.value[id - 1].videoPrompt == value
      && r.value[id - 1].id == scenes[id - 1].id
      && r.value[id - 1].timeRange == scenes[id - 1].timeRange
      && r.value[id - 1].voiceText == scenes[id - 1].voiceText
      && forall k :: 0 <= k < |scenes| && k != id - 1 ==> r.value[k] == scenes[k]
  {
    if 1 <= id <= |scenes| then
      Some(scenes[id - 1 := scenes[id - 1].(videoPrompt := value)])
    else
      None
  }

  /** On a processed storyboard, the handler of scene `k`, which passes that
      scene's own id, edits scene `k` and no other. */
  lemma EditTargetsItsScene(st: Session, k: nat, value: string)
    requires !AllWhitespace(st.inputScript)
    requires k < |Process(st).scenes|
    ensures var scenes := Process(st).scenes;
      EditPrompt(scenes, scenes[k].id, value) == Some(scenes[k := scenes[k].(videoPrompt := value)])
  {
    ProcessedId(st, k);
  }

  /** An edit leaves the voice file as it was. */
  lemma EditKeepsVoiceExport(scenes: seq<Scene>, id: int, value: string)
    requires EditPrompt(scenes, id, value).Some?
    ensures ExportContent(EditPrompt(scenes, id, value).value, Voice) == ExportContent(scenes, Voice)
  {
    ExportOfSameField(EditPrompt(scenes, id, value).value, scenes, Voice);
  }

  /** Two edits of the same scene leave the later value. */
  lemma EditLastWins(scenes: seq<Scene>, id: int, a: string, b: string)
    requires EditPrompt(scenes, id, a).Some?
    ensures EditPrompt(EditPrompt(scenes, id, a).value, id, b) == EditPrompt(scenes, id, b)
  {
    var once := EditPrompt(scenes, id, b).value;
    var twice := EditPrompt(EditPrompt(scenes, id, a).value, id, b).value;
    assert twice == once;
  }

  /** Writing back a scene's own prompt changes nothing. */
  lemma EditSameValue(scenes: seq<Scene>, id: int)
    requires 1 <= id <= |scenes|
    ensures EditPrompt(scenes, id, scenes[id - 1].videoPrompt) == Some(scenes)
  {
    var edited := EditPrompt(scenes, id, scenes[id - 1].videoPrompt).value;
    assert edited == scenes;
  }
}
