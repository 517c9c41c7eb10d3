/** The template-based visual prompt: a per-style fragment, the segment's
    narration, and a fixed quality suffix. */
module Prompt {
  import opened Maybe
  import opened Text
  import opened Types

  /** A comma-separated keyword list: the form of every style fragment and
      of the quality suffix. */
  function KeywordList(keywords: seq<string>): string
  {
    Join(keywords, ", ")
  }

  /** The quality keywords appended to every prompt: the same string as the
      source's `baseKeywords`, written out piece by piece rather than
      through `KeywordList`. A `KeywordList` of literals is unfolded by the
      verifier wherever a prompt is mentioned, which makes every proof about
      scenes expensive; a plain concatenation is not. */
  const BaseKeywords := "high quality" + ", " + "smooth animation" + ", " + "masterwork" + ", " + "24fps" + ", " + "clean composition"

  /** The text between the style fragment and the narration. */
  const DescriptionMarker := ". Visual description: "

  /** The text between the narration and the quality keywords. */
  const KeywordSeparator := ". "

  /** What a JavaScript template literal interpolates for a missing key. */
  const Undefined := "undefined"

  /** The keyword lists of the style table's fragments, one per key. */
  const VectorMotionKeywords := ["2D vector motion graphics", "flat design aesthetic", "clean solid shapes", "Adobe Illustrator style", "minimalist vector art", "bold colors", "crisp outlines", "smooth geometric transitions"]
  const MotionGraphicsKeywords := ["motion graphics style", "clean shapes", "vibrant colors", "flat design", "smooth animation", "kinetic typography elements"]
  const CinematicKeywords := ["cinematic movie style", "shallow depth of field", "anamorphic lens flares", "dramatic atmosphere", "8k resolution", "cinematic lighting"]
  const ThreeDAnimationKeywords := ["unreal engine 5 render", "pixar style 3d", "stylized characters", "soft shadows", "raytraced reflections"]
  const RealisticKeywords := ["photorealistic", "shot on 35mm lens", "national geographic style", "natural textures", "hyper-detailed"]
  const AnimeKeywords := ["modern anime style", "makoto shinkai aesthetic", "vibrant sky", "hand-drawn lines", "cel shaded"]
  const CyberpunkKeywords := ["cyberpunk aesthetic", "neon lights", "rainy night", "futuristic city", "glow and bloom", "synthwave palette"]

  /** The style table, looked up by key: `Some` fragment for its seven
      keys and `None` for any other string. It is typed as total over the
      style union, but it has keys that are not members of the union and
      lacks four members, so it is partial here. */
  function StyleEntry(key: string): Option<string>
  {
    if key == "vector_motion" then Some(KeywordList(VectorMotionKeywords))
    else if key == "motion_graphics" then Some(KeywordList(MotionGraphicsKeywords))
    else if key == "cinematic" then Some(KeywordList(CinematicKeywords))
    else if key == "3d_animation" then Some(KeywordList(ThreeDAnimationKeywords))
    else if key == "realistic" then Some(KeywordList(RealisticKeywords))
    else if key == "anime" then Some(KeywordList(AnimeKeywords))
    else if key == "cyberpunk" then Some(KeywordList(CyberpunkKeywords))
    else None
  }

  /** The text `${stylesMap[style]}` interpolates: the table entry, or the
      word "undefined" when the table has no entry. There is no other
      fallback. */
  function StyleFragment(style: string): string
  {
    match StyleEntry(style)
    case Some(fragment) => fragment
    case None => Undefined
  }

  /** The template literal: the fragment, the description marker, the
      narration, and the quality keywords. */
  function Frame(fragment: string, text: string): string
  {
    fragment + DescriptionMarker + text + KeywordSeparator + BaseKeywords
  }

  /** Reads the narration back out of a prompt framed around `fragment`:
      the text between the fragment with the description marker and the
      keyword suffix, or None when `p` does not have that frame. */
  function Unframe(p: string, fragment: string): Option<string>
  {
    var head := fragment + DescriptionMarker;
    var tail := KeywordSeparator + BaseKeywords;
    if |p| >= |head| + |tail| && p[..|head|] == head && p[|p| - |tail|..] == tail then
      Some(p[|head|..|p| - |tail|])
    else
      None
  }

  /** A framed prompt begins with its fragment and ends with the quality
      keywords, and the narration can be read back out of it unchanged. */
  lemma FrameShape(fragment: string, text: string)
    ensures var p := Frame(fragment, text);
      && |p| == |fragment| + |DescriptionMarker| + |text| + |KeywordSeparator| + |BaseKeywords|
      && p[..|fragment|] == fragment
      && p[|p| - |BaseKeywords|..] == BaseKeywords
      && Unframe(p, fragment) == Some(text)
  {
    var head := fragment + DescriptionMarker;
    var tail := KeywordSeparator + BaseKeywords;
    var p := Frame(fragment, text);
    assert p == head + text + tail;
    assert p[..|head|] == head;
    assert p[|p| - |tail|..] == tail;
    assert p[|head|..|p| - |tail|] == text;
    assert p[..|fragment|] == fragment;
  }

  /** `getPromptTemplate`: the style's fragment framed around the
      narration. */
  function PromptTemplate(text: string, style: string): string
  {
    Frame(StyleFragment(style), text)
  }

  /** The narration of a prompt built for `style`. */
  function Description(p: string, style: string): Option<string>
  {
    Unframe(p, StyleFragment(style))
  }

  /** A prompt begins with the style's fragment and ends with the quality
      keywords, and the narration can be read back out of it unchanged. */
  lemma PromptShape(text: string, style: string)
    ensures var p := PromptTemplate(text, style);
      && p[..|StyleFragment(style)|] == StyleFragment(style)
      && p[|p| - |BaseKeywords|..] == BaseKeywords
      && Description(p, style) == Some(text)
  {
    FrameShape(StyleFragment(style), text);
  }

  /** Different narrations framed around one fragment, and so under one
      style, never share a prompt. */
  lemma FrameInjective(fragment: string, a: string, b: string)
    requires Frame(fragment, a) == Frame(fragment, b)
    ensures a == b
  {
    FrameShape(fragment, a);
    FrameShape(fragment, b);
  }

  /** The table has an entry for exactly four of the eight style members. */
  lemma StyleTableDomain(v: VideoStyle)
    ensures StyleEntry(v.Value()).Some? <==> v in {MotionGraphics, Cinematic, Anime, Cyberpunk}
  {
    if v in {MotionGraphics, Cinematic, Anime, Cyberpunk} {
      StyleTableHas(v);
    } else {
      StyleTableLacks(v);
    }
  }

  lemma StyleTableHas(v: VideoStyle)
    requires v in {MotionGraphics, Cinematic, Anime, Cyberpunk}
    ensures StyleEntry(v.Value()).Some?
  {
    match v
    case MotionGraphics => assert StyleEntry("motion_graphics").Some?;
    case Cinematic => assert StyleEntry("cinematic").Some?;
    case Anime => assert StyleEntry("anime").Some?;
    case Cyberpunk => assert StyleEntry("cyberpunk").Some?;
  }

  lemma StyleTableLacks(v: VideoStyle)
    requires v in {ThreeD, Vintage, Documentary, Handdrawn}
    ensures StyleEntry(v.Value()) == None
  {
    match v
    case ThreeD => assert StyleEntry("3d") == None;
    case Vintage => assert StyleEntry("vintage") == None;
    case Documentary => assert StyleEntry("documentary") == None;
    case Handdrawn => assert StyleEntry("handdrawn") == None;
  }

  /** For the four members the table lacks, the prompt opens with the
      literal word "undefined" where the style fragment belongs. */
  lemma MissingStyleFragment(text: string, v: VideoStyle)
    requires v in {ThreeD, Vintage, Documentary, Handdrawn}
    ensures PromptTemplate(text, v.Value()) == Frame(Undefined, text)
  {
    StyleTableLacks(v);
  }

  /** The selector's first option, `motion_graphics`, has an entry. */
  lemma FirstOptionHasEntry()
    ensures StyleOptions[0].value == MotionGraphics
    ensures StyleEntry(StyleOptions[0].value.Value()).Some?
  {
    StyleTableHas(MotionGraphics);
  }

  // ---------------------------------------------------------------------
  // Prompts as export lines

  /** A text that stands as one line of an export unchanged: non-empty, no
      whitespace at either end, and no carriage return. */
  predicate IsCleanLine(s: string)
  {
    s != [] && IsTrimmed(s) && NoCarriageReturn(s)
  }

  /** A keyword list that opens and closes on a non-whitespace character
      and whose keywords hold no carriage return. */
  predicate IsCleanKeywords(xs: seq<string>)
  {
    && |xs| > 0 && xs[0] != [] && xs[|xs| - 1] != []
    && !IsWhitespace(xs[0][0])
    && !IsWhitespace(xs[|xs| - 1][|xs[|xs| - 1]| - 1])
    && forall k :: 0 <= k < |xs| ==> NoCarriageReturn(xs[k])
  }

  /** Such a keyword list, joined, is a clean line. */
  lemma KeywordListClean(xs: seq<string>)
    requires IsCleanKeywords(xs)
    ensures IsCleanLine(KeywordList(xs))
  {
    var s := KeywordList(xs);
    var last := xs[|xs| - 1];
    JoinEnds(xs, ", ");
    JoinNoCarriageReturn(xs, ", ");
    assert s[0] == s[..|xs[0]|][0] == xs[0][0];
    assert s[|s| - 1] == s[|s| - |last|..][|last| - 1] == last[|last| - 1];
  }

  // The keyword lists of the table, each checked for carriage returns one
  // keyword at a time. The verifier checks a short literal cheaply but a
  // long one, or a whole list in one step, only at great cost. So each list
  // gets its own lemma, with one case per keyword.

  lemma VectorMotionKeywordsClean()
    ensures IsCleanKeywords(VectorMotionKeywords)
  {
    forall k | 0 <= k < |VectorMotionKeywords|
      ensures NoCarriageReturn(VectorMotionKeywords[k])
    {
      if k == 0 { assert NoCarriageReturn(VectorMotionKeywords[0]); }
      else if k == 1 { assert NoCarriageReturn(VectorMotionKeywords[1]); }
      else if k == 2 { assert NoCarriageReturn(VectorMotionKeywords[2]); }
      else if k == 3 { assert NoCarriageReturn(VectorMotionKeywords[3]); }
      else if k == 4 { assert NoCarriageReturn(VectorMotionKeywords[4]); }
      else if k == 5 { assert NoCarriageReturn(VectorMotionKeywords[5]); }
      else if k == 6 { assert NoCarriageReturn(VectorMotionKeywords[6]); }
      else { assert NoCarriageReturn(VectorMotionKeywords[7]); }
    }
  }

  lemma MotionGraphicsKeywordsClean()
    ensures IsCleanKeywords(MotionGraphicsKeywords)
  {
    forall k | 0 <= k < |MotionGraphicsKeywords|
      ensures NoCarriageReturn(MotionGraphicsKeywords[k])
    {
      if k == 0 { assert NoCarriageReturn(MotionGraphicsKeywords[0]); }
      else if k == 1 { assert NoCarriageReturn(MotionGraphicsKeywords[1]); }
      else if k == 2 { assert NoCarriageReturn(MotionGraphicsKeywords[2]); }
      else if k == 3 { assert NoCarriageReturn(MotionGraphicsKeywords[3]); }
      else if k == 4 { assert NoCarriageReturn(MotionGraphicsKeywords[4]); }
      else { assert NoCarriageReturn(MotionGraphicsKeywords[5]); }
    }
  }

  lemma CinematicKeywordsClean()
    ensures IsCleanKeywords(CinematicKeywords)
  {
    forall k | 0 <= k < |CinematicKeywords|
      ensures NoCarriageReturn(CinematicKeywords[k])
    {
      if k == 0 { assert NoCarriageReturn(CinematicKeywords[0]); }
      else if k == 1 { assert NoCarriageReturn(CinematicKeywords[1]); }
      else if k == 2 { assert NoCarriageReturn(CinematicKeywords[2]); }
      else if k == 3 { assert NoCarriageReturn(CinematicKeywords[3]); }
      else if k == 4 { assert NoCarriageReturn(CinematicKeywords[4]); }
      else { assert NoCarriageReturn(CinematicKeywords[5]); }
    }
  }

  lemma ThreeDAnimationKeywordsClean()
    ensures IsCleanKeywords(ThreeDAnimationKeywords)
  {
    forall k | 0 <= k < |ThreeDAnimationKeywords|
      ensures NoCarriageReturn(ThreeDAnimationKeywords[k])
    {
      if k == 0 { assert NoCarriageReturn(ThreeDAnimationKeywords[0]); }
      else if k == 1 { assert NoCarriageReturn(ThreeDAnimationKeywords[1]); }
      else if k == 2 { assert NoCarriageReturn(ThreeDAnimationKeywords[2]); }
      else if k == 3 { assert NoCarriageReturn(ThreeDAnimationKeywords[3]); }
      else { assert NoCarriageReturn(ThreeDAnimationKeywords[4]); }
    }
  }

  lemma RealisticKeywordsClean()
    ensures IsCleanKeywords(RealisticKeywords)
  {
    forall k | 0 <= k < |RealisticKeywords|
      ensures NoCarriageReturn(RealisticKeywords[k])
    {
      if k == 0 { assert NoCarriageReturn(RealisticKeywords[0]); }
      else if k == 1 { assert NoCarriageReturn(RealisticKeywords[1]); }
      else if k == 2 { assert NoCarriageReturn(RealisticKeywords[2]); }
      else if k == 3 { assert NoCarriageReturn(RealisticKeywords[3]); }
      else { assert NoCarriageReturn(RealisticKeywords[4]); }
    }
  }

  lemma AnimeKeywordsClean()
    ensures IsCleanKeywords(AnimeKeywords)
  {
    forall k | 0 <= k < |AnimeKeywords|
      ensures NoCarriageReturn(AnimeKeywords[k])
    {
      if k == 0 { assert NoCarriageReturn(AnimeKeywords[0]); }
      else if k == 1 { assert NoCarriageReturn(AnimeKeywords[1]); }
      else if k == 2 { assert NoCarriageReturn(AnimeKeywords[2]); }
      else if k == 3 { assert NoCarriageReturn(AnimeKeywords[3]); }
      else { assert NoCarriageReturn(AnimeKeywords[4]); }
    }
  }

  lemma CyberpunkKeywordsClean()
    ensures IsCleanKeywords(CyberpunkKeywords)
  {
    forall k | 0 <= k < |CyberpunkKeywords|
      ensures NoCarriageReturn(CyberpunkKeywords[k])
    {
      if k == 0 { assert NoCarriageReturn(CyberpunkKeywords[0]); }
      else if k == 1 { assert NoCarriageReturn(CyberpunkKeywords[1]); }
      else if k == 2 { assert NoCarriageReturn(CyberpunkKeywords[2]); }
      else if k == 3 { assert NoCarriageReturn(CyberpunkKeywords[3]); }
      else if k == 4 { assert NoCarriageReturn(CyberpunkKeywords[4]); }
      else { assert NoCarriageReturn(CyberpunkKeywords[5]); }
    }
  }

  lemma BaseKeywordsClean()
    ensures IsCleanLine(BaseKeywords)
  {
    var comma := ", ";
    assert NoCarriageReturn(comma);
    AppendNoCarriageReturn("high quality", comma);
    AppendNoCarriageReturn("high quality" + comma, "smooth animation");
    AppendNoCarriageReturn("high quality" + comma + "smooth animation", comma);
    AppendNoCarriageReturn("high quality" + comma + "smooth animation" + comma, "masterwork");
    AppendNoCarriageReturn("high quality" + comma + "smooth animation" + comma + "masterwork", comma);
    AppendNoCarriageReturn("high quality" + comma + "smooth animation" + comma + "masterwork" + comma, "24fps");
    AppendNoCarriageReturn("high quality" + comma + "smooth animation" + comma + "masterwork" + comma + "24fps", comma);
    AppendNoCarriageReturn("high quality" + comma + "smooth animation" + comma + "masterwork" + comma + "24fps" + comma, "clean composition");
  }

  /** Every fragment the template can interpolate, the word "undefined"
      included, is a clean line. */
  lemma StyleFragmentClean(style: string)
    ensures IsCleanLine(StyleFragment(style))
  {
    if style == "vector_motion" {
      VectorMotionKeywordsClean();
      KeywordListClean(VectorMotionKeywords);
    } else if style == "motion_graphics" {
      MotionGraphicsKeywordsClean();
      KeywordListClean(MotionGraphicsKeywords);
    } else if style == "cinematic" {
      CinematicKeywordsClean();
      KeywordListClean(CinematicKeywords);
    } else if style == "3d_animation" {
      ThreeDAnimationKeywordsClean();
      KeywordListClean(ThreeDAnimationKeywords);
    } else if style == "realistic" {
      RealisticKeywordsClean();
      KeywordListClean(RealisticKeywords);
    } else if style == "anime" {
      AnimeKeywordsClean();
      KeywordListClean(AnimeKeywords);
    } else if style == "cyberpunk" {
      CyberpunkKeywordsClean();
      KeywordListClean(CyberpunkKeywords);
    } else {
      assert StyleFragment(style) == Undefined;
      assert NoCarriageReturn(Undefined);
    }
  }

  /** A prompt framed around a clean fragment and a narration with no
      carriage return is itself a clean line, so exporting it does not
      change it. */
  lemma FrameClean(fragment: string, text: string)
    requires IsCleanLine(fragment) && NoCarriageReturn(text)
    ensures IsCleanLine(Frame(fragment, text))
  {
    var p := Frame(fragment, text);
    BaseKeywordsClean();
    FrameNoCarriageReturn(fragment, text);
    FrameShape(fragment, text);
    var b := |BaseKeywords|;
    assert p[0] == p[..|fragment|][0];
    assert p[|p| - 1] == p[|p| - b..][b - 1];
  }

  lemma FrameNoCarriageReturn(fragment: string, text: string)
    requires NoCarriageReturn(fragment) && NoCarriageReturn(text) && NoCarriageReturn(BaseKeywords)
    ensures NoCarriageReturn(Frame(fragment, text))
  {
    MarkersNoCarriageReturn();
    AppendFiveNoCarriageReturn(fragment, DescriptionMarker, text, KeywordSeparator, BaseKeywords);
  }

  lemma MarkersNoCarriageReturn()
    ensures NoCarriageReturn(DescriptionMarker) && NoCarriageReturn(KeywordSeparator)
  {
  }

  lemma AppendFiveNoCarriageReturn(a: string, b: string, c: string, d: string, e: string)
    requires NoCarriageReturn(a) && NoCarriageReturn(b) && NoCarriageReturn(c)
    requires NoCarriageReturn(d) && NoCarriageReturn(e)
    ensures NoCarriageReturn(a + b + c + d + e)
  {
    AppendNoCarriageReturn(a, b);
    AppendNoCarriageReturn(a + b, c);
    AppendNoCarriageReturn(a + b + c, d);
    AppendNoCarriageReturn(a + b + c + d, e);
  }
}
