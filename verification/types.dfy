/** The storyboard's records: a scene, the visual styles a user can pick,
    and the option table the style selector is built from. */
module Types {

  /** One storyboard row: its 1-based position, its 8-second window as
      `MM:SS - MM:SS`, the narration it covers and the visual prompt for
      it. `id` is a JavaScript number; the model keeps it an integer. */
  datatype Scene = Scene(id: int, timeRange: string, voiceText: string, videoPrompt: string)

  /** The narrations of a storyboard, in scene order. */
  function VoiceTexts(scenes: seq<Scene>): seq<string>
  {
    seq(|scenes|, k requires 0 <= k < |scenes| => scenes[k].voiceText)
  }

  /** The visual prompts of a storyboard, in scene order. */
  function VideoPrompts(scenes: seq<Scene>): seq<string>
  {
    seq(|scenes|, k requires 0 <= k < |scenes| => scenes[k].videoPrompt)
  }

  /** The members of the `VideoStyle` string-literal union, in declaration
      order. */
  datatype VideoStyle =
    | MotionGraphics
    | Cinematic
    | Anime
    | ThreeD
    | Cyberpunk
    | Vintage
    | Documentary
    | Handdrawn
  {
    /** The string literal the union member stands for. */
    function Value(): string
    {
      match this
      case MotionGraphics => "motion_graphics"
      case Cinematic => "cinematic"
      case Anime => "anime"
      case ThreeD => "3d"
      case Cyberpunk => "cyberpunk"
      case Vintage => "vintage"
      case Documentary => "documentary"
      case Handdrawn => "handdrawn"
    }
  }

  /** Every `VideoStyle` member, in declaration order. */
  const AllStyles: seq<VideoStyle> :=
    [MotionGraphics, Cinematic, Anime, ThreeD, Cyberpunk, Vintage, Documentary, Handdrawn]

  /** An option of the selector. `labelText` is the source's `label` field
      (`label` is a Dafny keyword). */
  datatype StyleOption = StyleOption(value: VideoStyle, labelText: string, description: string)

  /** The selector's option table. */
  const StyleOptions: seq<StyleOption> := [
    StyleOption(MotionGraphics, "2D Vector Motion Graphics", "Đồ họa chuyển động vector phẳng, tối giản, màu sắc hiện đại và mượt mà"),
    StyleOption(Cinematic, "Điện ảnh Siêu thực", "Chất lượng 8k, IMAX, ánh sáng kịch tính, độ sâu trường ảnh tốt"),
    StyleOption(Anime, "Anime Studio Ghibli", "Màu sắc rực rỡ, nét vẽ tay nghệ thuật, cảm giác hoài cổ"),
    StyleOption(ThreeD, "Hoạt hình 3D Pixar/Disney", "Biểu cảm cao, đổ bóng mượt mà, phong cách dễ thương"),
    StyleOption(Cyberpunk, "Cyberpunk Neon", "Tương lai, độ tương phản cao, ánh sáng neon, đường phố mưa đêm"),
    StyleOption(Vintage, "Phim Cổ điển", "Có hạt nhiễu film, đen trắng, phong cách những năm 1950"),
    StyleOption(Documentary, "Phim Tài liệu (National Geographic)", "Siêu thực tế, quay cận cảnh thiên nhiên, độ nét cao"),
    StyleOption(Handdrawn, "Bản vẽ phác thảo tay", "Nghệ thuật, các nét vẽ thô, phong cách storyboard")
  ]

  /** Distinct union members are distinct strings. */
  lemma StyleValueInjective(a: VideoStyle, b: VideoStyle)
    requires a.Value() == b.Value()
    ensures a == b
  {
  }

  /** The option table lists every `VideoStyle` member exactly once, in
      declaration order, so its values are pairwise distinct. */
  lemma StyleOptionsCoverStyles()
    ensures |StyleOptions| == |AllStyles| == 8
    ensures forall i :: 0 <= i < |StyleOptions| ==> StyleOptions[i].value == AllStyles[i]
    ensures forall v: VideoStyle :: v in AllStyles
    ensures forall i, j :: 0 <= i < j < |StyleOptions| ==>
              StyleOptions[i].value.Value() != StyleOptions[j].value.Value()
  {
    forall v: VideoStyle
      ensures v in AllStyles
    {
      match v
      case MotionGraphics => assert AllStyles[0] == v;
      case Cinematic => assert AllStyles[1] == v;
      case Anime => assert AllStyles[2] == v;
      case ThreeD => assert AllStyles[3] == v;
      case Cyberpunk => assert AllStyles[4] == v;
      case Vintage => assert AllStyles[5] == v;
      case Documentary => assert AllStyles[6] == v;
      case Handdrawn => assert AllStyles[7] == v;
    }
  }
}
