/** `downloadFile`'s content: one line per scene, the trimmed narration or
    the trimmed prompt, separated by CRLF. */
module Export {
  import opened Maybe
  import opened Text
  import opened Types

  /** Which column of the storyboard is exported: the source's `'voice'`
      and `'prompt'`. */
  datatype ExportKind = Voice | PromptText

  /** The line separator of the exported text. */
  const Crlf := "\r\n"

  /** The exported field of one scene. */
  function Field(sc: Scene, kind: ExportKind): string
  {
    match kind
    case Voice => sc.voiceText
    case PromptText => sc.videoPrompt
  }

  /** The lines of the export, one per scene and in scene order. */
  function ExportLines(scenes: seq<Scene>, kind: ExportKind): seq<string>
  {
    seq(|scenes|, k requires 0 <= k < |scenes| => Trim(Field(scenes[k], kind)))
  }

  /** The text of the file, or None when there are no scenes, in which case
      no file is produced. */
  function ExportContent(scenes: seq<Scene>, kind: ExportKind): (r: Option<string>)
    ensures r.None? <==> |scenes| == 0
  {
    if |scenes| == 0 then None else Some(Join(ExportLines(scenes, kind), Crlf))
  }

  /** The export depends on the exported field only: storyboards that agree
      on it, scene by scene, give the same file. */
  lemma ExportOfSameField(a: seq<Scene>, b: seq<Scene>, kind: ExportKind)
    requires |a| == |b|
    requires forall k :: 0 <= k < |a| ==> Field(a[k], kind) == Field(b[k], kind)
    ensures ExportContent(a, kind) == ExportContent(b, kind)
  {
    assert ExportLines(a, kind) == ExportLines(b, kind);
  }

  // ---------------------------------------------------------------------
  // Reading the file back

  /** The reference reading of a CRLF text: the pieces between consecutive
      CRLF pairs. There is always at least one piece. */
  function SplitCrlf(s: string): (r: seq<string>)
    ensures |r| >= 1
    decreases |s|
  {
    if |s| == 0 then [""]
    else if |s| >= 2 && s[0] == '\r' && s[1] == '\n' then [""] + SplitCrlf(s[2..])
    else
      var rest := SplitCrlf(s[1..]);
      [[s[0]] + rest[0]] + rest[1..]
  }

  /** A piece with no carriage return in front of the rest of the text is
      read as the start of the rest's first line. */
  lemma {:induction false} SplitCrlfPrefix(w: string, t: string)
    requires NoCarriageReturn(w)
    ensures SplitCrlf(w + t) == [w + SplitCrlf(t)[0]] + SplitCrlf(t)[1..]
    decreases |w|
  {
    if |w| > 0 {
      assert (w + t)[1..] == w[1..] + t;
      SplitCrlfPrefix(w[1..], t);
      assert [w[0]] + (w[1..] + SplitCrlf(t)[0]) == w + SplitCrlf(t)[0];
    } else {
      assert w + t == t;
      assert w + SplitCrlf(t)[0] == SplitCrlf(t)[0];
      assert [SplitCrlf(t)[0]] + SplitCrlf(t)[1..] == SplitCrlf(t);
    }
  }

  /** Reading back CRLF-joined lines gives the lines again, when none of
      them holds a carriage return. */
  lemma {:induction false} SplitOfJoin(lines: seq<string>)
    requires |lines| > 0
    requires forall k :: 0 <= k < |lines| ==> NoCarriageReturn(lines[k])
    ensures SplitCrlf(Join(lines, Crlf)) == lines
    decreases |lines|
  {
    var w := lines[0];
    if |lines| == 1 {
      SplitCrlfPrefix(w, "");
      assert w + "" == w;
    } else {
      var t := Crlf + Join(lines[1..], Crlf);
      assert Join(lines, Crlf) == w + t;
      SplitCrlfPrefix(w, t);
      assert t[2..] == Join(lines[1..], Crlf);
      SplitOfJoin(lines[1..]);
      assert SplitCrlf(t) == [""] + lines[1..];
      assert w + "" == w;
    }
  }

  /** The exported file has one line per scene, in scene order, each the
      trimmed field, when no field holds a carriage return: `N` scenes give
      `N - 1` separators. */
  lemma ExportRoundTrip(scenes: seq<Scene>, kind: ExportKind)
    requires |scenes| > 0
    requires forall k :: 0 <= k < |scenes| ==> NoCarriageReturn(Field(scenes[k], kind))
    ensures ExportContent(scenes, kind).Some?
    ensures var lines := SplitCrlf(ExportContent(scenes, kind).value);
      && |lines| == |scenes|
      && forall k :: 0 <= k < |scenes| ==> lines[k] == Trim(Field(scenes[k], kind))
  {
    var lines := ExportLines(scenes, kind);
    forall k | 0 <= k < |lines|
      ensures NoCarriageReturn(lines[k])
    {
      TrimNoCarriageReturn(Field(scenes[k], kind));
    }
    SplitOfJoin(lines);
  }

  /** Trimming keeps a slice of the text, so it adds no carriage return. */
  lemma TrimNoCarriageReturn(s: string)
    requires NoCarriageReturn(s)
    ensures NoCarriageReturn(Trim(s))
  {
    var i := SpacePrefixLen(s);
    TrimIsSlice(s);
    SliceNoCarriageReturn(s, i, i + |Trim(s)|);
  }

  lemma SliceNoCarriageReturn(s: string, a: nat, b: nat)
    requires a <= b <= |s| && NoCarriageReturn(s)
    ensures NoCarriageReturn(s[a..b])
  {
    assert forall j :: 0 <= j < b - a ==> s[a..b][j] == s[a + j];
  }
}
