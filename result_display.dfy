/** The result view (components/ResultDisplay.tsx): the level switcher and its labels, the
    image/animation tabs with their one piece of state, the panel that fills the media
    area, the prompt caption, and the name of the downloaded PDF. */
module ResultDisplay {
  import opened Wrappers
  import opened JsString
  import opened Types

  // ---------------------------------------------------------------------------------
  // Level labels and the switcher

  /** `LEVEL_LABELS`: the short name of each level. */
  function LevelLabel(l: EducationLevel): string
  {
    match l
    case Preschool => "Preschool"
    case Elementary => "Elementary"
    case Middle => "Middle School"
    case High => "High School"
    case Undergrad => "Undergrad"
    case Masters => "Master's/PhD"
  }

  /** Every level has a label, and no two levels share one. */
  lemma LevelLabelsDistinct()
    ensures forall l: EducationLevel :: LevelLabel(l) != ""
    ensures forall l: EducationLevel, m: EducationLevel :: LevelLabel(l) == LevelLabel(m) ==> l == m
  {
    forall l: EducationLevel, m: EducationLevel | LevelLabel(l) == LevelLabel(m) ensures l == m {
      assert |LevelLabel(l)| == |LevelLabel(m)| && LevelLabel(l)[0] == LevelLabel(m)[0];
    }
  }

  /** One button of the switcher: the level it stands for, its label, and whether it is
      highlighted. Clicking it calls `onLevelChange` with its level, the current one
      included. */
  datatype LevelButton = LevelButton(level: EducationLevel, title: string, selected: bool)

  /** The switcher: one button per level in declaration order, exactly the current level
      highlighted. */
  function Switcher(current: EducationLevel): (bs: seq<LevelButton>)
    ensures |bs| == |AllLevels|
    ensures forall k :: 0 <= k < |bs| ==>
      bs[k].level == AllLevels[k] && bs[k].title == LevelLabel(AllLevels[k]) && (bs[k].selected <==> AllLevels[k] == current)
    ensures bs[LevelIndex(current)].selected
  {
    seq(|AllLevels|, k requires 0 <= k < |AllLevels| =>
      LevelButton(AllLevels[k], LevelLabel(AllLevels[k]), AllLevels[k] == current))
  }

  /** Exactly one button of the switcher is highlighted. */
  lemma OneLevelSelected(current: EducationLevel, k: nat)
    requires k < |AllLevels| && Switcher(current)[k].selected
    ensures k == LevelIndex(current)
  {
    LevelsEnumerated();
  }

  // ---------------------------------------------------------------------------------
  // The media tabs

  /** The tabs' state (`activeMedia`) together with the `videoUrl` the effect last saw, so
      that the effect runs only when that dependency changes. */
  class MediaTabs {
    var activeMedia: MediaType
    var seenVideoUrl: Option<string>

    /** On mount the state starts at the image tab and the effect runs once. */
    constructor(videoUrl: Option<string>)
      ensures activeMedia == (if Truthy(videoUrl) then Video else Image)
      ensures seenVideoUrl == videoUrl
    {
      activeMedia := Image;
      seenVideoUrl := videoUrl;
      if videoUrl.Some? && videoUrl.value != "" {
        activeMedia := Video;
      }
    }

    /** The Image tab. */
    method ClickImage()
      modifies this
      ensures activeMedia == Image && seenVideoUrl == old(seenVideoUrl)
    {
      activeMedia := Image;
    }

    /** The Animation tab: it always selects the video tab, and asks for a video only when
        there is none and none is being generated. */
    method ClickAnimation(videoUrl: Option<string>, isGeneratingVideo: bool) returns (requestVideo: bool)
      modifies this
      ensures activeMedia == Video && seenVideoUrl == old(seenVideoUrl)
      ensures requestVideo <==> !Truthy(videoUrl) && !isGeneratingVideo
    {
      activeMedia := Video;
      requestVideo := !(videoUrl.Some? && videoUrl.value != "") && !isGeneratingVideo;
    }

    /** A re-render with `videoUrl`: when it differs from the one last seen, the effect
        runs and a non-empty URL switches to the video tab. */
    method Render(videoUrl: Option<string>)
      modifies this
      ensures seenVideoUrl == videoUrl
      ensures videoUrl != old(seenVideoUrl) && Truthy(videoUrl) ==> activeMedia == Video
      ensures videoUrl == old(seenVideoUrl) || !Truthy(videoUrl) ==> activeMedia == old(activeMedia)
    {
      if videoUrl != seenVideoUrl {
        if videoUrl.Some? && videoUrl.value != "" {
          activeMedia := Video;
        }
        seenVideoUrl := videoUrl;
      }
    }
  }

  // ---------------------------------------------------------------------------------
  // The media panel

  /** The five things the media area can show, each with the condition the view tests. */
  datatype PanelView = PanelView(loading: bool, image: bool, video: bool, generateButton: bool, fallback: bool)

  /** The media area: the loading state for the active tab's generation, otherwise the
      image, the video, the "Generate Animation" button and the failure fallback under
      their own conditions. */
  function Panel(active: MediaType, imageUrl: Option<string>, videoUrl: Option<string>,
                 isGeneratingImage: bool, isGeneratingVideo: bool): (v: PanelView)
    ensures v.loading <==> (active == Image && isGeneratingImage) || (active == Video && isGeneratingVideo)
    ensures v.image <==> active == Image && Truthy(imageUrl) && !isGeneratingImage
    ensures v.video <==> active == Video && Truthy(videoUrl) && !isGeneratingVideo
    ensures v.generateButton <==> active == Video && !Truthy(videoUrl) && !isGeneratingVideo
    ensures v.fallback <==> active == Image && !Truthy(imageUrl) && !isGeneratingImage
  {
    var loading := (active == Image && isGeneratingImage) || (active == Video && isGeneratingVideo);
    PanelView(
      loading,
      !loading && active == Image && Truthy(imageUrl),
      !loading && active == Video && Truthy(videoUrl),
      !loading && active == Video && !Truthy(videoUrl),
      !loading && active == Image && !Truthy(imageUrl) && !isGeneratingImage)
  }

  /** Exactly one of the five is shown, so in particular the "Generate Animation" button
      never appears while a video is being generated. */
  lemma PanelShowsExactlyOne(active: MediaType, imageUrl: Option<string>, videoUrl: Option<string>,
                             isGeneratingImage: bool, isGeneratingVideo: bool)
    ensures var v := Panel(active, imageUrl, videoUrl, isGeneratingImage, isGeneratingVideo);
            (if v.loading then 1 else 0) + (if v.image then 1 else 0) + (if v.video then 1 else 0)
            + (if v.generateButton then 1 else 0) + (if v.fallback then 1 else 0) == 1
    ensures isGeneratingVideo ==> !Panel(active, imageUrl, videoUrl, isGeneratingImage, isGeneratingVideo).generateButton
  {
  }

  /** The caption under the media area names the prompt of the active tab. */
  function PromptCaption(active: MediaType, result: AnalysisResult): (string, string)
  {
    if active == Video then ("Animation Prompt", result.animationPrompt)
    else ("Image Prompt", result.imageGenerationPrompt)
  }

  // ---------------------------------------------------------------------------------
  // The PDF file name

  const PdfSuffix: string := "_ConceptLens.pdf"

  /** `s.replace(/\s+/g, '_')` scanned left to right: `inRun` says whether the character
      before s was whitespace. The first whitespace character of a run writes `_`, the
      rest of the run writes nothing, and every other character is copied. */
  function UnderscoredFrom(s: string, inRun: bool): (r: string)
    ensures forall k :: 0 <= k < |r| ==> !IsWhitespace(r[k])
    ensures |r| <= |s|
  {
    if s == [] then []
    else if IsWhitespace(s[0]) then (if inRun then "" else "_") + UnderscoredFrom(s[1..], true)
    else [s[0]] + UnderscoredFrom(s[1..], false)
  }

  function Underscored(s: string): string
  {
    UnderscoredFrom(s, false)
  }

  /** Whether the scan is inside a run after reading x. */
  function RunAfter(x: string, inRun: bool): bool
  {
    if x == [] then inRun else IsWhitespace(x[|x| - 1])
  }

  /** The scan of a concatenation is the scan of each part, the second part started in the
      state the first one left. */
  lemma {:induction false} UnderscoredAppend(x: string, y: string, inRun: bool)
    ensures UnderscoredFrom(x + y, inRun) == UnderscoredFrom(x, inRun) + UnderscoredFrom(y, RunAfter(x, inRun))
    decreases |x|
  {
    if x == [] {
      assert x + y == y;
    } else {
      assert (x + y)[0] == x[0];
      assert (x + y)[1..] == x[1..] + y;
      UnderscoredAppend(x[1..], y, IsWhitespace(x[0]));
      if x[1..] != [] {
        assert x[1..][|x[1..]| - 1] == x[|x| - 1];
      }
    }
  }

  /** A non-empty run of whitespace writes one `_` when it starts a run, nothing when it
      continues one. */
  lemma {:induction false} UnderscoredOfRun(ws: string, inRun: bool)
    requires ws != [] && AllWhitespace(ws)
    ensures UnderscoredFrom(ws, inRun) == if inRun then "" else "_"
    decreases |ws|
  {
    if |ws| > 1 {
      UnderscoredOfRun(ws[1..], true);
    }
  }

  /** A title without whitespace keeps its name. */
  lemma {:induction false} UnderscoredNoWhitespace(s: string, inRun: bool)
    requires forall k :: 0 <= k < |s| ==> !IsWhitespace(s[k])
    ensures UnderscoredFrom(s, inRun) == s
    decreases |s|
  {
    if s != [] {
      UnderscoredNoWhitespace(s[1..], false);
    }
  }

  /** A run of whitespace between two non-whitespace parts becomes exactly one `_`. */
  lemma UnderscoredRun(a: string, ws: string, b: string)
    requires ws != [] && AllWhitespace(ws)
    requires a == [] || !IsWhitespace(a[|a| - 1])
    requires b == [] || !IsWhitespace(b[0])
    ensures Underscored(a + ws + b) == Underscored(a) + "_" + Underscored(b)
  {
    UnderscoredAppend(a + ws, b, false);
    UnderscoredAppend(a, ws, false);
    UnderscoredOfRun(ws, false);
    assert (a + ws)[|a + ws| - 1] == ws[|ws| - 1];
    if b != [] {
      assert UnderscoredFrom(b, true) == UnderscoredFrom(b, false);
    }
  }

  /** The downloaded file: the title with whitespace runs replaced, then the suffix. */
  function PdfFileName(title: string): (name: string)
    ensures |PdfSuffix| <= |name| <= |title| + |PdfSuffix| && name[|name| - |PdfSuffix|..] == PdfSuffix
    ensures forall k :: 0 <= k < |name| ==> !IsWhitespace(name[k])
  {
    Underscored(title) + PdfSuffix
  }
}
