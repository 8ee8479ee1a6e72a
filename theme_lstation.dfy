/**
 * The theme's avatar generator: three draggable layers on a preview
 * canvas, the hint on the generate button, the checks before generating,
 * the GIF frame schedules (the character video's stills, then the fade-in
 * of the static picture), and the download file name.
 */
module ThemeLstation {
  import opened Wrappers
  import opened JsText
  import opened LayerScene
  import opened GifSink
  import opened LstationCommon

  // ---------------------------------------------------------------------
  // The layout preview
  // ---------------------------------------------------------------------

  /** The keys of `layoutElements`, in the order `Object.entries` lists them. */
  datatype AvatarLayer = LogoLayer | TextLayer | NicknameLayer

  const EntryOrder: seq<AvatarLayer> := [LogoLayer, TextLayer, NicknameLayer]

  /** `{ x, y, width, height, dragging }` */
  datatype Box = Box(x: real, y: real, width: real, height: real, dragging: bool)

  /** The size each layer's box keeps. */
  function BoxWidth(l: AvatarLayer): real {
    match l
    case LogoLayer => 120.0
    case TextLayer => 150.0
    case NicknameLayer => 200.0
  }

  function BoxHeight(l: AvatarLayer): real {
    match l
    case LogoLayer => 120.0
    case TextLayer => 30.0
    case NicknameLayer => 40.0
  }

  /** A layout with a box for every layer, each of its own size. */
  predicate Complete(boxes: map<AvatarLayer, Box>) {
    forall l: AvatarLayer :: l in boxes && boxes[l].width == BoxWidth(l) && boxes[l].height == BoxHeight(l)
  }

  /** The layout the preview starts with and the reset button restores. */
  function InitialBoxes(): (m: map<AvatarLayer, Box>)
    ensures Complete(m)
  {
    var m := map[LogoLayer := Box(80.0, 150.0, BoxWidth(LogoLayer), BoxHeight(LogoLayer), false),
                 TextLayer := Box(210.0, 150.0, BoxWidth(TextLayer), BoxHeight(TextLayer), false),
                 NicknameLayer := Box(200.0, 300.0, BoxWidth(NicknameLayer), BoxHeight(NicknameLayer), false)];
    CompleteByLayer(m);
    m
  }

  /** A layout is complete when each of the three layers has a box of its size. */
  lemma CompleteByLayer(m: map<AvatarLayer, Box>)
    requires LogoLayer in m && m[LogoLayer].width == BoxWidth(LogoLayer) && m[LogoLayer].height == BoxHeight(LogoLayer)
    requires TextLayer in m && m[TextLayer].width == BoxWidth(TextLayer) && m[TextLayer].height == BoxHeight(TextLayer)
    requires NicknameLayer in m && m[NicknameLayer].width == BoxWidth(NicknameLayer) &&
             m[NicknameLayer].height == BoxHeight(NicknameLayer)
    ensures Complete(m)
  {
    forall l: AvatarLayer ensures l in m && m[l].width == BoxWidth(l) && m[l].height == BoxHeight(l) {
      match l
      case LogoLayer =>
      case TextLayer =>
      case NicknameLayer =>
    }
  }

  /** Moving a box, or marking it, keeps the layout complete. */
  lemma ReplaceKeepsComplete(boxes: map<AvatarLayer, Box>, l: AvatarLayer, b: Box)
    requires Complete(boxes) && b.width == BoxWidth(l) && b.height == BoxHeight(l)
    ensures Complete(boxes[l := b])
  {
  }

  /**
   * `isPointInElement`: the nickname's box is centred on (x, y), the logo's
   * and the text's hang from their top-left corner; borders count.
   */
  predicate PointIn(layer: AvatarLayer, b: Box, x: real, y: real) {
    if layer == NicknameLayer then
      b.x - b.width / 2.0 <= x <= b.x + b.width / 2.0 && b.y - b.height / 2.0 <= y <= b.y + b.height / 2.0
    else
      b.x <= x <= b.x + b.width && b.y <= y <= b.y + b.height
  }

  /** The nickname's box is the top-left box moved back by half its size. */
  lemma CentredIsShiftedCorner(b: Box, x: real, y: real)
    ensures PointIn(NicknameLayer, b, x, y) <==>
            PointIn(LogoLayer, b.(x := b.x - b.width / 2.0, y := b.y - b.height / 2.0), x, y)
  {
  }

  /** A layer's place in `EntryOrder`. */
  function Rank(l: AvatarLayer): (k: nat)
    ensures k < |EntryOrder| && EntryOrder[k] == l
  {
    match l
    case LogoLayer => 0
    case TextLayer => 1
    case NicknameLayer => 2
  }

  /** The layer a press at (x, y) takes hold of: the first in entry order whose box holds the point. */
  function Grabbed(boxes: map<AvatarLayer, Box>, x: real, y: real): (r: Option<AvatarLayer>)
    requires Complete(boxes)
    ensures r.None? <==> forall l: AvatarLayer :: !PointIn(l, boxes[l], x, y)
    ensures r.Some? ==> PointIn(r.value, boxes[r.value], x, y)
    ensures r.Some? ==> forall l: AvatarLayer :: Rank(l) < Rank(r.value) ==> !PointIn(l, boxes[l], x, y)
  {
    if PointIn(LogoLayer, boxes[LogoLayer], x, y) then Some(LogoLayer)
    else if PointIn(TextLayer, boxes[TextLayer], x, y) then Some(TextLayer)
    else if PointIn(NicknameLayer, boxes[NicknameLayer], x, y) then Some(NicknameLayer)
    else None
  }

  /** A press taken by the layer at position k of the entry order, none before it being hit. */
  lemma GrabbedAt(boxes: map<AvatarLayer, Box>, x: real, y: real, k: nat)
    requires Complete(boxes) && k < |EntryOrder|
    requires PointIn(EntryOrder[k], boxes[EntryOrder[k]], x, y)
    requires forall j :: 0 <= j < k ==> !PointIn(EntryOrder[j], boxes[EntryOrder[j]], x, y)
    ensures Grabbed(boxes, x, y) == Some(EntryOrder[k])
  {
    assert k == 0 || k == 1 || k == 2;
  }

  /** A press that no layer in the entry order takes. */
  lemma GrabbedNone(boxes: map<AvatarLayer, Box>, x: real, y: real)
    requires Complete(boxes)
    requires forall j :: 0 <= j < |EntryOrder| ==> !PointIn(EntryOrder[j], boxes[EntryOrder[j]], x, y)
    ensures Grabbed(boxes, x, y).None?
  {
    assert !PointIn(EntryOrder[0], boxes[EntryOrder[0]], x, y);
    assert !PointIn(EntryOrder[1], boxes[EntryOrder[1]], x, y);
    assert !PointIn(EntryOrder[2], boxes[EntryOrder[2]], x, y);
  }

  /** The loop of `handleMouseDown`: the layers in entry order, up to the first one under the point. */
  method FindGrabbed(boxes: map<AvatarLayer, Box>, x: real, y: real) returns (r: Option<AvatarLayer>)
    requires Complete(boxes)
    ensures r == Grabbed(boxes, x, y)
  {
    for k := 0 to |EntryOrder|
      invariant forall j :: 0 <= j < k ==> !PointIn(EntryOrder[j], boxes[EntryOrder[j]], x, y)
    {
      var key := EntryOrder[k];
      if PointIn(key, boxes[key], x, y) {
        GrabbedAt(boxes, x, y, k);
        return Some(key);
      }
    }
    GrabbedNone(boxes, x, y);
    return None;
  }

  /** Where a dragged box's corner may go: `Math.max(0, Math.min(limit - size, wanted))`. */
  function DragClamp(wanted: real, size: real, limit: real): (r: real)
    ensures 0.0 <= r
    ensures r <= limit - size || r == 0.0
    ensures 0.0 <= wanted <= limit - size ==> r == wanted
  {
    ClampMaxMin(0.0, limit - size, wanted)
  }

  // ---------------------------------------------------------------------
  // The inputs
  // ---------------------------------------------------------------------

  /** What `generateAvatar` does with the current inputs. */
  datatype GenStart = MissingCharacter | MissingNickname | Started

  /** The checks at the top of `generateAvatar`, on the character and the trimmed nickname. */
  function Guard(character: JsString, trimmedNickname: JsString): (g: GenStart)
    ensures g == Started <==> character != [] && trimmedNickname != []
    ensures g == MissingCharacter <==> character == []
  {
    if character == [] then MissingCharacter
    else if trimmedNickname == [] then MissingNickname
    else Started
  }

  /** The hints the generate button's title can show. */
  datatype Hint = ChooseBoth | ChooseCharacter | EnterNickname | ReadyToGenerate

  /** The text of each hint. */
  function HintText(h: Hint): string {
    match h
    case ChooseBoth => "请选择角色并输入昵称"
    case ChooseCharacter => "请选择角色"
    case EnterNickname => "请输入昵称"
    case ReadyToGenerate => "点击生成头像"
  }

  /** The button's hint (`checkInputs`), on the character and the trimmed nickname. */
  function InputsHint(character: JsString, trimmedNickname: JsString): Hint {
    if character == [] && trimmedNickname == [] then ChooseBoth
    else if character == [] then ChooseCharacter
    else if trimmedNickname == [] then EnterNickname
    else ReadyToGenerate
  }

  /** Each hint names exactly what is missing, and the last invites a click exactly when nothing is. */
  lemma InputsHintNames(character: JsString, trimmedNickname: JsString)
    ensures var h := InputsHint(character, trimmedNickname);
            (h == ChooseBoth <==> character == [] && trimmedNickname == []) &&
            (h == ChooseCharacter <==> character == [] && trimmedNickname != []) &&
            (h == EnterNickname <==> character != [] && trimmedNickname == []) &&
            (h == ReadyToGenerate <==> character != [] && trimmedNickname != [])
  {
  }

  /**
   * The hint invites a click exactly when the checks let generation start,
   * and asks for the character exactly when the checks stop for it.
   */
  lemma HintAgreesWithGuard(character: JsString, trimmedNickname: JsString)
    ensures InputsHint(character, trimmedNickname) == ReadyToGenerate <==> Guard(character, trimmedNickname) == Started
    ensures InputsHint(character, trimmedNickname) in {ChooseBoth, ChooseCharacter} <==>
            Guard(character, trimmedNickname) == MissingCharacter
  {
  }

  /**
   * `loadCharacterVideo`, given how the fetch went: the body of an `ok`
   * response whose type starts with `video/`, and null otherwise.
   */
  function LoadCharacterVideo(fetched: FetchResult): (r: Option<Blob>)
    ensures r.Some? <==> fetched.Response? && fetched.ok && fetched.body.Some? &&
                         StartsWith(fetched.body.value.mime, "video/")
    ensures r.Some? ==> r == fetched.body
  {
    match fetched
    case NetworkError => None
    case Response(ok, body) =>
      if !ok then None
      else if body.None? then None
      else if !StartsWith(body.value.mime, "video/") then None
      else body
  }

  /**
   * `generateAnimationVideo`: the frames it draws are thrown away and the
   * static picture it was given comes back.
   */
  function GenerateAnimationVideo(staticImage: Blob): Blob {
    staticImage
  }

  /** How `mergeVideos` settles: with the merged GIF, with the static picture after an error, or never. */
  datatype MergeOutcome = Merged(gif: Blob) | FellBack | NeverSettles

  /** `downloadGif`: nothing without a result; otherwise `.gif` for a GIF blob and `.png` for anything else. */
  function DownloadName(nickname: JsString, character: JsString, generated: Option<Blob>, timestamp: nat): (r: Option<JsString>)
    ensures r.None? <==> generated.None?
    ensures r.Some? ==> LastSegment(r.value, Dot) == ExtensionUnits(if Contains(generated.value.mime, "gif") then Gif else Png)
  {
    match generated
    case None => None
    case Some(blob) =>
      var e := if Contains(blob.mime, "gif") then Gif else Png;
      FilenameExtension(nickname, character, timestamp, e);
      Some(Filename(nickname, character, timestamp, e))
  }

  // ---------------------------------------------------------------------
  // Frame schedules
  // ---------------------------------------------------------------------

  /** The fade-in: 40 frames of 50 ms, the first 20 fading in. */
  const FadeFrameCount: nat := 40
  const FadeInFrames: nat := 20
  const FadeDelay: real := 50.0

  /** The opacity of fade frame i: i/19 over the first 20 frames, then fully opaque. */
  function FadeAlpha(i: nat): (a: real)
    ensures 0.0 <= a <= 1.0
    ensures i == 0 ==> a == 0.0
    ensures i >= FadeInFrames - 1 ==> a == 1.0
  {
    if i < FadeInFrames then i as real / (FadeInFrames - 1) as real else 1.0
  }

  /** The fade never dims. */
  lemma FadeAlphaMonotone(i: nat, j: nat)
    requires i <= j
    ensures FadeAlpha(i) <= FadeAlpha(j)
  {
  }

  /** The frames `addStaticImageFadeFrames` and `convertToGif` add for a picture. */
  function FadeFrames(source: FadeSource): seq<Frame<Picture>> {
    seq(FadeFrameCount, i requires 0 <= i < FadeFrameCount => Frame(Faded(source, FadeAlpha(i)), FadeDelay))
  }

  /** The fade is 40 frames of 50 ms whose opacity rises from 0 to 1 at frame 19 and stays there. */
  lemma FadeFramesShape(source: FadeSource)
    ensures |FadeFrames(source)| == 40
    ensures forall i :: 0 <= i < 40 ==> FadeFrames(source)[i].delay == 50.0 && FadeFrames(source)[i].picture.source == source
    ensures FadeFrames(source)[0].picture.alpha == 0.0 && FadeFrames(source)[19].picture.alpha == 1.0
    ensures forall i, j :: 0 <= i <= j < 40 ==> FadeFrames(source)[i].picture.alpha <= FadeFrames(source)[j].picture.alpha
  {
    forall i, j | 0 <= i <= j < 40
      ensures FadeFrames(source)[i].picture.alpha <= FadeFrames(source)[j].picture.alpha
    {
      FadeAlphaMonotone(i, j);
    }
  }

  /** The frame loop of `addStaticImageFadeFrames` and `convertToGif`. */
  method AddFadeFrames(gif: Encoder<Picture>, source: FadeSource)
    modifies gif
    ensures gif.frames == old(gif.frames) + FadeFrames(source)
    ensures gif.rendering == old(gif.rendering)
  {
    for i := 0 to FadeFrameCount
      invariant gif.frames == old(gif.frames) + FadeFrames(source)[..i]
      invariant gif.rendering == old(gif.rendering)
    {
      var alpha := if i < FadeInFrames then i as real / (FadeInFrames - 1) as real else 1.0;
      gif.AddFrame(Faded(source, alpha), FadeDelay);
    }
  }

  /** The character video is sampled at 30 frames a second. */
  const VideoRate: real := 30.0

  /** `Math.floor(duration * 30)` for a finite, non-negative duration. */
  function VideoFrameCount(duration: real): (n: nat)
    requires duration >= 0.0
    ensures n as real <= duration * VideoRate < n as real + 1.0
  {
    (duration * VideoRate).Floor
  }

  /** `Math.round(1000 / 30)` */
  const VideoDelay: int := JsRound(1000.0 / VideoRate)

  /** The video stills are 33 ms apart. */
  lemma VideoDelayIs33()
    ensures VideoDelay == 33
  {
    var r := JsRound(1000.0 / VideoRate);
    assert 1000.0 / VideoRate == 1000.0 / 30.0;
    assert r as real - 0.5 <= 1000.0 / 30.0 < r as real + 0.5;
    assert 1000.0 / 30.0 * 30.0 == 1000.0;
  }

  /** The canvas the GIF frames are drawn on is 400 by 400. */
  const Side: real := 400.0

  /** A missing video dimension (0) counts as the canvas side. */
  function Dimension(n: nat): (d: real)
    ensures d > 0.0
  {
    if n == 0 then Side else n as real
  }

  /**
   * Where a still of the video goes: scaled by `min(400 / w, 400 / h)` and
   * centred.
   */
  function ContainRect(videoWidth: nat, videoHeight: nat): (r: Rect)
    ensures 0.0 <= r.x && 0.0 <= r.y && r.x + r.width <= Side && r.y + r.height <= Side
    ensures r.width == Side || r.height == Side
    ensures r.x == (Side - r.width) / 2.0 && r.y == (Side - r.height) / 2.0
    ensures r.width * Dimension(videoHeight) == r.height * Dimension(videoWidth)
  {
    var w, h := Dimension(videoWidth), Dimension(videoHeight);
    var scale := if Side / w < Side / h then Side / w else Side / h;
    ContainFits(w, h, scale);
    var sw, sh := w * scale, h * scale;
    Rect((Side - sw) / 2.0, (Side - sh) / 2.0, sw, sh)
  }

  /** The smaller of the two ratios fits both sides in the square and fills one of them. */
  lemma ContainFits(w: real, h: real, scale: real)
    requires w > 0.0 && h > 0.0
    requires scale == if Side / w < Side / h then Side / w else Side / h
    ensures 0.0 <= w * scale <= Side && 0.0 <= h * scale <= Side
    ensures w * scale == Side || h * scale == Side
    ensures (w * scale) * h == (h * scale) * w
  {
    var sw, sh := Side / w, Side / h;
    assert w * sw == Side;
    assert h * sh == Side;
    if sw < sh {
      assert scale == sw;
      assert h * sw <= h * sh;
    } else {
      assert scale == sh;
      assert w * sh <= w * sw;
    }
  }

  /** The stills `addCharacterVideoFrames` adds: frame k shows time k/30, 33 ms each. */
  function VideoFrames(duration: real, videoWidth: nat, videoHeight: nat): seq<Frame<Picture>>
    requires duration >= 0.0
  {
    seq(VideoFrameCount(duration), k requires 0 <= k < VideoFrameCount(duration) =>
      Frame(VideoStill(k as real / VideoRate, ContainRect(videoWidth, videoHeight)), VideoDelay as real))
  }

  /**
   * Every still lies within the video, the stills go forward in time
   * 1/30 s apart, and each is shown 33 ms: the capture never seeks past
   * the end and never repeats a moment.
   */
  lemma VideoFramesWithinVideo(duration: real, videoWidth: nat, videoHeight: nat)
    requires duration >= 0.0
    ensures var fs := VideoFrames(duration, videoWidth, videoHeight);
            (forall k :: 0 <= k < |fs| ==>
               fs[k].picture.VideoStill? && 0.0 <= fs[k].picture.time < duration && fs[k].delay == 33.0) &&
            (forall j, k :: 0 <= j < k < |fs| ==> fs[j].picture.time < fs[k].picture.time)
  {
    VideoDelayIs33();
    var fs := VideoFrames(duration, videoWidth, videoHeight);
    forall k | 0 <= k < |fs|
      ensures fs[k].picture.time < duration
    {
      assert fs[k].picture.time == k as real / VideoRate;
      assert (k + 1) as real <= duration * VideoRate;
    }
  }

  /**
   * `addCharacterVideoFrames`, each seek completing in turn: frame by
   * frame the video is moved to k/30 seconds and its still drawn in and added.
   */
  method AddCharacterVideoFrames(gif: Encoder<Picture>, duration: real, videoWidth: nat, videoHeight: nat)
    requires duration >= 0.0
    modifies gif
    ensures gif.frames == old(gif.frames) + VideoFrames(duration, videoWidth, videoHeight)
    ensures gif.rendering == old(gif.rendering)
  {
    var frameCount := VideoFrameCount(duration);
    var currentFrame := 0;
    while currentFrame < frameCount
      invariant 0 <= currentFrame <= frameCount
      invariant gif.frames == old(gif.frames) + VideoFrames(duration, videoWidth, videoHeight)[..currentFrame]
      invariant gif.rendering == old(gif.rendering)
    {
      var time := currentFrame as real / VideoRate;
      gif.AddFrame(VideoStill(time, ContainRect(videoWidth, videoHeight)), JsRound(1000.0 / VideoRate) as real);
      currentFrame := currentFrame + 1;
    }
  }

  /**
   * `createMergedGif`, told whether GIF.js is loaded: without it the merge
   * fails; otherwise the video's stills, then the static picture's fade,
   * and rendering starts.
   */
  method CreateMergedGif(gifLoaded: bool, duration: real, videoWidth: nat, videoHeight: nat) returns (gif: Encoder?<Picture>)
    requires duration >= 0.0
    ensures gif == null <==> !gifLoaded
    ensures gif != null ==> fresh(gif) && gif.rendering &&
                            gif.frames == VideoFrames(duration, videoWidth, videoHeight) + FadeFrames(StaticContent)
  {
    if !gifLoaded {
      return null;
    }
    gif := new Encoder<Picture>();
    AddCharacterVideoFrames(gif, duration, videoWidth, videoHeight);
    AddFadeFrames(gif, StaticContent);
    gif.Render();
  }

  /**
   * `convertToGif(video)`, told whether GIF.js is loaded: without it the
   * video itself comes back; otherwise the fade of its picture is rendered.
   */
  method ConvertToGif(gifLoaded: bool, video: Blob) returns (gif: Encoder?<Picture>, passThrough: Option<Blob>)
    ensures gif == null <==> !gifLoaded
    ensures !gifLoaded ==> passThrough == Some(video)
    ensures gif != null ==> fresh(gif) && gif.rendering && gif.frames == FadeFrames(ImageOf(video)) && passThrough.None?
  {
    if !gifLoaded {
      return null, Some(video);
    }
    gif := new Encoder<Picture>();
    AddFadeFrames(gif, ImageOf(video));
    gif.Render();
    passThrough := None;
  }

  // ---------------------------------------------------------------------
  // The page
  // ---------------------------------------------------------------------

  class Generator {
    const canvasWidth: real
    const canvasHeight: real
    var boxes: map<AvatarLayer, Box>
    var dragOffset: (real, real)
    var isDragging: bool
    var dragElement: Option<AvatarLayer>
    var character: JsString
    var nickname: JsString
    var generatedGif: Option<Blob>
    var buttonDisabled: bool
    var buttonTitle: Hint

    /** The three layers keep their sizes, a drag always names its layer, and the button stays enabled. */
    predicate Valid()
      reads this
    {
      Complete(boxes) && (isDragging <==> dragElement.Some?) && !buttonDisabled
    }

    /** The button's hint matches the current inputs. */
    predicate HintCurrent()
      reads this
    {
      buttonTitle == InputsHint(character, Trim(nickname))
    }

    /** `init`: the initial layout, empty inputs, and `checkInputs` run once. */
    constructor(canvasWidth: real, canvasHeight: real)
      ensures Valid() && HintCurrent()
      ensures this.canvasWidth == canvasWidth && this.canvasHeight == canvasHeight
      ensures boxes == InitialBoxes() && !isDragging && character == [] && nickname == [] && generatedGif.None?
    {
      this.canvasWidth := canvasWidth;
      this.canvasHeight := canvasHeight;
      boxes := InitialBoxes();
      dragOffset := (0.0, 0.0);
      isDragging := false;
      dragElement := None;
      character := [];
      nickname := [];
      generatedGif := None;
      buttonDisabled := false;
      buttonTitle := InputsHint([], Trim([]));
    }

    /** `checkInputs`: the button is enabled and its hint set from the inputs. */
    method CheckInputs()
      modifies this
      ensures !buttonDisabled && HintCurrent()
      ensures boxes == old(boxes) && dragOffset == old(dragOffset) && isDragging == old(isDragging)
      ensures dragElement == old(dragElement) && character == old(character) && nickname == old(nickname)
      ensures generatedGif == old(generatedGif)
    {
      buttonDisabled := false;
      buttonTitle := InputsHint(character, Trim(nickname));
    }

    /** The character list changes. */
    method SelectCharacter(value: JsString)
      requires Valid()
      modifies this
      ensures Valid() && HintCurrent() && character == value && nickname == old(nickname)
      ensures boxes == old(boxes) && isDragging == old(isDragging) && generatedGif == old(generatedGif)
      ensures dragElement == old(dragElement) && dragOffset == old(dragOffset)
    {
      character := value;
      CheckInputs();
    }

    /** The nickname input changes; the raw text is kept and trimmed only when checked. */
    method InputNickname(value: JsString)
      requires Valid()
      modifies this
      ensures Valid() && HintCurrent() && nickname == value && character == old(character)
      ensures boxes == old(boxes) && isDragging == old(isDragging) && generatedGif == old(generatedGif)
      ensures dragElement == old(dragElement) && dragOffset == old(dragOffset)
    {
      nickname := value;
      CheckInputs();
    }

    /**
     * A press on the preview: the first layer in entry order under the
     * mouse is marked as dragged, with the mouse's offset from its
     * corner (or centre); a press on no layer changes nothing.
     */
    method MouseDown(clientX: real, clientY: real, rect: ClientRect)
      requires Valid()
      modifies this
      ensures Valid()
      ensures character == old(character) && nickname == old(nickname) && generatedGif == old(generatedGif)
      ensures buttonTitle == old(buttonTitle)
      ensures var x, y := clientX - rect.left, clientY - rect.top;
              match Grabbed(old(boxes), x, y)
              case None =>
                boxes == old(boxes) && isDragging == old(isDragging) && dragElement == old(dragElement) &&
                dragOffset == old(dragOffset)
              case Some(l) =>
                isDragging && dragElement == Some(l) &&
                boxes == old(boxes)[l := old(boxes)[l].(dragging := true)] &&
                dragOffset == (x - old(boxes)[l].x, y - old(boxes)[l].y)
    {
      var x, y := clientX - rect.left, clientY - rect.top;
      var hit := FindGrabbed(boxes, x, y);
      if hit.Some? {
        Grab(hit.value, x, y);
      }
    }

    /** The body of the hit branch of `handleMouseDown`: `l` is marked and dragged from the point. */
    method Grab(l: AvatarLayer, x: real, y: real)
      requires Valid()
      modifies this
      ensures Valid()
      ensures character == old(character) && nickname == old(nickname) && generatedGif == old(generatedGif)
      ensures buttonTitle == old(buttonTitle) && isDragging && dragElement == Some(l)
      ensures boxes == old(boxes)[l := old(boxes)[l].(dragging := true)]
      ensures dragOffset == (x - old(boxes)[l].x, y - old(boxes)[l].y)
    {
      var element := boxes[l];
      isDragging := true;
      dragElement := Some(l);
      ReplaceKeepsComplete(boxes, l, element.(dragging := true));
      boxes := boxes[l := element.(dragging := true)];
      dragOffset := (x - element.x, y - element.y);
    }

    /**
     * A mouse move while dragging: the dragged box follows the mouse at
     * the recorded offset, kept within the canvas. Otherwise only the cursor
     * changes, which is not modelled.
     */
    method MouseMove(clientX: real, clientY: real, rect: ClientRect)
      requires Valid()
      modifies this
      ensures Valid()
      ensures isDragging == old(isDragging) && dragElement == old(dragElement) && dragOffset == old(dragOffset)
      ensures character == old(character) && nickname == old(nickname) && generatedGif == old(generatedGif)
      ensures buttonTitle == old(buttonTitle)
      ensures !isDragging ==> boxes == old(boxes)
      ensures isDragging ==>
                var l := dragElement.value;
                var b := old(boxes)[l];
                boxes == old(boxes)[l := b.(x := DragClamp(clientX - rect.left - dragOffset.0, b.width, canvasWidth),
                                            y := DragClamp(clientY - rect.top - dragOffset.1, b.height, canvasHeight))] &&
                0.0 <= boxes[l].x && (boxes[l].x <= canvasWidth - b.width || boxes[l].x == 0.0) &&
                0.0 <= boxes[l].y && (boxes[l].y <= canvasHeight - b.height || boxes[l].y == 0.0)
    {
      if isDragging && dragElement.Some? {
        var l := dragElement.value;
        var element := boxes[l];
        var x, y := clientX - rect.left, clientY - rect.top;
        var nx := DragClamp(x - dragOffset.0, element.width, canvasWidth);
        var ny := DragClamp(y - dragOffset.1, element.height, canvasHeight);
        ReplaceKeepsComplete(boxes, l, element.(x := nx, y := ny));
        boxes := boxes[l := element.(x := nx, y := ny)];
      }
    }

    /** The button is released: a drag ends and its box is no longer marked. */
    method MouseUp()
      requires Valid()
      modifies this
      ensures Valid() && !isDragging && dragElement.None? && dragOffset == old(dragOffset)
      ensures character == old(character) && nickname == old(nickname) && generatedGif == old(generatedGif)
      ensures buttonTitle == old(buttonTitle)
      ensures old(isDragging) ==> boxes == old(boxes)[old(dragElement).value := old(boxes)[old(dragElement).value].(dragging := false)]
      ensures !old(isDragging) ==> boxes == old(boxes)
    {
      if isDragging && dragElement.Some? {
        var l := dragElement.value;
        ReplaceKeepsComplete(boxes, l, boxes[l].(dragging := false));
        boxes := boxes[l := boxes[l].(dragging := false)];
        isDragging := false;
        dragElement := None;
      }
    }

    /** The reset button: the three boxes return to the initial layout; a drag in progress goes on. */
    method ResetLayout()
      requires Valid()
      modifies this
      ensures Valid() && boxes == InitialBoxes()
      ensures isDragging == old(isDragging) && dragElement == old(dragElement) && dragOffset == old(dragOffset)
      ensures character == old(character) && nickname == old(nickname) && generatedGif == old(generatedGif)
      ensures buttonTitle == old(buttonTitle)
    {
      boxes := InitialBoxes();
    }

    /**
     * `generateAvatar`, given what each step settles with: the static
     * picture (None when drawing it throws), the URL encoder and the fetch
     * of the video path, whether GIF.js is loaded, the merge (used when a
     * video was found; without GIF.js it cannot produce a GIF) and the
     * blob the conversion's rendering finishes with (used when no video
     * was found and GIF.js is loaded; None when the conversion rejects on
     * its timeout or an abort). A missing input stops it before anything
     * else happens; a thrown error leaves the last result in place.
     */
    method GenerateAvatar(staticImage: Option<Blob>, encode: JsString -> JsString, fetch: JsString -> FetchResult,
                          gifLoaded: bool, merge: MergeOutcome, converted: Option<Blob>)
      returns (start: GenStart, gif: Encoder?<Picture>)
      requires Valid()
      requires !gifLoaded ==> !merge.Merged?
      modifies this
      ensures Valid()
      ensures start == Guard(character, Trim(nickname))
      ensures boxes == old(boxes) && character == old(character) && nickname == old(nickname)
      ensures buttonTitle == old(buttonTitle) && isDragging == old(isDragging) && dragElement == old(dragElement)
      ensures dragOffset == old(dragOffset)
      ensures start != Started || staticImage.None? ==> generatedGif == old(generatedGif)
      ensures start == Started && staticImage.Some? ==>
                generatedGif == match LoadCharacterVideo(fetch(VideoPath(character, encode)))
                  case Some(_) => (match merge
                                   case Merged(g) => Some(g)
                                   case FellBack => staticImage
                                   case NeverSettles => old(generatedGif))
                  case None => (if gifLoaded && converted.Some? then converted else staticImage)
      ensures start == Started && staticImage.Some? && merge != NeverSettles ==> generatedGif.Some?
      ensures gif != null <==> start == Started && staticImage.Some? && gifLoaded &&
                                LoadCharacterVideo(fetch(VideoPath(character, encode))).None?
      ensures gif != null ==> fresh(gif) && gif.rendering && gif.frames == FadeFrames(ImageOf(staticImage.value))
    {
      start := Guard(character, Trim(nickname));
      gif := null;
      if start != Started || staticImage.None? {
        return;
      }
      var characterVideo := LoadCharacterVideo(fetch(VideoPath(character, encode)));
      if characterVideo.Some? {
        match merge
        case Merged(g) => generatedGif := Some(g);
        case FellBack => generatedGif := staticImage;
        case NeverSettles =>
      } else {
        var animation := GenerateAnimationVideo(staticImage.value);
        var passThrough;
        gif, passThrough := ConvertToGif(gifLoaded, animation);
        generatedGif := if gif == null then passThrough else if converted.Some? then converted else Some(animation);
      }
    }

    /** `resetGenerator`: the inputs and the result are cleared and the hint updated; the layout stays. */
    method ResetGenerator()
      requires Valid()
      modifies this
      ensures Valid() && character == [] && nickname == [] && generatedGif.None?
      ensures HintCurrent() && buttonTitle == ChooseBoth
      ensures boxes == old(boxes) && isDragging == old(isDragging) && dragElement == old(dragElement)
      ensures dragOffset == old(dragOffset)
    {
      character := [];
      nickname := [];
      generatedGif := None;
      CheckInputs();
      assert Trim(nickname) == [];
    }
  }
}
