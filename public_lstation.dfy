/**
 * The site's own avatar generator: a character and a nickname, the
 * generate button enabled only when both are given, a fade-in GIF of the
 * static picture, and the download file name. The character's video is
 * fetched but never used: the merge step hands back the animation.
 */
module PublicLstation {
  import opened Wrappers
  import opened JsText
  import opened GifSink
  import opened LstationCommon

  /** `loadCharacterVideo`: the body of an `ok` response, whatever its type; null otherwise. */
  function LoadCharacterVideo(fetched: FetchResult): (r: Option<Blob>)
    ensures r.Some? <==> fetched.Response? && fetched.ok && fetched.body.Some?
    ensures r.Some? ==> r == fetched.body
  {
    match fetched
    case NetworkError => None
    case Response(ok, body) => if ok then body else None
  }

  /** `generateAnimationVideo`: the frames it draws are thrown away and its input comes back. */
  function GenerateAnimationVideo(staticImage: Blob): Blob {
    staticImage
  }

  /** `mergeVideos`: with or without a character video, the animation comes back. */
  function MergeVideos(characterVideo: Option<Blob>, animation: Blob): Blob {
    animation
  }

  /** The video `generateAvatar` converts is always the static picture, whatever the fetch brought. */
  lemma FinalVideoIsStaticImage(staticImage: Blob, fetched: FetchResult)
    ensures var animation := GenerateAnimationVideo(staticImage);
            var finalVideo := if LoadCharacterVideo(fetched).Some? then MergeVideos(LoadCharacterVideo(fetched), animation) else animation;
            finalVideo == staticImage
  {
  }

  /** `downloadGif`: nothing without a result; otherwise always a `.gif` name. */
  function DownloadName(nickname: JsString, character: JsString, generated: Option<Blob>, timestamp: nat): (r: Option<JsString>)
    ensures r.None? <==> generated.None?
    ensures r.Some? ==> LastSegment(r.value, Dot) == ExtensionUnits(Gif)
  {
    if generated.None? then None
    else
      FilenameExtension(nickname, character, timestamp, Gif);
      Some(Filename(nickname, character, timestamp, Gif))
  }

  // ---------------------------------------------------------------------
  // The GIF frames
  // ---------------------------------------------------------------------

  /** 15 frames a second for 1.2 seconds, the first 0.4 seconds fading in. */
  const Fps: real := 15.0
  const TotalFrames: int := (1.2 * Fps).Floor
  const FadeFrames: int := (0.4 * Fps).Floor

  /** `Math.floor(1.2 * 15)` is 18 and `Math.floor(0.4 * 15)` is 6. */
  lemma FrameCounts()
    ensures TotalFrames == 18 && FadeFrames == 6
  {
    assert 1.2 * Fps == 18.0;
    assert 0.4 * Fps == 6.0;
  }

  /** The opacity of frame i: i/6 over the first 6 frames, then fully opaque. */
  function FadeAlpha(i: nat): (a: real)
    ensures 0.0 <= a <= 1.0
    ensures i == 0 ==> a == 0.0
    ensures i >= 6 ==> a == 1.0
    ensures i < 6 ==> a < 1.0
  {
    FrameCounts();
    if i < FadeFrames then i as real / FadeFrames as real else 1.0
  }

  /** The fade never dims; it jumps from 5/6 straight to fully opaque. */
  lemma FadeAlphaMonotone(i: nat, j: nat)
    requires i <= j
    ensures FadeAlpha(i) <= FadeAlpha(j)
  {
    FrameCounts();
  }

  /** The frames `convertToGif` adds for a picture, each shown 1000/15 ms. */
  function GifFrames(video: Blob): seq<Frame<Picture>> {
    FrameCounts();
    seq(TotalFrames, i requires 0 <= i < TotalFrames => Frame(Faded(ImageOf(video), FadeAlpha(i)), 1000.0 / Fps))
  }

  /** 18 frames of 1000/15 ms, opacity rising from 0 and opaque from frame 6 on. */
  lemma GifFramesShape(video: Blob)
    ensures |GifFrames(video)| == 18
    ensures forall i :: 0 <= i < 18 ==>
              GifFrames(video)[i].delay * 15.0 == 1000.0 && GifFrames(video)[i].picture.source == ImageOf(video)
    ensures GifFrames(video)[0].picture.alpha == 0.0
    ensures forall i :: 6 <= i < 18 ==> GifFrames(video)[i].picture.alpha == 1.0
    ensures forall i, j :: 0 <= i <= j < 18 ==> GifFrames(video)[i].picture.alpha <= GifFrames(video)[j].picture.alpha
  {
    FrameCounts();
    forall i, j | 0 <= i <= j < 18
      ensures GifFrames(video)[i].picture.alpha <= GifFrames(video)[j].picture.alpha
    {
      FadeAlphaMonotone(i, j);
    }
  }

  /**
   * `convertToGif(video)`, told whether GIF.js is loaded: without it the
   * video itself comes back; otherwise the fade of its picture is added
   * frame by frame and rendered.
   */
  method ConvertToGif(gifLoaded: bool, video: Blob) returns (gif: Encoder?<Picture>, passThrough: Option<Blob>)
    ensures gif == null <==> !gifLoaded
    ensures !gifLoaded ==> passThrough == Some(video)
    ensures gif != null ==> fresh(gif) && gif.rendering && gif.frames == GifFrames(video) && passThrough.None?
  {
    if !gifLoaded {
      return null, Some(video);
    }
    gif := new Encoder<Picture>();
    FrameCounts();
    for i := 0 to TotalFrames
      invariant gif.frames == GifFrames(video)[..i]
      invariant !gif.rendering
    {
      var alpha := 1.0;
      if i < FadeFrames {
        alpha := i as real / FadeFrames as real;
      }
      gif.AddFrame(Faded(ImageOf(video), alpha), 1000.0 / Fps);
    }
    gif.Render();
    passThrough := None;
  }

  // ---------------------------------------------------------------------
  // The page
  // ---------------------------------------------------------------------

  class Form {
    var character: JsString
    var nickname: JsString
    var generatedGif: Option<Blob>
    var buttonDisabled: bool
    var previewShown: bool
    var progressShown: bool
    /** The 1 s timers that will hide the progress bar, set by earlier runs and never cancelled. */
    var hideTimers: nat

    /** The nickname is kept trimmed. */
    predicate Valid()
      reads this
    {
      Trim(nickname) == nickname
    }

    /** `init`: empty inputs; the button keeps the state the page gave it. */
    constructor(buttonDisabled: bool)
      ensures Valid()
      ensures character == [] && nickname == [] && generatedGif.None?
      ensures this.buttonDisabled == buttonDisabled && !previewShown && !progressShown && hideTimers == 0
    {
      TrimEmptyIff([]);
      character := [];
      nickname := [];
      generatedGif := None;
      this.buttonDisabled := buttonDisabled;
      previewShown := false;
      progressShown := false;
      hideTimers := 0;
    }

    /** `checkInputs`: the button is enabled exactly when both inputs are given. */
    method CheckInputs()
      modifies this
      ensures buttonDisabled <==> character == [] || nickname == []
      ensures character == old(character) && nickname == old(nickname) && generatedGif == old(generatedGif)
      ensures previewShown == old(previewShown) && progressShown == old(progressShown) && hideTimers == old(hideTimers)
    {
      buttonDisabled := !(character != [] && nickname != []);
    }

    /** The character list changes. */
    method SelectCharacter(value: JsString)
      requires Valid()
      modifies this
      ensures Valid() && character == value && nickname == old(nickname)
      ensures buttonDisabled <==> character == [] || nickname == []
      ensures generatedGif == old(generatedGif) && previewShown == old(previewShown) && progressShown == old(progressShown)
      ensures hideTimers == old(hideTimers)
    {
      character := value;
      CheckInputs();
    }

    /** The nickname input changes: its value is trimmed when read. */
    method InputNickname(value: JsString)
      modifies this
      ensures Valid() && nickname == Trim(value) && character == old(character)
      ensures buttonDisabled <==> character == [] || Trim(value) == []
      ensures generatedGif == old(generatedGif) && previewShown == old(previewShown) && progressShown == old(progressShown)
      ensures hideTimers == old(hideTimers)
    {
      TrimIdempotent(value);
      nickname := Trim(value);
      CheckInputs();
    }

    /**
     * `generateAvatar`, given what its steps settle with: the static
     * picture (None when the canvas yields no blob, which makes the next
     * step throw), the URL encoder and the fetch of the video path,
     * whether GIF.js is loaded, and the blob the rendering finishes with
     * (None when it never finishes). The inputs are not checked here. The
     * bar is shown at the start; once the run settles the button is
     * enabled again and one more 1 s timer is set to hide the bar, which
     * therefore stays shown until `ProgressTimerFires`.
     */
    method GenerateAvatar(staticImage: Option<Blob>, encode: JsString -> JsString, fetch: JsString -> FetchResult,
                          gifLoaded: bool, rendered: Option<Blob>)
      returns (gif: Encoder?<Picture>)
      requires Valid()
      modifies this
      ensures Valid() && character == old(character) && nickname == old(nickname) && progressShown
      ensures staticImage.None? ==> gif == null && generatedGif == old(generatedGif) && !previewShown
      ensures staticImage.Some? && !gifLoaded ==> gif == null && generatedGif == staticImage && previewShown
      ensures staticImage.Some? && gifLoaded ==>
                gif != null && fresh(gif) && gif.frames == GifFrames(staticImage.value) && gif.rendering &&
                generatedGif == (if rendered.Some? then rendered else old(generatedGif)) &&
                previewShown == rendered.Some?
      ensures var settled := staticImage.None? || !gifLoaded || rendered.Some?;
              (settled ==> !buttonDisabled && hideTimers == old(hideTimers) + 1) &&
              (!settled ==> buttonDisabled && hideTimers == old(hideTimers))
    {
      ghost var trimmed := nickname;
      assert Trim(trimmed) == trimmed;
      buttonDisabled := true;
      progressShown := true;
      previewShown := false;
      gif := null;
      if staticImage.None? {
        buttonDisabled := false;
        hideTimers := hideTimers + 1;
        return;
      }
      var animation := GenerateAnimationVideo(staticImage.value);
      var characterVideo := LoadCharacterVideo(fetch(VideoPath(character, encode)));
      var finalVideo := if characterVideo.Some? then MergeVideos(characterVideo, animation) else animation;
      var passThrough;
      gif, passThrough := ConvertToGif(gifLoaded, finalVideo);
      if gif == null {
        generatedGif := passThrough;
        previewShown := true;
      } else if rendered.Some? {
        generatedGif := rendered;
        previewShown := true;
      }
      if gif == null || rendered.Some? {
        buttonDisabled := false;
        hideTimers := hideTimers + 1;
      }
    }

    /**
     * One of the timers set by a settled run fires: the progress bar is
     * hidden, even when a later run is still under way.
     */
    method ProgressTimerFires()
      requires hideTimers > 0
      modifies this
      ensures !progressShown && hideTimers == old(hideTimers) - 1
      ensures character == old(character) && nickname == old(nickname) && generatedGif == old(generatedGif)
      ensures buttonDisabled == old(buttonDisabled) && previewShown == old(previewShown)
    {
      progressShown := false;
      hideTimers := hideTimers - 1;
    }

    /** `resetGenerator`: the inputs and the result are cleared, preview and progress hidden, the button disabled. */
    method ResetGenerator()
      modifies this
      ensures Valid() && character == [] && nickname == [] && generatedGif.None?
      ensures !previewShown && !progressShown && buttonDisabled && hideTimers == old(hideTimers)
    {
      character := [];
      nickname := [];
      generatedGif := None;
      previewShown := false;
      progressShown := false;
      CheckInputs();
    }
  }
}
