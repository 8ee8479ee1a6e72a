/**
 * The theme's background editor: a canvas of layers the user drags,
 * rotates, zooms, adds stickers to and resets, a gradient-angle control,
 * and the export that draws thirty frames into a GIF.
 */
module ThemeBackground {
  import opened Wrappers
  import opened JsText
  import opened LayerScene
  import opened GifSink

  /**
   * `getCanvasCoordinates`: a client coordinate on the displayed canvas,
   * scaled back to the canvas's own pixels.
   */
  function CanvasCoordinate(client: real, rectStart: real, rectSize: real, canvasSize: real): (c: real)
    requires rectSize > 0.0
    ensures client == rectStart ==> c == 0.0
    ensures client == rectStart + rectSize ==> c == canvasSize
    ensures canvasSize >= 0.0 && client >= rectStart ==> c >= 0.0
  {
    var k := canvasSize / rectSize;
    assert canvasSize >= 0.0 ==> k >= 0.0;
    (client - rectStart) * k
  }


  /**
   * `calculateAngleFromPosition`: the mouse's place along the control,
   * clamped to 0..100 percent, as a whole number of degrees.
   */
  function AngleFromPosition(clientX: real, rectLeft: real, rectWidth: real): (a: int)
    requires rectWidth > 0.0
    ensures 0 <= a <= 360
  {
    var percentage := ClampMaxMin(0.0, 100.0, (clientX - rectLeft) / rectWidth * 100.0);
    JsRound(percentage / 100.0 * 360.0)
  }

  /** The angle input on blur: a number is clamped to 0..360, anything else keeps the angle. */
  function AngleFromInput(parsed: Option<int>, current: int): (a: int)
    ensures parsed.None? ==> a == current
    ensures parsed.Some? ==> 0 <= a <= 360
    ensures parsed.Some? && 0 <= parsed.value <= 360 ==> a == parsed.value
  {
    match parsed
    case None => current
    case Some(v) => if v < 0 then 0 else if v > 360 then 360 else v
  }

  class Editor {
    var size: SizePreset
    /** `layoutElements`, `stickers` and `stickerCounter`, kept as one value that keeps the invariant. */
    var scene: ValidScene
    var selected: Option<LayerId>
    var dragging: bool
    var dragOffset: (real, real)
    var customBackground: bool
    var backgroundOpacity: real
    var background: string
    var gradientAngle: int
    var draggingAngle: bool

    /** The gradient angle stays within 0..360. */
    predicate Valid()
      reads this
    {
      0 <= gradientAngle <= 360
    }

    /** The size and background settings, which the angle control leaves alone. */
    twostate predicate BackgroundKept()
      reads this
    {
      size == old(size) && customBackground == old(customBackground) &&
      backgroundOpacity == old(backgroundOpacity) && background == old(background)
    }

    /** The session state none of the layer operations touch. */
    twostate predicate SettingsUnchanged()
      reads this
    {
      size == old(size) && customBackground == old(customBackground) &&
      backgroundOpacity == old(backgroundOpacity) && background == old(background) &&
      gradientAngle == old(gradientAngle) && draggingAngle == old(draggingAngle)
    }

    /** `init`: the banner size, its initial layers, no stickers, a blank background, 90 degrees. */
    constructor()
      ensures Valid()
      ensures size == Banner && scene == SceneData(InitialLayouts(Banner), [], 0)
      ensures selected == None && !dragging && dragOffset == (0.0, 0.0)
      ensures !customBackground && backgroundOpacity == 1.0 && background == "blank"
      ensures gradientAngle == 90 && !draggingAngle
    {
      size := Banner;
      scene := FreshScene(Banner);
      selected := None;
      dragging := false;
      dragOffset := (0.0, 0.0);
      customBackground := false;
      backgroundOpacity := 1.0;
      background := "blank";
      gradientAngle := 90;
      draggingAngle := false;
    }

    /**
     * `handleSizeChange`: the canvas takes the new size and the fixed
     * layers their places on it. Every layout is replaced, so sticker
     * layouts are gone while the stickers stay listed and may stay selected.
     */
    method ChangeSize(newSize: SizePreset)
      requires Valid()
      modifies this
      ensures Valid()
      ensures size == newSize && scene.layouts == InitialLayouts(newSize)
      ensures scene.stickers == old(scene.stickers) && scene.counter == old(scene.counter) && selected == old(selected)
      ensures dragging == old(dragging) && dragOffset == old(dragOffset)
      ensures customBackground == old(customBackground) && backgroundOpacity == old(backgroundOpacity)
      ensures background == old(background) && gradientAngle == old(gradientAngle) && draggingAngle == old(draggingAngle)
    {
      size := newSize;
      scene := Relaid(scene, newSize);
    }

    /** The mouse's position in canvas pixels. */
    function MouseX(clientX: real, rect: ClientRect): (x: real)
      requires rect.width > 0.0
      reads this
      ensures clientX == rect.left ==> x == 0.0
      ensures clientX == rect.left + rect.width ==> x == Width(size)
    {
      CanvasCoordinate(clientX, rect.left, rect.width, Width(size))
    }

    function MouseY(clientY: real, rect: ClientRect): (y: real)
      requires rect.height > 0.0
      reads this
      ensures clientY == rect.top ==> y == 0.0
      ensures clientY == rect.top + rect.height ==> y == Height(size)
    {
      CanvasCoordinate(clientY, rect.top, rect.height, Height(size))
    }

    /**
     * `handleCanvasMouseDown`: select and start dragging the layer under the
     * mouse, recording where on it the mouse took hold, or deselect.
     */
    method MouseDown(clientX: real, clientY: real, rect: ClientRect)
      requires Valid() && rect.width > 0.0 && rect.height > 0.0
      modifies this
      ensures Valid() && SettingsUnchanged() && scene == old(scene)
      ensures var x, y := MouseX(clientX, rect), MouseY(clientY, rect);
              var hit := ElementAt(old(scene.stickers), old(scene.layouts), x, y);
              match hit
              case None => selected == None && dragging == old(dragging) && dragOffset == old(dragOffset)
              case Some(id) => id in scene.layouts && selected == hit && dragging &&
                               dragOffset == (x - scene.layouts[id].x, y - scene.layouts[id].y)
    {
      var x, y := MouseX(clientX, rect), MouseY(clientY, rect);
      var hit := ElementAtPosition(scene.stickers, scene.layouts, x, y);
      ElementAtMeaning(scene.stickers, scene.layouts, x, y);
      if hit.Some? {
        var l := scene.layouts[hit.value];
        selected := hit;
        dragging := true;
        dragOffset := (x - l.x, y - l.y);
      } else {
        selected := None;
      }
    }

    /**
     * `handleCanvasMouseMove`: while dragging, the selected layer's centre
     * follows the mouse at the recorded offset. Returns false when the
     * selected sticker's layout was wiped by a size change (`TypeError`).
     */
    method MouseMove(clientX: real, clientY: real, rect: ClientRect) returns (ok: bool)
      requires Valid() && rect.width > 0.0 && rect.height > 0.0
      modifies this
      ensures Valid() && SettingsUnchanged()
      ensures scene.stickers == old(scene.stickers) && scene.counter == old(scene.counter) && selected == old(selected)
      ensures dragging == old(dragging) && dragOffset == old(dragOffset)
      ensures !ok <==> dragging && selected.Some? && selected.value !in old(scene.layouts)
      ensures var x, y := MouseX(clientX, rect), MouseY(clientY, rect);
              var before := old(scene.layouts);
              if ok && dragging && selected.Some?
              then scene.layouts == before[selected.value := before[selected.value].(x := x - dragOffset.0, y := y - dragOffset.1)]
              else scene.layouts == before
    {
      if !dragging || selected.None? {
        return true;
      }
      var x, y := MouseX(clientX, rect), MouseY(clientY, rect);
      var id := selected.value;
      if id !in scene.layouts {
        return false;
      }
      var l := scene.layouts[id];
      scene := WithLayout(scene, id, l.(x := x - dragOffset.0, y := y - dragOffset.1));
      return true;
    }

    /** `handleCanvasMouseUp`: dragging stops; the selection stays. */
    method MouseUp()
      requires Valid()
      modifies this
      ensures Valid() && SettingsUnchanged()
      ensures !dragging && dragOffset == old(dragOffset)
      ensures scene == old(scene) && selected == old(selected)
    {
      dragging := false;
    }

    /**
     * `deleteSticker(id)`: a sticker loses its layout and its place in the
     * list, and the selection if it had it; any other id is refused.
     */
    method DeleteSticker(id: LayerId)
      requires Valid()
      modifies this
      ensures Valid() && SettingsUnchanged()
      ensures scene.counter == old(scene.counter) && dragging == old(dragging) && dragOffset == old(dragOffset)
      ensures if id.Sticker?
              then scene.layouts == old(scene.layouts) - {id} && scene.stickers == Without(old(scene.stickers), id) &&
                   selected == (if old(selected) == Some(id) then None else old(selected))
              else scene == old(scene) && selected == old(selected)
    {
      if !id.Sticker? {
        return;
      }
      scene := WithoutSticker(scene, id);
      if selected == Some(id) {
        selected := None;
      }
    }

    /**
     * `handleKeyDown(e)`: q/e rotate the selected layer by 15 degrees,
     * +/- zoom it, r resets its angle and zoom; Delete or Backspace deletes
     * a selected sticker and, on a fixed layer, resets its angle to 0 and
     * its zoom to the size's starting value. Without a selection nothing happens.
     */
    method KeyDown(key: string) returns (outcome: KeyOutcome)
      requires Valid()
      modifies this
      ensures Valid() && SettingsUnchanged()
      ensures scene.counter == old(scene.counter) && dragging == old(dragging) && dragOffset == old(dragOffset)
      ensures var a, before := ActionOf(key), old(scene);
              match old(selected)
              case None =>
                outcome == Ignored && scene == before && selected == None
              case Some(id) =>
                if a == NoAction then
                  outcome == Ignored && scene == before && selected == old(selected)
                else if a == Remove && id.Sticker? then
                  outcome == Applied && scene.layouts == before.layouts - {id} &&
                  scene.stickers == Without(before.stickers, id) && selected == None
                else if a == Remove then
                  outcome == Applied && scene.stickers == before.stickers && selected == old(selected) &&
                  scene.layouts == before.layouts[id := before.layouts[id].(rotation := 0, scale := FixedScale(size))]
                else if id !in before.layouts then
                  outcome == Threw && scene == before && selected == old(selected)
                else
                  outcome == Applied && scene.stickers == before.stickers && selected == old(selected) &&
                  scene.layouts == before.layouts[id := Transformed(id, before.layouts[id], a)]
    {
      if selected.None? {
        return Ignored;
      }
      var id := selected.value;
      var a := ActionOf(key);
      if a == NoAction {
        return Ignored;
      }
      if a == Remove {
        if id.Sticker? {
          DeleteSticker(id);
        } else {
          var l := scene.layouts[id].(rotation := 0, scale := FixedScale(size));
          assert OnGrid(0);
          scene := WithLayout(scene, id, l);
        }
        return Applied;
      }
      if id !in scene.layouts {
        return Threw;
      }
      var l := scene.layouts[id];
      TransformedOk(id, l, a);
      scene := WithLayout(scene, id, Transformed(id, l, a));
      return Applied;
    }

    /**
     * The sticker image has loaded (`handleStickerUpload`): sticker number
     * counter + 1 appears at the centre of the canvas, unzoomed and
     * unrotated, on top of the list, and becomes the selection.
     */
    method AddSticker() returns (id: LayerId)
      requires Valid()
      modifies this
      ensures Valid() && SettingsUnchanged()
      ensures id == Sticker(old(scene.counter) + 1) && id !in old(scene.stickers) && id !in old(scene.layouts)
      ensures scene.counter == old(scene.counter) + 1 && scene.stickers == old(scene.stickers) + [id]
      ensures scene.layouts == old(scene.layouts)[id := Layout(Width(size) / 2.0, Height(size) / 2.0, 1.0, 0)]
      ensures selected == Some(id) && dragging == old(dragging) && dragOffset == old(dragOffset)
    {
      scene := WithSticker(scene, Width(size) / 2.0, Height(size) / 2.0);
      id := Sticker(scene.counter);
      selected := Some(id);
    }

    /**
     * `resetLayout`, with the user's answer to the confirmation: the custom
     * background, the stickers, the counter and the selection go, the
     * opacity returns to 1 and the preset to blank, and the fixed layers
     * return to their starting places.
     */
    method ResetLayout(confirmed: bool)
      requires Valid()
      modifies this
      ensures Valid()
      ensures !confirmed ==> scene == old(scene) && selected == old(selected) && customBackground == old(customBackground) &&
                             backgroundOpacity == old(backgroundOpacity) && background == old(background)
      ensures confirmed ==> scene == SceneData(InitialLayouts(size), [], 0) && selected == None &&
                            !customBackground && backgroundOpacity == 1.0 && background == "blank"
      ensures size == old(size) && dragging == old(dragging) && dragOffset == old(dragOffset)
      ensures gradientAngle == old(gradientAngle) && draggingAngle == old(draggingAngle)
    {
      if confirmed {
        customBackground := false;
        backgroundOpacity := 1.0;
        scene := FreshScene(size);
        selected := None;
        background := "blank";
      }
    }

    /** The dial's press timer fires: dragging the angle starts at the mouse's place. */
    method AngleDragStart(clientX: real, rectLeft: real, rectWidth: real)
      requires Valid() && rectWidth > 0.0
      modifies this
      ensures Valid()
      ensures draggingAngle && gradientAngle == AngleFromPosition(clientX, rectLeft, rectWidth)
      ensures scene == old(scene) && selected == old(selected) && dragging == old(dragging) && dragOffset == old(dragOffset)
      ensures BackgroundKept()
    {
      draggingAngle := true;
      gradientAngle := AngleFromPosition(clientX, rectLeft, rectWidth);
    }

    /** A mouse move anywhere on the page: while the angle is dragged it follows the mouse. */
    method AngleDragMove(clientX: real, rectLeft: real, rectWidth: real)
      requires Valid() && rectWidth > 0.0
      modifies this
      ensures Valid() && draggingAngle == old(draggingAngle)
      ensures gradientAngle == if draggingAngle then AngleFromPosition(clientX, rectLeft, rectWidth) else old(gradientAngle)
      ensures scene == old(scene) && selected == old(selected) && dragging == old(dragging) && dragOffset == old(dragOffset)
      ensures BackgroundKept()
    {
      if draggingAngle {
        gradientAngle := AngleFromPosition(clientX, rectLeft, rectWidth);
      }
    }

    /** The mouse button is released: angle dragging stops. */
    method AngleDragEnd()
      requires Valid()
      modifies this
      ensures Valid() && !draggingAngle && gradientAngle == old(gradientAngle)
      ensures scene == old(scene) && selected == old(selected) && dragging == old(dragging) && dragOffset == old(dragOffset)
      ensures BackgroundKept()
    {
      draggingAngle := false;
    }

    /** The angle input loses focus with `parseInt` of its text (None for NaN). */
    method AngleInputBlur(parsed: Option<int>)
      requires Valid()
      modifies this
      ensures Valid() && gradientAngle == AngleFromInput(parsed, old(gradientAngle))
      ensures draggingAngle == old(draggingAngle)
      ensures scene == old(scene) && selected == old(selected) && dragging == old(dragging) && dragOffset == old(dragOffset)
      ensures BackgroundKept()
    {
      gradientAngle := AngleFromInput(parsed, gradientAngle);
    }

    /**
     * `generateAnimatedBackground`, told whether GIF.js is loaded. Without
     * it nothing is encoded and nothing changes. Otherwise the selection is
     * cleared so no frame shows its box, 30 frames are added over the
     * current backdrop and rendering starts; `previous` is the selection to restore when rendering ends.
     */
    method Export(gifLoaded: bool) returns (gif: Encoder?<Scene>, previous: Option<LayerId>)
      requires Valid()
      modifies this
      ensures Valid() && SettingsUnchanged()
      ensures scene == old(scene) && dragging == old(dragging) && dragOffset == old(dragOffset)
      ensures gif == null <==> !gifLoaded
      ensures gif == null ==> selected == old(selected)
      ensures gif != null ==> fresh(gif) && gif.frames == ExportFrames(BackdropOf(customBackground, backgroundOpacity, background), scene.layouts, None) && gif.rendering &&
                              selected == None && previous == old(selected)
    {
      previous := selected;
      if !gifLoaded {
        return null, previous;
      }
      selected := None;
      gif := new Encoder<Scene>();
      for frame := 0 to FrameCount
        modifies gif
        invariant fresh(gif) && !gif.rendering
        invariant gif.frames == ExportFrames(BackdropOf(customBackground, backgroundOpacity, background), scene.layouts, None)[..frame]
      {
        gif.AddFrame(Scene(frame, BackdropOf(customBackground, backgroundOpacity, background), scene.layouts, selected), FrameDelay);
      }
      gif.Render();
    }

    /** The GIF's `finished` event: the selection captured by the export comes back. */
    method ExportFinished(previous: Option<LayerId>)
      requires Valid()
      modifies this
      ensures Valid() && SettingsUnchanged() && selected == previous
      ensures scene == old(scene) && dragging == old(dragging) && dragOffset == old(dragOffset)
    {
      selected := previous;
    }
  }
}
