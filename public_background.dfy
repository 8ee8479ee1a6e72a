/**
 * The public background editor, the older variant of the theme's: the
 * same layers, keys and stickers, with mouse coordinates taken straight
 * from the page, a Delete key that leaves fixed layers alone, and an
 * export that neither looks for GIF.js nor hides the selection box.
 */
module PublicBackground {
  import opened Wrappers
  import opened JsText
  import opened LayerScene
  import opened GifSink

  class Editor {
    var size: SizePreset
    /** `layoutElements`, `stickers` and `stickerCounter`, kept as one value that keeps the invariant. */
    var scene: ValidScene
    var selected: Option<LayerId>
    var dragging: bool
    var dragOffset: (real, real)
    var customBackground: bool
    var backgroundOpacity: real
    var background: string

    /** The session state none of the layer operations touch. */
    twostate predicate SettingsUnchanged()
      reads this
    {
      size == old(size) && customBackground == old(customBackground) &&
      backgroundOpacity == old(backgroundOpacity) && background == old(background)
    }

    /** `init`: the banner size, its initial layers, no stickers, a blank background. */
    constructor()
      ensures size == Banner && scene == SceneData(InitialLayouts(Banner), [], 0)
      ensures selected == None && !dragging && dragOffset == (0.0, 0.0)
      ensures !customBackground && backgroundOpacity == 1.0 && background == "blank"
    {
      size := Banner;
      scene := FreshScene(Banner);
      selected := None;
      dragging := false;
      dragOffset := (0.0, 0.0);
      customBackground := false;
      backgroundOpacity := 1.0;
      background := "blank";
    }

    /**
     * `handleSizeChange`: the canvas takes the new size and the fixed
     * layers their places on it. Every layout is replaced, so sticker
     * layouts are gone while the stickers stay listed and may stay selected.
     */
    method ChangeSize(newSize: SizePreset)
      modifies this
      ensures size == newSize && scene.layouts == InitialLayouts(newSize)
      ensures scene.stickers == old(scene.stickers) && scene.counter == old(scene.counter) && selected == old(selected)
      ensures dragging == old(dragging) && dragOffset == old(dragOffset)
      ensures customBackground == old(customBackground) && backgroundOpacity == old(backgroundOpacity)
      ensures background == old(background)
    {
      size := newSize;
      scene := Relaid(scene, newSize);
    }

    /** The mouse's position relative to the canvas's top-left corner, not rescaled to canvas pixels. */
    function MouseX(clientX: real, rect: ClientRect): (x: real)
      ensures x + rect.left == clientX
    {
      clientX - rect.left
    }

    function MouseY(clientY: real, rect: ClientRect): (y: real)
      ensures y + rect.top == clientY
    {
      clientY - rect.top
    }

    /**
     * `handleCanvasMouseDown`: select and start dragging the layer under the
     * mouse, recording where on it the mouse took hold, or deselect.
     */
    method MouseDown(clientX: real, clientY: real, rect: ClientRect)
      modifies this
      ensures SettingsUnchanged() && scene == old(scene)
      ensures var x, y := MouseX(clientX, rect), MouseY(clientY, rect);
              var hit := ElementAt(old(scene.stickers), old(scene.layouts), x, y);
              match hit
              case None => selected == None && dragging == old(dragging) && dragOffset == old(dragOffset)
              case Some(id) => id in scene.layouts && selected == hit && dragging &&
                               dragOffset == (x - scene.layouts[id].x, y - scene.layouts[id].y)
    {
      var x, y := MouseX(clientX, rect), MouseY(clientY, rect);
      var hit := ElementAtPosition(scene.stickers, scene.layouts, x, y);
      ElementAtMeaning(scene.stickers, scene.layouts, x, y);
      if hit.Some? {
        var l := scene.layouts[hit.value];
        selected := hit;
        dragging := true;
        dragOffset := (x - l.x, y - l.y);
      } else {
        selected := None;
      }
    }

    /**
     * `handleCanvasMouseMove`: while dragging, the selected layer's centre
     * follows the mouse at the recorded offset. Returns false when the
     * selected sticker's layout was wiped by a size change (`TypeError`).
     */
    method MouseMove(clientX: real, clientY: real, rect: ClientRect) returns (ok: bool)
      modifies this
      ensures SettingsUnchanged()
      ensures scene.stickers == old(scene.stickers) && scene.counter == old(scene.counter) && selected == old(selected)
      ensures dragging == old(dragging) && dragOffset == old(dragOffset)
      ensures !ok <==> dragging && selected.Some? && selected.value !in old(scene.layouts)
      ensures var x, y := MouseX(clientX, rect), MouseY(clientY, rect);
              var before := old(scene.layouts);
              if ok && dragging && selected.Some?
              then scene.layouts == before[selected.value := before[selected.value].(x := x - dragOffset.0, y := y - dragOffset.1)]
              else scene.layouts == before
    {
      if !dragging || selected.None? {
        return true;
      }
      var x, y := MouseX(clientX, rect), MouseY(clientY, rect);
      var id := selected.value;
      if id !in scene.layouts {
        return false;
      }
      var l := scene.layouts[id];
      scene := WithLayout(scene, id, l.(x := x - dragOffset.0, y := y - dragOffset.1));
      return true;
    }

    /** `handleCanvasMouseUp`: dragging stops; the selection stays. */
    method MouseUp()
      modifies this
      ensures SettingsUnchanged()
      ensures !dragging && dragOffset == old(dragOffset)
      ensures scene == old(scene) && selected == old(selected)
    {
      dragging := false;
    }

    /**
     * `deleteSticker(id)`: a sticker loses its layout and its place in the
     * list, and the selection if it had it; any other id is refused.
     */
    method DeleteSticker(id: LayerId)
      modifies this
      ensures SettingsUnchanged()
      ensures scene.counter == old(scene.counter) && dragging == old(dragging) && dragOffset == old(dragOffset)
      ensures if id.Sticker?
              then scene.layouts == old(scene.layouts) - {id} && scene.stickers == Without(old(scene.stickers), id) &&
                   selected == (if old(selected) == Some(id) then None else old(selected))
              else scene == old(scene) && selected == old(selected)
    {
      if !id.Sticker? {
        return;
      }
      scene := WithoutSticker(scene, id);
      if selected == Some(id) {
        selected := None;
      }
    }

    /**
     * `handleKeyDown(e)`: q/e rotate the selected layer by 15 degrees,
     * +/- zoom it, r resets its angle and zoom; Delete or Backspace deletes
     * a selected sticker and does nothing to a fixed layer. Without a
     * selection nothing happens.
     */
    method KeyDown(key: string) returns (outcome: KeyOutcome)
      modifies this
      ensures SettingsUnchanged()
      ensures scene.counter == old(scene.counter) && dragging == old(dragging) && dragOffset == old(dragOffset)
      ensures var a, before := ActionOf(key), old(scene);
              match old(selected)
              case None =>
                outcome == Ignored && scene == before && selected == None
              case Some(id) =>
                if a == NoAction || (a == Remove && !id.Sticker?) then
                  outcome == Ignored && scene == before && selected == old(selected)
                else if a == Remove then
                  outcome == Applied && scene.layouts == before.layouts - {id} &&
                  scene.stickers == Without(before.stickers, id) && selected == None
                else if id !in before.layouts then
                  outcome == Threw && scene == before && selected == old(selected)
                else
                  outcome == Applied && scene.stickers == before.stickers && selected == old(selected) &&
                  scene.layouts == before.layouts[id := Transformed(id, before.layouts[id], a)]
    {
      if selected.None? {
        return Ignored;
      }
      var id := selected.value;
      var a := ActionOf(key);
      if a == NoAction {
        return Ignored;
      }
      if a == Remove {
        if id.Sticker? {
          DeleteSticker(id);
          return Applied;
        }
        return Ignored;
      }
      if id !in scene.layouts {
        return Threw;
      }
      var l := scene.layouts[id];
      TransformedOk(id, l, a);
      scene := WithLayout(scene, id, Transformed(id, l, a));
      return Applied;
    }

    /**
     * The sticker image has loaded (`handleStickerUpload`): sticker number
     * counter + 1 appears at the centre of the canvas, unzoomed and
     * unrotated, on top of the list, and becomes the selection.
     */
    method AddSticker() returns (id: LayerId)
      modifies this
      ensures SettingsUnchanged()
      ensures id == Sticker(old(scene.counter) + 1) && id !in old(scene.stickers) && id !in old(scene.layouts)
      ensures scene.counter == old(scene.counter) + 1 && scene.stickers == old(scene.stickers) + [id]
      ensures scene.layouts == old(scene.layouts)[id := Layout(Width(size) / 2.0, Height(size) / 2.0, 1.0, 0)]
      ensures selected == Some(id) && dragging == old(dragging) && dragOffset == old(dragOffset)
    {
      scene := WithSticker(scene, Width(size) / 2.0, Height(size) / 2.0);
      id := Sticker(scene.counter);
      selected := Some(id);
    }

    /**
     * `resetLayout`, with the user's answer to the confirmation: the custom
     * background, the stickers, the counter and the selection go, the
     * opacity returns to 1 and the preset to blank, and the fixed layers
     * return to their starting places.
     */
    method ResetLayout(confirmed: bool)
      modifies this
      ensures !confirmed ==> scene == old(scene) && selected == old(selected) && customBackground == old(customBackground) &&
                             backgroundOpacity == old(backgroundOpacity) && background == old(background)
      ensures confirmed ==> scene == SceneData(InitialLayouts(size), [], 0) && selected == None &&
                            !customBackground && backgroundOpacity == 1.0 && background == "blank"
      ensures size == old(size) && dragging == old(dragging) && dragOffset == old(dragOffset)
    {
      if confirmed {
        customBackground := false;
        backgroundOpacity := 1.0;
        scene := FreshScene(size);
        selected := None;
        background := "blank";
      }
    }

    /**
     * `generateAnimatedBackground`, told whether GIF.js is loaded. Without
     * it `new GIF` throws and nothing is encoded. Otherwise 30 frames are
     * added, each drawn over the current backdrop and showing the current
     * selection's box, and rendering starts; the selection itself is not
     * touched.
     */
    method Export(gifLoaded: bool) returns (gif: Encoder?<Scene>)
      modifies this
      ensures SettingsUnchanged()
      ensures scene == old(scene) && selected == old(selected) && dragging == old(dragging) && dragOffset == old(dragOffset)
      ensures gif == null <==> !gifLoaded
      ensures gif != null ==> fresh(gif) && gif.frames == ExportFrames(BackdropOf(customBackground, backgroundOpacity, background), scene.layouts, selected) && gif.rendering
    {
      if !gifLoaded {
        return null;
      }
      gif := new Encoder<Scene>();
      for frame := 0 to FrameCount
        modifies gif
        invariant fresh(gif) && !gif.rendering
        invariant gif.frames == ExportFrames(BackdropOf(customBackground, backgroundOpacity, background), scene.layouts, selected)[..frame]
      {
        gif.AddFrame(Scene(frame, BackdropOf(customBackground, backgroundOpacity, background), scene.layouts, selected), FrameDelay);
      }
      gif.Render();
    }
  }
}
