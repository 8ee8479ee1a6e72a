/**
 * The layer scene both background editors share: the layers (the logo, the
 * "LINUX DO" text, the nickname and the uploaded stickers), where each one
 * sits, how large it is, which one the mouse hits, what the keyboard does
 * to a layer, and the cover fit of a custom background.
 */
module LayerScene {
  import opened Wrappers
  import opened JsText
  import opened GifSink

  // ---------------------------------------------------------------------
  // Layers and their names
  // ---------------------------------------------------------------------

  /** A key of `layoutElements`: the three fixed layers and `sticker<n>`. */
  datatype LayerId = Logo | Linuxdo | Nickname | Sticker(n: nat)

  /** The string key the editors use for a layer. */
  function IdName(id: LayerId): string {
    match id
    case Logo => "logo"
    case Linuxdo => "linuxdo"
    case Nickname => "nickname"
    case Sticker(n) => "sticker" + Decimal(n)
  }

  /** `id.startsWith('sticker')` holds exactly for the sticker layers. */
  lemma StickerPrefix(id: LayerId)
    ensures StartsWith(IdName(id), "sticker") <==> id.Sticker?
  {
    match id
    case Logo =>
    case Linuxdo => assert IdName(id)[0] != 's';
    case Nickname => assert IdName(id)[0] != 's';
    case Sticker(n) => assert IdName(id)[..7] == "sticker";
  }

  /** Different layers have different keys, so a map keyed by layer is one keyed by name. */
  lemma IdNameInjective(a: LayerId, b: LayerId)
    requires IdName(a) == IdName(b)
    ensures a == b
  {
    var s := IdName(a);
    if a.Sticker? && b.Sticker? {
      assert s[7..] == Decimal(a.n);
      assert IdName(b)[7..] == Decimal(b.n);
      DecimalInjective(a.n, b.n);
    } else if a.Sticker? || b.Sticker? {
      StickerPrefix(a);
      StickerPrefix(b);
    }
  }

  // ---------------------------------------------------------------------
  // Layouts and sizes
  // ---------------------------------------------------------------------

  /** `{ x, y, scale, rotation }`: the centre of a layer, its zoom and its angle in degrees. */
  datatype Layout = Layout(x: real, y: real, scale: real, rotation: int)

  /** The two entries of `sizeConfig`. */
  datatype SizePreset = Banner | Card

  function Width(size: SizePreset): real {
    if size == Banner then 1067.0 else 600.0
  }

  function Height(size: SizePreset): real {
    if size == Banner then 300.0 else 400.0
  }

  /** The scale the fixed layers start at: smaller on the banner. */
  function FixedScale(size: SizePreset): (s: real)
    ensures 0.2 <= s <= 3.0
  {
    if size == Banner then 0.8 else 1.0
  }

  /** The fixed layers, in the order hit-testing tries them. */
  const FixedLayers: seq<LayerId> := [Nickname, Linuxdo, Logo]

  /**
   * `initializeLayoutElements`: just the three fixed layers, left to right
   * on the vertical centre of the canvas, unrotated, at the preset's scale.
   */
  function InitialLayouts(size: SizePreset): (m: map<LayerId, Layout>)
    ensures m.Keys == {Logo, Linuxdo, Nickname}
    ensures forall id :: id in m ==> 0.0 < m[id].x < Width(size) && m[id].y == Height(size) / 2.0
    ensures m[Logo].x < m[Linuxdo].x < m[Nickname].x
    ensures forall id :: id in m ==> m[id].scale == FixedScale(size) && m[id].rotation == 0
  {
    var w, cy, s := Width(size), Height(size) / 2.0, FixedScale(size);
    map[Logo := Layout(w * 0.1, cy, s, 0), Linuxdo := Layout(w * 0.3, cy, s, 0),
        Nickname := Layout(w * 0.6, cy, s, 0)]
  }

  /** `getElementBounds`: the unscaled box of a layer. */
  function Bounds(id: LayerId): (r: (real, real))
    ensures r.0 > 0.0 && r.1 > 0.0
    ensures id.Sticker? ==> r == (50.0, 50.0)
  {
    match id
    case Logo => (40.0, 40.0)
    case Linuxdo => (120.0, 30.0)
    case Nickname => (100.0, 35.0)
    case Sticker(_) => (50.0, 50.0)
  }

  // ---------------------------------------------------------------------
  // Hit testing
  // ---------------------------------------------------------------------

  /**
   * `isPointInElement`: the layer exists and the point lies in its box,
   * borders included, centred on the layer and scaled by its zoom. The
   * rotation is not taken into account.
   */
  predicate InElement(layouts: map<LayerId, Layout>, id: LayerId, x: real, y: real) {
    id in layouts &&
    var l := layouts[id];
    var hw := Bounds(id).0 / 2.0 * l.scale;
    var hh := Bounds(id).1 / 2.0 * l.scale;
    l.x - hw <= x <= l.x + hw && l.y - hh <= y <= l.y + hh
  }

  /** The order in which `getElementAtPosition` tries the layers: stickers first, in list order. */
  function HitOrder(stickers: seq<LayerId>): seq<LayerId> {
    stickers + FixedLayers
  }

  /** The position of the first candidate that contains the point, or `|cands|`. */
  function FirstHit(cands: seq<LayerId>, layouts: map<LayerId, Layout>, x: real, y: real): (i: nat)
    ensures i <= |cands|
    ensures i < |cands| ==> InElement(layouts, cands[i], x, y)
    ensures forall j :: 0 <= j < i ==> !InElement(layouts, cands[j], x, y)
  {
    if cands == [] then 0
    else if InElement(layouts, cands[0], x, y) then 0
    else 1 + FirstHit(cands[1..], layouts, x, y)
  }

  /** The layer `getElementAtPosition` reports, or `null`. */
  function ElementAt(stickers: seq<LayerId>, layouts: map<LayerId, Layout>, x: real, y: real): Option<LayerId> {
    var c := HitOrder(stickers);
    var i := FirstHit(c, layouts, x, y);
    if i < |c| then Some(c[i]) else None
  }

  /**
   * What the report means: a layer is reported exactly when some candidate
   * contains the point, and then it is the first such candidate, so every
   * sticker wins over the fixed layers and the nickname over the text and
   * the text over the logo.
   */
  lemma ElementAtMeaning(stickers: seq<LayerId>, layouts: map<LayerId, Layout>, x: real, y: real)
    ensures var c := HitOrder(stickers);
            var r := ElementAt(stickers, layouts, x, y);
            (r.None? <==> forall j :: 0 <= j < |c| ==> !InElement(layouts, c[j], x, y)) &&
            (r.Some? ==> exists i :: 0 <= i < |c| && c[i] == r.value && InElement(layouts, c[i], x, y) &&
                                     forall j :: 0 <= j < i ==> !InElement(layouts, c[j], x, y))
  {
    var c := HitOrder(stickers);
    var i := FirstHit(c, layouts, x, y);
    if i < |c| {
      assert c[i] == ElementAt(stickers, layouts, x, y).value;
    }
  }

  /** A sticker containing the point beats every fixed layer. */
  lemma StickerWins(stickers: seq<LayerId>, layouts: map<LayerId, Layout>, x: real, y: real, k: nat)
    requires k < |stickers| && InElement(layouts, stickers[k], x, y)
    ensures var r := ElementAt(stickers, layouts, x, y);
            r.Some? && r.value in stickers
  {
    var c := HitOrder(stickers);
    assert c[k] == stickers[k];
    var i := FirstHit(c, layouts, x, y);
    assert i <= k;
    assert c[i] == stickers[i];
  }

  /**
   * `getElementAtPosition(x, y)`: the stickers in list order, then the
   * nickname, the text and the logo; the first whose box holds the point.
   */
  method ElementAtPosition(stickers: seq<LayerId>, layouts: map<LayerId, Layout>, x: real, y: real)
    returns (r: Option<LayerId>)
    ensures r == ElementAt(stickers, layouts, x, y)
  {
    var c := HitOrder(stickers);
    for k := 0 to |stickers|
      invariant forall j :: 0 <= j < k ==> !InElement(layouts, c[j], x, y)
    {
      if InElement(layouts, stickers[k], x, y) {
        assert c[k] == stickers[k];
        return Some(stickers[k]);
      }
      assert c[k] == stickers[k];
    }
    var fixed := FixedLayers;
    for k := 0 to |fixed|
      invariant forall j :: 0 <= j < |stickers| + k ==> !InElement(layouts, c[j], x, y)
    {
      assert c[|stickers| + k] == fixed[k];
      if InElement(layouts, fixed[k], x, y) {
        return Some(fixed[k]);
      }
    }
    return None;
  }

  // ---------------------------------------------------------------------
  // The sticker list and the scene invariant
  // ---------------------------------------------------------------------

  /** No layer occurs twice. */
  predicate Distinct(s: seq<LayerId>) {
    forall i, j :: 0 <= i < j < |s| ==> s[i] != s[j]
  }

  /** `stickers.filter(s => s.id !== id)` */
  function Without(s: seq<LayerId>, id: LayerId): (r: seq<LayerId>)
    ensures |r| <= |s|
    ensures forall x :: x in r <==> x in s && x != id
    ensures id !in s ==> r == s
  {
    if s == [] then []
    else if s[0] == id then Without(s[1..], id)
    else [s[0]] + Without(s[1..], id)
  }

  /** Filtering keeps the list free of repeats. */
  lemma {:induction false} WithoutDistinct(s: seq<LayerId>, id: LayerId)
    requires Distinct(s)
    ensures Distinct(Without(s, id))
  {
    if s != [] {
      assert Distinct(s[1..]);
      WithoutDistinct(s[1..], id);
      if s[0] != id {
        assert s[0] !in s[1..];
        assert s[0] !in Without(s[1..], id);
      }
    }
  }

  /**
   * What both editors keep true of their layers: the fixed layers are
   * always there, every zoom is allowed and every angle on the grid, a
   * sticker layer belongs to a listed sticker, and the listed stickers
   * are distinct and numbered from 1 up to the counter.
   */
  predicate SceneOk(layouts: map<LayerId, Layout>, stickers: seq<LayerId>, counter: nat) {
    Logo in layouts && Linuxdo in layouts && Nickname in layouts &&
    (forall id :: id in layouts ==> ScaleOk(id, layouts[id].scale) && OnGrid(layouts[id].rotation)) &&
    (forall id :: id in layouts && id.Sticker? ==> id in stickers) &&
    (forall i :: 0 <= i < |stickers| ==> stickers[i].Sticker? && 1 <= stickers[i].n <= counter) &&
    Distinct(stickers)
  }

  /** Placing the fixed layers afresh keeps the scene valid, whatever stickers are listed. */
  lemma InitialSceneOk(size: SizePreset, stickers: seq<LayerId>, counter: nat)
    requires forall i :: 0 <= i < |stickers| ==> stickers[i].Sticker? && 1 <= stickers[i].n <= counter
    requires Distinct(stickers)
    ensures SceneOk(InitialLayouts(size), stickers, counter)
  {
    assert OnGrid(0);
  }

  /** The next sticker number is not taken yet, so the new sticker keeps the list distinct. */
  lemma AddStickerOk(layouts: map<LayerId, Layout>, stickers: seq<LayerId>, counter: nat, x: real, y: real)
    requires SceneOk(layouts, stickers, counter)
    ensures var id := Sticker(counter + 1);
            id !in stickers && id !in layouts &&
            SceneOk(layouts[id := Layout(x, y, 1.0, 0)], stickers + [id], counter + 1)
  {
    var id := Sticker(counter + 1);
    var s := stickers + [id];
    assert forall i :: 0 <= i < |stickers| ==> stickers[i] != id;
    assert forall i :: 0 <= i < |stickers| ==> s[i] == stickers[i];
    assert OnGrid(0);
  }

  /** Deleting a sticker from both the layers and the list keeps the scene valid. */
  lemma DeleteStickerOk(layouts: map<LayerId, Layout>, stickers: seq<LayerId>, counter: nat, id: LayerId)
    requires SceneOk(layouts, stickers, counter) && id.Sticker?
    ensures SceneOk(layouts - {id}, Without(stickers, id), counter)
  {
    WithoutDistinct(stickers, id);
    var r := Without(stickers, id);
    forall i | 0 <= i < |r| ensures r[i].Sticker? && 1 <= r[i].n <= counter {
      assert r[i] in stickers;
    }
  }

  /** Changing one layer's layout keeps the scene valid when the new zoom and angle are allowed. */
  lemma UpdateLayerOk(layouts: map<LayerId, Layout>, stickers: seq<LayerId>, counter: nat, id: LayerId, l: Layout)
    requires SceneOk(layouts, stickers, counter) && id in layouts
    requires ScaleOk(id, l.scale) && OnGrid(l.rotation)
    ensures SceneOk(layouts[id := l], stickers, counter)
  {
  }

  /**
   * An editor's layers as one value: `layoutElements`, the ids in
   * `stickers`, in list order, and `stickerCounter`.
   */
  datatype SceneData = SceneData(layouts: map<LayerId, Layout>, stickers: seq<LayerId>, counter: nat)

  /** The scenes that keep the invariant; an editor's layers always have this type. */
  type ValidScene = s: SceneData | SceneOk(s.layouts, s.stickers, s.counter)
    witness SceneData(InitialLayouts(Banner), [], 0)

  /** The fixed layers at their starting places for a size, and no stickers. */
  function FreshScene(size: SizePreset): ValidScene {
    InitialSceneOk(size, [], 0);
    SceneData(InitialLayouts(size), [], 0)
  }

  /** Every layout replaced by the fixed layers' starting places; the stickers stay listed. */
  function Relaid(s: ValidScene, size: SizePreset): ValidScene {
    InitialSceneOk(size, s.stickers, s.counter);
    SceneData(InitialLayouts(size), s.stickers, s.counter)
  }

  /** One existing layer moved, turned or zoomed to an allowed layout. */
  function WithLayout(s: ValidScene, id: LayerId, l: Layout): ValidScene
    requires id in s.layouts && ScaleOk(id, l.scale) && OnGrid(l.rotation)
  {
    UpdateLayerOk(s.layouts, s.stickers, s.counter, id, l);
    SceneData(s.layouts[id := l], s.stickers, s.counter)
  }

  /** The next sticker, which no layer and no list entry has used yet, at the given centre. */
  function WithSticker(s: ValidScene, x: real, y: real): (r: ValidScene)
    ensures r.counter == s.counter + 1 && r.stickers == s.stickers + [Sticker(r.counter)]
    ensures r.layouts == s.layouts[Sticker(r.counter) := Layout(x, y, 1.0, 0)]
    ensures Sticker(r.counter) !in s.stickers && Sticker(r.counter) !in s.layouts
  {
    AddStickerOk(s.layouts, s.stickers, s.counter, x, y);
    var id := Sticker(s.counter + 1);
    SceneData(s.layouts[id := Layout(x, y, 1.0, 0)], s.stickers + [id], s.counter + 1)
  }

  /** A sticker gone from both the layers and the list. */
  function WithoutSticker(s: ValidScene, id: LayerId): ValidScene
    requires id.Sticker?
  {
    DeleteStickerOk(s.layouts, s.stickers, s.counter, id);
    SceneData(s.layouts - {id}, Without(s.stickers, id), s.counter)
  }

  // ---------------------------------------------------------------------
  // The keyboard
  // ---------------------------------------------------------------------

  /** What a `KeyboardEvent.key` asks of the selected layer. */
  datatype KeyAction = RotateBack | RotateForward | Grow | Shrink | ResetTransform | Remove | NoAction

  /** The `switch (e.key)` of `handleKeyDown`. */
  function ActionOf(key: string): (a: KeyAction)
    ensures a == RotateBack <==> key == "q" || key == "Q"
    ensures a == RotateForward <==> key == "e" || key == "E"
    ensures a == Grow <==> key == "=" || key == "+"
    ensures a == Shrink <==> key == "-" || key == "_"
    ensures a == ResetTransform <==> key == "r" || key == "R"
    ensures a == Remove <==> key == "Delete" || key == "Backspace"
  {
    if key == "q" || key == "Q" then RotateBack
    else if key == "e" || key == "E" then RotateForward
    else if key == "=" || key == "+" then Grow
    else if key == "-" || key == "_" then Shrink
    else if key == "r" || key == "R" then ResetTransform
    else if key == "Delete" || key == "Backspace" then Remove
    else NoAction
  }

  /** `+`: stickers grow without limit, the fixed layers up to 3. */
  function GrowScale(id: LayerId, s: real): (r: real)
    ensures s > 0.0 ==> r > s || r == 3.0
    ensures !id.Sticker? ==> r <= 3.0
  {
    if id.Sticker? then s * 1.1 else if 3.0 < s * 1.1 then 3.0 else s * 1.1
  }

  /** `-`: stickers shrink down to 0.01, the fixed layers down to 0.2. */
  function ShrinkScale(id: LayerId, s: real): (r: real)
    ensures r >= (if id.Sticker? then 0.01 else 0.2)
    ensures s > 0.0 ==> r < s || r == (if id.Sticker? then 0.01 else 0.2)
  {
    var floor := if id.Sticker? then 0.01 else 0.2;
    if floor > s * 0.9 then floor else s * 0.9
  }

  /** The zoom a layer may have: fixed layers between 0.2 and 3, stickers anything positive. */
  predicate ScaleOk(id: LayerId, s: real) {
    if id.Sticker? then s > 0.0 else 0.2 <= s <= 3.0
  }

  /** The angles a layer can reach from 0 in steps of 15 degrees. */
  predicate OnGrid(rotation: int) {
    rotation % 15 == 0 && -360 < rotation < 360
  }

  /** The transform the rotate, zoom and `r` keys give a layer. */
  function Transformed(id: LayerId, l: Layout, a: KeyAction): (t: Layout)
    ensures t.x == l.x && t.y == l.y
    ensures a == NoAction || a == Remove ==> t == l
    ensures a == ResetTransform ==> t.rotation == 0 && t.scale == 1.0
  {
    match a
    case RotateBack => l.(rotation := JsRem360(l.rotation - 15))
    case RotateForward => l.(rotation := JsRem360(l.rotation + 15))
    case Grow => l.(scale := GrowScale(id, l.scale))
    case Shrink => l.(scale := ShrinkScale(id, l.scale))
    case ResetTransform => l.(rotation := 0, scale := 1.0)
    case _ => l
  }

  /** A rotation of 15 degrees either way, taken modulo 360 with the sign kept, stays on the grid. */
  lemma {:induction false} RotateOnGrid(rotation: int, delta: int)
    requires OnGrid(rotation) && (delta == 15 || delta == -15)
    ensures OnGrid(JsRem360(rotation + delta))
  {
    var a := rotation + delta;
    assert a % 15 == 0;
    GridRemainder(a, JsRem360(a));
  }

  /** Taking away a multiple of 360 from a multiple of 15 leaves a multiple of 15. */
  lemma GridRemainder(a: int, r: int)
    requires a % 15 == 0 && (a - r) % 360 == 0
    ensures r % 15 == 0
  {
    var k, m := (a - r) / 360, a / 15;
    assert a - r == 360 * k && a == 15 * m;
    assert r == 15 * (m - 24 * k);
  }

  /** The keys keep every layer's zoom allowed and its angle on the grid. */
  lemma TransformedOk(id: LayerId, l: Layout, a: KeyAction)
    requires ScaleOk(id, l.scale) && OnGrid(l.rotation)
    ensures var t := Transformed(id, l, a);
            ScaleOk(id, t.scale) && OnGrid(t.rotation) && t.x == l.x && t.y == l.y
  {
    if a == RotateBack {
      RotateOnGrid(l.rotation, -15);
    } else if a == RotateForward {
      RotateOnGrid(l.rotation, 15);
    }
  }

  // ---------------------------------------------------------------------
  // Events and export
  // ---------------------------------------------------------------------

  /** `canvas.getBoundingClientRect()`: where the canvas is displayed. */
  datatype ClientRect = ClientRect(left: real, top: real, width: real, height: real)

  /** What a key press came to. */
  datatype KeyOutcome =
    | Ignored   // no selection, or a key the editor does not handle
    | Applied   // the selected layer changed (or was deleted)
    | Threw     // the selected sticker has no layout any more: `element` is undefined

  /**
   * What `drawAnimatedBackground` paints over the white base: the custom
   * image at the chosen opacity, else one of the three animated presets,
   * else nothing.
   */
  datatype Backdrop = CustomImage(opacity: real) | Animated(preset: string) | White

  const AnimatedPresets: set<string> := {"matrix", "gradient", "particles"}

  /** The backdrop the editor's `customBackground`, `backgroundOpacity` and `currentBackground` select. */
  function BackdropOf(custom: bool, opacity: real, preset: string): (b: Backdrop)
    ensures b.CustomImage? <==> custom
    ensures b.CustomImage? ==> b.opacity == opacity
    ensures b.Animated? <==> !custom && preset in AnimatedPresets
    ensures b.Animated? ==> b.preset == preset
  {
    if custom then CustomImage(opacity)
    else if preset == "matrix" || preset == "gradient" || preset == "particles" then Animated(preset)
    else White
  }

  /** What one exported frame shows: the animation step, the backdrop, the layers and the selection box, if any. */
  datatype Scene = Scene(frame: nat, backdrop: Backdrop, layouts: map<LayerId, Layout>, selectionBox: Option<LayerId>)

  /** The export: 30 frames of 100 ms each. */
  const FrameCount: nat := 30
  const FrameDelay: real := 100.0

  /** The frames an export adds, drawn over the given backdrop with the given selection box. */
  function ExportFrames(backdrop: Backdrop, layouts: map<LayerId, Layout>, box: Option<LayerId>): (fs: seq<Frame<Scene>>)
    ensures |fs| == FrameCount
  {
    seq(FrameCount, i requires 0 <= i < FrameCount => Frame(Scene(i, backdrop, layouts, box), FrameDelay))
  }

  /** An export shows each of the 30 steps once, in order, 100 ms apiece, all with the same backdrop, layers and box. */
  lemma ExportFramesShape(backdrop: Backdrop, layouts: map<LayerId, Layout>, box: Option<LayerId>)
    ensures |ExportFrames(backdrop, layouts, box)| == 30
    ensures forall i :: 0 <= i < 30 ==>
              ExportFrames(backdrop, layouts, box)[i].delay == 100.0 &&
              ExportFrames(backdrop, layouts, box)[i].picture.frame == i &&
              ExportFrames(backdrop, layouts, box)[i].picture.backdrop == backdrop &&
              ExportFrames(backdrop, layouts, box)[i].picture.selectionBox == box &&
              ExportFrames(backdrop, layouts, box)[i].picture.layouts == layouts
  {
  }

  /**
   * Two exports give the same frames exactly when they are drawn over the
   * same backdrop, with the same layers and the same selection box: the
   * GIF tells every one of them apart.
   */
  lemma ExportFramesDetermine(d1: Backdrop, l1: map<LayerId, Layout>, b1: Option<LayerId>,
                              d2: Backdrop, l2: map<LayerId, Layout>, b2: Option<LayerId>)
    ensures ExportFrames(d1, l1, b1) == ExportFrames(d2, l2, b2) <==> d1 == d2 && l1 == l2 && b1 == b2
  {
    if ExportFrames(d1, l1, b1) == ExportFrames(d2, l2, b2) {
      assert ExportFrames(d1, l1, b1)[0] == ExportFrames(d2, l2, b2)[0];
    }
  }

  // ---------------------------------------------------------------------
  // Cover fit
  // ---------------------------------------------------------------------

  /** The rectangle an image is drawn into. */
  datatype Rect = Rect(x: real, y: real, width: real, height: real)

  /**
   * `drawImageCover(ctx, img, x, y, width, height)`: an image wider than
   * the target (by aspect ratio) matches its height and is centred
   * horizontally, any other image matches its width and is centred
   * vertically.
   */
  function CoverRect(imgWidth: real, imgHeight: real, x: real, y: real, width: real, height: real): (r: Rect)
    requires imgWidth > 0.0 && imgHeight > 0.0 && width > 0.0 && height > 0.0
    ensures r.width >= width && r.height >= height
    ensures r.width == width || r.height == height
    ensures r.width * imgHeight == r.height * imgWidth
    ensures r.x == x + (width - r.width) / 2.0 && r.y == y + (height - r.height) / 2.0
    ensures r.x <= x && r.y <= y
  {
    var imgRatio := imgWidth / imgHeight;
    var canvasRatio := width / height;
    if imgRatio > canvasRatio then
      CoverWide(imgWidth, imgHeight, width, height);
      Rect(x + (width - height * imgRatio) / 2.0, y, height * imgRatio, height)
    else
      CoverTall(imgWidth, imgHeight, width, height);
      Rect(x, y + (height - width / imgRatio) / 2.0, width, width / imgRatio)
  }

  lemma CoverWide(iw: real, ih: real, w: real, h: real)
    requires iw > 0.0 && ih > 0.0 && w > 0.0 && h > 0.0 && iw / ih > w / h
    ensures h * (iw / ih) >= w
    ensures h * (iw / ih) * ih == h * iw
  {
    var r := iw / ih;
    assert r * ih == iw;
    assert (w / h) * h == w;
    assert h * r > h * (w / h);
  }

  lemma CoverTall(iw: real, ih: real, w: real, h: real)
    requires iw > 0.0 && ih > 0.0 && w > 0.0 && h > 0.0 && !(iw / ih > w / h)
    ensures w / (iw / ih) >= h
    ensures w * ih == w / (iw / ih) * iw
  {
    var r := iw / ih;
    assert r * ih == iw;
    assert r > 0.0;
    assert (w / r) * r == w;
    assert (w / h) * h == w;
    assert r * h <= w;
  }
}
