/*
 * The document embedding widget: which viewer an element gets
 * (`getFileType`, `createViewerByType`, `createViewer`), the collapsible
 * container around it (`createContainer`) and the chain of online viewers
 * an Office file falls through until one loads (`createOfficeViewer`).
 */
module DocViewer {
  import opened Wrappers
  import opened JsText
  import opened ViewerCatalog

  // ---------------------------------------------------------------------
  // getFileType
  // ---------------------------------------------------------------------

  /** The extensions the type table lists; each maps to itself. */
  const KnownTypes: set<string> := {"pdf", "doc", "docx", "xls", "xlsx", "ppt", "pptx", "txt", "other"}

  /**
   * What the type table gives back: one of its own strings, or, for an
   * extension that names an `Object.prototype` member, that member, which
   * is not a string at all.
   */
  datatype FileType = Named(name: string) | PrototypeMember(key: string)

  /** `getAttribute`: the value, or nothing when the attribute is absent. */
  function Attr(attrs: map<string, string>, name: string): Option<string> {
    if name in attrs then Some(attrs[name]) else None
  }

  /** `value` is a non-empty string, what `if (!value)` and `value || …` test. */
  predicate Truthy(value: Option<string>) {
    value.Some? && value.value != ""
  }

  /** `getFileType(url)`: the lower-cased text after the last '.', looked up in the type table. */
  function GetFileType(url: Option<string>): (r: FileType)
    ensures r.Named? ==> r.name in KnownTypes || r.name == "unknown"
    ensures r.PrototypeMember? ==> r.key == "constructor" || r.key == "__proto__"
    ensures !Truthy(url) ==> r == Named("unknown")
  {
    if !Truthy(url) then Named("unknown")
    else
      var ext := AsciiLower(LastSegment(url.value, '.'));
      if ext in KnownTypes then Named(ext)
      else if ext == "constructor" || ext == "__proto__" then PrototypeMember(ext)
      else Named("unknown")
  }

  /** The type of `stem.ext` is decided by `ext` alone, whatever the stem holds. */
  lemma FileTypeOfExtension(stem: string, ext: string)
    requires '.' !in ext
    ensures var e := AsciiLower(ext);
            GetFileType(Some(stem + "." + ext)) ==
              if e in KnownTypes then Named(e)
              else if e == "constructor" || e == "__proto__" then PrototypeMember(e)
              else Named("unknown")
  {
    LastSegmentAfter(stem, '.', ext);
  }

  /** An address without a '.' is looked up as a whole. */
  lemma FileTypeWithoutDot(url: string)
    requires url != "" && '.' !in url
    ensures GetFileType(Some(url)) == GetFileType(Some("." + url))
  {
    LastSegmentWhole(url, '.');
    LastSegmentAfter([], '.', url);
  }

  // ---------------------------------------------------------------------
  // createViewerByType
  // ---------------------------------------------------------------------

  datatype OfficeKind = Word | Excel | PowerPoint

  datatype ViewerKind = PdfViewer | OfficeViewer(kind: OfficeKind) | TextViewer

  /** The `type` argument `createOfficeViewer` passes on. */
  function OfficeTypeName(k: OfficeKind): (s: string)
    ensures s in {"word", "excel", "powerpoint"}
  {
    match k
    case Word => "word"
    case Excel => "excel"
    case PowerPoint => "powerpoint"
  }

  /** `createViewerByType`: the viewer for a type, nothing for `other` and anything unlisted. */
  function ViewerKindFor(fileType: string): (r: Option<ViewerKind>)
    ensures r.Some? ==> AsciiLower(fileType) in KnownTypes - {"other"}
    ensures AsciiLower(fileType) in KnownTypes - {"other"} ==> r.Some?
  {
    var t := AsciiLower(fileType);
    if t == "pdf" then Some(PdfViewer)
    else if t == "doc" || t == "docx" then Some(OfficeViewer(Word))
    else if t == "xls" || t == "xlsx" then Some(OfficeViewer(Excel))
    else if t == "ppt" || t == "pptx" then Some(OfficeViewer(PowerPoint))
    else if t == "txt" then Some(TextViewer)
    else None
  }

  lemma LowerTwice(s: string)
    ensures AsciiLower(AsciiLower(s)) == AsciiLower(s)
  {
  }

  /**
   * Every type `getFileType` names gets a viewer except `other` and
   * `unknown`; which viewer follows the extension's family.
   */
  lemma DetectedTypeViewer(url: Option<string>)
    requires GetFileType(url).Named?
    ensures var t := GetFileType(url).name;
            (ViewerKindFor(t).Some? <==> t != "other" && t != "unknown") &&
            (t in {"doc", "docx"} ==> ViewerKindFor(t) == Some(OfficeViewer(Word))) &&
            (t in {"xls", "xlsx"} ==> ViewerKindFor(t) == Some(OfficeViewer(Excel))) &&
            (t in {"ppt", "pptx"} ==> ViewerKindFor(t) == Some(OfficeViewer(PowerPoint))) &&
            (t == "pdf" ==> ViewerKindFor(t) == Some(PdfViewer)) &&
            (t == "txt" ==> ViewerKindFor(t) == Some(TextViewer))
  {
    var t := GetFileType(url).name;
    if t != "unknown" {
      LowerTwice(LastSegment(url.value, '.'));
    } else {
      AsciiLowerIdentity(t);
    }
    KindOfKnown(t);
  }

  /** The viewer families of the lower-case types the table names, and of `unknown`. */
  lemma KindOfKnown(t: string)
    requires AsciiLower(t) == t && (t in KnownTypes || t == "unknown")
    ensures (ViewerKindFor(t).Some? <==> t != "other" && t != "unknown") &&
            (t in {"doc", "docx"} ==> ViewerKindFor(t) == Some(OfficeViewer(Word))) &&
            (t in {"xls", "xlsx"} ==> ViewerKindFor(t) == Some(OfficeViewer(Excel))) &&
            (t in {"ppt", "pptx"} ==> ViewerKindFor(t) == Some(OfficeViewer(PowerPoint))) &&
            (t == "pdf" ==> ViewerKindFor(t) == Some(PdfViewer)) &&
            (t == "txt" ==> ViewerKindFor(t) == Some(TextViewer))
  {
  }

  // ---------------------------------------------------------------------
  // createViewer
  // ---------------------------------------------------------------------

  /** What a viewer container holds. */
  datatype Content = PdfFrame(src: string) | OfficeFrames(viewers: seq<Viewer>) | TextPane(url: string)

  /** What `createViewer` appends to the element. */
  datatype Mounted =
    | ViewerBox(title: string, height: string, content: Content)
    | TitleOnlyBox(title: string)
    | DownloadLink(url: string, title: string)

  /** What `createViewer` does once the element is marked. */
  datatype MountPlan = MissingFileUrl | Throws | Mount(mounted: Mounted)

  const Marker := "data-doc-viewer-initialized"

  /** `getAttribute(name) || fallback` */
  function AttrOr(attrs: map<string, string>, name: string, fallback: string): string {
    if Truthy(Attr(attrs, name)) then attrs[name] else fallback
  }

  /** `getAttribute('data-file-type') || getFileType(fileUrl)` */
  function DeclaredFileType(attrs: map<string, string>): FileType {
    var declared := Attr(attrs, "data-file-type");
    if Truthy(declared) then Named(declared.value) else GetFileType(Attr(attrs, "data-file-url"))
  }

  /**
   * The decision `createViewer` takes on an unmarked element: stop when
   * the address is missing; throw where `toLowerCase` meets a
   * non-string type or building the WPS address throws; otherwise mount
   * a viewer, a bare title bar for `other`, or a download link.
   */
  function PlanViewer(attrs: map<string, string>, encode: string -> string): (p: MountPlan)
    ensures p == MissingFileUrl <==> !Truthy(Attr(attrs, "data-file-url"))
  {
    var url := Attr(attrs, "data-file-url");
    if !Truthy(url) then MissingFileUrl
    else
      match DeclaredFileType(attrs)
      case PrototypeMember(_) => Throws
      case Named(t) =>
        PlanForType(url.value, AttrOr(attrs, "data-title", DefaultTitle), AttrOr(attrs, "data-height", DefaultHeight), t, encode)
  }

  /** The height and title an element gets when it does not set them. */
  const DefaultHeight := "600px"
  const DefaultTitle := "文档预览"

  /** What `createViewer` mounts for an address whose type is the string `t`. */
  function PlanForType(url: string, title: string, height: string, t: string, encode: string -> string): (p: MountPlan)
    ensures p != MissingFileUrl
  {
    match ViewerKindFor(t)
    case Some(PdfViewer) => Mount(ViewerBox(title, height, PdfFrame(url)))
    case Some(TextViewer) => Mount(ViewerBox(title, height, TextPane(url)))
    case Some(OfficeViewer(k)) =>
      (match GetOptimizedViewers(url, OfficeTypeName(k), encode)
       case None => Throws
       case Some(vs) => Mount(ViewerBox(title, height, OfficeFrames(vs))))
    case None =>
      if AsciiLower(t) == "other" then Mount(TitleOnlyBox(title))
      else Mount(DownloadLink(url, title))
  }

  /** An element with only an address uses the default title and height and guesses the type. */
  lemma OnlyAddressDefaults(url: string)
    ensures var attrs := map["data-file-url" := url];
            Attr(attrs, "data-file-url") == Some(url) &&
            AttrOr(attrs, "data-height", DefaultHeight) == DefaultHeight &&
            AttrOr(attrs, "data-title", DefaultTitle) == DefaultTitle &&
            DeclaredFileType(attrs) == GetFileType(Some(url))
  {
  }

  /** What the plan mounts for a type that is a string. */
  lemma PlanOfNamedType(attrs: map<string, string>, t: string, encode: string -> string)
    requires Truthy(Attr(attrs, "data-file-url")) && DeclaredFileType(attrs) == Named(t)
    ensures var url, e := attrs["data-file-url"], AsciiLower(t);
            var title, height := AttrOr(attrs, "data-title", DefaultTitle), AttrOr(attrs, "data-height", DefaultHeight);
            var p := PlanViewer(attrs, encode);
            (e == "pdf" ==> p == Mount(ViewerBox(title, height, PdfFrame(url)))) &&
            (e == "txt" ==> p == Mount(ViewerBox(title, height, TextPane(url)))) &&
            (e == "other" ==> p == Mount(TitleOnlyBox(title))) &&
            (e !in KnownTypes ==> p == Mount(DownloadLink(url, title)))
  {
    var e := AsciiLower(t);
    if e == "pdf" {
      assert ViewerKindFor(t) == Some(PdfViewer);
    } else if e == "txt" {
      assert ViewerKindFor(t) == Some(TextViewer);
    } else if e == "other" || e !in KnownTypes {
      assert ViewerKindFor(t) == None;
    }
  }

  /**
   * An element carrying only `data-file-url="stem.ext"` gets the viewer of
   * its extension under the default title and height.
   */
  lemma PlanKnownExtension(stem: string, ext: string, encode: string -> string)
    requires '.' !in ext && AsciiLower(ext) in KnownTypes
    ensures var url := stem + "." + ext;
            var e := AsciiLower(ext);
            var p := PlanViewer(map["data-file-url" := url], encode);
            (e == "pdf" ==> p == Mount(ViewerBox(DefaultTitle, DefaultHeight, PdfFrame(url)))) &&
            (e == "txt" ==> p == Mount(ViewerBox(DefaultTitle, DefaultHeight, TextPane(url)))) &&
            (e == "other" ==> p == Mount(TitleOnlyBox(DefaultTitle)))
  {
    var url := stem + "." + ext;
    OnlyAddressDefaults(url);
    FileTypeOfExtension(stem, ext);
    LowerTwice(ext);
    PlanOfNamedType(map["data-file-url" := url], AsciiLower(ext), encode);
  }

  /** An extension the table does not list gets a download link instead. */
  lemma PlanUnknownExtension(stem: string, ext: string, encode: string -> string)
    requires '.' !in ext
    requires AsciiLower(ext) !in KnownTypes && AsciiLower(ext) != "constructor" && AsciiLower(ext) != "__proto__"
    ensures var url := stem + "." + ext;
            PlanViewer(map["data-file-url" := url], encode) == Mount(DownloadLink(url, DefaultTitle))
  {
    var url := stem + "." + ext;
    OnlyAddressDefaults(url);
    FileTypeOfExtension(stem, ext);
    AsciiLowerIdentity("unknown");
    PlanOfNamedType(map["data-file-url" := url], "unknown", encode);
  }

  /** A file named `x.constructor` or `x.__proto__` makes the widget throw. */
  lemma PlanPrototypeExtension(stem: string, ext: string, encode: string -> string)
    requires '.' !in ext && AsciiLower(ext) in {"constructor", "__proto__"}
    ensures PlanViewer(map["data-file-url" := stem + "." + ext], encode) == Throws
  {
    var attrs := map["data-file-url" := stem + "." + ext];
    OnlyAddressDefaults(stem + "." + ext);
    FileTypeOfExtension(stem, ext);
    PlanOfPrototypeMember(attrs, encode);
  }

  /** `toLowerCase` on a type that is not a string throws. */
  lemma PlanOfPrototypeMember(attrs: map<string, string>, encode: string -> string)
    requires Truthy(Attr(attrs, "data-file-url")) && DeclaredFileType(attrs).PrototypeMember?
    ensures PlanViewer(attrs, encode) == Throws
  {
  }

  /**
   * A Word, Excel or PowerPoint file on an ordinary host is offered to
   * WPS first, then Google, Microsoft, Office365 and Tencent.
   */
  lemma PlanOfficeOrder(attrs: map<string, string>, encode: string -> string, k: OfficeKind)
    requires Truthy(Attr(attrs, "data-file-url"))
    requires DeclaredFileType(attrs).Named? && ViewerKindFor(DeclaredFileType(attrs).name) == Some(OfficeViewer(k))
    requires var url := attrs["data-file-url"];
             !IsWpsLink(url) && !IsTencentLink(url) && !IsMsLink(url)
    ensures PlanViewer(attrs, encode).Mount?
    ensures var m := PlanViewer(attrs, encode).mounted;
            m.ViewerBox? && m.content.OfficeFrames? &&
            Ids(m.content.viewers) == [WpsCloud, GoogleDocs, MsOfficeView, Office365Embed, TencentDocs]
  {
    var url, t := attrs["data-file-url"], OfficeTypeName(k);
    OfficeKindsOrder(url, t, encode);
    var vs := GetOptimizedViewers(url, t, encode).value;
    PlanOfOffice(attrs, encode, k);
    assert PlanViewer(attrs, encode).mounted == ViewerBox(AttrOr(attrs, "data-title", DefaultTitle), AttrOr(attrs, "data-height", DefaultHeight), OfficeFrames(vs));
  }

  /** The plan for an office type: the viewers `getOptimizedViewers` lists, or a throw. */
  lemma PlanOfOffice(attrs: map<string, string>, encode: string -> string, k: OfficeKind)
    requires Truthy(Attr(attrs, "data-file-url"))
    requires DeclaredFileType(attrs).Named? && ViewerKindFor(DeclaredFileType(attrs).name) == Some(OfficeViewer(k))
    ensures var title, height := AttrOr(attrs, "data-title", DefaultTitle), AttrOr(attrs, "data-height", DefaultHeight);
            match GetOptimizedViewers(attrs["data-file-url"], OfficeTypeName(k), encode)
            case None => PlanViewer(attrs, encode) == Throws
            case Some(vs) => PlanViewer(attrs, encode) == Mount(ViewerBox(title, height, OfficeFrames(vs)))
  {
    var t := DeclaredFileType(attrs).name;
    assert PlanViewer(attrs, encode) ==
      PlanForType(attrs["data-file-url"], AttrOr(attrs, "data-title", DefaultTitle), AttrOr(attrs, "data-height", DefaultHeight), t, encode);
  }

  /** On an ordinary host the office kinds get WPS, Google, Microsoft, Office365 and Tencent. */
  lemma OfficeKindsOrder(url: string, t: string, encode: string -> string)
    requires t in {"word", "excel", "powerpoint"}
    requires !IsWpsLink(url) && !IsTencentLink(url) && !IsMsLink(url)
    ensures GetOptimizedViewers(url, t, encode).Some?
    ensures Ids(GetOptimizedViewers(url, t, encode).value) == [WpsCloud, GoogleDocs, MsOfficeView, Office365Embed, TencentDocs]
  {
    var wpsUrl := ExternalWpsUrl(url, t, encode);
    GeneralAddress(url, t, encode);
    var all := AllViewers(url, t, wpsUrl, encode);
    AllViewersListed(url, t, wpsUrl, encode);
    WidgetKindsOrder(all, url, t);
  }

  /** An element of the page the widget scans. */
  class Element {
    var attributes: map<string, string>
    var children: seq<Mounted>

    constructor(attributes: map<string, string>)
      ensures this.attributes == attributes && children == []
    {
      this.attributes := attributes;
      children := [];
    }
  }

  datatype CreateOutcome = AlreadyInitialized | StoppedWithoutUrl | ThrewError | Appended

  /**
   * `createViewer(element)`: an element already marked is left alone;
   * otherwise it is marked first and then gets what `PlanViewer` decides.
   */
  method CreateViewer(el: Element, encode: string -> string) returns (outcome: CreateOutcome)
    modifies el
    ensures Marker in old(el.attributes) ==>
              outcome == AlreadyInitialized && el.attributes == old(el.attributes) && el.children == old(el.children)
    ensures Marker !in old(el.attributes) ==> el.attributes == old(el.attributes)[Marker := "true"]
    ensures Marker !in old(el.attributes) ==>
              match PlanViewer(old(el.attributes), encode)
              case MissingFileUrl => outcome == StoppedWithoutUrl && el.children == old(el.children)
              case Throws => outcome == ThrewError && el.children == old(el.children)
              case Mount(m) => outcome == Appended && el.children == old(el.children) + [m]
    ensures Marker in el.attributes
  {
    if Marker in el.attributes {
      return AlreadyInitialized;
    }
    var attrs := el.attributes;
    el.attributes := el.attributes[Marker := "true"];
    var plan := PlanViewer(attrs, encode);
    match plan
    case MissingFileUrl =>
      outcome := StoppedWithoutUrl;
    case Throws =>
      outcome := ThrewError;
    case Mount(m) =>
      el.children := el.children + [m];
      outcome := Appended;
  }

  /** Scanning the page twice adds nothing the second time. */
  method CreateViewerTwice(el: Element, encode: string -> string) returns (first: CreateOutcome, second: CreateOutcome)
    modifies el
    ensures second == AlreadyInitialized
    ensures first == AlreadyInitialized <==> Marker in old(el.attributes)
  {
    first := CreateViewer(el, encode);
    var children := el.children;
    second := CreateViewer(el, encode);
    assert el.children == children;
  }

  // ---------------------------------------------------------------------
  // createContainer: collapsing and expanding
  // ---------------------------------------------------------------------

  /** Where a click on the title bar lands. */
  datatype ClickTarget = ToggleButton | TitleBar | TitleText | DownloadButton | ButtonRow

  /** The clicks that fold or unfold the content. */
  predicate Toggles(target: ClickTarget) {
    target == ToggleButton || target == TitleBar || target == TitleText
  }

  /** The container of a viewer, collapsed to its 45px title bar at first. */
  class Container {
    const height: string
    var collapsed: bool
    var containerHeight: string
    var contentHeight: string
    var toggleGlyph: string
    var downloadsStarted: nat

    /** The styles always match `collapsed`. */
    predicate Valid()
      reads this
    {
      if collapsed then containerHeight == "45px" && contentHeight == "0" && toggleGlyph == "▶"
      else containerHeight == height && contentHeight == "calc(" + height + " - 45px)" && toggleGlyph == "▼"
    }

    constructor(height: string)
      ensures Valid() && collapsed && this.height == height && downloadsStarted == 0
    {
      this.height := height;
      collapsed := true;
      containerHeight := "45px";
      contentHeight := "0";
      toggleGlyph := "▶";
      downloadsStarted := 0;
    }

    /** `toggleCollapse` */
    method Toggle()
      requires Valid()
      modifies this
      ensures Valid() && collapsed == !old(collapsed) && downloadsStarted == old(downloadsStarted)
    {
      collapsed := !collapsed;
      if collapsed {
        contentHeight := "0";
        toggleGlyph := "▶";
        containerHeight := "45px";
      } else {
        contentHeight := "calc(" + height + " - 45px)";
        toggleGlyph := "▼";
        containerHeight := height;
      }
    }

    /**
     * A click in the title bar. The toggle button stops its click from
     * reaching the bar, so it folds once; the bar folds only for clicks on
     * itself or its text; the download button starts a download.
     */
    method Click(target: ClickTarget)
      requires Valid()
      modifies this
      ensures Valid()
      ensures collapsed == (old(collapsed) != Toggles(target))
      ensures downloadsStarted == old(downloadsStarted) + (if target == DownloadButton then 1 else 0)
    {
      if target == DownloadButton {
        downloadsStarted := downloadsStarted + 1;
      } else if Toggles(target) {
        Toggle();
      }
    }
  }

  // ---------------------------------------------------------------------
  // createOfficeViewer: falling through the viewers
  // ---------------------------------------------------------------------

  /** The loading notice over the frame. */
  datatype Notice = Showing(viewerName: string) | FadingOut | Removed

  /**
   * The state `createOfficeViewer` keeps for one Office file. Each attempt
   * (`loadViewer`) clears the box and shows one viewer's frame under a
   * fresh notice; `attempt` numbers the timers it sets. A timer of an
   * earlier attempt acts on a notice that is no longer in the box, so it
   * changes nothing.
   */
  class OfficeViewerChain {
    const viewers: seq<Viewer>
    var index: nat
    var frameSrc: Option<string>
    var notice: Notice
    var hasLoaded: bool
    var timeoutMs: int
    var showingFallback: bool

    predicate Valid()
      reads this
    {
      |viewers| >= 1 && index <= |viewers| &&
      (showingFallback <==> index == |viewers|) &&
      (showingFallback ==> frameSrc.None? && notice == Removed) &&
      (!showingFallback ==>
         frameSrc == Some(viewers[index].url) && timeoutMs == LoadTimeoutMs(viewers[index]) &&
         (notice.Showing? <==> !hasLoaded) &&
         (notice.Showing? ==> notice.viewerName == viewers[index].name))
    }

    /** `loadViewer` for the viewer at `index`. */
    method LoadViewer()
      requires index < |viewers| && |viewers| >= 1
      modifies this
      ensures Valid() && index == old(index) && !showingFallback
      ensures frameSrc == Some(viewers[index].url) && notice == Showing(viewers[index].name) && !hasLoaded
    {
      frameSrc := Some(viewers[index].url);
      notice := Showing(viewers[index].name);
      hasLoaded := false;
      timeoutMs := LoadTimeoutMs(viewers[index]);
      showingFallback := false;
    }

    /** The box starts on the first viewer. */
    constructor(viewers: seq<Viewer>)
      requires |viewers| >= 1
      ensures Valid() && this.viewers == viewers && index == 0
      ensures frameSrc == Some(viewers[0].url) && notice == Showing(viewers[0].name) && !hasLoaded
    {
      this.viewers := viewers;
      index := 0;
      frameSrc := Some(viewers[0].url);
      notice := Showing(viewers[0].name);
      hasLoaded := false;
      timeoutMs := LoadTimeoutMs(viewers[0]);
      showingFallback := false;
    }

    /** `hideLoading`: the first call of an attempt fades its notice out. */
    method HideLoading()
      requires Valid() && !showingFallback
      modifies this
      ensures Valid() && hasLoaded && !showingFallback
      ensures index == old(index) && frameSrc == old(frameSrc) && timeoutMs == old(timeoutMs)
      ensures old(hasLoaded) ==> notice == old(notice)
      ensures !old(hasLoaded) ==> notice == FadingOut
    {
      if notice != Removed && !hasLoaded {
        hasLoaded := true;
        notice := FadingOut;
      }
    }

    /** The frame's `load` event. */
    method FrameLoaded()
      requires Valid() && !showingFallback
      modifies this
      ensures Valid() && hasLoaded && index == old(index) && frameSrc == old(frameSrc)
      ensures old(hasLoaded) ==> notice == old(notice)
      ensures !old(hasLoaded) ==> notice == FadingOut
    {
      HideLoading();
    }

    /** The frame's `error` event: on to the next viewer, or the download notice after the last. */
    method FrameFailed()
      requires Valid() && !showingFallback
      modifies this
      ensures Valid() && index == old(index) + 1
      ensures index < |viewers| ==>
                frameSrc == Some(viewers[index].url) && notice == Showing(viewers[index].name) && !hasLoaded
      ensures index == |viewers| ==> showingFallback
    {
      index := index + 1;
      if index < |viewers| {
        LoadViewer();
      } else {
        frameSrc := None;
        notice := Removed;
        showingFallback := true;
      }
    }

    /**
     * The load timeout (8 or 15 seconds) or the 2-second delay of attempt
     * `attempt` runs out: on the current attempt it hides the notice if
     * nothing has loaded yet.
     */
    method HideTimerFires(attempt: nat)
      requires Valid() && attempt <= index && attempt < |viewers|
      modifies this
      ensures Valid() && index == old(index) && frameSrc == old(frameSrc)
      ensures attempt < old(index) ==> notice == old(notice) && hasLoaded == old(hasLoaded)
      ensures attempt == old(index) ==> hasLoaded
      ensures attempt == old(index) && old(hasLoaded) ==> notice == old(notice)
      ensures attempt == old(index) && !old(hasLoaded) ==> notice == FadingOut
    {
      if attempt == index && !hasLoaded {
        HideLoading();
      }
    }

    /** The 300 ms removal after the fade: the current attempt's faded notice leaves the box. */
    method FadeTimerFires(attempt: nat)
      requires Valid() && attempt <= index && attempt < |viewers|
      modifies this
      ensures Valid() && index == old(index) && frameSrc == old(frameSrc) && hasLoaded == old(hasLoaded)
      ensures notice == (if attempt == old(index) && old(notice) == FadingOut then Removed else old(notice))
    {
      if attempt == index && notice == FadingOut {
        notice := Removed;
      }
    }
  }
}
