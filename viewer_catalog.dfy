/*
 * The online viewers the document widget tries for an Office file, in the
 * order it tries them (`getOptimizedViewers`), and the address of the WPS
 * cloud viewer (`getWPSViewerUrl`).
 *
 * `encodeURIComponent` is the parameter `encode`.
 */
module ViewerCatalog {
  import opened Wrappers
  import opened JsText
  import opened StableSort
  import opened SearchParams

  datatype ViewerId = GoogleDocs | WpsCloud | MsOfficeView | Office365Embed | TencentDocs

  /** One viewer the widget can load in its frame. */
  datatype Viewer = Viewer(id: ViewerId, name: string, url: string)

  /** The `priority` entry of a viewer the sort reads. */
  datatype PriorityKey = ExcelKey | WordKey | PowerPointKey | DefaultKey

  // ---------------------------------------------------------------------
  // getWPSViewerUrl
  // ---------------------------------------------------------------------

  /** The switches set on a kdocs.cn share link, in the order they are set. */
  const ShareLinkSwitches: seq<Param> := [
    ("embed", "1"), ("toolbar", "0"), ("header", "0"), ("menubar", "0"),
    ("statusbar", "0"), ("editbar", "0"), ("commentbar", "0"), ("chrome", "0"),
    ("widget", "0"), ("navpane", "0")]

  /** The switches set on any other WPS address: the first six of the above. */
  const WpsLinkSwitches: seq<Param> := ShareLinkSwitches[..6]

  /** The address already points into WPS (`includes('kdocs.cn') || includes('wps.cn')`). */
  predicate IsWpsLink(fileUrl: string) {
    Contains(fileUrl, "kdocs.cn") || Contains(fileUrl, "wps.cn")
  }

  /**
   * `wpsTypeMap[type.toLowerCase()] || 'et'`. The map is an object literal,
   * so `constructor` and `__proto__` find `Object` and `Object.prototype`,
   * which the template literal renders as text.
   */
  function WpsType(fileType: string): (t: string)
    ensures '&' !in t && '#' !in t
  {
    var k := AsciiLower(fileType);
    if k in {"excel", "xls", "xlsx"} then "et"
    else if k in {"word", "doc", "docx"} then "wps"
    else if k in {"powerpoint", "ppt", "pptx"} then "wpp"
    else if k == "constructor" then ObjectConstructorText
    else if k == "__proto__" then ObjectPrototypeText
    else "et"
  }

  /** How `Object` and `Object.prototype` turn into text; written in pieces, which keeps their proofs short. */
  const ObjectConstructorText := "function " + "Object() " + "{ [native " + "code] }"
  const ObjectPrototypeText := "[object " + "Object]"

  const PreviewPage := "https://www.kdocs.cn/view"

  /** The query of the kdocs.cn preview page, pair by pair. */
  function PreviewQuery(encodedUrl: string, wpsType: string): seq<Param> {
    [ ("url", encodedUrl), ("type", wpsType), ("mode", "embed"), ("toolbar", "0"),
      ("header", "0"), ("menubar", "0"), ("statusbar", "0"), ("editbar", "0"), ("chrome", "0") ]
  }

  /**
   * The kdocs.cn preview address built for a file hosted elsewhere: the
   * template `https://www.kdocs.cn/view?url=E&type=T&mode=embed&toolbar=0&
   * header=0&menubar=0&statusbar=0&editbar=0&chrome=0`, which is the
   * preview page with the query above written out.
   */
  function ExternalWpsUrl(fileUrl: string, fileType: string, encode: string -> string): string {
    Serialize(Url(PreviewPage, PreviewQuery(encode(fileUrl), WpsType(fileType)), None))
  }

  /** `url` after `new URL(url)` and a `searchParams.set` per switch; nothing if `new URL` throws. */
  function WithSwitches(fileUrl: string, switches: seq<Param>): (r: Option<string>)
    ensures r.Some? <==> HasScheme(fileUrl)
  {
    match Parse(fileUrl)
    case None => None
    case Some(u) => Some(Serialize(u.(params := SetAll(u.params, switches))))
  }

  /**
   * `getWPSViewerUrl(fileUrl, type)`: nothing where it throws, which is
   * exactly when the address is a WPS one that `new URL` rejects.
   */
  function GetWpsViewerUrl(fileUrl: string, fileType: string, encode: string -> string): (r: Option<string>)
    ensures r.None? <==> IsWpsLink(fileUrl) && !HasScheme(fileUrl)
  {
    if Contains(fileUrl, "kdocs.cn/l/") then
      ContainsPrefix(fileUrl, "kdocs.cn/l/", "kdocs.cn");
      WithSwitches(fileUrl, ShareLinkSwitches)
    else if IsWpsLink(fileUrl) then WithSwitches(fileUrl, WpsLinkSwitches)
    else Some(ExternalWpsUrl(fileUrl, fileType, encode))
  }

  /** The names of a switch list are pairwise different. */
  predicate DistinctNames(kvs: seq<Param>) {
    forall i, j :: 0 <= i < j < |kvs| ==> kvs[i].0 != kvs[j].0
  }

  /**
   * Setting the switches on a parsed address: the result reads back as
   * the same head and fragment with the new query, in which every switch
   * holds its value once and the pairs under other names stay in order.
   */
  lemma {:induction false} WithSwitchesMeaning(fileUrl: string, switches: seq<Param>)
    requires DistinctNames(switches)
    requires forall i :: 0 <= i < |switches| ==> PlainParam(switches[i])
    requires HasScheme(fileUrl)
    ensures var u := Parse(fileUrl).value;
            var w := u.(params := SetAll(u.params, switches));
            WithSwitches(fileUrl, switches) == Some(Serialize(w)) &&
            Parse(Serialize(w)) == Some(w) &&
            (forall i :: 0 <= i < |switches| ==> ValuesOf(w.params, switches[i].0) == [switches[i].1]) &&
            Keep(w.params, Names(switches)) == Keep(u.params, Names(switches))
  {
    var u := Parse(fileUrl).value;
    var w := u.(params := SetAll(u.params, switches));
    SetAllPlain(u.params, switches);
    ParseSerialize(w);
    forall i | 0 <= i < |switches| ensures ValuesOf(w.params, switches[i].0) == [switches[i].1] {
      SetAllValues(u.params, switches, i);
    }
    SetAllKeeps(u.params, switches, Names(switches));
  }

  lemma SwitchListsPlain()
    ensures DistinctNames(ShareLinkSwitches) && DistinctNames(WpsLinkSwitches)
    ensures forall i :: 0 <= i < |ShareLinkSwitches| ==> PlainParam(ShareLinkSwitches[i])
    ensures forall i :: 0 <= i < |WpsLinkSwitches| ==> PlainParam(WpsLinkSwitches[i])
  {
    ShareSwitchNamesDistinct();
    ShareSwitchesPlain();
    assert forall i :: 0 <= i < |WpsLinkSwitches| ==> WpsLinkSwitches[i] == ShareLinkSwitches[i];
  }

  lemma ShareSwitchNamesDistinct()
    ensures DistinctNames(ShareLinkSwitches)
  {
  }

  lemma ShareSwitchesPlain()
    ensures forall i :: 0 <= i < |ShareLinkSwitches| ==> PlainParam(ShareLinkSwitches[i])
  {
  }

  /** A kdocs.cn share link gets all ten switches. */
  lemma ShareLinkGetsAllSwitches(fileUrl: string, fileType: string, encode: string -> string)
    requires Contains(fileUrl, "kdocs.cn/l/") && HasScheme(fileUrl)
    ensures var u := Parse(fileUrl).value;
            var w := u.(params := SetAll(u.params, ShareLinkSwitches));
            GetWpsViewerUrl(fileUrl, fileType, encode) == Some(Serialize(w)) &&
            Parse(Serialize(w)) == Some(w) &&
            (forall i :: 0 <= i < |ShareLinkSwitches| ==>
               ValuesOf(w.params, ShareLinkSwitches[i].0) == [ShareLinkSwitches[i].1]) &&
            Keep(w.params, Names(ShareLinkSwitches)) == Keep(u.params, Names(ShareLinkSwitches))
  {
    SwitchListsPlain();
    WithSwitchesMeaning(fileUrl, ShareLinkSwitches);
  }

  /**
   * Another WPS address gets the first six switches; `commentbar`,
   * `chrome`, `widget` and `navpane` keep whatever values it had.
   */
  lemma OtherWpsLinkGetsSixSwitches(fileUrl: string, fileType: string, encode: string -> string)
    requires !Contains(fileUrl, "kdocs.cn/l/") && IsWpsLink(fileUrl) && HasScheme(fileUrl)
    ensures var u := Parse(fileUrl).value;
            var w := u.(params := SetAll(u.params, WpsLinkSwitches));
            GetWpsViewerUrl(fileUrl, fileType, encode) == Some(Serialize(w)) &&
            Parse(Serialize(w)) == Some(w) &&
            (forall i :: 0 <= i < |WpsLinkSwitches| ==>
               ValuesOf(w.params, WpsLinkSwitches[i].0) == [WpsLinkSwitches[i].1]) &&
            (forall i :: 6 <= i < |ShareLinkSwitches| ==>
               ValuesOf(w.params, ShareLinkSwitches[i].0) == ValuesOf(u.params, ShareLinkSwitches[i].0))
  {
    SwitchListsPlain();
    WithSwitchesMeaning(fileUrl, WpsLinkSwitches);
    var u := Parse(fileUrl).value;
    var w := u.(params := SetAll(u.params, WpsLinkSwitches));
    forall i | 6 <= i < |ShareLinkSwitches|
      ensures ValuesOf(w.params, ShareLinkSwitches[i].0) == ValuesOf(u.params, ShareLinkSwitches[i].0)
    {
      var m := ShareLinkSwitches[i].0;
      assert m !in Names(WpsLinkSwitches);
      ValuesOfKeep(w.params, Names(WpsLinkSwitches), m);
      ValuesOfKeep(u.params, Names(WpsLinkSwitches), m);
    }
  }

  /**
   * A file hosted elsewhere goes to the kdocs.cn preview page, whose query
   * carries the encoded address, the WPS document type and the switches,
   * as `toString` writes them back.
   */
  lemma ExternalWpsUrlQuery(fileUrl: string, fileType: string, encode: string -> string)
    requires !IsWpsLink(fileUrl)
    requires '&' !in encode(fileUrl) && '#' !in encode(fileUrl)
    ensures GetWpsViewerUrl(fileUrl, fileType, encode) == Some(ExternalWpsUrl(fileUrl, fileType, encode))
    ensures Parse(ExternalWpsUrl(fileUrl, fileType, encode))
            == Some(Url(PreviewPage, PreviewQuery(encode(fileUrl), WpsType(fileType)), None))
  {
    assert !Contains(fileUrl, "kdocs.cn/l/") by {
      if Contains(fileUrl, "kdocs.cn/l/") {
        ContainsPrefix(fileUrl, "kdocs.cn/l/", "kdocs.cn");
      }
    }
    PreviewWellFormed(encode(fileUrl), WpsType(fileType));
    ParseSerialize(Url(PreviewPage, PreviewQuery(encode(fileUrl), WpsType(fileType)), None));
  }

  lemma PreviewWellFormed(e: string, t: string)
    requires '&' !in e && '#' !in e && '&' !in t && '#' !in t
    ensures WellFormed(Url(PreviewPage, PreviewQuery(e, t), None))
  {
    PreviewPageHead();
    var ps := PreviewQuery(e, t);
    forall i | 0 <= i < |ps| ensures PlainParam(ps[i]) {
      if i >= 2 {
        PreviewSwitchPlain(i);
      }
    }
  }

  lemma PreviewPageHead()
    ensures HasScheme(PreviewPage) && '?' !in PreviewPage && '#' !in PreviewPage
  {
    assert PreviewPage[5] == ':';
  }

  lemma PreviewSwitchPlain(i: nat)
    requires 2 <= i < 9
    ensures PlainParam(PreviewQuery("", "")[i])
  {
  }

  // ---------------------------------------------------------------------
  // getOptimizedViewers
  // ---------------------------------------------------------------------

  predicate IsTencentLink(fileUrl: string) {
    Contains(fileUrl, "docs.qq.com")
  }

  predicate IsMsLink(fileUrl: string) {
    Contains(fileUrl, "office.com") || Contains(fileUrl, "sharepoint.com")
  }

  /**
   * `typeMapping[type.toLowerCase()] || 'default'`. The two keys that find
   * `Object.prototype` members instead select a priority entry no viewer
   * has, so the sort falls back to `default` for them as well.
   */
  function PriorityKeyFor(fileType: string): (key: PriorityKey)
    ensures key == DefaultKey <==> AsciiLower(fileType) !in {"xls", "xlsx", "doc", "docx", "ppt", "pptx"}
  {
    var k := AsciiLower(fileType);
    if k in {"xls", "xlsx"} then ExcelKey
    else if k in {"doc", "docx"} then WordKey
    else if k in {"ppt", "pptx"} then PowerPointKey
    else DefaultKey
  }

  /** `viewer.priority[key] || viewer.priority.default`; lower is tried first. */
  function Priority(id: ViewerId, key: PriorityKey, isWps: bool, isMs: bool, isTencent: bool): (p: int)
    ensures 1 <= p <= 6
  {
    match id
    case GoogleDocs => if key == WordKey || key == PowerPointKey then 2 else 3
    case WpsCloud => if isWps then 1 else 2
    case MsOfficeView => if isMs then 1 else 4
    case Office365Embed => if isMs then 2 else 5
    case TencentDocs => if isTencent then 1 else 6
  }

  /** The display name of each viewer. */
  function ViewerName(id: ViewerId): string {
    match id
    case GoogleDocs => "Google Docs"
    case WpsCloud => "WPS云文档"
    case MsOfficeView => "Microsoft Office"
    case Office365Embed => "Office365嵌入"
    case TencentDocs => "腾讯文档"
  }

  /** The five viewers in the order the `allViewers` literal lists them. */
  function AllViewers(fileUrl: string, fileType: string, wpsUrl: string, encode: string -> string): seq<Viewer> {
    var e := encode(fileUrl);
    [ Viewer(GoogleDocs, ViewerName(GoogleDocs), "https://docs.google.com/gview?url=" + e + "&embedded=true"),
      Viewer(WpsCloud, ViewerName(WpsCloud), wpsUrl),
      Viewer(MsOfficeView, ViewerName(MsOfficeView), "https://view.officeapps.live.com/op/view.aspx?src=" + e),
      Viewer(Office365Embed, ViewerName(Office365Embed), "https://view.officeapps.live.com/op/embed.aspx?src=" + e),
      Viewer(TencentDocs, ViewerName(TencentDocs), "https://docs.qq.com/api/preview?url=" + e + "&type=" + fileType + "&embedded=true") ]
  }

  function Ids(vs: seq<Viewer>): (r: seq<ViewerId>)
    ensures |r| == |vs|
    ensures forall i :: 0 <= i < |vs| ==> r[i] == vs[i].id
  {
    if vs == [] then [] else [vs[0].id] + Ids(vs[1..])
  }

  /** Five viewers, one of each, in the order of the `allViewers` literal. */
  predicate Listed(all: seq<Viewer>) {
    |all| == 5 && all[0].id == GoogleDocs && all[1].id == WpsCloud && all[2].id == MsOfficeView &&
    all[3].id == Office365Embed && all[4].id == TencentDocs
  }

  lemma AllViewersListed(fileUrl: string, fileType: string, wpsUrl: string, encode: string -> string)
    ensures Listed(AllViewers(fileUrl, fileType, wpsUrl, encode))
    ensures AllViewers(fileUrl, fileType, wpsUrl, encode)[1].url == wpsUrl
    ensures forall i :: 0 <= i < 5 ==>
      AllViewers(fileUrl, fileType, wpsUrl, encode)[i].name == ViewerName(AllViewers(fileUrl, fileType, wpsUrl, encode)[i].id)
  {
  }

  /** The sort key for the general case: every host flag is false there. */
  function SortKey(fileType: string): Viewer -> int {
    KeyOf(PriorityKeyFor(fileType))
  }

  /** The priority of each viewer under one entry of the type mapping, no host flag set. */
  function KeyOf(key: PriorityKey): Viewer -> int {
    (v: Viewer) => Priority(v.id, key, false, false, false)
  }

  /** The host checks and the sort of `getOptimizedViewers`, on the five viewers. */
  function OrderViewers(all: seq<Viewer>, fileUrl: string, fileType: string): (r: seq<Viewer>)
    requires Listed(all)
    ensures 1 <= |r| <= 5
  {
    if IsWpsLink(fileUrl) then [all[1]]
    else if IsTencentLink(fileUrl) then [all[4], all[0]]
    else if IsMsLink(fileUrl) then [all[2], all[3], all[0]]
    else SortBy(all, SortKey(fileType))
  }

  /**
   * `getOptimizedViewers(fileUrl, type)`: the viewers to try, in order, or
   * nothing when building the WPS address throws. A WPS, Tencent or
   * Microsoft address gets its own short list; any other is tried on all
   * five, sorted by priority with ties kept in listing order.
   */
  function GetOptimizedViewers(fileUrl: string, fileType: string, encode: string -> string): (r: Option<seq<Viewer>>)
    ensures r.None? <==> GetWpsViewerUrl(fileUrl, fileType, encode).None?
    ensures r.Some? ==> 1 <= |r.value| <= 5
  {
    match GetWpsViewerUrl(fileUrl, fileType, encode)
    case None => None
    case Some(wpsUrl) =>
      var all := AllViewers(fileUrl, fileType, wpsUrl, encode);
      AllViewersListed(fileUrl, fileType, wpsUrl, encode);
      Some(OrderViewers(all, fileUrl, fileType))
  }

  /** A WPS address is shown by the WPS viewer only, on the address built for it. */
  lemma WpsLinkUsesWpsOnly(fileUrl: string, fileType: string, encode: string -> string)
    requires IsWpsLink(fileUrl) && HasScheme(fileUrl)
    ensures var r := GetOptimizedViewers(fileUrl, fileType, encode);
            r.Some? && Ids(r.value) == [WpsCloud] &&
            GetWpsViewerUrl(fileUrl, fileType, encode) == Some(r.value[0].url)
  {
    AllViewersListed(fileUrl, fileType, GetWpsViewerUrl(fileUrl, fileType, encode).value, encode);
  }

  /** The short lists for Tencent and Microsoft addresses. */
  lemma HostListsOrder(all: seq<Viewer>, fileUrl: string, fileType: string)
    requires Listed(all) && !IsWpsLink(fileUrl)
    ensures IsTencentLink(fileUrl) ==>
              Ids(OrderViewers(all, fileUrl, fileType)) == [TencentDocs, GoogleDocs]
    ensures !IsTencentLink(fileUrl) && IsMsLink(fileUrl) ==>
              Ids(OrderViewers(all, fileUrl, fileType)) == [MsOfficeView, Office365Embed, GoogleDocs]
  {
  }

  /** An address outside WPS has its viewers ordered from the external WPS address. */
  lemma GeneralAddress(fileUrl: string, fileType: string, encode: string -> string)
    requires !IsWpsLink(fileUrl)
    ensures GetWpsViewerUrl(fileUrl, fileType, encode) == Some(ExternalWpsUrl(fileUrl, fileType, encode))
    ensures GetOptimizedViewers(fileUrl, fileType, encode)
            == Some(OrderViewers(AllViewers(fileUrl, fileType, ExternalWpsUrl(fileUrl, fileType, encode), encode), fileUrl, fileType))
  {
    assert !Contains(fileUrl, "kdocs.cn/l/") by {
      if Contains(fileUrl, "kdocs.cn/l/") {
        ContainsPrefix(fileUrl, "kdocs.cn/l/", "kdocs.cn");
      }
    }
  }

  /**
   * For any other address the list holds all five viewers, in priority
   * order, and viewers of equal priority stay in listing order.
   */
  lemma GeneralListIsStableSort(all: seq<Viewer>, fileUrl: string, fileType: string)
    requires Listed(all)
    requires !IsWpsLink(fileUrl) && !IsTencentLink(fileUrl) && !IsMsLink(fileUrl)
    ensures var r, key := OrderViewers(all, fileUrl, fileType), SortKey(fileType);
            multiset(r) == multiset(all) && SortedBy(r, key) &&
            forall k :: WithKey(r, key, k) == WithKey(all, key, k)
  {
  }

  /** The order of `viewers` results from a stable sort of `all` by `key`. */
  lemma SortedOrder(all: seq<Viewer>, viewers: seq<Viewer>, key: Viewer -> int)
    requires SortedBy(viewers, key)
    requires forall k :: WithKey(viewers, key, k) == WithKey(all, key, k)
    ensures SortBy(all, key) == viewers
  {
    StableSortUnique(SortBy(all, key), viewers, key);
  }

  /** The type mapping knows none of the kinds the widget asks with. */
  lemma WidgetKindsUseDefault(fileType: string)
    requires fileType in {"word", "excel", "powerpoint"}
    ensures PriorityKeyFor(fileType) == DefaultKey
  {
    AsciiLowerIdentity(fileType);
  }

  /**
   * The widget itself asks with `word`, `excel` or `powerpoint`, which the
   * type mapping does not know: the order is then always WPS, Google,
   * Microsoft, Office365, Tencent.
   */
  lemma WidgetKindsOrder(all: seq<Viewer>, fileUrl: string, fileType: string)
    requires Listed(all)
    requires fileType in {"word", "excel", "powerpoint"}
    requires !IsWpsLink(fileUrl) && !IsTencentLink(fileUrl) && !IsMsLink(fileUrl)
    ensures Ids(OrderViewers(all, fileUrl, fileType))
            == [WpsCloud, GoogleDocs, MsOfficeView, Office365Embed, TencentDocs]
  {
    WidgetKindsUseDefault(fileType);
    DefaultOrder(all);
  }

  /** Under the `default` entry WPS (2) comes before Google (3), the others keep their places. */
  lemma DefaultOrder(all: seq<Viewer>)
    requires Listed(all)
    ensures Ids(SortBy(all, KeyOf(DefaultKey))) == [WpsCloud, GoogleDocs, MsOfficeView, Office365Embed, TencentDocs]
  {
    var key := KeyOf(DefaultKey);
    var g, w, rest := all[0], all[1], all[2..];
    assert all == [g, w] + rest;
    var expected := [w, g] + rest;
    DefaultKeys(expected);
    forall k ensures WithKey(expected, key, k) == WithKey(all, key, k) {
      WithKeySwap(g, w, rest, key, k);
    }
    SortedOrder(all, expected, key);
  }

  /** WPS, Google, Microsoft, Office365 and Tencent are in order of their default priorities. */
  lemma DefaultKeys(s: seq<Viewer>)
    requires |s| == 5 && s[0].id == WpsCloud && s[1].id == GoogleDocs && s[2].id == MsOfficeView
    requires s[3].id == Office365Embed && s[4].id == TencentDocs
    ensures SortedBy(s, KeyOf(DefaultKey))
  {
    var key := KeyOf(DefaultKey);
    forall i | 0 <= i < 5 ensures key(s[i]) == i + 2 {
    }
  }

  /**
   * The file extensions `doc`, `docx`, `ppt` and `pptx` would give Google
   * and WPS the same priority; Google is listed first and stays first.
   */
  lemma WordExtensionOrder(all: seq<Viewer>, fileUrl: string, fileType: string)
    requires Listed(all)
    requires fileType in {"doc", "docx", "ppt", "pptx"}
    requires !IsWpsLink(fileUrl) && !IsTencentLink(fileUrl) && !IsMsLink(fileUrl)
    ensures Ids(OrderViewers(all, fileUrl, fileType))
            == [GoogleDocs, WpsCloud, MsOfficeView, Office365Embed, TencentDocs]
  {
    AsciiLowerIdentity(fileType);
    var pk := PriorityKeyFor(fileType);
    assert pk == WordKey || pk == PowerPointKey;
    ListingOrderKept(all, pk);
  }

  /** Under the Word and PowerPoint entries the listing order is already sorted. */
  lemma ListingOrderKept(all: seq<Viewer>, pk: PriorityKey)
    requires Listed(all) && (pk == WordKey || pk == PowerPointKey)
    ensures SortBy(all, KeyOf(pk)) == all
  {
    assert SortedBy(all, KeyOf(pk));
    SortedOrder(all, all, KeyOf(pk));
  }

  /** `viewers[i].name.includes('WPS')`: the WPS viewer gets the shorter timeout. */
  function LoadTimeoutMs(v: Viewer): (ms: int)
    ensures ms == 8000 || ms == 15000
  {
    if Contains(v.name, "WPS") then 8000 else 15000
  }

  /** Of the five viewers only the WPS one waits 8 seconds; the rest wait 15. */
  lemma TimeoutByViewer(v: Viewer)
    requires v.name == ViewerName(v.id)
    ensures LoadTimeoutMs(v) == (if v.id == WpsCloud then 8000 else 15000)
  {
    if v.id == WpsCloud {
      assert StartsWith(v.name, "WPS");
    } else {
      assert forall i :: 0 <= i < |v.name| ==> v.name[i] != 'W';
      NoWps(v.name);
    }
  }

  /** A name without a `W` does not contain `WPS`. */
  lemma NoWps(name: string)
    requires forall i :: 0 <= i < |name| ==> name[i] != 'W'
    ensures !Contains(name, "WPS")
  {
    if Contains(name, "WPS") {
      ContainsFirst(name, "WPS");
    }
  }
}
