# blog3 widgets in Dafny

The blog ships three pieces of front-end logic, and this project models them:

- **The document viewer** (`js/documentViewer.js`). It turns every page element that carries a `data-file-url` into a collapsible box. The box shows the file in an embedded viewer: a PDF or image frame, a video, an online office viewer, or a download link. For office files it builds the WPS, Google, Microsoft, Office365 and Tencent viewer addresses. It orders those viewers by host and file type, and offers them one after another until one loads.
- **The background editor** (the theme's and the site's `background-generator.js`). It is a canvas of layers: a logo, a text, a nickname and user stickers. The user drags, rotates, zooms, deletes and resets the layers. The theme version also has a gradient-angle control. An export draws 30 frames into a GIF.
- **The avatar generator** (the theme's and the site's `lstation-generator.js`). It takes a character and a nickname and gates the generate button on both. It lays out three draggable boxes (theme only). It builds a GIF from the character's video and a fading still picture, and names the download.

The modules follow the program's structure:

- `Wrappers`: `Option`.
- `JsText`: the JavaScript string built-ins the code relies on, on `string` or on UTF-16 code units. These are `includes`, `split().pop()`, `toLowerCase`, `trim`, `%`, `Math.round`, `Math.max/min`, `String(n)`, and strings as code units.
- `SearchParams`: the part of the WHATWG URL Standard the viewer uses. This is `new URL`, `URLSearchParams.set` (section 6.2), and `toString`.
- `StableSort`: a stable insertion sort and its uniqueness. JavaScript's `Array.prototype.sort` has been stable since ES2019.
- `ViewerCatalog`: `getOptimizedViewers` and `getWPSViewerUrl`.
- `DocViewer`: `getFileType`, `createViewer`, `createContainer` and the viewer-fallback chain of `createOfficeViewer`.
- `LayerScene`: what both background editors share. That is layer names, initial layouts, hit-testing, key transforms, the scene invariant, cover placement and export frames.
- `ThemeBackground` and `PublicBackground`: each editor as a class whose methods are the event handlers. The editor's `layoutElements`, `stickers` and `stickerCounter` are one field, `scene`. Its type `ValidScene` holds only scenes that keep the scene invariant, so every handler that changes the layers proves the invariant kept.
- `GifSink`: the GIF.js encoder as a black box that records its frames.
- `LstationCommon`, `ThemeLstation` and `PublicLstation`: the avatar generators.

Effects are parameters:

- `encodeURIComponent` is an `encode` function.
- `fetch` and `response.blob()` are a `FetchResult` or a function to one.
- `confirm()` is a boolean.
- Whether GIF.js is loaded is a boolean.
- How each awaited promise settles is a value, limited to the ways the page's code lets it settle (resolved, rejected, or never).
- Timers are events: the method for a timer is called when it fires.
- Canvas drawing is reduced to what each frame shows.

Numbers are mathematical reals and integers. Modelled explicitly:

- JavaScript's truncating `%`;
- `Math.round`;
- and `Math.floor`, which rounds on doubles (`Math.floor(1.2 * 15)` is 18 in IEEE doubles).

## Model

| member | source | states |
|---|---|---|
| JsText.ContainsIff | js/documentViewer.js:1535-1537 | `includes` as scanned agrees with "the text occurs at some index" |
| JsText.ContainsInfix | js/documentViewer.js:1535-1537 | a substring of a middle part is a substring of the whole |
| JsText.ContainsPrefix | js/documentViewer.js:1625 | a text containing `kdocs.cn/l/` contains every prefix of it, e.g. `kdocs.cn` |
| JsText.ContainsFirst | js/documentViewer.js:1535 | a text containing a non-empty substring contains its first character |
| JsText.LastSegment | js/documentViewer.js:526 | `split(sep).pop()` is a suffix free of the separator, preceded by the separator unless it is the whole text |
| JsText.LastSegmentWhole | js/documentViewer.js:526 | with no separator the whole text comes back |
| JsText.LastSegmentAfter | js/documentViewer.js:526 | the segment after a final separator is exactly the tail |
| JsText.AsciiLower | js/documentViewer.js:1601 | `toLowerCase()` as the lookups see it keeps the length |
| JsText.AsciiLowerLowers | js/documentViewer.js:1601 | after lowering no upper-case ASCII letter is left and every other character is as it was |
| JsText.AsciiLowerIdentity | js/documentViewer.js:526 | lowering text with no upper-case ASCII letter changes nothing |
| JsText.JsRem360 | themes/wixo/source/js/background-generator.js:786 | `a % 360` lies strictly between -360 and 360, keeps the sign of `a` and differs from `a` by a multiple of 360 |
| JsText.JsRound | themes/wixo/source/js/lstation-generator.js:856 | `Math.round(x)` is the integer within half a unit of x, halves going up |
| JsText.ClampMaxMin | themes/wixo/source/js/lstation-generator.js:203-204 | `Math.max(lo, Math.min(hi, v))` is at least lo, at most hi unless hi < lo, and v itself when v is in range |
| JsText.DigitChar | themes/wixo/source/js/lstation-generator.js:1152 | a digit renders as the character of its value |
| JsText.Decimal | themes/wixo/source/js/lstation-generator.js:1152 | `String(n)` is a non-empty run of digits, a single digit exactly below 10 |
| JsText.DecimalInjective | themes/wixo/source/js/lstation-generator.js:1152 | different timestamps give different strings |
| JsText.EncodeChar | themes/wixo/source/js/lstation-generator.js:1152 | a character takes one UTF-16 unit in the Basic Multilingual Plane and two outside it |
| JsText.Utf16 | themes/wixo/source/js/lstation-generator.js:1152 | a string is never shorter in UTF-16 units than in characters, and equally long within the BMP |
| JsText.Utf16Bmp | themes/wixo/source/js/lstation-generator.js:1150 | within the BMP each character is the single unit of its own code |
| JsText.TrimStart | themes/wixo/source/js/lstation-generator.js:141 | removing leading white space leaves a suffix that starts with no white space, and only white space was removed |
| JsText.TrimEnd | themes/wixo/source/js/lstation-generator.js:141 | the same at the end |
| JsText.Trim | themes/wixo/source/js/lstation-generator.js:141 | `trim()`: the trailing white space cut from what `TrimStart` leaves |
| JsText.TrimEmptyIff | themes/wixo/source/js/lstation-generator.js:141 | `trim()` is empty exactly when the text is all white space |
| JsText.TrimIdempotent | public/js/lstation-generator.js:51 | trimming a trimmed nickname changes nothing |
| SearchParams.Find | js/documentViewer.js:1627 | the index of the first occurrence, or the length when there is none, with nothing before it matching |
| SearchParams.Split | js/documentViewer.js:1627 | `split(c)` gives at least one piece and no piece contains `c` |
| SearchParams.SplitCons | js/documentViewer.js:1627 | splitting at a first separator peels off the piece before it |
| SearchParams.SplitJoin | js/documentViewer.js:1641 | splitting undoes joining when no piece holds the separator |
| SearchParams.ParsePair | js/documentViewer.js:1627 | a query piece splits at its first `=`, so the name never holds one |
| SearchParams.ParsePairText | js/documentViewer.js:1641 | parsing the text of a plain pair gives back the pair |
| SearchParams.ParseSerializeQuery | js/documentViewer.js:1641 | parsing a serialised query gives back its pairs |
| SearchParams.ParseQuery | js/documentViewer.js:1627 | the name-value list `new URL` gives `searchParams`: the query split at `&`, empty pieces skipped, each piece cut at its first `=`; ParseSerializeQuery states that it reads back what `toString` writes |
| SearchParams.HasSchemePrefix | js/documentViewer.js:1627 | a string beginning with a valid scheme and `:` has a scheme whatever follows |
| SearchParams.SchemeBeforeSeparator | js/documentViewer.js:1627 | no `?` or `#` comes before the colon that ends a scheme |
| SearchParams.Parse | js/documentViewer.js:1627 | `new URL` succeeds exactly on strings with a scheme, and gives a URL that `toString` writes back faithfully |
| SearchParams.ParseSerialize | js/documentViewer.js:1641 | `new URL(u.toString())` gives back `u` for every well-formed URL |
| SearchParams.Serialize | js/documentViewer.js:1641 | `url.toString()`: the head, then `?` and the pairs joined by `&` when there are any, then `#` and the fragment when there is one; ParseSerialize and ComponentsSerialize state its inverse |
| SearchParams.ComponentsSerialize | js/documentViewer.js:1641 | cutting `toString`'s output at its first `#` and `?` recovers head, query and fragment |
| SearchParams.HashPosition | js/documentViewer.js:1641 | the `#` that `toString` writes is the first in its output |
| SearchParams.QueryPosition | js/documentViewer.js:1641 | the text after the first `?` of head and query is the query |
| SearchParams.ValuesOfKeep | js/documentViewer.js:1630-1639 | dropping other names keeps each value of a name that is not dropped |
| SearchParams.FirstNamed | js/documentViewer.js:1630 | the index of the first pair with the name, before which no pair has it, or the length exactly when no pair has it |
| SearchParams.SetFirst | js/documentViewer.js:1630 | the name ends up holding exactly the value, and the pairs under other names stay in order |
| SearchParams.SetFirstInPlace | js/documentViewer.js:1630 | the new pair takes the place of the first pair with the name; the pairs before it stay, and later pairs with the name go |
| SearchParams.Set | js/documentViewer.js:1630 | after `set(name, value)` the name holds exactly that value, every other pair stays in order, and an existing name is set where its first pair stood (a new one is appended) |
| SearchParams.SetInPlaceExample | js/documentViewer.js:1630 | setting `a` in `a=1&b=2` gives `a=3&b=2`, not `b=2&a=3` |
| SearchParams.SetOtherName | js/documentViewer.js:1630-1639 | `set` on one name leaves the values of every other name alone |
| SearchParams.SetAllValues | js/documentViewer.js:1630-1639 | after a run of `set` calls with distinct names, each name has exactly its value |
| SearchParams.SetAllOthers | js/documentViewer.js:1650-1655 | a name outside the run keeps all its values |
| SearchParams.SetAllKeeps | js/documentViewer.js:1650-1655 | the pairs under other names stay, in their order |
| SearchParams.SetAllPlain | js/documentViewer.js:1630-1639 | setting plain pairs keeps the list serialisable |
| StableSort.WithKeySwap | js/documentViewer.js:1614-1620 | neighbours with different keys can swap without changing any key's elements |
| StableSort.Insert | js/documentViewer.js:1614-1620 | the result is one longer and holds the list's elements plus exactly the new one |
| StableSort.SortBy | js/documentViewer.js:1614-1620 | the result is a permutation of the input, sorted by key, and holds each key's elements in input order |
| StableSort.StableSortUnique | js/documentViewer.js:1614-1620 | two sorted orderings with the same per-key order are equal, so any stable sort gives this result |
| ViewerCatalog.WpsType | js/documentViewer.js:1664-1676 | the WPS document type never holds `&` or `#`, including for `constructor` and `__proto__` |
| ViewerCatalog.WithSwitches | js/documentViewer.js:1627-1641 | building and setting on a URL succeeds exactly when `new URL` accepts the address |
| ViewerCatalog.IsWpsLink | js/documentViewer.js:1535 | an address is a WPS one when it contains `kdocs.cn` or `wps.cn` (the same test as line 1645) |
| ViewerCatalog.IsTencentLink | js/documentViewer.js:1536 | an address is a Tencent one when it contains `docs.qq.com`; HostListsOrder states the list it selects |
| ViewerCatalog.IsMsLink | js/documentViewer.js:1537 | an address is a Microsoft one when it contains `office.com` or `sharepoint.com`; HostListsOrder states the list it selects |
| ViewerCatalog.ExternalWpsUrl | js/documentViewer.js:1661-1679 | the kdocs.cn preview page with the encoded address, the WPS type and the seven fixed switches as its query, written out |
| ViewerCatalog.GetWpsViewerUrl | js/documentViewer.js:1623-1680 | `getWPSViewerUrl` throws exactly for a WPS address that `new URL` rejects |
| ViewerCatalog.WithSwitchesMeaning | js/documentViewer.js:1627-1641 | the result reads back with the same head and fragment; each switch holds its value once; other pairs stay in order |
| ViewerCatalog.SwitchListsPlain | js/documentViewer.js:1630-1655 | both switch lists have distinct names and serialisable pairs |
| ViewerCatalog.ShareLinkGetsAllSwitches | js/documentViewer.js:1625-1642 | a `kdocs.cn/l/` link comes back with all ten switches set, other parameters kept in order and the fragment kept |
| ViewerCatalog.OtherWpsLinkGetsSixSwitches | js/documentViewer.js:1645-1658 | another WPS link gets the first six switches, and `commentbar`, `chrome`, `widget` and `navpane` keep their old values |
| ViewerCatalog.ExternalWpsUrlQuery | js/documentViewer.js:1661-1679 | a file hosted elsewhere goes to the kdocs.cn preview page, whose query reads back as address, type and the seven switches |
| ViewerCatalog.PreviewWellFormed | js/documentViewer.js:1679 | the preview URL is written and read back unchanged |
| ViewerCatalog.PreviewPageHead | js/documentViewer.js:1679 | the preview page has a scheme and no query or fragment of its own |
| ViewerCatalog.PreviewSwitchPlain | js/documentViewer.js:1679 | every fixed switch of the preview query is serialisable |
| ViewerCatalog.Priority | js/documentViewer.js:1540-1571 | every viewer priority is between 1 and 6 |
| ViewerCatalog.PriorityKeyFor | js/documentViewer.js:1601-1611 | the priority key is `default` exactly when the lower-cased type is none of `xls`, `xlsx`, `doc`, `docx`, `ppt`, `pptx` |
| ViewerCatalog.Ids | js/documentViewer.js:1540-1571 | the ids follow the viewer list position by position |
| ViewerCatalog.AllViewersListed | js/documentViewer.js:1540-1571 | the catalogue holds the five viewers in listing order; the WPS one uses the built WPS address and each carries its display name |
| ViewerCatalog.OrderViewers | js/documentViewer.js:1574-1620 | every host case gives between one and five viewers |
| ViewerCatalog.GetOptimizedViewers | js/documentViewer.js:1531-1621 | fails exactly when building the WPS address fails, and otherwise lists one to five viewers |
| ViewerCatalog.WpsLinkUsesWpsOnly | js/documentViewer.js:1574-1588 | a WPS address is shown by the WPS viewer alone, on the address built for it |
| ViewerCatalog.HostListsOrder | js/documentViewer.js:1591-1598 | a Tencent address gets Tencent then Google; a Microsoft address gets Microsoft, Office365, then Google |
| ViewerCatalog.GeneralAddress | js/documentViewer.js:1531-1621 | an address outside WPS always gets the external WPS address and a list |
| ViewerCatalog.GeneralListIsStableSort | js/documentViewer.js:1601-1620 | any other address gets all five viewers, sorted by priority, ties in listing order |
| ViewerCatalog.SortedOrder | js/documentViewer.js:1614-1620 | a sorted ordering with the input's per-key order is the stable sort |
| ViewerCatalog.WidgetKindsUseDefault | js/documentViewer.js:1601-1611 | `word`, `excel` and `powerpoint` are not keys of the type mapping |
| ViewerCatalog.WidgetKindsOrder | js/documentViewer.js:1601-1620 | for the kinds the widget passes, the order on an ordinary host is WPS, Google, Microsoft, Office365, Tencent |
| ViewerCatalog.WordExtensionOrder | js/documentViewer.js:1601-1620 | for `doc`, `docx`, `ppt` and `pptx` as type, Google and WPS tie and Google stays first |
| ViewerCatalog.LoadTimeoutMs | js/documentViewer.js:392-393 | the load timeout is 8 or 15 seconds |
| ViewerCatalog.TimeoutByViewer | js/documentViewer.js:392-393 | only the WPS viewer waits 8 seconds |
| DocViewer.GetFileType | js/documentViewer.js:523-540 | the type is a listed one or `unknown`, or an `Object.prototype` member, and `unknown` without an address |
| DocViewer.FileTypeOfExtension | js/documentViewer.js:526 | the type of `stem.ext` depends on the lower-cased extension alone |
| DocViewer.FileTypeWithoutDot | js/documentViewer.js:526 | an address without a dot is looked up as a whole |
| DocViewer.OfficeTypeName | js/documentViewer.js:211-219 | the office viewer is asked with `word`, `excel` or `powerpoint` |
| DocViewer.ViewerKindFor | js/documentViewer.js:205-227 | a viewer is chosen exactly for the listed types other than `other` |
| DocViewer.LowerTwice | js/documentViewer.js:208 | lower-casing twice is lower-casing once |
| DocViewer.DetectedTypeViewer | js/documentViewer.js:523-540 | every detected type except `other` and `unknown` gets a viewer of the extension's family |
| DocViewer.KindOfKnown | js/documentViewer.js:205-227 | among the lower-case listed types and `unknown`, exactly `other` and `unknown` get no viewer; Word, Excel and PowerPoint types get the office viewer of their family, `pdf` the PDF viewer and `txt` the text viewer |
| DocViewer.PlanViewer | js/documentViewer.js:30-62 | the widget stops exactly when the address is missing; otherwise it mounts, throws, or shows a bare title bar or a download link |
| DocViewer.OnlyAddressDefaults | js/documentViewer.js:37-41 | an element with only an address uses the default title and height and guesses the type |
| DocViewer.AttrOr | js/documentViewer.js:39-41 | `getAttribute(name) \|\| fallback`: the attribute when it is present and non-empty, the fallback otherwise; OnlyAddressDefaults states the defaults |
| DocViewer.DeclaredFileType | js/documentViewer.js:38 | a non-empty `data-file-type` is used as given, otherwise the type `getFileType` guesses from the address |
| DocViewer.PlanForType | js/documentViewer.js:48-62 | for a string type: the viewer `createViewerByType` builds, a bare title bar for `other`, else the download link; it never reports a missing address; PlanOfNamedType and PlanOfOffice state the cases |
| DocViewer.PlanOfNamedType | js/documentViewer.js:52-62 | what is mounted for a named type: the bare title bar for `other`, the chosen viewer, or the download link |
| DocViewer.PlanKnownExtension | js/documentViewer.js:37-62 | a bare `stem.ext` element with a listed extension gets that extension's viewer under the defaults |
| DocViewer.PlanUnknownExtension | js/documentViewer.js:52-62 | an unlisted extension gets a download link |
| DocViewer.PlanPrototypeExtension | js/documentViewer.js:526-539 | a file ending in `.constructor` or `.__proto__` makes the widget throw |
| DocViewer.OfficeKindsOrder | js/documentViewer.js:1531-1621 | for the kinds `word`, `excel` and `powerpoint` on an address that is not a WPS, Tencent or Microsoft one, `getOptimizedViewers` succeeds and lists WPS, Google, Microsoft, Office365 and Tencent, in that order |
| DocViewer.PlanOfPrototypeMember | js/documentViewer.js:55 | a non-string type makes `toLowerCase` throw |
| DocViewer.PlanOfficeOrder | js/documentViewer.js:242-255 | an office file on an ordinary host is offered to WPS, Google, Microsoft, Office365 and Tencent in that order |
| DocViewer.PlanOfOffice | js/documentViewer.js:52-62 | an element of an office type mounts a viewer box with its title and height over the viewers `getOptimizedViewers` lists, or throws where that throws |
| DocViewer.Element.constructor | js/documentViewer.js:24-25 | an element found on the page has its attributes and no viewer mounted yet |
| DocViewer.CreateViewer | js/documentViewer.js:30-62 | a marked element is left alone; otherwise it is marked and gets exactly what the plan decides |
| DocViewer.CreateViewerTwice | js/documentViewer.js:32-35 | a second initialisation of the same element does nothing |
| DocViewer.Container.constructor | js/documentViewer.js:169-172 | the box starts folded with the given height |
| DocViewer.Container.Toggle | js/documentViewer.js:174-185 | a toggle flips folding and keeps the styles consistent with it |
| DocViewer.Container.Click | js/documentViewer.js:187-197 | a click folds once on the button, the bar or its text, starts a download on the download button, and does nothing elsewhere |
| DocViewer.OfficeViewerChain.constructor | js/documentViewer.js:242-444 | the box starts loading the first viewer with its notice shown |
| DocViewer.OfficeViewerChain.LoadViewer | js/documentViewer.js:379-441 | loading a viewer points the frame at its address, shows its notice and sets its timeout |
| DocViewer.OfficeViewerChain.HideLoading | js/documentViewer.js:395-406 | only the first hide of an attempt fades the notice |
| DocViewer.OfficeViewerChain.FrameLoaded | js/documentViewer.js:418-422 | a load marks the attempt loaded and fades its notice |
| DocViewer.OfficeViewerChain.FrameFailed | js/documentViewer.js:370-377 | an error moves to the next viewer, or to the download notice after the last |
| DocViewer.OfficeViewerChain.HideTimerFires | js/documentViewer.js:408-416 | a timer of an earlier attempt changes nothing; the current one hides a notice not yet hidden |
| DocViewer.OfficeViewerChain.FadeTimerFires | js/documentViewer.js:398-404 | the removal after the fade takes away only the current attempt's faded notice |
| LayerScene.StickerPrefix | themes/wixo/source/js/background-generator.js:875 | a layer name starts with `sticker` exactly for stickers |
| LayerScene.IdNameInjective | themes/wixo/source/js/background-generator.js:875 | different layers have different names |
| LayerScene.FixedScale | themes/wixo/source/js/background-generator.js:194-218 | the fixed layers start at a zoom between 0.2 and 3 |
| LayerScene.InitialLayouts | themes/wixo/source/js/background-generator.js:194-218 | exactly the three fixed layers, left to right on the vertical centre, unrotated, at the size's zoom |
| LayerScene.Bounds | themes/wixo/source/js/background-generator.js:675-689 | every box has positive size, and a sticker's is 50 by 50 |
| LayerScene.FirstHit | themes/wixo/source/js/background-generator.js:742-761 | the first candidate containing the point, with none before it |
| LayerScene.ElementAtMeaning | themes/wixo/source/js/background-generator.js:742-774 | a layer is reported exactly when some candidate holds the point, and it is the first such |
| LayerScene.StickerWins | themes/wixo/source/js/background-generator.js:747-752 | a sticker under the mouse wins over every fixed layer |
| LayerScene.ElementAtPosition | themes/wixo/source/js/background-generator.js:742-761 | the loop finds the layer the specification `ElementAt` names |
| LayerScene.ElementAt | themes/wixo/source/js/background-generator.js:742-761 | the specification of `getElementAtPosition`: the first candidate in hit order, stickers first, that holds the point, or none; ElementAtMeaning states what it means |
| LayerScene.InElement | themes/wixo/source/js/background-generator.js:764-774 | a point hits a layer that exists when it lies in the layer's box, borders included, centred on the layer and scaled by its zoom; rotation is ignored |
| LayerScene.Without | themes/wixo/source/js/background-generator.js:914 | filtering removes exactly the given layer |
| LayerScene.WithoutDistinct | themes/wixo/source/js/background-generator.js:914 | filtering keeps the list free of repeats |
| LayerScene.InitialSceneOk | themes/wixo/source/js/background-generator.js:221-237 | placing the fixed layers afresh keeps the scene invariant for any valid sticker list |
| LayerScene.AddStickerOk | themes/wixo/source/js/background-generator.js:875-890 | the next sticker number is free and adding it keeps the invariant |
| LayerScene.DeleteStickerOk | themes/wixo/source/js/background-generator.js:904-922 | deleting a sticker from layers and list keeps the invariant |
| LayerScene.WithSticker | themes/wixo/source/js/background-generator.js:875-890 | the new sticker takes the next number, which neither the list nor the layers have used, and is appended at the given centre at zoom 1, unrotated |
| LayerScene.UpdateLayerOk | themes/wixo/source/js/background-generator.js:777-842 | an allowed new layout for one layer keeps the invariant |
| LayerScene.ActionOf | themes/wixo/source/js/background-generator.js:783-820 | each key maps to its action exactly as the `switch` lists them |
| LayerScene.GrowScale | themes/wixo/source/js/background-generator.js:794-801 | growing increases a positive zoom or caps it at 3, and a fixed layer never passes 3 |
| LayerScene.ShrinkScale | themes/wixo/source/js/background-generator.js:803-810 | shrinking decreases the zoom or stops at its floor (0.01 for stickers, 0.2 for fixed layers) |
| LayerScene.Transformed | themes/wixo/source/js/background-generator.js:783-820 | a key never moves the layer; keys with no action and Delete leave it as it is, and `r` sets angle 0 and zoom 1 |
| LayerScene.RotateOnGrid | themes/wixo/source/js/background-generator.js:784-792 | rotating by 15 degrees with a signed remainder stays on the 15-degree grid |
| LayerScene.TransformedOk | themes/wixo/source/js/background-generator.js:777-842 | every key keeps the zoom allowed and the angle on the grid |
| LayerScene.BackdropOf | themes/wixo/source/js/background-generator.js:1057-1076 | a custom image (at its opacity) exactly when one is set; otherwise an animated preset exactly when the preset is `matrix`, `gradient` or `particles`; otherwise only the white base |
| LayerScene.ExportFrames | themes/wixo/source/js/background-generator.js:1016-1035 | an export adds `frameCount` = 30 frames |
| LayerScene.ExportFramesShape | themes/wixo/source/js/background-generator.js:1022-1035 | an export has 30 frames of 100 ms, stepping through frames 0 to 29 in order, each over the same backdrop with the same layers and box |
| LayerScene.ExportFramesDetermine | themes/wixo/source/js/background-generator.js:1022-1035 | two exports give the same frames exactly when backdrop, layers and selection box all agree, so the GIF tells different backgrounds apart |
| LayerScene.CoverRect | themes/wixo/source/js/background-generator.js:945-964 | the image covers the target, matches one side and keeps its aspect ratio, centred on the target |
| LayerScene.CoverWide | themes/wixo/source/js/background-generator.js:950-955 | a wider image scaled to the height covers the width |
| LayerScene.CoverTall | themes/wixo/source/js/background-generator.js:956-961 | a taller image scaled to the width covers the height |
| ThemeBackground.CanvasCoordinate | themes/wixo/source/js/background-generator.js:692-701 | the displayed canvas's edges map to 0 and the canvas size, and points right of the edge stay non-negative |
| ThemeBackground.Editor.MouseX | themes/wixo/source/js/background-generator.js:691-700 | the displayed canvas's left edge maps to 0 and its right edge to the canvas width |
| ThemeBackground.Editor.MouseY | themes/wixo/source/js/background-generator.js:691-700 | the displayed canvas's top edge maps to 0 and its bottom edge to the canvas height |
| ThemeBackground.AngleFromPosition | themes/wixo/source/js/background-generator.js:290-294 | the angle from the control is always within 0..360 |
| ThemeBackground.AngleFromInput | themes/wixo/source/js/background-generator.js:366-378 | a non-number keeps the angle; a number is clamped to 0..360 and kept when already within it |
| ThemeBackground.Editor.constructor | themes/wixo/source/js/background-generator.js:93-114 | the banner with its initial layers, no stickers, a blank background at full opacity, and an angle of 90 |
| ThemeBackground.Editor.ChangeSize | themes/wixo/source/js/background-generator.js:221-237 | the new size and its initial layouts replace all layouts; stickers and selection stay |
| ThemeBackground.Editor.MouseDown | themes/wixo/source/js/background-generator.js:704-719 | the layer `ElementAt` reports is selected and dragged with the grab offset; or the selection clears |
| ThemeBackground.Editor.MouseMove | themes/wixo/source/js/background-generator.js:722-731 | while dragging, the selected layer's centre follows the mouse; the move fails exactly on a sticker whose layout a size change removed |
| ThemeBackground.Editor.MouseUp | themes/wixo/source/js/background-generator.js:733-735 | dragging stops; layers and selection stay |
| ThemeBackground.Editor.DeleteSticker | themes/wixo/source/js/background-generator.js:904-922 | a sticker loses its layout, list entry and the selection if it had it; any other id changes nothing |
| ThemeBackground.Editor.KeyDown | themes/wixo/source/js/background-generator.js:777-842 | the selected layer gets the key's transform; Delete removes a sticker or resets a fixed layer to angle 0 and the size's zoom |
| ThemeBackground.Editor.AddSticker | themes/wixo/source/js/background-generator.js:867-901 | a new numbered sticker, centred and unrotated at zoom 1, is appended and selected |
| ThemeBackground.Editor.ResetLayout | themes/wixo/source/js/background-generator.js:925-942 | declined: nothing changes; confirmed: background, stickers, counter and selection reset, and the fixed layers return |
| ThemeBackground.Editor.AngleDragStart | themes/wixo/source/js/background-generator.js:305-319 | the press timer starts an angle drag at the mouse's angle |
| ThemeBackground.Editor.AngleDragMove | themes/wixo/source/js/background-generator.js:339-346 | while dragging the angle follows the mouse; otherwise it stays |
| ThemeBackground.Editor.AngleDragEnd | themes/wixo/source/js/background-generator.js:349-355 | release ends the angle drag and keeps the angle |
| ThemeBackground.Editor.AngleInputBlur | themes/wixo/source/js/background-generator.js:366-378 | the angle becomes what `AngleFromInput` gives |
| ThemeBackground.Editor.Export | themes/wixo/source/js/background-generator.js:992-1054 | without GIF.js nothing changes; otherwise the selection is cleared, the 30 export frames are added without a box, and rendering starts |
| ThemeBackground.Editor.ExportFinished | themes/wixo/source/js/background-generator.js:1041-1046 | the selection saved by the export comes back |
| PublicBackground.Editor.constructor | public/js/background-generator.js:75-91 | the banner with its initial layers, no stickers, and a blank background |
| PublicBackground.Editor.ChangeSize | public/js/background-generator.js:201-217 | the new size's initial layouts replace all layouts; stickers and selection stay |
| PublicBackground.Editor.MouseX | public/js/background-generator.js:538 | the mouse's offset from the canvas's left edge, not rescaled |
| PublicBackground.Editor.MouseY | public/js/background-generator.js:539 | the mouse's offset from the canvas's top edge, not rescaled |
| PublicBackground.Editor.MouseDown | public/js/background-generator.js:536-553 | the layer `ElementAt` reports is selected and dragged with the grab offset; or the selection clears |
| PublicBackground.Editor.MouseMove | public/js/background-generator.js:555-566 | the selected layer follows the mouse; the move fails exactly on a sticker whose layout a size change removed |
| PublicBackground.Editor.MouseUp | public/js/background-generator.js:568-570 | dragging stops |
| PublicBackground.Editor.DeleteSticker | public/js/background-generator.js:728-746 | a sticker leaves layouts, list and selection; any other id changes nothing |
| PublicBackground.Editor.KeyDown | public/js/background-generator.js:612-666 | the selected layer gets the key's transform; Delete removes a sticker and leaves a fixed layer alone |
| PublicBackground.Editor.AddSticker | public/js/background-generator.js:691-725 | a new numbered sticker is centred, appended and selected |
| PublicBackground.Editor.ResetLayout | public/js/background-generator.js:749-766 | declined: nothing; confirmed: background, stickers, counter and selection reset, fixed layers return |
| PublicBackground.Editor.Export | public/js/background-generator.js:816-865 | without GIF.js nothing is encoded; otherwise 30 frames showing the current selection's box, then rendering |
| LstationCommon.VideoPath | themes/wixo/source/js/lstation-generator.js:664 | the template `/mp4/${encoded}.mp4` as code units |
| LstationCommon.VideoPathParts | themes/wixo/source/js/lstation-generator.js:664 | the path is `/mp4/`, then the encoded character name, then `.mp4`, and cuts back into those parts |
| LstationCommon.VideoPathDetermines | themes/wixo/source/js/lstation-generator.js:664 | two characters fetch the same path only when they encode alike |
| LstationCommon.Sanitize | themes/wixo/source/js/lstation-generator.js:1150-1151 | the same length, with each code unit kept when allowed and turned into `_` otherwise |
| LstationCommon.SanitizeSafe | themes/wixo/source/js/lstation-generator.js:1150-1151 | a sanitised name holds only allowed units and `_`, so no `.` |
| LstationCommon.SanitizeKeepsSafe | themes/wixo/source/js/lstation-generator.js:1150-1151 | a name of allowed units is kept as it is |
| LstationCommon.SanitizeIdempotent | themes/wixo/source/js/lstation-generator.js:1150-1151 | sanitising twice is sanitising once |
| LstationCommon.ExtensionUnits | themes/wixo/source/js/lstation-generator.js:1155-1156 | neither extension holds a dot |
| LstationCommon.Filename | themes/wixo/source/js/lstation-generator.js:1150-1157 | the download name starts with `lstation_` and ends with `.` and the three-letter extension |
| LstationCommon.FilenameExtension | themes/wixo/source/js/lstation-generator.js:1152-1157 | the text after the file name's last dot is its extension |
| LstationCommon.FilenameHead | themes/wixo/source/js/lstation-generator.js:1152-1157 | the file name begins with prefix, sanitised nickname, `_` and sanitised character |
| LstationCommon.FilenameParts | themes/wixo/source/js/lstation-generator.js:1152-1157 | the sanitised nickname and character sit at fixed places in the file name |
| ThemeLstation.InitialBoxes | themes/wixo/source/js/lstation-generator.js:52-56 | the starting layout gives every layer a box of its own size |
| ThemeLstation.PointIn | themes/wixo/source/js/lstation-generator.js:247-257 | the nickname's box is centred on its point and the logo's and text's hang from their top-left corner; borders count |
| ThemeLstation.CentredIsShiftedCorner | themes/wixo/source/js/lstation-generator.js:247-257 | a centred box is the corner box moved back by half its size |
| ThemeLstation.Rank | themes/wixo/source/js/lstation-generator.js:178 | each layer's place in the entry order |
| ThemeLstation.Grabbed | themes/wixo/source/js/lstation-generator.js:178-189 | none exactly when no box holds the point; otherwise a box that holds it, with none earlier in entry order |
| ThemeLstation.GrabbedAt | themes/wixo/source/js/lstation-generator.js:178-189 | the layer at position k is grabbed when it is hit and none before it is |
| ThemeLstation.GrabbedNone | themes/wixo/source/js/lstation-generator.js:178-189 | nothing is grabbed when no box is hit |
| ThemeLstation.FindGrabbed | themes/wixo/source/js/lstation-generator.js:177-189 | the loop over the layers in entry order stops at the layer `Grabbed` names, or finds none |
| ThemeLstation.DragClamp | themes/wixo/source/js/lstation-generator.js:203-204 | a dragged corner stays at 0 or beyond and within the canvas when the box fits, and is left alone when in range |
| ThemeLstation.Guard | themes/wixo/source/js/lstation-generator.js:500-508 | generation stops for a missing character first, then for an empty trimmed nickname, and starts otherwise |
| ThemeLstation.InputsHint | themes/wixo/source/js/lstation-generator.js:148-156 | `checkInputs`'s choice of hint from the character and the trimmed nickname |
| ThemeLstation.InputsHintNames | themes/wixo/source/js/lstation-generator.js:148-156 | the hint asks for both inputs, for the character, or for the nickname exactly when those are missing, and invites a click exactly when both are given |
| ThemeLstation.HintAgreesWithGuard | themes/wixo/source/js/lstation-generator.js:140-157 | the button's hint invites a click exactly when generation would start, and asks for a character exactly when the check stops for one |
| ThemeLstation.LoadCharacterVideo | themes/wixo/source/js/lstation-generator.js:663-688 | a blob exactly for an `ok` response whose body reads as a `video/` type |
| ThemeLstation.DownloadName | themes/wixo/source/js/lstation-generator.js:1143-1170 | no name exactly without a result; otherwise the name ends in `.gif` for a GIF blob and `.png` for anything else |
| ThemeLstation.FadeAlpha | themes/wixo/source/js/lstation-generator.js:902-930 | opacity lies in 0..1, starts at 0 and is 1 from frame 19 on |
| ThemeLstation.FadeAlphaMonotone | themes/wixo/source/js/lstation-generator.js:902-930 | the fade never dims |
| ThemeLstation.FadeFramesShape | themes/wixo/source/js/lstation-generator.js:897-941 | 40 frames of 50 ms of the same source, opacity rising from 0 and opaque from frame 19 |
| ThemeLstation.FadeFrames | themes/wixo/source/js/lstation-generator.js:897-941 | the 40 fade frames of a picture at 50 ms each, opacity `FadeAlpha(i)`; FadeFramesShape states their shape |
| ThemeLstation.AddFadeFrames | themes/wixo/source/js/lstation-generator.js:902-930 | the loop appends exactly the fade frames |
| ThemeLstation.VideoFrameCount | themes/wixo/source/js/lstation-generator.js:812-814 | the count is ⌊30 × duration⌋ |
| ThemeLstation.VideoDelayIs33 | themes/wixo/source/js/lstation-generator.js:856 | the stills are 33 ms apart |
| ThemeLstation.Dimension | themes/wixo/source/js/lstation-generator.js:842-843 | a missing dimension counts as 400, a present one as itself |
| ThemeLstation.ContainRect | themes/wixo/source/js/lstation-generator.js:842-852 | the still fits the 400-pixel square, fills one side, keeps its aspect ratio and is centred |
| ThemeLstation.ContainFits | themes/wixo/source/js/lstation-generator.js:845-847 | the smaller ratio fits both sides and fills one |
| ThemeLstation.AddCharacterVideoFrames | themes/wixo/source/js/lstation-generator.js:809-894 | the capture appends exactly the still of each k/30 s, 33 ms each |
| ThemeLstation.VideoFrames | themes/wixo/source/js/lstation-generator.js:809-894 | the stills the capture adds: one per 1/30 s of the video, contain-fitted, 33 ms each |
| ThemeLstation.VideoFramesWithinVideo | themes/wixo/source/js/lstation-generator.js:812-856 | every still lies within the video's duration, the stills go strictly forward in time, and each lasts 33 ms |
| ThemeLstation.GenerateAnimationVideo | themes/wixo/source/js/lstation-generator.js:620-660 | the frames drawn are discarded and the static picture itself is the result |
| ThemeLstation.CreateMergedGif | themes/wixo/source/js/lstation-generator.js:752-806 | without GIF.js no encoder; otherwise the video stills followed by the fade of the static content, and rendering |
| ThemeLstation.ConvertToGif | themes/wixo/source/js/lstation-generator.js:989-1084 | without GIF.js the video comes back as is; otherwise the fade of its image is rendered |
| ThemeLstation.Generator.constructor | themes/wixo/source/js/lstation-generator.js:52-65 | the initial layout, empty inputs, and the hint asking for both |
| ThemeLstation.Generator.CheckInputs | themes/wixo/source/js/lstation-generator.js:140-157 | the button's hint matches the inputs and nothing else changes |
| ThemeLstation.Generator.SelectCharacter | themes/wixo/source/js/lstation-generator.js:87-91 | the character changes and the hint follows it |
| ThemeLstation.Generator.InputNickname | themes/wixo/source/js/lstation-generator.js:93-98 | the raw nickname is kept and the hint follows its trimmed form |
| ThemeLstation.Generator.MouseDown | themes/wixo/source/js/lstation-generator.js:172-190 | the layer `Grabbed` names is marked and dragged with the mouse's offset; a press on no layer changes nothing |
| ThemeLstation.Generator.Grab | themes/wixo/source/js/lstation-generator.js:178-186 | the grabbed box is marked dragging, the drag names its layer, the offset is the mouse minus the box's point, and nothing else changes |
| ThemeLstation.Generator.MouseMove | themes/wixo/source/js/lstation-generator.js:193-219 | while dragging, the dragged box moves to the mouse minus the offset, clamped within the canvas; otherwise nothing changes |
| ThemeLstation.Generator.MouseUp | themes/wixo/source/js/lstation-generator.js:222-230 | a drag ends and its box is unmarked; otherwise nothing changes |
| ThemeLstation.Generator.ResetLayout | themes/wixo/source/js/lstation-generator.js:233-240 | the boxes return to the initial layout |
| ThemeLstation.Generator.GenerateAvatar | themes/wixo/source/js/lstation-generator.js:498-557 | the result is the guard's; missing inputs or a failed picture change nothing; otherwise the GIF follows the merge, or, without a video, the picture comes back without GIF.js and the rendered fade (the picture after a rejection) with it |
| ThemeLstation.Generator.ResetGenerator | themes/wixo/source/js/lstation-generator.js:1173-1195 | inputs and result are cleared, the hint asks for both, the layout stays |
| PublicLstation.LoadCharacterVideo | public/js/lstation-generator.js:210-224 | a blob exactly for an `ok` response with a readable body, whatever its type |
| PublicLstation.FinalVideoIsStaticImage | public/js/lstation-generator.js:86-101 | the video converted is always the static picture, whatever the fetch brought |
| PublicLstation.GenerateAnimationVideo | public/js/lstation-generator.js:167-207 | the frames drawn are discarded and the static picture itself is the result; FinalVideoIsStaticImage states the consequence |
| PublicLstation.MergeVideos | public/js/lstation-generator.js:227-237 | with or without a character video, the animation comes back unchanged |
| PublicLstation.DownloadName | public/js/lstation-generator.js:348-371 | no name exactly without a result; otherwise always a `.gif` name |
| PublicLstation.FrameCounts | public/js/lstation-generator.js:264-265 | 18 frames, of which 6 fade in |
| PublicLstation.FadeAlpha | public/js/lstation-generator.js:272-276 | opacity lies in 0..1, starts at 0, stays below 1 for the first 6 frames and is 1 after |
| PublicLstation.FadeAlphaMonotone | public/js/lstation-generator.js:272-276 | the fade never dims |
| PublicLstation.GifFramesShape | public/js/lstation-generator.js:263-284 | 18 frames of 1000/15 ms of the picture, rising from 0 and opaque from frame 6 |
| PublicLstation.GifFrames | public/js/lstation-generator.js:263-284 | the 18 frames `convertToGif` adds for a picture, opacity `FadeAlpha(i)`, 1000/15 ms each; GifFramesShape states their shape |
| PublicLstation.ConvertToGif | public/js/lstation-generator.js:240-303 | without GIF.js the video comes back; otherwise exactly the fade frames, rendered |
| PublicLstation.Form.constructor | public/js/lstation-generator.js:25-28 | empty inputs and no result |
| PublicLstation.Form.CheckInputs | public/js/lstation-generator.js:61-64 | the button is disabled exactly when an input is empty |
| PublicLstation.Form.SelectCharacter | public/js/lstation-generator.js:45-48 | the character changes and the button follows |
| PublicLstation.Form.InputNickname | public/js/lstation-generator.js:50-53 | the nickname stored is the trimmed input, and the button follows it |
| PublicLstation.Form.GenerateAvatar | public/js/lstation-generator.js:73-122 | the frames are always the static picture's fade; the result follows whether rendering finishes; once the run settles the button comes back and one more hide timer is set, while the bar stays shown |
| PublicLstation.Form.ProgressTimerFires | public/js/lstation-generator.js:117-119 | a pending timer hides the progress bar, whichever run is under way, and changes nothing else |
| PublicLstation.Form.ResetGenerator | public/js/lstation-generator.js:374-383 | inputs and result are cleared, preview and progress hidden, the button disabled |

## Left out

- Page markup, CSS classes and inline styles, cursors, and the drawing of previews (`updateLayoutPreview`, `drawLayoutElement`, `drawLogo` and others): the model keeps the layer state those drawings read, not the page inputs they also read. An exported frame records its step, its `Backdrop`, the layouts and the selection box. It does not record the pixels of the custom image, how each animated preset moves from step to step, or the nickname's text, font and colours. In gradient colour mode it does not record the theme's gradient angle either. `drawNickname` builds the nickname's gradient from that angle (themes/wixo/source/js/background-generator.js:649-656), and it is drawn into every exported frame.
- The WPS chrome removal in `js/documentViewer.js` (the CSS injection, mutation observers and repeated timers between lines 542 and 1529), and the `setTimeout` that tags the WPS frame (1576-1585): they only restyle a third-party page.
- Percent-encoding and the full WHATWG URL parser: `new URL` is modelled as "has a scheme", and the head of the address is kept as text; `encodeURIComponent` is a parameter.
- Canvas rendering, GIF.js internals, `Blob`, `URL.createObjectURL`, `FileReader`, `fetch`, `alert` and `confirm`: each becomes a parameter or the `GifSink` black box.
- IEEE double arithmetic: reals stand in for numbers; the two `Math.floor` results that rounding could affect are stated as constants.
- The random matrix, particle and gradient backgrounds and their colour ramps (`Math.random` and drawing only).
- The public editor's angle dial and the theme's double-click branch of `startAngleAdjust`: the click counter is reset on every press, so a double click is never seen.
- The theme's video capture race between `seeked` and the 1 s fallback timer (themes/wixo/source/js/lstation-generator.js:877-882). The timer is never cleared, so a frame can be advanced twice and a second capture chain can start.
- ThemeLstation.AddCharacterVideoFrames: models each seek completing in turn.
- The frames `generateAnimationVideo` draws into a GIF that it then discards: its result is its input.
- The drawing in `generateStaticImage`: its outcome is an `Option` parameter. In the site's version a `null` blob makes `URL.createObjectURL` throw.
- Unknown `data-size` values in the background editors: only the listed presets are modelled.
- A `createViewer` that throws (DocViewer.PlanPrototypeExtension, DocViewer.PlanOfPrototypeMember) also ends the `forEach` of `initializeViewers` (js/documentViewer.js:22-28). The page's later widgets are then never set up. The model treats each element on its own and does not model the page-wide loop.
- DocViewer.OfficeViewerChain.constructor: requires a non-empty viewer list, which `getOptimizedViewers` always gives.
- LayerScene.CoverRect: requires positive image and target sizes, as loaded images and canvases have.
- ThemeBackground.CanvasCoordinate: requires a displayed canvas of positive size.
- ThemeBackground.Editor.MouseDown: requires a displayed canvas of positive size; the same holds for the other mouse handlers.
- ThemeBackground.AngleFromPosition: requires a control of positive width.
- ThemeLstation.VideoFrameCount: requires a finite non-negative duration, which a loaded video has.
- ThemeLstation.ConvertToGif: assumes the picture loads; a failed load rejects the promise, which `GenerateAvatar` sees like the timeout or an abort, as a `None` conversion.
- PublicLstation.ConvertToGif: assumes the picture loads. A failed load is the only way its promise rejects, before any frame is added, so the model's `GenerateAvatar` never sees a rejection.
- `generateAnimationVideo` in both versions: it sets no `onerror`, so a picture that fails to load would leave it pending forever; the model assumes the picture loads.
- ThemeLstation.Generator.GenerateAvatar: the merge's outcome is a parameter, tied to GIF.js only in that without it no merged GIF comes back; the video metadata events are not modelled.
