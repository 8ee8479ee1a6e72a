/**
 * What both avatar generators share: the blobs they pass around, the
 * outcome of fetching a character's video, the pictures their GIF frames
 * show, and the download file name with its sanitised parts.
 */
module LstationCommon {
  import opened Wrappers
  import opened JsText
  import opened LayerScene

  /** A `Blob` as far as the generators look at it: its MIME type, and which blob it is. */
  datatype Blob = Blob(mime: string, handle: nat)

  /**
   * `await fetch(path)` and `await response.blob()`: the request fails,
   * or a response arrives with its `ok` flag and a body that is read or
   * fails to be read.
   */
  datatype FetchResult = NetworkError | Response(ok: bool, body: Option<Blob>)

  /** What a fading frame draws: the generator's own static content, or an image made from a blob. */
  datatype FadeSource = StaticContent | ImageOf(blob: Blob)

  /** What one GIF frame shows. */
  datatype Picture =
    | Faded(source: FadeSource, alpha: real)
    | VideoStill(time: real, placement: Rect)

  /** The code units of `/mp4/` and `.mp4`. */
  const VideoDir: JsString := [0x2F, 0x6D, 0x70, 0x34, 0x2F]
  const VideoExt: JsString := [0x2E, 0x6D, 0x70, 0x34]

  /** `/mp4/${encodeURIComponent(character)}.mp4`, with the encoder as a parameter. */
  function VideoPath(character: JsString, encode: JsString -> JsString): JsString {
    VideoDir + encode(character) + VideoExt
  }

  /** The path cuts back into `/mp4/`, the encoded name and `.mp4`. */
  lemma VideoPathParts(character: JsString, encode: JsString -> JsString)
    ensures var r := VideoPath(character, encode);
            |r| == |encode(character)| + 9 &&
            r[..5] == VideoDir && r[|r| - 4..] == VideoExt && r[5..|r| - 4] == encode(character)
  {
  }

  /** Two characters fetch the same path only when they encode alike. */
  lemma VideoPathDetermines(a: JsString, b: JsString, encode: JsString -> JsString)
    requires VideoPath(a, encode) == VideoPath(b, encode)
    ensures encode(a) == encode(b)
  {
    var p, q := VideoDir, VideoExt;
    var s := VideoPath(a, encode);
    assert |encode(a)| == |encode(b)|;
    assert encode(a) == s[|p|..|s| - |q|];
    assert encode(b) == VideoPath(b, encode)[|p|..|s| - |q|];
  }

  // ---------------------------------------------------------------------
  // The download file name
  // ---------------------------------------------------------------------

  /** The code units of `_` and `.`. */
  const Underscore: CodeUnit := 0x5F
  const Dot: CodeUnit := 0x2E

  /** A code unit the class `[a-zA-Z0-9一-龥]` matches. */
  predicate SafeUnit(u: CodeUnit) {
    (0x61 <= u <= 0x7A) || (0x41 <= u <= 0x5A) || (0x30 <= u <= 0x39) || (0x4E00 <= u <= 0x9FA5)
  }

  /**
   * `s.replace(/[^a-zA-Z0-9一-龥]/g, '_')`. Without the `u` flag
   * the pattern matches single code units, so each of them is kept or
   * turned into `_` on its own, and a surrogate pair becomes `__`.
   */
  function Sanitize(s: JsString): (r: JsString)
    ensures |r| == |s|
    ensures forall i :: 0 <= i < |s| ==> r[i] == (if SafeUnit(s[i]) then s[i] else Underscore)
  {
    if s == [] then [] else [if SafeUnit(s[0]) then s[0] else Underscore] + Sanitize(s[1..])
  }

  /** Every unit of a sanitised name is allowed or `_`, so it holds no `.`. */
  lemma SanitizeSafe(s: JsString)
    ensures forall i :: 0 <= i < |s| ==> SafeUnit(Sanitize(s)[i]) || Sanitize(s)[i] == Underscore
    ensures Dot !in Sanitize(s)
  {
  }

  /** Text made only of allowed units is left as it is. */
  lemma SanitizeKeepsSafe(s: JsString)
    requires forall i :: 0 <= i < |s| ==> SafeUnit(s[i])
    ensures Sanitize(s) == s
  {
  }

  /** Sanitising twice changes nothing more. */
  lemma SanitizeIdempotent(s: JsString)
    ensures Sanitize(Sanitize(s)) == Sanitize(s)
  {
    var r := Sanitize(s);
    assert forall i :: 0 <= i < |r| ==> Sanitize(r)[i] == r[i];
  }

  /** The extensions a download can get. */
  datatype Extension = Gif | Png

  /** The code units of `gif` and `png`. */
  function ExtensionUnits(e: Extension): (r: JsString)
    ensures Dot !in r
  {
    if e == Gif then [0x67, 0x69, 0x66] else [0x70, 0x6E, 0x67]
  }

  /** The code units of the file name's fixed start, `lstation_`. */
  const FilePrefix: JsString := [0x6C, 0x73, 0x74, 0x61, 0x74, 0x69, 0x6F, 0x6E, 0x5F]

  /** `lstation_${safeNickname}_${safeCharacter}_${timestamp}.${extension}` */
  function Filename(nickname: JsString, character: JsString, timestamp: nat, e: Extension): (r: JsString)
    ensures |r| >= |FilePrefix| + 6 && r[..|FilePrefix|] == FilePrefix
    ensures r[|r| - 4] == Dot && r[|r| - 3..] == ExtensionUnits(e)
  {
    FilePrefix + Sanitize(nickname) + [Underscore] + Sanitize(character) + [Underscore] +
    Utf16(Decimal(timestamp)) + [Dot] + ExtensionUnits(e)
  }

  /** The part of the file name after its last `.` is the extension. */
  lemma FilenameExtension(nickname: JsString, character: JsString, timestamp: nat, e: Extension)
    ensures LastSegment(Filename(nickname, character, timestamp, e), Dot) == ExtensionUnits(e)
  {
    var prefix := FilePrefix + Sanitize(nickname) + [Underscore] + Sanitize(character) + [Underscore] +
                  Utf16(Decimal(timestamp));
    assert Filename(nickname, character, timestamp, e) == prefix + [Dot] + ExtensionUnits(e);
    LastSegmentAfter(prefix, Dot, ExtensionUnits(e));
  }

  /** The file name begins with everything up to the sanitised character name. */
  lemma FilenameHead(nickname: JsString, character: JsString, timestamp: nat, e: Extension)
    ensures var f := Filename(nickname, character, timestamp, e);
            var head := FilePrefix + Sanitize(nickname) + [Underscore] + Sanitize(character);
            |head| <= |f| && f[..|head|] == head
  {
    Regroup(FilePrefix, Sanitize(nickname), [Underscore], Sanitize(character),
            [Underscore], Utf16(Decimal(timestamp)), [Dot], ExtensionUnits(e));
  }

  /** Eight pieces joined in a row are their first four joined, then their last four. */
  lemma Regroup<T>(a: seq<T>, b: seq<T>, c: seq<T>, d: seq<T>, e: seq<T>, f: seq<T>, g: seq<T>, h: seq<T>)
    ensures var head := a + b + c + d;
            |head| <= |a + b + c + d + e + f + g + h| && (a + b + c + d + e + f + g + h)[..|head|] == head
  {
    assert a + b + c + d + e + f + g + h == (a + b + c + d) + (e + f + g + h);
  }

  /** The sanitised names sit in the file name at fixed places, unit for unit as long as their sources. */
  lemma FilenameParts(nickname: JsString, character: JsString, timestamp: nat, e: Extension)
    ensures var f := Filename(nickname, character, timestamp, e);
            var p, q := |FilePrefix|, |FilePrefix| + |nickname| + 1;
            StartsWith(f, FilePrefix) && f[p + |nickname|] == Underscore &&
            f[p..p + |nickname|] == Sanitize(nickname) &&
            f[q..q + |character|] == Sanitize(character)
  {
    PiecesAt(FilePrefix, Sanitize(nickname), Underscore, Sanitize(character),
             [Underscore], Utf16(Decimal(timestamp)), [Dot], ExtensionUnits(e));
  }

  /** Where `a`, `n`, `u` and `c` sit in eight pieces joined in a row. */
  lemma PiecesAt<T>(a: seq<T>, n: seq<T>, u: T, c: seq<T>, e: seq<T>, f: seq<T>, g: seq<T>, h: seq<T>)
    ensures var s := a + n + [u] + c + e + f + g + h;
            StartsWith(s, a) && s[|a| + |n|] == u &&
            s[|a|..|a| + |n|] == n && s[|a| + |n| + 1..|a| + |n| + 1 + |c|] == c
  {
    Regroup(a, n, [u], c, e, f, g, h);
    HeadParts(a, n, u, c, a + n + [u] + c + e + f + g + h);
  }

  /** Cutting `a`, `n`, `u` and `c` back out of a sequence that starts with `a + n + [u] + c`. */
  lemma HeadParts<T>(a: seq<T>, n: seq<T>, u: T, c: seq<T>, f: seq<T>)
    requires |a + n + [u] + c| <= |f| && f[..|a + n + [u] + c|] == a + n + [u] + c
    ensures StartsWith(f, a) && f[|a| + |n|] == u
    ensures f[|a|..|a| + |n|] == n && f[|a| + |n| + 1..|a| + |n| + 1 + |c|] == c
  {
    var head := a + n + [u] + c;
    var p, q := |a|, |a| + |n| + 1;
    assert head[..p] == a && f[..p] == head[..p];
    assert head[p..p + |n|] == n && f[p..p + |n|] == head[p..p + |n|];
    assert head[p + |n|] == u && f[p + |n|] == head[p + |n|];
    assert head[q..] == c && f[q..q + |c|] == head[q..];
  }
}
