/*
 * The part of the WHATWG URL Standard the WPS viewer address builder
 * relies on: `new URL(text)` (which throws when the text has no scheme),
 * `url.searchParams.set(name, value)` and `url.toString()`.
 *
 * A URL is kept as the text before its query, its query as the list of
 * name-value pairs `URLSearchParams` holds, and its fragment. The query
 * splits on '&', skips empty pieces and splits each piece at its first
 * '='; serialising writes every pair back as `name=value`.
 */
module SearchParams {
  import opened Wrappers

  type Param = (string, string)

  datatype Url = Url(head: string, params: seq<Param>, fragment: Option<string>)

  // ---------------------------------------------------------------------
  // Searching and splitting text
  // ---------------------------------------------------------------------

  /** The index of the first `c` in `s`, or `|s|` when there is none. */
  function Find(s: string, c: char): (i: nat)
    ensures i <= |s|
    ensures i < |s| ==> s[i] == c
    ensures c !in s[..i]
  {
    if s == [] || s[0] == c then 0
    else
      assert s[..1 + Find(s[1..], c)] == [s[0]] + s[1..][..Find(s[1..], c)];
      1 + Find(s[1..], c)
  }

  lemma {:induction false} FindAfter(a: string, b: string, c: char)
    requires c !in a
    ensures Find(a + b, c) == |a| + Find(b, c)
  {
    if a != [] {
      assert (a + b)[1..] == a[1..] + b;
      FindAfter(a[1..], b, c);
    } else {
      assert a + b == b;
    }
  }

  /** `s.split(c)`: always at least one piece, none containing `c`. */
  function Split(s: string, c: char): (r: seq<string>)
    ensures |r| >= 1
    ensures forall i :: 0 <= i < |r| ==> c !in r[i]
    decreases |s|
  {
    var i := Find(s, c);
    if i == |s| then [s] else [s[..i]] + Split(s[i + 1..], c)
  }

  /** `pieces.join(c)` */
  function Join(pieces: seq<string>, c: char): string
    requires |pieces| >= 1
  {
    if |pieces| == 1 then pieces[0] else pieces[0] + [c] + Join(pieces[1..], c)
  }

  /** Splitting at a first separator peels off the piece before it. */
  lemma SplitCons(p: string, c: char, rest: string)
    requires c !in p
    ensures Split(p + [c] + rest, c) == [p] + Split(rest, c)
  {
    var s := p + [c] + rest;
    FindAfter(p, [c] + rest, c);
    assert s == p + ([c] + rest);
    assert s[..|p|] == p;
    assert s[|p| + 1..] == rest;
  }

  /** Splitting undoes joining when no piece contains the separator. */
  lemma {:induction false} SplitJoin(pieces: seq<string>, c: char)
    requires |pieces| >= 1
    requires forall i :: 0 <= i < |pieces| ==> c !in pieces[i]
    ensures Split(Join(pieces, c), c) == pieces
  {
    if |pieces| == 1 {
      assert Find(pieces[0], c) == |pieces[0]|;
    } else {
      SplitCons(pieces[0], c, Join(pieces[1..], c));
      SplitJoin(pieces[1..], c);
      assert pieces == [pieces[0]] + pieces[1..];
    }
  }

  // ---------------------------------------------------------------------
  // Query strings
  // ---------------------------------------------------------------------

  /** One query piece split at its first '='; a piece with none has an empty value. */
  function ParsePair(piece: string): (p: Param)
    ensures '=' !in p.0
  {
    var i := Find(piece, '=');
    if i == |piece| then (piece, "") else (piece[..i], piece[i + 1..])
  }

  function PairText(p: Param): string {
    p.0 + "=" + p.1
  }

  lemma ParsePairText(n: string, v: string)
    requires '=' !in n
    ensures ParsePair(n + "=" + v) == (n, v)
  {
    var t := n + "=" + v;
    assert t == n + ("=" + v);
    FindAfter(n, "=" + v, '=');
    assert t[..|n|] == n;
    assert t[|n| + 1..] == v;
  }

  /** The name-value list of the pieces, empty pieces skipped. */
  function ParsePieces(pieces: seq<string>): seq<Param> {
    if pieces == [] then []
    else if pieces[0] == "" then ParsePieces(pieces[1..])
    else [ParsePair(pieces[0])] + ParsePieces(pieces[1..])
  }

  /** The name-value list `URLSearchParams` makes of a query string. */
  function ParseQuery(query: string): seq<Param> {
    ParsePieces(Split(query, '&'))
  }

  function PairTexts(ps: seq<Param>): (r: seq<string>)
    ensures |r| == |ps|
    ensures forall i :: 0 <= i < |ps| ==> r[i] == PairText(ps[i])
  {
    if ps == [] then [] else [PairText(ps[0])] + PairTexts(ps[1..])
  }

  /** `URLSearchParams.toString()` */
  function SerializeQuery(ps: seq<Param>): string
    requires ps != []
  {
    Join(PairTexts(ps), '&')
  }

  /** A pair that survives serialising: no separator in the name or the value. */
  predicate PlainParam(p: Param) {
    '&' !in p.0 && '=' !in p.0 && '#' !in p.0 && '&' !in p.1 && '#' !in p.1
  }

  lemma {:induction false} ParsePiecesOfPairs(ps: seq<Param>)
    requires forall i :: 0 <= i < |ps| ==> PlainParam(ps[i])
    ensures ParsePieces(PairTexts(ps)) == ps
  {
    if ps != [] {
      var t := PairTexts(ps);
      ParsePairText(ps[0].0, ps[0].1);
      assert t[1..] == PairTexts(ps[1..]);
      ParsePiecesOfPairs(ps[1..]);
      assert ps == [ps[0]] + ps[1..];
    }
  }

  /** Parsing a serialised query gives back its pairs. */
  lemma ParseSerializeQuery(ps: seq<Param>)
    requires ps != []
    requires forall i :: 0 <= i < |ps| ==> PlainParam(ps[i])
    ensures ParseQuery(SerializeQuery(ps)) == ps
  {
    var t := PairTexts(ps);
    forall i | 0 <= i < |t| ensures '&' !in t[i] {
      assert t[i] == ps[i].0 + "=" + ps[i].1;
    }
    SplitJoin(t, '&');
    ParsePiecesOfPairs(ps);
  }

  lemma {:induction false} NoHashInQuery(ps: seq<Param>)
    requires ps != []
    requires forall i :: 0 <= i < |ps| ==> PlainParam(ps[i])
    ensures '#' !in SerializeQuery(ps)
  {
    var t := PairTexts(ps);
    if |ps| > 1 {
      NoHashInQuery(ps[1..]);
      assert PairTexts(ps[1..]) == t[1..];
    }
    assert t[0] == ps[0].0 + "=" + ps[0].1;
  }

  // ---------------------------------------------------------------------
  // URLs
  // ---------------------------------------------------------------------

  predicate IsAsciiAlpha(c: char) {
    'a' <= c <= 'z' || 'A' <= c <= 'Z'
  }

  predicate IsSchemeChar(c: char) {
    IsAsciiAlpha(c) || '0' <= c <= '9' || c == '+' || c == '-' || c == '.'
  }

  /** `s` begins with a scheme and its ':', which `new URL(s)` needs without a base. */
  predicate HasScheme(s: string) {
    exists p :: 1 <= p < |s| && s[p] == ':' && IsAsciiAlpha(s[0]) &&
      forall i :: 1 <= i < p ==> IsSchemeChar(s[i])
  }

  lemma HasSchemePrefix(s: string, t: string)
    requires HasScheme(s)
    ensures HasScheme(s + t)
  {
    var p :| 1 <= p < |s| && s[p] == ':' && IsAsciiAlpha(s[0]) &&
      forall i :: 1 <= i < p ==> IsSchemeChar(s[i]);
    assert (s + t)[p] == ':';
  }

  /** No '?' or '#' comes before the ':' that ends a scheme. */
  lemma SchemeBeforeSeparator(s: string, p: nat, c: char)
    requires 1 <= p < |s| && s[p] == ':' && IsAsciiAlpha(s[0])
    requires forall i :: 1 <= i < p ==> IsSchemeChar(s[i])
    requires c == '?' || c == '#'
    ensures p < Find(s, c)
  {
    assert forall j :: 0 <= j <= p ==> s[j] != c;
  }

  /** The head, query pairs and fragment of `s`, cut at its first '#' and its first '?' before that. */
  function Components(s: string): Url {
    var h := Find(s, '#');
    Url(HeadText(s[..h]), ParseQuery(QueryText(s[..h])), FragmentText(s, h))
  }

  /** The text before the first '?'. */
  function HeadText(body: string): string {
    body[..Find(body, '?')]
  }

  /** The text after the first '?', or nothing without one. */
  function QueryText(body: string): string {
    var q := Find(body, '?');
    if q < |body| then body[q + 1..] else ""
  }

  /** The text after the '#' at `h`, if there is one. */
  function FragmentText(s: string, h: nat): Option<string>
    requires h <= |s|
  {
    if h < |s| then Some(s[h + 1..]) else None
  }

  /** `new URL(s)`: nothing when it would throw. */
  function Parse(s: string): (r: Option<Url>)
    ensures r.Some? <==> HasScheme(s)
    ensures r.Some? ==> WellFormed(r.value)
  {
    if !HasScheme(s) then None
    else
      ComponentsWellFormed(s);
      Some(Components(s))
  }

  /** The parts cut from a string with a scheme make a URL `toString` writes faithfully. */
  lemma ComponentsWellFormed(s: string)
    requires HasScheme(s)
    ensures WellFormed(Components(s))
  {
    var h := Find(s, '#');
    HeadHasScheme(s, h);
    var body := s[..h];
    assert '#' !in QueryText(body);
    ParsedQueryPlain(QueryText(body));
  }

  /** The head cut before the first '?' and '#' keeps the scheme. */
  lemma HeadHasScheme(s: string, h: nat)
    requires HasScheme(s)
    requires h == Find(s, '#')
    ensures HasScheme(HeadText(s[..h]))
  {
    var p :| 1 <= p < |s| && s[p] == ':' && IsAsciiAlpha(s[0]) &&
      forall i :: 1 <= i < p ==> IsSchemeChar(s[i]);
    SchemeBeforeSeparator(s, p, '#');
    SchemeBeforeSeparator(s[..h], p, '?');
    var head := HeadText(s[..h]);
    assert head[p] == ':' && head[0] == s[0];
    assert forall i :: 1 <= i < p ==> head[i] == s[i];
  }

  /** `url.toString()` */
  function Serialize(u: Url): string {
    u.head + QueryPart(u.params) + FragmentPart(u.fragment)
  }

  /** A URL `Serialize` writes so that `Parse` reads it back unchanged. */
  predicate WellFormed(u: Url) {
    HasScheme(u.head) && '?' !in u.head && '#' !in u.head &&
    forall i :: 0 <= i < |u.params| ==> PlainParam(u.params[i])
  }

  lemma {:induction false} ParsedPiecesPlain(pieces: seq<string>)
    requires forall i :: 0 <= i < |pieces| ==> '&' !in pieces[i] && '#' !in pieces[i]
    ensures forall i :: 0 <= i < |ParsePieces(pieces)| ==> PlainParam(ParsePieces(pieces)[i])
  {
    if pieces != [] {
      ParsedPiecesPlain(pieces[1..]);
      var p := pieces[0];
      var i := Find(p, '=');
    }
  }

  lemma ParsedQueryPlain(query: string)
    requires '#' !in query
    ensures forall i :: 0 <= i < |ParseQuery(query)| ==> PlainParam(ParseQuery(query)[i])
  {
    var pieces := Split(query, '&');
    SplitNoChar(query, '&', '#');
    ParsedPiecesPlain(pieces);
  }

  lemma {:induction false} SplitNoChar(s: string, c: char, d: char)
    requires d !in s
    ensures forall i :: 0 <= i < |Split(s, c)| ==> d !in Split(s, c)[i]
    decreases |s|
  {
    var i := Find(s, c);
    if i < |s| {
      SplitNoChar(s[i + 1..], c, d);
    }
  }

  /** The query text `toString` writes after the head: '?' and the pairs, or nothing. */
  function QueryPart(ps: seq<Param>): string {
    if ps == [] then "" else "?" + SerializeQuery(ps)
  }

  function FragmentPart(f: Option<string>): string {
    if f.Some? then "#" + f.value else ""
  }

  /** The '#' that `toString` writes is the first one in its output. */
  lemma HashPosition(u: Url)
    requires WellFormed(u)
    ensures Find(Serialize(u), '#') == |u.head + QueryPart(u.params)|
    ensures Serialize(u)[..|u.head + QueryPart(u.params)|] == u.head + QueryPart(u.params)
  {
    var q, f := QueryPart(u.params), FragmentPart(u.fragment);
    if u.params != [] {
      NoHashInQuery(u.params);
    }
    assert '#' !in u.head + q;
    assert Serialize(u) == (u.head + q) + f;
    FindAfter(u.head + q, f, '#');
  }

  /** The text after the first '?' of the head and query part is the query. */
  lemma QueryPosition(u: Url)
    requires WellFormed(u)
    ensures Find(u.head + QueryPart(u.params), '?') == |u.head|
    ensures (u.head + QueryPart(u.params))[..|u.head|] == u.head
    ensures u.params != [] ==>
      (u.head + QueryPart(u.params))[|u.head| + 1..] == SerializeQuery(u.params)
  {
    var q := QueryPart(u.params);
    FindAfter(u.head, q, '?');
    if u.params != [] {
      assert (u.head + q)[|u.head| + 1..] == q[1..];
    }
  }

  /** Reading back what `toString` wrote gives the same URL. */
  lemma ParseSerialize(u: Url)
    requires WellFormed(u)
    ensures Parse(Serialize(u)) == Some(u)
  {
    var s := Serialize(u);
    var q, f := QueryPart(u.params), FragmentPart(u.fragment);
    assert s == u.head + (q + f);
    HasSchemePrefix(u.head, q + f);
    ComponentsSerialize(u);
  }

  lemma ComponentsSerialize(u: Url)
    requires WellFormed(u)
    ensures Components(Serialize(u)) == u
  {
    var s := Serialize(u);
    var body := u.head + QueryPart(u.params);
    HashPosition(u);
    QueryPosition(u);
    assert s[..Find(s, '#')] == body;
    assert HeadText(body) == u.head;
    SerializedQuery(u);
    SerializedFragment(u);
  }

  /** The query `toString` writes after the head parses back to the pairs. */
  lemma SerializedQuery(u: Url)
    requires WellFormed(u)
    requires Find(u.head + QueryPart(u.params), '?') == |u.head|
    requires u.params != [] ==>
      (u.head + QueryPart(u.params))[|u.head| + 1..] == SerializeQuery(u.params)
    ensures ParseQuery(QueryText(u.head + QueryPart(u.params))) == u.params
  {
    if u.params != [] {
      ParseSerializeQuery(u.params);
    } else {
      assert QueryText(u.head) == "";
      assert Split("", '&') == [""];
    }
  }

  /** The text after the first '#' of the output is the fragment. */
  lemma SerializedFragment(u: Url)
    requires WellFormed(u)
    requires Find(Serialize(u), '#') == |u.head + QueryPart(u.params)|
    ensures FragmentText(Serialize(u), Find(Serialize(u), '#')) == u.fragment
  {
    var s, body := Serialize(u), u.head + QueryPart(u.params);
    assert s == body + FragmentPart(u.fragment);
    if u.fragment.Some? {
      assert s[|body| + 1..] == u.fragment.value;
    }
  }

  // ---------------------------------------------------------------------
  // URLSearchParams.set
  // ---------------------------------------------------------------------

  /** The values paired with `name`, in order. */
  function ValuesOf(ps: seq<Param>, name: string): seq<string> {
    if ps == [] then []
    else if ps[0].0 == name then [ps[0].1] + ValuesOf(ps[1..], name)
    else ValuesOf(ps[1..], name)
  }

  /** The pairs whose name is not in `names`, in order. */
  function Keep(ps: seq<Param>, names: set<string>): seq<Param> {
    if ps == [] then []
    else if ps[0].0 in names then Keep(ps[1..], names)
    else [ps[0]] + Keep(ps[1..], names)
  }

  lemma {:induction false} KeepAppend(a: seq<Param>, b: seq<Param>, names: set<string>)
    ensures Keep(a + b, names) == Keep(a, names) + Keep(b, names)
  {
    if a == [] {
      assert a + b == b;
    } else {
      assert (a + b)[0] == a[0];
      assert (a + b)[1..] == a[1..] + b;
      KeepAppend(a[1..], b, names);
    }
  }

  lemma {:induction false} KeepMore(ps: seq<Param>, n: string, names: set<string>)
    requires n in names
    ensures Keep(Keep(ps, {n}), names) == Keep(ps, names)
  {
    if ps != [] {
      KeepMore(ps[1..], n, names);
    }
  }

  /** Keeping the other names keeps every value of a name not dropped. */
  lemma {:induction false} ValuesOfKeep(ps: seq<Param>, names: set<string>, m: string)
    requires m !in names
    ensures ValuesOf(Keep(ps, names), m) == ValuesOf(ps, m)
  {
    if ps != [] {
      ValuesOfKeep(ps[1..], names, m);
    }
  }

  lemma {:induction false} ValuesOfAppend(a: seq<Param>, b: seq<Param>, m: string)
    ensures ValuesOf(a + b, m) == ValuesOf(a, m) + ValuesOf(b, m)
  {
    if a == [] {
      assert a + b == b;
    } else {
      assert (a + b)[0] == a[0];
      assert (a + b)[1..] == a[1..] + b;
      ValuesOfAppend(a[1..], b, m);
    }
  }

  lemma {:induction false} ValuesOfDropped(ps: seq<Param>, n: string)
    ensures ValuesOf(Keep(ps, {n}), n) == []
  {
    if ps != [] {
      ValuesOfDropped(ps[1..], n);
    }
  }

  /** The index of the first pair named `name`, or `|ps|` when there is none. */
  function FirstNamed(ps: seq<Param>, name: string): (k: nat)
    ensures k <= |ps|
    ensures k < |ps| <==> ValuesOf(ps, name) != []
    ensures k < |ps| ==> ps[k].0 == name
    ensures forall j :: 0 <= j < k ==> ps[j].0 != name
  {
    if ps == [] || ps[0].0 == name then 0 else 1 + FirstNamed(ps[1..], name)
  }

  /**
   * The first pair named `name` gets `value` where it stands; the later
   * pairs with that name go.
   */
  function SetFirst(ps: seq<Param>, name: string, value: string): (r: seq<Param>)
    requires ValuesOf(ps, name) != []
    ensures ValuesOf(r, name) == [value]
    ensures forall names :: name in names ==> Keep(r, names) == Keep(ps, names)
  {
    if ps[0].0 == name then
      var r := [(name, value)] + Keep(ps[1..], {name});
      ValuesOfDropped(ps[1..], name);
      assert r[1..] == Keep(ps[1..], {name});
      forall names | name in names ensures Keep(r, names) == Keep(ps, names) {
        KeepMore(ps[1..], name, names);
      }
      r
    else
      var t := SetFirst(ps[1..], name, value);
      var r := [ps[0]] + t;
      assert r[1..] == t;
      r
  }

  /** The new pair stands where the first pair named `name` stood, before the pairs after it. */
  lemma {:induction false} SetFirstInPlace(ps: seq<Param>, name: string, value: string)
    requires ValuesOf(ps, name) != []
    ensures var k := FirstNamed(ps, name);
            SetFirst(ps, name, value) == ps[..k] + [(name, value)] + Keep(ps[k + 1..], {name})
  {
    if ps[0].0 == name {
      assert ps[..0] == [];
    } else {
      SetFirstInPlace(ps[1..], name, value);
      ShiftSlices(ps, FirstNamed(ps[1..], name), [(name, value)]);
    }
  }

  /** Slices of the tail of `ps` are slices of `ps` shifted by one. */
  lemma ShiftSlices<T>(ps: seq<T>, k: nat, m: seq<T>)
    requires k < |ps| - 1
    ensures [ps[0]] + (ps[1..][..k] + m) == ps[..k + 1] + m
    ensures ps[1..][k + 1..] == ps[k + 2..]
  {
    assert ps[..k + 1] == [ps[0]] + ps[1..][..k];
  }

  /** `searchParams.set(name, value)`, section 6.2 of the WHATWG URL Standard. */
  function Set(ps: seq<Param>, name: string, value: string): (r: seq<Param>)
    ensures ValuesOf(r, name) == [value]
    ensures forall names :: name in names ==> Keep(r, names) == Keep(ps, names)
    ensures ValuesOf(ps, name) == [] ==> r == ps + [(name, value)]
    ensures ValuesOf(ps, name) != [] ==>
              var k := FirstNamed(ps, name);
              r == ps[..k] + [(name, value)] + Keep(ps[k + 1..], {name})
  {
    if ValuesOf(ps, name) != [] then
      SetFirstInPlace(ps, name, value);
      SetFirst(ps, name, value)
    else
      var r := ps + [(name, value)];
      ValuesOfAppend(ps, [(name, value)], name);
      forall names | name in names ensures Keep(r, names) == Keep(ps, names) {
        KeepAppend(ps, [(name, value)], names);
      }
      r
  }

  /** Setting a name already present on the example `[(a, 1), (b, 2)]` replaces it in place. */
  lemma SetInPlaceExample()
    ensures Set([("a", "1"), ("b", "2")], "a", "3") == [("a", "3"), ("b", "2")]
  {
    var ps: seq<Param> := [("a", "1"), ("b", "2")];
    assert ValuesOf(ps, "a") != [];
    assert FirstNamed(ps, "a") == 0;
    assert ps[1..] == [("b", "2")];
    assert Keep([("b", "2")], {"a"}) == [("b", "2")] by {
      assert ("b", "2").0 !in {"a"};
      assert [("b", "2")][1..] == [];
    }
  }

  /** Another name keeps its values through `Set`. */
  lemma SetOtherName(ps: seq<Param>, name: string, value: string, m: string)
    requires m != name
    ensures ValuesOf(Set(ps, name, value), m) == ValuesOf(ps, m)
  {
    var r := Set(ps, name, value);
    assert Keep(r, {name}) == Keep(ps, {name});
    ValuesOfKeep(r, {name}, m);
    ValuesOfKeep(ps, {name}, m);
  }

  /** The names of a list of pairs. */
  function Names(kvs: seq<Param>): set<string> {
    set i | 0 <= i < |kvs| :: kvs[i].0
  }

  /** `set` called on each pair of `kvs` in turn. */
  function SetAll(ps: seq<Param>, kvs: seq<Param>): seq<Param>
    decreases |kvs|
  {
    if kvs == [] then ps else SetAll(Set(ps, kvs[0].0, kvs[0].1), kvs[1..])
  }

  /** After the calls each name of `kvs` has exactly its value there. */
  lemma {:induction false} SetAllValues(ps: seq<Param>, kvs: seq<Param>, i: nat)
    requires i < |kvs|
    requires forall j :: 0 <= j < |kvs| && j != i ==> kvs[j].0 != kvs[i].0
    ensures ValuesOf(SetAll(ps, kvs), kvs[i].0) == [kvs[i].1]
    decreases |kvs|
  {
    var ps' := Set(ps, kvs[0].0, kvs[0].1);
    if i == 0 {
      SetAllOthers(ps', kvs[1..], kvs[0].0);
    } else {
      SetAllValues(ps', kvs[1..], i - 1);
    }
  }

  /** A name outside `kvs` keeps its values. */
  lemma {:induction false} SetAllOthers(ps: seq<Param>, kvs: seq<Param>, m: string)
    requires forall j :: 0 <= j < |kvs| ==> kvs[j].0 != m
    ensures ValuesOf(SetAll(ps, kvs), m) == ValuesOf(ps, m)
    decreases |kvs|
  {
    if kvs != [] {
      SetOtherName(ps, kvs[0].0, kvs[0].1, m);
      SetAllOthers(Set(ps, kvs[0].0, kvs[0].1), kvs[1..], m);
    }
  }

  /** The pairs under other names stay, in their order. */
  lemma {:induction false} SetAllKeeps(ps: seq<Param>, kvs: seq<Param>, names: set<string>)
    requires Names(kvs) <= names
    ensures Keep(SetAll(ps, kvs), names) == Keep(ps, names)
    decreases |kvs|
  {
    if kvs != [] {
      assert kvs[0].0 in Names(kvs);
      assert Names(kvs[1..]) <= Names(kvs) by {
        forall n | n in Names(kvs[1..]) ensures n in Names(kvs) {
          var j :| 0 <= j < |kvs[1..]| && kvs[1..][j].0 == n;
          assert kvs[j + 1].0 == n;
        }
      }
      SetAllKeeps(Set(ps, kvs[0].0, kvs[0].1), kvs[1..], names);
    }
  }

  /** Setting plain pairs keeps every pair plain. */
  lemma {:induction false} SetAllPlain(ps: seq<Param>, kvs: seq<Param>)
    requires forall i :: 0 <= i < |ps| ==> PlainParam(ps[i])
    requires forall i :: 0 <= i < |kvs| ==> PlainParam(kvs[i])
    ensures forall i :: 0 <= i < |SetAll(ps, kvs)| ==> PlainParam(SetAll(ps, kvs)[i])
    decreases |kvs|
  {
    if kvs != [] {
      SetPlain(ps, kvs[0].0, kvs[0].1);
      SetAllPlain(Set(ps, kvs[0].0, kvs[0].1), kvs[1..]);
    }
  }

  lemma SetPlain(ps: seq<Param>, name: string, value: string)
    requires forall i :: 0 <= i < |ps| ==> PlainParam(ps[i])
    requires PlainParam((name, value))
    ensures forall i :: 0 <= i < |Set(ps, name, value)| ==> PlainParam(Set(ps, name, value)[i])
  {
    if ValuesOf(ps, name) != [] {
      SetFirstPlain(ps, name, value);
    }
  }

  lemma {:induction false} SetFirstPlain(ps: seq<Param>, name: string, value: string)
    requires ValuesOf(ps, name) != []
    requires forall i :: 0 <= i < |ps| ==> PlainParam(ps[i])
    requires PlainParam((name, value))
    ensures forall i :: 0 <= i < |SetFirst(ps, name, value)| ==> PlainParam(SetFirst(ps, name, value)[i])
  {
    if ps[0].0 == name {
      KeepPlain(ps[1..], {name});
    } else {
      SetFirstPlain(ps[1..], name, value);
    }
  }

  lemma {:induction false} KeepPlain(ps: seq<Param>, names: set<string>)
    requires forall i :: 0 <= i < |ps| ==> PlainParam(ps[i])
    ensures forall i :: 0 <= i < |Keep(ps, names)| ==> PlainParam(Keep(ps, names)[i])
  {
    if ps != [] {
      KeepPlain(ps[1..], names);
    }
  }
}
