/*
 * The JavaScript built-ins the widgets lean on, modelled on Dafny sequences:
 * `String.prototype.includes` / `startsWith`, `split(sep).pop()`, the
 * lower-casing used for table lookups, `trim`, the truncating `%` operator,
 * `Math.round`, the decimal rendering of a non-negative integer and the
 * UTF-16 code units a JavaScript string is made of.
 */
module JsText {

  /** One UTF-16 code unit: what a JavaScript string is a sequence of. */
  newtype CodeUnit = u: int | 0 <= u < 0x1_0000

  /** A JavaScript string, code unit by code unit. */
  type JsString = seq<CodeUnit>

  // ---------------------------------------------------------------------
  // includes / startsWith
  // ---------------------------------------------------------------------

  /** `s.startsWith(p)` */
  predicate StartsWith<T(==)>(s: seq<T>, p: seq<T>) {
    |p| <= |s| && s[..|p|] == p
  }

  /** `s.includes(sub)`: some start position of `s` begins with `sub`. */
  predicate Contains<T(==)>(s: seq<T>, sub: seq<T>)
    decreases |s|
  {
    StartsWith(s, sub) || (|s| > 0 && Contains(s[1..], sub))
  }

  /** `sub` occurs in `s` starting at index `i`. */
  ghost predicate OccursAt<T>(s: seq<T>, sub: seq<T>, i: int) {
    0 <= i && i + |sub| <= |s| && s[i..i + |sub|] == sub
  }

  /** The scanning definition of `includes` agrees with "occurs at some index". */
  lemma {:induction false} ContainsIff<T>(s: seq<T>, sub: seq<T>)
    ensures Contains(s, sub) <==> exists i :: OccursAt(s, sub, i)
  {
    if Contains(s, sub) {
      if StartsWith(s, sub) {
        assert OccursAt(s, sub, 0);
      } else {
        ContainsIff(s[1..], sub);
        var j :| OccursAt(s[1..], sub, j);
        assert s[1..][j..j + |sub|] == s[j + 1..j + 1 + |sub|];
        assert OccursAt(s, sub, j + 1);
      }
    }
    if exists i :: OccursAt(s, sub, i) {
      var i :| OccursAt(s, sub, i);
      if i == 0 {
        assert StartsWith(s, sub);
      } else {
        assert s[1..][i - 1..i - 1 + |sub|] == s[i..i + |sub|];
        assert OccursAt(s[1..], sub, i - 1);
        ContainsIff(s[1..], sub);
      }
    }
  }

  /** Whatever occurs in `b` occurs in `a + b + c`. */
  lemma {:induction false} ContainsInfix<T>(a: seq<T>, b: seq<T>, c: seq<T>, sub: seq<T>)
    requires Contains(b, sub)
    ensures Contains(a + b + c, sub)
  {
    ContainsIff(b, sub);
    var i :| OccursAt(b, sub, i);
    assert (a + b + c)[|a| + i..|a| + i + |sub|] == b[i..i + |sub|];
    assert OccursAt(a + b + c, sub, |a| + i);
    ContainsIff(a + b + c, sub);
  }

  /** Whatever contains `sub` contains every prefix of `sub`. */
  lemma ContainsPrefix<T>(s: seq<T>, sub: seq<T>, p: seq<T>)
    requires Contains(s, sub) && StartsWith(sub, p)
    ensures Contains(s, p)
  {
    ContainsIff(s, sub);
    var i :| OccursAt(s, sub, i);
    assert s[i..i + |p|] == sub[..|p|];
    assert OccursAt(s, p, i);
    ContainsIff(s, p);
  }

  /** Whatever contains a non-empty `sub` contains its first element. */
  lemma ContainsFirst<T>(s: seq<T>, sub: seq<T>)
    requires Contains(s, sub) && sub != []
    ensures sub[0] in s
  {
    ContainsIff(s, sub);
    var i :| OccursAt(s, sub, i);
    assert s[i] == sub[0];
  }

  // ---------------------------------------------------------------------
  // split(sep).pop()
  // ---------------------------------------------------------------------

  /**
   * `s.split(sep).pop()`: the part of `s` after its last `sep`, or all of
   * `s` when `sep` does not occur in it.
   */
  function LastSegment<T(==)>(s: seq<T>, sep: T): (r: seq<T>)
    ensures |r| <= |s| && r == s[|s| - |r|..]
    ensures sep !in r
    ensures |r| < |s| ==> s[|s| - |r| - 1] == sep
    decreases |s|
  {
    if |s| == 0 then []
    else if s[|s| - 1] == sep then []
    else
      SegmentExtends(s, LastSegment(s[..|s| - 1], sep), sep);
      LastSegment(s[..|s| - 1], sep) + [s[|s| - 1]]
  }

  /** A segment of all but the last element, extended by that element when it is not the separator. */
  lemma SegmentExtends<T>(s: seq<T>, r: seq<T>, sep: T)
    requires |s| > 0 && s[|s| - 1] != sep
    requires |r| <= |s| - 1 && r == s[..|s| - 1][|s| - 1 - |r|..] && sep !in r
    requires |r| < |s| - 1 ==> s[..|s| - 1][|s| - 2 - |r|] == sep
    ensures var t := r + [s[|s| - 1]];
            |t| <= |s| && t == s[|s| - |t|..] && sep !in t && (|t| < |s| ==> s[|s| - |t| - 1] == sep)
  {
    var t := r + [s[|s| - 1]];
    assert s[|s| - |t|..] == s[..|s| - 1][|s| - 1 - |r|..] + [s[|s| - 1]];
  }

  /** With no separator in `s`, `split(sep).pop()` is all of `s`. */
  lemma LastSegmentWhole<T>(s: seq<T>, sep: T)
    requires sep !in s
    ensures LastSegment(s, sep) == s
  {
  }

  /** The segment after the last separator of `prefix + [sep] + tail`. */
  lemma {:induction false} LastSegmentAfter<T>(prefix: seq<T>, sep: T, tail: seq<T>)
    requires sep !in tail
    ensures LastSegment(prefix + [sep] + tail, sep) == tail
  {
    var s := prefix + [sep] + tail;
    if tail != [] {
      var init := tail[..|tail| - 1];
      assert s[..|s| - 1] == prefix + [sep] + init;
      assert tail[|tail| - 1] in tail;
      LastSegmentAfter(prefix, sep, init);
      assert tail == init + [tail[|tail| - 1]];
    }
  }

  // ---------------------------------------------------------------------
  // toLowerCase, as far as the lookup tables can tell
  // ---------------------------------------------------------------------

  /** Lower-case one ASCII letter; every other character is left alone. */
  function LowerChar(c: char): char {
    if 'A' <= c <= 'Z' then (c as int + 32) as char else c
  }

  /**
   * `s.toLowerCase()` on the ASCII letters. The only non-ASCII character
   * that lowers to ASCII text alone is the Kelvin sign (to 'k'), and no
   * table the widgets look a lowered string up in has a key with a 'k'
   * (U+0130 lowers to 'i' followed by a combining dot, which no key holds
   * either), so the lookups agree.
   */
  function AsciiLower(s: string): (r: string)
    ensures |r| == |s|
  {
    seq(|s|, i requires 0 <= i < |s| => LowerChar(s[i]))
  }

  /** Lowering leaves no upper-case ASCII letter and changes no other character. */
  lemma AsciiLowerLowers(s: string)
    ensures forall i :: 0 <= i < |s| ==> !('A' <= AsciiLower(s)[i] <= 'Z')
    ensures forall i :: 0 <= i < |s| && !('A' <= s[i] <= 'Z') ==> AsciiLower(s)[i] == s[i]
  {
  }

  /** Text without upper-case ASCII letters lowers to itself. */
  lemma AsciiLowerIdentity(s: string)
    requires forall i :: 0 <= i < |s| ==> !('A' <= s[i] <= 'Z')
    ensures AsciiLower(s) == s
  {
  }

  // ---------------------------------------------------------------------
  // Numbers
  // ---------------------------------------------------------------------

  /**
   * JavaScript's `a % 360`: the remainder of the division truncated toward
   * zero, which takes the sign of `a` (Dafny's own `%` never goes negative).
   */
  function JsRem360(a: int): (r: int)
    ensures -360 < r < 360
    ensures a >= 0 ==> r >= 0
    ensures a <= 0 ==> r <= 0
    ensures (a - r) % 360 == 0
  {
    if a >= 0 then a % 360 else -((-a) % 360)
  }

  /** `Math.round(x)`: the nearest integer, halves rounded up. */
  function JsRound(x: real): (r: int)
    ensures r as real - 0.5 <= x < r as real + 0.5
  {
    (x + 0.5).Floor
  }

  /** `Math.max(lo, Math.min(hi, v))` */
  function ClampMaxMin(lo: real, hi: real, v: real): (r: real)
    ensures lo <= r
    ensures r <= hi || r == lo
    ensures lo <= v <= hi ==> r == v
  {
    var m := if hi < v then hi else v;
    if lo > m then lo else m
  }

  /** The character of one decimal digit. */
  function DigitChar(d: nat): (c: char)
    requires d < 10
    ensures '0' <= c <= '9' && c as int - '0' as int == d
  {
    (d + '0' as int) as char
  }

  /** `String(n)` for a non-negative integer: its decimal digits. */
  function Decimal(n: nat): (s: string)
    ensures |s| >= 1
    ensures n < 10 <==> |s| == 1
    ensures forall i :: 0 <= i < |s| ==> '0' <= s[i] <= '9'
    decreases n
  {
    if n < 10 then [DigitChar(n)] else Decimal(n / 10) + [DigitChar(n % 10)]
  }

  /** Different numbers render as different strings. */
  lemma {:induction false} DecimalInjective(m: nat, n: nat)
    requires Decimal(m) == Decimal(n)
    ensures m == n
    decreases m
  {
    if m >= 10 && n >= 10 {
      var dm, dn := Decimal(m), Decimal(n);
      assert dm[..|dm| - 1] == Decimal(m / 10);
      assert dn[..|dn| - 1] == Decimal(n / 10);
      DecimalInjective(m / 10, n / 10);
      assert dm[|dm| - 1] == DigitChar(m % 10);
      assert dn[|dn| - 1] == DigitChar(n % 10);
    }
  }

  // ---------------------------------------------------------------------
  // UTF-16
  // ---------------------------------------------------------------------

  /** The UTF-16 code units of one Unicode scalar value. */
  function EncodeChar(c: char): (r: JsString)
    ensures |r| == (if c as int < 0x1_0000 then 1 else 2)
  {
    var v := c as int;
    if v < 0x1_0000 then [v as CodeUnit]
    else [(0xD800 + (v - 0x1_0000) / 0x400) as CodeUnit, (0xDC00 + (v - 0x1_0000) % 0x400) as CodeUnit]
  }

  /** The JavaScript string holding the text `s`. */
  function Utf16(s: string): (r: JsString)
    ensures |r| >= |s|
    ensures (forall i :: 0 <= i < |s| ==> s[i] as int < 0x1_0000) ==> |r| == |s|
  {
    if s == [] then [] else EncodeChar(s[0]) + Utf16(s[1..])
  }

  /** Text within the Basic Multilingual Plane takes one code unit per character, its own code. */
  lemma {:induction false} Utf16Bmp(s: string)
    requires forall i :: 0 <= i < |s| ==> s[i] as int < 0x1_0000
    ensures |Utf16(s)| == |s|
    ensures forall i :: 0 <= i < |s| ==> Utf16(s)[i] as int == s[i] as int
  {
    if s != [] {
      Utf16Bmp(s[1..]);
      assert Utf16(s) == [s[0] as int as CodeUnit] + Utf16(s[1..]);
    }
  }

  // ---------------------------------------------------------------------
  // trim
  // ---------------------------------------------------------------------

  /**
   * The code units `String.prototype.trim` strips: WhiteSpace (TAB, VT, FF,
   * ZWNBSP and every space separator) and LineTerminator (LF, CR, LS, PS).
   */
  predicate IsJsSpace(u: CodeUnit) {
    u == 0x09 || u == 0x0A || u == 0x0B || u == 0x0C || u == 0x0D || u == 0x20 ||
    u == 0xA0 || u == 0x1680 || (0x2000 <= u <= 0x200A) || u == 0x2028 || u == 0x2029 ||
    u == 0x202F || u == 0x205F || u == 0x3000 || u == 0xFEFF
  }

  /** `s` with its leading white space removed. */
  function TrimStart(s: JsString): (r: JsString)
    ensures |r| <= |s| && r == s[|s| - |r|..]
    ensures r != [] ==> !IsJsSpace(r[0])
    ensures forall i :: 0 <= i < |s| - |r| ==> IsJsSpace(s[i])
  {
    if s != [] && IsJsSpace(s[0]) then
      var r := TrimStart(s[1..]);
      assert s[1..][|s| - 1 - |r|..] == s[|s| - |r|..];
      r
    else s
  }

  /** `s` with its trailing white space removed. */
  function TrimEnd(s: JsString): (r: JsString)
    ensures |r| <= |s| && r == s[..|r|]
    ensures r != [] ==> !IsJsSpace(r[|r| - 1])
    ensures forall i :: |r| <= i < |s| ==> IsJsSpace(s[i])
  {
    if s != [] && IsJsSpace(s[|s| - 1]) then TrimEnd(s[..|s| - 1]) else s
  }

  /** `s.trim()` */
  function Trim(s: JsString): JsString {
    TrimEnd(TrimStart(s))
  }

  /** `s.trim()` is empty exactly when every code unit of `s` is white space. */
  lemma TrimEmptyIff(s: JsString)
    ensures Trim(s) == [] <==> forall i :: 0 <= i < |s| ==> IsJsSpace(s[i])
  {
    if Trim(s) == [] {
      assert TrimStart(s) == [];
    }
  }

  /** Trimming twice trims nothing more. */
  lemma TrimIdempotent(s: JsString)
    ensures Trim(Trim(s)) == Trim(s)
  {
    var t := Trim(s);
    if t != [] {
      assert TrimStart(t) == t;
      assert TrimEnd(t) == t;
    }
  }
}
