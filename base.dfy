/**
 * Shared vocabulary: an Option type for Kotlin's nullable values, the 32-bit
 * integer range of Kotlin's `Int`, and the few Kotlin/JVM string functions the
 * application relies on (`isWhitespace`, `trim`, `isBlank`, `contains`,
 * `indexOf`, `substringAfter`, `substringBefore`, `toIntOrNull`, `split`,
 * `lineSequence`, `Int.toString`, `String.hashCode`).
 */
module Base {

  datatype Option<T> = None | Some(value: T)

  // ---------------------------------------------------------------------------
  // Choosing an element of a set (the iteration order of a hash set or map)

  ghost function Pick<T>(s: set<T>): (r: T)
    requires s != {}
    ensures r in s
  {
    var y :| y in s; y
  }

  method PickFrom<T>(s: set<T>) returns (r: T)
    requires s != {}
    ensures r in s
  {
    r :| r in s;
  }

  // ---------------------------------------------------------------------------
  // Kotlin Int (32-bit two's complement)

  const INT_MIN: int := -0x8000_0000
  const INT_MAX: int := 0x7FFF_FFFF

  predicate IsInt32(n: int) { INT_MIN <= n <= INT_MAX }

  /** Two's-complement wrap-around of an unbounded integer into the Int range. */
  function Wrap32(n: int): (r: int)
    ensures IsInt32(r)
    ensures (r - n) % 0x1_0000_0000 == 0
    ensures IsInt32(n) ==> r == n
  {
    (n - INT_MIN) % 0x1_0000_0000 + INT_MIN
  }

  // ---------------------------------------------------------------------------
  // Characters

  /**
   * Kotlin's `Char.isWhitespace()` on the JVM: `Character.isWhitespace(c) ||
   * Character.isSpaceChar(c)`, i.e. the ASCII controls TAB..CR and FS..US plus
   * every character of the Unicode categories Zs, Zl and Zp.
   */
  predicate IsWhitespace(c: char) {
    var n := c as int;
    n == 0x20 || (0x09 <= n <= 0x0D) || (0x1C <= n <= 0x1F)
    || n == 0xA0 || n == 0x1680 || (0x2000 <= n <= 0x200A)
    || n == 0x2028 || n == 0x2029 || n == 0x202F || n == 0x205F
    || n == 0x3000
  }

  predicate IsAsciiDigit(c: char) { '0' <= c <= '9' }

  // ---------------------------------------------------------------------------
  // Substrings

  predicate StartsWith(s: string, p: string) { |p| <= |s| && s[..|p|] == p }

  predicate EndsWith(s: string, p: string) { |p| <= |s| && s[|s| - |p|..] == p }

  /** `sub` occurs in `s` starting at index `i`. */
  predicate OccursAt(s: string, sub: string, i: nat) {
    i + |sub| <= |s| && s[i..i + |sub|] == sub
  }

  /** Kotlin's `s.contains(sub)`. */
  predicate Contains(s: string, sub: string) {
    exists i :: 0 <= i <= |s| && OccursAt(s, sub, i)
  }

  /** Kotlin's `s.indexOf(sub, from)`: the first occurrence at or after `from`. */
  function IndexOf(s: string, sub: string, from: nat): (r: Option<nat>)
    ensures r.Some? ==> from <= r.value && OccursAt(s, sub, r.value)
    ensures r.Some? ==> forall j: nat :: from <= j < r.value ==> !OccursAt(s, sub, j)
    ensures r.None? ==> forall j: nat :: from <= j ==> !OccursAt(s, sub, j)
    decreases |s| - from
  {
    if from + |sub| > |s| then None
    else if s[from..from + |sub|] == sub then Some(from)
    else IndexOf(s, sub, from + 1)
  }

  lemma ContainsIffIndexOf(s: string, sub: string)
    ensures Contains(s, sub) <==> IndexOf(s, sub, 0).Some?
  {
    if IndexOf(s, sub, 0).Some? {
      assert OccursAt(s, sub, IndexOf(s, sub, 0).value);
    }
  }

  /** Kotlin's `s.substringAfter(delimiter, missing)`. */
  function SubstringAfter(s: string, delimiter: string, missing: string): (r: string)
    ensures IndexOf(s, delimiter, 0).None? ==> r == missing
    ensures IndexOf(s, delimiter, 0).Some? ==>
      s == s[..IndexOf(s, delimiter, 0).value] + delimiter + r
  {
    match IndexOf(s, delimiter, 0)
    case None => missing
    case Some(i) =>
      assert s == s[..i] + s[i..i + |delimiter|] + s[i + |delimiter|..];
      s[i + |delimiter|..]
  }

  /** Kotlin's `s.substringBefore(delimiter)` (the whole string when it is missing). */
  function SubstringBefore(s: string, delimiter: string): (r: string)
    ensures StartsWith(s, r)
    ensures IndexOf(s, delimiter, 0).None? ==> r == s
    ensures IndexOf(s, delimiter, 0).Some? ==> OccursAt(s, delimiter, |r|)
    ensures forall j: nat :: j < |r| ==> !OccursAt(s, delimiter, j)
  {
    match IndexOf(s, delimiter, 0)
    case None => s
    case Some(i) => s[..i]
  }

  /** The text before the first `c` holds no `c`. */
  lemma BeforeCharFree(s: string, c: char)
    ensures forall j :: 0 <= j < |SubstringBefore(s, [c])| ==> SubstringBefore(s, [c])[j] != c
  {
    var r := SubstringBefore(s, [c]);
    forall j | 0 <= j < |r| ensures r[j] != c {
      assert !OccursAt(s, [c], j);
      assert s[j..j + 1] == [r[j]];
    }
  }

  // ---------------------------------------------------------------------------
  // Blank strings and trim

  /** Kotlin's `isBlank()`: empty or whitespace only. */
  predicate IsBlank(s: string) {
    forall i :: 0 <= i < |s| ==> IsWhitespace(s[i])
  }

  function TrimStartIndex(s: string, i: nat): (r: nat)
    requires i <= |s|
    ensures i <= r <= |s|
    ensures forall k :: i <= k < r ==> IsWhitespace(s[k])
    ensures r < |s| ==> !IsWhitespace(s[r])
    decreases |s| - i
  {
    if i < |s| && IsWhitespace(s[i]) then TrimStartIndex(s, i + 1) else i
  }

  function TrimEndIndex(s: string, lo: nat, j: nat): (r: nat)
    requires lo <= j <= |s|
    ensures lo <= r <= j
    ensures forall k :: r <= k < j ==> IsWhitespace(s[k])
    ensures r > lo ==> !IsWhitespace(s[r - 1])
    decreases j
  {
    if j > lo && IsWhitespace(s[j - 1]) then TrimEndIndex(s, lo, j - 1) else j
  }

  /**
   * Kotlin's `trim()`: the longest slice of `s` that neither starts nor ends
   * with whitespace, obtained by dropping whitespace at both ends.
   */
  function Trim(s: string): (r: string)
    ensures exists a, b :: 0 <= a <= b <= |s| && r == s[a..b] &&
              (forall k :: 0 <= k < a ==> IsWhitespace(s[k])) &&
              (forall k :: b <= k < |s| ==> IsWhitespace(s[k]))
    ensures r != [] ==> !IsWhitespace(r[0]) && !IsWhitespace(r[|r| - 1])
    ensures r == [] <==> IsBlank(s)
  {
    var a := TrimStartIndex(s, 0);
    var b := TrimEndIndex(s, a, |s|);
    assert b > a ==> !IsWhitespace(s[a]);
    s[a..b]
  }

  // ---------------------------------------------------------------------------
  // Integers as text

  function DigitChar(d: nat): (c: char)
    requires d < 16
    ensures IsAsciiDigit(c) <==> d < 10
  {
    if d < 10 then ('0' as int + d) as char else ('a' as int + d - 10) as char
  }

  /** Digits of a natural number in base `radix` (10 or 16), most significant first. */
  function NatToString(n: nat, radix: nat): (r: string)
    requires radix == 10 || radix == 16
    ensures |r| > 0
    decreases n
  {
    if n < radix then [DigitChar(n)] else NatToString(n / radix, radix) + [DigitChar(n % radix)]
  }

  /** Kotlin's `Int.toString(radix)`: a minus sign followed by the magnitude. */
  function IntToString(n: int, radix: nat): (r: string)
    requires radix == 10 || radix == 16
    ensures |r| > 0
  {
    if n < 0 then "-" + NatToString(-n, radix) else NatToString(n, radix)
  }

  /** Value of a non-empty string of ASCII digits. */
  function DigitsValue(s: string): (v: nat)
    requires forall i :: 0 <= i < |s| ==> IsAsciiDigit(s[i])
    decreases |s|
  {
    if s == [] then 0
    else
      assert IsAsciiDigit(s[|s| - 1]);
      10 * DigitsValue(s[..|s| - 1]) + (s[|s| - 1] as int - '0' as int)
  }

  predicate AllDigits(s: string) {
    |s| > 0 && forall i :: 0 <= i < |s| ==> IsAsciiDigit(s[i])
  }

  /**
   * Kotlin's `String.toIntOrNull()` (radix 10): an optional leading `-` or `+`,
   * then at least one digit, and the value must fit in an `Int`.
   */
  function ToIntOrNull(s: string): (r: Option<int>)
    ensures r.Some? ==> IsInt32(r.value)
    ensures r.Some? ==> |s| > 0
  {
    if |s| == 0 then None
    else if s[0] == '-' || s[0] == '+' then
      var body := s[1..];
      if !AllDigits(body) then None
      else
        var v: int := if s[0] == '-' then 0 - (DigitsValue(body) as int) else DigitsValue(body) as int;
        if IsInt32(v) then Some(v) else None
    else if !AllDigits(s) then None
    else if IsInt32(DigitsValue(s)) then Some(DigitsValue(s))
    else None
  }

  lemma {:induction false} NatToStringDigits(n: nat)
    ensures AllDigits(NatToString(n, 10))
    ensures DigitsValue(NatToString(n, 10)) == n
    decreases n
  {
    if n >= 10 {
      NatToStringDigits(n / 10);
      var s := NatToString(n, 10);
      assert s[..|s| - 1] == NatToString(n / 10, 10);
    }
  }

  /** `toIntOrNull` inverts `toString` on every Int. */
  lemma IntToStringRoundTrip(n: int)
    requires IsInt32(n)
    ensures ToIntOrNull(IntToString(n, 10)) == Some(n)
  {
    if n < 0 {
      NatToStringDigits(-n);
      assert IntToString(n, 10)[1..] == NatToString(-n, 10);
    } else {
      NatToStringDigits(n);
    }
  }

  lemma IntToStringInjective(m: int, n: int)
    requires IsInt32(m) && IsInt32(n)
    requires IntToString(m, 10) == IntToString(n, 10)
    ensures m == n
  {
    IntToStringRoundTrip(m);
    IntToStringRoundTrip(n);
  }

  // ---------------------------------------------------------------------------
  // String.hashCode

  /** Java's `String.hashCode()`: h = 31 * h + code, with 32-bit wrap-around. */
  function HashCode(s: string): (h: int)
    ensures IsInt32(h)
    decreases |s|
  {
    if s == [] then 0 else Wrap32(31 * HashCode(s[..|s| - 1]) + s[|s| - 1] as int)
  }

  // ---------------------------------------------------------------------------
  // Splitting into lines

  /** Concatenation of a list of strings. */
  function Concat(ss: seq<string>): (r: string)
    decreases |ss|
  {
    if ss == [] then "" else Concat(ss[..|ss| - 1]) + ss[|ss| - 1]
  }

  /** A non-empty sequence is its prefix followed by its last element. */
  lemma InitLast<T>(s: seq<T>)
    requires s != []
    ensures s == s[..|s| - 1] + [s[|s| - 1]]
  {
  }

  /** Dropping the last element of `a + b` for a non-empty `b` drops it from `b`. */
  lemma ConcatInit<T>(a: seq<T>, b: seq<T>)
    requires b != []
    ensures (a + b)[..|a + b| - 1] == a + b[..|b| - 1] && (a + b)[|a + b| - 1] == b[|b| - 1]
  {
  }

  /** A suffix is a middle slice followed by the suffix after it. */
  lemma SliceSplit<T>(s: seq<T>, i: nat, j: nat)
    requires i <= j <= |s|
    ensures s[i..] == s[i..j] + s[j..]
  {
  }

  /** A non-empty suffix is its first element followed by the rest. */
  lemma SliceThree<T>(s: seq<T>, i: nat, j: nat)
    requires i <= j <= |s|
    ensures s == s[..i] + s[i..j] + s[j..]
  {
  }

  lemma RegroupConcat<T>(a: seq<T>, b: seq<T>, c: seq<T>, w: seq<T>)
    requires a + (b + c) == w
    ensures (a + b) + c == w
  {
  }

  lemma SliceFirst<T>(s: seq<T>, i: nat)
    requires i < |s|
    ensures s[i..] == [s[i]] + s[i + 1..]
  {
  }

  lemma {:induction false} ConcatAppend(a: seq<string>, b: seq<string>)
    ensures Concat(a + b) == Concat(a) + Concat(b)
    decreases |b|
  {
    if b == [] {
      assert a + b == a;
    } else {
      var ab, init, last := a + b, b[..|b| - 1], b[|b| - 1];
      ConcatAppend(a, init);
      assert ab[..|ab| - 1] == a + init && ab[|ab| - 1] == last;
      assert Concat(ab) == Concat(a + init) + last;
      assert Concat(b) == Concat(init) + last;
      assert (Concat(a) + Concat(init)) + last == Concat(a) + (Concat(init) + last);
    }
  }

  /** `ss` joined with `sep` between consecutive elements (Kotlin's `joinToString(sep)`). */
  function Join(ss: seq<string>, sep: string): (r: string)
    decreases |ss|
  {
    if ss == [] then "" else if |ss| == 1 then ss[0] else Join(ss[..|ss| - 1], sep) + sep + ss[|ss| - 1]
  }

  lemma {:induction false} JoinAppend(a: seq<string>, b: seq<string>, sep: string)
    requires a != [] && b != []
    ensures Join(a + b, sep) == Join(a, sep) + sep + Join(b, sep)
    decreases |b|
  {
    if |b| == 1 {
      assert (a + b)[..|a + b| - 1] == a;
    } else {
      JoinAppend(a, b[..|b| - 1], sep);
      assert (a + b)[..|a + b| - 1] == a + b[..|b| - 1];
    }
  }

  /** Extending the last piece by `c` extends the joined string by `c`. */
  lemma JoinExtendLast(ss: seq<string>, sep: string, c: char)
    requires ss != []
    ensures Join(ss[..|ss| - 1] + [ss[|ss| - 1] + [c]], sep) == Join(ss, sep) + [c]
  {
    var r := ss[..|ss| - 1] + [ss[|ss| - 1] + [c]];
    assert r[..|r| - 1] == ss[..|ss| - 1];
  }

  /**
   * Kotlin's `s.split(sep)` for a one-character separator: every piece between
   * separators, keeping empty pieces (also a trailing one).
   */
  function Split(s: string, sep: char): (r: seq<string>)
    ensures |r| > 0
    ensures forall k, i :: 0 <= k < |r| && 0 <= i < |r[k]| ==> r[k][i] != sep
    ensures Join(r, [sep]) == s
    decreases |s|
  {
    if s == [] then [""]
    else
      var rest := Split(s[..|s| - 1], sep);
      if s[|s| - 1] == sep then
        assert s == s[..|s| - 1] + [sep] + "";
        rest + [""]
      else
        var r := rest[..|rest| - 1] + [rest[|rest| - 1] + [s[|s| - 1]]];
        JoinExtendLast(rest, [sep], s[|s| - 1]);
        InitLast(s);
        assert forall k :: 0 <= k < |r| - 1 ==> r[k] == rest[k];
        r
  }

  predicate IsLineBreak(c: char) { c == '\n' || c == '\r' }

  /**
   * Kotlin's `lineSequence()`: the pieces between the line terminators
   * "\r\n", "\n" and "\r" (the two-character one is tried first). Scanning
   * proceeds from `i` with the piece read so far in `cur`.
   */
  function LinesFrom(s: string, i: nat, cur: string): (r: seq<string>)
    requires i <= |s|
    requires forall j :: 0 <= j < |cur| ==> !IsLineBreak(cur[j])
    ensures |r| > 0
    ensures forall k, j :: 0 <= k < |r| && 0 <= j < |r[k]| ==> !IsLineBreak(r[k][j])
    decreases |s| - i
  {
    if i == |s| then [cur]
    else if s[i] == '\r' && i + 1 < |s| && s[i + 1] == '\n' then [cur] + LinesFrom(s, i + 2, "")
    else if IsLineBreak(s[i]) then [cur] + LinesFrom(s, i + 1, "")
    else LinesFrom(s, i + 1, cur + [s[i]])
  }

  function Lines(s: string): (r: seq<string>)
    ensures |r| > 0
    ensures forall k, j :: 0 <= k < |r| && 0 <= j < |r[k]| ==> !IsLineBreak(r[k][j])
  {
    LinesFrom(s, 0, "")
  }
}
