/**
 * The HTML-to-text normaliser `HTMLUtil.toText` (util/HTMLUtil.kt): a fixed
 * chain of six replace-all rewrites followed by `trim`.
 *
 * Each rewrite is modelled as the JVM's `replace`: the input is scanned from
 * the left; where the pattern matches, the match is replaced and scanning
 * resumes after it; elsewhere one character is copied. None of the patterns
 * can match the empty string. The match functions state the regex semantics
 * of their pattern (`(?i)` folds ASCII letters only; `\s` is
 * `[ \t\n\x0B\f\r]`; `[^>]` includes line breaks; quantifiers are greedy).
 *
 * The output properties are tracked by four small scanners (`Check`): each
 * reads a string left to right and falls into `FAIL` exactly when the
 * property is violated. A rewrite whose matches and replacement look alike to
 * a scanner leaves the scanner's verdict unchanged, which is how a property
 * established by one step survives the following ones.
 */
module HtmlUtil {
  import opened Base

  const NBSP: string := "&nbsp;"

  /** Java's `\s` without the Unicode flag. */
  predicate IsRegexSpace(c: char) {
    c == ' ' || c == '\t' || c == '\n' || c as int == 0x0B || c as int == 0x0C || c == '\r'
  }

  /** ASCII lower-casing, the folding `(?i)` applies. */
  function Lower(c: char): (r: char)
    ensures r == c || ('A' <= c <= 'Z' && 'a' <= r <= 'z')
  {
    if 'A' <= c <= 'Z' then (c as int + 32) as char else c
  }

  /** `s[i..]` starts with `lit` up to ASCII case (`lit` is lower case). */
  predicate CiAt(s: string, i: nat, lit: string) {
    i + |lit| <= |s| && forall j :: 0 <= j < |lit| ==> Lower(s[i + j]) == lit[j]
  }

  /** A case-insensitive match of a literal tag is a match of `<[^>]+>`. */
  lemma CiTag(s: string, i: nat, lit: string)
    requires CiAt(s, i, lit) && |lit| >= 3 && lit[0] == '<' && lit[|lit| - 1] == '>'
    requires forall k :: 0 < k < |lit| - 1 ==> lit[k] != '>'
    ensures HasTagAt(s, i, i + |lit| - 1)
  {
    assert Lower(s[i + 0]) == lit[0];
    assert Lower(s[i + (|lit| - 1)]) == lit[|lit| - 1];
    forall m | i < m < i + |lit| - 1 ensures s[m] != '>' {
      assert Lower(s[i + (m - i)]) == lit[m - i];
    }
  }

  /** A match of `(?i)<br\s*\/?>` is also a match of `<[^>]+>`. */
  lemma BrIsTag(s: string, i: nat, k: nat)
    requires BrShape(s, i, k)
    ensures HasTagAt(s, i, k - 1)
  {
    var lit := "<br";
    assert Lower(s[i + 0]) == lit[0] == '<';
    assert Lower(s[i + 1]) == lit[1] == 'b';
    assert Lower(s[i + 2]) == lit[2] == 'r';
  }

  // ---------------------------------------------------------------------------
  // Scanning helpers

  /** Length of the run of `c` starting at `i`. */
  function RunLen(s: string, i: nat, c: char): (n: nat)
    requires i <= |s|
    ensures i + n <= |s|
    ensures forall j :: i <= j < i + n ==> s[j] == c
    ensures i + n < |s| ==> s[i + n] != c
    decreases |s| - i
  {
    if i < |s| && s[i] == c then 1 + RunLen(s, i + 1, c) else 0
  }

  /** End of the run of `\s` characters starting at `j`. */
  function SpaceEnd(s: string, j: nat): (e: nat)
    requires j <= |s|
    ensures j <= e <= |s|
    ensures forall m :: j <= m < e ==> IsRegexSpace(s[m])
    ensures e < |s| ==> !IsRegexSpace(s[e])
    decreases |s| - j
  {
    if j < |s| && IsRegexSpace(s[j]) then SpaceEnd(s, j + 1) else j
  }

  /** Index of the first '>' at or after `j`, or `|s|`. */
  function FirstGt(s: string, j: nat): (k: nat)
    requires j <= |s|
    ensures j <= k <= |s|
    ensures forall m :: j <= m < k ==> s[m] != '>'
    ensures k < |s| ==> s[k] == '>'
    decreases |s| - j
  {
    if j < |s| && s[j] != '>' then FirstGt(s, j + 1) else j
  }

  // ---------------------------------------------------------------------------
  // The patterns

  /** `s[i..k]` is a match of `(?i)<br\s*\/?>`. */
  predicate BrShape(s: string, i: nat, k: nat) {
    i + 4 <= k <= |s| && CiAt(s, i, "<br") && s[k - 1] == '>' &&
    (forall j :: i + 3 <= j < k - 2 ==> IsRegexSpace(s[j])) &&
    (k - 2 >= i + 3 ==> IsRegexSpace(s[k - 2]) || s[k - 2] == '/')
  }

  /** `s[i..k]` is a match of `<[^>]+>`. */
  predicate HasTagAt(s: string, i: nat, k: nat) {
    i + 1 < k < |s| && s[i] == '<' && s[k] == '>' && forall j :: i < j < k ==> s[j] != '>'
  }

  /** Length of the match of `(?i)<br\s*\/?>` at `i`, 0 if there is none. */
  function BrLen(s: string, i: nat): (n: nat)
    requires i <= |s|
    ensures n > 0 ==> BrShape(s, i, i + n)
    ensures forall k: nat :: BrShape(s, i, k) ==> k == i + n
  {
    if CiAt(s, i, "<br") then
      var j := SpaceEnd(s, i + 3);
      if j < |s| && s[j] == '>' then j + 1 - i
      else if j + 1 < |s| && s[j] == '/' && s[j + 1] == '>' then j + 2 - i
      else 0
    else 0
  }

  /** Length of the match of `(?i)</(p|div)>` at `i`, 0 if there is none. */
  function BlockEndLen(s: string, i: nat): (n: nat)
    requires i <= |s|
    ensures n == 4 || n == 6 || n == 0
    ensures n == 4 <==> CiAt(s, i, "</p>")
    ensures n == 6 <==> CiAt(s, i, "</div>") && !CiAt(s, i, "</p>")
    ensures n == 0 <==> !CiAt(s, i, "</p>") && !CiAt(s, i, "</div>")
  {
    if CiAt(s, i, "</p>") then 4 else if CiAt(s, i, "</div>") then 6 else 0
  }

  /** Length of the match of `<[^>]+>` at `i`: up to the first '>' after it. */
  function AnyTagLen(s: string, i: nat): (n: nat)
    requires i <= |s|
    ensures n > 0 ==> HasTagAt(s, i, i + n - 1)
    ensures forall k: nat :: HasTagAt(s, i, k) ==> n == k + 1 - i
  {
    if i < |s| && s[i] == '<' then
      var k := FirstGt(s, i + 1);
      if k < |s| && k > i + 1 then k + 1 - i else 0
    else 0
  }

  /** The greedy run quantifier `c{3,}` at `i`: the run's full length, if at least 3. */
  function LongRunLen(s: string, i: nat, c: char): (n: nat)
    requires i <= |s|
    ensures n == 0 || n >= 3
    ensures n > 0 ==> n == RunLen(s, i, c)
    ensures n == 0 ==> RunLen(s, i, c) < 3
  {
    var r := RunLen(s, i, c);
    if r >= 3 then r else 0
  }

  datatype Rule = BrTag | BlockEnd | AnyTag | Nbsp | SpaceRun | NewlineRun

  /** The six rewrites with their replacements (HTMLUtil.kt:8-26). */
  function Replacement(r: Rule): string {
    match r
    case BrTag => "\n"
    case BlockEnd => "\n\n"
    case AnyTag => ""
    case Nbsp => " "
    case SpaceRun => "    "
    case NewlineRun => "\n\n"
  }

  function MatchLen(r: Rule, s: string, i: nat): (n: nat)
    requires i <= |s|
    ensures i + n <= |s|
  {
    match r
    case BrTag => BrLen(s, i)
    case BlockEnd => BlockEndLen(s, i)
    case AnyTag => AnyTagLen(s, i)
    case Nbsp => if OccursAt(s, NBSP, i) then |NBSP| else 0
    case SpaceRun => LongRunLen(s, i, ' ')
    case NewlineRun => LongRunLen(s, i, '\n')
  }

  /** Replace-all from position `i`: leftmost, non-overlapping matches. */
  function ReplaceFrom(r: Rule, s: string, i: nat): string
    requires i <= |s|
    decreases |s| - i
  {
    if i == |s| then []
    else
      var n := MatchLen(r, s, i);
      if n > 0 then Replacement(r) + ReplaceFrom(r, s, i + n)
      else [s[i]] + ReplaceFrom(r, s, i + 1)
  }

  function ReplaceAll(r: Rule, s: string): string {
    ReplaceFrom(r, s, 0)
  }

  /** `toText`: the rewrite chain followed by `trim()`. */
  function ToText(html: string): string {
    var s1 := ReplaceAll(BrTag, html);
    var s2 := ReplaceAll(BlockEnd, s1);
    var s3 := ReplaceAll(AnyTag, s2);
    var s4 := ReplaceAll(Nbsp, s3);
    var s5 := ReplaceAll(SpaceRun, s4);
    var s6 := ReplaceAll(NewlineRun, s5);
    Trim(s6)
  }

  // ---------------------------------------------------------------------------
  // Properties of the output, stated directly

  ghost predicate NoTag(s: string) {
    forall i: nat, k: nat :: !HasTagAt(s, i, k)
  }

  ghost predicate NoNbsp(s: string) {
    forall i: nat :: !OccursAt(s, NBSP, i)
  }

  /** A maximal run of spaces starts at `i`. */
  predicate RunStart(s: string, i: nat) {
    i < |s| && s[i] == ' ' && (i == 0 || s[i - 1] != ' ')
  }

  /** Every maximal run of spaces has length 1, 2 or 4. */
  ghost predicate SpaceRunsOk(s: string) {
    forall i: nat :: RunStart(s, i) ==>
      RunLen(s, i, ' ') == 1 || RunLen(s, i, ' ') == 2 || RunLen(s, i, ' ') == 4
  }

  ghost predicate NoTripleNewline(s: string) {
    forall i: nat :: !OccursAt(s, "\n\n\n", i)
  }

  predicate Trimmed(s: string) {
    s != [] ==> !IsWhitespace(s[0]) && !IsWhitespace(s[|s| - 1])
  }

  // ---------------------------------------------------------------------------
  // The scanners

  datatype Check = Tags | Amp | Spaces | Newlines

  const FAIL: int := -1

  /**
   * One step of each scanner. Tags: 0 outside a tag, 1 right after '<', 2
   * further inside (a '>' there completes `<[^>]+>`). Amp: length of the
   * prefix of "&nbsp;" just read. Spaces: length of the current run of
   * spaces (a run of 3 may not end, one of 5 may not exist). Newlines:
   * length of the current run of line feeds, at most 2.
   */
  function Delta(p: Check, q: int, c: char): (r: int)
    ensures r >= FAIL
  {
    if q < 0 then FAIL
    else
      match p
      case Tags =>
        if c == '>' then (if q == 2 then FAIL else 0)
        else if q == 0 then (if c == '<' then 1 else 0)
        else 2
      case Amp =>
        if q == 5 && c == ';' then FAIL
        else if 0 <= q < 5 && c == NBSP[q] then q + 1
        else if c == '&' then 1
        else 0
      case Spaces =>
        if c == ' ' then (if q >= 4 then FAIL else q + 1)
        else if q == 3 then FAIL
        else 0
      case Newlines =>
        if c == '\n' then (if q >= 2 then FAIL else q + 1) else 0
  }

  function Scan(p: Check, q: int, s: string): (r: int)
    ensures q >= FAIL ==> r >= FAIL
    decreases |s|
  {
    if s == [] then q else Scan(p, Delta(p, q, s[0]), s[1..])
  }

  predicate Accept(p: Check, s: string) {
    var f := Scan(p, 0, s);
    f != FAIL && !(p == Spaces && f == 3)
  }

  /** Characters a scanner treats alike. */
  predicate Neutral(p: Check, c: char) {
    match p
    case Tags => c != '<' && c != '>'
    case Amp => c !in NBSP
    case Spaces => c != ' '
    case Newlines => c != '\n'
  }

  predicate AllNeutral(p: Check, x: string) {
    forall j :: 0 <= j < |x| ==> Neutral(p, x[j])
  }

  /** The state after any neutral character. */
  function Reset(p: Check, q: int): int {
    if q < 0 then FAIL
    else
      match p
      case Tags => if q == 0 then 0 else 2
      case Amp => 0
      case Spaces => if q == 3 then FAIL else 0
      case Newlines => 0
  }

  lemma {:induction false} ScanAppend(p: Check, q: int, a: string, b: string)
    ensures Scan(p, q, a + b) == Scan(p, Scan(p, q, a), b)
    decreases |a|
  {
    if a == [] {
      assert a + b == b;
    } else {
      assert (a + b)[0] == a[0];
      assert (a + b)[1..] == a[1..] + b;
      ScanAppend(p, Delta(p, q, a[0]), a[1..], b);
    }
  }

  lemma {:induction false} ScanFail(p: Check, s: string)
    ensures Scan(p, FAIL, s) == FAIL
    decreases |s|
  {
    if s != [] {
      ScanFail(p, s[1..]);
    }
  }

  lemma {:induction false} ScanNeutral(p: Check, q: int, x: string)
    requires x != [] && AllNeutral(p, x)
    ensures Scan(p, q, x) == Reset(p, q)
    decreases |x|
  {
    assert Delta(p, q, x[0]) == Reset(p, q);
    if |x| > 1 {
      ScanNeutral(p, Reset(p, q), x[1..]);
      assert Reset(p, Reset(p, q)) == Reset(p, q);
    }
  }

  lemma ScanOne(p: Check, q: int, s: string, i: nat)
    requires i < |s|
    ensures Scan(p, q, s[i..]) == Scan(p, Delta(p, q, s[i]), s[i + 1..])
  {
    assert s[i..][1..] == s[i + 1..];
  }

  lemma ScanSplitAt(p: Check, q: int, s: string, i: nat, n: nat)
    requires i + n <= |s|
    ensures Scan(p, q, s[i..]) == Scan(p, Scan(p, q, s[i..i + n]), s[i + n..])
  {
    assert s[i..] == s[i..i + n] + s[i + n..];
    ScanAppend(p, q, s[i..i + n], s[i + n..]);
  }

  // ---------------------------------------------------------------------------
  // A rewrite a scanner cannot see leaves its verdict unchanged

  /** The rewrites that only exchange text neutral for the scanner. */
  predicate Invisible(p: Check, r: Rule) {
    (p == Tags && (r == Nbsp || r == SpaceRun || r == NewlineRun)) ||
    (p == Amp && (r == SpaceRun || r == NewlineRun)) ||
    (p == Spaces && r == NewlineRun)
  }

  lemma InvisibleMatch(p: Check, r: Rule, s: string, i: nat)
    requires Invisible(p, r) && i <= |s| && MatchLen(r, s, i) > 0
    ensures AllNeutral(p, s[i..i + MatchLen(r, s, i)])
    ensures Replacement(r) != [] && AllNeutral(p, Replacement(r))
  {
    var n := MatchLen(r, s, i);
    if r == Nbsp {
      assert s[i..i + n] == NBSP;
    } else if r == SpaceRun {
      var x := s[i..i + n];
      assert forall j :: 0 <= j < |x| ==> x[j] == ' ';
    } else {
      var x := s[i..i + n];
      assert forall j :: 0 <= j < |x| ==> x[j] == '\n';
    }
  }

  /** A replaced match: both sides reach the scanner's reset state, then agree on the rest. */
  lemma InvisibleMatchStep(p: Check, r: Rule, s: string, i: nat, q: int)
    requires Invisible(p, r) && i < |s| && MatchLen(r, s, i) > 0
    requires var n := MatchLen(r, s, i);
      Scan(p, Reset(p, q), ReplaceFrom(r, s, i + n)) == Scan(p, Reset(p, q), s[i + n..])
    ensures Scan(p, q, ReplaceFrom(r, s, i)) == Scan(p, q, s[i..])
  {
    var n := MatchLen(r, s, i);
    var rest := ReplaceFrom(r, s, i + n);
    assert ReplaceFrom(r, s, i) == Replacement(r) + rest;
    InvisibleMatch(p, r, s, i);
    ScanAppend(p, q, Replacement(r), rest);
    ScanNeutral(p, q, Replacement(r));
    ScanSplitAt(p, q, s, i, n);
    ScanNeutral(p, q, s[i..i + n]);
  }

  /** A character kept as it is: both sides step the scanner by it. */
  lemma InvisibleKeepStep(p: Check, r: Rule, s: string, i: nat, q: int)
    requires i < |s| && MatchLen(r, s, i) == 0
    requires Scan(p, Delta(p, q, s[i]), ReplaceFrom(r, s, i + 1)) == Scan(p, Delta(p, q, s[i]), s[i + 1..])
    ensures Scan(p, q, ReplaceFrom(r, s, i)) == Scan(p, q, s[i..])
  {
    var rest := ReplaceFrom(r, s, i + 1);
    assert ReplaceFrom(r, s, i) == [s[i]] + rest;
    ScanOne(p, q, s, i);
    assert ([s[i]] + rest)[0] == s[i];
    assert ([s[i]] + rest)[1..] == rest;
  }

  lemma {:induction false} ReplaceInvisible(p: Check, r: Rule, s: string, i: nat, q: int)
    requires Invisible(p, r) && i <= |s|
    ensures Scan(p, q, ReplaceFrom(r, s, i)) == Scan(p, q, s[i..])
    decreases |s| - i
  {
    if i < |s| {
      var n := MatchLen(r, s, i);
      if n > 0 {
        ReplaceInvisible(p, r, s, i + n, Reset(p, q));
        InvisibleMatchStep(p, r, s, i, q);
      } else {
        ReplaceInvisible(p, r, s, i + 1, Delta(p, q, s[i]));
        InvisibleKeepStep(p, r, s, i, q);
      }
    } else {
      assert ReplaceFrom(r, s, i) == [] && s[i..] == [];
    }
  }

  lemma KeepsAccept(p: Check, r: Rule, s: string)
    requires Invisible(p, r) && Accept(p, s)
    ensures Accept(p, ReplaceAll(r, s))
  {
    ReplaceInvisible(p, r, s, 0, 0);
    assert s[0..] == s;
  }

  // ---------------------------------------------------------------------------
  // Each rewrite establishes its own property

  predicate NoGtFrom(s: string, i: nat) {
    forall m :: i <= m < |s| ==> s[m] != '>'
  }

  /** What the Tags state after the output so far says about the rest of the input. */
  predicate TagsConsistent(q: int, s: string, i: nat) {
    q == 0 || (q == 1 && ((i < |s| && s[i] == '>') || NoGtFrom(s, i))) || (q == 2 && NoGtFrom(s, i))
  }

  lemma {:induction false} StripEstablishes(s: string, i: nat, q: int)
    requires i <= |s| && TagsConsistent(q, s, i)
    ensures Scan(Tags, q, ReplaceFrom(AnyTag, s, i)) != FAIL
    decreases |s| - i
  {
    if i < |s| {
      var n := MatchLen(AnyTag, s, i);
      if n > 0 {
        assert HasTagAt(s, i, i + n - 1);
        assert !NoGtFrom(s, i);
        assert q == 0;
        StripEstablishes(s, i + n, q);
        assert Replacement(AnyTag) + ReplaceFrom(AnyTag, s, i + n) == ReplaceFrom(AnyTag, s, i + n);
      } else {
        var q' := Delta(Tags, q, s[i]);
        if q == 0 && s[i] == '<' {
          var k := FirstGt(s, i + 1);
          assert k == |s| || k == i + 1;
        }
        assert TagsConsistent(q', s, i + 1);
        StripEstablishes(s, i + 1, q');
        assert ([s[i]] + ReplaceFrom(AnyTag, s, i + 1))[1..] == ReplaceFrom(AnyTag, s, i + 1);
      }
    }
  }

  /** What the Amp state says: the prefix of "&nbsp;" just copied does not begin a match. */
  predicate AmpConsistent(q: int, s: string, i: nat) {
    0 <= q <= 5 && q <= i <= |s| && s[i - q..i] == NBSP[..q] && (q > 0 ==> !OccursAt(s, NBSP, i - q))
  }

  lemma AmpStep(s: string, i: nat, q: int)
    requires i < |s| && AmpConsistent(q, s, i) && !OccursAt(s, NBSP, i)
    ensures AmpConsistent(Delta(Amp, q, s[i]), s, i + 1)
  {
    var c := s[i];
    assert s[i - q..i + 1] == s[i - q..i] + [c];
    assert NBSP[..q + 1] == NBSP[..q] + [NBSP[q]];
    assert c == '&' ==> s[i..i + 1] == NBSP[..1];
  }

  lemma {:induction false} NbspEstablishes(s: string, i: nat, q: int)
    requires i <= |s| && AmpConsistent(q, s, i)
    ensures Scan(Amp, q, ReplaceFrom(Nbsp, s, i)) != FAIL
    decreases |s| - i
  {
    if i < |s| {
      var n := MatchLen(Nbsp, s, i);
      if n > 0 {
        assert Scan(Amp, q, " ") == 0;
        NbspEstablishes(s, i + n, 0);
        ScanAppend(Amp, q, " ", ReplaceFrom(Nbsp, s, i + n));
      } else {
        var q' := Delta(Amp, q, s[i]);
        AmpStep(s, i, q);
        NbspEstablishes(s, i + 1, q');
        assert ([s[i]] + ReplaceFrom(Nbsp, s, i + 1))[1..] == ReplaceFrom(Nbsp, s, i + 1);
      }
    }
  }

  /** What the Spaces state says about the run of spaces still to be read. */
  predicate SpacesConsistent(q: int, s: string, i: nat) {
    i <= |s| &&
    (q == 0 || ((q == 1 || q == 2) && q + RunLen(s, i, ' ') <= 2) || (q == 4 && RunLen(s, i, ' ') == 0))
  }

  lemma {:induction false} SpaceRunEstablishes(s: string, i: nat, q: int)
    requires i <= |s| && SpacesConsistent(q, s, i)
    ensures var f := Scan(Spaces, q, ReplaceFrom(SpaceRun, s, i)); f != FAIL && f != 3
    decreases |s| - i
  {
    if i < |s| {
      var n := MatchLen(SpaceRun, s, i);
      if n > 0 {
        assert q == 0;
        assert Scan(Spaces, 0, "    ") == 4;
        SpaceRunEstablishes(s, i + n, 4);
        assert ReplaceFrom(SpaceRun, s, i) == "    " + ReplaceFrom(SpaceRun, s, i + n);
        ScanAppend(Spaces, 0, "    ", ReplaceFrom(SpaceRun, s, i + n));
      } else {
        var q' := Delta(Spaces, q, s[i]);
        assert SpacesConsistent(q', s, i + 1);
        SpaceRunEstablishes(s, i + 1, q');
        assert ([s[i]] + ReplaceFrom(SpaceRun, s, i + 1))[1..] == ReplaceFrom(SpaceRun, s, i + 1);
      }
    } else {
      assert ReplaceFrom(SpaceRun, s, i) == [];
    }
  }

  predicate NewlinesConsistent(q: int, s: string, i: nat) {
    i <= |s| && (q == 0 || ((q == 1 || q == 2) && q + RunLen(s, i, '\n') <= 2))
  }

  lemma {:induction false} NewlineRunEstablishes(s: string, i: nat, q: int)
    requires i <= |s| && NewlinesConsistent(q, s, i)
    ensures Scan(Newlines, q, ReplaceFrom(NewlineRun, s, i)) != FAIL
    decreases |s| - i
  {
    if i < |s| {
      var n := MatchLen(NewlineRun, s, i);
      if n > 0 {
        assert q == 0;
        assert Scan(Newlines, 0, "\n\n") == 2;
        NewlineRunEstablishes(s, i + n, 2);
        assert ReplaceFrom(NewlineRun, s, i) == "\n\n" + ReplaceFrom(NewlineRun, s, i + n);
        ScanAppend(Newlines, 0, "\n\n", ReplaceFrom(NewlineRun, s, i + n));
      } else {
        var q' := Delta(Newlines, q, s[i]);
        assert NewlinesConsistent(q', s, i + 1);
        NewlineRunEstablishes(s, i + 1, q');
        assert ([s[i]] + ReplaceFrom(NewlineRun, s, i + 1))[1..] == ReplaceFrom(NewlineRun, s, i + 1);
      }
    } else {
      assert ReplaceFrom(NewlineRun, s, i) == [];
    }
  }

  // ---------------------------------------------------------------------------
  // What an accepting scanner guarantees

  lemma PrefixState(p: Check, s: string, i: nat)
    requires i <= |s| && Accept(p, s)
    ensures Scan(p, 0, s[..i]) != FAIL
    ensures Scan(p, 0, s) == Scan(p, Scan(p, 0, s[..i]), s[i..])
  {
    assert s == s[..i] + s[i..];
    ScanAppend(p, 0, s[..i], s[i..]);
    if Scan(p, 0, s[..i]) == FAIL {
      ScanFail(p, s[i..]);
    }
  }

  lemma {:induction false} TagInside(q: int, x: string)
    requires q == 1 || q == 2
    requires x != [] && forall j :: 0 <= j < |x| ==> x[j] != '>'
    ensures Scan(Tags, q, x) == 2
    decreases |x|
  {
    if |x| > 1 {
      TagInside(2, x[1..]);
    }
  }

  lemma AcceptTagsNoTag(s: string)
    requires Accept(Tags, s)
    ensures NoTag(s)
  {
    forall i: nat, k: nat | HasTagAt(s, i, k)
      ensures false
    {
      PrefixState(Tags, s, i);
      var q := Scan(Tags, 0, s[..i]);
      ScanSplitAt(Tags, q, s, i, k + 1 - i);
      var seg := s[i..k + 1];
      assert seg == [s[i]] + s[i + 1..k] + [s[k]];
      ScanAppend(Tags, q, [s[i]] + s[i + 1..k], [s[k]]);
      ScanAppend(Tags, q, [s[i]], s[i + 1..k]);
      TagInside(Delta(Tags, q, '<'), s[i + 1..k]);
      ScanFail(Tags, s[k + 1..]);
    }
  }

  lemma AcceptAmpNoNbsp(s: string)
    requires Accept(Amp, s)
    ensures NoNbsp(s)
  {
    forall i: nat | OccursAt(s, NBSP, i)
      ensures false
    {
      PrefixState(Amp, s, i);
      var q := Scan(Amp, 0, s[..i]);
      ScanSplitAt(Amp, q, s, i, 6);
      assert s[i..i + 6] == NBSP;
      var q1 := Delta(Amp, q, '&');
      assert q1 == 1;
      assert Scan(Amp, q, NBSP) == FAIL;
      ScanFail(Amp, s[i + 6..]);
    }
  }

  lemma {:induction false} ScanSpaceRun(q: int, x: string)
    requires 0 <= q <= 4 && forall j :: 0 <= j < |x| ==> x[j] == ' '
    ensures Scan(Spaces, q, x) == if q + |x| <= 4 then q + |x| else FAIL
    decreases |x|
  {
    if x != [] {
      if q == 4 {
        ScanFail(Spaces, x[1..]);
      } else {
        ScanSpaceRun(q + 1, x[1..]);
      }
    }
  }

  lemma ScanEndsNeutral(p: Check, q: int, x: string)
    requires x != [] && Neutral(p, x[|x| - 1])
    ensures Scan(p, q, x) == Reset(p, Scan(p, q, x[..|x| - 1]))
  {
    assert x == x[..|x| - 1] + [x[|x| - 1]];
    ScanAppend(p, q, x[..|x| - 1], [x[|x| - 1]]);
  }

  lemma AcceptSpacesRuns(s: string)
    requires Accept(Spaces, s)
    ensures SpaceRunsOk(s)
  {
    forall i: nat | RunStart(s, i)
      ensures RunLen(s, i, ' ') == 1 || RunLen(s, i, ' ') == 2 || RunLen(s, i, ' ') == 4
    {
      PrefixState(Spaces, s, i);
      var q := Scan(Spaces, 0, s[..i]);
      if i > 0 {
        ScanEndsNeutral(Spaces, 0, s[..i]);
        assert s[..i][..i - 1] == s[..i - 1];
      }
      assert q == 0;
      var n := RunLen(s, i, ' ');
      ScanSplitAt(Spaces, 0, s, i, n);
      ScanSpaceRun(0, s[i..i + n]);
      if n > 4 {
        ScanFail(Spaces, s[i + n..]);
      } else if n == 3 {
        if i + n < |s| {
          ScanOne(Spaces, 3, s, i + n);
          ScanFail(Spaces, s[i + n + 1..]);
        }
      }
    }
  }

  lemma AcceptNewlinesNoTriple(s: string)
    requires Accept(Newlines, s)
    ensures NoTripleNewline(s)
  {
    forall i: nat | OccursAt(s, "\n\n\n", i)
      ensures false
    {
      PrefixState(Newlines, s, i);
      var q := Scan(Newlines, 0, s[..i]);
      ScanSplitAt(Newlines, q, s, i, 3);
      assert s[i..i + 3] == "\n\n\n";
      assert Scan(Newlines, q, "\n\n\n") == FAIL;
      ScanFail(Newlines, s[i + 3..]);
    }
  }

  // ---------------------------------------------------------------------------
  // trim keeps every verdict

  /** Whitespace is invisible to the Tags and Amp scanners. */
  lemma {:induction false} WhitespaceState(p: Check, x: string)
    requires p == Tags || p == Amp
    requires forall k :: 0 <= k < |x| ==> IsWhitespace(x[k])
    ensures Scan(p, 0, x) == 0
  {
    if x != [] {
      assert AllNeutral(p, x) by {
        forall j | 0 <= j < |x| ensures Neutral(p, x[j]) {
          assert IsWhitespace(x[j]);
        }
      }
      ScanNeutral(p, 0, x);
    }
  }

  /** A first character that is not a space (line feed) forgets the run before it. */
  lemma NeutralHead(p: Check, q0: int, t: string)
    requires p == Spaces || p == Newlines
    requires t != [] && Neutral(p, t[0]) && Scan(p, q0, t) != FAIL
    ensures Scan(p, q0, t) == Scan(p, 0, t)
  {
    ScanOne(p, q0, t, 0);
    ScanOne(p, 0, t, 0);
    assert t[0..] == t;
    if Reset(p, q0) == FAIL {
      ScanFail(p, t[1..]);
    }
  }

  lemma TrimKeepsAccept(p: Check, s: string)
    requires Accept(p, s)
    ensures Accept(p, Trim(s))
  {
    var a := TrimStartIndex(s, 0);
    var b := TrimEndIndex(s, a, |s|);
    var t := s[a..b];
    assert Trim(s) == t;
    if t != [] {
      var pre, suf := s[..a], s[b..];
      SliceThree(s, a, b);
      ScanAppend(p, 0, pre + t, suf);
      ScanAppend(p, 0, pre, t);
      var q0 := Scan(p, 0, pre);
      if Scan(p, q0, t) == FAIL {
        ScanFail(p, suf);
      }
      if p == Tags || p == Amp {
        WhitespaceState(p, pre);
      } else {
        assert !IsWhitespace(t[0]);
        NeutralHead(p, q0, t);
        if p == Spaces {
          assert !IsWhitespace(t[|t| - 1]);
          ScanEndsNeutral(p, 0, t);
        }
      }
    }
  }

  /** Removing whitespace at the ends of a trimmed string changes nothing. */
  lemma TrimTrimmed(s: string)
    requires Trimmed(s)
    ensures Trim(s) == s
  {
    if s != [] {
      assert TrimStartIndex(s, 0) == 0;
      assert TrimEndIndex(s, 0, |s|) == |s|;
    }
  }

  lemma TrimKeepsNoTriple(s: string)
    requires NoTripleNewline(s)
    ensures NoTripleNewline(Trim(s))
  {
    var a := TrimStartIndex(s, 0);
    var b := TrimEndIndex(s, a, |s|);
    var t := s[a..b];
    assert Trim(s) == t;
    forall i: nat ensures !OccursAt(t, "\n\n\n", i) {
      OccursInSlice(s, a, b, "\n\n\n", i);
    }
  }

  /** An occurrence inside a slice is an occurrence in the whole string. */
  lemma OccursInSlice(s: string, a: nat, b: nat, sub: string, i: nat)
    requires a <= b <= |s|
    ensures OccursAt(s[a..b], sub, i) ==> OccursAt(s, sub, a + i)
  {
    if OccursAt(s[a..b], sub, i) {
      var t := s[a..b];
      forall k | 0 <= k < |sub| ensures s[a + i..a + i + |sub|][k] == sub[k] {
        assert t[i..i + |sub|][k] == sub[k];
        assert t[i + k] == s[a + i + k];
      }
    }
  }

  // ---------------------------------------------------------------------------
  // The properties of `toText`

  /**
   * The output of `toText` contains no `<[^>]+>`, no "&nbsp;", no three
   * consecutive line feeds, only runs of 1, 2 or 4 spaces, and no whitespace
   * at either end.
   */
  lemma ToTextProps(html: string)
    ensures NoTag(ToText(html))
    ensures NoNbsp(ToText(html))
    ensures SpaceRunsOk(ToText(html))
    ensures NoTripleNewline(ToText(html))
    ensures Trimmed(ToText(html))
  {
    var s1 := ReplaceAll(BrTag, html);
    var s2 := ReplaceAll(BlockEnd, s1);
    var s3 := ReplaceAll(AnyTag, s2);
    var s4 := ReplaceAll(Nbsp, s3);
    var s5 := ReplaceAll(SpaceRun, s4);
    var s6 := ReplaceAll(NewlineRun, s5);
    var t := Trim(s6);
    // Tags: established by step 3, kept by steps 4-7.
    StripEstablishes(s2, 0, 0);
    KeepsAccept(Tags, Nbsp, s3);
    KeepsAccept(Tags, SpaceRun, s4);
    KeepsAccept(Tags, NewlineRun, s5);
    TrimKeepsAccept(Tags, s6);
    AcceptTagsNoTag(t);
    // "&nbsp;": established by step 4, kept by steps 5-7.
    assert s3[0..0] == NBSP[..0];
    NbspEstablishes(s3, 0, 0);
    KeepsAccept(Amp, SpaceRun, s4);
    KeepsAccept(Amp, NewlineRun, s5);
    TrimKeepsAccept(Amp, s6);
    AcceptAmpNoNbsp(t);
    // Space runs: established by step 5, kept by steps 6-7.
    SpaceRunEstablishes(s4, 0, 0);
    KeepsAccept(Spaces, NewlineRun, s5);
    TrimKeepsAccept(Spaces, s6);
    AcceptSpacesRuns(t);
    // Line feeds: established by step 6, kept by step 7.
    NewlineRunEstablishes(s5, 0, 0);
    AcceptNewlinesNoTriple(s6);
    TrimKeepsNoTriple(s6);
  }

  // ---------------------------------------------------------------------------
  // Idempotence

  lemma {:induction false} NoMatchIdentity(r: Rule, s: string, i: nat)
    requires i <= |s| && forall j :: i <= j <= |s| ==> MatchLen(r, s, j) == 0
    ensures ReplaceFrom(r, s, i) == s[i..]
    decreases |s| - i
  {
    if i < |s| {
      NoMatchIdentity(r, s, i + 1);
      assert s[i..] == [s[i]] + s[i + 1..];
    }
  }

  lemma TagFreeIdentity(r: Rule, s: string)
    requires r == BrTag || r == BlockEnd || r == AnyTag
    requires NoTag(s)
    ensures ReplaceAll(r, s) == s
  {
    forall j | 0 <= j <= |s|
      ensures MatchLen(r, s, j) == 0
    {
      var n := MatchLen(r, s, j);
      if n > 0 {
        if r == BrTag {
          BrIsTag(s, j, j + n);
        } else if r == BlockEnd {
          CiTag(s, j, if n == 4 then "</p>" else "</div>");
        }
      }
    }
    NoMatchIdentity(r, s, 0);
    assert s[0..] == s;
  }

  /**
   * Scanning for runs of three or more spaces in a string whose runs all have
   * length 1, 2 or 4: each run of 4 is found at its first space and replaced
   * by itself.
   */
  lemma {:induction false} SpaceRunIdentity(s: string, i: nat)
    requires i <= |s| && SpaceRunsOk(s)
    requires i == 0 || s[i - 1] != ' ' || RunLen(s, i, ' ') < 3
    ensures ReplaceFrom(SpaceRun, s, i) == s[i..]
    decreases |s| - i
  {
    if i < |s| {
      var n := MatchLen(SpaceRun, s, i);
      if n > 0 {
        SpaceRunOfFour(s, i);
        SpaceRunIdentity(s, i + 4);
        assert ReplaceFrom(SpaceRun, s, i) == "    " + ReplaceFrom(SpaceRun, s, i + 4);
        SliceSplit(s, i, i + 4);
      } else {
        SpaceRunNext(s, i);
        SpaceRunIdentity(s, i + 1);
        assert ReplaceFrom(SpaceRun, s, i) == [s[i]] + ReplaceFrom(SpaceRun, s, i + 1);
        SliceFirst(s, i);
      }
    }
  }

  /** A long run found where no long run continues is a whole run of four: it is its own replacement. */
  lemma SpaceRunOfFour(s: string, i: nat)
    requires i < |s| && SpaceRunsOk(s)
    requires i == 0 || s[i - 1] != ' ' || RunLen(s, i, ' ') < 3
    requires MatchLen(SpaceRun, s, i) > 0
    ensures MatchLen(SpaceRun, s, i) == 4 && i + 4 <= |s| && s[i..i + 4] == "    "
    ensures i + 4 == |s| || s[i + 3] != ' ' || RunLen(s, i + 4, ' ') < 3
  {
    var n := MatchLen(SpaceRun, s, i);
    assert s[i] == ' ' && RunLen(s, i, ' ') == n;
    assert RunStart(s, i);
    assert n == 4;
    assert i + 4 < |s| ==> s[i + 4] != ' ';
  }

  /** Past a character that starts no long run, the scan may go on from the next one. */
  lemma SpaceRunNext(s: string, i: nat)
    requires i < |s| && MatchLen(SpaceRun, s, i) == 0
    ensures s[i] != ' ' || RunLen(s, i + 1, ' ') < 3
  {
    if s[i] == ' ' {
      assert RunLen(s, i, ' ') == 1 + RunLen(s, i + 1, ' ');
    }
  }

  lemma NbspFreeIdentity(t: string)
    requires NoNbsp(t)
    ensures ReplaceAll(Nbsp, t) == t
  {
    forall j | 0 <= j <= |t| ensures MatchLen(Nbsp, t, j) == 0 {
      assert !OccursAt(t, NBSP, j);
    }
    NoMatchIdentity(Nbsp, t, 0);
    assert t[0..] == t;
  }

  lemma NewlineRunIdentity(t: string)
    requires NoTripleNewline(t)
    ensures ReplaceAll(NewlineRun, t) == t
  {
    forall j | 0 <= j <= |t| ensures MatchLen(NewlineRun, t, j) == 0 {
      if MatchLen(NewlineRun, t, j) > 0 {
        assert t[j..j + 3] == "\n\n\n";
        assert OccursAt(t, "\n\n\n", j);
      }
    }
    NoMatchIdentity(NewlineRun, t, 0);
    assert t[0..] == t;
  }

  /** A string with all five output properties is left unchanged by `toText`. */
  lemma ToTextFixedPoint(t: string)
    requires NoTag(t) && NoNbsp(t) && SpaceRunsOk(t) && NoTripleNewline(t) && Trimmed(t)
    ensures ToText(t) == t
  {
    TagFreeIdentity(BrTag, t);
    TagFreeIdentity(BlockEnd, t);
    TagFreeIdentity(AnyTag, t);
    NbspFreeIdentity(t);
    SpaceRunIdentity(t, 0);
    assert t[0..] == t;
    NewlineRunIdentity(t);
    TrimTrimmed(t);
  }

  /** `toText` is idempotent: applied to its own output it changes nothing. */
  lemma ToTextIdempotent(html: string)
    ensures ToText(ToText(html)) == ToText(html)
  {
    ToTextProps(html);
    ToTextFixedPoint(ToText(html));
  }
}
