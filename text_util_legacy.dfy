/**
 * The older pagination algorithm kept beside the tests
 * (app/src/test/.../util/TextUtil.kt). It splits the text on '\n' only,
 * skips blank lines, breaks each line greedily (without the line-start and
 * line-end rules of the current engine, but carrying the last word in front of
 * an ASCII punctuation mark onto the next line), and cuts the display lines
 * into pages of exactly `maxLine` lines with `chunked`.
 */
module TextUtilLegacy {
  import opened Base
  import TextUtil

  /** Java's `\p{Punct}`: the 32 ASCII punctuation characters. */
  predicate IsPunct(c: char) {
    var n := c as int;
    (0x21 <= n <= 0x2F) || (0x3A <= n <= 0x40) || (0x5B <= n <= 0x60) || (0x7B <= n <= 0x7E)
  }

  /** `getWidthPx` inside `chunkLine`: half the font size for printable ASCII, plus the spacing. */
  function WidthPx(c: char, spPx: real, lsPx: real): (w: real)
    ensures TextUtil.IsHalfWidth(c) ==> w == 0.5 * spPx + lsPx
    ensures !TextUtil.IsHalfWidth(c) ==> w == spPx + lsPx
  {
    var ratio := if 0x20 <= c as int <= 0x7E then 0.5 else 1.0;
    ratio * spPx + lsPx
  }

  function WidthOf(s: string, spPx: real, lsPx: real): real
    decreases |s|
  {
    if s == [] then 0.0 else WidthOf(s[..|s| - 1], spPx, lsPx) + WidthPx(s[|s| - 1], spPx, lsPx)
  }

  // ---------------------------------------------------------------------------
  // getLastWordIndex

  /**
   * The largest index of `s` holding a character that is not ASCII
   * punctuation, or -1 if there is none.
   */
  function LastWordIndex(s: string): (r: int)
    ensures -1 <= r < |s|
    ensures r >= 0 ==> !IsPunct(s[r])
    ensures forall j :: r < j < |s| ==> IsPunct(s[j])
    decreases |s|
  {
    if s == [] then -1
    else if !IsPunct(s[|s| - 1]) then |s| - 1
    else LastWordIndex(s[..|s| - 1])
  }

  /** `getLastWordIndex`: a down-counting scan. */
  method GetLastWordIndex(s: string) returns (r: int)
    ensures r == LastWordIndex(s)
    ensures r == -1 <==> forall j :: 0 <= j < |s| ==> IsPunct(s[j])
  {
    var i := |s| - 1;
    while i >= 0
      invariant -1 <= i < |s|
      invariant LastWordIndex(s) == LastWordIndex(s[..i + 1])
    {
      if !IsPunct(s[i]) {
        return i;
      }
      assert s[..i + 1][..i] == s[..i];
      i := i - 1;
    }
    return -1;
  }

  // ---------------------------------------------------------------------------
  // chunkLine as a state machine

  /** The loop state of `chunkLine`: `chunks`, `newLine` and `cnt`. */
  datatype LegacyState = LegacyState(chunks: seq<string>, newLine: string, cnt: real)

  /** The break of `chunkLine`: the current line is emitted when `c` does not fit. */
  function Break(st: LegacyState, c: char, target: real, spPx: real, lsPx: real): LegacyState {
    if st.cnt + WidthPx(c, spPx, lsPx) > target && st.newLine != [] then
      LegacyState(st.chunks + [st.newLine], [], 0.0)
    else st
  }

  /**
   * The punctuation carry of `chunkLine`: when a new line would begin with an
   * ASCII punctuation mark, the previous chunk's suffix from its last
   * non-punctuation character on moves to the new line.
   */
  function CarryWord(st: LegacyState, c: char, spPx: real, lsPx: real): LegacyState {
    if st.chunks != [] && st.newLine == [] && IsPunct(c) then
      var s := st.chunks[|st.chunks| - 1];
      var lastWordIndex := LastWordIndex(s);
      if lastWordIndex != -1 then
        var wordSeq := s[lastWordIndex..];
        LegacyState(st.chunks[|st.chunks| - 1 := s[..|s| - |wordSeq|]], st.newLine + wordSeq,
                    st.cnt + WidthOf(wordSeq, spPx, lsPx))
      else st
    else st
  }

  /** One iteration of the loop of `chunkLine`. */
  function LegacyStep(st: LegacyState, c: char, target: real, spPx: real, lsPx: real): LegacyState {
    var st1 := Break(st, c, target, spPx, lsPx);
    var st2 := CarryWord(st1, c, spPx, lsPx);
    LegacyState(st2.chunks, st2.newLine + [c], st2.cnt + WidthPx(c, spPx, lsPx))
  }

  function LegacyRun(s: string, target: real, spPx: real, lsPx: real): (r: LegacyState)
    ensures s == [] ==> r.chunks == [] && r.newLine == []
    ensures s != [] ==> r.newLine != []
    decreases |s|
  {
    if s == [] then LegacyState([], [], 0.0)
    else LegacyStep(LegacyRun(s[..|s| - 1], target, spPx, lsPx), s[|s| - 1], target, spPx, lsPx)
  }

  /** The chunks `chunkLine` returns for `line`. */
  function LegacyChunks(line: string, target: real, spPx: real, lsPx: real): seq<string> {
    var st := LegacyRun(line, target, spPx, lsPx);
    if st.newLine != [] then st.chunks + [st.newLine] else st.chunks
  }

  /**
   * The break and carry rules of `chunkLine`: a chunk is emitted only when the
   * character does not fit and the current line is non-empty; when the next
   * line would begin with punctuation, the last word of the chunk just emitted
   * (from its last non-punctuation character) is taken off it and begins the
   * new line before the punctuation mark.
   */
  lemma LegacyStepRules(st: LegacyState, c: char, target: real, spPx: real, lsPx: real)
    requires st.chunks == [] || st.newLine != []
    ensures var r := LegacyStep(st, c, target, spPx, lsPx);
      |r.chunks| > |st.chunks| ==> st.cnt + WidthPx(c, spPx, lsPx) > target && st.newLine != []
    ensures var r := LegacyStep(st, c, target, spPx, lsPx);
      |r.chunks| == |st.chunks| ==> r.chunks == st.chunks && r.newLine == st.newLine + [c]
    ensures var r := LegacyStep(st, c, target, spPx, lsPx); var s := st.newLine;
      st.cnt + WidthPx(c, spPx, lsPx) > target && s != [] && IsPunct(c) && LastWordIndex(s) != -1 ==>
        r.chunks == st.chunks + [s[..LastWordIndex(s)]] && r.newLine == s[LastWordIndex(s)..] + [c]
    ensures var r := LegacyStep(st, c, target, spPx, lsPx); var s := st.newLine;
      st.cnt + WidthPx(c, spPx, lsPx) > target && s != [] && !(IsPunct(c) && LastWordIndex(s) != -1) ==>
        r.chunks == st.chunks + [s] && r.newLine == [c]
  {
  }

  /** The break moves the current line into the chunks and keeps the spelling. */
  lemma BreakSpells(st: LegacyState, c: char, target: real, spPx: real, lsPx: real)
    ensures var r := Break(st, c, target, spPx, lsPx);
      Concat(r.chunks) + r.newLine == Concat(st.chunks) + st.newLine
  {
    var r := Break(st, c, target, spPx, lsPx);
    if r != st {
      var cs := st.chunks + [st.newLine];
      assert r.chunks == cs && r.newLine == [];
      assert cs[..|cs| - 1] == st.chunks && cs[|cs| - 1] == st.newLine;
      assert Concat(cs) == Concat(st.chunks) + st.newLine;
      assert Concat(r.chunks) + r.newLine == Concat(cs);
    }
  }

  /** The carry moves a suffix of the last chunk to the line and keeps the spelling. */
  lemma CarrySpells(st: LegacyState, c: char, spPx: real, lsPx: real)
    ensures var r := CarryWord(st, c, spPx, lsPx);
      Concat(r.chunks) + r.newLine == Concat(st.chunks) + st.newLine
  {
    var r := CarryWord(st, c, spPx, lsPx);
    if r != st {
      var n := |st.chunks|;
      var s := st.chunks[n - 1];
      var i := LastWordIndex(s);
      var init := st.chunks[..n - 1];
      assert 0 <= i < |s|;
      assert s[..|s| - |s[i..]|] == s[..i];
      assert r.chunks == st.chunks[n - 1 := s[..i]] && r.newLine == st.newLine + s[i..];
      assert r.chunks[..n - 1] == init && r.chunks[n - 1] == s[..i];
      assert st.chunks[..n - 1] == init && st.chunks[n - 1] == s;
      assert Concat(r.chunks) == Concat(init) + s[..i];
      assert Concat(st.chunks) == Concat(init) + s;
      assert s == s[..i] + s[i..];
      assert Concat(r.chunks) + r.newLine == Concat(init) + s[..i] + (st.newLine + s[i..]);
    }
  }

  lemma LegacyStepSpells(st: LegacyState, c: char, target: real, spPx: real, lsPx: real)
    ensures var r := LegacyStep(st, c, target, spPx, lsPx);
      Concat(r.chunks) + r.newLine == Concat(st.chunks) + st.newLine + [c]
  {
    var st1 := Break(st, c, target, spPx, lsPx);
    var st2 := CarryWord(st1, c, spPx, lsPx);
    BreakSpells(st, c, target, spPx, lsPx);
    CarrySpells(st1, c, spPx, lsPx);
    var r := LegacyStep(st, c, target, spPx, lsPx);
    assert r.chunks == st2.chunks && r.newLine == st2.newLine + [c];
    AppendChar(Concat(st2.chunks), st2.newLine, Concat(st.chunks) + st.newLine, c);
  }

  lemma SpellingJoin(x: string, m: string, p: string, s: string, c: char)
    requires x == m + [c] && m == p && s == p + [c]
    ensures x == s
  {
  }

  lemma AppendChar(a: string, b: string, d: string, c: char)
    requires a + b == d
    ensures a + (b + [c]) == d + [c]
  {
  }

  /** `chunkLine` loses and duplicates no character. */
  lemma {:induction false} LegacyRunSpells(s: string, target: real, spPx: real, lsPx: real)
    ensures var r := LegacyRun(s, target, spPx, lsPx); Concat(r.chunks) + r.newLine == s
    decreases |s|
  {
    if s != [] {
      var p := s[..|s| - 1];
      var c := s[|s| - 1];
      LegacyRunSpells(p, target, spPx, lsPx);
      var mid := LegacyRun(p, target, spPx, lsPx);
      LegacyStepSpells(mid, c, target, spPx, lsPx);
      var r := LegacyRun(s, target, spPx, lsPx);
      assert r == LegacyStep(mid, c, target, spPx, lsPx);
      InitLast(s);
      SpellingJoin(Concat(r.chunks) + r.newLine, Concat(mid.chunks) + mid.newLine, p, s, c);
    }
  }

  /** The chunks of `chunkLine` spell the input line. */
  lemma LegacyChunksSpellLine(line: string, target: real, spPx: real, lsPx: real)
    ensures Concat(LegacyChunks(line, target, spPx, lsPx)) == line
  {
    LegacyRunSpells(line, target, spPx, lsPx);
    var st := LegacyRun(line, target, spPx, lsPx);
    if st.newLine != [] {
      assert (st.chunks + [st.newLine])[..|st.chunks|] == st.chunks;
    }
  }

  /**
   * The carry can leave the previous chunk empty: with a 2 px font, no
   * spacing and a 1 px target, "a!" breaks before '!', the carry then takes
   * the whole chunk "a", and `chunkLine` returns an empty first chunk.
   */
  lemma CarryCanEmptyChunk()
    ensures LegacyChunks("a!", 1.0, 2.0, 0.0) == ["", "a!"]
  {
    assert "a!"[..1] == "a";
    assert "a"[..0] == [];
    assert WidthPx('a', 2.0, 0.0) == 1.0;
    assert WidthPx('!', 2.0, 0.0) == 1.0;
    var st1 := LegacyRun("a", 1.0, 2.0, 0.0);
    assert st1 == LegacyState([], "a", 1.0);
    var b := Break(st1, '!', 1.0, 2.0, 0.0);
    assert b == LegacyState(["a"], [], 0.0);
    assert LastWordIndex("a") == 0;
    assert "a"[0..] == "a";
    assert "a"[..0] == "";
    assert WidthOf("a", 2.0, 0.0) == 1.0;
    var cw := CarryWord(b, '!', 2.0, 0.0);
    assert cw == LegacyState([""], "a", 1.0);
    assert LegacyRun("a!", 1.0, 2.0, 0.0) == LegacyStep(st1, '!', 1.0, 2.0, 0.0);
    assert LegacyRun("a!", 1.0, 2.0, 0.0) == LegacyState([""], "a!", 2.0);
  }

  /** The punctuation carry inside the loop of `chunkLine`. */
  method CarryPunct(chunks: seq<string>, newLine: string, cnt: real, c: char, spPx: real, lsPx: real)
    returns (chunks': seq<string>, newLine': string, cnt': real)
    ensures LegacyState(chunks', newLine', cnt') == CarryWord(LegacyState(chunks, newLine, cnt), c, spPx, lsPx)
  {
    chunks', newLine', cnt' := chunks, newLine, cnt;
    if |chunks| > 0 && |newLine| == 0 && IsPunct(c) {
      var s := chunks[|chunks| - 1];
      var lastWordIndex := GetLastWordIndex(s);
      if lastWordIndex != -1 {
        var wordSeq := s[lastWordIndex..];
        newLine' := newLine + wordSeq;
        cnt' := cnt + WidthOf(wordSeq, spPx, lsPx);
        chunks' := chunks[|chunks| - 1 := s[..|s| - |wordSeq|]];
      }
    }
  }

  /** `chunkLine`, imperatively: `chunks[chunks.size - 1]` is overwritten in place. */
  method ChunkLine(line: string, target: real, spPx: real, lsPx: real) returns (chunks: seq<string>)
    ensures chunks == LegacyChunks(line, target, spPx, lsPx)
  {
    var cnt := 0.0;
    chunks := [];
    var newLine: string := [];
    for i := 0 to |line|
      invariant LegacyRun(line[..i], target, spPx, lsPx) == LegacyState(chunks, newLine, cnt)
    {
      var c := line[i];
      assert line[..i + 1][..i] == line[..i];
      ghost var st := LegacyState(chunks, newLine, cnt);
      assert LegacyRun(line[..i + 1], target, spPx, lsPx) == LegacyStep(st, c, target, spPx, lsPx);
      var charWidth := WidthPx(c, spPx, lsPx);
      if cnt + charWidth > target && |newLine| > 0 {
        chunks := chunks + [newLine];
        newLine := [];
        cnt := 0.0;
      }
      assert LegacyState(chunks, newLine, cnt) == Break(st, c, target, spPx, lsPx);
      chunks, newLine, cnt := CarryPunct(chunks, newLine, cnt, c, spPx, lsPx);
      cnt := cnt + charWidth;
      newLine := newLine + [c];
    }
    assert line[..|line|] == line;
    if |newLine| > 0 {
      chunks := chunks + [newLine];
    }
  }

  // ---------------------------------------------------------------------------
  // pagingText

  /** Kotlin's `chunked(size)`: consecutive groups of `size`, the last one possibly shorter. */
  function Chunked<T>(xs: seq<T>, size: nat): (r: seq<seq<T>>)
    requires size > 0
    ensures forall k :: 0 <= k < |r| ==> 0 < |r[k]| <= size
    ensures forall k :: 0 <= k < |r| - 1 ==> |r[k]| == size
    decreases |xs|
  {
    if xs == [] then []
    else if |xs| <= size then [xs]
    else [xs[..size]] + Chunked(xs[size..], size)
  }

  function FlattenAll<T>(gs: seq<seq<T>>): seq<T>
    decreases |gs|
  {
    if gs == [] then [] else gs[0] + FlattenAll(gs[1..])
  }

  /** `chunked` keeps every element, in order. */
  lemma {:induction false} ChunkedFlatten<T>(xs: seq<T>, size: nat)
    requires size > 0
    ensures FlattenAll(Chunked(xs, size)) == xs
    decreases |xs|
  {
    if xs != [] && |xs| > size {
      ChunkedFlatten(xs[size..], size);
      assert xs == xs[..size] + xs[size..];
      assert Chunked(xs, size)[1..] == Chunked(xs[size..], size);
    } else if xs != [] {
      assert Chunked(xs, size)[1..] == [];
    }
  }

  /** Each page: its lines joined with '\n', plus a final '\n'. */
  function Pages(groups: seq<seq<string>>): (r: seq<string>)
    ensures |r| == |groups|
    decreases |groups|
  {
    if groups == [] then [] else [Join(groups[0], "\n") + "\n"] + Pages(groups[1..])
  }

  /** Every line followed by '\n'. */
  function Terminated(ls: seq<string>): string
    decreases |ls|
  {
    if ls == [] then "" else ls[0] + "\n" + Terminated(ls[1..])
  }

  lemma {:induction false} TerminatedAppend(a: seq<string>, b: seq<string>)
    ensures Terminated(a + b) == Terminated(a) + Terminated(b)
    decreases |a|
  {
    if a != [] {
      assert (a + b)[1..] == a[1..] + b;
      TerminatedAppend(a[1..], b);
    } else {
      assert a + b == b;
    }
  }

  lemma {:induction false} JoinTerminated(g: seq<string>)
    requires g != []
    ensures Join(g, "\n") + "\n" == Terminated(g)
    decreases |g|
  {
    if |g| == 1 {
      assert g[1..] == [];
    } else {
      var init := g[..|g| - 1];
      JoinTerminated(init);
      assert g == init + [g[|g| - 1]];
      TerminatedAppend(init, [g[|g| - 1]]);
      assert [g[|g| - 1]][1..] == [];
    }
  }

  /** The pages spell every display line followed by '\n'. */
  lemma {:induction false} PagesSpellLines(groups: seq<seq<string>>)
    requires forall k :: 0 <= k < |groups| ==> groups[k] != []
    ensures Concat(Pages(groups)) == Terminated(FlattenAll(groups))
    decreases |groups|
  {
    if groups != [] {
      PagesSpellLines(groups[1..]);
      JoinTerminated(groups[0]);
      TerminatedAppend(groups[0], FlattenAll(groups[1..]));
      ConcatPrepend(Join(groups[0], "\n") + "\n", Pages(groups[1..]));
    }
  }

  lemma ConcatPrepend(x: string, ss: seq<string>)
    ensures Concat([x] + ss) == x + Concat(ss)
  {
    ConcatAppend([x], ss);
    assert [x][..0] == [];
  }

  /** The display lines of the non-blank source lines, in source order. */
  function LegacyLines(ls: seq<string>, target: real, spPx: real, lsPx: real): seq<string>
    decreases |ls|
  {
    if ls == [] then []
    else
      var r := LegacyLines(ls[..|ls| - 1], target, spPx, lsPx);
      var line := ls[|ls| - 1];
      if Trim(line) == [] then r else r + LegacyChunks(line, target, spPx, lsPx)
  }

  /**
   * The display lines spell the non-blank source lines: blank lines vanish
   * without a trace and nothing of the others is lost.
   */
  lemma {:induction false} LegacyLinesSpell(ls: seq<string>, target: real, spPx: real, lsPx: real)
    ensures Concat(LegacyLines(ls, target, spPx, lsPx)) == Concat(TextUtil.NonBlank(ls))
    decreases |ls|
  {
    if ls != [] {
      var prefix := ls[..|ls| - 1];
      var line := ls[|ls| - 1];
      LegacyLinesSpell(prefix, target, spPx, lsPx);
      if Trim(line) != [] {
        LegacyChunksSpellLine(line, target, spPx, lsPx);
        ConcatAppend(LegacyLines(prefix, target, spPx, lsPx), LegacyChunks(line, target, spPx, lsPx));
        ConcatAppend(TextUtil.NonBlank(prefix), [line]);
        assert [line][..0] == [];
      }
    }
  }

  /**
   * `pagingText` of the older engine on pixel values. `maxLine` is the plain
   * quotient of height and line height, with no lower bound, and `chunked`
   * rejects a size below 1 with an exception, so None stands for that failure.
   */
  method LegacyPagingText(text: string, heightPx: real, widthPx: real, fontSizePx: real,
                          letterSpacingPx: real, lineHeightPx: real)
    returns (result: Option<seq<string>>)
    ensures var maxLine := TextUtil.FloatQuotientToInt(heightPx, lineHeightPx);
      maxLine <= 0 ==> result.None?
    ensures var maxLine := TextUtil.FloatQuotientToInt(heightPx, lineHeightPx);
      maxLine > 0 ==>
        result == Some(Pages(Chunked(LegacyLines(Split(text, '\n'), widthPx, fontSizePx, letterSpacingPx),
                                     maxLine)))
  {
    var textLines := Split(text, '\n');
    var maxLine := TextUtil.FloatQuotientToInt(heightPx, lineHeightPx);
    var resultLines: seq<string> := [];
    for n := 0 to |textLines|
      invariant resultLines == LegacyLines(textLines[..n], widthPx, fontSizePx, letterSpacingPx)
    {
      var line := textLines[n];
      assert textLines[..n + 1][..n] == textLines[..n];
      if |Trim(line)| == 0 {
        continue;
      }
      var chunks := ChunkLine(line, widthPx, fontSizePx, letterSpacingPx);
      resultLines := resultLines + chunks;
    }
    assert textLines[..|textLines|] == textLines;
    if maxLine <= 0 {
      return None;
    }
    result := Some(Pages(Chunked(resultLines, maxLine)));
  }

  /**
   * The pages of the older engine: all but the last hold exactly `maxLine`
   * display lines and the last at most that many, and together they spell
   * every display line followed by '\n', so every non-blank source line is
   * kept in order.
   */
  lemma LegacyPagesProps(ls: seq<string>, maxLine: nat)
    requires maxLine > 0
    ensures var gs := Chunked(ls, maxLine);
      Concat(Pages(gs)) == Terminated(ls) &&
      (forall k :: 0 <= k < |gs| ==> 0 < |gs[k]| <= maxLine && Pages(gs)[k] == Join(gs[k], "\n") + "\n") &&
      (forall k :: 0 <= k < |gs| - 1 ==> |gs[k]| == maxLine)
  {
    var gs := Chunked(ls, maxLine);
    ChunkedFlatten(ls, maxLine);
    PagesSpellLines(gs);
    PagesIndex(gs);
  }

  lemma {:induction false} PagesIndex(gs: seq<seq<string>>)
    ensures forall k :: 0 <= k < |gs| ==> Pages(gs)[k] == Join(gs[k], "\n") + "\n"
    decreases |gs|
  {
    if gs != [] {
      PagesIndex(gs[1..]);
    }
  }
}
