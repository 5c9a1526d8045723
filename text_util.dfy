/**
 * The reader's pagination engine (`TextUtil` in util/TextUtil.kt).
 *
 * A source line is broken greedily into display lines ("chunks") whose pixel
 * width is measured with two widths: printable ASCII counts as half width and
 * every other character as full width. Two typographic rules from Chinese and
 * Japanese typesetting adjust a break: a character that may not begin a line
 * is pulled back onto the line it would have started, and a character that
 * may not end a line is carried onto the next one. Blank source lines become
 * paragraph markers (""), and display lines are grouped into pages of at most
 * `maxLine` content lines; markers do not count toward that limit.
 *
 * Pixel values are `real`s handed in by the caller; the density conversions
 * happen outside this module.
 */
module TextUtil {
  import opened Base

  /** Characters that may not begin a display line (TextUtil.kt:9-13). */
  const LineStartDeny: set<char> :=
    {'，', '。', ',', '、', '.', '!', '？', '?', '）', '」', ')', ']', '}', '”', '"', '\''}

  /** Characters that may not end a display line (TextUtil.kt:15-19). */
  const LineEndDeny: set<char> := {'（', '(', '「', '[', '{', '“', '"', '\''}

  const AsciiStart: int := 0x20
  const AsciiEnd: int := 0x7E

  predicate IsHalfWidth(c: char) { AsciiStart <= c as int <= AsciiEnd }

  // ---------------------------------------------------------------------------
  // Character widths

  /** `getCharWidth`: the pixel width of one character. */
  function CharWidth(c: char, half: real, full: real): (w: real)
    ensures IsHalfWidth(c) ==> w == half
    ensures !IsHalfWidth(c) ==> w == full
  {
    if IsHalfWidth(c) then half else full
  }

  /** Total pixel width of a string. */
  function Width(s: string, half: real, full: real): real
    decreases |s|
  {
    if s == [] then 0.0 else Width(s[..|s| - 1], half, full) + CharWidth(s[|s| - 1], half, full)
  }

  // ---------------------------------------------------------------------------
  // Breaking one line: the state machine of `chunkLineOptimized`

  /**
   * The loop state of `chunkLineOptimized`: the chunks emitted so far, the
   * contents of the line builder and the running width `currentWidth`.
   */
  datatype ChunkState = ChunkState(chunks: seq<string>, builder: string, width: real)

  /** What `handlePunctuationOptimized` does when a rule applies. */
  datatype Carry = Carry(emitted: string, builder: string, width: real)

  /**
   * `handlePunctuationOptimized`: None when no rule applies (the caller then
   * breaks normally), otherwise the chunk it emits, the new builder and the
   * new width.
   */
  function Punctuation(builder: string, c: char, half: real, full: real): (r: Option<Carry>)
    ensures r.Some? ==> r.value.emitted != []
    ensures r.Some? ==> r.value.emitted + r.value.builder == builder + [c]
  {
    if builder == [] then None
    else
      var last := builder[|builder| - 1];
      if c in LineStartDeny then Some(Carry(builder + [c], [], 0.0))
      else if last in LineEndDeny && |builder| - 1 > 0 then
        assert builder == builder[..|builder| - 1] + [last];
        Some(Carry(builder[..|builder| - 1], [last, c],
                   CharWidth(last, half, full) + CharWidth(c, half, full)))
      else None
  }

  /** The break condition: `currentWidth + charWidth > targetPixelWidth && lineBuilder.isNotEmpty()`. */
  predicate Overflows(st: ChunkState, c: char, target: real, half: real, full: real) {
    st.width + CharWidth(c, half, full) > target && st.builder != []
  }

  /** One iteration of the main loop of `chunkLineOptimized`. */
  function Step(st: ChunkState, c: char, target: real, half: real, full: real): (r: ChunkState)
    ensures |st.chunks| <= |r.chunks| <= |st.chunks| + 1
    ensures r.chunks[..|st.chunks|] == st.chunks
    ensures |r.chunks| == |st.chunks| + 1 ==> r.chunks[|st.chunks|] != []
    ensures |r.chunks| == |st.chunks| + 1 ==> r.chunks[|st.chunks|] + r.builder == st.builder + [c]
    ensures |r.chunks| == |st.chunks| ==> r.builder == st.builder + [c]
  {
    if Overflows(st, c, target, half, full) then
      match Punctuation(st.builder, c, half, full)
      case Some(carry) => ChunkState(st.chunks + [carry.emitted], carry.builder, carry.width)
      case None => ChunkState(st.chunks + [st.builder], [c], 0.0 + CharWidth(c, half, full))
    else
      ChunkState(st.chunks, st.builder + [c], st.width + CharWidth(c, half, full))
  }

  /** The state after feeding the characters of `s`, one at a time, to `Step`. */
  function Run(s: string, st: ChunkState, target: real, half: real, full: real): ChunkState
    decreases |s|
  {
    if s == [] then st
    else Step(Run(s[..|s| - 1], st, target, half, full), s[|s| - 1], target, half, full)
  }

  /** The tail of `chunkLineOptimized`: a non-empty builder is emitted. */
  function Finish(st: ChunkState): seq<string> {
    if st.builder != [] then st.chunks + [st.builder] else st.chunks
  }

  const Start: ChunkState := ChunkState([], [], 0.0)

  /** The chunks `chunkLineOptimized` appends to its output for `line`. */
  function Chunks(line: string, target: real, half: real, full: real): seq<string> {
    Finish(Run(line, Start, target, half, full))
  }

  predicate AllNonEmpty(ss: seq<string>) {
    forall k :: 0 <= k < |ss| ==> ss[k] != []
  }

  /**
   * The three break rules of `chunkLineOptimized` and `handlePunctuationOptimized`:
   * a chunk is emitted only on overflow with a non-empty builder; a
   * line-start-denied character is appended to the chunk it would have begun
   * and the width restarts at 0; a line-end-denied last character moves to
   * the new line together with the current one, whose width is then the sum of
   * theirs; otherwise the builder is emitted as it is and restarts with `c`.
   */
  lemma StepRules(st: ChunkState, c: char, target: real, half: real, full: real)
    ensures var r := Step(st, c, target, half, full);
      |r.chunks| > |st.chunks| ==> Overflows(st, c, target, half, full)
    ensures var r := Step(st, c, target, half, full);
      !Overflows(st, c, target, half, full) ==>
        r == ChunkState(st.chunks, st.builder + [c], st.width + CharWidth(c, half, full))
    ensures var r := Step(st, c, target, half, full);
      Overflows(st, c, target, half, full) && c in LineStartDeny ==>
        r == ChunkState(st.chunks + [st.builder + [c]], [], 0.0)
    ensures var r := Step(st, c, target, half, full); var b := st.builder;
      Overflows(st, c, target, half, full) && c !in LineStartDeny &&
      b[|b| - 1] in LineEndDeny && |b| > 1 ==>
        r == ChunkState(st.chunks + [b[..|b| - 1]], [b[|b| - 1], c],
                        CharWidth(b[|b| - 1], half, full) + CharWidth(c, half, full))
    ensures var r := Step(st, c, target, half, full); var b := st.builder;
      Overflows(st, c, target, half, full) && c !in LineStartDeny &&
      !(b[|b| - 1] in LineEndDeny && |b| > 1) ==>
        r == ChunkState(st.chunks + [b], [c], CharWidth(c, half, full))
  {
  }

  /** `Step` keeps `currentWidth` equal to the width of the builder. */
  lemma StepWidth(st: ChunkState, c: char, target: real, half: real, full: real)
    requires st.width == Width(st.builder, half, full)
    ensures var r := Step(st, c, target, half, full); r.width == Width(r.builder, half, full)
  {
    var b, r := st.builder, Step(st, c, target, half, full);
    var wc := CharWidth(c, half, full);
    if !Overflows(st, c, target, half, full) {
      assert r == ChunkState(st.chunks, b + [c], st.width + wc);
      assert (b + [c])[..|b|] == b;
      assert Width(b + [c], half, full) == Width(b, half, full) + wc;
    } else if c in LineStartDeny {
      assert r.builder == [] && r.width == 0.0;
    } else if |b| > 1 && b[|b| - 1] in LineEndDeny {
      var last := b[|b| - 1];
      assert r.builder == [last, c] && r.width == CharWidth(last, half, full) + wc;
      assert [last, c][..1] == [last];
      assert [last][..0] == [];
      assert Width([last], half, full) == CharWidth(last, half, full);
      assert Width([last, c], half, full) == Width([last], half, full) + wc;
    } else {
      assert r.builder == [c] && r.width == 0.0 + wc;
      assert [c][..0] == [];
      assert Width([c], half, full) == 0.0 + wc;
    }
  }

  /** One step loses and duplicates nothing. */
  lemma StepSpells(st: ChunkState, c: char, target: real, half: real, full: real)
    ensures var r := Step(st, c, target, half, full);
      Concat(r.chunks) + r.builder == Concat(st.chunks) + st.builder + [c]
  {
    var r := Step(st, c, target, half, full);
    if |r.chunks| == |st.chunks| + 1 {
      assert r.chunks == st.chunks + [r.chunks[|st.chunks|]];
      assert r.chunks[..|r.chunks| - 1] == st.chunks;
    } else {
      assert r.chunks == st.chunks;
    }
  }

  /** The chunks of the start state stay in front, and the new ones are non-empty. */
  lemma {:induction false} RunExtends(s: string, st: ChunkState, target: real, half: real, full: real)
    ensures var r := Run(s, st, target, half, full);
      |st.chunks| <= |r.chunks| && r.chunks[..|st.chunks|] == st.chunks
    ensures var r := Run(s, st, target, half, full);
      forall k :: |st.chunks| <= k < |r.chunks| ==> r.chunks[k] != []
    decreases |s|
  {
    if s != [] {
      RunExtends(s[..|s| - 1], st, target, half, full);
    }
  }

  /**
   * Running the machine loses and duplicates nothing: the emitted chunks
   * followed by the builder spell the old ones, the old builder and the input.
   */
  lemma {:induction false} RunSpells(s: string, st: ChunkState, target: real, half: real, full: real)
    ensures var r := Run(s, st, target, half, full);
      Concat(r.chunks) + r.builder == Concat(st.chunks) + st.builder + s
    decreases |s|
  {
    if s != [] {
      var p := s[..|s| - 1];
      var c := s[|s| - 1];
      RunSpells(p, st, target, half, full);
      var mid := Run(p, st, target, half, full);
      StepSpells(mid, c, target, half, full);
      assert s == p + [c];
    }
  }

  /** The running width is always the width of the builder. */
  lemma {:induction false} RunWidth(s: string, st: ChunkState, target: real, half: real, full: real)
    requires st.width == Width(st.builder, half, full)
    ensures var r := Run(s, st, target, half, full); r.width == Width(r.builder, half, full)
    decreases |s|
  {
    if s != [] {
      RunWidth(s[..|s| - 1], st, target, half, full);
      StepWidth(Run(s[..|s| - 1], st, target, half, full), s[|s| - 1], target, half, full);
    }
  }

  /**
   * `chunkLineOptimized` appends only non-empty chunks, and they spell the
   * input line exactly; a non-empty line yields at least one chunk.
   */
  lemma ChunksSpellLine(line: string, target: real, half: real, full: real)
    ensures Concat(Chunks(line, target, half, full)) == line
    ensures AllNonEmpty(Chunks(line, target, half, full))
    ensures line != [] ==> |Chunks(line, target, half, full)| > 0
  {
    RunSpells(line, Start, target, half, full);
    RunExtends(line, Start, target, half, full);
    var r := Run(line, Start, target, half, full);
    assert Concat(r.chunks) + r.builder == line;
    if r.builder != [] {
      assert (r.chunks + [r.builder])[..|r.chunks|] == r.chunks;
    }
  }

  // ---------------------------------------------------------------------------
  // Imperative `chunkLineOptimized` and `handlePunctuationOptimized`

  /**
   * `handlePunctuationOptimized` over the builder and the output list: it
   * returns the new width when a rule applies, together with the updated
   * builder and output.
   */
  method HandlePunctuationOptimized(builder: string, c: char, chunks: seq<string>, half: real, full: real)
    returns (newWidth: Option<real>, builder': string, chunks': seq<string>)
    ensures Punctuation(builder, c, half, full).None? ==>
      newWidth.None? && builder' == builder && chunks' == chunks
    ensures Punctuation(builder, c, half, full).Some? ==>
      var p := Punctuation(builder, c, half, full).value;
      newWidth == Some(p.width) && builder' == p.builder && chunks' == chunks + [p.emitted]
  {
    builder', chunks' := builder, chunks;
    if |builder| == 0 {
      return None, builder', chunks';
    }
    var lastChar := builder[|builder| - 1];
    if c in LineStartDeny {
      builder' := builder' + [c];
      chunks' := chunks' + [builder'];
      builder' := [];
      return Some(0.0), builder', chunks';
    }
    if lastChar in LineEndDeny {
      var newLineLength := |builder| - 1;
      if newLineLength > 0 {
        chunks' := chunks' + [builder[..newLineLength]];
        builder' := [lastChar, c];
        var lastCharWidth := CharWidth(lastChar, half, full);
        var currentCharWidth := CharWidth(c, half, full);
        return Some(lastCharWidth + currentCharWidth), builder', chunks';
      }
    }
    return None, builder', chunks';
  }

  /** `chunkLineOptimized`: appends the chunks of `line` to `output`. */
  method ChunkLineOptimized(line: string, target: real, half: real, full: real, output: seq<string>)
    returns (result: seq<string>)
    ensures result == output + Chunks(line, target, half, full)
  {
    var charWidths := new real[|line|](i requires 0 <= i < |line| => CharWidth(line[i], half, full));
    var chunks := output;
    var builder: string := [];
    var width := 0.0;
    var i := 0;
    while i < |line|
      invariant 0 <= i <= |line|
      invariant charWidths.Length == |line|
      invariant forall j :: 0 <= j < |line| ==> charWidths[j] == CharWidth(line[j], half, full)
      invariant var st := Run(line[..i], Start, target, half, full);
        chunks == output + st.chunks && builder == st.builder && width == st.width
    {
      var c := line[i];
      var charWidth := charWidths[i];
      assert line[..i + 1][..i] == line[..i];
      ghost var st := Run(line[..i], Start, target, half, full);
      assert Run(line[..i + 1], Start, target, half, full) == Step(st, c, target, half, full);
      assert charWidth == CharWidth(c, half, full);
      if width + charWidth > target && |builder| > 0 {
        var newWidth, builder', chunks' := HandlePunctuationOptimized(builder, c, chunks, half, full);
        if newWidth.Some? {
          builder, chunks, width := builder', chunks', newWidth.value;
          i := i + 1;
          continue;
        }
        chunks := chunks + [builder];
        builder := [];
        width := 0.0;
      }
      width := width + charWidth;
      builder := builder + [c];
      i := i + 1;
    }
    assert line[..i] == line;
    if |builder| > 0 {
      chunks := chunks + [builder];
    }
    result := chunks;
  }

  // ---------------------------------------------------------------------------
  // Display lines with paragraph markers (first half of `performPaging`)

  /**
   * The display lines `performPaging` builds from the source lines: a blank
   * line adds a marker "" only right after a content line; any other line
   * adds its chunks.
   */
  function ParagraphLines(ls: seq<string>, target: real, half: real, full: real): seq<string>
    decreases |ls|
  {
    if ls == [] then []
    else
      var r := ParagraphLines(ls[..|ls| - 1], target, half, full);
      var line := ls[|ls| - 1];
      if IsBlank(line) then
        if |r| > 0 && r[|r| - 1] != [] then r + [""] else r
      else r + Chunks(line, target, half, full)
  }

  /** One more paragraph line extends the display lines by that line's contribution. */
  lemma ParagraphLinesStep(ls: seq<string>, n: nat, target: real, half: real, full: real)
    requires n < |ls|
    ensures var r := ParagraphLines(ls[..n], target, half, full);
      ParagraphLines(ls[..n + 1], target, half, full) ==
        if IsBlank(ls[n]) then (if |r| > 0 && r[|r| - 1] != [] then r + [""] else r)
        else r + Chunks(ls[n], target, half, full)
  {
    assert ls[..n + 1][..n] == ls[..n];
  }

  /** No leading marker and no two adjacent markers. */
  predicate WellMarked(r: seq<string>) {
    (|r| > 0 ==> r[0] != []) && forall k :: 0 < k < |r| && r[k] == [] ==> r[k - 1] != []
  }

  /** The source lines that are not blank, in order. */
  function NonBlank(ls: seq<string>): (r: seq<string>)
    ensures forall k :: 0 <= k < |r| ==> !IsBlank(r[k])
    decreases |ls|
  {
    if ls == [] then []
    else if IsBlank(ls[|ls| - 1]) then NonBlank(ls[..|ls| - 1])
    else NonBlank(ls[..|ls| - 1]) + [ls[|ls| - 1]]
  }

  /**
   * The markers of `performPaging` are well placed, and the display lines
   * spell exactly the non-blank source lines: nothing of their text is lost.
   */
  lemma {:induction false} ParagraphLinesProps(ls: seq<string>, target: real, half: real, full: real)
    ensures WellMarked(ParagraphLines(ls, target, half, full))
    ensures Concat(ParagraphLines(ls, target, half, full)) == Concat(NonBlank(ls))
    decreases |ls|
  {
    if ls != [] {
      var prefix := ls[..|ls| - 1];
      var line := ls[|ls| - 1];
      ParagraphLinesProps(prefix, target, half, full);
      var r := ParagraphLines(prefix, target, half, full);
      if IsBlank(line) {
        if |r| > 0 && r[|r| - 1] != [] {
          ConcatAppend(r, [""]);
          assert Concat([""]) == "";
        }
      } else {
        var cs := Chunks(line, target, half, full);
        ChunksSpellLine(line, target, half, full);
        ConcatAppend(r, cs);
        ConcatAppend(NonBlank(prefix), [line]);
        assert Concat([line]) == line by {
          assert [line][..0] == [];
        }
        var r' := r + cs;
        forall k | 0 < k < |r'| && r'[k] == []
          ensures r'[k - 1] != []
        {
          assert k < |r|;
        }
      }
    }
  }

  /** The blank source lines that directly follow a content line: one paragraph break each. */
  function Breaks(ls: seq<string>): nat
    decreases |ls|
  {
    if |ls| < 2 then 0
    else Breaks(ls[..|ls| - 1]) + (if IsBlank(ls[|ls| - 1]) && !IsBlank(ls[|ls| - 2]) then 1 else 0)
  }

  /**
   * How the display lines of `performPaging` end: after a blank source line
   * they are empty or end with a marker; after a content line they end with
   * a piece of it.
   */
  lemma ParagraphEnds(ls: seq<string>, target: real, half: real, full: real)
    requires ls != []
    ensures var r := ParagraphLines(ls, target, half, full);
      (IsBlank(ls[|ls| - 1]) ==> r == [] || r[|r| - 1] == "") &&
      (!IsBlank(ls[|ls| - 1]) ==> |r| > 0 && r[|r| - 1] != "")
  {
    var line := ls[|ls| - 1];
    if !IsBlank(line) {
      ChunksSpellLine(line, target, half, full);
    }
  }

  /**
   * Where the markers of `performPaging` go: there is one marker per blank
   * source line that directly follows a content line, and no other.
   */
  lemma {:induction false} ParagraphMarkers(ls: seq<string>, target: real, half: real, full: real)
    ensures multiset(ParagraphLines(ls, target, half, full))[""] == Breaks(ls)
    decreases |ls|
  {
    if ls != [] {
      var prefix := ls[..|ls| - 1];
      var line := ls[|ls| - 1];
      ParagraphMarkers(prefix, target, half, full);
      var r := ParagraphLines(prefix, target, half, full);
      // the prefix's last line decides whether a blank `line` is a break
      var afterContent := prefix != [] && !IsBlank(prefix[|prefix| - 1]);
      if prefix != [] {
        ParagraphEnds(prefix, target, half, full);
      }
      assert afterContent <==> |r| > 0 && r[|r| - 1] != "";
      assert Breaks(ls) == Breaks(prefix) + (if IsBlank(line) && afterContent then 1 else 0) by {
        if |ls| >= 2 {
          assert prefix[|prefix| - 1] == ls[|ls| - 2];
        }
      }
      if IsBlank(line) {
        if afterContent {
          MarkerCountAppend(r, [""]);
        }
      } else {
        var cs := Chunks(line, target, half, full);
        ChunksSpellLine(line, target, half, full);
        MarkerCountAppend(r, cs);
      }
    }
  }

  /** Appending display lines adds their markers to the count. */
  lemma MarkerCountAppend(r: seq<string>, cs: seq<string>)
    ensures multiset(r + cs)[""] == multiset(r)[""] + multiset(cs)[""]
  {
    assert multiset(r + cs) == multiset(r) + multiset(cs);
  }

  // ---------------------------------------------------------------------------
  // Pages (second half of `performPaging`)

  /** Number of content (non-marker) lines. */
  function ContentCount(g: seq<string>): nat
    decreases |g|
  {
    if g == [] then 0 else (if g[0] != [] then 1 else 0) + ContentCount(g[1..])
  }

  /**
   * The inner loop of the page assembly: scanning from `j` with `count`
   * content lines already on the page, the index at which the page ends,
   * which is the next content line once `count` has reached `maxLine`.
   */
  function PageEnd(ls: seq<string>, j: nat, count: nat, maxLine: nat): (e: nat)
    requires j <= |ls|
    ensures j <= e <= |ls|
    ensures j < |ls| && (ls[j] == [] || count < maxLine) ==> e > j
    decreases |ls| - j
  {
    if j == |ls| then j
    else if ls[j] != [] && count >= maxLine then j
    else PageEnd(ls, j + 1, count + (if ls[j] != [] then 1 else 0), maxLine)
  }

  /** The line groups of the successive pages starting at `start`. */
  function Groups(ls: seq<string>, start: nat, maxLine: nat): seq<seq<string>>
    requires start <= |ls|
    requires maxLine >= 1
    decreases |ls| - start
  {
    if start == |ls| then []
    else
      var e := PageEnd(ls, start, 0, maxLine);
      [ls[start..e]] + Groups(ls, e, maxLine)
  }

  /** Each group becomes its lines joined with '\n'; an empty string is dropped. */
  function Render(gs: seq<seq<string>>): seq<string>
    decreases |gs|
  {
    if gs == [] then []
    else
      var page := Join(gs[0], "\n");
      (if page != [] then [page] else []) + Render(gs[1..])
  }

  /** The pages `performPaging` returns for its display lines. */
  function Paginate(ls: seq<string>, maxLine: nat): seq<string>
    requires maxLine >= 1
  {
    Render(Groups(ls, 0, maxLine))
  }

  function Flatten(gs: seq<seq<string>>): seq<string>
    decreases |gs|
  {
    if gs == [] then [] else gs[0] + Flatten(gs[1..])
  }

  lemma {:induction false} ContentCountAppend(a: seq<string>, x: string)
    ensures ContentCount(a + [x]) == ContentCount(a) + (if x != [] then 1 else 0)
    decreases |a|
  {
    if a == [] {
      assert [x][1..] == [];
    } else {
      assert (a + [x])[1..] == a[1..] + [x];
      ContentCountAppend(a[1..], x);
    }
  }

  /**
   * The page that starts at `j` with `count` content lines already on it
   * receives at most `maxLine - count` more, and exactly that many when it
   * ends before the last display line, at a content line.
   */
  lemma {:induction false} PageEndCount(ls: seq<string>, j: nat, count: nat, maxLine: nat)
    requires j <= |ls| && count <= maxLine
    ensures var e := PageEnd(ls, j, count, maxLine);
      count + ContentCount(ls[j..e]) <= maxLine
    ensures var e := PageEnd(ls, j, count, maxLine);
      e < |ls| ==> ls[e] != [] && count + ContentCount(ls[j..e]) == maxLine
    decreases |ls| - j
  {
    var e := PageEnd(ls, j, count, maxLine);
    if j == |ls| || (ls[j] != [] && count >= maxLine) {
      assert ls[j..e] == [];
    } else {
      var count' := count + (if ls[j] != [] then 1 else 0);
      PageEndCount(ls, j + 1, count', maxLine);
      assert ls[j..e][1..] == ls[j + 1..e];
    }
  }

  /**
   * The page groups cover the display lines exactly, in order; every group is
   * non-empty and holds at most `maxLine` content lines; every group but the
   * last holds exactly `maxLine`, and every group after the first begins with
   * a content line.
   */
  lemma {:induction false} GroupsProps(ls: seq<string>, start: nat, maxLine: nat)
    requires start <= |ls| && maxLine >= 1
    ensures Flatten(Groups(ls, start, maxLine)) == ls[start..]
    ensures forall k :: 0 <= k < |Groups(ls, start, maxLine)| ==>
      Groups(ls, start, maxLine)[k] != [] && ContentCount(Groups(ls, start, maxLine)[k]) <= maxLine
    ensures forall k :: 0 <= k < |Groups(ls, start, maxLine)| - 1 ==>
      ContentCount(Groups(ls, start, maxLine)[k]) == maxLine
    ensures forall k :: 0 < k < |Groups(ls, start, maxLine)| ==> Groups(ls, start, maxLine)[k][0] != []
    ensures start < |ls| ==> |Groups(ls, start, maxLine)| > 0 && Groups(ls, start, maxLine)[0][0] == ls[start]
    decreases |ls| - start
  {
    if start < |ls| {
      var e := PageEnd(ls, start, 0, maxLine);
      PageEndCount(ls, start, 0, maxLine);
      GroupsProps(ls, e, maxLine);
      var gs := Groups(ls, start, maxLine);
      var rest := Groups(ls, e, maxLine);
      assert gs == [ls[start..e]] + rest;
      assert gs[1..] == rest;
      assert ls[start..] == ls[start..e] + ls[e..];
      if e < |ls| {
        assert rest[0][0] == ls[e];
      } else {
        assert rest == [];
      }
    }
  }

  lemma {:induction false} JoinFlatten(gs: seq<seq<string>>, sep: string)
    requires forall k :: 0 <= k < |gs| ==> gs[k] != []
    ensures Join(Flatten(gs), sep) == Join(JoinEach(gs, sep), sep)
    ensures gs != [] ==> Flatten(gs) != []
    decreases |gs|
  {
    if gs != [] {
      JoinFlatten(gs[1..], sep);
      if |gs| == 1 {
        assert gs[1..] == [];
        assert Flatten(gs) == gs[0];
        assert JoinEach(gs, sep) == [Join(gs[0], sep)];
      } else {
        JoinAppend(gs[0], Flatten(gs[1..]), sep);
        assert JoinEach(gs, sep) == [Join(gs[0], sep)] + JoinEach(gs[1..], sep);
        JoinAppend([Join(gs[0], sep)], JoinEach(gs[1..], sep), sep);
      }
    }
  }

  function JoinEach(gs: seq<seq<string>>, sep: string): (r: seq<string>)
    ensures |r| == |gs|
    ensures forall k :: 0 <= k < |gs| ==> r[k] == Join(gs[k], sep)
    decreases |gs|
  {
    if gs == [] then [] else [Join(gs[0], sep)] + JoinEach(gs[1..], sep)
  }

  lemma JoinStartsWith(g: seq<string>, sep: string)
    requires g != [] && g[0] != []
    ensures Join(g, sep) != []
    decreases |g|
  {
    if |g| > 1 {
      JoinAppend(g[..1], g[1..], sep);
      assert g == g[..1] + g[1..];
    }
  }

  /** When no group renders to "", `Render` is `JoinEach`. */
  lemma {:induction false} RenderKeepsAll(gs: seq<seq<string>>)
    requires forall k :: 0 <= k < |gs| ==> gs[k] != [] && gs[k][0] != []
    ensures Render(gs) == JoinEach(gs, "\n")
    decreases |gs|
  {
    if gs != [] {
      JoinStartsWith(gs[0], "\n");
      RenderKeepsAll(gs[1..]);
    }
  }

  /**
   * Pages of well-marked display lines: one page per group, each the group's
   * lines joined with '\n' (so no page is empty and none is dropped), and the
   * pages joined with '\n' reproduce all display lines joined with '\n'.
   */
  lemma PaginateRoundTrip(ls: seq<string>, maxLine: nat)
    requires maxLine >= 1 && WellMarked(ls)
    ensures |Paginate(ls, maxLine)| == |Groups(ls, 0, maxLine)|
    ensures forall k :: 0 <= k < |Paginate(ls, maxLine)| ==>
      Paginate(ls, maxLine)[k] == Join(Groups(ls, 0, maxLine)[k], "\n") &&
      Paginate(ls, maxLine)[k] != [] &&
      ContentCount(Groups(ls, 0, maxLine)[k]) <= maxLine
    ensures Join(Paginate(ls, maxLine), "\n") == Join(ls, "\n")
  {
    var gs := Groups(ls, 0, maxLine);
    GroupsProps(ls, 0, maxLine);
    forall k | 0 <= k < |gs|
      ensures gs[k] != [] && gs[k][0] != []
    {
      if k == 0 { assert gs[0][0] == ls[0]; }
    }
    RenderKeepsAll(gs);
    JoinFlatten(gs, "\n");
    assert ls[0..] == ls;
    forall k | 0 <= k < |gs|
      ensures Join(gs[k], "\n") != []
    {
      JoinStartsWith(gs[k], "\n");
    }
  }

  // ---------------------------------------------------------------------------
  // `performPaging`, `calculateMaxLines` and `pagingText`

  /** Rendering the groups from `start` renders the first page, then the rest. */
  lemma RenderGroupsStep(ls: seq<string>, start: nat, maxLine: nat)
    requires start < |ls| && maxLine >= 1
    ensures var e := PageEnd(ls, start, 0, maxLine); var page := Join(ls[start..e], "\n");
      Render(Groups(ls, start, maxLine)) ==
        (if page != [] then [page] else []) + Render(Groups(ls, e, maxLine))
  {
    var e := PageEnd(ls, start, 0, maxLine);
    var gs := Groups(ls, start, maxLine);
    assert gs[0] == ls[start..e];
    assert gs[1..] == Groups(ls, e, maxLine);
  }

  /** One iteration of the page loop: the page string built by the `for` loop. */
  lemma PageBuilderStep(ls: seq<string>, lo: nat, k: nat)
    requires lo <= k < |ls|
    ensures Join(ls[lo..k + 1], "\n") ==
      (if k == lo then ls[k] else Join(ls[lo..k], "\n") + "\n" + ls[k])
  {
    if k > lo {
      assert ls[lo..k + 1][..k - lo] == ls[lo..k];
    } else {
      assert ls[lo..k + 1] == [ls[k]];
    }
  }

  /** Step 3 of the page loop: the lines `lo` until `hi` appended with '\n' between them. */
  method BuildPage(lines: seq<string>, lo: nat, hi: nat) returns (pageBuilder: string)
    requires lo < hi <= |lines|
    ensures pageBuilder == Join(lines[lo..hi], "\n")
  {
    pageBuilder := [];
    for k := lo to hi
      invariant k == lo ==> pageBuilder == []
      invariant k > lo ==> pageBuilder == Join(lines[lo..k], "\n") + (if k < hi then "\n" else "")
    {
      PageBuilderStep(lines, lo, k);
      pageBuilder := pageBuilder + lines[k];
      assert pageBuilder == Join(lines[lo..k + 1], "\n");
      if k < hi - 1 {
        pageBuilder := pageBuilder + "\n";
      }
    }
  }

  /** Step 1 of `performPaging`: the display lines of `text` with paragraph markers. */
  method DisplayLines(text: string, target: real, half: real, full: real)
    returns (resultLines: seq<string>)
    ensures resultLines == ParagraphLines(Lines(text), target, half, full)
  {
    var lines := Lines(text);
    resultLines := [];
    var n := 0;
    while n < |lines|
      invariant 0 <= n <= |lines|
      invariant resultLines == ParagraphLines(lines[..n], target, half, full)
    {
      var line := lines[n];
      ParagraphLinesStep(lines, n, target, half, full);
      if IsBlank(line) {
        if |resultLines| > 0 && resultLines[|resultLines| - 1] != [] {
          resultLines := resultLines + [""];
        }
      } else {
        resultLines := ChunkLineOptimized(line, target, half, full, resultLines);
      }
      n := n + 1;
    }
    assert lines[..n] == lines;
  }

  /** Step 2 of the page loop: the lines from `lineIndex` on that fit on one page. */
  method FindPageEnd(resultLines: seq<string>, lineIndex: nat, maxLine: nat) returns (e: nat)
    requires lineIndex <= |resultLines|
    ensures e == PageEnd(resultLines, lineIndex, 0, maxLine)
  {
    var contentLinesOnThisPage := 0;
    var lastIndexForThisPage := lineIndex;
    while lastIndexForThisPage < |resultLines|
      invariant lineIndex <= lastIndexForThisPage <= |resultLines|
      invariant PageEnd(resultLines, lastIndexForThisPage, contentLinesOnThisPage, maxLine) ==
                PageEnd(resultLines, lineIndex, 0, maxLine)
    {
      var currentLine := resultLines[lastIndexForThisPage];
      if |currentLine| > 0 {
        if contentLinesOnThisPage >= maxLine {
          break;
        }
        contentLinesOnThisPage := contentLinesOnThisPage + 1;
      }
      lastIndexForThisPage := lastIndexForThisPage + 1;
    }
    e := lastIndexForThisPage;
  }

  /** `performPaging`: display lines from `lineSequence`, then pages. */
  method PerformPaging(text: string, target: real, maxLine: int, half: real, full: real)
    returns (pages: seq<string>)
    requires maxLine >= 1
    ensures pages == Paginate(ParagraphLines(Lines(text), target, half, full), maxLine)
  {
    var resultLines := DisplayLines(text, target, half, full);

    pages := [];
    var lineIndex := 0;
    while lineIndex < |resultLines|
      invariant 0 <= lineIndex <= |resultLines|
      invariant pages + Render(Groups(resultLines, lineIndex, maxLine)) ==
                Render(Groups(resultLines, 0, maxLine))
      decreases |resultLines| - lineIndex
    {
      var e := FindPageEnd(resultLines, lineIndex, maxLine);
      var pageBuilder := BuildPage(resultLines, lineIndex, e);
      RenderGroupsStep(resultLines, lineIndex, maxLine);
      ghost var rest := Render(Groups(resultLines, e, maxLine));
      ghost var rendered := if |pageBuilder| > 0 then [pageBuilder] else [];
      RegroupConcat(pages, rendered, rest, Render(Groups(resultLines, 0, maxLine)));
      if |pageBuilder| > 0 {
        pages := pages + [pageBuilder];
      }
      lineIndex := e;
    }
    assert pages + [] == pages;
  }

  /** Kotlin's `Float.toInt()` on a finite value: truncation toward zero, saturated to the Int range. */
  function TruncToInt(x: real): (r: int)
    ensures IsInt32(r)
    ensures 0.0 <= x < (INT_MAX + 1) as real ==> r as real <= x < (r + 1) as real
  {
    var t := if x >= 0.0 then x.Floor else -((-x).Floor);
    if t > INT_MAX then INT_MAX else if t < INT_MIN then INT_MIN else t
  }

  lemma MulBelow(x: real, n: real, d: real)
    requires d > 0.0 && x / d < n
    ensures x < n * d
  {
    assert x == (x / d) * d;
  }

  lemma MulAbove(x: real, n: real, d: real)
    requires d > 0.0 && n <= x / d
    ensures n * d <= x
  {
    assert x == (x / d) * d;
  }

  /**
   * `(x / y).toInt()` on Floats: the quotient truncated toward zero and
   * saturated. Division by zero follows the Float rules: a positive numerator
   * gives +Infinity (Int.MAX_VALUE), a negative one -Infinity
   * (Int.MIN_VALUE), and 0 gives NaN, which converts to 0. For a positive
   * divisor the result is the number of whole divisors in `x`.
   */
  function FloatQuotientToInt(x: real, y: real): (r: int)
    ensures IsInt32(r)
    ensures y > 0.0 && 0.0 <= x / y < (INT_MAX + 1) as real ==>
      r >= 0 && r as real * y <= x < (r + 1) as real * y
    ensures y == 0.0 ==> (x > 0.0 ==> r == INT_MAX) && (x < 0.0 ==> r == INT_MIN) && (x == 0.0 ==> r == 0)
  {
    if y != 0.0 then
      var r := TruncToInt(x / y);
      if y > 0.0 && 0.0 <= x / y < (INT_MAX + 1) as real then
        MulBelow(x, (r + 1) as real, y);
        MulAbove(x, r as real, y);
        r
      else r
    else if x > 0.0 then INT_MAX
    else if x < 0.0 then INT_MIN
    else 0
  }

  /**
   * `calculateMaxLines` with the default safe-area ratio 0.95: the number of
   * whole lines of height `lineHeight` that fit into 95% of `totalHeight`, but
   * at least 1.
   */
  function CalculateMaxLines(totalHeight: real, lineHeight: real): (r: int)
    ensures 1 <= r <= INT_MAX
  {
    var calculatedLines := FloatQuotientToInt(totalHeight * 0.95, lineHeight);
    if calculatedLines < 1 then 1 else calculatedLines
  }

  /** Within range, the line count is the number of whole lines that fit in 95% of the height, or 1. */
  lemma CalculateMaxLinesFits(totalHeight: real, lineHeight: real)
    ensures var r := CalculateMaxLines(totalHeight, lineHeight);
      lineHeight > 0.0 && 0.0 <= totalHeight * 0.95 / lineHeight < INT_MAX as real ==>
        (r == 1 || r as real * lineHeight <= totalHeight * 0.95) &&
        totalHeight * 0.95 < (r + 1) as real * lineHeight
  {
  }

  /**
   * `pagingText` on pixel values: empty text gives no pages; otherwise the
   * half and full widths are derived from the font size and letter spacing
   * and the text is paged with `calculateMaxLines` lines per page.
   */
  method PagingText(text: string, heightPx: real, widthPx: real, fontSizePx: real,
                    letterSpacingPx: real, lineHeightPx: real)
    returns (pages: seq<string>)
    ensures text == [] ==> pages == []
    ensures text != [] ==>
      pages == Paginate(ParagraphLines(Lines(text), widthPx, 0.5 * fontSizePx + letterSpacingPx,
                                       fontSizePx + letterSpacingPx),
                        CalculateMaxLines(heightPx, lineHeightPx))
  {
    var maxLine := CalculateMaxLines(heightPx, lineHeightPx);
    if maxLine <= 0 || |text| == 0 {
      return [];
    }
    var halfWidthPx := 0.5 * fontSizePx + letterSpacingPx;
    var fullWidthPx := fontSizePx + letterSpacingPx;
    pages := PerformPaging(text, widthPx, maxLine, halfWidthPx, fullWidthPx);
    assert pages == Paginate(ParagraphLines(Lines(text), widthPx, 0.5 * fontSizePx + letterSpacingPx,
                                            fontSizePx + letterSpacingPx), maxLine);
  }

  /**
   * The pages `pagingText` produces: each holds at most `maxLine` content lines
   * and none is empty, and together they reproduce the display lines, which
   * spell the non-blank source lines with well-placed paragraph markers.
   */
  lemma PagingTextProps(text: string, target: real, half: real, full: real, maxLine: nat)
    requires maxLine >= 1
    ensures var ls := ParagraphLines(Lines(text), target, half, full);
      var pages := Paginate(ls, maxLine);
      WellMarked(ls) &&
      Concat(ls) == Concat(NonBlank(Lines(text))) &&
      Join(pages, "\n") == Join(ls, "\n") &&
      |pages| == |Groups(ls, 0, maxLine)| &&
      (forall k :: 0 <= k < |pages| ==>
         pages[k] != [] && ContentCount(Groups(ls, 0, maxLine)[k]) <= maxLine)
  {
    var ls := ParagraphLines(Lines(text), target, half, full);
    ParagraphLinesProps(Lines(text), target, half, full);
    PaginateRoundTrip(ls, maxLine);
  }
}
