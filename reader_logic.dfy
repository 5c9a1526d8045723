/**
 * The value-level rules of the reader's view model (ui/vm/ReaderVM.kt): how a
 * loaded url names its page, when downloaded html is good enough for the disk
 * cache, how the chapter list and the footer of a paginated passage list are
 * derived, where a finished load scrolls to, and how `saveSettings` keeps the
 * reader's position across a re-pagination.
 */
module ReaderLogic {
  import opened Base
  import opened Beans

  // ---------------------------------------------------------------------------
  // Page numbers in urls

  /**
   * `extractPageNumFromLoadedUrl`: the text between the first `page=` and the
   * next `&`, read as an `Int`.
   */
  function ExtractPageNum(url: Option<string>): (r: Option<int>)
    ensures url.None? ==> r.None?
    ensures url.Some? && !Contains(url.value, "page=") ==> r.None?
    ensures url.Some? && IndexOf(url.value, "page=", 0).Some? ==>
      var i := IndexOf(url.value, "page=", 0).value;
      r == ToIntOrNull(SubstringBefore(url.value[i + 5..], "&"))
  {
    match url
    case None => None
    case Some(u) =>
      ContainsIffIndexOf(u, "page=");
      ToIntOrNull(SubstringBefore(SubstringAfter(u, "page=", ""), "&"))
  }

  /** The url the reader builds to load one page of a thread (ReaderVM.kt:301-305, 381-384, 702-705). */
  function RequestUrl(baseUrl: string, novelUrl: string, page: int, authorId: Option<string>): string {
    baseUrl + "/" + novelUrl + "&page=" + IntToString(page, 10) +
    (if authorId.Some? then "&authorid=" + authorId.value else "")
  }

  lemma NatToStringNoAmp(n: nat)
    ensures forall i :: 0 <= i < |NatToString(n, 10)| ==> NatToString(n, 10)[i] != '&'
  {
    NatToStringDigits(n);
  }

  lemma IntToStringNoAmp(n: int)
    ensures forall i :: 0 <= i < |IntToString(n, 10)| ==> IntToString(n, 10)[i] != '&'
  {
    if n < 0 {
      NatToStringNoAmp(-n);
      assert IntToString(n, 10) == "-" + NatToString(-n, 10);
    } else {
      NatToStringNoAmp(n);
    }
  }

  /** `IndexOf` finds a given occurrence when there is none before it. */
  lemma IndexOfAt(s: string, sub: string, k: nat)
    requires OccursAt(s, sub, k)
    requires forall j: nat :: j < k ==> !OccursAt(s, sub, j)
    ensures IndexOf(s, sub, 0) == Some(k)
  {
  }

  /** The first `page=` of a request url is the one after the thread url. */
  lemma FirstPageKey(p: string, rest: string)
    requires !Contains(p, "page=")
    ensures IndexOf(p + "page=" + rest, "page=", 0) == Some(|p|)
  {
    var u := p + "page=" + rest;
    assert u[|p|..|p| + 5] == "page=";
    forall j: nat | j < |p|
      ensures !OccursAt(u, "page=", j)
    {
      if j + 5 <= |p| {
        assert u[j..j + 5] == p[j..j + 5];
        assert !OccursAt(p, "page=", j);
      } else {
        assert u[|p|] == 'p';
        assert "page="[|p| - j] != 'p';
      }
    }
    IndexOfAt(u, "page=", |p|);
  }

  /** The digits of a number end where the next `&` begins. */
  lemma DigitsBeforeAmp(d: string, t: string)
    requires forall i :: 0 <= i < |d| ==> d[i] != '&'
    requires t == [] || t[0] == '&'
    ensures SubstringBefore(d + t, "&") == d
  {
    var s := d + t;
    forall j: nat | j < |d|
      ensures !OccursAt(s, "&", j)
    {
      assert s[j..j + 1] == [d[j]];
    }
    if t == [] {
      assert s == d;
      assert forall j: nat :: !OccursAt(s, "&", j);
    } else {
      assert s[|d|..|d| + 1] == "&";
      IndexOfAt(s, "&", |d|);
    }
  }

  /**
   * The page number read back from a request url is the requested page, as
   * long as the part before `&page=` holds no `page=` of its own: the cache
   * loader and the result handler agree on which page a load was for.
   */
  lemma RequestUrlPage(baseUrl: string, novelUrl: string, page: int, authorId: Option<string>)
    requires IsInt32(page)
    requires !Contains(baseUrl + "/" + novelUrl + "&", "page=")
    ensures ExtractPageNum(Some(RequestUrl(baseUrl, novelUrl, page, authorId))) == Some(page)
  {
    var p := baseUrl + "/" + novelUrl + "&";
    var d := IntToString(page, 10);
    var t := if authorId.Some? then "&authorid=" + authorId.value else "";
    var u := RequestUrl(baseUrl, novelUrl, page, authorId);
    assert u == p + "page=" + (d + t);
    FirstPageKey(p, d + t);
    assert u[|p| + 5..] == d + t;
    IntToStringNoAmp(page);
    DigitsBeforeAmp(d, t);
    IntToStringRoundTrip(page);
  }

  // ---------------------------------------------------------------------------
  // The author id

  /**
   * `checkAndStoreAuthorId`, on the view model's `currentAuthorId`: a known id
   * is kept; otherwise a non-blank text after `authorid=` (up to the next `&`)
   * becomes the id.
   */
  function StoreAuthorId(loadedUrl: Option<string>, current: Option<string>): (r: Option<string>)
    ensures current.Some? || loadedUrl.None? ==> r == current
    ensures r != current ==> r.Some? && !IsBlank(r.value) && Contains(loadedUrl.value, "authorid=")
    ensures r != current ==> forall j :: 0 <= j < |r.value| ==> r.value[j] != '&'
  {
    if loadedUrl.None? || current.Some? then current
    else
      var u := loadedUrl.value;
      ContainsIffIndexOf(u, "authorid=");
      var id := SubstringBefore(SubstringAfter(u, "authorid=", ""), "&");
      BeforeCharFree(SubstringAfter(u, "authorid=", ""), '&');
      if !IsBlank(id) then Some(id) else current
  }

  // ---------------------------------------------------------------------------
  // Disk-cache validation

  const MinCacheHtmlLength: int := 300
  const ErrorNotFound: string := "[Error] Content element not found"
  const ErrorLoadFailed: string := "[Error] 页面加载失败"
  const MessageClassDouble: string := "class=\"message\""
  const MessageClassSingle: string := "class='message'"

  /** `isDiskCacheHtmlValid`, check by check. */
  function IsDiskCacheHtmlValid(html: Option<string>): (r: bool)
    ensures r <==>
      html.Some? && !IsBlank(html.value) && |html.value| >= MinCacheHtmlLength &&
      !Contains(html.value, ErrorNotFound) && !Contains(html.value, ErrorLoadFailed) &&
      (Contains(html.value, MessageClassDouble) || Contains(html.value, MessageClassSingle))
  {
    if html.None? || IsBlank(html.value) then false
    else if |html.value| < MinCacheHtmlLength then false
    else if Contains(html.value, ErrorNotFound) || Contains(html.value, ErrorLoadFailed) then false
    else if !Contains(html.value, MessageClassDouble) && !Contains(html.value, MessageClassSingle) then false
    else true
  }

  // ---------------------------------------------------------------------------
  // Chapter list

  const FooterTitle: string := "footer"

  /** The title of the last chapter found so far (`lastTitle`). */
  function LastTitle(chapters: seq<ChapterInfo>): Option<string> {
    if chapters == [] then None else Some(chapters[|chapters| - 1].title)
  }

  /** Whether a passage opens a chapter, given the last chapter title. */
  predicate OpensChapter(c: Content, lastTitle: Option<string>) {
    c.chapterTitle.Some? && c.chapterTitle != lastTitle && c.chapterTitle.value != FooterTitle
  }

  /** The chapter list `paginateContent` derives from its passages. */
  function ChaptersOf(passages: seq<Content>): seq<ChapterInfo>
    decreases |passages|
  {
    if passages == [] then []
    else
      var n := |passages| - 1;
      var prev := ChaptersOf(passages[..n]);
      if OpensChapter(passages[n], LastTitle(prev)) then prev + [ChapterInfo(passages[n].chapterTitle.value, n)]
      else prev
  }

  /** The loop of `paginateContent` that builds the chapter list. */
  method ChapterList(passages: seq<Content>) returns (chapterList: seq<ChapterInfo>)
    ensures chapterList == ChaptersOf(passages)
  {
    chapterList := [];
    var lastTitle: Option<string> := None;
    var index := 0;
    while index < |passages|
      invariant 0 <= index <= |passages|
      invariant chapterList == ChaptersOf(passages[..index])
      invariant lastTitle == LastTitle(chapterList)
    {
      var content := passages[index];
      assert passages[..index + 1][..index] == passages[..index];
      if content.chapterTitle.Some? && content.chapterTitle != lastTitle && content.chapterTitle.value != FooterTitle {
        chapterList := chapterList + [ChapterInfo(content.chapterTitle.value, index)];
        lastTitle := content.chapterTitle;
      }
      index := index + 1;
    }
    assert passages[..index] == passages;
  }

  /** Each chapter starts at a passage carrying its title. */
  ghost predicate ChaptersAtTitles(passages: seq<Content>, chapters: seq<ChapterInfo>) {
    forall k :: 0 <= k < |chapters| ==>
      0 <= chapters[k].startIndex < |passages| &&
      passages[chapters[k].startIndex].chapterTitle == Some(chapters[k].title) &&
      chapters[k].title != FooterTitle
  }

  /** Chapter starts are strictly increasing. */
  ghost predicate StartsIncrease(chapters: seq<ChapterInfo>) {
    forall j, k :: 0 <= j < k < |chapters| ==> chapters[j].startIndex < chapters[k].startIndex
  }

  /** Neighbouring chapters have different titles. */
  ghost predicate NeighboursDiffer(chapters: seq<ChapterInfo>) {
    forall k :: 0 < k < |chapters| ==> chapters[k - 1].title != chapters[k].title
  }

  ghost predicate ChaptersSound(passages: seq<Content>, chapters: seq<ChapterInfo>) {
    ChaptersAtTitles(passages, chapters) && StartsIncrease(chapters) && NeighboursDiffer(chapters)
  }

  /** Every non-footer title of a passage is listed by a chapter that starts at or before it. */
  ghost predicate ChaptersCover(passages: seq<Content>, chapters: seq<ChapterInfo>) {
    forall i :: 0 <= i < |passages| && passages[i].chapterTitle.Some? && passages[i].chapterTitle.value != FooterTitle ==>
      exists k :: 0 <= k < |chapters| && chapters[k].title == passages[i].chapterTitle.value && chapters[k].startIndex <= i
  }

  /** One more passage either opens a chapter at its index or leaves the list alone. */
  lemma ChaptersStep(passages: seq<Content>)
    requires passages != []
    ensures var n := |passages| - 1; var prev := ChaptersOf(passages[..n]);
      ChaptersOf(passages) == if OpensChapter(passages[n], LastTitle(prev))
        then prev + [ChapterInfo(passages[n].chapterTitle.value, n)] else prev
  {
  }

  lemma {:induction false} ChaptersAtTitlesProof(passages: seq<Content>)
    ensures ChaptersAtTitles(passages, ChaptersOf(passages))
    decreases |passages|
  {
    if passages != [] {
      var n := |passages| - 1;
      var init := passages[..n];
      var prev := ChaptersOf(init);
      ChaptersAtTitlesProof(init);
      ChaptersStep(passages);
      var r := ChaptersOf(passages);
      forall k | 0 <= k < |r|
        ensures 0 <= r[k].startIndex < |passages| &&
          passages[r[k].startIndex].chapterTitle == Some(r[k].title) && r[k].title != FooterTitle
      {
        if k < |prev| {
          assert r[k] == prev[k];
          assert passages[prev[k].startIndex] == init[prev[k].startIndex];
        }
      }
    }
  }

  lemma {:induction false} StartsIncreaseProof(passages: seq<Content>)
    ensures StartsIncrease(ChaptersOf(passages))
    decreases |passages|
  {
    if passages != [] {
      var n := |passages| - 1;
      var init := passages[..n];
      var prev := ChaptersOf(init);
      StartsIncreaseProof(init);
      ChaptersAtTitlesProof(init);
      ChaptersStep(passages);
      if OpensChapter(passages[n], LastTitle(prev)) {
        var r := prev + [ChapterInfo(passages[n].chapterTitle.value, n)];
        forall j, k | 0 <= j < k < |r|
          ensures r[j].startIndex < r[k].startIndex
        {
          if k < |prev| {
            assert r[j] == prev[j] && r[k] == prev[k];
          } else {
            assert r[j] == prev[j];
          }
        }
      }
    }
  }

  lemma {:induction false} NeighboursDifferProof(passages: seq<Content>)
    ensures NeighboursDiffer(ChaptersOf(passages))
    decreases |passages|
  {
    if passages != [] {
      var n := |passages| - 1;
      var init := passages[..n];
      var prev := ChaptersOf(init);
      NeighboursDifferProof(init);
      ChaptersStep(passages);
      if OpensChapter(passages[n], LastTitle(prev)) {
        var r := prev + [ChapterInfo(passages[n].chapterTitle.value, n)];
        forall k | 0 < k < |r|
          ensures r[k - 1].title != r[k].title
        {
          if k < |prev| {
            assert r[k - 1] == prev[k - 1] && r[k] == prev[k];
          }
        }
      }
    }
  }

  lemma ChaptersSoundProof(passages: seq<Content>)
    ensures ChaptersSound(passages, ChaptersOf(passages))
  {
    ChaptersAtTitlesProof(passages);
    StartsIncreaseProof(passages);
    NeighboursDifferProof(passages);
  }

  lemma {:induction false} ChaptersCoverProof(passages: seq<Content>)
    ensures ChaptersCover(passages, ChaptersOf(passages))
    decreases |passages|
  {
    if passages != [] {
      var n := |passages| - 1;
      var init := passages[..n];
      var prev := ChaptersOf(init);
      var r := ChaptersOf(passages);
      ChaptersCoverProof(init);
      ChaptersStep(passages);
      assert r[..|prev|] == prev;
      forall i | 0 <= i < |passages| && passages[i].chapterTitle.Some? && passages[i].chapterTitle.value != FooterTitle
        ensures exists k :: 0 <= k < |r| && r[k].title == passages[i].chapterTitle.value && r[k].startIndex <= i
      {
        if i < n {
          assert passages[i] == init[i];
          var k :| 0 <= k < |prev| && prev[k].title == init[i].chapterTitle.value && prev[k].startIndex <= i;
          assert r[k] == prev[k];
        } else if OpensChapter(passages[n], LastTitle(prev)) {
          assert r[|r| - 1].title == passages[i].chapterTitle.value;
        } else {
          assert r[|prev| - 1].title == passages[i].chapterTitle.value;
          assert r[|prev| - 1].startIndex < n by {
            ChaptersAtTitlesProof(init);
          }
        }
      }
    }
  }

  /**
   * The chapter list is sound (each entry starts at a passage with its title,
   * starts strictly increase, neighbours differ) and covers every non-footer
   * title of the passages.
   */
  lemma ChaptersProps(passages: seq<Content>)
    ensures ChaptersSound(passages, ChaptersOf(passages))
    ensures ChaptersCover(passages, ChaptersOf(passages))
  {
    ChaptersSoundProof(passages);
    ChaptersCoverProof(passages);
  }

  /** A footer item never starts a chapter, so appending one leaves the chapter list as it was. */
  lemma ChaptersIgnoreFooter(body: seq<Content>, footer: Content)
    requires footer.chapterTitle == Some(FooterTitle)
    ensures ChaptersOf(body + [footer]) == ChaptersOf(body)
  {
    assert (body + [footer])[..|body|] == body;
  }

  // ---------------------------------------------------------------------------
  // Footer

  const LoadingNextText: string := "正在加载下一页..."
  const NextPageText: string := "...下一页"
  const NoMoreText: string := "...没有更多了"

  function FooterItem(text: string): Content {
    Content(text, Text, Some(FooterTitle))
  }

  /** The footer `paginateContent` appends: none while a transition runs. */
  function Footer(isTransitioning: bool, isFromCache: bool, hasNext: bool, currentView: int, maxWebView: int): (r: Option<Content>)
    ensures r.None? <==> isTransitioning
    ensures r.Some? ==> r.value.contentType == Text && r.value.chapterTitle == Some(FooterTitle)
    ensures r.Some? && r.value.data == NoMoreText <==> !isTransitioning && !isFromCache && !hasNext && currentView >= maxWebView
    ensures r.Some? && r.value.data == NextPageText <==> !isTransitioning && !isFromCache && hasNext
  {
    if isTransitioning then None
    else if isFromCache then Some(FooterItem(LoadingNextText))
    else if hasNext then Some(FooterItem(NextPageText))
    else if currentView < maxWebView then Some(FooterItem(LoadingNextText))
    else Some(FooterItem(NoMoreText))
  }

  /** `paginateContent`'s result: the laid-out body, the footer, and the chapter list. */
  function Paginate(body: seq<Content>, footer: Option<Content>): (seq<Content>, seq<ChapterInfo>) {
    var passages := if footer.Some? then body + [footer.value] else body;
    (passages, ChaptersOf(passages))
  }

  /** The chapters of a paginated list are those of its body, and the footer comes last. */
  lemma PaginateProps(body: seq<Content>, footer: Option<Content>)
    requires footer.Some? ==> footer.value.chapterTitle == Some(FooterTitle)
    ensures Paginate(body, footer).1 == ChaptersOf(body)
    ensures footer.Some? ==> Paginate(body, footer).0 == body + [footer.value]
    ensures footer.None? ==> Paginate(body, footer).0 == body
  {
    if footer.Some? {
      ChaptersIgnoreFooter(body, footer.value);
    }
  }

  // ---------------------------------------------------------------------------
  // Where a load scrolls to

  /** Kotlin's `coerceIn(lo, hi)` for `lo <= hi`. */
  function CoerceIn(x: int, lo: int, hi: int): (r: int)
    requires lo <= hi
    ensures lo <= r <= hi
    ensures lo <= x <= hi ==> r == x
    ensures x < lo ==> r == lo
    ensures x > hi ==> r == hi
  {
    if x < lo then lo else if x > hi then hi else x
  }

  /**
   * The page `loadFinished` opens after a normal load: the cache's target
   * index, else 0 once initialised, else the remembered `initPage`, clamped
   * into the new passage list.
   */
  function SafeInitPage(isFromCache: bool, cacheTargetIndex: int, initialized: bool, initPage: int, passageCount: nat): (r: int)
    ensures 0 <= r && (passageCount > 0 ==> r < passageCount) && (passageCount == 0 ==> r == 0)
    ensures var wanted := if isFromCache then cacheTargetIndex else if initialized then 0 else initPage;
      (0 <= wanted < passageCount ==> r == wanted) &&
      (wanted < 0 ==> r == 0) &&
      (passageCount > 0 && wanted >= passageCount ==> r == passageCount - 1)
  {
    var newInitPage := if isFromCache then cacheTargetIndex else if initialized then 0 else initPage;
    var totalItems := if passageCount < 1 then 1 else passageCount;
    CoerceIn(newInitPage, 0, if totalItems - 1 < 0 then 0 else totalItems - 1)
  }

  // ---------------------------------------------------------------------------
  // Keeping the position across a re-pagination (`saveSettings`)

  /** Kotlin's `find { it.title == title }?.startIndex ?: 0`. */
  function StartOf(chapters: seq<ChapterInfo>, title: Option<string>): (r: int)
    ensures (forall k :: 0 <= k < |chapters| ==> Some(chapters[k].title) != title) ==> r == 0
  {
    if chapters == [] then 0
    else if Some(chapters[0].title) == title then chapters[0].startIndex
    else
      assert forall k :: 0 <= k < |chapters| - 1 ==> chapters[1..][k] == chapters[k + 1];
      StartOf(chapters[1..], title)
  }

  /** `find` returns the first chapter with the title. */
  lemma {:induction false} StartOfFirst(chapters: seq<ChapterInfo>, title: Option<string>, k: int)
    requires 0 <= k < |chapters| && Some(chapters[k].title) == title
    requires forall j :: 0 <= j < k ==> Some(chapters[j].title) != title
    ensures StartOf(chapters, title) == chapters[k].startIndex
  {
    if k > 0 {
      assert chapters[1..][k - 1] == chapters[k];
      forall j | 0 <= j < k - 1
        ensures Some(chapters[1..][j].title) != title
      {
        assert chapters[1..][j] == chapters[j + 1];
      }
      StartOfFirst(chapters[1..], title, k - 1);
    }
  }

  /** With increasing starts, `find` gives a start no later than any chapter with the title. */
  lemma {:induction false} StartOfBound(chapters: seq<ChapterInfo>, title: Option<string>, k: int)
    requires 0 <= k < |chapters| && Some(chapters[k].title) == title
    requires forall i, j :: 0 <= i < j < |chapters| ==> chapters[i].startIndex < chapters[j].startIndex
    ensures StartOf(chapters, title) <= chapters[k].startIndex
  {
    if Some(chapters[0].title) != title {
      var rest := chapters[1..];
      assert rest[k - 1] == chapters[k];
      assert forall i, j :: 0 <= i < j < |rest| ==> rest[i].startIndex < rest[j].startIndex by {
        forall i, j | 0 <= i < j < |rest|
          ensures rest[i].startIndex < rest[j].startIndex
        {
          assert rest[i] == chapters[i + 1] && rest[j] == chapters[j + 1];
        }
      }
      StartOfBound(rest, title, k - 1);
    } else if k > 0 {
      assert chapters[0].startIndex < chapters[k].startIndex;
    }
  }

  /** Kotlin's `Float.toInt()` on a finite value: truncation toward zero. */
  function TruncToInt(x: real): (r: int)
    ensures x >= 0.0 ==> r as real <= x < r as real + 1.0
    ensures x < 0.0 ==> r as real - 1.0 < x <= r as real
  {
    if x >= 0.0 then x.Floor else -((-x).Floor)
  }

  function Max1(n: int): int { if n < 1 then 1 else n }

  /** The page reached from the old percentage: `(oldPercent * newPageCount).toInt()`, clamped. */
  function PercentPage(currentPage: int, oldPageCount: int, newPageCount: int): (r: int)
    requires oldPageCount >= 1 && newPageCount >= 1
    ensures 0 <= r < newPageCount
  {
    var oldPercent := currentPage as real / oldPageCount as real;
    CoerceIn(TruncToInt(oldPercent * newPageCount as real), 0, newPageCount - 1)
  }

  /** The page reached by chapter: the new start of the old chapter plus the old offset into it, clamped. */
  function ChapterPage(newChapters: seq<ChapterInfo>, title: Option<string>, itemInChapter: int, newPageCount: int): (r: int)
    requires newPageCount >= 1
    ensures 0 <= r < newPageCount
  {
    CoerceIn(StartOf(newChapters, title) + itemInChapter, 0, newPageCount - 1)
  }

  /**
   * The remap of `saveSettings` as written (ReaderVM.kt:1274-1306). The guard
   * compares `currentPage` with the page count coerced to at least 1, so for
   * an empty page list page 0 passes it and `htmlList[0]` throws; `None` is
   * that exception.
   */
  function RemapPageAsWritten(htmlList: seq<Content>, chapterList: seq<ChapterInfo>, currentPage: int,
                              newPages: seq<Content>, newChapters: seq<ChapterInfo>): (r: Option<int>)
    ensures r.None? <==> htmlList == [] && currentPage == 0
  {
    var oldPageCount := Max1(|htmlList|);
    var newPageCount := Max1(|newPages|);
    if 0 <= currentPage < oldPageCount then
      if currentPage >= |htmlList| then None
      else
        var oldTitle := htmlList[currentPage].chapterTitle;
        var oldStart := StartOf(chapterList, oldTitle);
        var oldItem := if currentPage - oldStart < 0 then 0 else currentPage - oldStart;
        if oldTitle.Some? then Some(ChapterPage(newChapters, oldTitle, oldItem, newPageCount))
        else Some(PercentPage(currentPage, oldPageCount, newPageCount))
    else Some(PercentPage(currentPage, oldPageCount, newPageCount))
  }

  /** After a failed load the page list is empty; saving settings on page 0 then crashes. */
  lemma RemapAsWrittenCrashesOnEmptyList(newPages: seq<Content>, newChapters: seq<ChapterInfo>)
    ensures RemapPageAsWritten([], [], 0, newPages, newChapters) == None
  {
  }

  /**
   * The remap with the guard on the real list length: the chapter the reader
   * was in, found again in the new chapter list, plus the offset into it; by
   * percentage when the old page has no chapter or is out of range.
   */
  function RemapPage(htmlList: seq<Content>, chapterList: seq<ChapterInfo>, currentPage: int,
                     newPages: seq<Content>, newChapters: seq<ChapterInfo>): (r: int)
    ensures 0 <= r < Max1(|newPages|)
    ensures 0 <= currentPage < |htmlList| && htmlList[currentPage].chapterTitle.Some? ==>
      var oldTitle := htmlList[currentPage].chapterTitle;
      var oldStart := StartOf(chapterList, oldTitle);
      r == CoerceIn(StartOf(newChapters, oldTitle) + (if currentPage < oldStart then 0 else currentPage - oldStart), 0, Max1(|newPages|) - 1)
    ensures !(0 <= currentPage < |htmlList| && htmlList[currentPage].chapterTitle.Some?) ==>
      r == PercentPage(currentPage, Max1(|htmlList|), Max1(|newPages|))
  {
    var oldPageCount := Max1(|htmlList|);
    var newPageCount := Max1(|newPages|);
    if 0 <= currentPage < |htmlList| then
      var oldTitle := htmlList[currentPage].chapterTitle;
      var oldStart := StartOf(chapterList, oldTitle);
      var oldItem := if currentPage - oldStart < 0 then 0 else currentPage - oldStart;
      if oldTitle.Some? then ChapterPage(newChapters, oldTitle, oldItem, newPageCount)
      else PercentPage(currentPage, oldPageCount, newPageCount)
    else PercentPage(currentPage, oldPageCount, newPageCount)
  }

  /** Wherever the as-written remap does not throw, the corrected one agrees with it. */
  lemma RemapAgrees(htmlList: seq<Content>, chapterList: seq<ChapterInfo>, currentPage: int,
                    newPages: seq<Content>, newChapters: seq<ChapterInfo>)
    ensures RemapPageAsWritten(htmlList, chapterList, currentPage, newPages, newChapters).Some? ==>
      RemapPageAsWritten(htmlList, chapterList, currentPage, newPages, newChapters).value ==
      RemapPage(htmlList, chapterList, currentPage, newPages, newChapters)
  {
  }

  /** The first chapter with a passage's title starts at or before that passage. */
  lemma StartOfAtOrBefore(passages: seq<Content>, i: int)
    requires 0 <= i < |passages| && passages[i].chapterTitle.Some? && passages[i].chapterTitle.value != FooterTitle
    ensures StartOf(ChaptersOf(passages), passages[i].chapterTitle) <= i
  {
    var chapters := ChaptersOf(passages);
    StartsIncreaseProof(passages);
    ChaptersCoverProof(passages);
    var k :| 0 <= k < |chapters| && chapters[k].title == passages[i].chapterTitle.value && chapters[k].startIndex <= i;
    StartOfBound(chapters, passages[i].chapterTitle, k);
  }

  lemma PercentPageSame(currentPage: int, count: int)
    requires 0 <= currentPage < count
    ensures PercentPage(currentPage, count, count) == currentPage
  {
    var x := currentPage as real / count as real;
    assert x * count as real == currentPage as real;
  }

  /**
   * Re-paginating into the same layout leaves the reader on the page they were
   * on, both within a chapter and by percentage.
   */
  lemma RemapSameLayout(htmlList: seq<Content>, currentPage: int)
    requires 0 <= currentPage < |htmlList|
    ensures RemapPage(htmlList, ChaptersOf(htmlList), currentPage, htmlList, ChaptersOf(htmlList)) == currentPage
  {
    var title := htmlList[currentPage].chapterTitle;
    if title.Some? {
      var chapters := ChaptersOf(htmlList);
      if title.value != FooterTitle {
        StartOfAtOrBefore(htmlList, currentPage);
      } else {
        ChaptersProps(htmlList);
        assert forall k :: 0 <= k < |chapters| ==> Some(chapters[k].title) != title;
      }
    } else {
      PercentPageSame(currentPage, |htmlList|);
    }
  }
}
