/**
 * The reader's view model (ui/vm/ReaderVM.kt) as an object: the fields of
 * its disk-cache machine and of its `ReaderState`, and the methods that
 * update them. Each disk-cache method is proved to move the fields exactly
 * as the session function of `DiskCacheQueue` moves a `CacheSession`, so the
 * lemmas proved there hold of the object; the page layout methods are tied
 * to the value rules of `ReaderLogic` and to `TextUtil`'s paging.
 *
 * Coroutines run in order, at once: the body of a `launch` is part of the
 * call that starts it. The delayed reload after a failure is the separate
 * method `RetryDelayElapsed`. The memory cache is read through the snapshot
 * `memory` handed to each call; disk and memory-cache writes, web-view loads
 * and saved settings are logs.
 */
module ReaderScreen {
  import opened Base
  import opened Beans
  import opened ReaderLogic
  import opened DiskCacheQueue
  import TextUtil
  import LocalCache
  import opened LoadOutcomes

  /** The seven settings `saveCurrentSettings` stores (ReaderVM.kt:1256-1264). */
  datatype StoredSettings = StoredSettings(fontSizePx: real, lineHeightPx: real, padding: real, nightMode: bool,
                                           backgroundColor: Option<string>, loadImages: bool, isVerticalMode: bool)

  /** The pixel sizes `pagingText` is called with: the text area's height and width and the text metrics. */
  datatype PageLayout = PageLayout(heightPx: real, widthPx: real, fontSizePx: real, letterSpacingPx: real, lineHeightPx: real)

  // ---------------------------------------------------------------------------
  // Colours: String.format("#%08X", argb)

  function HexDigit(d: int): char
    requires 0 <= d < 16
  {
    if d < 10 then ('0' as int + d) as char else ('A' as int + d - 10) as char
  }

  /** The value of one upper-case hexadecimal digit. */
  function HexDigitValue(c: char): int {
    if '0' <= c <= '9' then c as int - '0' as int
    else if 'A' <= c <= 'F' then c as int - 'A' as int + 10
    else 0
  }

  /** `n` in exactly `width` upper-case hexadecimal digits, zero-padded, most significant first. */
  function HexDigits(n: nat, width: nat): (r: string)
    ensures |r| == width
  {
    if width == 0 then [] else HexDigits(n / 16, width - 1) + [HexDigit(n % 16)]
  }

  function HexValue(s: string): int {
    if s == [] then 0 else 16 * HexValue(s[..|s| - 1]) + HexDigitValue(s[|s| - 1])
  }

  function Pow16(k: nat): (r: nat)
    ensures r >= 1
  {
    if k == 0 then 1 else 16 * Pow16(k - 1)
  }

  /** Fixed-width hexadecimal spells every value below 16^width. */
  lemma {:induction false} HexRoundTrip(n: nat, width: nat)
    requires n < Pow16(width)
    ensures HexValue(HexDigits(n, width)) == n
  {
    if width > 0 {
      var s := HexDigits(n, width);
      assert s[..|s| - 1] == HexDigits(n / 16, width - 1);
      HexRoundTrip(n / 16, width - 1);
      assert HexDigitValue(HexDigit(n % 16)) == n % 16;
    }
  }

  /** `String.format("#%08X", argb)`: the 32-bit colour as unsigned hexadecimal. */
  function ColorString(argb: int): (r: string)
    ensures |r| == 9 && r[0] == '#'
  {
    "#" + HexDigits(argb % 0x1_0000_0000, 8)
  }

  /** The colour string holds the colour's 32 bits and nothing else. */
  lemma ColorStringRoundTrip(argb: int)
    ensures HexValue(ColorString(argb)[1..]) == argb % 0x1_0000_0000
  {
    assert ColorString(argb)[1..] == HexDigits(argb % 0x1_0000_0000, 8);
    assert Pow16(8) == 0x1_0000_0000;
    HexRoundTrip(argb % 0x1_0000_0000, 8);
  }

  // ---------------------------------------------------------------------------
  // The paged body of `paginateContent`

  /** `TextUtil.pagingText` on the given layout. */
  function PagedText(text: string, layout: PageLayout): seq<string> {
    if text == [] then []
    else
      TextUtil.Paginate(TextUtil.ParagraphLines(Lines(text), layout.widthPx, 0.5 * layout.fontSizePx + layout.letterSpacingPx,
                                                layout.fontSizePx + layout.letterSpacingPx),
                        TextUtil.CalculateMaxLines(layout.heightPx, layout.lineHeightPx))
  }

  /** Each page of a text, as a text passage under the text's chapter title. */
  function TextPassages(pages: seq<string>, chapterTitle: Option<string>): (r: seq<Content>)
    ensures |r| == |pages|
    ensures forall k :: 0 <= k < |r| ==> r[k] == Content(pages[k], Text, chapterTitle)
  {
    if pages == [] then [] else TextPassages(pages[..|pages| - 1], chapterTitle) + [Content(pages[|pages| - 1], Text, chapterTitle)]
  }

  /** The passages of the horizontal layout: text contents paged, images as they are. */
  function PagedBody(raw: seq<Content>, layout: PageLayout): seq<Content> {
    if raw == [] then []
    else
      var c := raw[|raw| - 1];
      var last := if c.contentType == Text then TextPassages(PagedText(c.data, layout), c.chapterTitle) else [c];
      PagedBody(raw[..|raw| - 1], layout) + last
  }

  function ImagesOf(cs: seq<Content>): seq<Content> {
    if cs == [] then [] else ImagesOf(cs[..|cs| - 1]) + (if cs[|cs| - 1].contentType == Img then [cs[|cs| - 1]] else [])
  }

  lemma {:induction false} ImagesOfAppend(a: seq<Content>, b: seq<Content>)
    ensures ImagesOf(a + b) == ImagesOf(a) + ImagesOf(b)
    decreases |b|
  {
    if b == [] {
      assert a + b == a;
    } else {
      assert (a + b)[..|a + b| - 1] == a + b[..|b| - 1];
      ImagesOfAppend(a, b[..|b| - 1]);
    }
  }

  lemma {:induction false} TextPassagesNoImages(pages: seq<string>, chapterTitle: Option<string>)
    ensures ImagesOf(TextPassages(pages, chapterTitle)) == []
    decreases |pages|
  {
    if pages != [] {
      var r := TextPassages(pages, chapterTitle);
      assert r[..|r| - 1] == TextPassages(pages[..|pages| - 1], chapterTitle);
      TextPassagesNoImages(pages[..|pages| - 1], chapterTitle);
    }
  }

  /**
   * Paging keeps the images: the body holds every image of the raw contents,
   * in their order, and no other.
   */
  lemma {:induction false} PagedBodyKeepsImages(raw: seq<Content>, layout: PageLayout)
    ensures ImagesOf(PagedBody(raw, layout)) == ImagesOf(raw)
    decreases |raw|
  {
    if raw != [] {
      var c := raw[|raw| - 1];
      var last := if c.contentType == Text then TextPassages(PagedText(c.data, layout), c.chapterTitle) else [c];
      PagedBodyKeepsImages(raw[..|raw| - 1], layout);
      ImagesOfAppend(PagedBody(raw[..|raw| - 1], layout), last);
      if c.contentType == Text {
        TextPassagesNoImages(PagedText(c.data, layout), c.chapterTitle);
      } else {
        assert ImagesOf([c]) == [c] by { assert [c][..0] == []; }
      }
    }
  }

  /** Some raw content has this chapter title. */
  ghost predicate TitleFrom(raw: seq<Content>, t: Option<string>) {
    exists j :: 0 <= j < |raw| && raw[j].chapterTitle == t
  }

  /** Every passage of the body carries the chapter title of a raw content it came from. */
  lemma {:induction false} PagedBodyTitles(raw: seq<Content>, layout: PageLayout)
    ensures forall k :: 0 <= k < |PagedBody(raw, layout)| ==> TitleFrom(raw, PagedBody(raw, layout)[k].chapterTitle)
    decreases |raw|
  {
    if raw != [] {
      var init := raw[..|raw| - 1];
      PagedBodyTitles(init, layout);
      var body := PagedBody(raw, layout);
      var n := |PagedBody(init, layout)|;
      var c := raw[|raw| - 1];
      var last := if c.contentType == Text then TextPassages(PagedText(c.data, layout), c.chapterTitle) else [c];
      assert body == PagedBody(init, layout) + last;
      forall k | 0 <= k < |body|
        ensures TitleFrom(raw, body[k].chapterTitle)
      {
        if k < n {
          assert body[k] == PagedBody(init, layout)[k];
          assert TitleFrom(init, body[k].chapterTitle);
          var j :| 0 <= j < |init| && init[j].chapterTitle == body[k].chapterTitle;
          assert raw[j] == init[j];
        } else {
          assert body[k] == last[k - n];
          assert last[k - n].chapterTitle == c.chapterTitle;
          assert raw[|raw| - 1].chapterTitle == body[k].chapterTitle;
        }
      }
    }
  }

  // ---------------------------------------------------------------------------
  // The view model

  class ReaderVM {
    /** `RequestConfig.BASE_URL` */
    const baseUrl: string
    /** `ValueUtil.spToPx`: pixels per sp on this display */
    const pxPerSp: real

    var url: string

    // The disk-cache machine (ReaderVM.kt:74-111)
    var isDiskCaching: bool
    var diskCacheQueue: seq<int>
    var diskCacheRetries: map<int, int>
    var cachedPages: set<int>
    var cacheProgress: Option<CacheProgress>
    var diskCacheTotalPages: int
    var diskCacheCurrentPage: int
    var currentCacheSessionShowsProgress: bool
    var diskCacheIncludeImages: bool
    var currentAuthorId: Option<string>
    /** `localCache.savePage` calls */
    var diskSaves: seq<DiskSave>
    /** `CacheUtil.saveCache` calls */
    var memorySaves: seq<CacheData>
    /** `cacheWebView.loadUrl` calls */
    var cacheLoads: seq<string>

    // `ReaderState` (ui/state/ReaderState.kt:40-58), with the three fields ReaderVM also reads and writes
    var htmlList: seq<Content>
    var currentView: int
    var initPage: int
    /** sp */
    var lineHeight: real
    /** dp */
    var padding: real
    /** sp */
    var fontSize: real
    /** sp */
    var letterSpacing: real
    var scale: real
    var offset: (real, real)
    var chapterList: seq<ChapterInfo>
    var maxWebView: int
    var loadImages: bool
    var nightMode: bool
    var isError: bool
    var currentPercentage: real
    /** ARGB of the chosen background colour */
    var backgroundColor: Option<int>
    var isVerticalMode: bool

    // The view model's own fields (ReaderVM.kt:52-72)
    var isTransitioning: bool
    var showLoadingScrim: bool
    var initialized: bool
    var latestPage: int
    var rawContentList: seq<Content>
    var isPreloading: bool
    var viewBeingPreloaded: int
    var nextHtmlList: Option<seq<Content>>
    var nextChapterList: Option<seq<ChapterInfo>>
    /** `SettingsUtil.saveSettings` calls */
    var savedSettings: seq<StoredSettings>

    /** The caching fields as one session value. */
    function Cache(): CacheSession
      reads this`isDiskCaching, this`diskCacheQueue, this`diskCacheRetries, this`cachedPages, this`cacheProgress,
            this`diskCacheTotalPages, this`diskCacheCurrentPage, this`currentCacheSessionShowsProgress,
            this`diskCacheIncludeImages, this`currentAuthorId, this`diskSaves, this`memorySaves, this`cacheLoads
    {
      CacheSession(isDiskCaching, diskCacheQueue, diskCacheRetries, cachedPages, cacheProgress, diskCacheTotalPages,
                   diskCacheCurrentPage, currentCacheSessionShowsProgress, diskCacheIncludeImages, currentAuthorId,
                   diskSaves, memorySaves, cacheLoads)
    }

    function EnvOf(memory: map<int, CacheData>): Env
      reads this`url
    {
      Env(baseUrl, url, memory)
    }

    constructor(baseUrl: string, pxPerSp: real)
      ensures this.baseUrl == baseUrl && this.pxPerSp == pxPerSp && url == []
      ensures Cache() == CacheSession(false, [], map[], {}, None, 0, 0, true, false, None, [], [], [])
      ensures Inv(Cache())
      ensures htmlList == [] && currentView == 1 && initPage == 0 && lineHeight == 43.0 && padding == 16.0
      ensures fontSize == 24.0 && letterSpacing == 2.0 && scale == 1.0 && offset == (0.0, 0.0) && chapterList == []
      ensures maxWebView == 1 && !loadImages && !nightMode && !isError && backgroundColor.None? && !isVerticalMode
      ensures !isTransitioning && !showLoadingScrim && !initialized && latestPage == 0 && rawContentList == []
      ensures !isPreloading && viewBeingPreloaded == 0 && nextHtmlList.None? && nextChapterList.None? && savedSettings == []
      ensures lineHeight >= 1.5 * fontSize
    {
      this.baseUrl := baseUrl;
      this.pxPerSp := pxPerSp;
      url := [];
      isDiskCaching := false;
      diskCacheQueue := [];
      diskCacheRetries := map[];
      cachedPages := {};
      cacheProgress := None;
      diskCacheTotalPages := 0;
      diskCacheCurrentPage := 0;
      currentCacheSessionShowsProgress := true;
      diskCacheIncludeImages := false;
      currentAuthorId := None;
      diskSaves := [];
      memorySaves := [];
      cacheLoads := [];
      htmlList := [];
      currentView := 1;
      initPage := 0;
      lineHeight := 43.0;
      padding := 16.0;
      fontSize := 24.0;
      letterSpacing := 2.0;
      scale := 1.0;
      offset := (0.0, 0.0);
      chapterList := [];
      maxWebView := 1;
      loadImages := false;
      nightMode := false;
      isError := false;
      currentPercentage := 0.0;
      backgroundColor := None;
      isVerticalMode := false;
      isTransitioning := false;
      showLoadingScrim := false;
      initialized := false;
      latestPage := 0;
      rawContentList := [];
      isPreloading := false;
      viewBeingPreloaded := 0;
      nextHtmlList := None;
      nextChapterList := None;
      savedSettings := [];
    }

    /** `updateCachedPagesFromIndex`: the cached pages are the pages the disk index lists for this thread. */
    method UpdateCachedPagesFromIndex(index: LocalCache.Index)
      modifies this`cachedPages
      ensures forall p :: p in cachedPages <==> LocalCache.IsPageCached(index, url, p)
    {
      if url in index && index[url].pages != map[] {
        cachedPages := index[url].pages.Keys;
      } else {
        cachedPages := {};
      }
    }

    /** The end of a session, `loadNextPageForDiskCache`'s first branch. */
    method FinishCaching()
      modifies this`isDiskCaching, this`cacheProgress
      ensures Cache() == Finish(old(Cache()))
    {
      isDiskCaching := false;
      if currentCacheSessionShowsProgress && cacheProgress.Some? && !cacheProgress.value.isComplete {
        cacheProgress := Some(cacheProgress.value.(currentPage := cacheProgress.value.totalPages, isComplete := true));
      }
    }

    /**
     * `loadNextPageForDiskCache(showInitialProgress)`. A memory-cache hit is
     * written to disk and the next page follows at once; a miss loads the
     * page's url in the caching web view and ends the call.
     */
    method LoadNextPageForDiskCache(showInitialProgress: bool, memory: map<int, CacheData>)
      modifies this`isDiskCaching, this`cacheProgress, this`diskCacheCurrentPage, this`diskSaves,
               this`cachedPages, this`diskCacheQueue, this`cacheLoads
      ensures Cache() == LoadNext(old(Cache()), showInitialProgress, EnvOf(memory))
    {
      var show := showInitialProgress;
      while true
        invariant LoadNext(Cache(), show, EnvOf(memory)) == LoadNext(old(Cache()), showInitialProgress, EnvOf(memory))
        decreases |diskCacheQueue|
      {
        LoadNextStep(Cache(), show, EnvOf(memory));
        if !isDiskCaching || diskCacheQueue == [] {
          FinishCaching();
          return;
        }
        var pageNum := diskCacheQueue[0];
        StartNextPage(show);
        if pageNum in memory {
          TakeMemoryHit(memory);
          show := false;
        } else {
          LoadInWebView();
          return;
        }
      }
    }

    /** Count the first queued page as started and show it in the progress unless it is a hidden first page. */
    method StartNextPage(show: bool)
      requires diskCacheQueue != []
      modifies this`diskCacheCurrentPage, this`cacheProgress
      ensures Cache() == StartPage(old(Cache()), show)
    {
      var pageNum := diskCacheQueue[0];
      diskCacheCurrentPage := diskCacheCurrentPage + 1;
      if currentCacheSessionShowsProgress {
        var shouldShowDialogNow := if diskCacheCurrentPage == 1 then show else true;
        if shouldShowDialogNow {
          cacheProgress := Some(CacheProgress(diskCacheTotalPages, diskCacheCurrentPage, pageNum, false));
        }
      }
    }

    /** A memory-cache hit for the first queued page: save it to disk, mark it cached, dequeue it. */
    method TakeMemoryHit(memory: map<int, CacheData>)
      requires diskCacheQueue != [] && diskCacheQueue[0] in memory
      modifies this`diskSaves, this`cachedPages, this`diskCacheQueue
      ensures Cache() == TakeHit(old(Cache()), EnvOf(memory))
    {
      var pageNum := diskCacheQueue[0];
      diskSaves := diskSaves + [DiskSave(pageNum, memory[pageNum], diskCacheIncludeImages)];
      cachedPages := cachedPages + {pageNum};
      diskCacheQueue := Remove(diskCacheQueue, pageNum);
    }

    /** A memory-cache miss: load the first queued page's url in the caching web view. */
    method LoadInWebView()
      requires diskCacheQueue != []
      modifies this`cacheLoads
      ensures Cache() == RequestFirst(old(Cache()), EnvOf(map[]))
    {
      var urlToLoad := RequestUrl(baseUrl, url, diskCacheQueue[0], currentAuthorId);
      cacheLoads := cacheLoads + [urlToLoad];
    }

    /** `startCaching(pagesToCache, includeImages, showProgressDialog)`; the page set is duplicate-free. */
    method StartCaching(pagesToCache: seq<int>, includeImages: bool, showProgressDialog: bool, memory: map<int, CacheData>)
      requires Distinct(pagesToCache)
      modifies this`isDiskCaching, this`cacheProgress, this`diskCacheCurrentPage, this`diskSaves,
               this`cachedPages, this`diskCacheQueue, this`cacheLoads, this`diskCacheIncludeImages,
               this`diskCacheTotalPages, this`diskCacheRetries, this`currentCacheSessionShowsProgress
      ensures Cache() == Start(old(Cache()), pagesToCache, includeImages, showProgressDialog, EnvOf(memory))
      ensures old(Inv(Cache())) ==> Inv(Cache())
    {
      if old(Inv(Cache())) {
        StartKeepsInv(Cache(), pagesToCache, includeImages, showProgressDialog, EnvOf(memory));
      }
      if isDiskCaching || pagesToCache == [] {
        return;
      }
      BeginSession(pagesToCache, showProgressDialog);
      LoadNextPageForDiskCache(showProgressDialog, memory);
    }

    /** The field updates of `startCaching`, before the first page is started. */
    method BeginSession(pagesToCache: seq<int>, showProgressDialog: bool)
      modifies this`isDiskCaching, this`diskCacheQueue, this`diskCacheIncludeImages, this`diskCacheTotalPages,
               this`diskCacheCurrentPage, this`diskCacheRetries, this`currentCacheSessionShowsProgress
      ensures Cache() == Begin(old(Cache()), pagesToCache, showProgressDialog)
    {
      isDiskCaching := true;
      diskCacheQueue := pagesToCache;
      diskCacheIncludeImages := false;
      diskCacheTotalPages := |pagesToCache|;
      diskCacheCurrentPage := 0;
      diskCacheRetries := map[];
      currentCacheSessionShowsProgress := showProgressDialog;
    }

    /**
     * `handleCacheLoadFinished(success, html, loadedUrl, maxPage)`; `reload` is
     * the url whose reload is scheduled after the retry delay.
     */
    method HandleCacheLoadFinished(success: bool, html: string, loadedUrl: Option<string>, maxPage: int, memory: map<int, CacheData>)
      returns (reload: Option<string>)
      modifies this`isDiskCaching, this`cacheProgress, this`diskCacheCurrentPage, this`diskSaves,
               this`cachedPages, this`diskCacheQueue, this`cacheLoads, this`diskCacheRetries,
               this`currentAuthorId, this`memorySaves
      ensures (Cache(), reload) == Handle(old(Cache()), success, html, loadedUrl, maxPage, EnvOf(memory))
      ensures old(Inv(Cache())) ==> Inv(Cache())
    {
      ghost var s0 := Cache();
      var pageNum := ExtractPageNum(loadedUrl);
      if (pageNum.None? || pageNum.value !in diskCacheQueue) && !(diskCacheQueue != [] && pageNum == Some(diskCacheQueue[0])) {
        HandleIgnored(s0, success, html, loadedUrl, maxPage, EnvOf(memory));
        return None;
      }
      var p := pageNum.value;
      HandleUnfold(s0, p, success, html, loadedUrl, maxPage, EnvOf(memory));
      currentAuthorId := StoreAuthorId(loadedUrl, currentAuthorId);
      assert Cache() == s0.(authorId := StoreAuthorId(loadedUrl, s0.authorId));
      reload := HandleChecked(p, success && IsDiskCacheHtmlValid(Some(html)), html, loadedUrl, maxPage, memory);
      if Inv(s0) {
        HandleKeepsInv(s0, success, html, loadedUrl, maxPage, EnvOf(memory));
      }
    }

    /** The handler past the queue check and the author id check. */
    method HandleChecked(p: int, isContentValid: bool, html: string, loadedUrl: Option<string>, maxPage: int, memory: map<int, CacheData>)
      returns (reload: Option<string>)
      modifies this`isDiskCaching, this`cacheProgress, this`diskCacheCurrentPage, this`diskSaves,
               this`cachedPages, this`diskCacheQueue, this`cacheLoads, this`diskCacheRetries, this`memorySaves
      ensures (Cache(), reload) == HandleAt(old(Cache()), p, isContentValid, html, loadedUrl, maxPage, EnvOf(memory))
    {
      if isContentValid {
        diskCacheRetries := diskCacheRetries - {p};
        var cacheData := CacheData(p, html, maxPage, currentAuthorId);
        diskSaves := diskSaves + [DiskSave(p, cacheData, diskCacheIncludeImages)];
        memorySaves := memorySaves + [cacheData];
        cachedPages := cachedPages + {p};
        diskCacheQueue := Remove(diskCacheQueue, p);
        assert Cache() == Accept(old(Cache()), p, html, maxPage);
        LoadNextPageForDiskCache(false, memory);
        reload := None;
      } else {
        var currentRetries := if p in diskCacheRetries then diskCacheRetries[p] else 0;
        if currentRetries < MAX_CACHE_RETRIES {
          diskCacheRetries := diskCacheRetries[p := currentRetries + 1];
          var urlToReload := loadedUrl;
          if urlToReload.None? || !Contains(urlToReload.value, "page=") {
            urlToReload := Some(RequestUrl(baseUrl, url, p, currentAuthorId));
          }
          reload := urlToReload;
        } else {
          diskCacheRetries := diskCacheRetries - {p};
          cachedPages := cachedPages - {p};
          diskCacheQueue := Remove(diskCacheQueue, p);
          assert Cache() == GiveUp(old(Cache()), p);
          LoadNextPageForDiskCache(false, memory);
          reload := None;
        }
      }
    }

    /** The end of the retry delay: reload the page if caching still runs and the page is still queued. */
    method RetryDelayElapsed(pageNum: int, urlToReload: string)
      modifies this`cacheLoads
      ensures Cache() == RetryDue(old(Cache()), pageNum, urlToReload)
      ensures old(Inv(Cache())) ==> Inv(Cache())
    {
      if old(Inv(Cache())) {
        SmallStepsKeepInv(Cache(), pageNum, urlToReload);
      }
      if isDiskCaching && pageNum in diskCacheQueue {
        cacheLoads := cacheLoads + [urlToReload];
      }
    }

    /** `resetCacheProgress`. */
    method ResetCacheProgress()
      modifies this`cacheProgress, this`currentCacheSessionShowsProgress
      ensures Cache() == ResetProgress(old(Cache()))
      ensures old(Inv(Cache())) ==> Inv(Cache())
    {
      if old(Inv(Cache())) {
        SmallStepsKeepInv(Cache(), 0, []);
      }
      cacheProgress := None;
      currentCacheSessionShowsProgress := false;
    }

    /** `showCacheProgress`. */
    method ShowCacheProgress()
      modifies this`cacheProgress, this`currentCacheSessionShowsProgress
      ensures Cache() == ShowProgress(old(Cache()))
      ensures old(Inv(Cache())) ==> Inv(Cache())
    {
      if old(Inv(Cache())) {
        SmallStepsKeepInv(Cache(), 0, []);
      }
      if isDiskCaching && cacheProgress.None? {
        currentCacheSessionShowsProgress := true;
        var currentPageNum := if diskCacheQueue == [] then 0 else diskCacheQueue[0];
        cacheProgress := Some(CacheProgress(diskCacheTotalPages, diskCacheCurrentPage, currentPageNum, false));
      }
    }

    /** `stopCaching`. */
    method StopCaching()
      modifies this`isDiskCaching, this`diskCacheQueue, this`cacheProgress, this`diskCacheTotalPages, this`diskCacheCurrentPage
      ensures Cache() == Stop(old(Cache()))
      ensures old(Inv(Cache())) ==> Inv(Cache()) && !isDiskCaching && diskCacheQueue == []
    {
      if old(Inv(Cache())) {
        StopThenIgnored(Cache(), false, [], None, 0, EnvOf(map[]));
      }
      if !isDiskCaching {
        return;
      }
      isDiskCaching := false;
      diskCacheQueue := [];
      cacheProgress := None;
      diskCacheTotalPages := 0;
      diskCacheCurrentPage := 0;
    }

    // -------------------------------------------------------------------------
    // Laying out the passages

    /** The passages before the footer: the given vertical lines in vertical mode, else the laid-out contents. */
    static function Body(isVertical: bool, raw: seq<Content>, layout: PageLayout, verticalLines: seq<Content>): seq<Content> {
      if isVertical then verticalLines else PagedBody(raw, layout)
    }

    /** The body for the current mode and contents. */
    function BodyFor(layout: PageLayout, verticalLines: seq<Content>): seq<Content>
      reads this`isVerticalMode, this`rawContentList
    {
      Body(isVerticalMode, rawContentList, layout, verticalLines)
    }

    /** The footer for the current state. */
    function FooterFor(isFromCache: bool): Option<Content>
      reads this`isTransitioning, this`nextHtmlList, this`currentView, this`maxWebView
    {
      Footer(isTransitioning, isFromCache, nextHtmlList.Some?, currentView, maxWebView)
    }

    /** The loop of `paginateContent` over the raw contents in the horizontal layout. */
    static method LayOut(raw: seq<Content>, layout: PageLayout) returns (passagesList: seq<Content>)
      ensures passagesList == PagedBody(raw, layout)
    {
      passagesList := [];
      var i := 0;
      while i < |raw|
        invariant 0 <= i <= |raw|
        invariant passagesList == PagedBody(raw[..i], layout)
      {
        var content := raw[i];
        PagedBodyStep(raw, i, layout);
        if content.contentType == Text {
          var pagedText := TextUtil.PagingText(content.data, layout.heightPx, layout.widthPx, layout.fontSizePx,
                                               layout.letterSpacingPx, layout.lineHeightPx);
          assert pagedText == PagedText(content.data, layout);
          passagesList := AppendPages(passagesList, pagedText, content.chapterTitle);
        } else {
          passagesList := passagesList + [content];
        }
        i := i + 1;
      }
      assert raw[..i] == raw;
    }

    /** One more raw content adds its own passages at the end. */
    static lemma PagedBodyStep(raw: seq<Content>, i: int, layout: PageLayout)
      requires 0 <= i < |raw|
      ensures var c := raw[i];
        PagedBody(raw[..i + 1], layout) ==
        PagedBody(raw[..i], layout) + (if c.contentType == Text then TextPassages(PagedText(c.data, layout), c.chapterTitle) else [c])
    {
      assert raw[..i + 1][..i] == raw[..i];
    }

    /** The inner loop: each page of one text content as a passage under its chapter title. */
    static method AppendPages(passagesList: seq<Content>, pagedText: seq<string>, chapterTitle: Option<string>)
      returns (r: seq<Content>)
      ensures r == passagesList + TextPassages(pagedText, chapterTitle)
    {
      r := passagesList;
      var j := 0;
      while j < |pagedText|
        invariant 0 <= j <= |pagedText|
        invariant r == passagesList + TextPassages(pagedText[..j], chapterTitle)
      {
        assert pagedText[..j + 1][..j] == pagedText[..j];
        r := r + [Content(pagedText[j], Text, chapterTitle)];
        j := j + 1;
      }
      assert pagedText[..j] == pagedText;
    }

    /**
     * `paginateContent(isFromCache)`: the laid-out body, the footer, and the
     * chapter list of the result. `verticalLines` stands for the vertical
     * layout's lines.
     */
    method PaginateContent(isFromCache: bool, layout: PageLayout, verticalLines: seq<Content>)
      returns (passages: seq<Content>, chapters: seq<ChapterInfo>)
      ensures (passages, chapters) == Paginate(BodyFor(layout, verticalLines), FooterFor(isFromCache))
    {
      if isVerticalMode {
        passages := verticalLines;
      } else {
        passages := LayOut(rawContentList, layout);
      }
      if isTransitioning {
      } else if isFromCache {
        passages := passages + [FooterItem(LoadingNextText)];
      } else if nextHtmlList.Some? {
        passages := passages + [FooterItem(NextPageText)];
      } else if currentView < maxWebView {
        passages := passages + [FooterItem(LoadingNextText)];
      } else {
        passages := passages + [FooterItem(NoMoreText)];
      }
      chapters := ChapterList(passages);
    }

    // -------------------------------------------------------------------------
    // A finished load of the reading web view

    /** The fields a finished load may change, as one value. */
    ghost function View(): LoadView
      reads this`htmlList, this`chapterList, this`initPage, this`isError, this`currentPercentage,
            this`isTransitioning, this`showLoadingScrim, this`initialized, this`latestPage, this`isPreloading,
            this`nextHtmlList, this`nextChapterList, this`memorySaves, this`diskSaves
    {
      LoadView(htmlList, chapterList, initPage, isError, currentPercentage, isTransitioning,
               showLoadingScrim, initialized, latestPage, isPreloading, nextHtmlList, nextChapterList,
               memorySaves, diskSaves)
    }

    /** The thread page a load result belongs to. */
    function LoadedPageNum(isFromCache: bool, loadedUrl: Option<string>): Option<int>
      reads this`currentView
    {
      if isFromCache then Some(currentView) else ExtractPageNum(loadedUrl)
    }

    /** A preloaded next page: keep it for later and change the last passage to the web footer. */
    method TakePreload(html: string, maxPage: int, passages: seq<Content>, chapters: seq<ChapterInfo>)
      modifies this`isPreloading, this`memorySaves, this`diskSaves, this`nextHtmlList, this`nextChapterList, this`htmlList
      ensures !isPreloading && nextHtmlList == Some(passages) && nextChapterList == Some(chapters)
      ensures var data := CacheData(viewBeingPreloaded, html, maxPage, currentAuthorId);
        memorySaves == old(memorySaves) + [data] &&
        diskSaves == old(diskSaves) + (if viewBeingPreloaded in cachedPages then [DiskSave(viewBeingPreloaded, data, false)] else [])
      ensures htmlList == WithWebFooter(old(htmlList))
    {
      isPreloading := false;
      var pageNumToCache := viewBeingPreloaded;
      var dataToCache := CacheData(pageNumToCache, html, maxPage, currentAuthorId);
      memorySaves := memorySaves + [dataToCache];
      if pageNumToCache in cachedPages {
        diskSaves := diskSaves + [DiskSave(pageNumToCache, dataToCache, false)];
      }
      nextHtmlList := Some(passages);
      nextChapterList := Some(chapters);
      if htmlList != [] {
        htmlList := htmlList[..|htmlList| - 1] + [Content(WebNextText, Text, Some(FooterTitle))];
      }
    }

    /** The memory-cache write of a normal web load, and its disk write when the page is cached on disk. */
    method SaveShownPage(html: string, maxPage: int, isFromCache: bool)
      modifies this`memorySaves, this`diskSaves
      ensures var data := CacheData(currentView, html, maxPage, currentAuthorId);
        memorySaves == old(memorySaves) + (if isFromCache then [] else [data]) &&
        diskSaves == old(diskSaves) + (if !isFromCache && currentView in cachedPages then [DiskSave(currentView, data, false)] else [])
    {
      if !isFromCache {
        var pageNumToCache := currentView;
        var dataToCache := CacheData(pageNumToCache, html, maxPage, currentAuthorId);
        memorySaves := memorySaves + [dataToCache];
        if pageNumToCache in cachedPages {
          diskSaves := diskSaves + [DiskSave(pageNumToCache, dataToCache, false)];
        }
      }
    }

    /** A normal load: show the passages on the clamped start page. */
    method ShowLoaded(html: string, maxPage: int, isFromCache: bool, cacheTargetIndex: int,
                      passages: seq<Content>, chapters: seq<ChapterInfo>)
      modifies this`memorySaves, this`diskSaves, this`htmlList, this`chapterList, this`initPage,
               this`currentPercentage, this`maxWebView, this`isError, this`initialized, this`latestPage,
               this`showLoadingScrim, this`isTransitioning
      ensures htmlList == passages && chapterList == chapters && maxWebView == maxPage && !isError
      ensures initPage == SafeInitPage(isFromCache, cacheTargetIndex, old(initialized), old(initPage), |passages|)
      ensures currentPercentage == Percent(initPage, |passages|)
      ensures initialized && latestPage == initPage && !isTransitioning
      ensures showLoadingScrim == (isFromCache && old(showLoadingScrim))
      ensures var data := CacheData(currentView, html, maxPage, currentAuthorId);
        memorySaves == old(memorySaves) + (if isFromCache then [] else [data]) &&
        diskSaves == old(diskSaves) + (if !isFromCache && currentView in cachedPages then [DiskSave(currentView, data, false)] else [])
    {
      SaveShownPage(html, maxPage, isFromCache);
      ShowPassages(isFromCache, cacheTargetIndex, passages, chapters);
      maxWebView := maxPage;
    }

    /** The state update of a normal load. */
    method ShowPassages(isFromCache: bool, cacheTargetIndex: int, passages: seq<Content>, chapters: seq<ChapterInfo>)
      modifies this`htmlList, this`chapterList, this`initPage, this`currentPercentage, this`isError,
               this`initialized, this`latestPage, this`showLoadingScrim, this`isTransitioning
      ensures htmlList == passages && chapterList == chapters && !isError
      ensures initPage == SafeInitPage(isFromCache, cacheTargetIndex, old(initialized), old(initPage), |passages|)
      ensures currentPercentage == Percent(initPage, |passages|)
      ensures initialized && latestPage == initPage && !isTransitioning
      ensures showLoadingScrim == (isFromCache && old(showLoadingScrim))
    {
      var safeInitPage := SafeInitPage(isFromCache, cacheTargetIndex, initialized, initPage, |passages|);
      var newPercent := Percent(safeInitPage, |passages|);
      htmlList := passages;
      chapterList := chapters;
      initPage := safeInitPage;
      currentPercentage := newPercent;
      isError := false;
      if !initialized {
        initialized := true;
      }
      latestPage := safeInitPage;
      if !isFromCache {
        showLoadingScrim := false;
      }
      isTransitioning := false;
    }

    /**
     * `loadFinished(success, html, loadedUrl, maxPage, isFromCache,
     * cacheTargetIndex)`. `parsed` is what `parseHtmlToContent(html)` puts in
     * `rawContentList`.
     */
    method LoadFinished(success: bool, html: string, loadedUrl: Option<string>, maxPage: int, isFromCache: bool,
                        cacheTargetIndex: int, parsed: seq<Content>, layout: PageLayout, verticalLines: seq<Content>)
      modifies this`htmlList, this`isError, this`maxWebView, this`showLoadingScrim, this`isTransitioning,
               this`currentAuthorId, this`rawContentList, this`isPreloading, this`memorySaves, this`diskSaves,
               this`nextHtmlList, this`nextChapterList, this`chapterList, this`initPage, this`currentPercentage,
               this`initialized, this`latestPage
      // a failed load shows the error page and changes nothing else
      ensures !success ==>
        isError && htmlList == [] && maxWebView == maxPage && !showLoadingScrim && !isTransitioning &&
        chapterList == old(chapterList) && initPage == old(initPage) && currentPercentage == old(currentPercentage) &&
        initialized == old(initialized) && latestPage == old(latestPage) && isPreloading == old(isPreloading) &&
        KeepsNext(old(View()), View()) && memorySaves == old(memorySaves) && diskSaves == old(diskSaves) &&
        rawContentList == old(rawContentList) && currentAuthorId == old(currentAuthorId)
      // otherwise the result is parsed and laid out
      ensures success ==>
        rawContentList == parsed &&
        currentAuthorId == (if isFromCache then old(currentAuthorId) else StoreAuthorId(loadedUrl, old(currentAuthorId)))
      // (compared with `true` so that the outcome is proved as one formula, not case by case)
      ensures success ==> LoadOutcome(old(View()), View(), maxWebView, viewBeingPreloaded, currentView, currentAuthorId, cachedPages,
                                      LoadedPageNum(isFromCache, loadedUrl), isFromCache, cacheTargetIndex,
                                      if isFromCache then old(maxWebView) else maxPage, html, maxPage,
                                      Paginate(Body(old(isVerticalMode), parsed, layout, verticalLines),
                                               Footer(old(isTransitioning), isFromCache, old(nextHtmlList).Some?, old(currentView),
                                                      if isFromCache then old(maxWebView) else maxPage))) == true
    {
      if !success {
        isError := true;
        htmlList := [];
        maxWebView := maxPage;
        showLoadingScrim := false;
        isTransitioning := false;
        return;
      }
      ghost var laidOut := LoadSucceeded(html, loadedUrl, maxPage, isFromCache, cacheTargetIndex, parsed, layout, verticalLines);
    }

    /** `loadFinished` past the failure check: parse and lay out the result, then dispatch it. */
    method LoadSucceeded(html: string, loadedUrl: Option<string>, maxPage: int, isFromCache: bool,
                         cacheTargetIndex: int, parsed: seq<Content>, layout: PageLayout, verticalLines: seq<Content>)
      returns (ghost laidOut: (seq<Content>, seq<ChapterInfo>))
      modifies this`htmlList, this`isError, this`maxWebView, this`showLoadingScrim, this`isTransitioning,
               this`currentAuthorId, this`rawContentList, this`isPreloading, this`memorySaves, this`diskSaves,
               this`nextHtmlList, this`nextChapterList, this`chapterList, this`initPage, this`currentPercentage,
               this`initialized, this`latestPage
      ensures rawContentList == parsed
      ensures currentAuthorId == (if isFromCache then old(currentAuthorId) else StoreAuthorId(loadedUrl, old(currentAuthorId)))
      ensures laidOut == Paginate(Body(old(isVerticalMode), parsed, layout, verticalLines),
                                  Footer(old(isTransitioning), isFromCache, old(nextHtmlList).Some?, old(currentView),
                                         if isFromCache then old(maxWebView) else maxPage))
      // (compared with `true` so that the outcome is proved as one formula, not case by case)
      ensures LoadOutcome(old(View()), View(), maxWebView, viewBeingPreloaded, currentView, currentAuthorId, cachedPages,
                          old(LoadedPageNum(isFromCache, loadedUrl)), isFromCache, cacheTargetIndex,
                          if isFromCache then old(maxWebView) else maxPage, html, maxPage, laidOut) == true
    {
      var loadedPageNum := LoadedPageNum(isFromCache, loadedUrl);
      if !isFromCache {
        currentAuthorId := StoreAuthorId(loadedUrl, currentAuthorId);
        maxWebView := maxPage;
      }
      rawContentList := parsed;
      var passages, chapters := PaginateContent(isFromCache, layout, verticalLines);
      laidOut := (passages, chapters);
      Dispatch(loadedPageNum, html, maxPage, isFromCache, cacheTargetIndex, passages, chapters,
               old(View()), if isFromCache then old(maxWebView) else maxPage, laidOut);
    }

    /** The passages of a successful load: kept as the preload, dropped as stale, or shown. */
    method Dispatch(loadedPageNum: Option<int>, html: string, maxPage: int, isFromCache: bool, cacheTargetIndex: int,
                    passages: seq<Content>, chapters: seq<ChapterInfo>,
                    ghost before: LoadView, ghost footerMaxWebView: int, ghost laidOut: (seq<Content>, seq<ChapterInfo>))
      requires before == View() && footerMaxWebView == maxWebView && laidOut == (passages, chapters)
      modifies this`htmlList, this`isError, this`maxWebView, this`showLoadingScrim, this`isTransitioning,
               this`isPreloading, this`memorySaves, this`diskSaves, this`nextHtmlList, this`nextChapterList,
               this`chapterList, this`initPage, this`currentPercentage, this`initialized, this`latestPage
      // (compared with `true` so that the outcome is proved as one formula, not case by case)
      ensures LoadOutcome(before, View(), maxWebView, viewBeingPreloaded, currentView, currentAuthorId, cachedPages,
                          loadedPageNum, isFromCache, cacheTargetIndex, footerMaxWebView, html, maxPage, laidOut) == true
    {
      if isPreloading {
        if loadedPageNum != Some(viewBeingPreloaded) {
          if loadedPageNum != Some(currentView) {
            isPreloading := false;
          }
          return;
        }
        TakePreload(html, maxPage, passages, chapters);
      } else {
        if !isFromCache && loadedPageNum.Some? && loadedPageNum != Some(currentView) {
          return;
        }
        ShowLoaded(html, maxPage, isFromCache, cacheTargetIndex, passages, chapters);
      }
    }

    // -------------------------------------------------------------------------
    // Settings

    /** The record `saveCurrentSettings` stores: sizes in pixels, the colour as `#AARRGGBB`. */
    function CurrentSettings(): StoredSettings
      reads this`fontSize, this`lineHeight, this`padding, this`nightMode, this`backgroundColor, this`loadImages,
            this`isVerticalMode
    {
      StoredSettings(fontSize * pxPerSp, lineHeight * pxPerSp, padding, nightMode,
                     if backgroundColor.Some? then Some(ColorString(backgroundColor.value)) else None,
                     loadImages, isVerticalMode)
    }

    /** `saveCurrentSettings`. */
    method SaveCurrentSettings()
      modifies this`savedSettings
      ensures savedSettings == old(savedSettings) + [CurrentSettings()]
    {
      var backgroundColorString := if backgroundColor.Some? then Some(ColorString(backgroundColor.value)) else None;
      var settings := StoredSettings(fontSize * pxPerSp, lineHeight * pxPerSp, padding, nightMode,
                                     backgroundColorString, loadImages, isVerticalMode);
      savedSettings := savedSettings + [settings];
    }

    /**
     * `saveSettings(currentPage)`: store the settings, lay the contents out
     * again and keep the reader's place, in its chapter when the old page
     * had one, else by percentage. The guard on the old page compares it
     * with the page count coerced to at least 1, so with no passages and
     * page 0 the read of the old passage throws inside the coroutine: `ok`
     * is false, and only the saved settings and the loading scrim remain.
     */
    method SaveSettings(currentPage: int, layout: PageLayout, verticalLines: seq<Content>) returns (ok: bool)
      modifies this`savedSettings, this`showLoadingScrim, this`scale, this`offset, this`htmlList, this`chapterList,
               this`initPage, this`currentPercentage, this`isError, this`isTransitioning
      ensures savedSettings == old(savedSettings) + [old(CurrentSettings())]
      ensures ok <==> RemapPageAsWritten(old(htmlList), old(chapterList), currentPage, htmlList, chapterList).Some?
      ensures !ok ==>
        showLoadingScrim && htmlList == old(htmlList) && chapterList == old(chapterList) && initPage == old(initPage) &&
        currentPercentage == old(currentPercentage) && isError == old(isError) && isTransitioning == old(isTransitioning) &&
        scale == old(scale) && offset == old(offset)
      ensures ok ==> (htmlList, chapterList) == Paginate(BodyFor(layout, verticalLines), old(FooterFor(false)))
      ensures ok ==> Some(initPage) == RemapPageAsWritten(old(htmlList), old(chapterList), currentPage, htmlList, chapterList)
      ensures ok ==> initPage == RemapPage(old(htmlList), old(chapterList), currentPage, htmlList, chapterList)
      ensures ok ==> 0 <= initPage < Max1(|htmlList|) && currentPercentage == Percent(initPage, |htmlList|)
      ensures ok && initPage == 0 ==> scale == 1.0 && offset == (0.0, 0.0)
      ensures ok && initPage != 0 ==> scale == old(scale) && offset == old(offset)
      ensures ok ==> !isError && !showLoadingScrim && !isTransitioning
      // the same layout again keeps the page
      ensures old(chapterList) == ChaptersOf(old(htmlList)) && htmlList == old(htmlList) && 0 <= currentPage < |htmlList| ==>
        ok && initPage == currentPage
    {
      SaveCurrentSettings();
      ok := RelayOut(currentPage, layout, verticalLines);
    }

    /** `saveSettings` once the settings are stored: lay the contents out again and show them. */
    method RelayOut(currentPage: int, layout: PageLayout, verticalLines: seq<Content>) returns (ok: bool)
      modifies this`showLoadingScrim, this`scale, this`offset, this`htmlList, this`chapterList,
               this`initPage, this`currentPercentage, this`isError, this`isTransitioning
      ensures ok <==> RemapPageAsWritten(old(htmlList), old(chapterList), currentPage, htmlList, chapterList).Some?
      ensures !ok ==>
        showLoadingScrim && htmlList == old(htmlList) && chapterList == old(chapterList) && initPage == old(initPage) &&
        currentPercentage == old(currentPercentage) && isError == old(isError) && isTransitioning == old(isTransitioning) &&
        scale == old(scale) && offset == old(offset)
      ensures ok ==> (htmlList, chapterList) == Paginate(BodyFor(layout, verticalLines), old(FooterFor(false)))
      ensures ok ==> Some(initPage) == RemapPageAsWritten(old(htmlList), old(chapterList), currentPage, htmlList, chapterList)
      ensures ok ==> initPage == RemapPage(old(htmlList), old(chapterList), currentPage, htmlList, chapterList)
      ensures ok ==> 0 <= initPage < Max1(|htmlList|) && currentPercentage == Percent(initPage, |htmlList|)
      ensures ok && initPage == 0 ==> scale == 1.0 && offset == (0.0, 0.0)
      ensures ok && initPage != 0 ==> scale == old(scale) && offset == old(offset)
      ensures ok ==> !isError && !showLoadingScrim && !isTransitioning
      ensures old(chapterList) == ChaptersOf(old(htmlList)) && htmlList == old(htmlList) && 0 <= currentPage < |htmlList| ==>
        ok && initPage == currentPage
    {
      showLoadingScrim := true;
      var oldPageCount := Max1(|htmlList|);
      if 0 <= currentPage < oldPageCount && currentPage >= |htmlList| {
        // `htmlList[currentPage]` throws: the rest of the coroutine does not run
        ok := false;
        return;
      }
      ok := true;
      var newPages, newChapters := PaginateContent(false, layout, verticalLines);
      ShowRemapped(currentPage, newPages, newChapters);
    }

    /**
     * The second half of `saveSettings`: show the new passages at the
     * remapped page. It runs only when reading the old passage did not throw.
     */
    method ShowRemapped(currentPage: int, newPages: seq<Content>, newChapters: seq<ChapterInfo>)
      requires htmlList != [] || currentPage != 0
      modifies this`showLoadingScrim, this`scale, this`offset, this`htmlList, this`chapterList,
               this`initPage, this`currentPercentage, this`isError, this`isTransitioning
      ensures htmlList == newPages && chapterList == newChapters
      ensures Some(initPage) == RemapPageAsWritten(old(htmlList), old(chapterList), currentPage, newPages, newChapters)
      ensures initPage == RemapPage(old(htmlList), old(chapterList), currentPage, newPages, newChapters)
      ensures 0 <= initPage < Max1(|htmlList|) && currentPercentage == Percent(initPage, |htmlList|)
      ensures initPage == 0 ==> scale == 1.0 && offset == (0.0, 0.0)
      ensures initPage != 0 ==> scale == old(scale) && offset == old(offset)
      ensures !isError && !showLoadingScrim && !isTransitioning
      ensures (old(chapterList) == ChaptersOf(old(htmlList)) && newPages == old(htmlList) &&
               newChapters == ChaptersOf(newPages) && 0 <= currentPage < |newPages|) ==>
        initPage == currentPage
    {
      var pageToScrollTo := RemapPageAsWritten(htmlList, chapterList, currentPage, newPages, newChapters).value;
      RemapAgrees(htmlList, chapterList, currentPage, newPages, newChapters);
      if chapterList == ChaptersOf(htmlList) && newPages == htmlList && newChapters == ChaptersOf(newPages) && 0 <= currentPage < |htmlList| {
        RemapSameLayout(htmlList, currentPage);
      }
      var newPercent := Percent(pageToScrollTo, |newPages|);
      if pageToScrollTo == 0 {
        scale := 1.0;
        offset := (0.0, 0.0);
      }
      htmlList := newPages;
      chapterList := newChapters;
      initPage := pageToScrollTo;
      currentPercentage := newPercent;
      isError := false;
      showLoadingScrim := false;
      isTransitioning := false;
    }

    /**
     * `setReadingMode(isVertical, currentPage)`: a no-op for the current
     * mode, else switch, move to the page and save; `ok` is the outcome of
     * `saveSettings`.
     */
    method SetReadingMode(isVertical: bool, currentPage: int, layout: PageLayout, verticalLines: seq<Content>)
      returns (ok: bool)
      modifies this`isVerticalMode, this`savedSettings, this`showLoadingScrim, this`scale, this`offset, this`htmlList,
               this`chapterList, this`initPage, this`currentPercentage, this`isError, this`isTransitioning
      ensures isVertical == old(isVerticalMode) ==>
        ok && isVerticalMode == old(isVerticalMode) && savedSettings == old(savedSettings) &&
        showLoadingScrim == old(showLoadingScrim) && htmlList == old(htmlList) && chapterList == old(chapterList) &&
        initPage == old(initPage) && currentPercentage == old(currentPercentage) && scale == old(scale) &&
        offset == old(offset) && isError == old(isError) && isTransitioning == old(isTransitioning)
      ensures isVertical != old(isVerticalMode) ==>
        isVerticalMode == isVertical &&
        savedSettings == old(savedSettings) + [old(CurrentSettings()).(isVerticalMode := isVertical)] &&
        (ok <==> RemapPageAsWritten(old(htmlList), old(chapterList), currentPage, htmlList, chapterList).Some?)
      // the throw inside `saveSettings`: only the mode, the saved settings, the page and the scrim changed
      ensures isVertical != old(isVerticalMode) && !ok ==>
        showLoadingScrim && initPage == currentPage && htmlList == old(htmlList) && chapterList == old(chapterList) &&
        currentPercentage == old(currentPercentage) && scale == old(scale) && offset == old(offset) &&
        isError == old(isError) && isTransitioning == old(isTransitioning)
      ensures isVertical != old(isVerticalMode) && ok ==>
        (htmlList, chapterList) == Paginate(Body(isVertical, rawContentList, layout, verticalLines), old(FooterFor(false))) &&
        Some(initPage) == RemapPageAsWritten(old(htmlList), old(chapterList), currentPage, htmlList, chapterList) &&
        initPage == RemapPage(old(htmlList), old(chapterList), currentPage, htmlList, chapterList) &&
        0 <= initPage < Max1(|htmlList|) && currentPercentage == Percent(initPage, |htmlList|) &&
        !isError && !showLoadingScrim && !isTransitioning
      // the zoom is reset when the new page is the first one
      ensures isVertical != old(isVerticalMode) && ok && initPage == 0 ==> scale == 1.0 && offset == (0.0, 0.0)
      ensures isVertical != old(isVerticalMode) && ok && initPage != 0 ==> scale == old(scale) && offset == old(offset)
    {
      if isVertical == isVerticalMode {
        return true;
      }
      isVerticalMode := isVertical;
      initPage := currentPage;
      assert CurrentSettings() == old(CurrentSettings()).(isVerticalMode := isVertical);
      ok := SaveSettings(currentPage, layout, verticalLines);
    }

    /** `onSetFontSize`: raise the line height to one and a half times the font size when it is below that. */
    method OnSetFontSize(newFontSize: real)
      modifies this`fontSize, this`lineHeight
      ensures fontSize == newFontSize && lineHeight >= 1.5 * fontSize
      ensures old(lineHeight) >= 1.5 * newFontSize ==> lineHeight == old(lineHeight)
      ensures old(lineHeight) < 1.5 * newFontSize ==> lineHeight == 1.5 * newFontSize
    {
      var newMinLineHeight := newFontSize * 1.5;
      var currentLineHeight := lineHeight;
      if currentLineHeight < newMinLineHeight {
        fontSize := newFontSize;
        lineHeight := newMinLineHeight;
      } else {
        fontSize := newFontSize;
      }
    }

    /**
     * `onSetLineHeight`: clamp into [1.5 * fontSize, 100]. `coerceIn` throws
     * when that range is empty; `ok` is false then and nothing changes.
     */
    method OnSetLineHeight(newLineHeight: real) returns (ok: bool)
      modifies this`lineHeight
      ensures ok <==> 1.5 * fontSize <= 100.0
      ensures !ok ==> lineHeight == old(lineHeight)
      ensures ok ==> 1.5 * fontSize <= lineHeight <= 100.0
      ensures ok && 1.5 * fontSize <= newLineHeight <= 100.0 ==> lineHeight == newLineHeight
      ensures ok && newLineHeight < 1.5 * fontSize ==> lineHeight == 1.5 * fontSize
      ensures ok && newLineHeight > 100.0 ==> lineHeight == 100.0
    {
      var currentFontSizeValue := fontSize;
      var newMinLineHeightValue := currentFontSizeValue * 1.5;
      if newMinLineHeightValue > 100.0 {
        return false;
      }
      var coercedLineHeightValue := if newLineHeight < newMinLineHeightValue then newMinLineHeightValue
                                    else if newLineHeight > 100.0 then 100.0 else newLineHeight;
      lineHeight := coercedLineHeightValue;
      ok := true;
    }

    /** `onSetBackgroundColor`: a chosen colour turns night mode off. */
    method OnSetBackgroundColor(color: Option<int>)
      modifies this`backgroundColor, this`nightMode
      ensures backgroundColor == color && !nightMode
    {
      backgroundColor := color;
      nightMode := false;
    }
  }
}
