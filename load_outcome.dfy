/**
 * What a successful load of the reading web view does to the view model
 * (`loadFinished` in ui/vm/ReaderVM.kt), stated over snapshots of the fields
 * it may change: the awaited preload is kept for later, a stale result is
 * dropped, and any other result is shown.
 */
module LoadOutcomes {
  import opened Base
  import opened Beans
  import opened ReaderLogic
  import opened DiskCacheQueue

  /**
   * The fields a finished load of the reading web view may change, besides
   * the parsed content, the author id and the page count.
   */
  datatype LoadView = LoadView(htmlList: seq<Content>, chapterList: seq<ChapterInfo>, initPage: int,
                               isError: bool, currentPercentage: real, isTransitioning: bool, showLoadingScrim: bool,
                               initialized: bool, latestPage: int, isPreloading: bool,
                               nextHtmlList: Option<seq<Content>>, nextChapterList: Option<seq<ChapterInfo>>,
                               memorySaves: seq<CacheData>, diskSaves: seq<DiskSave>)

  /** The footer that replaces the last passage while the next thread page is preloaded (ReaderVM.kt:823). */
  const WebNextText: string := "...下一页 (网页)"

  /** The passages while the next page is kept: the last one becomes the web footer. */
  function WithWebFooter(passages: seq<Content>): (r: seq<Content>)
    ensures |r| == |passages|
  {
    if passages == [] then [] else passages[..|passages| - 1] + [Content(WebNextText, Text, Some(FooterTitle))]
  }

  /** The display fields a load can leave alone, other than the page count, equal in `before` and `after`. */
  predicate KeepsDisplay(before: LoadView, after: LoadView) {
    after.htmlList == before.htmlList && after.chapterList == before.chapterList && after.initPage == before.initPage &&
    after.isError == before.isError && after.currentPercentage == before.currentPercentage &&
    after.isTransitioning == before.isTransitioning && after.showLoadingScrim == before.showLoadingScrim &&
    after.initialized == before.initialized && after.latestPage == before.latestPage
  }

  /** The kept next page is the same in `before` and `after`. */
  predicate KeepsNext(before: LoadView, after: LoadView) {
    after.nextHtmlList == before.nextHtmlList && after.nextChapterList == before.nextChapterList
  }

  /**
   * The memory- and disk-cache write logs of `after`: those of `before`,
   * plus `data` in memory when `toMemory` and on disk when also `onDisk`.
   */
  predicate SavesAfter(before: LoadView, after: LoadView, data: CacheData, toMemory: bool, onDisk: bool) {
    after.memorySaves == before.memorySaves + (if toMemory then [data] else []) &&
    after.diskSaves == before.diskSaves + (if toMemory && onDisk then [DiskSave(data.cachedPageNum, data, false)] else [])
  }

  /** The percentage `loadFinished` and `saveSettings` show for a page. */
  function Percent(page: int, passageCount: nat): real {
    page as real / Max1(passageCount) as real * 100.0
  }

  /**
   * What a successful load leads to, given the fields before it (`before`)
   * and the laid-out passages and chapters. Each case names every field
   * that changes; all others keep their `before` value.
   * - The awaited preload is kept for later and saved to the memory cache
   *   (and to disk when the page is cached there); the current list gets
   *   the web footer.
   * - A stale preload only ends preloading unless it is the current page;
   *   a stale result for another thread page changes nothing. Neither saves.
   * - A normal load shows the passages on the clamped start page; a web
   *   load is saved like a preload and lifts the loading scrim.
   * `footerMaxWebView` is the page count the layout saw: the new one for a
   * web load, the old one for a cache load.
   */
  predicate LoadOutcome(before: LoadView, after: LoadView, maxWebView: int, viewBeingPreloaded: int,
                               currentView: int, currentAuthorId: Option<string>, cachedPages: set<int>,
                               pageNum: Option<int>, isFromCache: bool, cacheTargetIndex: int,
                               footerMaxWebView: int, html: string, maxPage: int,
                               laidOut: (seq<Content>, seq<ChapterInfo>))
  {
    (before.isPreloading && pageNum == Some(viewBeingPreloaded) ==>
      PreloadTaken(before, after, CacheData(viewBeingPreloaded, html, maxPage, currentAuthorId),
                   viewBeingPreloaded in cachedPages, laidOut) && maxWebView == footerMaxWebView) &&
    (before.isPreloading && pageNum != Some(viewBeingPreloaded) ==>
      Dropped(before, after, pageNum == Some(currentView)) && maxWebView == footerMaxWebView) &&
    (!before.isPreloading && !isFromCache && pageNum.Some? && pageNum != Some(currentView) ==>
      Dropped(before, after, false) && maxWebView == footerMaxWebView) &&
    (!before.isPreloading && (isFromCache || pageNum.None? || pageNum == Some(currentView)) ==>
      Shown(before, after, SafeInitPage(isFromCache, cacheTargetIndex, before.initialized, before.initPage, |laidOut.0|),
            isFromCache, CacheData(currentView, html, maxPage, currentAuthorId), currentView in cachedPages, laidOut) &&
      maxWebView == maxPage)
  }

  /**
   * The awaited preload: kept as the next page, saved to the memory cache as
   * `data` (and to disk when `onDisk`); the current list gets the web footer.
   */
  predicate PreloadTaken(before: LoadView, after: LoadView, data: CacheData, onDisk: bool,
                                laidOut: (seq<Content>, seq<ChapterInfo>))
  {
    !after.isPreloading && after.nextHtmlList == Some(laidOut.0) && after.nextChapterList == Some(laidOut.1) &&
    after.htmlList == WithWebFooter(before.htmlList) &&
    after.chapterList == before.chapterList && after.initPage == before.initPage && after.isError == before.isError &&
    after.currentPercentage == before.currentPercentage && after.isTransitioning == before.isTransitioning &&
    after.showLoadingScrim == before.showLoadingScrim && after.initialized == before.initialized &&
    after.latestPage == before.latestPage && SavesAfter(before, after, data, true, onDisk)
  }

  /** A stale result: only `isPreloading` may change, to `preloading`; nothing is shown or saved. */
  predicate Dropped(before: LoadView, after: LoadView, preloading: bool) {
    after.isPreloading == preloading && KeepsDisplay(before, after) && KeepsNext(before, after) &&
    after.memorySaves == before.memorySaves && after.diskSaves == before.diskSaves
  }

  /**
   * A normal load shown on `page`, which is in range; a web load (not
   * `isFromCache`) is saved as `data` and lifts the loading scrim.
   */
  predicate Shown(before: LoadView, after: LoadView, page: int, isFromCache: bool, data: CacheData, onDisk: bool,
                         laidOut: (seq<Content>, seq<ChapterInfo>))
  {
    after.htmlList == laidOut.0 && after.chapterList == laidOut.1 && after.initPage == page &&
    0 <= page < Max1(|laidOut.0|) && !after.isError &&
    after.currentPercentage == Percent(page, |laidOut.0|) && !after.isTransitioning &&
    after.showLoadingScrim == (isFromCache && before.showLoadingScrim) && after.initialized &&
    after.latestPage == page && !after.isPreloading && KeepsNext(before, after) &&
    SavesAfter(before, after, data, !isFromCache, onDisk)
  }
}
