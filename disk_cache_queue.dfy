/**
 * The reader's background disk caching (ui/vm/ReaderVM.kt:74-111, 158-465):
 * a queue of thread pages, worked through in insertion order by a hidden web
 * view. A page whose html is in the memory cache is written to disk at once;
 * otherwise its url is loaded, and the load result is validated, written, or
 * retried after a delay, up to `MAX_CACHE_RETRIES` times.
 *
 * The state of one view model's caching is the value `CacheSession`; each
 * operation is a function from the old session to the new one. Writes to the
 * disk cache, to the memory cache and loads issued to the web view are
 * recorded in logs.
 */
module DiskCacheQueue {
  import opened Base
  import opened Beans
  import opened ReaderLogic

  /** `MAX_CACHE_RETRIES`: failures allowed before a page is given up (3 attempts in all). */
  const MAX_CACHE_RETRIES: int := 2

  /** `ReaderVM.CacheProgress`. */
  datatype CacheProgress = CacheProgress(totalPages: int, currentPage: int, currentPageNum: int, isComplete: bool)

  /** One call of `localCache.savePage(url, pageNum, data, hasImages)`. */
  datatype DiskSave = DiskSave(pageNum: int, data: CacheData, hasImages: bool)

  /** What the cache loader needs from outside: the base url, the thread url and the memory cache's contents. */
  datatype Env = Env(baseUrl: string, novelUrl: string, memory: map<int, CacheData>)

  datatype CacheSession = CacheSession(
    /** `_isDiskCaching` */
    caching: bool,
    /** `diskCacheQueue`, a `LinkedHashSet`: insertion order, no duplicates */
    queue: seq<int>,
    /** `diskCacheRetries` */
    retries: map<int, int>,
    /** `_cachedPages` */
    cachedPages: set<int>,
    /** `_cacheProgress` */
    progress: Option<CacheProgress>,
    /** `diskCacheTotalPages` */
    total: int,
    /** `diskCacheCurrentPage` */
    current: int,
    /** `currentCacheSessionShowsProgress` */
    showsProgress: bool,
    /** `diskCacheIncludeImages` */
    includeImages: bool,
    /** `currentAuthorId` */
    authorId: Option<string>,
    /** disk-cache writes, oldest first */
    saves: seq<DiskSave>,
    /** memory-cache writes, oldest first */
    memorySaves: seq<CacheData>,
    /** urls loaded into the caching web view, oldest first */
    loads: seq<string>)

  // ---------------------------------------------------------------------------
  // The queue as a linked hash set

  predicate Distinct(q: seq<int>) {
    forall i, j :: 0 <= i < j < |q| ==> q[i] != q[j]
  }

  /** `MutableSet.remove(x)` on an insertion-ordered set. */
  function Remove(q: seq<int>, x: int): (r: seq<int>)
    ensures forall y :: y in r <==> y in q && y != x
    ensures |r| <= |q| && (x in q ==> |r| < |q|)
    ensures Distinct(q) ==> Distinct(r)
    ensures x !in q ==> r == q
    ensures Distinct(q) && x in q ==> |r| == |q| - 1
    decreases |q|
  {
    if q == [] then []
    else
      var rest := Remove(q[1..], x);
      assert forall y :: y in q <==> y == q[0] || y in q[1..];
      if q[0] == x then rest
      else
        assert Distinct(q) ==> q[0] !in q[1..];
        [q[0]] + rest
  }

  /** Removing the first element of a duplicate-free queue drops exactly that element. */
  lemma RemoveFirst(q: seq<int>)
    requires q != [] && Distinct(q)
    ensures Remove(q, q[0]) == q[1..]
  {
    assert q[0] !in q[1..];
  }

  // ---------------------------------------------------------------------------
  // The operations

  /** The end of a session: caching off, and a shown, unfinished progress marked complete at its total. */
  function Finish(s: CacheSession): CacheSession {
    var stopped := s.(caching := false);
    if s.showsProgress && s.progress.Some? && !s.progress.value.isComplete then
      stopped.(progress := Some(s.progress.value.(currentPage := s.progress.value.totalPages, isComplete := true)))
    else stopped
  }

  /** Starting the first queued page: count it, and show it in the progress unless this is a hidden first page. */
  function StartPage(s: CacheSession, showInitial: bool): (r: CacheSession)
    requires s.queue != []
    ensures r.queue == s.queue && r.saves == s.saves && r.loads == s.loads && r.cachedPages == s.cachedPages
    ensures r.caching == s.caching && r.retries == s.retries && r.authorId == s.authorId && r.total == s.total
    ensures r.memorySaves == s.memorySaves && r.showsProgress == s.showsProgress && r.includeImages == s.includeImages
  {
    var current := s.current + 1;
    var showNow := if current == 1 then showInitial else true;
    var progress := if s.showsProgress && showNow then Some(CacheProgress(s.total, current, s.queue[0], false)) else s.progress;
    s.(current := current, progress := progress)
  }

  /** A memory-cache hit for the first queued page: write it to disk, mark it cached, dequeue it. */
  function TakeHit(s: CacheSession, env: Env): (r: CacheSession)
    requires s.queue != [] && s.queue[0] in env.memory
    ensures |r.queue| < |s.queue|
  {
    var pageNum := s.queue[0];
    s.(saves := s.saves + [DiskSave(pageNum, env.memory[pageNum], s.includeImages)],
       cachedPages := s.cachedPages + {pageNum},
       queue := Remove(s.queue, pageNum))
  }

  /** A memory-cache miss: load the first queued page in the caching web view. */
  function RequestFirst(s: CacheSession, env: Env): CacheSession
    requires s.queue != []
  {
    s.(loads := s.loads + [RequestUrl(env.baseUrl, env.novelUrl, s.queue[0], s.authorId)])
  }

  /** `loadNextPageForDiskCache(showInitialProgress)`, memory-cache hits followed at once. */
  function LoadNext(s: CacheSession, showInitial: bool, env: Env): CacheSession
    decreases |s.queue|
  {
    if !s.caching || s.queue == [] then Finish(s)
    else
      var started := StartPage(s, showInitial);
      if started.queue[0] in env.memory then LoadNext(TakeHit(started, env), false, env)
      else RequestFirst(started, env)
  }

  /** `loadNextPageForDiskCache` unfolded once, for a caller that runs it as a loop. */
  lemma LoadNextStep(s: CacheSession, showInitial: bool, env: Env)
    ensures !s.caching || s.queue == [] ==> LoadNext(s, showInitial, env) == Finish(s)
    ensures s.caching && s.queue != [] && s.queue[0] in env.memory ==>
      LoadNext(s, showInitial, env) == LoadNext(TakeHit(StartPage(s, showInitial), env), false, env)
    ensures s.caching && s.queue != [] && s.queue[0] !in env.memory ==>
      LoadNext(s, showInitial, env) == RequestFirst(StartPage(s, showInitial), env)
  {
  }

  /** The first half of `startCaching`: a new session over `pagesToCache`. */
  function Begin(s: CacheSession, pagesToCache: seq<int>, showProgressDialog: bool): CacheSession {
    s.(caching := true, queue := pagesToCache, includeImages := false, total := |pagesToCache|,
       current := 0, retries := map[], showsProgress := showProgressDialog)
  }

  /** `startCaching(pagesToCache, includeImages, showProgressDialog)`; `includeImages` is ignored. */
  function Start(s: CacheSession, pagesToCache: seq<int>, includeImages: bool, showProgressDialog: bool, env: Env): CacheSession {
    if s.caching || pagesToCache == [] then s
    else LoadNext(Begin(s, pagesToCache, showProgressDialog), showProgressDialog, env)
  }

  /** Whether `handleCacheLoadFinished` ignores a result for this page. */
  predicate Ignored(s: CacheSession, pageNum: Option<int>) {
    (pageNum.None? || pageNum.value !in s.queue) &&
    !(s.queue != [] && pageNum == Some(s.queue[0]))
  }

  /** The retry count of a page, `getOrDefault(pageNum, 0)`. */
  function RetriesOf(s: CacheSession, pageNum: int): int {
    if pageNum in s.retries then s.retries[pageNum] else 0
  }

  /** A valid result: clear the retry count, write the page to disk and memory, mark it cached, dequeue it. */
  function Accept(s: CacheSession, p: int, html: string, maxPage: int): CacheSession {
    var data := CacheData(p, html, maxPage, s.authorId);
    s.(retries := s.retries - {p},
       saves := s.saves + [DiskSave(p, data, s.includeImages)],
       memorySaves := s.memorySaves + [data],
       cachedPages := s.cachedPages + {p},
       queue := Remove(s.queue, p))
  }

  /** A failure at the retry bound: forget the page everywhere. */
  function GiveUp(s: CacheSession, p: int): CacheSession {
    s.(retries := s.retries - {p}, cachedPages := s.cachedPages - {p}, queue := Remove(s.queue, p))
  }

  /** The url a retry reloads: the loaded one, or a rebuilt one when it lacks `page=`. */
  function ReloadUrl(s: CacheSession, p: int, loadedUrl: Option<string>, env: Env): string {
    if loadedUrl.None? || !Contains(loadedUrl.value, "page=") then RequestUrl(env.baseUrl, env.novelUrl, p, s.authorId)
    else loadedUrl.value
  }

  /**
   * `handleCacheLoadFinished(success, html, loadedUrl, maxPage)`: the new
   * session, and the url whose reload is scheduled after the retry delay.
   */
  function Handle(s: CacheSession, success: bool, html: string, loadedUrl: Option<string>, maxPage: int, env: Env): (CacheSession, Option<string>) {
    var pageNum := ExtractPageNum(loadedUrl);
    if Ignored(s, pageNum) then (s, None)
    else HandleAt(s.(authorId := StoreAuthorId(loadedUrl, s.authorId)), pageNum.value,
                  success && IsDiskCacheHtmlValid(Some(html)), html, loadedUrl, maxPage, env)
  }

  /** The handler once the page `p` is known to be queued and its author id checked; `ok` is "success and valid html". */
  function HandleAt(s: CacheSession, p: int, ok: bool, html: string, loadedUrl: Option<string>, maxPage: int, env: Env): (CacheSession, Option<string>) {
    if ok then (LoadNext(Accept(s, p, html, maxPage), false, env), None)
    else
      var currentRetries := RetriesOf(s, p);
      if currentRetries < MAX_CACHE_RETRIES then
        (s.(retries := s.retries[p := currentRetries + 1]), Some(ReloadUrl(s, p, loadedUrl, env)))
      else (LoadNext(GiveUp(s, p), false, env), None)
  }

  /** The delayed reload of a failed page: only while caching and while the page is still queued. */
  function RetryDue(s: CacheSession, pageNum: int, urlToReload: string): CacheSession {
    if s.caching && pageNum in s.queue then s.(loads := s.loads + [urlToReload]) else s
  }

  /** `stopCaching`. */
  function Stop(s: CacheSession): CacheSession {
    if !s.caching then s
    else s.(caching := false, queue := [], progress := None, total := 0, current := 0)
  }

  /** `resetCacheProgress`: hide the dialog for the rest of the session. */
  function ResetProgress(s: CacheSession): CacheSession {
    s.(progress := None, showsProgress := false)
  }

  /** `showCacheProgress`: rebuild the dialog while caching with the dialog hidden. */
  function ShowProgress(s: CacheSession): CacheSession {
    if s.caching && s.progress.None? then
      s.(showsProgress := true,
         progress := Some(CacheProgress(s.total, s.current, if s.queue == [] then 0 else s.queue[0], false)))
    else s
  }

  // ---------------------------------------------------------------------------
  // The invariant

  /** A shown progress never runs past its total. */
  predicate ProgressOk(p: Option<CacheProgress>) {
    p.Some? ==> 0 <= p.value.currentPage <= p.value.totalPages
  }

  /**
   * Between events: the queue is duplicate-free and non-empty exactly while
   * caching, the pages started so far are the ones taken off the queue plus
   * the one in flight, every retry count is within the bound, and the
   * progress stays within its total.
   */
  predicate Inv(s: CacheSession) {
    Distinct(s.queue) &&
    (s.caching <==> s.queue != []) &&
    (s.caching ==> 1 <= s.current && s.current == s.total - |s.queue| + 1) &&
    0 <= s.total &&
    (forall p :: p in s.retries ==> 1 <= s.retries[p] <= MAX_CACHE_RETRIES) &&
    ProgressOk(s.progress)
  }

  /** The state just before `loadNextPageForDiskCache`: one page has left the queue, none is in flight. */
  predicate ReadyForNext(s: CacheSession) {
    Distinct(s.queue) &&
    (!s.caching ==> s.queue == []) &&
    (s.caching ==> 0 <= s.current && s.current == s.total - |s.queue|) &&
    0 <= s.total &&
    (forall p :: p in s.retries ==> 1 <= s.retries[p] <= MAX_CACHE_RETRIES) &&
    ProgressOk(s.progress)
  }

  /** The fields `loadNextPageForDiskCache` never touches. */
  ghost predicate SameConfig(s: CacheSession, r: CacheSession) {
    r.retries == s.retries && r.authorId == s.authorId && r.total == s.total &&
    r.memorySaves == s.memorySaves && r.showsProgress == s.showsProgress && r.includeImages == s.includeImages
  }

  lemma {:induction false} LoadNextConfig(s: CacheSession, showInitial: bool, env: Env)
    ensures SameConfig(s, LoadNext(s, showInitial, env))
    decreases |s.queue|
  {
    if s.caching && s.queue != [] {
      var started := StartPage(s, showInitial);
      if started.queue[0] in env.memory {
        LoadNextConfig(TakeHit(started, env), false, env);
      }
    }
  }

  /** The pages taken off the front of the queue were memory-cache hits, each written to disk and marked cached. */
  ghost predicate HitsTaken(s: CacheSession, r: CacheSession, env: Env) {
    |r.queue| <= |s.queue| && r.queue == s.queue[|s.queue| - |r.queue|..] &&
    (forall i :: 0 <= i < |s.queue| - |r.queue| ==> s.queue[i] in env.memory && s.queue[i] in r.cachedPages) &&
    |r.saves| == |s.saves| + (|s.queue| - |r.queue|) && s.saves <= r.saves &&
    s.cachedPages <= r.cachedPages && (forall x :: x in r.cachedPages && x !in s.cachedPages ==> x in s.queue)
  }

  lemma {:induction false} LoadNextHits(s: CacheSession, showInitial: bool, env: Env)
    requires Distinct(s.queue)
    ensures HitsTaken(s, LoadNext(s, showInitial, env), env)
    ensures Distinct(LoadNext(s, showInitial, env).queue)
    decreases |s.queue|
  {
    var r := LoadNext(s, showInitial, env);
    if s.caching && s.queue != [] {
      var started := StartPage(s, showInitial);
      if started.queue[0] in env.memory {
        var next := TakeHit(started, env);
        RemoveFirst(s.queue);
        assert next.queue == s.queue[1..];
        LoadNextHits(next, false, env);
        assert r == LoadNext(next, false, env);
        HitsTakenStep(s, next, r, env);
      } else {
        assert s.queue[|s.queue| - |r.queue|..] == s.queue;
      }
    }
  }

  /** A memory-cache hit taken off the front, followed by the hits taken after it. */
  lemma HitsTakenStep(s: CacheSession, next: CacheSession, r: CacheSession, env: Env)
    requires s.queue != [] && s.queue[0] in env.memory && next.queue == s.queue[1..]
    requires |next.saves| == |s.saves| + 1 && s.saves <= next.saves
    requires next.cachedPages == s.cachedPages + {s.queue[0]}
    requires HitsTaken(next, r, env)
    ensures HitsTaken(s, r, env)
  {
    var q, nq, rq := s.queue, next.queue, r.queue;
    assert rq == nq[|nq| - |rq|..];
    assert q[|q| - |rq|..] == nq[|nq| - |rq|..];
    forall i | 0 <= i < |q| - |rq|
      ensures q[i] in env.memory && q[i] in r.cachedPages
    {
      if i > 0 {
        assert q[i] == nq[i - 1];
      }
    }
    forall x | x in r.cachedPages && x !in s.cachedPages
      ensures x in q
    {
      if x != q[0] {
        assert x in nq;
      }
    }
  }

  /** How `loadNextPageForDiskCache` ends: a load of a page that missed the memory cache, or the end of the session. */
  ghost predicate EndsWell(s: CacheSession, r: CacheSession, env: Env) {
    (r.caching ==> r.queue != [] && r.queue[0] !in env.memory &&
                   r.loads == s.loads + [RequestUrl(env.baseUrl, env.novelUrl, r.queue[0], s.authorId)]) &&
    (!r.caching ==> r.queue == [] && r.loads == s.loads) &&
    (!r.caching && s.showsProgress && s.progress.Some? && !s.progress.value.isComplete ==>
       r.progress.Some? && r.progress.value.isComplete && r.progress.value.currentPage == r.progress.value.totalPages)
  }

  lemma {:induction false} LoadNextEnds(s: CacheSession, showInitial: bool, env: Env)
    requires !s.caching ==> s.queue == []
    ensures EndsWell(s, LoadNext(s, showInitial, env), env)
    decreases |s.queue|
  {
    if s.caching && s.queue != [] {
      var started := StartPage(s, showInitial);
      if started.queue[0] in env.memory {
        var next := TakeHit(started, env);
        LoadNextEnds(next, false, env);
        LoadNextConfig(next, false, env);
        var r := LoadNext(next, false, env);
        if !r.caching && s.showsProgress && s.progress.Some? && !s.progress.value.isComplete {
          assert next.progress.Some? && !next.progress.value.isComplete;
        }
      }
    }
  }

  /** The counters: one more page started for each page taken off the queue, and the progress within its total. */
  lemma {:induction false} LoadNextCounters(s: CacheSession, showInitial: bool, env: Env)
    requires ReadyForNext(s)
    ensures var r := LoadNext(s, showInitial, env);
      (r.caching ==> 1 <= r.current && r.current == r.total - |r.queue| + 1) && ProgressOk(r.progress)
    decreases |s.queue|
  {
    if s.caching && s.queue != [] {
      var started := StartPage(s, showInitial);
      if started.queue[0] in env.memory {
        var next := TakeHit(started, env);
        RemoveFirst(s.queue);
        LoadNextCounters(next, false, env);
      }
    }
  }

  /**
   * `loadNextPageForDiskCache` takes memory-cache hits off the front of the
   * queue, writing each to disk and marking it cached, then either loads the
   * first page that missed or, with nothing left, ends the session and
   * completes a shown progress. It keeps the invariant and touches nothing
   * else.
   */
  lemma LoadNextProps(s: CacheSession, showInitial: bool, env: Env)
    requires ReadyForNext(s)
    ensures var r := LoadNext(s, showInitial, env);
      Inv(r) && HitsTaken(s, r, env) && EndsWell(s, r, env) && SameConfig(s, r)
  {
    LoadNextConfig(s, showInitial, env);
    LoadNextHits(s, showInitial, env);
    LoadNextEnds(s, showInitial, env);
    LoadNextCounters(s, showInitial, env);
  }

  /** A new session starts only when none is running and there is something to cache. */
  lemma StartProps(s: CacheSession, pagesToCache: seq<int>, includeImages: bool, showProgressDialog: bool, env: Env)
    requires Inv(s) && Distinct(pagesToCache)
    ensures var r := Start(s, pagesToCache, includeImages, showProgressDialog, env);
      Inv(r) &&
      (s.caching || pagesToCache == [] ==> r == s) &&
      (!s.caching && pagesToCache != [] ==>
        r.total == |pagesToCache| && r.retries == map[] && !r.includeImages &&
        r.showsProgress == showProgressDialog &&
        r.queue == pagesToCache[|pagesToCache| - |r.queue|..] &&
        (forall i :: 0 <= i < |pagesToCache| - |r.queue| ==> pagesToCache[i] in env.memory && pagesToCache[i] in r.cachedPages) &&
        (r.caching ==> r.queue[0] !in env.memory && |r.loads| == |s.loads| + 1))
  {
    if !s.caching && pagesToCache != [] {
      LoadNextProps(Begin(s, pagesToCache, showProgressDialog), showProgressDialog, env);
    }
  }

  /** `startCaching` keeps the invariant. */
  lemma StartKeepsInv(s: CacheSession, pagesToCache: seq<int>, includeImages: bool, showProgressDialog: bool, env: Env)
    requires Inv(s) && Distinct(pagesToCache)
    ensures Inv(Start(s, pagesToCache, includeImages, showProgressDialog, env))
  {
    StartProps(s, pagesToCache, includeImages, showProgressDialog, env);
  }

  /** A result for no queued page changes nothing and schedules nothing. */
  lemma HandleIgnored(s: CacheSession, success: bool, html: string, loadedUrl: Option<string>, maxPage: int, env: Env)
    requires ExtractPageNum(loadedUrl).None? || ExtractPageNum(loadedUrl).value !in s.queue
    ensures Handle(s, success, html, loadedUrl, maxPage, env) == (s, None)
  {
  }

  /** The handler once past the queue check: the author id is checked, then the page is handled. */
  lemma HandleUnfold(s: CacheSession, p: int, success: bool, html: string, loadedUrl: Option<string>, maxPage: int, env: Env)
    requires ExtractPageNum(loadedUrl) == Some(p) && p in s.queue
    ensures Handle(s, success, html, loadedUrl, maxPage, env) ==
      HandleAt(s.(authorId := StoreAuthorId(loadedUrl, s.authorId)), p, success && IsDiskCacheHtmlValid(Some(html)), html, loadedUrl, maxPage, env)
  {
  }

  lemma HandleAtAccept(s: CacheSession, p: int, html: string, loadedUrl: Option<string>, maxPage: int, env: Env)
    requires Inv(s) && p in s.queue
    ensures var (r, reload) := HandleAt(s, p, true, html, loadedUrl, maxPage, env);
      var data := CacheData(p, html, maxPage, s.authorId);
      Inv(r) && reload.None? &&
      p !in r.retries && p in r.cachedPages && p !in r.queue && |r.queue| < |s.queue| &&
      s.saves + [DiskSave(p, data, s.includeImages)] <= r.saves &&
      r.memorySaves == s.memorySaves + [data]
  {
    var saved := Accept(s, p, html, maxPage);
    assert ReadyForNext(saved);
    LoadNextProps(saved, false, env);
  }

  /**
   * A valid result for a queued page clears its retry count, records it as
   * cached, writes it to disk and to the memory cache, takes it off the queue
   * and moves on to the next page.
   */
  lemma HandleValid(s: CacheSession, p: int, html: string, loadedUrl: Option<string>, maxPage: int, env: Env)
    requires Inv(s)
    requires ExtractPageNum(loadedUrl) == Some(p) && p in s.queue
    requires IsDiskCacheHtmlValid(Some(html))
    ensures var (r, reload) := Handle(s, true, html, loadedUrl, maxPage, env);
      var data := CacheData(p, html, maxPage, StoreAuthorId(loadedUrl, s.authorId));
      Inv(r) && reload.None? &&
      p !in r.retries && p in r.cachedPages && p !in r.queue && |r.queue| < |s.queue| &&
      s.saves + [DiskSave(p, data, s.includeImages)] <= r.saves &&
      r.memorySaves == s.memorySaves + [data]
  {
    HandleUnfold(s, p, true, html, loadedUrl, maxPage, env);
    HandleAtAccept(s.(authorId := StoreAuthorId(loadedUrl, s.authorId)), p, html, loadedUrl, maxPage, env);
  }

  /** The url of a result whose page number was read contains `page=`, so a retry reloads that very url. */
  lemma ExtractedHasPageKey(loadedUrl: Option<string>)
    requires ExtractPageNum(loadedUrl).Some?
    ensures loadedUrl.Some? && Contains(loadedUrl.value, "page=")
  {
  }

  lemma HandleAtRetry(s: CacheSession, p: int, html: string, loadedUrl: Option<string>, maxPage: int, env: Env)
    requires Inv(s) && p in s.queue && RetriesOf(s, p) < MAX_CACHE_RETRIES
    requires loadedUrl.Some? && Contains(loadedUrl.value, "page=")
    ensures var (r, reload) := HandleAt(s, p, false, html, loadedUrl, maxPage, env);
      Inv(r) && reload == loadedUrl &&
      r.retries == s.retries[p := RetriesOf(s, p) + 1] && r.queue == s.queue && r.caching == s.caching &&
      r.cachedPages == s.cachedPages && r.saves == s.saves && r.loads == s.loads
  {
  }

  /**
   * A failed or invalid result for a queued page below the retry bound counts
   * one more failure, keeps the queue and schedules a reload of the same url.
   */
  lemma HandleRetry(s: CacheSession, p: int, success: bool, html: string, loadedUrl: Option<string>, maxPage: int, env: Env)
    requires Inv(s)
    requires ExtractPageNum(loadedUrl) == Some(p) && p in s.queue
    requires !(success && IsDiskCacheHtmlValid(Some(html)))
    requires RetriesOf(s, p) < MAX_CACHE_RETRIES
    ensures var (r, reload) := Handle(s, success, html, loadedUrl, maxPage, env);
      Inv(r) && reload == loadedUrl &&
      r.retries == s.retries[p := RetriesOf(s, p) + 1] && r.queue == s.queue && r.caching == s.caching &&
      r.cachedPages == s.cachedPages && r.saves == s.saves && r.loads == s.loads
  {
    HandleUnfold(s, p, success, html, loadedUrl, maxPage, env);
    ExtractedHasPageKey(loadedUrl);
    var checked := s.(authorId := StoreAuthorId(loadedUrl, s.authorId));
    assert Inv(checked) && checked.retries == s.retries && checked.queue == s.queue;
    assert checked.caching == s.caching && checked.cachedPages == s.cachedPages;
    assert checked.saves == s.saves && checked.loads == s.loads;
    assert RetriesOf(checked, p) == RetriesOf(s, p);
    HandleAtRetry(checked, p, html, loadedUrl, maxPage, env);
    var h := HandleAt(checked, p, false, html, loadedUrl, maxPage, env);
    assert Handle(s, success, html, loadedUrl, maxPage, env) == h;
  }

  lemma HandleAtGiveUp(s: CacheSession, p: int, html: string, loadedUrl: Option<string>, maxPage: int, env: Env)
    requires Inv(s) && p in s.queue && RetriesOf(s, p) >= MAX_CACHE_RETRIES
    ensures var (r, reload) := HandleAt(s, p, false, html, loadedUrl, maxPage, env);
      Inv(r) && reload.None? &&
      p !in r.queue && p !in r.cachedPages && p !in r.retries && |r.queue| < |s.queue| && s.saves <= r.saves
  {
    var dropped := GiveUp(s, p);
    assert ReadyForNext(dropped);
    LoadNextProps(dropped, false, env);
  }

  /**
   * A failure at the retry bound gives the page up: it leaves the queue, the
   * cached set and the retry map, and the next page starts.
   */
  lemma HandleGiveUp(s: CacheSession, p: int, success: bool, html: string, loadedUrl: Option<string>, maxPage: int, env: Env)
    requires Inv(s)
    requires ExtractPageNum(loadedUrl) == Some(p) && p in s.queue
    requires !(success && IsDiskCacheHtmlValid(Some(html)))
    requires RetriesOf(s, p) >= MAX_CACHE_RETRIES
    ensures var (r, reload) := Handle(s, success, html, loadedUrl, maxPage, env);
      Inv(r) && reload.None? &&
      p !in r.queue && p !in r.cachedPages && p !in r.retries && |r.queue| < |s.queue| && s.saves <= r.saves
  {
    HandleUnfold(s, p, success, html, loadedUrl, maxPage, env);
    HandleAtGiveUp(s.(authorId := StoreAuthorId(loadedUrl, s.authorId)), p, html, loadedUrl, maxPage, env);
  }

  /** Every result handler keeps the invariant. */
  lemma HandleKeepsInv(s: CacheSession, success: bool, html: string, loadedUrl: Option<string>, maxPage: int, env: Env)
    requires Inv(s)
    ensures Inv(Handle(s, success, html, loadedUrl, maxPage, env).0)
  {
    var pageNum := ExtractPageNum(loadedUrl);
    if !Ignored(s, pageNum) {
      var p := pageNum.value;
      if success && IsDiskCacheHtmlValid(Some(html)) {
        HandleValid(s, p, html, loadedUrl, maxPage, env);
      } else if RetriesOf(s, p) < MAX_CACHE_RETRIES {
        HandleRetry(s, p, success, html, loadedUrl, maxPage, env);
      } else {
        HandleGiveUp(s, p, success, html, loadedUrl, maxPage, env);
      }
    }
  }

  /**
   * Bounded retries: a page that has not failed yet and fails three times in
   * a row is off the queue after the third failure; after two it is still
   * queued, with a reload scheduled each time.
   */
  lemma ThreeAttempts(s: CacheSession, html: string, loadedUrl: Option<string>, maxPage: int, env: Env)
    requires Inv(s)
    requires ExtractPageNum(loadedUrl).Some? && ExtractPageNum(loadedUrl).value in s.queue
    requires ExtractPageNum(loadedUrl).value !in s.retries
    ensures var p := ExtractPageNum(loadedUrl).value;
      var h1 := Handle(s, false, html, loadedUrl, maxPage, env);
      var h2 := Handle(h1.0, false, html, loadedUrl, maxPage, env);
      var h3 := Handle(h2.0, false, html, loadedUrl, maxPage, env);
      h1.1.Some? && h2.1.Some? && p in h2.0.queue && h3.1.None? && p !in h3.0.queue
  {
    var p := ExtractPageNum(loadedUrl).value;
    HandleRetry(s, p, false, html, loadedUrl, maxPage, env);
    var s1 := Handle(s, false, html, loadedUrl, maxPage, env).0;
    assert RetriesOf(s1, p) == 1;
    HandleRetry(s1, p, false, html, loadedUrl, maxPage, env);
    var s2 := Handle(s1, false, html, loadedUrl, maxPage, env).0;
    assert RetriesOf(s2, p) == 2;
    HandleGiveUp(s2, p, false, html, loadedUrl, maxPage, env);
  }

  /** After `stopCaching`, every late load result is ignored. */
  lemma StopThenIgnored(s: CacheSession, success: bool, html: string, loadedUrl: Option<string>, maxPage: int, env: Env)
    requires Inv(s)
    ensures Inv(Stop(s))
    ensures !Stop(s).caching && Stop(s).queue == []
    ensures Handle(Stop(s), success, html, loadedUrl, maxPage, env) == (Stop(s), None)
    ensures !s.caching ==> Stop(s) == s
  {
  }

  /** The delayed reload, `resetCacheProgress` and `showCacheProgress` keep the invariant. */
  lemma SmallStepsKeepInv(s: CacheSession, pageNum: int, urlToReload: string)
    requires Inv(s)
    ensures Inv(RetryDue(s, pageNum, urlToReload)) && Inv(ResetProgress(s)) && Inv(ShowProgress(s))
    ensures ResetProgress(s).progress.None? && !ResetProgress(s).showsProgress
    ensures ShowProgress(s).progress.Some? <==> s.progress.Some? || s.caching
    ensures !s.caching ==> RetryDue(s, pageNum, urlToReload) == s
  {
  }
}
