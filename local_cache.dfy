/**
 * The disk-cache index of `LocalCacheUtil` (util/LocalCacheUtil.kt).
 *
 * The in-memory index maps a novel url to the pages cached for it. The cache
 * directory is a map from file name to bytes, the index file on disk is the
 * last index written to it, and the JSON codec is a pair of functions passed
 * in by the caller.
 */
module LocalCache {
  import opened Base
  import opened Beans

  type Bytes = seq<bv8>

  datatype CachePageInfo = CachePageInfo(pageNum: int, hasImages: bool, timestamp: int, fileSize: int)

  datatype CacheIndex = CacheIndex(pages: map<int, CachePageInfo>)

  type Index = map<string, CacheIndex>

  datatype CacheStats = CacheStats(totalPages: int, totalSize: int, pagesWithImages: int)

  /** `"cache_" + hex(url.hashCode()) + "_" + pageNum + ".json"`. */
  function CacheFileName(novelUrl: string, pageNum: int): string {
    "cache_" + IntToString(HashCode(novelUrl), 16) + "_" + IntToString(pageNum, 10) + ".json"
  }

  /** Two page numbers of one novel never share a cache file. */
  lemma FileNamePageInjective(url: string, p1: int, p2: int)
    requires IsInt32(p1) && IsInt32(p2)
    requires CacheFileName(url, p1) == CacheFileName(url, p2)
    ensures p1 == p2
  {
    var pre := "cache_" + IntToString(HashCode(url), 16) + "_";
    var a, b := IntToString(p1, 10), IntToString(p2, 10);
    assert CacheFileName(url, p1) == pre + a + ".json";
    assert CacheFileName(url, p2) == pre + b + ".json";
    assert |a| == |b|;
    assert a == CacheFileName(url, p1)[|pre|..|pre| + |a|];
    assert b == CacheFileName(url, p2)[|pre|..|pre| + |b|];
    IntToStringInjective(p1, p2);
  }

  // ---------------------------------------------------------------------------
  // The index as a value

  function PagesOf(idx: Index, url: string): map<int, CachePageInfo> {
    if url in idx then idx[url].pages else map[]
  }

  /** No novel is listed without pages. */
  predicate NoEmptyNovel(idx: Index) {
    forall u :: u in idx ==> idx[u].pages != map[]
  }

  /** Each page info is stored under its own page number. */
  predicate KeyedByPageNum(idx: Index) {
    forall u, p :: u in idx && p in idx[u].pages ==> idx[u].pages[p].pageNum == p
  }

  predicate Valid(idx: Index) {
    NoEmptyNovel(idx) && KeyedByPageNum(idx)
  }

  /** The index after `savePage` records `info` (LocalCacheUtil.kt:186-200). */
  function WithPage(idx: Index, url: string, info: CachePageInfo): Index {
    idx[url := CacheIndex(PagesOf(idx, url)[info.pageNum := info])]
  }

  /** The index after `deletePage` (LocalCacheUtil.kt:251-267). */
  function WithoutPage(idx: Index, url: string, p: int): Index {
    if url !in idx then idx
    else
      var rest := idx[url].pages - {p};
      if rest == map[] then idx - {url} else idx[url := CacheIndex(rest)]
  }

  function IsPageCached(idx: Index, url: string, p: int): bool {
    url in idx && p in idx[url].pages
  }

  lemma SavePageProps(idx: Index, url: string, info: CachePageInfo)
    ensures var r := WithPage(idx, url, info);
      IsPageCached(r, url, info.pageNum) && r[url].pages[info.pageNum] == info &&
      (forall p :: p != info.pageNum ==> IsPageCached(r, url, p) == IsPageCached(idx, url, p)) &&
      (forall p :: p != info.pageNum && IsPageCached(idx, url, p) ==> r[url].pages[p] == idx[url].pages[p]) &&
      (forall u :: u != url ==> (u in r <==> u in idx) && (u in idx ==> r[u] == idx[u]))
    ensures Valid(idx) ==> Valid(WithPage(idx, url, info))
  {
  }

  lemma DeletePageProps(idx: Index, url: string, p: int)
    ensures var r := WithoutPage(idx, url, p);
      !IsPageCached(r, url, p) &&
      (forall q :: q != p ==> IsPageCached(r, url, q) == IsPageCached(idx, url, q)) &&
      (forall q :: q != p && IsPageCached(idx, url, q) ==> r[url].pages[q] == idx[url].pages[q]) &&
      (forall u :: u != url ==> (u in r <==> u in idx) && (u in idx ==> r[u] == idx[u])) &&
      (url !in idx ==> r == idx) &&
      (url in idx && idx[url].pages.Keys <= {p} ==> url !in r)
    ensures Valid(idx) ==> Valid(WithoutPage(idx, url, p))
  {
    var r := WithoutPage(idx, url, p);
    if url in idx && idx[url].pages.Keys <= {p} {
      assert (idx[url].pages - {p}).Keys == {};
    }
    forall q | q != p ensures IsPageCached(r, url, q) == IsPageCached(idx, url, q) {
      if url in idx && q in idx[url].pages {
        assert q in idx[url].pages - {p};
      }
    }
  }

  /** Deleting a page just saved leaves what deleting it would have left before. */
  lemma SaveThenDelete(idx: Index, url: string, info: CachePageInfo)
    requires url in idx ==> idx[url].pages != map[]
    ensures WithoutPage(WithPage(idx, url, info), url, info.pageNum) == WithoutPage(idx, url, info.pageNum)
  {
    var p := info.pageNum;
    var r := WithPage(idx, url, info);
    assert r[url].pages - {p} == PagesOf(idx, url) - {p};
    if url !in idx {
      assert (PagesOf(idx, url) - {p}).Keys == {};
      assert r - {url} == idx;
    } else if idx[url].pages - {p} == map[] {
      assert r - {url} == idx - {url};
    }
  }

  // ---------------------------------------------------------------------------
  // Queries: the cached pages in page order and their statistics

  lemma {:induction false} MinExists(s: set<int>)
    requires s != {}
    ensures exists m :: m in s && forall x :: x in s ==> m <= x
    decreases |s|
  {
    var y := Pick(s);
    if s - {y} != {} {
      MinExists(s - {y});
      var m :| m in s - {y} && forall x :: x in s - {y} ==> m <= x;
      var b := if y < m then y else m;
      forall x | x in s ensures b <= x {
        if x != y { assert x in s - {y}; }
      }
    } else {
      forall x | x in s ensures y <= x { assert x !in s - {y}; }
    }
  }

  function Min(s: set<int>): (m: int)
    requires s != {}
    ensures m in s && forall x :: x in s ==> m <= x
  {
    MinExists(s);
    var m :| m in s && forall x :: x in s ==> m <= x;
    m
  }

  /** The infos stored under the keys `ks`, in ascending key order. */
  function PagesInOrder(pages: map<int, CachePageInfo>, ks: set<int>): (r: seq<CachePageInfo>)
    requires ks <= pages.Keys
    ensures |r| == |ks|
    decreases |ks|
  {
    if ks == {} then [] else var m := Min(ks); [pages[m]] + PagesInOrder(pages, ks - {m})
  }

  /** `getCachedPages`: the novel's page infos sorted by page number (LocalCacheUtil.kt:236-238). */
  function CachedPages(idx: Index, url: string): seq<CachePageInfo> {
    var pages := PagesOf(idx, url);
    PagesInOrder(pages, pages.Keys)
  }

  function SumSizes(ps: seq<CachePageInfo>): int {
    if ps == [] then 0 else ps[0].fileSize + SumSizes(ps[1..])
  }

  function CountImages(ps: seq<CachePageInfo>): (n: nat)
    ensures n <= |ps|
  {
    if ps == [] then 0 else (if ps[0].hasImages then 1 else 0) + CountImages(ps[1..])
  }

  /** `getCacheStats` (LocalCacheUtil.kt:303-313). */
  function Stats(idx: Index, url: string): CacheStats {
    var ps := CachedPages(idx, url);
    CacheStats(|ps|, SumSizes(ps), CountImages(ps))
  }

  predicate SortedByPageNum(ps: seq<CachePageInfo>) {
    forall i, j :: 0 <= i < j < |ps| ==> ps[i].pageNum < ps[j].pageNum
  }

  lemma {:induction false} PagesInOrderMembers(pages: map<int, CachePageInfo>, ks: set<int>)
    requires ks <= pages.Keys
    requires forall p :: p in pages ==> pages[p].pageNum == p
    ensures forall i :: 0 <= i < |PagesInOrder(pages, ks)| ==>
      PagesInOrder(pages, ks)[i].pageNum in ks && PagesInOrder(pages, ks)[i] == pages[PagesInOrder(pages, ks)[i].pageNum]
    decreases |ks|
  {
    if ks != {} {
      var m := Min(ks);
      var rest := PagesInOrder(pages, ks - {m});
      PagesInOrderMembers(pages, ks - {m});
      var r := PagesInOrder(pages, ks);
      assert r == [pages[m]] + rest;
      forall i | 0 <= i < |r| ensures r[i].pageNum in ks && r[i] == pages[r[i].pageNum] {
        if i > 0 {
          assert r[i] == rest[i - 1];
        }
      }
    }
  }

  lemma {:induction false} PagesInOrderSorted(pages: map<int, CachePageInfo>, ks: set<int>)
    requires ks <= pages.Keys
    requires forall p :: p in pages ==> pages[p].pageNum == p
    ensures SortedByPageNum(PagesInOrder(pages, ks))
    decreases |ks|
  {
    if ks != {} {
      var m := Min(ks);
      var rest := PagesInOrder(pages, ks - {m});
      PagesInOrderSorted(pages, ks - {m});
      PagesInOrderMembers(pages, ks - {m});
      var r := PagesInOrder(pages, ks);
      assert r == [pages[m]] + rest;
      forall i, j | 0 <= i < j < |r| ensures r[i].pageNum < r[j].pageNum {
        assert r[j] == rest[j - 1];
        if i > 0 {
          assert r[i] == rest[i - 1];
        } else {
          assert rest[j - 1].pageNum in ks - {m};
        }
      }
    }
  }

  /** Every page stored under a key of `ks` appears in `r`. */
  predicate ListsAll(r: seq<CachePageInfo>, pages: map<int, CachePageInfo>, ks: set<int>)
    requires ks <= pages.Keys
  {
    forall p :: p in ks ==> pages[p] in r
  }

  lemma {:induction false} PagesInOrderCovers(pages: map<int, CachePageInfo>, ks: set<int>)
    requires ks <= pages.Keys
    ensures ListsAll(PagesInOrder(pages, ks), pages, ks)
    decreases |ks|
  {
    if ks != {} {
      var m := Min(ks);
      var rest := PagesInOrder(pages, ks - {m});
      PagesInOrderCovers(pages, ks - {m});
      var r := PagesInOrder(pages, ks);
      assert r == [pages[m]] + rest;
      forall p | p in ks ensures pages[p] in r {
        if p != m {
          assert p in ks - {m};
        }
      }
    }
  }

  /**
   * `isPageCached` holds exactly for the keys of the novel's pages, and
   * `getCachedPages` lists exactly those pages, each once, ascending by page
   * number.
   */
  lemma CachedPagesProps(idx: Index, url: string)
    requires KeyedByPageNum(idx)
    ensures var r := CachedPages(idx, url);
      |r| == |PagesOf(idx, url)| && SortedByPageNum(r) &&
      (forall i :: 0 <= i < |r| ==> IsPageCached(idx, url, r[i].pageNum) && r[i] == idx[url].pages[r[i].pageNum]) &&
      (forall p :: IsPageCached(idx, url, p) ==> idx[url].pages[p] in r)
  {
    PagesInOrderMembers(PagesOf(idx, url), PagesOf(idx, url).Keys);
    PagesInOrderSorted(PagesOf(idx, url), PagesOf(idx, url).Keys);
    PagesInOrderCovers(PagesOf(idx, url), PagesOf(idx, url).Keys);
  }

  /** The total size of the pages stored under `ks`. */
  function Total(pages: map<int, CachePageInfo>, ks: set<int>): int
    requires ks <= pages.Keys
  {
    SumSizes(PagesInOrder(pages, ks))
  }

  lemma {:induction false} TotalRemove(pages: map<int, CachePageInfo>, ks: set<int>, k: int)
    requires ks <= pages.Keys && k in ks
    ensures Total(pages, ks) == pages[k].fileSize + Total(pages, ks - {k})
    decreases |ks|
  {
    var m := Min(ks);
    if k != m {
      TotalRemove(pages, ks - {m}, k);
      var m2 := Min(ks - {k});
      assert m in ks - {k};
      assert m2 <= m && m <= m2;
      assert Min(ks - {k}) == m;
      assert ks - {m} - {k} == ks - {k} - {m};
    }
  }

  lemma {:induction false} TotalSame(p1: map<int, CachePageInfo>, p2: map<int, CachePageInfo>, ks: set<int>)
    requires ks <= p1.Keys && ks <= p2.Keys
    requires forall k :: k in ks ==> p1[k] == p2[k]
    ensures Total(p1, ks) == Total(p2, ks)
    ensures PagesInOrder(p1, ks) == PagesInOrder(p2, ks)
    decreases |ks|
  {
    if ks != {} {
      TotalSame(p1, p2, ks - {Min(ks)});
    }
  }

  lemma {:induction false} CountFilter(pages: map<int, CachePageInfo>, ks: set<int>)
    requires ks <= pages.Keys
    ensures CountImages(PagesInOrder(pages, ks)) == |set p | p in ks && pages[p].hasImages|
    decreases |ks|
  {
    if ks != {} {
      var m := Min(ks);
      CountFilter(pages, ks - {m});
      var all := set p | p in ks && pages[p].hasImages;
      var rest := set p | p in ks - {m} && pages[p].hasImages;
      var r := PagesInOrder(pages, ks);
      assert r[1..] == PagesInOrder(pages, ks - {m});
      if pages[m].hasImages {
        assert all == rest + {m};
      } else {
        assert all == rest;
      }
    }
  }

  /**
   * `totalPages` is the number of cached pages, `pagesWithImages` the number
   * of them with images, and `totalSize` the sum of their sizes.
   */
  lemma StatsProps(idx: Index, url: string)
    ensures var st := Stats(idx, url); var pages := PagesOf(idx, url);
      st.totalPages == |pages.Keys| &&
      st.pagesWithImages == |set p | p in pages && pages[p].hasImages| &&
      st.totalSize == Total(pages, pages.Keys) &&
      0 <= st.pagesWithImages <= st.totalPages
  {
    var pages := PagesOf(idx, url);
    CountFilter(pages, pages.Keys);
  }

  /** Storing `info` changes the total by exactly that page. */
  lemma TotalUpdate(pages: map<int, CachePageInfo>, info: CachePageInfo)
    ensures var p := info.pageNum; var pages' := pages[p := info];
      Total(pages', pages'.Keys) == Total(pages, pages.Keys) - (if p in pages then pages[p].fileSize else 0) + info.fileSize
  {
    var p := info.pageNum;
    var pages' := pages[p := info];
    TotalRemove(pages', pages'.Keys, p);
    assert pages'.Keys - {p} == pages.Keys - {p};
    TotalSame(pages', pages, pages.Keys - {p});
    if p in pages {
      TotalRemove(pages, pages.Keys, p);
    } else {
      assert pages.Keys - {p} == pages.Keys;
    }
  }

  /** Saving one page changes the statistics by exactly that page. */
  lemma StatsAfterSave(idx: Index, url: string, info: CachePageInfo)
    ensures var before := Stats(idx, url); var after := Stats(WithPage(idx, url, info), url);
      var old_ := PagesOf(idx, url); var p := info.pageNum;
      after.totalPages == before.totalPages + (if p in old_ then 0 else 1) &&
      after.totalSize == before.totalSize - (if p in old_ then old_[p].fileSize else 0) + info.fileSize
  {
    var p := info.pageNum;
    var idx' := WithPage(idx, url, info);
    var pages := PagesOf(idx, url);
    var pages' := PagesOf(idx', url);
    assert pages' == pages[p := info];
    var before, after := Stats(idx, url), Stats(idx', url);
    assert before.totalPages == |pages.Keys| && before.totalSize == Total(pages, pages.Keys);
    assert after.totalPages == |pages'.Keys| && after.totalSize == Total(pages', pages'.Keys);
    TotalUpdate(pages, info);
    if p in pages {
      assert pages'.Keys == pages.Keys;
    } else {
      assert pages'.Keys == pages.Keys + {p};
      assert |pages'.Keys| == |pages.Keys| + 1;
    }
  }

  // ---------------------------------------------------------------------------
  // Repairing zero file sizes (LocalCacheUtil.kt:98-142)

  predicate InfoNeedsFix(url: string, p: int, info: CachePageInfo, files: map<string, Bytes>) {
    info.fileSize == 0 && CacheFileName(url, p) in files && |files[CacheFileName(url, p)]| > 0
  }

  function FixInfo(url: string, p: int, info: CachePageInfo, files: map<string, Bytes>): CachePageInfo {
    if InfoNeedsFix(url, p, info, files) then info.(fileSize := |files[CacheFileName(url, p)]|) else info
  }

  function FixedPages(url: string, pages: map<int, CachePageInfo>, files: map<string, Bytes>): map<int, CachePageInfo> {
    map p | p in pages :: FixInfo(url, p, pages[p], files)
  }

  function FixedIndex(idx: Index, files: map<string, Bytes>): Index {
    map u | u in idx :: CacheIndex(FixedPages(u, idx[u].pages, files))
  }

  predicate NovelNeedsFix(url: string, pages: map<int, CachePageInfo>, files: map<string, Bytes>) {
    exists p :: p in pages && InfoNeedsFix(url, p, pages[p], files)
  }

  predicate NeedsFix(idx: Index, files: map<string, Bytes>) {
    exists u :: u in idx && NovelNeedsFix(u, idx[u].pages, files)
  }

  /**
   * The repair touches only pages recorded with size 0 whose file exists and
   * is non-empty, setting their size to the file's length; nothing else
   * changes, the invariants are kept, and a second repair changes nothing.
   */
  lemma FixProps(idx: Index, files: map<string, Bytes>)
    ensures var r := FixedIndex(idx, files);
      r.Keys == idx.Keys &&
      (forall u :: u in idx ==> r[u].pages.Keys == idx[u].pages.Keys) &&
      (forall u, p :: u in idx && p in idx[u].pages ==>
        var before, after := idx[u].pages[p], r[u].pages[p];
        if InfoNeedsFix(u, p, before, files)
        then after == before.(fileSize := |files[CacheFileName(u, p)]|) && after.fileSize > 0
        else after == before)
    ensures !NeedsFix(idx, files) ==> FixedIndex(idx, files) == idx
    ensures Valid(idx) ==> Valid(FixedIndex(idx, files))
    ensures !NeedsFix(FixedIndex(idx, files), files)
  {
    var r := FixedIndex(idx, files);
    if !NeedsFix(idx, files) {
      forall u | u in idx ensures r[u] == idx[u] {
        assert FixedPages(u, idx[u].pages, files) == idx[u].pages;
      }
    }
  }

  class LocalCacheUtil {
    /** The in-memory index (`_index`). */
    var index: Index
    /** The index file on disk: the last index written. */
    var persisted: Index
    /** The cache directory: the page files by name. */
    var files: map<string, Bytes>

    /** A cache over an existing directory and index file; the index is loaded by `Load`. */
    constructor(dir: map<string, Bytes>, stored: Index)
      ensures index == map[] && persisted == stored && files == dir
    {
      index := map[];
      persisted := stored;
      files := dir;
    }

    /**
     * The start-up load: `loaded` is what reading the index file gave (an
     * empty map when it is missing or unreadable), repaired and published.
     */
    method Load(loaded: Index)
      modifies this
      ensures index == FixedIndex(loaded, files)
      ensures persisted == if NeedsFix(loaded, files) then index else old(persisted)
      ensures files == old(files)
    {
      var fixed := FixFileSizesIfNeeded(loaded);
      index := fixed;
    }

    method FixFileSizesIfNeeded(loaded: Index) returns (fixed: Index)
      modifies this`persisted
      ensures fixed == FixedIndex(loaded, files)
      ensures persisted == if NeedsFix(loaded, files) then fixed else old(persisted)
    {
      var needsUpdate := false;
      fixed := loaded;
      var todo := loaded.Keys;
      while todo != {}
        invariant todo <= loaded.Keys && fixed.Keys == loaded.Keys
        invariant forall u :: u in todo ==> fixed[u] == loaded[u]
        invariant forall u :: u in loaded && u !in todo ==> fixed[u] == CacheIndex(FixedPages(u, loaded[u].pages, files))
        invariant needsUpdate <==> exists u :: u in loaded && u !in todo && NovelNeedsFix(u, loaded[u].pages, files)
        invariant persisted == old(persisted)
        decreases |todo|
      {
        var url := PickFrom(todo);
        var fixedPages, pagesChanged := FixNovel(url, loaded[url].pages);
        if pagesChanged {
          fixed := fixed[url := CacheIndex(fixedPages)];
          needsUpdate := true;
        } else {
          assert fixedPages == loaded[url].pages;
        }
        todo := todo - {url};
      }
      assert fixed == FixedIndex(loaded, files);
      assert needsUpdate == NeedsFix(loaded, files) by {
        assert forall u :: u !in todo;
      }
      if needsUpdate {
        persisted := fixed;
      }
    }

    /** The inner loop over one novel's pages. */
    method FixNovel(url: string, pages: map<int, CachePageInfo>) returns (fixedPages: map<int, CachePageInfo>, changed: bool)
      ensures fixedPages == FixedPages(url, pages, files)
      ensures changed <==> NovelNeedsFix(url, pages, files)
      ensures !changed ==> fixedPages == pages
    {
      fixedPages := pages;
      changed := false;
      var todo := pages.Keys;
      while todo != {}
        invariant todo <= pages.Keys && fixedPages.Keys == pages.Keys
        invariant forall p :: p in todo ==> fixedPages[p] == pages[p]
        invariant forall p :: p in pages && p !in todo ==> fixedPages[p] == FixInfo(url, p, pages[p], files)
        invariant changed <==> exists p :: p in pages && p !in todo && InfoNeedsFix(url, p, pages[p], files)
        decreases |todo|
      {
        var p := PickFrom(todo);
        var info := pages[p];
        if info.fileSize == 0 {
          var name := CacheFileName(url, p);
          if name in files {
            var actualSize := |files[name]|;
            if actualSize > 0 {
              fixedPages := fixedPages[p := info.(fileSize := actualSize)];
              changed := true;
            }
          }
        }
        todo := todo - {p};
      }
      assert fixedPages == FixedPages(url, pages, files);
      if !changed {
        assert fixedPages == pages;
      }
    }

    /** Publishes a new index and writes it to the index file. */
    method WriteIndex(newIndex: Index)
      modifies this`index, this`persisted
      ensures index == newIndex && persisted == newIndex
    {
      index := newIndex;
      persisted := newIndex;
    }

    /**
     * `savePage`: `encode` is the JSON encoding as UTF-8 bytes, `now` the
     * clock, `writeOk` whether writing the file succeeded.
     */
    method SavePage(novelUrl: string, pageNum: int, data: CacheData, hasImages: bool,
                    encode: CacheData -> Bytes, now: int, writeOk: bool) returns (ok: bool)
      modifies this
      ensures ok == writeOk
      ensures ok ==> files == old(files)[CacheFileName(novelUrl, pageNum) := encode(data)]
      ensures ok ==> index == WithPage(old(index), novelUrl, CachePageInfo(pageNum, hasImages, now, |encode(data)|))
      ensures ok ==> persisted == index
      ensures !ok ==> files == old(files) && index == old(index) && persisted == old(persisted)
    {
      var fileName := CacheFileName(novelUrl, pageNum);
      var jsonBytes := encode(data);
      var fileSize := |jsonBytes|;
      if !writeOk {
        return false;
      }
      files := files[fileName := jsonBytes];
      var novelPages := PagesOf(index, novelUrl);
      var newPages := novelPages[pageNum := CachePageInfo(pageNum, hasImages, now, fileSize)];
      WriteIndex(index[novelUrl := CacheIndex(newPages)]);
      ok := true;
    }

    /** `loadPage`: the stored page decoded, or none when the file is missing or unreadable. */
    function LoadPage(novelUrl: string, pageNum: int, decode: Bytes -> Option<CacheData>): Option<CacheData>
      reads this
    {
      var name := CacheFileName(novelUrl, pageNum);
      if name in files then decode(files[name]) else None
    }

    method DeletePage(novelUrl: string, pageNum: int) returns (ok: bool)
      modifies this
      ensures ok
      ensures files == old(files) - {CacheFileName(novelUrl, pageNum)}
      ensures index == WithoutPage(old(index), novelUrl, pageNum)
      ensures persisted == if novelUrl in old(index) then index else old(persisted)
    {
      var fileName := CacheFileName(novelUrl, pageNum);
      if fileName in files {
        files := files - {fileName};
      }
      if novelUrl in index {
        var newPages := index[novelUrl].pages - {pageNum};
        if newPages == map[] {
          WriteIndex(index - {novelUrl});
        } else {
          WriteIndex(index[novelUrl := CacheIndex(newPages)]);
        }
      }
      ok := true;
    }

    method DeleteNovel(novelUrl: string) returns (ok: bool)
      modifies this
      ensures ok
      ensures novelUrl !in old(index) ==> index == old(index) && files == old(files) && persisted == old(persisted)
      ensures novelUrl in old(index) ==>
        index == old(index) - {novelUrl} && persisted == index &&
        files == old(files) - NovelFiles(novelUrl, old(index)[novelUrl].pages.Keys)
    {
      if novelUrl !in index {
        return true;
      }
      var keys := index[novelUrl].pages.Keys;
      var todo := keys;
      while todo != {}
        invariant todo <= keys
        invariant index == old(index) && persisted == old(persisted)
        invariant files == old(files) - NovelFiles(novelUrl, keys - todo)
        decreases |todo|
      {
        var p := PickFrom(todo);
        var fileName := CacheFileName(novelUrl, p);
        ghost var gone := NovelFiles(novelUrl, keys - todo);
        RemoveOneMore(old(files), gone, fileName);
        if fileName in files {
          files := files - {fileName};
        }
        NovelFilesAdd(novelUrl, keys - todo, p);
        assert keys - (todo - {p}) == (keys - todo) + {p};
        todo := todo - {p};
      }
      WriteIndex(index - {novelUrl});
      ok := true;
    }

    method ClearAllCache() returns (ok: bool)
      modifies this
      ensures ok && files == map[] && index == map[] && persisted == map[]
    {
      files := map[];
      WriteIndex(map[]);
      ok := true;
    }
  }

  /** The files of a novel's pages `ks`. */
  /** Removing one more name from a map with some names removed. */
  lemma RemoveOneMore(m: map<string, Bytes>, gone: set<string>, x: string)
    ensures (m - gone) - {x} == m - (gone + {x})
    ensures x !in m - gone ==> m - gone == m - (gone + {x})
  {
  }

  function NovelFiles(url: string, ks: set<int>): set<string> {
    set p | p in ks :: CacheFileName(url, p)
  }

  lemma NovelFilesAdd(url: string, ks: set<int>, p: int)
    ensures NovelFiles(url, ks + {p}) == NovelFiles(url, ks) + {CacheFileName(url, p)}
  {
  }

  /**
   * Storing page `p` and then loading it yields the decoded bytes, and leaves
   * every other page of the same novel as it was.
   */
  lemma LoadAfterStore(files: map<string, Bytes>, url: string, p: int, q: int, b: Bytes)
    requires IsInt32(p) && IsInt32(q) && p != q
    ensures var files' := files[CacheFileName(url, p) := b];
      files'[CacheFileName(url, p)] == b &&
      (CacheFileName(url, q) in files' <==> CacheFileName(url, q) in files) &&
      (CacheFileName(url, q) in files ==> files'[CacheFileName(url, q)] == files[CacheFileName(url, q)])
  {
    if CacheFileName(url, p) == CacheFileName(url, q) {
      FileNamePageInjective(url, p, q);
    }
  }

  /** No novel entry is ever left without pages, nor an entry under a foreign key. */
  lemma OperationsKeepValid(idx: Index, url: string, info: CachePageInfo, p: int, files: map<string, Bytes>)
    requires Valid(idx)
    ensures Valid(WithPage(idx, url, info))
    ensures Valid(WithoutPage(idx, url, p))
    ensures Valid(idx - {url})
    ensures Valid(map[])
    ensures Valid(FixedIndex(idx, files))
  {
    SavePageProps(idx, url, info);
    DeletePageProps(idx, url, p);
    FixProps(idx, files);
  }
}
