/**
 * The favourites screen's view model (ui/vm/FavoriteVM.kt): the full list
 * loaded from the store, the list on screen, the manage mode with its
 * selection, and the per-novel cache statistics.
 *
 * Coroutines are run to completion in order: a store write is followed by the
 * store's update flow only when the caller invokes `OnFavoritesChanged`.
 */
module FavoriteScreen {
  import opened Base
  import opened Beans
  import opened FavoriteUtil
  import LocalCache

  /** `FavoriteVM.CacheInfo`. */
  datatype CacheInfo = CacheInfo(url: string, totalPages: int, totalSize: int, pagesWithImages: int)

  // ---------------------------------------------------------------------------
  // The list on screen

  /** `filter { !it.isHidden }`. */
  function NotHidden(l: seq<Favorite>): (r: seq<Favorite>)
    ensures forall i :: 0 <= i < |r| ==> !r[i].isHidden
  {
    if l == [] then [] else NotHidden(l[..|l| - 1]) + (if l[|l| - 1].isHidden then [] else [l[|l| - 1]])
  }

  /** `filter { it.isHidden }`. */
  function HiddenOf(l: seq<Favorite>): (r: seq<Favorite>)
    ensures forall i :: 0 <= i < |r| ==> r[i].isHidden
  {
    if l == [] then [] else HiddenOf(l[..|l| - 1]) + (if l[|l| - 1].isHidden then [l[|l| - 1]] else [])
  }

  /** The list on screen: everything in manage mode, the non-hidden favourites otherwise. */
  function Visible(all: seq<Favorite>, manage: bool): seq<Favorite> {
    if manage then all else NotHidden(all)
  }

  /** The two filters split a list without losing or adding an item. */
  lemma {:induction false} FilterSplit(l: seq<Favorite>)
    ensures multiset(NotHidden(l)) + multiset(HiddenOf(l)) == multiset(l)
  {
    if l != [] {
      var init, f := l[..|l| - 1], l[|l| - 1];
      FilterSplit(init);
      assert l == init + [f];
    }
  }

  /** A list whose items are exactly the non-hidden ones passes the filter unchanged. */
  lemma {:induction false} NotHiddenKeeps(v: seq<Favorite>, h: seq<Favorite>)
    requires forall i :: 0 <= i < |v| ==> !v[i].isHidden
    requires forall i :: 0 <= i < |h| ==> h[i].isHidden
    ensures NotHidden(v + h) == v
    decreases |v| + |h|
  {
    if h != [] {
      var hi, x := h[..|h| - 1], h[|h| - 1];
      ConcatInit(v, h);
      NotHiddenKeeps(v, hi);
      assert x.isHidden;
      assert NotHidden(v + h) == NotHidden(v + hi) + [];
    } else if v != [] {
      var vi, x := v[..|v| - 1], v[|v| - 1];
      assert v + h == v && vi + [] == vi;
      NotHiddenKeeps(vi, []);
      assert !x.isHidden;
      assert NotHidden(v) == NotHidden(vi) + [x];
      InitLast(v);
    }
  }

  /** `removeAt(from)` followed by `add(to, item)`. */
  function Moved<T>(l: seq<T>, from: nat, to: nat): (r: seq<T>)
    requires from < |l| && to < |l|
  {
    var rest := l[..from] + l[from + 1..];
    rest[..to] + [l[from]] + rest[to..]
  }

  /**
   * A move is a permutation that puts the item formerly at `from` at `to` and
   * keeps the others in their relative order.
   */
  lemma MovedProps<T>(l: seq<T>, from: nat, to: nat)
    requires from < |l| && to < |l|
    ensures var r := Moved(l, from, to);
      |r| == |l| && r[to] == l[from] && multiset(r) == multiset(l) &&
      r[..to] + r[to + 1..] == l[..from] + l[from + 1..]
  {
    var rest := l[..from] + l[from + 1..];
    var r := Moved(l, from, to);
    assert r[..to] == rest[..to];
    assert r[to + 1..] == rest[to..];
    assert rest[..to] + rest[to..] == rest;
    assert l == l[..from] + [l[from]] + l[from + 1..];
    calc {
      multiset(r);
      multiset(rest[..to]) + multiset([l[from]]) + multiset(rest[to..]);
      multiset(rest) + multiset([l[from]]);
      multiset(l[..from]) + multiset(l[from + 1..]) + multiset([l[from]]);
      multiset(l);
    }
  }

  // ---------------------------------------------------------------------------
  // Cache statistics

  /** The entry `refreshCacheInfo` makes for one novel. */
  function InfoOf(url: string, pages: map<int, LocalCache.CachePageInfo>): CacheInfo {
    CacheInfo(url, |pages|, LocalCache.Total(pages, pages.Keys), ImageCount(pages, pages.Keys))
  }

  /** How many of the pages `ks` have images. */
  function ImageCount(pages: map<int, LocalCache.CachePageInfo>, ks: set<int>): nat
    requires ks <= pages.Keys
  {
    |set q | q in ks && pages[q].hasImages|
  }

  /** What `refreshCacheInfo(index)` publishes. */
  function CacheInfoMap(index: LocalCache.Index): map<string, CacheInfo> {
    map u | u in index && index[u].pages != map[] :: InfoOf(u, index[u].pages)
  }

  /**
   * Only novels with cached pages get an entry, and each entry agrees with
   * `getCacheStats` for that novel.
   */
  lemma CacheInfoProps(index: LocalCache.Index, u: string)
    ensures u in CacheInfoMap(index) <==> u in index && index[u].pages != map[]
    ensures u in CacheInfoMap(index) ==>
      var st := LocalCache.Stats(index, u); var info := CacheInfoMap(index)[u];
      info.url == u && info.totalPages == st.totalPages && info.totalSize == st.totalSize &&
      info.pagesWithImages == st.pagesWithImages && info.totalPages > 0
  {
    LocalCache.StatsProps(index, u);
    if u in index && index[u].pages != map[] {
      var pages := index[u].pages;
      var p :| p in pages;
      assert p in pages.Keys;
    }
  }

  /** One round of the per-novel sums. */
  lemma InfoStep(pages: map<int, LocalCache.CachePageInfo>, done: set<int>, p: int)
    requires done <= pages.Keys && p in pages && p !in done
    ensures LocalCache.Total(pages, done + {p}) == LocalCache.Total(pages, done) + pages[p].fileSize
    ensures ImageCount(pages, done + {p}) == ImageCount(pages, done) + (if pages[p].hasImages then 1 else 0)
  {
    LocalCache.TotalRemove(pages, done + {p}, p);
    assert done + {p} - {p} == done;
    ImageCountStep(pages, done, p);
  }

  lemma ImageCountStep(pages: map<int, LocalCache.CachePageInfo>, done: set<int>, p: int)
    requires done <= pages.Keys && p in pages && p !in done
    ensures ImageCount(pages, done + {p}) == ImageCount(pages, done) + (if pages[p].hasImages then 1 else 0)
  {
    var a := set q | q in done + {p} && pages[q].hasImages;
    var b := set q | q in done && pages[q].hasImages;
    assert a == b + (if pages[p].hasImages then {p} else {});
  }

  class FavoriteVM {
    const store: FavoriteStore
    /** `allFavorites`: the full list as last loaded. */
    var allFavorites: seq<Favorite>
    /** The `FavoriteState` fields. */
    var favoriteList: seq<Favorite>
    var isRefreshing: bool
    var isInManageMode: bool
    var selectedItems: set<string>
    var cacheInfoMap: map<string, CacheInfo>

    /** The list on screen follows the full list and the mode. */
    predicate Valid()
      reads this
    {
      favoriteList == Visible(allFavorites, isInManageMode)
    }

    constructor(store: FavoriteStore)
      ensures this.store == store && Valid()
      ensures allFavorites == [] && favoriteList == [] && !isRefreshing && !isInManageMode
      ensures selectedItems == {} && cacheInfoMap == map[]
    {
      this.store := store;
      allFavorites := [];
      favoriteList := [];
      isRefreshing := false;
      isInManageMode := false;
      selectedItems := {};
      cacheInfoMap := map[];
    }

    /** The body of the store flow's `collect`: a new full list and the current cache index. */
    method OnFavoritesChanged(fullList: seq<Favorite>, index: LocalCache.Index)
      modifies this
      ensures allFavorites == fullList && favoriteList == Visible(fullList, isInManageMode) && Valid()
      ensures cacheInfoMap == CacheInfoMap(index)
      ensures isInManageMode == old(isInManageMode) && selectedItems == old(selectedItems)
      ensures isRefreshing == old(isRefreshing)
    {
      allFavorites := fullList;
      favoriteList := if isInManageMode then allFavorites else NotHidden(allFavorites);
      RefreshCacheInfo(index);
    }

    /**
     * `refreshList`: `scraped` is the list read from the favourites page, or
     * none when the request failed or returned no body.
     */
    method RefreshList(showLoading: bool, scraped: Option<seq<Favorite>>)
      modifies this, store
      ensures !isRefreshing
      ensures scraped.Some? ==> store.data == Some(Encode(Merge(scraped.value, old(store.FavoriteMap()))))
      ensures scraped.None? ==> store.data == old(store.data)
      ensures allFavorites == old(allFavorites) && favoriteList == old(favoriteList)
      ensures isInManageMode == old(isInManageMode) && selectedItems == old(selectedItems)
      ensures cacheInfoMap == old(cacheInfoMap)
    {
      ghost var stored := store.FavoriteMap();
      if showLoading {
        isRefreshing := true;
      }
      assert store.FavoriteMap() == stored;
      if scraped.Some? {
        var merged := store.AddFavorite(scraped.value);
      }
      isRefreshing := false;
    }

    /** `moveFavorite`: drag reordering of the list on screen, saved with the hidden items after it. */
    method MoveFavorite(from: int, to: int)
      modifies this, store
      ensures var n := |old(favoriteList)|;
        if old(isInManageMode) || from < 0 || from >= n || to < 0 || to >= n || from == to then
          favoriteList == old(favoriteList) && allFavorites == old(allFavorites) && store.data == old(store.data)
        else
          favoriteList == Moved(old(favoriteList), from, to) &&
          allFavorites == favoriteList + HiddenOf(old(allFavorites)) &&
          store.data == Some(Encode(FromList(allFavorites)))
      ensures isInManageMode == old(isInManageMode) && selectedItems == old(selectedItems)
      ensures isRefreshing == old(isRefreshing) && cacheInfoMap == old(cacheInfoMap)
      ensures old(Valid()) ==> Valid()
    {
      if isInManageMode {
        return;
      }
      var currentUiList := favoriteList;
      if from < 0 || from >= |currentUiList| || to < 0 || to >= |currentUiList| || from == to {
        return;
      }
      ApplyMove(from, to);
      store.SaveFavoriteOrder(allFavorites);
    }

    /** The list updates of `moveFavorite`, before the new order is saved. */
    method ApplyMove(from: nat, to: nat)
      requires !isInManageMode && from < |favoriteList| && to < |favoriteList|
      modifies this`favoriteList, this`allFavorites
      ensures favoriteList == Moved(old(favoriteList), from, to)
      ensures allFavorites == favoriteList + HiddenOf(old(allFavorites))
      ensures isInManageMode == old(isInManageMode) && selectedItems == old(selectedItems)
      ensures isRefreshing == old(isRefreshing) && cacheInfoMap == old(cacheInfoMap)
      ensures old(Valid()) ==> Valid()
    {
      var currentUiList := Moved(favoriteList, from, to);
      var hiddenItems := HiddenOf(allFavorites);
      var newListToSave := currentUiList + hiddenItems;
      if Valid() {
        MoveKeepsVisible(allFavorites, from, to);
      }
      favoriteList := currentUiList;
      allFavorites := newListToSave;
    }

    /** `toggleManageMode`. */
    method ToggleManageMode()
      modifies this
      ensures isInManageMode == !old(isInManageMode)
      ensures favoriteList == Visible(allFavorites, isInManageMode) && Valid()
      ensures selectedItems == {}
      ensures allFavorites == old(allFavorites) && isRefreshing == old(isRefreshing) && cacheInfoMap == old(cacheInfoMap)
    {
      var newState := !isInManageMode;
      var newList := if newState then allFavorites else NotHidden(allFavorites);
      isInManageMode := newState;
      favoriteList := newList;
      selectedItems := {};
    }

    /** `toggleItemSelection`. */
    method ToggleItemSelection(url: string)
      modifies this`selectedItems
      ensures !isInManageMode ==> selectedItems == old(selectedItems)
      ensures isInManageMode ==> selectedItems == if url in old(selectedItems) then old(selectedItems) - {url} else old(selectedItems) + {url}
    {
      if !isInManageMode {
        return;
      }
      var newSelections := selectedItems;
      if url in newSelections {
        newSelections := newSelections - {url};
      } else {
        newSelections := newSelections + {url};
      }
      selectedItems := newSelections;
    }

    /** `hideSelectedItems`. */
    method HideSelectedItems()
      modifies this, store
      ensures old(selectedItems) == {} ==> selectedItems == {} && store.data == old(store.data)
      ensures old(selectedItems) != {} ==>
        selectedItems == {} && HiddenUpdate(old(store.data), old(store.FavoriteMap()), old(selectedItems), true, store.data)
      ensures allFavorites == old(allFavorites) && favoriteList == old(favoriteList)
      ensures isInManageMode == old(isInManageMode) && cacheInfoMap == old(cacheInfoMap)
    {
      SetSelectedHidden(true);
    }

    /** `unhideSelectedItems`. */
    method UnhideSelectedItems()
      modifies this, store
      ensures old(selectedItems) == {} ==> selectedItems == {} && store.data == old(store.data)
      ensures old(selectedItems) != {} ==>
        selectedItems == {} && HiddenUpdate(old(store.data), old(store.FavoriteMap()), old(selectedItems), false, store.data)
      ensures allFavorites == old(allFavorites) && favoriteList == old(favoriteList)
      ensures isInManageMode == old(isInManageMode) && cacheInfoMap == old(cacheInfoMap)
    {
      SetSelectedHidden(false);
    }

    /** The shared body of the two: nothing for an empty selection, else update and clear it. */
    method SetSelectedHidden(hidden: bool)
      modifies this`selectedItems, store
      ensures old(selectedItems) == {} ==> selectedItems == {} && store.data == old(store.data)
      ensures old(selectedItems) != {} ==>
        selectedItems == {} && HiddenUpdate(old(store.data), old(store.FavoriteMap()), old(selectedItems), hidden, store.data)
      ensures allFavorites == old(allFavorites) && favoriteList == old(favoriteList)
      ensures isInManageMode == old(isInManageMode) && cacheInfoMap == old(cacheInfoMap)
    {
      var items := selectedItems;
      if items == {} {
        return;
      }
      ghost var m, d := store.FavoriteMap(), store.data;
      assert m == old(store.FavoriteMap()) && d == old(store.data);
      ghost var all, shown := allFavorites, favoriteList;
      var written, completed := store.UpdateHiddenStatus(items, hidden);
      assert allFavorites == all && favoriteList == shown;
      assert written <==> d.Some? && ChangesHidden(m, items, hidden);
      assert HiddenUpdate(d, m, items, hidden, store.data);
      if completed {
        selectedItems := {};
      }
      assert selectedItems == {} && HiddenUpdate(d, m, items, hidden, store.data);
    }

    /** `refreshCacheInfo(index)`. */
    method RefreshCacheInfo(index: LocalCache.Index)
      modifies this`cacheInfoMap
      ensures cacheInfoMap == CacheInfoMap(index)
    {
      cacheInfoMap := AllInfo(index);
    }

    /** The cache-index collector: a new index refreshes the summary once favourites are loaded. */
    method OnIndexChanged(index: LocalCache.Index)
      modifies this`cacheInfoMap
      ensures allFavorites != [] ==> cacheInfoMap == CacheInfoMap(index)
      ensures allFavorites == [] ==> cacheInfoMap == old(cacheInfoMap)
    {
      if allFavorites != [] {
        RefreshCacheInfo(index);
      }
    }

    /** `getCacheInfo(callback)`: refresh the summary from the index and hand it to the callback. */
    method GetCacheInfo(index: LocalCache.Index) returns (callbackArg: map<string, CacheInfo>)
      modifies this`cacheInfoMap
      ensures cacheInfoMap == CacheInfoMap(index) && callbackArg == cacheInfoMap
    {
      RefreshCacheInfo(index);
      callbackArg := cacheInfoMap;
    }

    /** The loop of `refreshCacheInfo` over the novels in the index. */
    static method AllInfo(index: LocalCache.Index) returns (infoMap: map<string, CacheInfo>)
      ensures infoMap == CacheInfoMap(index)
    {
      infoMap := map[];
      var todo := index.Keys;
      while todo != {}
        invariant todo <= index.Keys
        invariant forall u :: u in infoMap <==> u in index && u !in todo && index[u].pages != map[]
        invariant forall u :: u in infoMap ==> infoMap[u] == InfoOf(u, index[u].pages)
        decreases |todo|
      {
        var url := PickFrom(todo);
        var novelCache := index[url];
        if novelCache.pages != map[] {
          var info := NovelInfo(url, novelCache.pages);
          infoMap := infoMap[url := info];
        }
        todo := todo - {url};
      }
      assert infoMap.Keys == CacheInfoMap(index).Keys;
    }

    /** The counting and summing over one novel's pages. */
    static method NovelInfo(url: string, pages: map<int, LocalCache.CachePageInfo>) returns (info: CacheInfo)
      ensures info == InfoOf(url, pages)
    {
      var totalSize := 0;
      var pagesWithImages := 0;
      var todo := pages.Keys;
      ghost var done: set<int> := {};
      while todo != {}
        invariant todo <= pages.Keys && done <= pages.Keys && done !! todo && done + todo == pages.Keys
        invariant totalSize == LocalCache.Total(pages, done)
        invariant pagesWithImages == ImageCount(pages, done)
        decreases |todo|
      {
        var p := PickFrom(todo);
        InfoStep(pages, done, p);
        totalSize := totalSize + pages[p].fileSize;
        if pages[p].hasImages {
          pagesWithImages := pagesWithImages + 1;
        }
        todo := todo - {p};
        done := done + {p};
      }
      assert done == pages.Keys;
      info := CacheInfo(url, |pages|, totalSize, pagesWithImages);
    }
  }

  /** What a hide or unhide does to the store, as `updateHiddenStatus` promises. */
  ghost predicate HiddenUpdate(before: Option<JsonObject>, m: FavMap, urls: set<string>, hidden: bool, after: Option<JsonObject>) {
    if before.Some? && ChangesHidden(m, urls, hidden) then after == Some(Encode(WithHidden(m, urls, hidden)))
    else after == before
  }

  /**
   * Outside manage mode a move keeps the list on screen equal to the
   * non-hidden favourites, and the saved list is a permutation of the old full
   * list.
   */
  lemma MoveKeepsValid(all: seq<Favorite>, from: nat, to: nat)
    requires from < |NotHidden(all)| && to < |NotHidden(all)|
    ensures var moved := Moved(NotHidden(all), from, to);
      NotHidden(moved + HiddenOf(all)) == moved &&
      multiset(moved + HiddenOf(all)) == multiset(all)
  {
    var v := NotHidden(all);
    MovedProps(v, from, to);
    FilterSplit(all);
    MoveKeepsVisible(all, from, to);
  }

  /** The visible half of `MoveKeepsValid`. */
  lemma MoveKeepsVisible(all: seq<Favorite>, from: nat, to: nat)
    requires from < |NotHidden(all)| && to < |NotHidden(all)|
    ensures NotHidden(Moved(NotHidden(all), from, to) + HiddenOf(all)) == Moved(NotHidden(all), from, to)
  {
    var v := NotHidden(all);
    var moved := Moved(v, from, to);
    MovedProps(v, from, to);
    forall i | 0 <= i < |moved| ensures !moved[i].isHidden {
      assert moved[i] in multiset(v);
      var j :| 0 <= j < |v| && v[j] == moved[i];
    }
    NotHiddenKeeps(moved, HiddenOf(all));
  }
}
