/**
 * The cache management dialogs (ui/widget/CacheDialog.kt): `CacheDialog`,
 * where the reader picks thread pages `1..maxWebView` to cache, refresh or
 * delete, and `CacheProgressDialog`, which shows how far a caching session
 * has come.
 *
 * `CacheDialog`'s remembered state (`selectedPages`, `includeImages`,
 * `showDeleteConfirm`) is a class; every click handler is a method on it. The
 * callbacks the dialog is given (`onStartCache`, `onDeleteCache`,
 * `onUpdateCache`) are recorded in logs, oldest call first.
 */
module CacheDialogWidget {
  import opened Base
  import DiskCacheQueue

  // ---------------------------------------------------------------------------
  // The selection

  /** `(1..maxWebView).toSet()`: the pages the dialog lists. */
  function AllPages(maxWebView: int): (r: set<int>)
    ensures forall p :: p in r <==> 1 <= p <= maxWebView
    decreases if maxWebView < 0 then 0 else maxWebView
  {
    if maxWebView <= 0 then {} else AllPages(maxWebView - 1) + {maxWebView}
  }

  /** The list has `maxWebView` rows, none when `maxWebView` is not positive. */
  lemma {:induction false} AllPagesSize(maxWebView: int)
    ensures |AllPages(maxWebView)| == if maxWebView < 0 then 0 else maxWebView
    decreases if maxWebView < 0 then 0 else maxWebView
  {
    if maxWebView > 0 {
      AllPagesSize(maxWebView - 1);
    }
  }

  /** The select-all button: a selection of `maxWebView` pages is cleared, any other becomes every listed page. */
  function SelectAll(selected: set<int>, maxWebView: int): set<int> {
    if |selected| == maxWebView then {} else AllPages(maxWebView)
  }

  /** Clicking the row of `pageNum`: a selected page is deselected, an unselected one selected. */
  function ToggleRow(selected: set<int>, pageNum: int): (r: set<int>)
    ensures pageNum in r <==> pageNum !in selected
    ensures forall p :: p != pageNum ==> (p in r <==> p in selected)
  {
    if pageNum in selected then selected - {pageNum} else selected + {pageNum}
  }

  /** The row's checkbox changing to `checked`: the page is in the selection exactly when checked. */
  function CheckRow(selected: set<int>, pageNum: int, checked: bool): (r: set<int>)
    ensures pageNum in r <==> checked
    ensures forall p :: p != pageNum ==> (p in r <==> p in selected)
  {
    if checked then selected + {pageNum} else selected - {pageNum}
  }

  /** Clicking a row twice gives back the selection it started from. */
  lemma ToggleRowTwice(selected: set<int>, pageNum: int)
    ensures ToggleRow(ToggleRow(selected, pageNum), pageNum) == selected
  {
    var once := ToggleRow(selected, pageNum);
    var twice := ToggleRow(once, pageNum);
    forall p ensures p in twice <==> p in selected {
      if p == pageNum {
        assert pageNum in once <==> pageNum !in selected;
      }
    }
  }

  /** The click on a row and the checkbox of that row agree: ticking the box does what the click does. */
  lemma ToggleRowIsCheck(selected: set<int>, pageNum: int)
    ensures ToggleRow(selected, pageNum) == CheckRow(selected, pageNum, pageNum !in selected)
  {
  }

  /** Within the listed pages, a selection of `maxWebView` pages is the whole list. */
  lemma {:induction false} FullSelectionIsAll(selected: set<int>, maxWebView: int)
    requires selected <= AllPages(maxWebView)
    ensures |selected| == maxWebView ==> selected == AllPages(maxWebView)
  {
    if |selected| == maxWebView {
      AllPagesSize(maxWebView);
      var rest := AllPages(maxWebView) - selected;
      assert AllPages(maxWebView) == selected + rest;
      assert |rest| == 0;
      assert rest == {};
    }
  }

  /**
   * Pressed twice, select-all first makes the selection empty or complete and
   * then flips it: a full selection comes back full, any other ends empty.
   */
  lemma SelectAllTwice(selected: set<int>, maxWebView: int)
    requires maxWebView >= 0
    ensures SelectAll(SelectAll(selected, maxWebView), maxWebView) ==
            (if |selected| == maxWebView then AllPages(maxWebView) else {})
  {
    AllPagesSize(maxWebView);
  }

  // ---------------------------------------------------------------------------
  // Cache, delete and update

  /** `pagesToCache`: the selected pages that are not cached yet. */
  function ToCache(selected: set<int>, cached: set<int>): (r: set<int>)
    ensures r <= selected && r !! cached
    ensures r + ToDelete(selected, cached) == selected
  {
    selected - cached
  }

  /** The pages a confirmed delete sends: the selected pages that are cached. */
  function ToDelete(selected: set<int>, cached: set<int>): (r: set<int>)
    ensures r <= selected && r <= cached
    ensures forall p :: p in selected && p in cached ==> p in r
  {
    selected * cached
  }

  /** `selectedPages.any { !cachedPages.contains(it) }`: whether the cache button is enabled. */
  predicate CacheEnabled(selected: set<int>, cached: set<int>) {
    exists p :: p in selected && p !in cached
  }

  /** `selectedPages.any { cachedPages.contains(it) }`: whether delete and update are offered. */
  predicate DeleteOffered(selected: set<int>, cached: set<int>) {
    exists p :: p in selected && p in cached
  }

  /** The cache button is enabled exactly when pressing it sends a request. */
  lemma CacheEnabledIff(selected: set<int>, cached: set<int>)
    ensures CacheEnabled(selected, cached) <==> ToCache(selected, cached) != {}
  {
    if ToCache(selected, cached) != {} {
      var p := Pick(ToCache(selected, cached));
      assert p in selected && p !in cached;
    }
  }

  /** Delete and update are offered exactly when a delete would remove something. */
  lemma DeleteOfferedIff(selected: set<int>, cached: set<int>)
    ensures DeleteOffered(selected, cached) <==> ToDelete(selected, cached) != {}
  {
    if ToDelete(selected, cached) != {} {
      var p := Pick(ToDelete(selected, cached));
      assert p in selected && p in cached;
    }
  }

  /** A non-empty selection always offers something: caching, or delete and update. */
  lemma SomethingOffered(selected: set<int>, cached: set<int>)
    requires selected != {}
    ensures CacheEnabled(selected, cached) || DeleteOffered(selected, cached)
  {
    var p := Pick(selected);
    if p in cached {
      assert p in selected && p in cached;
    } else {
      assert p in selected && p !in cached;
    }
  }

  /** The `CacheDialog` composable's state and handlers. */
  class CacheDialog {
    /** The thread's page count, the number of listed pages. */
    const maxWebView: int
    /** The pages already in the disk cache. */
    const cachedPages: set<int>

    var selectedPages: set<int>
    var includeImages: bool
    var showDeleteConfirm: bool

    /** `onStartCache(pages, includeImages)` calls. */
    var startRequests: seq<(set<int>, bool)>
    /** `onDeleteCache(pages)` calls. */
    var deleteRequests: seq<set<int>>
    /** `onUpdateCache(pages, includeImages)` calls. */
    var updateRequests: seq<(set<int>, bool)>

    /** Only listed pages are ever selected. */
    ghost predicate Valid()
      reads this`selectedPages
    {
      selectedPages <= AllPages(maxWebView)
    }

    /** The first composition: nothing selected, images off, no confirmation shown, no callback made. */
    constructor(maxWebView: int, cachedPages: set<int>)
      ensures this.maxWebView == maxWebView && this.cachedPages == cachedPages
      ensures selectedPages == {} && !includeImages && !showDeleteConfirm
      ensures startRequests == [] && deleteRequests == [] && updateRequests == []
      ensures Valid()
    {
      this.maxWebView := maxWebView;
      this.cachedPages := cachedPages;
      selectedPages := {};
      includeImages := false;
      showDeleteConfirm := false;
      startRequests := [];
      deleteRequests := [];
      updateRequests := [];
    }

    /** The label of the select-all button says "deselect all" exactly when every listed page is selected. */
    predicate ShowsDeselectAll()
      reads this`selectedPages
    {
      |selectedPages| == maxWebView
    }

    lemma DeselectLabelMeansAll()
      requires Valid()
      ensures ShowsDeselectAll() <==> selectedPages == AllPages(maxWebView) && maxWebView >= 0
    {
      FullSelectionIsAll(selectedPages, maxWebView);
      AllPagesSize(maxWebView);
    }

    method OnSelectAll()
      modifies this`selectedPages
      ensures selectedPages == SelectAll(old(selectedPages), maxWebView)
      ensures Valid()
    {
      selectedPages := if |selectedPages| == maxWebView then {} else AllPages(maxWebView);
    }

    /** A click on a listed row. */
    method OnRowClick(pageNum: int)
      requires 1 <= pageNum <= maxWebView
      modifies this`selectedPages
      ensures selectedPages == ToggleRow(old(selectedPages), pageNum)
      ensures old(Valid()) ==> Valid()
    {
      var isSelected := pageNum in selectedPages;
      selectedPages := if isSelected then selectedPages - {pageNum} else selectedPages + {pageNum};
    }

    /** The checkbox of a listed row changes to `checked`. */
    method OnCheckedChange(pageNum: int, checked: bool)
      requires 1 <= pageNum <= maxWebView
      modifies this`selectedPages
      ensures selectedPages == CheckRow(old(selectedPages), pageNum, checked)
      ensures old(Valid()) ==> Valid()
    {
      selectedPages := if checked then selectedPages + {pageNum} else selectedPages - {pageNum};
    }

    /** The cache button: the uncached selected pages are sent, and nothing when there are none. */
    method OnCacheClick()
      modifies this`startRequests
      ensures ToCache(selectedPages, cachedPages) != {} ==>
                startRequests == old(startRequests) + [(ToCache(selectedPages, cachedPages), includeImages)]
      ensures ToCache(selectedPages, cachedPages) == {} ==> startRequests == old(startRequests)
    {
      var pagesToCache := set p | p in selectedPages && p !in cachedPages;
      assert pagesToCache == ToCache(selectedPages, cachedPages);
      if pagesToCache != {} {
        startRequests := startRequests + [(pagesToCache, includeImages)];
      }
    }

    /** The delete button, present only while a selected page is cached, asks for confirmation. */
    method OnDeleteClick()
      requires DeleteOffered(selectedPages, cachedPages)
      modifies this`showDeleteConfirm
      ensures showDeleteConfirm
    {
      showDeleteConfirm := true;
    }

    /** Confirming the delete sends the selected cached pages and closes the confirmation. */
    method OnConfirmDelete()
      requires showDeleteConfirm
      modifies this`deleteRequests, this`showDeleteConfirm
      ensures deleteRequests == old(deleteRequests) + [ToDelete(selectedPages, cachedPages)]
      ensures !showDeleteConfirm
    {
      var pages := set p | p in selectedPages && p in cachedPages;
      assert pages == ToDelete(selectedPages, cachedPages);
      deleteRequests := deleteRequests + [pages];
      showDeleteConfirm := false;
    }

    /** Cancelling or dismissing the confirmation closes it and sends nothing. */
    method OnDismissDelete()
      modifies this`showDeleteConfirm
      ensures !showDeleteConfirm
    {
      showDeleteConfirm := false;
    }

    /** The update button, present only while a selected page is cached, sends the whole selection. */
    method OnUpdateClick()
      requires DeleteOffered(selectedPages, cachedPages)
      modifies this`updateRequests
      ensures updateRequests == old(updateRequests) + [(selectedPages, includeImages)]
    {
      updateRequests := updateRequests + [(selectedPages, includeImages)];
    }
  }

  // ---------------------------------------------------------------------------
  // The progress dialog

  /** The fraction both progress indicators show. */
  function Fraction(currentPage: int, totalPages: int): (r: real)
    ensures totalPages > 0 && 0 <= currentPage <= totalPages ==> 0.0 <= r <= 1.0
    ensures totalPages > 0 && currentPage == totalPages ==> r == 1.0
    ensures totalPages <= 0 ==> r == 0.0
  {
    if totalPages > 0 then currentPage as real / totalPages as real else 0.0
  }

  /** `isComplete` as the progress dialog computes it. */
  predicate IsComplete(currentPage: int, totalPages: int) {
    currentPage >= totalPages
  }

  /** For a progress within its total, the dialog is complete exactly at the total, where both bars are full. */
  lemma CompleteAtTotal(p: DiskCacheQueue.CacheProgress)
    requires DiskCacheQueue.ProgressOk(Some(p))
    ensures IsComplete(p.currentPage, p.totalPages) <==> p.currentPage == p.totalPages
    ensures IsComplete(p.currentPage, p.totalPages) && p.totalPages > 0 ==> Fraction(p.currentPage, p.totalPages) == 1.0
  {
  }

  /** A session that ends with its dialog shown leaves a progress the dialog shows as complete. */
  lemma FinishShowsComplete(s: DiskCacheQueue.CacheSession)
    requires s.showsProgress && s.progress.Some? && !s.progress.value.isComplete
    ensures var r := DiskCacheQueue.Finish(s);
      r.progress.Some? && IsComplete(r.progress.value.currentPage, r.progress.value.totalPages) &&
      ShowsComplete(r.progress.value)
  {
  }

  /**
   * As written, the dialog already reads "complete" while the last queued
   * page is still loading: starting that page counts it, so the progress
   * reaches the total before the page is saved.
   */
  lemma LastPageShownCompleteEarly(s: DiskCacheQueue.CacheSession)
    requires DiskCacheQueue.ReadyForNext(s) && s.caching && |s.queue| == 1 && s.showsProgress
    ensures var r := DiskCacheQueue.StartPage(s, true);
      r.caching && r.queue == s.queue && r.progress.Some? &&
      IsComplete(r.progress.value.currentPage, r.progress.value.totalPages)
  {
  }

  /**
   * The completion test the dialog evidently intends: the session's own
   * `isComplete` flag, which only the end of a session sets.
   */
  predicate ShowsComplete(p: DiskCacheQueue.CacheProgress) {
    p.isComplete
  }

  /** With the intended test, a progress built for a page that is starting never shows as complete. */
  lemma StartedPageNotComplete(s: DiskCacheQueue.CacheSession, showInitial: bool)
    requires s.queue != [] && (s.progress.Some? ==> !ShowsComplete(s.progress.value))
    ensures var r := DiskCacheQueue.StartPage(s, showInitial);
      r.progress.Some? ==> !ShowsComplete(r.progress.value)
  {
  }

  /** With the intended test, a dialog rebuilt while caching is not complete either. */
  lemma ReshownNotComplete(s: DiskCacheQueue.CacheSession)
    requires s.caching && s.progress.None?
    ensures var r := DiskCacheQueue.ShowProgress(s);
      r.progress.Some? && !ShowsComplete(r.progress.value)
  {
  }
}
