# YamiboReaderPro reader core, modelled in Dafny

YamiboReaderPro is an Android reader for novels posted on the Yamibo forum.
This project models the core of that reader and proves what it promises.

**Text pagination.**
- The main pagination (`TextUtil.pagingText`) splits a chapter into display lines by glyph width.
  It applies the line-start and line-end punctuation rules, then groups the lines into pages of
  `calculateMaxLines` content lines.
- The older variant kept in the test sources pages by `chunked`. Its word-carry rule can emit an
  empty line.

**HTML normalisation.** `HTMLUtil.toText` turns a post's inner HTML into text with six
replace-all rewrites followed by `trim`.

**The disk cache.**
- `LocalCacheUtil` keeps the on-disk page cache: page files plus a JSON index. The index records
  for each novel which pages are cached, with their size and image flag.
- The index is repaired on load. Pages are saved and deleted with matching index updates.
  Statistics are reported per novel.

**Favourites.**
- `FavoriteUtil` keeps the favourites list as a JSON object in the data store. It merges a freshly
  scraped list into the stored one (new items first, stored order kept, titles refreshed). It
  saves a reordering and flips hidden flags.
- `FavoriteVM` is the favourites screen: the hidden filter, drag-to-reorder, manage mode, selection,
  hide/unhide and the per-novel cache summary.

**The reader view model.**
- `ReaderVM` holds the page-number and author-id extraction from thread URLs, the disk-cache
  validity test, chapter detection and the footer passage.
- It also holds the initial-page clamp and the remapping of the current page when the layout
  changes.
- It runs the background disk-cache queue: memory-cache hits, web loads, three attempts per page,
  progress shown and hidden, stop. Further parts are the load-finished dispatch (preload or
  display), the settings save and the font-size and line-height rules.

**The cache dialog.** `CacheDialog` shows page selection, select-all, the cache, update and delete
buttons, and the progress dialog.

**The web-view client.**
- `PassageWebViewClient` is the protocol that loads a thread page. It clicks "only the author" and
  extracts the content, page count and title by script.
- It reports at most one failure per load and nothing after it. A success that arrives after an error in the same load is suppressed.

**The settings beans.** These are `ReaderSettings` and its test-source variant.

Source files and how each is modelled:

- util/TextUtil.kt: `TextUtil` (text_util.dfy); the width rules and chunking as functions; the three loops (`chunkLine`, `handlePunctuationOptimized`, the page builder) as methods proved against them.
- util/TextUtil.kt (test sources): `TextUtilLegacy` (text_util_legacy.dfy); as above.
- util/HTMLUtil.kt: `HtmlUtil` (html_util.dfy); pure functions; the regex rewrites as scanning functions.
- util/LocalCacheUtil.kt: `LocalCache` (local_cache.dfy); class `LocalCacheUtil` over the file map, the live index and the persisted index.
- util/FavoriteUtil.kt: `FavoriteUtil` (favorite_util.dfy); class `FavoriteStore` over the stored JSON; the linked map as a sequence with unique urls.
- ui/vm/FavoriteVM.kt: `FavoriteScreen` (favorite_vm.dfy); class `FavoriteVM`.
- ui/vm/ReaderVM.kt: `ReaderLogic`, `DiskCacheQueue` (pure rules and the cache-queue state machine), `LoadOutcomes` (load_outcome.dfy: what a finished load does, over snapshots of the fields it may change), `ReaderScreen` (class `ReaderVM`, proved against them); mixed.
- ui/widget/CacheDialog.kt: `CacheDialogWidget` (cache_dialog.dfy); class `CacheDialog` for the dialog state.
- module/PassageWebViewClient.kt: `PassageClient` (passage_client.dfy); class `PassageWebViewClient`; the callbacks as methods, the reports as a log.
- bean/ReaderSettings.java (main and test): `ReaderSettingsBean`, `ReaderSettingsTestBean`; classes with getters and setters.
- bean/*.kt, ui/state/*.kt: `Beans` (beans.dfy); datatypes.

Kotlin string helpers such as `toIntOrNull`, `trim`, `substringAfter`, `split` and `lines` are
modelled once in `Base` (base.dfy). The same module models 32-bit `Int` range and `String.hashCode`
with wrap-around.

## Model

| member | source | states |
|---|---|---|
| TextUtil.CharWidth | app/src/main/java/org/shirakawatyu/yamibo/novel/util/TextUtil.kt:201-203 | a character is measured at the half width exactly when its code is printable ASCII (0x20..0x7E), otherwise at the full width |
| TextUtil.Punctuation | app/src/main/java/org/shirakawatyu/yamibo/novel/util/TextUtil.kt:205-243 | when a punctuation rule fires it emits a non-empty line, and the emitted line followed by the new builder spells the old builder plus the character: nothing is lost or duplicated |
| TextUtil.Step | app/src/main/java/org/shirakawatyu/yamibo/novel/util/TextUtil.kt:166-194 | one character of the chunking loop adds at most one line, keeps the earlier lines, never adds an empty line, and loses no character |
| TextUtil.StepRules | app/src/main/java/org/shirakawatyu/yamibo/novel/util/TextUtil.kt:170-240 | a line break happens only when the next character would overflow the width. Then a line-start punctuation joins the broken line, a line-end punctuation of a longer builder moves down with the character, and otherwise the builder becomes the line |
| TextUtil.StepWidth | app/src/main/java/org/shirakawatyu/yamibo/novel/util/TextUtil.kt:191 | the running width the loop keeps is always the measured width of the current builder |
| TextUtil.RunSpells | app/src/main/java/org/shirakawatyu/yamibo/novel/util/TextUtil.kt:166-194 | after any prefix of the line, the lines so far plus the builder spell the consumed prefix |
| TextUtil.ChunksSpellLine | app/src/main/java/org/shirakawatyu/yamibo/novel/util/TextUtil.kt:150-199 | the display lines of a paragraph concatenate back to the paragraph, none is empty, and a non-empty paragraph gives at least one |
| TextUtil.HandlePunctuationOptimized | app/src/main/java/org/shirakawatyu/yamibo/novel/util/TextUtil.kt:205-243 | the in-place punctuation handler returns the width, builder and line list given by the punctuation rules, and changes nothing when no rule fires |
| TextUtil.ChunkLineOptimized | app/src/main/java/org/shirakawatyu/yamibo/novel/util/TextUtil.kt:150-199 | the loop appends exactly the display lines of the paragraph to the output list |
| TextUtil.ParagraphLinesProps | app/src/main/java/org/shirakawatyu/yamibo/novel/util/TextUtil.kt:84-101 | the display lines never start with a marker and never hold two adjacent markers, and without the markers they spell exactly the non-blank source lines |
| TextUtil.ParagraphEnds | app/src/main/java/org/shirakawatyu/yamibo/novel/util/TextUtil.kt:84-101 | after a blank source line the display lines are empty or end with a marker; after a content line they end with a non-empty piece of that line |
| TextUtil.ParagraphMarkers | app/src/main/java/org/shirakawatyu/yamibo/novel/util/TextUtil.kt:84-101 | the number of markers equals the number of blank source lines that directly follow a content line, so `a\nb` and a trailing paragraph get no marker and a run of blank lines gets one |
| TextUtil.NonBlank | app/src/main/java/org/shirakawatyu/yamibo/novel/util/TextUtil.kt:86 | only paragraphs that are not blank are kept |
| TextUtil.PageEndCount | app/src/main/java/org/shirakawatyu/yamibo/novel/util/TextUtil.kt:114-128 | a page never holds more than the maximum number of content lines, and a page that ends early ends right before a content line that would not fit |
| TextUtil.GroupsProps | app/src/main/java/org/shirakawatyu/yamibo/novel/util/TextUtil.kt:107-145 | the pages split the lines without loss or reordering. Each page is non-empty with at most the maximum of content lines, every page but the last is full, and no later page starts with a blank separator |
| TextUtil.PaginateRoundTrip | app/src/main/java/org/shirakawatyu/yamibo/novel/util/TextUtil.kt:107-145 | one page per group, each page being its lines joined by newlines and non-empty; joining the pages with newlines gives back the joined lines |
| TextUtil.FindPageEnd | app/src/main/java/org/shirakawatyu/yamibo/novel/util/TextUtil.kt:110-128 | the end-of-page scan stops at the first content line after `maxLine` content lines, or at the end, with marker lines always kept on the page |
| TextUtil.BuildPage | app/src/main/java/org/shirakawatyu/yamibo/novel/util/TextUtil.kt:131-136 | the page builder loop produces the lines of the page joined by newlines |
| TextUtil.DisplayLines | app/src/main/java/org/shirakawatyu/yamibo/novel/util/TextUtil.kt:84-101 | the paragraph loop produces the display lines with separators of every non-blank paragraph |
| TextUtil.PerformPaging | app/src/main/java/org/shirakawatyu/yamibo/novel/util/TextUtil.kt:71-148 | the paging loop produces the pages of the display lines of the text |
| TextUtil.TruncToInt | app/src/main/java/org/shirakawatyu/yamibo/novel/util/TextUtil.kt:65 | Float-to-Int conversion stays within 32 bits and truncates every in-range non-negative value |
| TextUtil.FloatQuotientToInt | app/src/main/java/org/shirakawatyu/yamibo/novel/util/TextUtil.kt:65 | the Int of a Float quotient is its floor for a positive divisor. Division by zero saturates to the largest or smallest Int, and 0/0 gives 0 |
| TextUtil.CalculateMaxLines | app/src/main/java/org/shirakawatyu/yamibo/novel/util/TextUtil.kt:59-69 | the line count is at least 1 and at most the largest Int |
| TextUtil.CalculateMaxLinesFits | app/src/main/java/org/shirakawatyu/yamibo/novel/util/TextUtil.kt:59-69 | within the Int range the line count is the number of whole lines that fit in 95% of the height, or 1 |
| TextUtil.PagingText | app/src/main/java/org/shirakawatyu/yamibo/novel/util/TextUtil.kt:25-57 | empty text gives no page; otherwise the pages of the text with the half width 0.5·font+spacing, the full width font+spacing and the computed line count |
| TextUtil.PagingTextProps | app/src/main/java/org/shirakawatyu/yamibo/novel/util/TextUtil.kt:25-148 | for any text, no paragraph text is lost, no page is empty or overfull, and the pages rejoin to the display lines |
| TextUtilLegacy.WidthPx | app/src/test/java/org/shirakawatyu/yamibo/novel/util/TextUtil.kt:64-68 | an ASCII-printable character is half a font size plus the spacing, any other a full font size plus the spacing |
| TextUtilLegacy.LastWordIndex | app/src/test/java/org/shirakawatyu/yamibo/novel/util/TextUtil.kt:45-53 | the index is the last character that is not punctuation, or -1 when there is none |
| TextUtilLegacy.GetLastWordIndex | app/src/test/java/org/shirakawatyu/yamibo/novel/util/TextUtil.kt:45-53 | the backwards scan returns the last non-punctuation index, and -1 exactly when every character is punctuation |
| TextUtilLegacy.LegacyStepRules | app/src/test/java/org/shirakawatyu/yamibo/novel/util/TextUtil.kt:75-93 | a line is emitted only on overflow of a non-empty line. When the next character is punctuation, the line's suffix from its last non-punctuation character onward moves down with it; otherwise the whole line is emitted |
| TextUtilLegacy.LegacyChunksSpellLine | app/src/test/java/org/shirakawatyu/yamibo/novel/util/TextUtil.kt:72-97 | the legacy chunks concatenate back to the line |
| TextUtilLegacy.CarryCanEmptyChunk | app/src/test/java/org/shirakawatyu/yamibo/novel/util/TextUtil.kt:80-91 | the carry rule can emit an empty line: "a!" in a one-pixel width gives the lines "" and "a!" |
| TextUtilLegacy.CarryPunct | app/src/test/java/org/shirakawatyu/yamibo/novel/util/TextUtil.kt:80-91 | a punctuation mark that would open an empty new line takes the last word of the previous chunk with it, with that word's width, as the legacy carry describes |
| TextUtilLegacy.ChunkLine | app/src/test/java/org/shirakawatyu/yamibo/novel/util/TextUtil.kt:55-99 | the legacy chunking loop returns the chunks of the line |
| TextUtilLegacy.Chunked | app/src/test/java/org/shirakawatyu/yamibo/novel/util/TextUtil.kt:39 | `chunked` groups are non-empty and at most the size, and all but the last have exactly the size |
| TextUtilLegacy.ChunkedFlatten | app/src/test/java/org/shirakawatyu/yamibo/novel/util/TextUtil.kt:39 | `chunked` groups flatten back to the list |
| TextUtilLegacy.PagesSpellLines | app/src/test/java/org/shirakawatyu/yamibo/novel/util/TextUtil.kt:39-41 | the pages concatenate to every line followed by a newline |
| TextUtilLegacy.PagesIndex | app/src/test/java/org/shirakawatyu/yamibo/novel/util/TextUtil.kt:40 | each page is its group joined by newlines plus a final newline |
| TextUtilLegacy.LegacyLinesSpell | app/src/test/java/org/shirakawatyu/yamibo/novel/util/TextUtil.kt:28-38 | the chunked lines of all non-blank paragraphs spell those paragraphs |
| TextUtilLegacy.LegacyPagingText | app/src/test/java/org/shirakawatyu/yamibo/novel/util/TextUtil.kt:13-43 | a non-positive line count fails as `chunked` does; otherwise the pages of the chunked lines |
| TextUtilLegacy.LegacyPagesProps | app/src/test/java/org/shirakawatyu/yamibo/novel/util/TextUtil.kt:39-41 | the legacy pages lose no line, and each holds at most the line count, all but the last exactly that |
| HtmlUtil.Lower | app/src/main/java/org/shirakawatyu/yamibo/novel/util/HTMLUtil.kt:8 | case folding changes only ASCII capitals, into lower-case letters |
| HtmlUtil.BrLen | app/src/main/java/org/shirakawatyu/yamibo/novel/util/HTMLUtil.kt:8 | the length of the unique match of `(?i)<br\s*/?>` at a position, or 0 |
| HtmlUtil.BlockEndLen | app/src/main/java/org/shirakawatyu/yamibo/novel/util/HTMLUtil.kt:12 | 4 exactly at `</p>`, 6 exactly at `</div>`, case-insensitively, 0 elsewhere |
| HtmlUtil.AnyTagLen | app/src/main/java/org/shirakawatyu/yamibo/novel/util/HTMLUtil.kt:15 | the length of the match of `<[^>]+>` reaching the first `>`, or 0 when there is none |
| HtmlUtil.LongRunLen | app/src/main/java/org/shirakawatyu/yamibo/novel/util/HTMLUtil.kt:21 | a run of the character is matched whole when it has at least three, otherwise not at all |
| HtmlUtil.ToTextProps | app/src/main/java/org/shirakawatyu/yamibo/novel/util/HTMLUtil.kt:5-30 | the output has no tag, no `&nbsp;`, space runs of lengths 1, 2 or 4 only, no three newlines in a row, and no surrounding whitespace |
| HtmlUtil.TagFreeIdentity | app/src/main/java/org/shirakawatyu/yamibo/novel/util/HTMLUtil.kt:8-15 | the three tag rewrites leave tag-free text unchanged |
| HtmlUtil.TrimTrimmed | app/src/main/java/org/shirakawatyu/yamibo/novel/util/HTMLUtil.kt:29 | trimming text without surrounding whitespace changes nothing |
| HtmlUtil.ToTextFixedPoint | app/src/main/java/org/shirakawatyu/yamibo/novel/util/HTMLUtil.kt:5-30 | text that already has the output properties is returned unchanged |
| HtmlUtil.ToTextIdempotent | app/src/main/java/org/shirakawatyu/yamibo/novel/util/HTMLUtil.kt:5-30 | normalising twice is the same as normalising once |
| LocalCache.FileNamePageInjective | app/src/main/java/org/shirakawatyu/yamibo/novel/util/LocalCacheUtil.kt:162-165 | two different 32-bit page numbers of one novel never share a cache file name |
| LocalCache.SavePageProps | app/src/main/java/org/shirakawatyu/yamibo/novel/util/LocalCacheUtil.kt:180-203 | saving records the page with its info, leaves every other page and novel as it was, and keeps the index well formed |
| LocalCache.DeletePageProps | app/src/main/java/org/shirakawatyu/yamibo/novel/util/LocalCacheUtil.kt:251-267 | deleting removes only that page. An unknown novel leaves the index unchanged, a novel whose last page goes is dropped, and the index stays well formed |
| LocalCache.SaveThenDelete | app/src/main/java/org/shirakawatyu/yamibo/novel/util/LocalCacheUtil.kt:168-274 | saving a page and then deleting it is the same as deleting it |
| LocalCache.CachedPagesProps | app/src/main/java/org/shirakawatyu/yamibo/novel/util/LocalCacheUtil.kt:231-238 | the cached-page list has one entry per cached page, in ascending page order, and it is exactly the stored infos |
| LocalCache.StatsProps | app/src/main/java/org/shirakawatyu/yamibo/novel/util/LocalCacheUtil.kt:303-313 | the statistics count the pages, sum their sizes and count the pages with images, never more than the pages |
| LocalCache.StatsAfterSave | app/src/main/java/org/shirakawatyu/yamibo/novel/util/LocalCacheUtil.kt:168-313 | after a save the page count grows by one for a new page, and the total size changes by the new size minus the replaced one |
| LocalCache.FixProps | app/src/main/java/org/shirakawatyu/yamibo/novel/util/LocalCacheUtil.kt:98-142 | the size repair changes only zero sizes whose file exists and is non-empty, setting them to the file length. It keeps the index well formed, leaves a sound index untouched and needs no second pass |
| LocalCache.LocalCacheUtil.constructor | app/src/main/java/org/shirakawatyu/yamibo/novel/util/LocalCacheUtil.kt:43-50 | a new cache starts with an empty loaded index over the given files and persisted index |
| LocalCache.LocalCacheUtil.Load | app/src/main/java/org/shirakawatyu/yamibo/novel/util/LocalCacheUtil.kt:43-95 | the loaded index is the repaired stored index, written back only when a repair was needed |
| LocalCache.LocalCacheUtil.FixFileSizesIfNeeded | app/src/main/java/org/shirakawatyu/yamibo/novel/util/LocalCacheUtil.kt:98-142 | the repair loop returns the repaired index and persists it only when something changed |
| LocalCache.LocalCacheUtil.FixNovel | app/src/main/java/org/shirakawatyu/yamibo/novel/util/LocalCacheUtil.kt:108-123 | the inner loop repairs one novel's pages and reports a change exactly when one was needed |
| LocalCache.LocalCacheUtil.WriteIndex | app/src/main/java/org/shirakawatyu/yamibo/novel/util/LocalCacheUtil.kt:145-159 | the written index becomes both the live and the persisted index |
| LocalCache.LocalCacheUtil.SavePage | app/src/main/java/org/shirakawatyu/yamibo/novel/util/LocalCacheUtil.kt:168-209 | a successful write stores the file and records the page with its byte size, then persists the index; a failed write changes nothing |
| LocalCache.LocalCacheUtil.DeletePage | app/src/main/java/org/shirakawatyu/yamibo/novel/util/LocalCacheUtil.kt:241-274 | deleting removes the file and the index entry, and the index is written only when the novel was known |
| LocalCache.LocalCacheUtil.DeleteNovel | app/src/main/java/org/shirakawatyu/yamibo/novel/util/LocalCacheUtil.kt:277-300 | deleting a novel removes its index entry and all its page files; an unknown novel changes nothing |
| LocalCache.LocalCacheUtil.ClearAllCache | app/src/main/java/org/shirakawatyu/yamibo/novel/util/LocalCacheUtil.kt:327-339 | clearing leaves no file and an empty index, live and persisted |
| LocalCache.LoadAfterStore | app/src/main/java/org/shirakawatyu/yamibo/novel/util/LocalCacheUtil.kt:168-228 | a page saved is the page loaded, and saving one page does not change what another page loads |
| LocalCache.OperationsKeepValid | app/src/main/java/org/shirakawatyu/yamibo/novel/util/LocalCacheUtil.kt:188-200 | save, delete, novel delete, clear and repair all keep the index well formed (no empty novel, every page keyed by its own number) |
| FavoriteUtil.Find | app/src/main/java/org/shirakawatyu/yamibo/novel/util/FavoriteUtil.kt:144-149 | the lookup finds the first entry with the url, and nothing exactly when no entry has it |
| FavoriteUtil.Get | app/src/main/java/org/shirakawatyu/yamibo/novel/util/FavoriteUtil.kt:144-149 | a favourite is found exactly when its url is present, and it carries that url |
| FavoriteUtil.PutProps | app/src/main/java/org/shirakawatyu/yamibo/novel/util/FavoriteUtil.kt:166 | a linked-map put makes the url map to the new favourite and leaves the others. It keeps an existing key's position and appends a new key at the end |
| FavoriteUtil.FromListProps | app/src/main/java/org/shirakawatyu/yamibo/novel/util/FavoriteUtil.kt:49 | building a map from a list gives unique urls, the list's url set, and for each url its last mention |
| FavoriteUtil.FromListUnique | app/src/main/java/org/shirakawatyu/yamibo/novel/util/FavoriteUtil.kt:92-96 | a list with unique urls becomes a map in the same order |
| FavoriteUtil.FromListOrder | app/src/main/java/org/shirakawatyu/yamibo/novel/util/FavoriteUtil.kt:92-96 | keys are ordered by their first mention in the list |
| FavoriteUtil.KeptUrls | app/src/main/java/org/shirakawatyu/yamibo/novel/util/FavoriteUtil.kt:60-77 | the stored favourites kept are exactly those the network still lists |
| FavoriteUtil.KeptEntries | app/src/main/java/org/shirakawatyu/yamibo/novel/util/FavoriteUtil.kt:72-75 | each kept favourite keeps its stored progress and takes the network's title |
| FavoriteUtil.KeptOrder | app/src/main/java/org/shirakawatyu/yamibo/novel/util/FavoriteUtil.kt:60-77 | the kept favourites keep their stored order |
| FavoriteUtil.MergeUrls | app/src/main/java/org/shirakawatyu/yamibo/novel/util/FavoriteUtil.kt:49-77 | the merged list holds exactly the network's urls, each once |
| FavoriteUtil.MergeOrder | app/src/main/java/org/shirakawatyu/yamibo/novel/util/FavoriteUtil.kt:53-77 | new favourites come first, in network order, then the stored ones in their stored order |
| FavoriteUtil.MergeEntries | app/src/main/java/org/shirakawatyu/yamibo/novel/util/FavoriteUtil.kt:72-75 | a stored favourite keeps its data with the network title, and a new one is the network's entry |
| FavoriteUtil.FromRecord | app/src/main/java/org/shirakawatyu/yamibo/novel/util/FavoriteUtil.kt:157-165 | each stored field is copied, and `isHidden` is true exactly when the record says true (a missing flag reads as false) |
| FavoriteUtil.Encode | app/src/main/java/org/shirakawatyu/yamibo/novel/util/FavoriteUtil.kt:80 | the JSON object has one entry per favourite, in order, keyed by the url |
| FavoriteUtil.Values | app/src/main/java/org/shirakawatyu/yamibo/novel/util/FavoriteUtil.kt:155 | one favourite per JSON entry, in order |
| FavoriteUtil.JsonToMapProps | app/src/main/java/org/shirakawatyu/yamibo/novel/util/FavoriteUtil.kt:151-169 | parsing gives unique urls, the urls of the entries, and for each url its last entry |
| FavoriteUtil.RoundTrip | app/src/main/java/org/shirakawatyu/yamibo/novel/util/FavoriteUtil.kt:151-169 | a saved favourite map is read back unchanged |
| FavoriteUtil.WithHidden | app/src/main/java/org/shirakawatyu/yamibo/novel/util/FavoriteUtil.kt:116-123 | exactly the selected urls take the new hidden flag, in place |
| FavoriteUtil.WithHiddenKeys | app/src/main/java/org/shirakawatyu/yamibo/novel/util/FavoriteUtil.kt:116-123 | flipping hidden flags keeps the urls and their positions |
| FavoriteUtil.WithHiddenProps | app/src/main/java/org/shirakawatyu/yamibo/novel/util/FavoriteUtil.kt:111-131 | selected present urls get the new flag, every other url is unchanged, and without a change the map is the same |
| FavoriteUtil.FavoriteStore.constructor | app/src/main/java/org/shirakawatyu/yamibo/novel/util/FavoriteUtil.kt:25-35 | the store holds the stored JSON |
| FavoriteUtil.FavoriteStore.FavoriteMap | app/src/main/java/org/shirakawatyu/yamibo/novel/util/FavoriteUtil.kt:133-142 | the stored favourites have unique urls, and no stored value means no favourites |
| FavoriteUtil.FavoriteStore.ParseFavorites | app/src/main/java/org/shirakawatyu/yamibo/novel/util/FavoriteUtil.kt:151-169 | the parsing loop builds the map of the JSON object |
| FavoriteUtil.FavoriteStore.GetFavoriteMap | app/src/main/java/org/shirakawatyu/yamibo/novel/util/FavoriteUtil.kt:133-142 | reading returns the stored favourites |
| FavoriteUtil.FavoriteStore.NewItems | app/src/main/java/org/shirakawatyu/yamibo/novel/util/FavoriteUtil.kt:53-57 | the first loop collects the network favourites the store lacks |
| FavoriteUtil.FavoriteStore.AddKept | app/src/main/java/org/shirakawatyu/yamibo/novel/util/FavoriteUtil.kt:60-77 | the second loop appends the kept stored favourites after the new ones |
| FavoriteUtil.FavoriteStore.AddFavorite | app/src/main/java/org/shirakawatyu/yamibo/novel/util/FavoriteUtil.kt:44-85 | the merged list is saved, read back and handed to the callback |
| FavoriteUtil.FavoriteStore.SaveFavoriteOrder | app/src/main/java/org/shirakawatyu/yamibo/novel/util/FavoriteUtil.kt:90-99 | the new order is saved and read back as given |
| FavoriteUtil.FavoriteStore.UpdateFavorite | app/src/main/java/org/shirakawatyu/yamibo/novel/util/FavoriteUtil.kt:102-109 | one favourite is put into the stored map, and nothing happens when nothing is stored |
| FavoriteUtil.FavoriteStore.UpdateHiddenStatus | app/src/main/java/org/shirakawatyu/yamibo/novel/util/FavoriteUtil.kt:111-131 | the callback always runs. The store is written exactly when a stored flag changes, and then with the flipped flags |
| FavoriteScreen.NotHidden | app/src/main/java/org/shirakawatyu/yamibo/novel/ui/vm/FavoriteVM.kt:46-50 | the normal view shows only favourites that are not hidden |
| FavoriteScreen.HiddenOf | app/src/main/java/org/shirakawatyu/yamibo/novel/ui/vm/FavoriteVM.kt:138-144 | the hidden part has only hidden favourites |
| FavoriteScreen.FilterSplit | app/src/main/java/org/shirakawatyu/yamibo/novel/ui/vm/FavoriteVM.kt:138-144 | the visible and hidden parts together are the whole list |
| FavoriteScreen.NotHiddenKeeps | app/src/main/java/org/shirakawatyu/yamibo/novel/ui/vm/FavoriteVM.kt:138-144 | filtering visible-then-hidden gives back the visible part |
| FavoriteScreen.MovedProps | app/src/main/java/org/shirakawatyu/yamibo/novel/ui/vm/FavoriteVM.kt:132-135 | a move is a permutation that puts the moved item at the target and keeps the others in order |
| FavoriteScreen.MoveKeepsValid | app/src/main/java/org/shirakawatyu/yamibo/novel/ui/vm/FavoriteVM.kt:138-144 | after a move the visible list is the moved list and no favourite is lost |
| FavoriteScreen.CacheInfoProps | app/src/main/java/org/shirakawatyu/yamibo/novel/ui/vm/FavoriteVM.kt:204-219 | a novel has a cache summary exactly when it has cached pages, and its counts are those of the cache statistics |
| FavoriteScreen.FavoriteVM.constructor | app/src/main/java/org/shirakawatyu/yamibo/novel/ui/vm/FavoriteVM.kt:29-37 | the screen starts empty, not refreshing and not in manage mode |
| FavoriteScreen.FavoriteVM.OnFavoritesChanged | app/src/main/java/org/shirakawatyu/yamibo/novel/ui/vm/FavoriteVM.kt:42-54 | a new list from the store is shown through the hidden filter, with the cache summary refreshed |
| FavoriteScreen.FavoriteVM.RefreshList | app/src/main/java/org/shirakawatyu/yamibo/novel/ui/vm/FavoriteVM.kt:69-117 | a scraped list is merged into the store, a failed scrape changes nothing, and refreshing ends |
| FavoriteScreen.FavoriteVM.MoveFavorite | app/src/main/java/org/shirakawatyu/yamibo/novel/ui/vm/FavoriteVM.kt:124-146 | outside manage mode a valid move reorders the visible list, keeps the hidden favourites after it and saves the order; otherwise nothing changes |
| FavoriteScreen.FavoriteVM.ApplyMove | app/src/main/java/org/shirakawatyu/yamibo/novel/ui/vm/FavoriteVM.kt:132-144 | the visible list becomes the moved list and the full list is it followed by the hidden favourites |
| FavoriteScreen.FavoriteVM.ToggleManageMode | app/src/main/java/org/shirakawatyu/yamibo/novel/ui/vm/FavoriteVM.kt:148-160 | manage mode flips, shows hidden favourites only in manage mode, and clears the selection |
| FavoriteScreen.FavoriteVM.ToggleItemSelection | app/src/main/java/org/shirakawatyu/yamibo/novel/ui/vm/FavoriteVM.kt:162-172 | in manage mode the url flips in or out of the selection; otherwise nothing changes |
| FavoriteScreen.FavoriteVM.HideSelectedItems | app/src/main/java/org/shirakawatyu/yamibo/novel/ui/vm/FavoriteVM.kt:174-185 | the selected favourites are hidden in the store and the selection is cleared; with no selection nothing changes |
| FavoriteScreen.FavoriteVM.UnhideSelectedItems | app/src/main/java/org/shirakawatyu/yamibo/novel/ui/vm/FavoriteVM.kt:187-198 | the selected favourites are shown again in the store and the selection is cleared; with no selection nothing changes |
| FavoriteScreen.FavoriteVM.SetSelectedHidden | app/src/main/java/org/shirakawatyu/yamibo/novel/ui/vm/FavoriteVM.kt:174-198 | the shared hide/unhide step |
| FavoriteScreen.FavoriteVM.OnIndexChanged | app/src/main/java/org/shirakawatyu/yamibo/novel/ui/vm/FavoriteVM.kt:57-65 | a new cache index rebuilds the cache summary once favourites are loaded, and changes nothing before |
| FavoriteScreen.FavoriteVM.GetCacheInfo | app/src/main/java/org/shirakawatyu/yamibo/novel/ui/vm/FavoriteVM.kt:249-252 | the summary is rebuilt from the index and exactly that summary goes to the callback |
| FavoriteScreen.FavoriteVM.RefreshCacheInfo | app/src/main/java/org/shirakawatyu/yamibo/novel/ui/vm/FavoriteVM.kt:200-225 | the cache summary is rebuilt from the cache index |
| FavoriteScreen.FavoriteVM.AllInfo | app/src/main/java/org/shirakawatyu/yamibo/novel/ui/vm/FavoriteVM.kt:204-219 | the loop over the index builds the summary of every novel with cached pages |
| FavoriteScreen.FavoriteVM.NovelInfo | app/src/main/java/org/shirakawatyu/yamibo/novel/ui/vm/FavoriteVM.kt:208-216 | the loop over a novel's pages sums the sizes and counts the pages with images |
| ReaderLogic.ExtractPageNum | app/src/main/java/org/shirakawatyu/yamibo/novel/ui/vm/ReaderVM.kt:132-140 | no url or no `page=` gives nothing; otherwise the integer between the first `page=` and the next `&` |
| ReaderLogic.RequestUrlPage | app/src/main/java/org/shirakawatyu/yamibo/novel/ui/vm/ReaderVM.kt:381-384 | the page number put into a request url is the one read back from it |
| ReaderLogic.StoreAuthorId | app/src/main/java/org/shirakawatyu/yamibo/novel/ui/vm/ReaderVM.kt:898-906 | a known author id is kept. A new one comes only from an `authorid=` in the url, and it is non-blank and free of `&` |
| ReaderLogic.IsDiskCacheHtmlValid | app/src/main/java/org/shirakawatyu/yamibo/novel/ui/vm/ReaderVM.kt:203-226 | cached HTML is accepted exactly when it is non-blank, at least 300 characters long, has neither error marker and has a message block |
| ReaderLogic.ChapterList | app/src/main/java/org/shirakawatyu/yamibo/novel/ui/vm/ReaderVM.kt:1022-1029 | the loop builds the chapter list of the passages |
| ReaderLogic.ChaptersProps | app/src/main/java/org/shirakawatyu/yamibo/novel/ui/vm/ReaderVM.kt:1022-1029 | every chapter starts at a passage with its title, starts strictly increase, neighbouring chapters differ, and every titled passage lies in a chapter started at or before it |
| ReaderLogic.ChaptersIgnoreFooter | app/src/main/java/org/shirakawatyu/yamibo/novel/ui/vm/ReaderVM.kt:1025 | the footer passage never opens a chapter |
| ReaderLogic.Footer | app/src/main/java/org/shirakawatyu/yamibo/novel/ui/vm/ReaderVM.kt:1008-1018 | no footer while transitioning. Otherwise the footer says "no more" on the last web page and "next page" when a preloaded page waits |
| ReaderLogic.PaginateProps | app/src/main/java/org/shirakawatyu/yamibo/novel/ui/vm/ReaderVM.kt:955-1032 | the passages are the body followed by the footer, and the chapters are those of the body |
| ReaderLogic.CoerceIn | app/src/main/java/org/shirakawatyu/yamibo/novel/ui/vm/ReaderVM.kt:862 | `coerceIn` returns the value clamped into the range |
| ReaderLogic.SafeInitPage | app/src/main/java/org/shirakawatyu/yamibo/novel/ui/vm/ReaderVM.kt:853-862 | the initial page is the wanted one clamped into the passages (0 for none). It is wanted from the cache index, 0 when already shown or the saved page |
| ReaderLogic.StartOf | app/src/main/java/org/shirakawatyu/yamibo/novel/ui/vm/ReaderVM.kt:1280 | a title no chapter has starts at 0 |
| ReaderLogic.StartOfFirst | app/src/main/java/org/shirakawatyu/yamibo/novel/ui/vm/ReaderVM.kt:1280 | the start of a title is the start of its first chapter |
| ReaderLogic.TruncToInt | app/src/main/java/org/shirakawatyu/yamibo/novel/ui/vm/ReaderVM.kt:1302 | Float-to-Int conversion truncates towards zero |
| ReaderLogic.PercentPage | app/src/main/java/org/shirakawatyu/yamibo/novel/ui/vm/ReaderVM.kt:1302-1305 | the page at the same relative position is always a valid page of the new layout |
| ReaderLogic.ChapterPage | app/src/main/java/org/shirakawatyu/yamibo/novel/ui/vm/ReaderVM.kt:1293-1300 | the page at the same offset in the same chapter is always a valid page of the new layout |
| ReaderLogic.RemapPageAsWritten | app/src/main/java/org/shirakawatyu/yamibo/novel/ui/vm/ReaderVM.kt:1274-1306 | the remap as written fails exactly on an empty passage list with page 0 |
| ReaderLogic.RemapAsWrittenCrashesOnEmptyList | app/src/main/java/org/shirakawatyu/yamibo/novel/ui/vm/ReaderVM.kt:1277-1278 | an empty passage list at page 0 reaches `htmlList[0]` |
| ReaderLogic.RemapPage | app/src/main/java/org/shirakawatyu/yamibo/novel/ui/vm/ReaderVM.kt:1274-1306 | the new page is valid. It keeps the offset within the passage's chapter, or else the relative position |
| ReaderLogic.RemapAgrees | app/src/main/java/org/shirakawatyu/yamibo/novel/ui/vm/ReaderVM.kt:1274-1306 | wherever the remap as written succeeds, the corrected remap gives the same page |
| ReaderLogic.RemapSameLayout | app/src/main/java/org/shirakawatyu/yamibo/novel/ui/vm/ReaderVM.kt:1274-1306 | remapping onto the same layout keeps the current page |
| DiskCacheQueue.Remove | app/src/main/java/org/shirakawatyu/yamibo/novel/ui/vm/ReaderVM.kt:282 | removing a page from the queue removes only it, shortens the queue when present, and keeps it duplicate-free |
| DiskCacheQueue.RemoveFirst | app/src/main/java/org/shirakawatyu/yamibo/novel/ui/vm/ReaderVM.kt:347 | removing the head of a duplicate-free queue drops exactly the head |
| DiskCacheQueue.StartPage | app/src/main/java/org/shirakawatyu/yamibo/novel/ui/vm/ReaderVM.kt:347-365 | starting a page changes only the counter and the progress |
| DiskCacheQueue.TakeHit | app/src/main/java/org/shirakawatyu/yamibo/novel/ui/vm/ReaderVM.kt:368-378 | a memory-cache hit shortens the queue |
| DiskCacheQueue.LoadNextProps | app/src/main/java/org/shirakawatyu/yamibo/novel/ui/vm/ReaderVM.kt:333-391 | the next-page loop keeps the invariant and the configuration. It takes memory hits off the front, saving and marking each, and stops at the first page needing the web or at the end |
| DiskCacheQueue.LoadNextEnds | app/src/main/java/org/shirakawatyu/yamibo/novel/ui/vm/ReaderVM.kt:334-345 | the loop ends either with the queue done and a completed progress, or with one web load of the head |
| DiskCacheQueue.StartProps | app/src/main/java/org/shirakawatyu/yamibo/novel/ui/vm/ReaderVM.kt:153-198 | starting does nothing while caching or with no pages. Otherwise it keeps the invariant, sets the totals, resets the retries and drops memory hits from the front of the queue |
| DiskCacheQueue.HandleIgnored | app/src/main/java/org/shirakawatyu/yamibo/novel/ui/vm/ReaderVM.kt:239-255 | a result for a page not in the queue is ignored |
| DiskCacheQueue.HandleValid | app/src/main/java/org/shirakawatyu/yamibo/novel/ui/vm/ReaderVM.kt:263-285 | a valid result is saved to disk and memory, marks the page cached and takes it off the queue |
| DiskCacheQueue.HandleRetry | app/src/main/java/org/shirakawatyu/yamibo/novel/ui/vm/ReaderVM.kt:287-313 | a bad result within the retry bound counts one more attempt and reloads the same url, changing nothing else |
| DiskCacheQueue.HandleGiveUp | app/src/main/java/org/shirakawatyu/yamibo/novel/ui/vm/ReaderVM.kt:314-328 | a bad result past the bound drops the page, uncached, and moves on |
| DiskCacheQueue.HandleKeepsInv | app/src/main/java/org/shirakawatyu/yamibo/novel/ui/vm/ReaderVM.kt:229-330 | every load result keeps the queue invariant |
| DiskCacheQueue.ThreeAttempts | app/src/main/java/org/shirakawatyu/yamibo/novel/ui/vm/ReaderVM.kt:288-328 | a page that never loads is requested three times and then given up |
| DiskCacheQueue.StopThenIgnored | app/src/main/java/org/shirakawatyu/yamibo/novel/ui/vm/ReaderVM.kt:452-465 | stopping empties the queue and ends caching, after which every late result is ignored |
| DiskCacheQueue.SmallStepsKeepInv | app/src/main/java/org/shirakawatyu/yamibo/novel/ui/vm/ReaderVM.kt:307-313 | a due retry, a reset and a re-shown progress all keep the invariant. A reset hides the progress, and a retry does nothing once caching stopped |
| ReaderScreen.HexDigits | app/src/main/java/org/shirakawatyu/yamibo/novel/ui/vm/ReaderVM.kt:1253-1255 | the hex rendering of a colour component has exactly the requested number of digits |
| ReaderScreen.HexRoundTrip | app/src/main/java/org/shirakawatyu/yamibo/novel/ui/vm/ReaderVM.kt:1253-1255 | reading back the hex digits gives the number |
| ReaderScreen.ColorString | app/src/main/java/org/shirakawatyu/yamibo/novel/ui/vm/ReaderVM.kt:1253-1255 | a colour is saved as `#` and eight hex digits |
| ReaderScreen.ColorStringRoundTrip | app/src/main/java/org/shirakawatyu/yamibo/novel/ui/vm/ReaderVM.kt:1253-1255 | the saved colour string reads back as the colour's 32-bit ARGB value |
| ReaderScreen.TextPassages | app/src/main/java/org/shirakawatyu/yamibo/novel/ui/vm/ReaderVM.kt:1000-1002 | each text page becomes one text passage with the chapter title |
| ReaderScreen.PagedBodyKeepsImages | app/src/main/java/org/shirakawatyu/yamibo/novel/ui/vm/ReaderVM.kt:990-1006 | laying out keeps every image passage, in order |
| ReaderScreen.PagedBodyTitles | app/src/main/java/org/shirakawatyu/yamibo/novel/ui/vm/ReaderVM.kt:990-1006 | every passage's chapter title comes from the parsed content |
| ReaderScreen.ReaderVM.constructor | app/src/main/java/org/shirakawatyu/yamibo/novel/ui/vm/ReaderVM.kt:48-111 | the reader starts with the default state and settings, an idle cache queue satisfying the invariant, and a line height at least 1.5 times the font |
| ReaderScreen.ReaderVM.UpdateCachedPagesFromIndex | app/src/main/java/org/shirakawatyu/yamibo/novel/ui/vm/ReaderVM.kt:143-150 | the cached pages are exactly the novel's pages in the cache index |
| ReaderScreen.ReaderVM.LoadNextPageForDiskCache | app/src/main/java/org/shirakawatyu/yamibo/novel/ui/vm/ReaderVM.kt:333-391 | the fields move as the next-page step of the queue model says |
| ReaderScreen.ReaderVM.StartCaching | app/src/main/java/org/shirakawatyu/yamibo/novel/ui/vm/ReaderVM.kt:153-198 | the fields move as the start of the queue model says, keeping its invariant |
| ReaderScreen.ReaderVM.HandleCacheLoadFinished | app/src/main/java/org/shirakawatyu/yamibo/novel/ui/vm/ReaderVM.kt:229-330 | the fields and the reload request are those of the queue model's result handling, keeping its invariant |
| ReaderScreen.ReaderVM.RetryDelayElapsed | app/src/main/java/org/shirakawatyu/yamibo/novel/ui/vm/ReaderVM.kt:307-313 | after the delay the url is reloaded only while caching, keeping the invariant |
| ReaderScreen.ReaderVM.ResetCacheProgress | app/src/main/java/org/shirakawatyu/yamibo/novel/ui/vm/ReaderVM.kt:429-434 | the progress is hidden, keeping the invariant |
| ReaderScreen.ReaderVM.ShowCacheProgress | app/src/main/java/org/shirakawatyu/yamibo/novel/ui/vm/ReaderVM.kt:436-450 | the progress is shown again while caching, keeping the invariant |
| ReaderScreen.ReaderVM.StopCaching | app/src/main/java/org/shirakawatyu/yamibo/novel/ui/vm/ReaderVM.kt:452-465 | caching stops with an empty queue, keeping the invariant |
| ReaderScreen.ReaderVM.PaginateContent | app/src/main/java/org/shirakawatyu/yamibo/novel/ui/vm/ReaderVM.kt:955-1032 | the passages and chapters are those of the laid-out body and the footer |
| ReaderScreen.ReaderVM.LayOut | app/src/main/java/org/shirakawatyu/yamibo/novel/ui/vm/ReaderVM.kt:990-1006 | the layout loop pages every text item and keeps every image |
| ReaderScreen.ReaderVM.AppendPages | app/src/main/java/org/shirakawatyu/yamibo/novel/ui/vm/ReaderVM.kt:1000-1002 | the inner loop appends one text passage per page |
| ReaderScreen.ReaderVM.LoadFinished | app/src/main/java/org/shirakawatyu/yamibo/novel/ui/vm/ReaderVM.kt:751-884 | a failed load shows the empty error page with the new page count, clears the scrim and the transition, and keeps every other field: chapters, page, percentage, preload state, kept next page, parsed content, author id and both cache logs. A successful load stores the parsed content and the author id and then has the load outcome of the laid-out passages (body for the current mode, footer for the entry state with the new page count of a web load) |
| ReaderScreen.ReaderVM.LoadSucceeded | app/src/main/java/org/shirakawatyu/yamibo/novel/ui/vm/ReaderVM.kt:777-884 | the parsed content is stored, the author id is updated unless the page came from the cache, the laid-out pair is the body for the current mode plus the footer for the entry state, and the fields change exactly as the load outcome says: the awaited preload is kept as the next page and saved, and the last shown passage becomes the web footer, all else on screen unchanged; a stale result changes at most `isPreloading` and saves nothing; any other result is shown on the clamped start page with its percentage, and saved when it came from the web |
| ReaderScreen.ReaderVM.Dispatch | app/src/main/java/org/shirakawatyu/yamibo/novel/ui/vm/ReaderVM.kt:787-882 | every field a load may change is accounted for in each case: a kept preload changes only the preload flag, the next page, the last passage and the cache logs; a stale result changes at most `isPreloading` and nothing else, saves included; a shown page sets list, chapters, page, percentage, page count, error, transition and scrim, keeps the next page, and is saved when it came from the web |
| ReaderScreen.ReaderVM.TakePreload | app/src/main/java/org/shirakawatyu/yamibo/novel/ui/vm/ReaderVM.kt:799-825 | a preloaded page is kept for later and cached. The footer of the shown page becomes "next" |
| ReaderScreen.ReaderVM.ShowLoaded | app/src/main/java/org/shirakawatyu/yamibo/novel/ui/vm/ReaderVM.kt:836-881 | a shown page replaces the passages and chapters, and its initial page is the clamped wanted page |
| ReaderScreen.ReaderVM.ShowPassages | app/src/main/java/org/shirakawatyu/yamibo/novel/ui/vm/ReaderVM.kt:853-881 | the display state as shown, without the cache writes |
| ReaderScreen.ReaderVM.SaveShownPage | app/src/main/java/org/shirakawatyu/yamibo/novel/ui/vm/ReaderVM.kt:836-851 | a page not from the cache is saved to memory, and to disk when the page is disk-cached |
| ReaderScreen.ReaderVM.SaveCurrentSettings | app/src/main/java/org/shirakawatyu/yamibo/novel/ui/vm/ReaderVM.kt:1251-1266 | the current settings are appended to the saved settings |
| ReaderScreen.ReaderVM.SaveSettings | app/src/main/java/org/shirakawatyu/yamibo/novel/ui/vm/ReaderVM.kt:1268-1324 | the settings are saved. With no passages and page 0 the read of the old passage throws (`ok` false) and only the loading scrim is left on. Otherwise the content is laid out again on the page the written remap computes, which is valid; the zoom resets at page 0, and the same layout keeps the page |
| ReaderScreen.ReaderVM.RelayOut | app/src/main/java/org/shirakawatyu/yamibo/novel/ui/vm/ReaderVM.kt:1271-1323 | the scrim is shown; the throw on an empty list at page 0 stops there (`ok` false). Otherwise the content is paginated again and shown on the written remap's page, which is valid; the zoom resets at page 0, and the same layout keeps the page |
| ReaderScreen.ReaderVM.ShowRemapped | app/src/main/java/org/shirakawatyu/yamibo/novel/ui/vm/ReaderVM.kt:1291-1322 | past the old-passage read, the new layout is shown at the page the written remap computes, which equals the corrected remap |
| ReaderScreen.ReaderVM.SetReadingMode | app/src/main/java/org/shirakawatyu/yamibo/novel/ui/vm/ReaderVM.kt:1326-1333 | the same mode changes no field at all. A new mode is stored with the settings and then behaves as `saveSettings`: on the throw (empty list at page 0) only the page and the scrim change besides; otherwise the passages are re-laid out for the new mode, the page is the remapped one and in range, the percentage matches it, and the zoom is reset exactly when the page is the first |
| ReaderScreen.ReaderVM.OnSetFontSize | app/src/main/java/org/shirakawatyu/yamibo/novel/ui/vm/ReaderVM.kt:1345-1357 | the font size is set and the line height is raised to 1.5 times it when lower |
| ReaderScreen.ReaderVM.OnSetLineHeight | app/src/main/java/org/shirakawatyu/yamibo/novel/ui/vm/ReaderVM.kt:1359-1369 | the line height is clamped to between 1.5 times the font and 100. It fails, changing nothing, when that range is empty |
| ReaderScreen.ReaderVM.OnSetBackgroundColor | app/src/main/java/org/shirakawatyu/yamibo/novel/ui/vm/ReaderVM.kt:1390-1395 | the colour is set and night mode is switched off |
| CacheDialogWidget.AllPages | app/src/main/java/org/shirakawatyu/yamibo/novel/ui/widget/CacheDialog.kt:72 | "all pages" is the range 1..maxWebView |
| CacheDialogWidget.AllPagesSize | app/src/main/java/org/shirakawatyu/yamibo/novel/ui/widget/CacheDialog.kt:72 | there are maxWebView pages (none for a negative count) |
| CacheDialogWidget.ToggleRow | app/src/main/java/org/shirakawatyu/yamibo/novel/ui/widget/CacheDialog.kt:126-130 | a row click flips that page and no other |
| CacheDialogWidget.CheckRow | app/src/main/java/org/shirakawatyu/yamibo/novel/ui/widget/CacheDialog.kt:148-152 | a checkbox sets that page as checked and no other |
| CacheDialogWidget.ToggleRowTwice | app/src/main/java/org/shirakawatyu/yamibo/novel/ui/widget/CacheDialog.kt:126-130 | two clicks on a row restore the selection |
| CacheDialogWidget.ToggleRowIsCheck | app/src/main/java/org/shirakawatyu/yamibo/novel/ui/widget/CacheDialog.kt:126-152 | a row click is a checkbox change to the opposite state |
| CacheDialogWidget.FullSelectionIsAll | app/src/main/java/org/shirakawatyu/yamibo/novel/ui/widget/CacheDialog.kt:70-78 | a selection of pages with maxWebView members is all pages |
| CacheDialogWidget.SelectAllTwice | app/src/main/java/org/shirakawatyu/yamibo/novel/ui/widget/CacheDialog.kt:70-74 | select-all twice gives all pages from a full selection and none otherwise |
| CacheDialogWidget.ToCache | app/src/main/java/org/shirakawatyu/yamibo/novel/ui/widget/CacheDialog.kt:236 | the pages to cache are the selected uncached pages, which together with the pages to delete make the selection |
| CacheDialogWidget.ToDelete | app/src/main/java/org/shirakawatyu/yamibo/novel/ui/widget/CacheDialog.kt:269 | the pages to delete are exactly the selected cached pages |
| CacheDialogWidget.CacheEnabledIff | app/src/main/java/org/shirakawatyu/yamibo/novel/ui/widget/CacheDialog.kt:241 | the cache button is enabled exactly when there is something to cache |
| CacheDialogWidget.DeleteOfferedIff | app/src/main/java/org/shirakawatyu/yamibo/novel/ui/widget/CacheDialog.kt:198-216 | delete and update are offered exactly when a selected page is cached |
| CacheDialogWidget.SomethingOffered | app/src/main/java/org/shirakawatyu/yamibo/novel/ui/widget/CacheDialog.kt:198-241 | any selection enables caching or offers deletion |
| CacheDialogWidget.CacheDialog.constructor | app/src/main/java/org/shirakawatyu/yamibo/novel/ui/widget/CacheDialog.kt:37-39 | the dialog opens with nothing selected, images off and no confirmation shown |
| CacheDialogWidget.CacheDialog.DeselectLabelMeansAll | app/src/main/java/org/shirakawatyu/yamibo/novel/ui/widget/CacheDialog.kt:78 | the button says "deselect all" exactly when every page is selected |
| CacheDialogWidget.CacheDialog.OnSelectAll | app/src/main/java/org/shirakawatyu/yamibo/novel/ui/widget/CacheDialog.kt:70-74 | select-all selects every page, or clears a full selection |
| CacheDialogWidget.CacheDialog.OnRowClick | app/src/main/java/org/shirakawatyu/yamibo/novel/ui/widget/CacheDialog.kt:126-130 | a row click toggles that page |
| CacheDialogWidget.CacheDialog.OnCheckedChange | app/src/main/java/org/shirakawatyu/yamibo/novel/ui/widget/CacheDialog.kt:148-152 | a checkbox sets that page |
| CacheDialogWidget.CacheDialog.OnCacheClick | app/src/main/java/org/shirakawatyu/yamibo/novel/ui/widget/CacheDialog.kt:234-240 | the cache button requests caching of the selected uncached pages, and does nothing when there are none |
| CacheDialogWidget.CacheDialog.OnDeleteClick | app/src/main/java/org/shirakawatyu/yamibo/novel/ui/widget/CacheDialog.kt:200 | delete opens the confirmation |
| CacheDialogWidget.CacheDialog.OnConfirmDelete | app/src/main/java/org/shirakawatyu/yamibo/novel/ui/widget/CacheDialog.kt:268-271 | confirming requests deletion of the selected cached pages and closes the confirmation |
| CacheDialogWidget.CacheDialog.OnDismissDelete | app/src/main/java/org/shirakawatyu/yamibo/novel/ui/widget/CacheDialog.kt:263 | dismissing closes the confirmation |
| CacheDialogWidget.CacheDialog.OnUpdateClick | app/src/main/java/org/shirakawatyu/yamibo/novel/ui/widget/CacheDialog.kt:218-219 | update requests re-caching of the whole selection |
| CacheDialogWidget.Fraction | app/src/main/java/org/shirakawatyu/yamibo/novel/ui/widget/CacheDialog.kt:296 | the progress bar lies between 0 and 1, is full at the total, and is empty without a total |
| CacheDialogWidget.CompleteAtTotal | app/src/main/java/org/shirakawatyu/yamibo/novel/ui/widget/CacheDialog.kt:297 | the dialog counts as complete exactly when the current page is the total |
| CacheDialogWidget.FinishShowsComplete | app/src/main/java/org/shirakawatyu/yamibo/novel/ui/widget/CacheDialog.kt:297 | a finished session shows as complete |
| CacheDialogWidget.LastPageShownCompleteEarly | app/src/main/java/org/shirakawatyu/yamibo/novel/ui/widget/CacheDialog.kt:297 | as written, the dialog shows complete while the last page is still loading |
| CacheDialogWidget.StartedPageNotComplete | app/src/main/java/org/shirakawatyu/yamibo/novel/ui/widget/CacheDialog.kt:297 | with the session's own completion flag, starting a page never shows complete |
| CacheDialogWidget.ReshownNotComplete | app/src/main/java/org/shirakawatyu/yamibo/novel/ui/widget/CacheDialog.kt:297 | with the session's own completion flag, a progress re-shown while caching is not complete |
| PassageClient.UnescapeJsResult | app/src/main/java/org/shirakawatyu/yamibo/novel/module/PassageWebViewClient.kt:45-64 | no result or "null" gives "". A parse failure never lengthens the string, and a syntax error on a quoted string strips the quotes |
| PassageClient.UnquoteRoundTrip | app/src/main/java/org/shirakawatyu/yamibo/novel/module/PassageWebViewClient.kt:53-59 | a quoted string that is not valid JSON loses exactly its quotes |
| PassageClient.UnquotedKept | app/src/main/java/org/shirakawatyu/yamibo/novel/module/PassageWebViewClient.kt:53-62 | an unquoted string, or any string on another failure, is kept as it is |
| PassageClient.MaxPageOf | app/src/main/java/org/shirakawatyu/yamibo/novel/module/PassageWebViewClient.kt:129-130 | the page count is the parsed 32-bit integer, or 1 |
| PassageClient.MaxPageRoundTrip | app/src/main/java/org/shirakawatyu/yamibo/novel/module/PassageWebViewClient.kt:130 | a page count written out is read back |
| PassageClient.FailureReport | app/src/main/java/org/shirakawatyu/yamibo/novel/module/PassageWebViewClient.kt:157-163 | a failure reports the request url, one page, no title and an error page |
| PassageClient.SuccessReport | app/src/main/java/org/shirakawatyu/yamibo/novel/module/PassageWebViewClient.kt:124-135 | a success reports the url, the extracted content wrapped in `<html>`, the page count and a title |
| PassageClient.AllSuccessNoFailures | app/src/main/java/org/shirakawatyu/yamibo/novel/module/PassageWebViewClient.kt:124-138 | successful reports contain no failure |
| PassageClient.LoadOkOneFailure | app/src/main/java/org/shirakawatyu/yamibo/novel/module/PassageWebViewClient.kt:152-164 | a load reports at most one failure, and one exactly when an error occurred |
| PassageClient.FailureEndsLoad | app/src/main/java/org/shirakawatyu/yamibo/novel/module/PassageWebViewClient.kt:152-164 | after a failure no further report belongs to the load |
| PassageClient.PassageWebViewClient.constructor | app/src/main/java/org/shirakawatyu/yamibo/novel/module/PassageWebViewClient.kt:30 | a new client has seen no error and reported nothing |
| PassageClient.PassageWebViewClient.OnPageStarted | app/src/main/java/org/shirakawatyu/yamibo/novel/module/PassageWebViewClient.kt:31-37 | a new page clears the error flag and starts a new load |
| PassageClient.PassageWebViewClient.OnPageFinished | app/src/main/java/org/shirakawatyu/yamibo/novel/module/PassageWebViewClient.kt:66-80 | after an error nothing happens. A page without `authorid` clicks "only the author"; otherwise the extraction scripts run |
| PassageClient.PassageWebViewClient.OnScriptsReturned | app/src/main/java/org/shirakawatyu/yamibo/novel/module/PassageWebViewClient.kt:124-138 | when the scripts return, success is reported once, unless an error occurred meanwhile |
| PassageClient.PassageWebViewClient.OnReceivedError | app/src/main/java/org/shirakawatyu/yamibo/novel/module/PassageWebViewClient.kt:146-165 | a main-frame error is reported once per load, with the description |
| PassageClient.PassageWebViewClient.OnReceivedHttpError | app/src/main/java/org/shirakawatyu/yamibo/novel/module/PassageWebViewClient.kt:170-189 | a main-frame HTTP error is reported once per load, with the status code |
| PassageClient.PassageWebViewClient.ReportMainFrameError | app/src/main/java/org/shirakawatyu/yamibo/novel/module/PassageWebViewClient.kt:152-163 | the shared error step reports only the first main-frame error of a load and ignores subresources |
| ReaderSettingsBean.ReaderSettings.constructor | app/src/main/java/org/shirakawatyu/yamibo/novel/bean/ReaderSettings.java:10-15 | the four settings read back as given |
| ReaderSettingsBean.ReaderSettings.Empty | app/src/main/java/org/shirakawatyu/yamibo/novel/bean/ReaderSettings.java:17-18 | the empty bean has no setting |
| ReaderSettingsBean.ReaderSettings.SetFontSizePx | app/src/main/java/org/shirakawatyu/yamibo/novel/bean/ReaderSettings.java:24-26 | the font size reads back as set and the other settings are unchanged |
| ReaderSettingsBean.ReaderSettings.SetLineHeightPx | app/src/main/java/org/shirakawatyu/yamibo/novel/bean/ReaderSettings.java:32-34 | the line height reads back as set and the other settings are unchanged |
| ReaderSettingsBean.ReaderSettings.SetPaddingDp | app/src/main/java/org/shirakawatyu/yamibo/novel/bean/ReaderSettings.java:40-42 | the padding reads back as set and the other settings are unchanged |
| ReaderSettingsBean.ReaderSettings.SetNightMode | app/src/main/java/org/shirakawatyu/yamibo/novel/bean/ReaderSettings.java:48-50 | night mode reads back as set and the other settings are unchanged |
| ReaderSettingsTestBean.ReaderSettings.constructor | app/src/test/java/org/shirakawatyu/yamibo/novel/bean/ReaderSettings.java:9-13 | the three settings read back as given |
| ReaderSettingsTestBean.ReaderSettings.Empty | app/src/test/java/org/shirakawatyu/yamibo/novel/bean/ReaderSettings.java:15-16 | the empty bean has no setting |
| ReaderSettingsTestBean.ReaderSettings.SetFontSizePx | app/src/test/java/org/shirakawatyu/yamibo/novel/bean/ReaderSettings.java:22-24 | the font size reads back as set and the other settings are unchanged |
| ReaderSettingsTestBean.ReaderSettings.SetLineHeightPx | app/src/test/java/org/shirakawatyu/yamibo/novel/bean/ReaderSettings.java:30-32 | the line height reads back as set and the other settings are unchanged |
| ReaderSettingsTestBean.ReaderSettings.SetPadding | app/src/test/java/org/shirakawatyu/yamibo/novel/bean/ReaderSettings.java:38-40 | the padding reads back as set and the other settings are unchanged |

## Left out

- Text length and digits: strings are sequences of characters, so UTF-16 surrogate pairs count as one character, and `toIntOrNull` accepts only ASCII digits (Kotlin also accepts other Unicode decimal digits).
- Floating point: `Float` arithmetic is modelled on reals, so rounding is absent. `Float`-to-`Int` conversion (truncation, saturation, division by zero) is modelled explicitly.
- Concurrency: coroutines, `launch`, `withContext` and `StateFlow` collection run sequentially, with each continuation right after its trigger. The retry delay of the disk-cache queue is the separate step `RetryDelayElapsed`.
- The memory cache (`CacheUtil`, an LRU cache) is a snapshot map passed to every call that reads it; eviction is not modelled.
- I/O: files, the data store and JSON serialisation are not modelled. Files are a map from name to bytes, and the JSON of a cache page is a given encoding function. The favourites JSON is a list of entries, and a parse result is a parameter (`JsonOutcome`).
- Screen rendering and resources: `ValueUtil` unit conversions, screen sizes and `RequestConfig.BASE_URL` are parameters (`pxPerSp`, `PageLayout`, `baseUrl`).
- The Jsoup HTML parser: `HTMLUtil.parseHtmlToContent` is not part of this model, and its result is the `parsed` parameter of `ReaderVM.LoadFinished`.
- Vertical layout: `TextUtil.pagingTextVertical` is not part of this model. Its result is the `verticalLines` parameter.
- LocalCache.LocalCacheUtil.WriteIndex: a failed index write (the caught exception) is not modelled; the write always succeeds.
- Java regular expressions: the HTML rewrites follow the JVM's `java.util.regex` semantics (`\s` as the six ASCII spaces, `(?i)` folding ASCII letters only). Android's ICU-backed engine may differ on non-ASCII input.
- `FavoriteVM.deleteFavoriteCache` and `FavoriteVM.clearAllCache` (FavoriteVM.kt:254-271) only launch `LocalCacheUtil.deleteNovel` and `clearAllCache` and log failures; those operations are `LocalCache.LocalCacheUtil.DeleteNovel` and `ClearAllCache`, and the summary follows through `FavoriteScreen.FavoriteVM.OnIndexChanged`.
- `LocalCacheUtil.getAllCachedNovels` returns the index's key set and has no separate member.
- `FavoriteUtil.getFavoriteFlow` and `getFavorite` are reads of the store: `FavoriteStore.FavoriteMap` and `FavoriteUtil.Get`.
- Malformed favourite records inside well-formed JSON (fields of the wrong type) are not modelled.
- FavoriteScreen.FavoriteVM.RefreshList: the scraping of the favourites page (an HTTP request read by Jsoup) is a parameter: `Some(list)` on success, `None` on failure.
- The web view itself: page loading and script evaluation are outside the model. `PassageWebViewClient` records the "only the author" clicks (`starterClicks`) and the pending script runs, and a null `view` is not modelled.
- `ReaderVM.checkAndStoreAuthorId` (ReaderVM.kt:908-916), which writes the author id back into the favourite, is not modelled.
- Further `ReaderVM` operations are not modelled:
  - `deleteCachedPages` (394-405) and `updateCachedPages` (408-426);
  - `onTransform`, `toggleChapterDrawer`, `onSetPadding`, `toggleNightMode` and `toggleLoadImages`;
  - the first load, `onSetView`, preload requests, page changes and history recording.
- ReaderScreen.ReaderVM.StartCaching requires a duplicate-free page list. The source receives a `Set`, so this is its type, not a restriction.
- The delete confirmation's text (the count of pages) is not modelled. The "include images" switch is commented out in the source (CacheDialog.kt:93-106), so images always start off.
- The `ReaderSettings` bean is the four-field class in bean/ReaderSettings.java. `ReaderVM` saves more fields (vertical mode, background colour, load images), and those are modelled as the record `StoredSettings`.
- `ReaderVM` refers to `CacheUtil.clearCacheEntry` (ReaderVM.kt:623) and reads `ReaderState` fields that ui/state/ReaderState.kt does not declare (`backgroundColor`, `isVerticalMode`, `currentPercentage`). The model gives the view model these three fields directly.
- FavoriteUtil.MergeOrder: when the network lists one url twice, the new item is placed at its first mention and carries its last mention's data, as `LinkedHashMap.put` does.
- The `ReaderVM` in the test sources is not part of this model.

## Findings

| source | as written | input that shows it | evidently intended | confidence | as-written member | corrected member |
|---|---|---|---|---|---|---|
| app/src/main/java/org/shirakawatyu/yamibo/novel/ui/vm/ReaderVM.kt:1274-1278 | the guard compares the page against the passage count coerced to at least 1, then reads `htmlList[currentPage]` | `saveSettings(0)` after a failed load (error page, `htmlList` empty): `0 < 1` passes and `htmlList[0]` throws | compare against the real passage count and fall back to page 0 | not executed | ReaderLogic.RemapPageAsWritten | ReaderLogic.RemapPage |
| app/src/main/java/org/shirakawatyu/yamibo/novel/ui/widget/CacheDialog.kt:297 | the dialog is complete when `currentPage >= totalPages`, where `currentPage` is the page being fetched (ReaderVM.kt:348-361) | a one-page caching session whose page is not in the memory cache: while it loads the progress is 1 of 1, so the dialog says complete and hides the stop button | use `CacheProgress.isComplete`, which is set only when the queue is done | not executed | CacheDialogWidget.LastPageShownCompleteEarly | CacheDialogWidget.StartedPageNotComplete |
