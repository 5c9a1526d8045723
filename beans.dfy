/**
 * Value types shared by the reader, the favourites and the caches.
 */
module Beans {
  import opened Base

  /** Whether a piece of chapter content is an image url or text (bean/Content.kt:16-18). */
  datatype ContentType = Img | Text

  /** One piece of a passage with the chapter it belongs to (bean/Content.kt:10-14). */
  datatype Content = Content(data: string, contentType: ContentType, chapterTitle: Option<string>)

  /** A chapter title with the index of its first page (ui/state/ReaderState.kt:15-18). */
  datatype ChapterInfo = ChapterInfo(title: string, startIndex: int)

  /** A cached thread page (util/CacheUtil.kt:6-11). */
  datatype CacheData = CacheData(cachedPageNum: int, htmlContent: string, maxPageNum: int, authorId: Option<string>)

  /**
   * A favourite thread (bean/Favorite.kt:13-20), with the hidden flag the
   * favourites store reads and writes.
   */
  datatype Favorite = Favorite(
    title: string,
    url: string,
    lastPage: int,
    lastView: int,
    lastChapter: Option<string>,
    authorId: Option<string>,
    isHidden: bool)
}
