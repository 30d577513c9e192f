/**
 * The older bookmark record (readbookmark.py): one row of the bookmarks
 * table with a plain title in place of a note, and its page and
 * ownership tests.
 */
module LegacyBookmark {

  /** A row of the older bookmarks table: md5, page, title, timestamp, user, color, local. */
  type Row = (string, int, string, real, string, string, int)

  datatype Bookmark = Bookmark(md5: string, pageNo: int, title: string, timestamp: real,
                               nick: string, color: string, local: int)

  /** `Bookmark(data)`: the row's seven columns in order. */
  function FromRow(data: Row): (b: Bookmark)
    ensures b.md5 == data.0 && b.pageNo == data.1 && b.title == data.2 && b.timestamp == data.3
    ensures b.nick == data.4 && b.color == data.5 && b.local == data.6
  {
    Bookmark(data.0, data.1, data.2, data.3, data.4, data.5, data.6)
  }

  predicate BelongsToPage(b: Bookmark, page: int) {
    b.pageNo == page
  }

  /** `is_local`: `bool(local)`, true for any non-zero value. */
  predicate IsLocal(b: Bookmark) {
    b.local != 0
  }

  /** A bookmark belongs to exactly one page, the one of its row. */
  lemma OnePage(data: Row, p: int)
    ensures BelongsToPage(FromRow(data), p) <==> p == data.1
    ensures forall q :: BelongsToPage(FromRow(data), p) && BelongsToPage(FromRow(data), q) ==> p == q
  {
  }

  /** Only a zero `local` column makes a bookmark foreign. */
  lemma LocalFromRow(data: Row)
    ensures IsLocal(FromRow(data)) <==> data.6 != 0
  {
  }
}
