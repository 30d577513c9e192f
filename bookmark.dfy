/**
 * A bookmark of the Read activity (Read.activity/readbookmark.py): one row
 * of the bookmarks table, its page test, its optional note, and its
 * conversion to and comparison with the dictionary form in which
 * bookmarks are shared between readers.
 */
module ReadBookmark {
  import opened Wrappers

  /** A value of a shared bookmark dictionary, as JSON decoding produces it. */
  datatype Value = Str(s: string) | Int(i: int) | Real(r: real) | Null

  /** Python's `==` between two such values: an int and a float compare by number. */
  predicate PyEq(a: Value, b: Value) {
    match (a, b)
    case (Int(x), Real(y)) => x as real == y
    case (Real(x), Int(y)) => x == y as real
    case _ => a == b
  }

  /** A row of the bookmarks table: md5, page, content, timestamp, user, color, local. */
  type Row = (string, int, Option<string>, real, string, string, int)

  datatype Bookmark = Bookmark(md5: string, pageNo: int, content: Option<string>, timestamp: real,
                               nick: string, color: string, local: int)

  /**
   * A bookmark's dictionary form, as `get_as_dict` builds it and readers
   * share it: one field per key ('md5', 'page_no', 'content', 'timestamp',
   * 'nick', 'color', 'local').
   */
  datatype BookmarkDict = BookmarkDict(md5: Value, pageNo: Value, content: Value, timestamp: Value,
                                       nick: Value, color: Value, local: Value)

  /** `Bookmark(data)`: the row's seven columns in order. */
  function FromRow(data: Row): (b: Bookmark)
    ensures b.md5 == data.0 && b.pageNo == data.1 && b.content == data.2 && b.timestamp == data.3
    ensures b.nick == data.4 && b.color == data.5 && b.local == data.6
  {
    Bookmark(data.0, data.1, data.2, data.3, data.4, data.5, data.6)
  }

  predicate BelongsToPage(b: Bookmark, page: int) {
    b.pageNo == page
  }

  predicate IsLocal(b: Bookmark) {
    b.local != 0
  }

  /**
   * `get_note_title` and `get_note_body`: '' for an empty or missing note;
   * otherwise the named field of the decoded note (`field` stands for the
   * JSON decoding followed by the lookup).
   */
  function NoteField(b: Bookmark, field: string -> string): (r: string)
    ensures b.content == None || b.content == Some("") ==> r == ""
    ensures b.content.Some? && b.content.value != "" ==> r == field(b.content.value)
  {
    if b.content == None || b.content == Some("") then "" else field(b.content.value)
  }

  function ContentValue(c: Option<string>): Value {
    if c.Some? then Str(c.value) else Null
  }

  /** A dictionary as another reader shares it: values of the column types under every key. */
  predicate WellTyped(d: BookmarkDict) {
    d.md5.Str? && d.pageNo.Int? && (d.content.Str? || d.content.Null?)
    && d.timestamp.Real? && d.nick.Str? && d.color.Str? && d.local.Int?
  }

  /** `get_as_dict`: every column under its key, a missing note as None. */
  function AsDict(b: Bookmark): (d: BookmarkDict)
    ensures WellTyped(d)
  {
    BookmarkDict(Str(b.md5), Int(b.pageNo), ContentValue(b.content), Real(b.timestamp), Str(b.nick),
                 Str(b.color), Int(b.local))
  }

  /** `compare_equal_to_dict`: every field equals the dictionary's entry for it. */
  predicate CompareEqualToDict(b: Bookmark, d: BookmarkDict) {
    PyEq(d.md5, Str(b.md5)) && PyEq(d.pageNo, Int(b.pageNo))
    && PyEq(d.content, ContentValue(b.content)) && PyEq(d.timestamp, Real(b.timestamp))
    && PyEq(d.nick, Str(b.nick)) && PyEq(d.color, Str(b.color)) && PyEq(d.local, Int(b.local))
  }

  /** The bookmark a well-typed dictionary describes. */
  function FromDict(d: BookmarkDict): (b: Bookmark)
    requires WellTyped(d)
  {
    Bookmark(d.md5.s, d.pageNo.i, if d.content.Str? then Some(d.content.s) else None,
             d.timestamp.r, d.nick.s, d.color.s, d.local.i)
  }

  /** A bookmark compares equal to its own dictionary form. */
  lemma CompareAsDict(b: Bookmark)
    ensures CompareEqualToDict(b, AsDict(b))
  {
  }

  /** On well-typed dictionaries the comparison is exactly equality with the dictionary form. */
  lemma CompareIsEquality(b: Bookmark, d: BookmarkDict)
    requires WellTyped(d)
    ensures CompareEqualToDict(b, d) <==> d == AsDict(b)
  {
  }

  /** Dictionary form and `FromDict` are inverse. */
  lemma DictRoundTrip(b: Bookmark)
    ensures WellTyped(AsDict(b)) && FromDict(AsDict(b)) == b
  {
  }
}
