/**
 * The bookmark and highlight store of the Read activity (readdb.py): a
 * cache of the current book's bookmarks, kept ordered by page and rebuilt
 * from the bookmarks table after every insertion, the page lookups with
 * wrap-around, the merge of bookmarks shared by other readers, and the
 * per-page highlight lists.  The SQLite tables are sequences of rows; a
 * query is the function of the table it selects.
 */
module ReadDb {
  import opened Wrappers
  import opened Builtins
  import opened ReadBookmark

  /** A highlight: the start and end offsets of the marked text. */
  datatype Highlight = Highlight(init: int, end: int)

  /** A row of the highlights table: md5, page, init_pos, end_pos. */
  type HighlightRow = (string, int, int, int)

  // ---------------------------------------------------------------------
  // The bookmark query: `select * from bookmarks where md5=? order by page`

  function Select(table: seq<Row>, md5: string): seq<Row> {
    if table == [] then []
    else
      var rest := Select(table[..|table| - 1], md5);
      if table[|table| - 1].0 == md5 then rest + [table[|table| - 1]] else rest
  }

  /** The query returns exactly the book's rows, each as often as the table holds it. */
  lemma {:induction false} SelectContents(table: seq<Row>, md5: string)
    ensures forall x :: x in Select(table, md5) <==> x in table && x.0 == md5
    ensures multiset(Select(table, md5)) <= multiset(table)
  {
    if table != [] {
      SelectContents(table[..|table| - 1], md5);
      assert table == table[..|table| - 1] + [table[|table| - 1]];
    }
  }

  ghost predicate SortedByPage(s: seq<Row>) {
    forall i, j :: 0 <= i < j < |s| ==> s[i].1 <= s[j].1
  }

  /** Insertion after every row of a lower or equal page keeps equal pages in table order. */
  function InsertByPage(r: Row, s: seq<Row>): seq<Row>
    decreases |s|
  {
    if s == [] then [r]
    else if r.1 < s[0].1 then [r] + s
    else [s[0]] + InsertByPage(r, s[1..])
  }

  lemma ConsSorted(a: Row, t: seq<Row>)
    requires SortedByPage(t) && forall x | x in t :: a.1 <= x.1
    ensures SortedByPage([a] + t)
  {
    var u := [a] + t;
    forall i, j | 0 <= i < j < |u|
      ensures u[i].1 <= u[j].1
    {
      assert u[j] == t[j - 1];
      if i > 0 {
        assert u[i] == t[i - 1];
      } else {
        assert t[j - 1] in t;
      }
    }
  }

  lemma {:induction false} InsertByPagePerm(r: Row, s: seq<Row>)
    ensures multiset(InsertByPage(r, s)) == multiset(s) + multiset{r}
    decreases |s|
  {
    if s != [] && r.1 >= s[0].1 {
      InsertByPagePerm(r, s[1..]);
      assert s == [s[0]] + s[1..];
    }
  }

  lemma {:induction false} InsertByPageSorted(r: Row, s: seq<Row>)
    requires SortedByPage(s)
    ensures SortedByPage(InsertByPage(r, s))
    decreases |s|
  {
    if s == [] {
    } else if r.1 < s[0].1 {
      forall x | x in s
        ensures r.1 <= x.1
      {
        var k :| 0 <= k < |s| && s[k] == x;
        assert k == 0 || s[0].1 <= s[k].1;
      }
      ConsSorted(r, s);
    } else {
      var t := InsertByPage(r, s[1..]);
      InsertByPageSorted(r, s[1..]);
      InsertByPagePerm(r, s[1..]);
      forall x | x in t
        ensures s[0].1 <= x.1
      {
        assert x in multiset(t);
        if x != r {
          assert x in multiset(s[1..]);
          var k :| 0 <= k < |s[1..]| && s[1..][k] == x;
          assert s[k + 1] == x;
        }
      }
      assert SortedByPage(s[1..]) by {
        forall i, j | 0 <= i < j < |s[1..]|
          ensures s[1..][i].1 <= s[1..][j].1
        {
          assert s[1..][i] == s[i + 1] && s[1..][j] == s[j + 1];
        }
      }
      ConsSorted(s[0], t);
    }
  }

  /** The rows in page order, as the query returns them. */
  function OrderByPage(rows: seq<Row>): seq<Row>
    decreases |rows|
  {
    if rows == [] then [] else InsertByPage(rows[|rows| - 1], OrderByPage(rows[..|rows| - 1]))
  }

  lemma {:induction false} OrderByPageSorted(rows: seq<Row>)
    ensures SortedByPage(OrderByPage(rows))
    ensures multiset(OrderByPage(rows)) == multiset(rows)
    decreases |rows|
  {
    if rows != [] {
      OrderByPageSorted(rows[..|rows| - 1]);
      InsertByPageSorted(rows[|rows| - 1], OrderByPage(rows[..|rows| - 1]));
      InsertByPagePerm(rows[|rows| - 1], OrderByPage(rows[..|rows| - 1]));
      assert rows == rows[..|rows| - 1] + [rows[|rows| - 1]];
    }
  }

  function Bookmarks(rows: seq<Row>): (r: seq<Bookmark>)
    ensures |r| == |rows| && forall i :: 0 <= i < |rows| ==> r[i] == FromRow(rows[i])
  {
    seq(|rows|, i requires 0 <= i < |rows| => FromRow(rows[i]))
  }

  /** The cache `_populate_bookmarks` builds from the table for the book with hash `md5`. */
  function Cache(table: seq<Row>, md5: string): seq<Bookmark> {
    Bookmarks(OrderByPage(Select(table, md5)))
  }

  /** The row a bookmark was read from. */
  function RowOf(b: Bookmark): (x: Row)
    ensures FromRow(x) == b
  {
    (b.md5, b.pageNo, b.content, b.timestamp, b.nick, b.color, b.local)
  }

  /** The cache holds exactly the book's rows, ordered by page. */
  lemma CacheContents(table: seq<Row>, md5: string)
    ensures var c := Cache(table, md5);
      (forall i, j :: 0 <= i < j < |c| ==> c[i].pageNo <= c[j].pageNo)
      && (forall b :: b in c <==> RowOf(b) in table && b.md5 == md5)
  {
    var o := OrderByPage(Select(table, md5));
    var c := Cache(table, md5);
    OrderByPageSorted(Select(table, md5));
    SelectContents(table, md5);
    forall b
      ensures b in c <==> RowOf(b) in table && b.md5 == md5
    {
      if RowOf(b) in table && b.md5 == md5 {
        assert RowOf(b) in multiset(o);
        var i :| 0 <= i < |o| && o[i] == RowOf(b);
        assert c[i] == b;
      }
      if b in c {
        var i :| 0 <= i < |c| && c[i] == b;
        assert o[i] == RowOf(b);
        assert RowOf(b) in multiset(o);
      }
    }
  }

  // ---------------------------------------------------------------------
  // Page lookups

  /** `get_bookmarks_for_page`: the bookmarks of one page, in cache order. */
  function OnPage(s: seq<Bookmark>, page: int): seq<Bookmark>
  {
    if s == [] then []
    else
      var rest := OnPage(s[..|s| - 1], page);
      if BelongsToPage(s[|s| - 1], page) then rest + [s[|s| - 1]] else rest
  }

  /** A page's bookmarks are every bookmark of that page, as often as the cache holds it, and no other. */
  lemma {:induction false} OnPageContents(s: seq<Bookmark>, page: int)
    ensures forall b :: multiset(OnPage(s, page))[b] == if b.pageNo == page then multiset(s)[b] else 0
  {
    if s != [] {
      OnPageContents(s[..|s| - 1], page);
      assert s == s[..|s| - 1] + [s[|s| - 1]];
    }
  }

  /** The pages holding a bookmark. */
  function Pages(s: seq<Bookmark>): set<int> {
    set b | b in s :: b.pageNo
  }

  /** The first bookmark of page `page` in cache order (the inner loops of the two lookups). */
  function FirstOnPage(s: seq<Bookmark>, page: int): (r: Option<Bookmark>)
    ensures r.None? <==> page !in Pages(s)
    ensures r.Some? ==> r.value in s && r.value.pageNo == page
  {
    if s == [] then None
    else if BelongsToPage(s[0], page) then Some(s[0])
    else
      var r := FirstOnPage(s[1..], page);
      assert s == [s[0]] + s[1..];
      r
  }

  /** The first page from `q` down to 0 that holds a bookmark (`range(page - 1, -1, -1)`). */
  function PrevPageFrom(s: seq<Bookmark>, q: int): (r: Option<int>)
    ensures r.Some? ==> 0 <= r.value <= q && r.value in Pages(s)
    ensures r.Some? ==> forall p :: r.value < p <= q ==> p !in Pages(s)
    ensures r.None? ==> forall p :: 0 <= p <= q ==> p !in Pages(s)
    decreases q + 1
  {
    if q < 0 then None
    else if q in Pages(s) then Some(q)
    else PrevPageFrom(s, q - 1)
  }

  /** The first page from `q` up to `hi` that holds a bookmark (`range(page + 1, last + 1)`). */
  function NextPageFrom(s: seq<Bookmark>, q: int, hi: int): (r: Option<int>)
    ensures r.Some? ==> q <= r.value <= hi && r.value in Pages(s)
    ensures r.Some? ==> forall p :: q <= p < r.value ==> p !in Pages(s)
    ensures r.None? ==> forall p :: q <= p <= hi ==> p !in Pages(s)
    decreases hi - q + 1
  {
    if q > hi then None
    else if q in Pages(s) then Some(q)
    else NextPageFrom(s, q + 1, hi)
  }

  function Lookup(s: seq<Bookmark>, page: Option<int>): Option<Bookmark> {
    if page.None? then None else FirstOnPage(s, page.value)
  }

  /** `get_prev_bookmark_for_page`. */
  function PrevBookmark(s: seq<Bookmark>, page: int, wrap: bool): Option<Bookmark> {
    if s == [] then None
    else if page <= s[0].pageNo && wrap then Some(s[|s| - 1])
    else Lookup(s, PrevPageFrom(s, page - 1))
  }

  /** `get_next_bookmark_for_page`. */
  function NextBookmark(s: seq<Bookmark>, page: int, wrap: bool): Option<Bookmark> {
    if s == [] then None
    else if page >= s[|s| - 1].pageNo && wrap then Some(s[0])
    else Lookup(s, NextPageFrom(s, page + 1, s[|s| - 1].pageNo))
  }

  ghost predicate PageOrdered(s: seq<Bookmark>) {
    forall i, j :: 0 <= i < j < |s| ==> s[i].pageNo <= s[j].pageNo
  }

  /**
   * On a page-ordered cache the previous bookmark is a bookmark of the
   * nearest earlier page (or, wrapping from the first page, the last one),
   * and None only when no bookmark lies before the page and wrap is off.
   */
  lemma PrevBookmarkMeaning(s: seq<Bookmark>, page: int, wrap: bool)
    requires PageOrdered(s) && s != []
    ensures var r := PrevBookmark(s, page, wrap);
      (r.None? <==> !(wrap && page <= s[0].pageNo) && forall b | b in s :: !(0 <= b.pageNo < page))
      && (r.Some? && !(wrap && page <= s[0].pageNo) ==>
            r.value in s && 0 <= r.value.pageNo < page && forall b | b in s :: !(r.value.pageNo < b.pageNo < page))
  {
    var r := PrevBookmark(s, page, wrap);
    if wrap && page <= s[0].pageNo {
    } else {
      var q := PrevPageFrom(s, page - 1);
      if q.None? {
        forall b | b in s
          ensures !(0 <= b.pageNo < page)
        {
          assert b.pageNo in Pages(s);
        }
      } else {
        forall b | b in s
          ensures !(r.value.pageNo < b.pageNo < page)
        {
          assert b.pageNo in Pages(s);
        }
      }
    }
  }

  /**
   * On a page-ordered cache the next bookmark is a bookmark of the nearest
   * later page (or, wrapping from the last page, the first one), and None
   * only when no bookmark lies after the page and wrap is off.
   */
  lemma NextBookmarkMeaning(s: seq<Bookmark>, page: int, wrap: bool)
    requires PageOrdered(s) && s != []
    ensures var r := NextBookmark(s, page, wrap);
      (r.None? <==> !(wrap && page >= s[|s| - 1].pageNo) && forall b | b in s :: b.pageNo <= page)
      && (r.Some? && !(wrap && page >= s[|s| - 1].pageNo) ==>
            r.value in s && page < r.value.pageNo && forall b | b in s :: !(page < b.pageNo < r.value.pageNo))
  {
    var last := s[|s| - 1].pageNo;
    assert forall b | b in s :: b.pageNo <= last;
    var r := NextBookmark(s, page, wrap);
    if !(wrap && page >= last) {
      var q := NextPageFrom(s, page + 1, last);
      forall b | b in s
        ensures q.None? ==> b.pageNo <= page
        ensures q.Some? ==> !(page < b.pageNo < q.value)
      {
        assert b.pageNo in Pages(s);
      }
      if q.None? {
        assert s[|s| - 1] in s;
      }
    }
  }

  // ---------------------------------------------------------------------
  // Merging shared bookmarks

  /** `local` for an incoming bookmark: 1 exactly when it was made by this reader's nick and color. */
  function LocalFor(d: BookmarkDict, user: string, color: string): int
    requires WellTyped(d)
  {
    if PyEq(d.nick, Str(user)) && PyEq(d.color, Str(color)) then 1 else 0
  }

  /** The row `update_bookmarks` inserts for an incoming bookmark. */
  function RowFor(d: BookmarkDict, local: int): Row
    requires WellTyped(d) && d.content.Str?
  {
    (d.md5.s, d.pageNo.i, Some(d.content.s), d.timestamp.r, d.nick.s, d.color.s, local)
  }

  /** Some cached bookmark compares equal to the incoming one. */
  predicate Known(cache: seq<Bookmark>, d: BookmarkDict)
    requires WellTyped(d)
  {
    exists b | b in cache :: CompareEqualToDict(b, d)
  }

  predicate Incoming(list: seq<BookmarkDict>) {
    forall k :: 0 <= k < |list| ==> WellTyped(list[k]) && list[k].content.Str?
  }

  /** What one incoming bookmark adds to the table: its row, unless a cached bookmark equals it. */
  function RowIfNew(cache: seq<Bookmark>, d: BookmarkDict, user: string, color: string): seq<Row>
    requires WellTyped(d) && d.content.Str?
  {
    if Known(cache, d) then [] else [RowFor(d, LocalFor(d, user, color))]
  }

  /** The rows `update_bookmarks` inserts for the first `n` incoming bookmarks: one per bookmark no cached bookmark equals. */
  function NewRows(cache: seq<Bookmark>, list: seq<BookmarkDict>, n: nat, user: string, color: string): (r: seq<Row>)
    requires Incoming(list) && n <= |list|
    ensures |r| <= n && forall k :: 0 <= k < |r| ==> r[k].2.Some?
  {
    if n == 0 then [] else NewRows(cache, list, n - 1, user, color) + RowIfNew(cache, list[n - 1], user, color)
  }

  /**
   * The 'added_bookmark' signals for inserted rows: each row's page counted
   * from one and its note, from which the signal's title is decoded.
   */
  function Signals(rows: seq<Row>): (r: seq<(int, string)>)
    requires forall k :: 0 <= k < |rows| ==> rows[k].2.Some?
    ensures |r| == |rows|
  {
    seq(|rows|, k requires 0 <= k < |rows| => (rows[k].1 + 1, rows[k].2.value))
  }

  lemma SignalsAppend(rows: seq<Row>, row: Row)
    requires (forall k :: 0 <= k < |rows| ==> rows[k].2.Some?) && row.2.Some?
    ensures Signals(rows + [row]) == Signals(rows) + [(row.1 + 1, row.2.value)]
  {
  }

  /** Incoming bookmarks already in the cache are not inserted again; every other one is. */
  lemma {:induction false} NewRowsAreNew(cache: seq<Bookmark>, list: seq<BookmarkDict>, n: nat, user: string, color: string)
    requires Incoming(list) && n <= |list|
    ensures forall r | r in NewRows(cache, list, n, user, color) ::
      exists k :: 0 <= k < n && !Known(cache, list[k]) && r == RowFor(list[k], LocalFor(list[k], user, color))
    ensures forall k :: 0 <= k < n && !Known(cache, list[k]) ==>
      RowFor(list[k], LocalFor(list[k], user, color)) in NewRows(cache, list, n, user, color)
  {
    if n > 0 {
      NewRowsAreNew(cache, list, n - 1, user, color);
    }
  }

  /**
   * A bookmark another reader made is shared with local = 1 but stored here
   * with local = 0, so the next merge of the same dictionary no longer
   * recognises it and inserts it again, however often it is merged.
   */
  lemma PeerBookmarkInsertedAgain(table: seq<Row>, md5: string, d: BookmarkDict, user: string, color: string)
    requires WellTyped(d) && d.content.Str? && d.md5 == Str(md5) && d.local == Int(1) && d.nick != Str(user)
    requires !Known(Cache(table, md5), d)
    ensures var row := RowFor(d, 0);
      NewRows(Cache(table, md5), [d], 1, user, color) == [row]
      && NewRows(Cache(table + [row], md5), [d], 1, user, color) == [row]
  {
    var row := RowFor(d, 0);
    assert LocalFor(d, user, color) == 0;
    var t := table + [row];
    CacheContents(t, md5);
    CacheContents(table, md5);
    forall b | b in Cache(t, md5)
      ensures !CompareEqualToDict(b, d)
    {
      if RowOf(b) != row {
        assert b in Cache(table, md5);
      }
    }
  }

  /** Whether the intended merge recognises an incoming bookmark: its `local` is the one it would be stored with. */
  predicate KnownIntended(cache: seq<Bookmark>, d: BookmarkDict, user: string, color: string)
    requires WellTyped(d)
  {
    Known(cache, d.(local := Int(LocalFor(d, user, color))))
  }

  /** The rows the intended merge inserts for the first `n` incoming bookmarks: one per bookmark not already stored. */
  function IntendedNewRows(cache: seq<Bookmark>, list: seq<BookmarkDict>, n: nat, user: string, color: string): (r: seq<Row>)
    requires Incoming(list) && n <= |list|
    ensures |r| <= n
  {
    if n == 0 then []
    else
      var d := list[n - 1];
      var rest := IntendedNewRows(cache, list, n - 1, user, color);
      if KnownIntended(cache, d, user, color) then rest else rest + [RowFor(d, LocalFor(d, user, color))]
  }

  /** Every incoming bookmark is in the cache once the intended merge's rows are in the table. */
  lemma {:induction false} IntendedRowsKnown(table: seq<Row>, md5: string, list: seq<BookmarkDict>,
                                             user: string, color: string, k: nat)
    requires Incoming(list) && k < |list| && list[k].md5 == Str(md5)
    ensures KnownIntended(Cache(table + IntendedNewRows(Cache(table, md5), list, |list|, user, color), md5), list[k], user, color)
  {
    var cache := Cache(table, md5);
    var d := list[k];
    var e := d.(local := Int(LocalFor(d, user, color)));
    var row := RowFor(d, LocalFor(d, user, color));
    var t := table + IntendedNewRows(cache, list, |list|, user, color);
    CacheContents(t, md5);
    if KnownIntended(cache, d, user, color) {
      var b :| b in cache && CompareEqualToDict(b, e);
      CacheContents(table, md5);
      assert b in Cache(t, md5);
    } else {
      IntendedNewRowsHold(cache, list, |list|, user, color, k);
      assert FromRow(row) in Cache(t, md5);
      assert CompareEqualToDict(FromRow(row), e);
    }
  }

  lemma {:induction false} IntendedNewRowsHold(cache: seq<Bookmark>, list: seq<BookmarkDict>, n: nat,
                                               user: string, color: string, k: nat)
    requires Incoming(list) && k < n <= |list| && !KnownIntended(cache, list[k], user, color)
    ensures RowFor(list[k], LocalFor(list[k], user, color)) in IntendedNewRows(cache, list, n, user, color)
  {
    if k < n - 1 {
      IntendedNewRowsHold(cache, list, n - 1, user, color, k);
    }
  }

  /** With the intended comparison, merging the same bookmarks of this book a second time inserts nothing. */
  lemma {:induction false} IntendedMergeIdempotent(table: seq<Row>, md5: string, list: seq<BookmarkDict>,
                                                   user: string, color: string, n: nat)
    requires Incoming(list) && n <= |list| && forall k :: 0 <= k < |list| ==> list[k].md5 == Str(md5)
    ensures var t := table + IntendedNewRows(Cache(table, md5), list, |list|, user, color);
      IntendedNewRows(Cache(t, md5), list, n, user, color) == []
  {
    if n > 0 {
      IntendedMergeIdempotent(table, md5, list, user, color, n - 1);
      IntendedRowsKnown(table, md5, list, user, color, n - 1);
    }
  }

  // ---------------------------------------------------------------------
  // Highlights

  /** The list `get_highlights(page)` returns: the stored one, or a new empty one. */
  function Stored(m: map<int, seq<Highlight>>, page: int): seq<Highlight> {
    if page in m then m[page] else []
  }

  /** The highlights of the book's table rows, in table order. */
  function HighlightQuery(rows: seq<HighlightRow>, md5: string): seq<HighlightRow> {
    if rows == [] then []
    else
      var rest := HighlightQuery(rows[..|rows| - 1], md5);
      if rows[|rows| - 1].0 == md5 then rest + [rows[|rows| - 1]] else rest
  }

  /** `_populate_highlights`: each row's highlight appended to its page's list. */
  function Group(m: map<int, seq<Highlight>>, rows: seq<HighlightRow>): map<int, seq<Highlight>> {
    if rows == [] then m
    else
      var g := Group(m, rows[..|rows| - 1]);
      var r := rows[|rows| - 1];
      g[r.1 := Stored(g, r.1) + [Highlight(r.2, r.3)]]
  }

  /** The highlights the rows give one page, in row order. */
  function RowsOnPage(rows: seq<HighlightRow>, page: int): seq<Highlight> {
    if rows == [] then []
    else
      var rest := RowsOnPage(rows[..|rows| - 1], page);
      var r := rows[|rows| - 1];
      if r.1 == page then rest + [Highlight(r.2, r.3)] else rest
  }

  /** After populating, each page's list is what it held followed by that page's rows, in order. */
  lemma {:induction false} GroupByPage(m: map<int, seq<Highlight>>, rows: seq<HighlightRow>, page: int)
    ensures Stored(Group(m, rows), page) == Stored(m, page) + RowsOnPage(rows, page)
    ensures page in Group(m, rows) <==> page in m || RowsOnPage(rows, page) != []
  {
    if rows != [] {
      GroupByPage(m, rows[..|rows| - 1], page);
    }
  }

  /** `highlights_stored` after the new highlights of one page: each appended unless already there. */
  function AddNew(stored: seq<Highlight>, hs: seq<Highlight>, n: nat): (r: seq<Highlight>)
    requires n <= |hs|
    ensures stored <= r
  {
    if n == 0 then stored
    else
      var prev := AddNew(stored, hs, n - 1);
      if hs[n - 1] in prev then prev else prev + [hs[n - 1]]
  }

  /** The page's list afterwards holds exactly what it held and the shared highlights, each once more at most. */
  lemma {:induction false} AddNewContents(stored: seq<Highlight>, hs: seq<Highlight>, n: nat)
    requires n <= |hs|
    ensures forall h :: h in AddNew(stored, hs, n) <==> h in stored || h in hs[..n]
  {
    if n > 0 {
      AddNewContents(stored, hs, n - 1);
      assert hs[..n] == hs[..n - 1] + [hs[n - 1]];
    }
  }

  lemma {:induction false} AddNewKnown(stored: seq<Highlight>, hs: seq<Highlight>, n: nat)
    requires n <= |hs| && forall h | h in hs :: h in stored
    ensures AddNew(stored, hs, n) == stored
  {
    if n > 0 {
      AddNewKnown(stored, hs, n - 1);
    }
  }

  predicate DecimalKey(k: string) {
    |k| > 0 && forall i :: 0 <= i < |k| ==> '0' <= k[i] <= '9'
  }

  predicate DecimalKeys(d: seq<(string, seq<Highlight>)>) {
    forall i :: 0 <= i < |d| ==> DecimalKey(d[i].0)
  }

  /** `update_highlights`: the first `n` shared pages (keys as JSON strings) merged into the store in order. */
  function Merge(m: map<int, seq<Highlight>>, d: seq<(string, seq<Highlight>)>, n: nat): map<int, seq<Highlight>>
    requires DecimalKeys(d) && n <= |d|
  {
    if n == 0 then m else MergePageInto(Merge(m, d, n - 1), DecimalValue(d[n - 1].0), d[n - 1].1)
  }

  /** One shared page merged: its list extended by the highlights it does not hold yet. */
  function MergePageInto(m: map<int, seq<Highlight>>, page: int, hs: seq<Highlight>): map<int, seq<Highlight>>
  {
    m[page := AddNew(Stored(m, page), hs, |hs|)]
  }

  /** Merging a page keeps its list as a prefix, adds exactly the shared highlights, and leaves other pages alone. */
  lemma MergePageIntoMeaning(m: map<int, seq<Highlight>>, page: int, hs: seq<Highlight>)
    ensures var r := MergePageInto(m, page, hs);
      r.Keys == m.Keys + {page} && Stored(m, page) <= r[page]
      && (forall h :: h in r[page] <==> h in Stored(m, page) || h in hs)
      && (forall p | p in m && p != page :: r[p] == m[p])
  {
    AddNewContents(Stored(m, page), hs, |hs|);
    assert hs[..|hs|] == hs;
  }

  /** The rows inserted when one shared page is merged: one per highlight it adds. */
  function PageRows(m: map<int, seq<Highlight>>, page: int, hs: seq<Highlight>, md5: string): seq<HighlightRow>
  {
    var stored := Stored(m, page);
    RowsOf(md5, page, AddNew(stored, hs, |hs|)[|stored|..])
  }

  /** The table rows `add_highlight` inserts for highlights of one page. */
  function RowsOf(md5: string, page: int, hs: seq<Highlight>): (r: seq<HighlightRow>)
    ensures |r| == |hs| && forall k :: 0 <= k < |hs| ==> r[k] == (md5, page, hs[k].init, hs[k].end)
  {
    seq(|hs|, k requires 0 <= k < |hs| => (md5, page, hs[k].init, hs[k].end))
  }

  /** One more highlight kept past the stored ones adds its one row. */
  lemma RowsOfStep(md5: string, page: int, stored: seq<Highlight>, cur: seq<Highlight>, h: Highlight)
    requires |stored| <= |cur|
    ensures RowsOf(md5, page, (cur + [h])[|stored|..]) == RowsOf(md5, page, cur[|stored|..]) + [(md5, page, h.init, h.end)]
  {
    assert (cur + [h])[|stored|..] == cur[|stored|..] + [h];
  }

  /** The rows `update_highlights` inserts into the highlights table: those of each newly added highlight. */
  function MergeRows(m: map<int, seq<Highlight>>, d: seq<(string, seq<Highlight>)>, n: nat, md5: string): seq<HighlightRow>
    requires DecimalKeys(d) && n <= |d|
  {
    if n == 0 then []
    else MergeRows(m, d, n - 1, md5) + PageRows(Merge(m, d, n - 1), DecimalValue(d[n - 1].0), d[n - 1].1, md5)
  }

  /** One more shared page: the merge and its rows advance by that page. */
  lemma MergeStep(m: map<int, seq<Highlight>>, d: seq<(string, seq<Highlight>)>, i: nat, md5: string)
    requires DecimalKeys(d) && i < |d|
    ensures Merge(m, d, i + 1) == MergePageInto(Merge(m, d, i), DecimalValue(d[i].0), d[i].1)
    ensures MergeRows(m, d, i + 1, md5) == MergeRows(m, d, i, md5) + PageRows(Merge(m, d, i), DecimalValue(d[i].0), d[i].1, md5)
  {
  }

  /** A merge only adds pages and only extends their lists. */
  lemma {:induction false} MergeGrows(m: map<int, seq<Highlight>>, d: seq<(string, seq<Highlight>)>, n: nat, page: int)
    requires DecimalKeys(d) && n <= |d|
    ensures page in Merge(m, d, n) ==> page in Merge(m, d, |d|) && Merge(m, d, n)[page] <= Merge(m, d, |d|)[page]
    decreases |d| - n
  {
    if n < |d| {
      MergeGrows(m, d, n + 1, page);
      MergePageIntoMeaning(Merge(m, d, n), DecimalValue(d[n].0), d[n].1);
    }
  }

  /** After a merge, every shared highlight is stored under its page. */
  lemma MergeCovers(m: map<int, seq<Highlight>>, d: seq<(string, seq<Highlight>)>, k: nat)
    requires DecimalKeys(d) && k < |d|
    ensures var page := DecimalValue(d[k].0);
      page in Merge(m, d, |d|) && forall h | h in d[k].1 :: h in Merge(m, d, |d|)[page]
  {
    var page := DecimalValue(d[k].0);
    MergePageIntoMeaning(Merge(m, d, k), page, d[k].1);
    MergeGrows(m, d, k + 1, page);
  }

  /** Merging what is already merged changes nothing. */
  lemma {:induction false} MergeIdempotent(m: map<int, seq<Highlight>>, d: seq<(string, seq<Highlight>)>, n: nat)
    requires DecimalKeys(d) && n <= |d|
    ensures Merge(Merge(m, d, |d|), d, n) == Merge(m, d, |d|)
  {
    if n > 0 {
      var big := Merge(m, d, |d|);
      var page, hs := DecimalValue(d[n - 1].0), d[n - 1].1;
      MergeIdempotent(m, d, n - 1);
      MergeCovers(m, d, n - 1);
      AddNewKnown(Stored(big, page), hs, |hs|);
      assert MergePageInto(big, page, hs) == big[page := big[page]];
    }
  }

  /** Merging what is already merged inserts no row into the table. */
  lemma {:induction false} MergeAgainInsertsNothing(m: map<int, seq<Highlight>>, d: seq<(string, seq<Highlight>)>, n: nat, md5: string)
    requires DecimalKeys(d) && n <= |d|
    ensures MergeRows(Merge(m, d, |d|), d, n, md5) == []
  {
    if n > 0 {
      var big := Merge(m, d, |d|);
      var page, hs := DecimalValue(d[n - 1].0), d[n - 1].1;
      MergeAgainInsertsNothing(m, d, n - 1, md5);
      MergeIdempotent(m, d, n - 1);
      MergeCovers(m, d, n - 1);
      AddNewKnown(Stored(big, page), hs, |hs|);
      assert PageRows(big, page, hs, md5) == [];
    }
  }

  // ---------------------------------------------------------------------
  // The store

  /** `list.remove(h)`: the first occurrence of `h` taken out. */
  function RemoveFirst(s: seq<Highlight>, h: Highlight): (r: seq<Highlight>)
    requires h in s
    ensures |r| == |s| - 1 && multiset(r) == multiset(s) - multiset{h}
  {
    assert s == [s[0]] + s[1..];
    if s[0] == h then s[1..] else [s[0]] + RemoveFirst(s[1..], h)
  }

  /** `delete from highlights where ...`: every row equal to `x` goes. */
  function Without(rows: seq<HighlightRow>, x: HighlightRow): seq<HighlightRow> {
    if rows == [] then []
    else
      var rest := Without(rows[..|rows| - 1], x);
      if rows[|rows| - 1] == x then rest else rest + [rows[|rows| - 1]]
  }

  /** The delete removes every row equal to `x` and keeps every other row. */
  lemma {:induction false} WithoutContents(rows: seq<HighlightRow>, x: HighlightRow)
    ensures forall y :: y in Without(rows, x) <==> y in rows && y != x
  {
    if rows != [] {
      WithoutContents(rows[..|rows| - 1], x);
      assert rows == rows[..|rows| - 1] + [rows[|rows| - 1]];
    }
  }

  class BookmarkManager {
    /** The hash of the open book. */
    const filehash: string
    /** This reader's nick and color. */
    const user: string
    const color: string
    /** The bookmarks table, for every book. */
    var table: seq<Row>
    /** `_bookmarks`: this book's bookmarks. */
    var bookmarks: seq<Bookmark>
    /** The highlights table, for every book. */
    var hlTable: seq<HighlightRow>
    /** `_highlights`: this book's highlights by page. */
    var highlights: map<int, seq<Highlight>>
    /** The 'added_bookmark' signals emitted, in order. */
    var added: seq<(int, string)>

    /** The cache is the table's query result for this book. */
    ghost predicate Valid()
      reads this`bookmarks, this`table
    {
      bookmarks == Cache(table, filehash)
    }

    /** `__init__`: both caches filled from the tables, the highlights starting from {0: []}. */
    constructor (hash: string, nick: string, userColor: string, bookmarksTable: seq<Row>, highlightsTable: seq<HighlightRow>)
      ensures Valid() && filehash == hash && user == nick && color == userColor
      ensures table == bookmarksTable && hlTable == highlightsTable && added == []
      ensures highlights == Group(map[0 := []], HighlightQuery(highlightsTable, hash))
    {
      filehash := hash;
      user := nick;
      color := userColor;
      table := bookmarksTable;
      hlTable := highlightsTable;
      bookmarks := [];
      highlights := map[];
      added := [];
      new;
      PopulateBookmarks();
      highlights := map[0 := []];
      PopulateHighlights();
    }

    /** `_populate_bookmarks`: the book's rows, in page order, appended to the cache. */
    method PopulateBookmarks()
      modifies this`bookmarks
      ensures bookmarks == old(bookmarks) + Cache(table, filehash)
    {
      var rows := OrderByPage(Select(table, filehash));
      ghost var b0 := bookmarks;
      var i := 0;
      while i < |rows|
        invariant 0 <= i <= |rows|
        invariant bookmarks == b0 + Bookmarks(rows[..i])
      {
        ghost var done := Bookmarks(rows[..i]);
        assert Bookmarks(rows[..i + 1]) == done + [FromRow(rows[i])];
        assert (b0 + done) + [FromRow(rows[i])] == b0 + (done + [FromRow(rows[i])]);
        bookmarks := bookmarks + [FromRow(rows[i])];
        i := i + 1;
      }
      assert rows[..i] == rows;
    }

    /** `_resync_bookmark_cache`. */
    method ResyncBookmarkCache()
      modifies this`bookmarks
      ensures Valid()
    {
      bookmarks := [];
      PopulateBookmarks();
    }

    /** `get_bookmarks_for_page`. */
    method GetBookmarksForPage(page: int) returns (r: seq<Bookmark>)
      ensures r == OnPage(bookmarks, page)
    {
      r := [];
      var i := 0;
      while i < |bookmarks|
        invariant 0 <= i <= |bookmarks|
        invariant r == OnPage(bookmarks[..i], page)
      {
        assert bookmarks[..i + 1][..i] == bookmarks[..i];
        if BelongsToPage(bookmarks[i], page) {
          r := r + [bookmarks[i]];
        }
        i := i + 1;
      }
      assert bookmarks[..i] == bookmarks;
    }

    /** The inner loop of the two lookups: the first cached bookmark of a page. */
    method FindOnPage(page: int) returns (r: Option<Bookmark>)
      ensures r == FirstOnPage(bookmarks, page)
    {
      var i := 0;
      while i < |bookmarks|
        invariant 0 <= i <= |bookmarks|
        invariant FirstOnPage(bookmarks, page) == FirstOnPage(bookmarks[i..], page)
      {
        if BelongsToPage(bookmarks[i], page) {
          return Some(bookmarks[i]);
        }
        assert bookmarks[i..][1..] == bookmarks[i + 1..];
        i := i + 1;
      }
      return None;
    }

    /** `get_prev_bookmark_for_page`. */
    method GetPrevBookmarkForPage(page: int, wrap: bool) returns (r: Option<Bookmark>)
      ensures r == PrevBookmark(bookmarks, page, wrap)
    {
      if |bookmarks| == 0 {
        return None;
      }
      if page <= bookmarks[0].pageNo && wrap {
        return Some(bookmarks[|bookmarks| - 1]);
      }
      var i := page - 1;
      while i >= 0
        invariant i <= page - 1
        invariant PrevPageFrom(bookmarks, page - 1) == PrevPageFrom(bookmarks, i)
        decreases i + 1
      {
        r := FindOnPage(i);
        if r.Some? {
          return;
        }
        i := i - 1;
      }
      return None;
    }

    /** `get_next_bookmark_for_page`. */
    method GetNextBookmarkForPage(page: int, wrap: bool) returns (r: Option<Bookmark>)
      ensures r == NextBookmark(bookmarks, page, wrap)
    {
      if |bookmarks| == 0 {
        return None;
      }
      var last := bookmarks[|bookmarks| - 1].pageNo;
      if page >= last && wrap {
        return Some(bookmarks[0]);
      }
      var i := page + 1;
      while i < last + 1
        invariant page + 1 <= i
        invariant NextPageFrom(bookmarks, page + 1, last) == NextPageFrom(bookmarks, i, last)
        decreases last + 1 - i
      {
        r := FindOnPage(i);
        if r.Some? {
          return;
        }
        i := i + 1;
      }
      return None;
    }

    /** The inner loop of `update_bookmarks`: some cached bookmark equals the incoming one. */
    method IsKnown(d: BookmarkDict) returns (found: bool)
      requires WellTyped(d)
      ensures found == Known(bookmarks, d)
    {
      var j := 0;
      while j < |bookmarks|
        invariant 0 <= j <= |bookmarks|
        invariant forall k :: 0 <= k < j ==> !CompareEqualToDict(bookmarks[k], d)
      {
        if CompareEqualToDict(bookmarks[j], d) {
          return true;
        }
        j := j + 1;
      }
      return false;
    }

    /**
     * The loop of `update_bookmarks`: every shared bookmark no cached bookmark
     * equals is inserted, marked local when it carries this reader's nick and
     * color, and announced.  The cache is not rebuilt between insertions.
     * The rows and signals are gathered and then appended, since nothing
     * reads the table or the signals in between.
     */
    method InsertUnknown(list: seq<BookmarkDict>) returns (needResync: bool)
      requires Incoming(list)
      modifies this`table, this`added
      ensures table == old(table) + NewRows(bookmarks, list, |list|, user, color)
      ensures added == old(added) + Signals(NewRows(bookmarks, list, |list|, user, color))
      ensures needResync <==> |table| > |old(table)|
    {
      var rows: seq<Row> := [];
      var signals: seq<(int, string)> := [];
      var i := 0;
      while i < |list|
        invariant 0 <= i <= |list| && table == old(table) && added == old(added)
        invariant rows == NewRows(bookmarks, list, i, user, color)
        invariant signals == Signals(rows)
      {
        var d := list[i];
        var found := IsKnown(d);
        assert NewRows(bookmarks, list, i + 1, user, color) == rows + RowIfNew(bookmarks, d, user, color);
        if !found {
          var row := RowFor(d, LocalFor(d, user, color));
          SignalsAppend(rows, row);
          rows := rows + [row];
          signals := signals + [(d.pageNo.i + 1, d.content.s)];
        }
        i := i + 1;
      }
      table := table + rows;
      added := added + signals;
      needResync := |rows| > 0;
    }

    /** `update_bookmarks`: the unknown shared bookmarks inserted, then the cache rebuilt once if any was. */
    method UpdateBookmarks(list: seq<BookmarkDict>)
      requires Valid() && Incoming(list)
      modifies this`table, this`bookmarks, this`added
      ensures Valid()
      ensures table == old(table) + NewRows(old(bookmarks), list, |list|, user, color)
      ensures added == old(added) + Signals(NewRows(old(bookmarks), list, |list|, user, color))
    {
      var needResync := InsertUnknown(list);
      if needResync {
        ResyncBookmarkCache();
      } else {
        assert table == old(table);
      }
    }

    /** `get_highlights`: an unseen page gets a stored empty list. */
    method GetHighlights(page: int) returns (r: seq<Highlight>)
      modifies this`highlights
      ensures r == Stored(old(highlights), page)
      ensures highlights == old(highlights)[page := r]
    {
      if page in highlights {
        return highlights[page];
      }
      highlights := highlights[page := []];
      return [];
    }

    /** `add_highlight`: appended to its page's list and inserted into the table. */
    method AddHighlight(page: int, h: Highlight)
      modifies this`highlights, this`hlTable
      ensures highlights == old(highlights)[page := Stored(old(highlights), page) + [h]]
      ensures hlTable == old(hlTable) + [(filehash, page, h.init, h.end)]
    {
      var stored := GetHighlights(page);
      highlights := highlights[page := stored + [h]];
      hlTable := hlTable + [(filehash, page, h.init, h.end)];
    }

    /**
     * `del_highlight`: the first equal highlight leaves its page's list, and
     * every equal row of this book's page leaves the table.
     */
    method DelHighlight(page: int, h: Highlight)
      requires page in highlights && h in highlights[page]
      modifies this`highlights, this`hlTable
      ensures highlights == old(highlights)[page := RemoveFirst(old(highlights)[page], h)]
      ensures hlTable == Without(old(hlTable), (filehash, page, h.init, h.end))
    {
      highlights := highlights[page := RemoveFirst(highlights[page], h)];
      hlTable := Without(hlTable, (filehash, page, h.init, h.end));
    }

    /** `_populate_highlights`: each of the book's rows appended to its page's list. */
    method PopulateHighlights()
      modifies this`highlights
      ensures highlights == Group(old(highlights), HighlightQuery(hlTable, filehash))
    {
      var rows := HighlightQuery(hlTable, filehash);
      var i := 0;
      while i < |rows|
        invariant 0 <= i <= |rows|
        invariant highlights == Group(old(highlights), rows[..i])
      {
        assert rows[..i + 1][..i] == rows[..i];
        var stored := GetHighlights(rows[i].1);
        highlights := highlights[rows[i].1 := stored + [Highlight(rows[i].2, rows[i].3)]];
        i := i + 1;
      }
      assert rows[..i] == rows;
    }

    /** The inner loop of `update_highlights`: one shared page's highlights added unless stored. */
    method MergePage(page: int, hs: seq<Highlight>)
      modifies this`highlights, this`hlTable
      ensures highlights == MergePageInto(old(highlights), page, hs)
      ensures hlTable == old(hlTable) + PageRows(old(highlights), page, hs, filehash)
    {
      ghost var g := highlights;
      ghost var rows0 := hlTable;
      var stored := GetHighlights(page);
      var j := 0;
      while j < |hs|
        invariant 0 <= j <= |hs|
        invariant highlights == g[page := AddNew(stored, hs, j)]
        invariant hlTable == rows0 + RowsOf(filehash, page, AddNew(stored, hs, j)[|stored|..])
      {
        ghost var cur := AddNew(stored, hs, j);
        if hs[j] !in highlights[page] {
          AddHighlight(page, hs[j]);
          RowsOfStep(filehash, page, stored, cur, hs[j]);
          ghost var done := RowsOf(filehash, page, cur[|stored|..]);
          ghost var row := (filehash, page, hs[j].init, hs[j].end);
          assert (rows0 + done) + [row] == rows0 + (done + [row]);
        }
        j := j + 1;
      }
    }

    /** The body of `update_highlights`' loop: shared page `i` merged after pages 0..i-1. */
    method MergeShared(d: seq<(string, seq<Highlight>)>, i: nat, ghost m0: map<int, seq<Highlight>>, ghost t0: seq<HighlightRow>)
      requires DecimalKeys(d) && i < |d|
      requires highlights == Merge(m0, d, i) && hlTable == t0 + MergeRows(m0, d, i, filehash)
      modifies this`highlights, this`hlTable
      ensures highlights == Merge(m0, d, i + 1) && hlTable == t0 + MergeRows(m0, d, i + 1, filehash)
    {
      var page := DecimalValue(d[i].0);
      MergeStep(m0, d, i, filehash);
      ghost var done := MergeRows(m0, d, i, filehash);
      ghost var rows := PageRows(highlights, page, d[i].1, filehash);
      MergePage(page, d[i].1);
      assert (t0 + done) + rows == t0 + (done + rows);
    }

    /**
     * `update_highlights`: for each shared page (its key read as a decimal
     * number) every highlight not yet in the page's list is added; the list
     * checked is the stored one, so it sees the highlights added before it.
     */
    method UpdateHighlights(d: seq<(string, seq<Highlight>)>)
      requires DecimalKeys(d)
      modifies this`highlights, this`hlTable
      ensures highlights == Merge(old(highlights), d, |d|)
      ensures hlTable == old(hlTable) + MergeRows(old(highlights), d, |d|, filehash)
    {
      ghost var m0 := highlights;
      ghost var t0 := hlTable;
      var i := 0;
      while i < |d|
        invariant 0 <= i <= |d|
        invariant highlights == Merge(m0, d, i)
        invariant hlTable == t0 + MergeRows(m0, d, i, filehash)
      {
        MergeShared(d, i, m0, t0);
        i := i + 1;
      }
    }
  }
}
