/**
 * The plain-text back end of the Read activity (textadapter.py): the file
 * is cut into pages of 38 weighted lines while it is loaded, a page is shown
 * by reading lines again from the page's byte offset, and the view scrolls
 * within a page before it turns to the next or previous one. Font-size
 * zooming changes the size by one point at a time.
 *
 * The open file is its text `content` (one char per byte); `readline`
 * from a position returns everything up to and including the next newline,
 * or the rest of the file, and `tell` is the position after it.
 */
module TextAdapter {
  import opened Wrappers
  import opened Builtins

  /** Weighted lines per page. */
  const PAGE_SIZE: nat := 38
  /** A line counts once more for every full 80 characters. */
  const LINE_WIDTH: nat := 80
  /** The padding put before and after the text of a page. */
  const PADDING := "\n\n\n"

  // ---------------------------------------------------------------------
  // Reading lines

  /** `e` ends the line that starts at `pos`: just after the first newline, or at the end of the file. */
  predicate IsLineEnd(s: string, pos: nat, e: nat) {
    pos < e <= |s| && (e == |s| || s[e - 1] == '\n') && forall k :: pos <= k < e - 1 ==> s[k] != '\n'
  }

  lemma {:induction false} LineEndExists(s: string, pos: nat)
    requires pos < |s|
    ensures exists e :: IsLineEnd(s, pos, e)
    decreases |s| - pos
  {
    if s[pos] == '\n' || pos + 1 == |s| {
      assert IsLineEnd(s, pos, pos + 1);
    } else {
      LineEndExists(s, pos + 1);
      var e :| IsLineEnd(s, pos + 1, e);
      assert IsLineEnd(s, pos, e);
    }
  }

  /** A line has one end. */
  lemma LineEndUnique(s: string, pos: nat, e1: nat, e2: nat)
    requires IsLineEnd(s, pos, e1) && IsLineEnd(s, pos, e2)
    ensures e1 == e2
  {
  }

  /** The position after the line that starts at `pos` (`pos` itself at the end of the file). */
  ghost function LineEnd(s: string, pos: nat): (e: nat)
    requires pos <= |s|
    ensures pos <= e <= |s|
    ensures pos < |s| ==> IsLineEnd(s, pos, e)
  {
    if pos == |s| then pos
    else
      LineEndExists(s, pos);
      var e :| IsLineEnd(s, pos, e);
      e
  }

  /** `readline()` with the file at `pos`: empty exactly at the end of the file. */
  ghost function ReadLine(s: string, pos: nat): (line: string)
    requires pos <= |s|
    ensures line == s[pos..LineEnd(s, pos)]
    ensures line == "" <==> pos == |s|
  {
    s[pos..LineEnd(s, pos)]
  }

  /** The file object's `readline`: the characters up to and including the next newline. */
  method ReadLineAt(s: string, pos: nat) returns (line: string)
    requires pos <= |s|
    ensures line == ReadLine(s, pos)
  {
    var e := pos;
    while e < |s| && s[e] != '\n'
      invariant pos <= e <= |s|
      invariant forall k :: pos <= k < e ==> s[k] != '\n'
    {
      e := e + 1;
    }
    if e < |s| {
      e := e + 1;
    }
    if pos < |s| {
      LineEndUnique(s, pos, e, LineEnd(s, pos));
    }
    line := s[pos..e];
  }

  /**
   * How many lines a line of the file counts for: one more for every full
   * 80 characters (Python 2's `/` on two ints is floor division, Dafny's on
   * naturals too).
   */
  function Weight(line: string): (w: nat)
    ensures w >= 1
  {
    |line| / LINE_WIDTH + 1
  }

  // ---------------------------------------------------------------------
  // The page index

  /**
   * The page breaks `load_document` records from position `pos` on, with
   * `count` weighted lines already on the current page: the position after
   * every line that brings the count to PAGE_SIZE or more, the count then
   * starting again from 0.
   */
  ghost function BreaksFrom(s: string, pos: nat, count: nat): seq<nat>
    requires pos <= |s|
    decreases |s| - pos
  {
    if pos == |s| then []
    else
      var e := LineEnd(s, pos);
      var c := count + Weight(s[pos..e]);
      if c >= PAGE_SIZE then [e] + BreaksFrom(s, e, 0) else BreaksFrom(s, e, c)
  }

  /** One line read while loading: a break after it if it fills the page. */
  lemma BreaksStep(s: string, pos: nat, count: nat, line: string)
    requires pos < |s| && line == ReadLine(s, pos)
    ensures count + Weight(line) >= PAGE_SIZE ==>
      BreaksFrom(s, pos, count) == [pos + |line|] + BreaksFrom(s, pos + |line|, 0)
    ensures count + Weight(line) < PAGE_SIZE ==>
      BreaksFrom(s, pos, count) == BreaksFrom(s, pos + |line|, count + Weight(line))
  {
  }

  /** `page_index`: the start of every page, the first at offset 0. */
  ghost function PageIndex(s: string): seq<nat> {
    [0] + BreaksFrom(s, 0, 0)
  }

  /** Offsets after `pos`, within the file, at line ends, in increasing order. */
  predicate LineEndsAfter(s: string, pos: nat, b: seq<nat>) {
    (forall k :: 0 <= k < |b| ==> pos < b[k] <= |s| && (b[k] == |s| || s[b[k] - 1] == '\n'))
    && Increasing(b)
  }

  predicate Increasing(b: seq<nat>) {
    forall j, k :: 0 <= j < k < |b| ==> b[j] < b[k]
  }

  /** A line end before offsets that lie after it. */
  lemma ConsLineEnd(s: string, pos: nat, e: nat, rest: seq<nat>)
    requires pos < e <= |s| && (e == |s| || s[e - 1] == '\n') && LineEndsAfter(s, e, rest)
    ensures LineEndsAfter(s, pos, [e] + rest)
  {
    var b := [e] + rest;
    assert forall k :: 0 < k < |b| ==> b[k] == rest[k - 1];
  }

  /** The breaks lie after `pos`, within the file, at line ends, in increasing order. */
  lemma {:induction false} BreaksShape(s: string, pos: nat, count: nat)
    requires pos <= |s|
    ensures LineEndsAfter(s, pos, BreaksFrom(s, pos, count))
    decreases |s| - pos
  {
    if pos < |s| {
      var e := LineEnd(s, pos);
      var c := count + Weight(s[pos..e]);
      if c >= PAGE_SIZE {
        BreaksShape(s, e, 0);
        assert BreaksFrom(s, pos, count) == [e] + BreaksFrom(s, e, 0);
        ConsLineEnd(s, pos, e, BreaksFrom(s, e, 0));
      } else {
        BreaksShape(s, e, c);
        assert BreaksFrom(s, pos, count) == BreaksFrom(s, e, c);
      }
    }
  }

  /**
   * The page index starts with 0, every later entry is the offset just after
   * a line of the file, and the entries increase strictly.
   */
  lemma PageIndexShape(s: string)
    ensures |PageIndex(s)| >= 1 && PageIndex(s)[0] == 0
    ensures LineEndsAfter(s, 0, PageIndex(s)[1..]) && Increasing(PageIndex(s))
  {
    BreaksShape(s, 0, 0);
    var b, idx := BreaksFrom(s, 0, 0), PageIndex(s);
    assert idx[1..] == b;
    assert forall k :: 0 < k < |idx| ==> idx[k] == b[k - 1];
  }

  /** After the `j`-th break the breaks are those of a fresh page starting there. */
  lemma {:induction false} BreaksSuffix(s: string, pos: nat, count: nat, j: nat)
    requires pos <= |s| && j < |BreaksFrom(s, pos, count)|
    ensures BreaksFrom(s, pos, count)[j] <= |s|
    ensures BreaksFrom(s, pos, count)[j + 1..] == BreaksFrom(s, BreaksFrom(s, pos, count)[j], 0)
    decreases |s| - pos
  {
    var e := LineEnd(s, pos);
    var c := count + Weight(s[pos..e]);
    BreaksShape(s, pos, count);
    if c >= PAGE_SIZE {
      if j > 0 {
        BreaksSuffix(s, e, 0, j - 1);
      }
    } else {
      BreaksSuffix(s, e, c, j);
    }
  }

  // ---------------------------------------------------------------------
  // Showing a page

  /**
   * Where `_show_page`'s reading stops when it starts at `pos` with `count`
   * weighted lines read: once the count reaches PAGE_SIZE, or at the end of the file.
   */
  ghost function ReadPage(s: string, pos: nat, count: nat): (r: nat)
    requires pos <= |s|
    ensures pos <= r <= |s|
    decreases |s| - pos
  {
    if count >= PAGE_SIZE || pos == |s| then pos
    else
      var e := LineEnd(s, pos);
      ReadPage(s, e, count + Weight(s[pos..e]))
  }

  /** Reading a page stops exactly at the next break that loading recorded, or at the end of the file. */
  lemma {:induction false} ReadPageStopsAtBreak(s: string, pos: nat, count: nat)
    requires pos <= |s| && count < PAGE_SIZE
    ensures var b := BreaksFrom(s, pos, count);
      ReadPage(s, pos, count) == if b == [] then |s| else b[0]
    decreases |s| - pos
  {
    if pos < |s| {
      var e := LineEnd(s, pos);
      var c := count + Weight(s[pos..e]);
      if c < PAGE_SIZE {
        ReadPageStopsAtBreak(s, e, c);
      }
    }
  }

  /** Where page `p` ends: at the start of the next page, or at the end of the file for the last one. */
  ghost function PageEnd(s: string, p: nat): (e: nat)
    requires p < |PageIndex(s)|
    ensures PageIndex(s)[p] <= e <= |s|
    ensures p + 1 < |PageIndex(s)| ==> e == PageIndex(s)[p + 1]
    ensures p + 1 == |PageIndex(s)| ==> e == |s|
  {
    PageIndexShape(s);
    if p + 1 < |PageIndex(s)| then PageIndex(s)[p + 1] else |s|
  }

  /** The text of page `p`. */
  ghost function PageText(s: string, p: nat): string
    requires p < |PageIndex(s)|
  {
    var e := PageEnd(s, p);
    s[PageIndex(s)[p]..e]
  }

  /** The page a Python index `p` (negative counts from the end) names among `n` pages. */
  function PageNumber(n: nat, p: int): (q: nat)
    requires -(n as int) <= p < n
    ensures q < n && (p >= 0 ==> q == p) && (p < 0 ==> q == n + p)
  {
    if p < 0 then n + p else p
  }

  /** What the text view shows for a page. */
  function Framed(text: string): string {
    PADDING + text + PADDING
  }

  /**
   * Loading and showing agree: reading from the start of page `p` stops at
   * the start of page `p + 1`, and the last page is read to the end of the file.
   */
  lemma ReadsOnePage(s: string, p: nat)
    requires p < |PageIndex(s)|
    ensures var e := PageEnd(s, p); ReadPage(s, PageIndex(s)[p], 0) == e
  {
    var b := BreaksFrom(s, 0, 0);
    if p == 0 {
      ReadPageStopsAtBreak(s, 0, 0);
    } else {
      BreaksSuffix(s, 0, 0, p - 1);
      ReadPageStopsAtBreak(s, b[p - 1], 0);
      assert PageIndex(s)[p] == b[p - 1];
      if p + 1 < |PageIndex(s)| {
        assert PageIndex(s)[p + 1] == b[p] == b[p..][0];
      }
    }
  }

  /** The first `n` pages one after another. */
  ghost function Pages(s: string, n: nat): string
    requires n <= |PageIndex(s)|
  {
    if n == 0 then "" else Pages(s, n - 1) + PageText(s, n - 1)
  }

  /** The first `n` pages are the text up to the end of page `n - 1`. */
  lemma {:induction false} PagesArePrefix(s: string, n: nat)
    requires 1 <= n <= |PageIndex(s)|
    ensures Pages(s, n) == s[..PageEnd(s, n - 1)]
  {
    if n == 1 {
      assert PageIndex(s)[0] == 0;
    } else {
      PagesArePrefix(s, n - 1);
      var a, b := PageEnd(s, n - 2), PageEnd(s, n - 1);
      assert s[..a] + s[a..b] == s[..b];
    }
  }

  /** All pages one after another are exactly the text of the file: nothing is lost or shown twice. */
  lemma PagesCoverText(s: string)
    ensures Pages(s, |PageIndex(s)|) == s
  {
    PagesArePrefix(s, |PageIndex(s)|);
  }

  // ---------------------------------------------------------------------
  // Scrolling

  /** One line read: the page goes on from the end of that line. */
  lemma ReadPageStep(s: string, pos: nat, count: nat)
    requires pos < |s| && count < PAGE_SIZE
    ensures ReadPage(s, pos, count) == ReadPage(s, LineEnd(s, pos), count + Weight(ReadLine(s, pos)))
  {
  }

  lemma SliceJoin(s: string, a: nat, b: nat, c: nat)
    requires a <= b <= c <= |s|
    ensures s[a..b] + s[b..c] == s[a..c]
  {
  }

  /**
   * The reading loop of `_show_page`: lines from `position` on until
   * PAGE_SIZE weighted lines are read or the file ends.
   */
  method ReadPageText(s: string, position: nat) returns (text: string)
    requires position <= |s|
    ensures text == s[position..ReadPage(s, position, 0)]
  {
    var pos: nat := position;
    var count: nat := 0;
    text := "";
    while count < PAGE_SIZE
      invariant position <= pos <= |s|
      invariant ReadPage(s, pos, count) == ReadPage(s, position, 0)
      invariant text == s[position..pos]
      decreases |s| - pos
    {
      var line := ReadLineAt(s, pos);
      if line == "" {
        break;
      }
      ghost var e := LineEnd(s, pos);
      ReadPageStep(s, pos, count);
      SliceJoin(s, position, pos, e);
      assert pos + |line| == e;
      text := text + line;
      count := count + Weight(line);
      pos := pos + |line|;
    }
  }

  /** The vertical adjustment of the scrolled window. */
  datatype VAdjustment = VAdjustment(value: real, lower: real, upper: real, pageSize: real, stepIncrement: real) {
    /** The largest value the code scrolls to. */
    function Bottom(): real {
      upper - pageSize
    }

    /** GTK's adjustment of a text view: the content at least a page tall, the value within range. */
    predicate Valid() {
      lower <= Bottom() && lower <= value <= Bottom() && stepIncrement >= 0.0
    }
  }

  /**
   * The new value when `scroll` stays on the page: one step up or down,
   * stopped at the top or bottom.
   */
  function Stepped(a: VAdjustment, backward: bool): (v: real)
    requires a.Valid()
    ensures a.lower <= v <= a.Bottom()
    ensures backward ==> v <= a.value && (v == a.lower || v == a.value - a.stepIncrement)
    ensures !backward ==> v >= a.value && (v == a.Bottom() || v == a.value + a.stepIncrement)
  {
    if backward then
      (if a.value - a.stepIncrement < a.lower then a.lower else a.value - a.stepIncrement)
    else
      (if a.value + a.stepIncrement > a.Bottom() then a.Bottom() else a.value + a.stepIncrement)
  }

  /** `scroll` changes page only from this value: the top going back, the bottom going forward. */
  predicate AtBoundary(a: VAdjustment, backward: bool) {
    if backward then a.value == a.lower else a.value == a.Bottom()
  }

  /** A positive factor keeps the sign of what it multiplies. */
  lemma MulPositive(r: real, x: real)
    requires r > 0.0
    ensures x > 0.0 ==> r * x > 0.0
    ensures x == 0.0 ==> r * x == 0.0
    ensures x < 0.0 ==> r * x < 0.0
  {
  }

  /** `b`, a fraction `d` of a positive factor, stays within one factor of zero on the fraction's side. */
  lemma ScaleFraction(r: real, d: real, b: real)
    requires r > 0.0 && b == r * d
    ensures 0.0 <= d < 1.0 ==> 0.0 <= b < r
    ensures -1.0 < d <= 0.0 ==> -r < b <= 0.0
  {
    MulPositive(r, d);
    MulPositive(r, 1.0 - d);
    MulPositive(r, d + 1.0);
    assert r * (1.0 - d) == r - b;
    assert r * (d + 1.0) == b + r;
  }

  /**
   * The size `int(value / relation)` gives: its zoom is within one relation
   * of the value, below it for a non-negative value and above it otherwise.
   */
  lemma ZoomOfTruncatedSize(value: real, relation: int, size: int)
    requires relation > 0 && size == Trunc(value / relation as real)
    ensures value >= 0.0 ==> (relation * size) as real <= value < (relation * size + relation) as real
    ensures value < 0.0 ==> (relation * size - relation) as real < value <= (relation * size) as real
  {
    var r := relation as real;
    var q := value / r;
    var n := size as real;
    assert r * q == value;
    MulPositive(r, q);
    ProductAsReal(relation, size);
    var z, b := r * n, r * (q - n);
    assert value == z + b;
    ScaleFraction(r, q - n, b);
  }

  /** `TextViewer`, from `setup` on. */
  class TextViewer {
    /** The text of the open file. */
    var content: string
    /** `page_index`: the offset at which each page starts. */
    var pageIndex: seq<nat>
    var pagecount: int
    var currentPage: int
    /** The text in the view's buffer. */
    var shown: string
    /** The 'page-changed' emissions, (old page, new page). */
    var changes: seq<(int, int)>
    var vadj: VAdjustment
    var fontSize: int
    /** `_zoom`: the last value `set_zoom` was given (a float from the toolbar) or the zoom of the font size. */
    var zoom: real
    /** `font_zoom_relation`, fixed by `setup`. */
    const relation: int
    /** The 'zoom-changed' emissions. */
    var zoomChanges: seq<int>

    /** A document is loaded: the page index and count are those of its text. */
    ghost predicate Loaded()
      reads this`content, this`pageIndex, this`pagecount
    {
      pageIndex == PageIndex(content) && pagecount == |pageIndex|
    }

    /**
     * `setup`: the font size `style.zoom(10)` gives, zoom 100, and the
     * relation between the two as Python 2 integer division (a size of 0
     * would divide by zero).
     */
    constructor (initialFontSize: int, adjustment: VAdjustment)
      requires initialFontSize > 0
      ensures fontSize == initialFontSize && zoom == 100.0 && relation == FloorDiv(100, initialFontSize)
      ensures currentPage == 0 && vadj == adjustment
      ensures content == "" && pageIndex == [] && shown == "" && changes == [] && zoomChanges == []
    {
      fontSize := initialFontSize;
      zoom := 100.0;
      relation := FloorDiv(100, initialFontSize);
      currentPage := 0;
      vadj := adjustment;
      content := "";
      pageIndex := [];
      shown := "";
      changes := [];
      zoomChanges := [];
    }

    /**
     * `load_document`: the file is read line by line, a page break recorded
     * after every line that brings the weighted count to PAGE_SIZE; then
     * page 0 is shown.
     */
    method LoadDocument(text: string)
      modifies this`content, this`pageIndex, this`pagecount, this`currentPage, this`shown, this`changes
      ensures Loaded() && content == text
      ensures pagecount == |BreaksFrom(text, 0, 0)| + 1
      ensures currentPage == 0 && shown == Framed(PageText(text, 0))
      ensures changes == old(changes) + [(old(currentPage), 0)]
    {
      content := text;
      pageIndex := [0];
      var pages := 0;
      var count: nat := 0;
      var pos: nat := 0;
      while true
        invariant pos <= |text| && content == text
        invariant pageIndex + BreaksFrom(text, pos, count) == PageIndex(text)
        invariant |pageIndex| == pages + 1
        invariant currentPage == old(currentPage) && changes == old(changes)
        decreases |text| - pos
      {
        var line := ReadLineAt(content, pos);
        if line == "" {
          break;
        }
        BreaksStep(text, pos, count, line);
        count := count + Weight(line);
        pos := pos + |line|;
        if count >= PAGE_SIZE {
          assert pageIndex + ([pos] + BreaksFrom(text, pos, 0)) == (pageIndex + [pos]) + BreaksFrom(text, pos, 0);
          pageIndex := pageIndex + [pos];
          count := 0;
          pages := pages + 1;
        }
      }
      pagecount := pages + 1;
      var raised := SetCurrentPage(0);
    }

    /**
     * `_show_page`: page `p` (a negative `p` counting from the end, as a
     * Python index does) is read line by line from its offset until
     * PAGE_SIZE weighted lines are read or the file ends, and shown padded.
     * An index out of range raises IndexError and shows nothing.
     */
    method ShowPage(p: int) returns (raised: bool)
      requires Loaded()
      modifies this`shown
      ensures raised <==> PyIndex(pageIndex, p).None?
      ensures raised ==> shown == old(shown)
      ensures !raised ==> shown == Framed(PageText(content, PageNumber(|pageIndex|, p)))
    {
      if !(-|pageIndex| <= p < |pageIndex|) {
        return true;
      }
      var q := if p < 0 then |pageIndex| + p else p;
      assert q == PageNumber(|pageIndex|, p);
      var position := pageIndex[q];
      PageIndexShape(content);
      var text := ReadPageText(content, position);
      ReadsOnePage(content, q);
      shown := PADDING + text + PADDING;
      return false;
    }

    /**
     * `set_current_page`: the page is recorded, shown, and (old, new)
     * emitted; when showing raises, the page stays recorded and nothing is emitted.
     */
    method SetCurrentPage(page: int) returns (raised: bool)
      requires Loaded()
      modifies this`currentPage, this`shown, this`changes
      ensures currentPage == page
      ensures raised <==> PyIndex(pageIndex, page).None?
      ensures raised ==> shown == old(shown) && changes == old(changes)
      ensures !raised ==> shown == Framed(PageText(content, PageNumber(|pageIndex|, page)))
      ensures !raised ==> changes == old(changes) + [(old(currentPage), page)]
    {
      var oldPage := currentPage;
      currentPage := page;
      raised := ShowPage(currentPage);
      if !raised {
        changes := changes + [(oldPage, currentPage)];
      }
    }

    /** `previous_page`: to the bottom of the page before. */
    method PreviousPage() returns (raised: bool)
      requires Loaded()
      modifies this`vadj, this`currentPage, this`shown, this`changes
      ensures vadj == old(vadj).(value := old(vadj).Bottom())
      ensures currentPage == old(currentPage) - 1
      ensures raised <==> PyIndex(pageIndex, currentPage).None?
      ensures !raised ==> shown == Framed(PageText(content, PageNumber(|pageIndex|, currentPage)))
      ensures !raised ==> changes == old(changes) + [(old(currentPage), currentPage)]
      ensures raised ==> shown == old(shown) && changes == old(changes)
    {
      vadj := vadj.(value := vadj.Bottom());
      raised := SetCurrentPage(currentPage - 1);
    }

    /** `next_page`: to the top of the page after. */
    method NextPage() returns (raised: bool)
      requires Loaded()
      modifies this`vadj, this`currentPage, this`shown, this`changes
      ensures vadj == old(vadj).(value := old(vadj).lower)
      ensures currentPage == old(currentPage) + 1
      ensures raised <==> PyIndex(pageIndex, currentPage).None?
      ensures !raised ==> shown == Framed(PageText(content, PageNumber(|pageIndex|, currentPage)))
      ensures !raised ==> changes == old(changes) + [(old(currentPage), currentPage)]
      ensures raised ==> shown == old(shown) && changes == old(changes)
    {
      vadj := vadj.(value := vadj.lower);
      raised := SetCurrentPage(currentPage + 1);
    }

    /**
     * `scroll`: at the top going back (or the bottom going forward) the page
     * turns; otherwise the view moves one step within the page, never past
     * its top or bottom. Every direction other than PAGE_BACKWARD scrolls forward.
     */
    method Scroll(backward: bool) returns (raised: bool)
      requires Loaded() && vadj.Valid()
      modifies this`vadj, this`currentPage, this`shown, this`changes
      ensures vadj.Valid()
      ensures vadj.lower == old(vadj.lower) && vadj.upper == old(vadj.upper) && vadj.pageSize == old(vadj.pageSize)
      ensures !AtBoundary(old(vadj), backward) ==>
        vadj.value == Stepped(old(vadj), backward) && currentPage == old(currentPage)
        && shown == old(shown) && changes == old(changes) && !raised
      ensures AtBoundary(old(vadj), backward) && backward ==>
        currentPage == old(currentPage) - 1 && vadj.value == vadj.Bottom()
      ensures AtBoundary(old(vadj), backward) && !backward ==>
        currentPage == old(currentPage) + 1 && vadj.value == vadj.lower
      ensures raised <==> AtBoundary(old(vadj), backward) && PyIndex(pageIndex, currentPage).None?
      ensures AtBoundary(old(vadj), backward) && !raised ==>
        shown == Framed(PageText(content, PageNumber(|pageIndex|, currentPage)))
        && changes == old(changes) + [(old(currentPage), currentPage)]
      ensures raised ==> shown == old(shown) && changes == old(changes)
    {
      if backward {
        if vadj.value == vadj.lower {
          raised := PreviousPage();
          return;
        }
        if vadj.value > vadj.lower {
          var newValue := vadj.value - vadj.stepIncrement;
          if newValue < vadj.lower {
            newValue := vadj.lower;
          }
          vadj := vadj.(value := newValue);
        }
      } else {
        if vadj.value == vadj.upper - vadj.pageSize {
          raised := NextPage();
          return;
        }
        if vadj.value < vadj.upper - vadj.pageSize {
          var newValue := vadj.value + vadj.stepIncrement;
          if newValue > vadj.upper - vadj.pageSize {
            newValue := vadj.upper - vadj.pageSize;
          }
          vadj := vadj.(value := newValue);
        }
      }
      return false;
    }

    /** `get_zoom`. */
    function GetZoom(): (z: int)
      reads this`fontSize
      ensures z == relation * fontSize
    {
      relation * fontSize
    }

    /**
     * `set_zoom`: the zoom is taken as given (the toolbar passes a float)
     * and the font size is `int()` of the zoom over the relation (a relation
     * of 0, from an initial size above 100, would divide by zero). For a
     * non-negative value the size is the largest whose zoom does not exceed
     * it; truncation toward zero gives the mirror bound below zero.
     */
    method SetZoom(value: real)
      requires relation > 0
      modifies this`zoom, this`fontSize
      ensures zoom == value
      ensures value >= 0.0 ==> GetZoom() as real <= value < (GetZoom() + relation) as real
      ensures value < 0.0 ==> (GetZoom() - relation) as real < value <= GetZoom() as real
    {
      zoom := value;
      fontSize := Trunc(value / relation as real);
      ZoomOfTruncatedSize(value, relation, fontSize);
    }

    /** `_set_font_size`: the size is set and the zoom that matches it emitted. */
    method SetFontSize(size: int)
      modifies this`fontSize, this`zoom, this`zoomChanges
      ensures fontSize == size && zoom == GetZoom() as real
      ensures zoomChanges == old(zoomChanges) + [GetZoom()]
    {
      fontSize := size;
      zoom := (relation * fontSize) as real;
      zoomChanges := zoomChanges + [relation * fontSize];
    }

    /** `zoom_in`: one point larger; afterwards zooming out is possible from any size of at least 1. */
    method ZoomIn()
      modifies this`fontSize, this`zoom, this`zoomChanges
      ensures fontSize == old(fontSize) + 1 && zoom == (relation * fontSize) as real
      ensures zoomChanges == old(zoomChanges) + [relation * fontSize]
      ensures old(fontSize) >= 1 ==> CanZoomOut()
    {
      SetFontSize(fontSize + 1);
    }

    /** `zoom_out`: one point smaller; the caller is trusted to have asked `can_zoom_out`. */
    method ZoomOut()
      modifies this`fontSize, this`zoom, this`zoomChanges
      ensures fontSize == old(fontSize) - 1 && zoom == (relation * fontSize) as real
      ensures zoomChanges == old(zoomChanges) + [relation * fontSize]
      ensures old(CanZoomOut()) ==> fontSize >= 1
    {
      SetFontSize(fontSize - 1);
    }

    /** `can_zoom_in`: always. */
    function CanZoomIn(): bool {
      true
    }

    /** `can_zoom_out`: while the font is larger than 1 point. */
    predicate CanZoomOut()
      reads this`fontSize
    {
      fontSize > 1
    }
  }
}
