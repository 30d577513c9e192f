/**
 * The paginated EPUB view of Read.activity (Read.activity/epubview/epubview.py):
 * page navigation over the paginator's virtual pages, the scroll tracking
 * that moves the page number while the reader scrolls inside one file,
 * the work done when the web view finishes loading a file (bottom
 * padding, internal links), and the split of page text into words for
 * text to speech.  The web view is represented by the requests the view
 * makes of it (`requests`, `paddings`) and by the values it reports,
 * which the callbacks take as parameters.
 */
module EpubView {
  import opened Wrappers
  import opened Builtins
  import opened Pagination
  import opened Adjustments

  /** `s.split('#')[0]`: the text before the first anchor mark. */
  function BeforeAnchor(s: string): (r: string)
    ensures '#' !in r && r <= s
    ensures '#' !in s ==> r == s
  {
    var i := Find(s, '#');
    if i < 0 then s else s[..i]
  }

  /** The internal link `_load_file` keeps: the text from the first '#' on. */
  function Anchor(s: string): (r: Option<string>)
    ensures r.None? <==> '#' !in s
    ensures r.Some? ==> |r.value| > 0 && r.value[0] == '#' && BeforeAnchor(s) + r.value == s
  {
    var i := Find(s, '#');
    if i < 0 then None else Some(s[i..])
  }

  /**
   * The file name `_view_load_finished_cb` derives from the loaded URI:
   * the scheme dropped, 'xhtml' turned into 'xml' when such a file exists
   * (`xmlVariantExists` is that `os.path.exists` test), the anchor cut off.
   */
  function LoadedName(uri: string, xmlVariantExists: bool): (name: string)
    ensures '#' !in name
  {
    var name := StripScheme(uri);
    BeforeAnchor(if xmlVariantExists then Replace(name, "xhtml", "xml") else name)
  }

  /** The URI `_load_page` hands the web view: an '.xml' file is opened through its '.xhtml' link. */
  function RequestUri(filename: string): (uri: string)
    ensures StartsWith(uri, SCHEME)
  {
    if EndsWith(filename, "xml") then FileUri(Replace(filename, "xml", "xhtml")) else FileUri(filename)
  }

  /** A plain file requested by the view is recognised again when the web view reports it loaded. */
  lemma LoadedNameOfRequest(f: string)
    requires '#' !in f && !Occurs(SCHEME, f) && !EndsWith(f, "xml")
    ensures LoadedName(RequestUri(f), false) == f
  {
    StripFileUri(f);
  }

  /** `remfactor * height / (pages - remfactor)`: the fraction of a page the padding must supply. */
  function PaddingRatio(entry: FileEntry, pageHeight: int): real
    requires entry.pages as real - entry.remainder > 0.0
  {
    entry.remainder * pageHeight as real / (entry.pages as real - entry.remainder)
  }

  /** `int(math.ceil(remfactor * height / (pages - remfactor)))`: the padding added below the file. */
  function BottomPadding(entry: FileEntry, pageHeight: int): int
    requires entry.pages as real - entry.remainder > 0.0
  {
    Ceil(PaddingRatio(entry, pageHeight))
  }

  /** The `add_bottom_padding` calls for a file: one when the padding is positive, none otherwise. */
  function PaddingRequest(entry: FileEntry, pageHeight: int): (r: seq<int>)
    requires entry.pages as real - entry.remainder > 0.0
    ensures |r| <= 1 && (forall x | x in r :: x > 0)
    ensures |r| == 1 <==> BottomPadding(entry, pageHeight) > 0
  {
    var extra := BottomPadding(entry, pageHeight);
    if extra > 0 then [extra] else []
  }

  /**
   * When the web view reports the height the paginator measured, the
   * padding makes the last virtual page a full page: a file taller than
   * one page grows to exactly k pages, a shorter file gets none.
   */
  lemma PaddingCompletesLastPage(h: nat, single: nat)
    requires single > 0
    ensures var e := FileEntry(PagesInFile(h, single), FileRemainder(h, single));
      e.pages as real - e.remainder >= 1.0 &&
      (h <= single ==> BottomPadding(e, h) == 0) &&
      (h > single ==> h + BottomPadding(e, h) == PagesInFile(h, single) * single)
  {
    var k := PagesInFile(h, single);
    var p := FractionalPages(h, single);
    var e := FileEntry(k, FileRemainder(h, single));
    assert e.pages as real - e.remainder == p;
    if h > single {
      var m := k * single - h;
      ProductAsReal(k, single);
      assert m as real == k as real * single as real - h as real;
      PaddingAlgebra(h as real, single as real, k as real, p, e.remainder, m);
      assert PaddingRatio(e, h) == m as real;
      CeilOfInteger(m);
    } else {
      assert k == 1 && p == 1.0;
      assert e.remainder == 0.0;
      CeilOfInteger(0);
    }
  }

  /**
   * When the height measured after the padding has grown by exactly the
   * padding, the bottom-link test picks out the links on the file's last
   * page: below its first k - 1 whole pages for a file of k pages, and
   * anywhere past h - single for a file no taller than one page.
   */
  lemma PaddedBottomIsLastPage(h: nat, single: nat, linkPosition: int)
    requires single > 0
    ensures var e := FileEntry(PagesInFile(h, single), FileRemainder(h, single));
      e.pages as real - e.remainder >= 1.0 &&
      (h > single ==> (linkPosition > h + BottomPadding(e, h) - single
                       <==> linkPosition > (PagesInFile(h, single) - 1) * single)) &&
      (h <= single ==> (linkPosition > h + BottomPadding(e, h) - single <==> linkPosition > h - single))
  {
    PaddingCompletesLastPage(h, single);
  }

  /** With p = h / s pages and remainder k - p, `remainder * h / p` is exactly k * s - h. */
  lemma PaddingAlgebra(h: real, s: real, k: real, p: real, rem: real, m: int)
    requires s > 0.0 && h > 0.0 && p == h / s && rem == k - p && m as real == k * s - h
    ensures rem * h / p == m as real
  {
    assert p * s == h;
    assert p > 0.0;
    assert h / p == s;
    assert rem * h / p == rem * (h / p);
  }

  /** `math.ceil` leaves a whole number as it is. */
  lemma CeilOfInteger(m: int)
    ensures Ceil(m as real) == m
  {
  }

  /** `initial_page + int(vertical_pos / page_height)`: the page a link at `vpos` pixels lies on. */
  function LinkedPage(base: int, vpos: int, single: nat): int
    requires single > 0
  {
    base + FloorDiv(vpos, single)
  }

  /**
   * A link inside file j lands on a page of file j's run: the page whose
   * slot of `single` pixels holds the link's position.
   */
  lemma LinkedPageInFile(files: seq<string>, heights: seq<nat>, single: nat, j: nat, vpos: int)
    requires single > 0 && j < |heights| <= |files|
    requires 0 <= vpos < PagesInFile(heights[j], single) * single
    ensures var base := First(files, heights, single, j) + 1;
      var n := LinkedPage(base, vpos, single);
      base <= n <= First(files, heights, single, j + 1) &&
      (n - base) * single <= vpos < (n - base + 1) * single
  {
    FirstStep(files, heights, single, j);
    var q := FloorDiv(vpos, single);
    var k := PagesInFile(heights[j], single);
    assert q * single <= vpos < q * single + single;
    assert -1 * single < q * single;
    MulCancel(-1, q, single);
    MulCancel(q, k, single);
  }

  lemma MulCancel(a: int, b: int, c: int)
    requires c > 0 && a * c < b * c
    ensures a < b
  {
    assert (b - a) * c == b * c - a * c;
  }

  /** The characters `_prepare_text_to_speech` treats as word separators. */
  predicate Ignored(c: char) {
    c in {' ', '\n', '\r', '_', '[', '{', ']', '}', '|', '<', '>', '*', '+', '/', '\\'}
  }

  /** One entry of `word_tuples`: start offset, end offset and the word. */
  datatype WordTuple = WordTuple(begin: int, end: int, word: string)

  /** A maximal run of non-separator characters of `text`, with its offsets. */
  ghost predicate IsWord(text: string, w: WordTuple) {
    0 <= w.begin < w.end <= |text| && w.word == text[w.begin..w.end]
    && (forall p :: w.begin <= p < w.end ==> !Ignored(text[p]))
    && (w.begin == 0 || Ignored(text[w.begin - 1]))
    && (w.end == |text| || Ignored(text[w.end]))
  }

  ghost predicate Covered(words: seq<WordTuple>, p: int) {
    exists k :: 0 <= k < |words| && words[k].begin <= p < words[k].end
  }

  /** `words` are all the words of `text`, in order, each once. */
  ghost predicate IsWordSplit(text: string, words: seq<WordTuple>) {
    (forall k :: 0 <= k < |words| ==> IsWord(text, words[k]))
    && (forall k :: 0 <= k < |words| - 1 ==> words[k].end < words[k + 1].begin)
    && (forall p :: 0 <= p < |text| && !Ignored(text[p]) ==> Covered(words, p))
  }

  /** `words` are the words of `text` that lie wholly before offset `i`. */
  ghost predicate SplitUpTo(text: string, words: seq<WordTuple>, i: int) {
    (forall k :: 0 <= k < |words| ==> IsWord(text, words[k]))
    && (forall k :: 0 <= k < |words| - 1 ==> words[k].end < words[k + 1].begin)
    && (|words| > 0 ==> words[|words| - 1].end < i)
    && (forall p :: 0 <= p < i && p < |text| && !Ignored(text[p]) ==> Covered(words, p))
  }

  /** A separator at offset `i` adds no word. */
  lemma SkipSeparator(text: string, words: seq<WordTuple>, i: nat)
    requires i < |text| && Ignored(text[i]) && SplitUpTo(text, words, i)
    ensures SplitUpTo(text, words, i + 1)
  {
  }

  /** Once the scan has passed the end, the words found are all the words. */
  lemma SplitDone(text: string, words: seq<WordTuple>, i: int)
    requires i >= |text| && SplitUpTo(text, words, i)
    ensures IsWordSplit(text, words)
  {
  }

  /** `_prepare_text_to_speech`: the words of the page text with their offsets. */
  method SplitWords(text: string) returns (words: seq<WordTuple>)
    ensures IsWordSplit(text, words)
  {
    var i := 0;
    words := [];
    while i < |text|
      invariant 0 <= i <= |text| + 1
      invariant 0 < i <= |text| ==> Ignored(text[i - 1])
      invariant SplitUpTo(text, words, i)
      decreases |text| + 1 - i
    {
      if !Ignored(text[i]) {
        words, i := TakeWord(text, words, i);
      } else {
        SkipSeparator(text, words, i);
      }
      i := i + 1;
    }
    SplitDone(text, words, i);
  }

  /** One word of `_prepare_text_to_speech`: the word starting at `i` is recorded and the scan moves to its end. */
  method TakeWord(text: string, words: seq<WordTuple>, i: nat) returns (words': seq<WordTuple>, wordEnd: nat)
    requires i < |text| && !Ignored(text[i])
    requires i == 0 || Ignored(text[i - 1])
    requires SplitUpTo(text, words, i)
    ensures i < wordEnd <= |text|
    ensures SplitUpTo(text, words', wordEnd + 1)
    ensures wordEnd < |text| ==> Ignored(text[wordEnd])
  {
    var wordBegin := i;
    wordEnd := WordEnd(text, i);
    var w := WordTuple(wordBegin, wordEnd, text[wordBegin..wordEnd]);
    assert text[wordBegin] != '\r';
    words' := words;
    if w.word != "\r" {
      AppendWord(text, words, w);
      words' := words + [w];
    }
  }

  /** The inner loop of `_prepare_text_to_speech`: where the word starting at `start` ends. */
  method WordEnd(text: string, start: nat) returns (j: nat)
    requires start < |text| && !Ignored(text[start])
    ensures start < j <= |text|
    ensures forall p :: start <= p < j ==> !Ignored(text[p])
    ensures j == |text| || Ignored(text[j])
  {
    j := start;
    while j < |text| && !Ignored(text[j])
      invariant start <= j <= |text|
      invariant forall p :: start <= p < j ==> !Ignored(text[p])
      decreases |text| - j
    {
      j := j + 1;
    }
  }

  /** Appending the word that ends the scanned text so far keeps the split a split of that text. */
  lemma AppendWord(text: string, words: seq<WordTuple>, w: WordTuple)
    requires 0 <= w.begin < w.end <= |text| && w.word == text[w.begin..w.end]
    requires forall p :: w.begin <= p < w.end ==> !Ignored(text[p])
    requires w.begin == 0 || Ignored(text[w.begin - 1])
    requires w.end == |text| || Ignored(text[w.end])
    requires SplitUpTo(text, words, w.begin)
    ensures SplitUpTo(text, words + [w], w.end + 1)
  {
    var ws := words + [w];
    assert ws[|words|] == w;
    forall k | 0 <= k < |words|
      ensures ws[k] == words[k]
    {
    }
    forall p | 0 <= p < w.end + 1 && p < |text| && !Ignored(text[p])
      ensures Covered(ws, p)
    {
      if p < w.begin {
        var k :| 0 <= k < |words| && words[k].begin <= p < words[k].end;
        assert ws[k] == words[k];
      } else {
        assert p < w.end;
      }
    }
  }

  /** One 'page-changed' emission, with Read's zero-based page numbers. */
  datatype PageChange = PageChange(from: int, to: int)

  /** The first file of the list whose path ends with `suffix`. */
  function FirstEndingWith(files: seq<string>, suffix: string): (r: Option<nat>)
    ensures r.Some? ==> r.value < |files|
  {
    FirstEndingWithFrom(files, suffix, 0)
  }

  function FirstEndingWithFrom(files: seq<string>, suffix: string, from: nat): (r: Option<nat>)
    requires from <= |files|
    ensures r.Some? ==> from <= r.value < |files|
    decreases |files| - from
  {
    if from == |files| then None
    else if EndsWith(files[from], suffix) then Some(from)
    else FirstEndingWithFrom(files, suffix, from + 1)
  }

  /** The search from `from` finds the first matching file at or after `from`, and finds none only when there is none. */
  lemma {:induction false} FirstEndingWithFromSpec(files: seq<string>, suffix: string, from: nat)
    requires from <= |files|
    ensures var r := FirstEndingWithFrom(files, suffix, from);
      (r.None? <==> forall i :: from <= i < |files| ==> !EndsWith(files[i], suffix))
      && (r.Some? ==> EndsWith(files[r.value], suffix))
      && (r.Some? ==> forall i :: from <= i < r.value ==> !EndsWith(files[i], suffix))
    decreases |files| - from
  {
    if from < |files| && !EndsWith(files[from], suffix) {
      FirstEndingWithFromSpec(files, suffix, from + 1);
    }
  }

  /** `FirstEndingWith` is the first index whose file ends with the suffix, and None when no file does. */
  lemma FirstEndingWithSpec(files: seq<string>, suffix: string)
    ensures var r := FirstEndingWith(files, suffix);
      (r.None? <==> forall i :: 0 <= i < |files| ==> !EndsWith(files[i], suffix))
      && (r.Some? ==> EndsWith(files[r.value], suffix))
      && (r.Some? ==> forall i :: 0 <= i < r.value ==> !EndsWith(files[i], suffix))
  {
    FirstEndingWithFromSpec(files, suffix, 0);
  }

  /** The fields of the view that loading a page updates. */
  datatype NavState = NavState(loadedFilename: Option<string>, fileLoaded: bool, requests: seq<string>,
                               loadedPage: int, vscroll: Adjustment, slider: int, changes: seq<PageChange>)

  /** `_EpubView`, from the moment `_paginate` has created its paginator. */
  class View {
    const paginator: Paginator
    const filelist: seq<string>
    /** Set by `_paginated_cb`. */
    var ready: bool
    var pagecount: int
    var loadedPage: int
    var loadedFilename: Option<string>
    /** False while the web view is loading a file. */
    var fileLoaded: bool
    var internalLink: Option<string>
    var goingFwd: bool
    var goingBack: bool
    var inSearch: bool
    /** The content's vertical scrollbar. */
    var vscroll: Adjustment
    /** The page slider's value. */
    var slider: int
    var changes: seq<PageChange>
    /** The URIs handed to the web view's `load_uri`, in order. */
    var requests: seq<string>
    /** The bottom paddings added to loaded files, in order. */
    var paddings: seq<int>
    var wordTuples: seq<WordTuple>

    /**
     * The view's invariant.  A page may be loaded before 'paginated' has
     * fired (`_load_file` of a file already measured), so nothing ties the
     * loaded page to `ready`.
     */
    ghost predicate Valid()
      reads this`ready, this`pagecount, this`vscroll, paginator
    {
      filelist == paginator.filelist && vscroll.Valid() && paginator.single > 0
      && (forall f | f in filelist :: !Occurs(SCHEME, f))
      && PaddableTable()
      && (ready ==> Book()) && (!ready ==> pagecount == -1)
    }

    /** Every file-table entry leaves a positive divisor for the bottom padding. */
    ghost predicate PaddableTable()
      reads paginator
    {
      forall name | name in paginator.filedict ::
        paginator.filedict[name].pages as real - paginator.filedict[name].remainder >= 1.0
    }

    /**
     * What the view relies on once 'paginated' has fired: pages 1..pagecount
     * are numbered and every file of the list has a base page.
     */
    ghost predicate Book()
      reads this`pagecount, paginator
    {
      pagecount == paginator.pagecount && pagecount >= 1
      && (forall n :: n in paginator.pagemap <==> 1 <= n <= pagecount)
      && (forall j :: 0 <= j < |filelist| ==> HasPage(filelist[j]))
    }

    /** Some page of the book lies in file `name`. */
    ghost predicate HasPage(name: string)
      reads paginator
    {
      exists n :: n in paginator.pagemap && StripScheme(paginator.pagemap[n].uri) == name
    }

    /** `__init__` followed by `_paginate` over the book's file list. */
    constructor (p: Paginator)
      requires p.Valid() && forall f | f in p.filelist :: !Occurs(SCHEME, f)
      ensures Valid() && paginator == p && !ready && pagecount == -1
      ensures loadedPage == -1 && loadedFilename == None && fileLoaded && internalLink == None
      ensures goingFwd && !goingBack && !inSearch
      ensures changes == [] && requests == [] && paddings == [] && wordTuples == []
    {
      paginator := p;
      filelist := p.filelist;
      ready := false;
      pagecount := -1;
      loadedPage := -1;
      loadedFilename := None;
      fileLoaded := true;
      internalLink := None;
      goingFwd := true;
      goingBack := false;
      inSearch := false;
      vscroll := Adjustment(0.0, 0.0, 0.0, 0.0);
      slider := 0;
      changes := [];
      requests := [];
      paddings := [];
      wordTuples := [];
      FileDictEntries(p.filelist, p.measured, p.single);
    }

    /** The state a page load may change. */
    function Nav(): NavState
      reads this`loadedFilename, this`fileLoaded, this`requests, this`loadedPage, this`vscroll, this`slider, this`changes
    {
      NavState(loadedFilename, fileLoaded, requests, loadedPage, vscroll, slider, changes)
    }

    /** The navigation modes no page load touches. */
    function Modes(): (bool, bool, bool, bool, int)
      reads this
    {
      (goingFwd, goingBack, inSearch, ready, pagecount)
    }

    predicate InRange(n: int)
      reads this
    {
      1 <= n <= pagecount
    }

    /** The file of page n, as the view compares it with the loaded file. */
    function PageFile(n: int): string
      reads paginator
      requires n in paginator.pagemap
    {
      StripScheme(paginator.GetFileForPageno(n))
    }

    /** Where `_scroll_page` puts the scrollbar for page n. */
    function ScrollTarget(a: Adjustment, n: int): real
      reads paginator
      requires n in paginator.pagemap
    {
      (a.upper - a.pageSize) * paginator.GetScrollfactorPosForPageno(n)
    }

    /** Loading page n takes effect now: it is in range and its file is loaded or can be requested. */
    ghost predicate Reaches(n: int)
      reads this, paginator
      requires Valid()
    {
      InRange(n) && (fileLoaded || loadedFilename == Some(PageFile(n)))
    }

    /** `_paginated_cb`. */
    method PaginatedCb()
      requires Valid() && paginator.Valid() && paginator.paginated
      modifies this`ready, this`pagecount
      ensures Valid() && ready && pagecount == paginator.pagecount
    {
      ready := true;
      pagecount := paginator.pagecount;
      BookPageCount(paginator.filelist, paginator.measured, paginator.single);
      FileDictEntries(paginator.filelist, paginator.measured, paginator.single);
      forall j | 0 <= j < |filelist|
        ensures HasPage(filelist[j])
      {
        MeasuredFileHasBase(paginator, j);
        var b := paginator.GetBasePagenoForFile(filelist[j]).value;
        assert b in paginator.pagemap && StripScheme(paginator.pagemap[b].uri) == filelist[j];
      }
    }

    /** `_on_page_changed`: announces a move to another page. */
    method OnPageChanged(oldpage: int, pageno: int)
      modifies this`loadedPage, this`slider, this`changes
      ensures oldpage == pageno ==> loadedPage == old(loadedPage) && slider == old(slider) && changes == old(changes)
      ensures oldpage != pageno ==>
        loadedPage == pageno && slider == pageno && changes == old(changes) + [PageChange(oldpage - 1, pageno - 1)]
    {
      if oldpage == pageno {
        return;
      }
      loadedPage := pageno;
      slider := pageno;
      changes := changes + [PageChange(oldpage - 1, pageno - 1)];
    }

    /** `_scroll_page`: scrolls to where the loaded page starts. */
    method ScrollPage()
      requires Valid() && loadedPage in paginator.pagemap
      modifies this`vscroll
      ensures Valid()
      ensures vscroll == old(vscroll).SetValue(ScrollTarget(old(vscroll), loadedPage))
    {
      var scrollfactor := paginator.GetScrollfactorPosForPageno(loadedPage);
      vscroll := vscroll.SetValue((vscroll.upper - vscroll.pageSize) * scrollfactor);
    }

    /** `_scroll_page_end`. */
    method ScrollPageEnd()
      requires Valid()
      modifies this`vscroll
      ensures Valid() && vscroll == old(vscroll).SetValue(old(vscroll).upper)
      ensures vscroll.value == vscroll.MaxValue()
    {
      vscroll := vscroll.SetValue(vscroll.upper);
    }

    /**
     * `_load_page`: out-of-range and already-loaded pages are ignored; a
     * page in another file requests that file (or, while a load is under
     * way, only records it); a page in the loaded file is scrolled to.
     * Moving within the loaded file announces nothing, because the loaded
     * page is updated before `_on_page_changed` compares it.
     */
    method LoadPage(pageno: int)
      requires Valid()
      modifies this`loadedFilename, this`fileLoaded, this`requests, this`loadedPage, this`vscroll, this`slider, this`changes
      ensures Valid()
      ensures !InRange(pageno) || old(loadedPage) == pageno ==> Nav() == old(Nav())
      ensures InRange(pageno) && old(loadedPage) != pageno ==> loadedFilename == Some(PageFile(pageno))
      ensures InRange(pageno) && old(loadedPage) != pageno && old(loadedFilename) != Some(PageFile(pageno)) ==>
        if old(fileLoaded) then
          !fileLoaded && requests == old(requests) + [RequestUri(PageFile(pageno))]
          && loadedPage == pageno && slider == pageno && vscroll == old(vscroll)
          && changes == old(changes) + [PageChange(old(loadedPage) - 1, pageno - 1)]
        else
          fileLoaded == old(fileLoaded) && requests == old(requests) && loadedPage == old(loadedPage)
          && slider == old(slider) && vscroll == old(vscroll) && changes == old(changes)
      ensures InRange(pageno) && old(loadedPage) != pageno && old(loadedFilename) == Some(PageFile(pageno)) ==>
        loadedPage == pageno && vscroll == old(vscroll).SetValue(ScrollTarget(old(vscroll), pageno))
        && fileLoaded == old(fileLoaded) && requests == old(requests)
        && slider == old(slider) && changes == old(changes)
      ensures old(Reaches(pageno)) ==> loadedPage == pageno
    {
      if pageno > pagecount || pageno < 1 {
        return;
      }
      if loadedPage == pageno {
        return;
      }
      var filename := StripScheme(paginator.GetFileForPageno(pageno));
      if Some(filename) != loadedFilename {
        loadedFilename := Some(filename);
        if !fileLoaded {
          return;
        }
        fileLoaded := false;
        requests := requests + [RequestUri(filename)];
      } else {
        loadedPage := pageno;
        ScrollPage();
      }
      OnPageChanged(loadedPage, pageno);
    }

    /** `set_current_page`: False for a page outside 1..pagecount. */
    method SetCurrentPage(n: int) returns (ok: bool)
      requires Valid()
      modifies this`loadedFilename, this`fileLoaded, this`requests, this`loadedPage, this`vscroll, this`slider, this`changes
      ensures Valid()
      ensures ok <==> old(InRange(n))
      ensures !ok ==> Nav() == old(Nav())
      ensures old(Reaches(n)) ==> loadedPage == n
    {
      if n < 1 || n > pagecount {
        return false;
      }
      LoadPage(n);
      return true;
    }

    /** `next_page`: False on the last page; otherwise the following page is loaded. */
    method NextPage() returns (ok: bool)
      requires Valid()
      modifies this`loadedFilename, this`fileLoaded, this`requests, this`loadedPage, this`vscroll, this`slider, this`changes
      ensures Valid()
      ensures ok <==> old(loadedPage) != pagecount
      ensures !ok ==> Nav() == old(Nav())
      ensures old(Reaches(loadedPage + 1)) ==> loadedPage == old(loadedPage) + 1
    {
      if loadedPage == pagecount {
        return false;
      }
      LoadPage(loadedPage + 1);
      return true;
    }

    /** `previous_page`: False on the first page; otherwise the preceding page is loaded. */
    method PreviousPage() returns (ok: bool)
      requires Valid()
      modifies this`loadedFilename, this`fileLoaded, this`requests, this`loadedPage, this`vscroll, this`slider, this`changes
      ensures Valid()
      ensures ok <==> old(loadedPage) != 1
      ensures !ok ==> Nav() == old(Nav())
      ensures old(Reaches(loadedPage - 1)) ==> loadedPage == old(loadedPage) - 1
    {
      if loadedPage == 1 {
        return false;
      }
      LoadPage(loadedPage - 1);
      return true;
    }

    /**
     * `_do_page_transition`: scrolled to the bottom while going forward,
     * or to the top while going back, the view turns to the next or the
     * previous page.
     */
    method DoPageTransition() returns (moved: bool)
      requires Valid()
      modifies this`loadedFilename, this`fileLoaded, this`requests, this`loadedPage, this`vscroll, this`slider, this`changes
      ensures Valid()
      ensures moved <==> (goingFwd && old(vscroll).AtEnd()) || (!goingFwd && goingBack && old(vscroll).AtStart())
      ensures !moved ==> Nav() == old(Nav())
      ensures moved && goingFwd && old(Reaches(loadedPage + 1)) ==> loadedPage == old(loadedPage) + 1
      ensures moved && !goingFwd && old(Reaches(loadedPage - 1)) ==> loadedPage == old(loadedPage) - 1
    {
      if goingFwd {
        if vscroll.value >= vscroll.upper - vscroll.pageSize {
          LoadPage(loadedPage + 1);
          return true;
        }
      } else if goingBack {
        if vscroll.value == vscroll.lower {
          LoadPage(loadedPage - 1);
          return true;
        }
      }
      return false;
    }

    /** `_v_scrollbar_value_changed_cb` takes its forward branch: a page is loaded, going forward, not the last page. */
    predicate TracksForward()
      reads this`loadedPage, this`goingFwd, this`pagecount
    {
      loadedPage >= 1 && goingFwd && loadedPage != pagecount
    }

    /** `_v_scrollbar_value_changed_cb` takes its backward branch. */
    predicate TracksBack()
      reads this`loadedPage, this`goingFwd, this`goingBack, this`pagecount
    {
      loadedPage > 1 && !(goingFwd && loadedPage != pagecount) && goingBack
    }

    /** Pages a and b can both be looked up; otherwise `get_file_for_pageno` raises KeyError. */
    predicate Mapped(a: int, b: int)
      reads paginator
    {
      a in paginator.pagemap && b in paginator.pagemap
    }

    /** Scrolling forward has reached the next page, which lies in the same file. */
    predicate TurnsForward()
      reads this`loadedPage, this`vscroll, paginator
    {
      vscroll.Valid() && Mapped(loadedPage, loadedPage + 1)
      && paginator.GetFileForPageno(loadedPage) == paginator.GetFileForPageno(loadedPage + 1)
      && ScrollFraction(vscroll) >= paginator.GetScrollfactorPosForPageno(loadedPage + 1)
    }

    /** Scrolling back has reached the loaded page's start, and the previous page lies in the same file. */
    predicate TurnsBack()
      reads this`loadedPage, this`vscroll, paginator
    {
      vscroll.Valid() && Mapped(loadedPage, loadedPage - 1)
      && paginator.GetFileForPageno(loadedPage) == paginator.GetFileForPageno(loadedPage - 1)
      && ScrollFraction(vscroll) <= paginator.GetScrollfactorPosForPageno(loadedPage)
    }

    /**
     * `_v_scrollbar_value_changed_cb`: while the reader scrolls inside one
     * file, the page number follows the scroll position.  It moves forward
     * once the position reaches the next page's start, back once it is at
     * or above the current page's start, and never across a file boundary.
     * A loaded page or neighbour missing from the page map (a page loaded
     * before pagination finished, or past the last page) raises KeyError.
     */
    method VScrollbarValueChanged() returns (raised: bool)
      requires Valid()
      modifies this`loadedPage, this`slider, this`changes
      ensures Valid()
      ensures raised <==> old(TracksForward() && !Mapped(loadedPage, loadedPage + 1))
                          || old(TracksBack() && !Mapped(loadedPage, loadedPage - 1))
      ensures loadedPage == old(loadedPage) + 1 <==> old(TracksForward() && TurnsForward())
      ensures loadedPage == old(loadedPage) - 1 <==> old(TracksBack() && TurnsBack())
      ensures loadedPage == old(loadedPage) || loadedPage == old(loadedPage) + 1 || loadedPage == old(loadedPage) - 1
      ensures loadedPage == old(loadedPage) ==> slider == old(slider) && changes == old(changes)
      ensures loadedPage != old(loadedPage) ==>
        slider == loadedPage && changes == old(changes) + [PageChange(old(loadedPage) - 1, loadedPage - 1)]
    {
      if loadedPage < 1 {
        return false;
      }
      var scrollfactor := ScrollFraction(vscroll);
      if goingFwd && loadedPage != pagecount {
        if !Mapped(loadedPage, loadedPage + 1) {
          return true;
        }
        if paginator.GetFileForPageno(loadedPage) != paginator.GetFileForPageno(loadedPage + 1) {
          return false;
        }
        var scrollfactorNext := paginator.GetScrollfactorPosForPageno(loadedPage + 1);
        if scrollfactor >= scrollfactorNext {
          OnPageChanged(loadedPage, loadedPage + 1);
        }
      } else if goingBack && loadedPage > 1 {
        if !Mapped(loadedPage, loadedPage - 1) {
          return true;
        }
        if paginator.GetFileForPageno(loadedPage) != paginator.GetFileForPageno(loadedPage - 1) {
          return false;
        }
        var scrollfactorCur := paginator.GetScrollfactorPosForPageno(loadedPage);
        if scrollfactor <= scrollfactorCur {
          OnPageChanged(loadedPage, loadedPage - 1);
        }
      }
      return false;
    }

    /**
     * `_load_file`: opens the first file of the list whose path ends with
     * `path` without its anchor, at that file's base page, and keeps the
     * anchor for `_view_load_finished_cb`.  Before pagination the file may
     * have no page yet; then `_scroll_page` looks up None and raises
     * KeyError after the file was requested.
     */
    method LoadFile(path: string) returns (raised: bool)
      requires Valid()
      modifies this`internalLink, this`requests, this`loadedPage, this`vscroll, this`slider, this`changes
      ensures Valid()
      ensures internalLink == Anchor(path)
      ensures old(ready) ==> !raised
      ensures FirstEndingWith(filelist, BeforeAnchor(path)).None? ==>
        !raised && requests == old(requests)
      ensures FirstEndingWith(filelist, BeforeAnchor(path)).Some? ==>
        var f := filelist[FirstEndingWith(filelist, BeforeAnchor(path)).value];
        requests == old(requests) + [FileUri(f)]
        && (raised <==> paginator.GetBasePagenoForFile(f).None?)
        && (!raised ==> loadedPage == paginator.GetBasePagenoForFile(f).value
                        && vscroll == old(vscroll).SetValue(ScrollTarget(old(vscroll), loadedPage)))
      ensures FirstEndingWith(filelist, BeforeAnchor(path)).None? || raised ==>
        loadedPage == old(loadedPage) && vscroll == old(vscroll) && slider == old(slider) && changes == old(changes)
      ensures loadedPage != old(loadedPage) ==>
        slider == loadedPage && changes == old(changes) + [PageChange(old(loadedPage) - 1, loadedPage - 1)]
      ensures loadedPage == old(loadedPage) ==> slider == old(slider) && changes == old(changes)
    {
      internalLink := Anchor(path);
      var i := FindFile(BeforeAnchor(path));
      raised := false;
      if i < |filelist| {
        raised := OpenAtBasePage(i);
      }
    }

    /** `_load_file`'s loop over the file list: the index of the first file ending with `target`, or the list's length. */
    method FindFile(target: string) returns (i: nat)
      ensures i <= |filelist|
      ensures FirstEndingWith(filelist, target) == if i < |filelist| then Some(i) else None
    {
      i := 0;
      while i < |filelist| && !EndsWith(filelist[i], target)
        invariant 0 <= i <= |filelist|
        invariant FirstEndingWith(filelist, target) == FirstEndingWithFrom(filelist, target, i)
      {
        i := i + 1;
      }
    }

    /**
     * The body of `_load_file`'s loop for the file it finds: request it and
     * show its base page, or raise when it has none.
     */
    method OpenAtBasePage(i: nat) returns (raised: bool)
      requires Valid() && i < |filelist|
      modifies this`requests, this`loadedPage, this`vscroll, this`slider, this`changes
      ensures Valid()
      ensures requests == old(requests) + [FileUri(filelist[i])]
      ensures raised <==> paginator.GetBasePagenoForFile(filelist[i]).None?
      ensures ready ==> !raised
      ensures raised ==> loadedPage == old(loadedPage) && vscroll == old(vscroll) && slider == old(slider) && changes == old(changes)
      ensures !raised ==>
        loadedPage == paginator.GetBasePagenoForFile(filelist[i]).value
        && vscroll == old(vscroll).SetValue(ScrollTarget(old(vscroll), loadedPage))
      ensures loadedPage != old(loadedPage) ==>
        slider == loadedPage && changes == old(changes) + [PageChange(old(loadedPage) - 1, loadedPage - 1)]
      ensures loadedPage == old(loadedPage) ==> slider == old(slider) && changes == old(changes)
    {
      var filepath := filelist[i];
      requests := requests + [FileUri(filepath)];
      if ready {
        assert HasPage(filepath);
        var n :| n in paginator.pagemap && StripScheme(paginator.pagemap[n].uri) == filepath;
        BaseFound(paginator, filepath, n);
      }
      var base := paginator.GetBasePagenoForFile(filepath);
      if base.None? {
        return true;
      }
      ShowPage(base.value);
      return false;
    }

    /** Makes page n the loaded page, scrolls to it and announces the move. */
    method ShowPage(n: int)
      requires Valid() && n in paginator.pagemap
      modifies this`loadedPage, this`vscroll, this`slider, this`changes
      ensures Valid() && loadedPage == n
      ensures vscroll == old(vscroll).SetValue(ScrollTarget(old(vscroll), n))
      ensures n != old(loadedPage) ==> slider == n && changes == old(changes) + [PageChange(old(loadedPage) - 1, n - 1)]
      ensures n == old(loadedPage) ==> slider == old(slider) && changes == old(changes)
    {
      var oldpage := loadedPage;
      loadedPage := n;
      ScrollPage();
      OnPageChanged(oldpage, loadedPage);
    }

    /** What `_view_load_finished_cb` may change after the padding. */
    function AfterPadding(): (Adjustment, int, Option<string>, bool, bool)
      reads this`vscroll, this`loadedPage, this`internalLink, this`inSearch, this`goingBack
    {
      (vscroll, loadedPage, internalLink, inSearch, goingBack)
    }

    /** The scroll can be restored after a load: a search or going back needs no lookup, otherwise the loaded page is in the page map. */
    predicate Restorable()
      reads this`inSearch, this`goingBack, this`loadedPage, paginator
    {
      inSearch || goingBack || loadedPage in paginator.pagemap
    }

    /**
     * The pending link lies in the last page-height of the loaded file;
     * `paddedHeight` is the file's height measured after the padding.
     */
    predicate BottomLink(paddedHeight: int, linkPosition: int)
      reads paginator
    {
      linkPosition > paddedHeight - paginator.single
    }

    /**
     * Following the pending link raises: the file has no base page (None
     * plus an int, TypeError), or the link is at the bottom of the last
     * file and `get_next_filename` reads past the list (IndexError).
     */
    predicate LinkRaises(filename: string, paddedHeight: int, linkPosition: int)
      reads paginator
    {
      paginator.GetBasePagenoForFile(filename).None?
      || (BottomLink(paddedHeight, linkPosition) && NextFilenameAsWritten(paginator.filelist, filename) == IndexError)
    }

    /**
     * `_view_load_finished_cb`: the web view has loaded `uri`, whose
     * content is `pageHeight` pixels high before the padding and
     * `paddedHeight` pixels high when measured again after it (the link
     * test reads the height anew); `linkPosition` is where the pending
     * internal link lies.  `nextFile` is the file to open next
     * when that link sits in the last page-height of the file; `raised`
     * says the callback ended in an exception (see ApplyLoadedFile).
     */
    method LoadFinished(uri: string, xmlVariantExists: bool, pageHeight: int, paddedHeight: int, linkPosition: int)
      returns (nextFile: Option<string>, raised: bool)
      requires Valid()
      modifies this`fileLoaded, this`loadedFilename, this`paddings, this`inSearch, this`goingBack
      modifies this`vscroll, this`loadedPage, this`internalLink
      ensures Valid() && fileLoaded
      ensures old(loadedPage) < 1 ==>
        !raised && nextFile == None && loadedFilename == old(loadedFilename) && paddings == old(paddings)
        && AfterPadding() == old(AfterPadding())
      ensures old(loadedPage) >= 1 ==>
        loadedFilename == Some(LoadedName(uri, xmlVariantExists))
        && (raised <==> LoadedName(uri, xmlVariantExists) !in paginator.filedict || !old(Restorable())
                        || (old(internalLink).Some? && LinkRaises(LoadedName(uri, xmlVariantExists), paddedHeight, linkPosition)))
      ensures old(loadedPage) >= 1 && LoadedName(uri, xmlVariantExists) !in paginator.filedict ==>
        nextFile == None && paddings == old(paddings) && AfterPadding() == old(AfterPadding())
      ensures old(loadedPage) >= 1 && LoadedName(uri, xmlVariantExists) in paginator.filedict ==>
        paddings == old(paddings) + PaddingRequest(paginator.filedict[LoadedName(uri, xmlVariantExists)], pageHeight)
      ensures old(loadedPage) >= 1 && LoadedName(uri, xmlVariantExists) in paginator.filedict && !old(Restorable()) ==>
        nextFile == None && AfterPadding() == old(AfterPadding())
      ensures old(loadedPage) >= 1 && LoadedName(uri, xmlVariantExists) in paginator.filedict ==>
        (old(inSearch) ==> vscroll == old(vscroll) && !inSearch)
        && (!old(inSearch) && old(goingBack) ==> vscroll == old(vscroll).SetValue(old(vscroll).upper))
        && (old(!inSearch && !goingBack && loadedPage in paginator.pagemap) ==>
              vscroll == old(vscroll).SetValue(ScrollTarget(old(vscroll), old(loadedPage))))
      ensures old(loadedPage) >= 1 && LoadedName(uri, xmlVariantExists) in paginator.filedict && old(Restorable()) ==>
        (old(internalLink).None? ==> loadedPage == old(loadedPage) && internalLink == None && nextFile == None)
        && (old(internalLink).Some? && paginator.GetBasePagenoForFile(LoadedName(uri, xmlVariantExists)).None? ==>
              loadedPage == old(loadedPage) && internalLink == old(internalLink) && nextFile == None)
        && (old(internalLink).Some? && paginator.GetBasePagenoForFile(LoadedName(uri, xmlVariantExists)).Some? ==>
              internalLink == None
              && loadedPage == LinkedPage(paginator.GetBasePagenoForFile(LoadedName(uri, xmlVariantExists)).value,
                                          linkPosition, paginator.single)
              && nextFile == (if BottomLink(paddedHeight, linkPosition)
                              then paginator.GetNextFilename(LoadedName(uri, xmlVariantExists)) else None))
      ensures nextFile.Some? ==> !inSearch && !goingBack
      ensures nextFile.None? ==> goingBack == old(goingBack)
      ensures nextFile.None? && !old(inSearch) ==> inSearch == old(inSearch)
    {
      fileLoaded := true;
      nextFile, raised := None, false;
      var filename := LoadedName(uri, xmlVariantExists);
      if loadedPage < 1 {
        return;
      }
      nextFile, raised := ApplyLoadedFile(filename, pageHeight, paddedHeight, linkPosition);
    }

    /**
     * `_view_load_finished_cb` once a page is loaded: record the file, pad
     * it, restore the scroll, follow the link.  Each step can raise and end
     * the callback: a file missing from the file table (KeyError), a loaded
     * page missing from the page map when scrolling to it (KeyError), or
     * following the link (LinkRaises).
     */
    method ApplyLoadedFile(filename: string, pageHeight: int, paddedHeight: int, linkPosition: int)
      returns (nextFile: Option<string>, raised: bool)
      requires Valid() && loadedPage >= 1
      modifies this`loadedFilename, this`paddings, this`inSearch, this`goingBack
      modifies this`vscroll, this`loadedPage, this`internalLink
      ensures Valid() && loadedFilename == Some(filename)
      ensures raised <==> filename !in paginator.filedict || !old(Restorable())
                          || (old(internalLink).Some? && LinkRaises(filename, paddedHeight, linkPosition))
      ensures filename !in paginator.filedict ==>
        nextFile == None && paddings == old(paddings) && AfterPadding() == old(AfterPadding())
      ensures filename in paginator.filedict ==>
        paddings == old(paddings) + PaddingRequest(paginator.filedict[filename], pageHeight)
      ensures filename in paginator.filedict && !old(Restorable()) ==>
        nextFile == None && AfterPadding() == old(AfterPadding())
      ensures filename in paginator.filedict ==>
        (old(inSearch) ==> vscroll == old(vscroll) && !inSearch)
        && (!old(inSearch) && old(goingBack) ==> vscroll == old(vscroll).SetValue(old(vscroll).upper))
        && (old(!inSearch && !goingBack && loadedPage in paginator.pagemap) ==>
              vscroll == old(vscroll).SetValue(ScrollTarget(old(vscroll), old(loadedPage))))
      ensures filename in paginator.filedict && old(Restorable()) ==>
        (old(internalLink).None? ==> loadedPage == old(loadedPage) && internalLink == None && nextFile == None)
        && (old(internalLink).Some? && paginator.GetBasePagenoForFile(filename).None? ==>
              loadedPage == old(loadedPage) && internalLink == old(internalLink) && nextFile == None)
        && (old(internalLink).Some? && paginator.GetBasePagenoForFile(filename).Some? ==>
              internalLink == None
              && loadedPage == LinkedPage(paginator.GetBasePagenoForFile(filename).value, linkPosition, paginator.single)
              && nextFile == (if BottomLink(paddedHeight, linkPosition) then paginator.GetNextFilename(filename) else None))
      ensures nextFile.Some? ==> !inSearch && !goingBack
      ensures nextFile.None? ==> goingBack == old(goingBack)
      ensures nextFile.None? && !old(inSearch) ==> inSearch == old(inSearch)
    {
      loadedFilename := Some(filename);
      nextFile := None;
      raised := AddBottomPadding(filename, pageHeight);
      if raised {
        return;
      }
      raised := RestoreScroll();
      if raised {
        return;
      }
      if internalLink.Some? {
        nextFile, raised := FollowLink(filename, paddedHeight, linkPosition);
      }
    }

    /** The padding `_view_load_finished_cb` adds below the loaded file; a file missing from the file table raises KeyError. */
    method AddBottomPadding(filename: string, pageHeight: int) returns (raised: bool)
      requires Valid()
      modifies this`paddings
      ensures raised <==> filename !in paginator.filedict
      ensures raised ==> paddings == old(paddings)
      ensures !raised ==> paddings == old(paddings) + PaddingRequest(paginator.filedict[filename], pageHeight)
    {
      if filename !in paginator.filedict {
        return true;
      }
      var remfactor := paginator.GetRemfactorForFile(filename);
      var pages := paginator.GetPagecountForFile(filename);
      var extra := BottomPadding(FileEntry(pages, remfactor), pageHeight);
      if extra > 0 {
        paddings := paddings + [extra];
      }
      return false;
    }

    /**
     * After a load: a search is over; otherwise the view scrolls to the end
     * (going back) or to the loaded page, which raises KeyError when that
     * page is not in the page map.
     */
    method RestoreScroll() returns (raised: bool)
      requires Valid()
      modifies this`inSearch, this`vscroll
      ensures Valid()
      ensures raised <==> !old(Restorable())
      ensures raised ==> vscroll == old(vscroll) && inSearch == old(inSearch)
      ensures old(inSearch) ==> vscroll == old(vscroll) && !inSearch
      ensures !old(inSearch) ==> inSearch == old(inSearch)
      ensures !old(inSearch) && goingBack ==> vscroll == old(vscroll).SetValue(old(vscroll).upper)
      ensures !old(inSearch) && !goingBack && !raised ==> vscroll == old(vscroll).SetValue(ScrollTarget(old(vscroll), loadedPage))
    {
      if inSearch {
        inSearch := false;
      } else if goingBack {
        ScrollPageEnd();
      } else if loadedPage !in paginator.pagemap {
        return true;
      } else {
        ScrollPage();
      }
      return false;
    }

    /**
     * The pending internal link moves the page number to the page holding
     * the link; a link in the file's last page-height names the next file.
     * `get_next_filename` is called as written, so the last file raises
     * IndexError where the corrected lookup gives None; either way no file
     * is opened next.
     */
    method FollowLink(filename: string, paddedHeight: int, linkPosition: int) returns (nextFile: Option<string>, raised: bool)
      requires Valid()
      modifies this`loadedPage, this`internalLink, this`inSearch, this`goingBack
      ensures Valid()
      ensures raised <==> LinkRaises(filename, paddedHeight, linkPosition)
      ensures paginator.GetBasePagenoForFile(filename).None? ==>
        nextFile == None && loadedPage == old(loadedPage) && internalLink == old(internalLink)
      ensures paginator.GetBasePagenoForFile(filename).Some? ==>
        internalLink == None
        && loadedPage == LinkedPage(paginator.GetBasePagenoForFile(filename).value, linkPosition, paginator.single)
        && nextFile == (if BottomLink(paddedHeight, linkPosition) then paginator.GetNextFilename(filename) else None)
      ensures nextFile.Some? ==> !inSearch && !goingBack
      ensures nextFile.None? ==> inSearch == old(inSearch) && goingBack == old(goingBack)
    {
      nextFile, raised := None, false;
      var initialPage := paginator.GetBasePagenoForFile(filename);
      if initialPage.None? {
        return None, true;
      }
      loadedPage := initialPage.value + FloorDiv(linkPosition, paginator.single);
      internalLink := None;
      if linkPosition > paddedHeight - paginator.single {
        match NextFilenameAsWritten(filelist, filename)
        case IndexError =>
          raised := true;
        case NoName =>
        case Next(name) =>
          nextFile := Some(name);
          inSearch := false;
          goingBack := false;
      }
    }

    /** `_prepare_text_to_speech`: keeps the words of the page text. */
    method PrepareTextToSpeech(text: string)
      modifies this`wordTuples
      ensures IsWordSplit(text, wordTuples)
    {
      wordTuples := SplitWords(text);
    }
  }
}
