/**
 * The older EPUB view (epubview/epubview.py): the same page map as the
 * newer view, but page moves always announce themselves, a move across a
 * file boundary walks the page map to the neighbouring file, and `_load_file`
 * searches pages instead of files.  The web view is represented by the
 * URIs the view opens and the files it copies; the 'page-changed' signal,
 * which carries no arguments here, by the loaded page at each emission.
 */
module EpubViewLegacy {
  import opened Wrappers
  import opened Builtins
  import opened Pagination
  import opened Adjustments
  import EpubView

  /** The URI `_load_page` opens for a page URI: an '.xml' file is opened through an '.xhtml' copy. */
  function OpenTarget(uri: string): (dest: string)
    ensures !EndsWith(uri, "xml") ==> dest == uri
  {
    if EndsWith(uri, "xml") then Replace(uri, "xml", "xhtml") else uri
  }

  /** The name `_view_load_finished_cb` keeps for a loaded URI: no scheme, 'xhtml' back to 'xml' when that file exists. */
  function LoadedName(uri: string, xmlVariantExists: bool): string {
    var name := StripScheme(uri);
    if xmlVariantExists then Replace(name, "xhtml", "xml") else name
  }

  /**
   * `_load_page` compares the page's URI with the name the view keeps,
   * which has lost its scheme: for a file of the book the two never agree,
   * so a page of the file on show is opened again instead of scrolled to.
   */
  lemma LoadedFileNeverMatches(f: string)
    requires !Occurs(SCHEME, f)
    ensures LoadedName(FileUri(f), false) == f
    ensures Some(FileUri(f)) != Some(LoadedName(FileUri(f), false))
  {
    StripFileUri(f);
    assert |FileUri(f)| == |SCHEME| + |f|;
  }

  /** The state a page load may change. */
  datatype NavState = NavState(pageChanged: bool, loadedPage: int, slider: int, emitted: seq<int>,
                               opens: seq<string>, copies: seq<(string, string)>, vscroll: Adjustment)

  /** `_View` of epubview/epubview.py, from the moment `_paginate` has created its paginator. */
  class LegacyView {
    const paginator: Paginator
    var ready: bool
    var pagecount: int
    var loadedPage: int
    var loadedFilename: Option<string>
    var goingFwd: bool
    var goingBack: bool
    var inSearch: bool
    /** `__page_changed`, read by the page slider's handler. */
    var pageChanged: bool
    /** The content's vertical scrollbar. */
    var vscroll: Adjustment
    /** The page slider's value. */
    var slider: int
    /** The loaded page at each 'page-changed' emission. */
    var emitted: seq<int>
    /** The URIs handed to the web view's `open`, in order. */
    var opens: seq<string>
    /** The `shutil.copy` calls (source, destination), in order. */
    var copies: seq<(string, string)>
    /** The bottom paddings added to loaded files, in order. */
    var paddings: seq<int>

    /**
     * Before 'paginated' nothing is loaded and there are no pages; after it
     * the view's page count is the book's.
     */
    ghost predicate Frame()
      reads this`ready, this`pagecount, this`vscroll, this`loadedPage, paginator
    {
      vscroll.Valid() && PaddableTable()
      && (!ready ==> pagecount == -1 && loadedPage == -1)
      && (ready ==> Book())
    }

    /** Every file-table entry leaves a positive divisor for the bottom padding. */
    ghost predicate PaddableTable()
      reads paginator
    {
      forall name | name in paginator.filedict ::
        paginator.filedict[name].pages as real - paginator.filedict[name].remainder >= 1.0
    }

    /** Outside `_paginated_cb` the loaded page of a paginated book is one of its pages 1..pagecount. */
    ghost predicate Valid()
      reads this`ready, this`pagecount, this`vscroll, this`loadedPage, paginator
    {
      Frame() && (ready ==> 1 <= loadedPage <= pagecount)
    }

    ghost predicate Book()
      reads this`pagecount, paginator
    {
      pagecount == paginator.pagecount && pagecount >= 1
      && forall n :: n in paginator.pagemap <==> 1 <= n <= pagecount
    }

    /** `__init__` followed by `_paginate`. */
    constructor (p: Paginator)
      requires p.Valid()
      ensures Valid() && paginator == p && !ready && pagecount == -1 && loadedPage == -1
      ensures loadedFilename == None && goingFwd && !goingBack && !inSearch && !pageChanged
      ensures emitted == [] && opens == [] && copies == [] && paddings == []
    {
      paginator := p;
      ready := false;
      pagecount := -1;
      loadedPage := -1;
      loadedFilename := None;
      goingFwd := true;
      goingBack := false;
      inSearch := false;
      pageChanged := false;
      vscroll := Adjustment(0.0, 0.0, 0.0, 0.0);
      slider := 0;
      emitted := [];
      opens := [];
      copies := [];
      paddings := [];
      FileDictEntries(p.filelist, p.measured, p.single);
    }

    function Nav(): NavState
      reads this`pageChanged, this`loadedPage, this`slider, this`emitted, this`opens, this`copies, this`vscroll
    {
      NavState(pageChanged, loadedPage, slider, emitted, opens, copies, vscroll)
    }

    predicate InRange(n: int)
      reads this`pagecount
    {
      1 <= n <= pagecount
    }

    /** The URI of page n, as the page map stores it. */
    function PageUri(n: int): string
      reads paginator
      requires n in paginator.pagemap
    {
      paginator.GetFileForPageno(n)
    }

    /** Where `_scroll_page` puts the scrollbar for page n. */
    function ScrollTarget(a: Adjustment, n: int): real
      reads paginator
      requires n in paginator.pagemap
    {
      (a.upper - a.pageSize) * paginator.GetScrollfactorPosForPageno(n)
    }

    /** `_on_page_changed`: always records the page and announces it, even when it is the loaded one. */
    method OnPageChanged(pageno: int)
      modifies this`pageChanged, this`loadedPage, this`slider, this`emitted
      ensures pageChanged && loadedPage == pageno && slider == pageno && emitted == old(emitted) + [pageno]
    {
      pageChanged := true;
      loadedPage := pageno;
      slider := pageno;
      emitted := emitted + [pageno];
    }

    /** `_scroll_page`. */
    method ScrollPage()
      requires Valid() && ready
      modifies this`vscroll
      ensures Valid() && vscroll == old(vscroll).SetValue(ScrollTarget(old(vscroll), loadedPage))
    {
      var scrollfactor := paginator.GetScrollfactorPosForPageno(loadedPage);
      vscroll := vscroll.SetValue((vscroll.upper - vscroll.pageSize) * scrollfactor);
    }

    /** `_scroll_page_end`. */
    method ScrollPageEnd()
      requires Valid()
      modifies this`vscroll
      ensures Valid() && vscroll == old(vscroll).SetValue(old(vscroll).upper)
    {
      vscroll := vscroll.SetValue(vscroll.upper);
    }

    /**
     * `_load_page`: an out-of-range page is ignored; any other page becomes
     * the loaded page and is announced before its file is looked at.  A
     * page whose URI is not the kept name is opened (an '.xml' file through
     * an '.xhtml' copy); otherwise the view scrolls to it.
     */
    method LoadPage(pageno: int)
      requires Frame()
      modifies this`pageChanged, this`loadedPage, this`slider, this`emitted, this`opens, this`copies, this`vscroll
      ensures Frame()
      ensures old(Valid()) || old(InRange(pageno)) ==> Valid()
      ensures !old(InRange(pageno)) ==> Nav() == old(Nav())
      ensures old(InRange(pageno)) ==>
        pageChanged && loadedPage == pageno && slider == pageno && emitted == old(emitted) + [pageno]
      ensures old(InRange(pageno)) && Some(PageUri(pageno)) != loadedFilename ==>
        opens == old(opens) + [OpenTarget(PageUri(pageno))] && vscroll == old(vscroll)
        && copies == old(copies)
           + (if EndsWith(PageUri(pageno), "xml") then [(StripScheme(PageUri(pageno)), StripScheme(OpenTarget(PageUri(pageno))))] else [])
      ensures old(InRange(pageno)) && Some(PageUri(pageno)) == loadedFilename ==>
        opens == old(opens) && copies == old(copies)
        && vscroll == old(vscroll).SetValue(ScrollTarget(old(vscroll), pageno))
    {
      if pageno > pagecount || pageno < 1 {
        return;
      }
      OnPageChanged(pageno);
      var filename := paginator.GetFileForPageno(pageno);
      if Some(filename) != loadedFilename {
        if EndsWith(filename, "xml") {
          var dest := Replace(filename, "xml", "xhtml");
          copies := copies + [(StripScheme(filename), StripScheme(dest))];
          opens := opens + [dest];
        } else {
          opens := opens + [filename];
        }
      } else {
        ScrollPage();
      }
    }

    /** `set_current_page`: False for a page outside 1..pagecount, which changes nothing. */
    method SetCurrentPage(n: int) returns (ok: bool)
      requires Valid()
      modifies this`pageChanged, this`loadedPage, this`slider, this`emitted, this`opens, this`copies, this`vscroll
      ensures Valid()
      ensures ok <==> old(InRange(n))
      ensures !ok ==> Nav() == old(Nav())
      ensures ok ==> loadedPage == n && emitted == old(emitted) + [n]
    {
      if n < 1 || n > pagecount {
        return false;
      }
      LoadPage(n);
      return true;
    }

    /** `next_page`: False on the last page; otherwise the following page is loaded. */
    method NextPage() returns (ok: bool)
      requires Valid()
      modifies this`pageChanged, this`loadedPage, this`slider, this`emitted, this`opens, this`copies, this`vscroll
      ensures Valid()
      ensures ok <==> old(loadedPage) != pagecount
      ensures !ok ==> Nav() == old(Nav())
      ensures ok && ready ==> loadedPage == old(loadedPage) + 1 && emitted == old(emitted) + [loadedPage]
    {
      if loadedPage == pagecount {
        return false;
      }
      LoadPage(loadedPage + 1);
      return true;
    }

    /** `previous_page`: False on page 1; otherwise the preceding page is loaded. */
    method PreviousPage() returns (ok: bool)
      requires Valid()
      modifies this`pageChanged, this`loadedPage, this`slider, this`emitted, this`opens, this`copies, this`vscroll
      ensures Valid()
      ensures ok <==> old(loadedPage) != 1
      ensures !ok ==> Nav() == old(Nav())
      ensures ok && ready ==> loadedPage == old(loadedPage) - 1 && emitted == old(emitted) + [loadedPage]
      ensures ok && !ready ==> Nav() == old(Nav())
    {
      if loadedPage == 1 {
        return false;
      }
      LoadPage(loadedPage - 1);
      return true;
    }

    /**
     * The loop of `_load_next_file`: from page p, the first later page in
     * another file, or the last page when every later page shares p's file.
     */
    method NextFileStart() returns (pageno: int)
      requires Valid() && ready && loadedPage != pagecount
      ensures loadedPage < pageno <= pagecount
      ensures forall q :: loadedPage < q < pageno ==> PageUri(q) == PageUri(loadedPage)
      ensures PageUri(pageno) != PageUri(loadedPage) || pageno == pagecount
    {
      var curFile := paginator.GetFileForPageno(loadedPage);
      pageno := loadedPage;
      while pageno < paginator.pagecount
        invariant loadedPage <= pageno <= pagecount
        invariant forall q :: loadedPage < q <= pageno ==> PageUri(q) == curFile
      {
        pageno := pageno + 1;
        if paginator.GetFileForPageno(pageno) != curFile {
          break;
        }
      }
    }

    /**
     * The loop of `_load_prev_file`: from page p, the nearest earlier page
     * in another file (the last page of the file before), or page 1.
     */
    method PrevFileStart() returns (pageno: int)
      requires Valid() && ready && loadedPage != 1
      ensures 1 <= pageno < loadedPage
      ensures forall q :: pageno < q < loadedPage ==> PageUri(q) == PageUri(loadedPage)
      ensures PageUri(pageno) != PageUri(loadedPage) || pageno == 1
    {
      var curFile := paginator.GetFileForPageno(loadedPage);
      pageno := loadedPage;
      while pageno > 1
        invariant 1 <= pageno <= loadedPage
        invariant forall q :: pageno <= q < loadedPage ==> PageUri(q) == curFile
      {
        pageno := pageno - 1;
        if paginator.GetFileForPageno(pageno) != curFile {
          break;
        }
      }
    }

    /** `_load_next_file`: nothing on the last page, else a jump to the start of the next file. */
    method LoadNextFile()
      requires Valid()
      modifies this`pageChanged, this`loadedPage, this`slider, this`emitted, this`opens, this`copies, this`vscroll
      ensures Valid()
      ensures old(loadedPage) == pagecount ==> Nav() == old(Nav())
      ensures old(loadedPage) != pagecount ==>
        old(loadedPage) < loadedPage && emitted == old(emitted) + [loadedPage]
        && (forall q :: old(loadedPage) < q < loadedPage ==> PageUri(q) == PageUri(old(loadedPage)))
        && (PageUri(loadedPage) != PageUri(old(loadedPage)) || loadedPage == pagecount)
    {
      if loadedPage == pagecount {
        return;
      }
      var pageno := NextFileStart();
      LoadPage(pageno);
    }

    /** `_load_prev_file`: nothing on page 1, else a jump to the last page of the file before. */
    method LoadPrevFile()
      requires Valid() && ready
      modifies this`pageChanged, this`loadedPage, this`slider, this`emitted, this`opens, this`copies, this`vscroll
      ensures Valid()
      ensures old(loadedPage) == 1 ==> Nav() == old(Nav())
      ensures old(loadedPage) != 1 ==>
        loadedPage < old(loadedPage) && emitted == old(emitted) + [loadedPage]
        && (forall q :: loadedPage < q < old(loadedPage) ==> PageUri(q) == PageUri(old(loadedPage)))
        && (PageUri(loadedPage) != PageUri(old(loadedPage)) || loadedPage == 1)
    {
      if loadedPage == 1 {
        return;
      }
      var pageno := PrevFileStart();
      LoadPage(pageno);
    }

    /** The loop of `_load_file`: the first of pages 1..pagecount-1 whose URI ends with `path`. */
    method FindPageEndingWith(path: string) returns (r: Option<int>)
      requires Valid()
      ensures r.Some? ==> 1 <= r.value < pagecount && EndsWith(PageUri(r.value), path)
      ensures r.Some? ==> forall q :: 1 <= q < r.value ==> !EndsWith(PageUri(q), path)
      ensures r.None? ==> forall q :: 1 <= q < pagecount ==> !EndsWith(PageUri(q), path)
    {
      var pageno := 1;
      while pageno < pagecount
        invariant pageno == 1 || (ready && pageno <= pagecount)
        invariant forall q :: 1 <= q < pageno ==> !EndsWith(PageUri(q), path)
      {
        if EndsWith(paginator.GetFileForPageno(pageno), path) {
          return Some(pageno);
        }
        pageno := pageno + 1;
      }
      return None;
    }

    /** `_load_file`: loads the first matching page; the last page is never tried. */
    method LoadFile(path: string)
      requires Valid()
      modifies this`pageChanged, this`loadedPage, this`slider, this`emitted, this`opens, this`copies, this`vscroll
      ensures Valid()
      ensures (forall q :: 1 <= q < pagecount ==> !EndsWith(PageUri(q), path)) ==> Nav() == old(Nav())
      ensures !(forall q :: 1 <= q < pagecount ==> !EndsWith(PageUri(q), path)) ==>
        1 <= loadedPage < pagecount && EndsWith(PageUri(loadedPage), path)
        && (forall q :: 1 <= q < loadedPage ==> !EndsWith(PageUri(q), path))
        && pageChanged && slider == loadedPage && emitted == old(emitted) + [loadedPage]
    {
      var found := FindPageEndingWith(path);
      if found.Some? {
        LoadPage(found.value);
      }
    }

    /**
     * `_do_page_transition`: at the bottom while going forward the next
     * file is loaded, at the top while going back the previous one.
     */
    method DoPageTransition() returns (moved: bool)
      requires Valid() && (!goingFwd && goingBack && vscroll.AtStart() ==> ready)
      modifies this`pageChanged, this`loadedPage, this`slider, this`emitted, this`opens, this`copies, this`vscroll
      ensures Valid()
      ensures moved <==> (goingFwd && old(vscroll).AtEnd()) || (!goingFwd && goingBack && old(vscroll).AtStart())
      ensures !moved ==> Nav() == old(Nav())
      ensures moved && goingFwd && old(loadedPage) != pagecount ==> old(loadedPage) < loadedPage
      ensures moved && !goingFwd && old(loadedPage) != 1 ==> loadedPage < old(loadedPage)
    {
      if goingFwd {
        if vscroll.value >= vscroll.upper - vscroll.pageSize {
          LoadNextFile();
          return true;
        }
      } else if goingBack {
        if vscroll.value == vscroll.lower {
          LoadPrevFile();
          return true;
        }
      }
      return false;
    }

    /**
     * `_v_scrollbar_value_changed_cb`: the same rule as the newer view, a
     * page forward once the scroll reaches the next page's start and back
     * once it is at or above the current page's start, inside one file.
     */
    method VScrollbarValueChanged()
      requires Valid()
      modifies this`pageChanged, this`loadedPage, this`slider, this`emitted
      ensures Valid()
      ensures loadedPage == old(loadedPage) + 1 <==>
        old(loadedPage) >= 1 && goingFwd && old(loadedPage) < pagecount
        && PageUri(old(loadedPage)) == PageUri(old(loadedPage) + 1)
        && ScrollFraction(vscroll) >= paginator.GetScrollfactorPosForPageno(old(loadedPage) + 1)
      ensures loadedPage == old(loadedPage) - 1 <==>
        old(loadedPage) > 1 && !(goingFwd && old(loadedPage) < pagecount) && goingBack
        && PageUri(old(loadedPage)) == PageUri(old(loadedPage) - 1)
        && ScrollFraction(vscroll) <= paginator.GetScrollfactorPosForPageno(old(loadedPage))
      ensures loadedPage == old(loadedPage) ==> pageChanged == old(pageChanged) && slider == old(slider) && emitted == old(emitted)
      ensures loadedPage != old(loadedPage) ==>
        (loadedPage == old(loadedPage) + 1 || loadedPage == old(loadedPage) - 1) && emitted == old(emitted) + [loadedPage]
    {
      if loadedPage < 1 {
        return;
      }
      var scrollfactor := ScrollFraction(vscroll);
      if goingFwd && loadedPage != pagecount {
        if paginator.GetFileForPageno(loadedPage) != paginator.GetFileForPageno(loadedPage + 1) {
          return;
        }
        var scrollfactorNext := paginator.GetScrollfactorPosForPageno(loadedPage + 1);
        if scrollfactor >= scrollfactorNext {
          OnPageChanged(loadedPage + 1);
        }
      } else if goingBack && loadedPage > 1 {
        if paginator.GetFileForPageno(loadedPage) != paginator.GetFileForPageno(loadedPage - 1) {
          return;
        }
        var scrollfactorCur := paginator.GetScrollfactorPosForPageno(loadedPage);
        if scrollfactor <= scrollfactorCur {
          OnPageChanged(loadedPage - 1);
        }
      }
    }

    /** `_paginated_cb`: the page count comes from the paginator and page 1 is loaded if nothing is. */
    method PaginatedCb()
      requires Valid() && paginator.Valid() && paginator.paginated
      modifies this`ready, this`pagecount
      modifies this`pageChanged, this`loadedPage, this`slider, this`emitted, this`opens, this`copies, this`vscroll
      ensures Valid() && ready && pagecount == paginator.pagecount
      ensures old(loadedPage) < 1 ==> loadedPage == 1 && emitted == old(emitted) + [1]
      ensures old(loadedPage) >= 1 ==> Nav() == old(Nav())
    {
      BookPageCount(paginator.filelist, paginator.measured, paginator.single);
      ready := true;
      pagecount := paginator.pagecount;
      if loadedPage < 1 {
        LoadPage(1);
      }
    }

    /**
     * `_view_load_finished_cb`: with a page loaded, the name is kept and the
     * file padded below (`pageHeight` is the web view's page height) as the
     * newer view does; then a search ends or the view scrolls to the end
     * (going back) or to the loaded page.  A name missing from the file
     * table raises KeyError before the padding.
     */
    method LoadFinished(uri: string, xmlVariantExists: bool, pageHeight: int) returns (raised: bool)
      requires Valid()
      modifies this`loadedFilename, this`paddings, this`inSearch, this`vscroll
      ensures Valid()
      ensures old(loadedPage) < 1 ==>
        !raised && loadedFilename == old(loadedFilename) && paddings == old(paddings)
        && inSearch == old(inSearch) && vscroll == old(vscroll)
      ensures old(loadedPage) >= 1 ==>
        loadedFilename == Some(LoadedName(uri, xmlVariantExists))
        && (raised <==> LoadedName(uri, xmlVariantExists) !in paginator.filedict)
      ensures raised ==> paddings == old(paddings) && inSearch == old(inSearch) && vscroll == old(vscroll)
      ensures old(loadedPage) >= 1 && !raised ==>
        paddings == old(paddings) + EpubView.PaddingRequest(paginator.filedict[LoadedName(uri, xmlVariantExists)], pageHeight)
      ensures old(loadedPage) >= 1 && !raised && old(inSearch) ==> !inSearch && vscroll == old(vscroll)
      ensures old(loadedPage) >= 1 && !raised && !old(inSearch) && goingBack ==>
        inSearch == old(inSearch) && vscroll == old(vscroll).SetValue(old(vscroll).upper)
      ensures old(loadedPage) >= 1 && !raised && !old(inSearch) && !goingBack ==>
        inSearch == old(inSearch) && vscroll == old(vscroll).SetValue(ScrollTarget(old(vscroll), loadedPage))
    {
      var filename := LoadedName(uri, xmlVariantExists);
      if loadedPage < 1 {
        return false;
      }
      loadedFilename := Some(filename);
      if filename !in paginator.filedict {
        return true;
      }
      var remfactor := paginator.GetRemfactorForFile(filename);
      var pages := paginator.GetPagecountForFile(filename);
      var extra := EpubView.BottomPadding(FileEntry(pages, remfactor), pageHeight);
      if extra > 0 {
        paddings := paddings + [extra];
      }
      raised := false;
      if inSearch {
        inSearch := false;
      } else if goingBack {
        ScrollPageEnd();
      } else {
        ScrollPage();
      }
    }
  }
}
