/**
 * Virtual pagination of a reflowable book (epubview/jobs.py).
 *
 * A book is a list of files.  The renderer reports each file's content
 * height in pixels, one file at a time and in list order.  A file of
 * height `h` gets `ceil(h / H)` virtual pages of the single page height
 * `H` (at least one), and every virtual page records the file it lies in,
 * where it starts as a fraction of the file's scroll range, and what
 * fraction of that range it spans.  Fractions are exact rationals here.
 */
module Pagination {
  import opened Wrappers
  import opened Builtins

  const PAGE_WIDTH: int := 135
  const PAGE_HEIGHT: int := 216
  /** The paginator always measures at this resolution. */
  const DPI: int := 96
  const SCHEME: string := "file://"

  /** `_mm_to_pixel`: millimetres to pixels at `dpi`, with `int()` truncating toward zero. */
  function MmToPixel(mm: int, dpi: int): (px: int)
    ensures mm * dpi >= 0 ==> 0 <= px && px as real <= mm as real * 0.03937 * dpi as real < px as real + 1.0
    ensures mm * dpi < 0 ==> px <= 0 && px as real - 1.0 < mm as real * 0.03937 * dpi as real <= px as real
  {
    assert mm as real * 0.03937 * dpi as real == (mm * dpi) as real * 0.03937;
    Trunc(mm as real * 0.03937 * dpi as real)
  }

  /** `_pixel_to_mm`: `pixel / dpi` is Python 2 integer division, so whole inches only; None is the ZeroDivisionError. */
  function PixelToMm(pixel: int, dpi: int): (mm: Option<int>)
    ensures mm.Some? <==> dpi != 0
    ensures pixel >= 0 && dpi > 0 ==> mm.value >= 0 && mm.value as real * 0.03937 <= pixel as real / dpi as real
  {
    if dpi == 0 then None
    else
      var inches := FloorDiv(pixel, dpi);
      assert pixel >= 0 && dpi > 0 ==> 0 <= inches && inches as real <= pixel as real / dpi as real by {
        if pixel >= 0 && dpi > 0 {
          WholePartOfQuotient(pixel, dpi, inches);
        }
      }
      Some(Trunc(inches as real / 0.03937))
  }

  lemma WholePartOfQuotient(a: int, d: int, q: int)
    requires a >= 0 && d > 0 && q * d <= a < q * d + d
    ensures 0 <= q && q as real <= a as real / d as real
  {
    assert (q * d) as real == q as real * d as real;
    assert q as real * d as real <= a as real;
    assert a as real / d as real * d as real == a as real;
  }

  /** With the constants the paginator uses, one page is 816 pixels high and 510 wide. */
  lemma PageSizeInPixels()
    ensures MmToPixel(PAGE_HEIGHT, DPI) == 816
    ensures MmToPixel(PAGE_WIDTH, DPI) == 510
  {
  }

  /** Converting back loses precision: the 816-pixel page reads as 203 mm, because whole inches are kept. */
  lemma PixelToMmIsNotAnInverse()
    ensures PixelToMm(MmToPixel(PAGE_HEIGHT, DPI), DPI) == Some(203)
  {
    PageSizeInPixels();
    assert FloorDiv(816, 96) == 8;
  }

  /** One virtual page: the renderer's URI of its file, start and length as fractions of the file. */
  datatype PageRecord = PageRecord(uri: string, position: real, length: real)

  /** What `_filedict` keeps per file: its page count and its remainder factor. */
  datatype FileEntry = FileEntry(pages: int, remainder: real)

  /** The URI the renderer reports for a measured local file. */
  function FileUri(path: string): string {
    SCHEME + path
  }

  /** `uri.replace('file://', '')`. */
  function StripScheme(uri: string): string {
    Replace(uri, SCHEME, "")
  }

  /** A plain path comes back unchanged from its URI. */
  lemma StripFileUri(path: string)
    requires !Occurs(SCHEME, path)
    ensures StripScheme(FileUri(path)) == path
  {
    ReplaceLeading(path, SCHEME, "");
    ReplaceAbsent(path, SCHEME, "");
  }

  /** `pages` in `_page_load_finished_cb`: 1 for a file no taller than one page, else h / H. */
  function FractionalPages(h: nat, single: nat): (p: real)
    requires single > 0
    ensures p >= 1.0
  {
    if h <= single then 1.0 else h as real / single as real
  }

  /** `ceil(pages)`: the number of virtual pages a file gets. */
  function PagesInFile(h: nat, single: nat): (k: int)
    requires single > 0
    ensures k >= 1
    ensures h <= single ==> k == 1
    ensures (k as real) - 1.0 < FractionalPages(h, single) <= k as real
  {
    Ceil(FractionalPages(h, single))
  }

  /** A file gets the least number of pages whose total height holds it, and one page even when empty. */
  lemma PagesInFileHoldsFile(h: nat, single: nat)
    requires single > 0
    ensures var k := PagesInFile(h, single);
      h <= k * single && (h > single ==> (k - 1) * single < h)
  {
    var k := PagesInFile(h, single);
    if h > single {
      CeilOfRatio(h, single, k);
    } else {
      assert k == 1;
    }
  }

  /** If k is the ceiling of h / d then h lies in ((k - 1) * d, k * d]. */
  lemma CeilOfRatio(h: nat, d: nat, k: int)
    requires d > 0 && (k as real) - 1.0 < h as real / d as real <= k as real
    ensures (k - 1) * d < h <= k * d
  {
    var c := d as real;
    var p := h as real / c;
    var lo := (k - 1) as real;
    assert p * c == h as real;
    MulMonotone(lo, p, c);
    MulMonotone(p, k as real, c);
    ProductAsReal(k - 1, d);
    ProductAsReal(k, d);
    assert ((k - 1) * d) as real < h as real;
    assert h as real <= (k * d) as real;
  }

  lemma MulMonotone(x: real, y: real, c: real)
    requires c > 0.0
    ensures x < y ==> x * c < y * c
    ensures x <= y ==> x * c <= y * c
  {
  }

  lemma MulCancelReal(x: real, y: real, c: real)
    requires c > 0.0
    ensures x * c < y * c ==> x < y
    ensures x * c <= y * c ==> x <= y
  {
  }

  /** The length fraction of local page `i` (1-based) of a file with `p` fractional pages. */
  function PageLength(p: real, i: int): real
    requires p > 0.0
  {
    if p - i as real < 0.0 then (p - p.Floor as real) / p else 1.0 / p
  }

  /** Where local page i (0-based) of a k-page file starts. */
  function Position(i: int, k: int): real
    requires k > 0
  {
    i as real / k as real
  }

  lemma PositionOrder(i: int, j: int, k: int)
    requires 0 <= i < j && k > 0
    ensures 0.0 <= Position(i, k) < Position(j, k)
    ensures Position(i, k) * k as real == i as real
  {
    var x, y, c := Position(i, k), Position(j, k), k as real;
    assert x * c == i as real && y * c == j as real;
    MulCancelReal(x, y, c);
    MulCancelReal(0.0, x, c);
  }

  lemma PositionBounds(i: int, k: int)
    requires 0 <= i < k
    ensures 0.0 <= Position(i, k) < 1.0
    ensures Position(i, k) * k as real == i as real
  {
    var x, c := Position(i, k), k as real;
    assert x * c == i as real;
    MulCancelReal(x, 1.0, c);
    MulCancelReal(0.0, x, c);
  }

  /** The k pages of a file of p fractional pages. */
  function PageRun(uri: string, p: real, k: int): (r: seq<PageRecord>)
    requires k > 0 && p > 0.0
    ensures |r| == k
  {
    seq(k, i requires 0 <= i < k => PageRecord(uri, Position(i, k), PageLength(p, i + 1)))
  }

  /** The virtual pages of one measured file, in local order. */
  function FilePages(uri: string, h: nat, single: nat): (r: seq<PageRecord>)
    requires single > 0
    ensures |r| == PagesInFile(h, single)
  {
    PageRun(uri, FractionalPages(h, single), PagesInFile(h, single))
  }

  /** The remainder factor `ceil(pages) - pages` kept for a file. */
  function FileRemainder(h: nat, single: nat): real
    requires single > 0
  {
    PagesInFile(h, single) as real - FractionalPages(h, single)
  }

  lemma RunPositions(uri: string, p: real, k: int)
    requires k > 0 && p > 0.0
    ensures var r := PageRun(uri, p, k);
      r[0].position == 0.0 &&
      (forall i :: 0 <= i < k ==>
        r[i].uri == uri && 0.0 <= r[i].position < 1.0 && r[i].position * k as real == i as real) &&
      (forall i, j :: 0 <= i < j < k ==> r[i].position < r[j].position)
  {
    var r := PageRun(uri, p, k);
    forall i | 0 <= i < k
      ensures r[i].uri == uri && 0.0 <= r[i].position < 1.0 && r[i].position * k as real == i as real
    {
      assert r[i].position == Position(i, k);
      PositionBounds(i, k);
    }
    forall i, j | 0 <= i < j < k
      ensures r[i].position < r[j].position
    {
      assert r[i].position == Position(i, k) && r[j].position == Position(j, k);
      PositionOrder(i, j, k);
    }
  }

  /** Local page i starts at i/k of the file: the first at 0, each later one further down, all before the end. */
  lemma PositionsEvenlySpaced(uri: string, h: nat, single: nat)
    requires single > 0
    ensures var r := FilePages(uri, h, single);
      r[0].position == 0.0 &&
      (forall i :: 0 <= i < |r| ==>
        r[i].uri == uri && 0.0 <= r[i].position < 1.0 && r[i].position * |r| as real == i as real) &&
      (forall i, j :: 0 <= i < j < |r| ==> r[i].position < r[j].position)
  {
    RunPositions(uri, FractionalPages(h, single), PagesInFile(h, single));
  }

  /** Sum of the length fractions of a run of pages. */
  function SumLengths(s: seq<PageRecord>): real {
    if s == [] then 0.0 else SumLengths(s[..|s| - 1]) + s[|s| - 1].length
  }

  lemma {:induction false} SumOfEqualLengths(s: seq<PageRecord>, n: nat, len: real)
    requires n <= |s|
    requires forall i :: 0 <= i < n ==> s[i].length == len
    ensures SumLengths(s[..n]) == n as real * len
  {
    if n > 0 {
      assert s[..n][..n - 1] == s[..n - 1];
      SumOfEqualLengths(s, n - 1, len);
    }
  }

  lemma RunLengths(uri: string, p: real, k: int)
    requires k > 0 && (k as real) - 1.0 < p <= k as real
    ensures var r := PageRun(uri, p, k);
      (forall i :: 0 <= i < k ==>
        r[i].length == if i == k - 1 && p != k as real then (p - p.Floor as real) / p else 1.0 / p) &&
      SumLengths(r) == 1.0
  {
    var r := PageRun(uri, p, k);
    forall i | 0 <= i < k
      ensures r[i].length == if i == k - 1 && p != k as real then (p - p.Floor as real) / p else 1.0 / p
    {
      assert r[i].length == PageLength(p, i + 1);
    }
    assert r[..k] == r;
    if p == k as real {
      SumOfEqualLengths(r, k, 1.0 / p);
      assert k as real * (1.0 / p) == 1.0;
    } else {
      SumOfEqualLengths(r, k - 1, 1.0 / p);
      assert r[..k][..k - 1] == r[..k - 1];
      assert p.Floor == k - 1;
      assert SumLengths(r) == (k - 1) as real * (1.0 / p) + (p - (k - 1) as real) / p;
    }
  }

  /**
   * Every page spans 1/p of the file except the last page of a file with a
   * non-integral page count p, which spans (p - floor p)/p; so the lengths
   * of one file's pages add up to exactly 1.
   */
  lemma LengthsPartitionFile(uri: string, h: nat, single: nat)
    requires single > 0
    ensures var r := FilePages(uri, h, single);
      var p := FractionalPages(h, single);
      (forall i :: 0 <= i < |r| ==>
        r[i].length == if i == |r| - 1 && p != |r| as real then (p - p.Floor as real) / p else 1.0 / p) &&
      SumLengths(r) == 1.0
  {
    RunLengths(uri, FractionalPages(h, single), PagesInFile(h, single));
  }

  /** The remainder factor lies in [0, 1), is 0 exactly when p is whole, and so is 0 for a one-page file. */
  lemma RemainderBounds(h: nat, single: nat)
    requires single > 0
    ensures 0.0 <= FileRemainder(h, single) < 1.0
    ensures FileRemainder(h, single) == 0.0 <==> FractionalPages(h, single) == PagesInFile(h, single) as real
    ensures PagesInFile(h, single) == 1 ==> FileRemainder(h, single) == 0.0
  {
  }

  /** The pages of the first `|heights|` files of the book, in file order. */
  function BookPages(files: seq<string>, heights: seq<nat>, single: nat): seq<PageRecord>
    requires single > 0 && |heights| <= |files|
    decreases |heights|
  {
    if heights == [] then []
    else
      var n := |heights| - 1;
      BookPages(files, heights[..n], single) + FilePages(FileUri(files[n]), heights[n], single)
  }

  /** The number of pages before file `j`: file j's pages are numbered First + 1 .. First + PagesInFile. */
  function First(files: seq<string>, heights: seq<nat>, single: nat, j: nat): int
    requires single > 0 && j <= |heights| <= |files|
  {
    |BookPages(files, heights[..j], single)|
  }

  /** `_pagemap`: 1-based page numbers onto records. */
  function PageMap(pages: seq<PageRecord>): (m: map<int, PageRecord>)
    ensures forall n :: n in m <==> 1 <= n <= |pages|
  {
    map n | 1 <= n <= |pages| :: PageAt(pages, n)
  }

  /** Page number n (1-based) of a run of pages. */
  function PageAt(pages: seq<PageRecord>, n: int): PageRecord
    requires 1 <= n <= |pages|
  {
    pages[n - 1]
  }

  /** Numbering a further run of pages keeps every earlier number and gives the run the next numbers. */
  lemma PageMapOfAppend(book: seq<PageRecord>, run: seq<PageRecord>, uri: string)
    requires forall i :: 0 <= i < |run| ==> run[i].uri == uri
    ensures var m := PageMap(book + run);
      (forall n | n in PageMap(book) :: n in m && m[n] == PageMap(book)[n]) &&
      (forall n | |book| < n <= |book| + |run| :: n in m && m[n].uri == uri)
  {
    var m := PageMap(book + run);
    forall n | n in PageMap(book)
      ensures n in m && m[n] == PageMap(book)[n]
    {
      assert PageAt(book + run, n) == PageAt(book, n);
    }
    forall n | |book| < n <= |book| + |run|
      ensures n in m && m[n].uri == uri
    {
      assert PageAt(book + run, n) == run[n - |book| - 1];
    }
  }

  /** Numbering one more page keeps every earlier number. */
  lemma PageMapExtend(pages: seq<PageRecord>, r: PageRecord)
    ensures PageMap(pages + [r]) == PageMap(pages)[|pages| + 1 := r]
  {
    var lhs := PageMap(pages + [r]);
    var rhs := PageMap(pages)[|pages| + 1 := r];
    assert lhs.Keys == rhs.Keys;
    forall n | n in lhs
      ensures lhs[n] == rhs[n]
    {
      assert PageAt(pages + [r], n) == if n <= |pages| then PageAt(pages, n) else r;
    }
  }

  /** `_filedict`: later files with the same name overwrite earlier ones, as dict assignment does. */
  function FileDict(files: seq<string>, heights: seq<nat>, single: nat): map<string, FileEntry>
    requires single > 0 && |heights| <= |files|
    decreases |heights|
  {
    if heights == [] then map[]
    else
      var n := |heights| - 1;
      FileDict(files, heights[..n], single)[StripScheme(FileUri(files[n])) :=
        FileEntry(PagesInFile(heights[n], single), FileRemainder(heights[n], single))]
  }

  function SumHeights(heights: seq<nat>): nat {
    if heights == [] then 0 else SumHeights(heights[..|heights| - 1]) + heights[|heights| - 1]
  }

  function SumPages(heights: seq<nat>, single: nat): int
    requires single > 0
  {
    if heights == [] then 0 else SumPages(heights[..|heights| - 1], single) + PagesInFile(heights[|heights| - 1], single)
  }

  /** The total page count is the sum of the per-file page counts. */
  lemma {:induction false} BookPageCount(files: seq<string>, heights: seq<nat>, single: nat)
    requires single > 0 && |heights| <= |files|
    ensures |BookPages(files, heights, single)| == SumPages(heights, single) >= |heights|
    decreases |heights|
  {
    if heights != [] {
      BookPageCount(files, heights[..|heights| - 1], single);
    }
  }

  /** Measuring one more file leaves every earlier page where it was and appends the new file's pages. */
  lemma BookPagesAppend(files: seq<string>, heights: seq<nat>, h: nat, single: nat)
    requires single > 0 && |heights| < |files|
    ensures BookPages(files, heights + [h], single)
      == BookPages(files, heights, single) + FilePages(FileUri(files[|heights|]), h, single)
    ensures FileDict(files, heights + [h], single)
      == FileDict(files, heights, single)[StripScheme(FileUri(files[|heights|])) :=
           FileEntry(PagesInFile(h, single), FileRemainder(h, single))]
    ensures SumHeights(heights + [h]) == SumHeights(heights) + h
  {
    assert (heights + [h])[..|heights|] == heights;
  }

  /** The book's pages for a prefix of the files are a prefix of the book's pages. */
  lemma {:induction false} BookPagesPrefix(files: seq<string>, heights: seq<nat>, single: nat, j: nat)
    requires single > 0 && j <= |heights| <= |files|
    ensures BookPages(files, heights[..j], single) <= BookPages(files, heights, single)
    decreases |heights| - j
  {
    if j < |heights| {
      var n := |heights| - 1;
      BookPagesPrefix(files, heights[..n], single, j);
      assert heights[..n][..j] == heights[..j];
    } else {
      assert heights[..j] == heights;
    }
  }

  /** File j's pages come right after those of the files before it. */
  lemma FirstStep(files: seq<string>, heights: seq<nat>, single: nat, j: nat)
    requires single > 0 && j < |heights| <= |files|
    ensures First(files, heights, single, j + 1)
      == First(files, heights, single, j) + PagesInFile(heights[j], single)
  {
    assert heights[..j + 1][..j] == heights[..j];
  }

  /**
   * File j owns the contiguous page run First(j) + 1 .. First(j + 1), and
   * that run is exactly its own pages: earlier files get lower page numbers.
   */
  lemma FileRun(files: seq<string>, heights: seq<nat>, single: nat, j: nat)
    requires single > 0 && j < |heights| <= |files|
    ensures First(files, heights, single, j + 1)
      == First(files, heights, single, j) + PagesInFile(heights[j], single)
    ensures var book := BookPages(files, heights, single);
      First(files, heights, single, j + 1) <= |book| &&
      book[First(files, heights, single, j)..First(files, heights, single, j + 1)]
        == FilePages(FileUri(files[j]), heights[j], single)
  {
    var book := BookPages(files, heights, single);
    var pre := BookPages(files, heights[..j + 1], single);
    assert heights[..j + 1][..j] == heights[..j];
    assert pre == BookPages(files, heights[..j], single) + FilePages(FileUri(files[j]), heights[j], single);
    BookPagesPrefix(files, heights, single, j + 1);
    assert book[..|pre|] == pre;
  }

  /** Page runs of files come in file order: a later file's first page is after all of an earlier file's pages. */
  lemma {:induction false} FirstMonotone(files: seq<string>, heights: seq<nat>, single: nat, i: nat, j: nat)
    requires single > 0 && i <= j <= |heights| <= |files|
    ensures First(files, heights, single, i) + (j - i) <= First(files, heights, single, j)
    decreases j - i
  {
    if i < j {
      FileRun(files, heights, single, j - 1);
      FirstMonotone(files, heights, single, i, j - 1);
    }
  }

  /** Every page of the book lies in the run of exactly one file. */
  lemma {:induction false} PageOwner(files: seq<string>, heights: seq<nat>, single: nat, n: nat) returns (j: nat)
    requires single > 0 && |heights| <= |files|
    requires n < |BookPages(files, heights, single)|
    ensures j < |heights|
    ensures First(files, heights, single, j) <= n < First(files, heights, single, j + 1)
    ensures BookPages(files, heights, single)[n].uri == FileUri(files[j])
    decreases |heights|
  {
    var m := |heights| - 1;
    var pre := heights[..m];
    var book := BookPages(files, heights, single);
    assert heights[..m + 1] == heights;
    FileRun(files, heights, single, m);
    if n < First(files, heights, single, m) {
      assert BookPages(files, pre, single) == book[..|BookPages(files, pre, single)|];
      j := PageOwner(files, pre, single, n);
      forall i | 0 <= i <= j + 1
        ensures First(files, pre, single, i) == First(files, heights, single, i)
      {
        assert pre[..i] == heights[..i];
      }
    } else {
      j := m;
      PositionsEvenlySpaced(FileUri(files[m]), heights[m], single);
      var fp := FilePages(FileUri(files[m]), heights[m], single);
      assert book[n] == fp[n - First(files, heights, single, m)];
    }
  }

  /** No two entries of the file list are the same file. */
  ghost predicate Distinct(files: seq<string>) {
    forall i, j :: 0 <= i < j < |files| ==> files[i] != files[j]
  }

  /** With distinct files, page n belongs to file j exactly when n lies in file j's run. */
  lemma PageBelongsToFile(files: seq<string>, heights: seq<nat>, single: nat, n: nat, j: nat)
    requires single > 0 && |heights| <= |files| && Distinct(files)
    requires n < |BookPages(files, heights, single)| && j < |heights|
    ensures BookPages(files, heights, single)[n].uri == FileUri(files[j])
      <==> First(files, heights, single, j) <= n < First(files, heights, single, j + 1)
  {
    var o := PageOwner(files, heights, single, n);
    if o < j {
      FirstMonotone(files, heights, single, o + 1, j);
    } else if o > j {
      FirstMonotone(files, heights, single, j + 1, o);
    }
    if o != j {
      assert FileUri(files[o]) != FileUri(files[j]) by {
        assert files[o] != files[j];
        assert FileUri(files[o])[|SCHEME|..] == files[o];
        assert FileUri(files[j])[|SCHEME|..] == files[j];
      }
    }
  }

  /** Index of the first occurrence of `x` in `s`. */
  function IndexOf(s: seq<string>, x: string): (r: Option<nat>)
    ensures r.None? <==> x !in s
    ensures r.Some? ==> r.value < |s| && s[r.value] == x && x !in s[..r.value]
  {
    if s == [] then None
    else if s[0] == x then Some(0)
    else
      var r := IndexOf(s[1..], x);
      if r.None? then None
      else
        assert s[1..][..r.value] == s[1..r.value + 1];
        Some(r.value + 1)
  }

  /** What `get_next_filename` can do: return a name, return None, or raise IndexError. */
  datatype NextName = Next(name: string) | NoName | IndexError

  /**
   * `get_next_filename` as written: its guard `n < len(self._filelist)` always
   * holds inside `for n in range(len(self._filelist))`, so for the last file
   * it reads `self._filelist[n + 1]`, one past the end.
   */
  function NextFilenameAsWritten(files: seq<string>, actual: string): NextName {
    match IndexOf(files, actual)
    case None => NoName
    case Some(n) => if n + 1 < |files| then Next(files[n + 1]) else IndexError
  }

  /** The failure, on the smallest book: asking for the file after the only file raises IndexError. */
  lemma NextFilenameOfLastFileRaises(f: string)
    ensures NextFilenameAsWritten([f], f) == IndexError
  {
    assert IndexOf([f], f) == Some(0);
  }

  /** `get_next_filename` as intended: the file after `actual`, or None for the last or an unknown file. */
  function NextFilename(files: seq<string>, actual: string): Option<string> {
    match IndexOf(files, actual)
    case None => None
    case Some(n) => if n + 1 < |files| then Some(files[n + 1]) else None
  }

  /**
   * The corrected lookup never fails: for distinct files it returns the
   * list successor of each non-last file, None for the last one and for
   * names not in the list, and it agrees with the written code wherever
   * that code does not raise.
   */
  lemma NextFilenameSpec(files: seq<string>, actual: string)
    requires Distinct(files)
    ensures actual !in files ==> NextFilename(files, actual) == None
    ensures forall j :: 0 <= j < |files| - 1 && files[j] == actual ==> NextFilename(files, actual) == Some(files[j + 1])
    ensures |files| > 0 && files[|files| - 1] == actual ==> NextFilename(files, actual) == None
    ensures NextFilenameAsWritten(files, actual) != IndexError ==>
      NextFilename(files, actual) == match NextFilenameAsWritten(files, actual)
        case Next(name) => Some(name)
        case _ => None
  {
    var r := IndexOf(files, actual);
    if r.Some? {
      forall j | 0 <= j < |files| && files[j] == actual
        ensures j == r.value
      {
        assert files[j] == files[r.value];
      }
    }
  }

  /** The smallest page number (from `n` on) whose file, stripped of its scheme, is `name`. */
  function BasePageFrom(pages: seq<PageRecord>, name: string, n: nat): (r: Option<int>)
    requires n <= |pages|
    ensures r.None? <==> forall i :: n <= i < |pages| ==> StripScheme(pages[i].uri) != name
    ensures r.Some? ==> n + 1 <= r.value <= |pages| && StripScheme(pages[r.value - 1].uri) == name
    ensures r.Some? ==> forall i :: n <= i < r.value - 1 ==> StripScheme(pages[i].uri) != name
    decreases |pages| - n
  {
    if n == |pages| then None
    else if StripScheme(pages[n].uri) == name then Some(n + 1)
    else BasePageFrom(pages, name, n + 1)
  }

  /**
   * Round trip: in a fully measured book of distinct plain paths, the base
   * page of file j is the first page of its run, and that page lies in file j.
   */
  lemma BasePageRoundTrip(files: seq<string>, heights: seq<nat>, single: nat, j: nat)
    requires single > 0 && |heights| == |files| && Distinct(files)
    requires forall f | f in files :: !Occurs(SCHEME, f)
    requires j < |files|
    ensures var book := BookPages(files, heights, single);
      BasePageFrom(book, files[j], 0) == Some(First(files, heights, single, j) + 1) &&
      book[First(files, heights, single, j)].uri == FileUri(files[j])
  {
    var book := BookPages(files, heights, single);
    var b := First(files, heights, single, j);
    FirstPageOfRun(files, heights, single, j);
    StripFileUri(files[j]);
    forall i | 0 <= i < b
      ensures StripScheme(book[i].uri) != files[j]
    {
      EarlierPageOtherFile(files, heights, single, i, j);
    }
    var r := BasePageFrom(book, files[j], 0);
    assert StripScheme(book[b].uri) == files[j];
    assert r.Some?;
    assert r.value - 1 >= b;
  }

  lemma FirstPageOfRun(files: seq<string>, heights: seq<nat>, single: nat, j: nat)
    requires single > 0 && j < |heights| <= |files|
    ensures First(files, heights, single, j) < |BookPages(files, heights, single)|
    ensures BookPages(files, heights, single)[First(files, heights, single, j)].uri == FileUri(files[j])
  {
    var b := First(files, heights, single, j);
    FileRun(files, heights, single, j);
    assert BookPages(files, heights, single)[b] == FilePages(FileUri(files[j]), heights[j], single)[0];
    PositionsEvenlySpaced(FileUri(files[j]), heights[j], single);
  }

  lemma EarlierPageOtherFile(files: seq<string>, heights: seq<nat>, single: nat, i: nat, j: nat)
    requires single > 0 && |heights| <= |files| && Distinct(files)
    requires forall f | f in files :: !Occurs(SCHEME, f)
    requires j < |heights| && i < First(files, heights, single, j)
    ensures i < |BookPages(files, heights, single)|
    ensures StripScheme(BookPages(files, heights, single)[i].uri) != files[j]
  {
    FileRun(files, heights, single, j);
    var o := PageOwner(files, heights, single, i);
    PageBelongsToFile(files, heights, single, i, j);
    StripFileUri(files[o]);
    assert files[o] != files[j];
  }

  /** Every entry of the per-file table has `pages - remainder`, the fractional page count, at least 1. */
  lemma {:induction false} FileDictEntries(files: seq<string>, heights: seq<nat>, single: nat)
    requires single > 0 && |heights| <= |files|
    ensures forall name | name in FileDict(files, heights, single) ::
      FileDict(files, heights, single)[name].pages as real - FileDict(files, heights, single)[name].remainder >= 1.0
    decreases |heights|
  {
    if heights != [] {
      FileDictEntries(files, heights[..|heights| - 1], single);
    }
  }

  /**
   * `_JobPaginator`: consumes one measured height per file, in list order,
   * and keeps the page map, the per-file table and the running totals.
   * `requested` logs the files handed to the measuring view.
   */
  class Paginator {
    const filelist: seq<string>
    const single: nat
    var pagemap: map<int, PageRecord>
    var filedict: map<string, FileEntry>
    var pagecount: int
    var bookheight: int
    var count: nat
    var requested: seq<string>
    /** Whether 'paginated' has been emitted. */
    var paginated: bool
    /** The heights measured so far, in file order. */
    ghost var measured: seq<nat>

    ghost predicate Valid()
      reads this
    {
      single > 0 && single == MmToPixel(PAGE_HEIGHT, DPI)
      && 0 < |filelist| && count < |filelist|
      && |measured| == (if paginated then count + 1 else count)
      && (paginated ==> count == |filelist| - 1)
      && pagemap == PageMap(BookPages(filelist, measured, single))
      && pagecount == |BookPages(filelist, measured, single)|
      && filedict == FileDict(filelist, measured, single)
      && bookheight == SumHeights(measured)
      && requested == filelist[..count + 1]
    }

    /** Starts measuring the first file; the empty list is an IndexError in the source. */
    constructor (files: seq<string>)
      requires |files| > 0
      ensures Valid() && filelist == files && measured == [] && !paginated
      ensures pagecount == 0 && pagemap == map[] && requested == [files[0]]
    {
      PageSizeInPixels();
      filelist := files;
      single := MmToPixel(PAGE_HEIGHT, DPI);
      pagemap := map[];
      filedict := map[];
      pagecount := 0;
      bookheight := 0;
      count := 0;
      requested := [files[0]];
      paginated := false;
      measured := [];
    }

    /**
     * `_page_load_finished_cb`: the renderer reports height `h` for the file
     * last requested.  Its pages are numbered after all earlier pages; then
     * either the next file is requested or, after the last, 'paginated' fires.
     */
    method OnFileMeasured(h: nat)
      requires Valid() && !paginated
      modifies this
      ensures Valid()
      ensures measured == old(measured) + [h]
      ensures pagecount == old(pagecount) + PagesInFile(h, single)
      ensures forall n :: n in pagemap <==> 1 <= n <= pagecount
      ensures forall n | n in old(pagemap) :: pagemap[n] == old(pagemap)[n]
      ensures forall n | old(pagecount) < n <= pagecount :: pagemap[n].uri == FileUri(filelist[|old(measured)|])
      ensures paginated <==> |measured| == |filelist|
      ensures paginated ==> requested == old(requested)
      ensures !paginated ==> requested == old(requested) + [filelist[count]]
    {
      RecordFile(h);
      if count + 1 >= |filelist| {
        paginated := true;
      } else {
        count := count + 1;
        requested := requested + [filelist[count]];
      }
    }

    /** The bookkeeping of `_page_load_finished_cb` for the file just measured, before the next request. */
    method RecordFile(h: nat)
      requires Valid() && !paginated
      modifies this`pagemap, this`pagecount, this`filedict, this`bookheight, this`measured
      ensures measured == old(measured) + [h]
      ensures pagemap == PageMap(BookPages(filelist, measured, single))
      ensures pagecount == |BookPages(filelist, measured, single)|
      ensures pagecount == old(pagecount) + PagesInFile(h, single)
      ensures filedict == FileDict(filelist, measured, single)
      ensures bookheight == SumHeights(measured)
      ensures forall n :: n in pagemap <==> 1 <= n <= pagecount
      ensures forall n | n in old(pagemap) :: pagemap[n] == old(pagemap)[n]
      ensures forall n | old(pagecount) < n <= pagecount :: pagemap[n].uri == FileUri(filelist[|old(measured)|])
    {
      var uri := FileUri(filelist[count]);
      var p := FractionalPages(h, single);
      var k := Ceil(p);
      ghost var book := BookPages(filelist, measured, single);
      ghost var fp := FilePages(uri, h, single);
      NumberPages(uri, p, k, book);
      BookPagesAppend(filelist, measured, h, single);
      PositionsEvenlySpaced(uri, h, single);
      pagecount := pagecount + k;
      filedict := filedict[StripScheme(uri) := FileEntry(k, k as real - p)];
      bookheight := bookheight + h;
      measured := measured + [h];
      PageMapOfAppend(book, fp, FileUri(filelist[|old(measured)|]));
    }

    /** The loop of `_page_load_finished_cb`: the file's k pages get the numbers after the `pagecount` so far. */
    method NumberPages(uri: string, p: real, k: int, ghost book: seq<PageRecord>)
      requires k > 0 && p > 0.0 && pagemap == PageMap(book) && pagecount == |book|
      modifies this`pagemap
      ensures pagemap == PageMap(book + PageRun(uri, p, k))
    {
      ghost var run := PageRun(uri, p, k);
      var i := 1;
      while i <= k
        invariant 1 <= i <= k + 1
        invariant pagemap == PageMap(book + run[..i - 1])
      {
        assert run[..i] == run[..i - 1] + [run[i - 1]];
        assert book + run[..i] == (book + run[..i - 1]) + [run[i - 1]];
        PageMapExtend(book + run[..i - 1], run[i - 1]);
        pagemap := pagemap[pagecount + i := PageRecord(uri, Position(i - 1, k), PageLength(p, i))];
        i := i + 1;
      }
      assert run[..k] == run;
    }

    function GetFileForPageno(n: int): string
      reads this
      requires n in pagemap
    {
      pagemap[n].uri
    }

    function GetScrollfactorPosForPageno(n: int): real
      reads this
      requires n in pagemap
    {
      pagemap[n].position
    }

    function GetScrollfactorLenForPageno(n: int): real
      reads this
      requires n in pagemap
    {
      pagemap[n].length
    }

    function GetPagecountForFile(name: string): int
      reads this
      requires name in filedict
    {
      filedict[name].pages
    }

    function GetRemfactorForFile(name: string): real
      reads this
      requires name in filedict
    {
      filedict[name].remainder
    }

    /**
     * `get_base_pageno_for_file`: a page whose file, stripped of 'file://',
     * is `name`, or None.  The source returns whichever matching key dict
     * iteration meets first; this returns the smallest one.
     */
    function GetBasePagenoForFile(name: string): (r: Option<int>)
      reads this
      ensures r.Some? ==> r.value in pagemap && StripScheme(pagemap[r.value].uri) == name
      ensures r.Some? ==> forall n :: 1 <= n < r.value && n in pagemap ==> StripScheme(pagemap[n].uri) != name
      ensures r.None? && (forall n :: n in pagemap <==> 1 <= n <= pagecount) ==>
        forall n | n in pagemap :: StripScheme(pagemap[n].uri) != name
    {
      BaseScan(name, 1)
    }

    function BaseScan(name: string, n: int): (r: Option<int>)
      reads this
      requires n >= 1
      ensures r.Some? ==> n <= r.value && r.value in pagemap && StripScheme(pagemap[r.value].uri) == name
      ensures r.Some? ==> forall i :: n <= i < r.value && i in pagemap ==> StripScheme(pagemap[i].uri) != name
      ensures r.None? ==> forall i :: n <= i <= pagecount && i in pagemap ==> StripScheme(pagemap[i].uri) != name
      decreases pagecount - n
    {
      if n > pagecount then None
      else if n in pagemap && StripScheme(pagemap[n].uri) == name then Some(n)
      else BaseScan(name, n + 1)
    }

    function GetNextFilename(actual: string): Option<string>
      reads this
    {
      NextFilename(filelist, actual)
    }
  }

  /**
   * Once 'paginated' has fired, the page map of a valid paginator is the
   * book: keys 1..pagecount, every file measured, positions in [0, 1),
   * and the base page of every file in the list is its first page.
   */
  lemma PaginatedBook(p: Paginator, j: nat)
    requires p.Valid() && p.paginated && j < |p.filelist|
    requires Distinct(p.filelist) && forall f | f in p.filelist :: !Occurs(SCHEME, f)
    ensures |p.measured| == |p.filelist|
    ensures forall n :: n in p.pagemap <==> 1 <= n <= p.pagecount
    ensures p.GetBasePagenoForFile(p.filelist[j]) == Some(First(p.filelist, p.measured, p.single, j) + 1)
    ensures p.GetFileForPageno(First(p.filelist, p.measured, p.single, j) + 1) == FileUri(p.filelist[j])
  {
    var book := BookPages(p.filelist, p.measured, p.single);
    BasePageRoundTrip(p.filelist, p.measured, p.single, j);
    var b := First(p.filelist, p.measured, p.single, j);
    var r := p.GetBasePagenoForFile(p.filelist[j]);
    assert StripScheme(p.pagemap[b + 1].uri) == p.filelist[j];
    assert r.Some?;
    forall n | 1 <= n <= b
      ensures StripScheme(p.pagemap[n].uri) != p.filelist[j]
    {
      assert p.pagemap[n] == book[n - 1];
    }
  }

  /** Once paginated, every file of the list has a base page, whatever the list holds twice. */
  lemma MeasuredFileHasBase(p: Paginator, j: nat)
    requires p.Valid() && p.paginated && j < |p.filelist| && !Occurs(SCHEME, p.filelist[j])
    ensures p.GetBasePagenoForFile(p.filelist[j]).Some?
  {
    var b := First(p.filelist, p.measured, p.single, j);
    FirstPageOfRun(p.filelist, p.measured, p.single, j);
    StripFileUri(p.filelist[j]);
    assert p.pagemap[b + 1] == BookPages(p.filelist, p.measured, p.single)[b];
  }

  /** A file with a page in a fully numbered page map has a base page. */
  lemma BaseFound(p: Paginator, name: string, n: int)
    requires forall k :: k in p.pagemap <==> 1 <= k <= p.pagecount
    requires n in p.pagemap && StripScheme(p.pagemap[n].uri) == name
    ensures p.GetBasePagenoForFile(name).Some?
  {
  }

  /**
   * `_JobFind`'s cursor over the files that match the search: next and
   * previous wrap around, through Python's negative list indices.
   */
  class FindCursor {
    const matches: seq<string>
    var index: int

    ghost predicate Valid()
      reads this
    {
      |matches| > 0 ==> -|matches| <= index < |matches|
    }

    constructor (matchfiles: seq<string>)
      ensures Valid() && matches == matchfiles && index == 0
    {
      matches := matchfiles;
      index := 0;
    }

    /** `get_next_file`: the match after the current one, cyclically; None is the IndexError of an empty list. */
    method GetNextFile() returns (path: Option<string>)
      requires Valid()
      modifies this
      ensures Valid()
      ensures path.None? <==> |matches| == 0
      ensures |matches| > 0 ==> index % |matches| == (old(index) + 1) % |matches| && path == Some(matches[index % |matches|])
      ensures |matches| > 0 ==> index == if old(index) + 1 < |matches| then old(index) + 1 else 0
    {
      index := index + 1;
      path := PyIndex(matches, index);
      if path.None? {
        index := 0;
        path := PyIndex(matches, index);
      }
    }

    /** `get_prev_file`: the match before the current one, cyclically; past -len the index restarts at -1. */
    method GetPrevFile() returns (path: Option<string>)
      requires Valid()
      modifies this
      ensures Valid()
      ensures path.None? <==> |matches| == 0
      ensures |matches| > 0 ==> index % |matches| == (old(index) - 1) % |matches| && path == Some(matches[index % |matches|])
      ensures |matches| > 0 ==> index == if old(index) - 1 >= -|matches| then old(index) - 1 else -1
    {
      index := index - 1;
      path := PyIndex(matches, index);
      if path.None? {
        index := -1;
        path := PyIndex(matches, index);
      }
    }
  }
}
