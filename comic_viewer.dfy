/**
 * The comic-book back end (comicadapter.py): the archive's image members in
 * sorted order, the index of the page shown, and a rotation counter in
 * -3..3 that `setup-new-surface` hands to the image widget so that every new
 * page is drawn turned as far as the reader has turned the book.
 */
module ComicAdapter {
  import opened Wrappers
  import opened Builtins
  import opened Adjustments
  import opened ImageView

  const IMAGE_ENDINGS: seq<string> := [".png", ".jpg", ".jpeg", ".gif", ".bmp", ".tiff", ".tif"]

  /** `name.endswith(IMAGE_ENDINGS)`: the test is case-sensitive. */
  predicate IsImage(name: string) {
    exists e :: e in IMAGE_ENDINGS && EndsWith(name, e)
  }

  // ---------------------------------------------------------------------
  // Sorting the archive's names

  /** Python's string order: code point by code point, a prefix first. */
  predicate NameLe(a: string, b: string)
    decreases |a|
  {
    |a| == 0 || (|b| > 0 && (a[0] < b[0] || (a[0] == b[0] && NameLe(a[1..], b[1..]))))
  }

  lemma {:induction false} NameLeTotal(a: string, b: string)
    ensures NameLe(a, b) || NameLe(b, a)
    decreases |a|
  {
    if |a| > 0 && |b| > 0 && a[0] == b[0] {
      NameLeTotal(a[1..], b[1..]);
    }
  }

  lemma {:induction false} NameLeReflexive(a: string)
    ensures NameLe(a, a)
    decreases |a|
  {
    if |a| > 0 {
      NameLeReflexive(a[1..]);
    }
  }

  lemma {:induction false} NameLeTransitive(a: string, b: string, c: string)
    requires NameLe(a, b) && NameLe(b, c)
    ensures NameLe(a, c)
    decreases |a|
  {
    if |a| > 0 && a[0] == b[0] && b[0] == c[0] {
      NameLeTransitive(a[1..], b[1..], c[1..]);
    }
  }

  lemma {:induction false} NameLeAntisymmetric(a: string, b: string)
    requires NameLe(a, b) && NameLe(b, a)
    ensures a == b
    decreases |a|
  {
    if |a| > 0 {
      NameLeAntisymmetric(a[1..], b[1..]);
      assert a == [a[0]] + a[1..] && b == [b[0]] + b[1..];
    }
  }

  predicate Sorted(s: seq<string>) {
    forall i, j :: 0 <= i < j < |s| ==> NameLe(s[i], s[j])
  }

  /** `x` placed before the first name it does not follow. */
  function Insert(x: string, s: seq<string>): (r: seq<string>)
    ensures multiset(r) == multiset(s) + multiset{x}
  {
    if s == [] || NameLe(x, s[0]) then [x] + s
    else
      assert s == [s[0]] + s[1..];
      [s[0]] + Insert(x, s[1..])
  }

  lemma {:induction false} InsertSorted(x: string, s: seq<string>)
    requires Sorted(s)
    ensures Sorted(Insert(x, s))
  {
    if s == [] {
    } else if NameLe(x, s[0]) {
      forall j | 0 <= j < |s|
        ensures NameLe(x, s[j])
      {
        if j > 0 {
          NameLeTransitive(x, s[0], s[j]);
        }
      }
    } else {
      var rest := Insert(x, s[1..]);
      InsertSorted(x, s[1..]);
      NameLeTotal(x, s[0]);
      forall j | 0 <= j < |rest|
        ensures NameLe(s[0], rest[j])
      {
        assert rest[j] in multiset(rest);
        if rest[j] != x {
          assert rest[j] in multiset(s[1..]);
          var k :| 0 <= k < |s[1..]| && s[1..][k] == rest[j];
          assert s[k + 1] == rest[j];
        }
      }
      assert Insert(x, s) == [s[0]] + rest;
    }
  }

  /** `files.sort()`: the names in Python's string order. */
  function SortNames(s: seq<string>): (r: seq<string>)
    ensures multiset(r) == multiset(s)
  {
    if s == [] then []
    else
      assert s == [s[0]] + s[1..];
      Insert(s[0], SortNames(s[1..]))
  }

  lemma {:induction false} SortNamesSorted(s: seq<string>)
    ensures Sorted(SortNames(s))
  {
    if s != [] {
      SortNamesSorted(s[1..]);
      InsertSorted(s[0], SortNames(s[1..]));
    }
  }

  lemma SortedTail(s: seq<string>)
    requires Sorted(s) && s != []
    ensures Sorted(s[1..])
  {
    forall i, j | 0 <= i < j < |s[1..]|
      ensures NameLe(s[1..][i], s[1..][j])
    {
      assert s[1..][i] == s[i + 1] && s[1..][j] == s[j + 1];
    }
  }

  /** Two sorted orderings of the same names start with the same name. */
  lemma SortedHeads(r: seq<string>, q: seq<string>)
    requires Sorted(r) && Sorted(q) && multiset(r) == multiset(q) && r != []
    ensures q != [] && r[0] == q[0]
  {
    assert r[0] in multiset(q);
    assert q[0] in multiset(r);
    var i :| 0 <= i < |q| && q[i] == r[0];
    var k :| 0 <= k < |r| && r[k] == q[0];
    NameLeReflexive(r[0]);
    assert NameLe(q[0], r[0]) by {
      if i > 0 {
        assert NameLe(q[0], q[i]);
      }
    }
    assert NameLe(r[0], q[0]) by {
      if k > 0 {
        assert NameLe(r[0], r[k]);
      }
    }
    NameLeAntisymmetric(r[0], q[0]);
  }

  /** A sorted permutation of the names is the one `SortNames` gives: the order decides it. */
  lemma {:induction false} SortedPermutationUnique(r: seq<string>, q: seq<string>)
    requires Sorted(r) && Sorted(q) && multiset(r) == multiset(q)
    ensures r == q
    decreases |r|
  {
    if r == [] {
      assert |q| == |multiset(q)|;
    } else {
      SortedHeads(r, q);
      SortedTail(r);
      SortedTail(q);
      assert r == [r[0]] + r[1..] && q == [q[0]] + q[1..];
      assert multiset(r[1..]) == multiset(q[1..]) by {
        assert multiset(r) == multiset{r[0]} + multiset(r[1..]);
        assert multiset(q) == multiset{q[0]} + multiset(q[1..]);
        assert multiset(r[1..]) == multiset(r) - multiset{r[0]};
        assert multiset(q[1..]) == multiset(q) - multiset{q[0]};
      }
      SortedPermutationUnique(r[1..], q[1..]);
    }
  }

  // ---------------------------------------------------------------------
  // The image filter

  /** `[i for i in files if i.endswith(IMAGE_ENDINGS)]`. */
  function Images(files: seq<string>): (r: seq<string>)
    ensures |r| <= |files|
  {
    if files == [] then []
    else if IsImage(files[0]) then [files[0]] + Images(files[1..])
    else Images(files[1..])
  }

  /** Every image name is kept as often as it occurs, and no other name. */
  lemma {:induction false} ImagesCount(files: seq<string>, x: string)
    ensures multiset(Images(files))[x] == if IsImage(x) then multiset(files)[x] else 0
  {
    if files != [] {
      ImagesCount(files[1..], x);
      assert files == [files[0]] + files[1..];
    }
  }

  /** Exactly the image names are kept. */
  lemma ImagesMembers(files: seq<string>, x: string)
    ensures x in Images(files) <==> x in files && IsImage(x)
  {
    ImagesCount(files, x);
    assert x in Images(files) <==> multiset(Images(files))[x] > 0;
    assert x in files <==> multiset(files)[x] > 0;
  }

  /** A name that precedes every name of a sorted list can go in front of it. */
  lemma SortedCons(x: string, s: seq<string>)
    requires Sorted(s) && forall j :: 0 <= j < |s| ==> NameLe(x, s[j])
    ensures Sorted([x] + s)
  {
    forall i, j | 0 <= i < j < |[x] + s|
      ensures NameLe(([x] + s)[i], ([x] + s)[j])
    {
      if i > 0 {
        assert ([x] + s)[i] == s[i - 1] && ([x] + s)[j] == s[j - 1];
      } else {
        assert ([x] + s)[j] == s[j - 1];
      }
    }
  }

  /** The filter keeps the order of the names it keeps. */
  lemma {:induction false} ImagesSorted(files: seq<string>)
    requires Sorted(files)
    ensures Sorted(Images(files))
  {
    if files != [] {
      var rest := Images(files[1..]);
      SortedTail(files);
      ImagesSorted(files[1..]);
      if IsImage(files[0]) {
        forall j | 0 <= j < |rest|
          ensures NameLe(files[0], rest[j])
        {
          ImagesMembers(files[1..], rest[j]);
          var k :| 0 <= k < |files[1..]| && files[1..][k] == rest[j];
          assert files[k + 1] == rest[j];
        }
        SortedCons(files[0], rest);
      }
    }
  }

  /** The pages of an archive: its image members, sorted. */
  function ArchivePages(names: seq<string>): seq<string> {
    Images(SortNames(names))
  }

  /** The pages are exactly the archive's image members, each as often as it occurs, in sorted order. */
  lemma ArchivePagesSpec(names: seq<string>)
    ensures Sorted(ArchivePages(names))
    ensures forall x :: multiset(ArchivePages(names))[x] == if IsImage(x) then multiset(names)[x] else 0
  {
    SortNamesSorted(names);
    ImagesSorted(SortNames(names));
    forall x
      ensures multiset(ArchivePages(names))[x] == if IsImage(x) then multiset(names)[x] else 0
    {
      ImagesCount(SortNames(names), x);
    }
  }

  /** Any sorted list holding exactly the archive's image members is the page list. */
  lemma ArchivePagesUnique(names: seq<string>, pages: seq<string>)
    requires Sorted(pages)
    requires forall x :: multiset(pages)[x] == if IsImage(x) then multiset(names)[x] else 0
    ensures pages == ArchivePages(names)
  {
    ArchivePagesSpec(names);
    assert multiset(pages) == multiset(ArchivePages(names));
    SortedPermutationUnique(pages, ArchivePages(names));
  }

  // ---------------------------------------------------------------------
  // Scrolling to the first and last page

  datatype ScrollType = PageBackward | PageForward | StepBackward | StepForward | Start | End | Other

  /**
   * The page `scroll` jumps to for START and END as written: START goes to
   * page 1, END reads the missing `_document` field and raises (None).
   */
  function WrittenJump(st: ScrollType, pagecount: int): Option<int>
    requires st == Start || st == End
  {
    if st == Start then Some(1) else None
  }

  /** The page START and END evidently mean: the first page and the last. */
  function Jump(st: ScrollType, pagecount: int): (page: Option<int>)
    requires st == Start || st == End
    ensures page.Some?
  {
    if st == Start then Some(0) else Some(pagecount - 1)
  }

  /**
   * As written, START on a book of one page asks for page 1 of [p] and
   * raises; on a longer book it shows the second page; END always raises.
   */
  lemma WrittenJumpMisses(images: seq<string>)
    requires |images| >= 1
    ensures |images| == 1 ==> PyIndex(images, WrittenJump(Start, |images|).value).None?
    ensures |images| > 1 ==> PyIndex(images, WrittenJump(Start, |images|).value) == Some(images[1])
    ensures WrittenJump(End, |images|).None?
  {
  }

  /** The corrected jumps show the first and the last image of any non-empty book. */
  lemma JumpReachesEnds(images: seq<string>)
    requires |images| >= 1
    ensures PyIndex(images, Jump(Start, |images|).value) == Some(images[0])
    ensures PyIndex(images, Jump(End, |images|).value) == Some(images[|images| - 1])
  {
  }

  /** `_scroll_step`: one step increment along the adjustment, which clamps into its range. */
  function ScrollStep(adj: Adjustment, step: real, forward: bool): (r: Adjustment)
    ensures r.lower == adj.lower && r.upper == adj.upper && r.pageSize == adj.pageSize
    ensures adj.lower <= r.value <= adj.MaxValue()
    ensures forward && adj.value + step <= adj.MaxValue() && adj.lower <= adj.value + step ==> r.value == adj.value + step
    ensures !forward && adj.lower <= adj.value - step && adj.value - step <= adj.MaxValue() ==> r.value == adj.value - step
  {
    if forward then adj.SetValue(adj.value + step) else adj.SetValue(adj.value - step)
  }

  // ---------------------------------------------------------------------
  // The viewer

  /** `ComicViewer`, from `setup` on. */
  class ComicViewer {
    /** The names in the open archive (`_zip`), if one was ever opened. */
    var zip: Option<seq<string>>
    var images: seq<string>
    var index: int
    /** The rotation counter: quarter turns clockwise, in -3..3. */
    var rotate: int
    /** The 'page-changed' emissions, (old page, new page). */
    var changes: seq<(int, int)>
    /** The alerts shown. */
    var alerts: nat
    var hadj: Adjustment
    var vadj: Adjustment
    /** The adjustments' step increments. */
    const hstep: real
    const vstep: real
    const view: ImageViewer

    /**
     * The counter is in -3..3 and stays 0 until there is a surface, which is
     * then turned as far as the counter says, has an anchor, and is not
     * empty; data waiting to be drawn is there.
     */
    ghost predicate Valid()
      reads this`rotate, view`surface, view`anchor, view`data, view`dataChanged
    {
      -3 <= rotate <= 3
      && (view.dataChanged ==> view.data.Some?)
      && (view.surface.None? ==> rotate == 0)
      && (view.surface.Some? ==>
            view.anchor.Some? && view.surface.value.turns == rotate % 4
            && view.surface.value.width > 0 && view.surface.value.height > 0)
    }

    /** The index names a page whenever there are pages. */
    predicate IndexInRange()
      reads this`images, this`index
    {
      |images| > 0 ==> 0 <= index < |images|
    }

    /** `setup`: no archive, no images, index and counter 0, a fresh image view at zoom 1. */
    constructor (width: int, height: int, h: Adjustment, v: Adjustment, hStep: real, vStep: real)
      ensures Valid() && IndexInRange()
      ensures zip == None && images == [] && index == 0 && rotate == 0 && changes == [] && alerts == 0
      ensures hadj == h && vadj == v && hstep == hStep && vstep == vStep
      ensures fresh(view) && view.zoom == Some(1.0) && view.data == None && view.surface == None
      ensures view.allocWidth == width && view.allocHeight == height
    {
      zip := None;
      images := [];
      index := 0;
      rotate := 0;
      changes := [];
      alerts := 0;
      hadj, vadj := h, v;
      hstep, vstep := hStep, vStep;
      var imageView := new ImageViewer(width, height);
      imageView.SetZoom(1.0);
      view := imageView;
    }

    /** `get_pagecount`. */
    function GetPagecount(): (n: nat)
      reads this`images
      ensures n == |images|
    {
      |images|
    }

    /**
     * `set_current_page(page)`: nothing without images; otherwise the index
     * is set first, then the page's image goes to the view and (from, page)
     * is emitted, unless `page` is no Python index of the list, which raises.
     */
    method SetCurrentPage(page: int) returns (raised: bool)
      modifies this`index, this`changes, view`data, view`dataChanged
      ensures |images| == 0 ==> !raised && index == old(index) && changes == old(changes)
      ensures |images| == 0 ==> view.data == old(view.data) && view.dataChanged == old(view.dataChanged)
      ensures |images| > 0 ==> index == page
      ensures raised <==> |images| > 0 && PyIndex(images, page).None?
      ensures |images| > 0 && !raised ==>
        view.data == PyIndex(images, page) && view.dataChanged && changes == old(changes) + [(old(index), page)]
      ensures raised ==> changes == old(changes) && view.data == old(view.data) && view.dataChanged == old(view.dataChanged)
      ensures old(Valid()) ==> Valid()
    {
      if |images| == 0 {
        return false;
      }
      var from := index;
      index := page;
      var filename := PyIndex(images, page);
      if filename.None? {
        return true;
      }
      view.SetData(filename.value);
      changes := changes + [(from, index)];
      return false;
    }

    /**
     * `load_document`: a newly opened archive replaces the old one (one that
     * fails to open leaves it, and with none ever opened reading its names
     * raises); the pages become its sorted image members; with none an
     * alert is shown and nothing else changes, otherwise page 0 is set.
     */
    method LoadDocument(archive: Option<seq<string>>) returns (raised: bool)
      requires Valid() && IndexInRange()
      modifies this`zip, this`images, this`alerts, this`index, this`changes, view`data, view`dataChanged
      ensures Valid() && IndexInRange()
      ensures raised <==> archive.None? && old(zip).None?
      ensures raised ==> images == old(images) && index == old(index) && changes == old(changes)
      ensures archive.Some? ==> zip == archive
      ensures !raised ==> zip.Some? && images == ArchivePages(zip.value)
      ensures !raised && images == [] ==> alerts == old(alerts) + 1 && index == old(index) && changes == old(changes)
      ensures !raised && images != [] ==> index == 0 && view.data == Some(images[0])
      ensures !raised && images != [] ==> changes == old(changes) + [(old(index), 0)] && alerts == old(alerts)
    {
      raised := ReadImages(archive);
      if !raised {
        ShowFirstPage();
      }
    }

    /** The end of `load_document`: an alert when there are no pages, otherwise page 0. */
    method ShowFirstPage()
      requires Valid()
      modifies this`alerts, this`index, this`changes, view`data, view`dataChanged
      ensures Valid() && IndexInRange()
      ensures images == [] ==> alerts == old(alerts) + 1 && index == old(index) && changes == old(changes)
      ensures images != [] ==> index == 0 && view.data == Some(images[0]) && alerts == old(alerts)
      ensures images != [] ==> changes == old(changes) + [(old(index), 0)]
    {
      if |images| == 0 {
        alerts := alerts + 1;
        return;
      }
      var raised := SetCurrentPage(0);
    }

    /**
     * The first part of `load_document`: the archive is replaced when a new
     * one opened, and the pages become its sorted image members; reading
     * the names of no archive raises.
     */
    method ReadImages(archive: Option<seq<string>>) returns (raised: bool)
      modifies this`zip, this`images
      ensures raised <==> archive.None? && old(zip).None?
      ensures zip == (if archive.Some? then archive else old(zip))
      ensures raised ==> images == old(images)
      ensures !raised ==> zip.Some? && images == ArchivePages(zip.value)
    {
      if archive.Some? {
        zip := archive;
      }
      if zip.None? {
        return true;
      }
      var files := SortNames(zip.value);
      images := Images(files);
      return false;
    }

    /** `next_page`: one page on, only when there is a next page. */
    method NextPage() returns (raised: bool)
      modifies this`index, this`changes, view`data, view`dataChanged
      ensures old(index) + 1 < |images| && |images| > 0 ==> index == old(index) + 1
      ensures old(index) + 1 >= |images| || |images| == 0 ==> !raised && index == old(index) && changes == old(changes)
      ensures raised <==> old(index) + 1 < |images| && |images| > 0 && PyIndex(images, old(index) + 1).None?
      ensures old(index) + 1 < |images| && |images| > 0 && !raised ==> changes == old(changes) + [(old(index), old(index) + 1)]
      ensures old(index) + 1 < |images| && |images| > 0 && !raised ==> view.data == PyIndex(images, index) && view.dataChanged
      ensures old(index) + 1 >= |images| || |images| == 0 || raised ==>
        changes == old(changes) && view.data == old(view.data) && view.dataChanged == old(view.dataChanged)
      ensures old(IndexInRange()) ==> !raised && IndexInRange()
      ensures old(Valid()) ==> Valid()
    {
      raised := false;
      if index + 1 < GetPagecount() {
        raised := SetCurrentPage(index + 1);
      }
    }

    /** `previous_page`: one page back, only when the index is above 0. */
    method PreviousPage() returns (raised: bool)
      modifies this`index, this`changes, view`data, view`dataChanged
      ensures old(index) >= 1 && |images| > 0 ==> index == old(index) - 1
      ensures old(index) < 1 || |images| == 0 ==> !raised && index == old(index) && changes == old(changes)
      ensures raised <==> old(index) >= 1 && |images| > 0 && old(index) - 1 >= |images|
      ensures old(index) >= 1 && |images| > 0 && !raised ==> changes == old(changes) + [(old(index), old(index) - 1)]
      ensures old(index) >= 1 && |images| > 0 && !raised ==> view.data == Some(images[index]) && view.dataChanged
      ensures old(index) < 1 || |images| == 0 || raised ==>
        changes == old(changes) && view.data == old(view.data) && view.dataChanged == old(view.dataChanged)
      ensures old(IndexInRange()) ==> !raised && IndexInRange()
      ensures old(Valid()) ==> Valid()
    {
      raised := false;
      if index - 1 >= 0 {
        raised := SetCurrentPage(index - 1);
      }
    }

    /**
     * `rotate_left`: the view turns anticlockwise and the counter goes down,
     * -4 wrapping to 0; without a surface the view raises first.
     */
    method RotateLeft() returns (raised: bool)
      requires Valid()
      modifies this`rotate, view`surface, view`anchor
      ensures Valid()
      ensures raised <==> old(view.surface).None?
      ensures raised ==> rotate == old(rotate) && view.surface == old(view.surface) && view.anchor == old(view.anchor)
      ensures !raised ==> rotate == (if old(rotate) - 1 == -4 then 0 else old(rotate) - 1)
      ensures !raised ==> rotate % 4 == (old(rotate) - 1) % 4
      ensures !raised ==> view.surface.Some? && view.anchor.Some?
      ensures !raised ==> (Placement(view.surface.value, view.anchor.value)
        == Anticlockwise(Placement(old(view.surface.value), old(view.anchor.value))))
    {
      raised := view.RotateAnticlockwise();
      if raised {
        return;
      }
      rotate := rotate - 1;
      if rotate == -4 {
        rotate := 0;
      }
    }

    /**
     * `rotate_right`: the view turns clockwise and the counter goes up,
     * 4 wrapping to 0; without a surface the view raises first.
     */
    method RotateRight() returns (raised: bool)
      requires Valid()
      modifies this`rotate, view`surface, view`anchor
      ensures Valid()
      ensures raised <==> old(view.surface).None?
      ensures raised ==> rotate == old(rotate) && view.surface == old(view.surface) && view.anchor == old(view.anchor)
      ensures !raised ==> rotate == (if old(rotate) + 1 == 4 then 0 else old(rotate) + 1)
      ensures !raised ==> rotate % 4 == (old(rotate) + 1) % 4
      ensures !raised ==> view.surface.Some? && view.anchor.Some?
      ensures !raised ==> (Placement(view.surface.value, view.anchor.value)
        == Clockwise(Placement(old(view.surface.value), old(view.anchor.value))))
    {
      raised := view.RotateClockwise();
      if raised {
        return;
      }
      rotate := rotate + 1;
      if rotate == 4 {
        rotate := 0;
      }
    }

    /**
     * `__new_surface_cb`: the fresh surface is turned as far as the counter
     * says by `set_rotate` as written (which misplaces the anchor on a half
     * turn of a non-square surface) and both scrollbars go to 0.
     */
    method NewSurfaceCb() returns (raised: bool)
      modifies view`surface, view`anchor, this`hadj, this`vadj
      ensures raised <==> rotate != 0 && (old(view.surface).None? || old(view.anchor).None?)
      ensures rotate != 0 && old(view.surface).Some? ==> view.surface == Some(WrittenSurface(old(view.surface.value), rotate))
      ensures rotate != 0 && !raised ==> view.anchor == Some(WrittenAnchor(view.surface.value, old(view.anchor.value), rotate))
      ensures rotate == 0 ==> view.surface == old(view.surface) && view.anchor == old(view.anchor)
      ensures hadj == old(hadj).SetValue(0.0) && vadj == old(vadj).SetValue(0.0)
    {
      raised := view.SetRotate(rotate);
      hadj := hadj.SetValue(0.0);
      vadj := vadj.SetValue(0.0);
    }

    /** The draw callback wants a new surface: there is none yet, or new data waits. */
    predicate WantsSurface()
      reads view`surface, view`dataChanged
    {
      view.surface.None? || view.dataChanged
    }

    /**
     * The view's draw callback with this back end listening: a new page's
     * surface is decoded into a `width` x `height` surface, turned by
     * `__new_surface_cb`, then given its zoom and points; with a surface
     * wanted and no data it stops at once. The counter and the surface stay
     * in step.
     */
    method Draw(width: int, height: int)
      requires Valid() && width > 0 && height > 0
      modifies view`surface, view`dataChanged, view`zoom, view`target, view`anchor, this`hadj, this`vadj
      ensures Valid()
      ensures old(WantsSurface()) && view.data.None? ==>
        view.surface == old(view.surface) && view.zoom == old(view.zoom) && view.target == old(view.target)
        && view.anchor == old(view.anchor) && hadj == old(hadj) && vadj == old(vadj)
      ensures old(WantsSurface()) && view.data.Some? ==>
        view.surface == Some(WrittenSurface(Surface(width, height, 0), rotate)) && !view.dataChanged
        && hadj == old(hadj).SetValue(0.0) && vadj == old(vadj).SetValue(0.0)
      ensures !old(WantsSurface()) ==> view.surface == old(view.surface) && hadj == old(hadj) && vadj == old(vadj)
      ensures !(old(WantsSurface()) && view.data.None?) ==> view.surface.Some? && view.target.Some? && view.anchor.Some?
      ensures !(old(WantsSurface()) && view.data.None?) ==>
        view.zoom == (if old(view.zoom).None? then Some(view.allocWidth as real / view.surface.value.width as real) else old(view.zoom))
      ensures !(old(WantsSurface()) && view.data.None?) && (old(view.zoom).None? || old(view.target).None?) ==>
        view.target == Some(view.CanvasCentre())
      ensures !(old(WantsSurface()) && view.data.None?) && old(view.zoom).Some? && old(view.target).Some? ==>
        view.target == old(view.target)
      ensures !(old(WantsSurface()) && view.data.None?) && old(view.zoom).None? ==>
        view.anchor == Some(Centre(view.surface.value))
      ensures old(WantsSurface()) && view.data.Some? && old(view.zoom).Some? && rotate != 0 ==>
        view.anchor == Some(WrittenAnchor(view.surface.value, old(view.anchor.value), rotate))
      ensures !(old(WantsSurface()) && view.data.None?) && old(view.zoom).Some? && (rotate == 0 || !old(WantsSurface())) ==>
        view.anchor == (if old(view.anchor).None? then Some(Centre(view.surface.value)) else old(view.anchor))
    {
      var emitted, stop := view.DecodeSurface(width, height);
      if emitted {
        var raised := NewSurfaceCb();
        if rotate != 0 {
          WrittenSurfaceOrientation(Surface(width, height, 0), rotate);
        }
      }
      if stop {
        return;
      }
      view.DrawDefaults();
    }

    /**
     * `scroll` as written: PAGE_BACKWARD and PAGE_FORWARD turn the page, the
     * STEP types move a scrollbar by one step, START goes to page 1, and END
     * raises on the missing `_document` field; other types do nothing.
     */
    method Scroll(st: ScrollType, horizontal: bool) returns (raised: bool)
      modifies this`index, this`changes, this`hadj, this`vadj, view`data, view`dataChanged
      ensures old(Valid()) ==> Valid()
      ensures st != Start && old(IndexInRange()) ==> IndexInRange()
      ensures st == PageBackward ==> index == (if old(index) >= 1 && |images| > 0 then old(index) - 1 else old(index))
      ensures st == PageForward ==> index == (if old(index) + 1 < |images| && |images| > 0 then old(index) + 1 else old(index))
      ensures (st == PageBackward || st == PageForward) && index != old(index) && !raised ==>
        changes == old(changes) + [(old(index), index)] && view.data == PyIndex(images, index) && view.dataChanged
      ensures (st == PageBackward || st == PageForward) && (index == old(index) || raised) ==>
        changes == old(changes) && view.data == old(view.data) && view.dataChanged == old(view.dataChanged)
      ensures st == StepBackward || st == StepForward ==> index == old(index) && changes == old(changes)
      ensures st == StepBackward || st == StepForward ==>
        (if horizontal then hadj == ScrollStep(old(hadj), hstep, st == StepForward) && vadj == old(vadj)
         else vadj == ScrollStep(old(vadj), vstep, st == StepForward) && hadj == old(hadj))
      ensures st == Start && |images| > 1 ==>
        index == 1 && changes == old(changes) + [(old(index), 1)] && view.data == Some(images[1])
      ensures st == StepBackward || st == StepForward || st == End || st == Other || (st == Start && |images| <= 1) ==>
        view.data == old(view.data) && view.dataChanged == old(view.dataChanged)
      ensures st == Start && |images| == 1 ==> index == 1 && changes == old(changes)
      ensures st == Start && |images| == 0 ==> index == old(index) && changes == old(changes)
      ensures st == End || st == Other ==> index == old(index) && changes == old(changes)
      ensures raised <==>
        ((st == Start && |images| == 1) || st == End
         || (st == PageBackward && old(index) >= 1 && |images| > 0 && old(index) - 1 >= |images|)
         || (st == PageForward && old(index) + 1 < |images| && |images| > 0 && PyIndex(images, old(index) + 1).None?))
    {
      raised := false;
      match st
      case PageBackward =>
        raised := PreviousPage();
      case PageForward =>
        raised := NextPage();
      case StepBackward =>
        ScrollStepBy(false, horizontal);
      case StepForward =>
        ScrollStepBy(true, horizontal);
      case Start =>
        raised := SetCurrentPage(WrittenJump(st, |images|).value);
      case End =>
        raised := true;
      case Other =>
    }

    /** `scroll` corrected: START shows the first page and END the last one. */
    method ScrollCorrected(st: ScrollType, horizontal: bool) returns (raised: bool)
      modifies this`index, this`changes, this`hadj, this`vadj, view`data, view`dataChanged
      ensures old(Valid()) ==> Valid()
      ensures old(IndexInRange()) ==> !raised && IndexInRange()
      ensures st != PageBackward && st != PageForward ==> !raised
      ensures st == Start && |images| > 0 ==>
        index == 0 && view.data == Some(images[0]) && changes == old(changes) + [(old(index), 0)]
      ensures st == End && |images| > 0 ==>
        index == |images| - 1 && view.data == Some(images[|images| - 1]) && changes == old(changes) + [(old(index), |images| - 1)]
      ensures st == PageBackward ==> index == (if old(index) >= 1 && |images| > 0 then old(index) - 1 else old(index))
      ensures st == PageForward ==> index == (if old(index) + 1 < |images| && |images| > 0 then old(index) + 1 else old(index))
      ensures (st == PageBackward || st == PageForward) && index != old(index) && !raised ==>
        changes == old(changes) + [(old(index), index)] && view.data == PyIndex(images, index) && view.dataChanged
      ensures (st == PageBackward || st == PageForward) && (index == old(index) || raised) ==>
        changes == old(changes) && view.data == old(view.data) && view.dataChanged == old(view.dataChanged)
      ensures st == StepBackward || st == StepForward || st == Other ==>
        index == old(index) && changes == old(changes) && view.data == old(view.data) && view.dataChanged == old(view.dataChanged)
      ensures st == StepBackward || st == StepForward ==>
        (if horizontal then hadj == ScrollStep(old(hadj), hstep, st == StepForward) && vadj == old(vadj)
         else vadj == ScrollStep(old(vadj), vstep, st == StepForward) && hadj == old(hadj))
    {
      raised := false;
      match st
      case PageBackward =>
        raised := PreviousPage();
      case PageForward =>
        raised := NextPage();
      case StepBackward =>
        ScrollStepBy(false, horizontal);
      case StepForward =>
        ScrollStepBy(true, horizontal);
      case Start =>
        if |images| > 0 {
          JumpReachesEnds(images);
        }
        raised := SetCurrentPage(Jump(st, |images|).value);
      case End =>
        if |images| > 0 {
          JumpReachesEnds(images);
        }
        raised := SetCurrentPage(Jump(st, |images|).value);
      case Other =>
    }

    /** `_scroll_step`: the horizontal or vertical scrollbar moves one step. */
    method ScrollStepBy(forward: bool, horizontal: bool)
      modifies this`hadj, this`vadj
      ensures horizontal ==> hadj == ScrollStep(old(hadj), hstep, forward) && vadj == old(vadj)
      ensures !horizontal ==> vadj == ScrollStep(old(vadj), vstep, forward) && hadj == old(hadj)
    {
      if horizontal {
        hadj := ScrollStep(hadj, hstep, forward);
      } else {
        vadj := ScrollStep(vadj, vstep, forward);
      }
    }
  }
}
