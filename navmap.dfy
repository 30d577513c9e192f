/**
 * The table of contents of an EPUB book (epubview/navmap.py): the navMap
 * of its NCX document (section 2.4.1 of OPF 2.0.1, which adopts the NCX of
 * ANSI/NISO Z39.86-2005) is walked in document pre-order, and every
 * navPoint becomes one (title, path) entry of a flat list and one row of a
 * tree store whose nesting mirrors the navMap.
 */
module NavMaps {

  /**
   * A navPoint: its navLabel text, its content `src` and its child
   * navPoints in document order.  The parsed NCX elements are these values.
   */
  datatype NavPoint = NavPoint(navLabel: string, contentsrc: string, children: seq<NavPoint>)

  /** A tree-store row: the index of its parent row (-1 at the top level) and its two columns. */
  datatype Row = Row(parent: int, title: string, content: string)

  /** The flat-list entry of a navPoint: its title and its content path under the base path. */
  function Entry(p: NavPoint, basepath: string): (string, string) {
    (p.navLabel, basepath + p.contentsrc)
  }

  /**
   * The entries of the first n navPoints of a forest in document pre-order:
   * each navPoint, then its descendants, siblings in order.
   */
  function Flatten(s: seq<NavPoint>, n: nat, basepath: string): seq<(string, string)>
    requires n <= |s|
    decreases s, n
  {
    if n == 0 then []
    else
      var p := s[n - 1];
      Flatten(s, n - 1, basepath) + [Entry(p, basepath)] + Flatten(p.children, |p.children|, basepath)
  }

  /** The number of navPoints in the first n trees of a forest. */
  function Size(s: seq<NavPoint>, n: nat): nat
    requires n <= |s|
    decreases s, n
  {
    if n == 0 then 0 else Size(s, n - 1) + 1 + Size(s[n - 1].children, |s[n - 1].children|)
  }

  /**
   * The rows the tree store receives for the first n trees of a forest
   * hung under row `parent`, when the first of them becomes row `base`.
   */
  function Rows(s: seq<NavPoint>, n: nat, parent: int, base: int, basepath: string): seq<Row>
    requires n <= |s|
    decreases s, n
  {
    if n == 0 then []
    else
      var p := s[n - 1];
      var pre := Rows(s, n - 1, parent, base, basepath);
      var row := base + |pre|;
      pre + [Row(parent, p.navLabel, basepath + p.contentsrc)] + Rows(p.children, |p.children|, row, row + 1, basepath)
  }

  /** The flat list holds every navPoint exactly once: its length is the number of navPoints. */
  lemma {:induction false} FlattenLength(s: seq<NavPoint>, n: nat, basepath: string)
    requires n <= |s|
    ensures |Flatten(s, n, basepath)| == Size(s, n)
    decreases s, n
  {
    if n > 0 {
      var p := s[n - 1];
      FlattenLength(s, n - 1, basepath);
      FlattenLength(p.children, |p.children|, basepath);
      assert Flatten(s, n, basepath) == Flatten(s, n - 1, basepath) + [Entry(p, basepath)] + Flatten(p.children, |p.children|, basepath);
    }
  }

  /** The store receives one row per navPoint. */
  lemma {:induction false} RowsLength(s: seq<NavPoint>, n: nat, parent: int, base: int, basepath: string)
    requires n <= |s|
    ensures |Rows(s, n, parent, base, basepath)| == Size(s, n)
    decreases s, n
  {
    if n > 0 {
      var p := s[n - 1];
      var pre := Rows(s, n - 1, parent, base, basepath);
      RowsLength(s, n - 1, parent, base, basepath);
      RowsLength(p.children, |p.children|, base + |pre|, base + |pre| + 1, basepath);
    }
  }

  /**
   * The tree store and the flat list agree row by row, and every row hangs
   * under the forest's parent or under an earlier row: parents come before
   * their children.
   */
  lemma {:induction false} RowsMirrorFlattoc(s: seq<NavPoint>, n: nat, parent: int, base: int, basepath: string)
    requires n <= |s|
    ensures var rows := Rows(s, n, parent, base, basepath);
      var flat := Flatten(s, n, basepath);
      |rows| == |flat| == Size(s, n)
      && (forall i :: 0 <= i < |rows| ==> (rows[i].title, rows[i].content) == flat[i])
      && (forall i :: 0 <= i < |rows| ==> rows[i].parent == parent || base <= rows[i].parent < base + i)
    decreases s, n
  {
    if n > 0 {
      var p := s[n - 1];
      var pre := Rows(s, n - 1, parent, base, basepath);
      var row := base + |pre|;
      RowsMirrorFlattoc(s, n - 1, parent, base, basepath);
      RowsMirrorFlattoc(p.children, |p.children|, row, row + 1, basepath);
      var rows := Rows(s, n, parent, base, basepath);
      var flat := Flatten(s, n, basepath);
      var sub := Rows(p.children, |p.children|, row, row + 1, basepath);
      forall i | 0 <= i < |rows|
        ensures (rows[i].title, rows[i].content) == flat[i]
        ensures rows[i].parent == parent || base <= rows[i].parent < base + i
      {
        if i > |pre| {
          assert rows[i] == sub[i - |pre| - 1];
        }
      }
    }
  }

  /** A row among those of the first j trees keeps its index among the rows of the first n. */
  lemma {:induction false} RowsPrefix(s: seq<NavPoint>, j: nat, n: nat, i: nat, parent: int, base: int, basepath: string)
    requires j <= n <= |s| && i < |Rows(s, j, parent, base, basepath)|
    ensures i < |Rows(s, n, parent, base, basepath)|
    ensures Rows(s, n, parent, base, basepath)[i] == Rows(s, j, parent, base, basepath)[i]
    decreases n
  {
    if j < n {
      RowsPrefix(s, j, n - 1, i, parent, base, basepath);
    }
  }

  /** The j-th navPoint of a forest is the row after the rows of its elder siblings, under the forest's parent. */
  lemma {:induction false} TopLevelRow(s: seq<NavPoint>, j: nat, parent: int, base: int, basepath: string)
    requires j < |s|
    ensures Size(s, j) < |Rows(s, |s|, parent, base, basepath)|
    ensures Rows(s, |s|, parent, base, basepath)[Size(s, j)] == Row(parent, s[j].navLabel, basepath + s[j].contentsrc)
  {
    RowsLength(s, j, parent, base, basepath);
    RowsPrefix(s, j + 1, |s|, Size(s, j), parent, base, basepath);
  }

  /**
   * The tree store mirrors the nesting: the k-th child of the j-th navPoint
   * is stored under that navPoint's row.
   */
  lemma {:induction false} ChildUnderParent(s: seq<NavPoint>, j: nat, k: nat, parent: int, base: int, basepath: string)
    requires j < |s| && k < |s[j].children|
    ensures Size(s, j) + 1 + Size(s[j].children, k) < |Rows(s, |s|, parent, base, basepath)|
    ensures Rows(s, |s|, parent, base, basepath)[Size(s, j) + 1 + Size(s[j].children, k)]
      == Row(base + Size(s, j), s[j].children[k].navLabel, basepath + s[j].children[k].contentsrc)
  {
    TopLevelRow(s[j].children, k, base + Size(s, j), base + Size(s, j) + 1, basepath);
    RowsUnderRow(s, j, Size(s[j].children, k), parent, base, basepath);
    RowsPrefix(s, j + 1, |s|, Size(s, j) + 1 + Size(s[j].children, k), parent, base, basepath);
  }

  /** The rows after the j-th navPoint's own row are its descendants' rows, hung under that row. */
  lemma {:induction false} RowsUnderRow(s: seq<NavPoint>, j: nat, q: nat, parent: int, base: int, basepath: string)
    requires j < |s| && q < |Rows(s[j].children, |s[j].children|, base + Size(s, j), base + Size(s, j) + 1, basepath)|
    ensures Size(s, j) + 1 + q < |Rows(s, j + 1, parent, base, basepath)|
    ensures Rows(s, j + 1, parent, base, basepath)[Size(s, j) + 1 + q]
      == Rows(s[j].children, |s[j].children|, base + Size(s, j), base + Size(s, j) + 1, basepath)[q]
  {
    var pre := Rows(s, j, parent, base, basepath);
    RowsLength(s, j, parent, base, basepath);
    ConcatIndex(Rows(s, j + 1, parent, base, basepath), pre, Row(parent, s[j].navLabel, basepath + s[j].contentsrc),
      Rows(s[j].children, |s[j].children|, base + |pre|, base + |pre| + 1, basepath), q);
  }

  /** The element q places after `x` in `pre + [x] + sub`. */
  lemma ConcatIndex<T>(ext: seq<T>, pre: seq<T>, x: T, sub: seq<T>, q: nat)
    requires ext == pre + [x] + sub && q < |sub|
    ensures |pre| + 1 + q < |ext| && ext[|pre| + 1 + q] == sub[q]
  {
  }

  lemma Regroup<T>(a: seq<T>, b: seq<T>, c: seq<T>, d: seq<T>)
    ensures (a + b) + c + d == a + (b + c + d)
  {
  }

  /**
   * `NavMap`: built from the top-level navPoints of the navMap and the
   * base path of the package document; keeps the flat list and the tree store.
   */
  class NavMap {
    const basepath: string
    var flattoc: seq<(string, string)>
    var store: seq<Row>

    /** `__init__` and `_populate_toc`. */
    constructor (navPoints: seq<NavPoint>, basepath: string)
      ensures this.basepath == basepath
      ensures flattoc == Flatten(navPoints, |navPoints|, basepath) && store == Rows(navPoints, |navPoints|, -1, 0, basepath)
    {
      this.basepath := basepath;
      flattoc := [];
      store := [];
      new;
      PopulateToc(navPoints);
    }

    /** `_populate_toc`: each top-level navPoint goes under no parent. */
    method PopulateToc(navPoints: seq<NavPoint>)
      modifies this`flattoc, this`store
      ensures flattoc == old(flattoc) + Flatten(navPoints, |navPoints|, basepath)
      ensures store == old(store) + Rows(navPoints, |navPoints|, -1, |old(store)|, basepath)
    {
      ghost var flatHead := flattoc;
      ghost var storeHead := store;
      var i := 0;
      while i < |navPoints|
        invariant 0 <= i <= |navPoints|
        invariant flattoc == flatHead + Flatten(navPoints, i, basepath)
        invariant store == storeHead + Rows(navPoints, i, -1, |storeHead|, basepath)
      {
        ghost var storeBefore := store;
        ProcessNavpoint(navPoints[i], -1);
        Regroup(flatHead, Flatten(navPoints, i, basepath), [Entry(navPoints[i], basepath)],
          Flatten(navPoints[i].children, |navPoints[i].children|, basepath));
        Regroup(storeHead, Rows(navPoints, i, -1, |storeHead|, basepath),
          [Row(-1, navPoints[i].navLabel, basepath + navPoints[i].contentsrc)],
          Rows(navPoints[i].children, |navPoints[i].children|, |storeBefore|, |storeBefore| + 1, basepath));
        i := i + 1;
      }
    }

    /**
     * `_process_navpoint`: the navPoint's row is appended under `parent`
     * and its entry to the flat list, then its children under its own row.
     */
    method ProcessNavpoint(p: NavPoint, parent: int)
      modifies this`flattoc, this`store
      ensures flattoc == old(flattoc) + [Entry(p, basepath)] + Flatten(p.children, |p.children|, basepath)
      ensures store == old(store) + [Row(parent, p.navLabel, basepath + p.contentsrc)]
        + Rows(p.children, |p.children|, |old(store)|, |old(store)| + 1, basepath)
      decreases p
    {
      var title := p.navLabel;
      var content := basepath + p.contentsrc;
      var iter := |store|;
      store := store + [Row(parent, title, content)];
      flattoc := flattoc + [(title, content)];
      var children := p.children;
      ghost var flatHead := flattoc;
      ghost var storeHead := store;
      var i := 0;
      while i < |children|
        invariant 0 <= i <= |children|
        invariant flattoc == flatHead + Flatten(children, i, basepath)
        invariant store == storeHead + Rows(children, i, iter, iter + 1, basepath)
      {
        ghost var storeBefore := store;
        ProcessNavpoint(children[i], iter);
        Regroup(flatHead, Flatten(children, i, basepath), [Entry(children[i], basepath)],
          Flatten(children[i].children, |children[i].children|, basepath));
        Regroup(storeHead, Rows(children, i, iter, iter + 1, basepath),
          [Row(iter, children[i].navLabel, basepath + children[i].contentsrc)],
          Rows(children[i].children, |children[i].children|, |storeBefore|, |storeBefore| + 1, basepath));
        i := i + 1;
      }
    }

    function GetFlattoc(): seq<(string, string)>
      reads this`flattoc
    {
      flattoc
    }
  }

  /** A built map lists every navPoint once, in pre-order, and its store agrees with the list row by row. */
  lemma NavMapContents(m: NavMap, navPoints: seq<NavPoint>)
    requires m.flattoc == Flatten(navPoints, |navPoints|, m.basepath) && m.store == Rows(navPoints, |navPoints|, -1, 0, m.basepath)
    ensures |m.GetFlattoc()| == Size(navPoints, |navPoints|) == |m.store|
    ensures forall i :: 0 <= i < |m.store| ==> (m.store[i].title, m.store[i].content) == m.flattoc[i]
    ensures forall i :: 0 <= i < |m.store| ==> -1 <= m.store[i].parent < i
  {
    RowsMirrorFlattoc(navPoints, |navPoints|, -1, 0, m.basepath);
  }
}
