/**
 * The container logic of an EPUB file (epubview/epub.py): finding the
 * package document through META-INF/container.xml (section 2.5.1 of EPUB
 * Open Container Format 3.0), finding the NCX through the spine's `toc`
 * attribute (section 2.4 of OPF 2.0.1), the crude `mimetype` check, the
 * names entries are extracted under, and the order in which a book is
 * written back with `mimetype` first (section 3.3 of EPUB Open Container
 * Format 3.0).  Parsed XML arrives as sequences of elements' attributes,
 * the archive as its name list, the directory tree as a value.
 */
module EpubContainer {
  import opened Wrappers
  import opened Builtins

  const OPF_MEDIA_TYPE: string := "application/oebps-package+xml"
  const EPUB_MIMETYPE: string := "application/epub+zip"
  const MIMETYPE: string := "mimetype"
  /** `os.path.sep` on the systems the reader runs on. */
  const SEP: char := '/'

  /** A `rootfile` element of container.xml: its `media-type` (None when absent) and `full-path`. */
  datatype Rootfile = Rootfile(mediaType: Option<string>, fullPath: string)

  /** An `item` element of the package manifest: its `id` (None when absent) and `href`. */
  datatype ManifestItem = ManifestItem(id: Option<string>, href: string)

  /** The last rootfile of the package media type: the one whose path `_get_opf` keeps. */
  function LastPackage(rootfiles: seq<Rootfile>): (r: Option<nat>)
    ensures r.Some? ==> r.value < |rootfiles| && rootfiles[r.value].mediaType == Some(OPF_MEDIA_TYPE)
    ensures r.Some? ==> forall i :: r.value < i < |rootfiles| ==> rootfiles[i].mediaType != Some(OPF_MEDIA_TYPE)
    ensures r.None? <==> forall i :: 0 <= i < |rootfiles| ==> rootfiles[i].mediaType != Some(OPF_MEDIA_TYPE)
  {
    if rootfiles == [] then None
    else if rootfiles[|rootfiles| - 1].mediaType == Some(OPF_MEDIA_TYPE) then Some(|rootfiles| - 1)
    else LastPackage(rootfiles[..|rootfiles| - 1])
  }

  /**
   * The last manifest item whose `id` equals the `toc` attribute: the one
   * whose href `_get_ncx` keeps.  Both sides may be None, and then an item
   * without an id matches.
   */
  function LastTocItem(items: seq<ManifestItem>, tocid: Option<string>): (r: Option<nat>)
    ensures r.Some? ==> r.value < |items| && items[r.value].id == tocid
    ensures r.Some? ==> forall i :: r.value < i < |items| ==> items[i].id != tocid
    ensures r.None? <==> forall i :: 0 <= i < |items| ==> items[i].id != tocid
  {
    if items == [] then None
    else if items[|items| - 1].id == tocid then Some(|items| - 1)
    else LastTocItem(items[..|items| - 1], tocid)
  }

  /**
   * The base path of the package document: its path up to and including
   * the last '/', or '' when there is no '/' or nothing before the last one.
   */
  function BasePath(opfpath: string): (b: string)
    ensures b == "" || (b <= opfpath && b[|b| - 1] == SEP && SEP !in opfpath[|b|..])
    ensures SEP !in opfpath ==> b == ""
    ensures b == "" && SEP in opfpath ==> opfpath[0] == SEP && SEP !in opfpath[1..]
    ensures b != "" ==> b + RPartitionTail(opfpath, SEP) == opfpath
  {
    var head := RPartitionHead(opfpath, SEP);
    if head != "" then
      assert opfpath[..|head| + 1] == head + [SEP];
      head + [SEP]
    else ""
  }

  /** `_verify` once the file is opened: the name list holds 'mimetype' and its first line starts right. */
  function Verify(isPath: bool, pathExists: bool, names: seq<string>, firstLine: string): (ok: bool)
    ensures ok ==> MIMETYPE in names && StartsWith(firstLine, EPUB_MIMETYPE)
    ensures isPath && !pathExists ==> !ok
    ensures MIMETYPE !in names ==> !ok
  {
    if isPath && !pathExists then false
    else if MIMETYPE !in names then false
    else if !StartsWith(firstLine, EPUB_MIMETYPE) then false
    else true
  }

  /** Trailing characters after the media type, such as the line's newline, are tolerated. */
  lemma VerifyToleratesTrailing(isPath: bool, names: seq<string>, trailing: string)
    requires MIMETYPE in names
    ensures Verify(isPath, true, names, EPUB_MIMETYPE + trailing)
    ensures !Verify(isPath, true, names, trailing) || StartsWith(trailing, EPUB_MIMETYPE)
  {
    assert (EPUB_MIMETYPE + trailing)[..|EPUB_MIMETYPE|] == EPUB_MIMETYPE;
  }

  /** The name `_unzip` works with: one leading separator removed. */
  function EntryName(name: string): (n: string)
    ensures StartsWith(name, [SEP]) ==> [SEP] + n == name
    ensures !StartsWith(name, [SEP]) ==> n == name
  {
    if StartsWith(name, [SEP]) then name[1..] else name
  }

  /** An entry `_unzip` treats as a directory: its name ends with a separator or a backslash. */
  predicate IsDirEntry(n: string) {
    EndsWith(n, [SEP]) || EndsWith(n, "\\")
  }

  /**
   * `_unzip` hands the stripped name to `ZipFile.extract`, which looks the
   * name up in the archive: for an entry with a leading separator the
   * lookup fails, so the KeyError escapes the method.
   */
  function ExtractedMemberAsWritten(name: string): string {
    EntryName(name)
  }

  lemma LeadingSeparatorEntryIsNotAMember()
    ensures ExtractedMemberAsWritten("/a.html") !in ["/a.html"]
  {
    assert ExtractedMemberAsWritten("/a.html") == "a.html";
  }

  /** What `_unzip` does for one entry: make its directory, or extract it. */
  datatype UnzipStep = MakeDirs(dir: string) | Extract(member: string, target: string) | LogError(name: string)

  /** The directory a directory entry names: without its trailing separator, or the whole name when it ends in a backslash. */
  function DirOf(name: string): string {
    if EndsWith(name, [SEP]) then name[..|name| - 1] else name
  }

  /**
   * The directories above a path, each written without a trailing
   * separator: what `os.makedirs` creates on the way to its leaf, and what
   * `ZipFile.extract` creates above its target (for a directory entry,
   * the directory itself).
   */
  function Parents(p: string): set<string>
    decreases |p|
  {
    if |p| <= 1 then {}
    else Parents(p[..|p| - 1]) + (if p[|p| - 1] == SEP then {p[..|p| - 1]} else {})
  }

  /**
   * One entry of `_unzip`, given the directories that exist: its steps and
   * the directories existing afterwards.  `os.makedirs` fails when the
   * entry's own directory already exists, whether an earlier entry made it
   * or it was created above an earlier entry; the failure is logged and
   * the entry is not extracted.
   */
  function EntryStep(member: string, dirs: set<string>): (r: (seq<UnzipStep>, set<string>))
    ensures dirs <= r.1
    ensures IsDirEntry(EntryName(member)) && DirOf(EntryName(member)) in dirs ==>
      r == ([LogError(EntryName(member))], dirs)
    ensures IsDirEntry(EntryName(member)) && DirOf(EntryName(member)) !in dirs ==>
      r.0 == [MakeDirs(EntryName(member)), Extract(member, EntryName(member))]
      && DirOf(EntryName(member)) in r.1 && Parents(EntryName(member)) <= r.1
    ensures !IsDirEntry(EntryName(member)) ==>
      r.0 == [Extract(member, EntryName(member))] && Parents(EntryName(member)) <= r.1
  {
    var name := EntryName(member);
    if IsDirEntry(name) then
      if DirOf(name) in dirs then ([LogError(name)], dirs)
      else ([MakeDirs(name), Extract(member, name)], dirs + Parents(name) + {DirOf(name)})
    else ([Extract(member, name)], dirs + Parents(name))
  }

  /**
   * The steps of `_unzip` over the first n names of the archive and the
   * directories then existing.  The empty name stands for a directory
   * that exists from the start: a name of two separators is stripped to
   * '/', on which `os.makedirs` fails.
   */
  function Unzipped(names: seq<string>, n: nat): (seq<UnzipStep>, set<string>)
    requires n <= |names|
  {
    if n == 0 then ([], {""})
    else
      var before := Unzipped(names, n - 1);
      var step := EntryStep(names[n - 1], before.1);
      (before.0 + step.0, step.1)
  }

  /**
   * Every extraction `_unzip` performs takes a member of the archive to its
   * name with one leading separator removed; and every entry that is not a
   * directory is extracted.
   */
  lemma {:induction false} UnzipExtracts(names: seq<string>, n: nat)
    requires n <= |names|
    ensures forall st | st in Unzipped(names, n).0 && st.Extract? ::
      st.member in names[..n] && st.target == EntryName(st.member)
    ensures forall j | 0 <= j < n && !IsDirEntry(EntryName(names[j])) ::
      Extract(names[j], EntryName(names[j])) in Unzipped(names, n).0
  {
    if n > 0 {
      UnzipExtracts(names, n - 1);
      assert names[..n] == names[..n - 1] + [names[n - 1]];
    }
  }

  /**
   * A directory entry below one already unpacked fails: after 'a/b/' has
   * been made (and 'a' with it), 'a/' is only logged.
   */
  lemma NestedDirectoryEntryLogged()
    ensures Unzipped(["a/b/", "a/"], 2).0 ==
      [MakeDirs("a/b/"), Extract("a/b/", "a/b/"), LogError("a/")]
  {
    assert !StartsWith("a/b/", [SEP]) && !StartsWith("a/", [SEP]) by {
      assert "a/b/"[0] != SEP && "a/"[0] != SEP;
    }
    assert EntryName("a/b/") == "a/b/" && EntryName("a/") == "a/";
    assert DirOf("a/b/") == "a/b" && DirOf("a/") == "a";
    assert "a/b/"[..3][..2] == "a/" && "a/"[..1] == "a";
    assert "a" in Parents("a/b/");
    assert "a/b" != "";
  }

  /** `os.path.join(path, p)` for a relative `p`. */
  function Join(path: string, p: string): string {
    path + [SEP] + p
  }

  /** A directory tree to be archived: file and directory names hold no separator. */
  datatype FsNode = File(name: string) | Dir(name: string, entries: seq<FsNode>)

  datatype Compression = Stored | Deflated

  /**
   * The entries `_scan_dir(path)` writes for the first n nodes of a
   * directory listing, in listing order: files other than 'mimetype', and
   * the contents of subdirectories in place.
   */
  function Scanned(path: string, nodes: seq<FsNode>, n: nat): seq<(string, Compression)>
    requires n <= |nodes|
    decreases nodes, n
  {
    if n == 0 then []
    else
      var node := nodes[n - 1];
      Scanned(path, nodes, n - 1) +
      match node
      case Dir(name, entries) => Scanned(Join(path, name), entries, |entries|)
      case File(name) => if name != MIMETYPE then [(Join(path, name), Deflated)] else []
  }

  /** No node name of a tree holds a separator, as in a real directory listing. */
  ghost predicate PlainNames(nodes: seq<FsNode>)
    decreases nodes
  {
    forall i :: 0 <= i < |nodes| ==> SEP !in nodes[i].name && (nodes[i].Dir? ==> PlainNames(nodes[i].entries))
  }

  /** The character `k` places into a suffix of `s`. */
  lemma SuffixChar(s: string, suffix: string, k: int)
    ensures EndsWith(s, suffix) && 0 <= k < |suffix| ==> s[|s| - |suffix| + k] == suffix[k]
  {
    if EndsWith(s, suffix) && 0 <= k < |suffix| {
      assert s[|s| - |suffix|..][k] == suffix[k];
    }
  }

  /** The character a name contributes to a joined path. */
  lemma JoinChar(path: string, name: string, i: int)
    ensures 0 <= i < |name| ==> Join(path, name)[|path| + 1 + i] == name[i]
  {
  }

  /** A joined path ends with "/mimetype" only when the last name is 'mimetype'. */
  lemma JoinEndsWithMimetype(path: string, name: string)
    requires SEP !in name
    ensures EndsWith(Join(path, name), [SEP] + MIMETYPE) ==> name == MIMETYPE
  {
    var j := Join(path, name);
    var suffix := [SEP] + MIMETYPE;
    assert SEP !in MIMETYPE;
    assert j[|path|] == SEP;
    if EndsWith(j, suffix) {
      if |name| < |MIMETYPE| {
        SuffixChar(j, suffix, |suffix| - |name| - 1);
      } else if |name| > |MIMETYPE| {
        SuffixChar(j, suffix, 0);
        JoinChar(path, name, |name| - |suffix|);
      } else {
        assert j[|j| - |name|..] == name;
        assert j[|j| - |suffix| + 1..] == MIMETYPE;
      }
    }
  }

  /** `_scan_dir` compresses everything it writes and never writes a file named 'mimetype'. */
  lemma {:induction false} ScanSkipsMimetype(path: string, nodes: seq<FsNode>, n: nat)
    requires n <= |nodes| && PlainNames(nodes)
    ensures forall e | e in Scanned(path, nodes, n) ::
      e.1 == Deflated && path + [SEP] <= e.0 && !EndsWith(e.0, [SEP] + MIMETYPE)
    decreases nodes, n
  {
    if n > 0 {
      ScanSkipsMimetype(path, nodes, n - 1);
      var node := nodes[n - 1];
      match node
      case Dir(name, entries) =>
        var sub := Join(path, name);
        ScanSkipsMimetype(sub, entries, |entries|);
        forall e | e in Scanned(sub, entries, |entries|)
          ensures path + [SEP] <= e.0
        {
          assert e.0[..|path| + 1] == (sub + [SEP])[..|path| + 1];
        }
      case File(name) =>
        JoinEndsWithMimetype(path, name);
    }
  }

  /** The parts of `_Epub` that the container logic sets. */
  class Epub {
    var opfpath: Option<string>
    var basepath: Option<string>
    var ncxpath: Option<string>
    /** The steps `_unzip` takes, in order. */
    var unzipLog: seq<UnzipStep>
    /** The path and compression of each `ZipFile.write` call, in order; the archive stores each under its StoredName. */
    var archive: seq<(string, Compression)>

    constructor ()
      ensures opfpath == None && basepath == None && ncxpath == None && unzipLog == [] && archive == []
    {
      opfpath := None;
      basepath := None;
      ncxpath := None;
      unzipLog := [];
      archive := [];
    }

    /**
     * `_get_opf`: the last package rootfile wins; the base path follows
     * from it.  Without a package rootfile the source fails on None.
     */
    method GetOpf(rootfiles: seq<Rootfile>)
      requires LastPackage(rootfiles).Some? || opfpath.Some?
      modifies this`opfpath, this`basepath
      ensures LastPackage(rootfiles).Some? ==> opfpath == Some(rootfiles[LastPackage(rootfiles).value].fullPath)
      ensures LastPackage(rootfiles).None? ==> opfpath == old(opfpath)
      ensures opfpath.Some? && basepath == Some(BasePath(opfpath.value))
    {
      var i := 0;
      while i < |rootfiles|
        invariant 0 <= i <= |rootfiles|
        invariant LastPackage(rootfiles[..i]).Some? ==> opfpath == Some(rootfiles[LastPackage(rootfiles[..i]).value].fullPath)
        invariant LastPackage(rootfiles[..i]).None? ==> opfpath == old(opfpath)
      {
        assert rootfiles[..i + 1][..i] == rootfiles[..i];
        if rootfiles[i].mediaType == Some(OPF_MEDIA_TYPE) {
          opfpath := Some(rootfiles[i].fullPath);
        }
        i := i + 1;
      }
      assert rootfiles[..i] == rootfiles;
      var head := RPartitionHead(opfpath.value, SEP);
      if head != "" {
        basepath := Some(head + [SEP]);
      } else {
        basepath := Some("");
      }
    }

    /**
     * `_get_ncx`: the NCX path is the base path followed by the href of the
     * last manifest item whose id is the spine's `toc`; without one it stays as it was.
     */
    method GetNcx(tocid: Option<string>, items: seq<ManifestItem>)
      requires basepath.Some?
      modifies this`ncxpath
      ensures LastTocItem(items, tocid).Some? ==> ncxpath == Some(basepath.value + items[LastTocItem(items, tocid).value].href)
      ensures LastTocItem(items, tocid).None? ==> ncxpath == old(ncxpath)
    {
      var i := 0;
      while i < |items|
        invariant 0 <= i <= |items|
        invariant LastTocItem(items[..i], tocid).Some? ==> ncxpath == Some(basepath.value + items[LastTocItem(items[..i], tocid).value].href)
        invariant LastTocItem(items[..i], tocid).None? ==> ncxpath == old(ncxpath)
      {
        assert items[..i + 1][..i] == items[..i];
        if items[i].id == tocid {
          ncxpath := Some(basepath.value + items[i].href);
        }
        i := i + 1;
      }
      assert items[..i] == items;
    }

    /**
     * `_unzip`, with each entry extracted from its own archive name to the
     * stripped name.  A directory entry is made first; making one that
     * already exists fails, is logged, and skips the extraction.
     */
    method Unzip(names: seq<string>)
      modifies this`unzipLog
      ensures unzipLog == old(unzipLog) + Unzipped(names, |names|).0
    {
      var dirs: set<string> := {""};
      var i := 0;
      while i < |names|
        invariant 0 <= i <= |names|
        invariant unzipLog == old(unzipLog) + Unzipped(names, i).0 && dirs == Unzipped(names, i).1
      {
        ghost var before := Unzipped(names, i);
        ghost var step := EntryStep(names[i], before.1);
        assert Unzipped(names, i + 1) == (before.0 + step.0, step.1);
        dirs := UnzipEntry(names[i], dirs);
        assert unzipLog == old(unzipLog) + (before.0 + step.0);
        i := i + 1;
      }
    }

    /**
     * One entry of `_unzip`: its directory made (or the failure logged),
     * then its extraction; `dirs` are the directories that exist.
     */
    method UnzipEntry(member: string, dirs: set<string>) returns (dirsAfter: set<string>)
      modifies this`unzipLog
      ensures unzipLog == old(unzipLog) + EntryStep(member, dirs).0 && dirsAfter == EntryStep(member, dirs).1
    {
      var name := EntryName(member);
      dirsAfter := dirs;
      var steps;
      if IsDirEntry(name) {
        if DirOf(name) in dirs {
          steps := [LogError(name)];
        } else {
          dirsAfter := dirs + Parents(name) + {DirOf(name)};
          steps := [MakeDirs(name), Extract(member, name)];
        }
      } else {
        dirsAfter := dirs + Parents(name);
        steps := [Extract(member, name)];
      }
      unzipLog := unzipLog + steps;
    }

    /** `write`: 'mimetype' first and stored, then what `_scan_dir('.')` finds. */
    method Write(tree: seq<FsNode>)
      modifies this`archive
      ensures archive == [(MIMETYPE, Stored)] + Scanned(".", tree, |tree|)
    {
      archive := [(MIMETYPE, Stored)];
      ScanDir(".", tree);
    }

    /** `_scan_dir`: files in listing order, subdirectories recursively, 'mimetype' skipped. */
    method ScanDir(path: string, nodes: seq<FsNode>)
      modifies this`archive
      ensures archive == old(archive) + Scanned(path, nodes, |nodes|)
      decreases nodes
    {
      ghost var head := archive;
      var i := 0;
      while i < |nodes|
        invariant 0 <= i <= |nodes|
        invariant archive == head + Scanned(path, nodes, i)
      {
        match nodes[i] {
          case Dir(name, entries) =>
            ScanDir(Join(path, name), entries);
          case File(name) =>
            if name != MIMETYPE {
              archive := archive + [(Join(path, name), Deflated)];
            }
        }
        i := i + 1;
      }
    }
  }

  /**
   * The name `ZipFile.write` stores for a path, `os.path.normpath` of it:
   * for the paths `_scan_dir('.')` builds from the names of a directory
   * listing this only drops the leading './'.
   */
  function StoredName(p: string): string {
    if StartsWith(p, "./") then p[2..] else p
  }

  /**
   * A written book starts with the stored 'mimetype' entry; every later
   * entry is compressed, is not a file named 'mimetype' in any directory
   * of the tree, and so is not stored under the name 'mimetype'.
   */
  lemma WrittenArchive(tree: seq<FsNode>)
    requires PlainNames(tree)
    ensures var archive := [(MIMETYPE, Stored)] + Scanned(".", tree, |tree|);
      archive[0] == (MIMETYPE, Stored) && StoredName(archive[0].0) == MIMETYPE
      && forall k :: 1 <= k < |archive| ==>
           archive[k].1 == Deflated && !EndsWith(archive[k].0, [SEP] + MIMETYPE)
           && StoredName(archive[k].0) != MIMETYPE
  {
    var archive := [(MIMETYPE, Stored)] + Scanned(".", tree, |tree|);
    ScanSkipsMimetype(".", tree, |tree|);
    assert !StartsWith(MIMETYPE, "./") by {
      assert MIMETYPE[0] != '.';
    }
    forall k | 1 <= k < |archive|
      ensures archive[k].1 == Deflated && !EndsWith(archive[k].0, [SEP] + MIMETYPE)
      ensures StoredName(archive[k].0) != MIMETYPE
    {
      var p := archive[k].0;
      assert archive[k] in Scanned(".", tree, |tree|);
      assert "./" <= p;
    }
  }
}
