/**
 * The EPUB back end of the Read activity (Read.activity/epubadapter.py): the
 * paginated view extended with the text-to-speech mark builder, the record
 * of files changed by highlighting, the zero-based page numbering the
 * activity uses, and lookups of the current link in the table of contents.
 * The adapter's inherited view state is the `view` it holds.
 */
module EpubAdapter {
  import opened Wrappers
  import opened Builtins
  import opened EpubView
  import opened NavMaps

  /** At most this many words go into one speech request. */
  const CHUNK: nat := 40
  const SPEAK_OPEN := "<speak> "
  const SPEAK_CLOSE := "</speak>"

  /** One word of a speech request, labelled with its index in the page's word list. */
  function Mark(i: nat, word: string): string {
    "<mark name=\"" + NatToString(i) + "\"/>" + word
  }

  /** The labelled words `lo` up to (not including) `hi`. */
  function Marks(words: seq<WordTuple>, lo: nat, hi: nat): string
    requires lo <= hi <= |words|
    decreases hi
  {
    if hi == lo then "" else Marks(words, lo, hi - 1) + Mark(hi - 1, words[hi - 1].word)
  }

  /**
   * The index after the last word one request covers: 40 words on, cut at the
   * end of the list, and never before the start (the slice is then empty).
   */
  function ChunkEnd(from: nat, n: nat): (e: nat)
    ensures from <= e <= from + CHUNK
    ensures from < n ==> e <= n
    ensures e < from + CHUNK ==> e == n || (n < from && e == from)
  {
    if from + CHUNK > n then (if n < from then from else n) else from + CHUNK
  }

  /** The request `get_marked_words` builds when the next word is `from`. */
  function MarkedWords(words: seq<WordTuple>, from: nat): string
  {
    SPEAK_OPEN + (if from <= |words| then Marks(words, from, ChunkEnd(from, |words|)) else "") + SPEAK_CLOSE
  }

  /** Labelled ranges join: the marks of a..c are those of a..b followed by those of b..c. */
  lemma {:induction false} MarksSplit(words: seq<WordTuple>, a: nat, b: nat, c: nat)
    requires a <= b <= c <= |words|
    ensures Marks(words, a, c) == Marks(words, a, b) + Marks(words, b, c)
    decreases c
  {
    if c > b {
      MarksSplit(words, a, b, c - 1);
    }
  }

  /** The word list spoken request after request, from word `from` until the list is used up. */
  function Chunks(words: seq<WordTuple>, from: nat): string
    requires from <= |words|
    decreases |words| - from
  {
    if from == |words| then "" else
      var e := ChunkEnd(from, |words|);
      Marks(words, from, e) + Chunks(words, e)
  }

  /** Speaking chunk after chunk labels every remaining word exactly once, in order, with its own index. */
  lemma {:induction false} ChunksCoverAll(words: seq<WordTuple>, from: nat)
    requires from <= |words|
    ensures Chunks(words, from) == Marks(words, from, |words|)
    decreases |words| - from
  {
    if from < |words| {
      var e := ChunkEnd(from, |words|);
      ChunksCoverAll(words, e);
      MarksSplit(words, from, e, |words|);
    }
  }

  /** `_modified_files` after a highlight in `f`: the file is appended unless already listed. */
  function WithFile(files: seq<string>, f: string): (r: seq<string>)
    ensures f in r && (forall g :: g in r <==> g in files || g == f)
    ensures NoDuplicates(files) ==> NoDuplicates(r)
    ensures files <= r && |r| <= |files| + 1
  {
    if f in files then files else files + [f]
  }

  predicate NoDuplicates(s: seq<string>) {
    forall i, j :: 0 <= i < j < |s| ==> s[i] != s[j]
  }

  /** Highlighting in the same file again leaves the list as it is. */
  lemma WithFileIdempotent(files: seq<string>, f: string)
    ensures WithFile(WithFile(files, f), f) == WithFile(files, f)
  {
  }

  /**
   * `get_current_link`: the loaded file name without the first len(tempdir)+1
   * characters (the temporary directory and one separator); the prefix itself
   * is not checked, and a shorter name gives ''.
   */
  function CurrentLink(filename: string, tempdir: string): (link: string)
    ensures |filename| <= |tempdir| + 1 ==> link == ""
    ensures |filename| > |tempdir| + 1 ==> |link| == |filename| - |tempdir| - 1
    ensures StartsWith(filename, tempdir + "/") ==> tempdir + "/" + link == filename
    ensures EndsWith(filename, link)
  {
    if |filename| <= |tempdir| + 1 then "" else filename[|tempdir| + 1..]
  }

  class EpubViewer {
    const view: View
    /** The directory the book was unpacked into. */
    const tempdir: string
    var modifiedFiles: seq<string>
    /** The index of the next word to speak. */
    var currentWord: nat
    /** Pages waiting, through a timeout, for the book to be paginated (1-based). */
    var pending: seq<int>
    /** The paths the book was written to by `save`. */
    var writes: seq<string>

    ghost predicate Valid()
      reads this, view, view.paginator
    {
      view.Valid() && NoDuplicates(modifiedFiles)
    }

    /** `__init__` and `setup`. */
    constructor (v: View, dir: string)
      requires v.Valid()
      ensures Valid() && view == v && tempdir == dir
      ensures modifiedFiles == [] && currentWord == 0 && pending == [] && writes == []
    {
      view := v;
      tempdir := dir;
      modifiedFiles := [];
      currentWord := 0;
      pending := [];
      writes := [];
    }

    /**
     * `get_marked_words`: the next (at most 40) words of the page as one
     * speech request, each word after a mark named by its index.
     */
    method GetMarkedWords() returns (s: string)
      modifies this`currentWord
      ensures s == MarkedWords(view.wordTuples, old(currentWord))
      ensures currentWord == ChunkEnd(old(currentWord), |view.wordTuples|)
    {
      var words := view.wordTuples;
      var i := currentWord;
      s := SPEAK_OPEN;
      var endRange := i + CHUNK;
      if endRange > |words| {
        endRange := |words|;
      }
      ghost var marks := "";
      while i < endRange
        invariant endRange <= |words| && currentWord <= i && (i == currentWord || i <= endRange)
        invariant s == SPEAK_OPEN + marks
        invariant currentWord > |words| ==> i == currentWord && marks == ""
        invariant currentWord <= |words| ==> i <= |words| && marks == Marks(words, currentWord, i)
      {
        marks := marks + Mark(i, words[i].word);
        s := s + Mark(i, words[i].word);
        i := i + 1;
      }
      currentWord := i;
      s := s + SPEAK_CLOSE;
    }

    /** `reset_text_to_speech`. */
    method ResetTextToSpeech()
      modifies this`currentWord
      ensures currentWord == 0
    {
      currentWord := 0;
    }

    /** `get_current_file`: the URI of the loaded page's file. */
    function CurrentFile(): string
      reads view, view.paginator
      requires view.loadedPage in view.paginator.pagemap
    {
      view.paginator.GetFileForPageno(view.loadedPage)
    }

    /** The bookkeeping part of `toggle_highlight`: the loaded page's file is marked modified. */
    method ToggleHighlight()
      requires Valid() && view.loadedPage in view.paginator.pagemap
      modifies this`modifiedFiles
      ensures Valid()
      ensures modifiedFiles == WithFile(old(modifiedFiles), CurrentFile())
    {
      var currentFile := view.paginator.GetFileForPageno(view.loadedPage);
      if currentFile !in modifiedFiles {
        modifiedFiles := modifiedFiles + [currentFile];
      }
    }

    /** `save`: the book is written, and True returned, only when some file was modified. */
    method Save(path: string) returns (saved: bool)
      modifies this`writes
      ensures saved <==> |modifiedFiles| > 0
      ensures writes == old(writes) + (if saved then [path] else [])
    {
      if |modifiedFiles| > 0 {
        writes := writes + [path];
        return true;
      }
      return false;
    }

    /** `get_current_page`: the zero-based number of the loaded page. */
    function GetCurrentPage(): (n: int)
      reads view
      ensures n + 1 == view.loadedPage
    {
      view.loadedPage - 1
    }

    /**
     * `set_current_page(n)`: zero-based page n is page n+1 of the view; before
     * pagination the page is left to a retrying timeout.
     */
    method SetCurrentPage(n: int)
      requires Valid()
      modifies view`loadedFilename, view`fileLoaded, view`requests, view`loadedPage, view`vscroll, view`slider, view`changes, this`pending
      ensures Valid()
      ensures old(view.ready) ==> pending == old(pending)
      ensures !old(view.ready) ==> pending == old(pending) + [n + 1] && view.Nav() == old(view.Nav())
      ensures old(view.Reaches(n + 1)) ==> GetCurrentPage() == n
    {
      if view.ready {
        view.LoadPage(n + 1);
      } else {
        pending := pending + [n + 1];
      }
    }

    /** `_try_load_page`: True (try again later) until the book is paginated. */
    method TryLoadPage(n: int) returns (again: bool)
      requires Valid()
      modifies view`loadedFilename, view`fileLoaded, view`requests, view`loadedPage, view`vscroll, view`slider, view`changes
      ensures Valid()
      ensures again <==> !old(view.ready)
      ensures again ==> view.Nav() == old(view.Nav())
      ensures old(view.Reaches(n)) ==> view.loadedPage == n
    {
      if view.ready {
        view.LoadPage(n);
        return false;
      }
      return true;
    }

    /**
     * `get_current_link`: the loaded file's name relative to the book's
     * directory.  Before any file is loaded the name is None, which cannot
     * be sliced: TypeError, modelled as None.
     */
    function GetCurrentLink(): (link: Option<string>)
      reads view
      ensures link.None? <==> view.loadedFilename.None?
      ensures link.Some? && StartsWith(view.loadedFilename.value, tempdir + "/") ==>
        tempdir + "/" + link.value == view.loadedFilename.value
    {
      if view.loadedFilename.None? then None else Some(CurrentLink(view.loadedFilename.value, tempdir))
    }
  }

  /**
   * `get_link_iter`: walks the top-level rows of the links model (each
   * `iter_next` goes to the next sibling) and stops at the first whose link
   * column equals `link`; None when there is none.
   */
  method GetLinkIter(rows: seq<Row>, link: string) returns (r: Option<nat>)
    ensures r.Some? ==> r.value < |rows| && rows[r.value].parent == -1 && rows[r.value].content == link
    ensures r.Some? ==> forall i :: 0 <= i < r.value && rows[i].parent == -1 ==> rows[i].content != link
    ensures r.None? ==> forall i :: 0 <= i < |rows| && rows[i].parent == -1 ==> rows[i].content != link
  {
    var i := 0;
    while i < |rows|
      invariant 0 <= i <= |rows|
      invariant forall k :: 0 <= k < i && rows[k].parent == -1 ==> rows[k].content != link
    {
      if rows[i].parent == -1 && rows[i].content == link {
        return Some(i);
      }
      i := i + 1;
    }
    return None;
  }
}
