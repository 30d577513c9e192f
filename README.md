# Read activity: a verified model of its reading core

Read is the Sugar e-book reader. This project models, in Dafny, the parts of
it that compute rather than draw:

- the EPUB paginator (`epubview/jobs.py`), which turns the rendered height of
  each file of a book into a linear numbering of fixed-height virtual pages,
  each page a (file, scroll position, length) record, plus the search-result
  cursor;
- the EPUB container (`epubview/epub.py`): unpacking with leading-separator
  names, the OPF and NCX lookups, the mimetype check, and re-packing with
  'mimetype' first and stored;
- the navigation map (`epubview/navmap.py`): the table of contents flattened
  and mirrored into tree-store rows;
- the two EPUB views (`Read.activity/epubview/epubview.py` and the older
  `epubview/epubview.py`): page changes driven by the scrollbar, file
  loading, padding of a file's last page, following links and the word
  split for text to speech;
- the EPUB adapter (`Read.activity/epubadapter.py`): marked-up speech text,
  highlights, current page and link iteration;
- the bookmark and highlight cache (`readdb.py`) and its bookmark records
  (`Read.activity/readbookmark.py`, the older `readbookmark.py`);
- the plain-text viewer (`textadapter.py`), the comic-book viewer
  (`comicadapter.py`) and the image view it uses (`Read.activity/imageview.py`).

Pure code (page arithmetic, lookups, sorting, word splitting) is modelled as
functions with lemmas. Objects whose fields the source updates (the
paginator, the views, the adapters, the bookmark manager, the image view)
are classes. Their methods update those fields under `modifies` clauses and
loop where the source loops. Each method's `ensures` ties the new state to
specification functions, and lemmas prove what those functions promise.
GTK signals are modelled as append-only logs (`changes`, `added`, ...).
SQLite tables are modelled as sequences of rows. The renderer's measurements
and the positions of elements it reports are method parameters. Python 2
integer division is floor division (`Builtins.FloorDiv`). Python floats are
exact reals. Python's negative list indices are modelled by `Builtins.PyIndex`.

Three choices about what the code does:

- A file no taller than one page counts as exactly one page, with remainder factor 0. The code tests `pageheight <= single` first (`epubview/jobs.py:164-165`), so a height of 0 is not a special case.
- Page-map keys are the floats `float(pagecount + i)` in the code. They are modelled as integers, since Python looks up int keys equal to those floats.
- `get_base_pageno_for_file` scans the page map in dictionary order. The keys are the whole numbers 1.0 to n.0, which hash to 1 to n, and a CPython 2 dictionary always has more slots than entries. Each key therefore sits in its own slot, and the keys are visited in increasing order. The model scans keys in increasing order and returns the lowest matching page, as the code does.

## Model

| member | source | states |
|---|---|---|
| Pagination.MmToPixel | epubview/jobs.py:41-43 | the pixel count is the millimetre length times 0.03937 times dpi, truncated toward zero (non-negative and within one pixel below the exact value for non-negative input, within one above it for negative input) |
| Pagination.PixelToMm | epubview/jobs.py:36-38 | the conversion fails exactly when dpi is 0 (ZeroDivisionError); otherwise, for a non-negative pixel count, the result is a non-negative millimetre count whose inch value does not exceed pixel / dpi |
| Pagination.PageSizeInPixels | epubview/jobs.py:32-33 | a 216 mm by 135 mm page at 96 dpi is 816 pixels high and 510 pixels wide |
| Pagination.PixelToMmIsNotAnInverse | epubview/jobs.py:36-43 | converting the 816-pixel page height back gives 203 mm, not 216: the integer division keeps whole inches only |
| Pagination.StripFileUri | epubview/jobs.py:177 | removing 'file://' from the URI of a path that does not contain 'file://' gives back the path |
| Pagination.FractionalPages | epubview/jobs.py:164-167 | a file's fractional page count is at least 1 |
| Pagination.PagesInFile | epubview/jobs.py:164-176 | a file gets at least one page, exactly one when it is no taller than a page, and the ceiling of its fractional page count otherwise |
| Pagination.PagesInFileHoldsFile | epubview/jobs.py:164-172 | the pages of a file together are at least as tall as the file, and a file taller than one page would not fit in one page fewer |
| Pagination.PageRun | epubview/jobs.py:168-174 | the loop creates exactly k page records for a file of k pages |
| Pagination.FilePages | epubview/jobs.py:164-174 | a file has exactly as many virtual pages as its page count |
| Pagination.PositionsEvenlySpaced | epubview/jobs.py:168-174 | local page i of a k-page file starts at i/k of the file: the first at 0, strictly increasing, all inside [0, 1), all in that file |
| Pagination.RunPositions | epubview/jobs.py:168-174 | the k page records of one file all carry its URI, start at position 0, and have strictly increasing positions i/k inside [0, 1) |
| Pagination.LengthsPartitionFile | epubview/jobs.py:168-172 | every page has length 1/p, except that the last page of a file with a non-whole page count p has (p - floor p)/p; the lengths of one file's pages sum to 1 |
| Pagination.RemainderBounds | epubview/jobs.py:176-178 | the remainder factor ceil(p) - p lies in [0, 1), is 0 exactly when p is whole, and is 0 for a one-page file |
| Pagination.PageMap | epubview/jobs.py:173-174 | the page map's keys are exactly the page numbers 1..number of pages |
| Pagination.PageMapOfAppend | epubview/jobs.py:168-174 | numbering a further file's pages keeps every earlier page record and gives the new numbers to pages of that file |
| Pagination.PageMapExtend | epubview/jobs.py:173-174 | adding one page record under the next number is a single dictionary assignment |
| Pagination.BookPageCount | epubview/jobs.py:171-177 | the total page count is the sum of the per-file page counts and at least the number of files |
| Pagination.BookPagesAppend | epubview/jobs.py:160-177 | measuring one more file appends that file's pages to the book, assigns its table entry (page count, remainder) under its stripped URI, and adds its height to the total |
| Pagination.FileRun | epubview/jobs.py:168-177 | file j owns the contiguous page numbers after all pages of earlier files, and those pages are exactly its own pages |
| Pagination.PageOwner | epubview/jobs.py:168-177 | every page of the book lies in the page run of some measured file and carries that file's URI |
| Pagination.BookPagesPrefix | epubview/jobs.py:160-177 | the pages of the first j measured files are a prefix of the pages of all measured files |
| Pagination.FirstPageOfRun | epubview/jobs.py:168-177 | the first page of file j's run exists and carries file j's URI |
| Pagination.EarlierPageOtherFile | epubview/jobs.py:217-225 | for distinct plain paths, no page before file j's run strips to file j's name, so the base-page scan cannot stop early |
| Pagination.PageBelongsToFile | epubview/jobs.py:193-197 | for a file list without repeats, page n is in file j if and only if n lies in file j's page run |
| Pagination.IndexOf | epubview/jobs.py:153-155 | the first index holding the name, or None exactly when the name is not in the list |
| Pagination.NextFilenameOfLastFileRaises | epubview/jobs.py:152-158 | as written, asking for the file after the last file indexes past the end of the list: IndexError |
| Pagination.NextFilenameSpec | epubview/jobs.py:152-158 | the corrected lookup returns the next file for every file but the last, None for the last file and for an unknown name, and agrees with the written code wherever that code does not raise |
| Pagination.BasePageFrom | epubview/jobs.py:217-225 | the first page (searching from n) whose stripped URI is the name, or None exactly when no such page exists |
| Pagination.BasePageRoundTrip | epubview/jobs.py:217-225 | in a fully measured book of distinct plain paths, the base page of file j is the first page of j's run, and that page lies in file j |
| Pagination.FileDictEntries | epubview/jobs.py:177-178 | every per-file table entry has page count minus remainder (the fractional page count) of at least 1 |
| Pagination.Paginator.constructor | epubview/jobs.py:92-144 | a new paginator has an empty page map and page count 0, has measured nothing, and has asked for the first file; an empty list is not accepted (the source raises IndexError) |
| Pagination.Paginator.OnFileMeasured | epubview/jobs.py:160-188 | records the file's height, raises the page count by that file's page count, keeps earlier pages, gives the new numbers to pages of the measured file, and either asks for the next file or emits 'paginated' after the last; the page map, file table and total height stay those of the measured prefix |
| Pagination.Paginator.NumberPages | epubview/jobs.py:168-174 | the loop leaves the page map equal to that of the book so far followed by the file's k pages |
| Pagination.Paginator.GetBasePagenoForFile | epubview/jobs.py:217-225 | a page whose stripped URI is the name (the lowest such number), and None only when no page of a fully numbered map lies in that file |
| Pagination.Paginator.BaseScan | epubview/jobs.py:217-225 | the scan from n returns the lowest page at or after n whose stripped URI is the name, and None only when no page from n to the page count has it |
| Pagination.PaginatedBook | epubview/jobs.py:160-225 | once 'paginated' has been emitted, every file has been measured, the keys are 1..page count, and for distinct plain paths the base page of file j is the first page of its run and lies in file j |
| Pagination.MeasuredFileHasBase | epubview/jobs.py:217-225 | once paginated, every plain file of the list has a base page |
| Pagination.FindCursor.constructor | epubview/jobs.py:252-272 | the search result cursor starts at index 0 over the matched files |
| Pagination.FindCursor.GetNextFile | epubview/jobs.py:287-298 | the next match, cyclically, with the index wrapping to 0 past the end; None exactly when there are no matches (the IndexError of an empty list) |
| Pagination.FindCursor.GetPrevFile | epubview/jobs.py:300-311 | the previous match, cyclically, with the index restarting at -1 past -length; None exactly when there are no matches |
| EpubContainer.LastPackage | epubview/epub.py:82-85 | the index of the last rootfile whose media type is the OPF package type (later matches overwrite earlier ones), or None exactly when no rootfile has that type |
| EpubContainer.LastTocItem | epubview/epub.py:100-105 | the index of the last manifest item whose id is the spine's toc id, or None exactly when no item has it |
| EpubContainer.BasePath | epubview/epub.py:87-90 | the directory part of the OPF path up to and including its last '/', so that base + file name gives the path back; '' when the path has no '/' or only a leading one |
| EpubContainer.Verify | epubview/epub.py:109-130 | a container is accepted only if 'mimetype' is a member and its first line starts with 'application/epub+zip'; a missing path is refused |
| EpubContainer.VerifyToleratesTrailing | epubview/epub.py:126-130 | trailing characters after the media type are accepted, and a first line that does not start with it is refused |
| EpubContainer.EntryName | epubview/epub.py:66-67 | an entry name loses exactly one leading '/' and is otherwise unchanged |
| EpubContainer.EntryStep | epubview/epub.py:62-73 | a file is extracted to its stripped name, its parent directories then existing; a directory entry whose directory does not exist yet is made and extracted, it and its parents then existing; a directory entry whose directory already exists (made by an earlier entry or above one) only logs the makedirs error; no directory ever disappears |
| EpubContainer.UnzipExtracts | epubview/epub.py:62-73 | every extraction takes a member of the archive to its name with one leading '/' removed, and every entry that is not a directory is extracted |
| EpubContainer.NestedDirectoryEntryLogged | epubview/epub.py:62-73 | the entries 'a/b/' then 'a/' make and extract 'a/b/' and only log the error for 'a/', which already exists |
| EpubContainer.LeadingSeparatorEntryIsNotAMember | epubview/epub.py:66-73 | as written, an archive whose only member is '/a.html' is asked to extract 'a.html', which is not a member: KeyError |
| EpubContainer.ScanSkipsMimetype | epubview/epub.py:183-192 | every entry the directory scan adds is deflated, lies under the scanned path and is not a file named 'mimetype' |
| EpubContainer.JoinEndsWithMimetype | epubview/epub.py:186-191 | a joined path ends in a separator and 'mimetype' only when the file name itself is 'mimetype' |
| EpubContainer.Epub.constructor | epubview/epub.py:35-40 | a new container has no OPF path, base path or NCX path, and has extracted and written nothing |
| EpubContainer.Epub.GetOpf | epubview/epub.py:76-92 | the OPF path is the full path of the last package rootfile (unchanged when there is none), and the base path is derived from it |
| EpubContainer.Epub.GetNcx | epubview/epub.py:94-107 | the NCX path is the base path plus the href of the last manifest item with the toc id, unchanged when there is none |
| EpubContainer.Epub.Unzip | epubview/epub.py:57-74 | the extraction log grows by exactly the steps of the entries in archive order, each entry's steps depending on the directories that exist before it |
| EpubContainer.Epub.UnzipEntry | epubview/epub.py:62-73 | one entry appends exactly its steps and returns the directories existing afterwards: a file is extracted to its stripped name; a directory entry is made and extracted unless its directory already exists, in which case only the error is logged |
| EpubContainer.Epub.Write | epubview/epub.py:159-181 | the archive is 'mimetype', stored, followed by the scan of the unpacked tree |
| EpubContainer.Epub.ScanDir | epubview/epub.py:183-192 | the scan appends the directory's files in listing order, subdirectories' contents in place, leaving out files named 'mimetype' |
| EpubContainer.WrittenArchive | epubview/epub.py:159-192 | the written archive starts with 'mimetype' stored; every later entry is deflated, is not a file named 'mimetype' in any directory, and is not stored under the name 'mimetype' once the leading './' is dropped |
| NavMaps.FlattenLength | epubview/navmap.py:43-56 | the flat table of contents has one entry per navPoint of the tree, children included |
| NavMaps.RowsLength | epubview/navmap.py:43-56 | the tree store has one row per navPoint of the tree |
| NavMaps.RowsMirrorFlattoc | epubview/navmap.py:43-56 | row i of the tree store holds the same (title, content) as entry i of the flat list, and each row's parent is the given parent or an earlier row |
| NavMaps.TopLevelRow | epubview/navmap.py:30-48 | the j-th top-level navPoint is appended after all rows of earlier navPoints, under the given parent, with its label and basepath + src |
| NavMaps.ChildUnderParent | epubview/navmap.py:47-54 | a child navPoint's row has its parent navPoint's row as parent |
| NavMaps.NavMap.constructor | epubview/navmap.py:21-28 | after construction the flat list and the tree store are the pre-order entries and rows of the navMap's navPoints, top-level rows without a parent |
| NavMaps.NavMap.PopulateToc | epubview/navmap.py:30-33 | the top-level navPoints, each with its descendants, are appended in document order to both the flat list and the tree store |
| NavMaps.NavMap.ProcessNavpoint | epubview/navmap.py:43-56 | a navPoint appends its own entry and row under the given parent, then its children's entries and rows under its own row |
| NavMaps.NavMapContents | epubview/navmap.py:58-62 | the flat list and the tree store have the same length, the same (title, content) pairs in the same order, and every row's parent is an earlier row or none |
| EpubView.BeforeAnchor | Read.activity/epubview/epubview.py:657-659 | the path part of a link: the prefix before the first '#', the whole link when it has none |
| EpubView.Anchor | Read.activity/epubview/epubview.py:656-658 | the internal link is None exactly when the link has no '#'; otherwise it starts with '#' and path part + anchor gives the link back |
| EpubView.LoadedName | Read.activity/epubview/epubview.py:429-434 | the loaded file name carries no '#anchor' |
| EpubView.RequestUri | Read.activity/epubview/epubview.py:633-639 | the URI a file is opened with starts with 'file://' |
| EpubView.LoadedNameOfRequest | Read.activity/epubview/epubview.py:429-639 | round trip: for a plain path without '#' or 'file://' that does not end in 'xml', the name recovered from the URI it was opened with is the path itself |
| EpubView.PaddingRequest | Read.activity/epubview/epubview.py:441-446 | at most one padding request, always positive, made exactly when the computed bottom padding is positive |
| EpubView.PaddingCompletesLastPage | Read.activity/epubview/epubview.py:441-446 | the divisor pages - remainder is at least 1; a file no taller than one page gets no padding, and a taller file padded by the computed amount fills exactly its whole pages |
| EpubView.PaddedBottomIsLastPage | Read.activity/epubview/epubview.py:441-477 | when the height read after the padding has grown by the padding, the bottom-link test holds exactly for links on the file's last page: past its first k - 1 whole pages, or past h - single for a file of one page |
| EpubView.LinkedPageInFile | Read.activity/epubview/epubview.py:464-469 | a link inside file j lands on a page of file j's run: the page whose slot of one page height holds the link's position |
| EpubView.SplitWords | Read.activity/epubview/epubview.py:496-518 | the word tuples are exactly the maximal runs of characters outside the ignore set, in order and without overlap, each with its begin and end offsets and the text between them; every non-ignored character lies in one of them |
| EpubView.WordEnd | Read.activity/epubview/epubview.py:510-513 | the inner loop stops at the first ignored character after the word's start, or at the end of the text |
| EpubView.AppendWord | Read.activity/epubview/epubview.py:514-517 | appending the maximal run just scanned keeps the list a split of the text up to that run's end |
| EpubView.FirstEndingWithFromSpec | Read.activity/epubview/epubview.py:661-662 | the search finds the first file, from the given index on, whose path ends with the suffix, and finds none only when no such file exists |
| EpubView.FirstEndingWithSpec | Read.activity/epubview/epubview.py:661-669 | the first file of the list whose path ends with the suffix, and None exactly when no file does |
| EpubView.View.constructor | Read.activity/epubview/epubview.py:51-118 | a new view is not ready, has page count -1 and loaded page -1, no loaded file name or internal link, moves forward, and has emitted and requested nothing |
| EpubView.View.PaginatedCb | Read.activity/epubview/epubview.py:702-709 | once the paginator has finished, the view is ready and its page count is the paginator's total page count |
| EpubView.View.OnPageChanged | Read.activity/epubview/epubview.py:593-602 | nothing happens when the old and new pages are equal; otherwise the loaded page and the slider become the new page and the zero-based pair (old - 1, new - 1) is emitted |
| EpubView.View.ScrollPage | Read.activity/epubview/epubview.py:525-532 | the scrollbar is set to (upper - page size) times the loaded page's position fraction |
| EpubView.View.ScrollPageEnd | Read.activity/epubview/epubview.py:520-523 | the scrollbar is set to its upper bound, which the adjustment clamps to its largest value |
| EpubView.View.LoadPage | Read.activity/epubview/epubview.py:604-643 | an out-of-range or already-loaded page changes nothing; a page of another file records that file and, when the current file has finished loading, requests the new file and announces the page, else waits; a page of the loaded file scrolls to the page's position; a page that can take effect becomes the loaded page |
| EpubView.View.SetCurrentPage | Read.activity/epubview/epubview.py:249-256 | returns True exactly when 1 <= n <= page count; False changes nothing; a reachable page becomes the loaded page |
| EpubView.View.NextPage | Read.activity/epubview/epubview.py:258-266 | returns False exactly when the loaded page is the last page, and then changes nothing; otherwise loads the next page |
| EpubView.View.PreviousPage | Read.activity/epubview/epubview.py:268-276 | returns False exactly when the loaded page is page 1, and then changes nothing; otherwise loads the previous page |
| EpubView.View.DoPageTransition | Read.activity/epubview/epubview.py:411-424 | a transition happens exactly when going forward at the bottom of the scroll range or going back at its top, and it loads the next or previous page; otherwise nothing changes |
| EpubView.View.VScrollbarValueChanged | Read.activity/epubview/epubview.py:555-591 | going forward, the page becomes p + 1 exactly when p is not the last page, p + 1 is in the same file and the scroll fraction is at least p + 1's position; going back, p - 1 exactly when the pages share a file and the fraction is at most p's position; a page missing from the page map raises KeyError (as before pagination has finished); otherwise the page stays; a move is announced |
| EpubView.View.LoadFile | Read.activity/epubview/epubview.py:655-669 | the internal link is the anchor part of the path; the first file ending with the path part is requested; its base page becomes the loaded page, scrolled to and announced, and when there is none yet (before pagination) scrolling to it raises KeyError; with no match nothing else changes; a paginated view never raises |
| EpubView.View.FindFile | Read.activity/epubview/epubview.py:661-662 | the loop stops at the index of the first file ending with the target, or at the end of the list |
| EpubView.View.OpenAtBasePage | Read.activity/epubview/epubview.py:663-669 | the matched file is requested; without a base page for it scrolling raises KeyError and the page, scroll, slider and announcements stay; otherwise its base page becomes the loaded page and the view scrolls to it; the slider moves and a change is announced only when the page differs |
| EpubView.View.LoadFinished | Read.activity/epubview/epubview.py:426-485 | nothing but the loaded flag changes before the first page; otherwise the file name is recorded; a file missing from the file table raises KeyError before anything else; the padding is requested; the view scrolls to the page, to the end when going back, or not at all after a search, and a loaded page missing from the page map raises KeyError; a pending internal link sets the page to base page + floor(position / page height), clears the link and names the next file when the link lies within one page of the bottom of the file as measured again after the padding; a link without a base page, or at the bottom of the last file, raises |
| EpubView.View.ApplyLoadedFile | Read.activity/epubview/epubview.py:441-485 | a file missing from the file table raises KeyError and changes nothing; otherwise the padding for the file's remainder is requested; a pending search is finished without scrolling, going back scrolls to the end and otherwise to the loaded page's position, raising KeyError when that page is not mapped; a pending link sets the page from the link's offset and asks for the next file when the link lies within one page of the bottom of the padded file, whose height is read again after the padding |
| EpubView.View.AddBottomPadding | Read.activity/epubview/epubview.py:441-446 | the padding request of the loaded file's table entry is appended; a file missing from the table raises KeyError and requests nothing |
| EpubView.View.RestoreScroll | Read.activity/epubview/epubview.py:448-459 | after a search the scroll position is kept and the search flag cleared; otherwise the view scrolls to the end when going back, or to the loaded page's position, raising KeyError exactly when that page is not in the page map |
| EpubView.View.FollowLink | Read.activity/epubview/epubview.py:462-485 | without a base page for the file None + int raises TypeError and nothing changes; otherwise the page becomes the base page plus whole page heights down to the link; when the link lies within one page of the padded file's bottom (the height read after the padding) the raising `get_next_filename` is called: the last file raises IndexError, and otherwise the next file is named with the search and back flags cleared |
| EpubView.View.PrepareTextToSpeech | Read.activity/epubview/epubview.py:496-518 | the view's word tuples become the word split of the page text |
| EpubViewLegacy.OpenTarget | epubview/epubview.py:457-462 | a URI not ending in 'xml' is opened as it is |
| EpubViewLegacy.LoadedFileNeverMatches | epubview/epubview.py:352-455 | the name kept for a loaded file is its plain path, which never equals the 'file://' URI the page map holds, so the comparison in `_load_page` never finds the file already loaded |
| EpubViewLegacy.LegacyView.constructor | epubview/epubview.py:50-98 | a new view is not ready, has page count -1 and loaded page -1, no loaded file, moves forward, and has emitted and opened nothing |
| EpubViewLegacy.LegacyView.OnPageChanged | epubview/epubview.py:440-446 | the page-changed flag is set, the loaded page and the slider become the page, and 'page-changed' is emitted, even when the page does not change |
| EpubViewLegacy.LegacyView.ScrollPage | epubview/epubview.py:384-391 | the scrollbar is set to (upper - page size) times the loaded page's position fraction |
| EpubViewLegacy.LegacyView.ScrollPageEnd | epubview/epubview.py:379-382 | the scrollbar is set to its upper bound |
| EpubViewLegacy.LegacyView.LoadPage | epubview/epubview.py:448-464 | an out-of-range page changes nothing; otherwise the page becomes the loaded page and is announced before any file is opened; a page whose URI differs from the kept name is opened (an 'xml' file copied to its 'xhtml' twin first), otherwise the view scrolls to the page |
| EpubViewLegacy.LegacyView.SetCurrentPage | epubview/epubview.py:199-206 | returns True exactly when 1 <= n <= page count, and then n is the loaded page; False changes nothing |
| EpubViewLegacy.LegacyView.NextPage | epubview/epubview.py:208-216 | returns False exactly at the last page, changing nothing; otherwise the next page is loaded once the book is paginated |
| EpubViewLegacy.LegacyView.PreviousPage | epubview/epubview.py:218-226 | returns False exactly at page 1, changing nothing; otherwise the previous page is loaded once the book is paginated |
| EpubViewLegacy.LegacyView.NextFileStart | epubview/epubview.py:469-474 | the loop stops at the first later page whose file differs from the current one, or at the last page; every page passed over is in the current file |
| EpubViewLegacy.LegacyView.PrevFileStart | epubview/epubview.py:489-494 | the loop stops at the nearest earlier page whose file differs (the last page of the preceding file), or at page 1; every page passed over is in the current file |
| EpubViewLegacy.LegacyView.LoadNextFile | epubview/epubview.py:466-476 | nothing changes at the last page; otherwise the first page after the current file's pages, or the last page, is loaded and announced |
| EpubViewLegacy.LegacyView.LoadPrevFile | epubview/epubview.py:486-496 | nothing changes at page 1; otherwise the last page of the preceding file, or page 1, is loaded and announced |
| EpubViewLegacy.LegacyView.FindPageEndingWith | epubview/epubview.py:480-482 | the first page among 1..page count - 1 whose URI ends with the path; the last page is never examined |
| EpubViewLegacy.LegacyView.LoadFile | epubview/epubview.py:478-484 | with no page among 1..page count - 1 ending with the path nothing changes; otherwise the first such page is loaded, marked changed, shown on the slider and announced |
| EpubViewLegacy.LegacyView.DoPageTransition | epubview/epubview.py:337-349 | a transition happens exactly when going forward at the bottom of the scroll range or going back at its top, and it moves to a later or earlier file; otherwise nothing changes and False is returned, before pagination too |
| EpubViewLegacy.LegacyView.VScrollbarValueChanged | epubview/epubview.py:407-438 | the page moves forward exactly when the next page is in the same file and the scroll fraction reaches its position, back exactly when the previous page shares the file and the fraction is at most the current page's position; a move is announced |
| EpubViewLegacy.LegacyView.PaginatedCb | epubview/epubview.py:527-536 | the view becomes ready with the paginator's page count, and page 1 is loaded only if no page was loaded yet |
| EpubViewLegacy.LegacyView.LoadFinished | epubview/epubview.py:351-377 | before the first page nothing changes; otherwise the file name is recorded; a file missing from the file table raises KeyError; otherwise the padding for the file's remainder is requested and the view scrolls to the page, to the end when going back, or not at all after a search, whose flag is cleared |
| EpubAdapter.ChunkEnd | Read.activity/epubadapter.py:178-180 | the chunk ends at most 40 words after the current word and never past the word list, unless the current word is already past it |
| EpubAdapter.MarksSplit | Read.activity/epubadapter.py:181-184 | the marks of words a..c are the marks of a..b followed by those of b..c |
| EpubAdapter.ChunksCoverAll | Read.activity/epubadapter.py:173-187 | calling `get_marked_words` until the words run out labels every remaining word exactly once, with consecutive absolute indices, in order |
| EpubAdapter.WithFile | Read.activity/epubadapter.py:107-110 | the current file is in the list afterwards, no other file is added, the old list is a prefix, and a list without duplicates stays without duplicates |
| EpubAdapter.WithFileIdempotent | Read.activity/epubadapter.py:109-110 | highlighting in the same file twice leaves the list as after the first time |
| EpubAdapter.CurrentLink | Read.activity/epubadapter.py:249-252 | the link is the loaded file name without the temporary directory and one separator: empty when the name is no longer than that prefix, otherwise the name's tail, so that directory + '/' + link gives the name back |
| EpubAdapter.EpubViewer.constructor | Read.activity/epubadapter.py:15-29 | a new adapter has no modified files, starts at word 0, and has nothing pending or written |
| EpubAdapter.EpubViewer.GetMarkedWords | Read.activity/epubadapter.py:173-187 | the result is '<speak> ', a mark and the word for each word from the current one up to the chunk end, then '</speak>'; the current word advances to the chunk end |
| EpubAdapter.EpubViewer.ResetTextToSpeech | Read.activity/epubadapter.py:201-202 | the current word goes back to 0 |
| EpubAdapter.EpubViewer.ToggleHighlight | Read.activity/epubadapter.py:105-111 | the current file is added to the modified files only if it is not already there |
| EpubAdapter.EpubViewer.Save | Read.activity/epubadapter.py:130-135 | the book is written, and True returned, exactly when some file was modified |
| EpubAdapter.EpubViewer.GetCurrentPage | Read.activity/epubadapter.py:246-247 | the zero-based page is the view's loaded page minus 1 |
| EpubAdapter.EpubViewer.SetCurrentPage | Read.activity/epubadapter.py:236-244 | when the view is ready, page n + 1 is loaded, so a reachable page then reads back as n; before that the load of n + 1 is left pending and the view is untouched |
| EpubAdapter.EpubViewer.TryLoadPage | Read.activity/epubadapter.py:223-228 | loads the page and returns False once the view is ready; returns True, to be tried again, and changes nothing before that |
| EpubAdapter.EpubViewer.GetCurrentLink | Read.activity/epubadapter.py:249-252 | None (the source's TypeError) exactly when no file is loaded; for a loaded file under the temporary directory, directory + '/' + link is the loaded file name |
| EpubAdapter.EpubViewer.GetLinkIter | Read.activity/epubadapter.py:262-272 | the first top-level row of the links model whose link column equals the link, or None when no top-level row has it |
| ReadDb.SelectContents | readdb.py:199-201 | the query for one book returns exactly the table rows carrying that md5, none more often than the table holds it |
| ReadDb.InsertByPagePerm | readdb.py:199-201 | inserting a row into the page-ordered result adds exactly that row and loses none |
| ReadDb.InsertByPageSorted | readdb.py:199-201 | inserting a row into a page-ordered sequence keeps it ordered by page |
| ReadDb.OrderByPageSorted | readdb.py:199-201 | 'order by page' yields a page-ordered permutation of the selected rows |
| ReadDb.Bookmarks | readdb.py:203-204 | one Bookmark per row, in row order, each built from its row |
| ReadDb.CacheContents | readdb.py:196-205 | the populated cache is ordered by page and holds a bookmark exactly when its row is in the table under the book's md5 |
| ReadDb.OnPageContents | readdb.py:210-216 | the bookmarks of a page are exactly the cached bookmarks whose page_no is that page, each as often as in the cache |
| ReadDb.FirstOnPage | readdb.py:231-233 | the inner scan finds nothing exactly when no cached bookmark is on the page; otherwise it returns a cached bookmark of that page |
| ReadDb.PrevPageFrom | readdb.py:230-233 | the descending scan stops at the highest page in [0, q] holding a bookmark, and finds none when no page there holds one |
| ReadDb.NextPageFrom | readdb.py:244-247 | the ascending scan stops at the lowest page in [q, hi] holding a bookmark, and finds none when no page there holds one |
| ReadDb.PrevBookmarkMeaning | readdb.py:223-235 | on a page-ordered cache: wrapping from at or before the first bookmark gives the last one; otherwise the result is a bookmark of the nearest page in [0, page), and None exactly when there is no such page |
| ReadDb.NextBookmarkMeaning | readdb.py:237-249 | on a page-ordered cache: wrapping from at or after the last bookmark gives the first one; otherwise the result is a bookmark of the nearest later page, and None exactly when no bookmark lies after the page |
| ReadDb.NewRows | readdb.py:121-139 | the rows inserted by one update are at most one per incoming dictionary, each with a note |
| ReadDb.Signals | readdb.py:140-142 | one 'added_bookmark' signal per inserted row |
| ReadDb.NewRowsAreNew | readdb.py:121-139 | a row is inserted exactly for each incoming dictionary that equals no cached bookmark, with local 1 iff both nick and color are this reader's |
| ReadDb.PeerBookmarkInsertedAgain | readdb.py:119-145 | a peer's own bookmark (local 1, another nick) is stored with local 0, so it never compares equal afterwards and the same update inserts it again |
| ReadDb.IntendedNewRows | readdb.py:119-145 | the corrected update inserts at most one row per incoming dictionary |
| ReadDb.IntendedRowsKnown | readdb.py:119-145 | after the corrected update every incoming dictionary of the book is known to the resynced cache |
| ReadDb.IntendedNewRowsHold | readdb.py:121-139 | the corrected update inserts the row of every incoming dictionary not already known |
| ReadDb.IntendedMergeIdempotent | readdb.py:119-145 | applying the same shared bookmarks a second time inserts nothing under the corrected update |
| ReadDb.GroupByPage | readdb.py:290-300 | populating appends each page's rows, in table order, to that page's list, and creates a page exactly when it had a row |
| ReadDb.AddNew | readdb.py:268-270 | the stored list is kept as a prefix of the result |
| ReadDb.AddNewContents | readdb.py:268-270 | a highlight is in the result exactly when it was stored or offered |
| ReadDb.AddNewKnown | readdb.py:268-270 | offering only highlights already stored changes nothing |
| ReadDb.MergePageIntoMeaning | readdb.py:265-270 | merging one shared page creates that page, keeps its stored list as a prefix, ends up holding exactly the stored and offered highlights, and leaves every other page alone |
| ReadDb.RowsOf | readdb.py:276-278 | one highlights row (md5, page, init, end) per highlight, in order |
| ReadDb.MergeCovers | readdb.py:261-270 | after update_highlights every shared page exists and holds every highlight shared for it |
| ReadDb.MergeIdempotent | readdb.py:261-270 | merging the same shared dictionary twice gives the store the first merge gave |
| ReadDb.MergeAgainInsertsNothing | readdb.py:261-279 | merging the same shared dictionary a second time writes no row to the table |
| ReadDb.RemoveFirst | readdb.py:282 | removing a present highlight drops exactly one occurrence of it |
| ReadDb.WithoutContents | readdb.py:283-287 | the delete removes every row equal to the highlight's row and keeps all others |
| ReadDb.BookmarkManager.constructor | readdb.py:97-117 | both caches are filled from the tables: bookmarks as the book's page-ordered rows, highlights grouped by page starting from {0: []} |
| ReadDb.BookmarkManager.PopulateBookmarks | readdb.py:196-205 | the book's rows, in page order, are appended to the cache |
| ReadDb.BookmarkManager.ResyncBookmarkCache | readdb.py:218-221 | afterwards the cache is exactly the table's query result for the book |
| ReadDb.BookmarkManager.GetBookmarksForPage | readdb.py:210-216 | returns the cached bookmarks of the page, in cache order |
| ReadDb.BookmarkManager.FindOnPage | readdb.py:231-233 | returns the first cached bookmark of the page, or None |
| ReadDb.BookmarkManager.GetPrevBookmarkForPage | readdb.py:223-235 | returns the previous bookmark as PrevBookmarkMeaning characterises it |
| ReadDb.BookmarkManager.GetNextBookmarkForPage | readdb.py:237-249 | returns the next bookmark as NextBookmarkMeaning characterises it |
| ReadDb.BookmarkManager.IsKnown | readdb.py:123-127 | true exactly when some cached bookmark compares equal to the dictionary |
| ReadDb.BookmarkManager.InsertUnknown | readdb.py:119-143 | the table grows by exactly the new rows, one signal is emitted per row, and a resync is needed exactly when a row was inserted |
| ReadDb.BookmarkManager.UpdateBookmarks | readdb.py:119-145 | the table grows by the new rows, their signals are emitted, and the cache again equals the table's query result |
| ReadDb.BookmarkManager.GetHighlights | readdb.py:251-256 | returns the page's stored list, storing an empty list for an unseen page; nothing else changes |
| ReadDb.BookmarkManager.AddHighlight | readdb.py:272-279 | appends the highlight to that page's list only and adds its row to the table |
| ReadDb.BookmarkManager.DelHighlight | readdb.py:281-288 | removes the first equal highlight from that page only and deletes the matching rows |
| ReadDb.BookmarkManager.PopulateHighlights | readdb.py:290-300 | each of the book's highlight rows is appended to its page's list, in table order |
| ReadDb.BookmarkManager.MergePage | readdb.py:267-270 | adds to one page the offered highlights not yet stored, and writes one row per highlight added |
| ReadDb.BookmarkManager.MergeShared | readdb.py:262-270 | one more shared page merged: store and table advance by one step of Merge and MergeRows |
| ReadDb.BookmarkManager.UpdateHighlights | readdb.py:261-270 | the store becomes the merge of the shared dictionary and the table grows by the merge's rows |
| ReadBookmark.FromRow | Read.activity/readbookmark.py:23-30 | the bookmark's seven fields are the row's seven columns in order |
| ReadBookmark.NoteField | Read.activity/readbookmark.py:38-50 | an empty or missing note gives ''; otherwise the named field of the decoded note |
| ReadBookmark.AsDict | Read.activity/readbookmark.py:52-59 | the dictionary form carries every column under its key with the column's type |
| ReadBookmark.CompareAsDict | Read.activity/readbookmark.py:52-68 | every bookmark compares equal to its own dictionary form |
| ReadBookmark.CompareIsEquality | Read.activity/readbookmark.py:61-68 | for a well-typed dictionary, comparing equal holds exactly when the dictionary is the bookmark's dictionary form |
| ReadBookmark.DictRoundTrip | Read.activity/readbookmark.py:52-59 | reading back a bookmark's dictionary form gives the same bookmark |
| LegacyBookmark.FromRow | readbookmark.py:2-9 | the bookmark's seven fields (with a title in place of a note) are the row's seven columns in order |
| LegacyBookmark.OnePage | readbookmark.py:11-12 | a bookmark belongs to a page exactly when it is its row's page, so to exactly one page |
| LegacyBookmark.LocalFromRow | readbookmark.py:14-15 | a bookmark is local exactly when its row's local column is non-zero |
| TextAdapter.LineEndExists | textadapter.py:55 | from any offset inside the file a line ends somewhere: after the next newline or at the end of the file |
| TextAdapter.LineEndUnique | textadapter.py:55 | that line end is unique |
| TextAdapter.LineEnd | textadapter.py:55 | the end of the line read from an offset lies within the file, at the line end |
| TextAdapter.ReadLine | textadapter.py:55-57 | readline returns the text up to and including the next newline, and '' exactly at the end of the file |
| TextAdapter.ReadLineAt | textadapter.py:55 | the scanning reader returns exactly that line |
| TextAdapter.Weight | textadapter.py:58 | a line weighs len / 80 + 1 (floor division), so at least 1 |
| TextAdapter.BreaksStep | textadapter.py:54-64 | a line that brings the count to PAGE_SIZE (38) records the offset after it and restarts the count; any other line only adds its weight |
| TextAdapter.BreaksShape | textadapter.py:54-64 | the recorded page starts lie after the starting offset, within the file, each just after a newline or at the end, in increasing order |
| TextAdapter.PageIndexShape | textadapter.py:51-65 | page_index starts with 0 and then holds increasing line-end offsets |
| TextAdapter.BreaksSuffix | textadapter.py:54-64 | the page starts after any recorded start are what the index computation gives from that start with a fresh count |
| TextAdapter.ReadPage | textadapter.py:71-80 | showing a page reads from its start to an offset within the file |
| TextAdapter.ReadPageStopsAtBreak | textadapter.py:71-80 | reading from a page start with the same count stops exactly where indexing recorded the next start, or at the end of the file |
| TextAdapter.PageEnd | textadapter.py:51-65 | a page ends where the next page starts; the last page ends at the end of the file |
| TextAdapter.PageNumber | textadapter.py:69 | a Python index into page_index, negative ones counted from the end, names a page within range |
| TextAdapter.ReadsOnePage | textadapter.py:68-83 | loading and showing agree: showing page p reads exactly to the start of page p + 1, the last page to the end of the file |
| TextAdapter.PagesArePrefix | textadapter.py:51-65 | the first n pages, read one after another, are the prefix of the file up to the end of page n - 1 |
| TextAdapter.PagesCoverText | textadapter.py:51-65 | all pages together are the whole file, each character on exactly one page |
| TextAdapter.ReadPageStep | textadapter.py:73-80 | below PAGE_SIZE, reading one more line moves to its end and adds its weight |
| TextAdapter.ReadPageText | textadapter.py:68-80 | the reading loop collects exactly the text from the page start to where the page read stops |
| TextAdapter.Stepped | textadapter.py:103-118 | a scroll that stays on the page moves the value one step toward the top or bottom, stopping at the edge, and stays in range |
| TextAdapter.TextViewer.constructor | textadapter.py:41-46 | zoom 100, font-zoom relation 100 // font size, page 0, nothing loaded |
| TextAdapter.TextViewer.LoadDocument | textadapter.py:48-66 | the page index is that of the text, the page count one more than the recorded breaks, page 0 shown between the padding, and one change (old page, 0) emitted |
| TextAdapter.TextViewer.ShowPage | textadapter.py:68-83 | an index page_index does not hold raises IndexError and leaves the buffer alone; otherwise the buffer holds the page's text between three newlines on each side |
| TextAdapter.TextViewer.SetCurrentPage | textadapter.py:91-95 | the current page is set even when showing it raises; a successful show emits (old page, page) |
| TextAdapter.TextViewer.PreviousPage | textadapter.py:120-123 | the view scrolls to the bottom and the page before is shown, as SetCurrentPage states |
| TextAdapter.TextViewer.NextPage | textadapter.py:125-128 | the view scrolls to the top and the page after is shown, as SetCurrentPage states |
| TextAdapter.TextViewer.Scroll | textadapter.py:97-118 | inside the page the value steps within range and the page stays; at the top going back the previous page is shown from the bottom, at the bottom going forward the next page from the top, in both cases the shown text is that page's framed text and the change is announced; a raise leaves the text and the announcements unchanged |
| TextAdapter.TextViewer.GetZoom | textadapter.py:169-170 | the zoom is the relation times the font size |
| TextAdapter.TextViewer.SetZoom | textadapter.py:177-181 | the zoom is stored as the float given and the font size becomes the zoom over the relation, truncated toward zero: for a non-negative value the reported zoom lies within one relation below it, for a negative value within one relation above it |
| TextAdapter.ZoomOfTruncatedSize | textadapter.py:179 | `int(value / relation)` gives a size whose zoom is within one relation of the value, on the side toward zero |
| TextAdapter.TextViewer.SetFontSize | textadapter.py:189-194 | the font size is set, the zoom recomputed from it and emitted |
| TextAdapter.TextViewer.ZoomIn | textadapter.py:183-184 | one point larger, its zoom emitted, and zooming out is then possible from any positive size |
| TextAdapter.TextViewer.ZoomOut | textadapter.py:186-187 | one point smaller, its zoom emitted; when zooming out was allowed the size stays positive |
| ImageView.RotateSurface | Read.activity/imageview.py:52-70 | a quarter turn swaps the surface's width and height and turns its orientation by one quarter in the given direction |
| ImageView.FlipSurface | Read.activity/imageview.py:73-86 | a half turn keeps the dimensions and turns the orientation by two quarters |
| ImageView.RotationRoundTrip | Read.activity/imageview.py:465-487 | a clockwise and an anticlockwise quarter turn, in either order, give back the surface and the anchor point |
| ImageView.ClockwiseTurns | Read.activity/imageview.py:465-487 | one, two and three clockwise quarter turns place the surface and anchor as written out, and four give back the start |
| ImageView.AnticlockwiseTurns | Read.activity/imageview.py:465-487 | one, two and three anticlockwise quarter turns place the surface and anchor as written out, and four give back the start |
| ImageView.FourTurns | Read.activity/imageview.py:465-487 | four quarter turns either way are the identity |
| ImageView.WrittenSurfaceTurns | Read.activity/imageview.py:440-448 | for counter values -3..3 the surface set_rotate builds is the surface of that many quarter turns |
| ImageView.WrittenSurfaceOrientation | Read.activity/imageview.py:440-448 | the new surface's orientation is the old one plus the counter, modulo 4 |
| ImageView.FixedSteps | Read.activity/imageview.py:450-460 | one to three steps of each of set_rotate's anchor loops, written out |
| ImageView.WrittenAnchorAgrees | Read.activity/imageview.py:440-487 | for a single quarter turn, or on a square surface, set_rotate places the anchor where the turns do |
| ImageView.SetRotateMisplacesAnchor | Read.activity/imageview.py:440-463 | on a 100 by 200 surface with anchor (10, 20) and counter 2, set_rotate puts the anchor at (90, 80) where the half turn puts it at (90, 180) |
| ImageView.ClampZoom | Read.activity/imageview.py:423-438 | the applied zoom lies in [ZOOM_MIN, ZOOM_MAX], is the pinch zoom itself when in range and the nearer bound otherwise |
| ImageView.ImageViewer.constructor | Read.activity/imageview.py:110-131 | no data, surface, zoom, target or anchor; zoomtouch scale 1 |
| ImageView.ImageViewer.SetData | Read.activity/imageview.py:133-136 | the data is stored and marked changed |
| ImageView.ImageViewer.DecodeSurface | Read.activity/imageview.py:493-498 | a missing or stale surface is decoded from present data, clearing the change mark and emitting 'setup-new-surface'; with no data drawing stops; otherwise nothing changes |
| ImageView.ImageViewer.DrawDefaults | Read.activity/imageview.py:500-511 | a first draw zooms to the width and puts the target at the canvas centre and the anchor at the surface centre; a missing target or anchor alone is centred; existing zoom, target and anchor are kept |
| ImageView.ImageViewer.CenterTargetPoint | Read.activity/imageview.py:263-265 | the target is the centre of the allocation, in floor-divided pixels |
| ImageView.ImageViewer.CenterAnchorPoint | Read.activity/imageview.py:267-269 | the anchor is the centre of the surface, in floor-divided pixels |
| ImageView.ImageViewer.CenterIfSmall | Read.activity/imageview.py:271-283 | without a surface AttributeError is raised and both points are kept; when the zoomed image fits the allocation both points are centred; otherwise both are kept |
| ImageView.ImageViewer.SetZoom | Read.activity/imageview.py:285-289 | a zoom in range is taken, any other leaves the zoom unchanged |
| ImageView.ImageViewer.ZoomIn | Read.activity/imageview.py:302-307 | when allowed the zoom grows by ZOOM_STEP and stays below ZOOM_MAX, otherwise nothing changes; a zoom in range stays in range |
| ImageView.ImageViewer.ZoomOut | Read.activity/imageview.py:309-316 | when allowed the zoom shrinks by ZOOM_MIN and stays above it; then without a surface AttributeError is raised with the points kept, an image that fits gets the target at the canvas centre and the anchor at the surface centre, and otherwise both points stay; when not allowed nothing changes and nothing is raised, with or without a surface; a zoom in range stays in range |
| ImageView.ImageViewer.ZoomOriginal | Read.activity/imageview.py:345-349 | the zoom becomes 1; then without a surface AttributeError is raised with the points kept; an image that fits gets the target at the canvas centre and the anchor at the surface centre, otherwise both points stay |
| ImageView.ImageViewer.ZoomToWidth | Read.activity/imageview.py:335-343 | the zoomed width equals the allocation's width, and both points are centred |
| ImageView.ImageViewer.ZoomToFit | Read.activity/imageview.py:318-333 | the zoomed image fits the allocation in both dimensions and fills it in one, and both points are centred |
| ImageView.ImageViewer.UpdateZoomtouch | Read.activity/imageview.py:414-421 | the pinch scale is recorded and the target follows the pinch centre relative to the allocation |
| ImageView.ImageViewer.FinishZoomtouch | Read.activity/imageview.py:423-438 | the pinch ends with scale 1 and the zoom times the pinch scale, clamped into range; then without a surface AttributeError is raised with the points kept; an image that fits gets both points centred, otherwise both stay |
| ImageView.ImageViewer.RotateAnticlockwise | Read.activity/imageview.py:465-475 | with a surface and an anchor both turn anticlockwise; with no surface a TypeError is raised (from `cairo.Context(None)`) and nothing changes; with no anchor the surface turns and a TypeError is raised |
| ImageView.ImageViewer.RotateClockwise | Read.activity/imageview.py:477-487 | with a surface and an anchor both turn clockwise; with no surface a TypeError is raised (from `cairo.Context(None)`) and nothing changes; with no anchor the surface turns and a TypeError is raised |
| ImageView.ImageViewer.TurnSurface | Read.activity/imageview.py:440-448 | the surface set_rotate builds for a non-zero counter, or TypeError from `cairo.Context(None)` without a surface |
| ImageView.ImageViewer.SetRotate | Read.activity/imageview.py:440-463 | as written: the surface turns by the counter, and the anchor is moved by steps that all use the new surface's dimensions |
| ImageView.ImageViewer.SetRotateCorrected | Read.activity/imageview.py:440-463 | the surface and the anchor together end up where that many quarter turns place them |
| ComicAdapter.NameLeTotal | comicadapter.py:64 | Python's string order compares any two names |
| ComicAdapter.NameLeReflexive | comicadapter.py:64 | every name is ordered with itself |
| ComicAdapter.NameLeTransitive | comicadapter.py:64 | the string order is transitive |
| ComicAdapter.NameLeAntisymmetric | comicadapter.py:64 | two names ordered both ways are equal |
| ComicAdapter.Insert | comicadapter.py:64 | inserting a name adds exactly that name |
| ComicAdapter.InsertSorted | comicadapter.py:64 | inserting into a sorted list keeps it sorted |
| ComicAdapter.SortNames | comicadapter.py:63-64 | sorting the name list permutes it |
| ComicAdapter.SortNamesSorted | comicadapter.py:63-64 | the sorted name list is in Python's string order |
| ComicAdapter.SortedPermutationUnique | comicadapter.py:64 | two sorted permutations of the same names are equal, so the sort's result is determined |
| ComicAdapter.Images | comicadapter.py:65 | the filter keeps at most the names it is given |
| ComicAdapter.ImagesCount | comicadapter.py:65 | each name ending in one of the seven image endings is kept as often as it occurs; every other name is dropped |
| ComicAdapter.ImagesMembers | comicadapter.py:65 | a name is kept exactly when it is in the archive and ends in an image ending |
| ComicAdapter.ImagesSorted | comicadapter.py:65 | filtering a sorted list keeps it sorted |
| ComicAdapter.ArchivePagesSpec | comicadapter.py:63-65 | the pages are the archive's image members, each as often as it occurs, in sorted order |
| ComicAdapter.ArchivePagesUnique | comicadapter.py:63-65 | any sorted list holding exactly the archive's image members is the page list |
| ComicAdapter.Jump | comicadapter.py:191-195 | the corrected START and END scrolls always name a page |
| ComicAdapter.WrittenJumpMisses | comicadapter.py:191-195 | as written, START shows the second image (IndexError for a one-image archive) and END raises AttributeError |
| ComicAdapter.JumpReachesEnds | comicadapter.py:191-195 | the corrected START shows the first image and END the last |
| ComicAdapter.ScrollStep | comicadapter.py:199-211 | a step scroll moves the value by the step in its direction, clamped into the adjustment's range, which is kept |
| ComicAdapter.ComicViewer.constructor | comicadapter.py:38-55 | no archive, no images, page 0, no rotation, the image view at zoom 1 |
| ComicAdapter.ComicViewer.GetPagecount | comicadapter.py:132-133 | the page count is the number of images |
| ComicAdapter.ComicViewer.SetCurrentPage | comicadapter.py:86-97 | with no images nothing happens; otherwise the page is set, and either the image's data is shown and (old, new) emitted or IndexError is raised |
| ComicAdapter.ComicViewer.LoadDocument | comicadapter.py:57-74 | an unreadable archive with none loaded before raises; otherwise the pages are the archive's sorted images, and either the first is shown or an alert is raised |
| ComicAdapter.ComicViewer.ShowFirstPage | comicadapter.py:67-74 | with no images one alert is added; otherwise page 0 is shown and its change emitted |
| ComicAdapter.ComicViewer.ReadImages | comicadapter.py:58-65 | an unreadable archive keeps the previous one, and raises when there was none; the pages are the sorted image members of the archive in use |
| ComicAdapter.ComicViewer.NextPage | comicadapter.py:109-111 | moves one page forward only when one exists, giving the view that page's image and emitting the change; otherwise nothing changes; stays in range and keeps the viewer valid |
| ComicAdapter.ComicViewer.PreviousPage | comicadapter.py:113-115 | moves one page back only when the index is above 0, giving the view that page's image and emitting the change; otherwise nothing changes; stays in range and keeps the viewer valid |
| ComicAdapter.ComicViewer.RotateLeft | comicadapter.py:120-124 | the view turns anticlockwise with its anchor, and the counter goes down by one, -4 wrapping to 0 |
| ComicAdapter.ComicViewer.RotateRight | comicadapter.py:126-130 | the view turns clockwise with its anchor, and the counter goes up by one, 4 wrapping to 0 |
| ComicAdapter.ComicViewer.NewSurfaceCb | comicadapter.py:99-107 | a new surface is turned by the stored counter with `set_rotate` as written, its anchor placed by that method's steps, and both scroll positions reset to 0 |
| ComicAdapter.ComicViewer.Draw | Read.activity/imageview.py:489-512 | with a surface wanted and no data nothing changes; new data becomes a surface of the given size turned by the counter, with both scrollbars at 0; a missing zoom becomes the fit-to-width zoom with both points centred, and a missing target goes to the canvas centre; under an existing zoom the anchor is the one set_rotate turned when a new surface was turned by a non-zero counter, and otherwise a missing anchor is centred on the surface and an existing one kept; the counter and the surface stay in step |
| ComicAdapter.ComicViewer.Scroll | comicadapter.py:183-197 | as written: page scrolls turn the page as NextPage and PreviousPage do, giving the view the new image and emitting the change; step scrolls move one adjustment; START goes to index 1 (IndexError with one image) and END raises; the viewer stays valid |
| ComicAdapter.ComicViewer.ScrollCorrected | comicadapter.py:183-197 | START shows the first image and END the last, emitting the change; the other scroll types as written; from an index in range it never raises and stays in range; the viewer stays valid |
| ComicAdapter.ComicViewer.ScrollStepBy | comicadapter.py:199-211 | only the chosen adjustment moves, by one step in the chosen direction, clamped |
| Adjustments.Adjustment.SetValue | Read.activity/epubview/epubview.py:520-532 | setting a value clamps it into [lower, upper - page_size] and keeps the range |
| Adjustments.ScrollFraction | Read.activity/epubview/epubview.py:571-574 | the scroll fraction lies in [0, 1], is 0 exactly at the top, and times the scrollable height gives back the value |
| Adjustments.ScrollFractionRoundTrip | Read.activity/epubview/epubview.py:571-574 | scrolling to a fraction of the scrollable height reads back that same fraction |

## Left out

- Rendering and height measurement: the hidden WebKit window, the JavaScript height probe and element positions are inputs (`OnFileMeasured(h)`, `pageHeight`, `linkPosition`).
- `Read.activity/epubview/jobs.py` is not part of this model. The modern view's paginator is the one modelled from `epubview/jobs.py`.
- Text search: `SearchThread`, BeautifulSoup matching and the view's search highlighting. The list of matching files is given to `FindCursor`.
- Widgets, drawing and signals: GTK widget setup, cairo painting, `update_adjustments`, drag and scroll handlers of the image view, and key-press handlers. Emitted signals are append-only logs, and scrollbars are `Adjustment` values.
- `ImageView.ImageViewer.SetData`: pixbuf and cairo decoding are left out. A surface's dimensions are parameters, and the comic view passes member names as the image data.
- The image view's `start_zoomtouch`, `start_dragtouch`, `update_dragtouch`, `finish_dragtouch` and `_move_anchor_to_target` depend on scroll-adjustment geometry and are not modelled.
- `ComicAdapter.ComicViewer`: the zoom methods only delegate to the image view, whose zoom is modelled; `load_metadata`/`update_metadata` and the alert's text are left out.
- `ReadDb.OrderByPage`: SQLite's `order by page` (`readdb.py:200`, `readdb.py:292`) leaves the order of rows on the same page unspecified. The model keeps them in table order (a stable insertion sort). `FirstOnPage` and the previous and next bookmark lookups then pick the first of those rows in table order.
- SQLite: schema setup and migration (`readdb.py:35-87`), `add_bookmark`, `del_bookmark` and the preview table (`readdb.py:147-194`) are not modelled. The tables are row sequences and the SQL is the functions `Select`, `OrderByPage` and `HighlightQuery`.
- JSON: decoding a bookmark's note is a parameter (`NoteField`'s `field`). The 'added_bookmark' signal carries the note text rather than its decoded title.
- Zip and XML: archives are lists of member names. container.xml, the OPF manifest and the NCX tree are given as parsed records. File contents are strings. Directory creation and file writes are logs.
- Text-to-speech output, the WebKit highlight JavaScript (`Read.activity/epubadapter.py:76-165`), networking, collaboration and toolbars.
- Floating point: every fraction, zoom, scale and scroll value is an exact real, so IEEE rounding is not modelled.
- `NavMaps.NavMap.ProcessNavpoint` reads each navPoint's content `src`. The lookup at `epubview/navmap.py:40` ends its path in '/', which ElementTree paths read as "every child". A `<content>` element has no children, so the code as written gets None and `None.get('src')` raises AttributeError. The model reads the element's own `src`, as evidently intended, and does not model that raise.
- The text viewer's file cursor and ISO-8859-1 decoding: the file is a string, `tell()` is an offset into it, and a line's length is its number of characters.
- Error paths the source does not handle are preconditions where the exception is not itself the behaviour of interest. Each is listed below.
- `Pagination.Paginator.constructor` requires a non-empty file list: the source opens `filelist[0]` (`epubview/jobs.py:144`) and raises IndexError on an empty book.
- `Pagination.Paginator.GetFileForPageno`, `GetScrollfactorPosForPageno`, `GetScrollfactorLenForPageno`, `GetPagecountForFile` and `GetRemfactorForFile` require the key to be present; the source raises KeyError otherwise.
- `EpubContainer.Epub.GetOpf` requires a package rootfile or an earlier OPF path: without one the source reads an unset attribute. `EpubContainer.Epub.GetNcx` requires the base path, which `_get_opf` always sets first.
- `EpubAdapter.EpubViewer.ToggleHighlight` requires the loaded page to be in the page map: the source's lookup raises KeyError otherwise.
- `EpubViewLegacy.LegacyView.NextFileStart` and `PrevFileStart` require a page other than the last and the first, as their callers check. `EpubViewLegacy.LegacyView.LoadPrevFile` requires a ready view: before pagination the source looks up page -1 and raises KeyError.
- `EpubViewLegacy.LegacyView.DoPageTransition` requires a ready view only when going back with the scrollbar at its lower bound, which is where it calls `LoadPrevFile`. Everywhere else it returns normally before pagination too.
- `ReadDb.BookmarkManager.DelHighlight` requires the page and the highlight to be stored: the source raises KeyError or ValueError otherwise.
- `ReadDb.BookmarkManager.UpdateHighlights` requires page keys of decimal digits. The source's `int()` also accepts signs and surrounding blanks, and raises ValueError on any other key.
- `ReadDb.BookmarkManager.UpdateBookmarks` requires shared dictionaries whose values have the column types and whose note is a string. `IsKnown` requires the same typing. A missing note would make the source's `json.loads` raise TypeError.
- `TextAdapter.TextViewer.constructor` requires a positive font size, which is `style.zoom(10)` in the source.
- `TextAdapter.TextViewer.SetZoom` requires a positive font-zoom relation. Once the font grows past 100 points the relation is 0 and the source divides by zero.
- `ImageView.ImageViewer.DrawDefaults` and `ZoomToWidth` require a surface of non-zero width, and `ZoomToFit` one of positive dimensions: the source divides by them.
- `ImageView.ImageViewer.ZoomIn`, `ZoomOut`, `FinishZoomtouch` and `CenterIfSmall`, and the predicates `CanZoomIn` and `CanZoomOut`, require a zoom. Before the first draw it is None, and the source raises TypeError. The comic viewer sets zoom 1 at setup, so it never meets this case.
- `ImageView.ImageViewer.CenterAnchorPoint` and `Small` require a surface. Their callers (`CenterIfSmall`, `ZoomToWidth`, `ZoomToFit`, `DrawDefaults`) have one, or model the AttributeError first.
- `ComicAdapter.ComicViewer.Draw` requires positive width and height for the image it decodes. Decoding is a parameter here, and a decoded image is never empty.
- `EpubView.View.LoadFile`: when the matched file has no base page yet, the source stores None as the loaded page before `_scroll_page` raises KeyError. The model keeps the old page number.
- `EpubView.View.ScrollPage` and `ShowPage` require the loaded page to be in the page map. Their callers (`RestoreScroll`, `OpenAtBasePage`) model the KeyError before calling them.
- `EpubView.View.ApplyLoadedFile` requires a loaded page of at least 1. It is the part of the load-finished handler after that guard, and `LoadFinished` models the guard.
- `EpubContainer.Epub.Unzip`: an entry ending in '\\' is made as a directory and then extracted as a file. On POSIX the source's `extract` then fails with IOError, which ends the unpacking; the model records the extraction and goes on. A name starting with two separators loses only the first one, and its target stays absolute, as in the source.
- `EpubContainer.WrittenArchive`: `ZipFile.write` normalises each archive name with `os.path.normpath`. The model drops only the leading './' (`StoredName`). That is the whole change normpath makes to a path built by joining directory-listing names onto '.'.

## Findings

| source | as written | input that shows it | evidently intended | confidence | as-written member | corrected member |
|---|---|---|---|---|---|---|
| epubview/jobs.py:152-158 | `get_next_filename` tests `n < len(filelist)`, which always holds, then reads `filelist[n + 1]` | the last file of any book, e.g. file list ['a'] and 'a' | None after the last file | not executed | Pagination.NextFilenameOfLastFileRaises | Pagination.NextFilenameSpec |
| epubview/epub.py:66-73 | `_unzip` strips the leading '/' from the name and then extracts the stripped name | an archive whose member is '/a.html': 'a.html' is not a member, so KeyError | extract the member '/a.html' to 'a.html' | not executed | EpubContainer.LeadingSeparatorEntryIsNotAMember | EpubContainer.Epub.Unzip |
| epubview/epubview.py:448-464 | `_load_page` compares the page's 'file://' URI with the loaded name, which load-finished stores without 'file://' | any page of the file already loaded: 'file:///b/a.html' is compared with '/b/a.html' | scroll within the loaded file instead of reopening it | not executed | EpubViewLegacy.LoadedFileNeverMatches | EpubView.View.LoadPage |
| readdb.py:119-145 | `update_bookmarks` stores a peer's own bookmark with local 0, so it never compares equal to the dictionary it came from | a shared bookmark with local 1 and another reader's nick, received twice | the second update inserts nothing | not executed | ReadDb.PeerBookmarkInsertedAgain | ReadDb.IntendedMergeIdempotent |
| Read.activity/imageview.py:440-463 | `set_rotate` moves the anchor in steps that all use the rotated surface's width or height | a 100 by 200 surface, anchor (10, 20), counter 2: anchor (90, 80) | the half turn's anchor (90, 180) | not executed | ImageView.SetRotateMisplacesAnchor | ImageView.ImageViewer.SetRotateCorrected |
| comicadapter.py:192-193 | START calls `set_current_page(1)` | any archive: START shows the second image, and IndexError with one image | the first image, index 0 | not executed | ComicAdapter.WrittenJumpMisses | ComicAdapter.JumpReachesEnds |
| comicadapter.py:194-195 | END calls `self._document.get_n_pages()`, an attribute the comic viewer does not have | any END scroll: AttributeError | the last image | not executed | ComicAdapter.ComicViewer.Scroll | ComicAdapter.ComicViewer.ScrollCorrected |
