/**
 * The main window's bookkeeping of its document pages: which page is
 * current, which pages take MIDI controller input, how a page's view is
 * split, the messages the virtual MIDI devices queue, the lookup of a page
 * by file name, and the recent-files list.
 */
module MainWindow {
  import opened Text
  import opened Geometry
  import Midi

  // ---- Split view ----

  /** The section actions of the split view, in the order of their view-mode
      bits 2, 4, 8, 16, 32, 64 and 128. */
  datatype Sections = Sections(orchestra: bool, score: bool, options: bool, fileB: bool,
                               other: bool, otherCsd: bool, widgetEditor: bool)

  const NoSections := Sections(false, false, false, false, false, false, false)

  function SectionBits(s: Sections): bv8 {
    (if s.orchestra then 2 else 0) | (if s.score then 4 else 0) | (if s.options then 8 else 0)
    | (if s.fileB then 16 else 0) | (if s.other then 32 else 0) | (if s.otherCsd then 64 else 0)
    | (if s.widgetEditor then 128 else 0)
  }

  /** `splitView`: the view mode of the current page; 0 is the unsplit view,
      and a split with no section checked shows orchestra and score. */
  function SplitMode(split: bool, s: Sections): (mode: int)
    ensures 0 <= mode < 256
    ensures mode == 0 <==> !split
  {
    if !split then 0
    else if SectionBits(s) == 0 then 6
    else SectionBits(s) as int
  }

  /** The sections a view mode shows. */
  function ShownSections(mode: int): Sections
    requires 0 <= mode < 256
  {
    ShownBits(mode as bv8)
  }

  function ShownBits(b: bv8): Sections {
    Sections(b & 2 != 0, b & 4 != 0, b & 8 != 0, b & 16 != 0, b & 32 != 0, b & 64 != 0, b & 128 != 0)
  }

  lemma SectionBitsRoundTrip(s: Sections)
    ensures ShownBits(SectionBits(s)) == s
    ensures SectionBits(s) == 0 <==> s == NoSections
  {
  }

  lemma ByteAsInt(b: bv8)
    ensures (b as int) as bv8 == b
  {
  }

  /** A split shows exactly the checked sections, or orchestra and score
      when none is checked. */
  lemma SplitShowsChecked(s: Sections)
    ensures ShownSections(SplitMode(true, s))
            == if s == NoSections then NoSections.(orchestra := true, score := true) else s
  {
    SectionBitsRoundTrip(s);
    ByteAsInt(SectionBits(s));
    ByteAsInt(6);
  }

  // ---- Pages ----

  /** A document page as the main window sees it. */
  datatype Page = Page(fileName: string, acceptsMidiCC: bool, viewMode: int,
                       outerGeometry: Rect, midiQueue: seq<seq<Midi.byte>>)

  /** The pages after `changePage` sets their MIDI controller flags. */
  function WithMidiCc(pages: seq<Page>, cur: int, currentOnly: bool): (r: seq<Page>)
    ensures |r| == |pages|
  {
    seq(|pages|, j requires 0 <= j < |pages| => pages[j].(acceptsMidiCC := !currentOnly || j == cur))
  }

  /**
   * The pages after `changePage` tears down the page at `cur` when widget
   * layouts are independent: that page's remembered rectangle becomes the
   * null rectangle, and nothing else changes.
   */
  function TornDown(pages: seq<Page>, cur: int, independent: bool): (r: seq<Page>)
    ensures |r| == |pages|
    ensures forall j :: 0 <= j < |r| ==> r[j].(outerGeometry := pages[j].outerGeometry) == pages[j]
    ensures forall j :: 0 <= j < |r| ==> r[j].outerGeometry == if independent && j == cur then NullRect
                                                                else pages[j].outerGeometry
  {
    if independent && 0 <= cur < |pages| then pages[cur := pages[cur].(outerGeometry := NullRect)] else pages
  }

  function Accepting(pages: seq<Page>): set<int> {
    set j | 0 <= j < |pages| && pages[j].acceptsMidiCC
  }

  /** Either every page takes controller input or exactly the current one
      does; nothing else about a page changes. */
  lemma MidiCcAcceptance(pages: seq<Page>, cur: int, currentOnly: bool)
    ensures var r := WithMidiCc(pages, cur, currentOnly);
            && (!currentOnly ==> forall j :: 0 <= j < |r| ==> j in Accepting(r))
            && (currentOnly && 0 <= cur < |pages| ==> Accepting(r) == {cur})
            && (currentOnly && !(0 <= cur < |pages|) ==> Accepting(r) == {})
            && forall j :: 0 <= j < |r| ==> r[j].(acceptsMidiCC := pages[j].acceptsMidiCC) == pages[j]
  {
    var r := WithMidiCc(pages, cur, currentOnly);
    if currentOnly && 0 <= cur < |pages| {
      assert r[cur].acceptsMidiCC;
      assert cur in Accepting(r);
    }
  }

  /** `std::swap` of two pages. */
  function Swap(s: seq<Page>, i: int, j: int): (r: seq<Page>)
    requires 0 <= i < |s| && 0 <= j < |s|
    ensures |r| == |s| && r[i] == s[j] && r[j] == s[i]
    ensures forall k :: 0 <= k < |s| && k != i && k != j ==> r[k] == s[k]
  {
    s[i := s[j]][j := s[i]]
  }

  /** Moving a tab keeps the same pages. */
  lemma SwapPermutes(s: seq<Page>, i: int, j: int)
    requires 0 <= i < |s| && 0 <= j < |s|
    ensures multiset(Swap(s, i, j)) == multiset(s)
  {
    var t := s[i := s[j]];
    var a, b := s[i], s[j];
    assert multiset(t) == multiset(s) - multiset{a} + multiset{b};
    assert t[j] == b;
    assert multiset(t[j := a]) == multiset(t) - multiset{b} + multiset{a};
  }

  /** Moving a tab back restores the order. */
  lemma SwapTwice(s: seq<Page>, i: int, j: int)
    requires 0 <= i < |s| && 0 <= j < |s|
    ensures Swap(Swap(s, i, j), i, j) == s
  {
  }

  /** `QVector::remove(k)`. */
  function RemoveAt(s: seq<Page>, k: int): (r: seq<Page>)
    requires 0 <= k < |s|
    ensures |r| == |s| - 1
    ensures forall j :: 0 <= j < k ==> r[j] == s[j]
    ensures forall j :: k <= j < |r| ==> r[j] == s[j + 1]
  {
    s[..k] + s[k + 1..]
  }

  /** `QVector::insert(k, p)`. */
  function InsertAt(s: seq<Page>, k: int, p: Page): (r: seq<Page>)
    requires 0 <= k <= |s|
    ensures |r| == |s| + 1 && r[k] == p
    ensures forall j :: 0 <= j < k ==> r[j] == s[j]
    ensures forall j :: k < j < |r| ==> r[j] == s[j - 1]
  {
    s[..k] + [p] + s[k..]
  }

  /** The current page after `deleteTab`: kept if still valid, otherwise the
      last page, and 0 when no page is left. */
  function ClampPage(cur: int, size: nat): (c: int)
    ensures 0 <= c && (size > 0 ==> c < size) && (size == 0 ==> c == 0)
    ensures 0 <= cur < size ==> c == cur
    ensures cur >= size > 0 ==> c == size - 1
  {
    var c := if cur >= size then size - 1 else cur;
    if c < 0 then 0 else c
  }

  /**
   * The index `QTabWidget::removeTab(k)` signals as its new current tab, when
   * `cur` was current and `size` tabs are left, or -1 when there is none to
   * change to. Removing a tab before the current one shifts the current one
   * down; removing the current tab selects the one to its right, or the new
   * last tab; removing a later tab signals nothing.
   */
  function TabSignal(cur: int, k: int, size: nat): (t: int)
    ensures k < cur ==> t == cur - 1
    ensures k == cur ==> t == (if size == 0 then -1 else if k < size then k else size - 1)
    ensures k > cur ==> t == -1
  {
    if k < cur then cur - 1
    else if k == cur then (if size == 0 then -1 else if k < size then k else size - 1)
    else -1
  }

  /** Closing any tab but the current one keeps the same document current;
      closing the current tab makes its right neighbour current, or its left
      one when it was the last tab. */
  lemma DeleteKeepsCurrent(pages: seq<Page>, cur: int, k: int)
    requires 0 <= k < |pages| && 0 <= cur < |pages|
    ensures var rest := RemoveAt(pages, k);
            var t := TabSignal(cur, k, |rest|);
            var c := ClampPage(if t < 0 then cur else t, |rest|);
            && (k != cur ==> rest[c] == pages[cur])
            && (k == cur && k + 1 < |pages| ==> rest[c] == pages[k + 1])
            && (k == cur && k + 1 == |pages| && k > 0 ==> rest[c] == pages[k - 1])
  {
  }

  /** The position of the last `/` in `s`, or -1. */
  function LastSlash(s: string): (r: int)
    ensures -1 <= r < |s|
    ensures r >= 0 ==> s[r] == '/'
    ensures forall k :: r < k < |s| ==> s[k] != '/'
  {
    if s == [] then -1
    else if s[|s| - 1] == '/' then |s| - 1
    else LastSlash(s[..|s| - 1])
  }

  /** `fileName.mid(fileName.lastIndexOf("/") + 1)`: the name without its directory. */
  function BaseName(f: string): (r: string)
    ensures '/' !in r && EndsWith(f, r)
    ensures |r| < |f| ==> f[|f| - |r| - 1] == '/'
    ensures '/' !in f ==> r == f
  {
    var k := LastSlash(f);
    assert Mid(f, k + 1) == f[k + 1..];
    Mid(f, k + 1)
  }

  /** `getDocument` accepts a page whose full name or base name is `name`. */
  predicate NameMatches(fileName: string, name: string) {
    name == fileName || name == BaseName(fileName)
  }

  // ---- Recent files ----

  predicate Distinct(s: seq<string>) {
    forall i, j :: 0 <= i < j < |s| ==> s[i] != s[j]
  }

  /** Prepend `name`, dropping the last entry if the list grows past `max`. */
  function Push(recent: seq<string>, name: string, max: nat): seq<string>
  {
    var p := [name] + recent;
    if |p| > max then p[..|p| - 1] else p
  }

  lemma PushFacts(recent: seq<string>, name: string, max: nat)
    ensures var r := Push(recent, name, max);
            && |recent| <= |r| <= |recent| + 1
            && (max > 0 ==> r[0] == name)
            && (|recent| <= max ==> |r| <= max)
            && (|r| > 0 ==> r[1..] <= recent)
            && (name !in recent && Distinct(recent) ==> Distinct(r))
  {
    var r := Push(recent, name, max);
    if name !in recent && Distinct(recent) {
      forall i, j | 0 <= i < j < |r|
        ensures r[i] != r[j]
      {
        assert r[j] == recent[j - 1];
        if i > 0 {
          assert r[i] == recent[i - 1];
        }
      }
    }
  }

  /** Internal examples (resource paths starting `:/`) and unnamed pages are
      not remembered. */
  predicate Rememberable(name: string) {
    name != "" && !StartsWith(name, ":/")
  }

  /** The list after `makeNewPage` opens `name`. */
  function AfterOpen(recent: seq<string>, name: string, max: nat): seq<string> {
    if name !in recent && Rememberable(name) then Push(recent, name, max) else recent
  }

  /** Opening a rememberable file puts it first, keeps the list within its
      bound and free of repeats; anything else leaves the list alone. */
  lemma OpenRemembers(recent: seq<string>, name: string, max: nat)
    ensures var r := AfterOpen(recent, name, max);
            && (Rememberable(name) && max > 0 ==> name in r)
            && (name !in recent && Rememberable(name) && max > 0 ==> r[0] == name && r[1..] <= recent)
            && (name in recent || !Rememberable(name) ==> r == recent)
            && (|recent| <= max ==> |r| <= max)
            && (Distinct(recent) ==> Distinct(r))
  {
    PushFacts(recent, name, max);
  }

  /** The list after `saveFile` as the source writes it: prepend, then
      always drop the last entry. */
  function AfterSaveAsWritten(recent: seq<string>, name: string): (r: seq<string>)
    ensures |r| == |recent|
  {
    if name !in recent then ([name] + recent)[..|recent|] else recent
  }

  /** Saving keeps the list's length and keeps it free of repeats; a new
      name goes first and pushes the last entry out. */
  lemma SaveAsWrittenFacts(recent: seq<string>, name: string)
    ensures var r := AfterSaveAsWritten(recent, name);
            && (name in recent ==> r == recent)
            && (name !in recent && |recent| > 0 ==> r[0] == name && r[1..] == recent[..|recent| - 1])
            && (Distinct(recent) ==> Distinct(r))
  {
    var r := AfterSaveAsWritten(recent, name);
    if name !in recent && Distinct(recent) {
      forall i, j | 0 <= i < j < |r|
        ensures r[i] != r[j]
      {
        assert r[j] == recent[j - 1];
        if i > 0 {
          assert r[i] == recent[i - 1];
        }
      }
    }
  }

  /** With an empty list, a saved file is not remembered at all. */
  lemma SaveIntoEmptyListForgets()
    ensures "a.csd" !in AfterSaveAsWritten([], "a.csd")
  {
  }

  /** The list after `saveFile` as intended: like opening, the entry is
      dropped only when the list grows past its bound. */
  function AfterSave(recent: seq<string>, name: string, max: nat): seq<string> {
    if name !in recent then Push(recent, name, max) else recent
  }

  lemma SaveRemembers(recent: seq<string>, name: string, max: nat)
    ensures var r := AfterSave(recent, name, max);
            && (max > 0 ==> name in r)
            && (name !in recent && max > 0 ==> r[0] == name && r[1..] <= recent)
            && (|recent| <= max ==> |r| <= max)
            && (Distinct(recent) ==> Distinct(r))
  {
    PushFacts(recent, name, max);
  }

  /** The two save rules agree once the list is full. */
  lemma SaveAgreesWhenFull(recent: seq<string>, name: string, max: nat)
    requires |recent| == max
    ensures AfterSave(recent, name, max) == AfterSaveAsWritten(recent, name)
  {
  }

  // ---- The window ----

  class CsoundQt {
    var pages: seq<Page>
    var curPage: int
    var curCsdPage: int
    var recentFiles: seq<string>
    var panelGeometry: Rect
    var inspectorNeedsUpdate: bool
    /** The bound on the recent-files list. */
    const maxRecentFiles: nat
    /** The bound on the number of open pages. */
    const maxPages: nat
    const midiCcToCurrentPageOnly: bool
    const widgetsIndependent: bool

    /** Whenever a page is open, the current page is one of them. */
    predicate CurrentValid()
      reads this
    {
      pages == [] || 0 <= curPage < |pages|
    }

    /** The recent-files list is within its bound and has no repeats. */
    predicate RecentValid()
      reads this
    {
      |recentFiles| <= maxRecentFiles && Distinct(recentFiles)
    }

    /** A window with no page; the recent files come from the settings. */
    constructor(maxRecent: nat, maxOpen: nat, ccToCurrentOnly: bool, independent: bool, recent: seq<string>)
      ensures pages == [] && curPage == -1 && curCsdPage == -1 && recentFiles == recent
      ensures maxRecentFiles == maxRecent && maxPages == maxOpen
      ensures midiCcToCurrentPageOnly == ccToCurrentOnly && widgetsIndependent == independent
      ensures CurrentValid()
    {
      pages := [];
      curPage := -1;
      curCsdPage := -1;
      recentFiles := recent;
      panelGeometry := NullRect;
      inspectorNeedsUpdate := false;
      maxRecentFiles := maxRecent;
      maxPages := maxOpen;
      midiCcToCurrentPageOnly := ccToCurrentOnly;
      widgetsIndependent := independent;
    }

    /**
     * `makeNewPage`: insert a page after the current one (or as the only
     * one), make it current and remember its file. Refused when `maxPages`
     * pages are open. Inserting the tab and selecting it make the tab widget
     * signal the new current tab, which runs `changePage` on it; by then
     * `curPage` already names the new page, so that is the page torn down.
     */
    method MakeNewPage(fileName: string, page: Page) returns (made: bool)
      requires CurrentValid()
      modifies this`pages, this`curPage, this`recentFiles, this`curCsdPage, this`panelGeometry,
               this`inspectorNeedsUpdate
      ensures made <==> |old(pages)| < maxPages
      ensures !made ==> && pages == old(pages) && curPage == old(curPage) && recentFiles == old(recentFiles)
                        && curCsdPage == old(curCsdPage) && panelGeometry == old(panelGeometry)
                        && inspectorNeedsUpdate == old(inspectorNeedsUpdate)
      ensures made ==> var at := if old(pages) == [] then 0 else old(curPage) + 1;
                       var inserted := InsertAt(old(pages), at, page.(fileName := fileName));
                       && curPage == at && inspectorNeedsUpdate
                       && pages == WithMidiCc(TornDown(inserted, at, widgetsIndependent), at, midiCcToCurrentPageOnly)
                       && panelGeometry == (if !widgetsIndependent then PanelGeometryAsWritten(page.outerGeometry)
                                            else old(panelGeometry))
                       && curCsdPage == (if EndsWith(fileName, ".csd") then at else old(curCsdPage))
                       && recentFiles == AfterOpen(old(recentFiles), fileName, maxRecentFiles)
      ensures made && midiCcToCurrentPageOnly ==> Accepting(pages) == {curPage}
      ensures CurrentValid()
      ensures old(RecentValid()) ==> RecentValid()
    {
      if |pages| >= maxPages {
        return false;
      }
      var insertPoint := curPage + 1;
      curPage := curPage + 1;
      if |pages| == 0 {
        insertPoint := 0;
        curPage := 0;
      }
      pages := InsertAt(pages, insertPoint, page.(fileName := fileName));
      OpenRemembers(recentFiles, fileName, maxRecentFiles);
      if fileName !in recentFiles && fileName != "" && !StartsWith(fileName, ":/") {
        recentFiles := Push(recentFiles, fileName, maxRecentFiles);
      }
      ChangePage(curPage);
      made := true;
    }

    /** `saveFile`: the current page takes the new name and the name is
        remembered. */
    method SaveFile(fileName: string)
      requires 0 <= curPage < |pages|
      modifies this`pages, this`recentFiles
      ensures pages == old(pages)[curPage := old(pages)[curPage].(fileName := fileName)]
      ensures recentFiles == AfterSaveAsWritten(old(recentFiles), fileName)
      ensures old(RecentValid()) ==> RecentValid()
    {
      if fileName != pages[curPage].fileName {
        pages := pages[curPage := pages[curPage].(fileName := fileName)];
      }
      SaveAsWrittenFacts(recentFiles, fileName);
      if fileName !in recentFiles {
        var pushed := [fileName] + recentFiles;
        recentFiles := pushed[..|pushed| - 1];
      }
    }

    /**
     * `changePage`: a negative index (no tab left) changes nothing. Otherwise
     * the page at `curPage`, if any, is torn down; the index becomes current;
     * if it names a page, that page's panel geometry is checked and a `.csd`
     * page becomes the current Csound page; then every page's MIDI controller
     * flag is set.
     */
    method ChangePage(index: int)
      modifies this`curPage, this`pages, this`curCsdPage, this`panelGeometry, this`inspectorNeedsUpdate
      ensures index < 0 ==> && curPage == old(curPage) && pages == old(pages) && curCsdPage == old(curCsdPage)
                            && panelGeometry == old(panelGeometry) && inspectorNeedsUpdate == old(inspectorNeedsUpdate)
      ensures index >= 0 ==> && curPage == index && inspectorNeedsUpdate
                             && pages == WithMidiCc(TornDown(old(pages), old(curPage), widgetsIndependent),
                                                    index, midiCcToCurrentPageOnly)
      ensures 0 <= index < |old(pages)| && midiCcToCurrentPageOnly ==> Accepting(pages) == {index}
      ensures index >= 0 ==> panelGeometry == if index < |old(pages)| && !widgetsIndependent
                                               then PanelGeometryAsWritten(old(pages)[index].outerGeometry)
                                               else old(panelGeometry)
      ensures index >= 0 ==> curCsdPage == if index < |old(pages)| && EndsWith(old(pages)[index].fileName, ".csd")
                                            then index
                                            else old(curCsdPage)
      ensures index < |old(pages)| && old(CurrentValid()) ==> CurrentValid()
    {
      if index < 0 {
        return;
      }
      if 0 <= curPage < |pages| && widgetsIndependent {
        pages := pages[curPage := pages[curPage].(outerGeometry := NullRect)];
      }
      curPage := index;
      if curPage < |pages| {
        var page := pages[curPage];
        if !widgetsIndependent {
          panelGeometry := PanelGeometryAsWritten(page.outerGeometry);
        }
        if EndsWith(page.fileName, ".csd") {
          curCsdPage := curPage;
        }
      }
      inspectorNeedsUpdate := true;
      SetMidiCcAcceptance();
      MidiCcAcceptance(TornDown(old(pages), old(curPage), widgetsIndependent), index, midiCcToCurrentPageOnly);
    }

    /** The loop at the end of `changePage`. */
    method SetMidiCcAcceptance()
      modifies this`pages
      ensures pages == WithMidiCc(old(pages), curPage, midiCcToCurrentPageOnly)
    {
      var i := 0;
      while i < |pages|
        invariant 0 <= i <= |pages| == |old(pages)|
        invariant forall j :: 0 <= j < i ==> pages[j] == WithMidiCc(old(pages), curPage, midiCcToCurrentPageOnly)[j]
        invariant forall j :: i <= j < |pages| ==> pages[j] == old(pages)[j]
      {
        if midiCcToCurrentPageOnly {
          if i == curPage {
            pages := pages[i := pages[i].(acceptsMidiCC := true)];
          } else {
            pages := pages[i := pages[i].(acceptsMidiCC := false)];
          }
        } else {
          pages := pages[i := pages[i].(acceptsMidiCC := true)];
        }
        i := i + 1;
      }
    }

    /**
     * `deleteTab`: remove the page at `index` (-1 meaning the current one).
     * Removing the tab makes the tab widget signal its new current tab, which
     * runs `changePage` before the current index is pulled back into range.
     */
    method DeleteTab(index: int)
      requires 0 <= (if index == -1 then curPage else index) < |pages|
      modifies this`pages, this`curPage, this`curCsdPage, this`panelGeometry, this`inspectorNeedsUpdate
      ensures var k := if index == -1 then old(curPage) else index;
              var rest := RemoveAt(old(pages), k);
              var t := TabSignal(old(curPage), k, |rest|);
              && (t < 0 ==> && pages == rest && curPage == ClampPage(old(curPage), |rest|)
                            && curCsdPage == old(curCsdPage) && panelGeometry == old(panelGeometry)
                            && inspectorNeedsUpdate == old(inspectorNeedsUpdate))
              && (t >= 0 ==> && pages == WithMidiCc(TornDown(rest, old(curPage), widgetsIndependent),
                                                    t, midiCcToCurrentPageOnly)
                             && curPage == ClampPage(t, |rest|) && inspectorNeedsUpdate
                             && panelGeometry == (if t < |rest| && !widgetsIndependent
                                                  then PanelGeometryAsWritten(rest[t].outerGeometry)
                                                  else old(panelGeometry))
                             && curCsdPage == (if t < |rest| && EndsWith(rest[t].fileName, ".csd")
                                               then t else old(curCsdPage)))
      ensures CurrentValid()
    {
      var k := index;
      if k == -1 {
        k := curPage;
      }
      var signal := TabSignal(curPage, k, |pages| - 1);
      pages := RemoveAt(pages, k);
      ChangePage(signal);
      if curPage >= |pages| {
        curPage := |pages| - 1;
      }
      if curPage < 0 {
        curPage := 0;
      }
    }

    /** `tabMoved`: out-of-range indices change nothing; otherwise the two
        pages trade places, `curPage` is set to `to`, and `changePage(to)`
        tears down and then shows the page now at `to`. */
    method TabMoved(to: int, from: int)
      modifies this`pages, this`curPage, this`curCsdPage, this`panelGeometry, this`inspectorNeedsUpdate
      ensures !(0 <= to < |old(pages)| && 0 <= from < |old(pages)|) ==>
                && pages == old(pages) && curPage == old(curPage) && curCsdPage == old(curCsdPage)
                && panelGeometry == old(panelGeometry) && inspectorNeedsUpdate == old(inspectorNeedsUpdate)
      ensures 0 <= to < |old(pages)| && 0 <= from < |old(pages)| ==>
                && curPage == to && CurrentValid() && inspectorNeedsUpdate
                && pages == WithMidiCc(TornDown(Swap(old(pages), to, from), to, widgetsIndependent),
                                       to, midiCcToCurrentPageOnly)
                && panelGeometry == (if !widgetsIndependent
                                     then PanelGeometryAsWritten(old(pages)[from].outerGeometry)
                                     else old(panelGeometry))
                && curCsdPage == (if EndsWith(old(pages)[from].fileName, ".csd") then to else old(curCsdPage))
                && (midiCcToCurrentPageOnly ==> Accepting(pages) == {to})
    {
      if to < 0 || to >= |pages| || from < 0 || from >= |pages| {
        return;
      }
      pages := Swap(pages, to, from);
      curPage := to;
      ChangePage(to);
    }

    /** `splitView`: set the current page's view mode. */
    method SplitView(split: bool, shown: Sections)
      requires 0 <= curPage < |pages|
      modifies this`pages
      ensures pages == old(pages)[curPage := old(pages)[curPage].(viewMode := SplitMode(split, shown))]
    {
      var mode := SplitMode(split, shown);
      pages := pages[curPage := pages[curPage].(viewMode := mode)];
    }

    /** `virtualMidiIn`: queue a note message on the current page. */
    method VirtualMidiIn(on: int, note: int, channel: int, velocity: int)
      requires 0 <= curPage < |pages|
      modifies this`pages
      ensures pages == old(pages)[curPage := old(pages)[curPage].(midiQueue :=
                old(pages)[curPage].midiQueue + [Midi.VirtualMidiIn(on, note, channel, velocity)])]
    {
      var message := Midi.VirtualMidiIn(on, note, channel, velocity);
      pages := pages[curPage := pages[curPage].(midiQueue := pages[curPage].midiQueue + [message])];
    }

    /** `virtualCCIn`: queue a controller message on the current page. */
    method VirtualCCIn(channel: int, cc: int, value: int)
      requires 0 <= curPage < |pages|
      modifies this`pages
      ensures pages == old(pages)[curPage := old(pages)[curPage].(midiQueue :=
                old(pages)[curPage].midiQueue + [Midi.VirtualCCIn(channel, cc, value)])]
    {
      var message := Midi.VirtualCCIn(channel, cc, value);
      pages := pages[curPage := pages[curPage].(midiQueue := pages[curPage].midiQueue + [message])];
    }

    /** `isOpen`: the first page with exactly this file name, or -1. */
    method IsOpen(fileName: string) returns (open: int)
      ensures -1 <= open < |pages|
      ensures open == -1 <==> forall i :: 0 <= i < |pages| ==> pages[i].fileName != fileName
      ensures open >= 0 ==> pages[open].fileName == fileName
                            && forall i :: 0 <= i < open ==> pages[i].fileName != fileName
    {
      open := -1;
      var i := 0;
      while i < |pages|
        invariant 0 <= i <= |pages|
        invariant forall j :: 0 <= j < i ==> pages[j].fileName != fileName
      {
        if pages[i].fileName == fileName {
          open := i;
          break;
        }
        i := i + 1;
      }
    }

    /** `getDocument`: the current page for an empty name, otherwise the first
        page whose full or base name is `name`, or -1. */
    method GetDocument(name: string) returns (index: int)
      ensures name == "" ==> index == curPage
      ensures name != "" ==> -1 <= index < |pages|
      ensures name != "" ==> (index == -1 <==> forall i :: 0 <= i < |pages| ==> !NameMatches(pages[i].fileName, name))
      ensures name != "" && index >= 0 ==> NameMatches(pages[index].fileName, name)
                                           && forall i :: 0 <= i < index ==> !NameMatches(pages[i].fileName, name)
    {
      index := curPage;
      if name != "" {
        index := -1;
        var i := 0;
        while i < |pages|
          invariant 0 <= i <= |pages|
          invariant forall j :: 0 <= j < i ==> !NameMatches(pages[j].fileName, name)
        {
          var fileName := pages[i].fileName;
          var relName := Mid(fileName, LastSlash(fileName) + 1);
          if name == fileName || name == relName {
            index := i;
            break;
          }
          i := i + 1;
        }
      }
    }
  }
}
