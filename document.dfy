/**
 * A document's handling of its text outside the editor: the widget panels
 * and presets cut out of a `.csd` text on load, the text assembled on save,
 * and the editor mode chosen from the file name.
 */
module Document {
  import opened Text

  // ---------------------------------------------------------------------------
  // Editor mode from the file name.
  // ---------------------------------------------------------------------------

  datatype EditMode = CsoundMode | PythonMode | XmlMode | OrcMode | ScoMode | IncMode | HtmlMode | GenericMode

  /** The suffix tests, case-sensitive, in the order they are made; the first
      match decides. An empty name is a Csound document. */
  function ModeFor(name: string): EditMode {
    if EndsWith(name, ".csd") || name == "" then CsoundMode
    else if EndsWith(name, ".py") then PythonMode
    else if EndsWith(name, ".xml") then XmlMode
    else if EndsWith(name, ".orc") then OrcMode
    else if EndsWith(name, ".udo") then OrcMode
    else if EndsWith(name, ".sco") then ScoMode
    else if EndsWith(name, ".inc") then IncMode
    else if EndsWith(name, ".html") then HtmlMode
    else GenericMode
  }

  /** The recognised suffixes and the mode each selects. */
  const Suffixes: seq<(string, EditMode)> :=
    [(".csd", CsoundMode), (".py", PythonMode), (".xml", XmlMode), (".orc", OrcMode),
     (".udo", OrcMode), (".sco", ScoMode), (".inc", IncMode), (".html", HtmlMode)]

  /** A name ending with a suffix of three or more characters ends with its last three. */
  lemma EndsWithLastThree(name: string, suffix: string)
    requires |suffix| >= 3
    ensures EndsWith(name, suffix) ==> |name| >= 3 && name[|name| - 3..] == suffix[|suffix| - 3..]
  {
    if EndsWith(name, suffix) {
      assert name[|name| - 3..] == name[|name| - |suffix|..][|suffix| - 3..];
    }
  }

  /** No name ends with two different recognised suffixes. */
  lemma SuffixesExclusive(name: string, a: nat, b: nat)
    requires a < b < |Suffixes|
    ensures !(EndsWith(name, Suffixes[a].0) && EndsWith(name, Suffixes[b].0))
  {
    EndsWithLastThree(name, Suffixes[a].0);
    EndsWithLastThree(name, Suffixes[b].0);
  }

  /** The order of the tests does not matter: whichever recognised suffix a
      name ends with selects its mode. */
  lemma SuffixDecidesMode(name: string, k: nat)
    requires k < |Suffixes| && EndsWith(name, Suffixes[k].0)
    ensures ModeFor(name) == Suffixes[k].1
  {
    forall a: nat | a < k ensures !EndsWith(name, Suffixes[a].0) {
      SuffixesExclusive(name, a, k);
    }
    assert name != "" by { assert |Suffixes[k].0| > 0; }
    if k == 0 {
    } else if k == 1 {
      assert !EndsWith(name, ".csd") by { assert Suffixes[0].0 == ".csd"; }
    } else if k == 2 {
      assert !EndsWith(name, ".csd") && !EndsWith(name, ".py") by { assert Suffixes[0].0 == ".csd" && Suffixes[1].0 == ".py"; }
    } else {
      assert !EndsWith(name, ".csd") && !EndsWith(name, ".py") && !EndsWith(name, ".xml") by {
        assert Suffixes[0].0 == ".csd" && Suffixes[1].0 == ".py" && Suffixes[2].0 == ".xml";
      }
      if k >= 4 {
        assert !EndsWith(name, ".orc") by { assert Suffixes[3].0 == ".orc"; }
      }
      if k >= 5 {
        assert !EndsWith(name, ".udo") by { assert Suffixes[4].0 == ".udo"; }
      }
      if k >= 6 {
        assert !EndsWith(name, ".sco") by { assert Suffixes[5].0 == ".sco"; }
      }
      if k >= 7 {
        assert !EndsWith(name, ".inc") by { assert Suffixes[6].0 == ".inc"; }
      }
    }
  }

  /** The generic mode is chosen exactly for a non-empty name with none of the
      recognised suffixes. */
  lemma GenericExactly(name: string)
    ensures ModeFor(name) == GenericMode <==>
            name != "" && forall k :: 0 <= k < |Suffixes| ==> !EndsWith(name, Suffixes[k].0)
  {
    if exists k :: 0 <= k < |Suffixes| && EndsWith(name, Suffixes[k].0) {
      var k :| 0 <= k < |Suffixes| && EndsWith(name, Suffixes[k].0);
      SuffixDecidesMode(name, k);
    } else {
      assert !EndsWith(name, Suffixes[0].0) && !EndsWith(name, Suffixes[1].0) && !EndsWith(name, Suffixes[2].0)
          && !EndsWith(name, Suffixes[3].0) && !EndsWith(name, Suffixes[4].0) && !EndsWith(name, Suffixes[5].0)
          && !EndsWith(name, Suffixes[6].0) && !EndsWith(name, Suffixes[7].0);
    }
  }

  /** A file name that saves with its widgets: `.csd` in any case, or none. */
  predicate IsCsdName(name: string) {
    EndsWithIgnoreCase(name, ".csd") || name == ""
  }

  /** The suffix test of saving ignores case, the one choosing the editor
      mode does not: `X.CSD` is edited in the generic mode yet saved with
      its widget and preset sections. */
  lemma UpperCaseCsd()
    ensures IsCsdName("X.CSD") && ModeFor("X.CSD") == GenericMode
  {
    GenericExactly("X.CSD");
    assert !EndsWith("X.CSD", ".csd") by { assert "X.CSD"[1..] != ".csd"; }
  }

  // ---------------------------------------------------------------------------
  // Widget panels cut out of the text.
  // ---------------------------------------------------------------------------

  const PanelOpen := "<bsbPanel"
  const PanelClose := "</bsbPanel>"
  const PresetsOpen := "<bsbPresets>"
  const PresetsClose := "</bsbPresets>"

  /** The panel loaded when the text carries none: visible, at (100, 100), 320 by 240. */
  const DefaultPanel := "<bsbPanel><visible>true</visible><x>100</x><y>100</y><width>320</width><height>240</height></bsbPanel>"

  /** A slice removed from the text and the index it was removed at. */
  datatype Cut = Cut(at: nat, text: string)

  /** The panels removed in order, the text left, and whether every opening
      tag found had a closing tag after it. */
  datatype Extraction = Extraction(closed: bool, cuts: seq<Cut>, rest: string)

  /** A removed panel: from an opening tag to the first closing tag after it. */
  predicate IsPanel(p: string) {
    StartsWith(p, PanelOpen) && EndsWith(p, PanelClose)
    && forall k :: 0 <= k < |p| - |PanelClose| ==> !OccursAt(p, PanelClose, k)
  }

  /** The text of the removed slices, in order. */
  function Texts(cuts: seq<Cut>): (ps: seq<string>)
    ensures |ps| == |cuts| && forall k :: 0 <= k < |cuts| ==> ps[k] == cuts[k].text
  {
    if cuts == [] then [] else [cuts[0].text] + Texts(cuts[1..])
  }

  /** Occurrences inside a slice are occurrences in the whole text. */
  lemma OccursInSlice(t: string, needle: string, s: nat, e: nat, k: nat)
    requires s <= e <= |t| && k + |needle| <= e - s
    ensures OccursAt(t[s..e], needle, k) <==> OccursAt(t, needle, s + k)
  {
    var a := t[s..e][k..k + |needle|];
    var b := t[s + k..s + k + |needle|];
    forall j | 0 <= j < |needle| ensures a[j] == b[j] {
      assert a[j] == t[s..e][k + j];
    }
    assert a == b;
  }

  /** The slice from the opening tag at `s` to the end of the first closing
      tag at or after it is a panel. */
  lemma SliceIsPanel(t: string, s: nat, e: nat)
    requires OccursAt(t, PanelOpen, s) && OccursAt(t, PanelClose, e) && s <= e
    requires forall k :: s <= k < e ==> !OccursAt(t, PanelClose, k)
    ensures e + |PanelClose| <= |t| && IsPanel(t[s..e + |PanelClose|])
  {
    var p := t[s..e + |PanelClose|];
    OpenTagHoldsNoClose(t, s);
    assert p[..|PanelOpen|] == t[s..s + |PanelOpen|];
    assert p[|p| - |PanelClose|..] == t[e..e + |PanelClose|];
    forall k | 0 <= k < |p| - |PanelClose| ensures !OccursAt(p, PanelClose, k) {
      OccursInSlice(t, PanelClose, s, e + |PanelClose|, k);
    }
  }

  /** No closing tag starts inside an opening tag. */
  lemma OpenTagHoldsNoClose(t: string, s: nat)
    requires OccursAt(t, PanelOpen, s)
    ensures forall j :: s <= j < s + |PanelOpen| ==> !OccursAt(t, PanelClose, j)
  {
    forall j | s <= j < s + |PanelOpen| ensures !OccursAt(t, PanelClose, j) {
      assert t[j] == t[s..s + |PanelOpen|][j - s];
      if j == s {
        assert t[j + 1] == t[s..s + |PanelOpen|][1];
      }
    }
  }

  /** Where the first panel of a text lies: no opening tag, an opening tag
      with no closing tag after it, or the slice `[start, end)` from the first
      opening tag to the end of the first closing tag after it. */
  datatype PanelSearch = NoOpen | Unclosed | Found(start: nat, end: nat)

  function FirstPanel(text: string): (f: PanelSearch)
    ensures f.NoOpen? <==> IndexOf(text, PanelOpen, 0) == -1
    ensures f.Found? ==> f.start < f.end <= |text|
  {
    var s := IndexOf(text, PanelOpen, 0);
    if s < 0 then NoOpen
    else
      var e := IndexOf(text, PanelClose, s);
      if e < 0 then Unclosed
      else Found(s, e + |PanelClose|)
  }

  /** The slice found is a panel. */
  lemma FoundIsPanel(text: string, s: nat, e: nat)
    requires FirstPanel(text) == Found(s, e)
    ensures IsPanel(text[s..e])
  {
    var i := IndexOf(text, PanelOpen, 0);
    var j := IndexOf(text, PanelClose, i);
    assert i == s && j + |PanelClose| == e;
    SliceIsPanel(text, i, j);
  }

  /** Repeatedly remove the first panel until no opening tag is left, or one
      has no closing tag after it. */
  function ExtractPanels(text: string): Extraction
    decreases |text|
  {
    match FirstPanel(text)
    case NoOpen => Extraction(true, [], text)
    case Unclosed => Extraction(false, [], text)
    case Found(s, e) =>
      var x := ExtractPanels(text[..s] + text[e..]);
      Extraction(x.closed, [Cut(s, text[s..e])] + x.cuts, x.rest)
  }

  /** Put a removed slice back where it was taken from. */
  function Insert(s: string, c: Cut): string {
    if c.at <= |s| then s[..c.at] + c.text + s[c.at..] else s + c.text
  }

  /** Removing `text[s..after]` and inserting it back at `s` gives the text again. */
  lemma CutThenInsert(text: string, s: nat, after: nat)
    requires s <= after <= |text|
    ensures var shorter := text[..s] + text[after..];
            s <= |shorter| && Insert(shorter, Cut(s, text[s..after])) == text
  {
    var shorter := text[..s] + text[after..];
    assert shorter[..s] == text[..s];
    assert shorter[s..] == text[after..];
    assert text == text[..s] + text[s..after] + text[after..];
  }

  /** Undo the cuts, the last one first. */
  function Restore(rest: string, cuts: seq<Cut>): string {
    if cuts == [] then rest else Insert(Restore(rest, cuts[1..]), cuts[0])
  }

  /** Nothing is lost: the text is the remainder with the panels put back,
      whether the extraction finished or stopped at an unclosed panel. */
  lemma {:induction false} ExtractRestores(text: string)
    ensures var x := ExtractPanels(text); Restore(x.rest, x.cuts) == text
    decreases |text|
  {
    match FirstPanel(text)
    case NoOpen =>
    case Unclosed =>
    case Found(s, e) =>
      var shorter := text[..s] + text[e..];
      ExtractStep(text, s, e, text[s..e], shorter);
      ExtractRestores(shorter);
      CutThenInsert(text, s, e);
  }

  /** A text without an opening tag loses nothing. */
  lemma NoPanelNoCut(text: string)
    requires forall k :: !OccursAt(text, PanelOpen, k)
    ensures ExtractPanels(text) == Extraction(true, [], text)
  {
  }

  /** Extraction is idempotent on what it leaves behind once it finishes. */
  lemma ExtractIdempotent(text: string)
    requires ExtractPanels(text).closed
    ensures var r := ExtractPanels(text).rest; ExtractPanels(r) == Extraction(true, [], r)
  {
    ExtractFinished(text);
  }

  /** Every slice removed is a panel: an opening tag up to the first closing
      tag after it. */
  lemma {:induction false} ExtractedArePanels(text: string)
    ensures var x := ExtractPanels(text);
            forall k :: 0 <= k < |x.cuts| ==> IsPanel(x.cuts[k].text)
    decreases |text|
  {
    match FirstPanel(text)
    case NoOpen =>
    case Unclosed =>
    case Found(s, e) =>
      var shorter := text[..s] + text[e..];
      ExtractStep(text, s, e, text[s..e], shorter);
      FoundIsPanel(text, s, e);
      ExtractedArePanels(shorter);
      var x, y := ExtractPanels(text), ExtractPanels(shorter);
      forall k | 0 <= k < |x.cuts| ensures IsPanel(x.cuts[k].text) {
        if k > 0 {
          assert x.cuts[k] == y.cuts[k - 1];
        }
      }
  }

  /** An extraction that finishes leaves no opening tag behind. */
  lemma {:induction false} ExtractFinished(text: string)
    ensures var x := ExtractPanels(text);
            x.closed ==> IndexOf(x.rest, PanelOpen, 0) == -1
    decreases |text|
  {
    match FirstPanel(text)
    case NoOpen =>
    case Unclosed =>
    case Found(s, e) =>
      var shorter := text[..s] + text[e..];
      ExtractStep(text, s, e, text[s..e], shorter);
      ExtractFinished(shorter);
  }

  /** A call made to the first widget layout. */
  datatype LayoutCall = LoadWidgets(xml: string) | LoadPresets(xml: string) | MarkHistory | ClearWidgets(layout: nat)

  /** The presets section cut from the text: found at `at`, or not at all. */
  datatype PresetCut = PresetCut(found: bool, at: nat, presets: string, rest: string)

  /** The first `<bsbPresets>` up to the first `</bsbPresets>` after it; an
      unclosed section is left in place. */
  function CutPresets(text: string): (c: PresetCut)
    ensures !c.found ==> c.rest == text
  {
    var s := IndexOf(text, PresetsOpen, 0);
    if s < 0 then PresetCut(false, 0, "", text)
    else
      var e := IndexOf(text, PresetsClose, s);
      if e < 0 then PresetCut(false, 0, "", text)
      else
        var size := e - s + |PresetsClose|;
        PresetCut(true, s, text[s..s + size], text[..s] + text[s + size..])
  }

  /** The cut section runs from the first `<bsbPresets>` to the end of the
      first `</bsbPresets>` after it, and putting it back restores the text. */
  lemma PresetsRestore(text: string)
    ensures var c := CutPresets(text);
            c.found ==> c.at <= |c.rest| && Insert(c.rest, Cut(c.at, c.presets)) == text
                        && StartsWith(c.presets, PresetsOpen) && EndsWith(c.presets, PresetsClose)
                        && IndexOf(text, PresetsOpen, 0) == c.at
  {
    var s := IndexOf(text, PresetsOpen, 0);
    if s >= 0 {
      var e := IndexOf(text, PresetsClose, s);
      if e >= 0 {
        var after := e + |PresetsClose|;
        PresetsSlice(text, s, e, text[s..after]);
        CutThenInsert(text, s, after);
        assert CutPresets(text) == PresetCut(true, s, text[s..after], text[..s] + text[after..]);
      }
    }
  }

  /** The slice from an opening to a closing presets tag starts and ends with them. */
  lemma PresetsSlice(text: string, s: nat, e: nat, p: string)
    requires OccursAt(text, PresetsOpen, s) && OccursAt(text, PresetsClose, e) && s <= e
    requires p == text[s..e + |PresetsClose|]
    ensures StartsWith(p, PresetsOpen) && EndsWith(p, PresetsClose)
  {
    assert p[..|PresetsOpen|] == text[s..s + |PresetsOpen|];
    assert p[|p| - |PresetsClose|..] == text[e..e + |PresetsClose|];
  }

  /** What loading the widget sections of a text does: the number returned,
      the text left, and the calls made to the first layout. */
  datatype Splice = Splice(count: nat, rest: string, calls: seq<LayoutCall>)

  function SpliceWidgets(text: string): Splice {
    var x := ExtractPanels(text);
    if !x.closed then Splice(0, x.rest, [])
    else if x.cuts == [] then Splice(0, x.rest, [LoadWidgets(DefaultPanel), MarkHistory])
    else
      var p := CutPresets(x.rest);
      Splice(|x.cuts|, p.rest,
             [LoadWidgets(x.cuts[0].text), MarkHistory] + (if p.found then [LoadPresets(p.presets)] else []))
  }

  /** An unclosed panel: nothing is loaded and 0 is returned, yet the panels
      removed before it stay removed. */
  lemma UnclosedPanelLoadsNothing(text: string)
    requires !ExtractPanels(text).closed
    ensures var sp := SpliceWidgets(text); var x := ExtractPanels(text);
            sp.count == 0 && sp.calls == [] && sp.rest == x.rest
            && Restore(sp.rest, x.cuts) == text
  {
    ExtractRestores(text);
  }

  /** No panel at all: the default panel is loaded and the presets are not
      looked for, so the text is returned unchanged. */
  lemma NoPanelLoadsDefault(text: string)
    requires forall k :: !OccursAt(text, PanelOpen, k)
    ensures SpliceWidgets(text) == Splice(0, text, [LoadWidgets(DefaultPanel), MarkHistory])
  {
    NoPanelNoCut(text);
  }

  /** With panels: their number is returned, only the first is loaded, and a
      closed presets section is loaded and removed; the original text is the
      remainder with the presets and then the panels put back. */
  lemma PanelsLoadFirst(text: string)
    requires ExtractPanels(text).closed && ExtractPanels(text).cuts != []
    ensures var sp := SpliceWidgets(text); var x := ExtractPanels(text); var p := CutPresets(x.rest);
            && sp.count == |x.cuts|
            && sp.calls[0] == LoadWidgets(x.cuts[0].text) && IsPanel(sp.calls[0].xml)
            && (p.found ==> |sp.calls| == 3 && sp.calls[2] == LoadPresets(p.presets)
                            && Restore(Insert(sp.rest, Cut(p.at, p.presets)), x.cuts) == text)
            && (!p.found ==> |sp.calls| == 2 && Restore(sp.rest, x.cuts) == text)
  {
    ExtractRestores(text);
    ExtractedArePanels(text);
    PresetsRestore(ExtractPanels(text).rest);
  }

  // ---------------------------------------------------------------------------
  // The document.
  // ---------------------------------------------------------------------------

  /** The text saved for a document: the editor text, then for a `.csd` (or
      unnamed) document the widget and preset sections and a final newline. */
  function FullText(name: string, view: string, widgets: string, presets: string): (s: string)
    ensures StartsWith(s, view)
    ensures !IsCsdName(name) ==> s == view
    ensures IsCsdName(name) ==> |s| == |view| + |widgets| + |presets| + 1 && s[|s| - 1] == '\n'
  {
    assert (view + widgets + presets + "\n")[..|view|] == view;
    if IsCsdName(name) then view + widgets + presets + "\n" else view
  }

  /** The sections sit in order: editor text, widgets, presets. */
  lemma FullTextOrder(name: string, view: string, widgets: string, presets: string)
    requires IsCsdName(name)
    ensures var s := FullText(name, view, widgets, presets);
            s[|view|..|view| + |widgets|] == widgets
            && s[|view| + |widgets|..|s| - 1] == presets
  {
  }

  /** `ClearWidgets` for each of the first `n` layouts, in order. */
  function ClearAll(n: nat): (cs: seq<LayoutCall>)
    ensures |cs| == n && forall k :: 0 <= k < n ==> cs[k] == ClearWidgets(k)
  {
    if n == 0 then [] else ClearAll(n - 1) + [ClearWidgets(n - 1)]
  }

  /** Cut out every panel, first to last, stopping at a panel without a
      closing tag; the panels already cut stay cut. */
  method RemovePanels(text: string) returns (closed: bool, panels: seq<string>, rest: string)
    ensures var x := ExtractPanels(text);
            closed == x.closed && panels == Texts(x.cuts) && rest == x.rest
  {
    rest := text;
    panels := [];
    ghost var cuts: seq<Cut> := [];
    ghost var whole := ExtractPanels(text);
    PendingStart(text);
    while true
      invariant Pending(whole, cuts, rest)
      invariant panels == Texts(cuts)
      decreases |rest|
    {
      var panelStart := IndexOf(rest, PanelOpen, 0);
      if panelStart < 0 {
        PendingDone(whole, cuts, rest);
        return true, panels, rest;
      }
      var panelEnd := IndexOf(rest, PanelClose, panelStart);
      if panelEnd < 0 {
        assert FirstPanel(rest) == Unclosed;
        PendingDone(whole, cuts, rest);
        return false, panels, rest;
      }
      var size := panelEnd + |PanelClose| - panelStart;
      var panel := rest[panelStart..panelStart + size];
      var shorter := rest[..panelStart] + rest[panelStart + size..];
      assert FirstPanel(rest) == Found(panelStart, panelStart + size);
      PendingStep(whole, cuts, rest, panelStart, panelStart + size, panel, shorter);
      TextsAppend(cuts, Cut(panelStart, panel));
      panels := panels + [panel];
      cuts := cuts + [Cut(panelStart, panel)];
      rest := shorter;
    }
  }

  /** The extraction of the whole text is `cuts` followed by that of `rest`. */
  ghost predicate Pending(whole: Extraction, cuts: seq<Cut>, rest: string) {
    var y := ExtractPanels(rest);
    whole == Extraction(y.closed, cuts + y.cuts, y.rest)
  }

  lemma PendingStart(text: string)
    ensures Pending(ExtractPanels(text), [], text)
  {
    var y := ExtractPanels(text);
    assert [] + y.cuts == y.cuts;
  }

  lemma PendingStep(whole: Extraction, cuts: seq<Cut>, rest: string, s: nat, e: nat, panel: string, shorter: string)
    requires Pending(whole, cuts, rest)
    requires FirstPanel(rest) == Found(s, e)
    requires panel == rest[s..e] && shorter == rest[..s] + rest[e..]
    ensures |shorter| < |rest|
    ensures Pending(whole, cuts + [Cut(s, panel)], shorter)
  {
    ExtractStep(rest, s, e, panel, shorter);
    var y := ExtractPanels(shorter);
    assert cuts + ([Cut(s, panel)] + y.cuts) == (cuts + [Cut(s, panel)]) + y.cuts;
  }

  lemma PendingDone(whole: Extraction, cuts: seq<Cut>, rest: string)
    requires Pending(whole, cuts, rest) && !FirstPanel(rest).Found?
    ensures whole == Extraction(FirstPanel(rest).NoOpen?, cuts, rest)
  {
    assert cuts + [] == cuts;
  }

  /** One round of the extraction: the first panel, then the panels of what is left. */
  lemma ExtractStep(text: string, s: nat, e: nat, panel: string, shorter: string)
    requires FirstPanel(text) == Found(s, e)
    requires panel == text[s..e] && shorter == text[..s] + text[e..]
    ensures var y := ExtractPanels(shorter);
            ExtractPanels(text) == Extraction(y.closed, [Cut(s, panel)] + y.cuts, y.rest)
  {
  }

  lemma TextsAppend(cuts: seq<Cut>, c: Cut)
    ensures Texts(cuts + [c]) == Texts(cuts) + [c.text]
  {
  }

  /** Cut out the first presets section if it is closed. */
  method RemovePresets(text: string) returns (found: bool, presets: string, rest: string)
    ensures var c := CutPresets(text);
            found == c.found && rest == c.rest && (found ==> presets == c.presets)
    ensures !found ==> rest == text && presets == ""
    ensures found ==> var at := IndexOf(text, PresetsOpen, 0);
                      && StartsWith(presets, PresetsOpen) && EndsWith(presets, PresetsClose)
                      && at <= |rest| && Insert(rest, Cut(at, presets)) == text
  {
    PresetsRestore(text);
    rest := text;
    found := false;
    presets := "";
    var presetsStart := IndexOf(text, PresetsOpen, 0);
    if presetsStart >= 0 {
      var presetsEnd := IndexOf(text, PresetsClose, presetsStart);
      if presetsEnd >= 0 {
        var presetsSize := presetsEnd - presetsStart + |PresetsClose|;
        presets := text[presetsStart..presetsStart + presetsSize];
        rest := text[..presetsStart] + text[presetsStart + presetsSize..];
        found := true;
      }
    }
  }

  class BaseDocument {
    var fileName: string
    /** The editor's file type. */
    var mode: EditMode
    /** The calls made to the widget layouts, oldest first. */
    var calls: seq<LayoutCall>
    /** What the editor and the first layout currently report as their text. */
    var viewText: string
    var widgetsText: string
    var presetsText: string
    /** The number of widget layouts. */
    var layoutCount: nat

    /** Cut the panels and presets out of `text`, loading the first panel (or
        the default one) and the presets into the first layout. */
    method ParseAndRemoveWidgetText(text: string) returns (count: nat, rest: string)
      modifies this`calls
      ensures var sp := SpliceWidgets(text);
              count == sp.count && rest == sp.rest && calls == old(calls) + sp.calls
    {
      var closed, panels, t := RemovePanels(text);
      if !closed {
        return 0, t;
      }
      if |panels| > 0 {
        calls := calls + [LoadWidgets(panels[0]), MarkHistory];
        var found, presets;
        found, presets, t := RemovePresets(t);
        if found {
          calls := calls + [LoadPresets(presets)];
        }
      } else {
        calls := calls + [LoadWidgets(DefaultPanel), MarkHistory];
      }
      return |panels|, t;
    }

    /** The text to save; a document that is not a `.csd` has its widgets
        cleared in every layout. */
    method GetFullText() returns (s: string)
      modifies this`calls
      ensures s == FullText(fileName, viewText, widgetsText, presetsText)
      ensures calls == old(calls) + (if IsCsdName(fileName) then [] else ClearAll(layoutCount))
    {
      if IsCsdName(fileName) {
        s := viewText + widgetsText + presetsText + "\n";
      } else {
        for k := 0 to layoutCount
          invariant calls == old(calls) + ClearAll(k)
        {
          calls := calls + [ClearWidgets(k)];
        }
        s := viewText;
      }
    }

    /** Record the name and set the editor mode from its suffix. */
    method SetFileName(name: string)
      modifies this`fileName, this`mode
      ensures fileName == name && mode == ModeFor(name)
    {
      fileName := name;
      if EndsWith(name, ".csd") || name == "" {
        mode := CsoundMode;
      } else if EndsWith(name, ".py") {
        mode := PythonMode;
      } else if EndsWith(name, ".xml") {
        mode := XmlMode;
      } else if EndsWith(name, ".orc") {
        mode := OrcMode;
      } else if EndsWith(name, ".udo") {
        mode := OrcMode;
      } else if EndsWith(name, ".sco") {
        mode := ScoMode;
      } else if EndsWith(name, ".inc") {
        mode := IncMode;
      } else if EndsWith(name, ".html") {
        mode := HtmlMode;
      } else {
        mode := GenericMode;
      }
    }
  }
}
