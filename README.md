# CsoundQt core, modelled in Dafny

This project models the document bookkeeping at the heart of CsoundQt, the
Csound front end:

- **The Inspector outline** (`Inspector::parseText`, `Inspector::parsePythonText`).
  - A Csound document is scanned line by line into five categories: Opcodes, Macros, Instruments, F-tables and Score.
  - The scan also builds the map of user-defined opcodes.
  - The expansion state of the categories and of the instruments is carried over from the previous outline.
  - A Python document is scanned into Imports, Classes (with their methods) and Functions.
  - The imperative scans (class `Inspection.Inspector` and the methods beside it) are proved equal to the functions of module `Outline`.
  - Module `OutlineFacts` proves what those outlines contain.
- **A document's widget sections** (`BaseDocument::parseAndRemoveWidgetText`, `getFullText`, `setFileName`).
  - On load, every `<bsbPanel …</bsbPanel>` is cut out of a `.csd` text and the first panel is loaded. If there is no panel, the default one is loaded.
  - The first closed `<bsbPresets>` section is cut out and loaded.
  - On save, the editor text is followed by the widget and preset sections. A document that is not a `.csd` has its widgets cleared instead.
  - The editor mode follows the file name's suffix.
- **The main window** (`CsoundQt` in `qutecsound.cpp`):
  - new-line normalisation of loaded files (`changeNewLines`);
  - the widget panel geometry check (`setWidgetPanelGeometry`);
  - the bytes the virtual MIDI keyboard and controllers queue (`virtualMidiIn`, `virtualCCIn`);
  - the recent-files list kept by `makeNewPage` and `saveFile`;
  - page lookup (`isOpen`, `getDocument`), the split view (`splitView`), closing and moving tabs (`deleteTab`, `tabMoved`);
  - which pages accept MIDI controller input after `changePage`.

Modules, one file each:

- **`Text`** (`text.dfy`): the QString operations the core relies on: `trimmed`, `simplified`, `split`, `indexOf`, `mid`, and the `\s`/`\w` character classes.
- **`Outline`** (`outline.dfy`): outline entries, the regular expressions of the scanner, and the Csound and Python outlines as functions.
- **`OutlineFacts`** (`outline_facts.dfy`): what the outlines contain, proved through scan invariants.
- **`Inspection`** (`inspector.dfy`): the `Inspector` class and its loops.
- **`Document`** (`document.dfy`): panel and preset extraction, saving, the editor mode, and the `BaseDocument` class.
- **`NewLines`** (`newlines.dfy`), **`Geometry`** (`geometry.dfy`), **`Midi`** (`midi.dfy`): the three helpers of the main window.
- **`MainWindow`** (`mainwindow.dfy`): the `CsoundQt` class over its list of pages.

Two branches of the orchestra scan do less than they appear to:

- **`;; ` outline labels.** The code has a branch that turns a `;; ` line into an outline label (src/inspector.cpp:153-157). The test for `;` before it (src/inspector.cpp:151-152) already catches every such line, so the branch is never reached. `OutlineFacts.OutlineLabelNeverTaken` states this.
- **The opcode map.** The header line inserts a copy of the opcode record into the map (src/inspector.cpp:177-178). The arguments read later from `xin`/`xout` fill in only the original record. The insert at `endop` is commented out (src/inspector.cpp:200-201), so the map keeps the header-time copy, and every map value has empty argument lists. `OutlineFacts.OutlineEntries` states this (`HeaderCopies`).

## Model

| member | source | states |
|---|---|---|
| Text.Trimmed | src/inspector.cpp:142 | the trimmed line is the slice of the line between its leading and its trailing run of whitespace: empty exactly when the line is all whitespace, otherwise starting and ending with a non-space |
| Text.SimplifiedShape | src/inspector.cpp:210 | a simplified line has the same words as the line, in order, with no whitespace at either end and exactly one space between words |
| Text.SimplifiedIdempotent | src/inspector.cpp:210 | simplifying an already simplified line changes nothing |
| Text.JoinSplit | src/inspector.cpp:119 | splitting the document at every `\n` and joining the pieces back gives the document again |
| Text.IndexOf | src/basedocument.cpp:73 | `indexOf` returns the first occurrence at or after `from`, or -1 exactly when there is none |
| Text.ContainsIndexOf | src/inspector.cpp:134 | a text contains a needle exactly when `indexOf` finds it |
| Text.Mid | src/inspector.cpp:161 | `mid(pos)` is the suffix from `pos`, and empty past the end |
| Outline.Append | src/inspector.cpp:162-163 | an instrument entry is added as the last child, and the category's own label, line and flag stay |
| Outline.AddEntry | src/inspector.cpp:171-175 | the category's line becomes that of its first child, and later children leave it alone |
| Outline.AppendToLast | src/inspector.cpp:213-214 | an `xin`/`xout` leaf goes at the end of the children of the last entry (the open opcode); the other entries are unchanged, and with no entry nothing changes |
| Outline.FindOpcodeHeader | src/inspector.cpp:167 | the leftmost match of `\bopcode\s+(\w+),`, or -1 exactly when no position matches |
| Outline.OpcodeName | src/inspector.cpp:168 | the captured name is the non-empty run of word characters that follows `opcode` and its blanks and is followed by `,` |
| Outline.FindXin | src/inspector.cpp:209 | the leftmost whole-word `xin`, or -1 exactly when there is none |
| Outline.FindXout | src/inspector.cpp:216 | the leftmost match of `\bxout\s+\b`, or -1 exactly when there is none |
| Outline.XoutEnd | src/inspector.cpp:217 | the `xout` match ends at a word character after at least one blank |
| Outline.FindOrcStart | src/inspector.cpp:121-127 | the first line matching `^\s*<CsInstruments>`, with no earlier line matching |
| Outline.ScanOrc | src/inspector.cpp:131-246 | the orchestra scan stops at a line index between its start and the number of lines |
| Outline.FindScore | src/inspector.cpp:248-256 | the first line at or after the orchestra's end whose trimmed text starts with `<CsScore>`, with none before it |
| Outline.PreviousExpansion | src/inspector.cpp:82-93 | five category flags are always read from the previous outline |
| Outline.RestoreExpansion | src/inspector.cpp:264-269 | each instrument whose label was remembered takes the remembered flag, and nothing else about it changes |
| OutlineFacts.ScanKeepsInv | src/inspector.cpp:131-246 | every orchestra line keeps the scan invariant: entries in line order, each pointing at a declaration of its kind, and the opcode map matching the Opcodes entries |
| OutlineFacts.OrchestraInv | src/inspector.cpp:131-246 | the invariant holds after the whole orchestra scan |
| OutlineFacts.OutlineShape | src/inspector.cpp:101-195 | the outline always has Opcodes, Macros, Instruments, F-tables and Score, in order; the line of Opcodes, Macros and F-tables is that of their first entry (-1 if none); Instruments has the orchestra's line; Score has no children; entries appear in source order |
| OutlineFacts.OutlineEntries | src/inspector.cpp:158-195 | every entry points at a line read as a declaration of its category; instruments carry the text after `instr `; the opcode map holds exactly the names declared, each as a bare record made at the header |
| OutlineFacts.OutlineDeclarations | src/inspector.cpp:131-195 | Opcodes, Macros, Instruments and F-tables each list exactly the declarations of their kind read at top level between `<CsInstruments>` and `</CsInstruments>`, with label and line, in order. A top-level line is outside any block comment, opcode body or instrument, and is neither blank, a tag nor a comment line |
| OutlineFacts.NoOrchestraNoEntries | src/inspector.cpp:121-127 | a document without a `<CsInstruments>` line gets five empty categories, all at line -1, and an empty opcode map |
| OutlineFacts.EmptyOrchestra | src/inspector.cpp:101-111 | a scan with no line to read leaves the five categories empty at line -1 |
| OutlineFacts.InstrumentsLine | src/inspector.cpp:121-127 | Instruments gets the 1-based line of the first `<CsInstruments>` line (-1 if none), and the scan starts on the line after it |
| OutlineFacts.ScanStopsAtEndTag | src/inspector.cpp:145-147 | the orchestra scan ends early only at a line whose trimmed text starts with `</CsInstruments>` |
| OutlineFacts.ScoreLine | src/inspector.cpp:248-256 | Score gets the 1-based line of the first `<CsScore>` line after the orchestra, or -1 exactly when there is none |
| OutlineFacts.CommentOpeningLineSkipped | src/inspector.cpp:138-141 | a line opening `/*` is skipped, and the comment stays open unless `*/` follows the opening |
| OutlineFacts.CommentRunSkipped | src/inspector.cpp:133-137 | inside a comment, lines up to and including the one holding `*/` are skipped, and the scan resumes after it |
| OutlineFacts.UnclosedCommentSkipsRest | src/inspector.cpp:133-137 | a comment never closed swallows the rest of the document, `</CsInstruments>` included |
| OutlineFacts.SkippedLines | src/inspector.cpp:142-152 | blank lines, `;` and `//` comments and tags other than `</CsInstruments>` change nothing |
| OutlineFacts.OutlineLabelNeverTaken | src/inspector.cpp:151-157 | a `;; ` line changes nothing: the `;` test catches it first |
| OutlineFacts.EndTagStops | src/inspector.cpp:145-147 | `</CsInstruments>` outside a comment ends the orchestra scan |
| OutlineFacts.XinCaptured | src/inspector.cpp:209-215 | the first `xin` of an opcode records the simplified text before it and adds the leaf `<args> xin`, leaving the map alone |
| OutlineFacts.XinCapturedOnce | src/inspector.cpp:209-223 | once the input arguments are set, a later line adds nothing unless it brings the first `xout` |
| OutlineFacts.XoutCaptureNonEmpty | src/inspector.cpp:216-217 | the `xout` capture is the simplified text after the match, and it is never empty |
| OutlineFacts.ExpansionTableLastWins | src/inspector.cpp:94-99 | the table knows a label exactly when a previous instrument had it, and holds the flag of the last one |
| OutlineFacts.ExpansionCarriedOver | src/inspector.cpp:258-269 | the categories keep their previous flags (a missing fourth or fifth item reads as collapsed); each instrument is expanded as the last previous one with its label was, and a new label stays collapsed |
| OutlineFacts.PyScanFlat | src/inspector.cpp:292-326 | Imports and Functions collect their lines independently of the class lines between them |
| OutlineFacts.PythonCategories | src/inspector.cpp:282-287 | the Python outline has exactly Imports, Classes and Functions, at line -1 and expanded |
| OutlineFacts.PythonImports | src/inspector.cpp:310-314 | Imports holds exactly the import lines that are neither class nor indented `def` lines, one simplified leaf each, in line order |
| OutlineFacts.PythonFunctions | src/inspector.cpp:315-325 | Functions holds exactly the top-level `def ` lines and the `##` lines, in line order |
| OutlineFacts.PythonClasses | src/inspector.cpp:293-309 | each class entry is an expanded `class ` line in line order, and its children are the indented `def` lines that follow it before the next class |
| OutlineFacts.PythonClassTree | src/inspector.cpp:293-309 | Classes is exactly one expanded entry per `class ` line, each holding the indented `def` lines up to the next `class ` line; indented `def` lines before the first class are dropped |
| OutlineFacts.PythonClassMembers | src/inspector.cpp:293-309 | a line has a class entry exactly when it is a `class ` line; a class entry holds exactly the indented `def` lines after it with no `class ` line in between |
| OutlineFacts.OrphanMethodDropped | src/inspector.cpp:303-308 | an indented `def` line with no `class ` line before it appears under no class |
| Inspection.Inspector.constructor | src/inspector.cpp:43-53 | a new inspector shows the five empty Csound categories with Opcodes and Instruments expanded, and an empty opcode map |
| Inspection.Inspector.ParseText | src/inspector.cpp:72-274 | the tree and the opcode map become the Csound outline of the text, given the previous tree |
| Inspection.Inspector.ParsePythonText | src/inspector.cpp:276-331 | the tree becomes the Python outline of the text, and the opcode map is untouched |
| Inspection.ScanCsound | src/inspector.cpp:119-269 | the line-by-line scan computes the outline function |
| Inspection.FindOrchestra | src/inspector.cpp:121-127 | the loop finds the Instruments line and the first orchestra line |
| Inspection.ScanOrchestra | src/inspector.cpp:131-246 | the orchestra loop computes the scan function, its state and its stop line |
| Inspection.FindScoreTag | src/inspector.cpp:248-256 | the score loop finds the first `<CsScore>` line |
| Inspection.RememberExpansion | src/inspector.cpp:94-99 | the loop builds the label-to-flag table |
| Inspection.RestoreExpansionOf | src/inspector.cpp:264-269 | the loop restores each remembered instrument's flag |
| Inspection.ScanPython | src/inspector.cpp:291-326 | the Python loop computes the scan function |
| Document.SuffixDecidesMode | src/basedocument.cpp:345-375 | whatever recognised suffix a name ends with selects its mode, whatever the order of the tests |
| Document.GenericExactly | src/basedocument.cpp:372-374 | the generic mode is chosen exactly for a non-empty name with none of the recognised suffixes |
| Document.UpperCaseCsd | src/basedocument.cpp:186 | `X.CSD` is edited in the generic mode, yet saved with its widget sections |
| Document.FirstPanel | src/basedocument.cpp:73-82 | no panel is found exactly when the text has no `<bsbPanel`, and a found panel lies within the text |
| Document.FoundIsPanel | src/basedocument.cpp:78-83 | the slice cut runs from an opening tag to the end of the first closing tag after it |
| Document.ExtractRestores | src/basedocument.cpp:72-88 | nothing is lost: putting the panels back into the remainder gives the text, whether or not extraction stopped at an unclosed panel |
| Document.ExtractedArePanels | src/basedocument.cpp:78-85 | every slice removed is a complete panel |
| Document.ExtractFinished | src/basedocument.cpp:72-77 | when extraction finishes, no `<bsbPanel` is left in the text |
| Document.ExtractIdempotent | src/basedocument.cpp:72-88 | extracting again from what a finished extraction left removes nothing |
| Document.NoPanelNoCut | src/basedocument.cpp:73-76 | a text without `<bsbPanel` is returned whole |
| Document.PresetsRestore | src/basedocument.cpp:112-123 | the presets cut run from the first `<bsbPresets>` to the end of the first `</bsbPresets>` after it, and inserting them back gives the text |
| Document.UnclosedPanelLoadsNothing | src/basedocument.cpp:78-82 | an unclosed panel makes the load return 0 and load nothing, yet the panels cut before it stay cut |
| Document.NoPanelLoadsDefault | src/basedocument.cpp:145-150 | without panels the default panel is loaded and the text is returned unchanged |
| Document.PanelsLoadFirst | src/basedocument.cpp:103-124 | with panels the count is returned and only the first panel is loaded; the presets are loaded when closed; the original is the remainder with the presets and panels put back |
| Document.FullText | src/basedocument.cpp:182-197 | a saved document starts with the editor text, and only a `.csd` or unnamed one carries the sections and a final newline |
| Document.FullTextOrder | src/basedocument.cpp:184-189 | the sections follow in order: editor text, widgets, presets |
| Document.ClearAll | src/basedocument.cpp:191-194 | every layout's widgets are cleared, once each, in order |
| Document.RemovePanels | src/basedocument.cpp:72-88 | the removal loop computes the extraction: its panels, its remainder, and whether it finished |
| Document.RemovePresets | src/basedocument.cpp:112-124 | the presets are cut only when closed, otherwise the text is left alone; a cut section runs from `<bsbPresets>` to `</bsbPresets>`, and putting it back at the first `<bsbPresets>` rebuilds the text |
| Document.BaseDocument.ParseAndRemoveWidgetText | src/basedocument.cpp:69-152 | the count, the remaining text and the calls made to the first layout are those of the splice function |
| Document.BaseDocument.GetFullText | src/basedocument.cpp:182-197 | the text saved is the full text, and a non-`.csd` document clears every layout |
| Document.BaseDocument.SetFileName | src/basedocument.cpp:345-375 | the name is stored and the mode is the one its suffix selects |
| NewLines.ChangeNewLines | src/qutecsound.cpp:5649-5656 | the two replace loops end with the byte-wise normalised text |
| NewLines.ReplaceCrLf | src/qutecsound.cpp:5651 | one pass of `\r\n` replacement never lengthens the text |
| NewLines.ReplaceCr | src/qutecsound.cpp:5654 | replacing `\r` leaves no `\r` and keeps every other byte |
| NewLines.NormalizedReplaceCrLf | src/qutecsound.cpp:5650-5652 | a pass of the first loop does not change the final result |
| NewLines.NormalizedHasNoCr | src/qutecsound.cpp:5653-5655 | no `\r` is left |
| NewLines.CrFreeUnchanged | src/qutecsound.cpp:5649-5656 | a buffer without `\r` is left as it is |
| NewLines.NormalizedIdempotent | src/qutecsound.cpp:5649-5656 | normalising twice is normalising once |
| NewLines.NormalizedPrefix | src/qutecsound.cpp:5649-5656 | a `\r`-free prefix is kept, and the rest is normalised on its own |
| NewLines.WindowsLines | src/qutecsound.cpp:5650-5652 | lines ended by `\r\n` come out ended by `\n` |
| NewLines.MacLines | src/qutecsound.cpp:5653-5655 | lines ended by `\r` come out ended by `\n` |
| NewLines.DoubledCrCollapses | src/qutecsound.cpp:5650-5652 | `\r\r\n` becomes a single `\n` |
| Geometry.SetWidth | src/qutecsound.cpp:6133 | `setWidth` gives the width asked for and keeps the left edge |
| Geometry.SetHeight | src/qutecsound.cpp:6137 | `setHeight` gives the height asked for and keeps the top edge |
| Geometry.SetX | src/qutecsound.cpp:6141 | `setX` keeps the right edge, so the width grows or shrinks by the move |
| Geometry.SetY | src/qutecsound.cpp:6145 | `setY` keeps the bottom edge, so the height changes by the move |
| Geometry.PanelGeometryAsWritten | src/qutecsound.cpp:6128-6150 | the position always ends in range; the size is kept or defaulted only when the position needed no fixing |
| Geometry.AsWrittenWidthLeavesRange | src/qutecsound.cpp:6140-6142 | a panel 400 wide at x = -5000 comes back with width -4620 |
| Geometry.AsWrittenDockedShrinks | src/qutecsound.cpp:6140-6147 | a docked panel, remembered at x = y = -1, comes back at (20, 0), 21 pixels narrower and one pixel shorter |
| Geometry.PanelGeometry | src/qutecsound.cpp:6128-6150 | every out-of-range size or position gets its default and every valid one is kept |
| Geometry.AsWrittenAgreesOnScreen | src/qutecsound.cpp:6132-6147 | the two checks agree whenever the remembered position is on screen |
| Geometry.ValidGeometryKept | src/qutecsound.cpp:6132-6147 | a rectangle already in range is kept exactly |
| Midi.Or8 | src/qutecsound.cpp:2834 | `|` on two bytes is their bitwise OR |
| Midi.Low8 | src/qutecsound.cpp:2836-2837 | storing an `int` in an `unsigned char` keeps a value that already fits |
| Midi.VirtualMidiIn | src/qutecsound.cpp:2833-2837 | a virtual key queues a three-byte message |
| Midi.VirtualCCIn | src/qutecsound.cpp:2844-2848 | a virtual controller queues a three-byte message |
| Midi.NoteStatus | src/qutecsound.cpp:2834 | for `on` 0 or 1 and channels 1-16 the status is `0x80 + 16·on + channel - 1` |
| Midi.VirtualNotes | src/qutecsound.cpp:2831-2838 | key 1 sends Note On and key 0 Note Off, on the channel below the one shown, with the note and velocity given |
| Midi.VirtualControls | src/qutecsound.cpp:2841-2849 | a controller sends Control Change on the channel below the one shown, with its number and value |
| Midi.OnTwoIsKeyPressure | src/qutecsound.cpp:2834 | `on` = 2 makes the message Polyphonic Key Pressure instead of a note |
| Midi.ChannelZeroIsSystemReset | src/qutecsound.cpp:2845 | channel 0 turns the status byte into 0xFF (System Reset), for notes and controllers alike |
| Midi.DecodeEncode | src/qutecsound.cpp:2833-2837 | the status-then-two-data-bytes layout decodes back to the message it encodes |
| MainWindow.SplitMode | src/qutecsound.cpp:2806-2824 | the view mode is a byte, and it is 0 exactly when the view is not split |
| MainWindow.SectionBitsRoundTrip | src/qutecsound.cpp:2809-2815 | each checked section gets its own bit, so the mode gives back the sections |
| MainWindow.SplitShowsChecked | src/qutecsound.cpp:2809-2818 | a split shows exactly the checked sections, or orchestra and score when none is checked |
| MainWindow.WithMidiCc | src/qutecsound.cpp:614-625 | setting the flags keeps the number of pages |
| MainWindow.TornDown | src/qutecsound.cpp:545-568 | with independent widget layouts, only the torn-down page's remembered rectangle changes, to the null `QRect()`; otherwise nothing changes |
| MainWindow.MidiCcAcceptance | src/qutecsound.cpp:614-625 | either every page accepts controller input or exactly the current one does, and nothing else about a page changes |
| MainWindow.Swap | src/qutecsound.cpp:1103 | the two pages trade places and every other page stays |
| MainWindow.SwapPermutes | src/qutecsound.cpp:1103 | moving a tab keeps the same pages |
| MainWindow.SwapTwice | src/qutecsound.cpp:1103 | moving a tab back restores the order |
| MainWindow.RemoveAt | src/qutecsound.cpp:1205 | the page is removed and the later pages move down one place |
| MainWindow.InsertAt | src/qutecsound.cpp:5818 | the new page is at the insertion point and the later pages move up one place |
| MainWindow.ClampPage | src/qutecsound.cpp:1208-1212 | the current index is kept if still valid, otherwise becomes the last page, and 0 when no page is left |
| MainWindow.TabSignal | src/qutecsound.cpp:1206 | removing a tab before the current one signals the tab below it; removing the current tab signals its right neighbour, or the new last tab, or nothing when none is left; removing a later tab signals nothing |
| MainWindow.DeleteKeepsCurrent | src/qutecsound.cpp:1205-1212 | closing any tab but the current one keeps the same document current; closing the current tab makes its right neighbour current, or its left one when it was last |
| MainWindow.LastSlash | src/qutecsound.cpp:6272 | the position of the last `/`, or -1 when there is none |
| MainWindow.BaseName | src/qutecsound.cpp:6272 | the name without its directory: the part of the full name after its last `/`, or the whole name when it has none |
| MainWindow.PushFacts | src/qutecsound.cpp:5851-5855 | prepending keeps the list within its bound, puts the name first and keeps it free of repeats |
| MainWindow.OpenRemembers | src/qutecsound.cpp:5851-5856 | opening a named, non-resource file puts it first, within the bound and without repeats; anything else leaves the list alone |
| MainWindow.AfterSaveAsWritten | src/qutecsound.cpp:5926-5930 | the list as the source writes it never changes length |
| MainWindow.SaveIntoEmptyListForgets | src/qutecsound.cpp:5926-5928 | saving with an empty list remembers nothing |
| MainWindow.SaveAsWrittenFacts | src/qutecsound.cpp:5926-5930 | a name already listed leaves the list alone; a new one goes first and pushes the last entry out; no repeats appear |
| MainWindow.SaveRemembers | src/qutecsound.cpp:5926-5930 | with the corrected rule a saved file is remembered first, within the bound and without repeats |
| MainWindow.SaveAgreesWhenFull | src/qutecsound.cpp:5926-5928 | the corrected rule and the source's rule agree once the list is full |
| MainWindow.CsoundQt.constructor | src/qutecsound.cpp:5072-5073 | a window starts with no page and the recent files from the settings |
| MainWindow.CsoundQt.MakeNewPage | src/qutecsound.cpp:5803-5858 | refused at the page limit, changing nothing; otherwise the page goes after the current one (or is the only one), its file is remembered, and the `changePage` that the tab signal runs makes it current: it alone takes controller input when that goes to the current page only, its rectangle goes through the panel check, and a `.csd` page becomes the current Csound page |
| MainWindow.CsoundQt.SaveFile | src/qutecsound.cpp:5920-5930 | the current page takes the name; the list follows the rule as written, keeps its bound and has no repeats |
| MainWindow.CsoundQt.ChangePage | src/qutecsound.cpp:536-626 | a negative index changes nothing; otherwise the page at `curPage` is torn down, the index becomes current, the page's panel geometry goes through the check as written, a `.csd` page becomes the current Csound page, and the MIDI controller flags are set, so that only the new current page accepts when controller input goes to the current page only |
| MainWindow.CsoundQt.SetMidiCcAcceptance | src/qutecsound.cpp:614-625 | the loop sets every page's flag as the acceptance rule says |
| MainWindow.CsoundQt.DeleteTab | src/qutecsound.cpp:1186-1212 | the page at the index (-1: the current one) is removed; the tab signal runs `changePage`, with its teardown, on the new current tab, if any; then the current index is pulled back into range |
| MainWindow.CsoundQt.TabMoved | src/qutecsound.cpp:1096-1106 | indices out of range change nothing; otherwise the pages trade places and `changePage` tears down and then shows the page now at `to`: it becomes current, alone accepts controller input when that goes to the current page only, becomes the current Csound page if it is a `.csd` file, and the inspector is marked for update |
| MainWindow.CsoundQt.SplitView | src/qutecsound.cpp:2806-2824 | only the current page's view mode changes |
| MainWindow.CsoundQt.VirtualMidiIn | src/qutecsound.cpp:2831-2839 | the note message is queued on the current page only |
| MainWindow.CsoundQt.VirtualCCIn | src/qutecsound.cpp:2841-2850 | the controller message is queued on the current page only |
| MainWindow.CsoundQt.IsOpen | src/qutecsound.cpp:6152-6163 | the first page with exactly this file name, or -1 exactly when none has it |
| MainWindow.CsoundQt.GetDocument | src/qutecsound.cpp:6265-6280 | the current page for an empty name; otherwise the first page whose full or base name matches, or -1 exactly when none does |

## Left out

- User interface. The model leaves out tree widgets, fonts, docks, tabs, menus, message boxes, cursors, debug output, timing and the inspector's mutex. Each outline item is a value holding its label, line, expansion flag and children.
- Pages are values in a sequence. The sharing of `DocumentPage` pointers, and everything a page does beyond its file name, controller flag, view mode, panel rectangle and MIDI queue, is not modelled.
- MainWindow.CsoundQt.constructor: the page limit `MAX_THREAD_COUNT` (32, src/qutecsound.cpp:75) is the parameter `maxOpen`. The recent-files bound `QCS_MAX_RECENT_FILES` is the parameter `maxRecent`: it is defined in types.h, which is not part of this model.
- MainWindow.CsoundQt.MakeNewPage: not modelled:
  - loading the text into the page, connecting actions and listeners;
  - inserting the tab, apart from the `changePage` its signal runs. The tab widget's current index is taken to be the previous `curPage`, so that selecting the new tab at `curPage` signals a change, as does inserting the first tab.
  - the page's editor mode, which `Document.BaseDocument.SetFileName` models;
  - the last-used directory.
- MainWindow.CsoundQt.SaveFile: writing the file, choosing between full and basic text, the outer-geometry update before saving, and the last-used directory are not modelled.
- MainWindow.CsoundQt.ChangePage: the teardown is modelled only for independent widget layouts (src/qutecsound.cpp:566-568), where it clears the page's rectangle.
  - With the shared widget panel, the panel's rectangle (x = y = -1 when docked, 558-563) goes to `widgetPanel->takeWidgetLayout`. That stores it in the layout the panel was showing; widgetpanel.cpp is not part of this model.
  - So when the page that becomes current is the page the panel was showing, the program checks that rectangle, while the model checks the page's remembered `outerGeometry`.
  - Showing widgets, the console, the run and record actions, the split-view action and the HTML view are not modelled either.
- MainWindow.CsoundQt.TabMoved: the geometry clause ignores the teardown write of the shared panel, as for `ChangePage`. When the page now at `to` is the one the panel was showing, as when the current tab is dragged, the program checks the panel's own rectangle rather than `old(pages)[from].outerGeometry`.
- MainWindow.CsoundQt.DeleteTab:
  - Stopping the page and detaching its listeners and its widget layout are not modelled.
  - The tab widget's current index is taken to be `curPage`.
  - What `removeTab` signals is Qt's behaviour, not code of this repository: `MainWindow.TabSignal` states it for Qt's default choice of the tab to the right of a removed current tab.
- NewLines.ChangeNewLines: the source edits the `QByteArray` in place; the model returns the new byte sequence.
- Midi.VirtualMidiIn:
  - The `QVariant` arguments are taken as already converted to `int`.
  - `on << 4` is taken as the mathematical product: the C `int` overflow of a huge `on` is not modelled.
  - Queuing into the page's MIDI handler is an append to the page's queue.
- Text.Trimmed: QChar whitespace is the fixed set of Unicode space characters.
- Outline.ImportWord: `\b` is decided with the ASCII word characters, while the QRegExp `\b` (src/inspector.cpp:310) treats every Unicode letter and digit as a word character. So `éimport x` counts as an import here but not in the program.
- Document.IsCsdName: `Qt::CaseInsensitive` is modelled by ASCII case folding only.
- Outline.FindOpcodeHeader: `\s` and `\w` are the ASCII classes, as PCRE matches them without Unicode properties.
- Inspection.Inspector.ParsePythonText: the bold font of class items is not modelled.
- Inspector item activation, focus and close events are outside this model.

## Findings

The class `MainWindow.CsoundQt` follows the code as written; each corrected rule is defined and proved beside it.

| source | as written | input that shows it | evidently intended | confidence | as-written member | corrected member |
|---|---|---|---|---|---|---|
| src/qutecsound.cpp:6140-6147 | an invalid x or y is fixed with `QRect::setX`/`setY`, which move only the left/top edge, so the width or height changes and can leave the range just checked | a docked panel is remembered at x = y = -1 (src/qutecsound.cpp:560-563), so each time its page becomes current it comes back 21 pixels narrower than remembered; a panel `QRect(-5000, 0, 400, 300)` comes back with width -4620 | move the panel to the default position and keep its (already checked) size | not executed | Geometry.PanelGeometryAsWritten, Geometry.AsWrittenDockedShrinks, Geometry.AsWrittenWidthLeavesRange | Geometry.PanelGeometry, Geometry.AsWrittenAgreesOnScreen |
| src/qutecsound.cpp:5926-5928 | a saved file is prepended and then the last entry is always removed, whatever the list's length | saving `a.csd` with an empty recent list leaves the list empty | drop the last entry only when the list grows past its bound, as `makeNewPage` does (src/qutecsound.cpp:5853-5854) | not executed | MainWindow.AfterSaveAsWritten, MainWindow.SaveIntoEmptyListForgets | MainWindow.AfterSave, MainWindow.SaveRemembers |
