/**
 * The inspector dock: it keeps the outline tree of the current document and
 * the map of user-defined opcodes, and rebuilds both from the text on demand.
 * Each rebuild is a line-by-line scan proved equal to the outline functions
 * of module Outline, whose properties module OutlineFacts proves.
 */
module Inspection {
  import opened Text
  import opened Outline

  class Inspector {
    /** The top-level items of the outline: five for a Csound document, three for Python. */
    var tree: seq<TreeNode>
    /** The user-defined opcodes found by the last Csound scan, by name. */
    var udosMap: map<string, Opcode>

    predicate Valid()
      reads this
    {
      |tree| == 5 || |tree| == 3
    }

    /** A new inspector shows the five empty Csound categories, Opcodes and
        Instruments expanded. */
    constructor()
      ensures Valid()
      ensures tree == InitialTree() && udosMap == map[]
    {
      tree := InitialTree();
      udosMap := map[];
    }

    /** Rebuild the Csound outline of `text`, keeping the expansion of the
        categories and of the instruments that keep their label. */
    method ParseText(text: string)
      requires Valid()
      modifies this
      ensures Valid()
      ensures tree == CsoundOutline(text, old(tree)).tree
      ensures udosMap == CsoundOutline(text, old(tree)).udos
    {
      udosMap := map[];
      var lines := CsoundLines(text);
      ghost var ls := ReadOrcLines(lines);
      ReadOrcLinesReadAs(lines);
      var outline := ScanCsound(lines, ls, tree);
      tree := outline.tree;
      udosMap := outline.udos;
    }

    /** Rebuild the outline as the three Python categories. The opcode map is
        left as it was. */
    method ParsePythonText(text: string)
      modifies this
      ensures Valid()
      ensures tree == PythonOutline(text) && udosMap == old(udosMap)
    {
      var lines := PythonLines(text);
      var st := ScanPython(lines);
      tree := [st.imports.(expanded := true), st.classes.(expanded := true), st.functions.(expanded := true)];
    }
  }

  /** The Csound scan of the document's lines: find the orchestra, scan it,
      find the score, then restore the expansion flags of the previous tree. */
  method ScanCsound(lines: seq<string>, ghost ls: seq<OrcLine>, prev: seq<TreeNode>) returns (outline: Parse)
    requires |prev| >= 3 && ReadAs(ls, lines)
    ensures outline == OutlineOf(ls, OrcTagLine(lines), OrchestraStart(lines), prev)
    ensures |outline.tree| == 5
  {
    var instrumentExpanded := RememberExpansion(prev[2].children);
    var orcLine, start := FindOrchestra(lines);
    var st, stop := ScanOrchestra(lines, ls, start, orcLine);
    var sc := FindScoreTag(lines, ls, stop);
    var ins := RestoreExpansionOf(st.instruments.children, instrumentExpanded);
    outline := Assemble(ls, |lines|, orcLine, start, prev, st, stop, sc, instrumentExpanded, ins);
  }

  /** The five categories: the scanned ones with their expansion flags taken
      from the previous tree, and the Score one on the `<CsScore>` line. */
  method Assemble(ghost ls: seq<OrcLine>, lineCount: nat, ghost orcLine: int, ghost start: nat, prev: seq<TreeNode>,
                  st: OrcState, ghost stop: nat, sc: nat, ghost table: map<string, bool>, ins: seq<TreeNode>)
    returns (outline: Parse)
    requires |prev| >= 3 && start <= |ls| && lineCount == |ls|
    requires ScanOrc(ls, start, InitialOrcState(orcLine)) == OrcResult(st, stop)
    requires sc == FindScore(ls, stop)
    requires table == ExpansionTable(prev[2].children)
    requires ins == RestoreExpansion(st.instruments.children, table)
    ensures outline == OutlineOf(ls, orcLine, start, prev)
    ensures |outline.tree| == 5
  {
    var flags := PreviousExpansion(prev);
    var score := st.score;
    if sc < lineCount {
      score := score.(line := sc + 1);
    }
    outline := Parse([st.opcodes.(expanded := flags[0]), st.macros.(expanded := flags[1]),
                      st.instruments.(children := ins, expanded := flags[2]),
                      st.ftables.(expanded := flags[3]), score.(expanded := flags[4])],
                     st.udos);
  }

  /** The expansion flag of each previous instrument, by label; a later
      duplicate label overrides an earlier one. */
  method RememberExpansion(before: seq<TreeNode>) returns (table: map<string, bool>)
    ensures table == ExpansionTable(before)
  {
    table := map[];
    var k := 0;
    while k < |before|
      invariant 0 <= k <= |before|
      invariant table == ExpansionTable(before[..k])
    {
      assert before[..k + 1][..k] == before[..k];
      table := table[before[k].text := before[k].expanded];
      k := k + 1;
    }
    assert before[..|before|] == before;
  }

  /** The line after the first `<CsInstruments>` tag, and its 1-based number
      (-1 and the end of the text when there is no tag). */
  method FindOrchestra(lines: seq<string>) returns (orcLine: int, start: nat)
    ensures orcLine == OrcTagLine(lines) && start == OrchestraStart(lines)
  {
    var i := 0;
    orcLine := -1;
    while i < |lines|
      invariant 0 <= i <= |lines|
      invariant FindOrcStart(lines, i) == FindOrcStart(lines, 0)
    {
      if OrcStartLine(lines[i]) {
        i := i + 1;
        orcLine := i;
        break;
      }
      i := i + 1;
    }
    start := i;
  }

  /** One orchestra line, numbered `lineNo`, read by the scanner. */
  method OrchestraLine(st: OrcState, l: OrcLine, lineNo: int) returns (step: Step)
    ensures step == OrcStep(st, l, lineNo)
  {
    if st.partOfComment {
      return Continue(st.(partOfComment := !l.closer));
    }
    if l.opener {
      return Continue(st.(partOfComment := !l.closedAfterOpener));
    }
    var t := l.trimmed;
    var next := st;
    if t == "" {
    } else if t[0] == '<' {
      if StartsWith(t, "</CsInstruments>") {
        return Stop;
      }
    } else if StartsWith(t, ";") || StartsWith(t, "//") {
    } else if StartsWith(t, ";; ") {
      next := AddUnderCurrent(st, Node(Trimmed(Mid(t, 2)), lineNo));
    } else if st.currentOpcode.None? && !st.inInstrument {
      next := TopLevelStep(st, l.head, lineNo);
    } else if st.currentOpcode.Some? {
      next := OpcodeBodyStep(st, l, lineNo);
    } else if StartsWith(t, "endin") {
      next := st.(inInstrument := false, currentItem := AtInstruments);
    }
    step := Continue(next);
  }

  /** The orchestra scan from line index `start`: the final state and the
      index where it stopped. */
  method ScanOrchestra(lines: seq<string>, ghost ls: seq<OrcLine>, start: nat, orcLine: int) returns (st: OrcState, stop: nat)
    requires start <= |lines| && ReadAs(ls, lines)
    ensures ScanOrc(ls, start, InitialOrcState(orcLine)) == OrcResult(st, stop)
  {
    st := InitialOrcState(orcLine);
    var i := start;
    while i < |lines|
      invariant start <= i <= |lines|
      invariant ScanOrc(ls, i, st) == ScanOrc(ls, start, InitialOrcState(orcLine))
    {
      var step := OrchestraLine(st, ReadOrcLine(lines[i]), i + 1);
      if step.Stop? {
        break;
      }
      st := step.next;
      i := i + 1;
    }
    stop := i;
  }

  /** The first line at or after `from` whose trimmed text starts with `<CsScore>`. */
  method FindScoreTag(lines: seq<string>, ghost ls: seq<OrcLine>, from: nat) returns (k: nat)
    requires from <= |lines| && ReadAs(ls, lines)
    ensures k == FindScore(ls, from)
  {
    k := from;
    while k < |lines|
      invariant from <= k <= |lines|
      invariant FindScore(ls, k) == FindScore(ls, from)
    {
      assert ls[k] == ReadOrcLine(lines[k]);
      if StartsWith(Trimmed(lines[k]), "<CsScore>") {
        break;
      }
      k := k + 1;
    }
  }

  /** Give each instrument whose label was remembered its previous flag. */
  method RestoreExpansionOf(children: seq<TreeNode>, table: map<string, bool>) returns (ins: seq<TreeNode>)
    ensures ins == RestoreExpansion(children, table)
  {
    ins := children;
    var j := 0;
    while j < |ins|
      invariant 0 <= j <= |ins| && |ins| == |children|
      invariant forall m :: 0 <= m < j ==> ins[m] == RestoreExpansion(children, table)[m]
      invariant forall m :: j <= m < |ins| ==> ins[m] == children[m]
    {
      if ins[j].text in table {
        ins := ins[j := ins[j].(expanded := table[ins[j].text])];
      }
      j := j + 1;
    }
  }

  /** One Python line, numbered `lineNo`, placed in the outline. */
  method PythonLine(st: PyState, line: string, lineNo: int) returns (next: PyState)
    ensures next == PyStep(st, ReadPyLine(line), lineNo)
  {
    var caption := Simplified(line);
    next := st;
    if StartsWith(Trimmed(line), "class ") {
      next := st.(classes := Append(st.classes, TreeNode(caption, lineNo, true, [])), hasParent := true);
    } else if IndentedDef(line) {
      if st.hasParent {
        next := st.(classes := AppendToLast(st.classes, Node(caption, lineNo)));
      }
    } else if ImportWord(Trimmed(line)) {
      next := st.(imports := Append(st.imports, Node(caption, lineNo)));
    } else if StartsWith(Trimmed(line), "def ") {
      next := st.(functions := Append(st.functions, Node(caption, lineNo)));
    } else if Contains(line, "##") {
      next := st.(functions := Append(st.functions, Node(caption, lineNo)));
    }
  }

  /** The Python scan over all lines. */
  method ScanPython(lines: seq<string>) returns (st: PyState)
    ensures st == PyScan(ReadPyLines(lines), 0, InitialPyState())
  {
    ghost var ls := ReadPyLines(lines);
    st := InitialPyState();
    var i := 0;
    while i < |lines|
      invariant 0 <= i <= |lines|
      invariant PyScan(ls, i, st) == PyScan(ls, 0, InitialPyState())
    {
      ReadPyLinesAt(lines, i);
      st := PythonLine(st, lines[i], i + 1);
      i := i + 1;
    }
  }
}
