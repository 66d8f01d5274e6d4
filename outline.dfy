/**
 * The Csound and Python outlines of the inspector dock, as functions of the
 * document text: the fixed category tree, the per-line state machine of the
 * orchestra scan, and what the scan promises about the tree and the map of
 * user-defined opcodes it rebuilds.
 */
module Outline {
  import opened Text

  datatype Option<T> = None | Some(value: T)

  /** One outline entry: its label, the 1-based line it jumps to (-1: none),
      its expansion flag and its children in insertion order. */
  datatype TreeNode = TreeNode(text: string, line: int, expanded: bool, children: seq<TreeNode>)

  /** A freshly created, collapsed entry without children. */
  function Node(caption: string, line: int): TreeNode {
    TreeNode(caption, line, false, [])
  }

  /** Append a child; the category's own line is left alone. */
  function Append(parent: TreeNode, child: TreeNode): (r: TreeNode)
    ensures r.children == parent.children + [child]
    ensures r.text == parent.text && r.line == parent.line && r.expanded == parent.expanded
  {
    parent.(children := parent.children + [child])
  }

  /** Append a child to a category whose line follows its first child. */
  function AddEntry(cat: TreeNode, child: TreeNode): (r: TreeNode)
    ensures r.children == cat.children + [child]
    ensures r.line == if cat.children == [] then child.line else cat.line
    ensures r.text == cat.text && r.expanded == cat.expanded
  {
    cat.(line := if cat.children == [] then child.line else cat.line,
         children := cat.children + [child])
  }

  /** Append a grandchild under the last child of `parent`; with no child
      there, nothing changes. */
  function AppendToLast(parent: TreeNode, child: TreeNode): (r: TreeNode)
    ensures |r.children| == |parent.children|
    ensures parent.children == [] ==> r == parent
    ensures parent.children != [] ==>
              var n := |parent.children|;
              && r.children[..n - 1] == parent.children[..n - 1]
              && r.children[n - 1].children == parent.children[n - 1].children + [child]
    ensures r.text == parent.text && r.line == parent.line && r.expanded == parent.expanded
    ensures forall k :: 0 <= k < |r.children| ==>
              r.children[k].text == parent.children[k].text && r.children[k].line == parent.children[k].line
              && r.children[k].expanded == parent.children[k].expanded
  {
    if parent.children == [] then parent
    else
      var n := |parent.children|;
      var last := parent.children[n - 1];
      parent.(children := parent.children[..n - 1] + [last.(children := last.children + [child])])
  }

  /** A user-defined opcode as the scanner records it. */
  datatype Opcode = Opcode(opcodeName: string, inArgs: string, outArgs: string)

  // ---------------------------------------------------------------------------
  // The regular expressions of the scanner, as explicit predicates.
  // ---------------------------------------------------------------------------

  /** The end of the run of `\s` characters starting at `i`. */
  function SpaceRunEnd(s: string, i: nat): (j: nat)
    requires i <= |s|
    ensures i <= j <= |s|
    ensures forall k :: i <= k < j ==> IsRegexSpace(s[k])
    ensures j < |s| ==> !IsRegexSpace(s[j])
    decreases |s| - i
  {
    if i == |s| || !IsRegexSpace(s[i]) then i else SpaceRunEnd(s, i + 1)
  }

  /** The end of the run of `\w` characters starting at `i`. */
  function WordRunEnd(s: string, i: nat): (j: nat)
    requires i <= |s|
    ensures i <= j <= |s|
    ensures forall k :: i <= k < j ==> IsWordChar(s[k])
    ensures j < |s| ==> !IsWordChar(s[j])
    decreases |s| - i
  {
    if i == |s| || !IsWordChar(s[i]) then i else WordRunEnd(s, i + 1)
  }

  /** `\b` in front of a word character at `p`. */
  predicate BoundaryBefore(s: string, p: nat)
    requires p <= |s|
  {
    p == 0 || !IsWordChar(s[p - 1])
  }

  /** `\b` after a word character ending at `p`. */
  predicate BoundaryAfter(s: string, p: nat)
    requires p <= |s|
  {
    p == |s| || !IsWordChar(s[p])
  }

  /** `\bopcode\s+(\w+),` matches at `p`. Both runs are maximal: a shorter
      `\s+` leaves a blank where `\w` is needed, a shorter `\w+` leaves a
      word character where `,` is needed. */
  predicate OpcodeHeaderAt(s: string, p: int) {
    && OccursAt(s, "opcode", p)
    && BoundaryBefore(s, p)
    && (var a := SpaceRunEnd(s, p + 6);
        && a > p + 6
        && (var b := WordRunEnd(s, a);
            b > a && b < |s| && s[b] == ','))
  }

  /** The captured opcode name of a header match: the line reads `opcode`,
      then blanks, then the name, then `,`. */
  function OpcodeName(s: string, p: int): (name: string)
    requires OpcodeHeaderAt(s, p)
    ensures name != [] && forall k :: 0 <= k < |name| ==> IsWordChar(name[k])
    ensures exists a :: && p + 6 < a && a + |name| < |s|
                        && (forall k :: p + 6 <= k < a ==> IsRegexSpace(s[k]))
                        && s[a..][..|name|] == name && s[a + |name|] == ','
  {
    var a := SpaceRunEnd(s, p + 6);
    var name := s[a..WordRunEnd(s, a)];
    assert s[a..][..|name|] == name;
    name
  }

  /** The leftmost match of the opcode header at or after `from`, or -1. */
  function FindOpcodeHeader(s: string, from: nat): (p: int)
    ensures p == -1 <==> forall k :: from <= k ==> !OpcodeHeaderAt(s, k)
    ensures p != -1 ==> from <= p && OpcodeHeaderAt(s, p)
    ensures p != -1 ==> forall k :: from <= k < p ==> !OpcodeHeaderAt(s, k)
    decreases |s| - from
  {
    if from > |s| then -1
    else if OpcodeHeaderAt(s, from) then from
    else FindOpcodeHeader(s, from + 1)
  }

  /** `\bxin\b` matches at `p`. */
  predicate XinAt(s: string, p: int) {
    OccursAt(s, "xin", p) && BoundaryBefore(s, p) && BoundaryAfter(s, p + 3)
  }

  function FindXin(s: string, from: nat): (p: int)
    ensures p == -1 <==> forall k :: from <= k ==> !XinAt(s, k)
    ensures p != -1 ==> from <= p && XinAt(s, p)
    ensures p != -1 ==> forall k :: from <= k < p ==> !XinAt(s, k)
    decreases |s| - from
  {
    if from > |s| then -1
    else if XinAt(s, from) then from
    else FindXin(s, from + 1)
  }

  /** `\bxout\s+\b` matches at `p`: the blanks must be followed by a word character. */
  predicate XoutAt(s: string, p: int) {
    && OccursAt(s, "xout", p)
    && BoundaryBefore(s, p)
    && (var a := SpaceRunEnd(s, p + 4);
        a > p + 4 && a < |s| && IsWordChar(s[a]))
  }

  /** Where a match of `\bxout\s+\b` at `p` ends. */
  function XoutEnd(s: string, p: int): (e: nat)
    requires XoutAt(s, p)
    ensures p + 4 < e < |s| && IsWordChar(s[e])
  {
    SpaceRunEnd(s, p + 4)
  }

  function FindXout(s: string, from: nat): (p: int)
    ensures p == -1 <==> forall k :: from <= k ==> !XoutAt(s, k)
    ensures p != -1 ==> from <= p && XoutAt(s, p)
    ensures p != -1 ==> forall k :: from <= k < p ==> !XoutAt(s, k)
    decreases |s| - from
  {
    if from > |s| then -1
    else if XoutAt(s, from) then from
    else FindXout(s, from + 1)
  }

  /** `^[\w]*[\s]*ftgen`: either `ftgen` starts inside the leading word run
      (no blanks taken), or right after the word run and the blank run. */
  predicate MatchesFtgen(s: string) {
    var w := WordRunEnd(s, 0);
    (exists j | 0 <= j <= w :: OccursAt(s, "ftgen", j)) || OccursAt(s, "ftgen", SpaceRunEnd(s, w))
  }

  /** `^\s*<CsInstruments>` on an untrimmed line. */
  predicate OrcStartLine(line: string) {
    OccursAt(line, "<CsInstruments>", SpaceRunEnd(line, 0))
  }

  // ---------------------------------------------------------------------------
  // One orchestra line, read once.
  // ---------------------------------------------------------------------------

  /** What a trimmed line declares when it is read at top level, tested in the
      scanner's order: `instr `, the opcode header, `#define`, the ftgen form. */
  datatype Head =
    | InstrHead(caption: string)
    | OpcodeHead(caption: string, name: string)
    | MacroHead(caption: string)
    | TableHead(caption: string)
    | NoHead

  /** Every test the scanner makes of one line: whether it holds the comment
      opener, whether it holds the closer anywhere and at or after the first
      opener, its trimmed text, its top-level reading, and the arguments an
      `xin` or `xout` match in it would capture. */
  datatype OrcLine = OrcLine(
    opener: bool,
    closer: bool,
    closedAfterOpener: bool,
    trimmed: string,
    head: Head,
    xin: Option<string>,
    xout: Option<string>)

  function ReadHead(t: string): Head {
    if StartsWith(t, "instr ") then InstrHead(Trimmed(Mid(t, 6)))
    else
      var p := FindOpcodeHeader(t, 0);
      if p != -1 then OpcodeHead(Mid(t, 7), OpcodeName(t, p))
      else if StartsWith(t, "#define") then MacroHead(Mid(t, 8))
      else if MatchesFtgen(t) then TableHead(t)
      else NoHead
  }

  function ReadOrcLine(raw: string): OrcLine {
    var c := IndexOf(raw, "/*", 0);
    var t := Trimmed(raw);
    var x := FindXin(t, 0);
    var y := FindXout(t, 0);
    OrcLine(c != -1, IndexOf(raw, "*/", 0) != -1, c != -1 && IndexOf(raw, "*/", c) != -1,
            t, ReadHead(t),
            if x != -1 then Some(Simplified(t[..x])) else None,
            if y != -1 then Some(Simplified(Mid(t, XoutEnd(t, y)))) else None)
  }

  /** Each line of the document, read. */
  function ReadOrcLines(lines: seq<string>): (ls: seq<OrcLine>)
    ensures |ls| == |lines|
  {
    if lines == [] then [] else [ReadOrcLine(lines[0])] + ReadOrcLines(lines[1..])
  }

  lemma {:induction false} ReadOrcLinesAt(lines: seq<string>, j: nat)
    requires j < |lines|
    ensures ReadOrcLines(lines)[j] == ReadOrcLine(lines[j])
  {
    if j > 0 {
      ReadOrcLinesAt(lines[1..], j - 1);
    }
  }

  /** `ls` holds the reading of each of `lines`. */
  predicate ReadAs(ls: seq<OrcLine>, lines: seq<string>) {
    |ls| == |lines| && forall j :: 0 <= j < |lines| ==> ls[j] == ReadOrcLine(lines[j])
  }

  lemma ReadOrcLinesReadAs(lines: seq<string>)
    ensures ReadAs(ReadOrcLines(lines), lines)
  {
    forall j | 0 <= j < |lines| ensures ReadOrcLines(lines)[j] == ReadOrcLine(lines[j]) {
      ReadOrcLinesAt(lines, j);
    }
  }

  // ---------------------------------------------------------------------------
  // The orchestra scan: a per-line state machine.
  // ---------------------------------------------------------------------------

  /** Where a `;; ` label line would be inserted. */
  datatype Insertion = AtInstruments | AtInstrument | AtOpcode | AtScore

  /** The five categories being rebuilt and the scanner's flags: inside a block
      comment, the opcode being read (if any), inside an instrument, the
      insertion point, and the opcode map. */
  datatype OrcState = OrcState(
    opcodes: TreeNode, macros: TreeNode, instruments: TreeNode, ftables: TreeNode, score: TreeNode,
    partOfComment: bool,
    currentOpcode: Option<Opcode>,
    inInstrument: bool,
    currentItem: Insertion,
    udos: map<string, Opcode>)

  datatype Step = Continue(next: OrcState) | Stop

  /** The state before the first orchestra line: five empty categories, the
      Instruments one carrying the line of the `<CsInstruments>` tag. */
  function InitialOrcState(orcLine: int): OrcState {
    OrcState(Node("Opcodes", -1), Node("Macros", -1), Node("Instruments", orcLine),
             Node("F-tables", -1), Node("Score", -1),
             false, None, false, AtInstruments, map[])
  }

  /** Insert a leaf under the current insertion point. */
  function AddUnderCurrent(st: OrcState, leaf: TreeNode): OrcState {
    match st.currentItem
    case AtInstruments => st.(instruments := Append(st.instruments, leaf))
    case AtInstrument => st.(instruments := AppendToLast(st.instruments, leaf))
    case AtOpcode => st.(opcodes := AppendToLast(st.opcodes, leaf))
    case AtScore => st.(score := Append(st.score, leaf))
  }

  /** A line at top level (no opcode and no instrument open). */
  function TopLevelStep(st: OrcState, head: Head, lineNo: int): OrcState {
    match head
    case InstrHead(caption) =>
      st.(instruments := Append(st.instruments, Node(caption, lineNo)),
          inInstrument := true,
          currentItem := AtInstrument)
    case OpcodeHead(caption, name) =>
      st.(opcodes := AddEntry(st.opcodes, Node(caption, lineNo)),
          currentItem := AtOpcode,
          currentOpcode := Some(Opcode(name, "", "")),
          udos := st.udos[name := Opcode(name, "", "")])
    case MacroHead(caption) => st.(macros := AddEntry(st.macros, Node(caption, lineNo)))
    case TableHead(caption) => st.(ftables := AddEntry(st.ftables, Node(caption, lineNo)))
    case NoHead => st
  }

  /** A line inside an opcode body: `endop` closes it; otherwise the first
      `xin` and the first `xout` each record their arguments once. */
  function OpcodeBodyStep(st: OrcState, l: OrcLine, lineNo: int): OrcState
    requires st.currentOpcode.Some?
  {
    if StartsWith(l.trimmed, "endop") then
      st.(currentOpcode := None, currentItem := AtInstruments)
    else
      var op := st.currentOpcode.value;
      if op.inArgs == "" && l.xin.Some? then
        var args := l.xin.value;
        AddUnderCurrent(st.(currentOpcode := Some(op.(inArgs := args))), Node(args + " xin", lineNo))
      else if op.outArgs == "" && l.xout.Some? then
        var args := l.xout.value;
        AddUnderCurrent(st.(currentOpcode := Some(op.(outArgs := args))), Node("xout " + args, lineNo))
      else st
  }

  /** One orchestra line, numbered `lineNo` (1-based). */
  function OrcStep(st: OrcState, l: OrcLine, lineNo: int): Step {
    if st.partOfComment then
      Continue(st.(partOfComment := !l.closer))
    else if l.opener then
      Continue(st.(partOfComment := !l.closedAfterOpener))
    else
      var t := l.trimmed;
      if t == "" then Continue(st)
      else if t[0] == '<' then
        (if StartsWith(t, "</CsInstruments>") then Stop else Continue(st))
      else if StartsWith(t, ";") || StartsWith(t, "//") then Continue(st)
      else if StartsWith(t, ";; ") then
        Continue(AddUnderCurrent(st, Node(Trimmed(Mid(t, 2)), lineNo)))
      else if st.currentOpcode.None? && !st.inInstrument then
        Continue(TopLevelStep(st, l.head, lineNo))
      else if st.currentOpcode.Some? then
        Continue(OpcodeBodyStep(st, l, lineNo))
      else if StartsWith(t, "endin") then
        Continue(st.(inInstrument := false, currentItem := AtInstruments))
      else Continue(st)
  }

  datatype OrcResult = OrcResult(state: OrcState, stop: nat)

  /** Scan lines `i..` until `</CsInstruments>` (the stop index is that line)
      or the end of the text (the stop index is the number of lines). */
  function ScanOrc(ls: seq<OrcLine>, i: nat, st: OrcState): (r: OrcResult)
    requires i <= |ls|
    ensures i <= r.stop <= |ls|
    decreases |ls| - i
  {
    if i == |ls| then OrcResult(st, i)
    else
      match OrcStep(st, ls[i], i + 1)
      case Stop => OrcResult(st, i)
      case Continue(next) => ScanOrc(ls, i + 1, next)
  }

  /** The first line at or after `i` matching `^\s*<CsInstruments>`, or the number of lines. */
  function FindOrcStart(lines: seq<string>, i: nat): (k: nat)
    requires i <= |lines|
    ensures i <= k <= |lines|
    ensures forall j :: i <= j < k ==> !OrcStartLine(lines[j])
    ensures k < |lines| ==> OrcStartLine(lines[k])
    decreases |lines| - i
  {
    if i == |lines| || OrcStartLine(lines[i]) then i else FindOrcStart(lines, i + 1)
  }

  /** The trimmed line starts with `<CsScore>`. */
  predicate ScoreTag(l: OrcLine) {
    StartsWith(l.trimmed, "<CsScore>")
  }

  /** The first line at or after `i` whose trimmed text starts with `<CsScore>`, or the number of lines. */
  function FindScore(ls: seq<OrcLine>, i: nat): (k: nat)
    requires i <= |ls|
    ensures i <= k <= |ls|
    ensures forall j :: i <= j < k ==> !ScoreTag(ls[j])
    ensures k < |ls| ==> ScoreTag(ls[k])
    decreases |ls| - i
  {
    if i == |ls| || ScoreTag(ls[i]) then i else FindScore(ls, i + 1)
  }

  /** The document split at every `\n`, empty pieces kept. */
  function CsoundLines(text: string): seq<string> {
    Split(text, {'\n'})
  }

  /** The line the Instruments category receives: that of the first `<CsInstruments>` tag, or -1. */
  function OrcTagLine(lines: seq<string>): int {
    var tag := FindOrcStart(lines, 0);
    if tag < |lines| then tag + 1 else -1
  }

  /** The index of the first orchestra line to scan: the one after the tag. */
  function OrchestraStart(lines: seq<string>): (k: nat)
    ensures k <= |lines|
  {
    var tag := FindOrcStart(lines, 0);
    if tag < |lines| then tag + 1 else |lines|
  }

  // ---------------------------------------------------------------------------
  // Expansion state carried over from the previous tree.
  // ---------------------------------------------------------------------------

  /** The five category expansion flags read from the previous top-level items:
      the first three always exist; a tree left by the Python outline has no
      fourth and fifth item, which then read as collapsed. */
  function PreviousExpansion(prev: seq<TreeNode>): (flags: seq<bool>)
    requires |prev| >= 3
    ensures |flags| == 5
  {
    [prev[0].expanded, prev[1].expanded, prev[2].expanded,
     if |prev| >= 5 then prev[3].expanded else false,
     if |prev| >= 5 then prev[4].expanded else false]
  }

  /** Label to expansion flag of the previous Instruments children, filled in
      order so that a later duplicate label overwrites an earlier one. */
  function ExpansionTable(items: seq<TreeNode>): (table: map<string, bool>)
  {
    if items == [] then map[]
    else
      var n := |items| - 1;
      ExpansionTable(items[..n])[items[n].text := items[n].expanded]
  }

  /** Give every child whose label is in `table` the recorded flag. */
  function RestoreExpansion(children: seq<TreeNode>, table: map<string, bool>): (r: seq<TreeNode>)
    ensures |r| == |children|
    ensures forall k :: 0 <= k < |r| ==>
              r[k] == children[k].(expanded := if children[k].text in table then table[children[k].text]
                                                 else children[k].expanded)
  {
    seq(|children|, k requires 0 <= k < |children| =>
      children[k].(expanded := if children[k].text in table then table[children[k].text]
                               else children[k].expanded))
  }

  datatype Parse = Parse(tree: seq<TreeNode>, udos: map<string, Opcode>)

  /** The Csound outline of `text`, given the previous top-level items. */
  function CsoundOutline(text: string, prev: seq<TreeNode>): Parse
    requires |prev| >= 3
  {
    OutlineOfLines(CsoundLines(text), prev)
  }

  /** The Csound outline of the document's lines. */
  function OutlineOfLines(lines: seq<string>, prev: seq<TreeNode>): Parse
    requires |prev| >= 3
  {
    OutlineOf(ReadOrcLines(lines), OrcTagLine(lines), OrchestraStart(lines), prev)
  }

  /** The outline of read lines whose orchestra starts at index `start`, the
      `<CsInstruments>` tag being on line `orcLine` (-1: none). */
  function OutlineOf(ls: seq<OrcLine>, orcLine: int, start: nat, prev: seq<TreeNode>): Parse
    requires start <= |ls| && |prev| >= 3
  {
    var res := ScanOrc(ls, start, InitialOrcState(orcLine));
    var st := res.state;
    var sc := FindScore(ls, res.stop);
    var score := if sc < |ls| then st.score.(line := sc + 1) else st.score;
    var flags := PreviousExpansion(prev);
    var instruments := st.instruments.(children := RestoreExpansion(st.instruments.children,
                                                                    ExpansionTable(prev[2].children)));
    Parse([st.opcodes.(expanded := flags[0]), st.macros.(expanded := flags[1]),
           instruments.(expanded := flags[2]), st.ftables.(expanded := flags[3]),
           score.(expanded := flags[4])],
          st.udos)
  }

  /** The items of a freshly constructed inspector: Opcodes and Instruments expanded. */
  function InitialTree(): seq<TreeNode> {
    [TreeNode("Opcodes", -1, true, []), Node("Macros", -1), TreeNode("Instruments", -1, true, []),
     Node("F-tables", -1), Node("Score", -1)]
  }

  // ---------------------------------------------------------------------------
  // The Python outline.
  // ---------------------------------------------------------------------------

  /** QRegExp `[\s]+def `: `def ` preceded by at least one blank. */
  predicate IndentedDef(s: string) {
    exists p | 1 <= p <= |s| :: IsSpace(s[p - 1]) && OccursAt(s, "def ", p)
  }

  /** QRegExp `\bimport\b`. */
  predicate ImportWord(s: string) {
    exists p | 0 <= p <= |s| :: OccursAt(s, "import", p) && BoundaryBefore(s, p) && BoundaryAfter(s, p + 6)
  }

  datatype PyKind = ClassLine | MethodLine | ImportLine | FunctionLine | MarkedLine | OtherLine

  /** The checks of the Python outline, in the order the scanner makes them. */
  function PyClassify(line: string): PyKind {
    if StartsWith(Trimmed(line), "class ") then ClassLine
    else if IndentedDef(line) then MethodLine
    else if ImportWord(Trimmed(line)) then ImportLine
    else if StartsWith(Trimmed(line), "def ") then FunctionLine
    else if Contains(line, "##") then MarkedLine
    else OtherLine
  }

  /** One Python line, read: its kind and its simplified text. */
  datatype PyLine = PyLine(kind: PyKind, caption: string)

  function ReadPyLine(line: string): PyLine {
    PyLine(PyClassify(line), Simplified(line))
  }

  function ReadPyLines(lines: seq<string>): (ls: seq<PyLine>)
    ensures |ls| == |lines|
  {
    if lines == [] then [] else [ReadPyLine(lines[0])] + ReadPyLines(lines[1..])
  }

  lemma {:induction false} ReadPyLinesAt(lines: seq<string>, j: nat)
    requires j < |lines|
    ensures ReadPyLines(lines)[j] == ReadPyLine(lines[j])
  {
    if j > 0 {
      ReadPyLinesAt(lines[1..], j - 1);
    }
  }

  /** Imports, Classes, Functions, and whether a class has been seen. */
  datatype PyState = PyState(imports: TreeNode, classes: TreeNode, functions: TreeNode, hasParent: bool)

  function InitialPyState(): PyState {
    PyState(Node("Imports", -1), Node("Classes", -1), Node("Functions", -1), false)
  }

  function PyStep(st: PyState, l: PyLine, lineNo: int): PyState {
    match l.kind
    case ClassLine =>
      st.(classes := Append(st.classes, TreeNode(l.caption, lineNo, true, [])), hasParent := true)
    case MethodLine =>
      if st.hasParent then st.(classes := AppendToLast(st.classes, Node(l.caption, lineNo))) else st
    case ImportLine => st.(imports := Append(st.imports, Node(l.caption, lineNo)))
    case FunctionLine => st.(functions := Append(st.functions, Node(l.caption, lineNo)))
    case MarkedLine => st.(functions := Append(st.functions, Node(l.caption, lineNo)))
    case OtherLine => st
  }

  function PyScan(ls: seq<PyLine>, i: nat, st: PyState): PyState
    requires i <= |ls|
    decreases |ls| - i
  {
    if i == |ls| then st else PyScan(ls, i + 1, PyStep(st, ls[i], i + 1))
  }

  /** The document split at every `\n` and at every `\r`. */
  function PythonLines(text: string): seq<string> {
    Split(text, {'\n', '\r'})
  }

  /** The Python outline of `text`: three expanded categories. */
  function PythonOutline(text: string): seq<TreeNode> {
    PyOutlineOfLines(PythonLines(text))
  }

  /** The Python outline of the document's lines. */
  function PyOutlineOfLines(lines: seq<string>): seq<TreeNode> {
    var st := PyScan(ReadPyLines(lines), 0, InitialPyState());
    [st.imports.(expanded := true), st.classes.(expanded := true), st.functions.(expanded := true)]
  }
}
