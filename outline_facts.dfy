/**
 * What the orchestra scan and the Python outline guarantee, proved about the
 * functions of module Outline.
 */
module OutlineFacts {
  import opened Text
  import opened Outline

  // ---------------------------------------------------------------------------
  // Shape of the rebuilt tree.
  // ---------------------------------------------------------------------------

  /** Entries appear in source order. */
  predicate Increasing(cs: seq<TreeNode>) {
    forall a, b :: 0 <= a < b < |cs| ==> cs[a].line < cs[b].line
  }

  /** No entry points past line `n`, given that entries are in order. */
  predicate LastAtMost(cs: seq<TreeNode>, n: int) {
    cs == [] || cs[|cs| - 1].line <= n
  }

  /** A category whose line is that of its first child, or -1 while it has none. */
  predicate FirstChildLine(cat: TreeNode) {
    cat.line == if cat.children == [] then -1 else cat.children[0].line
  }

  /** The four categories the orchestra scan fills. */
  datatype Category = Opcodes | Macros | Instruments | Tables

  function Title(kind: Category): string {
    match kind
    case Opcodes => "Opcodes"
    case Macros => "Macros"
    case Instruments => "Instruments"
    case Tables => "F-tables"
  }

  /** An entry of the category points at a line read as the declaration the
      category collects, and carries that declaration's label. */
  predicate Entry(ls: seq<OrcLine>, kind: Category, c: TreeNode) {
    1 <= c.line <= |ls| &&
    var h := ls[c.line - 1].head;
    match kind
    case Opcodes => h.OpcodeHead? && h.caption == c.text
    case Macros => h == MacroHead(c.text)
    case Instruments => h == InstrHead(c.text) && !c.expanded
    case Tables => h == TableHead(c.text)
  }

  /** What holds of one category after `n` lines: its title, its line rule,
      entries in order, none past line `n`, each a genuine declaration. */
  predicate CategoryInv(ls: seq<OrcLine>, n: int, kind: Category, cat: TreeNode) {
    && cat.text == Title(kind)
    && (kind != Instruments ==> FirstChildLine(cat))
    && Increasing(cat.children)
    && LastAtMost(cat.children, n)
    && forall k :: 0 <= k < |cat.children| ==> Entry(ls, kind, cat.children[k])
  }

  /** The name declared on the header line an Opcodes entry points at. */
  function EntryName(ls: seq<OrcLine>, c: TreeNode): string
    requires Entry(ls, Opcodes, c)
  {
    ls[c.line - 1].head.name
  }

  /** The flags agree with the insertion point: an open opcode is the last
      Opcodes child, an open instrument the last Instruments child. */
  predicate Consistent(st: OrcState) {
    && (st.currentOpcode.Some? ==> st.currentItem == AtOpcode && !st.inInstrument && st.opcodes.children != [])
    && (st.inInstrument ==> st.currentItem == AtInstrument && st.instruments.children != [])
    && (st.currentOpcode.None? && !st.inInstrument ==> st.currentItem == AtInstruments)
  }

  /** Every opcode-map value is the bare record made at the header line. */
  predicate HeaderCopies(udos: map<string, Opcode>) {
    forall name :: name in udos ==> udos[name] == Opcode(name, "", "")
  }

  /** The opcode map holds exactly the names declared by the Opcodes entries. */
  predicate MapMatchesEntries(ls: seq<OrcLine>, cs: seq<TreeNode>, udos: map<string, Opcode>)
    requires forall k :: 0 <= k < |cs| ==> Entry(ls, Opcodes, cs[k])
  {
    && (forall k :: 0 <= k < |cs| ==> EntryName(ls, cs[k]) in udos)
    && (forall name :: name in udos ==> exists k :: 0 <= k < |cs| && EntryName(ls, cs[k]) == name)
  }

  /** What holds of the scan state after `n` lines. */
  predicate ScanInv(ls: seq<OrcLine>, n: int, orcLine: int, st: OrcState) {
    && Consistent(st)
    && CategoryInv(ls, n, Opcodes, st.opcodes)
    && CategoryInv(ls, n, Macros, st.macros)
    && CategoryInv(ls, n, Instruments, st.instruments)
    && CategoryInv(ls, n, Tables, st.ftables)
    && st.instruments.line == orcLine
    && st.score == Node("Score", -1)
    && HeaderCopies(st.udos)
    && MapMatchesEntries(ls, st.opcodes.children, st.udos)
  }

  lemma PrefixOfPrefix(t: string, short: string, long: string)
    requires StartsWith(t, long) && StartsWith(long, short)
    ensures StartsWith(t, short)
  {
    assert t[..|short|] == t[..|long|][..|short|];
  }

  lemma CategoryWiden(ls: seq<OrcLine>, n: int, kind: Category, cat: TreeNode)
    requires CategoryInv(ls, n, kind, cat)
    ensures CategoryInv(ls, n + 1, kind, cat)
  {
  }

  /** A new entry at line `n + 1` keeps the category's invariant. */
  lemma CategoryAdd(ls: seq<OrcLine>, n: int, kind: Category, cat: TreeNode, c: TreeNode)
    requires CategoryInv(ls, n, kind, cat) && Entry(ls, kind, c) && c.line == n + 1
    ensures kind != Instruments ==> CategoryInv(ls, n + 1, kind, AddEntry(cat, c))
    ensures kind == Instruments ==> CategoryInv(ls, n + 1, kind, Append(cat, c))
  {
    var cs := cat.children + [c];
    assert forall k :: 0 <= k < |cat.children| ==> cs[k] == cat.children[k];
    assert cs[|cs| - 1] == c;
  }

  /** A grandchild under the last entry keeps the category's invariant. */
  lemma CategoryAppendToLast(ls: seq<OrcLine>, n: int, kind: Category, cat: TreeNode, leaf: TreeNode)
    requires CategoryInv(ls, n, kind, cat)
    ensures CategoryInv(ls, n + 1, kind, AppendToLast(cat, leaf))
    ensures forall k :: 0 <= k < |cat.children| ==>
              AppendToLast(cat, leaf).children[k].line == cat.children[k].line
              && AppendToLast(cat, leaf).children[k].text == cat.children[k].text
  {
    var r := AppendToLast(cat, leaf);
    assert forall k :: 0 <= k < |r.children| ==> Entry(ls, kind, r.children[k]) by {
      forall k | 0 <= k < |r.children| ensures Entry(ls, kind, r.children[k]) {
        assert Entry(ls, kind, cat.children[k]);
      }
    }
  }

  /** Entries with the same lines and labels declare the same names, so the map still matches. */
  lemma SameEntriesKeepMap(ls: seq<OrcLine>, cs: seq<TreeNode>, r: seq<TreeNode>, udos: map<string, Opcode>)
    requires |r| == |cs|
    requires forall k :: 0 <= k < |cs| ==> Entry(ls, Opcodes, cs[k])
    requires forall k :: 0 <= k < |r| ==> Entry(ls, Opcodes, r[k]) && r[k].line == cs[k].line
    requires MapMatchesEntries(ls, cs, udos)
    ensures MapMatchesEntries(ls, r, udos)
  {
    assert forall k :: 0 <= k < |r| ==> EntryName(ls, r[k]) == EntryName(ls, cs[k]);
    forall name | name in udos
      ensures exists k :: 0 <= k < |r| && EntryName(ls, r[k]) == name
    {
      var k :| 0 <= k < |cs| && EntryName(ls, cs[k]) == name;
      assert EntryName(ls, r[k]) == name;
    }
  }

  /** Adding under the open opcode keeps the invariant. */
  lemma AppendToOpcodeKeepsInv(ls: seq<OrcLine>, i: nat, orcLine: int, st: OrcState, op: Opcode, leaf: TreeNode)
    requires i < |ls| && ScanInv(ls, i, orcLine, st) && st.currentOpcode.Some?
    ensures ScanInv(ls, i + 1, orcLine, AddUnderCurrent(st.(currentOpcode := Some(op)), leaf))
  {
    var next := AddUnderCurrent(st.(currentOpcode := Some(op)), leaf);
    assert next == st.(currentOpcode := Some(op), opcodes := AppendToLast(st.opcodes, leaf));
    CategoryAppendToLast(ls, i, Opcodes, st.opcodes, leaf);
    SameEntriesKeepMap(ls, st.opcodes.children, next.opcodes.children, st.udos);
    CategoryWiden(ls, i, Macros, st.macros);
    CategoryWiden(ls, i, Instruments, st.instruments);
    CategoryWiden(ls, i, Tables, st.ftables);
  }

  /** A step that changes only the flags, consistently, keeps the invariant. */
  lemma FlagsOnlyKeepInv(ls: seq<OrcLine>, i: nat, orcLine: int, st: OrcState, next: OrcState)
    requires ScanInv(ls, i, orcLine, st) && Consistent(next)
    requires next.opcodes == st.opcodes && next.macros == st.macros && next.instruments == st.instruments
    requires next.ftables == st.ftables && next.score == st.score && next.udos == st.udos
    ensures ScanInv(ls, i + 1, orcLine, next)
  {
    CategoryWiden(ls, i, Opcodes, st.opcodes);
    CategoryWiden(ls, i, Macros, st.macros);
    CategoryWiden(ls, i, Instruments, st.instruments);
    CategoryWiden(ls, i, Tables, st.ftables);
  }

  /** A new opcode header keeps the map equal to the declared names. */
  lemma NewHeaderKeepsMap(ls: seq<OrcLine>, cs: seq<TreeNode>, udos: map<string, Opcode>, c: TreeNode, name: string)
    requires forall k :: 0 <= k < |cs| ==> Entry(ls, Opcodes, cs[k])
    requires MapMatchesEntries(ls, cs, udos) && HeaderCopies(udos)
    requires Entry(ls, Opcodes, c) && EntryName(ls, c) == name
    ensures var ns := cs + [c];
            (forall k :: 0 <= k < |ns| ==> Entry(ls, Opcodes, ns[k]))
            && MapMatchesEntries(ls, ns, udos[name := Opcode(name, "", "")])
            && HeaderCopies(udos[name := Opcode(name, "", "")])
  {
    var ns := cs + [c];
    assert forall k :: 0 <= k < |cs| ==> ns[k] == cs[k];
    assert ns[|cs|] == c;
    forall nm | nm in udos || nm == name
      ensures exists k :: 0 <= k < |ns| && EntryName(ls, ns[k]) == nm
    {
      if nm != name {
        var k :| 0 <= k < |cs| && EntryName(ls, cs[k]) == nm;
        assert EntryName(ls, ns[k]) == nm;
      } else {
        assert EntryName(ls, ns[|cs|]) == nm;
      }
    }
  }

  /** A declaration line read at top level keeps the invariant. */
  lemma TopLevelKeepsInv(ls: seq<OrcLine>, i: nat, orcLine: int, st: OrcState)
    requires i < |ls| && ScanInv(ls, i, orcLine, st)
    requires st.currentOpcode.None? && !st.inInstrument
    ensures ScanInv(ls, i + 1, orcLine, TopLevelStep(st, ls[i].head, i + 1))
  {
    match ls[i].head
    case InstrHead(caption) => InstrHeadKeepsInv(ls, i, orcLine, st, caption);
    case OpcodeHead(caption, name) => OpcodeHeadKeepsInv(ls, i, orcLine, st, caption, name);
    case MacroHead(caption) => MacroHeadKeepsInv(ls, i, orcLine, st, caption);
    case TableHead(caption) => TableHeadKeepsInv(ls, i, orcLine, st, caption);
    case NoHead => FlagsOnlyKeepInv(ls, i, orcLine, st, st);
  }

  lemma InstrHeadKeepsInv(ls: seq<OrcLine>, i: nat, orcLine: int, st: OrcState, caption: string)
    requires i < |ls| && ScanInv(ls, i, orcLine, st) && ls[i].head == InstrHead(caption)
    requires st.currentOpcode.None? && !st.inInstrument
    ensures ScanInv(ls, i + 1, orcLine, TopLevelStep(st, ls[i].head, i + 1))
  {
    CategoryWiden(ls, i, Opcodes, st.opcodes);
    CategoryWiden(ls, i, Macros, st.macros);
    CategoryWiden(ls, i, Tables, st.ftables);
    CategoryAdd(ls, i, Instruments, st.instruments, Node(caption, i + 1));
  }

  lemma OpcodeHeadKeepsInv(ls: seq<OrcLine>, i: nat, orcLine: int, st: OrcState, caption: string, name: string)
    requires i < |ls| && ScanInv(ls, i, orcLine, st) && ls[i].head == OpcodeHead(caption, name)
    requires st.currentOpcode.None? && !st.inInstrument
    ensures ScanInv(ls, i + 1, orcLine, TopLevelStep(st, ls[i].head, i + 1))
  {
    CategoryWiden(ls, i, Macros, st.macros);
    CategoryWiden(ls, i, Instruments, st.instruments);
    CategoryWiden(ls, i, Tables, st.ftables);
    CategoryAdd(ls, i, Opcodes, st.opcodes, Node(caption, i + 1));
    NewHeaderKeepsMap(ls, st.opcodes.children, st.udos, Node(caption, i + 1), name);
  }

  lemma MacroHeadKeepsInv(ls: seq<OrcLine>, i: nat, orcLine: int, st: OrcState, caption: string)
    requires i < |ls| && ScanInv(ls, i, orcLine, st) && ls[i].head == MacroHead(caption)
    requires st.currentOpcode.None? && !st.inInstrument
    ensures ScanInv(ls, i + 1, orcLine, TopLevelStep(st, ls[i].head, i + 1))
  {
    CategoryWiden(ls, i, Opcodes, st.opcodes);
    CategoryWiden(ls, i, Instruments, st.instruments);
    CategoryWiden(ls, i, Tables, st.ftables);
    CategoryAdd(ls, i, Macros, st.macros, Node(caption, i + 1));
  }

  lemma TableHeadKeepsInv(ls: seq<OrcLine>, i: nat, orcLine: int, st: OrcState, caption: string)
    requires i < |ls| && ScanInv(ls, i, orcLine, st) && ls[i].head == TableHead(caption)
    requires st.currentOpcode.None? && !st.inInstrument
    ensures ScanInv(ls, i + 1, orcLine, TopLevelStep(st, ls[i].head, i + 1))
  {
    CategoryWiden(ls, i, Opcodes, st.opcodes);
    CategoryWiden(ls, i, Macros, st.macros);
    CategoryWiden(ls, i, Instruments, st.instruments);
    CategoryAdd(ls, i, Tables, st.ftables, Node(caption, i + 1));
  }

  /** One orchestra line keeps the invariant. */
  lemma StepKeepsInv(ls: seq<OrcLine>, i: nat, orcLine: int, st: OrcState)
    requires i < |ls| && ScanInv(ls, i, orcLine, st)
    requires OrcStep(st, ls[i], i + 1).Continue?
    ensures ScanInv(ls, i + 1, orcLine, OrcStep(st, ls[i], i + 1).next)
  {
    var l := ls[i];
    var t := l.trimmed;
    var next := OrcStep(st, l, i + 1).next;
    if st.partOfComment || l.opener || t == "" || t[0] == '<' || StartsWith(t, ";") || StartsWith(t, "//") {
      FlagsOnlyKeepInv(ls, i, orcLine, st, next);
    } else if StartsWith(t, ";; ") {
      PrefixOfPrefix(t, ";", ";; ");
      assert false;
    } else if st.currentOpcode.None? && !st.inInstrument {
      TopLevelKeepsInv(ls, i, orcLine, st);
    } else if st.currentOpcode.None? {
      FlagsOnlyKeepInv(ls, i, orcLine, st, next);
    } else {
      OpcodeBodyKeepsInv(ls, i, orcLine, st);
    }
  }

  lemma OpcodeBodyKeepsInv(ls: seq<OrcLine>, i: nat, orcLine: int, st: OrcState)
    requires i < |ls| && ScanInv(ls, i, orcLine, st) && st.currentOpcode.Some?
    ensures ScanInv(ls, i + 1, orcLine, OpcodeBodyStep(st, ls[i], i + 1))
  {
    var l := ls[i];
    var op := st.currentOpcode.value;
    var next := OpcodeBodyStep(st, l, i + 1);
    if StartsWith(l.trimmed, "endop") || !((op.inArgs == "" && l.xin.Some?) || (op.outArgs == "" && l.xout.Some?)) {
      FlagsOnlyKeepInv(ls, i, orcLine, st, next);
    } else if op.inArgs == "" && l.xin.Some? {
      AppendToOpcodeKeepsInv(ls, i, orcLine, st, op.(inArgs := l.xin.value), Node(l.xin.value + " xin", i + 1));
    } else {
      AppendToOpcodeKeepsInv(ls, i, orcLine, st, op.(outArgs := l.xout.value), Node("xout " + l.xout.value, i + 1));
    }
  }

  /** The whole orchestra scan keeps the invariant. */
  lemma {:induction false} ScanKeepsInv(ls: seq<OrcLine>, i: nat, orcLine: int, st: OrcState)
    requires i <= |ls| && ScanInv(ls, i, orcLine, st)
    ensures ScanInv(ls, |ls|, orcLine, ScanOrc(ls, i, st).state)
    decreases |ls| - i
  {
    if i < |ls| {
      match OrcStep(st, ls[i], i + 1)
      case Stop =>
        CategoryWidenTo(ls, i, |ls|, st);
      case Continue(next) =>
        StepKeepsInv(ls, i, orcLine, st);
        ScanKeepsInv(ls, i + 1, orcLine, next);
    }
  }

  lemma CategoryWidenTo(ls: seq<OrcLine>, n: int, m: int, st: OrcState)
    requires n <= m
    ensures CategoryInv(ls, n, Opcodes, st.opcodes) ==> CategoryInv(ls, m, Opcodes, st.opcodes)
    ensures CategoryInv(ls, n, Macros, st.macros) ==> CategoryInv(ls, m, Macros, st.macros)
    ensures CategoryInv(ls, n, Instruments, st.instruments) ==> CategoryInv(ls, m, Instruments, st.instruments)
    ensures CategoryInv(ls, n, Tables, st.ftables) ==> CategoryInv(ls, m, Tables, st.ftables)
  {
  }

  lemma OrchestraInv(ls: seq<OrcLine>, orcLine: int, start: nat)
    requires start <= |ls|
    ensures ScanInv(ls, |ls|, orcLine, ScanOrc(ls, start, InitialOrcState(orcLine)).state)
  {
    var st0 := InitialOrcState(orcLine);
    assert ScanInv(ls, start, orcLine, st0);
    ScanKeepsInv(ls, start, orcLine, st0);
  }

  /** The outline's five items are the scan's categories with their flags
      set, the instruments' own flags restored from the previous tree. */
  lemma OutlineParts(ls: seq<OrcLine>, orcLine: int, start: nat, prev: seq<TreeNode>)
    requires start <= |ls| && |prev| >= 3
    ensures var st := ScanOrc(ls, start, InitialOrcState(orcLine)).state;
            var r := OutlineOf(ls, orcLine, start, prev);
            && |r.tree| == 5 && r.udos == st.udos
            && r.tree[0].text == st.opcodes.text && r.tree[0].line == st.opcodes.line
            && r.tree[0].children == st.opcodes.children
            && r.tree[1].text == st.macros.text && r.tree[1].line == st.macros.line
            && r.tree[1].children == st.macros.children
            && r.tree[2].text == st.instruments.text && r.tree[2].line == st.instruments.line
            && r.tree[2].children == RestoreExpansion(st.instruments.children, ExpansionTable(prev[2].children))
            && r.tree[3].text == st.ftables.text && r.tree[3].line == st.ftables.line
            && r.tree[3].children == st.ftables.children
            && r.tree[4].text == st.score.text && r.tree[4].children == st.score.children
  {
  }

  /** The Csound outline always has the five categories, in order; Opcodes,
      Macros and F-tables carry the line of their first child (-1 when empty)
      and Instruments that of the `<CsInstruments>` tag; the Score category
      has no children, and every category lists its entries in source order. */
  lemma OutlineShape(ls: seq<OrcLine>, orcLine: int, start: nat, prev: seq<TreeNode>)
    requires start <= |ls| && |prev| >= 3
    ensures var r := OutlineOf(ls, orcLine, start, prev);
            && |r.tree| == 5
            && r.tree[0].text == "Opcodes" && r.tree[1].text == "Macros" && r.tree[2].text == "Instruments"
            && r.tree[3].text == "F-tables" && r.tree[4].text == "Score"
            && FirstChildLine(r.tree[0]) && FirstChildLine(r.tree[1]) && FirstChildLine(r.tree[3])
            && r.tree[2].line == orcLine
            && r.tree[4].children == []
            && Increasing(r.tree[0].children) && Increasing(r.tree[1].children)
            && Increasing(r.tree[2].children) && Increasing(r.tree[3].children)
  {
    OrchestraInv(ls, orcLine, start);
    OutlineParts(ls, orcLine, start, prev);
  }

  /** Every entry points at a line read as the declaration its category
      collects and carries that declaration's label; the opcode map holds
      exactly the names the Opcodes entries declare, each mapped to the bare
      record made at the header line, so the arguments read later from
      `xin`/`xout` never reach the map. */
  lemma OutlineEntries(ls: seq<OrcLine>, orcLine: int, start: nat, prev: seq<TreeNode>)
    requires start <= |ls| && |prev| >= 3
    ensures var r := OutlineOf(ls, orcLine, start, prev);
            && |r.tree| == 5
            && (forall k :: 0 <= k < |r.tree[0].children| ==> Entry(ls, Opcodes, r.tree[0].children[k]))
            && (forall k :: 0 <= k < |r.tree[1].children| ==> Entry(ls, Macros, r.tree[1].children[k]))
            && (forall k :: 0 <= k < |r.tree[2].children| ==>
                  var c := r.tree[2].children[k];
                  1 <= c.line <= |ls| && ls[c.line - 1].head == InstrHead(c.text))
            && (forall k :: 0 <= k < |r.tree[3].children| ==> Entry(ls, Tables, r.tree[3].children[k]))
            && HeaderCopies(r.udos)
            && MapMatchesEntries(ls, r.tree[0].children, r.udos)
  {
    OrchestraInv(ls, orcLine, start);
    OutlineParts(ls, orcLine, start, prev);
    var st := ScanOrc(ls, start, InitialOrcState(orcLine)).state;
    RestoredInstruments(ls, st.instruments.children, ExpansionTable(prev[2].children));
  }

  /** Restoring the expansion flags keeps each instrument's line and label. */
  lemma RestoredInstruments(ls: seq<OrcLine>, ins: seq<TreeNode>, table: map<string, bool>)
    requires forall k :: 0 <= k < |ins| ==> Entry(ls, Instruments, ins[k])
    ensures var r := RestoreExpansion(ins, table);
            forall k :: 0 <= k < |r| ==> 1 <= r[k].line <= |ls| && ls[r[k].line - 1].head == InstrHead(r[k].text)
  {
    var r := RestoreExpansion(ins, table);
    forall k | 0 <= k < |r|
      ensures 1 <= r[k].line <= |ls| && ls[r[k].line - 1].head == InstrHead(r[k].text)
    {
      assert r[k].line == ins[k].line && r[k].text == ins[k].text;
      assert Entry(ls, Instruments, ins[k]);
    }
  }

  /** How a line is read: the record holds the line's comment markers, its
      trimmed text and the top-level reading of that text. */
  lemma ReadOrcLineMeaning(raw: string)
    ensures ReadOrcLine(raw).opener <==> Contains(raw, "/*")
    ensures ReadOrcLine(raw).closer <==> Contains(raw, "*/")
    ensures ReadOrcLine(raw).trimmed == Trimmed(raw)
    ensures ReadOrcLine(raw).head == ReadHead(Trimmed(raw))
  {
    ContainsIndexOf(raw, "/*");
    ContainsIndexOf(raw, "*/");
  }

  /** How a line's top-level reading follows from its trimmed text, tested in order. */
  lemma HeadMeaning(t: string)
    ensures ReadHead(t).InstrHead? <==> StartsWith(t, "instr ")
    ensures ReadHead(t).InstrHead? ==> ReadHead(t).caption == Trimmed(Mid(t, 6))
    ensures ReadHead(t).OpcodeHead? <==> !StartsWith(t, "instr ") && FindOpcodeHeader(t, 0) != -1
    ensures ReadHead(t).OpcodeHead? ==>
              ReadHead(t).caption == Mid(t, 7) && ReadHead(t).name == OpcodeName(t, FindOpcodeHeader(t, 0))
    ensures ReadHead(t).MacroHead? <==>
              !StartsWith(t, "instr ") && FindOpcodeHeader(t, 0) == -1 && StartsWith(t, "#define")
    ensures ReadHead(t).MacroHead? ==> ReadHead(t).caption == Mid(t, 8)
    ensures ReadHead(t).TableHead? <==>
              !StartsWith(t, "instr ") && FindOpcodeHeader(t, 0) == -1 && !StartsWith(t, "#define") && MatchesFtgen(t)
    ensures ReadHead(t).TableHead? ==> ReadHead(t).caption == t
  {
  }

  // ---------------------------------------------------------------------------
  // The orchestra section and the score tag.
  // ---------------------------------------------------------------------------

  /** Without a `<CsInstruments>` line no line is classified: all five
      categories stay empty with line -1, and the opcode map is empty. */
  lemma NoOrchestraNoEntries(lines: seq<string>, prev: seq<TreeNode>)
    requires |prev| >= 3
    requires forall j :: 0 <= j < |lines| ==> !OrcStartLine(lines[j])
    ensures var r := OutlineOfLines(lines, prev);
            |r.tree| == 5
            && (forall k :: 0 <= k < 5 ==> r.tree[k].children == [] && r.tree[k].line == -1)
            && r.udos == map[]
  {
    assert FindOrcStart(lines, 0) == |lines|;
    var ls := ReadOrcLines(lines);
    assert OutlineOfLines(lines, prev) == OutlineOf(ls, -1, |ls|, prev);
    EmptyOrchestra(ls, prev);
  }

  /** A scan that starts past the last line leaves every category empty. */
  lemma EmptyOrchestra(ls: seq<OrcLine>, prev: seq<TreeNode>)
    requires |prev| >= 3
    ensures var r := OutlineOf(ls, -1, |ls|, prev);
            |r.tree| == 5
            && (forall k :: 0 <= k < 5 ==> r.tree[k].children == [] && r.tree[k].line == -1)
            && r.udos == map[]
  {
    assert ScanOrc(ls, |ls|, InitialOrcState(-1)) == OrcResult(InitialOrcState(-1), |ls|);
    assert FindScore(ls, |ls|) == |ls|;
  }

  /** The Instruments category gets the 1-based line of the first line
      matching `^\s*<CsInstruments>`, and -1 exactly when there is none; the
      scan starts on the line after it. */
  lemma InstrumentsLine(lines: seq<string>)
    ensures var L := OrcTagLine(lines);
            && (L == -1 <==> forall j :: 0 <= j < |lines| ==> !OrcStartLine(lines[j]))
            && (L != -1 ==> 1 <= L <= |lines| && OrcStartLine(lines[L - 1]) && OrchestraStart(lines) == L
                            && forall j :: 0 <= j < L - 1 ==> !OrcStartLine(lines[j]))
  {
  }

  /** The scan stops early only at a line whose trimmed text starts with `</CsInstruments>`. */
  lemma {:induction false} ScanStopsAtEndTag(ls: seq<OrcLine>, i: nat, st: OrcState)
    requires i <= |ls|
    ensures var r := ScanOrc(ls, i, st);
            r.stop < |ls| ==> StartsWith(ls[r.stop].trimmed, "</CsInstruments>")
    decreases |ls| - i
  {
    if i < |ls| {
      match OrcStep(st, ls[i], i + 1)
      case Stop =>
      case Continue(next) => ScanStopsAtEndTag(ls, i + 1, next);
    }
  }

  /** The Score category gets the 1-based line of the first line, at or after
      the one where the orchestra scan stopped, whose trimmed text starts with
      `<CsScore>`; -1 exactly when there is none. That stopping line is the
      `</CsInstruments>` line, or the end of the text. */
  lemma ScoreLine(ls: seq<OrcLine>, orcLine: int, start: nat, prev: seq<TreeNode>)
    requires start <= |ls| && |prev| >= 3
    ensures var stop := ScanOrc(ls, start, InitialOrcState(orcLine)).stop;
            var L := OutlineOf(ls, orcLine, start, prev).tree[4].line;
            && (stop < |ls| ==> StartsWith(ls[stop].trimmed, "</CsInstruments>"))
            && (L == -1 <==> forall j :: stop <= j < |ls| ==> !ScoreTag(ls[j]))
            && (L != -1 ==> stop < L <= |ls| && ScoreTag(ls[L - 1])
                            && forall j :: stop <= j < L - 1 ==> !ScoreTag(ls[j]))
  {
    OrchestraInv(ls, orcLine, start);
    ScanStopsAtEndTag(ls, start, InitialOrcState(orcLine));
    var res := ScanOrc(ls, start, InitialOrcState(orcLine));
    var sc := FindScore(ls, res.stop);
    assert res.state.score.line == -1;
    assert OutlineOf(ls, orcLine, start, prev).tree[4].line == if sc < |ls| then sc + 1 else -1;
  }

  // ---------------------------------------------------------------------------
  // Block comments and skipped lines.
  // ---------------------------------------------------------------------------

  // A line holding the comment opener is skipped whole, even when the closer
  // follows on it; the comment stays open exactly when no closer starts at or
  // after the first opener.
  lemma CommentOpeningLineSkipped(st: OrcState, raw: string, n: int)
    requires !st.partOfComment && Contains(raw, "/*")
    ensures var c := IndexOf(raw, "/*", 0);
            OrcStep(st, ReadOrcLine(raw), n)
              == Continue(st.(partOfComment := forall k :: c <= k ==> !OccursAt(raw, "*/", k)))
  {
    ContainsIndexOf(raw, "/*");
  }

  // Inside an open comment every line is skipped up to and including the
  // first one holding the closer; the scan then goes on with the comment closed.
  lemma {:induction false} CommentRunSkipped(ls: seq<OrcLine>, i: nat, j: nat, st: OrcState)
    requires i <= j < |ls| && st.partOfComment
    requires forall k :: i <= k < j ==> !ls[k].closer
    requires ls[j].closer
    ensures ScanOrc(ls, i, st) == ScanOrc(ls, j + 1, st.(partOfComment := false))
    decreases j - i
  {
    if i < j {
      assert st.(partOfComment := true) == st;
      CommentRunSkipped(ls, i + 1, j, st);
    }
  }

  /** A comment that is never closed swallows the rest of the orchestra, `</CsInstruments>` included. */
  lemma {:induction false} UnclosedCommentSkipsRest(ls: seq<OrcLine>, i: nat, st: OrcState)
    requires i <= |ls| && st.partOfComment
    requires forall k :: i <= k < |ls| ==> !ls[k].closer
    ensures ScanOrc(ls, i, st) == OrcResult(st, |ls|)
    decreases |ls| - i
  {
    if i < |ls| {
      assert st.(partOfComment := true) == st;
      UnclosedCommentSkipsRest(ls, i + 1, st);
    }
  }

  /** Outside comments, blank lines, lines starting with `;` or `//` and tags
      other than `</CsInstruments>` change nothing. */
  lemma SkippedLines(st: OrcState, l: OrcLine, n: int)
    requires !st.partOfComment && !l.opener
    requires var t := l.trimmed;
             t == "" || StartsWith(t, ";") || StartsWith(t, "//")
             || (StartsWith(t, "<") && !StartsWith(t, "</CsInstruments>"))
    ensures OrcStep(st, l, n) == Continue(st)
  {
  }

  /** A `;; ` outline label is a `;` comment first: the label branch is never taken. */
  lemma OutlineLabelNeverTaken(st: OrcState, l: OrcLine, n: int)
    requires !st.partOfComment && !l.opener
    requires StartsWith(l.trimmed, ";; ")
    ensures OrcStep(st, l, n) == Continue(st)
  {
    PrefixOfPrefix(l.trimmed, ";", ";; ");
  }

  /** `</CsInstruments>` outside a comment ends the orchestra scan. */
  lemma EndTagStops(st: OrcState, l: OrcLine, n: int)
    requires !st.partOfComment && !l.opener
    requires StartsWith(l.trimmed, "</CsInstruments>")
    ensures OrcStep(st, l, n) == Stop
  {
    assert l.trimmed[0] == "</CsInstruments>"[0];
  }

  // ---------------------------------------------------------------------------
  // Opcode bodies.
  // ---------------------------------------------------------------------------

  /** While `inArgs` is empty, the first `xin` match sets it to the simplified
      text in front of the match and adds the leaf `<inArgs> xin` under the
      opcode's entry. */
  lemma XinCaptured(st: OrcState, raw: string, n: int)
    requires st.currentOpcode.Some? && st.currentItem == AtOpcode && st.currentOpcode.value.inArgs == ""
    requires var t := Trimmed(raw); !StartsWith(t, "endop") && FindXin(t, 0) != -1
    ensures var t := Trimmed(raw);
            var args := Simplified(t[..FindXin(t, 0)]);
            var next := OpcodeBodyStep(st, ReadOrcLine(raw), n);
            && next.currentOpcode == Some(st.currentOpcode.value.(inArgs := args))
            && next.opcodes == AppendToLast(st.opcodes, Node(args + " xin", n))
            && next.udos == st.udos
  {
  }

  /** Once `inArgs` is non-empty, a later `xin` line adds nothing (unless it
      also holds the first `xout`): only the first capture is kept. */
  lemma XinCapturedOnce(st: OrcState, l: OrcLine, n: int)
    requires st.currentOpcode.Some? && st.currentOpcode.value.inArgs != ""
    requires !StartsWith(l.trimmed, "endop") && (st.currentOpcode.value.outArgs != "" || l.xout.None?)
    ensures OpcodeBodyStep(st, l, n) == st
  {
  }

  /** The `xout` capture is the simplified text after the match, and never empty. */
  lemma XoutCaptureNonEmpty(raw: string)
    requires FindXout(Trimmed(raw), 0) != -1
    ensures var t := Trimmed(raw);
            ReadOrcLine(raw).xout == Some(Simplified(Mid(t, XoutEnd(t, FindXout(t, 0)))))
            && ReadOrcLine(raw).xout.value != ""
  {
    var t := Trimmed(raw);
    var e := XoutEnd(t, FindXout(t, 0));
    var s := Mid(t, e);
    assert s[0] == t[e] && !IsSpace(s[0]);
    SimplifiedShape(s);
  }

  // ---------------------------------------------------------------------------
  // Expansion state.
  // ---------------------------------------------------------------------------

  /** The table knows a label exactly when some previous child had it, and
      then holds the flag of the last such child. */
  lemma {:induction false} ExpansionTableLastWins(items: seq<TreeNode>, caption: string)
    ensures var table := ExpansionTable(items);
            && (caption in table <==> exists k :: 0 <= k < |items| && items[k].text == caption)
            && (caption in table ==>
                  exists k :: 0 <= k < |items| && items[k].text == caption && table[caption] == items[k].expanded
                              && forall j :: k < j < |items| ==> items[j].text != caption)
  {
    if items != [] {
      var n := |items| - 1;
      var front := items[..n];
      ExpansionTableLastWins(front, caption);
      assert forall j :: 0 <= j < n ==> front[j] == items[j];
      if items[n].text != caption {
        if caption in ExpansionTable(front) {
          var k :| 0 <= k < n && front[k].text == caption && ExpansionTable(front)[caption] == front[k].expanded
                   && forall j :: k < j < n ==> front[j].text != caption;
          assert forall j :: k < j < |items| ==> items[j].text != caption;
        }
      }
    }
  }

  /** The instrument flag after restoring: the flag of the last previous
      instrument with the same label, or collapsed for a new label. */
  predicate RestoredFlag(before: seq<TreeNode>, c: TreeNode) {
    && ((forall j :: 0 <= j < |before| ==> before[j].text != c.text) ==> !c.expanded)
    && ((exists j :: 0 <= j < |before| && before[j].text == c.text) ==>
          exists j :: 0 <= j < |before| && before[j].text == c.text && c.expanded == before[j].expanded
                      && forall m :: j < m < |before| ==> before[m].text != c.text)
  }

  /** The five category flags are carried over from the previous tree (a
      missing fourth or fifth item reads as collapsed), and each instrument is
      expanded exactly as the last previous instrument with the same label
      was, new labels staying collapsed. */
  lemma ExpansionCarriedOver(ls: seq<OrcLine>, orcLine: int, start: nat, prev: seq<TreeNode>)
    requires start <= |ls| && |prev| >= 3
    ensures var r := OutlineOf(ls, orcLine, start, prev);
            && r.tree[0].expanded == prev[0].expanded
            && r.tree[1].expanded == prev[1].expanded
            && r.tree[2].expanded == prev[2].expanded
            && r.tree[3].expanded == (|prev| >= 5 && prev[3].expanded)
            && r.tree[4].expanded == (|prev| >= 5 && prev[4].expanded)
            && forall k :: 0 <= k < |r.tree[2].children| ==> RestoredFlag(prev[2].children, r.tree[2].children[k])
  {
    OrchestraInv(ls, orcLine, start);
    var r := OutlineOf(ls, orcLine, start, prev);
    var ins := ScanOrc(ls, start, InitialOrcState(orcLine)).state.instruments.children;
    assert r.tree[2].children == RestoreExpansion(ins, ExpansionTable(prev[2].children));
    forall k | 0 <= k < |r.tree[2].children|
      ensures RestoredFlag(prev[2].children, r.tree[2].children[k])
    {
      assert Entry(ls, Instruments, ins[k]);
      ExpansionTableLastWins(prev[2].children, r.tree[2].children[k].text);
    }
  }

  // ---------------------------------------------------------------------------
  // The categories as a filter over the top-level declaration lines.
  // ---------------------------------------------------------------------------

  /** The nesting the orchestra scan tracks: inside a block comment, inside
      an opcode body, inside an instrument. */
  datatype Block = Block(comment: bool, opcode: bool, instrument: bool)

  const TopBlock := Block(false, false, false)

  function BlockOf(st: OrcState): Block {
    Block(st.partOfComment, st.currentOpcode.Some?, st.inInstrument)
  }

  /** A line read at top level: outside every comment, opcode and
      instrument, and neither blank, nor a tag, nor a comment line. */
  predicate AtTopLevel(b: Block, l: OrcLine) {
    && !b.comment && !b.opcode && !b.instrument && !l.opener
    && l.trimmed != "" && l.trimmed[0] != '<'
    && !StartsWith(l.trimmed, ";") && !StartsWith(l.trimmed, "//")
  }

  /** The nesting after one line, or None at the `</CsInstruments>` line
      that ends the orchestra. */
  function NextBlock(b: Block, l: OrcLine): Option<Block> {
    var t := l.trimmed;
    if b.comment then Some(b.(comment := !l.closer))
    else if l.opener then Some(b.(comment := !l.closedAfterOpener))
    else if t == "" then Some(b)
    else if t[0] == '<' then (if StartsWith(t, "</CsInstruments>") then None else Some(b))
    else if StartsWith(t, ";") || StartsWith(t, "//") then Some(b)
    else if !b.opcode && !b.instrument then Some(b.(opcode := l.head.OpcodeHead?, instrument := l.head.InstrHead?))
    else if b.opcode then Some(if StartsWith(t, "endop") then b.(opcode := false) else b)
    else Some(if StartsWith(t, "endin") then b.(instrument := false) else b)
  }

  /** The label a line's reading declares for `kind`, if any. */
  function Declares(h: Head, kind: Category): Option<string> {
    match kind
    case Opcodes => if h.OpcodeHead? then Some(h.caption) else None
    case Macros => if h.MacroHead? then Some(h.caption) else None
    case Instruments => if h.InstrHead? then Some(h.caption) else None
    case Tables => if h.TableHead? then Some(h.caption) else None
  }

  /** The label and line a top-level declaration of `kind` contributes. */
  function Here(b: Block, l: OrcLine, lineNo: int, kind: Category): seq<(string, int)> {
    var d := Declares(l.head, kind);
    if AtTopLevel(b, l) && d.Some? then [(d.value, lineNo)] else []
  }

  /** The label and line of every top-level declaration of `kind` from line
      `i` up to the `</CsInstruments>` line, in order. */
  function Declared(ls: seq<OrcLine>, i: nat, b: Block, kind: Category): seq<(string, int)>
    requires i <= |ls|
    decreases |ls| - i
  {
    if i == |ls| then []
    else
      match NextBlock(b, ls[i])
      case None => []
      case Some(nb) => Here(b, ls[i], i + 1, kind) + Declared(ls, i + 1, nb, kind)
  }

  /** The label and line of each entry. */
  function Marks(cs: seq<TreeNode>): (ms: seq<(string, int)>)
    ensures |ms| == |cs|
  {
    seq(|cs|, k requires 0 <= k < |cs| => (cs[k].text, cs[k].line))
  }

  function CategoryOf(st: OrcState, kind: Category): TreeNode {
    match kind
    case Opcodes => st.opcodes
    case Macros => st.macros
    case Instruments => st.instruments
    case Tables => st.ftables
  }

  lemma MarksFacts(t: TreeNode, c: TreeNode, table: map<string, bool>)
    ensures Marks(t.children + [c]) == Marks(t.children) + [(c.text, c.line)]
    ensures Marks(AppendToLast(t, c).children) == Marks(t.children)
    ensures Marks(RestoreExpansion(t.children, table)) == Marks(t.children)
  {
  }

  /** A line that changes only the scanner's flags. */
  lemma FlagsOnlyMarks(st: OrcState, next: OrcState, kind: Category)
    requires next.opcodes == st.opcodes && next.macros == st.macros
    requires next.instruments == st.instruments && next.ftables == st.ftables
    ensures Marks(CategoryOf(next, kind).children) == Marks(CategoryOf(st, kind).children) + []
  {
    assert Marks(CategoryOf(st, kind).children) + [] == Marks(CategoryOf(st, kind).children);
  }

  /** A top-level line adds its declaration to its own category only. */
  lemma TopLevelMarks(st: OrcState, l: OrcLine, n: int, kind: Category)
    requires AtTopLevel(BlockOf(st), l)
    ensures var next := TopLevelStep(st, l.head, n);
            && BlockOf(next) == NextBlock(BlockOf(st), l).value
            && Marks(CategoryOf(next, kind).children) == Marks(CategoryOf(st, kind).children) + Here(BlockOf(st), l, n, kind)
  {
    var next := TopLevelStep(st, l.head, n);
    var c := CategoryOf(st, kind);
    var d := Declares(l.head, kind);
    if d.Some? {
      MarksFacts(c, Node(d.value, n), map[]);
    } else {
      assert CategoryOf(next, kind) == c;
      assert Marks(c.children) + [] == Marks(c.children);
    }
  }

  /** A line inside an opcode body adds at most an argument leaf under the
      open opcode, which adds no entry, and leaves the other categories alone. */
  lemma OpcodeBodyCategories(st: OrcState, l: OrcLine, n: int)
    requires Consistent(st) && st.currentOpcode.Some?
    ensures var next := OpcodeBodyStep(st, l, n);
            && BlockOf(next) == (if StartsWith(l.trimmed, "endop") then BlockOf(st).(opcode := false) else BlockOf(st))
            && next.macros == st.macros && next.instruments == st.instruments && next.ftables == st.ftables
            && Marks(next.opcodes.children) == Marks(st.opcodes.children)
  {
    if !StartsWith(l.trimmed, "endop") {
      var op := st.currentOpcode.value;
      if op.inArgs == "" && l.xin.Some? {
        MarksFacts(st.opcodes, Node(l.xin.value + " xin", n), map[]);
      } else if op.outArgs == "" && l.xout.Some? {
        MarksFacts(st.opcodes, Node("xout " + l.xout.value, n), map[]);
      }
    }
  }

  lemma OpcodeBodyMarks(st: OrcState, l: OrcLine, n: int, kind: Category)
    requires Consistent(st) && st.currentOpcode.Some?
    ensures var next := OpcodeBodyStep(st, l, n);
            && BlockOf(next) == (if StartsWith(l.trimmed, "endop") then BlockOf(st).(opcode := false) else BlockOf(st))
            && Marks(CategoryOf(next, kind).children) == Marks(CategoryOf(st, kind).children) + []
  {
    OpcodeBodyCategories(st, l, n);
    var c := Marks(CategoryOf(st, kind).children);
    assert c + [] == c;
  }

  /** One line: the scan stops exactly where the nesting ends, moves to the
      next nesting, and adds the line's top-level declaration. */
  lemma StepMarks(st: OrcState, l: OrcLine, n: int, kind: Category)
    requires Consistent(st)
    ensures OrcStep(st, l, n).Stop? <==> NextBlock(BlockOf(st), l).None?
    ensures OrcStep(st, l, n).Continue? ==>
              var next := OrcStep(st, l, n).next;
              && BlockOf(next) == NextBlock(BlockOf(st), l).value
              && Marks(CategoryOf(next, kind).children) == Marks(CategoryOf(st, kind).children) + Here(BlockOf(st), l, n, kind)
  {
    var t := l.trimmed;
    var b := BlockOf(st);
    if st.partOfComment || l.opener || t == "" || t[0] == '<' || StartsWith(t, ";") || StartsWith(t, "//") {
      if OrcStep(st, l, n).Continue? {
        FlagsOnlyMarks(st, OrcStep(st, l, n).next, kind);
      }
    } else if StartsWith(t, ";; ") {
      PrefixOfPrefix(t, ";", ";; ");
      assert false;
    } else if st.currentOpcode.None? && !st.inInstrument {
      TopLevelMarks(st, l, n, kind);
    } else if st.currentOpcode.Some? {
      OpcodeBodyMarks(st, l, n, kind);
    } else {
      FlagsOnlyMarks(st, OrcStep(st, l, n).next, kind);
    }
  }

  /** Every line keeps the flags consistent with the insertion point. */
  lemma StepKeepsConsistent(st: OrcState, l: OrcLine, n: int)
    requires Consistent(st) && OrcStep(st, l, n).Continue?
    ensures Consistent(OrcStep(st, l, n).next)
  {
    var t := l.trimmed;
    if st.partOfComment || l.opener || t == "" || t[0] == '<' || StartsWith(t, ";") || StartsWith(t, "//") {
    } else if StartsWith(t, ";; ") {
      PrefixOfPrefix(t, ";", ";; ");
      assert false;
    } else if st.currentOpcode.None? && !st.inInstrument {
    } else if st.currentOpcode.Some? {
      var op := st.currentOpcode.value;
      if !StartsWith(t, "endop") && op.inArgs == "" && l.xin.Some? {
        assert |AppendToLast(st.opcodes, Node(l.xin.value + " xin", n)).children| == |st.opcodes.children|;
      } else if !StartsWith(t, "endop") && op.outArgs == "" && l.xout.Some? {
        assert |AppendToLast(st.opcodes, Node("xout " + l.xout.value, n)).children| == |st.opcodes.children|;
      }
    }
  }

  /** One step of `ScanOrc`. */
  lemma ScanOrcStep(ls: seq<OrcLine>, i: nat, st: OrcState)
    requires i < |ls|
    ensures OrcStep(st, ls[i], i + 1).Stop? ==> ScanOrc(ls, i, st).state == st
    ensures OrcStep(st, ls[i], i + 1).Continue? ==>
              ScanOrc(ls, i, st) == ScanOrc(ls, i + 1, OrcStep(st, ls[i], i + 1).next)
  {
  }

  /** One step of `Declared`. */
  lemma DeclaredStep(ls: seq<OrcLine>, i: nat, b: Block, kind: Category)
    requires i < |ls|
    ensures NextBlock(b, ls[i]).None? ==> Declared(ls, i, b, kind) == []
    ensures NextBlock(b, ls[i]).Some? ==>
              Declared(ls, i, b, kind) == Here(b, ls[i], i + 1, kind) + Declared(ls, i + 1, NextBlock(b, ls[i]).value, kind)
  {
  }

  lemma {:induction false} ScanMarks(ls: seq<OrcLine>, i: nat, st: OrcState, kind: Category)
    requires i <= |ls| && Consistent(st)
    ensures Marks(CategoryOf(ScanOrc(ls, i, st).state, kind).children)
            == Marks(CategoryOf(st, kind).children) + Declared(ls, i, BlockOf(st), kind)
    decreases |ls| - i
  {
    var c := Marks(CategoryOf(st, kind).children);
    if i == |ls| {
      assert c + [] == c;
    } else {
      var step := OrcStep(st, ls[i], i + 1);
      StepMarks(st, ls[i], i + 1, kind);
      ScanOrcStep(ls, i, st);
      DeclaredStep(ls, i, BlockOf(st), kind);
      if step.Stop? {
        assert c + [] == c;
      } else {
        var next := step.next;
        StepKeepsConsistent(st, ls[i], i + 1);
        ScanMarks(ls, i + 1, next, kind);
        var h := Here(BlockOf(st), ls[i], i + 1, kind);
        var rest := Declared(ls, i + 1, BlockOf(next), kind);
        assert c + h + rest == c + (h + rest);
      }
    }
  }

  /** Each of Opcodes, Macros, Instruments and F-tables lists exactly the
      top-level declarations of its kind between `<CsInstruments>` and
      `</CsInstruments>`, with their labels and lines, in order: no
      declaration outside a comment, opcode or instrument is missed. */
  lemma OutlineDeclarations(ls: seq<OrcLine>, orcLine: int, start: nat, prev: seq<TreeNode>)
    requires start <= |ls| && |prev| >= 3
    ensures var r := OutlineOf(ls, orcLine, start, prev);
            && |r.tree| == 5
            && Marks(r.tree[0].children) == Declared(ls, start, TopBlock, Opcodes)
            && Marks(r.tree[1].children) == Declared(ls, start, TopBlock, Macros)
            && Marks(r.tree[2].children) == Declared(ls, start, TopBlock, Instruments)
            && Marks(r.tree[3].children) == Declared(ls, start, TopBlock, Tables)
  {
    var st0 := InitialOrcState(orcLine);
    var st := ScanOrc(ls, start, st0).state;
    assert BlockOf(st0) == TopBlock;
    ScanMarks(ls, start, st0, Opcodes);
    ScanMarks(ls, start, st0, Macros);
    ScanMarks(ls, start, st0, Instruments);
    ScanMarks(ls, start, st0, Tables);
    MarksFacts(st.instruments, Node("", 0), ExpansionTable(prev[2].children));
    OutlineParts(ls, orcLine, start, prev);
  }

  // ---------------------------------------------------------------------------
  // The Python outline.
  // ---------------------------------------------------------------------------

  /** The leaves the Python outline makes for lines `i..` of the given kinds. */
  function PyEntries(ls: seq<PyLine>, i: nat, kinds: set<PyKind>): seq<TreeNode>
    requires i <= |ls|
    decreases |ls| - i
  {
    if i == |ls| then []
    else (if ls[i].kind in kinds then [Node(ls[i].caption, i + 1)] else []) + PyEntries(ls, i + 1, kinds)
  }

  lemma {:induction false} PyEntriesMembers(ls: seq<PyLine>, i: nat, kinds: set<PyKind>)
    requires i <= |ls|
    ensures var es := PyEntries(ls, i, kinds);
            && (forall c :: c in es <==> exists j :: i <= j < |ls| && ls[j].kind in kinds
                                                     && c == Node(ls[j].caption, j + 1))
            && Increasing(es)
            && forall a :: 0 <= a < |es| ==> i < es[a].line
    decreases |ls| - i
  {
    if i < |ls| {
      PyEntriesMembers(ls, i + 1, kinds);
      var rest := PyEntries(ls, i + 1, kinds);
      var es := PyEntries(ls, i, kinds);
      forall c ensures c in es <==> exists j :: i <= j < |ls| && ls[j].kind in kinds && c == Node(ls[j].caption, j + 1)
      {
        if exists j :: i <= j < |ls| && ls[j].kind in kinds && c == Node(ls[j].caption, j + 1) {
          var j :| i <= j < |ls| && ls[j].kind in kinds && c == Node(ls[j].caption, j + 1);
          if j > i { assert c in rest; }
        }
      }
    }
  }

  /** One line's contribution to a category collecting the lines of `kinds`. */
  function PyHere(l: PyLine, lineNo: int, kinds: set<PyKind>): seq<TreeNode> {
    if l.kind in kinds then [Node(l.caption, lineNo)] else []
  }

  lemma PyStepCategories(st: PyState, l: PyLine, lineNo: int)
    ensures PyStep(st, l, lineNo).imports
            == st.imports.(children := st.imports.children + PyHere(l, lineNo, {ImportLine}))
    ensures PyStep(st, l, lineNo).functions
            == st.functions.(children := st.functions.children + PyHere(l, lineNo, {FunctionLine, MarkedLine}))
  {
    assert st.imports.children + [] == st.imports.children;
    assert st.functions.children + [] == st.functions.children;
  }

  /** Adding `here` and then `more` is adding `here + more`. */
  lemma ChildrenAppend(t: TreeNode, here: seq<TreeNode>, more: seq<TreeNode>)
    ensures t.(children := t.children + here).(children := t.children + here + more)
            == t.(children := t.children + (here + more))
  {
    assert t.children + here + more == t.children + (here + more);
  }

  /** The Imports category collects the import lines, and the Functions
      category the `def ` and `##` lines, in order. */
  lemma {:induction false} PyScanFlat(ls: seq<PyLine>, i: nat, st: PyState)
    requires i <= |ls|
    ensures PyScan(ls, i, st).imports == st.imports.(children := st.imports.children + PyEntries(ls, i, {ImportLine}))
    ensures PyScan(ls, i, st).functions
              == st.functions.(children := st.functions.children + PyEntries(ls, i, {FunctionLine, MarkedLine}))
    decreases |ls| - i
  {
    if i < |ls| {
      var next := PyStep(st, ls[i], i + 1);
      PyStepCategories(st, ls[i], i + 1);
      PyScanFlat(ls, i + 1, next);
      ChildrenAppend(st.imports, PyHere(ls[i], i + 1, {ImportLine}), PyEntries(ls, i + 1, {ImportLine}));
      ChildrenAppend(st.functions, PyHere(ls[i], i + 1, {FunctionLine, MarkedLine}),
                     PyEntries(ls, i + 1, {FunctionLine, MarkedLine}));
    } else {
      assert st.imports.children + [] == st.imports.children;
      assert st.functions.children + [] == st.functions.children;
    }
  }

  /** The Python outline has three categories, Imports, Classes and
      Functions, each with line -1 and expanded. */
  lemma PythonCategories(lines: seq<string>)
    ensures var tree := PyOutlineOfLines(lines);
            && |tree| == 3
            && tree[0].text == "Imports" && tree[1].text == "Classes" && tree[2].text == "Functions"
            && tree[0].line == -1 && tree[1].line == -1 && tree[2].line == -1
            && tree[0].expanded && tree[1].expanded && tree[2].expanded
  {
    var ls := ReadPyLines(lines);
    PyScanFlat(ls, 0, InitialPyState());
    PyClassesInvScan(ls, 0, InitialPyState());
  }

  /** Imports holds exactly the import lines, one leaf each, in line order
      (what `PyEntries` lists, see `PyEntriesMembers`). */
  lemma PythonImports(lines: seq<string>)
    ensures var tree := PyOutlineOfLines(lines);
            |tree| == 3 && tree[0].children == PyEntries(ReadPyLines(lines), 0, {ImportLine})
  {
    var st0 := InitialPyState();
    PyScanFlat(ReadPyLines(lines), 0, st0);
    assert st0.imports.children + PyEntries(ReadPyLines(lines), 0, {ImportLine})
        == PyEntries(ReadPyLines(lines), 0, {ImportLine});
  }

  /** Functions holds exactly the top-level `def ` lines and the `##` lines,
      one leaf each, in line order. */
  lemma PythonFunctions(lines: seq<string>)
    ensures var tree := PyOutlineOfLines(lines);
            |tree| == 3 && tree[2].children == PyEntries(ReadPyLines(lines), 0, {FunctionLine, MarkedLine})
  {
    var st0 := InitialPyState();
    PyScanFlat(ReadPyLines(lines), 0, st0);
    assert st0.functions.children + PyEntries(ReadPyLines(lines), 0, {FunctionLine, MarkedLine})
        == PyEntries(ReadPyLines(lines), 0, {FunctionLine, MarkedLine});
  }

  /** A Classes child: a `class ` line, labelled with the simplified line and expanded. */
  predicate ClassEntry(ls: seq<PyLine>, c: TreeNode) {
    1 <= c.line <= |ls| && ls[c.line - 1].kind == ClassLine && c.text == ls[c.line - 1].caption && c.expanded
  }

  /** A method leaf of the class `c`: an indented `def ` line after the class
      line with no `class ` line in between. */
  predicate MethodOf(ls: seq<PyLine>, c: TreeNode, m: TreeNode) {
    1 <= c.line < m.line <= |ls|
    && ls[m.line - 1].kind == MethodLine && m.text == ls[m.line - 1].caption
    && forall j :: c.line <= j < m.line - 1 ==> ls[j].kind != ClassLine
  }

  /** Every class entry's methods belong to it and none is past line `n`. */
  predicate MethodsPlaced(ls: seq<PyLine>, n: nat, c: TreeNode) {
    forall m :: 0 <= m < |c.children| ==> MethodOf(ls, c, c.children[m]) && c.children[m].line <= n
  }

  predicate PyClassesInv(ls: seq<PyLine>, n: nat, st: PyState) {
    var cs := st.classes.children;
    && n <= |ls|
    && st.classes.text == "Classes" && st.classes.line == -1
    && (st.hasParent <==> cs != [])
    && Increasing(cs) && LastAtMost(cs, n)
    && (forall k :: 0 <= k < |cs| ==> ClassEntry(ls, cs[k]) && MethodsPlaced(ls, n, cs[k]))
    && (cs != [] ==> forall j :: cs[|cs| - 1].line <= j < n ==> ls[j].kind != ClassLine)
  }

  lemma MethodsPlacedWiden(ls: seq<PyLine>, n: nat, c: TreeNode)
    requires MethodsPlaced(ls, n, c)
    ensures MethodsPlaced(ls, n + 1, c)
  {
  }

  lemma PyClassLineKeepsInv(ls: seq<PyLine>, i: nat, st: PyState)
    requires i < |ls| && PyClassesInv(ls, i, st) && ls[i].kind == ClassLine
    ensures PyClassesInv(ls, i + 1, PyStep(st, ls[i], i + 1))
  {
    var cs := st.classes.children;
    var c := TreeNode(ls[i].caption, i + 1, true, []);
    var ns := cs + [c];
    assert PyStep(st, ls[i], i + 1).classes.children == ns;
    forall k | 0 <= k < |ns| ensures ClassEntry(ls, ns[k]) && MethodsPlaced(ls, i + 1, ns[k]) {
      if k < |cs| {
        assert ns[k] == cs[k];
        MethodsPlacedWiden(ls, i, cs[k]);
      }
    }
  }

  lemma PyMethodLineKeepsInv(ls: seq<PyLine>, i: nat, st: PyState)
    requires i < |ls| && PyClassesInv(ls, i, st) && ls[i].kind == MethodLine && st.hasParent
    ensures PyClassesInv(ls, i + 1, PyStep(st, ls[i], i + 1))
  {
    var cs := st.classes.children;
    var n := |cs|;
    var leaf := Node(ls[i].caption, i + 1);
    var last := cs[n - 1].(children := cs[n - 1].children + [leaf]);
    var ns := cs[..n - 1] + [last];
    assert PyStep(st, ls[i], i + 1).classes.children == ns;
    assert MethodOf(ls, cs[n - 1], leaf);
    assert MethodsPlaced(ls, i + 1, last) by {
      forall m | 0 <= m < |last.children|
        ensures MethodOf(ls, last, last.children[m]) && last.children[m].line <= i + 1
      {
        if m < |cs[n - 1].children| {
          assert last.children[m] == cs[n - 1].children[m];
        }
      }
    }
    forall k | 0 <= k < |ns| ensures ClassEntry(ls, ns[k]) && MethodsPlaced(ls, i + 1, ns[k]) {
      if k < n - 1 {
        assert ns[k] == cs[k];
        MethodsPlacedWiden(ls, i, cs[k]);
      }
    }
  }

  lemma PyStepKeepsClassesInv(ls: seq<PyLine>, i: nat, st: PyState)
    requires i < |ls| && PyClassesInv(ls, i, st)
    ensures PyClassesInv(ls, i + 1, PyStep(st, ls[i], i + 1))
  {
    var cs := st.classes.children;
    if ls[i].kind == ClassLine {
      PyClassLineKeepsInv(ls, i, st);
    } else if ls[i].kind == MethodLine && st.hasParent {
      PyMethodLineKeepsInv(ls, i, st);
    } else {
      assert PyStep(st, ls[i], i + 1).classes == st.classes;
      forall k | 0 <= k < |cs| ensures MethodsPlaced(ls, i + 1, cs[k]) {
        MethodsPlacedWiden(ls, i, cs[k]);
      }
    }
  }

  lemma {:induction false} PyClassesInvScan(ls: seq<PyLine>, i: nat, st: PyState)
    requires i <= |ls| && PyClassesInv(ls, i, st)
    ensures PyClassesInv(ls, |ls|, PyScan(ls, i, st))
    decreases |ls| - i
  {
    if i < |ls| {
      PyStepKeepsClassesInv(ls, i, st);
      PyClassesInvScan(ls, i + 1, PyStep(st, ls[i], i + 1));
    }
  }

  /** Classes holds one expanded entry per `class ` line it met, in line
      order, and each indented `def ` leaf sits under the nearest `class ` line
      before it; an indented `def ` with no class before it is dropped. */
  lemma PythonClasses(lines: seq<string>)
    ensures var cs := PyOutlineOfLines(lines)[1].children;
            var ls := ReadPyLines(lines);
            && Increasing(cs)
            && forall k :: 0 <= k < |cs| ==> ClassEntry(ls, cs[k]) && MethodsPlaced(ls, |ls|, cs[k])
  {
    PyClassesInvScan(ReadPyLines(lines), 0, InitialPyState());
  }

  // ---- Classes, defined independently of the scan ----

  /** The method leaves of the indented `def ` lines from `i` up to the next
      `class ` line. */
  function MethodsUntilClass(ls: seq<PyLine>, i: nat): seq<TreeNode>
    requires i <= |ls|
    decreases |ls| - i
  {
    if i == |ls| || ls[i].kind == ClassLine then []
    else (if ls[i].kind == MethodLine then [Node(ls[i].caption, i + 1)] else []) + MethodsUntilClass(ls, i + 1)
  }

  /** One expanded entry per `class ` line from `i` on, holding the methods
      that follow it up to the next `class ` line. */
  function ClassTree(ls: seq<PyLine>, i: nat): seq<TreeNode>
    requires i <= |ls|
    decreases |ls| - i
  {
    if i == |ls| then []
    else if ls[i].kind == ClassLine then
      [TreeNode(ls[i].caption, i + 1, true, MethodsUntilClass(ls, i + 1))] + ClassTree(ls, i + 1)
    else ClassTree(ls, i + 1)
  }

  /** `ms` appended to the children of the last entry of `cs`, if there is one. */
  function AddToLast(cs: seq<TreeNode>, ms: seq<TreeNode>): seq<TreeNode> {
    if cs == [] then [] else cs[..|cs| - 1] + [cs[|cs| - 1].(children := cs[|cs| - 1].children + ms)]
  }

  lemma AddToLastFacts(cs: seq<TreeNode>, c: TreeNode, a: seq<TreeNode>, b: seq<TreeNode>)
    ensures AddToLast(cs, []) == cs
    ensures AddToLast(AddToLast(cs, a), b) == AddToLast(cs, a + b)
    ensures AddToLast(cs + [c], a) == cs + [c.(children := c.children + a)]
  {
    if cs != [] {
      var n := |cs|;
      assert cs[n - 1].(children := cs[n - 1].children + []) == cs[n - 1];
      assert cs[..n - 1] + [cs[n - 1]] == cs;
      assert cs[n - 1].children + a + b == cs[n - 1].children + (a + b);
    }
    assert (cs + [c])[..|cs|] == cs;
  }

  lemma AppendToLastAdds(t: TreeNode, leaf: TreeNode)
    ensures AppendToLast(t, leaf) == t.(children := AddToLast(t.children, [leaf]))
  {
    var r := AppendToLast(t, leaf);
    if t.children != [] {
      var n := |t.children|;
      assert r.children == t.children[..n - 1] + [r.children[n - 1]];
    }
  }

  /** What the scan from line `i` makes of the Classes category of `st`: the
      methods still open under the last class are closed, then the entries of
      `ClassTree` follow. */
  function ClassTarget(ls: seq<PyLine>, i: nat, st: PyState): TreeNode
    requires i <= |ls|
  {
    st.classes.(children := AddToLast(st.classes.children, MethodsUntilClass(ls, i)) + ClassTree(ls, i))
  }

  lemma ClassLineTarget(ls: seq<PyLine>, i: nat, st: PyState)
    requires i < |ls| && ls[i].kind == ClassLine
    ensures ClassTarget(ls, i + 1, PyStep(st, ls[i], i + 1)) == ClassTarget(ls, i, st)
  {
    var cs := st.classes.children;
    var c := TreeNode(ls[i].caption, i + 1, true, []);
    var ms := MethodsUntilClass(ls, i + 1);
    var next := PyStep(st, ls[i], i + 1);
    assert next.classes == st.classes.(children := cs + [c]);
    var entry := TreeNode(ls[i].caption, i + 1, true, ms);
    assert ClassTree(ls, i) == [entry] + ClassTree(ls, i + 1);
    assert MethodsUntilClass(ls, i) == [];
    AddToLastFacts(cs, c, ms, []);
    assert c.children + ms == ms;
    assert c.(children := c.children + ms) == entry;
    assert AddToLast(cs, []) == cs;
    assert cs + [entry] + ClassTree(ls, i + 1) == cs + ([entry] + ClassTree(ls, i + 1));
  }

  lemma MethodLineTarget(ls: seq<PyLine>, i: nat, st: PyState)
    requires i < |ls| && ls[i].kind == MethodLine && st.classes.children != [] && st.hasParent
    ensures ClassTarget(ls, i + 1, PyStep(st, ls[i], i + 1)) == ClassTarget(ls, i, st)
  {
    var cs := st.classes.children;
    var leaf := Node(ls[i].caption, i + 1);
    var ms := MethodsUntilClass(ls, i + 1);
    var next := PyStep(st, ls[i], i + 1);
    AppendToLastAdds(st.classes, leaf);
    assert next.classes == st.classes.(children := AddToLast(cs, [leaf]));
    AddToLastFacts(cs, leaf, [leaf], ms);
    assert MethodsUntilClass(ls, i) == [leaf] + ms;
    assert ClassTree(ls, i) == ClassTree(ls, i + 1);
  }

  lemma OtherLineTarget(ls: seq<PyLine>, i: nat, st: PyState)
    requires i < |ls| && ls[i].kind != ClassLine
    requires ls[i].kind == MethodLine ==> st.classes.children == [] && !st.hasParent
    ensures ClassTarget(ls, i + 1, PyStep(st, ls[i], i + 1)) == ClassTarget(ls, i, st)
  {
    var cs := st.classes.children;
    var next := PyStep(st, ls[i], i + 1);
    var ms := MethodsUntilClass(ls, i + 1);
    assert next.classes == st.classes;
    assert ClassTree(ls, i) == ClassTree(ls, i + 1);
    if ls[i].kind == MethodLine {
      assert AddToLast(cs, MethodsUntilClass(ls, i)) == [] == AddToLast(cs, ms);
    } else {
      assert MethodsUntilClass(ls, i) == [] + ms == ms;
    }
  }

  /** From line `i` on, the scan builds `ClassTarget`. */
  lemma {:induction false} PyScanClasses(ls: seq<PyLine>, i: nat, st: PyState)
    requires i <= |ls| && (st.hasParent <==> st.classes.children != [])
    ensures PyScan(ls, i, st).classes == ClassTarget(ls, i, st)
    decreases |ls| - i
  {
    if i == |ls| {
      AddToLastFacts(st.classes.children, Node("", 0), [], []);
      assert st.classes.children + [] == st.classes.children;
    } else {
      var next := PyStep(st, ls[i], i + 1);
      if ls[i].kind == ClassLine {
        ClassLineTarget(ls, i, st);
      } else if ls[i].kind == MethodLine && st.hasParent {
        MethodLineTarget(ls, i, st);
      } else {
        OtherLineTarget(ls, i, st);
      }
      assert next.hasParent <==> next.classes.children != [];
      PyScanClasses(ls, i + 1, next);
    }
  }

  /** The Classes category of the Python outline is exactly `ClassTree`: the
      indented `def ` lines before the first `class ` line are dropped. */
  lemma PythonClassTree(lines: seq<string>)
    ensures PyOutlineOfLines(lines)[1].children == ClassTree(ReadPyLines(lines), 0)
  {
    var ls := ReadPyLines(lines);
    PyScanClasses(ls, 0, InitialPyState());
    assert [] + ClassTree(ls, 0) == ClassTree(ls, 0);
  }

  /** The methods collected from `i` are the indented `def ` lines from `i`
      on with no `class ` line between `i` and them, in order. */
  lemma {:induction false} MethodsUntilClassMembers(ls: seq<PyLine>, i: nat)
    requires i <= |ls|
    ensures var ms := MethodsUntilClass(ls, i);
            && (forall m :: m in ms <==> exists j :: && i <= j < |ls| && ls[j].kind == MethodLine
                                                    && (forall q :: i <= q < j ==> ls[q].kind != ClassLine)
                                                    && m == Node(ls[j].caption, j + 1))
            && Increasing(ms)
            && forall a :: 0 <= a < |ms| ==> i < ms[a].line
    decreases |ls| - i
  {
    if i < |ls| && ls[i].kind != ClassLine {
      MethodsUntilClassMembers(ls, i + 1);
      var rest := MethodsUntilClass(ls, i + 1);
      var ms := MethodsUntilClass(ls, i);
      forall m ensures m in ms <==> exists j :: && i <= j < |ls| && ls[j].kind == MethodLine
                                               && (forall q :: i <= q < j ==> ls[q].kind != ClassLine)
                                               && m == Node(ls[j].caption, j + 1)
      {
        if m in rest {
          var j :| && i + 1 <= j < |ls| && ls[j].kind == MethodLine
                   && (forall q :: i + 1 <= q < j ==> ls[q].kind != ClassLine)
                   && m == Node(ls[j].caption, j + 1);
          assert forall q :: i <= q < j ==> ls[q].kind != ClassLine;
        }
        if exists j :: && i <= j < |ls| && ls[j].kind == MethodLine
                       && (forall q :: i <= q < j ==> ls[q].kind != ClassLine)
                       && m == Node(ls[j].caption, j + 1) {
          var j :| && i <= j < |ls| && ls[j].kind == MethodLine
                   && (forall q :: i <= q < j ==> ls[q].kind != ClassLine)
                   && m == Node(ls[j].caption, j + 1);
          if j > i {
            assert forall q :: i + 1 <= q < j ==> ls[q].kind != ClassLine;
            assert m in rest;
          }
        }
      }
    }
  }

  /** An entry of `ClassTree`: a `class ` line from `i` on, expanded,
      labelled with the simplified line and holding the methods that follow it. */
  predicate ClassTreeEntry(ls: seq<PyLine>, i: nat, c: TreeNode) {
    && i < c.line <= |ls| && ls[c.line - 1].kind == ClassLine
    && c == TreeNode(ls[c.line - 1].caption, c.line, true, MethodsUntilClass(ls, c.line))
  }

  /** Every entry of `ClassTree` is a `ClassTreeEntry`, and the entries are
      in line order. */
  lemma {:induction false} ClassTreeEntries(ls: seq<PyLine>, i: nat)
    requires i <= |ls|
    ensures var ct := ClassTree(ls, i);
            && Increasing(ct)
            && forall k :: 0 <= k < |ct| ==> ClassTreeEntry(ls, i, ct[k])
    decreases |ls| - i
  {
    if i < |ls| {
      ClassTreeEntries(ls, i + 1);
      var rest := ClassTree(ls, i + 1);
      var ct := ClassTree(ls, i);
      if ls[i].kind == ClassLine {
        var e := TreeNode(ls[i].caption, i + 1, true, MethodsUntilClass(ls, i + 1));
        assert ct == [e] + rest;
        assert ClassTreeEntry(ls, i, e);
        forall k | 1 <= k < |ct| ensures ClassTreeEntry(ls, i, ct[k]) && e.line < ct[k].line {
          assert ct[k] == rest[k - 1];
        }
        assert Increasing(ct) by {
          forall a, b | 0 <= a < b < |ct| ensures ct[a].line < ct[b].line {
            if a > 0 { assert ct[a] == rest[a - 1] && ct[b] == rest[b - 1]; }
          }
        }
      } else {
        assert ct == rest;
      }
    }
  }

  /** Every `class ` line from `i` on has its entry in `ClassTree`. */
  lemma {:induction false} ClassTreeComplete(ls: seq<PyLine>, i: nat, j: nat)
    requires i <= j < |ls| && ls[j].kind == ClassLine
    ensures exists k :: 0 <= k < |ClassTree(ls, i)| && ClassTree(ls, i)[k].line == j + 1
    decreases |ls| - i
  {
    var ct := ClassTree(ls, i);
    if j == i {
      assert ct[0].line == j + 1;
    } else {
      ClassTreeComplete(ls, i + 1, j);
      var rest := ClassTree(ls, i + 1);
      var k :| 0 <= k < |rest| && rest[k].line == j + 1;
      if ls[i].kind == ClassLine {
        assert ct[k + 1] == rest[k];
      } else {
        assert ct == rest;
      }
    }
  }

  /** The Classes category has an entry exactly for each `class ` line, in
      line order; the entry of the `class ` line at index `c` holds exactly
      the indented `def ` lines after it with no `class ` line in between,
      in order. */
  lemma PythonClassMembers(lines: seq<string>)
    ensures var ls := ReadPyLines(lines);
            var cs := PyOutlineOfLines(lines)[1].children;
            && Increasing(cs)
            && (forall j :: 0 <= j < |ls| ==> (ls[j].kind == ClassLine <==> exists k :: 0 <= k < |cs| && cs[k].line == j + 1))
            && (forall k :: 0 <= k < |cs| ==> 0 < cs[k].line <= |ls|)
            && forall k, m :: 0 <= k < |cs| ==>
                 (m in cs[k].children <==> exists j :: && cs[k].line <= j < |ls| && ls[j].kind == MethodLine
                                                       && (forall q :: cs[k].line <= q < j ==> ls[q].kind != ClassLine)
                                                       && m == Node(ls[j].caption, j + 1))
  {
    var ls := ReadPyLines(lines);
    PythonClassTree(lines);
    ClassTreeEntries(ls, 0);
    var cs := ClassTree(ls, 0);
    forall j | 0 <= j < |ls| && ls[j].kind == ClassLine
      ensures exists k :: 0 <= k < |cs| && cs[k].line == j + 1
    {
      ClassTreeComplete(ls, 0, j);
    }
    forall k | 0 <= k < |cs| {
      MethodsUntilClassMembers(ls, cs[k].line);
    }
  }

  /** An indented `def ` line with no `class ` line before it appears under
      no class. */
  lemma OrphanMethodDropped(lines: seq<string>, j: nat)
    requires j < |lines|
    requires var ls := ReadPyLines(lines); forall q :: 0 <= q < j ==> ls[q].kind != ClassLine
    ensures var cs := PyOutlineOfLines(lines)[1].children;
            forall k, t :: 0 <= k < |cs| && 0 <= t < |cs[k].children| ==> cs[k].children[t].line != j + 1
  {
    var ls := ReadPyLines(lines);
    PythonClassTree(lines);
    ClassTreeEntries(ls, 0);
    var cs := ClassTree(ls, 0);
    forall k, t | 0 <= k < |cs| && 0 <= t < |cs[k].children|
      ensures cs[k].children[t].line != j + 1
    {
      MethodsUntilClassMembers(ls, cs[k].line);
      assert cs[k].children[t] in MethodsUntilClass(ls, cs[k].line);
    }
  }
}
