/**
 * Line-ending normalisation of a file's bytes before it is shown in an
 * editor (`changeNewLines`): the buffer is rewritten until no `\r\n` is left,
 * then every remaining `\r` becomes `\n`.
 */
module NewLines {

  type byte = bv8

  const CR: byte := 13
  const LF: byte := 10

  /** QByteArray::contains("\r\n"). */
  predicate HasCrLf(s: seq<byte>) {
    exists i :: 0 <= i < |s| - 1 && s[i] == CR && s[i + 1] == LF
  }

  /** QByteArray::replace("\r\n", "\n"): one left-to-right pass. */
  function ReplaceCrLf(s: seq<byte>): (r: seq<byte>)
    ensures |r| <= |s|
  {
    if |s| < 2 then s
    else if s[0] == CR && s[1] == LF then [LF] + ReplaceCrLf(s[2..])
    else [s[0]] + ReplaceCrLf(s[1..])
  }

  /** QByteArray::replace("\r", "\n"). */
  function ReplaceCr(s: seq<byte>): (r: seq<byte>)
    ensures |r| == |s| && CR !in r
    ensures forall i :: 0 <= i < |s| && s[i] != CR ==> r[i] == s[i]
  {
    if s == [] then [] else [if s[0] == CR then LF else s[0]] + ReplaceCr(s[1..])
  }

  /** `s` starts with some `\r` bytes (maybe none) and then a `\n`. */
  predicate CrsThenLf(s: seq<byte>) {
    |s| > 0 && (s[0] == LF || (s[0] == CR && CrsThenLf(s[1..])))
  }

  /**
   * The normalised text, defined byte by byte: a `\r` that only other `\r`s
   * separate from the next `\n` disappears, any other `\r` becomes `\n`, and
   * every other byte is kept.
   */
  function Normalized(s: seq<byte>): seq<byte> {
    if s == [] then []
    else if s[0] == CR then (if CrsThenLf(s[1..]) then [] else [LF]) + Normalized(s[1..])
    else [s[0]] + Normalized(s[1..])
  }

  /** The two replace loops of `changeNewLines`, on a copy of the buffer. */
  method ChangeNewLines(line: seq<byte>) returns (r: seq<byte>)
    ensures r == Normalized(line)
  {
    r := line;
    while HasCrLf(r)
      invariant Normalized(r) == Normalized(line)
      decreases |r|
    {
      ReplaceShortens(r);
      NormalizedReplaceCrLf(r);
      r := ReplaceCrLf(r);
    }
    while CR in r
      invariant Normalized(r) == Normalized(line) && !HasCrLf(r)
      decreases if CR in r then 1 else 0
    {
      NoCrLfNormalized(r);
      CrFreeUnchanged(ReplaceCr(r));
      NoCrNoCrLf(ReplaceCr(r));
      r := ReplaceCr(r);
    }
    CrFreeUnchanged(r);
  }

  // ---- The replace loops compute Normalized ----

  lemma {:induction false} ReplaceShortens(s: seq<byte>)
    requires HasCrLf(s)
    ensures |ReplaceCrLf(s)| < |s|
  {
    var i :| 0 <= i < |s| - 1 && s[i] == CR && s[i + 1] == LF;
    if !(s[0] == CR && s[1] == LF) {
      assert s[1..][i - 1] == CR && s[1..][i] == LF;
      ReplaceShortens(s[1..]);
    }
  }

  lemma NoCrNoCrLf(s: seq<byte>)
    requires CR !in s
    ensures !HasCrLf(s)
  {
  }

  lemma HasCrLfTail(s: seq<byte>)
    requires |s| > 0
    ensures HasCrLf(s[1..]) ==> HasCrLf(s)
  {
    if HasCrLf(s[1..]) {
      var i :| 0 <= i < |s[1..]| - 1 && s[1..][i] == CR && s[1..][i + 1] == LF;
      assert s[i + 1] == CR && s[i + 2] == LF;
    }
  }

  /** A `\r` followed by `\r`s and a `\n` holds a `\r\n`. */
  lemma {:induction false} CrsThenLfHasCrLf(s: seq<byte>)
    requires |s| > 0
    ensures s[0] == CR && CrsThenLf(s[1..]) ==> HasCrLf(s)
  {
    if s[0] == CR && CrsThenLf(s[1..]) {
      if s[1] == LF {
        assert s[0] == CR && s[1] == LF;
      } else {
        CrsThenLfHasCrLf(s[1..]);
        HasCrLfTail(s);
      }
    }
  }

  /** Replacing `\r\n` by `\n` keeps whether a run of `\r` ends in `\n`. */
  lemma {:induction false} CrsThenLfReplace(t: seq<byte>)
    ensures CrsThenLf(ReplaceCrLf(t)) == CrsThenLf(t)
  {
    if |t| >= 2 && t[0] == CR && t[1] == LF {
      assert CrsThenLf(t[1..]);
    } else if |t| >= 2 {
      CrsThenLfReplace(t[1..]);
      assert ReplaceCrLf(t)[1..] == ReplaceCrLf(t[1..]);
    }
  }

  /** One pass of the first loop does not change the normalised text. */
  lemma {:induction false} NormalizedReplaceCrLf(s: seq<byte>)
    ensures Normalized(ReplaceCrLf(s)) == Normalized(s)
  {
    if |s| < 2 {
    } else if s[0] == CR && s[1] == LF {
      NormalizedReplaceCrLf(s[2..]);
      var r := ReplaceCrLf(s);
      assert r[0] == LF && r[1..] == ReplaceCrLf(s[2..]);
      assert CrsThenLf(s[1..]);
      assert s[1..][1..] == s[2..];
    } else {
      NormalizedReplaceCrLf(s[1..]);
      var r := ReplaceCrLf(s);
      assert r[0] == s[0] && r[1..] == ReplaceCrLf(s[1..]);
      CrsThenLfReplace(s[1..]);
    }
  }

  /** Once no `\r\n` is left, normalising is the second loop's replacement. */
  lemma {:induction false} NoCrLfNormalized(s: seq<byte>)
    requires !HasCrLf(s)
    ensures Normalized(s) == ReplaceCr(s)
  {
    if s != [] {
      HasCrLfTail(s);
      CrsThenLfHasCrLf(s);
      NoCrLfNormalized(s[1..]);
    }
  }

  // ---- What the normalised text is ----

  /** No `\r` is left. */
  lemma {:induction false} NormalizedHasNoCr(s: seq<byte>)
    ensures CR !in Normalized(s)
  {
    if s != [] {
      NormalizedHasNoCr(s[1..]);
    }
  }

  /** A buffer without `\r` is left as it is. */
  lemma {:induction false} CrFreeUnchanged(s: seq<byte>)
    requires CR !in s
    ensures Normalized(s) == s
  {
    if s != [] {
      assert s == [s[0]] + s[1..];
      CrFreeUnchanged(s[1..]);
    }
  }

  lemma NormalizedIdempotent(s: seq<byte>)
    ensures Normalized(Normalized(s)) == Normalized(s)
  {
    NormalizedHasNoCr(s);
    CrFreeUnchanged(Normalized(s));
  }

  /** Normalising a `\r`-free prefix leaves it and normalises the rest. */
  lemma {:induction false} NormalizedPrefix(a: seq<byte>, t: seq<byte>)
    requires CR !in a
    ensures Normalized(a + t) == a + Normalized(t)
  {
    if a != [] {
      assert a[0] in a && (a + t)[0] == a[0];
      assert (a + t)[1..] == a[1..] + t;
      assert Normalized(a + t) == [a[0]] + Normalized(a[1..] + t);
      NormalizedPrefix(a[1..], t);
      assert a == [a[0]] + a[1..];
      assert [a[0]] + (a[1..] + Normalized(t)) == a + Normalized(t);
    } else {
      assert a + t == t;
    }
  }

  /** Lines of text, each followed by the separator `sep`. */
  function Terminated(ls: seq<seq<byte>>, sep: seq<byte>): seq<byte> {
    if ls == [] then [] else ls[0] + sep + Terminated(ls[1..], sep)
  }

  predicate PlainLine(l: seq<byte>) {
    CR !in l && LF !in l
  }

  lemma {:induction false} NoLfNotCrsThenLf(t: seq<byte>)
    requires LF !in t
    ensures !CrsThenLf(t)
  {
    if t != [] {
      NoLfNotCrsThenLf(t[1..]);
    }
  }

  lemma {:induction false} TerminatedNoLf(ls: seq<seq<byte>>)
    requires forall k :: 0 <= k < |ls| ==> PlainLine(ls[k])
    ensures LF !in Terminated(ls, [CR])
  {
    if ls != [] {
      TerminatedNoLf(ls[1..]);
    }
  }

  /** Windows text: lines ended by `\r\n` come out ended by `\n`. */
  lemma {:induction false} WindowsLines(ls: seq<seq<byte>>)
    requires forall k :: 0 <= k < |ls| ==> PlainLine(ls[k])
    ensures Normalized(Terminated(ls, [CR, LF])) == Terminated(ls, [LF])
  {
    if ls != [] {
      var rest := Terminated(ls[1..], [CR, LF]);
      assert Terminated(ls, [CR, LF]) == ls[0] + ([CR, LF] + rest);
      NormalizedPrefix(ls[0], [CR, LF] + rest);
      assert ([CR, LF] + rest)[1..] == [LF] + rest;
      assert ([LF] + rest)[1..] == rest;
      WindowsLines(ls[1..]);
    }
  }

  /** Old Mac text: lines ended by `\r` come out ended by `\n`. */
  lemma {:induction false} MacLines(ls: seq<seq<byte>>)
    requires forall k :: 0 <= k < |ls| ==> PlainLine(ls[k])
    ensures Normalized(Terminated(ls, [CR])) == Terminated(ls, [LF])
  {
    if ls != [] {
      var rest := Terminated(ls[1..], [CR]);
      assert Terminated(ls, [CR]) == ls[0] + ([CR] + rest);
      NormalizedPrefix(ls[0], [CR] + rest);
      assert ([CR] + rest)[1..] == rest;
      TerminatedNoLf(ls[1..]);
      NoLfNotCrsThenLf(rest);
      MacLines(ls[1..]);
    }
  }

  /** A `\r` doubled before `\n` vanishes with it: `\r\r\n` becomes one `\n`. */
  lemma DoubledCrCollapses()
    ensures Normalized([CR, CR, LF]) == [LF]
  {
    assert CrsThenLf([CR, LF]);
    assert [CR, CR, LF][1..] == [CR, LF];
    assert [CR, LF][1..] == [LF];
    assert CrsThenLf([LF]) && [LF][1..] == [];
    assert Normalized([LF]) == [LF] + Normalized([]);
  }
}
