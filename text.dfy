/**
 * The handful of QString operations the outline scanner, the widget splicer
 * and the main window rely on, written out over `seq<char>`: whitespace and
 * word-character classes, prefix/suffix tests, `indexOf`, `mid`, `trimmed`,
 * `simplified` and `split`.
 */
module Text {

  /** QChar::isSpace: the ASCII controls 9..13, U+0085, and the Unicode
      separator categories Zs, Zl and Zp. Used by `trimmed` and `simplified`. */
  predicate IsSpace(c: char) {
    c == ' ' || c == '\t' || c == '\n' || c == '\U{000B}' || c == '\U{000C}' || c == '\r'
    || c == '\U{0085}' || c == '\U{00A0}' || c == '\U{1680}'
    || ('\U{2000}' <= c <= '\U{200A}')
    || c == '\U{2028}' || c == '\U{2029}' || c == '\U{202F}' || c == '\U{205F}' || c == '\U{3000}'
  }

  /** `\s` of a regular expression without Unicode properties: the ASCII blanks. */
  predicate IsRegexSpace(c: char) {
    c == ' ' || c == '\t' || c == '\n' || c == '\U{000B}' || c == '\U{000C}' || c == '\r'
  }

  /** `\w` of a regular expression without Unicode properties. */
  predicate IsWordChar(c: char) {
    ('a' <= c <= 'z') || ('A' <= c <= 'Z') || ('0' <= c <= '9') || c == '_'
  }

  predicate StartsWith(s: string, prefix: string) {
    |prefix| <= |s| && s[..|prefix|] == prefix
  }

  predicate EndsWith(s: string, suffix: string) {
    |suffix| <= |s| && s[|s| - |suffix|..] == suffix
  }

  /** ASCII case folding, standing in for Qt::CaseInsensitive comparison. */
  function Lower(c: char): char {
    if 'A' <= c <= 'Z' then (c as int + 32) as char else c
  }

  predicate EndsWithIgnoreCase(s: string, suffix: string) {
    |suffix| <= |s| && forall k :: 0 <= k < |suffix| ==> Lower(s[|s| - |suffix| + k]) == Lower(suffix[k])
  }

  /** `needle` occurs in `s` starting at index `k`. */
  predicate OccursAt(s: string, needle: string, k: int) {
    0 <= k && k + |needle| <= |s| && s[k..k + |needle|] == needle
  }

  predicate Contains(s: string, needle: string) {
    exists k | 0 <= k <= |s| - |needle| :: OccursAt(s, needle, k)
  }

  /** QString::indexOf(needle, from): the first occurrence at or after `from`, or -1. */
  function IndexOf(s: string, needle: string, from: nat): (r: int)
    ensures r == -1 || (from <= r && OccursAt(s, needle, r))
    ensures r == -1 <==> forall k :: from <= k ==> !OccursAt(s, needle, k)
    ensures r != -1 ==> forall k :: from <= k < r ==> !OccursAt(s, needle, k)
    decreases |s| - from
  {
    if from + |needle| > |s| then -1
    else if s[from..from + |needle|] == needle then from
    else IndexOf(s, needle, from + 1)
  }

  lemma ContainsIndexOf(s: string, needle: string)
    ensures Contains(s, needle) <==> IndexOf(s, needle, 0) != -1
  {
    if IndexOf(s, needle, 0) != -1 {
      assert OccursAt(s, needle, IndexOf(s, needle, 0));
    }
  }

  /** QString::mid(pos): the text from `pos` on, empty when `pos` is past the end. */
  function Mid(s: string, pos: nat): (r: string)
    ensures pos <= |s| ==> s == s[..pos] + r
    ensures pos >= |s| ==> r == ""
  {
    if pos >= |s| then "" else s[pos..]
  }

  /** The first index at or after `i` whose character is not a QChar space. */
  function SkipSpaces(s: string, i: nat): (j: nat)
    requires i <= |s|
    ensures i <= j <= |s|
    ensures forall k :: i <= k < j ==> IsSpace(s[k])
    ensures j < |s| ==> !IsSpace(s[j])
    decreases |s| - i
  {
    if i == |s| || !IsSpace(s[i]) then i else SkipSpaces(s, i + 1)
  }

  /** The first index at or after `i` whose character is a QChar space. */
  function SkipNonSpaces(s: string, i: nat): (j: nat)
    requires i <= |s|
    ensures i <= j <= |s|
    ensures forall k :: i <= k < j ==> !IsSpace(s[k])
    ensures j < |s| ==> IsSpace(s[j])
    decreases |s| - i
  {
    if i == |s| || IsSpace(s[i]) then i else SkipNonSpaces(s, i + 1)
  }

  /** One past the last non-space character of `s[lo..hi]`, or `lo` if there is none. */
  function TrimEnd(s: string, lo: nat, hi: nat): (j: nat)
    requires lo <= hi <= |s|
    ensures lo <= j <= hi
    ensures forall k :: j <= k < hi ==> IsSpace(s[k])
    ensures j > lo ==> !IsSpace(s[j - 1])
    decreases hi
  {
    if hi == lo || !IsSpace(s[hi - 1]) then hi else TrimEnd(s, lo, hi - 1)
  }

  /** QString::trimmed: `s` without its leading and trailing whitespace. The
      result is the slice of `s` that starts after its leading run of spaces
      and stops before its trailing run. */
  function Trimmed(s: string): (r: string)
    ensures |r| <= |s|
    ensures r == "" <==> forall k :: 0 <= k < |s| ==> IsSpace(s[k])
    ensures r != "" ==> !IsSpace(r[0]) && !IsSpace(r[|r| - 1])
    ensures var a := SkipSpaces(s, 0);
            && a + |r| <= |s| && r == s[a..a + |r|]
            && (forall k :: 0 <= k < a ==> IsSpace(s[k]))
            && (forall k :: a + |r| <= k < |s| ==> IsSpace(s[k]))
  {
    var a := SkipSpaces(s, 0);
    var b := TrimEnd(s, a, |s|);
    assert b > a ==> !IsSpace(s[a..b][0]);
    s[a..b]
  }

  predicate NoSpace(w: string) {
    forall k :: 0 <= k < |w| ==> !IsSpace(w[k])
  }

  /** The maximal runs of non-space characters of `s`, in order. */
  function Words(s: string): (ws: seq<string>)
    ensures forall k :: 0 <= k < |ws| ==> ws[k] != "" && NoSpace(ws[k])
    decreases |s|
  {
    var a := SkipSpaces(s, 0);
    if a == |s| then []
    else
      var b := SkipNonSpaces(s, a);
      [s[a..b]] + Words(s[b..])
  }

  /** The words joined by single spaces. */
  function JoinWords(ws: seq<string>): string {
    if ws == [] then ""
    else if |ws| == 1 then ws[0]
    else ws[0] + " " + JoinWords(ws[1..])
  }

  /** QString::simplified: whitespace trimmed at both ends, and every internal
      run of whitespace replaced by one space. */
  function Simplified(s: string): (r: string)
  {
    JoinWords(Words(s))
  }

  lemma {:induction false} JoinWordsShape(ws: seq<string>)
    requires forall k :: 0 <= k < |ws| ==> ws[k] != "" && NoSpace(ws[k])
    ensures var r := JoinWords(ws);
            (r == "" <==> ws == [])
            && (r != "" ==> !IsSpace(r[0]) && !IsSpace(r[|r| - 1]))
            && (forall k :: 0 <= k < |r| ==> IsSpace(r[k]) ==> r[k] == ' ')
            && (forall k :: 0 <= k < |r| - 1 ==> !(IsSpace(r[k]) && IsSpace(r[k + 1])))
  {
    if |ws| > 1 {
      JoinWordsShape(ws[1..]);
      var rest := JoinWords(ws[1..]);
      var r := ws[0] + " " + rest;
      assert JoinWords(ws) == r;
      forall k | 0 <= k < |r|
        ensures IsSpace(r[k]) ==> r[k] == ' '
      {
        if k > |ws[0]| { assert r[k] == rest[k - |ws[0]| - 1]; }
      }
      forall k | 0 <= k < |r| - 1
        ensures !(IsSpace(r[k]) && IsSpace(r[k + 1]))
      {
        if k > |ws[0]| { assert r[k] == rest[k - |ws[0]| - 1] && r[k + 1] == rest[k - |ws[0]|]; }
        else if k == |ws[0]| { assert r[k + 1] == rest[0]; }
        else if k == |ws[0]| - 1 { assert r[k] == ws[0][k]; }
        else { assert r[k] == ws[0][k]; }
      }
      assert r[|r| - 1] == rest[|rest| - 1];
    }
  }

  /** What `simplified` promises: the same words as `s`, in the same order;
      no whitespace at either end, every remaining whitespace character is a
      plain space, and no two of them are adjacent. */
  lemma SimplifiedShape(s: string)
    ensures var r := Simplified(s);
            Words(r) == Words(s)
            && (r == "" <==> forall k :: 0 <= k < |s| ==> IsSpace(s[k]))
            && (r != "" ==> !IsSpace(r[0]) && !IsSpace(r[|r| - 1]))
            && (forall k :: 0 <= k < |r| ==> IsSpace(r[k]) ==> r[k] == ' ')
            && (forall k :: 0 <= k < |r| - 1 ==> !(IsSpace(r[k]) && IsSpace(r[k + 1])))
  {
    JoinWordsShape(Words(s));
    WordsJoinWords(Words(s));
    var a := SkipSpaces(s, 0);
    if a < |s| {
      assert !IsSpace(s[a]);
    }
  }

  lemma {:induction false} SkipSpacesShift(p: string, s: string, i: nat)
    requires i <= |s|
    ensures SkipSpaces(p + s, |p| + i) == |p| + SkipSpaces(s, i)
    decreases |s| - i
  {
    if i < |s| {
      assert (p + s)[|p| + i] == s[i];
      SkipSpacesShift(p, s, i + 1);
    }
  }

  lemma {:induction false} SkipNonSpacesShift(p: string, s: string, i: nat)
    requires i <= |s|
    ensures SkipNonSpaces(p + s, |p| + i) == |p| + SkipNonSpaces(s, i)
    decreases |s| - i
  {
    if i < |s| {
      assert (p + s)[|p| + i] == s[i];
      SkipNonSpacesShift(p, s, i + 1);
    }
  }

  lemma SliceShift(p: string, s: string, a: nat, b: nat)
    requires a <= b <= |s|
    ensures (p + s)[|p| + a..|p| + b] == s[a..b]
  {
    var q := p + s;
    forall k | 0 <= k < b - a
      ensures q[|p| + a..|p| + b][k] == s[a..b][k]
    {
      assert q[|p| + a + k] == s[a + k];
    }
  }

  /** One step of `Words`: the first word `w`, then the words of what follows it. */
  lemma WordsStep(s: string, a: nat, b: nat, w: string, rest: string)
    requires a == SkipSpaces(s, 0) && a < |s| && b == SkipNonSpaces(s, a)
    requires w == s[a..b] && rest == s[b..]
    ensures Words(s) == [w] + Words(rest)
  {
  }

  /** After a leading space, the first word starts and ends one place later. */
  lemma LeadingSpaceBounds(t: string)
    ensures SkipSpaces(" " + t, 0) == 1 + SkipSpaces(t, 0)
    ensures SkipSpaces(t, 0) < |t| ==>
              SkipNonSpaces(" " + t, 1 + SkipSpaces(t, 0)) == 1 + SkipNonSpaces(t, SkipSpaces(t, 0))
  {
    SkipSpacesShift(" ", t, 0);
    assert SkipSpaces(" " + t, 0) == SkipSpaces(" " + t, 1) by { assert (" " + t)[0] == ' '; }
    if SkipSpaces(t, 0) < |t| {
      SkipNonSpacesShift(" ", t, SkipSpaces(t, 0));
    }
  }

  /** The first word of `" " + t` is the first word of `t`, one place later. */
  lemma LeadingSpaceWord(t: string, a: nat, b: nat)
    requires a == SkipSpaces(t, 0) && a < |t| && b == SkipNonSpaces(t, a)
    ensures Words(" " + t) == [t[a..b]] + Words(t[b..])
  {
    var u := " " + t;
    LeadingSpaceBounds(t);
    SliceShift(" ", t, a, b);
    assert u[1 + b..] == t[b..];
    WordsStep(u, 1 + a, 1 + b, t[a..b], t[b..]);
  }

  /** A leading space does not change the words. */
  lemma LeadingSpace(t: string)
    ensures Words(" " + t) == Words(t)
  {
    var a := SkipSpaces(t, 0);
    if a < |t| {
      var b := SkipNonSpaces(t, a);
      LeadingSpaceWord(t, a, b);
      WordsStep(t, a, b, t[a..b], t[b..]);
    } else {
      LeadingSpaceBounds(t);
    }
  }

  /** `Words` undoes `JoinWords`: joining words with single spaces loses nothing. */
  lemma {:induction false} WordsJoinWords(ws: seq<string>)
    requires forall k :: 0 <= k < |ws| ==> ws[k] != "" && NoSpace(ws[k])
    ensures Words(JoinWords(ws)) == ws
  {
    if ws != [] {
      var w := ws[0];
      var r := JoinWords(ws);
      if |ws| == 1 {
        assert r == w;
        assert SkipSpaces(r, 0) == 0;
        assert SkipNonSpaces(r, 0) == |w|;
        assert r[0..|w|] == w && r[|w|..] == "";
      } else {
        var rest := JoinWords(ws[1..]);
        assert r == w + " " + rest;
        assert SkipSpaces(r, 0) == 0 by { assert r[0] == w[0]; }
        assert SkipNonSpaces(r, 0) == |w| by {
          forall k | 0 <= k < |w| ensures !IsSpace(r[k]) { assert r[k] == w[k]; }
          assert r[|w|] == ' ';
        }
        assert r[0..|w|] == w && r[|w|..] == " " + rest;
        LeadingSpace(rest);
        WordsJoinWords(ws[1..]);
        assert ws == [w] + ws[1..];
      }
    }
  }

  /** `simplified` is idempotent. */
  lemma SimplifiedIdempotent(s: string)
    ensures Simplified(Simplified(s)) == Simplified(s)
  {
    WordsJoinWords(Words(s));
  }

  /** The number of characters of `s` that belong to `seps`. */
  function CountIn(s: string, seps: set<char>): nat {
    if s == [] then 0 else (if s[0] in seps then 1 else 0) + CountIn(s[1..], seps)
  }

  /** QString::split with empty parts kept: the pieces between separators. */
  function Split(s: string, seps: set<char>): (parts: seq<string>)
    ensures |parts| == CountIn(s, seps) + 1
    ensures forall k, j :: 0 <= k < |parts| && 0 <= j < |parts[k]| ==> parts[k][j] !in seps
    decreases |s|
  {
    var cut := FirstIn(s, seps, 0);
    if cut == |s| then
      CountNone(s, seps);
      [s]
    else
      CountSplit(s, seps, cut);
      [s[..cut]] + Split(s[cut + 1..], seps)
  }

  /** The first index at or after `i` holding a separator, or `|s|`. */
  function FirstIn(s: string, seps: set<char>, i: nat): (j: nat)
    requires i <= |s|
    ensures i <= j <= |s|
    ensures forall k :: i <= k < j ==> s[k] !in seps
    ensures j < |s| ==> s[j] in seps
    decreases |s| - i
  {
    if i == |s| || s[i] in seps then i else FirstIn(s, seps, i + 1)
  }

  lemma {:induction false} CountNone(s: string, seps: set<char>)
    requires forall k :: 0 <= k < |s| ==> s[k] !in seps
    ensures CountIn(s, seps) == 0
  {
    if s != [] {
      CountNone(s[1..], seps);
    }
  }

  lemma {:induction false} CountSplit(s: string, seps: set<char>, cut: nat)
    requires cut < |s| && s[cut] in seps
    requires forall k :: 0 <= k < cut ==> s[k] !in seps
    ensures CountIn(s, seps) == 1 + CountIn(s[cut + 1..], seps)
  {
    if cut == 0 {
    } else {
      CountSplit(s[1..], seps, cut - 1);
      assert s[1..][cut..] == s[cut + 1..];
    }
  }

  /** The pieces joined back with the separator between them. */
  function JoinWith(parts: seq<string>, sep: char): string {
    if parts == [] then ""
    else if |parts| == 1 then parts[0]
    else parts[0] + [sep] + JoinWith(parts[1..], sep)
  }

  /** Splitting on one character and joining back with it gives the text back. */
  lemma {:induction false} JoinSplit(s: string, sep: char)
    ensures JoinWith(Split(s, {sep}), sep) == s
    decreases |s|
  {
    var cut := FirstIn(s, {sep}, 0);
    if cut < |s| {
      JoinSplit(s[cut + 1..], sep);
      var tail := Split(s[cut + 1..], {sep});
      assert Split(s, {sep}) == [s[..cut]] + tail;
      assert |tail| >= 1;
      assert JoinWith([s[..cut]] + tail, sep) == s[..cut] + [sep] + JoinWith(tail, sep) by {
        assert ([s[..cut]] + tail)[1..] == tail;
      }
      assert s == s[..cut] + [s[cut]] + s[cut + 1..];
    }
  }
}
