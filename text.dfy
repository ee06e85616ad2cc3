/**
 * The handful of Python string operations the crawlers rely on: `str.strip()`,
 * `str.split()` (on whitespace runs and on one separator), iterating a text
 * file line by line, the universal-newline translation of text-mode reads,
 * and the substring test `needle in text`.
 */
module Text {

  /** Python's `str.isspace()`: the characters `str.strip()` and `str.split()` treat as whitespace. */
  predicate IsSpace(c: char)
    ensures c == ' ' || c == '\t' || c == '\n' || c == '\r' || c == '\U{0B}' || c == '\U{0C}' ==> IsSpace(c)
    ensures '0' <= c <= '9' || 'a' <= c <= 'z' || 'A' <= c <= 'Z' || c == '_' || c == '-' ==> !IsSpace(c)
  {
    || c == ' '
    || ('\t' <= c <= '\r')
    || ('\U{1C}' <= c <= '\U{1F}')
    || c == '\U{85}'
    || c == '\U{A0}'
    || c == '\U{1680}'
    || ('\U{2000}' <= c <= '\U{200A}')
    || c == '\U{2028}'
    || c == '\U{2029}'
    || c == '\U{202F}'
    || c == '\U{205F}'
    || c == '\U{3000}'
  }

  predicate AllSpace(s: string) {
    forall i :: 0 <= i < |s| ==> IsSpace(s[i])
  }

  predicate NoSpace(s: string) {
    forall i :: 0 <= i < |s| ==> !IsSpace(s[i])
  }

  /** The first position at or after `i` that is not whitespace, or `|s|`. */
  function SpaceRunEnd(s: string, i: nat): (j: nat)
    requires i <= |s|
    ensures i <= j <= |s|
    ensures forall k :: i <= k < j ==> IsSpace(s[k])
    ensures j < |s| ==> !IsSpace(s[j])
    decreases |s| - i
  {
    if i < |s| && IsSpace(s[i]) then SpaceRunEnd(s, i + 1) else i
  }

  /** The start of the whitespace run that ends at `i`, going back no further than `lo`. */
  function SpaceRunStart(s: string, lo: nat, i: nat): (j: nat)
    requires lo <= i <= |s|
    ensures lo <= j <= i
    ensures forall k :: j <= k < i ==> IsSpace(s[k])
    ensures lo < j ==> !IsSpace(s[j - 1])
    decreases i
  {
    if lo < i && IsSpace(s[i - 1]) then SpaceRunStart(s, lo, i - 1) else i
  }

  /** `s.strip()`: drops the leading and the trailing whitespace and nothing else. */
  function Strip(s: string): (r: string)
    ensures |r| <= |s|
    ensures r == [] <==> AllSpace(s)
    ensures r != [] ==> !IsSpace(r[0]) && !IsSpace(r[|r| - 1])
  {
    var a := SpaceRunEnd(s, 0);
    var b := SpaceRunStart(s, a, |s|);
    assert a < |s| ==> a < b;
    s[a..b]
  }

  /**
   * What `strip()` keeps is determined by where the text proper starts and
   * ends: only whitespace before `a` and from `b` on, and no whitespace at
   * either end of `s[a..b]`.
   */
  lemma StripIs(s: string, a: nat, b: nat)
    requires a < b <= |s| && !IsSpace(s[a]) && !IsSpace(s[b - 1])
    requires forall k :: 0 <= k < a ==> IsSpace(s[k])
    requires forall k :: b <= k < |s| ==> IsSpace(s[k])
    ensures Strip(s) == s[a..b]
  {
    var a' := SpaceRunEnd(s, 0);
    assert a' == a;
    var b' := SpaceRunStart(s, a, |s|);
    assert b' == b;
  }

  /** A text with no whitespace at either end is its own `strip()`. */
  lemma StripKeepsTrimmed(s: string)
    requires s != [] && !IsSpace(s[0]) && !IsSpace(s[|s| - 1])
    ensures Strip(s) == s
  {
    StripIs(s, 0, |s|);
  }

  /** Stripping twice is stripping once. */
  lemma StripIdempotent(s: string)
    ensures Strip(Strip(s)) == Strip(s)
  {
    if Strip(s) != [] {
      StripKeepsTrimmed(Strip(s));
    }
  }

  /** A trailing whitespace character (such as a line's `'\n'`) does not change what `strip()` returns. */
  lemma StripIgnoresTrailingSpace(s: string, c: char)
    requires IsSpace(c)
    ensures Strip(s + [c]) == Strip(s)
  {
    var t := s + [c];
    if AllSpace(s) {
      assert AllSpace(t) by {
        forall i | 0 <= i < |t| ensures IsSpace(t[i]) {
          if i < |s| { assert t[i] == s[i]; }
        }
      }
    } else {
      var a := SpaceRunEnd(s, 0);
      var b := SpaceRunStart(s, a, |s|);
      assert a < b;
      CoreOfSnoc(s, c, a, b);
      StripIs(t, a, b);
    }
  }

  /** Appending whitespace leaves where the text proper starts and ends. */
  lemma CoreOfSnoc(s: string, c: char, a: nat, b: nat)
    requires IsSpace(c) && a < b <= |s| && !IsSpace(s[a]) && !IsSpace(s[b - 1])
    requires forall k :: 0 <= k < a ==> IsSpace(s[k])
    requires forall k :: b <= k < |s| ==> IsSpace(s[k])
    ensures var t := s + [c];
            && !IsSpace(t[a]) && !IsSpace(t[b - 1]) && t[a..b] == s[a..b]
            && (forall k :: 0 <= k < a ==> IsSpace(t[k]))
            && (forall k :: b <= k < |t| ==> IsSpace(t[k]))
  {
    var t := s + [c];
    forall k | 0 <= k < |t| && k != |s| ensures t[k] == s[k] { }
  }

  /** Concatenation of a list of strings, `"".join(parts)`. */
  function Concat(parts: seq<string>): string {
    if parts == [] then [] else parts[0] + Concat(parts[1..])
  }

  /** `sep.join(parts)` for a one-character separator. */
  function Join(parts: seq<string>, sep: char): string
    requires parts != []
  {
    if |parts| == 1 then parts[0] else parts[0] + [sep] + Join(parts[1..], sep)
  }

  /** Position of the first `c` in `s`, or `|s|` when `c` does not occur. */
  function IndexOf(s: string, c: char): (k: nat)
    ensures k <= |s|
    ensures k < |s| ==> s[k] == c
    ensures c !in s[..k]
  {
    if s == [] then 0 else if s[0] == c then 0 else 1 + IndexOf(s[1..], c)
  }

  /** `s.split(sep)`: the pieces between occurrences of `sep`, always at least one. */
  function Split(s: string, sep: char): (parts: seq<string>)
    ensures |parts| >= 1
    ensures forall i :: 0 <= i < |parts| ==> sep !in parts[i]
    ensures Join(parts, sep) == s
    decreases |s|
  {
    var k := IndexOf(s, sep);
    if k == |s| then [s]
    else
      assert s == s[..k] + [sep] + s[k + 1..];
      [s[..k]] + Split(s[k + 1..], sep)
  }

  /**
   * Iterating a file opened in text mode (`for line in f`): the lines, each
   * keeping its `'\n'` terminator, the last one possibly unterminated; no
   * empty trailing piece.
   */
  function Lines(s: string): (ls: seq<string>)
    ensures Concat(ls) == s
    ensures forall i :: 0 <= i < |ls| ==> ls[i] != []
    ensures forall i :: 0 <= i < |ls| ==> '\n' !in ls[i][..|ls[i]| - 1]
    ensures forall i :: 0 <= i < |ls| - 1 ==> ls[i][|ls[i]| - 1] == '\n'
    decreases |s|
  {
    if s == [] then []
    else
      var k := IndexOf(s, '\n');
      var n := if k == |s| then k else k + 1;
      assert s == s[..n] + s[n..];
      [s[..n]] + Lines(s[n..])
  }

  /**
   * Universal-newline translation of a text-mode read: `"\r\n"` and a lone
   * `'\r'` both become `'\n'`.
   */
  function Universal(s: string): (t: string)
    ensures '\r' !in t
    ensures |t| <= |s|
    decreases |s|
  {
    if s == [] then []
    else if s[0] == '\r' then
      if |s| > 1 && s[1] == '\n' then "\n" + Universal(s[2..]) else "\n" + Universal(s[1..])
    else [s[0]] + Universal(s[1..])
  }

  /** The characters of `s` that are not whitespace, in order. */
  function RemoveSpaces(s: string): (r: string)
    ensures NoSpace(r)
  {
    if s == [] then []
    else if IsSpace(s[0]) then RemoveSpaces(s[1..])
    else [s[0]] + RemoveSpaces(s[1..])
  }

  /** Position of the first whitespace character of `s`, or `|s|`. */
  function SpaceIndex(s: string): (k: nat)
    ensures k <= |s|
    ensures k < |s| ==> IsSpace(s[k])
    ensures NoSpace(s[..k])
  {
    if s == [] then 0 else if IsSpace(s[0]) then 0 else 1 + SpaceIndex(s[1..])
  }

  /** `s.split()`: the maximal runs of non-whitespace characters. */
  function Words(s: string): (ws: seq<string>)
    ensures forall i :: 0 <= i < |ws| ==> ws[i] != [] && NoSpace(ws[i])
    decreases |s|
  {
    if s == [] then []
    else if IsSpace(s[0]) then Words(s[1..])
    else
      var k := SpaceIndex(s);
      [s[..k]] + Words(s[k..])
  }

  lemma {:induction false} RemoveSpacesOfWord(w: string, rest: string)
    requires NoSpace(w)
    ensures RemoveSpaces(w + rest) == w + RemoveSpaces(rest)
    decreases |w|
  {
    if w == [] {
      assert w + rest == rest;
    } else {
      var s := w + rest;
      assert s[0] == w[0] && !IsSpace(w[0]);
      assert s[1..] == w[1..] + rest;
      assert NoSpace(w[1..]);
      RemoveSpacesOfWord(w[1..], rest);
      calc {
        RemoveSpaces(s);
        [s[0]] + RemoveSpaces(s[1..]);
        [w[0]] + (w[1..] + RemoveSpaces(rest));
        { assert w == [w[0]] + w[1..]; }
        w + RemoveSpaces(rest);
      }
    }
  }

  /** The words of `s`, glued back together, are exactly `s` without its whitespace. */
  lemma {:induction false} WordsCoverText(s: string)
    ensures Concat(Words(s)) == RemoveSpaces(s)
    decreases |s|
  {
    if s == [] {
    } else if IsSpace(s[0]) {
      WordsCoverText(s[1..]);
    } else {
      var k := SpaceIndex(s);
      assert s == s[..k] + s[k..];
      RemoveSpacesOfWord(s[..k], s[k..]);
      WordsCoverText(s[k..]);
    }
  }

  /** `SpaceIndex` is the one position with no whitespace before it and whitespace (or the end) at it. */
  lemma SpaceIndexIs(s: string, k: nat)
    requires k <= |s| && (forall j :: 0 <= j < k ==> !IsSpace(s[j])) && (k < |s| ==> IsSpace(s[k]))
    ensures SpaceIndex(s) == k
  {
    var m := SpaceIndex(s);
    assert forall i :: 0 <= i < m ==> s[..m][i] == s[i];
  }

  lemma SpaceIndexOfWord(w: string, rest: string)
    requires NoSpace(w) && rest != [] && IsSpace(rest[0])
    ensures SpaceIndex(w + rest) == |w|
  {
    var s := w + rest;
    assert forall j :: 0 <= j < |w| ==> s[j] == w[j];
    assert s[|w|] == rest[0];
    SpaceIndexIs(s, |w|);
  }

  lemma SpaceIndexOfSingle(w: string)
    requires NoSpace(w)
    ensures SpaceIndex(w) == |w|
  {
    SpaceIndexIs(w, |w|);
  }

  /** A single word splits into itself. */
  lemma WordsOfSingle(w: string)
    requires w != [] && NoSpace(w)
    ensures Words(w) == [w]
  {
    SpaceIndexOfSingle(w);
    assert w[..|w|] == w && w[|w|..] == [];
  }

  /** A word followed by a space and more text splits off as the first word. */
  lemma WordsOfWord(w: string, rest: string)
    requires w != [] && NoSpace(w)
    ensures Words(w + " " + rest) == [w] + Words(rest)
  {
    var s := w + " " + rest;
    SpaceIndexOfWord(w, " " + rest);
    assert s == w + (" " + rest);
    assert s[..|w|] == w && s[|w|..] == " " + rest;
    assert (" " + rest)[1..] == rest;
  }

  /** Python's `needle in text` for two strings. */
  predicate Contains(text: string, needle: string)
    decreases |text|
  {
    if |needle| > |text| then false
    else text[..|needle|] == needle || (text != [] && Contains(text[1..], needle))
  }
}
