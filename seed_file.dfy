/**
 * Seed files: a text file of keywords (or of task lines), read in text mode
 * under some encoding. The codecs themselves are an oracle: `decode(e, bytes)`
 * is the text the bytes decode to under `e`, or `None` when Python raises
 * `UnicodeDecodeError`.
 */
module SeedFile {
  import opened Wrappers
  import Text

  newtype byte = x: int | 0 <= x < 256

  /** The encodings the crawlers try, by their Python codec names. */
  datatype Encoding = Utf8 | Utf8Sig | Gbk | Gb2312 | Gb18030 | Utf16

  type Decoder = (Encoding, seq<byte>) -> Option<string>

  /** Reading a whole file in text mode: decode, then translate newlines. */
  function ReadText(decode: Decoder, e: Encoding, content: seq<byte>): (r: Option<string>)
    ensures r.Some? <==> decode(e, content).Some?
    ensures r.Some? ==> '\r' !in r.value
  {
    var text :- decode(e, content);
    Some(Text.Universal(text))
  }

  /** The first of `candidates` under which the whole content decodes. */
  function FirstDecoding(candidates: seq<Encoding>, decode: Decoder, content: seq<byte>): (r: Option<Encoding>)
    ensures r.None? <==> forall k :: 0 <= k < |candidates| ==> decode(candidates[k], content).None?
    ensures r.Some? ==> exists k :: 0 <= k < |candidates| && candidates[k] == r.value &&
                          decode(r.value, content).Some? &&
                          forall j :: 0 <= j < k ==> decode(candidates[j], content).None?
  {
    if candidates == [] then None
    else if decode(candidates[0], content).Some? then Some(candidates[0])
    else
      var r := FirstDecoding(candidates[1..], decode, content);
      assert forall k :: 1 <= k < |candidates| ==> candidates[1..][k - 1] == candidates[k];
      r
  }

  /** `[line.strip() for line in lines if line.strip()]`: the keywords, blank lines dropped. */
  function NonBlankStripped(lines: seq<string>): (ks: seq<string>)
    ensures |ks| <= |lines|
    ensures forall i :: 0 <= i < |ks| ==> Trimmed(ks[i])
  {
    if lines == [] then []
    else
      var k := Text.Strip(lines[0]);
      var rest := NonBlankStripped(lines[1..]);
      if k == [] then rest else [k] + rest
  }

  /** The positions of the lines that are not blank, in increasing order. */
  function NonBlankPositions(lines: seq<string>): (ps: seq<nat>)
    ensures forall j :: 0 <= j < |ps| ==> ps[j] < |lines| && Text.Strip(lines[ps[j]]) != []
    ensures forall j, k :: 0 <= j < k < |ps| ==> ps[j] < ps[k]
    ensures forall i :: 0 <= i < |lines| && Text.Strip(lines[i]) != [] ==> i in ps
  {
    if lines == [] then []
    else
      var rest := NonBlankPositions(lines[1..]);
      var later := Shifted(rest);
      ShiftedLines(lines, rest);
      if Text.Strip(lines[0]) == [] then later
      else
        ConsFirst(lines, later);
        [0] + later
  }

  lemma ConsFirst(lines: seq<string>, later: seq<nat>)
    requires lines != [] && Text.Strip(lines[0]) != []
    requires forall j :: 0 <= j < |later| ==> 0 < later[j] < |lines| && Text.Strip(lines[later[j]]) != []
    requires forall j, k :: 0 <= j < k < |later| ==> later[j] < later[k]
    requires forall i :: 1 <= i < |lines| && Text.Strip(lines[i]) != [] ==> i in later
    ensures var ps := [0] + later;
            && (forall j :: 0 <= j < |ps| ==> ps[j] < |lines| && Text.Strip(lines[ps[j]]) != [])
            && (forall j, k :: 0 <= j < k < |ps| ==> ps[j] < ps[k])
            && (forall i :: 0 <= i < |lines| && Text.Strip(lines[i]) != [] ==> i in ps)
  {
    var ps := [0] + later;
    assert forall j :: 1 <= j < |ps| ==> ps[j] == later[j - 1];
  }

  /** Every position one further on. */
  function Shifted(ps: seq<nat>): (qs: seq<nat>)
    ensures |qs| == |ps| && forall j :: 0 <= j < |ps| ==> qs[j] == ps[j] + 1
  {
    seq(|ps|, j requires 0 <= j < |ps| => ps[j] + 1)
  }

  lemma ShiftedLines(lines: seq<string>, rest: seq<nat>)
    requires lines != []
    requires forall j :: 0 <= j < |rest| ==> rest[j] < |lines[1..]| && Text.Strip(lines[1..][rest[j]]) != []
    requires forall j, k :: 0 <= j < k < |rest| ==> rest[j] < rest[k]
    requires forall i :: 0 <= i < |lines[1..]| && Text.Strip(lines[1..][i]) != [] ==> i in rest
    ensures var later := Shifted(rest);
            && (forall j :: 0 <= j < |later| ==> 0 < later[j] < |lines| && Text.Strip(lines[later[j]]) != [])
            && (forall j, k :: 0 <= j < k < |later| ==> later[j] < later[k])
            && (forall i :: 1 <= i < |lines| && Text.Strip(lines[i]) != [] ==> i in later)
  {
    var later := Shifted(rest);
    forall j | 0 <= j < |later| ensures 0 < later[j] < |lines| && Text.Strip(lines[later[j]]) != [] {
      assert lines[1..][rest[j]] == lines[later[j]];
    }
    forall i | 1 <= i < |lines| && Text.Strip(lines[i]) != [] ensures i in later {
      assert lines[1..][i - 1] == lines[i];
      var j :| 0 <= j < |rest| && rest[j] == i - 1;
      assert later[j] == i;
    }
  }

  /**
   * The keywords are the stripped non-blank lines, in their order in the
   * file: the `j`-th keyword is the `j`-th non-blank line, stripped.
   */
  lemma {:induction false} NonBlankStrippedInOrder(lines: seq<string>)
    ensures var ks, ps := NonBlankStripped(lines), NonBlankPositions(lines);
            |ks| == |ps| && forall j :: 0 <= j < |ks| ==> ks[j] == Text.Strip(lines[ps[j]])
  {
    if lines != [] {
      NonBlankStrippedInOrder(lines[1..]);
      var tail, rest := NonBlankStripped(lines[1..]), NonBlankPositions(lines[1..]);
      var later := Shifted(rest);
      assert forall j :: 0 <= j < |tail| ==> tail[j] == Text.Strip(lines[later[j]]) by {
        forall j | 0 <= j < |tail| ensures tail[j] == Text.Strip(lines[later[j]]) {
          assert lines[1..][rest[j]] == lines[later[j]];
        }
      }
      var k := Text.Strip(lines[0]);
      if k != [] {
        var ks, ps := [k] + tail, [0] + later;
        assert NonBlankStripped(lines) == ks && NonBlankPositions(lines) == ps;
        forall j | 0 <= j < |ks| ensures ks[j] == Text.Strip(lines[ps[j]]) {
          if j > 0 {
            assert ks[j] == tail[j - 1] && ps[j] == later[j - 1];
          }
        }
      }
    }
  }

  /** A keyword as the crawlers use it: non-empty, no surrounding whitespace. */
  predicate Trimmed(k: string) {
    k != [] && !Text.IsSpace(k[0]) && !Text.IsSpace(k[|k| - 1])
  }

  /** `[line.strip() for line in lines]`: one keyword per line, blank ones kept as `""`. */
  function AllStripped(lines: seq<string>): (ks: seq<string>)
    ensures |ks| == |lines|
    ensures forall i :: 0 <= i < |lines| ==> ks[i] == Text.Strip(lines[i])
  {
    seq(|lines|, i requires 0 <= i < |lines| => Text.Strip(lines[i]))
  }

  /**
   * Splitting a text on `'\n'` (as `content.split('\n')`) and iterating it
   * line by line (as `for line in f`) give the same keywords once lines are
   * stripped and blank ones dropped.
   */
  lemma {:induction false} SplitAndLinesAgree(t: string)
    ensures NonBlankStripped(Text.Split(t, '\n')) == NonBlankStripped(Text.Lines(t))
    decreases |t|
  {
    var k := Text.IndexOf(t, '\n');
    if t == [] {
      assert Text.Split(t, '\n') == [""];
      assert Text.AllSpace("");
    } else if k == |t| {
      assert Text.Split(t, '\n') == [t];
      assert t[..|t|] == t;
      assert Text.Lines(t) == [t] + Text.Lines([]);
    } else {
      var rest := t[k + 1..];
      var pieces := Text.Split(t, '\n');
      var lines := Text.Lines(t);
      assert pieces[0] == t[..k] && pieces[1..] == Text.Split(rest, '\n');
      assert lines[0] == t[..k + 1] && lines[1..] == Text.Lines(rest);
      assert Text.Strip(lines[0]) == Text.Strip(pieces[0]) by {
        assert t[..k + 1] == t[..k] + ['\n'];
        Text.StripIgnoresTrailingSpace(t[..k], '\n');
      }
      SplitAndLinesAgree(rest);
    }
  }
}
