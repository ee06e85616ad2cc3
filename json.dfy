/**
 * Decoded JSON values as the crawlers see them after `response.json()`, and
 * the Python operations they apply to them: `dict.get` with a default,
 * truthiness, `str()`, `int()`, iteration, `in` and subscription. Every
 * operation that raises in Python (`.get` on a list, `int("abc")`, iterating
 * an integer) returns `None` here.
 */
module Json {
  import opened Wrappers
  import Text

  /** A JSON document; Python's `None` is `JNull`. */
  datatype JValue =
    | JNull
    | JBool(b: bool)
    | JInt(i: int)
    | JStr(s: string)
    | JArr(elems: seq<JValue>)
    | JObj(fields: seq<Field>)

  /** One member of an object, in document order. */
  datatype Field = Field(key: string, value: JValue)

  /**
   * The value stored under `key`. When a document repeats a key the decoder
   * keeps the last value, so the search takes the last matching member.
   */
  function Lookup(fields: seq<Field>, key: string): (r: Option<JValue>)
    ensures r.Some? <==> exists i :: 0 <= i < |fields| && fields[i].key == key
    ensures r.Some? ==> exists i :: 0 <= i < |fields| && fields[i] == Field(key, r.value) &&
                          forall j :: i < j < |fields| ==> fields[j].key != key
  {
    LookupBelow(fields, key, |fields|)
  }

  /** The last member among the first `n` whose key is `key`. */
  function LookupBelow(fields: seq<Field>, key: string, n: nat): (r: Option<JValue>)
    requires n <= |fields|
    ensures r.Some? <==> exists i :: 0 <= i < n && fields[i].key == key
    ensures r.Some? ==> exists i :: 0 <= i < n && fields[i] == Field(key, r.value) &&
                          forall j :: i < j < n ==> fields[j].key != key
  {
    if n == 0 then None
    else if fields[n - 1].key == key then Some(fields[n - 1].value)
    else LookupBelow(fields, key, n - 1)
  }

  /** Python's `v.get(key, default)`; `None` when `v` is not a dict. */
  function Get(v: JValue, key: string, default: JValue): (r: Option<JValue>)
    ensures r.Some? <==> v.JObj?
    ensures v.JObj? && Lookup(v.fields, key).None? ==> r == Some(default)
    ensures v.JObj? && Lookup(v.fields, key).Some? ==> r == Lookup(v.fields, key)
  {
    if v.JObj? then Some(Lookup(v.fields, key).GetOr(default)) else None
  }

  /** Python truthiness of a decoded value. */
  predicate Truthy(v: JValue) {
    match v
    case JNull => false
    case JBool(b) => b
    case JInt(i) => i != 0
    case JStr(s) => s != []
    case JArr(es) => es != []
    case JObj(fs) => fs != []
  }

  /** A value is falsy exactly when it is `None`, `False`, `0`, or has length 0. */
  lemma TruthyAsPython(v: JValue)
    ensures Truthy(v) <==> !(v.JNull? || v == JBool(false) || v == JInt(0) || PyLen(v) == Some(0))
  {
    if v.JObj? && v.fields != [] {
      assert v.fields[0].key in Keys(v.fields);
    }
  }

  /** Python's `v == 1`, which also holds for `True`. */
  predicate IsOne(v: JValue)
    ensures IsOne(v) ==> Truthy(v)
    ensures v.JInt? || v.JBool? ==> (IsOne(v) <==> PyInt(v) == Some(1))
  {
    v == JInt(1) || v == JBool(true)
  }

  /** Python's `needle in v` for a string `needle`; `None` when `v` is no container. */
  function In(v: JValue, needle: string): (r: Option<bool>)
    ensures r.Some? <==> (v.JObj? || v.JArr? || v.JStr?)
    ensures v.JObj? ==> r == Some(Lookup(v.fields, needle).Some?)
  {
    match v
    case JObj(fs) => Some(Lookup(fs, needle).Some?)
    case JArr(es) => Some(JStr(needle) in es)
    case JStr(s) => Some(Text.Contains(s, needle))
    case _ => None
  }

  /** Python's `v[key]` for a string key: only a dict holding the key answers. */
  function Subscript(v: JValue, key: string): (r: Option<JValue>)
    ensures r.Some? <==> v.JObj? && Lookup(v.fields, key).Some?
  {
    if v.JObj? then Lookup(v.fields, key) else None
  }

  /** Python's `len(v)`; `None` when `v` has no length. */
  function PyLen(v: JValue): (n: Option<nat>)
    ensures n.Some? <==> (v.JArr? || v.JStr? || v.JObj?)
    ensures n.Some? ==> n == Some(|Iterate(v).value|)
  {
    match v
    case JArr(es) => Some(|es|)
    case JStr(s) => Some(|s|)
    case JObj(fs) => Some(|Keys(fs)|)
    case _ => None
  }

  /**
   * The keys of the dict a decoder builds from `fields`: each key once, at
   * the place of its first member (a later member only replaces the value).
   */
  function Keys(fields: seq<Field>): (ks: seq<string>)
    ensures |ks| <= |fields|
    ensures forall j, k :: 0 <= j < k < |ks| ==> ks[j] != ks[k]
    ensures forall key :: key in ks <==> exists i :: 0 <= i < |fields| && fields[i].key == key
  {
    if fields == [] then []
    else
      var n := |fields| - 1;
      var front := Keys(fields[..n]);
      assert forall i :: 0 <= i < n ==> fields[..n][i] == fields[i];
      if fields[n].key in front then front else front + [fields[n].key]
  }

  /** Later members never reorder the keys of earlier ones: the keys of a prefix are a prefix of the keys. */
  lemma {:induction false} KeysGrow(fields: seq<Field>, m: nat)
    requires m <= |fields|
    ensures var ks := Keys(fields[..m]);
            |ks| <= |Keys(fields)| && Keys(fields)[..|ks|] == ks
    decreases |fields|
  {
    if m < |fields| {
      var n := |fields| - 1;
      assert fields[..n][..m] == fields[..m];
      KeysGrow(fields[..n], m);
      var ks, front := Keys(fields[..m]), Keys(fields[..n]);
      assert Keys(fields)[..|front|] == front;
      assert Keys(fields)[..|ks|] == Keys(fields)[..|front|][..|ks|];
    } else {
      assert fields[..m] == fields;
    }
  }

  /**
   * Python's `for x in v`: a list yields its elements, a string its characters,
   * a dict its keys, each once; anything else raises.
   */
  function Iterate(v: JValue): (r: Option<seq<JValue>>)
    ensures r.Some? <==> (v.JArr? || v.JStr? || v.JObj?)
    ensures v.JArr? ==> r == Some(v.elems)
    ensures v.JStr? ==> r.Some? && |r.value| == |v.s|
    ensures v.JObj? ==> r.Some? && |r.value| == |Keys(v.fields)| &&
                        forall k :: 0 <= k < |r.value| ==> r.value[k] == JStr(Keys(v.fields)[k])
    ensures r.Some? && !v.JArr? ==> forall k :: 0 <= k < |r.value| ==> r.value[k].JStr?
  {
    match v
    case JArr(es) => Some(es)
    case JStr(s) => Some(seq(|s|, k requires 0 <= k < |s| => JStr([s[k]])))
    case JObj(fs) =>
      var ks := Keys(fs);
      Some(seq(|ks|, k requires 0 <= k < |ks| => JStr(ks[k])))
    case _ => None
  }

  // ---------------------------------------------------------------------
  // Decimal text: Python's `str(n)` and `int(s)` on integers
  // ---------------------------------------------------------------------

  predicate IsDigit(c: char) {
    '0' <= c <= '9'
  }

  predicate AllDigits(s: string) {
    forall i :: 0 <= i < |s| ==> IsDigit(s[i])
  }

  function DigitChar(d: nat): (c: char)
    requires d < 10
    ensures IsDigit(c) && c as int - '0' as int == d
  {
    ('0' as int + d) as char
  }

  /** The decimal digits of `n`, no leading zeros. */
  function NatToDecimal(n: nat): (s: string)
    ensures s != [] && AllDigits(s)
  {
    if n < 10 then [DigitChar(n)] else NatToDecimal(n / 10) + [DigitChar(n % 10)]
  }

  /** Python's `str(i)` for an integer. */
  function IntToDecimal(i: int): (s: string)
    ensures s != []
  {
    if i < 0 then "-" + NatToDecimal(-i) else NatToDecimal(i)
  }

  /** The value of a run of decimal digits. */
  function DigitsValue(s: string): nat
    requires AllDigits(s)
  {
    if s == [] then 0 else 10 * DigitsValue(s[..|s| - 1]) + (s[|s| - 1] as int - '0' as int)
  }

  /**
   * Python's `int(s)` on a string: surrounding whitespace, an optional sign
   * and at least one decimal digit; anything else raises.
   */
  function ParseInt(s: string): (r: Option<int>)
    ensures Text.AllSpace(s) ==> r.None?
    ensures r.Some? ==> Text.Strip(s) != [] && (r.value < 0 ==> Text.Strip(s)[0] == '-')
  {
    ParseTrimmed(Text.Strip(s))
  }

  /** `int()` once the surrounding whitespace is gone: an optional sign and at least one digit. */
  function ParseTrimmed(t: string): Option<int> {
    if t != [] && (t[0] == '-' || t[0] == '+') then
      if |t| > 1 && AllDigits(t[1..]) then
        var n: int := DigitsValue(t[1..]);
        Some(if t[0] == '-' then -n else n)
      else None
    else if t != [] && AllDigits(t) then Some(DigitsValue(t))
    else None
  }

  lemma {:induction false} DigitsOfNat(n: nat)
    ensures DigitsValue(NatToDecimal(n)) == n
  {
    if n >= 10 {
      DigitsOfNat(n / 10);
      var s := NatToDecimal(n);
      assert s[..|s| - 1] == NatToDecimal(n / 10);
    }
  }

  /** The decimal text of an integer begins and ends with no whitespace, so `strip()` keeps it. */
  lemma DecimalTrimmed(i: int)
    ensures Text.Strip(IntToDecimal(i)) == IntToDecimal(i)
  {
    var s := IntToDecimal(i);
    var d := NatToDecimal(if i < 0 then -i else i);
    assert IsDigit(d[0]) && IsDigit(d[|d| - 1]);
    assert s[0] == '-' || s[0] == d[0];
    assert s[|s| - 1] == d[|d| - 1];
    Text.StripKeepsTrimmed(s);
  }

  lemma ParseDigits(d: string)
    requires d != [] && AllDigits(d)
    ensures ParseTrimmed(d) == Some(DigitsValue(d))
  {
  }

  lemma ParseNegated(d: string)
    requires d != [] && AllDigits(d)
    ensures ParseTrimmed("-" + d) == Some(-(DigitsValue(d) as int))
  {
    assert ("-" + d)[1..] == d;
  }

  /** `int(str(i)) == i`: the decimal text of an integer parses back to it. */
  lemma ParseIntRoundTrip(i: int)
    ensures ParseInt(IntToDecimal(i)) == Some(i)
  {
    var n: nat := if i < 0 then -i else i;
    DigitsOfNat(n);
    DecimalTrimmed(i);
    if i < 0 {
      ParseNegated(NatToDecimal(n));
    } else {
      ParseDigits(NatToDecimal(n));
    }
  }

  // ---------------------------------------------------------------------
  // Python's str() and int() on decoded values
  // ---------------------------------------------------------------------

  /**
   * Python's `str(v)`. The text of a list or dict (its `repr`) is stood in for
   * by a fixed non-empty text, so it is exact for `None`, booleans, integers
   * and strings only.
   */
  function PyStr(v: JValue): (r: string)
    ensures v.JStr? ==> r == v.s
    ensures !v.JStr? ==> r != []
  {
    match v
    case JNull => "None"
    case JBool(b) => if b then "True" else "False"
    case JInt(i) => IntToDecimal(i)
    case JStr(s) => s
    case JArr(_) => "[...]"
    case JObj(_) => "{...}"
  }

  /** Python's `int(v)`; `None` when it raises. */
  function PyInt(v: JValue): (r: Option<int>)
    ensures v.JInt? ==> r == Some(v.i)
    ensures v.JNull? || v.JArr? || v.JObj? ==> r.None?
  {
    match v
    case JBool(b) => Some(if b then 1 else 0)
    case JInt(i) => Some(i)
    case JStr(s) => ParseInt(s)
    case _ => None
  }

  // ---------------------------------------------------------------------
  // Walking a list of items, keeping some, where any item may raise
  // ---------------------------------------------------------------------

  /** What a parser's loop body does with one item. */
  datatype Verdict<T> = Keep(value: T) | Drop | Raise

  /**
   * The list a `for item in items: ... users.append(...)` loop builds, or
   * `None` when some item makes the body raise (which abandons the list).
   */
  function Collect<T>(items: seq<JValue>, decide: JValue -> Verdict<T>): (r: Option<seq<T>>)
    ensures r.None? <==> exists i :: 0 <= i < |items| && decide(items[i]).Raise?
    ensures r.Some? ==> |r.value| <= |items|
    ensures r.Some? ==> forall j :: 0 <= j < |r.value| ==> exists i :: 0 <= i < |items| && decide(items[i]) == Keep(r.value[j])
  {
    if items == [] then Some([])
    else
      var front := Collect(items[..|items| - 1], decide);
      assert forall i :: 0 <= i < |items| - 1 ==> items[..|items| - 1][i] == items[i];
      if front.None? then None
      else match decide(items[|items| - 1])
        case Raise => None
        case Drop => front
        case Keep(x) => Some(front.value + [x])
  }

  /** The positions of the items the loop keeps, in increasing order. */
  function KeptPositions<T>(items: seq<JValue>, decide: JValue -> Verdict<T>): (ps: seq<nat>)
    ensures forall j :: 0 <= j < |ps| ==> ps[j] < |items| && decide(items[ps[j]]).Keep?
    ensures forall j, k :: 0 <= j < k < |ps| ==> ps[j] < ps[k]
    ensures forall i :: 0 <= i < |items| && decide(items[i]).Keep? ==> i in ps
  {
    if items == [] then []
    else
      var front := KeptPositions(items[..|items| - 1], decide);
      assert forall i :: 0 <= i < |items| - 1 ==> items[..|items| - 1][i] == items[i];
      if decide(items[|items| - 1]).Keep? then front + [|items| - 1] else front
  }

  /**
   * When no item raises, the loop keeps exactly the items its body accepts,
   * in their original order, each turned into the record the body built.
   */
  lemma {:induction false} CollectKeepsInOrder<T>(items: seq<JValue>, decide: JValue -> Verdict<T>)
    requires Collect(items, decide).Some?
    ensures var out := Collect(items, decide).value;
            var ps := KeptPositions(items, decide);
            |out| == |ps| && forall j :: 0 <= j < |out| ==> decide(items[ps[j]]) == Keep(out[j])
  {
    if items != [] {
      var n := |items| - 1;
      var front := items[..n];
      assert Collect(front, decide).Some?;
      CollectKeepsInOrder(front, decide);
      var out, ps := Collect(front, decide).value, KeptPositions(front, decide);
      PositionsLift(items, decide, front, out, ps);
      match decide(items[n]) {
        case Keep(x) =>
          CollectSnoc(items, decide, out, x);
          assert KeptPositions(items, decide) == ps + [n];
          PositionsSnoc(items, decide, out, ps, x);
        case Drop =>
          assert Collect(items, decide) == Some(out);
          assert KeptPositions(items, decide) == ps;
        case Raise =>
      }
    }
  }

  /** Positions that were kept among the items before the last are kept among all of them. */
  lemma PositionsLift<T>(items: seq<JValue>, decide: JValue -> Verdict<T>, front: seq<JValue>, out: seq<T>, ps: seq<nat>)
    requires items != [] && front == items[..|items| - 1] && |out| == |ps|
    requires forall j :: 0 <= j < |ps| ==> ps[j] < |front|
    requires forall j :: 0 <= j < |out| ==> decide(front[ps[j]]) == Keep(out[j])
    ensures forall j :: 0 <= j < |out| ==> ps[j] < |items| - 1 && decide(items[ps[j]]) == Keep(out[j])
  {
    forall j | 0 <= j < |out| ensures ps[j] < |items| - 1 && decide(items[ps[j]]) == Keep(out[j]) {
      assert front[ps[j]] == items[ps[j]];
    }
  }

  /** Keeping the last item adds its position and its record at the end. */
  lemma PositionsSnoc<T>(items: seq<JValue>, decide: JValue -> Verdict<T>, out: seq<T>, ps: seq<nat>, x: T)
    requires items != [] && |out| == |ps| && decide(items[|items| - 1]) == Keep(x)
    requires forall j :: 0 <= j < |out| ==> ps[j] < |items| - 1 && decide(items[ps[j]]) == Keep(out[j])
    ensures forall j :: 0 <= j < |out| + 1 ==> (ps + [|items| - 1])[j] < |items| && decide(items[(ps + [|items| - 1])[j]]) == Keep((out + [x])[j])
  {
  }

  /** A loop whose body keeps every item builds one record per item, in order. */
  lemma {:induction false} CollectKeepsAll<T>(items: seq<JValue>, decide: JValue -> Verdict<T>)
    requires forall i :: 0 <= i < |items| ==> decide(items[i]).Keep?
    ensures Collect(items, decide).Some?
    ensures |Collect(items, decide).value| == |items|
    ensures forall i :: 0 <= i < |items| ==> Collect(items, decide).value[i] == decide(items[i]).value
  {
    if items != [] {
      var n := |items| - 1;
      var front := items[..n];
      KeptFront(items, decide, front);
      CollectKeepsAll(front, decide);
      var before := Collect(front, decide).value;
      var x := decide(items[n]).value;
      CollectSnoc(items, decide, before, x);
      KeptOneEach(items, decide, before, x);
    }
  }

  lemma KeptFront<T>(items: seq<JValue>, decide: JValue -> Verdict<T>, front: seq<JValue>)
    requires items != [] && front == items[..|items| - 1]
    requires forall i :: 0 <= i < |items| ==> decide(items[i]).Keep?
    ensures forall i :: 0 <= i < |front| ==> decide(front[i]).Keep?
  {
    forall i | 0 <= i < |front| ensures decide(front[i]).Keep? {
      assert front[i] == items[i];
    }
  }

  /** The loop's last step when the last item is kept. */
  lemma CollectSnoc<T>(items: seq<JValue>, decide: JValue -> Verdict<T>, before: seq<T>, x: T)
    requires items != [] && Collect(items[..|items| - 1], decide) == Some(before)
    requires decide(items[|items| - 1]) == Keep(x)
    ensures Collect(items, decide) == Some(before + [x])
  {
  }

  /** Appending the last item's record to one record per earlier item gives one record per item. */
  lemma KeptOneEach<T>(items: seq<JValue>, decide: JValue -> Verdict<T>, before: seq<T>, x: T)
    requires items != [] && |before| == |items| - 1
    requires forall i :: 0 <= i < |before| ==> decide(items[..|items| - 1][i]) == Keep(before[i])
    requires decide(items[|items| - 1]) == Keep(x)
    ensures forall i :: 0 <= i < |items| ==> decide(items[i]) == Keep((before + [x])[i])
  {
    forall i | 0 <= i < |items| ensures decide(items[i]) == Keep((before + [x])[i]) {
      if i < |before| {
        assert items[..|items| - 1][i] == items[i];
      }
    }
  }

  /** The loop of a parser: append what the body keeps, give up when it raises. */
  method Harvest<T>(items: seq<JValue>, decide: JValue -> Verdict<T>) returns (r: Option<seq<T>>)
    ensures r == Collect(items, decide)
  {
    var kept: seq<T> := [];
    for i := 0 to |items|
      invariant Collect(items[..i], decide) == Some(kept)
    {
      assert items[..i + 1][..i] == items[..i];
      match decide(items[i]) {
        case Raise =>
          assert items[..i + 1][i] == items[i];
          return None;
        case Drop =>
        case Keep(x) =>
          kept := kept + [x];
      }
    }
    assert items[..|items|] == items;
    r := Some(kept);
  }
}
