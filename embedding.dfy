/**
 * The sentence-embedding model as an oracle. `encode` stands for the model's
 * answer on one text (a 384-dimensional vector, or a failure); the numerics
 * are not modelled.
 */
module Embedding {
  import opened Wrappers
  import opened Json

  /** Dimension of the `all-MiniLM-L6-v2` vectors, and of every `vector` column. */
  const Dim: nat := 384

  type Vector = v: seq<real> | |v| == Dim witness seq(384, _ => 0.0)

  /** The model on one text; `None` when encoding raises. */
  type Encoder = string -> Option<Vector>

  /**
   * `model.encode(texts)`: one vector per text, in order, or a failure of the
   * whole batch when any text fails.
   */
  function EncodeAll(encode: Encoder, texts: seq<string>): (r: Option<seq<Vector>>)
    ensures r.Some? ==> |r.value| == |texts| && forall i :: 0 <= i < |texts| ==> encode(texts[i]) == Some(r.value[i])
    ensures r.None? <==> exists i :: 0 <= i < |texts| && encode(texts[i]).None?
  {
    if texts == [] then Some([])
    else
      var front := EncodeAll(encode, texts[..|texts| - 1]);
      assert forall i :: 0 <= i < |texts| - 1 ==> texts[..|texts| - 1][i] == texts[i];
      if front.None? then None
      else match encode(texts[|texts| - 1])
        case None => None
        case Some(v) => Some(front.value + [v])
  }

  /** The texts handed to the model; it accepts only strings, so any other value fails the batch. */
  function AsTexts(values: seq<JValue>): (r: Option<seq<string>>)
    ensures r.Some? <==> forall i :: 0 <= i < |values| ==> values[i].JStr?
    ensures r.Some? ==> |r.value| == |values| && forall i :: 0 <= i < |values| ==> r.value[i] == values[i].s
  {
    if values == [] then Some([])
    else
      var front := AsTexts(values[..|values| - 1]);
      assert forall i :: 0 <= i < |values| - 1 ==> values[..|values| - 1][i] == values[i];
      var last := values[|values| - 1];
      if front.None? || !last.JStr? then None else Some(front.value + [last.s])
  }

  /** Encoding a batch of values: `model.encode([...])` on the values as texts. */
  function EncodeValues(encode: Encoder, values: seq<JValue>): (r: Option<seq<Vector>>)
    ensures r.Some? ==> |r.value| == |values|
    ensures r.Some? ==> forall i :: 0 <= i < |values| ==> values[i].JStr? && encode(values[i].s) == Some(r.value[i])
    ensures r.None? <==> exists i :: 0 <= i < |values| && (!values[i].JStr? || encode(values[i].s).None?)
  {
    var texts :- AsTexts(values);
    EncodeAll(encode, texts)
  }

  /**
   * `vectorize_data` on the names of a page's users: no vectors for no names,
   * otherwise one vector per name, or none at all when the model fails.
   */
  function EmbedNames(encode: Encoder, names: seq<JValue>): (vectors: seq<Vector>)
    ensures vectors == [] <==> names == [] || exists i :: 0 <= i < |names| && (!names[i].JStr? || encode(names[i].s).None?)
    ensures vectors != [] ==> |vectors| == |names|
    ensures vectors != [] ==> forall i :: 0 <= i < |names| ==> names[i].JStr? && encode(names[i].s) == Some(vectors[i])
  {
    if names == [] then [] else EncodeValues(encode, names).GetOr([])
  }
}
