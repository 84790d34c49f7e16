/**
 * Items: the JSON-like values that lilac datasets hold, and
 * `_replace_embeddings_with_none` from lilac/data/dataset_utils.py.
 */
module Items {
  import opened Wrappers

  /**
   * A row value. Dicts keep their entries in insertion order, as Python
   * dicts do; `NdArray` is a numpy array (an embedding vector).
   */
  datatype Item =
    | Null
    | NaN
    | Bool(b: bool)
    | Int(i: int)
    | Float(f: real)
    | Str(s: string)
    | NdArray(vector: seq<real>)
    | List(elems: seq<Item>)
    | Dict(entries: seq<(string, Item)>)

  /** lilac's `is_primitive`, as far as this model needs it: anything but a list or a dict. */
  predicate IsPrimitive(x: Item)
  {
    !x.List? && !x.Dict?
  }

  /** Whether an embedding (numpy array) occurs anywhere in x. */
  predicate HasEmbedding(x: Item)
  {
    match x
    case NdArray(_) => true
    case List(xs) => exists i :: 0 <= i < |xs| && HasEmbedding(xs[i])
    case Dict(es) => exists i :: 0 <= i < |es| && HasEmbedding(es[i].1)
    case _ => false
  }

  /**
   * `_replace_embeddings_with_none`: every numpy array becomes None; lists
   * and dicts keep their length, keys and order; everything else is kept.
   */
  function ReplaceEmbeddingsWithNone(x: Item): (r: Item)
    ensures !HasEmbedding(r)
    ensures !HasEmbedding(x) ==> r == x
    ensures x.NdArray? ==> r == Null
    ensures IsPrimitive(x) && !x.NdArray? ==> r == x
    ensures x.List? ==> r.List? && |r.elems| == |x.elems|
    ensures x.Dict? ==> r.Dict? && |r.entries| == |x.entries|
    ensures x.Dict? ==> forall i :: 0 <= i < |x.entries| ==> r.entries[i].0 == x.entries[i].0
  {
    match x
    case NdArray(_) => Null
    case List(xs) =>
      var ys := seq(|xs|, i requires 0 <= i < |xs| => ReplaceEmbeddingsWithNone(xs[i]));
      assert !HasEmbedding(x) ==> ys == xs;
      List(ys)
    case Dict(es) =>
      var fs := seq(|es|, i requires 0 <= i < |es| => (es[i].0, ReplaceEmbeddingsWithNone(es[i].1)));
      assert !HasEmbedding(x) ==> fs == es;
      Dict(fs)
    case _ => x
  }

  /**
   * The value at a position of x: `p` lists, level by level, the index of a
   * list element or of a dict entry (in insertion order).
   */
  function At(x: Item, p: seq<nat>): Option<Item>
    decreases |p|
  {
    if p == [] then Some(x)
    else match x
      case List(xs) => if p[0] < |xs| then At(xs[p[0]], p[1..]) else None
      case Dict(es) => if p[0] < |es| then At(es[p[0]].1, p[1..]) else None
      case _ => None
  }

  /**
   * The replacement works at every depth: the result has the same positions
   * as x; where x has an embedding the result has None, where x has any
   * other primitive the result has that same value, and where x has a list
   * or dict the result has one of the same kind, length and keys.
   */
  lemma {:induction false} ReplaceEmbeddingsAt(x: Item, p: seq<nat>)
    ensures At(ReplaceEmbeddingsWithNone(x), p).Some? <==> At(x, p).Some?
    ensures At(x, p).Some? ==> At(ReplaceEmbeddingsWithNone(x), p) == Some(ReplaceEmbeddingsWithNone(At(x, p).value))
    ensures At(x, p).Some? && At(x, p).value.NdArray? ==> At(ReplaceEmbeddingsWithNone(x), p) == Some(Null)
    ensures At(x, p).Some? && IsPrimitive(At(x, p).value) && !At(x, p).value.NdArray? ==>
      At(ReplaceEmbeddingsWithNone(x), p) == At(x, p)
    ensures At(x, p).Some? && At(x, p).value.List? ==>
      At(ReplaceEmbeddingsWithNone(x), p).value.List? &&
      |At(ReplaceEmbeddingsWithNone(x), p).value.elems| == |At(x, p).value.elems|
    ensures At(x, p).Some? && At(x, p).value.Dict? ==>
      var d := At(ReplaceEmbeddingsWithNone(x), p).value;
      && d.Dict? && |d.entries| == |At(x, p).value.entries|
      && forall i :: 0 <= i < |d.entries| ==> d.entries[i].0 == At(x, p).value.entries[i].0
    decreases |p|
  {
    if p != [] {
      var r := ReplaceEmbeddingsWithNone(x);
      match x
      case List(xs) =>
        if p[0] < |xs| {
          assert r.elems[p[0]] == ReplaceEmbeddingsWithNone(xs[p[0]]);
          ReplaceEmbeddingsAt(xs[p[0]], p[1..]);
        }
      case Dict(es) =>
        if p[0] < |es| {
          assert r.entries[p[0]].1 == ReplaceEmbeddingsWithNone(es[p[0]].1);
          ReplaceEmbeddingsAt(es[p[0]].1, p[1..]);
        }
      case _ =>
    }
  }
}
