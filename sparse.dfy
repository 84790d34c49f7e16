/**
 * `sparse_to_dense_compute` (lilac/data/dataset_utils.py): drops the
 * Nones from the input, runs a function over the dense values, and puts
 * the Nones back where they were.
 */
module SparseDense {
  import opened Wrappers

  /** The non-None values of s, in order. */
  function Densify<T>(s: seq<Option<T>>): (d: seq<T>)
    ensures |d| <= |s|
  {
    if s == [] then []
    else Densify(s[..|s| - 1]) + (if s[|s| - 1].Some? then [s[|s| - 1].value] else [])
  }

  /**
   * Fills the non-None positions of s with outs, in order, and keeps
   * None where s has None.
   */
  function Sparsify<T, U>(s: seq<Option<T>>, outs: seq<U>): (r: seq<Option<U>>)
    requires |Densify(s)| <= |outs|
    ensures |r| == |s|
    ensures forall i :: 0 <= i < |s| ==> (r[i].None? <==> s[i].None?)
  {
    if s == [] then []
    else
      var prefix := s[..|s| - 1];
      Sparsify(prefix, outs) + [if s[|s| - 1].None? then None else Some(outs[|Densify(prefix)|])]
  }

  /** The non-None positions of the result carry the outputs, in order: nothing is dropped or reordered. */
  lemma {:induction false} DensifySparsify<T, U>(s: seq<Option<T>>, outs: seq<U>)
    requires |Densify(s)| <= |outs|
    ensures Densify(Sparsify(s, outs)) == outs[..|Densify(s)|]
  {
    if s != [] {
      var prefix := s[..|s| - 1];
      var r := Sparsify(s, outs);
      assert r[..|r| - 1] == Sparsify(prefix, outs);
      DensifySparsify(prefix, outs);
      var n := |Densify(prefix)|;
      if s[|s| - 1].Some? {
        assert outs[..n + 1] == outs[..n] + [outs[n]];
      }
    }
  }

  /**
   * `sparse_to_dense_compute`. The function sees the dense values; each
   * None of the input yields None and each other input yields the next
   * output. When the function gives too few outputs, `next` raises inside
   * the generator, which Python turns into RuntimeError: `raised` holds it
   * and `out` holds what was yielded before.
   */
  method SparseToDenseCompute<T, U>(sparse: seq<Option<T>>, func: seq<T> -> seq<U>) returns (out: seq<Option<U>>, raised: Option<Exception>)
    ensures raised.Some? <==> |func(Densify(sparse))| < |Densify(sparse)|
    ensures raised.Some? ==> raised.value == RuntimeError
    ensures raised.None? ==> out == Sparsify(sparse, func(Densify(sparse)))
    ensures raised.Some? ==>
      && |out| < |sparse| && sparse[|out|].Some?
      && |Densify(sparse[..|out|])| == |func(Densify(sparse))|
      && out == Sparsify(sparse[..|out|], func(Densify(sparse)))
  {
    var denseOutput := func(Densify(sparse));
    var next := 0;
    out := [];
    var i := 0;
    while i < |sparse|
      invariant 0 <= i <= |sparse|
      invariant next == |Densify(sparse[..i])| <= |denseOutput|
      invariant out == Sparsify(sparse[..i], denseOutput)
    {
      assert sparse[..i + 1][..i] == sparse[..i];
      if sparse[i].None? {
        out := out + [None];
      } else {
        if next >= |denseOutput| {
          DensifyPrefix(sparse, i);
          raised := Some(RuntimeError);
          return;
        }
        out := out + [Some(denseOutput[next])];
        next := next + 1;
      }
      i := i + 1;
    }
    assert sparse[..|sparse|] == sparse;
    raised := None;
  }

  /** Densify grows with the prefix: a longer prefix has at least as many values. */
  lemma {:induction false} DensifyPrefix<T>(s: seq<Option<T>>, i: nat)
    requires i < |s| && s[i].Some?
    ensures |Densify(s)| >= |Densify(s[..i])| + 1
    decreases |s|
  {
    if i < |s| - 1 {
      DensifyPrefix(s[..|s| - 1], i);
      assert s[..|s| - 1][..i] == s[..i];
    } else {
      assert s[..|s| - 1] == s[..i];
    }
  }
}
