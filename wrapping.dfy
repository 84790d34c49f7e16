/**
 * Wrapping map outputs in dicts (lilac/data/dataset_utils.py):
 * `_wrap_value_in_dict`, `_wrap_in_dicts` and `wrap_in_dicts` nest values
 * into single-key dicts according to a spec, a list of key paths, one per
 * level of list nesting.
 */
module Wrapping {
  import opened Wrappers
  import opened Items
  import opened Paths

  /** A float NaN becomes None, so that the stored value is sparse; anything else is kept. */
  function DeNaN(x: Item): Item
  {
    if x == NaN then Null else x
  }

  /** x inside one single-key dict per segment of props, the first segment outermost. */
  function WrapValue(x: Item, props: Path): Item
    decreases |props|
  {
    if props == [] then x else Dict([(props[0], WrapValue(x, props[1..]))])
  }

  /** Python's `d[key]` on a dict's ordered entries. */
  function Get(entries: seq<(string, Item)>, key: string): Option<Item>
  {
    if entries == [] then None
    else if entries[0].0 == key then Some(entries[0].1)
    else Get(entries[1..], key)
  }

  /** The value reached by indexing dicts with the segments of props in turn. */
  function Descend(x: Item, props: Path): Option<Item>
    decreases |props|
  {
    if props == [] then Some(x)
    else if !x.Dict? then None
    else match Get(x.entries, props[0])
      case None => None
      case Some(child) => Descend(child, props[1..])
  }

  /** Walking back down the keys of a wrapped value recovers the value. */
  lemma {:induction false} DescendWrapValue(x: Item, props: Path)
    ensures Descend(WrapValue(x, props), props) == Some(x)
    decreases |props|
  {
    if props != [] {
      DescendWrapValue(x, props[1..]);
    }
  }

  /** `_wrap_value_in_dict`: replaces NaN by None, then wraps from the innermost key out. */
  method WrapValueInDict(input: Item, props: Path) returns (r: Item)
    ensures r == WrapValue(DeNaN(input), props)
    ensures Descend(r, props) == Some(DeNaN(input))
    ensures props != [] ==> r.Dict? && |r.entries| == 1 && r.entries[0].0 == props[0]
  {
    var x := input;
    if x == NaN {
      x := Null;
    }
    var i := |props|;
    while i > 0
      invariant 0 <= i <= |props|
      invariant x == WrapValue(DeNaN(input), props[i..])
    {
      i := i - 1;
      assert props[i..][1..] == props[i + 1..];
      x := Dict([(props[i], x)]);
    }
    assert props[0..] == props;
    r := x;
    DescendWrapValue(DeNaN(input), props);
  }

  /** `spec[0] if spec else tuple()`. */
  function Props(spec: seq<Path>): Path
  {
    if spec == [] then [] else spec[0]
  }

  /** `spec[1:]`, which is empty for an empty spec. */
  function Rest(spec: seq<Path>): seq<Path>
  {
    if spec == [] then [] else spec[1..]
  }

  /**
   * `_wrap_in_dicts`. A one-entry spec wraps the value itself. Otherwise a
   * missing value (None or NaN) becomes `{}`, a dict or a primitive raises
   * ValueError, and a list has each element wrapped with the rest of the
   * spec before the list is wrapped with the first entry.
   */
  function WrapInDicts(input: Item, spec: seq<Path>): (r: Result<Item>)
    ensures r.Err? ==> r.error == ValueError
    ensures r.Ok? && |spec| == 1 ==> Descend(r.value, spec[0]) == Some(DeNaN(input))
  {
    if |spec| == 1 then
      DescendWrapValue(DeNaN(input), spec[0]);
      Ok(WrapValue(DeNaN(input), spec[0]))
    else if input == Null || input == NaN then Ok(Dict([]))
    else if input.Dict? || IsPrimitive(input) then Err(ValueError)
    else
      var xs := input.elems;
      var rs := seq(|xs|, i requires 0 <= i < |xs| => WrapInDicts(xs[i], Rest(spec)));
      if exists i :: 0 <= i < |rs| && rs[i].Err? then Err(ValueError)
      else Ok(WrapValue(List(seq(|rs|, i requires 0 <= i < |rs| => rs[i].value)), Props(spec)))
  }

  /**
   * `wrap_in_dicts`: a generator of `_wrap_in_dicts` over the inputs. It
   * yields the wrapped inputs in order until one raises; that ValueError
   * ends the generator and nothing is yielded for the inputs after it.
   */
  function WrapAllInDicts(inputs: seq<Item>, spec: seq<Path>): (g: Generated<Item>)
    ensures |g.yielded| <= |inputs|
    ensures forall i :: 0 <= i < |g.yielded| ==> WrapInDicts(inputs[i], spec) == Ok(g.yielded[i])
    ensures g.raised.None? <==> forall i :: 0 <= i < |inputs| ==> WrapInDicts(inputs[i], spec).Ok?
    ensures g.raised.None? ==> |g.yielded| == |inputs|
    ensures g.raised.Some? ==>
      g.raised.value == ValueError && |g.yielded| < |inputs| && WrapInDicts(inputs[|g.yielded|], spec).Err?
    decreases |inputs|
  {
    if inputs == [] then Generated([], None)
    else match WrapInDicts(inputs[0], spec)
      case Err(e) => Generated([], Some(e))
      case Ok(w) =>
        var rest := WrapAllInDicts(inputs[1..], spec);
        assert forall i :: 1 <= i < |inputs| ==> inputs[i] == inputs[1..][i - 1];
        Generated([w] + rest.yielded, rest.raised)
  }

  /**
   * The inputs that wrap without an error: above the last spec entry every
   * value is a list, None or NaN.
   */
  predicate Nestable(x: Item, spec: seq<Path>)
  {
    |spec| == 1 || x == Null || x == NaN
    || (x.List? && forall i :: 0 <= i < |x.elems| ==> Nestable(x.elems[i], Rest(spec)))
  }

  lemma {:induction false} WrapInDictsFailsExactlyWhenNotNestable(x: Item, spec: seq<Path>)
    ensures WrapInDicts(x, spec).Ok? <==> Nestable(x, spec)
  {
    if |spec| != 1 && x.List? {
      var xs := x.elems;
      var rs := seq(|xs|, i requires 0 <= i < |xs| => WrapInDicts(xs[i], Rest(spec)));
      forall i | 0 <= i < |xs|
        ensures rs[i].Ok? <==> Nestable(xs[i], Rest(spec))
      {
        WrapInDictsFailsExactlyWhenNotNestable(xs[i], Rest(spec));
      }
      assert WrapInDicts(x, spec).Ok? <==> forall i :: 0 <= i < |rs| ==> rs[i].Ok?;
    }
  }

  /** What wrapping keeps of an input: NaN and None both read back as None. */
  function Canon(x: Item, spec: seq<Path>): Item
    requires |spec| >= 1
    decreases |spec|
  {
    if |spec| == 1 then DeNaN(x)
    else if x == Null || x == NaN then Null
    else if x.List? then List(seq(|x.elems|, i requires 0 <= i < |x.elems| => Canon(x.elems[i], spec[1..])))
    else x
  }

  /** Reads a wrapped value back: the inverse of WrapInDicts up to Canon. */
  function Unwrap(w: Item, spec: seq<Path>): Option<Item>
    requires |spec| >= 1
    decreases |spec|
  {
    if |spec| == 1 then Descend(w, spec[0])
    else if w == Dict([]) then Some(Null)
    else match Descend(w, spec[0])
      case Some(List(ys)) =>
        var us := seq(|ys|, i requires 0 <= i < |ys| => Unwrap(ys[i], spec[1..]));
        if forall i :: 0 <= i < |us| ==> us[i].Some? then
          Some(List(seq(|us|, i requires 0 <= i < |us| => us[i].value)))
        else None
      case _ => None
  }

  /**
   * Round trip: a wrapped value reads back as its input (with NaN as
   * None); in particular a list input gives a list of the same length
   * under the first spec entry.
   */
  lemma {:induction false} WrapInDictsRoundTrip(x: Item, spec: seq<Path>)
    requires |spec| >= 1 && WrapInDicts(x, spec).Ok?
    ensures Unwrap(WrapInDicts(x, spec).value, spec) == Some(Canon(x, spec))
    decreases |spec|
  {
    if |spec| > 1 && x.List? {
      var xs := x.elems;
      assert Rest(spec) == spec[1..];
      var rs := seq(|xs|, i requires 0 <= i < |xs| => WrapInDicts(xs[i], spec[1..]));
      assert forall i :: 0 <= i < |rs| ==> rs[i].Ok?;
      var ys := seq(|rs|, i requires 0 <= i < |rs| => rs[i].value);
      var w := WrapValue(List(ys), spec[0]);
      assert WrapInDicts(x, spec).value == w;
      DescendWrapValue(List(ys), spec[0]);
      if spec[0] != [] {
        assert w != Dict([]);
      }
      var us := seq(|ys|, i requires 0 <= i < |ys| => Unwrap(ys[i], spec[1..]));
      forall i | 0 <= i < |ys|
        ensures us[i] == Some(Canon(xs[i], spec[1..]))
      {
        assert rs[i] == WrapInDicts(xs[i], spec[1..]) && rs[i].Ok?;
        WrapInDictsRoundTrip(xs[i], spec[1..]);
      }
      assert Unwrap(w, spec) == Some(List(seq(|us|, i requires 0 <= i < |us| => us[i].value)));
      assert seq(|us|, i requires 0 <= i < |us| => us[i].value)
          == seq(|xs|, i requires 0 <= i < |xs| => Canon(xs[i], spec[1..]));
    }
  }

  /** Every item that `wrap_in_dicts` yields reads back as its input. */
  lemma WrapAllInDictsRoundTrip(inputs: seq<Item>, spec: seq<Path>, i: nat)
    requires |spec| >= 1 && i < |WrapAllInDicts(inputs, spec).yielded|
    ensures Unwrap(WrapAllInDicts(inputs, spec).yielded[i], spec) == Some(Canon(inputs[i], spec))
  {
    WrapInDictsRoundTrip(inputs[i], spec);
  }

  /** `wrap_in_dicts` runs to the end exactly when every input is nestable under the spec. */
  lemma WrapAllInDictsRaisesExactlyWhenNotNestable(inputs: seq<Item>, spec: seq<Path>)
    ensures WrapAllInDicts(inputs, spec).raised.None? <==> forall i :: 0 <= i < |inputs| ==> Nestable(inputs[i], spec)
  {
    forall i | 0 <= i < |inputs|
      ensures WrapInDicts(inputs[i], spec).Ok? <==> Nestable(inputs[i], spec)
    {
      WrapInDictsFailsExactlyWhenNotNestable(inputs[i], spec);
    }
  }
}
