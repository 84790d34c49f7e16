/**
 * Vector keys of nested inputs (lilac/data/dataset_utils.py): `_flatten_keys`
 * and `flatten_keys` give one key `(rowid, i1, ..., ik)` per leaf of a
 * nested list, in left-to-right order.
 */
module Flatten {
  import opened Wrappers
  import opened Items

  /** A key of the vector store: a row id followed by list indices. */
  datatype VectorKey = VectorKey(rowid: string, location: seq<nat>)

  /** Where flattening stops: the caller's predicate, `is_primitive`, or a dict. */
  predicate IsLeaf(x: Item, isPrimitive: Item -> bool)
  {
    isPrimitive(x) || IsPrimitive(x) || x.Dict?
  }

  /** The concatenation of a sequence of sequences. */
  function Concat<T>(ss: seq<seq<T>>): (r: seq<T>)
  {
    if ss == [] then [] else ss[0] + Concat(ss[1..])
  }

  lemma {:induction false} InConcat<T>(ss: seq<seq<T>>, x: T)
    ensures x in Concat(ss) <==> exists i :: 0 <= i < |ss| && x in ss[i]
  {
    if ss != [] {
      InConcat(ss[1..], x);
      if x in Concat(ss[1..]) {
        var i :| 0 <= i < |ss[1..]| && x in ss[1..][i];
        assert x in ss[i + 1];
      }
      if exists i :: 1 <= i < |ss| && x in ss[i] {
        var i :| 1 <= i < |ss| && x in ss[i];
        assert x in ss[1..][i - 1];
      }
    }
  }

  /** `_flatten_keys`: a leaf gives its own location; a list gives its elements' keys in order. */
  function FlattenKeysFrom(rowid: string, x: Item, location: seq<nat>, isPrimitive: Item -> bool): seq<VectorKey>
  {
    if IsLeaf(x, isPrimitive) then [VectorKey(rowid, location)]
    else
      var xs := x.elems;
      Concat(seq(|xs|, i requires 0 <= i < |xs| => FlattenKeysFrom(rowid, xs[i], location + [i], isPrimitive)))
  }

  /** The index paths from x down to a leaf, through lists that are not leaves. */
  predicate IsLeafPath(x: Item, p: seq<nat>, isPrimitive: Item -> bool)
    decreases |p|
  {
    if IsLeaf(x, isPrimitive) then p == []
    else p != [] && p[0] < |x.elems| && IsLeafPath(x.elems[p[0]], p[1..], isPrimitive)
  }

  /**
   * The keys of x are exactly the row id with the location followed by a
   * leaf path of x.
   */
  lemma {:induction false} FlattenKeysFromAreLeafPaths(rowid: string, x: Item, location: seq<nat>, isPrimitive: Item -> bool, k: VectorKey)
    ensures k in FlattenKeysFrom(rowid, x, location, isPrimitive) <==>
      && k.rowid == rowid
      && location <= k.location
      && IsLeafPath(x, k.location[|location|..], isPrimitive)
  {
    if !IsLeaf(x, isPrimitive) {
      var xs := x.elems;
      var ss := seq(|xs|, i requires 0 <= i < |xs| => FlattenKeysFrom(rowid, xs[i], location + [i], isPrimitive));
      InConcat(ss, k);
      if k in FlattenKeysFrom(rowid, x, location, isPrimitive) {
        var i :| 0 <= i < |ss| && k in ss[i];
        FlattenKeysFromAreLeafPaths(rowid, xs[i], location + [i], isPrimitive, k);
        var p := k.location[|location|..];
        assert p[0] == i && p[1..] == k.location[|location| + 1..];
      }
      if k.rowid == rowid && location <= k.location && IsLeafPath(x, k.location[|location|..], isPrimitive) {
        var p := k.location[|location|..];
        var i := p[0];
        assert location + [i] <= k.location;
        assert p[1..] == k.location[|location + [i]|..];
        FlattenKeysFromAreLeafPaths(rowid, xs[i], location + [i], isPrimitive, k);
        assert k in ss[i];
      }
    } else {
      if k.rowid == rowid && location <= k.location && k.location[|location|..] == [] {
        assert k.location == location;
      }
    }
  }

  /** Lexicographic order on locations: the first differing index is smaller. */
  predicate LexLess(a: seq<nat>, b: seq<nat>)
  {
    exists j :: 0 <= j < |a| && j < |b| && a[..j] == b[..j] && a[j] < b[j]
  }

  predicate Sorted(ks: seq<VectorKey>)
  {
    forall a, b :: 0 <= a < b < |ks| ==> LexLess(ks[a].location, ks[b].location)
  }

  lemma SortedAppend(xs: seq<VectorKey>, ys: seq<VectorKey>)
    requires Sorted(xs) && Sorted(ys)
    requires forall x, y :: x in xs && y in ys ==> LexLess(x.location, y.location)
    ensures Sorted(xs + ys)
  {
  }

  /** Keys from an earlier element of a list sort before keys from a later one. */
  lemma LexLessAcrossSiblings(location: seq<nat>, a: seq<nat>, b: seq<nat>)
    requires |location| < |a| && |location| < |b| && location <= a && location <= b
    requires a[|location|] < b[|location|]
    ensures LexLess(a, b)
  {
  }

  /**
   * `_flatten_keys` yields its keys in strictly increasing left-to-right
   * order, so no leaf gets two keys.
   */
  lemma {:induction false} FlattenKeysFromSorted(rowid: string, x: Item, location: seq<nat>, isPrimitive: Item -> bool)
    ensures Sorted(FlattenKeysFrom(rowid, x, location, isPrimitive))
  {
    if !IsLeaf(x, isPrimitive) {
      var xs := x.elems;
      var ss := seq(|xs|, i requires 0 <= i < |xs| => FlattenKeysFrom(rowid, xs[i], location + [i], isPrimitive));
      forall i | 0 <= i < |xs| ensures Sorted(FlattenKeysFrom(rowid, xs[i], location + [i], isPrimitive)) {
        FlattenKeysFromSorted(rowid, xs[i], location + [i], isPrimitive);
      }
      ConcatSorted(rowid, xs, location, isPrimitive, 0);
      assert ss[0..] == ss;
    }
  }

  lemma {:induction false} ConcatSorted(rowid: string, xs: seq<Item>, location: seq<nat>, isPrimitive: Item -> bool, from: nat)
    requires from <= |xs|
    requires forall i :: from <= i < |xs| ==> Sorted(FlattenKeysFrom(rowid, xs[i], location + [i], isPrimitive))
    ensures var ss := seq(|xs|, i requires 0 <= i < |xs| => FlattenKeysFrom(rowid, xs[i], location + [i], isPrimitive));
      && Sorted(Concat(ss[from..]))
      && forall k: VectorKey :: k in Concat(ss[from..]) ==>
           |location| < |k.location| && location <= k.location && k.location[|location|] >= from
    decreases |xs| - from
  {
    var ss := seq(|xs|, i requires 0 <= i < |xs| => FlattenKeysFrom(rowid, xs[i], location + [i], isPrimitive));
    if from < |xs| {
      ConcatSorted(rowid, xs, location, isPrimitive, from + 1);
      assert ss[from..][1..] == ss[from + 1..];
      var head := ss[from];
      var tail := Concat(ss[from + 1..]);
      forall k: VectorKey | k in head
        ensures |location| < |k.location| && location <= k.location && k.location[|location|] == from
      {
        FlattenKeysFromAreLeafPaths(rowid, xs[from], location + [from], isPrimitive, k);
        assert k.location[..|location| + 1] == location + [from];
      }
      forall k1: VectorKey, k2: VectorKey | k1 in head && k2 in tail
        ensures LexLess(k1.location, k2.location)
      {
        LexLessAcrossSiblings(location, k1.location, k2.location);
      }
      SortedAppend(head, tail);
    } else {
      assert ss[from..] == [];
    }
  }

  /** What `flatten_keys` yields for one row: None for a None input, the input's keys otherwise. */
  function RowKeys(rowid: string, x: Item, isPrimitive: Item -> bool): seq<Option<VectorKey>>
  {
    if x == Null then [None]
    else var ks := FlattenKeysFrom(rowid, x, [], isPrimitive); seq(|ks|, i requires 0 <= i < |ks| => Some(ks[i]))
  }

  /** `flatten_keys`: the rows of `zip(rowids, inputs)`, each giving its RowKeys. */
  function FlattenKeys(rowids: seq<string>, inputs: seq<Item>, isPrimitive: Item -> bool): seq<Option<VectorKey>>
  {
    if rowids == [] || inputs == [] then []
    else RowKeys(rowids[0], inputs[0], isPrimitive) + FlattenKeys(rowids[1..], inputs[1..], isPrimitive)
  }

  /** The number of rows that `zip` pairs up. */
  function ZipLength<A, B>(xs: seq<A>, ys: seq<B>): nat
  {
    if |xs| <= |ys| then |xs| else |ys|
  }

  /**
   * The output is the rows' outputs one after the other, in row order:
   * each row's None or keys form one contiguous block.
   */
  lemma {:induction false} FlattenKeysByRow(rowids: seq<string>, inputs: seq<Item>, isPrimitive: Item -> bool)
    ensures FlattenKeys(rowids, inputs, isPrimitive) ==
      Concat(seq(ZipLength(rowids, inputs), i requires 0 <= i < |rowids| && i < |inputs| => RowKeys(rowids[i], inputs[i], isPrimitive)))
  {
    var ss := seq(ZipLength(rowids, inputs), i requires 0 <= i < |rowids| && i < |inputs| => RowKeys(rowids[i], inputs[i], isPrimitive));
    if rowids != [] && inputs != [] {
      FlattenKeysByRow(rowids[1..], inputs[1..], isPrimitive);
      assert ss[1..] == seq(ZipLength(rowids[1..], inputs[1..]),
        i requires 0 <= i < |rowids[1..]| && i < |inputs[1..]| => RowKeys(rowids[1..][i], inputs[1..][i], isPrimitive));
    } else {
      assert ss == [];
    }
  }

  /**
   * One row's block: `[None]` for a None input; otherwise only keys, all
   * with the row's id, in strictly increasing order.
   */
  lemma RowKeysShape(rowid: string, x: Item, isPrimitive: Item -> bool)
    ensures x == Null ==> RowKeys(rowid, x, isPrimitive) == [None]
    ensures x != Null ==> forall j :: 0 <= j < |RowKeys(rowid, x, isPrimitive)| ==>
      RowKeys(rowid, x, isPrimitive)[j].Some? && RowKeys(rowid, x, isPrimitive)[j].value.rowid == rowid
    ensures x != Null ==> forall a, b :: 0 <= a < b < |RowKeys(rowid, x, isPrimitive)| ==>
      LexLess(RowKeys(rowid, x, isPrimitive)[a].value.location, RowKeys(rowid, x, isPrimitive)[b].value.location)
  {
    if x != Null {
      var ks := FlattenKeysFrom(rowid, x, [], isPrimitive);
      FlattenKeysFromSorted(rowid, x, [], isPrimitive);
      forall j | 0 <= j < |ks| ensures ks[j].rowid == rowid {
        FlattenKeysFromAreLeafPaths(rowid, x, [], isPrimitive, ks[j]);
      }
    }
  }

  function CountNone<T>(s: seq<Option<T>>): nat
  {
    if s == [] then 0 else (if s[0].None? then 1 else 0) + CountNone(s[1..])
  }

  /** How many of the zipped rows have a None input. */
  function NullRows(rowids: seq<string>, inputs: seq<Item>): nat
  {
    if rowids == [] || inputs == [] then 0
    else (if inputs[0] == Null then 1 else 0) + NullRows(rowids[1..], inputs[1..])
  }

  lemma {:induction false} CountNoneAppend<T>(a: seq<Option<T>>, b: seq<Option<T>>)
    ensures CountNone(a + b) == CountNone(a) + CountNone(b)
  {
    if a != [] {
      assert (a + b)[1..] == a[1..] + b;
      CountNoneAppend(a[1..], b);
    } else {
      assert a + b == b;
    }
  }

  lemma {:induction false} CountNoneOfSome(ks: seq<VectorKey>)
    ensures CountNone(seq(|ks|, i requires 0 <= i < |ks| => Some(ks[i]))) == 0
  {
    if ks != [] {
      var s := seq(|ks|, i requires 0 <= i < |ks| => Some(ks[i]));
      assert s[1..] == seq(|ks[1..]|, i requires 0 <= i < |ks[1..]| => Some(ks[1..][i]));
      CountNoneOfSome(ks[1..]);
    }
  }

  /**
   * `flatten_keys` yields exactly one None per row whose input is None
   * (rows past the shorter of the two inputs are dropped, as `zip` does).
   */
  lemma {:induction false} FlattenKeysNonePerNullRow(rowids: seq<string>, inputs: seq<Item>, isPrimitive: Item -> bool)
    ensures CountNone(FlattenKeys(rowids, inputs, isPrimitive)) == NullRows(rowids, inputs)
  {
    if rowids != [] && inputs != [] {
      var ks := FlattenKeysFrom(rowids[0], inputs[0], [], isPrimitive);
      var head := RowKeys(rowids[0], inputs[0], isPrimitive);
      CountNoneAppend(head, FlattenKeys(rowids[1..], inputs[1..], isPrimitive));
      if inputs[0] != Null {
        CountNoneOfSome(ks);
      }
      FlattenKeysNonePerNullRow(rowids[1..], inputs[1..], isPrimitive);
    }
  }

  /**
   * `flatten_keys` yields exactly the keys of the leaves of the rows with a
   * non-None input: a key is yielded if and only if it carries the id of
   * such a row and its indices lead from that row's input to a leaf.
   */
  lemma {:induction false} FlattenKeysAreLeaves(rowids: seq<string>, inputs: seq<Item>, isPrimitive: Item -> bool, k: VectorKey)
    ensures Some(k) in FlattenKeys(rowids, inputs, isPrimitive) <==> exists i ::
      && 0 <= i < |rowids| && i < |inputs| && inputs[i] != Null
      && k.rowid == rowids[i] && IsLeafPath(inputs[i], k.location, isPrimitive)
  {
    if rowids != [] && inputs != [] {
      var ks := FlattenKeysFrom(rowids[0], inputs[0], [], isPrimitive);
      var head := RowKeys(rowids[0], inputs[0], isPrimitive);
      FlattenKeysAreLeaves(rowids[1..], inputs[1..], isPrimitive, k);
      FlattenKeysFromAreLeafPaths(rowids[0], inputs[0], [], isPrimitive, k);
      assert k.location[0..] == k.location;
      if Some(k) in head {
        var j :| 0 <= j < |head| && head[j] == Some(k);
        assert inputs[0] != Null && k in ks;
      }
      if exists i :: 1 <= i < |rowids| && i < |inputs| && inputs[i] != Null
          && k.rowid == rowids[i] && IsLeafPath(inputs[i], k.location, isPrimitive) {
        var i :| 1 <= i < |rowids| && i < |inputs| && inputs[i] != Null
          && k.rowid == rowids[i] && IsLeafPath(inputs[i], k.location, isPrimitive);
        assert inputs[1..][i - 1] == inputs[i] && rowids[1..][i - 1] == rowids[i];
      }
      if Some(k) in FlattenKeys(rowids[1..], inputs[1..], isPrimitive) {
        var i :| 0 <= i < |rowids[1..]| && i < |inputs[1..]| && inputs[1..][i] != Null
          && k.rowid == rowids[1..][i] && IsLeafPath(inputs[1..][i], k.location, isPrimitive);
        assert inputs[i + 1] == inputs[1..][i] && rowids[i + 1] == rowids[1..][i];
      }
    }
  }
}
