/**
 * Shards of a dataset (lilac/data/dataset_utils.py): the item range that a
 * shard covers, and the parquet file name a shard is written to.
 */
module Shards {
  import opened Wrappers

  /** Python's `a // b` on integers: the quotient rounded toward negative infinity. */
  function FloorDiv(a: int, b: int): int
    requires b != 0
  {
    if b > 0 then a / b else (-a) / (-b)
  }

  /** `math.ceil(a / b)`, computed exactly (the source divides in floating point). */
  function CeilDiv(a: int, b: int): (q: int)
    requires b != 0
    ensures b > 0 ==> (q - 1) * b < a <= q * b
    ensures b < 0 ==> q * b <= a < (q - 1) * b
  {
    -FloorDiv(-a, b)
  }

  /** Items per shard: every item when there is no shard count; dividing by a zero count raises. */
  function ShardSize(shardCount: Option<int>, numItems: int): (r: Result<int>)
    ensures r.Err? <==> shardCount == Some(0)
    ensures r.Err? ==> r.error == ZeroDivisionError
    ensures r.Ok? && shardCount.Some? && shardCount.value > 0 ==>
      r.value * shardCount.value >= numItems > (r.value - 1) * shardCount.value
  {
    match shardCount
    case None => Ok(numItems)
    case Some(count) => if count == 0 then Err(ZeroDivisionError) else Ok(CeilDiv(numItems, count))
  }

  function Min(a: int, b: int): int
  {
    if a <= b then a else b
  }

  /** `shard_id_to_range`: the half-open range `[start, end)` of items that a shard covers. */
  function ShardIdToRange(shardId: Option<int>, shardCount: Option<int>, numItems: int): (r: Result<(int, int)>)
    ensures r.Err? <==> shardCount == Some(0)
    ensures r.Err? ==> r.error == ZeroDivisionError
    ensures r.Ok? && shardId.None? ==> r.value == (0, numItems)
    ensures r.Ok? && shardId.Some? ==> r.value.0 <= numItems && r.value.1 <= numItems
    ensures r.Ok? && shardId.Some? && shardId.value >= 0 && numItems >= 0 && (shardCount.None? || shardCount.value > 0) ==>
      0 <= r.value.0 <= r.value.1
  {
    match ShardSize(shardCount, numItems)
    case Err(e) => Err(e)
    case Ok(size) =>
      match shardId
      case None => Ok((0, numItems))
      case Some(id) =>
        assert numItems >= 0 && id >= 0 && (shardCount.None? || shardCount.value > 0) ==>
          0 <= size && 0 <= id * size <= (id + 1) * size;
        Ok((Min(id * size, numItems), Min((id + 1) * size, numItems)))
  }

  /** The range of shard `i` out of `count` shards of `n` items. */
  function Range(i: int, count: int, n: int): (int, int)
    requires count > 0
  {
    ShardIdToRange(Some(i), Some(count), n).value
  }

  /**
   * The shards 0 .. count-1 tile [0, n): the first starts at 0, the last
   * ends at n, and each one ends where the next one starts.
   */
  lemma ShardsTileItems(count: int, n: int)
    requires count > 0 && n >= 0
    ensures Range(0, count, n).0 == 0
    ensures Range(count - 1, count, n).1 == n
    ensures forall i :: 0 <= i < count - 1 ==> Range(i, count, n).1 == Range(i + 1, count, n).0
    ensures forall i :: 0 <= i < count ==> 0 <= Range(i, count, n).0 <= Range(i, count, n).1
  {
  }

  /** Every item of [0, n) falls in exactly one of the shards 0 .. count-1, shard k / size. */
  lemma ItemInExactlyOneShard(count: int, n: int, k: int)
    requires count > 0 && 0 <= k < n
    ensures var i := k / ShardSize(Some(count), n).value;
      && 0 <= i < count
      && Range(i, count, n).0 <= k < Range(i, count, n).1
      && forall j :: 0 <= j < count && Range(j, count, n).0 <= k < Range(j, count, n).1 ==> j == i
  {
    var size := CeilDiv(n, count);
    assert ShardSize(Some(count), n).value == size;
    var i := k / size;
    ShardOfItem(count, n, k, size);
    RangeIs(i, count, n);
    forall j | 0 <= j < count && Range(j, count, n).0 <= k < Range(j, count, n).1
      ensures j == i
    {
      RangeIs(j, count, n);
      QuotientIsUnique(k, size, j);
    }
  }

  /** The range of shard i, written out with the shard size. */
  lemma RangeIs(i: int, count: int, n: int)
    requires count > 0
    ensures Range(i, count, n) == (Min(i * CeilDiv(n, count), n), Min((i + 1) * CeilDiv(n, count), n))
  {
  }

  /** Item k of [0, n) lies in shard k / size, and that shard is one of the count shards. */
  lemma ShardOfItem(count: int, n: int, k: int, size: int)
    requires count > 0 && 0 <= k < n && size == CeilDiv(n, count)
    ensures size > 0 && 0 <= k / size < count
    ensures (k / size) * size <= k < (k / size + 1) * size
  {
    assert size * count >= n > (size - 1) * count;
    var i := k / size;
    assert k == i * size + k % size && 0 <= k % size < size;
    if i >= count {
      MulMonotone(count, i, size);
    }
  }

  lemma MulMonotone(a: int, b: int, c: int)
    requires 0 <= a <= b && c >= 0
    ensures a * c <= b * c
  {
  }

  lemma QuotientIsUnique(k: int, size: int, j: int)
    requires size > 0 && j * size <= k < (j + 1) * size
    ensures j == k / size
  {
    var q := k / size;
    assert k == q * size + k % size && 0 <= k % size < size;
    assert (j + 1) * size == j * size + size;
    assert (q + 1) * size == q * size + size;
    if j < q {
      MulMonotone(j + 1, q, size);
    } else if q < j {
      MulMonotone(q + 1, j, size);
    }
  }

  /** The decimal digit character of d. */
  function DigitChar(d: nat): char
    requires d < 10
  {
    (48 + d) as char
  }

  /** The decimal digits of n, without leading zeros. */
  function Digits(n: nat): (s: string)
    ensures |s| >= 1
  {
    if n < 10 then [DigitChar(n)] else Digits(n / 10) + [DigitChar(n % 10)]
  }

  /** The number that a string of decimal digits denotes (its inverse). */
  function DigitsValue(s: string): int
  {
    if s == [] then 0 else 10 * DigitsValue(s[..|s| - 1]) + (s[|s| - 1] as int - 48)
  }

  /** Left-pads s with '0' to width characters. */
  function ZeroPad(s: string, width: nat): (r: string)
    ensures |r| == if |s| >= width then |s| else width
  {
    if |s| >= width then s else seq(width - |s|, _ => '0') + s
  }

  /** Python's `f'{n:05d}'`: at least five characters, zeros after the sign. */
  function Format05(n: int): string
  {
    if n >= 0 then ZeroPad(Digits(n), 5) else "-" + ZeroPad(Digits(-n), 4)
  }

  /** `get_parquet_filename`. */
  function ParquetFilename(prefix: string, shardIndex: int, numShards: int): string
  {
    prefix + "-" + Format05(shardIndex) + "-of-" + Format05(numShards) + ".parquet"
  }

  lemma {:induction false} DigitsRoundTrip(n: nat)
    ensures DigitsValue(Digits(n)) == n
  {
    if n >= 10 {
      var s := Digits(n);
      assert s[..|s| - 1] == Digits(n / 10);
      DigitsRoundTrip(n / 10);
    }
  }

  lemma {:induction false} DigitsLength(n: nat, k: nat)
    requires k >= 1 && n < Pow10(k)
    ensures |Digits(n)| <= k
  {
    if n >= 10 {
      assert k >= 2;
      assert n / 10 < Pow10(k - 1);
      DigitsLength(n / 10, k - 1);
    }
  }

  function Pow10(k: nat): (p: nat)
    ensures p >= 1
  {
    if k == 0 then 1 else 10 * Pow10(k - 1)
  }

  lemma {:induction false} LeadingZerosDoNotCount(z: nat, s: string)
    ensures DigitsValue(seq(z, _ => '0') + s) == DigitsValue(s)
  {
    var zs := seq(z, _ => '0');
    if s == [] {
      assert zs + s == zs;
      AllZeros(z);
    } else {
      assert (zs + s)[..|zs + s| - 1] == zs + s[..|s| - 1];
      LeadingZerosDoNotCount(z, s[..|s| - 1]);
    }
  }

  lemma {:induction false} AllZeros(z: nat)
    ensures DigitsValue(seq(z, _ => '0')) == 0
  {
    if z > 0 {
      assert seq(z, _ => '0')[..z - 1] == seq(z - 1, _ => '0');
      AllZeros(z - 1);
    }
  }

  /** A shard number below 100000 is printed as exactly five digits, and reads back as itself. */
  lemma Format05RoundTrip(n: int)
    requires 0 <= n < 100000
    ensures |Format05(n)| == 5
    ensures DigitsValue(Format05(n)) == n
  {
    assert Pow10(5) == 100000;
    DigitsLength(n, 5);
    DigitsRoundTrip(n);
    if |Digits(n)| < 5 {
      LeadingZerosDoNotCount(5 - |Digits(n)|, Digits(n));
    }
  }

  /**
   * For shard numbers below 100000 the file name has fixed-width fields, and
   * both numbers can be read back from fixed offsets. Wider numbers widen
   * their field; ParquetFilenameInjective covers them.
   */
  lemma ParquetFilenameFields(prefix: string, shardIndex: int, numShards: int)
    requires 0 <= shardIndex < 100000 && 0 <= numShards < 100000
    ensures var f := ParquetFilename(prefix, shardIndex, numShards);
      && |f| == |prefix| + 23
      && f[..|prefix|] == prefix
      && DigitsValue(f[|prefix| + 1..|prefix| + 6]) == shardIndex
      && DigitsValue(f[|prefix| + 10..|prefix| + 15]) == numShards
      && f[|prefix| + 15..] == ".parquet"
  {
    Format05RoundTrip(shardIndex);
    Format05RoundTrip(numShards);
    var f := ParquetFilename(prefix, shardIndex, numShards);
    assert f[|prefix| + 1..|prefix| + 6] == Format05(shardIndex);
    assert f[|prefix| + 10..|prefix| + 15] == Format05(numShards);
  }

  /** The string is a run of decimal digits. */
  predicate AllDigits(s: string)
  {
    forall i :: 0 <= i < |s| ==> '0' <= s[i] <= '9'
  }

  lemma {:induction false} DigitsAreDigits(n: nat)
    ensures AllDigits(Digits(n))
  {
    if n >= 10 {
      DigitsAreDigits(n / 10);
    }
  }

  /** For any non-negative n, `{n:05d}` is a run of digits that reads back as n, whatever its width. */
  lemma Format05Reads(n: nat)
    ensures AllDigits(Format05(n))
    ensures DigitsValue(Format05(n)) == n
  {
    DigitsAreDigits(n);
    DigitsRoundTrip(n);
    if |Digits(n)| < 5 {
      LeadingZerosDoNotCount(5 - |Digits(n)|, Digits(n));
    }
  }

  /** In a digit run followed by `-of-`, the first dash is right after the digits. */
  lemma FirstDash(a: string, b: string)
    requires AllDigits(a)
    ensures (a + "-of-" + b)[|a|] == '-'
    ensures forall i :: 0 <= i < |a| ==> (a + "-of-" + b)[i] != '-'
  {
  }

  /** Two digit runs joined by `-of-` split back apart at the separator. */
  lemma SplitAtSeparator(a: string, b: string, c: string, d: string)
    requires AllDigits(a) && AllDigits(c)
    requires a + "-of-" + b == c + "-of-" + d
    ensures a == c && b == d
  {
    var s := a + "-of-" + b;
    FirstDash(a, b);
    FirstDash(c, d);
    assert |a| == |c|;
    assert a == s[..|a|] && c == (c + "-of-" + d)[..|c|];
    assert b == s[|a| + 4..] && d == (c + "-of-" + d)[|c| + 4..];
  }

  /** The file name is the prefix and a dash, then the two numbers joined by `-of-`, then `.parquet`. */
  lemma ParquetFilenameMiddle(prefix: string, shardIndex: int, numShards: int)
    ensures var f := ParquetFilename(prefix, shardIndex, numShards);
      && |f| >= |prefix| + 9
      && f[|prefix| + 1..|f| - 8] == Format05(shardIndex) + "-of-" + Format05(numShards)
  {
    var m := Format05(shardIndex) + "-of-" + Format05(numShards);
    var f := ParquetFilename(prefix, shardIndex, numShards);
    assert f == prefix + "-" + m + ".parquet";
  }

  /**
   * Distinct shards never share a file: for non-negative numbers of any
   * width, both numbers are recovered from the file name.
   */
  lemma ParquetFilenameInjective(prefix: string, i1: int, n1: int, i2: int, n2: int)
    requires 0 <= i1 && 0 <= n1 && 0 <= i2 && 0 <= n2
    requires ParquetFilename(prefix, i1, n1) == ParquetFilename(prefix, i2, n2)
    ensures i1 == i2 && n1 == n2
  {
    Format05Reads(i1);
    Format05Reads(n1);
    Format05Reads(i2);
    Format05Reads(n2);
    ParquetFilenameMiddle(prefix, i1, n1);
    ParquetFilenameMiddle(prefix, i2, n2);
    SplitAtSeparator(Format05(i1), Format05(n1), Format05(i2), Format05(n2));
  }
}
