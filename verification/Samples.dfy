/**
 16-bit little-endian samples in a run of bytes, and their saturated sum.
 */
module Samples {
  import opened RingCells

  type byte = x: int | 0 <= x < 256

  const MIN_SAMPLE := -32768
  const MAX_SAMPLE := 32767

  predicate InRange(x: int) {
    MIN_SAMPLE <= x <= MAX_SAMPLE
  }

  predicate Even(n: int) {
    n % 2 == 0
  }

  lemma EvenSum(a: int, b: int)
    requires Even(a) && Even(b)
    ensures Even(a + b) && Even(a - b)
  {
  }

  function Clamp(x: int): (r: int)
    ensures InRange(r) && (InRange(x) ==> r == x)
  {
    if x < MIN_SAMPLE then MIN_SAMPLE else if x > MAX_SAMPLE then MAX_SAMPLE else x
  }

  function Sample(lo: byte, hi: byte): (r: int)
    ensures InRange(r)
  {
    var v := lo + 256 * hi;
    if v > MAX_SAMPLE then v - 65536 else v
  }

  function Bytes(x: int): (r: seq<byte>)
    requires InRange(x)
    ensures |r| == 2 && Sample(r[0], r[1]) == x
  {
    var v := if x < 0 then x + 65536 else x;
    [v % 256, v / 256]
  }

  /** The samples of a run of bytes; an odd byte at the end is none. */
  function Decoded(bytes: seq<byte>): (r: seq<int>)
    ensures |r| == |bytes| / 2
  {
    if |bytes| < 2 then [] else [Sample(bytes[0], bytes[1])] + Decoded(bytes[2..])
  }

  lemma {:induction false} DecodedAt(bytes: seq<byte>, k: nat)
    requires k < |bytes| / 2
    ensures Decoded(bytes)[k] == Sample(bytes[2 * k], bytes[2 * k + 1])
  {
    if k > 0 {
      DecodedAt(bytes[2..], k - 1);
    }
  }

  lemma {:induction false} DecodedConcat(a: seq<byte>, b: seq<byte>, h: nat)
    requires |a| == 2 * h
    ensures Decoded(a + b) == Decoded(a) + Decoded(b)
  {
    if h == 0 {
      assert a + b == b;
    } else {
      assert (a + b)[2..] == a[2..] + b;
      DecodedConcat(a[2..], b, h - 1);
    }
  }

  /** `ast_slinear_saturated_add` on every whole sample. */
  function SaturatedSum(cells: seq<byte>, data: seq<byte>): (r: seq<byte>)
    ensures |r| == |cells|
  {
    if |cells| < 2 || |data| < 2 then cells
    else
      Bytes(Clamp(Sample(cells[0], cells[1]) + Sample(data[0], data[1]))) + SaturatedSum(cells[2..], data[2..])
  }

  /** The sum of each two samples, kept in range. */
  lemma {:induction false} SaturatedSumAt(cells: seq<byte>, data: seq<byte>, k: nat)
    requires |cells| == |data| && k < |cells| / 2
    ensures Decoded(SaturatedSum(cells, data))[k] == Clamp(Decoded(cells)[k] + Decoded(data)[k])
  {
    var s := Bytes(Clamp(Sample(cells[0], cells[1]) + Sample(data[0], data[1])));
    assert SaturatedSum(cells, data)[2..] == SaturatedSum(cells[2..], data[2..]);
    if k > 0 {
      SaturatedSumAt(cells[2..], data[2..], k - 1);
    }
  }

  lemma {:induction false} SaturatedSumConcat(a: seq<byte>, b: seq<byte>, c: seq<byte>, d: seq<byte>, h: nat)
    requires |a| == |c| == 2 * h
    ensures SaturatedSum(a + b, c + d) == SaturatedSum(a, c) + SaturatedSum(b, d)
  {
    if h == 0 {
      assert a + b == b && c + d == d;
    } else {
      assert (a + b)[2..] == a[2..] + b && (c + d)[2..] == c[2..] + d;
      SaturatedSumConcat(a[2..], b, c[2..], d, h - 1);
    }
  }

  lemma SaturatedSumFills()
    ensures Fills<byte>(SaturatedSum)
  {
  }

  /** Whole samples do not notice where the storage wraps. */
  lemma SplicedSum(cells: seq<byte>, data: seq<byte>, cut: nat)
    requires |cells| == |data| && Even(cut)
    ensures Fills<byte>(SaturatedSum) && Spliced(SaturatedSum, cells, data, cut) == SaturatedSum(cells, data)
  {
    SaturatedSumFills();
    hide SaturatedSum;
    if |data| > cut {
      SaturatedSumConcat(cells[..cut], cells[cut..], data[..cut], data[cut..], cut / 2);
      assert cells[..cut] + cells[cut..] == cells && data[..cut] + data[cut..] == data;
    }
  }

  /** The loop of `saturated_sum`, in place on `|data|` bytes from offset `at`. */
  method SumInPlace(cells: array<byte>, at: nat, data: seq<byte>)
    requires at + |data| <= cells.Length
    modifies cells
    ensures cells[..] == Stored(old(cells[..]), at, SaturatedSum(old(cells[..])[at..at + |data|], data))
  {
    hide SaturatedSum, Sample, Clamp, Bytes, Stored;
    ghost var all := cells[..];
    ghost var was := all[at..at + |data|];
    var n, s := |data| / 2, 0;
    SumNone(all, at, was, data);
    while s < n
      invariant s <= n
      invariant cells[..] == Stored(all, at, SaturatedSum(was[..2 * s], data[..2 * s]))
    {
      var i := at + 2 * s;
      Untouched(all, at, SaturatedSum(was[..2 * s], data[..2 * s]));
      var sum := Bytes(Clamp(Sample(cells[i], cells[i + 1]) + Sample(data[2 * s], data[2 * s + 1])));
      SumStep(was, data, s);
      StoreTwo(all, at, SaturatedSum(was[..2 * s], data[..2 * s]), sum);
      cells[i] := sum[0];
      cells[i + 1] := sum[1];
      s := s + 1;
    }
    SumEnd(was[..2 * n], was[2 * n..], data[..2 * n], data[2 * n..], n);
    assert was[..2 * n] + was[2 * n..] == was && data[..2 * n] + data[2 * n..] == data;
    StoreSame(all, at, SaturatedSum(was[..2 * n], data[..2 * n]), at + |data|);
    assert was[2 * n..] == all[at + 2 * n..at + |data|];
  }

  lemma SumNone(all: seq<byte>, at: nat, was: seq<byte>, data: seq<byte>)
    requires at <= |all|
    ensures Stored(all, at, SaturatedSum(was[..0], data[..0])) == all
  {
  }

  lemma Untouched(all: seq<byte>, at: nat, sum: seq<byte>)
    requires at + |sum| <= |all|
    ensures forall k :: at + |sum| <= k < |all| ==> Stored(all, at, sum)[k] == all[k]
  {
  }

  lemma StoreTwo(all: seq<byte>, at: nat, sum: seq<byte>, two: seq<byte>)
    requires at + |sum| + 2 <= |all| && |two| == 2
    ensures var i := at + |sum|;
            Stored(all, at, sum + two) == Stored(all, at, sum)[i := two[0]][i + 1 := two[1]]
  {
  }

  /** Storing what is there changes nothing. */
  lemma StoreSame(all: seq<byte>, at: nat, sum: seq<byte>, end: nat)
    requires at + |sum| <= end <= |all|
    ensures Stored(all, at, sum + all[at + |sum|..end]) == Stored(all, at, sum)
  {
  }

  lemma OneSum(a: seq<byte>, c: seq<byte>)
    requires |a| == |c| == 2
    ensures SaturatedSum(a, c) == Bytes(Clamp(Sample(a[0], a[1]) + Sample(c[0], c[1])))
  {
    hide Bytes, Sample, Clamp;
    assert a[2..] == [];
  }

  lemma SumStep(was: seq<byte>, data: seq<byte>, s: nat)
    requires |was| == |data| && 2 * s + 2 <= |data|
    ensures SaturatedSum(was[..2 * s + 2], data[..2 * s + 2]) ==
            SaturatedSum(was[..2 * s], data[..2 * s])
            + Bytes(Clamp(Sample(was[2 * s], was[2 * s + 1]) + Sample(data[2 * s], data[2 * s + 1])))
  {
    hide Bytes, Sample, Clamp, SaturatedSum;
    var a, c := was[2 * s..2 * s + 2], data[2 * s..2 * s + 2];
    assert was[..2 * s + 2] == was[..2 * s] + a && data[..2 * s + 2] == data[..2 * s] + c;
    SaturatedSumConcat(was[..2 * s], a, data[..2 * s], c, s);
    OneSum(a, c);
  }

  lemma SumOdd(cells: seq<byte>, data: seq<byte>)
    requires |cells| < 2
    ensures SaturatedSum(cells, data) == cells
  {
  }

  lemma SumEnd(a: seq<byte>, b: seq<byte>, c: seq<byte>, d: seq<byte>, s: nat)
    requires |a| == |c| == 2 * s && |b| < 2
    ensures SaturatedSum(a + b, c + d) == SaturatedSum(a, c) + b
  {
    hide SaturatedSum;
    SaturatedSumConcat(a, b, c, d, s);
    SumOdd(b, d);
  }
}
