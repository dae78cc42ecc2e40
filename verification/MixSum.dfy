/**
 What the mixer plays when many writers write one timeline at positions of their own.

 As long as no partial sum leaves the 16-bit range, the order of the writers does not matter.
 */
module MixSum {
  import opened RingCells
  import opened Samples

  /** The audio after `data` was written `at` bytes into it: summed up where there is some, then appended. */
  function Mixed(audio: seq<byte>, at: nat, data: seq<byte>): (r: seq<byte>)
    requires at <= |audio|
  {
    var m := if at + |data| < |audio| then |data| else |audio| - at;
    audio[..at] + SaturatedSum(audio[at..at + m], data[..m]) + data[m..] + audio[at + m..]
  }

  datatype Write = Write(at: nat, data: seq<byte>)

  function End(writes: seq<Write>): nat {
    if writes == [] then 0
    else
      var w := writes[|writes| - 1];
      var before := End(writes[..|writes| - 1]);
      if before < w.at + |w.data| then w.at + |w.data| else before
  }

  /** Whole samples, and no write leaves a gap. */
  predicate Writable(writes: seq<Write>) {
    writes == []
    || (var n := |writes| - 1;
        && Writable(writes[..n]) && writes[n].at <= End(writes[..n])
        && Even(writes[n].at) && Even(|writes[n].data|))
  }

  function Audio(writes: seq<Write>): (r: seq<byte>)
    requires Writable(writes)
    ensures |r| == End(writes)
  {
    if writes == [] then []
    else
      var n := |writes| - 1;
      Mixed(Audio(writes[..n]), writes[n].at, writes[n].data)
  }

  lemma OneMore(writes: seq<Write>, w: Write)
    requires Writable(writes) && w.at <= End(writes) && Even(w.at) && Even(|w.data|)
    ensures Writable(writes + [w]) && Audio(writes + [w]) == Mixed(Audio(writes), w.at, w.data)
  {
    hide Even, Mixed;
    assert (writes + [w])[..|writes|] == writes;
  }

  /** What one write adds to sample `k`. */
  function Share(w: Write, k: nat): int {
    if w.at <= 2 * k && 2 * k + 1 < w.at + |w.data| then Decoded(w.data)[(2 * k - w.at) / 2] else 0
  }

  function PlainSum(writes: seq<Write>, k: nat): int {
    if writes == [] then 0
    else PlainSum(writes[..|writes| - 1], k) + Share(writes[|writes| - 1], k)
  }

  /** No sum on the way leaves the range of a sample. */
  predicate NoOverflow(writes: seq<Write>, k: nat) {
    InRange(PlainSum(writes, k)) && (writes != [] ==> NoOverflow(writes[..|writes| - 1], k))
  }

  lemma {:induction false} EndEven(writes: seq<Write>)
    requires Writable(writes)
    ensures Even(End(writes))
  {
    if writes != [] {
      var n := |writes| - 1;
      EndEven(writes[..n]);
      EvenSum(writes[n].at, |writes[n].data|);
    }
  }

  lemma {:induction false} NothingPastEnd(writes: seq<Write>, k: nat)
    requires 2 * k >= End(writes)
    ensures PlainSum(writes, k) == 0
  {
    if writes != [] {
      NothingPastEnd(writes[..|writes| - 1], k);
    }
  }

  lemma MixedLength(audio: seq<byte>, at: nat, data: seq<byte>)
    requires at <= |audio|
    ensures |Mixed(audio, at, data)| == if |audio| < at + |data| then at + |data| else |audio|
  {
  }

  /** What a write leaves alone. */
  lemma MixedBeside(audio: seq<byte>, at: nat, data: seq<byte>, h: nat, a: nat, d: nat, k: nat)
    requires |audio| == 2 * h && at == 2 * a <= |audio| && |data| == 2 * d && k < h && !(a <= k < a + d)
    ensures k < |Mixed(audio, at, data)| / 2 && Decoded(Mixed(audio, at, data))[k] == Decoded(audio)[k]
  {
    hide Decoded, SaturatedSum, Sample;
    MixedLength(audio, at, data);
    DecodedAt(Mixed(audio, at, data), k);
    DecodedAt(audio, k);
  }

  /** What it appends. */
  lemma MixedBehind(audio: seq<byte>, at: nat, data: seq<byte>, h: nat, a: nat, d: nat, k: nat)
    requires |audio| == 2 * h && at == 2 * a <= |audio| && |data| == 2 * d && h <= k < a + d
    ensures k < |Mixed(audio, at, data)| / 2 && Decoded(Mixed(audio, at, data))[k] == Decoded(data)[k - a]
  {
    hide Decoded, SaturatedSum, Sample;
    MixedLength(audio, at, data);
    DecodedAt(Mixed(audio, at, data), k);
    DecodedAt(data, k - a);
  }

  /** What it sums up. */
  lemma MixedOver(audio: seq<byte>, at: nat, data: seq<byte>, h: nat, a: nat, d: nat, k: nat)
    requires |audio| == 2 * h && at == 2 * a <= |audio| && |data| == 2 * d && a <= k < a + d && k < h
    ensures k < |Mixed(audio, at, data)| / 2
    ensures Decoded(Mixed(audio, at, data))[k] == Clamp(Decoded(audio)[k] + Decoded(data)[k - a])
  {
    hide Decoded, SaturatedSum, Clamp, Sample;
    var m := if at + |data| < |audio| then |data| else |audio| - at;
    var sum := SaturatedSum(audio[at..at + m], data[..m]);
    MixedLength(audio, at, data);
    DecodedAt(Mixed(audio, at, data), k);
    SaturatedSumAt(audio[at..at + m], data[..m], k - a);
    DecodedAt(sum, k - a);
    DecodedAt(audio[at..at + m], k - a);
    DecodedAt(data[..m], k - a);
    DecodedAt(data, k - a);
    DecodedAt(audio, k);
  }

  /** A write seen sample by sample. */
  lemma MixedAt(audio: seq<byte>, at: nat, data: seq<byte>, h: nat, a: nat, d: nat, k: nat)
    requires |audio| == 2 * h && at == 2 * a <= |audio| && |data| == 2 * d
    requires k < h || k < a + d
    ensures |Mixed(audio, at, data)| / 2 == if h < a + d then a + d else h
    ensures Decoded(Mixed(audio, at, data))[k]
            == if !(a <= k < a + d) then Decoded(audio)[k]
               else if k < h then Clamp(Decoded(audio)[k] + Decoded(data)[k - a])
               else Decoded(data)[k - a]
  {
    hide Decoded, Mixed, Clamp;
    MixedLength(audio, at, data);
    if !(a <= k < a + d) {
      MixedBeside(audio, at, data, h, a, d, k);
    } else if k < h {
      MixedOver(audio, at, data, h, a, d, k);
    } else {
      MixedBehind(audio, at, data, h, a, d, k);
    }
  }

  /** Without overflow every sample played is the plain sum of what was written to it. */
  lemma {:induction false} PlaysPlainSum(writes: seq<Write>, k: nat)
    requires Writable(writes) && 2 * k < End(writes) && Even(End(writes)) && NoOverflow(writes, k)
    ensures Decoded(Audio(writes))[k] == PlainSum(writes, k)
  {
    hide Decoded, Mixed;
    var n := |writes| - 1;
    var before, w := Audio(writes[..n]), writes[n];
    EndEven(writes[..n]);
    MixedAt(before, w.at, w.data, |before| / 2, w.at / 2, |w.data| / 2, k);
    if 2 * k < |before| {
      PlaysPlainSum(writes[..n], k);
    } else {
      NothingPastEnd(writes[..n], k);
    }
  }

  // ---------- order does not matter ----------

  function Without(writes: seq<Write>, i: nat): seq<Write>
    requires i < |writes|
  {
    writes[..i] + writes[i + 1..]
  }

  lemma {:induction false} TakenOut(writes: seq<Write>, i: nat, k: nat)
    requires i < |writes|
    ensures PlainSum(writes, k) == PlainSum(Without(writes, i), k) + Share(writes[i], k)
    ensures var e, w := End(Without(writes, i)), writes[i];
            End(writes) == if e < w.at + |w.data| then w.at + |w.data| else e
  {
    hide Share;
    var n := |writes| - 1;
    if i == n {
      assert Without(writes, i) == writes[..n];
    } else {
      var front, less := writes[..n], Without(writes, i);
      assert less[..n - 1] == Without(front, i) && less[n - 1] == writes[n];
      TakenOut(front, i, k);
    }
  }

  lemma MultisetWithout(writes: seq<Write>, i: nat)
    requires i < |writes|
    ensures multiset(Without(writes, i)) == multiset(writes) - multiset{writes[i]}
    ensures writes[i] in multiset(writes)
  {
    assert writes == writes[..i] + ([writes[i]] + writes[i + 1..]);
  }

  /** One write less on both sides. */
  lemma Match(a: seq<Write>, b: seq<Write>) returns (i: nat)
    requires multiset(a) == multiset(b) && a != []
    ensures i < |b| && b[i] == a[|a| - 1]
    ensures multiset(a[..|a| - 1]) == multiset(Without(b, i))
  {
    hide Without;
    var n := |a| - 1;
    MultisetWithout(a, n);
    assert Without(a, n) == a[..n] by { WithoutLast(a); }
    assert a[n] in b;
    i :| 0 <= i < |b| && b[i] == a[n];
    MultisetWithout(b, i);
  }

  lemma WithoutLast(writes: seq<Write>)
    requires writes != []
    ensures Without(writes, |writes| - 1) == writes[..|writes| - 1]
  {
  }

  lemma {:induction false} SameSum(a: seq<Write>, b: seq<Write>, k: nat)
    requires multiset(a) == multiset(b)
    ensures PlainSum(a, k) == PlainSum(b, k) && End(a) == End(b)
  {
    hide Share, Without;
    if a == [] {
      assert |multiset(b)| == |b| == 0;
    } else {
      var i := Match(a, b);
      SameSum(a[..|a| - 1], Without(b, i), k);
      TakenOut(b, i, k);
    }
  }

  lemma SampleInjective(a: byte, b: byte, c: byte, d: byte)
    requires Sample(a, b) == Sample(c, d)
    ensures a == c && b == d
  {
  }

  /** Equal samples are equal bytes. */
  lemma DecodedInjective(x: seq<byte>, y: seq<byte>)
    requires |x| == |y| && Even(|x|) && Decoded(x) == Decoded(y)
    ensures x == y
  {
    hide Decoded, Sample;
    forall j: nat | j < |x|
      ensures x[j] == y[j]
    {
      var k := j / 2;
      DecodedAt(x, k);
      DecodedAt(y, k);
      SampleInjective(x[2 * k], x[2 * k + 1], y[2 * k], y[2 * k + 1]);
    }
  }

  /** The same writes in another order play the same audio. */
  lemma OrderIndependent(a: seq<Write>, b: seq<Write>)
    requires Writable(a) && Writable(b) && multiset(a) == multiset(b)
    requires forall k: nat :: 2 * k < End(a) ==> NoOverflow(a, k) && NoOverflow(b, k)
    ensures Audio(a) == Audio(b)
  {
    hide Decoded, NoOverflow, Writable, Audio, PlainSum, End;
    SameSum(a, b, 0);
    EndEven(a);
    var x, y := Audio(a), Audio(b);
    forall k: nat | k < |x| / 2
      ensures Decoded(x)[k] == Decoded(y)[k]
    {
      PlaysPlainSum(a, k);
      PlaysPlainSum(b, k);
      SameSum(a, b, k);
    }
    DecodedInjective(x, y);
  }

  /** One sample on top of one sample. */
  lemma OneSample(writes: seq<Write>, w: Write, x: int, y: int)
    requires InRange(x) && InRange(y) && Writable(writes) && w == Write(0, Bytes(y))
    requires writes == [] || Decoded(Audio(writes)) == [x]
    ensures Writable(writes + [w])
    ensures Decoded(Audio(writes + [w])) == [if writes == [] then y else Clamp(x + y)]
  {
    hide Mixed, Decoded, Bytes, Sample, Clamp, Writable;
    assert Even(0) && Even(|w.data|);
    OneMore(writes, w);
    EndEven(writes);
    MixedLength(Audio(writes), 0, w.data);
    MixedAt(Audio(writes), 0, w.data, |Audio(writes)| / 2, 0, 1, 0);
    DecodedAt(w.data, 0);
  }

  /** With saturation on the way the order is audible: two loud writers, then a negative one. */
  lemma SaturationIsOrdered()
    ensures var p, q := Write(0, Bytes(30000)), Write(0, Bytes(-30000));
            && Writable([p, p, q]) && Writable([p, q, p])
            && Decoded(Audio([p, p, q])) == [2767] && Decoded(Audio([p, q, p])) == [30000]
  {
    hide Audio, Writable, Decoded, Bytes;
    var p, q := Write(0, Bytes(30000)), Write(0, Bytes(-30000));
    assert Writable([]) by { NoWrites(); }
    OneSample([], p, 0, 30000);
    assert [] + [p] == [p];
    OneSample([p], p, 30000, 30000);
    OneSample([p], q, 30000, -30000);
    assert [p] + [p] == [p, p] && [p] + [q] == [p, q];
    OneSample([p, p], q, 32767, -30000);
    OneSample([p, q], p, 0, 30000);
    assert [p, p] + [q] == [p, p, q] && [p, q] + [p] == [p, q, p];
  }

  lemma NoWrites()
    ensures Writable([])
  {
  }
}
