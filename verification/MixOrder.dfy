/**
 When the order of the writers cannot be heard: exactly when, sample by sample, nothing saturates
 whatever the order is, or all that is written pulls the same way.
 */
module MixOrder {
  import opened RingCells
  import opened Samples
  import opened MixSum

  /** A sample on which the shares of some writes are added one after the other, each sum kept in 16 bits. */
  function Fold(acc: int, ws: seq<Write>, k: nat): (r: int)
    requires InRange(acc)
    ensures InRange(r)
  {
    if ws == [] then acc
    else Clamp(Fold(acc, ws[..|ws| - 1], k) + Share(ws[|ws| - 1], k))
  }

  function Max0(x: int): nat {
    if x > 0 then x else 0
  }

  /** The positive shares, added up. */
  function Ups(ws: seq<Write>, k: nat): nat {
    if ws == [] then 0 else Ups(ws[..|ws| - 1], k) + Max0(Share(ws[|ws| - 1], k))
  }

  /** The negative ones, without their sign. */
  function Downs(ws: seq<Write>, k: nat): nat {
    if ws == [] then 0 else Downs(ws[..|ws| - 1], k) + Max0(-Share(ws[|ws| - 1], k))
  }

  /** Nothing saturates in any order, or no share is negative, or none is positive. */
  predicate OrderFree(acc: int, ws: seq<Write>, k: nat) {
    || (acc + Ups(ws, k) <= MAX_SAMPLE && acc - Downs(ws, k) >= MIN_SAMPLE)
    || Ups(ws, k) == 0
    || Downs(ws, k) == 0
  }

  // ---------- what a fold is ----------

  lemma {:induction false} FoldPlain(acc: int, ws: seq<Write>, k: nat)
    requires InRange(acc) && acc + Ups(ws, k) <= MAX_SAMPLE && acc - Downs(ws, k) >= MIN_SAMPLE
    ensures Fold(acc, ws, k) == acc + Ups(ws, k) - Downs(ws, k)
  {
    hide Share;
    if ws != [] {
      FoldPlain(acc, ws[..|ws| - 1], k);
    }
  }

  /** Nothing pulls down. */
  lemma {:induction false} FoldUp(acc: int, ws: seq<Write>, k: nat)
    requires InRange(acc) && Downs(ws, k) == 0
    ensures Fold(acc, ws, k) == if acc + Ups(ws, k) > MAX_SAMPLE then MAX_SAMPLE else acc + Ups(ws, k)
  {
    hide Share;
    if ws != [] {
      FoldUp(acc, ws[..|ws| - 1], k);
    }
  }

  /** Nothing pulls up. */
  lemma {:induction false} FoldDown(acc: int, ws: seq<Write>, k: nat)
    requires InRange(acc) && Ups(ws, k) == 0
    ensures Fold(acc, ws, k) == if acc - Downs(ws, k) < MIN_SAMPLE then MIN_SAMPLE else acc - Downs(ws, k)
  {
    hide Share;
    if ws != [] {
      FoldDown(acc, ws[..|ws| - 1], k);
    }
  }

  lemma {:induction false} FoldConcat(acc: int, a: seq<Write>, b: seq<Write>, k: nat)
    requires InRange(acc)
    ensures Fold(acc, a + b, k) == Fold(Fold(acc, a, k), b, k)
  {
    hide Share, Clamp;
    if b == [] {
      assert a + b == a;
    } else {
      assert (a + b)[..|a + b| - 1] == a + b[..|b| - 1] && (a + b)[|a + b| - 1] == b[|b| - 1];
      FoldConcat(acc, a, b[..|b| - 1], k);
    }
  }

  // ---------- orders ----------

  lemma {:induction false} PullsTakenOut(ws: seq<Write>, i: nat, k: nat)
    requires i < |ws|
    ensures Ups(ws, k) == Ups(Without(ws, i), k) + Max0(Share(ws[i], k))
    ensures Downs(ws, k) == Downs(Without(ws, i), k) + Max0(-Share(ws[i], k))
  {
    hide Share, Max0;
    var n := |ws| - 1;
    if i == n {
      assert Without(ws, i) == ws[..n];
    } else {
      var less := Without(ws, i);
      assert less[..n - 1] == Without(ws[..n], i) && less[n - 1] == ws[n];
      PullsTakenOut(ws[..n], i, k);
    }
  }

  lemma {:induction false} SamePulls(a: seq<Write>, b: seq<Write>, k: nat)
    requires multiset(a) == multiset(b)
    ensures Ups(a, k) == Ups(b, k) && Downs(a, k) == Downs(b, k)
  {
    hide Share, Max0, Without;
    if a == [] {
      assert |multiset(b)| == |b| == 0;
    } else {
      var i := Match(a, b);
      SamePulls(a[..|a| - 1], Without(b, i), k);
      PullsTakenOut(b, i, k);
    }
  }

  /** The writes that pull the sample up, in their order. */
  function Rising(ws: seq<Write>, k: nat): seq<Write> {
    if ws == [] then []
    else Rising(ws[..|ws| - 1], k) + (if Share(ws[|ws| - 1], k) > 0 then [ws[|ws| - 1]] else [])
  }

  function Others(ws: seq<Write>, k: nat): seq<Write> {
    if ws == [] then []
    else Others(ws[..|ws| - 1], k) + (if Share(ws[|ws| - 1], k) > 0 then [] else [ws[|ws| - 1]])
  }

  lemma OnePull(ws: seq<Write>, w: Write, k: nat)
    ensures Ups(ws + [w], k) == Ups(ws, k) + Max0(Share(w, k))
    ensures Downs(ws + [w], k) == Downs(ws, k) + Max0(-Share(w, k))
  {
    hide Share, Max0;
    assert (ws + [w])[..|ws|] == ws;
  }

  lemma {:induction false} RisingPulls(ws: seq<Write>, k: nat)
    ensures Ups(Rising(ws, k), k) == Ups(ws, k) && Downs(Rising(ws, k), k) == 0
  {
    hide Share;
    if ws != [] {
      var n := |ws| - 1;
      RisingPulls(ws[..n], k);
      OnePull(Rising(ws[..n], k), ws[n], k);
      assert Rising(ws[..n], k) + [] == Rising(ws[..n], k);
    }
  }

  lemma {:induction false} OthersPulls(ws: seq<Write>, k: nat)
    ensures Ups(Others(ws, k), k) == 0 && Downs(Others(ws, k), k) == Downs(ws, k)
  {
    hide Share;
    if ws != [] {
      var n := |ws| - 1;
      OthersPulls(ws[..n], k);
      OnePull(Others(ws[..n], k), ws[n], k);
      assert Others(ws[..n], k) + [] == Others(ws[..n], k);
    }
  }

  lemma {:induction false} Parted(ws: seq<Write>, k: nat)
    ensures multiset(Rising(ws, k)) + multiset(Others(ws, k)) == multiset(ws)
  {
    hide Share;
    if ws != [] {
      var n := |ws| - 1;
      var r, o := Rising(ws[..n], k), Others(ws[..n], k);
      Parted(ws[..n], k);
      assert ws == ws[..n] + [ws[n]];
      OneMoreOf(ws[..n], r, o, ws[n]);
      assert r + [] == r && o + [] == o;
    }
  }

  lemma OneMoreOf(ws: seq<Write>, r: seq<Write>, o: seq<Write>, w: Write)
    requires multiset(r) + multiset(o) == multiset(ws)
    ensures multiset(r + [w]) + multiset(o) == multiset(ws + [w]) == multiset(r) + multiset(o + [w])
  {
  }

  /** First all that pull up and then the others, or the other way round. */
  lemma TwoOrders(acc: int, ws: seq<Write>, k: nat)
    requires InRange(acc)
    ensures var up, down := Rising(ws, k) + Others(ws, k), Others(ws, k) + Rising(ws, k);
            && multiset(up) == multiset(ws) == multiset(down)
            && (Fold(acc, up, k) == Fold(acc, down, k) <==> OrderFree(acc, ws, k))
  {
    hide Rising, Others, Ups, Downs, Fold;
    var r, o := Rising(ws, k), Others(ws, k);
    Parted(ws, k);
    RisingPulls(ws, k);
    OthersPulls(ws, k);
    FoldConcat(acc, r, o, k);
    FoldConcat(acc, o, r, k);
    FoldUp(acc, r, k);
    FoldDown(Fold(acc, r, k), o, k);
    FoldDown(acc, o, k);
    FoldUp(Fold(acc, o, k), r, k);
  }

  /** All orders of the writes give one sample. */
  ghost predicate SameInAllOrders(acc: int, ws: seq<Write>, k: nat)
    requires InRange(acc)
  {
    forall r :: multiset(r) == multiset(ws) ==> Fold(acc, r, k) == Fold(acc, ws, k)
  }

  lemma FreeIsSame(acc: int, a: seq<Write>, b: seq<Write>, k: nat)
    requires InRange(acc) && OrderFree(acc, a, k) && multiset(a) == multiset(b)
    ensures Fold(acc, a, k) == Fold(acc, b, k)
  {
    hide Ups, Downs, Fold;
    SamePulls(a, b, k);
    if Downs(a, k) == 0 {
      FoldUp(acc, a, k);
      FoldUp(acc, b, k);
    } else if Ups(a, k) == 0 {
      FoldDown(acc, a, k);
      FoldDown(acc, b, k);
    } else {
      FoldPlain(acc, a, k);
      FoldPlain(acc, b, k);
    }
  }

  /** All orders give the same sample iff nothing saturates in any of them, or all shares pull one way. */
  lemma SameIff(acc: int, ws: seq<Write>, k: nat)
    requires InRange(acc)
    ensures SameInAllOrders(acc, ws, k) <==> OrderFree(acc, ws, k)
  {
    hide Fold, OrderFree;
    if OrderFree(acc, ws, k) {
      forall r | multiset(r) == multiset(ws)
        ensures Fold(acc, r, k) == Fold(acc, ws, k)
      {
        FreeIsSame(acc, ws, r, k);
      }
    } else {
      TwoOrders(acc, ws, k);
    }
  }

  // ---------- the audio ----------

  /** What sample `k` of the audio is; past the end, silence. */
  function SampleAt(audio: seq<byte>, k: nat): (r: int)
    ensures InRange(r)
  {
    if k < |Decoded(audio)| then
      DecodedAt(audio, k);
      Decoded(audio)[k]
    else 0
  }

  function Played(writes: seq<Write>, k: nat): (r: int)
    requires Writable(writes)
    ensures InRange(r)
  {
    SampleAt(Audio(writes), k)
  }

  lemma WritableFront(front: seq<Write>, w: Write)
    requires Writable(front + [w])
    ensures Writable(front) && w.at <= End(front) && Even(w.at) && Even(|w.data|)
  {
    assert (front + [w])[..|front|] == front;
    hide Even, End;
  }

  /** The sample of one write that covers it, in samples. */
  lemma ShareIs(w: Write, a: nat, d: nat, k: nat)
    requires w.at == 2 * a && |w.data| == 2 * d
    ensures Share(w, k) == if a <= k < a + d then Decoded(w.data)[k - a] else 0
    ensures InRange(Share(w, k))
  {
    if a <= k < a + d {
      assert (2 * k - w.at) / 2 == k - a;
      DecodedAt(w.data, k - a);
    }
  }

  lemma Half(n: nat) returns (h: nat)
    requires Even(n)
    ensures n == 2 * h
  {
    h := n / 2;
  }

  lemma DecodedLength(audio: seq<byte>, h: nat)
    requires |audio| == 2 * h
    ensures |Decoded(audio)| == h
  {
    hide Decoded;
  }

  lemma MixedSample(audio: seq<byte>, w: Write, h: nat, a: nat, d: nat, k: nat)
    requires |audio| == 2 * h && w.at == 2 * a <= |audio| && |w.data| == 2 * d
    ensures SampleAt(Mixed(audio, w.at, w.data), k) == Clamp(SampleAt(audio, k) + Share(w, k))
  {
    hide Decoded, Mixed, Share;
    ShareIs(w, a, d, k);
    DecodedLength(audio, h);
    MixedLength(audio, w.at, w.data);
    DecodedLength(Mixed(audio, w.at, w.data), if h < a + d then a + d else h);
    if k < h || k < a + d {
      MixedAt(audio, w.at, w.data, h, a, d, k);
    }
  }

  /** One write more adds its share, and keeps the sum in 16 bits. */
  lemma PlayedStep(front: seq<Write>, w: Write, k: nat)
    requires Writable(front) && Writable(front + [w])
    ensures Played(front + [w], k) == Clamp(Played(front, k) + Share(w, k))
  {
    WritableFront(front, w);
    EndEven(front);
    OneMore(front, w);
    hide Writable, End, Share, SampleAt, Clamp, Even, Audio, Mixed;
    var h := Half(End(front));
    var a := Half(w.at);
    var d := Half(|w.data|);
    MixedSample(Audio(front), w, h, a, d, k);
  }

  lemma Regrouped<T>(a: seq<T>, b: seq<T>)
    requires b != []
    ensures a + b == (a + b[..|b| - 1]) + [b[|b| - 1]]
  {
  }

  /** Each sample is the fold of the shares written to it, whatever was there before. */
  lemma {:induction false} PlaysFold(base: seq<Write>, ws: seq<Write>, k: nat)
    requires Writable(base) && Writable(base + ws)
    ensures Played(base + ws, k) == Fold(Played(base, k), ws, k)
  {
    hide Played, Share, Clamp, Writable;
    if ws == [] {
      assert base + ws == base;
    } else {
      Regrouped(base, ws);
      WritableFront(base + ws[..|ws| - 1], ws[|ws| - 1]);
      PlayedStep(base + ws[..|ws| - 1], ws[|ws| - 1], k);
      PlaysFold(base, ws[..|ws| - 1], k);
    }
  }

  lemma SameAudio(a: seq<Write>, b: seq<Write>)
    requires Writable(a) && Writable(b) && End(a) == End(b)
    ensures Audio(a) == Audio(b) <==> forall k: nat :: 2 * k < End(a) ==> Played(a, k) == Played(b, k)
  {
    EndEven(a);
    var h := Half(End(a));
    hide Decoded, Audio, Writable, End, Even;
    DecodedLength(Audio(a), h);
    DecodedLength(Audio(b), h);
    if forall k: nat :: 2 * k < End(a) ==> Played(a, k) == Played(b, k) {
      forall k: nat | k < h
        ensures Decoded(Audio(a))[k] == Decoded(Audio(b))[k]
      {
        assert Played(a, k) == Played(b, k);
      }
      DecodedInjective(Audio(a), Audio(b));
    }
  }

  /** Two orders of the same writes play the same audio where the order cannot be heard, though sums may saturate. */
  lemma OrderNotHeard(a: seq<Write>, b: seq<Write>)
    requires Writable(a) && Writable(b) && multiset(a) == multiset(b)
    requires forall k: nat :: 2 * k < End(a) ==> OrderFree(0, a, k)
    ensures Audio(a) == Audio(b)
  {
    SameSum(a, b, 0);
    SameAudio(a, b);
    hide Audio, Writable, End, OrderFree, Fold;
    forall k: nat | 2 * k < End(a)
      ensures Played(a, k) == Played(b, k)
    {
      FoldFromNothing(a, k);
      FoldFromNothing(b, k);
      FreeIsSame(0, a, b, k);
    }
  }

  lemma FoldFromNothing(writes: seq<Write>, k: nat)
    requires Writable(writes)
    ensures Played(writes, k) == Fold(0, writes, k)
  {
    NoWrites();
    assert [] + writes == writes;
    PlaysFold([], writes, k);
  }

  /** Writes that may come next in any order. */
  ghost predicate AnyNext(base: seq<Write>, ws: seq<Write>) {
    forall w :: w in ws ==> w.at <= End(base) && Even(w.at) && Even(|w.data|)
  }

  lemma {:induction false} AllWritable(base: seq<Write>, ws: seq<Write>)
    requires Writable(base) && AnyNext(base, ws)
    ensures Writable(base + ws) && End(base + ws) >= End(base)
  {
    hide Even, Writable, End;
    if ws == [] {
      assert base + ws == base;
    } else {
      var n := |ws| - 1;
      AllWritable(base, ws[..n]);
      assert base + ws == base + ws[..n] + [ws[n]];
      assert ws[n] in ws;
      EndGrows(base + ws[..n], ws[n]);
      OneMore(base + ws[..n], ws[n]);
    }
  }

  lemma EndGrows(writes: seq<Write>, w: Write)
    ensures End(writes + [w]) >= End(writes)
  {
    assert (writes + [w])[..|writes|] == writes;
  }

  ghost predicate SameAudioInAllOrders(base: seq<Write>, ws: seq<Write>)
    requires Writable(base) && AnyNext(base, ws)
  {
    forall r :: multiset(r) == multiset(ws) ==> PlaysSame(base, ws, r)
  }

  ghost predicate PlaysSame(base: seq<Write>, ws: seq<Write>, r: seq<Write>) {
    Writable(base + ws) && Writable(base + r) && Audio(base + r) == Audio(base + ws)
  }

  ghost predicate FreeEverywhere(base: seq<Write>, ws: seq<Write>)
    requires Writable(base)
  {
    forall k: nat :: 2 * k < End(base + ws) ==> OrderFree(Played(base, k), ws, k)
  }

  lemma SameWrites(base: seq<Write>, ws: seq<Write>, r: seq<Write>)
    requires Writable(base) && AnyNext(base, ws) && multiset(r) == multiset(ws)
    ensures Writable(base + ws) && Writable(base + r) && End(base + r) == End(base + ws)
    ensures forall k: nat :: Played(base + r, k) == Fold(Played(base, k), r, k)
  {
    hide Writable, End, Fold, Played;
    forall w | w in r
      ensures w in ws
    {
      assert w in multiset(r);
    }
    AllWritable(base, ws);
    AllWritable(base, r);
    SameSum(base + r, base + ws, 0);
    forall k: nat
      ensures Played(base + r, k) == Fold(Played(base, k), r, k)
    {
      PlaysFold(base, r, k);
    }
  }

  lemma OrdersDiffer(base: seq<Write>, ws: seq<Write>, k: nat) returns (r: seq<Write>)
    requires Writable(base) && AnyNext(base, ws)
    requires 2 * k < End(base + ws) && !OrderFree(Played(base, k), ws, k)
    ensures multiset(r) == multiset(ws) && !PlaysSame(base, ws, r)
  {
    hide Writable, End, Fold, Played, OrderFree, Rising, Others, Audio;
    TwoOrders(Played(base, k), ws, k);
    var up, down := Rising(ws, k) + Others(ws, k), Others(ws, k) + Rising(ws, k);
    SameWrites(base, ws, ws);
    SameWrites(base, ws, up);
    SameWrites(base, ws, down);
    SameAudio(base + up, base + ws);
    SameAudio(base + down, base + ws);
    r := if Played(base + up, k) != Played(base + ws, k) then up else down;
    assert Played(base + r, k) != Played(base + ws, k);
  }

  /** All orders of the writes that come next play the same audio iff at no sample the order can be heard. */
  lemma SameAudioIff(base: seq<Write>, ws: seq<Write>)
    requires Writable(base) && AnyNext(base, ws)
    ensures SameAudioInAllOrders(base, ws) <==> FreeEverywhere(base, ws)
  {
    hide Writable, End, Fold, Played, OrderFree, Audio, AnyNext;
    if FreeEverywhere(base, ws) {
      forall r | multiset(r) == multiset(ws)
        ensures PlaysSame(base, ws, r)
      {
        SameWrites(base, ws, ws);
        SameWrites(base, ws, r);
        SameAudio(base + r, base + ws);
        forall k: nat | 2 * k < End(base + ws)
          ensures Played(base + r, k) == Played(base + ws, k)
        {
          FreeIsSame(Played(base, k), ws, r, k);
        }
      }
    } else {
      var k: nat :| 2 * k < End(base + ws) && !OrderFree(Played(base, k), ws, k);
      var r := OrdersDiffer(base, ws, k);
    }
  }
}
