/**
 Septets packed into octets (3GPP TS 23.038 section 6.1.2.1.1): the 7-bit codec of char_conv.c.

 Packed octets and septets are two ways to write one number, in base 256 and in base 128.
 */
module Septets {
  import opened Wrappers
  import opened Hex

  type septet = x: int | 0 <= x < 128

  /** Powers of two, as far as shifts of an octet go. */
  function Two(s: nat): (r: nat)
    requires s <= 8
    ensures r >= 1
  {
    if s == 0 then 1 else if s == 1 then 2 else if s == 2 then 4 else if s == 3 then 8 else if s == 4 then 16
    else if s == 5 then 32 else if s == 6 then 64 else if s == 7 then 128 else 256
  }

  lemma Distribute(a: int, x: int, y: int)
    ensures a * (x + y) == a * x + a * y
  {
  }

  lemma Associate(a: int, x: int, y: int)
    ensures a * (x * y) == a * x * y
  {
  }

  lemma Monotone(a: nat, x: int, y: int)
    requires x <= y
    ensures a * x <= a * y
  {
  }

  lemma DivisionIs(x: nat, d: nat, q: nat, r: nat)
    requires r < d && x == d * q + r
    ensures x / d == q && x % d == r
  {
    var a, b := x / d, x % d;
    assert x == d * a + b;
    Distribute(d, a, 1);
    Distribute(d, q, 1);
    if q > a {
      Monotone(d, a + 1, q);
    } else if a > q {
      Monotone(d, q + 1, a);
    }
  }

  /** Bits shifted out at the top of `d * p` are gone, the others go up. */
  lemma Shifted(x: nat, p: nat, d: nat)
    requires p > 0 && d > 0
    ensures x * p == d * p * (x / d) + x % d * p && x * p % (d * p) == x % d * p <= d * p - p
  {
    var q, r := x / d, x % d;
    assert x == d * q + r;
    Distribute(p, d * q, r);
    Associate(p, d, q);
    Monotone(p, r, d - 1);
    Distribute(p, d, -1);
    DivisionIs(x * p, d * p, q, r * p);
  }

  /** Multiples of `d` do not show in the bits below it. */
  lemma AddMultiple(x: nat, d: nat, m: nat)
    requires d > 0
    ensures (x + d * m) / d == x / d + m && (x + d * m) % d == x % d
  {
    Distribute(d, x / d, m);
    assert x == d * (x / d) + x % d;
    DivisionIs(x + d * m, d, x / d + m, x % d);
  }

  lemma TwoSum(s: nat, t: nat)
    requires s <= 8 && s + t <= 8
    ensures Two(s) * Two(t) == Two(s + t)
  {
    if s > 0 {
      TwoSum(s - 1, t);
      TwoNext(s - 1);
      TwoNext(s - 1 + t);
      assert 2 * Two(s - 1) * Two(t) == 2 * (Two(s - 1) * Two(t));
    }
  }

  lemma TwoNext(s: nat)
    requires s < 8
    ensures Two(s + 1) == 2 * Two(s)
  {
  }

  lemma TwoIs()
    ensures Two(0) == 1 && Two(7) == 128 && Two(8) == 256
  {
  }

  /** The octet with the rest of one septet and the beginning of the next: two shifts and an `or`. */
  function PackedOctet(t: septet, next: septet, s: nat): (o: octet)
    requires s < 7
  {
    DisjointBits(t, next, s);
    t / Two(s) + next * Two(7 - s) % 256
  }

  /** The two parts of a packed octet have no bit in common, so that `or` is `+`. */
  lemma DisjointBits(t: septet, next: septet, s: nat)
    requires s < 7
    ensures 0 <= t / Two(s) < Two(7 - s)
    ensures next * Two(7 - s) % 256 == next % Two(s + 1) * Two(7 - s) <= 256 - Two(7 - s)
  {
    hide Two;
    TwoIs();
    TwoSum(s, 7 - s);
    TwoSum(s + 1, 7 - s);
    Shifted(next, Two(7 - s), Two(s + 1));
    Below(t, Two(s), Two(7 - s));
  }

  lemma Below(x: nat, d: nat, q: nat)
    requires d > 0 && x < d * q
    ensures x / d < q
  {
    if x / d >= q {
      Monotone(d, q, x / d);
    }
  }

  /** What is packed from septets of which the first `s` bits are gone. */
  function Packed(t: seq<septet>, s: nat): seq<octet>
    requires t != [] && s < 8
  {
    if |t| == 1 then [t[0] / Two(s)]
    else if s == 7 then Packed(t[1..], 0)
    else [PackedOctet(t[0], t[1], s)] + Packed(t[1..], s + 1)
  }

  function Pack(t: seq<septet>): seq<octet> {
    if t == [] then [] else Packed(t, 0)
  }

  /** The septet put together from what was left over and an octet: two shifts and an `or`. */
  function UnpackedSeptet(o: octet, s: nat, b: nat): (c: septet)
    requires 1 <= s < 8 && b < Two(s - 1)
  {
    LowBits(o, s);
    (o * Two(s) % 256) / 2 + b
  }

  lemma LowBits(o: octet, s: nat)
    requires 1 <= s < 8
    ensures (o * Two(s) % 256) / 2 == o % Two(8 - s) * Two(s - 1) <= 128 - Two(s - 1)
  {
    hide Two;
    TwoIs();
    TwoSum(8 - s, s);
    TwoNext(s - 1);
    Shifted(o, Two(s), Two(8 - s));
    var r := o % Two(8 - s);
    Associate(r, 2, Two(s - 1));
    Associate(2, r, Two(s - 1));
  }

  /** The bits of an octet that are left for the next septet. */
  function LeftOver(o: octet, s: nat): (b: nat)
    requires 1 <= s < 8
    ensures b < Two(s)
  {
    TwoIs();
    TwoSum(8 - s, s);
    Below(o, Two(8 - s), Two(s));
    o / Two(8 - s)
  }

  /** The septets in the octets that follow `b`, in which there are `s - 1` bits. */
  function Unpacked(o: seq<octet>, s: nat, b: nat): seq<septet>
    requires 1 <= s < 8 && b < Two(s - 1)
    decreases |o|
  {
    if o == [] then []
    else if s == 7 then [UnpackedSeptet(o[0], s, b), LeftOver(o[0], s)] + Unpacked(o[1..], 1, 0)
    else [UnpackedSeptet(o[0], s, b)] + Unpacked(o[1..], s + 1, LeftOver(o[0], s))
  }

  function Unpack(o: seq<octet>): seq<septet> {
    Unpacked(o, 1, 0)
  }

  // ---------- denotation ----------

  function InBase(base: nat, digits: seq<nat>): nat {
    if digits == [] then 0 else digits[0] + base * InBase(base, digits[1..])
  }

  function Power128(n: nat): nat {
    if n == 0 then 1 else 128 * Power128(n - 1)
  }

  /** One octet takes eight bits off the number. */
  lemma PackOne(t: septet, next: septet, rest: nat, s: nat)
    requires s < 7
    ensures (t + 128 * (next + 128 * rest)) / Two(s)
            == PackedOctet(t, next, s) + 256 * ((next + 128 * rest) / Two(s + 1))
  {
    hide Two;
    var v := next + 128 * rest;
    TakeSeptet(t, v, s);
    KeepBits(next, rest, s);
    DisjointBits(t, next, s);
  }

  /** What is left of a septet, and the next number above it. */
  lemma TakeSeptet(t: septet, v: nat, s: nat)
    requires s < 7
    ensures (t + 128 * v) / Two(s) == t / Two(s) + v % Two(s + 1) * Two(7 - s) + 256 * (v / Two(s + 1))
  {
    hide Two;
    var p, p7, q := Two(s), Two(7 - s), Two(s + 1);
    TwoIs();
    TwoSum(s, 7 - s);
    TwoSum(s + 1, 7 - s);
    Associate(p, p7, v);
    AddMultiple(t, p, p7 * v);
    Shifted(v, p7, q);
  }

  /** The low bits of the next septet are those of the number it begins. */
  lemma KeepBits(next: septet, rest: nat, s: nat)
    requires s < 7
    ensures (next + 128 * rest) % Two(s + 1) == next % Two(s + 1)
  {
    hide Two;
    var q, k := Two(s + 1), Two(6 - s);
    TwoIs();
    TwoSum(s + 1, 6 - s);
    Associate(q, k, rest);
    AddMultiple(next, q, k * rest);
  }

  /** The packed octets are the number less the bits that are gone. */
  lemma {:induction false} PackedDenotes(t: seq<septet>, s: nat)
    requires t != [] && s < 8
    ensures InBase(256, Packed(t, s)) == InBase(128, t) / Two(s)
  {
    hide Two, PackedOctet;
    if |t| == 1 {
      assert t[1..] == [] && Packed(t, s)[1..] == [];
    } else if s == 7 {
      PackedDenotes(t[1..], 0);
      ShiftSeptet(t[0], InBase(128, t[1..]));
    } else {
      PackedDenotes(t[1..], s + 1);
      assert t[1..][1..] == t[2..];
      PackOne(t[0], t[1], InBase(128, t[2..]), s);
      assert Packed(t, s)[1..] == Packed(t[1..], s + 1);
    }
  }

  lemma ShiftSeptet(t: septet, rest: nat)
    ensures (t + 128 * rest) / Two(7) == rest / Two(0)
  {
  }

  /** Packing keeps the number. */
  lemma PackDenotes(t: seq<septet>)
    ensures InBase(256, Pack(t)) == InBase(128, t)
  {
    if t != [] {
      PackedDenotes(t, 0);
    }
  }

  /** One septet takes seven bits off the number. */
  lemma UnpackOne(o: octet, rest: nat, s: nat, b: nat)
    requires 1 <= s < 8 && b < Two(s - 1)
    ensures b + Two(s - 1) * (o + 256 * rest)
            == UnpackedSeptet(o, s, b) + 128 * (LeftOver(o, s) + Two(s) * rest)
  {
    hide Two, UnpackedSeptet, LeftOver;
    var h, d, q, r := Two(s - 1), Two(8 - s), o / Two(8 - s), o % Two(8 - s);
    TwoIs();
    TwoNext(s - 1);
    TwoSum(s - 1, 8 - s);
    SeptetIs(o, s, b);
    Quotient(o, d);
    Recombine(b, h, d, q, r, rest);
    Associate(2, h, rest);
  }

  lemma SeptetIs(o: octet, s: nat, b: nat)
    requires 1 <= s < 8 && b < Two(s - 1)
    ensures UnpackedSeptet(o, s, b) == o % Two(8 - s) * Two(s - 1) + b && LeftOver(o, s) == o / Two(8 - s)
  {
    hide Two;
    LowBits(o, s);
  }

  lemma Quotient(x: nat, d: nat)
    requires d > 0
    ensures x == d * (x / d) + x % d
  {
  }

  lemma Recombine(b: nat, h: nat, d: nat, q: nat, r: nat, rest: nat)
    requires h * d == 128
    ensures b + h * (d * q + r + 256 * rest) == (r * h + b) + 128 * (q + 2 * (h * rest))
  {
    Distribute(h, d * q + r, 256 * rest);
    Distribute(h, d * q, r);
    Associate(h, d, q);
    Associate(h, 256, rest);
    assert h * 256 * rest == 256 * (h * rest);
  }

  /** The unpacked septets are the number but for what does not fill another septet. */
  lemma {:induction false} UnpackedDenotes(o: seq<octet>, s: nat, b: nat) returns (lost: nat)
    requires 1 <= s < 8 && b < Two(s - 1)
    ensures b + Two(s - 1) * InBase(256, o)
            == InBase(128, Unpacked(o, s, b)) + Power128(|Unpacked(o, s, b)|) * lost
    decreases |o|
  {
    hide Two, UnpackedSeptet, LeftOver;
    if o == [] {
      lost := b;
    } else {
      UnpackOne(o[0], InBase(256, o[1..]), s, b);
      var c, l := UnpackedSeptet(o[0], s, b), LeftOver(o[0], s);
      if s == 7 {
        TwoIs();
        lost := UnpackedDenotes(o[1..], 1, 0);
        var u := Unpacked(o[1..], 1, 0);
        assert Unpacked(o, s, b)[1..] == [l] + u && ([l] + u)[1..] == u;
        PowerStep(l, InBase(128, u), |u|, lost);
        PowerStep(c, InBase(128, [l] + u), |u| + 1, lost);
      } else {
        lost := UnpackedDenotes(o[1..], s + 1, l);
        var u := Unpacked(o[1..], s + 1, l);
        assert Unpacked(o, s, b)[1..] == u;
        PowerStep(c, InBase(128, u), |u|, lost);
      }
    }
  }

  lemma PowerStep(c: nat, rest: nat, n: nat, lost: nat)
    ensures c + 128 * (rest + Power128(n) * lost) == (c + 128 * rest) + Power128(n + 1) * lost
  {
  }

  /** A number has one way to be written with so many digits, and nothing is lost on the way. */
  lemma {:induction false} DigitsUnique(x: seq<septet>, y: seq<septet>, lost: nat)
    requires |x| == |y| && InBase(128, x) == InBase(128, y) + Power128(|y|) * lost
    ensures x == y && lost == 0
  {
    if x != [] {
      var p := Power128(|y| - 1) * lost;
      assert Power128(|y|) * lost == 128 * p by { PowerStep(0, 0, |y| - 1, lost); }
      SameLowDigit(x[0], y[0], InBase(128, x[1..]), InBase(128, y[1..]) + p);
      DigitsUnique(x[1..], y[1..], lost);
      assert x == [x[0]] + x[1..] && y == [y[0]] + y[1..];
    }
  }

  lemma SameLowDigit(a: septet, b: septet, x: nat, y: nat)
    requires a + 128 * x == b + 128 * y
    ensures a == b && x == y
  {
  }

  // ---------- lengths ----------

  /** Seven octets for eight septets, and one octet more when the last of eight is the last of all. */
  lemma {:induction false} PackedLength(t: seq<septet>, s: nat)
    requires t != [] && s < 8
    ensures |Packed(t, s)| == |t| - (|t| + s) / 8 + (if (|t| + s) % 8 == 0 then 1 else 0)
  {
    hide Two, PackedOctet;
    if |t| > 1 {
      if s == 7 {
        PackedLength(t[1..], 0);
      } else {
        PackedLength(t[1..], s + 1);
      }
    }
  }

  /** As many octets as septets need, and a zero octet after every full eight septets at the end. */
  lemma PackLength(t: seq<septet>)
    ensures |Pack(t)| == (7 * |t| + 7) / 8 + (if t != [] && |t| % 8 == 0 then 1 else 0)
  {
    if t != [] {
      PackedLength(t, 0);
      CeilingOfSevenEighths(|t|, |t| / 8, |t| % 8);
    }
  }

  lemma CeilingOfSevenEighths(n: nat, q: nat, r: nat)
    requires n == 8 * q + r && r < 8
    ensures (7 * n + 7) / 8 == n - n / 8
  {
    assert 7 * n + 7 == 8 * (7 * q + r) + (7 - r);
  }

  lemma {:induction false} UnpackedLength(o: seq<octet>, s: nat, b: nat)
    requires 1 <= s < 8 && b < Two(s - 1)
    ensures |Unpacked(o, s, b)| == |o| + (|o| + s - 1) / 7
    decreases |o|
  {
    hide UnpackedSeptet, LeftOver;
    if o != [] {
      if s == 7 {
        UnpackedLength(o[1..], 1, 0);
      } else {
        UnpackedLength(o[1..], s + 1, LeftOver(o[0], s));
      }
    }
  }

  // ---------- round trip ----------

  /** The NUL that comes back after a text whose packed form leaves room for one septet more. */
  function Filler(t: seq<septet>): seq<septet> {
    if t != [] && (|t| % 8 == 0 || |t| % 8 == 7) then [0] else []
  }

  lemma {:induction false} TrailingZeros(t: seq<septet>, z: seq<septet>)
    requires z == [] || z == [0]
    ensures InBase(128, t + z) == InBase(128, t)
  {
    if t == [] {
      assert t + z == z && z[|z|..] == [];
      if z == [0] {
        assert z[1..] == [];
      }
    } else {
      assert (t + z)[1..] == t[1..] + z;
      TrailingZeros(t[1..], z);
    }
  }

  lemma RoundTripLength(t: seq<septet>)
    ensures |Unpack(Pack(t))| == |t| + |Filler(t)|
  {
    PackLength(t);
    UnpackedLength(Pack(t), 1, 0);
    var q, r := |t| / 8, |t| % 8;
    CeilingOfSevenEighths(|t|, q, r);
    assert |t| == 8 * q + r;
    hide Pack, Unpack, Filler;
    if t != [] {
      LengthsMeet(|t|, q, r);
    }
  }

  lemma LengthsMeet(n: nat, q: nat, r: nat)
    requires n == 8 * q + r && r < 8 && n > 0
    ensures var m := n - n / 8 + (if r == 0 then 1 else 0);
            m + m / 7 == n + (if r == 0 || r == 7 then 1 else 0)
  {
    assert n / 8 == q;
    if r == 0 {
      assert (7 * q + 1) / 7 == q;
    } else if r == 7 {
      assert (7 * q + 7) / 7 == q + 1;
    } else {
      assert (7 * q + r) / 7 == q;
    }
  }

  /** Packed and unpacked, a text comes back, with one NUL after it when it has 7 or 8 septets in its last eight. */
  lemma RoundTrip(t: seq<septet>)
    ensures Unpack(Pack(t)) == t + Filler(t)
  {
    var u, z := Unpack(Pack(t)), Filler(t);
    PackDenotes(t);
    var lost := UnpackedDenotes(Pack(t), 1, 0);
    TwoIs();
    TrailingZeros(t, z);
    RoundTripLength(t);
    DigitsUnique(t + z, u, lost);
  }

  /** What C makes of a buffer of characters. */
  function CString(s: seq<septet>): seq<septet> {
    if s == [] || s[0] == 0 then [] else [s[0]] + CString(s[1..])
  }

  lemma {:induction false} CStringIs(t: seq<septet>, z: seq<septet>)
    requires 0 !in t && (z == [] || z[0] == 0)
    ensures CString(t + z) == t
  {
    if t == [] {
      assert t + z == z;
    } else {
      assert t[0] in t && t == [t[0]] + t[1..];
      assert (t + z)[1..] == t[1..] + z;
      CStringIs(t[1..], z);
    }
  }

  /** On C strings decoding undoes encoding. */
  lemma StringRoundTrip(t: seq<septet>)
    requires 0 !in t
    ensures CString(Unpack(Pack(t))) == t
  {
    RoundTrip(t);
    CStringIs(t, Filler(t));
  }

  // ---------- the codec ----------

  lemma PackedStep(t: seq<septet>, s: nat)
    requires |t| > 1 && s < 8
    ensures Packed(t, s) == if s == 7 then Packed(t[1..], 0)
                            else [PackedOctet(t[0], t[1], s)] + Packed(t[1..], s + 1)
  {
  }

  lemma PackedLast(t: seq<septet>, s: nat)
    requires |t| == 1 && s < 8
    ensures Packed(t, s) == [t[0] / Two(s)]
  {
  }

  lemma PackSkips(t: seq<septet>, i: nat)
    requires i + 1 < |t|
    ensures Packed(t[i..], 7) == Packed(t[i + 1..], 0)
  {
    hide Packed;
    PackedStep(t[i..], 7);
    assert t[i..][1..] == t[i + 1..];
  }

  lemma PackGoesOn(done: seq<octet>, t: seq<septet>, i: nat, s: nat)
    requires i + 1 < |t| && s < 7
    ensures var c := PackedOctet(t[i], t[i + 1], s);
            && done + Packed(t[i..], s) == (done + [c]) + Packed(t[i + 1..], s + 1)
            && HexText(done + [c]) == HexText(done) + HexOf(c)
  {
    hide Packed, PackedOctet, HexText, HexOf;
    var c := PackedOctet(t[i], t[i + 1], s);
    PackedStep(t[i..], s);
    assert t[i..][1..] == t[i + 1..];
    HexTextAppend(done, c);
    assert done + ([c] + Packed(t[i + 1..], s + 1)) == (done + [c]) + Packed(t[i + 1..], s + 1);
  }

  /** What the encoder asks for, in characters and without the NUL at the end. */
  function Asked(n: nat): nat {
    2 * (n - n / 8)
  }

  /** The encoder goes on, and then writes more characters than it asked for. */
  predicate Overruns(n: nat, outSize: nat) {
    n > 0 && n % 8 == 0 && outSize <= Asked(n) + 2
  }

  lemma PackSize(t: seq<septet>)
    ensures 2 * |Pack(t)| == Asked(|t|) + (if t != [] && |t| % 8 == 0 then 2 else 0)
  {
    PackLength(t);
    CeilingOfSevenEighths(|t|, |t| / 8, |t| % 8);
  }

  /** Once the check for room is passed, what is written fits iff the encoder does not overrun. */
  lemma RoomExact(t: seq<septet>, outSize: nat)
    requires outSize > 0 && Room(outSize) >= Asked(|t|)
    ensures 2 * |Pack(t)| + 1 <= outSize <==> !Overruns(|t|, outSize)
  {
    PackSize(t);
    hide Pack;
  }

  /** For eight septets and room for what is asked, three characters are written past the end. */
  lemma RoomTooSmall(t: seq<septet>)
    requires |t| == 8
    ensures Room(15) == Asked(8) && 2 * |Pack(t)| + 1 == 15 + 2
  {
    PackSize(t);
    hide Pack;
  }

  /**
   `char_to_hexstr_7bit`, with the number of characters it puts at `out`. These stay within `outSize`
   iff the encoder does not overrun; with `outSize` 0 the check wraps around, and they never do.
   */
  method CharToHexstr7bit(input: seq<septet>, outSize: nat) returns (r: Result<string>, wrote: nat)
    ensures r == if Room(outSize) < Asked(|input|) then Err(-1) else Ok(HexText(Pack(input)))
    ensures wrote == if r.Ok? then |r.value| + 1 else 0
    ensures r.Ok? && outSize > 0 ==> (wrote <= outSize <==> !Overruns(|input|, outSize))
    ensures r.Ok? && outSize == 0 ==> wrote > outSize
  {
    hide Packed, PackedOctet, HexOf, HexText, Two, Asked, Overruns;
    if Room(outSize) < Asked(|input|) {
      return Err(-1), 0;
    }
    if outSize > 0 {
      RoomExact(input, outSize);
    }
    HexTextLength(Pack(input));
    NoText();
    var out := "";
    if |input| > 0 {
      var n, i, s := |input| - 1, 0, 0;
      ghost var done: seq<octet> := [];
      assert input[0..] == input && done + Packed(input, 0) == Packed(input, 0);
      while i < n
        invariant i <= n && s < 8
        invariant done + Packed(input[i..], s) == Packed(input, 0) && out == HexText(done)
      {
        if s == 7 {
          PackSkips(input, i);
          s := 0;
          i := i + 1;
          continue;
        }
        PackGoesOn(done, input, i, s);
        var c := PackedOctet(input[i], input[i + 1], s);
        done := done + [c];
        s := s + 1;
        out := out + HexOf(c);
        i := i + 1;
      }
      PackedLast(input[i..], s);
      var c: octet := LastOctet(input[i], s);
      HexTextAppend(done, c);
      out := out + HexOf(c);
    }
    return Ok(out), |out| + 1;
  }

  lemma NoText()
    ensures HexText([]) == ""
  {
  }

  lemma {:induction false} HexTextLength(o: seq<octet>)
    ensures |HexText(o)| == 2 * |o|
  {
    hide HexOf;
    if o != [] {
      HexTextLength(o[1..]);
    }
  }

  function LastOctet(t: septet, s: nat): (o: octet)
    requires s < 8
    ensures o == t / Two(s)
  {
    t / Two(s)
  }

  predicate IsSpace(c: char) {
    c == ' ' || '\t' <= c <= '\r'
  }

  /** `sscanf` with `%x` on two characters, kept as an octet; -1 if there is no number. */
  function ScanHex(a: char, b: char): (r: int)
    ensures -1 <= r < 256
  {
    var x, y := ParseHexDigit(a), ParseHexDigit(b);
    if x >= 0 then
      if y >= 0 then 16 * x + y
      else if a == '0' && (b == 'x' || b == 'X') then -1
      else x
    else if y < 0 then -1
    else if a == '-' then (256 - y) % 256
    else if a == '+' || IsSpace(a) then y
    else -1
  }

  /** White space, as `isspace` has it. */
  const SPACES: seq<char> := [' ', '\t', '\n', 11 as char, 12 as char, '\r']

  lemma SpaceIff(c: char)
    ensures IsSpace(c) <==> c in SPACES
  {
    if IsSpace(c) {
      assert c == SPACES[0] || c == SPACES[1] || c == SPACES[2] || c == SPACES[3] || c == SPACES[4] || c == SPACES[5];
    }
  }

  predicate InHex(c: char) {
    c in UPPER_DIGITS || c in LOWER_DIGITS
  }

  /**
   A number of two digits or of one, at the front or behind white space or a sign, which makes it negative or not; and
   none if there is no digit, or `0x` in front of nothing.
   */
  lemma ScanIs(a: char, b: char)
    ensures InHex(a) && InHex(b) ==> ScanHex(a, b) == 16 * ParseHexDigit(a) + ParseHexDigit(b)
    ensures InHex(a) && !InHex(b) ==>
              ScanHex(a, b) == if [a, b] == "0x" || [a, b] == "0X" then -1 else ParseHexDigit(a)
    ensures !InHex(a) && InHex(b) ==>
              ScanHex(a, b) == if a == '+' || a in SPACES then ParseHexDigit(b)
                               else if a == '-' then (if b == '0' then 0 else 256 - ParseHexDigit(b)) else -1
    ensures !InHex(a) && !InHex(b) ==> ScanHex(a, b) == -1
  {
    DigitIff(a);
    DigitIff(b);
    SpaceIff(a);
    assert '-' !in SPACES;
    hide IsSpace, SPACES, UPPER_DIGITS, LOWER_DIGITS;
    assert [a, b] == "0x" <==> a == '0' && b == 'x';
    assert [a, b] == "0X" <==> a == '0' && b == 'X';
  }

  /** What is decoded of a text, octet by octet; an odd character at the end is ignored. */
  function Decoded(text: string, s: nat, b: nat): Result<seq<septet>>
    requires 1 <= s < 8 && b < Two(s - 1)
    decreases |text|
  {
    if |text| < 2 then Ok([])
    else
      var o := ScanHex(text[0], text[1]);
      if o < 0 then Err(-1)
      else if s == 7 then After([UnpackedSeptet(o, s, b), LeftOver(o, s)], Decoded(text[2..], 1, 0))
      else After([UnpackedSeptet(o, s, b)], Decoded(text[2..], s + 1, LeftOver(o, s)))
  }

  lemma Sevens(m: nat, i: nat, q: nat, s: nat)
    requires i == 7 * q + s && s < 7 && i <= m
    ensures i + q <= m + m / 7 && (i == m ==> i + q == m + m / 7)
  {
  }

  /**
   `hexstr_7bit_to_char`, with the number of characters it puts at `out`. They stay within `outSize`, unless
   this is 0, when the check wraps around.
   */
  method Hexstr7bitToChar(input: string, outSize: nat) returns (r: Result<seq<septet>>, wrote: nat)
    ensures var m := |input| / 2; r == if Room(outSize) < m + m / 7 then Err(-1) else Decoded(input, 1, 0)
    ensures r.Ok? ==> wrote == |r.value| + 1 == |input| / 2 + |input| / 2 / 7 + 1
    ensures outSize > 0 ==> wrote <= outSize
    ensures outSize == 0 && r.Ok? ==> wrote > outSize
  {
    hide UnpackedSeptet, LeftOver, ScanHex, Two;
    var m := |input| / 2;
    if Room(outSize) < m + m / 7 {
      return Err(-1), 0;
    }
    TwoIs();
    var out: seq<septet>, i, s, b: nat := [], 0, 1, 0;
    ghost var q := 0;
    assert input[0..] == input;
    AfterAfter([], [], Decoded(input, 1, 0));
    while i < m
      invariant i <= m && 1 <= s < 8 && b < Two(s - 1)
      invariant i == 7 * q + (s - 1) && |out| == i + q
      invariant After(out, Decoded(input[2 * i..], s, b)) == Decoded(input, 1, 0)
    {
      var rest := input[2 * i..];
      assert rest[2..] == input[2 * (i + 1)..];
      var hexval := ScanHex(input[2 * i], input[2 * i + 1]);
      if hexval < 0 {
        Sevens(m, i, q, s - 1);
        return Err(-1), |out|;
      }
      var c := UnpackedSeptet(hexval, s, b);
      b := LeftOver(hexval, s);
      s := s + 1;
      if s == 8 {
        AfterAfter(out, [c, b], Decoded(rest[2..], 1, 0));
        out := out + [c, b];
        s, b := 1, 0;
        q := q + 1;
      } else {
        AfterAfter(out, [c], Decoded(rest[2..], s, b));
        out := out + [c];
      }
      i := i + 1;
    }
    Sevens(m, i, q, s - 1);
    assert out + [] == out;
    return Ok(out), |out| + 1;
  }

  lemma ScanDigits(a: int, b: int)
    requires 0 <= a < 16 && 0 <= b < 16
    ensures ScanHex(HexDigit(a), HexDigit(b)) == 16 * a + b
  {
  }

  /** What is decoded are the septets of the numbers read, if there is one in each two characters, and else an error. */
  lemma {:induction false} DecodedNumbers(text: string, o: seq<int>, s: nat, b: nat)
    requires 1 <= s < 8 && b < Two(s - 1) && |o| == |text| / 2
    requires forall k :: 0 <= k < |o| ==> o[k] == ScanHex(text[2 * k], text[2 * k + 1])
    ensures if forall k :: 0 <= k < |o| ==> 0 <= o[k] < 256
            then Decoded(text, s, b) == Ok(Unpacked(o, s, b)) else Decoded(text, s, b) == Err(-1)
    decreases |text|
  {
    hide UnpackedSeptet, LeftOver, ScanHex, Two;
    if o != [] {
      TwoIs();
      var tail := o[1..];
      forall k | 0 <= k < |tail|
        ensures tail[k] == ScanHex(text[2..][2 * k], text[2..][2 * k + 1])
      {
        var next := k + 1;
        assert tail[k] == o[next] && text[2..][2 * k] == text[2 * next] && text[2..][2 * k + 1] == text[2 * next + 1];
      }
      assert o[0] == ScanHex(text[2 * 0], text[2 * 0 + 1]);
      assert (forall k :: 0 <= k < |o| ==> 0 <= o[k] < 256)
        <==> 0 <= o[0] < 256 && forall k :: 0 <= k < |tail| ==> 0 <= tail[k] < 256 by {
        if 0 <= o[0] < 256 && forall k :: 0 <= k < |tail| ==> 0 <= tail[k] < 256 {
          forall k | 0 <= k < |o|
            ensures 0 <= o[k] < 256
          {
            assert k > 0 ==> o[k] == tail[k - 1];
          }
        }
      }
      if o[0] >= 0 {
        if s == 7 {
          DecodedNumbers(text[2..], tail, 1, 0);
        } else {
          DecodedNumbers(text[2..], tail, s + 1, LeftOver(o[0], s));
        }
      }
    }
  }

  /** Hexadecimal text decodes to the septets in its octets. */
  lemma {:induction false} DecodedOctets(o: seq<octet>, s: nat, b: nat)
    requires 1 <= s < 8 && b < Two(s - 1)
    ensures Decoded(HexText(o), s, b) == Ok(Unpacked(o, s, b))
    decreases |o|
  {
    hide UnpackedSeptet, LeftOver, ScanHex, HexDigit, Two;
    if o != [] {
      TwoIs();
      ScanDigits(o[0] / 16, o[0] % 16);
      assert HexText(o)[2..] == HexText(o[1..]) && 16 * (o[0] / 16) + o[0] % 16 == o[0];
      if s == 7 {
        DecodedOctets(o[1..], 1, 0);
      } else {
        DecodedOctets(o[1..], s + 1, LeftOver(o[0], s));
      }
    }
  }

  /** The two halves of the codec, put together. */
  lemma CodecRoundTrip(t: seq<septet>)
    ensures Decoded(HexText(Pack(t)), 1, 0) == Ok(t + Filler(t))
  {
    TwoIs();
    DecodedOctets(Pack(t), 1, 0);
    RoundTrip(t);
  }
}
