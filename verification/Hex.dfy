/**
 Octets written as hexadecimal text: the 8-bit codec of char_conv.c.
 */
module Hex {
  import opened Wrappers

  type octet = x: int | 0 <= x < 256

  const EINVAL: int := -22
  const ENOMEM: int := -12
  const SIZE_MAX: int := 0xFFFF_FFFF_FFFF_FFFF

  /** `out_size - 1`, which wraps when there is no room at all. */
  function Room(outSize: nat): int {
    if outSize == 0 then SIZE_MAX else outSize - 1
  }

  /** `parse_hexdigit` */
  function ParseHexDigit(c: char): (r: int)
    ensures -1 <= r < 16
  {
    if '0' <= c <= '9' then c as int - '0' as int
    else if 'a' <= c <= 'f' then c as int - 'a' as int + 10
    else if 'A' <= c <= 'F' then c as int - 'A' as int + 10
    else -1
  }

  function HexDigit(d: int): (c: char)
    requires 0 <= d < 16
    ensures ParseHexDigit(c) == d && Upper(c) == c
  {
    if d < 10 then ('0' as int + d) as char else ('A' as int + d - 10) as char
  }

  function Upper(c: char): char {
    if 'a' <= c <= 'z' then (c as int - 32) as char else c
  }

  function UpperText(s: string): (r: string)
    ensures |r| == |s| && forall k :: 0 <= k < |s| ==> r[k] == Upper(s[k])
  {
    seq(|s|, k requires 0 <= k < |s| => Upper(s[k]))
  }

  function HexOf(o: octet): (s: string)
    ensures |s| == 2
  {
    [HexDigit(o / 16), HexDigit(o % 16)]
  }

  function HexText(octets: seq<octet>): (s: string)
    ensures |s| == 2 * |octets|
  {
    if octets == [] then "" else HexOf(octets[0]) + HexText(octets[1..])
  }

  function After<T>(first: seq<T>, rest: Result<seq<T>>): Result<seq<T>> {
    match rest
    case Err(e) => Err(e)
    case Ok(more) => Ok(first + more)
  }

  lemma AfterAfter<T>(a: seq<T>, b: seq<T>, r: Result<seq<T>>)
    ensures After(a, After(b, r)) == After(a + b, r) && After([], r) == r
  {
    if r.Ok? {
      assert a + (b + r.value) == (a + b) + r.value && [] + r.value == r.value;
    }
  }

  /** The octets a text stands for, if every two characters of it are hexadecimal digits. */
  function Octets(s: string): (r: Result<seq<octet>>)
    ensures r.Ok? ==> |r.value| == |s| / 2
  {
    if |s| < 2 then Ok([])
    else if ParseHexDigit(s[0]) < 0 || ParseHexDigit(s[1]) < 0 then Err(EINVAL)
    else After([16 * ParseHexDigit(s[0]) + ParseHexDigit(s[1])], Octets(s[2..]))
  }

  lemma {:induction false} HexTextAppend(a: seq<octet>, o: octet)
    ensures HexText(a + [o]) == HexText(a) + HexOf(o)
  {
    hide HexOf;
    if a == [] {
      assert a + [o] == [o] && [o][1..] == [];
    } else {
      assert (a + [o])[1..] == a[1..] + [o];
      HexTextAppend(a[1..], o);
    }
  }

  /** What is written is read again. */
  lemma {:induction false} OctetsOfHexText(octets: seq<octet>)
    ensures Octets(HexText(octets)) == Ok(octets)
  {
    hide HexDigit, ParseHexDigit;
    if octets != [] {
      OctetsOfHexText(octets[1..]);
      var s := HexText(octets);
      assert s[2..] == HexText(octets[1..]);
      assert 16 * (octets[0] / 16) + octets[0] % 16 == octets[0];
      assert [octets[0]] + octets[1..] == octets;
    }
  }

  const UPPER_DIGITS: string := "0123456789ABCDEF"
  const LOWER_DIGITS: string := "0123456789abcdef"

  /** The digits in the order of their values, in upper case when written, and in either when read. */
  lemma DigitValue(v: nat)
    requires v < 16
    ensures HexDigit(v) == UPPER_DIGITS[v]
    ensures ParseHexDigit(UPPER_DIGITS[v]) == v == ParseHexDigit(LOWER_DIGITS[v])
  {
  }

  lemma DigitIff(c: char)
    ensures ParseHexDigit(c) >= 0 <==> c in UPPER_DIGITS || c in LOWER_DIGITS
  {
    var v := ParseHexDigit(c);
    if '0' <= c <= '9' || 'A' <= c <= 'F' {
      assert UPPER_DIGITS[v] == c;
    } else if 'a' <= c <= 'f' {
      assert LOWER_DIGITS[v] == c;
    } else {
      assert forall k :: 0 <= k < 16 ==> UPPER_DIGITS[k] != c && LOWER_DIGITS[k] != c;
    }
  }

  /** Text can be read just when it is all digits, but for an odd character at its end. */
  lemma {:induction false} OctetsIff(s: string)
    ensures Octets(s).Ok?
            <==> forall k :: 0 <= k < 2 * (|s| / 2) ==> s[k] in UPPER_DIGITS || s[k] in LOWER_DIGITS
  {
    hide ParseHexDigit, UPPER_DIGITS, LOWER_DIGITS;
    if |s| >= 2 {
      DigitIff(s[0]);
      DigitIff(s[1]);
      OctetsIff(s[2..]);
      assert |s[2..]| / 2 == |s| / 2 - 1;
      if Octets(s[2..]).Ok? {
        forall k | 2 <= k < 2 * (|s| / 2)
          ensures s[k] in UPPER_DIGITS || s[k] in LOWER_DIGITS
        {
          assert s[k] == s[2..][k - 2];
        }
      } else {
        var k :| 0 <= k < 2 * (|s[2..]| / 2) && s[2..][k] !in UPPER_DIGITS && s[2..][k] !in LOWER_DIGITS;
        assert s[k + 2] == s[2..][k];
      }
    }
  }

  lemma DigitUpper(c: char)
    requires ParseHexDigit(c) >= 0
    ensures HexDigit(ParseHexDigit(c)) == Upper(c)
  {
  }

  /** What is read is written again, up to the case of the digits. */
  lemma {:induction false} HexTextOfOctets(s: string)
    requires |s| % 2 == 0 && Octets(s).Ok?
    ensures HexText(Octets(s).value) == UpperText(s)
  {
    hide HexDigit, ParseHexDigit, Upper;
    if s != [] {
      DigitUpper(s[0]);
      DigitUpper(s[1]);
      HexTextOfOctets(s[2..]);
      assert UpperText(s) == [Upper(s[0]), Upper(s[1])] + UpperText(s[2..]);
      TwoDigits(ParseHexDigit(s[0]), ParseHexDigit(s[1]));
    }
  }

  lemma TwoDigits(a: int, b: int)
    requires 0 <= a < 16 && 0 <= b < 16
    ensures (16 * a + b) / 16 == a && (16 * a + b) % 16 == b
  {
  }

  /** Reading stops at the first character that is no digit. */
  lemma {:induction false} OctetsSplit(a: string, b: string, h: nat)
    requires |a| == 2 * h && Octets(a).Ok?
    ensures Octets(a + b) == After(Octets(a).value, Octets(b))
  {
    hide ParseHexDigit;
    if h == 0 {
      assert a + b == b;
      AfterAfter([], [], Octets(b));
    } else {
      assert (a + b)[2..] == a[2..] + b;
      OctetsSplit(a[2..], b, h - 1);
      AfterAfter([16 * ParseHexDigit(a[0]) + ParseHexDigit(a[1])], Octets(a[2..]).value, Octets(b));
    }
  }

  /**
   `chars8bit_to_hexstr`, with the number of characters it puts at `out`, the NUL among them. They stay within
   `outSize`, unless this is 0, when the check wraps around.
   */
  method Chars8bitToHexstr(input: seq<octet>, outSize: nat) returns (r: Result<string>, wrote: nat)
    ensures r == if Room(outSize) < 2 * |input| then Err(-1) else Ok(HexText(input))
    ensures wrote == if r.Ok? then |r.value| + 1 else 0
    ensures wrote <= outSize <==> outSize > 0 || r.Err?
  {
    if Room(outSize) < 2 * |input| {
      return Err(-1), 0;
    }
    var out, i := "", 0;
    while i < |input|
      invariant i <= |input| && out == HexText(input[..i]) && |out| == 2 * i
    {
      HexTextAppend(input[..i], input[i]);
      assert input[..i + 1] == input[..i] + [input[i]];
      out := out + HexOf(input[i]);
      i := i + 1;
    }
    assert input[..i] == input;
    return Ok(out), |out| + 1;
  }

  /** Two more characters of a text that is good so far: one of them is no digit, or both are. */
  lemma BadPair(a: string, two: string, tail: string, i: nat)
    requires |a| == 2 * i && |two| == 2 && Octets(a).Ok?
    requires ParseHexDigit(two[0]) < 0 || ParseHexDigit(two[1]) < 0
    ensures Octets(a + (two + tail)) == Err(EINVAL)
  {
    hide ParseHexDigit, Octets;
    OctetsSplit(a, two + tail, i);
    NoOctet(two + tail);
  }

  lemma GoodPair(a: string, two: string, i: nat)
    requires |a| == 2 * i && |two| == 2 && Octets(a).Ok?
    requires ParseHexDigit(two[0]) >= 0 && ParseHexDigit(two[1]) >= 0
    ensures Octets(a + two) == Ok(Octets(a).value + [16 * ParseHexDigit(two[0]) + ParseHexDigit(two[1])])
  {
    hide ParseHexDigit, Octets;
    OneOctet(two);
    OctetsSplit(a, two, i);
  }

  lemma PairEnds(input: string, i: nat)
    requires 2 * i + 2 <= |input| && Octets(input[..2 * i]).Ok?
    requires ParseHexDigit(input[2 * i]) < 0 || ParseHexDigit(input[2 * i + 1]) < 0
    ensures Octets(input) == Err(EINVAL)
  {
    hide ParseHexDigit, Octets;
    var j := 2 * i;
    var a, two, tail := input[..j], input[j..j + 2], input[j + 2..];
    assert input == a + (two + tail);
    BadPair(a, two, tail, i);
  }

  lemma PairGoesOn(input: string, i: nat, out: seq<octet>)
    requires 2 * i + 2 <= |input| && Octets(input[..2 * i]) == Ok(out)
    requires ParseHexDigit(input[2 * i]) >= 0 && ParseHexDigit(input[2 * i + 1]) >= 0
    ensures Octets(input[..2 * (i + 1)])
            == Ok(out + [16 * ParseHexDigit(input[2 * i]) + ParseHexDigit(input[2 * i + 1])])
  {
    hide ParseHexDigit, Octets;
    var j := 2 * i;
    var a, two := input[..j], input[j..j + 2];
    assert input[..2 * (i + 1)] == a + two;
    GoodPair(a, two, i);
  }

  lemma NoOctet(s: string)
    requires |s| >= 2 && (ParseHexDigit(s[0]) < 0 || ParseHexDigit(s[1]) < 0)
    ensures Octets(s) == Err(EINVAL)
  {
  }

  lemma OneOctet(two: string)
    requires |two| == 2 && ParseHexDigit(two[0]) >= 0 && ParseHexDigit(two[1]) >= 0
    ensures Octets(two) == Ok([16 * ParseHexDigit(two[0]) + ParseHexDigit(two[1])])
  {
    assert two[2..] == [];
    var first: seq<octet> := [16 * ParseHexDigit(two[0]) + ParseHexDigit(two[1])];
    assert first + [] == first;
  }

  /**
   `hexstr_to_8bitchars`, with the number of octets it puts at `out`. They stay within `outSize`, unless
   this is 0, when the check wraps around.
   */
  method HexstrTo8bitChars(input: string, outSize: nat) returns (r: Result<seq<octet>>, wrote: nat)
    ensures |input| % 2 != 0 ==> r == Err(EINVAL)
    ensures |input| % 2 == 0 ==> r == if Room(outSize) < |input| / 2 then Err(ENOMEM) else Octets(input)
    ensures r.Ok? ==> wrote == |r.value| + 1
    ensures outSize > 0 ==> wrote <= outSize
    ensures outSize == 0 && r.Ok? ==> wrote > outSize
  {
    if |input| % 2 != 0 {
      return Err(EINVAL), 0;
    }
    var n := |input| / 2;
    if Room(outSize) < n {
      return Err(ENOMEM), 0;
    }
    var out: seq<octet>, i := [], 0;
    while i < n
      invariant i <= n && Octets(input[..2 * i]) == Ok(out) && |out| == i
    {
      hide ParseHexDigit, Octets;
      var d1, d2 := ParseHexDigit(input[2 * i]), ParseHexDigit(input[2 * i + 1]);
      if d1 < 0 || d2 < 0 {
        PairEnds(input, i);
        return Err(EINVAL), |out|;
      }
      PairGoesOn(input, i, out);
      out := out + [16 * d1 + d2];
      i := i + 1;
    }
    assert input[..2 * n] == input;
    return Ok(out), |out| + 1;
  }
}
