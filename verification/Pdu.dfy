/**
 SMS-DELIVER messages (3GPP TS 23.040 section 9.2.2.1) as pdu.c reads them, and the
 semi-octet addresses (section 9.1.2.3) it writes and reads.
 */
module Pdu {
  import opened Wrappers
  import opened Hex
  import Septets

  const INTERNATIONAL: int := 0x91

  // ---------- addresses ----------

  /** `pdu_digit2code`; NUL for what is no digit. */
  function DigitToCode(digit: char): char {
    if '0' <= digit <= '9' then digit
    else if digit == '*' then 'A'
    else if digit == '#' then 'B'
    else if digit == 'a' || digit == 'A' then 'C'
    else if digit == 'b' || digit == 'B' then 'D'
    else if digit == 'c' || digit == 'C' then 'E'
    else 0 as char
  }

  /** `pdu_code2digit`: 0 for the filler, negative for what is no code. */
  function CodeToDigit(code: char): (r: int)
    ensures -1 <= r < 128
  {
    if '0' <= code <= '9' then code as int
    else if code == 'a' || code == 'A' then '*' as int
    else if code == 'b' || code == 'B' then '#' as int
    else if code == 'c' || code == 'C' then 'A' as int
    else if code == 'd' || code == 'D' then 'B' as int
    else if code == 'e' || code == 'E' then 'C' as int
    else if code == 'F' then 0
    else -1
  }

  predicate IsDigit(c: char) {
    '0' <= c <= '9' || c == '*' || c == '#' || 'a' <= c <= 'c' || 'A' <= c <= 'C'
  }

  /** Codes turn back into digits, up to the case of the letters; what is no digit has no code that does. */
  lemma CodeDigit(c: char)
    ensures CodeToDigit(DigitToCode(c)) == if IsDigit(c) then Upper(c) as int else -1
    ensures IsDigit(c) ==> Upper(c) as int > 0
  {
  }

  /** `pdu_store_number`: pairs of digits swapped, an odd one behind a filler. */
  function Stored(number: string): (r: string)
    ensures |r| == RoundUp2(|number|)
  {
    if number == "" then ""
    else if |number| == 1 then ['F', DigitToCode(number[0])]
    else [DigitToCode(number[1]), DigitToCode(number[0])] + Stored(number[2..])
  }

  function RoundUp2(n: nat): (r: nat)
    ensures r == n || r == n + 1
  {
    if n % 2 == 0 then n else n + 1
  }

  /** The digits in `syms` characters of text, in the loop of `pdu_parse_number`; 0 for a filler. */
  function Digits(text: string, syms: nat, odd: bool): Result<seq<int>>
    requires syms <= |text|
    decreases syms
  {
    if syms < 2 then Ok([])
    else
      var first, second := CodeToDigit(text[1]), CodeToDigit(text[0]);
      if first <= 0 then Err(-1)
      else if second < 0 || (second == 0 && (syms != 2 || !odd)) then Err(-1)
      else After([first, second], Digits(text[2..], syms - 2, odd))
  }

  function AsInts(s: string): (r: seq<int>)
    ensures |r| == |s| && forall k :: 0 <= k < |s| ==> r[k] == s[k] as int
  {
    seq(|s|, k requires 0 <= k < |s| => s[k] as int)
  }

  predicate AllDigits(number: string) {
    forall k :: 0 <= k < |number| ==> IsDigit(number[k])
  }

  lemma OneDigitRead(c: char, rest: string)
    ensures Digits(['F', DigitToCode(c)] + rest, 2, true)
            == if IsDigit(c) then Ok([Upper(c) as int, 0]) else Err(-1)
  {
    hide CodeToDigit, DigitToCode, IsDigit, Upper;
    CodeDigit(c);
    FillerIsZero();
    assert (['F', DigitToCode(c)] + rest)[2..] == rest && [Upper(c) as int, 0] + [] == [Upper(c) as int, 0];
  }

  lemma TwoDigitsRead(a: char, b: char, more: string, syms: nat, odd: bool)
    requires syms <= |more|
    ensures Digits([DigitToCode(b), DigitToCode(a)] + more, syms + 2, odd)
            == if IsDigit(a) && IsDigit(b) then After([Upper(a) as int, Upper(b) as int], Digits(more, syms, odd))
               else Err(-1)
  {
    hide CodeToDigit, DigitToCode, IsDigit, Upper;
    CodeDigit(a);
    CodeDigit(b);
    assert ([DigitToCode(b), DigitToCode(a)] + more)[2..] == more;
  }

  lemma AllDigitsSplit(number: string)
    requires |number| >= 2
    ensures AllDigits(number) <==> IsDigit(number[0]) && IsDigit(number[1]) && AllDigits(number[2..])
  {
    hide IsDigit;
    var tail := number[2..];
    if IsDigit(number[0]) && IsDigit(number[1]) && AllDigits(tail) {
      forall k | 0 <= k < |number|
        ensures IsDigit(number[k])
      {
        if k >= 2 {
          assert number[k] == tail[k - 2];
        }
      }
    }
  }

  /** The semi-octets of section 9.1.2.3 of TS 23.040, in the order of their values. */
  const SEMI_OCTETS: string := "0123456789*#abc"

  lemma CodeOfValue(v: nat)
    requires v < 15
    ensures ParseHexDigit(DigitToCode(SEMI_OCTETS[v])) == v
  {
  }

  /** Each digit is stored as its value, the two of an octet swapped, and an odd one under the filler 15. */
  lemma {:induction false} StoredAt(number: string, k: nat, v: nat)
    requires k < |number| && v < 15 && number[k] == SEMI_OCTETS[v]
    ensures var swapped := if k % 2 == 0 then k + 1 else k - 1;
            && swapped < |Stored(number)| && ParseHexDigit(Stored(number)[swapped]) == v
            && (k % 2 == 0 && k + 1 == |number| ==> ParseHexDigit(Stored(number)[k]) == 15)
  {
    hide DigitToCode, SEMI_OCTETS;
    CodeOfValue(v);
    if k >= 2 {
      StoredAt(number[2..], k - 2, v);
    }
  }

  lemma UpperSplit(number: string)
    requires |number| >= 2
    ensures AsInts(UpperText(number))
            == [Upper(number[0]) as int, Upper(number[1]) as int] + AsInts(UpperText(number[2..]))
  {
    hide Upper;
  }

  /** What is read of a stored number: its digits up to the case of letters, or an error. */
  ghost function ReadBack(number: string, odd: bool): Result<seq<int>> {
    if AllDigits(number) then Ok(AsInts(UpperText(number)) + (if odd then [0] else [])) else Err(-1)
  }

  lemma ReadBackStep(number: string, odd: bool)
    requires |number| >= 2
    ensures ReadBack(number, odd)
            == if IsDigit(number[0]) && IsDigit(number[1])
               then After([Upper(number[0]) as int, Upper(number[1]) as int], ReadBack(number[2..], odd))
               else Err(-1)
  {
    hide IsDigit, Upper, AllDigits, AsInts, UpperText;
    AllDigitsSplit(number);
    UpperSplit(number);
    var first := [Upper(number[0]) as int, Upper(number[1]) as int];
    AfterAfter(first, AsInts(UpperText(number[2..])), Ok(if odd then [0] else []));
  }

  lemma ReadBackOne(number: string)
    requires |number| == 1
    ensures ReadBack(number, true) == if IsDigit(number[0]) then Ok([Upper(number[0]) as int, 0]) else Err(-1)
  {
    hide IsDigit, Upper;
    assert AsInts(UpperText(number)) + [0] == [Upper(number[0]) as int, 0];
  }

  /** What is stored is read again just when it is all digits. */
  lemma {:induction false} StoredDigits(number: string, rest: string, odd: bool, pairs: nat)
    requires |number| == 2 * pairs + (if odd then 1 else 0)
    ensures Digits(Stored(number) + rest, RoundUp2(|number|), odd) == ReadBack(number, odd)
    decreases pairs
  {
    hide CodeToDigit, DigitToCode, IsDigit, Upper, ReadBack, After;
    if pairs > 0 {
      var tail := number[2..];
      StoredDigits(tail, rest, odd, pairs - 1);
      ReadBackStep(number, odd);
      TwoDigitsRead(number[0], number[1], Stored(tail) + rest, RoundUp2(|tail|), odd);
      assert Stored(number) + rest == [DigitToCode(number[1]), DigitToCode(number[0])] + (Stored(tail) + rest);
    } else if odd {
      OneDigitRead(number[0], rest);
      ReadBackOne(number);
    } else {
      assert number == "";
      ReadBackNone();
    }
  }

  lemma ReadBackNone()
    ensures ReadBack("", false) == Ok([])
  {
    assert AsInts(UpperText("")) + [] == [];
  }

  lemma FillerIsZero()
    ensures CodeToDigit('F') == 0
  {
  }

  /** The characters that stand for a digit, and the digits they stand for. */
  const CODES: string := "0123456789ABCDEabcde"
  const CODE_DIGITS: string := "0123456789*#ABC*#ABC"

  lemma CodeIff(c: char)
    ensures CodeToDigit(c) > 0 <==> c in CODES
    ensures CodeToDigit(c) == 0 <==> c == 'F'
  {
    if '0' <= c <= '9' {
      assert CODES[c as int - '0' as int] == c;
    } else if 'A' <= c <= 'E' {
      assert CODES[c as int - 'A' as int + 10] == c;
    } else if 'a' <= c <= 'e' {
      assert CODES[c as int - 'a' as int + 15] == c;
    } else {
      assert forall k :: 0 <= k < 20 ==> CODES[k] != c;
    }
  }

  lemma CodeMeans(v: nat)
    requires v < |CODES|
    ensures v < |CODE_DIGITS| && CodeToDigit(CODES[v]) == CODE_DIGITS[v] as int
  {
  }

  /** The other semi-octet of the same octet. */
  function Swapped(k: nat): nat {
    if k % 2 == 0 then k + 1 else k - 1
  }

  /** A filler comes only as the last semi-octet of an odd number, all others are digits. */
  predicate DigitsThere(text: string, syms: nat, odd: bool)
    requires syms <= |text|
  {
    forall k :: 0 <= k < syms ==> text[k] in CODES || (text[k] == 'F' && odd && k + 2 == syms)
  }

  lemma DigitsThereStep(text: string, syms: nat, odd: bool)
    requires 2 <= syms <= |text| && syms % 2 == 0
    ensures DigitsThere(text, syms, odd)
            <==> && (text[0] in CODES || (text[0] == 'F' && odd && syms == 2)) && text[1] in CODES
                 && DigitsThere(text[2..], syms - 2, odd)
  {
    hide CODES;
    if DigitsThere(text[2..], syms - 2, odd) {
      forall k | 2 <= k < syms
        ensures text[k] in CODES || (text[k] == 'F' && odd && k + 2 == syms)
      {
        assert text[k] == text[2..][k - 2];
      }
    }
    if DigitsThere(text, syms, odd) {
      forall k | 0 <= k < syms - 2
        ensures text[2..][k] in CODES || (text[2..][k] == 'F' && odd && k + 2 == syms - 2)
      {
        var next := k + 2;
        assert text[next] == text[2..][k];
      }
    }
  }

  /** Which texts are read as a number, and what is read of them: the digits, the two of an octet swapped back. */
  lemma {:induction false} DigitsDecided(text: string, syms: nat, odd: bool)
    requires syms <= |text| && syms % 2 == 0
    ensures Digits(text, syms, odd).Ok? <==> DigitsThere(text, syms, odd)
    ensures Digits(text, syms, odd).Ok? ==>
              && |Digits(text, syms, odd).value| == syms
              && forall k :: 0 <= k < syms ==>
                   Swapped(k) < syms && Digits(text, syms, odd).value[k] == CodeToDigit(text[Swapped(k)])
    decreases syms
  {
    hide CodeToDigit, CODES;
    if syms > 0 {
      CodeIff(text[0]);
      CodeIff(text[1]);
      DigitsThereStep(text, syms, odd);
      DigitsDecided(text[2..], syms - 2, odd);
      if Digits(text, syms, odd).Ok? {
        forall k | 0 <= k < syms
          ensures Swapped(k) < syms && Digits(text, syms, odd).value[k] == CodeToDigit(text[Swapped(k)])
        {
          if k >= 2 {
            assert text[Swapped(k)] == text[2..][Swapped(k - 2)];
          }
        }
      }
    }
  }

  /** The loop of `pdu_store_number`. */
  method StoreNumber(number: string) returns (buffer: string)
    ensures buffer == Stored(number)
  {
    hide DigitToCode;
    buffer := "";
    var i, length := 0, |number|;
    assert number[0..] == number;
    while length > 1
      invariant 0 <= i <= |number| && i + length == |number| && Stored(number) == buffer + Stored(number[i..])
    {
      assert number[i..][2..] == number[i + 2..];
      buffer := buffer + [DigitToCode(number[i + 1]), DigitToCode(number[i])];
      length, i := length - 2, i + 2;
    }
    if length > 0 {
      assert number[i..] == [number[i]];
      buffer := buffer + ['F', DigitToCode(number[i])];
    } else {
      assert number[i..] == "" && buffer + "" == buffer;
    }
  }

  // ---------- the parts of a message ----------

  /** `pdu_parse_byte`: the value, or -1, and what is left; a bad second digit is left, with the first one read. */
  function ParseByte(text: string): (r: (int, string))
    ensures -1 <= r.0 < 256 && |r.1| <= |text|
  {
    if |text| < 2 || ParseHexDigit(text[0]) < 0 then (-1, text)
    else if ParseHexDigit(text[1]) < 0 then (ParseHexDigit(text[0]), text[1..])
    else (16 * ParseHexDigit(text[0]) + ParseHexDigit(text[1]), text[2..])
  }

  /** `pdu_parse_number`: what is written to the buffer for the number, and what is left. */
  function ParseNumber(text: string, digits: nat, numLen: nat): Result<(seq<int>, string)> {
    if numLen < digits + 1 then Err(ENOMEM)
    else
      var (toa, rest) := ParseByte(text);
      var syms := RoundUp2(digits);
      if toa < 0 || syms > |rest| then Err(EINVAL)
      else
        match Digits(rest, syms, digits % 2 == 1)
        case Err(e) => Err(e)
        case Ok(number) =>
          Ok(((if toa == INTERNATIONAL then ['+' as int] else []) + number + (if digits % 2 == 0 then [0] else []),
              rest[syms..]))
  }

  lemma {:induction false} DigitsLength(text: string, length: nat, odd: bool)
    requires length <= |text| && length % 2 == 0 && Digits(text, length, odd).Ok?
    ensures |Digits(text, length, odd).value| == length
    decreases length
  {
    hide CodeToDigit;
    if length > 0 {
      DigitsLength(text[2..], length - 2, odd);
    }
  }

  /** A number takes a place for each digit, one for the NUL, and one more for `+`, which the check does not ask for. */
  lemma NumberFits(text: string, digits: nat, numLen: nat)
    requires ParseNumber(text, digits, numLen).Ok?
    ensures var written := |ParseNumber(text, digits, numLen).value.0|;
            var international := ParseByte(text).0 == INTERNATIONAL;
            && written == digits + 1 + (if international then 1 else 0)
            && (written <= numLen <==> !(international && numLen == digits + 1))
  {
    hide Digits, ParseByte;
    DigitsLength(ParseByte(text).1, RoundUp2(digits), digits % 2 == 1);
  }

  /** The loop of `pdu_parse_number`. */
  method ReadDigits(text: string, length: nat, odd: bool) returns (r: Result<seq<int>>)
    requires length <= |text| && length % 2 == 0
    ensures r == Digits(text, length, odd)
  {
    hide CodeToDigit;
    var number: seq<int>, syms, i := [], length, 0;
    assert text[0..] == text;
    AfterAfter([], [], Digits(text, length, odd));
    while syms > 0
      invariant i + syms == length && syms % 2 == 0
      invariant After(number, Digits(text[i..], syms, odd)) == Digits(text, length, odd)
    {
      assert text[i..][2..] == text[i + 2..];
      var digit := CodeToDigit(text[i + 1]);
      if digit <= 0 {
        return Err(-1);
      }
      var second := CodeToDigit(text[i]);
      if second < 0 || (second == 0 && (syms != 2 || !odd)) {
        return Err(-1);
      }
      AfterAfter(number, [digit, second], Digits(text[i + 2..], syms - 2, odd));
      number := number + [digit, second];
      syms, i := syms - 2, i + 2;
    }
    assert number + [] == number;
    return Ok(number);
  }

  /** `pdu_parse_sca`: the address of the service centre is skipped. */
  function ParseSca(text: string): Result<string> {
    var (len, rest) := ParseByte(text);
    if len < 0 || 2 * len > |rest| then Err(EINVAL) else Ok(rest[2 * len..])
  }

  datatype Encoding = SevenBitHex | EightBitHex | Ucs2Hex

  /** The originating address as it is in its buffer, the encoding of the text, and the text. */
  datatype Message = Message(oa: seq<int>, encoding: Encoding, text: string)

  /** What `pdu_parse` may complain of, in the order of its checks. */
  const BAD_SCA: int := 1
  const BAD_LENGTH: int := 2
  const BAD_TYPE: int := 3
  const NOT_DELIVER: int := 4
  const BAD_OA_LENGTH: int := 5
  const BAD_OA: int := 6
  const BAD_PID: int := 7
  const OTHER_PID: int := 8
  const BAD_DCS: int := 9
  const OTHER_DCS: int := 10
  const BAD_TIMESTAMP: int := 11
  const BAD_UDL: int := 12
  const OTHER_UDL: int := 13
  const BAD_UDHL: int := 14
  const BAD_UDH: int := 15

  predicate HasHeader(pduType: int) {
    pduType / 64 % 2 == 1
  }

  function Alphabet(dcs: int): int {
    dcs / 4 % 4
  }

  /** Coding group 00, not compressed, in an alphabet there is. */
  predicate Supported(dcs: int) {
    dcs / 64 % 4 == 0 && dcs / 32 % 2 == 0 && Alphabet(dcs) != 3
  }

  function EncodingOf(dcs: int): Encoding
    requires Supported(dcs)
  {
    if Alphabet(dcs) == 0 then SevenBitHex else if Alphabet(dcs) == 1 then EightBitHex else Ucs2Hex
  }

  /** How many octets of user data there are. */
  function DataOctets(dcs: int, udl: nat): nat {
    if Alphabet(dcs) == 0 then (udl + 1) * 7 / 8 else udl
  }

  /** User data: past the header, if there is one. */
  function ParseData(pduType: int, oa: seq<int>, encoding: Encoding, text: string): Result<Message> {
    if !HasHeader(pduType) then Ok(Message(oa, encoding, text))
    else
      var (udhl, rest) := ParseByte(text);
      if udhl < 0 then Err(BAD_UDHL)
      else if |rest| < 2 * udhl then Err(BAD_UDH)
      else Ok(Message(oa, encoding, rest[2 * udhl..]))
  }

  /** From the protocol identifier on. */
  function ParseBody(pduType: int, oa: seq<int>, text: string): Result<Message> {
    var (pid, r1) := ParseByte(text);
    if pid < 0 then Err(BAD_PID)
    else if pid != 0 then Err(OTHER_PID)
    else
      var (dcs, r2) := ParseByte(r1);
      if dcs < 0 then Err(BAD_DCS)
      else if !Supported(dcs) then Err(OTHER_DCS)
      else if |r2| < 14 then Err(BAD_TIMESTAMP)
      else
        var (udl, r3) := ParseByte(r2[14..]);
        if udl < 0 then Err(BAD_UDL)
        else if 2 * DataOctets(dcs, udl) != |r3| then Err(OTHER_UDL)
        else ParseData(pduType, oa, EncodingOf(dcs), r3)
  }

  /** From the message type on. */
  function ParseDeliver(text: string, oaLen: nat): Result<Message> {
    var (pduType, r1) := ParseByte(text);
    if pduType < 0 then Err(BAD_TYPE)
    else if pduType % 4 != 0 then Err(NOT_DELIVER)
    else
      var (digits, r2) := ParseByte(r1);
      if digits <= 0 then Err(BAD_OA_LENGTH)
      else
        match ParseNumber(r2, digits, oaLen)
        case Err(_) => Err(BAD_OA)
        case Ok((oa, rest)) => ParseBody(pduType, oa, rest)
  }

  /** `pdu_parse` */
  function Parse(pdu: string, tpduLength: nat, oaLen: nat): Result<Message> {
    match ParseSca(pdu)
    case Err(_) => Err(BAD_SCA)
    case Ok(tpdu) =>
      if 2 * tpduLength != |tpdu| then Err(BAD_LENGTH) else ParseDeliver(tpdu, oaLen)
  }

  // ---------- messages as the standard prints them ----------

  /**
   The octets of a message up to the length of the user data, and what follows it, whatever they are.
   `number` is the originating address in its digits.
   */
  datatype Tpdu = Tpdu(first: octet, toa: octet, number: string, pid: octet, dcs: octet,
                       timestamp: seq<octet>, udl: octet, data: seq<octet>)

  ghost predicate Printable(t: Tpdu) {
    |t.number| < 256 && |t.timestamp| == 7
  }

  function TailText(t: Tpdu): string {
    HexOf(t.dcs) + (HexText(t.timestamp) + (HexOf(t.udl) + HexText(t.data)))
  }

  function TpduText(t: Tpdu): string
    requires |t.number| < 256
  {
    HexOf(t.first) + (HexOf(|t.number|) + (HexOf(t.toa) + (Stored(t.number) + (HexOf(t.pid) + TailText(t)))))
  }

  /** The address of the service centre, its length in front, and the message. */
  function Text(sca: seq<octet>, t: Tpdu): string
    requires |sca| < 256 && |t.number| < 256
  {
    HexOf(|sca|) + (HexText(sca) + TpduText(t))
  }

  /** Octets of user data: septets are packed, other alphabets come an octet each. */
  ghost function UserDataLength(dcs: octet, udl: octet): nat {
    if dcs % 16 < 4 then (7 * udl + 7) / 8 else udl
  }

  /** `+` for an international number of the telephone plan, then the digits, then NUL. */
  function Address(toa: octet, number: string): seq<int> {
    (if toa == 0x91 then ['+' as int] else []) + AsInts(UpperText(number)) + [0]
  }

  lemma ParsePrinted(o: octet, rest: string)
    ensures ParseByte(HexOf(o) + rest) == (o, rest)
  {
    var t := HexOf(o) + rest;
    assert t[2..] == rest && t[0] == HexDigit(o / 16) && t[1] == HexDigit(o % 16);
    hide HexDigit, ParseHexDigit;
    assert 16 * (o / 16) + o % 16 == o;
  }

  lemma {:induction false} HexTextDrop(octets: seq<octet>, n: nat)
    requires n <= |octets|
    ensures HexText(octets)[2 * n..] == HexText(octets[n..])
  {
    hide HexOf;
    if n > 0 {
      HexTextDrop(octets[1..], n - 1);
      assert HexText(octets)[2 * n..] == HexText(octets[1..])[2 * (n - 1)..];
      assert octets[1..][n - 1..] == octets[n..];
    }
  }

  lemma AddressOf(toa: octet, number: string)
    requires AllDigits(number)
    ensures var odd := |number| % 2 == 1;
            && ReadBack(number, odd).Ok?
            && (if toa == INTERNATIONAL then ['+' as int] else []) + ReadBack(number, odd).value
               + (if odd then [] else [0]) == Address(toa, number)
  {
    hide AllDigits, AsInts, UpperText;
    var plus := if toa == 0x91 then ['+' as int] else [];
    var up := AsInts(UpperText(number));
    if |number| % 2 == 1 {
      assert plus + (up + [0]) + [] == plus + up + [0];
    } else {
      assert plus + (up + []) + [0] == plus + up + [0];
    }
  }

  lemma ParsedNumber(toa: octet, number: string, rest: string, oaLen: nat)
    requires |number| < 256
    ensures ParseNumber(HexOf(toa) + (Stored(number) + rest), |number|, oaLen).Ok?
            <==> oaLen > |number| && AllDigits(number)
    ensures oaLen > |number| && AllDigits(number)
            ==> ParseNumber(HexOf(toa) + (Stored(number) + rest), |number|, oaLen) == Ok((Address(toa, number), rest))
  {
    hide HexOf, ParseByte, Stored, Digits, AllDigits, Address, ReadBack;
    var n, odd := |number|, |number| % 2 == 1;
    ParsePrinted(toa, Stored(number) + rest);
    StoredDigits(number, rest, odd, n / 2);
    assert (Stored(number) + rest)[RoundUp2(n)..] == rest;
    if AllDigits(number) {
      AddressOf(toa, number);
    } else {
      NotReadBack(number, odd);
    }
  }

  lemma NotReadBack(number: string, odd: bool)
    requires !AllDigits(number)
    ensures ReadBack(number, odd).Err?
  {
  }

  /** The bits of a coding scheme: group, compression, and the last four. */
  lemma SchemeBits(dcs: octet)
    ensures dcs / 64 % 4 == 0 && dcs / 32 % 2 == 0 <==> dcs < 32
  {
  }

  lemma AlphabetBits(dcs: octet)
    ensures dcs / 4 % 4 == dcs % 16 / 4
  {
    var high, low := dcs / 16, dcs % 16;
    assert dcs == 16 * high + low;
    assert dcs / 4 == 4 * high + low / 4;
  }

  /** The coding groups the parser takes, and what they say, by the value of the octet. */
  lemma CodingGroups(dcs: octet, udl: octet)
    ensures Supported(dcs) <==> dcs < 32 && dcs % 16 < 12
    ensures Supported(dcs) ==> DataOctets(dcs, udl) == UserDataLength(dcs, udl)
    ensures Supported(dcs)
            ==> EncodingOf(dcs) == if dcs % 16 < 4 then SevenBitHex else if dcs % 16 < 8 then EightBitHex else Ucs2Hex
  {
    SchemeBits(dcs);
    AlphabetBits(dcs);
    assert (udl + 1) * 7 == 7 * udl + 7;
  }

  /** User data as it comes: without a header it is the text. */
  lemma DataParsed(first: octet, oa: seq<int>, encoding: Encoding, data: seq<octet>)
    ensures ParseData(first, oa, encoding, HexText(data))
            == if first / 64 % 2 == 0 then Ok(Message(oa, encoding, HexText(data)))
               else if data == [] then Err(BAD_UDHL)
               else if data[0] >= |data| then Err(BAD_UDH)
               else Ok(Message(oa, encoding, HexText(data[1 + data[0]..])))
  {
    hide HexOf, ParseByte;
    if data == [] {
      assert ParseByte("").0 == -1 by { NothingParsed(); }
    } else {
      var n := data[0];
      ParsePrinted(n, HexText(data[1..]));
      if n < |data| {
        HexTextDrop(data[1..], n);
        assert data[1..][n..] == data[1 + n..];
      }
    }
  }

  lemma NothingParsed()
    ensures ParseByte("") == (-1, "")
  {
  }

  /** From the coding scheme on. */
  lemma TailParsed(t: Tpdu, oa: seq<int>)
    requires Printable(t)
    ensures ParseBody(t.first, oa, HexOf(t.pid) + TailText(t))
            == if t.pid != 0 then Err(OTHER_PID)
               else if !Supported(t.dcs) then Err(OTHER_DCS)
               else if |t.data| != DataOctets(t.dcs, t.udl) then Err(OTHER_UDL)
               else ParseData(t.first, oa, EncodingOf(t.dcs), HexText(t.data))
  {
    hide HexOf, ParseByte, HexText, ParseData, Supported, EncodingOf, DataOctets;
    var r3 := HexText(t.data);
    var r2 := HexText(t.timestamp) + (HexOf(t.udl) + r3);
    ParsePrinted(t.pid, HexOf(t.dcs) + r2);
    ParsePrinted(t.dcs, r2);
    ParsePrinted(t.udl, r3);
    assert r2[14..] == HexOf(t.udl) + r3;
  }

  lemma TextEven(t: Tpdu)
    requires |t.number| < 256
    ensures |TpduText(t)| % 2 == 0
  {
    hide HexOf, HexText, Stored;
    assert |TailText(t)| == 4 + 2 * |t.timestamp| + 2 * |t.data|;
    assert |TpduText(t)| == 8 + RoundUp2(|t.number|) + |TailText(t)|;
  }

  /** The first octets, and then the rest. */
  lemma TpduParsed(sca: seq<octet>, t: Tpdu, oaLen: nat)
    requires |sca| < 256 && Printable(t)
    ensures |TpduText(t)| % 2 == 0
    ensures Parse(Text(sca, t), |TpduText(t)| / 2, oaLen)
            == if t.first % 4 != 0 then Err(NOT_DELIVER)
               else if t.number == "" then Err(BAD_OA_LENGTH)
               else if oaLen <= |t.number| || !AllDigits(t.number) then Err(BAD_OA)
               else ParseBody(t.first, Address(t.toa, t.number), HexOf(t.pid) + TailText(t))
  {
    hide HexOf, ParseByte, HexText, Stored, ParseBody, TailText, ParseNumber, Address, AllDigits;
    var tpdu := TpduText(t);
    var rest := HexOf(t.pid) + TailText(t);
    var r2 := HexOf(t.toa) + (Stored(t.number) + rest);
    ParsePrinted(|sca|, HexText(sca) + tpdu);
    assert (HexText(sca) + tpdu)[2 * |sca|..] == tpdu;
    ParsePrinted(t.first, HexOf(|t.number|) + r2);
    ParsePrinted(|t.number|, r2);
    TextEven(t);
    ParsedNumber(t.toa, t.number, rest, oaLen);
  }

  /**
   What becomes of any octets, by their values: which of them are refused, and why, is decided
   field by field; of the others the address, the alphabet and the text behind the header are read.
   */
  lemma DecidesOctets(sca: seq<octet>, t: Tpdu, oaLen: nat)
    requires |sca| < 256 && Printable(t)
    ensures |TpduText(t)| % 2 == 0
    ensures Parse(Text(sca, t), |TpduText(t)| / 2, oaLen)
            == if t.first % 4 != 0 then Err(NOT_DELIVER)
               else if t.number == "" then Err(BAD_OA_LENGTH)
               else if oaLen <= |t.number| || !AllDigits(t.number) then Err(BAD_OA)
               else if t.pid != 0 then Err(OTHER_PID)
               else if t.dcs >= 32 || t.dcs % 16 >= 12 then Err(OTHER_DCS)
               else if |t.data| != UserDataLength(t.dcs, t.udl) then Err(OTHER_UDL)
               else if t.first / 64 % 2 == 1 && t.data == [] then Err(BAD_UDHL)
               else if t.first / 64 % 2 == 1 && t.data[0] >= |t.data| then Err(BAD_UDH)
               else Ok(Message(Address(t.toa, t.number),
                               if t.dcs % 16 < 4 then SevenBitHex else if t.dcs % 16 < 8 then EightBitHex else Ucs2Hex,
                               HexText(if t.first / 64 % 2 == 1 then t.data[1 + t.data[0]..] else t.data)))
  {
    hide HexOf, ParseByte, HexText, Stored, ParseBody, ParseData, TailText, TpduText, Parse, Text;
    hide Address, AllDigits, Supported, EncodingOf, DataOctets, UserDataLength;
    TpduParsed(sca, t, oaLen);
    TailParsed(t, Address(t.toa, t.number));
    CodingGroups(t.dcs, t.udl);
    if Supported(t.dcs) {
      DataParsed(t.first, Address(t.toa, t.number), EncodingOf(t.dcs), t.data);
    }
  }

  /**
   A message by its fields. `indications` are the bits 2 to 5 of the first octet (more messages, loop
   prevention, unused, status report); `ton` and `npi` the type and the plan of the number; `messageClass`
   is the class, which means something if `classed`; `body` the user data behind the header.
   */
  datatype Deliver = Deliver(sca: seq<octet>, indications: nat, replyPath: bool, ton: nat, npi: nat, number: string,
                             encoding: Encoding, classed: bool, messageClass: nat, timestamp: seq<octet>,
                             udl: octet, header: Option<seq<octet>>, body: seq<octet>)

  /** The user data: the length of the header, the header, and the body. */
  ghost function UserData(m: Deliver): seq<octet>
    requires m.header.Some? ==> |m.header.value| < 256
  {
    match m.header
    case None => m.body
    case Some(header) => [|header|] + header + m.body
  }

  /** The length counts septets of a 7-bit message, whose bits fill all octets but part of the last; else octets. */
  ghost predicate LengthTold(encoding: Encoding, udl: octet, octets: nat) {
    if encoding.SevenBitHex? then 8 * octets - 8 < 7 * udl <= 8 * octets else octets == udl
  }

  ghost predicate WellFormed(m: Deliver) {
    && |m.sca| < 256 && m.indications < 16 && m.ton < 8 && m.npi < 16
    && 0 < |m.number| < 256 && AllDigits(m.number)
    && m.messageClass < 4 && |m.timestamp| == 7
    && (m.header.Some? ==> |m.header.value| < 256)
    && LengthTold(m.encoding, m.udl, |UserData(m)|)
  }

  /** The alphabets as they are numbered in section 4 of TS 23.038. */
  ghost function AlphabetNumber(encoding: Encoding): nat {
    match encoding
    case SevenBitHex => 0
    case EightBitHex => 1
    case Ucs2Hex => 2
  }

  /** The octets of a message: a delivery is type 0, a short message protocol 0, and so the coding group. */
  ghost function Printed(m: Deliver): Tpdu
    requires WellFormed(m)
  {
    Tpdu(4 * m.indications + (if m.header.Some? then 64 else 0) + (if m.replyPath then 128 else 0),
         128 + 16 * m.ton + m.npi, m.number, 0,
         (if m.classed then 16 else 0) + 4 * AlphabetNumber(m.encoding) + m.messageClass,
         m.timestamp, m.udl, UserData(m))
  }

  /** The octet of the coding scheme. */
  lemma SchemePrinted(classed: bool, encoding: Encoding, messageClass: nat)
    requires messageClass < 4
    ensures var dcs := (if classed then 16 else 0) + 4 * AlphabetNumber(encoding) + messageClass;
            && dcs < 32 && dcs % 16 < 12
            && (dcs % 16 < 4 <==> encoding.SevenBitHex?) && (dcs % 16 < 8 <==> !encoding.Ucs2Hex?)
  {
  }

  /** The first octet. */
  lemma FirstPrinted(indications: nat, header: bool, replyPath: bool)
    requires indications < 16
    ensures var first := 4 * indications + (if header then 64 else 0) + (if replyPath then 128 else 0);
            first % 4 == 0 && (first / 64 % 2 == 1 <==> header)
  {
  }

  /**
   Every message with an address is read: the address up to the case of letters, with `+` just for an
   international number of the telephone plan, the alphabet it was printed in, and the body.
   */
  lemma ParsesPrinted(m: Deliver, oaLen: nat)
    requires WellFormed(m) && oaLen > |m.number|
    ensures |TpduText(Printed(m))| % 2 == 0
    ensures Parse(Text(m.sca, Printed(m)), |TpduText(Printed(m))| / 2, oaLen)
            == Ok(Message((if m.ton == 1 && m.npi == 1 then ['+' as int] else []) + AsInts(UpperText(m.number)) + [0],
                          m.encoding, HexText(m.body)))
  {
    hide HexText, Parse, Text, TpduText, AllDigits, AsInts, UpperText, AlphabetNumber;
    var t := Printed(m);
    SchemePrinted(m.classed, m.encoding, m.messageClass);
    FirstPrinted(m.indications, m.header.Some?, m.replyPath);
    DecidesOctets(m.sca, t, oaLen);
    if m.header.Some? {
      assert UserData(m)[1 + |m.header.value|..] == m.body;
    }
  }

  // ---------- messages cut short ----------

  lemma CutBehind(a: string, rest: string, k: nat)
    requires |a| <= k <= |a| + |rest|
    ensures (a + rest)[..k] == a + rest[..k - |a|]
  {
  }

  /** The end of a message that lacks at least one octet. */
  lemma TailCut(t: Tpdu, oa: seq<int>, k: nat)
    requires Printable(t) && t.pid == 0 && Supported(t.dcs) && |t.data| == DataOctets(t.dcs, t.udl)
    requires 2 * k < |HexOf(t.pid) + TailText(t)|
    ensures ParseBody(t.first, oa, (HexOf(t.pid) + TailText(t))[..2 * k])
            == Err(if k == 0 then BAD_PID else if k == 1 then BAD_DCS else if k < 9 then BAD_TIMESTAMP
                   else if k == 9 then BAD_UDL else OTHER_UDL)
  {
    hide HexOf, ParseByte, HexText, ParseData, Supported, EncodingOf, DataOctets;
    var r3 := HexText(t.data);
    var r2 := HexText(t.timestamp) + (HexOf(t.udl) + r3);
    var r1 := HexOf(t.dcs) + r2;
    NothingParsed();
    if k == 0 {
      assert (HexOf(t.pid) + r1)[..0] == "";
    } else {
      CutBehind(HexOf(t.pid), r1, 2 * k);
      ParsePrinted(t.pid, r1[..2 * k - 2]);
      if k == 1 {
        assert r1[..0] == "";
      } else {
        CutBehind(HexOf(t.dcs), r2, 2 * k - 2);
        ParsePrinted(t.dcs, r2[..2 * k - 4]);
        if k >= 9 {
          CutBehind(HexText(t.timestamp), HexOf(t.udl) + r3, 2 * k - 4);
          var r := (HexOf(t.udl) + r3)[..2 * k - 18];
          assert r2[..2 * k - 4][14..] == r;
          if k == 9 {
            assert r == "";
          } else {
            CutBehind(HexOf(t.udl), r3, 2 * k - 18);
            ParsePrinted(t.udl, r3[..2 * k - 20]);
          }
        }
      }
    }
  }

  /** An address that lacks at least one octet, its type counted. */
  lemma NumberCut(toa: octet, number: string, rest: string, k: nat, oaLen: nat)
    requires 2 * k < 2 + |Stored(number)|
    ensures ParseNumber((HexOf(toa) + (Stored(number) + rest))[..2 * k], |number|, oaLen).Err?
  {
    hide HexOf, ParseByte, Stored, Digits;
    NothingParsed();
    var tail := Stored(number) + rest;
    if k == 0 {
      assert (HexOf(toa) + tail)[..0] == "";
    } else {
      CutBehind(HexOf(toa), tail, 2 * k);
      ParsePrinted(toa, tail[..2 * k - 2]);
    }
  }

  /** The whole number, and then what is left of the rest. */
  lemma NumberKept(toa: octet, number: string, rest: string, k: nat, oaLen: nat)
    requires |number| < 256 && AllDigits(number) && oaLen > |number|
    requires 2 + |Stored(number)| <= 2 * k <= 2 + |Stored(number)| + |rest|
    ensures ParseNumber((HexOf(toa) + (Stored(number) + rest))[..2 * k], |number|, oaLen)
            == Ok((Address(toa, number), rest[..2 * k - 2 - |Stored(number)|]))
  {
    hide HexOf, ParseNumber, Stored, AllDigits, Address;
    CutBehind(HexOf(toa), Stored(number) + rest, 2 * k);
    CutBehind(Stored(number), rest, 2 * k - 2);
    ParsedNumber(toa, number, rest[..2 * k - 2 - |Stored(number)|], oaLen);
  }

  /** A message cut to `k` octets, from its type on. */
  lemma DeliverCut(t: Tpdu, oaLen: nat, k: nat)
    requires Printable(t) && t.pid == 0 && Supported(t.dcs) && |t.data| == DataOctets(t.dcs, t.udl)
    requires t.first % 4 == 0 && t.number != "" && AllDigits(t.number) && oaLen > |t.number|
    requires 2 * k < |TpduText(t)|
    ensures var n := |Stored(t.number)| / 2;
            ParseDeliver(TpduText(t)[..2 * k], oaLen)
            == Err(if k == 0 then BAD_TYPE else if k == 1 then BAD_OA_LENGTH else if k < 3 + n then BAD_OA
                   else if k == 3 + n then BAD_PID else if k == 4 + n then BAD_DCS
                   else if k < 12 + n then BAD_TIMESTAMP else if k == 12 + n then BAD_UDL else OTHER_UDL)
  {
    hide HexOf, ParseByte, HexText, Stored, ParseBody, TailText, ParseNumber, Address, AllDigits;
    hide Supported, DataOctets;
    var rest := HexOf(t.pid) + TailText(t);
    var r2 := HexOf(t.toa) + (Stored(t.number) + rest);
    var r1 := HexOf(|t.number|) + r2;
    NothingParsed();
    if k == 0 {
      assert TpduText(t)[..0] == "";
    } else {
      CutBehind(HexOf(t.first), r1, 2 * k);
      ParsePrinted(t.first, r1[..2 * k - 2]);
      if k == 1 {
        assert r1[..0] == "";
      } else {
        CutBehind(HexOf(|t.number|), r2, 2 * k - 2);
        ParsePrinted(|t.number|, r2[..2 * k - 4]);
        if 2 * (k - 2) < 2 + |Stored(t.number)| {
          NumberCut(t.toa, t.number, rest, k - 2, oaLen);
        } else {
          NumberKept(t.toa, t.number, rest, k - 2, oaLen);
          TailCut(t, Address(t.toa, t.number), k - 3 - |Stored(t.number)| / 2);
        }
      }
    }
  }

  /**
   A message is refused wherever it is cut, with the part that is missing; so is one whose length is
   not the one announced, and one that ends within the address of the service centre.
   */
  lemma CutIsRefused(m: Deliver, oaLen: nat, k: nat)
    requires WellFormed(m) && oaLen > |m.number| && 2 * k < |TpduText(Printed(m))|
    ensures var n := (|m.number| + 1) / 2;
            Parse(HexOf(|m.sca|) + (HexText(m.sca) + TpduText(Printed(m))[..2 * k]), k, oaLen)
            == Err(if k == 0 then BAD_TYPE else if k == 1 then BAD_OA_LENGTH else if k < 3 + n then BAD_OA
                   else if k == 3 + n then BAD_PID else if k == 4 + n then BAD_DCS
                   else if k < 12 + n then BAD_TIMESTAMP else if k == 12 + n then BAD_UDL else OTHER_UDL)
  {
    hide HexOf, HexText, TpduText, ParseByte, ParseDeliver, AllDigits;
    hide Supported, EncodingOf, DataOctets, AlphabetNumber;
    var t := Printed(m);
    SchemePrinted(m.classed, m.encoding, m.messageClass);
    FirstPrinted(m.indications, m.header.Some?, m.replyPath);
    CodingGroups(t.dcs, t.udl);
    DeliverCut(t, oaLen, k);
    var cut := TpduText(t)[..2 * k];
    ParsePrinted(|m.sca|, HexText(m.sca) + cut);
    assert (HexText(m.sca) + cut)[2 * |m.sca|..] == cut;
  }

  /** Text of another length than announced, and text that ends within the address of the service centre. */
  lemma LengthMustFit(sca: seq<octet>, tpdu: string, tpduLength: nat, oaLen: nat, k: nat)
    requires |sca| < 256
    ensures 2 * tpduLength != |tpdu|
            ==> Parse(HexOf(|sca|) + (HexText(sca) + tpdu), tpduLength, oaLen) == Err(BAD_LENGTH)
    ensures k < 2 * |sca| ==> Parse(HexOf(|sca|) + HexText(sca)[..k], tpduLength, oaLen) == Err(BAD_SCA)
    ensures Parse("", tpduLength, oaLen) == Err(BAD_SCA)
  {
    hide HexOf, HexText, ParseByte, ParseDeliver;
    NothingParsed();
    ParsePrinted(|sca|, HexText(sca) + tpdu);
    if k < 2 * |sca| {
      ParsePrinted(|sca|, HexText(sca)[..k]);
    }
  }

  /** Septets take as many octets as hold their bits: 7 bits each, rounded up. */
  lemma DataOctetsIsCeiling(udl: nat, n: nat)
    ensures DataOctets(0, udl) <= n <==> 7 * udl <= 8 * n
  {
  }

  /**
   User data packed by the 7-bit codec has the length the parser expects just when it is not the
   case that there are septets and their number is a multiple of 8.
   */
  lemma PackedFits(t: seq<Septets.septet>)
    ensures |Septets.Pack(t)| == DataOctets(0, |t|) <==> !(t != [] && |t| % 8 == 0)
  {
    Septets.PackLength(t);
    assert 7 * |t| + 7 == (|t| + 1) * 7;
  }
}
