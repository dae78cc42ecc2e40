/**
 A received message on its way through the manager event: printed line by line by manager.c, and
 put together again by shim_manager.c.
 */
module SmsBridge {
  import opened Wrappers
  import opened Search

  const CRLF := "\r\n"
  const LABEL := "MessageLine"

  predicate IsBreak(c: char) {
    c == '\r' || c == '\n'
  }

  // ---------- the printer ----------

  /** The tokens of `strsep` with CR and LF as delimiters. */
  function Tokens(s: string): (r: seq<string>)
    ensures r != []
  {
    if s == "" then [""]
    else
      var rest := Tokens(s[1..]);
      if IsBreak(s[0]) then [""] + rest else [[s[0]] + rest[0]] + rest[1..]
  }

  function NonEmpty(tokens: seq<string>): seq<string> {
    if tokens == [] then []
    else (if tokens[0] == "" then [] else [tokens[0]]) + NonEmpty(tokens[1..])
  }

  function Decimal(n: nat): (s: string)
    ensures forall k :: 0 <= k < |s| ==> '0' <= s[k] <= '9'
    ensures s != ""
  {
    if n < 10 then [('0' as int + n) as char] else Decimal(n / 10) + [('0' as int + n % 10) as char]
  }

  function LineOf(i: nat, token: string): string {
    LABEL + Decimal(i) + ": " + token
  }

  /** The lines printed, numbered from `i` on. */
  function Printed(i: nat, tokens: seq<string>): string
    decreases |tokens|
  {
    if tokens == [] then "" else LineOf(i, tokens[0]) + CRLF + Printed(i + 1, tokens[1..])
  }

  /** What `manager_event_new_sms` sends. */
  function Payload(device: string, sender: string, message: string): string {
    var lines := NonEmpty(Tokens(message));
    ("Device: " + device) + CRLF
    + (("From: " + sender) + CRLF
       + (("LineCount: " + Decimal(|lines|)) + CRLF
          + (Printed(0, lines) + CRLF)))
  }

  // ---------- the parser ----------

  /** The lines of a payload; the text after the last CRLF is one if there is any. */
  function LinesOf(p: string): seq<string>
    decreases |p|
  {
    if p == "" then []
    else
      var k := Find(p, CRLF);
      if k == -1 then [p] else [p[..k]] + LinesOf(p[k + 2..])
  }

  function SkipSpaces(s: string): (r: string)
    ensures |r| <= |s|
  {
    if s != "" && s[0] == ' ' then SkipSpaces(s[1..]) else s
  }

  /** What a line adds to the message: what follows the colon after its head. */
  function ValueOf(line: string): (r: Option<string>)
    ensures r.Some? ==> |r.value| + |LABEL| + 2 <= |line|
  {
    var colon := FindChar(line, ':');
    if colon > |LABEL| && line[..|LABEL|] == LABEL then Some(SkipSpaces(line[colon + 1..])) else None
  }

  /** A newline before what is added, but for the first text there is. */
  function Joined(text: string, value: string): string {
    if text == "" then value else text + "\n" + value
  }

  function WithLine(text: string, line: string): string {
    match ValueOf(line)
    case None => text
    case Some(value) => Joined(text, value)
  }

  function Gathered(text: string, lines: seq<string>): string
    decreases |lines|
  {
    if lines == [] then text else Gathered(WithLine(text, lines[0]), lines[1..])
  }

  /** What `payload_message_lines` makes of a payload. */
  function MessageOf(p: string): string {
    Gathered("", LinesOf(p))
  }

  // ---------- capacity ----------

  function TotalLength(lines: seq<string>): nat {
    if lines == [] then 0 else |lines[0]| + TotalLength(lines[1..])
  }

  lemma {:induction false} LinesFit(p: string)
    ensures TotalLength(LinesOf(p)) <= |p|
    decreases |p|
  {
    if p != "" {
      var k := Find(p, CRLF);
      if k == -1 {
        assert [p][1..] == [];
      } else {
        LinesFit(p[k + 2..]);
        assert ([p[..k]] + LinesOf(p[k + 2..]))[1..] == LinesOf(p[k + 2..]);
      }
    }
  }

  lemma {:induction false} GatheredFits(text: string, lines: seq<string>)
    ensures |Gathered(text, lines)| <= |text| + TotalLength(lines)
    decreases |lines|
  {
    hide ValueOf;
    if lines != [] {
      match ValueOf(lines[0])
      case None => GatheredFits(text, lines[1..]);
      case Some(value) => GatheredFits(Joined(text, value), lines[1..]);
    }
  }

  /** The text, with the NUL behind it, fits into as much memory as the payload takes. */
  lemma MessageFits(p: string)
    ensures |MessageOf(p)| + 1 <= |p| + 1
  {
    LinesFit(p);
    GatheredFits("", LinesOf(p));
  }

  // ---------- round trip ----------

  /** No line break of the payload's kind inside. */
  ghost predicate OneLine(s: string) {
    forall k :: 0 <= k < |s| - 1 ==> !(s[k] == '\r' && s[k + 1] == '\n')
  }

  /** The first line ends at the CRLF behind it. */
  lemma FirstLine(l: string, rest: string)
    requires OneLine(l)
    ensures LinesOf(l + CRLF + rest) == [l] + LinesOf(rest)
  {
    var p := l + CRLF + rest;
    assert IsFirst(p, CRLF, 0, |l|) by {
      assert p[|l|..|l| + 2] == CRLF;
      forall j | 0 <= j < |l|
        ensures !OccursAt(p, CRLF, j)
      {
        if OccursAt(p, CRLF, j) {
          TwoChars(p, j);
        }
      }
    }
    FindIs(p, CRLF, |l|);
    assert p[..|l|] == l && p[|l| + 2..] == rest;
  }

  lemma TwoChars(p: string, j: nat)
    requires OccursAt(p, CRLF, j)
    ensures p[j] == '\r' && p[j + 1] == '\n'
  {
    assert p[j] == p[j..j + 2][0] && p[j + 1] == p[j..j + 2][1];
  }

  ghost predicate NoBreak(s: string) {
    forall k :: 0 <= k < |s| ==> !IsBreak(s[k])
  }

  lemma {:induction false} TokensNoBreak(s: string)
    ensures forall t :: t in Tokens(s) ==> NoBreak(t)
  {
    if s != "" {
      TokensNoBreak(s[1..]);
      var rest := Tokens(s[1..]);
      if !IsBreak(s[0]) {
        var first := [s[0]] + rest[0];
        assert NoBreak(rest[0]) && NoBreak(first);
      }
    }
  }

  lemma {:induction false} NonEmptyFrom(tokens: seq<string>)
    ensures forall t :: t in NonEmpty(tokens) ==> t in tokens && t != ""
  {
    if tokens != [] {
      NonEmptyFrom(tokens[1..]);
    }
  }

  /** A printed line has one CRLF, behind it, and says what it was printed for. */
  lemma LineRead(i: nat, token: string)
    requires NoBreak(token)
    ensures OneLine(LineOf(i, token)) && ValueOf(LineOf(i, token)) == Some(SkipSpaces(token))
  {
    hide ValueOf, SkipSpaces;
    LineValue(i, token);
    var line := LineOf(i, token);
    forall k | 0 <= k < |line| - 1
      ensures !(line[k] == '\r' && line[k + 1] == '\n')
    {
      LineChar(i, token, k);
    }
  }

  /** A line with such a head has the value behind its colon. */
  lemma ValueBehind(number: string, value: string)
    requires number != "" && ':' !in LABEL + number
    ensures ValueOf((LABEL + number) + (":" + value)) == Some(SkipSpaces(value))
  {
    hide SkipSpaces, FindChar;
    var head, tail := LABEL + number, ":" + value;
    FindCharIsFirst(head, ':');
    FindCharParts(head, tail, ':');
    FindCharFirst(tail, ':');
    PartsOf(LABEL, number, value);
  }

  lemma PartsOf(tag: string, number: string, value: string)
    ensures var line := (tag + number) + (":" + value);
            |line| > |tag + number| && line[..|tag|] == tag && line[|tag + number| + 1..] == value
  {
  }

  lemma LineValue(i: nat, token: string)
    ensures ValueOf(LineOf(i, token)) == Some(SkipSpaces(token))
  {
    hide SkipSpaces, FindChar, Decimal, ValueOf;
    var head := LABEL + Decimal(i);
    NoColon(i);
    ValueBehind(Decimal(i), " " + token);
    assert ": " + token == ":" + (" " + token);
    assert LineOf(i, token) == head + (":" + (" " + token));
    OneSpace(token);
  }

  lemma FindCharFirst(s: string, c: char)
    requires s != "" && s[0] == c
    ensures FindChar(s, c) == 0
  {
  }

  lemma OneSpace(token: string)
    ensures SkipSpaces(" " + token) == SkipSpaces(token)
  {
    assert (" " + token)[1..] == token;
  }

  lemma NoColon(i: nat)
    ensures ':' !in LABEL + Decimal(i)
  {
    var head := LABEL + Decimal(i);
    forall k | 0 <= k < |head|
      ensures head[k] != ':'
    {
      if k < |LABEL| {
        assert head[k] == LABEL[k];
      } else {
        assert head[k] == Decimal(i)[k - |LABEL|];
      }
    }
  }

  lemma LineChar(i: nat, token: string, k: nat)
    requires NoBreak(token) && k < |LineOf(i, token)|
    ensures LineOf(i, token)[k] != '\r'
  {
    var line, n := LineOf(i, token), |Decimal(i)|;
    if k < 11 {
      assert line[k] == LABEL[k];
    } else if k < 11 + n {
      assert line[k] == Decimal(i)[k - 11];
    } else if k < 13 + n {
      assert line[k] == ": "[k - 11 - n];
    } else {
      assert line[k] == token[k - 13 - n];
    }
  }

  /** Tokens put together: leading spaces go, a newline goes between, but not before the first text. */
  function Together(text: string, tokens: seq<string>): string
    decreases |tokens|
  {
    if tokens == [] then text else Together(Joined(text, SkipSpaces(tokens[0])), tokens[1..])
  }

  lemma {:induction false} PrintedRead(i: nat, tokens: seq<string>, text: string)
    requires forall t :: t in tokens ==> NoBreak(t)
    ensures Gathered(text, LinesOf(Printed(i, tokens) + CRLF)) == Together(text, tokens)
    decreases |tokens|
  {
    hide ValueOf, SkipSpaces, Joined, LinesOf, LineOf;
    if tokens == [] {
      LastLine();
      assert "" + CRLF == CRLF;
      assert [""][1..] == [];
      EmptyLine();
    } else {
      var line, rest := LineOf(i, tokens[0]), Printed(i + 1, tokens[1..]) + CRLF;
      assert tokens[0] in tokens && forall t :: t in tokens[1..] ==> t in tokens;
      LineRead(i, tokens[0]);
      FirstLine(line, rest);
      assert Printed(i, tokens) + CRLF == line + CRLF + rest;
      assert ([line] + LinesOf(rest))[1..] == LinesOf(rest);
      PrintedRead(i + 1, tokens[1..], Joined(text, SkipSpaces(tokens[0])));
    }
  }

  lemma LastLine()
    ensures LinesOf(CRLF) == [""]
  {
    FirstLine("", "");
    assert "" + CRLF + "" == CRLF;
  }

  lemma EmptyLine()
    ensures ValueOf("") == None
  {
  }

  /** The header lines are not taken for the message, whatever is in them. */
  lemma HeaderIgnored(name: string, value: string, rest: string, text: string)
    requires OneLine(name + value)
    requires name != "" && name[0] != LABEL[0]
    ensures Gathered(text, LinesOf((name + value) + CRLF + rest)) == Gathered(text, LinesOf(rest))
  {
    hide LinesOf, SkipSpaces;
    var line := name + value;
    FirstLine(line, rest);
    assert ([line] + LinesOf(rest))[1..] == LinesOf(rest);
    assert ValueOf(line).None? by {
      if |line| >= |LABEL| && line[..|LABEL|] == LABEL {
        assert line[0] == LABEL[0];
      }
    }
  }

  lemma HeaderOneLine(name: string, value: string)
    requires OneLine(value) && forall k :: 0 <= k < |name| ==> name[k] != '\r'
    ensures OneLine(name + value)
  {
  }

  /**
   Whatever the message is, what comes out is its lines, parted at CR and LF, without the empty ones
   and without leading spaces, joined by newlines.
   */
  lemma MessageComesThrough(device: string, sender: string, message: string)
    requires OneLine(device) && OneLine(sender)
    ensures MessageOf(Payload(device, sender, message)) == Together("", NonEmpty(Tokens(message)))
  {
    hide LinesOf, Gathered, Together, Printed;
    var lines := NonEmpty(Tokens(message));
    var count := Decimal(|lines|);
    var r3 := Printed(0, lines) + CRLF;
    var r2 := ("LineCount: " + count) + CRLF + r3;
    var r1 := ("From: " + sender) + CRLF + r2;
    HeaderOneLine("Device: ", device);
    HeaderOneLine("From: ", sender);
    HeaderOneLine("LineCount: ", count);
    HeaderIgnored("Device: ", device, r1, "");
    HeaderIgnored("From: ", sender, r2, "");
    HeaderIgnored("LineCount: ", count, r3, "");
    TokensNoBreak(message);
    NonEmptyFrom(Tokens(message));
    PrintedRead(0, lines, "");
  }

  // ---------- headers ----------

  /** The first line that is `name`, a colon, and one more character at least. */
  function HeaderIn(lines: seq<string>, name: string): Option<string> {
    if lines == [] then None
    else if |lines[0]| > |name| + 1 && lines[0][..|name|] == name && lines[0][|name|] == ':' then
      Some(SkipSpaces(lines[0][|name| + 1..]))
    else HeaderIn(lines[1..], name)
  }

  /** `payload_header`, for a buffer of `outSize` characters. */
  function Header(p: string, name: string, outSize: nat): Option<string>
    requires outSize > 0
  {
    match HeaderIn(LinesOf(p), name)
    case None => None
    case Some(value) => Some(Cut(value, outSize))
  }

  /** What fits into a buffer beside the NUL. */
  function Cut(value: string, outSize: nat): string
    requires outSize > 0
  {
    if |value| >= outSize then value[..outSize - 1] else value
  }

  lemma HeaderRead(name: string, value: string, rest: seq<string>)
    ensures HeaderIn([name + ": " + value] + rest, name) == Some(SkipSpaces(value))
  {
    hide SkipSpaces;
    var line := name + ": " + value;
    assert line[..|name|] == name && line[|name|] == ':' && line[|name| + 1..] == " " + value;
    OneSpace(value);
  }

  lemma OtherHeader(line: string, rest: seq<string>, name: string)
    requires line != "" && name != "" && line[0] != name[0]
    ensures HeaderIn([line] + rest, name) == HeaderIn(rest, name)
  {
    hide SkipSpaces;
    assert ([line] + rest)[1..] == rest;
    if |line| > |name| + 1 {
      assert line[..|name|][0] == line[0];
    }
  }

  /** Device and sender come through, without leading spaces and as far as the buffers go. */
  lemma HeadersComeThrough(device: string, sender: string, message: string, outSize: nat)
    requires OneLine(device) && OneLine(sender) && outSize > 0
    ensures var p := Payload(device, sender, message);
            && Header(p, "Device", outSize) == Some(Cut(SkipSpaces(device), outSize))
            && Header(p, "From", outSize) == Some(Cut(SkipSpaces(sender), outSize))
  {
    hide LinesOf, HeaderIn, Printed, SkipSpaces;
    var lines := NonEmpty(Tokens(message));
    var r2 := ("LineCount: " + Decimal(|lines|)) + CRLF + (Printed(0, lines) + CRLF);
    var r1 := ("From: " + sender) + CRLF + r2;
    HeaderOneLine("Device: ", device);
    HeaderOneLine("From: ", sender);
    FirstLine("Device: " + device, r1);
    FirstLine("From: " + sender, r2);
    assert "Device" + ": " + device == "Device: " + device && "From" + ": " + sender == "From: " + sender;
    HeaderRead("Device", device, LinesOf(r1));
    OtherHeader("Device: " + device, LinesOf(r1), "From");
    HeaderRead("From", sender, LinesOf(r2));
  }

  /** A header is taken from a line with its name, a colon and at least one character more... */
  lemma HeaderLine(name: string, tail: string, rest: seq<string>)
    ensures HeaderIn([name + ":" + tail] + rest, name)
            == if tail != "" then Some(SkipSpaces(tail)) else HeaderIn(rest, name)
  {
    hide SkipSpaces;
    var line := name + ":" + tail;
    assert line[..|name|] == name && line[|name|] == ':' && line[|name| + 1..] == tail;
    assert ([line] + rest)[1..] == rest;
  }

  /** ...and from no other. */
  lemma NoHeaderLine(line: string, rest: seq<string>, name: string)
    requires !(name + ":" <= line)
    ensures HeaderIn([line] + rest, name) == HeaderIn(rest, name)
  {
    assert ([line] + rest)[1..] == rest;
    assert |line| > |name| ==> line[..|name| + 1] == line[..|name|] + [line[|name|]];
  }

  /** What is copied is as much of a value as leaves room for the NUL. */
  lemma CutFits(value: string, outSize: nat)
    requires outSize > 0
    ensures Cut(value, outSize) <= value
    ensures |Cut(value, outSize)| == if |value| < outSize then |value| else outSize - 1
  {
  }

  // ---------- the texts, written out ----------

  predicate OneText(t: string) {
    forall k :: 0 <= k < |t| ==> t[k] != '\r' && t[k] != '\n'
  }

  /** A message is parted at each CR and at each LF. */
  lemma {:induction false} TokensParted(t: string, sep: char, rest: string)
    requires OneText(t) && (sep == '\r' || sep == '\n')
    ensures Tokens(t) == [t] && Tokens(t + [sep] + rest) == [t] + Tokens(rest)
  {
    if t == "" {
      assert (t + [sep] + rest)[1..] == rest;
    } else {
      TokensParted(t[1..], sep, rest);
      assert (t + [sep] + rest)[1..] == t[1..] + [sep] + rest;
      assert t == [t[0]] + t[1..];
    }
  }

  lemma {:induction false} NonEmptyIs(t: string, tokens: seq<string>)
    ensures NonEmpty([t] + tokens) == (if t == "" then [] else [t]) + NonEmpty(tokens)
  {
    assert ([t] + tokens)[1..] == tokens;
  }

  lemma {:induction false} SpacesSkipped(spaces: string, t: string)
    requires (forall k :: 0 <= k < |spaces| ==> spaces[k] == ' ') && (t == "" || t[0] != ' ')
    ensures SkipSpaces(spaces + t) == t
  {
    if spaces == "" {
      assert spaces + t == t;
    } else {
      assert (spaces + t)[1..] == spaces[1..] + t;
      SpacesSkipped(spaces[1..], t);
    }
  }

  /** Texts behind others, each after a newline. */
  function Below(texts: seq<string>): string {
    if texts == [] then "" else "\n" + texts[0] + Below(texts[1..])
  }

  /** Texts below each other, from the first one that is not empty on. */
  function Column(texts: seq<string>): string {
    if texts == [] then "" else if texts[0] == "" then Column(texts[1..]) else texts[0] + Below(texts[1..])
  }

  lemma {:induction false} TogetherBelow(text: string, tokens: seq<string>, texts: seq<string>)
    requires |tokens| == |texts| && forall k :: 0 <= k < |tokens| ==> SkipSpaces(tokens[k]) == texts[k]
    ensures Together(text, tokens) == if text == "" then Column(texts) else text + Below(texts)
    decreases |tokens|
  {
    hide SkipSpaces;
    if tokens == [] {
      assert text + "" == text;
    } else {
      TogetherBelow(Joined(text, texts[0]), tokens[1..], texts[1..]);
      if text != "" {
        assert (text + "\n" + texts[0]) + Below(texts[1..]) == text + ("\n" + texts[0] + Below(texts[1..]));
      }
    }
  }

  /**
   The message that comes out, written out: the texts that were parted by line breaks, each without its leading
   spaces, below each other.
   */
  lemma MessageIsColumn(device: string, sender: string, message: string, texts: seq<string>)
    requires OneLine(device) && OneLine(sender)
    requires var tokens := NonEmpty(Tokens(message));
             |tokens| == |texts| && forall k :: 0 <= k < |tokens| ==> SkipSpaces(tokens[k]) == texts[k]
    ensures MessageOf(Payload(device, sender, message)) == Column(texts)
  {
    hide MessageOf, Payload, Together, SkipSpaces;
    MessageComesThrough(device, sender, message);
    TogetherBelow("", NonEmpty(Tokens(message)), texts);
  }

  lemma {:induction false} FoundBy(s: string, c: char, j: nat)
    requires j < |s| && s[j] == c
    ensures 0 <= FindChar(s, c) <= j
  {
    if s[0] != c {
      FoundBy(s[1..], c, j - 1);
    }
  }

  /** Only lines that start with the label, have something after it and then a colon are of the message. */
  lemma OtherLines(line: string)
    requires !(LABEL <= line) || ':' !in line || LABEL + ":" <= line
    ensures ValueOf(line) == None
  {
    hide SkipSpaces, FindChar;
    FindCharIsFirst(line, ':');
    var colon := FindChar(line, ':');
    if LABEL + ":" <= line {
      assert line[|LABEL|] == (LABEL + ":")[|LABEL|] == ':';
      FoundBy(line, ':', |LABEL|);
    }
  }

  // ---------- the parser itself ----------

  /** Writes `data` at offset `used`, and NUL behind it. */
  method Put(buf: array<char>, used: nat, data: string)
    requires used + |data| < buf.Length
    modifies buf
    ensures buf[..used + |data|] == old(buf[..used]) + data && buf[used + |data|] == 0 as char
  {
    forall k | 0 <= k < |data| {
      buf[used + k] := data[k];
    }
    buf[used + |data|] := 0 as char;
  }

  /** `payload_message_lines`: the buffer is as long as the payload and its NUL. */
  method MessageLines(p: string) returns (result: array<char>, used: nat)
    ensures fresh(result) && result.Length == |p| + 1 && used <= |p|
    ensures result[..used] == MessageOf(p) && result[used] == 0 as char
  {
    hide LinesOf, Gathered, ValueOf, Find, Joined;
    result := new char[|p| + 1];
    used := 0;
    result[0] := 0 as char;
    var line := 0;
    ghost var text := "";
    assert p[0..] == p;
    while line < |p|
      invariant line <= |p| && used == |text| <= line
      invariant result[..used] == text && result[used] == 0 as char
      invariant Gathered(text, LinesOf(p[line..])) == MessageOf(p)
    {
      var end := Find(p[line..], CRLF);
      var lineLen := if end == -1 then |p| - line else end;
      var value := ValueOf(p[line..line + lineLen]);
      NextPiece(p, line, text);
      if value.Some? {
        var added := (if used > 0 then "\n" else "") + value.value;
        JoinedAdds(text, value.value);
        Put(result, used, added);
        used := used + |added|;
        text := text + added;
      }
      line := if end == -1 then |p| else line + end + 2;
    }
    NoLines(text);
    assert p[line..] == "";
  }

  /** The line at `line`, and where the next one begins. */
  lemma NextPiece(p: string, line: nat, text: string)
    requires line < |p|
    ensures var end := Find(p[line..], CRLF);
            var lineLen, next := (if end == -1 then |p| - line else end), (if end == -1 then |p| else line + end + 2);
            && line + lineLen <= next <= |p|
            && Gathered(text, LinesOf(p[line..]))
               == Gathered(WithLine(text, p[line..line + lineLen]), LinesOf(p[next..]))
  {
    hide LinesOf, Gathered, ValueOf, Find, Joined;
    var rest, end := p[line..], Find(p[line..], CRLF);
    NextLine(rest, text);
    if end == -1 {
      assert p[|p|..] == "";
      assert p[line..|p|] == rest;
    } else {
      DropTwice(p, line, end + 2);
      assert p[line..line + end] == rest[..end];
    }
  }

  lemma JoinedAdds(text: string, value: string)
    ensures Joined(text, value) == text + ((if |text| > 0 then "\n" else "") + value)
  {
  }

  lemma NoLines(text: string)
    ensures Gathered(text, LinesOf("")) == text
  {
  }

  lemma NextLine(p: string, text: string)
    requires p != ""
    ensures var end := Find(p, CRLF);
            var line, rest := (if end == -1 then p else p[..end]), (if end == -1 then "" else p[end + 2..]);
            Gathered(text, LinesOf(p))
            == Gathered(WithLine(text, line), LinesOf(rest))
  {
    hide ValueOf;
    var end := Find(p, CRLF);
    var line, rest := (if end == -1 then p else p[..end]), (if end == -1 then "" else p[end + 2..]);
    assert LinesOf(p) == [line] + LinesOf(rest);
    assert ([line] + LinesOf(rest))[1..] == LinesOf(rest);
  }
}
