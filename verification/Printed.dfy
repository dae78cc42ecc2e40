/**
 What the modem sends, written out: one-line responses, those with one more line break in front, the
 prompt for the text of a message, the notice without a line end, responses of many lines, and text that
 is no response; and what the framer makes of any part of each.
 */
module Printed {
  import opened Search
  import opened AtRead
  import opened Classify

  datatype Item =
    | Line(text: string)
    | Extra(text: string)
    | Prompt
    | Notice(text: string)
    | Report(text: string)
    | Noise(text: string)
    | Feed

  /** A text that none of the special branches of the framer applies to. */
  predicate Plain(t: string) {
    && t != "" && '\r' !in t
    && !Starts("+CSSI:", t) && !Starts("> ", t)
    && !Starts("+CMGR:", t) && !Starts("+CNUM:", t) && !Starts("ERROR+CNUM:", t) && !Starts("+CLCC:", t)
  }

  /** A text before which one more line break is sent, and how much of it tells so. */
  function HeaderLength(t: string): nat {
    if Starts("+CSSU:", t) then 6
    else if Starts("+CMS ERROR:", t) then 11
    else if Starts("+CMGS:", t) then 6
    else 0
  }

  predicate ReportText(t: string) {
    Starts("+CMGR:", t) || Starts("+CNUM:", t) || Starts("ERROR+CNUM:", t) || Starts("+CLCC:", t)
  }

  /** What an item may be made of; the end of a response of many lines comes only at its end. */
  ghost predicate Good(i: Item) {
    match i
    case Line(t) => Plain(t)
    case Extra(t) => '\r' !in t && HeaderLength(t) > 0
    case Prompt => true
    case Notice(t) => |t| == 2
    case Report(t) => ReportText(t) && Find(t + ("\r" + OK_TAIL), OK_TAIL) == |t| + 1
    case Noise(t) => t != "" && '\r' !in t && '\n' !in t
    case Feed => true
  }

  /** A response: a line break comes before it. */
  predicate HasBody(i: Item) {
    !i.Noise? && !i.Feed?
  }

  /** What is sent after that line break. */
  function Rest(i: Item): string {
    match i
    case Line(t) => t + CRLF
    case Extra(t) => CRLF + (t + CRLF)
    case Prompt => "> "
    case Notice(t) => "+CSSI:" + t
    case Report(t) => t + ("\r" + OK_TAIL)
    case Noise(t) => t + CRLF
    case Feed => "\n"
  }

  function Printing(i: Item): string {
    if HasBody(i) then CRLF + Rest(i) else Rest(i)
  }

  function Stream(items: seq<Item>): string {
    if items == [] then "" else Printing(items[0]) + Stream(items[1..])
  }

  /** What is to come when the framer waits: before a line break, or in the response after it. */
  function ToCome(body: bool, items: seq<Item>): string
    requires body ==> items != []
  {
    if body then Rest(items[0]) + Stream(items[1..]) else Stream(items)
  }

  /** What is delivered of an item at its end... */
  function FrameOf(i: Item): string {
    match i
    case Prompt => "> "
    case Notice(t) => "+CSSI:" + t
    case Noise(_) => ""
    case Feed => ""
    case _ => i.text + "\r"
  }

  /** ...and what is then to come: the `OK` after a response of many lines is one of its own, but for a message. */
  function Next(i: Item): seq<Item> {
    if i.Report? && !Starts("+CMGR:", i.text) then [Line("OK")] else []
  }

  function ToDeliver(items: seq<Item>): seq<string> {
    if items == [] then []
    else
      (if HasBody(items[0]) then [FrameOf(items[0])] else [])
      + (if items[0].Report? && !Starts("+CMGR:", items[0].text) then ["OK\r"] else [])
      + ToDeliver(items[1..])
  }

  ghost predicate AllGood(items: seq<Item>) {
    forall k :: 0 <= k < |items| ==> Good(items[k])
  }

  predicate HasReport(items: seq<Item>) {
    exists k :: 0 <= k < |items| && items[k].Report?
  }

  /** There is nothing but responses. */
  predicate Tidy(items: seq<Item>) {
    forall k :: 0 <= k < |items| ==> HasBody(items[k])
  }

  /** The length of the longest item, without the line break before it. */
  function Longest(items: seq<Item>): nat {
    if items == [] then 0
    else if |Rest(items[0])| > Longest(items[1..]) then |Rest(items[0])|
    else Longest(items[1..])
  }

  /** How much of a response has to be there before it is delivered. */
  function Needs(i: Item): nat {
    match i
    case Prompt => 2
    case Notice(_) => 8
    case Report(t) => |t| + 8
    case _ => |Rest(i)|
  }

  // ---------- lines ----------

  /** A text without a carriage return that starts an unfinished or finished line starts its text. */
  lemma StartsText(text: string, t: string, tail: string, c: string)
    requires Starts(text, c) && c <= t + (CRLF + tail) && '\r' !in text
    ensures Starts(text, t)
  {
    var line := t + (CRLF + tail);
    assert line[|t|] == '\r' && line[..|t|] == t;
    assert forall i :: 0 <= i < |text| ==> text[i] == line[i];
    if |text| > |t| {
      assert false;
    }
    assert text == line[..|t|][..|text|];
  }

  lemma NotStarted(text: string, t: string, tail: string, c: string)
    requires !Starts(text, t) && c <= t + (CRLF + tail) && '\r' !in text
    ensures !Starts(text, c)
  {
    if Starts(text, c) {
      StartsText(text, t, tail, c);
    }
  }

  lemma PlainStart(t: string, tail: string, c: string)
    requires Plain(t) && c != "" && c <= t + (CRLF + tail)
    ensures !Starts("+CSSI:", c) && !Starts("> ", c) && !Multiline(c) && !ExtraBreak(c)
  {
    assert c[0] == t[0] != '\r';
    NotStarted("+CSSI:", t, tail, c);
    NotStarted("> ", t, tail, c);
    NotStarted("+CMGR:", t, tail, c);
    NotStarted("+CNUM:", t, tail, c);
    NotStarted("ERROR+CNUM:", t, tail, c);
    NotStarted("+CLCC:", t, tail, c);
  }

  /** The line break that ends the line is the first one. */
  lemma FirstBreak(t: string, tail: string, c: string)
    requires '\r' !in t && c <= t + (CRLF + tail)
    ensures Find(c, CRLF) == if |c| < |t| + 2 then -1 else |t|
  {
    var line, r := t + (CRLF + tail), if |c| < |t| + 2 then -1 else |t|;
    assert line[|t|..|t| + 2] == CRLF;
    forall j: nat | OccursAt(c, CRLF, j)
      ensures j >= |t|
    {
      assert c[j] == c[j..j + 2][0] == '\r';
      assert c[j] == line[j];
    }
    if r != -1 {
      assert c[|t|..|t| + 2] == line[|t|..|t| + 2];
    }
    FindIs(c, CRLF, r);
  }

  lemma LineFramed(t: string, tail: string, c: string, room: nat, beyond: string)
    requires Plain(t) && c != "" && c <= t + (CRLF + tail) && |beyond| >= OK_SPAN
    ensures !ExtraBreak(c)
    ensures FrameAt(c, room, beyond) == if |c| < |t| + 2 then -1 else |t| + 1
    ensures |c| >= |t| + 2 ==> Terminator(c) == 1 && c[..|t| + 1] == t + "\r"
  {
    PlainStart(t, tail, c);
    FirstBreak(t, tail, c);
    NotStarted("+CMGR:", t, tail, c);
    if |c| >= |t| + 2 {
      assert (t + (CRLF + tail))[..|t| + 1] == t + "\r";
    }
  }

  // ---------- the prompt and the notice ----------

  lemma PromptFramed(tail: string, c: string, room: nat, beyond: string)
    requires c != "" && c <= "> " + tail && |beyond| >= OK_SPAN
    ensures !ExtraBreak(c)
    ensures FrameAt(c, room, beyond) == if |c| < 2 then -1 else 2
    ensures |c| >= 2 ==> Terminator(c) == 0 && c[..2] == "> "
  {
    assert c[0] == ("> " + tail)[0] == '>';
    if |c| >= 2 {
      assert c[..2] == ("> " + tail)[..2] == "> ";
    }
  }

  lemma NoticeFramed(t: string, tail: string, c: string, room: nat, beyond: string)
    requires |t| == 2 && c != "" && c <= ("+CSSI:" + t) + tail && |beyond| >= OK_SPAN
    ensures !ExtraBreak(c)
    ensures FrameAt(c, room, beyond) == if |c| < 8 then -1 else 8
    ensures |c| >= 8 ==> Terminator(c) == 0 && c[..8] == "+CSSI:" + t
  {
    var all := ("+CSSI:" + t) + tail;
    assert all[..6] == "+CSSI:" && all[..8] == "+CSSI:" + t;
    assert c[0] == all[0] == '+';
    if |c| >= 6 {
      assert c[..6] == all[..6];
    } else {
      assert forall j :: 0 <= j < |c| ==> c[j] == "+CSSI:"[j];
      assert '\r' !in c;
      NoBreak(c);
    }
  }

  lemma NoBreak(c: string)
    requires '\r' !in c
    ensures Find(c, CRLF) == -1
  {
    FindIs(c, CRLF, -1);
    forall j: nat
      ensures !OccursAt(c, CRLF, j)
    {
      if j + 2 <= |c| {
        assert c[j..j + 2][0] == c[j];
      }
    }
  }

  // ---------- responses of many lines ----------

  /** The end of a response is found once all of it is there. */
  lemma EndFound(t: string, tail: string, c: string)
    requires Find(t + ("\r" + OK_TAIL), OK_TAIL) == |t| + 1 && c <= (t + ("\r" + OK_TAIL)) + tail
    ensures Find(c, OK_TAIL) == if |c| < |t| + 8 then -1 else |t| + 1
  {
    var whole, r := t + ("\r" + OK_TAIL), if |c| < |t| + 8 then -1 else |t| + 1;
    var all := whole + tail;
    assert |OK_TAIL| == 7 && |whole| == |t| + 8;
    FindIs(whole, OK_TAIL, |t| + 1);
    forall j: nat | j < |t| + 1
      ensures !OccursAt(c, OK_TAIL, j)
    {
      assert !OccursAt(whole, OK_TAIL, j);
      if j + 7 <= |c| {
        assert c[j..j + 7] == all[j..j + 7] == whole[j..j + 7];
      }
    }
    if r != -1 {
      assert c[r..r + 7] == all[r..r + 7] == whole[r..r + 7] == OK_TAIL;
    }
    FindIs(c, OK_TAIL, r);
  }

  /** Before a header is whole, the framer takes it for a line. */
  lemma HeaderPart(header: string, c: string, room: nat, beyond: string)
    requires header in {"+CMGR:", "+CNUM:", "ERROR+CNUM:", "+CLCC:"}
    requires c != "" && c < header && |beyond| >= OK_SPAN
    ensures FrameAt(c, room, beyond) == -1 && !ExtraBreak(c)
  {
    assert c[0] == header[0];
    assert forall j :: 0 <= j < |c| ==> c[j] == header[j];
    assert '\r' !in header;
    assert '\r' !in c;
    NoBreak(c);
    if |c| >= 6 {
      assert header == "ERROR+CNUM:";
    }
  }

  lemma WholeHeader(header: string, c: string)
    requires header in {"+CMGR:", "+CNUM:", "ERROR+CNUM:", "+CLCC:"} && Starts(header, c)
    ensures !ExtraBreak(c) && !Starts("> ", c) && !Starts("+CSSI:", c)
    ensures Starts("+CMGR:", c) <==> header == "+CMGR:"
  {
    assert c[0] == header[0] && c[2] == header[2];
    assert Starts("+CMGR:", c) ==> c[2] == 'M';
    assert c[3] == header[3];
    assert Starts("+CMGR:", c) ==> c[3] == 'G';
  }

  lemma HeaderOf(t: string) returns (header: string)
    requires ReportText(t)
    ensures header in {"+CMGR:", "+CNUM:", "ERROR+CNUM:", "+CLCC:"} && Starts(header, t)
  {
    header := if Starts("+CMGR:", t) then "+CMGR:" else if Starts("+CNUM:", t) then "+CNUM:"
              else if Starts("ERROR+CNUM:", t) then "ERROR+CNUM:" else "+CLCC:";
  }

  /** A response of many lines is waited for until its end is there, and then delivered with all its lines. */
  lemma ReportFramed(t: string, tail: string, c: string, room: nat, beyond: string)
    requires Good(Report(t)) && c != "" && c <= Rest(Report(t)) + tail
    requires |c| <= room && |beyond| >= OK_SPAN
    ensures !ExtraBreak(c)
    ensures FrameAt(c, room, beyond) == if |c| < |t| + 8 then -1 else |t| + 1
    ensures |c| >= |t| + 8 ==>
              && Terminator(c) == (if Starts("+CMGR:", t) then 7 else 1)
              && c[..|t| + 1] == t + "\r"
  {
    var all := (t + ("\r" + OK_TAIL)) + tail;
    assert all[..|t|] == t && all[..|t| + 1] == t + "\r";
    var header := HeaderOf(t);
    assert header == all[..|header|];
    hide ExtraBreak, Multiline, Find;
    if |c| < |header| {
      assert c == header[..|c|];
      HeaderPart(header, c, room, beyond);
    } else {
      assert Starts(header, c);
      WholeHeader(header, c);
      WholeHeader(header, t);
      ReportSought(c, room, beyond);
      hide FrameAt;
      EndFound(t, tail, c);
    }
  }

  // ---------- from one item to the next ----------

  /** A read that ends here, `n` bytes into what is to come, tears an item: its start is not known for what it is. */
  predicate Torn(body: bool, items: seq<Item>, n: nat) {
    items != [] &&
    var i, front := items[0], if body then 0 else 2;
    var length := if body then |Rest(i)| else |Printing(i)|;
    || (i.Extra? && front + 2 <= n < front + 2 + HeaderLength(i.text))
    || (i.Noise? && n == |i.text| >= 2)
    || (n >= length && Torn(false, items[1..], n - length))
  }

  /** No new kinds of items, and none that is longer. */
  ghost predicate Keeps(items: seq<Item>, later: seq<Item>) {
    (HasReport(later) ==> HasReport(items)) && (Tidy(items) ==> Tidy(later)) && Longest(later) <= Longest(items)
  }

  /** What is torn after `m` more is torn as it is. */
  ghost predicate TornAsWell(body: bool, items: seq<Item>, next: bool, later: seq<Item>, m: nat) {
    forall n: nat :: Torn(next, later, n) ==> Torn(body, items, n + m)
  }

  /** After `head` of what is to come, and the frames `frames`, it goes on with other items. */
  ghost predicate Leads(body: bool, items: seq<Item>, head: string, frames: seq<string>, next: bool, later: seq<Item>) {
    && (body ==> items != []) && (next ==> later != [] && HasBody(later[0])) && AllGood(later)
    && ToCome(body, items) == head + ToCome(next, later)
    && ToDeliver(items) == frames + ToDeliver(later)
    && Keeps(items, later) && TornAsWell(body, items, next, later, |head|)
  }

  lemma WithoutFirst(items: seq<Item>)
    requires AllGood(items) && items != []
    ensures Good(items[0]) && AllGood(items[1..]) && Keeps(items, items[1..])
    ensures items[0].Report? ==> HasReport(items)
  {
    hide Good, Rest;
  }

  /** The first item is replaced by a shorter one. */
  lemma Replaced(items: seq<Item>, i: Item)
    requires AllGood(items) && items != [] && Good(i)
    requires (HasBody(items[0]) ==> HasBody(i)) && !i.Report? && |Rest(i)| <= |Rest(items[0])|
    ensures AllGood([i] + items[1..]) && Keeps(items, [i] + items[1..])
    ensures ([i] + items[1..])[1..] == items[1..]
  {
    hide Good, Rest;
    var later := [i] + items[1..];
    assert later[1..] == items[1..];
    assert forall k :: 1 <= k < |later| ==> later[k] == items[k];
  }

  lemma Opens(items: seq<Item>)
    requires AllGood(items) && items != [] && HasBody(items[0])
    ensures Leads(false, items, CRLF, [], true, items)
  {
    hide Good, Rest, FrameOf, Longest, Tidy, HasReport;
    assert (CRLF + Rest(items[0])) + Stream(items[1..]) == CRLF + (Rest(items[0]) + Stream(items[1..]));
  }

  lemma ExtraLine(t: string)
    requires Good(Extra(t))
    ensures Good(Line(t))
  {
    assert t[0] == '+' && t[2] != 'L' && (t[2] == 'S' ==> t[4] == 'U') && (t[2] == 'M' ==> t[4] != 'R');
  }

  /** The first item, and those behind it. */
  lemma FirstOf(i: Item, tail: seq<Item>)
    ensures var items := [i] + tail;
            && ToCome(true, items) == Rest(i) + Stream(tail) && ToCome(false, items) == Printing(i) + Stream(tail)
            && (!i.Report? ==> ToDeliver(items) == (if HasBody(i) then [FrameOf(i)] else []) + ToDeliver(tail))
  {
    hide Rest, Printing, FrameOf;
    assert ([i] + tail)[1..] == tail;
    if !i.Report? {
      assert (if HasBody(i) then [FrameOf(i)] else []) + [] == if HasBody(i) then [FrameOf(i)] else [];
    }
  }

  lemma TornFirst(body: bool, i: Item, tail: seq<Item>, n: nat)
    ensures var front, length := if body then 0 else 2, if body then |Rest(i)| else |Printing(i)|;
            Torn(body, [i] + tail, n)
            <==> (i.Extra? && front + 2 <= n < front + 2 + HeaderLength(i.text))
                 || (i.Noise? && n == |i.text| >= 2) || (n >= length && Torn(false, tail, n - length))
  {
    hide Rest, Printing, HeaderLength;
    assert ([i] + tail)[1..] == tail;
  }

  lemma ExtraTorn(t: string, tail: seq<Item>)
    ensures TornAsWell(true, [Extra(t)] + tail, true, [Line(t)] + tail, 2)
  {
    hide Torn, HeaderLength;
    forall n: nat | Torn(true, [Line(t)] + tail, n)
      ensures Torn(true, [Extra(t)] + tail, n + 2)
    {
      TornFirst(true, Line(t), tail, n);
      TornFirst(true, Extra(t), tail, n + 2);
    }
  }

  lemma NoiseTorn(t: string, k: nat, tail: seq<Item>)
    requires k < |t|
    ensures TornAsWell(false, [Noise(t)] + tail, false, [Noise(t[k..])] + tail, k)
  {
    hide Torn, HeaderLength;
    forall n: nat | Torn(false, [Noise(t[k..])] + tail, n)
      ensures Torn(false, [Noise(t)] + tail, n + k)
    {
      TornFirst(false, Noise(t[k..]), tail, n);
      TornFirst(false, Noise(t), tail, n + k);
    }
  }

  lemma FeedTorn(t: string, tail: seq<Item>)
    ensures TornAsWell(false, [Noise(t)] + tail, false, [Feed] + tail, |t| + 1)
  {
    hide Torn, HeaderLength;
    forall n: nat | Torn(false, [Feed] + tail, n)
      ensures Torn(false, [Noise(t)] + tail, n + (|t| + 1))
    {
      TornFirst(false, Feed, tail, n);
      TornFirst(false, Noise(t), tail, n + (|t| + 1));
    }
  }

  lemma ExtraOpens(items: seq<Item>)
    requires AllGood(items) && items != [] && items[0].Extra?
    ensures Leads(true, items, CRLF, [], true, [Line(items[0].text)] + items[1..])
  {
    hide Stream, ToDeliver, ToCome, Torn, TornAsWell, Keeps, AllGood, Good;
    var t, tail := items[0].text, items[1..];
    assert items == [Extra(t)] + tail;
    WithoutFirst(items);
    ExtraLine(t);
    Replaced(items, Line(t));
    FirstOf(Extra(t), tail);
    FirstOf(Line(t), tail);
    ExtraTorn(t, tail);
    assert (CRLF + (t + CRLF)) + Stream(tail) == CRLF + ((t + CRLF) + Stream(tail));
  }

  lemma NoiseGoes(items: seq<Item>, k: nat)
    requires AllGood(items) && items != [] && items[0].Noise? && k < |items[0].text|
    ensures Leads(false, items, items[0].text[..k], [], false, [Noise(items[0].text[k..])] + items[1..])
  {
    hide Stream, ToDeliver, ToCome, Torn, TornAsWell, Keeps, AllGood, Good;
    var t, tail := items[0].text, items[1..];
    assert items == [Noise(t)] + tail;
    WithoutFirst(items);
    NoiseShort(t, k);
    Replaced(items, Noise(t[k..]));
    FirstOf(Noise(t), tail);
    FirstOf(Noise(t[k..]), tail);
    NoiseTorn(t, k, tail);
    assert (t + CRLF) + Stream(tail) == t[..k] + ((t[k..] + CRLF) + Stream(tail));
  }

  lemma NoiseShort(t: string, k: nat)
    requires Good(Noise(t)) && k < |t|
    ensures Good(Noise(t[k..]))
  {
  }

  lemma FeedGood()
    ensures Good(Feed)
  {
  }

  lemma NoiseEnds(items: seq<Item>)
    requires AllGood(items) && items != [] && items[0].Noise?
    ensures Leads(false, items, items[0].text + "\r", [], false, [Feed] + items[1..])
  {
    hide Stream, ToDeliver, ToCome, Torn, TornAsWell, Keeps, AllGood, Good;
    var t, tail := items[0].text, items[1..];
    assert items == [Noise(t)] + tail;
    WithoutFirst(items);
    FeedGood();
    Replaced(items, Feed);
    FirstOf(Noise(t), tail);
    FirstOf(Feed, tail);
    FeedTorn(t, tail);
    assert (t + CRLF) + Stream(tail) == (t + "\r") + ("\n" + Stream(tail));
  }

  lemma FeedGoes(items: seq<Item>)
    requires AllGood(items) && items != [] && items[0].Feed?
    ensures Leads(false, items, "\n", [], false, items[1..])
  {
    WithoutFirst(items);
    hide Good, Longest, Tidy, HasReport;
  }

  /** All of a response that is dropped when it is delivered. */
  function AllOf(i: Item): string
    requires HasBody(i) && !i.Extra?
  {
    match i
    case Line(t) => t + CRLF
    case Prompt => "> "
    case Notice(t) => "+CSSI:" + t
    case Report(t) => if Starts("+CMGR:", t) then t + ("\r" + OK_TAIL) else t + CRLF
  }

  lemma OkGood()
    ensures Good(Line("OK"))
  {
    var t := "OK";
    assert t[0] == 'O' && '\r' !in t;
  }

  lemma LastFrames(i: Item, tail: seq<Item>)
    requires HasBody(i) && (i.Report? ==> Starts("+CMGR:", i.text))
    ensures ToDeliver([i] + tail) == [FrameOf(i)] + ToDeliver(tail)
  {
    hide FrameOf, Starts;
    assert ([i] + tail)[1..] == tail && [FrameOf(i)] + [] == [FrameOf(i)];
  }

  lemma LastTorn(i: Item, tail: seq<Item>)
    ensures TornAsWell(true, [i] + tail, false, tail, |Rest(i)|)
  {
    hide Torn, HeaderLength, Rest, Printing;
    forall n: nat | Torn(false, tail, n)
      ensures Torn(true, [i] + tail, n + |Rest(i)|)
    {
      TornFirst(true, i, tail, n + |Rest(i)|);
    }
  }

  lemma DeliversLast(items: seq<Item>)
    requires AllGood(items) && items != [] && HasBody(items[0]) && !items[0].Extra?
    requires items[0].Report? ==> Starts("+CMGR:", items[0].text)
    ensures Leads(true, items, AllOf(items[0]), [FrameOf(items[0])], false, items[1..])
  {
    var i, tail := items[0], items[1..];
    assert AllOf(i) == Rest(i);
    hide Stream, ToDeliver, Torn, TornAsWell, Keeps, AllGood, Good, Rest, AllOf, FrameOf, Starts;
    assert items == [i] + tail;
    WithoutFirst(items);
    LastFrames(i, tail);
    LastTorn(i, tail);
  }

  /** What ends a response of many lines is its last line break, and `OK` as a response of its own. */
  lemma EndIsOk()
    ensures "\r" + OK_TAIL == CRLF + Printing(Line("OK"))
  {
    var end, ok := "\r" + OK_TAIL, CRLF + Printing(Line("OK"));
    assert |end| == |ok| == 8;
    assert forall k :: 0 <= k < 8 ==> end[k] == ok[k];
  }

  lemma ReportToCome(t: string, tail: seq<Item>)
    ensures Rest(Report(t)) + Stream(tail) == (t + CRLF) + Stream([Line("OK")] + tail)
  {
    EndIsOk();
    var ok := Printing(Line("OK"));
    assert ([Line("OK")] + tail)[1..] == tail;
    assert Stream([Line("OK")] + tail) == ok + Stream(tail);
    hide Printing, Stream;
    assert (t + (CRLF + ok)) + Stream(tail) == (t + CRLF) + (ok + Stream(tail));
  }

  lemma ReportFrames(t: string, tail: seq<Item>)
    requires !Starts("+CMGR:", t)
    ensures ToDeliver([Report(t)] + tail) == [t + "\r"] + ToDeliver([Line("OK")] + tail)
  {
    var next := [Line("OK")] + tail;
    assert next[1..] == tail && ([Report(t)] + tail)[1..] == tail;
    assert ToDeliver(next) == ["OK" + "\r"] + ToDeliver(tail);
    assert "OK" + "\r" == "OK\r";
    assert ([t + "\r"] + ["OK\r"]) + ToDeliver(tail) == [t + "\r"] + (["OK\r"] + ToDeliver(tail));
  }

  lemma ReportTorn(t: string, tail: seq<Item>, n: nat)
    requires Torn(false, [Line("OK")] + tail, n)
    ensures Torn(true, [Report(t)] + tail, n + |t| + 2)
  {
    hide Torn, HeaderLength;
    TornFirst(false, Line("OK"), tail, n);
    TornFirst(true, Report(t), tail, n + |t| + 2);
    assert |Printing(Line("OK"))| == 6 && |Rest(Report(t))| == |t| + 8;
  }

  lemma DeliversReport(items: seq<Item>)
    requires AllGood(items) && items != [] && items[0].Report? && !Starts("+CMGR:", items[0].text)
    ensures Leads(true, items, AllOf(items[0]), [FrameOf(items[0])], false, [Line("OK")] + items[1..])
  {
    var t, tail := items[0].text, items[1..];
    var next := [Line("OK")] + tail;
    assert items == [Report(t)] + tail;
    WithoutFirst(items);
    OkGood();
    Replaced(items, Line("OK"));
    ReportToCome(t, tail);
    ReportFrames(t, tail);
    forall n: nat | Torn(false, next, n)
      ensures Torn(true, items, n + |t + CRLF|)
    {
      ReportTorn(t, tail, n);
    }
    hide Good, Torn, Stream, Rest, ToDeliver, HasReport, AllGood, Longest, Tidy;
  }

  lemma Delivers(items: seq<Item>)
    requires AllGood(items) && items != [] && HasBody(items[0]) && !items[0].Extra?
    ensures Leads(true, items, AllOf(items[0]), [FrameOf(items[0])], false, Next(items[0]) + items[1..])
  {
    hide Leads;
    if items[0].Report? && !Starts("+CMGR:", items[0].text) {
      DeliversReport(items);
    } else {
      assert [] + items[1..] == items[1..];
      DeliversLast(items);
    }
  }

  /** What the framer finds at the front of any part of a response and what follows it. */
  lemma ItemFramed(i: Item, tail: string, c: string, room: nat, beyond: string)
    requires Good(i) && HasBody(i) && !i.Extra? && c != "" && c <= Rest(i) + tail
    requires (i.Report? ==> |c| <= room) && |beyond| >= OK_SPAN
    ensures ToSkip(true, c) == 0
    ensures FrameAt(c, room, beyond) == if |c| < Needs(i) then -1 else |FrameOf(i)|
    ensures |c| >= Needs(i) ==>
              && |FrameOf(i)| + Terminator(c) == |AllOf(i)| <= |c|
              && c[..|FrameOf(i)|] == FrameOf(i)
  {
    hide FrameAt, Terminator, ExtraBreak, Multiline, Find, Starts;
    match i
    case Line(t) =>
      assert (t + CRLF) + tail == t + (CRLF + tail);
      LineFramed(t, tail, c, room, beyond);
    case Prompt => PromptFramed(tail, c, room, beyond);
    case Notice(t) => NoticeFramed(t, tail, c, room, beyond);
    case Report(t) => ReportFramed(t, tail, c, room, beyond);
  }
}
