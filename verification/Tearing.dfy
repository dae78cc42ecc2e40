/**
 What becomes of a response when a read ends within the bytes that tell what it is: it is lost.
 */
module Tearing {
  import opened Search
  import opened AtRead
  import opened Classify
  import opened Monitor
  import opened Printed
  import opened Streaming

  /** A line break in a response that has just begun is delivered as a line of its own. */
  lemma BareBreak(c: string, size: nat, read: nat, beyond: string)
    requires Starts(CRLF, c) && !ExtraBreak(c) && |c| <= size && read < size && |beyond| >= OK_SPAN
    ensures var d := Drained(true, c, size, read, beyond);
            && |c| >= 2
            && var e := Drained(false, c[2..], size, ReadAfter(size, read, 2, |c| - 2), beyond);
            Frames(d.pieces) == ["\r"] + Frames(e.pieces) && d.body == e.body && d.left == e.left
  {
    hide Scanned, Drained, Terminator, Frames, ReadAfter, FrameAt, Starts, ExtraBreak;
    BareBreakScanned(c, size, read, beyond);
    DrainRound(true, c, size, read, beyond);
    assert c[0..] == c;
  }

  lemma BareBreakScanned(c: string, size: nat, read: nat, beyond: string)
    requires Starts(CRLF, c) && !ExtraBreak(c) && |c| <= size && read < size && |beyond| >= OK_SPAN
    ensures Scanned(true, c, size, read, beyond) == Scan(false, 0, 1) && Terminator(c) == 1
    ensures |c| >= 2 && c[..1] == "\r"
  {
    hide Scanned, ExtraBreak;
    assert c[0] == '\r' && c[0..2] == CRLF;
    assert ToSkip(true, c) == 0;
    assert FrameAt(c, size - read, beyond) == 1;
    ScannedReady(true, c, size, read, beyond);
  }

  /** Before the header is whole, the framer does not know it. */
  lemma HeaderNotSeen(t: string, c: string)
    requires HeaderLength(t) > 0 && '\r' !in t && 2 <= |c| < 2 + HeaderLength(t) && c <= CRLF + (t + CRLF)
    ensures Starts(CRLF, c) && c[2..] == t[..|c| - 2] && !ExtraBreak(c)
  {
    var all, n := CRLF + (t + CRLF), |c| - 2;
    assert |t| >= HeaderLength(t);
    assert all[..2 + n] == CRLF + t[..n] && c == all[..2 + n];
    assert c[2..] == t[..n];
    assert forall k :: 0 <= k < n ==> c[2 + k] == t[k];
    assert HeaderLength(t) == 11 ==> t[..11] == "+CMS ERROR:" && t[1] == 'C' && t[2] == 'M' && t[3] == 'S';
    assert HeaderLength(t) == 6 || HeaderLength(t) == 11;
  }

  /** Text without an end of line is skipped, but for a single character. */
  lemma TextSkipped(c: string, size: nat, read: nat, beyond: string)
    requires '\r' !in c && '\n' !in c && |c| <= size && read < size && |beyond| >= OK_SPAN
    ensures var d := Drained(false, c, size, read, beyond);
            Frames(d.pieces) == [] && !d.body && d.left == if |c| < 2 then |c| else 0
  {
    hide Drained, Frames, ReadAfter, Scanned;
    if |c| < 2 {
      SkipsNothing(c);
      ScannedReady(false, c, size, read, beyond);
      DrainRound(false, c, size, read, beyond);
    } else {
      assert c[0] != '\r' && c[0] != '\n';
      NoChar(c, '\r');
      DrainSkip(false, c, size, read, beyond);
      assert c[|c|..] == "";
      var read' := ReadAfter(size, read, |c|, 0);
      SkipsNothing("");
      ScannedReady(false, "", size, read', beyond);
      DrainRound(false, "", size, read', beyond);
    }
  }

  /**
   A read that ends within the header of a response with one more line break in front: an empty line is delivered
   in its place, and what is still to come of it is taken for text that is no response.
   */
  lemma TornExtra(t: string, tail: seq<Item>, c: string, size: nat, read: nat, beyond: string)
    requires Good(Extra(t)) && '\n' !in t && 2 <= |c| < 2 + HeaderLength(t) && c <= ToCome(true, [Extra(t)] + tail)
    requires |c| <= size && read < size && |beyond| >= OK_SPAN
    ensures var d := Drained(true, c, size, read, beyond);
            && Frames(d.pieces) == ["\r"] && !d.body && d.left <= |c| - 2
            && ToCome(true, [Extra(t)] + tail)
               == c[..|c| - d.left] + Stream([Noise(t[|c| - 2 - d.left..])] + tail)
  {
    hide Drained, Frames, Stream, ExtraBreak;
    var whole := CRLF + (t + CRLF);
    FirstOf(Extra(t), tail);
    HeaderFits(t);
    ShortPrefix(c, whole, Stream(tail));
    HeaderNotSeen(t, c);
    hide HeaderLength, Good;
    TornDrained(t, c, size, read, beyond);
    var d := Drained(true, c, size, read, beyond);
    var n := |c| - 2 - d.left;
    FirstOf(Noise(t[n..]), tail);
    assert c == CRLF + t[..|c| - 2] by { assert c[..2] == CRLF; }
    TornText(t, n, Stream(tail), c, d.left);
  }

  lemma HeaderFits(t: string)
    ensures HeaderLength(t) <= |t|
  {
  }

  lemma ShortPrefix(c: string, whole: string, tail: string)
    requires c <= whole + tail && |c| <= |whole|
    ensures c <= whole
  {
    assert (whole + tail)[..|c|] == whole[..|c|];
  }

  lemma TornDrained(t: string, c: string, size: nat, read: nat, beyond: string)
    requires '\r' !in t && '\n' !in t && Starts(CRLF, c) && |c| - 2 <= |t| && c[2..] == t[..|c| - 2] && !ExtraBreak(c)
    requires |c| <= size && read < size && |beyond| >= OK_SPAN
    ensures var d := Drained(true, c, size, read, beyond);
            Frames(d.pieces) == ["\r"] && !d.body && d.left <= |c| - 2
  {
    hide Drained, Frames, ExtraBreak, ReadAfter;
    BareBreak(c, size, read, beyond);
    var read' := ReadAfter(size, read, 2, |c| - 2);
    assert forall k :: 0 <= k < |c| - 2 ==> c[2..][k] == t[k];
    TextSkipped(c[2..], size, read', beyond);
    assert ["\r"] + [] == ["\r"];
  }

  lemma TornText(t: string, n: nat, tail: string, c: string, left: nat)
    requires |c| >= 2 && left <= |c| - 2 <= |t| && n == |c| - 2 - left && c == CRLF + t[..|c| - 2]
    ensures (CRLF + (t + CRLF)) + tail == c[..|c| - left] + ((t[n..] + CRLF) + tail)
  {
    assert c[..|c| - left] == CRLF + t[..n];
    assert t == t[..n] + t[n..];
  }

  /**
   One such response that arrives in two reads is delivered just when the first read does not end within its header,
   the second line break counted in.
   */
  lemma DeliveredIffUntorn(t: string, k: nat, size: nat, read: nat, read2: nat, beyond: string)
    requires Good(Extra(t)) && '\n' !in t && k <= |Printing(Extra(t))| <= size && |beyond| >= OK_SPAN
    requires read < size && read2 < size
    ensures var all := Printing(Extra(t));
            var d := Drained(false, all[..k], size, read, beyond);
            var e := Drained(d.body, all[k - d.left..], size, read2, beyond);
            Frames(d.pieces) + Frames(e.pieces) == [t + "\r"] <==> !(4 <= k < 4 + HeaderLength(t))
  {
    var items, all := [Extra(t)], Printing(Extra(t));
    FirstOf(Extra(t), []);
    assert items + [] == items;
    TornFirst(false, Extra(t), [], k);
    assert Stream(items) == all by { assert all + "" == all; }
    if 4 <= k < 4 + HeaderLength(t) {
      TornHere(t, k, size, read, beyond);
    } else {
      UntornDelivered(t, k, size, read, read2, beyond);
    }
  }

  lemma TornHere(t: string, k: nat, size: nat, read: nat, beyond: string)
    requires Good(Extra(t)) && '\n' !in t && 4 <= k < 4 + HeaderLength(t) && |Printing(Extra(t))| <= size
    requires read < size && |beyond| >= OK_SPAN
    ensures k <= |Printing(Extra(t))|
    ensures Frames(Drained(false, Printing(Extra(t))[..k], size, read, beyond).pieces) == ["\r"] != [t + "\r"]
  {
    hide Drained, Frames, HeaderLength, ReadAfter, ToSkip, ExtraBreak;
    HeaderFits(t);
    var c := Printing(Extra(t))[..k];
    CutInHeader(t, k);
    HeaderNotSeen(t, c[2..]);
    DrainSkip(false, c, size, read, beyond);
    TornDrained(t, c[2..], size, ReadAfter(size, read, 2, k - 2), beyond);
    assert |t + "\r"| > |"\r"|;
  }

  lemma CutInHeader(t: string, k: nat)
    requires 4 <= k <= 4 + |t|
    ensures k <= |Printing(Extra(t))|
    ensures var c := Printing(Extra(t))[..k];
            Starts(CRLF, c) && ToSkip(false, c) == 2 && c[2..] <= CRLF + (t + CRLF) && |c[2..]| == k - 2
  {
    var c := Printing(Extra(t))[..k];
    assert c[..2] == CRLF && c[2..] == (CRLF + (t + CRLF))[..k - 2];
  }

  lemma UntornDelivered(t: string, k: nat, size: nat, read: nat, read2: nat, beyond: string)
    requires Good(Extra(t)) && k <= |Printing(Extra(t))| <= size && !(4 <= k < 4 + HeaderLength(t))
    requires read < size && read2 < size && |beyond| >= OK_SPAN
    ensures var all := Printing(Extra(t));
            var d := Drained(false, all[..k], size, read, beyond);
            var e := Drained(d.body, all[k - d.left..], size, read2, beyond);
            Frames(d.pieces) + Frames(e.pieces) == [t + "\r"]
  {
    hide Drained, Frames, Stream, ToDeliver, AllGood, HasReport, Torn, HeaderLength, Good;
    HeaderFits(t);
    OneExtra(t, k);
    OneExtra(t, |Printing(Extra(t))|);
    TwoReads([Extra(t)], k, size, read, read2, beyond);
  }

  /** What is printed and arrives in two reads, neither of which tears anything, is delivered. */
  lemma TwoReads(items: seq<Item>, k: nat, size: nat, read: nat, read2: nat, beyond: string)
    requires AllGood(items) && !HasReport(items) && k <= |Stream(items)| <= size
    requires !Torn(false, items, k) && !Torn(false, items, |Stream(items)|)
    requires read < size && read2 < size && |beyond| >= OK_SPAN
    ensures var all := Stream(items);
            var d := Drained(false, all[..k], size, read, beyond);
            var e := Drained(d.body, all[k - d.left..], size, read2, beyond);
            Frames(d.pieces) + Frames(e.pieces) == ToDeliver(items)
  {
    hide Drained, Torn, Frames, OnTrack, Stream, ToDeliver, AllGood, HasReport;
    var all := Stream(items);
    StartsSo(all, items);
    assert "" + all[0..k] == all[..k];
    var later := Progress(all, items, 0, k, false, [], "", items, size, read, beyond);
    var d := Drained(false, all[..k], size, read, beyond);
    assert [] + Frames(d.pieces) == Frames(d.pieces);
    var kept := all[..k][k - d.left..];
    Pieces(all, k, d.left);
    var more := Progress(all, items, k, |all| - k, d.body, Frames(d.pieces), kept, later, size, read2, beyond);
    var e := Drained(d.body, all[k - d.left..], size, read2, beyond);
    Finish(all, items, e.body, Frames(d.pieces) + Frames(e.pieces), all[k - d.left..][|all| - (k - d.left) - e.left..],
           more);
  }

  lemma Pieces(all: string, k: nat, left: nat)
    requires left <= k <= |all|
    ensures |all[..k][k - left..]| == left && all[..k][k - left..] + all[k..k + (|all| - k)] == all[k - left..]
  {
    assert all[k..k + (|all| - k)] == all[k..];
  }

  lemma OneExtra(t: string, k: nat)
    requires Good(Extra(t)) && !(4 <= k < 4 + HeaderLength(t)) && k <= |Printing(Extra(t))|
    ensures var items := [Extra(t)];
            && AllGood(items) && !HasReport(items) && Stream(items) == Printing(Extra(t))
            && ToDeliver(items) == [t + "\r"] && !Torn(false, items, k)
  {
    var items := [Extra(t)];
    assert items + [] == items;
    FirstOf(Extra(t), []);
    TornFirst(false, Extra(t), [], k);
    assert Printing(Extra(t)) + "" == Printing(Extra(t)) && [t + "\r"] + [] == [t + "\r"];
  }

  lemma StartsSo(all: string, items: seq<Item>)
    requires AllGood(items) && Stream(items) == all
    ensures OnTrack(all, items, 0, false, [], "", items)
  {
    LeadsNowhere(false, items);
    assert all[..0] == "" && "" + all[0..] == all;
    hide Leads, Stream;
  }

  /**
   A read that ends right before the line break after text that is no response: the text goes, and the line break is
   taken for the one before the next response, in place of which an empty line is delivered.
   */
  lemma TornNoise(t: string, b: string, tail: seq<Item>, c: string, size: nat, read: nat, read2: nat, beyond: string)
    requires Good(Noise(t)) && |t| >= 2 && Good(Line(b)) && HeaderLength(b) == 0
    requires |c| >= 4 && t + c <= Stream([Noise(t), Line(b)] + tail)
    requires |t| <= size && |c| <= size && read < size && read2 < size && |beyond| >= OK_SPAN
    ensures var d, e := Drained(false, t, size, read, beyond), Drained(false, c, size, read2, beyond);
            && Frames(d.pieces) == [] && !d.body && d.left == 0
            && Frames(e.pieces) != [] && Frames(e.pieces)[0] == "\r"
  {
    TextSkipped(t, size, read, beyond);
    BreaksBefore(t, b, tail, c);
    hide Drained, Frames, ReadAfter, ExtraBreak;
    assert ToSkip(false, c) == 2;
    DrainSkip(false, c, size, read2, beyond);
    BareBreak(c[2..], size, ReadAfter(size, read2, 2, |c| - 2), beyond);
  }

  lemma BreaksBefore(t: string, b: string, tail: seq<Item>, c: string)
    requires Plain(b) && HeaderLength(b) == 0 && |c| >= 4 && t + c <= Stream([Noise(t), Line(b)] + tail)
    ensures Starts(CRLF, c) && Starts(CRLF, c[2..]) && !ExtraBreak(c[2..])
  {
    hide Stream, ExtraBreak, HeaderLength, Plain;
    var rest := CRLF + ((CRLF + (b + CRLF)) + Stream(tail));
    NoiseThenLine(t, b, tail);
    assert c <= rest by { assert (t + c)[|t|..] == c && (t + rest)[|t|..] == rest; }
    TwoBreaks(b, Stream(tail), c);
    NoHeader(b, Stream(tail), c[2..]);
  }

  lemma TwoBreaks(b: string, tail: string, c: string)
    requires c <= CRLF + ((CRLF + (b + CRLF)) + tail) && |c| >= 4
    ensures Starts(CRLF, c) && Starts(CRLF, c[2..]) && c[2..] <= CRLF + (b + (CRLF + tail))
  {
    var rest := CRLF + ((CRLF + (b + CRLF)) + tail);
    assert rest[..2] == CRLF && rest[2..] == CRLF + (b + (CRLF + tail));
    assert c[..2] == rest[..2] && c[2..] <= rest[2..];
    assert c[2..][..2] == rest[2..][..2];
  }

  lemma NoHeader(b: string, tail: string, c: string)
    requires Plain(b) && HeaderLength(b) == 0 && c <= CRLF + (b + (CRLF + tail))
    ensures !ExtraBreak(c)
  {
    NotHeader("+CSSU:", b, tail, c);
    NotHeader("+CMS ERROR:", b, tail, c);
    NotHeader("+CMGS:", b, tail, c);
    assert CRLF + "+CSSU:" == "\r\n+CSSU:" && CRLF + "+CMS ERROR:" == "\r\n+CMS ERROR:";
    assert CRLF + "+CMGS:" == "\r\n+CMGS:";
  }

  lemma NotHeader(header: string, b: string, tail: string, c: string)
    requires '\r' !in header && !Starts(header, b) && c <= CRLF + (b + (CRLF + tail))
    ensures !Starts(CRLF + header, c)
  {
    if Starts(CRLF + header, c) {
      var all := CRLF + (b + (CRLF + tail));
      assert c[2..] <= b + (CRLF + tail) by { assert all[2..] == b + (CRLF + tail); }
      assert Starts(header, c[2..]) by { assert c[..2 + |header|][2..] == header; }
      StartsText(header, b, tail, c[2..]);
    }
  }

  lemma NoiseThenLine(t: string, b: string, tail: seq<Item>)
    ensures Stream([Noise(t), Line(b)] + tail) == t + (CRLF + ((CRLF + (b + CRLF)) + Stream(tail)))
  {
    hide Stream;
    assert [Noise(t), Line(b)] + tail == [Noise(t)] + ([Line(b)] + tail);
    NoiseThen(t, [Line(b)] + tail);
    FirstOf(Line(b), tail);
  }

  lemma NoiseThen(t: string, rest: seq<Item>)
    ensures Stream([Noise(t)] + rest) == t + (CRLF + Stream(rest))
  {
    hide Stream;
    FirstOf(Noise(t), rest);
    assert (t + CRLF) + Stream(rest) == t + (CRLF + Stream(rest));
  }
}
