/**
 What the read loop delivers when the modem sends responses as they are printed: one frame for each, with
 all its lines, in order, however the bytes are cut into reads, as long as no read tears one whose first bytes
 decide what it is; and, unless there are responses of many lines, wherever they wrap in the ring.
 */
module Streaming {
  import opened Search
  import opened RingCells
  import opened RingBuffer
  import opened AtRead
  import opened Classify
  import opened Monitor
  import opened Printed

  /** No more than an unfinished part of a response is kept. */
  predicate Unfinished(body: bool, items: seq<Item>, left: nat) {
    if body then items != [] && left < |Rest(items[0])| else left <= 1
  }

  /** Dropping before a frame changes nothing of what is delivered or kept. */
  lemma DrainSkip(body: bool, c: string, size: nat, read: nat, beyond: string)
    requires |c| <= size && read < size && |beyond| >= OK_SPAN && ToSkip(body, c) > 0
    ensures var n := ToSkip(body, c);
            var d := Drained(body, c, size, read, beyond);
            var e := Drained(body || Starts(CRLF, c), c[n..], size, ReadAfter(size, read, n, |c| - n), beyond);
            Frames(d.pieces) == Frames(e.pieces) && d.body == e.body && d.left == e.left
  {
    hide Scanned, ToSkip, Drained, Terminator, Frames, ReadAfter, Starts;
    var n := ToSkip(body, c);
    var body', read' := body || Starts(CRLF, c), ReadAfter(size, read, n, |c| - n);
    ScannedSkip(body, c, size, read, beyond);
    DrainRound(body, c, size, read, beyond);
    DrainRound(body', c[n..], size, read', beyond);
    var s := Scanned(body', c[n..], size, read', beyond);
    DropTwice(c, n, s.dropped);
    if s.frame != -1 {
      var left := c[n + s.dropped..];
      var m := s.frame + Terminator(left);
      ReadAfterTwice(size, read, n, s.dropped + m, |left| - m);
    }
  }

  /** One round, as far as what is delivered and kept goes. */
  lemma DrainRound(body: bool, c: string, size: nat, read: nat, beyond: string)
    requires |c| <= size && read < size && |beyond| >= OK_SPAN
    ensures var s, d := Scanned(body, c, size, read, beyond), Drained(body, c, size, read, beyond);
            if s.frame == -1 then Frames(d.pieces) == [] && d.body == s.body && d.left == |c| - s.dropped
            else
              var left, m := c[s.dropped..], s.frame + Terminator(c[s.dropped..]);
              && 0 < s.frame <= m <= |left|
              && var e := Drained(false, left[m..], size, ReadAfter(size, read, s.dropped + m, |left| - m), beyond);
                 Frames(d.pieces) == [left[..s.frame]] + Frames(e.pieces) && d.body == e.body && d.left == e.left
  {
    hide Scanned, Drained, Terminator, Frames, ReadAfter;
    DrainStep(body, c, size, read, beyond);
    var s := Scanned(body, c, size, read, beyond);
    if s.frame == -1 {
      FramesOfNone(c[..s.dropped]);
    } else {
      var left := c[s.dropped..];
      var m := s.frame + Terminator(left);
      var e := Drained(false, left[m..], size, ReadAfter(size, read, s.dropped + m, |left| - m), beyond);
      FramesOfThree(c[..s.dropped], left[..s.frame], left[s.frame..m], e.pieces);
    }
  }

  /** Responses of many lines lie before the wrap of the ring. */
  ghost predicate Straight(items: seq<Item>, c: string, size: nat, read: nat) {
    HasReport(items) ==> read + |c| <= size
  }

  /** From `c` the frames of the items before `later` were delivered, and an unfinished part is kept. */
  ghost predicate Reaches(body: bool, items: seq<Item>, c: string, d: Drain, later: seq<Item>) {
    && d.left <= |c| && Unfinished(d.body, later, d.left)
    && Leads(body, items, c[..|c| - d.left], Frames(d.pieces), d.body, later)
  }

  lemma LeadsNowhere(body: bool, items: seq<Item>)
    requires AllGood(items) && (body ==> items != [] && HasBody(items[0]))
    ensures Leads(body, items, "", [], body, items)
  {
    hide Good, Rest, FrameOf;
  }

  lemma LeadsOn(a: bool, items: seq<Item>, head: string, frames: seq<string>, b: bool, between: seq<Item>,
                head2: string, frames2: seq<string>, next: bool, later: seq<Item>)
    requires Leads(a, items, head, frames, b, between) && Leads(b, between, head2, frames2, next, later)
    ensures Leads(a, items, head + head2, frames + frames2, next, later)
  {
    hide Torn, ToCome, ToDeliver, AllGood, HasReport, Tidy, Longest;
    assert (head + head2) + ToCome(next, later) == head + (head2 + ToCome(next, later));
    assert (frames + frames2) + ToDeliver(later) == frames + (frames2 + ToDeliver(later));
    TornThrough(a, items, b, between, next, later, |head|, |head2|);
  }

  lemma TornThrough(a: bool, items: seq<Item>, b: bool, between: seq<Item>, next: bool, later: seq<Item>,
                    m: nat, m2: nat)
    requires TornAsWell(a, items, b, between, m) && TornAsWell(b, between, next, later, m2)
    ensures TornAsWell(a, items, next, later, m + m2)
  {
    hide Torn;
    forall n: nat | Torn(next, later, n)
      ensures Torn(a, items, n + (m + m2))
    {
      assert Torn(b, between, n + m2);
    }
  }

  /** What is left of the content is at the front of what is still to come. */
  lemma FrontLeft(whole: string, head: string, rest: string, c: string)
    requires whole == head + rest && c <= whole && |head| <= |c|
    ensures c[..|head|] == head && c[|head|..] <= rest
  {
    assert whole[..|head|] == head;
  }

  /** A step to other items, and what is reached from there. */
  lemma Onward(body: bool, items: seq<Item>, head: string, frames: seq<string>, next: bool, between: seq<Item>,
               c: string, d: Drain, e: Drain, later: seq<Item>)
    requires Leads(body, items, head, frames, next, between) && (body ==> items != [])
    requires c <= ToCome(body, items) && |head| <= |c|
    requires Reaches(next, between, c[|head|..], e, later)
    requires Frames(d.pieces) == frames + Frames(e.pieces) && d.body == e.body && d.left == e.left
    ensures Reaches(body, items, c, d, later)
  {
    hide Leads, Frames, ToCome, Unfinished;
    LeadsParts(body, items, head, frames, next, between);
    FrontLeft(ToCome(body, items), head, ToCome(next, between), c);
    var k := |c| - |head| - e.left;
    assert |c[|head|..]| == |c| - |head|;
    assert c[..|c| - d.left] == head + c[|head|..][..k];
    LeadsOn(body, items, head, frames, next, between, c[|head|..][..k], Frames(e.pieces), e.body, later);
  }

  lemma LeadsParts(body: bool, items: seq<Item>, head: string, frames: seq<string>, next: bool, between: seq<Item>)
    requires Leads(body, items, head, frames, next, between)
    ensures (body ==> items != []) && (next ==> between != [] && HasBody(between[0])) && AllGood(between)
    ensures ToCome(body, items) == head + ToCome(next, between)
    ensures HasReport(between) ==> HasReport(items)
  {
  }

  lemma Waits(body: bool, items: seq<Item>, c: string, d: Drain)
    requires AllGood(items) && (body ==> items != [] && HasBody(items[0]))
    requires d == Drain([Discarded(c[..0])], body, |c|) && Unfinished(body, items, |c|)
    ensures Reaches(body, items, c, d, items)
  {
    hide Leads, Unfinished;
    LeadsNowhere(body, items);
    FramesOfNone(c[..0]);
  }

  lemma StillStraight(items: seq<Item>, between: seq<Item>, c: string, m: nat, size: nat, read: nat)
    requires Straight(items, c, size, read) && (HasReport(between) ==> HasReport(items))
    requires 0 < m <= |c| <= size && read < size
    ensures Straight(between, c[m..], size, ReadAfter(size, read, m, |c| - m))
  {
    hide HasReport;
  }

  // ---------- what the framer skips ----------

  /** The line break before a response. */
  lemma SkipsBreak(items: seq<Item>, c: string)
    requires AllGood(items) && c <= ToCome(false, items) && |c| >= 2 && HasBody(items[0])
    requires items != []
    ensures ToSkip(false, c) == 2 && Starts(CRLF, c)
  {
    hide Rest;
    assert c[..2] == Stream(items)[..2] == CRLF;
  }

  /** The one more line break before some of them, once the first bytes say which it is. */
  lemma SkipsExtra(t: string, tail: string, c: string)
    requires HeaderLength(t) > 0 && c <= (CRLF + (t + CRLF)) + tail && |c| >= 2 + HeaderLength(t)
    ensures ToSkip(true, c) == 2 && !Starts(CRLF, c[2..])
  {
    var all, h := (CRLF + (t + CRLF)) + tail, HeaderLength(t);
    assert all[..2 + h] == CRLF + t[..h];
    assert c[..2 + h] == all[..2 + h];
    assert c[0] == '\r' && c[2] == t[0] == '+';
    var header := t[..h];
    assert header == "+CSSU:" || header == "+CMS ERROR:" || header == "+CMGS:";
    assert CRLF + "+CSSU:" == "\r\n+CSSU:" && CRLF + "+CMS ERROR:" == "\r\n+CMS ERROR:";
    assert CRLF + "+CMGS:" == "\r\n+CMGS:";
  }

  lemma WaitsForExtra(t: string, tail: string, c: string, room: nat, beyond: string)
    requires c <= (CRLF + (t + CRLF)) + tail && |c| < 2 && |beyond| >= OK_SPAN
    ensures ToSkip(true, c) == 0 && (c != "" ==> FrameAt(c, room, beyond) == -1)
  {
    if c != "" {
      assert c[0] == '\r';
      FindIs(c, CRLF, -1);
    }
  }

  /** Text that is no response goes up to its carriage return, and the line feed after it. */
  lemma SkipsNoise(t: string, tail: string, c: string)
    requires Good(Noise(t)) && c <= (t + CRLF) + tail && |c| >= 2 && |c| != |t|
    ensures ToSkip(false, c) == if |c| < |t| then |c| else |t| + 1
    ensures !Starts(CRLF, c)
  {
    var all := (t + CRLF) + tail;
    assert c[0] == t[0];
    if |c| < |t| {
      assert c == t[..|c|];
      NoChar(c, '\r');
    } else {
      assert all[..|t|] == t && all[|t|] == '\r';
      assert c == t + c[|t|..] && c[|t|..][0] == '\r';
      FindCharParts(t, c[|t|..], '\r');
      NoChar(t, '\r');
    }
  }

  lemma NoChar(c: string, x: char)
    requires x !in c
    ensures FindChar(c, x) == -1
  {
    FindCharIsFirst(c, x);
  }

  lemma SkipsFeed(tail: string, c: string)
    requires c <= "\n" + tail && |c| >= 2
    ensures ToSkip(false, c) == 1 && !Starts(CRLF, c)
  {
    assert c[0] == '\n' && c[..1] == "\n";
  }

  lemma SkipsNothing(c: string)
    requires |c| < 2
    ensures ToSkip(false, c) == 0
  {
  }

  // ---------- one round of the inner loop ----------

  /** What the framer skips, if there is enough to say what it is. */
  lemma NextSkip(items: seq<Item>, body: bool, c: string) returns (head: string, next: bool, between: seq<Item>)
    requires AllGood(items) && items != [] && c <= ToCome(body, items) && |c| >= 2 && !Torn(body, items, |c|)
    requires body ==> items[0].Extra?
    ensures Leads(body, items, head, [], next, between)
    ensures 0 < |head| == ToSkip(body, c) <= |c| && next == (body || Starts(CRLF, c))
  {
    hide Leads, ToSkip, Starts, Good, AllGood;
    var i, tail := items[0], Stream(items[1..]);
    GoodIs(items);
    if body {
      head, next, between := CRLF, true, [Line(i.text)] + items[1..];
      SkipsExtra(i.text, tail, c);
      ExtraOpens(items);
    } else if HasBody(i) {
      head, next, between := CRLF, true, items;
      SkipsBreak(items, c);
      Opens(items);
    } else if i.Feed? {
      head, next, between := "\n", false, items[1..];
      SkipsFeed(tail, c);
      FeedGoes(items);
    } else {
      SkipsNoise(i.text, tail, c);
      if |c| < |i.text| {
        head, next, between := i.text[..|c|], false, [Noise(i.text[|c|..])] + items[1..];
        NoiseGoes(items, |c|);
      } else {
        head, next, between := i.text + "\r", false, [Feed] + items[1..];
        NoiseEnds(items);
      }
    }
  }

  lemma GoodIs(items: seq<Item>)
    requires AllGood(items) && items != []
    ensures Good(items[0]) && (items[0].Extra? ==> HeaderLength(items[0].text) > 0)
  {
  }

  /** There is not enough yet to deliver or to skip anything. */
  predicate NotEnough(items: seq<Item>, body: bool, c: string)
    requires body ==> items != []
  {
    if !body || items[0].Extra? then |c| < 2 else |c| < Needs(items[0])
  }

  lemma WaitScanned(items: seq<Item>, body: bool, c: string, size: nat, read: nat, beyond: string)
    requires AllGood(items) && (body ==> items != [] && HasBody(items[0])) && c <= ToCome(body, items)
    requires |c| <= size && read < size && |beyond| >= OK_SPAN && Straight(items, c, size, read)
    requires NotEnough(items, body, c)
    ensures Scanned(body, c, size, read, beyond) == Scan(body, 0, -1) && Unfinished(body, items, |c|)
  {
    hide Scanned, FrameAt, ToSkip, Good, AllGood;
    if !body {
      SkipsNothing(c);
    } else {
      GoodIs(items);
      if items[0].Extra? {
        WaitsForExtra(items[0].text, Stream(items[1..]), c, size - read, beyond);
      } else {
        NoneToSkip();
        if c != "" {
          assert items[0].Report? ==> HasReport(items);
          ItemFramed(items[0], Stream(items[1..]), c, size - read, beyond);
        }
      }
    }
    ScannedReady(body, c, size, read, beyond);
  }

  lemma NoneToSkip()
    ensures ToSkip(true, "") == 0
  {
  }

  lemma DeliverScanned(items: seq<Item>, c: string, size: nat, read: nat, beyond: string)
    requires AllGood(items) && items != [] && HasBody(items[0]) && !items[0].Extra? && c <= ToCome(true, items)
    requires |c| <= size && read < size && |beyond| >= OK_SPAN && Straight(items, c, size, read)
    requires !NotEnough(items, true, c)
    ensures var i := items[0];
            && Scanned(true, c, size, read, beyond) == Scan(false, 0, |FrameOf(i)|)
            && |FrameOf(i)| + Terminator(c) == |AllOf(i)| <= |c| && c[..|FrameOf(i)|] == FrameOf(i)
            && 0 < |AllOf(i)|
  {
    hide Scanned, FrameAt, ToSkip, Good, AllGood, Terminator;
    GoodIs(items);
    assert items[0].Report? ==> HasReport(items);
    ItemFramed(items[0], Stream(items[1..]), c, size - read, beyond);
    ScannedReady(true, c, size, read, beyond);
  }

  lemma NotTornOn(body: bool, items: seq<Item>, head: string, frames: seq<string>, next: bool, between: seq<Item>,
               n: nat)
    requires Leads(body, items, head, frames, next, between) && !Torn(body, items, n) && |head| <= n
    ensures !Torn(next, between, n - |head|)
  {
    hide Torn;
  }

  /**
   One round of the inner loop over any part of what the modem prints, if it does not end within what tells an item:
   the next frames are delivered, each in one piece, and an unfinished part of what is then to come is kept.
   */
  lemma {:induction false} DrainStream(items: seq<Item>, body: bool, c: string, size: nat, read: nat,
                                       beyond: string) returns (later: seq<Item>)
    requires AllGood(items) && (body ==> items != [] && HasBody(items[0])) && c <= ToCome(body, items)
    requires |c| <= size && read < size && |beyond| >= OK_SPAN && Straight(items, c, size, read)
    requires !Torn(body, items, |c|)
    ensures Reaches(body, items, c, Drained(body, c, size, read, beyond), later)
    decreases |c|
  {
    hide Scanned, Drained, ToSkip, Terminator, Frames, ReadAfter, Reaches, Leads, Torn, Straight, AllGood, ToCome;
    hide Unfinished, Needs, FrameOf, AllOf, Starts;
    var d := Drained(body, c, size, read, beyond);
    if NotEnough(items, body, c) {
      later := items;
      WaitScanned(items, body, c, size, read, beyond);
      DrainStep(body, c, size, read, beyond);
      Waits(body, items, c, d);
    } else if !body || items[0].Extra? {
      NothingComes(body, items, c);
      var head, next, between := NextSkip(items, body, c);
      LeadsParts(body, items, head, [], next, between);
      FrontLeft(ToCome(body, items), head, ToCome(next, between), c);
      NotTornOn(body, items, head, [], next, between, |c|);
      StillStraight(items, between, c, |head|, size, read);
      DrainSkip(body, c, size, read, beyond);
      var read' := ReadAfter(size, read, |head|, |c| - |head|);
      later := DrainStream(between, next, c[|head|..], size, read', beyond);
      var e := Drained(next, c[|head|..], size, read', beyond);
      assert [] + Frames(e.pieces) == Frames(e.pieces);
      Onward(body, items, head, [], next, between, c, d, e, later);
    } else {
      var i, between := items[0], Next(items[0]) + items[1..];
      var head, frame := AllOf(i), FrameOf(i);
      DeliverScanned(items, c, size, read, beyond);
      Delivers(items);
      LeadsParts(true, items, head, [frame], false, between);
      FrontLeft(ToCome(true, items), head, ToCome(false, between), c);
      NotTornOn(true, items, head, [frame], false, between, |c|);
      StillStraight(items, between, c, |head|, size, read);
      assert c[0..] == c;
      DrainRound(true, c, size, read, beyond);
      var read' := ReadAfter(size, read, |head|, |c| - |head|);
      later := DrainStream(between, false, c[|head|..], size, read', beyond);
      Onward(true, items, head, [frame], false, between, c, d, Drained(false, c[|head|..], size, read', beyond), later);
    }
  }

  lemma NothingComes(body: bool, items: seq<Item>, c: string)
    requires (body ==> items != []) && c <= ToCome(body, items) && |c| >= 2
    ensures items != []
  {
  }

  // ---------- the read loop ----------

  /** What was discarded, framed and kept so far is what was read so far, in order; each frame is before its end. */
  ghost predicate Conserves(pieces: seq<Piece>, delivered: seq<string>, kept: string, arrived: string) {
    delivered == Frames(pieces) && Framed(pieces) && Texts(pieces) + kept == arrived
  }

  lemma {:induction false} PiecesConcat(a: seq<Piece>, b: seq<Piece>)
    ensures Texts(a + b) == Texts(a) + Texts(b) && Frames(a + b) == Frames(a) + Frames(b)
  {
    if a == [] {
      assert a + b == b;
    } else {
      assert a == [a[0]] + a[1..] && a + b == [a[0]] + (a[1..] + b);
      PiecesConcat(a[1..], b);
      TextsOf(a[0], a[1..]);
      TextsOf(a[0], a[1..] + b);
      FramesOf(a[0], a[1..]);
      FramesOf(a[0], a[1..] + b);
    }
  }

  lemma FramedConcat(a: seq<Piece>, b: seq<Piece>)
    requires Framed(a) && Framed(b)
    ensures Framed(a + b)
  {
    hide Ends;
    forall k | 0 <= k < |a + b| && (a + b)[k].Frame?
      ensures (a + b)[k].text != "" && k + 1 < |a + b| && (a + b)[k + 1].End?
      ensures Ends((a + b)[k].text, (a + b)[k + 1].text)
    {
      if k < |a| {
        assert a[k].Frame?;
      } else {
        assert b[k - |a|].Frame?;
      }
    }
  }

  /** One read of anything and one round of the inner loop conserve it. */
  lemma ReadConserves(pieces: seq<Piece>, delivered: seq<string>, kept: string, arrived: string, portion: string,
                      body: bool, size: nat, read: nat, beyond: string)
    requires Conserves(pieces, delivered, kept, arrived)
    requires |kept + portion| <= size && read < size && |beyond| >= OK_SPAN
    ensures var c := kept + portion;
            var d := Drained(body, c, size, read, beyond);
            Conserves(pieces + d.pieces, delivered + Frames(d.pieces), c[|c| - d.left..], arrived + portion)
  {
    hide Drained, Texts, Frames, Framed;
    var c := kept + portion;
    var d := Drained(body, c, size, read, beyond);
    DrainConserves(body, c, size, read, beyond);
    DrainFrames(body, c, size, read, beyond);
    PiecesConcat(pieces, d.pieces);
    FramedConcat(pieces, d.pieces);
    Associates(Texts(pieces), Texts(d.pieces), c[|c| - d.left..]);
    Associates(Texts(pieces), kept, portion);
  }

  lemma Associates(a: string, b: string, c: string)
    ensures (a + b) + c == a + (b + c)
  {
  }

  lemma NothingRead()
    ensures Conserves([], [], "", "")
  {
  }

  lemma Arrives(stream: string, taken: nat, n: nat)
    requires taken + n <= |stream|
    ensures var portion := stream[taken..taken + n];
            stream[taken..] == portion + stream[taken + n..] && stream[..taken + n] == stream[..taken] + portion
  {
  }

  /** The stream is made of such items, and the ring holds each of them; those of many lines do not wrap. */
  ghost predicate Ordinary(stream: string, items: seq<Item>, size: nat, read: nat) {
    && stream == Stream(items) && AllGood(items) && 2 <= size && Longest(items) <= size
    && (HasReport(items) ==> read + |stream| <= size)
  }

  /** What was delivered is what was printed so far; what is kept and what is still to arrive go on from there. */
  ghost predicate OnTrack(stream: string, items: seq<Item>, taken: nat, body: bool, delivered: seq<string>,
                          kept: string, later: seq<Item>)
  {
    && |kept| <= taken <= |stream| && Unfinished(body, later, |kept|)
    && Leads(false, items, stream[..taken - |kept|], delivered, body, later)
    && kept + stream[taken..] == ToCome(body, later)
  }

  lemma Start(stream: string, items: seq<Item>, size: nat, read: nat)
    requires Ordinary(stream, items, size, read)
    ensures OnTrack(stream, items, 0, false, [], "", items)
  {
    LeadsNowhere(false, items);
    assert stream[..0] == "" && "" + stream[0..] == stream;
    hide Leads, Stream;
  }

  lemma ShorterFits(items: seq<Item>, later: seq<Item>)
    requires Keeps(items, later) && later != []
    ensures |Rest(later[0])| <= Longest(items)
  {
    hide Rest, HasReport, Tidy;
  }

  /** An unfinished item leaves room in the ring. */
  lemma RoomLeft(stream: string, items: seq<Item>, taken: nat, body: bool, delivered: seq<string>, kept: string,
                 later: seq<Item>, size: nat, read: nat)
    requires OnTrack(stream, items, taken, body, delivered, kept, later) && Ordinary(stream, items, size, read)
    ensures |kept| < size
  {
    if body {
      ShorterFits(items, later);
    }
  }

  /** What is kept and a portion that arrives. */
  lemma Joined(stream: string, taken: nat, n: nat, kept: string, whole: string)
    requires taken + n <= |stream| && kept + stream[taken..] == whole
    ensures var c := kept + stream[taken..taken + n]; c <= whole && c + stream[taken + n..] == whole
  {
    assert stream[taken..] == stream[taken..taken + n] + stream[taken + n..];
  }

  /** What was dealt with after a portion arrived. */
  lemma Consumed(stream: string, taken: nat, n: nat, kept: string, left: nat)
    requires |kept| <= taken && taken + n <= |stream| && left <= |kept| + n
    requires stream == stream[..taken - |kept|] + (kept + stream[taken..])
    ensures var c := kept + stream[taken..taken + n];
            && stream[..taken + n - left] == stream[..taken - |kept|] + c[..|c| - left]
            && stream[taken + n - left..taken + n] == c[|c| - left..]
  {
    assert stream[taken - |kept|..] == kept + stream[taken..];
    assert stream[taken - |kept|..taken] == kept;
    var c := kept + stream[taken..taken + n];
    assert c == stream[taken - |kept|..taken + n];
  }

  lemma TrackParts(stream: string, items: seq<Item>, taken: nat, body: bool, delivered: seq<string>, kept: string,
                   later: seq<Item>)
    requires OnTrack(stream, items, taken, body, delivered, kept, later) && stream == Stream(items)
    ensures |kept| <= taken <= |stream| && (body ==> later != [] && HasBody(later[0])) && AllGood(later)
    ensures Leads(false, items, stream[..taken - |kept|], delivered, body, later)
    ensures kept + stream[taken..] == ToCome(body, later)
    ensures stream == stream[..taken - |kept|] + (kept + stream[taken..])
    ensures HasReport(later) ==> HasReport(items)
    ensures forall n: nat :: Torn(body, later, n) ==> Torn(false, items, n + (taken - |kept|))
  {
    hide Torn, Stream, HasReport, Tidy, Longest, Unfinished, AllGood;
    assert |stream[..taken - |kept|]| == taken - |kept|;
    assert ToCome(false, items) == Stream(items);
  }

  /** One read that tears nothing, and one round of the inner loop, keep on track. */
  lemma Progress(stream: string, items: seq<Item>, taken: nat, n: nat, body: bool, delivered: seq<string>,
                 kept: string, later: seq<Item>, size: nat, read: nat, beyond: string) returns (next: seq<Item>)
    requires OnTrack(stream, items, taken, body, delivered, kept, later) && taken + n <= |stream|
    requires stream == Stream(items) && !Torn(false, items, taken + n)
    requires |kept| + n <= size && read < size && |beyond| >= OK_SPAN
    requires HasReport(items) ==> read + |kept| + n <= size
    ensures var c := kept + stream[taken..taken + n];
            var d := Drained(body, c, size, read, beyond);
            OnTrack(stream, items, taken + n, d.body, delivered + Frames(d.pieces), c[|c| - d.left..], next)
  {
    hide Drained, Torn, Frames, Leads, AllGood, ToCome, OnTrack, Stream, HasReport, Unfinished;
    TrackParts(stream, items, taken, body, delivered, kept, later);
    var c := kept + stream[taken..taken + n];
    Joined(stream, taken, n, kept, ToCome(body, later));
    assert !Torn(body, later, |c|);
    next := DrainStream(later, body, c, size, read, beyond);
    var d := Drained(body, c, size, read, beyond);
    Consumed(stream, taken, n, kept, d.left);
    Further(stream, items, taken, n, body, delivered, kept, later, c, d, next);
  }

  lemma Further(stream: string, items: seq<Item>, taken: nat, n: nat, body: bool, delivered: seq<string>,
                kept: string, later: seq<Item>, c: string, d: Drain, next: seq<Item>)
    requires |kept| <= taken && taken + n <= |stream| && c == kept + stream[taken..taken + n]
    requires Leads(false, items, stream[..taken - |kept|], delivered, body, later) && (body ==> later != [])
    requires Reaches(body, later, c, d, next) && c + stream[taken + n..] == ToCome(body, later)
    requires stream[..taken + n - d.left] == stream[..taken - |kept|] + c[..|c| - d.left]
    ensures OnTrack(stream, items, taken + n, d.body, delivered + Frames(d.pieces), c[|c| - d.left..], next)
  {
    hide Leads, Frames, Unfinished, ToCome;
    var gone := c[..|c| - d.left];
    LeadsOn(false, items, stream[..taken - |kept|], delivered, body, later, gone, Frames(d.pieces), d.body, next);
    LeadsParts(body, later, gone, Frames(d.pieces), d.body, next);
    assert c + stream[taken + n..] == gone + (c[|c| - d.left..] + stream[taken + n..]);
    SameRest(gone, c[|c| - d.left..] + stream[taken + n..], ToCome(d.body, next));
  }

  lemma SameRest(a: string, b: string, c: string)
    requires a + b == a + c
    ensures b == c
  {
    assert b == (a + b)[|a|..] && c == (a + c)[|a|..];
  }

  /** With nothing more to arrive, all frames were delivered, and a line feed at most is kept. */
  lemma Finish(stream: string, items: seq<Item>, body: bool, delivered: seq<string>, kept: string, later: seq<Item>)
    requires OnTrack(stream, items, |stream|, body, delivered, kept, later)
    ensures delivered == ToDeliver(items) && (kept == "" || kept == "\n") && (Tidy(items) ==> kept == "")
  {
    hide Torn, HasReport, Longest, Good, HeaderLength, AllGood, Stream, ToDeliver, Tidy;
    assert kept + stream[|stream|..] == kept;
    assert !body;
    LastLeft(later);
    assert delivered + [] == delivered;
  }

  lemma LastLeft(later: seq<Item>)
    requires AllGood(later) && |Stream(later)| <= 1
    ensures ToDeliver(later) == []
    ensures later == [] || (Stream(later) == "\n" && !Tidy(later))
    ensures later == [] ==> Stream(later) == ""
  {
    if later != [] {
      PrintingLength(later[0]);
      assert later[0].Feed?;
      EmptyStream(later[1..]);
    }
  }

  lemma PrintingLength(i: Item)
    requires i.Noise? ==> i.text != ""
    ensures |Printing(i)| >= 1 && (|Printing(i)| == 1 ==> i.Feed?)
  {
    hide OK_TAIL;
  }

  lemma EmptyStream(items: seq<Item>)
    requires Stream(items) == "" && AllGood(items)
    ensures items == []
  {
    if items != [] {
      PrintingLength(items[0]);
    }
  }

  function EndBefore(ends: seq<nat>, k: nat): nat
    requires k <= |ends|
  {
    if k == 0 then 0 else ends[k - 1]
  }

  /** Where the reads ended: each takes no more than it was given, and the last one ends at `taken`. */
  ghost predicate ReadEnds(ends: seq<nat>, cuts: seq<nat>, taken: nat) {
    && |ends| <= |cuts| && taken == EndBefore(ends, |ends|)
    && forall k :: 0 <= k < |ends| ==> EndBefore(ends, k) <= ends[k] <= EndBefore(ends, k) + cuts[k]
  }

  /** No read ended within what tells an item. */
  ghost predicate Untorn(items: seq<Item>, ends: seq<nat>) {
    forall k :: 0 <= k < |ends| ==> !Torn(false, items, ends[k])
  }

  /** Items that cannot be torn: no line break more in front, and no text that is no response. */
  predicate Seamless(items: seq<Item>) {
    forall k :: 0 <= k < |items| ==> !items[k].Extra? && !items[k].Noise?
  }

  lemma {:induction false} SeamlessUntorn(items: seq<Item>, n: nat)
    requires Seamless(items)
    ensures !Torn(false, items, n)
    decreases |items|
  {
    hide Printing, HeaderLength;
    if items != [] && n >= |Printing(items[0])| {
      SeamlessUntorn(items[1..], n - |Printing(items[0])|);
    }
  }

  lemma AllSeamless(items: seq<Item>, ends: seq<nat>)
    ensures Seamless(items) ==> Untorn(items, ends)
  {
    hide Seamless, Torn;
    if Seamless(items) {
      forall k | 0 <= k < |ends|
        ensures !Torn(false, items, ends[k])
      {
        SeamlessUntorn(items, ends[k]);
      }
    }
  }

  lemma OneMoreEnd(ends: seq<nat>, cuts: seq<nat>, taken: nat, n: nat, items: seq<Item>)
    requires ReadEnds(ends, cuts, taken) && |ends| < |cuts| && n <= cuts[|ends|]
    ensures ReadEnds(ends + [taken + n], cuts, taken + n)
    ensures Untorn(items, ends + [taken + n]) ==> Untorn(items, ends) && !Torn(false, items, taken + n)
  {
    hide Torn;
    var more := ends + [taken + n];
    forall k | 0 <= k < |more|
      ensures EndBefore(more, k) <= more[k] <= EndBefore(more, k) + cuts[k]
    {
      assert EndBefore(more, k) == EndBefore(ends, k);
      if k < |ends| {
        assert more[k] == ends[k];
      }
    }
    if Untorn(items, more) {
      assert !Torn(false, items, more[|ends|]);
      assert forall k :: 0 <= k < |ends| ==> ends[k] == more[k];
    }
  }

  lemma Prefix(stream: string, items: seq<Item>, taken: nat, body: bool, delivered: seq<string>, kept: string,
               later: seq<Item>)
    requires OnTrack(stream, items, taken, body, delivered, kept, later)
    ensures delivered <= ToDeliver(items)
  {
    hide Torn, HasReport, Tidy, Longest, AllGood, ToCome, ToDeliver;
    assert (delivered + ToDeliver(later))[..|delivered|] == delivered;
  }

  /** What is to be true of the read loop: all is well so far, or the stream is not as it should be. */
  ghost predicate Tracks(stream: string, items: seq<Item>, taken: nat, body: bool, delivered: seq<string>,
                         kept: string, later: seq<Item>, ends: seq<nat>, size: nat, read: nat)
  {
    Ordinary(stream, items, size, read) && Untorn(items, ends) ==>
      OnTrack(stream, items, taken, body, delivered, kept, later)
  }

  lemma TracksStart(stream: string, items: seq<Item>, size: nat, read: nat)
    ensures Tracks(stream, items, 0, false, [], "", items, [], size, read)
  {
    hide OnTrack, Ordinary, Untorn;
    if Ordinary(stream, items, size, read) {
      Start(stream, items, size, read);
    }
  }

  lemma TracksOn(stream: string, items: seq<Item>, taken: nat, n: nat, body: bool, delivered: seq<string>,
                 kept: string, later: seq<Item>, ends: seq<nat>, size: nat, start: nat, read: nat, beyond: string,
                 cuts: seq<nat>) returns (next: seq<Item>)
    requires Tracks(stream, items, taken, body, delivered, kept, later, ends, size, start)
    requires ReadEnds(ends, cuts, taken) && |ends| < |cuts| && n <= cuts[|ends|] && taken + n <= |stream|
    requires |kept| + n <= size && read < size && |beyond| >= OK_SPAN
    requires start + |stream| <= size ==> read + |kept| + (|stream| - taken) <= size
    ensures var c := kept + stream[taken..taken + n];
            var d := Drained(body, c, size, read, beyond);
            Tracks(stream, items, taken + n, d.body, delivered + Frames(d.pieces), c[|c| - d.left..], next,
                   ends + [taken + n], size, start)
  {
    hide Drained, Frames, OnTrack, Untorn, Stream, HasReport, AllGood, Longest, ReadEnds, Torn;
    OneMoreEnd(ends, cuts, taken, n, items);
    next := [];
    if Ordinary(stream, items, size, start) && Untorn(items, ends + [taken + n]) {
      next := Progress(stream, items, taken, n, body, delivered, kept, later, size, read, beyond);
    }
  }

  lemma TracksRoom(stream: string, items: seq<Item>, taken: nat, body: bool, delivered: seq<string>, kept: string,
                   later: seq<Item>, ends: seq<nat>, size: nat, read: nat)
    requires Tracks(stream, items, taken, body, delivered, kept, later, ends, size, read)
    ensures Ordinary(stream, items, size, read) && Untorn(items, ends) ==> |kept| < size
  {
    hide OnTrack, Ordinary, Untorn;
    if Ordinary(stream, items, size, read) && Untorn(items, ends) {
      RoomLeft(stream, items, taken, body, delivered, kept, later, size, read);
    }
  }

  /** All frames were delivered, in order, and nothing is kept but a line feed after text that is no response. */
  ghost predicate DeliveredAll(items: seq<Item>, delivered: seq<string>, kept: string) {
    delivered == ToDeliver(items) && (kept == "" || kept == "\n") && (Tidy(items) ==> kept == "")
  }

  lemma TracksEnd(stream: string, items: seq<Item>, taken: nat, body: bool, delivered: seq<string>, kept: string,
                  later: seq<Item>, ends: seq<nat>, size: nat, read: nat)
    requires Tracks(stream, items, taken, body, delivered, kept, later, ends, size, read)
    ensures Ordinary(stream, items, size, read) && Untorn(items, ends) ==>
              && delivered <= ToDeliver(items)
              && (taken == |stream| ==> DeliveredAll(items, delivered, kept))
  {
    hide OnTrack, Ordinary, Untorn, Tidy, ToDeliver;
    if Ordinary(stream, items, size, read) && Untorn(items, ends) {
      Prefix(stream, items, taken, body, delivered, kept, later);
      if taken == |stream| {
        Finish(stream, items, body, delivered, kept, later);
      }
    }
  }

  /** A ring that is not read across its end. */
  lemma NotWrapped(size: nat, read: nat, left: nat, gone: nat, later: nat)
    requires read < size && gone + left <= size
    ensures read + (gone + left) + later <= size ==> ReadAfter(size, read, gone, left) + left + later <= size
  {
  }

  /** `at_read` of at most `most` bytes of what is to arrive, and the inner loop over what is then in the ring. */
  method ReadOnce(rb: RingBuffer<char>, stream: string, taken: nat, most: nat, readResult: bool, beyond: string)
    returns (n: nat, body: bool, frames: seq<string>)
    requires rb.Valid() && rb.size > 0 && taken <= |stream| && |beyond| >= OK_SPAN
    modifies rb, rb.buffer
    ensures rb.Valid() && taken + n <= |stream| && n <= most && old(|rb.Content()|) + n <= rb.size
    ensures var c := old(rb.Content()) + stream[taken..taken + n];
            var d := Drained(readResult, c, rb.size, old(rb.read), beyond);
            body == d.body && frames == Frames(d.pieces) && rb.Content() == c[|c| - d.left..]
    ensures old(rb.read + rb.used) + (|stream| - taken) <= rb.size ==>
              rb.read + rb.used + (|stream| - taken - n) <= rb.size
  {
    hide Drained, Frames, ReadAfter;
    ghost var kept, read := rb.Content(), rb.read;
    n := if rb.Free() < most then rb.Free() else most;
    n := if |stream| - taken < n then |stream| - taken else n;
    rb.Receive(stream[taken..taken + n]);
    body, frames := DrainRing(rb, readResult, beyond);
    NotWrapped(rb.size, read, rb.used, |kept| + n - rb.used, |stream| - taken - n);
  }

  /**
   The read loop over any stream, which arrives in portions of at most `cuts[0]`, `cuts[1]`, ... bytes: what is
   discarded, framed and kept is what arrived, in order. If the stream is printed from items and no read tears one,
   the ring never overflows, each response is delivered in one piece, in order, and all of them once the stream has
   arrived. Where nothing can be torn, it does not matter how the stream is cut.
   */
  method ReadLoop(rb: RingBuffer<char>, stream: string, cuts: seq<nat>, beyond: string, ghost items: seq<Item>)
    returns (delivered: seq<string>, taken: nat, overflow: bool, ghost pieces: seq<Piece>, ghost ends: seq<nat>)
    requires rb.Valid() && rb.size > 0 && rb.Content() == "" && |beyond| >= OK_SPAN
    modifies rb, rb.buffer
    ensures rb.Valid() && taken <= |stream| && (overflow ==> rb.Free() == 0)
    ensures Conserves(pieces, delivered, rb.Content(), stream[..taken])
    ensures ReadEnds(ends, cuts, taken) && (!overflow ==> |ends| == |cuts|)
    ensures Ordinary(stream, items, rb.size, old(rb.read)) && (Untorn(items, ends) || Seamless(items)) ==>
              && !overflow && delivered <= ToDeliver(items)
              && (taken == |stream| ==> DeliveredAll(items, delivered, rb.Content()))
  {
    hide Drained, Frames, Conserves, Ordinary, Tracks, ReadEnds, Untorn, Seamless, DeliveredAll, ToDeliver, ReadAfter;
    delivered, taken, overflow, pieces, ends := [], 0, false, [], [];
    var body, i := false, 0;
    ghost var later, start := items, rb.read;
    TracksStart(stream, items, rb.size, start);
    NothingRead();
    NoEnds(cuts);
    assert stream[..0] == "";
    while i < |cuts|
      invariant rb.Valid() && i <= |cuts| && taken <= |stream| && !overflow && |ends| == i
      invariant Conserves(pieces, delivered, rb.Content(), stream[..taken])
      invariant ReadEnds(ends, cuts, taken)
      invariant Tracks(stream, items, taken, body, delivered, rb.Content(), later, ends, rb.size, start)
      invariant start + |stream| <= rb.size ==> rb.read + rb.used + (|stream| - taken) <= rb.size
    {
      ghost var kept, read := rb.Content(), rb.read;
      TracksRoom(stream, items, taken, body, delivered, kept, later, ends, rb.size, start);
      if rb.Free() == 0 {
        overflow := true;
        break;
      }
      var n, frames;
      ghost var was := body;
      n, body, frames := ReadOnce(rb, stream, taken, cuts[i], body, beyond);
      ghost var portion := stream[taken..taken + n];
      Arrives(stream, taken, n);
      ReadConserves(pieces, delivered, kept, stream[..taken], portion, was, rb.size, read, beyond);
      OneMoreEnd(ends, cuts, taken, n, items);
      later := TracksOn(stream, items, taken, n, was, delivered, kept, later, ends, rb.size, start, read, beyond,
                        cuts);
      pieces := pieces + Drained(was, kept + portion, rb.size, read, beyond).pieces;
      ends, delivered, taken, i := ends + [taken + n], delivered + frames, taken + n, i + 1;
    }
    AllSeamless(items, ends);
    TracksEnd(stream, items, taken, body, delivered, rb.Content(), later, ends, rb.size, start);
  }

  lemma NoEnds(cuts: seq<nat>)
    ensures ReadEnds([], cuts, 0)
  {
  }
}
