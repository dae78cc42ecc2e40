/**
 The read loop of the monitor thread (chan_dongle.c): whatever the modem sends, in whatever
 portions it arrives, is cut into discarded bytes, frames and terminators.
 */
module Monitor {
  import opened Search
  import opened RingCells
  import opened RingBuffer
  import opened AtRead
  import opened Classify

  /** A stretch of the input: dropped by the framer, delivered as a frame, or what terminates a frame. */
  datatype Piece = Discarded(text: string) | Frame(text: string) | End(text: string)

  function Texts(pieces: seq<Piece>): string {
    if pieces == [] then [] else pieces[0].text + Texts(pieces[1..])
  }

  function Frames(pieces: seq<Piece>): seq<string> {
    if pieces == [] then []
    else (if pieces[0].Frame? then [pieces[0].text] else []) + Frames(pieces[1..])
  }

  datatype Drain = Drain(pieces: seq<Piece>, body: bool, left: nat)

  /** The inner loop: frames the content `c` until more input is needed. */
  function Drained(body: bool, c: string, size: nat, read: nat, beyond: string): (d: Drain)
    requires |c| <= size && read < size && |beyond| >= OK_SPAN
    ensures d.left <= |c|
    decreases |c|
  {
    var s := Scanned(body, c, size, read, beyond);
    if s.frame == -1 then Drain([Discarded(c[..s.dropped])], s.body, |c| - s.dropped)
    else
      ScannedFrame(body, c, size, read, beyond);
      var c' := c[s.dropped..];
      var n := s.frame + Terminator(c');
      var d := Drained(false, c'[n..], size, ReadAfter(size, read, s.dropped + n, |c'| - n), beyond);
      Drain([Discarded(c[..s.dropped]), Frame(c'[..s.frame]), End(c'[s.frame..n])] + d.pieces, d.body, d.left)
  }

  /** The framer finds a complete response, at the front of what is left after dropping. */
  lemma {:induction false} ScannedFrame(body: bool, c: string, size: nat, read: nat, beyond: string)
    requires |c| <= size && read < size && |beyond| >= OK_SPAN
    ensures var s := Scanned(body, c, size, read, beyond);
            s.frame != -1 ==>
              && !s.body
              && 0 < s.frame && s.frame + Terminator(c[s.dropped..]) <= |c| - s.dropped
              && Complete(c[s.dropped..], s.frame)
    decreases |c|
  {
    hide ToSkip, FrameAt, Scanned, Terminator, Ends;
    var n := ToSkip(body, c);
    if n > 0 {
      var body', read' := body || Starts(CRLF, c), ReadAfter(size, read, n, |c| - n);
      ScannedSkip(body, c, size, read, beyond);
      ScannedFrame(body', c[n..], size, read', beyond);
      var s := Scanned(body', c[n..], size, read', beyond);
      DropTwice(c, n, s.dropped);
    } else {
      ScannedReady(body, c, size, read, beyond);
      FrameComplete(c, size - read, beyond);
      assert c[0..] == c;
    }
  }

  /** One round of the inner loop. */
  lemma DrainStep(body: bool, c: string, size: nat, read: nat, beyond: string)
    requires |c| <= size && read < size && |beyond| >= OK_SPAN
    ensures var s := Scanned(body, c, size, read, beyond);
            s.frame == -1 ==>
              Drained(body, c, size, read, beyond) == Drain([Discarded(c[..s.dropped])], s.body, |c| - s.dropped)
    ensures var s := Scanned(body, c, size, read, beyond);
            s.frame != -1 ==>
              var c', n := c[s.dropped..], s.frame + Terminator(c[s.dropped..]);
              && 0 < s.frame <= n <= |c'|
              && var d := Drained(false, c'[n..], size, ReadAfter(size, read, s.dropped + n, |c'| - n), beyond);
              Drained(body, c, size, read, beyond) ==
              Drain([Discarded(c[..s.dropped]), Frame(c'[..s.frame]), End(c'[s.frame..n])] + d.pieces, d.body, d.left)
  {
    hide Scanned, Terminator, Complete;
    ScannedFrame(body, c, size, read, beyond);
  }

  // ---------- conservation, for any input ----------

  lemma TextsOf(a: Piece, rest: seq<Piece>)
    ensures Texts([a] + rest) == a.text + Texts(rest)
  {
  }

  lemma TextsOfThree(a: Piece, b: Piece, c: Piece, rest: seq<Piece>)
    ensures Texts([a, b, c] + rest) == a.text + (b.text + (c.text + Texts(rest)))
  {
    TextsOf(c, rest);
    TextsOf(b, [c] + rest);
    TextsOf(a, [b] + ([c] + rest));
    assert [a, b, c] + rest == [a] + ([b] + ([c] + rest));
  }

  lemma CutInFour(c: string, a: nat, b: nat, e: nat)
    requires a <= |c| && b <= e <= |c| - a
    ensures c[..a] + (c[a..][..b] + (c[a..][b..e] + c[a..][e..])) == c
  {
  }

  lemma Regroup(a: string, b: string, c: string, d: string, e: string, whole: string)
    requires a + (b + (c + (d + e))) == whole
    ensures (a + (b + (c + d))) + e == whole
  {
    assert (c + d) + e == c + (d + e);
    assert (b + (c + d)) + e == b + ((c + d) + e);
  }

  /** The end of what is left is the end of the whole. */
  lemma SameEnd(front: string, tail: string, left: nat)
    requires left <= |tail|
    ensures (front + tail)[|front + tail| - left..] == tail[|tail| - left..]
  {
  }

  lemma FrontApart(x: string, y: string, z: string, tail: string)
    ensures x + (y + (z + tail)) == (x + (y + z)) + tail
  {
    assert y + (z + tail) == (y + z) + tail;
  }

  /** Discarded, framed and remaining bytes are the input, in order. */
  ghost predicate Whole(d: Drain, c: string) {
    d.left <= |c| && Texts(d.pieces) + c[|c| - d.left..] == c
  }

  lemma DropConserves(c: string, dropped: nat, body: bool)
    requires dropped <= |c|
    ensures Whole(Drain([Discarded(c[..dropped])], body, |c| - dropped), c)
  {
    assert [Discarded(c[..dropped])][1..] == [];
  }

  /** What is dropped and framed goes before what the later pieces conserve. */
  lemma RoundConserves(c: string, x: string, y: string, z: string, tail: string, e: Drain)
    requires x + (y + (z + tail)) == c && Whole(e, tail)
    ensures Whole(Drain([Discarded(x), Frame(y), End(z)] + e.pieces, e.body, e.left), c)
  {
    hide Texts;
    var rest := tail[|tail| - e.left..];
    FrontApart(x, y, z, tail);
    SameEnd(x + (y + z), tail, e.left);
    assert c[|c| - e.left..] == rest;
    TextsOfThree(Discarded(x), Frame(y), End(z), e.pieces);
    Regroup(x, y, z, Texts(e.pieces), rest, c);
  }

  /** So it is whatever the modem sent. */
  lemma {:induction false} DrainConserves(body: bool, c: string, size: nat, read: nat, beyond: string)
    requires |c| <= size && read < size && |beyond| >= OK_SPAN
    ensures Whole(Drained(body, c, size, read, beyond), c)
    decreases |c|
  {
    hide Scanned, Terminator, Drained, Whole, ReadAfter;
    DrainStep(body, c, size, read, beyond);
    var s := Scanned(body, c, size, read, beyond);
    if s.frame == -1 {
      DropConserves(c, s.dropped, s.body);
    } else {
      var c', n := c[s.dropped..], s.frame + Terminator(c[s.dropped..]);
      var read' := ReadAfter(size, read, s.dropped + n, |c'| - n);
      DrainConserves(false, c'[n..], size, read', beyond);
      CutInFour(c, s.dropped, s.frame, n);
      var e := Drained(false, c'[n..], size, read', beyond);
      RoundConserves(c, c[..s.dropped], c'[..s.frame], c'[s.frame..n], c'[n..], e);
    }
  }

  /** Every frame is not empty and comes right before what terminates it. */
  ghost predicate Framed(pieces: seq<Piece>) {
    forall k :: 0 <= k < |pieces| && pieces[k].Frame? ==>
      pieces[k].text != "" && k + 1 < |pieces| && pieces[k + 1].End? && Ends(pieces[k].text, pieces[k + 1].text)
  }

  lemma {:induction false} DrainFrames(body: bool, c: string, size: nat, read: nat, beyond: string)
    requires |c| <= size && read < size && |beyond| >= OK_SPAN
    ensures Framed(Drained(body, c, size, read, beyond).pieces)
    decreases |c|
  {
    hide Scanned, Terminator, Ends, Drained;
    DrainStep(body, c, size, read, beyond);
    var s := Scanned(body, c, size, read, beyond);
    if s.frame != -1 {
      ScannedFrame(body, c, size, read, beyond);
      var c', n := c[s.dropped..], s.frame + Terminator(c[s.dropped..]);
      var read' := ReadAfter(size, read, s.dropped + n, |c'| - n);
      DrainFrames(false, c'[n..], size, read', beyond);
      var d := Drained(false, c'[n..], size, read', beyond);
      FramedBefore(c[..s.dropped], c'[..s.frame], c'[s.frame..n], d.pieces);
    }
  }

  lemma FramedBefore(dropped: string, frame: string, end: string, rest: seq<Piece>)
    requires Framed(rest) && frame != "" && Ends(frame, end)
    ensures Framed([Discarded(dropped), Frame(frame), End(end)] + rest)
  {
    hide Ends;
    var pieces := [Discarded(dropped), Frame(frame), End(end)] + rest;
    forall k | 0 <= k < |pieces| && pieces[k].Frame?
      ensures pieces[k].text != "" && k + 1 < |pieces| && pieces[k + 1].End? && Ends(pieces[k].text, pieces[k + 1].text)
    {
      if k > 2 {
        assert pieces[k] == rest[k - 3];
        assert pieces[k + 1] == rest[k - 2];
      }
    }
  }

  // ---------- the inner loop ----------

  lemma FramesOf(a: Piece, rest: seq<Piece>)
    ensures Frames([a] + rest) == (if a.Frame? then [a.text] else []) + Frames(rest)
  {
  }

  lemma FramesOfThree(a: string, f: string, e: string, rest: seq<Piece>)
    ensures Frames([Discarded(a), Frame(f), End(e)] + rest) == [f] + Frames(rest)
  {
    FramesOf(End(e), rest);
    FramesOf(Frame(f), [End(e)] + rest);
    FramesOf(Discarded(a), [Frame(f)] + ([End(e)] + rest));
    assert [Discarded(a), Frame(f), End(e)] + rest == [Discarded(a)] + ([Frame(f)] + ([End(e)] + rest));
  }

  lemma FramesOfNone(a: string)
    ensures Frames([Discarded(a)]) == []
  {
    assert [Discarded(a)][1..] == [];
  }

  /** From `c` a frame `text` was taken, or nothing when `more` input is needed; `rest` is left. */
  ghost predicate Took(c: string, size: nat, read: nat, s: Scan, found: bool, text: string, rest: string, read': nat)
    requires read < size && |c| <= size
  {
    && s.dropped <= |c| && found == (s.frame != -1)
    && if !found then rest == c[s.dropped..] && read' == ReadAfter(size, read, s.dropped, |rest|)
       else
         var c', n := c[s.dropped..], s.frame + Terminator(c[s.dropped..]);
         && 0 < s.frame <= n <= |c'|
         && text == c'[..s.frame] && rest == c'[n..]
         && read' == ReadAfter(size, read, s.dropped + n, |c'| - n)
  }

  /** A frame was left at the front of the ring, and then dropped with its terminator. */
  lemma TookFrame(c: string, size: nat, read: nat, s: Scan, left: string, read1: nat, text: string, n: nat,
                  rest: string, read2: nat)
    requires read < size && |c| <= size && s.dropped <= |c| && s.frame > 0
    requires left == c[s.dropped..] && read1 < size && read1 == ReadAfter(size, read, s.dropped, |left|)
    requires n == s.frame + Terminator(left) <= |left| && text == left[..s.frame] && rest == left[n..]
    requires read2 == ReadAfter(size, read1, n, |rest|)
    ensures Took(c, size, read, s, true, text, rest, read2)
  {
    hide Terminator, ReadAfter;
    ReadAfterTwice(size, read, s.dropped, n, |rest|);
  }

  lemma TookNothing(c: string, size: nat, read: nat, s: Scan, text: string, rest: string, read': nat)
    requires read < size && |c| <= size && s.dropped <= |c| && s.frame == -1 && rest == c[s.dropped..]
    requires read' == ReadAfter(size, read, s.dropped, |rest|)
    ensures Took(c, size, read, s, false, text, rest, read')
  {
  }

  /** One iteration: the next frame, removed from the ring with what terminates it. */
  method NextFrame(rb: RingBuffer<char>, readResult: bool, beyond: string)
    returns (found: bool, body: bool, text: string)
    requires rb.Valid() && rb.size > 0 && |beyond| >= OK_SPAN
    modifies rb
    ensures rb.Valid()
    ensures var c, read := old(rb.Content()), old(rb.read);
            var s := Scanned(readResult, c, rb.size, read, beyond);
            body == s.body && Took(c, rb.size, read, s, found, text, rb.Content(), rb.read)
  {
    hide Scanned, Terminator, Length, Took, ReadAfter, Classified, Complete;
    ghost var c, read := rb.Content(), rb.read;
    ghost var s := Scanned(readResult, c, rb.size, read, beyond);
    ScannedFrame(readResult, c, rb.size, read, beyond);
    var v;
    body, v := ReadResult(rb, readResult, beyond);
    ghost var left, read1 := rb.Content(), rb.read;
    assert left == c[s.dropped..] && read1 == ReadAfter(rb.size, read, s.dropped, |left|) && rb.Covers(s.frame, v);
    hide LeftAs;
    found, text := !v.NoVec?, "";
    if found {
      CompleteLength(left, s.frame);
      text := v.Gather(rb.buffer[..]);
      var res, n := ReadClassification(rb, v.Total());
      TookFrame(c, rb.size, read, s, left, read1, text, n, rb.Content(), rb.read);
    } else {
      TookNothing(c, rb.size, read, s, text, rb.Content(), rb.read);
    }
  }

  /** What is delivered from `c` is the frame taken and what is delivered from the rest. */
  lemma TookThenDrained(body: bool, c: string, size: nat, read: nat, beyond: string, found: bool, text: string,
                        rest: string, read': nat)
    requires |c| <= size && read < size && |beyond| >= OK_SPAN
    requires Took(c, size, read, Scanned(body, c, size, read, beyond), found, text, rest, read')
    ensures |rest| <= |c| && rest == c[|c| - |rest|..]
    ensures read' == ReadAfter(size, read, |c| - |rest|, |rest|)
    ensures var d := Drained(body, c, size, read, beyond);
            if found then
              && |rest| < |c| && read' < size
              && var e := Drained(false, rest, size, read', beyond);
                 Frames(d.pieces) == [text] + Frames(e.pieces) && d.body == e.body && d.left == e.left
            else
              Frames(d.pieces) == [] && d.left == |rest|
    ensures found ==> !Scanned(body, c, size, read, beyond).body
    ensures !found ==> Scanned(body, c, size, read, beyond).body == Drained(body, c, size, read, beyond).body
  {
    hide Scanned, Drained, Terminator, Frames, ReadAfter, Complete;
    var s := Scanned(body, c, size, read, beyond);
    DrainStep(body, c, size, read, beyond);
    ScannedFrame(body, c, size, read, beyond);
    if found {
      var c', n := c[s.dropped..], s.frame + Terminator(c[s.dropped..]);
      var e := Drained(false, rest, size, read', beyond);
      DropTwice(c, s.dropped, n);
      FramesOfThree(c[..s.dropped], c'[..s.frame], c'[s.frame..n], e.pieces);
    } else {
      FramesOfNone(c[..s.dropped]);
    }
  }

  lemma NothingDropped(size: nat, read: nat, left: nat)
    requires read < size
    ensures ReadAfter(size, read, 0, left) == read
  {
  }

  /** The inner loop of the monitor thread: frames and classifies until more input is needed. */
  method DrainRing(rb: RingBuffer<char>, readResult: bool, beyond: string)
    returns (body: bool, frames: seq<string>)
    requires rb.Valid() && rb.size > 0 && |beyond| >= OK_SPAN
    modifies rb
    ensures rb.Valid()
    ensures var c := old(rb.Content());
            var d := Drained(readResult, c, rb.size, old(rb.read), beyond);
            && body == d.body && frames == Frames(d.pieces) && rb.Content() == c[|c| - d.left..]
            && rb.read == ReadAfter(rb.size, old(rb.read), |c| - d.left, d.left)
  {
    hide Scanned, Drained, Took, Frames, ReadAfter;
    ghost var c, start := rb.Content(), rb.read;
    ghost var d := Drained(readResult, c, rb.size, start, beyond);
    NothingDropped(rb.size, start, |c|);
    body, frames := readResult, [];
    var found := true;
    while found
      invariant rb.Valid() && rb.used <= |c| && rb.Content() == c[|c| - rb.used..]
      invariant rb.read == ReadAfter(rb.size, start, |c| - rb.used, rb.used)
      invariant if found then
                  var e := Drained(body, rb.Content(), rb.size, rb.read, beyond);
                  frames + Frames(e.pieces) == Frames(d.pieces) && e.body == d.body && e.left == d.left
                else
                  frames == Frames(d.pieces) && body == d.body && rb.used == d.left
      decreases found, rb.used
    {
      ghost var now, read, was := rb.Content(), rb.read, body;
      var text;
      found, body, text := NextFrame(rb, body, beyond);
      TookThenDrained(was, now, rb.size, read, beyond, found, text, rb.Content(), rb.read);
      DropTwice(c, |c| - |now|, |now| - rb.used);
      ReadAfterTwice(rb.size, start, |c| - |now|, |now| - rb.used, rb.used);
      if found {
        frames := frames + [text];
      }
    }
  }
}
