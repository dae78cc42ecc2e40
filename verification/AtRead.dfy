/**
 The framer of at_read.c: cuts the byte stream of the modem into responses and
 classifies them. `*read_result` is the boolean `body`: whether the start of a
 response has been seen.
 */
module AtRead {
  import opened Search
  import opened WrapSearch
  import opened RingCells
  import opened RingBuffer

  const CRLF := "\r\n"

  /** The end of a multi-line response, and how much memory after the literal the search may read. */
  const OK_TAIL := "\n\r\nOK\r\n"
  const OK_SPAN: nat := 5

  predicate Starts(text: string, c: string) {
    text <= c
  }

  /** Responses that go on until the final OK. */
  predicate Multiline(c: string) {
    Starts("+CMGR:", c) || Starts("+CNUM:", c) || Starts("ERROR+CNUM:", c) || Starts("+CLCC:", c)
  }

  /** Responses that come with one more line break in front. */
  predicate ExtraBreak(c: string) {
    Starts("\r\n+CSSU:", c) || Starts("\r\n+CMS ERROR:", c) || Starts("\r\n+CMGS:", c)
  }

  /** What a call did: how much it dropped, and the length of the frame at the new front or -1. */
  datatype Scan = Scan(body: bool, dropped: nat, frame: int) {
    function After(n: nat): Scan {
      Scan(body, n + dropped, frame)
    }
  }

  /** The read position of a ring of `size` after `n` of its elements were dropped and `left` are there. */
  function ReadAfter(size: nat, read: nat, n: nat, left: nat): (r: nat)
    requires read < size && n <= size
    ensures r < size
  {
    if n == 0 then read else if left == 0 then 0 else Advanced(size, read, n)
  }

  lemma ReadAfterTwice(size: nat, read: nat, n: nat, m: nat, left: nat)
    requires read < size && n + m + left <= size
    ensures ReadAfter(size, ReadAfter(size, read, n, m + left), m, left) == ReadAfter(size, read, n + m, left)
  {
  }

  /** How much is dropped from the front before the framer calls itself again; 0 when it does not. */
  function ToSkip(body: bool, c: string): (n: nat)
    ensures n <= |c|
  {
    if c == [] then 0
    else if !body then
      if |c| < 2 then 0
      else if Starts(CRLF, c) then 2
      else if Starts("\n", c) then 1
      else if FindChar(c, '\r') == -1 then |c|
      else FindChar(c, '\r') + 1
    else if ExtraBreak(c) && !Starts("+CSSI:", c) then 2
    else 0
  }

  /** The length of the response at the front of the content, or -1 while its end is not there. */
  function FrameAt(c: string, room: nat, beyond: string): (k: int)
    requires |beyond| >= OK_SPAN
    ensures k == -1 || 0 <= k <= |c|
  {
    if Starts("+CSSI:", c) then if |c| < 8 then -1 else 8
    else if Starts("> ", c) then 2
    else if Multiline(c) then FoundIn(c, room, OK_TAIL, beyond)
    else
      var k := Find(c, CRLF);
      if k == -1 then -1 else k + 1
  }

  /** The framer as a function of the content `c` of a ring of `size` with read position `read`. */
  function Scanned(body: bool, c: string, size: nat, read: nat, beyond: string): (r: Scan)
    requires |c| <= size && read < size && |beyond| >= OK_SPAN
    ensures r.dropped <= |c| && (r.frame == -1 || (0 <= r.frame && r.dropped + r.frame <= |c|))
    decreases |c|
  {
    var n := ToSkip(body, c);
    if n > 0 then
      var r := Scanned(body || Starts(CRLF, c), c[n..], size, ReadAfter(size, read, n, |c| - n), beyond);
      Scan(r.body, n + r.dropped, r.frame)
    else if !body || c == [] then Scan(body, 0, -1)
    else
      var k := FrameAt(c, size - read, beyond);
      Scan(k == -1, 0, k)
  }

  /** Whether the content starts with `text`, as `rb_memcmp` tells. */
  method StartsWith(rb: RingBuffer<char>, text: string) returns (b: bool)
    requires rb.Valid() && text != []
    ensures b == Starts(text, rb.Content())
  {
    var res := rb.MemCmp(text);
    b := res == 0;
  }

  lemma FrameCases(c: string, room: nat, beyond: string)
    requires |beyond| >= OK_SPAN
    ensures FrameAt(c, room, beyond) ==
            if Starts("+CSSI:", c) then if |c| < 8 then -1 else 8
            else if Starts("> ", c) then 2
            else if Multiline(c) then FoundIn(c, room, OK_TAIL, beyond)
            else if FoundIn(c, room, CRLF, []) == -1 then -1
            else FoundIn(c, room, CRLF, []) + 1
  {
    LineBreakFound(c, room);
  }

  lemma PromptLength(c: string)
    requires Starts("> ", c)
    ensures |c| >= 2
  {
  }

  method ReadFrame(rb: RingBuffer<char>, beyond: string) returns (v: Vectors)
    requires rb.Valid() && rb.used > 0 && |beyond| >= OK_SPAN
    ensures rb.Covers(FrameAt(rb.Content(), rb.size - rb.read, beyond), v)
  {
    hide FrameAt, Starts, Multiline, FoundIn;
    FrameCases(rb.Content(), rb.size - rb.read, beyond);
    var b := StartsWith(rb, "+CSSI:");
    if b {
      v := rb.ReadN(8);
      return;
    }
    b := StartsWith(rb, "> ");
    if b {
      PromptLength(rb.Content());
      v := rb.ReadN(2);
      return;
    }
    b := StartsMultiline(rb);
    if b {
      v := rb.ReadUntilMem(OK_TAIL, beyond);
    } else {
      v := rb.ReadUntilMem(CRLF, []);
      if !v.NoVec? {
        v := rb.ReadN(v.Total() + 1);
      }
    }
  }

  method StartsExtraBreak(rb: RingBuffer<char>) returns (b: bool)
    requires rb.Valid()
    ensures b == ExtraBreak(rb.Content())
  {
    b := StartsWith(rb, "\r\n+CSSU:");
    if !b {
      b := StartsWith(rb, "\r\n+CMS ERROR:");
    }
    if !b {
      b := StartsWith(rb, "\r\n+CMGS:");
    }
  }

  method StartsMultiline(rb: RingBuffer<char>) returns (b: bool)
    requires rb.Valid()
    ensures b == Multiline(rb.Content())
  {
    b := StartsWith(rb, "+CMGR:");
    if !b {
      b := StartsWith(rb, "+CNUM:");
    }
    if !b {
      b := StartsWith(rb, "ERROR+CNUM:");
    }
    if !b {
      b := StartsWith(rb, "+CLCC:");
    }
  }

  /** A multi-line response ends before a line feed, whatever else the search got wrong. */
  lemma MultilineEnd(c: string, room: nat, beyond: string)
    requires Multiline(c) && |beyond| >= OK_SPAN
    ensures var k := FoundIn(c, room, OK_TAIL, beyond); k == -1 || (6 <= k && c[k] == '\n')
  {
    var cut := if room < |c| then room else |c|;
    assert c[..cut] + c[cut..] == c && (OK_TAIL + beyond)[0] == '\n';
    FoundStartsAlike(c[..cut], c[cut..], 7, OK_TAIL + beyond);
  }

  /**
   A response that starts with one of these four texts is read up to the first end of a response there is, in a
   ring in which it lies in one piece.
   */
  lemma ReportSought(c: string, room: nat, beyond: string)
    requires Starts("+CMGR:", c) || Starts("+CNUM:", c) || Starts("ERROR+CNUM:", c) || Starts("+CLCC:", c)
    requires |c| <= room && |beyond| >= OK_SPAN
    ensures FrameAt(c, room, beyond) == Find(c, OK_TAIL)
  {
    assert c[0] != '>' && c[2] != 'S';
    assert c[..|c|] == c && c[|c|..] == [] && (OK_TAIL + beyond)[..7] == OK_TAIL;
  }

  /** A line break is found wherever it lies: no two-byte pattern meets the defect of the search. */
  lemma LineBreakFound(c: string, room: nat)
    ensures FoundIn(c, room, CRLF, []) == Find(c, CRLF)
  {
    var cut := if room < |c| then room else |c|;
    assert c[..cut] + c[cut..] == c && (CRLF + [])[..2] == CRLF;
    FindAcrossSelfSimilar(c[..cut], c[cut..], 2, CRLF + []);
  }

  lemma OkTailNowhereSimilar(beyond: string)
    requires |beyond| >= OK_SPAN
    ensures NowhereSimilar(7, OK_TAIL + beyond)
  {
    var mem := OK_TAIL + beyond;
    assert mem[..7] == OK_TAIL;
    forall i | 1 <= i < 7
      ensures mem[i..2 * i] != mem[7 - i..7]
    {
      assert mem[i..2 * i][0] == OK_TAIL[i] && mem[7 - i..7][0] == OK_TAIL[7 - i];
      if i == 3 {
        assert mem[3..6][1] == 'K' && mem[4..7][1] == '\r';
        assert OK_TAIL[3] == 'O' && OK_TAIL[4] == 'K';
      }
    }
  }

  /**
   The end of a multi-line response is found where it is exactly when it lies before the wrap of the ring or
   no place before the wrap starts it and goes on after the wrap as it should or as the source expects.
   */
  lemma OkTailExact(c: string, room: nat, beyond: string)
    requires |beyond| >= OK_SPAN
    ensures var cut := if room < |c| then room else |c|;
            FoundIn(c, room, OK_TAIL, beyond) == Find(c, OK_TAIL) <==>
            Find(c[..cut], OK_TAIL) != -1 || !Confused(c[..cut], c[cut..], 7, OK_TAIL + beyond)
  {
    var cut := if room < |c| then room else |c|;
    assert c[..cut] + c[cut..] == c && (OK_TAIL + beyond)[..7] == OK_TAIL;
    OkTailNowhereSimilar(beyond);
    FindAcrossNowhereSimilar(c[..cut], c[cut..], 7, OK_TAIL + beyond);
  }

  /**
   A message whose last byte lies past the wrap is not delivered as it is; one that ends there with a
   carriage return, so that it has no end yet, is delivered.
   */
  lemma OkTailDefect(beyond: string)
    requires |beyond| >= OK_SPAN
    ensures var c := "+CMGR: 1\n\r\nOK\r" + "\n"; Find(c, OK_TAIL) == 8 && FrameAt(c, 14, beyond) != 8
    ensures var c := "+CMGR: 1\n\r\nOK\r" + "\r"; Find(c, OK_TAIL) == -1 && FrameAt(c, 14, beyond) != -1
  {
    var a, mem := "+CMGR: 1\n\r\nOK\r", OK_TAIL + beyond;
    assert a[8] == '\n' && a[8..] == mem[..6] && |a| == 14;
    assert forall k :: 0 <= k < 8 ==> a[k] != '\n';
    forall k: nat | k < 8
      ensures !OccursAt(a, OK_TAIL, k)
    {
      OccursStart(a, OK_TAIL, k);
    }
    FindIs(a, OK_TAIL, -1);
    OkTailNowhereSimilar(beyond);
    DefectFrame(a, "\n", beyond);
    DefectFrame(a, "\r", beyond);
    DefectAt(a, "\n", mem, 8);
    DefectAt(a, "\r", mem, -1);
  }

  lemma DefectFrame(a: string, b: string, beyond: string)
    requires |a| == 14 && |b| == 1 && Starts("+CMGR:", a) && |beyond| >= OK_SPAN
    ensures FrameAt(a + b, 14, beyond) == FindAcross(a, b, 7, OK_TAIL + beyond)
  {
    var c := a + b;
    assert c[..14] == a && c[14..] == b;
    assert c[..6] == "+CMGR:" && c[2] == 'M' && c[0] == '+';
  }

  lemma DefectAt(a: string, b: string, mem: string, r: int)
    requires 12 <= |mem| && OK_TAIL <= mem && NowhereSimilar(7, mem)
    requires |a| == 14 && |b| == 1 && a[8..] == mem[..6] && Find(a, OK_TAIL) == -1
    requires forall k :: 0 <= k < 8 ==> a[k] != '\n'
    requires (r == 8 && b == mem[6..7]) || (r == -1 && b == mem[1..2])
    ensures Find(a + b, OK_TAIL) == r && FindAcross(a, b, 7, mem) != r
  {
    assert mem[..7] == OK_TAIL;
    assert ConfusedAt(a, b, 7, mem, 1);
    FindAcrossNowhereSimilar(a, b, 7, mem);
    assert (a + b)[8..15] == a[8..] + b;
    forall k: nat | k < 8
      ensures !OccursAt(a + b, OK_TAIL, k)
    {
      OccursStart(a + b, OK_TAIL, k);
    }
    FindIs(a + b, OK_TAIL, r);
  }

  lemma ScannedSkip(body: bool, c: string, size: nat, read: nat, beyond: string)
    requires |c| <= size && read < size && |beyond| >= OK_SPAN && ToSkip(body, c) > 0
    ensures var n := ToSkip(body, c);
            var r := Scanned(body || Starts(CRLF, c), c[n..], size, ReadAfter(size, read, n, |c| - n), beyond);
            Scanned(body, c, size, read, beyond) == Scan(r.body, n + r.dropped, r.frame)
  {
  }

  lemma ScannedReady(body: bool, c: string, size: nat, read: nat, beyond: string)
    requires |c| <= size && read < size && |beyond| >= OK_SPAN && ToSkip(body, c) == 0
    ensures var k := if body && c != [] then FrameAt(c, size - read, beyond) else -1;
            Scanned(body, c, size, read, beyond) == Scan(body && k == -1, 0, k)
  {
  }

  /** Decides what goes before the framer calls itself again, and with which `*read_result`. */
  method SkipLength(rb: RingBuffer<char>, readResult: bool) returns (n: nat, next: bool)
    requires rb.Valid()
    ensures n == ToSkip(readResult, rb.Content())
    ensures n > 0 ==> next == (readResult || Starts(CRLF, rb.Content()))
  {
    n, next := 0, readResult;
    if rb.used == 0 {
      return;
    }
    if !readResult {
      var res := rb.MemCmp(CRLF);
      if res == 0 {
        return 2, true;
      } else if res > 0 {
        res := rb.MemCmp("\n");
        if res == 0 {
          return 1, false;
        }
        n := rb.used;
        var v := rb.ReadUntilChar('\r');
        if !v.NoVec? {
          n := v.Total() + 1;
        }
      }
    } else {
      var cssi := StartsWith(rb, "+CSSI:");
      var extra := StartsExtraBreak(rb);
      n := if extra && !cssi then 2 else 0;
    }
  }

  /** The ring is where the framer leaves it: the dropped part gone, the vectors on the frame. */
  ghost predicate LeftAs(rb: RingBuffer<char>, v: Vectors, body: bool, r: Scan, c: string, read: nat)
    reads rb, rb.buffer
  {
    && rb.Valid() && r.dropped <= |c| <= rb.size && read < rb.size
    && body == r.body
    && rb.Content() == c[r.dropped..]
    && rb.read == ReadAfter(rb.size, read, r.dropped, rb.used)
    && rb.Covers(r.frame, v)
  }

  lemma LeftAsBefore(rb: RingBuffer<char>, v: Vectors, body: bool, readResult: bool, c: string, read: nat,
                     beyond: string)
    requires |c| <= rb.size && read < rb.size && |beyond| >= OK_SPAN && ToSkip(readResult, c) > 0
    requires var n := ToSkip(readResult, c);
             var read' := ReadAfter(rb.size, read, n, |c| - n);
             var r := Scanned(readResult || Starts(CRLF, c), c[n..], rb.size, read', beyond);
             LeftAs(rb, v, body, r, c[n..], read')
    ensures LeftAs(rb, v, body, Scanned(readResult, c, rb.size, read, beyond), c, read)
  {
    var n := ToSkip(readResult, c);
    var r := Scanned(readResult || Starts(CRLF, c), c[n..], rb.size, ReadAfter(rb.size, read, n, |c| - n), beyond);
    ScannedSkip(readResult, c, rb.size, read, beyond);
    DropTwice(c, n, r.dropped);
    ReadAfterTwice(rb.size, read, n, r.dropped, rb.used);
  }

  /** The end of the recursion. */
  method ReadReady(rb: RingBuffer<char>, readResult: bool, beyond: string) returns (body: bool, v: Vectors)
    requires rb.Valid() && rb.size > 0 && |beyond| >= OK_SPAN && ToSkip(readResult, rb.Content()) == 0
    ensures LeftAs(rb, v, body, Scanned(readResult, rb.Content(), rb.size, rb.read, beyond), rb.Content(), rb.read)
  {
    hide Scanned, FrameAt, ToSkip;
    assert rb.Content() == rb.Content()[0..];
    ScannedReady(readResult, rb.Content(), rb.size, rb.read, beyond);
    assert rb.Covers(-1, NoVec);
    if readResult && rb.used > 0 {
      v := ReadFrame(rb, beyond);
      body := v.NoVec?;
    } else {
      body, v := readResult, NoVec;
    }
  }

  /** `at_read_result_iov`: the frame is left at the front of the ring. */
  method ReadResult(rb: RingBuffer<char>, readResult: bool, beyond: string) returns (body: bool, v: Vectors)
    requires rb.Valid() && rb.size > 0 && |beyond| >= OK_SPAN
    modifies rb
    ensures var c, read := old(rb.Content()), old(rb.read);
            LeftAs(rb, v, body, Scanned(readResult, c, rb.size, read, beyond), c, read)
    decreases rb.used
  {
    var n, next := SkipLength(rb, readResult);
    if n > 0 {
      var k := rb.ReadUpd(n);
      body, v := ReadResult(rb, next, beyond);
      LeftAsBefore(rb, v, body, readResult, old(rb.Content()), old(rb.read), beyond);
    } else {
      body, v := ReadReady(rb, readResult, beyond);
    }
  }
}
