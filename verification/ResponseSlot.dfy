/**
 The slot of simbox_modem.c through which one caller at a time gets the answer to an AT command:
 a bounded append in place, and the protocol of callers, captured lines, failures and timeouts.
 */
module ResponseSlot {
  const NUL: char := 0 as char

  // ---------- the buffer ----------

  /** What C reads from a buffer. */
  function CText(cells: seq<char>): string {
    if cells == [] || cells[0] == NUL then "" else [cells[0]] + CText(cells[1..])
  }

  /** A buffer holds a text when the text is there, NUL after it, and none in it. */
  ghost predicate Holds(cells: seq<char>, text: string) {
    |text| < |cells| && cells[..|text|] == text && cells[|text|] == NUL && NUL !in text
  }

  lemma {:induction false} HoldsIs(cells: seq<char>, text: string)
    requires Holds(cells, text)
    ensures CText(cells) == text
  {
    if text != "" {
      assert cells[0] == text[0] && text[0] in text;
      assert cells[1..][..|text| - 1] == text[1..];
      HoldsIs(cells[1..], text[1..]);
    }
  }

  predicate IsBreak(c: char) {
    c == '\r' || c == '\n'
  }

  /** Without the line breaks at the end. */
  function Stripped(line: string): (r: string)
    ensures r <= line
  {
    if line != "" && IsBreak(line[|line| - 1]) then Stripped(line[..|line| - 1]) else line
  }

  /** The next line goes behind a line break, but for the first text there is. */
  function Joined(text: string, line: string): string {
    if text == "" then line else text + "\r\n" + line
  }

  function Cut(text: string, room: nat): (r: string)
    ensures r <= text && |r| <= room
  {
    if |text| <= room then text else text[..room]
  }

  /** All lines joined. */
  function JoinAll(lines: seq<string>): string {
    if lines == [] then "" else Joined(JoinAll(lines[..|lines| - 1]), Stripped(lines[|lines| - 1]))
  }

  /** It does not matter whether a text is cut before a line is joined to it, or after. */
  lemma CutJoined(text: string, line: string, room: nat)
    ensures Cut(Joined(Cut(text, room), line), room) == Cut(Joined(text, line), room)
  {
  }

  lemma StrippedClean(line: string)
    requires NUL !in line
    ensures NUL !in Stripped(line)
  {
  }

  lemma NoNulIn(cells: seq<char>, text: string, n: nat)
    requires Holds(cells, text) && n < |text|
    ensures cells[n] != NUL
  {
    assert cells[..|text|][n] == text[n] && text[n] in text;
  }

  method StrLen(buf: array<char>, ghost text: string) returns (n: nat)
    requires Holds(buf[..], text)
    ensures n == |text|
  {
    n := 0;
    ghost var cells := buf[..];
    forall k | 0 <= k < |text|
      ensures cells[k] != NUL
    {
      NoNulIn(cells, text, k);
    }
    while buf[n] != NUL
      invariant n <= |text|
      decreases |text| - n
    {
      n := n + 1;
    }
  }

  /** How much of a line is left without the line breaks at its end. */
  method StripLength(line: string) returns (n: nat)
    ensures n <= |line| && line[..n] == Stripped(line)
  {
    n := |line|;
    assert line[..n] == line;
    while n > 0 && IsBreak(line[n - 1])
      invariant n <= |line| && Stripped(line) == Stripped(line[..n])
    {
      assert line[..n][..n - 1] == line[..n - 1];
      n := n - 1;
    }
  }

  /** Writes `data` behind the text in the buffer, and NUL behind it. */
  method Put(buf: array<char>, used: nat, data: string, ghost text: string)
    requires Holds(buf[..], text) && used == |text| && used + |data| < buf.Length && NUL !in data
    modifies buf
    ensures Holds(buf[..], text + data)
  {
    forall k | 0 <= k < |data| {
      buf[used + k] := data[k];
    }
    buf[used + |data|] := NUL;
    assert buf[..][..used] == text;
    assert buf[..][..used + |data|] == text + data;
  }

  /** The part of `simbox_device_capture_at_response` that writes to the caller's buffer. */
  method Append(buf: array<char>, line: string, ghost text: string)
    requires Holds(buf[..], text) && NUL !in line
    modifies buf
    ensures Holds(buf[..], Cut(Joined(text, Stripped(line)), buf.Length - 1))
  {
    hide Stripped, Holds;
    var used := StrLen(buf, text);
    assert used < buf.Length by { UsedFits(buf[..], text); }
    var available := buf.Length - used;
    var lineLen := StripLength(line);
    StrippedClean(line);
    ghost var now := text;
    if used > 0 && available > 1 {
      var br := if available > 2 then "\r\n" else "\r";
      Put(buf, used, br, now);
      now := now + br;
      used, available := used + |br|, available - |br|;
    }
    if available > 1 {
      var copyLen := if lineLen < available - 1 then lineLen else available - 1;
      assert line[..copyLen] == Stripped(line)[..copyLen];
      Put(buf, used, line[..copyLen], now);
      now := now + line[..copyLen];
    }
    CutJoin(text, Stripped(line), buf.Length - 1, now);
  }

  lemma UsedFits(cells: seq<char>, text: string)
    requires Holds(cells, text)
    ensures |text| < |cells|
  {
  }

  /** Break and line, each as far as there is room. */
  lemma CutJoin(text: string, line: string, room: nat, now: string)
    requires |text| <= room
    requires var br := if text == "" || |text| == room then "" else if |text| + 1 == room then "\r" else "\r\n";
             var left := room - |text| - |br|;
             now == text + br + (if |line| < left then line else line[..left])
    ensures now == Cut(Joined(text, line), room)
  {
  }

  // ---------- the end of an answer ----------

  function Prefixed(line: string, start: string): bool {
    |line| >= |start| && line[..|start|] == start
  }

  predicate TerminalOk(line: string) {
    Stripped(line) == "OK"
  }

  predicate Terminal(line: string) {
    TerminalOk(line) || Stripped(line) == "ERROR" || Prefixed(line, "+CME ERROR") || Prefixed(line, "+CMS ERROR")
  }

  /** The result the last line that ends an answer stands for, if there was one. */
  function Outcome(lines: seq<string>): (r: (bool, int))
    ensures r.0 <==> exists k :: 0 <= k < |lines| && Terminal(lines[k])
  {
    if lines == [] then (false, -1)
    else
      var line := lines[|lines| - 1];
      if Terminal(line) then
        assert Terminal(lines[|lines| - 1]);
        (true, if TerminalOk(line) then 0 else -1)
      else
        var before := Outcome(lines[..|lines| - 1]);
        assert before.0 ==> exists k :: 0 <= k < |lines| && Terminal(lines[k]) by {
          if before.0 {
            var k :| 0 <= k < |lines| - 1 && Terminal(lines[..|lines| - 1][k]);
            assert Terminal(lines[k]);
          }
        }
        assert (exists k :: 0 <= k < |lines| && Terminal(lines[k])) ==> before.0 by {
          if k :| 0 <= k < |lines| && Terminal(lines[k]) {
            assert Terminal(lines[..|lines| - 1][k]);
          }
        }
        before
  }

  // ---------- the protocol ----------

  /** Where a caller of `simbox_at_command` is; what it returned, when it is through. */
  datatype Phase = Outside | Enqueuing | Waiting | Returned(rv: int)

  /** `owner` is the caller whose buffer is in the slot; `lines` what was captured since it got there. */
  datatype Slot = Slot(pending: bool, complete: bool, result: int, owner: nat, lines: seq<string>,
                       phases: seq<Phase>, sizes: seq<nat>, bufs: seq<string>)

  datatype Step =
    | Acquire(caller: nat, size: nat)
    | Capture(line: string)
    | EnqueueDone(caller: nat, rv: int)
    | Leave(caller: nat, timedOut: bool)

  /** Callers start over; a waiting caller wakes when the answer is complete, or too late. */
  ghost predicate Possible(s: Slot, step: Step) {
    match step
    case Acquire(c, size) => c < |s.phases| && (s.phases[c].Outside? || s.phases[c].Returned?) && size > 0
    case Capture(line) => NUL !in line
    case EnqueueDone(c, _) => c < |s.phases| && s.phases[c].Enqueuing?
    case Leave(c, timedOut) => c < |s.phases| && s.phases[c].Waiting? && (s.complete || timedOut)
  }

  ghost predicate Shaped(s: Slot) {
    |s.phases| == |s.sizes| == |s.bufs| && (s.pending ==> s.owner < |s.phases|)
  }

  function Freed(s: Slot, caller: nat, rv: int, complete: bool): Slot
    requires caller < |s.phases|
  {
    s.(pending := false, complete := complete, phases := s.phases[caller := Returned(rv)])
  }

  ghost function Stepped(s: Slot, step: Step): Slot
    requires Shaped(s) && Possible(s, step)
  {
    match step
    case Acquire(c, size) =>
      if s.pending then s.(phases := s.phases[c := Returned(-1)])
      else s.(pending := true, complete := false, result := -1, owner := c, lines := [],
              phases := s.phases[c := Enqueuing], sizes := s.sizes[c := size], bufs := s.bufs[c := ""])
    case Capture(line) =>
      if !s.pending || s.sizes[s.owner] == 0 then s
      else
        var text := Cut(Joined(s.bufs[s.owner], Stripped(line)), s.sizes[s.owner] - 1);
        var now := s.(bufs := s.bufs[s.owner := text], lines := s.lines + [line]);
        if Terminal(line) then now.(complete := true, result := if TerminalOk(line) then 0 else -1) else now
    case EnqueueDone(c, rv) =>
      if rv != 0 then Freed(s, c, rv, s.complete) else s.(phases := s.phases[c := Waiting])
    case Leave(c, _) => Freed(s, c, if s.complete then s.result else -1, false)
  }

  predicate Inside(p: Phase) {
    p.Enqueuing? || p.Waiting?
  }

  /** One caller at most is inside, and the slot is its. */
  ghost predicate OneOwner(s: Slot) {
    && (s.pending <==> exists c :: 0 <= c < |s.phases| && Inside(s.phases[c]))
    && (forall c :: 0 <= c < |s.phases| && Inside(s.phases[c]) ==> c == s.owner)
  }

  /** Its buffer has what fits of the lines captured for it, and the flags are about these lines. */
  ghost predicate Answering(s: Slot)
    requires Shaped(s)
  {
    s.pending ==>
      && s.owner < |s.phases| && s.sizes[s.owner] > 0
      && s.bufs[s.owner] == Cut(JoinAll(s.lines), s.sizes[s.owner] - 1)
      && s.complete == Outcome(s.lines).0 && s.result == Outcome(s.lines).1
  }

  ghost predicate Sound(s: Slot) {
    Shaped(s) && OneOwner(s) && Answering(s)
  }

  lemma CaptureSound(s: Slot, line: string)
    requires Sound(s) && NUL !in line
    ensures Sound(Stepped(s, Capture(line)))
  {
    hide Cut, Joined, Terminal, TerminalOk;
    if s.pending {
      var lines, size := s.lines + [line], s.sizes[s.owner];
      assert lines[..|lines| - 1] == s.lines;
      CutJoined(JoinAll(s.lines), Stripped(line), size - 1);
    }
  }

  lemma StepSound(s: Slot, step: Step)
    requires Sound(s) && Possible(s, step)
    ensures Sound(Stepped(s, step))
  {
    hide Terminal, TerminalOk, Cut, Joined, Stripped;
    match step
    case Acquire(c, size) =>
      if !s.pending {
        assert Inside(Stepped(s, step).phases[c]);
        EmptyCut(size);
      } else {
        assert Inside(s.phases[s.owner]);
        assert Inside(Stepped(s, step).phases[s.owner]);
      }
    case Capture(line) => CaptureSound(s, line);
    case EnqueueDone(c, rv) =>
      assert Inside(s.phases[c]) && c == s.owner;
      if rv == 0 {
        assert Inside(Stepped(s, step).phases[c]);
      }
    case Leave(c, timedOut) =>
      assert Inside(s.phases[c]) && c == s.owner;
  }

  lemma EmptyCut(size: nat)
    requires size > 0
    ensures Cut(JoinAll([]), size - 1) == ""
  {
  }

  /** A step writes to no buffer but that of the caller in the slot, or of the one that just gets there. */
  lemma OnlyOwnersBuffer(s: Slot, step: Step, c: nat)
    requires Sound(s) && Possible(s, step) && c < |s.bufs|
    requires Stepped(s, step).bufs[c] != s.bufs[c]
    ensures Inside(Stepped(s, step).phases[c]) && Stepped(s, step).owner == c
  {
    hide Cut, Joined, Stripped, Terminal, TerminalOk;
    if step.Capture? {
      var o :| 0 <= o < |s.phases| && Inside(s.phases[o]);
    }
  }

  /**
   A caller that leaves has in its buffer what fits of the lines captured since it came, and returns
   the result of the last line that ended an answer, or -1 if none did.
   */
  lemma LeavesWithAnswer(s: Slot, c: nat, timedOut: bool)
    requires Sound(s) && Possible(s, Leave(c, timedOut))
    ensures var e := Stepped(s, Leave(c, timedOut));
            && e.phases[c] == Returned(if Outcome(s.lines).0 then Outcome(s.lines).1 else -1)
            && e.bufs[c] == Cut(JoinAll(s.lines), s.sizes[c] - 1)
  {
    assert Inside(s.phases[c]);
  }

  function Fresh(callers: nat): Slot {
    Slot(false, false, -1, 0, [], seq(callers, _ => Outside), seq(callers, _ => 0), seq(callers, _ => ""))
  }

  ghost predicate IsRun(callers: nat, states: seq<Slot>, steps: seq<Step>) {
    && |states| == |steps| + 1 && states[0] == Fresh(callers)
    && forall i :: 0 <= i < |steps| ==> Leads(states[i], steps[i], states[i + 1])
  }

  /** From a sound state, the only ones there are. */
  ghost predicate Leads(s: Slot, step: Step, e: Slot) {
    Sound(s) ==> Possible(s, step) && e == Stepped(s, step)
  }

  /** Under every interleaving of callers, lines, failures and timeouts. */
  lemma {:induction false} EveryRunSound(callers: nat, states: seq<Slot>, steps: seq<Step>, i: nat)
    requires IsRun(callers, states, steps) && i < |states|
    ensures Sound(states[i])
  {
    hide Sound;
    if i == 0 {
      FreshSound(callers);
    } else {
      EveryRunSound(callers, states, steps, i - 1);
      assert Leads(states[i - 1], steps[i - 1], states[i - 1 + 1]);
      StepSound(states[i - 1], steps[i - 1]);
    }
  }

  lemma FreshSound(callers: nat)
    ensures Sound(Fresh(callers))
  {
  }

  // ---------- what a caller gets, written out ----------

  predicate OnlyBreaks(s: string) {
    forall k :: 0 <= k < |s| ==> s[k] == '\r' || s[k] == '\n'
  }

  predicate EndsInText(s: string) {
    s == "" || (s[|s| - 1] != '\r' && s[|s| - 1] != '\n')
  }

  /** CR and LF at the end of a line are cut off, and nothing else. */
  lemma {:induction false} StrippedIs(text: string, breaks: string)
    requires EndsInText(text) && OnlyBreaks(breaks)
    ensures Stripped(text + breaks) == text
  {
    if breaks == "" {
      assert text + breaks == text;
    } else {
      var n := |breaks| - 1;
      assert (text + breaks)[..|text + breaks| - 1] == text + breaks[..n];
      StrippedIs(text, breaks[..n]);
    }
  }

  /** The lines that end an answer, and the one that ends it well. */
  lemma TerminalIs(text: string, breaks: string)
    requires EndsInText(text) && OnlyBreaks(breaks)
    ensures TerminalOk(text + breaks) <==> text == "OK"
    ensures Terminal(text + breaks)
            <==> text == "OK" || text == "ERROR" || "+CME ERROR" <= text + breaks || "+CMS ERROR" <= text + breaks
  {
    StrippedIs(text, breaks);
  }

  /** The result of an answer is that of its last line that ends one: 0 for `OK`, -1 for an error or for none. */
  lemma {:induction false} OutcomeIs(lines: seq<string>, k: int)
    requires -1 <= k < |lines| && (k >= 0 ==> Terminal(lines[k]))
    requires forall j :: k < j < |lines| ==> !Terminal(lines[j])
    ensures Outcome(lines) == if k == -1 then (false, -1) else (true, if TerminalOk(lines[k]) then 0 else -1)
  {
    hide Terminal, TerminalOk;
    if lines != [] && k < |lines| - 1 {
      OutcomeIs(lines[..|lines| - 1], k);
    }
  }

  /** Texts behind others: each after a line break. */
  function Following(texts: seq<string>): string {
    if texts == [] then "" else "\r\n" + texts[0] + Following(texts[1..])
  }

  /** Texts with line breaks between them, from the first one that is not empty on. */
  function Lined(texts: seq<string>): string {
    if texts == [] then "" else if texts[0] == "" then Lined(texts[1..]) else texts[0] + Following(texts[1..])
  }

  lemma {:induction false} FollowingLast(texts: seq<string>, last: string)
    ensures Following(texts + [last]) == Following(texts) + ("\r\n" + last)
  {
    if texts == [] {
      assert texts + [last] == [last] && [last][1..] == [];
    } else {
      assert (texts + [last])[1..] == texts[1..] + [last];
      FollowingLast(texts[1..], last);
    }
  }

  lemma {:induction false} LinedLast(texts: seq<string>, last: string)
    ensures Lined(texts + [last]) == Joined(Lined(texts), last)
  {
    if texts == [] {
      assert texts + [last] == [last] && [last][1..] == [];
    } else {
      assert (texts + [last])[1..] == texts[1..] + [last];
      if texts[0] == "" {
        LinedLast(texts[1..], last);
      } else {
        FollowingLast(texts[1..], last);
      }
    }
  }

  /** The lines of an answer are put together in order, with line breaks between them. */
  lemma {:induction false} LinesJoined(lines: seq<string>, texts: seq<string>)
    requires |lines| == |texts| && forall k :: 0 <= k < |lines| ==> Stripped(lines[k]) == texts[k]
    ensures JoinAll(lines) == Lined(texts)
  {
    hide Stripped, Joined;
    if lines != [] {
      var n := |lines| - 1;
      LinesJoined(lines[..n], texts[..n]);
      LinedLast(texts[..n], texts[n]);
      assert texts[..n] + [texts[n]] == texts;
    }
  }

  /** A caller gets the slot just when it is free, and is turned away with -1 when it is not. */
  lemma Acquires(s: Slot, c: nat, size: nat)
    requires Sound(s) && Possible(s, Acquire(c, size))
    ensures var e := Stepped(s, Acquire(c, size));
            && (Inside(e.phases[c]) <==> !exists o :: 0 <= o < |s.phases| && Inside(s.phases[o]))
            && (!Inside(e.phases[c]) ==> e == s.(phases := s.phases[c := Returned(-1)]))
  {
  }

  /** A caller may ask for the slot just when it is not inside, and has a buffer. */
  lemma MayAsk(s: Slot, c: nat, size: nat)
    requires c < |s.phases|
    ensures Possible(s, Acquire(c, size)) <==> size > 0 && !s.phases[c].Enqueuing? && !s.phases[c].Waiting?
  {
  }

  /** A caller whose command was not queued returns at once with the error, and the slot is free. */
  lemma EnqueueFails(s: Slot, c: nat, rv: int)
    requires Sound(s) && Possible(s, EnqueueDone(c, rv))
    ensures var e := Stepped(s, EnqueueDone(c, rv));
            if rv != 0 then e.phases[c] == Returned(rv) && !e.pending else e.phases[c].Waiting? && e.pending
  {
    assert Inside(s.phases[c]);
  }

  /** A caller that waits can leave before its time is up just when a line that ends an answer has come. */
  lemma LeavesWhenAnswered(s: Slot, c: nat)
    requires Sound(s) && c < |s.phases| && s.phases[c].Waiting?
    ensures Possible(s, Leave(c, false)) <==> exists k :: 0 <= k < |s.lines| && Terminal(s.lines[k])
    ensures Possible(s, Leave(c, true))
    ensures var e := Stepped(s, Leave(c, true)); !e.pending && !e.complete
  {
    assert Inside(s.phases[c]);
    hide Terminal;
  }

  /** The lines that came in some steps of a run. */
  ghost function Came(steps: seq<Step>): seq<string> {
    if steps == [] then []
    else Came(steps[..|steps| - 1]) + if steps[|steps| - 1].Capture? then [steps[|steps| - 1].line] else []
  }

  /** From step `i` on caller `c` is in the slot. */
  ghost predicate Holding(states: seq<Slot>, steps: seq<Step>, i: nat, j: nat, c: nat, size: nat)
    requires i < j < |states| == |steps| + 1
  {
    && steps[i] == Acquire(c, size) && !states[i].pending
    && forall m :: i < m <= j ==> c < |states[m].phases| && Inside(states[m].phases[c])
  }

  lemma LinesAfter(s: Slot, step: Step, c: nat)
    requires Sound(s) && Possible(s, step) && c < |s.phases| && Inside(s.phases[c])
    ensures var e := Stepped(s, step);
            && |e.sizes| == |s.sizes| && (Inside(e.phases[c]) ==> e.sizes[c] == s.sizes[c])
            && (Inside(e.phases[c]) ==> e.lines == s.lines + if step.Capture? then [step.line] else [])
  {
    hide Terminal, TerminalOk, Cut, Joined, Stripped;
    assert s.pending && s.owner == c;
    assert s.lines + [] == s.lines;
  }

  lemma {:induction false} HoldsLines(callers: nat, states: seq<Slot>, steps: seq<Step>, i: nat, j: nat, c: nat,
                                      size: nat)
    requires IsRun(callers, states, steps) && i < j < |states| && Holding(states, steps, i, j, c, size)
    ensures Sound(states[j]) && states[j].lines == Came(steps[i + 1..j]) && states[j].sizes[c] == size
  {
    hide Sound, Stepped, Possible;
    EveryRunSound(callers, states, steps, j - 1);
    EveryRunSound(callers, states, steps, j);
    assert Leads(states[j - 1], steps[j - 1], states[j - 1 + 1]);
    SoundShape(states[j]);
    if j == i + 1 {
      assert steps[i + 1..j] == [];
      HoldsNew(states[i], c, size);
    } else {
      HoldsLines(callers, states, steps, i, j - 1, c, size);
      SoundShape(states[j - 1]);
      LinesAfter(states[j - 1], steps[j - 1], c);
      assert steps[i + 1..j][..j - i - 2] == steps[i + 1..j - 1];
    }
  }

  lemma SoundShape(s: Slot)
    requires Sound(s)
    ensures Shaped(s)
  {
  }

  lemma HoldsNew(s: Slot, c: nat, size: nat)
    requires Sound(s) && Possible(s, Acquire(c, size)) && !s.pending
    ensures var e := Stepped(s, Acquire(c, size)); c < |e.sizes| && e.lines == [] && e.sizes[c] == size
  {
  }

  /**
   In every run, whatever other callers do: a caller that got the slot and leaves it returns the result of the last
   line that ended an answer among those that came in between, and has in its buffer what fits of all of them.
   */
  lemma AnswerOfCall(callers: nat, states: seq<Slot>, steps: seq<Step>, i: nat, j: nat, c: nat, size: nat)
    requires IsRun(callers, states, steps) && i < j < |steps| && Holding(states, steps, i, j, c, size)
    requires steps[j].Leave? && steps[j].caller == c
    ensures |states[j + 1].phases| == |states[j + 1].bufs| > c && size > 0
    ensures var lines := Came(steps[i + 1..j]);
            && states[j + 1].phases[c] == Returned(Outcome(lines).1)
            && states[j + 1].bufs[c] == Cut(JoinAll(lines), size - 1)
  {
    hide Outcome, JoinAll, Cut, Came;
    HoldsLines(callers, states, steps, i, j, c, size);
    assert Leads(states[j], steps[j], states[j + 1]);
    LeavesWithAnswer(states[j], c, steps[j].timedOut);
    assert Inside(states[j].phases[c]);
    NoOutcome(states[j].lines);
  }

  lemma {:induction false} NoOutcome(lines: seq<string>)
    ensures !Outcome(lines).0 ==> Outcome(lines).1 == -1
  {
    hide Terminal, TerminalOk;
    if lines != [] {
      NoOutcome(lines[..|lines| - 1]);
    }
  }
}
