/**
 The automaton of pdiscovery.c that looks for an IMSI: fifteen digits on a line of their own.
 */
module ImsiScan {
  import opened Wrappers

  const IMSI_SIZE: nat := 15

  predicate IsDigit(c: char) {
    '0' <= c <= '9'
  }

  predicate BreakAt(t: string, k: int) {
    0 <= k && k + 2 <= |t| && t[k] == '\r' && t[k + 1] == '\n'
  }

  predicate DigitsIn(t: string, from: int, to: int) {
    0 <= from <= to <= |t| && forall k :: from <= k < to ==> '0' <= t[k] <= '9'
  }

  /** A line that is an IMSI begins at `i`. */
  predicate ImsiAt(t: string, i: int) {
    BreakAt(t, i - 2) && DigitsIn(t, i, i + IMSI_SIZE) && BreakAt(t, i + IMSI_SIZE)
  }

  /** How many CRs in a row end at `k`. */
  function CrRun(t: string, k: int): (n: nat)
    requires k < |t|
    decreases if k < 0 then 0 else k + 1
  {
    if k >= 0 && t[k] == '\r' then 1 + CrRun(t, k - 1) else 0
  }

  /** An odd number of CRs in a row ends at `k`: with every second one the automaton starts over. */
  predicate OddRun(t: string, k: int)
    requires k < |t|
  {
    CrRun(t, k) % 2 == 1
  }

  lemma OddRunStep(t: string, k: int)
    requires k < |t|
    ensures OddRun(t, k) <==> k >= 0 && t[k] == '\r' && !OddRun(t, k - 1)
  {
  }

  /** A line that is an IMSI, behind an odd number of CRs. */
  predicate SeenAt(t: string, i: int) {
    ImsiAt(t, i) && OddRun(t, i - 2)
  }

  /** CR comes in line breaks only. */
  ghost predicate Regular(t: string) {
    forall k :: 0 <= k < |t| && t[k] == '\r' ==> BreakAt(t, k)
  }

  /** Then no two CRs come in a row. */
  lemma RegularSeen(t: string, i: int)
    requires Regular(t)
    ensures SeenAt(t, i) <==> ImsiAt(t, i)
  {
    if ImsiAt(t, i) {
      OddRunStep(t, i - 2);
      OddRunStep(t, i - 3);
      assert i - 3 >= 0 && t[i - 3] == '\r' ==> BreakAt(t, i - 3);
    }
  }

  /** The state of the automaton; digits are read from `start` on. */
  datatype Scan = Begin | Cr1 | Lf1 | Digits(start: nat) | Cr2(start: nat)

  /** One round of the loop for the character at `p`, when it does not return. */
  function Next(s: Scan, p: nat, c: char): Scan {
    match s
    case Begin => if c == '\r' then Cr1 else Begin
    case Cr1 => if c == '\n' then Lf1 else Begin
    case Lf1 => if IsDigit(c) then Digits(p) else if c == '\r' then Cr1 else Begin
    case Digits(start) =>
      if IsDigit(c) then s
      else if c == '\r' then (if p - start == IMSI_SIZE then Cr2(start) else Cr1)
      else Begin
    case Cr2(_) => Begin
  }

  /** A line break behind an odd number of CRs ends before `p`. */
  predicate SeenBreak(t: string, p: int) {
    BreakAt(t, p - 2) && OddRun(t, p - 2)
  }

  /** The digits of the line at `i`, behind such a break, are being read at `p`. */
  ghost predicate Open(t: string, i: int, p: int) {
    i < p && SeenBreak(t, i) && DigitsIn(t, i, p)
  }

  /** The line at `i` has the digits it needs, and its CR was read before `p`. */
  ghost predicate Closing(t: string, i: int, p: int) {
    p == i + IMSI_SIZE + 1 && Open(t, i, p - 1) && p <= |t| && t[p - 1] == '\r'
  }

  /** The state tells just this about the text before `p`, whatever the text is. */
  ghost predicate Tracks(t: string, p: nat, s: Scan) {
    && p <= |t|
    && (s.Cr1? || s.Cr2? <==> OddRun(t, p - 1))
    && (s.Lf1? <==> SeenBreak(t, p))
    && (forall i :: Open(t, i, p) <==> s.Digits? && s.start == i)
    && (forall i :: Closing(t, i, p) <==> s.Cr2? && s.start == i)
  }

  lemma OpenStep(t: string, i: int, p: nat)
    requires p < |t|
    ensures Open(t, i, p + 1) <==> (Open(t, i, p) || (i == p && SeenBreak(t, p))) && IsDigit(t[p])
  {
    assert Open(t, i, p + 1) ==> IsDigit(t[p]);
  }

  lemma NextTracks(t: string, p: nat, s: Scan)
    requires Tracks(t, p, s) && p < |t| && !(s.Cr2? && t[p] == '\n')
    ensures Tracks(t, p + 1, Next(s, p, t[p]))
  {
    var n, c, q := Next(s, p, t[p]), t[p], p + 1;
    OddRunStep(t, p);
    OddRunStep(t, p - 1);
    assert SeenBreak(t, q) <==> OddRun(t, p - 1) && c == '\n';
    assert s.Digits? ==> Open(t, s.start, p) && !SeenBreak(t, p);
    assert s.Cr2? ==> Closing(t, s.start, p) && !SeenBreak(t, p);
    forall i
      ensures Open(t, i, q) <==> n.Digits? && n.start == i
    {
      OpenStep(t, i, p);
    }
    forall i
      ensures Closing(t, i, q) <==> n.Cr2? && n.start == i
    {
      assert Closing(t, i, q) <==> i == p - IMSI_SIZE && Open(t, i, p) && c == '\r';
    }
  }

  /** The first line that is seen. */
  ghost predicate FirstSeen(t: string, i: int) {
    SeenAt(t, i) && forall j :: j < i ==> !SeenAt(t, j)
  }

  /** No line that is seen ends at or before `p`. */
  ghost predicate NonePassed(t: string, p: nat) {
    forall i :: SeenAt(t, i) ==> i + IMSI_SIZE + 2 > p
  }

  lemma NextNone(t: string, p: nat, s: Scan)
    requires Tracks(t, p, s) && p < |t| && NonePassed(t, p) && !(s.Cr2? && t[p] == '\n')
    ensures NonePassed(t, p + 1)
  {
    var i := p - IMSI_SIZE - 1;
    assert SeenAt(t, i) ==> Closing(t, i, p);
  }

  lemma EndFirst(t: string, p: nat, s: Scan)
    requires Tracks(t, p, s) && p < |t| && NonePassed(t, p) && s.Cr2? && t[p] == '\n'
    ensures FirstSeen(t, s.start) && p == s.start + IMSI_SIZE + 1
  {
    assert Closing(t, s.start, p);
    forall j | j < s.start
      ensures !SeenAt(t, j)
    {
      assert SeenAt(t, j) ==> j + IMSI_SIZE + 2 > p;
    }
  }

  /**
   What is found is the first line of fifteen digits behind an odd number of CRs, and there is none
   if none is found. The text is as it was.
   */
  method HandleCimi(text: array<char>) returns (imsi: Option<string>)
    modifies text
    ensures text[..] == old(text[..])
    ensures imsi.Some? ==> exists i :: FirstSeen(text[..], i) && imsi.value == text[..][i..i + IMSI_SIZE]
    ensures imsi.None? ==> forall i :: !SeenAt(text[..], i)
  {
    ghost var t := text[..];
    var state, p := Begin, 0;
    while p < text.Length
      invariant p <= text.Length && text[..] == t
      invariant Tracks(t, p, state) && NonePassed(t, p)
    {
      var c := text[p];
      if state.Cr2? && c == '\n' {
        var start := state.start;
        EndFirst(t, p, state);
        text[p - 1] := 0 as char;
        var copy := text[start..p - 1];
        text[p - 1] := '\r';
        assert copy == t[start..start + IMSI_SIZE] && text[..] == t;
        return Some(copy);
      }
      NextTracks(t, p, state);
      NextNone(t, p, state);
      state := Next(state, p, c);
      p := p + 1;
    }
    return None;
  }

  lemma {:induction false} CrsRun(t: string, n: nat)
    requires n <= |t| && forall k :: 0 <= k < n ==> t[k] == '\r'
    ensures CrRun(t, n - 1) == n
  {
    if n > 0 {
      CrsRun(t, n - 1);
    }
  }

  /** A line behind `n` CRs and a line feed is missed iff `n` is even; on regular text `n` is 1. */
  lemma CanMiss(n: nat, digits: string)
    requires n > 0 && |digits| == IMSI_SIZE && DigitsIn(digits, 0, IMSI_SIZE)
    ensures var t := seq(n, _ => '\r') + ("\n" + digits + "\r\n");
            && ImsiAt(t, n + 1) && (Regular(t) <==> n == 1)
            && forall i :: SeenAt(t, i) <==> i == n + 1 && n % 2 == 1
  {
    var t := seq(n, _ => '\r') + ("\n" + digits + "\r\n");
    var end := n + 1 + IMSI_SIZE;
    assert forall k :: 0 <= k < n ==> t[k] == '\r';
    assert t[n] == '\n' && t[end] == '\r' && t[end + 1] == '\n' && |t| == end + 2;
    forall k | n + 1 <= k < end
      ensures IsDigit(t[k])
    {
      assert t[k] == digits[k - n - 1];
    }
    CrsRun(t, n);
    assert n > 1 ==> t[0] == '\r' && !BreakAt(t, 0);
    forall i | ImsiAt(t, i)
      ensures i == n + 1
    {
      assert BreakAt(t, i - 2) && IsDigit(t[i]);
    }
  }
}
