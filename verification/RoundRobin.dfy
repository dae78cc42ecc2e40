/**
 Selection of a device of a group in turn: the branch of `find_device_by_resource_ex` in
 chan_dongle.c that marks the device it used last.
 */
module RoundRobin {
  const MAX_DEVICES: nat := 128

  /** The members of the group among the first `n` devices, as many as there is room for. */
  function Members(inGroup: seq<bool>, n: nat): (r: seq<nat>)
    requires n <= |inGroup|
    ensures |r| <= MAX_DEVICES
    ensures forall i :: 0 <= i < |r| ==> r[i] < n && inGroup[r[i]]
    ensures forall i, j :: 0 <= i < j < |r| ==> r[i] < r[j]
  {
    if n == 0 then []
    else
      var before := Members(inGroup, n - 1);
      if inGroup[n - 1] && |before| < MAX_DEVICES then before + [n - 1] else before
  }

  /** The member marked last, by its place; the first one if there is none. */
  function LastUsed(marks: seq<bool>): (r: nat)
    ensures r < |marks| || r == 0
  {
    if marks == [] then 0
    else if marks[|marks| - 1] then |marks| - 1
    else LastUsed(marks[..|marks| - 1])
  }

  /** The search loop: at most `steps` members from place `j` on, around the end. */
  function FirstFrom(dial: seq<bool>, j: nat, steps: nat): (k: int)
    requires j <= |dial| && (steps > 0 ==> dial != [])
    ensures -1 <= k < |dial| && (k >= 0 ==> dial[k])
    decreases steps
  {
    if steps == 0 then -1
    else
      var here := if j == |dial| then 0 else j;
      if dial[here] then here else FirstFrom(dial, here + 1, steps - 1)
  }

  /** How far it is from one place to another, going up and around; a whole turn from a place to itself. */
  function Distance(c: nat, from: nat, to: nat): (d: nat)
    requires from < c && to < c
    ensures 1 <= d <= c
  {
    if to > from then to - from else to + c - from
  }

  /** The next member to be used, after the one used last; -1 if none can be. */
  function Next(dial: seq<bool>, last: nat): (k: int)
    requires last < |dial|
    ensures -1 <= k < |dial| && (k >= 0 ==> dial[k])
  {
    FirstFrom(dial, last + 1, |dial|)
  }

  /** All members passed over by the loop could not be used, and it comes by all of them. */
  lemma {:induction false} FirstFromIs(dial: seq<bool>, last: nat, passed: nat, steps: nat, j: nat)
    requires last < |dial| && passed + steps == |dial| && j <= |dial|
    requires j == last + 1 + passed || j + |dial| == last + 1 + passed
    requires forall m: nat :: m < |dial| && Distance(|dial|, last, m) <= passed ==> !dial[m]
    ensures var k := FirstFrom(dial, j, steps);
            forall m: nat :: m < |dial| && dial[m] ==>
              k >= 0 && Distance(|dial|, last, k) <= Distance(|dial|, last, m)
    decreases steps
  {
    if steps > 0 {
      var here := if j == |dial| then 0 else j;
      assert Distance(|dial|, last, here) == passed + 1;
      if !dial[here] {
        forall m: nat | m < |dial| && Distance(|dial|, last, m) <= passed + 1
          ensures !dial[m]
        {
          if Distance(|dial|, last, m) == passed + 1 {
            assert m == here;
          }
        }
        FirstFromIs(dial, last, passed + 1, steps - 1, here + 1);
      }
    }
  }

  /** The search finds a member just when one can be used, and then the first one after the last used. */
  lemma NextInTurn(dial: seq<bool>, last: nat)
    requires last < |dial|
    ensures Next(dial, last) == -1 <==> forall m: nat :: m < |dial| ==> !dial[m]
    ensures forall m: nat :: m < |dial| && dial[m] ==>
              && Next(dial, last) >= 0
              && Distance(|dial|, last, Next(dial, last)) <= Distance(|dial|, last, m)
  {
    FirstFromIs(dial, last, 0, |dial|, last + 1);
  }

  // ---------- the search itself ----------

  function At(s: seq<bool>, places: seq<nat>): (r: seq<bool>)
    requires forall i :: 0 <= i < |places| ==> places[i] < |s|
    ensures |r| == |places| && forall i :: 0 <= i < |r| ==> r[i] == s[places[i]]
  {
    seq(|places|, i requires 0 <= i < |places| => s[places[i]])
  }

  /** Where the search begins: after the member marked last, and with none marked after the first one. */
  function Found(marks: seq<bool>, dial: seq<bool>): (k: int)
    requires |marks| == |dial|
    ensures -1 <= k < |dial|
  {
    if dial == [] then -1 else Next(dial, LastUsed(marks))
  }

  lemma LastUsedStep(marks: seq<bool>, mark: bool)
    ensures LastUsed(marks + [mark]) == if mark then |marks| else LastUsed(marks)
  {
    assert (marks + [mark])[..|marks|] == marks;
  }

  /** The marks of the members are gone, those of other devices stay; but for the device found. */
  ghost predicate Marked(was: seq<bool>, now: seq<bool>, members: seq<nat>, found: int) {
    && |now| == |was|
    && forall d :: 0 <= d < |now| ==> now[d] == (d == found || (was[d] && d !in members))
  }

  lemma MarkGone(was: seq<bool>, now: seq<bool>, members: seq<nat>, n: nat)
    requires Marked(was, now, members, -1) && n < |was|
    ensures Marked(was, now[n := false], members + [n], -1)
  {
    assert forall d: nat :: d in members + [n] <==> d in members || d == n;
  }

  lemma MarkHere(was: seq<bool>, now: seq<bool>, members: seq<nat>, n: nat)
    requires Marked(was, now, members, -1) && n < |was| && n !in members
    ensures Marked(was, now[n := false], members + [n], -1) && |now| == |was| && now[n] == was[n]
  {
    MarkGone(was, now, members, n);
  }

  lemma MarkSet(was: seq<bool>, now: seq<bool>, members: seq<nat>, n: nat)
    requires Marked(was, now, members, -1) && n < |was|
    ensures Marked(was, now[n := true], members, n)
  {
  }

  lemma MembersStep(inGroup: seq<bool>, marks: seq<bool>, n: nat)
    requires |inGroup| == |marks| && n < |inGroup|
    ensures var before := Members(inGroup, n);
            if inGroup[n] && |before| < MAX_DEVICES then
              && Members(inGroup, n + 1) == before + [n] && n !in before
              && LastUsed(At(marks, before + [n])) == (if marks[n] then |before| else LastUsed(At(marks, before)))
            else Members(inGroup, n + 1) == before
  {
    var before := Members(inGroup, n);
    if inGroup[n] && |before| < MAX_DEVICES {
      assert At(marks, before + [n]) == At(marks, before) + [marks[n]];
      LastUsedStep(At(marks, before), marks[n]);
    }
  }

  /** The first loop: collects the members of the group, and takes away their marks. */
  method Collect(lastUsed: array<bool>, inGroup: seq<bool>) returns (members: seq<nat>, last: nat)
    requires |inGroup| == lastUsed.Length
    modifies lastUsed
    ensures members == Members(inGroup, |inGroup|)
    ensures last == LastUsed(At(old(lastUsed[..]), members))
    ensures Marked(old(lastUsed[..]), lastUsed[..], members, -1)
  {
    members, last := [], 0;
    ghost var was := lastUsed[..];
    var n := 0;
    while n < |inGroup|
      invariant n <= |inGroup| && members == Members(inGroup, n)
      invariant last == LastUsed(At(was, members))
      invariant Marked(was, lastUsed[..], members, -1)
    {
      hide Members, LastUsed, At, Marked;
      MembersStep(inGroup, was, n);
      if inGroup[n] && |members| < MAX_DEVICES {
        ghost var now := lastUsed[..];
        MarkHere(was, now, members, n);
        if lastUsed[n] {
          lastUsed[n] := false;
          last := |members|;
        }
        assert lastUsed[..] == now[n := false];
        members := members + [n];
      }
      n := n + 1;
    }
  }

  /** The second loop: the place of the first member that can be used, after the last used. */
  method SearchInTurn(members: seq<nat>, canDial: seq<bool>, last: nat) returns (k: int)
    requires members != [] ==> last < |members|
    requires forall i :: 0 <= i < |members| ==> members[i] < |canDial|
    ensures k == if members == [] then -1 else Next(At(canDial, members), last)
  {
    var c := |members|;
    ghost var dial := At(canDial, members);
    var i: nat, j: nat := 0, last + 1;
    while i < c
      invariant i <= c
      invariant c > 0 ==> j <= c && FirstFrom(dial, last + 1, c) == FirstFrom(dial, j, c - i)
    {
      if j == c {
        j := 0;
      }
      if canDial[members[j]] {
        return j;
      }
      i, j := i + 1, j + 1;
    }
    return -1;
  }

  /** One search over the marks of all devices: what it finds, and the marks it leaves. */
  ghost predicate Searched(was: seq<bool>, now: seq<bool>, inGroup: seq<bool>, canDial: seq<bool>, found: int) {
    && |was| == |inGroup| == |canDial|
    && var members := Members(inGroup, |inGroup|);
       var k := Found(At(was, members), At(canDial, members));
       && found == (if k == -1 then -1 else members[k])
       && Marked(was, now, members, found)
  }

  /** `find_device_by_resource_ex` for a group in turn: the device found, or -1. */
  method FindInTurn(lastUsed: array<bool>, inGroup: seq<bool>, canDial: seq<bool>) returns (found: int)
    requires |inGroup| == |canDial| == lastUsed.Length
    modifies lastUsed
    ensures Searched(old(lastUsed[..]), lastUsed[..], inGroup, canDial, found)
  {
    var members, last := Collect(lastUsed, inGroup);
    hide Members, LastUsed, Marked, At, FirstFrom;
    ghost var now := lastUsed[..];
    var k := SearchInTurn(members, canDial, last);
    if k == -1 {
      return -1;
    }
    found := members[k];
    MarkSet(old(lastUsed[..]), now, members, found);
    lastUsed[found] := true;
    assert lastUsed[..] == now[found := true];
  }

  /** Afterwards one member is marked at most: the one found. A search that finds none takes all marks away. */
  lemma OneMark(was: seq<bool>, now: seq<bool>, members: seq<nat>, found: int)
    requires Marked(was, now, members, found) && forall i :: 0 <= i < |members| ==> members[i] < |was|
    ensures forall i :: 0 <= i < |members| ==> (now[members[i]] <==> members[i] == found)
  {
    forall i | 0 <= i < |members|
      ensures now[members[i]] <==> members[i] == found
    {
      assert members[i] in members;
    }
  }

  /** With no mark left the search begins at the second member; the first one is found only if no other can be used. */
  lemma NoMarkStartsSecond(marks: seq<bool>, dial: seq<bool>)
    requires |marks| == |dial| > 0 && forall i :: 0 <= i < |marks| ==> !marks[i]
    ensures Found(marks, dial) == -1 <==> forall m: nat :: m < |dial| ==> !dial[m]
    ensures Found(marks, dial) == 0 <==> dial[0] && forall m: nat :: 0 < m < |dial| ==> !dial[m]
    ensures Found(marks, dial) > 0 ==> forall m: nat :: 0 < m < Found(marks, dial) ==> !dial[m]
  {
    NoMark(marks);
    NextInTurn(dial, 0);
    hide Next, LastUsed;
    var k := Found(marks, dial);
    forall m: nat | m < |dial| && dial[m]
      ensures k >= 0 && Distance(|dial|, 0, k) <= Distance(|dial|, 0, m)
    {
    }
  }

  lemma {:induction false} NoMark(marks: seq<bool>)
    requires forall i :: 0 <= i < |marks| ==> !marks[i]
    ensures LastUsed(marks) == 0
  {
    if marks != [] {
      NoMark(marks[..|marks| - 1]);
    }
  }

  // ---------- fairness, over the searches of a run ----------

  /** Marked once, a member is the one used last for the next search. */
  lemma {:induction false} LastUsedIs(marks: seq<bool>, k: nat)
    requires k < |marks| && forall i :: 0 <= i < |marks| ==> (marks[i] <==> i == k)
    ensures LastUsed(marks) == k
  {
    var n := |marks| - 1;
    if k < n {
      LastUsedIs(marks[..n], k);
    }
  }

  /** The marks hand the place over: the next search goes on after the member found. */
  lemma HandsOver(was: seq<bool>, now: seq<bool>, inGroup: seq<bool>, canDial: seq<bool>, found: int)
    requires Searched(was, now, inGroup, canDial, found) && found != -1
    ensures var members := Members(inGroup, |inGroup|);
            && |now| == |was|
            && LastUsed(At(now, members)) < |members|
            && members[LastUsed(At(now, members))] == found
  {
    var members := Members(inGroup, |inGroup|);
    var k := Found(At(was, members), At(canDial, members));
    OneMark(was, now, members, found);
    hide Members, Marked, Found;
    LastUsedIs(At(now, members), k);
  }

  /** One search after the other, from any marks on; between them devices get busy and free. */
  ghost predicate SearchRun(inGroup: seq<bool>, marks: seq<seq<bool>>, dials: seq<seq<bool>>, found: seq<int>) {
    && |marks| == |dials| + 1 && |found| == |dials|
    && (forall i :: 0 <= i < |marks| ==> |marks[i]| == |inGroup|)
    && forall i :: 0 <= i < |dials| ==> SearchAt(inGroup, marks, dials, found, i)
  }

  ghost predicate SearchAt(inGroup: seq<bool>, marks: seq<seq<bool>>, dials: seq<seq<bool>>, found: seq<int>, i: nat)
    requires |marks| == |dials| + 1 && |found| == |dials| && i < |dials|
  {
    Searched(marks[i], marks[i + 1], inGroup, dials[i], found[i])
  }

  /** The place of a device among the members. */
  function PlaceOf(members: seq<nat>, d: nat): (k: nat)
    requires d in members
    ensures k < |members| && members[k] == d
  {
    if members[0] == d then 0 else 1 + PlaceOf(members[1..], d)
  }

  /** After a search that found a device, the next one finds the nearest that can be used. */
  lemma NextFound(inGroup: seq<bool>, m0: seq<bool>, m1: seq<bool>, m2: seq<bool>, dial0: seq<bool>, dial: seq<bool>,
                  x: int, q: int, d: nat) returns (from: nat, to: nat)
    requires Searched(m0, m1, inGroup, dial0, x) && x != -1 && Searched(m1, m2, inGroup, dial, q)
    requires d in Members(inGroup, |inGroup|) && dial[d]
    ensures var members := Members(inGroup, |inGroup|);
            && from < |members| && members[from] == x && to < |members| && members[to] == q
            && Distance(|members|, from, to) <= Distance(|members|, from, PlaceOf(members, d))
  {
    HandsOver(m0, m1, inGroup, dial0, x);
    var members := Members(inGroup, |inGroup|);
    from := LastUsed(At(m1, members));
    var usable, p := At(dial, members), PlaceOf(members, d);
    hide Members, LastUsed, Marked, Next, Distance, At, PlaceOf;
    NextInTurn(usable, from);
    assert usable[p];
    to := Next(usable, from);
  }

  lemma SamePlace(inGroup: seq<bool>, a: nat, b: nat)
    requires var members := Members(inGroup, |inGroup|);
             a < |members| && b < |members| && members[a] == members[b]
    ensures a == b
  {
  }

  predicate UsableAt(dials: seq<seq<bool>>, m: nat, d: nat) {
    m < |dials| && d < |dials[m]| && dials[m][d]
  }

  lemma OneSearch(inGroup: seq<bool>, marks: seq<seq<bool>>, dials: seq<seq<bool>>, found: seq<int>, i: nat)
    requires SearchRun(inGroup, marks, dials, found) && i < |dials|
    ensures Searched(marks[i], marks[i + 1], inGroup, dials[i], found[i])
  {
    assert SearchAt(inGroup, marks, dials, found, i);
  }

  lemma Ahead(c: nat, last: nat, from: nat, q: nat, d: nat, first: bool)
    requires last < c && from < c && q < c && d < c && q != d
    requires Distance(c, from, q) <= Distance(c, from, d)
    requires if first then from == last else Distance(c, last, from) < Distance(c, last, d)
    ensures Distance(c, last, q) < Distance(c, last, d)
  {
  }

  lemma Nearer(c: nat, from: nat, q: nat, d: nat)
    requires from < c && q < c && d < c && q != d && Distance(c, from, q) <= Distance(c, from, d)
    ensures Distance(c, from, q) < Distance(c, from, d)
  {
  }

  /** As long as a member that can be used is not found, the searches stay short of it. */
  lemma {:induction false} StaysShort(inGroup: seq<bool>, marks: seq<seq<bool>>, dials: seq<seq<bool>>, found: seq<int>,
                                      i: nat, j: nat, d: nat)
    returns (last: nat, here: nat)
    requires SearchRun(inGroup, marks, dials, found) && i < j < |dials| && found[i] != -1
    requires d in Members(inGroup, |inGroup|)
    requires forall m :: i < m <= j ==> UsableAt(dials, m, d) && found[m] != d
    ensures var members := Members(inGroup, |inGroup|);
            && last < |members| && members[last] == found[i] && here < |members| && members[here] == found[j]
            && Distance(|members|, last, here) < Distance(|members|, last, PlaceOf(members, d))
  {
    hide SearchAt, Searched, Members, Distance, PlaceOf;
    var members := Members(inGroup, |inGroup|);
    var p := PlaceOf(members, d);
    assert UsableAt(dials, j, d);
    OneSearch(inGroup, marks, dials, found, j - 1);
    OneSearch(inGroup, marks, dials, found, j);
    if j == i + 1 {
      last, here := NextFound(inGroup, marks[i], marks[j], marks[j + 1], dials[i], dials[j], found[i], found[j], d);
      Nearer(|members|, last, here, p);
    } else {
      var prev, from;
      last, prev := StaysShort(inGroup, marks, dials, found, i, j - 1, d);
      from, here := NextFound(inGroup, marks[j - 1], marks[j], marks[j + 1], dials[j - 1], dials[j],
                              found[j - 1], found[j], d);
      SamePlace(inGroup, prev, from);
      Ahead(|members|, last, from, here, p, false);
    }
  }

  /** Before a device is found again, every other member that could be used all the time is found. */
  lemma EveryoneHasATurn(inGroup: seq<bool>, marks: seq<seq<bool>>, dials: seq<seq<bool>>, found: seq<int>,
                         i: nat, j: nat, d: nat)
    requires SearchRun(inGroup, marks, dials, found) && i < j < |dials| && found[i] == found[j] != -1
    requires d in Members(inGroup, |inGroup|)
    requires forall m :: i < m <= j ==> UsableAt(dials, m, d)
    ensures exists m :: i < m <= j && found[m] == d
  {
    if forall m :: i < m <= j ==> found[m] != d {
      var last, here := StaysShort(inGroup, marks, dials, found, i, j, d);
      SamePlace(inGroup, last, here);
    }
  }

  /** The place `i` places on from `j`. */
  function Onward(c: nat, j: nat, i: nat): (k: nat)
    requires j < c && i <= c
    ensures k < c
  {
    if j + i >= c then j + i - c else j + i
  }

  /** All members can be used. */
  ghost predicate AllUsable(inGroup: seq<bool>, dial: seq<bool>) {
    |dial| == |inGroup| && forall d :: d in Members(inGroup, |inGroup|) ==> dial[d]
  }

  /** Then a search finds the member after the one used last. */
  lemma FindsNext(was: seq<bool>, now: seq<bool>, inGroup: seq<bool>, dial: seq<bool>, q: int)
    requires Searched(was, now, inGroup, dial, q) && AllUsable(inGroup, dial) && Members(inGroup, |inGroup|) != []
    ensures var members := Members(inGroup, |inGroup|);
            var from := LastUsed(At(was, members));
            from < |members| && q == members[Onward(|members|, from, 1)]
  {
    var members := Members(inGroup, |inGroup|);
    var marks, usable := At(was, members), At(dial, members);
    hide Members, LastUsed, Marked, Next, At;
    assert members[Onward(|members|, LastUsed(marks), 1)] in members;
    NextHere(usable, LastUsed(marks));
  }

  lemma NextHere(dial: seq<bool>, last: nat)
    requires last < |dial| && dial[Onward(|dial|, last, 1)]
    ensures Next(dial, last) == Onward(|dial|, last, 1)
  {
  }

  lemma OnwardNext(c: nat, j: nat, n: nat)
    requires j < c && n + 1 < c
    ensures Onward(c, Onward(c, j, n), 1) == Onward(c, j, n + 1)
  {
  }

  /** With all members usable, the searches go around: the one `n` searches on is `n` places on. */
  lemma {:induction false} GoesAround(inGroup: seq<bool>, marks: seq<seq<bool>>, dials: seq<seq<bool>>, found: seq<int>,
                                      i: nat, n: nat)
    requires SearchRun(inGroup, marks, dials, found) && i + n < |dials| && n < |Members(inGroup, |inGroup|)|
    requires forall m :: i <= m <= i + n ==> AllUsable(inGroup, dials[m])
    ensures var members := Members(inGroup, |inGroup|);
            var last := LastUsed(At(marks[i], members));
            last < |members| && found[i + n] == members[Onward(|members|, Onward(|members|, last, 1), n)]
  {
    hide SearchAt, Searched, Members, LastUsed, AllUsable, Onward;
    OneSearch(inGroup, marks, dials, found, i + n);
    FindsNext(marks[i + n], marks[i + n + 1], inGroup, dials[i + n], found[i + n]);
    var members := Members(inGroup, |inGroup|);
    var c := |members|;
    if n == 0 {
      OnwardNone(c, Onward(c, LastUsed(At(marks[i], members)), 1));
    } else {
      GoesAround(inGroup, marks, dials, found, i, n - 1);
      OneSearch(inGroup, marks, dials, found, i + n - 1);
      HandsOver(marks[i + n - 1], marks[i + n], inGroup, dials[i + n - 1], found[i + n - 1]);
      var start := Onward(c, LastUsed(At(marks[i], members)), 1);
      SamePlace(inGroup, LastUsed(At(marks[i + n], members)), Onward(c, start, n - 1));
      OnwardNext(c, start, n - 1);
    }
  }

  lemma OnwardNone(c: nat, j: nat)
    requires j < c
    ensures Onward(c, j, 0) == j
  {
  }

  lemma OnwardTo(c: nat, j: nat, p: nat) returns (n: nat)
    requires j < c && p < c
    ensures n < c && Onward(c, j, n) == p
  {
    n := if p >= j then p - j else p + c - j;
  }

  lemma OnwardOnce(c: nat, j: nat, m: nat, n: nat)
    requires j < c && m < c && n < c && Onward(c, j, m) == Onward(c, j, n)
    ensures m == n
  {
  }

  /** As many searches as members, all of them usable, find each member once, whatever was marked before. */
  lemma EachOnce(inGroup: seq<bool>, marks: seq<seq<bool>>, dials: seq<seq<bool>>, found: seq<int>, i: nat, d: nat)
    requires SearchRun(inGroup, marks, dials, found) && i + |Members(inGroup, |inGroup|)| <= |dials|
    requires forall m :: i <= m < i + |Members(inGroup, |inGroup|)| ==> AllUsable(inGroup, dials[m])
    requires d in Members(inGroup, |inGroup|)
    ensures var c := |Members(inGroup, |inGroup|)|;
            exists n :: i <= n < i + c && found[n] == d && forall m :: i <= m < i + c && found[m] == d ==> m == n
  {
    hide SearchAt, AllUsable, LastUsed, Onward, Members, PlaceOf;
    var members := Members(inGroup, |inGroup|);
    var c, p := |members|, PlaceOf(members, d);
    GoesAround(inGroup, marks, dials, found, i, 0);
    var start := Onward(c, LastUsed(At(marks[i], members)), 1);
    var n := OnwardTo(c, start, p);
    forall m | i <= m < i + c
      ensures found[m] == d <==> m == i + n
    {
      GoesAround(inGroup, marks, dials, found, i, m - i);
      if found[m] == d {
        SamePlace(inGroup, Onward(c, start, m - i), p);
        OnwardOnce(c, start, m - i, n);
      }
    }
    assert found[i + n] == d;
  }
}
