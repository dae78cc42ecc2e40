/**
 First occurrence of a pattern in a sequence: what `memchr` and `memmem` compute.
 */
module Search {

  predicate OccursAt<T(==)>(s: seq<T>, pattern: seq<T>, k: int)
  {
    0 <= k && k + |pattern| <= |s| && s[k..k + |pattern|] == pattern
  }

  /** The offset of the first occurrence at or after `from`, or -1. */
  function FindFrom<T(==)>(s: seq<T>, pattern: seq<T>, from: nat): (r: int)
    ensures r == -1 || (from <= r && r + |pattern| <= |s|)
    decreases |s| - from
  {
    if from + |pattern| > |s| then -1
    else if s[from..from + |pattern|] == pattern then from
    else FindFrom(s, pattern, from + 1)
  }

  /** `memmem`: the offset of the first occurrence, or -1. */
  function Find<T(==)>(s: seq<T>, pattern: seq<T>): (r: int)
    ensures r == -1 || (0 <= r && r + |pattern| <= |s|)
  {
    FindFrom(s, pattern, 0)
  }

  /** `r` is the first occurrence at or after `from`, stated without reference to how it is found. */
  ghost predicate IsFirst<T>(s: seq<T>, pattern: seq<T>, from: nat, r: int)
  {
    && (r == -1 || (from <= r && OccursAt(s, pattern, r)))
    && forall j :: from <= j && (r == -1 || j < r) ==> !OccursAt(s, pattern, j)
  }

  lemma {:induction false} FindFromIsFirst<T>(s: seq<T>, pattern: seq<T>, from: nat)
    ensures IsFirst(s, pattern, from, FindFrom(s, pattern, from))
    decreases |s| - from
  {
    if from + |pattern| <= |s| && s[from..from + |pattern|] != pattern {
      FindFromIsFirst(s, pattern, from + 1);
    }
  }

  lemma FindIs<T>(s: seq<T>, pattern: seq<T>, r: int)
    ensures r == Find(s, pattern) <==> IsFirst(s, pattern, 0, r)
  {
    FindFromIsFirst(s, pattern, 0);
    if IsFirst(s, pattern, 0, r) {
      FirstIsUnique(s, pattern, r, Find(s, pattern));
    }
  }

  lemma FirstIsUnique<T>(s: seq<T>, pattern: seq<T>, r: int, q: int)
    requires IsFirst(s, pattern, 0, r) && IsFirst(s, pattern, 0, q)
    ensures r == q
  {
  }

  /** `memchr` over a run of cells: the offset of the first `c`, or -1. */
  function FindChar<T(==)>(s: seq<T>, c: T): (r: int)
    ensures r == -1 || 0 <= r < |s|
  {
    if s == [] then -1
    else if s[0] == c then 0
    else
      var r := FindChar(s[1..], c);
      if r == -1 then -1 else r + 1
  }

  lemma {:induction false} FindCharIsFirst<T>(s: seq<T>, c: T)
    ensures var r := FindChar(s, c);
            if r == -1 then c !in s else s[r] == c && c !in s[..r]
  {
    if s != [] && s[0] != c {
      FindCharIsFirst(s[1..], c);
      var r := FindChar(s[1..], c);
      if r != -1 {
        assert s[..r + 1] == [s[0]] + s[1..][..r];
      }
    }
  }

  lemma FindCharParts<T>(a: seq<T>, b: seq<T>, c: T)
    ensures FindChar(a + b, c) ==
            if FindChar(a, c) != -1 then FindChar(a, c)
            else if FindChar(b, c) != -1 then |a| + FindChar(b, c) else -1
  {
    if a == [] {
      assert a + b == b;
    } else {
      assert (a + b)[1..] == a[1..] + b;
      FindCharParts(a[1..], b, c);
    }
  }

  lemma OccursStart<T>(s: seq<T>, pattern: seq<T>, k: nat)
    requires pattern != []
    ensures OccursAt(s, pattern, k) ==> s[k] == pattern[0]
  {
    if OccursAt(s, pattern, k) {
      assert s[k] == s[k..k + |pattern|][0];
    }
  }

  lemma DropTwice<T>(s: seq<T>, n: nat, m: nat)
    requires n + m <= |s|
    ensures s[n..][m..] == s[n + m..]
  {
  }
}
