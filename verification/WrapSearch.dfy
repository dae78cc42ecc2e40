/**
 What rb_read_until_mem_iov finds when the content of the ring is `a` up to the physical
 end of the storage and goes on with `b` at its start.

 For a match that straddles the end, with `i` bytes of it in `b`, the source compares
 those bytes with the ones at `mem + i` instead of `mem + len - i` (ringbuffer.c:183),
 so for long patterns it also reads the memory that follows the pattern.
 `mem` is the pattern with that memory.
 */
module WrapSearch {
  import opened Search

  /** The comparison of the straddle loop, with `i` bytes of the pattern beyond the end. */
  predicate Accepts<T(==)>(a: seq<T>, b: seq<T>, len: nat, mem: seq<T>, i: nat)
    requires i < len <= |mem| && 2 * len <= |mem| + 2
  {
    len <= |a| + i && i <= |b| && a[|a| + i - len..] == mem[..len - i] && b[..i] == mem[i..2 * i]
  }

  /** The straddle loop: the offset of the first accepted position, trying `i`, `i + 1`, ... */
  function Straddle<T(==)>(a: seq<T>, b: seq<T>, len: nat, mem: seq<T>, i: nat): (r: int)
    requires 1 <= i && len <= |mem| && 2 * len <= |mem| + 2
    ensures r == -1 || (|a| + i - len <= r < |a| && 0 <= r && r + len <= |a| + |b|)
    decreases len - i
  {
    if i >= len then -1
    else if Accepts(a, b, len, mem, i) then |a| + i - len
    else Straddle(a, b, len, mem, i + 1)
  }

  lemma {:induction false} StraddleIsFirst<T>(a: seq<T>, b: seq<T>, len: nat, mem: seq<T>, i: nat)
    requires 1 <= i && len <= |mem| && 2 * len <= |mem| + 2
    ensures var r := Straddle(a, b, len, mem, i);
            && (r != -1 ==> Accepts(a, b, len, mem, r + len - |a|))
            && forall j :: i <= j < len && (r == -1 || j < r + len - |a|) ==> !Accepts(a, b, len, mem, j)
    decreases len - i
  {
    if i < len && !Accepts(a, b, len, mem, i) {
      StraddleIsFirst(a, b, len, mem, i + 1);
    }
  }

  /** The offset the source finds, or -1. */
  function FindAcross<T(==)>(a: seq<T>, b: seq<T>, len: nat, mem: seq<T>): (r: int)
    requires len <= |mem| && 2 * len <= |mem| + 2
    ensures r == -1 || (0 <= r && r + len <= |a| + |b|)
  {
    var p := Find(a, mem[..len]);
    if p != -1 || b == [] then p
    else
      var q := Straddle(a, b, len, mem, if len <= |a| then 1 else len - |a|);
      if q != -1 then q
      else
        var r := Find(b, mem[..len]);
        if r == -1 then -1 else |a| + r
  }

  /** The bytes compared at `mem + i` are the ones that belong at `mem + len - i`. */
  ghost predicate SelfSimilar<T(!new)>(len: nat, mem: seq<T>)
    requires len <= |mem| && 2 * len <= |mem| + 2
  {
    forall i :: 1 <= i < len ==> mem[i..2 * i] == mem[len - i..len]
  }

  /** An occurrence in the whole content is one in `a`, one in `b`, or one that straddles. */
  lemma OccurrenceCases<T>(a: seq<T>, b: seq<T>, pattern: seq<T>, k: nat)
    ensures k + |pattern| <= |a| ==> (OccursAt(a + b, pattern, k) <==> OccursAt(a, pattern, k))
    ensures k >= |a| ==> (OccursAt(a + b, pattern, k) <==> OccursAt(b, pattern, k - |a|))
    ensures k < |a| < k + |pattern| <= |a + b| ==>
              var i := k + |pattern| - |a|;
              (OccursAt(a + b, pattern, k) <==>
                 a[k..] == pattern[..|pattern| - i] && b[..i] == pattern[|pattern| - i..])
  {
    if k + |pattern| <= |a| {
      assert (a + b)[k..k + |pattern|] == a[k..k + |pattern|];
    } else if k >= |a| {
      if k + |pattern| <= |a + b| {
        assert (a + b)[k..k + |pattern|] == b[k - |a|..k - |a| + |pattern|];
      }
    } else if k + |pattern| <= |a + b| {
      var i := k + |pattern| - |a|;
      assert (a + b)[k..k + |pattern|] == a[k..] + b[..i];
      assert pattern == pattern[..|pattern| - i] + pattern[|pattern| - i..];
    }
  }

  lemma StraddleCase<T(!new)>(a: seq<T>, b: seq<T>, len: nat, mem: seq<T>, k: nat)
    requires len <= |mem| && 2 * len <= |mem| + 2 && SelfSimilar(len, mem)
    requires k < |a| < k + len
    ensures OccursAt(a + b, mem[..len], k) <==> Accepts(a, b, len, mem, k + len - |a|)
  {
    var i := k + len - |a|;
    OccurrenceCases(a, b, mem[..len], k);
    assert mem[i..2 * i] == mem[..len][len - i..] && mem[..len - i] == mem[..len][..len - i];
  }

  lemma FoundAcrossOccurs<T(!new)>(a: seq<T>, b: seq<T>, len: nat, mem: seq<T>)
    requires 1 <= len <= |mem| && 2 * len <= |mem| + 2 && SelfSimilar(len, mem)
    ensures var r := FindAcross(a, b, len, mem); r == -1 || OccursAt(a + b, mem[..len], r)
  {
    var r := FindAcross(a, b, len, mem);
    if r != -1 {
      OccurrenceCases(a, b, mem[..len], r);
      FindFromIsFirst(a, mem[..len], 0);
      FindFromIsFirst(b, mem[..len], 0);
      if r < |a| < r + len {
        StraddleIsFirst(a, b, len, mem, if len <= |a| then 1 else len - |a|);
        StraddleCase(a, b, len, mem, r);
      }
    }
  }

  lemma NoneBeforeFound<T(!new)>(a: seq<T>, b: seq<T>, len: nat, mem: seq<T>, k: nat)
    requires 1 <= len <= |mem| && 2 * len <= |mem| + 2 && SelfSimilar(len, mem)
    requires var r := FindAcross(a, b, len, mem); r == -1 || k < r
    ensures !OccursAt(a + b, mem[..len], k)
  {
    OccurrenceCases(a, b, mem[..len], k);
    FindFromIsFirst(a, mem[..len], 0);
    FindFromIsFirst(b, mem[..len], 0);
    if k < |a| < k + len {
      StraddleIsFirst(a, b, len, mem, if len <= |a| then 1 else len - |a|);
      StraddleCase(a, b, len, mem, k);
    }
  }

  /** With a self-similar pattern the source finds the first occurrence, wherever it lies. */
  lemma FindAcrossSelfSimilar<T(!new)>(a: seq<T>, b: seq<T>, len: nat, mem: seq<T>)
    requires 1 <= len <= |mem| && 2 * len <= |mem| + 2 && SelfSimilar(len, mem)
    ensures FindAcross(a, b, len, mem) == Find(a + b, mem[..len])
  {
    var r := FindAcross(a, b, len, mem);
    FoundAcrossOccurs(a, b, len, mem);
    forall k: nat | r == -1 || k < r
      ensures !OccursAt(a + b, mem[..len], k)
    {
      NoneBeforeFound(a, b, len, mem, k);
    }
    FindIs(a + b, mem[..len], r);
  }

  /** Exactly the self-similar patterns are found right in every ring. */
  lemma FindAcrossExact<T(!new)>(len: nat, mem: seq<T>)
    requires 1 <= len <= |mem| && 2 * len <= |mem| + 2
    ensures (forall a, b: seq<T> :: FindAcross(a, b, len, mem) == Find(a + b, mem[..len])) <==> SelfSimilar(len, mem)
  {
    if SelfSimilar(len, mem) {
      forall a, b: seq<T>
        ensures FindAcross(a, b, len, mem) == Find(a + b, mem[..len])
      {
        FindAcrossSelfSimilar(a, b, len, mem);
      }
    } else {
      var i :| 1 <= i < len && mem[i..2 * i] != mem[len - i..len];
      var a, b := mem[..len - i], mem[len - i..len];
      assert a + b == mem[..len] && OccursAt(a + b, mem[..len], 0);
      assert Find(a + b, mem[..len]) == 0;
      StraddleIsFirst(a, b, len, mem, i);
      assert !Accepts(a, b, len, mem, i);
      assert FindAcross(a, b, len, mem) != 0;
    }
  }

  // ---------- patterns that are nowhere self-similar ----------

  ghost predicate NowhereSimilar<T(!new)>(len: nat, mem: seq<T>)
    requires len <= |mem| && 2 * len <= |mem| + 2
  {
    forall i :: 1 <= i < len ==> mem[i..2 * i] != mem[len - i..len]
  }

  /** The pattern begins before the end of the storage and goes on there as it should, or as the source expects. */
  ghost predicate Confused<T(!new)>(a: seq<T>, b: seq<T>, len: nat, mem: seq<T>)
    requires len <= |mem| && 2 * len <= |mem| + 2
  {
    exists i :: 1 <= i < len && ConfusedAt(a, b, len, mem, i)
  }

  predicate ConfusedAt<T(==)>(a: seq<T>, b: seq<T>, len: nat, mem: seq<T>, i: nat)
    requires i < len <= |mem| && 2 * len <= |mem| + 2
  {
    && len <= |a| + i && i <= |b| && a[|a| + i - len..] == mem[..len - i]
    && (b[..i] == mem[len - i..len] || b[..i] == mem[i..2 * i])
  }

  lemma FoundBeforeWrap<T>(a: seq<T>, b: seq<T>, pattern: seq<T>)
    requires Find(a, pattern) != -1
    ensures Find(a + b, pattern) == Find(a, pattern)
  {
    var r := Find(a, pattern);
    FindFromIsFirst(a, pattern, 0);
    forall k: nat | k <= r
      ensures OccursAt(a + b, pattern, k) <==> OccursAt(a, pattern, k)
    {
      OccurrenceCases(a, b, pattern, k);
    }
    FindIs(a + b, pattern, r);
  }

  /** Where nothing confuses the loop, it accepts nothing and there is nothing to accept. */
  lemma NotConfused<T(!new)>(a: seq<T>, b: seq<T>, len: nat, mem: seq<T>)
    requires 2 <= len <= |mem| && 2 * len <= |mem| + 2 && Find(a, mem[..len]) == -1
    requires !Confused(a, b, len, mem)
    ensures FindAcross(a, b, len, mem) == Find(a + b, mem[..len])
  {
    var pattern, r := mem[..len], FindAcross(a, b, len, mem);
    NothingStraddles(a, b, len, mem);
    hide Confused, Find, FindAcross;
    FindFromIsFirst(b, pattern, 0);
    assert r == if Find(b, pattern) == -1 then -1 else |a| + Find(b, pattern);
    forall k: nat
      ensures OccursAt(a + b, pattern, k) <==> k >= |a| && OccursAt(b, pattern, k - |a|)
    {
      BehindOnly(a, b, len, mem, k);
    }
    assert IsFirst(b, pattern, 0, Find(b, pattern)) by { FindIs(b, pattern, Find(b, pattern)); }
    FindIs(a + b, pattern, r);
  }

  /** Then the search goes on behind the end. */
  lemma NothingStraddles<T(!new)>(a: seq<T>, b: seq<T>, len: nat, mem: seq<T>)
    requires 2 <= len <= |mem| && 2 * len <= |mem| + 2 && Find(a, mem[..len]) == -1
    requires !Confused(a, b, len, mem)
    ensures FindAcross(a, b, len, mem)
            == if Find(b, mem[..len]) == -1 then -1 else |a| + Find(b, mem[..len])
  {
    var i := if len <= |a| then 1 else len - |a|;
    StraddleIsFirst(a, b, len, mem, i);
    var q := Straddle(a, b, len, mem, i);
    if q != -1 {
      assert ConfusedAt(a, b, len, mem, q + len - |a|);
    }
    if b == [] {
      NoneInNothing(mem[..len]);
    }
  }

  lemma NoneInNothing<T>(pattern: seq<T>)
    requires pattern != []
    ensures Find([], pattern) == -1
  {
  }

  /** And nothing occurs but behind the end. */
  lemma BehindOnly<T(!new)>(a: seq<T>, b: seq<T>, len: nat, mem: seq<T>, k: nat)
    requires 2 <= len <= |mem| && 2 * len <= |mem| + 2 && Find(a, mem[..len]) == -1
    requires !Confused(a, b, len, mem)
    ensures OccursAt(a + b, mem[..len], k) <==> k >= |a| && OccursAt(b, mem[..len], k - |a|)
  {
    var pattern := mem[..len];
    FindFromIsFirst(a, pattern, 0);
    hide Find;
    OccurrenceCases(a, b, pattern, k);
    if k < |a| < k + len {
      var i := k + len - |a|;
      assert !ConfusedAt(a, b, len, mem, i);
      assert mem[len - i..len] == pattern[len - i..] && mem[..len - i] == pattern[..len - i];
    } else {
      assert !OccursAt(a, pattern, k);
    }
  }

  /** Where something confuses it, an occurrence across the end is passed over or a false one is taken. */
  lemma WhenConfused<T(!new)>(a: seq<T>, b: seq<T>, len: nat, mem: seq<T>)
    requires 2 <= len <= |mem| && 2 * len <= |mem| + 2 && Find(a, mem[..len]) == -1
    requires Confused(a, b, len, mem) && NowhereSimilar(len, mem)
    ensures FindAcross(a, b, len, mem) != Find(a + b, mem[..len])
  {
    hide FindAcross, Find, Straddle, SelfSimilar, NowhereSimilar;
    var r, t := FindAcross(a, b, len, mem), Find(a + b, mem[..len]);
    var i :| 1 <= i < len && ConfusedAt(a, b, len, mem, i);
    if Accepts(a, b, len, mem, i) {
      TakenAcross(a, b, len, mem, i);
      FindFromIsFirst(a + b, mem[..len], 0);
      FindIs(a + b, mem[..len], t);
      AcrossOnly(a, b, len, mem, r);
    } else {
      var k := OccursAcross(a, b, len, mem, i);
      FindIs(a + b, mem[..len], t);
      NotBefore(a, b, mem[..len], t);
      AcrossOnly(a, b, len, mem, t);
      if r == t {
        TakenFrom(a, b, len, mem);
      }
    }
  }

  /** What the loop takes is what it accepts. */
  lemma TakenFrom<T>(a: seq<T>, b: seq<T>, len: nat, mem: seq<T>)
    requires 2 <= len <= |mem| && 2 * len <= |mem| + 2 && Find(a, mem[..len]) == -1
    ensures var r := FindAcross(a, b, len, mem);
            r == -1 || r >= |a| || (|a| < r + len && Accepts(a, b, len, mem, r + len - |a|))
  {
    StraddleIsFirst(a, b, len, mem, if len <= |a| then 1 else len - |a|);
  }

  lemma TakenAcross<T>(a: seq<T>, b: seq<T>, len: nat, mem: seq<T>, i: nat)
    requires 2 <= len <= |mem| && 2 * len <= |mem| + 2 && Find(a, mem[..len]) == -1
    requires 1 <= i < len && Accepts(a, b, len, mem, i)
    ensures var r := FindAcross(a, b, len, mem);
            0 <= r < |a| < r + len && Accepts(a, b, len, mem, r + len - |a|)
  {
    StraddleIsFirst(a, b, len, mem, if len <= |a| then 1 else len - |a|);
  }

  lemma OccursAcross<T>(a: seq<T>, b: seq<T>, len: nat, mem: seq<T>, i: nat) returns (k: nat)
    requires 2 <= len <= |mem| && 2 * len <= |mem| + 2
    requires 1 <= i < len && ConfusedAt(a, b, len, mem, i) && !Accepts(a, b, len, mem, i)
    ensures k < |a| && OccursAt(a + b, mem[..len], k)
  {
    k := |a| + i - len;
    assert mem[len - i..len] == mem[..len][len - i..] && mem[..len - i] == mem[..len][..len - i];
    OccurrenceCases(a, b, mem[..len], k);
  }

  /** With no occurrence before the end, one that starts there straddles it. */
  lemma NotBefore<T>(a: seq<T>, b: seq<T>, pattern: seq<T>, t: int)
    requires Find(a, pattern) == -1 && 0 <= t < |a| && OccursAt(a + b, pattern, t)
    ensures |a| < t + |pattern|
  {
    FindFromIsFirst(a, pattern, 0);
    OccurrenceCases(a, b, pattern, t);
  }

  /** What the loop accepts is no occurrence. */
  lemma AcrossOnly<T(!new)>(a: seq<T>, b: seq<T>, len: nat, mem: seq<T>, k: int)
    requires 2 <= len <= |mem| && 2 * len <= |mem| + 2 && NowhereSimilar(len, mem)
    requires 0 <= k < |a| < k + len
    ensures !(Accepts(a, b, len, mem, k + len - |a|) && OccursAt(a + b, mem[..len], k))
  {
    var i := k + len - |a|;
    OccurrenceCases(a, b, mem[..len], k);
    assert mem[..len][len - i..] == mem[len - i..len];
    assert mem[i..2 * i] != mem[len - i..len];
  }

  /** For such a pattern the source is right exactly when it is found before the end or nothing confuses the loop. */
  lemma FindAcrossNowhereSimilar<T(!new)>(a: seq<T>, b: seq<T>, len: nat, mem: seq<T>)
    requires 2 <= len <= |mem| && 2 * len <= |mem| + 2 && NowhereSimilar(len, mem)
    ensures FindAcross(a, b, len, mem) == Find(a + b, mem[..len])
            <==> Find(a, mem[..len]) != -1 || !Confused(a, b, len, mem)
  {
    if Find(a, mem[..len]) != -1 {
      FoundBeforeWrap(a, b, mem[..len]);
    } else if Confused(a, b, len, mem) {
      WhenConfused(a, b, len, mem);
    } else {
      NotConfused(a, b, len, mem);
    }
  }

  // ---------- for the method ----------

  /** Whatever the memory after the pattern, what is found starts like the pattern. */
  lemma FoundStartsAlike<T>(a: seq<T>, b: seq<T>, len: nat, mem: seq<T>)
    requires 1 <= len <= |mem| && 2 * len <= |mem| + 2
    ensures var r := FindAcross(a, b, len, mem); r != -1 ==> (a + b)[r] == mem[0]
  {
    FindFromIsFirst(a, mem[..len], 0);
    FindFromIsFirst(b, mem[..len], 0);
    var r := FindAcross(a, b, len, mem);
    if Find(a, mem[..len]) == -1 && b != [] {
      var i := if len <= |a| then 1 else len - |a|;
      StraddleIsFirst(a, b, len, mem, i);
      var q := Straddle(a, b, len, mem, i);
      if q != -1 {
        assert a[q..][0] == mem[..|a| - q][0];
      }
    }
  }

  /** Once `b` is used up no further position can be accepted, in the loop or after it. */
  lemma NothingBeyond<T>(a: seq<T>, b: seq<T>, len: nat, mem: seq<T>, i: nat)
    requires 1 <= i && len <= |mem| && 2 * len <= |mem| + 2
    requires |b| < i
    ensures Straddle(a, b, len, mem, i) == -1
    decreases len - i
  {
    if i < len {
      NothingBeyond(a, b, len, mem, i + 1);
    }
  }

  lemma TooShort<T>(a: seq<T>, b: seq<T>, len: nat, mem: seq<T>)
    requires len <= |mem| && 2 * len <= |mem| + 2 && |a| + |b| < len
    ensures FindAcross(a, b, len, mem) == -1
  {
    NothingBeyond(a, b, len, mem, len - |a|);
  }

  lemma SingleByte<T(!new)>(a: seq<T>, b: seq<T>, mem: seq<T>)
    requires 1 <= |mem|
    ensures FindAcross(a, b, 1, mem) == FindChar(a + b, mem[0])
  {
    FindAcrossSelfSimilar(a, b, 1, mem);
    FindCharIsFirst(a + b, mem[0]);
    var r := FindChar(a + b, mem[0]);
    assert mem[..1] == [mem[0]];
    assert forall k :: 0 <= k < |a + b| ==> (OccursAt(a + b, mem[..1], k) <==> (a + b)[k] == mem[0]);
    FindIs(a + b, mem[..1], r);
  }
}
