/**
 The circular buffer of ringbuffer.c and ringbuffer.h.

 `Content()` is the sequence of elements waiting to be read, wherever the storage wraps.
 Pointers into the storage are offsets.
 */
module RingBuffer {
  import opened Search
  import opened WrapSearch
  import opened RingCells

  /**
   Where the search of the source finds the pattern in `content`, or -1, when the physical end
   of the storage comes after `room` elements; `after` is the memory that follows the pattern.
   */
  function FoundIn<T(==)>(content: seq<T>, room: nat, pattern: seq<T>, after: seq<T>): (k: int)
    requires |pattern| <= |after| + 2
    ensures k == -1 || (0 <= k && k + |pattern| <= |content|)
  {
    var cut := if room < |content| then room else |content|;
    if pattern == [] then -1
    else FindAcross(content[..cut], content[cut..], |pattern|, pattern + after)
  }

  /** The straddle loop: the offset of the match across the end of the storage, or -1. */
  method SearchStraddle<T(==)>(a: seq<T>, b: seq<T>, len: nat, mem: seq<T>) returns (r: int)
    requires 2 <= len <= |a| + |b| && len <= |mem| && 2 * len <= |mem| + 2 && b != []
    ensures r == Straddle(a, b, len, mem, if len <= |a| then 1 else len - |a|)
  {
    var i := if len <= |a| then 1 else len - |a|;
    var base := |a| + i - len;
    ghost var i0 := i;
    while i < len
      invariant i0 <= i <= len && i <= |b| && base == |a| + i - len >= 0
      invariant Straddle(a, b, len, mem, i0) == Straddle(a, b, len, mem, i)
    {
      if a[base..] == mem[..len - i] && b[..i] == mem[i..2 * i] {
        return base;
      }
      if |b| == i {
        NothingBeyond(a, b, len, mem, i + 1);
        return -1;
      }
      base := base + 1;
      i := i + 1;
    }
    r := -1;
  }

  /** The search over a content that is `a` up to the end of the storage and `b` after it. */
  method SearchAcross<T(==)>(a: seq<T>, b: seq<T>, pattern: seq<T>, mem: seq<T>) returns (k: int)
    requires |pattern| != 1 && pattern <= mem && 2 * |pattern| <= |mem| + 2
    ensures k == if pattern == [] then -1 else FindAcross(a, b, |pattern|, mem)
  {
    var len := |pattern|;
    assert mem[..len] == pattern;
    k := -1;
    if len > 0 && |a| + |b| >= len {
      if b != [] {
        k := Find(a, pattern);
        if k == -1 {
          k := SearchStraddle(a, b, len, mem);
        }
        if k == -1 && |b| >= len {
          k := Find(b, pattern);
          if k != -1 {
            k := |a| + k;
          }
        }
      } else {
        k := Find(a, pattern);
      }
    } else if len > 0 && b != [] {
      TooShort(a, b, len, mem);
    }
  }

  class RingBuffer<T(==,!new)> {
    const buffer: array<T>
    const size: nat
    var used: nat
    var read: nat
    var write: nat

    ghost predicate Valid()
      reads this
    {
      && buffer.Length == size
      && used <= size
      && (read < size || (read == 0 && size == 0))
      && write <= size
      && Follows(size, read, used, write)
    }

    ghost function Content(): (s: seq<T>)
      reads this, buffer
      requires Valid()
    {
      ContentOf(buffer[..], read, used)
    }

    /** The vectors denote the content before offset `k`; there are none iff `k` is -1. */
    ghost predicate Covers(k: int, v: Vectors)
      reads this, buffer
      requires Valid()
    {
      CoversUpTo(buffer[..], read, used, k, v)
    }

    constructor (storage: array<T>)
      ensures Valid() && buffer == storage && size == storage.Length
      ensures used == 0 && read == 0 && Content() == []
    {
      buffer := storage;
      size := storage.Length;
      used, read, write := 0, 0, 0;
    }

    function Free(): nat
      reads this
      requires Valid()
    {
      size - used
    }

    // ============================ READ =============================

    /** 0 if the content starts with `mem`, 1 if it does not, -1 if too little is there to tell. */
    method MemCmp(mem: seq<T>) returns (res: int)
      requires Valid()
      ensures res == if mem == [] || used < |mem| then -1 else if mem <= Content() then 0 else 1
    {
      var len, cells := |mem|, buffer[..];
      if used > 0 && len > 0 && used >= len {
        ContentPrefix(cells, read, used, len);
        ContentParts(cells, read, len);
        assert mem <= Content() <==> mem == ContentOf(cells, read, len);
        if read + len > size {
          var tmp := size - read;
          assert mem == mem[..tmp] + mem[tmp..];
          if cells[read..] == mem[..tmp] {
            if cells[..len - tmp] == mem[tmp..] {
              return 0;
            }
          }
        } else {
          if cells[read..read + len] == mem {
            return 0;
          }
        }
        return 1;
      }
      return -1;
    }

    /** Vectors over the first `len` elements, none when `len` is 0 or fewer are there. */
    method ReadN(len: nat) returns (v: Vectors)
      requires Valid()
      ensures Covers(if len == 0 || used < len then -1 else len, v)
    {
      if used < len {
        return NoVec;
      }
      if len > 0 {
        UpToCovers(buffer[..], read, used, len);
        if read + len > size {
          return Two(Iov(read, size - read), Iov(0, len - (size - read)));
        } else {
          return One(Iov(read, len));
        }
      }
      return NoVec;
    }

    method ReadAll() returns (v: Vectors)
      requires Valid()
      ensures Covers(if used == 0 then -1 else used, v)
    {
      if used > 0 {
        UpToCovers(buffer[..], read, used, used);
        if read + used > size {
          return Two(Iov(read, size - read), Iov(0, used - (size - read)));
        } else {
          return One(Iov(read, used));
        }
      }
      return NoVec;
    }

    /** Vectors over the content before the first `c`, none iff `c` does not occur. */
    method ReadUntilChar(c: T) returns (v: Vectors)
      requires Valid()
      ensures Covers(FindChar(Content(), c), v)
    {
      var cells := buffer[..];
      var a, b := BeforeWrap(cells, read, used), AfterWrap(cells, read, used);
      ContentParts(cells, read, used);
      FindCharParts(a, b, c);
      v := NoVec;
      var k := FindChar(a, c);
      if k >= 0 {
        UpToCovers(cells, read, used, k);
        v := One(Iov(read, k));
      } else {
        k := FindChar(b, c);
        if k >= 0 {
          UpToCovers(cells, read, used, |a| + k);
          v := Two(Iov(read, |a|), Iov(0, k));
        }
      }
    }

    /**
     Vectors over the content before the pattern as the source searches for it; `after` is the
     memory that follows the pattern. WrapSearch says when this is the first occurrence.
     */
    method ReadUntilMem(pattern: seq<T>, after: seq<T>) returns (v: Vectors)
      requires Valid() && |pattern| <= |after| + 2
      ensures Covers(FoundIn(Content(), size - read, pattern, after), v)
    {
      var cells, mem := buffer[..], pattern + after;
      var a, b := BeforeWrap(cells, read, used), AfterWrap(cells, read, used);
      ContentParts(cells, read, used);
      assert a == Content()[..|a|] && b == Content()[|a|..];
      if |pattern| == 1 {
        SingleByte(a, b, mem);
        v := ReadUntilChar(pattern[0]);
      } else {
        var k := SearchAcross(a, b, pattern, mem);
        v := NoVec;
        if k != -1 {
          v := if k <= |a| then One(Iov(read, k)) else Two(Iov(read, |a|), Iov(0, k - |a|));
          assert v == UpTo(size, read, k);
          UpToCovers(cells, read, used, k);
        }
      }
    }

    /** Drops up to `len` elements from the front. */
    method ReadUpd(len: nat) returns (n: nat)
      requires Valid()
      modifies this
      ensures Valid()
      ensures n == if old(used) < len then old(used) else len
      ensures used == old(used) - n && Content() == old(Content())[n..]
      ensures read == if n == 0 then old(read) else if used == 0 then 0 else Advanced(size, old(read), n)
      ensures write == if n > 0 && used == 0 then 0 else old(write)
    {
      n := len;
      if used < n {
        n := used;
      }
      if n > 0 {
        ContentAdvanced(buffer[..], read, used, n);
        NoContent(buffer[..], 0);
        NoContent(buffer[..], Advanced(size, read, n));
        hide ContentOf;
        used := used - n;
        if used == 0 {
          read := 0;
          write := 0;
        } else {
          var s := read + n;
          if s >= size {
            read := s - size;
          } else {
            read := s;
          }
        }
      }
    }

    // ============================ WRITE ============================

    /** Vectors over all the free cells, in the order they will be filled. */
    method WriteVectors() returns (v: Vectors)
      requires Valid()
      ensures v == if Free() == 0 then NoVec else UpTo(size, write, Free())
    {
      var free := Free();
      if free > 0 {
        if write + free > size {
          return Two(Iov(write, size - write), Iov(0, free - (size - write)));
        } else {
          return One(Iov(write, free));
        }
      }
      return NoVec;
    }

    /** Counts up to `len` cells after the content as written; `write` may become `size`. */
    method WriteUpd(len: nat) returns (n: nat)
      requires Valid()
      modifies this
      ensures Valid() && read == old(read) && used == old(used) + n
      ensures n == if old(Free()) < len then old(Free()) else len
    {
      n := len;
      if Free() < n {
        n := Free();
      }
      if n > 0 {
        var s := write + n;
        if s > size {
          write := s - size;
        } else {
          write := s;
        }
        used := used + n;
      }
    }

    /** Puts `data` into the cells from offset `at`. */
    method Store(at: nat, data: seq<T>)
      requires at + |data| <= buffer.Length
      modifies buffer
      ensures buffer[..] == Stored(old(buffer[..]), at, data)
    {
      forall k | 0 <= k < |data| {
        buffer[at + k] := data[k];
      }
    }

    /** The two branches of `rb_write_core` that call the write method. */
    method Apply(at: nat, data: seq<T>, m: Method<T>)
      requires buffer.Length == size && at <= size && |data| <= size && Fills(m)
      modifies buffer
      ensures buffer[..] == Applied(old(buffer[..]), at, data, m)
    {
      hide Applied, Stored;
      var cells, cut := buffer[..], size - at;
      if |data| > cut {
        AppliedWrapped(cells, at, data, m, cut);
        var first, second := m(cells[at..], data[..cut]), m(cells[..|data| - cut], data[cut..]);
        Store(at, first);
        Store(0, second);
      } else {
        AppliedStraight(cells, at, data, m);
        Store(at, m(cells[at..at + |data|], data));
      }
    }

    /** Hands the free cells after the content to the write method `m`. */
    method WriteCore(data: seq<T>, m: Method<T>) returns (n: nat)
      requires Valid() && Fills(m)
      modifies this, buffer
      ensures Valid() && read == old(read) && used == old(used) + n
      ensures n == if old(Free()) < |data| then old(Free()) else |data|
      ensures write == if n > 0 then Advanced(size, old(write), n) else old(write)
      ensures buffer[..] == if n > 0 then Applied(old(buffer[..]), old(write), data[..n], m) else old(buffer[..])
    {
      n := |data|;
      if Free() < n {
        n := Free();
      }
      if n > 0 {
        Apply(write, data[..n], m);
        var s := write + n;
        if s > size {
          write := s - size;
        } else if s == size {
          write := 0;
        } else {
          write := s;
        }
        used := used + n;
      }
    }

    /** `rb_write`. */
    method Write(data: seq<T>) returns (n: nat)
      requires Valid()
      modifies this, buffer
      ensures Valid() && read == old(read) && used == old(used) + n
      ensures n == if old(Free()) < |data| then old(Free()) else |data|
      ensures write == if n > 0 then Advanced(size, old(write), n) else old(write)
      ensures Content() == old(Content()) + data[..n]
    {
      ghost var fit := if Free() < |data| then Free() else |data|;
      CopyAppends(buffer[..], read, used, write, data[..fit]);
      n := WriteCore(data, Copied);
    }

    /** `readv` that stops after `data`: the vectors are filled in order. */
    method Scatter(v: Vectors, data: seq<T>)
      requires Valid() && data != [] && |data| <= Free() && v == UpTo(size, write, Free())
      modifies buffer
      ensures buffer[..] == Placed(old(buffer[..]), write, data)
    {
      PlacedByStores(buffer[..], write, data);
      if v.One? || |data| <= v.first.len {
        Store(v.first.base, data);
      } else {
        Store(v.first.base, data[..v.first.len]);
        Store(v.second.base, data[v.first.len..]);
      }
    }

    /** What `at_read` does when `readv` delivers `data`. */
    method Receive(data: seq<T>)
      requires Valid() && |data| <= Free()
      modifies this, buffer
      ensures Valid() && read == old(read) && Content() == old(Content()) + data
    {
      if data != [] {
        PlacedAppends(buffer[..], read, used, write, data);
        var v := WriteVectors();
        Scatter(v, data);
        var n := WriteUpd(|data|);
      }
    }
  }
}
