/**
 The storage of a circular buffer as a sequence of cells: what lies in it from the read
 position on, and what overwriting a run of cells that may pass its end does to that.
 */
module RingCells {

  /** One element of an I/O vector: `len` cells of the storage from offset `base`. */
  datatype Iov = Iov(base: nat, len: nat)

  /** The vectors a call filled in; the number of vectors is the source's return value. */
  datatype Vectors = NoVec | One(first: Iov) | Two(first: Iov, second: Iov) {
    function Total(): nat {
      match this
      case NoVec => 0
      case One(a) => a.len
      case Two(a, b) => a.len + b.len
    }

    /** Every vector lies inside a storage of `n` cells. */
    predicate Fits(n: nat) {
      && (!NoVec? ==> first.base + first.len <= n)
      && (Two? ==> second.base + second.len <= n)
    }

    /** The cells the vectors denote, gathered in order. */
    function Gather<T>(cells: seq<T>): seq<T>
      requires Fits(|cells|)
    {
      match this
      case NoVec => []
      case One(a) => cells[a.base..a.base + a.len]
      case Two(a, b) => cells[a.base..a.base + a.len] + cells[b.base..b.base + b.len]
    }
  }

  // ---------- reading ----------

  /** The cells of a storage in order from position `read`, once around. */
  function Rotated<T>(cells: seq<T>, read: nat): (s: seq<T>)
    requires read <= |cells|
    ensures |s| == |cells|
  {
    cells[read..] + cells[..read]
  }

  /** The `used` elements waiting from position `read`. */
  function ContentOf<T>(cells: seq<T>, read: nat, used: nat): (s: seq<T>)
    requires read <= |cells| && used <= |cells|
    ensures |s| == used
  {
    Rotated(cells, read)[..used]
  }

  /** The part of the content up to the physical end of the storage. */
  function BeforeWrap<T>(cells: seq<T>, read: nat, used: nat): (s: seq<T>)
    requires read <= |cells| && used <= |cells|
  {
    if read + used > |cells| then cells[read..] else cells[read..read + used]
  }

  /** The part of the content that continues at offset 0. */
  function AfterWrap<T>(cells: seq<T>, read: nat, used: nat): (s: seq<T>)
    requires read <= |cells| && used <= |cells|
  {
    if read + used > |cells| then cells[..read + used - |cells|] else []
  }

  lemma ContentParts<T>(cells: seq<T>, read: nat, used: nat)
    requires read <= |cells| && used <= |cells|
    ensures ContentOf(cells, read, used) == BeforeWrap(cells, read, used) + AfterWrap(cells, read, used)
  {
  }

  lemma ContentPrefix<T>(cells: seq<T>, read: nat, used: nat, len: nat)
    requires read <= |cells| && len <= used <= |cells|
    ensures ContentOf(cells, read, used)[..len] == ContentOf(cells, read, len)
  {
  }

  /** Where the read position is after `n` more elements. */
  function Advanced(size: nat, read: nat, n: nat): nat {
    if read + n >= size then read + n - size else read + n
  }

  /** Dropping `n` of the elements from the front leaves the others waiting. */
  lemma ContentAdvanced<T>(cells: seq<T>, read: nat, used: nat, n: nat)
    requires read < |cells| && n <= used <= |cells|
    ensures Advanced(|cells|, read, n) <= |cells|
    ensures ContentOf(cells, Advanced(|cells|, read, n), used - n) == ContentOf(cells, read, used)[n..]
  {
  }

  lemma NoContent<T>(cells: seq<T>, read: nat)
    requires read <= |cells|
    ensures ContentOf(cells, read, 0) == []
  {
  }

  /** The vectors cover the content before offset `k`; there are none iff `k` is -1. */
  ghost predicate CoversUpTo<T>(cells: seq<T>, read: nat, used: nat, k: int, v: Vectors)
    requires read <= |cells| && used <= |cells|
  {
    if k == -1 then v.NoVec?
    else !v.NoVec? && v.Total() == k <= used && v.Fits(|cells|) && v.Gather(cells) == ContentOf(cells, read, used)[..k]
  }

  /** The vectors for the first `k` elements: the second one starts where the storage wraps. */
  function UpTo(size: nat, read: nat, k: nat): (v: Vectors)
    requires read <= size
  {
    if read + k > size then Two(Iov(read, size - read), Iov(0, k - (size - read))) else One(Iov(read, k))
  }

  lemma UpToCovers<T>(cells: seq<T>, read: nat, used: nat, k: nat)
    requires read <= |cells| && k <= used <= |cells|
    ensures CoversUpTo(cells, read, used, k, UpTo(|cells|, read, k))
    ensures read + k == |cells| ==> CoversUpTo(cells, read, used, k, Two(Iov(read, k), Iov(0, 0)))
  {
    ContentParts(cells, read, k);
    ContentPrefix(cells, read, used, k);
  }

  // ---------- writing ----------

  /** `n` cells in order from position `at`, continuing at offset 0. */
  function Taken<T>(cells: seq<T>, at: nat, n: nat): (s: seq<T>)
    requires at <= |cells| && n <= |cells|
    ensures |s| == n
  {
    if at + n > |cells| then cells[at..] + cells[..at + n - |cells|] else cells[at..at + n]
  }

  /** The storage after `data` has been put there from position `at`, continuing at offset 0. */
  function Placed<T>(cells: seq<T>, at: nat, data: seq<T>): (s: seq<T>)
    requires at <= |cells| && |data| <= |cells|
    ensures |s| == |cells|
  {
    var cut := |cells| - at;
    if |data| > cut then data[cut..] + cells[|data| - cut..at] + data[..cut]
    else cells[..at] + data + cells[at + |data|..]
  }

  /** The storage after one run of cells has been overwritten. */
  function Stored<T>(cells: seq<T>, at: nat, data: seq<T>): (s: seq<T>)
    requires at + |data| <= |cells|
    ensures |s| == |cells|
  {
    cells[..at] + data + cells[at + |data|..]
  }

  lemma PlacedByStores<T>(cells: seq<T>, at: nat, data: seq<T>)
    requires at <= |cells| && |data| <= |cells|
    ensures var cut := |cells| - at;
            Placed(cells, at, data) == if |data| > cut then Stored(Stored(cells, at, data[..cut]), 0, data[cut..])
                                       else Stored(cells, at, data)
  {
  }

  lemma PlacedAt<T>(cells: seq<T>, at: nat, data: seq<T>, j: nat)
    requires at <= |cells| && |data| <= |cells| && j < |cells|
    ensures Placed(cells, at, data)[j] ==
            if at <= j < at + |data| then data[j - at]
            else if j + |cells| < at + |data| then data[j + |cells| - at]
            else cells[j]
  {
  }

  /** Position `at` lies `off` cells after position `read`, going around once at most. */
  predicate Follows(size: nat, read: nat, off: nat, at: nat) {
    at == read + off || at + size == read + off
  }

  /** Seen from the read position, the cells taken `off` after it are consecutive... */
  lemma TakenFromRing<T>(cells: seq<T>, read: nat, off: nat, at: nat, n: nat)
    requires read <= |cells| && at <= |cells| && off + n <= |cells| && Follows(|cells|, read, off, at)
    ensures Taken(cells, at, n) == Rotated(cells, read)[off..off + n]
  {
  }

  /** ...and so are the cells placed there; no other cell changes. */
  lemma PlacedInRing<T>(cells: seq<T>, read: nat, off: nat, at: nat, data: seq<T>)
    requires read <= |cells| && at <= |cells| && off + |data| <= |cells| && Follows(|cells|, read, off, at)
    ensures var r := Rotated(cells, read);
            Rotated(Placed(cells, at, data), read) == r[..off] + data + r[off + |data|..]
  {
    var r := Rotated(cells, read);
    var now := Rotated(Placed(cells, at, data), read);
    forall k | 0 <= k < |cells|
      ensures now[k] == (r[..off] + data + r[off + |data|..])[k]
    {
      PlacedAt(cells, at, data, if read + k < |cells| then read + k else read + k - |cells|);
    }
  }

  lemma PlacedAppends<T>(cells: seq<T>, read: nat, used: nat, at: nat, data: seq<T>)
    requires read <= |cells| && at <= |cells| && used + |data| <= |cells| && Follows(|cells|, read, used, at)
    ensures ContentOf(Placed(cells, at, data), read, used + |data|) == ContentOf(cells, read, used) + data
  {
    PlacedInRing(cells, read, used, at, data);
  }

  // ---------- write methods ----------

  /** A write method of `rb_write_f`: from the old cells and the data, the new cells. */
  type Method<!T> = (seq<T>, seq<T>) -> seq<T>

  /** A write method fills exactly the cells it is given. */
  ghost predicate Fills<T(!new)>(m: Method<T>) {
    forall s, d: seq<T> :: |s| == |d| ==> |m(s, d)| == |s|
  }

  /** `memmove` as a write method. */
  function Copied<T>(cells: seq<T>, data: seq<T>): seq<T> {
    data
  }

  /** What a write method leaves in a run of cells that is cut in two after `cut` of them. */
  function Spliced<T(!new)>(m: Method<T>, cells: seq<T>, data: seq<T>, cut: nat): (s: seq<T>)
    requires |cells| == |data| && Fills(m)
    ensures |s| == |data|
  {
    if |data| > cut then m(cells[..cut], data[..cut]) + m(cells[cut..], data[cut..]) else m(cells, data)
  }

  lemma SplicedCopy<T(!new)>(cells: seq<T>, data: seq<T>, cut: nat)
    requires |cells| == |data|
    ensures Spliced(Copied, cells, data, cut) == data
  {
    if |data| > cut {
      assert data[..cut] + data[cut..] == data;
    }
  }

  /** The storage after the `|data|` cells from position `at` went through the write method. */
  function Applied<T(!new)>(cells: seq<T>, at: nat, data: seq<T>, m: Method<T>): (s: seq<T>)
    requires at <= |cells| && |data| <= |cells| && Fills(m)
    ensures |s| == |cells|
  {
    Placed(cells, at, Spliced(m, Taken(cells, at, |data|), data, |cells| - at))
  }

  lemma AppliedWrapped<T(!new)>(cells: seq<T>, at: nat, data: seq<T>, m: Method<T>, cut: nat)
    requires at <= |cells| && |data| <= |cells| && Fills(m) && cut == |cells| - at < |data|
    ensures Applied(cells, at, data, m)
            == Stored(Stored(cells, at, m(cells[at..], data[..cut])), 0, m(cells[..|data| - cut], data[cut..]))
  {
    var taken := Taken(cells, at, |data|);
    assert taken[..cut] == cells[at..] && taken[cut..] == cells[..|data| - cut];
    var first, second := m(cells[at..], data[..cut]), m(cells[..|data| - cut], data[cut..]);
    assert (first + second)[..cut] == first && (first + second)[cut..] == second;
    hide Taken, Stored, Placed;
    PlacedByStores(cells, at, first + second);
  }

  lemma AppliedStraight<T(!new)>(cells: seq<T>, at: nat, data: seq<T>, m: Method<T>)
    requires at + |data| <= |cells| && Fills(m)
    ensures Applied(cells, at, data, m) == Stored(cells, at, m(cells[at..at + |data|], data))
  {
    hide Stored, Placed;
    PlacedByStores(cells, at, m(cells[at..at + |data|], data));
  }

  lemma AppliedInRing<T(!new)>(cells: seq<T>, read: nat, off: nat, at: nat, data: seq<T>, m: Method<T>)
    requires read <= |cells| && at <= |cells| && off + |data| <= |cells| && Fills(m)
    requires Follows(|cells|, read, off, at)
    ensures var r := Rotated(cells, read);
            Rotated(Applied(cells, at, data, m), read) ==
            r[..off] + Spliced(m, r[off..off + |data|], data, |cells| - at) + r[off + |data|..]
  {
    TakenFromRing(cells, read, off, at, |data|);
    PlacedInRing(cells, read, off, at, Spliced(m, Taken(cells, at, |data|), data, |cells| - at));
  }

  lemma CopyAppends<T(!new)>(cells: seq<T>, read: nat, used: nat, at: nat, data: seq<T>)
    requires read <= |cells| && at <= |cells| && used + |data| <= |cells| && Follows(|cells|, read, used, at)
    ensures ContentOf(Applied(cells, at, data, Copied), read, used + |data|) == ContentOf(cells, read, used) + data
  {
    SplicedCopy(Taken(cells, at, |data|), data, |cells| - at);
    PlacedAppends(cells, read, used, at, data);
  }
}
