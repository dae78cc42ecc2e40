/**
 The audio mix buffer of mixbuffer.c: one ring that every stream writes at a position of its own.

 `Timeline()` is all the audio there was: what has been read and what is still in the ring.
 Reading leaves it unchanged; a write adds to what is there already and appends the rest.
 */
module MixBuffer {
  import opened RingCells
  import opened RingBuffer
  import opened Samples
  import opened MixSum

  const FRAME_SIZE: nat := 320

  lemma AdvancedEven(size: nat, read: nat, n: nat)
    requires read < size && n <= size && Even(size) && Even(read) && Even(n)
    ensures Even(Advanced(size, read, n))
  {
    EvenSum(read, n);
    EvenSum(read + n, size);
  }

  /** Mixing into the cells of a ring mixes into its content, wherever the storage wraps. */
  lemma MixedInRing(cells: seq<byte>, read: nat, used: nat, u: nat, at: nat, data: seq<byte>)
    requires read <= |cells| && at <= |cells| && u + |data| <= used <= |cells| && Follows(|cells|, read, u, at)
    requires Even(|cells| - at) && Fills<byte>(SaturatedSum)
    ensures ContentOf(Applied(cells, at, data, SaturatedSum), read, used)
            == Mixed(ContentOf(cells, read, used), u, data)
  {
    hide SaturatedSum, Spliced, Applied;
    var r, n := Rotated(cells, read), |data|;
    AppliedInRing(cells, read, u, at, data, SaturatedSum);
    SplicedSum(r[u..u + n], data, |cells| - at);
    assert r[..used][u..u + n] == r[u..u + n] && data[..n] == data && data[n..] == [];
    assert r[..used][u + n..] == r[u + n..][..used - u - n] && r[..used][..u] == r[..u];
  }

  lemma MixedNothing(audio: seq<byte>, at: nat)
    requires at <= |audio|
    ensures Mixed(audio, at, []) == audio
  {
    hide SaturatedSum;
  }

  /** Mixing what is there and appending the rest is one write. */
  lemma MixedThenAppended(audio: seq<byte>, at: nat, data: seq<byte>)
    requires at <= |audio| <= at + |data|
    ensures var m := |audio| - at; Mixed(audio, at, data[..m]) + data[m..] == Mixed(audio, at, data)
  {
    hide SaturatedSum;
    var m := |audio| - at;
    assert audio[at + m..] == [] && data[..m][..m] == data[..m] && data[..m][m..] == [];
  }

  /** What was played before does not take part in a write. */
  lemma MixedAfter(played: seq<byte>, content: seq<byte>, u: nat, data: seq<byte>)
    requires u <= |content|
    ensures played + Mixed(content, u, data) == Mixed(played + content, |played| + u, data)
  {
    hide SaturatedSum;
    var all, at := played + content, |played| + u;
    var m := if u + |data| < |content| then |data| else |content| - u;
    assert all[..at] == played + content[..u];
    assert all[at..at + m] == content[u..u + m] && all[at + m..] == content[u + m..];
  }

  /** The part of `used` bytes that is left after `len` of them were dropped. */
  function Behind(used: nat, len: nat): nat {
    if used > len then used - len else 0
  }

  lemma BehindAligned(size: nat, read: nat, was: nat, len: nat, used: nat)
    requires read < size && Even(was) && Even(len) && was <= used <= size
    ensures var u := Behind(was, len);
            && Even(u) && u <= Behind(used, len)
            && Advanced(size, read, u) < size && Follows(size, read, u, Advanced(size, read, u))
  {
    EvenSum(was, len);
  }

  lemma BehindLeft(used: nat, len: nat)
    ensures Behind(used, len) == used - if used < len then used else len
  {
  }

  lemma StartAdvanced(size: nat, read: nat, used: nat, n: nat)
    requires read < size && n <= used <= size && Even(size) && Even(read) && Even(n) && Even(used)
    ensures Even(0) && Even(used - n) && Even(Advanced(size, read, n)) && Advanced(size, read, n) < size
  {
    AdvancedEven(size, read, n);
    EvenSum(used, n);
  }

  lemma PlayedOn(played: seq<byte>, content: seq<byte>, n: nat)
    requires n <= |content|
    ensures (played + content[..n]) + content[n..] == played + content
  {
  }

  class MixStream {
    var used: nat
    var write: nat

    constructor ()
      ensures used == 0 && write == 0
    {
      used, write := 0, 0;
    }
  }

  class MixBuffer {
    const rb: RingBuffer<byte>
    var streams: seq<MixStream>
    var attached: int
    ghost var played: seq<byte>
    ghost var writes: seq<Write>

    /** A stream whose next byte goes `used` bytes after the read position. */
    ghost predicate Aligned(s: MixStream)
      reads rb, s
    {
      && s.used <= rb.used && Even(s.used)
      && s.write < rb.size && Follows(rb.size, rb.read, s.used, s.write)
    }

    ghost predicate Valid()
      reads this, rb, streams
    {
      && rb.Valid() && rb.size > 0 && rb.write < rb.size
      && Even(rb.size) && Even(rb.read) && Even(rb.used)
      && attached == |streams|
      && (forall i, j :: 0 <= i < j < |streams| ==> streams[i] != streams[j])
      && (forall s :: s in streams ==> Aligned(s))
    }

    ghost function Timeline(): seq<byte>
      reads this, rb, rb.buffer
      requires rb.Valid()
    {
      played + rb.Content()
    }

    /** The timeline is what the writes so far make of it. */
    ghost predicate Recorded()
      reads this, rb, rb.buffer
      requires rb.Valid()
    {
      Even(|played|) && Writable(writes) && Timeline() == Audio(writes)
    }

    /** Where in the timeline the next byte of the stream goes. */
    ghost function Position(s: MixStream): nat
      reads this, s
    {
      |played| + s.used
    }

    constructor (storage: array<byte>)
      requires storage.Length > 0 && Even(storage.Length)
      ensures Valid() && fresh(rb) && rb.buffer == storage
      ensures streams == [] && Timeline() == [] && writes == [] && Recorded()
    {
      rb := new RingBuffer(storage);
      streams, attached, played, writes := [], 0, [], [];
    }

    function Free(s: MixStream): int
      reads this, rb, s
    {
      rb.size - s.used
    }

    method Attach(s: MixStream)
      requires Valid() && Recorded() && s !in streams
      modifies this`streams, this`attached, s
      ensures Valid() && Recorded() && Timeline() == old(Timeline())
      ensures streams == old(streams) + [s]
      ensures Position(s) == |played| && s.used == 0
    {
      s.used := 0;
      s.write := rb.read;
      streams := streams + [s];
      attached := attached + 1;
    }

    /** `AST_LIST_REMOVE`. */
    method IndexOf(s: MixStream) returns (i: nat)
      requires s in streams
      ensures i < |streams| && streams[i] == s && s !in streams[..i]
    {
      i := 0;
      while streams[i] != s
        invariant i < |streams| && s !in streams[..i]
        decreases |streams| - i
      {
        i := i + 1;
      }
    }

    /** The other streams stay, in their order. */
    method Detach(s: MixStream)
      requires Valid() && Recorded() && s in streams
      modifies this`streams, this`attached
      ensures Valid() && Recorded() && Timeline() == old(Timeline())
      ensures s !in streams
      ensures exists i :: 0 <= i < |old(streams)| && old(streams)[i] == s
                          && streams == old(streams)[..i] + old(streams)[i + 1..]
    {
      hide Even, Writable, Audio, ContentOf, Aligned;
      attached := attached - 1;
      var i := IndexOf(s);
      ghost var was := streams;
      streams := streams[..i] + streams[i + 1..];
      assert forall k :: 0 <= k < |streams| ==> streams[k] == was[if k < i then k else k + 1];
      assert forall t :: t in streams ==> t in was;
    }

    /** The distance from a stream's write position to the physical end is even. */
    lemma EvenRoom(s: MixStream)
      requires Valid() && Aligned(s)
      ensures Even(rb.size - s.write)
    {
      EvenSum(rb.read, s.used);
      EvenSum(rb.size, rb.read + s.used);
      EvenSum(rb.size, rb.size - (rb.read + s.used));
    }

    /** `mixb_mix_write`: lends the ring the position of the stream and mixes. */
    method MixWrite(s: MixStream, data: seq<byte>) returns (n: nat)
      requires Valid() && s in streams && Even(|data|) && |data| <= rb.used - s.used
      modifies rb, rb.buffer, s
      ensures Valid() && rb.used == old(rb.used) && rb.read == old(rb.read) && rb.write == old(rb.write)
      ensures n == |data| && s.used == old(s.used) + n
      ensures rb.Content() == Mixed(old(rb.Content()), old(s.used), data)
    {
      hide Even, SaturatedSum, Mixed, Applied;
      var saveWrite, saveUsed := rb.write, rb.used;
      SaturatedSumFills();
      EvenRoom(s);
      EvenSum(s.used, |data|);
      MixedInRing(rb.buffer[..], rb.read, rb.used, s.used, s.write, data);
      MixedNothing(rb.Content(), s.used);
      rb.write := s.write;
      rb.used := s.used;
      assert data[..|data|] == data;
      n := rb.WriteCore(data, SaturatedSum);
      s.write := rb.write;
      s.used := rb.used;
      rb.used := saveUsed;
      rb.write := saveWrite;
      assert Aligned(s);
      assert forall t :: t in streams && t != s ==> Aligned(t);
    }

    /** `mixb_write`, on record. */
    method Write(s: MixStream, data: seq<byte>) returns (len: nat)
      requires Valid() && Recorded() && s in streams && Even(|data|)
      modifies this`writes, rb, rb.buffer, s
      ensures Valid() && Recorded() && rb.read == old(rb.read)
      ensures len == if old(Free(s)) < |data| then old(Free(s)) else |data|
      ensures s.used == old(s.used) + len
      ensures rb.used == if old(rb.used) < s.used then s.used else old(rb.used)
      ensures writes == old(writes) + [MixSum.Write(old(Position(s)), data[..len])]
      ensures Timeline() == Mixed(old(Timeline()), old(Position(s)), data[..len])
    {
      hide Even, Mixed, Writable, Audio, Aligned;
      EvenShare(s, data);
      len := MixOrAppend(s, data);
      OneMore(writes, MixSum.Write(old(Position(s)), data[..len]));
      writes := writes + [MixSum.Write(old(Position(s)), data[..len])];
    }

    lemma EvenShare(s: MixStream, data: seq<byte>)
      requires Valid() && Recorded() && s in streams && Even(|data|)
      ensures Even(Position(s)) && Even(Free(s)) && Position(s) <= End(writes)
    {
      hide Even, Writable, Audio;
      EvenSum(|played|, s.used);
      EvenSum(rb.size, s.used);
    }

    /** `mixb_write`: all of `data` the stream has room for. */
    method MixOrAppend(s: MixStream, data: seq<byte>) returns (len: nat)
      requires Valid() && s in streams && Even(|data|)
      modifies rb, rb.buffer, s
      ensures Valid() && rb.read == old(rb.read)
      ensures len == if old(Free(s)) < |data| then old(Free(s)) else |data|
      ensures s.used == old(s.used) + len
      ensures rb.used == if old(rb.used) < s.used then s.used else old(rb.used)
      ensures Timeline() == Mixed(old(Timeline()), old(Position(s)), data[..len])
    {
      hide Even, SaturatedSum, Mixed, Applied;
      len := |data|;
      EvenSum(rb.size, s.used);
      if Free(s) < len {
        len := Free(s);
      }
      MixedAfter(played, rb.Content(), s.used, data[..len]);
      MixedNothing(rb.Content(), s.used);
      if len > 0 {
        var maxMix := rb.used - s.used;
        if len > maxMix {
          EvenSum(rb.used, s.used);
          EvenSum(len, maxMix);
          EvenSum(rb.used, len - maxMix);
          MixedThenAppended(rb.Content(), s.used, data[..len]);
          assert data[..len][..maxMix] == data[..maxMix] && data[..len][maxMix..] == data[maxMix..len];
          if maxMix > 0 {
            var n := MixWrite(s, data[..maxMix]);
          }
          Append(s, data[maxMix..len]);
        } else {
          var n := MixWrite(s, data[..len]);
        }
      }
    }

    /** The plain copy after what is there: the stream is then the furthest. */
    method Append(s: MixStream, data: seq<byte>)
      requires Valid() && s in streams && s.used == rb.used && data != [] && |data| <= rb.size - rb.used
      requires Even(|data|)
      modifies rb, rb.buffer, s
      ensures Valid() && rb.read == old(rb.read) && rb.used == old(rb.used) + |data| && s.used == rb.used
      ensures rb.Content() == old(rb.Content()) + data
    {
      hide Even;
      EvenSum(rb.used, |data|);
      var n := rb.Write(data);
      s.write := rb.write;
      s.used := rb.used;
      assert data[..|data|] == data;
      assert forall t :: t in streams && t != s ==> Aligned(t);
    }

    /** The loop of `mixb_read_upd`. */
    method Realign(len: nat)
      requires rb.read < rb.size
      requires forall s :: s in streams ==> s.used <= rb.size + len
      requires forall i, j :: 0 <= i < j < |streams| ==> streams[i] != streams[j]
      modifies streams
      ensures forall s :: s in streams ==>
                s.used == Behind(old(s.used), len) && s.write == Advanced(rb.size, rb.read, s.used)
    {
      var i := 0;
      while i < |streams|
        invariant i <= |streams|
        invariant forall k :: 0 <= k < i ==>
                    streams[k].used == Behind(old(streams[k].used), len)
                    && streams[k].write == Advanced(rb.size, rb.read, streams[k].used)
        invariant forall k :: i <= k < |streams| ==> streams[k].used == old(streams[k].used)
        modifies streams
      {
        var stream := streams[i];
        if stream.used > len {
          stream.used := stream.used - len;
        } else {
          stream.used := 0;
        }
        var write := rb.read + stream.used;
        stream.write := if write >= rb.size then write - rb.size else write;
        i := i + 1;
      }
    }

    /** The first step of `mixb_read_upd`: what is dropped counts as played. */
    method Drop(len: nat) returns (n: nat)
      requires Valid() && Recorded() && Even(len)
      modifies this`played, rb
      ensures rb.Valid() && rb.read < rb.size && rb.write < rb.size && Recorded()
      ensures Even(rb.read) && Even(rb.used)
      ensures Timeline() == old(Timeline())
      ensures n == (if old(rb.used) < len then old(rb.used) else len) && n == old(rb.used) - rb.used
      ensures rb.Content() == old(rb.Content())[n..] && |played| == old(|played|) + n
    {
      hide Even, Advanced, ContentOf, Writable, Audio;
      ghost var content := rb.Content();
      n := rb.ReadUpd(len);
      PlayedOn(played, content, n);
      played := played + content[..n];
      EvenSum(old(|played|), n);
      StartAdvanced(rb.size, old(rb.read), old(rb.used), n);
    }

    /** `mixb_read_upd`: a stream that was behind the new start goes on there. */
    method ReadUpd(len: nat) returns (n: nat)
      requires Valid() && Recorded() && Even(len)
      modifies this`played, rb, streams
      ensures Valid() && Recorded() && Timeline() == old(Timeline())
      ensures n == if old(rb.used) < len then old(rb.used) else len
      ensures rb.Content() == old(rb.Content())[n..]
      ensures rb.used == old(rb.used) - n && |played| == old(|played|) + n
      ensures forall s :: s in streams ==> s.used == Behind(old(s.used), len)
    {
      hide Even, Behind, Advanced, Follows, Writable, Audio;
      forall s | s in streams
        ensures s.used <= rb.used && Even(s.used)
      {
        assert Aligned(s);
      }
      n := Drop(len);
      BehindLeft(old(rb.used), len);
      Realign(len);
      forall s | s in streams
        ensures Aligned(s)
      {
        BehindAligned(rb.size, rb.read, old(s.used), len, old(rb.used));
      }
    }

    /** `timing_write`: the vectors of a tick of 320 bytes, the last of them as many bytes of silence. */
    method TimingWrite() returns (v: Vectors, silence: nat)
      requires Valid() && Recorded()
      modifies this`played, rb, streams
      ensures Valid() && Recorded() && Timeline() == old(Timeline())
      ensures var n := if old(rb.used) < FRAME_SIZE then old(rb.used) else FRAME_SIZE;
              && v.Fits(rb.size) && v.Gather(rb.buffer[..]) == old(rb.Content())[..n]
              && v.Total() == n && silence == FRAME_SIZE - n
              && rb.Content() == old(rb.Content())[n..]
    {
      var used := rb.used;
      assert Even(FRAME_SIZE);
      ghost var content := rb.Content();
      if used >= FRAME_SIZE {
        v := rb.ReadN(FRAME_SIZE);
        silence := 0;
        var n := ReadUpd(FRAME_SIZE);
      } else if used > 0 {
        v := rb.ReadAll();
        var n := ReadUpd(used);
        silence := FRAME_SIZE - used;
      } else {
        v, silence := NoVec, FRAME_SIZE;
      }
    }

    /** The timed part of `channel_write`: room is made by dropping the oldest audio. */
    method ChannelWrite(s: MixStream, data: seq<byte>) returns (len: nat)
      requires Valid() && Recorded() && s in streams && Even(|data|)
      modifies this`played, this`writes, rb, rb.buffer, streams
      ensures Valid() && Recorded()
      ensures len == if |data| < rb.size then |data| else rb.size
      ensures var drop := if old(Free(s)) < |data| then |data| - old(Free(s)) else 0;
              && |played| == old(|played|) + (if old(rb.used) < drop then old(rb.used) else drop)
              && (forall t :: t in streams && t != s ==>
                    t.used == Behind(old(t.used), drop))
              && (|data| <= rb.size ==> Timeline() == Mixed(old(Timeline()), old(Position(s)), data))
    {
      hide Even, Mixed, Writable, Audio, Follows;
      assert Aligned(s);
      var count := Free(s);
      if count < |data| {
        EvenSum(rb.size, s.used);
        EvenSum(|data|, count);
        var n := ReadUpd(|data| - count);
      }
      len := Write(s, data);
      assert len == |data| ==> data[..len] == data;
    }
  }
}
