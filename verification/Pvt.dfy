/**
 The record of a device, changed in place: the functions of cpvt.c, channel.c and chan_dongle.c
 that keep the call table, each of them what its specification in `Calls` and `Handlers` says.
 */
module Pvt {
  import opened Wrappers
  import opened AtQueue
  import opened Calls
  import opened Handlers

  lemma FindFirst(chans: seq<Call>, callIdx: int, k: nat)
    requires k < |chans| && chans[k].callIdx == callIdx
    requires forall i :: 0 <= i < k ==> chans[i].callIdx != callIdx
    ensures Find(chans, callIdx) == k
  {
  }

  /**
   With the audio in order and the port open, a call with a channel that comes to another state is the master and
   mixed if it talks, and neither if it is held or released.
   */
  ghost predicate PartTaken(before: Device, after: Device, k: nat, state: State)
    requires k < |before.chans|
  {
    Audio(before) && before.audioOpen && before.chans[k].channel && before.chans[k].state != state ==>
      && (Talks(state) ==>
            && |after.chans| == |before.chans| && after.chans[k].master && after.chans[k].activated
            && before.chans[k].id in after.streams)
      && (state.OnHold? ==>
            && |after.chans| == |before.chans| && !after.chans[k].master && !after.chans[k].activated
            && before.chans[k].id !in after.streams)
      && (state.Released? ==> before.chans[k].id !in after.streams)
  }

  lemma StateChangedPart(d: Device, k: nat, state: State)
    requires k < |d.chans| && |d.chanCount| == STATES
    ensures PartTaken(d, StateChanged(d, k, state), k, state)
  {
    hide StateChanged, Audio;
    if Audio(d) && d.audioOpen && d.chans[k].channel && d.chans[k].state != state {
      StateHeard(d, k, state);
    }
  }

  class DevicePvt {
    var chans: seq<Call>
    var next: nat
    var lastDialed: Option<nat>
    var chansno: int
    var chanCount: seq<int>
    const queue: CommandQueue
    var streams: seq<nat>
    var audioOpen: bool

    ghost function Value(): Device
      reads this, queue
    {
      Device(chans, next, lastDialed, chansno, chanCount, queue.Value(), streams, audioOpen)
    }

    ghost predicate Ready()
      reads this, queue
    {
      |chanCount| == STATES && queue.Sound()
    }

    constructor ()
      ensures Ready() && Value() == NEW_DEVICE && fresh(queue)
    {
      queue := new CommandQueue();
      chans, next, lastDialed, chansno, chanCount := [], 0, None, 0, [0, 0, 0, 0, 0, 0, 0, 0];
      streams, audioOpen := [], false;
    }

    method Count(state: State, delta: int)
      requires Ready()
      modifies this`chanCount
      ensures Ready() && chanCount == Bumped(old(chanCount), state, delta)
    {
      chanCount := chanCount[Number(state) := Byte(chanCount[Number(state)] + delta)];
    }

    /** `cpvt_alloc`; there may be no pipe or no memory for the call. */
    method CpvtAlloc(callIdx: int, dir: Direction, state: State, memory: bool) returns (ok: bool)
      requires Ready()
      modifies this
      ensures Ready() && ok == memory
      ensures Value() == if ok then Alloc(old(Value()), callIdx, dir, state) else old(Value())
      ensures !state.Released? && Table(old(Value())) ==> Table(Value())
    {
      hide Bumped, Wrap, Table;
      if !state.Released? && Table(Value()) {
        AllocTable(Value(), callIdx, dir, state);
      }
      ok := memory;
      if memory {
        chans := chans + [Call(next, callIdx, dir, state, false, false, false, false, false, false)];
        next := next + 1;
        if chansno == 0 {
          streams := [];
        }
        chansno := Wrap(chansno + 1);
        Count(state, 1);
      }
    }

    /** `cpvt_free` */
    method CpvtFree(k: nat)
      requires Ready() && k < |chans|
      modifies this, queue
      ensures Ready() && Value() == Freed(old(Value()), k)
      ensures old(Table(Value())) ==> Table(Value())
    {
      hide Bumped, Wrap, AtQueue.Valid, Table;
      if Table(Value()) {
        FreedInOrder(Value(), k);
      }
      var cpvt := chans[k];
      chans := chans[..k] + chans[k + 1..];
      Count(cpvt.state, -1);
      chansno := Wrap(chansno - 1);
      queue.Relink(OfCall(cpvt.id));
      if lastDialed == Some(cpvt.id) {
        lastDialed := None;
      }
    }

    /** `pvt_find_cpvt` */
    method FindCpvt(callIdx: int) returns (k: int)
      ensures k == Find(chans, callIdx)
    {
      var i := 0;
      while i < |chans|
        invariant i <= |chans|
        invariant forall j :: 0 <= j < i ==> chans[j].callIdx != callIdx
      {
        if chans[i].callIdx == callIdx {
          FindFirst(chans, callIdx, i);
          return i;
        }
        i := i + 1;
      }
      return -1;
    }

    method Detach(id: nat)
      modifies this`streams
      ensures streams == Unlinked(old(streams), id)
    {
      var i := 0;
      while i < |streams| && streams[i] != id
        invariant i <= |streams|
        invariant Unlinked(streams, id) == streams[..i] + Unlinked(streams[i..], id)
      {
        assert streams[i..][1..] == streams[i + 1..];
        i := i + 1;
      }
      if i < |streams| {
        assert streams[i..][1..] == streams[i + 1..];
        streams := streams[..i] + streams[i + 1..];
      } else {
        assert streams[..i] + [] == streams;
      }
    }

    /** `disactivate_call` */
    method DisactivateCall(k: nat)
      requires k < |chans|
      modifies this`chans, this`streams
      ensures Value() == Disactivated(old(Value()), k)
      ensures old(Table(Value())) ==> Table(Value())
    {
      hide Unlinked, Table;
      if Table(Value()) {
        DisactivatedTable(Value(), k);
      }
      if chans[k].channel && chans[k].activated {
        Detach(chans[k].id);
        chans := chans[k := chans[k].(activated := false, master := false)];
      }
    }

    /** `activate_call` */
    method ActivateCall(k: nat)
      requires k < |chans|
      modifies this`chans, this`streams
      ensures Value() == Activated(old(Value()), k)
      ensures old(Table(Value())) ==> Table(Value())
    {
      hide Table;
      if Table(Value()) {
        ActivatedTable(Value(), k);
      }
      if chans[k].master {
        return;
      }
      ghost var was := chans;
      var i := 0;
      while i < |chans|
        invariant i <= |chans| == |was| && streams == old(streams)
        invariant forall j :: 0 <= j < |chans| ==> chans[j] == if j < i then Deposed(was, k)[j] else was[j]
      {
        if i != k {
          chans := chans[i := chans[i].(master := false)];
        }
        i := i + 1;
      }
      assert chans == Deposed(was, k) && chans[k] == was[k];
      if !chans[k].activated {
        streams := streams + [chans[k].id];
      }
      if audioOpen {
        chans := chans[k := chans[k].(activated := true, master := true)];
      }
    }

    /** `change_channel_state` */
    method ChangeState(k: nat, state: State)
      requires Ready() && k < |chans|
      modifies this, queue
      ensures Ready() && Value() == StateChanged(old(Value()), k, state)
      ensures old(Table(Value())) ==> Table(Value())
      ensures PartTaken(old(Value()), Value(), k, state)
    {
      hide Bumped, Wrap, Activated, Disactivated, Freed, AtQueue.Valid, Table, PartTaken;
      if Table(Value()) {
        StateChangedTable(Value(), k, state);
      }
      StateChangedPart(Value(), k, state);
      var cpvt := chans[k];
      if cpvt.state != state {
        chans := chans[k := cpvt.(state := state)];
        Count(cpvt.state, -1);
        Count(state, 1);
        assert Value() == StateSet(old(Value()), k, state);
        ActivatedFlags(Value(), k);
        if !cpvt.channel {
          if state.Released? {
            CpvtFree(k);
          }
        } else {
          match state {
            case Dialing => ActivateCall(k);
            case Alerting => ActivateCall(k);
            case Active => ActivateCall(k);
            case OnHold => DisactivateCall(k);
            case Released =>
              DisactivateCall(k);
              CpvtFree(k);
            case _ =>
          }
        }
      }
    }

    /** `disconnect_dongle`: the loop goes on with the call after the one it hung up. */
    method DisconnectDongle()
      requires Ready() && Calls.Table(Value())
      modifies this, queue
      ensures Ready() && Value() == Disconnected(old(Value()))
    {
      hide Table, StateChanged, AtQueue.Valid, HangupAll, Flushed;
      if chansno != 0 {
        var k := 0;
        while k < |chans|
          invariant k <= |chans| && Ready() && Table(Value())
          invariant HangupAll(Value(), k) == old(HangupAll(Value(), 0))
          decreases |chans| - k
        {
          ghost var d := Value();
          var cpvt := chans[k];
          HangupStep(d, k);
          UpdatedTable(d, k, cpvt.(needHangup := false));
          StateChangedTable(Updated(d, k, cpvt.(needHangup := false)), k, Released);
          NotListedReleased(d, k);
          chans := chans[k := cpvt.(needHangup := false)];
          assert Value() == Updated(d, k, cpvt.(needHangup := false));
          ChangeState(k, Released);
        }
        HangupDone(Value());
      }
      queue.Flush();
      lastDialed := None;
      audioOpen := false;
    }
  }

  lemma HangupStep(d: Device, k: nat)
    requires k < |d.chans| && |d.chanCount| == STATES && Table(d)
    ensures HangupAll(d, k)
            == HangupAll(StateChanged(Updated(d, k, d.chans[k].(needHangup := false)), k, Released), k)
  {
    hide Bumped, Relinked, Unlinked;
    NotListedReleased(d, k);
  }

  lemma NotListedReleased(d: Device, k: nat)
    requires k < |d.chans| && Table(d)
    ensures !d.chans[k].state.Released?
  {
  }

  lemma HangupDone(d: Device)
    requires |d.chanCount| == STATES
    ensures HangupAll(d, |d.chans|) == d
  {
  }
}
