/**
 What the events of the modem do to a call from dialing to its end, across the handlers.
 */
module CallStories {
  import opened Wrappers
  import opened AtQueue
  import opened Calls
  import opened Handlers

  lemma IndexIs(chans: seq<Call>, k: nat)
    requires k < |chans| && forall i, j :: 0 <= i < j < |chans| ==> chans[i].id != chans[j].id
    ensures Listed(chans, chans[k].id) && IndexOf(chans, chans[k].id) == k
  {
    assert forall i :: 0 <= i < |chans| && i != k ==> chans[i].id != chans[k].id;
  }

  /** The calls after `OK`. */
  lemma OkCalls(d: Device)
    requires AtQueue.Valid(d.queue) && NoDangling(d)
    ensures d.queue.tasks == [] ==> OkReceived(d).chans == d.chans
    ensures d.queue.tasks != [] ==>
              var t := d.queue.tasks[0];
              && OwnerLive(d.chans, t.owner) && t.cindex < |t.cmds|
              && var c := t.cmds[t.cindex];
                 OkReceived(d).chans == if c.res == RES_OK || c.res == RES_CMGR
                                        then OkNoted(d, t.owner, c.code).chans else d.chans
  {
    CmdRemovedValid(d.queue, RES_OK);
    if d.queue.tasks != [] {
      assert OwnerLive(d.chans, d.queue.tasks[0].owner);
    }
    hide AtQueue.Valid, NoDangling, OwnerLive, OkNoted, CmdRemoved;
  }

  /** `OK` to the dial command of a call: the next `^ORIG` will be about this call. */
  lemma OkForDial(d: Device)
    requires Sound(d) && d.queue.tasks != [] && d.queue.tasks[0].owner.OfCall? && Runnable(d.queue)
    requires var t := d.queue.tasks[0]; t.cmds[t.cindex].code == CMD_D && t.cmds[t.cindex].res == RES_OK
    ensures AtQueue.Valid(d.queue) && NoDangling(d)
    ensures var id := d.queue.tasks[0].owner.call;
            && OkReceived(d).lastDialed == Some(id)
            && Listed(OkReceived(d).chans, id)
            && OkReceived(d).chans[IndexOf(OkReceived(d).chans, id)].needHangup
  {
    hide Table, Audio;
    SoundParts(d);
    var id := d.queue.tasks[0].owner.call;
    assert OwnerLive(d.chans, d.queue.tasks[0].owner);
    OkNotedSound(d, OfCall(id), CMD_D);
    var e := OkNoted(d, OfCall(id), CMD_D);
    SoundParts(e);
    IndexIs(e.chans, IndexOf(d.chans, id));
  }

  /**
   `^ORIG`: the call dialed last has the index the modem gave it, and is dialing. If it was dialing
   before, its part in the audio stays as it was.
   */
  lemma OrigNamesCall(d: Device, callIdx: int, volsync: bool, env: Env, env2: Env)
    requires Sound(d) && d.audioOpen && d.lastDialed.Some? && MIN_CALL_IDX <= callIdx <= MAX_CALL_IDX
    ensures var id, e := d.lastDialed.value, OrigReceived(d, true, callIdx, true, volsync, env, env2);
            && e.lastDialed.None? && Listed(d.chans, id) && Listed(e.chans, id)
            && var was, c := d.chans[IndexOf(d.chans, id)], e.chans[IndexOf(e.chans, id)];
               && c.callIdx == callIdx && c.state.Dialing?
               && (was.channel && !was.state.Dialing? ==> c.master && c.activated)
               && (was.state.Dialing? ==> c.master == was.master && c.activated == was.activated)
  {
    hide Table, Audio, StateChanged, Inserted, Numbered, Listed;
    SoundParts(d);
    NumberedSound(d, callIdx);
    NumberedCall(d, callIdx);
    var id, e := d.lastDialed.value, Numbered(d, callIdx);
    InsertionsKeep(e, id, volsync, env, env2);
  }

  lemma NumberedCall(d: Device, callIdx: int)
    requires Sound(d) && d.audioOpen && d.lastDialed.Some?
    ensures var id, e := d.lastDialed.value, Numbered(d, callIdx);
            && e.lastDialed.None? && Listed(d.chans, id) && Listed(e.chans, id)
            && var was, c := d.chans[IndexOf(d.chans, id)], e.chans[IndexOf(e.chans, id)];
               && c.callIdx == callIdx && c.state.Dialing?
               && (was.channel && !was.state.Dialing? ==> c.master && c.activated)
               && (was.state.Dialing? ==> c.master == was.master && c.activated == was.activated)
  {
    SoundParts(d);
    var id, idle := d.lastDialed.value, d.(lastDialed := None);
    var k := IndexOf(d.chans, id);
    hide Table, Audio, StateChanged, Listed;
    NumberedSound(d, callIdx);
    NotDialedSound(d);
    UpdatedSound(idle, k, d.chans[k].(callIdx := callIdx));
    DialingCall(Updated(idle, k, d.chans[k].(callIdx := callIdx)), k);
    SoundParts(Numbered(d, callIdx));
    IndexIs(Numbered(d, callIdx).chans, k);
  }

  lemma InsertionsKeep(d: Device, id: nat, volsync: bool, env: Env, env2: Env)
    requires Sound(d) && Listed(d.chans, id)
    ensures AtQueue.Valid(d.queue) && AtQueue.Valid(Inserted(d, OfCall(id), VOLSYNC, true, env).queue)
    ensures var e := ClccAsked(if volsync then Inserted(d, OfCall(id), VOLSYNC, true, env) else d, env2);
            e.chans == d.chans && e.lastDialed == d.lastDialed
  {
    hide Table, Audio, Inserted, Listed;
    SoundParts(d);
    InsertedSound(d, OfCall(id), VOLSYNC, true, env);
    InsertedDialed(d, OfCall(id), VOLSYNC, env);
    var synced := if volsync then Inserted(d, OfCall(id), VOLSYNC, true, env) else d;
    InsertedQueue(d, OfCall(id), VOLSYNC, true, env);
    InsertedSound(synced, Sys, [CLCC], true, env2);
    InsertedDialed(synced, Sys, [CLCC], env2);
  }

  lemma InsertedDialed(d: Device, owner: Owner, cmds: seq<Cmd>, env: Env)
    requires AtQueue.Valid(d.queue)
    ensures Inserted(d, owner, cmds, true, env).lastDialed == d.lastDialed
  {
    hide AtQueue.Valid, Added, Ran;
  }

  lemma DialingCall(d: Device, k: nat)
    requires Sound(d) && k < |d.chans| && d.audioOpen
    ensures |d.chanCount| == STATES
    ensures var e := StateChanged(d, k, Dialing);
            && |e.chans| == |d.chans| && e.lastDialed == d.lastDialed
            && e.chans[k].state.Dialing? && e.chans[k].callIdx == d.chans[k].callIdx && e.chans[k].id == d.chans[k].id
            && (d.chans[k].channel && !d.chans[k].state.Dialing? ==> e.chans[k].master && e.chans[k].activated)
            && (d.chans[k].state.Dialing? ==> e == d)
  {
    SoundParts(d);
    hide Table, Bumped;
    var now := StateSet(d, k, Dialing);
    StateSetAudio(d, k, Dialing);
    ActivatedIsMaster(now, k);
    hide Audio;
    StateChangedEffect(d, k, Dialing);
  }

  /** `^CONN`: the call is active, and has the audio; if it was active before, no call changes. */
  lemma ConnAnswers(d: Device, callIdx: int, hangup: Cmd, env: Env, env2: Env)
    requires Sound(d) && d.audioOpen && Find(d.chans, callIdx) >= 0
    ensures var k, e := Find(d.chans, callIdx), ConnReceived(d, true, callIdx, true, hangup, env, env2);
            && |e.chans| == |d.chans| && e.chans[k].state.Active?
            && (d.chans[k].channel && !d.chans[k].state.Active? ==>
                  e.chans[k].master && forall i :: 0 <= i < |e.chans| && i != k ==> !e.chans[i].master)
            && (d.chans[k].state.Active? ==> e.chans == d.chans)
  {
    hide Table, Audio, Inserted;
    SoundParts(d);
    InsertedSound(d, Sys, [CLCC], true, env);
    var asked, k := ClccAsked(d, env), Find(d.chans, callIdx);
    SoundParts(asked);
    ActiveCall(asked, k);
    StateChangedSound(asked, k, Active);
    var active := StateChanged(asked, k, Active);
    SoundParts(active);
    DialingListed(asked, k);
    if active.chans[k].conference {
      InsertedSound(active, OfCall(active.chans[k].id), CONFERENCE, true, env2);
    }
  }

  lemma ActiveCall(d: Device, k: nat)
    requires Sound(d) && k < |d.chans| && d.audioOpen
    ensures |d.chanCount| == STATES
    ensures var e := StateChanged(d, k, Active);
            && |e.chans| == |d.chans| && e.chans[k].state.Active?
            && e.chans[k].id == d.chans[k].id && e.chans[k].conference == d.chans[k].conference
            && (d.chans[k].channel && !d.chans[k].state.Active? ==>
                  e.chans[k].master && forall i :: 0 <= i < |e.chans| && i != k ==> !e.chans[i].master)
  {
    SoundParts(d);
    hide Table, Bumped;
    StateSetAudio(d, k, Active);
    ActivatedIsMaster(StateSet(d, k, Active), k);
    hide Audio;
    StateChangedEffect(d, k, Active);
  }

  /** `^CEND`: the first call with the index is gone, and no other call changes. */
  lemma CendEnds(d: Device, callIdx: int, env: Env)
    requires Sound(d) && d.audioOpen
    ensures CendReceived(d, callIdx, env).chans
            == if Find(d.chans, callIdx) < 0 then d.chans else Cut(d.chans, Find(d.chans, callIdx))
  {
    hide Table, Audio, Inserted, StateChanged;
    SoundParts(d);
    InsertedSound(d, Sys, [CLCC], true, env);
    var asked, k := ClccAsked(d, env), Find(d.chans, callIdx);
    SoundParts(asked);
    if k >= 0 {
      var told := Updated(asked, k, asked.chans[k].(needHangup := false));
      UpdatedSound(asked, k, asked.chans[k].(needHangup := false));
      ReleasedGone(told, k);
      assert Cut(told.chans, k) == Cut(d.chans, k);
    }
  }

  /** Hung up, a call is out of the mixer and has no channel; it stays listed, and the others stay as they are. */
  lemma HungUpIsQuiet(d: Device, k: nat, hangup: Cmd, ok: bool, env: Env)
    requires Sound(d) && k < |d.chans|
    ensures AtQueue.Valid(d.queue)
    ensures var e := HungUp(d, k, hangup, ok, env);
            && |e.chans| == |d.chans| && e.chans[k].id == d.chans[k].id && e.chans[k].id !in e.streams
            && !e.chans[k].channel && !e.chans[k].activated && !e.chans[k].master
            && (e.chans[k].needHangup <==> d.chans[k].needHangup && !ok)
            && forall i :: 0 <= i < |d.chans| && i != k ==> e.chans[i] == d.chans[i]
  {
    HungUpSound(d, k, hangup, ok, env);
    hide Table, HangupQueued;
    HangupQueuedSound(d, k, hangup, env);
    var e := HungUp(d, k, hangup, ok, env);
    assert e.chans[k].activated <==> e.chans[k].id in e.streams;
  }
}
