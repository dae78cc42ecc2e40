/**
 What each handler asks the modem for, and when: the commands it queues, for which call, and that they go before
 everything that waits behind the command on the wire.
 */
module Requests {
  import opened Wrappers
  import opened AtQueue
  import opened TaskOrder
  import opened Calls
  import opened Handlers
  import CallStories
  import CallNaming

  /**
   One task was queued, of these commands and for this owner, and every task that waited behind the head
   lets it go first.
   */
  ghost predicate Asks(q: Queue, r: Queue, owner: Owner, cmds: seq<Cmd>) {
    && r.issued == q.issued + [cmds]
    && (forall k :: 0 <= k < |r.tasks| && r.tasks[k].id == |q.issued| ==> r.tasks[k].owner == owner)
    && forall k :: 1 <= k < |q.tasks| ==> Yields(r, |q.issued|, q.tasks[k].id, |q.log|)
  }

  /** No task was queued. */
  ghost predicate AsksNothing(q: Queue, r: Queue) {
    r.issued == q.issued
  }

  lemma AddedAsks(q: Queue, owner: Owner, cmds: seq<Cmd>)
    requires Valid(q) && cmds != []
    ensures Asks(q, Added(q, owner, cmds, true), owner, cmds)
  {
    PlaceOfNew(q, owner, cmds, true);
    ValidKnown(q);
    var r := Added(q, owner, cmds, true);
    forall k | 1 <= k < |q.tasks|
      ensures Yields(r, |q.issued|, q.tasks[k].id, |q.log|)
    {
      NewYields(q, owner, cmds, true, k);
    }
    assert forall k :: 0 <= k < |r.tasks| ==> r.tasks[k] in q.tasks || r.tasks[k] == Task(|q.issued|, owner, cmds, 0);
    hide Valid, Wrap, Yields;
  }

  lemma RemovedTasks(q: Queue)
    ensures Removed(q).issued == q.issued
    ensures forall t :: t in Removed(q).tasks ==> t in q.tasks
  {
    hide Wrap;
  }

  /** The tasks of a queue that moved on are its tasks still. */
  lemma CmdRemovedTasks(q: Queue, res: int)
    requires Runnable(q)
    ensures CmdRemoved(q, res).issued == q.issued
    ensures forall t :: t in CmdRemoved(q, res).tasks ==>
              exists u :: u in q.tasks && u.id == t.id && u.owner == t.owner
  {
    hide Wrap, Removed;
    if q.tasks != [] {
      var t := q.tasks[0];
      RemovedTasks(q.(tasks := [t.(cindex := t.cindex + 1)] + q.tasks[1..], atCmds := Wrap(q.atCmds - 1),
                      log := q.log + [Retired(t.id, t.cindex, res)]));
    }
  }

  lemma RanTasks(q: Queue, count: nat)
    requires Runnable(q)
    ensures Ran(q, count).issued == q.issued
    ensures forall t :: t in Ran(q, count).tasks ==>
              exists u :: u in q.tasks && u.id == t.id && u.owner == t.owner
  {
    hide CmdRemoved;
    if q.tasks != [] {
      var t := q.tasks[0];
      CmdRemovedTasks(q.(log := q.log + [Wrote(t.id, t.cindex, count)]), t.cmds[t.cindex].res + 1);
    }
  }

  lemma RanAsks(q: Queue, r: Queue, owner: Owner, cmds: seq<Cmd>, count: nat)
    requires Asks(q, r, owner, cmds) && Runnable(r)
    ensures Asks(q, Ran(r, count), owner, cmds)
  {
    hide Ran, Yields;
    RanTasks(r, count);
    var s := Ran(r, count);
    forall k | 0 <= k < |s.tasks| && s.tasks[k].id == |q.issued|
      ensures s.tasks[k].owner == owner
    {
      assert s.tasks[k] in s.tasks;
    }
    forall k | 1 <= k < |q.tasks|
      ensures Yields(s, |q.issued|, q.tasks[k].id, |q.log|)
    {
      RanYields(r, count, |q.issued|, q.tasks[k].id, |q.log|);
    }
  }

  /** An insertion asks, if there is memory for it. */
  lemma InsertedAsks(d: Device, owner: Owner, cmds: seq<Cmd>, env: Env)
    requires Valid(d.queue) && cmds != []
    ensures if env.memory then Asks(d.queue, Inserted(d, owner, cmds, true, env).queue, owner, cmds)
            else AsksNothing(d.queue, Inserted(d, owner, cmds, true, env).queue)
    ensures if env.memory then Asks(d.queue, InsertedTask(d, owner, cmds, true, env).queue, owner, cmds)
            else AsksNothing(d.queue, InsertedTask(d, owner, cmds, true, env).queue)
  {
    var now := Added(d.queue, owner, cmds, true);
    AddedAsks(d.queue, owner, cmds);
    AddedValid(d.queue, owner, cmds, true);
    SoundQueue(now);
    SoundQueue(d.queue);
    hide Valid, Asks, Added, Ran;
    RanAsks(d.queue, now, owner, cmds, env.count);
    RanTasks(d.queue, env.count);
  }

  /** Without memory a task that was built is lost, but the command at the head is written all the same. */
  lemma TaskLost(d: Device, owner: Owner, cmds: seq<Cmd>, env: Env)
    requires Valid(d.queue) && !env.memory
    ensures Inserted(d, owner, cmds, true, env) == d
    ensures var q, r := d.queue, InsertedTask(d, owner, cmds, true, env).queue;
            q.tasks != [] && q.tasks[0].cindex < |q.tasks[0].cmds|
            && env.count == |q.tasks[0].cmds[q.tasks[0].cindex].data| > 0 ==>
              && r.tasks != [] && r.tasks[0].cindex < |r.tasks[0].cmds|
              && r.tasks[0].cmds[r.tasks[0].cindex].data == ""
              && r.log == q.log + [Wrote(q.tasks[0].id, q.tasks[0].cindex, env.count)]
  {
    SoundQueue(d.queue);
    hide Valid;
  }

  lemma SoundQueue(q: Queue)
    requires Valid(q)
    ensures Runnable(q)
  {
    CmdRemovedValid(q, 0);
  }

  /** Dialing asks for the commands of the dial, for its call. */
  lemma DialedAsks(d: Device, k: nat, cmds: seq<Cmd>, holdOther: bool, conference: bool, ok: bool, env: Env)
    requires Valid(d.queue) && k < |d.chans| && cmds != []
    ensures var q, r := d.queue, Dialed(d, k, cmds, holdOther, conference, ok, env).queue;
            if env.memory then Asks(q, r, OfCall(d.chans[k].id), cmds) else AsksNothing(q, r)
  {
    hide Valid, Asks, AsksNothing, InsertedTask;
    var c := d.chans[k];
    var opts := c.(holdOther := c.holdOther || holdOther, conference := c.conference || conference);
    InsertedAsks(Updated(d, k, opts), OfCall(c.id), cmds, env);
  }

  /** It notes the options of the dial string, and that the call is to be hung up once the dial is queued. */
  lemma DialedCalls(d: Device, k: nat, cmds: seq<Cmd>, holdOther: bool, conference: bool, ok: bool, env: Env)
    requires Valid(d.queue) && k < |d.chans|
    ensures Dialed(d, k, cmds, holdOther, conference, ok, env).chans
            == d.chans[k := d.chans[k].(holdOther := d.chans[k].holdOther || holdOther,
                                        conference := d.chans[k].conference || conference,
                                        needHangup := d.chans[k].needHangup || ok)]
  {
    hide Valid, InsertedTask;
    var c := d.chans[k];
    var opts := c.(holdOther := c.holdOther || holdOther, conference := c.conference || conference);
    CallNaming.InsertedRest(Updated(d, k, opts), OfCall(c.id), cmds, env);
  }

  /** Hanging up asks for the hangup and for the list of calls, just when the call needs it. */
  lemma HungUpAsks(d: Device, k: nat, hangup: Cmd, ok: bool, env: Env)
    requires Sound(d) && k < |d.chans|
    ensures Valid(d.queue)
    ensures var q, r := d.queue, HungUp(d, k, hangup, ok, env).queue;
            if d.chans[k].needHangup && env.memory then Asks(q, r, OfCall(d.chans[k].id), [hangup, CLCC])
            else AsksNothing(q, r)
  {
    SoundParts(d);
    CallNaming.HungUpCalls(d, k, hangup, ok, env);
    hide Valid, Asks, AsksNothing, InsertedTask, HungUp, Table, Audio;
    var id := d.chans[k].id;
    InsertedAsks(d, OfCall(id), [hangup, CLCC], env);
    InsertedAsks(d.(lastDialed := None), OfCall(id), [hangup, CLCC], env);
    NothingAsked(d.queue);
  }

  lemma NothingAsked(q: Queue)
    ensures AsksNothing(q, q)
  {
  }

  /** `^CEND` asks for the list of calls; the task is of the system, whatever call goes. */
  lemma CendAsks(d: Device, callIdx: int, env: Env)
    requires Sound(d) && d.audioOpen
    ensures var q, r := d.queue, CendReceived(d, callIdx, env).queue;
            if env.memory then Asks(q, r, Sys, [CLCC]) else AsksNothing(q, r)
  {
    SoundParts(d);
    hide Valid, Asks, AsksNothing, Inserted, Table, Audio, StateChanged;
    InsertedAsks(d, Sys, [CLCC], env);
    InsertedSound(d, Sys, [CLCC], true, env);
    var asked := ClccAsked(d, env);
    SoundParts(asked);
    var k := Find(asked.chans, callIdx);
    if k >= 0 {
      var told := Updated(asked, k, asked.chans[k].(needHangup := false));
      UpdatedSound(asked, k, asked.chans[k].(needHangup := false));
      SoundParts(told);
      assert !told.chans[k].state.Released? by { assert NoneReleased(told); }
      ReleasedQueue(told, k);
      RelinkedAsks(d.queue, asked.queue, OfCall(told.chans[k].id), [CLCC]);
    }
  }

  lemma ReleasedQueue(d: Device, k: nat)
    requires k < |d.chans| && |d.chanCount| == STATES && !d.chans[k].state.Released?
    ensures StateChanged(d, k, Released).queue
            == d.queue.(tasks := Relinked(d.queue.tasks, OfCall(d.chans[k].id)))
  {
    hide Bumped, Relinked, Unlinked, Wrap;
  }

  lemma RelinkedAsks(q: Queue, r: Queue, from: Owner, cmds: seq<Cmd>)
    ensures var s := r.(tasks := Relinked(r.tasks, from));
            && (Asks(q, r, Sys, cmds) ==> Asks(q, s, Sys, cmds))
            && (AsksNothing(q, r) ==> AsksNothing(q, s))
  {
    hide Yields;
    var s := r.(tasks := Relinked(r.tasks, from));
    if Asks(q, r, Sys, cmds) {
      forall k | 1 <= k < |q.tasks|
        ensures Yields(s, |q.issued|, q.tasks[k].id, |q.log|)
      {
        RelinkedYields(r, from, |q.issued|, q.tasks[k].id, |q.log|);
      }
    }
  }

  /** What one after the other ask for. */
  function If(memory: bool, cmds: seq<Cmd>): seq<seq<Cmd>> {
    if memory then [cmds] else []
  }

  lemma InsertedIssues(d: Device, owner: Owner, cmds: seq<Cmd>, env: Env)
    requires Valid(d.queue) && cmds != []
    ensures Inserted(d, owner, cmds, true, env).queue.issued == d.queue.issued + If(env.memory, cmds)
    ensures InsertedTask(d, owner, cmds, true, env).queue.issued == d.queue.issued + If(env.memory, cmds)
  {
    InsertedAsks(d, owner, cmds, env);
    hide Valid, Inserted, InsertedTask, Yields;
  }

  /**
   `^ORIG` for a voice call with an index of the modem asks to set the volume, if this is to be done, and then for the
   list of calls; any other asks for nothing.
   */
  lemma OrigAsks(d: Device, parsed: bool, callIdx: int, voice: bool, volsync: bool, env: Env, env2: Env)
    requires Sound(d) && d.audioOpen
    ensures OrigReceived(d, parsed, callIdx, voice, volsync, env, env2).queue.issued
            == if d.lastDialed.Some? && parsed && voice && 0 <= callIdx <= 31
               then d.queue.issued + (if volsync then If(env.memory, VOLSYNC) else []) + If(env2.memory, [CLCC])
               else d.queue.issued
  {
    hide Valid, Table, Audio, StateChanged, Inserted, Numbered, Listed;
    SoundParts(d);
    if d.lastDialed.Some? && parsed && voice && 0 <= callIdx <= 31 {
      var owner, dialing := OfCall(d.lastDialed.value), Numbered(d, callIdx);
      NumberedQueue(d, callIdx);
      InsertedQueue(dialing, owner, VOLSYNC, true, env);
      InsertedIssues(dialing, owner, VOLSYNC, env);
      InsertedIssues(if volsync then Inserted(dialing, owner, VOLSYNC, true, env) else dialing, Sys, [CLCC], env2);
      if !volsync {
        assert d.queue.issued + [] == d.queue.issued;
      }
    }
  }

  /**
   `^CONN` asks for the list of calls; of a voice call that is not known it asks for its hangup, and of one in a
   conference to join it.
   */
  lemma ConnAsks(d: Device, parsed: bool, callIdx: int, voice: bool, hangup: Cmd, env: Env, env2: Env)
    requires Sound(d) && d.audioOpen
    ensures ConnReceived(d, parsed, callIdx, voice, hangup, env, env2).queue.issued
            == d.queue.issued + If(env.memory, [CLCC])
               + (if !parsed || !voice then []
                  else if Find(d.chans, callIdx) < 0 then If(env2.memory, [hangup, CLCC])
                  else if d.chans[Find(d.chans, callIdx)].conference then If(env2.memory, CONFERENCE) else [])
  {
    hide Valid, Table, Audio, StateChanged, Inserted, InsertedTask, Listed;
    SoundParts(d);
    InsertedSound(d, Sys, [CLCC], true, env);
    InsertedIssues(d, Sys, [CLCC], env);
    var asked := ClccAsked(d, env);
    SoundParts(asked);
    var k, soFar := Find(d.chans, callIdx), d.queue.issued + If(env.memory, [CLCC]);
    assert soFar + [] == soFar;
    if parsed && voice {
      if k < 0 {
        InsertedIssues(asked, Sys, [hangup, CLCC], env2);
      } else {
        QueueUntouched(asked, k, Active);
        InsertedIssues(StateChanged(asked, k, Active), OfCall(asked.chans[k].id), CONFERENCE, env2);
      }
    }
  }

  /**
   A line of the list of calls changes the state of the first call with this index, if it has the same direction and
   is in another state, and nothing else.
   */
  lemma ClccTells(d: Device, callIdx: int, dir: Direction, state: State)
    requires Sound(d) && d.audioOpen && !state.Released?
    ensures var k, e := Find(d.chans, callIdx), ClccReceived(d, callIdx, dir, state);
            if k >= 0 && d.chans[k].dir == dir then
              && |e.chans| == |d.chans| && e.chans[k].state == state
              && forall i :: 0 <= i < |d.chans| && i != k ==> e.chans[i].(master := d.chans[i].master) == d.chans[i]
            else e == d
  {
    SoundParts(d);
    var k := Find(d.chans, callIdx);
    if k >= 0 {
      StateChangedEffect(d, k, state);
    }
    hide Table, Audio, StateChanged;
  }

  /** A new call with a channel is the last in the list, to be hung up if it came from outside; without one it goes. */
  lemma CreatedCall(d: Device, callIdx: int, dir: Direction, state: State, success: bool)
    requires Sound(d)
    ensures |d.chanCount| == STATES
    ensures var e := Created(d, callIdx, dir, state, success);
            && e.chans == (if success then d.chans + [Call(d.next, callIdx, dir, state, true, dir.IncomingCall?,
                                                           false, false, false, false)]
                           else d.chans)
            && e.queue.issued == d.queue.issued && e.queue.log == d.queue.log
            && (d.chansno == 0 ==> e.streams == [])
  {
    SoundParts(d);
    hide Table, Audio, Bumped, Relinked, Wrap;
    var now, k := Alloc(d, callIdx, dir, state), |d.chans|;
    assert now.chans[..k] + now.chans[k + 1..] == d.chans;
  }

  /** The tasks of a call that is freed go to the system; those of other calls, and all else about them, stay. */
  lemma FreedTasks(d: Device, k: nat)
    requires k < |d.chans| && |d.chanCount| == STATES
    ensures var was, now := d.queue.tasks, Freed(d, k).queue.tasks;
            && |now| == |was|
            && forall i :: 0 <= i < |was| ==>
                 && now[i].owner == (if was[i].owner == OfCall(d.chans[k].id) then Sys else was[i].owner)
                 && now[i] == was[i].(owner := now[i].owner)
  {
    hide Bumped, Wrap;
  }
}
