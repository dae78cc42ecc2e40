/**
 Which call `^ORIG` is taken to be about, over runs of a device; above all, whether it can be one
 that was hung up.
 */
module CallNaming {
  import opened Wrappers
  import opened AtQueue
  import opened Calls
  import opened Handlers
  import opened DeviceRuns
  import TaskOrder
  import LockSections
  import CallStories

  /** Where these actions lead, if they can happen one after the other. */
  ghost function After(d: Device, actions: seq<Action>): (e: Option<Device>)
    requires Sound(d)
    ensures e.Some? ==> Sound(e.value)
  {
    if actions == [] then Some(d)
    else
      var was, a := After(d, actions[..|actions| - 1]), actions[|actions| - 1];
      if was.Some? && Enabled(was.value, a) then
        StepSound(was.value, a);
        Some(DeviceRuns.Stepped(was.value, a))
      else None
  }

  lemma {:induction false} AfterConcat(d: Device, a: seq<Action>, b: seq<Action>)
    requires Sound(d) && After(d, a).Some?
    ensures After(d, a + b) == After(After(d, a).value, b)
  {
    hide Sound, Enabled, DeviceRuns.Stepped;
    if b == [] {
      assert a + b == a;
    } else {
      var n := |b| - 1;
      assert (a + b)[..|a + b| - 1] == a + b[..n] && (a + b)[|a + b| - 1] == b[n];
      AfterConcat(d, a, b[..n]);
    }
  }

  // ---------- what makes a call the last one dialed ----------

  predicate IsDial(c: Cmd) {
    c.code == CMD_D && (c.res == RES_OK || c.res == RES_CMGR)
  }

  /** The next answer is one to a dial command of the call. */
  predicate DialFirst(q: Queue, id: nat) {
    && q.tasks != []
    && var t := q.tasks[0];
       t.owner == OfCall(id) && t.cindex < |t.cmds| && IsDial(t.cmds[t.cindex])
  }

  /** `OK` comes to the dial command of the call. */
  ghost predicate Redials(d: Device, a: Action, id: nat) {
    a.OkCame? && DialFirst(d.queue, id)
  }

  /** The answer to the dial command of the call is not waited for any more, if it was. */
  ghost predicate Forgets(d: Device, a: Action, id: nat) {
    match a
    case OkCame => exists other :: other != id && DialFirst(d.queue, other)
    case Hangup(k, _, _, _) => k < |d.chans| && d.chans[k].needHangup && d.chans[k].state.Init?
    case OrigCame(_, _, _, _, _, _) => true
    case Disconnect => true
    case CendCame(callIdx, _) => Find(d.chans, callIdx) >= 0 && d.chans[Find(d.chans, callIdx)].id == id
    case Drop(k) => k < |d.chans| && d.chans[k].id == id
    case _ => false
  }

  lemma StateKeepsDialed(d: Device, k: nat, state: State)
    requires k < |d.chans| && |d.chanCount| == STATES
    ensures StateChanged(d, k, state).lastDialed
            == if state.Released? && !d.chans[k].state.Released? && d.lastDialed == Some(d.chans[k].id) then None
               else d.lastDialed
  {
    hide Bumped, Relinked, Unlinked, Wrap;
  }

  lemma InsertionKeepsDialed(d: Device, owner: Owner, cmds: seq<Cmd>, prio: bool, env: Env)
    requires AtQueue.Valid(d.queue)
    ensures Inserted(d, owner, cmds, prio, env).lastDialed == d.lastDialed
    ensures InsertedTask(d, owner, cmds, prio, env).lastDialed == d.lastDialed
  {
    hide AtQueue.Valid, Added, Ran;
  }

  lemma OrigClearsDialed(d: Device, parsed: bool, callIdx: int, voice: bool, volsync: bool, env: Env, env2: Env)
    requires Sound(d) && d.audioOpen
    ensures OrigReceived(d, parsed, callIdx, voice, volsync, env, env2).lastDialed.None?
  {
    hide Table, Audio, StateChanged, Inserted, Numbered, Listed;
    SoundParts(d);
    if d.lastDialed.Some? && parsed && voice && MIN_CALL_IDX <= callIdx <= MAX_CALL_IDX {
      NumberedSound(d, callIdx);
      CallStories.NumberedCall(d, callIdx);
      CallStories.InsertionsKeep(Numbered(d, callIdx), d.lastDialed.value, volsync, env, env2);
    }
  }

  lemma CendDialed(d: Device, callIdx: int, env: Env)
    requires Sound(d) && d.audioOpen
    ensures CendReceived(d, callIdx, env).lastDialed
            == if Find(d.chans, callIdx) >= 0 && d.lastDialed == Some(d.chans[Find(d.chans, callIdx)].id) then None
               else d.lastDialed
  {
    hide Table, Audio, Inserted, StateChanged;
    SoundParts(d);
    InsertedSound(d, Sys, [CLCC], true, env);
    InsertionKeepsDialed(d, Sys, [CLCC], true, env);
    var asked, k := ClccAsked(d, env), Find(d.chans, callIdx);
    SoundParts(asked);
    if k >= 0 {
      StateKeepsDialed(Updated(asked, k, asked.chans[k].(needHangup := false)), k, Released);
    }
  }

  lemma ConnKeepsDialed(d: Device, parsed: bool, callIdx: int, voice: bool, hangup: Cmd, env: Env, env2: Env)
    requires Sound(d) && d.audioOpen
    ensures ConnReceived(d, parsed, callIdx, voice, hangup, env, env2).lastDialed == d.lastDialed
  {
    hide Table, Audio, Inserted, InsertedTask, StateChanged;
    SoundParts(d);
    InsertedSound(d, Sys, [CLCC], true, env);
    InsertionKeepsDialed(d, Sys, [CLCC], true, env);
    var asked := ClccAsked(d, env);
    SoundParts(asked);
    InsertionKeepsDialed(asked, Sys, [hangup, CLCC], true, env2);
    var k := Find(asked.chans, callIdx);
    if k >= 0 {
      StateKeepsDialed(asked, k, Active);
      QueueUntouched(asked, k, Active);
      InsertionKeepsDialed(StateChanged(asked, k, Active), OfCall(asked.chans[k].id), CONFERENCE, true, env2);
    }
  }

  lemma HungUpDialed(d: Device, k: nat, hangup: Cmd, ok: bool, env: Env)
    requires Sound(d) && k < |d.chans|
    ensures AtQueue.Valid(d.queue)
    ensures HungUp(d, k, hangup, ok, env).lastDialed
            == if d.chans[k].needHangup && d.chans[k].state.Init? then None else d.lastDialed
  {
    hide Table, Audio, InsertedTask, Unlinked;
    SoundParts(d);
    HangupQueuedSound(d, k, hangup, env);
    var c := d.chans[k];
    InsertionKeepsDialed(d, OfCall(c.id), [hangup, CLCC], true, env);
    InsertionKeepsDialed(d.(lastDialed := None), OfCall(c.id), [hangup, CLCC], true, env);
  }

  lemma CreatedKeepsDialed(d: Device, callIdx: int, dir: Direction, state: State, success: bool)
    requires Sound(d)
    ensures |d.chanCount| == STATES && Created(d, callIdx, dir, state, success).lastDialed == d.lastDialed
  {
    hide AtQueue.Valid, CallsCounted, Audio, Bumped, Relinked, Wrap;
    SoundParts(d);
    if d.lastDialed.Some? {
      var k :| 0 <= k < |d.chans| && d.chans[k].id == d.lastDialed.value;
      assert d.chans[k].id < d.next;
    }
  }

  /** What comes from the modem. */
  predicate IsEvent(a: Action) {
    a.OkCame? || a.AnswerCame? || a.OrigCame? || a.CendCame? || a.ConnCame? || a.ClccCame?
  }

  lemma EventDialed(d: Device, a: Action, id: nat)
    requires Sound(d) && Enabled(d, a) && IsEvent(a)
    ensures DeviceRuns.Stepped(d, a).lastDialed == Some(id)
            <==> Redials(d, a, id) || (d.lastDialed == Some(id) && !Forgets(d, a, id))
  {
    SoundParts(d);
    hide Sound, AtQueue.Valid, NoDangling, CallsCounted, Named, NoneReleased, Audio, Table, DialFirst,
         Inserted, InsertedTask, CmdRemoved, Ran, Flushed, HangupAll, Freed, Created, Dialed, HungUp,
         OkReceived, OrigReceived, CendReceived, ConnReceived, ClccReceived;
    match a
    case OkCame => OkDialed(d, id);
    case AnswerCame(res) =>
    case OrigCame(parsed, callIdx, voice, volsync, env, env2) =>
      OrigClearsDialed(d, parsed, callIdx, voice, volsync, env, env2);
    case CendCame(callIdx, env) => CendDialed(d, callIdx, env);
    case ConnCame(parsed, callIdx, voice, hangup, env, env2) =>
      ConnKeepsDialed(d, parsed, callIdx, voice, hangup, env, env2);
    case ClccCame(callIdx, dir, state) => ClccKeepsDialed(d, callIdx, dir, state);
  }

  /** After one action the call is the last one dialed iff this made it so, or it was and is not forgotten. */
  lemma StepDialed(d: Device, a: Action, id: nat)
    requires Sound(d) && Enabled(d, a)
    ensures DeviceRuns.Stepped(d, a).lastDialed == Some(id)
            <==> Redials(d, a, id) || (d.lastDialed == Some(id) && !Forgets(d, a, id))
  {
    if IsEvent(a) {
      EventDialed(d, a, id);
      return;
    }
    SoundParts(d);
    hide Sound, AtQueue.Valid, NoDangling, CallsCounted, Named, NoneReleased, Audio, Table, DialFirst,
         Inserted, InsertedTask, CmdRemoved, Ran, Flushed, HangupAll, Freed, Created, Dialed, HungUp,
         OkReceived, OrigReceived, CendReceived, ConnReceived, ClccReceived;
    match a
    case Connect =>
    case NewCall(callIdx, dir, state, success) => CreatedKeepsDialed(d, callIdx, dir, state, success);
    case Dial(k, cmds, holdOther, conference, ok, env) =>
      DialKeepsDialed(d, k, cmds, holdOther, conference, ok, env);
    case Hangup(k, hangup, ok, env) => HungUpDialed(d, k, hangup, ok, env);
    case Enqueue(owner, cmds, prio, always, env) => InsertionKeepsDialed(d, owner, cmds, prio, env);
    case Proceed(count) =>
    case Drop(k) => FreedDialed(d, k);
    case Disconnect =>
    case _ =>
  }

  lemma DialKeepsDialed(d: Device, k: nat, cmds: seq<Cmd>, holdOther: bool, conference: bool, ok: bool, env: Env)
    requires AtQueue.Valid(d.queue) && k < |d.chans|
    ensures Dialed(d, k, cmds, holdOther, conference, ok, env).lastDialed == d.lastDialed
  {
    hide AtQueue.Valid, InsertedTask;
    var c := d.chans[k];
    var opts := c.(holdOther := c.holdOther || holdOther, conference := c.conference || conference);
    InsertionKeepsDialed(Updated(d, k, opts), OfCall(c.id), cmds, true, env);
  }

  lemma ClccKeepsDialed(d: Device, callIdx: int, dir: Direction, state: State)
    requires Table(d) && !state.Released?
    ensures ClccReceived(d, callIdx, dir, state).lastDialed == d.lastDialed
  {
    TableParts(d);
    hide Table, StateChanged;
    if Find(d.chans, callIdx) >= 0 {
      StateKeepsDialed(d, Find(d.chans, callIdx), state);
    }
  }

  lemma OkDialed(d: Device, id: nat)
    requires Sound(d)
    ensures AtQueue.Valid(d.queue) && NoDangling(d)
    ensures OkReceived(d).lastDialed == Some(id)
            <==> || DialFirst(d.queue, id)
                 || (d.lastDialed == Some(id) && !exists other :: other != id && DialFirst(d.queue, other))
  {
    SoundParts(d);
    CmdRemovedValid(d.queue, 0);
    hide AtQueue.Valid, Table, Audio, CmdRemoved;
    if d.queue.tasks != [] {
      var owner := d.queue.tasks[0].owner;
      assert OwnerLive(d.chans, owner);
      assert owner.OfCall? ==> forall other :: DialFirst(d.queue, other) ==> other == owner.call;
      assert owner.OfCall? && DialFirst(d.queue, id) ==> owner.call == id;
      if owner.OfCall? {
        assert DialFirst(d.queue, owner.call) <==> IsDial(d.queue.tasks[0].cmds[d.queue.tasks[0].cindex]);
      }
    }
  }

  lemma FreedDialed(d: Device, k: nat)
    requires k < |d.chans| && |d.chanCount| == STATES
    ensures Freed(d, k).lastDialed == if d.lastDialed == Some(d.chans[k].id) then None else d.lastDialed
  {
  }

  // ---------- over runs ----------

  ghost predicate RedialsAt(d: Device, actions: seq<Action>, i: nat, id: nat)
    requires Sound(d)
  {
    && i < |actions| && After(d, actions[..i]).Some?
    && var e := After(d, actions[..i]).value; Redials(e, actions[i], id)
  }

  ghost predicate KeepsFrom(d: Device, actions: seq<Action>, i: nat, id: nat)
    requires Sound(d)
  {
    forall j :: i <= j < |actions| ==> !ForgetsAt(d, actions, j, id)
  }

  ghost predicate ForgetsAt(d: Device, actions: seq<Action>, j: nat, id: nat)
    requires Sound(d)
  {
    && j < |actions| && After(d, actions[..j]).Some?
    && var e := After(d, actions[..j]).value; Forgets(e, actions[j], id)
  }

  /** The front of a run is the same run, up to its last action. */
  lemma FrontAt(d: Device, actions: seq<Action>, i: nat, id: nat)
    requires Sound(d) && i < |actions| - 1
    ensures RedialsAt(d, actions[..|actions| - 1], i, id) <==> RedialsAt(d, actions, i, id)
    ensures ForgetsAt(d, actions[..|actions| - 1], i, id) <==> ForgetsAt(d, actions, i, id)
  {
    hide Sound, After, Redials, Forgets;
    assert actions[..|actions| - 1][..i] == actions[..i];
  }

  lemma KeepsStep(d: Device, actions: seq<Action>, i: nat, id: nat)
    requires Sound(d) && i < |actions|
    ensures KeepsFrom(d, actions, i, id)
            <==> KeepsFrom(d, actions[..|actions| - 1], i, id) && !ForgetsAt(d, actions, |actions| - 1, id)
  {
    hide Sound, ForgetsAt, RedialsAt;
    var n := |actions| - 1;
    forall j: nat | j < n
      ensures ForgetsAt(d, actions[..n], j, id) <==> ForgetsAt(d, actions, j, id)
    {
      FrontAt(d, actions, j, id);
    }
  }

  ghost predicate DialedAndKept(d: Device, actions: seq<Action>, i: nat, id: nat)
    requires Sound(d)
  {
    RedialsAt(d, actions, i, id) && KeepsFrom(d, actions, i + 1, id)
  }

  /** It was the last one dialed at the start and is not forgotten, or `OK` to its dial command made it so. */
  ghost predicate DialedSince(d: Device, actions: seq<Action>, id: nat)
    requires Sound(d)
  {
    || (d.lastDialed == Some(id) && KeepsFrom(d, actions, 0, id))
    || exists i :: DialedAndKept(d, actions, i, id)
  }

  lemma DialedSinceStep(d: Device, actions: seq<Action>, id: nat)
    requires Sound(d) && actions != []
    ensures var n := |actions| - 1;
            DialedSince(d, actions, id) <==>
              RedialsAt(d, actions, n, id)
              || (DialedSince(d, actions[..n], id) && !ForgetsAt(d, actions, n, id))
  {
    var n := |actions| - 1;
    hide Sound, ForgetsAt;
    forall i: nat | i < n
      ensures DialedAndKept(d, actions, i, id)
              <==> DialedAndKept(d, actions[..n], i, id) && !ForgetsAt(d, actions, n, id)
    {
      FrontAt(d, actions, i, id);
      KeepsStep(d, actions, i + 1, id);
    }
    assert DialedAndKept(d, actions, n, id) <==> RedialsAt(d, actions, n, id);
    KeepsStep(d, actions, 0, id);
  }

  /** In every run: a call is the last one dialed iff it was dialed since, and nothing came after to forget it. */
  lemma {:induction false} LastDialedIff(d: Device, actions: seq<Action>, id: nat)
    requires Sound(d) && After(d, actions).Some?
    ensures After(d, actions).value.lastDialed == Some(id) <==> DialedSince(d, actions, id)
  {
    hide Sound, Enabled, DeviceRuns.Stepped, Redials, Forgets, DialedSince;
    if actions == [] {
      assert DialedSince(d, actions, id) <==> d.lastDialed == Some(id) by { NothingSince(d, id); }
    } else {
      var n := |actions| - 1;
      var e := After(d, actions[..n]).value;
      LastDialedIff(d, actions[..n], id);
      StepDialed(e, actions[n], id);
      DialedSinceStep(d, actions, id);
    }
  }

  lemma NothingSince(d: Device, id: nat)
    requires Sound(d)
    ensures DialedSince(d, [], id) <==> d.lastDialed == Some(id)
  {
    hide Sound;
  }

  // ---------- the tasks of a call ----------

  /** A dial command of the call is still to be answered. */
  predicate DialLeft(t: Task, id: nat) {
    t.owner == OfCall(id) && exists j :: t.cindex <= j < |t.cmds| && IsDial(t.cmds[j])
  }

  /** A dial command of the call waits in the queue, written or not. */
  predicate PendingDial(q: Queue, id: nat) {
    exists k :: 0 <= k < |q.tasks| && DialLeft(q.tasks[k], id)
  }

  lemma AddedPending(q: Queue, owner: Owner, cmds: seq<Cmd>, prio: bool, id: nat)
    requires !PendingDial(q, id) && (owner != OfCall(id) || NoDial(cmds))
    ensures !PendingDial(Added(q, owner, cmds, prio), id)
  {
    hide Wrap, DialLeft;
    var e := Task(|q.issued|, owner, cmds, 0);
    assert !DialLeft(e, id) by { NewTaskDials(e, id); }
    var now := Added(q, owner, cmds, prio);
    forall k | 0 <= k < |now.tasks|
      ensures !DialLeft(now.tasks[k], id)
    {
      assert now.tasks[k] in q.tasks || now.tasks[k] == e;
    }
  }

  lemma NewTaskDials(t: Task, id: nat)
    requires t.owner != OfCall(id) || NoDial(t.cmds)
    ensures !DialLeft(t, id)
  {
  }

  lemma RemovedPending(q: Queue, id: nat)
    requires !PendingDial(q, id)
    ensures !PendingDial(Removed(q), id)
  {
    hide Wrap, DialLeft;
    var now := Removed(q);
    assert forall k :: 0 <= k < |now.tasks| ==> now.tasks[k] in q.tasks;
  }

  /** The head in another state, the tasks behind it as they are. */
  lemma HeadPending(q: Queue, t: Task, atCmds: int, log: seq<Event>, id: nat)
    requires !PendingDial(q, id) && q.tasks != []
    requires var u := q.tasks[0];
             && t.owner == u.owner && |t.cmds| == |u.cmds| && t.cindex >= u.cindex
             && forall j :: 0 <= j < |t.cmds| ==> t.cmds[j].code == u.cmds[j].code && t.cmds[j].res == u.cmds[j].res
    ensures !PendingDial(q.(tasks := [t] + q.tasks[1..], atCmds := atCmds, log := log), id)
  {
    assert !DialLeft(t, id) by { assert !DialLeft(q.tasks[0], id); }
    hide DialLeft;
    var now := [t] + q.tasks[1..];
    assert forall k :: 1 <= k < |now| ==> now[k] == q.tasks[k];
  }

  lemma CmdRemovedPending(q: Queue, res: int, id: nat)
    requires !PendingDial(q, id) && Runnable(q)
    ensures !PendingDial(CmdRemoved(q, res), id)
  {
    hide Wrap, PendingDial, Removed;
    if q.tasks != [] {
      var t := q.tasks[0];
      var u, log := t.(cindex := t.cindex + 1), q.log + [Retired(t.id, t.cindex, res)];
      HeadPending(q, u, Wrap(q.atCmds - 1), log, id);
      RemovedPending(q.(tasks := [u] + q.tasks[1..], atCmds := Wrap(q.atCmds - 1), log := log), id);
    }
  }

  lemma SamePending(q: Queue, r: Queue, id: nat)
    requires q.tasks == r.tasks
    ensures PendingDial(q, id) <==> PendingDial(r, id)
  {
  }

  lemma RanPending(q: Queue, count: nat, id: nat)
    requires !PendingDial(q, id) && Runnable(q)
    ensures !PendingDial(Ran(q, count), id)
  {
    hide PendingDial, CmdRemoved;
    if q.tasks != [] {
      var t := q.tasks[0];
      var c, log := t.cmds[t.cindex], q.log + [Wrote(t.id, t.cindex, count)];
      SamePending(q, q.(log := log), id);
      CmdRemovedPending(q.(log := log), c.res + 1, id);
      HeadPending(q, t.(cmds := t.cmds[t.cindex := c.(data := "")]), q.atCmds, log, id);
    }
  }

  lemma RelinkedPending(q: Queue, owner: Owner, id: nat)
    requires !PendingDial(q, id)
    ensures !PendingDial(q.(tasks := Relinked(q.tasks, owner)), id)
  {
    var now := Relinked(q.tasks, owner);
    forall k | 0 <= k < |now|
      ensures !DialLeft(now[k], id)
    {
      assert !DialLeft(q.tasks[k], id);
    }
  }

  // ---------- a call without channel and without pending dial stays unnamed ----------

  ghost predicate NoChannel(chans: seq<Call>, id: nat) {
    forall k :: 0 <= k < |chans| && chans[k].id == id ==> !chans[k].channel
  }

  ghost predicate Quiet(d: Device, id: nat) {
    id < d.next && NoChannel(d.chans, id) && d.lastDialed != Some(id) && !PendingDial(d.queue, id)
  }

  /** Nothing but the flags of other calls changes, or a call goes and its tasks are relinked. */
  lemma StateQuiet(d: Device, k: nat, state: State, id: nat)
    requires Quiet(d, id) && k < |d.chans| && |d.chanCount| == STATES
    ensures Quiet(StateChanged(d, k, state), id)
  {
    var now := StateSet(d, k, state);
    StateChangedIs(d, k, state);
    StateSetQuiet(d, k, state, id);
    hide Quiet, StateChanged, StateSet, Activated, Disactivated, Freed;
    AudioQuiet(now, k, id);
    FreedQuiet(now, k, id);
    FreedQuiet(Disactivated(now, k), k, id);
  }

  lemma StateSetQuiet(d: Device, k: nat, state: State, id: nat)
    requires Quiet(d, id) && k < |d.chans| && |d.chanCount| == STATES
    ensures Quiet(StateSet(d, k, state), id)
  {
    hide PendingDial, Bumped;
  }

  lemma AudioQuiet(d: Device, k: nat, id: nat)
    requires Quiet(d, id) && k < |d.chans|
    ensures Quiet(Activated(d, k), id) && Quiet(Disactivated(d, k), id)
  {
    hide PendingDial, Unlinked;
  }

  lemma FreedQuiet(d: Device, k: nat, id: nat)
    requires Quiet(d, id) && k < |d.chans| && |d.chanCount| == STATES
    ensures Quiet(Freed(d, k), id)
  {
    hide Bumped, Relinked, Wrap, PendingDial;
    RelinkedPending(d.queue, OfCall(d.chans[k].id), id);
  }

  lemma InsertedQuiet(d: Device, owner: Owner, cmds: seq<Cmd>, prio: bool, env: Env, id: nat)
    requires AtQueue.Valid(d.queue) && Quiet(d, id) && (owner != OfCall(id) || NoDial(cmds))
    ensures Quiet(Inserted(d, owner, cmds, prio, env), id)
    ensures Quiet(InsertedTask(d, owner, cmds, prio, env), id)
  {
    hide AtQueue.Valid, Added, Ran, PendingDial, NoChannel;
    var a := Added(d.queue, owner, cmds, prio);
    AddedValid(d.queue, owner, cmds, prio);
    CmdRemovedValid(a, 0);
    CmdRemovedValid(d.queue, 0);
    AddedPending(d.queue, owner, cmds, prio, id);
    RanPending(a, env.count, id);
    RanPending(d.queue, env.count, id);
  }

  /** Whether a call is dialed last, its channel and the queue are all that counts. */
  lemma SameQuiet(d: Device, e: Device, id: nat)
    requires Quiet(d, id) && d.next <= e.next && e.queue == d.queue
    requires e.lastDialed == d.lastDialed || e.lastDialed.None?
    requires NoChannel(e.chans, id)
    ensures Quiet(e, id)
  {
  }

  lemma UpdatedQuiet(d: Device, k: nat, c: Call, id: nat)
    requires Quiet(d, id) && k < |d.chans| && c.id == d.chans[k].id && (c.channel ==> d.chans[k].channel)
    ensures Quiet(Updated(d, k, c), id)
  {
  }

  lemma CreatedQuiet(d: Device, callIdx: int, dir: Direction, state: State, success: bool, id: nat)
    requires |d.chanCount| == STATES && Quiet(d, id)
    ensures Quiet(Created(d, callIdx, dir, state, success), id)
  {
    hide Bumped, Wrap, Freed, PendingDial;
    var now, k := Alloc(d, callIdx, dir, state), |d.chans|;
    SameQuiet(d, now, id);
    FreedQuiet(now, k, id);
  }

  lemma DialedQuiet(d: Device, k: nat, cmds: seq<Cmd>, holdOther: bool, conference: bool, ok: bool, env: Env, id: nat)
    requires Sound(d) && Quiet(d, id) && k < |d.chans| && d.chans[k].channel
    ensures AtQueue.Valid(d.queue) && Quiet(Dialed(d, k, cmds, holdOther, conference, ok, env), id)
  {
    SoundParts(d);
    hide Sound, AtQueue.Valid, InsertedTask, Quiet, Table, Audio, Listed;
    var c := d.chans[k];
    assert c.id != id by { HasChannel(d, k, id); }
    var opts := c.(holdOther := c.holdOther || holdOther, conference := c.conference || conference);
    var asked := Updated(d, k, opts);
    UpdatedQuiet(d, k, opts, id);
    InsertedQuiet(asked, OfCall(c.id), cmds, true, env, id);
    InsertedCalls(asked, OfCall(c.id), cmds, true, env);
    UpdatedQuiet(InsertedTask(asked, OfCall(c.id), cmds, true, env), k, opts.(needHangup := true), id);
  }

  lemma HasChannel(d: Device, k: nat, id: nat)
    requires Quiet(d, id) && k < |d.chans| && d.chans[k].channel
    ensures d.chans[k].id != id
  {
  }

  lemma InsertedCalls(d: Device, owner: Owner, cmds: seq<Cmd>, prio: bool, env: Env)
    requires AtQueue.Valid(d.queue)
    ensures Inserted(d, owner, cmds, prio, env).chans == d.chans == InsertedTask(d, owner, cmds, prio, env).chans
  {
    hide AtQueue.Valid, Added, Ran;
  }

  lemma HungUpQuiet(d: Device, k: nat, hangup: Cmd, ok: bool, env: Env, id: nat)
    requires Sound(d) && Quiet(d, id) && k < |d.chans| && IsHangup(hangup)
    ensures AtQueue.Valid(d.queue) && Quiet(HungUp(d, k, hangup, ok, env), id)
  {
    SoundParts(d);
    hide Sound, AtQueue.Valid, InsertedTask, PendingDial, Table, Audio, HungUp, Quieted, NoChannel;
    var c := d.chans[k];
    assert NoDial([hangup, CLCC]);
    InsertedQuiet(d, OfCall(c.id), [hangup, CLCC], true, env, id);
    InsertedQuiet(d.(lastDialed := None), OfCall(c.id), [hangup, CLCC], true, env, id);
    HungUpParts(d, k, hangup, ok, env);
    QuietedQuiet(AskedHangup(d, k, hangup, env), k, ok, id);
  }

  lemma QuietedQuiet(d: Device, k: nat, ok: bool, id: nat)
    requires Quiet(d, id) && k < |d.chans|
    ensures Quiet(Quieted(d, k, ok), id)
  {
    hide PendingDial, Unlinked;
    SameQuiet(d, Quieted(d, k, ok), id);
  }

  /** `OK` to a command that is no dial of this call. */
  lemma OkQuiet(d: Device, id: nat)
    requires Sound(d) && Quiet(d, id)
    ensures AtQueue.Valid(d.queue) && NoDangling(d) && Quiet(OkReceived(d), id)
  {
    SoundParts(d);
    CmdRemovedValid(d.queue, RES_OK);
    CmdRemovedPending(d.queue, RES_OK, id);
    if d.queue.tasks != [] {
      var t := d.queue.tasks[0];
      var c := t.cmds[t.cindex];
      assert IsDial(c) ==> t.owner != OfCall(id) by { assert !DialLeft(t, id); }
      hide Sound, AtQueue.Valid, PendingDial, Table, Audio, CmdRemoved;
      assert OwnerLive(d.chans, t.owner);
    }
  }

  lemma NumberedQuiet(d: Device, callIdx: int, id: nat)
    requires Sound(d) && d.audioOpen && d.lastDialed.Some? && Quiet(d, id)
    ensures Quiet(Numbered(d, callIdx), id)
  {
    SoundParts(d);
    QuietParts(d, id);
    var idle, k := d.(lastDialed := None), IndexOf(d.chans, d.lastDialed.value);
    hide AtQueue.Valid, Table, Audio, StateChanged, Quiet, Listed;
    SameQuiet(d, idle, id);
    UpdatedQuiet(idle, k, d.chans[k].(callIdx := callIdx), id);
    StateQuiet(Updated(idle, k, d.chans[k].(callIdx := callIdx)), k, Dialing, id);
  }

  /** The insertions after `^ORIG` dial nothing. */
  lemma SyncedQuiet(d: Device, who: nat, volsync: bool, env: Env, env2: Env, id: nat)
    requires Sound(d) && Quiet(d, id) && Listed(d.chans, who)
    ensures AtQueue.Valid(d.queue) && AtQueue.Valid(Inserted(d, OfCall(who), VOLSYNC, true, env).queue)
    ensures Quiet(ClccAsked(if volsync then Inserted(d, OfCall(who), VOLSYNC, true, env) else d, env2), id)
  {
    SoundParts(d);
    hide Sound, AtQueue.Valid, Table, Audio, Inserted, Quiet;
    assert NoDial(VOLSYNC) && NoDial([CLCC]);
    InsertedSound(d, OfCall(who), VOLSYNC, true, env);
    InsertedQuiet(d, OfCall(who), VOLSYNC, true, env, id);
    var synced := Inserted(d, OfCall(who), VOLSYNC, true, env);
    SoundParts(synced);
    InsertedQuiet(synced, Sys, [CLCC], true, env2, id);
    InsertedQuiet(d, Sys, [CLCC], true, env2, id);
  }

  lemma OrigQuiet(d: Device, parsed: bool, callIdx: int, voice: bool, volsync: bool, env: Env, env2: Env, id: nat)
    requires Sound(d) && d.audioOpen && Quiet(d, id)
    ensures Quiet(OrigReceived(d, parsed, callIdx, voice, volsync, env, env2), id)
  {
    SoundParts(d);
    QuietParts(d, id);
    hide Sound, AtQueue.Valid, Table, Audio, Inserted, ClccAsked, Quiet, Listed, Numbered, NoChannel;
    SameQuiet(d, d.(lastDialed := None), id);
    if d.lastDialed.Some? && parsed && voice && MIN_CALL_IDX <= callIdx <= MAX_CALL_IDX {
      NumberedSound(d, callIdx);
      NumberedQuiet(d, callIdx, id);
      SyncedQuiet(Numbered(d, callIdx), d.lastDialed.value, volsync, env, env2, id);
    }
  }

  lemma QuietParts(d: Device, id: nat)
    requires Quiet(d, id)
    ensures NoChannel(d.chans, id) && d.lastDialed != Some(id) && !PendingDial(d.queue, id) && id < d.next
  {
  }

  lemma CendQuiet(d: Device, callIdx: int, env: Env, id: nat)
    requires Sound(d) && d.audioOpen && Quiet(d, id)
    ensures Quiet(CendReceived(d, callIdx, env), id)
  {
    SoundParts(d);
    hide Table, Audio, StateChanged, Inserted, Quiet;
    InsertedSound(d, Sys, [CLCC], true, env);
    InsertedQuiet(d, Sys, [CLCC], true, env, id);
    var asked, k := ClccAsked(d, env), Find(d.chans, callIdx);
    SoundParts(asked);
    if k >= 0 {
      var told := asked.chans[k].(needHangup := false);
      UpdatedQuiet(asked, k, told, id);
      StateQuiet(Updated(asked, k, told), k, Released, id);
    }
  }

  lemma ConnQuiet(d: Device, parsed: bool, callIdx: int, voice: bool, hangup: Cmd, env: Env, env2: Env, id: nat)
    requires Sound(d) && d.audioOpen && Quiet(d, id) && IsHangup(hangup)
    ensures Quiet(ConnReceived(d, parsed, callIdx, voice, hangup, env, env2), id)
  {
    SoundParts(d);
    hide AtQueue.Valid, Table, Audio, StateChanged, Inserted, InsertedTask, Quiet;
    assert NoDial([hangup, CLCC]) && NoDial([CLCC]) && NoDial(CONFERENCE);
    InsertedSound(d, Sys, [CLCC], true, env);
    InsertedQuiet(d, Sys, [CLCC], true, env, id);
    var asked := ClccAsked(d, env);
    SoundParts(asked);
    InsertedQuiet(asked, Sys, [hangup, CLCC], true, env2, id);
    var k := Find(asked.chans, callIdx);
    if k >= 0 {
      StateQuiet(asked, k, Active, id);
      StateChangedSound(asked, k, Active);
      var active := StateChanged(asked, k, Active);
      SoundParts(active);
      InsertedQuiet(active, OfCall(asked.chans[k].id), CONFERENCE, true, env2, id);
    }
  }

  lemma {:induction false} HangupAllQuiet(d: Device, id: nat)
    requires Sound(d) && d.audioOpen && Quiet(d, id)
    ensures |d.chanCount| == STATES && Quiet(HangupAll(d, 0), id)
    decreases |d.chans|
  {
    SoundParts(d);
    hide Table, Audio, StateChanged, Quiet;
    if d.chans != [] {
      var told := d.chans[0].(needHangup := false);
      var told0 := Updated(d, 0, told);
      UpdatedSound(d, 0, told);
      UpdatedQuiet(d, 0, told, id);
      StateQuiet(told0, 0, Released, id);
      StateChangedSound(told0, 0, Released);
      StateChangedTable(told0, 0, Released);
      StillOpen(told0, 0, Released);
      HangupAllQuiet(StateChanged(told0, 0, Released), id);
    }
  }

  lemma DisconnectedQuiet(d: Device, id: nat)
    requires Sound(d) && d.audioOpen && Quiet(d, id)
    ensures |d.chanCount| == STATES && Quiet(Disconnected(d), id)
  {
    SoundParts(d);
    HangupAllSound(d);
    HangupAllQuiet(d, id);
    var gone := if d.chansno == 0 then d else HangupAll(d, 0);
    SoundParts(gone);
    FlushedValid(gone.queue);
    hide AtQueue.Valid, Table, Audio, Sound, HangupAll, Flushed;
    assert !PendingDial(Flushed(gone.queue), id);
  }

  lemma EventQuiet(d: Device, a: Action, id: nat)
    requires Sound(d) && Enabled(d, a) && IsEvent(a) && Quiet(d, id)
    ensures Quiet(DeviceRuns.Stepped(d, a), id)
  {
    SoundParts(d);
    hide Sound, AtQueue.Valid, NoDangling, CallsCounted, Named, NoneReleased, Audio, Table, Quiet, Inserted,
         InsertedTask, Created, Dialed, HungUp, OkReceived, Answered, OrigReceived, CendReceived, ConnReceived,
         Freed, Disconnected, StateChanged, Proceeded;
    match a
    case OkCame => OkQuiet(d, id);
    case AnswerCame(res) => AnsweredQuiet(d, res, id);
    case OrigCame(parsed, callIdx, voice, volsync, env, env2) =>
      OrigQuiet(d, parsed, callIdx, voice, volsync, env, env2, id);
    case CendCame(callIdx, env) => CendQuiet(d, callIdx, env, id);
    case ConnCame(parsed, callIdx, voice, hangup, env, env2) =>
      ConnQuiet(d, parsed, callIdx, voice, hangup, env, env2, id);
    case ClccCame(callIdx, dir, state) =>
      if Find(d.chans, callIdx) >= 0 {
        StateQuiet(d, Find(d.chans, callIdx), state, id);
      }
  }

  lemma StepQuiet(d: Device, a: Action, id: nat)
    requires Sound(d) && Enabled(d, a) && Quiet(d, id)
    ensures Quiet(DeviceRuns.Stepped(d, a), id)
  {
    if IsEvent(a) {
      EventQuiet(d, a, id);
      return;
    }
    SoundParts(d);
    hide Sound, AtQueue.Valid, NoDangling, CallsCounted, Named, NoneReleased, Audio, Table, Quiet, Inserted,
         InsertedTask, Created, Dialed, HungUp, OkReceived, Answered, OrigReceived, CendReceived, ConnReceived,
         Freed, Disconnected, StateChanged, Proceeded;
    match a
    case Connect => SameQuiet(d, d.(audioOpen := true), id) by { QuietParts(d, id); }
    case NewCall(callIdx, dir, state, success) => CreatedQuiet(d, callIdx, dir, state, success, id);
    case Dial(k, cmds, holdOther, conference, ok, env) =>
      DialedQuiet(d, k, cmds, holdOther, conference, ok, env, id);
    case Hangup(k, hangup, ok, env) => HungUpQuiet(d, k, hangup, ok, env, id);
    case Enqueue(owner, cmds, prio, always, env) => InsertedQuiet(d, owner, cmds, prio, env, id);
    case Proceed(count) => ProceededQuiet(d, count, id);
    case Drop(k) => FreedQuiet(d, k, id);
    case Disconnect => DisconnectedQuiet(d, id);
    case _ =>
  }

  lemma ProceededQuiet(d: Device, count: nat, id: nat)
    requires AtQueue.Valid(d.queue) && Quiet(d, id)
    ensures Quiet(Proceeded(d, count), id)
  {
    CmdRemovedValid(d.queue, 0);
    hide AtQueue.Valid, Ran, PendingDial;
    RanPending(d.queue, count, id);
  }

  lemma AnsweredQuiet(d: Device, res: int, id: nat)
    requires AtQueue.Valid(d.queue) && Quiet(d, id)
    ensures Quiet(Answered(d, res), id)
  {
    CmdRemovedValid(d.queue, res);
    hide AtQueue.Valid, CmdRemoved, PendingDial;
    CmdRemovedPending(d.queue, res, id);
  }

  lemma {:induction false} EveryRunQuiet(d: Device, actions: seq<Action>, id: nat)
    requires Sound(d) && After(d, actions).Some? && Quiet(d, id)
    ensures Quiet(After(d, actions).value, id)
  {
    hide Sound, Enabled, DeviceRuns.Stepped, Quiet;
    if actions != [] {
      var n := |actions| - 1;
      EveryRunQuiet(d, actions[..n], id);
      StepQuiet(After(d, actions[..n]).value, actions[n], id);
    }
  }

  // ---------- a pending dial can be answered ----------

  predicate DialAt(q: Queue, k: nat, j: nat, id: nat) {
    && k < |q.tasks|
    && var t := q.tasks[k];
       t.owner == OfCall(id) && t.cindex <= j < |t.cmds| && IsDial(t.cmds[j])
  }

  /** How many commands come before it. */
  function Ahead(q: Queue, k: nat, j: nat): int
    requires k < |q.tasks|
  {
    Remaining(q.tasks[..k]) + j - q.tasks[k].cindex
  }

  lemma {:induction false} RemainingAtLeast(tasks: seq<Task>)
    requires forall i :: 0 <= i < |tasks| ==> tasks[i].cindex <= |tasks[i].cmds|
    ensures Remaining(tasks) >= 0
  {
    if tasks != [] {
      RemainingAtLeast(tasks[..|tasks| - 1]);
    }
  }

  lemma RemainingFirst(tasks: seq<Task>)
    requires tasks != []
    ensures Remaining(tasks) == |tasks[0].cmds| - tasks[0].cindex + Remaining(tasks[1..])
  {
    hide Remaining;
    assert tasks == [tasks[0]] + tasks[1..];
    RemainingConcat([tasks[0]], tasks[1..]);
    RemainingOne(tasks[0]);
  }

  lemma AheadNat(q: Queue, k: nat, j: nat, id: nat)
    requires AtQueue.Valid(q) && DialAt(q, k, j, id)
    ensures Ahead(q, k, j) >= 0
  {
    CmdRemovedValid(q, 0);
    assert forall i :: 1 <= i < |q.tasks| ==> Fresh(q, q.tasks[i]);
    RemainingAtLeast(q.tasks[..k]);
  }

  /** The head task is over: the dial is in the same task, one place further to the front. */
  lemma FewerTasks(q: Queue, r: Queue, k: nat, j: nat, id: nat)
    requires DialAt(q, k, j, id) && k > 0 && r.tasks == q.tasks[1..]
    requires q.tasks[0].cindex + 1 == |q.tasks[0].cmds|
    ensures DialAt(r, k - 1, j, id) && Ahead(r, k - 1, j) == Ahead(q, k, j) - 1
  {
    hide Remaining;
    RemainingFirst(q.tasks[..k]);
    assert q.tasks[..k][1..] == r.tasks[..k - 1];
  }

  /** The head task goes on with its next command. */
  lemma FewerCmds(q: Queue, r: Queue, k: nat, j: nat, id: nat)
    requires DialAt(q, k, j, id) && (k > 0 || j > q.tasks[0].cindex)
    requires r.tasks != [] && r.tasks[1..] == q.tasks[1..]
    requires var t, u := q.tasks[0], r.tasks[0];
             && u.owner == t.owner && u.cindex == t.cindex + 1 && |u.cmds| == |t.cmds|
             && forall i :: t.cindex < i < |t.cmds| ==> u.cmds[i] == t.cmds[i]
    ensures DialAt(r, k, j, id) && Ahead(r, k, j) == Ahead(q, k, j) - 1
  {
    hide Remaining;
    if k > 0 {
      assert r.tasks[k] == r.tasks[1..][k - 1] == q.tasks[1..][k - 1] == q.tasks[k];
      RemainingFirst(q.tasks[..k]);
      RemainingFirst(r.tasks[..k]);
      assert q.tasks[..k][1..] == q.tasks[1..][..k - 1] && r.tasks[..k][1..] == r.tasks[1..][..k - 1];
    }
  }

  /** The head is written and answered as expected: one command fewer comes before the dial. */
  lemma OneFewer(q: Queue, k: nat, j: nat, id: nat) returns (k2: nat)
    requires AtQueue.Valid(q) && DialAt(q, k, j, id) && (k > 0 || j > q.tasks[0].cindex)
    ensures Runnable(q) && DialAt(TaskOrder.Round(q), k2, j, id)
    ensures Ahead(TaskOrder.Round(q), k2, j) == Ahead(q, k, j) - 1
  {
    hide AtQueue.Valid, TaskOrder.Round, Remaining, Ahead, CmdRemoved, IsDial;
    CmdRemovedValid(q, 0);
    TaskOrder.RoundIs(q);
    if q.tasks[0].cindex + 1 == |q.tasks[0].cmds| {
      k2 := k - 1;
      FewerTasks(q, TaskOrder.Round(q), k, j, id);
    } else {
      k2 := k;
      FewerCmds(q, TaskOrder.Round(q), k, j, id);
    }
  }

  lemma TwoActions(d: Device, a: Action, b: Action)
    requires Sound(d) && Enabled(d, a) && Sound(DeviceRuns.Stepped(d, a)) && Enabled(DeviceRuns.Stepped(d, a), b)
    ensures After(d, [a, b]) == Some(DeviceRuns.Stepped(DeviceRuns.Stepped(d, a), b))
  {
    hide Sound, Enabled, DeviceRuns.Stepped;
    assert [a, b][..1] == [a] && [a][..0] == [];
    assert After(d, []) == Some(d);
    assert After(d, [a]) == Some(DeviceRuns.Stepped(d, a));
  }

  lemma WrittenHead(q: Queue)
    requires q.tasks != [] && Runnable(q)
    ensures var t, u := q.tasks[0], Ran(q, |q.tasks[0].cmds[q.tasks[0].cindex].data|).tasks;
            && u != [] && u[0].owner == t.owner && u[0].cindex == t.cindex && |u[0].cmds| == |t.cmds|
            && u[0].cmds[t.cindex].code == t.cmds[t.cindex].code && u[0].cmds[t.cindex].res == t.cmds[t.cindex].res
  {
    hide CmdRemoved;
  }

  /** The command at the head gets on the wire. */
  function Sent(d: Device): Device
    requires AtQueue.Valid(d.queue) && d.queue.tasks != []
  {
    CmdRemovedValid(d.queue, 0);
    Proceeded(d, |d.queue.tasks[0].cmds[d.queue.tasks[0].cindex].data|)
  }

  lemma SentSound(d: Device)
    requires Sound(d) && d.queue.tasks != []
    ensures AtQueue.Valid(d.queue) && Runnable(d.queue) && Sound(Sent(d)) && Runnable(Sent(d).queue)
    ensures Sent(d).audioOpen == d.audioOpen && Sent(d).queue.tasks != []
    ensures var t, u := d.queue.tasks[0], Sent(d).queue.tasks[0];
            && u.owner == t.owner && u.cindex == t.cindex && |u.cmds| == |t.cmds|
            && u.cmds[u.cindex].code == t.cmds[t.cindex].code && u.cmds[u.cindex].res == t.cmds[t.cindex].res
  {
    SoundParts(d);
    CmdRemovedValid(d.queue, 0);
    WrittenHead(d.queue);
    ProceededSound(d, |d.queue.tasks[0].cmds[d.queue.tasks[0].cindex].data|);
    SoundParts(Sent(d));
    CmdRemovedValid(Sent(d).queue, 0);
    hide AtQueue.Valid, Sound, Table, Audio, Ran;
  }

  function ExpectedAnswer(res: int): Action {
    if res == RES_OK then OkCame else AnswerCame(res)
  }

  lemma AnswerRetires(d: Device)
    requires Sound(d) && d.audioOpen && d.queue.tasks != []
    ensures Runnable(d.queue)
    ensures var t := d.queue.tasks[0];
            var res := t.cmds[t.cindex].res;
            && Enabled(d, ExpectedAnswer(res))
            && DeviceRuns.Stepped(d, ExpectedAnswer(res)).queue == CmdRemoved(d.queue, res)
            && DeviceRuns.Stepped(d, ExpectedAnswer(res)).audioOpen
  {
    SoundParts(d);
    CmdRemovedValid(d.queue, 0);
    hide AtQueue.Valid, Table, Audio, CmdRemoved;
    assert OwnerLive(d.chans, d.queue.tasks[0].owner);
  }

  /** The command at the head is written, and the modem answers as expected. */
  lemma RoundHappens(d: Device) returns (actions: seq<Action>)
    requires Sound(d) && d.audioOpen && d.queue.tasks != []
    ensures Runnable(d.queue) && After(d, actions).Some?
    ensures var e := After(d, actions).value; e.audioOpen && e.queue == TaskOrder.Round(d.queue)
  {
    hide Sound, AtQueue.Valid, Ran, CmdRemoved, NoDangling, After;
    SentSound(d);
    AnswerRetires(Sent(d));
    var c := d.queue.tasks[0].cmds[d.queue.tasks[0].cindex];
    actions := [Proceed(|c.data|), ExpectedAnswer(c.res)];
    assert Enabled(d, Proceed(|c.data|)) && DeviceRuns.Stepped(d, Proceed(|c.data|)) == Sent(d);
    TwoActions(d, Proceed(|c.data|), ExpectedAnswer(c.res));
  }

  lemma OkNames(d: Device, id: nat)
    requires Sound(d) && DialFirst(d.queue, id)
    ensures AtQueue.Valid(d.queue) && NoDangling(d)
    ensures OkReceived(d).lastDialed == Some(id) && OkReceived(d).audioOpen == d.audioOpen
  {
    SoundParts(d);
    hide AtQueue.Valid, Table, Audio, CmdRemoved;
    assert OwnerLive(d.chans, d.queue.tasks[0].owner);
  }

  /** The dial command at the head is written, and `OK` comes. */
  lemma DialHappens(d: Device, id: nat) returns (actions: seq<Action>)
    requires Sound(d) && d.audioOpen && DialFirst(d.queue, id)
    ensures After(d, actions).Some?
    ensures After(d, actions).value.audioOpen && After(d, actions).value.lastDialed == Some(id)
  {
    hide Sound, AtQueue.Valid, Ran, CmdRemoved, OkReceived, NoDangling, After;
    SentSound(d);
    OkNames(Sent(d), id);
    var c := d.queue.tasks[0].cmds[d.queue.tasks[0].cindex];
    actions := [Proceed(|c.data|), OkCame];
    assert Enabled(d, Proceed(|c.data|)) && DeviceRuns.Stepped(d, Proceed(|c.data|)) == Sent(d);
    assert Enabled(Sent(d), OkCame);
    TwoActions(d, Proceed(|c.data|), OkCame);
  }

  /** With everything written and answered as expected, a pending dial makes its call the last one dialed. */
  lemma {:induction false} DialComesThrough(d: Device, k: nat, j: nat, id: nat) returns (actions: seq<Action>)
    requires Sound(d) && d.audioOpen && DialAt(d.queue, k, j, id)
    ensures After(d, actions).Some?
    ensures After(d, actions).value.audioOpen && After(d, actions).value.lastDialed == Some(id)
    decreases Ahead(d.queue, k, j)
  {
    SoundParts(d);
    AheadNat(d.queue, k, j, id);
    hide Sound, AtQueue.Valid, Table, Audio, After, Ahead, TaskOrder.Round;
    if k == 0 && j == d.queue.tasks[0].cindex {
      actions := DialHappens(d, id);
    } else {
      var k2 := OneFewer(d.queue, k, j, id);
      var first := RoundHappens(d);
      var rest := DialComesThrough(After(d, first).value, k2, j, id);
      AfterConcat(d, first, rest);
      actions := first + rest;
    }
  }

  // ---------- what `^ORIG` names ----------

  /** `^ORIG` in this state is taken to be about this call. */
  ghost predicate Names(d: Device, a: Action, id: nat) {
    && a.OrigCame? && a.parsed && a.voice && MIN_CALL_IDX <= a.callIdx <= MAX_CALL_IDX
    && d.lastDialed == Some(id)
  }

  /** It is the last action of the run that names the call. */
  ghost predicate EndsNaming(d: Device, actions: seq<Action>, id: nat)
    requires Sound(d)
  {
    && actions != [] && After(d, actions).Some?
    && Names(After(d, actions[..|actions| - 1]).value, actions[|actions| - 1], id)
  }

  ghost predicate CanBeNamed(d: Device, id: nat)
    requires Sound(d)
  {
    exists actions :: EndsNaming(d, actions, id)
  }

  /** A call whose channel is gone is named in some run iff it is the last one dialed, or its dial is pending. */
  lemma NamedIff(d: Device, id: nat)
    requires Sound(d) && d.audioOpen && id < d.next && NoChannel(d.chans, id)
    ensures CanBeNamed(d, id) <==> d.lastDialed == Some(id) || PendingDial(d.queue, id)
  {
    hide Sound, Enabled, DeviceRuns.Stepped, NoChannel;
    if PendingDial(d.queue, id) {
      var k :| 0 <= k < |d.queue.tasks| && DialLeft(d.queue.tasks[k], id);
      var j :| d.queue.tasks[k].cindex <= j < |d.queue.tasks[k].cmds| && IsDial(d.queue.tasks[k].cmds[j]);
      var actions := DialComesThrough(d, k, j, id);
      NamedNext(d, actions, id);
    } else if d.lastDialed == Some(id) {
      NamedNext(d, [], id);
    } else {
      forall actions
        ensures !EndsNaming(d, actions, id)
      {
        if actions != [] && After(d, actions).Some? {
          EveryRunQuiet(d, actions[..|actions| - 1], id);
        }
      }
    }
  }

  lemma NamedNext(d: Device, actions: seq<Action>, id: nat)
    requires Sound(d) && After(d, actions).Some?
    requires After(d, actions).value.audioOpen && After(d, actions).value.lastDialed == Some(id)
    ensures CanBeNamed(d, id)
  {
    hide Sound, DeviceRuns.Stepped;
    var orig := OrigCame(true, MIN_CALL_IDX, true, false, Env(true, 0), Env(true, 0));
    var all := actions + [orig];
    assert all[..|all| - 1] == actions && all[|all| - 1] == orig;
    assert EndsNaming(d, all, id);
  }

  // ---------- a call hung up ----------

  lemma AddedStillPending(q: Queue, owner: Owner, cmds: seq<Cmd>, prio: bool, id: nat)
    requires PendingDial(q, id)
    ensures PendingDial(Added(q, owner, cmds, prio), id)
  {
    hide Wrap, DialLeft;
    var k :| 0 <= k < |q.tasks| && DialLeft(q.tasks[k], id);
    var now := Added(q, owner, cmds, prio);
    assert cmds == [] ==> now == q;
    assert now.tasks[if cmds != [] && prio && k > 0 then k + 1 else k] == q.tasks[k];
  }

  /** What is inserted behind a command on the wire leaves the dial commands of the queue as they are. */
  lemma InsertedPending(d: Device, owner: Owner, cmds: seq<Cmd>, env: Env, id: nat)
    requires AtQueue.Valid(d.queue) && NoDial(cmds) && Runnable(d.queue) && LockSections.Settled(d.queue)
    ensures PendingDial(InsertedTask(d, owner, cmds, true, env).queue, id) <==> PendingDial(d.queue, id)
  {
    var q := Added(d.queue, owner, cmds, true);
    AddedValid(d.queue, owner, cmds, true);
    CmdRemovedValid(q, 0);
    if PendingDial(d.queue, id) {
      assert q.tasks[0] == d.queue.tasks[0];
      hide AtQueue.Valid, Added, PendingDial, CmdRemoved;
      AddedStillPending(d.queue, owner, cmds, true, id);
      assert Ran(q, env.count) == q && Ran(d.queue, env.count) == d.queue;
    } else {
      hide AtQueue.Valid, Added, Ran, PendingDial;
      AddedPending(d.queue, owner, cmds, true, id);
      RanPending(q, env.count, id);
      RanPending(d.queue, env.count, id);
    }
  }

  /**
   A call hung up before `^ORIG` can still be named iff a dial command of it is in the queue then; and
   that one is there iff it was before, when the head of the queue was on the wire.
   */
  lemma HungUpNamedIff(d: Device, k: nat, hangup: Cmd, ok: bool, env: Env)
    requires Sound(d) && d.audioOpen && k < |d.chans| && IsHangup(hangup)
    ensures AtQueue.Valid(d.queue) && Runnable(d.queue) && Sound(HungUp(d, k, hangup, ok, env))
    ensures var id, e := d.chans[k].id, HungUp(d, k, hangup, ok, env);
            && (CanBeNamed(e, id) <==>
                  || (d.lastDialed == Some(id) && !(d.chans[k].needHangup && d.chans[k].state.Init?))
                  || PendingDial(e.queue, id))
            && (LockSections.Settled(d.queue) ==> (PendingDial(e.queue, id) <==> PendingDial(d.queue, id)))
  {
    SoundParts(d);
    CmdRemovedValid(d.queue, 0);
    var id, e := d.chans[k].id, HungUp(d, k, hangup, ok, env);
    HungUpSound(d, k, hangup, ok, env);
    HungUpDialed(d, k, hangup, ok, env);
    HungUpCalls(d, k, hangup, ok, env);
    hide Sound, AtQueue.Valid, Table, Audio, HungUp, PendingDial;
    NamedIff(e, id);
    if LockSections.Settled(d.queue) {
      InsertedPending(d, OfCall(id), [hangup, CLCC], env, id);
      InsertedPending(d.(lastDialed := None), OfCall(id), [hangup, CLCC], env, id);
    }
  }

  /** `channel_hangup`, once the hangup is in the queue. */
  function Quieted(d: Device, k: nat, ok: bool): Device
    requires k < |d.chans|
  {
    var quiet := Disactivated(Updated(d, k, d.chans[k].(needHangup := d.chans[k].needHangup && !ok)), k);
    Updated(quiet, k, quiet.chans[k].(channel := false))
  }

  lemma QuietedCalls(d: Device, k: nat, ok: bool)
    requires k < |d.chans| && forall i :: 0 <= i < |d.chans| && i != k ==> d.chans[i].id != d.chans[k].id
    ensures var id, e := d.chans[k].id, Quieted(d, k, ok);
            && NoChannel(e.chans, id) && e.next == d.next && e.audioOpen == d.audioOpen && e.queue == d.queue
            && |e.chans| == |d.chans| && e.chans[k].id == id
  {
    hide Disactivated;
    DisactivatedRest(Updated(d, k, d.chans[k].(needHangup := d.chans[k].needHangup && !ok)), k);
  }

  /** The queue with the hangup of a call in it. */
  function AskedHangup(d: Device, k: nat, hangup: Cmd, env: Env): Device
    requires AtQueue.Valid(d.queue) && k < |d.chans|
  {
    if !d.chans[k].needHangup then d
    else InsertedTask(if d.chans[k].state.Init? then d.(lastDialed := None) else d,
                      OfCall(d.chans[k].id), [hangup, CLCC], true, env)
  }

  lemma HungUpCalls(d: Device, k: nat, hangup: Cmd, ok: bool, env: Env)
    requires Sound(d) && k < |d.chans|
    ensures AtQueue.Valid(d.queue)
    ensures var id, e := d.chans[k].id, HungUp(d, k, hangup, ok, env);
            && NoChannel(e.chans, id) && id < e.next && e.audioOpen == d.audioOpen
            && |e.chans| == |d.chans| && e.chans[k].id == id
            && e.queue == AskedHangup(d, k, hangup, env).queue
  {
    SoundParts(d);
    assert forall i :: 0 <= i < |d.chans| && i != k ==> d.chans[i].id != d.chans[k].id;
    assert d.chans[k].id < d.next;
    hide AtQueue.Valid, Sound, Table, Audio, Named, NoDangling, CallsCounted, NoneReleased, InsertedTask, NoChannel,
         HungUp, Quieted;
    InsertedRest(d, OfCall(d.chans[k].id), [hangup, CLCC], env);
    InsertedRest(d.(lastDialed := None), OfCall(d.chans[k].id), [hangup, CLCC], env);
    var asked := AskedHangup(d, k, hangup, env);
    assert asked.chans == d.chans && asked.next == d.next && asked.audioOpen == d.audioOpen;
    QuietedCalls(asked, k, ok);
    HungUpParts(d, k, hangup, ok, env);
  }

  lemma HungUpParts(d: Device, k: nat, hangup: Cmd, ok: bool, env: Env)
    requires AtQueue.Valid(d.queue) && k < |d.chans|
    ensures AskedHangup(d, k, hangup, env).chans == d.chans
    ensures HungUp(d, k, hangup, ok, env) == Quieted(AskedHangup(d, k, hangup, env), k, ok)
  {
    hide AtQueue.Valid, InsertedTask, Disactivated;
    InsertedRest(d, OfCall(d.chans[k].id), [hangup, CLCC], env);
    InsertedRest(d.(lastDialed := None), OfCall(d.chans[k].id), [hangup, CLCC], env);
  }

  lemma DisactivatedRest(d: Device, k: nat)
    requires k < |d.chans|
    ensures var e := Disactivated(d, k);
            && e.next == d.next && e.audioOpen == d.audioOpen && e.queue == d.queue && |e.chans| == |d.chans|
            && (forall i :: 0 <= i < |d.chans| ==> e.chans[i].id == d.chans[i].id)
            && e.chans[k].state == d.chans[k].state
  {
    hide Unlinked;
  }

  lemma InsertedRest(d: Device, owner: Owner, cmds: seq<Cmd>, env: Env)
    requires AtQueue.Valid(d.queue)
    ensures var e := InsertedTask(d, owner, cmds, true, env);
            e.chans == d.chans && e.next == d.next && e.audioOpen == d.audioOpen
  {
    hide AtQueue.Valid, Added, Ran;
  }

  lemma ThreeActions(d: Device, e: Device, f: Device, a: Action, b: Action, c: Action)
    requires Sound(d) && Enabled(d, a) && e == DeviceRuns.Stepped(d, a)
    requires Sound(e) && Enabled(e, b) && f == DeviceRuns.Stepped(e, b)
    requires Sound(f) && Enabled(f, c)
    ensures After(d, [a, b, c]) == Some(DeviceRuns.Stepped(f, c))
  {
    hide Sound, Enabled, DeviceRuns.Stepped;
    TwoActions(d, a, b);
    assert [a, b, c][..2] == [a, b];
  }

  lemma HeadStays(d: Device, owner: Owner, cmds: seq<Cmd>, env: Env)
    requires AtQueue.Valid(d.queue) && Runnable(d.queue) && LockSections.Settled(d.queue) && d.queue.tasks != []
    ensures var q := InsertedTask(d, owner, cmds, true, env).queue; q.tasks != [] && q.tasks[0] == d.queue.tasks[0]
  {
    hide AtQueue.Valid, CmdRemoved;
  }

  /** Hung up, the call keeps its dial command at the head. */
  lemma HangsUp(d: Device, k: nat, hangup: Cmd, env: Env)
    requires Sound(d) && k < |d.chans|
    requires DialFirst(d.queue, d.chans[k].id) && LockSections.Settled(d.queue)
    ensures AtQueue.Valid(d.queue)
    ensures var e := HungUp(d, k, hangup, true, env);
            Sound(e) && e.audioOpen == d.audioOpen && DialFirst(e.queue, d.chans[k].id)
  {
    var id := d.chans[k].id;
    SoundParts(d);
    HungUpSound(d, k, hangup, true, env);
    HungUpCalls(d, k, hangup, true, env);
    HeadStays(d, OfCall(id), [hangup, CLCC], env);
    HeadStays(d.(lastDialed := None), OfCall(id), [hangup, CLCC], env);
    hide Sound, AtQueue.Valid, HungUp, InsertedTask, Table, Audio;
  }

  /** The call has the index, and is dialing. */
  ghost predicate DialingAs(d: Device, id: nat, callIdx: int) {
    exists k :: 0 <= k < |d.chans| && d.chans[k].id == id && d.chans[k].callIdx == callIdx && d.chans[k].state.Dialing?
  }

  lemma OkThenOrig(d: Device, id: nat, callIdx: int, env: Env)
    requires Sound(d) && d.audioOpen && DialFirst(d.queue, id)
    requires MIN_CALL_IDX <= callIdx <= MAX_CALL_IDX
    ensures AtQueue.Valid(d.queue) && NoDangling(d)
    ensures var e := OkReceived(d);
            Sound(e) && e.audioOpen && DialingAs(OrigReceived(e, true, callIdx, true, false, env, env), id, callIdx)
  {
    OkNames(d, id);
    OkReceivedSound(d);
    var e := OkReceived(d);
    hide Sound, AtQueue.Valid, OkReceived, OrigReceived, Table, Audio, Listed;
    CallStories.OrigNamesCall(e, callIdx, false, env, env);
    SoundParts(e);
    var f := OrigReceived(e, true, callIdx, true, false, env, env);
    var k := IndexOf(f.chans, id);
    assert f.chans[k].id == id && f.chans[k].callIdx == callIdx;
  }

  /** Dialed and written, then hung up: `OK` comes late, and `^ORIG` is taken to be about the call. */
  lemma LateOk(d: Device, k: nat, hangup: Cmd, env: Env, callIdx: int, env2: Env)
    requires Sound(d) && d.audioOpen && k < |d.chans| && d.chans[k].channel
    requires IsHangup(hangup) && MIN_CALL_IDX <= callIdx <= MAX_CALL_IDX
    requires DialFirst(d.queue, d.chans[k].id) && LockSections.Settled(d.queue)
    ensures var actions := [Hangup(k, hangup, true, env), OkCame, OrigCame(true, callIdx, true, false, env2, env2)];
            After(d, actions).Some? && DialingAs(After(d, actions).value, d.chans[k].id, callIdx)
  {
    hide Sound, AtQueue.Valid, HungUp, OkReceived, OrigReceived, NoDangling, DialingAs, After, LockSections.Settled,
         DialFirst;
    HangsUp(d, k, hangup, env);
    var e := HungUp(d, k, hangup, true, env);
    OkThenOrig(e, d.chans[k].id, callIdx, env2);
    var hang, orig := Hangup(k, hangup, true, env), OrigCame(true, callIdx, true, false, env2, env2);
    ThreeActions(d, e, OkReceived(e), hang, OkCame, orig);
  }

  const FIRST_CALL: Call := Calls.Call(0, 1, OutgoingCall, Init, true, false, false, false, false, false)

  lemma CallFromStart()
    ensures Sound(NEW_DEVICE) && Sound(NEW_DEVICE.(audioOpen := true))
    ensures var d := Created(NEW_DEVICE.(audioOpen := true), 1, OutgoingCall, Init, true);
            Sound(d) && d.chans == [FIRST_CALL] && d.queue == EMPTY && d.audioOpen
  {
    NewSound();
    ConnectSound(NEW_DEVICE);
    CreatedSound(NEW_DEVICE.(audioOpen := true), 1, OutgoingCall, Init, true);
    hide Sound;
  }

  lemma DialedFirst(d: Device, c: Call, dial: string)
    requires Sound(d) && d.chans == [c] && d.queue == EMPTY && dial != ""
    ensures AtQueue.Valid(d.queue)
    ensures var e := Dialed(d, 0, DialCmds(false, None, dial), false, false, true, Env(true, |dial|));
            && Sound(e) && e.chans == [c.(needHangup := true)] && e.audioOpen == d.audioOpen
            && DialFirst(e.queue, c.id) && LockSections.Settled(e.queue)
  {
    DialedSound(d, 0, DialCmds(false, None, dial), false, false, true, Env(true, |dial|));
    EmptyValid();
    hide AtQueue.Valid, CmdRemoved, Sound;
    var cmds := DialCmds(false, None, dial);
    assert cmds == [Cmd(CMD_D, RES_OK, true, dial), CLCC, DDSETEX];
    var q := Added(EMPTY, OfCall(c.id), cmds, true);
    assert q.tasks == [Task(0, OfCall(c.id), cmds, 0)];
  }

  /** From the start of a device to a call that is dialed and waits for the answer. */
  lemma DialedFromStart(dial: string)
    requires dial != ""
    ensures Sound(NEW_DEVICE)
    ensures var actions := [Connect, NewCall(1, OutgoingCall, Init, true),
                            Dial(0, DialCmds(false, None, dial), false, false, true, Env(true, |dial|))];
            && After(NEW_DEVICE, actions).Some?
            && var d := After(NEW_DEVICE, actions).value;
               && d.audioOpen && d.chans == [FIRST_CALL.(needHangup := true)]
               && DialFirst(d.queue, 0) && LockSections.Settled(d.queue)
  {
    hide Sound, AtQueue.Valid, Created, Dialed, DialFirst, LockSections.Settled, DialCmds, After;
    CallFromStart();
    var d1 := NEW_DEVICE.(audioOpen := true);
    var d2 := Created(d1, 1, OutgoingCall, Init, true);
    DialedFirst(d2, FIRST_CALL, dial);
    ThreeActions(NEW_DEVICE, d1, d2, Connect, NewCall(1, OutgoingCall, Init, true),
                 Dial(0, DialCmds(false, None, dial), false, false, true, Env(true, |dial|)));
  }

  /** The whole run: dialed, hung up before `OK`, and named all the same. */
  lemma HungUpIsNamed(dial: string, hangup: Cmd, env: Env, callIdx: int, env2: Env)
    requires dial != "" && IsHangup(hangup) && MIN_CALL_IDX <= callIdx <= MAX_CALL_IDX
    ensures Sound(NEW_DEVICE)
    ensures var actions := [Connect, NewCall(1, OutgoingCall, Init, true),
                            Dial(0, DialCmds(false, None, dial), false, false, true, Env(true, |dial|)),
                            Hangup(0, hangup, true, env), OkCame, OrigCame(true, callIdx, true, false, env2, env2)];
            && After(NEW_DEVICE, actions).Some?
            && DialingAs(After(NEW_DEVICE, actions).value, 0, callIdx)
  {
    hide Sound, After, Enabled, DialingAs, IsHangup, DialCmds, DialFirst, LockSections.Settled;
    DialedFromStart(dial);
    var a := [Connect, NewCall(1, OutgoingCall, Init, true),
              Dial(0, DialCmds(false, None, dial), false, false, true, Env(true, |dial|))];
    var b := [Hangup(0, hangup, true, env), OkCame, OrigCame(true, callIdx, true, false, env2, env2)];
    var d := After(NEW_DEVICE, a).value;
    LateOk(d, 0, hangup, env, callIdx, env2);
    AfterConcat(NEW_DEVICE, a, b);
    assert a + b == [a[0], a[1], a[2], b[0], b[1], b[2]];
  }
}
