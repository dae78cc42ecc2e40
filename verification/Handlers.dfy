/**
 Everything that changes the call table of a device, as steps: requests of the channels, responses
 and events of the modem, and the disconnect. Every step keeps the table and the audio in order.
 */
module Handlers {
  import opened Wrappers
  import opened AtQueue
  import opened Calls

  const CMD_A: int := 2
  const CMD_CHUP: int := 10
  const CMD_CLIR: int := 12
  const CMD_CLVL: int := 13
  const CMD_D: int := 32
  const CMD_DDSETEX: int := 33
  const CMD_CHLD_1X: int := 40
  const CMD_CHLD_2X: int := 41
  const CMD_CHLD_2: int := 42
  const CMD_CHLD_3: int := 43
  const CMD_CLCC: int := 44
  const RES_CMGR: int := 4
  const MIN_CALL_IDX: int := 0
  const MAX_CALL_IDX: int := 31

  const CLCC: Cmd := Cmd(CMD_CLCC, RES_OK, false, "AT+CLCC\r")
  const VOLSYNC: seq<Cmd> := [Cmd(CMD_CLVL, RES_OK, false, "AT+CLVL=1\r"), Cmd(CMD_CLVL, RES_OK, false, "AT+CLVL=5\r")]
  const CONFERENCE: seq<Cmd> := [Cmd(CMD_CHLD_3, RES_OK, false, "AT+CHLD=3\r"), CLCC]

  const HOLD: Cmd := Cmd(CMD_CHLD_2, RES_OK, false, "AT+CHLD=2\r")
  const DDSETEX: Cmd := Cmd(CMD_DDSETEX, RES_OK, false, "AT^DDSETEX=2\r")

  /** What `at_enque_dial` queues: an active call may be held first, and whether to show the number may be left open. */
  function DialCmds(hold: bool, clir: Option<string>, dial: string): seq<Cmd> {
    (if hold then [HOLD] else [])
    + (if clir.Some? then [Cmd(CMD_CLIR, RES_OK, true, clir.value)] else [])
    + [Cmd(CMD_D, RES_OK, true, dial), CLCC, DDSETEX]
  }

  /** What the surroundings let an insertion do: is there memory, and how much of the head gets written. */
  datatype Env = Env(memory: bool, count: nat)

  /** `at_queue_insert_const` */
  function Inserted(d: Device, owner: Owner, cmds: seq<Cmd>, prio: bool, env: Env): Device
    requires AtQueue.Valid(d.queue)
  {
    AddedValid(d.queue, owner, cmds, prio);
    CmdRemovedValid(Added(d.queue, owner, cmds, prio), 0);
    if cmds == [] || !env.memory then d
    else d.(queue := Ran(Added(d.queue, owner, cmds, prio), env.count))
  }

  /** `at_queue_insert_task`, which runs the queue in any case. */
  function InsertedTask(d: Device, owner: Owner, cmds: seq<Cmd>, prio: bool, env: Env): Device
    requires AtQueue.Valid(d.queue)
  {
    CmdRemovedValid(d.queue, 0);
    if cmds == [] || !env.memory then d.(queue := Ran(d.queue, env.count))
    else Inserted(d, owner, cmds, prio, env)
  }

  /** `request_clcc` */
  function ClccAsked(d: Device, env: Env): Device
    requires AtQueue.Valid(d.queue)
  {
    Inserted(d, Sys, [CLCC], true, env)
  }

  /** `pvt_find_cpvt`: the first call in the list with this index of the modem; -1 if there is none. */
  function Find(chans: seq<Call>, callIdx: int): (k: int)
    ensures -1 <= k < |chans|
    ensures k >= 0 ==> chans[k].callIdx == callIdx && forall i :: 0 <= i < k ==> chans[i].callIdx != callIdx
    ensures k == -1 ==> forall i :: 0 <= i < |chans| ==> chans[i].callIdx != callIdx
  {
    if chans == [] then -1
    else
      var k := Find(chans[..|chans| - 1], callIdx);
      if k >= 0 then k else if chans[|chans| - 1].callIdx == callIdx then |chans| - 1 else -1
  }

  /** Where the record of a call is in the list. */
  function IndexOf(chans: seq<Call>, id: nat): (k: nat)
    requires Listed(chans, id)
    ensures k < |chans| && chans[k].id == id
  {
    if chans[|chans| - 1].id == id then |chans| - 1
    else
      assert Listed(chans[..|chans| - 1], id) by {
        var k :| 0 <= k < |chans| && chans[k].id == id;
        assert chans[..|chans| - 1][k].id == id;
      }
      IndexOf(chans[..|chans| - 1], id)
  }

  // ---------- requests ----------

  /** `new_channel`, and for a call from outside `start_pbx`: a call gets a channel or is freed again. */
  function Created(d: Device, callIdx: int, dir: Direction, state: State, success: bool): Device
    requires |d.chanCount| == STATES
  {
    var now := Alloc(d, callIdx, dir, state);
    var k := |d.chans|;
    if success then Updated(now, k, now.chans[k].(channel := true, needHangup := dir.IncomingCall?))
    else Freed(now, k)
  }

  /** `channel_call`: dials for the call, with the options of the dial string. */
  function Dialed(d: Device, k: nat, cmds: seq<Cmd>, holdOther: bool, conference: bool, ok: bool, env: Env): Device
    requires AtQueue.Valid(d.queue) && k < |d.chans|
  {
    var c := d.chans[k];
    var opts := c.(holdOther := c.holdOther || holdOther, conference := c.conference || conference);
    var now := InsertedTask(Updated(d, k, opts), OfCall(c.id), cmds, true, env);
    if ok then Updated(now, k, opts.(needHangup := true)) else now
  }

  /** `at_enque_hangup` for a call: before `^ORIG` the answer to the dial is no longer waited for. */
  function HangupQueued(d: Device, k: nat, hangup: Cmd, env: Env): Device
    requires AtQueue.Valid(d.queue) && k < |d.chans|
  {
    var c := d.chans[k];
    var now := if c.state.Init? then d.(lastDialed := None) else d;
    InsertedTask(now, OfCall(c.id), [hangup, CLCC], true, env)
  }

  /** `channel_hangup`: the call loses its channel and its audio, and stays in the list. */
  function HungUp(d: Device, k: nat, hangup: Cmd, ok: bool, env: Env): Device
    requires AtQueue.Valid(d.queue) && k < |d.chans|
  {
    var asked := if d.chans[k].needHangup then HangupQueued(d, k, hangup, env) else d;
    var c := asked.chans[k];
    var told := Updated(asked, k, c.(needHangup := c.needHangup && !ok));
    var quiet := Disactivated(told, k);
    Updated(quiet, k, quiet.chans[k].(channel := false))
  }

  // ---------- responses and events of the modem ----------

  function WithHangup(chans: seq<Call>, owner: Owner, need: bool): (r: seq<Call>)
    requires OwnerLive(chans, owner)
    ensures |r| == |chans|
  {
    match owner
    case Sys => chans
    case OfCall(id) =>
      var k := IndexOf(chans, id);
      chans[k := chans[k].(needHangup := need)]
  }

  /** What `OK` means to the call the command was for. */
  function OkNoted(d: Device, owner: Owner, code: int): Device
    requires OwnerLive(d.chans, owner)
  {
    if code == CMD_D then
      d.(chans := WithHangup(d.chans, owner, true),
         lastDialed := if owner.OfCall? then Some(owner.call) else d.lastDialed)
    else if code == CMD_A || code == CMD_CHLD_2X then d.(chans := WithHangup(d.chans, owner, true))
    else if code == CMD_CHUP || code == CMD_CHLD_1X then d.(chans := WithHangup(d.chans, owner, false))
    else d
  }

  /** `at_response_ok` */
  function OkReceived(d: Device): Device
    requires AtQueue.Valid(d.queue) && NoDangling(d)
  {
    CmdRemovedValid(d.queue, RES_OK);
    if d.queue.tasks == [] then d
    else
      var t := d.queue.tasks[0];
      var c := t.cmds[t.cindex];
      if c.res == RES_OK || c.res == RES_CMGR then
        OkNoted(d, t.owner, c.code).(queue := CmdRemoved(d.queue, RES_OK))
      else d
  }

  /** Any other response that moves the queue: errors, `+CMGR`, the prompt for the text of a message. */
  function Answered(d: Device, res: int): Device
    requires AtQueue.Valid(d.queue)
  {
    CmdRemovedValid(d.queue, res);
    d.(queue := CmdRemoved(d.queue, res))
  }

  /** The call dialed last gets the index the modem has for it, and is dialing. */
  function Numbered(d: Device, callIdx: int): Device
    requires Table(d) && d.lastDialed.Some?
  {
    var k := IndexOf(d.chans, d.lastDialed.value);
    StateChanged(Updated(d.(lastDialed := None), k, d.chans[k].(callIdx := callIdx)), k, Dialing)
  }

  lemma NumberedQueue(d: Device, callIdx: int)
    requires Table(d) && d.lastDialed.Some?
    ensures Numbered(d, callIdx).queue == d.queue
  {
    TableParts(d);
    var k := IndexOf(d.chans, d.lastDialed.value);
    QueueUntouched(Updated(d.(lastDialed := None), k, d.chans[k].(callIdx := callIdx)), k, Dialing);
  }

  /** `at_response_orig` */
  function OrigReceived(d: Device, parsed: bool, callIdx: int, voice: bool, volsync: bool, env: Env, env2: Env): Device
    requires Table(d)
  {
    if d.lastDialed.None? || !parsed || !voice || !(MIN_CALL_IDX <= callIdx <= MAX_CALL_IDX) then
      d.(lastDialed := None)
    else
      var dialing := Numbered(d, callIdx);
      NumberedQueue(d, callIdx);
      InsertedQueue(dialing, OfCall(d.lastDialed.value), VOLSYNC, true, env);
      ClccAsked(if volsync then Inserted(dialing, OfCall(d.lastDialed.value), VOLSYNC, true, env) else dialing, env2)
  }

  lemma NotDialed(d: Device)
    requires Table(d)
    ensures Table(d.(lastDialed := None))
  {
    hide AtQueue.Valid, CallsCounted;
    assert d.(lastDialed := None).chans == d.chans;
    assert CallsCounted(d.(lastDialed := None)) by { SameCounted(d, d.(lastDialed := None)); }
  }

  lemma SameCounted(d: Device, e: Device)
    requires CallsCounted(d) && d.chans == e.chans && d.chansno == e.chansno && d.chanCount == e.chanCount
    ensures CallsCounted(e)
  {
  }

  lemma InsertedQueue(d: Device, owner: Owner, cmds: seq<Cmd>, prio: bool, env: Env)
    requires AtQueue.Valid(d.queue)
    ensures AtQueue.Valid(Inserted(d, owner, cmds, prio, env).queue)
    ensures AtQueue.Valid(InsertedTask(d, owner, cmds, prio, env).queue)
  {
    hide AtQueue.Valid, Added, Ran;
    AddedValid(d.queue, owner, cmds, prio);
    RanValid(Added(d.queue, owner, cmds, prio), env.count);
    RanValid(d.queue, env.count);
  }

  /** `at_response_cend`: the call is released. */
  function CendReceived(d: Device, callIdx: int, env: Env): Device
    requires Table(d)
  {
    var asked := ClccAsked(d, env);
    var k := Find(asked.chans, callIdx);
    if k < 0 then asked
    else StateChanged(Updated(asked, k, asked.chans[k].(needHangup := false)), k, Released)
  }

  /** `at_response_conn` */
  function ConnReceived(d: Device, parsed: bool, callIdx: int, voice: bool, hangup: Cmd, env: Env, env2: Env): Device
    requires Table(d)
  {
    InsertedQueue(d, Sys, [CLCC], true, env);
    var asked := ClccAsked(d, env);
    if !parsed || !voice then asked
    else
      var k := Find(asked.chans, callIdx);
      if k < 0 then InsertedTask(asked, Sys, [hangup, CLCC], true, env2)
      else
        var c := asked.chans[k];
        var active := StateChanged(asked, k, Active);
        QueueUntouched(asked, k, Active);
        if c.conference then Inserted(active, OfCall(c.id), CONFERENCE, true, env2) else active
  }

  lemma QueueUntouched(d: Device, k: nat, state: State)
    requires k < |d.chans| && |d.chanCount| == STATES && !state.Released?
    ensures StateChanged(d, k, state).queue == d.queue
  {
    hide Bumped;
  }

  /** One line of `+CLCC` about a call in the list. */
  function ClccReceived(d: Device, callIdx: int, dir: Direction, state: State): Device
    requires Table(d)
  {
    var k := Find(d.chans, callIdx);
    if k >= 0 && d.chans[k].dir == dir && d.chans[k].state != state then StateChanged(d, k, state) else d
  }

  // ---------- disconnect ----------

  /** The loop of `disconnect_dongle`: a call that does not leave the list is passed over. */
  function HangupAll(d: Device, k: nat): Device
    requires k <= |d.chans| && |d.chanCount| == STATES
    decreases |d.chans| - k
  {
    if k == |d.chans| then d
    else
      var now := StateChanged(Updated(d, k, d.chans[k].(needHangup := false)), k, Released);
      if d.chans[k].state.Released? then HangupAll(now, k + 1) else HangupAll(now, k)
  }

  /** `disconnect_dongle` */
  function Disconnected(d: Device): Device
    requires |d.chanCount| == STATES
  {
    var gone := if d.chansno == 0 then d else HangupAll(d, 0);
    gone.(queue := Flushed(gone.queue), lastDialed := None, audioOpen := false)
  }

  // ---------- what keeps the references of the queue ----------

  ghost predicate OwnersLive(chans: seq<Call>, tasks: seq<Task>) {
    forall k :: 0 <= k < |tasks| ==> OwnerLive(chans, tasks[k].owner)
  }

  lemma AddedLive(chans: seq<Call>, q: Queue, owner: Owner, cmds: seq<Cmd>, prio: bool)
    requires OwnersLive(chans, q.tasks) && OwnerLive(chans, owner)
    ensures OwnersLive(chans, Added(q, owner, cmds, prio).tasks)
  {
    hide OwnerLive, Wrap;
  }

  lemma CmdRemovedLive(chans: seq<Call>, q: Queue, res: int)
    requires OwnersLive(chans, q.tasks) && Runnable(q)
    ensures OwnersLive(chans, CmdRemoved(q, res).tasks)
  {
    hide OwnerLive, Wrap;
  }

  lemma RanLive(chans: seq<Call>, q: Queue, count: nat)
    requires OwnersLive(chans, q.tasks) && Runnable(q)
    ensures OwnersLive(chans, Ran(q, count).tasks)
  {
    hide OwnerLive, Wrap, CmdRemoved;
    if q.tasks != [] {
      var t := q.tasks[0];
      var tried := q.(log := q.log + [Wrote(t.id, t.cindex, count)]);
      CmdRemovedLive(chans, tried, t.cmds[t.cindex].res + 1);
    }
  }

  /** The queue of a table may be any sound one that has no dangling references. */
  lemma QueueReplaced(d: Device, q: Queue)
    requires Table(d) && AtQueue.Valid(q) && OwnersLive(d.chans, q.tasks)
    ensures Table(d.(queue := q))
  {
    hide AtQueue.Valid, CallsCounted;
    SameCounted(d, d.(queue := q));
  }

  lemma QueueIgnored(d: Device, q: Queue)
    requires Audio(d)
    ensures Audio(d.(queue := q))
  {
    SameAudio(d, d.(queue := q));
  }

  /** In order: the table, the audio, and a number of calls that fits its counter. */
  ghost predicate Sound(d: Device) {
    Table(d) && Audio(d)
  }

  lemma InsertedSound(d: Device, owner: Owner, cmds: seq<Cmd>, prio: bool, env: Env)
    requires Sound(d) && OwnerLive(d.chans, owner)
    ensures Sound(Inserted(d, owner, cmds, prio, env)) && Sound(InsertedTask(d, owner, cmds, prio, env))
    ensures Inserted(d, owner, cmds, prio, env).chans == d.chans == InsertedTask(d, owner, cmds, prio, env).chans
    ensures Inserted(d, owner, cmds, prio, env).audioOpen == d.audioOpen
    ensures InsertedTask(d, owner, cmds, prio, env).audioOpen == d.audioOpen
  {
    var a := Added(d.queue, owner, cmds, prio);
    hide AtQueue.Valid, Added, Ran, Table, Audio, OwnerLive;
    assert AtQueue.Valid(d.queue) && OwnersLive(d.chans, d.queue.tasks) by { TableParts(d); }
    InsertedQueue(d, owner, cmds, prio, env);
    AddedValid(d.queue, owner, cmds, prio);
    RanValid(a, env.count);
    RanValid(d.queue, env.count);
    AddedLive(d.chans, d.queue, owner, cmds, prio);
    RanLive(d.chans, a, env.count);
    RanLive(d.chans, d.queue, env.count);
    QueueReplaced(d, Ran(a, env.count));
    QueueReplaced(d, Ran(d.queue, env.count));
    QueueIgnored(d, Ran(a, env.count));
    QueueIgnored(d, Ran(d.queue, env.count));
  }

  lemma TableParts(d: Device)
    requires Table(d)
    ensures AtQueue.Valid(d.queue) && OwnersLive(d.chans, d.queue.tasks) && Named(d) && |d.chanCount| == STATES
    ensures NoDangling(d) && CallsCounted(d) && NoneReleased(d)
  {
  }

  lemma SoundParts(d: Device)
    requires Sound(d)
    ensures AtQueue.Valid(d.queue) && OwnersLive(d.chans, d.queue.tasks) && Named(d) && |d.chanCount| == STATES
    ensures NoDangling(d) && CallsCounted(d) && NoneReleased(d) && Table(d) && Audio(d)
  {
  }

  lemma UpdatedSound(d: Device, k: nat, c: Call)
    requires Sound(d) && k < |d.chans|
    requires var o := d.chans[k]; c == o.(callIdx := c.callIdx, needHangup := c.needHangup,
                                          holdOther := c.holdOther, conference := c.conference)
    ensures Sound(Updated(d, k, c))
  {
    hide Table, Audio;
    UpdatedTable(d, k, c);
    SameAudio(d, Updated(d, k, c));
  }

  lemma StateChangedSound(d: Device, k: nat, state: State)
    requires Sound(d) && k < |d.chans| && d.audioOpen
    ensures Sound(StateChanged(d, k, state))
  {
    hide Table, Audio, StateChanged;
    SoundParts(d);
    StateChangedTable(d, k, state);
    StateChangedAudio(d, k, state);
  }

  lemma CreatedSound(d: Device, callIdx: int, dir: Direction, state: State, success: bool)
    requires Sound(d) && !state.Released? && |d.chans| < UINT32
    ensures Sound(Created(d, callIdx, dir, state, success))
  {
    hide Table, Audio, Freed;
    SoundParts(d);
    AllocTable(d, callIdx, dir, state);
    AllocAudio(d, callIdx, dir, state);
    var now, k := Alloc(d, callIdx, dir, state), |d.chans|;
    TableParts(now);
    if success {
      var c := now.chans[k].(channel := true, needHangup := dir.IncomingCall?);
      UpdatedTable(now, k, c);
      ChannelSet(now, k, c);
    } else {
      FreedTable(now, k);
      FreedAudio(now, k);
    }
  }

  /** A channel is given to a call, or taken from one without audio. */
  lemma ChannelSet(d: Device, k: nat, c: Call)
    requires Audio(d) && k < |d.chans| && !d.chans[k].activated
    requires c == d.chans[k].(channel := c.channel, needHangup := c.needHangup)
    ensures Audio(Updated(d, k, c))
  {
    var now := Updated(d, k, c);
    forall s | s in now.streams
      ensures Listed(now.chans, s)
    {
      SameLive(d.chans, now.chans, s);
    }
  }

  lemma StillListed(d: Device, k: nat)
    requires k < |d.chans|
    ensures Listed(d.chans, d.chans[k].id)
  {
  }

  lemma DialedSound(d: Device, k: nat, cmds: seq<Cmd>, holdOther: bool, conference: bool, ok: bool, env: Env)
    requires Sound(d) && k < |d.chans|
    ensures AtQueue.Valid(d.queue) && Sound(Dialed(d, k, cmds, holdOther, conference, ok, env))
  {
    hide AtQueue.Valid, Sound, InsertedTask, Listed;
    SoundParts(d);
    var c := d.chans[k];
    var opts := c.(holdOther := c.holdOther || holdOther, conference := c.conference || conference);
    UpdatedSound(d, k, opts);
    StillListed(Updated(d, k, opts), k);
    InsertedSound(Updated(d, k, opts), OfCall(c.id), cmds, true, env);
    var now := InsertedTask(Updated(d, k, opts), OfCall(c.id), cmds, true, env);
    if ok {
      UpdatedSound(now, k, opts.(needHangup := true));
    }
  }

  lemma NotDialedSound(d: Device)
    requires Sound(d)
    ensures Sound(d.(lastDialed := None))
  {
    hide Table, Audio;
    NotDialed(d);
    SameAudio(d, d.(lastDialed := None));
  }

  lemma HangupQueuedSound(d: Device, k: nat, hangup: Cmd, env: Env)
    requires Sound(d) && k < |d.chans|
    ensures AtQueue.Valid(d.queue) && Sound(HangupQueued(d, k, hangup, env))
    ensures HangupQueued(d, k, hangup, env).chans == d.chans
  {
    hide AtQueue.Valid, Sound, InsertedTask;
    SoundParts(d);
    NotDialedSound(d);
    assert Listed(d.chans, d.chans[k].id);
    var now := if d.chans[k].state.Init? then d.(lastDialed := None) else d;
    InsertedSound(now, OfCall(d.chans[k].id), [hangup, CLCC], true, env);
  }

  lemma DisactivatedSound(d: Device, k: nat)
    requires Sound(d) && k < |d.chans|
    ensures var e := Disactivated(d, k);
            Sound(e) && |e.chans| == |d.chans| && !e.chans[k].activated && e.chans[k].state == d.chans[k].state
  {
    hide Table, Audio, Unlinked;
    SoundParts(d);
    DisactivatedTable(d, k);
    DisactivatedAudio(d, k);
  }

  lemma HungUpSound(d: Device, k: nat, hangup: Cmd, ok: bool, env: Env)
    requires Sound(d) && k < |d.chans|
    ensures AtQueue.Valid(d.queue) && Sound(HungUp(d, k, hangup, ok, env))
  {
    hide AtQueue.Valid, Table, Audio, HangupQueued, Disactivated;
    SoundParts(d);
    HangupQueuedSound(d, k, hangup, env);
    var asked := if d.chans[k].needHangup then HangupQueued(d, k, hangup, env) else d;
    var c := asked.chans[k];
    UpdatedSound(asked, k, c.(needHangup := c.needHangup && !ok));
    var told := Updated(asked, k, c.(needHangup := c.needHangup && !ok));
    DisactivatedSound(told, k);
    var quiet := Disactivated(told, k);
    UpdatedTable(quiet, k, quiet.chans[k].(channel := false));
    ChannelSet(quiet, k, quiet.chans[k].(channel := false));
  }

  lemma OkNotedSound(d: Device, owner: Owner, code: int)
    requires Sound(d) && OwnerLive(d.chans, owner)
    ensures Sound(OkNoted(d, owner, code)) && |OkNoted(d, owner, code).chans| == |d.chans|
    ensures OkNoted(d, owner, code).queue == d.queue
    ensures forall k :: 0 <= k < |d.chans| ==> OkNoted(d, owner, code).chans[k].id == d.chans[k].id
  {
    hide Table, Audio;
    var e := OkNoted(d, owner, code);
    if owner.OfCall? {
      var k := IndexOf(d.chans, owner.call);
      var c := d.chans[k];
      UpdatedSound(d, k, c.(needHangup := true));
      UpdatedSound(d, k, c.(needHangup := false));
      if code == CMD_D {
        var f := Updated(d, k, c.(needHangup := true));
        assert f.chans[k].id == owner.call;
        DialedLast(f, owner.call);
        SameAudio(f, e);
      }
    }
  }

  lemma DialedLast(d: Device, id: nat)
    requires Table(d) && Listed(d.chans, id)
    ensures Table(d.(lastDialed := Some(id)))
  {
    hide AtQueue.Valid, CallsCounted;
    SameCounted(d, d.(lastDialed := Some(id)));
  }

  lemma AnsweredSound(d: Device, res: int)
    requires Sound(d)
    ensures AtQueue.Valid(d.queue) && Sound(Answered(d, res))
  {
    hide AtQueue.Valid, Table, Audio, CmdRemoved;
    SoundParts(d);
    CmdRemovedValid(d.queue, res);
    CmdRemovedLive(d.chans, d.queue, res);
    QueueReplaced(d, CmdRemoved(d.queue, res));
    QueueIgnored(d, CmdRemoved(d.queue, res));
  }

  lemma OkReceivedSound(d: Device)
    requires Sound(d)
    ensures AtQueue.Valid(d.queue) && NoDangling(d) && Sound(OkReceived(d))
  {
    TableParts(d);
    CmdRemovedValid(d.queue, RES_OK);
    hide AtQueue.Valid, Sound, CmdRemoved, OkNoted, OwnerLive;
    if d.queue.tasks != [] {
      var t := d.queue.tasks[0];
      OkNotedSound(d, t.owner, t.cmds[t.cindex].code);
      AnsweredSound(OkNoted(d, t.owner, t.cmds[t.cindex].code), RES_OK);
    }
  }

  lemma NumberedSound(d: Device, callIdx: int)
    requires Sound(d) && d.audioOpen && d.lastDialed.Some?
    ensures Sound(Numbered(d, callIdx)) && Listed(Numbered(d, callIdx).chans, d.lastDialed.value)
  {
    TableParts(d);
    var id, idle := d.lastDialed.value, d.(lastDialed := None);
    var k := IndexOf(d.chans, id);
    var known := Updated(idle, k, d.chans[k].(callIdx := callIdx));
    hide Table, Audio, StateChanged, Listed;
    NotDialedSound(d);
    UpdatedSound(idle, k, d.chans[k].(callIdx := callIdx));
    StateChangedSound(known, k, Dialing);
    DialingListed(known, k);
  }

  lemma OrigReceivedSound(d: Device, parsed: bool, callIdx: int, voice: bool, volsync: bool, env: Env, env2: Env)
    requires Sound(d) && d.audioOpen
    ensures Sound(OrigReceived(d, parsed, callIdx, voice, volsync, env, env2))
  {
    hide AtQueue.Valid, Table, Audio, Inserted, Numbered, Listed;
    SoundParts(d);
    NotDialedSound(d);
    if d.lastDialed.Some? && parsed && voice && MIN_CALL_IDX <= callIdx <= MAX_CALL_IDX {
      NumberedSound(d, callIdx);
      var owner, dialing := OfCall(d.lastDialed.value), Numbered(d, callIdx);
      SoundParts(dialing);
      InsertedSound(dialing, owner, VOLSYNC, true, env);
      InsertedSound(if volsync then Inserted(dialing, owner, VOLSYNC, true, env) else dialing, Sys, [CLCC], true, env2);
    }
  }

  /** A call that is not released is listed still. */
  lemma DialingListed(d: Device, k: nat)
    requires Table(d) && k < |d.chans|
    ensures Listed(StateChanged(d, k, Dialing).chans, d.chans[k].id)
    ensures Listed(StateChanged(d, k, Active).chans, d.chans[k].id)
  {
    hide Bumped;
    TableParts(d);
    assert |StateChanged(d, k, Dialing).chans| == |d.chans| == |StateChanged(d, k, Active).chans|;
    assert StateChanged(d, k, Dialing).chans[k].id == d.chans[k].id;
    assert StateChanged(d, k, Active).chans[k].id == d.chans[k].id;
  }

  lemma CendReceivedSound(d: Device, callIdx: int, env: Env)
    requires Sound(d) && d.audioOpen
    ensures Sound(CendReceived(d, callIdx, env))
  {
    hide Table, Audio, StateChanged, Inserted;
    SoundParts(d);
    InsertedSound(d, Sys, [CLCC], true, env);
    var asked := ClccAsked(d, env);
    SoundParts(asked);
    var k := Find(asked.chans, callIdx);
    if k >= 0 {
      UpdatedSound(asked, k, asked.chans[k].(needHangup := false));
      StateChangedSound(Updated(asked, k, asked.chans[k].(needHangup := false)), k, Released);
    }
  }

  lemma ConnReceivedSound(d: Device, parsed: bool, callIdx: int, voice: bool, hangup: Cmd, env: Env, env2: Env)
    requires Sound(d) && d.audioOpen
    ensures Sound(ConnReceived(d, parsed, callIdx, voice, hangup, env, env2))
  {
    hide AtQueue.Valid, Table, Audio, StateChanged, Inserted, InsertedTask, Listed;
    SoundParts(d);
    InsertedSound(d, Sys, [CLCC], true, env);
    var asked := ClccAsked(d, env);
    SoundParts(asked);
    InsertedSound(asked, Sys, [hangup, CLCC], true, env2);
    var k := Find(asked.chans, callIdx);
    if parsed && voice && k >= 0 {
      StateChangedSound(asked, k, Active);
      DialingListed(asked, k);
      InsertedSound(StateChanged(asked, k, Active), OfCall(asked.chans[k].id), CONFERENCE, true, env2);
    }
  }
}
