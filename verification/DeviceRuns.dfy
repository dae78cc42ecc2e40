/**
 Every run of a device: whatever calls, requests, responses and events come, in whatever order,
 nothing refers to a call that is gone, the counters count, and one call at most owns the audio.
 */
module DeviceRuns {
  import opened Wrappers
  import opened AtQueue
  import opened Calls
  import opened Handlers

  /** The lock of the device makes each of these one step. */
  datatype Action =
    | Connect
    | NewCall(callIdx: int, dir: Direction, state: State, success: bool)
    | Dial(k: nat, cmds: seq<Cmd>, holdOther: bool, conference: bool, ok: bool, env: Env)
    | Hangup(k: nat, hangup: Cmd, ok: bool, env: Env)
    | Enqueue(owner: Owner, cmds: seq<Cmd>, prio: bool, always: bool, env: Env)
    | Proceed(count: nat)
    | OkCame
    | AnswerCame(res: int)
    | OrigCame(parsed: bool, callIdx: int, voice: bool, volsync: bool, env: Env, env2: Env)
    | CendCame(callIdx: int, env: Env)
    | ConnCame(parsed: bool, callIdx: int, voice: bool, hangup: Cmd, env: Env, env2: Env)
    | ClccCame(callIdx: int, dir: Direction, state: State)
    | Drop(k: nat)
    | Disconnect

  /** A command that ends calls: `at_enque_hangup` has one of the two. */
  predicate IsHangup(c: Cmd) {
    (c.code == CMD_CHUP || c.code == CMD_CHLD_1X) && c.res == RES_OK && !c.ignore
  }

  /** `at_enque_dial` only dials. */
  predicate NoDial(cmds: seq<Cmd>) {
    forall j :: 0 <= j < |cmds| ==> cmds[j].code != CMD_D
  }

  /** A call of ours has not begun; one from outside rings, or waits beside another. */
  predicate NewState(dir: Direction, state: State) {
    if dir.OutgoingCall? then state.Init? else state.Incoming? || state.Waiting?
  }

  /**
   What can happen: events come only while the ports are open, a channel asks for the call it has,
   and the calls are not more than their counter can hold.
   */
  ghost predicate Enabled(d: Device, a: Action) {
    match a
    case Connect => true
    case NewCall(_, dir, state, _) => NewState(dir, state) && |d.chans| < UINT32
    case Dial(k, _, _, _, _, _) => k < |d.chans| && d.chans[k].channel
    case Hangup(k, hangup, _, _) => k < |d.chans| && d.chans[k].channel && IsHangup(hangup)
    case Enqueue(owner, cmds, _, _, _) => OwnerLive(d.chans, owner) && NoDial(cmds)
    case Proceed(_) => true
    case OkCame => d.audioOpen
    case AnswerCame(res) => d.audioOpen && res != RES_OK
    case OrigCame(_, _, _, _, _, _) => d.audioOpen
    case CendCame(_, _) => d.audioOpen
    case ConnCame(_, _, _, hangup, _, _) => d.audioOpen && IsHangup(hangup)
    case ClccCame(_, _, state) => d.audioOpen && !state.Released? && !state.Init?
    case Drop(k) => k < |d.chans| && !d.chans[k].channel
    case Disconnect => d.audioOpen && |d.chans| < UINT32
  }

  ghost function Stepped(d: Device, a: Action): Device
    requires Sound(d) && Enabled(d, a)
  {
    TableParts(d);
    match a
    case Connect => d.(audioOpen := true)
    case NewCall(callIdx, dir, state, success) => Created(d, callIdx, dir, state, success)
    case Dial(k, cmds, holdOther, conference, ok, env) => Dialed(d, k, cmds, holdOther, conference, ok, env)
    case Hangup(k, hangup, ok, env) => HungUp(d, k, hangup, ok, env)
    case Enqueue(owner, cmds, prio, always, env) =>
      if always then InsertedTask(d, owner, cmds, prio, env) else Inserted(d, owner, cmds, prio, env)
    case Proceed(count) => Proceeded(d, count)
    case OkCame => OkReceived(d)
    case AnswerCame(res) => Answered(d, res)
    case OrigCame(parsed, callIdx, voice, volsync, env, env2) =>
      OrigReceived(d, parsed, callIdx, voice, volsync, env, env2)
    case CendCame(callIdx, env) => CendReceived(d, callIdx, env)
    case ConnCame(parsed, callIdx, voice, hangup, env, env2) =>
      ConnReceived(d, parsed, callIdx, voice, hangup, env, env2)
    case ClccCame(callIdx, dir, state) => ClccReceived(d, callIdx, dir, state)
    case Drop(k) => Freed(d, k)
    case Disconnect => Disconnected(d)
  }

  /** `at_queue_run` after a response. */
  function Proceeded(d: Device, count: nat): Device
    requires AtQueue.Valid(d.queue)
  {
    RanValid(d.queue, count);
    d.(queue := Ran(d.queue, count))
  }

  lemma ProceededSound(d: Device, count: nat)
    requires Sound(d)
    ensures AtQueue.Valid(d.queue) && Sound(Proceeded(d, count))
  {
    hide AtQueue.Valid, Table, Audio, Ran;
    SoundParts(d);
    RanValid(d.queue, count);
    RanLive(d.chans, d.queue, count);
    QueueReplaced(d, Ran(d.queue, count));
    QueueIgnored(d, Ran(d.queue, count));
  }

  lemma ConnectSound(d: Device)
    requires Sound(d)
    ensures Sound(d.(audioOpen := true))
  {
    hide AtQueue.Valid, CallsCounted;
    SameCounted(d, d.(audioOpen := true));
  }

  lemma DropSound(d: Device, k: nat)
    requires Sound(d) && k < |d.chans| && !d.chans[k].channel
    ensures |d.chanCount| == STATES && Sound(Freed(d, k))
  {
    TableParts(d);
    NeedsChannel(d, k);
    hide Table, Audio, Freed;
    FreedTable(d, k);
    FreedAudio(d, k);
  }

  // ---------- disconnect ----------

  /** Hanging up each call in turn empties the list. */
  lemma {:induction false} HangupAllSound(d: Device)
    requires Sound(d) && d.audioOpen
    ensures |d.chanCount| == STATES && Sound(HangupAll(d, 0)) && HangupAll(d, 0).chans == []
    decreases |d.chans|
  {
    hide Table, Audio, StateChanged;
    SoundParts(d);
    if d.chans != [] {
      var told := Updated(d, 0, d.chans[0].(needHangup := false));
      UpdatedSound(d, 0, d.chans[0].(needHangup := false));
      StateChangedSound(told, 0, Released);
      StateChangedTable(told, 0, Released);
      StillOpen(told, 0, Released);
      HangupAllSound(StateChanged(told, 0, Released));
    }
  }

  lemma StillOpen(d: Device, k: nat, state: State)
    requires k < |d.chans| && |d.chanCount| == STATES
    ensures StateChanged(d, k, state).audioOpen == d.audioOpen
  {
    hide Bumped, Relinked, Unlinked;
  }

  lemma {:induction false} NoneCounted(d: Device)
    requires CallsCounted(d) && d.chans == []
    ensures d.chansno == 0 && forall s: State :: d.chanCount[Number(s)] == 0
  {
    forall s: State
      ensures d.chanCount[Number(s)] == 0
    {
      assert Count(d.chans, s) == 0;
    }
  }

  /** A list that looks empty is empty. */
  lemma LooksEmpty(d: Device)
    requires CallsCounted(d) && d.chansno == 0 && |d.chans| < UINT32
    ensures d.chans == []
  {
  }

  /** What is left when the last call is gone and the queue is flushed. */
  ghost predicate Vacant(d: Device) {
    && d.chans == [] && d.queue.tasks == [] && d.streams == [] && d.lastDialed.None? && !d.audioOpen
    && d.chansno == 0 && d.queue.atTasks == 0 && d.queue.atCmds == 0
    && |d.chanCount| == STATES && forall s: State :: d.chanCount[Number(s)] == 0
  }

  lemma FlushedVacant(d: Device)
    requires Sound(d) && d.chans == []
    ensures var e := d.(queue := Flushed(d.queue), lastDialed := None, audioOpen := false);
            Sound(e) && Vacant(e)
  {
    TableParts(d);
    if d.streams != [] {
      StreamsNeedCalls(d);
    }
    NoneCounted(d);
    CountsSize(d);
    FlushedValid(d.queue);
    hide AtQueue.Valid, Flushed, CallsCounted, Number;
    SameCounted(d, d.(queue := Flushed(d.queue), lastDialed := None, audioOpen := false));
  }

  /** Disconnecting leaves no call, no task, no stream, no last dialed call, and every counter at zero. */
  lemma DisconnectedEmpty(d: Device)
    requires Sound(d) && d.audioOpen && |d.chans| < UINT32
    ensures |d.chanCount| == STATES && Sound(Disconnected(d)) && Vacant(Disconnected(d))
  {
    hide Table, Audio, Vacant, HangupAll, Flushed;
    SoundParts(d);
    if d.chansno == 0 {
      LooksEmpty(d);
    }
    HangupAllSound(d);
    FlushedVacant(if d.chansno == 0 then d else HangupAll(d, 0));
  }

  lemma CountsSize(d: Device)
    requires CallsCounted(d)
    ensures |d.chanCount| == STATES
  {
  }

  // ---------- runs ----------

  lemma StepSound(d: Device, a: Action)
    requires Sound(d) && Enabled(d, a)
    ensures Sound(Stepped(d, a))
  {
    hide Sound, AtQueue.Valid, NoDangling, CallsCounted, Named, NoneReleased;
    SoundParts(d);
    match a
    case Connect => ConnectSound(d);
    case NewCall(callIdx, dir, state, success) => CreatedSound(d, callIdx, dir, state, success);
    case Dial(k, cmds, holdOther, conference, ok, env) => DialedSound(d, k, cmds, holdOther, conference, ok, env);
    case Hangup(k, hangup, ok, env) => HungUpSound(d, k, hangup, ok, env);
    case Enqueue(owner, cmds, prio, always, env) => InsertedSound(d, owner, cmds, prio, env);
    case Proceed(count) => ProceededSound(d, count);
    case OkCame => OkReceivedSound(d);
    case AnswerCame(res) => AnsweredSound(d, res);
    case OrigCame(parsed, callIdx, voice, volsync, env, env2) =>
      OrigReceivedSound(d, parsed, callIdx, voice, volsync, env, env2);
    case CendCame(callIdx, env) => CendReceivedSound(d, callIdx, env);
    case ConnCame(parsed, callIdx, voice, hangup, env, env2) =>
      ConnReceivedSound(d, parsed, callIdx, voice, hangup, env, env2);
    case ClccCame(callIdx, dir, state) =>
      var k := Find(d.chans, callIdx);
      if k >= 0 {
        StateChangedSound(d, k, state);
      }
    case Drop(k) => DropSound(d, k);
    case Disconnect => DisconnectedEmpty(d);
  }

  lemma NewSound()
    ensures Sound(NEW_DEVICE)
  {
    EmptyValid();
  }

  /** From a sound state, the only ones there are. */
  ghost predicate Leads(d: Device, a: Action, e: Device) {
    Sound(d) ==> Enabled(d, a) && e == Stepped(d, a)
  }

  ghost predicate IsRun(states: seq<Device>, actions: seq<Action>) {
    && |states| == |actions| + 1 && states[0] == NEW_DEVICE
    && forall i :: 0 <= i < |actions| ==> Leads(states[i], actions[i], states[i + 1])
  }

  lemma {:induction false} EveryRunSound(states: seq<Device>, actions: seq<Action>, i: nat)
    requires IsRun(states, actions) && i < |states|
    ensures Sound(states[i])
  {
    hide Sound;
    if i == 0 {
      NewSound();
    } else {
      EveryRunSound(states, actions, i - 1);
      var j := i - 1;
      assert Leads(states[j], actions[j], states[j + 1]);
      StepSound(states[j], actions[j]);
    }
  }

  /** In every run, no task and no dial waits for a call that is gone. */
  lemma NoDanglingCalls(states: seq<Device>, actions: seq<Action>, i: nat)
    requires IsRun(states, actions) && i < |states|
    ensures forall t :: t in states[i].queue.tasks && t.owner.OfCall? ==> Listed(states[i].chans, t.owner.call)
    ensures states[i].lastDialed.Some? ==> Listed(states[i].chans, states[i].lastDialed.value)
  {
    EveryRunSound(states, actions, i);
    TableParts(states[i]);
    hide Sound, Listed;
    forall t | t in states[i].queue.tasks && t.owner.OfCall?
      ensures Listed(states[i].chans, t.owner.call)
    {
      assert OwnerLive(states[i].chans, t.owner);
    }
  }

  /**
   Activated with the ports closed, a call would leave its stream in the mixer when it is released.
   No run comes to this, as events come only while the ports are open.
   */
  lemma StreamLeftBehind(d: Device, k: nat)
    requires Sound(d) && !d.audioOpen && k < |d.chans|
    requires d.chans[k].channel && !d.chans[k].activated && !d.chans[k].state.Dialing?
    ensures |d.chanCount| == STATES
    ensures var e := StateChanged(d, k, Dialing);
            && |e.chans| == |d.chans| && |e.chanCount| == STATES
            && var f := StateChanged(e, k, Released);
               d.chans[k].id in f.streams && !Listed(f.chans, d.chans[k].id)
  {
    SoundParts(d);
    assert !d.chans[k].master;
    hide Table, Audio, Bumped, Relinked;
    var e := StateChanged(d, k, Dialing);
    assert e.streams[|d.streams|] == d.chans[k].id;
    var f := StateChanged(e, k, Released);
    assert forall i :: 0 <= i < |f.chans| ==> f.chans[i].id == d.chans[if i < k then i else i + 1].id;
  }
}
