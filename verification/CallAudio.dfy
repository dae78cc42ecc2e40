/**
 In every run of a device, the state of a call says whether it is in the mixer.
 */
module CallAudio {
  import opened Wrappers
  import AtQueue
  import opened Calls
  import opened Handlers
  import CallStories
  import Requests
  import opened DeviceRuns

  /** What a call is heard by stays as it was. */
  lemma SameHeard(d: Device, e: Device)
    requires Heard(d) && |e.chans| == |d.chans|
    requires forall k :: 0 <= k < |d.chans| ==>
               && e.chans[k].state == d.chans[k].state && e.chans[k].channel == d.chans[k].channel
               && e.chans[k].activated == d.chans[k].activated
    ensures Heard(e)
  {
    forall k | 0 <= k < |e.chans|
      ensures CallHeard(e.chans[k])
    {
      assert CallHeard(d.chans[k]);
    }
  }

  lemma CreatedHeard(d: Device, callIdx: int, dir: Direction, state: State, success: bool)
    requires Heard(d) && |d.chanCount| == STATES && NewState(dir, state)
    ensures Heard(Created(d, callIdx, dir, state, success))
  {
    hide Bumped, AtQueue.Relinked, AtQueue.Wrap;
    var e := Created(d, callIdx, dir, state, success);
    forall k | 0 <= k < |e.chans|
      ensures CallHeard(e.chans[k])
    {
      if k < |d.chans| {
        assert CallHeard(d.chans[k]) && e.chans[k] == d.chans[k];
      }
    }
  }

  lemma HungUpHeard(d: Device, k: nat, hangup: AtQueue.Cmd, ok: bool, env: Env)
    requires Sound(d) && Heard(d) && k < |d.chans|
    ensures AtQueue.Valid(d.queue) && Heard(HungUp(d, k, hangup, ok, env))
  {
    CallStories.HungUpIsQuiet(d, k, hangup, ok, env);
    hide HungUp, Sound;
    var e := HungUp(d, k, hangup, ok, env);
    forall i | 0 <= i < |e.chans|
      ensures CallHeard(e.chans[i])
    {
      assert CallHeard(d.chans[i]);
    }
  }

  lemma DialedHeard(d: Device, k: nat, cmds: seq<AtQueue.Cmd>, holdOther: bool, conference: bool, ok: bool, env: Env)
    requires Sound(d) && Heard(d) && k < |d.chans|
    ensures AtQueue.Valid(d.queue) && Heard(Dialed(d, k, cmds, holdOther, conference, ok, env))
  {
    hide AtQueue.Valid, Table, Audio, Heard, Dialed;
    SoundParts(d);
    Requests.DialedCalls(d, k, cmds, holdOther, conference, ok, env);
    SameHeard(d, Dialed(d, k, cmds, holdOther, conference, ok, env));
  }

  lemma OkNotedHeard(d: Device, owner: AtQueue.Owner, code: int)
    requires Heard(d) && OwnerLive(d.chans, owner)
    ensures Heard(OkNoted(d, owner, code))
  {
    hide Heard;
    SameHeard(d, OkNoted(d, owner, code));
  }

  lemma OkHeard(d: Device)
    requires Sound(d) && Heard(d)
    ensures AtQueue.Valid(d.queue) && NoDangling(d) && Heard(OkReceived(d))
  {
    hide AtQueue.Valid, NoDangling, OwnerLive, Sound, Heard, OkNoted, OkReceived;
    SoundParts(d);
    CallStories.OkCalls(d);
    if d.queue.tasks != [] {
      var t := d.queue.tasks[0];
      var noted := OkNoted(d, t.owner, t.cmds[t.cindex].code);
      OkNotedHeard(d, t.owner, t.cmds[t.cindex].code);
      SameHeard(if OkReceived(d).chans == d.chans then d else noted, OkReceived(d));
    } else {
      SameHeard(d, OkReceived(d));
    }
  }

  lemma OrigHeard(d: Device, parsed: bool, callIdx: int, voice: bool, volsync: bool, env: Env, env2: Env)
    requires Sound(d) && Heard(d) && d.audioOpen
    ensures Heard(OrigReceived(d, parsed, callIdx, voice, volsync, env, env2))
  {
    hide AtQueue.Valid, Table, Audio, Heard, StateChanged, Inserted, Listed;
    SoundParts(d);
    if d.lastDialed.None? || !parsed || !voice || !(MIN_CALL_IDX <= callIdx <= MAX_CALL_IDX) {
      SameHeard(d, d.(lastDialed := None));
    } else {
      var id, idle := d.lastDialed.value, d.(lastDialed := None);
      var k := IndexOf(d.chans, id);
      var known := Updated(idle, k, d.chans[k].(callIdx := callIdx));
      NotDialedSound(d);
      UpdatedSound(idle, k, d.chans[k].(callIdx := callIdx));
      SameHeard(d, known);
      StateChangedHeard(known, k, Dialing);
      NumberedSound(d, callIdx);
      CallStories.InsertionsKeep(Numbered(d, callIdx), id, volsync, env, env2);
      SameHeard(Numbered(d, callIdx), OrigReceived(d, parsed, callIdx, voice, volsync, env, env2));
    }
  }

  lemma ConnHeard(d: Device, parsed: bool, callIdx: int, voice: bool, hangup: AtQueue.Cmd, env: Env, env2: Env)
    requires Sound(d) && Heard(d) && d.audioOpen
    ensures Heard(ConnReceived(d, parsed, callIdx, voice, hangup, env, env2))
  {
    hide AtQueue.Valid, Table, Audio, Heard, StateChanged, Inserted, InsertedTask, Listed;
    SoundParts(d);
    InsertedSound(d, AtQueue.Sys, [CLCC], true, env);
    var asked, e := ClccAsked(d, env), ConnReceived(d, parsed, callIdx, voice, hangup, env, env2);
    SoundParts(asked);
    SameHeard(d, asked);
    InsertedSound(asked, AtQueue.Sys, [hangup, CLCC], true, env2);
    var k := Find(asked.chans, callIdx);
    if parsed && voice && k >= 0 {
      StateChangedHeard(asked, k, Active);
      StateChangedSound(asked, k, Active);
      DialingListed(asked, k);
      InsertedSound(StateChanged(asked, k, Active), AtQueue.OfCall(asked.chans[k].id), CONFERENCE, true, env2);
      SameHeard(StateChanged(asked, k, Active), e);
    } else {
      SameHeard(asked, e);
    }
  }

  lemma GoneHeard(d: Device, e: Device, k: int)
    requires Heard(d) && k < |d.chans| && e.chans == if k < 0 then d.chans else Cut(d.chans, k)
    ensures Heard(e)
  {
    if k >= 0 {
      CutHeard(d.chans, k);
    }
  }

  lemma StepHeard(d: Device, a: Action)
    requires Sound(d) && Enabled(d, a) && Heard(d)
    ensures Heard(Stepped(d, a))
  {
    hide Sound, Heard, AtQueue.Valid, NoDangling, CallsCounted, Named, NoneReleased, Audio, StateChanged;
    SoundParts(d);
    match a
    case NewCall(callIdx, dir, state, success) => CreatedHeard(d, callIdx, dir, state, success);
    case Dial(k, cmds, holdOther, conference, ok, env) => DialedHeard(d, k, cmds, holdOther, conference, ok, env);
    case Hangup(k, hangup, ok, env) => HungUpHeard(d, k, hangup, ok, env);
    case Enqueue(owner, cmds, prio, always, env) =>
      InsertedSound(d, owner, cmds, prio, env);
      SameHeard(d, Stepped(d, a));
    case OkCame => OkHeard(d);
    case OrigCame(parsed, callIdx, voice, volsync, env, env2) =>
      OrigHeard(d, parsed, callIdx, voice, volsync, env, env2);
    case CendCame(callIdx, env) =>
      CallStories.CendEnds(d, callIdx, env);
      GoneHeard(d, Stepped(d, a), Find(d.chans, callIdx));
    case ConnCame(parsed, callIdx, voice, hangup, env, env2) =>
      ConnHeard(d, parsed, callIdx, voice, hangup, env, env2);
    case ClccCame(callIdx, dir, state) =>
      var k := Find(d.chans, callIdx);
      if k >= 0 {
        StateChangedHeard(d, k, state);
      }
    case Drop(k) => GoneHeard(d, Stepped(d, a), k);
    case Disconnect =>
      DisconnectedEmpty(d);
      NobodyHeard(Stepped(d, a));
    case _ => SameHeard(d, Stepped(d, a));
  }

  lemma NobodyHeard(d: Device)
    requires d.chans == []
    ensures Heard(d)
  {
  }

  lemma {:induction false} EveryRunHeard(states: seq<Device>, actions: seq<Action>, i: nat)
    requires IsRun(states, actions) && i < |states|
    ensures Sound(states[i]) && Heard(states[i])
  {
    hide Sound, Heard, Stepped, Enabled;
    EveryRunSound(states, actions, i);
    if i == 0 {
      NobodyHeard(states[0]);
    } else {
      EveryRunHeard(states, actions, i - 1);
      var j := i - 1;
      assert Leads(states[j], actions[j], states[j + 1]);
      StepHeard(states[j], actions[j]);
    }
  }

  /**
   In every run: of a call that has a channel, and is dialing, alerting or active, the stream is in the mixer; of a
   call on hold, or not yet begun, it is not; and there is no stream of anything else than a call with a channel.
   */
  lemma StateTellsAudio(states: seq<Device>, actions: seq<Action>, i: nat, k: nat)
    requires IsRun(states, actions) && i < |states| && k < |states[i].chans|
    ensures var c, streams := states[i].chans[k], states[i].streams;
            && (c.channel && (c.state.Dialing? || c.state.Alerting? || c.state.Active?) ==> c.id in streams)
            && (c.state.OnHold? || c.state.Init? || !c.channel ==> c.id !in streams && !c.master)
  {
    EveryRunHeard(states, actions, i);
    hide Table;
    assert CallHeard(states[i].chans[k]);
  }

  /** What the modem says of a call takes effect at once, and what is queued is queued. */
  lemma EventsTakeEffect(d: Device, a: Action)
    requires Sound(d) && Enabled(d, a)
    ensures a.ConnCame? && a.parsed && a.voice && Find(d.chans, a.callIdx) >= 0 ==>
              var e := Stepped(d, a);
              |e.chans| == |d.chans| && e.chans[Find(d.chans, a.callIdx)].state.Active?
    ensures a.ClccCame? && Find(d.chans, a.callIdx) >= 0 && d.chans[Find(d.chans, a.callIdx)].dir == a.dir ==>
              var e := Stepped(d, a);
              |e.chans| == |d.chans| && e.chans[Find(d.chans, a.callIdx)].state == a.state
    ensures a.Enqueue? && a.cmds != [] && a.env.memory ==>
              Stepped(d, a).queue.issued == d.queue.issued + [a.cmds]
  {
    SoundParts(d);
    hide AtQueue.Valid, Table, Audio, ConnReceived, ClccReceived, Inserted, InsertedTask;
    match a
    case ConnCame(parsed, callIdx, voice, hangup, env, env2) =>
      if parsed && voice && Find(d.chans, callIdx) >= 0 {
        CallStories.ConnAnswers(d, callIdx, hangup, env, env2);
      }
    case ClccCame(callIdx, dir, state) => Requests.ClccTells(d, callIdx, dir, state);
    case Enqueue(owner, cmds, prio, always, env) =>
      if cmds != [] && env.memory {
        InsertedIssued(d, owner, cmds, prio, env);
      }
    case _ =>
  }

  lemma InsertedIssued(d: Device, owner: AtQueue.Owner, cmds: seq<AtQueue.Cmd>, prio: bool, env: Env)
    requires AtQueue.Valid(d.queue) && cmds != [] && env.memory
    ensures Inserted(d, owner, cmds, prio, env).queue.issued == d.queue.issued + [cmds]
    ensures InsertedTask(d, owner, cmds, prio, env).queue.issued == d.queue.issued + [cmds]
  {
    AtQueue.AddedValid(d.queue, owner, cmds, prio);
    Requests.SoundQueue(AtQueue.Added(d.queue, owner, cmds, prio));
    Requests.RanTasks(AtQueue.Added(d.queue, owner, cmds, prio), env.count);
    hide AtQueue.Valid, AtQueue.Ran, AtQueue.Wrap;
  }
}
