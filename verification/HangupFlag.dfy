/**
 Which calls the modem is to be asked to hang up: the flag of a call, over every run of a device.
 */
module HangupFlag {
  import opened Wrappers
  import AtQueue
  import opened Calls
  import opened Handlers
  import CallStories
  import opened DeviceRuns
  import Requests

  ghost predicate Needs(chans: seq<Call>, id: nat) {
    exists k :: 0 <= k < |chans| && chans[k].id == id && chans[k].needHangup
  }

  /** The command that `OK` answers is one of these, for this call. */
  predicate OkFor(q: AtQueue.Queue, id: nat, codes: set<int>) {
    && q.tasks != [] && q.tasks[0].owner == AtQueue.OfCall(id) && q.tasks[0].cindex < |q.tasks[0].cmds|
    && var c := q.tasks[0].cmds[q.tasks[0].cindex];
       (c.res == AtQueue.RES_OK || c.res == RES_CMGR) && c.code in codes
  }

  /** There is a call to hang up: it came, it was dialed, or the modem agreed to dial, answer or take it. */
  ghost predicate Raises(d: Device, a: Action, id: nat) {
    match a
    case NewCall(_, dir, _, success) => success && dir.IncomingCall? && id == d.next
    case Dial(k, _, _, _, ok, _) => ok && k < |d.chans| && d.chans[k].id == id
    case OkCame => OkFor(d.queue, id, {CMD_D, CMD_A, CMD_CHLD_2X})
    case _ => false
  }

  /** There is no more: the hangup was queued, the modem agreed to it, or the call ended. */
  ghost predicate Lowers(d: Device, a: Action, id: nat) {
    match a
    case Hangup(k, _, ok, _) => ok && k < |d.chans| && d.chans[k].id == id
    case OkCame => OkFor(d.queue, id, {CMD_CHUP, CMD_CHLD_1X})
    case CendCame(callIdx, _) => Find(d.chans, callIdx) >= 0 && d.chans[Find(d.chans, callIdx)].id == id
    case Drop(k) => k < |d.chans| && d.chans[k].id == id
    case Disconnect => true
    case _ => false
  }

  /** The same calls, with the same flags. */
  ghost predicate SameFlags(a: seq<Call>, b: seq<Call>) {
    |a| == |b| && forall i :: 0 <= i < |a| ==> a[i].id == b[i].id && a[i].needHangup == b[i].needHangup
  }

  lemma SameNeeds(a: seq<Call>, b: seq<Call>, id: nat)
    requires SameFlags(a, b)
    ensures Needs(a, id) <==> Needs(b, id)
  {
    if Needs(a, id) {
      var k :| 0 <= k < |a| && a[k].id == id && a[k].needHangup;
      assert b[k].id == id;
    }
  }

  /** One call has another flag. */
  lemma SetNeeds(a: seq<Call>, k: nat, c: Call, id: nat)
    requires k < |a| && c.id == a[k].id && forall i :: 0 <= i < |a| && i != k ==> a[i].id != a[k].id
    ensures Needs(a[k := c], id) <==> if id == c.id then c.needHangup else Needs(a, id)
  {
    var b := a[k := c];
    assert b[k] == c;
    if id != c.id && Needs(a, id) {
      var i :| 0 <= i < |a| && a[i].id == id && a[i].needHangup;
      assert b[i] == a[i];
    }
    if Needs(b, id) {
      var i :| 0 <= i < |b| && b[i].id == id && b[i].needHangup;
      assert i != k ==> b[i] == a[i];
    }
  }

  lemma CutNeeds(a: seq<Call>, k: nat, id: nat)
    requires k < |a| && forall i :: 0 <= i < |a| && i != k ==> a[i].id != a[k].id
    ensures Needs(Cut(a, k), id) <==> id != a[k].id && Needs(a, id)
  {
    var b := Cut(a, k);
    assert forall i :: 0 <= i < |b| ==> b[i] == a[if i < k then i else i + 1];
    if id != a[k].id && Needs(a, id) {
      var i :| 0 <= i < |a| && a[i].id == id && a[i].needHangup;
      assert b[if i < k then i else i - 1] == a[i];
    }
  }

  lemma StateFlags(d: Device, k: nat, state: State)
    requires Audio(d) && k < |d.chans| && |d.chanCount| == STATES && d.audioOpen && !state.Released?
    ensures SameFlags(d.chans, StateChanged(d, k, state).chans)
  {
    hide StateChanged, Audio;
    StateSame(d, k, state);
    if d.chans[k].state != state {
      if d.chans[k].channel {
        StateHeard(d, k, state);
      } else {
        StateUnheard(d, k, state);
      }
    }
  }

  lemma StateSame(d: Device, k: nat, state: State)
    requires k < |d.chans| && |d.chanCount| == STATES
    ensures d.chans[k].state == state ==> StateChanged(d, k, state) == d
  {
    hide Bumped, Activated, Disactivated, Freed;
  }

  lemma Apart(d: Device, k: nat)
    requires Named(d) && k < |d.chans|
    ensures forall i :: 0 <= i < |d.chans| && i != k ==> d.chans[i].id != d.chans[k].id
  {
  }

  lemma NewNeeds(d: Device, callIdx: int, dir: Direction, state: State, success: bool, id: nat)
    requires Sound(d)
    ensures |d.chanCount| == STATES
    ensures Needs(Created(d, callIdx, dir, state, success).chans, id)
            <==> (success && dir.IncomingCall? && id == d.next) || Needs(d.chans, id)
  {
    Requests.CreatedCall(d, callIdx, dir, state, success);
    hide Created, Sound;
    var e := Created(d, callIdx, dir, state, success);
    if Needs(d.chans, id) {
      var k :| 0 <= k < |d.chans| && d.chans[k].id == id && d.chans[k].needHangup;
      assert e.chans[k] == d.chans[k];
    }
    if success {
      assert e.chans[|d.chans|].id == d.next;
    }
  }

  lemma HungUpNeeds(d: Device, k: nat, hangup: AtQueue.Cmd, ok: bool, env: Env, id: nat)
    requires Sound(d) && k < |d.chans|
    ensures AtQueue.Valid(d.queue)
    ensures Needs(HungUp(d, k, hangup, ok, env).chans, id) <==> Needs(d.chans, id) && !(ok && id == d.chans[k].id)
  {
    CallStories.HungUpIsQuiet(d, k, hangup, ok, env);
    SoundParts(d);
    Apart(d, k);
    hide HungUp, Sound, Table, Audio, Named;
    var e := HungUp(d, k, hangup, ok, env);
    assert e.chans == d.chans[k := e.chans[k]];
    SetNeeds(d.chans, k, e.chans[k], id);
    SetNeeds(d.chans, k, d.chans[k], id);
    assert d.chans[k := d.chans[k]] == d.chans;
  }

  lemma DialNeeds(d: Device, k: nat, cmds: seq<AtQueue.Cmd>, holdOther: bool, conference: bool, ok: bool, env: Env,
                  id: nat)
    requires Sound(d) && k < |d.chans|
    ensures AtQueue.Valid(d.queue)
    ensures Needs(Dialed(d, k, cmds, holdOther, conference, ok, env).chans, id)
            <==> (ok && id == d.chans[k].id) || Needs(d.chans, id)
  {
    SoundParts(d);
    Apart(d, k);
    Requests.DialedCalls(d, k, cmds, holdOther, conference, ok, env);
    hide Dialed, AtQueue.Valid, Table, Audio, Named;
    var e := Dialed(d, k, cmds, holdOther, conference, ok, env);
    SetNeeds(d.chans, k, e.chans[k], id);
    SetNeeds(d.chans, k, d.chans[k], id);
    assert d.chans[k := d.chans[k]] == d.chans;
  }

  /** `OK` to a command of a call. */
  lemma NotedNeeds(d: Device, owner: AtQueue.Owner, code: int, id: nat)
    requires Named(d) && OwnerLive(d.chans, owner)
    ensures Needs(OkNoted(d, owner, code).chans, id)
            <==> if owner != AtQueue.OfCall(id) then Needs(d.chans, id)
                 else if code in {CMD_D, CMD_A, CMD_CHLD_2X} then true
                 else if code in {CMD_CHUP, CMD_CHLD_1X} then false else Needs(d.chans, id)
  {
    if owner.OfCall? {
      var k := IndexOf(d.chans, owner.call);
      Apart(d, k);
      hide Needs;
      SetNeeds(d.chans, k, d.chans[k].(needHangup := true), id);
      SetNeeds(d.chans, k, d.chans[k].(needHangup := false), id);
    }
  }

  lemma OkNeeds(d: Device, id: nat)
    requires Sound(d)
    ensures AtQueue.Valid(d.queue) && NoDangling(d)
    ensures Needs(OkReceived(d).chans, id)
            <==> Raises(d, OkCame, id) || (Needs(d.chans, id) && !Lowers(d, OkCame, id))
  {
    hide AtQueue.Valid, NoDangling, OwnerLive, Sound, OkNoted, OkReceived, Needs, Named, CallsCounted, NoneReleased;
    SoundParts(d);
    CallStories.OkCalls(d);
    if d.queue.tasks != [] {
      var t := d.queue.tasks[0];
      NotedNeeds(d, t.owner, t.cmds[t.cindex].code, id);
    }
  }

  lemma OrigNeeds(d: Device, parsed: bool, callIdx: int, voice: bool, volsync: bool, env: Env, env2: Env)
    requires Sound(d) && d.audioOpen
    ensures SameFlags(d.chans, OrigReceived(d, parsed, callIdx, voice, volsync, env, env2).chans)
  {
    hide AtQueue.Valid, Table, Audio, StateChanged, Inserted, Listed;
    SoundParts(d);
    if d.lastDialed.Some? && parsed && voice && MIN_CALL_IDX <= callIdx <= MAX_CALL_IDX {
      var id, idle := d.lastDialed.value, d.(lastDialed := None);
      var k := IndexOf(d.chans, id);
      var known := Updated(idle, k, d.chans[k].(callIdx := callIdx));
      NotDialedSound(d);
      UpdatedSound(idle, k, d.chans[k].(callIdx := callIdx));
      StateFlags(known, k, Dialing);
      NumberedSound(d, callIdx);
      CallStories.InsertionsKeep(Numbered(d, callIdx), id, volsync, env, env2);
    }
  }

  lemma ConnNeeds(d: Device, parsed: bool, callIdx: int, voice: bool, hangup: AtQueue.Cmd, env: Env, env2: Env)
    requires Sound(d) && d.audioOpen
    ensures SameFlags(d.chans, ConnReceived(d, parsed, callIdx, voice, hangup, env, env2).chans)
  {
    hide AtQueue.Valid, Table, Audio, StateChanged, Inserted, InsertedTask, Listed;
    SoundParts(d);
    InsertedSound(d, AtQueue.Sys, [CLCC], true, env);
    var asked := ClccAsked(d, env);
    SoundParts(asked);
    InsertedSound(asked, AtQueue.Sys, [hangup, CLCC], true, env2);
    var k := Find(asked.chans, callIdx);
    if parsed && voice && k >= 0 {
      StateFlags(asked, k, Active);
      StateChangedSound(asked, k, Active);
      DialingListed(asked, k);
      InsertedSound(StateChanged(asked, k, Active), AtQueue.OfCall(asked.chans[k].id), CONFERENCE, true, env2);
    }
  }

  lemma GoneNeeds(d: Device, k: int, e: Device, id: nat)
    requires Named(d) && k < |d.chans| && e.chans == if k < 0 then d.chans else Cut(d.chans, k)
    ensures Needs(e.chans, id) <==> Needs(d.chans, id) && !(k >= 0 && id == d.chans[k].id)
  {
    if k >= 0 {
      Apart(d, k);
      CutNeeds(d.chans, k, id);
    }
  }

  /** After one action a call is to be hung up iff this made it so, or it was and is not settled. */
  lemma StepNeeds(d: Device, a: Action, id: nat)
    requires Sound(d) && Enabled(d, a)
    ensures Needs(Stepped(d, a).chans, id) <==> Raises(d, a, id) || (Needs(d.chans, id) && !Lowers(d, a, id))
  {
    hide Sound, AtQueue.Valid, NoDangling, CallsCounted, Named, NoneReleased, Audio, StateChanged, Needs;
    SoundParts(d);
    match a
    case NewCall(callIdx, dir, state, success) => NewNeeds(d, callIdx, dir, state, success, id);
    case Dial(k, cmds, holdOther, conference, ok, env) => DialNeeds(d, k, cmds, holdOther, conference, ok, env, id);
    case Hangup(k, hangup, ok, env) => HungUpNeeds(d, k, hangup, ok, env, id);
    case Enqueue(owner, cmds, prio, always, env) => InsertedSound(d, owner, cmds, prio, env);
    case OkCame => OkNeeds(d, id);
    case OrigCame(parsed, callIdx, voice, volsync, env, env2) =>
      OrigNeeds(d, parsed, callIdx, voice, volsync, env, env2);
      SameNeeds(d.chans, Stepped(d, a).chans, id);
    case CendCame(callIdx, env) =>
      CallStories.CendEnds(d, callIdx, env);
      GoneNeeds(d, Find(d.chans, callIdx), Stepped(d, a), id);
    case ConnCame(parsed, callIdx, voice, hangup, env, env2) =>
      ConnNeeds(d, parsed, callIdx, voice, hangup, env, env2);
      SameNeeds(d.chans, Stepped(d, a).chans, id);
    case ClccCame(callIdx, dir, state) =>
      var k := Find(d.chans, callIdx);
      if k >= 0 {
        StateFlags(d, k, state);
        SameNeeds(d.chans, StateChanged(d, k, state).chans, id);
      }
    case Drop(k) => GoneNeeds(d, k, Stepped(d, a), id);
    case Disconnect =>
      DisconnectedEmpty(d);
      NoneNeeds(Stepped(d, a), id);
    case _ =>
  }

  lemma NoneNeeds(d: Device, id: nat)
    requires d.chans == []
    ensures !Needs(d.chans, id)
  {
  }

  ghost predicate RaisedAt(states: seq<Device>, actions: seq<Action>, j: nat, i: nat, id: nat)
    requires i < |states| == |actions| + 1
  {
    j < i && Raises(states[j], actions[j], id) && forall m :: j < m < i ==> !Lowers(states[m], actions[m], id)
  }

  /**
   In every run, a call in the list is to be hung up iff it came from outside or was dialed, or the modem agreed to
   dial, answer or take it, and since then no hangup was queued and the modem agreed to none.
   */
  lemma {:induction false} NeedsIff(states: seq<Device>, actions: seq<Action>, i: nat, id: nat)
    requires IsRun(states, actions) && i < |states|
    ensures Needs(states[i].chans, id) <==> exists j :: RaisedAt(states, actions, j, i, id)
  {
    hide Needs, Raises, Lowers, Stepped, Enabled, Sound;
    if i == 0 {
      NoneNeeds(states[0], id);
    } else {
      var n := i - 1;
      NeedsIff(states, actions, n, id);
      EveryRunSound(states, actions, n);
      assert Leads(states[n], actions[n], states[n + 1]);
      StepNeeds(states[n], actions[n], id);
      forall j: nat
        ensures RaisedAt(states, actions, j, i, id)
                <==> (j == n && Raises(states[n], actions[n], id))
                     || (RaisedAt(states, actions, j, n, id) && !Lowers(states[n], actions[n], id))
      {
      }
      assert Raises(states[n], actions[n], id) ==> RaisedAt(states, actions, n, i, id);
    }
  }
}
