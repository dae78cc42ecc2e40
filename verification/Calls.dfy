/**
 The call table of a device: cpvt.c, the call states and audio flags of channel.c, the redundant
 counters, and the references between calls, queued tasks and mixed streams.

 A call is known by a number of its own, which plays the part of the address of its record.
 */
module Calls {
  import opened Wrappers
  import opened AtQueue

  datatype State = Active | OnHold | Dialing | Alerting | Incoming | Waiting | Released | Init

  datatype Direction = OutgoingCall | IncomingCall

  datatype Call = Call(id: nat, callIdx: int, dir: Direction, state: State, channel: bool,
                       needHangup: bool, activated: bool, master: bool, holdOther: bool, conference: bool)

  const STATES: nat := 8

  function Number(s: State): (n: nat)
    ensures n < STATES
  {
    match s
    case Active => 0
    case OnHold => 1
    case Dialing => 2
    case Alerting => 3
    case Incoming => 4
    case Waiting => 5
    case Released => 6
    case Init => 7
  }

  lemma NumberInjective(s: State, t: State)
    requires Number(s) == Number(t)
    ensures s == t
  {
  }

  /** `streams` are the calls whose mix streams are linked in the mixer. */
  datatype Device = Device(chans: seq<Call>, next: nat, lastDialed: Option<nat>, chansno: int,
                           chanCount: seq<int>, queue: Queue, streams: seq<nat>, audioOpen: bool)

  const NEW_DEVICE: Device := Device([], 0, None, 0, [0, 0, 0, 0, 0, 0, 0, 0], EMPTY, [], false)

  /** A counter of 8 bits. */
  function Byte(x: int): int {
    x % 256
  }

  lemma ByteSum(a: int, b: int)
    ensures Byte(Byte(a) + b) == Byte(a + b)
  {
  }

  function Bumped(chanCount: seq<int>, s: State, delta: int): (r: seq<int>)
    requires |chanCount| == STATES
    ensures |r| == STATES
  {
    chanCount[Number(s) := Byte(chanCount[Number(s)] + delta)]
  }

  predicate Listed(chans: seq<Call>, id: nat) {
    exists k :: 0 <= k < |chans| && chans[k].id == id
  }

  function Count(chans: seq<Call>, s: State): nat {
    if chans == [] then 0
    else Count(chans[..|chans| - 1], s) + if chans[|chans| - 1].state == s then 1 else 0
  }

  // ---------- the operations ----------

  /** `cpvt_alloc`, with memory; the first call starts with an empty mixer. */
  function Alloc(d: Device, callIdx: int, dir: Direction, state: State): Device
    requires |d.chanCount| == STATES
  {
    d.(chans := d.chans + [Call(d.next, callIdx, dir, state, false, false, false, false, false, false)],
       next := d.next + 1,
       streams := if d.chansno == 0 then [] else d.streams,
       chansno := Wrap(d.chansno + 1),
       chanCount := Bumped(d.chanCount, state, 1))
  }

  function Cut(chans: seq<Call>, k: nat): seq<Call>
    requires k < |chans|
  {
    chans[..k] + chans[k + 1..]
  }

  /** `cpvt_free`: the tasks of the call go to the system channel. */
  function Freed(d: Device, k: nat): Device
    requires k < |d.chans| && |d.chanCount| == STATES
  {
    var c := d.chans[k];
    d.(chans := Cut(d.chans, k),
       chanCount := Bumped(d.chanCount, c.state, -1),
       chansno := Wrap(d.chansno - 1),
       queue := d.queue.(tasks := Relinked(d.queue.tasks, OfCall(c.id))),
       lastDialed := if d.lastDialed == Some(c.id) then None else d.lastDialed)
  }

  /** `AST_LIST_REMOVE` of the stream of a call. */
  function Unlinked(streams: seq<nat>, id: nat): seq<nat> {
    if streams == [] then []
    else if streams[0] == id then streams[1..]
    else [streams[0]] + Unlinked(streams[1..], id)
  }

  /** `disactivate_call` */
  function Disactivated(d: Device, k: nat): Device
    requires k < |d.chans|
  {
    var c := d.chans[k];
    if c.channel && c.activated then
      d.(chans := d.chans[k := c.(activated := false, master := false)], streams := Unlinked(d.streams, c.id))
    else d
  }

  /** The loop of `activate_call`: no other call is the master. */
  function Deposed(chans: seq<Call>, k: nat): (r: seq<Call>)
    ensures |r| == |chans|
    ensures forall i :: 0 <= i < |r| ==> r[i] == if i == k then chans[i] else chans[i].(master := false)
  {
    seq(|chans|, i requires 0 <= i < |chans| => if i == k then chans[i] else chans[i].(master := false))
  }

  /** `activate_call` */
  function Activated(d: Device, k: nat): Device
    requires k < |d.chans|
  {
    var c := d.chans[k];
    if c.master then d
    else
      var chans := Deposed(d.chans, k);
      d.(chans := if d.audioOpen then chans[k := c.(activated := true, master := true)] else chans,
         streams := if c.activated then d.streams else d.streams + [c.id])
  }

  /** A field of a call changes that no other record depends on. */
  function Updated(d: Device, k: nat, c: Call): Device
    requires k < |d.chans|
  {
    d.(chans := d.chans[k := c])
  }

  function StateSet(d: Device, k: nat, state: State): Device
    requires k < |d.chans| && |d.chanCount| == STATES
  {
    var c := d.chans[k];
    d.(chans := d.chans[k := c.(state := state)],
       chanCount := Bumped(Bumped(d.chanCount, c.state, -1), state, 1))
  }

  /** `change_channel_state` */
  function StateChanged(d: Device, k: nat, state: State): Device
    requires k < |d.chans| && |d.chanCount| == STATES
  {
    var c := d.chans[k];
    if c.state == state then d
    else
      var now := StateSet(d, k, state);
      if !c.channel then
        if state.Released? then Freed(now, k) else now
      else
        match state
        case Dialing => Activated(now, k)
        case Alerting => Activated(now, k)
        case Active => Activated(now, k)
        case OnHold => Disactivated(now, k)
        case Released => Freed(Disactivated(now, k), k)
        case _ => now
  }

  // ---------- integrity of the table ----------

  ghost predicate Named(d: Device) {
    && (forall k :: 0 <= k < |d.chans| ==> d.chans[k].id < d.next)
    && (forall i, j :: 0 <= i < j < |d.chans| ==> d.chans[i].id != d.chans[j].id)
  }

  predicate OwnerLive(chans: seq<Call>, o: Owner) {
    match o
    case Sys => true
    case OfCall(id) => Listed(chans, id)
  }

  /** No reference to a call that is gone. */
  ghost predicate NoDangling(d: Device) {
    && (forall k :: 0 <= k < |d.queue.tasks| ==> OwnerLive(d.chans, d.queue.tasks[k].owner))
    && (d.lastDialed.Some? ==> Listed(d.chans, d.lastDialed.value))
  }

  ghost predicate CallsCounted(d: Device) {
    && |d.chanCount| == STATES
    && d.chansno == Wrap(|d.chans|)
    && (forall s: State :: d.chanCount[Number(s)] == Byte(Count(d.chans, s)))
  }

  /** A released call is not in the list. */
  ghost predicate NoneReleased(d: Device) {
    forall k :: 0 <= k < |d.chans| ==> !d.chans[k].state.Released?
  }

  ghost predicate Table(d: Device) {
    Named(d) && NoDangling(d) && CallsCounted(d) && NoneReleased(d) && AtQueue.Valid(d.queue)
  }

  /** One master at most, a master is activated, an activated call has a channel, and its stream is mixed. */
  ghost predicate Audio(d: Device) {
    && (forall i, j :: 0 <= i < j < |d.chans| ==> !(d.chans[i].master && d.chans[j].master))
    && (forall k :: 0 <= k < |d.chans| ==> d.chans[k].master ==> d.chans[k].activated)
    && (forall k :: 0 <= k < |d.chans| ==> d.chans[k].activated ==> d.chans[k].channel)
    && Linked(d)
  }

  ghost predicate Distinct(streams: seq<nat>) {
    forall i, j :: 0 <= i < j < |streams| ==> streams[i] != streams[j]
  }

  /** The streams in the mixer are those of the activated calls in the list, each once. */
  ghost predicate Linked(d: Device) {
    && (forall k :: 0 <= k < |d.chans| ==> (d.chans[k].activated <==> d.chans[k].id in d.streams))
    && (forall s :: s in d.streams ==> Listed(d.chans, s))
    && Distinct(d.streams)
  }

  // ---------- counting ----------

  lemma {:induction false} CountConcat(a: seq<Call>, b: seq<Call>, s: State)
    ensures Count(a + b, s) == Count(a, s) + Count(b, s)
  {
    if b == [] {
      assert a + b == a;
    } else {
      assert (a + b)[..|a + b| - 1] == a + b[..|b| - 1];
      CountConcat(a, b[..|b| - 1], s);
    }
  }

  lemma CountOne(c: Call, s: State)
    ensures Count([c], s) == if c.state == s then 1 else 0
  {
    assert [c][..0] == [];
  }

  lemma CountCut(chans: seq<Call>, k: nat, s: State)
    requires k < |chans|
    ensures Count(chans, s) == Count(Cut(chans, k), s) + if chans[k].state == s then 1 else 0
  {
    assert chans == (chans[..k] + [chans[k]]) + chans[k + 1..];
    CountConcat(chans[..k] + [chans[k]], chans[k + 1..], s);
    CountConcat(chans[..k], [chans[k]], s);
    CountConcat(chans[..k], chans[k + 1..], s);
    CountOne(chans[k], s);
  }

  lemma BumpedCount(chanCount: seq<int>, s: State, delta: int, t: State, n: int)
    requires |chanCount| == STATES && chanCount[Number(t)] == Byte(n)
    ensures Bumped(chanCount, s, delta)[Number(t)] == Byte(if s == t then n + delta else n)
  {
    hide Number, Byte;
    if s == t {
      ByteSum(n, delta);
    } else if Number(s) == Number(t) {
      NumberInjective(s, t);
    }
  }

  lemma AllocCounted(d: Device, callIdx: int, dir: Direction, state: State)
    requires CallsCounted(d)
    ensures CallsCounted(Alloc(d, callIdx, dir, state))
  {
    hide Number, Byte, Wrap, Count, Bumped;
    WrapSum(|d.chans|, 1);
    var now := Alloc(d, callIdx, dir, state);
    forall s: State
      ensures now.chanCount[Number(s)] == Byte(Count(now.chans, s))
    {
      var c := now.chans[|d.chans|];
      CountConcat(d.chans, [c], s);
      CountOne(c, s);
      BumpedCount(d.chanCount, state, 1, s, Count(d.chans, s));
    }
  }

  lemma FreedCounted(d: Device, k: nat)
    requires CallsCounted(d) && k < |d.chans|
    ensures CallsCounted(Freed(d, k))
  {
    hide Number, Byte, Wrap, Count, Bumped, Relinked;
    WrapSum(|d.chans|, -1);
    var now := Freed(d, k);
    forall s: State
      ensures now.chanCount[Number(s)] == Byte(Count(now.chans, s))
    {
      CountCut(d.chans, k, s);
      BumpedCount(d.chanCount, d.chans[k].state, -1, s, Count(d.chans, s));
    }
  }

  /** A call in another state, all others the same. */
  lemma StateSetCounted(d: Device, k: nat, state: State)
    requires CallsCounted(d) && k < |d.chans|
    ensures CallsCounted(StateSet(d, k, state))
  {
    hide Number, Byte, Wrap, Count, Bumped;
    var now := StateSet(d, k, state);
    forall s: State
      ensures now.chanCount[Number(s)] == Byte(Count(now.chans, s))
    {
      var was := d.chans[k].state;
      CountCut(d.chans, k, s);
      CountCut(now.chans, k, s);
      assert Cut(now.chans, k) == Cut(d.chans, k);
      BumpedCount(d.chanCount, was, -1, s, Count(d.chans, s));
      BumpedCount(Bumped(d.chanCount, was, -1), state, 1, s,
                  if was == s then Count(d.chans, s) - 1 else Count(d.chans, s));
    }
  }

  lemma {:induction false} SameStates(a: seq<Call>, b: seq<Call>, s: State)
    requires |a| == |b| && forall k :: 0 <= k < |a| ==> a[k].state == b[k].state
    ensures Count(a, s) == Count(b, s)
  {
    if a != [] {
      SameStates(a[..|a| - 1], b[..|b| - 1], s);
    }
  }

  // ---------- what keeps the table ----------

  /** The same calls in the same states. */
  ghost predicate SameTable(d: Device, e: Device) {
    && |d.chans| == |e.chans|
    && (forall k :: 0 <= k < |d.chans| ==> d.chans[k].id == e.chans[k].id && d.chans[k].state == e.chans[k].state)
    && d.next == e.next && d.lastDialed == e.lastDialed && d.chansno == e.chansno
    && d.chanCount == e.chanCount && d.queue == e.queue
  }

  lemma SameLive(a: seq<Call>, b: seq<Call>, id: nat)
    requires |a| == |b| && forall k :: 0 <= k < |a| ==> a[k].id == b[k].id
    requires Listed(a, id)
    ensures Listed(b, id)
  {
    var k :| 0 <= k < |a| && a[k].id == id;
    assert b[k].id == id;
  }

  /** The owners of tasks and the last dialed call stay as long as no call leaves the list. */
  lemma StillLive(d: Device, e: Device)
    requires NoDangling(d) && e.queue.tasks == d.queue.tasks && e.lastDialed == d.lastDialed
    requires |e.chans| >= |d.chans| && forall k :: 0 <= k < |d.chans| ==> d.chans[k].id == e.chans[k].id
    ensures NoDangling(e)
  {
    forall id: nat | Listed(d.chans, id)
      ensures Listed(e.chans, id)
    {
      var k :| 0 <= k < |d.chans| && d.chans[k].id == id;
      assert e.chans[k].id == id;
    }
  }

  lemma SameTableKept(d: Device, e: Device)
    requires Table(d) && SameTable(d, e)
    ensures Table(e)
  {
    hide AtQueue.Valid, Listed, OwnerLive, Number, Byte, Wrap;
    StillLive(d, e);
    forall s: State
      ensures Count(d.chans, s) == Count(e.chans, s)
    {
      SameStates(d.chans, e.chans, s);
    }
  }

  lemma AllocTable(d: Device, callIdx: int, dir: Direction, state: State)
    requires Table(d) && !state.Released?
    ensures Table(Alloc(d, callIdx, dir, state))
  {
    assert |d.chanCount| == STATES;
    hide AtQueue.Valid, Listed, OwnerLive, CallsCounted, NoDangling, Wrap, Bumped;
    AllocCounted(d, callIdx, dir, state);
    StillLive(d, Alloc(d, callIdx, dir, state));
  }

  lemma CutLive(chans: seq<Call>, k: nat, id: nat)
    requires k < |chans| && id != chans[k].id && Listed(chans, id)
    ensures Listed(Cut(chans, k), id)
  {
    var j :| 0 <= j < |chans| && chans[j].id == id;
    assert Cut(chans, k)[if j < k then j else j - 1].id == id;
  }

  lemma FreedNoDangling(d: Device, k: nat)
    requires NoDangling(d) && k < |d.chans| && |d.chanCount| == STATES
    ensures NoDangling(Freed(d, k))
  {
    hide Listed, Bumped, Wrap;
    var now, gone := Freed(d, k), d.chans[k].id;
    forall i | 0 <= i < |now.queue.tasks|
      ensures OwnerLive(now.chans, now.queue.tasks[i].owner)
    {
      var o := d.queue.tasks[i].owner;
      assert OwnerLive(d.chans, o);
      if o.OfCall? && o.call != gone {
        CutLive(d.chans, k, o.call);
      }
    }
    if now.lastDialed.Some? {
      CutLive(d.chans, k, now.lastDialed.value);
    }
  }

  /** The call that goes may be in any state; none of those that stay is released. */
  lemma FreedTable(d: Device, k: nat)
    requires Named(d) && NoDangling(d) && CallsCounted(d) && AtQueue.Valid(d.queue) && k < |d.chans|
    requires forall i :: 0 <= i < |d.chans| && i != k ==> !d.chans[i].state.Released?
    ensures Table(Freed(d, k)) && |Freed(d, k).chans| == |d.chans| - 1
  {
    assert |d.chanCount| == STATES;
    hide AtQueue.Valid, Listed, OwnerLive, CallsCounted, NoDangling, Wrap, Bumped, Relinked;
    FreedCounted(d, k);
    FreedNoDangling(d, k);
    RelinkedValid(d.queue, OfCall(d.chans[k].id));
    var now := Freed(d, k);
    assert forall i :: 0 <= i < |now.chans| ==> now.chans[i] == d.chans[if i < k then i else i + 1];
  }

  lemma FreedInOrder(d: Device, k: nat)
    requires Table(d) && k < |d.chans|
    ensures |d.chanCount| == STATES && Table(Freed(d, k))
  {
    hide AtQueue.Valid, Freed;
    FreedTable(d, k);
  }

  lemma UpdatedTable(d: Device, k: nat, c: Call)
    requires Table(d) && k < |d.chans| && c.id == d.chans[k].id && c.state == d.chans[k].state
    ensures Table(Updated(d, k, c))
  {
    hide Table;
    SameTableKept(d, Updated(d, k, c));
  }

  lemma ActivatedTable(d: Device, k: nat)
    requires Table(d) && k < |d.chans|
    ensures Table(Activated(d, k)) && |Activated(d, k).chans| == |d.chans|
  {
    hide Table;
    SameTableKept(d, Activated(d, k));
  }

  lemma DisactivatedTable(d: Device, k: nat)
    requires Table(d) && k < |d.chans|
    ensures Table(Disactivated(d, k)) && |Disactivated(d, k).chans| == |d.chans|
  {
    hide Table;
    SameTableKept(d, Disactivated(d, k));
  }

  /** All but the ban on released calls survives a new state. */
  lemma StateSetKept(d: Device, k: nat, state: State)
    requires Table(d) && k < |d.chans|
    ensures var now := StateSet(d, k, state);
            Named(now) && NoDangling(now) && CallsCounted(now) && AtQueue.Valid(now.queue)
  {
    assert |d.chanCount| == STATES;
    hide AtQueue.Valid, Listed, OwnerLive, CallsCounted, NoDangling, Bumped;
    StateSetCounted(d, k, state);
    StillLive(d, StateSet(d, k, state));
  }

  /** The part of the table that does not mind a call about to go. */
  ghost predicate NearlyTable(d: Device, k: nat) {
    && k < |d.chans| && Named(d) && NoDangling(d) && CallsCounted(d) && AtQueue.Valid(d.queue)
    && (forall i :: 0 <= i < |d.chans| && i != k ==> !d.chans[i].state.Released?)
  }

  lemma DisactivatedNearly(d: Device, k: nat)
    requires NearlyTable(d, k)
    ensures NearlyTable(Disactivated(d, k), k)
  {
    hide AtQueue.Valid, Listed, OwnerLive, NoDangling, Number, Byte, Wrap;
    var e := Disactivated(d, k);
    StillLive(d, e);
    forall s: State
      ensures Count(d.chans, s) == Count(e.chans, s)
    {
      SameStates(d.chans, e.chans, s);
    }
  }

  lemma NearlyParts(d: Device, k: nat)
    requires NearlyTable(d, k)
    ensures k < |d.chans| && |d.chanCount| == STATES
    ensures Named(d) && NoDangling(d) && CallsCounted(d) && AtQueue.Valid(d.queue)
  {
  }

  /** A call may be freed in any state, with its stream or without. */
  lemma NearlyFreed(d: Device, k: nat)
    requires NearlyTable(d, k)
    ensures |d.chanCount| == STATES && Table(Freed(d, k)) && |Freed(d, k).chans| == |d.chans| - 1
    ensures Table(Freed(Disactivated(d, k), k)) && |Freed(Disactivated(d, k), k).chans| == |d.chans| - 1
  {
    NearlyParts(d, k);
    DisactivatedNearly(d, k);
    DisactivatedSize(d, k);
    NearlyParts(Disactivated(d, k), k);
    hide AtQueue.Valid, CallsCounted, NoDangling, Named, Disactivated, Freed;
    FreedTable(d, k);
    FreedTable(Disactivated(d, k), k);
  }

  lemma StateSetNearly(d: Device, k: nat, state: State)
    requires Table(d) && k < |d.chans|
    ensures |d.chanCount| == STATES && NearlyTable(StateSet(d, k, state), k)
    ensures |StateSet(d, k, state).chans| == |d.chans|
    ensures !state.Released? ==> Table(StateSet(d, k, state))
  {
    assert |d.chanCount| == STATES;
    hide AtQueue.Valid, CallsCounted, NoDangling, Named, Bumped;
    StateSetKept(d, k, state);
  }

  /** A new state is followed by at most one change of the audio, and by freeing the call iff it is released. */
  lemma StateChangedIs(d: Device, k: nat, state: State)
    requires k < |d.chans| && |d.chanCount| == STATES
    ensures var e, now := StateChanged(d, k, state), StateSet(d, k, state);
            && |now.chans| == |Disactivated(now, k).chans| == |d.chans|
            && |now.chanCount| == STATES && Disactivated(now, k).chanCount == now.chanCount
            && if d.chans[k].state == state then e == d
               else if state.Released? then e == Freed(now, k) || e == Freed(Disactivated(now, k), k)
               else e == now || e == Activated(now, k) || e == Disactivated(now, k)
  {
    hide Bumped, Freed, Activated, Unlinked;
  }

  /** Any change of state keeps the table; a release takes the call out of it. */
  lemma StateChangedTable(d: Device, k: nat, state: State)
    requires Table(d) && k < |d.chans|
    ensures Table(StateChanged(d, k, state))
    ensures |StateChanged(d, k, state).chans| == if state.Released? then |d.chans| - 1 else |d.chans|
  {
    StateSetNearly(d, k, state);
    StateChangedIs(d, k, state);
    assert !d.chans[k].state.Released?;
    hide Table, NearlyTable, StateSet, Activated, Disactivated, Freed, StateChanged;
    if d.chans[k].state != state {
      var now := StateSet(d, k, state);
      if state.Released? {
        NearlyFreed(now, k);
      } else {
        ActivatedTable(now, k);
        DisactivatedTable(now, k);
      }
    }
  }

  lemma DisactivatedSize(d: Device, k: nat)
    requires k < |d.chans|
    ensures |Disactivated(d, k).chans| == |d.chans|
  {
  }

  // ---------- what keeps the audio ----------

  /** Only records change that audio does not look at. */
  lemma SameAudio(d: Device, e: Device)
    requires Audio(d) && |d.chans| == |e.chans| && d.streams == e.streams
    requires forall k :: 0 <= k < |d.chans| ==>
               && d.chans[k].id == e.chans[k].id && d.chans[k].channel == e.chans[k].channel
               && d.chans[k].activated == e.chans[k].activated && d.chans[k].master == e.chans[k].master
    ensures Audio(e)
  {
    forall s | s in e.streams
      ensures Listed(e.chans, s)
    {
      SameLive(d.chans, e.chans, s);
    }
  }

  lemma StreamsNeedCalls(d: Device)
    requires Linked(d) && d.streams != []
    ensures d.chans != []
  {
    assert d.streams[0] in d.streams;
  }

  lemma StreamNamed(d: Device, s: nat)
    requires Linked(d) && Named(d) && s in d.streams
    ensures s < d.next
  {
  }

  lemma AllocAudio(d: Device, callIdx: int, dir: Direction, state: State)
    requires Audio(d) && Named(d) && CallsCounted(d) && |d.chans| < UINT32
    ensures Audio(Alloc(d, callIdx, dir, state))
  {
    hide Bumped, Number, Byte, Count;
    var now := Alloc(d, callIdx, dir, state);
    if d.chansno == 0 && d.streams != [] {
      StreamsNeedCalls(d);
    }
    forall s | s in now.streams
      ensures Listed(now.chans, s)
    {
      var k :| 0 <= k < |d.chans| && d.chans[k].id == s;
      assert now.chans[k].id == s;
    }
    if d.next in d.streams {
      StreamNamed(d, d.next);
    }
  }

  /** A call that is not activated goes, and nothing of it stays in the mixer. */
  lemma FreedAudio(d: Device, k: nat)
    requires Audio(d) && Named(d) && k < |d.chans| && |d.chanCount| == STATES && !d.chans[k].activated
    ensures Audio(Freed(d, k))
  {
    hide Bumped, Relinked, Wrap;
    var now := Freed(d, k);
    assert forall i :: 0 <= i < |now.chans| ==> now.chans[i] == d.chans[if i < k then i else i + 1];
    forall s | s in now.streams
      ensures Listed(now.chans, s)
    {
      CutLive(d.chans, k, s);
    }
  }

  lemma DistinctCons(x: nat, rest: seq<nat>)
    requires Distinct(rest) && x !in rest
    ensures Distinct([x] + rest)
  {
  }

  lemma DistinctTail(streams: seq<nat>)
    requires Distinct(streams) && streams != []
    ensures Distinct(streams[1..]) && streams[0] !in streams[1..]
  {
  }

  lemma {:induction false} UnlinkedIs(streams: seq<nat>, id: nat)
    requires Distinct(streams)
    ensures forall s :: s in Unlinked(streams, id) <==> s in streams && s != id
    ensures Distinct(Unlinked(streams, id))
  {
    hide Distinct;
    if streams != [] {
      DistinctTail(streams);
      assert streams == [streams[0]] + streams[1..];
      if streams[0] != id {
        UnlinkedIs(streams[1..], id);
        DistinctCons(streams[0], Unlinked(streams[1..], id));
      }
    }
  }

  lemma DisactivatedAudio(d: Device, k: nat)
    requires Audio(d) && Named(d) && k < |d.chans|
    ensures Audio(Disactivated(d, k)) && !Disactivated(d, k).chans[k].activated
  {
    hide Unlinked;
    var now := Disactivated(d, k);
    UnlinkedIs(d.streams, d.chans[k].id);
    assert forall i :: 0 <= i < |d.chans| && i != k ==> d.chans[i].id != d.chans[k].id;
    forall s | s in now.streams
      ensures Listed(now.chans, s)
    {
      SameLive(d.chans, now.chans, s);
    }
  }

  /** Activating keeps the audio in order just when the port is open, or the call was activated before. */
  lemma ActivatedAudio(d: Device, k: nat)
    requires Audio(d) && Named(d) && k < |d.chans| && d.chans[k].channel
    ensures Audio(Activated(d, k)) <==> d.audioOpen || d.chans[k].activated
  {
    var c, now := d.chans[k], Activated(d, k);
    if !c.master {
      if !c.activated {
        assert c.id !in d.streams;
      }
      if d.audioOpen || c.activated {
        forall s | s in now.streams
          ensures Listed(now.chans, s)
        {
          if s == c.id {
            assert now.chans[k].id == s;
          } else {
            SameLive(d.chans, now.chans, s);
          }
        }
      } else {
        assert now.streams[|d.streams|] == c.id && !now.chans[k].activated;
      }
    }
  }

  lemma StateSetAudio(d: Device, k: nat, state: State)
    requires Audio(d) && k < |d.chans| && |d.chanCount| == STATES
    ensures Audio(StateSet(d, k, state))
  {
    hide Bumped;
    SameAudio(d, StateSet(d, k, state));
  }

  lemma StateChangedAudio(d: Device, k: nat, state: State)
    requires Audio(d) && Named(d) && k < |d.chans| && |d.chanCount| == STATES && d.audioOpen
    ensures Audio(StateChanged(d, k, state))
  {
    hide Audio, Bumped, Activated, Disactivated, Freed;
    if d.chans[k].state != state {
      StateSetAudio(d, k, state);
      var now := StateSet(d, k, state);
      ActivatedFlags(now, k);
      if d.chans[k].channel {
        ActivatedAudio(now, k);
        DisactivatedAudio(now, k);
        FreedAudio(Disactivated(now, k), k);
      } else if state.Released? {
        assert !now.chans[k].activated by { NeedsChannel(now, k); }
        FreedAudio(now, k);
      }
    }
  }

  lemma NeedsChannel(d: Device, k: nat)
    requires Audio(d) && k < |d.chans| && !d.chans[k].channel
    ensures !d.chans[k].activated
  {
  }

  lemma ActivatedFlags(d: Device, k: nat)
    requires k < |d.chans|
    ensures |Activated(d, k).chans| == |d.chans| == |Disactivated(d, k).chans|
    ensures Disactivated(d, k).chanCount == d.chanCount
    ensures Named(d) ==> Named(Disactivated(d, k))
  {
    hide Unlinked;
  }

  // ---------- what the operations do ----------

  /** Activated with the port open, a call is the one master; the other calls keep everything else. */
  lemma ActivatedIsMaster(d: Device, k: nat)
    requires Audio(d) && k < |d.chans| && d.audioOpen
    ensures var e := Activated(d, k);
            && |e.chans| == |d.chans| && e.chans[k].master && e.chans[k].activated
            && (forall i :: 0 <= i < |e.chans| && i != k ==> e.chans[i] == d.chans[i].(master := false))
  {
    if d.chans[k].master {
      forall i | 0 <= i < |d.chans| && i != k
        ensures d.chans[i] == d.chans[i].(master := false)
      {
        assert !(d.chans[if i < k then i else k].master && d.chans[if i < k then k else i].master);
      }
    }
  }

  lemma CutGone(chans: seq<Call>, k: nat)
    requires k < |chans| && forall i, j :: 0 <= i < j < |chans| ==> chans[i].id != chans[j].id
    ensures !Listed(Cut(chans, k), chans[k].id)
  {
    var rest := Cut(chans, k);
    forall i | 0 <= i < |rest|
      ensures rest[i].id != chans[k].id
    {
      assert rest[i] == chans[if i < k then i else i + 1];
    }
  }

  /** A released call is gone; no other call changes or leaves. */
  lemma ReleasedGone(d: Device, k: nat)
    requires Table(d) && k < |d.chans|
    ensures StateChanged(d, k, Released).chans == Cut(d.chans, k)
    ensures !Listed(Cut(d.chans, k), d.chans[k].id)
  {
    CutGone(d.chans, k);
    assert !d.chans[k].state.Released?;
    CountSized(d);
    hide Table, Bumped, Relinked, Unlinked, Listed, Wrap;
  }

  /** No call but `k` changes, except that it may no longer be the master. */
  ghost predicate OthersKept(before: seq<Call>, after: seq<Call>, k: nat) {
    && |after| == |before|
    && (forall i :: 0 <= i < |before| && i != k ==> after[i].(master := before[i].master) == before[i])
  }

  lemma AudioEffect(d: Device, k: nat)
    requires k < |d.chans|
    ensures OthersKept(d.chans, Activated(d, k).chans, k) && Activated(d, k).chans[k].state == d.chans[k].state
    ensures OthersKept(d.chans, Disactivated(d, k).chans, k) && Disactivated(d, k).chans[k].state == d.chans[k].state
  {
    hide Unlinked;
  }

  /** A call is in the state asked for; the others keep everything, but for the one that was the master. */
  lemma StateChangedEffect(d: Device, k: nat, state: State)
    requires Table(d) && k < |d.chans| && !state.Released?
    ensures OthersKept(d.chans, StateChanged(d, k, state).chans, k)
    ensures StateChanged(d, k, state).chans[k].state == state
  {
    CountSized(d);
    hide Table, Bumped, Activated, Disactivated, Freed;
    AudioEffect(StateSet(d, k, state), k);
  }

  // ---------- who is heard ----------

  /** In these states a call with a channel has the audio of the device. */
  predicate Talks(s: State) {
    s.Dialing? || s.Alerting? || s.Active?
  }

  lemma ActivatedStreams(d: Device, k: nat)
    requires Audio(d) && k < |d.chans| && d.audioOpen
    ensures var c, e := d.chans[k], Activated(d, k);
            && e.chans == Deposed(d.chans, k)[k := c.(activated := true, master := true)]
            && (forall s :: s in e.streams <==> s in d.streams || s == c.id)
            && e == d.(chans := e.chans, streams := e.streams)
  {
    ActivatedIsMaster(d, k);
    assert Activated(d, k).chans == Deposed(d.chans, k)[k := d.chans[k].(activated := true, master := true)];
  }

  lemma DisactivatedStreams(d: Device, k: nat)
    requires Audio(d) && k < |d.chans|
    ensures var c, e := d.chans[k], Disactivated(d, k);
            && e.chans == d.chans[k := c.(activated := false, master := false)]
            && (forall s :: s in e.streams <==> s in d.streams && s != c.id)
            && e == d.(chans := e.chans, streams := e.streams)
  {
    UnlinkedIs(d.streams, d.chans[k].id);
    hide Unlinked, Distinct;
  }

  /**
   What a new state does to the audio of a call that has a channel, while the port is open: the call talks, and is
   the one master and mixed; it is held, and is neither; it goes, with its stream; or nothing changes but the state.
   */
  lemma StateHeard(d: Device, k: nat, state: State)
    requires Audio(d) && k < |d.chans| && |d.chanCount| == STATES && d.audioOpen
    requires d.chans[k].channel && d.chans[k].state != state
    ensures var c, e := d.chans[k], StateChanged(d, k, state);
            && (Talks(state) ==>
                  && e.chans == Deposed(d.chans, k)[k := c.(state := state, activated := true, master := true)]
                  && forall s :: s in e.streams <==> s in d.streams || s == c.id)
            && (state.OnHold? ==>
                  && e.chans == d.chans[k := c.(state := state, activated := false, master := false)]
                  && forall s :: s in e.streams <==> s in d.streams && s != c.id)
            && (state.Released? ==>
                  && e.chans == Cut(d.chans, k)
                  && forall s :: s in e.streams <==> s in d.streams && s != c.id)
            && (!Talks(state) && !state.OnHold? && !state.Released? ==>
                  e.chans == d.chans[k := c.(state := state)] && e.streams == d.streams)
  {
    hide Audio, Bumped, Activated, Disactivated, Relinked, Wrap;
    var now := StateSet(d, k, state);
    StateSetAudio(d, k, state);
    ActivatedStreams(now, k);
    DisactivatedStreams(now, k);
    var c := now.chans[k];
    assert now.chans[k := c.(activated := false, master := false)]
        == d.chans[k := d.chans[k].(state := state, activated := false, master := false)];
    assert Deposed(now.chans, k)[k := c.(activated := true, master := true)]
        == Deposed(d.chans, k)[k := d.chans[k].(state := state, activated := true, master := true)];
    assert Cut(now.chans[k := c.(activated := false, master := false)], k) == Cut(d.chans, k);
  }

  /** Without a channel nothing is heard, and a new state is all that changes; a released call goes. */
  lemma StateUnheard(d: Device, k: nat, state: State)
    requires k < |d.chans| && |d.chanCount| == STATES && !d.chans[k].channel && d.chans[k].state != state
    ensures var e := StateChanged(d, k, state);
            && e.streams == d.streams
            && e.chans == if state.Released? then Cut(d.chans, k) else d.chans[k := d.chans[k].(state := state)]
  {
    hide Bumped, Relinked, Wrap, Activated, Disactivated;
    assert Cut(StateSet(d, k, state).chans, k) == Cut(d.chans, k);
  }

  /** A call with a channel that talks is in the mixer, and no call on hold or not yet begun is. */
  ghost predicate Heard(d: Device) {
    forall k :: 0 <= k < |d.chans| ==> CallHeard(d.chans[k])
  }

  predicate CallHeard(c: Call) {
    && (c.channel && Talks(c.state) ==> c.activated)
    && (c.state.OnHold? || c.state.Init? ==> !c.activated)
  }

  lemma StateChangedHeard(d: Device, k: nat, state: State)
    requires Audio(d) && Heard(d) && k < |d.chans| && |d.chanCount| == STATES && d.audioOpen && !state.Init?
    ensures Heard(StateChanged(d, k, state))
  {
    var c, e := d.chans[k], StateChanged(d, k, state);
    NeedsNoChannel(d, k);
    if c.state != state {
      if c.channel {
        StateHeard(d, k, state);
      } else {
        StateUnheard(d, k, state);
      }
      hide StateChanged, Audio, Cut;
      if state.Released? {
        CutHeard(d.chans, k);
      } else {
        forall i | 0 <= i < |e.chans|
          ensures CallHeard(e.chans[i])
        {
          assert CallHeard(d.chans[i]);
        }
      }
    }
  }

  lemma NeedsNoChannel(d: Device, k: nat)
    requires Audio(d) && k < |d.chans|
    ensures d.chans[k].activated ==> d.chans[k].channel
  {
  }

  lemma CutHeard(chans: seq<Call>, k: nat)
    requires k < |chans| && forall i :: 0 <= i < |chans| ==> CallHeard(chans[i])
    ensures forall i :: 0 <= i < |Cut(chans, k)| ==> CallHeard(Cut(chans, k)[i])
  {
    hide CallHeard;
    forall i | 0 <= i < |Cut(chans, k)|
      ensures CallHeard(Cut(chans, k)[i])
    {
      assert Cut(chans, k)[i] == chans[if i < k then i else i + 1];
    }
  }

  lemma CountSized(d: Device)
    requires CallsCounted(d)
    ensures |d.chanCount| == STATES
  {
  }
}
