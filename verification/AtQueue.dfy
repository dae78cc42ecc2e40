/**
 The queue of AT command tasks of at_queue.c, and what the modem sees of it.

 `log` records every attempt to write a command and every command retired, in order; `issued`
 keeps the commands of every task ever queued, by the number of the task. Neither is read by
 the queue: they are there to state what happens on the wire.
 */
module AtQueue {
  const UINT32: int := 0x1_0000_0000

  /** A counter of 32 bits. */
  function Wrap(x: int): int {
    x % UINT32
  }

  lemma {:induction false} WrapAround(x: int, turns: nat)
    ensures Wrap(x + turns * UINT32) == Wrap(x) == Wrap(x - turns * UINT32)
  {
    if turns > 0 {
      WrapAround(x, turns - 1);
    }
  }

  lemma WrapSum(a: int, b: int)
    ensures Wrap(Wrap(a) + b) == Wrap(a + b) && Wrap(Wrap(a) - b) == Wrap(a - b)
  {
    var turns := a / UINT32;
    WrapAround(a + b, if turns < 0 then -turns else turns);
    WrapAround(a - b, if turns < 0 then -turns else turns);
  }

  /** The channel on whose behalf a task runs. */
  datatype Owner = Sys | OfCall(call: nat)

  /** `data` still to be written; none of it once the command is on the wire. */
  datatype Cmd = Cmd(code: int, res: int, ignore: bool, data: string)

  datatype Task = Task(id: nat, owner: Owner, cmds: seq<Cmd>, cindex: nat)

  /** `count` bytes of a command were written; or it was retired by response `res`. */
  datatype Event =
    | Wrote(id: nat, index: nat, count: nat)
    | Retired(id: nat, index: nat, res: int)

  datatype Queue = Queue(tasks: seq<Task>, atTasks: int, atCmds: int, issued: seq<seq<Cmd>>, log: seq<Event>)

  const EMPTY: Queue := Queue([], 0, 0, [], [])

  function Remaining(tasks: seq<Task>): int {
    if tasks == [] then 0
    else Remaining(tasks[..|tasks| - 1]) + |tasks[|tasks| - 1].cmds| - tasks[|tasks| - 1].cindex
  }

  // ---------- the operations ----------

  /** `at_queue_add`: at the tail, or with priority right after the head. */
  function Added(q: Queue, owner: Owner, cmds: seq<Cmd>, prio: bool): Queue {
    if cmds == [] then q
    else
      var e := Task(|q.issued|, owner, cmds, 0);
      q.(tasks := if prio && q.tasks != [] then [q.tasks[0], e] + q.tasks[1..] else q.tasks + [e],
         atTasks := Wrap(q.atTasks + 1),
         atCmds := Wrap(q.atCmds + |cmds|),
         issued := q.issued + [cmds])
  }

  /** `at_queue_remove` */
  function Removed(q: Queue): Queue {
    if q.tasks == [] then q
    else
      q.(tasks := q.tasks[1..],
         atTasks := Wrap(q.atTasks - 1),
         atCmds := Wrap(q.atCmds - (|q.tasks[0].cmds| - q.tasks[0].cindex)))
  }

  predicate Expected(c: Cmd, res: int) {
    c.res == res || c.ignore
  }

  predicate Runnable(q: Queue) {
    q.tasks != [] ==> q.tasks[0].cindex < |q.tasks[0].cmds|
  }

  /** `at_queue_remove_cmd`: the rest of the task goes with a command that failed. */
  function CmdRemoved(q: Queue, res: int): Queue
    requires Runnable(q)
  {
    if q.tasks == [] then q
    else
      var t := q.tasks[0];
      var moved := q.(tasks := [t.(cindex := t.cindex + 1)] + q.tasks[1..],
                      atCmds := Wrap(q.atCmds - 1),
                      log := q.log + [Retired(t.id, t.cindex, res)]);
      if t.cindex + 1 >= |t.cmds| || !Expected(t.cmds[t.cindex], res) then Removed(moved) else moved
  }

  /** `at_queue_run`, when `count` bytes of the command could be written. */
  function Ran(q: Queue, count: nat): Queue
    requires Runnable(q)
  {
    if q.tasks == [] || q.tasks[0].cmds[q.tasks[0].cindex].data == [] then q
    else
      var t := q.tasks[0];
      var c := t.cmds[t.cindex];
      var tried := q.(log := q.log + [Wrote(t.id, t.cindex, count)]);
      if count != |c.data| then CmdRemoved(tried, c.res + 1)
      else tried.(tasks := [t.(cmds := t.cmds[t.cindex := c.(data := "")])] + q.tasks[1..])
  }

  /** `at_queue_flush` */
  function Flushed(q: Queue): Queue
    decreases |q.tasks|
  {
    if q.tasks == [] then q else Flushed(Removed(q))
  }

  /** What `cpvt_free` does to the queue: the tasks of a call go on for the system channel. */
  function Relinked(tasks: seq<Task>, owner: Owner): (r: seq<Task>)
    ensures |r| == |tasks|
    ensures forall k :: 0 <= k < |r| ==>
              r[k] == tasks[k].(owner := if tasks[k].owner == owner then Sys else tasks[k].owner)
  {
    seq(|tasks|, k requires 0 <= k < |tasks| =>
      tasks[k].(owner := if tasks[k].owner == owner then Sys else tasks[k].owner))
  }

  // ---------- the discipline of the wire ----------

  ghost predicate Known(issued: seq<seq<Cmd>>, e: Event) {
    e.id < |issued| && e.index < |issued[e.id]|
  }

  /** The command was retired by what was expected of it, or whatever came was to be ignored. */
  ghost predicate Passed(issued: seq<seq<Cmd>>, e: Event) {
    Known(issued, e) && e.Retired? && Expected(issued[e.id][e.index], e.res)
  }

  /** What may come next of the same task. */
  ghost predicate GoesOn(issued: seq<seq<Cmd>>, a: Event, b: Event) {
    || (Passed(issued, a) && b.index == a.index + 1)
    || (a.Wrote? && b.Retired? && b.index == a.index)
  }

  /** The event goes on with the task of the one before it, or it is the first of a task not seen before. */
  ghost predicate InTurn(issued: seq<seq<Cmd>>, log: seq<Event>, p: nat)
    requires p < |log|
  {
    && Known(issued, log[p])
    && (|| (p > 0 && log[p - 1].id == log[p].id && GoesOn(issued, log[p - 1], log[p]))
        || (log[p].index == 0 && forall q :: 0 <= q < p ==> log[q].id != log[p].id))
  }

  ghost predicate Disciplined(issued: seq<seq<Cmd>>, log: seq<Event>) {
    forall p :: 0 <= p < |log| ==> InTurn(issued, log, p)
  }

  /** What is on the wire of one task is in one piece. */
  lemma {:induction false} Contiguous(issued: seq<seq<Cmd>>, log: seq<Event>, p: nat, q: nat, r: nat)
    requires Disciplined(issued, log) && p <= q <= r < |log| && log[p].id == log[r].id
    ensures log[q].id == log[p].id
  {
    if q < r {
      assert InTurn(issued, log, r);
      Contiguous(issued, log, p, q, r - 1);
    }
  }

  /** Commands are dealt with in the order of the task, and none is written twice. */
  lemma {:induction false} InOrder(issued: seq<seq<Cmd>>, log: seq<Event>, p: nat, r: nat)
    requires Disciplined(issued, log) && p < r < |log| && log[p].id == log[r].id
    ensures log[p].index <= log[r].index
    ensures log[r].Wrote? ==> log[p].index < log[r].index
    ensures log[p].Retired? ==> log[p].index < log[r].index
  {
    assert InTurn(issued, log, r);
    if p < r - 1 {
      InOrder(issued, log, p, r - 1);
    }
  }

  /** Every earlier command of the task got the response expected of it (or one to be ignored) before. */
  lemma {:induction false} AnsweredBefore(issued: seq<seq<Cmd>>, log: seq<Event>, p: nat, j: nat) returns (q: nat)
    requires Disciplined(issued, log) && p < |log| && j < log[p].index
    ensures q < p && log[q].id == log[p].id && log[q].index == j && Passed(issued, log[q])
  {
    assert InTurn(issued, log, p);
    if Passed(issued, log[p - 1]) && log[p - 1].index == j {
      q := p - 1;
    } else {
      q := AnsweredBefore(issued, log, p - 1, j);
    }
  }

  const RES_OK: int := 21
  const RES_SMS_PROMPT: int := 26

  /** The two commands that send a message: what `at_enque_pdu` and `at_enque_sms` put in a task. */
  ghost predicate SendsMessage(cmds: seq<Cmd>) {
    && |cmds| == 2 && cmds[0].res == RES_SMS_PROMPT && !cmds[0].ignore
    && cmds[1].res == RES_OK && !cmds[1].ignore
  }

  /** The text of a message is written only right after the prompt for it came. */
  lemma TextAfterPrompt(issued: seq<seq<Cmd>>, log: seq<Event>, p: nat)
    requires Disciplined(issued, log) && p < |log| && log[p].Wrote?
    requires log[p].id < |issued| && SendsMessage(issued[log[p].id]) && log[p].index == 1
    ensures p > 0 && log[p - 1] == Retired(log[p].id, 0, RES_SMS_PROMPT)
  {
    assert InTurn(issued, log, p);
  }

  // ---------- the invariant ----------

  ghost predicate Fresh(q: Queue, t: Task) {
    && t.id < |q.issued| && t.cmds == q.issued[t.id] && t.cmds != [] && t.cindex == 0
    && forall p :: 0 <= p < |q.log| ==> q.log[p].id != t.id
  }

  /** A task some of whose commands were dealt with, or whose command on the wire waits for its answer. */
  ghost predicate Begun(q: Queue, t: Task) {
    && t.id < |q.issued| && |t.cmds| == |q.issued[t.id]| && t.cindex < |t.cmds|
    && q.log != []
    && (forall k :: t.cindex < k < |t.cmds| ==> t.cmds[k] == q.issued[t.id][k])
    && var e := q.log[|q.log| - 1];
       e.id == t.id
       && (|| (Passed(q.issued, e) && e.index + 1 == t.cindex && t.cmds[t.cindex] == q.issued[t.id][t.cindex])
           || (e.Wrote? && e.index == t.cindex && t.cmds[t.cindex] == q.issued[t.id][t.cindex].(data := "")))
  }

  /** Nothing happened yet to the tasks behind the head. */
  ghost predicate Waiting(q: Queue) {
    && (forall k :: 1 <= k < |q.tasks| ==> Fresh(q, q.tasks[k]))
    && (forall i, j :: 0 <= i < j < |q.tasks| ==> q.tasks[i].id != q.tasks[j].id)
  }

  ghost predicate Ordered(q: Queue) {
    && (q.tasks != [] ==> Fresh(q, q.tasks[0]) || Begun(q, q.tasks[0]))
    && Waiting(q)
  }

  /** The counters are redundant, as far as 32 bits go. */
  ghost predicate Counted(q: Queue) {
    && q.atTasks == Wrap(|q.tasks|)
    && q.atCmds == Wrap(Remaining(q.tasks))
  }

  ghost predicate Valid(q: Queue) {
    Disciplined(q.issued, q.log) && Ordered(q) && Counted(q)
  }

  lemma {:induction false} RemainingConcat(a: seq<Task>, b: seq<Task>)
    ensures Remaining(a + b) == Remaining(a) + Remaining(b)
  {
    if b == [] {
      assert a + b == a;
    } else {
      assert (a + b)[..|a + b| - 1] == a + b[..|b| - 1];
      RemainingConcat(a, b[..|b| - 1]);
    }
  }

  lemma RemainingOne(t: Task)
    ensures Remaining([t]) == |t.cmds| - t.cindex
  {
    assert [t][..0] == [];
  }

  lemma DisciplinedIssued(issued: seq<seq<Cmd>>, log: seq<Event>, cmds: seq<Cmd>)
    requires Disciplined(issued, log)
    ensures Disciplined(issued + [cmds], log)
  {
    forall p | 0 <= p < |log|
      ensures InTurn(issued + [cmds], log, p)
    {
      assert InTurn(issued, log, p);
      if p > 0 {
        assert InTurn(issued, log, p - 1);
      }
    }
  }

  lemma DisciplinedAppend(issued: seq<seq<Cmd>>, log: seq<Event>, e: Event)
    requires Disciplined(issued, log) && Known(issued, e)
    requires || (log != [] && log[|log| - 1].id == e.id && GoesOn(issued, log[|log| - 1], e))
             || (e.index == 0 && forall q :: 0 <= q < |log| ==> log[q].id != e.id)
    ensures Disciplined(issued, log + [e])
  {
    forall p | 0 <= p < |log + [e]|
      ensures InTurn(issued, log + [e], p)
    {
      if p < |log| {
        assert InTurn(issued, log, p);
      }
    }
  }

  lemma EmptyValid()
    ensures Valid(EMPTY)
  {
  }

  lemma RemainingInserted(a: seq<Task>, e: Task, b: seq<Task>)
    ensures Remaining(a + [e] + b) == Remaining(a + b) + |e.cmds| - e.cindex
  {
    RemainingConcat(a + [e], b);
    RemainingConcat(a, [e]);
    RemainingConcat(a, b);
    RemainingOne(e);
  }

  lemma AddedCounted(q: Queue, owner: Owner, cmds: seq<Cmd>, prio: bool)
    requires Counted(q)
    ensures Counted(Added(q, owner, cmds, prio))
  {
    hide Wrap, Remaining;
    if cmds != [] {
      var e, now := Task(|q.issued|, owner, cmds, 0), Added(q, owner, cmds, prio);
      var n := if prio && q.tasks != [] then 1 else |q.tasks|;
      RemainingInserted(q.tasks[..n], e, q.tasks[n..]);
      assert now.tasks == q.tasks[..n] + [e] + q.tasks[n..] && q.tasks == q.tasks[..n] + q.tasks[n..];
      WrapSum(|q.tasks|, 1);
      WrapSum(Remaining(q.tasks), |cmds|);
    }
  }

  /** The log knows tasks that were issued only. */
  lemma NotSeen(issued: seq<seq<Cmd>>, log: seq<Event>, id: nat)
    requires Disciplined(issued, log) && id >= |issued|
    ensures forall p :: 0 <= p < |log| ==> log[p].id != id
  {
    forall p | 0 <= p < |log|
      ensures log[p].id != id
    {
      assert InTurn(issued, log, p);
    }
  }

  lemma AddedOrdered(q: Queue, owner: Owner, cmds: seq<Cmd>, prio: bool)
    requires Disciplined(q.issued, q.log) && Ordered(q) && cmds != []
    ensures Ordered(Added(q, owner, cmds, prio))
  {
    hide Disciplined;
    NotSeen(q.issued, q.log, |q.issued|);
    var now := Added(q, owner, cmds, prio);
    assert forall k :: 0 <= k < |q.tasks| && Fresh(q, q.tasks[k]) ==> Fresh(now, q.tasks[k]);
    assert q.tasks != [] && Begun(q, q.tasks[0]) ==> Begun(now, q.tasks[0]);
    assert Fresh(now, Task(|q.issued|, owner, cmds, 0));
  }

  lemma AddedValid(q: Queue, owner: Owner, cmds: seq<Cmd>, prio: bool)
    requires Valid(q)
    ensures Valid(Added(q, owner, cmds, prio))
  {
    if cmds != [] {
      AddedOrdered(q, owner, cmds, prio);
      DisciplinedIssued(q.issued, q.log, cmds);
    }
    AddedCounted(q, owner, cmds, prio);
  }

  lemma RemovedCounted(q: Queue)
    requires Counted(q)
    ensures Counted(Removed(q))
  {
    hide Wrap, Remaining;
    if q.tasks != [] {
      assert [] + [q.tasks[0]] + q.tasks[1..] == q.tasks && [] + q.tasks[1..] == q.tasks[1..];
      RemainingInserted([], q.tasks[0], q.tasks[1..]);
      WrapSum(|q.tasks|, -1);
      WrapSum(Remaining(q.tasks), |q.tasks[0].cmds| - q.tasks[0].cindex);
    }
  }

  lemma RemovedValid(q: Queue)
    requires Disciplined(q.issued, q.log) && Counted(q) && Waiting(q)
    ensures Valid(Removed(q))
  {
    hide Disciplined, Counted;
    RemovedCounted(q);
    if q.tasks != [] {
      var now := Removed(q);
      forall k | 0 <= k < |now.tasks|
        ensures Fresh(now, now.tasks[k])
      {
        assert Fresh(q, q.tasks[k + 1]);
      }
    }
  }

  lemma SoundRemoved(q: Queue)
    requires Valid(q)
    ensures Valid(Removed(q))
  {
    RemovedValid(q);
  }

  /** An event of the head, and the head in another state: the tasks behind it stay fresh. */
  lemma HeadMoved(q: Queue, e: Event, t: Task)
    requires q.tasks != [] && Waiting(q) && e.id == q.tasks[0].id == t.id
    ensures Waiting(q.(tasks := [t] + q.tasks[1..], log := q.log + [e]))
  {
    var now := q.(tasks := [t] + q.tasks[1..], log := q.log + [e]);
    forall k | 1 <= k < |now.tasks|
      ensures Fresh(now, now.tasks[k])
    {
      assert Fresh(q, q.tasks[k]) && now.tasks[k] == q.tasks[k];
    }
  }

  lemma HeadCounted(q: Queue, t: Task, dropped: int, log: seq<Event>)
    requires q.tasks != [] && Counted(q)
    requires var u := q.tasks[0]; |u.cmds| - u.cindex == |t.cmds| - t.cindex + dropped
    ensures Counted(q.(tasks := [t] + q.tasks[1..], atCmds := Wrap(q.atCmds - dropped), log := log))
  {
    hide Wrap, Remaining;
    var rest := q.tasks[1..];
    assert [] + [q.tasks[0]] + rest == q.tasks && [] + [t] + rest == [t] + rest && [] + rest == rest;
    RemainingInserted([], q.tasks[0], rest);
    RemainingInserted([], t, rest);
    WrapSum(Remaining(q.tasks), dropped);
  }

  lemma CountedWrapped(q: Queue)
    requires Counted(q)
    ensures Wrap(q.atCmds - 0) == q.atCmds
  {
  }

  /** Whatever the head comes to next is in turn. */
  lemma HeadInTurn(q: Queue, e: Event)
    requires Valid(q) && q.tasks != [] && Known(q.issued, e) && e.id == q.tasks[0].id
    requires || (Fresh(q, q.tasks[0]) && e.index == 0)
             || (Begun(q, q.tasks[0]) && GoesOn(q.issued, q.log[|q.log| - 1], e))
    ensures Disciplined(q.issued, q.log + [e])
  {
    hide Disciplined, Counted, GoesOn;
    DisciplinedAppend(q.issued, q.log, e);
  }

  /** The head's command is over; the response to it may end the task. */
  lemma HeadRetired(q: Queue, res: int)
    requires q.tasks != [] && Waiting(q) && Counted(q)
    requires var t := q.tasks[0];
             && t.id < |q.issued| && t.cindex < |t.cmds| == |q.issued[t.id]|
             && (forall k :: t.cindex < k < |t.cmds| ==> t.cmds[k] == q.issued[t.id][k])
             && (t.cmds[t.cindex] == q.issued[t.id][t.cindex]
                 || t.cmds[t.cindex] == q.issued[t.id][t.cindex].(data := ""))
             && Disciplined(q.issued, q.log + [Retired(t.id, t.cindex, res)])
    ensures Valid(CmdRemoved(q, res))
  {
    hide Disciplined, Counted;
    var t := q.tasks[0];
    var e, u := Retired(t.id, t.cindex, res), t.(cindex := t.cindex + 1);
    var moved := q.(tasks := [u] + q.tasks[1..], atCmds := Wrap(q.atCmds - 1), log := q.log + [e]);
    HeadMoved(q, e, u);
    assert Waiting(moved) by { assert Waiting(moved.(atCmds := q.atCmds)); WaitingCounts(moved, q.atCmds); }
    HeadCounted(q, u, 1, moved.log);
    if t.cindex + 1 >= |t.cmds| || !Expected(t.cmds[t.cindex], res) {
      RemovedValid(moved);
    } else {
      assert Begun(moved, moved.tasks[0]);
    }
  }

  lemma WaitingCounts(q: Queue, atCmds: int)
    requires Waiting(q.(atCmds := atCmds))
    ensures Waiting(q)
  {
    forall k | 1 <= k < |q.tasks|
      ensures Fresh(q, q.tasks[k])
    {
      assert Fresh(q.(atCmds := atCmds), q.tasks[k]);
    }
    assert q.(atCmds := atCmds).tasks == q.tasks;
  }

  lemma CmdRemovedValid(q: Queue, res: int)
    requires Valid(q)
    ensures Runnable(q) && Valid(CmdRemoved(q, res))
  {
    hide Disciplined, Counted, CmdRemoved;
    if q.tasks == [] {
      NothingRemoved(q, res);
    } else {
      HeadInTurn(q, Retired(q.tasks[0].id, q.tasks[0].cindex, res));
      HeadRetired(q, res);
    }
  }

  lemma NothingRemoved(q: Queue, res: int)
    requires q.tasks == []
    ensures CmdRemoved(q, res) == q
  {
  }

  /** The whole command is on the wire. */
  lemma RanWhole(q: Queue)
    requires Valid(q) && q.tasks != [] && Runnable(q)
    requires q.tasks[0].cmds[q.tasks[0].cindex].data != []
    ensures Valid(Ran(q, |q.tasks[0].cmds[q.tasks[0].cindex].data|))
  {
    hide Disciplined, Counted;
    var t := q.tasks[0];
    var c := t.cmds[t.cindex];
    var e := Wrote(t.id, t.cindex, |c.data|);
    var sent := t.(cmds := t.cmds[t.cindex := c.(data := "")]);
    var now := q.(tasks := [sent] + q.tasks[1..], log := q.log + [e]);
    HeadInTurn(q, e);
    HeadMoved(q, e, sent);
    HeadCounted(q, sent, 0, now.log);
    CountedWrapped(q);
    assert Begun(now, sent);
  }

  /** The write failed: the command is retired by a response nobody sent. */
  lemma RanShort(q: Queue, count: nat)
    requires Valid(q) && q.tasks != [] && Runnable(q)
    requires var c := q.tasks[0].cmds[q.tasks[0].cindex]; c.data != [] && count != |c.data|
    ensures Valid(Ran(q, count))
  {
    hide Disciplined, Counted, CmdRemoved;
    var t := q.tasks[0];
    var c := t.cmds[t.cindex];
    var e, e2 := Wrote(t.id, t.cindex, count), Retired(t.id, t.cindex, c.res + 1);
    var tried := q.(log := q.log + [e]);
    assert [t] + q.tasks[1..] == q.tasks;
    HeadInTurn(q, e);
    HeadMoved(q, e, t);
    HeadCounted(q, t, 0, tried.log);
    CountedWrapped(q);
    DisciplinedAppend(tried.issued, tried.log, e2);
    HeadRetired(tried, c.res + 1);
  }

  lemma RanValid(q: Queue, count: nat)
    requires Valid(q)
    ensures Runnable(q) && Valid(Ran(q, count))
  {
    if q.tasks != [] && q.tasks[0].cmds[q.tasks[0].cindex].data != [] {
      if count == |q.tasks[0].cmds[q.tasks[0].cindex].data| {
        RanWhole(q);
      } else {
        RanShort(q, count);
      }
    }
  }

  /** Flushing ends, leaves nothing queued, and both counters at zero. */
  lemma {:induction false} FlushedValid(q: Queue)
    requires Valid(q)
    ensures Valid(Flushed(q)) && Flushed(q).tasks == [] && Flushed(q).log == q.log
    ensures Flushed(q).atTasks == 0 && Flushed(q).atCmds == 0
    decreases |q.tasks|
  {
    if q.tasks != [] {
      RemovedValid(q);
      FlushedValid(Removed(q));
    }
  }

  lemma {:induction false} RelinkedRemaining(tasks: seq<Task>, owner: Owner)
    ensures Remaining(Relinked(tasks, owner)) == Remaining(tasks)
  {
    if tasks != [] {
      RelinkedRemaining(tasks[..|tasks| - 1], owner);
      assert Relinked(tasks, owner)[..|tasks| - 1] == Relinked(tasks[..|tasks| - 1], owner);
    }
  }

  lemma RelinkedValid(q: Queue, owner: Owner)
    requires Valid(q)
    ensures Valid(q.(tasks := Relinked(q.tasks, owner)))
  {
    RelinkedRemaining(q.tasks, owner);
    var now := q.(tasks := Relinked(q.tasks, owner));
    assert forall k :: 0 <= k < |q.tasks| && Fresh(q, q.tasks[k]) ==> Fresh(now, now.tasks[k]);
    assert q.tasks != [] && Begun(q, q.tasks[0]) ==> Begun(now, now.tasks[0]);
  }

  // ---------- runs ----------

  datatype Step =
    | Add(owner: Owner, cmds: seq<Cmd>, prio: bool)
    | Run(count: nat)
    | Response(res: int)
    | Flush
    | Relink(from: Owner)

  function Stepped(q: Queue, s: Step): Queue
    requires Runnable(q)
  {
    match s
    case Add(owner, cmds, prio) => Added(q, owner, cmds, prio)
    case Run(count) => Ran(q, count)
    case Response(res) => CmdRemoved(q, res)
    case Flush => Flushed(q)
    case Relink(from) => q.(tasks := Relinked(q.tasks, from))
  }

  lemma StepValid(q: Queue, s: Step)
    requires Valid(q)
    ensures Runnable(q) && Valid(Stepped(q, s))
  {
    match s
    case Add(owner, cmds, prio) => AddedValid(q, owner, cmds, prio);
    case Run(count) => RanValid(q, count);
    case Response(res) => CmdRemovedValid(q, res);
    case Flush => FlushedValid(q);
    case Relink(from) => RelinkedValid(q, from);
  }

  /** One state after the other, from the empty queue on. */
  ghost predicate IsRun(states: seq<Queue>, steps: seq<Step>) {
    && |states| == |steps| + 1 && states[0] == EMPTY
    && forall i :: 0 <= i < |steps| ==> Runnable(states[i]) && states[i + 1] == Stepped(states[i], steps[i])
  }

  /** Whatever is added, written, answered, flushed and relinked, in any order, keeps the discipline. */
  lemma {:induction false} EveryRunValid(states: seq<Queue>, steps: seq<Step>, i: nat)
    requires IsRun(states, steps) && i < |states|
    ensures Valid(states[i])
  {
    if i == 0 {
      EmptyValid();
    } else {
      EveryRunValid(states, steps, i - 1);
      StepValid(states[i - 1], steps[i - 1]);
    }
  }

  /** In every run, the text of a message is written only right after the prompt for it came. */
  lemma NoTextWithoutPrompt(states: seq<Queue>, steps: seq<Step>, i: nat, p: nat)
    requires IsRun(states, steps) && i < |states| && p < |states[i].log|
    requires var e := states[i].log[p];
             e.Wrote? && e.index == 1 && e.id < |states[i].issued| && SendsMessage(states[i].issued[e.id])
    ensures p > 0 && states[i].log[p - 1] == Retired(states[i].log[p].id, 0, RES_SMS_PROMPT)
  {
    EveryRunValid(states, steps, i);
    TextAfterPrompt(states[i].issued, states[i].log, p);
  }

  // ---------- the queue itself ----------

  /** What a call of `write` returned, and whether `errno` says to try again. */
  datatype Outcome = Outcome(n: int, retry: bool)

  const RETRIES: nat := 10

  /** `write_all`: stops short only after an error, or after ten calls in a row that took nothing. */
  method WriteAll(buf: string, outcomes: nat -> Outcome) returns (total: nat, calls: nat)
    ensures total <= |buf|
    ensures total < |buf| ==>
              && calls > 0 && outcomes(calls - 1).n <= 0
              && (!outcomes(calls - 1).retry
                  || (calls >= RETRIES && forall k :: calls - RETRIES <= k < calls ==> outcomes(k).n <= 0))
    ensures forall k :: 0 <= k < calls - 1 ==> outcomes(k).n > 0 || outcomes(k).retry
  {
    var errs := RETRIES;
    total, calls := 0, 0;
    while total < |buf|
      invariant total <= |buf| && 0 < errs <= RETRIES && calls + errs >= RETRIES
      invariant forall k :: calls - (RETRIES - errs) <= k < calls ==> outcomes(k).n <= 0
      invariant forall k :: 0 <= k < calls ==> outcomes(k).n > 0 || outcomes(k).retry
      decreases |buf| - total, errs
    {
      var out := outcomes(calls);
      calls := calls + 1;
      if out.n <= 0 {
        if out.retry {
          errs := errs - 1;
          if errs != 0 {
            continue;
          }
        }
        break;
      }
      errs := RETRIES;
      total := if out.n <= |buf| - total then total + out.n else |buf|;
    }
  }

  class CommandQueue {
    var tasks: seq<Task>
    var atTasks: int
    var atCmds: int
    var next: nat
    ghost var issued: seq<seq<Cmd>>
    ghost var log: seq<Event>

    ghost function Value(): Queue
      reads this
    {
      Queue(tasks, atTasks, atCmds, issued, log)
    }

    ghost predicate Sound()
      reads this
    {
      Valid(Value()) && next == |issued|
    }

    constructor ()
      ensures Sound() && Value() == EMPTY
    {
      tasks, atTasks, atCmds, next, issued, log := [], 0, 0, 0, [], [];
      new;
      EmptyValid();
    }

    /** `at_queue_add`; there may be no memory for the task. */
    method Add(owner: Owner, cmds: seq<Cmd>, prio: bool, memory: bool) returns (ok: bool)
      requires Sound()
      modifies this
      ensures Sound() && ok == (cmds != [] && memory)
      ensures Value() == if ok then Added(old(Value()), owner, cmds, prio) else old(Value())
    {
      hide Valid, Wrap;
      ok := false;
      if |cmds| > 0 && memory {
        AddedValid(Value(), owner, cmds, prio);
        var e := Task(next, owner, cmds, 0);
        if prio && tasks != [] {
          tasks := [tasks[0], e] + tasks[1..];
        } else {
          tasks := tasks + [e];
        }
        atTasks := Wrap(atTasks + 1);
        atCmds := Wrap(atCmds + |cmds|);
        next := next + 1;
        issued := issued + [cmds];
        ok := true;
      }
    }

    /** `at_queue_remove` */
    method Remove()
      modifies this`tasks, this`atTasks, this`atCmds
      ensures Value() == Removed(old(Value())) && (old(Sound()) ==> Sound())
    {
      hide Valid, Wrap;
      if Sound() {
        SoundRemoved(Value());
      }
      if tasks != [] {
        var task := tasks[0];
        tasks := tasks[1..];
        atTasks := Wrap(atTasks - 1);
        atCmds := Wrap(atCmds - (|task.cmds| - task.cindex));
      }
    }

    /** `at_queue_remove_cmd` */
    method RemoveCmd(res: int)
      requires Runnable(Value())
      modifies this`tasks, this`atTasks, this`atCmds, this`log
      ensures Value() == CmdRemoved(old(Value()), res) && (old(Sound()) ==> Sound())
    {
      hide Valid, Wrap;
      if Sound() {
        CmdRemovedValid(Value(), res);
      }
      if tasks != [] {
        var task := tasks[0];
        var index := task.cindex;
        tasks := [task.(cindex := index + 1)] + tasks[1..];
        atCmds := Wrap(atCmds - 1);
        log := log + [Retired(task.id, index, res)];
        if index + 1 >= |task.cmds| || (task.cmds[index].res != res && !task.cmds[index].ignore) {
          Remove();
        }
      }
    }

    /** `at_queue_handle_result` */
    method HandleResult(res: int)
      requires Sound()
      modifies this`tasks, this`atTasks, this`atCmds, this`log
      ensures Sound() && Value() == CmdRemoved(old(Value()), res)
    {
      hide Valid, CmdRemoved;
      CmdRemovedValid(Value(), res);
      RemoveCmd(res);
    }

    /** `at_queue_run` */
    method Run(outcomes: nat -> Outcome) returns (fail: bool, ghost count: nat)
      requires Sound()
      modifies this`tasks, this`atTasks, this`atCmds, this`log
      ensures Sound() && Value() == Ran(old(Value()), count)
      ensures fail <==> old(tasks) != [] && count < |old(tasks)[0].cmds[old(tasks)[0].cindex].data|
    {
      hide Valid, CmdRemoved, Wrap;
      fail, count := false, 0;
      if tasks != [] {
        CmdRemovedValid(Value(), 0);
        var task := tasks[0];
        var cmd := task.cmds[task.cindex];
        if |cmd.data| > 0 {
          var total, calls := WriteAll(cmd.data, outcomes);
          count := total;
          RanValid(Value(), count);
          log := log + [Wrote(task.id, task.cindex, total)];
          fail := total != |cmd.data|;
          if fail {
            RemoveCmd(cmd.res + 1);
          } else {
            tasks := [task.(cmds := task.cmds[task.cindex := cmd.(data := "")])] + tasks[1..];
          }
        }
      }
    }

    /** `at_queue_insert_const`: runs the queue only if the task was added. */
    method InsertConst(owner: Owner, cmds: seq<Cmd>, prio: bool, memory: bool, outcomes: nat -> Outcome)
      returns (fail: bool, ghost count: nat)
      requires Sound()
      modifies this
      ensures Sound()
      ensures cmds == [] || !memory ==> fail && Value() == old(Value())
      ensures cmds != [] && memory ==> Runnable(Added(old(Value()), owner, cmds, prio))
                                       && Value() == Ran(Added(old(Value()), owner, cmds, prio), count)
    {
      hide Valid, Ran, Added;
      AddedValid(Value(), owner, cmds, prio);
      CmdRemovedValid(Added(Value(), owner, cmds, prio), 0);
      var ok := Add(owner, cmds, prio, memory);
      fail, count := true, 0;
      if ok {
        fail, count := Run(outcomes);
      }
    }

    /** `at_queue_insert_task`: runs the queue in any case. */
    method InsertTask(owner: Owner, cmds: seq<Cmd>, prio: bool, memory: bool, outcomes: nat -> Outcome)
      returns (fail: bool, ghost count: nat)
      requires Sound()
      modifies this
      ensures Sound()
      ensures var q := if cmds != [] && memory then Added(old(Value()), owner, cmds, prio) else old(Value());
              Runnable(q) && Value() == Ran(q, count)
      ensures cmds == [] || !memory ==> fail
    {
      hide Valid, Ran, Added;
      AddedValid(Value(), owner, cmds, prio);
      CmdRemovedValid(Added(Value(), owner, cmds, prio), 0);
      CmdRemovedValid(Value(), 0);
      var ok := Add(owner, cmds, prio, memory);
      var failed;
      failed, count := Run(outcomes);
      fail := failed || !ok;
    }

    /** The loop of `cpvt_free` over the tasks of a call. */
    method Relink(owner: Owner)
      requires Sound()
      modifies this`tasks
      ensures Sound() && Value() == old(Value()).(tasks := Relinked(old(tasks), owner))
    {
      hide Valid;
      RelinkedValid(Value(), owner);
      ghost var was := tasks;
      var i := 0;
      while i < |tasks|
        invariant i <= |tasks| == |was|
        invariant forall k :: 0 <= k < |tasks| ==> tasks[k] == if k < i then Relinked(was, owner)[k] else was[k]
      {
        if tasks[i].owner == owner {
          tasks := tasks[i := tasks[i].(owner := Sys)];
        }
        i := i + 1;
      }
      assert tasks == Relinked(was, owner);
    }

    /** `at_queue_flush` */
    method Flush()
      requires Sound()
      modifies this`tasks, this`atTasks, this`atCmds
      ensures Sound() && Value() == Flushed(old(Value()))
      ensures tasks == [] && atTasks == 0 && atCmds == 0
    {
      hide Valid, Removed;
      FlushedValid(Value());
      while tasks != []
        invariant Flushed(Value()) == old(Flushed(Value()))
        decreases |tasks|
      {
        assert |Removed(Value()).tasks| < |tasks| by { FewerTasks(Value()); }
        Remove();
      }
    }
  }

  lemma FewerTasks(q: Queue)
    requires q.tasks != []
    ensures |Removed(q).tasks| == |q.tasks| - 1
  {
  }
}
