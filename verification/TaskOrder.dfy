/**
 In what order the tasks of the command queue are dealt with, and that a task whose commands are
 written and answered as expected is dealt with as a whole.
 */
module TaskOrder {
  import opened AtQueue

  // ---------- first come, first served ----------

  /** The tasks wait in the order they came in, behind all that were dealt with. */
  ghost predicate InOrderOfArrival(q: Queue) {
    && (forall i, j :: 0 <= i < j < |q.tasks| ==> q.tasks[i].id < q.tasks[j].id)
    && (forall i :: 0 <= i < |q.tasks| ==> q.tasks[i].id < |q.issued|)
    && (forall p, r :: 0 <= p < r < |q.log| ==> q.log[p].id <= q.log[r].id)
    && (forall p, i :: 0 <= p < |q.log| && 0 <= i < |q.tasks| ==> q.log[p].id <= q.tasks[i].id)
    && (forall p :: 0 <= p < |q.log| ==> q.log[p].id < |q.issued|)
  }

  ghost predicate Plain(s: Step) {
    s.Add? ==> !s.prio
  }

  lemma RemovedInOrder(q: Queue)
    requires InOrderOfArrival(q)
    ensures InOrderOfArrival(Removed(q))
  {
    hide Wrap;
  }

  /** An event of the head, and the head in another state of its own. */
  lemma HeadEvent(q: Queue, e: Event, t: Task, atCmds: int)
    requires InOrderOfArrival(q) && q.tasks != [] && e.id == t.id == q.tasks[0].id
    ensures InOrderOfArrival(q.(tasks := [t] + q.tasks[1..], log := q.log + [e], atCmds := atCmds))
  {
    var now := q.(tasks := [t] + q.tasks[1..], log := q.log + [e], atCmds := atCmds);
    assert forall i :: 0 <= i < |now.tasks| ==> now.tasks[i].id == q.tasks[i].id;
  }

  lemma CmdRemovedInOrder(q: Queue, res: int)
    requires InOrderOfArrival(q) && Runnable(q)
    ensures InOrderOfArrival(CmdRemoved(q, res))
  {
    hide InOrderOfArrival, Wrap, Removed;
    if q.tasks != [] {
      var t := q.tasks[0];
      var e := Retired(t.id, t.cindex, res);
      HeadEvent(q, e, t.(cindex := t.cindex + 1), Wrap(q.atCmds - 1));
      RemovedInOrder(q.(tasks := [t.(cindex := t.cindex + 1)] + q.tasks[1..],
                        atCmds := Wrap(q.atCmds - 1), log := q.log + [e]));
    }
  }

  lemma RanInOrder(q: Queue, count: nat)
    requires InOrderOfArrival(q) && Runnable(q)
    ensures InOrderOfArrival(Ran(q, count))
  {
    hide InOrderOfArrival, CmdRemoved;
    if q.tasks != [] {
      var t := q.tasks[0];
      var c, e := t.cmds[t.cindex], Wrote(t.id, t.cindex, count);
      HeadEvent(q, e, t, q.atCmds);
      assert [t] + q.tasks[1..] == q.tasks;
      CmdRemovedInOrder(q.(log := q.log + [e]), c.res + 1);
      HeadEvent(q, e, t.(cmds := t.cmds[t.cindex := c.(data := "")]), q.atCmds);
    }
  }

  lemma {:induction false} FlushedInOrder(q: Queue)
    requires InOrderOfArrival(q)
    ensures InOrderOfArrival(Flushed(q))
    decreases |q.tasks|
  {
    hide InOrderOfArrival;
    if q.tasks != [] {
      RemovedInOrder(q);
      FlushedInOrder(Removed(q));
    }
  }

  lemma StepInOrder(q: Queue, s: Step)
    requires InOrderOfArrival(q) && Runnable(q) && Plain(s)
    ensures InOrderOfArrival(Stepped(q, s))
  {
    hide Wrap, Ran, CmdRemoved, Flushed;
    match s
    case Add(owner, cmds, prio) =>
    case Run(count) => RanInOrder(q, count);
    case Response(res) => CmdRemovedInOrder(q, res);
    case Flush => FlushedInOrder(q);
    case Relink(from) =>
  }

  /** Without priority, commands are written and retired in the order their tasks were queued. */
  lemma {:induction false} FirstComeFirstServed(states: seq<Queue>, steps: seq<Step>, i: nat)
    requires IsRun(states, steps) && i < |states|
    requires forall j :: 0 <= j < i ==> Plain(steps[j])
    ensures InOrderOfArrival(states[i])
  {
    if i > 0 {
      FirstComeFirstServed(states, steps, i - 1);
      hide InOrderOfArrival, Stepped;
      assert Runnable(states[i - 1]) && states[i - 1 + 1] == Stepped(states[i - 1], steps[i - 1]);
      StepInOrder(states[i - 1], steps[i - 1]);
    }
  }

  // ---------- who goes before whom ----------

  /** Where a new task comes: next after the head with priority, and last without. */
  lemma PlaceOfNew(q: Queue, owner: Owner, cmds: seq<Cmd>, prio: bool)
    requires cmds != []
    ensures var now, e := Added(q, owner, cmds, prio), Task(|q.issued|, owner, cmds, 0);
            && (q.tasks == [] ==> now.tasks == [e])
            && (q.tasks != [] ==> now.tasks[0] == q.tasks[0])
            && (q.tasks != [] && prio ==> Removed(now).tasks == [e] + q.tasks[1..])
            && (!prio ==> now.tasks == q.tasks + [e])
            && now.log == q.log && now.issued == q.issued + [cmds]
  {
    hide Wrap;
  }

  ghost predicate Queued(tasks: seq<Task>, id: nat) {
    exists k :: 0 <= k < |tasks| && tasks[k].id == id
  }

  ghost predicate Ahead(tasks: seq<Task>, a: nat, b: nat) {
    forall i, j :: 0 <= i < |tasks| && 0 <= j < |tasks| && tasks[i].id == a && tasks[j].id == b ==> i < j
  }

  /**
   Since there were `n` events, task `b` lets task `a` go first: it is behind it as long as both are
   queued, and was not dealt with before `a` was gone; and nothing happens to `a` once `b` has begun.
   */
  ghost predicate Yields(q: Queue, a: nat, b: nat, n: nat) {
    && a < |q.issued| && b < |q.issued| && Ahead(q.tasks, a, b)
    && (forall p :: n <= p < |q.log| && q.log[p].id == b ==> !Queued(q.tasks, a))
    && (forall p, r :: n <= p < r < |q.log| && q.log[p].id == b ==> q.log[r].id != a)
  }

  lemma AddedYields(q: Queue, owner: Owner, cmds: seq<Cmd>, prio: bool, a: nat, b: nat, n: nat)
    requires Yields(q, a, b, n)
    ensures Yields(Added(q, owner, cmds, prio), a, b, n)
  {
    hide Wrap;
  }

  lemma RemovedYields(q: Queue, a: nat, b: nat, n: nat)
    requires Yields(q, a, b, n)
    ensures Yields(Removed(q), a, b, n)
  {
    hide Wrap;
  }

  lemma HeadYields(q: Queue, e: Event, t: Task, atCmds: int, a: nat, b: nat, n: nat)
    requires Yields(q, a, b, n) && q.tasks != [] && e.id == t.id == q.tasks[0].id
    ensures Yields(q.(tasks := [t] + q.tasks[1..], log := q.log + [e], atCmds := atCmds), a, b, n)
  {
    var now := q.(tasks := [t] + q.tasks[1..], log := q.log + [e], atCmds := atCmds);
    assert forall i :: 0 <= i < |now.tasks| ==> now.tasks[i].id == q.tasks[i].id;
  }

  lemma CmdRemovedYields(q: Queue, res: int, a: nat, b: nat, n: nat)
    requires Yields(q, a, b, n) && Runnable(q)
    ensures Yields(CmdRemoved(q, res), a, b, n)
  {
    hide Yields, Wrap, Removed;
    if q.tasks != [] {
      var t := q.tasks[0];
      var e, u := Retired(t.id, t.cindex, res), t.(cindex := t.cindex + 1);
      HeadYields(q, e, u, Wrap(q.atCmds - 1), a, b, n);
      RemovedYields(q.(tasks := [u] + q.tasks[1..], atCmds := Wrap(q.atCmds - 1), log := q.log + [e]), a, b, n);
    }
  }

  lemma RanYields(q: Queue, count: nat, a: nat, b: nat, n: nat)
    requires Yields(q, a, b, n) && Runnable(q)
    ensures Yields(Ran(q, count), a, b, n)
  {
    hide Yields, CmdRemoved;
    if q.tasks != [] {
      var t := q.tasks[0];
      var c, e := t.cmds[t.cindex], Wrote(t.id, t.cindex, count);
      HeadYields(q, e, t, q.atCmds, a, b, n);
      assert [t] + q.tasks[1..] == q.tasks;
      CmdRemovedYields(q.(log := q.log + [e]), c.res + 1, a, b, n);
      HeadYields(q, e, t.(cmds := t.cmds[t.cindex := c.(data := "")]), q.atCmds, a, b, n);
    }
  }

  lemma {:induction false} FlushedYields(q: Queue, a: nat, b: nat, n: nat)
    requires Yields(q, a, b, n)
    ensures Yields(Flushed(q), a, b, n)
    decreases |q.tasks|
  {
    hide Yields;
    if q.tasks != [] {
      RemovedYields(q, a, b, n);
      FlushedYields(Removed(q), a, b, n);
    }
  }

  lemma RelinkedYields(q: Queue, from: Owner, a: nat, b: nat, n: nat)
    requires Yields(q, a, b, n)
    ensures Yields(q.(tasks := Relinked(q.tasks, from)), a, b, n)
  {
    var tasks := Relinked(q.tasks, from);
    assert forall k :: 0 <= k < |tasks| ==> tasks[k].id == q.tasks[k].id;
  }

  lemma StepYields(q: Queue, s: Step, a: nat, b: nat, n: nat)
    requires Yields(q, a, b, n) && Runnable(q)
    ensures Yields(Stepped(q, s), a, b, n)
  {
    hide Yields, Added, Ran, CmdRemoved, Flushed, Relinked;
    match s
    case Add(owner, cmds, prio) => AddedYields(q, owner, cmds, prio, a, b, n);
    case Run(count) => RanYields(q, count, a, b, n);
    case Response(res) => CmdRemovedYields(q, res, a, b, n);
    case Flush => FlushedYields(q, a, b, n);
    case Relink(from) => RelinkedYields(q, from, a, b, n);
  }

  lemma {:induction false} RunYields(states: seq<Queue>, steps: seq<Step>, i: nat, j: nat, a: nat, b: nat, n: nat)
    requires IsRun(states, steps) && i <= j < |states| && Yields(states[i], a, b, n)
    ensures Yields(states[j], a, b, n)
  {
    hide Yields, Stepped;
    if i < j {
      RunYields(states, steps, i, j - 1, a, b, n);
      assert Runnable(states[j - 1]) && states[j - 1 + 1] == Stepped(states[j - 1], steps[j - 1]);
      StepYields(states[j - 1], steps[j - 1], a, b, n);
    }
  }

  ghost predicate KnownIds(q: Queue) {
    && (forall m :: 0 <= m < |q.tasks| ==> q.tasks[m].id < |q.issued|)
    && (forall k, m :: 0 <= k < m < |q.tasks| ==> q.tasks[k].id != q.tasks[m].id)
  }

  lemma ValidKnown(q: Queue)
    requires Valid(q)
    ensures KnownIds(q)
  {
    hide Disciplined, Counted;
    forall m | 0 <= m < |q.tasks|
      ensures q.tasks[m].id < |q.issued|
    {
      if m > 0 {
        assert Fresh(q, q.tasks[m]);
      }
    }
  }

  lemma LastBehind(tasks: seq<Task>, e: Task, there: nat)
    requires e.id != there && forall m :: 0 <= m < |tasks| ==> tasks[m].id != e.id
    ensures Ahead(tasks + [e], there, e.id)
  {
  }

  lemma NextAhead(head: Task, e: Task, rest: seq<Task>, there: nat)
    requires head.id != there && head.id != e.id && e.id != there
    requires forall m :: 0 <= m < |rest| ==> rest[m].id != e.id
    ensures Ahead([head, e] + rest, e.id, there)
  {
  }

  lemma HeadAhead(head: Task, e: Task, rest: seq<Task>)
    requires head.id != e.id && forall m :: 0 <= m < |rest| ==> rest[m].id != e.id && rest[m].id != head.id
    ensures Ahead([head, e] + rest, head.id, e.id)
  {
  }

  /** The new task, and one that was there: which of the two is ahead. */
  lemma NewAhead(q: Queue, e: Task, prio: bool, k: nat)
    requires KnownIds(q) && k < |q.tasks| && e.id == |q.issued|
    ensures var there := q.tasks[k].id;
            && Ahead(q.tasks + [e], there, e.id)
            && (if k > 0 then Ahead([q.tasks[0], e] + q.tasks[1..], e.id, there)
                else Ahead([q.tasks[0], e] + q.tasks[1..], there, e.id))
  {
    hide Ahead;
    LastBehind(q.tasks, e, q.tasks[k].id);
    if k > 0 {
      assert q.tasks[0].id != q.tasks[k].id;
      NextAhead(q.tasks[0], e, q.tasks[1..], q.tasks[k].id);
    } else {
      HeadAhead(q.tasks[0], e, q.tasks[1..]);
    }
  }

  lemma NewYields(q: Queue, owner: Owner, cmds: seq<Cmd>, prio: bool, k: nat)
    requires Valid(q) && cmds != [] && k < |q.tasks|
    ensures var now, added, there := Added(q, owner, cmds, prio), |q.issued|, q.tasks[k].id;
            if prio && k > 0 then Yields(now, added, there, |now.log|) else Yields(now, there, added, |now.log|)
  {
    hide Valid, Wrap, Ahead, KnownIds;
    ValidKnown(q);
    NewAhead(q, Task(|q.issued|, owner, cmds, 0), prio, k);
    assert q.tasks[k].id < |q.issued| by { IdKnown(q, k); }
  }

  lemma IdKnown(q: Queue, k: nat)
    requires KnownIds(q) && k < |q.tasks|
    ensures q.tasks[k].id < |q.issued|
  {
  }

  /**
   In every run: a task queued with priority is dealt with before every task that waited behind the head when
   it came, and after the head; one queued without it, after all that were there. Nothing that happens later,
   be it a flush, changes this.
   */
  lemma PriorityGoesFirst(states: seq<Queue>, steps: seq<Step>, i: nat, j: nat, k: nat)
    requires IsRun(states, steps) && i < j < |states| && steps[i].Add? && steps[i].cmds != []
    requires k < |states[i].tasks|
    ensures var added, there, n := |states[i].issued|, states[i].tasks[k].id, |states[i].log|;
            if steps[i].prio && k > 0 then Yields(states[j], added, there, n) else Yields(states[j], there, added, n)
  {
    EveryRunValid(states, steps, i);
    assert Runnable(states[i]) && states[i + 1] == Stepped(states[i], steps[i]);
    NewYields(states[i], steps[i].owner, steps[i].cmds, steps[i].prio, k);
    PlaceOfNew(states[i], steps[i].owner, steps[i].cmds, steps[i].prio);
    hide Yields, Added, Valid;
    var added, there, n := |states[i].issued|, states[i].tasks[k].id, |states[i].log|;
    if steps[i].prio && k > 0 {
      RunYields(states, steps, i + 1, j, added, there, n);
    } else {
      RunYields(states, steps, i + 1, j, there, added, n);
    }
  }

  /** A flush leaves nothing, and relinking leaves no task of the call, while those of others stay as they are. */
  lemma FlushedOrRelinked(q: Queue, from: Owner)
    requires Valid(q) && from != Sys
    ensures var e := Stepped(q, Flush); e.tasks == [] && e.atTasks == 0 && e.atCmds == 0 && e.log == q.log
    ensures var e := Stepped(q, Relink(from));
            && |e.tasks| == |q.tasks| && e.log == q.log
            && forall k :: 0 <= k < |q.tasks| ==>
                 && e.tasks[k].owner != from
                 && e.tasks[k] == if q.tasks[k].owner == from then q.tasks[k].(owner := Sys) else q.tasks[k]
  {
    hide Valid, Flushed;
    FlushedValid(q);
    FlushedLog(q);
  }

  lemma {:induction false} FlushedLog(q: Queue)
    ensures Flushed(q).log == q.log
    decreases |q.tasks|
  {
    hide Wrap;
    if q.tasks != [] {
      FlushedLog(Removed(q));
    }
  }

  // ---------- a whole task ----------

  /** What happens on the wire to one command when all goes well: it is written, and answered as expected. */
  function Served(id: nat, c: Cmd, k: nat): seq<Event> {
    (if c.data == "" then [] else [Wrote(id, k, |c.data|)]) + [Retired(id, k, c.res)]
  }

  /** The same for all commands from `k` on. */
  function Script(id: nat, cmds: seq<Cmd>, k: nat): seq<Event>
    requires k <= |cmds|
    decreases |cmds| - k
  {
    if k == |cmds| then [] else Served(id, cmds[k], k) + Script(id, cmds, k + 1)
  }

  /** One round: the head's command is written as a whole, and answered by what it expects. */
  function Round(q: Queue): Queue
    requires q.tasks != [] && Runnable(q)
  {
    var c := q.tasks[0].cmds[q.tasks[0].cindex];
    var sent := Stepped(q, Run(|c.data|));
    if Runnable(sent) then Stepped(sent, Response(c.res)) else sent
  }

  function Rounds(q: Queue, n: nat): Queue
    decreases n
  {
    if n == 0 || q.tasks == [] || !Runnable(q) then q else Rounds(Round(q), n - 1)
  }

  /** What one round does to a head that has not been written yet. */
  lemma RoundIs(q: Queue)
    requires q.tasks != [] && Runnable(q)
    ensures var t := q.tasks[0];
            var c := t.cmds[t.cindex];
            && Round(q).log == q.log + Served(t.id, c, t.cindex)
            && if t.cindex + 1 == |t.cmds| then Round(q).tasks == q.tasks[1..]
               else
                 && Round(q).tasks != [] && Round(q).tasks[1..] == q.tasks[1..]
                 && var u := Round(q).tasks[0];
                    u.id == t.id && u.owner == t.owner && u.cindex == t.cindex + 1 && |u.cmds| == |t.cmds|
                    && forall k :: t.cindex < k < |t.cmds| ==> u.cmds[k] == t.cmds[k]
  {
    hide Wrap;
    var t := q.tasks[0];
    var c := t.cmds[t.cindex];
    if c.data != "" {
      assert q.log + [Wrote(t.id, t.cindex, |c.data|)] + [Retired(t.id, t.cindex, c.res)]
          == q.log + Served(t.id, c, t.cindex);
    } else {
      assert q.log + [Retired(t.id, t.cindex, c.res)] == q.log + Served(t.id, c, t.cindex);
    }
  }

  lemma {:induction false} SameScript(id: nat, a: seq<Cmd>, b: seq<Cmd>, k: nat)
    requires k <= |a| == |b| && forall i :: k <= i < |a| ==> a[i] == b[i]
    ensures Script(id, a, k) == Script(id, b, k)
    decreases |a| - k
  {
    if k < |a| {
      SameScript(id, a, b, k + 1);
    }
  }

  /** All its commands are written and retired, in order and nothing between, and then the next task is at the head. */
  lemma {:induction false} TaskComesThrough(q: Queue, n: nat)
    requires q.tasks != [] && q.tasks[0].cindex + n == |q.tasks[0].cmds| && n > 0
    ensures Rounds(q, n).tasks == q.tasks[1..]
    ensures Rounds(q, n).log == q.log + Script(q.tasks[0].id, q.tasks[0].cmds, q.tasks[0].cindex)
    decreases n
  {
    hide Round, Script, Served;
    var t := q.tasks[0];
    RoundIs(q);
    var now, here := Round(q), Served(t.id, t.cmds[t.cindex], t.cindex);
    ScriptStep(t.id, t.cmds, t.cindex);
    if n == 1 {
      assert Rounds(now, 0) == now && here + [] == here;
    } else {
      TaskComesThrough(now, n - 1);
      SameScript(t.id, now.tasks[0].cmds, t.cmds, t.cindex + 1);
      assert (q.log + here) + Script(t.id, t.cmds, t.cindex + 1) == q.log + (here + Script(t.id, t.cmds, t.cindex + 1));
    }
  }

  lemma ScriptStep(id: nat, cmds: seq<Cmd>, k: nat)
    requires k < |cmds|
    ensures Script(id, cmds, k) == Served(id, cmds[k], k) + Script(id, cmds, k + 1)
    ensures k + 1 == |cmds| ==> Script(id, cmds, k + 1) == []
  {
  }
}
