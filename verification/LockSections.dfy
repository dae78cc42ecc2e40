/**
 What the driver does to the command queue while it holds the lock of a device: it inserts and runs
 the queue, or it takes a response, inserts what this calls for, and runs the queue; a run that fails
 after a response brings the device down. In these runs it shows when a command is retired that
 was never written.
 */
module LockSections {
  import opened Wrappers
  import opened AtQueue
  import Handlers

  /** The command at the head, if there is one, is on the wire: its `length` is 0. */
  predicate Settled(q: Queue) {
    q.tasks != [] ==> var t := q.tasks[0]; t.cindex < |t.cmds| && t.cmds[t.cindex].data == ""
  }

  /** Every command has something to write. */
  ghost predicate AllData(issued: seq<seq<Cmd>>) {
    forall id, k :: 0 <= id < |issued| && 0 <= k < |issued[id]| ==> issued[id][k].data != ""
  }

  /** The last event is a try to write the command at the head. */
  ghost predicate HeadTried(q: Queue)
    requires q.tasks != []
  {
    && q.log != []
    && var e := q.log[|q.log| - 1];
       e.Wrote? && e.id == q.tasks[0].id && e.index == q.tasks[0].cindex
  }

  /** The head is the last thing written, or there was nothing to write, iff its length is 0. */
  lemma HeadWritten(q: Queue)
    requires Valid(q) && q.tasks != []
    ensures Runnable(q)
    ensures var t := q.tasks[0];
            && t.id < |q.issued| && t.cindex < |q.issued[t.id]|
            && (q.issued[t.id][t.cindex].data == "" || HeadTried(q) <==> t.cmds[t.cindex].data == "")
  {
    hide Disciplined, Counted, Waiting;
  }

  lemma HeadSettled(q: Queue)
    requires Valid(q) && AllData(q.issued) && q.tasks != []
    ensures HeadTried(q) <==> Settled(q)
  {
    HeadWritten(q);
  }

  // ---------- retired only after it was written ----------

  /** What is retired was tried to be written right before. */
  ghost predicate TriedBefore(log: seq<Event>, p: nat)
    requires p < |log|
  {
    log[p].Retired? ==>
      p > 0 && log[p - 1].Wrote? && log[p - 1].id == log[p].id && log[p - 1].index == log[p].index
  }

  ghost predicate AllTried(log: seq<Event>) {
    forall p :: 0 <= p < |log| ==> TriedBefore(log, p)
  }

  lemma AllTriedAppend(log: seq<Event>, e: Event)
    ensures AllTried(log + [e]) <==> AllTried(log) && TriedBefore(log + [e], |log|)
  {
    forall p | 0 <= p < |log|
      ensures TriedBefore(log + [e], p) <==> TriedBefore(log, p)
    {
    }
  }

  /** A response retires the command at the head as it should iff that is on the wire. */
  lemma ResponseTried(q: Queue, res: int)
    requires Valid(q) && AllData(q.issued)
    ensures Runnable(q)
    ensures AllTried(CmdRemoved(q, res).log) <==> AllTried(q.log) && Settled(q)
  {
    CmdRemovedValid(q, res);
    if q.tasks != [] {
      HeadSettled(q);
      var e := Retired(q.tasks[0].id, q.tasks[0].cindex, res);
      AllTriedAppend(q.log, e);
      hide Valid, AllTried, Settled, Wrap;
      assert CmdRemoved(q, res).log == q.log + [e];
    }
  }

  /** The write of the head falls short. */
  predicate Short(q: Queue, count: nat)
    requires Runnable(q)
  {
    q.tasks != [] && var c := q.tasks[0].cmds[q.tasks[0].cindex]; c.data != "" && count != |c.data|
  }

  /** A run retires nothing untried. */
  lemma RunTried(q: Queue, count: nat)
    requires Valid(q)
    ensures Runnable(q)
    ensures AllTried(Ran(q, count).log) <==> AllTried(q.log)
  {
    CmdRemovedValid(q, 0);
    if q.tasks != [] {
      var t := q.tasks[0];
      var e, e2 := Wrote(t.id, t.cindex, count), Retired(t.id, t.cindex, t.cmds[t.cindex].res + 1);
      AllTriedAppend(q.log, e);
      AllTriedAppend(q.log + [e], e2);
      hide Valid, AllTried, Wrap;
    }
  }

  lemma NextUnsettled(q: Queue)
    requires Valid(q) && AllData(q.issued) && q.tasks != [] && q.log != [] && q.log[|q.log| - 1].Retired?
    ensures !Settled(q)
  {
    HeadSettled(q);
  }

  /** After a run the head is on the wire, unless the write fell short and something is left. */
  lemma RunSettles(q: Queue, count: nat)
    requires Valid(q) && AllData(q.issued)
    ensures Runnable(q)
    ensures Settled(Ran(q, count)) <==> !Short(q, count) || Ran(q, count).tasks == []
  {
    RanValid(q, count);
    if Short(q, count) {
      ShortRetires(q, count);
      hide Valid, AllData, Ran;
      if Ran(q, count).tasks != [] {
        NextUnsettled(Ran(q, count));
      }
    }
  }

  lemma ShortRetires(q: Queue, count: nat)
    requires Runnable(q) && Short(q, count)
    ensures var r := Ran(q, count); r.log != [] && r.log[|r.log| - 1].Retired? && r.issued == q.issued
  {
    hide Wrap;
  }

  // ---------- the lock sections ----------

  /** `at_queue_insert_const`, or with `always` `at_queue_insert_task`. */
  datatype Insertion = Insertion(owner: Owner, cmds: seq<Cmd>, prio: bool, memory: bool, always: bool, count: nat)

  ghost predicate HasData(i: Insertion) {
    forall k :: 0 <= k < |i.cmds| ==> i.cmds[k].data != ""
  }

  /** The queue that an insertion runs, if it does. */
  function Entered(q: Queue, i: Insertion): Queue {
    if i.memory then Added(q, i.owner, i.cmds, i.prio) else q
  }

  predicate Runs(i: Insertion) {
    i.always || (i.cmds != [] && i.memory)
  }

  ghost function InsertedBy(q: Queue, i: Insertion): (r: Queue)
    requires Valid(q)
    ensures Valid(r)
  {
    AddedValid(q, i.owner, i.cmds, i.prio);
    RanValid(Entered(q, i), i.count);
    if Runs(i) then Ran(Entered(q, i), i.count) else q
  }

  ghost function AllInserted(q: Queue, ins: seq<Insertion>): (r: Queue)
    requires Valid(q)
    ensures Valid(r)
  {
    if ins == [] then q else InsertedBy(AllInserted(q, ins[..|ins| - 1]), ins[|ins| - 1])
  }

  /**
   With `res`, a response moves the queue, after some insertions of its handler and before others;
   the handler may fail. A freed call gives its tasks away; a disconnect flushes the queue.
   */
  datatype Section =
    | Insert(i: Insertion)
    | Respond(before: seq<Insertion>, res: Option<int>, after: seq<Insertion>, fails: bool, count: nat)
    | Free(from: Owner)
    | Disconnect

  ghost predicate Proper(s: Section) {
    match s
    case Insert(i) => HasData(i)
    case Respond(before, _, after, _, _) =>
      && (forall k :: 0 <= k < |before| ==> HasData(before[k]))
      && (forall k :: 0 <= k < |after| ==> HasData(after[k]))
    case _ => true
  }

  /** The queue when the response is taken, and after it. */
  ghost function Moved(q: Queue, res: Option<int>): (r: Queue)
    requires Valid(q)
    ensures Valid(r)
  {
    if res.Some? then
      CmdRemovedValid(q, res.value);
      CmdRemoved(q, res.value)
    else q
  }

  /** `at_queue_run` after a response: if it fails, or the handler did, the device goes down. */
  ghost function RanOrDown(q: Queue, fails: bool, count: nat): (r: Queue)
    requires Valid(q)
    ensures Valid(r)
  {
    RanValid(q, count);
    FlushedValid(q);
    FlushedValid(Ran(q, count));
    if fails then Flushed(q) else if Short(q, count) then Flushed(Ran(q, count)) else Ran(q, count)
  }

  ghost function After(q: Queue, s: Section): (r: Queue)
    requires Valid(q)
    ensures Valid(r)
  {
    match s
    case Insert(i) => InsertedBy(q, i)
    case Respond(before, res, after, fails, count) =>
      RanOrDown(AllInserted(Moved(AllInserted(q, before), res), after), fails, count)
    case Free(from) =>
      RelinkedValid(q, from);
      q.(tasks := Relinked(q.tasks, from))
    case Disconnect =>
      FlushedValid(q);
      Flushed(q)
  }

  /** The response is for a command on the wire, or moves nothing. */
  ghost predicate InTime(q: Queue, s: Section)
    requires Valid(q)
  {
    s.Respond? && s.res.Some? ==> Settled(AllInserted(q, s.before))
  }

  lemma EnteredData(q: Queue, i: Insertion)
    requires AllData(q.issued) && HasData(i)
    ensures AllData(Entered(q, i).issued) && Entered(q, i).log == q.log
  {
    hide Wrap;
  }

  lemma InsertedTried(q: Queue, i: Insertion)
    requires Valid(q) && AllData(q.issued) && HasData(i)
    ensures AllData(InsertedBy(q, i).issued) && (AllTried(InsertedBy(q, i).log) <==> AllTried(q.log))
  {
    AddedValid(q, i.owner, i.cmds, i.prio);
    EnteredData(q, i);
    RunTried(Entered(q, i), i.count);
    RanIssued(Entered(q, i), i.count);
    hide Valid, AllData, AllTried, Ran;
  }

  lemma RanIssued(q: Queue, count: nat)
    requires Runnable(q)
    ensures Ran(q, count).issued == q.issued
  {
    hide Wrap;
  }

  lemma {:induction false} AllInsertedTried(q: Queue, ins: seq<Insertion>)
    requires Valid(q) && AllData(q.issued) && forall k :: 0 <= k < |ins| ==> HasData(ins[k])
    ensures AllData(AllInserted(q, ins).issued) && (AllTried(AllInserted(q, ins).log) <==> AllTried(q.log))
  {
    hide Valid, AllData, AllTried, InsertedBy, HasData;
    if ins != [] {
      AllInsertedTried(q, ins[..|ins| - 1]);
      InsertedTried(AllInserted(q, ins[..|ins| - 1]), ins[|ins| - 1]);
    }
  }

  lemma {:induction false} FlushedRest(q: Queue)
    ensures Flushed(q).log == q.log && Flushed(q).issued == q.issued
    decreases |q.tasks|
  {
    hide Wrap;
    if q.tasks != [] {
      FlushedRest(Removed(q));
    }
  }

  lemma RanOrDownTried(q: Queue, fails: bool, count: nat)
    requires Valid(q)
    ensures var r := RanOrDown(q, fails, count); r.issued == q.issued && (AllTried(r.log) <==> AllTried(q.log))
  {
    RunTried(q, count);
    RanIssued(q, count);
    FlushedRest(q);
    FlushedRest(Ran(q, count));
    hide Valid, AllTried, Ran, Flushed;
  }

  lemma MovedTried(q: Queue, res: Option<int>)
    requires Valid(q) && AllData(q.issued)
    ensures var r := Moved(q, res);
            r.issued == q.issued && (AllTried(r.log) <==> AllTried(q.log) && (res.Some? ==> Settled(q)))
  {
    if res.Some? {
      ResponseTried(q, res.value);
      hide Valid, AllTried, AllData, Wrap, Settled;
    }
  }

  /** In one lock section something is retired untried iff a response comes while the head is unwritten. */
  lemma SectionTried(q: Queue, s: Section)
    requires Valid(q) && AllData(q.issued) && Proper(s)
    ensures AllData(After(q, s).issued) && (AllTried(After(q, s).log) <==> AllTried(q.log) && InTime(q, s))
  {
    hide Valid, AllData, AllTried, InsertedBy, HasData, AllInserted, Moved, RanOrDown, Settled;
    match s
    case Insert(i) => InsertedTried(q, i);
    case Respond(before, res, after, fails, count) =>
      AllInsertedTried(q, before);
      var asked := AllInserted(q, before);
      MovedTried(asked, res);
      AllInsertedTried(Moved(asked, res), after);
      RanOrDownTried(AllInserted(Moved(asked, res), after), fails, count);
    case Free(from) =>
    case Disconnect => FlushedRest(q);
  }

  // ---------- runs of lock sections ----------

  ghost predicate Leads(q: Queue, s: Section, r: Queue) {
    Valid(q) ==> r == After(q, s)
  }

  ghost predicate IsSectionRun(states: seq<Queue>, sections: seq<Section>) {
    && |states| == |sections| + 1 && states[0] == EMPTY
    && forall i :: 0 <= i < |sections| ==> Proper(sections[i]) && Leads(states[i], sections[i], states[i + 1])
  }

  lemma {:induction false} SectionsValid(states: seq<Queue>, sections: seq<Section>, i: nat)
    requires IsSectionRun(states, sections) && i < |states|
    ensures Valid(states[i]) && AllData(states[i].issued)
  {
    if i == 0 {
      EmptyValid();
    } else {
      hide Valid, AllData, After, Proper;
      SectionsValid(states, sections, i - 1);
      var j := i - 1;
      assert Proper(sections[j]) && Leads(states[j], sections[j], states[j + 1]);
      SectionTried(states[j], sections[j]);
    }
  }

  ghost predicate InTimeAt(states: seq<Queue>, sections: seq<Section>, j: nat)
    requires j < |sections| && j < |states|
  {
    Valid(states[j]) && InTime(states[j], sections[j])
  }

  /** In every run, a command is retired only after it was written iff every response finds the head on the wire. */
  lemma {:induction false} RetiredWrittenIff(states: seq<Queue>, sections: seq<Section>, i: nat)
    requires IsSectionRun(states, sections) && i < |states|
    ensures AllTried(states[i].log) <==> forall j :: 0 <= j < i ==> InTimeAt(states, sections, j)
  {
    if i > 0 {
      var j := i - 1;
      SectionsValid(states, sections, j);
      hide Valid, AllData, After, Proper, AllTried, InTime;
      RetiredWrittenIff(states, sections, j);
      assert Proper(sections[j]) && Leads(states[j], sections[j], states[j + 1]);
      SectionTried(states[j], sections[j]);
      assert InTimeAt(states, sections, j) <==> InTime(states[j], sections[j]);
    }
  }

  // ---------- when the head is on the wire ----------

  /** What the insertion tries to write falls short. */
  ghost predicate InsertedShort(q: Queue, i: Insertion)
    requires Valid(q)
  {
    Runs(i) && Runnable(Entered(q, i)) && Short(Entered(q, i), i.count)
  }

  /** After an insertion the head is on the wire iff nothing is left, or it was run or so before, and not cut short. */
  lemma InsertedSettles(q: Queue, i: Insertion)
    requires Valid(q) && AllData(q.issued) && HasData(i)
    ensures Settled(InsertedBy(q, i)) <==>
              || InsertedBy(q, i).tasks == []
              || (!InsertedShort(q, i) && (i.always || (i.cmds != [] && i.memory) || Settled(q)))
  {
    AddedValid(q, i.owner, i.cmds, i.prio);
    EnteredData(q, i);
    RunSettles(Entered(q, i), i.count);
    hide Valid, AllData, Ran, Short, Entered, HasData;
  }

  lemma RanOrDownSettles(q: Queue, fails: bool, count: nat)
    requires Valid(q) && AllData(q.issued)
    ensures Settled(RanOrDown(q, fails, count))
  {
    RunSettles(q, count);
    RanValid(q, count);
    FlushedValid(q);
    FlushedValid(Ran(q, count));
    hide Valid, AllData, Ran, Short, Flushed;
  }

  /** The only way to leave the head unwritten is an insertion whose write falls short. */
  lemma SectionSettles(q: Queue, s: Section)
    requires Valid(q) && AllData(q.issued) && Proper(s)
    ensures Settled(After(q, s)) <==>
              match s
              case Insert(i) =>
                || InsertedBy(q, i).tasks == []
                || (!InsertedShort(q, i) && (i.always || (i.cmds != [] && i.memory) || Settled(q)))
              case Respond(_, _, _, _, _) => true
              case Free(_) => Settled(q)
              case Disconnect => true
  {
    hide Valid, AllData, AllTried, InsertedBy, HasData, AllInserted, Moved, RanOrDown, InsertedShort;
    match s
    case Insert(i) => InsertedSettles(q, i);
    case Respond(before, res, after, fails, count) =>
      AllInsertedTried(q, before);
      var asked := AllInserted(q, before);
      MovedTried(asked, res);
      AllInsertedTried(Moved(asked, res), after);
      RanOrDownSettles(AllInserted(Moved(asked, res), after), fails, count);
    case Free(from) =>
    case Disconnect => FlushedValid(q);
  }

  ghost predicate WholeAt(q: Queue, ins: seq<Insertion>, k: nat)
    requires Valid(q) && k < |ins|
  {
    !InsertedShort(AllInserted(q, ins[..k]), ins[k])
  }

  /** Nothing these insertions write falls short. */
  ghost predicate Whole(q: Queue, ins: seq<Insertion>)
    requires Valid(q)
  {
    forall k :: 0 <= k < |ins| ==> WholeAt(q, ins, k)
  }

  lemma WholeFront(q: Queue, ins: seq<Insertion>)
    requires Valid(q) && ins != [] && Whole(q, ins)
    ensures Whole(q, ins[..|ins| - 1]) && WholeAt(q, ins, |ins| - 1)
  {
    hide Valid, InsertedShort, AllInserted;
    var front := ins[..|ins| - 1];
    forall k | 0 <= k < |front|
      ensures WholeAt(q, front, k)
    {
      assert front[..k] == ins[..k] && WholeAt(q, ins, k);
    }
  }

  lemma {:induction false} WholeSettles(q: Queue, ins: seq<Insertion>)
    requires Valid(q) && AllData(q.issued) && (forall k :: 0 <= k < |ins| ==> HasData(ins[k]))
    requires Settled(q) && Whole(q, ins)
    ensures Settled(AllInserted(q, ins))
  {
    hide Valid, AllData, AllTried, InsertedBy, HasData, Settled, Whole, InsertedShort;
    if ins != [] {
      var n := |ins| - 1;
      AllInsertedTried(q, ins[..n]);
      WholeFront(q, ins);
      WholeSettles(q, ins[..n]);
      InsertedSettles(AllInserted(q, ins[..n]), ins[n]);
    }
  }

  /** The insertions before the response, or of the section, write all they try to. */
  ghost predicate WritesWhole(q: Queue, s: Section)
    requires Valid(q)
  {
    match s
    case Insert(i) => !InsertedShort(q, i)
    case Respond(before, _, _, _, _) => Whole(q, before)
    case _ => true
  }

  ghost predicate WholeSectionAt(states: seq<Queue>, sections: seq<Section>, j: nat)
    requires j < |sections| && j < |states|
  {
    Valid(states[j]) && WritesWhole(states[j], sections[j])
  }

  /** As long as no insertion falls short, every command retired was written, and the head is on the wire. */
  lemma {:induction false} WholeWritesSuffice(states: seq<Queue>, sections: seq<Section>, i: nat)
    requires IsSectionRun(states, sections) && i < |states|
    requires forall j :: 0 <= j < i ==> WholeSectionAt(states, sections, j)
    ensures AllTried(states[i].log) && Settled(states[i])
  {
    if i > 0 {
      var j := i - 1;
      SectionsValid(states, sections, j);
      hide Valid, AllData, After, AllTried, Settled, HasData, InsertedShort, InsertedBy, Whole, AllInserted;
      WholeWritesSuffice(states, sections, j);
      assert Proper(sections[j]) && Leads(states[j], sections[j], states[j + 1]) && WholeSectionAt(states, sections, j);
      SectionTried(states[j], sections[j]);
      SectionSettles(states[j], sections[j]);
      match sections[j]
      case Insert(i) => if !Runs(i) { assert Settled(states[j]); }
      case Respond(before, _, _, _, _) => WholeSettles(states[j], before);
      case _ =>
    }
  }

  /**
   A dial that says whether to show the number. The write of this first command falls short, and the task
   goes on, as the command has IGNORE; then a response retires the dial command, which was never written.
   */
  lemma RetiredUnwritten(owner: Owner, clir: string, dial: string)
    requires clir != "" && dial != ""
    ensures var cmds := Handlers.DialCmds(false, Some(clir), dial);
            var insert := Insert(Insertion(owner, cmds, true, true, true, 0));
            var respond := Respond([], Some(RES_OK), [], false, |cmds[2].data|);
            && Valid(EMPTY) && Proper(insert) && Proper(respond)
            && cmds[1].code == Handlers.CMD_D && cmds[1].data == dial
            && After(After(EMPTY, insert), respond).log
               == [Wrote(0, 0, 0), Retired(0, 0, RES_OK + 1), Retired(0, 1, RES_OK), Wrote(0, 2, |cmds[2].data|)]
  {
    var cmds := Handlers.DialCmds(false, Some(clir), dial);
    assert |cmds| == 4 && cmds[0].ignore && cmds[1].ignore && cmds[0].res == RES_OK;
    assert cmds[0].data == clir && cmds[1].data == dial;
    assert forall k :: 0 <= k < 4 ==> cmds[k].data != "";
    hide Handlers.DialCmds;
    ShortThenRetired(owner, cmds);
  }

  lemma ShortThenRetired(owner: Owner, cmds: seq<Cmd>)
    requires |cmds| > 2 && cmds[0].ignore && cmds[1].ignore && forall k :: 0 <= k < |cmds| ==> cmds[k].data != ""
    ensures var insert := Insert(Insertion(owner, cmds, true, true, true, 0));
            var respond := Respond([], Some(RES_OK), [], false, |cmds[2].data|);
            && Valid(EMPTY) && Proper(insert) && Proper(respond)
            && After(After(EMPTY, insert), respond).log
               == [Wrote(0, 0, 0), Retired(0, 0, cmds[0].res + 1), Retired(0, 1, RES_OK), Wrote(0, 2, |cmds[2].data|)]
  {
    EmptyValid();
    hide Valid;
    var i := Insertion(owner, cmds, true, true, true, 0);
    var q1 := Added(EMPTY, owner, cmds, true);
    assert q1.tasks == [Task(0, owner, cmds, 0)];
    var q2 := InsertedBy(EMPTY, i);
    assert q2.tasks == [Task(0, owner, cmds, 1)];
    assert q2.log == [Wrote(0, 0, 0), Retired(0, 0, cmds[0].res + 1)];
    var q3 := Moved(q2, Some(RES_OK));
    assert q3.tasks == [Task(0, owner, cmds, 2)];
    assert AllInserted(q2, []) == q2 && AllInserted(q3, []) == q3;
  }
}
