/**
 Stopping and restarting a device, at once or when it has nothing to do: the requests of helpers.c,
 the conditions and the discovery thread of chan_dongle.c, and the work that may be under way.

 Discovery lets go of the lock while it waits for the monitor thread to end and while it looks for the
 ports; `plan` is what it is at. The program does not keep `pending`, `latest`, `patient` and `reopened`:
 the messages on their way, the time asked for last, whether that was a good time when discovery decided
 to stop the device, and whether a request opened the device again since then.
 */
module Restart {
  import opened Wrappers

  datatype Goal = Stopped | Restarted | Removed | Started
  datatype When = Now | Gracefully | Convenient
  datatype Plan = Free | Stopping(goal: Goal) | Starting

  datatype Pvt = Pvt(desired: Goal, current: Goal, time: When, calls: nat, incoming: bool, outgoing: bool,
                     mustRemove: bool, plan: Plan, pending: nat, latest: Option<When>, patient: bool, reopened: bool)

  /** `pvt_create` */
  function Created(initial: Goal): Pvt {
    Pvt(initial, Stopped, Now, 0, false, false, false, Free, 0, None, false, false)
  }

  /** `pvt_enabled` */
  predicate Enabled(s: Pvt) {
    s.current.Started? && (s.desired == s.current || s.time.Convenient?)
  }

  predicate Idle(s: Pvt) {
    s.calls == 0 && !s.outgoing && !s.incoming
  }

  /** `pvt_time4restate` */
  predicate TimeToRestate(s: Pvt) {
    s.desired != s.current && (s.time.Now? || Idle(s))
  }

  /** `pvt_try_restate` */
  function Restated(s: Pvt): Pvt {
    if TimeToRestate(s) then s.(time := Now) else s
  }

  /** What `disconnect_dongle` does to this part of the device. */
  function Disconnected(s: Pvt): Pvt {
    var freed := if s.calls > 0 then Restated(s.(calls := 0)) else s;
    freed.(outgoing := false, incoming := false, current := Stopped, pending := 0)
  }

  /** `pvt_start`, up to the search for the ports. */
  function StartTried(s: Pvt): Pvt {
    if !s.current.Started? && s.desired.Started? then s.(plan := Starting) else s.(plan := Free)
  }

  datatype Step =
    | Request(goal: Goal, when: When)
    | NewCall
    | FreeCall
    | MessageCame
    | MessageRead
    | MessageLost
    | Cleared
    | MessageSent
    | MonitorEnds
    | DiscoveryStops
    | DiscoveryResumes
    | DiscoveryStarts
    | StartEnds(success: bool)

  /** When discovery has to see to it that a device is stopped, before anything else. */
  predicate ToStop(s: Pvt) {
    s.plan.Free? && s.time.Now? && s.desired != s.current && !s.desired.Started?
  }

  /** When it starts a device. */
  predicate ToStart(s: Pvt) {
    s.plan.Free? && s.time.Now? && s.desired.Started? && s.current != s.desired
  }

  /** It takes down a device that is up. */
  predicate StopsDevice(s: Pvt) {
    ToStop(s) && s.current.Started?
  }

  /** What lets new work in on a device that is up: wanting it started, or waiting for a convenient time. */
  predicate Opens(s: Pvt, goal: Goal, when: When) {
    goal.Started? || (when.Convenient? && !Idle(s))
  }

  predicate Possible(s: Pvt, step: Step) {
    match step
    case Request(_, _) => true
    case NewCall => Enabled(s)
    case FreeCall => s.calls > 0
    case MessageCame => Enabled(s)
    case MessageRead => s.pending > 0
    case MessageLost => s.pending > 0
    case Cleared => s.current.Started?
    case MessageSent => s.current.Started?
    case MonitorEnds => s.current.Started?
    case DiscoveryStops => ToStop(s)
    case DiscoveryResumes => s.plan.Stopping? && s.current.Stopped?
    case DiscoveryStarts => ToStart(s)
    case StartEnds(_) => s.plan.Starting?
  }

  function Stepped(s: Pvt, step: Step): Pvt
    requires Possible(s, step)
  {
    match step
    // `schedule_restart_event`
    case Request(goal, when) =>
      Restated(s.(desired := goal, time := when, latest := Some(when), reopened := s.reopened || Opens(s, goal, when)))
    case NewCall => s.(calls := s.calls + 1)
    // `cpvt_free`
    case FreeCall =>
      if s.calls == 1 then Restated(s.(calls := 0)) else s.(calls := s.calls - 1)
    // `at_response_cmti`
    case MessageCame => s.(incoming := true, pending := s.pending + 1)
    // `at_response_cmgr`, or an error for it
    case MessageRead => Restated(s.(incoming := false, pending := s.pending - 1))
    // the command could not be written
    case MessageLost => s.(pending := s.pending - 1)
    // an error for a deletion, or a message read by a command of the user
    case Cleared => Restated(s.(incoming := false))
    case MessageSent => Restated(s.(outgoing := false))
    case MonitorEnds => Disconnected(s)
    // `do_discovery`
    case DiscoveryStops => s.(plan := Stopping(s.desired), patient := Patient(s), reopened := false)
    case DiscoveryResumes =>
      (match s.plan.goal
       case Restarted => StartTried(s.(desired := Started))
       case Removed => s.(plan := Free, mustRemove := true)
       case _ => s.(plan := Free))
    case DiscoveryStarts => StartTried(s)
    case StartEnds(success) => s.(plan := Free, current := if success then Started else s.current)
  }

  /** The latest request was to wait for a good time. */
  predicate Patient(s: Pvt) {
    s.latest == Some(Gracefully) || s.latest == Some(Convenient)
  }

  // ---------- graceful stops ----------

  /** A stop is due, and a good time was asked for: then the device has nothing to do. */
  ghost predicate DueIsIdle(s: Pvt) {
    s.current.Started? && s.desired != s.current && s.time.Now? && Patient(s) ==> Idle(s)
  }

  /** While discovery waits for the monitor, the device takes no work, but for a request that opens it. */
  ghost predicate StaysShut(s: Pvt) {
    s.plan.Stopping? && s.current.Started? && !s.reopened ==>
      && !Enabled(s) && !s.desired.Started?
      && (s.patient ==> Idle(s) && s.time.Now?)
  }

  ghost predicate Safe(s: Pvt) {
    && DueIsIdle(s) && StaysShut(s)
    && (s.plan.Stopping? ==> !s.plan.goal.Started?)
    && (s.plan.Starting? ==> s.current.Stopped?)
    && (s.current.Started? || (s.current.Stopped? && s.calls == 0 && s.pending == 0 && Idle(s)))
  }

  lemma RestatedSafe(s: Pvt)
    requires Safe(s)
    ensures Safe(Restated(s))
  {
  }

  lemma RequestSafe(s: Pvt, goal: Goal, when: When)
    requires Safe(s)
    ensures Safe(Stepped(s, Request(goal, when)))
  {
  }

  /** Work comes. */
  lemma MoreWorkSafe(s: Pvt)
    requires Safe(s) && Enabled(s)
    ensures Safe(s.(calls := s.calls + 1)) && Safe(s.(incoming := true, pending := s.pending + 1))
  {
  }

  /** Work is done. */
  lemma LessWorkSafe(s: Pvt, calls: nat, pending: nat)
    requires Safe(s) && calls <= s.calls && pending <= s.pending
    ensures Safe(s.(calls := calls)) && Safe(s.(pending := pending))
    ensures Safe(s.(incoming := false, pending := pending)) && Safe(s.(outgoing := false))
  {
  }

  lemma DisconnectedSafe(s: Pvt)
    requires Safe(s)
    ensures Safe(Disconnected(s))
  {
  }

  lemma DiscoverySafe(s: Pvt, step: Step)
    requires Safe(s) && Possible(s, step)
    requires step.DiscoveryStops? || step.DiscoveryResumes? || step.DiscoveryStarts? || step.StartEnds?
    ensures Safe(Stepped(s, step))
  {
  }

  lemma StepSafe(s: Pvt, step: Step)
    requires Safe(s) && Possible(s, step)
    ensures Safe(Stepped(s, step))
  {
    hide Safe, Restated, Disconnected, StartTried, Enabled;
    match step
    case Request(goal, when) => RequestSafe(s, goal, when);
    case NewCall => MoreWorkSafe(s);
    case MessageCame => MoreWorkSafe(s);
    case FreeCall =>
      LessWorkSafe(s, s.calls - 1, s.pending);
      RestatedSafe(s.(calls := s.calls - 1));
    case MessageRead =>
      LessWorkSafe(s, s.calls, s.pending - 1);
      RestatedSafe(s.(incoming := false, pending := s.pending - 1));
    case MessageLost => LessWorkSafe(s, s.calls, s.pending - 1);
    case Cleared =>
      LessWorkSafe(s, s.calls, s.pending);
      assert s.(incoming := false, pending := s.pending) == s.(incoming := false);
      RestatedSafe(s.(incoming := false));
    case MessageSent =>
      LessWorkSafe(s, s.calls, s.pending);
      RestatedSafe(s.(outgoing := false));
    case MonitorEnds => DisconnectedSafe(s);
    case _ => DiscoverySafe(s, step);
  }

  ghost predicate IsRun(initial: Goal, states: seq<Pvt>, steps: seq<Step>) {
    && |states| == |steps| + 1 && states[0] == Created(initial)
    && forall i :: 0 <= i < |steps| ==> Possible(states[i], steps[i]) && states[i + 1] == Stepped(states[i], steps[i])
  }

  lemma {:induction false} EveryRunSafe(initial: Goal, states: seq<Pvt>, steps: seq<Step>, i: nat)
    requires IsRun(initial, states, steps) && i < |states|
    ensures Safe(states[i])
  {
    hide Safe;
    if i == 0 {
      CreatedSafe(initial);
    } else {
      EveryRunSafe(initial, states, steps, i - 1);
      StepSafe(states[i - 1], steps[i - 1]);
    }
  }

  lemma CreatedSafe(initial: Goal)
    ensures Safe(Created(initial))
  {
  }

  /**
   Asked to stop or restart gracefully or when convenient, discovery decides to stop a device only with no
   call and no message flagged.
   */
  lemma GracefulIsGraceful(initial: Goal, states: seq<Pvt>, steps: seq<Step>, i: nat)
    requires IsRun(initial, states, steps) && i < |steps| && Patient(states[i])
    requires steps[i].DiscoveryStops? && states[i].current.Started?
    ensures Idle(states[i])
  {
    EveryRunSafe(initial, states, steps, i);
    assert Possible(states[i], steps[i]);
  }

  /**
   On a device that is up, a request lets new work in just when it opens the device: a call can come then
   and is lost when the monitor ends.
   */
  lemma RequestInBetween(s: Pvt, goal: Goal, when: When)
    requires s.current.Started?
    ensures var t := Stepped(s, Request(goal, when));
            && (Possible(t, NewCall) <==> Opens(s, goal, when))
            && (Possible(t, MessageCame) <==> Opens(s, goal, when))
            && (Possible(t, NewCall) ==> Possible(Stepped(t, NewCall), MonitorEnds) && !Idle(Stepped(t, NewCall)))
  {
  }

  lemma ReopenedStep(s: Pvt, step: Step)
    requires Possible(s, step)
    ensures Stepped(s, step).reopened
            == (!step.DiscoveryStops? && (s.reopened || (step.Request? && Opens(s, step.goal, step.when))))
    ensures Stepped(s, step).patient == if step.DiscoveryStops? then Patient(s) else s.patient
    ensures Stepped(s, step).mustRemove == (s.mustRemove || (step.DiscoveryResumes? && s.plan == Stopping(Removed)))
  {
    hide Opens, Patient;
    if step.Request? {
      RequestReopens(s, step.goal, step.when);
    } else if step.DiscoveryStops? {
      hide Restated, Disconnected, StartTried;
    } else {
      OtherSteps(s, step);
      hide Stepped;
    }
  }

  lemma RequestReopens(s: Pvt, goal: Goal, when: When)
    ensures var t := Stepped(s, Request(goal, when));
            && t.reopened == (s.reopened || Opens(s, goal, when)) && t.patient == s.patient
            && t.mustRemove == s.mustRemove
  {
    hide Opens, Disconnected, StartTried, Restated;
    RestatedRest(s.(desired := goal, time := when, latest := Some(when),
                    reopened := s.reopened || Opens(s, goal, when)));
  }

  lemma OtherSteps(s: Pvt, step: Step)
    requires Possible(s, step) && !step.Request? && !step.DiscoveryStops?
    ensures Stepped(s, step).reopened == s.reopened && Stepped(s, step).patient == s.patient
    ensures Stepped(s, step).mustRemove == (s.mustRemove || (step.DiscoveryResumes? && s.plan == Stopping(Removed)))
  {
    hide Restated, Disconnected, StartTried, Patient, Opens;
    match step
    case FreeCall => RestatedRest(s.(calls := 0));
    case MessageRead => RestatedRest(s.(incoming := false, pending := s.pending - 1));
    case Cleared => RestatedRest(s.(incoming := false));
    case MessageSent => RestatedRest(s.(outgoing := false));
    case MonitorEnds => DisconnectedRest(s);
    case DiscoveryResumes => StartTriedRest(s.(desired := Started));
    case DiscoveryStarts => StartTriedRest(s);
    case _ =>
  }

  lemma DisconnectedRest(s: Pvt)
    ensures Disconnected(s).reopened == s.reopened && Disconnected(s).patient == s.patient
    ensures Disconnected(s).mustRemove == s.mustRemove
  {
  }

  lemma StartTriedRest(s: Pvt)
    ensures StartTried(s).reopened == s.reopened && StartTried(s).patient == s.patient
    ensures StartTried(s).mustRemove == s.mustRemove
  {
  }

  /** Restating changes the time only. */
  lemma RestatedRest(s: Pvt)
    ensures Restated(s).reopened == s.reopened && Restated(s).patient == s.patient
    ensures Restated(s).mustRemove == s.mustRemove
  {
  }

  /** Since discovery decided to stop it, a device was opened again just when a request did so. */
  lemma {:induction false} OpenedByRequest(initial: Goal, states: seq<Pvt>, steps: seq<Step>, i: nat, j: nat)
    requires IsRun(initial, states, steps) && i < j < |states| && steps[i].DiscoveryStops?
    requires forall k :: i < k < j ==> !steps[k].DiscoveryStops?
    ensures states[j].reopened <==> OpenedBetween(states, steps, i, j)
    ensures states[j].patient == Patient(states[i])
  {
    hide Stepped, Possible, Opens, Patient;
    assert Possible(states[j - 1], steps[j - 1]) && states[j - 1 + 1] == Stepped(states[j - 1], steps[j - 1]);
    ReopenedStep(states[j - 1], steps[j - 1]);
    if i + 1 < j {
      OpenedByRequest(initial, states, steps, i, j - 1);
    }
  }

  /** A request between two steps of a run opened the device. */
  ghost predicate OpenedBetween(states: seq<Pvt>, steps: seq<Step>, i: nat, j: nat)
    requires j < |states| == |steps| + 1
  {
    exists k :: i < k < j && steps[k].Request? && Opens(states[k], steps[k].goal, steps[k].when)
  }

  /** From where discovery decided to stop a device up to step `j` it waits for it to go down. */
  ghost predicate Waits(states: seq<Pvt>, steps: seq<Step>, i: nat, j: nat)
    requires i < j < |steps| < |states|
  {
    && steps[i].DiscoveryStops? && states[i].current.Started?
    && forall k :: i < k <= j ==> states[k].plan.Stopping? && states[k].current.Started?
  }

  lemma WaitingMarks(initial: Goal, states: seq<Pvt>, steps: seq<Step>, i: nat, j: nat)
    requires IsRun(initial, states, steps) && i < j < |steps| && Waits(states, steps, i, j)
    ensures states[j].reopened <==> OpenedBetween(states, steps, i, j)
    ensures states[j].patient == Patient(states[i])
  {
    forall k | i < k < j
      ensures !steps[k].DiscoveryStops?
    {
      assert Possible(states[k], steps[k]);
    }
    OpenedByRequest(initial, states, steps, i, j);
  }

  /** A device that is waited for takes new work only if a request opened it since... */
  lemma WorkOnlyIfOpened(initial: Goal, states: seq<Pvt>, steps: seq<Step>, i: nat, j: nat)
    requires IsRun(initial, states, steps) && i < j < |steps| && Waits(states, steps, i, j)
    requires steps[j].NewCall? || steps[j].MessageCame?
    ensures OpenedBetween(states, steps, i, j)
  {
    WaitingMarks(initial, states, steps, i, j);
    EveryRunSafe(initial, states, steps, j);
    assert Possible(states[j], steps[j]);
  }

  /** ...and if discovery decided at a good time and none did, it has nothing to do when it goes down. */
  lemma GoesDownIdle(initial: Goal, states: seq<Pvt>, steps: seq<Step>, i: nat, j: nat)
    requires IsRun(initial, states, steps) && i < j < |steps| && Waits(states, steps, i, j)
    requires Patient(states[i]) && steps[j].MonitorEnds? && !OpenedBetween(states, steps, i, j)
    ensures Idle(states[j])
  {
    WaitingMarks(initial, states, steps, i, j);
    EveryRunSafe(initial, states, steps, j);
  }

  // ---------- messages ----------

  /** While there are messages on their way, the one flag for all of them says so. */
  ghost predicate Tracked(s: Pvt) {
    s.pending > 0 ==> s.incoming
  }

  /** The flag is cleared while a message is still on its way: another one was read, or none was. */
  predicate Loses(s: Pvt, step: Step) {
    (step.MessageRead? && s.pending > 1) || (step.Cleared? && s.pending > 0)
  }

  /** The flag is set again, or no message is left on its way. */
  predicate Recovers(s: Pvt, step: Step) {
    step.MessageCame? || step.MonitorEnds? || ((step.MessageRead? || step.MessageLost?) && s.pending == 1)
  }

  lemma TrackedStep(s: Pvt, step: Step)
    requires Possible(s, step)
    ensures !Tracked(Stepped(s, step)) <==> Loses(s, step) || (!Tracked(s) && !Recovers(s, step))
  {
    MessagesAfter(s, step);
    hide Stepped, Possible;
  }

  /** What a step does to the messages on their way and to the flag. */
  lemma MessagesAfter(s: Pvt, step: Step)
    requires Possible(s, step)
    ensures var t := Stepped(s, step);
            && (step.MessageCame? ==> t.incoming && t.pending == s.pending + 1)
            && (step.MessageRead? ==> s.pending > 0 && !t.incoming && t.pending == s.pending - 1)
            && (step.MessageLost? ==> s.pending > 0 && t.incoming == s.incoming && t.pending == s.pending - 1)
            && (step.Cleared? ==> !t.incoming && t.pending == s.pending)
            && (step.MonitorEnds? ==> !t.incoming && t.pending == 0)
            && (!step.MessageCame? && !step.MessageRead? && !step.MessageLost? && !step.Cleared? && !step.MonitorEnds?
                ==> t.incoming == s.incoming && t.pending == s.pending)
  {
  }

  ghost predicate LostAt(states: seq<Pvt>, steps: seq<Step>, j: nat, i: nat)
    requires i < |states| == |steps| + 1
  {
    j < i && Loses(states[j], steps[j]) && forall k :: j < k < i ==> !Recovers(states[k], steps[k])
  }

  /** In every run, messages are on their way unflagged iff the flag was lost and nothing made up for it since. */
  lemma {:induction false} UntrackedIff(initial: Goal, states: seq<Pvt>, steps: seq<Step>, i: nat)
    requires IsRun(initial, states, steps) && i < |states|
    ensures !Tracked(states[i]) <==> exists j :: LostAt(states, steps, j, i)
  {
    hide Tracked, Loses, Recovers, Stepped, Possible;
    if i == 0 {
      NothingTracked(initial);
    } else {
      var n := i - 1;
      UntrackedIff(initial, states, steps, n);
      assert Possible(states[n], steps[n]) && states[n + 1] == Stepped(states[n], steps[n]);
      TrackedStep(states[n], steps[n]);
      forall j: nat
        ensures LostAt(states, steps, j, i)
                <==> (j == n && Loses(states[n], steps[n]))
                     || (LostAt(states, steps, j, n) && !Recovers(states[n], steps[n]))
      {
      }
      assert Loses(states[n], steps[n]) ==> LostAt(states, steps, n, i);
    }
  }

  lemma NothingTracked(initial: Goal)
    ensures Tracked(Created(initial))
  {
  }

  /**
   In every run, discovery decides on a graceful stop with messages on their way iff the flag was lost before,
   and since then no message came, the device did not go down, and the last message on its way was not dealt with.
   */
  lemma MessageLostIff(initial: Goal, states: seq<Pvt>, steps: seq<Step>, i: nat)
    requires IsRun(initial, states, steps) && i < |steps| && Patient(states[i])
    requires steps[i].DiscoveryStops? && states[i].current.Started?
    ensures states[i].pending > 0 <==> exists j :: LostAt(states, steps, j, i)
  {
    GracefulIsGraceful(initial, states, steps, i);
    UntrackedIff(initial, states, steps, i);
  }

  /** Messages come one at a time, and the flag is cleared only by what deals with them. */
  predicate OneAtATime(s: Pvt, step: Step) {
    step.MessageCame? || step.Cleared? ==> !s.incoming
  }

  /** There is one message on its way at most, and it is flagged. */
  ghost predicate Flagged(s: Pvt) {
    s.pending <= (if s.incoming then 1 else 0)
  }

  lemma FlaggedStep(s: Pvt, step: Step)
    requires Flagged(s) && Possible(s, step) && OneAtATime(s, step)
    ensures Flagged(Stepped(s, step)) && !Loses(s, step)
  {
    MessagesAfter(s, step);
    hide Stepped, Possible;
  }

  lemma {:induction false} MessagesFlagged(initial: Goal, states: seq<Pvt>, steps: seq<Step>, i: nat)
    requires IsRun(initial, states, steps) && i < |states|
    requires forall j :: 0 <= j < i ==> OneAtATime(states[j], steps[j])
    ensures Flagged(states[i]) && forall j :: 0 <= j < i ==> !Loses(states[j], steps[j])
  {
    hide Flagged, Stepped, Possible, OneAtATime, Loses;
    if i > 0 {
      MessagesFlagged(initial, states, steps, i - 1);
      assert OneAtATime(states[i - 1], steps[i - 1]) && Possible(states[i - 1], steps[i - 1]);
      assert states[i - 1 + 1] == Stepped(states[i - 1], steps[i - 1]);
      FlaggedStep(states[i - 1], steps[i - 1]);
    } else {
      CreatedFlagged(initial);
    }
  }

  lemma CreatedFlagged(initial: Goal)
    ensures Flagged(Created(initial))
  {
  }

  /** So with messages one at a time, a graceful stop finds none on its way. */
  lemma NoMessageLost(initial: Goal, states: seq<Pvt>, steps: seq<Step>, i: nat)
    requires IsRun(initial, states, steps) && i < |steps| && Patient(states[i])
    requires steps[i].DiscoveryStops? && states[i].current.Started?
    requires forall j :: 0 <= j < i ==> OneAtATime(states[j], steps[j])
    ensures states[i].pending == 0
  {
    MessagesFlagged(initial, states, steps, i);
    MessageLostIff(initial, states, steps, i);
  }

  /** The steps by which a graceful restart of an idle device comes after the message just dealt with. */
  function RestartedGracefully(s: Pvt): Pvt {
    Stepped(s, Request(Restarted, Gracefully))
  }

  /**
   An instance: a message comes, a graceful restart is asked for, and a message is read. The flag is lost, and
   the device is stopped with a message unread, just when one was on its way already.
   */
  lemma SecondMessageLost(s: Pvt)
    requires Safe(s) && Flagged(s) && Enabled(s) && s.calls == 0 && !s.outgoing && s.plan.Free?
    ensures var two := RestartedGracefully(Stepped(s, MessageCame));
            && Possible(two, MessageRead) && (Loses(two, MessageRead) <==> s.pending > 0)
            && var one := Stepped(two, MessageRead);
               Patient(one) && StopsDevice(one) && (one.pending > 0 <==> s.pending > 0)
  {
  }

  /** Another: a deletion fails or the user reads a message while one may be on its way. */
  lemma ClearedMessageLost(s: Pvt)
    requires Safe(s) && Flagged(s) && Enabled(s) && s.calls == 0 && !s.outgoing && s.plan.Free?
    ensures var asked := RestartedGracefully(s);
            && Possible(asked, Cleared) && (Loses(asked, Cleared) <==> s.pending > 0)
            && var one := Stepped(asked, Cleared);
               Patient(one) && StopsDevice(one) && (one.pending > 0 <==> s.pending > 0)
  {
  }

  /** A device that is up, with `n` messages on their way. */
  function Up(n: nat): Pvt {
    Created(Started).(current := Started, incoming := n > 0, pending := n)
  }

  /** Then asked to restart gracefully, and after one message was read. */
  function OneRead(): Pvt {
    Up(1).(desired := Restarted, latest := Some(Gracefully), incoming := false)
  }

  lemma ComesUp()
    ensures Possible(Created(Started), DiscoveryStarts)
    ensures var s := Stepped(Created(Started), DiscoveryStarts);
            Possible(s, StartEnds(true)) && Stepped(s, StartEnds(true)) == Up(0)
    ensures forall n: nat :: Possible(Up(n), MessageCame) && Stepped(Up(n), MessageCame) == Up(n + 1)
  {
  }

  lemma ReadOne()
    ensures Possible(Up(2), Request(Restarted, Gracefully))
    ensures var s := RestartedGracefully(Up(2)); Possible(s, MessageRead) && Stepped(s, MessageRead) == OneRead()
    ensures Possible(OneRead(), DiscoveryStops)
  {
  }

  /** A whole run: started, two messages, a graceful restart asked for, one message read, and the device is stopped. */
  lemma LostRun() returns (states: seq<Pvt>, steps: seq<Step>)
    ensures IsRun(Started, states, steps) && |steps| == 7
    ensures steps[6].DiscoveryStops? && states[6].current.Started? && Patient(states[6]) && states[6].pending == 1
  {
    ComesUp();
    ReadOne();
    assert OneRead().current.Started? && Patient(OneRead()) && OneRead().pending == 1;
    hide Possible, Stepped, Up, OneRead, Created, Patient;
    steps := [DiscoveryStarts, StartEnds(true), MessageCame, MessageCame, Request(Restarted, Gracefully),
              MessageRead, DiscoveryStops];
    states := [Created(Started), Stepped(Created(Started), DiscoveryStarts), Up(0), Up(1), Up(2),
               RestartedGracefully(Up(2)), OneRead(), Stepped(OneRead(), DiscoveryStops)];
    assert states[3] == Stepped(states[2], steps[2]) && states[4] == Stepped(states[3], steps[3]);
  }

  // ---------- changes are made ----------

  /** A change is wanted on a device that is up and has nothing to do, but discovery is not to make it. */
  ghost predicate Overlooked(s: Pvt) {
    s.current.Started? && s.desired != s.current && Idle(s) && !s.time.Now?
  }

  /** A start succeeds though a request came in the meantime: to stop the device, but at a good time. */
  ghost predicate Overlooks(s: Pvt, step: Step) {
    step == StartEnds(true) && s.desired.Stopped? && Patient(s)
  }

  /** What is true of a start that is under way, and of a change that is overlooked. */
  ghost predicate StartKnown(s: Pvt) {
    && (s.plan.Starting? ==>
          if s.desired.Started? then true else s.time.Now? <==> !(s.desired.Stopped? && Patient(s)))
    && (Overlooked(s) ==> s.pending == 0 && s.plan.Free?)
  }

  lemma StartStepKnown(s: Pvt, step: Step)
    requires Safe(s) && StartKnown(s) && Possible(s, step)
    requires step.DiscoveryResumes? || step.DiscoveryStarts? || step.StartEnds? || step.DiscoveryStops?
    ensures StartKnown(Stepped(s, step))
    ensures Overlooked(Stepped(s, step)) <==> Overlooks(s, step)
  {
  }

  lemma RequestKnown(s: Pvt, goal: Goal, when: When)
    requires Safe(s) && StartKnown(s)
    ensures StartKnown(Stepped(s, Request(goal, when))) && !Overlooked(Stepped(s, Request(goal, when)))
  {
  }

  lemma WorkKnown(s: Pvt, step: Step)
    requires Safe(s) && StartKnown(s) && Possible(s, step)
    requires !step.DiscoveryResumes? && !step.DiscoveryStarts? && !step.StartEnds? && !step.DiscoveryStops?
    requires !step.Request?
    ensures StartKnown(Stepped(s, step)) && !Overlooked(Stepped(s, step))
  {
  }

  lemma StepKnown(s: Pvt, step: Step)
    requires Safe(s) && StartKnown(s) && Possible(s, step)
    ensures StartKnown(Stepped(s, step))
    ensures Overlooked(Stepped(s, step)) <==> Overlooks(s, step)
  {
    hide Safe, StartKnown, Stepped, Possible, Overlooked;
    if step.DiscoveryResumes? || step.DiscoveryStarts? || step.StartEnds? || step.DiscoveryStops? {
      StartStepKnown(s, step);
    } else if step.Request? {
      RequestKnown(s, step.goal, step.when);
    } else {
      WorkKnown(s, step);
    }
  }

  lemma {:induction false} EveryRunKnown(initial: Goal, states: seq<Pvt>, steps: seq<Step>, i: nat)
    requires IsRun(initial, states, steps) && i < |states|
    ensures StartKnown(states[i])
    ensures Overlooked(states[i]) <==> i > 0 && Overlooks(states[i - 1], steps[i - 1])
  {
    hide StartKnown, Stepped, Possible, Overlooked, Safe, Overlooks;
    if i == 0 {
      CreatedKnown(initial);
    } else {
      EveryRunKnown(initial, states, steps, i - 1);
      EveryRunSafe(initial, states, steps, i - 1);
      assert Possible(states[i - 1], steps[i - 1]) && states[i - 1 + 1] == Stepped(states[i - 1], steps[i - 1]);
      StepKnown(states[i - 1], steps[i - 1]);
    }
  }

  lemma CreatedKnown(initial: Goal)
    ensures StartKnown(Created(initial)) && !Overlooked(Created(initial))
  {
  }

  /**
   In every run, discovery can stop a device that is up and free, and of which something else is wanted,
   as soon as it has nothing to do, but for one case: a start has just succeeded, and in the meantime
   a request came to stop the device at a good time.
   */
  lemma DueWhenIdle(initial: Goal, states: seq<Pvt>, steps: seq<Step>, i: nat)
    requires IsRun(initial, states, steps) && i < |states|
    requires states[i].current.Started? && states[i].desired != Started && Idle(states[i]) && states[i].plan.Free?
    ensures Possible(states[i], DiscoveryStops)
            <==> !(i > 0 && steps[i - 1] == StartEnds(true) && states[i - 1].desired.Stopped? && Patient(states[i - 1]))
  {
    EveryRunKnown(initial, states, steps, i);
    hide Stepped;
  }

  /**
   What comes of the stop, whatever it was for: a restart ends with the device up, a removal with its mark set,
   and a stopped device waits for the next request. A restart makes the device wanted, whatever a request in
   between has asked for.
   */
  lemma CarriedOut(s: Pvt, asked: Pvt)
    requires Safe(s) && StopsDevice(s)
    requires Safe(asked) && asked.plan == Stopping(s.desired) && asked.current.Stopped?
    ensures Possible(s, DiscoveryStops) && Stepped(s, DiscoveryStops).plan == Stopping(s.desired)
    ensures Possible(Stepped(s, DiscoveryStops), MonitorEnds)
    ensures var off := Stepped(Stepped(s, DiscoveryStops), MonitorEnds);
            off.plan == Stopping(s.desired) && off.current.Stopped? && off.desired == s.desired && off.time.Now?
    ensures Possible(asked, DiscoveryResumes)
    ensures var t := Stepped(asked, DiscoveryResumes);
            && (s.desired.Restarted? ==>
                  && t.desired.Started? && t.mustRemove == asked.mustRemove && Possible(t, StartEnds(true))
                  && var up := Stepped(t, StartEnds(true));
                     up.current.Started? && up.desired.Started? && up.plan.Free? && Idle(up))
            && (s.desired.Removed? ==> t.mustRemove && t.plan.Free? && t.desired == asked.desired)
            && (s.desired.Stopped? ==> t.mustRemove == asked.mustRemove && t.plan.Free? && t.desired == asked.desired)
            && (s.desired.Stopped? && asked.desired.Stopped? ==> forall step :: Possible(t, step) <==> step.Request?)
  {
  }

  /** A request that is to be met at once, or finds nothing to do, is: the device is stopped, or started. */
  lemma RequestTakenUp(s: Pvt, goal: Goal, when: When)
    requires Safe(s) && s.plan.Free? && goal != s.current && (when.Now? || Idle(s))
    ensures var t := Stepped(s, Request(goal, when));
            && t.desired == goal && t.current == s.current && t.calls == s.calls && t.incoming == s.incoming
            && (if goal.Started? then Possible(t, DiscoveryStarts) && Stepped(t, DiscoveryStarts).plan.Starting?
                else Possible(t, DiscoveryStops))
  {
  }

  /** The calls there are: what came less what went since the device was up last. */
  ghost function CallsLeft(steps: seq<Step>, i: nat): int
    requires i <= |steps|
  {
    if i == 0 then 0
    else if steps[i - 1].NewCall? then CallsLeft(steps, i - 1) + 1
    else if steps[i - 1].FreeCall? then CallsLeft(steps, i - 1) - 1
    else if steps[i - 1].MonitorEnds? then 0
    else CallsLeft(steps, i - 1)
  }

  lemma CallsAfter(s: Pvt, step: Step)
    requires Possible(s, step)
    ensures Stepped(s, step).calls
            == if step.NewCall? then s.calls + 1 else if step.FreeCall? then s.calls - 1
               else if step.MonitorEnds? then 0 else s.calls
  {
  }

  /** In every run calls are counted right, and a device is marked for removal just when a stop for that was done. */
  lemma {:induction false} CallsCounted(initial: Goal, states: seq<Pvt>, steps: seq<Step>, i: nat)
    requires IsRun(initial, states, steps) && i < |states|
    ensures states[i].calls == CallsLeft(steps, i)
    ensures states[i].mustRemove
            <==> exists j :: 0 <= j < i && steps[j].DiscoveryResumes? && states[j].plan == Stopping(Removed)
  {
    hide Stepped;
    if i > 0 {
      CallsCounted(initial, states, steps, i - 1);
      assert Possible(states[i - 1], steps[i - 1]) && states[i - 1 + 1] == Stepped(states[i - 1], steps[i - 1]);
      CallsAfter(states[i - 1], steps[i - 1]);
      ReopenedStep(states[i - 1], steps[i - 1]);
      hide Possible;
    }
  }

  // ---------- dropping off ----------

  /** A device that is to be up and drops off is started again just when the time set for changes is now... */
  lemma StartedAgain(s: Pvt)
    requires Safe(s) && s.current.Started? && s.desired.Started? && s.plan.Free?
    ensures var off := Stepped(s, MonitorEnds);
            && (Possible(off, DiscoveryStarts) <==> s.time.Now?)
            && (s.time.Now? ==> Stepped(Stepped(off, DiscoveryStarts), StartEnds(true)).current.Started?)
            && (!s.time.Now? ==> forall step :: Possible(off, step) <==> step.Request?)
  {
  }

  /** ...and otherwise, in no run does anything happen to it until the next request. */
  lemma NotStartedAgain(initial: Goal, states: seq<Pvt>, steps: seq<Step>, i: nat)
    requires IsRun(initial, states, steps) && i + 1 < |steps| && steps[i].MonitorEnds?
    requires states[i].desired.Started? && states[i].plan.Free?
    ensures !states[i].time.Now? ==> steps[i + 1].Request?
    ensures steps[i + 1].DiscoveryStarts? ==> states[i].time.Now?
  {
    EveryRunSafe(initial, states, steps, i);
    assert Possible(states[i], steps[i]) && states[i + 1] == Stepped(states[i], steps[i]);
    StartedAgain(states[i]);
    assert Possible(states[i + 1], steps[i + 1]);
  }

  /**
   A device that drops off while a restart or a removal is wanted goes on with it just when that was due, or becomes
   due as its calls are dropped; with a message flagged it does not, and waits for the next request.
   */
  lemma RestartAfterDrop(s: Pvt)
    requires Safe(s) && s.current.Started? && s.plan.Free? && (s.desired.Restarted? || s.desired.Removed?)
    ensures var off := Stepped(s, MonitorEnds);
            var due := s.time.Now? || (s.calls > 0 && !s.incoming && !s.outgoing);
            && (Possible(off, DiscoveryStops) <==> due)
            && (!due ==> forall step :: Possible(off, step) <==> step.Request?)
  {
  }

  /** A request to start a running device later is such a case. */
  lemma StartedLater(s: Pvt, when: When)
    requires Safe(s) && s.current.Started? && s.plan.Free?
    ensures var t := Stepped(s, Request(Started, when));
            Safe(t) && t.desired.Started? && t.plan.Free? && (t.time.Now? <==> when.Now?)
  {
  }

  // ---------- the record itself ----------

  class DevicePvt {
    var desired: Goal
    var current: Goal
    var time: When
    var calls: nat
    var incoming: bool
    var outgoing: bool
    var mustRemove: bool
    var plan: Plan
    ghost var pending: nat
    ghost var latest: Option<When>
    ghost var patient: bool
    ghost var reopened: bool

    ghost function Value(): Pvt
      reads this
    {
      Pvt(desired, current, time, calls, incoming, outgoing, mustRemove, plan, pending, latest, patient, reopened)
    }

    constructor (initial: Goal)
      ensures Value() == Created(initial) && Safe(Value())
    {
      desired, current, time, calls, plan := initial, Stopped, Now, 0, Free;
      incoming, outgoing, mustRemove := false, false, false;
      pending, latest, patient, reopened := 0, None, false, false;
    }

    /** `pvt_try_restate`: a change that is wanted is made now if the device has nothing to do. */
    method TryRestate()
      modifies this`time
      ensures Value() == Restated(old(Value()))
      ensures desired != current && Idle(Value()) ==> time.Now?
      ensures time != old(time) ==> time.Now? && Idle(Value())
    {
      if desired != current {
        if time.Now? || (calls == 0 && !outgoing && !incoming) {
          time := Now;
        }
      }
    }

    /** `schedule_restart_event`: keeps the device safe, and lets work in just when the request opens it. */
    method ScheduleRestart(goal: Goal, when: When)
      modifies this
      ensures Value() == Stepped(old(Value()), Request(goal, when))
      ensures old(Safe(Value())) ==> Safe(Value())
      ensures current.Started? ==> (Enabled(Value()) <==> old(Opens(Value(), goal, when)))
    {
      hide Safe;
      StepSafeAlways(Value(), Request(goal, when));
      latest, reopened := Some(when), reopened || Opens(Value(), goal, when);
      desired, time := goal, when;
      TryRestate();
    }

    /** `disconnect_dongle`: the calls go one after the other, and the last one may make it time to restate. */
    method Disconnect()
      requires current.Started?
      modifies this
      ensures Value() == Stepped(old(Value()), MonitorEnds)
      ensures old(Safe(Value())) ==> Safe(Value())
    {
      hide Safe, Restated;
      StepSafeAlways(Value(), MonitorEnds);
      ghost var was := Value();
      if calls > 0 {
        DropCalls();
      }
      outgoing, incoming, current, pending := false, false, Stopped, 0;
    }

    /** The loop over the calls. */
    method DropCalls()
      requires calls > 0
      modifies this`calls, this`time
      ensures Value() == Restated(old(Value()).(calls := 0))
    {
      hide Restated;
      ghost var was := Value();
      while calls > 1
        invariant 1 <= calls <= was.calls && Value() == was.(calls := calls)
      {
        calls := calls - 1;
      }
      calls := calls - 1;
      TryRestate();
    }

    /** A round of `do_discovery` up to where it lets go of the lock; if patient, it stops an idle device only. */
    method Discover()
      requires plan.Free?
      modifies this`plan, this`patient, this`reopened
      ensures Value() == old(if ToStop(Value()) then Stepped(Value(), DiscoveryStops)
                             else if ToStart(Value()) then Stepped(Value(), DiscoveryStarts)
                             else Value())
      ensures old(Safe(Value())) ==> Safe(Value())
      ensures plan.Stopping? && current.Started? && patient && old(Safe(Value())) ==> Idle(Value())
    {
      hide Safe;
      ghost var was := Value();
      if StopsDevice(was) && Patient(was) {
        DecidedIdle(was);
      }
      if time.Now? && desired != current {
        if desired.Started? {
          StepSafeAlways(was, DiscoveryStarts);
          if !current.Started? {
            plan := Starting;
          }
        } else {
          StepSafeAlways(was, DiscoveryStops);
          plan := Stopping(desired);
          patient, reopened := Patient(was), false;
        }
      }
    }
  }

  lemma DecidedIdle(s: Pvt)
    requires StopsDevice(s) && Patient(s)
    ensures Safe(s) ==> Idle(s)
  {
  }

  lemma StepSafeAlways(s: Pvt, step: Step)
    requires Possible(s, step)
    ensures Safe(s) ==> Safe(Stepped(s, step))
  {
    if Safe(s) {
      StepSafe(s, step);
    }
  }
}
