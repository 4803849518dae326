// What each extension task gets done: all of its groups, unless one of its own steps stops it, and
// none of them unchecked (src/core/extension.ts).
module EngineProgress {
  import opened Common
  import opened ChannelPool
  import opened SharedBudget
  import opened Engine
  import opened EngineSlots

  // ---------------------------------------------------------------- how many groups

  // Submissions of task i that have ended.
  function Submitted(steps: seq<Step>, i: TaskId): nat {
    if steps == [] then 0 else Answers(steps[0], i) + Submitted(steps[1..], i)
  }

  function Answers(s: Step, i: TaskId): nat {
    if s.SubmitDone? && s.i == i then 1 else 0
  }

  // The step ends task i although it has groups left: the cycle does not get that far, the account
  // has too little balance, no key resolves, something throws, the simulation fails, or the pool
  // has no room for the estimate.
  ghost predicate Stops(w: World, s: Step, i: TaskId)
    requires Enabled(w, s)
  {
    !s.Tick? && s.i == i &&
    match s
    case Begin(_, proceed) => !proceed
    case SlotSecretDone(_, o) => o.LowOrUnknownBalance? || o.Crash? || (o.Usable? && o.start.StartThrows?)
    case PolicySecretDone(_, o) => o.None? || o.value.StartThrows?
    case SimulationDone(_, e) =>
      var pc := w.tasks[i].pc;
      e.None? || (pc.pool.Some? &&
        (w.rows[pc.pool.value].cycle != pc.cycle || w.rows[pc.pool.value].spent + e.value > w.rows[pc.pool.value].limit))
    case SubmitDone(_, o, next) => w.tasks[i].pc.left > 1 && (o.Threw? || next.StartThrows?)
    case _ => false
  }

  ghost predicate EverStopped(w: World, steps: seq<Step>, i: TaskId)
    requires CursorInRange(w.pool) && Possible(w, steps)
    decreases |steps|
  {
    steps != [] && (Stops(w, steps[0], i) || EverStopped(Apply(w, steps[0]), steps[1..], i))
  }

  // The groups a task still has to submit.
  function Remaining(t: Task): nat {
    match t.pc
    case Simulating(_, left, _, _) => left
    case Submitting(_, left, _) => left
    case Done => 0
    case Crashed(_) => 0
    case _ => t.groups
  }

  ghost predicate HasGroups(t: Task) {
    t.groups >= 1 && (t.pc.Simulating? || t.pc.Submitting? ==> t.pc.left >= 1)
  }

  // A step of task i: it goes on with one group less for each answer, or is stopped early.
  ghost predicate Proceeds(was: Task, now: Task, answers: nat, stopped: bool) {
    && now.groups == was.groups && HasGroups(now)
    && (if stopped then Finished(now) && answers < Remaining(was) else answers + Remaining(now) == Remaining(was))
  }

  // The others stay where they are, except that one that waits may be handed an account.
  ghost predicate OthersStay(a: seq<Task>, b: seq<Task>, i: TaskId) {
    && |a| == |b|
    && forall j :: 0 <= j < |a| && j != i ==>
         b[j] == a[j] || (a[j].pc.Waiting? && b[j].pc.SlotSecret? && b[j].groups == a[j].groups)
  }

  lemma VacateGoesOn(w: World, i: TaskId, key: Key, pc: Pc)
    requires i < |w.tasks| && SlotInv(w.pool, w.tasks) && Held(w.tasks[i]) == Some(key)
    ensures CursorInRange(w.pool) && OthersStay(w.tasks, Vacate(w, i, key, pc).tasks, i)
    ensures Vacate(w, i, key, pc).tasks[i].pc == pc && Vacate(w, i, key, pc).tasks[i].groups == w.tasks[i].groups
  {
    OnlyWaitersAreWoken(w.pool, w.tasks, i);
    CursorIsInRange(w.pool, w.tasks);
    hide SlotInv, AfterRelease;
  }

  lemma LeaveEnds(w: World, i: TaskId, slot: Option<Key>)
    requires i < |w.tasks| && SlotInv(w.pool, w.tasks) && Held(w.tasks[i]) == slot
    ensures CursorInRange(w.pool) && OthersStay(w.tasks, Leave(w, i, slot).tasks, i)
    ensures Leave(w, i, slot).tasks[i].pc.Done? && Leave(w, i, slot).tasks[i].groups == w.tasks[i].groups
  {
    CursorIsInRange(w.pool, w.tasks);
    hide SlotInv, Vacate;
    if slot.Some? {
      VacateGoesOn(w, i, slot.value, Done);
    }
  }

  lemma GroupStarts(w: World, i: TaskId, slot: Option<Key>, left: nat, s: GroupStart)
    requires i < |w.tasks| && SlotInv(w.pool, w.tasks) && Held(w.tasks[i]) == slot && GroupOk(w, s)
    ensures CursorInRange(w.pool) && OthersStay(w.tasks, StartGroup(w, i, slot, left, s).tasks, i)
    ensures var t := StartGroup(w, i, slot, left, s).tasks[i];
      && t.groups == w.tasks[i].groups
      && if s.StartThrows? then t.pc.Done?
         else if s.shared.Some? || s.check then t.pc.Simulating? && t.pc.left == left && t.pc.pool == s.shared
         else t.pc.Submitting? && t.pc.left == left && t.pc.hold.NoHold?
  {
    LeaveEnds(w, i, slot);
    hide SlotInv, Leave;
  }

  // ---------------------------------------------------------------- one step

  lemma BeginProceeds(w: World, i: TaskId, proceed: bool)
    requires SlotInv(w.pool, w.tasks) && Enabled(w, Begin(i, proceed)) && HasGroups(w.tasks[i])
    ensures CursorInRange(w.pool) && OthersStay(w.tasks, Apply(w, Begin(i, proceed)).tasks, i)
    ensures Proceeds(w.tasks[i], Apply(w, Begin(i, proceed)).tasks[i], 0, !proceed)
  {
    CursorIsInRange(w.pool, w.tasks);
    hide SlotInv, FreeOffset;
  }

  lemma SlotSecretProceeds(w: World, i: TaskId, o: SlotOutcome)
    requires SlotInv(w.pool, w.tasks) && Enabled(w, SlotSecretDone(i, o)) && HasGroups(w.tasks[i])
    ensures CursorInRange(w.pool) && OthersStay(w.tasks, Apply(w, SlotSecretDone(i, o)).tasks, i)
    ensures Proceeds(w.tasks[i], Apply(w, SlotSecretDone(i, o)).tasks[i], 0, Stops(w, SlotSecretDone(i, o), i))
  {
    CursorIsInRange(w.pool, w.tasks);
    hide SlotInv, Vacate, StartGroup;
    match o
    case Missing => VacateGoesOn(w, i, w.tasks[i].pc.key, PolicySecret);
    case LowOrUnknownBalance => VacateGoesOn(w, i, w.tasks[i].pc.key, Done);
    case Usable(start) => GroupStarts(w, i, Some(w.tasks[i].pc.key), w.tasks[i].groups, start);
    case Crash =>
  }

  lemma PolicySecretProceeds(w: World, i: TaskId, o: Option<GroupStart>)
    requires SlotInv(w.pool, w.tasks) && Enabled(w, PolicySecretDone(i, o)) && HasGroups(w.tasks[i])
    ensures CursorInRange(w.pool) && OthersStay(w.tasks, Apply(w, PolicySecretDone(i, o)).tasks, i)
    ensures Proceeds(w.tasks[i], Apply(w, PolicySecretDone(i, o)).tasks[i], 0, Stops(w, PolicySecretDone(i, o), i))
  {
    CursorIsInRange(w.pool, w.tasks);
    hide SlotInv, StartGroup;
    if o.Some? {
      GroupStarts(w, i, None, w.tasks[i].groups, o.value);
    }
  }

  lemma SimulationProceeds(w: World, i: TaskId, e: Option<nat>)
    requires SlotInv(w.pool, w.tasks) && Enabled(w, SimulationDone(i, e)) && HasGroups(w.tasks[i])
    ensures CursorInRange(w.pool) && OthersStay(w.tasks, Apply(w, SimulationDone(i, e)).tasks, i)
    ensures Proceeds(w.tasks[i], Apply(w, SimulationDone(i, e)).tasks[i], 0, Stops(w, SimulationDone(i, e), i))
  {
    LeaveEnds(w, i, w.tasks[i].pc.slot);
    hide SlotInv, Leave;
  }

  lemma SubmitProceeds(w: World, i: TaskId, o: SubmitOutcome, next: GroupStart)
    requires SlotInv(w.pool, w.tasks) && Enabled(w, SubmitDone(i, o, next)) && HasGroups(w.tasks[i])
    ensures CursorInRange(w.pool) && OthersStay(w.tasks, Apply(w, SubmitDone(i, o, next)).tasks, i)
    ensures Proceeds(w.tasks[i], Apply(w, SubmitDone(i, o, next)).tasks[i], 1, Stops(w, SubmitDone(i, o, next), i))
  {
    var pc := w.tasks[i].pc;
    var w1 := Settle(w, pc.hold, o);
    SettleKeepsTasks(w, pc.hold, o);
    LeaveEnds(w1, i, pc.slot);
    hide SlotInv, Leave, StartGroup, Settle;
    if pc.left > 1 {
      GroupStarts(w1, i, pc.slot, pc.left - 1, next);
    }
  }

  lemma StepProceeds(w: World, s: Step)
    requires SlotInv(w.pool, w.tasks) && Enabled(w, s) && !s.Tick? && HasGroups(w.tasks[s.i])
    ensures CursorInRange(w.pool) && OthersStay(w.tasks, Apply(w, s).tasks, s.i)
    ensures Proceeds(w.tasks[s.i], Apply(w, s).tasks[s.i], Answers(s, s.i), Stops(w, s, s.i))
  {
    CursorIsInRange(w.pool, w.tasks);
    match s
    case Begin(i, proceed) => BeginProceeds(w, i, proceed);
    case SlotSecretDone(i, o) => SlotSecretProceeds(w, i, o);
    case PolicySecretDone(i, o) => PolicySecretProceeds(w, i, o);
    case SimulationDone(i, e) => SimulationProceeds(w, i, e);
    case SubmitDone(i, o, next) => SubmitProceeds(w, i, o, next);
    hide SlotInv, Apply;
  }

  // ---------------------------------------------------------------- whole runs

  // From any state: a task that is never stopped submits exactly what it has remaining, by the
  // time it has nothing left; one that is stopped has finished with less.
  lemma {:induction false} SubmissionsBalance(w: World, steps: seq<Step>, i: TaskId)
    requires SlotInv(w.pool, w.tasks) && Possible(w, steps) && i < |w.tasks| && HasEveryGroup(w)
    ensures i < |Exec(w, steps).tasks|
    ensures var t, n := Exec(w, steps).tasks[i], Submitted(steps, i);
      && t.groups == w.tasks[i].groups
      && if EverStopped(w, steps, i) then Finished(t) && n < Remaining(w.tasks[i])
         else n + Remaining(t) == Remaining(w.tasks[i]) && HasGroups(t)
    decreases |steps|
  {
    if steps != [] {
      var s, rest := steps[0], steps[1..];
      CursorIsInRange(w.pool, w.tasks);
      var w' := Apply(w, s);
      SlotInvPreserved(w, s);
      StepOfATask(w, s, i);
      EveryoneHasGroups(w, s);
      if Stops(w, s, i) {
        FinishedStays(w', rest, i);
      }
      SubmissionsBalance(w', rest, i);
      hide SlotInv, Apply, HasEveryGroup, Stops;
    }
  }

  ghost predicate HasEveryGroup(w: World) {
    forall i :: 0 <= i < |w.tasks| ==> HasGroups(w.tasks[i])
  }

  lemma EveryoneHasGroups(w: World, s: Step)
    requires SlotInv(w.pool, w.tasks) && Enabled(w, s) && HasEveryGroup(w)
    ensures CursorInRange(w.pool) && HasEveryGroup(Apply(w, s))
  {
    CursorIsInRange(w.pool, w.tasks);
    hide SlotInv;
    if !s.Tick? {
      StepProceeds(w, s);
      hide Apply;
    }
  }

  lemma StepOfATask(w: World, s: Step, i: TaskId)
    requires SlotInv(w.pool, w.tasks) && Enabled(w, s) && i < |w.tasks| && HasEveryGroup(w)
    ensures CursorInRange(w.pool) && i < |Apply(w, s).tasks|
    ensures Proceeds(w.tasks[i], Apply(w, s).tasks[i], Answers(s, i), Stops(w, s, i))
  {
    CursorIsInRange(w.pool, w.tasks);
    hide SlotInv;
    if !s.Tick? {
      StepProceeds(w, s);
      hide Apply;
    }
  }

  // Nothing happens to a finished task.
  lemma {:induction false} FinishedStays(w: World, steps: seq<Step>, i: TaskId)
    requires SlotInv(w.pool, w.tasks) && Possible(w, steps) && i < |w.tasks| && Finished(w.tasks[i]) && HasEveryGroup(w)
    ensures !EverStopped(w, steps, i) && Submitted(steps, i) == 0
    ensures i < |Exec(w, steps).tasks| && Finished(Exec(w, steps).tasks[i]) && Exec(w, steps).tasks[i] == w.tasks[i]
    decreases |steps|
  {
    if steps != [] {
      CursorIsInRange(w.pool, w.tasks);
      SlotInvPreserved(w, steps[0]);
      EveryoneHasGroups(w, steps[0]);
      FinishedStep(w, steps[0], i);
      hide SlotInv, Apply, HasEveryGroup, Stops, Enabled;
      FinishedStays(Apply(w, steps[0]), steps[1..], i);
    }
  }

  lemma FinishedStep(w: World, s: Step, i: TaskId)
    requires SlotInv(w.pool, w.tasks) && Enabled(w, s) && i < |w.tasks| && Finished(w.tasks[i]) && HasEveryGroup(w)
    ensures CursorInRange(w.pool) && i < |Apply(w, s).tasks| && Apply(w, s).tasks[i] == w.tasks[i]
    ensures !Stops(w, s, i) && Answers(s, i) == 0
  {
    CursorIsInRange(w.pool, w.tasks);
    hide SlotInv;
    if !s.Tick? {
      StepProceeds(w, s);
      hide Apply;
    }
  }

  // Over every run: before its groups a task has submitted none; in between, what it has submitted
  // and what is left make all; once finished, it has submitted all if and only if none of its own
  // steps stopped it.
  lemma AllGroupsAreSubmitted(w: World, steps: seq<Step>, i: TaskId)
    requires AtStart(w) && Possible(w, steps) && i < |w.tasks|
    ensures i < |Exec(w, steps).tasks|
    ensures var t, n, groups := Exec(w, steps).tasks[i], Submitted(steps, i), w.tasks[i].groups;
      && (t.pc.Idle? || t.pc.Waiting? || t.pc.SlotSecret? || t.pc.PolicySecret? ==> n == 0)
      && (t.pc.Simulating? || t.pc.Submitting? ==> n + t.pc.left == groups)
      && (Finished(t) ==> n <= groups && (n == groups <==> !EverStopped(w, steps, i)))
  {
    StartSatisfiesSlotInv(w);
    SubmissionsBalance(w, steps, i);
    hide SlotInv, Submitted, EverStopped, Exec, Possible;
  }

  // ---------------------------------------------------------------- no group unchecked

  // The group that task i is at: how it started, and what its simulation has estimated since.
  datatype Current = Current(start: GroupStart, estimate: Option<nat>)

  function Next(g: Current, s: Step, i: TaskId): Current {
    if s.Tick? || s.i != i then g
    else match s
      case SlotSecretDone(_, o) => if o.Usable? then Current(o.start, None) else g
      case PolicySecretDone(_, o) => if o.Some? then Current(o.value, None) else g
      case SimulationDone(_, e) => g.(estimate := e)
      case SubmitDone(_, _, next) => Current(next, None)
      case _ => g
  }

  function GroupAfter(g: Current, steps: seq<Step>, i: TaskId): Current
    decreases |steps|
  {
    if steps == [] then g else GroupAfter(Next(g, steps[0], i), steps[1..], i)
  }

  // A group of a shared pool, or of a contract with a budget or a fee ceiling, is simulated first;
  // it is submitted with its own estimate reserved in its own pool, any other with nothing.
  ghost predicate Checked(pc: Pc, g: Current) {
    match pc
    case Simulating(_, _, pool, _) =>
      g.start.Start? && (g.start.shared.Some? || g.start.check) && pool == g.start.shared && g.estimate.None?
    case Submitting(_, _, hold) =>
      && g.start.Start? && (g.estimate.Some? <==> g.start.shared.Some? || g.start.check)
      && (match g.start.shared
          case None => hold.NoHold?
          case Some(p) => hold.Hold? && hold.pool == p && hold.reserved == g.estimate.value)
    case _ => true
  }

  lemma SubmitIsChecked(w: World, i: TaskId, o: SubmitOutcome, next: GroupStart)
    requires SlotInv(w.pool, w.tasks) && Enabled(w, SubmitDone(i, o, next))
    ensures CursorInRange(w.pool) && i < |Apply(w, SubmitDone(i, o, next)).tasks|
    ensures Checked(Apply(w, SubmitDone(i, o, next)).tasks[i].pc, Current(next, None))
  {
    var pc := w.tasks[i].pc;
    var w1 := Settle(w, pc.hold, o);
    SettleKeepsTasks(w, pc.hold, o);
    LeaveEnds(w1, i, pc.slot);
    hide SlotInv, Leave, StartGroup, Settle;
    if pc.left > 1 {
      GroupStarts(w1, i, pc.slot, pc.left - 1, next);
    }
  }

  lemma SecretIsChecked(w: World, i: TaskId, o: SlotOutcome, g: Current)
    requires SlotInv(w.pool, w.tasks) && Enabled(w, SlotSecretDone(i, o))
    ensures CursorInRange(w.pool) && i < |Apply(w, SlotSecretDone(i, o)).tasks|
    ensures Checked(Apply(w, SlotSecretDone(i, o)).tasks[i].pc, Next(g, SlotSecretDone(i, o), i))
  {
    CursorIsInRange(w.pool, w.tasks);
    hide SlotInv, Vacate, StartGroup;
    match o
    case Missing => VacateGoesOn(w, i, w.tasks[i].pc.key, PolicySecret);
    case LowOrUnknownBalance => VacateGoesOn(w, i, w.tasks[i].pc.key, Done);
    case Usable(start) => GroupStarts(w, i, Some(w.tasks[i].pc.key), w.tasks[i].groups, start);
    case Crash =>
  }

  lemma StepIsChecked(w: World, s: Step, g: Current)
    requires SlotInv(w.pool, w.tasks) && Enabled(w, s) && !s.Tick? && Checked(w.tasks[s.i].pc, g)
    ensures CursorInRange(w.pool) && s.i < |Apply(w, s).tasks|
    ensures Checked(Apply(w, s).tasks[s.i].pc, Next(g, s, s.i))
  {
    CursorIsInRange(w.pool, w.tasks);
    hide SlotInv, Leave, StartGroup, FreeOffset;
    match s
    case Begin(i, _) =>
    case SlotSecretDone(i, o) =>
      SecretIsChecked(w, i, o, g);
      hide Apply;
    case PolicySecretDone(i, o) =>
      if o.Some? {
        GroupStarts(w, i, None, w.tasks[i].groups, o.value);
      }
    case SimulationDone(i, e) =>
      LeaveEnds(w, i, w.tasks[i].pc.slot);
    case SubmitDone(i, o, next) =>
      SubmitIsChecked(w, i, o, next);
      hide Apply;
  }

  lemma {:induction false} ChecksGoOn(w: World, steps: seq<Step>, i: TaskId, g: Current)
    requires SlotInv(w.pool, w.tasks) && Possible(w, steps) && i < |w.tasks| && Checked(w.tasks[i].pc, g)
    requires HasEveryGroup(w)
    ensures i < |Exec(w, steps).tasks| && Checked(Exec(w, steps).tasks[i].pc, GroupAfter(g, steps, i))
    decreases |steps|
  {
    if steps != [] {
      var s := steps[0];
      CursorIsInRange(w.pool, w.tasks);
      SlotInvPreserved(w, s);
      if s.Tick? {
        assert Apply(w, s).tasks == w.tasks;
      } else if s.i == i {
        StepIsChecked(w, s, g);
      } else {
        StepProceeds(w, s);
      }
      EveryoneHasGroups(w, s);
      hide SlotInv, Apply, Enabled, HasEveryGroup;
      ChecksGoOn(Apply(w, s), steps[1..], i, Next(g, s, i));
    }
  }

  // Over every run, no group is submitted unchecked, or on another's reservation.
  lemma EveryGroupIsChecked(w: World, steps: seq<Step>, i: TaskId)
    requires AtStart(w) && Possible(w, steps) && i < |w.tasks|
    ensures i < |Exec(w, steps).tasks|
    ensures Checked(Exec(w, steps).tasks[i].pc, GroupAfter(Current(StartThrows, None), steps, i))
  {
    StartSatisfiesSlotInv(w);
    ChecksGoOn(w, steps, i, Current(StartThrows, None));
  }
}
