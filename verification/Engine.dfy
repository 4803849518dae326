// One call of runAutoExtensions (src/core/extension.ts): a task per contract under
// Promise.all, sharing the channel pool and the budget pools.
//
// The code between two awaits is one atomic step; steps of different tasks interleave in any
// order. What the outside world answers (RPC, key resolution, the database) is chosen freely.
module Engine {
  import opened Common
  import opened ChannelPool
  import opened SharedBudget

  type TaskId = nat

  // What a task has reserved in a shared pool for the group it is submitting.
  datatype Hold = NoHold | Hold(pool: PoolId, cycle: nat, reserved: nat)

  // Where a task is suspended.
  datatype Pc =
    | Idle
    | Waiting                                  // pool.acquire(), queued
    | SlotSecret(key: Key)                     // resolving the channel account's key
    | PolicySecret                             // resolving the policy's key
    | Simulating(slot: Option<Key>, left: nat, pool: Option<PoolId>, cycle: nat)
    | Submitting(slot: Option<Key>, left: nat, hold: Hold)
    | Done
    | Crashed(key: Key)                        // threw after acquire() and before the try

  // groups: how many target groups are submitted; acquired, released: its pool calls so far.
  datatype Task = Task(pc: Pc, groups: nat, acquired: nat, released: nat)

  // How each submission on a shared pool ended, for the books.
  datatype Event = Ended(pool: PoolId, cycle: nat, reserved: nat, outcome: SubmitOutcome)

  datatype World = World(
    now: nat,
    pool: Pool,
    rows: map<PoolId, Row>,
    tasks: seq<Task>,
    log: seq<Event>)

  // The start of one group: rolls the contract's shared pool over, and decides whether the
  // group is simulated first (shared pool, own budget or fee ceiling present).
  datatype GroupStart = Start(shared: Option<PoolId>, check: bool) | StartThrows

  datatype SlotOutcome = Missing | LowOrUnknownBalance | Usable(start: GroupStart) | Crash

  datatype Step =
    | Tick(cycle: nat)
    | Begin(i: TaskId, proceed: bool)
    | SlotSecretDone(i: TaskId, slotOutcome: SlotOutcome)
    | PolicySecretDone(i: TaskId, policyStart: Option<GroupStart>)
    | SimulationDone(i: TaskId, estimate: Option<nat>)
    | SubmitDone(i: TaskId, outcome: SubmitOutcome, next: GroupStart)

  function Held(t: Task): Option<Key> {
    match t.pc
    case SlotSecret(k) => Some(k)
    case Simulating(s, _, _, _) => s
    case Submitting(s, _, _) => s
    case Crashed(k) => Some(k)
    case _ => None
  }

  predicate Finished(t: Task) {
    t.pc.Done? || t.pc.Crashed?
  }

  // ---------------------------------------------------------------- steps

  function SetPc(tasks: seq<Task>, i: TaskId, pc: Pc): (r: seq<Task>)
    requires i < |tasks|
    ensures |r| == |tasks|
  {
    tasks[i := tasks[i].(pc := pc)]
  }

  function Wake(tasks: seq<Task>, g: Option<Grant>): (r: seq<Task>)
    ensures |r| == |tasks|
  {
    if g.Some? && g.value.ticket < |tasks| then
      var t := tasks[g.value.ticket];
      tasks[g.value.ticket := t.(pc := SlotSecret(g.value.key), acquired := t.acquired + 1)]
    else tasks
  }

  // pool.release(key) by task i, which goes on at pc.
  function Vacate(w: World, i: TaskId, key: Key, pc: Pc): (r: World)
    requires i < |w.tasks| && CursorInRange(w.pool)
    ensures CursorInRange(r.pool)
  {
    var (p, g) := AfterRelease(w.pool, key);
    var t := w.tasks[i].(pc := pc, released := w.tasks[i].released + 1);
    w.(pool := p, tasks := Wake(w.tasks[i := t], g))
  }

  // The finally block, then the end.
  function Leave(w: World, i: TaskId, slot: Option<Key>): (r: World)
    requires i < |w.tasks| && CursorInRange(w.pool)
    ensures CursorInRange(r.pool)
  {
    if slot.Some? then Vacate(w, i, slot.value, Done)
    else w.(tasks := SetPc(w.tasks, i, Done))
  }

  function StartGroup(w: World, i: TaskId, slot: Option<Key>, left: nat, s: GroupStart): (r: World)
    requires i < |w.tasks| && CursorInRange(w.pool)
    ensures CursorInRange(r.pool)
    requires s.Start? && s.shared.Some? ==> s.shared.value in w.rows
  {
    match s
    case StartThrows => Leave(w, i, slot)
    case Start(shared, check) =>
      var rows := if shared.Some?
        then w.rows[shared.value := RollOver(w.rows[shared.value], w.now)] else w.rows;
      var pc := if shared.Some? || check
        then Simulating(slot, left, shared, w.now) else Submitting(slot, left, NoHold);
      w.(rows := rows, tasks := SetPc(w.tasks, i, pc))
  }

  // The budget effect of a submission's outcome.
  function Settle(w: World, h: Hold, o: SubmitOutcome): World
    requires h.Hold? ==> h.pool in w.rows
  {
    if h.NoHold? then w
    else
      var r := w.rows[h.pool];
      var r' :=
        if h.reserved == 0 then r
        else match o
          case Charged(reported, paid) => Add(r, h.cycle, (if reported then paid else h.reserved) - h.reserved)
          case Refused(_) => Refund(r, h.cycle, h.reserved)
          case Threw(_) => r;
      w.(rows := w.rows[h.pool := r'], log := w.log + [Ended(h.pool, h.cycle, h.reserved, o)])
  }

  ghost predicate GroupOk(w: World, s: GroupStart) {
    s.Start? && s.shared.Some? ==> s.shared.value in w.rows
  }

  ghost predicate Enabled(w: World, s: Step) {
    match s
    case Tick(c) => c >= w.now
    case Begin(i, _) => i < |w.tasks| && w.tasks[i].pc.Idle?
    case SlotSecretDone(i, o) =>
      i < |w.tasks| && w.tasks[i].pc.SlotSecret? && (o.Usable? ==> GroupOk(w, o.start))
    case PolicySecretDone(i, o) =>
      i < |w.tasks| && w.tasks[i].pc.PolicySecret? && (o.Some? ==> GroupOk(w, o.value))
    case SimulationDone(i, _) =>
      i < |w.tasks| && w.tasks[i].pc.Simulating?
      && (w.tasks[i].pc.pool.Some? ==> w.tasks[i].pc.pool.value in w.rows)
    case SubmitDone(i, _, next) =>
      i < |w.tasks| && w.tasks[i].pc.Submitting? && GroupOk(w, next)
      && (w.tasks[i].pc.hold.Hold? ==> w.tasks[i].pc.hold.pool in w.rows)
  }

  ghost function Apply(w: World, s: Step): (r: World)
    requires CursorInRange(w.pool) && Enabled(w, s)
    ensures CursorInRange(r.pool)
  {
    match s
    case Tick(c) => w.(now := c)
    case Begin(i, proceed) =>
      if !proceed then w.(tasks := SetPc(w.tasks, i, Done))
      else if w.pool.keys == [] then w.(tasks := SetPc(w.tasks, i, PolicySecret))
      else
        var (p, g) := AfterAcquire(w.pool, i);
        w.(pool := p, tasks := if g.Some? then Wake(w.tasks, g) else SetPc(w.tasks, i, Waiting))
    case SlotSecretDone(i, o) =>
      var t := w.tasks[i];
      (match o
       case Missing => Vacate(w, i, t.pc.key, PolicySecret)
       case LowOrUnknownBalance => Vacate(w, i, t.pc.key, Done)
       case Usable(start) => StartGroup(w, i, Some(t.pc.key), t.groups, start)
       case Crash => w.(tasks := SetPc(w.tasks, i, Crashed(t.pc.key))))
    case PolicySecretDone(i, o) =>
      if o.None? then w.(tasks := SetPc(w.tasks, i, Done))
      else StartGroup(w, i, None, w.tasks[i].groups, o.value)
    case SimulationDone(i, estimate) =>
      var pc := w.tasks[i].pc;
      if estimate.None? then Leave(w, i, pc.slot)
      else if pc.pool.None? then w.(tasks := SetPc(w.tasks, i, Submitting(pc.slot, pc.left, NoHold)))
      else
        var p, e := pc.pool.value, estimate.value;
        if CanReserve(w.rows[p], pc.cycle, e) then
          w.(rows := w.rows[p := Add(w.rows[p], pc.cycle, e)],
             tasks := SetPc(w.tasks, i, Submitting(pc.slot, pc.left, Hold(p, pc.cycle, e))))
        else Leave(w, i, pc.slot)
    case SubmitDone(i, outcome, next) =>
      var pc := w.tasks[i].pc;
      var w1 := Settle(w, pc.hold, outcome);
      if !outcome.Threw? && pc.left > 1 then StartGroup(w1, i, pc.slot, pc.left - 1, next)
      else Leave(w1, i, pc.slot)
  }

  // ---------------------------------------------------------------- what a step touches

  // Only task i and a task woken by the account it gives back change; nobody crashes here.
  ghost predicate Touches(a: seq<Task>, b: seq<Task>, i: TaskId, gaveBack: bool) {
    && i < |a| == |b|
    && (b[i].pc.Crashed? ==> a[i].pc.Crashed?)
    && forall j :: 0 <= j < |a| && j != i ==> b[j] == a[j] || (gaveBack && b[j].pc.SlotSecret?)
  }

  lemma VacateTouches(w: World, i: TaskId, key: Key, pc: Pc)
    requires i < |w.tasks| && CursorInRange(w.pool) && !pc.Crashed?
    ensures Touches(w.tasks, Vacate(w, i, key, pc).tasks, i, true)
  {
  }

  lemma LeaveTouches(w: World, i: TaskId, slot: Option<Key>)
    requires i < |w.tasks| && CursorInRange(w.pool)
    ensures Touches(w.tasks, Leave(w, i, slot).tasks, i, slot.Some?)
  {
  }

  lemma StartGroupTouches(w: World, i: TaskId, slot: Option<Key>, left: nat, s: GroupStart)
    requires i < |w.tasks| && CursorInRange(w.pool) && GroupOk(w, s)
    ensures Touches(w.tasks, StartGroup(w, i, slot, left, s).tasks, i, slot.Some?)
  {
  }

  lemma StepTouches(w: World, s: Step)
    requires CursorInRange(w.pool) && Enabled(w, s) && !s.Tick?
    requires s.SlotSecretDone? ==> !s.slotOutcome.Crash?
    ensures Touches(w.tasks, Apply(w, s).tasks, s.i, Held(w.tasks[s.i]).Some?)
  {
    match s
    case Begin(i, _) =>
      hide FreeOffset;
    case SlotSecretDone(i, o) =>
      if o.Usable? {
        StartGroupTouches(w, i, Held(w.tasks[i]), w.tasks[i].groups, o.start);
      } else {
        VacateTouches(w, i, w.tasks[i].pc.key, if o.Missing? then PolicySecret else Done);
      }
    case PolicySecretDone(i, o) =>
      if o.Some? {
        StartGroupTouches(w, i, None, w.tasks[i].groups, o.value);
      }
    case SimulationDone(i, _) =>
      LeaveTouches(w, i, w.tasks[i].pc.slot);
    case SubmitDone(i, o, next) =>
      SubmitDoneTouches(w, i, o, next);
  }

  lemma SettleKeepsTasks(w: World, h: Hold, o: SubmitOutcome)
    requires h.Hold? ==> h.pool in w.rows
    ensures Settle(w, h, o).tasks == w.tasks && Settle(w, h, o).pool == w.pool && Settle(w, h, o).rows.Keys == w.rows.Keys
  {
  }

  lemma SubmitDoneTouches(w: World, i: TaskId, o: SubmitOutcome, next: GroupStart)
    requires CursorInRange(w.pool) && Enabled(w, SubmitDone(i, o, next))
    ensures Touches(w.tasks, Apply(w, SubmitDone(i, o, next)).tasks, i, Held(w.tasks[i]).Some?)
  {
    var pc := w.tasks[i].pc;
    var w1 := Settle(w, pc.hold, o);
    assert w1.tasks == w.tasks && w1.rows.Keys == w.rows.Keys;
    LeaveTouches(w1, i, pc.slot);
    if pc.left > 1 {
      StartGroupTouches(w1, i, pc.slot, pc.left - 1, next);
    }
  }

  // ---------------------------------------------------------------- runs

  ghost predicate Possible(w: World, steps: seq<Step>)
    requires CursorInRange(w.pool)
    decreases |steps|
  {
    steps == [] || (Enabled(w, steps[0]) && Possible(Apply(w, steps[0]), steps[1..]))
  }

  ghost function Exec(w: World, steps: seq<Step>): (r: World)
    requires CursorInRange(w.pool) && Possible(w, steps)
    ensures CursorInRange(r.pool)
    decreases |steps|
  {
    if steps == [] then w else Exec(Apply(w, steps[0]), steps[1..])
  }

  // The state Promise.all starts from: a fresh pool object, no task begun.
  ghost predicate AtStart(w: World) {
    && w.pool == Fresh(w.pool.keys) && Distinct(w.pool.keys)
    && (forall i :: 0 <= i < |w.tasks| ==>
          w.tasks[i].pc.Idle? && w.tasks[i].groups >= 1 && w.tasks[i].acquired == w.tasks[i].released == 0)
  }
}
