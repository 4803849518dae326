// Channel accounts under concurrent extension tasks: exclusive use, no deadlock, and every
// account given back.
module EngineSlots {
  import opened Common
  import opened ChannelPool
  import opened SharedBudget
  import opened Engine

  ghost predicate HeldBySome(tasks: seq<Task>, k: Key) {
    exists i :: 0 <= i < |tasks| && Held(tasks[i]) == Some(k)
  }

  // One task's own pool calls: at most one acquire, given back unless still held.
  ghost predicate Balanced(t: Task) {
    && t.groups >= 1
    && t.acquired <= 1
    && t.acquired == t.released + (if Held(t).Some? then 1 else 0)
    && (t.pc.Idle? || t.pc.Waiting? ==> t.acquired == 0)
  }

  ghost predicate SlotInv(p: Pool, tasks: seq<Task>) {
    && Valid(p)
    && Distinct(p.waiters)
    && (p.waiters != [] ==> p.keys != [])
    && (forall t :: t in p.waiters ==> t < |tasks| && tasks[t].pc.Waiting?)
    && (forall i :: 0 <= i < |tasks| && tasks[i].pc.Waiting? ==> i in p.waiters)
    && (forall i :: 0 <= i < |tasks| && Held(tasks[i]).Some? ==> Held(tasks[i]).value in p.inUse)
    && (forall i, j :: 0 <= i < j < |tasks| && Held(tasks[i]).Some? ==> Held(tasks[i]) != Held(tasks[j]))
    && (forall k :: k in p.inUse ==> HeldBySome(tasks, k))
    && (forall i :: 0 <= i < |tasks| ==> Balanced(tasks[i]))
  }

  lemma CursorIsInRange(p: Pool, tasks: seq<Task>)
    requires SlotInv(p, tasks)
    ensures CursorInRange(p)
  {
  }

  // What a task holds is still held by it when it moves on with it.
  lemma StillHeld(tasks: seq<Task>, i: TaskId, t: Task, k: Key)
    requires HeldBySome(tasks, k) && i < |tasks| && Held(t) == Held(tasks[i])
    ensures HeldBySome(tasks[i := t], k)
  {
    var j :| 0 <= j < |tasks| && Held(tasks[j]) == Some(k);
    assert Held(tasks[i := t][j]) == Some(k);
  }

  // A task that keeps its account (or its lack of one) and does not start or stop waiting.
  lemma QuietStep(p: Pool, tasks: seq<Task>, i: TaskId, pc: Pc)
    requires SlotInv(p, tasks) && i < |tasks| && !pc.Waiting? && !pc.Idle? && !tasks[i].pc.Waiting?
    requires Held(tasks[i].(pc := pc)) == Held(tasks[i])
    ensures SlotInv(p, SetPc(tasks, i, pc))
  {
    var after := SetPc(tasks, i, pc);
    forall k | k in p.inUse ensures HeldBySome(after, k) {
      StillHeld(tasks, i, tasks[i].(pc := pc), k);
    }
    assert forall j :: 0 <= j < |tasks| ==> Held(after[j]) == Held(tasks[j]);
    hide Held, HeldBySome;
  }

  // A task that was granted an account, at once or by being woken.
  lemma GrantedStep(p: Pool, tasks: seq<Task>, g: Grant)
    requires CursorInRange(p) && Distinct(p.keys) && Distinct(p.waiters)
    requires forall k :: k in p.inUse ==> k in p.keys
    requires p.waiters != [] ==> AllInUse(p) && p.keys != []
    requires g.ticket < |tasks| && g.ticket !in p.waiters && Balanced(tasks[g.ticket])
    requires tasks[g.ticket].pc.Idle? || tasks[g.ticket].pc.Waiting?
    requires forall t :: t in p.waiters ==> t < |tasks| && tasks[t].pc.Waiting?
    requires forall i :: 0 <= i < |tasks| && i != g.ticket && tasks[i].pc.Waiting? ==> i in p.waiters
    requires forall i :: 0 <= i < |tasks| && Held(tasks[i]).Some? ==>
      Held(tasks[i]).value in p.inUse && Held(tasks[i]).value != g.key
    requires forall i, j :: 0 <= i < j < |tasks| && Held(tasks[i]).Some? ==> Held(tasks[i]) != Held(tasks[j])
    requires g.key in p.inUse
    requires forall k :: k in p.inUse && k != g.key ==> HeldBySome(tasks, k)
    requires forall i :: 0 <= i < |tasks| ==> Balanced(tasks[i])
    ensures SlotInv(p, Wake(tasks, Some(g)))
  {
    var after := Wake(tasks, Some(g));
    forall k | k in p.inUse ensures HeldBySome(after, k) {
      if k == g.key {
        assert Held(after[g.ticket]) == Some(k);
      } else {
        var j :| 0 <= j < |tasks| && Held(tasks[j]) == Some(k);
        assert Held(after[j]) == Some(k);
      }
    }
  }

  lemma AcquireStep(p: Pool, tasks: seq<Task>, i: TaskId)
    requires SlotInv(p, tasks) && i < |tasks| && tasks[i].pc.Idle? && p.keys != []
    ensures var (q, g) := AfterAcquire(p, i);
      SlotInv(q, if g.Some? then Wake(tasks, g) else SetPc(tasks, i, Waiting))
  {
    StepKeepsValid(p, AcquireCall(i));
    ScanIsComplete(p);
    var (q, g) := AfterAcquire(p, i);
    if g.Some? {
      GrantedStep(q, tasks, g.value);
    } else {
      QueuedStep(p, tasks, i);
      assert q == p.(waiters := p.waiters + [i]);
    }
  }

  // A task that joins the queue of a pool with no account left.
  lemma QueuedStep(p: Pool, tasks: seq<Task>, i: TaskId)
    requires SlotInv(p, tasks) && i < |tasks| && tasks[i].pc.Idle? && p.keys != [] && AllInUse(p)
    ensures SlotInv(p.(waiters := p.waiters + [i]), SetPc(tasks, i, Waiting))
  {
    var after := SetPc(tasks, i, Waiting);
    forall k | k in p.inUse ensures HeldBySome(after, k) {
      StillHeld(tasks, i, tasks[i].(pc := Waiting), k);
    }
    assert forall j :: 0 <= j < |tasks| ==> Held(after[j]) == Held(tasks[j]);
    hide Held, HeldBySome;
  }

  // Task i after giving its account back; everybody else as before.
  function GaveBack(tasks: seq<Task>, i: TaskId, pc: Pc): (r: seq<Task>)
    requires i < |tasks|
    ensures |r| == |tasks|
  {
    tasks[i := tasks[i].(pc := pc, released := tasks[i].released + 1)]
  }

  lemma OthersHoldTheRest(p: Pool, tasks: seq<Task>, i: TaskId, pc: Pc)
    requires SlotInv(p, tasks) && i < |tasks| && Held(tasks[i]).Some? && (pc.Done? || pc.PolicySecret?)
    ensures forall j :: 0 <= j < |tasks| && Held(GaveBack(tasks, i, pc)[j]).Some? ==>
      Held(GaveBack(tasks, i, pc)[j]).value in p.inUse
      && Held(GaveBack(tasks, i, pc)[j]).value != Held(tasks[i]).value
    ensures forall k :: k in p.inUse && k != Held(tasks[i]).value ==> HeldBySome(GaveBack(tasks, i, pc), k)
  {
    var mid := GaveBack(tasks, i, pc);
    forall j | 0 <= j < |tasks| && Held(mid[j]).Some?
      ensures Held(mid[j]).value in p.inUse && Held(mid[j]).value != Held(tasks[i]).value
    {
      assert j != i && mid[j] == tasks[j];
      if j < i {
        assert Held(tasks[j]) != Held(tasks[i]);
      } else {
        assert Held(tasks[i]) != Held(tasks[j]);
      }
    }
    forall k | k in p.inUse && k != Held(tasks[i]).value ensures HeldBySome(mid, k) {
      var j :| 0 <= j < |tasks| && Held(tasks[j]) == Some(k);
      assert Held(mid[j]) == Some(k);
    }
  }

  lemma VacateUnwatched(p: Pool, tasks: seq<Task>, i: TaskId, pc: Pc)
    requires SlotInv(p, tasks) && i < |tasks| && Held(tasks[i]).Some? && (pc.Done? || pc.PolicySecret?)
    requires p.waiters == []
    ensures AfterRelease(p, Held(tasks[i]).value).1 == None
    ensures SlotInv(AfterRelease(p, Held(tasks[i]).value).0, GaveBack(tasks, i, pc))
  {
    OthersHoldTheRest(p, tasks, i, pc);
    assert AfterRelease(p, Held(tasks[i]).value) == (p.(inUse := p.inUse - {Held(tasks[i]).value}), None);
    hide AfterRelease;
  }

  lemma StillQueued(waiters: seq<Ticket>, t: Ticket)
    requires t in waiters && t != waiters[0]
    ensures t in waiters[1..]
  {
  }

  // The pool after a release that somebody was waiting for.
  lemma ReleaseToFirst(p: Pool, tasks: seq<Task>, key: Key, i: TaskId)
    requires SlotInv(p, tasks) && key in p.inUse && p.waiters != []
    ensures var (q, g) := AfterRelease(p, key);
      && g == Some(Grant(p.waiters[0], key)) && q.waiters == p.waiters[1..] && q.inUse == p.inUse
      && Valid(q) && q.keys == p.keys && Distinct(q.waiters) && p.waiters[0] !in q.waiters && p.waiters[0] in p.waiters
      && forall t :: t in q.waiters ==> t in p.waiters
  {
    StepKeepsValid(p, ReleaseCall(i, key));
    ReleaseHandsOver(p, key);
  }

  lemma VacateHandsOver(p: Pool, tasks: seq<Task>, i: TaskId, pc: Pc)
    requires SlotInv(p, tasks) && i < |tasks| && Held(tasks[i]).Some? && (pc.Done? || pc.PolicySecret?)
    requires p.waiters != []
    ensures var (q, g) := AfterRelease(p, Held(tasks[i]).value);
      g.Some? && SlotInv(q, Wake(GaveBack(tasks, i, pc), g))
  {
    var key, mid := Held(tasks[i]).value, GaveBack(tasks, i, pc);
    var (q, g) := AfterRelease(p, key);
    assert key in p.inUse;
    ReleaseToFirst(p, tasks, key, i);
    OthersHoldTheRest(p, tasks, i, pc);
    OthersKeepWaiting(p, tasks, i, pc);
    hide AfterRelease, SlotInv, Held, Balanced, HeldBySome;
    GrantedStep(q, mid, g.value);
  }

  // What giving an account back leaves of the queue, the balances and the other holders.
  lemma OthersKeepWaiting(p: Pool, tasks: seq<Task>, i: TaskId, pc: Pc)
    requires SlotInv(p, tasks) && i < |tasks| && Held(tasks[i]).Some? && (pc.Done? || pc.PolicySecret?)
    requires p.waiters != []
    ensures var mid := GaveBack(tasks, i, pc);
      && (forall t :: t in p.waiters ==> t < |mid| && mid[t].pc.Waiting?)
      && (forall j :: 0 <= j < |mid| && j != p.waiters[0] && mid[j].pc.Waiting? ==> j in p.waiters[1..])
      && (forall j, k :: 0 <= j < k < |mid| && Held(mid[j]).Some? ==> Held(mid[j]) != Held(mid[k]))
      && (forall j :: 0 <= j < |mid| ==> Balanced(mid[j]))
  {
    var mid := GaveBack(tasks, i, pc);
    forall j | 0 <= j < |mid| && j != p.waiters[0] && mid[j].pc.Waiting? ensures j in p.waiters[1..] {
      assert tasks[j].pc.Waiting? && j in p.waiters;
      StillQueued(p.waiters, j);
    }
  }

  lemma VacateStep(w: World, i: TaskId, pc: Pc)
    requires SlotInv(w.pool, w.tasks) && i < |w.tasks|
    requires Held(w.tasks[i]).Some? && (pc.Done? || pc.PolicySecret?)
    ensures SlotInv(Vacate(w, i, Held(w.tasks[i]).value, pc).pool, Vacate(w, i, Held(w.tasks[i]).value, pc).tasks)
  {
    hide SlotInv, AfterRelease;
    if w.pool.waiters == [] {
      VacateUnwatched(w.pool, w.tasks, i, pc);
    } else {
      VacateHandsOver(w.pool, w.tasks, i, pc);
    }
  }

  lemma LeaveStep(w: World, i: TaskId, slot: Option<Key>)
    requires SlotInv(w.pool, w.tasks) && i < |w.tasks| && Held(w.tasks[i]) == slot
    requires !w.tasks[i].pc.Waiting?
    ensures SlotInv(Leave(w, i, slot).pool, Leave(w, i, slot).tasks)
  {
    if slot.Some? {
      VacateStep(w, i, Done);
    } else {
      QuietStep(w.pool, w.tasks, i, Done);
    }
  }

  lemma StartGroupStep(w: World, i: TaskId, slot: Option<Key>, left: nat, s: GroupStart)
    requires SlotInv(w.pool, w.tasks) && i < |w.tasks| && Held(w.tasks[i]) == slot
    requires !w.tasks[i].pc.Waiting? && GroupOk(w, s)
    ensures SlotInv(StartGroup(w, i, slot, left, s).pool, StartGroup(w, i, slot, left, s).tasks)
  {
    if s.StartThrows? {
      LeaveStep(w, i, slot);
    } else {
      QuietStep(w.pool, w.tasks, i, StartGroup(w, i, slot, left, s).tasks[i].pc);
    }
  }

  lemma SlotInvPreserved(w: World, s: Step)
    requires SlotInv(w.pool, w.tasks) && Enabled(w, s)
    ensures SlotInv(Apply(w, s).pool, Apply(w, s).tasks)
    ensures |Apply(w, s).tasks| == |w.tasks| && Apply(w, s).pool.keys == w.pool.keys
  {
    hide SlotInv, AfterRelease, AfterAcquire;
    match s
    case Tick(_) =>
    case Begin(i, proceed) =>
      if !proceed {
        QuietStep(w.pool, w.tasks, i, Done);
      } else if w.pool.keys == [] {
        QuietStep(w.pool, w.tasks, i, PolicySecret);
      } else {
        AcquireStep(w.pool, w.tasks, i);
      }
    case SlotSecretDone(i, o) =>
      match o {
        case Missing => VacateStep(w, i, PolicySecret);
        case LowOrUnknownBalance => VacateStep(w, i, Done);
        case Usable(start) => StartGroupStep(w, i, Held(w.tasks[i]), w.tasks[i].groups, start);
        case Crash => QuietStep(w.pool, w.tasks, i, Crashed(w.tasks[i].pc.key));
      }
    case PolicySecretDone(i, o) =>
      if o.None? {
        QuietStep(w.pool, w.tasks, i, Done);
      } else {
        StartGroupStep(w, i, None, w.tasks[i].groups, o.value);
      }
    case SimulationDone(i, estimate) =>
      var pc := w.tasks[i].pc;
      LeaveStep(w, i, pc.slot);
      QuietStep(w.pool, w.tasks, i, Submitting(pc.slot, pc.left, NoHold));
      if estimate.Some? && pc.pool.Some? {
        QuietStep(w.pool, w.tasks, i, Submitting(pc.slot, pc.left, Hold(pc.pool.value, pc.cycle, estimate.value)));
      }
    case SubmitDone(i, outcome, next) =>
      var pc := w.tasks[i].pc;
      var w1 := Settle(w, pc.hold, outcome);
      if !outcome.Threw? && pc.left > 1 {
        StartGroupStep(w1, i, pc.slot, pc.left - 1, next);
      } else {
        LeaveStep(w1, i, pc.slot);
      }
  }

  // ---------------------------------------------------------------- every reachable state

  lemma {:induction false} SlotInvAlways(w: World, steps: seq<Step>)
    requires SlotInv(w.pool, w.tasks) && Possible(w, steps)
    ensures SlotInv(Exec(w, steps).pool, Exec(w, steps).tasks)
    ensures |Exec(w, steps).tasks| == |w.tasks| && Exec(w, steps).pool.keys == w.pool.keys
    decreases |steps|
  {
    if steps != [] {
      SlotInvPreserved(w, steps[0]);
      SlotInvAlways(Apply(w, steps[0]), steps[1..]);
    }
  }

  lemma StartSatisfiesSlotInv(w: World)
    requires AtStart(w)
    ensures SlotInv(w.pool, w.tasks)
  {
  }

  // No two tasks ever use the same channel account.
  lemma ExclusiveAccounts(w: World, steps: seq<Step>, i: TaskId, j: TaskId)
    requires AtStart(w) && Possible(w, steps) && i != j
    requires i < |w.tasks| && j < |w.tasks|
    ensures |Exec(w, steps).tasks| == |w.tasks|
    ensures var a, b := Held(Exec(w, steps).tasks[i]), Held(Exec(w, steps).tasks[j]);
      a.Some? && b.Some? ==> a.value != b.value
  {
    StartSatisfiesSlotInv(w);
    SlotInvAlways(w, steps);
  }

  // ---------------------------------------------------------------- termination

  function Rank(t: Task): nat {
    match t.pc
    case Idle => 2 * t.groups + 6
    case Waiting => 2 * t.groups + 5
    case SlotSecret(_) => 2 * t.groups + 4
    case PolicySecret => 2 * t.groups + 3
    case Simulating(_, left, _, _) => 2 * left + 2
    case Submitting(_, left, _) => 2 * left + 1
    case Done => 0
    case Crashed(_) => 0
  }

  function TotalRank(tasks: seq<Task>): nat {
    if tasks == [] then 0 else Rank(tasks[0]) + TotalRank(tasks[1..])
  }

  ghost predicate NoHigher(a: seq<Task>, b: seq<Task>) {
    |a| == |b| && forall i :: 0 <= i < |a| ==> Rank(b[i]) <= Rank(a[i])
  }

  lemma {:induction false} TotalFalls(a: seq<Task>, b: seq<Task>)
    requires NoHigher(a, b)
    ensures TotalRank(b) <= TotalRank(a)
    ensures (exists i :: 0 <= i < |a| && Rank(b[i]) < Rank(a[i])) ==> TotalRank(b) < TotalRank(a)
  {
    if a != [] {
      TotalFalls(a[1..], b[1..]);
      if i :| 0 <= i < |a| && Rank(b[i]) < Rank(a[i]) {
        if i > 0 {
          assert Rank(b[1..][i - 1]) < Rank(a[1..][i - 1]);
        }
      }
    }
  }

  lemma OnlyWaitersAreWoken(p: Pool, tasks: seq<Task>, i: TaskId)
    requires SlotInv(p, tasks) && i < |tasks| && Held(tasks[i]).Some?
    ensures var g := AfterRelease(p, Held(tasks[i]).value).1;
      g.Some? ==> g.value.ticket < |tasks| && tasks[g.value.ticket].pc.Waiting?
  {
    var key := Held(tasks[i]).value;
    assert key in p.inUse;
    if p.waiters != [] {
      ReleaseToFirst(p, tasks, key, i);
      hide AfterRelease;
    }
  }

  // after: task i at a lower rank, nobody at a higher one.
  ghost predicate Lowers(a: seq<Task>, b: seq<Task>, i: TaskId) {
    i < |a| && NoHigher(a, b) && Rank(b[i]) < Rank(a[i])
  }

  lemma VacateLowers(w: World, i: TaskId, key: Key, pc: Pc)
    requires SlotInv(w.pool, w.tasks) && i < |w.tasks| && Held(w.tasks[i]) == Some(key)
    requires !w.tasks[i].pc.Waiting? && Rank(w.tasks[i].(pc := pc)) < Rank(w.tasks[i])
    ensures Lowers(w.tasks, Vacate(w, i, key, pc).tasks, i)
  {
    OnlyWaitersAreWoken(w.pool, w.tasks, i);
    assert CursorInRange(w.pool);
    hide SlotInv, AfterRelease;
  }

  lemma LeaveLowers(w: World, i: TaskId, slot: Option<Key>)
    requires SlotInv(w.pool, w.tasks) && i < |w.tasks| && Held(w.tasks[i]) == slot
    requires !w.tasks[i].pc.Waiting? && !Finished(w.tasks[i])
    ensures Lowers(w.tasks, Leave(w, i, slot).tasks, i)
  {
    assert CursorInRange(w.pool);
    hide SlotInv;
    if slot.Some? {
      VacateLowers(w, i, slot.value, Done);
      hide Vacate, Lowers;
    }
  }

  lemma StartGroupLowers(w: World, i: TaskId, slot: Option<Key>, left: nat, s: GroupStart)
    requires SlotInv(w.pool, w.tasks) && i < |w.tasks| && Held(w.tasks[i]) == slot
    requires !w.tasks[i].pc.Waiting? && GroupOk(w, s) && 2 * left + 2 < Rank(w.tasks[i])
    ensures Lowers(w.tasks, StartGroup(w, i, slot, left, s).tasks, i)
  {
    assert CursorInRange(w.pool);
    hide SlotInv, Leave;
    if s.StartThrows? {
      LeaveLowers(w, i, slot);
    }
  }

  lemma BeginLowers(w: World, i: TaskId, proceed: bool)
    requires SlotInv(w.pool, w.tasks) && Enabled(w, Begin(i, proceed))
    ensures Lowers(w.tasks, Apply(w, Begin(i, proceed)).tasks, i)
  {
  }

  lemma SlotSecretDoneLowers(w: World, i: TaskId, o: SlotOutcome)
    requires SlotInv(w.pool, w.tasks) && Enabled(w, SlotSecretDone(i, o))
    ensures Lowers(w.tasks, Apply(w, SlotSecretDone(i, o)).tasks, i)
  {
    var key := w.tasks[i].pc.key;
    assert CursorInRange(w.pool);
    hide SlotInv, Vacate, StartGroup;
    match o
    case Missing => VacateLowers(w, i, key, PolicySecret);
    case LowOrUnknownBalance => VacateLowers(w, i, key, Done);
    case Usable(start) => StartGroupLowers(w, i, Some(key), w.tasks[i].groups, start);
    case Crash =>
  }

  // A task that takes a step falls in rank; a task it wakes falls too; the rest stay.
  lemma StepLowersRanks(w: World, s: Step)
    requires SlotInv(w.pool, w.tasks) && Enabled(w, s) && !s.Tick?
    ensures Lowers(w.tasks, Apply(w, s).tasks, s.i)
  {
    assert CursorInRange(w.pool);
    hide SlotInv, Apply, Lowers;
    match s
    case Begin(i, proceed) => BeginLowers(w, i, proceed);
    case SlotSecretDone(i, o) => SlotSecretDoneLowers(w, i, o);
    case PolicySecretDone(i, o) => PolicySecretDoneLowers(w, i, o);
    case SimulationDone(i, estimate) => SimulationDoneLowers(w, i, estimate);
    case SubmitDone(i, outcome, next) => SubmitDoneLowers(w, i, outcome, next);
  }

  lemma PolicySecretDoneLowers(w: World, i: TaskId, o: Option<GroupStart>)
    requires SlotInv(w.pool, w.tasks) && Enabled(w, PolicySecretDone(i, o))
    ensures Lowers(w.tasks, Apply(w, PolicySecretDone(i, o)).tasks, i)
  {
    LeaveLowers(w, i, None);
    if o.Some? {
      StartGroupLowers(w, i, None, w.tasks[i].groups, o.value);
    }
  }

  lemma SimulationDoneLowers(w: World, i: TaskId, estimate: Option<nat>)
    requires SlotInv(w.pool, w.tasks) && Enabled(w, SimulationDone(i, estimate))
    ensures Lowers(w.tasks, Apply(w, SimulationDone(i, estimate)).tasks, i)
  {
    LeaveLowers(w, i, w.tasks[i].pc.slot);
  }

  lemma SubmitDoneLowers(w: World, i: TaskId, o: SubmitOutcome, next: GroupStart)
    requires SlotInv(w.pool, w.tasks) && Enabled(w, SubmitDone(i, o, next))
    ensures Lowers(w.tasks, Apply(w, SubmitDone(i, o, next)).tasks, i)
  {
    var pc := w.tasks[i].pc;
    var w1 := Settle(w, pc.hold, o);
    assert CursorInRange(w.pool);
    SettleKeepsTasks(w, pc.hold, o);
    hide SlotInv, Settle, Leave, StartGroup, Lowers;
    LeaveLowers(w1, i, pc.slot);
    if pc.left > 1 {
      StartGroupLowers(w1, i, pc.slot, pc.left - 1, next);
    }
  }

  lemma MeasureFalls(w: World, s: Step)
    requires SlotInv(w.pool, w.tasks) && Enabled(w, s) && !s.Tick?
    ensures TotalRank(Apply(w, s).tasks) < TotalRank(w.tasks)
  {
    StepLowersRanks(w, s);
    TotalFalls(w.tasks, Apply(w, s).tasks);
  }

  function TaskSteps(steps: seq<Step>): nat {
    if steps == [] then 0 else (if steps[0].Tick? then 0 else 1) + TaskSteps(steps[1..])
  }

  // Whatever the interleaving, tasks take boundedly many steps.
  lemma {:induction false} RunsAreBounded(w: World, steps: seq<Step>)
    requires SlotInv(w.pool, w.tasks) && Possible(w, steps)
    ensures TaskSteps(steps) + TotalRank(Exec(w, steps).tasks) <= TotalRank(w.tasks)
    decreases |steps|
  {
    if steps != [] {
      assert CursorInRange(w.pool);
      hide SlotInv, Apply, TotalRank;
      SlotInvPreserved(w, steps[0]);
      if !steps[0].Tick? {
        MeasureFalls(w, steps[0]);
      }
      RunsAreBounded(Apply(w, steps[0]), steps[1..]);
    }
  }
}
