// What holds of every interleaving of the extension tasks of one run, and across runs.
module EngineTheorems {
  import opened Common
  import opened ChannelPool
  import opened SharedBudget
  import opened Engine
  import opened EngineSlots
  import opened EngineBudget
  import opened EngineProgress

  // ---------------------------------------------------------------- reachable states

  lemma {:induction false} InvAlways(w: World, steps: seq<Step>)
    requires SlotInv(w.pool, w.tasks) && BudgetInv(w) && Possible(w, steps)
    ensures var e := Exec(w, steps);
      SlotInv(e.pool, e.tasks) && BudgetInv(e) && e.rows.Keys == w.rows.Keys && |e.tasks| == |w.tasks|
    decreases |steps|
  {
    if steps != [] {
      SlotInvPreserved(w, steps[0]);
      BudgetInvPreserved(w, steps[0]);
      assert CursorInRange(w.pool);
      hide SlotInv, BudgetInv, Apply;
      InvAlways(Apply(w, steps[0]), steps[1..]);
    }
  }

  // The first run ever: nothing spent, nothing booked.
  lemma FirstRun(w: World)
    requires AtStart(w) && w.log == []
    requires forall p :: p in w.rows ==> w.rows[p].spent == 0 && w.rows[p].cycle <= w.now
    ensures BudgetInv(w)
  {
    forall p | p in w.rows ensures Conserved(w, p) {
      InFlightOfNewCycle(w.tasks, p, w.rows[p].cycle);
    }
  }

  // A later run takes over the rows and the books once Promise.all has settled. Pools may have
  // been added in between, and limits changed, though not below what has been spent.
  lemma NextRun(w: World, next: World)
    requires SlotInv(w.pool, w.tasks) && BudgetInv(w)
    requires forall i :: 0 <= i < |w.tasks| ==> Finished(w.tasks[i])
    requires AtStart(next) && next.log == w.log && next.now >= w.now
    requires forall p :: p in w.rows ==> p in next.rows && TakenOver(w.rows[p], next.rows[p])
    requires forall p :: p in next.rows && p !in w.rows ==> next.rows[p].spent == 0 && next.rows[p].cycle <= next.now
    ensures SlotInv(next.pool, next.tasks) && BudgetInv(next)
  {
    StartSatisfiesSlotInv(next);
    forall p | p in next.rows ensures Conserved(next, p) && Capped(next, p) {
      InFlightOfNewCycle(next.tasks, p, next.rows[p].cycle);
      if p in w.rows {
        assert Conserved(w, p) && Capped(w, p);
        InFlightOfNewCycle(w.tasks, p, w.rows[p].cycle);
      } else {
        TotalOfNewCycle(Charges, next.log, p, next.rows[p].cycle);
        TotalOfNewCycle(Leftovers, next.log, p, next.rows[p].cycle);
      }
    }
  }

  ghost predicate TakenOver(was: Row, now: Row) {
    now.cycle == was.cycle && now.spent == was.spent && (now.limit >= was.limit || now.limit >= now.spent)
  }

  // ---------------------------------------------------------------- budgets

  // spent is exactly the fees settled in this cycle, plus what is still reserved for it,
  // plus what tasks that threw after reserving left behind.
  lemma Conservation(w: World, steps: seq<Step>, p: PoolId)
    requires AtStart(w) && BudgetInv(w) && Possible(w, steps) && p in w.rows
    ensures var e := Exec(w, steps);
      && p in e.rows
      && e.rows[p].spent == Total(Charges, e.log, p, e.rows[p].cycle)
                          + InFlight(e.tasks, p, e.rows[p].cycle)
                          + Total(Leftovers, e.log, p, e.rows[p].cycle)
  {
    StartSatisfiesSlotInv(w);
    InvAlways(w, steps);
    assert Conserved(Exec(w, steps), p);
  }

  // The cap is passed by no more than the fees that came out above their estimates.
  lemma CapHolds(w: World, steps: seq<Step>, p: PoolId)
    requires AtStart(w) && BudgetInv(w) && Possible(w, steps) && p in w.rows
    ensures var e := Exec(w, steps);
      && p in e.rows
      && 0 <= e.rows[p].spent <= e.rows[p].limit + Total(Overruns, e.log, p, e.rows[p].cycle)
  {
    StartSatisfiesSlotInv(w);
    InvAlways(w, steps);
    assert Conserved(Exec(w, steps), p) && Capped(Exec(w, steps), p);
  }

  // A fee that was reported and reserved for came out at no more than its estimate.
  predicate WithinEstimate(e: Event) {
    e.outcome.Charged? && e.outcome.reported && e.reserved > 0 ==> e.outcome.paid <= e.reserved
  }

  lemma {:induction false} NoOverruns(log: seq<Event>, p: PoolId, c: nat)
    requires forall e :: e in log && e.pool == p && e.cycle == c ==> WithinEstimate(e)
    ensures Total(Overruns, log, p, c) == 0
  {
    if log != [] {
      assert log[|log| - 1] in log;
      NoOverruns(log[..|log| - 1], p, c);
    }
  }

  // With estimates that are upper bounds, concurrent tasks never pass the monthly limit.
  lemma CapNeverPassed(w: World, steps: seq<Step>, p: PoolId)
    requires AtStart(w) && BudgetInv(w) && Possible(w, steps) && p in w.rows
    requires forall e :: e in Exec(w, steps).log && e.pool == p ==> WithinEstimate(e)
    ensures p in Exec(w, steps).rows && Exec(w, steps).rows[p].spent <= Exec(w, steps).rows[p].limit
  {
    CapHolds(w, steps, p);
    var e := Exec(w, steps);
    NoOverruns(e.log, p, e.rows[p].cycle);
  }

  // A refund gives back the whole reservation: the clamp at 0 never takes effect.
  lemma RefundsAreExact(w: World, steps: seq<Step>, i: TaskId)
    requires AtStart(w) && BudgetInv(w) && Possible(w, steps) && i < |w.tasks|
    ensures var e := Exec(w, steps);
      && |e.tasks| == |w.tasks|
      && (Reserving(e.tasks[i].pc) ==>
            var h := e.tasks[i].pc.hold;
            && h.pool in e.rows
            && (h.cycle == e.rows[h.pool].cycle ==>
                  && e.rows[h.pool].spent >= h.reserved
                  && Refund(e.rows[h.pool], h.cycle, h.reserved).spent == e.rows[h.pool].spent - h.reserved))
  {
    StartSatisfiesSlotInv(w);
    InvAlways(w, steps);
    var e := Exec(w, steps);
    if Reserving(e.tasks[i].pc) {
      var h := e.tasks[i].pc.hold;
      assert Conserved(e, h.pool);
      InFlightAtLeast(e.tasks, i, h.pool, h.cycle);
    }
  }

  // A task whose reservation belongs to an older cycle changes no row when it settles, and a
  // task simulating since an older cycle reserves nothing.
  lemma OldCycleTasksAreInert(w: World, i: TaskId, o: SubmitOutcome, estimate: nat)
    requires BudgetInv(w) && i < |w.tasks|
    ensures Reserving(w.tasks[i].pc) && w.tasks[i].pc.hold.cycle != w.rows[w.tasks[i].pc.hold.pool].cycle
      ==> Settle(w, w.tasks[i].pc.hold, o).rows == w.rows
    ensures var pc := w.tasks[i].pc;
      pc.Simulating? && pc.pool.Some? && pc.cycle != w.rows[pc.pool.value].cycle
      ==> CursorInRange(w.pool) ==> Apply(w, SimulationDone(i, Some(estimate))) == Leave(w, i, pc.slot)
  {
  }

  // Settling a submission in its own cycle puts the fee paid in the place of the reservation
  // exactly when the answer is honest about the fee and, if there was a fee, something was
  // reserved for it.
  lemma FeeIsRecordedIff(w: World, i: TaskId, o: SubmitOutcome)
    requires BudgetInv(w) && i < |w.tasks| && Reserving(w.tasks[i].pc)
    requires var h := w.tasks[i].pc.hold; h.pool in w.rows && h.cycle == w.rows[h.pool].cycle
    ensures var h := w.tasks[i].pc.hold;
      Settle(w, h, o).rows[h.pool].spent == w.rows[h.pool].spent - h.reserved + o.paid
      <==> Honest(h.reserved, o) && (h.reserved > 0 || o.paid == 0)
  {
    var h := w.tasks[i].pc.hold;
    assert Conserved(w, h.pool);
    InFlightAtLeast(w.tasks, i, h.pool, h.cycle);
    GainIsPaidIff(h.reserved, o);
  }

  // ---------------------------------------------------------------- no deadlock

  // Some task can take a step.
  ghost predicate CanMove(w: World) {
    exists s: Step :: !s.Tick? && Enabled(w, s)
  }

  ghost predicate Lost(tasks: seq<Task>, k: Key) {
    exists i :: 0 <= i < |tasks| && tasks[i].pc == Crashed(k)
  }

  ghost predicate Runnable(t: Task) {
    !Finished(t) && !t.pc.Waiting?
  }

  // Every task that is neither finished nor queued has a step to take.
  lemma RunnableMoves(w: World, i: TaskId)
    requires Dated(w) && i < |w.tasks| && Runnable(w.tasks[i])
    ensures CanMove(w)
  {
    var refused := Refused(0);
    var s := match w.tasks[i].pc
      case Idle => Begin(i, true)
      case SlotSecret(_) => SlotSecretDone(i, Missing)
      case PolicySecret => PolicySecretDone(i, None)
      case Simulating(_, _, _, _) => SimulationDone(i, None)
      case _ => SubmitDone(i, refused, StartThrows);
    assert !s.Tick? && Enabled(w, s);
  }

  // The run is stuck with work left exactly when everything unfinished is queued, and then
  // every account was kept by a task that threw between acquire() and the try.
  lemma StuckIff(w: World)
    requires SlotInv(w.pool, w.tasks) && Dated(w)
    ensures !CanMove(w) <==> forall i :: 0 <= i < |w.tasks| ==> !Runnable(w.tasks[i])
    ensures !CanMove(w) && (exists i :: 0 <= i < |w.tasks| && !Finished(w.tasks[i]))
      ==> (exists k :: k in w.pool.keys) && forall k :: k in w.pool.keys ==> Lost(w.tasks, k)
  {
    if i :| 0 <= i < |w.tasks| && Runnable(w.tasks[i]) {
      RunnableMoves(w, i);
    } else {
      forall s: Step | !s.Tick? ensures !Enabled(w, s) {
      }
      if i :| 0 <= i < |w.tasks| && !Finished(w.tasks[i]) {
        assert i in w.pool.waiters;
        SomeMember(w.pool.keys);
        forall k | k in w.pool.keys ensures Lost(w.tasks, k) {
          assert HeldBySome(w.tasks, k);
          var j :| 0 <= j < |w.tasks| && Held(w.tasks[j]) == Some(k);
          assert !Runnable(w.tasks[j]);
        }
      }
    }
  }

  predicate NoCrash(steps: seq<Step>) {
    forall s :: s in steps && s.SlotSecretDone? ==> !s.slotOutcome.Crash?
  }

  lemma {:induction false} NoTaskCrashed(w: World, steps: seq<Step>)
    requires CursorInRange(w.pool) && Possible(w, steps) && NoCrash(steps)
    requires forall i :: 0 <= i < |w.tasks| ==> !w.tasks[i].pc.Crashed?
    ensures forall i :: 0 <= i < |Exec(w, steps).tasks| ==> !Exec(w, steps).tasks[i].pc.Crashed?
    decreases |steps|
  {
    if steps != [] {
      assert steps[0] in steps;
      StepWithoutCrash(w, steps[0]);
      NoTaskCrashed(Apply(w, steps[0]), steps[1..]);
    }
  }

  lemma StepWithoutCrash(w: World, s: Step)
    requires CursorInRange(w.pool) && Enabled(w, s) && (s.SlotSecretDone? ==> !s.slotOutcome.Crash?)
    requires forall i :: 0 <= i < |w.tasks| ==> !w.tasks[i].pc.Crashed?
    ensures forall i :: 0 <= i < |Apply(w, s).tasks| ==> !Apply(w, s).tasks[i].pc.Crashed?
  {
    if !s.Tick? {
      StepTouches(w, s);
      hide Apply;
    }
  }

  // Every maximal run ends with all tasks done, every account given back exactly once, nobody
  // waiting, and all groups submitted but those of tasks that a step of their own stopped,
  // provided no task throws between acquire() and the try.
  lemma MaximalRunsFinish(w: World, steps: seq<Step>)
    requires AtStart(w) && BudgetInv(w) && Possible(w, steps) && NoCrash(steps) && !CanMove(Exec(w, steps))
    ensures var e := Exec(w, steps);
      && e.pool.inUse == {} && e.pool.waiters == [] && |e.tasks| == |w.tasks|
      && forall i :: 0 <= i < |e.tasks| ==>
           && e.tasks[i].pc.Done? && e.tasks[i].released == e.tasks[i].acquired <= 1
           && Submitted(steps, i) <= w.tasks[i].groups
           && (Submitted(steps, i) == w.tasks[i].groups <==> !EverStopped(w, steps, i))
  {
    StartSatisfiesSlotInv(w);
    InvAlways(w, steps);
    NoTaskCrashed(w, steps);
    var e := Exec(w, steps);
    StuckIff(e);
    assert forall k :: !Lost(e.tasks, k);
    FinalPool(e);
    hide SlotInv, BudgetInv, CanMove, Submitted, EverStopped, Possible, Exec;
    forall i | 0 <= i < |e.tasks|
      ensures Submitted(steps, i) <= w.tasks[i].groups
      ensures Submitted(steps, i) == w.tasks[i].groups <==> !EverStopped(w, steps, i)
    {
      AllGroupsAreSubmitted(w, steps, i);
    }
  }

  // Once all tasks have finished, the pool is idle exactly when none kept its account.
  lemma FinalPool(w: World)
    requires SlotInv(w.pool, w.tasks)
    requires forall i :: 0 <= i < |w.tasks| ==> Finished(w.tasks[i])
    ensures w.pool.waiters == [] && (w.pool.inUse == {} <==> forall i :: 0 <= i < |w.tasks| ==> w.tasks[i].pc.Done?)
  {
    assert forall t :: t !in w.pool.waiters;
    if w.pool.waiters != [] {
      SomeMember(w.pool.waiters);
    }
    if w.pool.inUse != {} {
      var k :| k in w.pool.inUse;
      assert HeldBySome(w.tasks, k);
    }
  }

  // The other half: once every account is kept by such a task, a queued task waits for ever.
  lemma {:induction false} LostAccountsStrandWaiters(w: World, steps: seq<Step>, i: TaskId)
    requires SlotInv(w.pool, w.tasks) && Possible(w, steps)
    requires forall k :: k in w.pool.keys ==> Lost(w.tasks, k)
    requires i < |w.tasks| && w.tasks[i].pc.Waiting?
    ensures i < |Exec(w, steps).tasks| && Exec(w, steps).tasks[i].pc.Waiting?
    decreases |steps|
  {
    if steps != [] {
      SlotInvPreserved(w, steps[0]);
      StrandedStep(w, steps[0], i);
      LostAccountsStrandWaiters(Apply(w, steps[0]), steps[1..], i);
    }
  }

  lemma StrandedStep(w: World, s: Step, i: TaskId)
    requires SlotInv(w.pool, w.tasks) && Enabled(w, s)
    requires forall k :: k in w.pool.keys ==> Lost(w.tasks, k)
    requires i < |w.tasks| && w.tasks[i].pc.Waiting?
    ensures i < |Apply(w, s).tasks| && Apply(w, s).tasks[i].pc.Waiting?
    ensures Apply(w, s).pool.keys == w.pool.keys
    ensures forall k :: k in w.pool.keys ==> Lost(Apply(w, s).tasks, k)
  {
    OnlyCrashedHold(w.pool, w.tasks, i);
    assert CursorInRange(w.pool);
    SlotInvPreserved(w, s);
    hide SlotInv, Lost, Held;
    OnlyTouchesRunning(w, s, i);
    hide Apply, Enabled;
    forall k | k in w.pool.keys ensures Lost(Apply(w, s).tasks, k) {
      StaysLost(w.tasks, Apply(w, s).tasks, k);
    }
  }

  // With no account to give back or to hand out, a step changes its own task only.
  lemma OnlyTouchesRunning(w: World, s: Step, i: TaskId)
    requires CursorInRange(w.pool) && Enabled(w, s) && i < |w.tasks| && w.tasks[i].pc.Waiting?
    requires forall j :: 0 <= j < |w.tasks| && Held(w.tasks[j]).Some? ==> w.tasks[j].pc.Crashed?
    requires FreeOffset(w.pool, 0).None?
    ensures var after := Apply(w, s).tasks;
      && |after| == |w.tasks| && after[i] == w.tasks[i]
      && forall m :: 0 <= m < |w.tasks| && w.tasks[m].pc.Crashed? ==> after[m] == w.tasks[m]
  {
    if !s.Tick? {
      StepTouches(w, s);
      hide Apply;
    }
  }

  lemma StaysLost(was: seq<Task>, now: seq<Task>, k: Key)
    requires Lost(was, k) && |now| == |was|
    requires forall m :: 0 <= m < |was| && was[m].pc.Crashed? ==> now[m] == was[m]
    ensures Lost(now, k)
  {
  }

  lemma OnlyCrashedHold(p: Pool, tasks: seq<Task>, i: TaskId)
    requires SlotInv(p, tasks) && i < |tasks| && tasks[i].pc.Waiting?
    requires forall k :: k in p.keys ==> Lost(tasks, k)
    ensures forall j :: 0 <= j < |tasks| && Held(tasks[j]).Some? ==> tasks[j].pc.Crashed?
    ensures FreeOffset(p, 0).None?
  {
  }

  // Such a run exists: one account, two tasks, the first throws before its try.
  lemma CrashStrandsAWaiter(w: World)
    requires AtStart(w) && Dated(w) && |w.pool.keys| == 1 && |w.tasks| == 2
    ensures var steps := [Begin(0, true), Begin(1, true), SlotSecretDone(0, Crash)];
      Possible(w, steps) && Exec(w, steps).tasks[1].pc.Waiting? && !CanMove(Exec(w, steps))
  {
    var s0, s1, s2 := Begin(0, true), Begin(1, true), SlotSecretDone(0, Crash);
    BothBegin(w);
    var w1 := Apply(w, s0);
    var w2 := Apply(w1, s1);
    NobodyMovesAfterTheCrash(w2);
    var steps := [s0, s1, s2];
    hide SlotInv, Apply, CanMove;
    assert steps[1..] == [s1, s2] && steps[1..][1..] == [s2] && steps[1..][1..][1..] == [];
  }

  lemma NobodyMovesAfterTheCrash(w: World)
    requires SlotInv(w.pool, w.tasks) && Dated(w) && |w.tasks| == 2
    requires w.tasks[1].pc.Waiting? && w.tasks[0].pc.SlotSecret?
    ensures var s := SlotSecretDone(0, Crash);
      Enabled(w, s) && Apply(w, s).tasks[1].pc.Waiting? && !CanMove(Apply(w, s))
  {
    var s := SlotSecretDone(0, Crash);
    SlotInvPreserved(w, s);
    hide SlotInv;
    StuckIff(Apply(w, s));
  }

  // The first task takes the only account, the second one queues.
  lemma BothBegin(w: World)
    requires AtStart(w) && Dated(w) && |w.pool.keys| == 1 && |w.tasks| == 2
    ensures SlotInv(w.pool, w.tasks) && Enabled(w, Begin(0, true))
    ensures var w1 := Apply(w, Begin(0, true));
      && Enabled(w1, Begin(1, true)) && SlotInv(w1.pool, w1.tasks)
      && var w2 := Apply(w1, Begin(1, true));
         && SlotInv(w2.pool, w2.tasks) && w2.tasks[1].pc.Waiting? && w2.tasks[0].pc == SlotSecret(w.pool.keys[0])
         && |w2.tasks| == 2 && Dated(w2)
  {
    StartSatisfiesSlotInv(w);
    var w1 := Apply(w, Begin(0, true));
    SlotInvPreserved(w, Begin(0, true));
    assert FreeOffset(w.pool, 0) == Some(0);
    assert w1.tasks[0].pc == SlotSecret(w.pool.keys[0]) && w1.tasks[1] == w.tasks[1];
    SlotInvPreserved(w1, Begin(1, true));
    assert FreeOffset(w1.pool, 0) == None;
  }
}
