// Which fees the shared pools account for (src/core/extension.ts). A fee is lost when nothing was
// reserved for it, or when the answer to the submission is not honest about it.
module EngineFees {
  import opened Common
  import opened ChannelPool
  import opened SharedBudget
  import opened Engine
  import opened EngineSlots
  import opened EngineBudget
  import opened EngineTheorems

  // spent is the fees paid in its cycle and the reservations in flight.
  ghost predicate FeesAccounted(w: World, p: PoolId)
    requires p in w.rows
  {
    var c := w.rows[p].cycle;
    w.rows[p].spent == Total(Paid, w.log, p, c) + InFlight(w.tasks, p, c)
  }

  // In every state that the run goes through.
  ghost predicate AlwaysAccounted(w: World, steps: seq<Step>, p: PoolId)
    requires CursorInRange(w.pool) && Possible(w, steps)
    decreases |steps|
  {
    && p in w.rows && FeesAccounted(w, p)
    && (steps == [] || AlwaysAccounted(Apply(w, steps[0]), steps[1..], p))
  }

  // If the step ends a submission on this pool, in the cycle that the pool is in afterwards, then
  // the answer is honest about the fee, and something was reserved for it if there was one.
  ghost predicate TrueStep(w: World, s: Step, p: PoolId)
    requires CursorInRange(w.pool) && Enabled(w, s)
  {
    s.SubmitDone? && p in Apply(w, s).rows ==>
      var h := w.tasks[s.i].pc.hold;
      h.Hold? && h.pool == p && h.cycle == Apply(w, s).rows[p].cycle ==>
        Honest(h.reserved, s.outcome) && (h.reserved > 0 || s.outcome.paid == 0)
  }

  ghost predicate TrueSteps(w: World, steps: seq<Step>, p: PoolId)
    requires CursorInRange(w.pool) && Possible(w, steps)
    decreases |steps|
  {
    steps == [] || (TrueStep(w, steps[0], p) && TrueSteps(Apply(w, steps[0]), steps[1..], p))
  }

  // A task is submitting on this pool, in its cycle, with nothing reserved.
  ghost predicate SubmitsUnreserved(w: World, p: PoolId)
    requires p in w.rows
  {
    exists i :: 0 <= i < |w.tasks| && UnreservedAt(w.tasks[i], p, w.rows[p].cycle)
  }

  predicate UnreservedAt(t: Task, p: PoolId, c: nat) {
    t.pc.Submitting? && t.pc.hold == Hold(p, c, 0)
  }

  // The outside world does no harm to this pool: simulations estimate positive fees, and answers
  // are honest.
  ghost predicate GoodStep(w: World, s: Step, p: PoolId)
    requires Enabled(w, s)
  {
    match s
    case SimulationDone(i, estimate) => w.tasks[i].pc.pool == Some(p) && estimate.Some? ==> estimate.value > 0
    case SubmitDone(i, o, _) =>
      w.tasks[i].pc.hold.Hold? && w.tasks[i].pc.hold.pool == p ==> Honest(w.tasks[i].pc.hold.reserved, o)
    case _ => true
  }

  ghost predicate GoodSteps(w: World, steps: seq<Step>, p: PoolId)
    requires CursorInRange(w.pool) && Possible(w, steps)
    decreases |steps|
  {
    steps == [] || (GoodStep(w, steps[0], p) && GoodSteps(Apply(w, steps[0]), steps[1..], p))
  }

  // ---------------------------------------------------------------- what one step does

  // How far spent is ahead of the fees paid in its cycle and the reservations in flight.
  ghost function Ahead(w: World, p: PoolId): int
    requires p in w.rows
  {
    var c := w.rows[p].cycle;
    w.rows[p].spent - Total(Paid, w.log, p, c) - InFlight(w.tasks, p, c)
  }

  lemma AheadIs(w: World, p: PoolId)
    requires p in w.rows && Conserved(w, p)
    ensures var c := w.rows[p].cycle;
      Ahead(w, p) == Total(Charges, w.log, p, c) + Total(Leftovers, w.log, p, c) - Total(Paid, w.log, p, c)
  {
    hide Total, InFlight;
  }

  // A task submits with a reservation only if it did so before, or has just made it.
  ghost predicate HoldIsOld(w: World, s: Step, j: TaskId, t: Task)
    requires j < |w.tasks|
  {
    t.pc.Submitting? && t.pc.hold.Hold? ==>
      || (w.tasks[j].pc.Submitting? && w.tasks[j].pc.hold == t.pc.hold)
      || (s.SimulationDone? && s.i == j && w.tasks[j].pc.Simulating? && s.estimate == Some(t.pc.hold.reserved)
          && w.tasks[j].pc.pool == Some(t.pc.hold.pool))
  }

  lemma LeaveHoldsNothing(w: World, i: TaskId, slot: Option<Key>)
    requires i < |w.tasks| && CursorInRange(w.pool)
    ensures |Leave(w, i, slot).tasks| == |w.tasks| && !Leave(w, i, slot).tasks[i].pc.Submitting?
  {
    hide AfterRelease;
  }

  lemma StartHoldsNothing(w: World, i: TaskId, slot: Option<Key>, left: nat, s: GroupStart)
    requires i < |w.tasks| && CursorInRange(w.pool) && GroupOk(w, s)
    ensures var after := StartGroup(w, i, slot, left, s).tasks;
      |after| == |w.tasks| && (after[i].pc.Submitting? ==> after[i].pc.hold.NoHold?)
  {
    LeaveHoldsNothing(w, i, slot);
    hide Leave;
  }

  lemma OwnHoldAfterSubmit(w: World, i: TaskId, o: SubmitOutcome, next: GroupStart)
    requires CursorInRange(w.pool) && Enabled(w, SubmitDone(i, o, next))
    ensures var after := Apply(w, SubmitDone(i, o, next)).tasks;
      |after| == |w.tasks| && (after[i].pc.Submitting? ==> after[i].pc.hold.NoHold?)
  {
    var pc := w.tasks[i].pc;
    SettleKeepsTasks(w, pc.hold, o);
    hide AfterRelease, StartGroup, Leave, Settle;
    LeaveHoldsNothing(Settle(w, pc.hold, o), i, pc.slot);
    if pc.left > 1 {
      StartHoldsNothing(Settle(w, pc.hold, o), i, pc.slot, pc.left - 1, next);
    }
  }

  lemma OwnHoldAfterBegin(w: World, i: TaskId, proceed: bool)
    requires CursorInRange(w.pool) && Enabled(w, Begin(i, proceed))
    ensures var after := Apply(w, Begin(i, proceed)).tasks; |after| == |w.tasks| && !after[i].pc.Submitting?
  {
    hide AfterAcquire;
  }

  lemma OwnHoldAfterSecret(w: World, i: TaskId, o: SlotOutcome)
    requires CursorInRange(w.pool) && Enabled(w, SlotSecretDone(i, o))
    ensures var after := Apply(w, SlotSecretDone(i, o)).tasks;
      |after| == |w.tasks| && (after[i].pc.Submitting? ==> after[i].pc.hold.NoHold?)
  {
    hide AfterRelease, StartGroup;
    if o.Usable? {
      StartHoldsNothing(w, i, Held(w.tasks[i]), w.tasks[i].groups, o.start);
    }
  }

  lemma OwnHold(w: World, s: Step)
    requires CursorInRange(w.pool) && Enabled(w, s) && !s.Tick?
    ensures s.i < |Apply(w, s).tasks| && HoldIsOld(w, s, s.i, Apply(w, s).tasks[s.i])
  {
    hide StartGroup, Leave;
    match s
    case Begin(i, proceed) =>
      OwnHoldAfterBegin(w, i, proceed);
      hide Apply;
    case SlotSecretDone(i, o) =>
      OwnHoldAfterSecret(w, i, o);
      hide Apply;
    case PolicySecretDone(i, o) =>
      if o.Some? {
        StartHoldsNothing(w, i, None, w.tasks[i].groups, o.value);
      }
    case SimulationDone(i, _) =>
      LeaveHoldsNothing(w, i, w.tasks[i].pc.slot);
    case SubmitDone(i, o, next) =>
      OwnHoldAfterSubmit(w, i, o, next);
      hide Apply;
  }

  lemma StepHolds(w: World, s: Step, j: TaskId)
    requires CursorInRange(w.pool) && Enabled(w, s) && j < |w.tasks|
    ensures j < |Apply(w, s).tasks| && HoldIsOld(w, s, j, Apply(w, s).tasks[j])
  {
    if s.Tick? {
    } else if s.SlotSecretDone? && s.slotOutcome.Crash? {
    } else {
      OwnHold(w, s);
      StepTouches(w, s);
      hide Apply;
    }
  }

  // What a step adds to the books.
  function Written(w: World, s: Step): seq<Event> {
    if s.SubmitDone? && s.i < |w.tasks| && w.tasks[s.i].pc.Submitting? then Booked(w.tasks[s.i].pc.hold, s.outcome) else []
  }

  lemma LeaveKeepsBooks(w: World, i: TaskId, slot: Option<Key>)
    requires i < |w.tasks| && CursorInRange(w.pool)
    ensures Leave(w, i, slot).log == w.log && Leave(w, i, slot).rows == w.rows
  {
    hide AfterRelease;
  }

  // A row's cycle stays, or becomes the current one.
  ghost predicate CycleMoves(w: World, rows: map<PoolId, Row>, p: PoolId) {
    p in w.rows && p in rows && (rows[p].cycle == w.rows[p].cycle || rows[p].cycle == w.now)
  }

  lemma StartKeepsBooks(w: World, i: TaskId, slot: Option<Key>, left: nat, s: GroupStart, p: PoolId)
    requires i < |w.tasks| && CursorInRange(w.pool) && GroupOk(w, s) && p in w.rows
    ensures StartGroup(w, i, slot, left, s).log == w.log && CycleMoves(w, StartGroup(w, i, slot, left, s).rows, p)
  {
    LeaveKeepsBooks(w, i, slot);
    hide Leave;
  }

  lemma StepBooks(w: World, s: Step, p: PoolId)
    requires CursorInRange(w.pool) && Enabled(w, s) && p in w.rows
    ensures Apply(w, s).log == w.log + Written(w, s) && CycleMoves(w, Apply(w, s).rows, p)
  {
    assert w.log + [] == w.log;
    hide AfterRelease, AfterAcquire, StartGroup, Leave, Settle, Wake;
    match s
    case Tick(_) =>
    case Begin(_, _) =>
    case SlotSecretDone(i, o) =>
      if o.Usable? {
        StartKeepsBooks(w, i, Held(w.tasks[i]), w.tasks[i].groups, o.start, p);
      }
    case PolicySecretDone(i, o) =>
      if o.Some? {
        StartKeepsBooks(w, i, None, w.tasks[i].groups, o.value, p);
      }
    case SimulationDone(i, _) =>
      LeaveKeepsBooks(w, i, w.tasks[i].pc.slot);
    case SubmitDone(i, o, next) =>
      SubmitBooks(w, i, o, next, p);
  }

  lemma SubmitBooks(w: World, i: TaskId, o: SubmitOutcome, next: GroupStart, p: PoolId)
    requires CursorInRange(w.pool) && Enabled(w, SubmitDone(i, o, next)) && p in w.rows
    ensures var w' := Apply(w, SubmitDone(i, o, next));
      w'.log == w.log + Booked(w.tasks[i].pc.hold, o) && CycleMoves(w, w'.rows, p)
  {
    var pc := w.tasks[i].pc;
    var w1 := Settle(w, pc.hold, o);
    SettleShape(w, pc.hold, o);
    assert w1.pool == w.pool && w1.rows[p].cycle == w.rows[p].cycle;
    hide Settle, StartGroup, Leave;
    LeaveKeepsBooks(w1, i, pc.slot);
    if pc.left > 1 {
      StartKeepsBooks(w1, i, pc.slot, pc.left - 1, next, p);
    }
  }

  // ---------------------------------------------------------------- when one step keeps the account

  // The books of a pool's new cycle are empty but for what the step itself has written; those of
  // a continuing cycle go on.
  lemma BooksAfter(w: World, s: Step, p: PoolId, m: Measure)
    requires BudgetInv(w) && CursorInRange(w.pool) && Enabled(w, s) && p in w.rows && p in Apply(w, s).rows
    ensures var c := Apply(w, s).rows[p].cycle;
      && c >= w.rows[p].cycle
      && Total(m, Apply(w, s).log, p, c)
         == (if c == w.rows[p].cycle then Total(m, w.log, p, c) else 0) + WrittenWeight(m, w, s, p, c)
  {
    assert Dated(w);
    StepBooks(w, s, p);
    var c := Apply(w, s).rows[p].cycle;
    if c > w.rows[p].cycle {
      TotalOfNewCycle(m, w.log, p, c);
    }
    hide BudgetInv, Dated, Apply, Total, Weight;
    if Written(w, s) == [] {
      assert w.log + [] == w.log;
    } else {
      assert Written(w, s) == [Written(w, s)[0]];
      TotalAppend(m, w.log, Written(w, s)[0], p, c);
    }
  }

  function WrittenWeight(m: Measure, w: World, s: Step, p: PoolId, c: nat): nat {
    if Written(w, s) == [] then 0 else Weight(m, Written(w, s)[0], p, c)
  }

  // By how much the step makes spent gain more than was paid.
  ghost function Error(w: World, s: Step, p: PoolId): int
    requires CursorInRange(w.pool) && Enabled(w, s)
  {
    if s.SubmitDone? && p in Apply(w, s).rows then
      var h := w.tasks[s.i].pc.hold;
      if h.Hold? && h.pool == p && h.cycle == Apply(w, s).rows[p].cycle
      then Gain(h.reserved, s.outcome) - s.outcome.paid else 0
    else 0
  }

  lemma TrueIffNoError(w: World, s: Step, p: PoolId)
    requires CursorInRange(w.pool) && Enabled(w, s)
    ensures TrueStep(w, s, p) <==> Error(w, s, p) == 0
  {
    if s.SubmitDone? && w.tasks[s.i].pc.hold.Hold? {
      GainIsPaidIff(w.tasks[s.i].pc.hold.reserved, s.outcome);
    }
    hide Apply;
  }

  lemma WrittenError(w: World, s: Step, p: PoolId)
    requires CursorInRange(w.pool) && Enabled(w, s) && p in Apply(w, s).rows
    ensures var c := Apply(w, s).rows[p].cycle;
      WrittenWeight(Charges, w, s, p, c) + WrittenWeight(Leftovers, w, s, p, c) - WrittenWeight(Paid, w, s, p, c)
      == Error(w, s, p)
  {
    hide Apply;
  }

  // How far spent is ahead of the fees paid moves by the step's error, and is forgotten when
  // the pool goes on to a new cycle.
  lemma AheadMoves(w: World, s: Step, p: PoolId)
    requires SlotInv(w.pool, w.tasks) && BudgetInv(w) && Enabled(w, s) && p in w.rows
    ensures CursorInRange(w.pool) && p in Apply(w, s).rows
    ensures Ahead(Apply(w, s), p)
         == (if Apply(w, s).rows[p].cycle == w.rows[p].cycle then Ahead(w, p) else 0) + Error(w, s, p)
  {
    assert CursorInRange(w.pool);
    BudgetInvPreserved(w, s);
    InvConserved(w, p);
    InvConserved(Apply(w, s), p);
    hide SlotInv, Apply, Ahead, Conserved;
    AheadIs(w, p);
    AheadIs(Apply(w, s), p);
    BooksAfter(w, s, p, Charges);
    BooksAfter(w, s, p, Leftovers);
    BooksAfter(w, s, p, Paid);
    WrittenError(w, s, p);
    hide BudgetInv, Error, WrittenWeight, Total;
  }

  lemma StepAccountsIff(w: World, s: Step, p: PoolId)
    requires SlotInv(w.pool, w.tasks) && BudgetInv(w) && Enabled(w, s) && p in w.rows && FeesAccounted(w, p)
    ensures CursorInRange(w.pool) && p in Apply(w, s).rows
    ensures FeesAccounted(Apply(w, s), p) <==> TrueStep(w, s, p)
  {
    AheadMoves(w, s, p);
    TrueIffNoError(w, s, p);
    hide SlotInv, BudgetInv, Apply, TrueStep, Error, Total, InFlight;
  }

  // ---------------------------------------------------------------- when a run keeps the account

  // From a state in which a pool's total is right, it is right in every state of a run if and
  // only if every submission of the pool's current cycle ended with an honest answer and, if it
  // cost anything, with something reserved for it.
  lemma {:induction false} AlwaysAccountedIff(w: World, steps: seq<Step>, p: PoolId)
    requires SlotInv(w.pool, w.tasks) && BudgetInv(w) && Possible(w, steps) && p in w.rows && FeesAccounted(w, p)
    ensures AlwaysAccounted(w, steps, p) <==> TrueSteps(w, steps, p)
    decreases |steps|
  {
    if steps != [] {
      var w', rest := Apply(w, steps[0]), steps[1..];
      StepAccountsIff(w, steps[0], p);
      SlotInvPreserved(w, steps[0]);
      BudgetInvPreserved(w, steps[0]);
      hide SlotInv, BudgetInv, Apply, FeesAccounted, TrueStep;
      if FeesAccounted(w', p) {
        AlwaysAccountedIff(w', rest, p);
      }
    }
  }

  lemma {:induction false} AccountedAtTheEnd(w: World, steps: seq<Step>, p: PoolId)
    requires CursorInRange(w.pool) && Possible(w, steps) && AlwaysAccounted(w, steps, p)
    ensures p in Exec(w, steps).rows && FeesAccounted(Exec(w, steps), p)
    decreases |steps|
  {
    if steps != [] {
      hide Apply, FeesAccounted;
      AccountedAtTheEnd(Apply(w, steps[0]), steps[1..], p);
    }
  }

  // As long as a pool's total is right, the fees really paid in its cycle pass the limit by no
  // more than the fees that came out above their estimates.
  lemma PaidFeesAreCapped(w: World, steps: seq<Step>, p: PoolId)
    requires AtStart(w) && BudgetInv(w) && Possible(w, steps) && p in w.rows && FeesAccounted(w, p)
    requires TrueSteps(w, steps, p)
    ensures var e := Exec(w, steps);
      && p in e.rows
      && Total(Paid, e.log, p, e.rows[p].cycle) <= e.rows[p].limit + Total(Overruns, e.log, p, e.rows[p].cycle)
  {
    StartSatisfiesSlotInv(w);
    AlwaysAccountedIff(w, steps, p);
    hide SlotInv, BudgetInv, AlwaysAccounted, TrueSteps;
    AccountedAtTheEnd(w, steps, p);
    CapHolds(w, steps, p);
  }

  // ---------------------------------------------------------------- good surroundings

  // In good surroundings a step is true unless its task submitted with nothing reserved.
  lemma GoodStepIsTrue(w: World, s: Step, p: PoolId)
    requires SlotInv(w.pool, w.tasks) && BudgetInv(w) && Enabled(w, s) && p in w.rows
    requires GoodStep(w, s, p) && !SubmitsUnreserved(w, p)
    ensures CursorInRange(w.pool) && TrueStep(w, s, p)
  {
    assert CursorInRange(w.pool) && Dated(w);
    StepBooks(w, s, p);
    hide SlotInv, BudgetInv, Apply;
    if s.SubmitDone? && w.tasks[s.i].pc.hold.Hold? && w.tasks[s.i].pc.hold.pool == p {
      assert !UnreservedAt(w.tasks[s.i], p, w.rows[p].cycle);
    }
  }

  lemma HoldsAreNotNewer(w: World, j: TaskId, p: PoolId)
    requires Dated(w) && j < |w.tasks| && p in w.rows
    ensures forall c: nat :: UnreservedAt(w.tasks[j], p, c) ==> c <= w.rows[p].cycle
  {
  }

  lemma GoodStepReserves(w: World, s: Step, p: PoolId)
    requires SlotInv(w.pool, w.tasks) && BudgetInv(w) && Enabled(w, s) && p in w.rows
    requires GoodStep(w, s, p) && !SubmitsUnreserved(w, p)
    ensures CursorInRange(w.pool) && p in Apply(w, s).rows && !SubmitsUnreserved(Apply(w, s), p)
  {
    assert CursorInRange(w.pool) && Dated(w);
    StepBooks(w, s, p);
    SlotInvPreserved(w, s);
    var w' := Apply(w, s);
    var c := w'.rows[p].cycle;
    assert c >= w.rows[p].cycle;
    hide SlotInv, BudgetInv, Apply, Written;
    forall j | 0 <= j < |w'.tasks| ensures !UnreservedAt(w'.tasks[j], p, c) {
      StepHolds(w, s, j);
      HoldsAreNotNewer(w, j, p);
      assert !UnreservedAt(w.tasks[j], p, w.rows[p].cycle);
    }
  }

  lemma {:induction false} GoodStepsAreTrue(w: World, steps: seq<Step>, p: PoolId)
    requires SlotInv(w.pool, w.tasks) && BudgetInv(w) && Possible(w, steps) && p in w.rows
    requires !SubmitsUnreserved(w, p) && GoodSteps(w, steps, p)
    ensures TrueSteps(w, steps, p)
    decreases |steps|
  {
    if steps != [] {
      GoodStepIsTrue(w, steps[0], p);
      GoodStepReserves(w, steps[0], p);
      SlotInvPreserved(w, steps[0]);
      BudgetInvPreserved(w, steps[0]);
      hide SlotInv, BudgetInv, Apply, SubmitsUnreserved, TrueStep;
      GoodStepsAreTrue(Apply(w, steps[0]), steps[1..], p);
    }
  }

  // In a state where a pool's total is right, it is right after every continuation with positive
  // estimates and honest answers if and only if no task is submitting with nothing reserved.
  lemma FeesAccountedIff(w: World, p: PoolId)
    requires SlotInv(w.pool, w.tasks) && BudgetInv(w) && p in w.rows && FeesAccounted(w, p)
    ensures (forall steps :: Possible(w, steps) && GoodSteps(w, steps, p) ==>
               p in Exec(w, steps).rows && FeesAccounted(Exec(w, steps), p))
        <==> !SubmitsUnreserved(w, p)
  {
    assert CursorInRange(w.pool);
    if SubmitsUnreserved(w, p) {
      var i :| 0 <= i < |w.tasks| && UnreservedAt(w.tasks[i], p, w.rows[p].cycle);
      hide SlotInv, BudgetInv, FeesAccounted, GoodSteps;
      UnreservedFeeIsLost(w, i, p, 1);
    } else {
      hide SlotInv, BudgetInv, FeesAccounted, GoodSteps, TrueSteps, AlwaysAccounted;
      forall steps | Possible(w, steps) && GoodSteps(w, steps, p)
        ensures p in Exec(w, steps).rows && FeesAccounted(Exec(w, steps), p)
      {
        GoodStepsAreTrue(w, steps, p);
        AlwaysAccountedIff(w, steps, p);
        AccountedAtTheEnd(w, steps, p);
      }
    }
  }

  lemma InvConserved(w: World, p: PoolId)
    requires BudgetInv(w) && p in w.rows
    ensures Conserved(w, p)
  {
  }

  lemma SingleStep(w: World, s: Step, p: PoolId)
    requires CursorInRange(w.pool) && Enabled(w, s)
    ensures Possible(w, [s]) && Exec(w, [s]) == Apply(w, s) && (GoodStep(w, s, p) ==> GoodSteps(w, [s], p))
  {
    hide Apply, Enabled;
    assert [s][1..] == [];
  }

  // ---------------------------------------------------------------- how fees are lost

  // The last answer of a task in its pool's cycle puts spent ahead, or behind, by what it gains
  // less what was paid.
  lemma LastAnswer(w: World, i: TaskId, p: PoolId, o: SubmitOutcome)
    requires SlotInv(w.pool, w.tasks) && BudgetInv(w) && p in w.rows
    requires i < |w.tasks| && Reserving(w.tasks[i].pc)
    requires w.tasks[i].pc.hold.pool == p && w.tasks[i].pc.hold.cycle == w.rows[p].cycle
    ensures var s := SubmitDone(i, o, StartThrows);
      && CursorInRange(w.pool) && Enabled(w, s) && p in Apply(w, s).rows
      && Ahead(Apply(w, s), p) == Ahead(w, p) + Gain(w.tasks[i].pc.hold.reserved, o) - o.paid
  {
    var s := SubmitDone(i, o, StartThrows);
    assert CursorInRange(w.pool) && Enabled(w, s);
    AheadMoves(w, s, p);
    AnswerKeepsCycle(w, i, p, o);
    hide SlotInv, BudgetInv, Apply, Ahead;
  }

  lemma AnswerKeepsCycle(w: World, i: TaskId, p: PoolId, o: SubmitOutcome)
    requires CursorInRange(w.pool) && p in w.rows && Enabled(w, SubmitDone(i, o, StartThrows))
    ensures var w' := Apply(w, SubmitDone(i, o, StartThrows)); p in w'.rows && w'.rows[p].cycle == w.rows[p].cycle
  {
    SettleShape(w, w.tasks[i].pc.hold, o);
    SettleKeepsTasks(w, w.tasks[i].pc.hold, o);
    LeaveKeepsBooks(Settle(w, w.tasks[i].pc.hold, o), i, w.tasks[i].pc.slot);
    hide Leave, Settle;
  }

  // Whatever a task that submits with nothing reserved is charged is left out.
  lemma UnreservedFeeIsLost(w: World, i: TaskId, p: PoolId, paid: nat)
    requires SlotInv(w.pool, w.tasks) && BudgetInv(w) && p in w.rows && FeesAccounted(w, p)
    requires i < |w.tasks| && UnreservedAt(w.tasks[i], p, w.rows[p].cycle) && paid > 0
    ensures var steps := [SubmitDone(i, Charged(true, paid), StartThrows)];
      && CursorInRange(w.pool) && Possible(w, steps) && GoodSteps(w, steps, p)
      && p in Exec(w, steps).rows && !FeesAccounted(Exec(w, steps), p)
  {
    LastAnswer(w, i, p, Charged(true, paid));
    hide SlotInv, BudgetInv, Apply, Enabled, Total, InFlight;
    SingleStep(w, SubmitDone(i, Charged(true, paid), StartThrows), p);
  }

  // A zero estimate leads there.
  lemma ZeroEstimateSubmitsUnreserved(w: World, i: TaskId)
    requires SlotInv(w.pool, w.tasks) && BudgetInv(w) && i < |w.tasks|
    requires w.tasks[i].pc.Simulating? && w.tasks[i].pc.pool.Some?
    requires var pc := w.tasks[i].pc; pc.pool.value in w.rows && CanReserve(w.rows[pc.pool.value], pc.cycle, 0)
    ensures var s := SimulationDone(i, Some(0)); var p := w.tasks[i].pc.pool.value;
      && CursorInRange(w.pool) && Enabled(w, s) && p in Apply(w, s).rows && SubmitsUnreserved(Apply(w, s), p)
  {
    assert CursorInRange(w.pool);
    var p := w.tasks[i].pc.pool.value;
    var w' := Apply(w, SimulationDone(i, Some(0)));
    assert UnreservedAt(w'.tasks[i], p, w'.rows[p].cycle);
  }

  // One contract without channel accounts: its key is resolved, its group simulated on pool p,
  // submitted and answered.
  function OneSubmission(p: PoolId, estimate: nat, o: SubmitOutcome): seq<Step> {
    UpToSubmission(p, estimate) + [SubmitDone(0, o, StartThrows)]
  }

  function UpToSubmission(p: PoolId, estimate: nat): seq<Step> {
    [Begin(0, true), PolicySecretDone(0, Some(Start(Some(p), false))), SimulationDone(0, Some(estimate))]
  }

  // A run that starts right, with room in the pool.
  ghost predicate ReadyFor(w: World, p: PoolId, estimate: nat) {
    && AtStart(w) && BudgetInv(w) && w.pool.keys == [] && |w.tasks| >= 1
    && p in w.rows && FeesAccounted(w, p) && RollOver(w.rows[p], w.now).spent + estimate <= w.rows[p].limit
  }

  lemma FirstSubmission(w: World, p: PoolId, estimate: nat)
    requires ReadyFor(w, p, estimate)
    ensures CursorInRange(w.pool) && Possible(w, UpToSubmission(p, estimate))
    ensures var e := Exec(w, UpToSubmission(p, estimate));
      && 0 < |e.tasks| && p in e.rows
      && e.tasks[0].pc == Submitting(None, w.tasks[0].groups, Hold(p, e.rows[p].cycle, estimate))
  {
    var s0, s1, s2 := Begin(0, true), PolicySecretDone(0, Some(Start(Some(p), false))), SimulationDone(0, Some(estimate));
    var w1 := Apply(w, s0);
    assert w1.tasks[0] == w.tasks[0].(pc := PolicySecret) && w1.rows == w.rows && w1.now == w.now;
    var w2 := Apply(w1, s1);
    assert w2.tasks[0] == w.tasks[0].(pc := Simulating(None, w.tasks[0].groups, Some(p), w.now));
    assert w2.rows[p] == RollOver(w.rows[p], w.now) && CanReserve(w2.rows[p], w.now, estimate);
    var w3 := Apply(w2, s2);
    assert w3.tasks[0].pc == Submitting(None, w.tasks[0].groups, Hold(p, w3.rows[p].cycle, estimate));
    ThreeSteps(w, s0, s1, s2);
  }

  lemma ThreeSteps(w: World, s0: Step, s1: Step, s2: Step)
    requires CursorInRange(w.pool) && Enabled(w, s0) && Enabled(Apply(w, s0), s1) && Enabled(Apply(Apply(w, s0), s1), s2)
    ensures Possible(w, [s0, s1, s2]) && Exec(w, [s0, s1, s2]) == Apply(Apply(Apply(w, s0), s1), s2)
  {
    hide Apply, Enabled;
    var w1 := Apply(w, s0);
    var w2 := Apply(w1, s1);
    assert [s0, s1, s2][1..] == [s1, s2] && [s1, s2][1..] == [s2] && [s2][1..] == [];
    SingleStep(w2, s2, 0);
    assert Possible(w1, [s1, s2]);
  }

  lemma {:induction false} ExecAppend(w: World, steps: seq<Step>, s: Step)
    requires CursorInRange(w.pool) && Possible(w, steps) && Enabled(Exec(w, steps), s)
    ensures Possible(w, steps + [s]) && Exec(w, steps + [s]) == Apply(Exec(w, steps), s)
    decreases |steps|
  {
    hide Apply, Enabled;
    if steps == [] {
      assert steps + [s] == [s] && [s][1..] == [];
    } else {
      assert (steps + [s])[1..] == steps[1..] + [s];
      ExecAppend(Apply(w, steps[0]), steps[1..], s);
    }
  }

  // Nothing but answers makes a step untrue.
  lemma {:induction false} NoAnswersAreTrue(w: World, steps: seq<Step>, p: PoolId)
    requires CursorInRange(w.pool) && Possible(w, steps) && forall s :: s in steps ==> !s.SubmitDone?
    ensures TrueSteps(w, steps, p)
    decreases |steps|
  {
    if steps != [] {
      assert steps[0] in steps;
      hide Apply, Enabled;
      NoAnswersAreTrue(Apply(w, steps[0]), steps[1..], p);
    }
  }

  // Such a run ends with spent ahead by what the answer gains less what was paid.
  lemma OneSubmissionEnds(w: World, p: PoolId, estimate: nat, o: SubmitOutcome)
    requires ReadyFor(w, p, estimate)
    ensures CursorInRange(w.pool) && Possible(w, OneSubmission(p, estimate, o))
    ensures var e := Exec(w, OneSubmission(p, estimate, o)); p in e.rows && Ahead(e, p) == Gain(estimate, o) - o.paid
  {
    var steps := UpToSubmission(p, estimate);
    StartSatisfiesSlotInv(w);
    FirstSubmission(w, p, estimate);
    NoAnswersAreTrue(w, steps, p);
    AlwaysAccountedIff(w, steps, p);
    AccountedAtTheEnd(w, steps, p);
    InvAlways(w, steps);
    var e := Exec(w, steps);
    hide SlotInv, BudgetInv, AtStart, Apply, Possible, Exec, Enabled, Total, InFlight, AlwaysAccounted, TrueSteps;
    LastAnswer(e, 0, p, o);
    ExecAppend(w, steps, SubmitDone(0, o, StartThrows));
  }

  // Polling gives up on a transaction that lands later, or the transaction fails in a ledger: the
  // reservation goes back, and the whole fee is missing from spent.
  lemma FeeOfARefusalIsLost(w: World, p: PoolId, estimate: nat, paid: nat)
    requires ReadyFor(w, p, estimate) && paid > 0
    ensures CursorInRange(w.pool) && Possible(w, OneSubmission(p, estimate, Refused(paid)))
    ensures var e := Exec(w, OneSubmission(p, estimate, Refused(paid)));
      p in e.rows && !FeesAccounted(e, p) && Ahead(e, p) + paid == 0
  {
    OneSubmissionEnds(w, p, estimate, Refused(paid));
    hide ReadyFor, Exec, Possible;
  }

  // A throw after the transaction was charged keeps the estimate instead of the fee.
  lemma ThrowKeepsTheEstimate(w: World, p: PoolId, estimate: nat, paid: nat)
    requires ReadyFor(w, p, estimate) && paid != estimate
    ensures CursorInRange(w.pool) && Possible(w, OneSubmission(p, estimate, Threw(paid)))
    ensures var e := Exec(w, OneSubmission(p, estimate, Threw(paid)));
      p in e.rows && !FeesAccounted(e, p) && Ahead(e, p) == estimate - paid
  {
    OneSubmissionEnds(w, p, estimate, Threw(paid));
    hide ReadyFor, Exec, Possible;
  }

  // With positive estimates and honest answers throughout, the totals of a run that starts right
  // are right at every point.
  lemma PositiveEstimatesAccountForAll(w: World, steps: seq<Step>, p: PoolId)
    requires AtStart(w) && BudgetInv(w) && p in w.rows && FeesAccounted(w, p)
    requires Possible(w, steps) && GoodSteps(w, steps, p)
    ensures AlwaysAccounted(w, steps, p)
  {
    StartSatisfiesSlotInv(w);
    assert !SubmitsUnreserved(w, p);
    hide SlotInv, BudgetInv, AtStart, FeesAccounted;
    GoodStepsAreTrue(w, steps, p);
    AlwaysAccountedIff(w, steps, p);
  }
}
