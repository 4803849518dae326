// Shared budget pools under concurrent extension tasks: conservation, the cap, exact refunds.
module EngineBudget {
  import opened Common
  import opened ChannelPool
  import opened SharedBudget
  import opened Engine
  import opened EngineSlots

  // ---------------------------------------------------------------- the books

  // Charges: what successes left in spent; Leftovers: what throws left; Overruns: by how much
  // successes exceeded their reservations; Paid: the fees paid, whatever the answer.
  datatype Measure = Charges | Leftovers | Overruns | Paid

  function Pos(x: int): nat {
    if x > 0 then x else 0
  }

  // What one event adds to a measure of pool p in cycle c.
  function Weight(m: Measure, e: Event, p: PoolId, c: nat): nat {
    if e.pool != p || e.cycle != c then 0
    else match m
      case Charges => if e.outcome.Charged? then Gain(e.reserved, e.outcome) else 0
      case Leftovers => if e.outcome.Threw? then e.reserved else 0
      case Overruns => if e.outcome.Charged? then Pos(Gain(e.reserved, e.outcome) - e.reserved) else 0
      case Paid => e.outcome.paid
  }

  function Total(m: Measure, log: seq<Event>, p: PoolId, c: nat): nat {
    if log == [] then 0
    else Total(m, log[..|log| - 1], p, c) + Weight(m, log[|log| - 1], p, c)
  }

  // What a task still has reserved in pool p for cycle c.
  function Reserved(t: Task, p: PoolId, c: nat): nat {
    if t.pc.Submitting? && t.pc.hold.Hold? && t.pc.hold.pool == p && t.pc.hold.cycle == c
    then t.pc.hold.reserved else 0
  }

  function InFlight(tasks: seq<Task>, p: PoolId, c: nat): nat {
    if tasks == [] then 0 else Reserved(tasks[0], p, c) + InFlight(tasks[1..], p, c)
  }

  // ---------------------------------------------------------------- the invariant

  ghost predicate Dated(w: World) {
    && (forall p :: p in w.rows ==> w.rows[p].cycle <= w.now)
    && (forall e :: e in w.log ==> e.pool in w.rows && e.cycle <= w.rows[e.pool].cycle)
    && (forall i :: 0 <= i < |w.tasks| ==>
          (var pc := w.tasks[i].pc;
           && (pc.Simulating? && pc.pool.Some? ==> pc.pool.value in w.rows && pc.cycle <= w.rows[pc.pool.value].cycle)
           && (pc.Submitting? && pc.hold.Hold? ==> pc.hold.pool in w.rows && pc.hold.cycle <= w.rows[pc.hold.pool].cycle)))
  }

  // spent = fees settled this cycle + reservations in flight + reservations left behind.
  ghost predicate Conserved(w: World, p: PoolId)
    requires p in w.rows
  {
    var r := w.rows[p];
    r.spent == Total(Charges, w.log, p, r.cycle) + InFlight(w.tasks, p, r.cycle) + Total(Leftovers, w.log, p, r.cycle)
  }

  ghost predicate Capped(w: World, p: PoolId)
    requires p in w.rows
  {
    w.rows[p].spent <= w.rows[p].limit + Total(Overruns, w.log, p, w.rows[p].cycle)
  }

  ghost predicate BudgetInv(w: World) {
    && Dated(w)
    && (forall p :: p in w.rows ==> Conserved(w, p) && Capped(w, p))
  }

  // ---------------------------------------------------------------- sums

  lemma TotalAppend(m: Measure, log: seq<Event>, e: Event, p: PoolId, c: nat)
    ensures Total(m, log + [e], p, c) == Total(m, log, p, c) + Weight(m, e, p, c)
  {
  }

  lemma {:induction false} TotalOfNewCycle(m: Measure, log: seq<Event>, p: PoolId, c: nat)
    requires forall e :: e in log && e.pool == p ==> e.cycle < c
    ensures Total(m, log, p, c) == 0
  {
    if log != [] {
      assert log[|log| - 1] in log;
      TotalOfNewCycle(m, log[..|log| - 1], p, c);
    }
  }

  lemma {:induction false} InFlightUpdate(tasks: seq<Task>, i: TaskId, t: Task, p: PoolId, c: nat)
    requires i < |tasks|
    ensures InFlight(tasks[i := t], p, c) == InFlight(tasks, p, c) - Reserved(tasks[i], p, c) + Reserved(t, p, c)
  {
    if i == 0 {
      assert tasks[i := t][1..] == tasks[1..];
    } else {
      assert tasks[i := t][1..] == tasks[1..][i - 1 := t];
      InFlightUpdate(tasks[1..], i - 1, t, p, c);
    }
  }

  lemma {:induction false} InFlightOfNewCycle(tasks: seq<Task>, p: PoolId, c: nat)
    requires forall i :: 0 <= i < |tasks| ==> Reserved(tasks[i], p, c) == 0
    ensures InFlight(tasks, p, c) == 0
  {
    if tasks != [] {
      assert forall i :: 0 <= i < |tasks| - 1 ==> tasks[1..][i] == tasks[i + 1];
      InFlightOfNewCycle(tasks[1..], p, c);
    }
  }

  lemma {:induction false} InFlightAtLeast(tasks: seq<Task>, i: TaskId, p: PoolId, c: nat)
    requires i < |tasks|
    ensures InFlight(tasks, p, c) >= Reserved(tasks[i], p, c)
  {
    if i > 0 {
      InFlightAtLeast(tasks[1..], i - 1, p, c);
    }
  }

  // ---------------------------------------------------------------- the parts of a step

  predicate Reserving(pc: Pc) {
    pc.Submitting? && pc.hold.Hold?
  }

  ghost predicate PcDated(w: World, pc: Pc) {
    && (pc.Simulating? && pc.pool.Some? ==> pc.pool.value in w.rows && pc.cycle <= w.rows[pc.pool.value].cycle)
    && !Reserving(pc)
  }

  // A task without a reservation moves on without one.
  lemma PlainMove(w: World, i: TaskId, t: Task, q: Pool)
    requires BudgetInv(w) && i < |w.tasks| && !Reserving(w.tasks[i].pc) && PcDated(w, t.pc)
    ensures BudgetInv(w.(pool := q, tasks := w.tasks[i := t]))
  {
    forall p | p in w.rows ensures InFlight(w.tasks[i := t], p, w.rows[p].cycle) == InFlight(w.tasks, p, w.rows[p].cycle) {
      InFlightUpdate(w.tasks, i, t, p, w.rows[p].cycle);
    }
  }

  // Rolling a stale pool over closes its books: nothing recorded, nothing in flight.
  lemma RollOverMove(w: World, p: PoolId)
    requires BudgetInv(w) && p in w.rows
    ensures BudgetInv(w.(rows := w.rows[p := RollOver(w.rows[p], w.now)]))
  {
    if w.rows[p].cycle != w.now {
      TotalOfNewCycle(Charges, w.log, p, w.now);
      TotalOfNewCycle(Leftovers, w.log, p, w.now);
      InFlightOfNewCycle(w.tasks, p, w.now);
    }
  }

  lemma ReserveMove(w: World, i: TaskId, estimate: nat)
    requires BudgetInv(w) && CursorInRange(w.pool) && i < |w.tasks|
    requires w.tasks[i].pc.Simulating? && w.tasks[i].pc.pool.Some? && w.tasks[i].pc.pool.value in w.rows
    requires CanReserve(w.rows[w.tasks[i].pc.pool.value], w.tasks[i].pc.cycle, estimate)
    ensures BudgetInv(Apply(w, SimulationDone(i, Some(estimate))))
  {
    var pc := w.tasks[i].pc;
    var p := pc.pool.value;
    var t := w.tasks[i].(pc := Submitting(pc.slot, pc.left, Hold(p, pc.cycle, estimate)));
    forall q | q in w.rows
      ensures InFlight(w.tasks[i := t], q, w.rows[q].cycle)
           == InFlight(w.tasks, q, w.rows[q].cycle) + (if q == p then estimate else 0)
    {
      InFlightUpdate(w.tasks, i, t, q, w.rows[q].cycle);
    }
  }

  // Settling a submission, then forgetting its reservation.
  function Settled'(w: World, i: TaskId, o: SubmitOutcome): World
    requires i < |w.tasks| && w.tasks[i].pc.Submitting?
    requires w.tasks[i].pc.hold.Hold? ==> w.tasks[i].pc.hold.pool in w.rows
  {
    var w1 := Settle(w, w.tasks[i].pc.hold, o);
    w1.(tasks := w1.tasks[i := w1.tasks[i].(pc := w1.tasks[i].pc.(hold := NoHold))])
  }

  // What an outcome writes into the books.
  function Booked(h: Hold, o: SubmitOutcome): seq<Event> {
    if h.NoHold? then [] else [Ended(h.pool, h.cycle, h.reserved, o)]
  }

  function Growth(m: Measure, h: Hold, o: SubmitOutcome, p: PoolId, c: nat): nat {
    if Booked(h, o) == [] then 0 else Weight(m, Booked(h, o)[0], p, c)
  }

  lemma BooksGrow(m: Measure, log: seq<Event>, h: Hold, o: SubmitOutcome, p: PoolId, c: nat)
    ensures Total(m, log + Booked(h, o), p, c) == Total(m, log, p, c) + Growth(m, h, o, p, c)
  {
    if Booked(h, o) == [] {
      assert log + [] == log;
    } else {
      assert Booked(h, o) == [Booked(h, o)[0]];
      TotalAppend(m, log, Booked(h, o)[0], p, c);
    }
  }

  // The row of pool p after task's outcome.
  function RowAfter(r: Row, h: Hold, o: SubmitOutcome, p: PoolId): Row {
    if h.NoHold? || h.pool != p || h.reserved == 0 then r
    else match o
      case Charged(reported, paid) => Add(r, h.cycle, (if reported then paid else h.reserved) - h.reserved)
      case Refused(_) => Refund(r, h.cycle, h.reserved)
      case Threw(_) => r
  }

  // One row against its books: x in flight for this task, y for all the others.
  lemma RowSettles(r: Row, h: Hold, o: SubmitOutcome, p: PoolId, x: nat, y: nat,
                   charges: nat, leftovers: nat, overruns: nat)
    requires x == (if h.Hold? && h.pool == p && h.cycle == r.cycle then h.reserved else 0)
    requires r.spent == charges + (x + y) + leftovers && r.spent <= r.limit + overruns
    ensures var r' := RowAfter(r, h, o, p);
      && r'.cycle == r.cycle && r'.limit == r.limit
      && r'.spent == (charges + Growth(Charges, h, o, p, r.cycle)) + y
                     + (leftovers + Growth(Leftovers, h, o, p, r.cycle))
      && r'.spent <= r.limit + (overruns + Growth(Overruns, h, o, p, r.cycle))
  {
  }

  lemma SettleShape(w: World, h: Hold, o: SubmitOutcome)
    requires h.Hold? ==> h.pool in w.rows
    ensures Settle(w, h, o).log == w.log + Booked(h, o) && Settle(w, h, o).tasks == w.tasks
    ensures Settle(w, h, o).rows.Keys == w.rows.Keys && Settle(w, h, o).now == w.now
    ensures forall p :: p in w.rows ==> Settle(w, h, o).rows[p] == RowAfter(w.rows[p], h, o, p)
  {
  }

  lemma SettledShape(w: World, i: TaskId, o: SubmitOutcome, p: PoolId)
    requires i < |w.tasks| && w.tasks[i].pc.Submitting? && p in w.rows
    requires w.tasks[i].pc.hold.Hold? ==> w.tasks[i].pc.hold.pool in w.rows
    ensures var h, w' := w.tasks[i].pc.hold, Settled'(w, i, o);
      && p in w'.rows && w'.rows[p] == RowAfter(w.rows[p], h, o, p) && w'.log == w.log + Booked(h, o)
      && forall c: nat :: InFlight(w'.tasks, p, c) == InFlight(w.tasks, p, c) - Reserved(w.tasks[i], p, c)
  {
    SettleShape(w, w.tasks[i].pc.hold, o);
    hide Settle, InFlight, RowAfter, Booked;
    var w' := Settled'(w, i, o);
    forall c: nat ensures InFlight(w'.tasks, p, c) == InFlight(w.tasks, p, c) - Reserved(w.tasks[i], p, c) {
      InFlightUpdate(w.tasks, i, w'.tasks[i], p, c);
    }
  }

  lemma SettledBooks(w: World, i: TaskId, o: SubmitOutcome, p: PoolId)
    requires BudgetInv(w) && i < |w.tasks| && w.tasks[i].pc.Submitting? && p in w.rows
    ensures p in Settled'(w, i, o).rows && Conserved(Settled'(w, i, o), p) && Capped(Settled'(w, i, o), p)
  {
    var h, c := w.tasks[i].pc.hold, w.rows[p].cycle;
    assert Conserved(w, p) && Capped(w, p) && (h.Hold? ==> h.pool in w.rows);
    hide BudgetInv, InFlight, Total, Weight, Growth, Booked, RowAfter, Settled', Dated;
    SettledShape(w, i, o, p);
    InFlightAtLeast(w.tasks, i, p, c);
    BooksGrow(Charges, w.log, h, o, p, c);
    BooksGrow(Leftovers, w.log, h, o, p, c);
    BooksGrow(Overruns, w.log, h, o, p, c);
    RowSettles(w.rows[p], h, o, p, Reserved(w.tasks[i], p, c),
      InFlight(w.tasks, p, c) - Reserved(w.tasks[i], p, c),
      Total(Charges, w.log, p, c), Total(Leftovers, w.log, p, c), Total(Overruns, w.log, p, c));
  }

  lemma SettleKeepsDates(w: World, i: TaskId, o: SubmitOutcome)
    requires Dated(w) && i < |w.tasks| && w.tasks[i].pc.Submitting?
    ensures Dated(Settled'(w, i, o)) && Settled'(w, i, o).rows.Keys == w.rows.Keys
  {
    var h := w.tasks[i].pc.hold;
    var w' := Settled'(w, i, o);
    SettleShape(w, h, o);
    hide Settle;
    assert forall p :: p in w.rows ==> w'.rows[p].cycle == w.rows[p].cycle;
    forall e | e in w'.log ensures e.pool in w'.rows && e.cycle <= w'.rows[e.pool].cycle {
      if e !in w.log {
        assert e in Booked(h, o);
      }
    }
  }

  lemma SettleMove(w: World, i: TaskId, o: SubmitOutcome)
    requires BudgetInv(w) && i < |w.tasks| && w.tasks[i].pc.Submitting?
    ensures BudgetInv(Settled'(w, i, o))
  {
    SettleKeepsDates(w, i, o);
    forall p | p in w.rows ensures Conserved(Settled'(w, i, o), p) && Capped(Settled'(w, i, o), p) {
      SettledBooks(w, i, o, p);
    }
    hide Conserved, Capped, Dated, Settled';
  }

  // ---------------------------------------------------------------- whole steps

  lemma LeaveMove(w: World, i: TaskId, slot: Option<Key>)
    requires BudgetInv(w) && SlotInv(w.pool, w.tasks) && i < |w.tasks| && Held(w.tasks[i]) == slot
    requires !Reserving(w.tasks[i].pc) && !w.tasks[i].pc.Waiting?
    ensures BudgetInv(Leave(w, i, slot))
  {
    hide BudgetInv;
    if slot.Some? {
      VacateMove(w, i, slot.value, Done);
    } else {
      PlainMove(w, i, w.tasks[i].(pc := Done), w.pool);
    }
  }

  // Giving an account back touches no budget, nor does the one it wakes.
  lemma VacateMove(w: World, i: TaskId, key: Key, pc: Pc)
    requires BudgetInv(w) && SlotInv(w.pool, w.tasks) && i < |w.tasks| && Held(w.tasks[i]) == Some(key)
    requires !Reserving(w.tasks[i].pc) && (pc.Done? || pc.PolicySecret?)
    ensures BudgetInv(Vacate(w, i, key, pc))
  {
    hide BudgetInv, SlotInv, AfterRelease, Wake, Held;
    CursorIsInRange(w.pool, w.tasks);
    OnlyWaitersAreWoken(w.pool, w.tasks, i);
    var (q, g) := AfterRelease(w.pool, key);
    GiveBackMove(w, i, pc, q, g);
  }

  lemma GiveBackMove(w: World, i: TaskId, pc: Pc, q: Pool, g: Option<Grant>)
    requires BudgetInv(w) && i < |w.tasks| && !Reserving(w.tasks[i].pc) && (pc.Done? || pc.PolicySecret?)
    requires g.Some? ==> g.value.ticket < |w.tasks| && w.tasks[g.value.ticket].pc.Waiting?
    ensures BudgetInv(w.(pool := q, tasks := Wake(GaveBack(w.tasks, i, pc), g)))
  {
    hide BudgetInv, Wake;
    var mid := w.(tasks := GaveBack(w.tasks, i, pc));
    PlainMove(w, i, mid.tasks[i], w.pool);
    assert mid == w.(pool := w.pool, tasks := mid.tasks);
    WakeMove(mid, g, q);
  }

  lemma WakeMove(w: World, g: Option<Grant>, q: Pool)
    requires BudgetInv(w)
    requires g.Some? && g.value.ticket < |w.tasks| ==> !Reserving(w.tasks[g.value.ticket].pc)
    ensures BudgetInv(w.(pool := q, tasks := Wake(w.tasks, g)))
  {
    if g.Some? && g.value.ticket < |w.tasks| {
      PlainMove(w, g.value.ticket, Wake(w.tasks, g)[g.value.ticket], q);
    }
  }

  lemma StartGroupMove(w: World, i: TaskId, slot: Option<Key>, left: nat, s: GroupStart)
    requires BudgetInv(w) && SlotInv(w.pool, w.tasks) && i < |w.tasks| && Held(w.tasks[i]) == slot
    requires !Reserving(w.tasks[i].pc) && !w.tasks[i].pc.Waiting? && GroupOk(w, s)
    ensures BudgetInv(StartGroup(w, i, slot, left, s))
  {
    if s.StartThrows? {
      LeaveMove(w, i, slot);
    } else {
      var t := StartGroup(w, i, slot, left, s).tasks[i];
      var w1 := w;
      if s.shared.Some? {
        RollOverMove(w, s.shared.value);
        w1 := w.(rows := w.rows[s.shared.value := RollOver(w.rows[s.shared.value], w.now)]);
      }
      PlainMove(w1, i, t, w.pool);
    }
  }

  lemma BudgetInvPreserved(w: World, s: Step)
    requires BudgetInv(w) && SlotInv(w.pool, w.tasks) && Enabled(w, s)
    ensures BudgetInv(Apply(w, s)) && Apply(w, s).rows.Keys == w.rows.Keys
  {
    PoolsStay(w, s);
    hide BudgetInv, SlotInv, AfterRelease, AfterAcquire;
    match s
    case Tick(c) => TickMove(w, c);
    case Begin(i, proceed) => BeginMove(w, i, proceed);
    case SlotSecretDone(i, o) => SlotSecretDoneMove(w, i, o);
    case PolicySecretDone(i, o) =>
      LeaveMove(w, i, None);
      if o.Some? {
        StartGroupMove(w, i, None, w.tasks[i].groups, o.value);
      }
    case SimulationDone(i, estimate) => SimulationDoneMove(w, i, estimate);
    case SubmitDone(i, outcome, next) => SubmitDoneMove(w, i, outcome, next);
  }

  // No step adds or drops a shared pool.
  lemma PoolsStay(w: World, s: Step)
    requires SlotInv(w.pool, w.tasks) && Enabled(w, s)
    ensures CursorInRange(w.pool) && Apply(w, s).rows.Keys == w.rows.Keys
  {
    assert CursorInRange(w.pool);
    hide SlotInv, AfterRelease, AfterAcquire, Wake;
    if s.SubmitDone? {
      SettleShape(w, w.tasks[s.i].pc.hold, s.outcome);
    }
    hide Settle;
  }

  lemma TickMove(w: World, c: nat)
    requires BudgetInv(w) && c >= w.now
    ensures BudgetInv(w.(now := c))
  {
  }

  lemma BeginMove(w: World, i: TaskId, proceed: bool)
    requires BudgetInv(w) && SlotInv(w.pool, w.tasks) && Enabled(w, Begin(i, proceed))
    ensures BudgetInv(Apply(w, Begin(i, proceed)))
  {
    var w' := Apply(w, Begin(i, proceed));
    PlainMove(w, i, w'.tasks[i], w'.pool);
  }

  lemma SlotSecretDoneMove(w: World, i: TaskId, o: SlotOutcome)
    requires BudgetInv(w) && SlotInv(w.pool, w.tasks) && Enabled(w, SlotSecretDone(i, o))
    ensures BudgetInv(Apply(w, SlotSecretDone(i, o)))
  {
    var key := w.tasks[i].pc.key;
    assert CursorInRange(w.pool);
    hide BudgetInv, SlotInv, Vacate, StartGroup;
    match o
    case Missing => VacateMove(w, i, key, PolicySecret);
    case LowOrUnknownBalance => VacateMove(w, i, key, Done);
    case Usable(start) => StartGroupMove(w, i, Some(key), w.tasks[i].groups, start);
    case Crash => PlainMove(w, i, w.tasks[i].(pc := Crashed(key)), w.pool);
  }

  lemma SimulationDoneMove(w: World, i: TaskId, estimate: Option<nat>)
    requires BudgetInv(w) && SlotInv(w.pool, w.tasks) && Enabled(w, SimulationDone(i, estimate))
    ensures BudgetInv(Apply(w, SimulationDone(i, estimate)))
  {
    var pc := w.tasks[i].pc;
    LeaveMove(w, i, pc.slot);
    if estimate.Some? {
      if pc.pool.None? {
        PlainMove(w, i, w.tasks[i].(pc := Submitting(pc.slot, pc.left, NoHold)), w.pool);
      } else if CanReserve(w.rows[pc.pool.value], pc.cycle, estimate.value) {
        ReserveMove(w, i, estimate.value);
      }
    }
  }

  // A submission's end is: settle and forget the reservation, then go on or leave.
  lemma SubmitDoneSplits(w: World, i: TaskId, o: SubmitOutcome, next: GroupStart)
    requires CursorInRange(w.pool) && Enabled(w, SubmitDone(i, o, next))
    ensures var pc, w2 := w.tasks[i].pc, Settled'(w, i, o);
      && i < |w2.tasks| && w2.pool == w.pool && w2.rows.Keys == w.rows.Keys
      && w2.tasks == SetPc(w.tasks, i, pc.(hold := NoHold))
      && Apply(w, SubmitDone(i, o, next))
         == if !o.Threw? && pc.left > 1 then StartGroup(w2, i, pc.slot, pc.left - 1, next) else Leave(w2, i, pc.slot)
  {
    var pc := w.tasks[i].pc;
    var w1, w2 := Settle(w, pc.hold, o), Settled'(w, i, o);
    SettleShape(w, pc.hold, o);
    hide Settle;
    assert w1.tasks == w.tasks && SameButPc(w1, w2, i);
    if !o.Threw? && pc.left > 1 {
      StartForgetsPc(w1, w2, i, pc.slot, pc.left - 1, next);
    } else {
      LeaveForgetsPc(w1, w2, i, pc.slot);
    }
  }

  lemma SubmitDoneMove(w: World, i: TaskId, o: SubmitOutcome, next: GroupStart)
    requires BudgetInv(w) && SlotInv(w.pool, w.tasks) && Enabled(w, SubmitDone(i, o, next))
    ensures BudgetInv(Apply(w, SubmitDone(i, o, next))) && Apply(w, SubmitDone(i, o, next)).rows.Keys == w.rows.Keys
  {
    assert CursorInRange(w.pool) && Dated(w);
    hide BudgetInv, SlotInv, Settled', Apply, Leave, StartGroup;
    var pc, w2 := w.tasks[i].pc, Settled'(w, i, o);
    SubmitDoneSplits(w, i, o, next);
    SettleMove(w, i, o);
    QuietStep(w.pool, w.tasks, i, pc.(hold := NoHold));
    if !o.Threw? && pc.left > 1 {
      StartGroupMove(w2, i, pc.slot, pc.left - 1, next);
    } else {
      LeaveMove(w2, i, pc.slot);
    }
  }

  // Leaving or starting a group overwrites where task i was.
  ghost predicate SameButPc(w1: World, w2: World, i: TaskId) {
    && i < |w1.tasks| == |w2.tasks|
    && w2 == w1.(tasks := w1.tasks[i := w1.tasks[i].(pc := w2.tasks[i].pc)])
  }

  lemma LeaveForgetsPc(w1: World, w2: World, i: TaskId, slot: Option<Key>)
    requires CursorInRange(w1.pool) && i < |w1.tasks| == |w2.tasks| && SameButPc(w1, w2, i)
    ensures Leave(w1, i, slot) == Leave(w2, i, slot)
  {
  }

  lemma StartForgetsPc(w1: World, w2: World, i: TaskId, slot: Option<Key>, left: nat, s: GroupStart)
    requires CursorInRange(w1.pool) && i < |w1.tasks| == |w2.tasks| && SameButPc(w1, w2, i) && GroupOk(w1, s)
    ensures StartGroup(w1, i, slot, left, s) == StartGroup(w2, i, slot, left, s)
  {
    LeaveForgetsPc(w1, w2, i, slot);
    if s.Start? {
      var pc := StartGroup(w1, i, slot, left, s).tasks[i].pc;
      assert SetPc(w1.tasks, i, pc) == SetPc(w2.tasks, i, pc);
    }
  }
}
