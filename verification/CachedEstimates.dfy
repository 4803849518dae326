// What a task of the engine makes of a cached simulation (src/core/extension.ts, the functions
// simulateExtension and runAutoExtensions).
module CachedEstimates {
  import opened Common
  import opened ChannelPool
  import opened SharedBudget
  import opened Engine
  import opened EngineSlots
  import opened EngineBudget
  import opened EngineFees
  import SimulationCache

  type SimulationResult = SimulationCache.SimulationResult

  // The fee estimate that a settled promise leads to; a rejection ends the task. Nobody looks at
  // whether the simulation succeeded.
  function Estimate(settled: Option<SimulationResult>): Option<nat> {
    match settled
    case None => None
    case Some(r) => Some(SimulationCache.MinResourceFee(r))
  }

  // Whatever a cache hands out for a failed simulation, if its pool is not exhausted the task
  // submits with nothing reserved; so it does exactly for results whose fee is 0.
  lemma HitSubmitsUnreservedIff(
    w: World, i: TaskId, ttl: int, es: seq<SimulationCache.Event>, q: SimulationCache.Query, now: int, f: nat)
    requires SlotInv(w.pool, w.tasks) && BudgetInv(w) && i < |w.tasks|
    requires w.tasks[i].pc.Simulating? && w.tasks[i].pc.pool.Some? && w.tasks[i].pc.pool.value in w.rows
    requires SimulationCache.Get(SimulationCache.Run(ttl, es), q, now, f).1.Hit?
    ensures var r := SimulationCache.Get(SimulationCache.Run(ttl, es), q, now, f).1.result;
      var pc, s := w.tasks[i].pc, SimulationDone(i, Estimate(Some(r))); var p := pc.pool.value;
      && CursorInRange(w.pool) && Enabled(w, s) && p in Apply(w, s).rows
      && (CanReserve(w.rows[p], pc.cycle, SimulationCache.MinResourceFee(r)) ==>
            var t := Apply(w, s).tasks;
            && i < |t| && t[i].pc.Submitting?
            && (UnreservedAt(t[i], p, w.rows[p].cycle) <==> r.SimulationError? || r == SimulationCache.Simulated(0)))
      && (r.SimulationError? && CanReserve(w.rows[p], pc.cycle, 0) ==> SubmitsUnreserved(Apply(w, s), p))
  {
    var r := SimulationCache.Get(SimulationCache.Run(ttl, es), q, now, f).1.result;
    hide SimulationCache.Get, SimulationCache.Run;
    assert CursorInRange(w.pool);
    var pc, s := w.tasks[i].pc, SimulationDone(i, Estimate(Some(r)));
    PoolsStay(w, s);
    if r.SimulationError? && CanReserve(w.rows[pc.pool.value], pc.cycle, 0) {
      ZeroEstimateSubmitsUnreserved(w, i);
    }
    hide SlotInv, BudgetInv, SubmitsUnreserved, Leave;
  }

  // End to end: a simulation fails and is cached; a second call within the TTL hits it, reserves
  // nothing, submits, and is charged; the whole fee is missing from spent.
  lemma CachedFailureLosesTheFee(
    w: World, p: PoolId, paid: nat, ttl: int, q: SimulationCache.Query, now: int, f: nat)
    requires ReadyFor(w, p, 0) && paid > 0 && now - 1 < ttl
    ensures var failed := SimulationCache.SimulationError;
      var es := [SimulationCache.GetEvent(q, 0, 0), SimulationCache.ResolveEvent(0, failed, 1)];
      && SimulationCache.Possible(ttl, es)
      && SimulationCache.Get(SimulationCache.Run(ttl, es), q, now, f).1 == SimulationCache.Hit(failed)
      && Estimate(Some(failed)) == Some(0)
    ensures var steps := OneSubmission(p, 0, Charged(true, paid));
      && CursorInRange(w.pool) && Possible(w, steps)
      && p in Exec(w, steps).rows && !FeesAccounted(Exec(w, steps), p) && Ahead(Exec(w, steps), p) + paid == 0
  {
    SimulationCache.FailedSimulationIsHit(ttl, q, q, now, f);
    OneSubmissionEnds(w, p, 0, Charged(true, paid));
    hide ReadyFor, Exec, Possible, SimulationCache.Possible, SimulationCache.Get, SimulationCache.Run;
  }
}
