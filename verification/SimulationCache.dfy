// The footprint-keyed simulation cache (src/core/simulation_cache.ts): TTL, token check,
// single flight, invalidation. A promise is a flight that settles in a later step.
module SimulationCache {
  type Hash = nat          // SHA-256 of the sorted footprint, taken as injective
  type FlightId = nat

  // What the fallback resolves with. A simulation that the RPC answers with an error resolves
  // too (src/rpc/client.ts:821-827); it rejects only if the RPC calls themselves fail.
  datatype SimulationResult = Simulated(fee: nat) | SimulationError

  function MinResourceFee(r: SimulationResult): nat {
    match r
    case Simulated(fee) => fee
    case SimulationError => 0
  }

  // A call of getSimulation. The fallback also uses target (extendToLedgers) and source
  // (sourcePublicKey), which the cache does not see.
  datatype Query = Query(hash: Hash, wasm: string, instance: string, target: int, source: string)

  datatype CacheEntry = CacheEntry(result: SimulationResult, wasm: string, instance: string, cachedAt: int)

  // flights: the simulations running, each with the query that started it.
  datatype Cache = Cache(
    ttl: int,
    entries: map<Hash, CacheEntry>,
    pending: map<Hash, FlightId>,
    flights: map<FlightId, Query>,
    rpcCalls: nat)

  datatype Reply = Hit(result: SimulationResult) | Joined(flight: FlightId) | Started(flight: FlightId)

  function Empty(ttl: int): Cache {
    Cache(ttl, map[], map[], map[], 0)
  }

  // ---------------------------------------------------------------- operations

  predicate IsHit(c: Cache, q: Query, now: int) {
    && q.hash in c.entries
    && c.entries[q.hash].wasm == q.wasm
    && c.entries[q.hash].instance == q.instance
    && now - c.entries[q.hash].cachedAt < c.ttl
  }

  // f names the new promise, should one be created.
  function Get(c: Cache, q: Query, now: int, f: FlightId): (Cache, Reply) {
    if IsHit(c, q, now) then (c, Hit(c.entries[q.hash].result))
    else
      var entries := if q.hash in c.entries && now - c.entries[q.hash].cachedAt >= c.ttl
        then c.entries - {q.hash} else c.entries;
      if q.hash in c.pending then (c.(entries := entries), Joined(c.pending[q.hash]))
      else
        (c.(entries := entries, pending := c.pending[q.hash := f], flights := c.flights[f := q], rpcCalls := c.rpcCalls + 1),
         Started(f))
  }

  // Flight f ends with a result: cached under the tokens of the query that started it.
  function Resolve(c: Cache, f: FlightId, result: SimulationResult, now: int): Cache {
    if f !in c.flights then c
    else
      var q := c.flights[f];
      c.(entries := c.entries[q.hash := CacheEntry(result, q.wasm, q.instance, now)],
         pending := c.pending - {q.hash},
         flights := c.flights - {f})
  }

  function Reject(c: Cache, f: FlightId): Cache {
    if f !in c.flights then c
    else c.(pending := c.pending - {c.flights[f].hash}, flights := c.flights - {f})
  }

  function Invalidate(c: Cache, h: Hash): Cache {
    c.(entries := c.entries - {h})
  }

  function ClearAll(c: Cache): Cache {
    c.(entries := map[])
  }

  // ---------------------------------------------------------------- histories

  datatype Event =
    | GetEvent(query: Query, now: int, flight: FlightId)
    | ResolveEvent(flight: FlightId, result: SimulationResult, now: int)
    | RejectEvent(flight: FlightId)
    | InvalidateEvent(hash: Hash)
    | ClearEvent

  function Step(c: Cache, e: Event): Cache {
    match e
    case GetEvent(q, now, f) => Get(c, q, now, f).0
    case ResolveEvent(f, result, now) => Resolve(c, f, result, now)
    case RejectEvent(f) => Reject(c, f)
    case InvalidateEvent(h) => Invalidate(c, h)
    case ClearEvent => ClearAll(c)
  }

  function Run(ttl: int, es: seq<Event>): Cache {
    if es == [] then Empty(ttl) else Step(Run(ttl, es[..|es| - 1]), es[|es| - 1])
  }

  // Every created promise is new, and only running flights settle.
  ghost predicate Possible(ttl: int, es: seq<Event>) {
    es == [] ||
    var front, e := es[..|es| - 1], es[|es| - 1];
    && Possible(ttl, front)
    && match e
       case GetEvent(_, _, f) => NewFlight(front, f)
       case ResolveEvent(f, _, _) => f in Run(ttl, front).flights
       case RejectEvent(f) => f in Run(ttl, front).flights
       case _ => true
  }

  ghost predicate NewFlight(es: seq<Event>, f: FlightId) {
    forall e :: e in es && e.GetEvent? ==> e.flight != f
  }

  // ---------------------------------------------------------------- single flight

  // pending and the running flights are the same relation: one flight per footprint.
  ghost predicate SingleFlight(c: Cache) {
    && (forall h :: h in c.pending ==> c.pending[h] in c.flights && c.flights[c.pending[h]].hash == h)
    && (forall f :: f in c.flights ==> c.flights[f].hash in c.pending && c.pending[c.flights[f].hash] == f)
  }

  lemma {:induction false} FlightsWereAsked(ttl: int, es: seq<Event>)
    ensures forall f :: f in Run(ttl, es).flights ==> !NewFlight(es, f)
  {
    if es != [] {
      FlightsWereAsked(ttl, es[..|es| - 1]);
      assert es[|es| - 1] in es;
      assert forall e :: e in es[..|es| - 1] ==> e in es;
    }
  }

  lemma {:induction false} AlwaysSingleFlight(ttl: int, es: seq<Event>)
    requires Possible(ttl, es)
    ensures SingleFlight(Run(ttl, es))
  {
    if es != [] {
      AlwaysSingleFlight(ttl, es[..|es| - 1]);
      FlightsWereAsked(ttl, es[..|es| - 1]);
    }
  }

  lemma AtMostOneFlightPerFootprint(ttl: int, es: seq<Event>, f: FlightId, g: FlightId)
    requires Possible(ttl, es) && f in Run(ttl, es).flights && g in Run(ttl, es).flights
    requires Run(ttl, es).flights[f].hash == Run(ttl, es).flights[g].hash
    ensures f == g
  {
    AlwaysSingleFlight(ttl, es);
  }

  function Settlements(es: seq<Event>): nat {
    if es == [] then 0
    else Settlements(es[..|es| - 1]) + (if es[|es| - 1].ResolveEvent? || es[|es| - 1].RejectEvent? then 1 else 0)
  }

  // Every counted RPC call has resolved, been rejected, or is still running.
  lemma {:induction false} RpcCallsBalance(ttl: int, es: seq<Event>)
    requires Possible(ttl, es)
    ensures Run(ttl, es).rpcCalls == Settlements(es) + |Run(ttl, es).flights|
  {
    if es != [] {
      var front, e := es[..|es| - 1], es[|es| - 1];
      RpcCallsBalance(ttl, front);
      FlightsWereAsked(ttl, front);
      var c := Run(ttl, front);
      match e
      case GetEvent(q, now, f) =>
        assert f !in c.flights;
      case ResolveEvent(f, _, _) =>
        assert c.flights == Reject(c, f).flights[f := c.flights[f]];
      case RejectEvent(f) =>
        assert c.flights == Reject(c, f).flights[f := c.flights[f]];
      case _ =>
    }
  }

  // ---------------------------------------------------------------- provenance of entries

  predicate Removes(e: Event, h: Hash) {
    e.ClearEvent? || (e.InvalidateEvent? && e.hash == h)
  }

  // Event m put the entry there, and nothing has removed or replaced it since.
  ghost predicate CachedBy(ttl: int, es: seq<Event>, h: Hash, m: nat) {
    && m < |es| && es[m].ResolveEvent?
    && es[m].flight in Run(ttl, es[..m]).flights
    && h in Run(ttl, es).entries
    && (var q, x := Run(ttl, es[..m]).flights[es[m].flight], Run(ttl, es).entries[h];
        q.hash == h && x == CacheEntry(es[m].result, q.wasm, q.instance, es[m].now))
    && (forall k :: m < k < |es| ==> !Removes(es[k], h))
  }

  lemma StillCachedBy(ttl: int, es: seq<Event>, h: Hash, m: nat)
    requires es != [] && CachedBy(ttl, es[..|es| - 1], h, m) && !Removes(es[|es| - 1], h)
    requires h in Run(ttl, es).entries && Run(ttl, es).entries[h] == Run(ttl, es[..|es| - 1]).entries[h]
    ensures CachedBy(ttl, es, h, m)
  {
    hide Run;
    var front := es[..|es| - 1];
    assert front[..m] == es[..m];
    assert forall k :: m < k < |front| ==> es[k] == front[k];
  }

  // Whatever is cached came from a simulation that resolved for the same footprint and tokens,
  // and was not invalidated since. Rejections leave nothing behind.
  lemma {:induction false} EveryEntryHasASource(ttl: int, es: seq<Event>, h: Hash)
    requires Possible(ttl, es) && h in Run(ttl, es).entries
    ensures exists m: nat :: CachedBy(ttl, es, h, m)
  {
    var front, e := es[..|es| - 1], es[|es| - 1];
    var c := Run(ttl, front);
    if e.ResolveEvent? && c.flights[e.flight].hash == h {
      assert CachedBy(ttl, es, h, |es| - 1);
    } else {
      assert h in c.entries && c.entries[h] == Run(ttl, es).entries[h];
      assert !Removes(e, h);
      EveryEntryHasASource(ttl, front, h);
      var m: nat :| CachedBy(ttl, front, h, m);
      hide Possible;
      StillCachedBy(ttl, es, h, m);
    }
  }

  // Event m is where a hit for q at time now comes from.
  ghost predicate HitFrom(ttl: int, es: seq<Event>, q: Query, now: int, result: SimulationResult, m: nat) {
    && CachedBy(ttl, es, q.hash, m)
    && es[m].result == result && now - es[m].now < ttl
    && var q' := Run(ttl, es[..m]).flights[es[m].flight];
       q'.hash == q.hash && q'.wasm == q.wasm && q'.instance == q.instance
  }

  // A hit is what a simulation resolved with for this footprint, under this caller's own tokens,
  // cached less than ttl ago and not invalidated since.
  lemma HitsAreFresh(ttl: int, es: seq<Event>, q: Query, now: int, f: FlightId)
    requires Possible(ttl, es) && Get(Run(ttl, es), q, now, f).1.Hit?
    ensures exists m: nat :: HitFrom(ttl, es, q, now, Get(Run(ttl, es), q, now, f).1.result, m)
  {
    EveryEntryHasASource(ttl, es, q.hash);
    TtlIsConstant(ttl, es);
    var m: nat :| CachedBy(ttl, es, q.hash, m);
    assert HitFrom(ttl, es, q, now, Get(Run(ttl, es), q, now, f).1.result, m);
  }

  // Event e, at state c, touches what is cached for h since time t: it removes it, resolves another
  // flight of h, or asks for h when it has expired.
  predicate Disturbs(c: Cache, e: Event, h: Hash, t: int) {
    match e
    case GetEvent(q, now, _) => q.hash == h && now >= t + c.ttl
    case ResolveEvent(f, _, _) => f in c.flights && c.flights[f].hash == h
    case RejectEvent(_) => false
    case InvalidateEvent(x) => x == h
    case ClearEvent => true
  }

  // Event m resolved a flight of h, and nothing has disturbed its result since.
  ghost predicate KeptSince(ttl: int, es: seq<Event>, h: Hash, m: nat) {
    && m < |es| && es[m].ResolveEvent?
    && es[m].flight in Run(ttl, es[..m]).flights && Run(ttl, es[..m]).flights[es[m].flight].hash == h
    && forall k :: m < k < |es| ==> !Disturbs(Run(ttl, es[..k]), es[k], h, es[m].now)
  }

  // The entry that event m makes.
  ghost function EntryOf(ttl: int, es: seq<Event>, m: nat): CacheEntry
    requires m < |es| && es[m].ResolveEvent? && es[m].flight in Run(ttl, es[..m]).flights
  {
    var q := Run(ttl, es[..m]).flights[es[m].flight];
    CacheEntry(es[m].result, q.wasm, q.instance, es[m].now)
  }

  // One event makes an entry, leaves it, or takes it away; whatever is done to other footprints.
  lemma EntryStep(ttl: int, c: Cache, e: Event, h: Hash)
    requires c.ttl == ttl && (e.ResolveEvent? || e.RejectEvent? ==> e.flight in c.flights)
    ensures var c' := Step(c, e);
      if e.ResolveEvent? && c.flights[e.flight].hash == h then
        h in c'.entries && c'.entries[h] == CacheEntry(e.result, c.flights[e.flight].wasm, c.flights[e.flight].instance, e.now)
      else if h in c.entries && !Disturbs(c, e, h, c.entries[h].cachedAt) then h in c'.entries && c'.entries[h] == c.entries[h]
      else h !in c'.entries
  {
  }

  lemma KeptStep(ttl: int, es: seq<Event>, h: Hash, m: nat)
    requires es != []
    ensures var front, e := es[..|es| - 1], es[|es| - 1];
      m < |front| ==>
        && (KeptSince(ttl, es, h, m) <==> KeptSince(ttl, front, h, m) && !Disturbs(Run(ttl, front), e, h, es[m].now))
        && (KeptSince(ttl, front, h, m) ==> es[..m] == front[..m] && EntryOf(ttl, es, m) == EntryOf(ttl, front, m))
  {
    var front := es[..|es| - 1];
    hide Run, Disturbs;
    if m < |front| {
      assert forall k :: 0 <= k <= |front| ==> es[..k] == front[..k];
      assert front[..|front|] == front;
      assert forall k :: 0 <= k < |front| ==> es[k] == front[k];
    }
  }

  // What is cached for a footprint is exactly the result of the one flight that has been kept
  // since, whatever happens to other footprints.
  lemma {:induction false} EntryIff(ttl: int, es: seq<Event>, h: Hash)
    requires Possible(ttl, es)
    ensures h in Run(ttl, es).entries <==> exists m: nat :: KeptSince(ttl, es, h, m)
    ensures forall m: nat :: KeptSince(ttl, es, h, m) ==>
      h in Run(ttl, es).entries && Run(ttl, es).entries[h] == EntryOf(ttl, es, m)
  {
    if es != [] {
      var front, e := es[..|es| - 1], es[|es| - 1];
      var c := Run(ttl, front);
      EntryIff(ttl, front, h);
      TtlIsConstant(ttl, front);
      EntryStep(ttl, c, e, h);
      assert Run(ttl, es) == Step(c, e);
      forall m: nat ensures KeptSince(ttl, es, h, m) ==>
        h in Run(ttl, es).entries && Run(ttl, es).entries[h] == EntryOf(ttl, es, m)
      {
        KeptStep(ttl, es, h, m);
      }
      if h in Run(ttl, es).entries {
        if e.ResolveEvent? && c.flights[e.flight].hash == h {
          assert KeptSince(ttl, es, h, |front|);
        } else {
          var m: nat :| KeptSince(ttl, front, h, m);
          KeptStep(ttl, es, h, m);
        }
      }
    }
  }

  // A call is a hit with a given result exactly when some flight of its footprint and tokens
  // resolved with it less than ttl ago and has been kept since, whether or not another is running.
  lemma HitIff(ttl: int, es: seq<Event>, q: Query, now: int, f: FlightId, r: SimulationResult)
    requires Possible(ttl, es)
    ensures Get(Run(ttl, es), q, now, f).1 == Hit(r)
      <==> exists m: nat :: (
             && KeptSince(ttl, es, q.hash, m) && es[m].result == r && now - es[m].now < ttl
             && var x := Run(ttl, es[..m]).flights[es[m].flight]; x.wasm == q.wasm && x.instance == q.instance)
  {
    EntryIff(ttl, es, q.hash);
    TtlIsConstant(ttl, es);
    hide KeptSince, Run, Possible;
  }

  lemma {:induction false} TtlIsConstant(ttl: int, es: seq<Event>)
    ensures Run(ttl, es).ttl == ttl
  {
    if es != [] {
      TtlIsConstant(ttl, es[..|es| - 1]);
    }
  }

  // ---------------------------------------------------------------- refinement

  // A simulator whose answer depends on the query alone, and flights that resolve to it.
  ghost predicate Faithful(ttl: int, es: seq<Event>, sim: Query -> SimulationResult) {
    forall m :: 0 <= m < |es| && es[m].ResolveEvent? && es[m].flight in Run(ttl, es[..m]).flights ==>
      es[m].result == sim(Run(ttl, es[..m]).flights[es[m].flight])
  }

  // The value the caller of getSimulation ends up with, if its promise resolves.
  function Answer(c: Cache, q: Query, now: int, f: FlightId, sim: Query -> SimulationResult): SimulationResult {
    match Get(c, q, now, f).1
    case Hit(result) => result
    case Started(_) => sim(q)
    case Joined(g) => if g in c.flights then sim(c.flights[g]) else sim(q)
  }

  // The same simulation, whatever the tokens.
  predicate SameRequest(a: Query, b: Query) {
    a.hash == b.hash && a.target == b.target && a.source == b.source
  }

  // The proviso: one target and source account per footprint so far, and a caller that joins a flight brings the
  // tokens the flight was started with.
  ghost predicate TokensStable(c: Cache, q: Query) {
    q.hash in c.pending && c.pending[q.hash] in c.flights ==>
      c.flights[c.pending[q.hash]].wasm == q.wasm && c.flights[c.pending[q.hash]].instance == q.instance
  }

  ghost predicate OneRequest(es: seq<Event>, q: Query) {
    forall e :: e in es && e.GetEvent? && e.query.hash == q.hash ==> SameRequest(e.query, q)
  }

  lemma {:induction false} FlightQueriesWereAsked(ttl: int, es: seq<Event>)
    ensures forall f :: f in Run(ttl, es).flights ==> GetEventFor(es, Run(ttl, es).flights[f])
  {
    if es != [] {
      var front, e := es[..|es| - 1], es[|es| - 1];
      FlightQueriesWereAsked(ttl, front);
      forall f | f in Run(ttl, es).flights ensures GetEventFor(es, Run(ttl, es).flights[f]) {
        if f in Run(ttl, front).flights && Run(ttl, front).flights[f] == Run(ttl, es).flights[f] {
          var x :| x in front && x.GetEvent? && x.query == Run(ttl, es).flights[f];
          assert x in es;
        } else {
          assert e in es;
        }
      }
    }
  }

  ghost predicate GetEventFor(es: seq<Event>, q: Query) {
    exists e :: e in es && e.GetEvent? && e.query == q
  }

  // The cache answers as simulating every time would.
  lemma RefinesSimulateEveryTime(ttl: int, es: seq<Event>, q: Query, now: int, f: FlightId, sim: Query -> SimulationResult)
    requires Possible(ttl, es) && Faithful(ttl, es, sim)
    requires OneRequest(es, q) && TokensStable(Run(ttl, es), q)
    ensures Answer(Run(ttl, es), q, now, f, sim) == sim(q)
  {
    var c := Run(ttl, es);
    AlwaysSingleFlight(ttl, es);
    match Get(c, q, now, f).1
    case Hit(result) =>
      HitsAreFresh(ttl, es, q, now, f);
      var m: nat :| HitFrom(ttl, es, q, now, result, m);
      SourceQuery(ttl, es, q, m);
      assert result == sim(q);
    case Started(_) =>
    case Joined(g) =>
      SourceQuery(ttl, es, q, |es|);
      assert es[..|es|] == es;
      assert c.flights[g] == q;
  }

  // Flights for q's footprint before event m are for q's request.
  lemma SourceQuery(ttl: int, es: seq<Event>, q: Query, m: nat)
    requires OneRequest(es, q) && m <= |es|
    ensures forall f :: f in Run(ttl, es[..m]).flights && Run(ttl, es[..m]).flights[f].hash == q.hash ==>
      SameRequest(Run(ttl, es[..m]).flights[f], q)
  {
    FlightQueriesWereAsked(ttl, es[..m]);
    forall f | f in Run(ttl, es[..m]).flights && Run(ttl, es[..m]).flights[f].hash == q.hash
      ensures SameRequest(Run(ttl, es[..m]).flights[f], q)
    {
      var x :| x in es[..m] && x.GetEvent? && x.query == Run(ttl, es[..m]).flights[f];
      assert x in es;
    }
  }

  // ---------------------------------------------------------------- when the answer is right

  // Event m is the end of a simulation of exactly q.
  ghost predicate AnsweredAt(ttl: int, es: seq<Event>, q: Query, result: SimulationResult, m: nat) {
    && m < |es| && es[m].ResolveEvent? && es[m].result == result
    && es[m].flight in Run(ttl, es[..m]).flights && Run(ttl, es[..m]).flights[es[m].flight] == q
  }

  ghost predicate Answered(ttl: int, es: seq<Event>, q: Query, result: SimulationResult) {
    exists m: nat :: AnsweredAt(ttl, es, q, result, m)
  }

  // Both queries have been simulated already, with the same result.
  ghost predicate AnsweredAlike(ttl: int, es: seq<Event>, a: Query, b: Query) {
    exists r :: Answered(ttl, es, a, r) && Answered(ttl, es, b, r)
  }

  function Other(r: SimulationResult): SimulationResult {
    Simulated(MinResourceFee(r) + 1)
  }

  function Differing(sim: Query -> SimulationResult, q: Query): Query -> SimulationResult {
    x => if x == q then Other(sim(q)) else sim(x)
  }

  lemma FaithfulResult(ttl: int, es: seq<Event>, sim: Query -> SimulationResult, q: Query, result: SimulationResult)
    requires Faithful(ttl, es, sim) && Answered(ttl, es, q, result)
    ensures result == sim(q)
  {
    hide Run;
    var m: nat :| AnsweredAt(ttl, es, q, result, m);
  }

  // What has never been simulated is open: another simulator fits the history as well.
  lemma UnansweredIsOpen(ttl: int, es: seq<Event>, sim: Query -> SimulationResult, q: Query)
    requires Faithful(ttl, es, sim) && forall r :: !Answered(ttl, es, q, r)
    ensures Faithful(ttl, es, Differing(sim, q))
  {
    hide Run;
    forall m | 0 <= m < |es| && es[m].ResolveEvent? && es[m].flight in Run(ttl, es[..m]).flights
      ensures es[m].result == Differing(sim, q)(Run(ttl, es[..m]).flights[es[m].flight])
    {
      var x := Run(ttl, es[..m]).flights[es[m].flight];
      assert AnsweredAt(ttl, es, x, es[m].result, m);
      assert Answered(ttl, es, x, es[m].result);
    }
  }

  // Two queries surely have the same result exactly when they are the same query, or when
  // both have been seen to have it.
  lemma SameAnswerIff(ttl: int, es: seq<Event>, a: Query, b: Query, sim0: Query -> SimulationResult)
    requires Faithful(ttl, es, sim0)
    ensures (forall sim: Query -> SimulationResult :: Faithful(ttl, es, sim) ==> sim(a) == sim(b))
        <==> a == b || AnsweredAlike(ttl, es, a, b)
  {
    hide Faithful, Answered;
    if AnsweredAlike(ttl, es, a, b) {
      var r :| Answered(ttl, es, a, r) && Answered(ttl, es, b, r);
      forall sim: Query -> SimulationResult | Faithful(ttl, es, sim) ensures sim(a) == r == sim(b) {
        FaithfulResult(ttl, es, sim, a, r);
        FaithfulResult(ttl, es, sim, b, r);
      }
    } else if a != b && sim0(a) == sim0(b) {
      OneIsUnanswered(ttl, es, a, b, sim0);
      var q := if exists r :: Answered(ttl, es, a, r) then b else a;
      UnansweredIsOpen(ttl, es, sim0, q);
      assert Differing(sim0, q)(a) != Differing(sim0, q)(b);
    }
  }

  lemma OneIsUnanswered(ttl: int, es: seq<Event>, a: Query, b: Query, sim: Query -> SimulationResult)
    requires Faithful(ttl, es, sim) && sim(a) == sim(b) && !AnsweredAlike(ttl, es, a, b)
    ensures (forall r :: !Answered(ttl, es, a, r)) || (forall r :: !Answered(ttl, es, b, r))
  {
    hide Faithful, Answered;
    if fa, fb :| Answered(ttl, es, a, fa) && Answered(ttl, es, b, fb) {
      FaithfulResult(ttl, es, sim, a, fa);
      FaithfulResult(ttl, es, sim, b, fb);
    }
  }

  // A caller that joins a running simulation surely gets the right answer exactly when that
  // simulation is of its own query, or both queries are known to have the same answer.
  lemma JoinedAnswerIsRightIff(ttl: int, es: seq<Event>, q: Query, now: int, f: FlightId, sim0: Query -> SimulationResult)
    requires Possible(ttl, es) && Faithful(ttl, es, sim0)
    requires !IsHit(Run(ttl, es), q, now) && q.hash in Run(ttl, es).pending
    ensures var c := Run(ttl, es); var g := c.pending[q.hash];
      && g in c.flights
      && ((forall sim: Query -> SimulationResult :: Faithful(ttl, es, sim) ==> Answer(c, q, now, f, sim) == sim(q))
          <==> c.flights[g] == q || AnsweredAlike(ttl, es, c.flights[g], q))
  {
    AlwaysSingleFlight(ttl, es);
    var c := Run(ttl, es);
    var g := c.pending[q.hash];
    assert forall sim: Query -> SimulationResult :: Answer(c, q, now, f, sim) == sim(c.flights[g]);
    hide Faithful, AnsweredAlike, Answer, Run;
    SameAnswerIff(ttl, es, c.flights[g], q, sim0);
  }

  // A hit is surely right exactly when the cached simulation was of the caller's own request, or
  // the caller's query is known to have the same answer.
  lemma HitIsRightIff(ttl: int, es: seq<Event>, q: Query, now: int, f: FlightId, m: nat, sim0: Query -> SimulationResult)
    requires Possible(ttl, es) && Faithful(ttl, es, sim0) && IsHit(Run(ttl, es), q, now)
    requires HitFrom(ttl, es, q, now, Run(ttl, es).entries[q.hash].result, m)
    ensures var source := Run(ttl, es[..m]).flights[es[m].flight];
      (forall sim: Query -> SimulationResult :: Faithful(ttl, es, sim) ==> Answer(Run(ttl, es), q, now, f, sim) == sim(q))
      <==> SameRequest(source, q) || AnsweredAlike(ttl, es, source, q)
  {
    var source := Run(ttl, es[..m]).flights[es[m].flight];
    assert AnsweredAt(ttl, es, source, es[m].result, m);
    assert SameRequest(source, q) <==> source == q;
    var result := Run(ttl, es).entries[q.hash].result;
    assert forall sim: Query -> SimulationResult :: Answer(Run(ttl, es), q, now, f, sim) == result;
    forall sim: Query -> SimulationResult | Faithful(ttl, es, sim) ensures result == sim(source) {
      FaithfulResult(ttl, es, sim, source, result);
    }
    hide Faithful, AnsweredAlike, Answer, Run, HitFrom, AnsweredAt;
    SameAnswerIff(ttl, es, source, q, sim0);
  }

  // Both can go wrong. New tokens while a simulation under the old ones is running:
  lemma NewTokensJoinTheOldSimulation(ttl: int, q: Query, wasm: string, sim: Query -> SimulationResult)
    requires sim(q) != sim(q.(wasm := wasm))
    ensures var es := [GetEvent(q, 0, 0)];
      && Possible(ttl, es) && Faithful(ttl, es, sim)
      && Answer(Run(ttl, es), q.(wasm := wasm), 1, 1, sim) != sim(q.(wasm := wasm))
  {
    var es := [GetEvent(q, 0, 0)];
    assert es[..0] == [] && Possible(ttl, []) && NewFlight([], 0);
    assert Run(ttl, es) == Get(Empty(ttl), q, 0, 0).0;
  }

  // and another target or source account for the same footprint and tokens within the TTL.
  lemma OtherRequestHitsTheOldResult(ttl: int, q: Query, other: Query, sim: Query -> SimulationResult)
    requires ttl > 1 && other.(target := q.target, source := q.source) == q && sim(q) != sim(other)
    ensures var es := [GetEvent(q, 0, 0), ResolveEvent(0, sim(q), 1)];
      && Possible(ttl, es) && Faithful(ttl, es, sim)
      && Answer(Run(ttl, es), other, 2, 1, sim) != sim(other)
  {
    OneResolved(ttl, q, sim(q));
    assert [GetEvent(q, 0, 0), ResolveEvent(0, sim(q), 1)][..0] == [];
  }

  // A history of one simulation.
  lemma OneResolved(ttl: int, q: Query, r: SimulationResult)
    ensures var e1, e2 := GetEvent(q, 0, 0), ResolveEvent(0, r, 1);
      && [e1, e2][..1] == [e1] && Run(ttl, [e1]).flights == map[0 := q]
      && Possible(ttl, [e1, e2])
      && Run(ttl, [e1, e2]).entries == map[q.hash := CacheEntry(r, q.wasm, q.instance, 1)]
      && Run(ttl, [e1, e2]).ttl == ttl
  {
    var e1, e2 := GetEvent(q, 0, 0), ResolveEvent(0, r, 1);
    assert [e1][..0] == [] && [e1, e2][..1] == [e1];
    assert Run(ttl, [e1]) == Get(Empty(ttl), q, 0, 0).0;
    assert Possible(ttl, []) && NewFlight([], 0) && Possible(ttl, [e1]);
    assert Run(ttl, [e1, e2]) == Resolve(Run(ttl, [e1]), 0, r, 1);
  }

  // ---------------------------------------------------------------- failed simulations

  ghost predicate NoFailureCached(c: Cache) {
    forall h :: h in c.entries ==> !c.entries[h].result.SimulationError?
  }

  // Failed simulations reject their promise; the client's do not.
  ghost predicate FailuresReject(es: seq<Event>) {
    forall m :: 0 <= m < |es| && es[m].ResolveEvent? ==> !es[m].result.SimulationError?
  }

  // What is cached for a footprint is a failure exactly when the flight it comes from resolved
  // with one.
  lemma FailureIsCachedIff(ttl: int, es: seq<Event>, h: Hash)
    requires Possible(ttl, es) && h in Run(ttl, es).entries
    ensures Run(ttl, es).entries[h].result.SimulationError?
        <==> exists m: nat :: CachedBy(ttl, es, h, m) && es[m].result.SimulationError?
  {
    EveryEntryHasASource(ttl, es, h);
  }

  // A failure is never cached, at any point of a history, exactly when failures reject.
  lemma {:induction false} FailuresAreNeverCachedIff(ttl: int, es: seq<Event>)
    requires Possible(ttl, es)
    ensures (forall k :: 0 <= k <= |es| ==> NoFailureCached(Run(ttl, es[..k]))) <==> FailuresReject(es)
  {
    if es != [] {
      var front, e := es[..|es| - 1], es[|es| - 1];
      FailuresAreNeverCachedIff(ttl, front);
      assert forall k :: 0 <= k < |es| ==> es[..k] == front[..k];
      assert es[..|es|] == es && front[..|front|] == front;
      assert FailuresReject(es) <==> FailuresReject(front) && (e.ResolveEvent? ==> !e.result.SimulationError?);
      hide Run, Possible, NoFailureCached, FailuresReject;
      if NoFailureCached(Run(ttl, front)) {
        OneMoreEvent(ttl, es);
      } else {
        assert !NoFailureCached(Run(ttl, es[..|front|]));
      }
    }
  }

  lemma OneMoreEvent(ttl: int, es: seq<Event>)
    requires es != [] && Possible(ttl, es) && NoFailureCached(Run(ttl, es[..|es| - 1]))
    ensures var e := es[|es| - 1];
      NoFailureCached(Run(ttl, es)) <==> !(e.ResolveEvent? && e.result.SimulationError?)
  {
    var c, e := Run(ttl, es[..|es| - 1]), es[|es| - 1];
    if e.ResolveEvent? {
      var q := c.flights[e.flight];
      assert Run(ttl, es).entries == c.entries[q.hash := CacheEntry(e.result, q.wasm, q.instance, e.now)];
      assert q.hash in Run(ttl, es).entries && Run(ttl, es).entries[q.hash].result == e.result;
    }
  }

  // Every later caller within the TTL, with the same tokens, is then handed the failure, with a
  // fee of 0.
  lemma FailedSimulationIsHit(ttl: int, q: Query, other: Query, now: int, f: FlightId)
    requires other.(target := q.target, source := q.source) == q && now - 1 < ttl
    ensures var es := [GetEvent(q, 0, 0), ResolveEvent(0, SimulationError, 1)];
      && Possible(ttl, es)
      && Get(Run(ttl, es), other, now, f).1 == Hit(SimulationError) && MinResourceFee(SimulationError) == 0
  {
    OneResolved(ttl, q, SimulationError);
  }

  // ---------------------------------------------------------------- invalidation

  lemma {:induction false} FlightKeepsItsQuery(ttl: int, es: seq<Event>, k: nat, f: FlightId)
    requires Possible(ttl, es) && k <= |es|
    requires f in Run(ttl, es[..k]).flights && f in Run(ttl, es).flights
    ensures Run(ttl, es).flights[f] == Run(ttl, es[..k]).flights[f]
  {
    if k == |es| {
      assert es[..k] == es;
    } else {
      var front, e := es[..|es| - 1], es[|es| - 1];
      assert front[..k] == es[..k];
      FlightsWereAsked(ttl, es[..k]);
      var x :| x in es[..k] && x.GetEvent? && x.flight == f;
      assert x in front;
      assert !NewFlight(front, f);
      FlightKeepsItsQuery(ttl, front, k, f);
    }
  }

  lemma {:induction false} PrefixPossible(ttl: int, es: seq<Event>, k: nat)
    requires Possible(ttl, es) && k <= |es|
    ensures Possible(ttl, es[..k])
  {
    if k < |es| {
      PrefixPossible(ttl, es[..|es| - 1], k);
      assert es[..|es| - 1][..k] == es[..k];
    } else {
      assert es[..k] == es;
    }
  }

  // The cached entry, at the end of the history, comes from a flight started after event n.
  ghost predicate StartedAfter(ttl: int, es: seq<Event>, h: Hash, n: nat)
    requires n <= |es|
  {
    forall m: nat :: CachedBy(ttl, es, h, m) ==> es[m].flight !in Run(ttl, es[..n]).flights
  }

  lemma NoFlightNoStaleEntry(ttl: int, es: seq<Event>, h: Hash, n: nat)
    requires Possible(ttl, es) && n < |es| && es[n] == InvalidateEvent(h) && h !in Run(ttl, es[..n]).pending
    ensures StartedAfter(ttl, es, h, n)
  {
    forall m: nat | CachedBy(ttl, es, h, m) ensures es[m].flight !in Run(ttl, es[..n]).flights {
      var f := es[m].flight;
      assert m > n by { assert Removes(es[n], h); }
      if f in Run(ttl, es[..n]).flights {
        PrefixPossible(ttl, es, m);
        PrefixPossible(ttl, es, n);
        assert es[..m][..n] == es[..n];
        FlightKeepsItsQuery(ttl, es[..m], n, f);
        AlwaysSingleFlight(ttl, es[..n]);
      }
    }
  }

  // invalidate() guarantees that later entries were simulated afterwards exactly when no
  // simulation of the footprint is running: a running one still lands in the cache.
  lemma InvalidateIsEffectiveIff(ttl: int, es: seq<Event>, h: Hash)
    requires Possible(ttl, es)
    ensures (forall rest :: Possible(ttl, es + [InvalidateEvent(h)] + rest) ==>
               StartedAfter(ttl, es + [InvalidateEvent(h)] + rest, h, |es|))
        <==> h !in Run(ttl, es).pending
  {
    var inv := es + [InvalidateEvent(h)];
    if h in Run(ttl, es).pending {
      AlwaysSingleFlight(ttl, es);
      var f := Run(ttl, es).pending[h];
      var rest := [ResolveEvent(f, Simulated(0), 0)];
      var all := inv + rest;
      assert all[..|all| - 1] == inv && inv[..|inv| - 1] == es && all[..|es|] == es && all[..|inv|] == inv;
      assert f in Run(ttl, inv).flights && Possible(ttl, inv);
      assert all[|all| - 1] == rest[0];
      assert Possible(ttl, all);
      assert CachedBy(ttl, all, h, |inv|);
      assert !StartedAfter(ttl, inv + rest, h, |es|);
    } else {
      forall rest | Possible(ttl, inv + rest) ensures StartedAfter(ttl, inv + rest, h, |es|) {
        assert (inv + rest)[..|es|] == es;
        NoFlightNoStaleEntry(ttl, inv + rest, h, |es|);
      }
    }
  }

  // ---------------------------------------------------------------- the class

  class SimulationCacheManager {
    const ttlMs: int
    var cache: map<Hash, CacheEntry>
    var pending: map<Hash, FlightId>
    var flights: map<FlightId, Query>     // the promises not yet settled
    var rpcCallCount: nat

    function State(): Cache
      reads this
    {
      Cache(ttlMs, cache, pending, flights, rpcCallCount)
    }

    constructor (ttlMs: int := 60000)
      ensures State() == Empty(ttlMs)
    {
      this.ttlMs := ttlMs;
      cache, pending, flights, rpcCallCount := map[], map[], map[], 0;
    }

    method GetSimulation(q: Query, now: int, f: FlightId) returns (reply: Reply)
      modifies this
      ensures (State(), reply) == Get(old(State()), q, now, f)
    {
      if q.hash in cache {
        var entry := cache[q.hash];
        if entry.wasm == q.wasm && entry.instance == q.instance && now - entry.cachedAt < ttlMs {
          return Hit(entry.result);
        }
        if now - entry.cachedAt >= ttlMs {
          cache := cache - {q.hash};
        }
      }
      if q.hash in pending {
        return Joined(pending[q.hash]);
      }
      rpcCallCount := rpcCallCount + 1;
      flights := flights[f := q];
      pending := pending[q.hash := f];
      reply := Started(f);
    }

    // The promise's then-handler.
    method OnResolved(f: FlightId, result: SimulationResult, now: int)
      requires f in flights
      modifies this
      ensures State() == Resolve(old(State()), f, result, now)
    {
      var q := flights[f];
      cache := cache[q.hash := CacheEntry(result, q.wasm, q.instance, now)];
      pending := pending - {q.hash};
      flights := flights - {f};
    }

    // The promise's catch-handler.
    method OnRejected(f: FlightId)
      requires f in flights
      modifies this
      ensures State() == Reject(old(State()), f)
    {
      pending := pending - {flights[f].hash};
      flights := flights - {f};
    }

    method InvalidateFootprint(h: Hash)
      modifies this
      ensures State() == Invalidate(old(State()), h)
    {
      cache := cache - {h};
    }

    method Clear()
      modifies this
      ensures State() == ClearAll(old(State()))
    {
      cache := map[];
    }
  }
}
