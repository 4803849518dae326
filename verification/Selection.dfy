// Which entries of one contract runAutoExtensions submits, and how often
// (src/core/extension.ts): eligibility, hourly limit, cooldown, grouping by target.
module Selection {
  import opened Common
  import opened Predictive

  const HOURLY_RATE_LIMIT := 5
  const EXTENSION_COOLDOWN_MS := 300000
  const HOUR := 3600
  const DAY := 86400

  type EntryId = nat
  datatype EntryType = Instance | Wasm | Persistent | Temporary
  datatype Entry = Entry(id: EntryId, entryType: EntryType, liveUntil: Option<int>)
  datatype Ttl = Ttl(target: int, below: int)
  datatype Policy = Policy(ttl: Ttl, overrides: map<EntryType, Ttl>, predictiveCycles: Option<int>)
  datatype PredictiveOptions = PredictiveOptions(predictiveCycles: Option<int>, ledgersPerCycle: Option<int>)

  // The per-type override, or the contract's own parameters.
  function Effective(p: Policy, t: EntryType): Ttl {
    if t in p.overrides then p.overrides[t] else p.ttl
  }

  function OrElse<T>(o: Option<T>, d: T): T {
    if o.Some? then o.value else d
  }

  // ---------------------------------------------------------------- eligibility

  predicate Reactive(e: Entry, p: Policy, latest: int) {
    && e.liveUntil.Some? && e.liveUntil.value != 0
    && 0 <= e.liveUntil.value - latest < Effective(p, e.entryType).below
  }

  predicate NeedsExtension(e: Entry, p: Policy, latest: int, opts: PredictiveOptions, samples: seq<TtlSample>) {
    if e.liveUntil.None? || e.liveUntil.value == 0 then false
    else
      var below := Effective(p, e.entryType).below;
      var remaining := e.liveUntil.value - latest;
      if remaining >= 0 && remaining < below then true
      else
        var cycles := OrElse(opts.predictiveCycles, OrElse(p.predictiveCycles, 0));
        if cycles > 0 && remaining >= below then
          var horizon := latest + cycles * OrElse(opts.ledgersPerCycle, 60);
          var crossing := ProjectCrossingLedger(DecayRate(samples), remaining, below, latest);
          crossing.Some? && crossing.value <= horizon
        else false
  }

  // With the samples the monitor records (absolute live-until ledgers, moved only upwards by
  // extensions) the predictive path never selects anything, whatever the options.
  lemma PredictivePathNeverFires(e: Entry, p: Policy, latest: int, opts: PredictiveOptions, samples: seq<TtlSample>)
    requires NeverFalls(samples)
    ensures NeedsExtension(e, p, latest, opts, samples) <==> Reactive(e, p, latest)
  {
    if e.liveUntil.Some? {
      NonFallingSamplesGiveNoProjection(samples, e.liveUntil.value - latest, Effective(p, e.entryType).below, latest);
    }
  }

  // So it is for every entry whose readings only extensions have changed, whichever of them
  // are kept and in whatever order they come.
  lemma MonitoredEntriesAreReactive(
    e: Entry, p: Policy, latest: int, opts: PredictiveOptions, readings: seq<TtlSample>, samples: seq<TtlSample>)
    requires OnlyExtended(readings) && forall s :: s in samples ==> s in readings
    ensures NeedsExtension(e, p, latest, opts, samples) <==> Reactive(e, p, latest)
  {
    RecordedSamplesNeverFall(readings, samples);
    PredictivePathNeverFires(e, p, latest, opts, samples);
  }

  // For an entry above its threshold, some options make the predictive path fire if and only if
  // the pairs of samples fall on balance.
  lemma PredictivePathCanFireIff(e: Entry, p: Policy, latest: int, samples: seq<TtlSample>)
    requires e.liveUntil.Some? && e.liveUntil.value != 0
    requires e.liveUntil.value - latest >= Effective(p, e.entryType).below
    ensures (exists opts :: NeedsExtension(e, p, latest, opts, samples)) <==> PairProducts(samples) < 0
  {
    var remaining, below := e.liveUntil.value - latest, Effective(p, e.entryType).below;
    var crossing := ProjectCrossingLedger(DecayRate(samples), remaining, below, latest);
    ProjectionExistsIff(samples, remaining, below, latest);
    hide ProjectCrossingLedger, DecayRate, PairProducts, Effective;
    if crossing.Some? {
      var cycles := if crossing.value > latest then crossing.value - latest else 1;
      assert NeedsExtension(e, p, latest, PredictiveOptions(Some(cycles), Some(1)), samples);
    }
  }

  // ---------------------------------------------------------------- overrides and options

  // An entry whose type is overridden is selected alike under any two policies that agree on that
  // override, whatever else they say; below the override's threshold it is always selected, and
  // at or above it only by the predictive path.
  lemma OverriddenEntry(e: Entry, p: Policy, q: Policy, latest: int, opts: PredictiveOptions, samples: seq<TtlSample>)
    requires e.entryType in p.overrides && e.entryType in q.overrides
    requires p.overrides[e.entryType] == q.overrides[e.entryType] && p.predictiveCycles == q.predictiveCycles
    ensures NeedsExtension(e, p, latest, opts, samples) <==> NeedsExtension(e, q, latest, opts, samples)
    ensures Reactive(e, p, latest) <==>
      e.liveUntil.Some? && e.liveUntil.value != 0 && latest <= e.liveUntil.value < latest + p.overrides[e.entryType].below
    ensures Reactive(e, p, latest) ==> NeedsExtension(e, p, latest, opts, samples)
  {
    hide ProjectCrossingLedger, DecayRate;
  }

  // An entry of any other type depends on the contract's own parameters alone.
  lemma OtherEntry(e: Entry, p: Policy, q: Policy, latest: int, opts: PredictiveOptions, samples: seq<TtlSample>)
    requires e.entryType !in p.overrides && e.entryType !in q.overrides
    requires p.ttl == q.ttl && p.predictiveCycles == q.predictiveCycles
    ensures NeedsExtension(e, p, latest, opts, samples) <==> NeedsExtension(e, q, latest, opts, samples)
    ensures Reactive(e, p, latest) <==>
      e.liveUntil.Some? && e.liveUntil.value != 0 && latest <= e.liveUntil.value < latest + p.ttl.below
    ensures Reactive(e, p, latest) ==> NeedsExtension(e, p, latest, opts, samples)
  {
    hide ProjectCrossingLedger, DecayRate;
  }

  // How many cycles the predictive path looks ahead: the options' number, else the policy's; none
  // without either.
  ghost predicate LooksAhead(p: Policy, opts: PredictiveOptions, cycles: int) {
    || opts.predictiveCycles == Some(cycles)
    || (opts.predictiveCycles.None? && p.predictiveCycles == Some(cycles))
    || (opts.predictiveCycles.None? && p.predictiveCycles.None? && cycles == 0)
  }

  // Unless it looks ahead, the filter selects exactly the entries below their threshold.
  lemma NotLookingAhead(e: Entry, p: Policy, latest: int, opts: PredictiveOptions, samples: seq<TtlSample>, cycles: int)
    requires LooksAhead(p, opts, cycles) && cycles <= 0
    ensures NeedsExtension(e, p, latest, opts, samples) <==> Reactive(e, p, latest)
  {
  }

  // With samples of the remaining TTL on a falling line, the predictive path selects an entry
  // above its threshold if the line crosses the threshold within the cycles looked ahead, of 60
  // ledgers each unless the options say otherwise, and not if it does so later, to within half a
  // ledger.
  lemma PredictivePathSelects(
    e: Entry, p: Policy, latest: int, opts: PredictiveOptions, samples: seq<TtlSample>,
    c: real, r: real, crossing: real, cycles: int, ledgersPerCycle: int)
    requires |samples| >= 2 && !OneLedger(samples) && OnLine(samples, c, r) && r > 0.0
    requires e.liveUntil.Some? && e.liveUntil.value != 0 && e.liveUntil.value - latest >= Effective(p, e.entryType).below
    requires (e.liveUntil.value - latest) as real == Line(c, r, latest as real)
    requires Effective(p, e.entryType).below as real == Line(c, r, crossing)
    requires LooksAhead(p, opts, cycles) && cycles > 0 && crossing >= 0.0
    requires opts.ledgersPerCycle == Some(ledgersPerCycle) || (opts.ledgersPerCycle.None? && ledgersPerCycle == 60)
    ensures crossing + 0.5 <= (latest + cycles * ledgersPerCycle) as real ==> NeedsExtension(e, p, latest, opts, samples)
    ensures NeedsExtension(e, p, latest, opts, samples) ==> crossing - 0.5 < (latest + cycles * ledgersPerCycle) as real
  {
    ProjectionHitsCrossing(samples, c, r, latest, e.liveUntil.value - latest, Effective(p, e.entryType).below, crossing);
    hide ProjectCrossingLedger, DecayRate, OnLine, OneLedger, Line, Effective;
  }

  // ---------------------------------------------------------------- grouping

  datatype Group = Group(target: int, entries: seq<Entry>)

  function WithTarget(entries: seq<Entry>, p: Policy, target: int): seq<Entry> {
    if entries == [] then []
    else
      var last := entries[|entries| - 1];
      WithTarget(entries[..|entries| - 1], p, target)
      + (if Effective(p, last.entryType).target == target then [last] else [])
  }

  // The groups are the entries of each occurring target, each target once.
  ghost predicate Partition(groups: seq<Group>, entries: seq<Entry>, p: Policy) {
    && (forall g :: 0 <= g < |groups| ==>
          groups[g].entries == WithTarget(entries, p, groups[g].target) && groups[g].entries != [])
    && (forall g, h :: 0 <= g < h < |groups| ==> groups[g].target != groups[h].target)
    && (forall e :: e in entries ==> HasGroup(groups, Effective(p, e.entryType).target))
  }

  ghost predicate HasGroup(groups: seq<Group>, target: int) {
    exists g :: 0 <= g < |groups| && groups[g].target == target
  }

  // The grouping loop; a Map keeps its keys in insertion order.
  method GroupByTarget(entries: seq<Entry>, p: Policy) returns (groups: seq<Group>)
    ensures Partition(groups, entries, p)
  {
    groups := [];
    assert Partition(groups, entries[..0], p);
    hide Partition, WithTarget, HasGroup, Effective;
    for i := 0 to |entries|
      invariant Partition(groups, entries[..i], p)
    {
      var entry := entries[i];
      var target := Effective(p, entry.entryType).target;
      ghost var before, was := entries[..i], groups;
      assert entries[..i + 1][..i] == before;
      var g := 0;
      while g < |groups| && groups[g].target != target
        invariant 0 <= g <= |groups|
        invariant forall h :: 0 <= h < g ==> groups[h].target != target
      {
        g := g + 1;
      }
      if g < |groups| {
        groups := groups[g := Group(target, groups[g].entries + [entry])];
      } else {
        NoGroupYet(before, p, target, groups);
        groups := groups + [Group(target, [entry])];
      }
      OneMoreEntry(was, groups, entries[..i + 1], p, g);
    }
    assert entries[..|entries|] == entries;
  }

  lemma NoGroupYet(entries: seq<Entry>, p: Policy, target: int, groups: seq<Group>)
    requires Partition(groups, entries, p) && forall g :: 0 <= g < |groups| ==> groups[g].target != target
    ensures WithTarget(entries, p, target) == []
  {
    NoneWithTarget(entries, p, target, groups);
  }

  lemma {:induction false} NoneWithTarget(entries: seq<Entry>, p: Policy, target: int, groups: seq<Group>)
    requires forall e :: e in entries ==> HasGroup(groups, Effective(p, e.entryType).target)
    requires !HasGroup(groups, target)
    ensures WithTarget(entries, p, target) == []
  {
    if entries != [] {
      var last := entries[|entries| - 1];
      assert last in entries;
      NoneWithTarget(entries[..|entries| - 1], p, target, groups);
    }
  }

  // Entry e has joined the group of its target, or opened one.
  ghost predicate Joined(was: seq<Group>, now: seq<Group>, e: Entry, target: int, g: nat) {
    && g <= |was| && (forall h :: 0 <= h < g ==> was[h].target != target)
    && (if g < |was| then was[g].target == target && now == was[g := Group(target, was[g].entries + [e])]
        else now == was + [Group(target, [e])])
  }

  lemma OneMoreEntry(was: seq<Group>, now: seq<Group>, entries: seq<Entry>, p: Policy, g: nat)
    requires entries != []
    requires var front, e := entries[..|entries| - 1], entries[|entries| - 1];
      var target := Effective(p, e.entryType).target;
      && Partition(was, front, p) && Joined(was, now, e, target, g)
      && (g == |was| ==> WithTarget(front, p, target) == [])
    ensures Partition(now, entries, p)
  {
    var e, front := entries[|entries| - 1], entries[..|entries| - 1];
    var target := Effective(p, e.entryType).target;
    assert entries == front + [e];
    hide Effective, WithTarget, HasGroup;
    JoinedTargets(was, now, e, target, g);
    forall x | x in entries ensures HasGroup(now, Effective(p, x.entryType).target) {
      assert x in front || x == e;
    }
    forall h | 0 <= h < |now| ensures now[h].entries == WithTarget(entries, p, now[h].target) && now[h].entries != [] {
      OneMoreWithTarget(entries, p, now[h].target);
      assert h != g ==> now[h] == was[h] && was[h].entries == WithTarget(front, p, was[h].target);
    }
  }

  lemma JoinedTargets(was: seq<Group>, now: seq<Group>, e: Entry, target: int, g: nat)
    requires Joined(was, now, e, target, g)
    requires forall i, j :: 0 <= i < j < |was| ==> was[i].target != was[j].target
    ensures forall i, j :: 0 <= i < j < |now| ==> now[i].target != now[j].target
    ensures |was| <= |now| && g < |now| && now[g].target == target && HasGroup(now, target)
    ensures forall h :: 0 <= h < |now| && h != g ==> h < |was| && now[h] == was[h] && now[h].target != target
    ensures forall x :: HasGroup(was, x) ==> HasGroup(now, x)
  {
    assert forall h :: 0 <= h < |was| ==> now[h].target == was[h].target;
    forall x | HasGroup(was, x) ensures HasGroup(now, x) {
      var h :| 0 <= h < |was| && was[h].target == x;
      assert now[h].target == x;
    }
  }

  lemma OneMoreWithTarget(entries: seq<Entry>, p: Policy, target: int)
    requires entries != []
    ensures var e, before := entries[|entries| - 1], WithTarget(entries[..|entries| - 1], p, target);
      WithTarget(entries, p, target) == if Effective(p, e.entryType).target == target then before + [e] else before
  {
  }

  lemma {:induction false} WithTargetCount(entries: seq<Entry>, p: Policy, target: int, e: Entry)
    ensures multiset(WithTarget(entries, p, target))[e]
         == if Effective(p, e.entryType).target == target then multiset(entries)[e] else 0
  {
    if entries != [] {
      var front, last := entries[..|entries| - 1], entries[|entries| - 1];
      WithTargetCount(front, p, target, e);
      assert entries == front + [last];
      hide Effective;
    }
  }

  // Every eligible entry is submitted in exactly one group, as often as it was eligible.
  lemma SubmittedOnce(groups: seq<Group>, entries: seq<Entry>, p: Policy, e: Entry)
    requires Partition(groups, entries, p) && e in entries
    ensures exists g :: (
      && 0 <= g < |groups|
      && multiset(groups[g].entries)[e] == multiset(entries)[e]
      && forall h :: 0 <= h < |groups| && h != g ==> e !in groups[h].entries)
  {
    var g :| 0 <= g < |groups| && groups[g].target == Effective(p, e.entryType).target;
    WithTargetCount(entries, p, groups[g].target, e);
    forall h | 0 <= h < |groups| && h != g ensures e !in groups[h].entries {
      WithTargetCount(entries, p, groups[h].target, e);
      assert multiset(groups[h].entries)[e] == 0;
    }
  }

  // An entry is in the group of its type's own override, if there is one, and else in that of the
  // contract's target.
  lemma GroupsAreOfOwnTarget(groups: seq<Group>, entries: seq<Entry>, p: Policy, e: Entry, g: nat)
    requires Partition(groups, entries, p) && g < |groups|
    ensures var target := if e.entryType in p.overrides then p.overrides[e.entryType].target else p.ttl.target;
      e in groups[g].entries <==> (e in entries && groups[g].target == target)
  {
    WithTargetCount(entries, p, groups[g].target, e);
    assert e in groups[g].entries <==> multiset(groups[g].entries)[e] > 0;
    assert e in entries <==> multiset(entries)[e] > 0;
  }

  // ---------------------------------------------------------------- rate limit and cooldown

  // A row of extension_history; the table keeps its time in whole seconds.
  datatype Record = Record(entry: EntryId, writtenMs: nat)

  function Stamp(r: Record): nat {
    r.writtenMs / 1000
  }

  function CountSince(h: seq<Record>, since: int): nat {
    if h == [] then 0
    else CountSince(h[..|h| - 1], since) + (if Stamp(h[|h| - 1]) >= since then 1 else 0)
  }

  predicate IsRateLimited(h: seq<Record>, nowMs: nat) {
    CountSince(h, nowMs / 1000 - HOUR) >= HOURLY_RATE_LIMIT
  }

  // Last holds the last stamp of each entry among the rows of the last day.
  ghost predicate LastOf(h: seq<Record>, nowMs: nat, last: map<EntryId, nat>) {
    && (forall id :: id in last <==> exists r :: r in h && r.entry == id && Stamp(r) >= nowMs / 1000 - DAY)
    && (forall r :: r in h && Stamp(r) >= nowMs / 1000 - DAY ==> Stamp(r) <= last[r.entry])
    && (forall id :: id in last ==> exists r :: r in h && r.entry == id && last[id] == Stamp(r))
  }

  method LastExtendedAt(h: seq<Record>, nowMs: nat) returns (last: map<EntryId, nat>)
    ensures LastOf(h, nowMs, last)
  {
    last := map[];
    for i := 0 to |h|
      invariant LastOf(h[..i], nowMs, last)
    {
      assert h[..i + 1] == h[..i] + [h[i]];
      var record := h[i];
      if Stamp(record) >= nowMs / 1000 - DAY {
        if record.entry !in last || Stamp(record) > last[record.entry] {
          last := last[record.entry := Stamp(record)];
        }
      }
    }
    assert h[..|h|] == h;
  }

  // Not extended in the last day, or long enough ago.
  ghost predicate CooledDown(h: seq<Record>, id: EntryId, nowMs: nat) {
    forall r :: r in h && r.entry == id && Stamp(r) >= nowMs / 1000 - DAY ==>
      nowMs - 1000 * Stamp(r) >= EXTENSION_COOLDOWN_MS
  }

  // Those that have, in their order.
  ghost function Cooled(needs: seq<EntryId>, h: seq<Record>, nowMs: nat): seq<EntryId> {
    if needs == [] then []
    else
      var id := needs[|needs| - 1];
      Cooled(needs[..|needs| - 1], h, nowMs) + if CooledDown(h, id, nowMs) then [id] else []
  }

  lemma {:induction false} CooledAre(needs: seq<EntryId>, h: seq<Record>, nowMs: nat)
    ensures forall id :: id in Cooled(needs, h, nowMs) <==> id in needs && CooledDown(h, id, nowMs)
    ensures Distinct(needs) ==> Distinct(Cooled(needs, h, nowMs))
  {
    hide CooledDown;
    if needs != [] {
      var front, id := needs[..|needs| - 1], needs[|needs| - 1];
      assert needs == front + [id];
      assert Distinct(needs) ==> id !in front;
      CooledAre(front, h, nowMs);
    }
  }

  lemma OneMoreCooled(needs: seq<EntryId>, h: seq<Record>, nowMs: nat, i: nat)
    requires i < |needs|
    ensures Cooled(needs[..i + 1], h, nowMs)
         == Cooled(needs[..i], h, nowMs) + if CooledDown(h, needs[i], nowMs) then [needs[i]] else []
  {
    hide CooledDown;
    assert needs[..i + 1][..i] == needs[..i];
  }

  lemma LastTells(h: seq<Record>, nowMs: nat, last: map<EntryId, nat>, id: EntryId)
    requires LastOf(h, nowMs, last)
    ensures CooledDown(h, id, nowMs) <==> id !in last || nowMs - 1000 * last[id] >= EXTENSION_COOLDOWN_MS
  {
    if id in last {
      var r :| r in h && r.entry == id && last[id] == Stamp(r);
      var s :| s in h && s.entry == id && Stamp(s) >= nowMs / 1000 - DAY;
      assert Stamp(s) <= last[s.entry];
    }
  }

  method CooldownEligible(needs: seq<EntryId>, h: seq<Record>, nowMs: nat) returns (eligible: seq<EntryId>)
    ensures eligible == Cooled(needs, h, nowMs)
    ensures forall id :: id in eligible <==> id in needs && CooledDown(h, id, nowMs)
    ensures Distinct(needs) ==> Distinct(eligible)
  {
    var last := LastExtendedAt(h, nowMs);
    eligible := [];
    assert Cooled(needs[..0], h, nowMs) == [];
    hide LastOf, Cooled, CooledDown, Distinct;
    for i := 0 to |needs|
      invariant eligible == Cooled(needs[..i], h, nowMs)
    {
      OneMoreCooled(needs, h, nowMs, i);
      LastTells(h, nowMs, last, needs[i]);
      if needs[i] !in last || nowMs - 1000 * last[needs[i]] >= EXTENSION_COOLDOWN_MS {
        eligible := eligible + [needs[i]];
      }
    }
    assert needs[..|needs|] == needs;
    CooledAre(needs, h, nowMs);
  }

  // What a cycle submits: nothing when rate-limited, else the entries that cooled down.
  method Plan(needs: seq<EntryId>, h: seq<Record>, nowMs: nat) returns (ids: seq<EntryId>)
    ensures ids == if IsRateLimited(h, nowMs) then [] else Cooled(needs, h, nowMs)
    ensures !IsRateLimited(h, nowMs) ==> forall id :: id in ids <==> id in needs && CooledDown(h, id, nowMs)
    ensures Distinct(needs) ==> Distinct(ids)
  {
    if IsRateLimited(h, nowMs) {
      return [];
    }
    ids := CooldownEligible(needs, h, nowMs);
  }

  // ---------------------------------------------------------------- runs of cycles

  // One cycle of the contract's task: checked at one time, its rows written at later ones.
  datatype Cycle = Cycle(checkedMs: nat, needs: set<EntryId>, rows: seq<Record>)

  function History(cycles: seq<Cycle>): seq<Record> {
    if cycles == [] then [] else History(cycles[..|cycles| - 1]) + cycles[|cycles| - 1].rows
  }

  // Rows are written only if the contract is not rate-limited, only for entries that needed an
  // extension and had cooled down, and once per entry.
  ghost predicate CycleOk(h: seq<Record>, c: Cycle) {
    && (c.rows != [] ==> !IsRateLimited(h, c.checkedMs))
    && (forall r :: r in c.rows ==> r.entry in c.needs && CooledDown(h, r.entry, c.checkedMs) && r.writtenMs >= c.checkedMs)
    && (forall i, j :: 0 <= i < j < |c.rows| ==> c.rows[i].entry != c.rows[j].entry)
    && (forall r :: r in h ==> r.writtenMs <= c.checkedMs)
  }

  ghost predicate RunOk(cycles: seq<Cycle>) {
    cycles == [] ||
    (RunOk(cycles[..|cycles| - 1]) && CycleOk(History(cycles[..|cycles| - 1]), cycles[|cycles| - 1]))
  }

  // What Plan allows, written after the check and once per entry, is such a cycle.
  lemma PlannedCycle(needs: seq<EntryId>, h: seq<Record>, nowMs: nat, ids: seq<EntryId>, rows: seq<Record>)
    requires IsRateLimited(h, nowMs) ==> ids == []
    requires !IsRateLimited(h, nowMs) ==> forall id :: id in ids <==> id in needs && CooledDown(h, id, nowMs)
    requires forall r :: r in h ==> r.writtenMs <= nowMs
    requires forall r :: r in rows ==> r.entry in ids && r.writtenMs >= nowMs
    requires forall i, j :: 0 <= i < j < |rows| ==> rows[i].entry != rows[j].entry
    ensures CycleOk(h, Cycle(nowMs, (set id | id in needs), rows))
  {
    if rows != [] {
      assert rows[0] in rows;
    }
  }

  lemma CooldownStep(h: seq<Record>, c: Cycle, old': Record, new': Record)
    requires CycleOk(h, c) && old' in h && new' in c.rows && old'.entry == new'.entry
    ensures Stamp(new') - Stamp(old') >= 300 && new'.writtenMs - old'.writtenMs > 299000
  {
  }

  // Two recorded extensions of one entry are at least 300 s apart on their stored stamps, and
  // more than 299 s apart in real time.
  lemma {:induction false} CooldownKept(cycles: seq<Cycle>, i: nat, j: nat)
    requires RunOk(cycles) && i < j < |History(cycles)|
    requires History(cycles)[i].entry == History(cycles)[j].entry
    ensures Stamp(History(cycles)[j]) - Stamp(History(cycles)[i]) >= 300
    ensures History(cycles)[j].writtenMs - History(cycles)[i].writtenMs > 299000
  {
    var h, c := History(cycles[..|cycles| - 1]), cycles[|cycles| - 1];
    if j < |h| {
      CooldownKept(cycles[..|cycles| - 1], i, j);
    } else if i < |h| {
      CooldownStep(h, c, History(cycles)[i], History(cycles)[j]);
    }
  }

  function CountIn(h: seq<Record>, lo: int, hi: int): nat {
    if h == [] then 0
    else CountIn(h[..|h| - 1], lo, hi) + (if lo <= Stamp(h[|h| - 1]) <= hi then 1 else 0)
  }

  lemma {:induction false} CountInConcat(a: seq<Record>, b: seq<Record>, lo: int, hi: int)
    ensures CountIn(a + b, lo, hi) == CountIn(a, lo, hi) + CountIn(b, lo, hi)
    ensures CountIn(b, lo, hi) <= |b|
  {
    if b == [] {
      assert a + b == a;
    } else {
      assert (a + b)[..|a + b| - 1] == a + b[..|b| - 1];
      CountInConcat(a, b[..|b| - 1], lo, hi);
    }
  }

  lemma {:induction false} CountInAtMostSince(h: seq<Record>, lo: int, hi: int, since: int)
    requires since <= lo
    ensures CountIn(h, lo, hi) <= CountSince(h, since)
  {
    if h != [] {
      CountInAtMostSince(h[..|h| - 1], lo, hi, since);
    }
  }

  lemma {:induction false} NoneIn(h: seq<Record>, lo: int, hi: int)
    requires forall r :: r in h ==> Stamp(r) > hi
    ensures CountIn(h, lo, hi) == 0
  {
    if h != [] {
      assert h[|h| - 1] in h;
      NoneIn(h[..|h| - 1], lo, hi);
    }
  }

  ghost predicate BatchesUpTo(cycles: seq<Cycle>, batch: nat) {
    forall c :: c in cycles ==> |c.rows| <= batch
  }

  // The rows of one cycle on top of a history.
  lemma HourlyStep(h: seq<Record>, c: Cycle, s: int)
    requires CycleOk(h, c) && exists r :: r in c.rows && Stamp(r) <= s + HOUR
    ensures CountIn(h, s, s + HOUR) <= HOURLY_RATE_LIMIT - 1
  {
    CountInAtMostSince(h, s, s + HOUR, c.checkedMs / 1000 - HOUR);
  }

  function InHour(h: seq<Record>, s: int): nat {
    CountIn(h, s, s + HOUR)
  }

  // An hour holds no new row, or at most four old ones.
  lemma HourAfterCycle(h: seq<Record>, c: Cycle, s: int)
    requires CycleOk(h, c)
    ensures InHour(h + c.rows, s) <= InHour(h, s) || InHour(h + c.rows, s) <= HOURLY_RATE_LIMIT - 1 + |c.rows|
  {
    CountInConcat(h, c.rows, s, s + HOUR);
    if exists r :: r in c.rows && Stamp(r) <= s + HOUR {
      HourlyStep(h, c, s);
    } else {
      NoneIn(c.rows, s, s + HOUR);
    }
    hide CountIn, CycleOk;
  }

  // Any hour of history holds at most four rows plus the rows of one cycle.
  lemma {:induction false} HourlyBound(cycles: seq<Cycle>, batch: nat, s: int)
    requires RunOk(cycles) && BatchesUpTo(cycles, batch)
    ensures InHour(History(cycles), s) <= HOURLY_RATE_LIMIT - 1 + batch
  {
    if cycles != [] {
      var front, c := cycles[..|cycles| - 1], cycles[|cycles| - 1];
      assert c in cycles && |c.rows| <= batch && BatchesUpTo(front, batch);
      assert RunOk(front) && CycleOk(History(front), c) && History(cycles) == History(front) + c.rows;
      hide CountIn, CycleOk, RunOk, BatchesUpTo, History;
      HourlyBound(front, batch, s);
      HourAfterCycle(History(front), c, s);
    }
  }

  ghost predicate HourlyLimitKept(cycles: seq<Cycle>) {
    forall s :: InHour(History(cycles), s) <= HOURLY_RATE_LIMIT
  }

  // The limit of five counts rows, and is checked before a cycle: it holds for every run
  // exactly when no cycle writes more than one row.
  lemma HourlyLimitKeptIff(batch: nat)
    ensures (forall cycles :: RunOk(cycles) && BatchesUpTo(cycles, batch) ==> HourlyLimitKept(cycles))
        <==> batch <= 1
  {
    if batch <= 1 {
      forall cycles | RunOk(cycles) && BatchesUpTo(cycles, batch) ensures HourlyLimitKept(cycles) {
        forall s ensures InHour(History(cycles), s) <= HOURLY_RATE_LIMIT {
          HourlyBound(cycles, batch, s);
        }
      }
    } else {
      SixInOneHour();
      assert !HourlyLimitKept([TwoRows(0), TwoRows(2), TwoRows(4)]);
      assert BatchesUpTo([TwoRows(0), TwoRows(2), TwoRows(4)], batch);
    }
  }

  // A cycle at time 0 extending entries i and i + 1.
  function TwoRows(i: nat): Cycle {
    Cycle(0, {i, i + 1}, [Record(i, 0), Record(i + 1, 0)])
  }

  lemma TwoMoreRows(h: seq<Record>, i: nat)
    requires |h| <= 4 && forall r :: r in h ==> r.entry < i && r.writtenMs == 0
    ensures CycleOk(h, TwoRows(i))
  {
    AllAtOnce(h);
  }

  lemma FourRows()
    ensures RunOk([TwoRows(0), TwoRows(2)])
    ensures History([TwoRows(0), TwoRows(2)]) == TwoRows(0).rows + TwoRows(2).rows
  {
    hide CycleOk, RunOk, History;
    TwoMoreRows([], 0);
    FirstCycle(TwoRows(0));
    TwoMoreRows(TwoRows(0).rows, 2);
    OneMoreCycle([TwoRows(0)], TwoRows(2));
    assert [TwoRows(0)] + [TwoRows(2)] == [TwoRows(0), TwoRows(2)];
  }

  // Three cycles of two rows each: the third sees four rows, and makes them six.
  lemma SixInOneHour()
    ensures var run := [TwoRows(0), TwoRows(2), TwoRows(4)];
      RunOk(run) && InHour(History(run), 0) == 6
  {
    FourRows();
    hide CycleOk, RunOk, History, InHour;
    var four := TwoRows(0).rows + TwoRows(2).rows;
    TwoMoreRows(four, 4);
    OneMoreCycle([TwoRows(0), TwoRows(2)], TwoRows(4));
    assert [TwoRows(0), TwoRows(2), TwoRows(4)] == [TwoRows(0), TwoRows(2)] + [TwoRows(4)];
    AllAtOnce(four + TwoRows(4).rows);
  }

  lemma FirstCycle(c: Cycle)
    requires CycleOk([], c)
    ensures RunOk([c]) && History([c]) == c.rows
  {
    assert [] + [c] == [c];
    assert History([]) == [];
    OneMoreCycle([], c);
    assert [] + c.rows == c.rows;
  }

  lemma OneMoreCycle(front: seq<Cycle>, c: Cycle)
    requires RunOk(front) && CycleOk(History(front), c)
    ensures RunOk(front + [c]) && History(front + [c]) == History(front) + c.rows
  {
  }

  lemma {:induction false} AllAtOnce(h: seq<Record>)
    requires forall r :: r in h ==> r.writtenMs == 0
    ensures InHour(h, 0) == |h| && CountSince(h, -HOUR) == |h|
  {
    if h != [] {
      assert h[|h| - 1] in h;
      AllAtOnce(h[..|h| - 1]);
    }
  }
}
