// Threshold detection in the monitor cycle (src/core/monitor.ts): fire, deduplicate, resolve.
module AlertMonitor {
  import opened Common

  type ConfigId = nat
  type EntryId = nat
  type Target = string

  datatype AlertConfig = AlertConfig(id: ConfigId, threshold: int, enabled: bool, primary: Target, additional: seq<Target>)

  datatype AlertRow = AlertRow(config: ConfigId, entry: EntryId, firedAtLedger: int, ttlAtFire: int, target: Target, resolved: bool)

  // One pass over a contract: its configs, its tracked entries, and the TTLs the RPC returned.
  datatype Cycle = Cycle(configs: seq<AlertConfig>, entries: seq<EntryId>, ttls: map<EntryId, int>, ledger: int)

  function Targets(c: AlertConfig): seq<Target> {
    [c.primary] + c.additional
  }

  // ---------------------------------------------------------------- the table

  predicate Matches(r: AlertRow, c: ConfigId, e: EntryId) {
    r.config == c && r.entry == e
  }

  function Unresolved(rows: seq<AlertRow>, c: ConfigId, e: EntryId): nat {
    if rows == [] then 0
    else
      var last := rows[|rows| - 1];
      Unresolved(rows[..|rows| - 1], c, e) + (if Matches(last, c, e) && !last.resolved then 1 else 0)
  }

  function Queued(rows: seq<AlertRow>, c: ConfigId, e: EntryId): nat {
    if rows == [] then 0
    else Queued(rows[..|rows| - 1], c, e) + (if Matches(rows[|rows| - 1], c, e) then 1 else 0)
  }

  // hasUnresolvedAlert
  predicate Open(rows: seq<AlertRow>, c: ConfigId, e: EntryId) {
    exists i :: 0 <= i < |rows| && Matches(rows[i], c, e) && !rows[i].resolved
  }

  function FiredRows(c: AlertConfig, e: EntryId, ledger: int, ttl: int): seq<AlertRow> {
    seq(|Targets(c)|, i requires 0 <= i < |Targets(c)| => AlertRow(c.id, e, ledger, ttl, Targets(c)[i], false))
  }

  // resolveAlerts
  function Resolved(rows: seq<AlertRow>, c: ConfigId, e: EntryId): seq<AlertRow> {
    seq(|rows|, i requires 0 <= i < |rows| => if Matches(rows[i], c, e) then rows[i].(resolved := true) else rows[i])
  }

  // ---------------------------------------------------------------- one observation

  function Observe(rows: seq<AlertRow>, c: AlertConfig, e: EntryId, ledger: int, ttl: int): seq<AlertRow> {
    if !c.enabled then rows
    else if ttl < c.threshold then
      if Open(rows, c.id, e) then rows else rows + FiredRows(c, e, ledger, ttl)
    else
      if Open(rows, c.id, e) then Resolved(rows, c.id, e) else rows
  }

  // Notifications of a resolution: to each target of the config, once for each resolved row.
  function Notified(rows: seq<AlertRow>, c: AlertConfig, e: EntryId, ttl: int): nat {
    if c.enabled && ttl >= c.threshold then Unresolved(rows, c.id, e) * |Targets(c)| else 0
  }

  function ObserveAll(rows: seq<AlertRow>, configs: seq<AlertConfig>, e: EntryId, ledger: int, ttl: int): seq<AlertRow> {
    if configs == [] then rows
    else Observe(ObserveAll(rows, configs[..|configs| - 1], e, ledger, ttl), configs[|configs| - 1], e, ledger, ttl)
  }

  function ProcessEntries(rows: seq<AlertRow>, c: Cycle, n: nat): seq<AlertRow>
    requires n <= |c.entries|
  {
    if n == 0 then rows
    else
      var before, e := ProcessEntries(rows, c, n - 1), c.entries[n - 1];
      if e in c.ttls then ObserveAll(before, c.configs, e, c.ledger, c.ttls[e]) else before
  }

  function Process(rows: seq<AlertRow>, c: Cycle): seq<AlertRow> {
    ProcessEntries(rows, c, |c.entries|)
  }

  // The cycle's counters: entries refreshed, alerts fired, alerts resolved.
  datatype Tally = Tally(updated: nat, crossed: nat, resolved: nat)

  function Plus(a: Tally, b: Tally): Tally {
    Tally(a.updated + b.updated, a.crossed + b.crossed, a.resolved + b.resolved)
  }

  function ObserveTally(rows: seq<AlertRow>, c: AlertConfig, e: EntryId, ttl: int): Tally {
    var open := Open(rows, c.id, e);
    Tally(0, if c.enabled && ttl < c.threshold && !open then 1 else 0,
          if c.enabled && ttl >= c.threshold && open then 1 else 0)
  }

  function ObserveAllTally(rows: seq<AlertRow>, configs: seq<AlertConfig>, e: EntryId, ledger: int, ttl: int): Tally {
    if configs == [] then Tally(1, 0, 0)
    else
      var front := configs[..|configs| - 1];
      Plus(ObserveAllTally(rows, front, e, ledger, ttl),
           ObserveTally(ObserveAll(rows, front, e, ledger, ttl), configs[|configs| - 1], e, ttl))
  }

  function ProcessTally(rows: seq<AlertRow>, c: Cycle, n: nat): Tally
    requires n <= |c.entries|
  {
    if n == 0 then Tally(0, 0, 0)
    else
      var e := c.entries[n - 1];
      if e in c.ttls
      then Plus(ProcessTally(rows, c, n - 1), ObserveAllTally(ProcessEntries(rows, c, n - 1), c.configs, e, c.ledger, c.ttls[e]))
      else ProcessTally(rows, c, n - 1)
  }

  function RunCycles(cycles: seq<Cycle>): seq<AlertRow> {
    if cycles == [] then [] else Process(RunCycles(cycles[..|cycles| - 1]), cycles[|cycles| - 1])
  }

  // The table and the loops that write it.
  class AlertStore {
    var rows: seq<AlertRow>

    constructor ()
      ensures rows == []
    {
      rows := [];
    }

    method HasUnresolvedAlert(c: ConfigId, e: EntryId) returns (found: bool)
      ensures found <==> Open(rows, c, e)
    {
      found := false;
      for i := 0 to |rows|
        invariant !found && forall j :: 0 <= j < i ==> !Matches(rows[j], c, e) || rows[j].resolved
      {
        if Matches(rows[i], c, e) && !rows[i].resolved {
          return true;
        }
      }
    }

    // Returns one config id per row it resolves.
    method ResolveAlerts(e: EntryId, c: ConfigId) returns (ids: seq<ConfigId>)
      modifies this
      ensures rows == Resolved(old(rows), c, e)
      ensures |ids| == Unresolved(old(rows), c, e) && forall i :: 0 <= i < |ids| ==> ids[i] == c
    {
      ids := [];
      var before := rows;
      var after: seq<AlertRow> := [];
      for i := 0 to |before|
        invariant after == Resolved(before[..i], c, e)
        invariant |ids| == Unresolved(before[..i], c, e) && forall j :: 0 <= j < |ids| ==> ids[j] == c
      {
        assert before[..i + 1][..i] == before[..i];
        if Matches(before[i], c, e) {
          if !before[i].resolved {
            ids := ids + [c];
          }
          after := after + [before[i].(resolved := true)];
        } else {
          after := after + [before[i]];
        }
      }
      assert before[..|before|] == before;
      rows := after;
    }

    // recordAlertFired, for the primary and the additional targets.
    method Fire(c: AlertConfig, e: EntryId, ledger: int, ttl: int)
      modifies this
      ensures rows == old(rows) + FiredRows(c, e, ledger, ttl)
    {
      var targets := [c.primary] + c.additional;
      for i := 0 to |targets|
        invariant rows == old(rows) + FiredRows(c, e, ledger, ttl)[..i]
      {
        rows := rows + [AlertRow(c.id, e, ledger, ttl, targets[i], false)];
      }
      assert FiredRows(c, e, ledger, ttl)[..|targets|] == FiredRows(c, e, ledger, ttl);
    }

    // One notification to every target for each resolved row.
    method Notify(ids: seq<ConfigId>, c: AlertConfig) returns (notifications: nat)
      ensures notifications == |ids| * (1 + |c.additional|)
    {
      notifications := 0;
      for i := 0 to |ids|
        invariant notifications == i * (1 + |c.additional|)
      {
        notifications := notifications + |[c.primary] + c.additional|;
      }
    }

    method ObserveConfig(c: AlertConfig, e: EntryId, ledger: int, ttl: int)
      returns (fired: bool, resolved: bool, notifications: nat)
      modifies this
      ensures rows == Observe(old(rows), c, e, ledger, ttl)
      ensures fired <==> c.enabled && ttl < c.threshold && !Open(old(rows), c.id, e)
      ensures resolved <==> c.enabled && ttl >= c.threshold && Open(old(rows), c.id, e)
      ensures notifications == Notified(old(rows), c, e, ttl)
    {
      fired, resolved, notifications := false, false, 0;
      OpenIffUnresolved(rows, c.id, e);
      hide Unresolved, Open, Resolved, FiredRows, Targets;
      if !c.enabled {
        return;
      }
      var open := HasUnresolvedAlert(c.id, e);
      if ttl < c.threshold {
        if !open {
          Fire(c, e, ledger, ttl);
          fired := true;
        }
      } else if open {
        var ids := ResolveAlerts(e, c.id);
        resolved := true;
        notifications := Notify(ids, c);
      }
    }

    method ObserveEntry(configs: seq<AlertConfig>, e: EntryId, ledger: int, ttl: int) returns (tally: Tally)
      modifies this
      ensures rows == ObserveAll(old(rows), configs, e, ledger, ttl)
      ensures tally == ObserveAllTally(old(rows), configs, e, ledger, ttl)
    {
      tally := Tally(1, 0, 0);
      for j := 0 to |configs|
        invariant rows == ObserveAll(old(rows), configs[..j], e, ledger, ttl)
        invariant tally == ObserveAllTally(old(rows), configs[..j], e, ledger, ttl)
      {
        assert configs[..j + 1][..j] == configs[..j];
        var fired, resolved, _ := ObserveConfig(configs[j], e, ledger, ttl);
        hide Observe, Open;
        tally := Tally(tally.updated, tally.crossed + (if fired then 1 else 0), tally.resolved + (if resolved then 1 else 0));
      }
      assert configs[..|configs|] == configs;
    }

    method ProcessContract(c: Cycle) returns (tally: Tally)
      modifies this
      ensures rows == Process(old(rows), c)
      ensures tally == ProcessTally(old(rows), c, |c.entries|)
    {
      tally := Tally(0, 0, 0);
      for i := 0 to |c.entries|
        invariant rows == ProcessEntries(old(rows), c, i) && tally == ProcessTally(old(rows), c, i)
      {
        if c.entries[i] in c.ttls {
          var t := ObserveEntry(c.configs, c.entries[i], c.ledger, c.ttls[c.entries[i]]);
          tally := Plus(tally, t);
        }
      }
    }
  }

  // ---------------------------------------------------------------- one pair, one observation

  lemma {:induction false} OpenIffUnresolved(rows: seq<AlertRow>, c: ConfigId, e: EntryId)
    ensures Open(rows, c, e) <==> Unresolved(rows, c, e) > 0
    ensures Unresolved(rows, c, e) <= Queued(rows, c, e)
  {
    if rows != [] {
      var front := rows[..|rows| - 1];
      OpenIffUnresolved(front, c, e);
      if Open(front, c, e) {
        var i :| 0 <= i < |front| && Matches(front[i], c, e) && !front[i].resolved;
        assert Matches(rows[i], c, e) && !rows[i].resolved;
      }
    }
  }

  lemma {:induction false} CountsOfConcat(a: seq<AlertRow>, b: seq<AlertRow>, c: ConfigId, e: EntryId)
    ensures Unresolved(a + b, c, e) == Unresolved(a, c, e) + Unresolved(b, c, e)
    ensures Queued(a + b, c, e) == Queued(a, c, e) + Queued(b, c, e)
  {
    if b == [] {
      assert a + b == a;
    } else {
      assert (a + b)[..|a + b| - 1] == a + b[..|b| - 1];
      CountsOfConcat(a, b[..|b| - 1], c, e);
    }
  }

  lemma {:induction false} CountsOfUniform(b: seq<AlertRow>, own: bool, c: ConfigId, e: EntryId)
    requires forall r :: r in b ==> !r.resolved && Matches(r, c, e) == own
    ensures Unresolved(b, c, e) == Queued(b, c, e) == if own then |b| else 0
  {
    if b != [] {
      assert b[|b| - 1] in b;
      CountsOfUniform(b[..|b| - 1], own, c, e);
    }
  }

  lemma {:induction false} CountsOfResolved(rows: seq<AlertRow>, k: ConfigId, x: EntryId, c: ConfigId, e: EntryId)
    ensures Unresolved(Resolved(rows, k, x), c, e) == if k == c && x == e then 0 else Unresolved(rows, c, e)
    ensures Queued(Resolved(rows, k, x), c, e) == Queued(rows, c, e)
  {
    if rows != [] {
      assert Resolved(rows, k, x)[..|rows| - 1] == Resolved(rows[..|rows| - 1], k, x);
      CountsOfResolved(rows[..|rows| - 1], k, x, c, e);
    }
  }

  // What an observation by config k of entry x does to the pair (c, e): nothing unless it is
  // the pair's own; firing adds one unresolved row per target, resolving clears them all.
  lemma ObserveEffect(rows: seq<AlertRow>, k: AlertConfig, x: EntryId, ledger: int, ttl: int, c: ConfigId, e: EntryId)
    ensures var after := Observe(rows, k, x, ledger, ttl); var u := Unresolved(rows, c, e);
      if k.id != c || x != e || !k.enabled then
        Unresolved(after, c, e) == u && Queued(after, c, e) == Queued(rows, c, e)
      else if ttl < k.threshold then
        && Unresolved(after, c, e) == (if u > 0 then u else 1 + |k.additional|)
        && Queued(after, c, e) == Queued(rows, c, e) + (if u > 0 then 0 else 1 + |k.additional|)
      else
        Unresolved(after, c, e) == 0 && Queued(after, c, e) == Queued(rows, c, e)
  {
    OpenIffUnresolved(rows, k.id, x);
    CountsOfConcat(rows, FiredRows(k, x, ledger, ttl), c, e);
    CountsOfUniform(FiredRows(k, x, ledger, ttl), k.id == c && x == e, c, e);
    CountsOfResolved(rows, k.id, x, c, e);
  }

  // The table is a log: rows stay where they are, and only their resolved flag ever rises.
  ghost predicate Extends(a: seq<AlertRow>, b: seq<AlertRow>) {
    && |a| <= |b|
    && forall i :: 0 <= i < |a| ==> b[i] == a[i].(resolved := b[i].resolved) && (a[i].resolved ==> b[i].resolved)
  }

  // What one observation writes: on firing, one open row for the primary target, then one for each
  // additional one in their order, with the ledger and the TTL it was fired at; on resolving, the flag of the pair's rows.
  lemma ObservedRows(rows: seq<AlertRow>, k: AlertConfig, x: EntryId, ledger: int, ttl: int)
    ensures var after := Observe(rows, k, x, ledger, ttl); var n := |after| - |rows|;
      && Extends(rows, after)
      && (n != 0 <==> k.enabled && ttl < k.threshold && !Open(rows, k.id, x))
      && (n != 0 ==>
            && n == 1 + |k.additional|
            && after[|rows|] == AlertRow(k.id, x, ledger, ttl, k.primary, false)
            && forall j :: 0 <= j < |k.additional| ==>
                 after[|rows| + 1 + j] == AlertRow(k.id, x, ledger, ttl, k.additional[j], false))
      && (forall i :: 0 <= i < |rows| ==>
            (after[i] != rows[i] <==> k.enabled && ttl >= k.threshold && Matches(rows[i], k.id, x) && !rows[i].resolved))
  {
  }

  lemma {:induction false} ObserveAllExtends(rows: seq<AlertRow>, configs: seq<AlertConfig>, x: EntryId, ledger: int, ttl: int)
    ensures Extends(rows, ObserveAll(rows, configs, x, ledger, ttl))
  {
    if configs != [] {
      var front := configs[..|configs| - 1];
      ObserveAllExtends(rows, front, x, ledger, ttl);
      ObservedRows(ObserveAll(rows, front, x, ledger, ttl), configs[|configs| - 1], x, ledger, ttl);
      hide Observe, Open;
    }
  }

  lemma {:induction false} EntriesExtend(rows: seq<AlertRow>, c: Cycle, n: nat)
    requires n <= |c.entries|
    ensures Extends(rows, ProcessEntries(rows, c, n))
  {
    if n > 0 {
      var e := c.entries[n - 1];
      EntriesExtend(rows, c, n - 1);
      if e in c.ttls {
        ObserveAllExtends(ProcessEntries(rows, c, n - 1), c.configs, e, c.ledger, c.ttls[e]);
      }
      hide ObserveAll;
    }
  }

  // Later cycles never remove, reopen or rewrite a row.
  lemma {:induction false} TableIsALog(cycles: seq<Cycle>, k: nat)
    requires k <= |cycles|
    ensures Extends(RunCycles(cycles[..k]), RunCycles(cycles))
  {
    if k == |cycles| {
      assert cycles[..k] == cycles;
    } else {
      var front, c := cycles[..|cycles| - 1], cycles[|cycles| - 1];
      assert front[..k] == cycles[..k];
      TableIsALog(front, k);
      EntriesExtend(RunCycles(front), c, |c.entries|);
      hide ProcessEntries;
    }
  }

  // ---------------------------------------------------------------- one pair, one cycle

  // The enabled config c of a cycle, if the cycle observes entry e through it.
  function Watching(configs: seq<AlertConfig>, c: ConfigId): Option<AlertConfig> {
    if configs == [] then None
    else
      var last := configs[|configs| - 1];
      if last.id == c && last.enabled then Some(last) else Watching(configs[..|configs| - 1], c)
  }

  // Config ids and entry ids are primary keys.
  ghost predicate WellFormed(c: Cycle) {
    && Distinct(c.entries)
    && forall i, j :: 0 <= i < j < |c.configs| ==> c.configs[i].id != c.configs[j].id
  }

  ghost predicate Seen(cy: Cycle, c: ConfigId, e: EntryId) {
    e in cy.entries && e in cy.ttls && Watching(cy.configs, c).Some?
  }

  ghost predicate Below(cy: Cycle, c: ConfigId, e: EntryId)
    requires Seen(cy, c, e)
  {
    cy.ttls[e] < Watching(cy.configs, c).value.threshold
  }

  ghost predicate PairStep(before: seq<AlertRow>, after: seq<AlertRow>, seen: Option<AlertConfig>, ttl: int, c: ConfigId, e: EntryId) {
    var u, q := Unresolved(before, c, e), Queued(before, c, e);
    if seen.None? then Unresolved(after, c, e) == u && Queued(after, c, e) == q
    else if ttl < seen.value.threshold then
      var t := 1 + |seen.value.additional|;
      Unresolved(after, c, e) == (if u > 0 then u else t) && Queued(after, c, e) == q + (if u > 0 then 0 else t)
    else Unresolved(after, c, e) == 0 && Queued(after, c, e) == q
  }

  lemma {:induction false} ObserveAllEffect(rows: seq<AlertRow>, configs: seq<AlertConfig>, x: EntryId, ledger: int, ttl: int, c: ConfigId, e: EntryId)
    requires forall i, j :: 0 <= i < j < |configs| ==> configs[i].id != configs[j].id
    ensures PairStep(rows, ObserveAll(rows, configs, x, ledger, ttl), if x == e then Watching(configs, c) else None, ttl, c, e)
  {
    if configs != [] {
      var front, last := configs[..|configs| - 1], configs[|configs| - 1];
      ObserveAllEffect(rows, front, x, ledger, ttl, c, e);
      ObserveEffect(ObserveAll(rows, front, x, ledger, ttl), last, x, ledger, ttl, c, e);
      if last.id == c {
        NotWatching(front, c);
      }
    }
  }

  lemma {:induction false} NotWatching(configs: seq<AlertConfig>, c: ConfigId)
    requires forall i :: 0 <= i < |configs| ==> configs[i].id != c
    ensures Watching(configs, c).None?
  {
    if configs != [] {
      NotWatching(configs[..|configs| - 1], c);
    }
  }

  lemma {:induction false} EntriesEffect(rows: seq<AlertRow>, cy: Cycle, n: nat, c: ConfigId, e: EntryId)
    requires WellFormed(cy) && n <= |cy.entries|
    ensures PairStep(rows, ProcessEntries(rows, cy, n),
      if e in cy.entries[..n] && e in cy.ttls then Watching(cy.configs, c) else None,
      if e in cy.ttls then cy.ttls[e] else 0, c, e)
  {
    if n > 0 {
      EntriesEffect(rows, cy, n - 1, c, e);
      assert cy.entries[..n] == cy.entries[..n - 1] + [cy.entries[n - 1]];
      var x := cy.entries[n - 1];
      if x in cy.ttls {
        ObserveAllEffect(ProcessEntries(rows, cy, n - 1), cy.configs, x, cy.ledger, cy.ttls[x], c, e);
      }
      assert x == e ==> e !in cy.entries[..n - 1];
    }
  }

  lemma CycleEffect(rows: seq<AlertRow>, cy: Cycle, c: ConfigId, e: EntryId)
    requires WellFormed(cy)
    ensures PairStep(rows, Process(rows, cy), if Seen(cy, c, e) then Watching(cy.configs, c) else None,
      if e in cy.ttls then cy.ttls[e] else 0, c, e)
  {
    EntriesEffect(rows, cy, |cy.entries|, c, e);
    assert cy.entries[..|cy.entries|] == cy.entries;
  }

  // A row that a cycle may write: open, with the cycle's ledger and its entry's TTL, for a target
  // of an enabled config that the TTL is below.
  ghost predicate WrittenBy(cy: Cycle, r: AlertRow) {
    && !r.resolved && r.firedAtLedger == cy.ledger
    && r.entry in cy.entries && r.entry in cy.ttls && r.ttlAtFire == cy.ttls[r.entry]
    && exists k :: 0 <= k < |cy.configs| && FiresFor(cy.configs[k], r)
  }

  ghost predicate FiresFor(c: AlertConfig, r: AlertRow) {
    c.enabled && r.config == c.id && r.ttlAtFire < c.threshold && (r.target == c.primary || r.target in c.additional)
  }

  // A row before, or one that may have been written and perhaps resolved since.
  ghost predicate OnlyWritten(cy: Cycle, was: seq<AlertRow>, now: seq<AlertRow>) {
    |was| <= |now| && forall i :: |was| <= i < |now| ==> WrittenBy(cy, now[i].(resolved := false))
  }

  lemma {:induction false} ConfigsWrite(rows: seq<AlertRow>, cy: Cycle, x: EntryId, j: nat)
    requires j <= |cy.configs| && x in cy.entries && x in cy.ttls
    ensures OnlyWritten(cy, rows, ObserveAll(rows, cy.configs[..j], x, cy.ledger, cy.ttls[x]))
  {
    if j > 0 {
      var c := cy.configs[j - 1];
      assert cy.configs[..j][..j - 1] == cy.configs[..j - 1];
      ConfigsWrite(rows, cy, x, j - 1);
      var before := ObserveAll(rows, cy.configs[..j - 1], x, cy.ledger, cy.ttls[x]);
      var after := Observe(before, c, x, cy.ledger, cy.ttls[x]);
      ObservedRows(before, c, x, cy.ledger, cy.ttls[x]);
      forall i | |before| <= i < |after| ensures WrittenBy(cy, after[i]) {
        assert FiresFor(c, after[i]) by {
          if i > |before| {
            assert after[|before| + 1 + (i - |before| - 1)] == after[i];
          }
        }
      }
      hide Observe, ObserveAll, WrittenBy, Open;
    }
  }

  // A cycle writes only rows for what it found: its own ledger, the TTLs the RPC returned, the
  // targets of the configs that fire.
  lemma {:induction false} EntriesWrite(rows: seq<AlertRow>, cy: Cycle, n: nat)
    requires n <= |cy.entries|
    ensures OnlyWritten(cy, rows, ProcessEntries(rows, cy, n))
  {
    if n > 0 {
      EntriesWrite(rows, cy, n - 1);
      var x, before := cy.entries[n - 1], ProcessEntries(rows, cy, n - 1);
      if x in cy.ttls {
        assert cy.configs[..|cy.configs|] == cy.configs;
        ConfigsWrite(before, cy, x, |cy.configs|);
        ObserveAllExtends(before, cy.configs, x, cy.ledger, cy.ttls[x]);
      }
      hide ObserveAll, WrittenBy;
    }
  }

  lemma CycleWrites(rows: seq<AlertRow>, cy: Cycle)
    ensures OnlyWritten(cy, rows, Process(rows, cy))
  {
    EntriesWrite(rows, cy, |cy.entries|);
  }

  // ---------------------------------------------------------------- the counters

  // Entries that the RPC returned.
  function Returned(cy: Cycle, entries: seq<EntryId>): nat {
    if entries == [] then 0
    else Returned(cy, entries[..|entries| - 1]) + if entries[|entries| - 1] in cy.ttls then 1 else 0
  }

  // Alerts of entry e that are open in b and not in a.
  function Newly(a: seq<AlertRow>, b: seq<AlertRow>, configs: seq<AlertConfig>, e: EntryId): nat {
    if configs == [] then 0
    else
      var c := configs[|configs| - 1].id;
      Newly(a, b, configs[..|configs| - 1], e) + if !Open(a, c, e) && Open(b, c, e) then 1 else 0
  }

  function AllNewly(a: seq<AlertRow>, b: seq<AlertRow>, configs: seq<AlertConfig>, entries: seq<EntryId>): nat {
    if entries == [] then 0
    else AllNewly(a, b, configs, entries[..|entries| - 1]) + Newly(a, b, configs, entries[|entries| - 1])
  }

  lemma {:induction false} WatchingIs(configs: seq<AlertConfig>, j: nat)
    requires j < |configs| && forall i, k :: 0 <= i < k < |configs| ==> configs[i].id != configs[k].id
    ensures Watching(configs, configs[j].id) == if configs[j].enabled then Some(configs[j]) else None
  {
    var front := configs[..|configs| - 1];
    if j < |front| {
      assert front[j] == configs[j];
      WatchingIs(front, j);
    } else {
      NotWatching(front, configs[j].id);
    }
  }

  // What a whole cycle makes of the alert of config j and entry e.
  lemma CycleOpens(rows: seq<AlertRow>, cy: Cycle, j: nat, e: EntryId)
    requires WellFormed(cy) && j < |cy.configs| && e in cy.entries
    ensures var c := cy.configs[j]; var was, now := Open(rows, c.id, e), Open(Process(rows, cy), c.id, e);
      if c.enabled && e in cy.ttls then now <==> cy.ttls[e] < c.threshold else now == was
  {
    var c := cy.configs[j];
    WatchingIs(cy.configs, j);
    CycleEffect(rows, cy, c.id, e);
    OpenIffUnresolved(rows, c.id, e);
    OpenIffUnresolved(Process(rows, cy), c.id, e);
    hide Process, Open, Unresolved, Queued;
  }

  // What the n-th entry's config j finds: the pair as it was before the cycle.
  lemma FindsItsPair(rows: seq<AlertRow>, cy: Cycle, n: nat, j: nat)
    requires WellFormed(cy) && n < |cy.entries| && j < |cy.configs| && cy.entries[n] in cy.ttls
    ensures var c, e := cy.configs[j], cy.entries[n];
      Open(ObserveAll(ProcessEntries(rows, cy, n), cy.configs[..j], e, cy.ledger, cy.ttls[e]), c.id, e) == Open(rows, c.id, e)
  {
    var c, e := cy.configs[j], cy.entries[n];
    var before := ProcessEntries(rows, cy, n);
    var found := ObserveAll(before, cy.configs[..j], e, cy.ledger, cy.ttls[e]);
    assert e !in cy.entries[..n];
    EntriesEffect(rows, cy, n, c.id, e);
    NotWatching(cy.configs[..j], c.id);
    ObserveAllEffect(before, cy.configs[..j], e, cy.ledger, cy.ttls[e], c.id, e);
    OpenIffUnresolved(rows, c.id, e);
    OpenIffUnresolved(found, c.id, e);
    hide Open, Unresolved, Queued, ObserveAll, ProcessEntries;
  }

  lemma OneMoreTally(rows: seq<AlertRow>, front: seq<AlertConfig>, last: AlertConfig, e: EntryId, ledger: int, ttl: int)
    ensures ObserveAllTally(rows, front + [last], e, ledger, ttl)
         == Plus(ObserveAllTally(rows, front, e, ledger, ttl), ObserveTally(ObserveAll(rows, front, e, ledger, ttl), last, e, ttl))
  {
    assert (front + [last])[..|front|] == front;
    hide ObserveAll, ObserveTally;
  }

  lemma NothingTallied(rows: seq<AlertRow>, a: seq<AlertRow>, b: seq<AlertRow>, e: EntryId, ledger: int, ttl: int)
    ensures ObserveAllTally(rows, [], e, ledger, ttl) == Tally(1, 0, 0) && Newly(a, b, [], e) == Newly(b, a, [], e) == 0
  {
  }

  lemma TallyOfOne(rows: seq<AlertRow>, c: AlertConfig, e: EntryId, ttl: int)
    ensures forall t: Tally :: Plus(t, ObserveTally(rows, c, e, ttl)) == Tally(t.updated,
      t.crossed + (if c.enabled && ttl < c.threshold && !Open(rows, c.id, e) then 1 else 0),
      t.resolved + (if c.enabled && ttl >= c.threshold && Open(rows, c.id, e) then 1 else 0))
  {
  }

  lemma OneMoreNewly(a: seq<AlertRow>, b: seq<AlertRow>, front: seq<AlertConfig>, last: AlertConfig, e: EntryId)
    ensures Newly(a, b, front + [last], e)
         == Newly(a, b, front, e) + if !Open(a, last.id, e) && Open(b, last.id, e) then 1 else 0
  {
    assert (front + [last])[..|front|] == front;
    hide Open;
  }

  lemma {:induction false} EntryTally(rows: seq<AlertRow>, cy: Cycle, n: nat, j: nat)
    requires WellFormed(cy) && n < |cy.entries| && j <= |cy.configs| && cy.entries[n] in cy.ttls
    ensures var e, after := cy.entries[n], Process(rows, cy);
      ObserveAllTally(ProcessEntries(rows, cy, n), cy.configs[..j], e, cy.ledger, cy.ttls[e])
      == Tally(1, Newly(rows, after, cy.configs[..j], e), Newly(after, rows, cy.configs[..j], e))
  {
    hide *;
    var e := cy.entries[n];
    if j == 0 {
      NothingTallied(ProcessEntries(rows, cy, n), rows, Process(rows, cy), e, cy.ledger, cy.ttls[e]);
      assert cy.configs[..0] == [];
    } else {
      var front, last := cy.configs[..j - 1], cy.configs[j - 1];
      assert cy.configs[..j] == front + [last];
      EntryTally(rows, cy, n, j - 1);
      FindsItsPair(rows, cy, n, j - 1);
      CycleOpens(rows, cy, j - 1, e);
      OneMoreTally(ProcessEntries(rows, cy, n), front, last, e, cy.ledger, cy.ttls[e]);
      OneMoreNewly(rows, Process(rows, cy), front, last, e);
      OneMoreNewly(Process(rows, cy), rows, front, last, e);
      TallyOfOne(ObserveAll(ProcessEntries(rows, cy, n), front, e, cy.ledger, cy.ttls[e]), last, e, cy.ttls[e]);
    }
  }

  lemma {:induction false} UnseenTally(rows: seq<AlertRow>, cy: Cycle, e: EntryId, j: nat)
    requires WellFormed(cy) && e in cy.entries && e !in cy.ttls && j <= |cy.configs|
    ensures var after := Process(rows, cy);
      Newly(rows, after, cy.configs[..j], e) == Newly(after, rows, cy.configs[..j], e) == 0
  {
    if j > 0 {
      assert cy.configs[..j][..j - 1] == cy.configs[..j - 1];
      UnseenTally(rows, cy, e, j - 1);
      CycleOpens(rows, cy, j - 1, e);
      hide Open, Process;
    }
  }

  lemma {:induction false} TallyOfEntries(rows: seq<AlertRow>, cy: Cycle, n: nat)
    requires WellFormed(cy) && n <= |cy.entries|
    ensures var after, es := Process(rows, cy), cy.entries[..n];
      ProcessTally(rows, cy, n)
      == Tally(Returned(cy, es), AllNewly(rows, after, cy.configs, es), AllNewly(after, rows, cy.configs, es))
  {
    if n > 0 {
      var e := cy.entries[n - 1];
      assert cy.entries[..n][..n - 1] == cy.entries[..n - 1];
      assert cy.configs[..|cy.configs|] == cy.configs;
      TallyOfEntries(rows, cy, n - 1);
      if e in cy.ttls {
        EntryTally(rows, cy, n - 1, |cy.configs|);
      } else {
        UnseenTally(rows, cy, e, |cy.configs|);
      }
      hide Newly, ObserveAllTally, ProcessEntries, Process;
    }
  }

  // The counters of a cycle: the entries the RPC returned, the alerts that are open after the
  // cycle and were not before, and those that were and are not.
  lemma CountersAreChanges(rows: seq<AlertRow>, cy: Cycle)
    requires WellFormed(cy)
    ensures var after := Process(rows, cy);
      ProcessTally(rows, cy, |cy.entries|)
      == Tally(Returned(cy, cy.entries), AllNewly(rows, after, cy.configs, cy.entries), AllNewly(after, rows, cy.configs, cy.entries))
  {
    TallyOfEntries(rows, cy, |cy.entries|);
    assert cy.entries[..|cy.entries|] == cy.entries;
  }

  // ---------------------------------------------------------------- every run of cycles

  ghost predicate AllWellFormed(cycles: seq<Cycle>) {
    forall i :: 0 <= i < |cycles| ==> WellFormed(cycles[i])
  }

  // Whether the last observation of the pair was below the threshold.
  ghost predicate LastBelow(cycles: seq<Cycle>, c: ConfigId, e: EntryId) {
    cycles != [] &&
    var last := cycles[|cycles| - 1];
    if Seen(last, c, e) then Below(last, c, e) else LastBelow(cycles[..|cycles| - 1], c, e)
  }

  // A cycle fires for the pair: it is seen below, and was not below before.
  ghost predicate Fires(cycles: seq<Cycle>, k: nat, c: ConfigId, e: EntryId)
    requires k < |cycles|
  {
    Seen(cycles[k], c, e) && Below(cycles[k], c, e) && !LastBelow(cycles[..k], c, e)
  }

  ghost predicate Resolves(cycles: seq<Cycle>, k: nat, c: ConfigId, e: EntryId)
    requires k < |cycles|
  {
    Seen(cycles[k], c, e) && !Below(cycles[k], c, e) && LastBelow(cycles[..k], c, e)
  }

  lemma {:induction false} UnresolvedIffLastBelow(cycles: seq<Cycle>, c: ConfigId, e: EntryId)
    requires AllWellFormed(cycles)
    ensures Unresolved(RunCycles(cycles), c, e) > 0 <==> LastBelow(cycles, c, e)
  {
    if cycles != [] {
      var front, last := cycles[..|cycles| - 1], cycles[|cycles| - 1];
      UnresolvedIffLastBelow(front, c, e);
      CycleEffect(RunCycles(front), last, c, e);
    }
  }

  // An alert is open exactly when the last TTL seen while its config was enabled was below the
  // threshold. Missing entries and disabled configs leave it as it was.
  lemma OpenIffLastBelow(cycles: seq<Cycle>, c: ConfigId, e: EntryId)
    requires AllWellFormed(cycles)
    ensures Open(RunCycles(cycles), c, e) <==> LastBelow(cycles, c, e)
  {
    UnresolvedIffLastBelow(cycles, c, e);
    OpenIffUnresolved(RunCycles(cycles), c, e);
  }

  // What the firings of a run put in the queue: one row per target each.
  ghost function RowsFired(cycles: seq<Cycle>, c: ConfigId, e: EntryId): nat {
    if cycles == [] then 0
    else
      var k := |cycles| - 1;
      RowsFired(cycles[..k], c, e)
      + (if Fires(cycles, k, c, e) then 1 + |Watching(cycles[k].configs, c).value.additional| else 0)
  }

  lemma {:induction false} QueueHoldsTheFirings(cycles: seq<Cycle>, c: ConfigId, e: EntryId)
    requires AllWellFormed(cycles)
    ensures Queued(RunCycles(cycles), c, e) == RowsFired(cycles, c, e)
  {
    if cycles != [] {
      var front, last := cycles[..|cycles| - 1], cycles[|cycles| - 1];
      QueueHoldsTheFirings(front, c, e);
      UnresolvedIffLastBelow(front, c, e);
      CycleEffect(RunCycles(front), last, c, e);
    }
  }

  ghost function Firings(cycles: seq<Cycle>, c: ConfigId, e: EntryId): nat {
    if cycles == [] then 0
    else Firings(cycles[..|cycles| - 1], c, e) + (if Fires(cycles, |cycles| - 1, c, e) then 1 else 0)
  }

  ghost function Resolutions(cycles: seq<Cycle>, c: ConfigId, e: EntryId): nat {
    if cycles == [] then 0
    else Resolutions(cycles[..|cycles| - 1], c, e) + (if Resolves(cycles, |cycles| - 1, c, e) then 1 else 0)
  }

  // Firings and resolutions alternate, starting with a firing: at every point of a run there
  // is one more firing than resolutions if an alert is open, and equally many if not.
  lemma {:induction false} FiringsAlternate(cycles: seq<Cycle>, c: ConfigId, e: EntryId)
    requires AllWellFormed(cycles)
    ensures Firings(cycles, c, e) == Resolutions(cycles, c, e) + (if Open(RunCycles(cycles), c, e) then 1 else 0)
  {
    OpenIffLastBelow(cycles, c, e);
    if cycles != [] {
      FiringsAlternate(cycles[..|cycles| - 1], c, e);
      OpenIffLastBelow(cycles[..|cycles| - 1], c, e);
    }
  }

  // ---------------------------------------------------------------- notifications of a run

  // The notifications for the pair (c, e) that a cycle sends.
  function NotifiedAll(rows: seq<AlertRow>, configs: seq<AlertConfig>, e: EntryId, ledger: int, ttl: int, c: ConfigId): nat {
    if configs == [] then 0
    else
      var front, last := configs[..|configs| - 1], configs[|configs| - 1];
      NotifiedAll(rows, front, e, ledger, ttl, c)
      + if last.id == c then Notified(ObserveAll(rows, front, e, ledger, ttl), last, e, ttl) else 0
  }

  function NotifiedEntries(rows: seq<AlertRow>, cy: Cycle, n: nat, c: ConfigId, e: EntryId): nat
    requires n <= |cy.entries|
  {
    if n == 0 then 0
    else
      var before, x := ProcessEntries(rows, cy, n - 1), cy.entries[n - 1];
      NotifiedEntries(rows, cy, n - 1, c, e)
      + if x == e && x in cy.ttls then NotifiedAll(before, cy.configs, x, cy.ledger, cy.ttls[x], c) else 0
  }

  ghost function WouldNotify(rows: seq<AlertRow>, seen: Option<AlertConfig>, ttl: int, c: ConfigId, e: EntryId): nat {
    if seen.Some? && ttl >= seen.value.threshold then Unresolved(rows, c, e) * (1 + |seen.value.additional|) else 0
  }

  lemma {:induction false} NotifiedAllEffect(rows: seq<AlertRow>, configs: seq<AlertConfig>, e: EntryId, ledger: int, ttl: int, c: ConfigId)
    requires forall i, j :: 0 <= i < j < |configs| ==> configs[i].id != configs[j].id
    ensures NotifiedAll(rows, configs, e, ledger, ttl, c) == WouldNotify(rows, Watching(configs, c), ttl, c, e)
  {
    if configs != [] {
      var front, last := configs[..|configs| - 1], configs[|configs| - 1];
      NotifiedAllEffect(rows, front, e, ledger, ttl, c);
      if last.id == c {
        NotWatching(front, c);
        ObserveAllEffect(rows, front, e, ledger, ttl, c, e);
      }
      hide ObserveAll, Unresolved;
    }
  }

  lemma {:induction false} NotifiedEntriesEffect(rows: seq<AlertRow>, cy: Cycle, n: nat, c: ConfigId, e: EntryId)
    requires WellFormed(cy) && n <= |cy.entries|
    ensures NotifiedEntries(rows, cy, n, c, e)
      == if e in cy.entries[..n] && e in cy.ttls then WouldNotify(rows, Watching(cy.configs, c), cy.ttls[e], c, e) else 0
  {
    if n > 0 {
      var x := cy.entries[n - 1];
      assert cy.entries[..n] == cy.entries[..n - 1] + [x];
      NotifiedEntriesEffect(rows, cy, n - 1, c, e);
      if x == e && x in cy.ttls {
        assert e !in cy.entries[..n - 1];
        NotifiedAllEffect(ProcessEntries(rows, cy, n - 1), cy.configs, x, cy.ledger, cy.ttls[x], c);
        EntriesEffect(rows, cy, n - 1, c, e);
      }
      hide NotifiedAll, ProcessEntries, Unresolved, Watching;
    }
  }

  // With how many rows the present episode was opened: one per target of its firing.
  ghost function OpenedWith(cycles: seq<Cycle>, c: ConfigId, e: EntryId): nat {
    if cycles == [] then 0
    else
      var k := |cycles| - 1;
      if Fires(cycles, k, c, e) then 1 + |Watching(cycles[k].configs, c).value.additional|
      else if Resolves(cycles, k, c, e) then 0
      else OpenedWith(cycles[..k], c, e)
  }

  lemma {:induction false} UnresolvedIsOpenedWith(cycles: seq<Cycle>, c: ConfigId, e: EntryId)
    requires AllWellFormed(cycles)
    ensures Unresolved(RunCycles(cycles), c, e) == OpenedWith(cycles, c, e)
  {
    if cycles != [] {
      var front, last := cycles[..|cycles| - 1], cycles[|cycles| - 1];
      UnresolvedIsOpenedWith(front, c, e);
      UnresolvedIffLastBelow(front, c, e);
      CycleEffect(RunCycles(front), last, c, e);
      hide Unresolved, Process, Watching;
    }
  }

  // Cycle j fired the alert that is open after k cycles, with t targets.
  ghost predicate FiredAt(cycles: seq<Cycle>, j: nat, k: nat, c: ConfigId, e: EntryId, t: nat)
    requires k <= |cycles|
  {
    && j < k && Fires(cycles, j, c, e) && t == 1 + |Watching(cycles[j].configs, c).value.additional|
    && forall i :: j < i < k ==> !Fires(cycles, i, c, e) && !Resolves(cycles, i, c, e)
  }

  lemma {:induction false} OpenedByAFiring(cycles: seq<Cycle>, k: nat, c: ConfigId, e: EntryId)
    requires k <= |cycles| && LastBelow(cycles[..k], c, e)
    ensures exists j :: FiredAt(cycles, j, k, c, e, OpenedWith(cycles[..k], c, e))
  {
    var n := k - 1;
    assert cycles[..k][..n] == cycles[..n];
    assert Fires(cycles[..k], n, c, e) == Fires(cycles, n, c, e) && Resolves(cycles[..k], n, c, e) == Resolves(cycles, n, c, e);
    if Fires(cycles, n, c, e) {
      assert FiredAt(cycles, n, k, c, e, OpenedWith(cycles[..k], c, e));
    } else {
      OpenedByAFiring(cycles, n, c, e);
      var j :| FiredAt(cycles, j, n, c, e, OpenedWith(cycles[..n], c, e));
      assert FiredAt(cycles, j, k, c, e, OpenedWith(cycles[..k], c, e));
    }
  }

  lemma RunOfPrefix(cycles: seq<Cycle>, k: nat)
    requires AllWellFormed(cycles) && k <= |cycles|
    ensures AllWellFormed(cycles[..k])
  {
  }

  // Over every run, a cycle that resolves the pair's alert sends each of its t present targets
  // one notification for every target that the alert was fired to, so one each if and only if it
  // was fired to one; other cycles send none for the pair.
  lemma NotificationsPerResolution(cycles: seq<Cycle>, k: nat, c: ConfigId, e: EntryId)
    requires AllWellFormed(cycles) && k < |cycles|
    ensures var sent := NotifiedEntries(RunCycles(cycles[..k]), cycles[k], |cycles[k].entries|, c, e);
      if Resolves(cycles, k, c, e) then
        var t, fired := 1 + |Watching(cycles[k].configs, c).value.additional|, OpenedWith(cycles[..k], c, e);
        && (exists j :: FiredAt(cycles, j, k, c, e, fired))
        && sent == fired * t && (sent == t <==> fired == 1)
      else sent == 0
  {
    var cy, rows := cycles[k], RunCycles(cycles[..k]);
    assert cy.entries[..|cy.entries|] == cy.entries;
    RunOfPrefix(cycles, k);
    NotifiedEntriesEffect(rows, cy, |cy.entries|, c, e);
    UnresolvedIsOpenedWith(cycles[..k], c, e);
    UnresolvedIffLastBelow(cycles[..k], c, e);
    if Resolves(cycles, k, c, e) {
      OpenedByAFiring(cycles, k, c, e);
      OnceEachIff(OpenedWith(cycles[..k], c, e), 1 + |Watching(cy.configs, c).value.additional|);
    }
    hide NotifiedEntries, RunCycles, OpenedWith, Unresolved, Watching, FiredAt;
  }

  lemma OnceEachIff(fired: nat, t: nat)
    requires t >= 1
    ensures fired * t == t <==> fired == 1
  {
    if fired > 1 {
      assert fired * t == t + (fired - 1) * t;
    }
  }

  // For two configs that watch together, an open lower threshold implies an open higher one.
  lemma {:induction false} LowerOpenImpliesHigherOpen(cycles: seq<Cycle>, low: ConfigId, high: ConfigId, e: EntryId)
    requires AllWellFormed(cycles)
    requires forall i :: 0 <= i < |cycles| ==>
      && Watching(cycles[i].configs, low).Some? == Watching(cycles[i].configs, high).Some?
      && (Watching(cycles[i].configs, low).Some? ==>
            Watching(cycles[i].configs, low).value.threshold <= Watching(cycles[i].configs, high).value.threshold)
    ensures Open(RunCycles(cycles), low, e) ==> Open(RunCycles(cycles), high, e)
  {
    OpenIffLastBelow(cycles, low, e);
    OpenIffLastBelow(cycles, high, e);
    if cycles != [] {
      var front := cycles[..|cycles| - 1];
      LowerOpenImpliesHigherOpen(front, low, high, e);
      OpenIffLastBelow(front, low, e);
      OpenIffLastBelow(front, high, e);
    }
  }
}
