// Snapshots and changes of entry values (src/core/state_diff.ts, with the two tables' functions
// of src/db/repositories.ts). SHA-256 is taken to be injective.
module StateDiff {
  import opened Common

  type EntryId = nat
  type Xdr = string

  datatype Digest = Sha256(of: string)
  datatype DiffType = Created | Updated | Deleted

  datatype StateDiffResult = StateDiffResult(
    diffType: DiffType, oldValueXdr: Option<Xdr>, newValueXdr: Option<Xdr>,
    oldHash: Option<Digest>, newHash: Option<Digest>)

  datatype Snapshot = Snapshot(id: nat, entry: EntryId, ledger: int, hash: Digest, value: Xdr)
  datatype Change = Change(entry: EntryId, oldSnapshot: Option<nat>, newSnapshot: nat, diff: StateDiffResult, ledger: int)

  function ComputeValueHash(value: Xdr): Digest {
    Sha256(value)
  }

  function DiffStateValues(old_: Option<Xdr>, new_: Option<Xdr>): Option<StateDiffResult> {
    if old_.None? && new_.None? then None
    else if old_.Some? && new_.Some? && old_.value == new_.value then None
    else if old_.None? && new_.Some? then
      Some(StateDiffResult(Created, None, new_, None, Some(ComputeValueHash(new_.value))))
    else if old_.Some? && new_.None? then
      Some(StateDiffResult(Deleted, old_, None, Some(ComputeValueHash(old_.value)), None))
    else
      Some(StateDiffResult(Updated, old_, new_, Some(ComputeValueHash(old_.value)), Some(ComputeValueHash(new_.value))))
  }

  // A difference exists exactly when the values differ; it records both and their own hashes, which
  // are never the same, and its kind says which of them exist.
  lemma DiffMeaning(old_: Option<Xdr>, new_: Option<Xdr>)
    ensures DiffStateValues(old_, new_).None? <==> old_ == new_
    ensures old_ != new_ ==>
      var d := DiffStateValues(old_, new_).value;
      && d.oldValueXdr == old_ && d.newValueXdr == new_ && d.oldHash != d.newHash
      && d.oldHash == (if old_.Some? then Some(Sha256(old_.value)) else None)
      && d.newHash == (if new_.Some? then Some(Sha256(new_.value)) else None)
      && (d.diffType == Created <==> old_.None?) && (d.diffType == Deleted <==> new_.None?)
  {
  }

  // ---------------------------------------------------------------- the two tables

  datatype Tables = Tables(snapshots: seq<Snapshot>, changes: seq<Change>, nextId: nat)

  const EMPTY := Tables([], [], 1)

  // ORDER BY snapshot_ledger DESC, id DESC LIMIT 1
  function GetLatestSnapshot(snapshots: seq<Snapshot>, entry: EntryId): Option<Snapshot> {
    if snapshots == [] then None else
      var s, before := snapshots[|snapshots| - 1], GetLatestSnapshot(snapshots[..|snapshots| - 1], entry);
      if s.entry == entry && (before.None? || Earlier(before.value, s)) then Some(s) else before
  }

  predicate Earlier(a: Snapshot, b: Snapshot) {
    a.ledger < b.ledger || (a.ledger == b.ledger && a.id <= b.id)
  }

  function ValueOf(s: Option<Snapshot>): Option<Xdr> {
    if s.Some? then Some(s.value.value) else None
  }

  // One call: the new tables and the result.
  function Processed(t: Tables, entry: EntryId, value: Xdr, ledger: int): (Tables, Option<StateDiffResult>) {
    var last := GetLatestSnapshot(t.snapshots, entry);
    var diff := DiffStateValues(ValueOf(last), Some(value));
    if diff.None? then (t, None) else
      var snapshot := Snapshot(t.nextId, entry, ledger, ComputeValueHash(value), value);
      var oldId := if last.Some? then Some(last.value.id) else None;
      (Tables(t.snapshots + [snapshot], t.changes + [Change(entry, oldId, t.nextId, diff.value, ledger)], t.nextId + 1),
       diff)
  }

  class StateStore {
    var snapshots: seq<Snapshot>
    var changes: seq<Change>
    var nextId: nat

    function Contents(): Tables
      reads this
    {
      Tables(snapshots, changes, nextId)
    }

    constructor ()
      ensures Contents() == EMPTY
    {
      snapshots, changes, nextId := [], [], 1;
    }

    method InsertStateSnapshot(entry: EntryId, ledger: int, hash: Digest, value: Xdr) returns (id: nat)
      modifies this
      ensures id == old(nextId) && nextId == id + 1
      ensures snapshots == old(snapshots) + [Snapshot(id, entry, ledger, hash, value)]
      ensures changes == old(changes)
    {
      id := nextId;
      snapshots := snapshots + [Snapshot(id, entry, ledger, hash, value)];
      nextId := nextId + 1;
    }

    method ProcessStateDiff(entry: EntryId, currentValueXdr: Xdr, currentLedger: int)
        returns (result: Option<StateDiffResult>)
      modifies this
      ensures (Contents(), result) == Processed(old(Contents()), entry, currentValueXdr, currentLedger)
    {
      var currentHash := ComputeValueHash(currentValueXdr);
      var lastSnapshot := GetLatestSnapshot(snapshots, entry);
      result := DiffStateValues(ValueOf(lastSnapshot), Some(currentValueXdr));
      if result.None? {
        return;
      }
      var newSnapshotId := InsertStateSnapshot(entry, currentLedger, currentHash, currentValueXdr);
      var oldId := if lastSnapshot.Some? then Some(lastSnapshot.value.id) else None;
      changes := changes + [Change(entry, oldId, newSnapshotId, result.value, currentLedger)];
    }
  }

  ghost predicate FreshId(t: Tables) {
    forall s :: s in t.snapshots ==> s.id < t.nextId
  }

  lemma {:induction false} LatestIsGreatest(snapshots: seq<Snapshot>, entry: EntryId)
    ensures var r := GetLatestSnapshot(snapshots, entry);
      && (r.None? <==> forall s :: s in snapshots ==> s.entry != entry)
      && (r.Some? ==> r.value in snapshots && r.value.entry == entry
                      && forall s :: s in snapshots && s.entry == entry ==> Earlier(s, r.value))
  {
    if snapshots != [] {
      var s, front := snapshots[|snapshots| - 1], snapshots[..|snapshots| - 1];
      LatestIsGreatest(front, entry);
      assert snapshots == front + [s];
    }
  }

  // One call leaves the observed value as the entry's latest exactly when the value was already
  // the latest, or the observation is not older than the latest snapshot.
  lemma ObservationIsLatestIff(t: Tables, entry: EntryId, value: Xdr, ledger: int)
    requires FreshId(t)
    ensures var last := GetLatestSnapshot(t.snapshots, entry);
      ValueOf(GetLatestSnapshot(Processed(t, entry, value, ledger).0.snapshots, entry)) == Some(value)
      <==> last.None? || last.value.value == value || ledger >= last.value.ledger
  {
    LatestIsGreatest(t.snapshots, entry);
    var t' := Processed(t, entry, value, ledger).0;
    if t' != t {
      assert t'.snapshots[..|t'.snapshots| - 1] == t.snapshots;
    }
  }

  lemma ProcessedKeepsFreshId(t: Tables, entry: EntryId, value: Xdr, ledger: int)
    requires FreshId(t)
    ensures FreshId(Processed(t, entry, value, ledger).0)
  {
  }

  // ---------------------------------------------------------------- runs

  datatype Observation = Observation(entry: EntryId, value: Xdr, ledger: int)

  function Run(obs: seq<Observation>): Tables {
    if obs == [] then EMPTY else
      var o := obs[|obs| - 1];
      Processed(Run(obs[..|obs| - 1]), o.entry, o.value, o.ledger).0
  }

  // An entry's snapshots and changes, oldest first.
  function SnapshotsOf(snapshots: seq<Snapshot>, entry: EntryId): seq<Snapshot> {
    if snapshots == [] then [] else
      var s := snapshots[|snapshots| - 1];
      SnapshotsOf(snapshots[..|snapshots| - 1], entry) + if s.entry == entry then [s] else []
  }

  function ChangesOf(changes: seq<Change>, entry: EntryId): seq<Change> {
    if changes == [] then [] else
      var c := changes[|changes| - 1];
      ChangesOf(changes[..|changes| - 1], entry) + if c.entry == entry then [c] else []
  }

  // What should be kept: the entry's observations without immediate repetitions of a value.
  function Kept(obs: seq<Observation>, entry: EntryId): seq<Observation> {
    if obs == [] then [] else
      var o, before := obs[|obs| - 1], Kept(obs[..|obs| - 1], entry);
      if o.entry == entry && (before == [] || before[|before| - 1].value != o.value) then before + [o] else before
  }

  function Observed(obs: seq<Observation>, entry: EntryId): seq<Observation> {
    if obs == [] then [] else
      var o := obs[|obs| - 1];
      Observed(obs[..|obs| - 1], entry) + if o.entry == entry then [o] else []
  }

  ghost predicate OrderedFor(obs: seq<Observation>, entry: EntryId) {
    forall i, j :: 0 <= i < j < |obs| && obs[i].entry == entry && obs[j].entry == entry ==> obs[i].ledger <= obs[j].ledger
  }

  function LastValue(ss: seq<Snapshot>): Option<Xdr> {
    if ss == [] then None else Some(ss[|ss| - 1].value)
  }

  // The change that should stand beside snapshot k.
  function ChangeAt(ss: seq<Snapshot>, k: nat): Change
    requires k < |ss|
    requires k > 0 ==> ss[k - 1].value != ss[k].value
  {
    var s := ss[k];
    Change(s.entry, if k == 0 then None else Some(ss[k - 1].id), s.id,
           DiffStateValues(LastValue(ss[..k]), Some(s.value)).value, s.ledger)
  }

  ghost predicate Agree(ss: seq<Snapshot>, kept: seq<Observation>, entry: EntryId) {
    && |ss| == |kept|
    && forall k :: 0 <= k < |ss| ==>
         ss[k].entry == entry && ss[k].value == kept[k].value && ss[k].ledger == kept[k].ledger
         && ss[k].hash == ComputeValueHash(kept[k].value)
  }

  ghost predicate Consecutive(ss: seq<Snapshot>) {
    forall k :: 0 < k < |ss| ==> ss[k - 1].value != ss[k].value && ss[k - 1].id < ss[k].id
  }

  ghost predicate Chained(ss: seq<Snapshot>, cs: seq<Change>) {
    && |cs| == |ss| && Consecutive(ss)
    && forall k :: 0 <= k < |cs| ==> cs[k] == ChangeAt(ss, k)
  }

  // The log of one entry.
  ghost predicate LogInv(t: Tables, obs: seq<Observation>, entry: EntryId) {
    var ss, cs := SnapshotsOf(t.snapshots, entry), ChangesOf(t.changes, entry);
    && FreshId(t)
    && Agree(ss, Kept(obs, entry), entry) && Chained(ss, cs)
    && (forall k :: 0 <= k < |ss| ==> ss[k].id < t.nextId)
    && GetLatestSnapshot(t.snapshots, entry) == (if ss == [] then None else Some(ss[|ss| - 1]))
  }

  lemma Appended(t: Tables, s: Snapshot, c: Change, entry: EntryId)
    ensures SnapshotsOf(t.snapshots + [s], entry)
         == SnapshotsOf(t.snapshots, entry) + if s.entry == entry then [s] else []
    ensures ChangesOf(t.changes + [c], entry) == ChangesOf(t.changes, entry) + if c.entry == entry then [c] else []
    ensures GetLatestSnapshot(t.snapshots + [s], entry)
         == var before := GetLatestSnapshot(t.snapshots, entry);
            if s.entry == entry && (before.None? || Earlier(before.value, s)) then Some(s) else before
  {
  }

  lemma ChainGrows(ss: seq<Snapshot>, cs: seq<Change>, s: Snapshot)
    requires Chained(ss, cs) && (ss != [] ==> ss[|ss| - 1].value != s.value && ss[|ss| - 1].id < s.id)
    ensures Consecutive(ss + [s])
    ensures Chained(ss + [s], cs + [ChangeAt(ss + [s], |ss|)])
  {
    var ss' := ss + [s];
    forall k | 0 <= k < |ss| ensures ChangeAt(ss', k) == ChangeAt(ss, k) {
      assert ss'[..k] == ss[..k];
    }
  }

  lemma {:induction false} KeptAreObserved(obs: seq<Observation>, entry: EntryId)
    ensures forall o :: o in Kept(obs, entry) ==> o in obs && o.entry == entry
  {
    if obs != [] {
      KeptAreObserved(obs[..|obs| - 1], entry);
    }
  }

  lemma LogUnchanged(t: Tables, t': Tables, obs: seq<Observation>, obs': seq<Observation>, entry: EntryId)
    requires LogInv(t, obs, entry) && FreshId(t') && t'.nextId >= t.nextId
    requires SnapshotsOf(t'.snapshots, entry) == SnapshotsOf(t.snapshots, entry)
    requires ChangesOf(t'.changes, entry) == ChangesOf(t.changes, entry)
    requires GetLatestSnapshot(t'.snapshots, entry) == GetLatestSnapshot(t.snapshots, entry)
    requires Kept(obs', entry) == Kept(obs, entry)
    ensures LogInv(t', obs', entry)
  {
    hide Kept, SnapshotsOf, ChangesOf, GetLatestSnapshot, Chained, Agree, FreshId;
  }

  lemma OtherEntry(t: Tables, obs: seq<Observation>, o: Observation, entry: EntryId)
    requires LogInv(t, obs, entry) && o.entry != entry
    ensures LogInv(Processed(t, o.entry, o.value, o.ledger).0, obs + [o], entry)
  {
    var t' := Processed(t, o.entry, o.value, o.ledger).0;
    assert (obs + [o])[..|obs|] == obs;
    assert Kept(obs + [o], entry) == Kept(obs, entry);
    assert FreshId(t);
    ProcessedKeepsFreshId(t, o.entry, o.value, o.ledger);
    hide Kept, SnapshotsOf, ChangesOf, GetLatestSnapshot, FreshId, DiffStateValues, LogInv;
    if t'.snapshots != t.snapshots {
      Appended(t, t'.snapshots[|t.snapshots|], t'.changes[|t.changes|], entry);
    }
    hide Processed;
    LogUnchanged(t, t', obs, obs + [o], entry);
  }

  // The next snapshot is not older than the last one.
  lemma NotOlder(t: Tables, obs: seq<Observation>, o: Observation)
    requires LogInv(t, obs, o.entry) && OrderedFor(obs + [o], o.entry)
    ensures var last := GetLatestSnapshot(t.snapshots, o.entry); last.Some? ==> last.value.ledger <= o.ledger
  {
    var ss, kept := SnapshotsOf(t.snapshots, o.entry), Kept(obs, o.entry);
    if ss != [] {
      KeptAreObserved(obs, o.entry);
      var k := kept[|kept| - 1];
      assert k in obs && k.entry == o.entry;
      var i :| 0 <= i < |obs| && obs[i] == k;
      var all := obs + [o];
      assert all[i].ledger <= all[|obs|].ledger;
    }
  }

  lemma SameEntry(t: Tables, obs: seq<Observation>, o: Observation)
    requires LogInv(t, obs, o.entry) && OrderedFor(obs + [o], o.entry)
    ensures LogInv(Processed(t, o.entry, o.value, o.ledger).0, obs + [o], o.entry)
  {
    var t' := Processed(t, o.entry, o.value, o.ledger).0;
    var ss, kept := SnapshotsOf(t.snapshots, o.entry), Kept(obs, o.entry);
    assert (obs + [o])[..|obs|] == obs;
    assert Kept(obs + [o], o.entry)
        == if kept == [] || kept[|kept| - 1].value != o.value then kept + [o] else kept;
    NotOlder(t, obs, o);
    ProcessedKeepsFreshId(t, o.entry, o.value, o.ledger);
    hide Kept, SnapshotsOf, ChangesOf, GetLatestSnapshot, OrderedFor, Chained;
    if t' != t {
      NewSnapshot(t, obs, o);
    }
  }

  // The snapshot and the change that a new value adds.
  lemma NewSnapshot(t: Tables, obs: seq<Observation>, o: Observation)
    requires LogInv(t, obs, o.entry)
    requires var last := GetLatestSnapshot(t.snapshots, o.entry); last.Some? ==> last.value.ledger <= o.ledger
    requires Processed(t, o.entry, o.value, o.ledger).0 != t
    requires Kept(obs + [o], o.entry) == Kept(obs, o.entry) + [o]
    ensures LogInv(Processed(t, o.entry, o.value, o.ledger).0, obs + [o], o.entry)
  {
    var t' := Processed(t, o.entry, o.value, o.ledger).0;
    var ss, cs := SnapshotsOf(t.snapshots, o.entry), ChangesOf(t.changes, o.entry);
    var s := Snapshot(t.nextId, o.entry, o.ledger, ComputeValueHash(o.value), o.value);
    ProcessedKeepsFreshId(t, o.entry, o.value, o.ledger);
    TablesAfterNew(t, obs, o);
    hide Kept, SnapshotsOf, ChangesOf, GetLatestSnapshot, FreshId, Processed;
    assert ss != [] ==> ss[|ss| - 1].value != s.value && ss[|ss| - 1].id < s.id;
    assert t'.nextId == t.nextId + 1;
    hide LogInv;
    ChainGrows(ss, cs, s);
    hide Chained, ChangeAt;
    LogGrows(t, t', obs, o, s);
  }

  lemma LogGrows(t: Tables, t': Tables, obs: seq<Observation>, o: Observation, s: Snapshot)
    requires LogInv(t, obs, o.entry) && FreshId(t') && t'.nextId == t.nextId + 1
    requires s == Snapshot(t.nextId, o.entry, o.ledger, ComputeValueHash(o.value), o.value)
    requires SnapshotsOf(t'.snapshots, o.entry) == SnapshotsOf(t.snapshots, o.entry) + [s]
    requires Chained(SnapshotsOf(t'.snapshots, o.entry), ChangesOf(t'.changes, o.entry))
    requires GetLatestSnapshot(t'.snapshots, o.entry) == Some(s)
    requires Kept(obs + [o], o.entry) == Kept(obs, o.entry) + [o]
    ensures LogInv(t', obs + [o], o.entry)
  {
    hide Kept, SnapshotsOf, ChangesOf, GetLatestSnapshot, FreshId, Chained;
  }

  lemma TablesAfterNew(t: Tables, obs: seq<Observation>, o: Observation)
    requires LogInv(t, obs, o.entry)
    requires var last := GetLatestSnapshot(t.snapshots, o.entry); last.Some? ==> last.value.ledger <= o.ledger
    requires Processed(t, o.entry, o.value, o.ledger).0 != t
    ensures var t' := Processed(t, o.entry, o.value, o.ledger).0;
      var ss, cs := SnapshotsOf(t.snapshots, o.entry), ChangesOf(t.changes, o.entry);
      var s := Snapshot(t.nextId, o.entry, o.ledger, ComputeValueHash(o.value), o.value);
      && t'.nextId == t.nextId + 1
      && (ss != [] ==> ss[|ss| - 1].value != s.value && ss[|ss| - 1].id < s.id)
      && SnapshotsOf(t'.snapshots, o.entry) == ss + [s] && GetLatestSnapshot(t'.snapshots, o.entry) == Some(s)
      && ChangesOf(t'.changes, o.entry) == cs + [ChangeAt(ss + [s], |ss|)]
  {
    var t' := Processed(t, o.entry, o.value, o.ledger).0;
    var ss := SnapshotsOf(t.snapshots, o.entry);
    var s := Snapshot(t.nextId, o.entry, o.ledger, ComputeValueHash(o.value), o.value);
    var c := t'.changes[|t.changes|];
    hide Kept, SnapshotsOf, ChangesOf, GetLatestSnapshot, Chained, FreshId, Agree;
    assert t'.snapshots == t.snapshots + [s] && t'.changes == t.changes + [c];
    assert (ss + [s])[..|ss|] == ss;
    assert c == ChangeAt(ss + [s], |ss|);
    Appended(t, s, c, o.entry);
  }

  lemma {:induction false} RunLog(obs: seq<Observation>, entry: EntryId)
    requires OrderedFor(obs, entry)
    ensures LogInv(Run(obs), obs, entry)
  {
    if obs != [] {
      var front, o := obs[..|obs| - 1], obs[|obs| - 1];
      RunLog(front, entry);
      assert obs == front + [o];
      if o.entry == entry {
        SameEntry(Run(front), front, o);
      } else {
        OtherEntry(Run(front), front, o, entry);
      }
    }
  }

  // ---------------------------------------------------------------- what the log says

  // Snapshots are the entry's observations without immediate repetitions, in order, and
  // consecutive ones differ.
  lemma SnapshotsAreKept(obs: seq<Observation>, entry: EntryId)
    requires OrderedFor(obs, entry)
    ensures var ss := SnapshotsOf(Run(obs).snapshots, entry); Agree(ss, Kept(obs, entry), entry) && Consecutive(ss)
  {
    RunLog(obs, entry);
  }

  // Each change starts from the snapshot the previous one ended with; the first is "created",
  // every later one "updated", none "deleted".
  lemma ChangesAreChained(obs: seq<Observation>, entry: EntryId, k: nat)
    requires OrderedFor(obs, entry) && k < |ChangesOf(Run(obs).changes, entry)|
    ensures var ss, cs := SnapshotsOf(Run(obs).snapshots, entry), ChangesOf(Run(obs).changes, entry);
      && |ss| == |cs|
      && cs[k].newSnapshot == ss[k].id && cs[k].diff.newValueXdr == Some(ss[k].value) && cs[k].ledger == ss[k].ledger
      && cs[k].oldSnapshot == (if k == 0 then None else Some(cs[k - 1].newSnapshot))
      && cs[k].diff.oldValueXdr == (if k == 0 then None else cs[k - 1].diff.newValueXdr)
      && cs[k].diff.diffType == if k == 0 then Created else Updated
  {
    RunLog(obs, entry);
    var ss, cs := SnapshotsOf(Run(obs).snapshots, entry), ChangesOf(Run(obs).changes, entry);
    assert Chained(ss, cs);
    hide Run, SnapshotsOf, ChangesOf, LogInv, Chained;
    ChainLink(ss, cs, k);
  }

  lemma ChainLink(ss: seq<Snapshot>, cs: seq<Change>, k: nat)
    requires Chained(ss, cs) && k < |cs|
    ensures cs[k].newSnapshot == ss[k].id && cs[k].ledger == ss[k].ledger
    ensures cs[k].diff.newValueXdr == Some(ss[k].value)
    ensures cs[k].oldSnapshot == (if k == 0 then None else Some(cs[k - 1].newSnapshot))
    ensures cs[k].diff.oldValueXdr == (if k == 0 then None else cs[k - 1].diff.newValueXdr)
    ensures cs[k].diff.diffType == if k == 0 then Created else Updated
  {
  }

  // Applies the changes one after the other; None if one of them does not start from the value
  // the previous one left.
  function Replay(cs: seq<Change>): Option<Option<Xdr>> {
    if cs == [] then Some(None) else
      var before, d := Replay(cs[..|cs| - 1]), cs[|cs| - 1].diff;
      if before == Some(d.oldValueXdr) then Some(d.newValueXdr) else None
  }

  lemma ChainPrefix(ss: seq<Snapshot>, cs: seq<Change>, n: nat)
    requires Chained(ss, cs) && n <= |ss|
    ensures Chained(ss[..n], cs[..n])
  {
  }

  lemma {:induction false} ReplayChain(ss: seq<Snapshot>, cs: seq<Change>)
    requires Chained(ss, cs)
    ensures Replay(cs) == Some(LastValue(ss))
  {
    if cs != [] {
      var n := |cs| - 1;
      ChainPrefix(ss, cs, n);
      ReplayChain(ss[..n], cs[..n]);
      assert cs[n] == ChangeAt(ss, n);
      hide Chained;
      assert cs[n].diff.oldValueXdr == LastValue(ss[..n]) && cs[n].diff.newValueXdr == LastValue(ss);
      hide ChangeAt, LastValue;
    }
  }

  function ValueChanges(seen: seq<Observation>): nat {
    if |seen| <= 1 then 0 else
      var n := |seen| - 1;
      ValueChanges(seen[..n]) + if seen[n - 1].value != seen[n].value then 1 else 0
  }

  lemma KeptStep(obs: seq<Observation>, entry: EntryId)
    requires obs != []
    ensures var front, o := obs[..|obs| - 1], obs[|obs| - 1];
      var kept, seen := Kept(front, entry), Observed(front, entry);
      && Observed(obs, entry) == (if o.entry == entry then seen + [o] else seen)
      && Kept(obs, entry)
         == if o.entry == entry && (kept == [] || kept[|kept| - 1].value != o.value) then kept + [o] else kept
  {
  }

  // The count of what is kept, one observation later.
  ghost predicate CountsAgree(kept: seq<Observation>, seen: seq<Observation>) {
    && (kept == [] <==> seen == [])
    && (seen != [] ==> kept[|kept| - 1].value == seen[|seen| - 1].value && |kept| == 1 + ValueChanges(seen))
  }

  lemma CountsStep(kept: seq<Observation>, seen: seq<Observation>, o: Observation)
    requires CountsAgree(kept, seen)
    ensures CountsAgree(if kept == [] || kept[|kept| - 1].value != o.value then kept + [o] else kept, seen + [o])
  {
  }

  lemma {:induction false} KeptCount(obs: seq<Observation>, entry: EntryId)
    ensures CountsAgree(Kept(obs, entry), Observed(obs, entry))
  {
    if obs != [] {
      var front, o := obs[..|obs| - 1], obs[|obs| - 1];
      KeptCount(front, entry);
      KeptStep(obs, entry);
      hide Observed, Kept, CountsAgree;
      CountsStep(Kept(front, entry), Observed(front, entry), o);
    }
  }

  // Replaying an entry's changes rebuilds the value observed last.
  lemma ReplayRebuildsLatest(obs: seq<Observation>, entry: EntryId)
    requires OrderedFor(obs, entry)
    ensures var seen := Observed(obs, entry);
      Replay(ChangesOf(Run(obs).changes, entry)) == Some(if seen == [] then None else Some(seen[|seen| - 1].value))
  {
    hide Run, SnapshotsOf, ChangesOf, Kept, Observed, Chained, Replay, ValueChanges, OrderedFor;
    RunLog(obs, entry);
    KeptCount(obs, entry);
    ReplayChain(SnapshotsOf(Run(obs).snapshots, entry), ChangesOf(Run(obs).changes, entry));
    LastIsLatest(SnapshotsOf(Run(obs).snapshots, entry), Kept(obs, entry), Observed(obs, entry), entry);
  }

  lemma LastIsLatest(ss: seq<Snapshot>, kept: seq<Observation>, seen: seq<Observation>, entry: EntryId)
    requires Agree(ss, kept, entry) && CountsAgree(kept, seen)
    ensures LastValue(ss) == if seen == [] then None else Some(seen[|seen| - 1].value)
  {
    hide ValueChanges;
  }

  // One snapshot, and one change, for the first observation and for every change of value.
  lemma SnapshotCount(obs: seq<Observation>, entry: EntryId)
    requires OrderedFor(obs, entry)
    ensures var seen := Observed(obs, entry);
      |SnapshotsOf(Run(obs).snapshots, entry)| == |ChangesOf(Run(obs).changes, entry)|
      == if seen == [] then 0 else 1 + ValueChanges(seen)
  {
    RunLog(obs, entry);
    KeptCount(obs, entry);
  }

  lemma {:induction false} KeptOfObserved(obs: seq<Observation>, entry: EntryId)
    ensures Kept(Observed(obs, entry), entry) == Kept(obs, entry)
  {
    if obs != [] {
      var front, o := obs[..|obs| - 1], obs[|obs| - 1];
      KeptOfObserved(front, entry);
      var seen := Observed(front, entry);
      if o.entry == entry {
        assert (seen + [o])[..|seen|] == seen;
      } else {
        assert Observed(obs, entry) == seen;
      }
    }
  }

  // Other entries' observations never matter: two runs that observe an entry alike log it alike.
  lemma EntriesAreIndependent(a: seq<Observation>, b: seq<Observation>, entry: EntryId)
    requires OrderedFor(a, entry) && OrderedFor(b, entry) && Observed(a, entry) == Observed(b, entry)
    ensures var x, y := SnapshotsOf(Run(a).snapshots, entry), SnapshotsOf(Run(b).snapshots, entry);
      |x| == |y| && forall k :: 0 <= k < |x| ==> x[k].value == y[k].value && x[k].ledger == y[k].ledger
  {
    RunLog(a, entry);
    RunLog(b, entry);
    KeptOfObserved(a, entry);
    KeptOfObserved(b, entry);
  }

  // Without the order none of this holds: a value seen at an older ledger never becomes the
  // latest, so the same change is logged again at every later observation of it.
  lemma OlderLedgerRepeatsTheChange(v: Xdr, w: Xdr)
    requires v != w
    ensures var t := Run([Observation(0, v, 10), Observation(0, w, 5), Observation(0, w, 5)]);
      && |t.changes| == 3 && |t.snapshots| == 3
      && t.changes[1].diff == t.changes[2].diff && t.changes[1].oldSnapshot == t.changes[2].oldSnapshot == Some(1)
      && t.snapshots[1].value == t.snapshots[2].value
      && GetLatestSnapshot(t.snapshots, 0) == Some(t.snapshots[0])
  {
    var o1, o2, o3 := Observation(0, v, 10), Observation(0, w, 5), Observation(0, w, 5);
    var s1, s2, s3 := Snapshot(1, 0, 10, Sha256(v), v), Snapshot(2, 0, 5, Sha256(w), w), Snapshot(3, 0, 5, Sha256(w), w);
    assert [o1][..0] == [] && [o1, o2][..1] == [o1] && [o1, o2, o3][..2] == [o1, o2];
    assert [s1][..0] == [] && [s1, s2][..1] == [s1] && [s1, s2, s3][..2] == [s1, s2];
    assert GetLatestSnapshot([s1], 0) == Some(s1);
    assert Run([o1]).snapshots == [s1];
    assert GetLatestSnapshot([s1, s2], 0) == Some(s1);
    assert Run([o1, o2]).snapshots == [s1, s2];
    assert Run([o1, o2, o3]).snapshots == [s1, s2, s3];
  }
}
