// The pool of channel accounts (src/core/channels.ts): round-robin hand-out with a
// first-in first-out queue of blocked callers.
//
// A caller blocked in acquire() is a ticket; resolving its promise is a grant. Every
// operation runs without an await, so a history of the pool is a sequence of calls.
module ChannelPool {
  import opened Common

  type Key = string
  type Ticket = nat

  datatype Pool = Pool(keys: seq<Key>, inUse: set<Key>, waiters: seq<Ticket>, cursor: nat)

  datatype Grant = Grant(ticket: Ticket, key: Key)

  ghost predicate AllInUse(p: Pool) {
    forall k :: k in p.keys ==> k in p.inUse
  }

  predicate CursorInRange(p: Pool) {
    p.cursor < |p.keys| || p.cursor == |p.keys| == 0
  }

  // Account keys are distinct (public_key is UNIQUE); a blocked caller implies no free account.
  ghost predicate Valid(p: Pool) {
    && Distinct(p.keys)
    && (forall k :: k in p.inUse ==> k in p.keys)
    && CursorInRange(p)
    && (p.waiters != [] ==> AllInUse(p))
  }

  function Fresh(keys: seq<Key>): Pool {
    Pool(keys, {}, [], 0)
  }

  // ---------------------------------------------------------------- operations

  // (cursor + i) mod n, for i up to n.
  function Wrap(p: Pool, i: nat): (idx: nat)
    requires p.cursor < |p.keys| && i <= |p.keys|
    ensures idx < |p.keys|
  {
    if p.cursor + i < |p.keys| then p.cursor + i else p.cursor + i - |p.keys|
  }

  function Next(idx: nat, n: nat): (r: nat)
    requires idx < n
    ensures r < n
  {
    if idx + 1 == n then 0 else idx + 1
  }

  // The scan of nextFreeSlot from its i-th iteration on: the offset it stops at.
  function FreeOffset(p: Pool, i: nat): (r: Option<nat>)
    requires CursorInRange(p) && i <= |p.keys|
    ensures r.Some? ==> i <= r.value < |p.keys| && p.keys[Wrap(p, r.value)] !in p.inUse
    ensures r.Some? ==> forall j :: i <= j < r.value ==> p.keys[Wrap(p, j)] in p.inUse
    ensures r.None? ==> forall j :: i <= j < |p.keys| ==> p.keys[Wrap(p, j)] in p.inUse
    decreases |p.keys| - i
  {
    if i == |p.keys| then None
    else if p.keys[Wrap(p, i)] !in p.inUse then Some(i)
    else FreeOffset(p, i + 1)
  }

  // nextFreeSlot followed by inUse.add: the pool after a slot is handed out, and its key.
  function Take(p: Pool): (r: (Pool, Option<Key>))
    requires CursorInRange(p)
    ensures CursorInRange(r.0) && r.0.keys == p.keys
  {
    match FreeOffset(p, 0)
    case None => (p, None)
    case Some(i) =>
      var idx := Wrap(p, i);
      (p.(inUse := p.inUse + {p.keys[idx]}, cursor := Next(idx, |p.keys|)), Some(p.keys[idx]))
  }

  function AfterAcquire(p: Pool, t: Ticket): (r: (Pool, Option<Grant>))
    requires CursorInRange(p)
    ensures CursorInRange(r.0) && r.0.keys == p.keys
  {
    var (q, k) := Take(p);
    if k.Some? then (q, Some(Grant(t, k.value)))
    else (p.(waiters := p.waiters + [t]), None)
  }

  function AfterRelease(p: Pool, key: Key): (r: (Pool, Option<Grant>))
    requires CursorInRange(p)
    ensures CursorInRange(r.0) && r.0.keys == p.keys
  {
    var p1 := p.(inUse := p.inUse - {key});
    if p1.waiters == [] then (p1, None)
    else
      var (q, k) := Take(p1);
      if k.Some? then (q.(waiters := q.waiters[1..]), Some(Grant(p1.waiters[0], k.value)))
      else (p1, None)
  }

  datatype Call = AcquireCall(ticket: Ticket) | ReleaseCall(ticket: Ticket, key: Key)

  function Step(p: Pool, c: Call): (r: (Pool, Option<Grant>))
    requires CursorInRange(p)
    ensures CursorInRange(r.0) && r.0.keys == p.keys
  {
    match c
    case AcquireCall(t) => AfterAcquire(p, t)
    case ReleaseCall(_, k) => AfterRelease(p, k)
  }

  function Run(p: Pool, calls: seq<Call>): (r: (Pool, seq<Grant>))
    requires CursorInRange(p)
    ensures CursorInRange(r.0) && r.0.keys == p.keys
  {
    if calls == [] then (p, [])
    else
      var (q, log) := Run(p, calls[..|calls| - 1]);
      var (r, g) := Step(q, calls[|calls| - 1]);
      (r, if g.Some? then log + [g.value] else log)
  }

  function Requests(calls: seq<Call>): seq<Ticket> {
    if calls == [] then []
    else
      Requests(calls[..|calls| - 1]) + Asked(calls[|calls| - 1])
  }

  function Tickets(log: seq<Grant>): seq<Ticket> {
    seq(|log|, i requires 0 <= i < |log| => log[i].ticket)
  }

  // ---------------------------------------------------------------- one call

  // The scan visits every account: finding none free means all are taken.
  lemma ScanIsComplete(p: Pool)
    requires Valid(p)
    ensures FreeOffset(p, 0).None? <==> AllInUse(p)
  {
    if FreeOffset(p, 0).None? {
      forall k | k in p.keys ensures k in p.inUse {
        var j :| 0 <= j < |p.keys| && p.keys[j] == k;
        var i := if j >= p.cursor then j - p.cursor else j + |p.keys| - p.cursor;
        assert p.keys[Wrap(p, i)] == k;
      }
    }
  }

  lemma StepKeepsValid(p: Pool, c: Call)
    requires Valid(p)
    ensures Valid(Step(p, c).0) && Step(p, c).0.keys == p.keys
  {
    ScanIsComplete(p);
    if c.ReleaseCall? {
      var p1 := p.(inUse := p.inUse - {c.key});
      if p1.waiters != [] && FreeOffset(p1, 0).Some? {
        var idx := Wrap(p1, FreeOffset(p1, 0).value);
        assert p.keys[idx] in p.inUse;
        assert p1.keys[idx] == c.key;
      }
      if p1.waiters != [] && FreeOffset(p1, 0).None? {
        forall k | k in p1.keys ensures k in p1.inUse {
          ScanIsComplete(p1.(waiters := []));
          assert FreeOffset(p1.(waiters := []), 0) == FreeOffset(p1, 0) by { ScanIgnoresWaiters(p1, 0); }
        }
      }
    }
  }

  lemma {:induction false} ScanIgnoresWaiters(p: Pool, i: nat)
    requires CursorInRange(p) && i <= |p.keys|
    ensures FreeOffset(p.(waiters := []), i) == FreeOffset(p, i)
    decreases |p.keys| - i
  {
    if i < |p.keys| {
      ScanIgnoresWaiters(p, i + 1);
    }
  }

  // With somebody waiting, a release hands over exactly the released account, to the
  // oldest waiter; releasing an account nobody holds wakes nobody.
  lemma ReleaseHandsOver(p: Pool, key: Key)
    requires Valid(p) && p.waiters != []
    ensures key in p.inUse ==>
      && AfterRelease(p, key).1 == Some(Grant(p.waiters[0], key))
      && AfterRelease(p, key).0.waiters == p.waiters[1..]
      && AfterRelease(p, key).0.inUse == p.inUse
    ensures key !in p.inUse ==> AfterRelease(p, key) == (p, None)
  {
    var p1 := p.(inUse := p.inUse - {key});
    ScanIgnoresWaiters(p1, 0);
    ScanIsComplete(p1.(waiters := []));
    if key in p.inUse {
      assert key in p1.keys && key !in p1.inUse;
      assert FreeOffset(p1, 0).Some?;
      var idx := Wrap(p1, FreeOffset(p1, 0).value);
      assert p.keys[idx] in p.inUse;
      assert p1.keys[idx] == key;
      assert p1.inUse + {key} == p.inUse;
    } else {
      assert p1.inUse == p.inUse && p1 == p;
      ScanIsComplete(p);
    }
  }

  // ---------------------------------------------------------------- whole histories

  lemma {:induction false} RunKeepsValid(p: Pool, calls: seq<Call>)
    requires Valid(p)
    ensures Valid(Run(p, calls).0) && Run(p, calls).0.keys == p.keys
  {
    if calls != [] {
      RunKeepsValid(p, calls[..|calls| - 1]);
      StepKeepsValid(Run(p, calls[..|calls| - 1]).0, calls[|calls| - 1]);
    }
  }

  function Asked(c: Call): seq<Ticket> {
    if c.AcquireCall? then [c.ticket] else []
  }

  function Served(g: Option<Grant>): seq<Ticket> {
    if g.Some? then [g.value.ticket] else []
  }

  lemma StepServesInOrder(p: Pool, c: Call)
    requires Valid(p)
    ensures Served(Step(p, c).1) + Step(p, c).0.waiters == p.waiters + Asked(c)
  {
  }

  // First in, first out, for every history (stray releases included): the callers served,
  // followed by the callers still waiting, are the callers in the order they asked.
  lemma {:induction false} ServedInOrder(p: Pool, calls: seq<Call>)
    requires Valid(p)
    ensures Tickets(Run(p, calls).1) + Run(p, calls).0.waiters == p.waiters + Requests(calls)
  {
    if calls == [] {
      assert Tickets([]) == [];
    } else {
      var front, c := calls[..|calls| - 1], calls[|calls| - 1];
      var (q, log) := Run(p, front);
      RunKeepsValid(p, front);
      ServedInOrder(p, front);
      StepServesInOrder(q, c);
      var (r, g) := Step(q, c);
      TicketsOfAppend(log, g);
      Splice(Tickets(log), q.waiters, p.waiters, Requests(front), Served(g), r.waiters, Asked(c));
    }
  }

  lemma TicketsOfAppend(log: seq<Grant>, g: Option<Grant>)
    ensures Tickets(if g.Some? then log + [g.value] else log) == Tickets(log) + Served(g)
  {
  }

  lemma Splice(served: seq<Ticket>, w: seq<Ticket>, w0: seq<Ticket>, asked: seq<Ticket>,
               g: seq<Ticket>, w': seq<Ticket>, a: seq<Ticket>)
    requires served + w == w0 + asked && g + w' == w + a
    ensures (served + g) + w' == w0 + (asked + a)
  {
    assert (served + g) + w' == served + (g + w');
    assert served + (w + a) == (served + w) + a;
    assert (w0 + asked) + a == w0 + (asked + a);
  }

  // ---------------------------------------------------------------- who holds what

  // The open grants: handed out and not yet given back.
  ghost predicate Ledger(p: Pool, open: set<Grant>) {
    && (forall g :: g in open ==> g.key in p.inUse)
    && (forall k :: k in p.inUse ==> exists g :: g in open && g.key == k)
    && (forall g, h :: g in open && h in open && g.key == h.key ==> g == h)
  }

  ghost predicate WaitersHoldNothing(p: Pool, open: set<Grant>) {
    forall g :: g in open ==> g.ticket !in p.waiters
  }

  ghost function OpenAfter(p: Pool, open: set<Grant>, c: Call): set<Grant>
    requires CursorInRange(p)
  {
    var g := Step(p, c).1;
    (if c.ReleaseCall? then open - {Grant(c.ticket, c.key)} else open)
    + (if g.Some? then {g.value} else {})
  }

  lemma AcquireKeepsLedger(p: Pool, open: set<Grant>, t: Ticket)
    requires Valid(p) && Ledger(p, open)
    ensures Ledger(AfterAcquire(p, t).0, OpenAfter(p, open, AcquireCall(t)))
  {
    var q, after := AfterAcquire(p, t).0, OpenAfter(p, open, AcquireCall(t));
    forall k | k in q.inUse ensures exists g :: g in after && g.key == k {
      if k in p.inUse {
        var g :| g in open && g.key == k;
        assert g in after;
      } else {
        assert Grant(t, k) in after;
      }
    }
  }

  lemma OwnReleaseKeepsLedger(p: Pool, open: set<Grant>, t: Ticket, k: Key)
    requires Valid(p) && Ledger(p, open)
    requires Grant(t, k) in open || k !in p.inUse
    ensures Ledger(AfterRelease(p, k).0, OpenAfter(p, open, ReleaseCall(t, k)))
  {
    var q, after := AfterRelease(p, k).0, OpenAfter(p, open, ReleaseCall(t, k));
    if p.waiters != [] {
      ReleaseHandsOver(p, k);
    }
    if k !in p.inUse {
      assert q.inUse == p.inUse && after == open;
    } else {
      forall j | j in q.inUse ensures exists g :: g in after && g.key == j {
        if j == k {
          assert Grant(p.waiters[0], k) in after;
        } else {
          var g :| g in open && g.key == j;
          assert g in after;
        }
      }
    }
  }

  // Exclusive use survives a release exactly when the releaser holds the account, or when
  // nobody does. Releasing an account somebody else holds breaks it.
  lemma ReleaseKeepsLedgerIff(p: Pool, open: set<Grant>, t: Ticket, k: Key)
    requires Valid(p) && Ledger(p, open) && WaitersHoldNothing(p, open)
    ensures Ledger(AfterRelease(p, k).0, OpenAfter(p, open, ReleaseCall(t, k)))
        <==> (Grant(t, k) in open || k !in p.inUse)
  {
    if Grant(t, k) in open || k !in p.inUse {
      OwnReleaseKeepsLedger(p, open, t, k);
    } else {
      var after := OpenAfter(p, open, ReleaseCall(t, k));
      var h :| h in open && h.key == k;
      assert h in after;
      if p.waiters != [] {
        ReleaseHandsOver(p, k);
        assert Grant(p.waiters[0], k) in after;
      }
    }
  }

  ghost function OpenGrants(p: Pool, calls: seq<Call>): set<Grant>
    requires CursorInRange(p)
  {
    if calls == [] then {}
    else
      var front := calls[..|calls| - 1];
      OpenAfter(Run(p, front).0, OpenGrants(p, front), calls[|calls| - 1])
  }

  // Every release in the history is by the holder, or of an account nobody holds.
  ghost predicate Disciplined(p: Pool, calls: seq<Call>)
    requires CursorInRange(p)
  {
    calls == [] ||
    var front, c := calls[..|calls| - 1], calls[|calls| - 1];
    && Disciplined(p, front)
    && (c.ReleaseCall? ==>
          Grant(c.ticket, c.key) in OpenGrants(p, front) || c.key !in Run(p, front).0.inUse)
  }

  // At every point of a disciplined history the accounts in use are exactly the accounts of
  // the open grants, and no account is held by two callers.
  lemma {:induction false} ExclusiveUse(p: Pool, calls: seq<Call>)
    requires Valid(p) && p.inUse == {} && Disciplined(p, calls)
    ensures Ledger(Run(p, calls).0, OpenGrants(p, calls))
  {
    if calls != [] {
      var front, c := calls[..|calls| - 1], calls[|calls| - 1];
      ExclusiveUse(p, front);
      RunKeepsValid(p, front);
      if c.AcquireCall? {
        AcquireKeepsLedger(Run(p, front).0, OpenGrants(p, front), c.ticket);
      } else {
        OwnReleaseKeepsLedger(Run(p, front).0, OpenGrants(p, front), c.ticket, c.key);
      }
    }
  }

  // ---------------------------------------------------------------- fairness

  // How many accounts the scan passes before it reaches account j.
  function Distance(p: Pool, j: nat): (d: nat)
    requires j < |p.keys| && p.cursor < |p.keys|
    ensures d < |p.keys|
  {
    if j >= p.cursor then j - p.cursor else j + |p.keys| - p.cursor
  }

  // Handing out any other account moves the cursor strictly closer to a free account j.
  lemma GrantMovesCloser(p: Pool, j: nat)
    requires Valid(p) && j < |p.keys| && p.keys[j] !in p.inUse && Take(p).1 != Some(p.keys[j])
    ensures Take(p).1.Some? && Take(p).0.cursor < |p.keys|
    ensures Distance(Take(p).0, j) < Distance(p, j)
  {
    ScanIsComplete(p);
    var i := FreeOffset(p, 0).value;
    assert Wrap(p, Distance(p, j)) == j;
    var idx := Wrap(p, i);
    assert i < Distance(p, j);
  }

  lemma {:induction false} FreeAccountIsReached(p: Pool, j: nat, calls: seq<Call>)
    requires Valid(p) && j < |p.keys| && p.keys[j] !in p.inUse
    requires forall g :: g in Run(p, calls).1 ==> g.key != p.keys[j]
    ensures var q := Run(p, calls).0;
      && q.keys == p.keys && q.cursor < |p.keys| && p.keys[j] !in q.inUse
      && |Run(p, calls).1| + Distance(q, j) <= Distance(p, j)
  {
    if calls != [] {
      var front, c := calls[..|calls| - 1], calls[|calls| - 1];
      var (q, log) := Run(p, front);
      assert forall g :: g in log ==> g in Run(p, calls).1;
      FreeAccountIsReached(p, j, front);
      RunKeepsValid(p, calls);
      RunKeepsValid(p, front);
      assert q.waiters == [];
      if c.AcquireCall? {
        ScanIsComplete(q);
        var g := Step(q, c).1;
        assert g.Some? && g.value in Run(p, calls).1;
        GrantMovesCloser(q, j);
      }
    }
  }

  // An account that stays free is granted within n grants: n grants cannot all go elsewhere.
  lemma FreeAccountIsGrantedWithinN(p: Pool, j: nat, calls: seq<Call>)
    requires Valid(p) && j < |p.keys| && p.keys[j] !in p.inUse
    requires |Run(p, calls).1| >= |p.keys|
    ensures exists g :: g in Run(p, calls).1 && g.key == p.keys[j]
  {
    if forall g :: g in Run(p, calls).1 ==> g.key != p.keys[j] {
      FreeAccountIsReached(p, j, calls);
    }
  }

  // The pool after m callers have been served from an idle one.
  ghost function Rotated(p: Pool, m: nat): Pool
    requires p.cursor < |p.keys| && m <= |p.keys|
  {
    p.(inUse := set i | 0 <= i < m :: p.keys[Wrap(p, i)], cursor := Wrap(p, m))
  }

  lemma NextInTurn(p: Pool, m: nat, t: Ticket)
    requires Valid(p) && p.waiters == [] && m < |p.keys|
    ensures CursorInRange(Rotated(p, m))
    ensures AfterAcquire(Rotated(p, m), t) == (Rotated(p, m + 1), Some(Grant(t, p.keys[Wrap(p, m)])))
  {
    var q := Rotated(p, m);
    DifferentSlots(p, m + 1);
    assert Wrap(q, 0) == Wrap(p, m);
    assert FreeOffset(q, 0) == Some(0);
    assert q.inUse + {p.keys[Wrap(p, m)]} == Rotated(p, m + 1).inUse;
  }

  // From an idle pool, the first m <= n callers get the next m accounts in turn.
  lemma {:induction false} RoundRobinOrder(p: Pool, calls: seq<Call>)
    requires Valid(p) && p.inUse == {} && p.waiters == [] && 0 < |p.keys| && |calls| <= |p.keys|
    requires forall c :: c in calls ==> c.AcquireCall?
    ensures Run(p, calls) == (Rotated(p, |calls|), InTurn(p, calls))
  {
    if calls == [] {
      assert Rotated(p, 0) == p;
    } else {
      var m := |calls| - 1;
      assert calls[m] in calls;
      RoundRobinOrder(p, calls[..m]);
      NextInTurn(p, m, calls[m].ticket);
      InTurnSnoc(p, calls);
    }
  }

  ghost function InTurn(p: Pool, calls: seq<Call>): seq<Grant>
    requires 0 < |p.keys| && CursorInRange(p) && |calls| <= |p.keys|
  {
    seq(|calls|, i requires 0 <= i < |calls| => Grant(calls[i].ticket, p.keys[Wrap(p, i)]))
  }

  lemma InTurnSnoc(p: Pool, calls: seq<Call>)
    requires 0 < |calls| <= |p.keys| && CursorInRange(p)
    ensures InTurn(p, calls)
         == InTurn(p, calls[..|calls| - 1]) + [Grant(calls[|calls| - 1].ticket, p.keys[Wrap(p, |calls| - 1)])]
  {
  }

  // n concurrent callers of an idle n-account pool use n different accounts.
  lemma IdlePoolGivesDistinctAccounts(p: Pool, calls: seq<Call>)
    requires Valid(p) && p.inUse == {} && p.waiters == [] && |calls| <= |p.keys|
    requires forall c :: c in calls ==> c.AcquireCall?
    ensures |Run(p, calls).1| == |calls|
    ensures forall i, j :: 0 <= i < j < |calls| ==> Run(p, calls).1[i].key != Run(p, calls).1[j].key
  {
    if calls != [] {
      RoundRobinOrder(p, calls);
    }
    DifferentSlots(p, |calls|);
  }

  lemma DifferentSlots(p: Pool, m: nat)
    requires Valid(p) && m <= |p.keys|
    ensures forall i, j {:trigger Wrap(p, i), Wrap(p, j)} :: 0 <= i < j < m ==> p.keys[Wrap(p, i)] != p.keys[Wrap(p, j)]
  {
  }

  // ---------------------------------------------------------------- the class

  datatype Account = Account(publicKey: Key, keypairSource: Option<string>)
  datatype Slot = Slot(publicKey: Key, keypairSource: Option<string>)

  class ChannelAccountPool {
    const accounts: seq<Account>
    var inUse: set<Key>
    var waiters: seq<Ticket>
    var cursor: nat

    // The value the operations above are defined on.
    function State(): Pool
      reads this
    {
      Pool(seq(|accounts|, i requires 0 <= i < |accounts| => accounts[i].publicKey), inUse, waiters, cursor)
    }

    constructor (accounts: seq<Account>)
      ensures this.accounts == accounts
      ensures State() == Fresh(seq(|accounts|, i requires 0 <= i < |accounts| => accounts[i].publicKey))
    {
      this.accounts := accounts;
      inUse, waiters, cursor := {}, [], 0;
    }

    method NextFreeSlot() returns (slot: Option<Slot>)
      requires CursorInRange(State())
      modifies this`cursor
      ensures slot.Some? <==> FreeOffset(old(State()), 0).Some?
      ensures slot.Some? ==> slot.value in Slots() && Take(old(State())).1 == Some(slot.value.publicKey)
      ensures cursor == Take(old(State())).0.cursor
    {
      var n := |accounts|;
      var i := 0;
      while i < n
        invariant 0 <= i <= n && cursor == old(cursor)
        invariant FreeOffset(State(), i) == FreeOffset(State(), 0)
      {
        ModOnce(cursor, i, n);
        var idx := (cursor + i) % n;
        assert idx == Wrap(State(), i);
        var account := accounts[idx];
        if account.publicKey !in inUse {
          NextOnce(idx, n);
          cursor := (idx + 1) % n;
          return Some(Slot(account.publicKey, account.keypairSource));
        }
        i := i + 1;
      }
      return None;
    }

    // Some: the promise is already resolved with this slot. None: the caller is queued.
    method Acquire(ticket: Ticket) returns (slot: Option<Slot>)
      requires Valid(State())
      modifies this
      ensures Valid(State())
      ensures State() == AfterAcquire(old(State()), ticket).0
      ensures AfterAcquire(old(State()), ticket).1
           == (if slot.Some? then Some(Grant(ticket, slot.value.publicKey)) else None)
      ensures slot.Some? ==> slot.value in Slots()
    {
      StepKeepsValid(State(), AcquireCall(ticket));
      slot := NextFreeSlot();
      if slot.Some? {
        inUse := inUse + {slot.value.publicKey};
      } else {
        waiters := waiters + [ticket];
      }
    }

    // Some: the waiter whose promise this release resolves, and the slot it gets.
    method Release(publicKey: Key) returns (woken: Option<(Ticket, Slot)>)
      requires Valid(State())
      modifies this
      ensures Valid(State())
      ensures State() == AfterRelease(old(State()), publicKey).0
      ensures AfterRelease(old(State()), publicKey).1
           == (if woken.Some? then Some(Grant(woken.value.0, woken.value.1.publicKey)) else None)
      ensures woken.Some? ==> woken.value.1 in Slots()
    {
      StepKeepsValid(State(), ReleaseCall(0, publicKey));
      woken := None;
      inUse := inUse - {publicKey};
      if |waiters| > 0 {
        var slot := NextFreeSlot();
        if slot.Some? {
          inUse := inUse + {slot.value.publicKey};
          woken := Some((waiters[0], slot.value));
          waiters := waiters[1..];
        }
      }
    }

    ghost function Slots(): set<Slot> {
      set a | a in accounts :: Slot(a.publicKey, a.keypairSource)
    }
  }

  lemma ModOnce(c: nat, i: nat, n: nat)
    requires c < n && i < n
    ensures (c + i) % n == if c + i < n then c + i else c + i - n
  {
  }

  lemma NextOnce(idx: nat, n: nat)
    requires idx < n
    ensures (idx + 1) % n == Next(idx, n)
  {
  }
}
