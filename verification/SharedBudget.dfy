// The shared_budget_pools statements of runAutoExtensions (src/core/extension.ts).
// Amounts are stroops; a billing cycle ("YYYY-MM") is a number that grows with time.
module SharedBudget {
  import opened Common

  type PoolId = nat

  // How a submission ends for its caller, and the fee that was paid for it in the end. Charged:
  // it succeeded, and the answer may report the fee or not. Refused: the answer says failure,
  // which it also does when a transaction failed in a ledger, or when polling gave up on one that
  // lands later. Threw: before or after the transaction was paid for.
  datatype SubmitOutcome =
    | Charged(reported: bool, paid: nat)
    | Refused(paid: nat)
    | Threw(paid: nat)

  datatype Row = Row(limit: nat, cycle: nat, spent: int)

  function RollOver(r: Row, now: nat): Row {
    if r.cycle != now then r.(cycle := now, spent := 0) else r
  }

  // The WHERE clause of the reservation.
  predicate CanReserve(r: Row, cycle: nat, estimate: nat) {
    r.cycle == cycle && r.spent + estimate <= r.limit
  }

  function Add(r: Row, cycle: nat, delta: int): Row {
    if r.cycle == cycle then r.(spent := r.spent + delta) else r
  }

  function Refund(r: Row, cycle: nat, reserved: nat): Row {
    if r.cycle == cycle then r.(spent := if r.spent - reserved < 0 then 0 else r.spent - reserved) else r
  }

  // What spent has gained once a submission with this estimate is settled: the reported fee, the
  // estimate if none is reported, or nothing if it was refused; a throw leaves the reservation, a
  // zero estimate adds nothing.
  function Gain(estimate: nat, o: SubmitOutcome): nat {
    match o
    case Charged(reported, paid) => if estimate == 0 then 0 else if reported then paid else estimate
    case Refused(_) => 0
    case Threw(_) => estimate
  }

  // The answer tells the truth about the fee: a success reports it, or it is the estimate; a
  // failure cost nothing; a throw cost what had been reserved.
  predicate Honest(estimate: nat, o: SubmitOutcome) {
    match o
    case Charged(reported, paid) => reported || paid == estimate
    case Refused(paid) => paid == 0
    case Threw(paid) => paid == estimate
  }

  // The fee reaches spent exactly when the answer is honest about it and something was reserved
  // for it, if it was anything at all.
  lemma GainIsPaidIff(estimate: nat, o: SubmitOutcome)
    ensures Gain(estimate, o) == o.paid <==> Honest(estimate, o) && (estimate > 0 || o.paid == 0)
  {
  }

  // The table, updated in place one statement at a time.
  class SharedBudgetPools {
    var rows: map<PoolId, Row>

    method RollOverIfStale(id: PoolId, now: nat) returns (shared: Row)
      requires id in rows
      modifies this
      ensures rows == old(rows)[id := RollOver(old(rows)[id], now)]
      ensures shared == rows[id] && shared.cycle == now
    {
      shared := rows[id];
      if shared.cycle != now {
        rows := rows[id := shared.(cycle := now, spent := 0)];
        shared := shared.(cycle := now, spent := 0);
      }
    }

    // Returns the statement's change count.
    method ReserveIfUnderLimit(id: PoolId, cycle: nat, estimate: nat) returns (changes: nat)
      requires id in rows
      modifies this
      ensures changes == if CanReserve(old(rows)[id], cycle, estimate) then 1 else 0
      ensures rows == if changes == 1 then old(rows)[id := Add(old(rows)[id], cycle, estimate)] else old(rows)
      ensures changes == 1 ==> rows[id].spent <= rows[id].limit
    {
      changes := 0;
      var r := rows[id];
      if r.cycle == cycle && r.spent + estimate <= r.limit {
        rows := rows[id := r.(spent := r.spent + estimate)];
        changes := 1;
      }
    }

    method TrueUp(id: PoolId, cycle: nat, delta: int)
      requires id in rows
      modifies this
      ensures rows == old(rows)[id := Add(old(rows)[id], cycle, delta)]
    {
      var r := rows[id];
      if r.cycle == cycle {
        rows := rows[id := r.(spent := r.spent + delta)];
      }
    }

    method GiveBack(id: PoolId, cycle: nat, reserved: nat)
      requires id in rows
      modifies this
      ensures rows == old(rows)[id := Refund(old(rows)[id], cycle, reserved)]
    {
      var r := rows[id];
      if r.cycle == cycle {
        var left := r.spent - reserved;
        rows := rows[id := r.(spent := if left < 0 then 0 else left)];
      }
    }

    // One group without interruption, from the roll-over to the settlement.
    method SubmitGroup(id: PoolId, now: nat, estimate: nat, outcome: SubmitOutcome) returns (submitted: bool)
      requires id in rows && rows[id].spent >= 0
      modifies this
      ensures rows.Keys == old(rows).Keys && forall p :: p in rows && p != id ==> rows[p] == old(rows)[p]
      ensures rows[id].cycle == now && rows[id].limit == old(rows)[id].limit
      ensures var was := if old(rows)[id].cycle == now then old(rows)[id].spent else 0;
        && (submitted <==> was + estimate <= rows[id].limit)
        && rows[id].spent == was + if submitted then Gain(estimate, outcome) else 0
    {
      var shared := RollOverIfStale(id, now);
      var changes := ReserveIfUnderLimit(id, now, estimate);
      submitted := changes == 1;
      if !submitted || estimate == 0 {
        return;
      }
      match outcome {
        case Charged(reported, paid) => TrueUp(id, now, (if reported then paid else estimate) - estimate);
        case Refused(_) => GiveBack(id, now, estimate);
        case Threw(_) =>
      }
    }
  }
}
