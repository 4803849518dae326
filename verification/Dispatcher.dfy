// Draining the alert queue (src/alerts/dispatcher.ts): retries, caps, quiet hours.
module Dispatcher {
  import opened Common

  const MAX_RETRY_COUNT := 5
  const DAY_MINUTES := 1440

  // ---------------------------------------------------------------- quiet hours

  predicate IsDigit(c: char) {
    '0' <= c <= '9'
  }

  predicate IsHHMM(s: string) {
    && |s| == 5 && IsDigit(s[0]) && IsDigit(s[1]) && s[2] == ':' && IsDigit(s[3]) && IsDigit(s[4])
    && Two(s[0], s[1]) < 24 && Two(s[3], s[4]) < 60
  }

  function Two(a: char, b: char): (n: nat)
    requires IsDigit(a) && IsDigit(b)
  {
    10 * (a as int - '0' as int) + (b as int - '0' as int)
  }

  function ToMinutes(hhmm: string): (m: nat)
    requires IsHHMM(hhmm)
    ensures m < DAY_MINUTES
  {
    Two(hhmm[0], hhmm[1]) * 60 + Two(hhmm[3], hhmm[4])
  }

  predicate IsInQuietHours(current: string, start: string, end: string)
    requires IsHHMM(current) && IsHHMM(start) && IsHHMM(end)
  {
    var c, s, e := ToMinutes(current), ToMinutes(start), ToMinutes(end);
    if s <= e then c >= s && c < e else c >= s || c < e
  }

  // Minutes of the day are in the order of hours, then minutes, with 60 to the hour, from 00:00 to
  // 23:59; they tell all times apart.
  lemma MinutesAreTimes(a: string, b: string)
    requires IsHHMM(a) && IsHHMM(b)
    ensures a == "00:00" ==> ToMinutes(a) == 0
    ensures a == "23:59" ==> ToMinutes(a) == DAY_MINUTES - 1
    ensures ToMinutes(a) == ToMinutes(b) <==> a == b
    ensures ToMinutes(a) < ToMinutes(b) <==> ClockBefore(a, b)
    ensures a[3..] == b[3..] ==> (ToMinutes(b) - ToMinutes(a)) == 60 * (Two(b[0], b[1]) - Two(a[0], a[1]))
  {
    SameSplit(Two(a[0], a[1]), Two(a[3], a[4]), Two(b[0], b[1]), Two(b[3], b[4]));
    DigitsDiffer(a[0], a[1], b[0], b[1]);
    DigitsDiffer(a[3], a[4], b[3], b[4]);
    assert a == b <==> a[0] == b[0] && a[1] == b[1] && a[3] == b[3] && a[4] == b[4];
    if a[3..] == b[3..] {
      assert a[3] == a[3..][0] && a[4] == a[3..][1] && b[3] == b[3..][0] && b[4] == b[3..][1];
    }
  }

  // In the order of a clock's digits.
  predicate ClockBefore(a: string, b: string)
    requires IsHHMM(a) && IsHHMM(b)
  {
    || a[0] < b[0]
    || (a[0] == b[0] && a[1] < b[1])
    || (a[0] == b[0] && a[1] == b[1] && a[3] < b[3])
    || (a[0] == b[0] && a[1] == b[1] && a[3] == b[3] && a[4] < b[4])
  }

  lemma DigitsDiffer(a: char, b: char, c: char, d: char)
    requires IsDigit(a) && IsDigit(b) && IsDigit(c) && IsDigit(d)
    ensures Two(a, b) == Two(c, d) <==> a == c && b == d
    ensures Two(a, b) < Two(c, d) <==> a < c || (a == c && b < d)
  {
  }

  lemma SameSplit(h: nat, m: nat, i: nat, n: nat)
    requires m < 60 && n < 60
    ensures h * 60 + m == i * 60 + n <==> h == i && m == n
    ensures h * 60 + m < i * 60 + n <==> h < i || (h == i && m < n)
  {
  }

  // Both branches are one rule on the clock face: the time since the window opened is less
  // than the window's length, going round midnight. Equal ends give an empty window.
  lemma QuietHoursAreAnArc(current: string, start: string, end: string)
    requires IsHHMM(current) && IsHHMM(start) && IsHHMM(end)
    ensures IsInQuietHours(current, start, end)
        <==> (ToMinutes(current) - ToMinutes(start)) % DAY_MINUTES < (ToMinutes(end) - ToMinutes(start)) % DAY_MINUTES
  {
    var c: int, s: int, e: int := ToMinutes(current), ToMinutes(start), ToMinutes(end);
    hide ToMinutes, IsHHMM;
    RoundTheClock(c - s);
    RoundTheClock(e - s);
  }

  lemma RoundTheClock(x: int)
    requires -DAY_MINUTES < x < DAY_MINUTES
    ensures x % DAY_MINUTES == if x < 0 then x + DAY_MINUTES else x
  {
  }

  // Outside the ends' own equality, a window and its complement cover the day exactly once.
  lemma QuietHoursComplement(current: string, start: string, end: string)
    requires IsHHMM(current) && IsHHMM(start) && IsHHMM(end)
    ensures ToMinutes(start) != ToMinutes(end) ==>
      (IsInQuietHours(current, start, end) <==> !IsInQuietHours(current, end, start))
  {
  }

  // ---------------------------------------------------------------- one alert, one cycle

  type ConfigId = nat
  type Millis = int

  datatype Quiet = Quiet(start: string, end: string, timezone: string)

  // A row of alerts_fired with its contract's network and its channel type.
  datatype Alert = Alert(
    config: ConfigId, network: string, channel: string, firedAt: Millis, retries: nat, delivered: bool)

  // What a cycle finds for one alert: whether it is of the cycle's network, the cap of its
  // channel, whether it is quiet time, whether the channel exists, and whether its send succeeds.
  datatype Moment = Moment(mine: bool, cap: nat, quiet: bool, known: bool, ok: bool)

  // called: channel.send was called; it is not when there is no such channel.
  datatype Outcome = NotFetched | Ignored | Deferred | Sent | Failed(called: bool, abandoned: bool)

  // getUndeliveredAlerts filters on the network and the global cap; the loop then looks at the
  // channel's own cap, the quiet hours and the channel.
  function Decide(a: Alert, m: Moment): Outcome {
    if !m.mine || a.delivered || a.retries >= MAX_RETRY_COUNT then NotFetched
    else if a.retries >= m.cap then Ignored
    else if m.quiet then Deferred
    else if m.known && m.ok then Sent
    else Failed(m.known, a.retries + 1 >= m.cap)
  }

  function After(a: Alert, o: Outcome): Alert {
    match o
    case Sent => a.(delivered := true)
    case Failed(_, _) => a.(retries := a.retries + 1)
    case _ => a
  }

  // ---------------------------------------------------------------- one cycle of the queue

  // What the outside answers in one cycle: the quiet windows of the configs that have all three
  // columns set, the local time of each timezone, the caps that channel definitions set, the
  // channels that exist, and whether the send for the i-th row succeeds.
  datatype World = World(
    network: string, windows: map<ConfigId, Quiet>, clock: map<string, string>,
    caps: map<string, nat>, channels: set<string>, sendOk: seq<bool>)

  function CapOf(w: World, channel: string): nat {
    if channel in w.caps then w.caps[channel] else MAX_RETRY_COUNT
  }

  ghost predicate ValidWindow(w: World, c: ConfigId) {
    c in w.windows ==>
      var q := w.windows[c];
      q.timezone in w.clock && IsHHMM(w.clock[q.timezone]) && IsHHMM(q.start) && IsHHMM(q.end)
  }

  ghost predicate ValidWorld(w: World, rows: seq<Alert>) {
    |w.sendOk| == |rows| && forall c :: ValidWindow(w, c)
  }

  predicate QuietNow(w: World, c: ConfigId)
    requires ValidWindow(w, c)
  {
    c in w.windows
    && IsInQuietHours(w.clock[w.windows[c].timezone], w.windows[c].start, w.windows[c].end)
  }

  ghost function MomentAt(rows: seq<Alert>, w: World, i: nat): Moment
    requires ValidWorld(w, rows) && i < |rows|
  {
    var a := rows[i];
    Moment(a.network == w.network, CapOf(w, a.channel), QuietNow(w, a.config), a.channel in w.channels, w.sendOk[i])
  }

  ghost function OutcomeAt(rows: seq<Alert>, w: World, i: nat): Outcome
    requires ValidWorld(w, rows) && i < |rows|
  {
    Decide(rows[i], MomentAt(rows, w, i))
  }

  ghost function Cycled(rows: seq<Alert>, w: World): (r: seq<Alert>)
    requires ValidWorld(w, rows)
    ensures |r| == |rows|
  {
    seq(|rows|, i requires 0 <= i < |rows| => After(rows[i], OutcomeAt(rows, w, i)))
  }

  datatype Result = Result(attempted: nat, delivered: nat, failed: nat, abandoned: nat)

  datatype Kind = Attempts | Deliveries | Failures | Abandonments | Deferrals

  predicate Is(o: Outcome, k: Kind) {
    match k
    case Attempts => o.Deferred? || o.Sent? || o.Failed?
    case Deliveries => o.Sent?
    case Failures => o.Failed?
    case Abandonments => o.Failed? && o.abandoned
    case Deferrals => o.Deferred?
  }

  // The rows of a set whose outcome is of a kind.
  ghost function Those(rows: seq<Alert>, w: World, ids: set<nat>, k: Kind): set<nat>
    requires ValidWorld(w, rows) && forall i :: i in ids ==> i < |rows|
  {
    set i | i in ids && Is(OutcomeAt(rows, w, i), k)
  }

  ghost function Tally(rows: seq<Alert>, w: World, ids: set<nat>): Result
    requires ValidWorld(w, rows) && forall i :: i in ids ==> i < |rows|
  {
    Result(|Those(rows, w, ids, Attempts)|, |Those(rows, w, ids, Deliveries)|, |Those(rows, w, ids, Failures)|,
           |Those(rows, w, ids, Abandonments)|)
  }

  function Count(r: Result, o: Outcome): Result {
    match o
    case Sent => r.(attempted := r.attempted + 1, delivered := r.delivered + 1)
    case Failed(_, ab) =>
      r.(attempted := r.attempted + 1, failed := r.failed + 1, abandoned := r.abandoned + (if ab then 1 else 0))
    case Deferred => r.(attempted := r.attempted + 1)
    case _ => r
  }

  function Below(n: nat): (ids: set<nat>)
    ensures forall i: nat :: i in ids <==> i < n
  {
    if n == 0 then {} else Below(n - 1) + {n - 1}
  }

  predicate InRange(rows: seq<Alert>, ids: seq<nat>) {
    forall k :: 0 <= k < |ids| ==> ids[k] < |rows|
  }

  // ORDER BY fired_at ASC, one row at a time.
  function Placed(rows: seq<Alert>, ids: seq<nat>, id: nat): seq<nat>
    requires id < |rows| && InRange(rows, ids)
  {
    if ids == [] || rows[ids[|ids| - 1]].firedAt <= rows[id].firedAt then ids + [id]
    else Placed(rows, ids[..|ids| - 1], id) + [ids[|ids| - 1]]
  }

  ghost predicate OldestFirst(rows: seq<Alert>, ids: seq<nat>) {
    && InRange(rows, ids) && Distinct(ids)
    && forall j, k :: 0 <= j < k < |ids| ==> rows[ids[j]].firedAt <= rows[ids[k]].firedAt
  }

  lemma NewestLast(rows: seq<Alert>, ids: seq<nat>, id: nat)
    requires OldestFirst(rows, ids) && id < |rows| && id !in ids
    requires forall i: nat :: i in ids ==> i < |rows| && rows[i].firedAt <= rows[id].firedAt
    ensures OldestFirst(rows, ids + [id])
  {
    assert forall k :: 0 <= k < |ids| ==> ids[k] in ids;
  }

  lemma WithoutLast(rows: seq<Alert>, ids: seq<nat>)
    requires OldestFirst(rows, ids) && ids != []
    ensures var front, last := ids[..|ids| - 1], ids[|ids| - 1];
      && OldestFirst(rows, front) && last !in front && last < |rows|
      && forall i: nat :: i in front ==> i < |rows| && rows[i].firedAt <= rows[last].firedAt
  {
  }

  lemma {:induction false} PlacedKeepsOrder(rows: seq<Alert>, ids: seq<nat>, id: nat)
    requires id < |rows| && OldestFirst(rows, ids) && id !in ids
    ensures OldestFirst(rows, Placed(rows, ids, id))
    ensures forall i: nat :: i in Placed(rows, ids, id) <==> i in ids || i == id
  {
    if ids != [] {
      var front, last := ids[..|ids| - 1], ids[|ids| - 1];
      WithoutLast(rows, ids);
      assert ids == front + [last];
      hide OldestFirst;
      if rows[last].firedAt <= rows[id].firedAt {
        NewestLast(rows, ids, id);
      } else {
        PlacedKeepsOrder(rows, front, id);
        NewestLast(rows, Placed(rows, front, id), last);
      }
    }
  }

  predicate Fetched(a: Alert, network: string) {
    a.network == network && !a.delivered && a.retries < MAX_RETRY_COUNT
  }

  class AlertQueue {
    var rows: seq<Alert>

    // The ids of the network's undelivered rows under the global cap, oldest first.
    method GetUndeliveredAlerts(network: string) returns (ids: seq<nat>)
      ensures forall i: nat :: i in ids <==> i < |rows| && Fetched(rows[i], network)
      ensures OldestFirst(rows, ids)
    {
      ids := [];
      for i := 0 to |rows|
        invariant forall j: nat :: j in ids <==> j < i && Fetched(rows[j], network)
        invariant OldestFirst(rows, ids)
      {
        if Fetched(rows[i], network) {
          PlacedKeepsOrder(rows, ids, i);
          ids := Placed(rows, ids, i);
        }
      }
    }

    // The loop body: one fetched row, and the counters so far.
    method DeliverOne(id: nat, w: World, sofar: Result) returns (result: Result)
      requires id < |rows| && ValidWorld(w, rows) && Fetched(rows[id], w.network)
      modifies this
      ensures rows == old(rows)[id := After(old(rows)[id], OutcomeAt(old(rows), w, id))]
      ensures result == Count(sofar, OutcomeAt(old(rows), w, id))
    {
      result := sofar;
      var alert := rows[id];
      var cap := CapOf(w, alert.channel);
      if alert.retries >= cap {
        return;   // abandoned in an earlier cycle: not even attempted
      }
      result := result.(attempted := result.attempted + 1);
      if QuietNow(w, alert.config) {
        return;   // deferred: the row stays as it is
      }
      if alert.channel in w.channels && w.sendOk[id] {
        rows := rows[id := alert.(delivered := true)];
        result := result.(delivered := result.delivered + 1);
      } else {   // the send threw, or there is no such channel
        result := result.(failed := result.failed + 1);
        rows := rows[id := alert.(retries := alert.retries + 1)];
        if alert.retries + 1 >= cap {
          result := result.(abandoned := result.abandoned + 1);
        }
      }
    }

    method DeliverPendingAlerts(w: World) returns (result: Result)
      requires ValidWorld(w, rows)
      modifies this
      ensures rows == Cycled(old(rows), w)
      ensures result == Tally(old(rows), w, Below(|old(rows)|))
    {
      var pending := GetUndeliveredAlerts(w.network);
      result := Result(0, 0, 0, 0);
      ghost var was := rows;
      assert ExactlyFetched(was, w.network, pending);
      Started(was, w);
      TakenNone(pending);
      hide *;
      for k := 0 to |pending|
        invariant ValidWorld(w, was) && ExactlyFetched(was, w.network, pending)
        invariant Progress(was, rows, w, Taken(pending, k), result)
      {
        var id := pending[k];
        TakenOneMore(was, w.network, pending, k);
        Ready(was, rows, w, Taken(pending, k), id, result);
        Advanced(was, rows, w, Taken(pending, k), id, result);
        result := DeliverOne(id, w, result);
      }
      Finished(was, rows, w, pending, result);
    }
  }

  ghost predicate ExactlyFetched(rows: seq<Alert>, network: string, ids: seq<nat>) {
    Distinct(ids) && forall i: nat :: i in ids <==> i < |rows| && Fetched(rows[i], network)
  }

  ghost function Taken(ids: seq<nat>, k: nat): set<nat>
    requires k <= |ids|
  {
    set i | i in ids[..k]
  }

  lemma TakenNone(ids: seq<nat>)
    ensures Taken(ids, 0) == {}
  {
  }

  lemma TakenOneMore(rows: seq<Alert>, network: string, ids: seq<nat>, k: nat)
    requires ExactlyFetched(rows, network, ids) && k < |ids|
    ensures ids[k] < |rows| && Fetched(rows[ids[k]], network) && ids[k] !in Taken(ids, k)
    ensures Taken(ids, k + 1) == Taken(ids, k) + {ids[k]}
  {
    hide Fetched;
    assert ids[k] in ids && ids[..k + 1] == ids[..k] + [ids[k]];
  }

  // The rows of done have had their outcome and are counted.
  ghost predicate Progress(was: seq<Alert>, now: seq<Alert>, w: World, done: set<nat>, r: Result)
    requires ValidWorld(w, was)
  {
    ValidWorld(w, now) && Partly(was, now, w, done) && r == Tally(was, w, done)
  }

  lemma Started(rows: seq<Alert>, w: World)
    requires ValidWorld(w, rows)
    ensures Progress(rows, rows, w, {}, Result(0, 0, 0, 0))
  {
    assert forall k: Kind :: Those(rows, w, {}, k) == {};
    hide Those, ValidWorld;
  }

  lemma Ready(was: seq<Alert>, now: seq<Alert>, w: World, done: set<nat>, id: nat, r: Result)
    requires ValidWorld(w, was) && Progress(was, now, w, done, r)
    requires id < |was| && id !in done && Fetched(was[id], w.network)
    ensures id < |now| && ValidWorld(w, now) && Fetched(now[id], w.network)
  {
    hide ValidWorld, Tally;
  }

  lemma Advanced(was: seq<Alert>, now: seq<Alert>, w: World, done: set<nat>, id: nat, r: Result)
    requires ValidWorld(w, was) && Progress(was, now, w, done, r) && id < |was| && id !in done
    ensures id < |now| && ValidWorld(w, now)
    ensures var o := OutcomeAt(now, w, id);
      Progress(was, now[id := After(now[id], o)], w, done + {id}, Count(r, o))
  {
    hide Tally, Those, OutcomeAt, After, ValidWindow, Count;
    assert id < |now| && ValidWorld(w, now);
    OneMore(was, now, w, done, id);
    hide Partly, ValidWorld;
  }

  lemma Finished(was: seq<Alert>, now: seq<Alert>, w: World, ids: seq<nat>, r: Result)
    requires ValidWorld(w, was) && Progress(was, now, w, Taken(ids, |ids|), r) && ExactlyFetched(was, w.network, ids)
    ensures now == Cycled(was, w) && r == Tally(was, w, Below(|was|))
  {
    hide Tally, Those, OutcomeAt, ValidWorld, Cycled, Fetched;
    assert ids[..|ids|] == ids;
    AllDone(was, now, w, Taken(ids, |ids|));
  }

  // The rows of done have had their outcome; the others are untouched.
  ghost predicate Partly(was: seq<Alert>, now: seq<Alert>, w: World, done: set<nat>)
    requires ValidWorld(w, was)
  {
    && |now| == |was| && (forall i :: i in done ==> i < |was|)
    && forall i :: 0 <= i < |was| ==> now[i] == if i in done then After(was[i], OutcomeAt(was, w, i)) else was[i]
  }

  // The step of the loop, as far as the tables and the counters are concerned.
  lemma OneMore(was: seq<Alert>, now: seq<Alert>, w: World, done: set<nat>, id: nat)
    requires ValidWorld(w, was) && ValidWorld(w, now) && Partly(was, now, w, done) && id < |was| && id !in done
    ensures now[id] == was[id] && OutcomeAt(now, w, id) == OutcomeAt(was, w, id)
    ensures var next := now[id := After(now[id], OutcomeAt(now, w, id))];
      ValidWorld(w, next) && Partly(was, next, w, done + {id})
    ensures Tally(was, w, done + {id}) == Count(Tally(was, w, done), OutcomeAt(was, w, id))
  {
    assert now[id] == was[id];
    hide Tally, Decide, After, QuietNow, Cycled;
    TallyGrows(was, w, done, id);
    PartlyGrows(was, now, w, done, id);
  }

  lemma PartlyGrows(was: seq<Alert>, now: seq<Alert>, w: World, done: set<nat>, id: nat)
    requires ValidWorld(w, was) && Partly(was, now, w, done) && id < |was| && id !in done
    ensures Partly(was, now[id := After(was[id], OutcomeAt(was, w, id))], w, done + {id})
  {
    hide OutcomeAt, After, ValidWorld;
  }

  lemma ThoseGrow(rows: seq<Alert>, w: World, done: set<nat>, id: nat, k: Kind)
    requires ValidWorld(w, rows) && (forall i :: i in done ==> i < |rows|) && id < |rows| && id !in done
    ensures |Those(rows, w, done + {id}, k)| == |Those(rows, w, done, k)| + if Is(OutcomeAt(rows, w, id), k) then 1 else 0
  {
    hide OutcomeAt, Is;
    var few := Those(rows, w, done, k);
    assert Those(rows, w, done + {id}, k) == if Is(OutcomeAt(rows, w, id), k) then few + {id} else few;
  }

  lemma TallyGrows(rows: seq<Alert>, w: World, done: set<nat>, id: nat)
    requires ValidWorld(w, rows) && (forall i :: i in done ==> i < |rows|) && id < |rows| && id !in done
    ensures Tally(rows, w, done + {id}) == Count(Tally(rows, w, done), OutcomeAt(rows, w, id))
  {
    ThoseGrow(rows, w, done, id, Attempts);
    ThoseGrow(rows, w, done, id, Deliveries);
    ThoseGrow(rows, w, done, id, Failures);
    ThoseGrow(rows, w, done, id, Abandonments);
    hide Those, OutcomeAt;
  }

  // Rows that were not fetched have nothing to be done.
  lemma AllDone(was: seq<Alert>, now: seq<Alert>, w: World, done: set<nat>)
    requires ValidWorld(w, was) && Partly(was, now, w, done)
    requires forall i: nat :: i in done <==> i < |was| && Fetched(was[i], w.network)
    ensures now == Cycled(was, w) && Tally(was, w, done) == Tally(was, w, Below(|was|))
  {
    NothingElse(was, w, done);
    hide OutcomeAt, ValidWorld, Fetched;
    assert now == Cycled(was, w);
    hide Partly, Cycled, After, Those;
    forall k: Kind ensures Those(was, w, done, k) == Those(was, w, Below(|was|), k) {
      SameThose(was, w, done, k);
    }
  }

  lemma SameThose(rows: seq<Alert>, w: World, done: set<nat>, k: Kind)
    requires ValidWorld(w, rows) && forall i: nat :: i in done ==> i < |rows|
    requires forall i: nat :: i < |rows| && i !in done ==> OutcomeAt(rows, w, i) == NotFetched
    ensures Those(rows, w, done, k) == Those(rows, w, Below(|rows|), k)
  {
    hide OutcomeAt, ValidWorld;
  }

  lemma NothingElse(rows: seq<Alert>, w: World, done: set<nat>)
    requires ValidWorld(w, rows)
    requires forall i: nat :: i in done <==> i < |rows| && Fetched(rows[i], w.network)
    ensures forall i: nat :: i < |rows| && i !in done ==> OutcomeAt(rows, w, i) == NotFetched
  {
  }

  // Every attempt was delivered, failed, or deferred.
  lemma AttemptsAreAccounted(rows: seq<Alert>, w: World)
    requires ValidWorld(w, rows)
    ensures var r := Tally(rows, w, Below(|rows|));
      && r.attempted == r.delivered + r.failed + |Those(rows, w, Below(|rows|), Deferrals)|
      && r.abandoned <= r.failed
  {
    hide OutcomeAt;
    var all := Below(|rows|);
    var d, f := Those(rows, w, all, Deliveries), Those(rows, w, all, Failures);
    var q, ab := Those(rows, w, all, Deferrals), Those(rows, w, all, Abandonments);
    assert Those(rows, w, all, Attempts) == d + f + q;
    assert f == ab + (f - ab);
  }

  // ---------------------------------------------------------------- one alert over many cycles

  function Limit(cap: nat): nat {
    if cap < MAX_RETRY_COUNT then cap else MAX_RETRY_COUNT
  }

  function Life(a: Alert, ms: seq<Moment>): Alert {
    if ms == [] then a
    else
      var b := Life(a, ms[..|ms| - 1]);
      After(b, Decide(b, ms[|ms| - 1]))
  }

  function Outcomes(a: Alert, ms: seq<Moment>): (os: seq<Outcome>)
    ensures |os| == |ms|
  {
    if ms == [] then []
    else Outcomes(a, ms[..|ms| - 1]) + [Decide(Life(a, ms[..|ms| - 1]), ms[|ms| - 1])]
  }

  // Calls of channel.send; failures without one; abandonments counted.
  function Sends(os: seq<Outcome>): nat {
    if os == [] then 0
    else
      var o := os[|os| - 1];
      Sends(os[..|os| - 1]) + if o.Sent? || (o.Failed? && o.called) then 1 else 0
  }

  function Unsent(os: seq<Outcome>): nat {
    if os == [] then 0
    else
      var o := os[|os| - 1];
      Unsent(os[..|os| - 1]) + if o.Failed? && !o.called then 1 else 0
  }

  function TimesAbandoned(os: seq<Outcome>): nat {
    if os == [] then 0
    else
      var o := os[|os| - 1];
      TimesAbandoned(os[..|os| - 1]) + if o.Failed? && o.abandoned then 1 else 0
  }

  // Cycles of the alert's network outside quiet hours.
  function AwakeCycles(ms: seq<Moment>): nat {
    if ms == [] then 0
    else
      var m := ms[|ms| - 1];
      AwakeCycles(ms[..|ms| - 1]) + if m.mine && !m.quiet then 1 else 0
  }

  ghost predicate IsNew(a: Alert) {
    a.retries == 0 && !a.delivered
  }

  function Closed(a: Alert): nat {
    a.retries + if a.delivered then 1 else 0
  }

  lemma LastOutcome(a: Alert, ms: seq<Moment>)
    requires ms != []
    ensures var front := Outcomes(a, ms[..|ms| - 1]); var all := Outcomes(a, ms);
      all[..|all| - 1] == front && all[|all| - 1] == Decide(Life(a, ms[..|ms| - 1]), ms[|ms| - 1])
  {
  }

  // Every retry is a send or a failure for want of a channel, and the delivery is a send.
  lemma {:induction false} SendsBalance(a: Alert, ms: seq<Moment>)
    requires IsNew(a)
    ensures Sends(Outcomes(a, ms)) + Unsent(Outcomes(a, ms)) == Closed(Life(a, ms))
  {
    if ms != [] {
      SendsBalance(a, ms[..|ms| - 1]);
      LastOutcome(a, ms);
      hide Outcomes;
    }
  }

  lemma {:induction false} RetriesAreBounded(a: Alert, ms: seq<Moment>, cap: nat)
    requires IsNew(a) && forall m :: m in ms ==> m.cap <= cap
    ensures Closed(Life(a, ms)) <= Limit(cap)
  {
    if ms != [] {
      assert ms[|ms| - 1] in ms;
      RetriesAreBounded(a, ms[..|ms| - 1], cap);
    }
  }

  lemma {:induction false} UnsentIff(a: Alert, ms: seq<Moment>)
    ensures Unsent(Outcomes(a, ms)) == 0
       <==> forall k :: 0 <= k < |ms| && Outcomes(a, ms)[k].Failed? ==> ms[k].known
  {
    if ms != [] {
      var n := |ms| - 1;
      UnsentIff(a, ms[..n]);
      LastOutcome(a, ms);
      assert Outcomes(a, ms)[n].Failed? ==> Outcomes(a, ms)[n].called == ms[n].known;
      assert forall k :: 0 <= k < n ==> Outcomes(a, ms)[k] == Outcomes(a, ms[..n])[k];
      hide Outcomes, Decide;
    }
  }

  // Sends never exceed the retries plus the delivery, nor either cap. They are as many exactly
  // when the channel existed at every failed attempt.
  lemma SendsAreBounded(a: Alert, ms: seq<Moment>, cap: nat)
    requires IsNew(a) && forall m :: m in ms ==> m.cap <= cap
    ensures var b, sends := Life(a, ms), Sends(Outcomes(a, ms));
      && sends <= Closed(b) <= Limit(cap)
      && (sends == Closed(b) <==> forall k :: 0 <= k < |ms| && Outcomes(a, ms)[k].Failed? ==> ms[k].known)
  {
    SendsBalance(a, ms);
    RetriesAreBounded(a, ms, cap);
    UnsentIff(a, ms);
    hide Outcomes, Sends, Unsent, Life;
  }

  // Cycles in which the alert's channel does not exist.
  function Orphaned(n: nat): seq<Moment> {
    seq(n, _ => Moment(true, MAX_RETRY_COUNT, false, false, true))
  }

  // Such cycles use the retries up without a single send.
  lemma {:induction false} MissingChannelUsesUpRetries(a: Alert, n: nat)
    requires IsNew(a) && n <= MAX_RETRY_COUNT
    ensures Life(a, Orphaned(n)).retries == n && !Life(a, Orphaned(n)).delivered
    ensures Sends(Outcomes(a, Orphaned(n))) == 0
  {
    if n > 0 {
      assert Orphaned(n)[..n - 1] == Orphaned(n - 1);
      MissingChannelUsesUpRetries(a, n - 1);
      LastOutcome(a, Orphaned(n));
    }
  }

  // Nothing is sent after a delivery.
  lemma {:induction false} NothingAfterDelivery(a: Alert, ms: seq<Moment>, more: seq<Moment>)
    requires Life(a, ms).delivered
    ensures Life(a, ms + more) == Life(a, ms)
    ensures Sends(Outcomes(a, ms + more)) == Sends(Outcomes(a, ms))
  {
    if more == [] {
      assert ms + more == ms;
    } else {
      assert (ms + more)[..|ms + more| - 1] == ms + more[..|more| - 1];
      NothingAfterDelivery(a, ms, more[..|more| - 1]);
      LastOutcome(a, ms + more);
    }
  }

  // ---------------------------------------------------------------- what becomes of an alert

  // The dispatcher looks at the alert in this cycle, and the send would succeed or fail.
  predicate Awake(m: Moment) {
    m.mine && !m.quiet
  }

  predicate Succeeds(m: Moment) {
    m.known && m.ok
  }

  // The failed attempts among the moments, if none succeeded: each awake one that fails counts
  // while there are attempts left.
  function Tries(ms: seq<Moment>): nat {
    if ms == [] then 0
    else
      var m, before := ms[|ms| - 1], Tries(ms[..|ms| - 1]);
      before + if Awake(m) && !Succeeds(m) && before < m.cap && before < MAX_RETRY_COUNT then 1 else 0
  }

  // Moment k delivers: it is awake, has an attempt left, and its send succeeds.
  predicate Delivers(ms: seq<Moment>, k: nat) {
    k < |ms| && Awake(ms[k]) && Succeeds(ms[k])
    && Tries(ms[..k]) < ms[k].cap && Tries(ms[..k]) < MAX_RETRY_COUNT
  }

  // A new alert is delivered if and only if some moment delivers, and its retries are the failed
  // attempts before the first one that does, or all.
  lemma {:induction false} DeliveredIff(a: Alert, ms: seq<Moment>)
    requires IsNew(a)
    ensures Life(a, ms).delivered <==> exists k: nat :: Delivers(ms, k)
    ensures !Life(a, ms).delivered ==> Life(a, ms).retries == Tries(ms)
    ensures forall k: nat :: Delivers(ms, k) && (forall j: nat :: j < k ==> !Delivers(ms, j)) ==>
      Life(a, ms).retries == Tries(ms[..k])
  {
    if ms != [] {
      var n := |ms| - 1;
      var front := ms[..n];
      DeliveredIff(a, front);
      forall k: nat | k < n ensures front[..k] == ms[..k] && (Delivers(front, k) <==> Delivers(ms, k)) {
        assert front[..k] == ms[..k];
      }
      hide Tries, Succeeds, Awake;
      LastMoment(Life(a, front), ms);
      if exists k: nat :: Delivers(front, k) {
        var k: nat :| Delivers(front, k);
        assert Delivers(ms, k);
      } else {
        assert forall k: nat :: Delivers(ms, k) ==> k == n;
      }
    }
  }

  lemma LastMoment(b: Alert, ms: seq<Moment>)
    requires ms != [] && (!b.delivered ==> b.retries == Tries(ms[..|ms| - 1]))
    ensures var n := |ms| - 1; var now := After(b, Decide(b, ms[n]));
      if b.delivered then now == b
      else if Delivers(ms, n) then now.delivered && now.retries == Tries(ms[..n])
      else !now.delivered && now.retries == Tries(ms)
  {
  }

  function FailuresAwake(ms: seq<Moment>): nat {
    if ms == [] then 0
    else
      var m := ms[|ms| - 1];
      FailuresAwake(ms[..|ms| - 1]) + if Awake(m) && !Succeeds(m) then 1 else 0
  }

  // While the channel keeps its cap, an alert is delivered if and only if a send succeeds before
  // as many attempts have failed as the caps allow.
  lemma {:induction false} TriesAreFailures(ms: seq<Moment>, cap: nat)
    requires forall m :: m in ms ==> m.cap == cap
    ensures Tries(ms) == if FailuresAwake(ms) < Limit(cap) then FailuresAwake(ms) else Limit(cap)
  {
    if ms != [] {
      assert ms[|ms| - 1] in ms;
      TriesAreFailures(ms[..|ms| - 1], cap);
      hide Awake, Succeeds;
    }
  }

  lemma DeliveredInTimeIff(a: Alert, ms: seq<Moment>, cap: nat)
    requires IsNew(a) && forall m :: m in ms ==> m.cap == cap
    ensures Life(a, ms).delivered <==>
      exists k: nat :: k < |ms| && Awake(ms[k]) && Succeeds(ms[k]) && FailuresAwake(ms[..k]) < Limit(cap)
  {
    DeliveredIff(a, ms);
    forall k: nat | k < |ms|
      ensures Delivers(ms, k) <==> Awake(ms[k]) && Succeeds(ms[k]) && FailuresAwake(ms[..k]) < Limit(cap)
    {
      assert ms[k] in ms;
      TriesAreFailures(ms[..k], cap);
    }
    hide Life, Awake, Succeeds, Tries, FailuresAwake;
  }

  // Abandonment is counted once, when the channel's cap is reached, provided that cap is at
  // least 1 and no more than the global one; otherwise it is never counted.
  lemma {:induction false} AbandonmentIsCounted(a: Alert, ms: seq<Moment>, cap: nat)
    requires IsNew(a) && forall m :: m in ms ==> m.cap == cap
    ensures TimesAbandoned(Outcomes(a, ms))
         == if 1 <= cap <= MAX_RETRY_COUNT && Life(a, ms).retries == cap then 1 else 0
  {
    if ms != [] {
      assert ms[|ms| - 1] in ms;
      AbandonmentIsCounted(a, ms[..|ms| - 1], cap);
      RetriesAreBounded(a, ms[..|ms| - 1], cap);
      LastOutcome(a, ms);
      hide Outcomes;
    }
  }

  // An exhausted alert (undelivered and never to be sent again) has been counted as abandoned
  // exactly when its channel's cap is between 1 and the global cap.
  lemma ExhaustedIsCountedIff(a: Alert, ms: seq<Moment>, cap: nat)
    requires IsNew(a) && forall m :: m in ms ==> m.cap == cap
    requires !Life(a, ms).delivered && Life(a, ms).retries >= Limit(cap)
    ensures TimesAbandoned(Outcomes(a, ms)) == 1 <==> 1 <= cap <= MAX_RETRY_COUNT
  {
    AbandonmentIsCounted(a, ms, cap);
    RetriesAreBounded(a, ms, cap);
  }

  // Attempts left; they fall on every cycle outside quiet hours, so after Limit(cap) such
  // cycles the alert is delivered or exhausted.
  function AttemptsLeft(a: Alert, cap: nat): nat {
    if a.delivered || a.retries >= Limit(cap) then 0 else Limit(cap) - a.retries
  }

  lemma AttemptsFall(a: Alert, m: Moment)
    ensures var b := After(a, Decide(a, m));
      && AttemptsLeft(b, m.cap) <= AttemptsLeft(a, m.cap)
      && (m.mine && !m.quiet && AttemptsLeft(a, m.cap) > 0 ==> AttemptsLeft(b, m.cap) < AttemptsLeft(a, m.cap))
      && (!m.mine || m.quiet ==> b == a)
  {
  }

  lemma {:induction false} EventuallySettled(a: Alert, ms: seq<Moment>, cap: nat)
    requires forall m :: m in ms ==> m.cap == cap
    ensures AttemptsLeft(Life(a, ms), cap) == 0
         || AttemptsLeft(Life(a, ms), cap) + AwakeCycles(ms) <= AttemptsLeft(a, cap)
  {
    if ms != [] {
      assert ms[|ms| - 1] in ms;
      EventuallySettled(a, ms[..|ms| - 1], cap);
      AttemptsFall(Life(a, ms[..|ms| - 1]), ms[|ms| - 1]);
      hide Decide, After;
    }
  }

  // ---------------------------------------------------------------- runs of the dispatcher

  // The monitor appends the rows it fired, then the dispatcher has its cycle.
  datatype Turn = Turn(added: seq<Alert>, world: World)

  // The queue that the last turn's cycle finds, and the queue it leaves.
  ghost function Found(turns: seq<Turn>): seq<Alert>
    requires turns != []
    decreases |turns|, 0
  {
    Queue(turns[..|turns| - 1]) + turns[|turns| - 1].added
  }

  ghost function Queue(turns: seq<Turn>): seq<Alert>
    decreases |turns|, 1
  {
    if turns == [] then []
    else if ValidWorld(turns[|turns| - 1].world, Found(turns)) then Cycled(Found(turns), turns[|turns| - 1].world)
    else Found(turns)
  }

  ghost predicate ValidRun(turns: seq<Turn>) {
    turns == [] ||
    var t := turns[|turns| - 1];
    ValidRun(turns[..|turns| - 1]) && ValidWorld(t.world, Found(turns)) && forall a :: a in t.added ==> IsNew(a)
  }

  // Row i as it was fired, the moments of the cycles since, and what each cycle did with it.
  ghost function Fired(turns: seq<Turn>, i: nat): Alert
    requires i < |Queue(turns)|
  {
    var before := Queue(turns[..|turns| - 1]);
    assert |Found(turns)| == |Queue(turns)|;
    if i < |before| then Fired(turns[..|turns| - 1], i) else turns[|turns| - 1].added[i - |before|]
  }

  ghost function Moments(turns: seq<Turn>, i: nat): seq<Moment>
    requires ValidRun(turns) && i < |Queue(turns)|
  {
    var front := turns[..|turns| - 1];
    (if i < |Queue(front)| then Moments(front, i) else []) + [MomentAt(Found(turns), turns[|turns| - 1].world, i)]
  }

  ghost function Done(turns: seq<Turn>, i: nat): seq<Outcome>
    requires ValidRun(turns) && i < |Queue(turns)|
  {
    var front := turns[..|turns| - 1];
    (if i < |Queue(front)| then Done(front, i) else []) + [OutcomeAt(Found(turns), turns[|turns| - 1].world, i)]
  }

  // Whatever else is in the queue, each row lives the life of its own moments.
  lemma {:induction false} RowIsItsLife(turns: seq<Turn>, i: nat)
    requires ValidRun(turns) && i < |Queue(turns)|
    ensures Queue(turns)[i] == Life(Fired(turns, i), Moments(turns, i))
    ensures Done(turns, i) == Outcomes(Fired(turns, i), Moments(turns, i))
    ensures IsNew(Fired(turns, i))
    decreases |turns|
  {
    var front, w := turns[..|turns| - 1], turns[|turns| - 1].world;
    var a, ms := Fired(turns, i), Moments(turns, i);
    var before := ms[..|ms| - 1];
    if i < |Queue(front)| {
      RowIsItsLife(front, i);
      assert before == Moments(front, i) && a == Fired(front, i);
    } else {
      assert before == [] && Life(a, []) == a && Outcomes(a, []) == [];
    }
    assert Found(turns)[i] == Life(a, before);
    assert ms[|ms| - 1] == MomentAt(Found(turns), w, i);
    hide Decide, After, MomentAt, ValidWorld, Fired;
  }

  lemma {:induction false} CapsOfMoments(turns: seq<Turn>, i: nat)
    requires ValidRun(turns) && i < |Queue(turns)|
    ensures Fired(turns, i).channel == Queue(turns)[i].channel
    ensures forall m :: m in Moments(turns, i) ==>
      exists t :: t in turns && m.cap == CapOf(t.world, Queue(turns)[i].channel)
    decreases |turns|
  {
    var front, t := turns[..|turns| - 1], turns[|turns| - 1];
    assert t in turns && forall u :: u in front ==> u in turns;
    assert Queue(turns)[i].channel == Found(turns)[i].channel;
    if i < |Queue(front)| {
      CapsOfMoments(front, i);
    }
    hide ValidWorld, ValidRun, Queue, Found, Fired, OutcomeAt;
  }

  // In every run, a row's sends never exceed its retries plus its delivery, the global cap, or
  // the greatest cap its channel ever had; they are as many as the former exactly when its
  // channel existed whenever an attempt failed.
  lemma QueueSendsAreBounded(turns: seq<Turn>, i: nat, cap: nat)
    requires ValidRun(turns) && i < |Queue(turns)|
    requires forall t :: t in turns ==> CapOf(t.world, Queue(turns)[i].channel) <= cap
    ensures var row, sends := Queue(turns)[i], Sends(Done(turns, i));
      && sends <= Closed(row) <= Limit(cap)
      && |Done(turns, i)| == |Moments(turns, i)|
      && (sends == Closed(row) <==>
            forall k :: 0 <= k < |Done(turns, i)| && Done(turns, i)[k].Failed? ==> Moments(turns, i)[k].known)
  {
    RowIsItsLife(turns, i);
    CapsOfMoments(turns, i);
    hide Queue, Moments, Done, Fired, Outcomes, Life, Sends, CapOf, ValidRun;
    SendsAreBounded(Fired(turns, i), Moments(turns, i), cap);
  }

  // In every run in which its channel keeps its cap, a row is abandoned at most once, and
  // exactly when the cap is from 1 to the global one and was reached.
  lemma QueueAbandonment(turns: seq<Turn>, i: nat, cap: nat)
    requires ValidRun(turns) && i < |Queue(turns)|
    requires forall t :: t in turns ==> CapOf(t.world, Queue(turns)[i].channel) == cap
    ensures TimesAbandoned(Done(turns, i))
         == if 1 <= cap <= MAX_RETRY_COUNT && Queue(turns)[i].retries == cap then 1 else 0
  {
    RowIsItsLife(turns, i);
    CapsOfMoments(turns, i);
    hide Queue, Moments, Done, Fired, Outcomes, Life, TimesAbandoned, CapOf, ValidRun;
    AbandonmentIsCounted(Fired(turns, i), Moments(turns, i), cap);
  }

  // In every such run, as many awake cycles as there are attempts leave the row delivered or
  // exhausted.
  lemma QueueEventuallySettled(turns: seq<Turn>, i: nat, cap: nat)
    requires ValidRun(turns) && i < |Queue(turns)|
    requires forall t :: t in turns ==> CapOf(t.world, Queue(turns)[i].channel) == cap
    requires AwakeCycles(Moments(turns, i)) >= Limit(cap)
    ensures Queue(turns)[i].delivered || Queue(turns)[i].retries >= Limit(cap)
  {
    RowIsItsLife(turns, i);
    CapsOfMoments(turns, i);
    hide Queue, Moments, Done, Fired, Outcomes, Life, AwakeCycles, CapOf, ValidRun;
    EventuallySettled(Fired(turns, i), Moments(turns, i), cap);
  }

  // In this cycle row i is of the network, undelivered, below both caps, and outside the quiet
  // hours of its config.
  ghost predicate Tried(rows: seq<Alert>, w: World, i: nat)
    requires ValidWorld(w, rows)
  {
    && i < |rows| && rows[i].network == w.network && !rows[i].delivered
    && rows[i].retries < MAX_RETRY_COUNT && (rows[i].channel in w.caps ==> rows[i].retries < w.caps[rows[i].channel])
    && !InQuietWindow(w, rows[i].config)
  }

  ghost predicate InQuietWindow(w: World, c: ConfigId)
    requires ValidWindow(w, c)
  {
    c in w.windows &&
    var q := w.windows[c];
    var now, start, end := ToMinutes(w.clock[q.timezone]), ToMinutes(q.start), ToMinutes(q.end);
    if start <= end then start <= now < end else now >= start || now < end
  }

  // Its channel exists, and the send succeeds.
  ghost predicate Reached(rows: seq<Alert>, w: World, i: nat)
    requires ValidWorld(w, rows)
  {
    i < |rows| && rows[i].channel in w.channels && w.sendOk[i]
  }

  // What a cycle makes of each row: tried and reached, it is delivered; tried and not reached, it
  // has one retry more; nothing else changes.
  lemma CycledRow(rows: seq<Alert>, w: World, i: nat)
    requires ValidWorld(w, rows) && i < |rows|
    ensures Cycled(rows, w)[i] == rows[i].(
      delivered := rows[i].delivered || (Tried(rows, w, i) && Reached(rows, w, i)),
      retries := rows[i].retries + if Tried(rows, w, i) && !Reached(rows, w, i) then 1 else 0)
  {
    assert ValidWindow(w, rows[i].config);
    hide ToMinutes, IsHHMM;
  }

  // The rows that a cycle delivers, that it fails to, and of these the ones whose channel's cap is
  // reached with it.
  ghost function Delivering(rows: seq<Alert>, w: World): set<nat>
    requires ValidWorld(w, rows)
  {
    set i | i in Below(|rows|) && Tried(rows, w, i) && Reached(rows, w, i)
  }

  ghost function Failing(rows: seq<Alert>, w: World): set<nat>
    requires ValidWorld(w, rows)
  {
    set i | i in Below(|rows|) && Tried(rows, w, i) && !Reached(rows, w, i)
  }

  ghost function Exhausting(rows: seq<Alert>, w: World): set<nat>
    requires ValidWorld(w, rows)
  {
    set i | i in Failing(rows, w)
      && rows[i].retries + 1 >= if rows[i].channel in w.caps then w.caps[rows[i].channel] else MAX_RETRY_COUNT
  }

  // The rows that it leaves for later, having found them below both caps but quiet.
  ghost function Quieted(rows: seq<Alert>, w: World): set<nat>
    requires ValidWorld(w, rows)
  {
    set i | i in Below(|rows|) && rows[i].network == w.network && !rows[i].delivered
      && rows[i].retries < MAX_RETRY_COUNT && (rows[i].channel in w.caps ==> rows[i].retries < w.caps[rows[i].channel])
      && InQuietWindow(w, rows[i].config)
  }

  lemma KindsOf(rows: seq<Alert>, w: World, i: nat)
    requires ValidWorld(w, rows) && i < |rows|
    ensures var a, o := rows[i], OutcomeAt(rows, w, i);
      && (Is(o, Deliveries) <==> Tried(rows, w, i) && Reached(rows, w, i))
      && (Is(o, Failures) <==> Tried(rows, w, i) && !Reached(rows, w, i))
      && (Is(o, Abandonments) <==> (
            && Tried(rows, w, i) && !Reached(rows, w, i)
            && a.retries + 1 >= if a.channel in w.caps then w.caps[a.channel] else MAX_RETRY_COUNT))
      && (Is(o, Deferrals) <==> (
            && a.network == w.network && !a.delivered && a.retries < MAX_RETRY_COUNT
            && (a.channel in w.caps ==> a.retries < w.caps[a.channel]) && InQuietWindow(w, a.config)))
  {
    assert ValidWindow(w, rows[i].config);
    hide ToMinutes, IsHHMM;
  }

  // The counters of a cycle count those rows.
  lemma CountersAreRows(rows: seq<Alert>, w: World)
    requires ValidWorld(w, rows)
    ensures Tally(rows, w, Below(|rows|)) == Result(
      |Delivering(rows, w)| + |Failing(rows, w)| + |Quieted(rows, w)|,
      |Delivering(rows, w)|, |Failing(rows, w)|, |Exhausting(rows, w)|)
  {
    var all := Below(|rows|);
    forall i: nat | i < |rows|
      ensures Is(OutcomeAt(rows, w, i), Deliveries) <==> i in Delivering(rows, w)
      ensures Is(OutcomeAt(rows, w, i), Failures) <==> i in Failing(rows, w)
      ensures Is(OutcomeAt(rows, w, i), Abandonments) <==> i in Exhausting(rows, w)
      ensures Is(OutcomeAt(rows, w, i), Deferrals) <==> i in Quieted(rows, w)
    {
      KindsOf(rows, w, i);
      hide OutcomeAt, Tried, Reached, InQuietWindow, ValidWorld, Is;
    }
    AttemptsAreAccounted(rows, w);
    hide OutcomeAt, Tried, Reached, ValidWorld;
    assert Those(rows, w, all, Deliveries) == Delivering(rows, w);
    assert Those(rows, w, all, Failures) == Failing(rows, w);
    assert Those(rows, w, all, Abandonments) == Exhausting(rows, w);
    assert Those(rows, w, all, Deferrals) == Quieted(rows, w);
  }

  // The turns that tried row i and reached its channel, or did not.
  ghost function Successes(turns: seq<Turn>, i: nat): nat
    requires ValidRun(turns)
  {
    if turns == [] then 0
    else
      var rows, w := Found(turns), turns[|turns| - 1].world;
      Successes(turns[..|turns| - 1], i) + if Tried(rows, w, i) && Reached(rows, w, i) then 1 else 0
  }

  ghost function Setbacks(turns: seq<Turn>, i: nat): nat
    requires ValidRun(turns)
  {
    if turns == [] then 0
    else
      var rows, w := Found(turns), turns[|turns| - 1].world;
      Setbacks(turns[..|turns| - 1], i) + if Tried(rows, w, i) && !Reached(rows, w, i) then 1 else 0
  }

  lemma {:induction false} NotTriedYet(turns: seq<Turn>, i: nat)
    requires ValidRun(turns) && i >= |Queue(turns)|
    ensures Successes(turns, i) == Setbacks(turns, i) == 0
  {
    if turns != [] {
      assert |Found(turns)| == |Queue(turns)|;
      NotTriedYet(turns[..|turns| - 1], i);
      hide Cycled, Reached, ValidWorld;
    }
  }

  // Over every run, a row is delivered if and only if some cycle tried it and reached its channel,
  // which happens at most once; and it has one retry for each that tried and did not.
  lemma {:induction false} QueueDeliveredIff(turns: seq<Turn>, i: nat)
    requires ValidRun(turns) && i < |Queue(turns)|
    ensures Queue(turns)[i].delivered <==> Successes(turns, i) > 0
    ensures Queue(turns)[i].retries == Setbacks(turns, i) && Successes(turns, i) <= 1
  {
    var front, t := turns[..|turns| - 1], turns[|turns| - 1];
    CycledRow(Found(turns), t.world, i);
    if i < |Queue(front)| {
      QueueDeliveredIff(front, i);
      assert Found(turns)[i] == Queue(front)[i];
    } else {
      NotTriedYet(front, i);
      assert Found(turns)[i] in t.added;
    }
    hide Cycled, Reached, ValidWorld;
  }

  // Once delivered, a row is never touched again, and nothing more is sent for it.
  lemma {:induction false} QueueLeavesDelivered(turns: seq<Turn>, more: seq<Turn>, i: nat)
    requires ValidRun(turns + more) && ValidRun(turns) && i < |Queue(turns)| && Queue(turns)[i].delivered
    ensures i < |Queue(turns + more)| && Queue(turns + more)[i] == Queue(turns)[i]
    ensures Sends(Done(turns + more, i)) == Sends(Done(turns, i))
    decreases |more|
  {
    var all := turns + more;
    if more == [] {
      assert all == turns;
    } else {
      var front := turns + more[..|more| - 1];
      assert all[..|all| - 1] == front;
      QueueLeavesDelivered(turns, more[..|more| - 1], i);
      assert Found(all)[i] == Queue(front)[i];
      var o := OutcomeAt(Found(all), all[|all| - 1].world, i);
      assert o == NotFetched;
      assert Done(all, i) == Done(front, i) + [o];
      assert Done(all, i)[..|Done(front, i)|] == Done(front, i);
      hide Done, OutcomeAt;
    }
  }

  // ---------------------------------------------------------------- totals of a run

  ghost function Delivered(rows: seq<Alert>): set<nat> {
    set i | i in Below(|rows|) && rows[i].delivered
  }

  function Retries(rows: seq<Alert>): nat {
    if rows == [] then 0 else Retries(rows[..|rows| - 1]) + rows[|rows| - 1].retries
  }

  ghost function TotalDelivered(turns: seq<Turn>): nat
    requires ValidRun(turns)
  {
    if turns == [] then 0
    else
      TotalDelivered(turns[..|turns| - 1])
      + Tally(Found(turns), turns[|turns| - 1].world, Below(|Found(turns)|)).delivered
  }

  ghost function TotalFailed(turns: seq<Turn>): nat
    requires ValidRun(turns)
  {
    if turns == [] then 0
    else
      TotalFailed(turns[..|turns| - 1])
      + Tally(Found(turns), turns[|turns| - 1].world, Below(|Found(turns)|)).failed
  }

  lemma CycleDelivers(rows: seq<Alert>, w: World)
    requires ValidWorld(w, rows)
    ensures |Delivered(Cycled(rows, w))| == |Delivered(rows)| + |Those(rows, w, Below(|rows|), Deliveries)|
  {
    var sent := Those(rows, w, Below(|rows|), Deliveries);
    assert forall i: nat :: i < |rows| ==> (Cycled(rows, w)[i].delivered <==> rows[i].delivered || OutcomeAt(rows, w, i).Sent?);
    assert forall i: nat :: i < |rows| && OutcomeAt(rows, w, i).Sent? ==> !rows[i].delivered;
    hide Cycled, OutcomeAt, ValidWorld;
    assert Delivered(Cycled(rows, w)) == Delivered(rows) + sent;
    assert Delivered(rows) !! sent;
  }

  lemma RetriesOneMore(rows: seq<Alert>, n: nat)
    requires n < |rows|
    ensures Retries(rows[..n + 1]) == Retries(rows[..n]) + rows[n].retries
  {
    assert rows[..n + 1][..n] == rows[..n];
  }

  lemma CycleRetry(rows: seq<Alert>, w: World, i: nat)
    requires ValidWorld(w, rows) && i < |rows|
    ensures Cycled(rows, w)[i].retries == rows[i].retries + if Is(OutcomeAt(rows, w, i), Failures) then 1 else 0
  {
    hide OutcomeAt;
  }

  lemma {:induction false} CycleRetries(rows: seq<Alert>, w: World, n: nat)
    requires ValidWorld(w, rows) && n <= |rows|
    ensures Retries(Cycled(rows, w)[..n]) == Retries(rows[..n]) + |Those(rows, w, Below(n), Failures)|
  {
    hide *;
    if n > 0 {
      CycleRetries(rows, w, n - 1);
      RetriesOneMore(rows, n - 1);
      RetriesOneMore(Cycled(rows, w), n - 1);
      CycleRetry(rows, w, n - 1);
      ThoseGrow(rows, w, Below(n - 1), n - 1, Failures);
      assert Below(n) == Below(n - 1) + {n - 1};
    } else {
      NoRetries(rows, w);
    }
  }

  lemma NoRetries(rows: seq<Alert>, w: World)
    requires ValidWorld(w, rows)
    ensures Those(rows, w, Below(0), Failures) == {} && Retries(rows[..0]) == Retries(Cycled(rows, w)[..0])
  {
    hide OutcomeAt, ValidWorld, Cycled;
    assert rows[..0] == Cycled(rows, w)[..0];
  }

  lemma {:induction false} NewRows(rows: seq<Alert>, added: seq<Alert>)
    requires forall a :: a in added ==> IsNew(a)
    ensures Retries(rows + added) == Retries(rows) && Delivered(rows + added) == Delivered(rows)
  {
    if added == [] {
      assert rows + added == rows;
    } else {
      assert added[|added| - 1] in added;
      assert (rows + added)[..|rows + added| - 1] == rows + added[..|added| - 1];
      NewRows(rows, added[..|added| - 1]);
    }
  }

  // Over every run, the deliveries counted are the rows delivered, and the failures counted are
  // the retries of all rows.
  lemma {:induction false} TotalsMatchTheRows(turns: seq<Turn>)
    requires ValidRun(turns)
    ensures TotalDelivered(turns) == |Delivered(Queue(turns))| && TotalFailed(turns) == Retries(Queue(turns))
  {
    if turns == [] {
      assert Delivered([]) == {};
    } else {
      var front, t := turns[..|turns| - 1], turns[|turns| - 1];
      var rows := Found(turns);
      TotalsMatchTheRows(front);
      NewRows(Queue(front), t.added);
      CycleDelivers(rows, t.world);
      CycleRetries(rows, t.world, |rows|);
      assert rows[..|rows|] == rows && Cycled(rows, t.world)[..|rows|] == Cycled(rows, t.world);
      hide Cycled, Retries, Delivered, Those, ValidWorld;
    }
  }
}
