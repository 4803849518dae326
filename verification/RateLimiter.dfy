// The fixed-window limiter of the MCP server (src/mcp/rateLimiter.ts). Date.now() is the
// parameter `now`, in milliseconds; it does not go back between two calls.
module RateLimiter {
  import opened Common

  const DEFAULT_REQUESTS_PER_MINUTE := 60
  const WINDOW_MS := 60 * 1000

  type Tool = string

  datatype RateLimitState = RateLimitState(count: nat, windowStart: int)

  function Lookup(states: map<Tool, RateLimitState>, tool: Tool): Option<RateLimitState> {
    if tool in states then Some(states[tool]) else None
  }

  // The state a call sees: the stored one, or a new window.
  function Current(st: Option<RateLimitState>, now: int): RateLimitState {
    if st.None? || now - st.value.windowStart >= WINDOW_MS then RateLimitState(0, now) else st.value
  }

  function Allowed(limit: int, st: Option<RateLimitState>, now: int): bool {
    Current(st, now).count < limit
  }

  function After(limit: int, st: Option<RateLimitState>, now: int): RateLimitState {
    var c := Current(st, now);
    if Allowed(limit, st, now) then c.(count := c.count + 1) else c
  }

  class ToolRateLimiter {
    const limit: int
    var states: map<Tool, RateLimitState>

    constructor (limit: int := DEFAULT_REQUESTS_PER_MINUTE)
      ensures this.limit == limit && states == map[]
    {
      this.limit := limit;
      states := map[];
    }

    method TryConsume(toolName: Tool, now: int) returns (ok: bool)
      modifies this
      ensures ok == Allowed(limit, Lookup(old(states), toolName), now)
      ensures states == old(states)[toolName := After(limit, Lookup(old(states), toolName), now)]
    {
      if toolName !in states || now - states[toolName].windowStart >= WINDOW_MS {
        states := states[toolName := RateLimitState(0, now)];
      }
      var state := states[toolName];
      if state.count >= limit {
        return false;
      }
      states := states[toolName := state.(count := state.count + 1)];
      return true;
    }

    method Reset()
      modifies this
      ensures states == map[]
    {
      states := map[];
    }
  }

  // ---------------------------------------------------------------- a run of many tools

  datatype Call = Call(tool: Tool, at: int)

  function Run(limit: int, calls: seq<Call>): map<Tool, RateLimitState> {
    if calls == [] then map[] else
      var before, c := Run(limit, calls[..|calls| - 1]), calls[|calls| - 1];
      before[c.tool := After(limit, Lookup(before, c.tool), c.at)]
  }

  // The answers that the calls for one tool received.
  function AnswersTo(limit: int, calls: seq<Call>, tool: Tool): seq<bool> {
    if calls == [] then [] else
      var front, c := calls[..|calls| - 1], calls[|calls| - 1];
      AnswersTo(limit, front, tool)
      + if c.tool == tool then [Allowed(limit, Lookup(Run(limit, front), tool), c.at)] else []
  }

  function TimesOf(calls: seq<Call>, tool: Tool): seq<int> {
    if calls == [] then [] else
      var c := calls[|calls| - 1];
      TimesOf(calls[..|calls| - 1], tool) + if c.tool == tool then [c.at] else []
  }

  // ---------------------------------------------------------------- a run of one tool

  function StateAfter(limit: int, times: seq<int>): Option<RateLimitState> {
    if times == [] then None
    else Some(After(limit, StateAfter(limit, times[..|times| - 1]), times[|times| - 1]))
  }

  function Granted(limit: int, times: seq<int>, k: nat): bool
    requires k < |times|
  {
    Allowed(limit, StateAfter(limit, times[..k]), times[k])
  }

  // The start of the window that call k falls into.
  function WindowOf(limit: int, times: seq<int>, k: nat): int
    requires k < |times|
  {
    Current(StateAfter(limit, times[..k]), times[k]).windowStart
  }

  ghost predicate Ordered(times: seq<int>) {
    forall i, j :: 0 <= i < j < |times| ==> times[i] <= times[j]
  }

  // Grants at times in [lo, hi).
  function GrantsIn(limit: int, times: seq<int>, lo: int, hi: int): nat {
    if times == [] then 0 else
      var n := |times| - 1;
      GrantsIn(limit, times[..n], lo, hi) + if lo <= times[n] < hi && Granted(limit, times, n) then 1 else 0
  }

  function GrantsSince(limit: int, times: seq<int>, lo: int): nat {
    if times == [] then 0 else
      var n := |times| - 1;
      GrantsSince(limit, times[..n], lo) + if lo <= times[n] && Granted(limit, times, n) then 1 else 0
  }

  // Calls for one tool never affect another: each tool's states and answers are those it
  // would see alone.
  lemma {:induction false} ToolsAreIndependent(limit: int, calls: seq<Call>, tool: Tool)
    ensures Lookup(Run(limit, calls), tool) == StateAfter(limit, TimesOf(calls, tool))
    ensures |AnswersTo(limit, calls, tool)| == |TimesOf(calls, tool)|
    ensures forall k :: 0 <= k < |TimesOf(calls, tool)| ==>
      AnswersTo(limit, calls, tool)[k] == Granted(limit, TimesOf(calls, tool), k)
  {
    if calls != [] {
      var front, c := calls[..|calls| - 1], calls[|calls| - 1];
      var before, times := TimesOf(front, tool), TimesOf(calls, tool);
      ToolsAreIndependent(limit, front, tool);
      if c.tool == tool {
        assert times == before + [c.at] && times[..|before|] == before;
        assert forall k :: 0 <= k < |before| ==> times[..k] == before[..k];
      } else {
        assert times == before && AnswersTo(limit, calls, tool) == AnswersTo(limit, front, tool);
      }
    }
  }

  // ---------------------------------------------------------------- what a window holds

  lemma {:induction false} GrantsSplit(limit: int, times: seq<int>, lo: int, hi: int)
    requires lo <= hi
    ensures GrantsSince(limit, times, lo) == GrantsIn(limit, times, lo, hi) + GrantsSince(limit, times, hi)
  {
    if times != [] {
      GrantsSplit(limit, times[..|times| - 1], lo, hi);
    }
  }

  lemma {:induction false} NothingYet(limit: int, times: seq<int>, lo: int)
    requires forall i :: 0 <= i < |times| ==> times[i] < lo
    ensures GrantsSince(limit, times, lo) == 0
  {
    if times != [] {
      NothingYet(limit, times[..|times| - 1], lo);
    }
  }

  ghost predicate WindowInv(limit: int, times: seq<int>) {
    var st := StateAfter(limit, times);
    st.Some? ==>
      var ws, count := st.value.windowStart, st.value.count;
      && times != [] && ws <= times[|times| - 1] < ws + WINDOW_MS
      && count <= (if limit < 0 then 0 else limit)
      && GrantsSince(limit, times, ws) == count
      && (limit >= 1 ==> count >= 1 && GrantsSince(limit, times, ws + 1) <= count - 1)
      && forall a :: ws - WINDOW_MS < a <= ws && limit >= 1 ==> GrantsSince(limit, times, a) <= limit - 1 + count
  }

  lemma AtTheStart(limit: int)
    ensures WindowInv(limit, [])
  {
  }

  // What one more call does to the state and to the counts.
  lemma OneMore(limit: int, times: seq<int>, t: int)
    ensures var st := StateAfter(limit, times); var g := Allowed(limit, st, t);
      && StateAfter(limit, times + [t]) == Some(After(limit, st, t))
      && (forall lo, hi :: GrantsIn(limit, times + [t], lo, hi)
                           == GrantsIn(limit, times, lo, hi) + if lo <= t < hi && g then 1 else 0)
  {
  }

  lemma OneMoreSince(limit: int, times: seq<int>, t: int)
    ensures var st := StateAfter(limit, times); var g := Allowed(limit, st, t);
      && StateAfter(limit, times + [t]) == Some(After(limit, st, t))
      && (forall a :: GrantsSince(limit, times + [t], a)
                      == GrantsSince(limit, times, a) + if a <= t && g then 1 else 0)
  {
  }

  // A call inside the stored window.
  lemma SameWindow(limit: int, times: seq<int>, t: int)
    requires times != [] && Ordered(times + [t]) && WindowInv(limit, times)
    requires t - StateAfter(limit, times).value.windowStart < WINDOW_MS
    ensures WindowInv(limit, times + [t])
  {
  }

  lemma OlderCalls(limit: int, times: seq<int>, t: int)
    requires Ordered(times + [t]) && WindowInv(limit, times)
    requires StateAfter(limit, times).None? || t - StateAfter(limit, times).value.windowStart >= WINDOW_MS
    ensures forall i :: 0 <= i < |times| ==> times[i] < t
  {
    if times != [] {
      assert forall i :: 0 <= i < |times| ==> times[i] == (times + [t])[i];
      assert forall i :: 0 <= i < |times| ==> times[i] <= times[|times| - 1];
    }
  }

  // A call that opens a window: everything before is older than the window.
  lemma NewWindow(limit: int, times: seq<int>, t: int)
    requires Ordered(times + [t]) && WindowInv(limit, times)
    requires StateAfter(limit, times).None? || t - StateAfter(limit, times).value.windowStart >= WINDOW_MS
    ensures WindowInv(limit, times + [t])
  {
    hide StateAfter, GrantsSince, WindowInv, Ordered;
    OneMoreSince(limit, times, t);
    OlderCalls(limit, times, t);
    NothingYet(limit, times, t);
    NothingYet(limit, times, t + 1);
    if limit >= 1 {
      OldWindowIsBounded(limit, times, t);
    }
    assert Allowed(limit, StateAfter(limit, times), t) <==> limit >= 1;
    assert StateAfter(limit, times + [t]) == Some(RateLimitState(if limit >= 1 then 1 else 0, t));
    hide After, Allowed, Current;
    JustOpened(limit, times + [t], t);
  }

  lemma JustOpened(limit: int, times: seq<int>, t: int)
    requires times != [] && times[|times| - 1] == t
    requires StateAfter(limit, times) == Some(RateLimitState(if limit >= 1 then 1 else 0, t))
    requires GrantsSince(limit, times, t) == if limit >= 1 then 1 else 0
    requires limit >= 1 ==> GrantsSince(limit, times, t + 1) == 0
    requires limit >= 1 ==> forall a :: t - WINDOW_MS < a <= t ==> GrantsSince(limit, times, a) <= limit
    ensures WindowInv(limit, times)
  {
  }

  lemma OldWindowIsBounded(limit: int, times: seq<int>, t: int)
    requires WindowInv(limit, times) && limit >= 1
    requires StateAfter(limit, times).None? || t - StateAfter(limit, times).value.windowStart >= WINDOW_MS
    ensures forall a :: t - WINDOW_MS < a <= t ==> GrantsSince(limit, times, a) <= limit - 1
  {
    forall a | t - WINDOW_MS < a <= t
      ensures GrantsSince(limit, times, a) <= limit - 1
    {
      if times != [] {
        GrantsSplit(limit, times, StateAfter(limit, times).value.windowStart + 1, a);
      }
    }
  }

  lemma {:induction false} WindowInvAlways(limit: int, times: seq<int>)
    requires Ordered(times)
    ensures WindowInv(limit, times)
  {
    if times == [] {
      AtTheStart(limit);
    } else {
      var front, t := times[..|times| - 1], times[|times| - 1];
      WindowInvAlways(limit, front);
      assert times == front + [t];
      if front != [] && t - StateAfter(limit, front).value.windowStart < WINDOW_MS {
        SameWindow(limit, front, t);
      } else {
        NewWindow(limit, front, t);
      }
    }
  }

  // ---------------------------------------------------------------- the limiter's guarantees

  // A call is refused only when its own window is used up.
  lemma GrantedIff(limit: int, times: seq<int>, k: nat)
    requires k < |times| && Ordered(times)
    ensures Granted(limit, times, k) <==> GrantsSince(limit, times[..k], WindowOf(limit, times, k)) < limit
  {
    var front := times[..k];
    assert Ordered(front + [times[k]]) by {
      assert front + [times[k]] == times[..k + 1];
    }
    WindowInvAlways(limit, front);
    var st := StateAfter(limit, front);
    if st.None? || times[k] - st.value.windowStart >= WINDOW_MS {
      OlderCalls(limit, front, times[k]);
      NothingYet(limit, front, times[k]);
    }
  }

  lemma {:induction false} WindowsAreApart(limit: int, times: seq<int>, j: nat, k: nat)
    requires j < k < |times| && Ordered(times)
    ensures WindowOf(limit, times, j) == WindowOf(limit, times, k)
         || WindowOf(limit, times, k) - WindowOf(limit, times, j) >= WINDOW_MS
    ensures WindowOf(limit, times, k) <= times[k] < WindowOf(limit, times, k) + WINDOW_MS
    decreases k
  {
    var st := StateAfter(limit, times[..k]);
    assert times[..k][..k - 1] == times[..k - 1];
    assert st.value.windowStart == WindowOf(limit, times, k - 1);
    WindowInvAlways(limit, times[..k]);
    if j < k - 1 {
      WindowsAreApart(limit, times, j, k - 1);
    }
  }

  // Every window holds at most the limit.
  lemma {:induction false} WindowHoldsLimit(limit: int, times: seq<int>, k: nat)
    requires k < |times| && Ordered(times)
    ensures var w := WindowOf(limit, times, k);
      GrantsIn(limit, times, w, w + WINDOW_MS) <= if limit < 0 then 0 else limit
    decreases |times|
  {
    var w, n := WindowOf(limit, times, k), |times| - 1;
    var front := times[..n];
    if WindowOf(limit, times, n) == w {
      WindowInvAlways(limit, times);
      GrantsSplit(limit, times, w, w + WINDOW_MS);
    } else {
      WindowsAreApart(limit, times, k, n);
      assert front[..k] == times[..k];
      WindowHoldsLimit(limit, front, k);
    }
  }

  // Any 60 seconds, wherever they start, hold at most twice the limit less one.
  lemma {:induction false} AnyMinute(limit: int, times: seq<int>, a: int)
    requires Ordered(times)
    ensures GrantsIn(limit, times, a, a + WINDOW_MS) <= if limit <= 0 then 0 else 2 * limit - 1
  {
    if times != [] {
      var n := |times| - 1;
      if a + WINDOW_MS <= times[n] {
        AnyMinute(limit, times[..n], a);
      } else {
        AnyMinute(limit, times[..n], a);
        RecentMinute(limit, times, a);
      }
    }
  }

  lemma RecentMinute(limit: int, times: seq<int>, a: int)
    requires Ordered(times) && times != [] && a > times[|times| - 1] - WINDOW_MS
    ensures limit >= 1 ==> GrantsIn(limit, times, a, a + WINDOW_MS) <= 2 * limit - 1
  {
    WindowInvAlways(limit, times);
    GrantsSplit(limit, times, a, a + WINDOW_MS);
    var ws := StateAfter(limit, times).value.windowStart;
    if a > ws {
      GrantsSplit(limit, times, ws + 1, a);
    }
  }

  ghost predicate ClockNeverBack(calls: seq<Call>) {
    forall i, j :: 0 <= i < j < |calls| ==> calls[i].at <= calls[j].at
  }

  lemma {:induction false} TimesAreOrdered(calls: seq<Call>, tool: Tool)
    requires ClockNeverBack(calls)
    ensures Ordered(TimesOf(calls, tool))
    ensures calls == [] ==> TimesOf(calls, tool) == []
    ensures forall t :: t in TimesOf(calls, tool) ==> t <= calls[|calls| - 1].at
  {
    if calls != [] {
      var front, c := calls[..|calls| - 1], calls[|calls| - 1];
      TimesAreOrdered(front, tool);
      var before := TimesOf(front, tool);
      assert front != [] ==> front[|front| - 1].at <= c.at;
      assert before != [] ==> front != [];
      assert forall t :: t in before ==> t <= c.at;
      assert forall i :: 0 <= i < |before| ==> before[i] in before;
      assert TimesOf(calls, tool) == before + if c.tool == tool then [c.at] else [];
      hide TimesOf;
    }
  }

  // The bound, for a run in which other tools are called as well.
  lemma AnyMinuteOfARun(limit: int, calls: seq<Call>, tool: Tool, a: int)
    requires ClockNeverBack(calls)
    ensures GrantsIn(limit, TimesOf(calls, tool), a, a + WINDOW_MS) <= if limit <= 0 then 0 else 2 * limit - 1
    ensures forall k :: 0 <= k < |TimesOf(calls, tool)| ==>
      k < |AnswersTo(limit, calls, tool)| && AnswersTo(limit, calls, tool)[k] == Granted(limit, TimesOf(calls, tool), k)
  {
    TimesAreOrdered(calls, tool);
    AnyMinute(limit, TimesOf(calls, tool), a);
    ToolsAreIndependent(limit, calls, tool);
  }

  // ---------------------------------------------------------------- and no less

  function Burst(at: int, n: nat): seq<int> {
    seq(n, _ => at)
  }

  // One call, the rest of the window at its last millisecond, a full window right after.
  function WorstCase(limit: nat): seq<int>
    requires limit >= 1
  {
    [0] + Burst(WINDOW_MS - 1, limit - 1) + Burst(WINDOW_MS, limit)
  }

  // Calls that fit into the open window are all granted.
  lemma {:induction false} BurstIsGranted(limit: int, times: seq<int>, st: RateLimitState, at: int, n: nat, lo: int, hi: int)
    requires StateAfter(limit, times) == Some(st)
    requires at - st.windowStart < WINDOW_MS && st.count + n <= limit
    ensures StateAfter(limit, times + Burst(at, n)) == Some(st.(count := st.count + n))
    ensures GrantsIn(limit, times + Burst(at, n), lo, hi)
         == GrantsIn(limit, times, lo, hi) + if lo <= at < hi then n else 0
  {
    BurstGrows(times, at, n);
    hide StateAfter, GrantsIn, Burst;
    if n > 0 {
      BurstIsGranted(limit, times, st, at, n - 1, lo, hi);
      OneIsGranted(limit, times + Burst(at, n - 1), st.(count := st.count + n - 1), at, lo, hi);
    }
  }

  lemma OneIsGranted(limit: int, times: seq<int>, st: RateLimitState, at: int, lo: int, hi: int)
    requires StateAfter(limit, times) == Some(st)
    requires at - st.windowStart < WINDOW_MS && st.count < limit
    ensures StateAfter(limit, times + [at]) == Some(st.(count := st.count + 1))
    ensures GrantsIn(limit, times + [at], lo, hi) == GrantsIn(limit, times, lo, hi) + if lo <= at < hi then 1 else 0
  {
    OneMore(limit, times, at);
    hide StateAfter, GrantsIn;
  }

  lemma BurstGrows(times: seq<int>, at: int, n: nat)
    ensures n == 0 ==> times + Burst(at, n) == times
    ensures n > 0 ==> times + Burst(at, n) == times + Burst(at, n - 1) + [at]
  {
    if n > 0 {
      assert Burst(at, n) == Burst(at, n - 1) + [at];
    }
  }

  lemma WorstCaseIsOrdered(limit: nat)
    requires limit >= 1
    ensures Ordered(WorstCase(limit))
  {
  }

  // The bound is reached, for every positive limit.
  lemma BoundIsTight(limit: nat)
    requires limit >= 1
    ensures Ordered(WorstCase(limit))
    ensures GrantsIn(limit, WorstCase(limit), 1, 1 + WINDOW_MS) == 2 * limit - 1
  {
    WorstCaseIsOrdered(limit);
    var lo, hi := 1, 1 + WINDOW_MS;
    var first := [0] + Burst(WINDOW_MS - 1, limit - 1);
    assert StateAfter(limit, []) == None && GrantsIn(limit, [], lo, hi) == 0;
    assert WorstCase(limit) == first + [WINDOW_MS] + Burst(WINDOW_MS, limit - 1);
    hide StateAfter, GrantsIn, Burst, WorstCase;
    OneMore(limit, [], 0);
    assert [] + [0] == [0];
    assert StateAfter(limit, [0]) == Some(RateLimitState(1, 0));
    BurstIsGranted(limit, [0], RateLimitState(1, 0), WINDOW_MS - 1, limit - 1, lo, hi);
    OneMore(limit, first, WINDOW_MS);
    assert StateAfter(limit, first + [WINDOW_MS]) == Some(RateLimitState(1, WINDOW_MS));
    BurstIsGranted(limit, first + [WINDOW_MS], RateLimitState(1, WINDOW_MS), WINDOW_MS, limit - 1, lo, hi);
  }
}
