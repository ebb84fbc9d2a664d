/** The sliding-window rate limiter of `service/app.py`.  Times are reals.  A call reads the clock before it takes
    the lock, so calls can reach the deque in another order than their times. */
module RateLimiter {

  /** What is left once the times before the cutoff have been popped off the left end. */
  function Trim(queue: seq<real>, cutoff: real): seq<real> {
    if queue != [] && queue[0] < cutoff then Trim(queue[1..], cutoff) else queue
  }

  function Of(events: map<string, seq<real>>, key: string): seq<real> {
    if key in events then events[key] else []
  }

  /** One deque per key. */
  class SlidingWindowRateLimiter {
    const limit: int
    const window: real
    var events: map<string, seq<real>>

    constructor (limit: int, window: real)
      ensures this.limit == limit && this.window == window && events == map[]
    {
      this.limit, this.window := limit, window;
      events := map[];
    }

    /** The part under the lock, for a clock value read before. */
    method Allow(key: string, now: real) returns (ok: bool)
      modifies this
      ensures limit <= 0 ==> ok && events == old(events)
      ensures limit > 0 ==>
        var kept := Trim(Of(old(events), key), now - window);
        ok == (|kept| < limit) && events == old(events)[key := if ok then kept + [now] else kept]
      ensures limit > 0 ==>
        var queue := if key in old(events) then old(events)[key] else [];
        forall k: nat :: OldFront(queue, now - window, k) ==>
          && (ok <==> |queue| - k < limit)
          && events == old(events)[key := queue[k..] + if ok then [now] else []]
    {
      if limit <= 0 { return true; }
      var cutoff := now - window;
      TrimExactly(Of(events, key), cutoff);
      var queue := Of(events, key);
      while queue != [] && queue[0] < cutoff
        invariant Trim(queue, cutoff) == Trim(Of(old(events), key), cutoff)
        modifies {}
        decreases |queue|
      {
        queue := queue[1..];
      }
      assert queue + [] == queue;
      ok := |queue| < limit;
      if ok { queue := queue + [now]; }
      events := events[key := queue];
    }
  }

  // ---------- whole runs of one key ----------

  /** The deque, and every call that was let through. */
  datatype History = History(queue: seq<real>, accepted: seq<real>)

  function AllowStep(h: History, limit: int, window: real, now: real): History {
    var kept := Trim(h.queue, now - window);
    if |kept| < limit then History(kept + [now], h.accepted + [now]) else History(kept, h.accepted)
  }

  function After(calls: seq<real>, limit: int, window: real): History {
    if calls == [] then History([], [])
    else AllowStep(After(calls[..|calls| - 1], limit, window), limit, window, calls[|calls| - 1])
  }

  /** The first `k` times are before the cutoff, and the next one, if there is one, is not. */
  ghost predicate OldFront(queue: seq<real>, cutoff: real, k: nat) {
    && k <= |queue| && (forall i :: 0 <= i < k ==> queue[i] < cutoff) && (k < |queue| ==> queue[k] >= cutoff)
  }

  /** Times are dropped from the front as long as they are before the cutoff, and only from the front. */
  lemma {:induction false} TrimExactly(queue: seq<real>, cutoff: real)
    ensures exists k: nat :: OldFront(queue, cutoff, k)
    ensures forall k: nat :: OldFront(queue, cutoff, k) ==> Trim(queue, cutoff) == queue[k..]
    decreases |queue|
  {
    if queue != [] && queue[0] < cutoff {
      var rest := queue[1..];
      TrimExactly(rest, cutoff);
      var j: nat :| OldFront(rest, cutoff, j);
      assert OldFront(queue, cutoff, j + 1);
      forall k: nat | OldFront(queue, cutoff, k) ensures Trim(queue, cutoff) == queue[k..] {
        assert OldFront(rest, cutoff, k - 1) && rest[k - 1..] == queue[k..];
      }
    } else {
      assert OldFront(queue, cutoff, 0) && queue[0..] == queue;
    }
  }

  /** One call: with fewer than `limit` times left it is let through and noted, and otherwise nothing is noted. */
  lemma {:induction false} AllowStepExactly(h: History, limit: int, window: real, now: real, k: nat)
    requires OldFront(h.queue, now - window, k)
    ensures var left := |h.queue| - k;
      AllowStep(h, limit, window, now) ==
        if left < limit then History(h.queue[k..] + [now], h.accepted + [now]) else History(h.queue[k..], h.accepted)
  {
    TrimExactly(h.queue, now - window);
  }

  /** How many of the times fall into the closed interval. */
  function Inside(times: seq<real>, from: real, to: real): nat {
    if times == [] then 0
    else Inside(times[..|times| - 1], from, to) + if from <= times[|times| - 1] <= to then 1 else 0
  }

  /** No closed interval of this length holds more than `limit` of the times. */
  ghost predicate WithinLimit(times: seq<real>, limit: int, length: real) {
    forall from: real :: InWindow(times, from, length) <= limit
  }

  function InWindow(times: seq<real>, from: real, length: real): nat {
    Inside(times, from, from + length)
  }

  /** No call lies further than `lag` behind an earlier one. */
  ghost predicate Lagging(calls: seq<real>, lag: real) {
    forall i, j :: 0 <= i < j < |calls| ==> calls[j] >= calls[i] - lag
  }

  lemma {:induction false} InsideSnoc(times: seq<real>, t: real, from: real, to: real)
    ensures Inside(times + [t], from, to) == Inside(times, from, to) + if from <= t <= to then 1 else 0
  {
    assert (times + [t])[..|times|] == times;
  }

  lemma {:induction false} InsideCons(times: seq<real>, from: real, to: real)
    requires times != []
    ensures Inside(times, from, to) == Inside(times[1..], from, to) + if from <= times[0] <= to then 1 else 0
  {
    if |times| > 1 {
      var front := times[..|times| - 1];
      InsideCons(front, from, to);
      assert front[1..] == times[1..][..|times| - 2];
    }
  }

  lemma {:induction false} InsideAtMost(times: seq<real>, from: real, to: real)
    ensures Inside(times, from, to) <= |times|
  {
    if times != [] { InsideAtMost(times[..|times| - 1], from, to); }
  }

  lemma {:induction false} TrimKeeps(queue: seq<real>, cutoff: real, from: real, to: real)
    requires cutoff <= from
    ensures Inside(Trim(queue, cutoff), from, to) == Inside(queue, from, to)
    decreases |queue|
  {
    if queue != [] && queue[0] < cutoff {
      TrimKeeps(queue[1..], cutoff, from, to);
      InsideCons(queue, from, to);
    }
  }

  /** From `top` less the window on, the deque holds what was accepted. */
  ghost predicate Complete(h: History, since: real) {
    forall from: real, to: real :: from >= since ==> Inside(h.queue, from, to) == Inside(h.accepted, from, to)
  }

  lemma {:induction false} StepComplete(h: History, limit: int, window: real, now: real, since: real)
    requires Complete(h, since) && now - window <= since
    ensures Complete(AllowStep(h, limit, window, now), since)
  {
    var kept := Trim(h.queue, now - window);
    forall from: real, to: real | from >= since
      ensures Inside(AllowStep(h, limit, window, now).queue, from, to) ==
        Inside(AllowStep(h, limit, window, now).accepted, from, to)
    {
      TrimKeeps(h.queue, now - window, from, to);
      InsideSnoc(kept, now, from, to);
      InsideSnoc(h.accepted, now, from, to);
    }
  }

  /** The latest time so far, or any bound on it. */
  ghost predicate Bounds(calls: seq<real>, top: real) {
    forall t :: t in calls ==> t <= top
  }

  lemma {:induction false} RunComplete(calls: seq<real>, limit: int, window: real, top: real)
    requires Bounds(calls, top)
    ensures Complete(After(calls, limit, window), top - window)
  {
    if calls != [] {
      var front, now := calls[..|calls| - 1], calls[|calls| - 1];
      assert now in calls && forall t :: t in front ==> t in calls;
      RunComplete(front, limit, window, top);
      StepComplete(After(front, limit, window), limit, window, now, top - window);
    }
  }

  lemma {:induction false} AcceptedStep(h: History, limit: int, window: real, now: real, lag: real)
    requires limit > 0 && 0.0 <= lag <= window && WithinLimit(h.accepted, limit, window - lag) &&
      Complete(h, now + lag - window)
    ensures WithinLimit(AllowStep(h, limit, window, now).accepted, limit, window - lag)
  {
    hide Trim;
    var kept := Trim(h.queue, now - window);
    if |kept| < limit {
      var length := window - lag;
      forall from: real ensures InWindow(h.accepted + [now], from, length) <= limit {
        var to := from + length;
        assert InWindow(h.accepted, from, length) <= limit;
        InsideSnoc(h.accepted, now, from, to);
        if from <= now <= to {
          TrimKeeps(h.queue, now - window, from, to);
          InsideAtMost(kept, from, to);
          assert Inside(h.queue, from, to) == Inside(h.accepted, from, to);
        }
      }
    }
  }

  lemma {:induction false} NothingInside(limit: int, length: real)
    requires limit > 0
    ensures WithinLimit([], limit, length)
  {
  }

  /** Whatever the order in which the calls reach the deque: when none lies further than `lag` behind an earlier
      one, no closed interval of the window's length less the lag holds more than `limit` accepted calls. */
  lemma {:induction false} LaggingWithinLimit(calls: seq<real>, limit: int, window: real, lag: real)
    requires limit > 0 && 0.0 <= lag <= window && Lagging(calls, lag)
    ensures WithinLimit(After(calls, limit, window).accepted, limit, window - lag)
  {
    hide AllowStep, WithinLimit, Complete, Inside;
    if calls == [] {
      NothingInside(limit, window - lag);
    } else {
      var front, now := calls[..|calls| - 1], calls[|calls| - 1];
      LaggingWithinLimit(front, limit, window, lag);
      RunComplete(front, limit, window, now + lag);
      AcceptedStep(After(front, limit, window), limit, window, now, lag);
    }
  }

  lemma {:induction false} AfterSnoc(calls: seq<real>, now: real, limit: int, window: real)
    ensures After(calls + [now], limit, window) == AllowStep(After(calls, limit, window), limit, window, now)
  {
    assert (calls + [now])[..|calls|] == calls;
  }

  // ---------- how much of the window is kept ----------

  /** The longest intervals that are kept within the limit, when no call lies further than `lag` behind. */
  function KeptLength(limit: int, window: real, lag: real): real {
    if limit == 1 then window else window - lag
  }

  /** With a limit of one the deque holds the last accepted time and nothing else. */
  ghost predicate Single(h: History) {
    if h.accepted == [] then h.queue == []
    else h.queue == [h.accepted[|h.accepted| - 1]] && forall t :: t in h.accepted ==> t <= h.queue[0]
  }

  /** With a limit of one, a call is let through when the last one accepted has left the window. */
  lemma {:induction false} SingleMoves(h: History, window: real, now: real)
    requires Single(h)
    ensures AllowStep(h, 1, window, now) ==
      if h.accepted == [] || h.queue[0] < now - window then History([now], h.accepted + [now]) else h
  {
    if h.accepted != [] && h.queue[0] < now - window { TrimAll(h.queue, now - window); }
    assert [] + [now] == [now];
  }

  lemma {:induction false} SingleFits(accepted: seq<real>, window: real, now: real)
    requires WithinLimit(accepted, 1, window) && forall t :: t in accepted ==> t < now - window
    ensures WithinLimit(accepted + [now], 1, window)
  {
    forall from: real ensures InWindow(accepted + [now], from, window) <= 1 {
      assert InWindow(accepted, from, window) <= 1;
      InsideSnoc(accepted, now, from, from + window);
      if from <= now <= from + window { NoneLater(accepted, from, from + window); }
    }
  }

  lemma {:induction false} SingleStep(h: History, window: real, now: real)
    requires window >= 0.0 && Single(h) && WithinLimit(h.accepted, 1, window)
    ensures Single(AllowStep(h, 1, window, now)) && WithinLimit(AllowStep(h, 1, window, now).accepted, 1, window)
  {
    hide AllowStep, WithinLimit;
    SingleMoves(h, window, now);
    if h.accepted == [] || h.queue[0] < now - window { SingleFits(h.accepted, window, now); }
  }

  lemma {:induction false} NoneLater(times: seq<real>, from: real, to: real)
    requires forall t :: t in times ==> t < from
    ensures Inside(times, from, to) == 0
  {
    if times != [] {
      var front := times[..|times| - 1];
      assert times[|times| - 1] in times && forall t :: t in front ==> t in times;
      NoneLater(front, from, to);
    }
  }

  lemma {:induction false} SingleRuns(calls: seq<real>, window: real)
    requires window >= 0.0
    ensures Single(After(calls, 1, window)) && WithinLimit(After(calls, 1, window).accepted, 1, window)
  {
    hide AllowStep, WithinLimit, Single;
    if calls == [] {
      NothingInside(1, window);
      assert Single(History([], [])) by { NoneYet(); }
    } else {
      SingleRuns(calls[..|calls| - 1], window);
      SingleStep(After(calls[..|calls| - 1], 1, window), window, calls[|calls| - 1]);
    }
  }

  lemma {:induction false} NoneYet()
    ensures Single(History([], []))
  {
  }

  lemma {:induction false} InsideNarrows(times: seq<real>, from: real, to: real, wider: real)
    requires to <= wider
    ensures Inside(times, from, to) <= Inside(times, from, wider)
  {
    if times != [] { InsideNarrows(times[..|times| - 1], from, to, wider); }
  }

  lemma {:induction false} Shorter(times: seq<real>, limit: int, length: real, longer: real)
    requires WithinLimit(times, limit, longer) && length <= longer
    ensures WithinLimit(times, limit, length)
  {
    forall from: real ensures InWindow(times, from, length) <= limit {
      assert InWindow(times, from, longer) <= limit;
      InsideNarrows(times, from, from + length, from + longer);
    }
  }

  lemma {:induction false} EmptyInterval(times: seq<real>, limit: int, length: real)
    requires limit > 0 && length < 0.0
    ensures WithinLimit(times, limit, length)
  {
    forall from: real ensures InWindow(times, from, length) <= limit { NothingBetween(times, from, from + length); }
  }

  lemma {:induction false} NothingBetween(times: seq<real>, from: real, to: real)
    requires to < from
    ensures Inside(times, from, to) == 0
  {
    if times != [] { NothingBetween(times[..|times| - 1], from, to); }
  }

  function Zeros(n: nat): seq<real> {
    if n == 0 then [] else Zeros(n - 1) + [0.0]
  }

  lemma {:induction false} ZerosAccepted(n: nat, limit: int, window: real)
    requires n <= limit
    ensures var h := After(Zeros(n), limit, window);
      h.accepted == Zeros(n) && |h.queue| <= n && forall t :: t in h.queue ==> t == 0.0
  {
    hide After, Trim;
    if n > 0 {
      ZerosAccepted(n - 1, limit, window);
      AfterSnoc(Zeros(n - 1), 0.0, limit, window);
      TrimSuffix(After(Zeros(n - 1), limit, window).queue, 0.0 - window);
    } else {
      NoCalls(limit, window);
    }
  }

  lemma {:induction false} NoCalls(limit: int, window: real)
    ensures After([], limit, window) == History([], [])
  {
  }

  lemma {:induction false} TrimSuffix(queue: seq<real>, cutoff: real)
    ensures |Trim(queue, cutoff)| <= |queue| && forall t :: t in Trim(queue, cutoff) ==> t in queue
    decreases |queue|
  {
    if queue != [] && queue[0] < cutoff { TrimSuffix(queue[1..], cutoff); }
  }

  lemma {:induction false} TrimAll(queue: seq<real>, cutoff: real)
    requires forall t :: t in queue ==> t < cutoff
    ensures Trim(queue, cutoff) == []
    decreases |queue|
  {
    if queue != [] {
      assert queue[0] in queue && forall t :: t in queue[1..] ==> t in queue;
      TrimAll(queue[1..], cutoff);
    }
  }

  lemma {:induction false} ZerosInside(n: nat, to: real)
    requires to >= 0.0
    ensures Inside(Zeros(n), 0.0, to) == n && |Zeros(n)| == n
  {
    if n > 0 {
      ZerosInside(n - 1, to);
      InsideSnoc(Zeros(n - 1), 0.0, 0.0, to);
    }
  }

  /** As many calls as the limit at 0; the call that read the clock at `length` is overtaken by one that read it
      `lag` later and clears the deque. */
  function Overtaking(limit: nat, lag: real, length: real): seq<real> {
    if limit == 1 then [0.0, length] else Zeros(limit) + [length + lag] + [length]
  }

  lemma {:induction false} ZerosAre(n: nat)
    ensures |Zeros(n)| == n && forall i :: 0 <= i < n ==> Zeros(n)[i] == 0.0
  {
    if n > 0 { ZerosAre(n - 1); }
  }

  lemma {:induction false} OvertakingLags(limit: nat, lag: real, length: real)
    requires limit >= 1 && lag >= 0.0 && length >= 0.0
    ensures Lagging(Overtaking(limit, lag, length), lag)
  {
    ZerosAre(limit);
  }

  lemma {:induction false} BothAccepted(limit: nat, window: real, lag: real, length: real)
    requires limit >= 2 && lag >= 0.0 && length >= 0.0 && length > window - lag
    ensures After(Overtaking(limit, lag, length), limit, window).accepted == Overtaking(limit, lag, length)
  {
    hide After, Trim, Zeros;
    var zeros := Zeros(limit);
    ZerosAccepted(limit, limit, window);
    TrimAll(After(zeros, limit, window).queue, length + lag - window);
    AfterSnoc(zeros, length + lag, limit, window);
    AfterSnoc(zeros + [length + lag], length, limit, window);
    TrimSuffix([length + lag], length - window);
    assert [] + [length + lag] == [length + lag];
  }

  lemma {:induction false} TwoAccepted(window: real, length: real)
    requires length >= 0.0 && length > window
    ensures After([0.0, length], 1, window).accepted == [0.0, length]
    ensures InWindow([0.0, length], 0.0, length) == 2
  {
    AfterSnoc([], 0.0, 1, window);
    AfterSnoc([0.0], length, 1, window);
    assert [] + [0.0] == [0.0] && [0.0] + [length] == [0.0, length];
    TrimAll([0.0], length - window);
    InsideSnoc([], 0.0, 0.0, length);
    InsideSnoc([0.0], length, 0.0, length);
  }

  lemma {:induction false} OvertakingExceeds(limit: nat, window: real, lag: real, length: real)
    requires limit >= 1 && lag >= 0.0 && length >= 0.0 && length > KeptLength(limit, window, lag)
    ensures !WithinLimit(After(Overtaking(limit, lag, length), limit, window).accepted, limit, length)
  {
    hide After;
    var calls := Overtaking(limit, lag, length);
    if limit == 1 {
      TwoAccepted(window, length);
    } else {
      BothAccepted(limit, window, lag, length);
      ZerosInside(limit, length);
      InsideSnoc(Zeros(limit), length + lag, 0.0, length);
      InsideSnoc(Zeros(limit) + [length + lag], length, 0.0, length);
    }
    assert InWindow(calls, 0.0, length) > limit;
  }

  /** Every order of calls that overtake each other by `lag` at most keeps the limit in the closed intervals of
      this length. */
  ghost predicate Keeps(limit: int, window: real, lag: real, length: real) {
    forall calls: seq<real> :: Lagging(calls, lag) ==> WithinLimit(After(calls, limit, window).accepted, limit, length)
  }

  lemma {:induction false} ShortIsKept(calls: seq<real>, limit: int, window: real, lag: real, length: real)
    requires limit > 0 && lag >= 0.0 && (length < 0.0 || length <= KeptLength(limit, window, lag)) &&
      Lagging(calls, lag)
    ensures WithinLimit(After(calls, limit, window).accepted, limit, length)
  {
    hide After, WithinLimit, Lagging;
    var accepted := After(calls, limit, window).accepted;
    if length < 0.0 {
      EmptyInterval(accepted, limit, length);
    } else if limit == 1 {
      SingleRuns(calls, window);
      Shorter(accepted, limit, length, window);
    } else {
      LaggingWithinLimit(calls, limit, window, lag);
      Shorter(accepted, limit, length, window - lag);
    }
  }

  /** Exactly how long the intervals are that are kept within the limit when calls may overtake each other by
      `lag`: the window less the lag, and for a limit of one the whole window. */
  lemma {:induction false} KeptExactly(limit: int, window: real, lag: real, length: real)
    requires limit > 0 && lag >= 0.0
    ensures Keeps(limit, window, lag, length) <==> length < 0.0 || length <= KeptLength(limit, window, lag)
  {
    hide After, WithinLimit, Lagging, KeptLength, Overtaking;
    if length < 0.0 || length <= KeptLength(limit, window, lag) {
      forall calls: seq<real> | Lagging(calls, lag)
        ensures WithinLimit(After(calls, limit, window).accepted, limit, length)
      {
        ShortIsKept(calls, limit, window, lag, length);
      }
    } else {
      OvertakingLags(limit, lag, length);
      OvertakingExceeds(limit, window, lag, length);
    }
  }

  lemma {:induction false} FirstThree()
    ensures After([0.0, 0.1, 9.0], 3, 10.0) == History([0.0, 0.1, 9.0], [0.0, 0.1, 9.0])
    ensures InWindow([0.0, 0.1, 9.0], 0.0, 10.0) == 3
  {
    AfterSnoc([], 0.0, 3, 10.0);
    AfterSnoc([0.0], 0.1, 3, 10.0);
    AfterSnoc([0.0, 0.1], 9.0, 3, 10.0);
    assert [] + [0.0] == [0.0] && [0.0] + [0.1] == [0.0, 0.1] && [0.0, 0.1] + [9.0] == [0.0, 0.1, 9.0];
    InsideSnoc([], 0.0, 0.0, 10.0);
    InsideSnoc([0.0], 0.1, 0.0, 10.0);
    InsideSnoc([0.0, 0.1], 9.0, 0.0, 10.0);
  }

  /** The lag matters: the call at 10.5 is served before the one at 10, and the window from 0 to 10 holds four. */
  lemma {:induction false} OutOfOrderExceeds()
    ensures After([0.0, 0.1, 9.0, 10.5, 10.0], 3, 10.0).accepted == [0.0, 0.1, 9.0, 10.5, 10.0]
    ensures InWindow([0.0, 0.1, 9.0, 10.5, 10.0], 0.0, 10.0) == 4
  {
    hide After, Inside;
    FirstThree();
    AfterSnoc([0.0, 0.1, 9.0], 10.5, 3, 10.0);
    AfterSnoc([0.0, 0.1, 9.0, 10.5], 10.0, 3, 10.0);
    assert [0.0, 0.1, 9.0] + [10.5] == [0.0, 0.1, 9.0, 10.5] &&
      [0.0, 0.1, 9.0, 10.5] + [10.0] == [0.0, 0.1, 9.0, 10.5, 10.0];
    assert [0.0, 0.1, 9.0][1..] == [0.1, 9.0] && [0.1, 9.0][1..] == [9.0];
    assert Trim([0.0, 0.1, 9.0], 0.5) == [9.0] && [9.0] + [10.5] == [9.0, 10.5] &&
      Trim([9.0, 10.5], 0.0) == [9.0, 10.5];
    InsideSnoc([0.0, 0.1, 9.0], 10.5, 0.0, 10.0);
    InsideSnoc([0.0, 0.1, 9.0, 10.5], 10.0, 0.0, 10.0);
  }

  // ---------- calls in order ----------

  /** The times that are not before the cutoff. */
  function Recent(times: seq<real>, cutoff: real): seq<real> {
    if times == [] then []
    else Recent(times[..|times| - 1], cutoff) + if times[|times| - 1] >= cutoff then [times[|times| - 1]] else []
  }

  ghost predicate Ordered(times: seq<real>) {
    forall i, j :: 0 <= i < j < |times| ==> times[i] <= times[j]
  }

  lemma {:induction false} TrimIsRecent(times: seq<real>, cutoff: real)
    requires Ordered(times)
    ensures Trim(times, cutoff) == Recent(times, cutoff)
    decreases |times|
  {
    if times == [] {
    } else if times[0] < cutoff {
      DropOld(times, cutoff);
      TrimIsRecent(times[1..], cutoff);
    } else {
      AllRecent(times, cutoff);
    }
  }

  lemma {:induction false} DropOld(times: seq<real>, cutoff: real)
    requires times != [] && times[0] < cutoff
    ensures Recent(times[1..], cutoff) == Recent(times, cutoff)
  {
    if |times| > 1 {
      var front := times[..|times| - 1];
      DropOld(front, cutoff);
      assert times[1..][..|times| - 2] == front[1..];
    }
  }

  lemma {:induction false} AllRecent(times: seq<real>, cutoff: real)
    requires forall i :: 0 <= i < |times| ==> times[i] >= cutoff
    ensures Recent(times, cutoff) == times
  {
    if times != [] {
      var front := times[..|times| - 1];
      AllRecent(front, cutoff);
      assert times == front + [times[|times| - 1]];
    }
  }

  lemma {:induction false} RecentTwice(times: seq<real>, a: real, b: real)
    requires a <= b
    ensures Recent(Recent(times, a), b) == Recent(times, b)
  {
    if times != [] {
      var front, last := times[..|times| - 1], times[|times| - 1];
      RecentTwice(front, a, b);
      if last >= a {
        RecentSnoc(Recent(front, a), last, b);
      } else {
        assert Recent(times, a) == Recent(front, a);
      }
    }
  }

  lemma {:induction false} RecentSnoc(times: seq<real>, t: real, cutoff: real)
    ensures Recent(times + [t], cutoff) == Recent(times, cutoff) + if t >= cutoff then [t] else []
  {
    assert (times + [t])[..|times|] == times;
  }

  lemma {:induction false} RecentOrdered(times: seq<real>, cutoff: real)
    requires Ordered(times)
    ensures Ordered(Recent(times, cutoff)) && forall t :: t in Recent(times, cutoff) ==> t in times
  {
    if times != [] {
      var front, last := times[..|times| - 1], times[|times| - 1];
      RecentOrdered(front, cutoff);
      assert times == front + [last] && forall t :: t in front ==> t <= last;
      assert forall i :: 0 <= i < |Recent(front, cutoff)| ==> Recent(front, cutoff)[i] in Recent(front, cutoff);
    }
  }

  lemma {:induction false} AcceptedOrdered(calls: seq<real>, limit: int, window: real)
    requires Ordered(calls)
    ensures Ordered(After(calls, limit, window).accepted) && forall t :: t in After(calls, limit, window).accepted ==>
      t in calls
  {
    hide Trim;
    if calls != [] {
      var front, now := calls[..|calls| - 1], calls[|calls| - 1];
      AcceptedOrdered(front, limit, window);
      var accepted := After(front, limit, window).accepted;
      assert calls == front + [now] && forall t :: t in front ==> t <= now;
      assert forall i :: 0 <= i < |accepted| ==> accepted[i] in accepted;
    }
  }

  /** For calls in order the deque is, after each one, exactly the accepted history inside the window. */
  lemma {:induction false} DequeIsRecent(calls: seq<real>, limit: int, window: real)
    requires window >= 0.0 && Ordered(calls) && calls != []
    ensures After(calls, limit, window).queue ==
      Recent(After(calls, limit, window).accepted, calls[|calls| - 1] - window)
    decreases |calls|, 0
  {
    var front, now := calls[..|calls| - 1], calls[|calls| - 1];
    KeptIsRecent(front, limit, window, now - window);
    RecentSnoc(After(front, limit, window).accepted, now, now - window);
  }

  lemma {:induction false} KeptIsRecent(front: seq<real>, limit: int, window: real, cutoff: real)
    requires window >= 0.0 && Ordered(front) && forall t :: t in front ==> t - window <= cutoff
    ensures Trim(After(front, limit, window).queue, cutoff) == Recent(After(front, limit, window).accepted, cutoff)
    decreases |front|, 1
  {
    hide AllowStep;
    AcceptedOrdered(front, limit, window);
    var h := After(front, limit, window);
    if front != [] {
      var last := front[|front| - 1];
      assert last in front;
      DequeIsRecent(front, limit, window);
      RecentOrdered(h.accepted, last - window);
      TrimIsRecent(h.queue, cutoff);
      RecentTwice(h.accepted, last - window, cutoff);
    }
  }

  /** An interval that ends at or after the last time counts what is recent. */
  lemma {:induction false} InsideIsRecent(times: seq<real>, from: real, to: real)
    requires forall t :: t in times ==> t <= to
    ensures Inside(times, from, to) == |Recent(times, from)|
  {
    if times != [] {
      var front, last := times[..|times| - 1], times[|times| - 1];
      assert times == front + [last] && last in times;
      assert forall t :: t in front ==> t in times;
      InsideIsRecent(front, from, to);
    }
  }

  lemma {:induction false} InsideShrinks(times: seq<real>, from: real, to: real, cutoff: real)
    requires cutoff <= from
    ensures Inside(times, from, to) <= |Recent(times, cutoff)|
  {
    if times != [] { InsideShrinks(times[..|times| - 1], from, to, cutoff); }
  }

  predicate Allowed(calls: seq<real>, limit: int, window: real, now: real) {
    |Trim(After(calls, limit, window).queue, now - window)| < limit
  }

  /** For calls in order: the next call is let through exactly when it fits into every window, and it is refused
      exactly when the window that ends with it already holds `limit` calls. */
  lemma {:induction false} AllowedExactly(calls: seq<real>, limit: int, window: real, now: real)
    requires limit > 0 && window >= 0.0 && Ordered(calls + [now])
    ensures Allowed(calls, limit, window, now) <==>
      WithinLimit(After(calls, limit, window).accepted + [now], limit, window)
    ensures !Allowed(calls, limit, window, now) <==>
      Inside(After(calls, limit, window).accepted, now - window, now) == limit
  {
    hide After, Trim, Recent;
    var history := After(calls, limit, window).accepted;
    assert (calls + [now])[|calls|] == now && forall i :: 0 <= i < |calls| ==> (calls + [now])[i] == calls[i];
    assert Ordered(calls) && forall t :: t in calls ==> t <= now;
    AcceptedOrdered(calls, limit, window);
    KeptIsRecent(calls, limit, window, now - window);
    LaggingWithinLimit(calls, limit, window, 0.0);
    InsideIsRecent(history, now - window, now);
    assert InWindow(history, now - window, window) <= limit;
    assert now - window + window == now;
    FitsEverywhere(history, limit, window, now);
  }

  lemma {:induction false} FitsEverywhere(history: seq<real>, limit: int, window: real, now: real)
    requires window >= 0.0 && WithinLimit(history, limit, window) && forall t :: t in history ==> t <= now
    ensures |Recent(history, now - window)| < limit <==> WithinLimit(history + [now], limit, window)
  {
    InsideIsRecent(history, now - window, now);
    InsideSnoc(history, now, now - window, now - window + window);
    if |Recent(history, now - window)| < limit {
      forall from: real ensures InWindow(history + [now], from, window) <= limit {
        InsideSnoc(history, now, from, from + window);
        assert InWindow(history, from, window) <= limit;
        if from <= now <= from + window { InsideShrinks(history, from, from + window, now - window); }
      }
    }
    if WithinLimit(history + [now], limit, window) {
      assert InWindow(history + [now], now - window, window) <= limit;
    }
  }

  /** For calls in order no closed window holds more than `limit` accepted calls. */
  lemma {:induction false} EveryWindowWithinLimit(calls: seq<real>, limit: int, window: real)
    requires limit > 0 && window >= 0.0 && Ordered(calls)
    ensures WithinLimit(After(calls, limit, window).accepted, limit, window)
  {
    LaggingWithinLimit(calls, limit, window, 0.0);
  }
}
