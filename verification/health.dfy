/** The availability bookkeeping of one device: consecutive polling failures,
    the availability flag, and the time it was last marked unavailable, which
    doubles as the start of the current retry window. Time is an integer count
    of minutes supplied by the caller. */
module Health {

  import opened Wrappers
  import opened Const

  datatype Health = Health(
    failureCount: nat,
    maxFailures: nat,
    available: bool,
    lastUnavailableTime: Option<int>)

  /** The answer of the retry throttle and the state it leaves behind. */
  datatype RetryDecision = RetryDecision(proceed: bool, next: Health)

  /** A state the device can reach: the flag agrees with the counter and with
      the presence of a timestamp. */
  predicate Inv(h: Health)
  {
    && h.maxFailures == 3
    && (h.available <==> h.failureCount < h.maxFailures)
    && (h.available <==> h.lastUnavailableTime.None?)
  }

  /** A freshly constructed device. */
  function Init(): (h: Health)
    ensures Inv(h) && h.available && h.failureCount == 0
  {
    Health(0, 3, true, None)
  }

  /** Healthy when flagged available and below the failure limit. */
  predicate IsAvailable(h: Health)
    ensures !h.available ==> !IsAvailable(h)
    ensures h.failureCount >= h.maxFailures ==> !IsAvailable(h)
    ensures Inv(h) ==> (IsAvailable(h) <==> h.available)
  {
    h.available && h.failureCount < h.maxFailures
  }

  /** In every reachable state the combined check is just the flag. */
  lemma IsAvailableIsFlag(h: Health)
    requires Inv(h)
    ensures IsAvailable(h) == h.available
  {
  }

  /** Reports the outcome of one poll at time `now`. */
  function UpdateAvailability(h: Health, success: bool, now: int): (r: Health)
    ensures r.maxFailures == h.maxFailures
    ensures success ==> r.failureCount == 0 && r.available
    ensures success && h.available ==> r.lastUnavailableTime == h.lastUnavailableTime
    ensures success && !h.available ==> r.lastUnavailableTime.None?
    ensures !success ==> r.failureCount == h.failureCount + 1
    ensures !success ==> (r.available <==> h.available && r.failureCount < h.maxFailures)
    ensures !success ==>
      r.lastUnavailableTime == (if h.available && !r.available then Some(now) else h.lastUnavailableTime)
    ensures Inv(h) ==> Inv(r)
  {
    if success then
      var h1 := h.(failureCount := 0);
      if !h1.available then h1.(available := true, lastUnavailableTime := None) else h1
    else
      var h1 := h.(failureCount := h.failureCount + 1);
      if h1.failureCount >= h1.maxFailures && h1.available then
        h1.(available := false, lastUnavailableTime := Some(now))
      else h1
  }

  /** Whether a poll may talk to the device at time `now`: always while it is
      healthy; once unavailable, at most one probe per retry interval. The
      first call that finds no timestamp only starts the window. */
  function ShouldRetry(h: Health, now: int): (d: RetryDecision)
    ensures d.proceed <==>
      IsAvailable(h) || (h.lastUnavailableTime.Some? && now >= h.lastUnavailableTime.value + UnavailableRetryInterval)
    ensures d.next.failureCount == h.failureCount
    ensures d.next.maxFailures == h.maxFailures
    ensures d.next.available == h.available
    ensures IsAvailable(h) ==> d.next == h
    ensures !IsAvailable(h) && (d.proceed || h.lastUnavailableTime.None?) ==>
      d.next.lastUnavailableTime == Some(now)
    ensures !d.proceed && h.lastUnavailableTime.Some? ==> d.next == h
    ensures Inv(h) ==> Inv(d.next)
  {
    if IsAvailable(h) then RetryDecision(true, h)
    else if h.lastUnavailableTime.None? then
      RetryDecision(false, h.(lastUnavailableTime := Some(now)))
    else if now >= h.lastUnavailableTime.value + UnavailableRetryInterval then
      RetryDecision(true, h.(lastUnavailableTime := Some(now)))
    else RetryDecision(false, h)
  }

  /** Two throttle queries at the same minute cannot both let an unavailable
      device through. */
  lemma OneProbePerMinute(h: Health, now: int)
    requires !IsAvailable(h)
    requires ShouldRetry(h, now).proceed
    ensures !ShouldRetry(ShouldRetry(h, now).next, now).proceed
  {
  }

  /** The throttle asked at each of `times` in turn, starting from `h`. */
  function Probe(h: Health, times: seq<int>): (answers: seq<bool>)
    ensures |answers| == |times|
    decreases |times|
  {
    if |times| == 0 then []
    else
      var d := ShouldRetry(h, times[0]);
      [d.proceed] + Probe(d.next, times[1..])
  }

  predicate NonDecreasing(times: seq<int>)
  {
    forall i, j :: 0 <= i < j < |times| ==> times[i] <= times[j]
  }

  /** While unavailable, a granted probe starts a window: no later probe is
      granted before a full interval has passed, and after one answer the
      window start is never later than the latest query. */
  lemma {:induction false} ProbeWindowStartsAtGrant(h: Health, times: seq<int>, i: nat)
    requires !IsAvailable(h)
    requires NonDecreasing(times)
    requires i < |times|
    requires Probe(h, times)[i]
    ensures forall j :: i < j < |times| && Probe(h, times)[j] ==>
      times[j] >= times[i] + UnavailableRetryInterval
    decreases |times|
  {
    var d := ShouldRetry(h, times[0]);
    var rest := times[1..];
    assert Probe(h, times) == [d.proceed] + Probe(d.next, rest);
    if i == 0 {
      assert d.next.lastUnavailableTime == Some(times[0]);
      forall j | 0 < j < |times| && Probe(h, times)[j]
        ensures times[j] >= times[0] + UnavailableRetryInterval
      {
        assert Probe(d.next, rest)[j - 1];
        GrantNeedsElapsedWindow(d.next, rest, j - 1, times[0]);
      }
    } else {
      assert Probe(d.next, rest)[i - 1];
      ProbeWindowStartsAtGrant(d.next, rest, i - 1);
      forall j | i < j < |times| && Probe(h, times)[j]
        ensures times[j] >= times[i] + UnavailableRetryInterval
      {
        assert Probe(d.next, rest)[j - 1];
      }
    }
  }

  /** If the window currently starts at `start` and every query comes at or
      after it, the first granted probe is at least one interval after `start`. */
  lemma {:induction false} GrantNeedsElapsedWindow(h: Health, times: seq<int>, j: nat, start: int)
    requires !IsAvailable(h)
    requires h.lastUnavailableTime == Some(start)
    requires NonDecreasing(times)
    requires forall k :: 0 <= k < |times| ==> start <= times[k]
    requires j < |times|
    requires Probe(h, times)[j]
    ensures times[j] >= start + UnavailableRetryInterval
    decreases |times|
  {
    var d := ShouldRetry(h, times[0]);
    var rest := times[1..];
    assert Probe(h, times) == [d.proceed] + Probe(d.next, rest);
    if j == 0 {
    } else if d.proceed {
      assert times[0] >= start + UnavailableRetryInterval;
      assert times[0] <= times[j];
    } else {
      assert d.next == h;
      assert Probe(d.next, rest)[j - 1];
      GrantNeedsElapsedWindow(d.next, rest, j - 1, start);
    }
  }

  /** `n` failure reports in a row, the k-th one at `times[k]`. */
  function Fail(h: Health, times: seq<int>): Health
    decreases |times|
  {
    if |times| == 0 then h
    else Fail(UpdateAvailability(h, false, times[0]), times[1..])
  }

  /** From the constructed state, a run of failures counts them one by one;
      the device stays available through the first two and is marked
      unavailable exactly at the third, stamped with that report's time. */
  lemma {:induction false} FailuresFromInit(times: seq<int>)
    ensures Fail(Init(), times).failureCount == |times|
    ensures Fail(Init(), times).available <==> |times| < 3
    ensures Fail(Init(), times).lastUnavailableTime ==
      (if |times| < 3 then None else Some(times[2]))
  {
    FailuresFrom(Init(), times);
  }

  /** Generalisation of `FailuresFromInit` to any reachable state. */
  lemma {:induction false} FailuresFrom(h: Health, times: seq<int>)
    requires Inv(h)
    ensures Fail(h, times).failureCount == h.failureCount + |times|
    ensures Fail(h, times).available <==> h.failureCount + |times| < 3
    ensures Fail(h, times).lastUnavailableTime ==
      if h.failureCount + |times| < 3 then None
      else if h.failureCount >= 3 then h.lastUnavailableTime
      else Some(times[2 - h.failureCount])
    decreases |times|
  {
    if |times| > 0 {
      var h1 := UpdateAvailability(h, false, times[0]);
      FailuresFrom(h1, times[1..]);
      if h.failureCount < 2 && h.failureCount + |times| >= 3 {
        assert times[1..][2 - h1.failureCount] == times[2 - h.failureCount];
      }
    }
  }

  /** One step the outside world can take on the health record. */
  datatype Event = Report(success: bool, at: int) | Query(at: int)

  function Apply(h: Health, e: Event): Health
  {
    match e
    case Report(success, at) => UpdateAvailability(h, success, at)
    case Query(at) => ShouldRetry(h, at).next
  }

  function Run(h: Health, events: seq<Event>): Health
    decreases |events|
  {
    if |events| == 0 then h else Run(Apply(h, events[0]), events[1..])
  }

  /** Every state reachable from construction keeps the invariant, so the
      combined availability check always equals the flag. */
  lemma {:induction false} ReachableStatesKeepInv(events: seq<Event>)
    ensures Inv(Run(Init(), events))
    ensures IsAvailable(Run(Init(), events)) == Run(Init(), events).available
  {
    RunKeepsInv(Init(), events);
  }

  lemma {:induction false} RunKeepsInv(h: Health, events: seq<Event>)
    requires Inv(h)
    ensures Inv(Run(h, events))
    decreases |events|
  {
    if |events| > 0 {
      RunKeepsInv(Apply(h, events[0]), events[1..]);
    }
  }

  /** A success report always restores a healthy device, whatever came before. */
  lemma SuccessRestores(h: Health, now: int)
    requires Inv(h)
    ensures IsAvailable(UpdateAvailability(h, true, now))
    ensures UpdateAvailability(h, true, now) == Init()
  {
  }
}
