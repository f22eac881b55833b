/** The per-device wrapper `MelCloudDevice`: an availability flag that a
    refresh or write sets from its outcome when the call runs and raises
    nothing, and a throttle that lets at most one refresh through per interval. */
module Wrapper {
  import opened Remote

  /** `MIN_TIME_BETWEEN_UPDATES`, five minutes, in microseconds. */
  const MinTimeBetweenUpdates: int := 300_000_000

  /** The throttle admits a refresh at `now` when none has been admitted yet,
      or when strictly more than the interval has passed since the last one. */
  function ThrottleAllows(lastRun: Option<int>, now: int): (allowed: bool)
    ensures lastRun.None? ==> allowed
    ensures lastRun.Some? ==> (allowed <==> now - lastRun.value > MinTimeBetweenUpdates)
  {
    match lastRun
    case None => true
    case Some(t) => now - t > MinTimeBetweenUpdates
  }

  /** A refresh the throttle admits at `now` it also admits at any later
      instant. */
  lemma ThrottleAllowsLater(lastRun: Option<int>, now: int, later: int)
    requires now <= later
    ensures ThrottleAllows(lastRun, now) ==> ThrottleAllows(lastRun, later)
  {
  }

  /** The admitted refresh instants lie more than one interval apart. */
  ghost predicate Spaced(times: seq<int>)
  {
    forall i :: 0 < i < |times| ==> times[i] - times[i - 1] > MinTimeBetweenUpdates
  }

  /** In a spaced history any two instants, not just neighbours, lie more than
      one interval apart. */
  lemma {:induction false} SpacedAllPairs(times: seq<int>, i: int, j: int)
    requires Spaced(times) && 0 <= i < j < |times|
    ensures times[j] - times[i] > MinTimeBetweenUpdates
    decreases j - i
  {
    if j > i + 1 {
      SpacedAllPairs(times, i, j - 1);
    }
  }

  /** What an attempt leaves behind: the availability afterwards, and the
      exception that escapes to the caller, if any. */
  datatype Effect = Effect(available: bool, raised: Option<RemoteResult>)

  /** The outcome of a remote `update()` as the refresh handles it. */
  function UpdateEffect(available: bool, result: RemoteResult): (e: Effect)
    ensures e.raised.Some? <==> result == Resp(Unauthorized) || result == Other
    ensures e.raised.Some? ==> e.raised.value == result && e.available == available
    ensures result == Ok ==> e.available
    ensures result == ConnError ==> !e.available
    ensures result.Resp? && result.status != Unauthorized ==> e.available
    ensures result == AttrErr ==> !e.available
  {
    match result
    case Ok => Effect(true, None)
    case ConnError => Effect(false, None)
    case Resp(status) => if status == Unauthorized then Effect(available, Some(result)) else Effect(true, None)
    case AttrErr => Effect(false, None)
    case Other => Effect(available, Some(result))
  }

  /** The outcome of a remote `set()` as the write handles it: only a
      connection error is absorbed. */
  function SetEffect(available: bool, result: RemoteResult): (e: Effect)
    ensures e.raised.Some? <==> result != Ok && result != ConnError
    ensures e.raised.Some? ==> e.raised.value == result && e.available == available
    ensures result == Ok ==> e.available
    ensures result == ConnError ==> !e.available
  {
    match result
    case Ok => Effect(true, None)
    case ConnError => Effect(false, None)
    case _ => Effect(available, Some(result))
  }

  /** An attempt that raises nothing sets the flag from its own outcome alone:
      the flag is not an aggregate of earlier attempts. */
  lemma AvailabilityForgetsHistory(result: RemoteResult)
    ensures UpdateEffect(true, result).raised.None? ==> UpdateEffect(true, result) == UpdateEffect(false, result)
    ensures SetEffect(true, result).raised.None? ==> SetEffect(true, result) == SetEffect(false, result)
  {
  }

  /** Writes absorb fewer errors than refreshes, and agree with them where both
      absorb. */
  lemma WritesAbsorbLess(available: bool, result: RemoteResult)
    ensures UpdateEffect(available, result).raised.Some? ==> SetEffect(available, result).raised.Some?
    ensures result == Ok || result == ConnError ==> UpdateEffect(available, result) == SetEffect(available, result)
  {
  }

  class MelCloudDevice {
    /** The accessor handle this wrapper owns. */
    const device: Device
    /** The device's name when the wrapper was built; never re-read. */
    const name: string
    /** `_available`, read through the `available` property. */
    var available: bool
    /** When the throttle last admitted a refresh. */
    var lastRun: Option<int>
    /** Every instant at which a remote `update()` was issued, in order. */
    ghost var refreshTimes: seq<int>
    /** Every property map handed to the remote `set()`, in order. */
    ghost var writes: seq<Properties>

    ghost predicate Valid()
      reads this
    {
      && (lastRun.None? <==> refreshTimes == [])
      && (lastRun.Some? ==> lastRun.value == refreshTimes[|refreshTimes| - 1])
      && Spaced(refreshTimes)
    }

    /** The state of a wrapper nobody has refreshed or written through yet. */
    ghost predicate Initial()
      reads this
    {
      Valid() && available && lastRun == None && writes == []
    }

    constructor (dev: Device)
      ensures Valid() && Initial()
      ensures device == dev && name == dev.name
    {
      device := dev;
      name := dev.name;
      available := true;
      lastRun := None;
      refreshTimes := [];
      writes := [];
    }

    /** `async_update` under its throttle: `ran` says whether the throttle let
        the call through to the remote `update()`, whose outcome is `result`;
        `raised` is the exception that escapes. */
    method AsyncUpdate(now: int, result: RemoteResult) returns (ran: bool, raised: Option<RemoteResult>)
      requires Valid()
      modifies this
      ensures Valid()
      ensures ran == ThrottleAllows(old(lastRun), now)
      ensures ran ==> lastRun == Some(now) && refreshTimes == old(refreshTimes) + [now]
      ensures ran ==> Effect(available, raised) == UpdateEffect(old(available), result)
      ensures !ran ==> lastRun == old(lastRun) && refreshTimes == old(refreshTimes)
      ensures !ran ==> available == old(available) && raised == None
      ensures writes == old(writes)
    {
      ran := ThrottleAllows(lastRun, now);
      raised := None;
      if !ran {
        return;
      }
      lastRun := Some(now);
      refreshTimes := refreshTimes + [now];
      var e := UpdateEffect(available, result);
      available, raised := e.available, e.raised;
    }

    /** `async_set`: hands `properties` to the remote `set()`, whose outcome
        is `result`; `raised` is the exception that escapes. Not throttled. */
    method AsyncSet(properties: Properties, result: RemoteResult) returns (raised: Option<RemoteResult>)
      requires Valid()
      modifies this
      ensures Valid()
      ensures writes == old(writes) + [properties]
      ensures Effect(available, raised) == SetEffect(old(available), result)
      ensures lastRun == old(lastRun) && refreshTimes == old(refreshTimes)
    {
      writes := writes + [properties];
      var e := SetEffect(available, result);
      available, raised := e.available, e.raised;
    }
  }

  /** The throttle admits a refresh only when it lies more than an interval
      after every refresh the wrapper has ever issued. */
  lemma AdmittedAfterEveryRefresh(w: MelCloudDevice, now: int)
    requires w.Valid() && ThrottleAllows(w.lastRun, now)
    ensures forall i :: 0 <= i < |w.refreshTimes| ==> now - w.refreshTimes[i] > MinTimeBetweenUpdates
  {
    var times := w.refreshTimes;
    forall i | 0 <= i < |times| ensures now - times[i] > MinTimeBetweenUpdates {
      if i < |times| - 1 {
        SpacedAllPairs(times, i, |times| - 1);
      }
    }
  }

  /** Two refreshes of one wrapper no more than an interval apart issue at most
      one remote `update()` between them. */
  method RefreshTwiceWithinInterval(w: MelCloudDevice, t1: int, t2: int, r1: RemoteResult, r2: RemoteResult)
    returns (ran1: bool, ran2: bool)
    requires w.Valid()
    requires t2 - t1 <= MinTimeBetweenUpdates
    modifies w
    ensures w.Valid()
    ensures !(ran1 && ran2)
    ensures |w.refreshTimes| <= |old(w.refreshTimes)| + 1
    ensures ran1 ==> w.available == UpdateEffect(old(w.available), r1).available
  {
    var raised1, raised2;
    ran1, raised1 := w.AsyncUpdate(t1, r1);
    ran2, raised2 := w.AsyncUpdate(t2, r2);
  }
}
