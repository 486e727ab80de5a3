/**
 * The chain-height hooks of src/hooks/useBlockHeight.ts: a tracker that asks the node for
 * the current block height at most once every 30 seconds, and the countdown of blocks left
 * until a target height.
 *
 * The clock and the node are inputs: `now` is the clock reading taken before the request,
 * `doneAt` the reading taken after a successful response, and `response` what the request
 * produced.
 */
module BlockHeight {
  import opened Wrappers

  /** Milliseconds that must pass between the last successful fetch and the next request. */
  const ThrottleMs := 30000

  /** How a request for the node info ends: any failure, or the chain tip height. */
  datatype FetchResult = Failed | Ok(tipHeight: int)

  /** A successful fetch: the clock reading before the request and the one after the response. */
  datatype Reading = Reading(start: int, done: int)

  /**
   * What the throttle itself guarantees: every successful request started at least one
   * interval after the previous success was recorded.
   */
  ghost predicate Throttled(fetches: seq<Reading>) {
    forall i :: 0 < i < |fetches| ==> fetches[i].start - fetches[i - 1].done >= ThrottleMs
  }

  /** The clock did not step back during any successful request. */
  ghost predicate ClockForward(fetches: seq<Reading>) {
    forall i :: 0 <= i < |fetches| ==> fetches[i].start <= fetches[i].done
  }

  /** The recorded times of the successes, in order. */
  ghost function DoneTimes(fetches: seq<Reading>): (times: seq<int>)
    ensures |times| == |fetches|
    ensures forall i :: 0 <= i < |fetches| ==> times[i] == fetches[i].done
  {
    seq(|fetches|, i requires 0 <= i < |fetches| => fetches[i].done)
  }

  /** Consecutive readings are at least one throttle interval apart. */
  ghost predicate Spaced(times: seq<int>) {
    forall i :: 0 < i < |times| ==> times[i] - times[i - 1] >= ThrottleMs
  }

  /** With a clock that does not step back, the recorded success times are spaced. */
  lemma ForwardClockSpaces(fetches: seq<Reading>)
    requires Throttled(fetches) && ClockForward(fetches)
    ensures Spaced(DoneTimes(fetches))
  {
    var times := DoneTimes(fetches);
    forall i | 0 < i < |times|
      ensures times[i] - times[i - 1] >= ThrottleMs
    {
      assert fetches[i].start <= fetches[i].done;
      assert fetches[i].start - fetches[i - 1].done >= ThrottleMs;
    }
  }

  /** Spacing between neighbours adds up: readings `k` places apart are `k` intervals apart. */
  lemma {:induction false} SpacedApart(times: seq<int>, i: nat, j: nat)
    requires Spaced(times) && i <= j < |times|
    ensures times[j] - times[i] >= ThrottleMs * (j - i)
    decreases j - i
  {
    if i < j {
      SpacedApart(times, i, j - 1);
    }
  }

  class BlockHeightTracker {
    /** `blockHeight`: the last height read, `null` until the first success. */
    var blockHeight: Option<int>
    /** `isLoading`: true until the first request has finished, whether or not it succeeded. */
    var isLoading: bool
    /** `lastFetchRef.current`: the clock reading after the last success, 0 before any. */
    var lastFetch: int
    /** The clock readings around every successful fetch so far. */
    ghost var successes: seq<Reading>

    ghost predicate Valid()
      reads this
    {
      (successes == [] ==> lastFetch == 0 && blockHeight.None?)
      && (successes != [] ==> lastFetch == successes[|successes| - 1].done && blockHeight.Some?)
      && Throttled(successes)
      && (successes != [] ==> successes[0].start >= ThrottleMs)
      && (successes != [] ==> !isLoading)
    }

    constructor ()
      ensures Valid()
      ensures blockHeight.None? && isLoading && lastFetch == 0 && successes == []
    {
      blockHeight := None;
      isLoading := true;
      lastFetch := 0;
      successes := [];
    }

    /**
     * `fetchBlockHeight`. Within 30 seconds of the last success nothing is requested and
     * nothing changes. Otherwise the request settles: loading ends, and on success the height
     * and the fetch time are recorded; a failure keeps the previous height and time.
     */
    method Fetch(now: int, doneAt: int, response: FetchResult) returns (requested: bool)
      requires Valid()
      modifies this
      ensures Valid()
      ensures requested <==> now - old(lastFetch) >= ThrottleMs
      ensures !requested ==>
        blockHeight == old(blockHeight) && isLoading == old(isLoading)
        && lastFetch == old(lastFetch) && successes == old(successes)
      ensures requested ==> !isLoading
      ensures requested && response.Ok? ==>
        blockHeight == Some(response.tipHeight) && lastFetch == doneAt
        && successes == old(successes) + [Reading(now, doneAt)]
      ensures requested && response.Failed? ==>
        blockHeight == old(blockHeight) && lastFetch == old(lastFetch) && successes == old(successes)
    {
      if now - lastFetch < ThrottleMs {
        return false;
      }
      requested := true;
      if response.Ok? {
        blockHeight := Some(response.tipHeight);
        lastFetch := doneAt;
        successes := successes + [Reading(now, doneAt)];
      }
      isLoading := false;
    }
  }

  /** What `useBlocksRemaining` returns. */
  datatype Remaining = Remaining(blocksRemaining: Option<int>, isLoading: bool)

  /**
   * `useBlocksRemaining`: while loading, or without a truthy height and target (absent or
   * 0), there is no count and the loading flag is passed through; otherwise the count is
   * the blocks still to come, never negative, and loading is over.
   */
  function BlocksRemaining(isLoading: bool, height: Option<int>, target: Option<int>): (r: Remaining)
    ensures r.blocksRemaining.Some? <==>
      !isLoading && height.Some? && height.value != 0 && target.Some? && target.value != 0
    ensures r.blocksRemaining.None? ==> r.isLoading == isLoading
    ensures r.blocksRemaining.Some? ==> !r.isLoading && r.blocksRemaining.value >= 0
    ensures r.blocksRemaining.Some? ==>
      (r.blocksRemaining.value == 0 <==> height.value >= target.value)
    ensures r.blocksRemaining.Some? && height.value < target.value ==>
      height.value + r.blocksRemaining.value == target.value
  {
    if isLoading || height.None? || height.value == 0 || target.None? || target.value == 0 then
      Remaining(None, isLoading)
    else
      var remaining := target.value - height.value;
      Remaining(Some(if remaining > 0 then remaining else 0), false)
  }

  /** A later chain height never leaves more blocks to wait for the same target. */
  lemma RemainingMonotone(h1: int, h2: int, target: int)
    requires 0 < h1 <= h2 && target != 0
    ensures BlocksRemaining(false, Some(h2), Some(target)).blocksRemaining.value
      <= BlocksRemaining(false, Some(h1), Some(target)).blocksRemaining.value
  {
  }
}
