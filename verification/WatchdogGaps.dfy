/**
 Whole sequences of watchdog passes over the pending requests of a connection
 (Stack/securechannel/opcua_secureconnection.c): the 32-bit tick counter wraps, so whether a request that
 has become due is found depends on the time between the passes.
 */
module WatchdogGaps {
  import opened Basics
  import opened Lists
  import opened Filters
  import opened SecureConnections

  /** What one pass leaves pending. */
  function Kept(items: seq<SecureRequest>, clock: nat -> UInt32): seq<SecureRequest> {
    Select(items, TimeOuts(items, clock), false)
  }

  /** What is pending after the passes, each with its own clock readings. */
  function AfterPasses(items: seq<SecureRequest>, clocks: seq<nat -> UInt32>): seq<SecureRequest>
    decreases |clocks|
  {
    if clocks == [] then items else AfterPasses(Kept(items, clocks[0]), clocks[1..])
  }

  /** The instants at which the passes look at the request `r`, for as long as it is pending. */
  predicate LookedAt(items: seq<SecureRequest>, clocks: seq<nat -> UInt32>, r: SecureRequest, times: seq<nat>)
    requires |clocks| == |times|
    decreases |clocks|
  {
    clocks == [] || r !in items ||
      (clocks[0](IndexOf(items, r)) == times[0] % TWO_TO_THE_32 && LookedAt(Kept(items, clocks[0]), clocks[1..], r, times[1..]))
  }

  /** No pass finds the request timed out. */
  predicate NeverTimedOut(r: SecureRequest, times: seq<nat>) {
    forall k :: 0 <= k < |times| ==> !TimedOut(r, times[k] % TWO_TO_THE_32)
  }

  lemma KeptMembers(items: seq<SecureRequest>, clock: nat -> UInt32, r: SecureRequest)
    requires Distinct(items)
    ensures Distinct(Kept(items, clock))
    ensures r in Kept(items, clock) <==> r in items && !TimedOut(r, clock(IndexOf(items, r)))
  {
    hide TimedOut;
    var v := TimeOuts(items, clock);
    SelectDistinct(items, v, false);
    assert Distinct(Select(items, v, false));
    SelectMembers(items, v, false, r);
    var k := IndexOf(items, r);
    if r in items {
      assert items[..|items|] == items;
      assert items[k] == r && v[k] == TimedOut(r, clock(k));
    }
  }

  /** A request is pending after the passes exactly when none of them found it timed out. */
  lemma {:induction false} PendingAfterPasses(items: seq<SecureRequest>, clocks: seq<nat -> UInt32>, r: SecureRequest, times: seq<nat>)
    requires Distinct(items) && r in items && |clocks| == |times| && LookedAt(items, clocks, r, times)
    ensures r in AfterPasses(items, clocks) <==> NeverTimedOut(r, times)
    decreases |clocks|
  {
    hide TimedOut;
    if clocks == [] {
    } else {
      KeptMembers(items, clocks[0], r);
      var kept, rest := Kept(items, clocks[0]), times[1..];
      assert NeverTimedOut(r, times) <==> !TimedOut(r, times[0] % TWO_TO_THE_32) && NeverTimedOut(r, rest) by {
        assert forall k :: 0 <= k < |rest| ==> rest[k] == times[k + 1];
        if !TimedOut(r, times[0] % TWO_TO_THE_32) && NeverTimedOut(r, rest) {
          forall k | 0 <= k < |times|
            ensures !TimedOut(r, times[k] % TWO_TO_THE_32)
          {
            if k > 0 { assert rest[k - 1] == times[k]; }
          }
        }
      }
      if r in kept {
        PendingAfterPasses(kept, clocks[1..], r, rest);
      } else {
        GoneStaysGone(kept, clocks[1..], r);
      }
    }
  }

  lemma {:induction false} GoneStaysGone(items: seq<SecureRequest>, clocks: seq<nat -> UInt32>, r: SecureRequest)
    requires Distinct(items) && r !in items
    ensures r !in AfterPasses(items, clocks)
    decreases |clocks|
  {
    hide TimedOut;
    if clocks != [] {
      KeptMembers(items, clocks[0], r);
      GoneStaysGone(Kept(items, clocks[0]), clocks[1..], r);
    }
  }

  // ----- requests without a timeout -----

  /** The callbacks that the passes invoke. */
  function FiredBy(items: seq<SecureRequest>, clocks: seq<nat -> UInt32>): seq<Completion>
    decreases |clocks|
  {
    if clocks == [] then []
    else Completions(Select(items, TimeOuts(items, clocks[0]), true), BadTimeout) + FiredBy(Kept(items, clocks[0]), clocks[1..])
  }

  /** Whatever the list, the clocks and the number of passes: a request whose timeout is 0 or infinite stays pending. */
  lemma {:induction false} WithoutTimeoutStays(items: seq<SecureRequest>, clocks: seq<nat -> UInt32>, r: SecureRequest)
    requires WithoutTimeout(r)
    ensures r in AfterPasses(items, clocks) <==> r in items
    decreases |clocks|
  {
    hide WithoutTimeout, TimedOut;
    if clocks == [] {
    } else {
      WatchdogKeeps(items, clocks[0], r);
      WithoutTimeoutStays(Kept(items, clocks[0]), clocks[1..], r);
    }
  }

  /** ... and no pass invokes its callback: what the passes complete was pending, had a timeout, and is told BadTimeout. */
  lemma {:induction false} FiredHadTimeout(items: seq<SecureRequest>, clocks: seq<nat -> UInt32>, c: Completion)
    requires c in FiredBy(items, clocks)
    ensures c.status == BadTimeout && c.request in items && c.request.operationTimeout != 0 && c.request.operationTimeout != 0xFFFF_FFFF
    decreases |clocks|
  {
    hide TimedOut;
    if clocks == [] {
    } else {
      WatchdogCompletes(items, clocks[0], c);
      if c in FiredBy(Kept(items, clocks[0]), clocks[1..]) {
        FiredHadTimeout(Kept(items, clocks[0]), clocks[1..], c);
        WatchdogKeeps(items, clocks[0], c.request);
      }
    }
  }

  // ----- how far apart the passes may be -----

  /** The first pass comes at most `gap` ms after the start, and each later one at most `gap` ms after the one before. */
  predicate Spaced(start: nat, times: seq<nat>, gap: nat) {
    forall k :: 0 <= k < |times| ==> Before(start, times, k) <= times[k] <= Before(start, times, k) + gap
  }

  function Before(start: nat, times: seq<nat>, k: nat): nat
    requires k < |times|
  {
    if k == 0 then start else times[k - 1]
  }

  /** The request has a timeout and was stored at that instant. */
  predicate StoredAt(r: SecureRequest, start: nat) {
    r.operationTimeout != INFINITE && r.operationTimeout != 0 && r.startTime == start % TWO_TO_THE_32
  }

  /** After any number of these passes the request is pending exactly when it was not yet due at the last one. */
  predicate Punctual(r: SecureRequest, start: nat, times: seq<nat>) {
    NeverTimedOut(r, times) <==> times == [] || times[|times| - 1] < start + r.operationTimeout
  }

  lemma {:induction false} TimesClimb(start: nat, times: seq<nat>, gap: nat, k: nat)
    requires Spaced(start, times, gap) && k < |times|
    ensures start <= times[k] <= times[|times| - 1]
    decreases |times|
  {
    var last := |times| - 1;
    if k < last {
      var init := times[..last];
      assert forall j :: 0 <= j < last ==> Before(start, init, j) == Before(start, times, j) && init[j] == times[j];
      TimesClimb(start, init, gap, k);
      assert Before(start, times, last) == init[last - 1];
    } else {
      assert Before(start, times, k) <= times[k];
      if k > 0 {
        var init := times[..last];
        assert forall j :: 0 <= j < last ==> Before(start, init, j) == Before(start, times, j) && init[j] == times[j];
        TimesClimb(start, init, gap, k - 1);
      }
    }
  }

  /** The first pass at which the request is due. */
  lemma {:induction false} FirstDue(times: seq<nat>, due: nat) returns (k: nat)
    requires times != [] && times[|times| - 1] >= due
    ensures k < |times| && times[k] >= due && (k > 0 ==> times[k - 1] < due)
  {
    k := |times| - 1;
    while k > 0 && times[k - 1] >= due
      invariant k < |times| && times[k] >= due
    {
      k := k - 1;
    }
  }

  /** Passes that are never further apart than 2^32 ms less the timeout are punctual: the first one at which the
      request is due comes before the elapsed time has wrapped. */
  lemma CloseIsPunctual(r: SecureRequest, start: nat, times: seq<nat>, gap: nat)
    requires StoredAt(r, start) && Spaced(start, times, gap) && gap <= TWO_TO_THE_32 - r.operationTimeout
    ensures Punctual(r, start, times)
  {
    hide TimedOut;
    if times != [] {
      var due, last := start + r.operationTimeout, |times| - 1;
      if times[last] < due {
        forall k | 0 <= k < |times|
          ensures !TimedOut(r, times[k] % TWO_TO_THE_32)
        {
          TimesClimb(start, times, gap, k);
          TimedOutElapsed(r, start, times[k]);
        }
      } else {
        var k := FirstDue(times, due);
        assert Before(start, times, k) <= times[k] <= Before(start, times, k) + gap;
        TimesClimb(start, times, gap, k);
        TimedOutElapsed(r, start, times[k]);
      }
    }
  }

  /** Passes every millisecond until the request is one short of being due, and then none until the elapsed time has wrapped to zero. */
  function MissingPasses(start: nat, timeout: UInt32): (times: seq<nat>)
    requires timeout > 0
    ensures |times| == timeout + 1 && times[timeout] == start + TWO_TO_THE_32
    ensures forall k :: 0 <= k < timeout ==> times[k] == start + k
  {
    seq(timeout, k requires 0 <= k < timeout => start + k) + [start + TWO_TO_THE_32]
  }

  /** The passes that miss a request although it is due. */
  lemma WideMisses(r: SecureRequest, start: nat, gap: nat)
    requires StoredAt(r, start) && gap > TWO_TO_THE_32 - r.operationTimeout
    ensures var times := MissingPasses(start, r.operationTimeout);
      Spaced(start, times, gap) && !Punctual(r, start, times)
  {
    hide TimedOut;
    var times := MissingPasses(start, r.operationTimeout);
    forall k | 0 <= k < |times|
      ensures !TimedOut(r, times[k] % TWO_TO_THE_32)
    {
      TimedOutElapsed(r, start, times[k]);
    }
  }

  /** For a timeout and a longest gap between passes: every request with that timeout, stored at any instant, is found
      punctually by every sequence of such passes if and only if the gap is at most 2^32 ms less the timeout. */
  lemma PunctualExactlyWhen(timeout: UInt32, gap: nat)
    requires timeout != INFINITE && timeout != 0
    ensures (forall r: SecureRequest, start: nat, times: seq<nat> ::
        r.operationTimeout == timeout && StoredAt(r, start) && Spaced(start, times, gap) ==> Punctual(r, start, times))
      <==> gap <= TWO_TO_THE_32 - timeout
  {
    hide StoredAt, Spaced, Punctual;
    if gap <= TWO_TO_THE_32 - timeout {
      forall r: SecureRequest, start: nat, times: seq<nat> | r.operationTimeout == timeout && StoredAt(r, start) && Spaced(start, times, gap)
        ensures Punctual(r, start, times)
      {
        CloseIsPunctual(r, start, times, gap);
      }
    } else {
      var r := SecureRequest(0, 0, SessionCall, true, 0, timeout);
      StoredFromZero(r);
      WideMisses(r, 0, gap);
    }
  }

  lemma StoredFromZero(r: SecureRequest)
    requires r.operationTimeout != INFINITE && r.operationTimeout != 0 && r.startTime == 0
    ensures StoredAt(r, 0)
  {
  }

  /** On the list: with such passes a request is pending exactly while it was not due when it was last looked at. */
  lemma PendingUntilDue(items: seq<SecureRequest>, clocks: seq<nat -> UInt32>, r: SecureRequest, start: nat, times: seq<nat>, gap: nat)
    requires Distinct(items) && r in items && |clocks| == |times| && LookedAt(items, clocks, r, times)
    requires StoredAt(r, start) && Spaced(start, times, gap) && gap <= TWO_TO_THE_32 - r.operationTimeout
    ensures r in AfterPasses(items, clocks) <==> times == [] || times[|times| - 1] < start + r.operationTimeout
  {
    hide LookedAt, AfterPasses, NeverTimedOut, StoredAt, Spaced;
    PendingAfterPasses(items, clocks, r, times);
    CloseIsPunctual(r, start, times, gap);
  }
}
