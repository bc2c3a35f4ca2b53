/**
 The pending requests of a client connection, Stack/securechannel/opcua_secureconnection.c: a locked
 list from which the response handlers, the failing sender, the watchdog timer and the final
 cancellation take requests out. Each method is one critical section of the list lock. An invoked
 callback is an entry in a ghost log.
 */
module SecureConnections {
  import opened Basics
  import opened Lists
  import opened Filters

  datatype RequestType = SessionCall | SecureChannelOpen

  /** A pending request. The call number tells requests apart whose 32-bit ids are the same. */
  datatype SecureRequest = SecureRequest(
    call: nat, requestId: UInt32, kind: RequestType, hasCallback: bool, startTime: UInt32, operationTimeout: UInt32)

  datatype Completion = Completion(request: SecureRequest, status: Status)

  // ----- the critical sections as values -----

  /** By what a request is looked up. */
  datatype Match = ById(requestId: UInt32) | ByType(kind: RequestType)

  predicate Matches(r: SecureRequest, m: Match) {
    match m
    case ById(id) => r.requestId == id
    case ByType(kind) => r.kind == kind
  }

  /** The position of the first match, or the length of the list. */
  function FirstMatch(s: seq<SecureRequest>, m: Match): (k: nat)
    ensures k <= |s| && forall i :: 0 <= i < k ==> !Matches(s[i], m)
    ensures k < |s| ==> Matches(s[k], m)
  {
    if s == [] then 0 else if Matches(s[0], m) then 0 else 1 + FirstMatch(s[1..], m)
  }

  /** Takes the first match out. */
  function Take(s: seq<SecureRequest>, m: Match): (seq<SecureRequest>, Option<SecureRequest>) {
    var k := FirstMatch(s, m);
    if k < |s| then (RemoveAt(s, k), Some(s[k])) else (s, None)
  }

  const INFINITE: UInt32 := 0xFFFF_FFFF

  /** The watchdog's test, on 32-bit ticks. */
  predicate TimedOut(r: SecureRequest, now: UInt32) {
    r.operationTimeout != INFINITE && r.operationTimeout != 0 && Sub32(now, r.startTime) >= r.operationTimeout
  }

  /** The verdicts of one pass. The tick counter is read again for each request. */
  function TimeOuts(s: seq<SecureRequest>, clock: nat -> UInt32): (v: seq<bool>)
    ensures |v| == |s| && forall i :: 0 <= i < |s| ==> v[i] == TimedOut(s[i], clock(i))
  {
    seq(|s|, i requires 0 <= i < |s| => TimedOut(s[i], clock(i)))
  }

  function Completed(r: SecureRequest, status: Status): seq<Completion> {
    if r.hasCallback then [Completion(r, status)] else []
  }

  /** The callbacks of the requests, in their order. */
  function Completions(s: seq<SecureRequest>, status: Status): seq<Completion> {
    if s == [] then []
    else Completions(s[..|s| - 1], status) + Completed(s[|s| - 1], status)
  }

  /** The request at this position has the id, or the type, and none before it has. */
  predicate TakesAt(s: seq<SecureRequest>, m: Match, k: nat)
    requires k < |s|
  {
    match m
    case ById(id) => s[k].requestId == id && forall i :: 0 <= i < k ==> s[i].requestId != id
    case ByType(kind) => s[k].kind == kind && forall i :: 0 <= i < k ==> s[i].kind != kind
  }

  /** A lookup takes a request out exactly when one with that id, or of that type, is pending; it takes one, which is
      such a one with none before it, and leaves the others in order. */
  lemma TakesExactly(s: seq<SecureRequest>, m: Match)
    ensures var (rest, found) := Take(s, m);
      && (m.ById? ==> (found.Some? <==> exists r :: r in s && r.requestId == m.requestId))
      && (m.ByType? ==> (found.Some? <==> exists r :: r in s && r.kind == m.kind))
      && (found.None? ==> rest == s)
      && (found.Some? ==> exists k :: 0 <= k < |s| && TakesAt(s, m, k) && found.value == s[k] && rest == s[..k] + s[k + 1..])
  {
    var k, found := FirstMatch(s, m), Take(s, m).1;
    if found.Some? {
      assert found.value == s[k] && s[k] in s && TakesAt(s, m, k);
    }
  }

  /** The request never times out by itself. */
  predicate WithoutTimeout(r: SecureRequest) {
    r.operationTimeout == 0 || r.operationTimeout == 0xFFFF_FFFF
  }

  /** The callbacks are those of exactly the requests that have one, all with the status ... */
  lemma {:induction false} CompletionsExact(s: seq<SecureRequest>, status: Status, c: Completion)
    ensures c in Completions(s, status) <==> c.request in s && c.request.hasCallback && c.status == status
  {
    if s == [] {
    } else {
      CompletionsExact(s[..|s| - 1], status, c);
      assert s == s[..|s| - 1] + [s[|s| - 1]];
    }
  }

  /** ... and in list order: one after another for each request that has one. */
  lemma {:induction false} CompletionsInOrder(s: seq<SecureRequest>, status: Status)
    requires forall r :: r in s ==> r.hasCallback
    ensures |Completions(s, status)| == |s|
    ensures forall i :: 0 <= i < |s| ==> Completions(s, status)[i] == Completion(s[i], status)
  {
    if s != [] { CompletionsInOrder(s[..|s| - 1], status); }
  }

  /** The watchdog's completions, in terms of the requests and the clock: with BadTimeout, for exactly the requests with
      a callback and a timeout whose 32-bit elapsed time has reached it. */
  lemma WatchdogCompletes(s: seq<SecureRequest>, clock: nat -> UInt32, c: Completion)
    ensures c in Completions(Select(s, TimeOuts(s, clock), true), BadTimeout) <==>
      && c.status == BadTimeout && c.request.hasCallback && !WithoutTimeout(c.request)
      && exists i :: 0 <= i < |s| && s[i] == c.request && (clock(i) - c.request.startTime) % TWO_TO_THE_32 >= c.request.operationTimeout
  {
    hide Completions, Select;
    var v := TimeOuts(s, clock);
    CompletionsExact(Select(s, v, true), BadTimeout, c);
    SelectMembers(s, v, true, c.request);
    forall i | 0 <= i < |s| && s[i] == c.request
      ensures v[i] <==> !WithoutTimeout(c.request) && (clock(i) - c.request.startTime) % TWO_TO_THE_32 >= c.request.operationTimeout
    {
      assert v[i] == TimedOut(s[i], clock(i));
    }
  }

  /** A pass leaves exactly the other requests. */
  lemma WatchdogKeeps(s: seq<SecureRequest>, clock: nat -> UInt32, r: SecureRequest)
    ensures r in Select(s, TimeOuts(s, clock), false) <==>
      exists i :: 0 <= i < |s| && s[i] == r
        && (WithoutTimeout(r) || (clock(i) - r.startTime) % TWO_TO_THE_32 < r.operationTimeout)
  {
    hide Select;
    var v := TimeOuts(s, clock);
    SelectMembers(s, v, false, r);
    forall i | 0 <= i < |s| && s[i] == r
      ensures v[i] <==> !WithoutTimeout(r) && (clock(i) - r.startTime) % TWO_TO_THE_32 >= r.operationTimeout
    {
      assert v[i] == TimedOut(s[i], clock(i));
    }
  }

  lemma WatchdogEffects(s: seq<SecureRequest>, clock: nat -> UInt32, log: seq<Completion>)
    ensures var v := TimeOuts(s, clock); var after := log + Completions(Select(s, v, true), BadTimeout);
      forall c :: c in after[|log|..] <==>
        && c.status == BadTimeout && c.request.hasCallback && !WithoutTimeout(c.request)
        && exists i :: 0 <= i < |s| && s[i] == c.request && (clock(i) - c.request.startTime) % TWO_TO_THE_32 >= c.request.operationTimeout
    ensures forall r :: r in s && WithoutTimeout(r) ==> r in Select(s, TimeOuts(s, clock), false)
  {
    hide Completions, Select;
    var v := TimeOuts(s, clock);
    var more := Completions(Select(s, v, true), BadTimeout);
    assert (log + more)[|log|..] == more;
    forall c
      ensures c in more <==>
        && c.status == BadTimeout && c.request.hasCallback && !WithoutTimeout(c.request)
        && exists i :: 0 <= i < |s| && s[i] == c.request && (clock(i) - c.request.startTime) % TWO_TO_THE_32 >= c.request.operationTimeout
    {
      WatchdogCompletes(s, clock, c);
    }
    forall r | r in s && WithoutTimeout(r)
      ensures r in Select(s, v, false)
    {
      WatchdogKeeps(s, clock, r);
    }
  }

  lemma CancelEffects(s: seq<SecureRequest>, status: Status, log: seq<Completion>)
    ensures forall c :: c in (log + Completions(s, status))[|log|..] <==> c.request in s && c.request.hasCallback && c.status == status
  {
    hide Completions;
    assert (log + Completions(s, status))[|log|..] == Completions(s, status);
    forall c
      ensures c in Completions(s, status) <==> c.request in s && c.request.hasCallback && c.status == status
    {
      CompletionsExact(s, status, c);
    }
  }

  // ----- a sweep over the list, on values -----

  datatype Sweep = Sweep(items: seq<SecureRequest>, cursor: nat, log: seq<Completion>)

  /** Takes the request under the cursor out and completes it, or leaves it. */
  function SweepOne(s: Sweep, out: bool, status: Status): Sweep
    requires s.cursor < |s.items|
  {
    if out then s.(items := RemoveAt(s.items, s.cursor), log := s.log + Completed(s.items[s.cursor], status))
    else s.(cursor := s.cursor + 1)
  }

  function UnderCursor(s: Sweep): Option<SecureRequest> {
    if s.cursor < |s.items| then Some(s.items[s.cursor]) else None
  }

  /** Where a sweep with these verdicts stands after the first `p` requests. */
  function Swept(all: seq<SecureRequest>, v: seq<bool>, log: seq<Completion>, status: Status, p: nat): Sweep
    requires p <= |all| == |v|
  {
    Sweep(Remaining(all, v, false, p), |SelectFirst(all, v, false, p)|, log + Completions(SelectFirst(all, v, true, p), status))
  }

  lemma SweptStep(all: seq<SecureRequest>, v: seq<bool>, log: seq<Completion>, status: Status, p: nat)
    requires p < |all| == |v|
    ensures var s := Swept(all, v, log, status, p);
      && UnderCursor(s) == Some(all[p])
      && SweepOne(s, v[p], status) == Swept(all, v, log, status, p + 1)
  {
    RemainingStep(all, v, false, p);
    if v[p] {
      var done := SelectFirst(all, v, true, p);
      assert (done + [all[p]])[..|done|] == done;
      ConcatAssoc(log, Completions(done, status), Completed(all[p], status));
    }
  }

  lemma SweptEnds(all: seq<SecureRequest>, v: seq<bool>, log: seq<Completion>, status: Status)
    requires |all| == |v|
    ensures Swept(all, v, log, status, 0) == Sweep(all, 0, log)
    ensures Swept(all, v, log, status, |all|) ==
      Sweep(Select(all, v, false), |Select(all, v, false)|, log + Completions(Select(all, v, true), status))
  {
    RemainingAll(all, v, false);
  }

  /** The request under the cursor is the next one, until all have been looked at. */
  lemma SweptNext(all: seq<SecureRequest>, v: seq<bool>, log: seq<Completion>, status: Status, p: nat)
    requires p <= |all| == |v|
    ensures UnderCursor(Swept(all, v, log, status, p)) == if p < |all| then Some(all[p]) else None
  {
  }

  lemma {:induction false} AllSelected(all: seq<SecureRequest>, v: seq<bool>, p: nat)
    requires p <= |all| == |v| && forall i :: 0 <= i < |v| ==> v[i]
    ensures SelectFirst(all, v, true, p) == all[..p] && SelectFirst(all, v, false, p) == []
  {
    if p > 0 { AllSelected(all, v, p - 1); }
  }

  /** The watchdog's test in real time: it sees the elapsed time modulo 2^32. So it is never early, and it is exact
      as long as less than 2^32 ms have passed. */
  lemma TimedOutElapsed(r: SecureRequest, start: nat, now: nat)
    requires start <= now && r.startTime == start % TWO_TO_THE_32
    requires r.operationTimeout != INFINITE && r.operationTimeout != 0
    ensures TimedOut(r, now % TWO_TO_THE_32) <==> (now - start) % TWO_TO_THE_32 >= r.operationTimeout
    ensures TimedOut(r, now % TWO_TO_THE_32) ==> now - start >= r.operationTimeout
    ensures now - start < TWO_TO_THE_32 ==> (TimedOut(r, now % TWO_TO_THE_32) <==> now - start >= r.operationTimeout)
  {
    ModuloDifference(start, now);
  }

  lemma ModuloDifference(start: nat, now: nat)
    requires start <= now
    ensures Sub32(now % TWO_TO_THE_32, start % TWO_TO_THE_32) == (now - start) % TWO_TO_THE_32
  {
    var m := TWO_TO_THE_32;
    assert now - start == (now % m - start % m) + m * (now / m - start / m);
  }

  // ----- the connection -----

  class SecureConnection {
    const PendingRequests: List<SecureRequest>
    ghost var Log: seq<Completion>

    ghost predicate Valid()
      reads this, PendingRequests, PendingRequests.Nodes
    {
      PendingRequests.Valid()
    }

    constructor ()
      ensures Valid() && fresh(PendingRequests) && PendingRequests.Items == [] && Log == []
    {
      PendingRequests := new List<SecureRequest>();
      Log := [];
    }

    method AddPendingRequest(call: nat, requestId: UInt32, timeout: UInt32, kind: RequestType, hasCallback: bool, now: UInt32)
      returns (status: Status, request: SecureRequest)
      requires Valid()
      modifies PendingRequests, PendingRequests.Nodes
      ensures Valid()
      ensures forall n :: n in PendingRequests.Nodes ==> n in old(PendingRequests.Nodes) || fresh(n)
      ensures request == SecureRequest(call, requestId, kind, hasCallback, now, timeout)
      ensures status == Good && PendingRequests.Items == [request] + old(PendingRequests.Items)
    {
      request := SecureRequest(call, requestId, kind, hasCallback, now, timeout);
      status := PendingRequests.AddElement(Some(request));
    }

    /** Walks to the first match and takes it out. */
    method Remove(m: Match) returns (r: Option<SecureRequest>)
      requires Valid()
      modifies PendingRequests, PendingRequests.Nodes
      ensures Valid()
      ensures (PendingRequests.Items, r) == Take(old(PendingRequests.Items), m)
    {
      hide Linked;
      PendingRequests.ResetCurrent();
      var current := PendingRequests.GetCurrentElement();
      while current.Some?
        invariant Valid() && PendingRequests.Nodes == old(PendingRequests.Nodes) && PendingRequests.Items == old(PendingRequests.Items)
        invariant current == if PendingRequests.Cursor < |PendingRequests.Items| then Some(PendingRequests.Items[PendingRequests.Cursor]) else None
        invariant forall i :: 0 <= i < PendingRequests.Cursor ==> !Matches(PendingRequests.Items[i], m)
        modifies PendingRequests`currtElement, PendingRequests`Cursor
        decreases |PendingRequests.Items| - PendingRequests.Cursor
      {
        if Matches(current.value, m) {
          break;
        }
        current := PendingRequests.GetNextElement();
      }
      if current.Some? {
        PendingRequests.DeleteCurrentElement();
      }
      return current;
    }

    method RemoveSecureRequestById(requestId: UInt32) returns (r: Option<SecureRequest>)
      requires Valid()
      modifies PendingRequests, PendingRequests.Nodes
      ensures Valid()
      ensures (PendingRequests.Items, r) == Take(old(PendingRequests.Items), ById(requestId))
    {
      r := Remove(ById(requestId));
    }

    method RemoveSecureRequestByType(kind: RequestType) returns (r: Option<SecureRequest>)
      requires Valid()
      modifies PendingRequests, PendingRequests.Nodes
      ensures Valid()
      ensures (PendingRequests.Items, r) == Take(old(PendingRequests.Items), ByType(kind))
    {
      r := Remove(ByType(kind));
    }

    ghost predicate At(s: Sweep)
      reads `Log, PendingRequests
    {
      s.items == PendingRequests.Items && s.cursor == PendingRequests.Cursor && s.log == Log
    }

    ghost predicate Within(nodes: seq<ListElement<SecureRequest>>)
      reads this, PendingRequests
    {
      forall i :: 0 <= i < |PendingRequests.Nodes| ==> PendingRequests.Nodes[i] in nodes
    }

    method Start() returns (first: Option<SecureRequest>)
      requires Valid()
      modifies PendingRequests`currtElement, PendingRequests`Cursor
      ensures Valid() && At(Sweep(PendingRequests.Items, 0, Log))
      ensures first == UnderCursor(Sweep(PendingRequests.Items, 0, Log))
    {
      PendingRequests.ResetCurrent();
      first := PendingRequests.GetCurrentElement();
    }

    /** Takes the request under the cursor out, then completes it. */
    method Expire(current: SecureRequest, status: Status, ghost s: Sweep) returns (next: Option<SecureRequest>)
      requires Valid() && At(s) && UnderCursor(s) == Some(current)
      modifies `Log, PendingRequests, PendingRequests.Nodes
      ensures Valid() && At(SweepOne(s, true, status)) && next == UnderCursor(SweepOne(s, true, status))
      ensures Within(old(PendingRequests.Nodes))
    {
      hide Linked;
      PendingRequests.DeleteCurrentElement();
      if current.hasCallback {
        Log := Log + [Completion(current, status)];
      }
      next := PendingRequests.GetCurrentElement();
    }

    method Skip(ghost s: Sweep) returns (next: Option<SecureRequest>)
      requires Valid() && At(s) && UnderCursor(s).Some?
      modifies PendingRequests`currtElement, PendingRequests`Cursor
      ensures Valid() && At(SweepOne(s, false, BadTimeout)) && next == UnderCursor(SweepOne(s, false, BadTimeout))
    {
      next := PendingRequests.GetNextElement();
    }

    /** Completes with BadTimeout exactly the requests whose time is up, in list order, and keeps the
        others in order. */
    method WatchdogTimerCallback(clock: nat -> UInt32)
      requires Valid()
      modifies `Log, PendingRequests, PendingRequests.Nodes
      ensures Valid()
      ensures var all := old(PendingRequests.Items); var v := TimeOuts(all, clock);
        && PendingRequests.Items == Select(all, v, false)
        && Log == old(Log) + Completions(Select(all, v, true), BadTimeout)
      // in terms of the requests and the clock
      ensures forall c: Completion :: c in Log[|old(Log)|..] <==>
        && c.status == BadTimeout && c.request.hasCallback && !WithoutTimeout(c.request)
        && exists i :: 0 <= i < |old(PendingRequests.Items)| && old(PendingRequests.Items)[i] == c.request
             && (clock(i) - c.request.startTime) % TWO_TO_THE_32 >= c.request.operationTimeout
      ensures forall r :: r in old(PendingRequests.Items) && WithoutTimeout(r) ==> r in PendingRequests.Items
    {
      hide Linked, Stored, Swept, SweepOne, TimedOut;
      ghost var all, log, nodes := PendingRequests.Items, Log, PendingRequests.Nodes;
      ghost var v := TimeOuts(all, clock);
      ghost var s := Sweep(all, 0, log);
      var p := 0;
      SweptEnds(all, v, log, BadTimeout);
      SweptNext(all, v, log, BadTimeout, 0);
      var current := Start();
      while current.Some?
        invariant p <= |all| && Valid() && Within(nodes)
        invariant s == Swept(all, v, log, BadTimeout, p) && At(s)
        invariant current == UnderCursor(s) == if p < |all| then Some(all[p]) else None
        decreases |all| - p
      {
        SweptStep(all, v, log, BadTimeout, p);
        SweptNext(all, v, log, BadTimeout, p + 1);
        if TimedOut(current.value, clock(p)) {
          current := Expire(current.value, BadTimeout, s);
        } else {
          current := Skip(s);
        }
        s, p := Swept(all, v, log, BadTimeout, p + 1), p + 1;
      }
      WatchdogEffects(all, clock, log);
    }

    /** When the timer is deleted: calls back every request with BadDisconnect, in list order, and empties the list. */
    method WatchdogTimerKillCallback()
      requires Valid()
      modifies `Log, PendingRequests, PendingRequests.Nodes
      ensures Valid() && PendingRequests.Items == []
      ensures Log == old(Log) + Completions(old(PendingRequests.Items), BadDisconnect)
      ensures forall c: Completion :: c in Log[|old(Log)|..] <==>
        c.request in old(PendingRequests.Items) && c.request.hasCallback && c.status == BadDisconnect
    {
      hide Linked, Stored, Swept, SweepOne, Completions;
      ghost var all, log, nodes, p := PendingRequests.Items, Log, PendingRequests.Nodes, 0;
      ghost var v := seq(|all|, _ => true);
      ghost var s := Sweep(all, 0, log);
      SweptEnds(all, v, log, BadDisconnect);
      SweptNext(all, v, log, BadDisconnect, 0);
      AllSelected(all, v, |all|);
      var current := Start();
      while current.Some?
        invariant p <= |all| && Valid() && Within(nodes)
        invariant s == Swept(all, v, log, BadDisconnect, p) && At(s)
        invariant current == UnderCursor(s) == if p < |all| then Some(all[p]) else None
        decreases |all| - p
      {
        SweptStep(all, v, log, BadDisconnect, p);
        SweptNext(all, v, log, BadDisconnect, p + 1);
        current := Expire(current.value, BadDisconnect, s);
        s, p := Swept(all, v, log, BadDisconnect, p + 1), p + 1;
      }
      assert all[..|all|] == all;
      CancelEffects(all, BadDisconnect, log);
    }

    /** Completes the request under the cursor, then takes it out. */
    method Cancel(current: SecureRequest, status: Status, ghost s: Sweep) returns (next: Option<SecureRequest>)
      requires Valid() && At(s) && UnderCursor(s) == Some(current)
      modifies `Log, PendingRequests, PendingRequests.Nodes
      ensures Valid() && At(SweepOne(s, true, status)) && next == UnderCursor(SweepOne(s, true, status))
      ensures Within(old(PendingRequests.Nodes))
    {
      hide Linked;
      if current.hasCallback {
        Log := Log + [Completion(current, status)];
      }
      PendingRequests.DeleteCurrentElement();
      next := PendingRequests.GetCurrentElement();
    }

    /** Calls back every request with the status, in list order, and empties the list. */
    method CancelOpenRequests(status: Status)
      requires Valid()
      modifies `Log, PendingRequests, PendingRequests.Nodes
      ensures Valid() && PendingRequests.Items == []
      ensures Log == old(Log) + Completions(old(PendingRequests.Items), status)
      ensures forall c: Completion :: c in Log[|old(Log)|..] <==>
        c.request in old(PendingRequests.Items) && c.request.hasCallback && c.status == status
    {
      hide Linked, Stored, Swept, SweepOne, Completions;
      ghost var all, log, nodes, p := PendingRequests.Items, Log, PendingRequests.Nodes, 0;
      ghost var v := seq(|all|, _ => true);
      ghost var s := Sweep(all, 0, log);
      var nPendingRequests := PendingRequests.GetNumberOfElements();
      SweptEnds(all, v, log, status);
      SweptNext(all, v, log, status, 0);
      AllSelected(all, v, |all|);
      if nPendingRequests != 0 {
        var current := Start();
        while current.Some?
          invariant p <= |all| && Valid() && Within(nodes)
          invariant s == Swept(all, v, log, status, p) && At(s)
          invariant current == UnderCursor(s) == if p < |all| then Some(all[p]) else None
          decreases |all| - p
        {
          SweptStep(all, v, log, status, p);
          SweptNext(all, v, log, status, p + 1);
          current := Cancel(current.value, status, s);
          s, p := Swept(all, v, log, status, p + 1), p + 1;
        }
        assert all[..|all|] == all;
      }
      CancelEffects(all, status, log);
    }
  }
}
