/**
 Exactly-once completion of the requests of a client connection
 (Stack/securechannel/opcua_secureconnection.c): senders, response handlers, the watchdog and the
 final cancellation race for the entries of the pending list. Each critical section of the list lock
 is one step; so is each callback that is invoked outside of it.
 */
module Completions {
  import opened Basics
  import opened Lists
  import opened Filters
  import opened SecureConnections

  datatype State = State(
    pending: seq<SecureRequest>,
    /** Taken out by a response handler, which has yet to invoke the callback. */
    inHand: multiset<SecureRequest>,
    fired: seq<Completion>,
    /** Taken back by their own failing sender, or refused before they were stored. */
    withdrawn: multiset<SecureRequest>,
    /** Taken out by the handler of OpenSecureChannel responses and errors, which invokes the connection's
        own callback instead of the request's. */
    discarded: multiset<SecureRequest>,
    /** Stored by an EndSendRequest call that has not returned yet. */
    sending: set<SecureRequest>,
    issued: seq<SecureRequest>,
    /** The status that EndSendRequest returned for a call. */
    returned: map<SecureRequest, Status>)

  const INITIAL := State([], multiset{}, [], multiset{}, multiset{}, {}, [], map[])

  datatype Step =
    /** EndSendRequest in a state in which nothing can be sent. */
    | Refuse(r: SecureRequest)
    /** EndSendRequest stores the request. */
    | Store(r: SecureRequest)
    | SendSucceeds(r: SecureRequest)
    | SendFails(r: SecureRequest, status: Status)
    /** A complete or aborted response for a session call, or the connection is lost while one arrives. */
    | Answer(requestId: UInt32)
    | Fire(r: SecureRequest, status: Status)
    /** An OpenSecureChannel response, whose request id is the peer's choice and is looked up without
        regard to the type of the request found. */
    | OpenAnswer(requestId: UInt32)
    /** An error while an OpenSecureChannel response was expected. */
    | OpenError
    | Watchdog(clock: nat -> UInt32)
    /** CancelOpenRequests, and the kill callback of the watchdog timer. */
    | CancelOpenRequests(status: Status)

  predicate Bad(status: Status) {
    status != Good && status != GoodNonCriticalTimeout
  }

  /** The call is a new one. A request id may come again, but not while its last user is still pending or being sent. */
  ghost predicate MayIssue(s: State, r: SecureRequest) {
    && r.hasCallback
    && r !in s.issued
    && (forall q :: q in s.pending || q in s.sending ==> q.requestId != r.requestId)
  }

  ghost predicate Enabled(s: State, step: Step) {
    match step
    case Refuse(r) => MayIssue(s, r)
    case Store(r) => MayIssue(s, r)
    case SendSucceeds(r) => r in s.sending
    case SendFails(r, status) => r in s.sending && Bad(status)
    case Answer(_) => true
    case Fire(r, _) => r in s.inHand
    case OpenAnswer(_) => true
    case OpenError => true
    case Watchdog(_) => true
    case CancelOpenRequests(_) => true
  }

  function Bag(r: Option<SecureRequest>): multiset<SecureRequest> {
    if r.Some? then multiset{r.value} else multiset{}
  }

  function Do(s: State, step: Step): State
    requires Enabled(s, step)
  {
    match step
    case Refuse(r) =>
      s.(issued := s.issued + [r], withdrawn := s.withdrawn + multiset{r}, returned := s.returned[r := BadInvalidState])
    case Store(r) =>
      s.(issued := s.issued + [r], pending := [r] + s.pending, sending := s.sending + {r})
    case SendSucceeds(r) =>
      s.(sending := s.sending - {r}, returned := s.returned[r := Good])
    case SendFails(r, status) =>
      var (rest, found) := Take(s.pending, ById(r.requestId));
      s.(pending := rest, sending := s.sending - {r}, withdrawn := s.withdrawn + Bag(found),
         // when the request is gone already, the callback reports the status
         returned := s.returned[r := if found.Some? then status else Good])
    case Answer(id) =>
      var (rest, found) := Take(s.pending, ById(id));
      s.(pending := rest, inHand := s.inHand + Bag(found))
    case Fire(r, status) =>
      s.(inHand := s.inHand - multiset{r}, fired := s.fired + Completed(r, status))
    case OpenAnswer(id) =>
      var (rest, found) := Take(s.pending, ById(id));
      s.(pending := rest, discarded := s.discarded + Bag(found))
    case OpenError =>
      var (rest, found) := Take(s.pending, ByType(SecureChannelOpen));
      s.(pending := rest, discarded := s.discarded + Bag(found))
    case Watchdog(clock) =>
      var v := TimeOuts(s.pending, clock);
      s.(pending := Select(s.pending, v, false), fired := s.fired + Completions(Select(s.pending, v, true), BadTimeout))
    case CancelOpenRequests(status) =>
      s.(pending := [], fired := s.fired + Completions(s.pending, status))
  }

  ghost predicate Possible(s: State, steps: seq<Step>)
    decreases |steps|
  {
    steps == [] || (Enabled(s, steps[0]) && Possible(Do(s, steps[0]), steps[1..]))
  }

  function Run(s: State, steps: seq<Step>): State
    requires Possible(s, steps)
    decreases |steps|
  {
    if steps == [] then s else Run(Do(s, steps[0]), steps[1..])
  }

  // ----- counting -----

  /** How often the callback of a request was invoked. */
  function Firings(log: seq<Completion>, r: SecureRequest): nat {
    if log == [] then 0
    else Firings(log[..|log| - 1], r) + if log[|log| - 1].request == r then 1 else 0
  }

  lemma {:induction false} FiringsConcat(a: seq<Completion>, b: seq<Completion>, r: SecureRequest)
    ensures Firings(a + b, r) == Firings(a, r) + Firings(b, r)
  {
    if b == [] {
      assert a + b == a;
    } else {
      var init := b[..|b| - 1];
      FiringsConcat(a, init, r);
      assert (a + b)[..|a + b| - 1] == a + init;
    }
  }

  lemma FiringsOne(q: SecureRequest, status: Status, r: SecureRequest)
    requires q.hasCallback
    ensures Firings(Completed(q, status), r) == if q == r then 1 else 0
  {
    assert Completed(q, status)[..0] == [];
  }

  lemma {:induction false} FiringsOfCompletions(s: seq<SecureRequest>, status: Status, r: SecureRequest)
    requires forall q :: q in s ==> q.hasCallback
    ensures Firings(Completions(s, status), r) == multiset(s)[r]
  {
    hide Firings;
    if s == [] {
      assert Firings([], r) == 0 by { FiringsNone(r); }
    } else {
      var init, last := s[..|s| - 1], s[|s| - 1];
      FiringsOfCompletions(init, status, r);
      FiringsConcat(Completions(init, status), Completed(last, status), r);
      FiringsOne(last, status, r);
      assert s == init + [last];
    }
  }

  lemma FiringsNone(r: SecureRequest)
    ensures Firings([], r) == 0
  {
  }

  lemma {:induction false} SelectionsSplit(s: seq<SecureRequest>, v: seq<bool>, n: nat, r: SecureRequest)
    requires n <= |s| == |v|
    ensures multiset(s[..n])[r] == multiset(SelectFirst(s, v, true, n))[r] + multiset(SelectFirst(s, v, false, n))[r]
  {
    if n == 0 {
      assert s[..0] == [];
    } else {
      SelectionsSplit(s, v, n - 1, r);
      assert s[..n] == s[..n - 1] + [s[n - 1]];
      if v[n - 1] {
        assert SelectFirst(s, v, true, n) == SelectFirst(s, v, true, n - 1) + [s[n - 1]];
      } else {
        assert SelectFirst(s, v, false, n) == SelectFirst(s, v, false, n - 1) + [s[n - 1]];
      }
    }
  }

  lemma SelectedWereThere(s: seq<SecureRequest>, v: seq<bool>)
    requires |s| == |v|
    ensures forall q :: q in Select(s, v, false) || q in Select(s, v, true) ==> q in s
  {
    forall q
      ensures q in Select(s, v, false) || q in Select(s, v, true) ==> q in s
    {
      SelectMembers(s, v, true, q);
      SelectMembers(s, v, false, q);
    }
  }

  /** A watchdog pass divides the list, and completes what it takes out. */
  lemma WatchdogCounts(s: seq<SecureRequest>, v: seq<bool>, r: SecureRequest)
    requires |s| == |v| && forall q :: q in s ==> q.hasCallback
    ensures multiset(Select(s, v, false))[r] + Firings(Completions(Select(s, v, true), BadTimeout), r) == multiset(s)[r]
  {
    SelectionsSplit(s, v, |s|, r);
    assert s[..|s|] == s;
    SelectedWereThere(s, v);
    FiringsOfCompletions(Select(s, v, true), BadTimeout, r);
  }

  lemma TakeMembers(s: seq<SecureRequest>, m: Match)
    ensures var (rest, found) := Take(s, m);
      && (forall q :: q in rest ==> q in s)
      && (found.Some? ==> found.value in s && Matches(found.value, m))
      && (found.None? ==> forall q :: q in s ==> !Matches(q, m))
  {
  }

  lemma TakeCounts(s: seq<SecureRequest>, m: Match, r: SecureRequest)
    ensures var (rest, found) := Take(s, m); multiset(rest)[r] + Bag(found)[r] == multiset(s)[r]
  {
    var k := FirstMatch(s, m);
    if k < |s| {
      assert s == s[..k] + [s[k]] + s[k + 1..];
    }
  }

  // ----- the invariant -----

  /** In how many places a request is. */
  function Places(s: State, r: SecureRequest): nat {
    multiset(s.pending)[r] + s.inHand[r] + Firings(s.fired, r) + s.withdrawn[r] + s.discarded[r]
  }

  /** A request that was issued is in exactly one place, any other in none. */
  ghost predicate Conserved(s: State) {
    forall r :: Places(s, r) == if r in s.issued then 1 else 0
  }

  ghost predicate RequestsMatch(s: State) {
    && (forall q, r :: q in s.sending && r in s.pending && q.requestId == r.requestId ==> q == r)
    && (forall r :: r in s.issued ==> r.hasCallback)
  }

  ghost predicate StatusesMatch(s: State) {
    && (forall r :: r in s.sending ==> r in s.issued && r !in s.withdrawn && r !in s.returned)
    && (forall r :: r in s.issued && r !in s.sending ==> r in s.returned && (Bad(s.returned[r]) <==> r in s.withdrawn))
    && (forall r :: r in s.withdrawn ==> r in s.issued)
    && (forall r :: r in s.returned ==> r in s.issued)
  }

  ghost predicate Inv(s: State) {
    Conserved(s) && RequestsMatch(s) && StatusesMatch(s)
  }

  /** Each step moves requests from one place to another, and only issuing creates one. */
  lemma StepCounts(s: State, step: Step, r: SecureRequest)
    requires Inv(s) && Enabled(s, step)
    ensures Places(Do(s, step), r) == Places(s, r) + if (step.Store? || step.Refuse?) && step.r == r then 1 else 0
  {
    hide RequestsMatch, StatusesMatch, Firings, Conserved, Completions, FirstMatch, Take;
    HaveCallbacks(s);
    match step {
      case Refuse(_) =>
      case Store(_) =>
      case SendSucceeds(_) =>
      case SendFails(q, _) => TakeCounts(s.pending, ById(q.requestId), r);
      case Answer(id) => TakeCounts(s.pending, ById(id), r);
      case Fire(q, status) =>
        FiringsConcat(s.fired, Completed(q, status), r);
        FiringsOne(q, status, r);
      case OpenAnswer(id) => TakeCounts(s.pending, ById(id), r);
      case OpenError => TakeCounts(s.pending, ByType(SecureChannelOpen), r);
      case Watchdog(clock) =>
        var v := TimeOuts(s.pending, clock);
        WatchdogCounts(s.pending, v, r);
        FiringsConcat(s.fired, Completions(Select(s.pending, v, true), BadTimeout), r);
      case CancelOpenRequests(status) =>
        FiringsConcat(s.fired, Completions(s.pending, status), r);
        FiringsOfCompletions(s.pending, status, r);
    }
  }

  lemma HaveCallbacks(s: State)
    requires Inv(s)
    ensures forall q :: q in s.pending || q in s.inHand ==> q.hasCallback
  {
  }

  lemma StepConserves(s: State, step: Step)
    requires Inv(s) && Enabled(s, step)
    ensures Conserved(Do(s, step))
  {
    hide Places;
    var t := Do(s, step);
    assert t.issued == if step.Store? || step.Refuse? then s.issued + [step.r] else s.issued;
    forall r
      ensures Places(t, r) == if r in t.issued then 1 else 0
    {
      StepCounts(s, step, r);
      assert Places(s, r) == if r in s.issued then 1 else 0;
      if step.Store? || step.Refuse? {
        assert step.r !in s.issued;
      }
    }
  }

  lemma RequestsShrink(s: State, t: State)
    requires RequestsMatch(s) && t.issued == s.issued && t.sending <= s.sending
    requires forall r :: r in t.pending ==> r in s.pending
    ensures RequestsMatch(t)
  {
  }

  lemma IssueKeepsRequests(s: State, step: Step)
    requires RequestsMatch(s) && Enabled(s, step) && (step.Store? || step.Refuse?)
    ensures RequestsMatch(Do(s, step))
  {
  }

  lemma RemovalKeepsRequests(s: State, step: Step)
    requires RequestsMatch(s) && Enabled(s, step)
    requires step.SendFails? || step.Answer? || step.OpenAnswer? || step.OpenError?
    ensures RequestsMatch(Do(s, step))
  {
    hide RequestsMatch, Take;
    var m := if step.SendFails? then ById(step.r.requestId) else if step.OpenError? then ByType(SecureChannelOpen) else ById(step.requestId);
    TakeMembers(s.pending, m);
    RequestsShrink(s, Do(s, step));
  }

  lemma StepKeepsRequests(s: State, step: Step)
    requires RequestsMatch(s) && Enabled(s, step)
    ensures RequestsMatch(Do(s, step))
  {
    hide RequestsMatch, Completions, Take, Select;
    match step {
      case Refuse(_) => IssueKeepsRequests(s, step);
      case Store(_) => IssueKeepsRequests(s, step);
      case SendSucceeds(_) => RequestsShrink(s, Do(s, step));
      case Fire(_, _) => RequestsShrink(s, Do(s, step));
      case Watchdog(clock) =>
        SelectedWereThere(s.pending, TimeOuts(s.pending, clock));
        RequestsShrink(s, Do(s, step));
      case CancelOpenRequests(_) => RequestsShrink(s, Do(s, step));
      case _ => RemovalKeepsRequests(s, step);
    }
  }

  /** A sender that returns: its status is recorded, the statuses of the other calls stay. */
  lemma ReturnKeepsStatuses(s: State, t: State, q: SecureRequest, status: Status)
    requires StatusesMatch(s) && q in s.sending
    requires t.issued == s.issued && t.sending == s.sending - {q} && t.returned == s.returned[q := status]
    requires t.withdrawn == s.withdrawn + if Bad(status) then multiset{q} else multiset{}
    ensures StatusesMatch(t)
  {
  }

  /** A new call, which is stored, or refused and has returned. */
  lemma IssueKeepsStatuses(s: State, step: Step)
    requires Inv(s) && Enabled(s, step) && (step.Store? || step.Refuse?)
    ensures StatusesMatch(Do(s, step))
  {
    hide Conserved, RequestsMatch;
    var t := Do(s, step);
    assert t.issued[|s.issued|] == step.r;
    assert forall r :: r in t.issued <==> r in s.issued || r == step.r;
  }

  lemma StepKeepsStatuses(s: State, step: Step)
    requires Inv(s) && Enabled(s, step)
    ensures StatusesMatch(Do(s, step))
  {
    hide StatusesMatch, Completions, Take, Places, Select, Conserved, RequestsMatch;
    var t := Do(s, step);
    match step {
      case Refuse(_) => IssueKeepsStatuses(s, step);
      case Store(_) => IssueKeepsStatuses(s, step);
      case SendSucceeds(q) => ReturnKeepsStatuses(s, t, q, Good);
      case SendFails(q, status) =>
        var found := Take(s.pending, ById(q.requestId)).1;
        FoundIsOwn(s, q);
        ReturnKeepsStatuses(s, t, q, if found.Some? then status else Good);
      case _ => StatusesUntouched(s, t);
    }
  }

  lemma StatusesUntouched(s: State, t: State)
    requires StatusesMatch(s)
    requires t.issued == s.issued && t.sending == s.sending && t.returned == s.returned && t.withdrawn == s.withdrawn
    ensures StatusesMatch(t)
  {
  }

  lemma StepKeepsInv(s: State, step: Step)
    requires Inv(s) && Enabled(s, step)
    ensures Inv(Do(s, step))
  {
    hide Do, Enabled, Conserved, RequestsMatch, StatusesMatch;
    StepConserves(s, step);
    StepKeepsRequests(s, step);
    StepKeepsStatuses(s, step);
  }

  /** A failing sender finds its own request or none. */
  lemma FoundIsOwn(s: State, q: SecureRequest)
    requires RequestsMatch(s) && q in s.sending
    ensures var found := Take(s.pending, ById(q.requestId)).1; found.Some? ==> found.value == q
  {
  }

  lemma {:induction false} RunKeepsInv(s: State, steps: seq<Step>)
    requires Inv(s) && Possible(s, steps)
    ensures Inv(Run(s, steps))
    decreases |steps|
  {
    if steps == [] {
    } else {
      hide Do, Enabled, Inv;
      StepKeepsInv(s, steps[0]);
      RunKeepsInv(Do(s, steps[0]), steps[1..]);
    }
  }

  lemma InitialInv()
    ensures Inv(INITIAL)
  {
  }

  /** Every run from the start keeps the invariant. */
  lemma RunFromStart(steps: seq<Step>)
    requires Possible(INITIAL, steps)
    ensures Inv(Run(INITIAL, steps))
  {
    hide Inv, Do, Enabled;
    InitialInv();
    RunKeepsInv(INITIAL, steps);
  }

  // ----- which request, and which status -----

  /** Pending requests have different ids. */
  ghost predicate IdsTellApart(s: State) {
    forall q, r :: q in s.pending && r in s.pending && q.requestId == r.requestId ==> q == r
  }

  lemma StepKeepsIds(s: State, step: Step)
    requires IdsTellApart(s) && Enabled(s, step)
    ensures IdsTellApart(Do(s, step))
  {
    hide Completions, Take, Select;
    match step {
      case SendFails(r, _) => TakeMembers(s.pending, ById(r.requestId));
      case Answer(id) => TakeMembers(s.pending, ById(id));
      case OpenAnswer(id) => TakeMembers(s.pending, ById(id));
      case OpenError => TakeMembers(s.pending, ByType(SecureChannelOpen));
      case Watchdog(clock) => SelectedWereThere(s.pending, TimeOuts(s.pending, clock));
      case _ =>
    }
  }

  lemma {:induction false} RunKeepsIds(s: State, steps: seq<Step>)
    requires IdsTellApart(s) && Possible(s, steps)
    ensures IdsTellApart(Run(s, steps))
    decreases |steps|
  {
    hide IdsTellApart, Do, Enabled;
    if steps == [] {
    } else {
      StepKeepsIds(s, steps[0]);
      RunKeepsIds(Do(s, steps[0]), steps[1..]);
    }
  }

  /** Over any interleaving, a response gets the pending request with its id and no other: the request is in the hand of
      the handler afterwards and not pending any more, and the others are where they were. Without such a request nothing
      happens. */
  lemma AnswerFindsItsRequest(steps: seq<Step>, id: UInt32, r: SecureRequest)
    requires Possible(INITIAL, steps)
    ensures var s := Run(INITIAL, steps); var t := Do(s, Answer(id));
      && (r in s.pending && r.requestId == id ==> r !in t.pending && t.inHand == s.inHand + multiset{r})
      && (r.requestId != id ==> (r in t.pending <==> r in s.pending) && t.inHand[r] == s.inHand[r])
      && ((forall q :: q in s.pending ==> q.requestId != id) ==> t == s)
  {
    hide Inv, Run, Take, Places;
    RunFromStart(steps);
    RunKeepsIds(INITIAL, steps);
    var s := Run(INITIAL, steps);
    TakenOnce(s, ById(id), r);
  }

  lemma TakenOnce(s: State, m: Match, r: SecureRequest)
    requires Inv(s) && IdsTellApart(s) && m.ById?
    ensures var (rest, found) := Take(s.pending, m);
      && (r in s.pending && r.requestId == m.requestId ==> found == Some(r) && r !in rest)
      && (r.requestId != m.requestId ==> (r in rest <==> r in s.pending) && Bag(found)[r] == 0)
      && ((forall q :: q in s.pending ==> q.requestId != m.requestId) ==> rest == s.pending && found == None)
  {
    hide Take, Places, RequestsMatch, StatusesMatch;
    TakesExactly(s.pending, m);
    TakeMembers(s.pending, m);
    TakeCounts(s.pending, m, r);
    var (rest, found) := Take(s.pending, m);
    assert Places(s, r) == if r in s.issued then 1 else 0;
    assert multiset(s.pending)[r] <= 1 by { PendingOnce(s, r); }
    assert r in rest <==> multiset(rest)[r] > 0;
    assert r in s.pending <==> multiset(s.pending)[r] > 0;
  }

  lemma PendingOnce(s: State, r: SecureRequest)
    requires Inv(s)
    ensures multiset(s.pending)[r] <= 1
  {
    assert Places(s, r) == if r in s.issued then 1 else 0;
  }

  /** An error while an OpenSecureChannel response was expected takes out a pending OpenSecureChannel request exactly when
      there is one, and never a session call. */
  lemma OpenErrorTakesOpenRequest(s: State, r: SecureRequest)
    ensures var t := Do(s, OpenError);
      && ((exists q :: q in s.pending && q.kind == SecureChannelOpen) <==> t.pending != s.pending)
      && (r.kind == SessionCall ==> multiset(t.pending)[r] == multiset(s.pending)[r])
      && t.inHand == s.inHand && t.fired == s.fired
  {
    hide Take;
    TakesExactly(s.pending, ByType(SecureChannelOpen));
    TakeCounts(s.pending, ByType(SecureChannelOpen), r);
    var (rest, found) := Take(s.pending, ByType(SecureChannelOpen));
    assert found.Some? ==> |rest| < |s.pending|;
  }

  /** Which callbacks a step may invoke, and with which status: a handler its own one; the watchdog those of pending
      requests whose timeout has passed, with BadTimeout; a cancellation those of all pending requests, with its status. */
  ghost predicate MayComplete(s: State, step: Step, c: Completion) {
    match step
    case Fire(r, status) => c == Completion(r, status)
    case Watchdog(clock) =>
      && c.status == BadTimeout && !WithoutTimeout(c.request)
      && exists i :: 0 <= i < |s.pending| && s.pending[i] == c.request
           && (clock(i) - c.request.startTime) % TWO_TO_THE_32 >= c.request.operationTimeout
    case CancelOpenRequests(status) => c.request in s.pending && c.status == status
    case _ => false
  }

  /** Those are the callbacks that a step adds to the invoked ones. */
  lemma CallbackStatuses(s: State, step: Step, c: Completion)
    requires Enabled(s, step)
    ensures s.fired <= Do(s, step).fired
    ensures c in Do(s, step).fired[|s.fired|..] <==> c.request.hasCallback && MayComplete(s, step, c)
  {
    hide Completions, Take, Select;
    match step {
      case Fire(r, status) => assert (s.fired + Completed(r, status))[|s.fired|..] == Completed(r, status);
      case Watchdog(clock) =>
        var more := Completions(Select(s.pending, TimeOuts(s.pending, clock), true), BadTimeout);
        WatchdogCompletes(s.pending, clock, c);
        assert (s.fired + more)[|s.fired|..] == more;
      case CancelOpenRequests(status) =>
        CompletionsExact(s.pending, status, c);
        assert (s.fired + Completions(s.pending, status))[|s.fired|..] == Completions(s.pending, status);
      case _ =>
    }
  }

  // ----- when a session request is accounted for -----

  /** The step is an OpenSecureChannel response whose id finds this request first. */
  predicate Takes(s: State, step: Step, r: SecureRequest) {
    step.OpenAnswer? && Take(s.pending, ById(step.requestId)).1 == Some(r)
  }

  /** Some OpenSecureChannel response of the run was taken for this request. */
  ghost predicate TakenByOpenAnswer(s: State, steps: seq<Step>, r: SecureRequest)
    requires Possible(s, steps)
    decreases |steps|
  {
    steps != [] && (Takes(s, steps[0], r) || TakenByOpenAnswer(Do(s, steps[0]), steps[1..], r))
  }

  lemma StepDiscards(s: State, step: Step, r: SecureRequest)
    requires Enabled(s, step) && r.kind == SessionCall
    ensures r in Do(s, step).discarded <==> r in s.discarded || Takes(s, step, r)
  {
    hide Completions, Firings, Select;
  }

  /** A session request is discarded exactly when it was taken for an OpenSecureChannel request. */
  lemma {:induction false} RunDiscards(s: State, steps: seq<Step>, r: SecureRequest)
    requires Possible(s, steps) && r.kind == SessionCall
    ensures r in Run(s, steps).discarded <==> r in s.discarded || TakenByOpenAnswer(s, steps, r)
    decreases |steps|
  {
    if steps == [] {
    } else {
      hide Do, Enabled, Takes;
      StepDiscards(s, steps[0], r);
      RunDiscards(Do(s, steps[0]), steps[1..], r);
    }
  }

  /** The sender was told that sending failed. */
  predicate Refused(s: State, r: SecureRequest) {
    r in s.returned && Bad(s.returned[r])
  }

  /** Exactly once: the callback never fires when the sender was told of the failure; else the request is pending,
      or in the hand of the handler that will invoke the callback, or the callback was invoked, and only once. */
  predicate AccountedFor(s: State, r: SecureRequest) {
    multiset(s.pending)[r] + s.inHand[r] + Firings(s.fired, r) == if Refused(s, r) then 0 else 1
  }

  /** What the invariant says about one request. */
  lemma IssuedRequest(s: State, r: SecureRequest)
    requires Inv(s) && r in s.issued
    ensures multiset(s.pending)[r] + s.inHand[r] + Firings(s.fired, r) + s.withdrawn[r] + s.discarded[r] == 1
    ensures r !in s.sending ==> r in s.returned
    ensures Refused(s, r) <==> s.withdrawn[r] == 1
  {
    assert Places(s, r) == 1;
    assert r in s.sending ==> s.withdrawn[r] == 0 && r !in s.returned;
  }

  /** Over any interleaving, the callback of a session request is invoked at most once, and the request is accounted
      for if and only if no OpenSecureChannel response of the run was taken for it. */
  lemma AccountedForExactlyWhen(steps: seq<Step>, r: SecureRequest)
    requires Possible(INITIAL, steps)
    requires r in Run(INITIAL, steps).issued && r.kind == SessionCall
    ensures Firings(Run(INITIAL, steps).fired, r) <= 1
    ensures AccountedFor(Run(INITIAL, steps), r) <==> !TakenByOpenAnswer(INITIAL, steps, r)
  {
    hide Inv, Do, Enabled, Firings, Refused, Run, TakenByOpenAnswer;
    RunFromStart(steps);
    IssuedRequest(Run(INITIAL, steps), r);
    RunDiscards(INITIAL, steps, r);
  }

  /** The run that fails: a call is sent, and the peer answers with an OpenSecureChannel response that carries the
      call's id. EndSendRequest returned Good, nothing will ever invoke the callback. */
  lemma MisaddressedOpenAnswer(r: SecureRequest)
    requires r.kind == SessionCall && r.hasCallback
    ensures var steps := [Store(r), SendSucceeds(r), OpenAnswer(r.requestId)];
      && Possible(INITIAL, steps)
      && var s := Run(INITIAL, steps);
        r in s.issued && r in s.returned && s.returned[r] == Good && s.pending == [] && s.inHand == multiset{} && s.fired == []
  {
    var a := Do(INITIAL, Store(r));
    var b := Do(a, SendSucceeds(r));
    var c := Do(b, OpenAnswer(r.requestId));
    assert a.pending == [r] == b.pending;
    assert FirstMatch([r], ById(r.requestId)) == 0 && RemoveAt([r], 0) == [];
    var steps := [Store(r), SendSucceeds(r), OpenAnswer(r.requestId)];
    assert steps[1..] == [SendSucceeds(r), OpenAnswer(r.requestId)] && steps[1..][1..] == [OpenAnswer(r.requestId)];
    assert steps[1..][1..][1..] == [];
    hide Do, Enabled;
    assert Possible(c, []) && Run(c, []) == c;
    assert Possible(b, [OpenAnswer(r.requestId)]) && Run(b, [OpenAnswer(r.requestId)]) == c;
    assert Possible(a, steps[1..]) && Run(a, steps[1..]) == c;
  }

  /** Every OpenSecureChannel response of the run carries the id of an OpenSecureChannel request, or of none. */
  ghost predicate WellAddressed(s: State, steps: seq<Step>)
    requires Possible(s, steps)
    decreases |steps|
  {
    steps == [] ||
      (&& (steps[0].OpenAnswer? ==>
            var found := Take(s.pending, ById(steps[0].requestId)).1; found.Some? ==> found.value.kind == SecureChannelOpen)
       && WellAddressed(Do(s, steps[0]), steps[1..]))
  }

  lemma {:induction false} WellAddressedTakesNone(s: State, steps: seq<Step>, r: SecureRequest)
    requires Possible(s, steps) && WellAddressed(s, steps) && r.kind == SessionCall
    ensures !TakenByOpenAnswer(s, steps, r)
    decreases |steps|
  {
    if steps == [] {
    } else {
      hide Do, Enabled;
      WellAddressedTakesNone(Do(s, steps[0]), steps[1..], r);
    }
  }

  /** With a peer that addresses its OpenSecureChannel responses properly: the callback of a session request is invoked
      at most once; never when EndSendRequest returned a bad status; and when it returned a good one, the request is
      still pending, or in hand, or the callback was invoked. */
  lemma CompletedExactlyOnce(steps: seq<Step>, r: SecureRequest)
    requires Possible(INITIAL, steps) && WellAddressed(INITIAL, steps)
    requires r in Run(INITIAL, steps).issued && r.kind == SessionCall
    ensures var s := Run(INITIAL, steps);
      && Firings(s.fired, r) <= 1
      && (r in s.returned && Bad(s.returned[r]) ==> Firings(s.fired, r) == 0 && r !in s.pending && r !in s.inHand)
      && (r in s.returned && !Bad(s.returned[r]) ==>
            multiset(s.pending)[r] + s.inHand[r] + Firings(s.fired, r) == 1)
  {
    hide Do, Enabled, Firings, Run, TakenByOpenAnswer, WellAddressed;
    AccountedForExactlyWhen(steps, r);
    WellAddressedTakesNone(INITIAL, steps, r);
  }

  // ----- cancelling -----

  /** Right after all pending requests were cancelled, whatever senders and handlers are under way: none is pending, and
      each session request was answered, is in the hand of its handler, was withdrawn, or was taken for another. */
  lemma CancelLeavesNonePending(steps: seq<Step>, status: Status, r: SecureRequest)
    requires Possible(INITIAL, steps) && r in Run(INITIAL, steps).issued
    ensures var s := Do(Run(INITIAL, steps), CancelOpenRequests(status));
      s.pending == [] && s.inHand[r] + Firings(s.fired, r) + s.withdrawn[r] + s.discarded[r] == 1
  {
    hide Inv, Firings, Run;
    RunFromStart(steps);
    var s, cancel := Run(INITIAL, steps), CancelOpenRequests(status);
    StepKeepsInv(s, cancel);
    IssuedRequest(Do(s, cancel), r);
  }

  /** No EndSendRequest call begins any more. */
  predicate NoneNew(steps: seq<Step>) {
    forall i :: 0 <= i < |steps| ==> !steps[i].Store? && !steps[i].Refuse?
  }

  lemma StepNoneNew(s: State, step: Step)
    requires Enabled(s, step) && !step.Store? && !step.Refuse? && s.pending == []
    ensures Do(s, step).pending == [] && Do(s, step).issued == s.issued
  {
    hide Completions, Firings;
  }

  lemma {:induction false} RunNoneNew(s: State, steps: seq<Step>)
    requires Possible(s, steps) && NoneNew(steps) && s.pending == []
    ensures Run(s, steps).pending == [] && Run(s, steps).issued == s.issued
    decreases |steps|
  {
    if steps == [] {
    } else {
      hide Do, Enabled;
      StepNoneNew(s, steps[0]);
      RunNoneNew(Do(s, steps[0]), steps[1..]);
    }
  }

  lemma {:induction false} RunConcat(s: State, first: seq<Step>, rest: seq<Step>)
    requires Possible(s, first + rest)
    ensures Possible(s, first) && Possible(Run(s, first), rest) && Run(s, first + rest) == Run(Run(s, first), rest)
    decreases |first|
  {
    hide Do, Enabled;
    if first == [] {
      assert first + rest == rest;
    } else {
      assert (first + rest)[1..] == first[1..] + rest;
      RunConcat(Do(s, first[0]), first[1..], rest);
    }
  }

  /** Once everything pending was cancelled and no call begins any more, in every continuation: when the last sender has
      returned and the last handler has invoked its callback, each session request was answered once, unless its
      sender was told of the failure or an OpenSecureChannel response was taken for it. */
  lemma DeleteLeavesNoneUnanswered(before: seq<Step>, status: Status, after: seq<Step>, r: SecureRequest)
    requires Possible(INITIAL, before + ([CancelOpenRequests(status)] + after)) && NoneNew(after)
    requires var s := Run(INITIAL, before + ([CancelOpenRequests(status)] + after));
      r in s.issued && r.kind == SessionCall && s.sending == {} && s.inHand == multiset{}
    ensures var steps := before + ([CancelOpenRequests(status)] + after); var s := Run(INITIAL, steps);
      && s.pending == [] && r in s.returned
      && Firings(s.fired, r) == if Bad(s.returned[r]) || TakenByOpenAnswer(INITIAL, steps, r) then 0 else 1
  {
    hide Inv, Do, Enabled, Firings, TakenByOpenAnswer;
    var rest := [CancelOpenRequests(status)] + after;
    var steps := before + rest;
    RunConcat(INITIAL, before, rest);
    var t := Run(INITIAL, before);
    assert rest[1..] == after;
    CancelEmpties(t, status);
    RunNoneNew(Do(t, CancelOpenRequests(status)), after);
    RunFromStart(steps);
    IssuedRequest(Run(INITIAL, steps), r);
    RunDiscards(INITIAL, steps, r);
  }

  lemma CancelEmpties(s: State, status: Status)
    ensures Enabled(s, CancelOpenRequests(status)) && Do(s, CancelOpenRequests(status)).pending == []
  {
  }
}
