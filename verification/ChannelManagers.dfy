/**
 The server's channel manager, Stack/securechannel/opcua_securelistener_channelmanager.c: a locked
 list of secure channels, handed out with a reference count and aged by a watchdog timer. Each method
 is one critical section of the list lock.
 */
module ChannelManagers {
  import opened Basics
  import opened Lists
  import opened Filters
  import opened SecureChannels

  // ----- aging one channel, as a value -----

  /** The part of a channel that a timer pass reads and writes. */
  datatype Aging = Aging(state: ChannelState, expiration: UInt32, overlap: UInt32, refs: nat)

  datatype Kind = Kept | Dropped | Expired

  datatype Verdict = Verdict(kind: Kind, after: Aging)

  /** One watchdog tick for one channel. */
  function Tick(a: Aging): Verdict {
    if a.state == Closed && a.refs == 0 then Verdict(Dropped, a)
    else if a.state == Opened then
      if a.expiration != 0 then Verdict(Kept, a.(expiration := a.expiration - 1))
      else if a.overlap != 0 then Verdict(Kept, a.(overlap := a.overlap - 1))
      else if a.refs == 0 then Verdict(Expired, a)
      else Verdict(Kept, a.(state := Closed))
    else
      if a.overlap != 0 then Verdict(Kept, a.(overlap := a.overlap - 1))
      else if a.refs == 0 then Verdict(Expired, a)
      else Verdict(Kept, a)
  }

  ghost function AgingOf(c: SecureChannel): Aging
    reads c
  {
    Aging(c.State, c.uExpirationCounter, c.uOverlapCounter, c.uRefCount)
  }

  ghost function Agings(channels: seq<SecureChannel>): (agings: seq<Aging>)
    reads channels
    ensures |agings| == |channels| && forall i :: 0 <= i < |agings| ==> agings[i] == AgingOf(channels[i])
  {
    seq(|channels|, i requires 0 <= i < |channels| reads channels => AgingOf(channels[i]))
  }

  /** What one pass does with each channel. */
  function Kinds(agings: seq<Aging>): (kinds: seq<Kind>)
    ensures |kinds| == |agings| && forall i :: 0 <= i < |kinds| ==> kinds[i] == Tick(agings[i]).kind
  {
    seq(|agings|, i requires 0 <= i < |agings| => Tick(agings[i]).kind)
  }

  lemma {:induction false} SelectionsPartition<X>(s: seq<X>, kinds: seq<Kind>, n: nat)
    requires n <= |s| == |kinds|
    ensures multiset(s[..n]) == multiset(SelectFirst(s, kinds, Kept, n)) +
      multiset(SelectFirst(s, kinds, Dropped, n)) + multiset(SelectFirst(s, kinds, Expired, n))
  {
    if n == 0 {
    } else {
      SelectionsPartition(s, kinds, n - 1);
      assert s[..n] == s[..n - 1] + [s[n - 1]];
      match kinds[n - 1] {
        case Kept =>
        case Dropped =>
        case Expired =>
      }
    }
  }

  /** Nothing is lost and nothing is invented: kept, dropped and expired channels make up the list. */
  lemma PassIsPartition<X>(s: seq<X>, kinds: seq<Kind>)
    requires |s| == |kinds|
    ensures multiset(s) == multiset(Select(s, kinds, Kept)) + multiset(Select(s, kinds, Dropped)) + multiset(Select(s, kinds, Expired))
  {
    SelectionsPartition(s, kinds, |s|);
    assert s[..|s|] == s;
  }

  // ----- what the outside sees -----

  datatype Event = Notified(channel: SecureChannel) | Deleted(channel: SecureChannel)

  function Deletions(channels: seq<SecureChannel>): seq<Event> {
    if channels == [] then []
    else Deletions(channels[..|channels| - 1]) + [Deleted(channels[|channels| - 1])]
  }

  /** Each expired channel is reported to the owner and then deleted, one after the other. */
  function Notifications(channels: seq<SecureChannel>): seq<Event> {
    if channels == [] then []
    else Notifications(channels[..|channels| - 1]) + [Notified(channels[|channels| - 1]), Deleted(channels[|channels| - 1])]
  }

  /** A pass removes a channel exactly when nobody holds it and it is closed or all its ticks are used up. */
  lemma PassKeepsReferenced(a: Aging)
    ensures Tick(a).kind != Kept <==> a.refs == 0 && (a.state == Closed || (a.overlap == 0 && (a.state == Opened ==> a.expiration == 0)))
    ensures Tick(a).after.refs == a.refs
  {
  }

  lemma {:induction false} DeletedExactly(channels: seq<SecureChannel>, c: SecureChannel)
    ensures Deleted(c) in Deletions(channels) <==> c in channels
    ensures Deleted(c) in Notifications(channels) <==> c in channels
  {
    if channels == [] {
    } else {
      var last := |channels| - 1;
      DeletedExactly(channels[..last], c);
      assert channels == channels[..last] + [channels[last]];
    }
  }

  /** A channel that a pass deletes is not among those it keeps. */
  lemma RemovedIsNotKept(channels: seq<SecureChannel>, kinds: seq<Kind>, c: SecureChannel)
    requires |channels| == |kinds| && Distinct(channels)
    requires Deleted(c) in Deletions(Select(channels, kinds, Dropped)) + Notifications(Select(channels, kinds, Expired))
    ensures c in channels && c !in Select(channels, kinds, Kept)
  {
    DeletedExactly(Select(channels, kinds, Dropped), c);
    DeletedExactly(Select(channels, kinds, Expired), c);
    SelectMembers(channels, kinds, Dropped, c);
    SelectMembers(channels, kinds, Expired, c);
    SelectMembers(channels, kinds, Kept, c);
  }

  // ----- who is reported, who is deleted silently -----

  /** Nobody holds the channel, it was not closed, and no tick is left to it. */
  predicate RanOut(a: Aging) {
    a.refs == 0 && a.state != Closed && a.overlap == 0 && (a.state == Opened ==> a.expiration == 0)
  }

  lemma {:induction false} NotifiedExactly(channels: seq<SecureChannel>, c: SecureChannel)
    ensures Notified(c) !in Deletions(channels)
    ensures Notified(c) in Notifications(channels) <==> c in channels
  {
    if channels == [] {
    } else {
      var last := |channels| - 1;
      NotifiedExactly(channels[..last], c);
      assert channels == channels[..last] + [channels[last]];
    }
  }

  /** The events of a pass: the owner is told of exactly the channels that ran out, and exactly those and the closed
      channels without handles are deleted. */
  ghost predicate ReportedExactly(channels: seq<SecureChannel>, agings: seq<Aging>, events: seq<Event>)
    requires |channels| == |agings|
  {
    && (forall i :: 0 <= i < |channels| ==>
          && (Notified(channels[i]) in events <==> RanOut(agings[i]))
          && (Deleted(channels[i]) in events <==> RanOut(agings[i]) || (agings[i].refs == 0 && agings[i].state == Closed)))
    && (forall e :: e in events ==> e.channel in channels)
  }

  /** How a pass changes a channel: the expiration counter of an open channel runs down first; then, and of a channel that
      is not open at once, the overlap counter; an open channel that ran out but is still held is closed. */
  ghost predicate Stepped(a: Aging, b: Aging) {
    var expiring, removed := a.state == Opened && a.expiration > 0, a.state == Closed && a.refs == 0;
    && b.refs == a.refs
    && b.expiration == (if expiring then a.expiration - 1 else a.expiration)
    && b.overlap == (if expiring || removed || a.overlap == 0 then a.overlap else a.overlap - 1)
    && b.state == (if a.state == Opened && a.expiration == a.overlap == 0 && a.refs > 0 then Closed else a.state)
  }

  lemma TicksStep(agings: seq<Aging>)
    ensures forall i :: 0 <= i < |agings| ==> Stepped(agings[i], Tick(agings[i]).after)
  {
  }

  /** Each event occurs once, a report is directly followed by the deletion, and both kinds of deletion go in list order. */
  ghost predicate Orderly(channels: seq<SecureChannel>, events: seq<Event>) {
    && Distinct(events)
    && (forall p :: 0 <= p < |events| && events[p].Notified? ==> p + 1 < |events| && events[p + 1] == Deleted(events[p].channel))
    && (forall p, q :: 0 <= p < q < |events| && events[p].Notified? && events[q].Notified? ==>
          IndexOf(channels, events[p].channel) < IndexOf(channels, events[q].channel))
    && (forall p, q :: 0 <= p < q < |events| && Silent(events, p) && Silent(events, q) ==>
          IndexOf(channels, events[p].channel) < IndexOf(channels, events[q].channel))
  }

  /** A deletion without a report before it. */
  predicate Silent(events: seq<Event>, p: nat)
    requires p < |events|
  {
    events[p].Deleted? && (p == 0 || events[p - 1] != Notified(events[p].channel))
  }

  function Removals(channels: seq<SecureChannel>, kinds: seq<Kind>): seq<Event>
    requires |channels| == |kinds|
  {
    Deletions(Select(channels, kinds, Dropped)) + Notifications(Select(channels, kinds, Expired))
  }

  /** The verdict on a channel decides where it is after the pass and what is said about it. */
  lemma FateOf(channels: seq<SecureChannel>, kinds: seq<Kind>, i: nat)
    requires Distinct(channels) && i < |channels| == |kinds|
    ensures var c, events := channels[i], Removals(channels, kinds);
      && (Notified(c) in events <==> kinds[i] == Expired)
      && (Deleted(c) in events <==> kinds[i] != Kept)
      && (c in Select(channels, kinds, Kept) <==> kinds[i] == Kept)
  {
    hide Select, Deletions, Notifications;
    var c, dropped, expired := channels[i], Select(channels, kinds, Dropped), Select(channels, kinds, Expired);
    NotifiedExactly(dropped, c);
    NotifiedExactly(expired, c);
    DeletedExactly(dropped, c);
    DeletedExactly(expired, c);
    SelectMembers(channels, kinds, Dropped, c);
    SelectMembers(channels, kinds, Expired, c);
    SelectMembers(channels, kinds, Kept, c);
    assert forall j :: 0 <= j < |channels| && channels[j] == c ==> j == i;
  }

  lemma EventsAreOfChannels(channels: seq<SecureChannel>, kinds: seq<Kind>, e: Event)
    requires |channels| == |kinds| && e in Removals(channels, kinds)
    ensures e.channel in channels
  {
    hide Select, Deletions, Notifications;
    var c, dropped, expired := e.channel, Select(channels, kinds, Dropped), Select(channels, kinds, Expired);
    assert e == Notified(c) || e == Deleted(c) by {
      match e {
        case Notified(_) =>
        case Deleted(_) =>
      }
    }
    NotifiedExactly(dropped, c);
    NotifiedExactly(expired, c);
    DeletedExactly(dropped, c);
    DeletedExactly(expired, c);
    SelectMembers(channels, kinds, Dropped, c);
    SelectMembers(channels, kinds, Expired, c);
  }

  lemma TickVerdict(a: Aging)
    ensures Tick(a).kind == Expired <==> RanOut(a)
    ensures Tick(a).kind == Dropped <==> a.refs == 0 && a.state == Closed
  {
  }

  lemma PassReports(channels: seq<SecureChannel>, agings: seq<Aging>)
    requires Distinct(channels) && |channels| == |agings|
    ensures ReportedExactly(channels, agings, Removals(channels, Kinds(agings)))
    ensures forall c :: c in channels ==> (c in Select(channels, Kinds(agings), Kept) <==> Deleted(c) !in Removals(channels, Kinds(agings)))
  {
    hide Select, Removals, RanOut, Tick;
    var kinds := Kinds(agings);
    var events := Removals(channels, kinds);
    forall e | e in events
      ensures e.channel in channels
    {
      EventsAreOfChannels(channels, kinds, e);
    }
    forall i | 0 <= i < |channels|
      ensures Notified(channels[i]) in events <==> RanOut(agings[i])
      ensures Deleted(channels[i]) in events <==> RanOut(agings[i]) || (agings[i].refs == 0 && agings[i].state == Closed)
      ensures channels[i] in Select(channels, kinds, Kept) <==> Deleted(channels[i]) !in events
    {
      FateOf(channels, kinds, i);
      TickVerdict(agings[i]);
      assert kinds[i] == Tick(agings[i]).kind;
    }
  }

  lemma {:induction false} DeletionsAt(channels: seq<SecureChannel>)
    ensures |Deletions(channels)| == |channels|
    ensures forall i :: 0 <= i < |channels| ==> Deletions(channels)[i] == Deleted(channels[i])
  {
    if channels != [] { DeletionsAt(channels[..|channels| - 1]); }
  }

  lemma {:induction false} NotificationsAt(channels: seq<SecureChannel>)
    ensures |Notifications(channels)| == 2 * |channels|
    ensures forall p :: 0 <= p < 2 * |channels| ==>
      Notifications(channels)[p] == if p % 2 == 0 then Notified(channels[p / 2]) else Deleted(channels[p / 2])
  {
    if channels != [] { NotificationsAt(channels[..|channels| - 1]); }
  }

  /** What a selection holds stands in the list in the same order. */
  lemma SelectAscends(channels: seq<SecureChannel>, kinds: seq<Kind>, k: Kind)
    requires Distinct(channels) && |channels| == |kinds|
    ensures var s := Select(channels, kinds, k);
      && Distinct(s)
      && (forall i :: 0 <= i < |s| ==> IndexOf(channels, s[i]) < |channels| && kinds[IndexOf(channels, s[i])] == k)
      && (forall i, j :: 0 <= i < j < |s| ==> IndexOf(channels, s[i]) < IndexOf(channels, s[j]))
  {
    var s, ps := Select(channels, kinds, k), Positions(kinds, k, |channels|);
    PositionsExact(kinds, k, |channels|);
    SelectExact(channels, kinds, k, |channels|);
    SelectDistinct(channels, kinds, k);
    forall i | 0 <= i < |s|
      ensures IndexOf(channels, s[i]) == ps[i] && kinds[ps[i]] == k
    {
      assert ps[i] in ps && channels[ps[i]] == s[i];
      IndexOfIs(channels, s[i], ps[i]);
    }
  }

  /** The events are the silent deletions, then the reports with their deletions. */
  ghost predicate Arranged(dropped: seq<SecureChannel>, expired: seq<SecureChannel>, events: seq<Event>) {
    && |events| == |dropped| + 2 * |expired|
    && (forall p :: 0 <= p < |dropped| ==> events[p] == Deleted(dropped[p]))
    && (forall p :: |dropped| <= p < |events| ==> events[p] == ReportAt(expired, p - |dropped|))
  }

  function ReportAt(expired: seq<SecureChannel>, p: nat): Event
    requires p < 2 * |expired|
  {
    if p % 2 == 0 then Notified(expired[p / 2]) else Deleted(expired[p / 2])
  }

  lemma RemovalsArranged(channels: seq<SecureChannel>, kinds: seq<Kind>)
    requires |channels| == |kinds|
    ensures Arranged(Select(channels, kinds, Dropped), Select(channels, kinds, Expired), Removals(channels, kinds))
  {
    DeletionsAt(Select(channels, kinds, Dropped));
    NotificationsAt(Select(channels, kinds, Expired));
  }

  /** A report is followed by its deletion, and a deletion in the second part has its report before it. */
  lemma ReportsPaired(dropped: seq<SecureChannel>, expired: seq<SecureChannel>, events: seq<Event>, p: nat)
    requires Arranged(dropped, expired, events) && p < |events|
    ensures events[p].Notified? ==> p >= |dropped| && p + 1 < |events| && events[p + 1] == Deleted(events[p].channel)
    ensures Silent(events, p) ==> p < |dropped|
  {
    if p >= |dropped| {
      var k := p - |dropped|;
      assert events[p] == ReportAt(expired, k);
      if k % 2 == 1 {
        assert events[p - 1] == ReportAt(expired, k - 1);
        assert (k - 1) / 2 == k / 2;
      } else {
        assert events[p + 1] == ReportAt(expired, k + 1);
        assert (k + 1) / 2 == k / 2;
      }
    }
  }

  lemma EventsDistinct(dropped: seq<SecureChannel>, expired: seq<SecureChannel>, events: seq<Event>, p: nat, q: nat)
    requires Arranged(dropped, expired, events) && p < q < |events|
    requires Distinct(dropped) && Distinct(expired) && forall c :: c in dropped ==> c !in expired
    ensures events[p] != events[q]
    ensures events[p].Notified? && events[q].Notified? ==>
      exists i, j :: 0 <= i < j < |expired| && events[p].channel == expired[i] && events[q].channel == expired[j]
  {
    if q >= |dropped| {
      var l := q - |dropped|;
      assert events[q] == ReportAt(expired, l);
      if p < |dropped| {
        assert dropped[p] in dropped && expired[l / 2] in expired;
      } else {
        var k := p - |dropped|;
        assert events[p] == ReportAt(expired, k);
        if k % 2 == l % 2 { assert k / 2 < l / 2; }
      }
    }
  }

  lemma PassIsOrderly(channels: seq<SecureChannel>, kinds: seq<Kind>)
    requires Distinct(channels) && |channels| == |kinds|
    ensures Orderly(channels, Removals(channels, kinds))
  {
    hide IndexOf, Removals, Select, Arranged, Silent;
    var dropped, expired, events := Select(channels, kinds, Dropped), Select(channels, kinds, Expired), Removals(channels, kinds);
    RemovalsArranged(channels, kinds);
    SelectAscends(channels, kinds, Dropped);
    SelectAscends(channels, kinds, Expired);
    forall c | c in dropped
      ensures c !in expired
    {
      assert kinds[IndexOf(channels, c)] == Dropped;
    }
    forall p | 0 <= p < |events| && events[p].Notified?
      ensures p + 1 < |events| && events[p + 1] == Deleted(events[p].channel)
    {
      ReportsPaired(dropped, expired, events, p);
    }
    forall p | 0 <= p < |events| && Silent(events, p)
      ensures p < |dropped| && events[p] == Deleted(dropped[p])
    {
      ReportsPaired(dropped, expired, events, p);
      FirstPart(dropped, expired, events, p);
    }
    forall p, q | 0 <= p < q < |events|
      ensures events[p] != events[q]
      ensures events[p].Notified? && events[q].Notified? ==>
        IndexOf(channels, events[p].channel) < IndexOf(channels, events[q].channel)
      ensures Silent(events, p) && Silent(events, q) ==>
        IndexOf(channels, events[p].channel) < IndexOf(channels, events[q].channel)
    {
      EventsDistinct(dropped, expired, events, p, q);
    }
    assert Distinct(events);
  }

  lemma FirstPart(dropped: seq<SecureChannel>, expired: seq<SecureChannel>, events: seq<Event>, p: nat)
    requires Arranged(dropped, expired, events) && p < |events|
    ensures p < |dropped| ==> events[p] == Deleted(dropped[p])
  {
  }

  /** What a pass does to the list and adds to the log. */
  ghost predicate PassEffects(channels: seq<SecureChannel>, agings: seq<Aging>, left: seq<SecureChannel>, events: seq<Event>)
    requires |channels| == |agings|
  {
    && ReportedExactly(channels, agings, events) && Orderly(channels, events)
    && forall c :: c in channels ==> (c in left <==> Deleted(c) !in events)
  }

  lemma PassHasEffects(channels: seq<SecureChannel>, agings: seq<Aging>, log: seq<Event>)
    requires Distinct(channels) && |channels| == |agings|
    ensures var kinds := Kinds(agings);
      var events := Deletions(Select(channels, kinds, Dropped)) + Notifications(Select(channels, kinds, Expired));
      PassEffects(channels, agings, Select(channels, kinds, Kept), (log + events)[|log|..])
  {
    hide ReportedExactly, Orderly;
    PassReports(channels, agings);
    PassIsOrderly(channels, Kinds(agings));
    assert (log + Removals(channels, Kinds(agings)))[|log|..] == Removals(channels, Kinds(agings));
  }

  /** The book-keeping of handles and deletions still fits after a pass. */
  lemma SurvivorsInOrder(channels: seq<SecureChannel>, agings: seq<Aging>, handles: multiset<SecureChannel>, log: seq<Event>)
    requires Distinct(channels) && |channels| == |agings|
    requires forall i :: 0 <= i < |channels| ==> agings[i].refs == handles[channels[i]]
    requires forall c :: c in handles ==> c in channels
    requires forall c :: Deleted(c) in log ==> c !in channels
    ensures var kinds := Kinds(agings);
      var kept := Select(channels, kinds, Kept);
      && Distinct(kept)
      && (forall c :: c in kept ==> c in channels)
      && (forall c :: c in handles ==> c in kept)
      && (forall c :: Deleted(c) in log + (Deletions(Select(channels, kinds, Dropped)) + Notifications(Select(channels, kinds, Expired)))
            ==> c !in kept)
  {
    var kinds := Kinds(agings);
    var kept := Select(channels, kinds, Kept);
    var removals := Deletions(Select(channels, kinds, Dropped)) + Notifications(Select(channels, kinds, Expired));
    SelectDistinct(channels, kinds, Kept);
    forall c
      ensures c in kept ==> c in channels
      ensures c in handles ==> c in kept
      ensures Deleted(c) in log + removals ==> c !in kept
    {
      SelectMembers(channels, kinds, Kept, c);
      if Deleted(c) in removals {
        RemovedIsNotKept(channels, kinds, c);
      }
      if c in handles {
        var i :| 0 <= i < |channels| && channels[i] == c;
        PassKeepsReferenced(agings[i]);
        assert kinds[i] == Kept;
      }
    }
    assert Distinct(kept);
    assert forall c :: Deleted(c) in log + removals ==> c !in kept;
  }

  // ----- a pass over the list, on values -----

  /** The list with its cursor, the detached queue and the log. */
  datatype Pass = Pass(items: seq<SecureChannel>, cursor: nat, queued: seq<SecureChannel>, log: seq<Event>)

  /** Leaves, deletes or detaches the channel under the cursor. */
  function Move(s: Pass, kind: Kind): Pass
    requires s.cursor < |s.items|
  {
    match kind
    case Kept => s.(cursor := s.cursor + 1)
    case Dropped => s.(items := RemoveAt(s.items, s.cursor), log := s.log + [Deleted(s.items[s.cursor])])
    case Expired => s.(items := RemoveAt(s.items, s.cursor), queued := s.queued + [s.items[s.cursor]])
  }

  function UnderCursor(s: Pass): Option<SecureChannel> {
    if s.cursor < |s.items| then Some(s.items[s.cursor]) else None
  }

  function Next(channels: seq<SecureChannel>, p: nat): Option<SecureChannel> {
    if p < |channels| then Some(channels[p]) else None
  }

  /** Where a pass over the channels stands after the first `p` of them. */
  function Reached(channels: seq<SecureChannel>, kinds: seq<Kind>, log: seq<Event>, p: nat): Pass
    requires p <= |channels| == |kinds|
  {
    Pass(Remaining(channels, kinds, Kept, p), |SelectFirst(channels, kinds, Kept, p)|, SelectFirst(channels, kinds, Expired, p),
         log + Deletions(SelectFirst(channels, kinds, Dropped, p)))
  }

  lemma ReachedNone(channels: seq<SecureChannel>, kinds: seq<Kind>, log: seq<Event>)
    requires |channels| == |kinds|
    ensures Reached(channels, kinds, log, 0) == Pass(channels, 0, [], log)
  {
  }

  /** The pass ends with the last channel. */
  lemma ReachedAll(channels: seq<SecureChannel>, kinds: seq<Kind>, log: seq<Event>)
    requires |channels| == |kinds|
    ensures Reached(channels, kinds, log, |channels|) ==
      Pass(Select(channels, kinds, Kept), |Select(channels, kinds, Kept)|, Select(channels, kinds, Expired),
           log + Deletions(Select(channels, kinds, Dropped)))
  {
    RemainingAll(channels, kinds, Kept);
  }

  lemma ReachedNext(channels: seq<SecureChannel>, kinds: seq<Kind>, log: seq<Event>, p: nat)
    requires p <= |channels| == |kinds|
    ensures UnderCursor(Reached(channels, kinds, log, p)) == Next(channels, p)
  {
  }

  /** Treating the channel under the cursor brings the pass one channel further. */
  lemma ReachedStep(channels: seq<SecureChannel>, kinds: seq<Kind>, log: seq<Event>, p: nat)
    requires p < |channels| == |kinds|
    ensures var s := Reached(channels, kinds, log, p);
      && s.cursor < |s.items|
      && Move(s, kinds[p]) == Reached(channels, kinds, log, p + 1)
  {
    RemainingStep(channels, kinds, Kept, p);
    if kinds[p] == Dropped {
      var dropped, c := SelectFirst(channels, kinds, Dropped, p), channels[p];
      assert (dropped + [c])[..|dropped|] == dropped;
      ConcatAssoc(log, Deletions(dropped), [Deleted(c)]);
    }
  }

  /** The first `p` channels have been ticked, the others have not. */
  ghost predicate Aged(channels: seq<SecureChannel>, agings: seq<Aging>, p: nat)
    requires |channels| == |agings| && p <= |channels|
    reads channels
  {
    && (forall i :: 0 <= i < p ==> AgingOf(channels[i]) == Tick(agings[i]).after)
    && (forall i :: p <= i < |channels| ==> AgingOf(channels[i]) == agings[i])
  }

  class ChannelManager {
    const SecureChannels: List<SecureChannel>

    /** The borrowed handles: how often each channel was handed out and not yet given back. */
    ghost var Handles: multiset<SecureChannel>
    ghost var Log: seq<Event>

    /** The reference count of a listed channel is the number of its borrowed handles, a borrowed
        channel is listed, and a deleted channel is neither listed nor borrowed. */
    ghost predicate Valid()
      reads this, SecureChannels, SecureChannels.Nodes, SecureChannels.Items
    {
      && SecureChannels.Valid()
      && Distinct(SecureChannels.Items)
      && (forall c :: c in SecureChannels.Items ==> c.uRefCount == Handles[c])
      && (forall c :: c in Handles ==> c in SecureChannels.Items)
      && (forall c :: Deleted(c) in Log ==> c !in SecureChannels.Items)
    }

    constructor ()
      ensures Valid() && fresh(SecureChannels) && SecureChannels.Items == [] && Handles == multiset{} && Log == []
    {
      SecureChannels := new List<SecureChannel>();
      Handles, Log := multiset{}, [];
    }

    method AddChannel(channel: SecureChannel) returns (status: Status)
      requires Valid()
      requires channel !in SecureChannels.Items && Deleted(channel) !in Log
      modifies SecureChannels, SecureChannels.Nodes, channel`uRefCount
      ensures Valid()
      ensures forall n :: n in SecureChannels.Nodes ==> n in old(SecureChannels.Nodes) || fresh(n)
      ensures status == Good && SecureChannels.Items == [channel] + old(SecureChannels.Items) && channel.uRefCount == 0
    {
      channel.uRefCount := 0;
      status := SecureChannels.AddElement(Some(channel));
    }

    /** Gives a borrowed handle back. The handle may be to any channel that was not deleted. */
    method ReleaseChannel(handle: Option<SecureChannel>) returns (status: Status, rest: Option<SecureChannel>)
      requires Valid()
      requires handle.Some? ==> Deleted(handle.value) !in Log
      modifies `Handles, (if handle.Some? then {handle.value} else {})`uRefCount
      ensures Valid()
      ensures handle.None? ==> status == BadInvalidArgument && rest.None? && Handles == old(Handles)
      ensures handle.Some? && old(handle.value.uRefCount) == 0 ==>
        status == BadInvalidState && rest == handle && Handles == old(Handles) && unchanged(handle.value)
      ensures handle.Some? && old(handle.value.uRefCount) > 0 ==>
        && status == Good && rest.None?
        && handle.value.uRefCount == old(handle.value.uRefCount) - 1
        && Handles == old(Handles) - multiset{handle.value}
      ensures handle.Some? && handle.value in SecureChannels.Items ==>
        (old(handle.value.uRefCount) == 0 <==> handle.value !in old(Handles))
    {
      if handle.None? {
        return BadInvalidArgument, handle;
      } else if handle.value.uRefCount == 0 {
        return BadInvalidState, handle;
      } else {
        handle.value.uRefCount := handle.value.uRefCount - 1;
        Handles := Handles - multiset{handle.value};
        return Good, None;
      }
    }

    /** Lends the channel under the cursor. */
    method Borrow(channel: SecureChannel)
      requires Valid() && channel in SecureChannels.Items
      modifies `Handles, channel`uRefCount
      ensures Valid()
      ensures Handles == old(Handles)[channel := old(Handles[channel]) + 1]
      ensures channel.uRefCount == old(channel.uRefCount) + 1
    {
      channel.uRefCount := channel.uRefCount + 1;
      Handles := Handles[channel := Handles[channel] + 1];
    }

    /** Moves the cursor to the first channel with the id, or off the end. */
    method SeekId(id: UInt32) returns (r: Option<SecureChannel>)
      requires Valid()
      modifies SecureChannels`currtElement, SecureChannels`Cursor
      ensures Valid()
      ensures r == if SecureChannels.Cursor < |SecureChannels.Items| then Some(SecureChannels.Items[SecureChannels.Cursor]) else None
      ensures forall j :: 0 <= j < SecureChannels.Cursor ==> SecureChannels.Items[j].SecureChannelId != id
      ensures r.Some? ==> r.value.SecureChannelId == id
    {
      SecureChannels.ResetCurrent();
      r := SecureChannels.GetCurrentElement();
      while r.Some? && r.value.SecureChannelId != id
        invariant SecureChannels.Valid()
        invariant r == if SecureChannels.Cursor < |SecureChannels.Items| then Some(SecureChannels.Items[SecureChannels.Cursor]) else None
        invariant forall j :: 0 <= j < SecureChannels.Cursor ==> SecureChannels.Items[j].SecureChannelId != id
        decreases |SecureChannels.Items| - SecureChannels.Cursor
      {
        r := SecureChannels.GetNextElement();
      }
    }

    method SeekTransport(connection: Option<Handle>) returns (r: Option<SecureChannel>)
      requires Valid()
      modifies SecureChannels`currtElement, SecureChannels`Cursor
      ensures Valid()
      ensures r == if SecureChannels.Cursor < |SecureChannels.Items| then Some(SecureChannels.Items[SecureChannels.Cursor]) else None
      ensures connection.Some? ==>
        forall j :: 0 <= j < SecureChannels.Cursor ==> SecureChannels.Items[j].TransportConnection != connection
      ensures r.Some? ==> connection.Some? && r.value.TransportConnection == connection
    {
      SecureChannels.ResetCurrent();
      r := SecureChannels.GetCurrentElement();
      while r.Some? && !(r.value.TransportConnection.Some? && r.value.TransportConnection == connection)
        invariant SecureChannels.Valid()
        invariant r == if SecureChannels.Cursor < |SecureChannels.Items| then Some(SecureChannels.Items[SecureChannels.Cursor]) else None
        invariant connection.Some? ==>
          forall j :: 0 <= j < SecureChannels.Cursor ==> SecureChannels.Items[j].TransportConnection != connection
        decreases |SecureChannels.Items| - SecureChannels.Cursor
      {
        r := SecureChannels.GetNextElement();
      }
    }

    /** Hands out the first channel with the id and counts the handle. */
    method GetChannelBySecureChannelID(id: UInt32) returns (status: Status, r: Option<SecureChannel>)
      requires Valid()
      modifies `Handles, SecureChannels`currtElement, SecureChannels`Cursor, (set c | c in SecureChannels.Items)`uRefCount
      ensures Valid()
      ensures forall c :: c in SecureChannels.Items && Some(c) != r ==> unchanged(c)
      ensures status == if r.Some? then Good else BadSecureChannelIdInvalid
      ensures match r
        case Some(c) =>
          && c in old(SecureChannels.Items)
          && c.uRefCount == old(c.uRefCount) + 1 && Handles == old(Handles)[c := old(Handles[c]) + 1]
          && id != CHANNEL_ID_INVALID && c.SecureChannelId == id
          && exists k :: 0 <= k < |SecureChannels.Items| && SecureChannels.Items[k] == c
               && forall j :: 0 <= j < k ==> SecureChannels.Items[j].SecureChannelId != id
        case None =>
          Handles == old(Handles) &&
          (id == CHANNEL_ID_INVALID || forall c :: c in SecureChannels.Items ==> c.SecureChannelId != id)
    {
      if id == CHANNEL_ID_INVALID {
        SecureChannels.ResetCurrent();
        return BadSecureChannelIdInvalid, None;
      }
      r := SeekId(id);
      if r.Some? {
        Borrow(r.value);
        return Good, r;
      }
      return BadSecureChannelIdInvalid, None;
    }

    /** Hands out the first channel of the transport connection and counts the handle. */
    method GetChannelByTransportConnection(connection: Option<Handle>) returns (status: Status, r: Option<SecureChannel>)
      requires Valid()
      modifies `Handles, SecureChannels`currtElement, SecureChannels`Cursor, (set c | c in SecureChannels.Items)`uRefCount
      ensures Valid()
      ensures forall c :: c in SecureChannels.Items && Some(c) != r ==> unchanged(c)
      ensures status == if r.Some? then Good else BadNotFound
      ensures match r
        case Some(c) =>
          && c in old(SecureChannels.Items)
          && c.uRefCount == old(c.uRefCount) + 1 && Handles == old(Handles)[c := old(Handles[c]) + 1]
          && connection.Some? && c.TransportConnection == connection
          && exists k :: 0 <= k < |SecureChannels.Items| && SecureChannels.Items[k] == c
               && forall j :: 0 <= j < k ==> SecureChannels.Items[j].TransportConnection != connection
        case None =>
          Handles == old(Handles) &&
          (connection.None? || forall c :: c in SecureChannels.Items ==> c.TransportConnection != connection)
    {
      r := SeekTransport(connection);
      if r.Some? {
        Borrow(r.value);
        return Good, r;
      }
      return BadNotFound, None;
    }

    /** The branch a pass takes for one channel, and the counter it steps there. */
    method StepChannel(c: SecureChannel) returns (kind: Kind)
      modifies c`State, c`uExpirationCounter, c`uOverlapCounter
      ensures Verdict(kind, AgingOf(c)) == Tick(old(AgingOf(c)))
      ensures kind == Expired <==> RanOut(old(AgingOf(c)))
      ensures kind == Dropped <==> old(c.uRefCount) == 0 && old(c.State) == Closed
      ensures Stepped(old(AgingOf(c)), AgingOf(c))
    {
      if c.State == Closed && c.uRefCount == 0 {
        return Dropped;
      } else if c.State == Opened {
        if c.uExpirationCounter != 0 {
          c.uExpirationCounter := c.uExpirationCounter - 1;
        } else if c.uOverlapCounter != 0 {
          c.uOverlapCounter := c.uOverlapCounter - 1;
        } else if c.uRefCount == 0 {
          return Expired;
        } else {
          c.State := Closed;
        }
        return Kept;
      } else {
        if c.uOverlapCounter != 0 {
          c.uOverlapCounter := c.uOverlapCounter - 1;
        } else if c.uRefCount == 0 {
          return Expired;
        }
        return Kept;
      }
    }

    /** The list is in order, and so is the queue that a pass has detached from it. */
    ghost predicate Detached(nodes: seq<ListElement<SecureChannel>>, queueFirst: ListElement?<SecureChannel>,
                             queueLast: ListElement?<SecureChannel>, queue: seq<ListElement<SecureChannel>>, queued: seq<SecureChannel>)
      reads this, SecureChannels, SecureChannels.Nodes, queue
    {
      && SecureChannels.Valid()
      && (forall i :: 0 <= i < |SecureChannels.Nodes| ==> SecureChannels.Nodes[i] in nodes)
      && (forall i :: 0 <= i < |queue| ==> queue[i] in nodes)
      && Linked(queue) && Stored(queue, queued)
      && queueFirst == NodeAt(queue, 0) && queueLast == NodeAt(queue, |queue| - 1)
      && (forall i :: 0 <= i < |queue| ==> queue[i] !in SecureChannels.Nodes)
    }

    /** The list and the log agree with a pass that has come so far. */
    ghost predicate At(s: Pass)
      reads `Log, SecureChannels
    {
      s.items == SecureChannels.Items && s.cursor == SecureChannels.Cursor && s.log == Log
    }

    /** Leaves, deletes or detaches the channel under the cursor, and moves on to the next one. */
    method MoveCurrent(kind: Kind, channel: SecureChannel, queueFirst: ListElement?<SecureChannel>, queueLast: ListElement?<SecureChannel>,
                       ghost queue: seq<ListElement<SecureChannel>>, ghost nodes: seq<ListElement<SecureChannel>>, ghost s: Pass)
      returns (next: Option<SecureChannel>, newFirst: ListElement?<SecureChannel>, newLast: ListElement?<SecureChannel>,
               ghost newQueue: seq<ListElement<SecureChannel>>)
      requires Detached(nodes, queueFirst, queueLast, queue, s.queued)
      requires At(s) && s.cursor < |s.items| && s.items[s.cursor] == channel
      modifies `Log, SecureChannels, SecureChannels.Nodes, queue
      ensures Detached(nodes, newFirst, newLast, newQueue, Move(s, kind).queued)
      ensures At(Move(s, kind))
      ensures next == UnderCursor(Move(s, kind))
    {
      hide Lists.Linked, Lists.Stored, Lists.NodeAt;
      newFirst, newLast, newQueue := queueFirst, queueLast, queue;
      match kind {
        case Kept =>
          next := SecureChannels.GetNextElement();
        case Dropped =>
          SecureChannels.DeleteCurrentElement();
          Log := Log + [Deleted(channel)];
          next := SecureChannels.GetCurrentElement();
        case Expired =>
          newFirst, newLast, newQueue := SecureChannels.EnQueueCurrentElement(queueFirst, queueLast, queue, s.queued);
          next := SecureChannels.GetCurrentElement();
      }
    }

    /** A pass over the channels has handled the first `p` of them. */
    ghost predicate InPass(channels: seq<SecureChannel>, agings: seq<Aging>, kinds: seq<Kind>, log: seq<Event>, p: nat,
                           nodes: seq<ListElement<SecureChannel>>, queueFirst: ListElement?<SecureChannel>,
                           queueLast: ListElement?<SecureChannel>, queue: seq<ListElement<SecureChannel>>)
      requires p <= |channels| == |agings| == |kinds|
      reads this, SecureChannels, SecureChannels.Nodes, queue, channels
    {
      var s := Reached(channels, kinds, log, p);
      && At(s)
      && Detached(nodes, queueFirst, queueLast, queue, s.queued)
      && Aged(channels, agings, p)
    }

    /** Steps the channel under the cursor and treats it as the step says. */
    method AgeCurrent(channel: SecureChannel, queueFirst: ListElement?<SecureChannel>, queueLast: ListElement?<SecureChannel>,
                      ghost queue: seq<ListElement<SecureChannel>>, ghost nodes: seq<ListElement<SecureChannel>>,
                      ghost channels: seq<SecureChannel>, ghost agings: seq<Aging>, ghost kinds: seq<Kind>,
                      ghost log: seq<Event>, ghost p: nat)
      returns (next: Option<SecureChannel>, newFirst: ListElement?<SecureChannel>, newLast: ListElement?<SecureChannel>,
               ghost newQueue: seq<ListElement<SecureChannel>>)
      requires Distinct(channels) && p < |channels| == |agings| == |kinds|
      requires channels[p] == channel && kinds[p] == Tick(agings[p]).kind
      requires InPass(channels, agings, kinds, log, p, nodes, queueFirst, queueLast, queue)
      modifies `Log, SecureChannels, SecureChannels.Nodes, queue
      modifies channel`State, channel`uExpirationCounter, channel`uOverlapCounter
      ensures InPass(channels, agings, kinds, log, p + 1, nodes, newFirst, newLast, newQueue)
      ensures (forall i :: 0 <= i < |SecureChannels.Nodes| ==> SecureChannels.Nodes[i] in nodes)
      ensures (forall i :: 0 <= i < |newQueue| ==> newQueue[i] in nodes)
      ensures next == Next(channels, p + 1)
    {
      hide Lists.Linked, Lists.Stored, Lists.NodeAt, Reached, Move, Tick;
      ghost var s := Reached(channels, kinds, log, p);
      ReachedStep(channels, kinds, log, p);
      ReachedNext(channels, kinds, log, p);
      ReachedNext(channels, kinds, log, p + 1);
      var kind := StepChannel(channel);
      next, newFirst, newLast, newQueue := MoveCurrent(kind, channel, queueFirst, queueLast, queue, nodes, s);
    }

    method StartPass(ghost channels: seq<SecureChannel>, ghost agings: seq<Aging>, ghost kinds: seq<Kind>)
      returns (first: Option<SecureChannel>)
      requires SecureChannels.Valid() && channels == SecureChannels.Items
      requires |channels| == |agings| == |kinds| && Aged(channels, agings, 0)
      modifies SecureChannels`currtElement, SecureChannels`Cursor
      ensures InPass(channels, agings, kinds, Log, 0, SecureChannels.Nodes, null, null, [])
      ensures first == Next(channels, 0)
    {
      hide Reached;
      ReachedNone(channels, kinds, Log);
      SecureChannels.ResetCurrent();
      first := SecureChannels.GetCurrentElement();
    }

    /** Ages every channel in list order. Channels that expired are unlinked into a detached queue,
        which is returned by its ends; closed channels without handles are deleted at once. */
    method AgeChannels(ghost channels: seq<SecureChannel>, ghost agings: seq<Aging>, ghost kinds: seq<Kind>,
                       ghost all: set<SecureChannel>)
      returns (queueFirst: ListElement?<SecureChannel>, queueLast: ListElement?<SecureChannel>, ghost queue: seq<ListElement<SecureChannel>>)
      requires SecureChannels.Valid() && channels == SecureChannels.Items && Distinct(channels)
      requires |channels| == |agings| == |kinds| && Aged(channels, agings, 0)
      requires forall i :: 0 <= i < |kinds| ==> kinds[i] == Tick(agings[i]).kind
      requires forall i :: 0 <= i < |channels| ==> channels[i] in all
      modifies `Log, SecureChannels, SecureChannels.Nodes, all`State, all`uExpirationCounter, all`uOverlapCounter
      ensures InPass(channels, agings, kinds, old(Log), |channels|, old(SecureChannels.Nodes), queueFirst, queueLast, queue)
    {
      hide Lists.Linked, Lists.Stored, Reached;
      ghost var nodes, log, p := SecureChannels.Nodes, Log, 0;
      var tmp := StartPass(channels, agings, kinds);
      queueFirst, queueLast, queue := null, null, [];
      while tmp.Some?
        invariant p <= |channels|
        invariant InPass(channels, agings, kinds, log, p, nodes, queueFirst, queueLast, queue)
        invariant forall i :: 0 <= i < |SecureChannels.Nodes| ==> SecureChannels.Nodes[i] in nodes
        invariant forall i :: 0 <= i < |queue| ==> queue[i] in nodes
        invariant tmp == Next(channels, p)
        decreases |channels| - p
      {
        tmp, queueFirst, queueLast, queue := AgeCurrent(tmp.value, queueFirst, queueLast, queue, nodes, channels, agings, kinds, log, p);
        p := p + 1;
      }
    }

    /** Reports and deletes the channels of a detached queue from its first element on. */
    method NotifyExpired(queueFirst: ListElement?<SecureChannel>, ghost queue: seq<ListElement<SecureChannel>>,
                         ghost queued: seq<SecureChannel>)
      requires Linked(queue) && queueFirst == NodeAt(queue, 0) && Stored(queue, queued)
      modifies `Log
      ensures Log == old(Log) + Notifications(queued)
    {
      var element := queueFirst;
      ghost var k := 0;
      while element != null
        invariant k <= |queue| && element == NodeAt(queue, k)
        invariant Log == old(Log) + Notifications(queued[..k])
        decreases |queue| - k
      {
        var channel := element.data;
        Log := Log + [Notified(channel)];
        element := element.nextElement;
        Log := Log + [Deleted(channel)];
        assert queued[..k + 1][..k] == queued[..k];
        k := k + 1;
      }
      assert queued[..k] == queued;
    }

    /** Ages the channels, then reports and deletes the expired ones. */
    method RunPass(ghost channels: seq<SecureChannel>, ghost agings: seq<Aging>, ghost kinds: seq<Kind>, ghost all: set<SecureChannel>)
      requires SecureChannels.Valid() && channels == SecureChannels.Items && Distinct(channels)
      requires |channels| == |agings| == |kinds| && Aged(channels, agings, 0)
      requires forall i :: 0 <= i < |kinds| ==> kinds[i] == Tick(agings[i]).kind
      requires forall i :: 0 <= i < |channels| ==> channels[i] in all
      modifies `Log, SecureChannels, SecureChannels.Nodes, all`State, all`uExpirationCounter, all`uOverlapCounter
      ensures SecureChannels.Valid()
      ensures Aged(channels, agings, |channels|)
      ensures SecureChannels.Items == Select(channels, kinds, Kept)
      ensures Log == old(Log) + (Deletions(Select(channels, kinds, Dropped)) + Notifications(Select(channels, kinds, Expired)))
    {
      hide Reached, Lists.Linked, Lists.Stored;
      ghost var log := Log;
      var queueFirst, queueLast, queue := AgeChannels(channels, agings, kinds, all);
      ReachedAll(channels, kinds, log);
      ConcatAssoc(log, Deletions(Select(channels, kinds, Dropped)), Notifications(Select(channels, kinds, Expired)));
      NotifyExpired(queueFirst, queue, Select(channels, kinds, Expired));
    }

    /** One watchdog pass: every channel is stepped once, the survivors stay in order, the expired
        ones are reported and deleted in order, and no borrowed channel leaves the list. In terms of the log and the
        fields alone: exactly the channels that ran out are reported, those and the closed ones without handles are
        deleted and not listed any more, and each report is directly followed by its deletion. */
    method TimerCallback()
      requires Valid()
      modifies `Log, SecureChannels, SecureChannels.Nodes
      modifies (set c | c in SecureChannels.Items)`State, (set c | c in SecureChannels.Items)`uExpirationCounter,
               (set c | c in SecureChannels.Items)`uOverlapCounter
      ensures Valid()
      ensures var channels, kinds := old(SecureChannels.Items), old(Kinds(Agings(SecureChannels.Items)));
        && SecureChannels.Items == Select(channels, kinds, Kept)
        && Log == old(Log) + (Deletions(Select(channels, kinds, Dropped)) + Notifications(Select(channels, kinds, Expired)))
      ensures forall i :: 0 <= i < |old(SecureChannels.Items)| ==>
        AgingOf(old(SecureChannels.Items)[i]) == Tick(old(Agings(SecureChannels.Items))[i]).after
      ensures old(Log) <= Log
      ensures PassEffects(old(SecureChannels.Items), old(Agings(SecureChannels.Items)), SecureChannels.Items, Log[|old(Log)|..])
      ensures forall i :: 0 <= i < |old(SecureChannels.Items)| ==>
        Stepped(old(Agings(SecureChannels.Items))[i], AgingOf(old(SecureChannels.Items)[i]))
    {
      hide Agings, Kinds, Lists.Linked, Lists.Stored, Tick, PassEffects, Stepped;
      ghost var channels, agings, log := SecureChannels.Items, Agings(SecureChannels.Items), Log;
      ghost var kinds := Kinds(agings);
      RunPass(channels, agings, kinds, set c | c in SecureChannels.Items);
      SurvivorsInOrder(channels, agings, Handles, log);
      PassHasEffects(channels, agings, log);
      TicksStep(agings);
    }
  }
}
