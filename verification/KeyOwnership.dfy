/**
 Who frees the keys of a secure channel (Stack/securechannel/opcua_tcpsecurechannel.c): over one Open,
 any number of accepted or rejected Renews and the final Clear, what was handed in is compared with
 what was released.
 */
module KeyOwnership {
  import opened Basics
  import opened SecureChannels

  /** The arguments of one Open or Renew call. */
  datatype Request = Request(transport: Option<Handle>, slot: Slot)

  /** A channel's security sets, all that it released so far, and the providers it accepted. */
  datatype Life = Life(ring: KeyRing, keysets: seq<Keyset>, providers: seq<Provider>, accepted: seq<Provider>)

  function After(l: Life, o: Outcome, offered: Option<Provider>): Life {
    Life(o.ring, l.keysets + o.keysets, l.providers + o.providers,
         l.accepted + if o.status == Good then Held(offered) else [])
  }

  /** A new channel with the given id, opened once. */
  function AfterOpen(id: UInt32, q: Request): Life {
    After(Life(NEW_RING.(channelId := id), [], [], []),
          Opening(NEW_RING.(channelId := id), q.transport, q.slot), q.slot.provider)
  }

  /** ... and renewed any number of times. */
  function AfterRenewals(id: UInt32, open: Request, renewals: seq<Request>): Life {
    if renewals == [] then AfterOpen(id, open)
    else
      var last := |renewals| - 1;
      var l := AfterRenewals(id, open, renewals[..last]);
      After(l, Renewing(l.ring, renewals[last].transport, renewals[last].slot), renewals[last].slot.provider)
  }

  /** ... and cleared. */
  function AfterClear(id: UInt32, open: Request, renewals: seq<Request>): Life {
    var l := AfterRenewals(id, open, renewals);
    After(l, Clearing(l.ring), None)
  }

  // ----- keysets -----

  predicate NullArgument(q: Request) {
    q.transport.None? || q.slot.provider.None?
  }

  function HandedIn(qs: seq<Request>): seq<Keyset> {
    if qs == [] then [] else HandedIn(qs[..|qs| - 1]) + KeysetsOf(qs[|qs| - 1].slot)
  }

  /** The keysets that come with a null transport connection or a null crypto provider: those calls
      return before the channel takes ownership. */
  function Orphaned(qs: seq<Request>): seq<Keyset> {
    if qs == [] then []
    else Orphaned(qs[..|qs| - 1]) + if NullArgument(qs[|qs| - 1]) then KeysetsOf(qs[|qs| - 1].slot) else []
  }

  function Installed(r: KeyRing): seq<Keyset> {
    KeysetsOf(r.current) + KeysetsOf(r.previous)
  }

  lemma HandedInOne(q: Request)
    ensures HandedIn([q]) == KeysetsOf(q.slot)
    ensures Orphaned([q]) == if NullArgument(q) then KeysetsOf(q.slot) else []
  {
    assert [q][..0] == [];
  }

  lemma HandedInSnoc(qs: seq<Request>, q: Request)
    ensures HandedIn(qs + [q]) == HandedIn(qs) + KeysetsOf(q.slot)
    ensures Orphaned(qs + [q]) == Orphaned(qs) + if NullArgument(q) then KeysetsOf(q.slot) else []
  {
    assert (qs + [q])[..|qs|] == qs;
  }

  /** One renewal neither loses nor duplicates a keyset. */
  lemma RenewingConserves(r: KeyRing, q: Request)
    ensures var o := Renewing(r, q.transport, q.slot);
      multiset(Installed(r)) + multiset(KeysetsOf(q.slot)) ==
        multiset(o.keysets) + multiset(Installed(o.ring)) + multiset(if NullArgument(q) then KeysetsOf(q.slot) else [])
  {
    hide KeysetsOf;
  }

  lemma NothingInstalled(id: UInt32)
    ensures Installed(NEW_RING.(channelId := id)) == []
    ensures KeysetsOf(EMPTY_SLOT) == []
  {
  }

  lemma OpeningConserves(id: UInt32, q: Request)
    ensures var o := Opening(NEW_RING.(channelId := id), q.transport, q.slot);
      multiset(KeysetsOf(q.slot)) ==
        multiset(o.keysets) + multiset(Installed(o.ring)) + multiset(if NullArgument(q) then KeysetsOf(q.slot) else [])
  {
    NothingInstalled(id);
    hide KeysetsOf;
  }

  lemma Regroup(released: multiset<Keyset>, installed: multiset<Keyset>, orphaned: multiset<Keyset>, handedIn: multiset<Keyset>,
                moreReleased: multiset<Keyset>, nowInstalled: multiset<Keyset>, moreOrphaned: multiset<Keyset>)
    requires installed + handedIn == moreReleased + nowInstalled + moreOrphaned
    ensures (released + installed + orphaned) + handedIn == (released + moreReleased) + nowInstalled + (orphaned + moreOrphaned)
  {
    assert (released + installed + orphaned) + handedIn == released + (installed + handedIn) + orphaned;
  }

  /** At any time, what was handed in is installed, released or orphaned, each keyset as often as it was handed in. */
  lemma {:induction false} KeysetsConserved(id: UInt32, open: Request, renewals: seq<Request>)
    ensures var l := AfterRenewals(id, open, renewals);
      multiset(HandedIn([open] + renewals)) ==
        multiset(l.keysets) + multiset(Installed(l.ring)) + multiset(Orphaned([open] + renewals))
  {
    hide KeysetsOf, Installed, Renewing, Opening, NullArgument, HandedIn, Orphaned;
    if renewals == [] {
      assert [open] + renewals == [open];
      HandedInOne(open);
      OpeningConserves(id, open);
      assert AfterOpen(id, open).keysets == Opening(NEW_RING.(channelId := id), open.transport, open.slot).keysets;
    } else {
      var last := |renewals| - 1;
      var q, earlier := renewals[last], renewals[..last];
      KeysetsConserved(id, open, earlier);
      assert [open] + renewals == ([open] + earlier) + [q];
      HandedInSnoc([open] + earlier, q);
      var was := AfterRenewals(id, open, earlier);
      var o := Renewing(was.ring, q.transport, q.slot);
      RenewingConserves(was.ring, q);
      var l := AfterRenewals(id, open, renewals);
      assert l == After(was, o, q.slot.provider);
      var orphans := if NullArgument(q) then KeysetsOf(q.slot) else [];
      assert multiset(l.keysets) == multiset(was.keysets) + multiset(o.keysets);
      Regroup(multiset(was.keysets), multiset(Installed(was.ring)), multiset(Orphaned([open] + earlier)), multiset(KeysetsOf(q.slot)),
              multiset(o.keysets), multiset(Installed(o.ring)), multiset(orphans));
    }
  }

  /** Once the channel is cleared, every keyset handed in has been released exactly as often as it was
      handed in, if and only if no call that had a null argument handed one in. */
  lemma KeysetsReleasedOnce(id: UInt32, open: Request, renewals: seq<Request>)
    ensures multiset(AfterClear(id, open, renewals).keysets) == multiset(HandedIn([open] + renewals)) <==>
      forall q :: q in [open] + renewals && NullArgument(q) ==> KeysetsOf(q.slot) == []
  {
    KeysetsConserved(id, open, renewals);
    OrphansExactly([open] + renewals);
    var l := AfterRenewals(id, open, renewals);
    assert multiset(l.keysets + Installed(l.ring)) == multiset(l.keysets) + multiset(Installed(l.ring));
    if Orphaned([open] + renewals) != [] {
      var k := Orphaned([open] + renewals)[0];
      assert multiset(Orphaned([open] + renewals))[k] > 0;
    }
  }

  /** A call that leaks: an Open with a keyset and a null provider. */
  lemma NullProviderLeaks(id: UInt32, transport: Handle, k: Keyset)
    ensures var q := Request(Some(transport), Slot(NO_TOKEN, Some(k), None, None));
      HandedIn([q]) == [k] && AfterClear(id, q, []).keysets == []
  {
    var q := Request(Some(transport), Slot(NO_TOKEN, Some(k), None, None));
    assert [q][..0] == [];
  }

  lemma {:induction false} OrphansExactly(qs: seq<Request>)
    ensures Orphaned(qs) == [] <==> forall q :: q in qs && NullArgument(q) ==> KeysetsOf(q.slot) == []
  {
    hide KeysetsOf;
    if qs == [] {
    } else {
      var last := |qs| - 1;
      OrphansExactly(qs[..last]);
      assert qs == qs[..last] + [qs[last]];
    }
  }

  /** No installed keyset has been released before, when all keysets handed in are different. */
  lemma InstalledKeysetsAlive(id: UInt32, open: Request, renewals: seq<Request>, k: Keyset)
    requires forall x :: multiset(HandedIn([open] + renewals))[x] <= 1
    requires k in Installed(AfterRenewals(id, open, renewals).ring)
    ensures k !in AfterRenewals(id, open, renewals).keysets
  {
    KeysetsConserved(id, open, renewals);
    var l := AfterRenewals(id, open, renewals);
    assert multiset(HandedIn([open] + renewals))[k] ==
      multiset(l.keysets)[k] + multiset(Installed(l.ring))[k] + multiset(Orphaned([open] + renewals))[k];
    assert k in multiset(Installed(l.ring));
  }

  // ----- crypto providers -----

  /** One entry for each uninterrupted use of a provider. */
  function Runs(ps: seq<Provider>): seq<Provider> {
    if ps == [] then []
    else
      var last := |ps| - 1;
      Runs(ps[..last]) + if last > 0 && ps[last - 1] == ps[last] then [] else [ps[last]]
  }

  /** The providers of both slots, a shared one once. */
  function InstalledProviders(r: KeyRing): seq<Provider> {
    Held(r.current.provider) + if r.previous.provider == r.current.provider then [] else Held(r.previous.provider)
  }

  lemma RunsSnoc(ps: seq<Provider>, p: Provider)
    ensures Runs(ps + [p]) == Runs(ps) + if ps != [] && ps[|ps| - 1] == p then [] else [p]
  {
    assert (ps + [p])[..|ps|] == ps;
  }

  /** The provider of the current slot is the one accepted last. */
  predicate CurrentIsLast(r: KeyRing, accepted: seq<Provider>) {
    if accepted == [] then r.current.provider.None? && r.previous.provider.None? && r.transport.None?
    else r.current.provider == Some(accepted[|accepted| - 1])
  }

  /** One renewal releases or keeps every use of a provider. */
  lemma RenewingProviders(l: Life, q: Request)
    requires CurrentIsLast(l.ring, l.accepted)
    requires multiset(Runs(l.accepted)) == multiset(l.providers) + multiset(InstalledProviders(l.ring))
    ensures var m := After(l, Renewing(l.ring, q.transport, q.slot), q.slot.provider);
      && CurrentIsLast(m.ring, m.accepted)
      && multiset(Runs(m.accepted)) == multiset(m.providers) + multiset(InstalledProviders(m.ring))
  {
    hide Runs;
    var o := Renewing(l.ring, q.transport, q.slot);
    var m := After(l, o, q.slot.provider);
    if o.status == Good {
      RunsSnoc(l.accepted, q.slot.provider.value);
      assert m.accepted == l.accepted + [q.slot.provider.value];
    } else {
      assert m.accepted == l.accepted && m.providers == l.providers;
    }
  }

  /** Every use of a provider that has begun is released or still installed. */
  lemma {:induction false} ProvidersConserved(id: UInt32, open: Request, renewals: seq<Request>)
    ensures var l := AfterRenewals(id, open, renewals);
      CurrentIsLast(l.ring, l.accepted) &&
      multiset(Runs(l.accepted)) == multiset(l.providers) + multiset(InstalledProviders(l.ring))
  {
    var l := AfterRenewals(id, open, renewals);
    if renewals == [] {
      assert l.accepted == if l.ring.transport.Some? then [open.slot.provider.value] else [];
    } else {
      hide Renewing, Runs, InstalledProviders, CurrentIsLast;
      var last := |renewals| - 1;
      ProvidersConserved(id, open, renewals[..last]);
      RenewingProviders(AfterRenewals(id, open, renewals[..last]), renewals[last]);
    }
  }

  predicate FreshOrCurrentAt(ps: seq<Provider>, k: nat)
    requires 0 < k < |ps|
  {
    ps[k] == ps[k - 1] || ps[k] !in ps[..k]
  }

  /** Each renewal brought a provider that was never used before, or the one in use. */
  ghost predicate FreshOrCurrent(ps: seq<Provider>) {
    forall k :: 0 < k < |ps| ==> FreshOrCurrentAt(ps, k)
  }

  lemma FreshSnoc(ps: seq<Provider>, p: Provider)
    ensures FreshOrCurrent(ps + [p]) <==> FreshOrCurrent(ps) && (ps != [] ==> p == ps[|ps| - 1] || p !in ps)
  {
    var s := ps + [p];
    forall k | 0 < k < |ps|
      ensures FreshOrCurrentAt(s, k) == FreshOrCurrentAt(ps, k)
    {
      assert s[..k] == ps[..k];
    }
    assert s[..|ps|] == ps;
    assert ps != [] ==> FreshOrCurrentAt(s, |ps|) == (p == ps[|ps| - 1] || p !in ps);
    hide FreshOrCurrentAt;
  }

  lemma {:induction false} RunsMembers(ps: seq<Provider>, p: Provider)
    ensures p in Runs(ps) <==> p in ps
  {
    if ps == [] {
    } else {
      var last := |ps| - 1;
      RunsMembers(ps[..last], p);
      assert ps == ps[..last] + [ps[last]];
    }
  }

  predicate OnceEach(s: seq<Provider>) {
    forall p :: p in s ==> multiset(s)[p] == 1
  }

  lemma {:induction false} RunsOnceEach(ps: seq<Provider>)
    ensures OnceEach(Runs(ps)) <==> FreshOrCurrent(ps)
  {
    if ps == [] {
    } else {
      hide FreshOrCurrent;
      var last := |ps| - 1;
      var earlier, p := ps[..last], ps[last];
      assert ps == earlier + [p];
      RunsOnceEach(earlier);
      FreshSnoc(earlier, p);
      RunsSnoc(earlier, p);
      RunsMembers(earlier, p);
      var was, now := Runs(earlier), Runs(ps);
      if now != was {
        assert now == was + [p];
        assert forall x :: x in was ==> multiset(now)[x] == multiset(was)[x] + if x == p then 1 else 0;
        assert p in now;
        if OnceEach(now) {
          assert p !in was;
          assert forall x :: x in was ==> x in now;
        }
      }
    }
  }

  /** A call that the channel with this id accepts, as far as it alone decides. */
  predicate Acceptable(id: UInt32, q: Request) {
    !NullArgument(q) && q.slot.token.channelId == id
  }

  /** The providers of the accepted calls: an acceptable Open, and after it the acceptable Renews that come with
      the transport connection of the Open. */
  function AcceptedProviders(id: UInt32, open: Request, renewals: seq<Request>): seq<Provider> {
    if renewals == [] then
      if Acceptable(id, open) then [open.slot.provider.value] else []
    else
      var last := |renewals| - 1;
      var q := renewals[last];
      AcceptedProviders(id, open, renewals[..last]) +
        if Acceptable(id, open) && Acceptable(id, q) && q.transport == open.transport then [q.slot.provider.value] else []
  }

  lemma {:induction false} AcceptedFromRequests(id: UInt32, open: Request, renewals: seq<Request>)
    ensures var l := AfterRenewals(id, open, renewals);
      && l.accepted == AcceptedProviders(id, open, renewals)
      && l.ring.channelId == id && l.ring.transport == if Acceptable(id, open) then open.transport else None
  {
    if renewals == [] {
    } else {
      AcceptedFromRequests(id, open, renewals[..|renewals| - 1]);
    }
  }

  /** Once the channel is cleared, exactly the accepted providers have been released, and each of them
      exactly once if and only if every accepted renewal brought a fresh provider or the current one. */
  lemma ProvidersReleasedOnce(id: UInt32, open: Request, renewals: seq<Request>)
    ensures var l, accepted := AfterClear(id, open, renewals), AcceptedProviders(id, open, renewals);
      && (forall p :: p in l.providers <==> p in accepted)
      && (OnceEach(l.providers) <==> FreshOrCurrent(accepted))
      && InstalledProviders(l.ring) == [] && Installed(l.ring) == []
  {
    hide FreshOrCurrent, AcceptedProviders;
    AcceptedFromRequests(id, open, renewals);
    ProvidersConserved(id, open, renewals);
    var was, l := AfterRenewals(id, open, renewals), AfterClear(id, open, renewals);
    RunsOnceEach(was.accepted);
    assert l.accepted == was.accepted;
    assert multiset(l.providers) == multiset(Runs(l.accepted));
    forall p
      ensures p in l.providers <==> p in l.accepted
      ensures p in l.providers <==> p in Runs(l.accepted)
    {
      RunsMembers(l.accepted, p);
      assert p in multiset(l.providers) <==> p in multiset(Runs(l.accepted));
    }
  }

  /** No installed provider has been released. */
  ghost predicate InstalledAlive(l: Life) {
    forall p :: p in InstalledProviders(l.ring) ==> p !in l.providers
  }

  /** At a time when one run of uses of each provider has begun, none of the installed ones has been released; when the
      last accepted one begins a second run, it has. */
  lemma AliveAt(l: Life)
    requires CurrentIsLast(l.ring, l.accepted)
    requires multiset(Runs(l.accepted)) == multiset(l.providers) + multiset(InstalledProviders(l.ring))
    ensures OnceEach(Runs(l.accepted)) ==> InstalledAlive(l)
    ensures l.accepted != [] && multiset(Runs(l.accepted))[l.accepted[|l.accepted| - 1]] >= 2 ==> !InstalledAlive(l)
  {
    hide Runs;
    var runs, installed := Runs(l.accepted), InstalledProviders(l.ring);
    assert forall p :: multiset(runs)[p] == multiset(l.providers)[p] + multiset(installed)[p];
    forall p
      ensures p in installed ==> multiset(installed)[p] == 1
      ensures p in runs <==> multiset(runs)[p] > 0
      ensures p in l.providers <==> multiset(l.providers)[p] > 0
    {
    }
    if l.accepted != [] {
      assert l.accepted[|l.accepted| - 1] == installed[0];
    }
  }

  /** ... after the Open and after each of the renewals. */
  ghost predicate AliveThroughout(id: UInt32, open: Request, renewals: seq<Request>) {
    InstalledAlive(AfterRenewals(id, open, renewals)) && (renewals == [] || AliveThroughout(id, open, renewals[..|renewals| - 1]))
  }

  /** All along, no installed provider has been released, if and only if every accepted renewal brought a fresh
      provider or the current one. */
  lemma {:induction false} InstalledProvidersAlive(id: UInt32, open: Request, renewals: seq<Request>)
    ensures AliveThroughout(id, open, renewals) <==> FreshOrCurrent(AcceptedProviders(id, open, renewals))
  {
    hide InstalledAlive, FreshOrCurrent, AcceptedProviders, CurrentIsLast, Runs, OnceEach, AfterRenewals, InstalledProviders;
    var l := AfterRenewals(id, open, renewals);
    AcceptedFromRequests(id, open, renewals);
    ProvidersConserved(id, open, renewals);
    RunsOnceEach(l.accepted);
    AliveAt(l);
    if renewals == [] {
      OneIsAccepted(id, open);
      OneIsFresh(l);
    } else {
      var earlier := renewals[..|renewals| - 1];
      var was := AfterRenewals(id, open, earlier);
      InstalledProvidersAlive(id, open, earlier);
      AcceptedFromRequests(id, open, earlier);
      RunsOnceEach(was.accepted);
      AcceptedGrows(id, open, renewals);
      OneMoreRun(was, l);
    }
  }

  lemma OneIsAccepted(id: UInt32, open: Request)
    ensures |AfterRenewals(id, open, []).accepted| <= 1
  {
  }

  lemma AcceptedGrows(id: UInt32, open: Request, renewals: seq<Request>)
    requires renewals != []
    ensures var was, now := AfterRenewals(id, open, renewals[..|renewals| - 1]).accepted, AfterRenewals(id, open, renewals).accepted;
      now == was || (now != [] && now == was + [now[|now| - 1]])
  {
    hide Renewing;
  }

  lemma OneIsFresh(l: Life)
    requires |l.accepted| <= 1
    ensures OnceEach(Runs(l.accepted))
  {
  }

  /** One renewal adds at most its own provider to the accepted ones. */
  lemma OneMoreRun(was: Life, l: Life)
    requires l.accepted == was.accepted || (l.accepted != [] && l.accepted == was.accepted + [l.accepted[|l.accepted| - 1]])
    ensures OnceEach(Runs(l.accepted)) ==> OnceEach(Runs(was.accepted))
    ensures OnceEach(Runs(was.accepted)) && !OnceEach(Runs(l.accepted)) ==>
      l.accepted != [] && multiset(Runs(l.accepted))[l.accepted[|l.accepted| - 1]] >= 2
  {
    hide Runs;
    if l.accepted != was.accepted {
      var p := l.accepted[|l.accepted| - 1];
      RunsSnoc(was.accepted, p);
      var before, now := Runs(was.accepted), Runs(l.accepted);
      if now != before {
        assert now == before + [p];
        assert forall x :: multiset(now)[x] == multiset(before)[x] + if x == p then 1 else 0;
        assert forall x :: x in before ==> x in now && multiset(before)[x] >= 1;
        assert forall x :: x in now ==> x in before || x == p;
      }
    }
  }

  /** An accepted call with this provider and no keysets. */
  function With(id: UInt32, transport: Handle, p: Provider): Request {
    Request(Some(transport), Slot(Token(id, 1, 0, 0), None, None, Some(p)))
  }

  lemma AfterOne(id: UInt32, open: Request, earlier: seq<Request>, q: Request)
    ensures var was := AfterRenewals(id, open, earlier);
      AfterRenewals(id, open, earlier + [q]) == After(was, Renewing(was.ring, q.transport, q.slot), q.slot.provider)
  {
    assert (earlier + [q])[..|earlier|] == earlier;
  }

  /** The calls that release a provider twice: it comes, another one comes, and it comes again. While it is installed
      the second time it has already been released. */
  lemma ProviderReleasedTwice(id: UInt32, transport: Handle, a: Provider, b: Provider)
    requires a != b
    ensures var open, renewals := With(id, transport, a), [With(id, transport, b)] + [With(id, transport, a)];
      && AfterRenewals(id, open, renewals).ring.current.provider == Some(a) && a in AfterRenewals(id, open, renewals).providers
      && multiset(AfterClear(id, open, renewals).providers)[a] == 2
  {
    var open, x := With(id, transport, a), With(id, transport, b);
    AfterOne(id, open, [], x);
    AfterOne(id, open, [x], open);
    assert [] + [x] == [x];
    var second, third := AfterRenewals(id, open, [x]), AfterRenewals(id, open, [x] + [open]);
    assert second.providers == [] && second.ring.previous.provider == Some(a) && second.ring.current.provider == Some(b);
    assert third.providers == [a];
    assert AfterClear(id, open, [x] + [open]).providers == [a, a, b];
  }
}
