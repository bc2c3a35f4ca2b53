/**
 The security sets of both sides from Open on (Stack/securechannel/opcua_secureconnection.c,
 Stack/securechannel/opcua_securelistener.c): Open leaves what the runs of `Renewal` start from, a
 token always finds the whole set that was installed with it, and its lifetime is an allowed one.
 */
module TokenSets {
  import opened Basics
  import opened SecureChannels
  import opened Renewal

  // ----- opening a channel on both sides -----

  /** The server's new channel once it has its id: it issues the first token and opens. */
  function ServerOpening(id: UInt32, transport: Handle, requestedLifetime: UInt32, now: nat,
                         clientKeys: Option<Keyset>, serverKeys: Option<Keyset>, provider: Provider): (Outcome, Token)
  {
    var (issued, token) := Issuing(NEW_RING.(channelId := id), id, requestedLifetime, now);
    (Opening(issued, Some(transport), Slot(token, clientKeys, serverKeys, Some(provider))), token)
  }

  /** The client's new channel, which already has its connection and its provider, opens with the token of the response. */
  function ClientOpening(transport: Handle, provider: Provider, token: Token,
                         clientKeys: Option<Keyset>, serverKeys: Option<Keyset>): Outcome
  {
    var waiting := NEW_RING.(transport := Some(transport), current := EMPTY_SLOT.(provider := Some(provider)));
    Opening(waiting.(channelId := token.channelId), Some(transport), Slot(token, serverKeys, clientKeys, Some(provider)))
  }

  /** Both channels, and nothing on its way. */
  function Joined(client: KeyRing, server: KeyRing): State {
    State(client, server, [], [], false, false, false, None, None, None)
  }

  /** What both sides of a channel get to open it. */
  datatype Setup = Setup(id: UInt32, lifetime: UInt32, now: nat, clientTransport: Handle, serverTransport: Handle,
    clientKeys: Option<Keyset>, serverKeys: Option<Keyset>, clientProvider: Provider, serverProvider: Provider)

  function Established(u: Setup): State {
    var (server, token) := ServerOpening(u.id, u.serverTransport, u.lifetime, u.now, u.clientKeys, u.serverKeys, u.serverProvider);
    Joined(ClientOpening(u.clientTransport, u.clientProvider, token, u.clientKeys, u.serverKeys).ring, server.ring)
  }

  /** Opening succeeds on both sides, and it leaves a state in which the runs of `Renewal` start. */
  lemma EstablishedIsInitial(u: Setup)
    ensures var (server, token) := ServerOpening(u.id, u.serverTransport, u.lifetime, u.now, u.clientKeys, u.serverKeys, u.serverProvider);
      && server.status == Good && token.tokenId == 1
      && ClientOpening(u.clientTransport, u.clientProvider, token, u.clientKeys, u.serverKeys).status == Good
    ensures Initial(Established(u))
    ensures Secured(Established(u).client) == Data(1, u.clientKeys) && Secured(Established(u).server) == Data(1, u.serverKeys)
  {
  }

  /** From the Open on, over any number of renewals and any interleaving, every message on the way is unpacked with the
      keys it was secured with. */
  lemma EveryMessageUnpacksFromOpen(u: Setup, steps: seq<Step>)
    requires Possible(Established(u), steps)
    ensures var t := Run(Established(u), steps);
      && (forall i :: 0 <= i < |t.toServer| && t.toServer[i].Data? ==> Unpacks(t.server, t.toServer[i]))
      && (forall i :: 0 <= i < |t.toClient| && t.toClient[i].Data? ==> Unpacks(t.client, t.toClient[i]))
  {
    hide Initial, Established, Unpacks, Run, Possible;
    EstablishedIsInitial(u);
    EveryMessageUnpacks(Established(u), steps);
  }

  // ----- a token finds its set -----

  datatype Side = Client | Server

  function RingOf(s: State, side: Side): KeyRing {
    if side.Client? then s.client else s.server
  }

  /** The sets that a step hands to Renew on that side: on the server from the renewal's own arguments, on the client
      from the response, with the provider the client has used all along. */
  function Brought(s: State, step: Step, side: Side): seq<Slot>
    requires Enabled(s, step)
  {
    match step
    case ServerRenews(_, lifetime, now, clientKeys, serverKeys, provider) =>
      if side.Server? then
        var token := Issuing(s.server, s.server.current.token.channelId, lifetime, now).1;
        [Slot(token, clientKeys, serverKeys, Some(provider))]
      else []
    case ClientApplies(_) =>
      var m := s.toClient[0];
      if side.Client? then [Slot(m.token, m.serverKeys, m.clientKeys, s.client.current.provider)] else []
    case _ => []
  }

  /** The sets handed in over a run, the oldest first. */
  function Installed(s: State, steps: seq<Step>, side: Side): seq<Slot>
    requires Possible(s, steps)
    decreases |steps|
  {
    if steps == [] then [] else Brought(s, steps[0], side) + Installed(Do(s, steps[0]), steps[1..], side)
  }

  /** The ring holds the two newest of the sets. */
  predicate HoldsNewest(r: KeyRing, sets: seq<Slot>) {
    |sets| >= 2 && r.previous == sets[|sets| - 2] && r.current == sets[|sets| - 1]
  }

  lemma StepHoldsNewest(s: State, g: Stage, step: Step, side: Side, sets: seq<Slot>)
    requires Inv(s, g) && Enabled(s, step) && HoldsNewest(RingOf(s, side), sets)
    ensures HoldsNewest(RingOf(Do(s, step), side), sets + Brought(s, step, side))
  {
    hide Do, Brought, Inv, Enabled;
    if step.ClientApplies? && side.Client? {
      ClientHoldsNewest(s, g, step.transport, sets);
    } else if step.ServerRenews? && side.Server? {
      ServerHoldsNewest(s, g, step, sets);
    } else {
      OthersBringNone(s, step, side);
      assert sets + [] == sets;
    }
  }

  lemma OthersBringNone(s: State, step: Step, side: Side)
    requires Enabled(s, step) && !(step.ClientApplies? && side.Client?) && !(step.ServerRenews? && side.Server?)
    ensures Brought(s, step, side) == []
    ensures RingOf(Do(s, step), side).current == RingOf(s, side).current && RingOf(Do(s, step), side).previous == RingOf(s, side).previous
  {
  }

  lemma ServerHoldsNewest(s: State, g: Stage, step: Step, sets: seq<Slot>)
    requires Inv(s, g) && step.ServerRenews? && Enabled(s, step) && HoldsNewest(s.server, sets)
    ensures HoldsNewest(Do(s, step).server, sets + Brought(s, step, Server))
  {
    hide ToServerMatches, ToClientMatches, FlagsMatch;
  }

  lemma ClientHoldsNewest(s: State, g: Stage, transport: Handle, sets: seq<Slot>)
    requires Inv(s, g) && Enabled(s, ClientApplies(transport)) && HoldsNewest(s.client, sets)
    ensures HoldsNewest(Do(s, ClientApplies(transport)).client, sets + Brought(s, ClientApplies(transport), Client))
  {
    hide ToServerMatches;
    ResponseIsAnswer(s, g);
  }

  lemma {:induction false} RunHoldsNewest(s: State, g: Stage, steps: seq<Step>, side: Side, sets: seq<Slot>)
    requires Inv(s, g) && Possible(s, steps) && HoldsNewest(RingOf(s, side), sets)
    ensures HoldsNewest(RingOf(Run(s, steps), side), sets + Installed(s, steps, side))
    decreases |steps|
  {
    hide Inv, Do, Enabled, Brought, HoldsNewest, RingOf;
    if steps == [] {
      assert sets + [] == sets;
    } else {
      var step, now := steps[0], sets + Brought(s, steps[0], side);
      StepHoldsNewest(s, g, step, side, sets);
      StepKeepsInv(s, g, step);
      RunHoldsNewest(Do(s, step), NextStage(s, g, step), steps[1..], side, now);
      assert now + Installed(Do(s, step), steps[1..], side) == sets + (Brought(s, step, side) + Installed(Do(s, step), steps[1..], side));
    }
  }

  /** Over any run, on either side: a token id finds the newest set installed with it, if that is one of the two newest
      of all, and finds nothing else; and what it finds is the whole set, with its own provider. */
  lemma TokenFindsItsSet(u: Setup, steps: seq<Step>, side: Side, tokenId: UInt32)
    requires Possible(Established(u), steps)
    ensures var s := Established(u); var r := RingOf(Run(s, steps), side);
      var sets := [EMPTY_SLOT, RingOf(s, side).current] + Installed(s, steps, side); var n := |sets|;
      && Lookup(r, tokenId).1 ==
           (if sets[n - 1].token.tokenId == tokenId then Some(sets[n - 1])
            else if sets[n - 2].token.tokenId == tokenId then Some(sets[n - 2])
            else None)
      && Lookup(r, tokenId).0 == r.(currentActive := r.currentActive || sets[n - 1].token.tokenId == tokenId)
      && SendingSlot(r) == sets[if r.currentActive then n - 1 else n - 2]
  {
    hide Initial, Established, Inv, Possible, Run, Installed;
    var s := Established(u);
    EstablishedIsInitial(u);
    InitialInv(s);
    NothingBefore(s, side);
    RunHoldsNewest(s, Idle, steps, side, [EMPTY_SLOT, RingOf(s, side).current]);
  }

  lemma NothingBefore(s: State, side: Side)
    requires Initial(s)
    ensures HoldsNewest(RingOf(s, side), [EMPTY_SLOT, RingOf(s, side).current])
  {
  }

  // ----- the lifetimes of the tokens in use -----

  predicate Allowed(t: Token) {
    LIFETIME_MIN <= t.revisedLifetime <= LIFETIME_MAX
  }

  predicate AllowedRing(r: KeyRing) {
    Allowed(r.current.token) && (Allowed(r.previous.token) || r.previous == EMPTY_SLOT)
  }

  predicate AllowedMessage(m: Message) {
    m.RenewResponse? ==> Allowed(m.token)
  }

  predicate AllowedWires(s: State) {
    && (forall i :: 0 <= i < |s.toClient| ==> AllowedMessage(s.toClient[i]))
    && (s.serverWriting.Some? ==> AllowedMessage(s.serverWriting.value))
    && (s.reply.Some? ==> AllowedMessage(s.reply.value))
  }

  predicate AllAllowed(s: State) {
    AllowedRing(s.client) && AllowedRing(s.server) && AllowedWires(s)
  }

  lemma RenewingKeepsAllowed(r: KeyRing, transport: Option<Handle>, slot: Slot)
    requires AllowedRing(r) && Allowed(slot.token)
    ensures AllowedRing(Renewing(r, transport, slot).ring) && AllowedRing(Opening(r, transport, slot).ring)
  {
  }

  lemma ReceivingKeepsAllowed(r: KeyRing, tokenId: UInt32)
    requires AllowedRing(r)
    ensures AllowedRing(Lookup(r, tokenId).0)
  {
  }

  lemma IssuedIsAllowed(r: KeyRing, channelId: UInt32, lifetime: UInt32, now: nat)
    requires AllowedRing(r)
    ensures AllowedRing(Issuing(r, channelId, lifetime, now).0) && Allowed(Issuing(r, channelId, lifetime, now).1)
  {
  }

  lemma StepKeepsAllowedRings(s: State, step: Step)
    requires AllAllowed(s) && Enabled(s, step)
    ensures AllowedRing(Do(s, step).client) && AllowedRing(Do(s, step).server)
  {
    hide AllowedRing, Allowed, Renewing, Opening, Lookup, Issuing;
    match step {
      case ServerReceives => ReceivingKeepsAllowed(s.server, s.toServer[0].tokenId);
      case ClientReceives => ReceivingKeepsAllowed(s.client, s.toClient[0].tokenId);
      case ServerRenews(transport, lifetime, now, clientKeys, serverKeys, provider) =>
        var (issued, token) := Issuing(s.server, s.server.current.token.channelId, lifetime, now);
        IssuedIsAllowed(s.server, s.server.current.token.channelId, lifetime, now);
        RenewingKeepsAllowed(issued, Some(transport), Slot(token, clientKeys, serverKeys, Some(provider)));
      case ServerRejects(_) => IssuedIsAllowed(s.server, 0, 0, 0);
      case ClientApplies(transport) =>
        var m := s.toClient[0];
        assert AllowedMessage(m);
        var slot := Slot(m.token, m.serverKeys, m.clientKeys, s.client.current.provider);
        RenewingKeepsAllowed(s.client, Some(transport), slot);
        FlagsAndIds(s.client, true, m.token.channelId);
        RenewingKeepsAllowed(s.client.(channelId := m.token.channelId), Some(transport), slot);
      case ClientActivates => FlagsAndIds(s.client, true, s.client.channelId);
      case _ =>
    }
  }

  lemma FlagsAndIds(r: KeyRing, active: bool, channelId: UInt32)
    requires AllowedRing(r)
    ensures AllowedRing(r.(currentActive := active)) && AllowedRing(r.(channelId := channelId))
  {
  }

  lemma StepKeepsAllowedWires(s: State, step: Step)
    requires AllAllowed(s) && Enabled(s, step)
    ensures AllowedWires(Do(s, step))
  {
    hide AllowedRing, Allowed, Renewing, Opening, Lookup, Issuing;
    if step.ServerRenews? {
      IssuedIsAllowed(s.server, s.server.current.token.channelId, step.lifetime, step.now);
    }
  }

  lemma StepKeepsAllowed(s: State, step: Step)
    requires AllAllowed(s) && Enabled(s, step)
    ensures AllAllowed(Do(s, step))
  {
    hide AllowedRing, AllowedWires, Do, Enabled;
    StepKeepsAllowedRings(s, step);
    StepKeepsAllowedWires(s, step);
  }

  lemma {:induction false} RunKeepsAllowed(s: State, steps: seq<Step>)
    requires AllAllowed(s) && Possible(s, steps)
    ensures AllAllowed(Run(s, steps))
    decreases |steps|
  {
    hide AllAllowed, Do, Enabled;
    if steps == [] {
    } else {
      StepKeepsAllowed(s, steps[0]);
      RunKeepsAllowed(Do(s, steps[0]), steps[1..]);
    }
  }

  /** Over any run, whatever lifetimes were requested: the tokens of both sides have an allowed lifetime, except the
      empty one before the first renewal. */
  lemma TokensInRange(u: Setup, steps: seq<Step>)
    requires Possible(Established(u), steps)
    ensures var t := Run(Established(u), steps);
      forall r :: r in {t.client, t.server} ==>
        && LIFETIME_MIN <= r.current.token.revisedLifetime <= LIFETIME_MAX
        && (r.previous == EMPTY_SLOT || LIFETIME_MIN <= r.previous.token.revisedLifetime <= LIFETIME_MAX)
  {
    RunKeepsAllowed(Established(u), steps);
  }
}
