/**
 Renewal of the security token between a client (Stack/securechannel/opcua_secureconnection.c) and a
 server (Stack/securechannel/opcua_securelistener.c), each with its own secure channel object, over
 two first-in first-out wires. Senders, the renew timer and the receiving threads of both sides are
 interleaved step by step, over any number of renewals.
 */
module Renewal {
  import opened Basics
  import opened SecureChannels

  datatype Message =
    /** Secured with the symmetric keys of a token. */
    | Data(tokenId: UInt32, key: Option<Keyset>)
    /** The OpenSecureChannel messages are secured asymmetrically and carry no token id. */
    | RenewRequest
    | RenewResponse(token: Token, clientKeys: Option<Keyset>, serverKeys: Option<Keyset>)
    | RenewFault

  datatype State = State(
    client: KeyRing,
    server: KeyRing,
    toServer: seq<Message>,
    toClient: seq<Message>,
    /** bRenewActive of the connection. */
    renewActive: bool,
    /** The timer has set bRenewActive, the request is not sent yet. */
    starting: bool,
    /** The client's channel is renewed, its activation flag is not set yet. */
    applying: bool,
    /** A message secured under the write mutex and not yet handed to the transport. */
    clientWriting: Option<Message>,
    serverWriting: Option<Message>,
    /** The answer the server's receiving thread is about to send. */
    reply: Option<Message>)

  datatype Step =
    /** A sender takes the write mutex, picks the token and secures a message; then it is sent, or is not. */
    | ClientSecure
    | ClientWrite
    | ClientWriteFails
    | ServerSecure
    | ServerWrite
    | ServerWriteFails
    | TimerStarts
    | TimerSends
    | TimerSendFails
    | ServerReceives
    | ServerRenews(transport: Handle, lifetime: UInt32, now: nat, clientKeys: Option<Keyset>, serverKeys: Option<Keyset>, provider: Provider)
    | ServerRejects(afterToken: bool)
    | ServerReplies
    | ServerReplyFails
    | ClientReceives
    | ClientApplies(transport: Handle)
    | ClientActivates
    | ClientIgnores

  function Secured(r: KeyRing): Message {
    Data(SendingSlot(r).token.tokenId, SendingSlot(r).sending)
  }

  predicate HeadIsData(wire: seq<Message>) {
    wire != [] && wire[0].Data?
  }

  predicate Enabled(s: State, step: Step) {
    match step
    case ClientSecure => s.clientWriting.None?
    case ClientWrite => s.clientWriting.Some?
    case ClientWriteFails => s.clientWriting.Some?
    case ServerSecure => s.serverWriting.None?
    case ServerWrite => s.serverWriting.Some?
    case ServerWriteFails => s.serverWriting.Some?
    case TimerStarts => !s.renewActive && !s.applying
    case TimerSends => s.starting && s.clientWriting.None?
    case TimerSendFails => s.starting
    case ServerReceives => s.reply.None? && HeadIsData(s.toServer)
    case ServerRenews(transport, _, _, _, _, _) =>
      s.reply.None? && s.toServer != [] && s.toServer[0].RenewRequest? && s.server.transport == Some(transport)
    case ServerRejects(_) => s.reply.None? && s.toServer != [] && s.toServer[0].RenewRequest?
    case ServerReplies => s.reply.Some? && s.serverWriting.None?
    case ServerReplyFails => s.reply.Some?
    case ClientReceives => HeadIsData(s.toClient)
    case ClientApplies(transport) =>
      !s.applying && s.toClient != [] && s.toClient[0].RenewResponse? && s.client.transport == Some(transport)
    case ClientActivates => s.applying
    case ClientIgnores => !s.applying && s.toClient != [] && (s.toClient[0].RenewResponse? || s.toClient[0].RenewFault?)
  }

  /** RenewSecurityToken on the current token, then Renew with the new token and keys. */
  function ServerRenewal(r: KeyRing, transport: Handle, lifetime: UInt32, now: nat,
                         clientKeys: Option<Keyset>, serverKeys: Option<Keyset>, provider: Provider): (Outcome, Token)
  {
    var (issued, token) := Issuing(r, r.current.token.channelId, lifetime, now);
    (Renewing(issued, Some(transport), Slot(token, clientKeys, serverKeys, Some(provider))), token)
  }

  /** The client's channel after an OpenSecureChannel response: Renew while a renewal is active, else Open. */
  function ClientRenewal(s: State, m: Message, transport: Handle): Outcome
    requires m.RenewResponse?
  {
    var slot := Slot(m.token, m.serverKeys, m.clientKeys, s.client.current.provider);
    if s.renewActive then Renewing(s.client, Some(transport), slot)
    else Opening(s.client.(channelId := m.token.channelId), Some(transport), slot)
  }

  function Do(s: State, step: Step): State
    requires Enabled(s, step)
  {
    match step
    case ClientSecure => s.(clientWriting := Some(Secured(s.client)))
    case ClientWrite => s.(toServer := s.toServer + [s.clientWriting.value], clientWriting := None)
    case ClientWriteFails => s.(clientWriting := None)
    case ServerSecure => s.(serverWriting := Some(Secured(s.server)))
    case ServerWrite => s.(toClient := s.toClient + [s.serverWriting.value], serverWriting := None)
    case ServerWriteFails => s.(serverWriting := None)
    case TimerStarts => s.(renewActive := true, starting := true)
    case TimerSends => s.(toServer := s.toServer + [RenewRequest], starting := false)
    case TimerSendFails => s.(renewActive := false, starting := false)
    case ServerReceives => s.(server := Lookup(s.server, s.toServer[0].tokenId).0, toServer := s.toServer[1..])
    case ServerRenews(transport, lifetime, now, clientKeys, serverKeys, provider) =>
      var (o, token) := ServerRenewal(s.server, transport, lifetime, now, clientKeys, serverKeys, provider);
      s.(server := o.ring, toServer := s.toServer[1..],
         reply := Some(if o.status == Good then RenewResponse(token, clientKeys, serverKeys) else RenewFault))
    case ServerRejects(afterToken) =>
      s.(server := if afterToken then Issuing(s.server, 0, 0, 0).0 else s.server, toServer := s.toServer[1..], reply := Some(RenewFault))
    case ServerReplies => s.(toClient := s.toClient + [s.reply.value], reply := None)
    case ServerReplyFails => s.(reply := None)
    case ClientReceives => s.(client := Lookup(s.client, s.toClient[0].tokenId).0, toClient := s.toClient[1..])
    case ClientApplies(transport) =>
      s.(client := ClientRenewal(s, s.toClient[0], transport).ring, toClient := s.toClient[1..], renewActive := false, applying := true)
    case ClientActivates => s.(client := s.client.(currentActive := true), applying := false)
    case ClientIgnores => s.(toClient := s.toClient[1..])
  }

  predicate Possible(s: State, steps: seq<Step>)
    decreases |steps|
  {
    steps == [] || (Enabled(s, steps[0]) && Possible(Do(s, steps[0]), steps[1..]))
  }

  function Run(s: State, steps: seq<Step>): State
    requires Possible(s, steps)
    decreases |steps|
  {
    if steps == [] then s else Run(Do(s, steps[0]), steps[1..])
  }

  // ----- the keys of both sides -----

  /** The two sides of one token: the same token, with the directions of the keys swapped. */
  predicate Mirror(c: Slot, s: Slot) {
    c.token == s.token && c.receiving == s.sending && c.sending == s.receiving
  }

  /** The channels are open on both sides with the first token, nothing is on its way. */
  predicate Initial(s: State) {
    && s.client.previous == EMPTY_SLOT == s.server.previous
    && s.client.current.token.tokenId == 1 && s.server.nextTokenId == 2
    && Mirror(s.client.current, s.server.current)
    && s.client.currentActive && s.server.currentActive
    && Connected(s.client) && Connected(s.server) && s.client.channelId == s.server.channelId
    && s.toServer == [] && s.toClient == []
    && !s.renewActive && !s.starting && !s.applying
    && s.clientWriting.None? && s.serverWriting.None? && s.reply.None?
  }

  /** The channel is bound to a transport connection, and its current token belongs to the channel. */
  predicate Connected(r: KeyRing) {
    && r.transport.Some? && r.current.provider.Some?
    && r.current.token.channelId == r.channelId
  }

  /** What the receiver needs to unpack the message: the keys of the current or the previous token. */
  predicate FitsSlot(slot: Slot, m: Message)
    requires m.Data?
  {
    slot.token.tokenId == m.tokenId && slot.receiving == m.key
  }

  predicate Fits(r: KeyRing, m: Message)
    requires m.Data?
  {
    FitsSlot(r.current, m) || FitsSlot(r.previous, m)
  }

  /** Token ids are consecutive, modulo the 32-bit wrap. */
  predicate Consecutive(r: KeyRing) {
    r.current.token.tokenId == Succ32(r.previous.token.tokenId)
  }

  // ----- the stages of a renewal -----

  /** No step reads the stage: it is where the proof says that the renewal stands. A request and a
      response are at a position of their wire. Stalled renewals were rejected, ignored, or not answered. */
  datatype Stage = Idle | Starting | Requested(at: nat) | Renewed | Answered(at: nat) | Stalled(ahead: bool)

  predicate Ahead(g: Stage) {
    g.Renewed? || g.Answered? || (g.Stalled? && g.ahead)
  }

  /** The server has the tokens of the client, or one more. */
  predicate TokensMatch(s: State, g: Stage) {
    && Consecutive(s.client) && Consecutive(s.server)
    && (if Ahead(g) then Mirror(s.client.current, s.server.previous) && !s.server.currentActive
        else Mirror(s.client.current, s.server.current) && Mirror(s.client.previous, s.server.previous))
    && (!g.Stalled? ==> s.server.nextTokenId == Succ32(s.server.current.token.tokenId))
    && Connected(s.client) && Connected(s.server) && s.client.channelId == s.server.channelId
  }

  predicate FlagsMatch(s: State, g: Stage) {
    && (s.renewActive <==> !g.Idle?)
    && (s.starting <==> g.Starting?)
    && (s.applying ==> g.Idle?)
    && (s.applying || s.client.currentActive)
  }

  predicate IsAnswer(r: KeyRing, m: Message) {
    m == RenewResponse(r.current.token, r.current.receiving, r.current.sending)
  }

  /** A message of the client, sent before or after the request that is on its way. */
  predicate ClientMessage(s: State, g: Stage, m: Message, afterRequest: bool) {
    m.Data? &&
      if Ahead(g) then FitsSlot(s.server.previous, m)
      else if g.Requested? && afterRequest then FitsSlot(s.server.current, m)
      else Fits(s.server, m)
  }

  predicate ServerMessage(s: State, g: Stage, m: Message, afterAnswer: bool) {
    m.Data? && if g.Answered? && afterAnswer then FitsSlot(s.client.current, m) else Fits(s.client, m)
  }

  predicate ToServerMatches(s: State, g: Stage) {
    && (g.Requested? ==> g.at < |s.toServer| && s.toServer[g.at].RenewRequest?)
    && (forall i :: 0 <= i < |s.toServer| && !(g.Requested? && i == g.at) ==>
          ClientMessage(s, g, s.toServer[i], g.Requested? && i > g.at))
    && (s.clientWriting.Some? ==> ClientMessage(s, g, s.clientWriting.value, true))
  }

  predicate ToClientMatches(s: State, g: Stage) {
    && (g.Answered? ==> g.at < |s.toClient| && IsAnswer(s.server, s.toClient[g.at]))
    && (forall i :: 0 <= i < |s.toClient| && !(g.Answered? && i == g.at) ==>
          s.toClient[i].RenewFault? || ServerMessage(s, g, s.toClient[i], g.Answered? && i > g.at))
    && (s.serverWriting.Some? ==> ServerMessage(s, g, s.serverWriting.value, true))
    && (if g.Renewed? then s.reply.Some? && IsAnswer(s.server, s.reply.value) else s.reply.None? || s.reply.value.RenewFault?)
  }

  predicate Inv(s: State, g: Stage) {
    TokensMatch(s, g) && FlagsMatch(s, g) && ToServerMatches(s, g) && ToClientMatches(s, g)
  }

  function NextStage(s: State, g: Stage, step: Step): Stage
    requires Enabled(s, step)
  {
    match step
    case TimerStarts => Starting
    case TimerSends => Requested(|s.toServer|)
    case TimerSendFails => Idle
    case ServerReceives => if g.Requested? && g.at > 0 then Requested(g.at - 1) else g
    case ServerRenews(_, _, _, _, _, _) => Renewed
    case ServerRejects(_) => Stalled(false)
    case ServerReplies => if g.Renewed? then Answered(|s.toClient|) else g
    case ServerReplyFails => if g.Renewed? then Stalled(true) else g
    case ClientReceives => if g.Answered? && g.at > 0 then Answered(g.at - 1) else g
    case ClientApplies(_) => Idle
    case ClientIgnores => if g.Answered? then (if g.at == 0 then Stalled(true) else Answered(g.at - 1)) else g
    case _ => g
  }

  /** A response is only received while a renewal is active, and it brings the server's current token. */
  lemma ResponseIsAnswer(s: State, g: Stage)
    requires Inv(s, g) && s.toClient != [] && s.toClient[0].RenewResponse?
    ensures g == Answered(0) && s.renewActive && IsAnswer(s.server, s.toClient[0])
  {
  }

  lemma RequestIsExpected(s: State, g: Stage)
    requires Inv(s, g) && s.toServer != [] && s.toServer[0].RenewRequest?
    ensures g == Requested(0)
  {
  }

  /** The client's Renew of a received answer succeeds. */
  lemma ClientRenewalSucceeds(s: State, g: Stage, transport: Handle)
    requires Inv(s, g) && Enabled(s, ClientApplies(transport))
    ensures var o := ClientRenewal(s, s.toClient[0], transport);
      && o.status == Good
      && o.ring.previous == s.client.current && !o.ring.currentActive
      && Mirror(o.ring.current, s.server.current) && Mirror(o.ring.previous, s.server.previous)
      && Consecutive(o.ring) && Connected(o.ring) && o.ring.channelId == s.client.channelId
  {
    hide ToServerMatches, ToClientMatches;
    ResponseIsAnswer(s, g);
  }

  lemma ClientAppliesKeeps(s: State, g: Stage, transport: Handle)
    requires Inv(s, g) && Enabled(s, ClientApplies(transport))
    ensures Inv(Do(s, ClientApplies(transport)), Idle)
  {
    hide ClientRenewal;
    ResponseIsAnswer(s, g);
    ClientRenewalSucceeds(s, g, transport);
    var t := Do(s, ClientApplies(transport));
    assert ToServerMatches(t, Idle);
    forall i | 0 <= i < |t.toClient|
      ensures t.toClient[i].RenewFault? || ServerMessage(t, Idle, t.toClient[i], false)
    {
      assert t.toClient[i] == s.toClient[i + 1];
    }
  }

  lemma ServerRenewsKeeps(s: State, g: Stage, step: Step)
    requires step.ServerRenews? && Inv(s, g) && Enabled(s, step)
    ensures Inv(Do(s, step), Renewed)
  {
    RequestIsExpected(s, g);
    var t := Do(s, step);
    forall i | 0 <= i < |t.toServer|
      ensures ClientMessage(t, Renewed, t.toServer[i], false)
    {
      assert t.toServer[i] == s.toServer[i + 1];
    }
  }

  lemma SendingKeeps(s: State, g: Stage, step: Step)
    requires step.ClientSecure? || step.ClientWrite? || step.ClientWriteFails? || step.ServerSecure? || step.ServerWrite? || step.ServerWriteFails?
    requires Inv(s, g) && Enabled(s, step)
    ensures Inv(Do(s, step), g)
  {
  }

  lemma TimerKeeps(s: State, g: Stage, step: Step)
    requires step.TimerStarts? || step.TimerSends? || step.TimerSendFails? || step.ClientActivates?
    requires Inv(s, g) && Enabled(s, step)
    ensures Inv(Do(s, step), NextStage(s, g, step))
  {
  }

  lemma ServerReceivesKeeps(s: State, g: Stage)
    requires Inv(s, g) && Enabled(s, ServerReceives)
    ensures Inv(Do(s, ServerReceives), NextStage(s, g, ServerReceives))
  {
    var t, h := Do(s, ServerReceives), NextStage(s, g, ServerReceives);
    forall i | 0 <= i < |t.toServer|
      ensures t.toServer[i] == s.toServer[i + 1]
    {
    }
    assert TokensMatch(t, h);
  }

  lemma ServerAnswersKeeps(s: State, g: Stage, step: Step)
    requires step.ServerRejects? || step.ServerReplies? || step.ServerReplyFails?
    requires Inv(s, g) && Enabled(s, step)
    ensures Inv(Do(s, step), NextStage(s, g, step))
  {
    if step.ServerRejects? { RequestIsExpected(s, g); }
  }

  lemma ClientReceivesKeeps(s: State, g: Stage)
    requires Inv(s, g) && Enabled(s, ClientReceives)
    ensures Inv(Do(s, ClientReceives), NextStage(s, g, ClientReceives))
  {
    var t, h := Do(s, ClientReceives), NextStage(s, g, ClientReceives);
    forall i | 0 <= i < |t.toClient|
      ensures t.toClient[i] == s.toClient[i + 1]
    {
    }
    assert TokensMatch(t, h);
  }

  lemma ClientIgnoresKeeps(s: State, g: Stage)
    requires Inv(s, g) && Enabled(s, ClientIgnores)
    ensures Inv(Do(s, ClientIgnores), NextStage(s, g, ClientIgnores))
  {
    if s.toClient[0].RenewResponse? { ResponseIsAnswer(s, g); }
  }

  lemma StepKeepsInv(s: State, g: Stage, step: Step)
    requires Inv(s, g) && Enabled(s, step)
    ensures Inv(Do(s, step), NextStage(s, g, step))
  {
    hide Inv, Do, Enabled;
    match step {
      case ClientSecure => SendingKeeps(s, g, step);
      case ClientWrite => SendingKeeps(s, g, step);
      case ClientWriteFails => SendingKeeps(s, g, step);
      case ServerSecure => SendingKeeps(s, g, step);
      case ServerWrite => SendingKeeps(s, g, step);
      case ServerWriteFails => SendingKeeps(s, g, step);
      case TimerStarts => TimerKeeps(s, g, step);
      case TimerSends => TimerKeeps(s, g, step);
      case TimerSendFails => TimerKeeps(s, g, step);
      case ServerReceives => ServerReceivesKeeps(s, g);
      case ServerRenews(_, _, _, _, _, _) => ServerRenewsKeeps(s, g, step);
      case ServerRejects(_) => ServerAnswersKeeps(s, g, step);
      case ServerReplies => ServerAnswersKeeps(s, g, step);
      case ServerReplyFails => ServerAnswersKeeps(s, g, step);
      case ClientReceives => ClientReceivesKeeps(s, g);
      case ClientApplies(transport) => ClientAppliesKeeps(s, g, transport);
      case ClientActivates => TimerKeeps(s, g, step);
      case ClientIgnores => ClientIgnoresKeeps(s, g);
    }
  }

  lemma {:induction false} RunKeepsInv(s: State, g: Stage, steps: seq<Step>) returns (h: Stage)
    requires Inv(s, g) && Possible(s, steps)
    ensures Inv(Run(s, steps), h)
    decreases |steps|
  {
    hide Inv, Do, Enabled;
    if steps == [] {
      h := g;
    } else {
      StepKeepsInv(s, g, steps[0]);
      h := RunKeepsInv(Do(s, steps[0]), NextStage(s, g, steps[0]), steps[1..]);
    }
  }

  // ----- what every run guarantees -----

  /** The receiver finds the security set for the message, and its receiving keys are those the message was secured with. */
  predicate Unpacks(r: KeyRing, m: Message)
    requires m.Data?
  {
    var found := Lookup(r, m.tokenId).1;
    found.Some? && found.value.receiving == m.key
  }

  lemma FitsUnpacks(r: KeyRing, m: Message)
    requires m.Data? && Consecutive(r) && Fits(r, m)
    ensures Unpacks(r, m)
  {
  }

  /** Over any run, any number of renewals and any interleaving: each message on the way, in either
      direction, carries a token that its receiver knows, and is unpacked with the keys it was secured with. */
  lemma EveryMessageUnpacks(s: State, steps: seq<Step>)
    requires Initial(s) && Possible(s, steps)
    ensures var t := Run(s, steps);
      && (forall i :: 0 <= i < |t.toServer| && t.toServer[i].Data? ==> Unpacks(t.server, t.toServer[i]))
      && (forall i :: 0 <= i < |t.toClient| && t.toClient[i].Data? ==> Unpacks(t.client, t.toClient[i]))
  {
    hide Unpacks;
    var g := RunKeepsInv(s, Idle, steps);
    var t := Run(s, steps);
    forall i | 0 <= i < |t.toServer| && t.toServer[i].Data?
      ensures Unpacks(t.server, t.toServer[i])
    {
      assert ClientMessage(t, g, t.toServer[i], g.Requested? && i > g.at);
      FitsUnpacks(t.server, t.toServer[i]);
    }
    forall i | 0 <= i < |t.toClient| && t.toClient[i].Data?
      ensures Unpacks(t.client, t.toClient[i])
    {
      assert ServerMessage(t, g, t.toClient[i], g.Answered? && i > g.at);
      FitsUnpacks(t.client, t.toClient[i]);
    }
  }

  /** Over any run: neither side's Renew is refused, and when the client has renewed, both sides hold
      the same current and previous token with their keys in mirror image. */
  lemma RenewalsSucceed(s: State, steps: seq<Step>, step: Step)
    requires Initial(s) && Possible(s, steps) && Enabled(Run(s, steps), step)
    ensures var t := Run(s, steps);
      match step
      case ServerRenews(transport, lifetime, now, ck, sk, p) =>
        ServerRenewal(t.server, transport, lifetime, now, ck, sk, p).0.status == Good
      case ClientApplies(transport) =>
        var o := ClientRenewal(t, t.toClient[0], transport);
        o.status == Good && Mirror(o.ring.current, t.server.current) && Mirror(o.ring.previous, t.server.previous)
      case _ => true
  {
    var t := Run(s, steps);
    var g := RunKeepsInv(s, Idle, steps);
    if step.ClientApplies? {
      ClientRenewalSucceeds(t, g, step.transport);
    }
  }

  /** Over any run: a renew response only arrives while bRenewActive is set, so it is taken for a renewal and never for
      an Open; it brings the server's current token and keys, and there is only one. */
  lemma ResponsesAnswerRenewal(s: State, steps: seq<Step>, i: nat)
    requires Initial(s) && Possible(s, steps)
    requires i < |Run(s, steps).toClient| && Run(s, steps).toClient[i].RenewResponse?
    ensures var t := Run(s, steps);
      && t.renewActive && IsAnswer(t.server, t.toClient[i])
      && forall j :: 0 <= j < |t.toClient| && t.toClient[j].RenewResponse? ==> j == i
  {
    hide TokensMatch, ToServerMatches, Run;
    var g := RunKeepsInv(s, Idle, steps) by { InitialInv(s); }
    var t := Run(s, steps);
    forall j | 0 <= j < |t.toClient| && t.toClient[j].RenewResponse?
      ensures g == Answered(j)
    {
      assert !(g.Answered? && j == g.at) ==> t.toClient[j].RenewFault? || ServerMessage(t, g, t.toClient[j], g.Answered? && j > g.at);
    }
  }

  lemma InitialInv(s: State)
    requires Initial(s)
    ensures Inv(s, Idle)
  {
  }

  /** Over any run: the server only sends with its current token when the client holds that token too. */
  lemma ServerTokenIsInstalled(s: State, steps: seq<Step>)
    requires Initial(s) && Possible(s, steps)
    ensures var t := Run(s, steps); t.server.currentActive ==> Mirror(t.client.current, t.server.current)
  {
    var g := RunKeepsInv(s, Idle, steps);
  }

  /** No step of the run is a renewal on the server or brings it a message with its current token. */
  predicate Unseen(s: State, steps: seq<Step>)
    requires Possible(s, steps)
    decreases |steps|
  {
    steps == [] ||
      (&& !steps[0].ServerRenews?
       && !(steps[0].ServerReceives? && s.toServer[0].tokenId == s.server.current.token.tokenId)
       && Unseen(Do(s, steps[0]), steps[1..]))
  }

  /** After a renewal the server goes on sending with the token, the keys and the provider it had before,
      until a message secured with the new token has arrived. */
  lemma OldTokenUntilSeen(s: State, step: Step, steps: seq<Step>)
    requires step.ServerRenews? && Enabled(s, step)
    requires ServerRenewal(s.server, step.transport, step.lifetime, step.now, step.clientKeys, step.serverKeys, step.provider).0.status == Good
    requires Possible(Do(s, step), steps) && Unseen(Do(s, step), steps)
    ensures SendingSlot(Run(Do(s, step), steps).server) == s.server.current
  {
    UnseenStaysInactive(Do(s, step), steps);
  }

  lemma {:induction false} UnseenStaysInactive(s: State, steps: seq<Step>)
    requires Possible(s, steps) && Unseen(s, steps) && !s.server.currentActive
    ensures var t := Run(s, steps); t.server.previous == s.server.previous && !t.server.currentActive
    decreases |steps|
  {
    if steps == [] {
    } else {
      UnseenStaysInactive(Do(s, steps[0]), steps[1..]);
    }
  }

  /** Why only one renewal may be under way (bRenewActive): had the server renewed twice in a row, a message
      that the client had sent with its token before would carry a token the server no longer knows. */
  lemma SecondRenewalForgets(r: KeyRing, transport: Handle, first: Keyset, second: Keyset, provider: Provider)
    requires Connected(r) && r.transport == Some(transport) && r.nextTokenId == Succ32(r.current.token.tokenId)
    ensures var once := ServerRenewal(r, transport, 0, 0, Some(first), Some(first), provider).0.ring;
      var twice := ServerRenewal(once, transport, 0, 0, Some(second), Some(second), provider).0.ring;
      var m := Data(r.current.token.tokenId, r.current.receiving);
      Unpacks(once, m) && !Unpacks(twice, m)
  {
  }

  // ----- renewals do happen -----

  /** Nothing is on its way and no renewal is going on. */
  predicate Quiet(s: State) {
    && s.toServer == [] && s.toClient == []
    && !s.renewActive && !s.starting && !s.applying
    && s.clientWriting.None? && s.serverWriting.None? && s.reply.None?
  }

  lemma RunTwo(s: State, a: Step, b: Step)
    requires Enabled(s, a) && Enabled(Do(s, a), b)
    ensures Possible(s, [a, b]) && Run(s, [a, b]) == Do(Do(s, a), b)
  {
    hide Do, Enabled;
    assert [a, b][1..] == [b] && [b][1..] == [];
    assert Possible(Do(Do(s, a), b), []) && Run(Do(Do(s, a), b), []) == Do(Do(s, a), b);
    assert Possible(Do(s, a), [b]) && Run(Do(s, a), [b]) == Do(Do(s, a), b);
  }

  lemma {:induction false} RunConcat(s: State, first: seq<Step>, rest: seq<Step>)
    requires Possible(s, first) && Possible(Run(s, first), rest)
    ensures Possible(s, first + rest) && Run(s, first + rest) == Run(Run(s, first), rest)
    decreases |first|
  {
    hide Do, Enabled;
    if first == [] {
      assert first + rest == rest;
    } else {
      RunConcat(Do(s, first[0]), first[1..], rest);
      assert (first + rest)[1..] == first[1..] + rest;
    }
  }

  function AfterRequest(s: State): State {
    s.(renewActive := true, toServer := [RenewRequest])
  }

  function AfterAnswer(s: State, ring: KeyRing): State {
    s.(renewActive := true, server := ring,
       toClient := [RenewResponse(ring.current.token, ring.current.receiving, ring.current.sending)])
  }

  lemma TimerRequests(s: State)
    requires Quiet(s)
    ensures Possible(s, [TimerStarts, TimerSends]) && Run(s, [TimerStarts, TimerSends]) == AfterRequest(s)
  {
  }

  lemma ServerAnswers(s: State, keys: Keyset) returns (ring: KeyRing, steps: seq<Step>)
    requires Inv(s, Idle) && Quiet(s)
    ensures ring.previous == s.server.current && ring.current.token.tokenId == Succ32(s.server.current.token.tokenId)
    ensures ring.current.token.channelId == s.client.channelId && ring.current.receiving == Some(keys)
    ensures Possible(AfterRequest(s), steps) && Run(AfterRequest(s), steps) == AfterAnswer(s, ring)
  {
    var t, transport, p := AfterRequest(s), s.server.transport.value, s.server.current.provider.value;
    var (o, token) := ServerRenewal(s.server, transport, 0, 0, Some(keys), Some(keys), p);
    ring := o.ring;
    var step := ServerRenews(transport, 0, 0, Some(keys), Some(keys), p);
    assert Do(Do(t, step), ServerReplies) == AfterAnswer(s, ring);
    RunTwo(t, step, ServerReplies);
    steps := [step, ServerReplies];
  }

  lemma ClientInstalls(s: State, ring: KeyRing) returns (client: KeyRing, steps: seq<Step>)
    requires Inv(s, Idle) && Quiet(s) && ring.current.token.channelId == s.client.channelId
    ensures client.current.token == ring.current.token && client.current.sending == ring.current.receiving && client.currentActive
    ensures Possible(AfterAnswer(s, ring), steps)
    ensures Run(AfterAnswer(s, ring), steps) == s.(client := client, server := ring)
  {
    var t, step := AfterAnswer(s, ring), ClientApplies(s.client.transport.value);
    client := ClientRenewal(t, t.toClient[0], s.client.transport.value).ring.(currentActive := true);
    assert Do(Do(t, step), ClientActivates) == s.(client := client, server := ring);
    RunTwo(t, step, ClientActivates);
    steps := [step, ClientActivates];
  }

  /** The first message with the new token activates it on the server. */
  lemma NewTokenArrives(s: State) returns (steps: seq<Step>)
    requires Quiet(s) && s.client.currentActive && s.client.current.token == s.server.current.token
    ensures Possible(s, steps) && Run(s, steps) == s.(server := s.server.(currentActive := true))
  {
    var t := s.(toServer := [Secured(s.client)]);
    assert Do(Do(s, ClientSecure), ClientWrite) == t;
    RunTwo(s, ClientSecure, ClientWrite);
    assert Do(t, ServerReceives) == s.(server := s.server.(currentActive := true));
    assert [ServerReceives][1..] == [] && Possible(Do(t, ServerReceives), []);
    RunConcat(s, [ClientSecure, ClientWrite], [ServerReceives]);
    steps := [ClientSecure, ClientWrite] + [ServerReceives];
  }

  /** From every quiet state a renewal can be completed: both sides then use the next token. */
  lemma RenewalCanComplete(s: State, keys: Keyset) returns (steps: seq<Step>)
    requires Inv(s, Idle) && Quiet(s)
    ensures Possible(s, steps)
    ensures var t := Run(s, steps);
      && Quiet(t) && t.client.currentActive && t.server.currentActive
      && t.client.current.token == t.server.current.token
      && t.server.current.token.tokenId == Succ32(s.server.current.token.tokenId)
      && t.client.current.sending == Some(keys) && t.server.previous == s.server.current
  {
    hide Do, Enabled, Inv;
    TimerRequests(s);
    var ring, answer := ServerAnswers(s, keys);
    var client, install := ClientInstalls(s, ring);
    var last := NewTokenArrives(s.(client := client, server := ring));
    RunConcat(AfterAnswer(s, ring), install, last);
    RunConcat(AfterRequest(s), answer, install + last);
    RunConcat(s, [TimerStarts, TimerSends], answer + (install + last));
    steps := [TimerStarts, TimerSends] + (answer + (install + last));
  }
}
