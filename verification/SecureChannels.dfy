/**
 The secure channel object of Stack/securechannel/opcua_tcpsecurechannel.c: the current and the
 previous security token with their keysets and crypto providers, the activation flag, the sequence
 counters and the expiration counters. Keysets and providers are opaque identities. A released
 keyset or provider is recorded in a ghost log.
 */
module SecureChannels {
  import opened Basics

  datatype Keyset = Keyset(id: nat)
  datatype Provider = Provider(id: nat)
  type Handle = nat

  datatype Token = Token(channelId: UInt32, tokenId: UInt32, createdAt: nat, revisedLifetime: UInt32)

  const NO_TOKEN := Token(0, 0, 0, 0)
  const CHANNEL_ID_INVALID: UInt32 := 0
  const STARTING_SEQUENCE_NUMBER: UInt32 := 0
  const LIFETIME_MIN: UInt32 := 600000
  const LIFETIME_MAX: UInt32 := 3600000
  const WATCHDOG_INTERVAL: UInt32 := 10000

  datatype ChannelState = Unknown | Opened | Closed

  // ----- the security sets as a value -----

  /** A token with the keys that belong to it. */
  datatype Slot = Slot(token: Token, receiving: Option<Keyset>, sending: Option<Keyset>, provider: Option<Provider>)

  const EMPTY_SLOT := Slot(NO_TOKEN, None, None, None)

  datatype KeyRing = KeyRing(
    channelId: UInt32,
    transport: Option<Handle>,
    current: Slot,
    previous: Slot,
    currentActive: bool,
    nextTokenId: UInt32)

  const NEW_RING := KeyRing(CHANNEL_ID_INVALID, None, EMPTY_SLOT, EMPTY_SLOT, false, 1)

  /** What a call leaves behind: the new security sets, the status, and what it released. */
  datatype Outcome = Outcome(ring: KeyRing, status: Status, keysets: seq<Keyset>, providers: seq<Provider>)

  function Held<X>(x: Option<X>): seq<X> {
    if x.Some? then [x.value] else []
  }

  /** The keysets of a slot, as they are released: receiving before sending. */
  function KeysetsOf(s: Slot): seq<Keyset> {
    Held(s.receiving) + Held(s.sending)
  }

  /** The security set for a token id, looked up by the receiver. Seeing the current token activates it. */
  function Lookup(r: KeyRing, tokenId: UInt32): (KeyRing, Option<Slot>) {
    if r.current.token.tokenId == tokenId then (r.(currentActive := true), Some(r.current))
    else if r.previous.token.tokenId == tokenId then (r, Some(r.previous))
    else (r, None)
  }

  /** The security set the sender uses. */
  function SendingSlot(r: KeyRing): Slot {
    if r.currentActive then r.current else r.previous
  }

  function Opening(r: KeyRing, transport: Option<Handle>, s: Slot): Outcome {
    if transport.None? || s.provider.None? then Outcome(r, BadInvalidArgument, [], [])
    else if r.channelId != s.token.channelId then Outcome(r, BadSecureChannelIdInvalid, KeysetsOf(s), [])
    else Outcome(r.(transport := transport, current := s, currentActive := true), Good, [], [])
  }

  /** After an accepted Open, whatever the channel held before: the new set is sent with and found by its token, and
      the previous set and the token counter are as they were. */
  lemma OpeningActivates(r: KeyRing, transport: Option<Handle>, s: Slot)
    requires transport.Some? && s.provider.Some? && r.channelId == s.token.channelId
    ensures var o := Opening(r, transport, s);
      && o.status == Good && o.keysets == [] && o.providers == []
      && SendingSlot(o.ring) == s && Lookup(o.ring, s.token.tokenId) == (o.ring, Some(s))
      && o.ring.transport == transport && o.ring.channelId == r.channelId
      && o.ring.previous == r.previous && o.ring.nextTokenId == r.nextTokenId
  {
  }

  /** The current set becomes the previous one, the new set becomes current but is not active yet.
      The old previous keysets are released; the old previous provider too, unless it is the current one. */
  function Renewing(r: KeyRing, transport: Option<Handle>, s: Slot): Outcome {
    if transport.None? || s.provider.None? then Outcome(r, BadInvalidArgument, [], [])
    else if r.transport != transport || r.channelId != s.token.channelId then
      Outcome(r, BadSecureChannelIdInvalid, KeysetsOf(s), [])
    else
      Outcome(r.(current := s, previous := r.current, currentActive := false), Good, KeysetsOf(r.previous),
              if r.previous.provider != r.current.provider then Held(r.previous.provider) else [])
  }

  /** Releases both sets; a provider used by both is released once. */
  function Clearing(r: KeyRing): Outcome {
    Outcome(
      r.(current := r.current.(receiving := None, sending := None, provider := None),
         previous := r.previous.(receiving := None, sending := None, provider := None)),
      Good,
      KeysetsOf(r.current) + KeysetsOf(r.previous),
      Held(r.current.provider) + if r.previous.provider == r.current.provider then [] else Held(r.previous.provider))
  }

  /** A new token with the next id. */
  function Issuing(r: KeyRing, channelId: UInt32, requestedLifetime: UInt32, now: nat): (KeyRing, Token) {
    (r.(nextTokenId := Succ32(r.nextTokenId)), Token(channelId, r.nextTokenId, now, ReviseLifetime(requestedLifetime)))
  }

  function Distance(a: int, b: int): nat {
    if a < b then b - a else a - b
  }

  /** An allowed lifetime that is nearer to the requested one than any other allowed one. */
  ghost predicate NearestLifetime(revised: UInt32, requested: UInt32) {
    && LIFETIME_MIN <= revised <= LIFETIME_MAX
    && forall t :: LIFETIME_MIN <= t <= LIFETIME_MAX && t != revised ==> Distance(revised, requested) < Distance(t, requested)
  }

  function ReviseLifetime(requested: UInt32): (revised: UInt32)
    ensures NearestLifetime(revised, requested)
  {
    if requested < LIFETIME_MIN then LIFETIME_MIN
    else if requested > LIFETIME_MAX then LIFETIME_MAX
    else requested
  }

  /** Watchdog ticks until the token expires, and the additional ticks of the overlap period. */
  function ExpirationTicks(lifetime: UInt32): UInt32 {
    lifetime / WATCHDOG_INTERVAL
  }

  function OverlapTicks(lifetime: UInt32): UInt32 {
    (lifetime / 4) / WATCHDOG_INTERVAL
  }

  // ----- sequence numbers as values -----

  const LAST_NUMBER_BEFORE_WRAP_WINDOW: UInt32 := 4294966271
  const FIRST_NUMBER_LIMIT: UInt32 := 1024

  /** The successor, or a number below 1024 once the last one is inside the wrap window. */
  predicate Follows(last: UInt32, number: UInt32) {
    || number == Succ32(last)
    || (number < FIRST_NUMBER_LIMIT && last > LAST_NUMBER_BEFORE_WRAP_WINDOW)
  }

  // ----- the channel object -----

  /** The members that the source names pCurrent... and pPrevious... are grouped in two slots. */
  class SecureChannel {
    var SecureChannelId: UInt32
    var TransportConnection: Option<Handle>
    var State: ChannelState
    var Current: Slot
    var Previous: Slot
    var bCurrentTokenActive: bool
    var NextTokenId: UInt32
    var uExpirationCounter: UInt32
    var uOverlapCounter: UInt32
    var uRefCount: nat
    var uLastSequenceNumberRcvd: UInt32
    var uLastSequenceNumberSent: UInt32

    ghost var ReleasedKeysets: seq<Keyset>
    ghost var ReleasedProviders: seq<Provider>

    ghost function Ring(): KeyRing
      reads this
    {
      KeyRing(SecureChannelId, TransportConnection, Current, Previous, bCurrentTokenActive, NextTokenId)
    }

    constructor ()
      ensures Ring() == NEW_RING && State == Unknown && uRefCount == 0
      ensures uLastSequenceNumberRcvd == UINT32_MAX && uLastSequenceNumberSent == STARTING_SEQUENCE_NUMBER
      ensures ReleasedKeysets == [] && ReleasedProviders == []
    {
      SecureChannelId, TransportConnection, State := CHANNEL_ID_INVALID, None, Unknown;
      Current, Previous, bCurrentTokenActive, NextTokenId := EMPTY_SLOT, EMPTY_SLOT, false, 1;
      uExpirationCounter, uOverlapCounter, uRefCount := 0, 0, 0;
      uLastSequenceNumberRcvd, uLastSequenceNumberSent := 0xFFFF_FFFF, STARTING_SEQUENCE_NUMBER;
      ReleasedKeysets, ReleasedProviders := [], [];
    }

    method GetSecuritySet(tokenId: UInt32)
      returns (status: Status, receiving: Option<Keyset>, sending: Option<Keyset>, provider: Option<Provider>)
      modifies `bCurrentTokenActive
      ensures Ring() == Lookup(old(Ring()), tokenId).0
      ensures match Lookup(old(Ring()), tokenId).1
        case Some(s) => status == Good && (receiving, sending, provider) == (s.receiving, s.sending, s.provider)
        case None => status == BadSecureChannelTokenUnknown && receiving == None && sending == None && provider == None
      ensures status == Good <==> tokenId == Current.token.tokenId || tokenId == Previous.token.tokenId
      ensures bCurrentTokenActive <==> old(bCurrentTokenActive) || tokenId == Current.token.tokenId
    {
      if Current.token.tokenId == tokenId {
        bCurrentTokenActive := true;
        return Good, Current.receiving, Current.sending, Current.provider;
      } else if Previous.token.tokenId == tokenId {
        return Good, Previous.receiving, Previous.sending, Previous.provider;
      } else {
        return BadSecureChannelTokenUnknown, None, None, None;
      }
    }

    method GetCurrentSecuritySet()
      returns (tokenId: UInt32, receiving: Option<Keyset>, sending: Option<Keyset>, provider: Option<Provider>)
      ensures var s := SendingSlot(Ring());
        (tokenId, receiving, sending, provider) == (s.token.tokenId, s.receiving, s.sending, s.provider)
    {
      if bCurrentTokenActive {
        return Current.token.tokenId, Current.receiving, Current.sending, Current.provider;
      } else {
        return Previous.token.tokenId, Previous.receiving, Previous.sending, Previous.provider;
      }
    }

    method GenerateSecurityToken(tokenLifeTime: UInt32, now: nat) returns (token: Token)
      modifies `NextTokenId
      ensures (Ring(), token) == Issuing(old(Ring()), SecureChannelId, tokenLifeTime, now)
      ensures token.tokenId == old(NextTokenId) && token.createdAt == now && token.channelId == SecureChannelId
      ensures NearestLifetime(token.revisedLifetime, tokenLifeTime)
    {
      token := Token(SecureChannelId, NextTokenId, now, ReviseLifetime(tokenLifeTime));
      NextTokenId := Succ32(NextTokenId);
    }

    method RenewSecurityToken(securityToken: Token, tokenLifeTime: UInt32, now: nat) returns (token: Token)
      modifies `NextTokenId
      ensures (Ring(), token) == Issuing(old(Ring()), securityToken.channelId, tokenLifeTime, now)
      ensures token.tokenId == old(NextTokenId) && token.createdAt == now && token.channelId == securityToken.channelId
      ensures NearestLifetime(token.revisedLifetime, tokenLifeTime)
    {
      token := Token(securityToken.channelId, NextTokenId, now, ReviseLifetime(tokenLifeTime));
      NextTokenId := Succ32(NextTokenId);
    }

    method GetSequenceNumber() returns (number: UInt32)
      modifies `uLastSequenceNumberSent
      ensures number == uLastSequenceNumberSent == Succ32(old(uLastSequenceNumberSent))
    {
      uLastSequenceNumberSent := Succ32(uLastSequenceNumberSent);
      return uLastSequenceNumberSent;
    }

    method CheckSequenceNumber(number: UInt32) returns (status: Status)
      modifies `uLastSequenceNumberRcvd
      ensures status == if Follows(old(uLastSequenceNumberRcvd), number) then Good else BadSequenceNumberInvalid
      ensures status == Good <==>
        || number == (old(uLastSequenceNumberRcvd) + 1) % TWO_TO_THE_32
        || (number < 1024 && old(uLastSequenceNumberRcvd) >= TWO_TO_THE_32 - 1024)
      ensures uLastSequenceNumberRcvd == if status == Good then number else old(uLastSequenceNumberRcvd)
    {
      if !(number == Succ32(uLastSequenceNumberRcvd) || (number < 1024 && uLastSequenceNumberRcvd > 4294966271)) {
        return BadSequenceNumberInvalid;
      }
      uLastSequenceNumberRcvd := number;
      return Good;
    }

    /** The counters that Open and Renew arm from the lifetime of the new token. */
    ghost predicate Armed(lifetime: UInt32)
      reads this
    {
      State == Opened && uExpirationCounter == ExpirationTicks(lifetime) && uOverlapCounter == OverlapTicks(lifetime)
    }

    /** The ghost logs grew by what the outcome released. */
    twostate predicate Logged(o: Outcome)
      reads this
    {
      ReleasedKeysets == old(ReleasedKeysets) + o.keysets && ReleasedProviders == old(ReleasedProviders) + o.providers
    }

    method Open(transportConnection: Option<Handle>, token: Token, receivingKeyset: Option<Keyset>,
                sendingKeyset: Option<Keyset>, cryptoProvider: Option<Provider>)
      returns (status: Status)
      modifies `TransportConnection, `State, `Current, `bCurrentTokenActive, `uExpirationCounter, `uOverlapCounter,
               `ReleasedKeysets
      ensures var o := Opening(old(Ring()), transportConnection, Slot(token, receivingKeyset, sendingKeyset, cryptoProvider));
        Ring() == o.ring && status == o.status && Logged(o)
      ensures if status == Good then Armed(token.revisedLifetime)
              else unchanged(`State, `uExpirationCounter, `uOverlapCounter) && Ring() == old(Ring())
      ensures status == BadInvalidArgument <==> transportConnection.None? || cryptoProvider.None?
      ensures status == BadSecureChannelIdInvalid <==>
        transportConnection.Some? && cryptoProvider.Some? && SecureChannelId != token.channelId
      // the new set is sent with at once, and found by its token; the other set stays
      ensures status == Good ==>
        var s := Slot(token, receivingKeyset, sendingKeyset, cryptoProvider);
        && TransportConnection == transportConnection && SendingSlot(Ring()) == s
        && Lookup(Ring(), token.tokenId) == (Ring(), Some(s))
        && Previous == old(Previous) && NextTokenId == old(NextTokenId)
    {
      hide Held;
      if transportConnection.None? || cryptoProvider.None? {
        return BadInvalidArgument;
      }
      if SecureChannelId != token.channelId {
        ReleasedKeysets := ReleasedKeysets + KeysetsOf(Slot(token, receivingKeyset, sendingKeyset, cryptoProvider));
        return BadSecureChannelIdInvalid;
      }
      bCurrentTokenActive := true;
      Current := Current.(token := token);
      State := Opened;
      TransportConnection := transportConnection;
      uExpirationCounter := ExpirationTicks(token.revisedLifetime);
      uOverlapCounter := OverlapTicks(token.revisedLifetime);
      Current := Current.(receiving := receivingKeyset, sending := sendingKeyset, provider := cryptoProvider);
      return Good;
    }

    /** The tokens have moved already; moves the keysets and providers after them. */
    method RotateKeys(newReceivingKeyset: Option<Keyset>, newSendingKeyset: Option<Keyset>, newCryptoProvider: Option<Provider>)
      modifies `Current, `Previous, `ReleasedKeysets, `ReleasedProviders
      ensures Current == Slot(old(Current).token, newReceivingKeyset, newSendingKeyset, newCryptoProvider)
      ensures Previous == old(Current).(token := old(Previous).token)
      ensures ReleasedKeysets == old(ReleasedKeysets) + KeysetsOf(old(Previous))
      ensures ReleasedProviders == old(ReleasedProviders) +
        if old(Previous).provider != old(Current).provider then Held(old(Previous).provider) else []
    {
      // delete the previous keysets, then make the current ones previous
      ReleasedKeysets := ReleasedKeysets + KeysetsOf(Previous);
      Previous := Previous.(receiving := Current.receiving, sending := Current.sending);

      // delete the previous crypto provider
      if Previous.provider.Some? && Previous.provider != Current.provider {
        ReleasedProviders := ReleasedProviders + [Previous.provider.value];
      }

      // make the current crypto provider previous
      Previous := Previous.(provider := Current.provider);
      Current := Current.(provider := newCryptoProvider, receiving := newReceivingKeyset, sending := newSendingKeyset);
    }

    /** The part of Renew behind its checks. */
    method Replace(token: Token, newReceivingKeyset: Option<Keyset>, newSendingKeyset: Option<Keyset>, newCryptoProvider: Option<Provider>)
      modifies `State, `Current, `Previous, `bCurrentTokenActive, `uExpirationCounter, `uOverlapCounter,
               `ReleasedKeysets, `ReleasedProviders
      ensures Current == Slot(token, newReceivingKeyset, newSendingKeyset, newCryptoProvider)
      ensures Previous == old(Current) && !bCurrentTokenActive && Armed(token.revisedLifetime)
      ensures ReleasedKeysets == old(ReleasedKeysets) + KeysetsOf(old(Previous))
      ensures ReleasedProviders == old(ReleasedProviders) +
        if old(Previous).provider != old(Current).provider then Held(old(Previous).provider) else []
    {
      bCurrentTokenActive := false;
      Previous := Previous.(token := Current.token);
      Current := Current.(token := token);
      State := Opened;
      uExpirationCounter := ExpirationTicks(token.revisedLifetime);
      uOverlapCounter := OverlapTicks(token.revisedLifetime);

      RotateKeys(newReceivingKeyset, newSendingKeyset, newCryptoProvider);
    }

    method Renew(transportConnection: Option<Handle>, token: Token, newReceivingKeyset: Option<Keyset>,
                 newSendingKeyset: Option<Keyset>, newCryptoProvider: Option<Provider>)
      returns (status: Status)
      modifies `State, `Current, `Previous, `bCurrentTokenActive, `uExpirationCounter, `uOverlapCounter,
               `ReleasedKeysets, `ReleasedProviders
      ensures var o := Renewing(old(Ring()), transportConnection, Slot(token, newReceivingKeyset, newSendingKeyset, newCryptoProvider));
        Ring() == o.ring && status == o.status && Logged(o)
      ensures if status == Good then Armed(token.revisedLifetime)
              else unchanged(`State, `uExpirationCounter, `uOverlapCounter) && Ring() == old(Ring())
      ensures status == BadInvalidArgument <==> transportConnection.None? || newCryptoProvider.None?
      ensures status == BadSecureChannelIdInvalid <==>
        && transportConnection.Some? && newCryptoProvider.Some?
        && (TransportConnection != transportConnection || SecureChannelId != token.channelId)
      // the old set is sent with until the new one is activated
      ensures status == Good ==>
        && Current == Slot(token, newReceivingKeyset, newSendingKeyset, newCryptoProvider)
        && Previous == old(Current) && SendingSlot(Ring()) == old(Current) && NextTokenId == old(NextTokenId)
    {
      hide Held;
      if transportConnection.None? || newCryptoProvider.None? {
        return BadInvalidArgument;
      }
      if TransportConnection != transportConnection || SecureChannelId != token.channelId {
        ReleasedKeysets := ReleasedKeysets + KeysetsOf(Slot(token, newReceivingKeyset, newSendingKeyset, newCryptoProvider));
        return BadSecureChannelIdInvalid;
      }
      Replace(token, newReceivingKeyset, newSendingKeyset, newCryptoProvider);
      return Good;
    }

    method Close()
      modifies `State
      ensures State == Closed
    {
      State := Closed;
    }

    method Clear()
      modifies `Current, `Previous, `ReleasedKeysets, `ReleasedProviders
      ensures var o := Clearing(old(Ring())); Ring() == o.ring && Logged(o)
      ensures Current == Slot(old(Current).token, None, None, None) && Previous == Slot(old(Previous).token, None, None, None)
    {
      ReleasedKeysets := ReleasedKeysets + (KeysetsOf(Current) + KeysetsOf(Previous));
      Current := Current.(receiving := None, sending := None);
      Previous := Previous.(receiving := None, sending := None);
      if Current.provider.Some? {
        if Previous.provider == Current.provider {
          // prevent double deletion
          Previous := Previous.(provider := None);
        }
        ReleasedProviders := ReleasedProviders + [Current.provider.value];
        Current := Current.(provider := None);
      }
      if Previous.provider.Some? {
        ReleasedProviders := ReleasedProviders + [Previous.provider.value];
        Previous := Previous.(provider := None);
      }
    }
  }
}
