/**
 How long an opened channel lives on the server: the counters that Open and Renew arm
 (Stack/securechannel/opcua_tcpsecurechannel.c) under the passes of the watchdog timer
 (Stack/securechannel/opcua_securelistener_channelmanager.c), against the client's renew timer
 (Stack/securechannel/opcua_secureconnection.c).
 */
module Lifetimes {
  import opened Basics
  import opened SecureChannels
  import opened ChannelManagers

  /** A channel without handles, just opened or renewed with a token of this lifetime. */
  function JustArmed(lifetime: UInt32): Aging {
    Aging(Opened, ExpirationTicks(lifetime), OverlapTicks(lifetime), 0)
  }

  /** The channel after `n` timer passes, if none of them removed it. */
  function AfterPasses(a: Aging, n: nat): Option<Aging> {
    if n == 0 then Some(a)
    else
      match AfterPasses(a, n - 1)
      case None => None
      case Some(b) => if Tick(b).kind == Kept then Some(Tick(b).after) else None
  }

  /** The expiration counter runs down first, the overlap counter after it. */
  lemma {:induction false} CountsDown(a: Aging, n: nat)
    requires a.state == Opened && a.refs == 0 && n <= a.expiration + a.overlap
    ensures AfterPasses(a, n) == Some(
      if n <= a.expiration then a.(expiration := a.expiration - n)
      else a.(expiration := 0, overlap := a.overlap - (n - a.expiration)))
  {
    if n > 0 { CountsDown(a, n - 1); }
  }

  lemma {:induction false} GoneStaysGone(a: Aging, m: nat, n: nat)
    requires m <= n && AfterPasses(a, m) == None
    ensures AfterPasses(a, n) == None
  {
    if m < n { GoneStaysGone(a, m, n - 1); }
  }

  /** The pass that removes a channel that is neither used nor renewed. */
  function RemovalPass(lifetime: UInt32): nat {
    lifetime / 10000 + (lifetime / 4) / 10000 + 1
  }

  /** It survives every pass before that one, and that one reports it as expired. */
  lemma RemovedOnExactlyThatPass(lifetime: UInt32, n: nat)
    ensures AfterPasses(JustArmed(lifetime), n).Some? <==> n < RemovalPass(lifetime)
    ensures n + 1 == RemovalPass(lifetime) ==> Tick(AfterPasses(JustArmed(lifetime), n).value).kind == Expired
  {
    var a := JustArmed(lifetime);
    var last := RemovalPass(lifetime) - 1;
    CountsDown(a, last);
    if n <= last {
      CountsDown(a, n);
    } else {
      GoneStaysGone(a, last + 1, n);
    }
  }

  /** Until then the expiration counter runs first, for a pass in each 10 s of the lifetime, and the overlap counter
      after it, for a pass in each 10 s of a quarter of the lifetime. */
  lemma ExpirationThenOverlap(lifetime: UInt32, n: nat)
    requires n < RemovalPass(lifetime)
    ensures var expiring, overlapping := lifetime / 10000, (lifetime / 4) / 10000;
      AfterPasses(JustArmed(lifetime), n) == Some(
        if n <= expiring then Aging(Opened, expiring - n, overlapping, 0)
        else Aging(Opened, 0, expiring + overlapping - n, 0))
  {
    CountsDown(JustArmed(lifetime), n);
  }

  /** The server's treatment of an OpenSecureChannel request, from the requested lifetime to the armed counters: it issues
      a token, then it opens the channel with it, or renews it. The counters are those of the nearest allowed lifetime,
      and left alone from then on, the channel lives for exactly the passes that the lifetime and its quarter give. */
  method ProcessOpenSecureChannelRequest(c: SecureChannel, bRenewChannel: bool, transportConnection: Handle, requestedLifetime: UInt32,
                                         now: nat, receiving: Option<Keyset>, sending: Option<Keyset>, provider: Provider)
    returns (status: Status, token: Token)
    modifies c
    ensures NearestLifetime(token.revisedLifetime, requestedLifetime) && token.createdAt == now
    ensures status == Good <==>
      bRenewChannel ==> old(c.TransportConnection) == Some(transportConnection) && old(c.Current).token.channelId == c.SecureChannelId
    ensures status == Good ==>
      && c.Current == Slot(token, receiving, sending, Some(provider))
      && AgingOf(c).(refs := 0) == JustArmed(token.revisedLifetime)
      && forall n: nat :: AfterPasses(AgingOf(c).(refs := 0), n).Some? <==>
           n <= token.revisedLifetime / 10000 + (token.revisedLifetime / 4) / 10000
    ensures c.uRefCount == old(c.uRefCount)
  {
    if bRenewChannel {
      token := c.RenewSecurityToken(c.Current.token, requestedLifetime, now);
      status := c.Renew(Some(transportConnection), token, receiving, sending, Some(provider));
    } else {
      token := c.GenerateSecurityToken(requestedLifetime, now);
      status := c.Open(Some(transportConnection), token, receiving, sending, Some(provider));
    }
    forall n: nat
      ensures AfterPasses(JustArmed(token.revisedLifetime), n).Some? <==>
        n <= token.revisedLifetime / 10000 + (token.revisedLifetime / 4) / 10000
    {
      RemovedOnExactlyThatPass(token.revisedLifetime, n);
    }
  }

  /** The client's renew timer: three quarters of the revised lifetime, cut to whole milliseconds. */
  function RenewAfter(lifetime: UInt32): nat {
    3 * lifetime / 4
  }

  /** Whatever lifetime was requested, and wherever in the timer's period the channel was opened or renewed with the
      token that was issued for it: the pass that removes the channel comes neither before the lifetime of the token has
      passed nor a whole interval after its overlap period, and a quarter of the lifetime or more after the client's
      renew timer. */
  lemma RemovalTime(r: KeyRing, channelId: UInt32, requested: UInt32, now: nat, phase: nat, n: nat)
    requires 0 < phase <= WATCHDOG_INTERVAL
    requires var lifetime := Issuing(r, channelId, requested, now).1.revisedLifetime;
      AfterPasses(JustArmed(lifetime), n).Some? && AfterPasses(JustArmed(lifetime), n + 1).None?
    ensures var lifetime := Issuing(r, channelId, requested, now).1.revisedLifetime;
      var removal := phase + n * WATCHDOG_INTERVAL;
      && NearestLifetime(lifetime, requested)
      && lifetime <= removal <= lifetime + lifetime / 4 + WATCHDOG_INTERVAL
      && removal - RenewAfter(lifetime) >= lifetime / 4
  {
    hide AfterPasses;
    var lifetime := Issuing(r, channelId, requested, now).1.revisedLifetime;
    RemovedOnExactlyThatPass(lifetime, n);
    RemovedOnExactlyThatPass(lifetime, n + 1);
  }
}
