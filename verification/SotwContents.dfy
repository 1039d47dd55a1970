/** What the streams of chapter 2 send, over every run and in terms of the messages: each response carries
    its own type of an issued snapshot, and every issued snapshot leads a proxy to the upstream address. */
module SotwContents {
  import opened Text
  import opened Maps
  import opened Config
  import opened SotwModel
  import opened SotwPlane
  import opened SotwHealing

  lemma {:induction false} AddressStays(p: Plane, evs: seq<Event>)
    ensures After(p, evs).ip == p.ip
  {
    if evs != [] {
      AddressStays(p, evs[..|evs| - 1]);
    }
  }

  lemma IssuedIsUsable(ip: string, issued: seq<bool>, snap: Snapshot)
    requires Issued(ip, issued, snap)
    ensures var n := VersionNumber(snap.version);
            snap.version == VersionName(n) && Usable(snap, ip, issued[n - 1])
  {
    var n := VersionNumber(snap.version);
    BuildIsUsable(VersionName(n), ip, issued[n - 1]);
  }

  /** In every run what is advertised is usable but for the stat prefix, which is missing just if it was built
      broken; the rollback target is usable; and both were built under their version. */
  lemma {:induction false} AdvertisedIsUsable(ip: string, evs: seq<Event>)
    ensures var p := After(Start(ip), evs);
            var n, g := VersionNumber(p.value.version), VersionNumber(p.lastGood.version);
            && 1 <= n <= |p.issued| && p.value.version == VersionName(n) && Usable(p.value, ip, p.issued[n - 1])
            && 1 <= g <= |p.issued| && p.lastGood.version == VersionName(g) && Usable(p.lastGood, ip, false)
  {
    hide After, Usable;
    StartInv(ip);
    RunInv(Start(ip), evs);
    AddressStays(Start(ip), evs);
    var p := After(Start(ip), evs);
    IssuedIsUsable(ip, p.issued, p.value);
    IssuedIsUsable(ip, p.issued, p.lastGood);
  }

  lemma IssuedCarries(ip: string, issued: seq<bool>, resp: Response) returns (snap: Snapshot)
    requires IssuedResponse(ip, issued, resp)
    ensures var n := VersionNumber(resp.versionInfo);
            && 1 <= n <= |issued| && resp.versionInfo == VersionName(n)
            && Usable(snap, ip, issued[n - 1]) && Carries(resp, snap) && NonceNamesType(resp)
    ensures |resp.resources| == 1 && resp.resources[0].typeUrl == resp.typeUrl
  {
    var n := VersionNumber(resp.versionInfo);
    snap := SnapshotAt(ip, issued, n);
    IssuedAt(ip, issued, n);
    IssuedIsUsable(ip, issued, snap);
    ResponseCarries(snap, resp.typeUrl);
  }

  /** In every run each response of each stream carries, under its version, the one resource of its type of
      a snapshot that was issued under that version and is usable; and its nonce names type and version. */
  lemma {:induction false} ResponsesCarryIssued(ip: string, evs: seq<Event>, k: nat, i: nat)
    returns (snap: Snapshot)
    requires k < |After(Start(ip), evs).conns| && i < |After(Start(ip), evs).conns[k].session.log|
    ensures var p := After(Start(ip), evs);
            var resp := p.conns[k].session.log[i];
            var n := VersionNumber(resp.versionInfo);
            && 1 <= n <= |p.issued| && resp.versionInfo == VersionName(n)
            && Usable(snap, ip, p.issued[n - 1]) && Carries(resp, snap) && NonceNamesType(resp)
            && |resp.resources| == 1 && resp.resources[0].typeUrl == resp.typeUrl
  {
    StartInv(ip);
    RunInv(Start(ip), evs);
    AddressStays(Start(ip), evs);
    hide After, Usable, Carries, NonceNamesType, IssuedResponse, NoRepeats, LastVersion, ControlInv, PhaseInv;
    hide UpToDate, FreshFirst, Types;
    var p := After(Start(ip), evs);
    assert ConnInv(p.ip, p.issued, p.value, p.writes, p.conns[k]);
    assert IssuedResponse(p.ip, p.issued, p.conns[k].session.log[i]);
    snap := IssuedCarries(ip, p.issued, p.conns[k].session.log[i]);
  }

  /** The one resource of the type that the stream sent last. */
  function LastSent(se: Session, typeUrl: string): Option<Message> {
    match LastResponse(se.log, typeUrl)
    case None => None
    case Some(resp) => if |resp.resources| == 1 then Some(resp.resources[0].message) else None
  }

  lemma LastSentOf(ip: string, evs: seq<Event>, j: nat, typeUrl: string)
    requires var p := After(Start(ip), evs);
             && j < |p.conns| && typeUrl in p.value.byType && |p.value.byType[typeUrl]| == 1
             && Lookup(p.conns[j].session.sentVersion, typeUrl) == Some(p.value.version)
    ensures var p := After(Start(ip), evs);
            LastSent(p.conns[j].session, typeUrl) == Some(p.value.byType[typeUrl][0].message)
  {
    hide After;
    StartInv(ip);
    RunInv(Start(ip), evs);
    SkipMeansSent(ip, evs, j, typeUrl, After(Start(ip), evs).value);
  }

  /** What healing means for a proxy: when the exchange is over and one strict client is subscribed to
      Listeners, what each stream subscribed to all four types sent last leads its client from a Listener
      that it accepts to the upstream address. */
  lemma {:induction false} HealedClientsReachUpstream(ip: string, evs: seq<Event>, i: nat, j: nat)
    requires var p := After(Start(ip), evs);
             && (forall ev :: Internal(ev) ==> !Enabled(p, ev))
             && i < |p.conns| && p.conns[i].strict && T_LISTENER in p.conns[i].session.subscribed
             && j < |p.conns| && {T_LISTENER, T_ROUTE, T_CLUSTER, T_ENDPOINT} <= p.conns[j].session.subscribed
    ensures var se := After(Start(ip), evs).conns[j].session;
            && LastSent(se, T_LISTENER).Some? && LastSent(se, T_ROUTE).Some?
            && LastSent(se, T_CLUSTER).Some? && LastSent(se, T_ENDPOINT).Some?
            && Leads(LastSent(se, T_LISTENER).value, LastSent(se, T_ROUTE).value,
                     LastSent(se, T_CLUSTER).value, LastSent(se, T_ENDPOINT).value, ip)
            && LastSent(se, T_LISTENER).value.statPrefix == "ingress_http"
  {
    hide After, Enabled, LastSent, Leads;
    HealedAtRest(ip, evs, i);
    AdvertisedIsUsable(ip, evs);
    var p := After(Start(ip), evs);
    UsableIsWhole(p.value, ip, p.issued[VersionNumber(p.value.version) - 1]);
    forall t | t in {T_LISTENER, T_ROUTE, T_CLUSTER, T_ENDPOINT}
      ensures Lookup(p.conns[j].session.sentVersion, t) == Some(p.value.version)
    {
      assert t in p.conns[j].session.subscribed && Known(t);
    }
    LastSentOf(ip, evs, j, T_LISTENER);
    LastSentOf(ip, evs, j, T_ROUTE);
    LastSentOf(ip, evs, j, T_CLUSTER);
    LastSentOf(ip, evs, j, T_ENDPOINT);
  }

  /** A usable snapshot that is not broken has its stat prefix. */
  lemma UsableIsWhole(snap: Snapshot, ip: string, broken: bool)
    requires Usable(snap, ip, broken)
    ensures !Broken(snap) ==> snap.byType[T_LISTENER][0].message.statPrefix == "ingress_http"
  {
    var resources := snap.byType[T_LISTENER];
    assert resources[0].message.Listener?;
  }
}
