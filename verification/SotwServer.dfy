/** The control state and the stream loop of chapter 2 as they run, each handler from start to end. */
module SotwServer {
  import opened Text
  import opened Maps
  import opened Config
  import opened SotwModel
  import opened SotwPlane

  method BuildSnapshot(version: string, ip: string, broken: bool) returns (snap: Snapshot)
    ensures snap == Build(version, ip, broken)
    ensures snap.version == version && Usable(snap, ip, broken)
  {
    BuildIsUsable(version, ip, broken);
    var byType: map<string, seq<Any>> := map[];
    var statPrefix := if broken then "" else "ingress_http";
    byType := byType[T_LISTENER := [Any(T_LISTENER, Listener(LISTENER_NAME, statPrefix, ROUTE_NAME))]];
    byType := byType[T_ROUTE := [Any(T_ROUTE, Route(ROUTE_NAME, None, CLUSTER_NAME))]];
    byType := byType[T_CLUSTER := [Any(T_CLUSTER, Cluster(CLUSTER_NAME, ""))]];
    byType := byType[T_ENDPOINT := [Any(T_ENDPOINT, Endpoints(CLUSTER_NAME, [Backend(ip)]))]];
    snap := Snapshot(version, byType);
  }

  /** What the admin API and the streams share. */
  class Control {
    const upstreamIp: string
    var version: nat
    var lastGood: Snapshot
    var advertised: Snapshot
    var writes: nat

    /** The advertised snapshot is the last good one, or a newer broken one. Overlapping handlers can end
        otherwise, so no method asks for it. */
    ghost predicate Valid()
      reads this
    {
      && !Broken(lastGood)
      && VersionNumber(lastGood.version) <= version && VersionNumber(advertised.version) <= version
      && (|| advertised == lastGood
          || (Broken(advertised) && VersionNumber(lastGood.version) < VersionNumber(advertised.version)))
    }

    constructor (upstreamIp: string)
      ensures Valid() && this.upstreamIp == upstreamIp && version == 1 && writes == 0
      ensures advertised == lastGood == Build(VersionName(1), upstreamIp, false)
    {
      var v1 := BuildSnapshot(VersionName(1), upstreamIp, false);
      this.upstreamIp := upstreamIp;
      version, writes, lastGood, advertised := 1, 0, v1, v1;
      BuildFacts(VersionName(1), upstreamIp, false);
      VersionRoundTrip(1);
    }

    method NextVersion() returns (v: string)
      modifies this`version
      ensures version == old(version) + 1 && v == VersionName(version)
    {
      version := version + 1;
      v := VersionName(version);
    }

    method Send(snap: Snapshot)
      modifies this`advertised, this`writes
      ensures advertised == snap && writes == old(writes) + 1
    {
      advertised, writes := snap, writes + 1;
    }

    method PushGood() returns (v: string)
      modifies this
      ensures Valid() && version == old(version) + 1 && v == VersionName(version)
      ensures advertised == lastGood == Build(v, upstreamIp, false) && writes == old(writes) + 1
      ensures advertised.version == v && Usable(advertised, upstreamIp, false)
    {
      v := NextVersion();
      var snap := BuildSnapshot(v, upstreamIp, false);
      lastGood := snap;
      Send(snap);
      BuildFacts(v, upstreamIp, false);
      VersionRoundTrip(version);
    }

    method PushBroken() returns (v: string)
      modifies this
      ensures old(Valid()) ==> Valid()
      ensures version == old(version) + 1 && v == VersionName(version)
      ensures advertised == Build(v, upstreamIp, true) && Broken(advertised)
      ensures lastGood == old(lastGood) && writes == old(writes) + 1
      ensures advertised.version == v && Usable(advertised, upstreamIp, true)
    {
      v := NextVersion();
      var snap := BuildSnapshot(v, upstreamIp, true);
      Send(snap);
      BuildFacts(v, upstreamIp, true);
      VersionRoundTrip(version);
    }
  }

  /** The local variables of the stream loop, and all that went out on the response channel. */
  class SotwStream {
    var subscribed: set<string>
    var sentVersion: map<string, string>
    var outbox: seq<Response>
    var seen: nat

    ghost function State(): Session
      reads this
    {
      Session(subscribed, sentVersion, outbox)
    }

    constructor (control: Control)
      ensures State() == NEW_SESSION && seen == control.writes
    {
      subscribed, sentVersion, outbox, seen := {}, map[], [], control.writes;
    }

    method PushIfNew(typeUrl: string, snap: Snapshot)
      modifies this`sentVersion, this`outbox
      ensures State() == SotwModel.PushIfNew(old(State()), typeUrl, snap)
      ensures if typeUrl in snap.byType && Lookup(old(sentVersion), typeUrl) != Some(snap.version)
              then Sent(old(State()), typeUrl, snap, State())
              else State() == old(State())
    {
      PushSends(State(), typeUrl, snap);
      if Lookup(sentVersion, typeUrl) == Some(snap.version) {
        return;
      }
      match BuildResponse(snap, typeUrl) {
        case None =>
        case Some(resp) =>
          outbox := outbox + [resp];
          sentVersion := sentVersion[typeUrl := snap.version];
      }
    }

    /** The inbound arm of the loop: a rejection re-advertises the last good snapshot. */
    method OnRequest(req: Request, control: Control)
      modifies this`subscribed, this`sentVersion, this`outbox, control`advertised, control`writes
      ensures State() == Handle(old(State()), req, old(control.advertised))
      ensures old(control.Valid()) ==> control.Valid()
      ensures control.advertised == if req.nack then control.lastGood else old(control.advertised)
      ensures control.writes == old(control.writes) + if req.nack then 1 else 0
    {
      subscribed := subscribed + {req.typeUrl};
      if req.nack {
        var good := control.lastGood;
        control.Send(good);
        return;
      }
      if req.responseNonce == "" {
        PushIfNew(req.typeUrl, control.advertised);
      }
    }

    /** The watch arm of the loop; `order` is the order in which the types come up. */
    method OnChanged(control: Control) returns (ghost order: seq<string>)
      modifies this
      ensures seen == control.writes && control.writes == old(control.writes)
      ensures Distinct(order) && Elements(order) == old(subscribed)
      ensures State() == PushAll(old(State()), order, control.advertised)
    {
      seen := control.writes;
      var snap := control.advertised;
      var types := Walk(subscribed);
      order := types;
      ghost var before := State();
      for i := 0 to |types|
        invariant seen == control.writes
        invariant State() == PushAll(before, types[..i], snap)
      {
        assert types[..i + 1][..i] == types[..i];
        PushIfNew(types[i], snap);
      }
      assert types[..|types|] == types;
    }
  }

  // ----- what the watch arm achieves -----

  /** What the watch arm has done when it has visited the types of `order`. */
  ghost predicate Pushed(se: Session, order: seq<string>, snap: Snapshot, se': Session) {
    && se'.subscribed == se.subscribed && se.log <= se'.log
    && (forall t :: Lookup(se'.sentVersion, t) ==
                    if t in order && t in snap.byType then Some(snap.version) else Lookup(se.sentVersion, t))
    && (forall i :: |se.log| <= i < |se'.log| ==>
          && se'.log[i].typeUrl in order
          && Lookup(se.sentVersion, se'.log[i].typeUrl) != Some(snap.version)
          && Carries(se'.log[i], snap))
    && (forall i, j :: |se.log| <= i < j < |se'.log| ==> se'.log[i].typeUrl != se'.log[j].typeUrl)
  }

  lemma OneMorePushed(se: Session, before: seq<string>, typeUrl: string, snap: Snapshot, mid: Session)
    requires Pushed(se, before, snap, mid) && typeUrl !in before
    ensures Pushed(se, before + [typeUrl], snap, SotwModel.PushIfNew(mid, typeUrl, snap))
  {
    PushSends(mid, typeUrl, snap);
    assert forall x :: x in before + [typeUrl] <==> x in before || x == typeUrl;
    assert Lookup(mid.sentVersion, typeUrl) == Lookup(se.sentVersion, typeUrl);
  }

  /** After the watch arm each type it visited that the snapshot has was last sent at its version; the
      others stand; each type was sent at most once, and only if it was not at that version; and all
      that was sent is content of this snapshot. */
  lemma {:induction false} WatchArmPushes(se: Session, order: seq<string>, snap: Snapshot)
    requires Distinct(order)
    ensures Pushed(se, order, snap, PushAll(se, order, snap))
  {
    if order != [] {
      hide Pushed, SotwModel.PushIfNew;
      var before, t := order[..|order| - 1], order[|order| - 1];
      assert before + [t] == order && t !in before;
      WatchArmPushes(se, before, snap);
      OneMorePushed(se, before, t, snap, PushAll(se, before, snap));
    }
  }

  function Pushes(i: nat, order: seq<string>): seq<Event> {
    seq(|order|, k requires 0 <= k < |order| => Push(i, order[k]))
  }

  /** One turn of the loop of the watch arm. */
  lemma OneTurn(p: Plane, i: nat, se: Session, todo: set<string>, typeUrl: string)
    requires i < |p.conns| && typeUrl in todo
    ensures var c := p.conns[i].(seen := p.writes, session := se, phase := Pushing(p.value, todo));
            Step(p.(conns := p.conns[i := c]), Push(i, typeUrl)) ==
            p.(conns := p.conns[i := c.(session := SotwModel.PushIfNew(se, typeUrl, p.value),
                                        phase := Loop(p.value, todo - {typeUrl}))])
  {
    var c := p.conns[i].(seen := p.writes, session := se, phase := Pushing(p.value, todo));
    var c' := PushConn(c, typeUrl);
    assert p.conns[i := c][i := c'] == p.conns[i := c'];
  }

  lemma {:induction false} PushesInOrder(p: Plane, i: nat, order: seq<string>)
    requires Enabled(p, Wake(i)) && Distinct(order)
    requires Elements(order) <= p.conns[i].session.subscribed
    ensures var c := p.conns[i];
            After(p, [Wake(i)] + Pushes(i, order)) ==
            p.(conns := p.conns[i := c.(seen := p.writes, session := PushAll(c.session, order, p.value),
                                        phase := Loop(p.value, c.session.subscribed - Elements(order)))])
  {
    var c := p.conns[i];
    var evs := [Wake(i)] + Pushes(i, order);
    if order == [] {
      assert evs[..|evs| - 1] == [] && After(p, []) == p;
      assert c.session.subscribed - Elements(order) == c.session.subscribed;
    } else {
      hide Step, SotwModel.PushIfNew, WakeConn, PushConn, Loop, Enabled;
      var before, t := order[..|order| - 1], order[|order| - 1];
      var todo := c.session.subscribed - Elements(before);
      assert evs[..|evs| - 1] == [Wake(i)] + Pushes(i, before) && evs[|evs| - 1] == Push(i, t);
      assert before + [t] == order;
      ElementsAppend(before, t);
      PushesInOrder(p, i, before);
      assert After(p, evs) == Step(After(p, [Wake(i)] + Pushes(i, before)), Push(i, t));
      hide After;
      assert t in Elements(order) && t in todo;
      OneTurn(p, i, PushAll(c.session, before, p.value), todo, t);
      assert todo - {t} == c.session.subscribed - Elements(order);
    }
  }

  /** The watch arm, in whatever order it meets the types, is a run of atomic steps of the system. */
  lemma WatchArmIsARun(p: Plane, i: nat, order: seq<string>)
    requires Enabled(p, Wake(i))
    requires Distinct(order) && Elements(order) == p.conns[i].session.subscribed
    ensures var c := p.conns[i];
            After(p, [Wake(i)] + Pushes(i, order)) ==
            p.(conns := p.conns[i := c.(seen := p.writes, session := PushAll(c.session, order, p.value))])
  {
    PushesInOrder(p, i, order);
    assert p.conns[i].session.subscribed - Elements(order) == {};
  }
}
