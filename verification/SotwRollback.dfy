/** What the rollback of chapter 2 achieves: broken Listeners are always withdrawn, and the exchange of
    rejections and re-advertisements comes to an end. */
module SotwRollback {
  import opened Text
  import opened Maps
  import opened Config
  import opened SotwModel
  import opened SotwPlane

  // ----- a rejection is on its way -----

  /** The broken Listener has been rejected or will be: it is still to be read, or its rejection is
      queued or being acted upon. */
  ghost predicate Evidence(c: Conn) {
    || c.phase.RollingBack?
    || (exists k :: 0 <= k < |c.requests| && c.requests[k].nack)
    || (exists k :: c.delivered <= k < |c.session.log| && Rejectable(c.session.log[k].resources))
  }

  /** While a broken snapshot that the stream has sent is advertised, a rejection is on its way. */
  ghost predicate WillReject(value: Snapshot, c: Conn) {
    c.strict && Broken(value) && Lookup(c.session.sentVersion, T_LISTENER) == Some(value.version) ==> Evidence(c)
  }

  /** The stream has not come across the version. */
  ghost predicate Unseen(version: string, c: Conn) {
    && (c.phase.Pushing? ==> c.phase.snap.version != version)
    && (forall t :: Lookup(c.session.sentVersion, t) != Some(version))
  }

  ghost predicate Unpublished(p: Plane, n: nat) {
    && p.value.version != VersionName(n)
    && forall i :: 0 <= i < |p.conns| ==> Unseen(VersionName(n), p.conns[i])
  }

  ghost predicate RejectInv(p: Plane) {
    && Inv(p)
    && (forall i :: 0 <= i < |p.conns| ==> WillReject(p.value, p.conns[i]))
    && (forall n :: n in p.tasks && p.issued[n - 1] ==> Unpublished(p, n))
  }

  lemma SentIsIssued(p: Plane, i: nat, typeUrl: string)
    requires Inv(p) && i < |p.conns| && typeUrl in p.conns[i].session.sentVersion
    ensures 1 <= VersionNumber(p.conns[i].session.sentVersion[typeUrl]) <= |p.issued|
  {
    var c := p.conns[i];
    assert ConnInv(p.ip, p.issued, p.value, p.writes, c);
    assert Lookup(c.session.sentVersion, typeUrl) == LastVersion(c.session.log, typeUrl);
    LastIsLogged(c.session.log, typeUrl);
  }

  lemma NewVersionIsUnseen(p: Plane)
    requires Inv(p)
    ensures Unpublished(p, |p.issued| + 1)
  {
    var n := |p.issued| + 1;
    VersionRoundTrip(n);
    forall i | 0 <= i < |p.conns| ensures Unseen(VersionName(n), p.conns[i]) {
      var c := p.conns[i];
      assert ConnInv(p.ip, p.issued, p.value, p.writes, c);
      forall t ensures Lookup(c.session.sentVersion, t) != Some(VersionName(n)) {
        if t in c.session.sentVersion {
          SentIsIssued(p, i, t);
        }
      }
    }
  }

  lemma NumbersDiffer(m: nat, n: nat)
    ensures VersionName(m) == VersionName(n) <==> m == n
  {
    VersionRoundTrip(m);
    VersionRoundTrip(n);
  }

  lemma BrokenByNumber(p: Plane, snap: Snapshot)
    requires Issued(p.ip, p.issued, snap)
    ensures Broken(snap) <==> p.issued[VersionNumber(snap.version) - 1]
  {
    IssuedAt(p.ip, p.issued, VersionNumber(snap.version));
  }

  // ----- pushes -----

  lemma PushUnseen(se: Session, typeUrl: string, snap: Snapshot, version: string)
    requires snap.version != version && forall t :: Lookup(se.sentVersion, t) != Some(version)
    ensures forall t :: Lookup(PushIfNew(se, typeUrl, snap).sentVersion, t) != Some(version)
  {
    forall t ensures Lookup(PushIfNew(se, typeUrl, snap).sentVersion, t) != Some(version) {
      assert Lookup(se.sentVersion, t) != Some(version);
    }
  }

  /** Sending a broken Listener leaves it to be read. */
  lemma PushRejects(ip: string, issued: seq<bool>, value: Snapshot, c: Conn, typeUrl: string, snap: Snapshot,
                    requests: seq<Request>, phase: Phase)
    requires Issued(ip, issued, value) && Issued(ip, issued, snap)
    requires c.delivered <= |c.session.log| && WillReject(value, c)
    requires !c.phase.RollingBack?
    requires forall k :: 0 <= k < |c.requests| && c.requests[k].nack ==> c.requests[k] in requests
    ensures WillReject(value, c.(session := PushIfNew(c.session, typeUrl, snap), requests := requests, phase := phase))
  {
    var se := PushIfNew(c.session, typeUrl, snap);
    var c' := c.(session := se, requests := requests, phase := phase);
    if c.strict && Broken(value) && Lookup(se.sentVersion, T_LISTENER) == Some(value.version) {
      assert c.session.log <= se.log;
      if Lookup(c.session.sentVersion, T_LISTENER) == Some(value.version) {
        assert Evidence(c);
        if k :| 0 <= k < |c.requests| && c.requests[k].nack {
          var j :| 0 <= j < |requests| && requests[j] == c.requests[k];
          assert c'.requests[j].nack;
        } else {
          var k :| c.delivered <= k < |c.session.log| && Rejectable(c.session.log[k].resources);
          assert se.log[k] == c.session.log[k];
        }
      } else {
        assert typeUrl == T_LISTENER && snap == value;
        var k := |c.session.log|;
        assert se.log[k] == BuildResponse(snap, T_LISTENER).value;
        assert Rejectable(c'.session.log[k].resources);
      }
    }
  }

  lemma ServeRejects(ip: string, issued: seq<bool>, value: Snapshot, c: Conn, lastGood: Snapshot)
    requires Issued(ip, issued, value)
    requires c.delivered <= |c.session.log| && WillReject(value, c) && c.phase.Idle? && c.requests != []
    ensures WillReject(value, ServeConn(c, lastGood, value))
  {
    var req := c.requests[0];
    if !req.nack {
      var noted := c.(session := c.session.(subscribed := c.session.subscribed + {req.typeUrl}));
      var rest := c.requests[1..];
      assert WillReject(value, noted) by {
        if Evidence(c) { assert Evidence(noted); }
      }
      forall k | 0 <= k < |c.requests| && c.requests[k].nack ensures c.requests[k] in rest {
        assert rest[k - 1] == c.requests[k];
      }
      PushRejects(ip, issued, value, noted, req.typeUrl, value, rest, Idle);
      ServeQuietly(value, noted, rest);
    }
  }

  lemma ServeQuietly(value: Snapshot, c: Conn, rest: seq<Request>)
    requires WillReject(value, c) && c.phase.Idle?
    requires forall k :: 0 <= k < |c.requests| && c.requests[k].nack ==> c.requests[k] in rest
    ensures WillReject(value, c.(requests := rest))
  {
    var c' := c.(requests := rest);
    if Evidence(c) {
      if k :| 0 <= k < |c.requests| && c.requests[k].nack {
        var j :| 0 <= j < |rest| && rest[j] == c.requests[k];
        assert c'.requests[j].nack;
      } else {
        var k :| c.delivered <= k < |c.session.log| && Rejectable(c.session.log[k].resources);
        assert Rejectable(c'.session.log[k].resources);
      }
    }
  }

  lemma DeliverRejects(value: Snapshot, c: Conn, reply: Reply)
    requires WillReject(value, c) && c.delivered < |c.session.log| && ClientMayReply(c, reply)
    ensures WillReject(value, DeliverConn(c, reply))
  {
    var c' := DeliverConn(c, reply);
    if c.strict && Evidence(c) && !c.phase.RollingBack? {
      if k :| 0 <= k < |c.requests| && c.requests[k].nack {
        assert c'.requests[k].nack;
      } else {
        var k :| c.delivered <= k < |c.session.log| && Rejectable(c.session.log[k].resources);
        if k == c.delivered {
          assert c'.requests[|c.requests|].nack;
        } else {
          assert Rejectable(c'.session.log[k].resources);
        }
      }
    }
  }

  lemma SendRejects(value: Snapshot, c: Conn, req: Request)
    requires WillReject(value, c)
    ensures WillReject(value, SendConn(c, req))
  {
    var c' := SendConn(c, req);
    if Evidence(c) && !c.phase.RollingBack? {
      if k :| 0 <= k < |c.requests| && c.requests[k].nack {
        assert c'.requests[k].nack;
      } else {
        var k :| c.delivered <= k < |c.session.log| && Rejectable(c.session.log[k].resources);
        assert Rejectable(c'.session.log[k].resources);
      }
    }
  }

  lemma WakeRejects(value: Snapshot, writes: nat, c: Conn)
    requires WillReject(value, c) && c.phase.Idle?
    ensures WillReject(value, WakeConn(c, value, writes))
  {
    var c' := WakeConn(c, value, writes);
    if Evidence(c) {
      if k :| 0 <= k < |c.requests| && c.requests[k].nack {
        assert c'.requests[k].nack;
      } else {
        var k :| c.delivered <= k < |c.session.log| && Rejectable(c.session.log[k].resources);
        assert Rejectable(c'.session.log[k].resources);
      }
    }
  }

  // ----- every run -----

  /** A snapshot that is good, or that the stream has not come across, needs no rejection. */
  lemma NothingToReject(value: Snapshot, c: Conn)
    requires !Broken(value) || Unseen(value.version, c)
    ensures WillReject(value, c)
  {
    if Broken(value) {
      assert Lookup(c.session.sentVersion, T_LISTENER) != Some(value.version);
    }
  }

  lemma PublishRejects(p: Plane, n: nat, k: nat)
    requires RejectInv(p) && Enabled(p, Publish(n)) && k < |p.conns|
    ensures WillReject(SnapshotAt(p.ip, p.issued, n), p.conns[k])
  {
    IssuedAt(p.ip, p.issued, n);
    if p.issued[n - 1] {
      assert Unpublished(p, n);
    }
    NothingToReject(SnapshotAt(p.ip, p.issued, n), p.conns[k]);
  }

  lemma RollbackRejects(p: Plane, i: nat, c: Conn)
    requires Inv(p) && Enabled(p, Rollback(i))
    ensures WillReject(p.conns[i].phase.good, c)
  {
    assert ConnInv(p.ip, p.issued, p.value, p.writes, p.conns[i]);
    BrokenByNumber(p, p.conns[i].phase.good);
    NothingToReject(p.conns[i].phase.good, c);
  }

  lemma StreamRejects(p: Plane, ev: Event, k: nat)
    requires Inv(p) && k < |p.conns| && WillReject(p.value, p.conns[k])
    requires Enabled(p, ev) && (ev.Send? || ev.Serve? || ev.Wake? || ev.Push? || ev.Deliver?) && ev.i == k
    ensures WillReject(p.value, Step(p, ev).conns[k])
  {
    var c := p.conns[k];
    assert ConnInv(p.ip, p.issued, p.value, p.writes, c);
    match ev
    case Send(_, req) => SendRejects(p.value, c, req);
    case Serve(_) => ServeRejects(p.ip, p.issued, p.value, c, p.lastGood);
    case Wake(_) => WakeRejects(p.value, p.writes, c);
    case Push(_, t) =>
      PushRejects(p.ip, p.issued, p.value, c, t, c.phase.snap, c.requests, Loop(c.phase.snap, c.phase.todo - {t}));
    case Deliver(_, reply) => DeliverRejects(p.value, c, reply);
  }

  lemma ConnRejects(p: Plane, ev: Event, k: nat)
    requires RejectInv(p) && k < |Step(p, ev).conns|
    ensures WillReject(Step(p, ev).value, Step(p, ev).conns[k])
  {
    if k < |p.conns| && Enabled(p, ev) {
      assert WillReject(p.value, p.conns[k]);
      match ev
      case Number(_) =>
      case Store(_) =>
      case Open(_) =>
      case Publish(n) => PublishRejects(p, n, k);
      case Rollback(i) => RollbackRejects(p, i, Step(p, ev).conns[k]);
      case _ => if ev.i == k { StreamRejects(p, ev, k); }
    }
  }

  lemma StepUnseen(c: Conn, version: string, value: Snapshot, writes: nat, lastGood: Snapshot)
    requires Unseen(version, c) && value.version != version
    ensures c.requests != [] ==> Unseen(version, ServeConn(c, lastGood, value))
    ensures Unseen(version, WakeConn(c, value, writes))
  {
    if c.requests != [] {
      var req := c.requests[0];
      PushUnseen(c.session.(subscribed := c.session.subscribed + {req.typeUrl}), req.typeUrl, value, version);
    }
  }

  lemma TurnUnseen(c: Conn, version: string, typeUrl: string)
    requires Unseen(version, c) && c.phase.Pushing?
    ensures Unseen(version, PushConn(c, typeUrl))
  {
    PushUnseen(c.session, typeUrl, c.phase.snap, version);
  }

  lemma ConnUnseen(p: Plane, ev: Event, version: string, k: nat)
    requires k < |Step(p, ev).conns| && p.value.version != version
    requires forall i :: 0 <= i < |p.conns| ==> Unseen(version, p.conns[i])
    ensures Unseen(version, Step(p, ev).conns[k])
  {
    if k < |p.conns| && Enabled(p, ev) {
      var c := p.conns[k];
      assert Unseen(version, c);
      match ev
      case Serve(i) => if i == k { StepUnseen(c, version, p.value, p.writes, p.lastGood); }
      case Wake(i) => if i == k { StepUnseen(c, version, p.value, p.writes, p.lastGood); }
      case Push(i, t) => if i == k { TurnUnseen(c, version, t); }
      case _ =>
    }
  }

  lemma UnpublishedStep(p: Plane, ev: Event, n: nat)
    requires RejectInv(p) && n in Step(p, ev).tasks && 1 <= n <= |Step(p, ev).issued| && Step(p, ev).issued[n - 1]
    ensures Unpublished(Step(p, ev), n)
  {
    var p' := Step(p, ev);
    if Enabled(p, ev) && ev.Number? && n == |p.issued| + 1 {
      NewVersionIsUnseen(p);
    }
    assert Unpublished(p, n);
    forall k | 0 <= k < |p'.conns| ensures Unseen(VersionName(n), p'.conns[k]) {
      ConnUnseen(p, ev, VersionName(n), k);
    }
    if Enabled(p, ev) {
      match ev
      case Publish(m) => NumbersDiffer(m, n);
      case Rollback(i) =>
        assert ConnInv(p.ip, p.issued, p.value, p.writes, p.conns[i]);
        VersionRoundTrip(n);
      case _ =>
    }
  }

  lemma RejectStep(p: Plane, ev: Event)
    requires RejectInv(p)
    ensures RejectInv(Step(p, ev))
  {
    var p' := Step(p, ev);
    InvStep(p, ev);
    forall k | 0 <= k < |p'.conns| ensures WillReject(p'.value, p'.conns[k]) {
      ConnRejects(p, ev, k);
    }
    forall n | n in p'.tasks && p'.issued[n - 1] ensures Unpublished(p', n) {
      UnpublishedStep(p, ev, n);
    }
  }

  lemma {:induction false} RejectRun(ip: string, evs: seq<Event>)
    ensures RejectInv(After(Start(ip), evs))
  {
    if evs == [] {
      StartInv(ip);
    } else {
      RejectRun(ip, evs[..|evs| - 1]);
      RejectStep(After(Start(ip), evs[..|evs| - 1]), evs[|evs| - 1]);
    }
  }
}
