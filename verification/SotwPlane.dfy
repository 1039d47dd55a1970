/** Chapter 2 as a system of atomic steps: the admin API, any number of streams, and their clients.

    Each handler that reads and then publishes is split into its atomic actions, so an admin push or a
    rollback can be overtaken between them. The version counter is the length of `issued`, which also
    remembers which versions were built broken. */
module SotwPlane {
  import opened Text
  import opened Maps
  import opened SotwModel

  /** Where a stream loop is: in `select!`, in the loop of the watch arm, or between reading the
      last good snapshot and re-advertising it. */
  datatype Phase = Idle | Pushing(snap: Snapshot, todo: set<string>) | RollingBack(good: Snapshot)

  /** A stream and its client. Responses not yet read are the end of the log. A `strict` client
      rejects every broken Listener that it reads. */
  datatype Conn = Conn(session: Session, phase: Phase, seen: nat, requests: seq<Request>, delivered: nat,
                       asked: set<string>, strict: bool)

  /** How far an admin push has got: numbered, or also stored as the last good one. */
  datatype Stage = Numbered | Stored

  datatype Plane = Plane(ip: string, issued: seq<bool>, tasks: map<nat, Stage>,
                         lastGood: Snapshot, value: Snapshot, writes: nat, conns: seq<Conn>)

  datatype Reply = Ack | Nack | Silent

  datatype Event =
    | Number(broken: bool) | Store(n: nat) | Publish(n: nat)
    | Open(strictClient: bool)
    | Send(i: nat, req: Request) | Serve(i: nat) | Rollback(i: nat)
    | Wake(i: nat) | Push(i: nat, typeUrl: string) | Deliver(i: nat, reply: Reply)

  function SnapshotAt(ip: string, issued: seq<bool>, n: nat): Snapshot
    requires 1 <= n <= |issued|
  {
    Build(VersionName(n), ip, issued[n - 1])
  }

  function Start(ip: string): Plane {
    var v1 := Build(VersionName(1), ip, false);
    Plane(ip, [false], map[], v1, v1, 0, [])
  }

  // ----- the steps of one stream and its client -----

  function Loop(snap: Snapshot, todo: set<string>): Phase {
    if todo == {} then Idle else Pushing(snap, todo)
  }

  function ServeConn(c: Conn, lastGood: Snapshot, value: Snapshot): Conn
    requires c.requests != []
  {
    var req := c.requests[0];
    c.(session := Handle(c.session, req, value), requests := c.requests[1..],
       phase := if req.nack then RollingBack(lastGood) else Idle)
  }

  function WakeConn(c: Conn, value: Snapshot, writes: nat): Conn {
    c.(seen := writes, phase := Loop(value, c.session.subscribed))
  }

  function PushConn(c: Conn, typeUrl: string): Conn
    requires c.phase.Pushing?
  {
    c.(session := PushIfNew(c.session, typeUrl, c.phase.snap),
       phase := Loop(c.phase.snap, c.phase.todo - {typeUrl}))
  }

  function Replies(resp: Response, reply: Reply): seq<Request> {
    match reply
    case Silent => []
    case Ack => [Request(resp.typeUrl, resp.versionInfo, resp.nonce, false)]
    case Nack => [Request(resp.typeUrl, "", resp.nonce, true)]
  }

  function DeliverConn(c: Conn, reply: Reply): Conn
    requires c.delivered < |c.session.log|
  {
    c.(delivered := c.delivered + 1, requests := c.requests + Replies(c.session.log[c.delivered], reply))
  }

  function SendConn(c: Conn, req: Request): Conn {
    c.(requests := c.requests + [req], asked := c.asked + {req.typeUrl})
  }

  // ----- the steps of the system -----

  /** A type's first request on a stream is a fresh subscribe. */
  predicate ClientMaySend(c: Conn, req: Request) {
    req.typeUrl in c.asked || (!req.nack && req.responseNonce == "")
  }

  predicate ClientMayReply(c: Conn, reply: Reply)
    requires c.delivered < |c.session.log|
  {
    c.strict && Rejectable(c.session.log[c.delivered].resources) ==> reply == Nack
  }

  predicate Enabled(p: Plane, ev: Event) {
    match ev
    case Number(_) => true
    case Store(n) => n in p.tasks && 1 <= n <= |p.issued| && !p.issued[n - 1] && p.tasks[n] == Numbered
    case Publish(n) => n in p.tasks && 1 <= n <= |p.issued| && (p.issued[n - 1] || p.tasks[n] == Stored)
    case Open(_) => true
    case Send(i, req) => i < |p.conns| && ClientMaySend(p.conns[i], req)
    case Serve(i) => i < |p.conns| && p.conns[i].phase.Idle? && p.conns[i].requests != []
    case Rollback(i) => i < |p.conns| && p.conns[i].phase.RollingBack?
    case Wake(i) => i < |p.conns| && p.conns[i].phase.Idle? && p.conns[i].seen < p.writes
    case Push(i, t) => i < |p.conns| && p.conns[i].phase.Pushing? && t in p.conns[i].phase.todo
    case Deliver(i, reply) =>
      i < |p.conns| && p.conns[i].delivered < |p.conns[i].session.log| && ClientMayReply(p.conns[i], reply)
  }

  function Step(p: Plane, ev: Event): Plane {
    if !Enabled(p, ev) then p
    else match ev
      case Number(broken) => p.(issued := p.issued + [broken], tasks := p.tasks[|p.issued| + 1 := Numbered])
      case Store(n) => p.(lastGood := SnapshotAt(p.ip, p.issued, n), tasks := p.tasks[n := Stored])
      case Publish(n) => p.(value := SnapshotAt(p.ip, p.issued, n), writes := p.writes + 1, tasks := p.tasks - {n})
      case Open(strict) => p.(conns := p.conns + [Conn(NEW_SESSION, Idle, p.writes, [], 0, {}, strict)])
      case Send(i, req) => p.(conns := p.conns[i := SendConn(p.conns[i], req)])
      case Serve(i) => p.(conns := p.conns[i := ServeConn(p.conns[i], p.lastGood, p.value)])
      case Rollback(i) =>
        p.(value := p.conns[i].phase.good, writes := p.writes + 1, conns := p.conns[i := p.conns[i].(phase := Idle)])
      case Wake(i) => p.(conns := p.conns[i := WakeConn(p.conns[i], p.value, p.writes)])
      case Push(i, t) => p.(conns := p.conns[i := PushConn(p.conns[i], t)])
      case Deliver(i, reply) => p.(conns := p.conns[i := DeliverConn(p.conns[i], reply)])
  }

  function After(p: Plane, evs: seq<Event>): Plane {
    if evs == [] then p else Step(After(p, evs[..|evs| - 1]), evs[|evs| - 1])
  }

  // ----- versions name snapshots -----

  /** The snapshot is the one issued under its version. */
  ghost predicate Issued(ip: string, issued: seq<bool>, snap: Snapshot) {
    var n := VersionNumber(snap.version);
    1 <= n <= |issued| && snap == SnapshotAt(ip, issued, n)
  }

  ghost predicate GoodIssued(ip: string, issued: seq<bool>, snap: Snapshot) {
    Issued(ip, issued, snap) && !issued[VersionNumber(snap.version) - 1]
  }

  ghost predicate IssuedResponse(ip: string, issued: seq<bool>, resp: Response) {
    var n := VersionNumber(resp.versionInfo);
    1 <= n <= |issued| && BuildResponse(SnapshotAt(ip, issued, n), resp.typeUrl) == Some(resp)
  }

  ghost predicate SessionInv(ip: string, issued: seq<bool>, se: Session) {
    && (forall i :: 0 <= i < |se.log| ==> IssuedResponse(ip, issued, se.log[i]) && se.log[i].typeUrl in se.subscribed)
    && (forall t :: Lookup(se.sentVersion, t) == LastVersion(se.log, t))
    && NoRepeats(se.log)
  }

  ghost predicate PhaseInv(ip: string, issued: seq<bool>, phase: Phase, subscribed: set<string>) {
    match phase
    case Idle => true
    case Pushing(snap, todo) => Issued(ip, issued, snap) && todo != {} && todo <= subscribed
    case RollingBack(good) => GoodIssued(ip, issued, good)
  }

  function Types(requests: seq<Request>): set<string> {
    set r | r in requests :: r.typeUrl
  }

  /** A request of a type that is new to the server is a fresh subscribe. */
  ghost predicate FreshFirst(subscribed: set<string>, requests: seq<Request>) {
    forall i :: 0 <= i < |requests| && requests[i].typeUrl !in subscribed + Types(requests[..i]) ==>
      !requests[i].nack && requests[i].responseNonce == ""
  }

  /** Whenever the stream has seen the last write, each known type that is not still to be pushed was
      last sent at the advertised version. */
  ghost predicate UpToDate(value: Snapshot, writes: nat, c: Conn) {
    c.seen == writes ==>
      && (c.phase.Pushing? ==> c.phase.snap == value)
      && forall t :: t in c.session.subscribed && Known(t) && (c.phase.Pushing? ==> t !in c.phase.todo) ==>
                       Lookup(c.session.sentVersion, t) == Some(value.version)
  }

  ghost predicate ConnInv(ip: string, issued: seq<bool>, value: Snapshot, writes: nat, c: Conn) {
    && SessionInv(ip, issued, c.session)
    && PhaseInv(ip, issued, c.phase, c.session.subscribed)
    && c.delivered <= |c.session.log|
    && c.asked == c.session.subscribed + Types(c.requests)
    && FreshFirst(c.session.subscribed, c.requests)
    && c.seen <= writes
    && UpToDate(value, writes, c)
  }

  ghost predicate ControlInv(p: Plane) {
    && GoodIssued(p.ip, p.issued, p.lastGood)
    && Issued(p.ip, p.issued, p.value)
    && (forall n :: n in p.tasks ==> 1 <= n <= |p.issued| && (p.tasks[n] == Stored ==> !p.issued[n - 1]))
  }

  ghost predicate Inv(p: Plane) {
    && ControlInv(p)
    && forall i :: 0 <= i < |p.conns| ==> ConnInv(p.ip, p.issued, p.value, p.writes, p.conns[i])
  }

  lemma SameVersionSameSnapshot(ip: string, issued: seq<bool>, a: Snapshot, b: Snapshot)
    requires Issued(ip, issued, a) && Issued(ip, issued, b)
    ensures a.version == b.version <==> a == b
  {
  }

  lemma IssuedAt(ip: string, issued: seq<bool>, n: nat)
    requires 1 <= n <= |issued|
    ensures Issued(ip, issued, SnapshotAt(ip, issued, n))
    ensures VersionNumber(SnapshotAt(ip, issued, n).version) == n
    ensures Broken(SnapshotAt(ip, issued, n)) <==> issued[n - 1]
  {
    VersionRoundTrip(n);
    BuildFacts(VersionName(n), ip, issued[n - 1]);
  }

  lemma ResponseIssued(ip: string, issued: seq<bool>, snap: Snapshot, typeUrl: string)
    requires Issued(ip, issued, snap)
    ensures Known(typeUrl) <==> BuildResponse(snap, typeUrl).Some?
    ensures Known(typeUrl) ==>
              var resp := BuildResponse(snap, typeUrl).value;
              resp.typeUrl == typeUrl && resp.versionInfo == snap.version && IssuedResponse(ip, issued, resp)
  {
    var n := VersionNumber(snap.version);
    BuildFacts(VersionName(n), ip, issued[n - 1]);
  }

  // ----- one stream keeps its invariant -----

  lemma SessionSends(ip: string, issued: seq<bool>, se: Session, resp: Response)
    requires SessionInv(ip, issued, se) && IssuedResponse(ip, issued, resp) && resp.typeUrl in se.subscribed
    requires Lookup(se.sentVersion, resp.typeUrl) != Some(resp.versionInfo)
    ensures SessionInv(ip, issued, se.(sentVersion := se.sentVersion[resp.typeUrl := resp.versionInfo],
                                       log := se.log + [resp]))
  {
    hide IssuedResponse, LastVersion, NoRepeats;
    NoRepeatsAppend(se.log, resp);
    forall t
      ensures Lookup(se.sentVersion[resp.typeUrl := resp.versionInfo], t) == LastVersion(se.log + [resp], t)
    {
      assert Lookup(se.sentVersion, t) == LastVersion(se.log, t);
      LastVersionOfAppend(se.log, resp, t);
    }
  }

  lemma SessionPush(ip: string, issued: seq<bool>, se: Session, typeUrl: string, snap: Snapshot)
    requires SessionInv(ip, issued, se) && Issued(ip, issued, snap) && typeUrl in se.subscribed
    ensures var se' := PushIfNew(se, typeUrl, snap);
            && SessionInv(ip, issued, se') && se'.subscribed == se.subscribed
            && (Known(typeUrl) ==> Lookup(se'.sentVersion, typeUrl) == Some(snap.version))
            && (forall t :: t != typeUrl ==> Lookup(se'.sentVersion, t) == Lookup(se.sentVersion, t))
            && se.log <= se'.log && |se'.log| <= |se.log| + 1
  {
    hide SessionInv, IssuedResponse, Issued, BuildResponse, Known;
    ResponseIssued(ip, issued, snap, typeUrl);
    if Lookup(se.sentVersion, typeUrl) != Some(snap.version) && Known(typeUrl) {
      SessionSends(ip, issued, se, BuildResponse(snap, typeUrl).value);
    }
  }

  lemma TypesSplit(a: seq<Request>, b: seq<Request>)
    ensures Types(a + b) == Types(a) + Types(b)
  {
    forall t | t in Types(a) + Types(b) ensures t in Types(a + b) {
      if t in Types(a) {
        var r :| r in a && r.typeUrl == t;
        assert r in a + b;
      } else {
        var r :| r in b && r.typeUrl == t;
        assert r in a + b;
      }
    }
  }

  lemma FreshAppend(subscribed: set<string>, requests: seq<Request>, req: Request)
    requires FreshFirst(subscribed, requests)
    requires req.typeUrl !in subscribed + Types(requests) ==> !req.nack && req.responseNonce == ""
    ensures FreshFirst(subscribed, requests + [req])
    ensures Types(requests + [req]) == Types(requests) + {req.typeUrl}
  {
    TypesSplit(requests, [req]);
    assert req in [req];
    forall i | 0 <= i < |requests + [req]|
      ensures (requests + [req])[..i] == if i < |requests| then requests[..i] else requests
    {}
  }

  lemma FreshHead(subscribed: set<string>, requests: seq<Request>)
    requires FreshFirst(subscribed, requests) && requests != []
    ensures FreshFirst(subscribed + {requests[0].typeUrl}, requests[1..])
    ensures Types(requests) == {requests[0].typeUrl} + Types(requests[1..])
    ensures requests[0].typeUrl !in subscribed ==> !requests[0].nack && requests[0].responseNonce == ""
  {
    var rest := requests[1..];
    assert [requests[0]] + rest == requests && requests[0] in [requests[0]];
    TypesSplit([requests[0]], rest);
    assert Types([requests[0]]) == {requests[0].typeUrl};
    assert Types(requests[..0]) == {};
    forall i | 0 <= i < |rest| && rest[i].typeUrl !in subscribed + {requests[0].typeUrl} + Types(rest[..i])
      ensures !rest[i].nack && rest[i].responseNonce == ""
    {
      assert requests[..i + 1] == [requests[0]] + rest[..i];
      TypesSplit([requests[0]], rest[..i]);
      assert rest[i] == requests[i + 1];
    }
  }

  lemma ConnSend(ip: string, issued: seq<bool>, value: Snapshot, writes: nat, c: Conn, req: Request)
    requires ConnInv(ip, issued, value, writes, c) && ClientMaySend(c, req)
    ensures ConnInv(ip, issued, value, writes, SendConn(c, req))
  {
    FreshAppend(c.session.subscribed, c.requests, req);
  }

  lemma ConnDeliver(ip: string, issued: seq<bool>, value: Snapshot, writes: nat, c: Conn, reply: Reply)
    requires ConnInv(ip, issued, value, writes, c) && c.delivered < |c.session.log|
    ensures ConnInv(ip, issued, value, writes, DeliverConn(c, reply))
  {
    var resp := c.session.log[c.delivered];
    assert resp.typeUrl in c.session.subscribed;
    match reply
    case Silent => assert c.requests + Replies(resp, reply) == c.requests;
    case Ack => FreshAppend(c.session.subscribed, c.requests, Replies(resp, reply)[0]);
    case Nack => FreshAppend(c.session.subscribed, c.requests, Replies(resp, reply)[0]);
  }

  lemma SubscribedMore(ip: string, issued: seq<bool>, se: Session, typeUrl: string)
    requires SessionInv(ip, issued, se)
    ensures SessionInv(ip, issued, se.(subscribed := se.subscribed + {typeUrl}))
  {
  }

  /** What a request of type `t` may do to a session. */
  ghost predicate Answers(ip: string, issued: seq<bool>, value: Snapshot, se: Session, t: string, se': Session) {
    && SessionInv(ip, issued, se') && se'.subscribed == se.subscribed + {t}
    && se.log <= se'.log
    && (forall x :: x != t ==> Lookup(se'.sentVersion, x) == Lookup(se.sentVersion, x))
    && (Known(t) ==>
          || Lookup(se'.sentVersion, t) == Some(value.version)
          || (t in se.subscribed && Lookup(se'.sentVersion, t) == Lookup(se.sentVersion, t)))
  }

  lemma HandleAnswers(ip: string, issued: seq<bool>, value: Snapshot, se: Session, req: Request)
    requires SessionInv(ip, issued, se) && Issued(ip, issued, value)
    requires req.typeUrl !in se.subscribed ==> !req.nack && req.responseNonce == ""
    ensures Answers(ip, issued, value, se, req.typeUrl, Handle(se, req, value))
  {
    SubscribedMore(ip, issued, se, req.typeUrl);
    if !req.nack && req.responseNonce == "" {
      SessionPush(ip, issued, se.(subscribed := se.subscribed + {req.typeUrl}), req.typeUrl, value);
    }
  }

  lemma AnsweredUpToDate(value: Snapshot, writes: nat, c: Conn, t: string, c': Conn)
    requires UpToDate(value, writes, c) && c.phase.Idle? && !c'.phase.Pushing? && c'.seen == c.seen
    requires c'.session.subscribed == c.session.subscribed + {t}
    requires forall x :: x != t ==> Lookup(c'.session.sentVersion, x) == Lookup(c.session.sentVersion, x)
    requires Known(t) ==>
               || Lookup(c'.session.sentVersion, t) == Some(value.version)
               || (t in c.session.subscribed &&
                   Lookup(c'.session.sentVersion, t) == Lookup(c.session.sentVersion, t))
    ensures UpToDate(value, writes, c')
  {
    hide Known;
  }

  lemma ConnServe(ip: string, issued: seq<bool>, value: Snapshot, writes: nat, c: Conn, lastGood: Snapshot)
    requires ConnInv(ip, issued, value, writes, c) && c.phase.Idle? && c.requests != []
    requires Issued(ip, issued, value) && GoodIssued(ip, issued, lastGood)
    ensures ConnInv(ip, issued, value, writes, ServeConn(c, lastGood, value))
    ensures c.session.log <= ServeConn(c, lastGood, value).session.log
  {
    hide Handle, SessionInv, GoodIssued, Issued, UpToDate, FreshFirst;
    FreshHead(c.session.subscribed, c.requests);
    HandleAnswers(ip, issued, value, c.session, c.requests[0]);
    AnsweredUpToDate(value, writes, c, c.requests[0].typeUrl, ServeConn(c, lastGood, value));
  }

  /** Why a client has to open a type with a fresh subscribe: of all the requests for a type that was never
      sent, exactly those leave a stream that was up to date up to date. After an ACK or a NACK the type
      counts as subscribed to, and waits for the next change. */
  lemma FreshSubscribeKeepsUp(ip: string, issued: seq<bool>, value: Snapshot, writes: nat, c: Conn, lastGood: Snapshot)
    requires ConnInv(ip, issued, value, writes, c) && Issued(ip, issued, value)
    requires c.phase.Idle? && c.seen == writes && c.requests != []
    requires Known(c.requests[0].typeUrl) && c.requests[0].typeUrl !in c.session.sentVersion
    ensures UpToDate(value, writes, ServeConn(c, lastGood, value)) <==>
            !c.requests[0].nack && c.requests[0].responseNonce == ""
  {
    hide SessionInv, IssuedResponse, FreshFirst, Known;
    var t := c.requests[0].typeUrl;
    ResponseIssued(ip, issued, value, t);
    FirstRequestIsAnswered(c.session, c.requests[0], value);
    forall x | x != t
      ensures Lookup(ServeConn(c, lastGood, value).session.sentVersion, x) == Lookup(c.session.sentVersion, x)
    {}
  }

  lemma ConnWake(ip: string, issued: seq<bool>, value: Snapshot, writes: nat, c: Conn)
    requires ConnInv(ip, issued, value, writes, c) && c.phase.Idle? && Issued(ip, issued, value)
    ensures ConnInv(ip, issued, value, writes, WakeConn(c, value, writes))
  {
  }

  lemma PushedUpToDate(value: Snapshot, writes: nat, c: Conn, typeUrl: string, se: Session)
    requires UpToDate(value, writes, c) && c.phase.Pushing? && typeUrl in c.phase.todo
    requires se.subscribed == c.session.subscribed
    requires Known(typeUrl) ==> Lookup(se.sentVersion, typeUrl) == Some(c.phase.snap.version)
    requires forall t :: t != typeUrl ==> Lookup(se.sentVersion, t) == Lookup(c.session.sentVersion, t)
    ensures UpToDate(value, writes, c.(session := se, phase := Loop(c.phase.snap, c.phase.todo - {typeUrl})))
  {
    var todo := c.phase.todo - {typeUrl};
    if c.seen == writes {
      forall t | t in se.subscribed && Known(t) && t !in todo ensures Lookup(se.sentVersion, t) == Some(value.version) {
        if t != typeUrl {
          assert t !in c.phase.todo;
        }
      }
    }
  }

  lemma ConnPush(ip: string, issued: seq<bool>, value: Snapshot, writes: nat, c: Conn, typeUrl: string)
    requires ConnInv(ip, issued, value, writes, c) && c.phase.Pushing? && typeUrl in c.phase.todo
    ensures ConnInv(ip, issued, value, writes, PushConn(c, typeUrl))
    ensures c.session.log <= PushConn(c, typeUrl).session.log
  {
    SessionPush(ip, issued, c.session, typeUrl, c.phase.snap);
    PushedUpToDate(value, writes, c, typeUrl, PushIfNew(c.session, typeUrl, c.phase.snap));
  }

  lemma ConnPublish(ip: string, issued: seq<bool>, value: Snapshot, writes: nat, c: Conn, next: Snapshot)
    requires ConnInv(ip, issued, value, writes, c)
    ensures ConnInv(ip, issued, next, writes + 1, c)
    ensures c.phase.RollingBack? ==> ConnInv(ip, issued, next, writes + 1, c.(phase := Idle))
  {
  }

  lemma IssuedGrows(ip: string, issued: seq<bool>, broken: bool, snap: Snapshot)
    requires Issued(ip, issued, snap)
    ensures Issued(ip, issued + [broken], snap)
    ensures GoodIssued(ip, issued, snap) ==> GoodIssued(ip, issued + [broken], snap)
  {
  }

  lemma ResponseIssue(ip: string, issued: seq<bool>, resp: Response, broken: bool)
    requires IssuedResponse(ip, issued, resp)
    ensures IssuedResponse(ip, issued + [broken], resp)
  {
    hide BuildResponse, Build, VersionNumber, VersionName;
    var n := VersionNumber(resp.versionInfo);
    assert SnapshotAt(ip, issued + [broken], n) == SnapshotAt(ip, issued, n);
  }

  lemma SessionIssue(ip: string, issued: seq<bool>, se: Session, broken: bool)
    requires SessionInv(ip, issued, se)
    ensures SessionInv(ip, issued + [broken], se)
  {
    hide IssuedResponse, LastVersion, NoRepeats;
    forall i | 0 <= i < |se.log|
      ensures IssuedResponse(ip, issued + [broken], se.log[i]) && se.log[i].typeUrl in se.subscribed
    {
      ResponseIssue(ip, issued, se.log[i], broken);
    }
  }

  lemma PhaseIssue(ip: string, issued: seq<bool>, phase: Phase, subscribed: set<string>, broken: bool)
    requires PhaseInv(ip, issued, phase, subscribed)
    ensures PhaseInv(ip, issued + [broken], phase, subscribed)
  {
    match phase
    case Idle =>
    case Pushing(snap, _) => IssuedGrows(ip, issued, broken, snap);
    case RollingBack(good) => IssuedGrows(ip, issued, broken, good);
  }

  lemma ConnIssue(ip: string, issued: seq<bool>, value: Snapshot, writes: nat, c: Conn, broken: bool)
    requires ConnInv(ip, issued, value, writes, c)
    ensures ConnInv(ip, issued + [broken], value, writes, c)
  {
    SessionIssue(ip, issued, c.session, broken);
    PhaseIssue(ip, issued, c.phase, c.session.subscribed, broken);
  }

  // ----- every run keeps it -----

  lemma StartInv(ip: string)
    ensures Inv(Start(ip))
  {
    IssuedAt(ip, [false], 1);
  }

  lemma ControlNumber(p: Plane, broken: bool)
    requires ControlInv(p)
    ensures ControlInv(Step(p, Number(broken)))
  {
    IssuedGrows(p.ip, p.issued, broken, p.lastGood);
    IssuedGrows(p.ip, p.issued, broken, p.value);
  }

  lemma ControlStore(p: Plane, n: nat)
    requires ControlInv(p) && Enabled(p, Store(n))
    ensures ControlInv(Step(p, Store(n)))
  {
    IssuedAt(p.ip, p.issued, n);
  }

  lemma ControlPublish(p: Plane, n: nat)
    requires ControlInv(p) && Enabled(p, Publish(n))
    ensures ControlInv(Step(p, Publish(n)))
  {
    IssuedAt(p.ip, p.issued, n);
  }

  lemma ControlStep(p: Plane, ev: Event)
    requires Inv(p)
    ensures ControlInv(Step(p, ev))
  {
    if Enabled(p, ev) {
      match ev
      case Number(broken) => ControlNumber(p, broken);
      case Store(n) => ControlStore(p, n);
      case Publish(n) => ControlPublish(p, n);
      case Rollback(i) => assert ConnInv(p.ip, p.issued, p.value, p.writes, p.conns[i]);
      case _ =>
    }
  }

  lemma ConnOpened(ip: string, issued: seq<bool>, value: Snapshot, writes: nat, strict: bool)
    ensures ConnInv(ip, issued, value, writes, Conn(NEW_SESSION, Idle, writes, [], 0, {}, strict))
  {
  }

  /** The stream that an event is about keeps its invariant, and so do the others. */
  lemma ConnStep(p: Plane, ev: Event, k: nat)
    requires Inv(p) && k < |Step(p, ev).conns|
    ensures var p' := Step(p, ev); ConnInv(p'.ip, p'.issued, p'.value, p'.writes, p'.conns[k])
  {
    hide ConnInv, ServeConn, WakeConn, PushConn, DeliverConn, SendConn, SnapshotAt;
    if k < |p.conns| {
      var c := p.conns[k];
      assert ConnInv(p.ip, p.issued, p.value, p.writes, c);
      if Enabled(p, ev) {
        match ev
        case Number(broken) => ConnIssue(p.ip, p.issued, p.value, p.writes, c, broken);
        case Store(n) =>
        case Publish(n) => ConnPublish(p.ip, p.issued, p.value, p.writes, c, SnapshotAt(p.ip, p.issued, n));
        case Open(_) =>
        case Send(i, req) => if i == k { ConnSend(p.ip, p.issued, p.value, p.writes, c, req); }
        case Serve(i) => if i == k { ConnServe(p.ip, p.issued, p.value, p.writes, c, p.lastGood); }
        case Rollback(i) => ConnPublish(p.ip, p.issued, p.value, p.writes, c, p.conns[i].phase.good);
        case Wake(i) => if i == k { ConnWake(p.ip, p.issued, p.value, p.writes, c); }
        case Push(i, t) => if i == k { ConnPush(p.ip, p.issued, p.value, p.writes, c, t); }
        case Deliver(i, reply) => if i == k { ConnDeliver(p.ip, p.issued, p.value, p.writes, c, reply); }
      }
    } else {
      ConnOpened(p.ip, p.issued, p.value, p.writes, ev.strictClient);
    }
  }

  lemma InvStep(p: Plane, ev: Event)
    requires Inv(p)
    ensures Inv(Step(p, ev))
  {
    var p' := Step(p, ev);
    ControlStep(p, ev);
    forall k | 0 <= k < |p'.conns| ensures ConnInv(p'.ip, p'.issued, p'.value, p'.writes, p'.conns[k]) {
      ConnStep(p, ev, k);
    }
  }

  lemma {:induction false} RunInv(p: Plane, evs: seq<Event>)
    requires Inv(p)
    ensures Inv(After(p, evs))
  {
    if evs != [] {
      RunInv(p, evs[..|evs| - 1]);
      InvStep(After(p, evs[..|evs| - 1]), evs[|evs| - 1]);
    }
  }

  // ----- the theorems -----

  /** In every run the rollback target is a good snapshot, and whatever is advertised was built under
      its version. */
  lemma {:induction false} RollbackTargetIsGood(ip: string, evs: seq<Event>)
    ensures var p := After(Start(ip), evs);
            !Broken(p.lastGood) && GoodIssued(p.ip, p.issued, p.lastGood) && Issued(p.ip, p.issued, p.value)
  {
    StartInv(ip);
    RunInv(Start(ip), evs);
    var p := After(Start(ip), evs);
    IssuedAt(p.ip, p.issued, VersionNumber(p.lastGood.version));
  }

  /** In every run, when a stream skips a push because the version was sent, then the last response of
      the type is that very content. */
  lemma SkipMeansSent(ip: string, evs: seq<Event>, i: nat, typeUrl: string, snap: Snapshot)
    requires var p := After(Start(ip), evs);
             && i < |p.conns| && Issued(p.ip, p.issued, snap)
             && Lookup(p.conns[i].session.sentVersion, typeUrl) == Some(snap.version)
    ensures var p := After(Start(ip), evs);
            var last := LastResponse(p.conns[i].session.log, typeUrl);
            && last == BuildResponse(snap, typeUrl) && last.Some?
            && last.value.typeUrl == typeUrl && Carries(last.value, snap)
  {
    ResponseCarries(snap, typeUrl);
    StartInv(ip);
    RunInv(Start(ip), evs);
    var p := After(Start(ip), evs);
    assert ConnInv(p.ip, p.issued, p.value, p.writes, p.conns[i]);
    LastIsLogged(p.conns[i].session.log, typeUrl);
  }

  lemma {:induction false} LastIsLogged(log: seq<Response>, typeUrl: string)
    requires LastResponse(log, typeUrl).Some?
    ensures exists i :: 0 <= i < |log| && log[i] == LastResponse(log, typeUrl).value && log[i].typeUrl == typeUrl
  {
    if log[|log| - 1].typeUrl != typeUrl {
      LastIsLogged(log[..|log| - 1], typeUrl);
      var i :| 0 <= i < |log| - 1 && log[..|log| - 1][i] == LastResponse(log, typeUrl).value
               && log[i].typeUrl == typeUrl;
    }
  }

  /** In every run, a stream that has no change to look at has sent every known type it is subscribed
      to at the advertised version, and no stream sends a version twice in a row for a type. */
  lemma StreamsNeverLag(ip: string, evs: seq<Event>, i: nat)
    requires i < |After(Start(ip), evs).conns|
    ensures var p := After(Start(ip), evs);
            var c := p.conns[i];
            && NoRepeats(c.session.log)
            && (!c.phase.Pushing? && c.seen == p.writes ==>
                  forall t :: t in c.session.subscribed && Known(t) ==>
                                Lookup(c.session.sentVersion, t) == Some(p.value.version) &&
                                LastVersion(c.session.log, t) == Some(p.value.version))
  {
    StartInv(ip);
    RunInv(Start(ip), evs);
    var p := After(Start(ip), evs);
    assert ConnInv(p.ip, p.issued, p.value, p.writes, p.conns[i]);
  }
}
