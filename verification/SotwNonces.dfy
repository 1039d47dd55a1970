/** Chapter 2's nonces carry the type and the version, and nothing else: a version that is sent again after a
    rollback has the nonce it had before. */
module SotwNonces {
  import opened Text
  import opened Maps
  import opened Config
  import opened SotwModel
  import opened SotwPlane
  import opened SotwDiscipline

  lemma ShortTells(a: string, b: string)
    requires Known(a) && Known(b)
    ensures |Short(a)| == 3
    ensures Short(a) == Short(b) <==> a == b
  {
    TypesDiffer();
  }

  lemma NonceOf(ip: string, issued: seq<bool>, resp: Response)
    requires IssuedResponse(ip, issued, resp)
    ensures Known(resp.typeUrl) && resp.nonce == Short(resp.typeUrl) + "-" + resp.versionInfo
  {
    var n := VersionNumber(resp.versionInfo);
    IssuedAt(ip, issued, n);
    ResponseIssued(ip, issued, SnapshotAt(ip, issued, n), resp.typeUrl);
  }

  lemma NonceSplits(a: Response, b: Response)
    requires Known(a.typeUrl) && a.nonce == Short(a.typeUrl) + "-" + a.versionInfo
    requires Known(b.typeUrl) && b.nonce == Short(b.typeUrl) + "-" + b.versionInfo
    ensures a.nonce == b.nonce <==> a.typeUrl == b.typeUrl && a.versionInfo == b.versionInfo
  {
    ShortTells(a.typeUrl, b.typeUrl);
    ShortTells(b.typeUrl, a.typeUrl);
    hide Short, Known;
    assert a.nonce[..3] == Short(a.typeUrl) && a.nonce[4..] == a.versionInfo;
    assert b.nonce[..3] == Short(b.typeUrl) && b.nonce[4..] == b.versionInfo;
  }

  /** In every run, two responses of a stream have the same nonce just when they are of one type and one
      version, and then they are the same response. */
  lemma {:induction false} NoncesNameContents(ip: string, evs: seq<Event>, k: nat, i: nat, j: nat)
    requires k < |After(Start(ip), evs).conns|
    requires i < j < |After(Start(ip), evs).conns[k].session.log|
    ensures var log := After(Start(ip), evs).conns[k].session.log;
            && (log[i].nonce == log[j].nonce <==>
                  log[i].typeUrl == log[j].typeUrl && log[i].versionInfo == log[j].versionInfo)
            && (log[i].nonce == log[j].nonce <==> log[i] == log[j])
  {
    StartInv(ip);
    RunInv(Start(ip), evs);
    hide After, SnapshotAt, BuildResponse, Known, Short;
    var p := After(Start(ip), evs);
    assert ConnInv(p.ip, p.issued, p.value, p.writes, p.conns[k]);
    var log := p.conns[k].session.log;
    assert IssuedResponse(p.ip, p.issued, log[i]) && IssuedResponse(p.ip, p.issued, log[j]);
    NonceOf(p.ip, p.issued, log[i]);
    NonceOf(p.ip, p.issued, log[j]);
    NonceSplits(log[i], log[j]);
  }

  // ----- a run that repeats one -----

  const SUBSCRIBE := Request(T_LISTENER, "", "", false)

  function ListenerOf(ip: string, n: nat, broken: bool): Response {
    var snap := Build(VersionName(n), ip, broken);
    Response(snap.version, snap.byType[T_LISTENER], T_LISTENER, "lds" + "-" + VersionName(n))
  }

  /** The one stream of the run, when the client has read all but `unread` responses. */
  function Client(log: seq<Response>, version: string, unread: nat, seen: nat): Conn
    requires unread <= |log|
  {
    Conn(Session({T_LISTENER}, map[T_LISTENER := version], log), Idle, seen, [], |log| - unread, {T_LISTENER}, true)
  }

  lemma ListenerResponse(ip: string, n: nat, broken: bool)
    ensures BuildResponse(Build(VersionName(n), ip, broken), T_LISTENER) == Some(ListenerOf(ip, n, broken))
  {
    TypesDiffer();
  }

  lemma PushListener(se: Session, ip: string, n: nat, broken: bool)
    requires se.subscribed == {T_LISTENER} && se.sentVersion.Keys <= {T_LISTENER}
    requires Lookup(se.sentVersion, T_LISTENER) != Some(VersionName(n))
    ensures PushIfNew(se, T_LISTENER, Build(VersionName(n), ip, broken)) ==
            Session({T_LISTENER}, map[T_LISTENER := VersionName(n)], se.log + [ListenerOf(ip, n, broken)])
  {
    hide VersionName, BuildResponse, Build, ListenerOf;
    ListenerResponse(ip, n, broken);
    ListenerFacts(ip, n, broken);
    assert se.sentVersion[T_LISTENER := VersionName(n)] == map[T_LISTENER := VersionName(n)];
  }

  lemma InFourSteps(p: Plane, a: Event, b: Event, c: Event, d: Event)
    ensures After(p, [a, b, c, d]) == Step(Step(Step(Step(p, a), b), c), d)
  {
    hide Step, After;
    FirstTwo(p, a, b);
    FirstTwo(Step(Step(p, a), b), c, d);
    AfterSplit(p, [a, b], [c, d]);
    assert [a, b] + [c, d] == [a, b, c, d];
  }

  /** A client subscribes to Listeners, and reads the first. */
  lemma Opening(ip: string)
    ensures After(Start(ip), [Open(true), Send(0, SUBSCRIBE), Serve(0), Deliver(0, Silent)]) ==
            Start(ip).(conns := [Client([ListenerOf(ip, 1, false)], VersionName(1), 0, 0)])
  {
    hide Build, BuildResponse, ListenerOf, VersionName;
    InFourSteps(Start(ip), Open(true), Send(0, SUBSCRIBE), Serve(0), Deliver(0, Silent));
    var noted := NEW_SESSION.(subscribed := {T_LISTENER});
    PushListener(noted, ip, 1, false);
    ListenerFacts(ip, 1, false);
    var p1 := Step(Start(ip), Open(true));
    assert p1.conns == [Conn(NEW_SESSION, Idle, 0, [], 0, {}, true)];
    var p2 := Step(p1, Send(0, SUBSCRIBE));
    assert ClientMaySend(p1.conns[0], SUBSCRIBE) && [] + [SUBSCRIBE] == [SUBSCRIBE];
    assert {} + {T_LISTENER} == {T_LISTENER};
    assert p2.conns == [Conn(NEW_SESSION, Idle, 0, [SUBSCRIBE], 0, {T_LISTENER}, true)];
    var p3 := Step(p2, Serve(0));
    assert [SUBSCRIBE][1..] == [];
    assert NEW_SESSION.(subscribed := NEW_SESSION.subscribed + {T_LISTENER}) == noted;
    assert Handle(NEW_SESSION, SUBSCRIBE, p2.value) == PushIfNew(noted, T_LISTENER, p2.value);
    assert [] + [ListenerOf(ip, 1, false)] == [ListenerOf(ip, 1, false)];
    assert p3.conns == [Client([ListenerOf(ip, 1, false)], VersionName(1), 1, 0)];
    var p4 := Step(p3, Deliver(0, Silent));
    assert ClientMayReply(p3.conns[0], Silent) && [] + Replies(ListenerOf(ip, 1, false), Silent) == [];
    assert p4.conns[0] == Client([ListenerOf(ip, 1, false)], VersionName(1), 0, 0);
    assert p4.conns == [p4.conns[0]];
  }

  lemma ListenerFacts(ip: string, n: nat, broken: bool)
    ensures Build(VersionName(n), ip, broken).version == VersionName(n)
    ensures var resp := ListenerOf(ip, n, broken);
            && resp.typeUrl == T_LISTENER && resp.versionInfo == VersionName(n)
            && resp.nonce == "lds" + "-" + VersionName(n)
            && (Rejectable(resp.resources) <==> broken)
  {
    BuildFacts(VersionName(n), ip, broken);
  }

  /** A stream that is waiting takes up version `n`. */
  lemma TakesUp(p: Plane, log: seq<Response>, version: string, seen: nat, n: nat, broken: bool)
    requires p.conns == [Client(log, version, 0, seen)] && seen < p.writes
    requires p.value == Build(VersionName(n), p.ip, broken) && version != VersionName(n)
    ensures After(p, [Wake(0), Push(0, T_LISTENER)]) ==
            p.(conns := [Client(log + [ListenerOf(p.ip, n, broken)], VersionName(n), 1, p.writes)])
  {
    hide Build, BuildResponse, ListenerOf, VersionName;
    FirstTwo(p, Wake(0), Push(0, T_LISTENER));
    PushListener(p.conns[0].session, p.ip, n, broken);
    ListenerFacts(p.ip, n, broken);
    var p1 := Step(p, Wake(0));
    assert p1.conns == [Client(log, version, 0, seen).(seen := p.writes, phase := Pushing(p.value, {T_LISTENER}))];
    assert {T_LISTENER} - {T_LISTENER} == {};
    var p2 := Step(p1, Push(0, T_LISTENER));
    assert p2.conns[0] == Client(log + [ListenerOf(p.ip, n, broken)], VersionName(n), 1, p.writes);
    assert p2.conns == [p2.conns[0]];
  }

  /** A broken version is published and taken up. */
  lemma Breaking(ip: string)
    ensures var p := Start(ip).(conns := [Client([ListenerOf(ip, 1, false)], VersionName(1), 0, 0)]);
            After(p, [Number(true), Publish(2)] + [Wake(0), Push(0, T_LISTENER)]) ==
            p.(issued := [false, true], value := Build(VersionName(2), ip, true), writes := 1,
               conns := [Client([ListenerOf(ip, 1, false), ListenerOf(ip, 2, true)], VersionName(2), 1, 1)])
  {
    hide Build, BuildResponse, ListenerOf, VersionName;
    var p := Start(ip).(conns := [Client([ListenerOf(ip, 1, false)], VersionName(1), 0, 0)]);
    FirstTwo(p, Number(true), Publish(2));
    var p1 := Step(p, Number(true));
    assert p1.issued == [false, true] && p1.tasks == map[2 := Numbered];
    var p2 := Step(p1, Publish(2));
    assert p2.tasks == map[];
    assert p2 == p.(issued := [false, true], value := Build(VersionName(2), ip, true), writes := 1);
    VersionRoundTrip(1);
    VersionRoundTrip(2);
    TakesUp(p2, [ListenerOf(ip, 1, false)], VersionName(1), 0, 2, true);
    AfterSplit(p, [Number(true), Publish(2)], [Wake(0), Push(0, T_LISTENER)]);
    assert [ListenerOf(ip, 1, false)] + [ListenerOf(ip, 2, true)] ==
           [ListenerOf(ip, 1, false), ListenerOf(ip, 2, true)];
  }

  function Rejection(n: nat): Request {
    Request(T_LISTENER, "", "lds" + "-" + VersionName(n), true)
  }

  lemma RejectStep(p: Plane, log: seq<Response>, n: nat)
    requires p.conns == [Client(log + [ListenerOf(p.ip, n, true)], VersionName(n), 1, p.writes)]
    ensures var c := Client(log + [ListenerOf(p.ip, n, true)], VersionName(n), 0, p.writes);
            Step(p, Deliver(0, Nack)) == p.(conns := [c.(requests := [Rejection(n)])])
  {
    hide Build, BuildResponse, ListenerOf, VersionName, Rejectable;
    ListenerFacts(p.ip, n, true);
    assert (log + [ListenerOf(p.ip, n, true)])[|log|] == ListenerOf(p.ip, n, true);
    assert Replies(ListenerOf(p.ip, n, true), Nack) == [Rejection(n)] && [] + [Rejection(n)] == [Rejection(n)];
    var p' := Step(p, Deliver(0, Nack));
    assert p'.conns == [p'.conns[0]];
  }

  lemma ServeStep(p: Plane, c: Conn, n: nat)
    requires p.conns == [c.(requests := [Rejection(n)])] && c.phase.Idle? && c.requests == []
    requires T_LISTENER in c.session.subscribed
    ensures Step(p, Serve(0)) == p.(conns := [c.(phase := RollingBack(p.lastGood))])
  {
    assert [Rejection(n)][1..] == [];
    assert c.session.subscribed + {T_LISTENER} == c.session.subscribed;
    var p' := Step(p, Serve(0));
    assert p'.conns == [p'.conns[0]];
  }

  /** It is rejected and rolled back. */
  lemma RejectAndRollBack(p: Plane, log: seq<Response>, n: nat)
    requires p.conns == [Client(log + [ListenerOf(p.ip, n, true)], VersionName(n), 1, p.writes)]
    ensures var c := Client(log + [ListenerOf(p.ip, n, true)], VersionName(n), 0, p.writes);
            After(p, [Deliver(0, Nack), Serve(0)] + [Rollback(0)]) ==
            p.(value := p.lastGood, writes := p.writes + 1, conns := [c])
  {
    hide After, ListenerOf, VersionName, Rejection;
    var c := Client(log + [ListenerOf(p.ip, n, true)], VersionName(n), 0, p.writes);
    RejectStep(p, log, n);
    ServeStep(Step(p, Deliver(0, Nack)), c, n);
    FirstTwo(p, Deliver(0, Nack), Serve(0));
    var p2 := After(p, [Deliver(0, Nack), Serve(0)]);
    assert p2 == p.(conns := [c.(phase := RollingBack(p.lastGood))]);
    AfterSplit(p, [Deliver(0, Nack), Serve(0)], [Rollback(0)]);
    AfterOne(p2, Rollback(0));
    assert Step(p2, Rollback(0)).conns == [c];
  }

  lemma AfterOne(p: Plane, ev: Event)
    ensures After(p, [ev]) == Step(p, ev)
  {
    assert [ev][..0] == [] && After(p, []) == p;
  }

  /** And the first version is taken up again. */
  lemma RollingBackAgain(ip: string, p: Plane)
    requires p.ip == ip && p.lastGood == Build(VersionName(1), ip, false) && p.writes == 1
    requires p.conns == [Client([ListenerOf(ip, 1, false), ListenerOf(ip, 2, true)], VersionName(2), 1, 1)]
    ensures var q := After(p, [Deliver(0, Nack), Serve(0)] + [Rollback(0)] + [Wake(0), Push(0, T_LISTENER)]);
            && |q.conns| == 1
            && q.conns[0].session.log ==
               [ListenerOf(ip, 1, false), ListenerOf(ip, 2, true), ListenerOf(ip, 1, false)]
  {
    hide Build, BuildResponse, ListenerOf, VersionName, VersionNumber, Step, After;
    var log := [ListenerOf(ip, 1, false), ListenerOf(ip, 2, true)];
    assert [ListenerOf(ip, 1, false)] + [ListenerOf(ip, 2, true)] == log;
    RejectAndRollBack(p, [ListenerOf(ip, 1, false)], 2);
    VersionRoundTrip(1);
    VersionRoundTrip(2);
    TakesUp(After(p, [Deliver(0, Nack), Serve(0)] + [Rollback(0)]), log, VersionName(2), 1, 1, false);
    AfterSplit(p, [Deliver(0, Nack), Serve(0)] + [Rollback(0)], [Wake(0), Push(0, T_LISTENER)]);
    assert log + [ListenerOf(ip, 1, false)] ==
           [ListenerOf(ip, 1, false), ListenerOf(ip, 2, true), ListenerOf(ip, 1, false)];
  }

  /** Subscribe, a broken push, its rejection, and the rollback. */
  function BrokenAndBack(): seq<Event> {
    [Open(true), Send(0, SUBSCRIBE), Serve(0), Deliver(0, Silent)]
    + ([Number(true), Publish(2)] + [Wake(0), Push(0, T_LISTENER)])
    + ([Deliver(0, Nack), Serve(0)] + [Rollback(0)] + [Wake(0), Push(0, T_LISTENER)])
  }

  /** An input that shows it: the first and the third response of the run are two pushes with one nonce, and
      a broken one in between. */
  lemma RollbackRepeatsNonce(ip: string)
    ensures var p := After(Start(ip), BrokenAndBack());
            && |p.conns| == 1 && |p.conns[0].session.log| == 3
            && var log := p.conns[0].session.log;
            && log[0].nonce == log[2].nonce == "lds" + "-" + VersionName(1)
            && log[1].nonce == "lds" + "-" + VersionName(2) && Rejectable(log[1].resources)
  {
    hide Step, After, Build, ListenerOf, VersionName;
    var a := [Open(true), Send(0, SUBSCRIBE), Serve(0), Deliver(0, Silent)];
    var b := [Number(true), Publish(2)] + [Wake(0), Push(0, T_LISTENER)];
    var c := [Deliver(0, Nack), Serve(0)] + [Rollback(0)] + [Wake(0), Push(0, T_LISTENER)];
    Opening(ip);
    Breaking(ip);
    AfterSplit(Start(ip), a, b);
    RollingBackAgain(ip, After(Start(ip), a + b));
    AfterSplit(Start(ip), a + b, c);
    ListenerFacts(ip, 1, false);
    ListenerFacts(ip, 2, true);
  }
}
