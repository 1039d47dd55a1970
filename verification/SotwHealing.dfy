/** The exchange that follows the last admin push is finite, whatever the clients reject, and it ends
    with a good snapshot on every stream. */
module SotwHealing {
  import opened Text
  import opened Maps
  import opened Config
  import opened SotwModel
  import opened SotwPlane
  import opened SotwRollback

  /** The steps of streams and clients that need no admin push, new stream or unasked request. */
  predicate Internal(ev: Event) {
    ev.Serve? || ev.Rollback? || ev.Wake? || ev.Push? || ev.Deliver?
  }

  // ----- sums over the streams -----

  function Sum(xs: seq<nat>): nat {
    if xs == [] then 0 else Sum(xs[..|xs| - 1]) + xs[|xs| - 1]
  }

  lemma {:induction false} SumUpdate(xs: seq<nat>, i: nat, x: nat)
    requires i < |xs|
    ensures Sum(xs[i := x]) == Sum(xs) - xs[i] + x
  {
    var ys := xs[i := x];
    if i == |xs| - 1 {
      assert ys[..|ys| - 1] == xs[..|xs| - 1];
    } else {
      SumUpdate(xs[..|xs| - 1], i, x);
      assert ys[..|ys| - 1] == xs[..|xs| - 1][i := x];
    }
  }

  // ----- the measure -----

  /** A rollback to a snapshot that is no longer the last good one. */
  function Stale(c: Conn, good: Snapshot): nat {
    if c.phase.RollingBack? && c.phase.good != good then 1 else 0
  }

  function Lagging(c: Conn, good: Snapshot): set<string> {
    set t | t in c.asked && Lookup(c.session.sentVersion, t) != Some(good.version)
  }

  /** A bound on the rejections to come. Once the last good snapshot is advertised, a type is sent again
      only if it was last sent at another version. */
  function Budget(c: Conn, good: Snapshot, settled: bool, writes: nat): nat
    requires c.delivered <= |c.session.log|
  {
    (if settled
     then (if c.phase.Pushing? && c.phase.snap != good then 2 * |c.phase.todo| else 0) + |Lagging(c, good)|
     else (if c.seen < writes then |c.asked| else 0) + (if c.phase.Pushing? then |c.phase.todo| else 0))
    + (|c.session.log| - c.delivered) + |c.requests| + (if c.phase.RollingBack? then 1 else 0)
  }

  function Effort(req: Request): nat {
    if !req.nack && req.responseNonce == "" then 3 else 1
  }

  function Efforts(requests: seq<Request>): nat {
    Sum(seq(|requests|, i requires 0 <= i < |requests| => Effort(requests[i])))
  }

  /** A bound on the steps before the next re-advertisement. */
  function Chores(c: Conn, writes: nat): nat
    requires c.delivered <= |c.session.log|
  {
    (if c.seen < writes then 3 * |c.asked| + 1 else 0)
    + (if c.phase.Pushing? then 3 * |c.phase.todo| else 0)
    + 2 * (|c.session.log| - c.delivered) + Efforts(c.requests)
  }

  ghost predicate Reads(conns: seq<Conn>) {
    forall i :: 0 <= i < |conns| ==> conns[i].delivered <= |conns[i].session.log|
  }

  function AllStale(conns: seq<Conn>, good: Snapshot): seq<nat> {
    seq(|conns|, i requires 0 <= i < |conns| => Stale(conns[i], good))
  }

  ghost function AllBudgets(conns: seq<Conn>, good: Snapshot, settled: bool, writes: nat): seq<nat>
    requires Reads(conns)
  {
    seq(|conns|, i requires 0 <= i < |conns| => Budget(conns[i], good, settled, writes))
  }

  ghost function AllChores(conns: seq<Conn>, writes: nat): seq<nat>
    requires Reads(conns)
  {
    seq(|conns|, i requires 0 <= i < |conns| => Chores(conns[i], writes))
  }

  datatype Measure = Measure(stale: nat, unsettled: nat, budget: nat, chores: nat)

  ghost function MeasureOf(p: Plane): Measure
    requires Reads(p.conns)
  {
    Measure(Sum(AllStale(p.conns, p.lastGood)),
            if p.value != p.lastGood then 1 else 0,
            Sum(AllBudgets(p.conns, p.lastGood, p.value == p.lastGood, p.writes)),
            Sum(AllChores(p.conns, p.writes)))
  }

  predicate Below(a: Measure, b: Measure) {
    || a.stale < b.stale
    || (a.stale == b.stale &&
          (|| a.unsettled < b.unsettled
           || (a.unsettled == b.unsettled &&
                 (|| a.budget < b.budget
                  || (a.budget == b.budget && a.chores < b.chores)))))
  }

  // ----- one stream -----

  lemma EffortsAppend(requests: seq<Request>, req: Request)
    ensures Efforts(requests + [req]) == Efforts(requests) + Effort(req)
  {
    var xs := seq(|requests + [req]|, i requires 0 <= i < |requests + [req]| => Effort((requests + [req])[i]));
    var ys := seq(|requests|, i requires 0 <= i < |requests| => Effort(requests[i]));
    assert xs[..|xs| - 1] == ys;
  }

  lemma {:induction false} EffortsHead(requests: seq<Request>)
    requires requests != []
    ensures Efforts(requests) == Effort(requests[0]) + Efforts(requests[1..])
  {
    var last := requests[|requests| - 1];
    if |requests| == 1 {
      assert requests == [] + [last];
      EffortsAppend([], last);
    } else {
      var init := requests[..|requests| - 1];
      assert init + [last] == requests && init[1..] + [last] == requests[1..];
      EffortsHead(init);
      EffortsAppend(init, last);
      EffortsAppend(init[1..], last);
    }
  }

  /** The step costs the stream some work, and no rejection is added. */
  ghost predicate Cheaper(c': Conn, c: Conn, good: Snapshot, settled: bool, writes: nat) {
    && c.delivered <= |c.session.log| && c'.delivered <= |c'.session.log|
    && Stale(c', good) == Stale(c, good)
    && Budget(c', good, settled, writes) <= Budget(c, good, settled, writes)
    && Chores(c', writes) < Chores(c, writes)
  }

  lemma LaggingPush(c: Conn, good: Snapshot, typeUrl: string, snap: Snapshot)
    ensures var se := PushIfNew(c.session, typeUrl, snap);
            var sent := |se.log| - |c.session.log|;
            && 0 <= sent <= 1
            && |Lagging(c.(session := se), good)| <= |Lagging(c, good)| + 1
            && (sent == 0 ==> |Lagging(c.(session := se), good)| == |Lagging(c, good)|)
            && (snap == good && typeUrl in c.asked ==>
                  |Lagging(c.(session := se), good)| + sent <= |Lagging(c, good)|)
  {
    var se := PushIfNew(c.session, typeUrl, snap);
    var now, before := Lagging(c.(session := se), good), Lagging(c, good);
    if se.log == c.session.log {
      assert now == before;
    } else {
      assert now <= before + {typeUrl};
      SmallerSet(now, before + {typeUrl});
      if snap == good && typeUrl in c.asked {
        assert now == before - {typeUrl} && typeUrl in before;
      }
    }
  }

  lemma DeliverCheaper(c: Conn, reply: Reply, good: Snapshot, settled: bool, writes: nat)
    requires c.delivered < |c.session.log|
    requires c.session.log[c.delivered].nonce != ""
    ensures Cheaper(DeliverConn(c, reply), c, good, settled, writes)
  {
    var c' := DeliverConn(c, reply);
    assert Lagging(c', good) == Lagging(c, good);
    var replies := Replies(c.session.log[c.delivered], reply);
    if reply == Silent {
      assert c'.requests == c.requests;
    } else {
      EffortsAppend(c.requests, replies[0]);
    }
  }

  lemma WakeCheaper(c: Conn, value: Snapshot, good: Snapshot, writes: nat)
    requires c.phase.Idle? && c.seen < writes && c.delivered <= |c.session.log|
    requires c.session.subscribed <= c.asked
    ensures Cheaper(WakeConn(c, value, writes), c, good, value == good, writes)
  {
    SmallerSet(c.session.subscribed, c.asked);
    assert Lagging(WakeConn(c, value, writes), good) == Lagging(c, good);
  }

  lemma PushCheaper(c: Conn, typeUrl: string, good: Snapshot, settled: bool, writes: nat)
    requires c.phase.Pushing? && typeUrl in c.phase.todo && c.delivered <= |c.session.log|
    requires typeUrl in c.asked
    ensures Cheaper(PushConn(c, typeUrl), c, good, settled, writes)
  {
    var c' := PushConn(c, typeUrl);
    LaggingPush(c, good, typeUrl, c.phase.snap);
    assert Lagging(c', good) == Lagging(c.(session := c'.session), good);
    assert |c.phase.todo - {typeUrl}| == |c.phase.todo| - 1;
  }

  lemma ServeCheaper(c: Conn, value: Snapshot, good: Snapshot, writes: nat)
    requires c.phase.Idle? && c.requests != [] && c.delivered <= |c.session.log|
    requires c.requests[0].typeUrl in c.asked
    ensures Cheaper(ServeConn(c, good, value), c, good, value == good, writes)
  {
    var c' := ServeConn(c, good, value);
    var req := c.requests[0];
    EffortsHead(c.requests);
    var noted := c.(session := c.session.(subscribed := c.session.subscribed + {req.typeUrl}));
    assert Lagging(noted, good) == Lagging(c, good);
    LaggingPush(noted, good, req.typeUrl, value);
    assert Lagging(c', good) == Lagging(c.(session := c'.session), good);
  }

  // ----- all the streams -----

  lemma ReadsAll(p: Plane)
    requires Inv(p)
    ensures Reads(p.conns)
  {
    forall i | 0 <= i < |p.conns| ensures p.conns[i].delivered <= |p.conns[i].session.log| {
      assert ConnInv(p.ip, p.issued, p.value, p.writes, p.conns[i]);
    }
  }

  lemma OneCheaper(p: Plane, i: nat, c': Conn)
    requires Reads(p.conns) && i < |p.conns|
    requires Cheaper(c', p.conns[i], p.lastGood, p.value == p.lastGood, p.writes)
    ensures Reads(p.conns[i := c'])
    ensures Below(MeasureOf(p.(conns := p.conns[i := c'])), MeasureOf(p))
  {
    var conns := p.conns[i := c'];
    var good, settled := p.lastGood, p.value == p.lastGood;
    assert AllStale(conns, good) == AllStale(p.conns, good)[i := Stale(c', good)];
    SumUpdate(AllStale(p.conns, good), i, Stale(c', good));
    assert AllBudgets(conns, good, settled, p.writes) ==
           AllBudgets(p.conns, good, settled, p.writes)[i := Budget(c', good, settled, p.writes)];
    SumUpdate(AllBudgets(p.conns, good, settled, p.writes), i, Budget(c', good, settled, p.writes));
    assert AllChores(conns, p.writes) == AllChores(p.conns, p.writes)[i := Chores(c', p.writes)];
    SumUpdate(AllChores(p.conns, p.writes), i, Chores(c', p.writes));
  }

  lemma RollbackStale(conns: seq<Conn>, i: nat, good: Snapshot)
    requires i < |conns| && conns[i].phase.RollingBack?
    ensures Sum(AllStale(conns[i := conns[i].(phase := Idle)], good)) ==
            Sum(AllStale(conns, good)) - if conns[i].phase.good != good then 1 else 0
  {
    var c' := conns[i].(phase := Idle);
    assert AllStale(conns[i := c'], good) == AllStale(conns, good)[i := Stale(c', good)];
    SumUpdate(AllStale(conns, good), i, Stale(c', good));
  }

  lemma RollbackBudget(conns: seq<Conn>, i: nat, good: Snapshot, writes: nat)
    requires Reads(conns) && i < |conns| && conns[i].phase.RollingBack?
    ensures Reads(conns[i := conns[i].(phase := Idle)])
    ensures Sum(AllBudgets(conns[i := conns[i].(phase := Idle)], good, true, writes + 1)) ==
            Sum(AllBudgets(conns, good, true, writes)) - 1
  {
    var c' := conns[i].(phase := Idle);
    assert Lagging(c', good) == Lagging(conns[i], good);
    var budget := Budget(c', good, true, writes + 1);
    assert AllBudgets(conns[i := c'], good, true, writes + 1) == AllBudgets(conns, good, true, writes)[i := budget];
    SumUpdate(AllBudgets(conns, good, true, writes), i, budget);
  }

  lemma RollbackBelow(p: Plane, i: nat)
    requires Reads(p.conns) && Enabled(p, Rollback(i))
    ensures Reads(Step(p, Rollback(i)).conns)
    ensures Below(MeasureOf(Step(p, Rollback(i))), MeasureOf(p))
  {
    hide Sum, AllStale, AllBudgets, AllChores;
    RollbackStale(p.conns, i, p.lastGood);
    RollbackBudget(p.conns, i, p.lastGood, p.writes);
  }

  /** Every step of a stream or a client decreases the measure, whatever the client rejects. */
  lemma InternalStepsRunDown(p: Plane, ev: Event)
    requires Inv(p) && Internal(ev) && Enabled(p, ev)
    ensures Reads(p.conns) && Reads(Step(p, ev).conns)
    ensures Step(p, ev).lastGood == p.lastGood
    ensures Below(MeasureOf(Step(p, ev)), MeasureOf(p))
  {
    ReadsAll(p);
    var i := ev.i;
    var c := p.conns[i];
    assert ConnInv(p.ip, p.issued, p.value, p.writes, c);
    match ev
    case Rollback(_) => RollbackBelow(p, i);
    case Serve(_) =>
      assert c.requests[0] in c.requests;
      ServeCheaper(c, p.value, p.lastGood, p.writes);
      OneCheaper(p, i, ServeConn(c, p.lastGood, p.value));
    case Wake(_) =>
      WakeCheaper(c, p.value, p.lastGood, p.writes);
      OneCheaper(p, i, WakeConn(c, p.value, p.writes));
    case Push(_, t) =>
      PushCheaper(c, t, p.lastGood, p.value == p.lastGood, p.writes);
      OneCheaper(p, i, PushConn(c, t));
    case Deliver(_, reply) =>
      assert IssuedResponse(p.ip, p.issued, c.session.log[c.delivered]);
      DeliverCheaper(c, reply, p.lastGood, p.value == p.lastGood, p.writes);
      OneCheaper(p, i, DeliverConn(c, reply));
  }

  // ----- no endless exchange -----

  ghost function StateAt(p: Plane, evs: nat -> Event, k: nat): Plane {
    if k == 0 then p else Step(StateAt(p, evs, k - 1), evs(k - 1))
  }

  lemma {:induction false} RunsOut(p: Plane, evs: nat -> Event, k: nat)
    requires Inv(StateAt(p, evs, k)) && Reads(StateAt(p, evs, k).conns)
    ensures exists n: nat :: !(Internal(evs(n)) && Enabled(StateAt(p, evs, n), evs(n)))
    decreases MeasureOf(StateAt(p, evs, k)).stale, MeasureOf(StateAt(p, evs, k)).unsettled,
              MeasureOf(StateAt(p, evs, k)).budget, MeasureOf(StateAt(p, evs, k)).chores
  {
    var q := StateAt(p, evs, k);
    if Internal(evs(k)) && Enabled(q, evs(k)) {
      InternalStepsRunDown(q, evs(k));
      InvStep(q, evs(k));
      assert StateAt(p, evs, k + 1) == Step(q, evs(k));
      RunsOut(p, evs, k + 1);
    }
  }

  /** From any reachable state no endless run is made of steps of streams and clients only. */
  lemma NoEndlessExchange(ip: string, before: seq<Event>, evs: nat -> Event)
    ensures var p := After(Start(ip), before);
            exists n: nat :: !(Internal(evs(n)) && Enabled(StateAt(p, evs, n), evs(n)))
  {
    var p := After(Start(ip), before);
    StartInv(ip);
    RunInv(Start(ip), before);
    ReadsAll(p);
    assert StateAt(p, evs, 0) == p;
    RunsOut(p, evs, 0);
  }

  // ----- healing -----

  predicate ConnAtRest(c: Conn, writes: nat) {
    c.phase.Idle? && c.requests == [] && c.seen == writes && c.delivered == |c.session.log|
  }

  ghost predicate AtRest(p: Plane) {
    forall i :: 0 <= i < |p.conns| ==> ConnAtRest(p.conns[i], p.writes)
  }

  lemma SomethingToDo(p: Plane, i: nat) returns (ev: Event)
    requires i < |p.conns| && ConnInv(p.ip, p.issued, p.value, p.writes, p.conns[i])
    requires !ConnAtRest(p.conns[i], p.writes)
    ensures Internal(ev) && Enabled(p, ev)
  {
    hide SessionInv, UpToDate, FreshFirst;
    var c := p.conns[i];
    match c.phase
    case Pushing(snap, todo) =>
      var t :| t in todo;
      ev := Push(i, t);
    case RollingBack(_) => ev := Rollback(i);
    case Idle =>
      ev := if c.requests != [] then Serve(i) else if c.seen < p.writes then Wake(i) else Deliver(i, Nack);
  }

  /** The exchange is over just when every stream is idle and has nothing to read. */
  lemma OverMeansAtRest(p: Plane)
    requires Inv(p)
    ensures AtRest(p) <==> forall ev :: Internal(ev) ==> !Enabled(p, ev)
  {
    hide ConnInv;
    if AtRest(p) {
      forall ev | Internal(ev) && ev.i < |p.conns| ensures ConnAtRest(p.conns[ev.i], p.writes) {}
    } else {
      var i :| 0 <= i < |p.conns| && !ConnAtRest(p.conns[i], p.writes);
      var ev := SomethingToDo(p, i);
    }
  }

  /** The state after the exchange, if stream `i` has a client that rejects broken Listeners. */
  lemma AtRestMeansHealed(p: Plane, i: nat)
    requires RejectInv(p) && AtRest(p)
    requires i < |p.conns| && p.conns[i].strict && T_LISTENER in p.conns[i].session.subscribed
    ensures !Broken(p.value) && GoodIssued(p.ip, p.issued, p.value)
    ensures forall j, t :: 0 <= j < |p.conns| && t in p.conns[j].session.subscribed && Known(t) ==>
              Lookup(p.conns[j].session.sentVersion, t) == Some(p.value.version)
  {
    forall j, t | 0 <= j < |p.conns| && t in p.conns[j].session.subscribed && Known(t)
      ensures Lookup(p.conns[j].session.sentVersion, t) == Some(p.value.version)
    {
      assert ConnInv(p.ip, p.issued, p.value, p.writes, p.conns[j]) && ConnAtRest(p.conns[j], p.writes);
    }
    assert WillReject(p.value, p.conns[i]) && ConnAtRest(p.conns[i], p.writes);
    assert !Evidence(p.conns[i]);
    BrokenByNumber(p, p.value);
  }

  /** In every run: when the exchange is over, and some stream that is subscribed to Listeners has a client
      that rejects the broken ones, the advertised snapshot is good, and every stream has sent every known
      type it is subscribed to at its version. */
  lemma HealedAtRest(ip: string, evs: seq<Event>, i: nat)
    requires var p := After(Start(ip), evs);
             && (forall ev :: Internal(ev) ==> !Enabled(p, ev))
             && i < |p.conns| && p.conns[i].strict && T_LISTENER in p.conns[i].session.subscribed
    ensures var p := After(Start(ip), evs);
            && AtRest(p) && !Broken(p.value) && GoodIssued(p.ip, p.issued, p.value)
            && forall j, t :: 0 <= j < |p.conns| && t in p.conns[j].session.subscribed && Known(t) ==>
                 Lookup(p.conns[j].session.sentVersion, t) == Some(p.value.version)
  {
    RejectRun(ip, evs);
    OverMeansAtRest(After(Start(ip), evs));
    AtRestMeansHealed(After(Start(ip), evs), i);
  }
}
