/** The exchange between a Delta stream and its client comes to an end, although every acknowledgement
    makes the server compare again and may draw another response. Where it ends the client holds what is
    advertised. */
module DeltaSettling {
  import opened Text
  import opened Maps
  import opened DeltaModel
  import opened DeltaDiff
  import opened DeltaLedger
  import opened DeltaReplica

  /** The steps of the stream and its client, replies included: all but a new publication, and a request
      that is no reply. */
  predicate Internal(ev: Event) {
    !ev.Publish? && !ev.Send?
  }

  predicate AtRest(s: System) {
    s.phase.Idle? && s.seen == s.writes && s.requests == [] && s.delivered == |s.stream.log|
  }

  // ----- the work left -----

  ghost function Unsynced(dialect: Dialect, known: set<string>, st: Stream, snap: Snapshot): set<string> {
    set t | t in known && !Synced(dialect, st, t, snap)
  }

  /** An acknowledgement costs its answer only if the type is out of sync; any other request may change the
      subscription. */
  function Effort(types: set<string>, req: Request): nat {
    if req.nack then 1
    else if req.subscribe == [] && req.unsubscribe == [] && req.initial == map[] && req.typeUrl in types then 1
    else 4
  }

  function Efforts(types: set<string>, requests: seq<Request>): nat {
    if requests == [] then 0 else Effort(types, requests[0]) + Efforts(types, requests[1..])
  }

  /** Pushing an outdated snapshot may bring types out of sync. */
  function Chores(phase: Phase, value: Snapshot): nat {
    match phase
    case Idle => 0
    case Pushing(snap, todo) => if snap == value then |todo| else 7 * |todo|
  }

  /** A bound on the steps left. A response that is unread may cost a reply, and a type that is out of sync
      a response and the reply to it. */
  ghost function Work(dialect: Dialect, s: System): nat
    requires s.delivered <= |s.stream.log|
  {
    3 * |Unsynced(dialect, s.known, s.stream, s.value)|
    + Chores(s.phase, s.value)
    + Efforts(s.stream.subs.Keys, s.requests)
    + 2 * (|s.stream.log| - s.delivered)
    + (if s.seen < s.writes then |s.known| + 1 else 0)
  }

  lemma {:induction false} EffortsAppend(types: set<string>, requests: seq<Request>, req: Request)
    ensures Efforts(types, requests + [req]) == Efforts(types, requests) + Effort(types, req)
  {
    if requests == [] {
      assert [] + [req] == [req] && [req][1..] == [];
    } else {
      assert (requests + [req])[1..] == requests[1..] + [req];
      EffortsAppend(types, requests[1..], req);
    }
  }

  lemma {:induction false} EffortsFall(types: set<string>, more: set<string>, requests: seq<Request>)
    requires types <= more
    ensures Efforts(more, requests) <= Efforts(types, requests)
  {
    if requests != [] {
      EffortsFall(types, more, requests[1..]);
    }
  }

  // ----- what a send does to it -----

  lemma SendSyncsOne(dialect: Dialect, known: set<string>, st: Stream, typeUrl: string, snap: Snapshot)
    ensures Unsynced(dialect, known, SendDelta(dialect, st, typeUrl, snap), snap) ==
            Unsynced(dialect, known, st, snap) - {typeUrl}
  {
    hide SendDelta, Synced;
    var st' := SendDelta(dialect, st, typeUrl, snap);
    SendSyncs(dialect, st, typeUrl, snap);
    forall t | t in known && t != typeUrl
      ensures Synced(dialect, st', t, snap) <==> Synced(dialect, st, t, snap)
    {
      SendKeepsOthers(dialect, st, typeUrl, snap, t);
      SyncedAlike(dialect, st, st', t, snap);
    }
  }

  lemma SyncedAlike(dialect: Dialect, a: Stream, b: Stream, typeUrl: string, snap: Snapshot)
    requires a.Sub(typeUrl) == b.Sub(typeUrl) && a.Sent(typeUrl) == b.Sent(typeUrl)
    ensures Synced(dialect, a, typeUrl, snap) <==> Synced(dialect, b, typeUrl, snap)
  {
    if Synced(dialect, a, typeUrl, snap) {
      SyncedFrame(dialect, a, b, typeUrl, snap);
    }
    if Synced(dialect, b, typeUrl, snap) {
      SyncedFrame(dialect, b, a, typeUrl, snap);
    }
  }

  /** A send of an outdated snapshot can bring its own type out of sync, and no other. */
  lemma SendUnsyncsOne(dialect: Dialect, known: set<string>, st: Stream, typeUrl: string, stale: Snapshot,
                       snap: Snapshot)
    ensures Unsynced(dialect, known, SendDelta(dialect, st, typeUrl, stale), snap) <=
            Unsynced(dialect, known, st, snap) + {typeUrl}
  {
    hide SendDelta, Synced;
    forall t | t in known && t != typeUrl
      ensures Synced(dialect, SendDelta(dialect, st, typeUrl, stale), t, snap) <==> Synced(dialect, st, t, snap)
    {
      SendKeepsOthers(dialect, st, typeUrl, stale, t);
      SyncedAlike(dialect, st, SendDelta(dialect, st, typeUrl, stale), t, snap);
    }
  }

  /** A request brings no type out of sync, since it is answered from the advertised snapshot. */
  lemma AnswerSyncs(dialect: Dialect, known: set<string>, st: Stream, req: Request, snap: Snapshot)
    requires !req.nack
    ensures Unsynced(dialect, known, HandleRequest(dialect, st, req, snap), snap) <=
            Unsynced(dialect, known, st, snap)
  {
    hide SendDelta, Synced, Resubscribed;
    var noted := Noted(st, req);
    SendSyncsOne(dialect, known, noted, req.typeUrl, snap);
    forall t | t in known && t != req.typeUrl
      ensures Synced(dialect, noted, t, snap) <==> Synced(dialect, st, t, snap)
    {
      SyncedAlike(dialect, st, noted, t, snap);
    }
  }

  /** A send of the advertised snapshot pays for its response with a type brought into sync. */
  lemma SendPays(dialect: Dialect, known: set<string>, st: Stream, typeUrl: string, snap: Snapshot)
    requires typeUrl in known && typeUrl in st.subs && typeUrl in st.sent
    ensures var st' := SendDelta(dialect, st, typeUrl, snap);
            3 * |Unsynced(dialect, known, st', snap)| + 2 * |st'.log| <=
            3 * |Unsynced(dialect, known, st, snap)| + 2 * |st.log|
  {
    var st' := SendDelta(dialect, st, typeUrl, snap);
    SendSyncsOne(dialect, known, st, typeUrl, snap);
    SyncedIsSilent(dialect, st, typeUrl, snap);
    assert |st'.log| <= |st.log| + 1;
    hide SendDelta, Synced;
    if !Synced(dialect, st, typeUrl, snap) {
      assert typeUrl in Unsynced(dialect, known, st, snap);
    }
  }

  // ----- every step leaves less of it -----

  lemma BareChangesNothing(st: Stream, req: Request)
    requires st.subs.Keys == st.sent.Keys && req.typeUrl in st.subs
    requires req.subscribe == [] && req.unsubscribe == [] && req.initial == map[]
    ensures Noted(st, req) == st
  {
    var t := req.typeUrl;
    assert Resubscribed(st, req) == st.subs[t] by {
      assert Elements(req.subscribe) == {} && Elements(req.unsubscribe) == {};
    }
    assert st.subs[t := st.subs[t]] == st.subs;
    assert st.sent[t] + req.initial == st.sent[t];
    assert st.sent[t := st.sent[t]] == st.sent;
  }

  lemma HasRead(dialect: Dialect, s: System)
    requires Inv(dialect, s)
    ensures s.delivered <= |s.stream.log|
  {
  }

  lemma WorkOfAnswer(dialect: Dialect, s: System)
    requires Inv(dialect, s) && Enabled(s, Answer)
    ensures s.delivered <= |Step(dialect, s, Answer).stream.log|
    ensures Work(dialect, Step(dialect, s, Answer)) < Work(dialect, s)
  {
    var s', req := Step(dialect, s, Answer), s.requests[0];
    var st, st', types := s.stream, s'.stream, s.stream.subs.Keys;
    LogOnlyGrows(dialect, s, Answer);
    HeadIsTruthful(s);
    LedgerRequest(dialect, s.start, st, req, s.value);
    EffortsFall(types, st'.subs.Keys, s'.requests);
    if !req.nack {
      if Effort(types, req) == 1 {
        BareChangesNothing(st, req);
        SendPays(dialect, s.known, st, req.typeUrl, s.value);
      } else {
        AnswerSyncs(dialect, s.known, st, req, s.value);
        SmallerSet(Unsynced(dialect, s.known, st', s.value), Unsynced(dialect, s.known, st, s.value));
      }
    }
  }

  lemma ChoresFall(snap: Snapshot, todo: set<string>, typeUrl: string, value: Snapshot)
    requires typeUrl in todo
    ensures Chores(Loop(snap, todo - {typeUrl}), value) + (if snap == value then 1 else 7) ==
            Chores(Pushing(snap, todo), value)
  {
    assert |todo - {typeUrl}| == |todo| - 1;
  }

  lemma PushIs(dialect: Dialect, s: System, typeUrl: string)
    requires Inv(dialect, s) && Enabled(s, Push(typeUrl))
    ensures s.phase.Pushing? && typeUrl in s.phase.todo && s.phase == Pushing(s.phase.snap, s.phase.todo)
    ensures Step(dialect, s, Push(typeUrl)) ==
            s.(stream := SendDelta(dialect, s.stream, typeUrl, s.phase.snap),
               phase := Loop(s.phase.snap, s.phase.todo - {typeUrl}))
    ensures typeUrl in s.stream.subs && typeUrl in s.stream.sent && typeUrl in s.known
  {
  }

  /** A push pays for its response with a type brought into sync, or with the weight of an outdated push. */
  lemma PushPays(dialect: Dialect, s: System, typeUrl: string)
    requires Inv(dialect, s) && Enabled(s, Push(typeUrl))
    ensures var st' := SendDelta(dialect, s.stream, typeUrl, s.phase.snap);
            && |s.stream.log| <= |st'.log|
            && 3 * |Unsynced(dialect, s.known, st', s.value)| + 2 * |st'.log| <
               3 * |Unsynced(dialect, s.known, s.stream, s.value)| + 2 * |s.stream.log| +
               (if s.phase.snap == s.value then 1 else 7)
  {
    PushIs(dialect, s, typeUrl);
    LogOnlyGrows(dialect, s, Push(typeUrl));
    hide Step, Enabled, Inv, Synced, Unsynced, SendDelta;
    if s.phase.snap == s.value {
      SendPays(dialect, s.known, s.stream, typeUrl, s.value);
    } else {
      var before := Unsynced(dialect, s.known, s.stream, s.value);
      SendUnsyncsOne(dialect, s.known, s.stream, typeUrl, s.phase.snap, s.value);
      SmallerSet(Unsynced(dialect, s.known, SendDelta(dialect, s.stream, typeUrl, s.phase.snap), s.value),
                 before + {typeUrl});
      assert |before + {typeUrl}| <= |before| + 1;
    }
  }

  lemma WorkOfPush(dialect: Dialect, s: System, typeUrl: string)
    requires Inv(dialect, s) && Enabled(s, Push(typeUrl))
    ensures s.delivered <= |Step(dialect, s, Push(typeUrl)).stream.log|
    ensures Work(dialect, Step(dialect, s, Push(typeUrl))) < Work(dialect, s)
  {
    HasRead(dialect, s);
    PushIs(dialect, s, typeUrl);
    PushPays(dialect, s, typeUrl);
    LedgerSend(dialect, s.start, s.stream, typeUrl, s.phase.snap);
    ChoresFall(s.phase.snap, s.phase.todo, typeUrl, s.value);
    hide Step, Enabled, Inv, Unsynced, SendDelta, Chores, Loop, Efforts;
  }

  lemma WorkOfWake(dialect: Dialect, s: System)
    requires Inv(dialect, s) && Enabled(s, Wake)
    ensures s.delivered <= |Step(dialect, s, Wake).stream.log|
    ensures Work(dialect, Step(dialect, s, Wake)) < Work(dialect, s)
  {
    SmallerSet(s.stream.subs.Keys, s.known);
  }

  /** What a reply adds to the work. */
  lemma ReplyEffort(dialect: Dialect, s: System, reply: Reply)
    requires Inv(dialect, s) && Enabled(s, Deliver(reply))
    ensures Efforts(s.stream.subs.Keys, s.requests + Replies(s.stream.log[s.delivered], reply)) <=
            Efforts(s.stream.subs.Keys, s.requests) + 1
  {
    var m := s.stream.log[s.delivered];
    assert InOrder(s.start, s.stream.subs.Keys, s.stream.log, s.delivered);
    hide Efforts, Inv, News;
    if reply.Silent? {
      assert s.requests + Replies(m, reply) == s.requests;
    } else {
      EffortsAppend(s.stream.subs.Keys, s.requests, Replies(m, reply)[0]);
    }
  }

  lemma WorkOfDeliver(dialect: Dialect, s: System, reply: Reply)
    requires Inv(dialect, s) && Enabled(s, Deliver(reply))
    ensures s.delivered + 1 <= |Step(dialect, s, Deliver(reply)).stream.log|
    ensures Work(dialect, Step(dialect, s, Deliver(reply))) < Work(dialect, s)
  {
    hide Inv, Unsynced, Efforts, Chores, Replies, Apply;
    ReplyEffort(dialect, s, reply);
  }

  /** From any state that a run can reach, every step of the stream or its client leaves less work, whatever
      the client replies. */
  lemma WorkDecreases(dialect: Dialect, s: System, ev: Event)
    requires Inv(dialect, s) && Internal(ev) && Enabled(s, ev)
    ensures Step(dialect, s, ev).delivered <= |Step(dialect, s, ev).stream.log|
    ensures Work(dialect, Step(dialect, s, ev)) < Work(dialect, s)
  {
    hide Step, Work;
    InvStep(dialect, s, ev);
    match ev
    case Answer => WorkOfAnswer(dialect, s);
    case Push(t) => WorkOfPush(dialect, s, t);
    case Wake => WorkOfWake(dialect, s);
    case Deliver(reply) => WorkOfDeliver(dialect, s, reply);
  }

  // ----- no endless exchange -----

  lemma {:induction false} RestIsStuck(dialect: Dialect, s: System)
    requires Inv(dialect, s)
    ensures AtRest(s) <==> forall ev :: Internal(ev) ==> !Enabled(s, ev)
  {
    if !AtRest(s) {
      if s.phase.Pushing? {
        var t :| t in s.phase.todo;
        assert Enabled(s, Push(t)) && Internal(Push(t));
      } else if s.requests != [] {
        assert Enabled(s, Answer) && Internal(Answer);
      } else if s.seen < s.writes {
        assert Enabled(s, Wake) && Internal(Wake);
      } else {
        assert Enabled(s, Deliver(Silent)) && Internal(Deliver(Silent));
      }
    }
  }

  ghost function StateAt(dialect: Dialect, s: System, evs: nat -> Event, k: nat): System {
    if k == 0 then s else Step(dialect, StateAt(dialect, s, evs, k - 1), evs(k - 1))
  }

  lemma {:induction false} RunsOut(dialect: Dialect, s: System, evs: nat -> Event, k: nat)
    requires Inv(dialect, StateAt(dialect, s, evs, k))
    ensures exists n: nat :: !(Internal(evs(n)) && Enabled(StateAt(dialect, s, evs, n), evs(n)))
    decreases Work(dialect, StateAt(dialect, s, evs, k))
  {
    hide Step, Enabled, Work;
    var q := StateAt(dialect, s, evs, k);
    if Internal(evs(k)) && Enabled(q, evs(k)) {
      WorkDecreases(dialect, q, evs(k));
      InvStep(dialect, q, evs(k));
      assert StateAt(dialect, s, evs, k + 1) == Step(dialect, q, evs(k));
      RunsOut(dialect, s, evs, k + 1);
    }
  }

  /** From any reachable state there is no endless run of steps of the stream and its client, whatever the
      client acknowledges, rejects or leaves without a reply. */
  lemma {:induction false} NoEndlessExchange(dialect: Dialect, value: Snapshot, writes: nat, start: map<string, Held>,
                                             before: seq<Event>, evs: nat -> Event)
    ensures var s := After(dialect, Open(value, writes, start), before);
            exists n: nat :: !(Internal(evs(n)) && Enabled(StateAt(dialect, s, evs, n), evs(n)))
  {
    OpenInv(dialect, value, writes, start);
    RunInv(dialect, Open(value, writes, start), before);
    var s := After(dialect, Open(value, writes, start), before);
    assert StateAt(dialect, s, evs, 0) == s;
    RunsOut(dialect, s, evs, 0);
  }

  // ----- every run can come to rest -----

  /** What the client replies to each response, by its place in the log. */
  type Policy = nat -> Reply

  ghost predicate Obeys(dialect: Dialect, policy: Policy, s: System, evs: seq<Event>) {
    forall i :: 0 <= i < |evs| ==>
      Internal(evs[i]) &&
      (evs[i].Deliver? ==> evs[i].reply == policy(After(dialect, s, evs[..i]).delivered))
  }

  lemma {:induction false} AfterSplit(dialect: Dialect, s: System, a: seq<Event>, b: seq<Event>)
    ensures After(dialect, s, a + b) == After(dialect, After(dialect, s, a), b)
  {
    hide Step;
    if b == [] {
      assert a + b == a;
    } else {
      AfterSplit(dialect, s, a, b[..|b| - 1]);
      assert (a + b)[..|a + b| - 1] == a + b[..|b| - 1];
    }
  }

  lemma OneMore(dialect: Dialect, policy: Policy, s: System, evs: seq<Event>, ev: Event)
    requires Obeys(dialect, policy, s, evs) && Internal(ev)
    requires ev.Deliver? ==> ev.reply == policy(After(dialect, s, evs).delivered)
    ensures Obeys(dialect, policy, s, evs + [ev])
    ensures After(dialect, s, evs + [ev]) == Step(dialect, After(dialect, s, evs), ev)
  {
    hide Step;
    assert (evs + [ev])[..|evs|] == evs;
    forall i | 0 <= i < |evs + [ev]| ensures (evs + [ev])[..i] == if i < |evs| then evs[..i] else evs {}
  }

  /** Some step is possible, with the reply that the client gives. */
  lemma SomeStep(dialect: Dialect, policy: Policy, s: System) returns (ev: Event)
    requires Inv(dialect, s) && !AtRest(s)
    ensures Internal(ev) && Enabled(s, ev) && (ev.Deliver? ==> ev.reply == policy(s.delivered))
  {
    RestIsStuck(dialect, s);
    ev :| Internal(ev) && Enabled(s, ev);
    if ev.Deliver? {
      ev := Deliver(policy(s.delivered));
    }
  }

  /** Without new publications and requests the system comes to rest, in at most `Work` steps, whatever the
      client replies. */
  lemma {:induction false} Settles(dialect: Dialect, policy: Policy, s: System) returns (evs: seq<Event>)
    requires Inv(dialect, s)
    ensures Obeys(dialect, policy, s, evs) && |evs| <= Work(dialect, s)
    ensures AtRest(After(dialect, s, evs))
  {
    hide Step, Enabled, Work, After, Inv, AtRest;
    evs := [];
    assert After(dialect, s, []) == s by {
      AfterNothing(dialect, s);
    }
    HasRead(dialect, s);
    while !AtRest(After(dialect, s, evs))
      invariant Inv(dialect, After(dialect, s, evs)) && Obeys(dialect, policy, s, evs)
      invariant After(dialect, s, evs).delivered <= |After(dialect, s, evs).stream.log|
      invariant |evs| + Work(dialect, After(dialect, s, evs)) <= Work(dialect, s)
      decreases Work(dialect, After(dialect, s, evs))
    {
      var now := After(dialect, s, evs);
      var ev := SomeStep(dialect, policy, now);
      WorkDecreases(dialect, now, ev);
      InvStep(dialect, now, ev);
      OneMore(dialect, policy, s, evs, ev);
      evs := evs + [ev];
    }
  }

  lemma AfterNothing(dialect: Dialect, s: System)
    ensures After(dialect, s, []) == s
  {
  }

  /** Every run can be continued to rest by steps of the stream and its client alone, whatever the client
      replies, and there the client has the advertised version of every name it subscribes to. */
  lemma {:induction false} RunsConverge(dialect: Dialect, policy: Policy, value: Snapshot, writes: nat,
                                        start: map<string, Held>, evs: seq<Event>)
    returns (more: seq<Event>)
    ensures Obeys(dialect, policy, After(dialect, Open(value, writes, start), evs), more)
    ensures var s := After(dialect, Open(value, writes, start), evs + more);
            && AtRest(s)
            && forall t, n :: t in s.stream.subs && Selected(dialect, s.stream.Sub(t), n) ==>
                 Lookup(Versions(HeldOf(s.held, t)), n) == Lookup(Versions(s.value.Of(t)), n)
  {
    OpenInv(dialect, value, writes, start);
    RunInv(dialect, Open(value, writes, start), evs);
    more := Settles(dialect, policy, After(dialect, Open(value, writes, start), evs));
    AfterSplit(dialect, Open(value, writes, start), evs, more);
    var s := After(dialect, Open(value, writes, start), evs + more);
    forall t, n | t in s.stream.subs && Selected(dialect, s.stream.Sub(t), n)
      ensures Lookup(Versions(HeldOf(s.held, t)), n) == Lookup(Versions(s.value.Of(t)), n)
    {
      ConvergedAtRest(dialect, value, writes, start, evs + more, t, n);
    }
  }
}
