/** One Delta stream with its client and the watch channel, as a system of atomic steps.

    Requests and responses travel through two first-in first-out queues; the responses in flight are
    the end of the stream's log. Any snapshot may be published between any two steps, also between
    two sends of the watch arm, so the other streams and the admin API are part of the environment. */
module DeltaReplica {
  import opened Text
  import opened Maps
  import opened Config
  import opened DeltaModel
  import opened DeltaDiff
  import opened DeltaLedger

  /** Where the stream loop is: waiting in `select!`, or in the loop of the watch arm. */
  datatype Phase = Idle | Pushing(snap: Snapshot, todo: set<string>)

  datatype System = System(
    value: Snapshot,                // the watch cell,
    writes: nat,                    // how often it was written,
    seen: nat,                      // and the write the stream has seen
    stream: Stream,
    phase: Phase,
    requests: seq<Request>,         // not yet read by the server
    delivered: nat,                 // how many responses the client has read
    known: set<string>,             // the types the client has asked for
    start: map<string, Held>,       // what the client held when the stream opened
    held: map<string, Held>)        // and holds now

  /** What the client returns for a response. */
  datatype Reply = Ack | Nack | Silent

  datatype Event =
    | Publish(snap: Snapshot) | Send(req: Request)
    | Answer | Wake | Push(typeUrl: string) | Deliver(reply: Reply)

  function Open(value: Snapshot, writes: nat, start: map<string, Held>): System {
    System(value, writes, writes, NEW_STREAM, Idle, [], 0, {}, start, start)
  }

  /** The client declares what it holds on its first request for a type, and only there. What a NACK
      declares does not matter. */
  predicate ClientMaySend(s: System, req: Request) {
    req.nack || req.initial == if req.typeUrl in s.known then map[] else Versions(HeldOf(s.held, req.typeUrl))
  }

  predicate Enabled(s: System, ev: Event) {
    match ev
    case Publish(_) => true
    case Send(req) => ClientMaySend(s, req)
    case Answer => s.phase.Idle? && s.requests != []
    case Wake => s.phase.Idle? && s.seen < s.writes
    case Push(t) => s.phase.Pushing? && t in s.phase.todo
    case Deliver(_) => s.delivered < |s.stream.log|
  }

  function Loop(snap: Snapshot, todo: set<string>): Phase {
    if todo == {} then Idle else Pushing(snap, todo)
  }

  function Replies(m: Delta, reply: Reply): seq<Request> {
    match reply
    case Silent => []
    case Ack => [Request(m.typeUrl, false, m.nonce, [], [], map[])]
    case Nack => [Request(m.typeUrl, true, m.nonce, [], [], map[])]
  }

  /** `held` is what the client has read, whatever it replied; `DeltaClients` has the client that keeps
      nothing of what it rejects. */
  function Step(dialect: Dialect, s: System, ev: Event): System {
    if !Enabled(s, ev) then s
    else match ev
      case Publish(snap) => s.(value := snap, writes := s.writes + 1)
      case Send(req) =>
        s.(requests := s.requests + [req], known := if req.nack then s.known else s.known + {req.typeUrl})
      case Answer =>
        s.(stream := HandleRequest(dialect, s.stream, s.requests[0], s.value), requests := s.requests[1..])
      case Wake => s.(seen := s.writes, phase := Loop(s.value, s.stream.subs.Keys))
      case Push(t) =>
        s.(stream := SendDelta(dialect, s.stream, t, s.phase.snap), phase := Loop(s.phase.snap, s.phase.todo - {t}))
      case Deliver(reply) =>
        var m := s.stream.log[s.delivered];
        s.(delivered := s.delivered + 1, held := s.held[m.typeUrl := Apply(HeldOf(s.held, m.typeUrl), m)],
           requests := s.requests + Replies(m, reply))
  }

  function After(dialect: Dialect, s: System, evs: seq<Event>): System {
    if evs == [] then s else Step(dialect, After(dialect, s, evs[..|evs| - 1]), evs[|evs| - 1])
  }

  // ----- what every step keeps -----

  /** The types that `requests` ask for. */
  function Asked(requests: seq<Request>): set<string> {
    set r | r in requests && !r.nack :: r.typeUrl
  }

  ghost predicate Declares(start: map<string, Held>, types: set<string>, requests: seq<Request>, i: nat)
    requires i < |requests|
  {
    var req := requests[i];
    req.nack ||
    req.initial == if req.typeUrl in types + Asked(requests[..i])
                   then map[] else Versions(HeldOf(start, req.typeUrl))
  }

  ghost predicate AllDeclare(start: map<string, Held>, types: set<string>, requests: seq<Request>) {
    forall i :: 0 <= i < |requests| ==> Declares(start, types, requests, i)
  }

  ghost predicate QueueInv(s: System) {
    && s.known == s.stream.subs.Keys + Asked(s.requests)
    && AllDeclare(s.start, s.stream.subs.Keys, s.requests)
    && (s.phase.Pushing? ==> s.phase.todo != {} && s.phase.todo <= s.stream.subs.Keys)
  }

  /** What the client holds is what the responses it has read amount to. */
  ghost predicate ClientInv(s: System) {
    && s.delivered <= |s.stream.log|
    && (forall t :: HeldOf(s.held, t) == Replay(HeldOf(s.start, t), s.stream.log[..s.delivered], t))
  }

  /** Whenever the stream has seen the last write, each type that is not still to be pushed is synced
      with the advertised snapshot. */
  ghost predicate WatchInv(dialect: Dialect, s: System) {
    && s.seen <= s.writes
    && (s.seen == s.writes ==>
          && (s.phase.Pushing? ==> s.phase.snap == s.value)
          && forall t :: t in s.stream.subs && (s.phase.Pushing? ==> t !in s.phase.todo) ==>
                           Synced(dialect, s.stream, t, s.value))
  }

  ghost predicate Inv(dialect: Dialect, s: System) {
    Ledger(s.start, s.stream) && QueueInv(s) && ClientInv(s) && WatchInv(dialect, s)
  }

  lemma OpenInv(dialect: Dialect, value: Snapshot, writes: nat, start: map<string, Held>)
    ensures Inv(dialect, Open(value, writes, start))
  {
  }

  lemma HeadIsTruthful(s: System)
    requires QueueInv(s) && s.requests != []
    ensures s.requests[0].nack || Truthful(s.start, s.stream, s.requests[0])
  {
    assert Declares(s.start, s.stream.subs.Keys, s.requests, 0);
  }

  lemma LedgerStep(dialect: Dialect, s: System, ev: Event)
    requires Ledger(s.start, s.stream) && QueueInv(s)
    ensures Ledger(s.start, Step(dialect, s, ev).stream)
  {
    if Enabled(s, ev) {
      match ev
      case Answer =>
        HeadIsTruthful(s);
        LedgerRequest(dialect, s.start, s.stream, s.requests[0], s.value);
      case Push(t) => LedgerSend(dialect, s.start, s.stream, t, s.phase.snap);
      case _ =>
    }
  }

  lemma UnopenedIsUntouched(dialect: Dialect, s: System, typeUrl: string)
    requires Inv(dialect, s) && typeUrl !in s.known
    ensures HeldOf(s.held, typeUrl) == HeldOf(s.start, typeUrl)
  {
    var log := s.stream.log[..s.delivered];
    forall i | 0 <= i < |log| ensures log[i].typeUrl != typeUrl {
      assert InOrder(s.start, s.stream.subs.Keys, s.stream.log, i);
    }
    ReplayOther(HeldOf(s.start, typeUrl), log, typeUrl);
  }

  lemma AskedSplit(a: seq<Request>, b: seq<Request>)
    ensures Asked(a + b) == Asked(a) + Asked(b)
  {
    forall t | t in Asked(a) + Asked(b) ensures t in Asked(a + b) {
      if t in Asked(a) {
        var r :| r in a && !r.nack && r.typeUrl == t;
        assert r in a + b;
      } else {
        var r :| r in b && !r.nack && r.typeUrl == t;
        assert r in a + b;
      }
    }
  }

  lemma QueueSend(dialect: Dialect, s: System, req: Request)
    requires Inv(dialect, s) && ClientMaySend(s, req)
    ensures QueueInv(Step(dialect, s, Send(req)))
  {
    var s' := Step(dialect, s, Send(req));
    AskedSplit(s.requests, [req]);
    if req.typeUrl !in s.known {
      UnopenedIsUntouched(dialect, s, req.typeUrl);
    }
    forall i | 0 <= i < |s'.requests| ensures Declares(s.start, s.stream.subs.Keys, s'.requests, i) {
      if i < |s.requests| {
        assert Declares(s.start, s.stream.subs.Keys, s.requests, i);
        assert s'.requests[..i] == s.requests[..i];
      } else {
        assert s'.requests[..i] == s.requests;
      }
    }
  }

  lemma HeadAnswered(start: map<string, Held>, types: set<string>, requests: seq<Request>)
    requires requests != [] && AllDeclare(start, types, requests)
    ensures AllDeclare(start, types + Asked([requests[0]]), requests[1..])
    ensures Asked(requests) == Asked([requests[0]]) + Asked(requests[1..])
  {
    var rest := requests[1..];
    assert requests == [requests[0]] + rest;
    AskedSplit([requests[0]], rest);
    forall i | 0 <= i < |rest| ensures Declares(start, types + Asked([requests[0]]), rest, i) {
      assert Declares(start, types, requests, i + 1);
      assert requests[..i + 1] == [requests[0]] + rest[..i];
      AskedSplit([requests[0]], rest[..i]);
    }
  }

  lemma QueueShift(s: System, st: Stream)
    requires QueueInv(s) && s.requests != [] && s.phase.Idle?
    requires st.subs.Keys == s.stream.subs.Keys + Asked([s.requests[0]])
    ensures QueueInv(s.(stream := st, requests := s.requests[1..]))
  {
    HeadAnswered(s.start, s.stream.subs.Keys, s.requests);
  }

  lemma AnsweredTypes(dialect: Dialect, start: map<string, Held>, st: Stream, req: Request, snap: Snapshot)
    requires Ledger(start, st) && (req.nack || Truthful(start, st, req))
    ensures HandleRequest(dialect, st, req, snap).subs.Keys == st.subs.Keys + Asked([req])
  {
    hide HandleRequest, SendDelta, Ledger;
    LedgerRequest(dialect, start, st, req, snap);
    assert req in [req];
    assert Asked([req]) == if req.nack then {} else {req.typeUrl};
  }

  lemma QueueAnswer(dialect: Dialect, s: System)
    requires Inv(dialect, s) && Enabled(s, Answer)
    ensures QueueInv(Step(dialect, s, Answer))
  {
    HeadIsTruthful(s);
    AnsweredTypes(dialect, s.start, s.stream, s.requests[0], s.value);
    QueueShift(s, HandleRequest(dialect, s.stream, s.requests[0], s.value));
  }

  /** A reply is a request for a known type that declares nothing. */
  lemma QueueDeliver(dialect: Dialect, s: System, reply: Reply)
    requires Inv(dialect, s) && Enabled(s, Deliver(reply))
    ensures QueueInv(Step(dialect, s, Deliver(reply)))
  {
    var m := s.stream.log[s.delivered];
    assert InOrder(s.start, s.stream.subs.Keys, s.stream.log, s.delivered);
    if reply.Silent? {
      assert s.requests + Replies(m, reply) == s.requests;
    } else {
      QueueSend(dialect, s, Replies(m, reply)[0]);
      assert s.known + {m.typeUrl} == s.known;
    }
  }

  lemma QueueOther(dialect: Dialect, s: System, ev: Event)
    requires Inv(dialect, s) && Enabled(s, ev) && !ev.Send? && !ev.Answer? && !ev.Deliver?
    ensures QueueInv(Step(dialect, s, ev))
  {
    if ev.Push? {
      LedgerSend(dialect, s.start, s.stream, ev.typeUrl, s.phase.snap);
    }
  }

  lemma QueueStep(dialect: Dialect, s: System, ev: Event)
    requires Inv(dialect, s)
    ensures QueueInv(Step(dialect, s, ev))
  {
    if Enabled(s, ev) {
      match ev
      case Send(req) => QueueSend(dialect, s, req);
      case Answer => QueueAnswer(dialect, s);
      case Deliver(reply) => QueueDeliver(dialect, s, reply);
      case _ => QueueOther(dialect, s, ev);
    }
  }

  lemma LogOnlyGrows(dialect: Dialect, s: System, ev: Event)
    ensures s.stream.log <= Step(dialect, s, ev).stream.log
    ensures |Step(dialect, s, ev).stream.log| <= |s.stream.log| + 1
  {
  }

  lemma ClientStep(dialect: Dialect, s: System, ev: Event)
    requires ClientInv(s)
    ensures ClientInv(Step(dialect, s, ev))
  {
    var s' := Step(dialect, s, ev);
    LogOnlyGrows(dialect, s, ev);
    if ev.Deliver? && Enabled(s, ev) {
      var m := s.stream.log[s.delivered];
      assert s'.stream.log[..s'.delivered] == s.stream.log[..s.delivered] + [m];
      forall t ensures HeldOf(s'.held, t) == Replay(HeldOf(s'.start, t), s'.stream.log[..s'.delivered], t) {
        ReplayPush(HeldOf(s.start, t), s.stream.log[..s.delivered], m, t);
        assert HeldOf(s.held, t) == Replay(HeldOf(s.start, t), s.stream.log[..s.delivered], t);
      }
    } else {
      assert s'.stream.log[..s'.delivered] == s.stream.log[..s.delivered];
      forall t ensures HeldOf(s'.held, t) == Replay(HeldOf(s'.start, t), s'.stream.log[..s'.delivered], t) {
        assert HeldOf(s.held, t) == Replay(HeldOf(s.start, t), s.stream.log[..s.delivered], t);
      }
    }
  }

  lemma OneSendKeepsSynced(dialect: Dialect, st: Stream, typeUrl: string, snap: Snapshot, t: string)
    requires t != typeUrl ==> Synced(dialect, st, t, snap)
    ensures Synced(dialect, SendDelta(dialect, st, typeUrl, snap), t, snap)
  {
    if t == typeUrl {
      SendSyncs(dialect, st, t, snap);
    } else {
      SyncedFrame(dialect, st, SendDelta(dialect, st, typeUrl, snap), t, snap);
    }
  }

  lemma WatchAnswer(dialect: Dialect, s: System)
    requires Inv(dialect, s) && Enabled(s, Answer)
    ensures WatchInv(dialect, Step(dialect, s, Answer))
  {
    var s' := Step(dialect, s, Answer);
    var req := s.requests[0];
    if s.seen == s.writes && !req.nack {
      var noted := Noted(s.stream, req);
      forall t | t in s'.stream.subs ensures Synced(dialect, s'.stream, t, s.value) {
        if t != req.typeUrl {
          assert t in s.stream.subs;
          SyncedFrame(dialect, s.stream, noted, t, s.value);
        }
        OneSendKeepsSynced(dialect, noted, req.typeUrl, s.value, t);
      }
    }
  }

  lemma WatchPush(dialect: Dialect, s: System, typeUrl: string)
    requires Inv(dialect, s) && Enabled(s, Push(typeUrl))
    ensures WatchInv(dialect, Step(dialect, s, Push(typeUrl)))
  {
    var s' := Step(dialect, s, Push(typeUrl));
    LedgerSend(dialect, s.start, s.stream, typeUrl, s.phase.snap);
    if s.seen == s.writes {
      forall t | t in s'.stream.subs && (s'.phase.Pushing? ==> t !in s'.phase.todo)
        ensures Synced(dialect, s'.stream, t, s.value)
      {
        assert s'.phase == Loop(s.phase.snap, s.phase.todo - {typeUrl}) && t !in s.phase.todo - {typeUrl};
        OneSendKeepsSynced(dialect, s.stream, typeUrl, s.value, t);
      }
    }
  }

  lemma WatchStep(dialect: Dialect, s: System, ev: Event)
    requires Inv(dialect, s)
    ensures WatchInv(dialect, Step(dialect, s, ev))
  {
    if Enabled(s, ev) {
      match ev
      case Answer => WatchAnswer(dialect, s);
      case Push(t) => WatchPush(dialect, s, t);
      case _ =>
    }
  }

  lemma InvStep(dialect: Dialect, s: System, ev: Event)
    requires Inv(dialect, s)
    ensures Inv(dialect, Step(dialect, s, ev))
  {
    LedgerStep(dialect, s, ev);
    QueueStep(dialect, s, ev);
    ClientStep(dialect, s, ev);
    WatchStep(dialect, s, ev);
    StartIsFixed(dialect, s, ev);
  }

  lemma {:induction false} RunInv(dialect: Dialect, s: System, evs: seq<Event>)
    requires Inv(dialect, s)
    ensures Inv(dialect, After(dialect, s, evs))
  {
    if evs != [] {
      RunInv(dialect, s, evs[..|evs| - 1]);
      InvStep(dialect, After(dialect, s, evs[..|evs| - 1]), evs[|evs| - 1]);
    }
  }

  lemma StartIsFixed(dialect: Dialect, s: System, ev: Event)
    ensures Step(dialect, s, ev).start == s.start
  {
  }

  // ----- the theorems -----

  /** The responses on their way to the client. */
  function InFlight(s: System): seq<Delta>
    requires s.delivered <= |s.stream.log|
  {
    s.stream.log[s.delivered..]
  }

  lemma DrainedIsReplay(dialect: Dialect, s: System, typeUrl: string)
    requires Inv(dialect, s)
    ensures Replay(HeldOf(s.held, typeUrl), InFlight(s), typeUrl) ==
            Replay(HeldOf(s.start, typeUrl), s.stream.log, typeUrl)
  {
    ReplaySplit(HeldOf(s.start, typeUrl), s.stream.log[..s.delivered], InFlight(s), typeUrl);
    assert s.stream.log == s.stream.log[..s.delivered] + InFlight(s);
  }

  /** In every run, for every type subscribed to: the replica of the client, once it has read what is
      in flight, is what the server has recorded, names and versions. */
  lemma ReplicaIsSent(dialect: Dialect, value: Snapshot, writes: nat, start: map<string, Held>, evs: seq<Event>,
                      typeUrl: string)
    requires typeUrl in After(dialect, Open(value, writes, start), evs).stream.subs
    ensures var s := After(dialect, Open(value, writes, start), evs);
            && s.delivered <= |s.stream.log| && typeUrl in s.stream.sent
            && Versions(Replay(HeldOf(s.held, typeUrl), InFlight(s), typeUrl)) == s.stream.sent[typeUrl]
  {
    OpenInv(dialect, value, writes, start);
    RunInv(dialect, Open(value, writes, start), evs);
    DrainedIsReplay(dialect, After(dialect, Open(value, writes, start), evs), typeUrl);
  }

  /** In every run, once the stream has seen the last change and a type is not still to be pushed, the
      replica of the client, when it has read what is in flight, has the advertised version of every name
      it subscribes to, and lacks the names that the snapshot lacks. */
  lemma ConvergedInFlight(dialect: Dialect, value: Snapshot, writes: nat, start: map<string, Held>, evs: seq<Event>,
                          typeUrl: string, name: string)
    requires var s := After(dialect, Open(value, writes, start), evs);
             && s.seen == s.writes && (s.phase.Pushing? ==> typeUrl !in s.phase.todo)
             && typeUrl in s.stream.subs && Selected(dialect, s.stream.Sub(typeUrl), name)
    ensures var s := After(dialect, Open(value, writes, start), evs);
            && s.delivered <= |s.stream.log|
            && Lookup(Versions(Replay(HeldOf(s.held, typeUrl), InFlight(s), typeUrl)), name) ==
               Lookup(Versions(s.value.Of(typeUrl)), name)
  {
    var s := After(dialect, Open(value, writes, start), evs);
    ReplicaIsSent(dialect, value, writes, start, evs, typeUrl);
    OpenInv(dialect, value, writes, start);
    RunInv(dialect, Open(value, writes, start), evs);
    MatchesIsSelected(dialect, s.stream.Sub(typeUrl), name);
    assert Synced(dialect, s.stream, typeUrl, s.value);
    assert Agrees(s.stream.Sent(typeUrl), s.value.Of(typeUrl), name);
  }

  /** So when the queue of responses is empty as well, the client itself agrees with the snapshot. */
  lemma ConvergedAtRest(dialect: Dialect, value: Snapshot, writes: nat, start: map<string, Held>, evs: seq<Event>,
                        typeUrl: string, name: string)
    requires var s := After(dialect, Open(value, writes, start), evs);
             && s.phase.Idle? && s.seen == s.writes && s.delivered == |s.stream.log|
             && typeUrl in s.stream.subs && Selected(dialect, s.stream.Sub(typeUrl), name)
    ensures var s := After(dialect, Open(value, writes, start), evs);
            Lookup(Versions(HeldOf(s.held, typeUrl)), name) == Lookup(Versions(s.value.Of(typeUrl)), name)
  {
    ConvergedInFlight(dialect, value, writes, start, evs, typeUrl, name);
    assert InFlight(After(dialect, Open(value, writes, start), evs)) == [];
  }

  /** In every run all the nonces of a stream differ, and two sends of the same version of a resource are
      separated by a removal of it or a send of it at another version. */
  lemma TraceDiscipline(dialect: Dialect, value: Snapshot, writes: nat, start: map<string, Held>,
                        evs: seq<Event>, i: nat, j: nat, name: string)
    requires i < j < |After(dialect, Open(value, writes, start), evs).stream.log|
    ensures var log := After(dialect, Open(value, writes, start), evs).stream.log;
            && log[i].nonce != log[j].nonce
            && (name in log[j].resources && Sends(log[i], log[j].typeUrl, name, log[j].resources[name].version) ==>
                  exists k :: i < k < j && Contradicts(log[k], log[j].typeUrl, name, log[j].resources[name].version))
  {
    OpenInv(dialect, value, writes, start);
    RunInv(dialect, Open(value, writes, start), evs);
    StartStays(dialect, Open(value, writes, start), evs);
    var st := After(dialect, Open(value, writes, start), evs).stream;
    NoncesDiffer(start, st, i, j);
    if name in st.log[j].resources && Sends(st.log[i], st.log[j].typeUrl, name, st.log[j].resources[name].version) {
      ResendsAreSeparated(start, st, i, j, name);
    }
  }

  /** In every run the responses are numbered from 1, and each nonce says the type and the number. */
  lemma NoncesNameTypes(dialect: Dialect, value: Snapshot, writes: nat, start: map<string, Held>, evs: seq<Event>,
                        i: nat)
    requires i < |After(dialect, Open(value, writes, start), evs).stream.log|
    ensures var m := After(dialect, Open(value, writes, start), evs).stream.log[i];
            && |m.nonce| > 4 && ParseDecimal(m.nonce[4..]) == i + 1 && m.nonce[4..] == Decimal(i + 1)
            && (m.typeUrl == T_LISTENER ==> m.nonce[..4] == "lds-")
            && (m.typeUrl == T_ROUTE ==> m.nonce[..4] == "rds-")
            && (m.typeUrl == T_CLUSTER ==> m.nonce[..4] == "cds-")
            && (m.typeUrl == T_ENDPOINT ==> m.nonce[..4] == "eds-")
  {
    OpenInv(dialect, value, writes, start);
    RunInv(dialect, Open(value, writes, start), evs);
    hide After, News, ShortType, Lowercase, Decimal, ParseDecimal;
    var st := After(dialect, Open(value, writes, start), evs).stream;
    assert InOrder(After(dialect, Open(value, writes, start), evs).start, st.subs.Keys, st.log, i);
    NonceParts(st.log[i].typeUrl, i + 1);
    DecimalRoundTrip(i + 1);
  }

  /** The two parts of a nonce. */
  lemma NonceParts(typeUrl: string, counter: nat)
    ensures var nonce := Nonce(typeUrl, counter);
            && |nonce| > 4 && nonce[4..] == Decimal(counter)
            && (typeUrl == T_LISTENER ==> nonce[..4] == "lds-")
            && (typeUrl == T_ROUTE ==> nonce[..4] == "rds-")
            && (typeUrl == T_CLUSTER ==> nonce[..4] == "cds-")
            && (typeUrl == T_ENDPOINT ==> nonce[..4] == "eds-")
  {
    ShortLength(typeUrl);
    DecimalNotEmpty(counter);
    ListenerShort();
    RouteShort();
    ClusterShort();
    EndpointShort();
    hide ShortType, Lowercase, Decimal;
    var short := Lowercase(ShortType(typeUrl));
    assert Nonce(typeUrl, counter) == short + "-" + Decimal(counter);
    assert Nonce(typeUrl, counter)[..4] == short + "-";
  }

  lemma DecimalNotEmpty(n: nat)
    ensures |Decimal(n)| > 0
  {
  }

  lemma {:induction false} StartStays(dialect: Dialect, s: System, evs: seq<Event>)
    ensures After(dialect, s, evs).start == s.start
  {
    if evs != [] {
      StartStays(dialect, s, evs[..|evs| - 1]);
      StartIsFixed(dialect, After(dialect, s, evs[..|evs| - 1]), evs[|evs| - 1]);
    }
  }
}
