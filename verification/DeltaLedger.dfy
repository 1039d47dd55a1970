/** The replica of a client, and the ledger the server keeps of it: `sent` is what the client holds
    once it has applied every response of the log. */
module DeltaLedger {
  import opened Text
  import opened Maps
  import opened DeltaModel
  import opened DeltaDiff

  /** What a client holds of one type, by name. */
  type Held = map<string, Entry>

  /** The client takes in one response: it keeps a resource until it is named as removed. */
  function Apply(held: Held, m: Delta): Held {
    (held + m.resources) - m.removed
  }

  /** The responses of one type, applied in order. */
  function Replay(held: Held, log: seq<Delta>, typeUrl: string): Held {
    if log == [] then held
    else
      var before := Replay(held, log[..|log| - 1], typeUrl);
      var m := log[|log| - 1];
      if m.typeUrl == typeUrl then Apply(before, m) else before
  }

  function HeldOf(holdings: map<string, Held>, typeUrl: string): Held {
    if typeUrl in holdings then holdings[typeUrl] else map[]
  }

  lemma {:induction false} ReplaySplit(held: Held, a: seq<Delta>, b: seq<Delta>, typeUrl: string)
    ensures Replay(held, a + b, typeUrl) == Replay(Replay(held, a, typeUrl), b, typeUrl)
  {
    if b == [] {
      assert a + b == a;
    } else {
      ReplaySplit(held, a, b[..|b| - 1], typeUrl);
      assert (a + b)[..|a + b| - 1] == a + b[..|b| - 1];
    }
  }

  lemma {:induction false} ReplayOther(held: Held, log: seq<Delta>, typeUrl: string)
    requires forall i :: 0 <= i < |log| ==> log[i].typeUrl != typeUrl
    ensures Replay(held, log, typeUrl) == held
  {
    if log != [] {
      ReplayOther(held, log[..|log| - 1], typeUrl);
    }
  }

  lemma ApplyVersions(held: Held, m: Delta)
    ensures Versions(Apply(held, m)) == Retold(Versions(held), m.resources, m.removed)
  {
  }

  // ----- the ledger -----

  /** Nothing in the response repeats what a client that has applied the log before it holds, or removes
      what that client lacks. */
  ghost predicate News(start: map<string, Held>, log: seq<Delta>, i: nat)
    requires i < |log|
  {
    var before := Versions(Replay(HeldOf(start, log[i].typeUrl), log[..i], log[i].typeUrl));
    && (forall n :: n in log[i].resources ==> Lookup(before, n) != Some(log[i].resources[n].version))
    && (forall n :: n in log[i].removed ==> n in before)
  }

  ghost predicate SentIsReplay(start: map<string, Held>, sent: map<string, map<string, string>>, log: seq<Delta>) {
    forall t :: t in sent ==> sent[t] == Versions(Replay(HeldOf(start, t), log, t))
  }

  ghost predicate InOrder(start: map<string, Held>, types: set<string>, log: seq<Delta>, i: nat)
    requires i < |log|
  {
    && log[i].typeUrl in types
    && log[i].resources.Keys !! log[i].removed
    && log[i].nonce == Nonce(log[i].typeUrl, i + 1)
    && News(start, log, i)
  }

  ghost predicate LogInOrder(start: map<string, Held>, types: set<string>, log: seq<Delta>) {
    forall i :: 0 <= i < |log| ==> InOrder(start, types, log, i)
  }

  /** The books of a stream whose client held `start` when it opened the stream. */
  ghost predicate Ledger(start: map<string, Held>, st: Stream) {
    && st.subs.Keys == st.sent.Keys
    && SentIsReplay(start, st.sent, st.log)
    && st.nonceCtr == |st.log|
    && LogInOrder(start, st.subs.Keys, st.log)
  }

  /** A type's first request declares what the client holds; later ones declare nothing. */
  ghost predicate Truthful(start: map<string, Held>, st: Stream, req: Request) {
    req.initial == if req.typeUrl in st.subs then map[] else Versions(HeldOf(start, req.typeUrl))
  }

  lemma ReplayPush(held: Held, log: seq<Delta>, m: Delta, typeUrl: string)
    ensures Replay(held, log + [m], typeUrl) ==
            if m.typeUrl == typeUrl then Apply(Replay(held, log, typeUrl), m) else Replay(held, log, typeUrl)
  {
    assert (log + [m])[..|log|] == log;
  }

  lemma SentGrows(start: map<string, Held>, sent: map<string, map<string, string>>, log: seq<Delta>, m: Delta)
    requires SentIsReplay(start, sent, log) && m.typeUrl in sent
    ensures SentIsReplay(start, sent[m.typeUrl := Retold(sent[m.typeUrl], m.resources, m.removed)], log + [m])
  {
    var sent' := sent[m.typeUrl := Retold(sent[m.typeUrl], m.resources, m.removed)];
    forall t | t in sent' ensures sent'[t] == Versions(Replay(HeldOf(start, t), log + [m], t)) {
      ReplayPush(HeldOf(start, t), log, m, t);
      ApplyVersions(Replay(HeldOf(start, t), log, t), m);
    }
  }

  lemma LogGrows(start: map<string, Held>, types: set<string>, log: seq<Delta>, m: Delta)
    requires LogInOrder(start, types, log)
    requires InOrder(start, types, log + [m], |log|)
    ensures LogInOrder(start, types, log + [m])
  {
    forall i | 0 <= i < |log + [m]| ensures InOrder(start, types, log + [m], i) {
      if i < |log| {
        assert InOrder(start, types, log, i);
        assert (log + [m])[..i] == log[..i];
      }
    }
  }

  /** A send is in order: it tells the client what its replica lacks. */
  lemma SendIsNews(dialect: Dialect, start: map<string, Held>, st: Stream, typeUrl: string, snap: Snapshot, m: Delta)
    requires Ledger(start, st) && typeUrl in st.subs
    requires m == Due(dialect, st.Sub(typeUrl), st.Sent(typeUrl), typeUrl, snap, st.nonceCtr + 1)
    ensures InOrder(start, st.subs.Keys, st.log + [m], |st.log|)
  {
    assert (st.log + [m])[..|st.log|] == st.log;
    assert st.Sent(typeUrl) == Versions(Replay(HeldOf(start, typeUrl), st.log, typeUrl));
  }

  lemma LedgerGrows(start: map<string, Held>, st: Stream, m: Delta)
    requires Ledger(start, st) && InOrder(start, st.subs.Keys, st.log + [m], |st.log|)
    ensures Ledger(start, Stream(st.subs, st.sent[m.typeUrl := Retold(st.Sent(m.typeUrl), m.resources, m.removed)],
                                 st.nonceCtr + 1, st.log + [m]))
  {
    SentGrows(start, st.sent, st.log, m);
    LogGrows(start, st.subs.Keys, st.log, m);
  }

  lemma LedgerSend(dialect: Dialect, start: map<string, Held>, st: Stream, typeUrl: string, snap: Snapshot)
    requires Ledger(start, st) && typeUrl in st.subs
    ensures Ledger(start, SendDelta(dialect, st, typeUrl, snap))
    ensures SendDelta(dialect, st, typeUrl, snap).subs == st.subs
  {
    assert st.subs[typeUrl := st.Sub(typeUrl)] == st.subs;
    assert st.sent[typeUrl := st.Sent(typeUrl)] == st.sent;
    var m := Due(dialect, st.Sub(typeUrl), st.Sent(typeUrl), typeUrl, snap, st.nonceCtr + 1);
    SendIsNews(dialect, start, st, typeUrl, snap, m);
    LedgerGrows(start, st, m);
  }

  lemma {:induction false} LedgerTurn(dialect: Dialect, start: map<string, Held>, st: Stream, order: seq<string>,
                                      snap: Snapshot)
    requires Ledger(start, st) && Elements(order) <= st.subs.Keys
    ensures Ledger(start, SendAll(dialect, st, order, snap))
    ensures SendAll(dialect, st, order, snap).subs == st.subs
  {
    if order != [] {
      hide SendDelta, Ledger;
      var before, t := order[..|order| - 1], order[|order| - 1];
      assert before + [t] == order;
      ElementsAppend(before, t);
      LedgerTurn(dialect, start, st, before, snap);
      LedgerSend(dialect, start, SendAll(dialect, st, before, snap), t, snap);
    }
  }

  lemma {:induction false} LedgerTurns(dialect: Dialect, start: map<string, Held>, st: Stream, turns: seq<Turn>)
    requires Ledger(start, st) && AllVisit(st.subs.Keys, turns)
    ensures Ledger(start, SendTurns(dialect, st, turns))
    ensures SendTurns(dialect, st, turns).subs == st.subs
  {
    if turns != [] {
      var before, turn := turns[..|turns| - 1], turns[|turns| - 1];
      LedgerTurns(dialect, start, st, before);
      LedgerTurn(dialect, start, SendTurns(dialect, st, before), turn.order, turn.snap);
    }
  }

  /** Skipping snapshots is invisible to the client as well: once drained, its replica of each type it
      subscribes to is the same. `DeltaBodies.CoalescedBodies` adds the bodies. */
  lemma {:induction false} CoalescedReplica(dialect: Dialect, start: map<string, Held>, st: Stream, turns: seq<Turn>,
                                            last: Turn, order: seq<string>, typeUrl: string)
    requires Ledger(start, st) && AllVisit(st.subs.Keys, turns)
    requires Elements(last.order) == Elements(order) == st.subs.Keys
    requires typeUrl in st.subs
    ensures Versions(Replay(HeldOf(start, typeUrl), SendTurns(dialect, st, turns + [last]).log, typeUrl)) ==
            Versions(Replay(HeldOf(start, typeUrl), SendAll(dialect, st, order, last.snap).log, typeUrl))
  {
    LedgerTurns(dialect, start, st, turns + [last]);
    LedgerTurn(dialect, start, st, order, last.snap);
    CoalescingLosesNothing(dialect, st, turns, last, order);
  }

  lemma LedgerRequest(dialect: Dialect, start: map<string, Held>, st: Stream, req: Request, snap: Snapshot)
    requires Ledger(start, st)
    requires req.nack || Truthful(start, st, req)
    ensures Ledger(start, HandleRequest(dialect, st, req, snap))
    ensures HandleRequest(dialect, st, req, snap).subs ==
            if req.nack then st.subs else st.subs[req.typeUrl := Resubscribed(st, req)]
  {
    hide SendDelta, Resubscribed, Replay;
    if !req.nack {
      var noted := Noted(st, req);
      var t := req.typeUrl;
      if t in st.subs {
        assert st.Sent(t) + req.initial == st.sent[t];
      } else {
        assert st.Sent(t) + req.initial == req.initial;
        forall i | 0 <= i < |st.log| ensures st.log[i].typeUrl != t {
          assert InOrder(start, st.subs.Keys, st.log, i);
        }
        ReplayOther(HeldOf(start, t), st.log, t);
      }
      forall i | 0 <= i < |noted.log| ensures InOrder(start, noted.subs.Keys, noted.log, i) {
        assert InOrder(start, st.subs.Keys, st.log, i);
      }
      LedgerSend(dialect, start, noted, t, snap);
    }
  }

  /** A declaration on a later request is merged as well. The books survive it just when it repeats
      what they say already. */
  lemma LateDeclaration(start: map<string, Held>, st: Stream, req: Request)
    requires Ledger(start, st) && req.typeUrl in st.subs
    ensures SentIsReplay(start, Noted(st, req).sent, st.log) <==>
            forall n :: n in req.initial ==> Lookup(st.Sent(req.typeUrl), n) == Some(req.initial[n])
  {
    var t := req.typeUrl;
    var sent := Noted(st, req).sent;
    if forall n :: n in req.initial ==> Lookup(st.Sent(t), n) == Some(req.initial[n]) {
      forall n | n in req.initial ensures n in st.sent[t] && st.sent[t][n] == req.initial[n] {
        assert Lookup(st.Sent(t), n) == Some(req.initial[n]);
      }
      assert sent[t] == st.sent[t];
    }
    if SentIsReplay(start, sent, st.log) {
      assert sent[t] == st.sent[t];
      forall n | n in req.initial ensures Lookup(st.Sent(t), n) == Some(req.initial[n]) {
        assert sent[t][n] == req.initial[n];
      }
    }
  }

  // ----- the log of a stream -----

  /** Every nonce of the log is used once. */
  lemma NoncesDiffer(start: map<string, Held>, st: Stream, i: nat, j: nat)
    requires Ledger(start, st) && i < j < |st.log|
    ensures st.log[i].nonce != st.log[j].nonce
  {
    hide News, SentIsReplay, Decimal, ParseDecimal, Config.ShortType, Config.Lowercase;
    assert InOrder(start, st.subs.Keys, st.log, i) && InOrder(start, st.subs.Keys, st.log, j);
    DecimalRoundTrip(i + 1);
    DecimalRoundTrip(j + 1);
    ShortLength(st.log[i].typeUrl);
    ShortLength(st.log[j].typeUrl);
    assert Nonce(st.log[i].typeUrl, i + 1)[4..] == Decimal(i + 1);
    assert Nonce(st.log[j].typeUrl, j + 1)[4..] == Decimal(j + 1);
  }

  lemma ShortLength(typeUrl: string)
    ensures |Config.Lowercase(Config.ShortType(typeUrl))| == 3
  {
  }

  /** The response tells the client something else about `name` than that it is at `version`. */
  ghost predicate Contradicts(m: Delta, typeUrl: string, name: string, version: string) {
    m.typeUrl == typeUrl &&
    (name in m.removed || (name in m.resources && m.resources[name].version != version))
  }

  ghost predicate Sends(m: Delta, typeUrl: string, name: string, version: string) {
    m.typeUrl == typeUrl && name in m.resources && m.resources[name].version == version
  }

  lemma {:induction false} HeldUntilContradicted(held: Held, log: seq<Delta>, i: nat, typeUrl: string,
                  name: string, version: string)
    requires i < |log| && Sends(log[i], typeUrl, name, version) && name !in log[i].removed
    requires forall k :: i < k < |log| ==> !Contradicts(log[k], typeUrl, name, version)
    ensures Lookup(Versions(Replay(held, log, typeUrl)), name) == Some(version)
  {
    if i < |log| - 1 {
      HeldUntilContradicted(held, log[..|log| - 1], i, typeUrl, name, version);
      assert !Contradicts(log[|log| - 1], typeUrl, name, version);
    }
  }

  /** Between two sends of the same version of a resource there is a removal of it, or a send of it
      at another version. */
  lemma ResendsAreSeparated(start: map<string, Held>, st: Stream, i: nat, j: nat, name: string)
    requires Ledger(start, st) && i < j < |st.log|
    requires name in st.log[j].resources
    requires Sends(st.log[i], st.log[j].typeUrl, name, st.log[j].resources[name].version)
    ensures exists k :: i < k < j && Contradicts(st.log[k], st.log[j].typeUrl, name, st.log[j].resources[name].version)
  {
    var t, version := st.log[j].typeUrl, st.log[j].resources[name].version;
    assert InOrder(start, st.subs.Keys, st.log, i) && InOrder(start, st.subs.Keys, st.log, j);
    if forall k :: i < k < j ==> !Contradicts(st.log[k], t, name, version) {
      HeldUntilContradicted(HeldOf(start, t), st.log[..j], i, t, name, version);
    }
  }

  // ----- reconnecting -----

  /** The server's side of a stream: a request answered, or one type's turn in the watch arm. */
  datatype Exchange = Ask(req: Request, snap: Snapshot) | Notice(typeUrl: string, snap: Snapshot)

  function Serve(dialect: Dialect, st: Stream, x: Exchange): Stream {
    match x
    case Ask(req, snap) => HandleRequest(dialect, st, req, snap)
    case Notice(typeUrl, snap) => SendDelta(dialect, st, typeUrl, snap)
  }

  function ServeAll(dialect: Dialect, xs: seq<Exchange>): Stream {
    if xs == [] then NEW_STREAM else Serve(dialect, ServeAll(dialect, xs[..|xs| - 1]), xs[|xs| - 1])
  }

  /** The exchange `x` is possible in the state `st` with a client that held `start`. */
  ghost predicate Proper(start: map<string, Held>, st: Stream, x: Exchange) {
    match x
    case Ask(req, snap) => req.nack || Truthful(start, st, req)
    case Notice(typeUrl, snap) => typeUrl in st.subs
  }

  ghost predicate ProperAll(dialect: Dialect, start: map<string, Held>, xs: seq<Exchange>) {
    forall i :: 0 <= i < |xs| ==> Proper(start, ServeAll(dialect, xs[..i]), xs[i])
  }

  lemma {:induction false} LedgerHolds(dialect: Dialect, start: map<string, Held>, xs: seq<Exchange>)
    requires ProperAll(dialect, start, xs)
    ensures Ledger(start, ServeAll(dialect, xs))
  {
    if xs != [] {
      var before := xs[..|xs| - 1];
      forall i | 0 <= i < |before| ensures Proper(start, ServeAll(dialect, before[..i]), before[i]) {
        assert before[..i] == xs[..i];
      }
      LedgerHolds(dialect, start, before);
      var st := ServeAll(dialect, before);
      assert xs[|xs| - 1] == xs[|before|] && Proper(start, st, xs[|before|]);
      match xs[|before|]
      case Ask(req, snap) => LedgerRequest(dialect, start, st, req, snap);
      case Notice(t, snap) => LedgerSend(dialect, start, st, t, snap);
    }
  }

  /** The same exchange with a client that declares nothing. */
  function Afresh(x: Exchange): Exchange {
    match x
    case Ask(req, snap) => Ask(req.(initial := map[]), snap)
    case Notice(_, _) => x
  }

  function AfreshAll(xs: seq<Exchange>): seq<Exchange> {
    seq(|xs|, i requires 0 <= i < |xs| => Afresh(xs[i]))
  }

  /** The last snapshot the stream has compared type `typeUrl` against, if any. */
  function LastSeen(xs: seq<Exchange>, typeUrl: string): Option<Snapshot> {
    if xs == [] then None
    else
      match xs[|xs| - 1]
      case Ask(req, snap) =>
        if !req.nack && req.typeUrl == typeUrl then Some(snap) else LastSeen(xs[..|xs| - 1], typeUrl)
      case Notice(t, snap) => if t == typeUrl then Some(snap) else LastSeen(xs[..|xs| - 1], typeUrl)
  }

  lemma SendSubs(dialect: Dialect, a: Stream, b: Stream, typeUrl: string, snap: Snapshot)
    requires a.subs == b.subs
    ensures SendDelta(dialect, a, typeUrl, snap).subs == SendDelta(dialect, b, typeUrl, snap).subs
  {
  }

  lemma {:induction false} SameSubscriptions(dialect: Dialect, xs: seq<Exchange>)
    ensures ServeAll(dialect, AfreshAll(xs)).subs == ServeAll(dialect, xs).subs
  {
    if xs != [] {
      var before := xs[..|xs| - 1];
      assert AfreshAll(xs)[..|xs| - 1] == AfreshAll(before);
      SameSubscriptions(dialect, before);
      var a, b := ServeAll(dialect, AfreshAll(before)), ServeAll(dialect, before);
      match xs[|xs| - 1]
      case Ask(req, snap) =>
        if !req.nack {
          assert Resubscribed(a, req.(initial := map[])) == Resubscribed(b, req);
          SendSubs(dialect, Noted(a, req.(initial := map[])), Noted(b, req), req.typeUrl, snap);
        }
      case Notice(t, snap) => SendSubs(dialect, a, b, t, snap);
    }
  }

  lemma SyncedFrame(dialect: Dialect, a: Stream, b: Stream, typeUrl: string, snap: Snapshot)
    requires Synced(dialect, a, typeUrl, snap)
    requires a.Sub(typeUrl) == b.Sub(typeUrl) && a.Sent(typeUrl) == b.Sent(typeUrl)
    ensures Synced(dialect, b, typeUrl, snap)
  {
    forall n | Matches(dialect, b.Sub(typeUrl), n) ensures Agrees(b.Sent(typeUrl), snap.Of(typeUrl), n) {
      assert Matches(dialect, a.Sub(typeUrl), n);
    }
  }

  /** Whatever the client declared, each type is synced with the last snapshot it was compared to. */
  lemma {:induction false} SyncedWithLastSeen(dialect: Dialect, xs: seq<Exchange>, typeUrl: string)
    requires LastSeen(xs, typeUrl).Some?
    ensures Synced(dialect, ServeAll(dialect, xs), typeUrl, LastSeen(xs, typeUrl).value)
  {
    var before := xs[..|xs| - 1];
    var st := ServeAll(dialect, before);
    match xs[|xs| - 1]
    case Ask(req, snap) =>
      if req.nack {
        SyncedWithLastSeen(dialect, before, typeUrl);
      } else {
        SendSyncs(dialect, Noted(st, req), req.typeUrl, snap);
        if req.typeUrl != typeUrl {
          SyncedWithLastSeen(dialect, before, typeUrl);
          SendKeepsOthers(dialect, Noted(st, req), req.typeUrl, snap, typeUrl);
          SyncedFrame(dialect, st, ServeAll(dialect, xs), typeUrl, LastSeen(xs, typeUrl).value);
        }
      }
    case Notice(t, snap) =>
      SendSyncs(dialect, st, t, snap);
      if t != typeUrl {
        SyncedWithLastSeen(dialect, before, typeUrl);
        SendKeepsOthers(dialect, st, t, snap, typeUrl);
        SyncedFrame(dialect, st, ServeAll(dialect, xs), typeUrl, LastSeen(xs, typeUrl).value);
      }
  }

  lemma {:induction false} LastSeenAfresh(xs: seq<Exchange>, typeUrl: string)
    ensures LastSeen(AfreshAll(xs), typeUrl) == LastSeen(xs, typeUrl)
  {
    if xs != [] {
      assert AfreshAll(xs)[..|xs| - 1] == AfreshAll(xs[..|xs| - 1]);
      LastSeenAfresh(xs[..|xs| - 1], typeUrl);
    }
  }

  lemma {:induction false} SubscribedWasSeen(dialect: Dialect, xs: seq<Exchange>, typeUrl: string)
    requires typeUrl in ServeAll(dialect, xs).subs
    ensures LastSeen(xs, typeUrl).Some?
  {
    var before := xs[..|xs| - 1];
    if LastSeen(xs, typeUrl).None? {
      SubscribedWasSeen(dialect, before, typeUrl);
    }
  }

  lemma {:induction false} AfreshIsProper(dialect: Dialect, start: map<string, Held>, xs: seq<Exchange>)
    requires ProperAll(dialect, start, xs)
    ensures ProperAll(dialect, map[], AfreshAll(xs))
  {
    var ys := AfreshAll(xs);
    forall i | 0 <= i < |ys| ensures Proper(map[], ServeAll(dialect, ys[..i]), ys[i]) {
      assert Proper(start, ServeAll(dialect, xs[..i]), xs[i]);
      assert ys[..i] == AfreshAll(xs[..i]);
      SameSubscriptions(dialect, xs[..i]);
      assert Versions(HeldOf(map[], "")) == map[];
    }
  }

  /** A stream opened with what the client truly holds, and one opened with nothing, over the same
      requests and snapshots: once drained, both clients hold what the snapshot has of every name
      subscribed to. */
  lemma {:induction false} ReconnectEqualsFreshStart(dialect: Dialect, start: map<string, Held>,
                  xs: seq<Exchange>, typeUrl: string, name: string)
    requires ProperAll(dialect, start, xs)
    requires typeUrl in ServeAll(dialect, xs).subs
    requires Matches(dialect, ServeAll(dialect, xs).Sub(typeUrl), name)
    ensures LastSeen(xs, typeUrl).Some?
    ensures var again := Replay(HeldOf(start, typeUrl), ServeAll(dialect, xs).log, typeUrl);
            var anew := Replay(map[], ServeAll(dialect, AfreshAll(xs)).log, typeUrl);
            && Lookup(Versions(again), name) == Lookup(Versions(anew), name)
            && Lookup(Versions(again), name) == Lookup(Versions(LastSeen(xs, typeUrl).value.Of(typeUrl)), name)
  {
    LedgerHolds(dialect, start, xs);
    AfreshIsProper(dialect, start, xs);
    LedgerHolds(dialect, map[], AfreshAll(xs));
    SameSubscriptions(dialect, xs);
    SubscribedWasSeen(dialect, xs, typeUrl);
    LastSeenAfresh(xs, typeUrl);
    SyncedWithLastSeen(dialect, xs, typeUrl);
    SyncedWithLastSeen(dialect, AfreshAll(xs), typeUrl);
    assert Agrees(ServeAll(dialect, xs).Sent(typeUrl), LastSeen(xs, typeUrl).value.Of(typeUrl), name);
    assert Agrees(ServeAll(dialect, AfreshAll(xs)).Sent(typeUrl), LastSeen(xs, typeUrl).value.Of(typeUrl), name);
  }

  /** The first answer to a reconnecting client: `name` is sent just when it is subscribed to and the
      version held is not the current one. */
  lemma ReconnectSkipsWhatIsCurrent(dialect: Dialect, st: Stream, req: Request, snap: Snapshot, name: string)
    requires !req.nack && req.typeUrl !in st.subs && req.typeUrl !in st.sent
    ensures var st' := HandleRequest(dialect, st, req, snap);
            var current := snap.Of(req.typeUrl);
            (|st'.log| > |st.log| && name in st'.log[|st.log|].resources) <==>
            (&& name in current && Matches(dialect, Resubscribed(st, req), name)
             && Lookup(req.initial, name) != Some(current[name].version))
  {
    ExactDifference(dialect, Noted(st, req), req.typeUrl, snap);
    assert Noted(st, req).Sent(req.typeUrl) == req.initial;
  }
}
