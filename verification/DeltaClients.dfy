/** Clients for which `sent` is not what they hold: one that rejects a response, and one that forgets what
    it unsubscribes from. The server's record is of what was told; here is exactly what that costs them. */
module DeltaClients {
  import opened Text
  import opened Maps
  import opened DeltaModel
  import opened DeltaDiff
  import opened DeltaLedger
  import opened DeltaReplica
  import opened DeltaHistory
  import opened DeltaSettling

  ghost predicate Mentions(m: Delta, typeUrl: string, name: string) {
    m.typeUrl == typeUrl && (name in m.resources || name in m.removed)
  }

  /** What the response says of `name`: the version, or that it is gone. */
  function Says(m: Delta, name: string): Option<string> {
    if name in m.removed then None else Lookup(Versions(m.resources), name)
  }

  ghost predicate LastAbout(log: seq<Delta>, i: nat, typeUrl: string, name: string) {
    && i < |log| && Mentions(log[i], typeUrl, name)
    && forall k :: i < k < |log| ==> !Mentions(log[k], typeUrl, name)
  }

  lemma SelfCovers(dialect: Dialect, sub: TypeSub, name: string)
    requires name in sub.names
    ensures Matches(dialect, sub, name)
  {
    assert Covers(name, name);
  }

  // ----- a client that rejects -----

  /** The replica of a client that drops the responses in `rejected` and keeps what it had. */
  function ReplayBut(held: Held, log: seq<Delta>, typeUrl: string, rejected: set<nat>): Held {
    if log == [] then held
    else
      var before := ReplayBut(held, log[..|log| - 1], typeUrl, rejected);
      var m := log[|log| - 1];
      if m.typeUrl == typeUrl && |log| - 1 !in rejected then Apply(before, m) else before
  }

  lemma {:induction false} NoneRejected(held: Held, log: seq<Delta>, typeUrl: string, rejected: set<nat>)
    requires forall k :: k in rejected ==> |log| <= k
    ensures ReplayBut(held, log, typeUrl, rejected) == Replay(held, log, typeUrl)
  {
    if log != [] {
      NoneRejected(held, log[..|log| - 1], typeUrl, rejected);
    }
  }

  /** The last response about a name decides what the client holds of it, if the client took it. */
  lemma {:induction false} LastAboutDecides(held: Held, log: seq<Delta>, i: nat, typeUrl: string, name: string,
                                              rejected: set<nat>)
    requires LastAbout(log, i, typeUrl, name)
    ensures Lookup(Versions(ReplayBut(held, log, typeUrl, rejected)), name) ==
            if i in rejected then Lookup(Versions(ReplayBut(held, log[..i], typeUrl, rejected)), name)
            else Says(log[i], name)
  {
    if i < |log| - 1 {
      var before := log[..|log| - 1];
      assert before[..i] == log[..i];
      LastAboutDecides(held, before, i, typeUrl, name, rejected);
      assert !Mentions(log[|log| - 1], typeUrl, name);
    }
  }

  /** The books after a response about `name`: recorded is what the last one said. */
  lemma SentIsLastAbout(start: map<string, Held>, st: Stream, i: nat, typeUrl: string, name: string)
    requires Ledger(start, st) && LastAbout(st.log, i, typeUrl, name)
    ensures typeUrl in st.sent && Lookup(st.sent[typeUrl], name) == Says(st.log[i], name)
  {
    assert InOrder(start, st.subs.Keys, st.log, i);
    LastAboutDecides(HeldOf(start, typeUrl), st.log, i, typeUrl, name, {});
    NoneRejected(HeldOf(start, typeUrl), st.log, typeUrl, {});
  }

  lemma NamesMentioned(dialect: Dialect, st: Stream, typeUrl: string, snap: Snapshot, name: string)
    requires Matches(dialect, st.Sub(typeUrl), name)
    ensures var log := SendDelta(dialect, st, typeUrl, snap).log;
            (exists k :: |st.log| <= k < |log| && Mentions(log[k], typeUrl, name)) <==>
            !Agrees(st.Sent(typeUrl), snap.Of(typeUrl), name)
  {
    ExactDifference(dialect, st, typeUrl, snap);
    var log := SendDelta(dialect, st, typeUrl, snap).log;
    if !Agrees(st.Sent(typeUrl), snap.Of(typeUrl), name) {
      assert Mentions(log[|st.log|], typeUrl, name);
    }
  }

  /** In every run: after a NACK with the nonce of the last response about `name`, the next request of a
      client that still subscribes to it brings `name` up again just when the snapshot has come to disagree
      with the rejected response. What it said is not repeated. */
  lemma {:induction false} RejectedIsNotResent(dialect: Dialect, value: Snapshot, writes: nat,
                  start: map<string, Held>, evs: seq<Event>, i: nat, name: string,
                  nack: Request, early: Snapshot, next: Request, snap: Snapshot)
    requires var log := After(dialect, Open(value, writes, start), evs).stream.log;
             && i < |log| && LastAbout(log, i, nack.typeUrl, name)
             && nack.nack && nack.responseNonce == log[i].nonce
    requires var st := After(dialect, Open(value, writes, start), evs).stream;
             && !next.nack && next.initial == map[] && next.typeUrl == nack.typeUrl
             && Matches(dialect, Resubscribed(st, next), name)
    ensures var st := After(dialect, Open(value, writes, start), evs).stream;
            var log := HandleRequest(dialect, HandleRequest(dialect, st, nack, early), next, snap).log;
            (exists k :: |st.log| <= k < |log| && Mentions(log[k], nack.typeUrl, name)) <==>
            Says(st.log[i], name) != Lookup(Versions(snap.Of(nack.typeUrl)), name)
  {
    hide After, SendDelta, Resubscribed, Matches, Ledger, LastAbout, QueueInv, ClientInv, WatchInv;
    OpenInv(dialect, value, writes, start);
    RunInv(dialect, Open(value, writes, start), evs);
    StartStays(dialect, Open(value, writes, start), evs);
    var st := After(dialect, Open(value, writes, start), evs).stream;
    SentIsLastAbout(start, st, i, nack.typeUrl, name);
    var noted := Noted(st, next);
    assert noted.Sent(nack.typeUrl) == st.Sent(nack.typeUrl);
    NamesMentioned(dialect, noted, nack.typeUrl, snap, name);
  }

  /** After a NACK an ACK leaves the stream as it was just when the type is synced with the snapshot, as if
      nothing had been rejected. */
  lemma NackIsForgotten(dialect: Dialect, st: Stream, nack: Request, ack: Request, early: Snapshot, snap: Snapshot)
    requires nack.nack && !ack.nack && nack.typeUrl == ack.typeUrl
    requires ack.subscribe == [] && ack.unsubscribe == [] && ack.initial == map[]
    requires ack.typeUrl in st.subs && ack.typeUrl in st.sent
    ensures HandleRequest(dialect, HandleRequest(dialect, st, nack, early), ack, snap) == st <==>
            Synced(dialect, st, ack.typeUrl, snap)
  {
    hide SendDelta, Synced;
    var t := ack.typeUrl;
    assert Resubscribed(st, ack) == st.subs[t] by {
      assert Elements(ack.subscribe) == {} && Elements(ack.unsubscribe) == {};
    }
    assert st.subs[t := st.subs[t]] == st.subs;
    assert st.sent[t] + ack.initial == st.sent[t];
    assert st.sent[t := st.sent[t]] == st.sent;
    assert Noted(st, ack) == st;
    SyncedIsSilent(dialect, st, t, snap);
  }

  lemma {:induction false} SomeLastAbout(log: seq<Delta>, i: nat, typeUrl: string, name: string) returns (m: nat)
    requires i < |log| && Mentions(log[i], typeUrl, name)
    ensures i <= m && LastAbout(log, m, typeUrl, name)
  {
    m := |log| - 1;
    while !Mentions(log[m], typeUrl, name)
      invariant i <= m < |log| && forall k :: m < k < |log| ==> !Mentions(log[k], typeUrl, name)
      decreases m
    {
      m := m - 1;
    }
  }

  /** A response was news, so a client that rejects it differs from one that does not. */
  lemma RejectedWasNews(start: map<string, Held>, st: Stream, i: nat, typeUrl: string, name: string)
    requires Ledger(start, st) && i < |st.log| && Mentions(st.log[i], typeUrl, name)
    ensures Lookup(Versions(Replay(HeldOf(start, typeUrl), st.log[..i], typeUrl)), name) != Says(st.log[i], name)
  {
    assert InOrder(start, st.subs.Keys, st.log, i) && News(start, st.log, i);
  }

  /** The last response about `name` that the client took. */
  ghost predicate LastTaken(log: seq<Delta>, p: nat, typeUrl: string, name: string, rejected: set<nat>) {
    && p < |log| && p !in rejected && Mentions(log[p], typeUrl, name)
    && forall k :: p < k < |log| && Mentions(log[k], typeUrl, name) ==> k in rejected
  }

  /** It decides what the client holds. */
  lemma {:induction false} LastTakenDecides(held: Held, log: seq<Delta>, p: nat, typeUrl: string, name: string,
                                            rejected: set<nat>)
    requires LastTaken(log, p, typeUrl, name, rejected)
    ensures Lookup(Versions(ReplayBut(held, log, typeUrl, rejected)), name) == Says(log[p], name)
  {
    if p == |log| - 1 {
      LastAboutDecides(held, log, p, typeUrl, name, rejected);
    } else {
      hide Mentions;
      assert Mentions(log[|log| - 1], typeUrl, name) ==> |log| - 1 in rejected;
      ReplayButUnchanged(held, log, typeUrl, name, rejected);
      LastTakenDecides(held, log[..|log| - 1], p, typeUrl, name, rejected);
    }
  }

  ghost predicate NoneTaken(log: seq<Delta>, typeUrl: string, name: string, rejected: set<nat>) {
    forall k :: 0 <= k < |log| && Mentions(log[k], typeUrl, name) ==> k in rejected
  }

  lemma {:induction false} NoneTakenKeeps(held: Held, log: seq<Delta>, typeUrl: string, name: string,
                                          rejected: set<nat>)
    requires NoneTaken(log, typeUrl, name, rejected)
    ensures Lookup(Versions(ReplayBut(held, log, typeUrl, rejected)), name) == Lookup(Versions(held), name)
  {
    if log != [] {
      hide Mentions;
      assert Mentions(log[|log| - 1], typeUrl, name) ==> |log| - 1 in rejected;
      ReplayButUnchanged(held, log, typeUrl, name, rejected);
      NoneTakenKeeps(held, log[..|log| - 1], typeUrl, name, rejected);
    }
  }

  lemma ReplayButUnchanged(held: Held, log: seq<Delta>, typeUrl: string, name: string, rejected: set<nat>)
    requires log != [] && (!Mentions(log[|log| - 1], typeUrl, name) || |log| - 1 in rejected)
    ensures Lookup(Versions(ReplayBut(held, log, typeUrl, rejected)), name) ==
            Lookup(Versions(ReplayBut(held, log[..|log| - 1], typeUrl, rejected)), name)
  {
  }

  /** A stream that has seen the last change and is not still to push the type. */
  predicate CaughtUp(s: System, typeUrl: string) {
    s.seen == s.writes && (s.phase.Pushing? ==> typeUrl !in s.phase.todo) && typeUrl in s.stream.subs
  }

  /** What the advertised snapshot has of a name is what the last response about it says. */
  lemma {:induction false} LastAboutIsAdvertised(dialect: Dialect, value: Snapshot, writes: nat,
                  start: map<string, Held>, evs: seq<Event>, m: nat, typeUrl: string, name: string)
    requires var s := After(dialect, Open(value, writes, start), evs);
             && CaughtUp(s, typeUrl) && Matches(dialect, s.stream.Sub(typeUrl), name)
             && LastAbout(s.stream.log, m, typeUrl, name)
    ensures var s := After(dialect, Open(value, writes, start), evs);
            Lookup(Versions(s.value.Of(typeUrl)), name) == Says(s.stream.log[m], name)
  {
    hide After, Matches, LastAbout;
    MatchesIsSelected(dialect, After(dialect, Open(value, writes, start), evs).stream.Sub(typeUrl), name);
    ConvergedInFlight(dialect, value, writes, start, evs, typeUrl, name);
    OpenInv(dialect, value, writes, start);
    RunInv(dialect, Open(value, writes, start), evs);
    StartStays(dialect, Open(value, writes, start), evs);
    var s := After(dialect, Open(value, writes, start), evs);
    DrainedIsReplay(dialect, s, typeUrl);
    LastAboutDecides(HeldOf(start, typeUrl), s.stream.log, m, typeUrl, name, {});
    NoneRejected(HeldOf(start, typeUrl), s.stream.log, typeUrl, {});
  }

  /** In every run, for a client that rejects any responses it likes, keeps what it had, and has read them
      all: it agrees with the snapshot on a name just when the last response about the name that it took,
      or what it started with if it took none, says what the last response about the name says. */
  lemma {:induction false} WhatWasTakenDecides(dialect: Dialect, value: Snapshot, writes: nat,
                  start: map<string, Held>, evs: seq<Event>, rejected: set<nat>, m: nat, typeUrl: string, name: string)
    requires var s := After(dialect, Open(value, writes, start), evs);
             && CaughtUp(s, typeUrl) && Matches(dialect, s.stream.Sub(typeUrl), name)
             && LastAbout(s.stream.log, m, typeUrl, name)
    ensures var s := After(dialect, Open(value, writes, start), evs);
            var log := s.stream.log;
            var agrees := Lookup(Versions(ReplayBut(HeldOf(start, typeUrl), log, typeUrl, rejected)), name) ==
                          Lookup(Versions(s.value.Of(typeUrl)), name);
            && (forall p: nat :: LastTaken(log, p, typeUrl, name, rejected) ==>
                  (agrees <==> Says(log[p], name) == Says(log[m], name)))
            && (NoneTaken(log, typeUrl, name, rejected) ==>
                  (agrees <==> Lookup(Versions(HeldOf(start, typeUrl)), name) == Says(log[m], name)))
  {
    hide After, Matches, Mentions, LastAbout, NoneTaken, CaughtUp, ReplayBut;
    LastAboutIsAdvertised(dialect, value, writes, start, evs, m, typeUrl, name);
    var held, log := HeldOf(start, typeUrl), After(dialect, Open(value, writes, start), evs).stream.log;
    forall p: nat | LastTaken(log, p, typeUrl, name, rejected)
      ensures Lookup(Versions(ReplayBut(held, log, typeUrl, rejected)), name) == Says(log[p], name)
    {
      LastTakenDecides(held, log, p, typeUrl, name, rejected);
    }
    if NoneTaken(log, typeUrl, name, rejected) {
      NoneTakenKeeps(held, log, typeUrl, name, rejected);
    }
  }

  /** So a client that rejected one response about `name` agrees with the snapshot on it just when a later
      response was about `name` again. */
  lemma {:induction false} RejectedUntilNamedAgain(dialect: Dialect, value: Snapshot, writes: nat,
                  start: map<string, Held>, evs: seq<Event>, i: nat, typeUrl: string, name: string)
    requires var s := After(dialect, Open(value, writes, start), evs);
             && CaughtUp(s, typeUrl) && Matches(dialect, s.stream.Sub(typeUrl), name)
             && i < |s.stream.log| && Mentions(s.stream.log[i], typeUrl, name)
    ensures var s := After(dialect, Open(value, writes, start), evs);
            Lookup(Versions(ReplayBut(HeldOf(start, typeUrl), s.stream.log, typeUrl, {i})), name) ==
            Lookup(Versions(s.value.Of(typeUrl)), name) <==>
            exists k :: i < k < |s.stream.log| && Mentions(s.stream.log[k], typeUrl, name)
  {
    hide After, Matches, Mentions, CaughtUp;
    OpenInv(dialect, value, writes, start);
    RunInv(dialect, Open(value, writes, start), evs);
    StartStays(dialect, Open(value, writes, start), evs);
    var s := After(dialect, Open(value, writes, start), evs);
    var held, log := HeldOf(start, typeUrl), s.stream.log;
    var m := SomeLastAbout(log, i, typeUrl, name);
    LastAboutIsAdvertised(dialect, value, writes, start, evs, m, typeUrl, name);
    LastAboutDecides(held, log, m, typeUrl, name, {i});
    if m == i {
      NoneRejected(held, log[..i], typeUrl, {i});
      RejectedWasNews(start, s.stream, i, typeUrl, name);
    }
  }

  /** What a client holds in a run if it keeps what it had whenever it replies with a NACK. */
  function Picky(dialect: Dialect, s: System, evs: seq<Event>, typeUrl: string): Held {
    if evs == [] then HeldOf(s.held, typeUrl)
    else
      var before, now, ev := evs[..|evs| - 1], After(dialect, s, evs[..|evs| - 1]), evs[|evs| - 1];
      var held := Picky(dialect, s, before, typeUrl);
      if ev.Deliver? && Enabled(now, ev) && !ev.reply.Nack? && now.stream.log[now.delivered].typeUrl == typeUrl then
        Apply(held, now.stream.log[now.delivered])
      else held
  }

  /** The responses that it rejected. */
  function Rejected(dialect: Dialect, s: System, evs: seq<Event>): set<nat> {
    if evs == [] then {}
    else
      var before, now, ev := evs[..|evs| - 1], After(dialect, s, evs[..|evs| - 1]), evs[|evs| - 1];
      Rejected(dialect, s, before) + if ev.Deliver? && Enabled(now, ev) && ev.reply.Nack? then {now.delivered} else {}
  }

  lemma {:induction false} LaterRejections(held: Held, log: seq<Delta>, typeUrl: string, rejected: set<nat>, k: nat)
    requires |log| <= k
    ensures ReplayBut(held, log, typeUrl, rejected + {k}) == ReplayBut(held, log, typeUrl, rejected)
  {
    if log != [] {
      LaterRejections(held, log[..|log| - 1], typeUrl, rejected, k);
    }
  }

  lemma OneTaken(held: Held, log: seq<Delta>, d: nat, typeUrl: string, rejected: set<nat>)
    requires d < |log| && forall k :: k in rejected ==> k < d
    ensures ReplayBut(held, log[..d + 1], typeUrl, rejected) ==
            var before := ReplayBut(held, log[..d], typeUrl, rejected);
            if log[d].typeUrl == typeUrl then Apply(before, log[d]) else before
    ensures ReplayBut(held, log[..d + 1], typeUrl, rejected + {d}) == ReplayBut(held, log[..d], typeUrl, rejected)
  {
    assert log[..d + 1][..d] == log[..d];
    LaterRejections(held, log[..d], typeUrl, rejected, d);
  }

  lemma Progress(dialect: Dialect, s: System, ev: Event)
    ensures s.stream.log <= Step(dialect, s, ev).stream.log
    ensures Step(dialect, s, ev).delivered == s.delivered + if ev.Deliver? && Enabled(s, ev) then 1 else 0
  {
    LogOnlyGrows(dialect, s, ev);
  }

  /** What it rejected it has read. */
  lemma {:induction false} RejectedBefore(dialect: Dialect, s: System, evs: seq<Event>)
    ensures forall k :: k in Rejected(dialect, s, evs) ==> k < After(dialect, s, evs).delivered
  {
    if evs != [] {
      hide Step;
      RejectedBefore(dialect, s, evs[..|evs| - 1]);
      Progress(dialect, After(dialect, s, evs[..|evs| - 1]), evs[|evs| - 1]);
    }
  }

  lemma PickyStep(dialect: Dialect, s: System, ev: Event, start: Held, typeUrl: string, rejected: set<nat>)
    requires s.delivered <= |s.stream.log| && forall k :: k in rejected ==> k < s.delivered
    ensures var s', read := Step(dialect, s, ev), ev.Deliver? && Enabled(s, ev);
            var held := ReplayBut(start, s.stream.log[..s.delivered], typeUrl, rejected);
            var rejected' := rejected + if read && ev.reply.Nack? then {s.delivered} else {};
            && s'.delivered <= |s'.stream.log|
            && ReplayBut(start, s'.stream.log[..s'.delivered], typeUrl, rejected') ==
               if read && !ev.reply.Nack? && s.stream.log[s.delivered].typeUrl == typeUrl
               then Apply(held, s.stream.log[s.delivered])
               else held
  {
    hide Step, ReplayBut, Apply;
    Progress(dialect, s, ev);
    var log, d := Step(dialect, s, ev).stream.log, s.delivered;
    assert s.stream.log[..d] == log[..d];
    assert rejected + {} == rejected;
    if ev.Deliver? && Enabled(s, ev) {
      assert log[d] == s.stream.log[d];
      OneTaken(start, log, d, typeUrl, rejected);
    }
  }

  /** Such a client is one that drops the responses it rejected. */
  lemma {:induction false} PickyIsReplayBut(dialect: Dialect, value: Snapshot, writes: nat, start: map<string, Held>,
                                            evs: seq<Event>, typeUrl: string)
    ensures var s0 := Open(value, writes, start);
            var s := After(dialect, s0, evs);
            && s.delivered <= |s.stream.log|
            && Picky(dialect, s0, evs, typeUrl) ==
               ReplayBut(HeldOf(start, typeUrl), s.stream.log[..s.delivered], typeUrl, Rejected(dialect, s0, evs))
  {
    if evs != [] {
      hide Step, ReplayBut, Apply, Enabled;
      var s0, before, ev := Open(value, writes, start), evs[..|evs| - 1], evs[|evs| - 1];
      PickyIsReplayBut(dialect, value, writes, start, before, typeUrl);
      RejectedBefore(dialect, s0, before);
      PickyStep(dialect, After(dialect, s0, before), ev, HeldOf(start, typeUrl), typeUrl,
                Rejected(dialect, s0, before));
    }
  }

  // ----- a client that forgets -----

  /** A name subscribed to again is sent again just when the version last sent is not the current one,
      whether or not it was unsubscribed in between. */
  lemma ResubscribeResends(dialect: Dialect, st: Stream, req: Request, snap: Snapshot, name: string)
    requires !req.nack && req.initial == map[]
    requires name in req.subscribe && name != "*" && name !in req.unsubscribe
    requires name in snap.Of(req.typeUrl)
    ensures var st' := HandleRequest(dialect, st, req, snap);
            (|st'.log| > |st.log| && name in st'.log[|st.log|].resources) <==>
            Lookup(st.Sent(req.typeUrl), name) != Some(snap.Of(req.typeUrl)[name].version)
  {
    ExactDifference(dialect, Noted(st, req), req.typeUrl, snap);
    SelfCovers(dialect, Resubscribed(st, req), name);
    assert Noted(st, req).Sent(req.typeUrl) == st.Sent(req.typeUrl);
  }

  /** With the request the client, which had asked for `asked`, gives up `name`: an exact name, or one that a
      collection or the wildcard covered. */
  predicate GivesUp(dialect: Dialect, asked: seq<Request>, req: Request, typeUrl: string, name: string) {
    && Matches(dialect, Wished(asked, typeUrl), name)
    && !Matches(dialect, Wished(asked + [req], typeUrl), name)
  }

  /** What a client holds of one type if it drops the names it gives up as it unsubscribes. */
  function Forgetful(dialect: Dialect, s: System, evs: seq<Event>, typeUrl: string): Held {
    if evs == [] then HeldOf(s.held, typeUrl)
    else
      var before, now, ev := evs[..|evs| - 1], After(dialect, s, evs[..|evs| - 1]), evs[|evs| - 1];
      var held := Forgetful(dialect, s, before, typeUrl);
      if ev.Send? && Enabled(now, ev) then
        map n | n in held && !GivesUp(dialect, Queued(dialect, s, before), ev.req, typeUrl, n) :: held[n]
      else if ev.Deliver? && Enabled(now, ev) && now.stream.log[now.delivered].typeUrl == typeUrl then
        Apply(held, now.stream.log[now.delivered])
      else held
  }

  /** Of the client's requests that give up `name` and the responses about `name` that it read, the last was
      such a request. */
  ghost predicate Dropped(dialect: Dialect, s: System, evs: seq<Event>, typeUrl: string, name: string) {
    evs != [] &&
    var before, now, ev := evs[..|evs| - 1], After(dialect, s, evs[..|evs| - 1]), evs[|evs| - 1];
    if ev.Send? && Enabled(now, ev) && GivesUp(dialect, Queued(dialect, s, before), ev.req, typeUrl, name) then
      true
    else if ev.Deliver? && Enabled(now, ev) && Mentions(now.stream.log[now.delivered], typeUrl, name) then
      false
    else Dropped(dialect, s, before, typeUrl, name)
  }

  lemma ApplyAt(a: Held, b: Held, m: Delta, name: string)
    requires Lookup(a, name) == Lookup(b, name) || name in m.resources || name in m.removed
    ensures Lookup(Apply(a, m), name) == Lookup(Apply(b, m), name)
  {
    assert Lookup(a, name) == Lookup(b, name) ==> (name in a <==> name in b);
  }

  lemma {:induction false} ForgetfulIsDropped(dialect: Dialect, s: System, evs: seq<Event>, typeUrl: string,
                                              name: string)
    ensures Lookup(Forgetful(dialect, s, evs, typeUrl), name) ==
            if Dropped(dialect, s, evs, typeUrl, name) then None
            else Lookup(HeldOf(After(dialect, s, evs).held, typeUrl), name)
  {
    if evs != [] {
      hide HandleRequest, SendDelta, Apply, GivesUp;
      var before, ev := evs[..|evs| - 1], evs[|evs| - 1];
      ForgetfulIsDropped(dialect, s, before, typeUrl, name);
      var now := After(dialect, s, before);
      if ev.Deliver? && Enabled(now, ev) && now.stream.log[now.delivered].typeUrl == typeUrl {
        var m := now.stream.log[now.delivered];
        var held := Forgetful(dialect, s, before, typeUrl);
        if Mentions(m, typeUrl, name) {
          ApplyAt(held, HeldOf(now.held, typeUrl), m, name);
        } else {
          NotMentioned(held, m, name);
          NotMentioned(HeldOf(now.held, typeUrl), m, name);
        }
      }
    }
  }

  lemma NotMentioned(held: Held, m: Delta, name: string)
    requires name !in m.resources && name !in m.removed
    ensures Lookup(Apply(held, m), name) == Lookup(held, name)
  {
  }

  /** In every run, at rest: a client that forgets what it gives up agrees with the snapshot on a name it
      subscribes to just when the snapshot lacks the name, or a response about the name came after the last
      request that gave it up. */
  lemma {:induction false} DroppedOnUnsubscribeIsLost(dialect: Dialect, value: Snapshot, writes: nat,
                  start: map<string, Held>, evs: seq<Event>, typeUrl: string, name: string)
    requires var s := After(dialect, Open(value, writes, start), evs);
             && AtRest(s) && typeUrl in s.stream.subs && Matches(dialect, s.stream.Sub(typeUrl), name)
    ensures var s := After(dialect, Open(value, writes, start), evs);
            Lookup(Versions(Forgetful(dialect, Open(value, writes, start), evs, typeUrl)), name) ==
            Lookup(Versions(s.value.Of(typeUrl)), name) <==>
            name !in s.value.Of(typeUrl) || !Dropped(dialect, Open(value, writes, start), evs, typeUrl, name)
  {
    hide After, Matches, Forgetful, Dropped;
    MatchesIsSelected(dialect, After(dialect, Open(value, writes, start), evs).stream.Sub(typeUrl), name);
    ConvergedAtRest(dialect, value, writes, start, evs, typeUrl, name);
    ForgetfulIsDropped(dialect, Open(value, writes, start), evs, typeUrl, name);
    var s := After(dialect, Open(value, writes, start), evs);
    var kept, held := Forgetful(dialect, Open(value, writes, start), evs, typeUrl), HeldOf(s.held, typeUrl);
    assert name in kept <==> name in Versions(kept);
    assert name in held <==> name in Versions(held);
    assert Lookup(kept, name) == None || Lookup(kept, name) == Lookup(held, name);
    assert Lookup(held, name) == Lookup(kept, name) ==> Lookup(Versions(held), name) == Lookup(Versions(kept), name);
  }

  // ----- such runs -----

  function Subscribe(typeUrl: string, name: string): Request {
    Request(typeUrl, false, "", [name], [], map[])
  }

  function Unsubscribe(typeUrl: string, name: string): Request {
    Request(typeUrl, false, "", [], [name], map[])
  }

  /** The subscription to one name, collection or `*` covers `name`. */
  predicate Selects(dialect: Dialect, subscribed: string, name: string) {
    Matches(dialect, Subscribed(NO_SUB, [subscribed]), name)
  }

  /** Subscribe and read the answer, unsubscribe, subscribe again. */
  function BackAndForth(typeUrl: string, subscribed: string): seq<Event> {
    [Send(Subscribe(typeUrl, subscribed)), Answer] + [Deliver(Silent)]
    + [Send(Unsubscribe(typeUrl, subscribed)), Answer]
    + [Send(Subscribe(typeUrl, subscribed)), Answer]
  }

  lemma OneAndNone(subscribed: string)
    ensures Elements([subscribed]) == {subscribed} && Elements([]) == {}
    ensures var one := Subscribed(NO_SUB, [subscribed]);
            Unsubscribed(Subscribed(one, []), [subscribed]) == NO_SUB && Unsubscribed(one, []) == one
  {
    assert Elements([subscribed]) == {subscribed};
  }

  /** The answer to a first subscription names what it selects. */
  lemma AnswersFirst(dialect: Dialect, value: Snapshot, typeUrl: string, subscribed: string, name: string)
    requires Selects(dialect, subscribed, name) && name in value.Of(typeUrl)
    ensures var st := HandleRequest(dialect, NEW_STREAM, Subscribe(typeUrl, subscribed), value);
            && |st.log| == 1 && Mentions(st.log[0], typeUrl, name)
            && typeUrl in st.subs && st.Sub(typeUrl) == Subscribed(NO_SUB, [subscribed])
            && Synced(dialect, st, typeUrl, value)
  {
    hide SendDelta, Matches, Synced;
    OneAndNone(subscribed);
    var noted := Noted(NEW_STREAM, Subscribe(typeUrl, subscribed));
    assert noted.Sub(typeUrl) == Subscribed(NO_SUB, [subscribed]);
    ExactDifference(dialect, noted, typeUrl, value);
    ToldAfterSend(dialect, noted, typeUrl, value);
    SendSyncs(dialect, noted, typeUrl, value);
    SubscribedStays(dialect, noted, typeUrl, value);
    assert !Agrees(map[], value.Of(typeUrl), name);
  }

  /** Unsubscribing and subscribing again draws no answer. */
  lemma AnswersBackAndForth(dialect: Dialect, st: Stream, value: Snapshot, typeUrl: string, subscribed: string)
    requires typeUrl in st.subs && st.Sub(typeUrl) == Subscribed(NO_SUB, [subscribed])
    requires Synced(dialect, st, typeUrl, value)
    ensures var second := HandleRequest(dialect, st, Unsubscribe(typeUrl, subscribed), value);
            var third := HandleRequest(dialect, second, Subscribe(typeUrl, subscribed), value);
            && second.log == st.log && third.log == st.log
            && typeUrl in third.subs && third.Sub(typeUrl) == Subscribed(NO_SUB, [subscribed])
  {
    hide SendDelta, Matches;
    OneAndNone(subscribed);
    NothingMatches(dialect);
    var off, on := Noted(st, Unsubscribe(typeUrl, subscribed)), Subscribe(typeUrl, subscribed);
    assert off.Sub(typeUrl) == NO_SUB && off.Sent(typeUrl) == st.Sent(typeUrl);
    ExactDifference(dialect, off, typeUrl, value);
    ToldAfterSend(dialect, off, typeUrl, value);
    SubscribedStays(dialect, off, typeUrl, value);
    var second := HandleRequest(dialect, st, Unsubscribe(typeUrl, subscribed), value);
    SameMap(second.Sent(typeUrl), st.Sent(typeUrl));
    var noted := Noted(second, on);
    assert noted.Sub(typeUrl) == st.Sub(typeUrl) && noted.Sent(typeUrl) == st.Sent(typeUrl);
    ExactDifference(dialect, noted, typeUrl, value);
    ToldAfterSend(dialect, noted, typeUrl, value);
    SubscribedStays(dialect, noted, typeUrl, value);
  }

  lemma SubscribedStays(dialect: Dialect, st: Stream, typeUrl: string, snap: Snapshot)
    ensures typeUrl in SendDelta(dialect, st, typeUrl, snap).subs
  {
  }

  lemma NothingMatches(dialect: Dialect)
    ensures forall n :: !Matches(dialect, NO_SUB, n)
  {
  }

  lemma TwoSteps(dialect: Dialect, s: System, a: Event, b: Event)
    ensures After(dialect, s, [a, b]) == Step(dialect, Step(dialect, s, a), b)
  {
    hide Step;
    assert [a, b][..1] == [a] && [a][..0] == [];
    assert After(dialect, s, []) == s;
    assert After(dialect, s, [a]) == Step(dialect, s, a);
  }

  lemma AskAndAnswer(dialect: Dialect, s: System, req: Request)
    requires s.phase.Idle? && s.requests == [] && ClientMaySend(s, req) && !req.nack
    ensures After(dialect, s, [Send(req), Answer]) ==
            s.(stream := HandleRequest(dialect, s.stream, req, s.value), known := s.known + {req.typeUrl})
  {
    hide HandleRequest;
    TwoSteps(dialect, s, Send(req), Answer);
    assert Step(dialect, s, Send(req)).requests[1..] == [];
  }

  lemma QueuedAfterAsk(dialect: Dialect, s: System, evs: seq<Event>, req: Request, typeUrl: string, name: string)
    requires ClientMaySend(After(dialect, s, evs), req)
    ensures Queued(dialect, s, evs + [Send(req), Answer]) == Queued(dialect, s, evs) + [req]
    ensures Dropped(dialect, s, evs + [Send(req), Answer], typeUrl, name) <==>
            GivesUp(dialect, Queued(dialect, s, evs), req, typeUrl, name) || Dropped(dialect, s, evs, typeUrl, name)
  {
    hide Step, GivesUp;
    var asked := evs + [Send(req)];
    var both := evs + [Send(req), Answer];
    assert both[..|both| - 1] == asked && asked[..|asked| - 1] == evs;
  }

  lemma QueuedAfterSilence(dialect: Dialect, s: System, evs: seq<Event>)
    ensures Queued(dialect, s, evs + [Deliver(Silent)]) == Queued(dialect, s, evs)
  {
    assert (evs + [Deliver(Silent)])[..|evs|] == evs;
  }

  /** Unsubscribing gives up what the subscription selected. */
  lemma UnsubscribeGivesUp(dialect: Dialect, typeUrl: string, subscribed: string, name: string)
    requires Selects(dialect, subscribed, name)
    ensures GivesUp(dialect, [Subscribe(typeUrl, subscribed)], Unsubscribe(typeUrl, subscribed), typeUrl, name)
  {
    hide Matches;
    OneAndNone(subscribed);
    NothingMatches(dialect);
    var on, off := Subscribe(typeUrl, subscribed), Unsubscribe(typeUrl, subscribed);
    assert [] + [on] == [on];
    WishedAppend([], on, typeUrl);
    WishedAppend([on], off, typeUrl);
    AskedAppend([], on);
  }

  /** The run, step by step. */
  lemma {:induction false} BackAndForthSteps(dialect: Dialect, value: Snapshot, writes: nat, typeUrl: string,
                                             subscribed: string, name: string)
    requires Selects(dialect, subscribed, name) && name in value.Of(typeUrl)
    ensures var evs := BackAndForth(typeUrl, subscribed);
            var s := After(dialect, Open(value, writes, map[]), evs);
            && AtRest(s) && s.value == value && typeUrl in s.stream.subs
            && s.stream.Sub(typeUrl) == Subscribed(NO_SUB, [subscribed])
            && Dropped(dialect, Open(value, writes, map[]), evs, typeUrl, name)
  {
    hide HandleRequest, After, Matches, Dropped, GivesUp, Queued, Mentions, Synced, Subscribed, Selects;
    var on, off := Subscribe(typeUrl, subscribed), Unsubscribe(typeUrl, subscribed);
    var s0 := Open(value, writes, map[]);
    var st := HandleRequest(dialect, NEW_STREAM, on, value);
    AnswersFirst(dialect, value, typeUrl, subscribed, name);
    AnswersBackAndForth(dialect, st, value, typeUrl, subscribed);
    UnsubscribeGivesUp(dialect, typeUrl, subscribed, name);
    var a := [Send(on), Answer];
    AskAndAnswer(dialect, s0, on);
    FirstQueued(dialect, s0, on, typeUrl, name);
    var b := a + [Deliver(Silent)];
    ReadSilently(dialect, s0, a);
    var s2 := After(dialect, s0, b);
    QueuedAfterSilence(dialect, s0, a);
    var c := b + [Send(off), Answer];
    AfterSplit(dialect, s0, b, [Send(off), Answer]);
    AskAndAnswer(dialect, s2, off);
    QueuedAfterAsk(dialect, s0, b, off, typeUrl, name);
    var s3 := After(dialect, s0, c);
    AfterSplit(dialect, s0, c, [Send(on), Answer]);
    AskAndAnswer(dialect, s3, on);
    QueuedAfterAsk(dialect, s0, c, on, typeUrl, name);
    assert c + [Send(on), Answer] == BackAndForth(typeUrl, subscribed);
  }

  lemma FirstQueued(dialect: Dialect, s: System, req: Request, typeUrl: string, name: string)
    requires ClientMaySend(s, req) && s.requests == []
    ensures Queued(dialect, s, [Send(req), Answer]) == [req]
  {
    hide Step;
    assert After(dialect, s, []) == s && Queued(dialect, s, []) == [];
    QueuedAfterAsk(dialect, s, [], req, typeUrl, name);
    assert [] + [Send(req), Answer] == [Send(req), Answer] && [] + [req] == [req];
  }

  lemma ReadSilently(dialect: Dialect, s: System, evs: seq<Event>)
    requires var now := After(dialect, s, evs); now.delivered < |now.stream.log|
    ensures var now, next := After(dialect, s, evs), After(dialect, s, evs + [Deliver(Silent)]);
            && next == now.(delivered := now.delivered + 1, held := next.held)
  {
    hide After;
    AfterSplit(dialect, s, evs, [Deliver(Silent)]);
    OneReadSilently(dialect, After(dialect, s, evs));
  }

  lemma OneReadSilently(dialect: Dialect, s: System)
    requires s.delivered < |s.stream.log|
    ensures var next := After(dialect, s, [Deliver(Silent)]);
            next == s.(delivered := s.delivered + 1, held := next.held)
  {
    assert [Deliver(Silent)][..0] == [] && After(dialect, s, []) == s;
    assert s.requests + [] == s.requests;
  }

  /** An input that shows what forgetting costs, with any subscription that selects the name: at the end of
      that run all is at rest and the client is subscribed to a name of the snapshot, and does not have it. */
  lemma {:induction false} BackAndForthLosesIt(dialect: Dialect, value: Snapshot, writes: nat, typeUrl: string,
                                               subscribed: string, name: string)
    requires Selects(dialect, subscribed, name) && name in value.Of(typeUrl)
    ensures var evs := BackAndForth(typeUrl, subscribed);
            var s := After(dialect, Open(value, writes, map[]), evs);
            && AtRest(s) && typeUrl in s.stream.subs && Matches(dialect, s.stream.Sub(typeUrl), name)
            && name in s.value.Of(typeUrl)
            && name !in Forgetful(dialect, Open(value, writes, map[]), evs, typeUrl)
  {
    hide After, Matches, Forgetful, Dropped, BackAndForth, Subscribed;
    BackAndForthSteps(dialect, value, writes, typeUrl, subscribed, name);
    ForgetfulIsDropped(dialect, Open(value, writes, map[]), BackAndForth(typeUrl, subscribed), typeUrl, name);
  }

  /** Subscribe, reject the answer, and let the server read the rejection. */
  function Refusal(typeUrl: string, subscribed: string): seq<Event> {
    [Send(Subscribe(typeUrl, subscribed)), Answer] + [Deliver(Nack), Answer]
  }

  lemma RefuseAndAnswer(dialect: Dialect, s: System)
    requires s.phase.Idle? && s.requests == [] && s.delivered < |s.stream.log|
    ensures var next := After(dialect, s, [Deliver(Nack), Answer]);
            next == s.(delivered := s.delivered + 1, held := next.held)
  {
    TwoSteps(dialect, s, Deliver(Nack), Answer);
    var mid := Step(dialect, s, Deliver(Nack));
    assert mid.requests == Replies(s.stream.log[s.delivered], Nack) && mid.requests[1..] == [];
  }

  /** An input that shows what rejecting costs: a client that rejects the first answer is at rest without
      what the snapshot has. */
  lemma {:induction false} RefusalIsForGood(dialect: Dialect, value: Snapshot, writes: nat, typeUrl: string,
                                            subscribed: string, name: string)
    requires Selects(dialect, subscribed, name) && name in value.Of(typeUrl)
    ensures var s0, evs := Open(value, writes, map[]), Refusal(typeUrl, subscribed);
            var s := After(dialect, s0, evs);
            && AtRest(s) && typeUrl in s.stream.subs && Matches(dialect, s.stream.Sub(typeUrl), name)
            && name in s.value.Of(typeUrl)
            && Picky(dialect, s0, evs, typeUrl) == map[]
  {
    hide HandleRequest, After, Matches, Mentions, Synced, Subscribed, Picky, Rejected;
    var s0, evs := Open(value, writes, map[]), Refusal(typeUrl, subscribed);
    var on, a := Subscribe(typeUrl, subscribed), [Send(Subscribe(typeUrl, subscribed)), Answer];
    AnswersFirst(dialect, value, typeUrl, subscribed, name);
    AskAndAnswer(dialect, s0, on);
    var s1 := After(dialect, s0, a);
    AfterSplit(dialect, s0, a, [Deliver(Nack), Answer]);
    RefuseAndAnswer(dialect, s1);
    RefusalKeepsNothing(dialect, s0, a, typeUrl);
    NothingRead(dialect, s0, on, typeUrl);
  }

  lemma RefusalKeepsNothing(dialect: Dialect, s: System, evs: seq<Event>, typeUrl: string)
    ensures Picky(dialect, s, evs + [Deliver(Nack), Answer], typeUrl) == Picky(dialect, s, evs, typeUrl)
  {
    hide After;
    var read, both := evs + [Deliver(Nack)], evs + [Deliver(Nack), Answer];
    assert both[..|both| - 1] == read && read[..|read| - 1] == evs;
  }

  lemma NothingRead(dialect: Dialect, s: System, req: Request, typeUrl: string)
    ensures Picky(dialect, s, [Send(req), Answer], typeUrl) == HeldOf(s.held, typeUrl)
  {
    hide After;
    assert [Send(req), Answer][..1] == [Send(req)] && [Send(req)][..0] == [];
    assert Picky(dialect, s, [Send(req)], typeUrl) == Picky(dialect, s, [], typeUrl);
  }
}
