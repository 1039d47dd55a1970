/** What a stream is subscribed to, read off the history of its requests, and the history of each run. */
module DeltaHistory {
  import opened Text
  import opened DeltaModel
  import opened DeltaLedger
  import opened DeltaReplica

  /** The exchange is a request for the type that is not a NACK. */
  predicate AsksFor(x: Exchange, typeUrl: string) {
    x.Ask? && !x.req.nack && x.req.typeUrl == typeUrl
  }

  /** The last word on `name` in the requests for a type: subscribed, unsubscribed, or nothing. Within
      one request unsubscribing has the last word. */
  function LastMention(xs: seq<Exchange>, typeUrl: string, name: string): Option<bool> {
    if xs == [] then None
    else
      var x := xs[|xs| - 1];
      if AsksFor(x, typeUrl) && name in x.req.unsubscribe then Some(false)
      else if AsksFor(x, typeUrl) && name in x.req.subscribe then Some(true)
      else LastMention(xs[..|xs| - 1], typeUrl, name)
  }

  /** The first request for a type that is not a NACK. */
  function FirstAsk(xs: seq<Exchange>, typeUrl: string): Option<Request> {
    if xs == [] then None
    else
      var earlier := FirstAsk(xs[..|xs| - 1], typeUrl);
      if earlier.Some? then earlier
      else if AsksFor(xs[|xs| - 1], typeUrl) then Some(xs[|xs| - 1].req)
      else None
  }

  /** The watch arm only visits types that are subscribed to. */
  ghost predicate Solicited(dialect: Dialect, xs: seq<Exchange>) {
    forall i :: 0 <= i < |xs| && xs[i].Notice? ==> xs[i].typeUrl in ServeAll(dialect, xs[..i]).subs
  }

  predicate NamesNothing(req: Request) {
    req.subscribe == [] && req.unsubscribe == []
  }

  ghost predicate HistoryFixes(st: Stream, xs: seq<Exchange>, typeUrl: string) {
    var first := FirstAsk(xs, typeUrl);
    && (typeUrl in st.subs <==> first.Some?)
    && "*" !in st.Sub(typeUrl).names
    && (forall n :: n != "*" ==> (n in st.Sub(typeUrl).names <==> LastMention(xs, typeUrl, n) == Some(true)))
    && (st.Sub(typeUrl).wildcard <==>
          || LastMention(xs, typeUrl, "*") == Some(true)
          || (LastMention(xs, typeUrl, "*") == None && first.Some? && NamesNothing(first.value)))
  }

  lemma ServeOnlyAsked(dialect: Dialect, st: Stream, x: Exchange, typeUrl: string)
    requires x.Notice? ==> x.typeUrl in st.subs
    ensures var st' := Serve(dialect, st, x);
            if AsksFor(x, typeUrl)
            then typeUrl in st'.subs && st'.Sub(typeUrl) == Resubscribed(st, x.req)
            else st'.Sub(typeUrl) == st.Sub(typeUrl) && (typeUrl in st'.subs <==> typeUrl in st.subs)
  {
  }

  lemma NothingIsFirst(xs: seq<Exchange>, typeUrl: string, name: string)
    requires FirstAsk(xs, typeUrl).None?
    ensures LastMention(xs, typeUrl, name) == None
  {
    if xs != [] {
      NothingIsFirst(xs[..|xs| - 1], typeUrl, name);
    }
  }

  lemma OneMoreAsk(st: Stream, before: seq<Exchange>, x: Exchange, typeUrl: string, st': Stream)
    requires HistoryFixes(st, before, typeUrl) && AsksFor(x, typeUrl)
    requires typeUrl in st'.subs && st'.Sub(typeUrl) == Resubscribed(st, x.req)
    ensures HistoryFixes(st', before + [x], typeUrl)
  {
    var xs := before + [x];
    assert xs[..|xs| - 1] == before;
    forall n ensures LastMention(xs, typeUrl, n) ==
                     if n in x.req.unsubscribe then Some(false)
                     else if n in x.req.subscribe then Some(true)
                     else LastMention(before, typeUrl, n)
    {}
    if FirstAsk(before, typeUrl).None? {
      NothingIsFirst(before, typeUrl, "*");
    }
  }

  lemma OneMoreOther(st: Stream, before: seq<Exchange>, x: Exchange, typeUrl: string, st': Stream)
    requires HistoryFixes(st, before, typeUrl) && !AsksFor(x, typeUrl)
    requires st'.Sub(typeUrl) == st.Sub(typeUrl) && (typeUrl in st'.subs <==> typeUrl in st.subs)
    ensures HistoryFixes(st', before + [x], typeUrl)
  {
    assert (before + [x])[..|before|] == before;
    forall n ensures LastMention(before + [x], typeUrl, n) == LastMention(before, typeUrl, n) {}
  }

  lemma SolicitedBefore(dialect: Dialect, xs: seq<Exchange>)
    requires Solicited(dialect, xs) && xs != []
    ensures Solicited(dialect, xs[..|xs| - 1])
    ensures xs[|xs| - 1].Notice? ==> xs[|xs| - 1].typeUrl in ServeAll(dialect, xs[..|xs| - 1]).subs
  {
    hide ServeAll;
    var before := xs[..|xs| - 1];
    forall i | 0 <= i < |before| && before[i].Notice? ensures before[i].typeUrl in ServeAll(dialect, before[..i]).subs {
      assert before[..i] == xs[..i];
    }
  }

  lemma EmptyHistory(typeUrl: string)
    ensures HistoryFixes(NEW_STREAM, [], typeUrl)
  {
  }

  /** After any history a name is subscribed to just when its last mention was a subscribe, and the
      wildcard is on just when the last mention of `*` was a subscribe, or there was none and the first
      request for the type named nothing. */
  lemma {:induction false} SubscriptionsFollowHistory(dialect: Dialect, xs: seq<Exchange>, typeUrl: string)
    requires Solicited(dialect, xs)
    ensures HistoryFixes(ServeAll(dialect, xs), xs, typeUrl)
  {
    hide Serve, HistoryFixes, Solicited;
    if xs == [] {
      EmptyHistory(typeUrl);
    } else {
      var before, x := xs[..|xs| - 1], xs[|xs| - 1];
      SolicitedBefore(dialect, xs);
      SubscriptionsFollowHistory(dialect, before, typeUrl);
      var st := ServeAll(dialect, before);
      ServeOnlyAsked(dialect, st, x, typeUrl);
      assert before + [x] == xs;
      if AsksFor(x, typeUrl) {
        OneMoreAsk(st, before, x, typeUrl, ServeAll(dialect, xs));
      } else {
        OneMoreOther(st, before, x, typeUrl, ServeAll(dialect, xs));
      }
    }
  }

  // ----- the history of a run -----

  /** What the server does in a run: the requests it answers and the types it visits. */
  function Served(dialect: Dialect, s: System, evs: seq<Event>): seq<Exchange> {
    if evs == [] then []
    else
      var before, now, ev := evs[..|evs| - 1], After(dialect, s, evs[..|evs| - 1]), evs[|evs| - 1];
      Served(dialect, s, before) + Serving(now, ev)
  }

  function Serving(now: System, ev: Event): seq<Exchange> {
    if !Enabled(now, ev) then []
    else match ev
      case Answer => [Ask(now.requests[0], now.value)]
      case Push(t) => [Notice(t, now.phase.snap)]
      case _ => []
  }

  /** What the client asks in a run, replies included. */
  function Queued(dialect: Dialect, s: System, evs: seq<Event>): seq<Request> {
    if evs == [] then s.requests
    else
      var before, now, ev := evs[..|evs| - 1], After(dialect, s, evs[..|evs| - 1]), evs[|evs| - 1];
      Queued(dialect, s, before) + Queueing(now, ev)
  }

  function Queueing(now: System, ev: Event): seq<Request> {
    if !Enabled(now, ev) then []
    else match ev
      case Send(req) => [req]
      case Deliver(reply) => Replies(now.stream.log[now.delivered], reply)
      case _ => []
  }

  function Asks(xs: seq<Exchange>): seq<Request> {
    if xs == [] then []
    else
      var x := xs[|xs| - 1];
      Asks(xs[..|xs| - 1]) + if x.Ask? then [x.req] else []
  }

  lemma AsksAppend(xs: seq<Exchange>, x: Exchange)
    ensures Asks(xs + [x]) == Asks(xs) + if x.Ask? then [x.req] else []
  {
    assert (xs + [x])[..|xs|] == xs;
  }

  lemma ProperAppend(dialect: Dialect, start: map<string, Held>, xs: seq<Exchange>, x: Exchange)
    requires ProperAll(dialect, start, xs) && Proper(start, ServeAll(dialect, xs), x)
    ensures ProperAll(dialect, start, xs + [x])
    ensures ServeAll(dialect, xs + [x]) == Serve(dialect, ServeAll(dialect, xs), x)
  {
    hide ServeAll, Serve, Proper;
    var ys := xs + [x];
    assert ys[..|xs|] == xs;
    assert ServeAll(dialect, ys) == Serve(dialect, ServeAll(dialect, xs), x) by {
      ServedLast(dialect, xs, x);
    }
    forall i | 0 <= i < |ys| ensures Proper(start, ServeAll(dialect, ys[..i]), ys[i]) {
      assert ys[..i] == if i < |xs| then xs[..i] else xs;
    }
  }

  lemma ServedLast(dialect: Dialect, xs: seq<Exchange>, x: Exchange)
    ensures ServeAll(dialect, xs + [x]) == Serve(dialect, ServeAll(dialect, xs), x)
  {
    assert (xs + [x])[..|xs|] == xs;
  }

  /** A step serves what it serves, and keeps the requests in their order. */
  lemma ServingStep(dialect: Dialect, s: System, ev: Event)
    requires Inv(dialect, s)
    ensures var xs := Serving(s, ev);
            && |xs| <= 1
            && Step(dialect, s, ev).stream == (if xs == [] then s.stream else Serve(dialect, s.stream, xs[0]))
            && (xs != [] ==> Proper(s.start, s.stream, xs[0]))
            && s.requests + Queueing(s, ev) ==
               (if xs != [] && xs[0].Ask? then [xs[0].req] else []) + Step(dialect, s, ev).requests
  {
    hide HandleRequest, SendDelta, Ledger, ClientInv, WatchInv;
    if Enabled(s, ev) && ev.Answer? {
      HeadIsTruthful(s);
    }
  }

  lemma HistoryGrows(dialect: Dialect, s: System, ev: Event, xs: seq<Exchange>, queued: seq<Request>)
    requires Inv(dialect, s) && s.stream == ServeAll(dialect, xs) && ProperAll(dialect, s.start, xs)
    requires Asks(xs) + s.requests == queued
    ensures var s', xs' := Step(dialect, s, ev), xs + Serving(s, ev);
            && s'.stream == ServeAll(dialect, xs') && ProperAll(dialect, s.start, xs')
            && Asks(xs') + s'.requests == queued + Queueing(s, ev)
  {
    hide Serving, Queueing, Step, Serve, ServeAll, Proper, ProperAll, Asks, Inv;
    ServingStep(dialect, s, ev);
    var more, asks, next := Serving(s, ev), Asks(xs), Step(dialect, s, ev).requests;
    assert queued + Queueing(s, ev) == asks + (s.requests + Queueing(s, ev));
    if more == [] {
      assert xs + more == xs;
      assert [] + next == next;
    } else {
      var x := more[0];
      assert more == [x];
      ProperAppend(dialect, s.start, xs, x);
      AsksAppend(xs, x);
      assert asks + ((if x.Ask? then [x.req] else []) + next) == Asks(xs + more) + next;
    }
  }

  /** Every run is a history: the server's side of it is the exchanges it served, each of them possible
      with such a client, over the client's requests in the order in which they were made. */
  lemma {:induction false} RunIsHistory(dialect: Dialect, value: Snapshot, writes: nat, start: map<string, Held>,
                                        evs: seq<Event>)
    ensures var s0 := Open(value, writes, start);
            && After(dialect, s0, evs).stream == ServeAll(dialect, Served(dialect, s0, evs))
            && ProperAll(dialect, start, Served(dialect, s0, evs))
            && Asks(Served(dialect, s0, evs)) + After(dialect, s0, evs).requests == Queued(dialect, s0, evs)
  {
    hide Serving, Queueing, Step, Serve, Proper, ProperAll, Inv;
    var s0 := Open(value, writes, start);
    if evs == [] {
      EmptyIsProper(dialect, start);
    } else {
      var before, ev := evs[..|evs| - 1], evs[|evs| - 1];
      RunIsHistory(dialect, value, writes, start, before);
      OpenInv(dialect, value, writes, start);
      RunInv(dialect, s0, before);
      StartStays(dialect, s0, before);
      HistoryGrows(dialect, After(dialect, s0, before), ev, Served(dialect, s0, before), Queued(dialect, s0, before));
    }
  }

  lemma EmptyIsProper(dialect: Dialect, start: map<string, Held>)
    ensures ProperAll(dialect, start, [])
  {
  }

  /** So in every run the subscriptions are those of the requests answered. */
  lemma {:induction false} RunFollowsHistory(dialect: Dialect, value: Snapshot, writes: nat, start: map<string, Held>,
                                             evs: seq<Event>, typeUrl: string)
    ensures var s0 := Open(value, writes, start);
            HistoryFixes(After(dialect, s0, evs).stream, Served(dialect, s0, evs), typeUrl)
  {
    hide ServeAll, HistoryFixes;
    var xs := Served(dialect, Open(value, writes, start), evs);
    RunIsHistory(dialect, value, writes, start, evs);
    forall i | 0 <= i < |xs| && xs[i].Notice? ensures xs[i].typeUrl in ServeAll(dialect, xs[..i]).subs {
      assert Proper(start, ServeAll(dialect, xs[..i]), xs[i]);
    }
    SubscriptionsFollowHistory(dialect, xs, typeUrl);
  }

  // ----- what the client wishes -----

  /** The subscription that a series of requests asks for. */
  function Wished(requests: seq<Request>, typeUrl: string): TypeSub {
    if requests == [] then NO_SUB
    else
      var before, req := requests[..|requests| - 1], requests[|requests| - 1];
      if req.nack || req.typeUrl != typeUrl then Wished(before, typeUrl)
      else Changing(Wished(before, typeUrl), typeUrl in Asked(before), req)
  }

  lemma AskedAppend(requests: seq<Request>, req: Request)
    ensures Asked(requests + [req]) == Asked(requests) + if req.nack then {} else {req.typeUrl}
  {
    AskedSplit(requests, [req]);
    assert req in [req];
    assert Asked([req]) == if req.nack then {} else {req.typeUrl};
  }

  lemma {:induction false} WishedAppend(requests: seq<Request>, req: Request, typeUrl: string)
    ensures Wished(requests + [req], typeUrl) ==
            if req.nack || req.typeUrl != typeUrl then Wished(requests, typeUrl)
            else Changing(Wished(requests, typeUrl), typeUrl in Asked(requests), req)
  {
    assert (requests + [req])[..|requests|] == requests;
  }

  /** The type is subscribed to as the requests ask, and known if they ask for it. */
  ghost predicate AsWished(st: Stream, requests: seq<Request>, typeUrl: string) {
    && st.Sub(typeUrl) == Wished(requests, typeUrl)
    && (typeUrl in st.subs <==> typeUrl in Asked(requests))
  }

  lemma AskedAsWished(st: Stream, requests: seq<Request>, req: Request, typeUrl: string, st': Stream)
    requires AsWished(st, requests, typeUrl)
    requires if !req.nack && req.typeUrl == typeUrl
             then typeUrl in st'.subs && st'.Sub(typeUrl) == Resubscribed(st, req)
             else st'.Sub(typeUrl) == st.Sub(typeUrl) && (typeUrl in st'.subs <==> typeUrl in st.subs)
    ensures AsWished(st', requests + [req], typeUrl)
  {
    hide Wished, Asked, Changing;
    AskedAppend(requests, req);
    WishedAppend(requests, req, typeUrl);
    var known, asked := typeUrl in st.subs, typeUrl in Asked(requests);
    assert known == asked;
    assert Changing(st.Sub(typeUrl), known, req) == Changing(Wished(requests, typeUrl), asked, req);
  }

  lemma {:induction false} ServedAsWished(dialect: Dialect, xs: seq<Exchange>, typeUrl: string)
    requires Solicited(dialect, xs)
    ensures AsWished(ServeAll(dialect, xs), Asks(xs), typeUrl)
  {
    hide Serve, AsWished, Solicited, Resubscribed;
    if xs == [] {
      NothingWished(typeUrl);
    } else {
      var before, x := xs[..|xs| - 1], xs[|xs| - 1];
      SolicitedBefore(dialect, xs);
      ServedAsWished(dialect, before, typeUrl);
      var st := ServeAll(dialect, before);
      ServeOnlyAsked(dialect, st, x, typeUrl);
      match x
      case Ask(req, _) => AskedAsWished(st, Asks(before), req, typeUrl, ServeAll(dialect, xs));
      case Notice(_, _) =>
        assert Asks(before) + [] == Asks(before);
        StillAsWished(st, Asks(before), typeUrl, ServeAll(dialect, xs));
    }
  }

  lemma NothingWished(typeUrl: string)
    ensures AsWished(NEW_STREAM, [], typeUrl)
  {
  }

  lemma StillAsWished(st: Stream, requests: seq<Request>, typeUrl: string, st': Stream)
    requires AsWished(st, requests, typeUrl)
    requires st'.Sub(typeUrl) == st.Sub(typeUrl) && (typeUrl in st'.subs <==> typeUrl in st.subs)
    ensures AsWished(st', requests, typeUrl)
  {
  }

  /** In every run, when no request is waiting, the subscription is the one that the client has asked for. */
  lemma {:induction false} AnsweredAsWished(dialect: Dialect, value: Snapshot, writes: nat, start: map<string, Held>,
                                            evs: seq<Event>, typeUrl: string)
    requires After(dialect, Open(value, writes, start), evs).requests == []
    ensures var s0 := Open(value, writes, start);
            After(dialect, s0, evs).stream.Sub(typeUrl) == Wished(Queued(dialect, s0, evs), typeUrl)
  {
    hide ServeAll, After, Wished, Asked, Served, Queued;
    var s0 := Open(value, writes, start);
    var xs := Served(dialect, s0, evs);
    RunIsHistory(dialect, value, writes, start, evs);
    forall i | 0 <= i < |xs| && xs[i].Notice? ensures xs[i].typeUrl in ServeAll(dialect, xs[..i]).subs {
      assert Proper(start, ServeAll(dialect, xs[..i]), xs[i]);
    }
    ServedAsWished(dialect, xs, typeUrl);
    assert Asks(xs) + [] == Asks(xs);
  }
}
