/** Chapter 5 extends chapter 4 conservatively, and the watch arm of a stream is a run of the system. */
module DeltaDialects {
  import opened Text
  import opened DeltaModel
  import opened DeltaLedger
  import opened DeltaReplica

  // ----- chapter 5 on chapter 4's subscriptions -----

  /** Apart from `*` itself, no name ends in `*`. */
  predicate Plain(names: seq<string>) {
    forall n :: n in names && n != "*" ==> StripStar(n).None?
  }

  ghost predicate PlainSubs(st: Stream) {
    forall t :: t in st.subs ==> forall n :: n in st.subs[t].names ==> StripStar(n).None?
  }

  lemma PlainMatches(sub: TypeSub, name: string)
    requires forall n :: n in sub.names ==> StripStar(n).None?
    ensures Matches(Exact, sub, name) <==> Matches(Glob, sub, name)
  {
    if name in sub.names {
      assert Covers(name, name);
    }
  }

  lemma PlainSend(st: Stream, typeUrl: string, snap: Snapshot)
    requires PlainSubs(st)
    ensures SendDelta(Exact, st, typeUrl, snap) == SendDelta(Glob, st, typeUrl, snap)
    ensures PlainSubs(SendDelta(Exact, st, typeUrl, snap))
  {
    var sub, told, current := st.Sub(typeUrl), st.Sent(typeUrl), snap.Of(typeUrl);
    forall n ensures Matches(Exact, sub, n) <==> Matches(Glob, sub, n) {
      PlainMatches(sub, n);
    }
    assert Changed(Exact, sub, told, current) == Changed(Glob, sub, told, current);
    assert Vanished(Exact, sub, told, current) == Vanished(Glob, sub, told, current);
  }

  lemma PlainRequest(st: Stream, req: Request, snap: Snapshot)
    requires PlainSubs(st) && Plain(req.subscribe)
    ensures HandleRequest(Exact, st, req, snap) == HandleRequest(Glob, st, req, snap)
    ensures PlainSubs(HandleRequest(Exact, st, req, snap))
  {
    if !req.nack {
      assert PlainSubs(Noted(st, req)) by {
        forall n | n in Resubscribed(st, req).names ensures StripStar(n).None? {
          assert n in st.Sub(req.typeUrl).names || (n in req.subscribe && n != "*");
        }
      }
      PlainSend(Noted(st, req), req.typeUrl, snap);
    }
  }

  ghost predicate PlainSystem(s: System) {
    PlainSubs(s.stream) && forall i :: 0 <= i < |s.requests| ==> Plain(s.requests[i].subscribe)
  }

  /** Over any run whose requests name no glob, the two chapters go through the same states: the same
      subscriptions, records, responses, nonces and replicas. */
  lemma {:induction false} GlobExtendsExact(value: Snapshot, writes: nat, start: map<string, Held>, evs: seq<Event>)
    requires forall i :: 0 <= i < |evs| && evs[i].Send? ==> Plain(evs[i].req.subscribe)
    ensures After(Exact, Open(value, writes, start), evs) == After(Glob, Open(value, writes, start), evs)
    ensures PlainSystem(After(Exact, Open(value, writes, start), evs))
  {
    if evs != [] {
      var before, ev := evs[..|evs| - 1], evs[|evs| - 1];
      GlobExtendsExact(value, writes, start, before);
      PlainStep(After(Exact, Open(value, writes, start), before), ev);
    }
  }

  lemma PlainStep(s: System, ev: Event)
    requires PlainSystem(s) && (ev.Send? ==> Plain(ev.req.subscribe))
    ensures Step(Exact, s, ev) == Step(Glob, s, ev)
    ensures PlainSystem(Step(Exact, s, ev))
  {
    if Enabled(s, ev) {
      match ev
      case Answer => PlainRequest(s.stream, s.requests[0], s.value);
      case Push(t) => PlainSend(s.stream, t, s.phase.snap);
      case _ =>
    }
  }

  // ----- the watch arm -----

  function Pushes(order: seq<string>): seq<Event> {
    seq(|order|, i requires 0 <= i < |order| => Push(order[i]))
  }

  lemma SendAllSubs(dialect: Dialect, st: Stream, order: seq<string>, snap: Snapshot)
    requires forall i :: 0 <= i < |order| ==> order[i] in st.subs
    ensures SendAll(dialect, st, order, snap).subs == st.subs
  {
    if order != [] {
      SendAllSubs(dialect, st, order[..|order| - 1], snap);
    }
  }

  /** One turn of the loop of the watch arm. */
  lemma OneTurn(dialect: Dialect, s: System, st: Stream, todo: set<string>, typeUrl: string)
    requires typeUrl in todo
    ensures var q := s.(seen := s.writes, stream := st, phase := Pushing(s.value, todo));
            Step(dialect, q, Push(typeUrl)) ==
            q.(stream := SendDelta(dialect, st, typeUrl, s.value), phase := Loop(s.value, todo - {typeUrl}))
  {
  }

  lemma {:induction false} PushesInOrder(dialect: Dialect, s: System, order: seq<string>)
    requires s.phase.Idle? && s.seen < s.writes && Distinct(order)
    requires Elements(order) <= s.stream.subs.Keys
    ensures After(dialect, s, [Wake] + Pushes(order)) ==
            s.(seen := s.writes, stream := SendAll(dialect, s.stream, order, s.value),
               phase := Loop(s.value, s.stream.subs.Keys - Elements(order)))
  {
    var evs := [Wake] + Pushes(order);
    if order == [] {
      assert evs[..|evs| - 1] == [] && After(dialect, s, []) == s;
      assert s.stream.subs.Keys - Elements(order) == s.stream.subs.Keys;
    } else {
      hide Step, SendDelta;
      var before, t := order[..|order| - 1], order[|order| - 1];
      var todo := s.stream.subs.Keys - Elements(before);
      assert evs[..|evs| - 1] == [Wake] + Pushes(before) && evs[|evs| - 1] == Push(t);
      assert before + [t] == order;
      ElementsAppend(before, t);
      PushesInOrder(dialect, s, before);
      assert t in Elements(order) && t in todo;
      OneTurn(dialect, s, SendAll(dialect, s.stream, before, s.value), todo, t);
      assert todo - {t} == s.stream.subs.Keys - Elements(order);
    }
  }

  /** The watch arm, in whatever order it meets the types, is a run of atomic steps of the system. */
  lemma WatchArmIsARun(dialect: Dialect, s: System, order: seq<string>)
    requires s.phase.Idle? && s.seen < s.writes
    requires Distinct(order) && Elements(order) == s.stream.subs.Keys
    ensures After(dialect, s, [Wake] + Pushes(order)) ==
            s.(seen := s.writes, stream := SendAll(dialect, s.stream, order, s.value))
  {
    PushesInOrder(dialect, s, order);
    assert s.stream.subs.Keys - Elements(order) == {};
  }
}
