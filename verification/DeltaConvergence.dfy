/** At rest the client of a Delta stream holds the advertised resources, bodies included. */
module DeltaConvergence {
  import opened Maps
  import opened DeltaModel
  import opened DeltaLedger
  import opened DeltaBodies
  import opened DeltaReplica

  ghost predicate GenuineSystem(bodyOf: Meaning, s: System) {
    && GenuineSnapshot(bodyOf, s.value)
    && (s.phase.Pushing? ==> GenuineSnapshot(bodyOf, s.phase.snap))
    && GenuineLog(bodyOf, s.stream.log)
    && GenuineHoldings(bodyOf, s.held)
  }

  ghost predicate GenuinePublishes(bodyOf: Meaning, evs: seq<Event>) {
    forall i :: 0 <= i < |evs| && evs[i].Publish? ==> GenuineSnapshot(bodyOf, evs[i].snap)
  }

  lemma GenuineDeliver(bodyOf: Meaning, s: System)
    requires GenuineSystem(bodyOf, s) && s.delivered < |s.stream.log|
    ensures var m := s.stream.log[s.delivered];
            GenuineHoldings(bodyOf, s.held[m.typeUrl := Apply(HeldOf(s.held, m.typeUrl), m)])
  {
    var m := s.stream.log[s.delivered];
    var held' := s.held[m.typeUrl := Apply(HeldOf(s.held, m.typeUrl), m)];
    forall t ensures Genuine(bodyOf, t, HeldOf(held', t)) {
      assert Genuine(bodyOf, t, HeldOf(s.held, t));
      assert Genuine(bodyOf, m.typeUrl, m.resources);
    }
  }

  lemma GenuineStep(bodyOf: Meaning, dialect: Dialect, s: System, ev: Event)
    requires GenuineSystem(bodyOf, s)
    requires ev.Publish? ==> GenuineSnapshot(bodyOf, ev.snap)
    ensures GenuineSystem(bodyOf, Step(dialect, s, ev))
  {
    if Enabled(s, ev) {
      match ev
      case Answer =>
        var req := s.requests[0];
        if !req.nack {
          GenuineSend(bodyOf, dialect, Noted(s.stream, req), req.typeUrl, s.value);
        }
      case Push(t) => GenuineSend(bodyOf, dialect, s.stream, t, s.phase.snap);
      case Deliver(_) => GenuineDeliver(bodyOf, s);
      case _ =>
    }
  }

  lemma {:induction false} GenuineRun(bodyOf: Meaning, dialect: Dialect, s: System, evs: seq<Event>)
    requires GenuineSystem(bodyOf, s) && GenuinePublishes(bodyOf, evs)
    ensures GenuineSystem(bodyOf, After(dialect, s, evs))
  {
    if evs != [] {
      GenuineRun(bodyOf, dialect, s, evs[..|evs| - 1]);
      GenuineStep(bodyOf, dialect, After(dialect, s, evs[..|evs| - 1]), evs[|evs| - 1]);
    }
  }

  /** When all that was published and held at the start agrees on what a version means, the client at
      rest holds the advertised resources themselves. */
  lemma BodiesConverge(bodyOf: Meaning, dialect: Dialect, value: Snapshot, writes: nat, start: map<string, Held>,
                       evs: seq<Event>, typeUrl: string, name: string)
    requires GenuineSnapshot(bodyOf, value) && GenuineHoldings(bodyOf, start) && GenuinePublishes(bodyOf, evs)
    requires var s := After(dialect, Open(value, writes, start), evs);
             && s.phase.Idle? && s.seen == s.writes && s.delivered == |s.stream.log|
             && typeUrl in s.stream.subs && Selected(dialect, s.stream.Sub(typeUrl), name)
    ensures var s := After(dialect, Open(value, writes, start), evs);
            Lookup(HeldOf(s.held, typeUrl), name) == Lookup(s.value.Of(typeUrl), name)
  {
    var s := After(dialect, Open(value, writes, start), evs);
    ConvergedAtRest(dialect, value, writes, start, evs, typeUrl, name);
    GenuineRun(bodyOf, dialect, Open(value, writes, start), evs);
    assert Genuine(bodyOf, typeUrl, HeldOf(s.held, typeUrl)) && Genuine(bodyOf, typeUrl, s.value.Of(typeUrl));
    assert Lookup(Versions(HeldOf(s.held, typeUrl)), name) == Lookup(Versions(s.value.Of(typeUrl)), name);
  }
}
