/** Versions stand for bodies: as long as all that is published agrees on what a version means, what is
    proved of the versions that a client holds holds of the resources themselves. */
module DeltaBodies {
  import opened Text
  import opened Maps
  import opened Config
  import opened DeltaModel
  import opened DeltaDiff
  import opened DeltaLedger

  /** `bodyOf(type, name, version)`: what the publisher means by a version. */
  type Meaning = (string, string, string) -> Any

  ghost predicate Genuine(bodyOf: Meaning, typeUrl: string, held: Held) {
    forall n :: n in held ==> held[n].body == bodyOf(typeUrl, n, held[n].version)
  }

  ghost predicate GenuineSnapshot(bodyOf: Meaning, snap: Snapshot) {
    forall t :: Genuine(bodyOf, t, snap.Of(t))
  }

  ghost predicate GenuineLog(bodyOf: Meaning, log: seq<Delta>) {
    forall i :: 0 <= i < |log| ==> Genuine(bodyOf, log[i].typeUrl, log[i].resources)
  }

  ghost predicate GenuineHoldings(bodyOf: Meaning, holdings: map<string, Held>) {
    forall t :: Genuine(bodyOf, t, HeldOf(holdings, t))
  }

  lemma GenuineSend(bodyOf: Meaning, dialect: Dialect, st: Stream, typeUrl: string, snap: Snapshot)
    requires GenuineLog(bodyOf, st.log) && GenuineSnapshot(bodyOf, snap)
    ensures GenuineLog(bodyOf, SendDelta(dialect, st, typeUrl, snap).log)
  {
    assert Genuine(bodyOf, typeUrl, snap.Of(typeUrl));
  }

  lemma SameVersionSameEntry(bodyOf: Meaning, typeUrl: string, a: Held, b: Held, name: string)
    requires Genuine(bodyOf, typeUrl, a) && Genuine(bodyOf, typeUrl, b)
    requires Lookup(Versions(a), name) == Lookup(Versions(b), name)
    ensures Lookup(a, name) == Lookup(b, name)
  {
    assert name in a <==> name in Versions(a);
    assert name in b <==> name in Versions(b);
  }

  lemma {:induction false} GenuineReplay(bodyOf: Meaning, held: Held, log: seq<Delta>, typeUrl: string)
    requires Genuine(bodyOf, typeUrl, held) && GenuineLog(bodyOf, log)
    ensures Genuine(bodyOf, typeUrl, Replay(held, log, typeUrl))
  {
    if log != [] {
      GenuineReplay(bodyOf, held, log[..|log| - 1], typeUrl);
      assert Genuine(bodyOf, log[|log| - 1].typeUrl, log[|log| - 1].resources);
    }
  }

  // ----- skipping snapshots -----

  lemma {:induction false} GenuineTurn(bodyOf: Meaning, dialect: Dialect, st: Stream, order: seq<string>,
                                       snap: Snapshot)
    requires GenuineLog(bodyOf, st.log) && GenuineSnapshot(bodyOf, snap)
    ensures GenuineLog(bodyOf, SendAll(dialect, st, order, snap).log)
  {
    if order != [] {
      GenuineTurn(bodyOf, dialect, st, order[..|order| - 1], snap);
      GenuineSend(bodyOf, dialect, SendAll(dialect, st, order[..|order| - 1], snap), order[|order| - 1], snap);
    }
  }

  lemma {:induction false} GenuineTurns(bodyOf: Meaning, dialect: Dialect, st: Stream, turns: seq<Turn>)
    requires GenuineLog(bodyOf, st.log)
    requires forall i :: 0 <= i < |turns| ==> GenuineSnapshot(bodyOf, turns[i].snap)
    ensures GenuineLog(bodyOf, SendTurns(dialect, st, turns).log)
  {
    if turns != [] {
      GenuineTurns(bodyOf, dialect, st, turns[..|turns| - 1]);
      GenuineTurn(bodyOf, dialect, SendTurns(dialect, st, turns[..|turns| - 1]),
                  turns[|turns| - 1].order, turns[|turns| - 1].snap);
    }
  }

  /** Skipping snapshots leaves the drained client with the same resources, bodies and all. */
  lemma {:induction false} CoalescedBodies(bodyOf: Meaning, dialect: Dialect, start: map<string, Held>, st: Stream,
                                           turns: seq<Turn>, last: Turn, order: seq<string>, typeUrl: string)
    requires Ledger(start, st) && AllVisit(st.subs.Keys, turns)
    requires Elements(last.order) == Elements(order) == st.subs.Keys
    requires typeUrl in st.subs
    requires GenuineHoldings(bodyOf, start) && GenuineLog(bodyOf, st.log) && GenuineSnapshot(bodyOf, last.snap)
    requires forall i :: 0 <= i < |turns| ==> GenuineSnapshot(bodyOf, turns[i].snap)
    ensures Replay(HeldOf(start, typeUrl), SendTurns(dialect, st, turns + [last]).log, typeUrl) ==
            Replay(HeldOf(start, typeUrl), SendAll(dialect, st, order, last.snap).log, typeUrl)
  {
    CoalescedReplica(dialect, start, st, turns, last, order, typeUrl);
    GenuineTurns(bodyOf, dialect, st, turns + [last]);
    GenuineTurn(bodyOf, dialect, st, order, last.snap);
    var all := SendTurns(dialect, st, turns + [last]).log;
    var once := SendAll(dialect, st, order, last.snap).log;
    var held := HeldOf(start, typeUrl);
    assert Genuine(bodyOf, typeUrl, held);
    GenuineReplay(bodyOf, held, all, typeUrl);
    GenuineReplay(bodyOf, held, once, typeUrl);
    forall n ensures Lookup(Replay(held, all, typeUrl), n) == Lookup(Replay(held, once, typeUrl), n) {
      SameVersionSameEntry(bodyOf, typeUrl, Replay(held, all, typeUrl), Replay(held, once, typeUrl), n);
    }
    SameMap(Replay(held, all, typeUrl), Replay(held, once, typeUrl));
  }

  // ----- reconnecting -----

  ghost predicate GenuineExchanges(bodyOf: Meaning, xs: seq<Exchange>) {
    forall i :: 0 <= i < |xs| ==> GenuineSnapshot(bodyOf, xs[i].snap)
  }

  lemma {:induction false} GenuineServed(bodyOf: Meaning, dialect: Dialect, xs: seq<Exchange>)
    requires GenuineExchanges(bodyOf, xs)
    ensures GenuineLog(bodyOf, ServeAll(dialect, xs).log)
  {
    if xs != [] {
      var st := ServeAll(dialect, xs[..|xs| - 1]);
      GenuineServed(bodyOf, dialect, xs[..|xs| - 1]);
      match xs[|xs| - 1]
      case Ask(req, snap) =>
        if !req.nack {
          GenuineSend(bodyOf, dialect, Noted(st, req), req.typeUrl, snap);
        }
      case Notice(t, snap) => GenuineSend(bodyOf, dialect, st, t, snap);
    }
  }

  lemma {:induction false} SeenIsGenuine(bodyOf: Meaning, xs: seq<Exchange>, typeUrl: string)
    requires GenuineExchanges(bodyOf, xs) && LastSeen(xs, typeUrl).Some?
    ensures GenuineSnapshot(bodyOf, LastSeen(xs, typeUrl).value)
  {
    if LastSeen(xs, typeUrl) != Some(xs[|xs| - 1].snap) {
      SeenIsGenuine(bodyOf, xs[..|xs| - 1], typeUrl);
    }
  }

  /** Reconnecting and starting afresh end with the same resources, bodies and all: those of the snapshot
      the type was last compared to. */
  lemma {:induction false} ReconnectedBodies(bodyOf: Meaning, dialect: Dialect, start: map<string, Held>,
                                             xs: seq<Exchange>, typeUrl: string, name: string)
    requires ProperAll(dialect, start, xs)
    requires GenuineHoldings(bodyOf, start) && GenuineExchanges(bodyOf, xs)
    requires typeUrl in ServeAll(dialect, xs).subs
    requires Matches(dialect, ServeAll(dialect, xs).Sub(typeUrl), name)
    ensures LastSeen(xs, typeUrl).Some?
    ensures var again := Replay(HeldOf(start, typeUrl), ServeAll(dialect, xs).log, typeUrl);
            var anew := Replay(map[], ServeAll(dialect, AfreshAll(xs)).log, typeUrl);
            && Lookup(again, name) == Lookup(anew, name)
            && Lookup(again, name) == Lookup(LastSeen(xs, typeUrl).value.Of(typeUrl), name)
  {
    ReconnectEqualsFreshStart(dialect, start, xs, typeUrl, name);
    SeenIsGenuine(bodyOf, xs, typeUrl);
    GenuineServed(bodyOf, dialect, xs);
    forall i | 0 <= i < |xs| ensures AfreshAll(xs)[i].snap == xs[i].snap {}
    GenuineServed(bodyOf, dialect, AfreshAll(xs));
    assert Genuine(bodyOf, typeUrl, HeldOf(start, typeUrl));
    assert Genuine(bodyOf, typeUrl, LastSeen(xs, typeUrl).value.Of(typeUrl));
    GenuineReplay(bodyOf, HeldOf(start, typeUrl), ServeAll(dialect, xs).log, typeUrl);
    GenuineReplay(bodyOf, map[], ServeAll(dialect, AfreshAll(xs)).log, typeUrl);
    var again := Replay(HeldOf(start, typeUrl), ServeAll(dialect, xs).log, typeUrl);
    var anew := Replay(map[], ServeAll(dialect, AfreshAll(xs)).log, typeUrl);
    SameVersionSameEntry(bodyOf, typeUrl, again, LastSeen(xs, typeUrl).value.Of(typeUrl), name);
    SameVersionSameEntry(bodyOf, typeUrl, again, anew, name);
  }
}
