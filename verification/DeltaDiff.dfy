/** What one `send_delta` does: the response is exactly the disagreement between what the client was
    told and the snapshot, and afterwards there is none. */
module DeltaDiff {
  import opened Text
  import opened Maps
  import opened DeltaModel

  /** What was told of `name` is what the snapshot has: same version, or absent from both. */
  ghost predicate Agrees(told: map<string, string>, current: map<string, Entry>, name: string) {
    Lookup(told, name) == Lookup(Versions(current), name)
  }

  /** On all the names it subscribes to, the stream has been told what `snap` has. */
  ghost predicate Synced(dialect: Dialect, st: Stream, typeUrl: string, snap: Snapshot) {
    forall n :: Matches(dialect, st.Sub(typeUrl), n) ==> Agrees(st.Sent(typeUrl), snap.Of(typeUrl), n)
  }

  lemma ToldAfterSend(dialect: Dialect, st: Stream, typeUrl: string, snap: Snapshot)
    ensures var st' := SendDelta(dialect, st, typeUrl, snap);
            && st'.Sub(typeUrl) == st.Sub(typeUrl)
            && (forall n :: Lookup(st'.Sent(typeUrl), n) ==
                            if Matches(dialect, st.Sub(typeUrl), n)
                            then Lookup(Versions(snap.Of(typeUrl)), n)
                            else Lookup(st.Sent(typeUrl), n))
  {
    var sub, told, current := st.Sub(typeUrl), st.Sent(typeUrl), snap.Of(typeUrl);
    var resources := Changed(dialect, sub, told, current);
    var removed := Vanished(dialect, sub, told, current);
    var told' := SendDelta(dialect, st, typeUrl, snap).Sent(typeUrl);
    assert resources == map[] && removed == {} ==> told' == told;
    forall n
      ensures Lookup(told', n) == if Matches(dialect, sub, n) then Lookup(Versions(current), n) else Lookup(told, n)
    {
      assert n in resources <==>
             n in current && Matches(dialect, sub, n) && Lookup(told, n) != Some(current[n].version);
      assert n in removed <==> n in told && Matches(dialect, sub, n) && n !in current;
    }
  }

  lemma SendSyncs(dialect: Dialect, st: Stream, typeUrl: string, snap: Snapshot)
    ensures Synced(dialect, SendDelta(dialect, st, typeUrl, snap), typeUrl, snap)
  {
    ToldAfterSend(dialect, st, typeUrl, snap);
  }

  lemma SendKeepsOthers(dialect: Dialect, st: Stream, typeUrl: string, snap: Snapshot, other: string)
    requires other != typeUrl
    ensures SendDelta(dialect, st, typeUrl, snap).Sub(other) == st.Sub(other)
    ensures SendDelta(dialect, st, typeUrl, snap).Sent(other) == st.Sent(other)
    ensures other in SendDelta(dialect, st, typeUrl, snap).subs <==> other in st.subs
    ensures other in SendDelta(dialect, st, typeUrl, snap).sent <==> other in st.sent
  {
  }

  /** A synced type has nothing to send: the stream does not move. */
  lemma SyncedIsSilent(dialect: Dialect, st: Stream, typeUrl: string, snap: Snapshot)
    requires typeUrl in st.subs && typeUrl in st.sent
    ensures Synced(dialect, st, typeUrl, snap) <==> SendDelta(dialect, st, typeUrl, snap) == st
  {
    var sub, told, current := st.Sub(typeUrl), st.Sent(typeUrl), snap.Of(typeUrl);
    if Synced(dialect, st, typeUrl, snap) {
      forall n | Matches(dialect, sub, n) ensures Agrees(told, current, n) {}
      assert Changed(dialect, sub, told, current) == map[] by {
        forall n | n in current && Matches(dialect, sub, n) ensures Lookup(told, n) == Some(current[n].version) {
          assert Agrees(told, current, n);
        }
      }
      assert Vanished(dialect, sub, told, current) == {} by {
        forall n | n in told && Matches(dialect, sub, n) ensures n in current {
          assert Agrees(told, current, n);
        }
      }
      assert st.subs[typeUrl := sub] == st.subs;
      assert st.sent[typeUrl := told] == st.sent;
    } else if SendDelta(dialect, st, typeUrl, snap) == st {
      SendSyncs(dialect, st, typeUrl, snap);
    }
  }

  /** The response, when there is one, and the condition for there being one. */
  lemma {:induction false} ExactDifference(dialect: Dialect, st: Stream, typeUrl: string, snap: Snapshot)
    ensures var sub, told, current := st.Sub(typeUrl), st.Sent(typeUrl), snap.Of(typeUrl);
            var st' := SendDelta(dialect, st, typeUrl, snap);
            if forall n :: Matches(dialect, sub, n) ==> Agrees(told, current, n) then
              st'.log == st.log && st'.nonceCtr == st.nonceCtr
            else
              && |st'.log| == |st.log| + 1 && st'.log[..|st.log|] == st.log
              && var m := st'.log[|st.log|];
              && m.typeUrl == typeUrl && m.systemVersion == snap.systemVersion
              && (forall n :: n in m.resources || n in m.removed <==>
                              Matches(dialect, sub, n) && !Agrees(told, current, n))
              && (forall n :: n in m.resources ==> n !in m.removed && n in current && m.resources[n] == current[n])
              && (forall n :: n in m.removed ==> n in told && n !in current)
    ensures var st' := SendDelta(dialect, st, typeUrl, snap);
            SendDelta(dialect, st', typeUrl, snap) == st'
  {
    var sub, told, current := st.Sub(typeUrl), st.Sent(typeUrl), snap.Of(typeUrl);
    var resources := Changed(dialect, sub, told, current);
    var removed := Vanished(dialect, sub, told, current);
    var st' := SendDelta(dialect, st, typeUrl, snap);
    forall n ensures n in resources || n in removed <==> Matches(dialect, sub, n) && !Agrees(told, current, n) {}
    if forall n :: Matches(dialect, sub, n) ==> Agrees(told, current, n) {
      assert resources == map[];
      assert removed == {};
    } else {
      var n :| Matches(dialect, sub, n) && !Agrees(told, current, n);
      assert n in resources || n in removed;
    }
    SendSyncs(dialect, st, typeUrl, snap);
    SyncedIsSilent(dialect, st', typeUrl, snap);
  }

  // ----- skipping snapshots -----

  /** One turn of the watch arm: the types in the order in which the loop meets them, and the snapshot. */
  datatype Turn = Turn(order: seq<string>, snap: Snapshot)

  function SendTurns(dialect: Dialect, st: Stream, turns: seq<Turn>): Stream {
    if turns == [] then st
    else
      var turn := turns[|turns| - 1];
      SendAll(dialect, SendTurns(dialect, st, turns[..|turns| - 1]), turn.order, turn.snap)
  }

  /** Each turn visits the types subscribed to. */
  ghost predicate AllVisit(types: set<string>, turns: seq<Turn>) {
    forall i :: 0 <= i < |turns| ==> Elements(turns[i].order) == types
  }

  /** What a turn makes of a type: on the types it visits, the matching names are as in the snapshot; the
      rest stands. */
  lemma {:induction false} ToldAfterTurn(dialect: Dialect, st: Stream, order: seq<string>, snap: Snapshot,
                                         typeUrl: string)
    ensures var st' := SendAll(dialect, st, order, snap);
            && st'.Sub(typeUrl) == st.Sub(typeUrl)
            && (typeUrl in order ==> typeUrl in st'.sent && typeUrl in st'.subs)
            && (typeUrl !in order ==>
                  Lookup(st'.sent, typeUrl) == Lookup(st.sent, typeUrl) &&
                  Lookup(st'.subs, typeUrl) == Lookup(st.subs, typeUrl))
            && (forall n :: Lookup(st'.Sent(typeUrl), n) ==
                            if typeUrl in order && Matches(dialect, st.Sub(typeUrl), n)
                            then Lookup(Versions(snap.Of(typeUrl)), n)
                            else Lookup(st.Sent(typeUrl), n))
  {
    if order != [] {
      var before, t := order[..|order| - 1], order[|order| - 1];
      assert before + [t] == order;
      ToldAfterTurn(dialect, st, before, snap, typeUrl);
      var mid := SendAll(dialect, st, before, snap);
      if t == typeUrl {
        ToldAfterSend(dialect, mid, t, snap);
      } else {
        SendKeepsOthers(dialect, mid, t, snap, typeUrl);
      }
    }
  }

  /** Turns leave alone what the subscriptions do not match. */
  lemma {:induction false} TurnsKeepUnmatched(dialect: Dialect, st: Stream, turns: seq<Turn>, typeUrl: string)
    requires AllVisit(st.subs.Keys, turns)
    ensures var st' := SendTurns(dialect, st, turns);
            && st'.Sub(typeUrl) == st.Sub(typeUrl)
            && (forall n :: !Matches(dialect, st.Sub(typeUrl), n) ==>
                            Lookup(st'.Sent(typeUrl), n) == Lookup(st.Sent(typeUrl), n))
            && (typeUrl !in st.subs ==> Lookup(st'.sent, typeUrl) == Lookup(st.sent, typeUrl))
            && Lookup(st'.subs, typeUrl) == Lookup(st.subs, typeUrl)
  {
    if turns != [] {
      hide SendAll, Matches, Versions;
      var before, turn := turns[..|turns| - 1], turns[|turns| - 1];
      TurnsKeepUnmatched(dialect, st, before, typeUrl);
      ToldAfterTurn(dialect, SendTurns(dialect, st, before), turn.order, turn.snap, typeUrl);
      assert typeUrl in turn.order <==> typeUrl in Elements(turn.order);
    }
  }

  /** The watch channel may drop all the snapshots but the last: over all the types, and whatever the orders
      in which the loops meet them, the stream remembers the same. */
  lemma {:induction false} CoalescingLosesNothing(dialect: Dialect, st: Stream, turns: seq<Turn>, last: Turn,
                                                  order: seq<string>)
    requires AllVisit(st.subs.Keys, turns)
    requires Elements(last.order) == Elements(order) == st.subs.Keys
    ensures var all := SendTurns(dialect, st, turns + [last]);
            var once := SendAll(dialect, st, order, last.snap);
            all.sent == once.sent && all.subs == once.subs == st.subs
  {
    hide SendAll, Matches, Versions;
    var all := SendTurns(dialect, st, turns + [last]);
    var once := SendAll(dialect, st, order, last.snap);
    assert (turns + [last])[..|turns|] == turns;
    forall t
      ensures Lookup(all.sent, t) == Lookup(once.sent, t)
      ensures Lookup(all.subs, t) == Lookup(once.subs, t) == Lookup(st.subs, t)
    {
      TurnsKeepUnmatched(dialect, st, turns, t);
      ToldAfterTurn(dialect, SendTurns(dialect, st, turns), last.order, last.snap, t);
      ToldAfterTurn(dialect, st, order, last.snap, t);
      assert t in order <==> t in Elements(order);
      assert t in last.order <==> t in Elements(last.order);
      if t in order {
        SameMap(all.Sent(t), once.Sent(t));
      }
    }
    SameMap(all.sent, once.sent);
    SameMap(all.subs, once.subs);
    SameMap(once.subs, st.subs);
  }
}
