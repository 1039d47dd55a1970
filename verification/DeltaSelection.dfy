/** What a subscription brings its client, over every run: all that it selects and nothing else. The
    statements name neither the server's test nor its expansion. */
module DeltaSelection {
  import opened Maps
  import opened DeltaModel
  import opened DeltaDiff
  import opened DeltaLedger
  import opened DeltaReplica

  // ----- the watch cell -----

  /** The last snapshot published, starting with `first`. */
  function LastPublished(first: Snapshot, evs: seq<Event>): Snapshot {
    if evs == [] then first
    else if evs[|evs| - 1].Publish? then evs[|evs| - 1].snap
    else LastPublished(first, evs[..|evs| - 1])
  }

  function Publications(evs: seq<Event>): nat {
    if evs == [] then 0
    else Publications(evs[..|evs| - 1]) + if evs[|evs| - 1].Publish? then 1 else 0
  }

  /** In every run what is advertised is the last publication, and every publication counts as a change. */
  lemma {:induction false} AdvertisedIsLastPublished(dialect: Dialect, value: Snapshot, writes: nat,
                                                     start: map<string, Held>, evs: seq<Event>)
    ensures var s := After(dialect, Open(value, writes, start), evs);
            s.value == LastPublished(value, evs) && s.writes == writes + Publications(evs)
  {
    if evs != [] {
      hide HandleRequest, SendDelta;
      AdvertisedIsLastPublished(dialect, value, writes, start, evs[..|evs| - 1]);
    }
  }

  // ----- all that is selected -----

  /** The client has read everything, and the stream has nothing to look at or to push for the type. */
  predicate Quiet(s: System, typeUrl: string) {
    && s.seen == s.writes && (s.phase.Pushing? ==> typeUrl !in s.phase.todo)
    && s.delivered == |s.stream.log| && typeUrl in s.stream.subs
  }

  lemma SelectedArrives(dialect: Dialect, value: Snapshot, writes: nat, start: map<string, Held>, evs: seq<Event>,
                        typeUrl: string, name: string)
    requires var s := After(dialect, Open(value, writes, start), evs);
             Quiet(s, typeUrl) && Selected(dialect, s.stream.Sub(typeUrl), name)
    ensures var s := After(dialect, Open(value, writes, start), evs);
            Lookup(Versions(HeldOf(s.held, typeUrl)), name) ==
            Lookup(Versions(LastPublished(value, evs).Of(typeUrl)), name)
  {
    ConvergedInFlight(dialect, value, writes, start, evs, typeUrl, name);
    AdvertisedIsLastPublished(dialect, value, writes, start, evs);
    assert InFlight(After(dialect, Open(value, writes, start), evs)) == [];
  }

  /** In every run a quiet client with a wildcard subscription holds just the names of the last publication,
      each at its version. */
  lemma {:induction false} WildcardGetsAll(dialect: Dialect, value: Snapshot, writes: nat,
                                           start: map<string, Held>, evs: seq<Event>, typeUrl: string)
    requires var s := After(dialect, Open(value, writes, start), evs);
             Quiet(s, typeUrl) && s.stream.Sub(typeUrl).wildcard
    ensures var held := HeldOf(After(dialect, Open(value, writes, start), evs).held, typeUrl);
            var current := LastPublished(value, evs).Of(typeUrl);
            && held.Keys == current.Keys
            && forall n :: n in held && n in current ==> held[n].version == current[n].version
  {
    hide After, LastPublished;
    var held := HeldOf(After(dialect, Open(value, writes, start), evs).held, typeUrl);
    var current := LastPublished(value, evs).Of(typeUrl);
    forall n ensures Lookup(Versions(held), n) == Lookup(Versions(current), n) {
      SelectedArrives(dialect, value, writes, start, evs, typeUrl, n);
    }
    SameMap(Versions(held), Versions(current));
    assert held.Keys == Versions(held).Keys && current.Keys == Versions(current).Keys;
  }

  /** In every run of chapter 5 a quiet client that subscribes to `p*` holds, of the names that start with
      `p`, just those of the last publication, each at its version. */
  lemma {:induction false} CollectionGetsAll(value: Snapshot, writes: nat, start: map<string, Held>, evs: seq<Event>,
                                             typeUrl: string, p: string)
    requires var s := After(Glob, Open(value, writes, start), evs);
             Quiet(s, typeUrl) && p + "*" in s.stream.Sub(typeUrl).names
    ensures var held := HeldOf(After(Glob, Open(value, writes, start), evs).held, typeUrl);
            var current := LastPublished(value, evs).Of(typeUrl);
            forall n :: p <= n ==>
              && (n in held <==> n in current)
              && (n in held && n in current ==> held[n].version == current[n].version)
  {
    hide After, LastPublished;
    var held := HeldOf(After(Glob, Open(value, writes, start), evs).held, typeUrl);
    var current := LastPublished(value, evs).Of(typeUrl);
    forall n | p <= n
      ensures (n in held <==> n in current) && Lookup(Versions(held), n) == Lookup(Versions(current), n)
    {
      SelectedArrives(Glob, value, writes, start, evs, typeUrl, n);
      assert n in held <==> n in Versions(held);
      assert n in current <==> n in Versions(current);
    }
    forall n | p <= n && n in held && n in current ensures held[n].version == current[n].version {
      assert Lookup(Versions(held), n) == Lookup(Versions(current), n);
    }
  }

  /** In every run a quiet client that subscribes to a name has it just when the last publication does, at
      its version. */
  lemma {:induction false} NameArrives(dialect: Dialect, value: Snapshot, writes: nat, start: map<string, Held>,
                                       evs: seq<Event>, typeUrl: string, name: string)
    requires var s := After(dialect, Open(value, writes, start), evs);
             Quiet(s, typeUrl) && name in s.stream.Sub(typeUrl).names
    ensures var held := HeldOf(After(dialect, Open(value, writes, start), evs).held, typeUrl);
            var current := LastPublished(value, evs).Of(typeUrl);
            && (name in held <==> name in current)
            && (name in held && name in current ==> held[name].version == current[name].version)
  {
    hide After, LastPublished;
    SelectedArrives(dialect, value, writes, start, evs, typeUrl, name);
    var held := HeldOf(After(dialect, Open(value, writes, start), evs).held, typeUrl);
    var current := LastPublished(value, evs).Of(typeUrl);
    assert name in held <==> name in Versions(held);
    assert name in current <==> name in Versions(current);
  }

  // ----- and nothing else -----

  /** The response is about names that the subscription selects and no others. */
  ghost predicate KeepsTo(dialect: Dialect, sub: TypeSub, m: Delta) {
    forall n :: n in m.resources || n in m.removed ==>
      || sub.wildcard
      || n in sub.names
      || (dialect.Glob? && exists p: string :: p + "*" in sub.names && p <= n)
  }

  lemma SendKeepsTo(dialect: Dialect, st: Stream, typeUrl: string, snap: Snapshot)
    ensures var st' := SendDelta(dialect, st, typeUrl, snap);
            forall i :: |st.log| <= i < |st'.log| ==>
              && st'.log[i].typeUrl == typeUrl
              && st'.Sub(typeUrl) == st.Sub(typeUrl)
              && KeepsTo(dialect, st'.Sub(typeUrl), st'.log[i])
  {
    ExactDifference(dialect, st, typeUrl, snap);
    ToldAfterSend(dialect, st, typeUrl, snap);
    hide SendDelta, Matches;
    forall n ensures Matches(dialect, st.Sub(typeUrl), n) <==> Selected(dialect, st.Sub(typeUrl), n) {
      MatchesIsSelected(dialect, st.Sub(typeUrl), n);
    }
  }

  lemma StepKeepsTo(dialect: Dialect, s: System, ev: Event)
    ensures var st' := Step(dialect, s, ev).stream;
            forall i :: |s.stream.log| <= i < |st'.log| ==> KeepsTo(dialect, st'.Sub(st'.log[i].typeUrl), st'.log[i])
  {
    hide SendDelta, KeepsTo;
    if Enabled(s, ev) {
      match ev
      case Answer =>
        if !s.requests[0].nack {
          SendKeepsTo(dialect, Noted(s.stream, s.requests[0]), s.requests[0].typeUrl, s.value);
        }
      case Push(t) => SendKeepsTo(dialect, s.stream, t, s.phase.snap);
      case _ =>
    }
  }

  /** In every run each response was sent by some step of it, and is about nothing but names that the
      subscription to its type selected at that step: listed, under a listed prefix in chapter 5, or any
      with the wildcard. */
  lemma {:induction false} NothingUnasked(dialect: Dialect, value: Snapshot, writes: nat, start: map<string, Held>,
                                          evs: seq<Event>, i: nat) returns (k: nat)
    requires i < |After(dialect, Open(value, writes, start), evs).stream.log|
    ensures k < |evs|
    ensures var before := After(dialect, Open(value, writes, start), evs[..k]).stream;
            var after := After(dialect, Open(value, writes, start), evs[..k + 1]).stream;
            var m := After(dialect, Open(value, writes, start), evs).stream.log[i];
            && |before.log| <= i < |after.log| && after.log[i] == m
            && KeepsTo(dialect, after.Sub(m.typeUrl), m)
  {
    hide Step, KeepsTo;
    var s0, last := Open(value, writes, start), |evs| - 1;
    var mid := After(dialect, s0, evs[..last]);
    LogOnlyGrows(dialect, mid, evs[last]);
    if i < |mid.stream.log| {
      k := NothingUnasked(dialect, value, writes, start, evs[..last], i);
      assert evs[..last][..k] == evs[..k] && evs[..last][..k + 1] == evs[..k + 1];
    } else {
      k := last;
      StepKeepsTo(dialect, mid, evs[last]);
      assert evs[..k + 1] == evs;
    }
  }
}
