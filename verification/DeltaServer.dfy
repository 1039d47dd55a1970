/** The Delta stream loop of chapters 4 and 5 as it runs: maps updated in place, lists grown by loops.
    Each method is proved to do what `DeltaModel` says, whatever order the hash maps are walked in. */
module DeltaServer {
  import opened Text
  import opened Maps
  import opened Config
  import opened DeltaModel

  datatype Resource = Resource(name: string, version: string, body: Any)

  /** A response as it goes over the wire. */
  datatype DeltaResponse = DeltaResponse(systemVersionInfo: string, resources: seq<Resource>, typeUrl: string,
                                         removedResources: seq<string>, nonce: string)

  // ----- the content of a response -----

  function Names(rs: seq<Resource>): seq<string> {
    seq(|rs|, i requires 0 <= i < |rs| => rs[i].name)
  }

  /** The resources by name; a later one in the list replaces an earlier one. */
  function Catalogue(rs: seq<Resource>): map<string, Entry> {
    if rs == [] then map[]
    else
      var r := rs[|rs| - 1];
      Catalogue(rs[..|rs| - 1])[r.name := Entry(r.version, r.body)]
  }

  function Content(resp: DeltaResponse): Delta {
    Delta(resp.typeUrl, resp.systemVersionInfo, Catalogue(resp.resources), Elements(resp.removedResources), resp.nonce)
  }

  function Contents(wire: seq<DeltaResponse>): seq<Delta> {
    seq(|wire|, i requires 0 <= i < |wire| => Content(wire[i]))
  }

  /** Each name is listed once, and never both as a resource and as removed. Chapter 5 lists the
      resources in the order of their names. */
  ghost predicate WellFormed(dialect: Dialect, resp: DeltaResponse) {
    && Distinct(Names(resp.resources)) && Distinct(resp.removedResources)
    && Elements(Names(resp.resources)) !! Elements(resp.removedResources)
    && (dialect.Glob? ==> StrictlySorted(Names(resp.resources)))
  }

  ghost predicate AllWellFormed(dialect: Dialect, wire: seq<DeltaResponse>) {
    forall i :: 0 <= i < |wire| ==> WellFormed(dialect, wire[i])
  }

  lemma CatalogueAppend(rs: seq<Resource>, r: Resource)
    ensures Catalogue(rs + [r]) == Catalogue(rs)[r.name := Entry(r.version, r.body)]
    ensures Names(rs + [r]) == Names(rs) + [r.name]
  {
    assert (rs + [r])[..|rs|] == rs;
  }

  lemma {:induction false} CatalogueNames(rs: seq<Resource>)
    ensures Catalogue(rs).Keys == Elements(Names(rs))
  {
    if rs != [] {
      var before := rs[..|rs| - 1];
      CatalogueNames(before);
      CatalogueAppend(before, rs[|rs| - 1]);
      assert before + [rs[|rs| - 1]] == rs;
    }
  }

  lemma OneMore(dialect: Dialect, wire: seq<DeltaResponse>, resp: DeltaResponse)
    requires AllWellFormed(dialect, wire) && WellFormed(dialect, resp)
    ensures AllWellFormed(dialect, wire + [resp])
    ensures Contents(wire + [resp]) == Contents(wire) + [Content(resp)]
  {
    forall i | 0 <= i < |wire + [resp]| ensures WellFormed(dialect, (wire + [resp])[i]) {
      assert i < |wire| ==> (wire + [resp])[i] == wire[i];
    }
  }

  // ----- the names wanted -----

  /** Names of the type that start with `prefix`. */
  method NamesWithPrefix(snap: Snapshot, typeUrl: string, prefix: string) returns (names: seq<string>)
    ensures Elements(names) == set n | n in snap.Of(typeUrl) && StartsWith(n, prefix)
  {
    var keys := Walk(snap.Of(typeUrl).Keys);
    names := [];
    for i := 0 to |keys|
      invariant Elements(names) == set n | n in keys[..i] && StartsWith(n, prefix)
    {
      assert keys[..i + 1] == keys[..i] + [keys[i]];
      if StartsWith(keys[i], prefix) {
        ElementsAppend(names, keys[i]);
        names := names + [keys[i]];
      }
    }
    assert keys[..|keys|] == keys;
    assert Elements(names) == set n | n in Elements(keys) && StartsWith(n, prefix);
  }

  /** The names of the snapshot that the subscription selects, as the loops find them. */
  ghost predicate Resolves(dialect: Dialect, sub: TypeSub, current: map<string, Entry>, wanted: seq<string>) {
    forall n :: n in current ==> (n in wanted <==> Selected(dialect, sub, n))
  }

  /** Chapter 4: all the names, or the ones subscribed to. */
  method WantedExact(sub: TypeSub, snap: Snapshot, typeUrl: string) returns (wanted: seq<string>)
    ensures Distinct(wanted)
    ensures Resolves(Exact, sub, snap.Of(typeUrl), wanted)
  {
    if sub.wildcard {
      wanted := Walk(snap.Of(typeUrl).Keys);
    } else {
      wanted := Walk(sub.names);
    }
    forall n | n in snap.Of(typeUrl) ensures n in wanted <==> Selected(Exact, sub, n) {
      assert n in wanted <==> n in Elements(wanted);
    }
  }

  /** The names that the loop over the first `i` subscriptions adds. */
  ghost predicate Expanded(current: map<string, Entry>, subscribed: seq<string>, all: bool, wanted: seq<string>) {
    forall n :: n in current ==>
      (n in wanted <==> all || exists k :: 0 <= k < |subscribed| && Covers(subscribed[k], n))
  }

  lemma ExpandedAppend(current: map<string, Entry>, subscribed: seq<string>, all: bool, wanted: seq<string>,
                       s: string, more: seq<string>)
    requires Expanded(current, subscribed, all, wanted)
    requires forall n :: n in current ==> (n in more <==> Covers(s, n))
    ensures Expanded(current, subscribed + [s], all, wanted + more)
  {
    var next := subscribed + [s];
    forall n | n in current
      ensures n in wanted + more <==> all || exists k :: 0 <= k < |next| && Covers(next[k], n)
    {
      assert next[|subscribed|] == s;
      if k :| 0 <= k < |subscribed| && Covers(subscribed[k], n) {
        assert next[k] == subscribed[k];
      }
    }
  }

  /** Chapter 5: globs expanded over the snapshot, then sorted, without repetitions. */
  method WantedGlob(sub: TypeSub, snap: Snapshot, typeUrl: string) returns (wanted: seq<string>)
    ensures StrictlySorted(wanted)
    ensures Resolves(Glob, sub, snap.Of(typeUrl), wanted)
  {
    var current := snap.Of(typeUrl);
    wanted := [];
    if sub.wildcard {
      var all := Walk(current.Keys);
      wanted := wanted + all;
      assert forall n :: n in wanted <==> n in Elements(all);
    }
    var subscribed := Walk(sub.names);
    for i := 0 to |subscribed|
      invariant Expanded(current, subscribed[..i], sub.wildcard, wanted)
    {
      var more;
      match StripStar(subscribed[i]) {
        case Some(prefix) =>
          more := NamesWithPrefix(snap, typeUrl, prefix);
          assert forall n :: n in more <==> n in Elements(more);
        case None => more := [subscribed[i]];
      }
      ExpandedAppend(current, subscribed[..i], sub.wildcard, wanted, subscribed[i], more);
      assert subscribed[..i + 1] == subscribed[..i] + [subscribed[i]];
      wanted := wanted + more;
    }
    assert subscribed[..|subscribed|] == subscribed;
    SortDedup(wanted);
    var found := wanted;
    wanted := Dedup(Sort(wanted));
    forall n | n in current ensures n in wanted <==> Selected(Glob, sub, n) {
      MatchesIsSelected(Glob, sub, n);
      assert n in wanted <==> n in Elements(found);
      if s :| s in sub.names && Covers(s, n) {
        assert s in Elements(subscribed);
      }
      assert forall k :: 0 <= k < |subscribed| ==> subscribed[k] in Elements(subscribed);
    }
  }

  // ----- one send -----

  function Differing(wanted: seq<string>, current: map<string, Entry>, told: map<string, string>): map<string, Entry> {
    map n | n in wanted && n in current && Lookup(told, n) != Some(current[n].version) :: current[n]
  }

  predicate Differs(name: string, current: map<string, Entry>, told: map<string, string>) {
    name in current && Lookup(told, name) != Some(current[name].version)
  }

  /** The names of the list that the client is to be told of, in its order. */
  function Telling(wanted: seq<string>, current: map<string, Entry>, told: map<string, string>): seq<string> {
    if wanted == [] then []
    else
      var name := wanted[|wanted| - 1];
      Telling(wanted[..|wanted| - 1], current, told) + if Differs(name, current, told) then [name] else []
  }

  /** A list of names drawn from the front of `wanted`, in its order. */
  ghost predicate DrawnFrom(names: seq<string>, wanted: seq<string>, i: nat)
    requires i <= |wanted|
  {
    && Distinct(names) && (Sorted(wanted) ==> Sorted(names))
    && (forall j :: 0 <= j < |names| ==> names[j] in wanted[..i])
  }

  lemma DrawNext(names: seq<string>, wanted: seq<string>, i: nat, take: bool)
    requires i < |wanted| && Distinct(wanted) && DrawnFrom(names, wanted, i)
    ensures DrawnFrom(if take then names + [wanted[i]] else names, wanted, i + 1)
  {
    assert wanted[..i + 1] == wanted[..i] + [wanted[i]];
    forall j | 0 <= j < |names| ensures names[j] != wanted[i] && (Sorted(wanted) ==> Le(names[j], wanted[i])) {
      var k :| 0 <= k < i && wanted[..i][k] == names[j];
    }
  }

  lemma DifferingNext(before: seq<string>, name: string, current: map<string, Entry>, told: map<string, string>)
    ensures Differing(before + [name], current, told) ==
            if name in current && Lookup(told, name) != Some(current[name].version)
            then Differing(before, current, told)[name := current[name]]
            else Differing(before, current, told)
  {
    forall n ensures n in before + [name] <==> n in before || n == name {}
  }

  /** What the loop over the first `i` wanted names has collected. */
  ghost predicate Collected(resources: seq<Resource>, wanted: seq<string>, i: nat, current: map<string, Entry>,
                            told: map<string, string>)
    requires i <= |wanted|
  {
    && Names(resources) == Telling(wanted[..i], current, told)
    && Catalogue(resources) == Differing(wanted[..i], current, told)
    && DrawnFrom(Names(resources), wanted, i)
  }

  function Collect(resources: seq<Resource>, name: string, current: map<string, Entry>, told: map<string, string>)
    : seq<Resource>
  {
    if Differs(name, current, told) then resources + [Resource(name, current[name].version, current[name].body)]
    else resources
  }

  lemma CollectNext(resources: seq<Resource>, wanted: seq<string>, i: nat, current: map<string, Entry>,
                    told: map<string, string>)
    requires i < |wanted| && Distinct(wanted) && Collected(resources, wanted, i, current, told)
    ensures Collected(Collect(resources, wanted[i], current, told), wanted, i + 1, current, told)
  {
    hide DrawnFrom, Catalogue, Differing, Names;
    var name := wanted[i];
    assert wanted[..i + 1] == wanted[..i] + [name];
    assert wanted[..i + 1][..i] == wanted[..i];
    DifferingNext(wanted[..i], name, current, told);
    DrawNext(Names(resources), wanted, i, Differs(name, current, told));
    if Differs(name, current, told) {
      CatalogueAppend(resources, Resource(name, current[name].version, current[name].body));
    }
  }

  lemma CollectedAll(resources: seq<Resource>, wanted: seq<string>, current: map<string, Entry>,
                     told: map<string, string>)
    requires Collected(resources, wanted, |wanted|, current, told)
    ensures Catalogue(resources) == Differing(wanted, current, told)
    ensures Names(resources) == Telling(wanted, current, told)
    ensures Distinct(Names(resources)) && (Sorted(wanted) ==> Sorted(Names(resources)))
  {
    hide Catalogue, Differing, Names, Telling;
    assert wanted[..|wanted|] == wanted;
  }

  method Additions(wanted: seq<string>, current: map<string, Entry>, told: map<string, string>)
    returns (resources: seq<Resource>)
    requires Distinct(wanted)
    ensures Catalogue(resources) == Differing(wanted, current, told)
    ensures Names(resources) == Telling(wanted, current, told)
    ensures Distinct(Names(resources)) && (Sorted(wanted) ==> Sorted(Names(resources)))
  {
    resources := [];
    assert Names(resources) == [];
    assert Collected(resources, wanted, 0, current, told);
    hide Collected, Catalogue, Differing, Names, Telling, Sorted;
    for i := 0 to |wanted|
      invariant Collected(resources, wanted, i, current, told)
    {
      CollectNext(resources, wanted, i, current, told);
      var name := wanted[i];
      if name in current && Lookup(told, name) != Some(current[name].version) {
        resources := resources + [Resource(name, current[name].version, current[name].body)];
      }
    }
    CollectedAll(resources, wanted, current, told);
  }

  function Gone(keys: seq<string>, dialect: Dialect, sub: TypeSub, current: map<string, Entry>): set<string> {
    set n | n in keys && Matches(dialect, sub, n) && n !in current
  }

  lemma GoneNext(before: seq<string>, name: string, dialect: Dialect, sub: TypeSub, current: map<string, Entry>)
    ensures Gone(before + [name], dialect, sub, current) ==
            Gone(before, dialect, sub, current)
            + if Matches(dialect, sub, name) && name !in current then {name} else {}
  {
    forall n ensures n in before + [name] <==> n in before || n == name {}
  }

  /** What the loop over the first `i` told names has found. */
  ghost predicate Found(removed: seq<string>, keys: seq<string>, i: nat, dialect: Dialect, sub: TypeSub,
                        current: map<string, Entry>)
    requires i <= |keys|
  {
    Elements(removed) == Gone(keys[..i], dialect, sub, current) && DrawnFrom(removed, keys, i)
  }

  lemma FindNext(removed: seq<string>, keys: seq<string>, i: nat, dialect: Dialect, sub: TypeSub,
                 current: map<string, Entry>)
    requires i < |keys| && Distinct(keys) && Found(removed, keys, i, dialect, sub, current)
    ensures Found(if Matches(dialect, sub, keys[i]) && keys[i] !in current then removed + [keys[i]] else removed,
                  keys, i + 1, dialect, sub, current)
  {
    hide DrawnFrom, Gone, Matches, Elements;
    GoneNext(keys[..i], keys[i], dialect, sub, current);
    assert keys[..i + 1] == keys[..i] + [keys[i]];
    DrawNext(removed, keys, i, Matches(dialect, sub, keys[i]) && keys[i] !in current);
    ElementsAppend(removed, keys[i]);
  }

  lemma FoundAll(removed: seq<string>, keys: seq<string>, dialect: Dialect, sub: TypeSub,
                 told: map<string, string>, current: map<string, Entry>)
    requires Found(removed, keys, |keys|, dialect, sub, current) && Elements(keys) == told.Keys
    ensures Elements(removed) == Vanished(dialect, sub, told, current) && Distinct(removed)
  {
    hide Matches;
    assert keys[..|keys|] == keys;
    assert forall n :: n in keys <==> n in Elements(keys);
  }

  method Removals(dialect: Dialect, sub: TypeSub, current: map<string, Entry>, told: map<string, string>)
    returns (removed: seq<string>)
    ensures Elements(removed) == Vanished(dialect, sub, told, current)
    ensures Distinct(removed)
  {
    hide Matches, Vanished;
    var keys := Walk(told.Keys);
    removed := [];
    assert Found(removed, keys, 0, dialect, sub, current);
    hide Found, Elements;
    for i := 0 to |keys|
      invariant Found(removed, keys, i, dialect, sub, current)
    {
      FindNext(removed, keys, i, dialect, sub, current);
      if Matches(dialect, sub, keys[i]) && keys[i] !in current {
        removed := removed + [keys[i]];
      }
    }
    FoundAll(removed, keys, dialect, sub, told, current);
  }

  lemma RecordResource(told: map<string, string>, before: seq<Resource>, r: Resource)
    ensures told + Versions(Catalogue(before + [r])) == (told + Versions(Catalogue(before)))[r.name := r.version]
  {
    CatalogueAppend(before, r);
  }

  lemma RecordRemoval(told: map<string, string>, before: seq<string>, name: string)
    ensures told - Elements(before + [name]) == (told - Elements(before)) - {name}
  {
    ElementsAppend(before, name);
  }

  method Record(told: map<string, string>, resources: seq<Resource>, removed: seq<string>)
    returns (after: map<string, string>)
    ensures after == Retold(told, Catalogue(resources), Elements(removed))
  {
    after := told;
    for i := 0 to |resources|
      invariant after == told + Versions(Catalogue(resources[..i]))
    {
      RecordResource(told, resources[..i], resources[i]);
      assert resources[..i + 1] == resources[..i] + [resources[i]];
      after := after[resources[i].name := resources[i].version];
    }
    assert resources[..|resources|] == resources;
    ghost var added := after;
    for i := 0 to |removed|
      invariant after == added - Elements(removed[..i])
    {
      RecordRemoval(added, removed[..i], removed[i]);
      assert removed[..i + 1] == removed[..i] + [removed[i]];
      after := after - {removed[i]};
    }
    assert removed[..|removed|] == removed;
  }

  lemma DifferingIsChanged(dialect: Dialect, sub: TypeSub, told: map<string, string>,
                           current: map<string, Entry>, wanted: seq<string>)
    requires Resolves(dialect, sub, current, wanted)
    ensures Differing(wanted, current, told) == Changed(dialect, sub, told, current)
  {
    forall n ensures Matches(dialect, sub, n) <==> Selected(dialect, sub, n) {
      MatchesIsSelected(dialect, sub, n);
    }
  }

  lemma EmptyLists(resources: seq<Resource>, removed: seq<string>)
    ensures resources == [] <==> Catalogue(resources) == map[]
    ensures removed == [] <==> Elements(removed) == {}
  {
    if resources != [] {
      assert resources[|resources| - 1].name in Catalogue(resources);
    }
    if removed != [] {
      assert removed[0] in Elements(removed);
    }
  }

  /** The two lists of the response: what changed, and what vanished. */
  method Compare(dialect: Dialect, sub: TypeSub, told: map<string, string>, snap: Snapshot, typeUrl: string)
    returns (resources: seq<Resource>, removed: seq<string>)
    ensures Catalogue(resources) == Changed(dialect, sub, told, snap.Of(typeUrl))
    ensures Elements(removed) == Vanished(dialect, sub, told, snap.Of(typeUrl))
    ensures Distinct(Names(resources)) && Distinct(removed)
    ensures Elements(Names(resources)) !! Elements(removed)
    ensures dialect.Glob? ==> StrictlySorted(Names(resources))
  {
    var wanted;
    if dialect.Exact? {
      wanted := WantedExact(sub, snap, typeUrl);
    } else {
      wanted := WantedGlob(sub, snap, typeUrl);
    }
    resources := Additions(wanted, snap.Of(typeUrl), told);
    DifferingIsChanged(dialect, sub, told, snap.Of(typeUrl), wanted);
    CatalogueNames(resources);
    removed := Removals(dialect, sub, snap.Of(typeUrl), told);
  }

  /** The response to be sent, unless it is empty, and what is recorded with it. */
  method Draft(dialect: Dialect, sub: TypeSub, told: map<string, string>, snap: Snapshot, typeUrl: string, counter: nat)
    returns (empty: bool, resp: DeltaResponse, after: map<string, string>)
    ensures var m := Due(dialect, sub, told, typeUrl, snap, counter);
            && Content(resp) == m && empty == Empty(m)
            && after == if empty then told else Retold(told, m.resources, m.removed)
    ensures WellFormed(dialect, resp)
  {
    var resources, removed := Compare(dialect, sub, told, snap, typeUrl);
    EmptyLists(resources, removed);
    empty := resources == [] && removed == [];
    after := told;
    if !empty {
      after := Record(told, resources, removed);
    }
    resp := DeltaResponse(snap.systemVersion, resources, typeUrl, removed, Nonce(typeUrl, counter));
  }

  /** What a response says on the wire: each resource as the snapshot has it, and removed what it lacks. */
  ghost predicate Reports(resp: DeltaResponse, typeUrl: string, snap: Snapshot) {
    && resp.typeUrl == typeUrl && resp.systemVersionInfo == snap.systemVersion
    && (resp.resources != [] || resp.removedResources != [])
    && (forall r :: r in resp.resources ==>
          r.name in snap.Of(typeUrl) && snap.Of(typeUrl)[r.name] == Entry(r.version, r.body))
    && (forall n :: n in resp.removedResources ==> n !in snap.Of(typeUrl))
  }

  lemma {:induction false} CatalogueAt(rs: seq<Resource>, i: nat)
    requires Distinct(Names(rs)) && i < |rs|
    ensures rs[i].name in Catalogue(rs) && Catalogue(rs)[rs[i].name] == Entry(rs[i].version, rs[i].body)
  {
    if i < |rs| - 1 {
      var before := rs[..|rs| - 1];
      assert Names(rs)[i] == rs[i].name && Names(rs)[|rs| - 1] == rs[|rs| - 1].name;
      forall j, k | 0 <= j < k < |before| ensures Names(before)[j] != Names(before)[k] {
        assert Names(before)[j] == Names(rs)[j] && Names(before)[k] == Names(rs)[k];
      }
      CatalogueAt(before, i);
    }
  }

  lemma DueReports(dialect: Dialect, sub: TypeSub, told: map<string, string>, snap: Snapshot, typeUrl: string,
                   counter: nat, resp: DeltaResponse)
    requires WellFormed(dialect, resp) && Content(resp) == Due(dialect, sub, told, typeUrl, snap, counter)
    requires !Empty(Content(resp))
    ensures Reports(resp, typeUrl, snap) && resp.nonce == Nonce(typeUrl, counter)
  {
    EmptyLists(resp.resources, resp.removedResources);
    forall r | r in resp.resources
      ensures r.name in snap.Of(typeUrl) && snap.Of(typeUrl)[r.name] == Entry(r.version, r.body)
    {
      var i :| 0 <= i < |resp.resources| && resp.resources[i] == r;
      CatalogueAt(resp.resources, i);
    }
    forall n | n in resp.removedResources ensures n !in snap.Of(typeUrl) {
      assert n in Elements(resp.removedResources);
    }
  }

  function Restricted(m: map<string, string>, names: seq<string>): map<string, string> {
    map n | n in m && n in names :: m[n]
  }

  lemma MergeNext(told: map<string, string>, initial: map<string, string>, before: seq<string>, name: string)
    requires name in initial
    ensures told + Restricted(initial, before + [name]) == (told + Restricted(initial, before))[name := initial[name]]
  {
    forall n ensures n in before + [name] <==> n in before || n == name {}
  }

  /** `initial_resource_versions`, merged one by one. */
  method Merge(told: map<string, string>, initial: map<string, string>) returns (after: map<string, string>)
    ensures after == told + initial
  {
    after := told;
    var names := Walk(initial.Keys);
    assert forall n :: n in names <==> n in Elements(names);
    for i := 0 to |names|
      invariant after == told + Restricted(initial, names[..i])
    {
      assert names[i] in names;
      MergeNext(told, initial, names[..i], names[i]);
      assert names[..i + 1] == names[..i] + [names[i]];
      after := after[names[i] := initial[names[i]]];
    }
    assert names[..|names|] == names;
    assert Restricted(initial, names) == initial;
  }

  // ----- building snapshots -----

  method Put(byType: map<string, map<string, Entry>>, typeUrl: string, name: string, version: string, body: Any)
    returns (r: map<string, map<string, Entry>>)
    ensures r == byType[typeUrl := (if typeUrl in byType then byType[typeUrl] else map[])[name := Entry(version, body)]]
  {
    var entries := if typeUrl in byType then byType[typeUrl] else map[];
    r := byType[typeUrl := entries[name := Entry(version, body)]];
  }

  // ----- the watch cell and the stream -----

  /** `watch::channel`: the last value sent, and how many were. */
  class WatchCell {
    var value: Snapshot
    var writes: nat

    constructor (first: Snapshot)
      ensures value == first && writes == 0
    {
      value, writes := first, 0;
    }

    method Send(snap: Snapshot)
      modifies this
      ensures value == snap && writes == old(writes) + 1
    {
      value, writes := snap, writes + 1;
    }
  }

  /** The local variables of the stream loop, and all that went out on the response channel. */
  class DeltaStream {
    const dialect: Dialect
    var subs: map<string, TypeSub>
    var sent: map<string, map<string, string>>
    var nonceCtr: nat
    var seen: nat
    var outbox: seq<DeltaResponse>

    ghost function State(): Stream
      reads this
    {
      Stream(subs, sent, nonceCtr, Contents(outbox))
    }

    constructor (dialect: Dialect, cell: WatchCell)
      ensures this.dialect == dialect && seen == cell.writes
      ensures State() == NEW_STREAM && AllWellFormed(dialect, outbox)
    {
      this.dialect := dialect;
      subs, sent, nonceCtr, seen, outbox := map[], map[], 0, cell.writes, [];
    }

    method SendDelta(typeUrl: string, snap: Snapshot)
      requires AllWellFormed(dialect, outbox)
      modifies this`subs, this`sent, this`nonceCtr, this`outbox
      ensures State() == DeltaModel.SendDelta(dialect, old(State()), typeUrl, snap)
      ensures AllWellFormed(dialect, outbox) && old(outbox) <= outbox
      ensures || (outbox == old(outbox) && nonceCtr == old(nonceCtr))
              || (&& |outbox| == |old(outbox)| + 1 && nonceCtr == old(nonceCtr) + 1
                  && Reports(outbox[|old(outbox)|], typeUrl, snap)
                  && outbox[|old(outbox)|].nonce == Nonce(typeUrl, nonceCtr))
    {
      hide Due, Retold, WellFormed, Reports, Nonce;
      var sub := if typeUrl in subs then subs[typeUrl] else NO_SUB;
      var told := if typeUrl in sent then sent[typeUrl] else map[];
      var empty, resp, after := Draft(dialect, sub, told, snap, typeUrl, nonceCtr + 1);
      subs := subs[typeUrl := sub];
      sent := sent[typeUrl := after];
      if !empty {
        OneMore(dialect, outbox, resp);
        DueReports(dialect, sub, told, snap, typeUrl, nonceCtr + 1, resp);
        nonceCtr := nonceCtr + 1;
        outbox := outbox + [resp];
      }
    }

    /** The inbound arm of the loop. */
    method OnRequest(req: Request, cell: WatchCell)
      requires AllWellFormed(dialect, outbox)
      modifies this`subs, this`sent, this`nonceCtr, this`outbox
      ensures State() == HandleRequest(dialect, old(State()), req, cell.value)
      ensures AllWellFormed(dialect, outbox) && old(outbox) <= outbox
    {
      if req.nack {
        return;
      }
      ghost var before := State();
      var told := if req.typeUrl in sent then sent[req.typeUrl] else map[];
      told := Merge(told, req.initial);
      sent := sent[req.typeUrl := told];
      var known := req.typeUrl in subs;
      var sub := if known then subs[req.typeUrl] else NO_SUB;
      sub := SubscribeTo(sub, req.subscribe);
      sub := UnsubscribeFrom(sub, req.unsubscribe);
      if !known && req.subscribe == [] && req.unsubscribe == [] {
        sub := sub.(wildcard := true);
      }
      subs := subs[req.typeUrl := sub];
      assert State() == Noted(before, req);
      SendDelta(req.typeUrl, cell.value);
    }

    /** The watch arm of the loop; `order` is the order in which the types come up. */
    method OnChanged(cell: WatchCell) returns (ghost order: seq<string>)
      requires AllWellFormed(dialect, outbox)
      modifies this
      ensures seen == cell.writes
      ensures Distinct(order) && Elements(order) == old(subs).Keys
      ensures State() == SendAll(dialect, old(State()), order, cell.value)
      ensures AllWellFormed(dialect, outbox) && old(outbox) <= outbox
    {
      seen := cell.writes;
      var snap := cell.value;
      var types := Walk(subs.Keys);
      order := types;
      ghost var before := State();
      for i := 0 to |types|
        invariant seen == cell.writes
        invariant State() == SendAll(dialect, before, types[..i], snap)
        invariant AllWellFormed(dialect, outbox) && old(outbox) <= outbox
      {
        assert types[..i + 1][..i] == types[..i];
        SendDelta(types[i], snap);
      }
      assert types[..|types|] == types;
    }
  }

  method SubscribeTo(sub: TypeSub, names: seq<string>) returns (r: TypeSub)
    ensures r == Subscribed(sub, names)
  {
    r := sub;
    for i := 0 to |names|
      invariant r == Subscribed(sub, names[..i])
    {
      assert names[..i + 1] == names[..i] + [names[i]];
      ElementsAppend(names[..i], names[i]);
      r := if names[i] == "*" then r.(wildcard := true) else r.(names := r.names + {names[i]});
    }
    assert names[..|names|] == names;
  }

  method UnsubscribeFrom(sub: TypeSub, names: seq<string>) returns (r: TypeSub)
    ensures r == Unsubscribed(sub, names)
  {
    r := sub;
    for i := 0 to |names|
      invariant r == Unsubscribed(sub, names[..i])
    {
      assert names[..i + 1] == names[..i] + [names[i]];
      ElementsAppend(names[..i], names[i]);
      r := if names[i] == "*" then r.(wildcard := false) else r.(names := r.names - {names[i]});
    }
    assert names[..|names|] == names;
  }
}
